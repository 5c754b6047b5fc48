# mi-cpptest in Dafny

A model of the core of mi-cpptest, a small unit-test harness for C++. Tests
register themselves when the program starts. `run_tests` then runs them,
filtered by regular expressions given on the command line, and writes the
results as a TAP stream (Test Anything Protocol, version 13).

The model has these modules:

- `Text`: byte strings (`std::string` as a sequence of 8-bit `char`s) and the
  decimal rendering `operator<<` gives an integer, with a reader for it.
- `Yaml`: `hexchar` and `yaml_escape`, the escaping of a failure message
  inside the double quotes of the `message:` line. It comes with an
  unescaping reader, proved to be the exact inverse of the escaping.
- `Assertions`: `test_failure`, `ensure` and the assertion macros of
  `mi_cpptest.h`. A statement of a test body either completes or throws an
  `Exception`. Every failed assertion throws a `test_failure` carrying its
  `__FILE__` and `__LINE__`.
- `Registry`: the process-wide vector of registered tests, as a class with a
  `seq` field that `RegisterTest` appends to. It also holds the
  `MI_CPPTEST_TEST_CASE` macro.
- `Report`: `write_test_status`, which writes the status line and the
  optional YAML message block. Readers parse one written status line and one
  written message line, and lemmas prove that what was written reads back.
- `Runner`: `run_tests`. It parses the filter arguments and counts the
  exclusive ones. It decides for each test whether it runs, runs it through
  the `try`/`catch`, classifies the outcome, writes the lines and computes
  `all_passed`. The method `RunTests` is proved against the specification
  functions `TestLines` and `AllPassed`, and lemmas describe the TAP stream
  those produce.
- `Stream`: the lines written out as bytes, each ended by a newline, and cut
  again at newline bytes, as a consumer of the stream sees them.
- `Version`: the packed version integer of `mi_cpptest_version.h`.
- `Scenario`: a worked run of three tests `a`, `b_skip` and `c` with the
  argument `-.*_skip`, and the exact stream it writes.

Modelling choices:

- The output stream is a sequence of lines, one element per `std::endl`.
- `std::regex` is a parameter. A `RegexEngine` value says which patterns
  compile and which names a pattern fully matches.
- A test body is its `Completion`: it returns normally or throws. Calling
  the test function is replaced by reading that value.
- `char` is taken to be signed, as on x86. Bytes 0x80 to 0xFF then compare
  below `' '` in `yaml_escape` and are hex-escaped. `hexchar`'s nibble mask
  still prints their unsigned value (`HexEscapeIsByteValue`).

What the code does, as the model follows it:

- Every `CHECK` macro expands to `REQUIRE`, so the first failed assertion
  throws and ends the test. A failed test carries exactly one message.
- The message is built in the `catch` handlers of `run_tests`, from the
  exception that left the test body.
- A `test_failure` message names the file exactly as `__FILE__` gives it.
- The YAML block is three lines: ` ---`, then ` message: "<escaped>"` (one
  quoted line, indented by one space), then ` ...`.
- Newline (0x0A) and tab are copied unescaped. All other bytes below 0x20
  are written as `\xHH`, and so are bytes from 0x80 up on a signed-`char`
  platform. `"` and `\` get a backslash before them.
- Every argument of `run_tests` is a filter pattern.
- A newline byte in a message reaches `std::cout` unchanged, so it splits
  the message line in two. The `Stream` module writes the lines out as
  bytes and cuts them again at newlines. It proves that the cut gives back
  the model's lines whenever no test name and no message holds a newline.
  It also works through a message that injects an extra `ok` line.

## Model

| member | source | states |
|---|---|---|
| Text.Decimal | mi_cpptest.cc:117 | a number is written as a non-empty run of decimal digits with no leading zero (except for 0 itself) |
| Text.DecimalRoundTrip | mi_cpptest.cc:117 | reading the written digits back gives the number written |
| Text.SignedDecimal | mi_cpptest.cc:171 | the `int` line number of a failure is written as decimal digits, after a minus sign exactly when it is negative |
| Text.SignedDecimalRoundTrip | mi_cpptest.cc:171 | reading the written line number back gives the line number, negative ones included |
| Text.DigitRun | mi_cpptest.cc:117-118 | a reader finds the longest run of digits at the start of a text, ended by a non-digit or the end |
| Text.DigitRunOf | mi_cpptest.cc:117-118 | the number written before the separating space is read back whole |
| Yaml.HexChar | mi_cpptest.cc:52-56 | `hexchar(i)` is an upper-case hex digit whose value is `i & 0xF` |
| Yaml.HexEscapedBytes | mi_cpptest.cc:62 | the signed test `ch < ' ' && ch != '\n' && ch != 9` selects exactly the control bytes other than newline and tab, and every byte from 0x80 up |
| Yaml.HexEscapeIsByteValue | mi_cpptest.cc:62-64 | a hex-escaped byte is written as `\x` and the byte's two upper-case hex digits, even when the signed `char` is negative |
| Yaml.YamlEscape | mi_cpptest.cc:58-72 | the loop writes exactly the per-byte escaping of the text, in order |
| Yaml.EscapedAppend | mi_cpptest.cc:61-70 | escaping works byte by byte: escaping a concatenation concatenates the escapings |
| Yaml.EscapedPlain | mi_cpptest.cc:67-69 | text with no control byte, no high byte, no `"` and no `\` is written unchanged |
| Yaml.EscapedNotShorter | mi_cpptest.cc:58-72 | escaping never shortens a message |
| Yaml.UnescapeEscapeByte | mi_cpptest.cc:61-69 | each byte's escape is read back as that byte, whatever follows it |
| Yaml.UnescapeEscaped | mi_cpptest.cc:58-72 | unescaping the escaped message gives back the original bytes |
| Yaml.EscapedUnescape | mi_cpptest.cc:58-72 | whatever unescapes to a message is exactly that message's escaping, so the escaping is a bijection onto the readable texts |
| Assertions.Ensure | mi_cpptest.cc:95-99 | `ensure` returns exactly when `b` holds, and otherwise throws a `test_failure` with the given file and line |
| Assertions.Require | mi_cpptest.h:82-83 | `REQUIRE(x)` completes exactly when `x` holds, and otherwise throws the failure at its own location |
| Assertions.Fail | mi_cpptest.h:87-88 | `FAIL(m)` always throws the failure at its location |
| Assertions.RequireEq | mi_cpptest.h:95-96 | `REQUIRE_EQ` completes exactly when the values are equal, and otherwise throws at its location |
| Assertions.CheckNe | mi_cpptest.h:100-101 | `CHECK_NE` completes exactly when the values differ, and otherwise throws at its location |
| Assertions.RequireGt | mi_cpptest.h:102-103 | `REQUIRE_GT` completes exactly when `a > b`, and otherwise throws at its location |
| Assertions.RequireGe | mi_cpptest.h:104-105 | `REQUIRE_GE` completes exactly when `a >= b`, and otherwise throws at its location |
| Assertions.RequireLe | mi_cpptest.h:106-107 | `REQUIRE_LE` completes exactly when `a <= b`, and otherwise throws at its location |
| Assertions.CheckThrow | mi_cpptest.h:114-115 | `CHECK_THROW` passes exactly when the statement throws something the named type catches, fails at its location when the statement completes, and lets any other exception through unchanged |
| Assertions.CheckNoThrow | mi_cpptest.h:116-117 | `CHECK_NO_THROW` passes exactly when the statement completes, and replaces any exception by the failure at its own location |
| Assertions.CheckIsRequire | mi_cpptest.h:84-98 | every `CHECK` form and every message form behaves exactly as the plain `REQUIRE` form |
| Assertions.MessagesDiscarded | mi_cpptest.h:87-93 | the message argument of `FAIL`, `REQUIRE_MESSAGE` and `CHECK_MESSAGE` has no effect |
| Assertions.BodyCompletes | mi_cpptest.h:82-85 | a test body completes exactly when every assertion in it holds |
| Assertions.FirstThrowEndsBody | mi_cpptest.h:82-85 | the first failed assertion decides how the body ends, and nothing after it matters |
| Registry.TestRegistry.constructor | mi_cpptest.cc:81-85 | the registry starts empty |
| Registry.TestRegistry.RegisterTest | mi_cpptest.cc:101-105 | `register_test` appends one entry with the given name and function at the end, and returns true |
| Registry.TestCase | mi_cpptest.h:67-70 | `TEST_CASE(x)` registers the body under the identifier's own spelling |
| Report.WriteTestStatus | mi_cpptest.cc:113-127 | the lines written for one test: the status line, then the three-line YAML block exactly when the message is non-empty |
| Report.ReadWrittenOkLine | mi_cpptest.cc:117-118 | `ok <number> <description>` reads back as that number and description |
| Report.ReadWrittenStatusLine | mi_cpptest.cc:115-121 | a status line reads back as "not ok" exactly for FAIL, with the number written, and with the name followed by ` # SKIP` exactly for SKIP |
| Report.NotPrefix | mi_cpptest.cc:115-117 | `not ` is recognised exactly when it was written before `ok` |
| Report.FailMarker | mi_cpptest.cc:115-116 | a status line starts with `not ` exactly when the test failed |
| Report.SkipMarker | mi_cpptest.cc:118-120 | a status line ends with ` # SKIP` exactly when the test was skipped, or when the name, with the space before it, ends so |
| Report.ReadWrittenMessage | mi_cpptest.cc:122-126 | the block is there exactly when the message is non-empty; its lines are ` ---`, the message line and ` ...`, and the message line reads back as the message |
| Runner.ParseFilterInverse | mi_cpptest.cc:137-141 | a leading `-` marks an exclusive filter on the rest of the argument; parsing and writing an argument are inverse |
| Runner.ParseFilters | mi_cpptest.cc:134-144 | there is one filter per argument, in argument order |
| Runner.CountExclusiveAll | mi_cpptest.cc:133-145 | `n_exclusive` is at most the number of filters, and equals it exactly when every filter is exclusive |
| Runner.DefaultRunsIffAllExclusive | mi_cpptest.cc:145 | `use_default` holds exactly when every filter is exclusive, which includes having no filter |
| Runner.BuildFilters | mi_cpptest.cc:131-144 | the run stops at the first argument whose pattern does not compile, and otherwise yields the parsed filters and the count of exclusive ones |
| Runner.FirstMatchDecides | mi_cpptest.cc:158-163 | the first filter that fully matches the name decides: skip if exclusive, run if inclusive |
| Runner.NoMatchDefault | mi_cpptest.cc:154-163 | when no filter matches, the default decides |
| Runner.DecideStatus | mi_cpptest.cc:154-163 | the filter loop with its `break` yields the first match's decision, or the default |
| Runner.FailureMessage | mi_cpptest.cc:169-177 | every exception leaving a test body gives a non-empty message |
| Runner.ReadWrittenFailure | mi_cpptest.cc:169-172 | the message for a `test_failure` reads back, up to its last `:`, as the file and the line number the failure was constructed with |
| Runner.Execute | mi_cpptest.cc:165-177 | a body that returns is OK with no message; a body that throws is FAIL with a message |
| Runner.Outcome | mi_cpptest.cc:154-180 | a test is SKIP exactly when the filters decide so, and then has no message; otherwise it is OK exactly when its body returns, and has a message exactly when it is not OK |
| Runner.SkippedBodyNeverRuns | mi_cpptest.cc:165 | a skipped test's result does not depend on its body |
| Runner.NoFiltersNoSkip | mi_cpptest.cc:145-154 | with no arguments no test is skipped |
| Runner.ExclusiveOnlySkipsMatches | mi_cpptest.cc:145-163 | with only exclusive filters, a test is skipped exactly when one of them matches its name |
| Runner.TestLinesStep | mi_cpptest.cc:151-181 | each test appends its own lines after those of the tests before it, numbered by its position from 1 |
| Runner.AllPassedStep | mi_cpptest.cc:178-179 | `all_passed` stays true across one more test exactly when that test did not fail |
| Runner.AllPassedIff | mi_cpptest.cc:149-183 | the run fails exactly when some test that was not skipped threw out of its body |
| Runner.TryRun | mi_cpptest.cc:166-177 | the `try`/`catch` gives the status and message that `Execute` specifies, per handler |
| Runner.RunOneTest | mi_cpptest.cc:152-181 | one pass of the loop: the test's lines as `Outcome` specifies, and whether it did not fail |
| Runner.RunRegistered | mi_cpptest.cc:149-182 | the loop over the registry appends every test's lines in registry order after what was written before, and ends with `all_passed` true exactly when no test failed |
| Runner.RunTests | mi_cpptest.cc:129-184 | a pattern that does not compile ends the run at the first such argument with nothing written; otherwise the output is the header followed by every test's lines in registry order, and the result is true exactly when no test failed |
| Runner.OneTestLine | mi_cpptest.cc:113-126 | of the lines written for one test, only the status line is a TAP test line (the block lines start with a space) |
| Runner.OneStatusLinePerTest | mi_cpptest.cc:147-182 | a run's output holds one test line per registered test, numbered 1..N in registry order |
| Runner.TapStream | mi_cpptest.cc:147-182 | the stream starts with `TAP version 13` and the plan `1..N`; its N test lines read back as tests 1..N in registry order, "not ok" exactly for the failed ones and with ` # SKIP` exactly for the skipped ones |
| Stream.SplitJoin | mi_cpptest.cc:121-125 | lines without newline bytes, each ended by `std::endl`, are cut back into exactly those lines |
| Stream.EscapedNoNewline | mi_cpptest.cc:58-72 | escaping adds no newline byte to a message that has none |
| Stream.PhysicalStream | mi_cpptest.cc:147-182 | when no test name and no message holds a newline byte, the bytes written cut back into exactly the model's lines, so what `Runner.TapStream` states holds of the stream a consumer reads |
| Stream.NewlineInjectsTestLine | mi_cpptest.cc:58-126 | one test throwing `std::runtime_error("a\nok 9 x")` gets one status line in the model's lines, but the bytes written cut into two test lines, the second read as a passing test 9 named `x"` |
| Version.FitsInInt | mi_cpptest_version.h:37-38 | with minor and patch in range, the encoding fits in a 32-bit `int` for major versions 0 to 2146; with major 2147 the largest that fits is 2147.483.647, whose encoding is `INT_MAX`, and 2147.999.999 overflows |
| Version.CurrentVersion | mi_cpptest_version.h:33-40 | the current version 0.2.0 is encoded as 2000 |
| Version.DecodeEncode | mi_cpptest_version.h:37-38 | with minor and patch below 1000 the components come back from the encoded integer |
| Version.EncodeDecode | mi_cpptest_version.h:37-38 | every integer is the encoding of its components, which are in range |
| Version.EncodingOrder | mi_cpptest_version.h:37-38 | for components in range, comparing encoded versions compares (major, minor, patch) lexicographically |
| Scenario.ScenarioOutcomes | mi_cpptest.cc:154-177 | with the argument `-.*_skip`: `a` passes, `b_skip` is skipped, and `c` throwing `std::runtime_error("boom")` fails with `uncaught exception: boom` |
| Scenario.ScenarioLines | mi_cpptest.cc:113-126 | the three tests' lines: `ok 1 a`, `ok 2 b_skip # SKIP`, and `not ok 3 c` followed by its message block |
| Scenario.ThreeTests | mi_cpptest.cc:151-182 | three registered tests write their groups of lines in order, numbered 1, 2 and 3 |
| Scenario.ScenarioOutput | mi_cpptest.cc:147-183 | the exact stream of the worked run, and that it returns false |

## Left out

- `check_close` and the `REQUIRE_CLOSE`/`CHECK_CLOSE` macros: they compare floating-point numbers, which the model does not represent.
- `MI_CPPTEST_FIXTURE_TEST_CASE`: it wraps a body in a fixture's constructor and destructor. A fixture test is registered like any other test, so its set-up and tear-down count as part of the body's `Completion`.
- `MI_CPPTEST_TEST_SUITE` and `MI_CPPTEST_TEST_SUITE_END` expand to nothing.
- The macros `REQUIRE_NE` and `stringify`, used by test/test_basic.cc, are not declared in this version of mi_cpptest.h.
- The regular-expression engine: `std::regex` construction and `std::regex_match` are the parameter `RegexEngine`. The exception `std::regex` throws for a bad pattern is modelled as `RegexError` with the index of the first bad argument; what the process then does with it happens outside `run_tests`.
- Stream I/O: `std::cout` is the returned sequence of lines, one per `std::endl`. The `Stream` module adds the bytes between them and the cut at newline bytes a consumer makes.
- Runner.TapStream: states the TAP structure of the model's lines, one per `std::endl`, not of the stream a consumer reads. A test name or message holding a newline byte cuts a line in two, and the stream can then hold more test lines than tests (`Stream.NewlineInjectsTestLine`). `Stream.PhysicalStream` carries `TapStream` over to the stream when no name and no message holds a newline byte.
- Runner.OneStatusLinePerTest: holds of the model's lines, not of the stream a consumer reads, for the same reason as `Runner.TapStream`.
- Static initialisation: the order in which translation units register their tests is the order of the `RegisterTest` calls.
- Calling a test function is reading its `Completion`; side effects of a test body on other state are not modelled.
- Runner.RunTests: `size_t` test numbers and counts are unbounded `nat`s, so wrap-around past 2^64 tests is not modelled.
- Version.VersionInt: evaluated over unbounded integers. The macro computes in 32-bit `int`, which can overflow from major version 2147 up (`Version.FitsInInt`). `Version.DecodeEncode` and `Version.EncodingOrder` are stated for every major version, beyond that range. The arguments are taken as values, as if parenthesised; the macro pastes their text, so `MI_CPPTEST_VERSION_INT(1+1, 0, 0)` is 1000001, not 2000000. `Version.Components` divides as Dafny does (Euclidean), which differs from C's truncating division for negative versions.
- Assertions.Catches: a `catch (T&)` for a user type `T` catches exactly the exceptions whose dynamic type is named `T`; class hierarchies other than `test_failure` deriving from `std::exception` are not modelled.
- Assertions.RequireEq: `==` of the compared values is Dafny equality, not a user-defined `operator==`. Each argument is taken as a value, as if parenthesised. The macro pastes its argument text into `x == y`, so `REQUIRE_EQ(f & 1, 0)` tests `f & (1 == 0)`.
- Assertions.CheckNe: each argument is taken as a value, as if parenthesised. The macro pastes its argument text into `x != y`, so an argument holding an operator that binds more loosely than `!=` changes the condition.
- Assertions.RequireGt: each argument is taken as a value, as if parenthesised. The macro pastes its argument text into `a > b`, so `REQUIRE_GT(a, b ? 1 : 2)` tests `(a > b) ? 1 : 2`, which never fails.
- Assertions.RequireGe: each argument is taken as a value, as if parenthesised. The macro pastes its argument text into `a >= b`, with the same effect on arguments holding looser operators.
- Assertions.RequireLe: each argument is taken as a value, as if parenthesised. The macro pastes its argument text into `a <= b`, with the same effect on arguments holding looser operators.
- Yaml.YamlEscape: only platforms with a signed `char` are modelled. With an unsigned `char`, bytes from 0x80 up would be copied unescaped.
- The YAML block's `\xHH` escapes name Unicode code points in YAML, so a YAML reader would read each byte of a UTF-8 message as a separate Latin-1 character. `Unescape` reads them back as bytes.
