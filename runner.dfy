/**
 * `run_tests` of mi_cpptest.cc: turns the arguments into filters, decides for
 * each registered test whether it runs, runs it, classifies how it ended,
 * and writes the TAP stream; it returns whether every test that ran passed.
 *
 * `std::regex` is outside the model: a `RegexEngine` value says which
 * patterns compile and which names a compiled pattern fully matches.
 */
module Runner {
  import opened Text
  import opened Assertions
  import opened Registry
  import opened Report

  /** `std::regex(pattern)` succeeds when `compiles(pattern)`; `std::regex_match(name, regex)` is `fullMatch(pattern, name)`. */
  datatype RegexEngine = RegexEngine(compiles: Bytes -> bool, fullMatch: (Bytes, Bytes) -> bool)

  /** `test_filter`: an exclusive filter skips the tests it matches, an inclusive one runs them. */
  datatype Filter = Filter(exclusive: bool, regex: Bytes)

  /** A leading `-` makes the argument an exclusive filter on the rest; any other argument is an inclusive filter on the whole. */
  function ParseFilter(pattern: Bytes): Filter {
    if |pattern| > 0 && pattern[0] == '-' then Filter(true, pattern[1..]) else Filter(false, pattern)
  }

  /** The argument a filter is written as. */
  function FilterArgument(f: Filter): Bytes {
    if f.exclusive then "-" + f.regex else f.regex
  }

  /**
   * Parsing is the inverse of writing a filter as an argument, for every
   * filter that can be written at all (an inclusive pattern cannot start
   * with `-`), and every argument is read as the filter it is written as.
   */
  lemma ParseFilterInverse(f: Filter, pattern: Bytes)
    ensures (f.exclusive || f.regex == [] || f.regex[0] != '-') ==> ParseFilter(FilterArgument(f)) == f
    ensures FilterArgument(ParseFilter(pattern)) == pattern
  {
    if f.exclusive {
      assert ("-" + f.regex)[1..] == f.regex;
    }
    if |pattern| > 0 && pattern[0] == '-' {
      assert "-" + pattern[1..] == pattern;
    }
  }

  /** The filters of a list of arguments, in argument order. */
  function ParseFilters(patterns: seq<Bytes>): (filters: seq<Filter>)
    ensures |filters| == |patterns|
    ensures forall i :: 0 <= i < |patterns| ==> filters[i] == ParseFilter(patterns[i])
  {
    seq(|patterns|, i requires 0 <= i < |patterns| => ParseFilter(patterns[i]))
  }

  predicate Compiles(engine: RegexEngine, pattern: Bytes) {
    engine.compiles(ParseFilter(pattern).regex)
  }

  /** The number of exclusive filters. */
  function CountExclusive(filters: seq<Filter>): nat {
    if filters == [] then 0
    else CountExclusive(filters[..|filters| - 1]) + (if filters[|filters| - 1].exclusive then 1 else 0)
  }

  /** `use_default`: no filter, or only exclusive ones. */
  function UseDefault(filters: seq<Filter>): bool {
    filters == [] || CountExclusive(filters) == |filters|
  }

  /** The count equals the length exactly when every filter is exclusive. */
  lemma {:induction false} CountExclusiveAll(filters: seq<Filter>)
    ensures CountExclusive(filters) <= |filters|
    ensures CountExclusive(filters) == |filters| <==> forall i :: 0 <= i < |filters| ==> filters[i].exclusive
  {
    if filters != [] {
      var init := filters[..|filters| - 1];
      CountExclusiveAll(init);
      assert forall i :: 0 <= i < |init| ==> init[i] == filters[i];
    }
  }

  /** The default decision is "run" exactly when every filter is exclusive (vacuously so with no filter). */
  lemma DefaultRunsIffAllExclusive(filters: seq<Filter>)
    ensures UseDefault(filters) <==> forall i :: 0 <= i < |filters| ==> filters[i].exclusive
  {
    CountExclusiveAll(filters);
  }

  /** Why `run_tests` stops before writing anything: the first argument whose pattern does not compile. */
  datatype FilterSet = Filters(filters: seq<Filter>, nExclusive: nat) | BadPattern(index: nat)

  /** The loop that fills `filters` and counts `n_exclusive`; `std::regex` throws on the first pattern that does not compile. */
  method BuildFilters(patterns: seq<Bytes>, engine: RegexEngine) returns (r: FilterSet)
    ensures r.BadPattern? <==> exists i :: 0 <= i < |patterns| && !Compiles(engine, patterns[i])
    ensures r.BadPattern? ==>
      && r.index < |patterns| && !Compiles(engine, patterns[r.index])
      && forall j :: 0 <= j < r.index ==> Compiles(engine, patterns[j])
    ensures r.Filters? ==> r.filters == ParseFilters(patterns) && r.nExclusive == CountExclusive(r.filters)
  {
    var filters: seq<Filter> := [];
    var nExclusive := 0;
    for i := 0 to |patterns|
      invariant filters == ParseFilters(patterns[..i])
      invariant nExclusive == CountExclusive(filters)
      invariant forall j :: 0 <= j < i ==> Compiles(engine, patterns[j])
    {
      var pattern := patterns[i];
      var exclusive := |pattern| > 0 && pattern[0] == '-';
      if exclusive {
        nExclusive := nExclusive + 1;
        pattern := pattern[1..];
      }
      if !engine.compiles(pattern) {
        return BadPattern(i);
      }
      assert (filters + [Filter(exclusive, pattern)])[..|filters|] == filters;
      filters := filters + [Filter(exclusive, pattern)];
    }
    assert patterns[..|patterns|] == patterns;
    return Filters(filters, nExclusive);
  }

  /** The status the first fully matching filter gives (SKIP if exclusive, FAIL as "will run" if inclusive), else `default`. */
  function Decision(filters: seq<Filter>, name: Bytes, engine: RegexEngine, default: TestStatus): TestStatus {
    if filters == [] then default
    else if engine.fullMatch(filters[0].regex, name) then (if filters[0].exclusive then SKIP else FAIL)
    else Decision(filters[1..], name, engine, default)
  }

  /** The status a test starts with: FAIL ("will run") under the default, SKIP otherwise. */
  function InitialStatus(useDefault: bool): TestStatus {
    if useDefault then FAIL else SKIP
  }

  /** The first filter that matches decides, whatever comes after it. */
  lemma {:induction false} FirstMatchDecides(filters: seq<Filter>, name: Bytes, engine: RegexEngine, default: TestStatus, i: nat)
    requires i < |filters| && engine.fullMatch(filters[i].regex, name)
    requires forall j :: 0 <= j < i ==> !engine.fullMatch(filters[j].regex, name)
    ensures Decision(filters, name, engine, default) == if filters[i].exclusive then SKIP else FAIL
  {
    if i > 0 {
      FirstMatchDecides(filters[1..], name, engine, default, i - 1);
    }
  }

  /** When no filter matches, the default decides. */
  lemma {:induction false} NoMatchDefault(filters: seq<Filter>, name: Bytes, engine: RegexEngine, default: TestStatus)
    requires forall j :: 0 <= j < |filters| ==> !engine.fullMatch(filters[j].regex, name)
    ensures Decision(filters, name, engine, default) == default
  {
    if filters != [] {
      NoMatchDefault(filters[1..], name, engine, default);
    }
  }

  /** The inner loop of `run_tests` over the filters, which stops at the first match. */
  method DecideStatus(filters: seq<Filter>, useDefault: bool, name: Bytes, engine: RegexEngine) returns (status: TestStatus)
    ensures status == Decision(filters, name, engine, InitialStatus(useDefault))
  {
    status := if useDefault then FAIL else SKIP;
    var i := 0;
    while i < |filters|
      invariant 0 <= i <= |filters|
      invariant Decision(filters[i..], name, engine, status) == Decision(filters, name, engine, InitialStatus(useDefault))
      invariant status == InitialStatus(useDefault)
    {
      var tf := filters[i];
      if engine.fullMatch(tf.regex, name) {
        status := if tf.exclusive then SKIP else FAIL;
        break;
      }
      assert filters[i..][1..] == filters[i + 1..];
      i := i + 1;
    }
  }

  /** A test's final status and the message written for it. */
  datatype TestResult = TestResult(status: TestStatus, message: Bytes)

  const FAILED_IN: Bytes := "failed in "

  /** The message the handlers of `run_tests` build for an exception that left a test body. */
  function FailureMessage(e: Exception): (m: Bytes)
    ensures |m| > 0
  {
    match e
    case Failure(tf) => FAILED_IN + tf.file + ":" + SignedDecimal(tf.lineno)
    case StdException(_, what) => "uncaught exception: " + what
    case Foreign(_) => "uncaught exception"
  }

  /** The index of the last `:` in `s`, or -1 when there is none. */
  function LastColon(s: Bytes): (k: int)
    ensures -1 <= k < |s|
    ensures k >= 0 ==> s[k] == ':'
    ensures forall j :: k < j < |s| ==> s[j] != ':'
  {
    if s == [] then -1
    else if s[|s| - 1] == ':' then |s| - 1
    else LastColon(s[..|s| - 1])
  }

  lemma {:induction false} LastColonOf(a: Bytes, b: Bytes)
    requires forall j :: 0 <= j < |b| ==> b[j] != ':'
    ensures LastColon(a + [':'] + b) == |a|
    decreases |b|
  {
    if b != [] {
      var s := a + [':'] + b;
      assert s[..|s| - 1] == a + [':'] + b[..|b| - 1];
      LastColonOf(a, b[..|b| - 1]);
    }
  }

  /**
   * What a reader of the report recovers from a `failed in <file>:<line>`
   * message: the file (everything up to the last `:`) and the line number.
   */
  function ReadFailureMessage(m: Bytes): Option<(Bytes, int)> {
    if !StartsWith(m, FAILED_IN) then None
    else
      var k := LastColon(m);
      if k < |FAILED_IN| || !IsSignedNumeral(m[k + 1..]) then None
      else Some((m[|FAILED_IN|..k], SignedDecimalValue(m[k + 1..])))
  }

  /** The message for a `test_failure` reads back as the file and line the failure was constructed with. */
  lemma ReadWrittenFailure(tf: TestFailure)
    ensures ReadFailureMessage(FailureMessage(Failure(tf))) == Some((tf.file, tf.lineno as int))
  {
    var num := SignedDecimal(tf.lineno);
    var head := FAILED_IN + tf.file;
    var m := head + [':'] + num;
    assert FailureMessage(Failure(tf)) == m;
    forall j | 0 <= j < |num|
      ensures num[j] != ':'
    {
      if num[0] == '-' && j > 0 {
        assert num[1..][j - 1] == num[j];
      }
    }
    LastColonOf(head, num);
    assert m[..|FAILED_IN|] == FAILED_IN;
    assert m[|head| + 1..] == num;
    assert m[|FAILED_IN|..|head|] == tf.file;
    SignedDecimalRoundTrip(tf.lineno);
  }

  /** Running a body: OK with no message when it returns, FAIL with a non-empty message when it throws. */
  function Execute(body: Completion): (r: TestResult)
    ensures r.status == OK <==> body == Normal
    ensures r.status == FAIL <==> body.Throw?
    ensures r.status == OK <==> r.message == []
  {
    match body
    case Normal => TestResult(OK, [])
    case Throw(e) => TestResult(FAIL, FailureMessage(e))
  }

  /** The result of one registered test under the given filters. */
  function Outcome(filters: seq<Filter>, engine: RegexEngine, rt: RegisteredTest): (r: TestResult)
    ensures r.status == SKIP <==> Decision(filters, rt.name, engine, InitialStatus(UseDefault(filters))) == SKIP
    ensures r.status == SKIP ==> r.message == []
    ensures r.status != SKIP ==> (r.status == OK <==> rt.body == Normal) && (r.status == OK <==> r.message == [])
  {
    if Decision(filters, rt.name, engine, InitialStatus(UseDefault(filters))) == SKIP then TestResult(SKIP, [])
    else Execute(rt.body)
  }

  /** A skipped test's body is never run: its result does not depend on it. */
  lemma SkippedBodyNeverRuns(filters: seq<Filter>, engine: RegexEngine, name: Bytes, body1: Completion, body2: Completion)
    requires Outcome(filters, engine, RegisteredTest(name, body1)).status == SKIP
    ensures Outcome(filters, engine, RegisteredTest(name, body2)) == Outcome(filters, engine, RegisteredTest(name, body1))
  {
  }

  /** With no filters no test is skipped. */
  lemma NoFiltersNoSkip(engine: RegexEngine, rt: RegisteredTest)
    ensures Outcome([], engine, rt).status != SKIP
  {
  }

  /** With only exclusive filters, a test is skipped exactly when one of them matches its name. */
  lemma {:induction false} ExclusiveOnlySkipsMatches(filters: seq<Filter>, engine: RegexEngine, rt: RegisteredTest)
    requires forall i :: 0 <= i < |filters| ==> filters[i].exclusive
    ensures Outcome(filters, engine, rt).status == SKIP <==>
      exists i :: 0 <= i < |filters| && engine.fullMatch(filters[i].regex, rt.name)
  {
    DefaultRunsIffAllExclusive(filters);
    if i :| 0 <= i < |filters| && engine.fullMatch(filters[i].regex, rt.name) {
      var first := FirstIndex(filters, engine, rt.name, i);
      FirstMatchDecides(filters, rt.name, engine, FAIL, first);
    } else {
      NoMatchDefault(filters, rt.name, engine, FAIL);
    }
  }

  /** The least index of a filter that matches `name`, given that filter `i` does. */
  lemma {:induction false} FirstIndex(filters: seq<Filter>, engine: RegexEngine, name: Bytes, i: nat) returns (first: nat)
    requires i < |filters| && engine.fullMatch(filters[i].regex, name)
    ensures first <= i && engine.fullMatch(filters[first].regex, name)
    ensures forall j :: 0 <= j < first ==> !engine.fullMatch(filters[j].regex, name)
  {
    first := i;
    while first > 0 && exists j :: 0 <= j < first && engine.fullMatch(filters[j].regex, name)
      invariant first <= i && engine.fullMatch(filters[first].regex, name)
      decreases first
    {
      var j :| 0 <= j < first && engine.fullMatch(filters[j].regex, name);
      first := j;
    }
  }

  /** The lines written for `tests`, in order, the i-th numbered i + 1. */
  function TestLines(tests: seq<RegisteredTest>, filters: seq<Filter>, engine: RegexEngine): seq<Bytes> {
    if tests == [] then []
    else
      var last := tests[|tests| - 1];
      var r := Outcome(filters, engine, last);
      TestLines(tests[..|tests| - 1], filters, engine) + StatusLines(r.status, |tests|, last.name, r.message)
  }

  /** Writing one more test appends its lines, numbered after the ones before. */
  lemma TestLinesStep(tests: seq<RegisteredTest>, filters: seq<Filter>, engine: RegexEngine, k: nat)
    requires k < |tests|
    ensures var r := Outcome(filters, engine, tests[k]);
      TestLines(tests[..k + 1], filters, engine) ==
        TestLines(tests[..k], filters, engine) + StatusLines(r.status, k + 1, tests[k].name, r.message)
  {
    assert tests[..k + 1][..k] == tests[..k];
  }

  /** `all_passed`: no test ended FAIL. */
  predicate AllPassed(tests: seq<RegisteredTest>, filters: seq<Filter>, engine: RegexEngine) {
    forall i :: 0 <= i < |tests| ==> Outcome(filters, engine, tests[i]).status != FAIL
  }

  lemma AllPassedStep(tests: seq<RegisteredTest>, filters: seq<Filter>, engine: RegexEngine, k: nat)
    requires k < |tests|
    ensures AllPassed(tests[..k + 1], filters, engine) <==>
      AllPassed(tests[..k], filters, engine) && Outcome(filters, engine, tests[k]).status != FAIL
  {
    assert forall i :: 0 <= i < k ==> tests[..k + 1][i] == tests[..k][i];
  }

  /** The run fails exactly when some test that was not skipped threw out of its body. */
  lemma AllPassedIff(tests: seq<RegisteredTest>, filters: seq<Filter>, engine: RegexEngine)
    ensures !AllPassed(tests, filters, engine) <==>
      exists i :: 0 <= i < |tests| && Outcome(filters, engine, tests[i]).status != SKIP && tests[i].body.Throw?
  {
    if !AllPassed(tests, filters, engine) {
      var i :| 0 <= i < |tests| && Outcome(filters, engine, tests[i]).status == FAIL;
      assert tests[i].body.Throw?;
    }
  }

  /** The `try`/`catch` around a test body in `run_tests`: how it ended, and the message for it. */
  method TryRun(body: Completion) returns (status: TestStatus, message: Bytes)
    ensures TestResult(status, message) == Execute(body)
  {
    status := FAIL;
    message := [];
    match body {
      case Normal =>
        status := OK;
      case Throw(Failure(tf)) =>
        message := FAILED_IN + tf.file + ":" + SignedDecimal(tf.lineno);
      case Throw(StdException(_, what)) =>
        message := "uncaught exception: " + what;
      case Throw(Foreign(_)) =>
        message := "uncaught exception";
    }
  }

  /** One pass of the loop of `run_tests` over the registry: decide, run unless skipped, write the lines. */
  method RunOneTest(filters: seq<Filter>, useDefault: bool, rt: RegisteredTest, number: nat, engine: RegexEngine)
    returns (passed: bool, lines: seq<Bytes>)
    requires useDefault == UseDefault(filters)
    ensures var r := Outcome(filters, engine, rt);
      && (passed <==> r.status != FAIL)
      && lines == StatusLines(r.status, number, rt.name, r.message)
  {
    passed := true;
    var status := DecideStatus(filters, useDefault, rt.name, engine);
    var message: Bytes := [];
    if status != SKIP {
      status, message := TryRun(rt.body);
      if status != OK {
        passed := false;
      }
    }
    assert TestResult(status, message) == Outcome(filters, engine, rt);
    lines := WriteTestStatus(status, number, rt.name, message);
  }

  lemma ConcatAssociative<T>(a: seq<T>, b: seq<T>, c: seq<T>)
    ensures (a + b) + c == a + (b + c)
  {
  }

  /** How a run ends: a pattern that does not compile (nothing written), or the result and the lines written. */
  datatype RunResult = RegexError(index: nat) | Completed(allPassed: bool, output: seq<Bytes>)

  /** `run_tests(npatterns, patterns)` over the tests of `registry`. */
  method RunTests(registry: TestRegistry, patterns: seq<Bytes>, engine: RegexEngine) returns (r: RunResult)
    ensures r.RegexError? <==> exists i :: 0 <= i < |patterns| && !Compiles(engine, patterns[i])
    ensures r.RegexError? ==>
      && r.index < |patterns| && !Compiles(engine, patterns[r.index])
      && forall j :: 0 <= j < r.index ==> Compiles(engine, patterns[j])
    ensures r.Completed? ==>
      var filters := ParseFilters(patterns);
      && r.output == Header(|registry.tests|) + TestLines(registry.tests, filters, engine)
      && (r.allPassed <==> AllPassed(registry.tests, filters, engine))
  {
    var built := BuildFilters(patterns, engine);
    if built.BadPattern? {
      return RegexError(built.index);
    }
    var filters := built.filters;
    var useDefault := |filters| == 0 || built.nExclusive == |filters|;

    var tests := registry.tests;
    var header := [TAP_VERSION_LINE, "1.." + Decimal(|tests|)];
    assert header == Header(|tests|);
    var allPassed, output := RunRegistered(tests, filters, useDefault, engine, header);
    return Completed(allPassed, output);
  }

  /** The loop of `run_tests` over the registered tests, writing after what is already in `output`. */
  method RunRegistered(tests: seq<RegisteredTest>, filters: seq<Filter>, useDefault: bool, engine: RegexEngine, before: seq<Bytes>)
    returns (allPassed: bool, output: seq<Bytes>)
    requires useDefault == UseDefault(filters)
    ensures output == before + TestLines(tests, filters, engine)
    ensures allPassed <==> AllPassed(tests, filters, engine)
  {
    output := before;
    allPassed := true;
    var testNumber := 0;
    ghost var written: seq<Bytes> := [];
    while testNumber < |tests|
      invariant 0 <= testNumber <= |tests|
      invariant written == TestLines(tests[..testNumber], filters, engine)
      invariant output == before + written
      invariant allPassed <==> AllPassed(tests[..testNumber], filters, engine)
    {
      var rt := tests[testNumber];
      TestLinesStep(tests, filters, engine, testNumber);
      AllPassedStep(tests, filters, engine, testNumber);
      testNumber := testNumber + 1;

      var passed, lines := RunOneTest(filters, useDefault, rt, testNumber, engine);
      if !passed {
        allPassed := false;
      }
      ConcatAssociative(before, written, lines);
      output := output + lines;
      written := written + lines;
    }
    assert tests[..|tests|] == tests;
  }

  /** A TAP consumer takes a line for a test line when it does not start with a space (the YAML block lines all do). */
  predicate IsTestLine(line: Bytes) {
    line != [] && line[0] != ' '
  }

  /** The test lines among `lines`, in order. */
  function TestLinesOf(lines: seq<Bytes>): seq<Bytes> {
    if lines == [] then []
    else TestLinesOf(lines[..|lines| - 1]) + (if IsTestLine(lines[|lines| - 1]) then [lines[|lines| - 1]] else [])
  }

  lemma {:induction false} TestLinesOfAppend(a: seq<Bytes>, b: seq<Bytes>)
    ensures TestLinesOf(a + b) == TestLinesOf(a) + TestLinesOf(b)
    decreases |b|
  {
    if b == [] {
      assert a + b == a;
    } else {
      var init := b[..|b| - 1];
      assert (a + b)[..|a + b| - 1] == a + init;
      TestLinesOfAppend(a, init);
    }
  }

  /** The test lines among one line. */
  function Kept(line: Bytes): seq<Bytes> {
    if IsTestLine(line) then [line] else []
  }

  lemma TestLinesOfSnoc(init: seq<Bytes>, line: Bytes)
    ensures TestLinesOf(init + [line]) == TestLinesOf(init) + Kept(line)
  {
    assert (init + [line])[..|init|] == init;
  }

  /** Of the lines written for one test, exactly the status line is a test line. */
  lemma OneTestLine(status: TestStatus, number: nat, name: Bytes, message: Bytes)
    ensures TestLinesOf(StatusLines(status, number, name, message)) == [StatusLine(status, number, name)]
  {
    var first := StatusLine(status, number, name);
    assert first[0] == (if status == FAIL then 'n' else 'o');
    var none: seq<Bytes> := [];
    TestLinesOfSnoc(none, first);
    assert TestLinesOf(none) == none;
    if message != [] {
      var line := MessageBlock(message)[1];
      assert line[0] == ' ';
      var l1 := none + [first];
      var l2 := l1 + [" ---"];
      var l3 := l2 + [line];
      TestLinesOfSnoc(l1, " ---");
      TestLinesOfSnoc(l2, line);
      TestLinesOfSnoc(l3, " ...");
      assert l3 + [" ..."] == StatusLines(status, number, name, message);
    } else {
      assert none + [first] == StatusLines(status, number, name, message);
    }
  }

  /** The test lines of a run are one status line per registered test, numbered 1..N in registry order. */
  lemma {:induction false} OneStatusLinePerTest(tests: seq<RegisteredTest>, filters: seq<Filter>, engine: RegexEngine)
    ensures |TestLinesOf(TestLines(tests, filters, engine))| == |tests|
    ensures forall i :: 0 <= i < |tests| ==>
      TestLinesOf(TestLines(tests, filters, engine))[i] == StatusLine(Outcome(filters, engine, tests[i]).status, i + 1, tests[i].name)
  {
    if tests != [] {
      var n := |tests|;
      var init := tests[..n - 1];
      var last := tests[n - 1];
      var r := Outcome(filters, engine, last);
      var before := TestLines(init, filters, engine);
      var group := StatusLines(r.status, n, last.name, r.message);
      assert TestLines(tests, filters, engine) == before + group;
      OneStatusLinePerTest(init, filters, engine);
      TestLinesOfAppend(before, group);
      OneTestLine(r.status, n, last.name, r.message);
      var lines := TestLinesOf(before) + [StatusLine(r.status, n, last.name)];
      assert TestLinesOf(TestLines(tests, filters, engine)) == lines;
      forall i | 0 <= i < n
        ensures lines[i] == StatusLine(Outcome(filters, engine, tests[i]).status, i + 1, tests[i].name)
      {
        if i < n - 1 {
          assert init[i] == tests[i];
        }
      }
    }
  }

  /**
   * The stream of a completed run: `TAP version 13`, the plan `1..N` with N
   * the number of registered tests, and then N test lines that a TAP
   * consumer reads as tests 1..N in registry order, "not ok" exactly for the
   * tests that failed and ` # SKIP` after the name exactly for those skipped.
   */
  lemma TapStream(tests: seq<RegisteredTest>, patterns: seq<Bytes>, engine: RegexEngine)
    ensures var out := Header(|tests|) + TestLines(tests, ParseFilters(patterns), engine);
      && out[0] == TAP_VERSION_LINE && out[1] == "1.." + Decimal(|tests|)
      && |TestLinesOf(out[2..])| == |tests|
      && forall i :: 0 <= i < |tests| ==>
           var r := Outcome(ParseFilters(patterns), engine, tests[i]);
           ReadStatusLine(TestLinesOf(out[2..])[i]) == Some(StatusRecord(r.status != FAIL, i + 1, tests[i].name + SkipSuffix(r.status)))
  {
    var filters := ParseFilters(patterns);
    var out := Header(|tests|) + TestLines(tests, filters, engine);
    assert out[2..] == TestLines(tests, filters, engine);
    OneStatusLinePerTest(tests, filters, engine);
    forall i | 0 <= i < |tests|
      ensures var r := Outcome(filters, engine, tests[i]);
        ReadStatusLine(TestLinesOf(out[2..])[i]) == Some(StatusRecord(r.status != FAIL, i + 1, tests[i].name + SkipSuffix(r.status)))
    {
      var r := Outcome(filters, engine, tests[i]);
      assert TestLinesOf(out[2..])[i] == StatusLine(r.status, i + 1, tests[i].name);
      ReadWrittenStatusLine(r.status, i + 1, tests[i].name);
    }
  }
}
