/**
 * The bytes `run_tests` sends to `std::cout`, and the lines a TAP consumer
 * cuts them into. The rest of the model writes one element per `std::endl`;
 * here each element is followed by its newline byte, and the stream is split
 * again at every newline byte. `yaml_escape` copies a newline byte unchanged,
 * so a message holding one is cut into several physical lines.
 */
module Stream {
  import opened Text
  import opened Yaml
  import opened Assertions
  import opened Registry
  import opened Report
  import opened Runner

  predicate NoNewline(line: Bytes) {
    forall j :: 0 <= j < |line| ==> line[j] != '\n'
  }

  /** The bytes written for `lines`: each one followed by the newline of `std::endl`. */
  function Join(lines: seq<Bytes>): Bytes {
    if lines == [] then [] else lines[0] + "\n" + Join(lines[1..])
  }

  /** The length of the first line of `s`: the bytes before its first newline. */
  function LineLength(s: Bytes): (k: nat)
    ensures k <= |s|
    ensures forall j :: 0 <= j < k ==> s[j] != '\n'
    ensures k < |s| ==> s[k] == '\n'
  {
    if s == [] || s[0] == '\n' then 0
    else
      var k := 1 + LineLength(s[1..]);
      assert forall j :: 1 <= j < k ==> s[j] == s[1..][j - 1];
      k
  }

  /** The lines a consumer reads: `s` cut at every newline byte, a last line without one included. */
  function Split(s: Bytes): seq<Bytes>
    decreases |s|
  {
    if s == [] then []
    else
      var k := LineLength(s);
      [s[..k]] + (if k < |s| then Split(s[k + 1..]) else [])
  }

  lemma {:induction false} LineLengthOf(line: Bytes, rest: Bytes)
    requires NoNewline(line)
    ensures LineLength(line + "\n" + rest) == |line|
  {
    if line != [] {
      assert (line + "\n" + rest)[1..] == line[1..] + "\n" + rest;
      LineLengthOf(line[1..], rest);
    }
  }

  /** Lines without newline bytes are read back exactly as they were written. */
  lemma {:induction false} SplitJoin(lines: seq<Bytes>)
    requires AllNoNewline(lines)
    ensures Split(Join(lines)) == lines
  {
    if lines != [] {
      var rest := Join(lines[1..]);
      var s := lines[0] + "\n" + rest;
      LineLengthOf(lines[0], rest);
      assert s[..|lines[0]|] == lines[0];
      assert s[|lines[0]| + 1..] == rest;
      SplitJoin(lines[1..]);
      assert [lines[0]] + lines[1..] == lines;
    }
  }

  lemma {:induction false} JoinAppend(a: seq<Bytes>, b: seq<Bytes>)
    ensures Join(a + b) == Join(a) + Join(b)
  {
    if a != [] {
      assert (a + b)[1..] == a[1..] + b;
      JoinAppend(a[1..], b);
    } else {
      assert a + b == b;
    }
  }

  /** A line holding a newline byte is written exactly as the two lines around it. */
  lemma JoinSplitsLine(before: seq<Bytes>, x: Bytes, y: Bytes, after: seq<Bytes>)
    ensures Join(before + [x + "\n" + y] + after) == Join(before + [x, y] + after)
  {
    JoinAppend(before + [x + "\n" + y], after);
    JoinAppend(before, [x + "\n" + y]);
    JoinAppend(before + [x, y], after);
    JoinAppend(before, [x, y]);
    assert [x + "\n" + y][1..] == [];
    assert Join([x + "\n" + y]) == x + "\n" + y + "\n";
    assert [x, y][1..] == [y] && [y][1..] == [];
    assert Join([x, y]) == x + "\n" + (y + "\n");
  }

  lemma NoNewlineConcat(a: Bytes, b: Bytes)
    ensures NoNewline(a + b) <==> NoNewline(a) && NoNewline(b)
  {
    assert forall j :: 0 <= j < |b| ==> b[j] == (a + b)[|a| + j];
    assert forall j :: 0 <= j < |a| ==> a[j] == (a + b)[j];
  }

  /** Escaping adds no newline byte: the escape of every other byte is free of them. */
  lemma {:induction false} EscapedNoNewline(message: Bytes)
    requires NoNewline(message)
    ensures NoNewline(Escaped(message))
  {
    if message != [] {
      EscapedNoNewline(message[1..]);
      var c := message[0];
      if NeedsHexEscape(c) {
        var u := ToUnsigned(SignedChar(c));
        assert IsHexDigit(HexChar(u / 16)) && IsHexDigit(HexChar(u));
      }
      NoNewlineConcat(EscapeByte(c), Escaped(message[1..]));
    }
  }

  /** Every line of `lines` is free of newline bytes. */
  predicate AllNoNewline(lines: seq<Bytes>) {
    forall i :: 0 <= i < |lines| ==> NoNewline(lines[i])
  }

  lemma AllNoNewlineAppend(a: seq<Bytes>, b: seq<Bytes>)
    requires AllNoNewline(a) && AllNoNewline(b)
    ensures AllNoNewline(a + b)
  {
    assert forall i :: |a| <= i < |a + b| ==> (a + b)[i] == b[i - |a|];
  }

  lemma DecimalNoNewline(n: nat)
    ensures NoNewline(Decimal(n))
  {
    var digits := Decimal(n);
    assert forall j :: 0 <= j < |digits| ==> IsDigit(digits[j]);
  }

  /** A status line is free of newline bytes when the test's name is. */
  lemma StatusLineNoNewline(status: TestStatus, number: nat, name: Bytes)
    requires NoNewline(name)
    ensures NoNewline(StatusLine(status, number, name))
  {
    var head := FailPrefix(status) + "ok ";
    assert NoNewline(head);
    DecimalNoNewline(number);
    NoNewlineConcat(head, Decimal(number));
    NoNewlineConcat(head + Decimal(number), " ");
    NoNewlineConcat(head + Decimal(number) + " ", name);
    assert NoNewline(SkipSuffix(status));
    NoNewlineConcat(head + Decimal(number) + " " + name, SkipSuffix(status));
  }

  /** The YAML block is free of newline bytes when the message is. */
  lemma MessageBlockNoNewline(message: Bytes)
    requires NoNewline(message)
    ensures AllNoNewline(MessageBlock(message))
  {
    if message != [] {
      EscapedNoNewline(message);
      NoNewlineConcat(MESSAGE_PREFIX, Escaped(message));
      NoNewlineConcat(MESSAGE_PREFIX + Escaped(message), "\"");
    }
  }

  /** The lines written for one test are free of newline bytes when its name and message are. */
  lemma StatusLinesNoNewline(status: TestStatus, number: nat, name: Bytes, message: Bytes)
    requires NoNewline(name) && NoNewline(message)
    ensures AllNoNewline(StatusLines(status, number, name, message))
  {
    StatusLineNoNewline(status, number, name);
    MessageBlockNoNewline(message);
    AllNoNewlineAppend([StatusLine(status, number, name)], MessageBlock(message));
  }

  lemma {:induction false} TestLinesNoNewline(tests: seq<RegisteredTest>, filters: seq<Filter>, engine: RegexEngine)
    requires forall i :: 0 <= i < |tests| ==> NoNewline(tests[i].name) && NoNewline(Outcome(filters, engine, tests[i]).message)
    ensures AllNoNewline(TestLines(tests, filters, engine))
  {
    if tests != [] {
      var n := |tests|;
      var last := tests[n - 1];
      var r := Outcome(filters, engine, last);
      var init := tests[..n - 1];
      assert forall i :: 0 <= i < |init| ==> init[i] == tests[i];
      TestLinesNoNewline(init, filters, engine);
      StatusLinesNoNewline(r.status, n, last.name, r.message);
      AllNoNewlineAppend(TestLines(init, filters, engine), StatusLines(r.status, n, last.name, r.message));
    }
  }

  lemma HeaderNoNewline(count: nat)
    ensures AllNoNewline(Header(count))
  {
    DecimalNoNewline(count);
    NoNewlineConcat("1..", Decimal(count));
    assert NoNewline(TAP_VERSION_LINE);
  }

  /**
   * When no test name and no failure message contains a newline byte, the
   * bytes written split back into exactly the lines of `TestLines`, so what
   * `TapStream` states of those lines holds of the stream a consumer reads.
   */
  lemma PhysicalStream(tests: seq<RegisteredTest>, patterns: seq<Bytes>, engine: RegexEngine)
    requires forall i :: 0 <= i < |tests| ==>
      NoNewline(tests[i].name) && NoNewline(Outcome(ParseFilters(patterns), engine, tests[i]).message)
    ensures var out := Header(|tests|) + TestLines(tests, ParseFilters(patterns), engine);
      Split(Join(out)) == out
  {
    var filters := ParseFilters(patterns);
    HeaderNoNewline(|tests|);
    TestLinesNoNewline(tests, filters, engine);
    AllNoNewlineAppend(Header(|tests|), TestLines(tests, filters, engine));
    SplitJoin(Header(|tests|) + TestLines(tests, filters, engine));
  }

  const INJECTED_TEXT: Bytes := "ok 9 x"
  const INJECTED: Bytes := "a" + "\n" + INJECTED_TEXT
  const INJECTED_MESSAGE: Bytes := "uncaught exception: " + INJECTED
  const BROKEN_HEAD: Bytes := MESSAGE_PREFIX + "uncaught exception: " + "a"
  const BROKEN_TAIL: Bytes := INJECTED_TEXT + "\""

  /** The one test of the counterexample: `t`, which throws `std::runtime_error("a\nok 9 x")`. */
  function InjectingTest(): RegisteredTest {
    RegisteredTest("t", Throw(StdException("std::runtime_error", INJECTED)))
  }

  lemma InjectedOutcome(engine: RegexEngine)
    ensures Outcome([], engine, InjectingTest()) == TestResult(FAIL, INJECTED_MESSAGE)
  {
  }

  lemma InjectedPlain()
    ensures Escaped(INJECTED_MESSAGE) == INJECTED_MESSAGE
  {
    assert forall i :: 0 <= i < |INJECTED_MESSAGE| ==> IsPlain(INJECTED_MESSAGE[i]);
    EscapedPlain(INJECTED_MESSAGE);
  }

  /** The message line written for the test holds the newline byte, between two halves. */
  lemma InjectedMessageLine()
    ensures MESSAGE_PREFIX + Escaped(INJECTED_MESSAGE) + "\"" == BROKEN_HEAD + "\n" + BROKEN_TAIL
  {
    InjectedPlain();
    assert MESSAGE_PREFIX + ("uncaught exception: " + ("a" + "\n" + INJECTED_TEXT)) + "\""
      == MESSAGE_PREFIX + "uncaught exception: " + "a" + "\n" + (INJECTED_TEXT + "\"");
  }

  const PLAN_ONE: Bytes := "1.." + "1"
  const FAILED_T: Bytes := "not " + "ok " + "1" + " " + "t"
  const BROKEN_LINE: Bytes := BROKEN_HEAD + "\n" + BROKEN_TAIL

  lemma InjectedStatusLines()
    ensures StatusLines(FAIL, 1, "t", INJECTED_MESSAGE) == [FAILED_T, " ---", BROKEN_LINE, " ..."]
  {
    assert Decimal(1) == "1";
    assert StatusLine(FAIL, 1, "t") == FAILED_T;
    InjectedMessageLine();
    var block := MessageBlock(INJECTED_MESSAGE);
    assert block == [" ---", BROKEN_LINE, " ..."];
    assert StatusLines(FAIL, 1, "t", INJECTED_MESSAGE) == [FAILED_T] + block;
  }

  /** A single test writes its own group of lines, numbered 1. */
  lemma OneTest(rt: RegisteredTest, filters: seq<Filter>, engine: RegexEngine)
    ensures var r := Outcome(filters, engine, rt);
      TestLines([rt], filters, engine) == StatusLines(r.status, 1, rt.name, r.message)
  {
    assert [rt][..0] == [];
  }

  lemma InjectedLines(engine: RegexEngine)
    ensures Header(1) + TestLines([InjectingTest()], [], engine) == [TAP_VERSION_LINE, PLAN_ONE, FAILED_T, " ---", BROKEN_LINE, " ..."]
  {
    InjectedOutcome(engine);
    OneTest(InjectingTest(), [], engine);
    InjectedStatusLines();
    assert Header(1) == [TAP_VERSION_LINE, PLAN_ONE] by {
      assert Decimal(1) == "1";
    }
    assert TestLines([InjectingTest()], [], engine) == [FAILED_T, " ---", BROKEN_LINE, " ..."];
  }

  lemma InjectedNoNewlines()
    ensures AllNoNewline([TAP_VERSION_LINE, PLAN_ONE] + PHYSICAL_TESTS)
  {
    assert NoNewline(TAP_VERSION_LINE) && NoNewline(PLAN_ONE) && NoNewline(FAILED_T) && NoNewline(" ---");
    assert NoNewline(BROKEN_HEAD) && NoNewline(BROKEN_TAIL) && NoNewline(" ...");
    AllNoNewlineAppend([TAP_VERSION_LINE, PLAN_ONE], PHYSICAL_TESTS);
  }

  /** The physical lines after the header. */
  const PHYSICAL_TESTS: seq<Bytes> := [FAILED_T, " ---", BROKEN_HEAD, BROKEN_TAIL, " ..."]

  lemma TestLinesOfFive(lines: seq<Bytes>, a: Bytes, b: Bytes, c: Bytes, d: Bytes, e: Bytes)
    requires lines == [a, b, c, d, e]
    ensures TestLinesOf(lines) == Kept(a) + Kept(b) + Kept(c) + Kept(d) + Kept(e)
  {
    var none: seq<Bytes> := [];
    var l1 := none + [a];
    var l2 := l1 + [b];
    var l3 := l2 + [c];
    var l4 := l3 + [d];
    var l5 := l4 + [e];
    TestLinesOfSnoc(none, a);
    TestLinesOfSnoc(l1, b);
    TestLinesOfSnoc(l2, c);
    TestLinesOfSnoc(l3, d);
    TestLinesOfSnoc(l4, e);
    assert TestLinesOf(none) == none;
    assert l5 == lines;
  }

  lemma InjectedTestLines()
    ensures TestLinesOf(PHYSICAL_TESTS) == [FAILED_T, BROKEN_TAIL]
  {
    TestLinesOfFive(PHYSICAL_TESTS, FAILED_T, " ---", BROKEN_HEAD, BROKEN_TAIL, " ...");
    assert FAILED_T[0] == 'n' && BROKEN_TAIL[0] == 'o' && BROKEN_HEAD[0] == ' ';
    var none: seq<Bytes> := [];
    assert Kept(FAILED_T) == [FAILED_T] && Kept(BROKEN_TAIL) == [BROKEN_TAIL];
    assert Kept(" ---") == none && Kept(BROKEN_HEAD) == none && Kept(" ...") == none;
  }

  /** The lines a consumer cuts the counterexample's stream into: the message line falls in two. */
  lemma InjectedPhysical(engine: RegexEngine)
    ensures Split(Join(Header(1) + TestLines([InjectingTest()], [], engine))) == [TAP_VERSION_LINE, PLAN_ONE] + PHYSICAL_TESTS
  {
    var out := Header(1) + TestLines([InjectingTest()], [], engine);
    InjectedLines(engine);
    assert out == [TAP_VERSION_LINE, PLAN_ONE, FAILED_T, " ---"] + [BROKEN_LINE] + [" ..."];
    var before: seq<Bytes> := [TAP_VERSION_LINE, PLAN_ONE, FAILED_T, " ---"];
    JoinSplitsLine(before, BROKEN_HEAD, BROKEN_TAIL, [" ..."]);
    assert before + [BROKEN_HEAD, BROKEN_TAIL] + [" ..."] == [TAP_VERSION_LINE, PLAN_ONE] + PHYSICAL_TESTS;
    InjectedNoNewlines();
    SplitJoin([TAP_VERSION_LINE, PLAN_ONE] + PHYSICAL_TESTS);
  }

  /**
   * A message holding a newline byte breaks the stream: the model writes one
   * status line for the single test `t`, but the bytes sent to `std::cout`
   * split into two test lines, the second of which a consumer reads as a
   * passing test number 9 named `x"`.
   */
  lemma NewlineInjectsTestLine(engine: RegexEngine)
    ensures var out := Header(1) + TestLines([InjectingTest()], [], engine);
      && |TestLinesOf(out[2..])| == 1
      && var physical := Split(Join(out));
         && |physical| >= 2
         && |TestLinesOf(physical[2..])| == 2
         && ReadStatusLine(TestLinesOf(physical[2..])[1]) == Some(StatusRecord(true, 9, "x\""))
  {
    var out := Header(1) + TestLines([InjectingTest()], [], engine);
    OneStatusLinePerTest([InjectingTest()], [], engine);
    assert out[2..] == TestLines([InjectingTest()], [], engine);
    var found := PhysicalTestLines(engine);
    assert |found| == 2 && found[1] == BROKEN_TAIL;
    ReadBrokenTail();
  }

  /** The test lines a consumer finds after the header of the counterexample's stream. */
  lemma PhysicalTestLines(engine: RegexEngine) returns (found: seq<Bytes>)
    ensures |Split(Join(Header(1) + TestLines([InjectingTest()], [], engine)))| >= 2
    ensures found == TestLinesOf(Split(Join(Header(1) + TestLines([InjectingTest()], [], engine)))[2..])
    ensures found == [FAILED_T, BROKEN_TAIL]
  {
    InjectedPhysical(engine);
    var physical := Split(Join(Header(1) + TestLines([InjectingTest()], [], engine)));
    assert physical[2..] == PHYSICAL_TESTS;
    InjectedTestLines();
    found := TestLinesOf(PHYSICAL_TESTS);
  }

  lemma ReadBrokenTail()
    ensures ReadStatusLine(BROKEN_TAIL) == Some(StatusRecord(true, 9, "x\""))
  {
    assert BROKEN_TAIL == "ok " + Decimal(9) + " " + "x\"";
    ReadWrittenOkLine(true, 9, "x\"");
    assert BROKEN_TAIL[0] == 'o';
  }
}
