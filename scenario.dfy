/**
 * A worked run: tests `a`, `b_skip` and `c` registered in that order, the
 * single argument `-.*_skip`, `a` returning, `c` throwing a
 * `std::runtime_error("boom")`.
 */
module Scenario {
  import opened Text
  import opened Assertions
  import opened Registry
  import opened Report
  import opened Runner
  import opened Yaml

  /** A regex engine in which `.*_skip` fully matches exactly the names ending in `_skip`. */
  function SuffixEngine(): RegexEngine {
    RegexEngine(p => true, (p, name) => p == ".*_skip" && EndsWith(name, "_skip"))
  }

  function ScenarioTests(): seq<RegisteredTest> {
    [ RegisteredTest("a", Normal),
      RegisteredTest("b_skip", Normal),
      RegisteredTest("c", Throw(StdException("std::runtime_error", "boom"))) ]
  }

  function ScenarioFilters(): seq<Filter> {
    ParseFilters(["-.*_skip"])
  }

  const BOOM: Bytes := "uncaught exception: boom"

  /** `a` passes, `b_skip` is skipped by the exclusive filter, `c` fails with the exception's text. */
  lemma ScenarioOutcomes()
    ensures Outcome(ScenarioFilters(), SuffixEngine(), ScenarioTests()[0]) == TestResult(OK, [])
    ensures Outcome(ScenarioFilters(), SuffixEngine(), ScenarioTests()[1]) == TestResult(SKIP, [])
    ensures Outcome(ScenarioFilters(), SuffixEngine(), ScenarioTests()[2]) == TestResult(FAIL, BOOM)
  {
    var filters := ScenarioFilters();
    assert filters == [Filter(true, ".*_skip")];
    assert !EndsWith("a", "_skip") && EndsWith("b_skip", "_skip") && !EndsWith("c", "_skip");
  }

  const PASS_LINE: Bytes := "ok 1 a"
  const SKIP_LINE: Bytes := "ok 2 b_skip # SKIP"
  const FAIL_LINE: Bytes := "not ok 3 c"
  const MESSAGE_LINE: Bytes := " message: \"" + "uncaught exception: boom" + "\""

  lemma SmallDecimals()
    ensures Decimal(1) == "1" && Decimal(2) == "2" && Decimal(3) == "3"
  {
  }

  lemma ScenarioStatusLines()
    ensures StatusLine(OK, 1, "a") == PASS_LINE
    ensures StatusLine(SKIP, 2, "b_skip") == SKIP_LINE
    ensures StatusLine(FAIL, 3, "c") == FAIL_LINE
  {
    SmallDecimals();
  }

  lemma BoomPrintable()
    ensures forall i :: 0 <= i < |BOOM| ==> ' ' <= BOOM[i] <= '~' && BOOM[i] != '"' && BOOM[i] != '\\'
  {
  }

  lemma BoomPlain()
    ensures Escaped(BOOM) == BOOM
  {
    BoomPrintable();
    EscapedPlain(BOOM);
  }

  lemma ScenarioMessageBlock()
    ensures MessageBlock(BOOM) == [" ---", MESSAGE_LINE, " ..."]
  {
    BoomPlain();
  }

  lemma ScenarioLines()
    ensures StatusLines(OK, 1, "a", []) == [PASS_LINE]
    ensures StatusLines(SKIP, 2, "b_skip", []) == [SKIP_LINE]
    ensures StatusLines(FAIL, 3, "c", BOOM) == [FAIL_LINE, " ---", MESSAGE_LINE, " ..."]
  {
    ScenarioStatusLines();
    ScenarioFailLines();
  }

  lemma ScenarioFailLines()
    ensures StatusLines(FAIL, 3, "c", BOOM) == [StatusLine(FAIL, 3, "c"), " ---", MESSAGE_LINE, " ..."]
  {
    ScenarioMessageBlock();
    var block := MessageBlock(BOOM);
    ConsThree(StatusLine(FAIL, 3, "c"), block);
  }

  lemma ConsThree<T>(x: T, block: seq<T>)
    requires |block| == 3
    ensures [x] + block == [x, block[0], block[1], block[2]]
  {
  }

  const PLAN_LINE: Bytes := "1.." + "3"

  lemma ScenarioHeader()
    ensures Header(3) == [TAP_VERSION_LINE, PLAN_LINE]
  {
    SmallDecimals();
  }

  lemma Assemble<T>(header: seq<T>, h0: T, h1: T, a: T, b: T, group: seq<T>, c: T, d: T, e: T, f: T)
    requires header == [h0, h1] && group == [c, d, e, f]
    ensures header + ((([] + [a]) + [b]) + group) == [h0, h1, a, b, c, d, e, f]
  {
  }

  /** The lines written for any three tests, one group per test in registration order. */
  lemma ThreeTests(tests: seq<RegisteredTest>, filters: seq<Filter>, engine: RegexEngine)
    requires |tests| == 3
    ensures var r0, r1, r2 := Outcome(filters, engine, tests[0]), Outcome(filters, engine, tests[1]), Outcome(filters, engine, tests[2]);
      TestLines(tests, filters, engine) ==
        (([] + StatusLines(r0.status, 1, tests[0].name, r0.message))
          + StatusLines(r1.status, 2, tests[1].name, r1.message))
          + StatusLines(r2.status, 3, tests[2].name, r2.message)
  {
    assert tests[..0] == [];
    TestLinesStep(tests, filters, engine, 0);
    TestLinesStep(tests, filters, engine, 1);
    TestLinesStep(tests, filters, engine, 2);
    assert tests[..3] == tests;
  }

  /** The lines written for the scenario's three tests. */
  lemma ScenarioTestLines()
    ensures TestLines(ScenarioTests(), ScenarioFilters(), SuffixEngine()) ==
      (([] + [PASS_LINE]) + [SKIP_LINE]) + StatusLines(FAIL, 3, "c", BOOM)
  {
    ThreeTests(ScenarioTests(), ScenarioFilters(), SuffixEngine());
    ScenarioOutcomes();
    ScenarioLines();
  }

  /** The stream and the result of the run: `c` failing makes the run fail. */
  lemma ScenarioOutput()
    ensures Header(3) + TestLines(ScenarioTests(), ScenarioFilters(), SuffixEngine()) ==
      [TAP_VERSION_LINE, PLAN_LINE, PASS_LINE, SKIP_LINE, FAIL_LINE, " ---", MESSAGE_LINE, " ..."]
    ensures !AllPassed(ScenarioTests(), ScenarioFilters(), SuffixEngine())
  {
    ScenarioTestLines();
    ScenarioLines();
    ScenarioHeader();
    Assemble(Header(3), TAP_VERSION_LINE, PLAN_LINE, PASS_LINE, SKIP_LINE, StatusLines(FAIL, 3, "c", BOOM),
      FAIL_LINE, " ---", MESSAGE_LINE, " ...");
    ScenarioOutcomes();
  }
}
