/**
 * The TAP lines written for one test (`write_test_status` in mi_cpptest.cc)
 * and the two header lines of a run. The output stream is modelled as the
 * sequence of texts written between two `std::endl`s; a newline byte inside a
 * message is not escaped and stays inside its element.
 *
 * Beside the writers stand readers of one written line each; the lemmas show
 * that what was written is read back. The bytes between the lines, and what a
 * newline inside a message does to them, are in module Stream.
 */
module Report {
  import opened Text
  import opened Yaml

  /** `enum TestStatus { OK, FAIL, SKIP }`. Before a test runs, FAIL also serves as the mark "will run". */
  datatype TestStatus = OK | FAIL | SKIP

  const TAP_VERSION_LINE: Bytes := "TAP version 13"
  const MESSAGE_PREFIX: Bytes := " message: \""

  /** The two lines written before any test: the protocol version and the plan `1..N`. */
  function Header(count: nat): seq<Bytes> {
    [TAP_VERSION_LINE, "1.." + Decimal(count)]
  }

  function FailPrefix(status: TestStatus): Bytes {
    if status == FAIL then "not " else ""
  }

  function SkipSuffix(status: TestStatus): Bytes {
    if status == SKIP then " # SKIP" else ""
  }

  /** The status line: `[not ]ok <number> <name>[ # SKIP]`. */
  function StatusLine(status: TestStatus, number: nat, name: Bytes): Bytes {
    FailPrefix(status) + "ok " + Decimal(number) + " " + name + SkipSuffix(status)
  }

  /** The YAML block that follows the status line when there is a message. */
  function MessageBlock(message: Bytes): seq<Bytes> {
    if message == [] then [] else [" ---", MESSAGE_PREFIX + Escaped(message) + "\"", " ..."]
  }

  /** Everything written for one test. */
  function StatusLines(status: TestStatus, number: nat, name: Bytes, message: Bytes): seq<Bytes> {
    [StatusLine(status, number, name)] + MessageBlock(message)
  }

  /** `write_test_status(out, status, number, rt, message)`: the lines it writes. */
  method WriteTestStatus(status: TestStatus, number: nat, name: Bytes, message: Bytes) returns (lines: seq<Bytes>)
    ensures lines == StatusLines(status, number, name, message)
  {
    var line: Bytes := [];
    if status == FAIL {
      line := line + "not ";
    }
    line := line + "ok " + Decimal(number);
    line := line + " " + name;
    if status == SKIP {
      line := line + " # SKIP";
    }
    lines := [line];
    assert line == StatusLine(status, number, name);
    if message != [] {
      var escaped := YamlEscape(message);
      lines := lines + [" ---", MESSAGE_PREFIX + escaped + "\"", " ..."];
    }
  }

  /** What a TAP consumer reads from a status line: pass or fail, the test number, and the description after it. */
  datatype StatusRecord = StatusRecord(ok: bool, number: nat, description: Bytes)

  function ReadStatusLine(line: Bytes): Option<StatusRecord> {
    if StartsWith(line, "not ") then ReadOkLine(false, line[4..]) else ReadOkLine(true, line)
  }

  /** Reads `ok <number> <description>`. */
  function ReadOkLine(ok: bool, rest: Bytes): Option<StatusRecord> {
    if !StartsWith(rest, "ok ") then None
    else
      var body := rest[3..];
      var k := DigitRun(body);
      if k == 0 || k == |body| || body[k] != ' ' then None
      else Some(StatusRecord(ok, DecimalValue(body[..k]), body[k + 1..]))
  }

  lemma ReadWrittenOkLine(ok: bool, number: nat, description: Bytes)
    ensures ReadOkLine(ok, "ok " + Decimal(number) + " " + description) == Some(StatusRecord(ok, number, description))
  {
    var digits := Decimal(number);
    var tail := [' '] + description;
    var body := digits + tail;
    var rest := "ok " + digits + " " + description;
    assert rest == "ok " + body;
    assert rest[3..] == body;
    DigitRunOf(digits, tail);
    assert body[..|digits|] == digits;
    assert body[|digits| + 1..] == description;
    DecimalRoundTrip(number);
  }

  /** The status line is the failure prefix followed by an `ok` line. */
  lemma StatusLineSplit(status: TestStatus, number: nat, name: Bytes)
    ensures StatusLine(status, number, name) == FailPrefix(status) + ("ok " + Decimal(number) + " " + (name + SkipSuffix(status)))
  {
  }

  /** Reading a status line back gives "not ok" exactly for FAIL, the number written, and the name with ` # SKIP` exactly for SKIP. */
  lemma ReadWrittenStatusLine(status: TestStatus, number: nat, name: Bytes)
    ensures ReadStatusLine(StatusLine(status, number, name)) ==
      Some(StatusRecord(status != FAIL, number, name + SkipSuffix(status)))
  {
    var rest := "ok " + Decimal(number) + " " + (name + SkipSuffix(status));
    ReadWrittenOkLine(status != FAIL, number, name + SkipSuffix(status));
    StatusLineSplit(status, number, name);
    assert rest[..3] == "ok ";
    NotPrefix(status == FAIL, rest);
    if status != FAIL {
      assert StatusLine(status, number, name) == rest;
    }
  }

  /** `not ` is recognised exactly when it was written before an `ok` line. */
  lemma NotPrefix(failed: bool, rest: Bytes)
    requires StartsWith(rest, "ok ")
    ensures var line := (if failed then "not " else "") + rest;
      StartsWith(line, "not ") == failed && (failed ==> line[4..] == rest)
  {
    var line := (if failed then "not " else "") + rest;
    if !failed {
      assert line[0] == 'o';
      assert |line| >= 4 ==> line[..4][0] == 'o';
    }
  }

  /** A status line starts with `not ` exactly for FAIL. */
  lemma FailMarker(status: TestStatus, number: nat, name: Bytes)
    ensures StartsWith(StatusLine(status, number, name), "not ") <==> status == FAIL
  {
    var rest := "ok " + Decimal(number) + " " + (name + SkipSuffix(status));
    StatusLineSplit(status, number, name);
    assert rest[..3] == "ok ";
    NotPrefix(status == FAIL, rest);
  }

  /** No digit occurs in ` # SKIP`, so text ending in a digit and then `t` ends so only if `t` does. */
  lemma SkipAfterDigit(lead: Bytes, t: Bytes)
    requires |lead| > 0 && IsDigit(lead[|lead| - 1])
    ensures EndsWith(lead + t, " # SKIP") <==> EndsWith(t, " # SKIP")
  {
    var line := lead + t;
    if |t| >= 7 {
      assert line[|line| - 7..] == t[|t| - 7..];
    } else if |line| >= 7 {
      var k := |lead| - 1 - (|line| - 7);
      assert line[|line| - 7..][k] == lead[|lead| - 1];
      assert !IsDigit(" # SKIP"[k]);
    }
  }

  /**
   * A status line ends with ` # SKIP` exactly for SKIP, unless the name,
   * with the space before it, already ends so.
   */
  lemma SkipMarker(status: TestStatus, number: nat, name: Bytes)
    ensures EndsWith(StatusLine(status, number, name), " # SKIP") <==> status == SKIP || EndsWith(" " + name, " # SKIP")
  {
    var line := StatusLine(status, number, name);
    var lead := FailPrefix(status) + "ok " + Decimal(number);
    var t := " " + name;
    assert line == lead + t + SkipSuffix(status);
    if status == SKIP {
      assert line[|line| - 7..] == " # SKIP";
    } else {
      assert line == lead + t;
      assert lead[|lead| - 1] == Decimal(number)[|Decimal(number)| - 1];
      SkipAfterDigit(lead, t);
    }
  }

  /** What a TAP consumer reads from the message line: the message, unescaped. */
  function ReadMessageLine(line: Bytes): Option<Bytes> {
    if StartsWith(line, MESSAGE_PREFIX) && |line| > |MESSAGE_PREFIX| && line[|line| - 1] == '"' then
      Unescape(line[|MESSAGE_PREFIX|..|line| - 1])
    else None
  }

  /** A quoted message line reads back as the unescaping of what stands between the quotes. */
  lemma ReadQuoted(body: Bytes)
    ensures ReadMessageLine(MESSAGE_PREFIX + body + "\"") == Unescape(body)
  {
    var line := MESSAGE_PREFIX + body + "\"";
    assert line[..|MESSAGE_PREFIX|] == MESSAGE_PREFIX;
    assert line[|line| - 1] == '"';
    assert line[|MESSAGE_PREFIX|..|line| - 1] == body;
  }

  /** The YAML block is there exactly when the message is non-empty, and its message line reads back as the message. */
  lemma ReadWrittenMessage(status: TestStatus, number: nat, name: Bytes, message: Bytes)
    ensures |StatusLines(status, number, name, message)| == if message == [] then 1 else 4
    ensures message != [] ==>
      var lines := StatusLines(status, number, name, message);
      lines[1] == " ---" && lines[3] == " ..." && ReadMessageLine(lines[2]) == Some(message)
  {
    if message != [] {
      ReadQuoted(Escaped(message));
      UnescapeEscaped(message);
    }
  }
}
