/**
 * What a test body can do, as `mi_cpptest.h` provides it: the `test_failure`
 * exception, `ensure`, and the assertion macros. A statement of a test body
 * either completes normally or throws; an assertion that does not hold throws
 * a `test_failure` naming the file and line of the assertion. Every `CHECK`
 * form expands to `REQUIRE`, so every failed assertion ends the test.
 */
module Assertions {
  import opened Text

  /** `int`, 32 bits wide. */
  type Int32 = i: int | -0x8000_0000 <= i < 0x8000_0000

  /**
   * `test_failure(file, lineno)`: the fields are the values the accessors
   * `file()` and `lineno()` return, exactly as constructed.
   */
  datatype TestFailure = TestFailure(file: Bytes, lineno: Int32)

  /** What a statement of a test body can throw. */
  datatype Exception =
    | Failure(failure: TestFailure)              // miutil::cpptest::test_failure
    | StdException(typeName: Bytes, what: Bytes) // any other class derived from std::exception
    | Foreign(typeName: Bytes)                   // a value of a type not derived from std::exception

  /** How a statement (or a whole test body) ends. */
  datatype Completion = Normal | Throw(exception: Exception)

  /** `__FILE__` and `__LINE__` where an assertion macro is expanded. */
  datatype Location = Location(file: Bytes, line: Int32)

  /** The exception a failed assertion at `at` throws. */
  function FailureAt(at: Location): Exception {
    Failure(TestFailure(at.file, at.line))
  }

  /** `ensure(b, file, lineno)`: throws `test_failure(file, lineno)` exactly when `b` is false. */
  function Ensure(b: bool, file: Bytes, lineno: Int32): (c: Completion)
    ensures c == Normal <==> b
    ensures !b ==> c.exception.Failure? && c.exception.failure.file == file && c.exception.failure.lineno == lineno
  {
    if b then Normal else Throw(Failure(TestFailure(file, lineno)))
  }

  /** `MI_CPPTEST_REQUIRE(x)`. */
  function Require(x: bool, at: Location): (c: Completion)
    ensures c == Normal <==> x
    ensures !x ==> c == Throw(FailureAt(at))
  {
    Ensure(x, at.file, at.line)
  }

  /** `MI_CPPTEST_CHECK(x)`: the same as `REQUIRE`, hence fatal. */
  function Check(x: bool, at: Location): Completion {
    Require(x, at)
  }

  /** `MI_CPPTEST_FAIL(m)`: always throws; the message is dropped. */
  function Fail(m: Bytes, at: Location): (c: Completion)
    ensures c == Throw(FailureAt(at))
  {
    Require(false, at)
  }

  /** `MI_CPPTEST_REQUIRE_MESSAGE(x, m)`: the message is dropped. */
  function RequireMessage(x: bool, m: Bytes, at: Location): Completion {
    Require(x, at)
  }

  /** `MI_CPPTEST_CHECK_MESSAGE(x, m)`: the message is dropped. */
  function CheckMessage(x: bool, m: Bytes, at: Location): Completion {
    Require(x, at)
  }

  /** `MI_CPPTEST_REQUIRE_EQ(x, y)`. */
  function RequireEq<T(==)>(x: T, y: T, at: Location): (c: Completion)
    ensures c == Normal <==> x == y
    ensures x != y ==> c == Throw(FailureAt(at))
  {
    Require(x == y, at)
  }

  /** `MI_CPPTEST_CHECK_EQ(x, y)`. */
  function CheckEq<T(==)>(x: T, y: T, at: Location): Completion {
    RequireEq(x, y, at)
  }

  /** `MI_CPPTEST_CHECK_NE(x, y)`. */
  function CheckNe<T(==)>(x: T, y: T, at: Location): (c: Completion)
    ensures c == Normal <==> x != y
    ensures x == y ==> c == Throw(FailureAt(at))
  {
    Require(x != y, at)
  }

  /** `MI_CPPTEST_REQUIRE_GT(a, b)`. */
  function RequireGt(a: int, b: int, at: Location): (c: Completion)
    ensures c == Normal <==> a > b
    ensures a <= b ==> c == Throw(FailureAt(at))
  {
    Require(a > b, at)
  }

  /** `MI_CPPTEST_REQUIRE_GE(a, b)`. */
  function RequireGe(a: int, b: int, at: Location): (c: Completion)
    ensures c == Normal <==> a >= b
    ensures a < b ==> c == Throw(FailureAt(at))
  {
    Require(a >= b, at)
  }

  /** `MI_CPPTEST_REQUIRE_LE(a, b)`. */
  function RequireLe(a: int, b: int, at: Location): (c: Completion)
    ensures c == Normal <==> a <= b
    ensures a > b ==> c == Throw(FailureAt(at))
  {
    Require(a <= b, at)
  }

  /** The type named in a handler `catch (ex&)`. */
  datatype ExceptionType =
    | TestFailureType          // miutil::cpptest::test_failure
    | StdExceptionType         // std::exception, which test_failure derives from
    | Named(typeName: Bytes)   // any other type, caught by its exact name

  /** Whether `catch (t&)` catches `e`. */
  predicate Catches(t: ExceptionType, e: Exception) {
    match t
    case TestFailureType => e.Failure?
    case StdExceptionType => e.Failure? || e.StdException?
    case Named(n) => (e.StdException? && e.typeName == n) || (e.Foreign? && e.typeName == n)
  }

  /**
   * `MI_CPPTEST_CHECK_THROW(x, ex)`: passes when `x` throws something `ex`
   * catches, fails at `at` when `x` completes, and lets any other exception
   * of `x` propagate unchanged.
   */
  function CheckThrow(x: Completion, ex: ExceptionType, at: Location): (c: Completion)
    ensures c == Normal <==> x.Throw? && Catches(ex, x.exception)
    ensures x == Normal ==> c == Throw(FailureAt(at))
    ensures x.Throw? && !Catches(ex, x.exception) ==> c == x
  {
    match x
    case Normal => Fail([], at)
    case Throw(e) => if Catches(ex, e) then Normal else x
  }

  /**
   * `MI_CPPTEST_CHECK_NO_THROW(x)`: `catch (...)` takes whatever `x` throws,
   * and the assertion fails at its own location instead.
   */
  function CheckNoThrow(x: Completion, at: Location): (c: Completion)
    ensures c == Normal <==> x == Normal
    ensures x != Normal ==> c == Throw(FailureAt(at))
  {
    match x
    case Normal => Normal
    case Throw(_) => Fail([], at)
  }

  /** Every `CHECK` form is the `REQUIRE` form, and the message forms ignore their message. */
  lemma CheckIsRequire<T>(x: bool, m: Bytes, p: T, q: T, at: Location)
    ensures Check(x, at) == Require(x, at)
    ensures CheckMessage(x, m, at) == Require(x, at) && RequireMessage(x, m, at) == Require(x, at)
    ensures CheckEq(p, q, at) == RequireEq(p, q, at)
  {
  }

  /** `FAIL(m)` and the message forms report only the location: two messages give the same exception. */
  lemma MessagesDiscarded(x: bool, m1: Bytes, m2: Bytes, at: Location)
    ensures Fail(m1, at) == Fail(m2, at)
    ensures RequireMessage(x, m1, at) == RequireMessage(x, m2, at)
    ensures CheckMessage(x, m1, at) == CheckMessage(x, m2, at)
  {
  }

  /** A test body runs its statements in order; the first one that throws ends it, and its exception is the body's. */
  function RunBody(statements: seq<Completion>): Completion {
    if statements == [] then Normal
    else if statements[0].Throw? then statements[0]
    else RunBody(statements[1..])
  }

  /** A body completes exactly when every statement does. */
  lemma {:induction false} BodyCompletes(statements: seq<Completion>)
    ensures RunBody(statements) == Normal <==> forall j :: 0 <= j < |statements| ==> statements[j] == Normal
  {
    if statements != [] {
      BodyCompletes(statements[1..]);
      assert forall j :: 1 <= j < |statements| ==> statements[j] == statements[1..][j - 1];
    }
  }

  /**
   * A failed assertion is fatal: the first statement that throws decides the
   * body's outcome, and nothing written after it has any effect, so a test
   * reports at most one failure.
   */
  lemma {:induction false} FirstThrowEndsBody(statements: seq<Completion>, i: nat, rest: seq<Completion>)
    requires i < |statements| && statements[i].Throw?
    requires forall j :: 0 <= j < i ==> statements[j] == Normal
    ensures RunBody(statements) == statements[i]
    ensures RunBody(statements[..i + 1] + rest) == statements[i]
  {
    if i > 0 {
      assert (statements[..i + 1] + rest)[1..] == statements[1..][..i] + rest;
      FirstThrowEndsBody(statements[1..], i - 1, rest);
    } else {
      assert (statements[..1] + rest)[0] == statements[0];
    }
  }
}
