/**
 * The process-wide list of registered tests (`registered_tests()` and
 * `register_test` in mi_cpptest.cc) and the `MI_CPPTEST_TEST_CASE` macro of
 * mi_cpptest.h that registers a test under its own identifier.
 */
module Registry {
  import opened Text
  import opened Assertions

  /** A registered test: its name, and how its body ends when it is called. */
  datatype RegisteredTest = RegisteredTest(name: Bytes, body: Completion)

  /** `registered_tests()`: the vector the registrations append to. */
  class TestRegistry {
    var tests: seq<RegisteredTest>

    constructor ()
      ensures tests == []
    {
      tests := [];
    }

    /** `register_test(name, tf)`: appends one entry at the end and returns true. */
    method RegisterTest(name: Bytes, body: Completion) returns (registered: bool)
      modifies this
      ensures tests == old(tests) + [RegisteredTest(name, body)]
      ensures registered
    {
      tests := tests + [RegisteredTest(name, body)];
      registered := true;
    }
  }

  predicate IsIdentifierStart(c: Byte) {
    'a' <= c <= 'z' || 'A' <= c <= 'Z' || c == '_'
  }

  /** A C++ identifier, as the argument of `MI_CPPTEST_TEST_CASE` must be. */
  predicate IsIdentifier(x: Bytes) {
    |x| > 0 && IsIdentifierStart(x[0]) &&
    forall i :: 1 <= i < |x| ==> IsIdentifierStart(x[i]) || IsDigit(x[i])
  }

  /**
   * `MI_CPPTEST_TEST_CASE(x)`: declares the function `x` and registers it
   * under the name `#x`, the identifier's own spelling.
   */
  method TestCase(registry: TestRegistry, x: Bytes, body: Completion) returns (registered: bool)
    requires IsIdentifier(x)
    modifies registry
    ensures registry.tests == old(registry.tests) + [RegisteredTest(x, body)]
    ensures registered
  {
    registered := registry.RegisterTest(x, body);
  }
}
