/**
 * The version number of the library (mi_cpptest_version.h): three components
 * packed into one integer, three decimal digits each for minor and patch.
 */
module Version {

  const MAJOR: int := 0
  const MINOR: int := 2
  const PATCH: int := 0

  /** `MI_CPPTEST_VERSION_INT(major, minor, patch)`. */
  function VersionInt(major: int, minor: int, patch: int): int {
    1000000 * major + 1000 * minor + patch
  }

  /** `MI_CPPTEST_VERSION_CURRENT_INT`. */
  const CURRENT: int := VersionInt(MAJOR, MINOR, PATCH)

  /** Version 0.2.0 is encoded as 2000. */
  lemma CurrentVersion()
    ensures CURRENT == 2000
  {
  }

  /** Components in range, as an encoded integer can be split back into. */
  predicate InRange(minor: int, patch: int) {
    0 <= minor < 1000 && 0 <= patch < 1000
  }

  /**
   * The macro is evaluated in C `int` (32 bits). With components in range it
   * fits for every major version from 0 to 2146. With major version 2147 it
   * fits up to 2147.483.647, which is the largest `int`, and overflows from
   * 2147.483.648 up.
   */
  lemma FitsInInt(major: int, minor: int, patch: int)
    requires 0 <= major <= 2146 && InRange(minor, patch)
    ensures 0 <= VersionInt(major, minor, patch) < 0x8000_0000
    ensures VersionInt(major + 1, 999, 999) >= 0x8000_0000 <==> major == 2146
    ensures major == 2146 ==> VersionInt(major + 1, 483, 647) == 0x7FFF_FFFF
  {
  }

  /**
   * The components an encoded version is split back into: division and
   * remainder by 1000000 and 1000. Dafny's `/` and `%` are Euclidean, so for a
   * negative version this is not what the same expression computes in C,
   * which truncates toward zero.
   */
  function Components(v: int): (int, int, int) {
    (v / 1000000, v / 1000 % 1000, v % 1000)
  }

  /** With minor and patch below 1000 the encoding is injective: the components come back. */
  lemma DecodeEncode(major: int, minor: int, patch: int)
    requires InRange(minor, patch)
    ensures Components(VersionInt(major, minor, patch)) == (major, minor, patch)
  {
    var v := VersionInt(major, minor, patch);
    assert v / 1000 == 1000 * major + minor;
    assert v / 1000000 == major;
  }

  /** Every integer is the encoding of its components. */
  lemma EncodeDecode(v: int)
    ensures var (major, minor, patch) := Components(v);
      InRange(minor, patch) && VersionInt(major, minor, patch) == v
  {
    var q := v / 1000;
    assert q / 1000 == v / 1000000;
  }

  /** Lexicographic order of (major, minor, patch) is numeric order of the encoding. */
  lemma EncodingOrder(major1: int, minor1: int, patch1: int, major2: int, minor2: int, patch2: int)
    requires InRange(minor1, patch1) && InRange(minor2, patch2)
    ensures VersionInt(major1, minor1, patch1) < VersionInt(major2, minor2, patch2) <==>
      major1 < major2 || (major1 == major2 && (minor1 < minor2 || (minor1 == minor2 && patch1 < patch2)))
  {
    var low1, low2 := 1000 * minor1 + patch1, 1000 * minor2 + patch2;
    assert low1 < low2 <==> minor1 < minor2 || (minor1 == minor2 && patch1 < patch2);
    if major1 < major2 {
      assert 1000000 * major1 + 1000000 <= 1000000 * major2;
    } else if major1 > major2 {
      assert 1000000 * major2 + 1000000 <= 1000000 * major1;
    }
  }
}
