/**
 * The escaping that puts a failure message inside the double quotes of the
 * YAML `message:` line (`hexchar` and `yaml_escape` in mi_cpptest.cc).
 *
 * The byte comparison `ch < ' '` is made on a `char`. This model takes `char`
 * to be signed, as on the x86 platforms the library is built for: bytes
 * 0x80..0xFF are then negative and are hex-escaped too, and the nibble masking
 * in `hexchar` still prints their unsigned value.
 */
module Yaml {
  import opened Text

  /** `unsigned int`, 32 bits wide. */
  type Uint32 = i: int | 0 <= i < 0x1_0000_0000

  const HEX_DIGITS: Bytes := "0123456789ABCDEF"

  predicate IsHexDigit(c: Byte) {
    '0' <= c <= '9' || 'A' <= c <= 'F'
  }

  /** The value of an (upper-case) hexadecimal digit. */
  function HexValue(c: Byte): (v: nat)
    requires IsHexDigit(c)
    ensures v < 16 && HEX_DIGITS[v] == c
  {
    if c <= '9' then c as int - '0' as int else c as int - 'A' as int + 10
  }

  /** `hexchar(i)`: the digit of the low four bits of `i` (`i & 0xF`). */
  function HexChar(i: Uint32): (c: Byte)
    ensures IsHexDigit(c) && HexValue(c) == i % 16
  {
    HEX_DIGITS[i % 16]
  }

  /** The value a byte has when read as a signed `char`. */
  function SignedChar(c: Byte): int {
    if c as int < 128 then c as int else c as int - 256
  }

  /** The conversion `(unsigned int)ch`: the value modulo 2^32. */
  function ToUnsigned(v: int): Uint32 {
    v % 0x1_0000_0000
  }

  /** The condition `ch < ' ' && ch != '\n' && ch != 9` of `yaml_escape`. */
  predicate NeedsHexEscape(c: Byte) {
    SignedChar(c) < ' ' as int && c != '\n' && c != '\t'
  }

  /** Which bytes the signed comparison selects: the control bytes other than newline and tab, and every byte from 0x80 up. */
  lemma HexEscapedBytes(c: Byte)
    ensures NeedsHexEscape(c) <==> (c as int < 0x20 && c != '\n' && c != '\t') || 0x80 <= c as int
  {
  }

  /** What `yaml_escape` appends for one byte. */
  function EscapeByte(c: Byte): Bytes {
    if NeedsHexEscape(c) then
      var u := ToUnsigned(SignedChar(c));
      ['\\', 'x', HexChar(u / 16), HexChar(u)]
    else if c == '"' || c == '\\' then
      ['\\', c]
    else
      [c]
  }

  /** A hex-escaped byte comes out as backslash, `x` and its two upper-case hex digits, even when the signed `char` is negative. */
  lemma HexEscapeIsByteValue(c: Byte)
    requires NeedsHexEscape(c)
    ensures EscapeByte(c) == ['\\', 'x', HEX_DIGITS[c as int / 16], HEX_DIGITS[c as int % 16]]
  {
    var u := ToUnsigned(SignedChar(c));
    if c as int < 128 {
      assert u == c as int;
    } else {
      HighByteNibbles(c as int);
    }
  }

  /** For a high byte read as a negative `char`, the unsigned value keeps the byte's own nibbles at the bottom. */
  lemma HighByteNibbles(v: int)
    requires 128 <= v < 256
    ensures ToUnsigned(v - 256) / 16 % 16 == v / 16
    ensures ToUnsigned(v - 256) % 16 == v % 16
  {
    var u := ToUnsigned(v - 256);
    assert u == v + 0x0FFF_FFF0 * 16;
    assert u / 16 == v / 16 + 0x0FFF_FFF0;
  }

  /** The escaped text: every byte escaped in turn, in order. */
  function Escaped(text: Bytes): Bytes {
    if text == [] then [] else EscapeByte(text[0]) + Escaped(text[1..])
  }

  lemma {:induction false} EscapedAppend(a: Bytes, b: Bytes)
    ensures Escaped(a + b) == Escaped(a) + Escaped(b)
  {
    if a == [] {
      assert a + b == b;
    } else {
      assert (a + b)[1..] == a[1..] + b;
      EscapedAppend(a[1..], b);
    }
  }

  /** A byte that `yaml_escape` copies unchanged. */
  predicate IsPlain(c: Byte) {
    !NeedsHexEscape(c) && c != '"' && c != '\\'
  }

  /** Text made only of plain bytes is its own escaping. */
  lemma {:induction false} EscapedPlain(text: Bytes)
    requires forall i :: 0 <= i < |text| ==> IsPlain(text[i])
    ensures Escaped(text) == text
  {
    if text != [] {
      EscapedPlain(text[1..]);
      assert [text[0]] + text[1..] == text;
    }
  }

  /** Escaping never shortens the text. */
  lemma {:induction false} EscapedNotShorter(text: Bytes)
    ensures |Escaped(text)| >= |text|
  {
    if text != [] {
      EscapedNotShorter(text[1..]);
    }
  }

  lemma EscapedSnoc(prefix: Bytes, c: Byte)
    ensures Escaped(prefix + [c]) == Escaped(prefix) + EscapeByte(c)
  {
    EscapedAppend(prefix, [c]);
    assert Escaped([c]) == EscapeByte(c) + Escaped([]);
  }

  /** `yaml_escape`: the loop over the bytes of `text`, appending to a string stream. */
  method YamlEscape(text: Bytes) returns (escaped: Bytes)
    ensures escaped == Escaped(text)
  {
    escaped := [];
    for i := 0 to |text|
      invariant escaped == Escaped(text[..i])
    {
      var ch := text[i];
      assert text[..i + 1] == text[..i] + [ch];
      EscapedSnoc(text[..i], ch);
      if SignedChar(ch) < ' ' as int && ch != '\n' && ch != '\t' {
        var u := ToUnsigned(SignedChar(ch));
        escaped := escaped + ['\\', 'x', HexChar(u / 16), HexChar(u)];
        continue;
      }
      if ch == '"' || ch == '\\' {
        escaped := escaped + ['\\'];
      }
      escaped := escaped + [ch];
    }
    assert text[..|text|] == text;
  }

  /** The byte that the two hex digits `hi`, `lo` denote. */
  function FromHex(hi: Byte, lo: Byte): Byte
    requires IsHexDigit(hi) && IsHexDigit(lo)
  {
    (HexValue(hi) * 16 + HexValue(lo)) as char
  }

  function Prepend(c: Byte, r: Option<Bytes>): Option<Bytes> {
    match r
    case None => None
    case Some(t) => Some([c] + t)
  }

  /**
   * Reading an escaped message back, left to right: `\xHH` gives the byte
   * HH, `\"` and `\\` give `"` and `\`, any other byte stands for itself.
   * Text that `yaml_escape` cannot have produced (a bare `"` or `\`, a raw
   * byte it would have hex-escaped, `\xHH` for a byte it would not) is
   * rejected.
   */
  function Unescape(s: Bytes): Option<Bytes>
    decreases |s|
  {
    if s == [] then Some([])
    else if s[0] == '\\' then
      if |s| >= 2 && (s[1] == '"' || s[1] == '\\') then
        Prepend(s[1], Unescape(s[2..]))
      else if |s| >= 4 && s[1] == 'x' && IsHexDigit(s[2]) && IsHexDigit(s[3]) && NeedsHexEscape(FromHex(s[2], s[3])) then
        Prepend(FromHex(s[2], s[3]), Unescape(s[4..]))
      else
        None
    else if s[0] == '"' || NeedsHexEscape(s[0]) then None
    else Prepend(s[0], Unescape(s[1..]))
  }

  lemma UnescapeHexEscaped(c: Byte, rest: Bytes)
    requires NeedsHexEscape(c)
    ensures Unescape(EscapeByte(c) + rest) == Prepend(c, Unescape(rest))
  {
    HexEscapeIsByteValue(c);
    var hi, lo := HEX_DIGITS[c as int / 16], HEX_DIGITS[c as int % 16];
    HexDigitAt(c as int / 16);
    HexDigitAt(c as int % 16);
    assert FromHex(hi, lo) == c;
    var s := ['\\', 'x', hi, lo] + rest;
    assert s[1] == 'x' && s[2] == hi && s[3] == lo && s[4..] == rest;
  }

  lemma HexDigitAt(k: nat)
    requires k < 16
    ensures IsHexDigit(HEX_DIGITS[k]) && HexValue(HEX_DIGITS[k]) == k
  {
  }

  lemma UnescapeEscapeByte(c: Byte, rest: Bytes)
    ensures Unescape(EscapeByte(c) + rest) == Prepend(c, Unescape(rest))
  {
    if NeedsHexEscape(c) {
      UnescapeHexEscaped(c, rest);
    } else if c == '"' || c == '\\' {
      var s := ['\\', c] + rest;
      assert s[1] == c && s[2..] == rest;
    } else {
      var s := [c] + rest;
      assert s[0] == c && s[1..] == rest;
    }
  }

  /** Unescaping the escaped text gives back the original bytes. */
  lemma {:induction false} UnescapeEscaped(text: Bytes)
    ensures Unescape(Escaped(text)) == Some(text)
  {
    if text != [] {
      UnescapeEscapeByte(text[0], Escaped(text[1..]));
      UnescapeEscaped(text[1..]);
      assert [text[0]] + text[1..] == text;
    }
  }

  /** Conversely, whatever unescapes to `text` is exactly the escaping of `text`: the escaping is a bijection onto what `Unescape` accepts. */
  lemma {:induction false} EscapedUnescape(s: Bytes, text: Bytes)
    requires Unescape(s) == Some(text)
    ensures Escaped(text) == s
    decreases |s|
  {
    if s == [] {
    } else if s[0] == '\\' {
      if |s| >= 2 && (s[1] == '"' || s[1] == '\\') {
        var t :| Unescape(s[2..]) == Some(t) && text == [s[1]] + t;
        EscapedUnescape(s[2..], t);
        assert text[1..] == t;
        assert s == [s[0], s[1]] + s[2..];
      } else {
        var c := FromHex(s[2], s[3]);
        var t :| Unescape(s[4..]) == Some(t) && text == [c] + t;
        EscapedUnescape(s[4..], t);
        assert text[1..] == t;
        HexEscapeIsByteValue(c);
        assert c as int / 16 == HexValue(s[2]) && c as int % 16 == HexValue(s[3]);
        assert s == [s[0], s[1], s[2], s[3]] + s[4..];
      }
    } else {
      var t :| Unescape(s[1..]) == Some(t) && text == [s[0]] + t;
      EscapedUnescape(s[1..], t);
      assert text[1..] == t;
      assert s == [s[0]] + s[1..];
    }
  }
}
