/**
 * The rune classes of Go's unicode package that the SQL lexer and the
 * text parsers use, exact on the Latin-1 range (code points below 256).
 */
module UnicodeClasses {
  import opened Utf8

  /**
   * unicode.IsSpace: the Latin-1 spaces '\t', '\n', '\v', '\f', '\r',
   * ' ', U+0085 and U+00A0, and beyond Latin-1 the White_Space property.
   */
  predicate IsSpace(r: int)
  {
    (9 <= r <= 13) || r == 32 || r == 0x85 || r == 0xA0 ||
    r == 0x1680 || (0x2000 <= r <= 0x200A) || r == 0x2028 || r == 0x2029 ||
    r == 0x202F || r == 0x205F || r == 0x3000
  }

  /** unicode.IsDigit on Latin-1: the ASCII digits. */
  predicate IsDigit(r: int)
  {
    '0' as int <= r <= '9' as int
  }

  /** unicode.IsLetter on Latin-1: ASCII letters, ª, µ, º and the accented letters (× and ÷ excluded). */
  predicate IsLetter(r: int)
  {
    ('A' as int <= r <= 'Z' as int) || ('a' as int <= r <= 'z' as int) ||
    r == 0xAA || r == 0xB5 || r == 0xBA ||
    (0xC0 <= r <= 0xD6) || (0xD8 <= r <= 0xF6) || (0xF8 <= r <= 0xFF)
  }

  /** A byte with its ASCII lower-case letter made upper-case. */
  function UpperByte(b: byte): (u: byte)
    ensures 'a' as int <= b <= 'z' as int ==> u == b - 32
    ensures !('a' as int <= b <= 'z' as int) ==> u == b
  {
    if 'a' as int <= b <= 'z' as int then b - 32 else b
  }

  /** A byte string with its ASCII letters made upper-case, bytes at or above 0x80 untouched. */
  function UpperAscii(s: seq<byte>): (u: seq<byte>)
    ensures |u| == |s| && forall i :: 0 <= i < |s| ==> u[i] == UpperByte(s[i])
  {
    if s == [] then [] else [UpperByte(s[0])] + UpperAscii(s[1..])
  }

  /** Upper-casing twice changes nothing more. */
  lemma UpperAsciiIdempotent(s: seq<byte>)
    ensures UpperAscii(UpperAscii(s)) == UpperAscii(s)
  {
  }

  /** The bytes of an ASCII string. */
  function Ascii(s: string): (b: seq<byte>)
    requires forall i :: 0 <= i < |s| ==> s[i] as int < 128
    ensures |b| == |s| && forall i :: 0 <= i < |s| ==> b[i] == s[i] as int
  {
    if s == [] then [] else [s[0] as int] + Ascii(s[1..])
  }
}
