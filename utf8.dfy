/**
 * Byte strings and UTF-8 decoding as Go's unicode/utf8.DecodeRuneInString
 * performs it (RFC 3629, section 3). Go strings are byte sequences; a rune
 * is an integer code point. Both text scanners (the root Scanner and the
 * avramx lexer) read their input one decoded rune at a time.
 */
module Utf8 {

  type byte = b: int | 0 <= b < 256

  /** U+FFFD, what the decoder yields (with width 1) for a byte that does not start a valid sequence. */
  const RuneError: int := 0xFFFD

  /** The code point and the byte of '\n'. */
  const Newline: int := 10

  /** The number of bytes a leading byte announces, or 0 when the byte cannot lead a sequence. */
  function SequenceLength(b: byte): nat
  {
    if b < 0x80 then 1
    else if 0xC2 <= b <= 0xDF then 2
    else if 0xE0 <= b <= 0xEF then 3
    else if 0xF0 <= b <= 0xF4 then 4
    else 0
  }

  /** Bounds of the second byte, which the leading byte narrows (no overlong forms, no surrogates, nothing above U+10FFFF). */
  function SecondLow(b0: byte): byte
  {
    if b0 == 0xE0 then 0xA0 else if b0 == 0xF0 then 0x90 else 0x80
  }

  function SecondHigh(b0: byte): byte
  {
    if b0 == 0xED then 0x9F else if b0 == 0xF4 then 0x8F else 0xBF
  }

  predicate IsContinuation(b: byte)
  {
    0x80 <= b <= 0xBF
  }

  /**
   * The rune that starts at byte i of s, and its width in bytes. A
   * truncated or malformed sequence decodes as RuneError of width 1, so
   * decoding always makes progress.
   */
  function Decode(s: seq<byte>, i: nat): (d: (int, nat))
    requires i < |s|
    ensures 1 <= d.1 <= 4 && i + d.1 <= |s|
    ensures s[i] < 0x80 ==> d == (s[i] as int, 1)
    ensures s[i] >= 0x80 ==> d.0 >= 0x80
    ensures d.1 > 1 ==> 0x80 <= d.0 && forall k :: i < k < i + d.1 ==> IsContinuation(s[k])
    ensures d.0 == Newline <==> d.1 == 1 && s[i] == Newline
  {
    var b0 := s[i];
    var n := SequenceLength(b0);
    var lead := b0 as int;
    if n == 1 then (b0 as int, 1)
    else if n == 0 || |s| - i < n then (RuneError, 1)
    else if !(SecondLow(b0) <= s[i + 1] <= SecondHigh(b0)) then (RuneError, 1)
    else if n == 2 then ((lead - 0xC0) * 64 + (s[i + 1] as int - 0x80), 2)
    else if !IsContinuation(s[i + 2]) then (RuneError, 1)
    else if n == 3 then ((lead - 0xE0) * 4096 + (s[i + 1] as int - 0x80) * 64 + (s[i + 2] as int - 0x80), 3)
    else if !IsContinuation(s[i + 3]) then (RuneError, 1)
    else ((lead - 0xF0) * 262144 + (s[i + 1] as int - 0x80) * 4096 + (s[i + 2] as int - 0x80) * 64 + (s[i + 3] as int - 0x80), 4)
  }

  /**
   * Decoding from byte i rune by rune lands exactly on byte j, and every
   * rune met on the way satisfies f.
   */
  ghost predicate AllSatisfy(s: seq<byte>, i: nat, j: nat, f: int -> bool)
    decreases j - i
  {
    i <= j <= |s| &&
    (i == j || (var d := Decode(s, i); f(d.0) && AllSatisfy(s, i + d.1, j, f)))
  }

  /**
   * Where the longest run of runes satisfying f that starts at byte i ends:
   * the position every "read while f holds" loop of the library stops at.
   */
  function RunEnd(s: seq<byte>, i: nat, f: int -> bool): (e: nat)
    requires i <= |s|
    ensures i <= e <= |s|
    ensures AllSatisfy(s, i, e, f)
    ensures e < |s| ==> !f(Decode(s, e).0)
    decreases |s| - i
  {
    if i == |s| then i
    else
      var d := Decode(s, i);
      if f(d.0) then RunEnd(s, i + d.1, f) else i
  }

  /** One rune further on a run of runes satisfying f. */
  lemma RunEndStep(s: seq<byte>, q: nat, f: int -> bool)
    requires q <= |s|
    ensures q == |s| ==> RunEnd(s, q, f) == q
    ensures q < |s| && f(Decode(s, q).0) ==> RunEnd(s, q, f) == RunEnd(s, q + Decode(s, q).1, f)
    ensures q < |s| && !f(Decode(s, q).0) ==> RunEnd(s, q, f) == q
  {
  }

  /** A run of runes satisfying f extends by one more rune that satisfies f. */
  lemma {:induction false} AllSatisfyExtend(s: seq<byte>, i: nat, j: nat, f: int -> bool)
    requires AllSatisfy(s, i, j, f) && j < |s| && f(Decode(s, j).0)
    ensures AllSatisfy(s, i, j + Decode(s, j).1, f)
    decreases j - i
  {
    if i < j {
      AllSatisfyExtend(s, i + Decode(s, i).1, j, f);
    }
  }

  /** A run that satisfies f and cannot be extended ends where RunEnd says: the maximal run is unique. */
  lemma {:induction false} RunEndUnique(s: seq<byte>, i: nat, e: nat, f: int -> bool)
    requires AllSatisfy(s, i, e, f)
    requires e < |s| ==> !f(Decode(s, e).0)
    ensures RunEnd(s, i, f) == e
    decreases e - i
  {
    if i < e {
      RunEndUnique(s, i + Decode(s, i).1, e, f);
    }
  }

  /** The number of '\n' bytes in s. */
  function Newlines(s: seq<byte>): (n: nat)
    ensures n <= |s|
  {
    if s == [] then 0 else (if s[|s| - 1] == Newline then 1 else 0) + Newlines(s[..|s| - 1])
  }

  /** Counting newlines distributes over concatenation. */
  lemma {:induction false} NewlinesAppend(a: seq<byte>, b: seq<byte>)
    ensures Newlines(a + b) == Newlines(a) + Newlines(b)
    decreases |b|
  {
    if b != [] {
      var b' := b[..|b| - 1];
      assert (a + b)[..|a + b| - 1] == a + b';
      assert (a + b)[|a + b| - 1] == b[|b| - 1];
      NewlinesAppend(a, b');
    } else {
      assert a + b == a;
    }
  }

  /**
   * The bytes of one decoded rune hold a '\n' exactly when the rune is
   * '\n': a multi-byte rune is made of bytes at or above 0x80.
   */
  lemma NewlinesOfRune(s: seq<byte>, i: nat)
    requires i < |s|
    ensures Newlines(s[i..i + Decode(s, i).1]) == if Decode(s, i).0 == Newline then 1 else 0
  {
    var d := Decode(s, i);
    var t := s[i..i + d.1];
    if d.1 == 1 {
      assert t[..0] == [];
    } else {
      assert forall k :: 0 <= k < |t| ==> t[k] != Newline by {
        forall k | 0 <= k < |t| ensures t[k] != Newline {
          if k > 0 {
            assert IsContinuation(s[i + k]);
          }
        }
      }
      NoNewlines(t);
    }
  }

  lemma {:induction false} NoNewlines(t: seq<byte>)
    requires forall k :: 0 <= k < |t| ==> t[k] != Newline
    ensures Newlines(t) == 0
    decreases |t|
  {
    if t != [] {
      NoNewlines(t[..|t| - 1]);
    }
  }
}
