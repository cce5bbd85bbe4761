/** Well-formed UTF-8 as defined by the syntax of section 4 of RFC 3629: the
    byte sequences the Python `utf8` codec decodes without raising. Text is
    kept in its encoded form throughout the model; this predicate is what
    separates a string field that decodes from one that does not. */
module Utf8 {
  import opened Bytes

  predicate IsTail(b: Byte) {
    0x80 <= b <= 0xBF
  }

  /** Length of the well-formed character that starts `s`, or 0 when `s`
      does not start with one. */
  function CharLen(s: seq<Byte>): (n: nat)
    requires |s| > 0
    ensures n <= 4 && n <= |s|
  {
    var b0 := s[0];
    if b0 <= 0x7F then 1
    else if 0xC2 <= b0 <= 0xDF then
      (if |s| >= 2 && IsTail(s[1]) then 2 else 0)
    else if b0 == 0xE0 then
      (if |s| >= 3 && 0xA0 <= s[1] <= 0xBF && IsTail(s[2]) then 3 else 0)
    else if (0xE1 <= b0 <= 0xEC) || b0 == 0xEE || b0 == 0xEF then
      (if |s| >= 3 && IsTail(s[1]) && IsTail(s[2]) then 3 else 0)
    else if b0 == 0xED then
      (if |s| >= 3 && 0x80 <= s[1] <= 0x9F && IsTail(s[2]) then 3 else 0)
    else if b0 == 0xF0 then
      (if |s| >= 4 && 0x90 <= s[1] <= 0xBF && IsTail(s[2]) && IsTail(s[3]) then 4 else 0)
    else if 0xF1 <= b0 <= 0xF3 then
      (if |s| >= 4 && IsTail(s[1]) && IsTail(s[2]) && IsTail(s[3]) then 4 else 0)
    else if b0 == 0xF4 then
      (if |s| >= 4 && 0x80 <= s[1] <= 0x8F && IsTail(s[2]) && IsTail(s[3]) then 4 else 0)
    else 0
  }

  predicate ValidUtf8(s: seq<Byte>)
    decreases |s|
  {
    |s| == 0 || (CharLen(s) > 0 && ValidUtf8(s[CharLen(s)..]))
  }

  predicate IsAscii(s: seq<Byte>) {
    forall i :: 0 <= i < |s| ==> s[i] < 0x80
  }

  lemma {:induction false} AsciiIsValid(s: seq<Byte>)
    requires IsAscii(s)
    ensures ValidUtf8(s)
    decreases |s|
  {
    if |s| > 0 {
      assert CharLen(s) == 1;
      assert IsAscii(s[1..]) by {
        forall i | 0 <= i < |s[1..]| ensures s[1..][i] < 0x80 {
          assert s[1..][i] == s[i + 1];
        }
      }
      AsciiIsValid(s[1..]);
    }
  }

  /** A character that is well formed at the front of `a` stays so whatever
      follows it. */
  lemma CharLenPrefix(a: seq<Byte>, b: seq<Byte>)
    requires |a| > 0 && CharLen(a) > 0
    ensures CharLen(a + b) == CharLen(a)
  {
    var n := CharLen(a);
    forall i | 0 <= i < n ensures (a + b)[i] == a[i] { }
  }

  lemma {:induction false} ConcatValid(a: seq<Byte>, b: seq<Byte>)
    requires ValidUtf8(a) && ValidUtf8(b)
    ensures ValidUtf8(a + b)
    decreases |a|
  {
    if |a| > 0 {
      var n := CharLen(a);
      CharLenPrefix(a, b);
      assert (a + b)[n..] == a[n..] + b;
      ConcatValid(a[n..], b);
    } else {
      assert a + b == b;
    }
  }

  lemma Concat3Valid(a: seq<Byte>, b: seq<Byte>, c: seq<Byte>)
    requires ValidUtf8(a) && ValidUtf8(b) && ValidUtf8(c)
    ensures ValidUtf8(a + b + c)
  {
    ConcatValid(a, b);
    ConcatValid(a + b, c);
  }
}
