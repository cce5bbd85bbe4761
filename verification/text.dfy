/** Python's `str.split(sep)` and `sep.join(xs)` on encoded text. Every
    separator the system uses (`,` `;` `|` and CR LF) is ASCII, and in UTF-8
    an ASCII byte never occurs inside a multi-byte character, so splitting
    the bytes splits the decoded text at the same places. */
module Text {
  import opened Bytes
  import opened Wrappers
  import opened Utf8

  const COMMA: seq<Byte> := [0x2C]
  const SEMICOLON: seq<Byte> := [0x3B]
  const BAR: seq<Byte> := [0x7C]
  const CRLF: seq<Byte> := [0x0D, 0x0A]

  predicate OccursAt(s: seq<Byte>, sep: seq<Byte>, i: nat) {
    i + |sep| <= |s| && s[i..i + |sep|] == sep
  }

  ghost predicate Contains(s: seq<Byte>, sep: seq<Byte>) {
    exists i: nat :: OccursAt(s, sep, i)
  }

  /** No proper prefix of `sep` is also a suffix of it, so two occurrences
      can never overlap (true of every one-byte separator and of CR LF). */
  predicate NoBorder(sep: seq<Byte>) {
    forall k :: 0 < k < |sep| ==> sep[k..] != sep[..|sep| - k]
  }

  /** Position of the leftmost occurrence of `sep` in `s`. */
  function Find(s: seq<Byte>, sep: seq<Byte>): (r: Option<nat>)
    requires |sep| > 0
    ensures r.Some? ==> OccursAt(s, sep, r.value)
    ensures r.Some? ==> forall j: nat :: j < r.value ==> !OccursAt(s, sep, j)
    ensures r.None? ==> !Contains(s, sep)
    decreases |s|
  {
    if |s| < |sep| then None
    else if s[..|sep|] == sep then Some(0)
    else match Find(s[1..], sep)
      case None =>
        OccursShift(s, sep);
        None
      case Some(i) =>
        OccursShift(s, sep);
        Some(i + 1)
  }

  lemma OccursShift(s: seq<Byte>, sep: seq<Byte>)
    requires |s| > 0
    ensures forall j: nat :: OccursAt(s[1..], sep, j) ==> OccursAt(s, sep, j + 1)
    ensures forall j: nat :: 0 < j && OccursAt(s, sep, j) ==> OccursAt(s[1..], sep, j - 1)
  {
    forall j: nat
      ensures OccursAt(s[1..], sep, j) <==> OccursAt(s, sep, j + 1)
    {
      if j + 1 + |sep| <= |s| {
        assert s[1..][j..j + |sep|] == s[j + 1..j + 1 + |sep|];
      }
    }
  }

  /** `s.split(sep)`: the pieces between the leftmost non-overlapping
      occurrences of `sep`; never empty, `[""]` for the empty string. */
  function Split(s: seq<Byte>, sep: seq<Byte>): (r: seq<seq<Byte>>)
    requires |sep| > 0
    ensures |r| >= 1
    decreases |s|
  {
    match Find(s, sep)
    case None => [s]
    case Some(i) => [s[..i]] + Split(s[i + |sep|..], sep)
  }

  /** `sep.join(xs)`. */
  function Join(xs: seq<seq<Byte>>, sep: seq<Byte>): (r: seq<Byte>)
    decreases |xs|
  {
    if |xs| == 0 then []
    else if |xs| == 1 then xs[0]
    else xs[0] + sep + Join(xs[1..], sep)
  }

  /** A joined list starts with its first piece and ends with its last;
      between two pieces stands one separator. */
  lemma {:induction false} JoinEnds(xs: seq<seq<Byte>>, sep: seq<Byte>)
    ensures |xs| == 0 ==> Join(xs, sep) == []
    ensures |xs| > 0 ==> xs[0] <= Join(xs, sep)
    ensures |xs| > 0 ==> |Join(xs, sep)| >= |xs[|xs| - 1]|
    ensures |xs| > 0 ==> Join(xs, sep)[|Join(xs, sep)| - |xs[|xs| - 1]|..] == xs[|xs| - 1]
    ensures |xs| > 1 ==> xs[0] + sep <= Join(xs, sep)
    decreases |xs|
  {
    if |xs| > 1 {
      JoinEnds(xs[1..], sep);
      var r := Join(xs[1..], sep);
      assert Join(xs, sep) == xs[0] + sep + r;
      assert xs[1..][|xs[1..]| - 1] == xs[|xs| - 1];
      assert (xs[0] + sep + r)[|xs[0] + sep + r| - |xs[|xs| - 1]|..] == r[|r| - |xs[|xs| - 1]|..];
    }
  }

  ghost predicate NoneContains(xs: seq<seq<Byte>>, sep: seq<Byte>) {
    forall i :: 0 <= i < |xs| ==> !Contains(xs[i], sep)
  }

  /** An occurrence of `sep` in `a + sep + b` that starts inside `a` and
      runs past its end matches a suffix of `sep` against a prefix of it. */
  lemma StraddleIsBorder(a: seq<Byte>, sep: seq<Byte>, b: seq<Byte>, j: nat)
    requires j < |a| < j + |sep|
    requires OccursAt(a + sep + b, sep, j)
    ensures sep[|a| - j..] == sep[..|sep| - (|a| - j)]
  {
    var s := a + sep + b;
    var k := |a| - j;
    forall m | 0 <= m < |sep| - k ensures sep[k..][m] == sep[..|sep| - k][m] {
      assert s[j..j + |sep|][k + m] == s[|a| + m];
    }
  }

  /** An occurrence of a border-free separator that starts inside `a` of
      `a + sep + b` lies inside `a`. */
  lemma NoStraddle(a: seq<Byte>, sep: seq<Byte>, b: seq<Byte>, j: nat)
    requires |sep| > 0 && NoBorder(sep)
    requires j < |a| && OccursAt(a + sep + b, sep, j)
    ensures OccursAt(a, sep, j)
  {
    var s := a + sep + b;
    assert j + |sep| <= |a| by {
      if j + |sep| > |a| {
        StraddleIsBorder(a, sep, b, j);
        assert false;
      }
    }
    assert s[j..j + |sep|] == a[j..j + |sep|];
  }

  lemma FindAtFirstSeparator(a: seq<Byte>, sep: seq<Byte>, b: seq<Byte>)
    requires |sep| > 0 && NoBorder(sep) && !Contains(a, sep)
    ensures Find(a + sep + b, sep) == Some(|a|)
  {
    var s := a + sep + b;
    assert OccursAt(s, sep, |a|) by {
      assert s[|a|..|a| + |sep|] == sep;
    }
    forall j: nat | j < |a| ensures !OccursAt(s, sep, j) {
      if OccursAt(s, sep, j) {
        NoStraddle(a, sep, b, j);
      }
    }
    var f := Find(s, sep);
    if f.None? {
      assert false;
    } else if f.value < |a| {
      assert false;
    } else if f.value > |a| {
      assert false;
    }
  }

  /** Splitting a join gives back the joined pieces, provided there is at
      least one piece and none of them contains the separator. */
  lemma {:induction false} SplitJoin(xs: seq<seq<Byte>>, sep: seq<Byte>)
    requires |sep| > 0 && NoBorder(sep)
    requires |xs| > 0 && NoneContains(xs, sep)
    ensures Split(Join(xs, sep), sep) == xs
    decreases |xs|
  {
    if |xs| == 1 {
      assert !Contains(xs[0], sep);
    } else {
      var rest := Join(xs[1..], sep);
      assert !Contains(xs[0], sep);
      FindAtFirstSeparator(xs[0], sep, rest);
      var s := xs[0] + sep + rest;
      assert s[..|xs[0]|] == xs[0];
      assert s[|xs[0]| + |sep|..] == rest;
      assert NoneContains(xs[1..], sep) by {
        forall i | 0 <= i < |xs[1..]| ensures !Contains(xs[1..][i], sep) {
          assert xs[1..][i] == xs[i + 1];
        }
      }
      SplitJoin(xs[1..], sep);
      assert xs == [xs[0]] + xs[1..];
    }
  }

  lemma SplitEmpty(sep: seq<Byte>)
    requires |sep| > 0
    ensures Split([], sep) == [[]]
  {
  }

  lemma StraddleHitsByte(a: seq<Byte>, c: Byte, b: seq<Byte>, sep: seq<Byte>, j: nat)
    requires j <= |a| < j + |sep|
    requires OccursAt(a + [c] + b, sep, j)
    ensures sep[|a| - j] == c
  {
    var s := a + [c] + b;
    assert s[j..j + |sep|][|a| - j] == s[|a|];
  }

  /** A byte that is not part of the separator cannot be straddled by it. */
  lemma NoStraddleByte(a: seq<Byte>, c: Byte, b: seq<Byte>, sep: seq<Byte>)
    requires |sep| > 0 && c !in sep
    requires !Contains(a, sep) && !Contains(b, sep)
    ensures !Contains(a + [c] + b, sep)
  {
    var s := a + [c] + b;
    forall j: nat | OccursAt(s, sep, j) ensures false {
      if j + |sep| <= |a| {
        assert s[j..j + |sep|] == a[j..j + |sep|];
        assert OccursAt(a, sep, j);
      } else if j > |a| {
        assert s[j..j + |sep|] == b[j - |a| - 1..j - |a| - 1 + |sep|];
        assert OccursAt(b, sep, j - |a| - 1);
      } else {
        StraddleHitsByte(a, c, b, sep, j);
        assert false;
      }
    }
  }

  /** Joining pieces with a byte that the separator does not use creates no
      occurrence of the separator. */
  lemma {:induction false} JoinAvoids(xs: seq<seq<Byte>>, c: Byte, sep: seq<Byte>)
    requires |sep| > 0 && c !in sep
    requires NoneContains(xs, sep)
    ensures !Contains(Join(xs, [c]), sep)
    decreases |xs|
  {
    if |xs| == 0 {
      assert forall j: nat :: !OccursAt([], sep, j);
    } else if |xs| == 1 {
      assert !Contains(xs[0], sep);
    } else {
      assert NoneContains(xs[1..], sep) by {
        forall i | 0 <= i < |xs[1..]| ensures !Contains(xs[1..][i], sep) {
          assert xs[1..][i] == xs[i + 1];
        }
      }
      JoinAvoids(xs[1..], c, sep);
      assert !Contains(xs[0], sep);
      NoStraddleByte(xs[0], c, Join(xs[1..], [c]), sep);
    }
  }

  predicate AllValid(xs: seq<seq<Byte>>) {
    forall i :: 0 <= i < |xs| ==> ValidUtf8(xs[i])
  }

  lemma {:induction false} JoinValid(xs: seq<seq<Byte>>, sep: seq<Byte>)
    requires IsAscii(sep) && AllValid(xs)
    ensures ValidUtf8(Join(xs, sep))
    decreases |xs|
  {
    if |xs| == 0 {
    } else if |xs| == 1 {
      assert ValidUtf8(xs[0]);
    } else {
      assert AllValid(xs[1..]) by {
        forall i | 0 <= i < |xs[1..]| ensures ValidUtf8(xs[1..][i]) {
          assert xs[1..][i] == xs[i + 1];
        }
      }
      JoinValid(xs[1..], sep);
      AsciiIsValid(sep);
      assert ValidUtf8(xs[0]);
      Concat3Valid(xs[0], sep, Join(xs[1..], sep));
    }
  }

  lemma SeparatorsBorderFree()
    ensures NoBorder(COMMA) && NoBorder(SEMICOLON) && NoBorder(BAR) && NoBorder(CRLF)
  {
    assert CRLF[1..][0] != CRLF[..1][0];
  }

  /** Each entry's fields joined with `,`, one line per entry. */
  function JoinFields(entries: seq<seq<seq<Byte>>>): (r: seq<seq<Byte>>)
    ensures |r| == |entries|
    ensures forall i :: 0 <= i < |r| ==> r[i] == Join(entries[i], COMMA)
    decreases |entries|
  {
    if |entries| == 0 then [] else [Join(entries[0], COMMA)] + JoinFields(entries[1..])
  }

  /** What splitting a joined list gives back: the empty list is joined
      into the empty string, which splits into one empty piece. */
  function AsRead(xs: seq<seq<Byte>>): (r: seq<seq<Byte>>)
    ensures |r| >= 1
    ensures |xs| > 0 ==> r == xs
  {
    if |xs| == 0 then [[]] else xs
  }

  lemma ListRoundTrip(xs: seq<seq<Byte>>, sep: seq<Byte>)
    requires |sep| > 0 && NoBorder(sep)
    requires NoneContains(xs, sep)
    ensures Split(Join(xs, sep), sep) == AsRead(xs)
  {
    if |xs| == 0 {
      SplitEmpty(sep);
    } else {
      SplitJoin(xs, sep);
    }
  }

  /** No joined entry holds `sep` when no field does and `,` is not part
      of `sep`. */
  lemma JoinFieldsAvoid(entries: seq<seq<seq<Byte>>>, sep: seq<Byte>)
    requires |sep| > 0 && 0x2C !in sep
    requires forall i :: 0 <= i < |entries| ==> NoneContains(entries[i], sep)
    ensures NoneContains(JoinFields(entries), sep)
  {
    forall i | 0 <= i < |entries| ensures !Contains(JoinFields(entries)[i], sep) {
      JoinAvoids(entries[i], 0x2C, sep);
    }
  }

  lemma JoinFieldsValid(entries: seq<seq<seq<Byte>>>)
    requires forall i :: 0 <= i < |entries| ==> AllValid(entries[i])
    ensures AllValid(JoinFields(entries))
  {
    forall i | 0 <= i < |entries| ensures ValidUtf8(JoinFields(entries)[i]) {
      JoinValid(entries[i], COMMA);
    }
  }
}
