/** The segment algebra of `Dvsegment`: concatenation (`+` and `sum`),
    lyric extraction, sorting by start and head/tail trimming. The source
    mutates and returns `self`; here each operation returns a new value. */
module SegmentAlgebra {
  import opened Wrappers
  import opened Entities

  /** The notes moved `delta` ticks later, otherwise unchanged. */
  function Shift(notes: seq<Note>, delta: int): (r: seq<Note>)
    ensures |r| == |notes|
    decreases |notes|
  {
    if |notes| == 0 then []
    else [notes[0].(start := notes[0].start + delta)] + Shift(notes[1..], delta)
  }

  /** `a + b`: one segment starting where `a` starts, reaching to the end of
      `b`, holding `a`'s notes and then `b`'s notes re-based onto `a`'s
      start. Name and voice bank are left empty. */
  function Add(a: Segment, b: Segment): (r: Segment)
    ensures r.start == a.start
    ensures r.start + r.length == b.start + b.length
    ensures r.name == [] && r.vbname == []
    ensures |r.notes| == |a.notes| + |b.notes|
    ensures r.notes[..|a.notes|] == a.notes
  {
    var delta := b.start - a.start;
    Segment(a.start, delta + b.length, [], [], a.notes + Shift(b.notes, delta))
  }

  /** Each note of `b` keeps its absolute position (segment start plus note
      start) and all its other fields in `a + b`. */
  lemma AddKeepsAbsolutePositions(a: Segment, b: Segment)
    ensures forall j :: 0 <= j < |b.notes| ==>
      var n := Add(a, b).notes[|a.notes| + j];
      n == b.notes[j].(start := n.start) && a.start + n.start == b.start + b.notes[j].start
  {
    ShiftIndex(b.notes, b.start - a.start);
  }

  lemma {:induction false} ShiftIndex(notes: seq<Note>, delta: int)
    ensures forall i :: 0 <= i < |notes| ==>
      Shift(notes, delta)[i] == notes[i].(start := notes[i].start + delta)
    decreases |notes|
  {
    if |notes| > 0 {
      ShiftIndex(notes[1..], delta);
    }
  }

  lemma {:induction false} ShiftShift(notes: seq<Note>, d1: int, d2: int)
    ensures Shift(Shift(notes, d1), d2) == Shift(notes, d1 + d2)
    decreases |notes|
  {
    if |notes| > 0 {
      ShiftShift(notes[1..], d1, d2);
      assert Shift(notes, d1)[1..] == Shift(notes[1..], d1);
    }
  }

  lemma {:induction false} ShiftConcat(xs: seq<Note>, ys: seq<Note>, d: int)
    ensures Shift(xs + ys, d) == Shift(xs, d) + Shift(ys, d)
    decreases |xs|
  {
    if |xs| > 0 {
      ShiftConcat(xs[1..], ys, d);
      assert (xs + ys)[1..] == xs[1..] + ys;
    } else {
      assert xs + ys == ys;
    }
  }

  lemma AddAssocLeft(a: Segment, b: Segment, c: Segment)
    ensures Add(Add(a, b), c).notes == a.notes + (Shift(b.notes, b.start - a.start) + Shift(c.notes, c.start - a.start))
  {
    var sb := Shift(b.notes, b.start - a.start);
    var sc := Shift(c.notes, c.start - a.start);
    assert Add(a, b).notes == a.notes + sb;
    assert (a.notes + sb) + sc == a.notes + (sb + sc);
  }

  lemma AddAssocRight(a: Segment, b: Segment, c: Segment)
    ensures Add(a, Add(b, c)).notes == a.notes + (Shift(b.notes, b.start - a.start) + Shift(c.notes, c.start - a.start))
  {
    var d1 := c.start - b.start;
    var d2 := b.start - a.start;
    var cb := Shift(c.notes, d1);
    var bc := Add(b, c);
    assert bc.notes == b.notes + cb && bc.start == b.start;
    assert Add(a, bc).notes == a.notes + Shift(b.notes + cb, d2);
    ShiftConcat(b.notes, cb, d2);
    ShiftShift(c.notes, d1, d2);
    assert d1 + d2 == c.start - a.start;
  }

  lemma AddAssociative(a: Segment, b: Segment, c: Segment)
    ensures Add(Add(a, b), c) == Add(a, Add(b, c))
  {
    AddAssocLeft(a, b, c);
    AddAssocRight(a, b, c);
  }

  /** `sum(segments, start)`: left-to-right addition onto `start`. */
  function SumFrom(acc: Segment, segs: seq<Segment>): (r: Segment)
    ensures r.start == acc.start
    ensures |r.notes| >= |acc.notes| && r.notes[..|acc.notes|] == acc.notes
    ensures |segs| > 0 ==> r.start + r.length == segs[|segs| - 1].start + segs[|segs| - 1].length
    ensures |segs| == 0 ==> r == acc
    decreases |segs|
  {
    if |segs| == 0 then acc else SumFrom(Add(acc, segs[0]), segs[1..])
  }

  /** `sum(track.segment, Dvsegment(0, 0))`: a segment at tick 0 that ends
      where the last segment ends and holds every note at its absolute
      position. */
  function Flatten(segs: seq<Segment>): (r: Segment)
    ensures r.start == 0
    ensures r.notes == Absolute(segs)
    ensures r.length == if |segs| == 0 then 0 else segs[|segs| - 1].start + segs[|segs| - 1].length
  {
    SumFromAbsolute(EmptySegment(0, 0), segs);
    SumFrom(EmptySegment(0, 0), segs)
  }

  /** Reference definition of the flattened timeline: every note of every
      segment placed at its segment's start plus its own start. */
  function Absolute(segs: seq<Segment>): seq<Note>
    decreases |segs|
  {
    if |segs| == 0 then [] else Shift(segs[0].notes, segs[0].start) + Absolute(segs[1..])
  }

  lemma {:induction false} SumFromAbsolute(acc: Segment, segs: seq<Segment>)
    requires acc.start == 0
    ensures SumFrom(acc, segs).start == 0
    ensures SumFrom(acc, segs).notes == acc.notes + Absolute(segs)
    ensures |segs| > 0 ==> SumFrom(acc, segs).length == segs[|segs| - 1].start + segs[|segs| - 1].length
    ensures |segs| == 0 ==> SumFrom(acc, segs) == acc
    decreases |segs|
  {
    if |segs| > 0 {
      var next := Add(acc, segs[0]);
      assert next.start == 0;
      assert next.notes == acc.notes + Shift(segs[0].notes, segs[0].start);
      SumFromAbsolute(next, segs[1..]);
      assert Absolute(segs) == Shift(segs[0].notes, segs[0].start) + Absolute(segs[1..]);
      assert (acc.notes + Shift(segs[0].notes, segs[0].start)) + Absolute(segs[1..])
          == acc.notes + Absolute(segs);
      if |segs| > 1 {
        assert segs[1..][|segs[1..]| - 1] == segs[|segs| - 1];
      }
    }
  }

  /** `getlyric`: the lyrics of the notes, in order, leaving out those in
      `ignore`. */
  function GetLyric(notes: seq<Note>, useHanzi: bool, ignore: set<Str>): (r: seq<Str>)
    ensures |r| <= |notes|
    ensures forall i :: 0 <= i < |r| ==> r[i] !in ignore
    ensures forall i :: 0 <= i < |notes| && Lyric(notes[i], useHanzi) !in ignore ==>
      Lyric(notes[i], useHanzi) in r
    ensures forall x :: x in r ==> exists i :: 0 <= i < |notes| && Lyric(notes[i], useHanzi) == x
    decreases |notes|
  {
    if |notes| == 0 then []
    else
      var l := Lyric(notes[0], useHanzi);
      var rest := GetLyric(notes[1..], useHanzi, ignore);
      assert forall i :: 1 <= i < |notes| ==> notes[i] == notes[1..][i - 1];
      if l in ignore then rest else [l] + rest
  }

  /** Lyrics do not depend on note positions, so the lyrics of a sum are the
      lyrics of its parts. */
  lemma {:induction false} GetLyricAppend(xs: seq<Note>, ys: seq<Note>, useHanzi: bool, ignore: set<Str>)
    ensures GetLyric(xs + ys, useHanzi, ignore) == GetLyric(xs, useHanzi, ignore) + GetLyric(ys, useHanzi, ignore)
    decreases |xs|
  {
    if |xs| > 0 {
      assert (xs + ys)[1..] == xs[1..] + ys;
      GetLyricAppend(xs[1..], ys, useHanzi, ignore);
    } else {
      assert xs + ys == ys;
    }
  }

  /** One note contributes its own lyric unless it is ignored. With
      `GetLyricAppend` this fixes both the order and the multiplicity of the
      lyrics of any note list. */
  lemma GetLyricSingle(n: Note, useHanzi: bool, ignore: set<Str>)
    ensures GetLyric([n], useHanzi, ignore)
         == if Lyric(n, useHanzi) in ignore then [] else [Lyric(n, useHanzi)]
  {
  }

  /** With nothing ignored, the lyrics are those of the notes, one per note
      and in note order. */
  lemma {:induction false} GetLyricNoneIgnored(notes: seq<Note>, useHanzi: bool)
    ensures GetLyric(notes, useHanzi, {})
         == seq(|notes|, i requires 0 <= i < |notes| => Lyric(notes[i], useHanzi))
    decreases |notes|
  {
    if |notes| > 0 {
      GetLyricNoneIgnored(notes[1..], useHanzi);
    }
  }

  lemma {:induction false} GetLyricShift(xs: seq<Note>, d: int, useHanzi: bool, ignore: set<Str>)
    ensures GetLyric(Shift(xs, d), useHanzi, ignore) == GetLyric(xs, useHanzi, ignore)
    decreases |xs|
  {
    if |xs| > 0 {
      assert Shift(xs, d)[1..] == Shift(xs[1..], d);
      GetLyricShift(xs[1..], d, useHanzi, ignore);
    }
  }

  lemma GetLyricAdd(a: Segment, b: Segment, useHanzi: bool, ignore: set<Str>)
    ensures GetLyric(Add(a, b).notes, useHanzi, ignore)
         == GetLyric(a.notes, useHanzi, ignore) + GetLyric(b.notes, useHanzi, ignore)
  {
    GetLyricAppend(a.notes, Shift(b.notes, b.start - a.start), useHanzi, ignore);
    GetLyricShift(b.notes, b.start - a.start, useHanzi, ignore);
  }

  predicate SortedByStart(xs: seq<Note>) {
    forall i, j :: 0 <= i < j < |xs| ==> xs[i].start <= xs[j].start
  }

  /** The notes of `xs` that start at tick `k`, in their order in `xs`. */
  function StartingAt(xs: seq<Note>, k: int): seq<Note>
    decreases |xs|
  {
    if |xs| == 0 then []
    else (if xs[0].start == k then [xs[0]] else []) + StartingAt(xs[1..], k)
  }

  /** Insertion of `x` in front of every note that starts no earlier. */
  function Insert(x: Note, ys: seq<Note>): (r: seq<Note>)
    ensures multiset(r) == multiset(ys) + multiset{x}
    decreases |ys|
  {
    if |ys| == 0 || x.start <= ys[0].start then [x] + ys
    else
      assert ys == [ys[0]] + ys[1..];
      [ys[0]] + Insert(x, ys[1..])
  }

  lemma {:induction false} InsertStartingAt(x: Note, ys: seq<Note>, k: int)
    ensures StartingAt(Insert(x, ys), k) == (if x.start == k then [x] else []) + StartingAt(ys, k)
    decreases |ys|
  {
    if |ys| == 0 || x.start <= ys[0].start {
      assert ([x] + ys)[1..] == ys;
    } else {
      InsertStartingAt(x, ys[1..], k);
      assert ([ys[0]] + Insert(x, ys[1..]))[1..] == Insert(x, ys[1..]);
    }
  }

  lemma {:induction false} InsertSorted(x: Note, ys: seq<Note>)
    requires SortedByStart(ys)
    ensures SortedByStart(Insert(x, ys))
    decreases |ys|
  {
    if |ys| > 0 && x.start > ys[0].start {
      var tail := Insert(x, ys[1..]);
      InsertSorted(x, ys[1..]);
      forall j | 0 <= j < |tail| ensures ys[0].start <= tail[j].start {
        assert tail[j] in multiset(ys[1..]) + multiset{x};
      }
    }
  }

  /** `sorted(notes, key=start)`: Python's sort is stable, so the result is
      ordered by start and keeps the original order of notes sharing a
      start; together these pin the result down uniquely. */
  function SortNotes(xs: seq<Note>): (r: seq<Note>)
    ensures SortedByStart(r)
    ensures multiset(r) == multiset(xs)
    ensures forall k :: StartingAt(r, k) == StartingAt(xs, k)
    decreases |xs|
  {
    if |xs| == 0 then []
    else
      var rest := SortNotes(xs[1..]);
      assert xs == [xs[0]] + xs[1..];
      InsertSorted(xs[0], rest);
      assert forall k :: StartingAt(Insert(xs[0], rest), k) == StartingAt(xs, k) by {
        forall k ensures StartingAt(Insert(xs[0], rest), k) == StartingAt(xs, k) {
          InsertStartingAt(xs[0], rest, k);
        }
      }
      Insert(xs[0], rest)
  }

  /** `Dvsegment.sort`. */
  function Sort(seg: Segment): (r: Segment)
    ensures r.notes == SortNotes(seg.notes)
    ensures r.(notes := seg.notes) == seg
  {
    seg.(notes := SortNotes(seg.notes))
  }

  /** Where the head cut starts: the first note with a non-negative start,
      or the last note when there is none (the loop index after a loop
      that never breaks). */
  function HeadIndex(notes: seq<Note>): (h: nat)
    requires |notes| > 0
    ensures h < |notes|
    ensures forall j :: 0 <= j < h ==> notes[j].start < 0
    ensures notes[h].start >= 0 || h == |notes| - 1
    decreases |notes|
  {
    if notes[0].start >= 0 || |notes| == 1 then 0
    else
      var h := HeadIndex(notes[1..]);
      assert forall j :: 1 <= j <= h + 1 ==> notes[j] == notes[1..][j - 1];
      1 + h
  }

  /** Where the tail cut ends: the last note ending within `length`, or the
      first note when there is none. */
  function TailIndex(notes: seq<Note>, length: int): (t: nat)
    requires |notes| > 0
    ensures t < |notes|
    ensures forall j :: t < j < |notes| ==> End(notes[j]) > length
    ensures End(notes[t]) <= length || t == 0
    decreases |notes|
  {
    var last := |notes| - 1;
    if End(notes[last]) <= length || last == 0 then last
    else TailIndex(notes[..last], length)
  }

  /** `Dvsegment.cut(head, tail)`. Trimming an empty note list fails, as
      the source's loop variable is then never bound. */
  function Cut(seg: Segment, head: bool, tail: bool): (r: Option<Segment>)
    ensures r.None? <==> (head || tail) && |seg.notes| == 0
    ensures r.Some? ==> r.value.(notes := seg.notes) == seg
    ensures !head && !tail ==> r == Some(seg)
    ensures r.Some? && head && !tail ==> r.value.notes == seg.notes[HeadIndex(seg.notes)..]
    ensures r.Some? && !head && tail ==>
      r.value.notes == seg.notes[..TailIndex(seg.notes, seg.length) + 1]
    ensures r.Some? && (head || tail) ==> |r.value.notes| > 0
  {
    if (head || tail) && |seg.notes| == 0 then None
    else
      var afterHead := if head then seg.notes[HeadIndex(seg.notes)..] else seg.notes;
      var afterTail := if tail then afterHead[..TailIndex(afterHead, seg.length) + 1] else afterHead;
      Some(seg.(notes := afterTail))
  }

  /** Cutting never reorders or alters notes: the result is a contiguous
      run of the original list, and a sorted list stays sorted. */
  lemma CutIsSlice(seg: Segment, head: bool, tail: bool)
    requires Cut(seg, head, tail).Some?
    ensures exists lo, hi :: (0 <= lo <= hi <= |seg.notes| &&
      Cut(seg, head, tail).value.notes == seg.notes[lo..hi])
    ensures SortedByStart(seg.notes) ==> SortedByStart(Cut(seg, head, tail).value.notes)
  {
    var ns := seg.notes;
    var lo := if head then HeadIndex(ns) else 0;
    var mid := ns[lo..];
    var hi := if tail then lo + TailIndex(mid, seg.length) + 1 else |ns|;
    assert Cut(seg, head, tail).value.notes == ns[lo..hi];
  }

  /** The default `cut()`: the tail cut runs on the list the head cut left
      behind, so `CutHead` and then `CutTail` describe what remains. */
  lemma CutBoth(seg: Segment)
    requires |seg.notes| > 0
    ensures Cut(seg, true, true) == Cut(Cut(seg, true, false).value, false, true)
  {
  }

  /** With some note ending inside the segment, the tail cut keeps exactly
      the notes up to the last such one; otherwise it keeps the first note. */
  lemma CutTail(seg: Segment)
    requires |seg.notes| > 0
    ensures var r := Cut(seg, false, true).value.notes;
      (exists i :: 0 <= i < |seg.notes| && End(seg.notes[i]) <= seg.length) ==>
        End(r[|r| - 1]) <= seg.length &&
        forall j :: |r| <= j < |seg.notes| ==> End(seg.notes[j]) > seg.length
    ensures (forall i :: 0 <= i < |seg.notes| ==> End(seg.notes[i]) > seg.length) ==>
      Cut(seg, false, true).value.notes == [seg.notes[0]]
  {
  }

  /** With some note starting at or after tick 0, the head cut keeps the
      suffix from the first such note; otherwise it keeps the last note. */
  lemma CutHead(seg: Segment)
    requires |seg.notes| > 0
    ensures var r := Cut(seg, true, false).value.notes;
      (exists i :: 0 <= i < |seg.notes| && seg.notes[i].start >= 0) ==>
        r[0].start >= 0 && forall j :: 0 <= j < |seg.notes| - |r| ==> seg.notes[j].start < 0
    ensures (forall i :: 0 <= i < |seg.notes| ==> seg.notes[i].start < 0) ==>
      Cut(seg, true, false).value.notes == [seg.notes[|seg.notes| - 1]]
  {
  }
}
