/** Lowering of segments, tracks and projects to UST note lists
    (`to_ust_file`). Only the `(length, lyric, notenum)` records the source
    appends to `Ustfile.note` are modelled, plus the tempo property the
    project-level conversion sets. A gap before a note becomes a rest
    record with lyric "R" and note number 60. */
module UstLowering {
  import opened Wrappers
  import opened Entities
  import opened SegmentAlgebra

  datatype UstNote = UstNote(length: int, lyric: Str, notenum: int)

  /** The lyric "R" of a rest. */
  const REST: Str := [0x52]
  const REST_NOTENUM: int := 60

  function SumLengths(us: seq<UstNote>): int
    decreases |us|
  {
    if |us| == 0 then 0 else us[0].length + SumLengths(us[1..])
  }

  lemma {:induction false} SumLengthsAppend(xs: seq<UstNote>, ys: seq<UstNote>)
    ensures SumLengths(xs + ys) == SumLengths(xs) + SumLengths(ys)
    decreases |xs|
  {
    if |xs| > 0 {
      assert (xs + ys)[1..] == xs[1..] + ys;
      SumLengthsAppend(xs[1..], ys);
    } else {
      assert xs + ys == ys;
    }
  }

  /** The loop of `to_ust_file` from the point where the previous note ended
      at `time`. The lengths of the records telescope: whatever the notes,
      they add up to the distance from `time` to the end of the last note. */
  function LowerFrom(notes: seq<Note>, time: int, useHanzi: bool): (r: seq<UstNote>)
    ensures |notes| <= |r| <= 2 * |notes|
    ensures |notes| > 0 ==> SumLengths(r) == End(notes[|notes| - 1]) - time
    decreases |notes|
  {
    if |notes| == 0 then []
    else
      var n := notes[0];
      var gap := if n.start != time then [UstNote(n.start - time, REST, REST_NOTENUM)] else [];
      var own := [UstNote(n.length, Lyric(n, useHanzi), n.notenum)];
      var rest := LowerFrom(notes[1..], End(n), useHanzi);
      SumLengthsAppend(gap + own, rest);
      SumLengthsAppend(gap, own);
      assert |notes| > 1 ==> notes[1..][|notes[1..]| - 1] == notes[|notes| - 1];
      gap + own + rest
  }

  /** `Dvsegment.to_ust_file(use_hanzi)`. */
  function SegmentToUst(seg: Segment, useHanzi: bool): (r: seq<UstNote>)
    ensures |seg.notes| > 0 ==> SumLengths(r) == End(seg.notes[|seg.notes| - 1])
    ensures |seg.notes| == 0 ==> r == []
  {
    LowerFrom(seg.notes, 0, useHanzi)
  }

  /** A note as placed on the timeline by a UST reader. */
  datatype Placed = Placed(start: int, length: int, lyric: Str, notenum: int)

  function Place(notes: seq<Note>, useHanzi: bool): (r: seq<Placed>)
    ensures |r| == |notes|
    decreases |notes|
  {
    if |notes| == 0 then []
    else [Placed(notes[0].start, notes[0].length, Lyric(notes[0], useHanzi), notes[0].notenum)]
         + Place(notes[1..], useHanzi)
  }

  /** Reads a UST record list back onto a timeline starting at `time`:
      rests advance the clock, every other record is a note at the clock. */
  function Recover(us: seq<UstNote>, time: int): seq<Placed>
    decreases |us|
  {
    if |us| == 0 then []
    else if us[0].lyric == REST then Recover(us[1..], time + us[0].length)
    else [Placed(time, us[0].length, us[0].lyric, us[0].notenum)] + Recover(us[1..], time + us[0].length)
  }

  predicate NoRestLyric(notes: seq<Note>, useHanzi: bool) {
    forall i :: 0 <= i < |notes| ==> Lyric(notes[i], useHanzi) != REST
  }

  lemma NoRestLyricTail(notes: seq<Note>, useHanzi: bool)
    requires |notes| > 0 && NoRestLyric(notes, useHanzi)
    ensures Lyric(notes[0], useHanzi) != REST && NoRestLyric(notes[1..], useHanzi)
  {
    forall i | 0 <= i < |notes[1..]| ensures Lyric(notes[1..][i], useHanzi) != REST {
      assert notes[1..][i] == notes[i + 1];
    }
  }

  /** The lowering loses nothing: each note yields exactly one record with
      its own length, lyric and note number, and the rests put it back at
      its start tick. (A note whose lyric is itself "R" would read as a
      rest, hence the precondition.) */
  lemma {:induction false} RecoverLowerFrom(notes: seq<Note>, time: int, useHanzi: bool)
    requires NoRestLyric(notes, useHanzi)
    ensures Recover(LowerFrom(notes, time, useHanzi), time) == Place(notes, useHanzi)
    decreases |notes|
  {
    if |notes| > 0 {
      var n := notes[0];
      var own := UstNote(n.length, Lyric(n, useHanzi), n.notenum);
      var rest := LowerFrom(notes[1..], End(n), useHanzi);
      var placed := Placed(n.start, n.length, Lyric(n, useHanzi), n.notenum);
      NoRestLyricTail(notes, useHanzi);
      calc {
        Recover([own] + rest, n.start);
        { RecoverNote(own, rest, n.start); }
        [placed] + Recover(rest, End(n));
        { RecoverLowerFrom(notes[1..], End(n), useHanzi); }
        [placed] + Place(notes[1..], useHanzi);
        Place(notes, useHanzi);
      }
      if n.start != time {
        var rs := UstNote(n.start - time, REST, REST_NOTENUM);
        assert LowerFrom(notes, time, useHanzi) == [rs] + ([own] + rest);
        RecoverRest(rs, [own] + rest, time);
      } else {
        assert LowerFrom(notes, time, useHanzi) == [own] + rest;
      }
    }
  }

  lemma RecoverRest(u: UstNote, us: seq<UstNote>, time: int)
    requires u.lyric == REST
    ensures Recover([u] + us, time) == Recover(us, time + u.length)
  {
    assert ([u] + us)[1..] == us;
  }

  lemma RecoverNote(u: UstNote, us: seq<UstNote>, time: int)
    requires u.lyric != REST
    ensures Recover([u] + us, time) == [Placed(time, u.length, u.lyric, u.notenum)] + Recover(us, time + u.length)
  {
    assert ([u] + us)[1..] == us;
  }

  /** Notes in order, none overlapping the previous one and none starting
      before `time`. */
  predicate Ordered(notes: seq<Note>, time: int)
    decreases |notes|
  {
    |notes| == 0 || (notes[0].start >= time && Ordered(notes[1..], End(notes[0])))
  }

  /** For ordered notes every inserted rest has a positive length. */
  lemma {:induction false} RestsArePositive(notes: seq<Note>, time: int, useHanzi: bool)
    requires Ordered(notes, time) && NoRestLyric(notes, useHanzi)
    ensures forall i :: (0 <= i < |LowerFrom(notes, time, useHanzi)| &&
      LowerFrom(notes, time, useHanzi)[i].lyric == REST) ==> LowerFrom(notes, time, useHanzi)[i].length > 0
    decreases |notes|
  {
    if |notes| > 0 {
      var n := notes[0];
      var own := UstNote(n.length, Lyric(n, useHanzi), n.notenum);
      var rest := LowerFrom(notes[1..], End(n), useHanzi);
      NoRestLyricTail(notes, useHanzi);
      RestsArePositive(notes[1..], End(n), useHanzi);
      var gap := if n.start != time then [UstNote(n.start - time, REST, REST_NOTENUM)] else [];
      var r := LowerFrom(notes, time, useHanzi);
      assert r == gap + [own] + rest;
      forall i | 0 <= i < |r| && r[i].lyric == REST ensures r[i].length > 0 {
        if i >= |gap| + 1 {
          assert r[i] == rest[i - |gap| - 1];
        }
      }
    }
  }

  /** `Dvtrack.to_ust_file(use_hanzi)`: the track is flattened with `sum`
      and lowered, but `use_hanzi` is not passed on, so the lyrics are
      always pinyin and the notes sit at their absolute ticks. */
  function TrackToUst(track: Track, useHanzi: bool): (r: seq<UstNote>)
    ensures r == LowerFrom(Absolute(track.segments), 0, false)
  {
    SegmentToUst(Flatten(track.segments), false)
  }

  lemma TrackToUstIgnoresHanzi(track: Track)
    requires NoRestLyric(Absolute(track.segments), false)
    ensures TrackToUst(track, true) == TrackToUst(track, false)
    ensures Recover(TrackToUst(track, true), 0) == Place(Absolute(track.segments), false)
  {
    RecoverLowerFrom(Absolute(track.segments), 0, false);
  }

  /** One UST per track; `tempo` is the first tempo marker's value. */
  datatype UstFile = UstFile(tempoHundredths: int, notes: seq<UstNote>)

  /** `Dvfile.to_ust_file`: fails when there is a track but no tempo
      marker to read the tempo from. */
  function ProjectToUst(p: Project): (r: Option<seq<UstFile>>)
    ensures r.None? <==> |p.tracks| > 0 && |p.tempo| == 0
    ensures r.Some? ==> |r.value| == |p.tracks|
    ensures r.Some? ==> forall i :: 0 <= i < |p.tracks| ==>
      r.value[i].tempoHundredths == p.tempo[0].hundredths &&
      r.value[i].notes == LowerFrom(Absolute(p.tracks[i].segments), 0, false)
  {
    if |p.tracks| == 0 then Some([])
    else if |p.tempo| == 0 then None
    else Some(seq(|p.tracks|, i requires 0 <= i < |p.tracks| =>
                    UstFile(p.tempo[0].hundredths, TrackToUst(p.tracks[i], false))))
  }
}
