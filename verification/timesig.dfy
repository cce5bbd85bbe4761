/** Conversion of a (bar, beat, tick) song position to project ticks
    (`Dvfile.pos2tick`), driven by the time-signature marker list. A whole
    note is 1920 ticks; a bar of `perBar` beats of a `1/unit` note spans
    `perBar * 1920 // unit` ticks. Division is Python's floor division. */
module TimeSignature {
  import opened Wrappers
  import opened Entities

  const WHOLE_NOTE: int := 1920

  /** Python's `a // b` on ints; dividing by zero raises. */
  function FloorDiv(a: int, b: int): (r: Option<int>)
    ensures r.Some? <==> b != 0
  {
    if b == 0 then None
    else if b > 0 then Some(a / b)
    else Some((-a) / (-b))
  }

  /** `FloorDiv` rounds towards minus infinity whatever the signs, as
      Python's `//` does (Dafny's own `/` rounds differently for a negative
      divisor). */
  lemma FloorDivIsFloor(a: int, b: int)
    requires b != 0
    ensures b > 0 ==> b * FloorDiv(a, b).value <= a < b * FloorDiv(a, b).value + b
    ensures b < 0 ==> b * FloorDiv(a, b).value + b < a <= b * FloorDiv(a, b).value
  {
  }

  function AddOpt(x: Option<int>, y: Option<int>): Option<int> {
    if x.Some? && y.Some? then Some(x.value + y.value) else None
  }

  /** Ticks from marker `a` to the bar of `b`, in `a`'s time signature. */
  function Span(a: Beat, b: Beat): Option<int> {
    FloorDiv((b.bar - a.bar) * a.perBar * WHOLE_NOTE, a.unit)
  }

  /** The first loop's sum over consecutive markers; it raises exactly
      when some marker before the last has a zero beat unit. */
  function SumSpans(ext: seq<Beat>): (r: Option<int>)
    ensures r.Some? <==> forall i :: 0 <= i < |ext| - 1 ==> ext[i].unit != 0
    decreases |ext|
  {
    if |ext| < 2 then Some(0)
    else AddOpt(Span(ext[0], ext[1]), SumSpans(ext[1..]))
  }

  /** Index of the first marker placed after bar `bar`. */
  function FirstAfter(beats: seq<Beat>, bar: int): (r: Option<nat>)
    ensures r.Some? ==> r.value < |beats| && beats[r.value].bar > bar
    ensures r.Some? ==> forall j :: 0 <= j < r.value ==> beats[j].bar <= bar
    ensures r.None? ==> forall j :: 0 <= j < |beats| ==> beats[j].bar <= bar
    decreases |beats|
  {
    if |beats| == 0 then None
    else if beats[0].bar > bar then Some(0)
    else match FirstAfter(beats[1..], bar)
      case None =>
        assert forall j :: 1 <= j < |beats| ==> beats[j] == beats[1..][j - 1];
        None
      case Some(i) =>
        assert forall j :: 1 <= j <= i + 1 ==> beats[j] == beats[1..][j - 1];
        Some(i + 1)
  }

  /** The markers that apply up to bar `bar`: the longest prefix of the
      list whose markers all lie at or before that bar. */
  function Kept(beats: seq<Beat>, bar: int): (r: seq<Beat>)
    ensures |r| <= |beats| && r == beats[..|r|]
    ensures forall j :: 0 <= j < |r| ==> r[j].bar <= bar
    ensures |r| < |beats| ==> beats[|r|].bar > bar
  {
    match FirstAfter(beats, bar)
    case Some(i) => beats[..i]
    case None => beats
  }

  /** The position in ticks, computed without touching the marker list. */
  function Pos2Tick(beats: seq<Beat>, bar: int, beat: int, tick: int): (r: Option<int>)
    ensures r.Some? ==> |beats| > 0 && beats[0].bar <= bar
    ensures r.Some? ==> Kept(beats, bar)[|Kept(beats, bar)| - 1].unit != 0
  {
    var kept := Kept(beats, bar);
    if |kept| == 0 then None
    else
      var last := kept[|kept| - 1];
      var t :- SumSpans(kept + [Beat(bar, last.perBar, last.unit)]);
      var b :- FloorDiv((beat - 1) * WHOLE_NOTE, last.unit);
      Some(t + b + tick)
  }

  /** What a call leaves behind: its result (`None` for a raised
      exception) and the marker list `self.beats` afterwards. */
  datatype Outcome = Outcome(value: Option<int>, beats: seq<Beat>)

  /** `pos2tick` as written: `beats += [...]` extends `self.beats` in place
      whenever no marker lies after `bar`, before the sums are computed. */
  function Pos2TickAsWritten(beats: seq<Beat>, bar: int, beat: int, tick: int): (r: Outcome)
    ensures r.value == Pos2Tick(beats, bar, beat, tick)
    ensures |beats| > 0 && FirstAfter(beats, bar).None? ==>
      r.beats == beats + [Beat(bar, beats[|beats| - 1].perBar, beats[|beats| - 1].unit)]
    ensures |beats| == 0 || FirstAfter(beats, bar).Some? ==> r.beats == beats
  {
    var kept := Kept(beats, bar);
    if |kept| == 0 then Outcome(None, beats)
    else
      var last := kept[|kept| - 1];
      var ext := kept + [Beat(bar, last.perBar, last.unit)];
      Outcome(Pos2Tick(beats, bar, beat, tick), if FirstAfter(beats, bar).None? then ext else beats)
  }

  /** The position is linear in the tick offset within the beat. */
  lemma Pos2TickAddsTick(beats: seq<Beat>, bar: int, beat: int, tick: int)
    ensures Pos2Tick(beats, bar, beat, tick).Some? <==> Pos2Tick(beats, bar, beat, 0).Some?
    ensures Pos2Tick(beats, bar, beat, tick).Some? ==>
      Pos2Tick(beats, bar, beat, tick).value == Pos2Tick(beats, bar, beat, 0).value + tick
  {
  }

  /** A bar before the first marker has no applicable marker: `beats[-1]`
      of an empty list raises. */
  lemma Pos2TickBeforeFirstMarker(beats: seq<Beat>, bar: int, beat: int, tick: int)
    requires |beats| == 0 || bar < beats[0].bar
    ensures Pos2Tick(beats, bar, beat, tick) == None
  {
  }

  /** With the default marker list, bar 1 starts four 4/4 bars after bar
      -3, at tick 7680; the call leaves a marker for bar 1 behind. */
  lemma Pos2TickDefault()
    ensures Pos2TickAsWritten([Beat(-3, 4, 4)], 1, 1, 0)
         == Outcome(Some(7680), [Beat(-3, 4, 4), Beat(1, 4, 4)])
  {
    assert FirstAfter([Beat(-3, 4, 4)], 1) == None;
    assert SumSpans([Beat(-3, 4, 4), Beat(1, 4, 4)]) == Some(7680);
  }

  /** The answer depends on the calls made before: on a fresh list with a
      beat unit that does not divide 1920, the first query for bar 1
      answers 1097, but if a query for bar -1 came first it has appended a
      marker at bar -1, and two rounded sub-spans add up to less than the
      rounded whole span, so the same query answers 1096. */
  lemma Pos2TickDependsOnHistory()
    ensures Pos2Tick([Beat(-3, 1, 7)], 1, 1, 0) == Some(1097)
    ensures Pos2TickAsWritten([Beat(-3, 1, 7)], -1, 1, 0).beats == [Beat(-3, 1, 7), Beat(-1, 1, 7)]
    ensures Pos2Tick([Beat(-3, 1, 7), Beat(-1, 1, 7)], 1, 1, 0) == Some(1096)
  {
    assert FirstAfter([Beat(-3, 1, 7)], 1) == None;
    assert FirstAfter([Beat(-3, 1, 7)], -1) == None;
    assert FirstAfter([Beat(-3, 1, 7), Beat(-1, 1, 7)], 1) == None;
    assert SumSpans([Beat(-3, 1, 7), Beat(1, 1, 7)]) == Some(1097);
    var two := [Beat(-3, 1, 7), Beat(-1, 1, 7)];
    var ext := two + [Beat(1, 1, 7)];
    assert Kept(two, 1) == two;
    assert ext[1..] == [Beat(-1, 1, 7), Beat(1, 1, 7)];
    assert Span(ext[0], ext[1]) == Some(548);
    assert SumSpans(ext[1..]) == Some(548);
    assert SumSpans(ext) == Some(1096);
  }

  /** Repeating a query on the list its first call left behind gives the
      same answer: the marker it appended lies at the query's own bar and
      adds a span of length zero. */
  lemma RepeatedQueryIsStable(beats: seq<Beat>, bar: int, beat: int, tick: int)
    ensures Pos2Tick(Pos2TickAsWritten(beats, bar, beat, tick).beats, bar, beat, tick)
         == Pos2Tick(beats, bar, beat, tick)
  {
    if |beats| > 0 && FirstAfter(beats, bar).None? {
      var last := beats[|beats| - 1];
      var m := Beat(bar, last.perBar, last.unit);
      FirstAfterExtend(beats, m, bar);
      assert (beats + [m])[|beats|] == m;
      SumSpansSnoc(beats + [m], m);
      SumSpansSnoc(beats, m);
    }
  }

  predicate DocumentedUnit(u: int) {
    u == 1 || u == 2 || u == 4 || u == 8 || u == 16 || u == 32
  }

  predicate DocumentedUnits(beats: seq<Beat>) {
    forall i :: 0 <= i < |beats| ==> DocumentedUnit(beats[i].unit)
  }

  /** For a beat unit dividing a whole note, a span split at any bar adds
      up exactly. */
  lemma SpanSplits(a: Beat, y: int, z: int)
    requires DocumentedUnit(a.unit)
    ensures AddOpt(Span(a, Beat(y, a.perBar, a.unit)), Span(Beat(y, a.perBar, a.unit), Beat(z, a.perBar, a.unit)))
         == Span(a, Beat(z, a.perBar, a.unit))
  {
    var k1 := (y - a.bar) * a.perBar;
    var k2 := (z - y) * a.perBar;
    assert k1 + k2 == (z - a.bar) * a.perBar;
    ExactWholeNoteDiv(k1, a.unit);
    ExactWholeNoteDiv(k2, a.unit);
    ExactWholeNoteDiv(k1 + k2, a.unit);
  }

  /** Under a single marker with a documented beat unit, the position is
      the whole bars, then the whole beats, counted from that marker, each
      beat `1920 / unit` ticks, plus the tick offset. */
  lemma Pos2TickOneMarker(m: Beat, bar: int, beat: int, tick: int)
    requires DocumentedUnit(m.unit) && m.bar <= bar
    ensures Pos2Tick([m], bar, beat, tick)
         == Some(((bar - m.bar) * m.perBar + beat - 1) * (WHOLE_NOTE / m.unit) + tick)
  {
    assert Kept([m], bar) == [m];
    var m2 := Beat(bar, m.perBar, m.unit);
    assert SumSpans([m, m2]) == Span(m, m2);
    var k1 := (bar - m.bar) * m.perBar;
    var k2 := beat - 1;
    ExactWholeNoteDiv(k1, m.unit);
    ExactWholeNoteDiv(k2, m.unit);
    var q := WHOLE_NOTE / m.unit;
    assert k1 * q + k2 * q == (k1 + k2) * q;
  }

  /** Once every marker lies at or before `bar`, moving the query `d` bars
      later adds `d` bars of the last marker's signature. */
  lemma Pos2TickBarStep(beats: seq<Beat>, bar: int, d: nat, beat: int, tick: int)
    requires DocumentedUnits(beats)
    requires |beats| > 0 && beats[0].bar <= bar && FirstAfter(beats, bar).None?
    ensures var l := beats[|beats| - 1];
      Pos2Tick(beats, bar, beat, tick).Some? && Pos2Tick(beats, bar + d, beat, tick).Some? &&
      Pos2Tick(beats, bar + d, beat, tick).value
        == Pos2Tick(beats, bar, beat, tick).value + d * l.perBar * (WHOLE_NOTE / l.unit)
  {
    var l := beats[|beats| - 1];
    var bar2 := bar + d;
    assert FirstAfter(beats, bar2).None?;
    var m := Beat(bar, l.perBar, l.unit);
    var m2 := Beat(bar2, l.perBar, l.unit);
    assert DocumentedUnit(l.unit);
    assert SumSpans(beats + [m]).Some?;
    AppendedMarkerSplitsSpan(beats, bar, bar2);
    var after := beats + [m];
    assert after[|after| - 1] == m;
    SumSpansSnoc(after, m2);
    ExactWholeNoteDiv(d * l.perBar, l.unit);
    assert (bar2 - bar) * l.perBar * WHOLE_NOTE == (d * l.perBar) * WHOLE_NOTE;
  }

  lemma ExactWholeNoteDiv(k: int, u: int)
    requires DocumentedUnit(u)
    ensures (k * WHOLE_NOTE) / u == k * (WHOLE_NOTE / u)
  {
    var q := WHOLE_NOTE / u;
    assert q * u == WHOLE_NOTE;
    assert k * WHOLE_NOTE == (k * q) * u;
  }

  lemma {:induction false} SumSpansSnoc(xs: seq<Beat>, b: Beat)
    requires |xs| > 0
    ensures SumSpans(xs + [b]) == AddOpt(SumSpans(xs), Span(xs[|xs| - 1], b))
    decreases |xs|
  {
    if |xs| > 1 {
      assert (xs + [b])[1..] == xs[1..] + [b];
      SumSpansSnoc(xs[1..], b);
    } else {
      assert xs + [b] == [xs[0], b];
    }
  }

  /** For beat units that divide a whole note, the marker a call leaves
      behind never changes the answer of a later call. */
  lemma AppendedMarkerIsHarmless(beats: seq<Beat>, bar: int, beat: int, tick: int,
                                 bar2: int, beat2: int, tick2: int)
    requires DocumentedUnits(beats)
    ensures Pos2Tick(Pos2TickAsWritten(beats, bar, beat, tick).beats, bar2, beat2, tick2)
         == Pos2Tick(beats, bar2, beat2, tick2)
  {
    if |beats| > 0 && FirstAfter(beats, bar).None? {
      var last := beats[|beats| - 1];
      var m := Beat(bar, last.perBar, last.unit);
      assert Pos2TickAsWritten(beats, bar, beat, tick).beats == beats + [m];
      if FirstAfter(beats, bar2).None? && bar <= bar2 {
        AppendedMarkerAtOrBefore(beats, bar, bar2, beat2, tick2);
      } else {
        AppendedMarkerAfter(beats, m, bar2);
        SameKeptSameTick(beats + [m], beats, bar2, beat2, tick2);
      }
    }
  }

  lemma SameKeptSameTick(a: seq<Beat>, b: seq<Beat>, bar: int, beat: int, tick: int)
    requires Kept(a, bar) == Kept(b, bar)
    ensures Pos2Tick(a, bar, beat, tick) == Pos2Tick(b, bar, beat, tick)
  {
  }

  /** A marker appended after the later query's bar, or behind a marker
      already after it, is not among the markers that query keeps. */
  lemma AppendedMarkerAfter(beats: seq<Beat>, m: Beat, bar2: int)
    requires FirstAfter(beats, bar2).Some? || m.bar > bar2
    ensures Kept(beats + [m], bar2) == Kept(beats, bar2)
  {
    FirstAfterExtend(beats, m, bar2);
    if FirstAfter(beats, bar2).Some? {
      var i := FirstAfter(beats, bar2).value;
      assert (beats + [m])[..i] == beats[..i];
    } else {
      assert (beats + [m])[..|beats|] == beats;
    }
  }

  lemma AppendedMarkerAtOrBefore(beats: seq<Beat>, bar: int, bar2: int, beat2: int, tick2: int)
    requires DocumentedUnits(beats)
    requires |beats| > 0 && FirstAfter(beats, bar2).None? && bar <= bar2
    ensures var last := beats[|beats| - 1];
      Pos2Tick(beats + [Beat(bar, last.perBar, last.unit)], bar2, beat2, tick2)
      == Pos2Tick(beats, bar2, beat2, tick2)
  {
    var last := beats[|beats| - 1];
    var m := Beat(bar, last.perBar, last.unit);
    FirstAfterExtend(beats, m, bar2);
    assert (beats + [m])[|beats|] == m;
    AppendedMarkerSplitsSpan(beats, bar, bar2);
    SameSumSameTick(beats + [m], beats, bar2, beat2, tick2);
  }

  /** Two marker lists that both apply in full to `bar`, end in the same
      time signature and sum to the same span reach the same tick. */
  lemma SameSumSameTick(a: seq<Beat>, b: seq<Beat>, bar: int, beat: int, tick: int)
    requires |a| > 0 && |b| > 0
    requires FirstAfter(a, bar).None? && FirstAfter(b, bar).None?
    requires a[|a| - 1].perBar == b[|b| - 1].perBar && a[|a| - 1].unit == b[|b| - 1].unit
    requires var l := a[|a| - 1];
      SumSpans(a + [Beat(bar, l.perBar, l.unit)]) == SumSpans(b + [Beat(bar, l.perBar, l.unit)])
    ensures Pos2Tick(a, bar, beat, tick) == Pos2Tick(b, bar, beat, tick)
  {
  }

  /** The case where the later query lies at or after the appended marker:
      its last span is split in two at the marker's bar. */
  lemma AppendedMarkerSplitsSpan(beats: seq<Beat>, bar: int, bar2: int)
    requires DocumentedUnits(beats)
    requires |beats| > 0 && bar <= bar2
    ensures var last := beats[|beats| - 1];
      var m := Beat(bar, last.perBar, last.unit);
      var m2 := Beat(bar2, last.perBar, last.unit);
      SumSpans(beats + [m] + [m2]) == SumSpans(beats + [m2])
  {
    var last := beats[|beats| - 1];
    var m := Beat(bar, last.perBar, last.unit);
    var m2 := Beat(bar2, last.perBar, last.unit);
    var after := beats + [m];
    assert after[|after| - 1] == m;
    SumSpansSnoc(after, m2);
    SumSpansSnoc(beats, m);
    SumSpansSnoc(beats, m2);
    SpanSplits(last, bar, bar2);
    AddOptAssociative(SumSpans(beats), Span(last, m), Span(m, m2));
  }

  lemma AddOptAssociative(x: Option<int>, y: Option<int>, z: Option<int>)
    ensures AddOpt(AddOpt(x, y), z) == AddOpt(x, AddOpt(y, z))
  {
  }

  lemma FirstAfterExtend(beats: seq<Beat>, m: Beat, bar2: int)
    ensures FirstAfter(beats, bar2).Some? ==> FirstAfter(beats + [m], bar2) == FirstAfter(beats, bar2)
    ensures FirstAfter(beats, bar2).None? && m.bar > bar2 ==> FirstAfter(beats + [m], bar2) == Some(|beats|)
    ensures FirstAfter(beats, bar2).None? && m.bar <= bar2 ==> FirstAfter(beats + [m], bar2) == None
  {
    var r := FirstAfter(beats + [m], bar2);
    assert forall j :: 0 <= j < |beats| ==> (beats + [m])[j] == beats[j];
    assert (beats + [m])[|beats|] == m;
    if FirstAfter(beats, bar2).Some? {
      var i := FirstAfter(beats, bar2).value;
      if r.None? || r.value != i {
        assert false;
      }
    } else if m.bar > bar2 {
      if r.None? || r.value != |beats| {
        assert false;
      }
    }
  }
}
