/** The byte layout the project reader accepts, written out record by
    record. A wire record holds every field the file stores, including the
    ones the reader discards; its layout function lists the bytes in file
    order, ending in an arbitrary `tail`. The lemmas state that the reader
    turns such bytes into the decoded record and stops exactly at `tail`. */
module ProjectLayout {
  import opened Wrappers
  import opened Bytes
  import opened Utf8
  import opened Primitive
  import opened Entities
  import opened ProjectReader

  predicate IsBlock(b: seq<Byte>) {
    |b| < TWO_31
  }

  /** A note record: start, length, stored pitch, 4 bytes, pinyin, hanzi,
      1 byte, two blocks, 2 bytes, 16 phoneme bytes, the five ornament
      values, the cross-fade string and the cross-fade value. */
  datatype NoteWire = NoteWire(
    start: int, length: int, rawPitch: int, gap: seq<Byte>,
    pinyin: Str, hanzi: Str,
    flag: seq<Byte>, blockA: seq<Byte>, blockB: seq<Byte>, gap2: seq<Byte>, phonemes: seq<Byte>,
    benlen: int, bendep: int, porhead: int, portail: int, timbre: int,
    cross: Str, crotim: int)

  /** Field widths: what the layout can encode at all. */
  predicate NoteShape(w: NoteWire) {
    IsInt32(w.start) && IsInt32(w.length) && IsInt32(w.rawPitch) && |w.gap| == 4
    && IsBlock(w.pinyin) && IsBlock(w.hanzi)
    && |w.flag| == 1 && IsBlock(w.blockA) && IsBlock(w.blockB) && |w.gap2| == 2 && |w.phonemes| == 16
    && IsInt32(w.benlen) && IsInt32(w.bendep) && IsInt32(w.porhead) && IsInt32(w.portail)
    && IsInt32(w.timbre) && IsBlock(w.cross) && IsInt32(w.crotim)
  }

  predicate NoteText(w: NoteWire) {
    ValidUtf8(w.pinyin) && ValidUtf8(w.hanzi) && ValidUtf8(w.cross)
  }

  predicate NoteOk(w: NoteWire) {
    NoteShape(w) && NoteText(w)
  }

  ghost function NoteHeadLayout(w: NoteWire, tail: seq<Byte>): seq<Byte>
    requires NoteShape(w)
  {
    WriteInt(w.start) + (WriteInt(w.length) + (WriteInt(w.rawPitch) + (w.gap
      + (WriteBytes(w.pinyin) + (WriteBytes(w.hanzi) + tail)))))
  }

  ghost function NoteMiddleLayout(w: NoteWire, tail: seq<Byte>): seq<Byte>
    requires NoteShape(w)
  {
    w.flag + (WriteBytes(w.blockA) + (WriteBytes(w.blockB) + (w.gap2 + (w.phonemes + tail))))
  }

  ghost function OrnamentLayout(w: NoteWire, tail: seq<Byte>): seq<Byte>
    requires NoteShape(w)
  {
    WriteInt(w.benlen) + (WriteInt(w.bendep) + (WriteInt(w.porhead) + (WriteInt(w.portail)
      + (WriteInt(w.timbre) + (WriteBytes(w.cross) + (WriteInt(w.crotim) + tail))))))
  }

  ghost function NoteLayout(w: NoteWire, tail: seq<Byte>): seq<Byte>
    requires NoteShape(w)
  {
    NoteHeadLayout(w, NoteMiddleLayout(w, OrnamentLayout(w, tail)))
  }

  /** The note a record stands for: the pitch is `115 - raw` wrapped to 32
      bits, and only the 0.0.2 reader keeps the ornament values. */
  function DecodeNote(w: NoteWire, rev: Revision): Note {
    var orn := if rev == Rev002 then Ornament(w.benlen, w.bendep, w.porhead, w.portail, w.timbre)
               else NoOrnament;
    Note(w.start, w.length, Wrap32(PITCH_BASE - w.rawPitch), w.pinyin, w.hanzi, orn)
  }

  lemma ReadNoteHeadLayout(w: NoteWire, tail: seq<Byte>)
    requires NoteOk(w)
    ensures ReadNoteHead(NoteHeadLayout(w, tail))
         == Some((DecodeNote(w, Rev001), tail))
  {
    var t5 := WriteBytes(w.hanzi) + tail;
    var t4 := WriteBytes(w.pinyin) + t5;
    var t3 := w.gap + t4;
    var t2 := WriteInt(w.rawPitch) + t3;
    var t1 := WriteInt(w.length) + t2;
    ReadIntWrite(w.start, t1);
    ReadIntWrite(w.length, t2);
    ReadIntWrite(w.rawPitch, t3);
    SkipOver(w.gap, t4);
    ReadStrStrictWrite(w.pinyin, t5);
    ReadStrStrictWrite(w.hanzi, tail);
    assert ReadNoteHead(NoteHeadLayout(w, tail)).value.0 == DecodeNote(w, Rev001);
  }

  lemma SkipNoteMiddleLayout(w: NoteWire, tail: seq<Byte>)
    requires NoteShape(w)
    ensures SkipNoteMiddle(NoteMiddleLayout(w, tail)) == Some(tail)
  {
    var t3 := w.phonemes + tail;
    var t2 := w.gap2 + t3;
    var t1 := WriteBytes(w.blockB) + t2;
    SkipOver(w.flag, WriteBytes(w.blockA) + t1);
    ReadBytesWrite(w.blockA, t1);
    ReadBytesWrite(w.blockB, t2);
    SkipOver(w.gap2, t3);
    SkipOver(w.phonemes, tail);
  }

  lemma ReadOrnamentLayout(w: NoteWire, tail: seq<Byte>)
    requires NoteOk(w)
    ensures ReadOrnament(OrnamentLayout(w, tail))
         == Some((Ornament(w.benlen, w.bendep, w.porhead, w.portail, w.timbre), tail))
  {
    var t6 := WriteInt(w.crotim) + tail;
    var t5 := WriteBytes(w.cross) + t6;
    var t4 := WriteInt(w.timbre) + t5;
    var t3 := WriteInt(w.portail) + t4;
    var t2 := WriteInt(w.porhead) + t3;
    var t1 := WriteInt(w.bendep) + t2;
    ReadIntWrite(w.benlen, t1);
    ReadIntWrite(w.bendep, t2);
    ReadIntWrite(w.porhead, t3);
    ReadIntWrite(w.portail, t4);
    ReadIntWrite(w.timbre, t5);
    ReadStrStrictWrite(w.cross, t6);
    ReadIntWrite(w.crotim, tail);
  }

  /** A note record reads as the note it stands for, and the read stops
      right after it. */
  lemma ReadNoteLayout(w: NoteWire, tail: seq<Byte>, rev: Revision)
    requires NoteOk(w)
    ensures ReadNote(NoteLayout(w, tail), rev) == Some((DecodeNote(w, rev), tail))
  {
    var t2 := OrnamentLayout(w, tail);
    var t1 := NoteMiddleLayout(w, t2);
    ReadNoteHeadLayout(w, t1);
    SkipNoteMiddleLayout(w, t2);
    ReadOrnamentLayout(w, tail);
    ReadNoteSteps(NoteLayout(w, tail), t1, t2, tail, w, rev);
  }

  lemma ReadNoteSteps(s: seq<Byte>, t1: seq<Byte>, t2: seq<Byte>, tail: seq<Byte>,
                      w: NoteWire, rev: Revision)
    requires ReadNoteHead(s) == Some((DecodeNote(w, Rev001), t1))
    requires SkipNoteMiddle(t1) == Some(t2)
    requires ReadOrnament(t2) == Some((Ornament(w.benlen, w.bendep, w.porhead, w.portail, w.timbre), tail))
    ensures ReadNote(s, rev) == Some((DecodeNote(w, rev), tail))
  {
    ReadNoteRecordSteps(s, t1, t2, tail, w);
    assert Keep(DecodeNote(w, Rev002), rev) == DecodeNote(w, rev);
  }

  lemma ReadNoteRecordSteps(s: seq<Byte>, t1: seq<Byte>, t2: seq<Byte>, tail: seq<Byte>, w: NoteWire)
    requires ReadNoteHead(s) == Some((DecodeNote(w, Rev001), t1))
    requires SkipNoteMiddle(t1) == Some(t2)
    requires ReadOrnament(t2) == Some((Ornament(w.benlen, w.bendep, w.porhead, w.portail, w.timbre), tail))
    ensures ReadNoteRecord(s) == Some((DecodeNote(w, Rev002), tail))
  {
    var orn := Ornament(w.benlen, w.bendep, w.porhead, w.portail, w.timbre);
    assert DecodeNote(w, Rev001).(ornament := orn) == DecodeNote(w, Rev002);
  }

  /** A lyric that is not UTF-8 aborts the note, and with it the read. */
  lemma InvalidLyricAborts(w: NoteWire, tail: seq<Byte>, rev: Revision)
    requires NoteShape(w) && (!ValidUtf8(w.pinyin) || !ValidUtf8(w.hanzi))
    ensures ReadNote(NoteLayout(w, tail), rev) == None
  {
    var t5 := WriteBytes(w.hanzi) + NoteMiddleLayout(w, OrnamentLayout(w, tail));
    var t4 := WriteBytes(w.pinyin) + t5;
    var t3 := w.gap + t4;
    var t2 := WriteInt(w.rawPitch) + t3;
    var t1 := WriteInt(w.length) + t2;
    ReadIntWrite(w.start, t1);
    ReadIntWrite(w.length, t2);
    ReadIntWrite(w.rawPitch, t3);
    SkipOver(w.gap, t4);
    ReadBytesWrite(w.pinyin, t5);
    ReadBytesWrite(w.hanzi, NoteMiddleLayout(w, OrnamentLayout(w, tail)));
  }

  predicate NotesOk(ws: seq<NoteWire>) {
    forall i :: 0 <= i < |ws| ==> NoteOk(ws[i])
  }

  ghost function NotesLayout(ws: seq<NoteWire>, tail: seq<Byte>): seq<Byte>
    requires NotesOk(ws)
    decreases |ws|
  {
    if |ws| == 0 then tail else NoteLayout(ws[0], NotesLayout(ws[1..], tail))
  }

  function DecodeNotes(ws: seq<NoteWire>, rev: Revision): (r: seq<Note>)
    ensures |r| == |ws|
    decreases |ws|
  {
    if |ws| == 0 then [] else [DecodeNote(ws[0], rev)] + DecodeNotes(ws[1..], rev)
  }

  lemma {:induction false} ReadNotesLayout(ws: seq<NoteWire>, tail: seq<Byte>, rev: Revision)
    requires NotesOk(ws)
    ensures ReadNotes(NotesLayout(ws, tail), |ws|, rev) == Some((DecodeNotes(ws, rev), tail))
    decreases |ws|
  {
    if |ws| > 0 {
      ReadNoteLayout(ws[0], NotesLayout(ws[1..], tail), rev);
      ReadNotesLayout(ws[1..], tail, rev);
      assert ReadNotes(NotesLayout(ws, tail), |ws|, rev).value.0 == DecodeNotes(ws, rev);
    }
  }

  predicate BlocksOk(bs: seq<seq<Byte>>) {
    forall i :: 0 <= i < |bs| ==> IsBlock(bs[i])
  }

  ghost function BlocksLayout(bs: seq<seq<Byte>>, tail: seq<Byte>): seq<Byte>
    requires BlocksOk(bs)
    decreases |bs|
  {
    if |bs| == 0 then tail else WriteBytes(bs[0]) + BlocksLayout(bs[1..], tail)
  }

  lemma {:induction false} SkipBlocksLayout(bs: seq<seq<Byte>>, tail: seq<Byte>)
    requires BlocksOk(bs)
    ensures SkipBlocks(BlocksLayout(bs, tail), |bs|) == Some(tail)
    decreases |bs|
  {
    if |bs| > 0 {
      ReadBytesWrite(bs[0], BlocksLayout(bs[1..], tail));
      SkipBlocksLayout(bs[1..], tail);
    }
  }

  /** A segment record: start, length, name, voice-bank name, 4 bytes, the
      note count and notes, then the seven trailing blocks. */
  datatype SegmentWire = SegmentWire(start: int, length: int, name: Str, vbname: Str,
                                     gap: seq<Byte>, notes: seq<NoteWire>, trailer: seq<seq<Byte>>)

  predicate SegmentOk(g: SegmentWire) {
    IsInt32(g.start) && IsInt32(g.length) && IsBlock(g.name) && IsBlock(g.vbname)
    && ValidUtf8(g.name) && ValidUtf8(g.vbname) && |g.gap| == 4
    && |g.notes| < TWO_31 && NotesOk(g.notes)
    && |g.trailer| == SEGMENT_TRAILER_BLOCKS && BlocksOk(g.trailer)
  }

  ghost function SegmentHeadLayout(g: SegmentWire, tail: seq<Byte>): seq<Byte>
    requires SegmentOk(g)
  {
    WriteInt(g.start) + (WriteInt(g.length) + (WriteBytes(g.name) + (WriteBytes(g.vbname)
      + (g.gap + tail))))
  }

  ghost function SegmentLayout(g: SegmentWire, tail: seq<Byte>): seq<Byte>
    requires SegmentOk(g)
  {
    SegmentHeadLayout(g, WriteInt(|g.notes|) + NotesLayout(g.notes, BlocksLayout(g.trailer, tail)))
  }

  function DecodeSegment(g: SegmentWire, rev: Revision): Segment {
    Segment(g.start, g.length, g.name, g.vbname, DecodeNotes(g.notes, rev))
  }

  lemma ReadSegmentHeadLayout(g: SegmentWire, tail: seq<Byte>)
    requires SegmentOk(g)
    ensures ReadSegmentHead(SegmentHeadLayout(g, tail))
         == Some((Segment(g.start, g.length, g.name, g.vbname, []), tail))
  {
    var t3 := g.gap + tail;
    var t2 := WriteBytes(g.vbname) + t3;
    var t1 := WriteBytes(g.name) + t2;
    ReadIntWrite(g.start, WriteInt(g.length) + t1);
    ReadIntWrite(g.length, t1);
    ReadStrStrictWrite(g.name, t2);
    ReadStrStrictWrite(g.vbname, t3);
    SkipOver(g.gap, tail);
    assert ReadSegmentHead(SegmentHeadLayout(g, tail)).value.0
        == Segment(g.start, g.length, g.name, g.vbname, []);
  }

  lemma ReadSegmentLayout(g: SegmentWire, tail: seq<Byte>, rev: Revision)
    requires SegmentOk(g)
    ensures ReadSegment(SegmentLayout(g, tail), rev) == Some((DecodeSegment(g, rev), tail))
  {
    var t2 := BlocksLayout(g.trailer, tail);
    var t1 := NotesLayout(g.notes, t2);
    ReadSegmentHeadLayout(g, WriteInt(|g.notes|) + t1);
    ReadIntWrite(|g.notes|, t1);
    ReadNotesLayout(g.notes, t2, rev);
    SkipBlocksLayout(g.trailer, tail);
    assert ReadSegment(SegmentLayout(g, tail), rev).value.0 == DecodeSegment(g, rev);
  }

  predicate SegmentsOk(gs: seq<SegmentWire>) {
    forall i :: 0 <= i < |gs| ==> SegmentOk(gs[i])
  }

  ghost function SegmentsLayout(gs: seq<SegmentWire>, tail: seq<Byte>): seq<Byte>
    requires SegmentsOk(gs)
    decreases |gs|
  {
    if |gs| == 0 then tail else SegmentLayout(gs[0], SegmentsLayout(gs[1..], tail))
  }

  function DecodeSegments(gs: seq<SegmentWire>, rev: Revision): (r: seq<Segment>)
    ensures |r| == |gs|
    decreases |gs|
  {
    if |gs| == 0 then [] else [DecodeSegment(gs[0], rev)] + DecodeSegments(gs[1..], rev)
  }

  lemma {:induction false} ReadSegmentsLayout(gs: seq<SegmentWire>, tail: seq<Byte>, rev: Revision)
    requires SegmentsOk(gs)
    ensures ReadSegments(SegmentsLayout(gs, tail), |gs|, rev) == Some((DecodeSegments(gs, rev), tail))
    decreases |gs|
  {
    if |gs| > 0 {
      ReadSegmentLayout(gs[0], SegmentsLayout(gs[1..], tail), rev);
      ReadSegmentsLayout(gs[1..], tail, rev);
      assert ReadSegments(SegmentsLayout(gs, tail), |gs|, rev).value.0 == DecodeSegments(gs, rev);
    }
  }

  /** A track entry: a synthesised track (type 0) with its name, 2 bytes,
      volume, balance, size and segments, or an entry of any other type,
      which the reader passes over. */
  datatype TrackWire =
    | SynthWire(name: Str, pad: seq<Byte>, volume: int, balance: seq<Byte>, size: seq<Byte>,
                segments: seq<SegmentWire>)
    | OtherWire(kind: int, first: seq<Byte>, pad2: seq<Byte>, x: int, y: int, last: seq<Byte>)

  predicate TrackOk(t: TrackWire) {
    match t
    case SynthWire(name, pad, volume, balance, size, segments) =>
      IsBlock(name) && ValidUtf8(name) && |pad| == 2 && IsInt32(volume)
      && |balance| == 4 && |size| == 4 && |segments| < TWO_31 && SegmentsOk(segments)
    case OtherWire(kind, first, pad2, x, y, last) =>
      IsInt32(kind) && kind != 0 && IsBlock(first) && |pad2| == 2
      && IsInt32(x) && IsInt32(y) && IsBlock(last)
  }

  ghost function TrackLayout(t: TrackWire, tail: seq<Byte>): seq<Byte>
    requires TrackOk(t)
  {
    match t
    case SynthWire(name, pad, volume, balance, size, segments) =>
      WriteInt(0) + (WriteBytes(name) + (pad + (WriteInt(volume) + (balance + (size
        + (WriteInt(|segments|) + SegmentsLayout(segments, tail)))))))
    case OtherWire(kind, first, pad2, x, y, last) =>
      WriteInt(kind) + (WriteBytes(first) + (pad2 + (WriteInt(x) + (WriteInt(y)
        + (WriteBytes(last) + tail)))))
  }

  /** The track an entry stands for, if any: mute and solo keep their
      default `false`. */
  function DecodeTrack(t: TrackWire, rev: Revision): Option<Track> {
    match t
    case SynthWire(name, _, volume, _, _, segments) =>
      Some(Track(name, DecodeSegments(segments, rev), volume, false, false))
    case OtherWire(_, _, _, _, _, _) => None
  }

  lemma ReadSynthLayout(t: TrackWire, tail: seq<Byte>, rev: Revision)
    requires t.SynthWire? && TrackOk(t)
    ensures ReadTrack(TrackLayout(t, tail), rev) == Some((DecodeTrack(t, rev), tail))
  {
    var t6 := SegmentsLayout(t.segments, tail);
    var t5 := WriteInt(|t.segments|) + t6;
    var t4 := t.size + t5;
    var t3 := t.balance + t4;
    var t2 := WriteInt(t.volume) + t3;
    var t1 := t.pad + t2;
    ReadIntWrite(0, WriteBytes(t.name) + t1);
    ReadStrStrictWrite(t.name, t1);
    SkipOver(t.pad, t2);
    ReadIntWrite(t.volume, t3);
    SkipOver(t.balance, t4);
    SkipOver(t.size, t5);
    ReadIntWrite(|t.segments|, t6);
    ReadSegmentsLayout(t.segments, tail, rev);
    assert ReadTrack(TrackLayout(t, tail), rev).value.0 == DecodeTrack(t, rev);
  }

  lemma ReadOtherLayout(t: TrackWire, tail: seq<Byte>, rev: Revision)
    requires t.OtherWire? && TrackOk(t)
    ensures ReadTrack(TrackLayout(t, tail), rev) == Some((None, tail))
  {
    var t4 := WriteBytes(t.last) + tail;
    var t3 := WriteInt(t.y) + t4;
    var t2 := WriteInt(t.x) + t3;
    var t1 := t.pad2 + t2;
    ReadIntWrite(t.kind, WriteBytes(t.first) + t1);
    ReadBytesWrite(t.first, t1);
    SkipOver(t.pad2, t2);
    ReadIntWrite(t.x, t3);
    ReadIntWrite(t.y, t4);
    ReadBytesWrite(t.last, tail);
  }

  /** A track entry reads as the track it stands for, or as no track when
      its type is not 0, and the read stops right after it. */
  lemma ReadTrackLayout(t: TrackWire, tail: seq<Byte>, rev: Revision)
    requires TrackOk(t)
    ensures ReadTrack(TrackLayout(t, tail), rev) == Some((DecodeTrack(t, rev), tail))
  {
    if t.SynthWire? {
      ReadSynthLayout(t, tail, rev);
    } else {
      ReadOtherLayout(t, tail, rev);
    }
  }

  predicate TracksOk(ts: seq<TrackWire>) {
    forall i :: 0 <= i < |ts| ==> TrackOk(ts[i])
  }

  ghost function TracksLayout(ts: seq<TrackWire>, tail: seq<Byte>): seq<Byte>
    requires TracksOk(ts)
    decreases |ts|
  {
    if |ts| == 0 then tail else TrackLayout(ts[0], TracksLayout(ts[1..], tail))
  }

  /** The tracks of the synthesised entries, in file order. */
  function DecodeTracks(ts: seq<TrackWire>, rev: Revision): (r: seq<Track>)
    ensures |r| <= |ts|
    decreases |ts|
  {
    if |ts| == 0 then []
    else
      var here := DecodeTrack(ts[0], rev);
      (if here.Some? then [here.value] else []) + DecodeTracks(ts[1..], rev)
  }

  lemma {:induction false} ReadTracksLayout(ts: seq<TrackWire>, tail: seq<Byte>, rev: Revision)
    requires TracksOk(ts)
    ensures ReadTracks(TracksLayout(ts, tail), |ts|, rev) == Some((DecodeTracks(ts, rev), tail))
    decreases |ts|
  {
    if |ts| > 0 {
      ReadTrackLayout(ts[0], TracksLayout(ts[1..], tail), rev);
      ReadTracksLayout(ts[1..], tail, rev);
      assert ReadTracks(TracksLayout(ts, tail), |ts|, rev).value.0 == DecodeTracks(ts, rev);
    }
  }

  predicate TempoOk(t: Tempo) {
    IsInt32(t.tick) && IsInt32(t.hundredths)
  }

  predicate TemposOk(ts: seq<Tempo>) {
    forall i :: 0 <= i < |ts| ==> TempoOk(ts[i])
  }

  ghost function TemposLayout(ts: seq<Tempo>, tail: seq<Byte>): seq<Byte>
    requires TemposOk(ts)
    decreases |ts|
  {
    if |ts| == 0 then tail
    else WriteInt(ts[0].tick) + (WriteInt(ts[0].hundredths) + TemposLayout(ts[1..], tail))
  }

  lemma {:induction false} ReadTemposLayout(ts: seq<Tempo>, tail: seq<Byte>)
    requires TemposOk(ts)
    ensures ReadTempos(TemposLayout(ts, tail), |ts|) == Some((ts, tail))
    decreases |ts|
  {
    if |ts| > 0 {
      var rest := TemposLayout(ts[1..], tail);
      ReadIntWrite(ts[0].tick, WriteInt(ts[0].hundredths) + rest);
      ReadIntWrite(ts[0].hundredths, rest);
      ReadTemposLayout(ts[1..], tail);
      assert [ts[0]] + ts[1..] == ts;
    }
  }

  predicate BeatOk(b: Beat) {
    IsInt32(b.bar) && IsInt32(b.perBar) && IsInt32(b.unit)
  }

  predicate BeatsOk(bs: seq<Beat>) {
    forall i :: 0 <= i < |bs| ==> BeatOk(bs[i])
  }

  ghost function BeatsLayout(bs: seq<Beat>, tail: seq<Byte>): seq<Byte>
    requires BeatsOk(bs)
    decreases |bs|
  {
    if |bs| == 0 then tail
    else
      WriteInt(bs[0].bar) + (WriteInt(bs[0].perBar) + (WriteInt(bs[0].unit)
        + BeatsLayout(bs[1..], tail)))
  }

  lemma {:induction false} ReadBeatsLayout(bs: seq<Beat>, tail: seq<Byte>)
    requires BeatsOk(bs)
    ensures ReadBeats(BeatsLayout(bs, tail), |bs|) == Some((bs, tail))
    decreases |bs|
  {
    if |bs| > 0 {
      var rest := BeatsLayout(bs[1..], tail);
      ReadIntWrite(bs[0].bar, WriteInt(bs[0].perBar) + (WriteInt(bs[0].unit) + rest));
      ReadIntWrite(bs[0].perBar, WriteInt(bs[0].unit) + rest);
      ReadIntWrite(bs[0].unit, rest);
      ReadBeatsLayout(bs[1..], tail);
      assert [bs[0]] + bs[1..] == bs;
    }
  }

  /** A whole project file: the 48-byte header, the counted tempo markers,
      4 bytes, the counted time-signature markers and the counted track
      entries. */
  datatype ProjectWire = ProjectWire(header: seq<Byte>, tempo: seq<Tempo>, gap: seq<Byte>,
                                     beats: seq<Beat>, tracks: seq<TrackWire>)

  predicate ProjectOk(p: ProjectWire) {
    |p.header| == HEADER_SIZE
    && |p.tempo| < TWO_31 && TemposOk(p.tempo)
    && |p.gap| == 4
    && |p.beats| < TWO_31 && BeatsOk(p.beats)
    && |p.tracks| < TWO_31 && TracksOk(p.tracks)
  }

  ghost function ProjectLayout(p: ProjectWire, tail: seq<Byte>): seq<Byte>
    requires ProjectOk(p)
  {
    p.header + (WriteInt(|p.tempo|) + TemposLayout(p.tempo, p.gap
      + (WriteInt(|p.beats|) + BeatsLayout(p.beats, WriteInt(|p.tracks|)
      + TracksLayout(p.tracks, tail)))))
  }

  function DecodeProject(p: ProjectWire, rev: Revision): Project {
    Project(p.tempo, p.beats, DecodeTracks(p.tracks, rev))
  }

  /** A project file reads as the project it stands for, whatever follows
      it: the tempo and time-signature markers as stored, and one track per
      synthesised entry. */
  lemma ParseLayout(p: ProjectWire, tail: seq<Byte>, rev: Revision)
    requires ProjectOk(p)
    ensures Parse(ProjectLayout(p, tail), rev) == Some(DecodeProject(p, rev))
  {
    var t4 := TracksLayout(p.tracks, tail);
    var t3 := WriteInt(|p.tracks|) + t4;
    var t2 := BeatsLayout(p.beats, t3);
    var t1 := p.gap + (WriteInt(|p.beats|) + t2);
    var t0 := TemposLayout(p.tempo, t1);
    SkipOver(p.header, WriteInt(|p.tempo|) + t0);
    ReadIntWrite(|p.tempo|, t0);
    ReadTemposLayout(p.tempo, t1);
    SkipOver(p.gap, WriteInt(|p.beats|) + t2);
    ReadIntWrite(|p.beats|, t2);
    ReadBeatsLayout(p.beats, t3);
    ReadIntWrite(|p.tracks|, t4);
    ReadTracksLayout(p.tracks, tail, rev);
  }
}
