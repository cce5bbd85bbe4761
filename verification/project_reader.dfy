/** The DV project reader (`opendv`): a strictly forward pass over a
    little-endian, length-prefixed layout. After a 48-byte header come the
    tempo markers, the time-signature markers and the tracks; a synthesised
    track holds segments, a segment holds notes. Revision 0.0.2 keeps each
    note's bend, portamento and timbre values; revision 0.0.1 reads the
    same bytes and drops them. Every string field must be UTF-8, or the
    whole read fails. */
module ProjectReader {
  import opened Wrappers
  import opened Bytes
  import opened Utf8
  import opened Primitive
  import opened Entities

  datatype Revision = Rev001 | Rev002

  const HEADER_SIZE: nat := 48
  /** A stored pitch `raw` is the MIDI note number `115 - raw`, computed in
      numpy `int32` arithmetic. */
  const PITCH_BASE: int := 115
  /** Length-prefixed blocks that follow a segment's note list. */
  const SEGMENT_TRAILER_BLOCKS: nat := 7

  /** The number of passes of `for i in range(0, c)`. */
  function Iterations(c: int): (n: nat)
    ensures c <= 0 ==> n == 0
    ensures c > 0 ==> n == c
  {
    if c < 0 then 0 else c
  }

  /** A note's start, length, pitch and two lyrics; its ornament is filled
      in by `ReadNote`. */
  function ReadNoteHead(s: seq<Byte>): (r: Option<(Note, seq<Byte>)>)
    ensures r.Some? ==> |s| >= 12
    ensures r.Some? ==> var n := r.value.0;
      n.start == DecodeInt32(s[..4]) && n.length == DecodeInt32(s[4..8])
      && n.notenum == Wrap32(PITCH_BASE - DecodeInt32(s[8..12]))
      && ValidUtf8(n.pinyin) && ValidUtf8(n.hanzi) && n.ornament == NoOrnament
    ensures r.Some? ==> |r.value.1| < |s|
  {
    var start :- ReadInt(s);
    var length :- ReadInt(start.1);
    var raw :- ReadInt(length.1);
    var s1 :- Skip(raw.1, 4);
    var pinyin :- ReadStrStrict(s1);
    var hanzi :- ReadStrStrict(pinyin.1);
    assert s[4..][..4] == s[4..8] && s[8..][..4] == s[8..12];
    Some((Note(start.0, length.0, Wrap32(PITCH_BASE - raw.0), pinyin.0, hanzi.0, NoOrnament), hanzi.1))
  }

  /** The bytes between a note's lyrics and its ornament values, all
      discarded: one byte, two blocks, two bytes and 16 phoneme bytes. */
  function SkipNoteMiddle(s: seq<Byte>): (r: Option<seq<Byte>>)
    ensures r.Some? ==> |r.value| + 27 <= |s|
  {
    var s1 :- Skip(s, 1);
    var a :- ReadBytes(s1);
    var b :- ReadBytes(a.1);
    var s2 :- Skip(b.1, 2);
    Skip(s2, 16)
  }

  /** Bend length, bend depth, head and tail portamento, timbre, then the
      cross-fade string and value, which are read and discarded. */
  function ReadOrnament(s: seq<Byte>): (r: Option<(Ornament, seq<Byte>)>)
    ensures r.Some? ==> |s| >= 28 && r.value.0.Ornament?
    ensures r.Some? ==> var o := r.value.0;
      o.benlen == DecodeInt32(s[..4]) && o.bendep == DecodeInt32(s[4..8])
      && o.porhead == DecodeInt32(s[8..12]) && o.portail == DecodeInt32(s[12..16])
      && o.timbre == DecodeInt32(s[16..20])
    ensures r.Some? ==> |r.value.1| + 28 <= |s|
  {
    var benlen :- ReadInt(s);
    var bendep :- ReadInt(benlen.1);
    var porhead :- ReadInt(bendep.1);
    var portail :- ReadInt(porhead.1);
    var timbre :- ReadInt(portail.1);
    var cross :- ReadStrStrict(timbre.1);
    var crotim :- ReadInt(cross.1);
    assert s[4..][..4] == s[4..8] && s[8..][..4] == s[8..12];
    assert s[12..][..4] == s[12..16] && s[16..][..4] == s[16..20];
    Some((Ornament(benlen.0, bendep.0, porhead.0, portail.0, timbre.0), crotim.1))
  }

  /** One note record with every value the 0.0.2 reader keeps. */
  function ReadNoteRecord(s: seq<Byte>): (r: Option<(Note, seq<Byte>)>)
    ensures r.Some? ==> |s| >= 12
    ensures r.Some? ==> var n := r.value.0;
      n.start == DecodeInt32(s[..4]) && n.length == DecodeInt32(s[4..8])
      && n.notenum == Wrap32(PITCH_BASE - DecodeInt32(s[8..12]))
      && ValidUtf8(n.pinyin) && ValidUtf8(n.hanzi) && n.ornament.Ornament?
    ensures r.Some? ==> |r.value.1| < |s|
  {
    var head :- ReadNoteHead(s);
    var s1 :- SkipNoteMiddle(head.1);
    var orn :- ReadOrnament(s1);
    Some((head.0.(ornament := orn.0), orn.1))
  }

  /** The pitch arithmetic wraps: a stored -2^31 gives a large negative
      note number rather than 2^31 + 115, while any stored value from
      116 - 2^31 up gives plain `115 - raw`. */
  lemma PitchWraps(raw: int)
    requires IsInt32(raw)
    ensures DecodeInt32([0, 0, 0, 0x80]) == -TWO_31
    ensures Wrap32(PITCH_BASE - DecodeInt32([0, 0, 0, 0x80])) == -2147483533
    ensures raw > PITCH_BASE - TWO_31 ==> Wrap32(PITCH_BASE - raw) == PITCH_BASE - raw
  {
  }

  /** What a revision keeps of a note record: 0.0.1 builds its notes
      without the ornament values. */
  function Keep(n: Note, rev: Revision): (r: Note)
    ensures r.ornament.Ornament? <==> rev == Rev002 && n.ornament.Ornament?
  {
    if rev == Rev002 then n else n.(ornament := NoOrnament)
  }

  /** One note record as a revision reads it. Both revisions consume the
      same bytes. */
  function ReadNote(s: seq<Byte>, rev: Revision): (r: Option<(Note, seq<Byte>)>)
    ensures r.Some? ==> |s| >= 12
    ensures r.Some? ==> var n := r.value.0;
      n.start == DecodeInt32(s[..4]) && n.length == DecodeInt32(s[4..8])
      && n.notenum == Wrap32(PITCH_BASE - DecodeInt32(s[8..12]))
      && ValidUtf8(n.pinyin) && ValidUtf8(n.hanzi)
    ensures r.Some? ==> (r.value.0.ornament.Ornament? <==> rev == Rev002)
    ensures r.Some? ==> |r.value.1| < |s|
  {
    var n :- ReadNoteRecord(s);
    Some((Keep(n.0, rev), n.1))
  }

  predicate PlainNotes(notes: seq<Note>) {
    forall i :: 0 <= i < |notes| ==> notes[i].ornament == NoOrnament
  }

  /** The inner loop: `n` note records in a row. */
  function ReadNotes(s: seq<Byte>, n: int, rev: Revision): (r: Option<(seq<Note>, seq<Byte>)>)
    ensures r.Some? ==> |r.value.0| == Iterations(n) && |r.value.1| <= |s|
    decreases n
  {
    if n <= 0 then Some(([], s))
    else
      var note :- ReadNote(s, rev);
      var more :- ReadNotes(note.1, n - 1, rev);
      Some(([note.0] + more.0, more.1))
  }

  /** `k` length-prefixed blocks, all discarded. */
  function SkipBlocks(s: seq<Byte>, k: nat): (r: Option<seq<Byte>>)
    ensures r.Some? ==> |r.value| + 4 * k <= |s|
    decreases k
  {
    if k == 0 then Some(s)
    else
      var b :- ReadBytes(s);
      SkipBlocks(b.1, k - 1)
  }

  /** A segment's start, length, name and voice-bank name, then four
      discarded bytes; its notes are filled in by `ReadSegment`. */
  function ReadSegmentHead(s: seq<Byte>): (r: Option<(Segment, seq<Byte>)>)
    ensures r.Some? ==> |s| >= 8
    ensures r.Some? ==> var g := r.value.0;
      g.start == DecodeInt32(s[..4]) && g.length == DecodeInt32(s[4..8])
      && ValidUtf8(g.name) && ValidUtf8(g.vbname) && g.notes == []
    ensures r.Some? ==> |r.value.1| < |s|
  {
    var start :- ReadInt(s);
    var length :- ReadInt(start.1);
    var name :- ReadStrStrict(length.1);
    var vbname :- ReadStrStrict(name.1);
    var rest :- Skip(vbname.1, 4);
    assert s[4..][..4] == s[4..8];
    Some((Segment(start.0, length.0, name.0, vbname.0, []), rest))
  }

  /** One segment record: its head, the counted notes, then seven
      discarded blocks. */
  function ReadSegment(s: seq<Byte>, rev: Revision): (r: Option<(Segment, seq<Byte>)>)
    ensures r.Some? ==> |s| >= 8
    ensures r.Some? ==> var g := r.value.0;
      g.start == DecodeInt32(s[..4]) && g.length == DecodeInt32(s[4..8])
      && ValidUtf8(g.name) && ValidUtf8(g.vbname)
    ensures r.Some? ==> |r.value.1| < |s|
  {
    var head :- ReadSegmentHead(s);
    var count :- ReadInt(head.1);
    var notes :- ReadNotes(count.1, count.0, rev);
    var rest :- SkipBlocks(notes.1, SEGMENT_TRAILER_BLOCKS);
    Some((head.0.(notes := notes.0), rest))
  }

  predicate PlainSegments(segs: seq<Segment>) {
    forall i :: 0 <= i < |segs| ==> PlainNotes(segs[i].notes)
  }

  function ReadSegments(s: seq<Byte>, n: int, rev: Revision): (r: Option<(seq<Segment>, seq<Byte>)>)
    ensures r.Some? ==> |r.value.0| == Iterations(n) && |r.value.1| <= |s|
    decreases n
  {
    if n <= 0 then Some(([], s))
    else
      var seg :- ReadSegment(s, rev);
      var more :- ReadSegments(seg.1, n - 1, rev);
      Some(([seg.0] + more.0, more.1))
  }

  /** One track entry. Type 0 is a synthesised track with a name, two
      discarded bytes, a volume, eight discarded bytes (balance and a size)
      and counted segments; its mute and solo flags keep their defaults.
      Any other type is skipped (a block, two bytes, two integers and a
      block) and yields no track. */
  function ReadTrack(s: seq<Byte>, rev: Revision): (r: Option<(Option<Track>, seq<Byte>)>)
    ensures r.Some? ==> |s| >= 4 && (r.value.0.Some? <==> DecodeInt32(s[..4]) == 0)
    ensures r.Some? && r.value.0.Some? ==> var t := r.value.0.value;
      !t.mute && !t.solo && ValidUtf8(t.name)
    ensures r.Some? ==> |r.value.1| < |s|
  {
    var kind :- ReadInt(s);
    if kind.0 == 0 then
      var name :- ReadStrStrict(kind.1);
      var s1 :- Skip(name.1, 2);
      var volume :- ReadInt(s1);
      var s2 :- Skip(volume.1, 4);
      var s3 :- Skip(s2, 4);
      var count :- ReadInt(s3);
      var segs :- ReadSegments(count.1, count.0, rev);
      Some((Some(Track(name.0, segs.0, volume.0, false, false)), segs.1))
    else
      var a :- ReadBytes(kind.1);
      var s1 :- Skip(a.1, 2);
      var x :- ReadInt(s1);
      var y :- ReadInt(x.1);
      var b :- ReadBytes(y.1);
      Some((None, b.1))
  }

  predicate DefaultFlags(tracks: seq<Track>) {
    forall i :: 0 <= i < |tracks| ==> !tracks[i].mute && !tracks[i].solo
  }

  predicate PlainTracks(tracks: seq<Track>) {
    forall i :: 0 <= i < |tracks| ==> PlainSegments(tracks[i].segments)
  }

  /** The tracks one loop entry contributes: none for a skipped entry. */
  function Listed(t: Option<Track>): (r: seq<Track>)
    ensures |r| <= 1 && (r != [] <==> t.Some?)
  {
    if t.Some? then [t.value] else []
  }

  /** The track loop: `n` entries, of which only the synthesised ones
      become tracks. */
  function ReadTracks(s: seq<Byte>, n: int, rev: Revision): (r: Option<(seq<Track>, seq<Byte>)>)
    ensures r.Some? ==> |r.value.0| <= Iterations(n) && |r.value.1| <= |s|
    ensures r.Some? ==> DefaultFlags(r.value.0)
    decreases n
  {
    if n <= 0 then Some(([], s))
    else
      var t :- ReadTrack(s, rev);
      var more :- ReadTracks(t.1, n - 1, rev);
      Some((Listed(t.0) + more.0, more.1))
  }

  /** Tempo markers: a tick and the tempo in hundredths of a beat per
      minute, in file order. */
  function ReadTempos(s: seq<Byte>, n: int): (r: Option<(seq<Tempo>, seq<Byte>)>)
    ensures r.Some? ==> |r.value.0| == Iterations(n) && |r.value.1| + 8 * Iterations(n) <= |s|
    decreases n
  {
    if n <= 0 then Some(([], s))
    else
      var tick :- ReadInt(s);
      var raw :- ReadInt(tick.1);
      var more :- ReadTempos(raw.1, n - 1);
      Some(([Tempo(tick.0, raw.0)] + more.0, more.1))
  }

  /** Time-signature markers: bar, beats per bar and beat unit. */
  function ReadBeats(s: seq<Byte>, n: int): (r: Option<(seq<Beat>, seq<Byte>)>)
    ensures r.Some? ==> |r.value.0| == Iterations(n) && |r.value.1| + 12 * Iterations(n) <= |s|
    decreases n
  {
    if n <= 0 then Some(([], s))
    else
      var bar :- ReadInt(s);
      var perBar :- ReadInt(bar.1);
      var unit :- ReadInt(perBar.1);
      var more :- ReadBeats(unit.1, n - 1);
      Some(([Beat(bar.0, perBar.0, unit.0)] + more.0, more.1))
  }

  /** `opendv` on the file's bytes. Whatever follows the last track is
      ignored. */
  function Parse(s: seq<Byte>, rev: Revision): (r: Option<Project>)
    ensures r.Some? ==> |s| >= HEADER_SIZE + 16
    ensures r.Some? ==> DefaultFlags(r.value.tracks)
  {
    var s1 :- Skip(s, HEADER_SIZE);
    var tempoCount :- ReadInt(s1);
    var tempos :- ReadTempos(tempoCount.1, tempoCount.0);
    var s2 :- Skip(tempos.1, 4);
    var beatCount :- ReadInt(s2);
    var beats :- ReadBeats(beatCount.1, beatCount.0);
    var trackCount :- ReadInt(beats.1);
    var tracks :- ReadTracks(trackCount.1, trackCount.0, rev);
    Some(Project(tempos.0, beats.0, tracks.0))
  }

  /** What the 0.0.1 reader keeps of what the 0.0.2 reader builds. */
  function StripNotes(ns: seq<Note>): (r: seq<Note>)
    ensures |r| == |ns|
    decreases |ns|
  {
    if |ns| == 0 then [] else [Keep(ns[0], Rev001)] + StripNotes(ns[1..])
  }

  function StripSegment(g: Segment): Segment {
    g.(notes := StripNotes(g.notes))
  }

  function StripSegments(gs: seq<Segment>): (r: seq<Segment>)
    ensures |r| == |gs|
    decreases |gs|
  {
    if |gs| == 0 then [] else [StripSegment(gs[0])] + StripSegments(gs[1..])
  }

  function StripTrack(t: Option<Track>): Option<Track> {
    if t.Some? then Some(t.value.(segments := StripSegments(t.value.segments))) else None
  }

  function StripTracks(ts: seq<Track>): (r: seq<Track>)
    ensures |r| == |ts|
    decreases |ts|
  {
    if |ts| == 0 then [] else [StripTrack(Some(ts[0])).value] + StripTracks(ts[1..])
  }

  /** A loop read as the 0.0.1 reader would see it: the same outcome and
      position, with the values passed through `StripNotes`. */
  function StrippedNotes(r: Option<(seq<Note>, seq<Byte>)>): Option<(seq<Note>, seq<Byte>)> {
    if r.None? then None else Some((StripNotes(r.value.0), r.value.1))
  }

  /** A loop read as the 0.0.1 reader would see it: the same outcome and
      position, with the values passed through `StripSegments`. */
  function StrippedSegments(r: Option<(seq<Segment>, seq<Byte>)>): Option<(seq<Segment>, seq<Byte>)> {
    if r.None? then None else Some((StripSegments(r.value.0), r.value.1))
  }

  /** A loop read as the 0.0.1 reader would see it: the same outcome and
      position, with the values passed through `StripTracks`. */
  function StrippedTracks(r: Option<(seq<Track>, seq<Byte>)>): Option<(seq<Track>, seq<Byte>)> {
    if r.None? then None else Some((StripTracks(r.value.0), r.value.1))
  }

  lemma StripNotesCons(x: Note, ys: seq<Note>)
    ensures StripNotes([x] + ys) == [Keep(x, Rev001)] + StripNotes(ys)
  {
    assert ([x] + ys)[1..] == ys;
  }

  /** A note record reads alike under both revisions, up to the ornament. */
  lemma ReadNoteRevisions(s: seq<Byte>)
    ensures ReadNote(s, Rev001).Some? <==> ReadNote(s, Rev002).Some?
    ensures ReadNote(s, Rev002).Some? ==> var x := ReadNote(s, Rev002).value;
      ReadNote(s, Rev001) == Some((Keep(x.0, Rev001), x.1))
  {
  }

  /** The two revisions agree on `n` turns of the note loop from `s`. */
  predicate NotesAgree(s: seq<Byte>, n: int) {
    ReadNotes(s, n, Rev001) == StrippedNotes(ReadNotes(s, n, Rev002))
  }

  /** One turn of the note loop, for either revision. */
  lemma ReadNotesUnfold(s: seq<Byte>, n: int, rev: Revision, x: (Note, seq<Byte>))
    requires n > 0 && ReadNote(s, rev) == Some(x)
    ensures ReadNotes(x.1, n - 1, rev).None? ==> ReadNotes(s, n, rev).None?
    ensures ReadNotes(x.1, n - 1, rev).Some? ==> var more := ReadNotes(x.1, n - 1, rev).value;
      ReadNotes(s, n, rev) == Some(([x.0] + more.0, more.1))
  {
  }

  /** One turn of the loop under 0.0.1, in terms of what 0.0.2 reads first. */
  lemma ReadNotesUnfoldStripped(s: seq<Byte>, n: int, x: (Note, seq<Byte>))
    requires n > 0 && ReadNote(s, Rev002) == Some(x)
    ensures ReadNotes(x.1, n - 1, Rev001).None? ==> ReadNotes(s, n, Rev001).None?
    ensures ReadNotes(x.1, n - 1, Rev001).Some? ==> var more := ReadNotes(x.1, n - 1, Rev001).value;
      ReadNotes(s, n, Rev001) == Some(([Keep(x.0, Rev001)] + more.0, more.1))
  {
    ReadNoteRevisions(s);
    ReadNotesUnfold(s, n, Rev001, (Keep(x.0, Rev001), x.1));
  }

  /** The algebra of one turn: if the rest of the loop agrees up to
      stripping, so does the whole loop. */
  lemma ReadNotesRevisionsStep(x: Note, r2: Option<(seq<Note>, seq<Byte>)>, r1: Option<(seq<Note>, seq<Byte>)>,
      b2: Option<(seq<Note>, seq<Byte>)>, b1: Option<(seq<Note>, seq<Byte>)>)
    requires b1 == StrippedNotes(b2)
    requires b2.None? ==> r2.None?
    requires b2.Some? ==> r2 == Some(([x] + b2.value.0, b2.value.1))
    requires b1.None? ==> r1.None?
    requires b1.Some? ==> r1 == Some(([Keep(x, Rev001)] + b1.value.0, b1.value.1))
    ensures r1 == StrippedNotes(r2)
  {
    if b2.Some? {
      StripNotesCons(x, b2.value.0);
    }
  }

  /** One turn of the loop under both revisions: they agree on the first
      note record, and by induction on the turns after it. */
  lemma {:induction false} ReadNotesRevisionsTurn(s: seq<Byte>, n: int, x: Note, rest: seq<Byte>)
    requires n > 0 && ReadNote(s, Rev002) == Some((x, rest))
    ensures NotesAgree(s, n) == true
    decreases n, 0
  {
    ReadNotesRevisions(rest, n - 1);
    ReadNotesRevisionsCombine(s, n, x, rest);
  }

  /** Agreement on the turns after the first entry extends to the whole loop. */
  lemma ReadNotesRevisionsCombine(s: seq<Byte>, n: int, x: Note, rest: seq<Byte>)
    requires n > 0 && ReadNote(s, Rev002) == Some((x, rest))
    requires NotesAgree(rest, n - 1) == true
    ensures NotesAgree(s, n) == true
  {
    var b2, b1 := ReadNotes(rest, n - 1, Rev002), ReadNotes(rest, n - 1, Rev001);
    assert b1 == StrippedNotes(b2);
    ReadNotesUnfold(s, n, Rev002, (x, rest));
    ReadNotesUnfoldStripped(s, n, (x, rest));
    ReadNotesRevisionsStep(x, ReadNotes(s, n, Rev002), ReadNotes(s, n, Rev001), b2, b1);
  }

  lemma {:induction false} ReadNotesRevisions(s: seq<Byte>, n: int)
    ensures NotesAgree(s, n) == true
    decreases n, 1
  {
    if n > 0 && ReadNote(s, Rev002).Some? {
      var x := ReadNote(s, Rev002).value;
      ReadNotesRevisionsTurn(s, n, x.0, x.1);
    } else {
      ReadNotesRevisionsEnd(s, n);
    }
  }

  /** The loop stops at once, or fails on its first note, alike under both
      revisions. */
  lemma ReadNotesRevisionsEnd(s: seq<Byte>, n: int)
    requires n <= 0 || ReadNote(s, Rev002).None?
    ensures NotesAgree(s, n) == true
  {
    ReadNoteRevisions(s);
  }

  lemma ReadSegmentRevisions(s: seq<Byte>)
    ensures ReadSegment(s, Rev001).Some? <==> ReadSegment(s, Rev002).Some?
    ensures ReadSegment(s, Rev002).Some? ==> var x := ReadSegment(s, Rev002).value;
      ReadSegment(s, Rev001) == Some((StripSegment(x.0), x.1))
  {
    if ReadSegmentHead(s).Some? {
      var head := ReadSegmentHead(s).value;
      if ReadInt(head.1).Some? {
        var count := ReadInt(head.1).value;
        ReadNotesRevisions(count.1, count.0);
      }
    }
  }

  lemma StripSegmentsCons(x: Segment, ys: seq<Segment>)
    ensures StripSegments([x] + ys) == [StripSegment(x)] + StripSegments(ys)
  {
    assert ([x] + ys)[1..] == ys;
  }

  /** The two revisions agree on `n` turns of the segment loop from `s`. */
  predicate SegmentsAgree(s: seq<Byte>, n: int) {
    ReadSegments(s, n, Rev001) == StrippedSegments(ReadSegments(s, n, Rev002))
  }

  /** One turn of the segment loop, for either revision. */
  lemma ReadSegmentsUnfold(s: seq<Byte>, n: int, rev: Revision, x: (Segment, seq<Byte>))
    requires n > 0 && ReadSegment(s, rev) == Some(x)
    ensures ReadSegments(x.1, n - 1, rev).None? ==> ReadSegments(s, n, rev).None?
    ensures ReadSegments(x.1, n - 1, rev).Some? ==> var more := ReadSegments(x.1, n - 1, rev).value;
      ReadSegments(s, n, rev) == Some(([x.0] + more.0, more.1))
  {
  }

  /** One turn of the loop under 0.0.1, in terms of what 0.0.2 reads first. */
  lemma ReadSegmentsUnfoldStripped(s: seq<Byte>, n: int, x: (Segment, seq<Byte>))
    requires n > 0 && ReadSegment(s, Rev002) == Some(x)
    ensures ReadSegments(x.1, n - 1, Rev001).None? ==> ReadSegments(s, n, Rev001).None?
    ensures ReadSegments(x.1, n - 1, Rev001).Some? ==> var more := ReadSegments(x.1, n - 1, Rev001).value;
      ReadSegments(s, n, Rev001) == Some(([StripSegment(x.0)] + more.0, more.1))
  {
    ReadSegmentRevisions(s);
    ReadSegmentsUnfold(s, n, Rev001, (StripSegment(x.0), x.1));
  }

  /** The algebra of one turn: if the rest of the loop agrees up to
      stripping, so does the whole loop. */
  lemma ReadSegmentsRevisionsStep(x: Segment, r2: Option<(seq<Segment>, seq<Byte>)>, r1: Option<(seq<Segment>, seq<Byte>)>,
      b2: Option<(seq<Segment>, seq<Byte>)>, b1: Option<(seq<Segment>, seq<Byte>)>)
    requires b1 == StrippedSegments(b2)
    requires b2.None? ==> r2.None?
    requires b2.Some? ==> r2 == Some(([x] + b2.value.0, b2.value.1))
    requires b1.None? ==> r1.None?
    requires b1.Some? ==> r1 == Some(([StripSegment(x)] + b1.value.0, b1.value.1))
    ensures r1 == StrippedSegments(r2)
  {
    if b2.Some? {
      StripSegmentsCons(x, b2.value.0);
    }
  }

  /** One turn of the loop under both revisions: they agree on the first
      segment, and by induction on the turns after it. */
  lemma {:induction false} ReadSegmentsRevisionsTurn(s: seq<Byte>, n: int, x: Segment, rest: seq<Byte>)
    requires n > 0 && ReadSegment(s, Rev002) == Some((x, rest))
    ensures SegmentsAgree(s, n) == true
    decreases n, 0
  {
    ReadSegmentsRevisions(rest, n - 1);
    ReadSegmentsRevisionsCombine(s, n, x, rest);
  }

  /** Agreement on the turns after the first entry extends to the whole loop. */
  lemma ReadSegmentsRevisionsCombine(s: seq<Byte>, n: int, x: Segment, rest: seq<Byte>)
    requires n > 0 && ReadSegment(s, Rev002) == Some((x, rest))
    requires SegmentsAgree(rest, n - 1) == true
    ensures SegmentsAgree(s, n) == true
  {
    var b2, b1 := ReadSegments(rest, n - 1, Rev002), ReadSegments(rest, n - 1, Rev001);
    assert b1 == StrippedSegments(b2);
    ReadSegmentsUnfold(s, n, Rev002, (x, rest));
    ReadSegmentsUnfoldStripped(s, n, (x, rest));
    ReadSegmentsRevisionsStep(x, ReadSegments(s, n, Rev002), ReadSegments(s, n, Rev001), b2, b1);
  }

  lemma {:induction false} ReadSegmentsRevisions(s: seq<Byte>, n: int)
    ensures SegmentsAgree(s, n) == true
    decreases n, 1
  {
    if n > 0 && ReadSegment(s, Rev002).Some? {
      var x := ReadSegment(s, Rev002).value;
      ReadSegmentsRevisionsTurn(s, n, x.0, x.1);
    } else {
      ReadSegmentsRevisionsEnd(s, n);
    }
  }

  /** The loop stops at once, or fails on its first segment, alike under both
      revisions. */
  lemma ReadSegmentsRevisionsEnd(s: seq<Byte>, n: int)
    requires n <= 0 || ReadSegment(s, Rev002).None?
    ensures SegmentsAgree(s, n) == true
  {
    ReadSegmentRevisions(s);
  }

  lemma ReadTrackRevisions(s: seq<Byte>)
    ensures ReadTrack(s, Rev001).Some? <==> ReadTrack(s, Rev002).Some?
    ensures ReadTrack(s, Rev002).Some? ==> var x := ReadTrack(s, Rev002).value;
      ReadTrack(s, Rev001) == Some((StripTrack(x.0), x.1))
  {
    if ReadInt(s).Some? && ReadInt(s).value.0 == 0 {
      var kind := ReadInt(s).value;
      if ReadStrStrict(kind.1).Some? {
        var name := ReadStrStrict(kind.1).value;
        if Skip(name.1, 2).Some? {
          var s1 := Skip(name.1, 2).value;
          if ReadInt(s1).Some? {
            var volume := ReadInt(s1).value;
            if Skip(volume.1, 8).Some? {
              var s3 := volume.1[8..];
              assert Skip(Skip(volume.1, 4).value, 4) == Some(s3);
              if ReadInt(s3).Some? {
                var count := ReadInt(s3).value;
                ReadSegmentsRevisions(count.1, count.0);
              }
            }
          }
        }
      }
    }
  }

  lemma {:induction false} StripTracksAppend(xs: seq<Track>, ys: seq<Track>)
    ensures StripTracks(xs + ys) == StripTracks(xs) + StripTracks(ys)
    decreases |xs|
  {
    if |xs| > 0 {
      assert (xs + ys)[1..] == xs[1..] + ys;
      StripTracksAppend(xs[1..], ys);
    } else {
      assert xs + ys == ys;
    }
  }

  /** The two revisions agree on `n` turns of the track loop from `s`. */
  predicate TracksAgree(s: seq<Byte>, n: int) {
    ReadTracks(s, n, Rev001) == StrippedTracks(ReadTracks(s, n, Rev002))
  }

  /** One turn of the track loop, for either revision. */
  lemma ReadTracksUnfold(s: seq<Byte>, n: int, rev: Revision, x: (Option<Track>, seq<Byte>))
    requires n > 0 && ReadTrack(s, rev) == Some(x)
    ensures ReadTracks(x.1, n - 1, rev).None? ==> ReadTracks(s, n, rev).None?
    ensures ReadTracks(x.1, n - 1, rev).Some? ==> var more := ReadTracks(x.1, n - 1, rev).value;
      ReadTracks(s, n, rev) == Some((Listed(x.0) + more.0, more.1))
  {
  }

  /** One turn of the loop under 0.0.1, in terms of what 0.0.2 reads first. */
  lemma ReadTracksUnfoldStripped(s: seq<Byte>, n: int, x: (Option<Track>, seq<Byte>))
    requires n > 0 && ReadTrack(s, Rev002) == Some(x)
    ensures ReadTracks(x.1, n - 1, Rev001).None? ==> ReadTracks(s, n, Rev001).None?
    ensures ReadTracks(x.1, n - 1, Rev001).Some? ==> var more := ReadTracks(x.1, n - 1, Rev001).value;
      ReadTracks(s, n, Rev001) == Some((Listed(StripTrack(x.0)) + more.0, more.1))
  {
    ReadTrackRevisions(s);
    ReadTracksUnfold(s, n, Rev001, (StripTrack(x.0), x.1));
  }

  /** The algebra of one turn: if the rest of the loop agrees up to
      stripping, so does the whole loop. */
  lemma ReadTracksRevisionsStep(x: Option<Track>, r2: Option<(seq<Track>, seq<Byte>)>, r1: Option<(seq<Track>, seq<Byte>)>,
      b2: Option<(seq<Track>, seq<Byte>)>, b1: Option<(seq<Track>, seq<Byte>)>)
    requires b1 == StrippedTracks(b2)
    requires b2.None? ==> r2.None?
    requires b2.Some? ==> r2 == Some((Listed(x) + b2.value.0, b2.value.1))
    requires b1.None? ==> r1.None?
    requires b1.Some? ==> r1 == Some((Listed(StripTrack(x)) + b1.value.0, b1.value.1))
    ensures r1 == StrippedTracks(r2)
  {
    if b2.Some? {
      assert StripTracks(Listed(x)) == Listed(StripTrack(x));
      StripTracksAppend(Listed(x), b2.value.0);
    }
  }

  /** One turn of the loop under both revisions: they agree on the first
      track entry, and by induction on the turns after it. */
  lemma {:induction false} ReadTracksRevisionsTurn(s: seq<Byte>, n: int, x: Option<Track>, rest: seq<Byte>)
    requires n > 0 && ReadTrack(s, Rev002) == Some((x, rest))
    ensures TracksAgree(s, n) == true
    decreases n, 0
  {
    ReadTracksRevisions(rest, n - 1);
    ReadTracksRevisionsCombine(s, n, x, rest);
  }

  /** Agreement on the turns after the first entry extends to the whole loop. */
  lemma ReadTracksRevisionsCombine(s: seq<Byte>, n: int, x: Option<Track>, rest: seq<Byte>)
    requires n > 0 && ReadTrack(s, Rev002) == Some((x, rest))
    requires TracksAgree(rest, n - 1) == true
    ensures TracksAgree(s, n) == true
  {
    var b2, b1 := ReadTracks(rest, n - 1, Rev002), ReadTracks(rest, n - 1, Rev001);
    assert b1 == StrippedTracks(b2);
    ReadTracksUnfold(s, n, Rev002, (x, rest));
    ReadTracksUnfoldStripped(s, n, (x, rest));
    ReadTracksRevisionsStep(x, ReadTracks(s, n, Rev002), ReadTracks(s, n, Rev001), b2, b1);
  }

  lemma {:induction false} ReadTracksRevisions(s: seq<Byte>, n: int)
    ensures TracksAgree(s, n) == true
    decreases n, 1
  {
    if n > 0 && ReadTrack(s, Rev002).Some? {
      var x := ReadTrack(s, Rev002).value;
      ReadTracksRevisionsTurn(s, n, x.0, x.1);
    } else {
      ReadTracksRevisionsEnd(s, n);
    }
  }

  /** The loop stops at once, or fails on its first track, alike under both
      revisions. */
  lemma ReadTracksRevisionsEnd(s: seq<Byte>, n: int)
    requires n <= 0 || ReadTrack(s, Rev002).None?
    ensures TracksAgree(s, n) == true
  {
    ReadTrackRevisions(s);
  }

  /** Both revisions accept exactly the same files and agree on everything
      except the ornament values, which only 0.0.2 keeps. */
  lemma ParseRevisions(s: seq<Byte>)
    ensures Parse(s, Rev001).Some? <==> Parse(s, Rev002).Some?
    ensures Parse(s, Rev002).Some? ==> var p := Parse(s, Rev002).value;
      Parse(s, Rev001).value == p.(tracks := StripTracks(p.tracks))
  {
    if Skip(s, HEADER_SIZE).Some? {
      var s1 := Skip(s, HEADER_SIZE).value;
      if ReadInt(s1).Some? {
        var tempoCount := ReadInt(s1).value;
        var tempos := ReadTempos(tempoCount.1, tempoCount.0);
        if tempos.Some? && Skip(tempos.value.1, 4).Some? {
          var s2 := Skip(tempos.value.1, 4).value;
          if ReadInt(s2).Some? {
            var beatCount := ReadInt(s2).value;
            var beats := ReadBeats(beatCount.1, beatCount.0);
            if beats.Some? && ReadInt(beats.value.1).Some? {
              var trackCount := ReadInt(beats.value.1).value;
              ReadTracksRevisions(trackCount.1, trackCount.0);
            }
          }
        }
      }
    }
  }
}
