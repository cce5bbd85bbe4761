# dvfile in Dafny

A model of the pure core of `dvfile`, a Python library for the files of the
DeepVocal singing synthesiser:

- **Project files** (`.dv` / `.sk`), read by `opendv`. The model covers both
  revisions of the library. Revision 0.0.2 keeps each note's bend,
  portamento and timbre values. Revision 0.0.1 reads the same bytes and
  drops them.
- **The segment algebra** of `Dvsegment`: `+`, `sum`, `getlyric`, `sort`
  and `cut`.
- **Time conversion**: `Dvfile.pos2tick`, from a (bar, beat, tick) position
  to ticks, driven by the time-signature markers.
- **UST lowering**: the `to_ust_file` conversions of segments, tracks and
  projects.
- **Voice-bank build settings** (`.dvtb`): the writer `Dvtbfile.__bytes__`
  and the reader `opendvtb`.
- **Voice-bank reading** (`openvb`): the pure part that decodes the `SKI`
  file once the JSON metadata has been read.

Every number on disk is a 4-byte little-endian two's-complement integer
(`Bytes`). Text fields are length-prefixed UTF-8 byte strings (`Primitive`).
UTF-8 validity follows section 3 and section 4 of RFC 3629 (`Utf8`).
Python's `str.split` and `str.join` on separators are modelled in `Text`.

Modules:

| module | role |
|---|---|
| `Bytes` | integer encoding |
| `Utf8` | UTF-8 validity |
| `Primitive` | the `skread*` / `skwrite*` helpers |
| `Text` | split and join |
| `Entities` | the project datatypes |
| `SegmentAlgebra` | segment operations |
| `TimeSignature` | `pos2tick` |
| `UstLowering` | `to_ust_file` |
| `ProjectReader` | `opendv` for both revisions |
| `ProjectLayout` | the byte layout each reader accepts, record by record |
| `Dvtb` | the `.dvtb` codec |
| `Singer` | `openvb` |

Readers return `None` where the Python code raises: a short integer read, a
lyric that is not UTF-8 in a project file, or a missing list element. They
also return `None` on a short block read or a negative block length, where
Python's `file.read` returns whatever bytes are there (see "Left out").

The project reader marks track type 0 as a synthesis track and type 1 as an
accompaniment track (the comment on `tracktype` at
build/lib/dvfile/__init__.py:330). The code only tests for 0, so every
non-zero type, not just 1, is skipped as an accompaniment track. The model
follows the code (`ProjectReader.ReadTrack`).

## Model

| member | source | states |
|---|---|---|
| Bytes.DecodeEncodeInt32 | dvfile/dvtb.py:4-5 | reading back the four bytes written for a 32-bit integer gives the integer |
| Bytes.EncodeDecodeInt32 | dvfile/dvtb.py:19-20 | every four bytes are the encoding of the integer they read as |
| Bytes.EncodeInt32 | dvfile/dvtb.py:19-20 | a 32-bit integer is written as exactly four bytes |
| Bytes.DecodeInt32 | build/lib/dvfile/__init__.py:8-9 | four bytes read as a 32-bit integer, negative exactly when the top bit of the last byte is set |
| Bytes.Wrap32 | build/lib/dvfile/__init__.py:350 | numpy `int32` arithmetic wraps: the result is in the 32-bit range, congruent to the exact value modulo 2^32, and equal to it when that is in range |
| Primitive.ReadInt | build/lib/dvfile/__init__.py:8-9 | an integer read succeeds exactly when four bytes remain, and yields their little-endian value |
| Primitive.ReadBytes | dvfile/dvtb.py:7-8 | a block read succeeds exactly when the length prefix is non-negative and that many bytes follow; the input splits into prefix, block and rest |
| Primitive.ReadStrStrict | build/lib/dvfile/__init__.py:14-15 | a project-file string read succeeds exactly when the block is valid UTF-8, and then returns the block |
| Primitive.ReadStrSoft | dvfile/dvtb.py:10-14 | a settings-file string read never fails on encoding: a valid block is returned unchanged, an invalid one becomes the empty string |
| Primitive.ReadFlag | dvfile/dvtb.py:130 | the build-all flag is true exactly when the byte is 1 |
| Primitive.Skip | build/lib/dvfile/__init__.py:333-336 | skipping `n` bytes fails exactly when fewer remain, and otherwise leaves what follows them |
| Primitive.SkipAtMost | dvfile/singer.py:130-137 | a skip past the end leaves nothing; otherwise it leaves exactly what follows the `n` bytes |
| Primitive.WriteInt | dvfile/dvtb.py:19-20 | four bytes that read back as the integer |
| Primitive.WriteList | dvfile/dvtb.py:28-29 | a list is a block whose length prefix covers the count and the items, and whose count reads back as the number of items, followed by the items |
| Primitive.WriteBool | dvfile/dvtb.py:16-17 | one byte, which is 1 exactly for true |
| Primitive.WriteBytes | dvfile/dvtb.py:22-23 | four length bytes, then the block itself |
| Primitive.ReadIntWrite | dvfile/dvtb.py:19-20 | an integer written and read back is the same integer, and the following bytes are untouched |
| Primitive.ReadBytesWrite | dvfile/dvtb.py:22-23 | a block written and read back is the same block |
| Primitive.ReadStrStrictWrite | dvfile/dvtb.py:25-26 | a valid UTF-8 string written and read strictly is the same string |
| Primitive.ReadStrSoftWrite | dvfile/dvtb.py:25-26 | a valid UTF-8 string written and read leniently is the same string |
| Primitive.ReadStrSoftInvalid | dvfile/dvtb.py:10-14 | an invalid block reads as "" leniently, and aborts a strict read |
| Primitive.ReadFlagWrite | dvfile/dvtb.py:16-17 | a flag written and read back is the same flag |
| Primitive.ReadListWrite | dvfile/dvtb.py:28-29 | a written list is one block: its count, then the concatenated items |
| Primitive.SkipOver | dvfile/__init__.py:241 | skipping the length of a padding leaves exactly what follows it |
| Text.Find | dvfile/dvtb.py:113 | the first occurrence of a separator, or none at all |
| Text.Split | dvfile/dvtb.py:113 | splitting always yields at least one piece |
| Text.SplitJoin | dvfile/dvtb.py:80-85 | splitting a join on a border-free separator gives back the pieces, provided no piece contains the separator |
| Text.ListRoundTrip | dvfile/dvtb.py:122-125 | a joined list splits back into itself, and the empty list into one empty string |
| Text.JoinAvoids | dvfile/singer.py:104 | joining with a byte that cannot start or finish a separator creates no occurrence of it |
| Text.JoinValid | dvfile/dvtb.py:80-85 | joining valid UTF-8 with an ASCII separator gives valid UTF-8 |
| Text.JoinEnds | dvfile/dvtb.py:80-85 | a joined list starts with its first piece followed by the separator, ends with its last piece, and is empty for no pieces |
| Text.JoinFields | dvfile/dvtb.py:80-81 | one comma-joined line per table entry |
| SegmentAlgebra.Add | build/lib/dvfile/__init__.py:90-101 | the sum starts with the first segment and ends with the second; it holds all of the first segment's notes and then the second's |
| SegmentAlgebra.AddKeepsAbsolutePositions | build/lib/dvfile/__init__.py:90-101 | each note of the second segment keeps its absolute tick and all its other fields |
| SegmentAlgebra.ShiftShift | build/lib/dvfile/__init__.py:97-99 | two shifts of the notes add up |
| SegmentAlgebra.ShiftConcat | build/lib/dvfile/__init__.py:97-100 | shifting distributes over concatenation |
| SegmentAlgebra.AddAssociative | dvfile/__init__.py:75-86 | segment addition is associative |
| SegmentAlgebra.SumFromAbsolute | build/lib/dvfile/__init__.py:210-216 | summing segments onto a tick-0 start appends every note at its absolute position, and ends where the last segment ends |
| SegmentAlgebra.SumFrom | build/lib/dvfile/__init__.py:215 | `sum` keeps the start segment's start and its notes in front, and ends where the last segment ends; no segments give the start segment back |
| SegmentAlgebra.Flatten | build/lib/dvfile/__init__.py:215 | a flattened track starts at 0, ends with its last segment, and lists every note at its absolute tick |
| SegmentAlgebra.GetLyric | build/lib/dvfile/__init__.py:107-117 | at most one lyric per note; none of them is in `ignore`, and the chosen lyric of every note not in `ignore` is among them |
| SegmentAlgebra.GetLyricSingle | build/lib/dvfile/__init__.py:107-117 | one note gives its chosen lyric, or nothing when that lyric is in `ignore` |
| SegmentAlgebra.GetLyricAppend | build/lib/dvfile/__init__.py:107-117 | lyrics of concatenated notes are the concatenated lyrics; with `GetLyricSingle` this fixes order and multiplicity |
| SegmentAlgebra.GetLyricNoneIgnored | build/lib/dvfile/__init__.py:107-117 | with nothing ignored, one lyric per note, in note order |
| SegmentAlgebra.GetLyricShift | build/lib/dvfile/__init__.py:107-117 | moving notes does not change their lyrics |
| SegmentAlgebra.GetLyricAdd | build/lib/dvfile/__init__.py:90-117 | the lyrics of `a + b` are the lyrics of `a` followed by those of `b` |
| SegmentAlgebra.Insert | build/lib/dvfile/__init__.py:155-162 | insertion adds exactly the one note |
| SegmentAlgebra.InsertSorted | build/lib/dvfile/__init__.py:155-162 | inserting into a list sorted by start keeps it sorted |
| SegmentAlgebra.InsertStartingAt | build/lib/dvfile/__init__.py:155-162 | insertion puts the note in front of every note with the same start |
| SegmentAlgebra.SortNotes | build/lib/dvfile/__init__.py:155-162 | the result is sorted by start, is a permutation, and keeps notes with equal starts in their original order, as a stable sort does |
| SegmentAlgebra.Sort | build/lib/dvfile/__init__.py:155-162 | a sorted segment differs only in its note order |
| SegmentAlgebra.HeadIndex | build/lib/dvfile/__init__.py:171-175 | the first note that does not start before the segment, or the last note when every note does |
| SegmentAlgebra.TailIndex | build/lib/dvfile/__init__.py:176-180 | the last note that ends within the segment, or the first note when none does |
| SegmentAlgebra.Cut | build/lib/dvfile/__init__.py:164-181 | fails exactly when trimming an empty note list; otherwise changes only the notes, leaving a non-empty list when trimming |
| SegmentAlgebra.CutBoth | build/lib/dvfile/__init__.py:164-181 | the default cut of both ends is the head cut followed by the tail cut of what the head cut left |
| SegmentAlgebra.CutIsSlice | dvfile/__init__.py:137-152 | the notes after a cut are a contiguous run of the original ones, so a sorted list stays sorted |
| SegmentAlgebra.CutTail | build/lib/dvfile/__init__.py:176-180 | the tail cut keeps the notes up to the last one ending in the segment, or the first note alone |
| SegmentAlgebra.CutHead | build/lib/dvfile/__init__.py:171-175 | the head cut keeps the notes from the first one not starting early, or the last note alone |
| TimeSignature.FloorDiv | build/lib/dvfile/__init__.py:279-280 | division is defined exactly for a non-zero divisor |
| TimeSignature.FloorDivIsFloor | build/lib/dvfile/__init__.py:279-280 | the quotient rounds towards minus infinity for either sign of the divisor |
| TimeSignature.SumSpans | build/lib/dvfile/__init__.py:278-279 | the sum of spans exists exactly when no marker before the last has a zero beat unit |
| TimeSignature.Kept | build/lib/dvfile/__init__.py:271-277 | the markers used are the longest prefix of the list lying at or before the bar |
| TimeSignature.FirstAfter | build/lib/dvfile/__init__.py:271-275 | the index of the first marker after the bar, with all earlier markers at or before it; none when every marker is at or before it |
| TimeSignature.Pos2Tick | build/lib/dvfile/__init__.py:265-281 | a position exists only when a marker lies at or before the bar, and the applicable beat unit is non-zero |
| TimeSignature.Pos2TickOneMarker | build/lib/dvfile/__init__.py:265-281 | under one marker with a unit dividing 1920, the position is the whole bars and beats since that marker, each beat `1920 / unit` ticks, plus the tick |
| TimeSignature.Pos2TickBarStep | build/lib/dvfile/__init__.py:277-280 | past the last marker, `d` bars later is `d` bars of the last signature further on |
| TimeSignature.RepeatedQueryIsStable | build/lib/dvfile/__init__.py:271-280 | repeating a query on the list its first call left behind gives the same answer |
| TimeSignature.Pos2TickAsWritten | build/lib/dvfile/__init__.py:265-281 | the value is the pure conversion; the marker list gains a marker at the queried bar exactly when no marker lies after it |
| TimeSignature.Pos2TickAddsTick | build/lib/dvfile/__init__.py:280 | the result is linear in the tick within the beat |
| TimeSignature.Pos2TickBeforeFirstMarker | build/lib/dvfile/__init__.py:271-276 | a bar before the first marker raises, since no marker applies |
| TimeSignature.Pos2TickDefault | build/lib/dvfile/__init__.py:235 | with the default 4/4 marker at bar -3, bar 1 starts at tick 7680 |
| TimeSignature.Pos2TickDependsOnHistory | build/lib/dvfile/__init__.py:271-280 | as written, on a fresh list with unit 7 the first query for bar 1 answers 1097, or 1096 when a query for bar -1 came first |
| TimeSignature.AppendedMarkerIsHarmless | build/lib/dvfile/__init__.py:231-232 | with beat units of 1 to 32, a marker appended by one call never changes a later answer |
| TimeSignature.SpanSplits | build/lib/dvfile/__init__.py:278-279 | for a unit dividing 1920, the span to a bar splits exactly at any bar in between |
| UstLowering.LowerFrom | build/lib/dvfile/__init__.py:119-135 | one or two records per note, and the record lengths add up to the end of the last note |
| UstLowering.SegmentToUst | build/lib/dvfile/__init__.py:119-135 | a segment's UST spans from tick 0 to the end of its last note; no notes give no records |
| UstLowering.RecoverLowerFrom | dvfile/__init__.py:97-108 | replaying the records, with rests advancing the clock, gives every note back at its own start with its own length, lyric and pitch |
| UstLowering.RestsArePositive | dvfile/__init__.py:100-101 | for ordered, non-overlapping notes every inserted rest has positive length |
| UstLowering.TrackToUst | build/lib/dvfile/__init__.py:210-216 | a track's UST is the lowering of all its notes at absolute ticks, always with pinyin lyrics |
| UstLowering.TrackToUstIgnoresHanzi | dvfile/__init__.py:181-187 | the hanzi switch has no effect on a track, and the notes are all recoverable |
| UstLowering.ProjectToUst | build/lib/dvfile/__init__.py:300-310 | one UST per track, each with the first tempo marker's tempo; fails exactly when there are tracks but no tempo marker |
| ProjectReader.Iterations | build/lib/dvfile/__init__.py:320 | a loop over a non-positive count runs zero times |
| ProjectReader.ReadNoteHead | build/lib/dvfile/__init__.py:348-353 | the pitch is 115 minus the stored value, wrapped to 32 bits, and both lyrics are valid UTF-8 |
| ProjectReader.PitchWraps | build/lib/dvfile/__init__.py:350 | a stored value of -2^31 gives pitch -2147483533, not 2^31 + 115; any value above 115 - 2^31 gives exactly 115 minus it |
| ProjectReader.ReadOrnament | build/lib/dvfile/__init__.py:359-365 | the five ornament values, then the cross string and its timbre, are consumed |
| ProjectReader.ReadNote | build/lib/dvfile/__init__.py:346-368 | a note record is consumed in full; the ornament is kept exactly under 0.0.2 |
| ProjectReader.Keep | dvfile/__init__.py:278 | 0.0.1 builds notes without ornament values |
| ProjectReader.ReadNotes | build/lib/dvfile/__init__.py:346-368 | the note loop yields one note per iteration |
| ProjectReader.SkipBlocks | build/lib/dvfile/__init__.py:369-375 | the seven discarded blocks take at least their length prefixes |
| ProjectReader.ReadSegment | build/lib/dvfile/__init__.py:340-376 | a segment record is consumed in full and keeps its head fields |
| ProjectReader.ReadSegments | build/lib/dvfile/__init__.py:338-376 | the segment loop yields one segment per iteration |
| ProjectReader.ReadTrack | build/lib/dvfile/__init__.py:330-383 | an entry yields a track exactly when its type is 0 |
| ProjectReader.ReadTracks | build/lib/dvfile/__init__.py:328-383 | at most one track per entry, each with mute and solo cleared |
| ProjectReader.ReadTempos | build/lib/dvfile/__init__.py:319-321 | one marker per iteration, eight bytes each |
| ProjectReader.ReadBeats | build/lib/dvfile/__init__.py:324-326 | one marker per iteration, twelve bytes each |
| ProjectReader.Parse | build/lib/dvfile/__init__.py:312-384 | a project needs the header and the three counts; tracks have default flags |
| ProjectReader.ReadNoteRevisions | dvfile/__init__.py:270-290 | the two revisions accept the same note records and agree up to the ornament |
| ProjectReader.ReadNotesRevisions | dvfile/__init__.py:270-290 | the two revisions agree on every turn of the note loop |
| ProjectReader.ReadSegmentRevisions | dvfile/__init__.py:262-298 | the two revisions agree on a segment record, up to its notes' ornaments |
| ProjectReader.ReadSegmentsRevisions | dvfile/__init__.py:262-298 | the two revisions agree on every turn of the segment loop |
| ProjectReader.ReadTrackRevisions | dvfile/__init__.py:252-305 | the two revisions agree on a track entry |
| ProjectReader.ReadTracksRevisions | dvfile/__init__.py:252-305 | the two revisions agree on every turn of the track loop |
| ProjectReader.ParseRevisions | dvfile/__init__.py:236-306 | both revisions accept the same files, and 0.0.1's project is 0.0.2's with the ornaments dropped |
| ProjectLayout.ReadNoteLayout | build/lib/dvfile/__init__.py:346-368 | a note record written out field by field reads as the note it stands for, and the read stops exactly at its end |
| ProjectLayout.InvalidLyricAborts | build/lib/dvfile/__init__.py:352-353 | a lyric that is not UTF-8 aborts the read |
| ProjectLayout.ReadNotesLayout | build/lib/dvfile/__init__.py:346-368 | a run of note records reads as its notes |
| ProjectLayout.SkipBlocksLayout | build/lib/dvfile/__init__.py:369-375 | the trailing blocks are skipped exactly |
| ProjectLayout.ReadSegmentLayout | build/lib/dvfile/__init__.py:340-376 | a segment record reads as its segment |
| ProjectLayout.ReadSegmentsLayout | build/lib/dvfile/__init__.py:338-376 | a run of segment records reads as its segments |
| ProjectLayout.ReadTrackLayout | build/lib/dvfile/__init__.py:330-383 | a type-0 entry reads as its track, any other type is skipped |
| ProjectLayout.ReadTracksLayout | build/lib/dvfile/__init__.py:328-383 | a run of entries reads as the tracks of its type-0 entries, in order |
| ProjectLayout.ReadTemposLayout | build/lib/dvfile/__init__.py:319-321 | tempo markers read back unchanged |
| ProjectLayout.ReadBeatsLayout | build/lib/dvfile/__init__.py:324-326 | time-signature markers read back unchanged |
| ProjectLayout.ParseLayout | build/lib/dvfile/__init__.py:312-384 | a whole project file reads as the project it stands for, whatever follows it |
| Dvtb.TagSize | dvfile/dvtb.py:79 | the file tag is the 27 bytes the reader skips |
| Dvtb.Fit | dvfile/dvtb.py:113-121 | exactly the entries with the right number of fields |
| Dvtb.Table | dvfile/dvtb.py:113-121 | every kept line has the table's number of fields |
| Dvtb.ReadStrs | dvfile/dvtb.py:127-129 | one valid string per iteration |
| Dvtb.Encode | dvfile/dvtb.py:78-95 | every file starts with the tag |
| Dvtb.ReadSettings | dvfile/dvtb.py:130-135 | the flag is the first byte being 1; the strings are valid and the pitch list is never empty |
| Dvtb.Decode | dvfile/dvtb.py:105-148 | decoded tables have entries of the right number of fields, lists have at least one element, and all text is valid |
| Dvtb.Reread | dvfile/dvtb.py:113-125 | what a save and reopen keeps: wrong-arity table rows are dropped, empty lists come back as one empty string |
| Dvtb.ReadStrsWrite | dvfile/dvtb.py:87-88 | written wav paths read back unchanged |
| Dvtb.TableLines | dvfile/dvtb.py:113-121 | the lines of a written table reparse to its entries of the right arity |
| Dvtb.TableRoundTrip | dvfile/dvtb.py:80-81 | a table written with commas and line breaks reads back as its entries of the right arity |
| Dvtb.TableTextValid | dvfile/dvtb.py:80-81 | a table's text is valid UTF-8 |
| Dvtb.ReadDictionary | dvfile/dvtb.py:113-125 | each of the six dictionary blocks reads as valid UTF-8 text |
| Dvtb.ReadDictionaryWrite | dvfile/dvtb.py:80-85 | the six dictionary texts read back unchanged |
| Dvtb.ReadSettingsWrite | dvfile/dvtb.py:89-94 | the settings read back unchanged |
| Dvtb.DecodeEncode | dvfile/dvtb.py:78-148 | opening a saved file gives back the settings, with ill-sized rows dropped and empty lists read as one empty string |
| Dvtb.RoundTrip | dvfile/dvtb.py:78-148 | with rows of the right size and non-empty lists, opening a saved file gives back exactly what was saved |
| Dvtb.FitAll | dvfile/dvtb.py:115-116 | a table whose rows all have the right size is kept whole |
| Dvtb.EmptyTables | dvfile/dvtb.py:112-121 | empty tables come back empty |
| Dvtb.EmptyLists | dvfile/dvtb.py:122-134 | an empty list comes back as one empty string |
| Singer.SplitEach | dvfile/singer.py:107-108 | each line split into its comma fields |
| Singer.Rows | dvfile/singer.py:107-108 | a table always has a row, and each row a field |
| Singer.Column | dvfile/singer.py:124 | the values in column k of the rows wide enough to have one |
| Singer.Distinct | dvfile/singer.py:124 | the same members, each once |
| Singer.Without | dvfile/singer.py:124 | the members of the first list that are not in the second |
| Singer.Unvoiced | dvfile/singer.py:124 | the unvoiced consonants are exactly the symbols' consonants that are neither voiced nor vowels, each once |
| Singer.DeleteEmpty | dvfile/singer.py:127-128 | exactly the non-empty members remain |
| Singer.DeleteEmptyKeeps | dvfile/singer.py:127-128 | a list with no empty member is unchanged |
| Singer.DistinctKeeps | dvfile/singer.py:124 | a list without duplicates is unchanged |
| Singer.ParseProns | dvfile/singer.py:104-126 | the pronunciation lists parse exactly when there are at least six fields (6.x), or at least four with every symbol row having a consonant (5.1, 4.02); older banks have no independent list |
| Singer.ReadModels | dvfile/singer.py:132-138 | the model loop stops cleanly on fewer than four bytes; every entry's strings are valid |
| Singer.ReadModel | dvfile/singer.py:133-137 | a model entry holds two valid UTF-8 strings and a 32-bit pointer, and uses up at least the 12 bytes of its padding, lengths and pointer |
| Singer.ReadModelLayout | dvfile/singer.py:133-137 | a model entry reads back as its name, pitch and pointer |
| Singer.ReadModelsLayout | dvfile/singer.py:132-138 | a run of model entries reads back as those entries |
| Singer.HeadLength | dvfile/singer.py:96-102 | a header length is known exactly for the versions one of the two list layouts reads, and lies between 56 and 68 bytes |
| Singer.RowsRoundTrip | dvfile/singer.py:107-108 | a table written with semicolons and commas parses back into its rows |
| Singer.ListAvoidsBar | dvfile/singer.py:104 | a comma-joined list without bars contains no bar |
| Singer.NewerPronsLayout | dvfile/singer.py:104-115 | a 6.x pronunciation text written from its lists parses back into them |
| Singer.OlderPronsLayout | dvfile/singer.py:116-126 | a 5.1 / 4.02 text parses back, with the unvoiced consonants derived from the symbols |
| Singer.OpenVb | dvfile/singer.py:69-149 | an unsupported version gives an empty bank; otherwise the metadata are kept, the tail and independent lists have no empty string, and older banks derive their unvoiced list |
| Singer.OpenVbLayout | dvfile/singer.py:95-138 | a SKI file written from its parts opens as the bank of those parts |
| Singer.OpenVbAsWritten | dvfile/singer.py:127-128 | as written, opening succeeds exactly for unsupported versions |
| Singer.EmptyListsBank | dvfile/singer.py:127-128 | a 6.1 bank of empty lists opens with the corrected reader and fails as written |

## Left out

- File and directory I/O, the JSON `.sksd` metadata lookup and
  `os.path.abspath`. The bank path, name and version are parameters, and
  the SKI file is a byte sequence.
- MIDI export (`to_midi_track`, `to_midi_file`). It depends on `mido`.
- `Dvfile.tick2time` and the LRC files of `examples/dvlrc.py`. These are
  floating-point conversions.
- The `utaufile` UST classes. Only the `(length, lyric, notenum)` records
  and the tempo property are modelled.
- `__str__`, `save` and the `__main__` entry points.
- Python's `__radd__`. `sum` always starts from a `Dvsegment(0, 0)`, so its
  `__add__` is used throughout.
- Tempo markers keep the stored integer, which is hundredths of a beat per
  minute. The source divides it by 100 as a float.
- `struct` format `"l"` in `dvtb.py` and `singer.py` is 4 bytes only on
  some platforms. The model fixes it at 4 bytes, little-endian.
- Integer width. Values read from a project file are numpy `int32`, and
  arithmetic on them wraps at 2^31. The pitch `115 - raw` is wrapped
  (`Bytes.Wrap32`). The start shift in `+`, the rest length
  `note.start - time` in `to_ust_file` and the span sums of `pos2tick` are
  modelled on unbounded integers, so they do not wrap where numpy would.
- Short reads. The source returns fewer bytes from `file.read(n)` and only
  fails on a short integer read. Every read in the model fails on a short
  read, except three in the `SKI` reader, which follow the source:
  `Singer.ReadModels` loops exactly as long as four bytes remain, and
  `Primitive.SkipAtMost` passes over whatever is left of the 56-byte gap
  after the pitch text and of the 4-byte pad after each model pointer.
- TimeSignature.FloorDiv: models `//` on Python ints, which raises on a zero
  divisor. Markers read by `opendv` are tuples of numpy `int32`, and numpy
  integer `//` by zero gives 0 with a warning instead of raising. The class
  documents beat units 1 to 32 only, so the model follows Python ints.
- TimeSignature.SumSpans: a marker with a zero beat unit makes the sum fail,
  as it does for the default marker list or one built from Python ints. For
  markers read by `opendv` the source's numpy `//` gives 0 for that span
  and goes on.
- TimeSignature.Pos2Tick: gives `None` when the applicable beat unit is
  zero. For markers read by `opendv` the source returns a number there, with
  the zero-unit spans and the beat term counted as 0, and its `int32` span
  arithmetic wraps (see "Integer width").
- Negative block lengths. `file.read(-1)` reads to the end of the file; the
  model treats any negative length as a failed read.
- Dvtb.Encode: accepts only valid UTF-8 text and strings shorter than 2^31
  bytes. `bytes(s, "utf8")` raises on a string holding a lone surrogate,
  so the first condition leaves out only strings the source cannot write
  either; larger lengths would not fit the 4-byte prefix.
- Dvtb.DecodeEncode: requires that no field contains a comma or a line
  break and no list entry contains a line break. Without that, a joined
  field cannot be split back.
- Singer.Unvoiced: Python builds this list from a `set`, whose order is
  unspecified. The model lists the elements in their first-occurrence
  order, so only membership and distinctness are promised.
- Singer.OpenVb: a `version` that is not a string in the JSON metadata is
  not modelled.
- `sort` and `cut` assign `self.note` and return `self`. Here they return a
  new segment, and the caller's object is not modelled. `+` already builds
  a new segment from deep copies, and `getlyric` and `to_ust_file` change
  nothing. Both revisions define `+`, `sort`, `cut` and `to_ust_file`
  identically, so one model serves both; `getlyric`, `pos2tick` and
  `Dvfile.to_ust_file` exist only in 0.0.2.

## Findings

| source | as written | input that shows it | evidently intended | confidence | as-written member | corrected member |
|---|---|---|---|---|---|---|
| build/lib/dvfile/__init__.py:271-276 | when no marker lies after the queried bar, `beats += [...]` extends `self.beats` in place, leaving a marker behind | on a fresh list `[(-3, 1, 7)]`, `pos2tick(1)` gives 1097; on another fresh list where `pos2tick(-1)` ran first, `pos2tick(1)` gives 1096 | the position of a bar depends only on the time-signature markers | not executed | TimeSignature.Pos2TickAsWritten | TimeSignature.Pos2Tick |
| dvfile/singer.py:127-128 | `deleteemptystr` is not defined anywhere, so every supported version raises `NameError` | any 6.1 bank, e.g. a 68-byte header, then a text of five bar characters | the empty strings are removed from `tail` and `inde` | not executed | Singer.OpenVbAsWritten | Singer.OpenVb |

For the first finding, `TimeSignature.Pos2TickDependsOnHistory` proves
that the answer depends on the queries made before it.
`TimeSignature.RepeatedQueryIsStable` proves that repeating one query does
not change its answer, so the drift shows only between histories. `TimeSignature.AppendedMarkerIsHarmless` proves it cannot happen when
every beat unit divides a whole note (1, 2, 4, 8, 16 or 32), which is what
the class documents. When a `Dvfile` was built without a `beats` argument,
the list extended is the constructor's default list, shared by every such
project. The rest of the model uses the pure `TimeSignature.Pos2Tick`.

For the second finding, `Singer.EmptyListsBank` gives a concrete 6.1 file
that the corrected reader opens and the as-written one does not. The
corrected reader `Singer.OpenVb` proves that the tail and independent lists
hold no empty string.
