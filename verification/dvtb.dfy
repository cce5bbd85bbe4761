/** The toolbox project file (`.dvtb`): `Dvtbfile.__bytes__` writes it and
    `opendvtb` reads it back. After a fixed 27-byte tag come six text blocks
    (the pronunciation dictionary), a count-prefixed list of wave-file paths
    and the build settings. List fields are stored as text joined with CR LF
    or `,`, and the reader splits them apart again. */
module Dvtb {
  import opened Wrappers
  import opened Bytes
  import opened Utf8
  import opened Primitive
  import opened Text
  import opened Entities

  /** `symbol` holds (syllable, consonant, vowel) entries and `vowel` holds
      (vowel, source) entries, each as the list of its fields. */
  datatype Dvtb = Dvtb(
    symbol: seq<seq<Str>>,
    vowel: seq<seq<Str>>,
    voicon: seq<Str>,
    unvcon: seq<Str>,
    inde: seq<Str>,
    tail: seq<Str>,
    wavpath: seq<Str>,
    buildAllModels: bool,
    buildWhichModels: Str,
    modelPath: Str,
    outputPath: Str,
    pitch: seq<Str>,
    singer: Str)

  const SYMBOL_FIELDS: nat := 3
  const VOWEL_FIELDS: nat := 2

  /** "SHARPKEYTOOLBOX", then 01 00 00 00, 12 13 and six zero bytes. */
  const TAG: seq<Byte> :=
    [0x53, 0x48, 0x41, 0x52, 0x50, 0x4B, 0x45, 0x59, 0x54, 0x4F, 0x4F, 0x4C, 0x42, 0x4F, 0x58,
     0x01, 0x00, 0x00, 0x00, 0x12, 0x13, 0x00, 0x00, 0x00, 0x00, 0x00, 0x00]

  const TAG_SIZE: nat := 27

  lemma TagSize()
    ensures |TAG| == TAG_SIZE
  {
  }

  /** The entries of `entries` with exactly `arity` fields, in order. */
  function Fit(entries: seq<seq<Str>>, arity: nat): (r: seq<seq<Str>>)
    ensures |r| <= |entries|
    ensures forall e :: e in r <==> e in entries && |e| == arity
    decreases |entries|
  {
    if |entries| == 0 then []
    else (if |entries[0]| == arity then [entries[0]] else []) + Fit(entries[1..], arity)
  }

  /** A table field as written: its lines joined with CR LF. */
  function TableText(entries: seq<seq<Str>>): Str {
    Join(JoinFields(entries), CRLF)
  }

  /** The entries of `lines` that split on `,` into exactly `arity` fields;
      every other line is dropped. */
  function Table(lines: seq<Str>, arity: nat): (r: seq<seq<Str>>)
    ensures |r| <= |lines|
    ensures forall i :: 0 <= i < |r| ==> |r[i]| == arity
    decreases |lines|
  {
    if |lines| == 0 then []
    else
      var fields := Split(lines[0], COMMA);
      (if |fields| == arity then [fields] else []) + Table(lines[1..], arity)
  }

  /** `count` soft strings in a row (`range(0, count)` is empty when the
      count is negative). */
  function ReadStrs(s: seq<Byte>, count: int): (r: Option<(seq<Str>, seq<Byte>)>)
    ensures r.Some? ==> |r.value.0| == (if count <= 0 then 0 else count)
    ensures r.Some? ==> AllValid(r.value.0)
    decreases count
  {
    if count <= 0 then Some(([], s))
    else
      var x :- ReadStrSoft(s);
      var more :- ReadStrs(x.1, count - 1);
      Some(([x.0] + more.0, more.1))
  }

  function WriteStrs(xs: seq<Str>): (r: seq<Byte>)
    requires forall i :: 0 <= i < |xs| ==> |xs[i]| < TWO_31
    decreases |xs|
  {
    if |xs| == 0 then [] else WriteBytes(xs[0]) + WriteStrs(xs[1..])
  }

  predicate EntriesValid(entries: seq<seq<Str>>) {
    forall i :: 0 <= i < |entries| ==> AllValid(entries[i])
  }

  predicate Short(xs: seq<Str>) {
    forall i :: 0 <= i < |xs| ==> |xs[i]| < TWO_31
  }

  /** What the writer can serialise: every text field is a string (valid
      UTF-8) and every block, and the path count, fits a 4-byte length. */
  predicate WellFormed(d: Dvtb) {
    && EntriesValid(d.symbol) && EntriesValid(d.vowel)
    && AllValid(d.voicon) && AllValid(d.unvcon) && AllValid(d.inde) && AllValid(d.tail)
    && AllValid(d.wavpath) && AllValid(d.pitch)
    && ValidUtf8(d.buildWhichModels) && ValidUtf8(d.modelPath)
    && ValidUtf8(d.outputPath) && ValidUtf8(d.singer)
    && |TableText(d.symbol)| < TWO_31 && |TableText(d.vowel)| < TWO_31
    && |Join(d.voicon, CRLF)| < TWO_31 && |Join(d.unvcon, CRLF)| < TWO_31
    && |Join(d.inde, CRLF)| < TWO_31 && |Join(d.tail, CRLF)| < TWO_31
    && |d.wavpath| < TWO_31 && Short(d.wavpath)
    && |d.buildWhichModels| < TWO_31 && |d.modelPath| < TWO_31
    && |d.outputPath| < TWO_31 && |Join(d.pitch, COMMA)| < TWO_31
    && |d.singer| < TWO_31
  }

  /** The settings part of the file, from the build flag to the singer
      name, followed by `rest`. */
  function EncodeSettings(d: Dvtb, rest: seq<Byte>): seq<Byte>
    requires WellFormed(d)
  {
    WriteBool(d.buildAllModels)
    + (WriteBytes(d.buildWhichModels)
    + (WriteBytes(d.modelPath)
    + (WriteBytes(d.outputPath)
    + (WriteBytes(Join(d.pitch, COMMA))
    + (WriteBytes(d.singer) + rest)))))
  }

  /** The six dictionary blocks, followed by `rest`. */
  function EncodeDictionary(d: Dvtb, rest: seq<Byte>): seq<Byte>
    requires WellFormed(d)
  {
    WriteBytes(TableText(d.symbol))
    + (WriteBytes(TableText(d.vowel))
    + (WriteBytes(Join(d.voicon, CRLF))
    + (WriteBytes(Join(d.unvcon, CRLF))
    + (WriteBytes(Join(d.inde, CRLF))
    + (WriteBytes(Join(d.tail, CRLF)) + rest)))))
  }

  /** `bytes(d)`: the tag, the dictionary, the path count and paths, and
      the settings. */
  function Encode(d: Dvtb): (r: seq<Byte>)
    requires WellFormed(d)
    ensures |r| > TAG_SIZE && r[..TAG_SIZE] == TAG
  {
    TAG + EncodeDictionary(d, WriteInt(|d.wavpath|) + (WriteStrs(d.wavpath) + EncodeSettings(d, [])))
  }

  /** The settings part: the flag byte (true only for 0x01), three strings,
      the `,`-joined pitch list and the singer name. */
  function ReadSettings(s: seq<Byte>): (r: Option<(bool, Str, Str, Str, seq<Str>, Str)>)
    ensures r.Some? ==> |s| >= 1 && (r.value.0 <==> s[0] == 1)
    ensures r.Some? ==> (ValidUtf8(r.value.1) && ValidUtf8(r.value.2)
      && ValidUtf8(r.value.3) && ValidUtf8(r.value.5))
    ensures r.Some? ==> |r.value.4| >= 1
  {
    var all :- ReadFlag(s);
    var which :- ReadStrSoft(all.1);
    var model :- ReadStrSoft(which.1);
    var output :- ReadStrSoft(model.1);
    var pitch :- ReadStrSoft(output.1);
    var singer :- ReadStrSoft(pitch.1);
    Some((all.0, which.0, model.0, output.0, Split(pitch.0, COMMA), singer.0))
  }

  /** The six dictionary blocks, as text. */
  function ReadDictionary(s: seq<Byte>): (r: Option<((Str, Str, Str, Str, Str, Str), seq<Byte>)>)
    ensures r.Some? ==> var t := r.value.0;
      ValidUtf8(t.0) && ValidUtf8(t.1) && ValidUtf8(t.2)
      && ValidUtf8(t.3) && ValidUtf8(t.4) && ValidUtf8(t.5)
  {
    var symbol :- ReadStrSoft(s);
    var vowel :- ReadStrSoft(symbol.1);
    var voicon :- ReadStrSoft(vowel.1);
    var unvcon :- ReadStrSoft(voicon.1);
    var inde :- ReadStrSoft(unvcon.1);
    var tail :- ReadStrSoft(inde.1);
    Some(((symbol.0, vowel.0, voicon.0, unvcon.0, inde.0, tail.0), tail.1))
  }

  /** `opendvtb`: skip the tag whatever it holds, read the dictionary and
      split its tables and lists, read the counted paths, then the
      settings. Bytes after the singer name are never looked at. */
  function Decode(s: seq<Byte>): (r: Option<Dvtb>)
    ensures r.Some? ==> |s| > TAG_SIZE
    ensures r.Some? ==> var d := r.value;
      (forall i :: 0 <= i < |d.symbol| ==> |d.symbol[i]| == SYMBOL_FIELDS)
      && (forall i :: 0 <= i < |d.vowel| ==> |d.vowel[i]| == VOWEL_FIELDS)
      && |d.voicon| >= 1 && |d.unvcon| >= 1 && |d.inde| >= 1 && |d.tail| >= 1
      && |d.pitch| >= 1 && AllValid(d.wavpath)
      && ValidUtf8(d.buildWhichModels) && ValidUtf8(d.modelPath)
      && ValidUtf8(d.outputPath) && ValidUtf8(d.singer)
  {
    var body :- Skip(s, TAG_SIZE);
    var dict :- ReadDictionary(body);
    var count :- ReadInt(dict.1);
    var wav :- ReadStrs(count.1, count.0);
    var settings :- ReadSettings(wav.1);
    var t := dict.0;
    Some(Dvtb(
      Table(Split(t.0, CRLF), SYMBOL_FIELDS), Table(Split(t.1, CRLF), VOWEL_FIELDS),
      Split(t.2, CRLF), Split(t.3, CRLF), Split(t.4, CRLF), Split(t.5, CRLF),
      wav.0,
      settings.0, settings.1, settings.2, settings.3, settings.4, settings.5))
  }

  /** Separators the writer cannot escape: table fields hold neither `,`
      nor CR LF, list items hold no CR LF, pitch names hold no `,`. */
  ghost predicate Separable(d: Dvtb) {
    && (forall i :: 0 <= i < |d.symbol| ==> NoneContains(d.symbol[i], COMMA) && NoneContains(d.symbol[i], CRLF))
    && (forall i :: 0 <= i < |d.vowel| ==> NoneContains(d.vowel[i], COMMA) && NoneContains(d.vowel[i], CRLF))
    && NoneContains(d.voicon, CRLF) && NoneContains(d.unvcon, CRLF)
    && NoneContains(d.inde, CRLF) && NoneContains(d.tail, CRLF)
    && NoneContains(d.pitch, COMMA)
  }

  /** What the reader gives back for `d`: entries of the wrong width are
      dropped and an empty list comes back as one empty string. */
  function Reread(d: Dvtb): (r: Dvtb)
    ensures r.wavpath == d.wavpath && r.singer == d.singer
  {
    d.(symbol := Fit(d.symbol, SYMBOL_FIELDS), vowel := Fit(d.vowel, VOWEL_FIELDS),
       voicon := AsRead(d.voicon), unvcon := AsRead(d.unvcon),
       inde := AsRead(d.inde), tail := AsRead(d.tail), pitch := AsRead(d.pitch))
  }

  lemma SeparatorsAreAscii()
    ensures IsAscii(COMMA) && IsAscii(CRLF)
    ensures 0x2C !in CRLF
  {
  }

  /** A written list item reads back as itself and leaves the cursor right
      after the list. */
  lemma {:induction false} ReadStrsWrite(xs: seq<Str>, rest: seq<Byte>)
    requires AllValid(xs) && Short(xs)
    ensures ReadStrs(WriteStrs(xs) + rest, |xs|) == Some((xs, rest))
    decreases |xs|
  {
    if |xs| > 0 {
      assert ValidUtf8(xs[0]);
      assert AllValid(xs[1..]) && Short(xs[1..]) by {
        forall i | 0 <= i < |xs[1..]| ensures ValidUtf8(xs[1..][i]) && |xs[1..][i]| < TWO_31 {
          assert xs[1..][i] == xs[i + 1];
        }
      }
      var more := WriteStrs(xs[1..]) + rest;
      assert WriteStrs(xs) + rest == WriteBytes(xs[0]) + more;
      ReadStrSoftWrite(xs[0], more);
      ReadStrsWrite(xs[1..], rest);
      assert [xs[0]] + xs[1..] == xs;
      assert |xs| - 1 == |xs[1..]|;
    } else {
      assert WriteStrs(xs) + rest == rest;
    }
  }

  /** Reading back the lines of a table keeps exactly the entries of the
      expected width, provided no field holds a `,`. */
  lemma {:induction false} TableLines(entries: seq<seq<Str>>, arity: nat)
    requires arity >= 2
    requires forall i :: 0 <= i < |entries| ==> NoneContains(entries[i], COMMA)
    ensures Table(JoinFields(entries), arity) == Fit(entries, arity)
    decreases |entries|
  {
    if |entries| > 0 {
      var e := entries[0];
      assert NoneContains(e, COMMA);
      SeparatorsBorderFree();
      if |e| == 0 {
        SplitEmpty(COMMA);
      } else {
        SplitJoin(e, COMMA);
      }
      assert JoinFields(entries)[1..] == JoinFields(entries[1..]);
      TableLines(entries[1..], arity);
    }
  }

  /** A written table reads back as its entries of the expected width. */
  lemma TableRoundTrip(entries: seq<seq<Str>>, arity: nat)
    requires arity >= 2
    requires forall i :: 0 <= i < |entries| ==> NoneContains(entries[i], COMMA) && NoneContains(entries[i], CRLF)
    ensures Table(Split(TableText(entries), CRLF), arity) == Fit(entries, arity)
  {
    SeparatorsBorderFree();
    if |entries| == 0 {
      SplitEmpty(CRLF);
      SplitEmpty(COMMA);
    } else {
      SeparatorsAreAscii();
      JoinFieldsAvoid(entries, CRLF);
      SplitJoin(JoinFields(entries), CRLF);
      TableLines(entries, arity);
    }
  }

  lemma TableTextValid(entries: seq<seq<Str>>)
    requires EntriesValid(entries)
    ensures ValidUtf8(TableText(entries))
  {
    SeparatorsAreAscii();
    JoinFieldsValid(entries);
    JoinValid(JoinFields(entries), CRLF);
  }

  lemma ReadDictionaryWrite(d: Dvtb, rest: seq<Byte>)
    requires WellFormed(d)
    ensures ReadDictionary(EncodeDictionary(d, rest))
         == Some(((TableText(d.symbol), TableText(d.vowel), Join(d.voicon, CRLF),
                   Join(d.unvcon, CRLF), Join(d.inde, CRLF), Join(d.tail, CRLF)), rest))
  {
    SeparatorsAreAscii();
    TableTextValid(d.symbol);
    TableTextValid(d.vowel);
    JoinValid(d.voicon, CRLF);
    JoinValid(d.unvcon, CRLF);
    JoinValid(d.inde, CRLF);
    JoinValid(d.tail, CRLF);
    var t5 := WriteBytes(Join(d.tail, CRLF)) + rest;
    var t4 := WriteBytes(Join(d.inde, CRLF)) + t5;
    var t3 := WriteBytes(Join(d.unvcon, CRLF)) + t4;
    var t2 := WriteBytes(Join(d.voicon, CRLF)) + t3;
    var t1 := WriteBytes(TableText(d.vowel)) + t2;
    ReadStrSoftWrite(TableText(d.symbol), t1);
    ReadStrSoftWrite(TableText(d.vowel), t2);
    ReadStrSoftWrite(Join(d.voicon, CRLF), t3);
    ReadStrSoftWrite(Join(d.unvcon, CRLF), t4);
    ReadStrSoftWrite(Join(d.inde, CRLF), t5);
    ReadStrSoftWrite(Join(d.tail, CRLF), rest);
  }

  lemma ReadSettingsWrite(d: Dvtb, rest: seq<Byte>)
    requires WellFormed(d)
    ensures ReadSettings(EncodeSettings(d, rest))
         == Some((d.buildAllModels, d.buildWhichModels, d.modelPath, d.outputPath,
                  Split(Join(d.pitch, COMMA), COMMA), d.singer))
  {
    SeparatorsAreAscii();
    JoinValid(d.pitch, COMMA);
    var t4 := WriteBytes(d.singer) + rest;
    var t3 := WriteBytes(Join(d.pitch, COMMA)) + t4;
    var t2 := WriteBytes(d.outputPath) + t3;
    var t1 := WriteBytes(d.modelPath) + t2;
    var t0 := WriteBytes(d.buildWhichModels) + t1;
    ReadFlagWrite(d.buildAllModels, t0);
    ReadStrSoftWrite(d.buildWhichModels, t1);
    ReadStrSoftWrite(d.modelPath, t2);
    ReadStrSoftWrite(d.outputPath, t3);
    ReadStrSoftWrite(Join(d.pitch, COMMA), t4);
    ReadStrSoftWrite(d.singer, rest);
  }

  /** Reading a written file gives back every field, with entries of the
      wrong width dropped and empty lists read as one empty string. */
  lemma DecodeEncode(d: Dvtb)
    requires WellFormed(d) && Separable(d)
    ensures Decode(Encode(d)) == Some(Reread(d))
  {
    var settings := EncodeSettings(d, []);
    var wavs := WriteStrs(d.wavpath) + settings;
    var counted := WriteInt(|d.wavpath|) + wavs;
    SkipOver(TAG, EncodeDictionary(d, counted));
    ReadDictionaryWrite(d, counted);
    ReadIntWrite(|d.wavpath|, wavs);
    ReadStrsWrite(d.wavpath, settings);
    ReadSettingsWrite(d, []);
    TableRoundTrip(d.symbol, SYMBOL_FIELDS);
    TableRoundTrip(d.vowel, VOWEL_FIELDS);
    SeparatorsBorderFree();
    ListRoundTrip(d.voicon, CRLF);
    ListRoundTrip(d.unvcon, CRLF);
    ListRoundTrip(d.inde, CRLF);
    ListRoundTrip(d.tail, CRLF);
    ListRoundTrip(d.pitch, COMMA);
  }

  /** The exact round trip: with tables of the right width and non-empty
      lists, reading a written file gives back the same file. */
  lemma RoundTrip(d: Dvtb)
    requires WellFormed(d) && Separable(d)
    requires forall i :: 0 <= i < |d.symbol| ==> |d.symbol[i]| == SYMBOL_FIELDS
    requires forall i :: 0 <= i < |d.vowel| ==> |d.vowel[i]| == VOWEL_FIELDS
    requires |d.voicon| > 0 && |d.unvcon| > 0 && |d.inde| > 0 && |d.tail| > 0 && |d.pitch| > 0
    ensures Decode(Encode(d)) == Some(d)
  {
    DecodeEncode(d);
    FitAll(d.symbol, SYMBOL_FIELDS);
    FitAll(d.vowel, VOWEL_FIELDS);
  }

  lemma {:induction false} FitAll(entries: seq<seq<Str>>, arity: nat)
    requires forall i :: 0 <= i < |entries| ==> |entries[i]| == arity
    ensures Fit(entries, arity) == entries
    decreases |entries|
  {
    if |entries| > 0 {
      FitAll(entries[1..], arity);
    }
  }

  /** Empty tables are written as the empty string and read back empty. */
  lemma EmptyTables(d: Dvtb)
    requires WellFormed(d) && Separable(d)
    requires d.symbol == [] && d.vowel == []
    ensures Decode(Encode(d)).Some?
    ensures Decode(Encode(d)).value.symbol == [] && Decode(Encode(d)).value.vowel == []
  {
    DecodeEncode(d);
  }

  /** An empty list field is written as the empty string and read back as
      one empty string. */
  lemma EmptyLists(d: Dvtb)
    requires WellFormed(d) && Separable(d)
    requires d.voicon == [] && d.pitch == []
    ensures Decode(Encode(d)).Some?
    ensures Decode(Encode(d)).value.voicon == [[]] && Decode(Encode(d)).value.pitch == [[]]
  {
    DecodeEncode(d);
  }
}
