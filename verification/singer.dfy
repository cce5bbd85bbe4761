/** The voice bank reader `openvb`: the pure part that turns the engine
    version and the bytes of the bank's `SKI` file into a `Dvbank`. The
    `SKI` file holds a version-dependent header, one text block with the
    pronunciation lists separated by `|`, a pitch string, 56 bytes that are
    passed over and then the model records up to the end of the file. */
module Singer {
  import opened Wrappers
  import opened Bytes
  import opened Utf8
  import opened Primitive
  import opened Text
  import opened Entities

  datatype ModelEntry = ModelEntry(name: Str, pitch: Str, pointer: int)

  /** `path`, `singer` and `version` come from outside the `SKI` file (the
      directory and its `.sksd` description); everything else is read. */
  datatype Dvbank = Dvbank(
    path: string,
    singer: string,
    version: string,
    symbol: seq<seq<Str>>,
    vowel: seq<seq<Str>>,
    voicon: seq<Str>,
    unvcon: seq<Str>,
    inde: seq<Str>,
    tail: seq<Str>,
    pitch: Str,
    model: seq<ModelEntry>)

  /** The six pronunciation lists as one version's layout yields them. */
  datatype Prons = Prons(
    symbol: seq<seq<Str>>,
    vowel: seq<seq<Str>>,
    voicon: seq<Str>,
    unvcon: seq<Str>,
    inde: seq<Str>,
    tail: seq<Str>)

  const PITCH_GAP: nat := 56
  const PROBE_SIZE: nat := 4
  const PAD_SIZE: nat := 4

  /** Size of the `SKI` header for each supported engine version. Every
      version with a known header is read by exactly one of the two list
      layouts. */
  function HeadLength(version: string): (r: Option<nat>)
    ensures r.Some? <==> Newer(version) || version == "5.1" || version == "4.02"
    ensures r.Some? ==> 56 <= r.value <= 68 && r.value % 4 == 0
  {
    if version == "6.1" then Some(68)
    else if version == "6.0" then Some(64)
    else if version == "5.1" then Some(56)
    else if version == "4.02" then Some(68)
    else None
  }

  /** Versions whose layout stores all six lists. */
  predicate Newer(version: string) {
    version == "6.0" || version == "6.1"
  }

  function SplitEach(lines: seq<Str>): (r: seq<seq<Str>>)
    ensures |r| == |lines|
    ensures forall i :: 0 <= i < |r| ==> r[i] == Split(lines[i], COMMA)
    decreases |lines|
  {
    if |lines| == 0 then [] else [Split(lines[0], COMMA)] + SplitEach(lines[1..])
  }

  /** `[tuple(line.split(",")) for line in text.split(";")]`: every row is
      kept, whatever its number of fields. */
  function Rows(text: Str): (r: seq<seq<Str>>)
    ensures |r| >= 1
    ensures forall i :: 0 <= i < |r| ==> |r[i]| >= 1
  {
    SplitEach(Split(text, SEMICOLON))
  }

  /** Field `k` of every row that has one. */
  function Column(rows: seq<seq<Str>>, k: nat): (r: seq<Str>)
    ensures |r| <= |rows|
    ensures forall x :: x in r <==> exists i :: 0 <= i < |rows| && k < |rows[i]| && rows[i][k] == x
    decreases |rows|
  {
    if |rows| == 0 then []
    else
      var rest := Column(rows[1..], k);
      assert forall i :: 1 <= i < |rows| ==> rows[1..][i - 1] == rows[i];
      (if k < |rows[0]| then [rows[0][k]] else []) + rest
  }

  predicate AllWide(rows: seq<seq<Str>>, k: nat) {
    forall i :: 0 <= i < |rows| ==> k < |rows[i]|
  }

  predicate NoDuplicates(xs: seq<Str>) {
    forall i, j :: 0 <= i < j < |xs| ==> xs[i] != xs[j]
  }

  /** `xs` without repeats, each item kept where it first occurs. */
  function Distinct(xs: seq<Str>): (r: seq<Str>)
    ensures forall x :: x in r <==> x in xs
    ensures NoDuplicates(r)
    decreases |xs|
  {
    if |xs| == 0 then []
    else
      var init := xs[..|xs| - 1];
      var last := xs[|xs| - 1];
      assert xs == init + [last];
      var rest := Distinct(init);
      if last in rest then rest else rest + [last]
  }

  /** The items of `xs` that do not occur in `ys`, in order. */
  function Without(xs: seq<Str>, ys: seq<Str>): (r: seq<Str>)
    ensures |r| <= |xs|
    ensures forall x :: x in r <==> x in xs && x !in ys
    decreases |xs|
  {
    if |xs| == 0 then []
    else
      var rest := Without(xs[1..], ys);
      assert xs == [xs[0]] + xs[1..];
      (if xs[0] in ys then [] else [xs[0]]) + rest
  }

  /** `list(set(consonants) - set(voicon) - set(vowels))`. A Python set has
      no defined order; this keeps first occurrences in order. */
  function Unvoiced(consonants: seq<Str>, voicon: seq<Str>, vowels: seq<Str>): (r: seq<Str>)
    ensures forall x :: x in r <==> x in consonants && x !in voicon && x !in vowels
    ensures NoDuplicates(r)
  {
    Distinct(Without(Without(consonants, voicon), vowels))
  }

  /** The list without its empty strings, in order: what the undefined
      `deleteemptystr` helper is evidently meant to do. */
  function DeleteEmpty(xs: seq<Str>): (r: seq<Str>)
    ensures |r| <= |xs|
    ensures forall x :: x in r <==> x in xs && x != []
    decreases |xs|
  {
    if |xs| == 0 then []
    else
      var rest := DeleteEmpty(xs[1..]);
      assert xs == [xs[0]] + xs[1..];
      (if xs[0] == [] then [] else [xs[0]]) + rest
  }

  /** A list without empty strings is left as it is. */
  lemma {:induction false} DeleteEmptyKeeps(xs: seq<Str>)
    requires [] !in xs
    ensures DeleteEmpty(xs) == xs
    decreases |xs|
  {
    if |xs| > 0 {
      DeleteEmptyKeeps(xs[1..]);
      assert [xs[0]] + xs[1..] == xs;
    }
  }

  /** A list without repeats is left as it is. */
  lemma {:induction false} DistinctKeeps(xs: seq<Str>)
    requires NoDuplicates(xs)
    ensures Distinct(xs) == xs
    decreases |xs|
  {
    if |xs| > 0 {
      var init := xs[..|xs| - 1];
      assert NoDuplicates(init);
      DistinctKeeps(init);
      assert init + [xs[|xs| - 1]] == xs;
    }
  }

  /** The `|`-separated fields as the version's layout maps them. Versions
      6.0 and 6.1 store symbols, voiced consonants, unvoiced consonants,
      vowels, independent syllables and tails. Versions 5.1 and 4.02 store
      symbols, voiced consonants, vowels and tails; their unvoiced
      consonants are derived and they have no independent syllables. A
      missing field, or (for the older layout) a symbol row without a
      consonant, is an error. */
  function ParseProns(prons: seq<Str>, newer: bool): (r: Option<Prons>)
    ensures r.Some? <==> if newer then |prons| >= 6
                         else |prons| >= 4 && AllWide(Rows(prons[0]), 1)
    ensures r.Some? ==> |r.value.voicon| >= 1 && |r.value.tail| >= 1
    ensures r.Some? && !newer ==> var p := r.value;
      p.inde == [] && NoDuplicates(p.unvcon)
      && forall x :: x in p.unvcon <==>
           x in Column(p.symbol, 1) && x !in p.voicon && x !in Column(p.vowel, 0)
  {
    if newer then
      if |prons| < 6 then None
      else Some(Prons(Rows(prons[0]), Rows(prons[3]), Split(prons[1], COMMA),
                      Split(prons[2], COMMA), Split(prons[4], COMMA), Split(prons[5], COMMA)))
    else if |prons| < 4 then None
    else
      var symbol := Rows(prons[0]);
      var voicon := Split(prons[1], COMMA);
      var vowel := Rows(prons[2]);
      if !AllWide(symbol, 1) then None
      else Some(Prons(symbol, vowel, voicon, Unvoiced(Column(symbol, 1), voicon, Column(vowel, 0)),
                      [], Split(prons[3], COMMA)))
  }

  /** One model record after its four probe bytes: four bytes passed
      over, the name, the pitch and the pointer, then four bytes passed
      over where a short read is harmless. */
  function ReadModel(s: seq<Byte>): (r: Option<(ModelEntry, seq<Byte>)>)
    ensures r.Some? ==> var m := r.value.0;
      ValidUtf8(m.name) && ValidUtf8(m.pitch) && IsInt32(m.pointer)
    ensures r.Some? ==> |r.value.1| + 12 <= |s|
  {
    var body :- Skip(s, PAD_SIZE);
    var name :- ReadStrSoft(body);
    var pitch :- ReadStrSoft(name.1);
    var pointer :- ReadInt(pitch.1);
    Some((ModelEntry(name.0, pitch.0, pointer.0), SkipAtMost(pointer.1, PAD_SIZE)))
  }

  /** The model list: records follow one another while four more bytes
      can be read. */
  function ReadModels(s: seq<Byte>): (r: Option<seq<ModelEntry>>)
    ensures r.Some? ==> forall i :: 0 <= i < |r.value| ==>
      ValidUtf8(r.value[i].name) && ValidUtf8(r.value[i].pitch) && IsInt32(r.value[i].pointer)
    ensures |s| < PROBE_SIZE ==> r == Some([])
    decreases |s|
  {
    if |s| < PROBE_SIZE then Some([])
    else
      var m :- ReadModel(s[PROBE_SIZE..]);
      var more :- ReadModels(m.1);
      Some([m.0] + more)
  }

  function EmptyBank(path: string, name: string, version: string): Dvbank {
    Dvbank(path, name, version, [], [], [], [], [], [], [], [])
  }

  /** `openvb` with `deleteemptystr` doing what its name says. An
      unsupported version reads nothing and leaves every list empty. */
  function OpenVb(path: string, name: string, version: string, ski: seq<Byte>): (r: Option<Dvbank>)
    ensures HeadLength(version).None? ==> r == Some(EmptyBank(path, name, version))
    ensures r.Some? ==> r.value.path == path && r.value.singer == name && r.value.version == version
    ensures r.Some? ==> [] !in r.value.inde && [] !in r.value.tail && ValidUtf8(r.value.pitch)
    ensures r.Some? && HeadLength(version).Some? && !Newer(version) ==>
      r.value.inde == [] && NoDuplicates(r.value.unvcon)
      && forall x :: x in r.value.unvcon ==> x !in r.value.voicon
  {
    match HeadLength(version)
    case None => Some(EmptyBank(path, name, version))
    case Some(head) =>
      var body :- Skip(ski, head);
      var prons :- ReadStrSoft(body);
      var p :- ParseProns(Split(prons.0, BAR), Newer(version));
      var pitch :- ReadStrSoft(prons.1);
      var models :- ReadModels(SkipAtMost(pitch.1, PITCH_GAP));
      Some(Dvbank(path, name, version, p.symbol, p.vowel, p.voicon, p.unvcon,
                  DeleteEmpty(p.inde), DeleteEmpty(p.tail), pitch.0, models))
  }

  /** `openvb` as written: the lists are read, then the undefined
      `deleteemptystr` is called, which raises for every supported
      version. */
  function OpenVbAsWritten(path: string, name: string, version: string, ski: seq<Byte>): (r: Option<Dvbank>)
    ensures r.Some? <==> HeadLength(version).None?
  {
    match HeadLength(version)
    case None => Some(EmptyBank(path, name, version))
    case Some(head) =>
      var body :- Skip(ski, head);
      var prons :- ReadStrSoft(body);
      var p :- ParseProns(Split(prons.0, BAR), Newer(version));
      None
  }

  /** A model record as stored, with the probe and the two four-byte gaps
      the reader passes over whatever they hold. */
  datatype ModelWire = ModelWire(probe: seq<Byte>, pad: seq<Byte>, name: Str, pitch: Str,
                                 pointer: int, filler: seq<Byte>)

  predicate ModelOk(w: ModelWire) {
    && |w.probe| == PROBE_SIZE && |w.pad| == PAD_SIZE && |w.filler| == PAD_SIZE
    && ValidUtf8(w.name) && |w.name| < TWO_31
    && ValidUtf8(w.pitch) && |w.pitch| < TWO_31
    && IsInt32(w.pointer)
  }

  predicate ModelsOk(ws: seq<ModelWire>) {
    forall i :: 0 <= i < |ws| ==> ModelOk(ws[i])
  }

  function ModelLayout(w: ModelWire, rest: seq<Byte>): seq<Byte>
    requires ModelOk(w)
  {
    w.probe + (w.pad + (WriteBytes(w.name) + (WriteBytes(w.pitch) + (WriteInt(w.pointer) + (w.filler + rest)))))
  }

  ghost function ModelsLayout(ws: seq<ModelWire>, tail: seq<Byte>): seq<Byte>
    requires ModelsOk(ws)
    decreases |ws|
  {
    if |ws| == 0 then tail else ModelLayout(ws[0], ModelsLayout(ws[1..], tail))
  }

  function Entries(ws: seq<ModelWire>): (r: seq<ModelEntry>)
    ensures |r| == |ws|
    decreases |ws|
  {
    if |ws| == 0 then [] else [ModelEntry(ws[0].name, ws[0].pitch, ws[0].pointer)] + Entries(ws[1..])
  }

  lemma ReadModelLayout(w: ModelWire, rest: seq<Byte>)
    requires ModelOk(w)
    ensures ReadModel(ModelLayout(w, rest)[PROBE_SIZE..]) == Some((ModelEntry(w.name, w.pitch, w.pointer), rest))
  {
    var t3 := WriteInt(w.pointer) + (w.filler + rest);
    var t2 := WriteBytes(w.pitch) + t3;
    var t1 := WriteBytes(w.name) + t2;
    assert ModelLayout(w, rest)[PROBE_SIZE..] == w.pad + t1;
    SkipOver(w.pad, t1);
    ReadStrSoftWrite(w.name, t2);
    ReadStrSoftWrite(w.pitch, t3);
    ReadIntWrite(w.pointer, w.filler + rest);
    assert SkipAtMost(w.filler + rest, PAD_SIZE) == rest;
  }

  /** Stored model records read back as their entries, in order, when what
      follows the last one is too short for another probe. */
  lemma {:induction false} ReadModelsLayout(ws: seq<ModelWire>, tail: seq<Byte>)
    requires ModelsOk(ws) && |tail| < PROBE_SIZE
    ensures ReadModels(ModelsLayout(ws, tail)) == Some(Entries(ws))
    decreases |ws|
  {
    if |ws| > 0 {
      assert ModelOk(ws[0]);
      assert ModelsOk(ws[1..]) by {
        forall i | 0 <= i < |ws[1..]| ensures ModelOk(ws[1..][i]) {
          assert ws[1..][i] == ws[i + 1];
        }
      }
      var rest := ModelsLayout(ws[1..], tail);
      ReadModelLayout(ws[0], rest);
      ReadModelsLayout(ws[1..], tail);
    }
  }

  /** The rows of a table as stored: fields joined with `,`, rows with `;`. */
  function RowText(rows: seq<seq<Str>>): Str {
    Join(JoinFields(rows), SEMICOLON)
  }

  /** Rows that survive being stored: at least one row, at least one field
      per row, and no separator inside a field. */
  ghost predicate RowsSeparable(rows: seq<seq<Str>>) {
    && |rows| >= 1
    && forall i :: 0 <= i < |rows| ==>
         |rows[i]| >= 1 && NoneContains(rows[i], COMMA)
         && NoneContains(rows[i], SEMICOLON) && NoneContains(rows[i], BAR)
  }

  lemma SeparatorBytes()
    ensures 0x2C !in SEMICOLON && 0x2C !in BAR && 0x3B !in BAR
    ensures |COMMA| > 0 && |SEMICOLON| > 0 && |BAR| > 0
  {
  }

  /** Stored rows read back as themselves, and their text holds no `|`. */
  lemma RowsRoundTrip(rows: seq<seq<Str>>)
    requires RowsSeparable(rows)
    ensures Rows(RowText(rows)) == rows
    ensures !Contains(RowText(rows), BAR)
  {
    SeparatorBytes();
    SeparatorsBorderFree();
    var lines := JoinFields(rows);
    JoinFieldsAvoid(rows, SEMICOLON);
    JoinFieldsAvoid(rows, BAR);
    SplitJoin(lines, SEMICOLON);
    forall i | 0 <= i < |rows| ensures SplitEach(lines)[i] == rows[i] {
      SplitJoin(rows[i], COMMA);
    }
    JoinAvoids(lines, 0x3B, BAR);
  }

  /** A stored list holds no `|` when no item does. */
  lemma ListAvoidsBar(xs: seq<Str>)
    requires NoneContains(xs, BAR)
    ensures !Contains(Join(xs, COMMA), BAR)
  {
    SeparatorBytes();
    JoinAvoids(xs, 0x2C, BAR);
  }

  ghost predicate ListSeparable(xs: seq<Str>) {
    NoneContains(xs, COMMA) && NoneContains(xs, BAR)
  }

  /** The lists as a 6.0 or 6.1 bank stores them: symbols, voiced,
      unvoiced, vowels, independent syllables and tails. */
  function NewerText(p: Prons): Str {
    Join([RowText(p.symbol), Join(p.voicon, COMMA), Join(p.unvcon, COMMA),
          RowText(p.vowel), Join(p.inde, COMMA), Join(p.tail, COMMA)], BAR)
  }

  /** The lists as a 5.1 or 4.02 bank stores them: symbols, voiced,
      vowels and tails. */
  function OlderText(symbol: seq<seq<Str>>, voicon: seq<Str>, vowel: seq<seq<Str>>, tail: seq<Str>): Str {
    Join([RowText(symbol), Join(voicon, COMMA), RowText(vowel), Join(tail, COMMA)], BAR)
  }

  /** The newer layout reads back every list as stored; an empty list
      comes back as one empty string. */
  lemma NewerPronsLayout(p: Prons)
    requires RowsSeparable(p.symbol) && RowsSeparable(p.vowel)
    requires ListSeparable(p.voicon) && ListSeparable(p.unvcon)
    requires ListSeparable(p.inde) && ListSeparable(p.tail)
    ensures ParseProns(Split(NewerText(p), BAR), true)
         == Some(p.(voicon := AsRead(p.voicon), unvcon := AsRead(p.unvcon),
                    inde := AsRead(p.inde), tail := AsRead(p.tail)))
  {
    SeparatorBytes();
    SeparatorsBorderFree();
    var fields := [RowText(p.symbol), Join(p.voicon, COMMA), Join(p.unvcon, COMMA),
                   RowText(p.vowel), Join(p.inde, COMMA), Join(p.tail, COMMA)];
    RowsRoundTrip(p.symbol);
    RowsRoundTrip(p.vowel);
    ListAvoidsBar(p.voicon);
    ListAvoidsBar(p.unvcon);
    ListAvoidsBar(p.inde);
    ListAvoidsBar(p.tail);
    assert NoneContains(fields, BAR);
    SplitJoin(fields, BAR);
    ListRoundTrip(p.voicon, COMMA);
    ListRoundTrip(p.unvcon, COMMA);
    ListRoundTrip(p.inde, COMMA);
    ListRoundTrip(p.tail, COMMA);
  }

  /** The older layout reads back symbols, voiced consonants, vowels and
      tails as stored, derives the unvoiced consonants and has no
      independent syllables. */
  lemma OlderPronsLayout(symbol: seq<seq<Str>>, voicon: seq<Str>, vowel: seq<seq<Str>>, tail: seq<Str>)
    requires RowsSeparable(symbol) && RowsSeparable(vowel) && AllWide(symbol, 1)
    requires ListSeparable(voicon) && ListSeparable(tail)
    ensures ParseProns(Split(OlderText(symbol, voicon, vowel, tail), BAR), false)
         == Some(Prons(symbol, vowel, AsRead(voicon),
                       Unvoiced(Column(symbol, 1), AsRead(voicon), Column(vowel, 0)), [], AsRead(tail)))
  {
    SeparatorBytes();
    SeparatorsBorderFree();
    var fields := [RowText(symbol), Join(voicon, COMMA), RowText(vowel), Join(tail, COMMA)];
    RowsRoundTrip(symbol);
    RowsRoundTrip(vowel);
    ListAvoidsBar(voicon);
    ListAvoidsBar(tail);
    assert NoneContains(fields, BAR);
    SplitJoin(fields, BAR);
    ListRoundTrip(voicon, COMMA);
    ListRoundTrip(tail, COMMA);
  }

  /** A bank file laid out as the reader expects opens as the lists its
      text block holds (with empty strings removed from the independent
      syllables and tails), its pitch string and its model entries. */
  lemma OpenVbLayout(path: string, name: string, version: string, header: seq<Byte>, text: Str,
                     pitch: Str, gap: seq<Byte>, ws: seq<ModelWire>, tail: seq<Byte>)
    requires HeadLength(version) == Some(|header|)
    requires ValidUtf8(text) && |text| < TWO_31 && ValidUtf8(pitch) && |pitch| < TWO_31
    requires |gap| == PITCH_GAP && ModelsOk(ws) && |tail| < PROBE_SIZE
    requires ParseProns(Split(text, BAR), Newer(version)).Some?
    ensures var p := ParseProns(Split(text, BAR), Newer(version)).value;
      OpenVb(path, name, version, header + (WriteBytes(text) + (WriteBytes(pitch) + (gap + ModelsLayout(ws, tail)))))
      == Some(Dvbank(path, name, version, p.symbol, p.vowel, p.voicon, p.unvcon,
                     DeleteEmpty(p.inde), DeleteEmpty(p.tail), pitch, Entries(ws)))
  {
    var models := ModelsLayout(ws, tail);
    var t2 := gap + models;
    var t1 := WriteBytes(pitch) + t2;
    SkipOver(header, WriteBytes(text) + t1);
    ReadStrSoftWrite(text, t1);
    ReadStrSoftWrite(pitch, t2);
    assert SkipAtMost(t2, PITCH_GAP) == models;
    ReadModelsLayout(ws, tail);
  }

  /** `openvb` as written opens no bank of a supported version: whatever
      the corrected reader returns, the as-written one raises. */
  lemma AsWrittenLosesBank(path: string, name: string, version: string, ski: seq<Byte>)
    requires HeadLength(version).Some? && OpenVb(path, name, version, ski).Some?
    ensures OpenVbAsWritten(path, name, version, ski).None?
  {
  }

  function Zeros(n: nat): (r: seq<Byte>)
    ensures |r| == n
  {
    seq(n, _ => 0)
  }

  /** The text `|||||` holds six empty lists; read as a 6.x layout, every
      list is one empty string and every table one row with one empty
      field. */
  lemma EmptyListsProns()
    ensures ParseProns(Split([0x7C, 0x7C, 0x7C, 0x7C, 0x7C], BAR), true)
         == Some(Prons([[[]]], [[[]]], [[]], [[]], [[]], [[]]))
  {
    var empties: seq<Str> := [[], [], [], [], [], []];
    assert Join(empties, BAR) == [0x7C, 0x7C, 0x7C, 0x7C, 0x7C];
    assert NoneContains(empties, BAR) by {
      forall i | 0 <= i < |empties| ensures !Contains(empties[i], BAR) {
        assert forall j: nat :: !OccursAt([], BAR, j);
      }
    }
    SeparatorsBorderFree();
    ListRoundTrip(empties, BAR);
    SplitEmpty(SEMICOLON);
    SplitEmpty(COMMA);
    assert Rows([]) == [[[]]];
  }

  /** A concrete 6.1 bank: a 68-byte header, the text `|||||`, an empty
      pitch string, the 56-byte gap and no models. The corrected reader
      opens it; the code as written raises. */
  lemma EmptyListsBank()
    ensures var ski := Zeros(68) + (WriteBytes([0x7C, 0x7C, 0x7C, 0x7C, 0x7C]) + (WriteBytes([]) + (Zeros(56) + [])));
      OpenVb("", "", "6.1", ski) == Some(Dvbank("", "", "6.1", [[[]]], [[[]]], [[]], [[]], [], [], [], []))
      && OpenVbAsWritten("", "", "6.1", ski) == None
  {
    var text: Str := [0x7C, 0x7C, 0x7C, 0x7C, 0x7C];
    EmptyListsProns();
    assert IsAscii(text);
    AsciiIsValid(text);
    assert ModelsLayout([], []) == [];
    OpenVbLayout("", "", "6.1", Zeros(68), text, [], Zeros(56), [], []);
    assert DeleteEmpty([[]]) == [];
  }
}
