/** The entities of a DV project as the readers build them: notes inside
    segments inside tracks, plus the tempo and time-signature marker lists.
    Text fields hold UTF-8 bytes. */
module Entities {
  import opened Bytes

  type Str = seq<Byte>

  /** The ornament fields of a note. The 0.0.1 reader builds notes without
      them (`NoOrnament`); the 0.0.2 reader keeps the five values it reads. */
  datatype Ornament =
    | NoOrnament
    | Ornament(benlen: int, bendep: int, porhead: int, portail: int, timbre: int)

  /** A note; `start` is relative to its segment, 480 ticks per beat. */
  datatype Note = Note(start: int, length: int, notenum: int,
                       pinyin: Str, hanzi: Str, ornament: Ornament)

  /** A segment; `start` counts from bar -3 of the project timeline. */
  datatype Segment = Segment(start: int, length: int, name: Str, vbname: Str,
                             notes: seq<Note>)

  datatype Track = Track(name: Str, segments: seq<Segment>, volume: int,
                         mute: bool, solo: bool)

  /** A tempo marker; the tempo in beats per minute is `hundredths / 100`. */
  datatype Tempo = Tempo(tick: int, hundredths: int)

  /** A time-signature marker: from bar `bar` on, `perBar` beats of a
      `1/unit` note each. */
  datatype Beat = Beat(bar: int, perBar: int, unit: int)

  datatype Project = Project(tempo: seq<Tempo>, beats: seq<Beat>, tracks: seq<Track>)

  function End(n: Note): int {
    n.start + n.length
  }

  /** The lyric a converter uses for a note: hanzi or pinyin. */
  function Lyric(n: Note, useHanzi: bool): Str {
    if useHanzi then n.hanzi else n.pinyin
  }

  /** `Dvsegment(start, length)` with every optional argument defaulted. */
  function EmptySegment(start: int, length: int): Segment {
    Segment(start, length, [], [], [])
  }
}
