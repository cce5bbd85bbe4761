/** The primitive codec shared by every reader and writer of the system
    (`skread*` / `skwrite*`): 4-byte integers, length-prefixed byte blocks,
    UTF-8 strings, one-byte booleans and count-prefixed lists. A reader takes
    the unread input and returns the value together with what is left after
    it; `None` stands for input that ends before the read completes. */
module Primitive {
  import opened Wrappers
  import opened Bytes
  import opened Utf8

  /** `skreadint`: a signed 4-byte little-endian integer. */
  function ReadInt(s: seq<Byte>): (r: Option<(int, seq<Byte>)>)
    ensures r.Some? <==> |s| >= 4
    ensures r.Some? ==> r.value.0 == DecodeInt32(s[..4]) && r.value.1 == s[4..]
  {
    if |s| < 4 then None else Some((DecodeInt32(s[..4]), s[4..]))
  }

  /** `file.read(n)` whose result is discarded. */
  function Skip(s: seq<Byte>, n: nat): (r: Option<seq<Byte>>)
    ensures r.Some? <==> |s| >= n
    ensures r.Some? ==> s == s[..n] + r.value
  {
    if |s| < n then None else Some(s[n..])
  }

  /** `file.read(n)` whose result is discarded, where a short read is
      harmless: whatever is left, up to `n` bytes, is passed over. */
  function SkipAtMost(s: seq<Byte>, n: nat): (r: seq<Byte>)
    ensures |r| == (if |s| < n then 0 else |s| - n)
    ensures s == s[..|s| - |r|] + r
  {
    if |s| < n then [] else s[n..]
  }

  /** `skreadbytes`: a 4-byte length `n`, then `n` raw bytes. */
  function ReadBytes(s: seq<Byte>): (r: Option<(seq<Byte>, seq<Byte>)>)
    ensures r.Some? <==> |s| >= 4 && 0 <= DecodeInt32(s[..4]) <= |s| - 4
    ensures r.Some? ==> |r.value.0| == DecodeInt32(s[..4])
    ensures r.Some? ==> s == s[..4] + r.value.0 + r.value.1
  {
    var n :- ReadInt(s);
    if n.0 < 0 || |n.1| < n.0 then None
    else Some((n.1[..n.0], n.1[n.0..]))
  }

  /** `skreadstr` of the project reader: a block that must decode as UTF-8;
      a block that does not makes the whole read fail. */
  function ReadStrStrict(s: seq<Byte>): (r: Option<(seq<Byte>, seq<Byte>)>)
    ensures r.Some? <==> ReadBytes(s).Some? && ValidUtf8(ReadBytes(s).value.0)
    ensures r.Some? ==> r == ReadBytes(s)
  {
    var b :- ReadBytes(s);
    if ValidUtf8(b.0) then Some(b) else None
  }

  /** `skreadstr` of the toolbox and voice-bank readers: a block that does
      not decode as UTF-8 reads as the empty string instead of failing. */
  function ReadStrSoft(s: seq<Byte>): (r: Option<(seq<Byte>, seq<Byte>)>)
    ensures r.Some? <==> ReadBytes(s).Some?
    ensures r.Some? ==> r.value.1 == ReadBytes(s).value.1
    ensures r.Some? ==> ValidUtf8(r.value.0)
    ensures r.Some? ==> (r.value.0 == ReadBytes(s).value.0 <==> ValidUtf8(ReadBytes(s).value.0))
  {
    var b :- ReadBytes(s);
    if ValidUtf8(b.0) then Some(b) else Some(([], b.1))
  }

  /** `file.read(1) == b'\x01'`. */
  function ReadFlag(s: seq<Byte>): (r: Option<(bool, seq<Byte>)>)
    ensures r.Some? <==> |s| >= 1
    ensures r.Some? ==> (r.value.0 <==> s[0] == 1) && r.value.1 == s[1..]
  {
    if |s| < 1 then None else Some((s[0] == 1, s[1..]))
  }

  /** `skwriteint`. */
  function WriteInt(x: int): (r: seq<Byte>)
    requires IsInt32(x)
    ensures |r| == 4
    ensures DecodeInt32(r) == x
  {
    DecodeEncodeInt32(x);
    EncodeInt32(x)
  }

  /** `skwritebytes` (and `skwritestr` on the encoded text). */
  function WriteBytes(b: seq<Byte>): (r: seq<Byte>)
    requires |b| < TWO_31
    ensures |r| == 4 + |b| && r[4..] == b
  {
    WriteInt(|b|) + b
  }

  /** `skwritebool`. */
  function WriteBool(b: bool): (r: seq<Byte>)
    ensures |r| == 1 && (r[0] == 1 <==> b)
  {
    [if b then 1 else 0]
  }

  function Concat(items: seq<seq<Byte>>): seq<Byte>
    decreases |items|
  {
    if |items| == 0 then [] else items[0] + Concat(items[1..])
  }

  /** `skwritelist`: a block holding the element count followed by the
      elements' own serialised forms. */
  function WriteList(items: seq<seq<Byte>>): (r: seq<Byte>)
    requires |items| < TWO_31 && 4 + |Concat(items)| < TWO_31
    ensures |r| == 8 + |Concat(items)|
    ensures ReadInt(r) == Some((4 + |Concat(items)|, r[4..]))
    ensures ReadInt(r[4..]) == Some((|items|, Concat(items)))
  {
    WriteBytes(WriteInt(|items|) + Concat(items))
  }

  lemma ReadIntWrite(x: int, rest: seq<Byte>)
    requires IsInt32(x)
    ensures ReadInt(WriteInt(x) + rest) == Some((x, rest))
  {
    var s := WriteInt(x) + rest;
    assert s[..4] == WriteInt(x);
    assert s[4..] == rest;
    DecodeEncodeInt32(x);
  }

  /** A written block reads back as itself and leaves the cursor right after
      it. */
  lemma ReadBytesWrite(b: seq<Byte>, rest: seq<Byte>)
    requires |b| < TWO_31
    ensures ReadBytes(WriteBytes(b) + rest) == Some((b, rest))
  {
    ReadIntWrite(|b|, b + rest);
    assert WriteBytes(b) + rest == WriteInt(|b|) + (b + rest);
    assert (b + rest)[..|b|] == b;
    assert (b + rest)[|b|..] == rest;
  }

  lemma ReadStrStrictWrite(b: seq<Byte>, rest: seq<Byte>)
    requires |b| < TWO_31 && ValidUtf8(b)
    ensures ReadStrStrict(WriteBytes(b) + rest) == Some((b, rest))
  {
    ReadBytesWrite(b, rest);
  }

  lemma ReadStrSoftWrite(b: seq<Byte>, rest: seq<Byte>)
    requires |b| < TWO_31 && ValidUtf8(b)
    ensures ReadStrSoft(WriteBytes(b) + rest) == Some((b, rest))
  {
    ReadBytesWrite(b, rest);
  }

  /** A block that is not UTF-8 reads as the empty string and the cursor
      still moves past it. */
  lemma ReadStrSoftInvalid(b: seq<Byte>, rest: seq<Byte>)
    requires |b| < TWO_31 && !ValidUtf8(b)
    ensures ReadStrSoft(WriteBytes(b) + rest) == Some(([], rest))
    ensures ReadStrStrict(WriteBytes(b) + rest) == None
  {
    ReadBytesWrite(b, rest);
  }

  /** Skipped bytes are passed over whatever they hold. */
  lemma SkipOver(pad: seq<Byte>, rest: seq<Byte>)
    ensures Skip(pad + rest, |pad|) == Some(rest)
  {
    assert (pad + rest)[|pad|..] == rest;
  }

  lemma ReadFlagWrite(b: bool, rest: seq<Byte>)
    ensures ReadFlag(WriteBool(b) + rest) == Some((b, rest))
  {
    assert (WriteBool(b) + rest)[1..] == rest;
  }

  /** A written list is one block whose first four bytes are the element
      count and whose remainder is the elements back to back. */
  lemma ReadListWrite(items: seq<seq<Byte>>, rest: seq<Byte>)
    requires |items| < TWO_31 && 4 + |Concat(items)| < TWO_31
    ensures ReadBytes(WriteList(items) + rest).Some?
    ensures var body := ReadBytes(WriteList(items) + rest).value;
      body.1 == rest && ReadInt(body.0) == Some((|items|, Concat(items)))
  {
    ReadBytesWrite(WriteInt(|items|) + Concat(items), rest);
    ReadIntWrite(|items|, Concat(items));
  }
}
