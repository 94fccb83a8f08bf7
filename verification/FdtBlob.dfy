/** Reading a flattened device tree: fdt_offset_ptr, fdt_next_tag (lib/libfdt/fdt.c) and
    fdt_get_string (lib/libfdt/fdt_ro.c), for blobs of version 17. The words of the header are kept
    apart from the bytes of the blob. */
module FdtBlob {

  import opened Common
  import opened Blocks

  const MAGIC: Word := 0xd00d_feed
  const SW_MAGIC: Word := 0x2ff2_0112
  const LAST_SUPPORTED: Word := 0x11
  const LAST_COMPATIBLE: Word := 0x10
  const FIRST_SUPPORTED: Word := 0x02
  const INT32_MAX: nat := 0x7FFF_FFFF
  const UINT: nat := 0x1_0000_0000

  const BEGIN_NODE: Word := 1
  const END_NODE: Word := 2
  const PROP: Word := 3
  const NOP: Word := 4
  const END: Word := 9

  const ERR_TRUNCATED: int := 8
  const ERR_BADSTRUCTURE: int := 11

  /** The error codes, and three outcomes that are none: Broken(n) passes a negative number on, Internal
      is the code for a library bug, and Overrun stands for a copy that would leave the buffer. */
  datatype Error =
    | Ok | NotFound | Exists | NoSpace | BadOffset | BadState | BadMagic | BadStructure | BadFlags
    | Internal | Overrun | Broken(next: int)

  datatype Header = Header(magic: Word, totalsize: Word, offStruct: Word, offStrings: Word, version: Word,
                           lastComp: Word, sizeStrings: Word, sizeStruct: Word)

  datatype Blob = Blob(h: Header, bytes: seq<Byte>)

  // Big-endian words and alignment.

  function Big(w: Word): (s: seq<Byte>)
    ensures |s| == 4
  {
    var t := WordBytes(w);
    [t[3], t[2], t[1], t[0]]
  }

  function Load(bytes: seq<Byte>, p: nat): Word
    requires p + 4 <= |bytes|
  {
    Little(bytes[p + 3], bytes[p + 2], bytes[p + 1], bytes[p])
  }

  lemma LoadBig(bytes: seq<Byte>, p: nat, w: Word)
    requires p + 4 <= |bytes| && bytes[p..p + 4] == Big(w)
    ensures Load(bytes, p) == w
  {
    var s := bytes[p..p + 4];
    assert bytes[p] == s[0] && bytes[p + 1] == s[1] && bytes[p + 2] == s[2] && bytes[p + 3] == s[3];
  }

  function Align(n: int): int {
    (n + 3) / 4 * 4
  }

  /** A sum kept in a C int. */
  function ToInt(x: int): int {
    var y := x % UINT;
    if y <= INT32_MAX then y else y - UINT
  }

  // The reader.

  /** The index in the blob of len bytes at this offset of the structure block, if they are inside. */
  function OffsetPtr(h: Header, offset: int, len: nat): Option<nat> {
    if offset < 0 then None
    else
      var abs := (offset + h.offStruct) % UINT;
      if abs < offset || (abs + len) % UINT < abs || (abs + len) % UINT > h.totalsize then None
      else if h.version >= 0x11 && ((offset + len) % UINT < offset || (offset + len) % UINT > h.sizeStruct) then None
      else Some(abs)
  }

  /** The header fits the buffer: what the reader needs to stay inside it. */
  ghost predicate Fits(b: Blob) {
    b.h.totalsize <= |b.bytes|
  }

  lemma PtrInside(b: Blob, offset: int, len: nat)
    requires Fits(b) && 0 < len < UINT
    ensures OffsetPtr(b.h, offset, len).Some? ==> OffsetPtr(b.h, offset, len).value + len <= |b.bytes|
  {
  }

  /** The offset behind the NUL of the string at offset, or None if the block ends before it. */
  function NameEnd(b: Blob, offset: int): (r: Option<int>)
    requires Fits(b)
    ensures r.Some? ==> r.value > offset
    decreases if offset < 0 then 0 else UINT - offset
  {
    var p := OffsetPtr(b.h, offset, 1);
    PtrInside(b, offset, 1);
    if p.None? then None
    else if b.bytes[p.value] == 0 then Some(offset + 1)
    else if offset >= INT32_MAX then None
    else NameEnd(b, offset + 1)
  }

  /** The byte at this offset of the structure block. */
  function ByteIn(b: Blob, offset: int): Option<Byte>
    requires Fits(b)
  {
    var p := OffsetPtr(b.h, offset, 1);
    PtrInside(b, offset, 1);
    if p.None? then None else Some(b.bytes[p.value])
  }

  /** A name runs from start to its NUL in front of end. */
  ghost predicate NameRuns(b: Blob, start: int, end: int)
    requires Fits(b)
  {
    start < end && ByteIn(b, end - 1) == Some(0) && forall o :: start <= o < end - 1 ==> Letter(b, o)
  }

  ghost predicate Letter(b: Blob, o: int)
    requires Fits(b)
  {
    ByteIn(b, o).Some? && ByteIn(b, o).value != 0
  }

  /** From start on there is no NUL before the block, or the range of int, ends. */
  ghost predicate NeverEnds(b: Blob, start: int, at: int)
    requires Fits(b)
  {
    start <= at && (forall o :: start <= o < at ==> Letter(b, o)) &&
      (ByteIn(b, at).None? || (at >= INT32_MAX && Letter(b, at)))
  }

  datatype Tag = Tag(tag: Word, next: int)

  /** fdt_next_tag: the tag at start and the offset of the next one; END with a negative offset if
      the structure is broken there. */
  function NextTag(b: Blob, start: int): Tag
    requires Fits(b)
  {
    hide Load, OffsetPtr, ToInt;
    var p := OffsetPtr(b.h, start, 4);
    PtrInside(b, start, 4);
    if p.None? then Tag(END, -ERR_TRUNCATED)
    else
      var tag := Load(b.bytes, p.value);
      if tag == BEGIN_NODE then
        var e := NameEnd(b, start + 4);
        if e.None? then Tag(END, -ERR_BADSTRUCTURE) else TagEnd(b, start, tag, e.value)
      else if tag == PROP then
        var q := OffsetPtr(b.h, start + 4, 4);
        PtrInside(b, start + 4, 4);
        if q.None? then Tag(END, -ERR_BADSTRUCTURE)
        else TagEnd(b, start, tag, ToInt(start + 12 + Load(b.bytes, q.value)))
      else if tag == END || tag == END_NODE || tag == NOP then TagEnd(b, start, tag, start + 4)
      else Tag(END, -ERR_BADSTRUCTURE)
  }

  function TagEnd(b: Blob, start: int, tag: Word, offset: int): Tag {
    if OffsetPtr(b.h, start, (offset - start) % UINT).None? then Tag(END, -ERR_BADSTRUCTURE)
    else Tag(tag, Align(offset))
  }

  /** The loop of fdt_next_tag that skips a node name: it stops behind the first NUL, or where the
      block or the range of int ends without one. */
  method SkipName(b: Blob, start: int) returns (r: Option<int>, ghost at: int)
    requires Fits(b)
    ensures r.Some? ==> NameRuns(b, start, r.value)
    ensures r.None? ==> NeverEnds(b, start, at)
    ensures r == NameEnd(b, start)
  {
    hide OffsetPtr;
    var offset := start;
    while true
      invariant start <= offset && NameEnd(b, offset) == NameEnd(b, start)
      invariant forall o :: start <= o < offset ==> Letter(b, o)
      decreases if offset < 0 then 0 else UINT - offset
    {
      NegativeOut(b.h, offset);
      var p := OffsetPtr(b.h, offset, 1);
      PtrInside(b, offset, 1);
      if p.None? {
        return None, offset;
      }
      if b.bytes[p.value] == 0 {
        return Some(offset + 1), offset;
      }
      if offset >= INT32_MAX {
        return None, offset;
      }
      offset := offset + 1;
    }
  }

  lemma NegativeOut(h: Header, offset: int)
    ensures offset < 0 ==> OffsetPtr(h, offset, 1).None?
  {
  }

  /** The string from p on, up to a NUL or the end. */
  function Str(bytes: seq<Byte>, p: nat): (s: seq<Byte>)
    requires p <= |bytes|
    ensures p + |s| <= |bytes| && s == bytes[p..p + |s|] && 0 !in s
    ensures p + |s| < |bytes| ==> bytes[p + |s|] == 0
    decreases |bytes| - p
  {
    if p == |bytes| || bytes[p] == 0 then [] else [bytes[p]] + Str(bytes, p + 1)
  }

  lemma {:induction false} StrIs(bytes: seq<Byte>, p: nat, s: seq<Byte>)
    requires p + |s| < |bytes| && bytes[p..p + |s|] == s && 0 !in s && bytes[p + |s|] == 0
    ensures Str(bytes, p) == s
    decreases |s|
  {
    if s != [] {
      assert bytes[p] == s[0] && bytes[p + 1..p + |s|] == s[1..];
      StrIs(bytes, p + 1, s[1..]);
    }
  }

  /** fdt_ro_probe_ for a blob at an aligned address. */
  predicate Probed(h: Header) {
    && (if h.magic == MAGIC then h.version >= FIRST_SUPPORTED && h.lastComp <= LAST_SUPPORTED
        else h.magic == SW_MAGIC && h.sizeStruct != 0)
    && h.totalsize < INT32_MAX
  }

  /** fdt_get_string. */
  function GetString(b: Blob, stroffset: int): Option<seq<Byte>>
    requires Fits(b)
  {
    var abs := (stroffset + b.h.offStrings) % UINT;
    if !Probed(b.h) || abs >= b.h.totalsize then None
    else
      var rest := b.h.totalsize - abs;
      var len :=
        if b.h.magic == MAGIC then
          if stroffset < 0 then 0
          else if b.h.version >= 17 && stroffset >= b.h.sizeStrings then 0
          else if b.h.version >= 17 && b.h.sizeStrings - stroffset < rest then b.h.sizeStrings - stroffset
          else rest
        else if stroffset >= 0 || -stroffset > b.h.sizeStrings then 0
        else if -stroffset < rest then -stroffset
        else rest;
      var s := Str(b.bytes[..abs + len], abs);
      if |s| < len then Some(s) else None
  }

  // Tags as a client sees them.

  datatype Item = Begin(name: seq<Byte>) | Prop(name: seq<Byte>, val: seq<Byte>) | EndNode | Nop

  /** The item at offset off is x. */
  ghost predicate ItemAt(b: Blob, off: nat, x: Item)
    requires Fits(b)
  {
    var tag := NextTag(b, off).tag;
    var p := b.h.offStruct + off;
    match x
    case Begin(name) => tag == BEGIN_NODE && p + 4 <= |b.bytes| && Str(b.bytes, p + 4) == name
    case Prop(name, val) =>
      && tag == PROP && p + 12 <= |b.bytes|
      && GetString(b, ToInt(Load(b.bytes, p + 8))) == Some(name)
      && p + 12 + |val| <= |b.bytes| && Load(b.bytes, p + 4) == |val| && b.bytes[p + 12..p + 12 + |val|] == val
    case EndNode => tag == END_NODE
    case Nop => tag == NOP
  }

  /** Walking the structure block from off with fdt_next_tag gives the items xs and then END. */
  ghost predicate Reads(b: Blob, off: nat, xs: seq<Item>)
    requires Fits(b)
    decreases |xs|
  {
    var t := NextTag(b, off);
    if xs == [] then t.tag == END && t.next >= 0
    else t.next >= 0 && ItemAt(b, off, xs[0]) && Reads(b, t.next, xs[1..])
  }

  /** A blob reads in one way only. */
  lemma {:induction false} ReadsUnique(b: Blob, off: nat, xs: seq<Item>, ys: seq<Item>)
    requires Fits(b) && Reads(b, off, xs) && Reads(b, off, ys)
    ensures xs == ys
    decreases |xs|
  {
    hide NextTag, GetString;
    if xs != [] && ys != [] {
      ReadsUnique(b, NextTag(b, off).next, xs[1..], ys[1..]);
      assert xs[0] == ys[0];
      assert xs == [xs[0]] + xs[1..] && ys == [ys[0]] + ys[1..];
    }
  }
}
