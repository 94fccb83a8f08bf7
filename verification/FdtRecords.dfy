/** The structure block as a list of records, and why fdt_next_tag finds them. */
module FdtRecords {

  import opened Common
  import opened Blocks
  import opened FdtBlob

  /** An item and, for a property, the string offset stored with it. */
  datatype Rec = Rec(item: Item, nameoff: Word)

  function TagOf(x: Item): Word {
    match x
    case Begin(_) => BEGIN_NODE
    case Prop(_, _) => PROP
    case EndNode => END_NODE
    case Nop => NOP
  }

  function Size(x: Item): (n: nat)
    ensures n >= 4
  {
    match x
    case Begin(name) => 4 + Align(|name| + 1)
    case Prop(_, val) => 12 + Align(|val|)
    case EndNode => 4
    case Nop => 4
  }

  predicate ItemOk(x: Item) {
    match x
    case Begin(name) => 0 !in name
    case Prop(name, val) => 0 !in name && |name| < INT32_MAX && |val| <= INT32_MAX
    case _ => true
  }

  /** The record stands at p, whatever its padding holds. */
  ghost predicate RecAt(bytes: seq<Byte>, p: nat, r: Rec) {
    && p + Size(r.item) <= |bytes|
    && Load(bytes, p) == TagOf(r.item)
    && match r.item
       case Begin(name) => bytes[p + 4..p + 4 + |name|] == name && bytes[p + 4 + |name|] == 0
       case Prop(_, val) =>
         Load(bytes, p + 4) == |val| && Load(bytes, p + 8) == r.nameoff && bytes[p + 12..p + 12 + |val|] == val
       case _ => true
  }

  predicate Aligned(n: int) {
    n % 4 == 0
  }

  lemma AlignedSum(m: int, n: int)
    requires Aligned(m) && Aligned(n)
    ensures Aligned(m + n)
  {
  }

  /** The offset of record k. */
  function Pos(recs: seq<Rec>, k: nat): (n: nat)
    requires k <= |recs|
  {
    if k == 0 then 0 else Pos(recs, k - 1) + Size(recs[k - 1].item)
  }

  lemma PosNext(recs: seq<Rec>, k: nat)
    requires k < |recs|
    ensures Pos(recs, k + 1) == Pos(recs, k) + Size(recs[k].item)
  {
    hide Size;
  }

  lemma {:induction false} PosAligned(recs: seq<Rec>, k: nat)
    requires k <= |recs|
    ensures Aligned(Pos(recs, k))
  {
    if k > 0 {
      hide Size, Aligned;
      PosAligned(recs, k - 1);
      AlignUp(recs[k - 1].item);
      AlignedSum(Pos(recs, k - 1), Size(recs[k - 1].item));
    }
  }

  lemma {:induction false} PosGrows(recs: seq<Rec>, j: nat, k: nat)
    requires j <= k <= |recs|
    ensures Pos(recs, j) <= Pos(recs, k)
    ensures j < k ==> Pos(recs, j) + Size(recs[j].item) <= Pos(recs, k)
    decreases k - j
  {
    hide Size;
    if j < k {
      PosGrows(recs, j, k - 1);
    }
  }

  /** Positions depend on the sizes of the records only. */
  lemma {:induction false} PosSame(recs: seq<Rec>, recs': seq<Rec>, k: nat)
    requires k <= |recs| && k <= |recs'|
    requires forall j :: 0 <= j < k ==> Size(recs'[j].item) == Size(recs[j].item)
    ensures Pos(recs', k) == Pos(recs, k)
  {
    hide Size;
    if k > 0 {
      PosSame(recs, recs', k - 1);
    }
  }

  ghost predicate Laid(bytes: seq<Byte>, base: nat, recs: seq<Rec>) {
    forall k :: 0 <= k < |recs| ==> ItemOk(recs[k].item) && RecAt(bytes, base + Pos(recs, k), recs[k])
  }

  /** Records survive when the bytes of the block stay. */
  lemma LaidFrame(bytes: seq<Byte>, bytes': seq<Byte>, base: nat, recs: seq<Rec>)
    requires Laid(bytes, base, recs) && |bytes'| == |bytes| && base + Pos(recs, |recs|) <= |bytes|
    requires bytes'[base..base + Pos(recs, |recs|)] == bytes[base..base + Pos(recs, |recs|)]
    ensures Laid(bytes', base, recs)
  {
    hide RecAt, ItemOk, Pos, Size;
    forall k | 0 <= k < |recs| ensures ItemOk(recs[k].item) && RecAt(bytes', base + Pos(recs, k), recs[k]) {
      PosGrows(recs, k, |recs|);
      var p := base + Pos(recs, k);
      RecFrame(bytes, bytes', base, base + Pos(recs, |recs|), p, recs[k]);
    }
  }

  lemma RecFrame(bytes: seq<Byte>, bytes': seq<Byte>, lo: nat, hi: nat, p: nat, r: Rec)
    requires RecAt(bytes, p, r) && |bytes'| == |bytes| && lo <= p && p + Size(r.item) <= hi <= |bytes|
    requires bytes'[lo..hi] == bytes[lo..hi]
    ensures RecAt(bytes', p, r)
  {
    hide Little, Align;
    AlignUp(r.item);
    assert forall k :: lo <= k < hi ==> bytes'[k] == bytes[k] by {
      forall k | lo <= k < hi ensures bytes'[k] == bytes[k] {
        assert bytes'[lo..hi][k - lo] == bytes[lo..hi][k - lo];
      }
    }
  }

  lemma PosLast(recs: seq<Rec>, r: Rec)
    ensures Pos(recs + [r], |recs| + 1) == Pos(recs, |recs|) + Size(r.item)
  {
    hide Size;
    PosSame(recs, recs + [r], |recs|);
  }

  /** One more record. */
  lemma LaidMore(bytes: seq<Byte>, base: nat, recs: seq<Rec>, r: Rec)
    requires Laid(bytes, base, recs) && ItemOk(r.item) && RecAt(bytes, base + Pos(recs, |recs|), r)
    ensures Laid(bytes, base, recs + [r])
    ensures Pos(recs + [r], |recs| + 1) == Pos(recs, |recs|) + Size(r.item)
  {
    hide RecAt, Pos, Size, ItemOk;
    var more := recs + [r];
    PosLast(recs, r);
    forall k | 0 <= k < |more| ensures ItemOk(more[k].item) && RecAt(bytes, base + Pos(more, k), more[k]) {
      PosSame(recs, more, k);
    }
  }

  // Reading.

  /** A header the reader accepts, for a structure block inside the blob. */
  ghost predicate Shaped(b: Blob) {
    && Fits(b) && b.h.version == 0x11 && b.h.totalsize <= INT32_MAX
    && b.h.offStruct + b.h.sizeStruct <= b.h.totalsize
  }

  lemma PtrOk(b: Blob, o: nat, len: nat)
    requires Shaped(b) && o + len <= b.h.sizeStruct
    ensures OffsetPtr(b.h, o, len) == Some(b.h.offStruct + o)
  {
  }

  lemma {:induction false} NameEndIs(b: Blob, o: nat, name: seq<Byte>)
    requires Shaped(b) && o + |name| + 1 <= b.h.sizeStruct && 0 !in name
    requires var p := b.h.offStruct + o; b.bytes[p..p + |name|] == name && b.bytes[p + |name|] == 0
    ensures NameEnd(b, o) == Some(o + |name| + 1)
    decreases |name|
  {
    hide OffsetPtr;
    PtrOk(b, o, 1);
    if name != [] {
      TailSlice(b.bytes, b.h.offStruct + o, name);
      NameEndIs(b, o + 1, name[1..]);
    }
  }

  lemma TailSlice(bytes: seq<Byte>, p: nat, name: seq<Byte>)
    requires p + |name| <= |bytes| && bytes[p..p + |name|] == name && name != []
    ensures bytes[p] == name[0] && bytes[p + 1..p + 1 + |name[1..]|] == name[1..]
  {
    var s := bytes[p..p + |name|];
    assert s[0] == bytes[p] && s[1..] == bytes[p + 1..p + |name|];
  }

  lemma TagEndIs(b: Blob, o: nat, tag: Word, offset: nat, next: nat)
    requires Shaped(b) && o < offset <= next <= b.h.sizeStruct && next < offset + 4 && Aligned(next)
    ensures TagEnd(b, o, tag, offset) == Tag(tag, next)
  {
    hide OffsetPtr;
    PtrOk(b, o, offset - o);
  }

  /** fdt_next_tag at a record. */
  lemma TagIs(b: Blob, o: nat, r: Rec)
    requires Shaped(b) && Aligned(o) && o + Size(r.item) <= b.h.sizeStruct
    requires ItemOk(r.item) && RecAt(b.bytes, b.h.offStruct + o, r)
    ensures NextTag(b, o) == Tag(TagOf(r.item), o + Size(r.item))
  {
    hide OffsetPtr, Load, TagEnd, Align, Aligned;
    PtrOk(b, o, 4);
    AlignUp(r.item);
    AlignedSum(o, Size(r.item));
    match r.item {
      case Begin(name) =>
        NameEndIs(b, o + 4, name);
        TagEndIs(b, o, BEGIN_NODE, o + 4 + |name| + 1, o + Size(r.item));
      case Prop(name, val) =>
        PtrOk(b, o + 4, 4);
        TagEndIs(b, o, PROP, o + 12 + |val|, o + Size(r.item));
      case _ =>
        TagEndIs(b, o, TagOf(r.item), o + 4, o + 4);
    }
  }

  lemma AlignUp(x: Item)
    ensures Aligned(Size(x))
    ensures x.Begin? ==> 4 + |x.name| + 1 <= Size(x) < 4 + |x.name| + 1 + 4
    ensures x.Prop? ==> 12 + |x.val| <= Size(x) < 12 + |x.val| + 4
  {
  }

  lemma AlignedFour(o: int)
    requires Aligned(o)
    ensures Aligned(o + 4)
  {
  }

  lemma EndIs(b: Blob, o: nat)
    requires Shaped(b) && Aligned(o) && o + 4 <= b.h.sizeStruct && Load(b.bytes, b.h.offStruct + o) == END
    ensures NextTag(b, o) == Tag(END, o + 4)
  {
    hide OffsetPtr, Load, TagEnd, Aligned;
    PtrOk(b, o, 4);
    AlignedFour(o);
    TagEndIs(b, o, END, o + 4, o + 4);
  }

  /** The names of the properties are in the strings block. */
  ghost predicate Named(b: Blob, recs: seq<Rec>)
    requires Fits(b)
  {
    forall k :: 0 <= k < |recs| && recs[k].item.Prop? ==>
      GetString(b, ToInt(recs[k].nameoff)) == Some(recs[k].item.name)
  }

  lemma ItemIs(b: Blob, o: nat, r: Rec)
    requires Shaped(b) && Aligned(o) && o + Size(r.item) <= b.h.sizeStruct
    requires ItemOk(r.item) && RecAt(b.bytes, b.h.offStruct + o, r)
    requires r.item.Prop? ==> GetString(b, ToInt(r.nameoff)) == Some(r.item.name)
    ensures ItemAt(b, o, r.item)
  {
    hide Load, GetString, NextTag, Align, Aligned, Str, ToInt, Size;
    AlignUp(r.item);
    TagIs(b, o, r);
    if r.item.Begin? {
      NodeNameIs(b.bytes, b.h.offStruct + o, r);
    }
  }

  lemma NodeNameIs(bytes: seq<Byte>, p: nat, r: Rec)
    requires RecAt(bytes, p, r) && ItemOk(r.item) && r.item.Begin?
    ensures p + 4 <= |bytes| && Str(bytes, p + 4) == r.item.name
  {
    hide Load, Align, Str;
    AlignUp(r.item);
    StrIs(bytes, p + 4, r.item.name);
  }

  function Items(recs: seq<Rec>): (xs: seq<Item>)
    ensures |xs| == |recs| && forall k :: 0 <= k < |xs| ==> xs[k] == recs[k].item
  {
    if recs == [] then [] else Items(recs[..|recs| - 1]) + [recs[|recs| - 1].item]
  }

  /** Records closed by END read back as their items. */
  lemma {:induction false} ReadsFrom(b: Blob, recs: seq<Rec>, k: nat)
    requires Shaped(b) && Laid(b.bytes, b.h.offStruct, recs) && Named(b, recs) && k <= |recs|
    requires Pos(recs, |recs|) + 4 <= b.h.sizeStruct && Load(b.bytes, b.h.offStruct + Pos(recs, |recs|)) == END
    ensures Reads(b, Pos(recs, k), Items(recs)[k..])
    decreases |recs| - k
  {
    hide RecAt, ItemOk, ItemAt, NextTag, Load, GetString, Size, Aligned, Str, ToInt, Pos, Items;
    PosAligned(recs, k);
    if k == |recs| {
      EndIs(b, Pos(recs, k));
    } else {
      PosGrows(recs, k, |recs|);
      TagIs(b, Pos(recs, k), recs[k]);
      ItemIs(b, Pos(recs, k), recs[k]);
      ReadsFrom(b, recs, k + 1);
      assert Items(recs)[k..][1..] == Items(recs)[k + 1..];
      PosNext(recs, k);
    }
  }
}
