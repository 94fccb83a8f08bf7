/** Writing a flattened device tree from front to back (lib/libfdt/fdt_sw.c): the structure block
    grows upwards, the strings block grows downwards from the end of the buffer, and finishing
    moves the strings up to the structure and corrects the string offsets. */
module FdtWriter {

  import opened Common
  import opened Blocks
  import opened FdtBlob
  import opened FdtRecords

  const RSV_ENTRY: nat := 16
  const HEADER_SIZE: nat := 48

  /** bytes with s copied to p. */
  function Put(bytes: seq<Byte>, p: nat, s: seq<Byte>): (r: seq<Byte>)
    requires p + |s| <= |bytes|
    ensures |r| == |bytes|
  {
    bytes[..p] + s + bytes[p + |s|..]
  }

  lemma PutIs(bytes: seq<Byte>, p: nat, s: seq<Byte>)
    requires p + |s| <= |bytes|
    ensures var r := Put(bytes, p, s);
      && r[p..p + |s|] == s && r[..p] == bytes[..p] && r[p + |s|..] == bytes[p + |s|..]
      && forall k :: 0 <= k < |r| ==> r[k] == if p <= k < p + |s| then s[k - p] else bytes[k]
  {
  }

  /** The C string name stands at p. */
  ghost predicate NameAt(bytes: seq<Byte>, p: nat, name: seq<Byte>) {
    p + |name| < |bytes| && bytes[p..p + |name|] == name && bytes[p + |name|] == 0
  }

  /** While writing, a property's string offset counts back from the end of the buffer. */
  ghost predicate NamedBack(bytes: seq<Byte>, strings: nat, r: Rec) {
    var o := UINT - r.nameoff;
    r.item.Prop? ==> |r.item.name| < o <= strings <= |bytes| && NameAt(bytes, |bytes| - o, r.item.name)
  }

  ghost predicate AllNamedBack(bytes: seq<Byte>, strings: nat, recs: seq<Rec>) {
    forall k :: 0 <= k < |recs| ==> NamedBack(bytes, strings, recs[k])
  }

  lemma NamedBackFrame(bytes: seq<Byte>, bytes': seq<Byte>, strings: nat, strings': nat, recs: seq<Rec>)
    requires AllNamedBack(bytes, strings, recs) && |bytes'| == |bytes| && strings <= strings' <= |bytes|
    requires bytes'[|bytes| - strings..] == bytes[|bytes| - strings..]
    ensures AllNamedBack(bytes', strings', recs)
  {
    var from := |bytes| - strings;
    forall k | 0 <= k < |recs| ensures NamedBack(bytes', strings', recs[k]) {
      assert NamedBack(bytes, strings, recs[k]);
      if recs[k].item.Prop? {
        var p, n := |bytes| - (UINT - recs[k].nameoff), |recs[k].item.name|;
        SliceSame(bytes, bytes', from, p, n + 1);
        assert bytes'[p..p + n] == bytes'[p..p + n + 1][..n] && bytes[p..p + n] == bytes[p..p + n + 1][..n];
        assert bytes'[p + n] == bytes'[p..p + n + 1][n] && bytes[p + n] == bytes[p..p + n + 1][n];
      }
    }
  }

  lemma SliceSame(bytes: seq<Byte>, bytes': seq<Byte>, from: nat, p: nat, n: nat)
    requires |bytes'| == |bytes| && from <= p && p + n <= |bytes| && bytes'[from..] == bytes[from..]
    ensures bytes'[p..p + n] == bytes[p..p + n]
  {
    var s, t := bytes'[p..p + n], bytes[p..p + n];
    forall k | 0 <= k < n ensures s[k] == t[k] {
      assert bytes'[from..][p - from + k] == bytes[from..][p - from + k];
    }
    assert s == t;
  }

  // Writing records.

  ghost function PutBegin(bytes: seq<Byte>, p: nat, name: seq<Byte>): (r: seq<Byte>)
    requires p + 4 + |name| + 1 <= |bytes|
    ensures |r| == |bytes|
  {
    Put(Put(bytes, p, Big(BEGIN_NODE)), p + 4, name + [0])
  }

  lemma WroteBegin(bytes: seq<Byte>, p: nat, name: seq<Byte>)
    requires p + Size(Begin(name)) <= |bytes|
    ensures p + 4 + |name| + 1 <= |bytes| && RecAt(PutBegin(bytes, p, name), p, Rec(Begin(name), 0))
    ensures PutBegin(bytes, p, name)[..p] == bytes[..p]
    ensures PutBegin(bytes, p, name)[p + Size(Begin(name))..] == bytes[p + Size(Begin(name))..]
  {
    hide Big, Align, Load;
    AlignUp(Begin(name));
    var b := PutBegin(bytes, p, name);
    LoadBig(b, p, BEGIN_NODE);
    assert b[p + 4..p + 4 + |name|] == b[p + 4..p + 4 + |name| + 1][..|name|];
  }

  lemma WroteTag(bytes: seq<Byte>, p: nat, tag: Word)
    requires p + 4 <= |bytes|
    ensures Load(Put(bytes, p, Big(tag)), p) == tag
  {
    hide Big, Load;
    LoadBig(Put(bytes, p, Big(tag)), p, tag);
  }

  ghost function PutProp(bytes: seq<Byte>, p: nat, nameoff: Word, val: seq<Byte>): (r: seq<Byte>)
    requires p + 12 + |val| <= |bytes| && |val| <= INT32_MAX
    ensures |r| == |bytes|
  {
    Put(Put(Put(Put(bytes, p, Big(PROP)), p + 8, Big(nameoff)), p + 4, Big(|val|)), p + 12, val)
  }

  lemma WroteProp(bytes: seq<Byte>, p: nat, name: seq<Byte>, val: seq<Byte>, nameoff: Word)
    requires p + Size(Prop(name, val)) <= |bytes| && |val| <= INT32_MAX
    ensures p + 12 + |val| <= |bytes| && RecAt(PutProp(bytes, p, nameoff, val), p, Rec(Prop(name, val), nameoff))
    ensures PutProp(bytes, p, nameoff, val)[..p] == bytes[..p]
    ensures PutProp(bytes, p, nameoff, val)[p + Size(Prop(name, val))..] == bytes[p + Size(Prop(name, val))..]
  {
    hide Big, Align, Load;
    AlignUp(Prop(name, val));
    var b := PutProp(bytes, p, nameoff, val);
    var b1 := Put(bytes, p, Big(PROP));
    var b2 := Put(b1, p + 8, Big(nameoff));
    var b3 := Put(b2, p + 4, Big(|val|));
    PutIs(bytes, p, Big(PROP));
    PutIs(b1, p + 8, Big(nameoff));
    PutIs(b2, p + 4, Big(|val|));
    PutIs(b3, p + 12, val);
    LoadBig(b, p, PROP);
    LoadBig(b, p + 4, |val|);
    LoadBig(b, p + 8, nameoff);
  }

  // The state of the writer.

  /** Between fdt_finish_reservemap and fdt_finish. */
  ghost predicate Building(h: Header, bytes: seq<Byte>, recs: seq<Rec>) {
    && h.magic == SW_MAGIC && h.version == LAST_SUPPORTED
    && h.offStrings == h.totalsize == |bytes| && 0 < |bytes| <= INT32_MAX
    && h.offStruct + h.sizeStruct + h.sizeStrings <= |bytes|
    && h.sizeStruct == Pos(recs, |recs|)
    && Laid(bytes, h.offStruct, recs)
    && AllNamedBack(bytes, h.sizeStrings, recs)
  }

  /** A record of this size goes behind the others, and the strings stay. */
  lemma BuildingMore(h: Header, bytes: seq<Byte>, recs: seq<Rec>, bytes': seq<Byte>, r: Rec)
    requires Building(h, bytes, recs) && ItemOk(r.item) && |bytes'| == |bytes|
    requires h.sizeStruct + Size(r.item) + h.sizeStrings <= |bytes| - h.offStruct
    requires RecAt(bytes', h.offStruct + h.sizeStruct, r) && NamedBack(bytes, h.sizeStrings, r)
    requires bytes'[..h.offStruct + h.sizeStruct] == bytes[..h.offStruct + h.sizeStruct]
    requires var top := h.offStruct + h.sizeStruct + Size(r.item); bytes'[top..] == bytes[top..]
    ensures Building(h.(sizeStruct := h.sizeStruct + Size(r.item)), bytes', recs + [r])
  {
    hide Size, RecAt, ItemOk, NamedBack, Pos;
    var top := h.offStruct + h.sizeStruct;
    assert bytes'[h.offStruct..top] == bytes'[..top][h.offStruct..] &&
      bytes[h.offStruct..top] == bytes[..top][h.offStruct..];
    LaidFrame(bytes, bytes', h.offStruct, recs);
    LaidMore(bytes', h.offStruct, recs, r);
    var more := recs + [r];
    assert AllNamedBack(bytes, h.sizeStrings, more) by {
      forall k | 0 <= k < |more| ensures NamedBack(bytes, h.sizeStrings, more[k]) {
      }
    }
    SliceSame(bytes, bytes', top + Size(r.item), |bytes| - h.sizeStrings, h.sizeStrings);
    assert bytes'[|bytes| - h.sizeStrings..] == bytes[|bytes| - h.sizeStrings..];
    NamedBackFrame(bytes, bytes', h.sizeStrings, h.sizeStrings, more);
  }

  lemma ItemsMore(recs: seq<Rec>, r: Rec)
    ensures Items(recs + [r]) == Items(recs) + [r.item]
  {
    assert (recs + [r])[..|recs|] == recs;
  }

  /** The space between the structure and the strings changes, and the strings may take some of it. */
  lemma BuildingGap(h: Header, bytes: seq<Byte>, recs: seq<Rec>, bytes': seq<Byte>, o: Word)
    requires Building(h, bytes, recs) && |bytes'| == |bytes|
    requires h.sizeStrings <= o <= |bytes| - h.offStruct - h.sizeStruct
    requires var top := h.offStruct + h.sizeStruct; bytes'[..top] == bytes[..top]
    requires bytes'[|bytes| - h.sizeStrings..] == bytes[|bytes| - h.sizeStrings..]
    ensures Building(h.(sizeStrings := o), bytes', recs)
  {
    hide Pos, Laid, AllNamedBack;
    var top := h.offStruct + h.sizeStruct;
    assert bytes'[h.offStruct..top] == bytes'[..top][h.offStruct..] &&
      bytes[h.offStruct..top] == bytes[..top][h.offStruct..];
    LaidFrame(bytes, bytes', h.offStruct, recs);
    NamedBackFrame(bytes, bytes', h.sizeStrings, o, recs);
  }

  lemma PutName(bytes: seq<Byte>, p: nat, name: seq<Byte>)
    requires p + |name| + 1 <= |bytes|
    ensures NameAt(Put(bytes, p, name + [0]), p, name)
  {
    var r := Put(bytes, p, name + [0]);
    assert r[p..p + |name|] == r[p..p + |name| + 1][..|name|];
  }

  /** A string goes in front of the strings. */
  lemma BuildingString(h: Header, bytes: seq<Byte>, recs: seq<Rec>, name: seq<Byte>, o: Word)
    requires Building(h, bytes, recs) && o == h.sizeStrings + |name| + 1 <= |bytes| - h.offStruct - h.sizeStruct
    ensures var b := Put(bytes, |bytes| - o, name + [0]);
      Building(h.(sizeStrings := o), b, recs) && Building(h, b, recs) && NameAt(b, |bytes| - o, name)
  {
    hide Building, Put, NameAt;
    HeaderFacts(h, bytes, recs);
    var b := Put(bytes, |bytes| - o, name + [0]);
    PutFrame(bytes, |bytes| - o, name + [0], h.offStruct + h.sizeStruct, |bytes| - h.sizeStrings);
    PutName(bytes, |bytes| - o, name);
    BuildingGap(h, bytes, recs, b, o);
    BuildingGap(h, bytes, recs, b, h.sizeStrings);
  }

  /** name, with its NUL, occurs in bytes[from..to]. */
  ghost predicate Occurs(bytes: seq<Byte>, from: nat, to: nat, name: seq<Byte>) {
    exists p :: from <= p && p + |name| < to && NameAt(bytes, p, name)
  }

  /** fdt_find_string_ on the strings from index from to index to. */
  method FindString(buf: array<Byte>, from: nat, to: nat, name: seq<Byte>) returns (r: Option<nat>)
    requires from <= to <= buf.Length
    ensures r.Some? <==> Occurs(buf[..], from, to, name)
    ensures r.Some? ==> from <= r.value && r.value + |name| < to && NameAt(buf[..], r.value, name)
  {
    var n := |name| + 1;
    var p := from;
    while p + n <= to
      invariant from <= p
      invariant forall q :: from <= q < p ==> !NameAt(buf[..], q, name)
    {
      SliceName(buf[..], p, name);
      assert buf[..][p..p + n] == buf[p..p + n];
      if buf[p..p + n] == name + [0] {
        return Some(p);
      }
      p := p + 1;
    }
    return None;
  }

  // Finishing.

  /** A string offset that is corrected already, and one that still counts from the end. */
  ghost predicate NamedFwd(bytes: seq<Byte>, h: Header, r: Rec) {
    r.item.Prop? ==>
      r.nameoff + |r.item.name| < h.sizeStrings && NameAt(bytes, h.offStrings + r.nameoff, r.item.name)
  }

  ghost predicate Pending(bytes: seq<Byte>, h: Header, r: Rec) {
    var o := UINT - r.nameoff;
    r.item.Prop? ==>
      |r.item.name| < o <= h.sizeStrings && NameAt(bytes, h.offStrings + h.sizeStrings - o, r.item.name)
  }

  ghost predicate NamesAt(bytes: seq<Byte>, h: Header, recs: seq<Rec>, k: nat) {
    forall j :: 0 <= j < |recs| ==> if j < k then NamedFwd(bytes, h, recs[j]) else Pending(bytes, h, recs[j])
  }

  /** In fdt_finish, with the first k records corrected. */
  ghost predicate Moved(h: Header, bytes: seq<Byte>, recs: seq<Rec>, k: nat) {
    && h.version == LAST_SUPPORTED && h.totalsize == |bytes| <= INT32_MAX
    && h.sizeStruct == Pos(recs, |recs|) + 4
    && h.offStrings == h.offStruct + h.sizeStruct && h.offStrings + h.sizeStrings <= |bytes|
    && Laid(bytes, h.offStruct, recs) && Load(bytes, h.offStruct + Pos(recs, |recs|)) == END
    && NamesAt(bytes, h, recs, k)
  }

  lemma NameMoved(bytes: seq<Byte>, bytes': seq<Byte>, from: nat, to: nat, n: nat, p: nat, name: seq<Byte>)
    requires from + n <= |bytes| && to + n <= |bytes'| && bytes'[to..to + n] == bytes[from..from + n]
    requires p + |name| < n && NameAt(bytes, from + p, name)
    ensures NameAt(bytes', to + p, name)
  {
    SubSlice(bytes, from, n, p, |name|);
    SubSlice(bytes', to, n, p, |name|);
    assert bytes'[to + p + |name|] == bytes'[to..to + n][p + |name|];
    assert bytes[from + p + |name|] == bytes[from..from + n][p + |name|];
  }

  lemma SubSlice(bytes: seq<Byte>, from: nat, n: nat, p: nat, m: nat)
    requires from + n <= |bytes| && p + m <= n
    ensures bytes[from + p..from + p + m] == bytes[from..from + n][p..p + m]
  {
    var s, t := bytes[from + p..from + p + m], bytes[from..from + n][p..p + m];
    assert |s| == |t|;
    assert forall k :: 0 <= k < m ==> s[k] == t[k];
  }

  ghost function Terminated(h: Header, bytes: seq<Byte>): (r: seq<Byte>)
    requires h.offStruct + h.sizeStruct + 4 + h.sizeStrings <= |bytes|
    ensures |r| == |bytes|
  {
    Put(bytes, h.offStruct + h.sizeStruct, Big(END))
  }

  /** The terminator is written and the strings are moved behind it. */
  ghost function Relocated(h: Header, bytes: seq<Byte>): (r: seq<Byte>)
    requires h.offStruct + h.sizeStruct + 4 + h.sizeStrings <= |bytes|
    ensures |r| == |bytes|
  {
    var b := Terminated(h, bytes);
    Put(b, h.offStruct + h.sizeStruct + 4, b[|bytes| - h.sizeStrings..])
  }

  lemma RelocatedBytes(h: Header, bytes: seq<Byte>)
    requires h.offStruct + h.sizeStruct + 4 + h.sizeStrings <= |bytes|
    ensures var top := h.offStruct + h.sizeStruct; var b := Relocated(h, bytes);
      && b[..top] == bytes[..top] && Load(b, top) == END
      && b[top + 4..top + 4 + h.sizeStrings] == bytes[|bytes| - h.sizeStrings..|bytes| - h.sizeStrings + h.sizeStrings]
  {
    hide Big, Load;
    var top, t, b := h.offStruct + h.sizeStruct, Terminated(h, bytes), Relocated(h, bytes);
    LoadBig(b, top, END);
    assert t[|bytes| - h.sizeStrings..] == bytes[|bytes| - h.sizeStrings..];
  }

  lemma Relocate(h: Header, bytes: seq<Byte>, recs: seq<Rec>, h': Header)
    requires Building(h, bytes, recs) && h.offStruct + h.sizeStruct + 4 + h.sizeStrings <= |bytes|
    requires h' == h.(sizeStruct := h.sizeStruct + 4, offStrings := h.offStruct + h.sizeStruct + 4)
    ensures Moved(h', Relocated(h, bytes), recs, 0)
  {
    hide Relocated, Pos, Load, NameAt;
    var top, b := h.offStruct + h.sizeStruct, Relocated(h, bytes);
    RelocatedBytes(h, bytes);
    assert b[h.offStruct..top] == b[..top][h.offStruct..] && bytes[h.offStruct..top] == bytes[..top][h.offStruct..];
    LaidFrame(bytes, b, h.offStruct, recs);
    forall j | 0 <= j < |recs| ensures Pending(b, h', recs[j]) {
      assert NamedBack(bytes, h.sizeStrings, recs[j]);
      if recs[j].item.Prop? {
        var o := UINT - recs[j].nameoff;
        NameMoved(bytes, b, |bytes| - h.sizeStrings, top + 4, h.sizeStrings, h.sizeStrings - o, recs[j].item.name);
      }
    }
  }

  ghost function Corrected(h: Header, r: Rec): Rec {
    if r.item.Prop? then r.(nameoff := (r.nameoff + h.sizeStrings) % UINT) else r
  }

  ghost function CorrectedBytes(h: Header, bytes: seq<Byte>, recs: seq<Rec>, k: nat): (r: seq<Byte>)
    requires k < |recs| && h.offStruct + Pos(recs, k) + 12 <= |bytes|
    ensures |r| == |bytes|
  {
    if recs[k].item.Prop? then Put(bytes, h.offStruct + Pos(recs, k) + 8, Big(Corrected(h, recs[k]).nameoff)) else bytes
  }

  lemma CorrectedOther(h: Header, bytes: seq<Byte>, recs: seq<Rec>, k: nat, j: nat)
    requires Laid(bytes, h.offStruct, recs) && k < |recs| && j < |recs| && j != k && recs[k].item.Prop?
    requires h.offStruct + Pos(recs, k) + 12 <= |bytes|
    ensures RecAt(CorrectedBytes(h, bytes, recs, k), h.offStruct + Pos(recs, j), recs[j])
  {
    hide ItemOk, Size, Pos, RecAt, Align, Laid, Put, Big;
    AlignUp(recs[k].item);
    LaidRec(bytes, h.offStruct, recs, j);
    if j < k {
      PosGrows(recs, j, k);
    } else {
      PosGrows(recs, k, j);
    }
    RecApart(bytes, h.offStruct + Pos(recs, k) + 8, Big(Corrected(h, recs[k]).nameoff), h.offStruct + Pos(recs, j),
      recs[j]);
  }

  lemma LaidRec(bytes: seq<Byte>, base: nat, recs: seq<Rec>, j: nat)
    requires Laid(bytes, base, recs) && j < |recs|
    ensures RecAt(bytes, base + Pos(recs, j), recs[j])
  {
    hide RecAt, Pos, ItemOk;
  }

  /** Correcting record k leaves the others alone. */
  lemma LaidCorrected(h: Header, bytes: seq<Byte>, recs: seq<Rec>, k: nat)
    requires Laid(bytes, h.offStruct, recs) && k < |recs| && recs[k].item.Prop?
    ensures h.offStruct + Pos(recs, k) + 12 <= |bytes|
    ensures Laid(CorrectedBytes(h, bytes, recs, k), h.offStruct, recs[k := Corrected(h, recs[k])])
  {
    hide ItemOk, Size, Pos, RecAt;
    var recs' := recs[k := Corrected(h, recs[k])];
    RecRetargeted(bytes, h.offStruct + Pos(recs, k), recs[k], Corrected(h, recs[k]).nameoff);
    forall j | 0 <= j < |recs|
      ensures ItemOk(recs'[j].item) && RecAt(CorrectedBytes(h, bytes, recs, k), h.offStruct + Pos(recs', j), recs'[j])
    {
      PosSame(recs, recs', j);
      if j != k {
        CorrectedOther(h, bytes, recs, k, j);
      }
    }
  }

  lemma RecRetargeted(bytes: seq<Byte>, p: nat, r: Rec, w: Word)
    requires RecAt(bytes, p, r) && r.item.Prop?
    ensures p + 12 <= |bytes| && RecAt(Put(bytes, p + 8, Big(w)), p, r.(nameoff := w))
  {
    hide Big, Load, Align;
    AlignUp(r.item);
    var b := Put(bytes, p + 8, Big(w));
    LoadBig(b, p + 8, w);
    LoadSame(bytes, b, p);
    LoadSame(bytes, b, p + 4);
  }

  lemma LoadSame(bytes: seq<Byte>, bytes': seq<Byte>, p: nat)
    requires p + 4 <= |bytes| == |bytes'|
    requires bytes'[p] == bytes[p] && bytes'[p + 1] == bytes[p + 1] && bytes'[p + 2] == bytes[p + 2]
    requires bytes'[p + 3] == bytes[p + 3]
    ensures Load(bytes', p) == Load(bytes, p)
  {
  }

  /** A write outside a record. */
  lemma RecApart(bytes: seq<Byte>, p: nat, s: seq<Byte>, q: nat, r: Rec)
    requires p + |s| <= |bytes| && RecAt(bytes, q, r) && (p + |s| <= q || q + Size(r.item) <= p)
    ensures RecAt(Put(bytes, p, s), q, r)
  {
    hide Size;
    var b := Put(bytes, p, s);
    assert q + Size(r.item) <= |bytes|;
    PutIs(bytes, p, s);
    assert b[q..q + Size(r.item)] == bytes[q..q + Size(r.item)];
    hide RecAt;
    RecFrame(bytes, b, q, q + Size(r.item), q, r);
  }

  lemma NamesCorrected(h: Header, bytes: seq<Byte>, recs: seq<Rec>, k: nat, b: seq<Byte>)
    requires NamesAt(bytes, h, recs, k) && k < |recs| && |b| == |bytes| && h.offStrings + h.sizeStrings <= |bytes|
    requires b[h.offStrings..] == bytes[h.offStrings..]
    ensures NamesAt(b, h, recs[k := Corrected(h, recs[k])], k + 1)
  {
    hide NameAt;
    var recs', n := recs[k := Corrected(h, recs[k])], h.sizeStrings;
    SliceSame(bytes, b, h.offStrings, h.offStrings, n);
    forall j | 0 <= j < |recs| ensures if j < k + 1 then NamedFwd(b, h, recs'[j]) else Pending(b, h, recs'[j]) {
      if recs[j].item.Prop? {
        var p := if j < k then recs[j].nameoff else n - (UINT - recs[j].nameoff);
        assert if j < k then NamedFwd(bytes, h, recs[j]) else Pending(bytes, h, recs[j]);
        assert j == k ==> recs'[j].nameoff == p;
        NameMoved(bytes, b, h.offStrings, h.offStrings, n, p, recs[j].item.name);
      }
    }
  }

  /** One turn of fdt_finish's loop. */
  lemma MovedNext(h: Header, bytes: seq<Byte>, recs: seq<Rec>, k: nat)
    requires Moved(h, bytes, recs, k) && k < |recs|
    ensures h.offStruct + Pos(recs, k) + 12 <= |bytes| || !recs[k].item.Prop?
    ensures recs[k].item.Prop? ==> Moved(h, CorrectedBytes(h, bytes, recs, k), recs[k := Corrected(h, recs[k])], k + 1)
    ensures !recs[k].item.Prop? ==> Moved(h, bytes, recs, k + 1)
    ensures Items(recs[k := Corrected(h, recs[k])]) == Items(recs)
  {
    hide Pos, Laid, NamesAt, Load, CorrectedBytes;
    ItemsCorrected(h, recs, k);
    if recs[k].item.Prop? {
      LaidCorrected(h, bytes, recs, k);
      var b, end := CorrectedBytes(h, bytes, recs, k), h.offStruct + Pos(recs, |recs|);
      PosSame(recs, recs[k := Corrected(h, recs[k])], |recs|);
      CorrectedTail(h, bytes, recs, k);
      SliceSame(bytes, b, end, h.offStrings, |bytes| - h.offStrings);
      assert b[h.offStrings..] == bytes[h.offStrings..];
      TailLoad(bytes, b, end);
      NamesCorrected(h, bytes, recs, k, b);
    } else {
      NamesSkip(h, bytes, recs, k);
    }
  }

  lemma ItemsCorrected(h: Header, recs: seq<Rec>, k: nat)
    requires k < |recs|
    ensures Items(recs[k := Corrected(h, recs[k])]) == Items(recs)
  {
  }

  /** What follows the records is as before. */
  lemma CorrectedTail(h: Header, bytes: seq<Byte>, recs: seq<Rec>, k: nat)
    requires k < |recs| && recs[k].item.Prop? && h.offStruct + Pos(recs, |recs|) <= |bytes|
    requires h.offStruct + Pos(recs, k) + 12 <= |bytes|
    ensures var end := h.offStruct + Pos(recs, |recs|); CorrectedBytes(h, bytes, recs, k)[end..] == bytes[end..]
  {
    hide Pos, Put, Size, Align, Big;
    PosGrows(recs, k, |recs|);
    AlignUp(recs[k].item);
    var p := h.offStruct + Pos(recs, k) + 8;
    PutFrame(bytes, p, Big(Corrected(h, recs[k]).nameoff), p, h.offStruct + Pos(recs, |recs|));
  }

  lemma NamesSkip(h: Header, bytes: seq<Byte>, recs: seq<Rec>, k: nat)
    requires NamesAt(bytes, h, recs, k) && k < |recs| && !recs[k].item.Prop?
    ensures NamesAt(bytes, h, recs, k + 1)
  {
    hide NameAt;
    forall j | 0 <= j < |recs| ensures if j < k + 1 then NamedFwd(bytes, h, recs[j]) else Pending(bytes, h, recs[j]) {
      assert if j < k then NamedFwd(bytes, h, recs[j]) else Pending(bytes, h, recs[j]);
    }
  }

  lemma TailLoad(bytes: seq<Byte>, b: seq<Byte>, p: nat)
    requires |b| == |bytes| && p + 4 <= |bytes| && b[p..] == bytes[p..]
    ensures Load(b, p) == Load(bytes, p)
  {
    assert b[p..][0] == bytes[p..][0] && b[p..][1] == bytes[p..][1] && b[p..][2] == bytes[p..][2] &&
      b[p..][3] == bytes[p..][3];
    LoadSame(bytes, b, p);
  }

  /** The finished blob reads back as the items. */
  lemma FinishedReads(h: Header, bytes: seq<Byte>, recs: seq<Rec>, h': Header)
    requires Moved(h, bytes, recs, |recs|) && h.offStrings + h.sizeStrings < INT32_MAX
    requires h' == h.(totalsize := h.offStrings + h.sizeStrings, lastComp := LAST_COMPATIBLE, magic := MAGIC)
    ensures Fits(Blob(h', bytes)) && Reads(Blob(h', bytes), 0, Items(recs))
  {
    hide Laid, Load, Pos, Reads, GetString;
    var b := Blob(h', bytes);
    forall k | 0 <= k < |recs| && recs[k].item.Prop?
      ensures GetString(b, ToInt(recs[k].nameoff)) == Some(recs[k].item.name)
    {
      assert NamedFwd(bytes, h, recs[k]);
      LaidItem(bytes, h.offStruct, recs, k);
      StringIs(b, recs[k].nameoff, recs[k].item.name);
    }
    ReadsFrom(b, recs, 0);
    PosZero(recs);
    assert Items(recs)[0..] == Items(recs);
  }

  lemma LaidItem(bytes: seq<Byte>, base: nat, recs: seq<Rec>, k: nat)
    requires Laid(bytes, base, recs) && k < |recs|
    ensures ItemOk(recs[k].item)
  {
  }

  lemma PosZero(recs: seq<Rec>)
    ensures Pos(recs, 0) == 0
  {
  }

  lemma StringIs(b: Blob, p: Word, name: seq<Byte>)
    requires Fits(b) && Probed(b.h) && b.h.magic == MAGIC && b.h.version == 17
    requires b.h.offStrings + b.h.sizeStrings <= b.h.totalsize && p + |name| < b.h.sizeStrings
    requires NameAt(b.bytes, b.h.offStrings + p, name) && 0 !in name
    ensures GetString(b, ToInt(p)) == Some(name)
  {
    hide Str, ToInt, NameAt;
    var q, end := b.h.offStrings + p, b.h.offStrings + b.h.sizeStrings;
    StrInside(b.bytes, q, name, end);
    SmallInt(p);
    SmallSum(p, b.h.offStrings);
  }

  lemma StrInside(bytes: seq<Byte>, q: nat, name: seq<Byte>, end: nat)
    requires NameAt(bytes, q, name) && q + |name| < end <= |bytes| && 0 !in name
    ensures Str(bytes[..end], q) == name
  {
    hide Str;
    var t := bytes[..end];
    assert t[q..q + |name|] == bytes[q..q + |name|];
    StrIs(t, q, name);
  }

  lemma SmallSum(p: nat, q: nat)
    requires p + q <= INT32_MAX
    ensures (p + q) % UINT == p + q
  {
  }

  lemma SmallInt(p: nat)
    requires p <= INT32_MAX
    ensures ToInt(p) == p
  {
  }

  /** memcpy of s to index p. */
  method CopyTo(buf: array<Byte>, p: nat, s: seq<Byte>)
    requires p + |s| <= buf.Length
    modifies buf
    ensures buf[..] == Put(old(buf[..]), p, s)
  {
    forall k | 0 <= k < |s| {
      buf[p + k] := s[k];
    }
    assert forall k :: 0 <= k < buf.Length ==> buf[..][k] == Put(old(buf[..]), p, s)[k];
  }

  class Writer {
    const buf: array<Byte>
    var h: Header
    /** The records written so far. */
    ghost var recs: seq<Rec>

    ghost function B(): Blob
      reads this, buf
    {
      Blob(h, buf[..])
    }

    ghost predicate Writing()
      reads this, buf
    {
      Building(h, buf[..], recs)
    }

    /** In the state for fdt_begin_node, fdt_property, fdt_end_node and fdt_finish. */
    predicate InStruct()
      reads this
    {
      h.magic == SW_MAGIC && h.offStrings == h.totalsize
    }

    /** Between fdt_create_with_flags and fdt_finish_reservemap. */
    ghost predicate Reserving()
      reads this
    {
      && h.magic == SW_MAGIC && h.version == LAST_SUPPORTED && h.totalsize == buf.Length <= INT32_MAX
      && h.offStrings == h.sizeStruct == h.sizeStrings == 0
      && HEADER_SIZE <= h.offStruct <= h.totalsize && recs == []
    }

    constructor (bufsize: nat)
      requires bufsize <= INT32_MAX
      ensures fresh(buf) && buf.Length == bufsize
    {
      buf := new Byte[bufsize](_ => 0);
      h := Header(0, 0, 0, 0, 0, 0, 0, 0);
      recs := [];
    }

    /** fdt_create_with_flags. */
    method Create(flags: Word) returns (err: Error)
      requires buf.Length <= INT32_MAX
      modifies this, buf
      ensures err == NoSpace <==> buf.Length < HEADER_SIZE
      ensures err == BadFlags <==> buf.Length >= HEADER_SIZE && flags > 1
      ensures err == Ok <==> buf.Length >= HEADER_SIZE && flags <= 1
      ensures err == Ok ==> Reserving() && h.lastComp == flags && h.offStruct == HEADER_SIZE
      ensures err == Ok ==> forall k :: 0 <= k < buf.Length ==> buf[k] == 0
    {
      if buf.Length < HEADER_SIZE {
        return NoSpace;
      }
      if flags > 1 {
        return BadFlags;
      }
      forall k | 0 <= k < buf.Length {
        buf[k] := 0;
      }
      h := Header(SW_MAGIC, buf.Length, HEADER_SIZE, 0, LAST_SUPPORTED, flags, 0, 0);
      recs := [];
      return Ok;
    }

    /** fdt_add_reservemap_entry, with the two 64-bit words of the entry as bytes. */
    method AddReserve(entry: seq<Byte>) returns (err: Error)
      requires |entry| == RSV_ENTRY && h.totalsize == buf.Length
      requires h.magic == SW_MAGIC && h.offStrings == 0 ==> Reserving()
      modifies this, buf
      ensures err == Ok <==>
        old(h.magic == SW_MAGIC && h.offStrings == 0) && old(h.offStruct) + RSV_ENTRY <= old(h.totalsize)
      ensures err == Ok ==> h == old(h).(offStruct := h.offStruct) && Reserving()
      ensures err == Ok ==>
        h.offStruct == old(h.offStruct) + RSV_ENTRY && buf[..] == Put(old(buf[..]), old(h.offStruct), entry)
      ensures err != Ok ==> h == old(h) && recs == old(recs) && buf[..] == old(buf[..])
    {
      hide Put;
      if h.magic != SW_MAGIC {
        return if h.magic == MAGIC then BadState else BadMagic;
      }
      if h.offStrings != 0 {
        return BadState;
      }
      var offset := h.offStruct;
      if offset + RSV_ENTRY > h.totalsize {
        return NoSpace;
      }
      CopyTo(buf, offset, entry);
      h := h.(offStruct := offset + RSV_ENTRY);
      return Ok;
    }

    /** fdt_finish_reservemap. */
    method FinishReserve() returns (err: Error)
      requires h.totalsize == buf.Length
      requires h.magic == SW_MAGIC && h.offStrings == 0 ==> Reserving()
      modifies this, buf
      ensures err == Ok ==> InStruct() && Writing() && Items(recs) == []
      ensures err == Ok ==>
        h.offStruct == old(h.offStruct) + RSV_ENTRY && h.sizeStrings == 0 && h.lastComp == old(h.lastComp)
      ensures err == Ok <==>
        old(h.magic == SW_MAGIC && h.offStrings == 0) && old(h.offStruct) + RSV_ENTRY <= old(h.totalsize)
      ensures err != Ok ==> h == old(h) && recs == old(recs) && buf[..] == old(buf[..])
    {
      hide Put;
      err := AddReserve([0, 0, 0, 0, 0, 0, 0, 0, 0, 0, 0, 0, 0, 0, 0, 0]);
      if err == Ok {
        h := h.(offStrings := h.totalsize);
      }
    }

    /** fdt_sw_probe_struct_. */
    method Probe() returns (err: Error)
      ensures err == Ok <==> InStruct()
      ensures err in {Ok, BadState, BadMagic}
    {
      if h.magic == MAGIC {
        return BadState;
      }
      if h.magic != SW_MAGIC {
        return BadMagic;
      }
      return if h.offStrings != h.totalsize then BadState else Ok;
    }

    /** Room for n more bytes of structure. */
    ghost predicate Room(n: nat)
      reads this, buf
    {
      h.sizeStruct + n + h.sizeStrings <= buf.Length - h.offStruct
    }

    /** fdt_grab_space_: where the next n bytes of structure go. */
    method GrabSpace(n: nat) returns (p: Option<nat>)
      requires Writing()
      modifies `h
      ensures p.Some? <==> old(Room(n))
      ensures p.Some? ==>
        p.value == h.offStruct + old(h.sizeStruct) && h == old(h).(sizeStruct := old(h.sizeStruct) + n)
      ensures p.None? ==> h == old(h)
    {
      var offset := h.sizeStruct;
      var spaceleft := h.totalsize - h.offStruct - h.sizeStrings;
      if offset + n > spaceleft {
        return None;
      }
      h := h.(sizeStruct := offset + n);
      return Some(h.offStruct + offset);
    }

    method BeginNode(name: seq<Byte>) returns (err: Error)
      requires (InStruct() ==> Writing()) && 0 !in name
      modifies this, buf
      ensures InStruct() == old(InStruct()) && (InStruct() ==> Writing())
      ensures err == Ok <==> old(InStruct()) && old(Room(Size(Begin(name))))
      ensures err == NoSpace <==> old(InStruct()) && !old(Room(Size(Begin(name))))
      ensures Items(recs) == old(Items(recs)) + if err == Ok then [Begin(name)] else []
      ensures err != Ok ==> h == old(h) && recs == old(recs) && buf[..] == old(buf[..])
    {
      hide Size, Building, Items, Big, RecAt, Put;
      err := Probe();
      if err != Ok {
        return;
      }
      HeaderFacts(h, buf[..], recs);
      SizeBegin(name);
      var p := GrabSpace(4 + Align(|name| + 1));
      if p.None? {
        return NoSpace;
      }
      ghost var bytes := buf[..];
      WroteBegin(bytes, p.value, name);
      CopyTo(buf, p.value, Big(BEGIN_NODE));
      CopyTo(buf, p.value + 4, name + [0]);
      recs := recs + [Rec(Begin(name), 0)];
      BuildingMore(old(h), bytes, old(recs), buf[..], Rec(Begin(name), 0));
      ItemsMore(old(recs), Rec(Begin(name), 0));
    }

    method CloseNode() returns (err: Error)
      requires InStruct() ==> Writing()
      modifies this, buf
      ensures InStruct() == old(InStruct()) && (InStruct() ==> Writing())
      ensures err == Ok <==> old(InStruct()) && old(Room(4))
      ensures err == NoSpace <==> old(InStruct()) && !old(Room(4))
      ensures Items(recs) == old(Items(recs)) + if err == Ok then [EndNode] else []
      ensures err != Ok ==> h == old(h) && recs == old(recs) && buf[..] == old(buf[..])
    {
      hide Building, Items, Big, Load, Put;
      err := Probe();
      if err != Ok {
        return;
      }
      HeaderFacts(h, buf[..], recs);
      var p := GrabSpace(4);
      if p.None? {
        return NoSpace;
      }
      ghost var bytes := buf[..];
      WroteTag(bytes, p.value, END_NODE);
      PutFrame(bytes, p.value, Big(END_NODE), p.value, p.value + 4);
      CopyTo(buf, p.value, Big(END_NODE));
      recs := recs + [Rec(EndNode, 0)];
      BuildingMore(old(h), bytes, old(recs), buf[..], Rec(EndNode, 0));
      ItemsMore(old(recs), Rec(EndNode, 0));
    }

    /** fdt_add_string_: the distance of the new string from the end, or 0 if there is no room. The
        subtraction in the source's test for room is unsigned, so that a string which is longer than
        the buffer passes it; then the copy would start in front of the buffer. */
    method AddString(name: seq<Byte>) returns (o: nat, overrun: bool)
      requires Writing() && |name| < INT32_MAX
      modifies `h, buf
      ensures overrun <==> old(TooLong(name))
      ensures Writing() && (o == 0 <==> !old(Room(|name| + 1)))
      ensures o == 0 ==> h == old(h) && buf[..] == old(buf[..])
      ensures o != 0 ==> h == old(h).(sizeStrings := old(h.sizeStrings) + |name| + 1) && o == h.sizeStrings
      ensures o != 0 ==> NameAt(buf[..], buf.Length - o, name)
      ensures o != 0 ==> Building(old(h), buf[..], recs)
    {
      hide Building, NameAt, Put;
      HeaderFacts(h, buf[..], recs);
      var offset := (h.sizeStrings + |name| + 1) % UINT;
      var top := h.offStruct + h.sizeStruct;
      SumFits(h.sizeStrings, |name|);
      RoomTest(h.totalsize, offset, top);
      if (h.totalsize - offset) % UINT < top {
        return 0, false;
      }
      if offset > h.totalsize {
        return 0, true;
      }
      BuildingString(h, buf[..], recs, name, offset);
      CopyTo(buf, h.totalsize - offset, name + [0]);
      h := h.(sizeStrings := offset);
      return offset, false;
    }

    /** With this string the strings would be longer than the buffer. */
    ghost predicate TooLong(name: seq<Byte>)
      reads this, buf
    {
      h.sizeStrings + |name| + 1 > buf.Length
    }

    /** Room for a property: unless its name is shared with the strings there are, the name needs
        room too. */
    ghost predicate PropRoom(name: seq<Byte>, val: seq<Byte>)
      reads this, buf
    {
      Room(Size(Prop(name, val)) + if Shared(name) then 0 else |name| + 1)
    }

    ghost predicate Shared(name: seq<Byte>)
      reads this, buf
    {
      h.lastComp % 2 == 0 && h.sizeStrings <= buf.Length &&
        Occurs(buf[..], buf.Length - h.sizeStrings, buf.Length, name)
    }

    /** The distance of the name from the end of the buffer: found there, or added; 0 if there is no
        room for it. */
    method NameOffset(name: seq<Byte>) returns (o: nat, added: bool, overrun: bool)
      requires Writing() && |name| < INT32_MAX
      modifies `h, buf
      ensures Writing() && o <= h.sizeStrings
      ensures old(h.sizeStrings) <= buf.Length
      ensures added <==> !old(Shared(name))
      ensures overrun <==> added && old(TooLong(name))
      ensures !added ==> o != 0 && h == old(h)
      ensures added ==> (o == 0 <==> !old(Room(|name| + 1)))
      ensures o == 0 ==> h == old(h)
      ensures added && o != 0 ==> h == old(h).(sizeStrings := old(h.sizeStrings) + |name| + 1)
      ensures Building(old(h), buf[..], recs)
      ensures o != 0 ==> |name| < o <= buf.Length && NameAt(buf[..], buf.Length - o, name)
    {
      hide Building;
      HeaderFacts(h, buf[..], recs);
      if h.lastComp % 2 == 0 {
        var p := FindString(buf, buf.Length - h.sizeStrings, buf.Length, name);
        if p.Some? {
          return buf.Length - p.value, false, false;
        }
      }
      o, overrun := AddString(name);
      HeaderFacts(h, buf[..], recs);
      added := true;
    }

    method Property(name: seq<Byte>, val: seq<Byte>) returns (err: Error)
      requires (InStruct() ==> Writing()) && 0 !in name && |name| < INT32_MAX && |val| <= INT32_MAX
      modifies this, buf
      ensures InStruct() == old(InStruct()) && (InStruct() ==> Writing())
      ensures err == Overrun <==> old(InStruct()) && !old(Shared(name)) && old(TooLong(name))
      ensures err == Ok <==> old(InStruct()) && old(PropRoom(name, val))
      ensures err == NoSpace <==>
        old(InStruct()) && !old(PropRoom(name, val)) && (old(Shared(name)) || !old(TooLong(name)))
      ensures Items(recs) == old(Items(recs)) + if err == Ok then [Prop(name, val)] else []
      ensures err != Ok ==> h == old(h) && recs == old(recs)
    {
      hide Building, Items, Occurs, NameAt, Size;
      err := Probe();
      if err != Ok {
        return;
      }
      HeaderFacts(h, buf[..], recs);
      var o, added, overrun := NameOffset(name);
      if overrun {
        return Overrun;
      }
      if o == 0 {
        return NoSpace;
      }
      HeaderFacts(h, buf[..], recs);
      var ok := PutProperty(o, name, val);
      if ok {
        return Ok;
      }
      if added {
        h := h.(sizeStrings := h.sizeStrings - (|name| + 1));
      }
      return NoSpace;
    }

    /** The property itself, once the place of its name is known. */
    method PutProperty(o: nat, name: seq<Byte>, val: seq<Byte>) returns (ok: bool)
      requires Writing() && 0 !in name && |val| <= INT32_MAX
      requires |name| < o <= h.sizeStrings <= buf.Length && NameAt(buf[..], buf.Length - o, name)
      modifies this, buf
      ensures Writing() && h == old(h).(sizeStruct := h.sizeStruct)
      ensures ok <==> old(Room(Size(Prop(name, val))))
      ensures ok ==> Items(recs) == old(Items(recs)) + [Prop(name, val)]
      ensures !ok ==> h == old(h) && recs == old(recs) && buf[..] == old(buf[..])
    {
      hide Building, Items, NameAt, RecAt, Size, Align, PutProp;
      HeaderFacts(h, buf[..], recs);
      SizeProp(name, val);
      ghost var bytes := buf[..];
      var p := GrabSpace(12 + Align(|val|));
      if p.None? {
        return false;
      }
      ghost var r := Rec(Prop(name, val), UINT - o);
      WroteProp(bytes, p.value, name, val, UINT - o);
      WriteProp(p.value, UINT - o, val);
      recs := recs + [r];
      NamedNow(bytes, h.sizeStrings, r, o);
      BuildingMore(old(h), bytes, old(recs), buf[..], r);
      ItemsMore(old(recs), r);
      return true;
    }

    method WriteProp(p: nat, nameoff: Word, val: seq<Byte>)
      requires p + 12 + |val| <= buf.Length && |val| <= INT32_MAX
      modifies buf
      ensures buf[..] == PutProp(old(buf[..]), p, nameoff, val)
    {
      hide Big, Put;
      CopyTo(buf, p, Big(PROP));
      CopyTo(buf, p + 8, Big(nameoff));
      CopyTo(buf, p + 4, Big(|val|));
      CopyTo(buf, p + 12, val);
    }

    /** Closes the structure block, moves the strings behind it and makes the blob complete. */
    method Finish() returns (err: Error)
      requires InStruct() ==> Writing()
      modifies this, buf
      ensures err == Ok <==> old(InStruct()) && old(Room(4))
      ensures err == NoSpace <==> old(InStruct()) && !old(Room(4))
      ensures err != Ok ==> h == old(h) && recs == old(recs) && buf[..] == old(buf[..])
      ensures err == Ok ==> h.magic == MAGIC && h.totalsize == h.offStruct + h.sizeStruct + h.sizeStrings <= buf.Length
      ensures err == Ok ==> Items(recs) == old(Items(recs)) && h.lastComp == LAST_COMPATIBLE
      ensures err == Ok ==> Moved(h.(totalsize := buf.Length), buf[..], recs, |recs|)
      ensures err == Ok && h.totalsize < INT32_MAX ==> Reads(B(), 0, old(Items(recs)))
    {
      hide Building, Moved, Items, Reads;
      err := Probe();
      if err != Ok {
        return;
      }
      var ok := Relocation();
      if !ok {
        return NoSpace;
      }
      var done := CorrectOffsets();
      MovedFacts(h, buf[..], recs, |recs|);
      if done < 0 {
        return Broken(done);
      }
      ghost var h1 := h;
      MovedHeader(h, buf[..], recs);
      h := h.(totalsize := h.offStrings + h.sizeStrings);
      h := h.(lastComp := LAST_COMPATIBLE);
      h := h.(magic := MAGIC);
      if h.totalsize < INT32_MAX {
        FinishedReads(h1, buf[..], recs, h);
      }
      return Ok;
    }

    /** The terminator is written and the strings are moved behind it. */
    method Relocation() returns (ok: bool)
      requires Writing()
      modifies `h, buf
      ensures ok <==> old(Room(4))
      ensures ok ==> Moved(h, buf[..], recs, 0)
      ensures !ok ==> h == old(h) && buf[..] == old(buf[..])
    {
      hide Building, Moved, Big, Put;
      HeaderFacts(h, buf[..], recs);
      ghost var bytes := buf[..];
      var end := GrabSpace(4);
      if end.None? {
        return false;
      }
      CopyTo(buf, end.value, Big(END));
      var oldstroffset := h.totalsize - h.sizeStrings;
      var newstroffset := h.offStruct + h.sizeStruct;
      MoveTail(newstroffset, oldstroffset);
      h := h.(offStrings := newstroffset);
      Relocate(old(h), bytes, recs, h);
      return true;
    }

    /** memmove of everything from index from on. */
    method MoveTail(to: nat, from: nat)
      requires to <= from <= buf.Length
      modifies buf
      ensures buf[..] == Put(old(buf[..]), to, old(buf[..])[from..])
    {
      hide Put;
      var tail := buf[from..];
      assert tail == buf[..][from..];
      CopyTo(buf, to, tail);
    }

    /** The loop of fdt_finish over the tags. */
    method CorrectOffsets() returns (nextoffset: int)
      requires Moved(h, buf[..], recs, 0)
      modifies `recs, buf
      ensures nextoffset >= 0 && Moved(h, buf[..], recs, |recs|) && Items(recs) == old(Items(recs))
    {
      hide Moved, Items, Big, Put, Load, NextTag, Pos;
      MovedFacts(h, buf[..], recs, 0);
      PosZero(recs);
      var offset := 0;
      ghost var k := 0;
      while true
        invariant k <= |recs| && |recs| == |old(recs)| && Moved(h, buf[..], recs, k) && offset == Pos(recs, k)
        invariant Items(recs) == old(Items(recs))
        decreases |recs| - k
      {
        MovedTag(h, buf[..], recs, k);
        var t := NextTag(Blob(h, buf[..]), offset);
        if t.tag == END {
          return t.next;
        }
        MovedNext(h, buf[..], recs, k);
        PosNext(recs, k);
        ghost var recs' := recs[k := Corrected(h, recs[k])];
        PosSame(recs, recs', k + 1);
        if t.tag == PROP {
          var nameoff := (Load(buf[..], h.offStruct + offset + 8) + h.sizeStrings) % UINT;
          CopyTo(buf, h.offStruct + offset + 8, Big(nameoff));
        } else {
          assert recs' == recs;
        }
        recs := recs';
        offset := t.next;
        k := k + 1;
      }
    }
  }

  /** The round trip: what is written with these calls is what a walk over the finished blob finds,
      with and without sharing of names. */
  method WriteAll(bufsize: nat, flags: Word, xs: seq<Item>) returns (err: Error, w: Writer)
    requires bufsize < INT32_MAX
    requires forall k :: 0 <= k < |xs| ==> ItemOk(xs[k]) && !xs[k].Nop?
    ensures err == Ok ==> Fits(w.B()) && Reads(w.B(), 0, xs)
  {
    hide Building, Items, Reads, Size, Occurs;
    w := new Writer(bufsize);
    err := w.Create(flags);
    if err != Ok {
      return;
    }
    err := w.FinishReserve();
    if err != Ok {
      return;
    }
    var k := 0;
    while k < |xs|
      invariant k <= |xs| && fresh(w) && fresh(w.buf) && w.buf.Length == bufsize
      invariant w.InStruct() && w.Writing() && Items(w.recs) == xs[..k]
    {
      HeaderFacts(w.h, w.buf[..], w.recs);
      match xs[k] {
        case Begin(name) => err := w.BeginNode(name);
        case Prop(name, val) => err := w.Property(name, val);
        case EndNode => err := w.CloseNode();
      }
      if err != Ok {
        return;
      }
      k := k + 1;
    }
    assert xs[..k] == xs;
    err := w.Finish();
  }

  lemma MovedHeader(h: Header, bytes: seq<Byte>, recs: seq<Rec>)
    requires Moved(h, bytes, recs, |recs|)
    ensures Moved(h.(magic := MAGIC, lastComp := LAST_COMPATIBLE), bytes, recs, |recs|)
  {
    hide Laid, Pos, NamedFwd, Pending;
    var h' := h.(magic := MAGIC, lastComp := LAST_COMPATIBLE);
    forall j | 0 <= j < |recs| ensures NamedFwd(bytes, h', recs[j]) {
      assert NamedFwd(bytes, h, recs[j]);
      NamedHeader(bytes, h, h', recs[j]);
    }
  }

  lemma NamedHeader(bytes: seq<Byte>, h: Header, h': Header, r: Rec)
    requires NamedFwd(bytes, h, r) && h'.offStrings == h.offStrings && h'.sizeStrings == h.sizeStrings
    ensures NamedFwd(bytes, h', r)
  {
  }

  lemma MovedFacts(h: Header, bytes: seq<Byte>, recs: seq<Rec>, k: nat)
    requires Moved(h, bytes, recs, k)
    ensures h.offStrings == h.offStruct + h.sizeStruct && h.offStrings + h.sizeStrings <= |bytes| == h.totalsize
  {
  }

  /** What fdt_next_tag finds at record k, and behind the last one. */
  lemma MovedTag(h: Header, bytes: seq<Byte>, recs: seq<Rec>, k: nat)
    requires Moved(h, bytes, recs, k) && k <= |recs|
    ensures Fits(Blob(h, bytes))
    ensures k == |recs| ==> NextTag(Blob(h, bytes), Pos(recs, k)) == Tag(END, Pos(recs, k) + 4)
    ensures k < |recs| ==>
      NextTag(Blob(h, bytes), Pos(recs, k)) == Tag(TagOf(recs[k].item), Pos(recs, k) + Size(recs[k].item))
    ensures k < |recs| && recs[k].item.Prop? ==>
              h.offStruct + Pos(recs, k) + 12 <= |bytes| &&
                Load(bytes, h.offStruct + Pos(recs, k) + 8) == recs[k].nameoff
  {
    hide NamesAt, NextTag, Load, Aligned, ItemOk, Align, Pos;
    var b := Blob(h, bytes);
    PosAligned(recs, k);
    if k == |recs| {
      EndIs(b, Pos(recs, k));
    } else {
      PosGrows(recs, k, |recs|);
      AlignUp(recs[k].item);
      TagIs(b, Pos(recs, k), recs[k]);
    }
  }

  lemma SizeProp(name: seq<Byte>, val: seq<Byte>)
    ensures Size(Prop(name, val)) == 12 + Align(|val|)
  {
  }

  lemma NamedNow(bytes: seq<Byte>, strings: nat, r: Rec, o: nat)
    requires r.item.Prop? && UINT - r.nameoff == o && |r.item.name| < o <= strings <= |bytes|
    requires NameAt(bytes, |bytes| - o, r.item.name)
    ensures NamedBack(bytes, strings, r)
  {
  }

  lemma SliceName(bytes: seq<Byte>, p: nat, name: seq<Byte>)
    requires p + |name| + 1 <= |bytes|
    ensures NameAt(bytes, p, name) <==> bytes[p..p + |name| + 1] == name + [0]
  {
    var s := bytes[p..p + |name| + 1];
    assert bytes[p..p + |name|] == s[..|name|] && bytes[p + |name|] == s[|name|];
    assert s == s[..|name|] + [s[|name|]];
  }

  /** The source's unsigned test for room says no exactly when there is none, if and only if the
      string is not longer than the buffer, or so long that the difference wraps around below top. */
  lemma RoomTest(total: Word, offset: Word, top: nat)
    requires top <= total
    ensures ((total - offset) % UINT < top <==> top + offset > total) <==>
      (offset <= total || offset > UINT + total - top)
  {
  }

  lemma SumFits(strings: nat, n: nat)
    requires strings <= INT32_MAX && n < INT32_MAX
    ensures (strings + n + 1) % UINT == strings + n + 1
  {
  }

  /** In any state of the writer the source's test lets a name through for which there is no room, and
      the copy starts in front of the buffer, if and only if the strings with it would be longer than
      the buffer. */
  lemma OverrunIff(h: Header, bytes: seq<Byte>, recs: seq<Rec>, name: seq<Byte>)
    requires Building(h, bytes, recs) && |name| < INT32_MAX
    ensures var offset := (h.sizeStrings + |name| + 1) % UINT; var top := h.offStruct + h.sizeStruct;
      ((h.totalsize - offset) % UINT >= top && top + offset > |bytes| && |bytes| - offset < 0)
      <==> h.sizeStrings + |name| + 1 > |bytes|
  {
    hide Laid, AllNamedBack, Pos;
    SumFits(h.sizeStrings, |name|);
  }

  /** Such a state can be reached: a buffer of 100 bytes and a name of 199. */
  method OverrunReached(name: seq<Byte>) returns (err: Error)
    requires |name| == 199 && 0 !in name
    ensures err == Overrun
  {
    hide Building, Items, Reads, Size, Occurs;
    var w := new Writer(100);
    err := w.Create(0);
    err := w.FinishReserve();
    NotInNothing(w.buf[..], name);
    err := w.Property(name, []);
  }

  lemma NotInNothing(bytes: seq<Byte>, name: seq<Byte>)
    ensures !Occurs(bytes, |bytes|, |bytes|, name)
  {
  }

  lemma PutFrame(bytes: seq<Byte>, p: nat, s: seq<Byte>, lo: nat, hi: nat)
    requires lo <= p && p + |s| <= hi <= |bytes|
    ensures Put(bytes, p, s)[..lo] == bytes[..lo] && Put(bytes, p, s)[hi..] == bytes[hi..]
  {
  }

  lemma SizeBegin(name: seq<Byte>)
    ensures Size(Begin(name)) == 4 + Align(|name| + 1)
  {
  }

  lemma HeaderFacts(h: Header, bytes: seq<Byte>, recs: seq<Rec>)
    requires Building(h, bytes, recs)
    ensures h.magic == SW_MAGIC && h.offStrings == h.totalsize == |bytes| <= INT32_MAX
    ensures h.offStruct + h.sizeStruct + h.sizeStrings <= |bytes|
  {
  }
}
