/** Editing a complete blob by splicing (lib/libfdt/fdt_rw.c) and by overwriting with NOP tags
    (lib/libfdt/fdt_wip.c), and the searches they need (lib/libfdt/fdt_ro.c, lib/libfdt/fdt.c). */
module FdtEdit {

  import opened Common
  import opened Blocks
  import opened FdtBlob
  import opened FdtRecords
  import opened FdtWriter

  /** A complete blob of version 17 in the usual order, whose structure block holds these records. The
      buffer is as long as the blob. */
  ghost predicate Complete(h: Header, bytes: seq<Byte>, recs: seq<Rec>) {
    && h.magic == MAGIC && h.version == LAST_SUPPORTED && h.lastComp <= LAST_SUPPORTED
    && h.totalsize == |bytes| < INT32_MAX
    && h.offStruct + h.sizeStruct <= h.offStrings && h.offStrings + h.sizeStrings <= |bytes|
    && Pos(recs, |recs|) + 4 <= h.sizeStruct && Load(bytes, h.offStruct + Pos(recs, |recs|)) == END
    && Laid(bytes, h.offStruct, recs) && AllNamed(bytes, h, recs)
  }

  ghost predicate AllNamed(bytes: seq<Byte>, h: Header, recs: seq<Rec>) {
    forall k :: 0 <= k < |recs| ==> NamedFwd(bytes, h, recs[k])
  }

  /** A complete blob reads back as its items. */
  lemma CompleteReads(h: Header, bytes: seq<Byte>, recs: seq<Rec>)
    requires Complete(h, bytes, recs)
    ensures Fits(Blob(h, bytes)) && Reads(Blob(h, bytes), 0, Items(recs))
  {
    hide Laid, Load, Pos, Reads, GetString;
    var b := Blob(h, bytes);
    forall k | 0 <= k < |recs| && recs[k].item.Prop?
      ensures GetString(b, ToInt(recs[k].nameoff)) == Some(recs[k].item.name)
    {
      CompleteName(h, bytes, recs, k);
    }
    ReadsFrom(b, recs, 0);
    PosZero(recs);
    assert Items(recs)[0..] == Items(recs);
  }

  lemma CompleteName(h: Header, bytes: seq<Byte>, recs: seq<Rec>, k: nat)
    requires Complete(h, bytes, recs) && k < |recs| && recs[k].item.Prop?
    ensures Fits(Blob(h, bytes)) && GetString(Blob(h, bytes), ToInt(recs[k].nameoff)) == Some(recs[k].item.name)
    ensures 0 !in recs[k].item.name
  {
    hide Laid, Load, Pos, GetString;
    assert NamedFwd(bytes, h, recs[k]);
    LaidItem(bytes, h.offStruct, recs, k);
    StringIs(Blob(h, bytes), recs[k].nameoff, recs[k].item.name);
  }

  /** What fdt_next_tag finds at record k, and behind the last one. */
  lemma TagAt(h: Header, bytes: seq<Byte>, recs: seq<Rec>, k: nat)
    requires Complete(h, bytes, recs) && k <= |recs|
    ensures Fits(Blob(h, bytes)) && Pos(recs, k) < INT32_MAX
    ensures k == |recs| ==> NextTag(Blob(h, bytes), Pos(recs, k)) == Tag(END, Pos(recs, k) + 4)
    ensures k < |recs| ==> NextTag(Blob(h, bytes), Pos(recs, k)) == Tag(TagOf(recs[k].item), Pos(recs, k + 1))
    ensures k < |recs| ==> RecAt(bytes, h.offStruct + Pos(recs, k), recs[k]) && ItemOk(recs[k].item)
  {
    hide AllNamed, NextTag, Load, Aligned, ItemOk, Size, Pos, RecAt;
    var b := Blob(h, bytes);
    PosAligned(recs, k);
    PosGrows(recs, k, |recs|);
    if k == |recs| {
      EndIs(b, Pos(recs, k));
    } else {
      PosNext(recs, k);
      TagIs(b, Pos(recs, k), recs[k]);
    }
  }

  // Replacing records.

  /** The size of a run of records. */
  function Total(recs: seq<Rec>): nat {
    Pos(recs, |recs|)
  }

  lemma {:induction false} PosConcat(a: seq<Rec>, b: seq<Rec>, k: nat)
    requires k <= |b|
    ensures Pos(a + b, |a| + k) == Pos(a, |a|) + Pos(b, k)
  {
    hide Size;
    if k == 0 {
      PosSame(a, a + b, |a|);
    } else {
      PosConcat(a, b, k - 1);
    }
  }

  /** The bytes in front of p stay, those from q up to size move to p + n. */
  ghost predicate Shifted(bytes: seq<Byte>, bytes': seq<Byte>, p: nat, q: nat, n: nat, size: nat) {
    && p <= q <= size <= |bytes| == |bytes'| && p + n + (size - q) <= |bytes|
    && bytes'[..p] == bytes[..p]
    && bytes'[p + n..p + n + (size - q)] == bytes[q..size]
  }

  /** A record is a matter of its own bytes. */
  lemma RecSlice(bytes: seq<Byte>, p: nat, r: Rec)
    requires p + Size(r.item) <= |bytes|
    ensures RecAt(bytes, p, r) <==> RecAt(bytes[p..p + Size(r.item)], 0, r)
  {
    hide Little, Align;
    AlignUp(r.item);
    var n := Size(r.item);
    var s := bytes[p..p + n];
    LoadSlice(bytes, p, n, 0);
    match r.item {
      case Begin(name) =>
        SubSlice(bytes, p, n, 4, |name|);
        assert s[4 + |name|] == bytes[p + 4 + |name|];
      case Prop(_, val) =>
        LoadSlice(bytes, p, n, 4);
        LoadSlice(bytes, p, n, 8);
        SubSlice(bytes, p, n, 12, |val|);
      case _ =>
    }
  }

  lemma LoadSlice(bytes: seq<Byte>, p: nat, n: nat, k: nat)
    requires p + n <= |bytes| && k + 4 <= n
    ensures Load(bytes[p..p + n], k) == Load(bytes, p + k)
  {
    var s := bytes[p..p + n];
    assert s[k] == bytes[p + k] && s[k + 1] == bytes[p + k + 1] && s[k + 2] == bytes[p + k + 2] &&
      s[k + 3] == bytes[p + k + 3];
  }

  lemma RecMoved(bytes: seq<Byte>, bytes': seq<Byte>, p: nat, q: nat, r: Rec)
    requires p + Size(r.item) <= |bytes| && q + Size(r.item) <= |bytes'|
    requires bytes'[q..q + Size(r.item)] == bytes[p..p + Size(r.item)]
    ensures RecAt(bytes, p, r) <==> RecAt(bytes', q, r)
  {
    hide Size, RecAt;
    RecSlice(bytes, p, r);
    RecSlice(bytes', q, r);
  }

  /** Records k..m give way to ins. */
  function Splice(recs: seq<Rec>, k: nat, m: nat, ins: seq<Rec>): seq<Rec>
    requires k <= m <= |recs|
  {
    recs[..k] + ins + recs[m..]
  }

  lemma SplicePosFront(recs: seq<Rec>, k: nat, m: nat, ins: seq<Rec>, j: nat)
    requires k <= m <= |recs| && j <= k
    ensures Pos(Splice(recs, k, m, ins), j) == Pos(recs, j)
  {
    hide Pos, Size;
    PosSame(recs, Splice(recs, k, m, ins), j);
  }

  lemma SplicePosMiddle(recs: seq<Rec>, k: nat, m: nat, ins: seq<Rec>, j: nat)
    requires k <= m <= |recs| && j <= |ins|
    ensures Pos(Splice(recs, k, m, ins), k + j) == Pos(recs, k) + Pos(ins, j)
  {
    hide Pos, Size;
    var front := recs[..k];
    PosConcat(front, ins + recs[m..], j);
    assert front + (ins + recs[m..]) == Splice(recs, k, m, ins);
    PosSame(recs, front, k);
    PosSame(ins, ins + recs[m..], j);
  }

  lemma SplicePosBack(recs: seq<Rec>, k: nat, m: nat, ins: seq<Rec>, j: nat)
    requires k <= m <= |recs| && m + j <= |recs|
    ensures Pos(Splice(recs, k, m, ins), k + |ins| + j) == Pos(recs, k) + Total(ins) + (Pos(recs, m + j) - Pos(recs, m))
  {
    hide Pos, Size;
    var front, back := recs[..k] + ins, recs[m..];
    PosConcat(front, back, j);
    PosConcat(recs[..k], ins, |ins|);
    PosSame(recs, recs[..k], k);
    PosConcat(recs[..m], back, j);
    PosSame(recs, recs[..m], m);
    assert recs[..m] + back == recs;
  }

  lemma BackMoved(bytes: seq<Byte>, bytes': seq<Byte>, p: nat, q: nat, n: nat, size: nat, a: nat, len: nat)
    requires Shifted(bytes, bytes', p, q, n, size) && q <= a && a + len <= size
    ensures p + n + (a - q) + len <= |bytes'| && bytes'[p + n + (a - q)..p + n + (a - q) + len] == bytes[a..a + len]
  {
    SubSlice(bytes, q, size - q, a - q, len);
    SubSlice(bytes', p + n, size - q, a - q, len);
  }

  lemma FrontKept(bytes: seq<Byte>, bytes': seq<Byte>, p: nat, q: nat, n: nat, size: nat, a: nat, len: nat)
    requires Shifted(bytes, bytes', p, q, n, size) && a + len <= p
    ensures bytes'[a..a + len] == bytes[a..a + len]
  {
    assert bytes'[a..a + len] == bytes'[..p][a..a + len];
    assert bytes[a..a + len] == bytes[..p][a..a + len];
  }

  lemma SplicedRec(bytes: seq<Byte>, bytes': seq<Byte>, base: nat, recs: seq<Rec>, k: nat, m: nat, ins: seq<Rec>,
                   size: nat, j: nat)
    requires Laid(bytes, base, recs) && k <= m <= |recs| && base + Pos(recs, |recs|) <= size
    requires Laid(bytes', base + Pos(recs, k), ins)
    requires Shifted(bytes, bytes', base + Pos(recs, k), base + Pos(recs, m), Total(ins), size)
    requires j < |Splice(recs, k, m, ins)|
    ensures var recs' := Splice(recs, k, m, ins); ItemOk(recs'[j].item) && RecAt(bytes', base + Pos(recs', j), recs'[j])
  {
    hide Pos, Size, RecAt, ItemOk, Shifted, Laid;
    if j < k {
      SplicePosFront(recs, k, m, ins, j);
      SplicedFront(bytes, bytes', base, recs, k, m, Total(ins), size, j);
    } else if j < k + |ins| {
      SplicePosMiddle(recs, k, m, ins, j - k);
      RecIn(bytes', base + Pos(recs, k), ins, j - k);
    } else {
      var i := j - k - |ins|;
      SplicePosBack(recs, k, m, ins, i);
      SplicedBack(bytes, bytes', base, recs, k, m, Total(ins), size, i);
    }
  }

  lemma SplicedFront(bytes: seq<Byte>, bytes': seq<Byte>, base: nat, recs: seq<Rec>, k: nat, m: nat, n: nat, size: nat,
                     j: nat)
    requires Laid(bytes, base, recs) && j < k <= m <= |recs|
    requires Shifted(bytes, bytes', base + Pos(recs, k), base + Pos(recs, m), n, size)
    ensures ItemOk(recs[j].item) && RecAt(bytes', base + Pos(recs, j), recs[j])
  {
    hide Pos, Size, RecAt, ItemOk, Shifted, Laid;
    var p, q, a := base + Pos(recs, k), base + Pos(recs, m), base + Pos(recs, j);
    PosGrows(recs, j, k);
    RecIn(bytes, base, recs, j);
    ShiftedSizes(bytes, bytes', p, q, n, size);
    FrontKept(bytes, bytes', p, q, n, size, a, Size(recs[j].item));
    RecMoved(bytes, bytes', a, a, recs[j]);
  }

  lemma SplicedBack(bytes: seq<Byte>, bytes': seq<Byte>, base: nat, recs: seq<Rec>, k: nat, m: nat, n: nat, size: nat,
                    i: nat)
    requires Laid(bytes, base, recs) && k <= m && m + i < |recs| && base + Pos(recs, |recs|) <= size
    requires Shifted(bytes, bytes', base + Pos(recs, k), base + Pos(recs, m), n, size)
    ensures Pos(recs, m + i) >= Pos(recs, m)
    ensures ItemOk(recs[m + i].item)
    ensures RecAt(bytes', base + Pos(recs, k) + n + (Pos(recs, m + i) - Pos(recs, m)), recs[m + i])
  {
    hide Pos, Size, RecAt, ItemOk, Shifted, Laid;
    var p, q, a := base + Pos(recs, k), base + Pos(recs, m), base + Pos(recs, m + i);
    PosGrows(recs, m, m + i);
    PosGrows(recs, m + i, |recs|);
    RecIn(bytes, base, recs, m + i);
    BackMoved(bytes, bytes', p, q, n, size, a, Size(recs[m + i].item));
    RecMoved(bytes, bytes', a, p + n + (a - q), recs[m + i]);
  }

  lemma RecIn(bytes: seq<Byte>, base: nat, recs: seq<Rec>, j: nat)
    requires Laid(bytes, base, recs) && j < |recs|
    ensures ItemOk(recs[j].item) && RecAt(bytes, base + Pos(recs, j), recs[j])
    ensures base + Pos(recs, j) + Size(recs[j].item) <= |bytes|
  {
    hide Size, Pos, ItemOk;
  }

  lemma ShiftedSizes(bytes: seq<Byte>, bytes': seq<Byte>, p: nat, q: nat, n: nat, size: nat)
    requires Shifted(bytes, bytes', p, q, n, size)
    ensures |bytes'| == |bytes| && p <= q <= size <= |bytes| && p + n + (size - q) <= |bytes|
  {
  }

  lemma LaidSpliced(bytes: seq<Byte>, bytes': seq<Byte>, base: nat, recs: seq<Rec>, k: nat, m: nat, ins: seq<Rec>,
                    size: nat)
    requires Laid(bytes, base, recs) && k <= m <= |recs| && base + Pos(recs, |recs|) <= size
    requires Laid(bytes', base + Pos(recs, k), ins)
    requires Shifted(bytes, bytes', base + Pos(recs, k), base + Pos(recs, m), Total(ins), size)
    ensures Laid(bytes', base, Splice(recs, k, m, ins))
  {
    hide Pos, Size, RecAt, ItemOk, Shifted, Splice, Total;
    var recs' := Splice(recs, k, m, ins);
    forall j | 0 <= j < |recs'| ensures ItemOk(recs'[j].item) && RecAt(bytes', base + Pos(recs', j), recs'[j]) {
      SplicedRec(bytes, bytes', base, recs, k, m, ins, size, j);
    }
  }

  lemma EndSpliced(bytes: seq<Byte>, bytes': seq<Byte>, base: nat, recs: seq<Rec>, k: nat, m: nat, ins: seq<Rec>,
                   size: nat)
    requires k <= m <= |recs| && base + Pos(recs, |recs|) + 4 <= size
    requires Shifted(bytes, bytes', base + Pos(recs, k), base + Pos(recs, m), Total(ins), size)
    ensures var recs' := Splice(recs, k, m, ins);
      && Total(recs') == Total(recs) + Total(ins) - (Pos(recs, m) - Pos(recs, k))
      && base + Total(recs') + 4 <= |bytes'| && Load(bytes', base + Total(recs')) == Load(bytes, base + Total(recs))
  {
    hide Pos, Size, Shifted, Load;
    var recs', p, q := Splice(recs, k, m, ins), base + Pos(recs, k), base + Pos(recs, m);
    SplicePosBack(recs, k, m, ins, |recs| - m);
    PosGrows(recs, m, |recs|);
    var a := base + Total(recs);
    ShiftedSizes(bytes, bytes', p, q, Total(ins), size);
    BackMoved(bytes, bytes', p, q, Total(ins), size, a, 4);
    LoadSlice(bytes, a, 4, 0);
    LoadSlice(bytes', p + Total(ins) + (a - q), 4, 0);
  }

  /** A complete blob stays complete when records k..m give way to ins, whose names are in the strings. */
  lemma CompleteSpliced(h: Header, bytes: seq<Byte>, recs: seq<Rec>, bytes': seq<Byte>, k: nat, m: nat, ins: seq<Rec>,
                        h': Header)
    requires Complete(h, bytes, recs) && k <= m <= |recs|
    requires Laid(bytes', h.offStruct + Pos(recs, k), ins)
    requires Shifted(bytes, bytes', h.offStruct + Pos(recs, k), h.offStruct + Pos(recs, m), Total(ins),
      h.offStrings + h.sizeStrings)
    requires var delta := Total(ins) - (Pos(recs, m) - Pos(recs, k));
      && h.sizeStruct + delta >= 0 && h.offStrings + delta >= 0
      && h.offStrings + delta < UINT && h.sizeStruct + delta < UINT
      && h' == h.(sizeStruct := h.sizeStruct + delta, offStrings := h.offStrings + delta)
    requires AllNamed(bytes', h', ins)
    ensures Complete(h', bytes', Splice(recs, k, m, ins))
  {
    hide Pos, Laid, Shifted, Load, NameAt, AllNamed;
    var size := h.offStrings + h.sizeStrings;
    var p, q := h.offStruct + Pos(recs, k), h.offStruct + Pos(recs, m);
    PosGrows(recs, k, m);
    PosGrows(recs, m, |recs|);
    LaidSpliced(bytes, bytes', h.offStruct, recs, k, m, ins, size);
    EndSpliced(bytes, bytes', h.offStruct, recs, k, m, ins, size);
    ShiftedSizes(bytes, bytes', p, q, Total(ins), size);
    BackMoved(bytes, bytes', p, q, Total(ins), size, h.offStrings, h.sizeStrings);
    SplicedNames(h, bytes, recs, bytes', k, m, ins, h');
  }

  lemma SplicedNames(h: Header, bytes: seq<Byte>, recs: seq<Rec>, bytes': seq<Byte>, k: nat, m: nat, ins: seq<Rec>,
                     h': Header)
    requires AllNamed(bytes, h, recs) && AllNamed(bytes', h', ins) && k <= m <= |recs|
    requires h'.sizeStrings >= h.sizeStrings
    requires h.offStrings + h.sizeStrings <= |bytes| && h'.offStrings + h.sizeStrings <= |bytes'|
    requires bytes'[h'.offStrings..h'.offStrings + h.sizeStrings] == bytes[h.offStrings..h.offStrings + h.sizeStrings]
    ensures AllNamed(bytes', h', Splice(recs, k, m, ins))
  {
    hide NamedFwd;
    var recs' := Splice(recs, k, m, ins);
    forall j | 0 <= j < |recs'| ensures NamedFwd(bytes', h', recs'[j]) {
      if j < k {
        NamedMoved(bytes, h, bytes', h', recs[j]);
      } else if j < k + |ins| {
        assert NamedFwd(bytes', h', ins[j - k]);
      } else {
        NamedMoved(bytes, h, bytes', h', recs[j - k - |ins| + m]);
      }
    }
  }

  lemma NamedMoved(bytes: seq<Byte>, h: Header, bytes': seq<Byte>, h': Header, r: Rec)
    requires NamedFwd(bytes, h, r) && h'.sizeStrings >= h.sizeStrings
    requires h.offStrings + h.sizeStrings <= |bytes| && h'.offStrings + h.sizeStrings <= |bytes'|
    requires bytes'[h'.offStrings..h'.offStrings + h.sizeStrings] == bytes[h.offStrings..h.offStrings + h.sizeStrings]
    ensures NamedFwd(bytes', h', r)
  {
    hide NameAt;
    if r.item.Prop? {
      NameMoved(bytes, bytes', h.offStrings, h'.offStrings, h.sizeStrings, r.nameoff, r.item.name);
    }
  }

  /** A string goes behind the strings. */
  lemma CompleteString(h: Header, bytes: seq<Byte>, recs: seq<Rec>, name: seq<Byte>, bytes': seq<Byte>, h': Header)
    requires Complete(h, bytes, recs) && h.offStrings + h.sizeStrings + |name| + 1 <= |bytes| == |bytes'|
    requires var size := h.offStrings + h.sizeStrings; bytes'[..size] == bytes[..size]
    requires h' == h.(sizeStrings := h.sizeStrings + |name| + 1)
    ensures Complete(h', bytes', recs) && Complete(h, bytes', recs)
  {
    hide Pos, Laid, Load, NameAt, NamedFwd;
    var size := h.offStrings + h.sizeStrings;
    SameFront(bytes, bytes', size, h.offStruct, Pos(recs, |recs|));
    SameFront(bytes, bytes', size, h.offStruct + Pos(recs, |recs|), 4);
    SameFront(bytes, bytes', size, h.offStrings, h.sizeStrings);
    LaidFrame(bytes, bytes', h.offStruct, recs);
    var e := h.offStruct + Pos(recs, |recs|);
    LoadSlice(bytes, e, 4, 0);
    LoadSlice(bytes', e, 4, 0);
    forall j | 0 <= j < |recs| ensures NamedFwd(bytes', h', recs[j]) && NamedFwd(bytes', h, recs[j]) {
      NamedMoved(bytes, h, bytes', h', recs[j]);
      NamedMoved(bytes, h, bytes', h, recs[j]);
    }
  }

  lemma SameFront(bytes: seq<Byte>, bytes': seq<Byte>, n: nat, a: nat, len: nat)
    requires n <= |bytes| && n <= |bytes'| && bytes'[..n] == bytes[..n] && a + len <= n
    ensures bytes'[a..a + len] == bytes[a..a + len]
  {
    assert bytes'[a..a + len] == bytes'[..n][a..a + len];
    assert bytes[a..a + len] == bytes[..n][a..a + len];
  }

  // What the searches look for, in terms of items.

  /** Where the properties of a node end that start at i: NOPs are skipped. */
  function PropsEnd(xs: seq<Item>, i: nat): (n: nat)
    requires i <= |xs|
    ensures i <= n <= |xs|
    decreases |xs| - i
  {
    if i < |xs| && (xs[i].Prop? || xs[i].Nop?) then PropsEnd(xs, i + 1) else i
  }

  /** The first property of that name from i on, before the properties end. */
  function FindProp(xs: seq<Item>, i: nat, name: seq<Byte>): (r: Option<nat>)
    requires i <= |xs|
    ensures r.Some? ==> i <= r.value < |xs| && xs[r.value].Prop? && xs[r.value].name == name
    decreases |xs| - i
  {
    if i == |xs| || xs[i].Begin? || xs[i].EndNode? then None
    else if xs[i].Prop? && xs[i].name == name then Some(i)
    else FindProp(xs, i + 1, name)
  }

  /** Behind the END_NODE that closes the node whose contents start at i, if there is one. */
  function NodeEnd(xs: seq<Item>, i: nat, depth: nat): (r: Option<nat>)
    requires i <= |xs|
    ensures r.Some? ==> i < r.value <= |xs|
    decreases |xs| - i
  {
    if i == |xs| then None
    else match xs[i]
      case Begin(_) => NodeEnd(xs, i + 1, depth + 1)
      case EndNode => if depth == 0 then Some(i + 1) else NodeEnd(xs, i + 1, depth - 1)
      case _ => NodeEnd(xs, i + 1, depth)
  }

  /** The tree an item list stands for does not depend on NOPs. */
  function Live(xs: seq<Item>): seq<Item> {
    if xs == [] then []
    else Live(xs[..|xs| - 1]) + if xs[|xs| - 1].Nop? then [] else [xs[|xs| - 1]]
  }

  /** fdt_setprop on the tree: the value is replaced, or the property becomes the node's first one. */
  function SetProp(xs: seq<Item>, k: nat, name: seq<Byte>, val: seq<Byte>): seq<Item>
    requires k < |xs|
  {
    var j := FindProp(xs, k + 1, name);
    if j.Some? then xs[j.value := Prop(name, val)] else xs[..k + 1] + [Prop(name, val)] + xs[k + 1..]
  }

  // New records in place.

  lemma ShiftedWrite(bytes: seq<Byte>, bytes1: seq<Byte>, bytes2: seq<Byte>, p: nat, q: nat, n: nat, size: nat)
    requires Shifted(bytes, bytes1, p, q, n, size) && |bytes2| == |bytes1|
    requires bytes2[..p] == bytes1[..p] && bytes2[p + n..] == bytes1[p + n..]
    ensures Shifted(bytes, bytes2, p, q, n, size)
  {
    assert bytes2[p + n..p + n + (size - q)] == bytes2[p + n..][..size - q];
    assert bytes1[p + n..p + n + (size - q)] == bytes1[p + n..][..size - q];
  }

  lemma LaidOne(bytes: seq<Byte>, p: nat, r: Rec)
    requires RecAt(bytes, p, r) && ItemOk(r.item)
    ensures Laid(bytes, p, [r]) && Total([r]) == Size(r.item)
  {
    hide RecAt, ItemOk, Size;
    assert Pos([r], 0) == 0;
    assert Pos([r], 1) == Pos([r], 0) + Size(r.item);
  }

  lemma LaidNone(bytes: seq<Byte>, p: nat)
    ensures Laid(bytes, p, []) && Total([]) == 0
  {
  }

  /** A property of another length: its data area is spliced, then length and data are written. */
  lemma Resized(bytes: seq<Byte>, bytes1: seq<Byte>, bytes2: seq<Byte>, p: nat, r: Rec, val: seq<Byte>, size: nat)
    requires r.item.Prop? && RecAt(bytes, p, r) && p + Size(r.item) <= size && |val| <= INT32_MAX
    requires Shifted(bytes, bytes1, p + 12, p + 12 + Align(|r.item.val|), Align(|val|), size)
    requires p + 12 + |val| <= |bytes1| && bytes2 == Put(Put(bytes1, p + 4, Big(|val|)), p + 12, val)
    ensures Shifted(bytes, bytes2, p, p + Size(r.item), Size(Prop(r.item.name, val)), size)
    ensures RecAt(bytes2, p, Rec(Prop(r.item.name, val), r.nameoff))
  {
    hide Big, Load, Shifted;
    SizeProp(r.item.name, r.item.val);
    SizeProp(r.item.name, val);
    ResizedShift(bytes, bytes1, bytes2, p, Align(|r.item.val|), Align(|val|), val, size);
    ShiftedSizes(bytes, bytes2, p, p + Size(r.item), Size(Prop(r.item.name, val)), size);
    LoadBig(bytes2, p + 4, |val|);
    FrontLoads(bytes, bytes1, bytes2, p, Align(|r.item.val|), Align(|val|), val, size);
    AlignUp(Prop(r.item.name, val));
  }

  lemma ResizedShift(bytes: seq<Byte>, bytes1: seq<Byte>, bytes2: seq<Byte>, p: nat, was: nat, now: nat, val: seq<Byte>,
                     size: nat)
    requires Shifted(bytes, bytes1, p + 12, p + 12 + was, now, size) && |val| <= now && |val| <= INT32_MAX
    requires bytes2 == Put(Put(bytes1, p + 4, Big(|val|)), p + 12, val)
    ensures Shifted(bytes, bytes2, p, p + 12 + was, 12 + now, size)
  {
    hide Big, Put;
    var mid, a, n := Put(bytes1, p + 4, Big(|val|)), p + 12 + now, size - (p + 12 + was);
    PutFrame(bytes1, p + 4, Big(|val|), p, a);
    PutFrame(mid, p + 12, val, p, a);
    SliceSame(bytes1, bytes2, a, a, n);
    SameFront(bytes, bytes1, p + 12, 0, p);
    assert bytes1[0..p] == bytes1[..p] && bytes[0..p] == bytes[..p];
  }

  lemma FrontLoads(bytes: seq<Byte>, bytes1: seq<Byte>, bytes2: seq<Byte>, p: nat, was: nat, now: nat, val: seq<Byte>,
                   size: nat)
    requires Shifted(bytes, bytes1, p + 12, p + 12 + was, now, size) && |val| <= now && |val| <= INT32_MAX
    requires bytes2 == Put(Put(bytes1, p + 4, Big(|val|)), p + 12, val)
    ensures Load(bytes2, p) == Load(bytes, p) && Load(bytes2, p + 8) == Load(bytes, p + 8)
  {
    hide Big, Load, Put;
    var mid := Put(bytes1, p + 4, Big(|val|));
    LoadFront(bytes, bytes1, p + 12, p);
    LoadFront(bytes, bytes1, p + 12, p + 8);
    PutElse(bytes1, p + 4, Big(|val|), p);
    PutElse(bytes1, p + 4, Big(|val|), p + 8);
    PutElse(mid, p + 12, val, p);
    PutElse(mid, p + 12, val, p + 8);
  }

  /** A word in front of the place where the two may differ. */
  lemma LoadFront(bytes: seq<Byte>, bytes': seq<Byte>, n: nat, p: nat)
    requires n <= |bytes| && n <= |bytes'| && bytes'[..n] == bytes[..n] && p + 4 <= n
    ensures Load(bytes', p) == Load(bytes, p)
  {
    hide Load;
    SameFront(bytes, bytes', n, p, 4);
    LoadSlice(bytes, p, 4, 0);
    LoadSlice(bytes', p, 4, 0);
  }

  /** A word beside the bytes that are written. */
  lemma PutElse(bytes: seq<Byte>, p: nat, s: seq<Byte>, q: nat)
    requires p + |s| <= |bytes| && q + 4 <= |bytes| && (q + 4 <= p || p + |s| <= q)
    ensures Load(Put(bytes, p, s), q) == Load(bytes, q)
  {
    hide Load, Put;
    PutIs(bytes, p, s);
    LoadSame(bytes, Put(bytes, p, s), q);
  }

  // NOPs.

  ghost function Nops(n: nat): (rs: seq<Rec>)
    ensures |rs| == n && forall k :: 0 <= k < n ==> rs[k] == Rec(Nop, 0)
  {
    seq(n, _ => Rec(Nop, 0))
  }

  lemma {:induction false} NopsPos(n: nat, k: nat)
    requires k <= n
    ensures Pos(Nops(n), k) == 4 * k
  {
    if k > 0 {
      NopsPos(n, k - 1);
    }
  }

  /** The words from p on are n NOP tags. */
  ghost predicate NopsAt(bytes: seq<Byte>, p: nat, n: nat) {
    p + 4 * n <= |bytes| && forall k :: 0 <= k < n ==> NopAt(bytes, p, k)
  }

  ghost predicate NopAt(bytes: seq<Byte>, p: nat, k: nat)
    requires p + 4 * k + 4 <= |bytes|
  {
    Load(bytes, p + 4 * k) == NOP
  }

  lemma NopsLaid(bytes: seq<Byte>, p: nat, n: nat)
    requires NopsAt(bytes, p, n)
    ensures Laid(bytes, p, Nops(n)) && Total(Nops(n)) == 4 * n
  {
    hide Load, Pos, Nops;
    NopsPos(n, n);
    forall k | 0 <= k < n ensures ItemOk(Nops(n)[k].item) && RecAt(bytes, p + Pos(Nops(n), k), Nops(n)[k]) {
      NopsPos(n, k);
      assert NopAt(bytes, p, k);
    }
  }

  /** Records k..m are overwritten with NOPs. */
  lemma NopsOk(h: Header, bytes: seq<Byte>, recs: seq<Rec>, k: nat, m: nat, n: nat, bytes': seq<Byte>)
    requires Complete(h, bytes, recs) && k <= m <= |recs| && 4 * n == Pos(recs, m) - Pos(recs, k) && |bytes'| == |bytes|
    requires var p := h.offStruct + Pos(recs, k);
      p + 4 * n <= |bytes| && bytes'[..p] == bytes[..p] && bytes'[p + 4 * n..] == bytes[p + 4 * n..] &&
        NopsAt(bytes', p, n)
    ensures var recs' := Splice(recs, k, m, Nops(n));
      Complete(h, bytes', recs') && Items(recs') == Items(recs)[..k] + Items(Nops(n)) + Items(recs)[m..]
  {
    hide Complete, Items, Pos, Laid, NopsAt, Nops;
    var p, size := h.offStruct + Pos(recs, k), h.offStrings + h.sizeStrings;
    CompleteSizes(h, bytes, recs, m);
    NopsLaid(bytes', p, n);
    assert bytes'[p + 4 * n..p + 4 * n + (size - (p + 4 * n))] == bytes[p + 4 * n..size] by {
      SliceSame(bytes, bytes', p + 4 * n, p + 4 * n, size - (p + 4 * n));
    }
    NopsNamed(h, bytes', n);
    CompleteSpliced(h, bytes, recs, bytes', k, m, Nops(n), h);
    SpliceItems(recs, k, m, Nops(n));
  }

  lemma NopsNamed(h: Header, bytes: seq<Byte>, n: nat)
    ensures AllNamed(bytes, h, Nops(n))
  {
  }

  lemma {:induction false} LiveConcat(xs: seq<Item>, ys: seq<Item>)
    ensures Live(xs + ys) == Live(xs) + Live(ys)
    decreases |ys|
  {
    if ys == [] {
      assert xs + ys == xs;
    } else {
      var n := |ys| - 1;
      LiveConcat(xs, ys[..n]);
      assert (xs + ys)[..|xs| + n] == xs + ys[..n];
    }
  }

  lemma {:induction false} LiveNops(xs: seq<Item>)
    requires forall k :: 0 <= k < |xs| ==> xs[k].Nop?
    ensures Live(xs) == []
  {
    if xs != [] {
      assert xs[|xs| - 1].Nop?;
      LiveNops(xs[..|xs| - 1]);
    }
  }

  /** Overwriting items with NOPs denotes the same tree as deleting them. */
  lemma NopIsDelete(xs: seq<Item>, k: nat, m: nat, nops: seq<Item>)
    requires k <= m <= |xs| && forall i :: 0 <= i < |nops| ==> nops[i].Nop?
    ensures Live(xs[..k] + nops + xs[m..]) == Live(xs[..k] + xs[m..])
  {
    hide Live;
    LiveConcat(xs[..k] + nops, xs[m..]);
    LiveConcat(xs[..k], nops);
    LiveConcat(xs[..k], xs[m..]);
    LiveNops(nops);
  }

  // Nodes.

  datatype Found = At(i: nat, depth: nat) | Behind(i: nat) | Nowhere

  /** fdt_next_node from item i on: the next node and the depth it is at, or the end of the node at
      depth 0. */
  function NextNodeFrom(xs: seq<Item>, i: nat, depth: nat): (r: Found)
    requires i <= |xs|
    ensures r.At? ==> i <= r.i < |xs| && xs[r.i].Begin?
    ensures r.Behind? ==> i < r.i <= |xs|
    decreases |xs| - i
  {
    if i == |xs| then Nowhere
    else match xs[i]
      case Begin(_) => At(i, depth + 1)
      case EndNode => if depth == 0 then Behind(i + 1) else NextNodeFrom(xs, i + 1, depth - 1)
      case _ => NextNodeFrom(xs, i + 1, depth)
  }

  lemma {:induction false} NextNodeEnd(xs: seq<Item>, i: nat, depth: nat)
    requires i <= |xs|
    ensures var r := NextNodeFrom(xs, i, depth);
      NodeEnd(xs, i, depth) ==
      match r case At(j, d) => NodeEnd(xs, j + 1, d) case Behind(j) => Some(j) case Nowhere => None
    decreases |xs| - i
  {
    if i < |xs| {
      match xs[i] {
        case Begin(_) =>
        case EndNode =>
          if depth > 0 {
            NextNodeEnd(xs, i + 1, depth - 1);
          }
        case _ => NextNodeEnd(xs, i + 1, depth);
      }
    }
  }

  const AT_SIGN: Byte := 64

  /** fdt_nodename_eq_: the names are equal, or the child's has a unit address more. */
  predicate NameEq(child: seq<Byte>, s: seq<Byte>) {
    s <= child && (|child| == |s| || (AT_SIGN !in s && child[|s|] == AT_SIGN))
  }

  /** The first child of that name in the node whose contents start at i; depth counts the nodes that
      are open inside it. */
  function FindChild(xs: seq<Item>, i: nat, depth: nat, name: seq<Byte>): (r: Option<nat>)
    requires i <= |xs|
    ensures r.Some? ==> i <= r.value < |xs| && xs[r.value].Begin? && NameEq(xs[r.value].name, name)
    decreases |xs| - i
  {
    if i == |xs| then None
    else match xs[i]
      case Begin(child) => if depth == 0 && NameEq(child, name) then Some(i) else FindChild(xs, i + 1, depth + 1, name)
      case EndNode => if depth == 0 then None else FindChild(xs, i + 1, depth - 1, name)
      case _ => FindChild(xs, i + 1, depth, name)
  }

  lemma {:induction false} NextNodeChild(xs: seq<Item>, i: nat, depth: nat, name: seq<Byte>)
    requires i <= |xs|
    ensures var r := NextNodeFrom(xs, i, depth);
      FindChild(xs, i, depth, name) ==
        match r
        case At(j, d) => if d == 1 && NameEq(xs[j].name, name) then Some(j) else FindChild(xs, j + 1, d, name)
        case _ => None
    decreases |xs| - i
  {
    hide NameEq;
    if i < |xs| {
      match xs[i] {
        case Begin(_) =>
        case EndNode =>
          if depth > 0 {
            NextNodeChild(xs, i + 1, depth - 1, name);
          }
        case _ => NextNodeChild(xs, i + 1, depth, name);
      }
    }
  }

  lemma CompleteSmall(h: Header, bytes: seq<Byte>, recs: seq<Rec>)
    requires Complete(h, bytes, recs)
    ensures h.offStrings + h.sizeStrings <= |bytes| < INT32_MAX
  {
  }

  lemma CompleteFits(h: Header, bytes: seq<Byte>, recs: seq<Rec>)
    requires Complete(h, bytes, recs)
    ensures Fits(Blob(h, bytes))
  {
  }

  /** What the sequential writer leaves behind can be edited, in a buffer that is no longer than the
      blob or in all of the old one. */
  lemma FinishedComplete(h: Header, bytes: seq<Byte>, recs: seq<Rec>)
    requires Moved(h, bytes, recs, |recs|) && h.magic == MAGIC && h.lastComp <= LAST_SUPPORTED && |bytes| < INT32_MAX
    ensures Complete(h, bytes, recs)
  {
    hide Laid, Load, Pos, NamedFwd, Pending;
    forall k | 0 <= k < |recs| ensures NamedFwd(bytes, h, recs[k]) {
    }
  }

  class Editor {
    const buf: array<Byte>
    var h: Header
    ghost var recs: seq<Rec>

    ghost predicate Valid()
      reads this, buf
    {
      Complete(h, buf[..], recs)
    }

    ghost function Tree(): seq<Item>
      reads this
    {
      Items(recs)
    }

    /** The offset is that of record k, a node. */
    ghost predicate IsNode(offset: int, k: nat)
      reads this
    {
      k < |recs| && recs[k].item.Begin? && offset == Pos(recs, k)
    }

    /** All that is asked of a node offset, whatever number it is: if a node tag can be read there, it
        is that of record k and not some bytes of a value that look like one. */
    ghost predicate NodeArg(offset: int, k: nat)
      requires Valid()
      reads this, buf
    {
      0 <= offset && offset % 4 == 0 && NextTag(Blob(h, buf[..]), offset).tag == BEGIN_NODE ==> IsNode(offset, k)
    }

    /** fdt_check_node_offset_: where the node's contents start. */
    method CheckNode(offset: int, ghost k: nat) returns (r: Option<nat>)
      requires Valid() && NodeArg(offset, k)
      ensures r.Some? <==> IsNode(offset, k)
      ensures r.Some? ==> r.value == Pos(recs, k + 1)
    {
      hide Complete, NextTag, RecAt, Pos;
      CompleteFits(h, buf[..], recs);
      if k < |recs| {
        PosAligned(recs, k);
        TagAt(h, buf[..], recs, k);
        TagNat(h, buf[..], recs, k);
      }
      if offset < 0 || offset % 4 != 0 {
        return None;
      }
      var t := NextTag(Blob(h, buf[..]), offset);
      if t.tag != BEGIN_NODE {
        return None;
      }
      return Some(t.next);
    }

    /** nextprop_: from record i on over NOPs to the next property. */
    method NextProp(start: nat, ghost i: nat) returns (r: Error, offset: nat, ghost j: nat)
      requires Valid() && i <= |recs| && start == Pos(recs, i)
      ensures r in {Ok, NotFound, BadStructure}
      ensures i <= j <= |recs| && offset == Pos(recs, j) && forall n :: i <= n < j ==> recs[n].item.Nop?
      ensures r == Ok <==> j < |recs| && recs[j].item.Prop?
      ensures r == BadStructure <==> j == |recs|
      ensures j < |recs| ==> !recs[j].item.Nop?
    {
      hide Complete, NextTag, RecAt, Pos;
      offset, j := start, i;
      while true
        invariant i <= j <= |recs| && offset == Pos(recs, j) && forall n :: i <= n < j ==> recs[n].item.Nop?
        decreases |recs| - j
      {
        TagAt(h, buf[..], recs, j);
        TagNat(h, buf[..], recs, j);
        var t := NextTag(Blob(h, buf[..]), offset);
        if t.tag == END {
          return BadStructure, offset, j;
        }
        if t.tag == PROP {
          return Ok, offset, j;
        }
        if t.tag != NOP {
          return NotFound, offset, j;
        }
        offset := t.next;
        j := j + 1;
      }
    }

    /** fdt_get_property: the property of that name of the node at record k. */
    method GetProperty(node: int, name: seq<Byte>, ghost k: nat) returns (r: Error, offset: nat, ghost j: nat)
      requires Valid() && NodeArg(node, k)
      ensures r in {Ok, NotFound, BadStructure, BadOffset}
      ensures r == BadOffset <==> !IsNode(node, k)
      ensures r == Ok ==> k < j < |recs| && offset == Pos(recs, j) && FindProp(Tree(), k + 1, name) == Some(j)
      ensures r == NotFound ==> FindProp(Tree(), k + 1, name) == None && PropsEnd(Tree(), k + 1) < |recs|
      ensures r == BadStructure ==> FindProp(Tree(), k + 1, name) == None && PropsEnd(Tree(), k + 1) == |recs|
    {
      hide Complete, NextTag, RecAt, Pos, GetString, Items, Load, FindProp, PropsEnd;
      j := k;
      var start := CheckNode(node, k);
      if start.None? {
        return BadOffset, 0, j;
      }
      j := k + 1;
      offset := start.value;
      while true
        invariant k < j <= |recs| && offset == Pos(recs, j)
        invariant FindProp(Tree(), j, name) == FindProp(Tree(), k + 1, name)
        invariant PropsEnd(Tree(), j) == PropsEnd(Tree(), k + 1)
        decreases |recs| - j
      {
        ghost var i := j;
        r, offset, j := NextProp(offset, i);
        SkipNops(Tree(), i, j, name);
        if r != Ok {
          PropStop(Tree(), j, name);
          return;
        }
        PropStep(Tree(), j, name);
        TagAt(h, buf[..], recs, j);
        TagNat(h, buf[..], recs, j);
        CompleteName(h, buf[..], recs, j);
        PropWords(h, buf[..], recs, j);
        if GetString(Blob(h, buf[..]), ToInt(Load(buf[..], h.offStruct + offset + 8))) == Some(name) {
          return;
        }
        offset := NextTag(Blob(h, buf[..]), offset).next;
        j := j + 1;
      }
    }

    /** fdt_splice_: what follows the oldlen bytes at p moves so that newlen bytes fit there. */
    method SpliceBytes(p: nat, oldlen: nat, newlen: nat) returns (r: Error)
      requires h.offStrings + h.sizeStrings <= buf.Length == h.totalsize
      modifies buf
      ensures r in {Ok, BadOffset, NoSpace}
      ensures r == BadOffset <==> p + oldlen > h.offStrings + h.sizeStrings
      ensures r == NoSpace <==>
        p + oldlen <= h.offStrings + h.sizeStrings && h.offStrings + h.sizeStrings - oldlen + newlen > h.totalsize
      ensures r == Ok ==> Shifted(old(buf[..]), buf[..], p, p + oldlen, newlen, h.offStrings + h.sizeStrings)
      ensures r != Ok ==> buf[..] == old(buf[..])
    {
      var dsize := h.offStrings + h.sizeStrings;
      if p + oldlen > dsize {
        return BadOffset;
      }
      if dsize - oldlen + newlen > h.totalsize {
        return NoSpace;
      }
      var tail := buf[p + oldlen..dsize];
      ghost var bytes := buf[..];
      assert tail == bytes[p + oldlen..dsize];
      CopyTo(buf, p + newlen, tail);
      PutFrame(bytes, p + newlen, tail, p, p + newlen + |tail|);
      return Ok;
    }

    /** fdt_splice_struct_. */
    method SpliceStruct(p: nat, oldlen: nat, newlen: nat) returns (r: Error)
      requires h.offStrings + h.sizeStrings <= buf.Length == h.totalsize <= INT32_MAX
      requires oldlen <= h.sizeStruct <= h.offStrings
      modifies buf, `h
      ensures r in {Ok, BadOffset, NoSpace}
      ensures r == BadOffset <==> p + oldlen > old(h.offStrings) + h.sizeStrings
      ensures r == NoSpace <==>
        p + oldlen <= old(h.offStrings) + h.sizeStrings &&
        old(h.offStrings) + h.sizeStrings - oldlen + newlen > h.totalsize
      ensures r == Ok ==> Shifted(old(buf[..]), buf[..], p, p + oldlen, newlen, old(h.offStrings) + h.sizeStrings)
      ensures r == Ok ==> h == old(h).(sizeStruct := old(h.sizeStruct) + newlen - oldlen,
        offStrings := old(h.offStrings) + newlen - oldlen)
      ensures r != Ok ==> buf[..] == old(buf[..]) && h == old(h)
    {
      hide Shifted;
      r := SpliceBytes(p, oldlen, newlen);
      if r == Ok {
        h := h.(sizeStruct := h.sizeStruct + newlen - oldlen, offStrings := h.offStrings + newlen - oldlen);
      }
    }

    /** There is room for n bytes more in the blob. */
    ghost predicate Room(n: int)
      reads this
    {
      h.offStrings + h.sizeStrings + n <= h.totalsize
    }

    /** fdt_resize_property_ and the copy of the new value, for the property at record j. */
    method ResizeProperty(offset: nat, val: seq<Byte>, ghost j: nat) returns (r: Error)
      requires Valid() && j < |recs| && recs[j].item.Prop? && offset == Pos(recs, j) && |val| + 15 <= INT32_MAX
      modifies this, buf
      ensures Valid() && r in {Ok, NoSpace}
      ensures r == Ok <==> old(Room(Align(|val|) - Align(|recs[j].item.val|)))
      ensures r == Ok ==> Tree() == old(Tree())[j := Prop(old(recs)[j].item.name, val)]
      ensures r == NoSpace ==> h == old(h) && buf[..] == old(buf[..]) && recs == old(recs)
    {
      hide Complete, Load, Align, Size, Big, Put, Shifted, Items, Pos;
      CompleteSizes(h, buf[..], recs, j);
      PropWords(h, buf[..], recs, j);
      AlignedUp(|val|);
      AlignedUp(|recs[j].item.val|);
      SizeProp(recs[j].item.name, recs[j].item.val);
      ghost var bytes := buf[..];
      var oldlen := Load(buf[..], h.offStruct + offset + 4);
      r := SpliceStruct(h.offStruct + offset + 12, Align(oldlen), Align(|val|));
      if r != Ok {
        return;
      }
      ghost var bytes1 := buf[..];
      ShiftedSizes(bytes, bytes1, h.offStruct + offset + 12, h.offStruct + offset + 12 + Align(oldlen), Align(|val|),
        old(h.offStrings) + h.sizeStrings);
      WriteValue(h.offStruct + offset, val);
      ResizeOk(old(h), bytes, recs, j, val, bytes1, buf[..], h);
      recs := recs[j := Rec(Prop(recs[j].item.name, val), recs[j].nameoff)];
    }

    /** The length and the data of the property at p. */
    method WriteValue(p: nat, val: seq<Byte>)
      requires p + 12 + |val| <= buf.Length && |val| <= INT32_MAX
      modifies buf
      ensures buf[..] == Put(Put(old(buf[..]), p + 4, Big(|val|)), p + 12, val)
    {
      hide Big, Put;
      CopyTo(buf, p + 4, Big(|val|));
      CopyTo(buf, p + 12, val);
    }

    /** The bytes a name needs in the strings block: none if it occurs there. */
    ghost function NameRoom(name: seq<Byte>): nat
      reads this, buf
    {
      if Occurs(buf[..], h.offStrings, h.offStrings + h.sizeStrings, name) then 0 else |name| + 1
    }

    /** fdt_find_add_string_: the offset of the name in the strings block. */
    method FindAddString(name: seq<Byte>) returns (r: Error, off: nat, added: bool)
      requires Valid()
      modifies `h, buf
      ensures Valid() && r in {Ok, NoSpace}
      ensures r == Ok <==> old(Room(NameRoom(name)))
      ensures added <==> r == Ok && old(NameRoom(name)) != 0
      ensures Complete(old(h), buf[..], recs)
      ensures !added ==> h == old(h) && buf[..] == old(buf[..])
      ensures added ==> h == old(h).(sizeStrings := old(h.sizeStrings) + |name| + 1)
      ensures r == Ok ==> off + |name| < h.sizeStrings && NameAt(buf[..], h.offStrings + off, name)
    {
      hide Complete, NameAt;
      CompleteSizes(h, buf[..], recs, 0);
      var p := FindString(buf, h.offStrings, h.offStrings + h.sizeStrings, name);
      if p.Some? {
        return Ok, p.value - h.offStrings, false;
      }
      off := h.sizeStrings;
      r := AppendString(name);
      added := r == Ok;
    }

    /** fdt_splice_string_ and the copy of the string. */
    method AppendString(name: seq<Byte>) returns (r: Error)
      requires Valid()
      modifies `h, buf
      ensures Valid() && Complete(old(h), buf[..], recs) && r in {Ok, NoSpace}
      ensures r == Ok <==> old(Room(|name| + 1))
      ensures r != Ok ==> h == old(h) && buf[..] == old(buf[..])
      ensures r == Ok ==> h == old(h).(sizeStrings := old(h.sizeStrings) + |name| + 1)
      ensures r == Ok ==> NameAt(buf[..], h.offStrings + old(h.sizeStrings), name)
    {
      hide Complete, NameAt, Put, Shifted;
      CompleteSizes(h, buf[..], recs, 0);
      ghost var bytes := buf[..];
      var now := h.offStrings + h.sizeStrings;
      r := SpliceBytes(now, 0, |name| + 1);
      if r != Ok {
        return;
      }
      ghost var bytes1 := buf[..];
      NothingShifted(bytes, bytes1, now, |name| + 1);
      CopyTo(buf, now, name + [0]);
      PutName(bytes1, now, name);
      PutFrame(bytes1, now, name + [0], now, now + |name| + 1);
      CompleteString(h, bytes, recs, name, buf[..], h.(sizeStrings := h.sizeStrings + |name| + 1));
      h := h.(sizeStrings := h.sizeStrings + |name| + 1);
    }

    /** fdt_add_property_ and the copy of the value: a new first property of the node at record k. */
    method AddProperty(node: int, name: seq<Byte>, val: seq<Byte>, ghost k: nat) returns (r: Error)
      requires Valid() && NodeArg(node, k) && 0 !in name && |val| + 15 <= INT32_MAX
      modifies this, buf
      ensures Valid() && r in {Ok, NoSpace, BadOffset}
      ensures r == BadOffset <==> !old(IsNode(node, k))
      ensures r != BadOffset ==> (r == Ok <==> old(Room(NameRoom(name) + 12 + Align(|val|))))
      ensures r == Ok ==> Tree() == old(Tree())[..k + 1] + [Prop(name, val)] + old(Tree())[k + 1..]
      ensures r != Ok ==> h == old(h) && recs == old(recs)
    {
      hide Complete, NameAt, Put, Shifted, Pos, Items, Size, Align, PutProp, NextTag;
      var next := CheckNode(node, k);
      if next.None? {
        return BadOffset;
      }
      AlignedUp(|val|);
      var err, namestroff, added := FindAddString(name);
      if err != Ok {
        return err;
      }
      CompleteSizes(h, buf[..], recs, k + 1);
      ghost var h1, bytes := h, buf[..];
      var p := h.offStruct + next.value;
      r := SpliceStruct(p, 0, 12 + Align(|val|));
      if r != Ok {
        if added {
          h := h.(sizeStrings := h.sizeStrings - (|name| + 1));
        }
        return;
      }
      ghost var bytes1 := buf[..];
      ShiftedSizes(bytes, bytes1, p, p, 12 + Align(|val|), h1.offStrings + h1.sizeStrings);
      WriteProperty(p, namestroff, val);
      AddOk(h1, bytes, recs, k + 1, name, val, namestroff, bytes1, buf[..], h);
      recs := Splice(recs, k + 1, k + 1, [Rec(Prop(name, val), namestroff)]);
    }

    method WriteProperty(p: nat, nameoff: Word, val: seq<Byte>)
      requires p + 12 + |val| <= buf.Length && |val| <= INT32_MAX
      modifies buf
      ensures buf[..] == PutProp(old(buf[..]), p, nameoff, val)
    {
      hide Big, Put;
      CopyTo(buf, p, Big(PROP));
      CopyTo(buf, p + 8, Big(nameoff));
      CopyTo(buf, p + 4, Big(|val|));
      CopyTo(buf, p + 12, val);
    }

    /** Room for a property: for the difference to its old value, or for all of it and its name. */
    ghost predicate SetRoom(k: nat, name: seq<Byte>, val: seq<Byte>)
      reads this, buf
    {
      k < |recs| &&
      var j := FindProp(Tree(), k + 1, name);
      if j.Some? then Room(Align(|val|) - Align(|Tree()[j.value].val|)) else Room(NameRoom(name) + 12 + Align(|val|))
    }

    /** fdt_setprop. */
    method Setprop(node: int, name: seq<Byte>, val: seq<Byte>, ghost k: nat) returns (r: Error)
      requires Valid() && NodeArg(node, k) && 0 !in name && |val| + 15 <= INT32_MAX
      modifies this, buf
      ensures Valid() && r in {Ok, NoSpace, BadOffset, BadStructure}
      ensures r == BadOffset <==> !old(IsNode(node, k))
      ensures r == BadStructure ==> PropsEnd(old(Tree()), k + 1) == |old(recs)|
      ensures r == Ok ==> Tree() == SetProp(old(Tree()), k, name, val)
      ensures r == Ok ==> old(SetRoom(k, name, val))
      ensures r == NoSpace ==> !old(SetRoom(k, name, val))
      ensures r != Ok ==> Tree() == old(Tree()) && h == old(h)
    {
      hide Complete, Items, Size, Align, Pos;
      var err, offset, j := GetProperty(node, name, k);
      if err == NotFound {
        r := AddProperty(node, name, val, k);
      } else if err == Ok {
        r := ResizeProperty(offset, val, j);
      } else {
        r := err;
      }
    }

    /** fdt_delprop. */
    method Delprop(node: int, name: seq<Byte>, ghost k: nat) returns (r: Error, ghost j: nat)
      requires Valid() && NodeArg(node, k)
      modifies this, buf
      ensures Valid() && r in {Ok, NotFound, BadOffset, BadStructure}
      ensures r == BadOffset <==> !old(IsNode(node, k))
      ensures r == NotFound || r == BadStructure ==> FindProp(old(Tree()), k + 1, name) == None
      ensures r == Ok ==> FindProp(old(Tree()), k + 1, name) == Some(j)
      ensures r == Ok ==> Tree() == old(Tree())[..j] + old(Tree())[j + 1..]
      ensures r != Ok ==> Tree() == old(Tree()) && h == old(h)
    {
      hide Complete, Items, Size, Align, Pos, Load, Shifted;
      var offset;
      r, offset, j := GetProperty(node, name, k);
      if r != Ok {
        return;
      }
      CompleteSizes(h, buf[..], recs, j);
      PropWords(h, buf[..], recs, j);
      SizeProp(recs[j].item.name, recs[j].item.val);
      AlignedUp(|recs[j].item.val|);
      PosNext(recs, j);
      ghost var bytes := buf[..];
      var len := Load(buf[..], h.offStruct + offset + 4);
      r := SpliceStruct(h.offStruct + offset, 12 + Align(len), 0);
      DeleteOk(old(h), bytes, recs, j, j + 1, buf[..], h);
      recs := Splice(recs, j, j + 1, []);
    }

    /** fdt_nop_region_: NOP tags over len bytes from start on, up to the next word. */
    method NopRegion(start: nat, len: nat, ghost n: nat)
      requires 4 * n - 4 < len <= 4 * n && start + 4 * n <= buf.Length
      modifies buf
      ensures buf[..][..start] == old(buf[..])[..start] && buf[..][start + 4 * n..] == old(buf[..])[start + 4 * n..]
      ensures NopsAt(buf[..], start, n)
    {
      hide Big, Put, Load;
      ghost var bytes := buf[..];
      var p := start;
      ghost var k := 0;
      while p < start + len
        invariant p == start + 4 * k && k <= n
        invariant buf[..][..start] == bytes[..start] && buf[..][start + 4 * n..] == bytes[start + 4 * n..]
        invariant NopsAt(buf[..], start, k)
      {
        ghost var was := buf[..];
        CopyTo(buf, p, Big(NOP));
        NopsMore(was, start, k, n);
        p := p + 4;
        k := k + 1;
      }
    }

    /** fdt_nop_property. */
    method NopProperty(node: int, name: seq<Byte>, ghost k: nat) returns (r: Error, ghost j: nat)
      requires Valid() && NodeArg(node, k)
      modifies `recs, buf
      ensures Valid() && r in {Ok, NotFound, BadOffset, BadStructure}
      ensures r == BadOffset <==> !old(IsNode(node, k))
      ensures r == NotFound || r == BadStructure ==> FindProp(old(Tree()), k + 1, name) == None
      ensures r == Ok ==> FindProp(old(Tree()), k + 1, name) == Some(j)
      ensures r == Ok ==> Live(Tree()) == Live(old(Tree())[..j] + old(Tree())[j + 1..])
      ensures r != Ok ==> Tree() == old(Tree())
    {
      hide Complete, Items, Size, Align, Pos, Load, NopsAt, Live, Nops;
      var offset;
      r, offset, j := GetProperty(node, name, k);
      if r != Ok {
        return;
      }
      CompleteSizes(h, buf[..], recs, j);
      PropWords(h, buf[..], recs, j);
      PosNext(recs, j);
      ghost var bytes, x := buf[..], recs[j].item;
      SizeProp(x.name, x.val);
      ghost var n := WordCount(x);
      var len := Load(buf[..], h.offStruct + offset + 4);
      NopRegion(h.offStruct + offset, len + 12, n);
      NopsOk(h, bytes, recs, j, j + 1, n, buf[..]);
      recs := Splice(recs, j, j + 1, Nops(n));
      NopItems(n);
      NopIsDelete(old(Tree()), j, j + 1, Items(Nops(n)));
    }

    /** fdt_next_node from the node at record k, whose depth is given, or from the start of the
        structure block if the offset is negative. */
    method NextNode(offset: int, depth: nat, ghost k: nat)
      returns (r: Error, next: nat, depth': int, ghost found: Found)
      requires Valid() && NodeArg(offset, k)
      ensures r in {Ok, NotFound, BadOffset}
      ensures r == BadOffset <==> offset >= 0 && !IsNode(offset, k)
      ensures r != BadOffset && offset >= 0 ==> found == NextNodeFrom(Tree(), k + 1, depth)
      ensures offset < 0 ==> found == NextNodeFrom(Tree(), 0, depth)
      ensures r != BadOffset ==> (r == NotFound <==> found.Nowhere?)
      ensures r == Ok ==> next == Pos(recs, found.i) && depth' == if found.At? then found.depth else -1
    {
      hide Complete, Items, Pos, NextTag, RecAt;
      var at := 0;
      ghost var i := 0;
      PosZero(recs);
      if offset >= 0 {
        var start := CheckNode(offset, k);
        if start.None? {
          return BadOffset, 0, depth, Nowhere;
        }
        at, i := start.value, k + 1;
      }
      var d := depth;
      found := NextNodeFrom(Tree(), i, depth);
      while true
        invariant i <= |recs| && at == Pos(recs, i) && d >= 0
        invariant NextNodeFrom(Tree(), i, d) == found
        decreases |recs| - i
      {
        TagAt(h, buf[..], recs, i);
        TagNat(h, buf[..], recs, i);
        var t := NextTag(Blob(h, buf[..]), at);
        if t.tag == BEGIN_NODE {
          return Ok, at, d + 1, found;
        }
        if t.tag == END {
          return NotFound, at, d, found;
        }
        if t.tag == END_NODE {
          if d == 0 {
            return Ok, t.next, -1, found;
          }
          d := d - 1;
        }
        at := t.next;
        i := i + 1;
      }
    }

    /** fdt_node_end_offset_. A negative number is passed on. */
    method NodeEndOffset(node: int, ghost k: nat) returns (r: Error, end: nat)
      requires Valid() && NodeArg(node, k)
      ensures node < 0 ==> r == Broken(node)
      ensures node >= 0 ==> r in {Ok, NotFound, BadOffset}
      ensures node >= 0 ==> (r == BadOffset <==> !IsNode(node, k))
      ensures IsNode(node, k) ==> (r == Ok <==> NodeEnd(Tree(), k + 1, 0).Some?)
      ensures r == Ok ==> end == Pos(recs, NodeEnd(Tree(), k + 1, 0).value)
    {
      hide Complete, Items, Pos, NodeEnd, NextNodeFrom, NextTag;
      if node < 0 {
        return Broken(node), 0;
      }
      var offset, depth := node, 0;
      ghost var i := k;
      while true
        invariant offset >= 0 && depth >= 0 && NodeArg(offset, i) && (!IsNode(node, k) ==> i == k && offset == node)
        invariant IsNode(node, k) ==>
          IsNode(offset, i) && i >= k && NodeEnd(Tree(), i + 1, depth) == NodeEnd(Tree(), k + 1, 0)
        decreases |recs| - i
      {
        if IsNode(offset, i) {
          NextNodeEnd(Tree(), i + 1, depth);
        }
        var err, next, d, found := NextNode(offset, depth, i);
        if err != Ok || d < 0 {
          return err, next;
        }
        offset, depth, i := next, d, found.i;
      }
    }

    /** fdt_del_node. */
    method DelNode(node: int, ghost k: nat) returns (r: Error, ghost m: nat)
      requires Valid() && NodeArg(node, k)
      modifies this, buf
      ensures Valid() && (node < 0 ==> r == Broken(node)) && (node >= 0 ==> r in {Ok, NotFound, BadOffset})
      ensures node >= 0 ==> (r == BadOffset <==> !old(IsNode(node, k)))
      ensures old(IsNode(node, k)) ==> (r == Ok <==> NodeEnd(old(Tree()), k + 1, 0).Some?)
      ensures r == Ok ==> NodeEnd(old(Tree()), k + 1, 0) == Some(m) && Tree() == old(Tree())[..k] + old(Tree())[m..]
      ensures r != Ok ==> Tree() == old(Tree()) && h == old(h)
    {
      hide Complete, Items, Size, Pos, Shifted, NodeEnd, NextTag;
      m := k;
      var err, end := NodeEndOffset(node, k);
      if err != Ok {
        return err, k;
      }
      m := NodeEnd(Tree(), k + 1, 0).value;
      CompleteSizes(h, buf[..], recs, m);
      PosGrows(recs, k, m);
      ghost var bytes := buf[..];
      r := SpliceStruct(h.offStruct + node, end - node, 0);
      DeleteOk(old(h), bytes, recs, k, m, buf[..], h);
      recs := Splice(recs, k, m, []);
    }

    /** fdt_nop_node. */
    method NopNode(node: int, ghost k: nat) returns (r: Error, ghost m: nat)
      requires Valid() && NodeArg(node, k)
      modifies `recs, buf
      ensures Valid() && (node < 0 ==> r == Broken(node)) && (node >= 0 ==> r in {Ok, NotFound, BadOffset})
      ensures node >= 0 ==> (r == BadOffset <==> !old(IsNode(node, k)))
      ensures old(IsNode(node, k)) ==> (r == Ok <==> NodeEnd(old(Tree()), k + 1, 0).Some?)
      ensures r == Ok ==> NodeEnd(old(Tree()), k + 1, 0) == Some(m)
      ensures r == Ok ==> Live(Tree()) == Live(old(Tree())[..k] + old(Tree())[m..])
      ensures r != Ok ==> Tree() == old(Tree())
    {
      hide Complete, Items, Size, Pos, NodeEnd, NopsAt, Live, Nops, Aligned, NextTag;
      m := k;
      var err, end := NodeEndOffset(node, k);
      if err != Ok {
        return err, k;
      }
      m := NodeEnd(Tree(), k + 1, 0).value;
      CompleteSizes(h, buf[..], recs, m);
      PosGrows(recs, k, m);
      ghost var bytes := buf[..];
      ghost var n := SpanWords(recs, k, m);
      NopRegion(h.offStruct + node, end - node, n);
      NopsOk(h, bytes, recs, k, m, n, buf[..]);
      recs := Splice(recs, k, m, Nops(n));
      NopItems(n);
      NopIsDelete(old(Tree()), k, m, Items(Nops(n)));
      return Ok, m;
    }

    /** fdt_subnode_offset_namelen: the child of that name. A negative number is passed on. */
    method SubnodeOffset(parent: int, name: seq<Byte>, ghost k: nat) returns (r: Error, child: nat)
      requires Valid() && NodeArg(parent, k)
      ensures parent < 0 ==> r == Broken(parent)
      ensures parent >= 0 ==> r in {Ok, NotFound, BadOffset}
      ensures parent >= 0 ==> (r == BadOffset <==> !IsNode(parent, k))
      ensures IsNode(parent, k) ==> (r == Ok <==> FindChild(Tree(), k + 1, 0, name).Some?)
      ensures r == Ok ==> child == Pos(recs, FindChild(Tree(), k + 1, 0, name).value)
    {
      hide Complete, Items, Pos, FindChild, NextNodeFrom, NameEq, Str, NextTag;
      if parent < 0 {
        return Broken(parent), 0;
      }
      var offset, depth := parent, 0;
      ghost var i := k;
      while true
        invariant offset >= 0 && depth >= 0 && NodeArg(offset, i) && (!IsNode(parent, k) ==> i == k && offset == parent)
        invariant IsNode(parent, k) ==> IsNode(offset, i) && i >= k
        invariant IsNode(parent, k) ==> FindChild(Tree(), i + 1, depth, name) == FindChild(Tree(), k + 1, 0, name)
        decreases |recs| - i
      {
        if IsNode(offset, i) {
          NextNodeChild(Tree(), i + 1, depth, name);
        }
        var err, next, d, found := NextNode(offset, depth, i);
        if err != Ok {
          return err, 0;
        }
        if d < 0 {
          return NotFound, 0;
        }
        offset, depth, i := next, d, found.i;
        NodeName(h, buf[..], recs, i);
        if depth == 1 && NameEq(Str(buf[..], h.offStruct + offset + 4), name) {
          return Ok, offset;
        }
      }
    }

    /** Where the properties of the node at record k end. */
    method PropsEndOffset(parent: nat, ghost k: nat) returns (offset: nat)
      requires Valid() && k < |recs| && recs[k].item.Begin? && parent == Pos(recs, k)
      ensures offset == Pos(recs, PropsEnd(Tree(), k + 1))
    {
      hide Complete, Items, Pos, NextTag, RecAt;
      TagAt(h, buf[..], recs, k);
      TagNat(h, buf[..], recs, k);
      offset := NextTag(Blob(h, buf[..]), parent).next;
      ghost var i := k + 1;
      while true
        invariant k < i <= |recs| && offset == Pos(recs, i) && PropsEnd(Tree(), i) == PropsEnd(Tree(), k + 1)
        decreases |recs| - i
      {
        TagAt(h, buf[..], recs, i);
        TagNat(h, buf[..], recs, i);
        var t := NextTag(Blob(h, buf[..]), offset);
        if t.tag != PROP && t.tag != NOP {
          return;
        }
        offset := t.next;
        i := i + 1;
      }
    }

    /** fdt_add_subnode_namelen: a new empty node behind the parent's properties. A negative number is
        passed on, unless it is the code that stands for a missing child. */
    method AddSubnode(parent: int, name: seq<Byte>, ghost k: nat) returns (r: Error, offset: nat)
      requires Valid() && NodeArg(parent, k) && 0 !in name && |name| + 15 <= INT32_MAX
      modifies this, buf
      ensures Valid() && (parent < 0 ==> r == if parent == -1 then Internal else Broken(parent))
      ensures parent >= 0 ==> r in {Ok, NoSpace, Exists, BadOffset}
      ensures parent >= 0 ==> (r == BadOffset <==> !old(IsNode(parent, k)))
      ensures old(IsNode(parent, k)) ==> (r == Exists <==> FindChild(old(Tree()), k + 1, 0, name).Some?)
      ensures r == Ok ==> old(Room(8 + Align(|name| + 1)))
      ensures r == NoSpace ==> !old(Room(8 + Align(|name| + 1)))
      ensures r == Ok ==> var e := PropsEnd(old(Tree()), k + 1);
        Tree() == old(Tree())[..e] + [Begin(name), EndNode] + old(Tree())[e..] && offset == Pos(recs, e)
      ensures r != Ok ==> Tree() == old(Tree()) && h == old(h)
    {
      hide Complete, Items, Pos, Shifted, FindChild, PropsEnd, PutNode, Align, NextTag;
      offset := 0;
      var err, child := SubnodeOffset(parent, name, k);
      if err == Ok {
        return Exists, 0;
      }
      if err != NotFound && err != Broken(-1) {
        return err, 0;
      }
      if parent < 0 {
        // fdt_next_tag finds no node at a negative offset.
        return Internal, 0;
      }
      ghost var e := PropsEnd(Tree(), k + 1);
      offset := PropsEndOffset(parent, k);
      CompleteSizes(h, buf[..], recs, e);
      AlignedUp(|name| + 1);
      ghost var bytes := buf[..];
      var p := h.offStruct + offset;
      r := SpliceStruct(p, 0, 4 + Align(|name| + 1) + 4);
      if r != Ok {
        return;
      }
      ghost var bytes1 := buf[..];
      ShiftedSizes(bytes, bytes1, p, p, 4 + Align(|name| + 1) + 4, old(h.offStrings) + h.sizeStrings);
      WriteNode(p, name);
      AddNodeOk(old(h), bytes, recs, e, name, bytes1, buf[..], h);
      recs := Splice(recs, e, e, [Rec(Begin(name), 0), Rec(EndNode, 0)]);
      SplicePosFront(old(recs), e, e, [Rec(Begin(name), 0), Rec(EndNode, 0)], e);
    }

    method WriteNode(p: nat, name: seq<Byte>)
      requires p + 4 + Align(|name| + 1) + 4 <= buf.Length
      modifies buf
      ensures |name| < Align(|name| + 1) && buf[..] == PutNode(old(buf[..]), p, name)
    {
      hide Big, Put, Align;
      AlignedUp(|name| + 1);
      CopyTo(buf, p, Big(BEGIN_NODE));
      CopyTo(buf, p + 4, seq(Align(|name| + 1), _ => 0));
      CopyTo(buf, p + 4, name);
      CopyTo(buf, p + 4 + Align(|name| + 1), Big(END_NODE));
    }
  }

  ghost function PutNode(bytes: seq<Byte>, p: nat, name: seq<Byte>): (r: seq<Byte>)
    requires p + 4 + Align(|name| + 1) + 4 <= |bytes| && |name| < Align(|name| + 1)
    ensures |r| == |bytes|
  {
    var n := Align(|name| + 1);
    Put(Put(Put(Put(bytes, p, Big(BEGIN_NODE)), p + 4, seq(n, _ => 0)), p + 4, name), p + 4 + n, Big(END_NODE))
  }

  lemma WroteNode(bytes: seq<Byte>, p: nat, name: seq<Byte>)
    requires p + 4 + Align(|name| + 1) + 4 <= |bytes| && |name| < Align(|name| + 1)
    ensures var b := PutNode(bytes, p, name);
      && RecAt(b, p, Rec(Begin(name), 0)) && RecAt(b, p + Size(Begin(name)), Rec(EndNode, 0))
      && b[..p] == bytes[..p] && b[p + Size(Begin(name)) + 4..] == bytes[p + Size(Begin(name)) + 4..]
  {
    hide Big, Load;
    var b, n := PutNode(bytes, p, name), Align(|name| + 1);
    var b1 := Put(bytes, p, Big(BEGIN_NODE));
    var b2 := Put(b1, p + 4, seq(n, _ => 0));
    var b3 := Put(b2, p + 4, name);
    PutIs(bytes, p, Big(BEGIN_NODE));
    PutIs(b1, p + 4, seq(n, _ => 0));
    PutIs(b2, p + 4, name);
    PutIs(b3, p + 4 + n, Big(END_NODE));
    LoadBig(b, p, BEGIN_NODE);
    LoadBig(b, p + 4 + Align(|name| + 1), END_NODE);
  }

  lemma AddNodeOk(h: Header, bytes: seq<Byte>, recs: seq<Rec>, e: nat, name: seq<Byte>, bytes1: seq<Byte>,
                  bytes2: seq<Byte>, h': Header)
    requires Complete(h, bytes, recs) && e <= |recs| && 0 !in name && |name| < Align(|name| + 1)
    requires var p := h.offStruct + Pos(recs, e);
      && Shifted(bytes, bytes1, p, p, 4 + Align(|name| + 1) + 4, h.offStrings + h.sizeStrings)
      && p + 4 + Align(|name| + 1) + 4 <= |bytes1| && bytes2 == PutNode(bytes1, p, name)
    requires var n := 4 + Align(|name| + 1) + 4;
      h.sizeStruct + n < UINT && h.offStrings + n < UINT &&
        h' == h.(sizeStruct := h.sizeStruct + n, offStrings := h.offStrings + n)
    ensures var recs' := Splice(recs, e, e, [Rec(Begin(name), 0), Rec(EndNode, 0)]);
      Complete(h', bytes2, recs') && Items(recs') == Items(recs)[..e] + [Begin(name), EndNode] + Items(recs)[e..]
  {
    hide Complete, RecAt, Align, Size, PutNode, Shifted, Items, Pos, Laid;
    var p, size := h.offStruct + Pos(recs, e), h.offStrings + h.sizeStrings;
    var begin, end := Rec(Begin(name), 0), Rec(EndNode, 0);
    SizeBegin(name);
    WroteNode(bytes1, p, name);
    ShiftedWrite(bytes, bytes1, bytes2, p, p, 4 + Align(|name| + 1) + 4, size);
    LaidOne(bytes2, p, begin);
    LaidMore(bytes2, p, [begin], end);
    assert [begin] + [end] == [begin, end];
    SizeEnd();
    CompleteSpliced(h, bytes, recs, bytes2, e, e, [begin, end], h');
    SpliceItems(recs, e, e, [begin, end]);
    ItemsOf([begin, end], [Begin(name), EndNode]);
  }

  lemma SizeEnd()
    ensures Size(EndNode) == 4
  {
  }

  lemma NopsMore(bytes: seq<Byte>, p: nat, k: nat, n: nat)
    requires NopsAt(bytes, p, k) && k < n && p + 4 * n <= |bytes|
    ensures var b := Put(bytes, p + 4 * k, Big(NOP));
      NopsAt(b, p, k + 1) && b[..p] == bytes[..p] && b[p + 4 * n..] == bytes[p + 4 * n..]
  {
    hide Big, Load;
    var b := Put(bytes, p + 4 * k, Big(NOP));
    WroteTag(bytes, p + 4 * k, NOP);
    forall j | 0 <= j <= k ensures NopAt(b, p, j) {
      if j < k {
        assert NopAt(bytes, p, j);
        LoadSame(bytes, b, p + 4 * j);
      }
    }
  }

  /** The words of a property. */
  ghost function WordCount(x: Item): (n: nat)
    requires x.Prop?
    ensures 4 * n == Size(x) && 4 * n - 4 < |x.val| + 12 <= 4 * n
  {
    Size(x) / 4
  }

  ghost function SpanWords(recs: seq<Rec>, k: nat, m: nat): (n: nat)
    requires k <= m <= |recs| && Pos(recs, k) <= Pos(recs, m)
    ensures 4 * n == Pos(recs, m) - Pos(recs, k)
  {
    PosAligned(recs, k);
    PosAligned(recs, m);
    (Pos(recs, m) - Pos(recs, k)) / 4
  }

  lemma NopItems(n: nat)
    ensures |Items(Nops(n))| == n && forall k :: 0 <= k < n ==> Items(Nops(n))[k].Nop?
  {
    hide Items;
  }

  lemma NodeName(h: Header, bytes: seq<Byte>, recs: seq<Rec>, k: nat)
    requires Complete(h, bytes, recs) && k < |recs| && recs[k].item.Begin?
    ensures var p := h.offStruct + Pos(recs, k) + 4; p <= |bytes| && Str(bytes, p) == recs[k].item.name
  {
    hide Complete, Pos, Load, Align, NextTag, Str;
    TagAt(h, bytes, recs, k);
    AlignUp(recs[k].item);
    StrIs(bytes, h.offStruct + Pos(recs, k) + 4, recs[k].item.name);
  }

  lemma AddOk(h: Header, bytes: seq<Byte>, recs: seq<Rec>, k: nat, name: seq<Byte>, val: seq<Byte>, nameoff: Word,
              bytes1: seq<Byte>, bytes2: seq<Byte>, h': Header)
    requires Complete(h, bytes, recs) && k <= |recs| && 0 !in name && |val| + 15 <= INT32_MAX
    requires nameoff + |name| < h.sizeStrings && NameAt(bytes, h.offStrings + nameoff, name)
    requires var p := h.offStruct + Pos(recs, k);
      && Shifted(bytes, bytes1, p, p, 12 + Align(|val|), h.offStrings + h.sizeStrings)
      && p + 12 + |val| <= |bytes1| && bytes2 == PutProp(bytes1, p, nameoff, val)
    requires var n := 12 + Align(|val|);
      h.sizeStruct + n < UINT && h.offStrings + n < UINT &&
        h' == h.(sizeStruct := h.sizeStruct + n, offStrings := h.offStrings + n)
    ensures var recs' := Splice(recs, k, k, [Rec(Prop(name, val), nameoff)]);
      Complete(h', bytes2, recs') && Items(recs') == Items(recs)[..k] + [Prop(name, val)] + Items(recs)[k..]
  {
    hide Complete, RecAt, Align, Size, PutProp, Shifted, Items, Pos, Laid, NameAt;
    var p, size, now := h.offStruct + Pos(recs, k), h.offStrings + h.sizeStrings, Rec(Prop(name, val), nameoff);
    SizeProp(name, val);
    AlignedUp(|val|);
    ShiftedSizes(bytes, bytes1, p, p, 12 + Align(|val|), size);
    WroteProp(bytes1, p, name, val, nameoff);
    ShiftedWrite(bytes, bytes1, bytes2, p, p, 12 + Align(|val|), size);
    CompleteSmall(h, bytes, recs);
    LaidOne(bytes2, p, now);
    CompleteSizes(h, bytes, recs, k);
    BackMoved(bytes, bytes2, p, p, 12 + Align(|val|), size, h.offStrings, h.sizeStrings);
    NameMoved(bytes, bytes2, h.offStrings, h'.offStrings, h.sizeStrings, nameoff, name);
    CompleteSpliced(h, bytes, recs, bytes2, k, k, [now], h');
    SpliceItems(recs, k, k, [now]);
    ItemsOf([now], [now.item]);
  }

  lemma DeleteOk(h: Header, bytes: seq<Byte>, recs: seq<Rec>, k: nat, m: nat, bytes': seq<Byte>, h': Header)
    requires Complete(h, bytes, recs) && k <= m <= |recs|
    requires Shifted(bytes, bytes', h.offStruct + Pos(recs, k), h.offStruct + Pos(recs, m), 0,
      h.offStrings + h.sizeStrings)
    requires var n := Pos(recs, m) - Pos(recs, k);
      0 <= n <= h.sizeStruct && n <= h.offStrings &&
        h' == h.(sizeStruct := h.sizeStruct - n, offStrings := h.offStrings - n)
    ensures var recs' := Splice(recs, k, m, []);
      Complete(h', bytes', recs') && Items(recs') == Items(recs)[..k] + Items(recs)[m..]
  {
    hide Complete, Shifted, Items, Pos, Laid;
    LaidNone(bytes', h.offStruct + Pos(recs, k));
    CompleteSpliced(h, bytes, recs, bytes', k, m, [], h');
    SpliceItems(recs, k, m, []);
    ItemsOf([], []);
  }

  /** Making room behind all data moves nothing. */
  lemma NothingShifted(bytes: seq<Byte>, bytes': seq<Byte>, size: nat, n: nat)
    requires Shifted(bytes, bytes', size, size, n, size)
    ensures bytes'[..size] == bytes[..size]
  {
  }

  lemma AlignedUp(n: nat)
    ensures n <= Align(n) < n + 4
  {
  }

  lemma ResizeOk(h: Header, bytes: seq<Byte>, recs: seq<Rec>, j: nat, val: seq<Byte>, bytes1: seq<Byte>,
                 bytes2: seq<Byte>, h': Header)
    requires Complete(h, bytes, recs) && j < |recs| && recs[j].item.Prop? && |val| + 15 <= INT32_MAX
    requires var p := h.offStruct + Pos(recs, j);
      && Shifted(bytes, bytes1, p + 12, p + 12 + Align(|recs[j].item.val|), Align(|val|), h.offStrings + h.sizeStrings)
      && p + 12 + |val| <= |bytes1| && bytes2 == Put(Put(bytes1, p + 4, Big(|val|)), p + 12, val)
    requires var delta := Align(|val|) - Align(|recs[j].item.val|);
      && h.sizeStruct + delta >= 0 && h.offStrings + delta >= 0
      && h.offStrings + delta < UINT && h.sizeStruct + delta < UINT
      && h' == h.(sizeStruct := h.sizeStruct + delta, offStrings := h.offStrings + delta)
    ensures var recs' := recs[j := Rec(Prop(recs[j].item.name, val), recs[j].nameoff)];
      Complete(h', bytes2, recs') && Items(recs') == Items(recs)[j := Prop(recs[j].item.name, val)]
  {
    hide Complete, Load, RecAt, Align, Size, Big, Put, Shifted, Items, Pos, Laid, ItemOk, NextTag;
    var was, size, p := recs[j], h.offStrings + h.sizeStrings, h.offStruct + Pos(recs, j);
    var now := Rec(Prop(was.item.name, val), was.nameoff);
    CompleteSizes(h, bytes, recs, j);
    TagAt(h, bytes, recs, j);
    SizeProp(was.item.name, was.item.val);
    SizeProp(was.item.name, val);
    Resized(bytes, bytes1, bytes2, p, was, val, size);
    ItemGrown(was.item, val);
    LaidOne(bytes2, p, now);
    PosNext(recs, j);
    NamedSpliced(h, bytes, recs, bytes2, j, j + 1, [now], h', j);
    CompleteSpliced(h, bytes, recs, bytes2, j, j + 1, [now], h');
    assert Splice(recs, j, j + 1, [now]) == recs[j := now];
    ItemsOf(recs[j := now], Items(recs)[j := now.item]);
  }

  lemma ItemGrown(x: Item, val: seq<Byte>)
    requires x.Prop? && ItemOk(x) && |val| <= INT32_MAX
    ensures ItemOk(Prop(x.name, val))
  {
  }

  lemma ItemsOf(recs: seq<Rec>, xs: seq<Item>)
    requires |xs| == |recs| && forall k :: 0 <= k < |recs| ==> xs[k] == recs[k].item
    ensures Items(recs) == xs
  {
  }

  lemma SpliceItems(recs: seq<Rec>, k: nat, m: nat, ins: seq<Rec>)
    requires k <= m <= |recs|
    ensures Items(Splice(recs, k, m, ins)) == Items(recs)[..k] + Items(ins) + Items(recs)[m..]
  {
    hide Items;
    ItemsOf(Splice(recs, k, m, ins), Items(recs)[..k] + Items(ins) + Items(recs)[m..]);
  }

  lemma CompleteSizes(h: Header, bytes: seq<Byte>, recs: seq<Rec>, j: nat)
    requires Complete(h, bytes, recs) && j <= |recs|
    ensures h.totalsize == |bytes| < INT32_MAX && h.offStruct + h.sizeStruct <= h.offStrings
    ensures h.offStrings + h.sizeStrings <= |bytes|
    ensures Pos(recs, j) + 4 <= h.sizeStruct
    ensures j < |recs| ==> Pos(recs, j) + Size(recs[j].item) + 4 <= h.sizeStruct
  {
    hide Laid, AllNamed, Load, Pos, Size;
    PosGrows(recs, j, |recs|);
  }

  /** The name of a record that takes the place of another one of that name. */
  lemma NamedSpliced(h: Header, bytes: seq<Byte>, recs: seq<Rec>, bytes': seq<Byte>, k: nat, m: nat, ins: seq<Rec>,
                     h': Header, i: nat)
    requires Complete(h, bytes, recs) && k <= m <= |recs| && i < |recs| && recs[i].item.Prop?
    requires |ins| == 1 && ins[0].item.Prop? && ins[0].item.name == recs[i].item.name
    requires ins[0].nameoff == recs[i].nameoff
    requires Shifted(bytes, bytes', h.offStruct + Pos(recs, k), h.offStruct + Pos(recs, m), Total(ins),
      h.offStrings + h.sizeStrings)
    requires var delta := Total(ins) - (Pos(recs, m) - Pos(recs, k));
      h.offStrings + delta >= 0 && h'.offStrings == h.offStrings + delta && h'.sizeStrings == h.sizeStrings
    ensures AllNamed(bytes', h', ins)
  {
    hide Pos, Laid, Shifted, Load, NameAt;
    var size := h.offStrings + h.sizeStrings;
    var p, q := h.offStruct + Pos(recs, k), h.offStruct + Pos(recs, m);
    PosGrows(recs, k, m);
    PosGrows(recs, m, |recs|);
    ShiftedSizes(bytes, bytes', p, q, Total(ins), size);
    BackMoved(bytes, bytes', p, q, Total(ins), size, h.offStrings, h.sizeStrings);
    assert NamedFwd(bytes, h, recs[i]);
    NamedMoved(bytes, h, bytes', h', recs[i]);
  }

  lemma TagNat(h: Header, bytes: seq<Byte>, recs: seq<Rec>, k: nat)
    requires Complete(h, bytes, recs) && k <= |recs|
    ensures Fits(Blob(h, bytes)) && NextTag(Blob(h, bytes), Pos(recs, k)).next >= 0
  {
    hide Complete, NextTag, RecAt;
    TagAt(h, bytes, recs, k);
  }

  /** NOPs make no difference to the searches. */
  lemma {:induction false} SkipNops(xs: seq<Item>, i: nat, j: nat, name: seq<Byte>)
    requires i <= j <= |xs| && forall n :: i <= n < j ==> xs[n].Nop?
    ensures FindProp(xs, i, name) == FindProp(xs, j, name) && PropsEnd(xs, i) == PropsEnd(xs, j)
    decreases j - i
  {
    if i < j {
      SkipNops(xs, i + 1, j, name);
    }
  }

  lemma PropStep(xs: seq<Item>, j: nat, name: seq<Byte>)
    requires j < |xs| && xs[j].Prop?
    ensures FindProp(xs, j, name) == if xs[j].name == name then Some(j) else FindProp(xs, j + 1, name)
    ensures PropsEnd(xs, j) == PropsEnd(xs, j + 1)
  {
  }

  lemma PropStop(xs: seq<Item>, j: nat, name: seq<Byte>)
    requires j <= |xs| && (j < |xs| ==> xs[j].Begin? || xs[j].EndNode?)
    ensures FindProp(xs, j, name) == None && PropsEnd(xs, j) == j
  {
  }

  lemma PropWords(h: Header, bytes: seq<Byte>, recs: seq<Rec>, j: nat)
    requires Complete(h, bytes, recs) && j < |recs| && recs[j].item.Prop?
    ensures var p := h.offStruct + Pos(recs, j);
      && p + Size(recs[j].item) <= |bytes| && p + 12 + |recs[j].item.val| <= |bytes|
      && Load(bytes, p + 4) == |recs[j].item.val| && Load(bytes, p + 8) == recs[j].nameoff
  {
    hide Complete, Pos, Load, Align, ItemOk, NextTag;
    TagAt(h, bytes, recs, j);
    AlignUp(recs[j].item);
  }
}
