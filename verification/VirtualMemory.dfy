/** Mapping, unmapping and copying of memory through page tables (kernel/vm.c). Addresses that the
    source keeps page-aligned are counted in pages. */
module VirtualMemory {

  import opened Common
  import opened Blocks
  import opened PageTable

  type Frames = map<nat, seq<Byte>>

  /** Pages first..first + n go to frames ppn.., and nothing else changes. */
  ghost predicate Mapped(tables: Tables, dir: Dir, tables': Tables, dir': Dir, first: nat, n: nat, ppn: nat,
                         flags: nat) {
    forall v: nat :: Leaf(tables', dir', v) == if first <= v < first + n then Entry(ppn + (v - first), flags)
      else Leaf(tables, dir, v)
  }

  ghost function Entry(ppn: nat, flags: nat): nat {
    if flags < 1024 then Make(ppn, flags) else 0
  }

  /** PGROUNDDOWN in pages. */
  function Floor(a: nat): nat {
    a / PGSIZE
  }

  lemma MappedMore(tables: Tables, dir: Dir, tables1: Tables, dir1: Dir, tables2: Tables, dir2: Dir, tables3: Tables,
                   first: nat, n: nat, ppn: nat, flags: nat)
    requires Mapped(tables, dir, tables1, dir1, first, n, ppn, flags)
    requires SameLeaves(tables1, dir1, tables2, dir2)
    requires forall v: nat :: Leaf(tables3, dir2, v) == if v == first + n then Entry(ppn + n, flags)
      else Leaf(tables2, dir2, v)
    ensures Mapped(tables, dir, tables3, dir2, first, n + 1, ppn, flags)
  {
    hide Leaf, Make;
    forall v: nat
      ensures Leaf(tables3, dir2, v) == if first <= v < first + n + 1 then Entry(ppn + (v - first), flags)
        else Leaf(tables, dir, v)
    {
      assert Leaf(tables2, dir2, v) == Leaf(tables1, dir1, v);
    }
  }

  /** A leaf entry is written where walk found its place. */
  lemma StoredApart(tables: Tables, pages: set<nat>, root: nat, dir: Dir, tables': Tables, vpn: nat, pte: nat)
    requires Shape(tables, root, dir) && Fresh(pages, dir) && Stored(tables, dir, tables', vpn, pte)
    ensures Shape(tables', root, dir) && Apart(tables, pages, dir, tables', pages, dir)
    ensures forall v :: Leaf(tables', dir, v) == if v == vpn then pte else Leaf(tables, dir, v)
  {
    hide Leaf, Shape, Px, NodeOf;
    StoredShape(tables, root, dir, tables', vpn, pte);
    assert dir[NodeOf(0, vpn)] in dir.Values;
  }

  /** The entries of n pages from first on are zero, all others stay. */
  ghost predicate Cleared(tables: Tables, tables': Tables, dir: Dir, first: nat, n: nat) {
    forall v: nat :: Leaf(tables', dir, v) == if first <= v < first + n then 0 else Leaf(tables, dir, v)
  }

  /** The frames of n pages from first on. */
  ghost function FrameSet(tables: Tables, dir: Dir, first: nat, n: nat): set<nat> {
    if n == 0 then {} else FrameSet(tables, dir, first, n - 1) + {Ppn(Leaf(tables, dir, first + n - 1))}
  }

  /** Their frames are in use, each for one page only. */
  ghost predicate FreeableRange(tables: Tables, dir: Dir, frames: Frames, first: nat, n: nat) {
    && (forall v: nat :: first <= v < first + n ==> Ppn(Leaf(tables, dir, v)) in frames)
    && (forall v: nat, w: nat :: first <= v < w < first + n ==> Ppn(Leaf(tables, dir, v)) != Ppn(Leaf(tables, dir, w)))
  }

  lemma FreeableOne(tables: Tables, dir: Dir, frames: Frames, first: nat, n: nat, k: nat)
    requires FreeableRange(tables, dir, frames, first, n) && k < n
    ensures Ppn(Leaf(tables, dir, first + k)) in frames - FrameSet(tables, dir, first, k)
  {
    hide Leaf, Ppn;
    FrameApart(tables, dir, frames, first, n, k, k);
  }

  lemma {:induction false} FrameApart(tables: Tables, dir: Dir, frames: Frames, first: nat, n: nat, k: nat, j: nat)
    requires FreeableRange(tables, dir, frames, first, n) && j <= k < n
    ensures Ppn(Leaf(tables, dir, first + k)) !in FrameSet(tables, dir, first, j)
    decreases j
  {
    hide Leaf, Ppn;
    if j > 0 {
      FrameApart(tables, dir, frames, first, n, k, j - 1);
    }
  }

  lemma ValidServed(tables: Tables, dir: Dir, vpn: nat)
    requires V(Leaf(tables, dir, vpn))
    ensures NodeOf(0, vpn) in dir
  {
  }

  /** The pages of two page tables are different pages. */
  ghost predicate Separate(d: Dir, e: Dir) {
    forall k, j :: k in d && j in e ==> d[k] != e[j]
  }

  /** Page i has a frame that is in use, and its entry is a leaf. */
  ghost predicate Source(tables: Tables, dir: Dir, frames: Frames, i: nat) {
    var pte := Leaf(tables, dir, i);
    V(pte) && Flags(pte) != 1 && Ppn(pte) in frames
  }

  lemma FlagsOf(pte: nat)
    ensures Flags(pte) < 1024 && (V(pte) ==> WithV(Flags(pte)) == Flags(pte))
  {
    assert pte == pte / 1024 * 1024 + pte % 1024;
  }

  lemma OnePage(i: nat, p: nat)
    ensures Floor(i * PGSIZE) == i && Floor(i * PGSIZE + PGSIZE - 1) == i && Floor(p * PGSIZE) == p
    ensures i < MAX_VPN ==> i * PGSIZE + PGSIZE <= MAX_VPN * PGSIZE
  {
  }

  lemma FloorBelow(va: nat, size: nat)
    requires size > 0 && va + size <= MAX_VPN * PGSIZE
    ensures Floor(va) <= Floor(va + size - 1) < MAX_VPN
  {
  }

  lemma WithVSmall(perm: nat)
    requires perm < 1024
    ensures WithV(perm) < 1024
  {
  }

  lemma MappedNone(tables: Tables, dir: Dir, tables': Tables, dir': Dir, first: nat, ppn: nat, flags: nat)
    requires Mapped(tables, dir, tables', dir', first, 0, ppn, flags)
    ensures SameLeaves(tables, dir, tables', dir')
  {
    hide Leaf, Make;
  }

  /** What a fresh page is to be: its flags and its bytes. */
  datatype Page = Page(flags: nat, bytes: seq<Byte>)

  /** From first on, as many pages as there are frames in taken have the flags and the bytes wanted,
      on frames that were free before. Frames are taken once each, no frame in use before has
      changed, and no other page is mapped differently. */
  ghost predicate Filled(t0: Tables, f0: Frames, free0: set<nat>, dirN: Dir, tables: Tables, frames: Frames,
                         free: set<nat>, dir': Dir, first: nat, want: seq<Page>, taken: seq<nat>)
  {
    && |taken| <= |want|
    && (forall v: nat :: Leaf(tables, dir', v) == Expected(t0, dirN, first, want, taken, v))
    && (forall j: nat :: j < |taken| ==> FilledOne(free0, frames, free, want[j], taken[j]))
    && (forall j: nat, k: nat :: j < k < |taken| ==> taken[j] != taken[k])
    && free <= free0 && (forall p :: p in free0 ==> p in free || p in taken)
    && (forall p :: p in f0 ==> p in frames && frames[p] == f0[p]) &&
         (forall p :: p in frames ==> p in f0 || p in taken)
  }

  ghost function Expected(t0: Tables, dirN: Dir, first: nat, want: seq<Page>, taken: seq<nat>, v: nat): nat
    requires |taken| <= |want|
  {
    if first <= v < first + |taken| then Entry(taken[v - first], want[v - first].flags) else Leaf(t0, dirN, v)
  }

  ghost predicate FilledOne(free0: set<nat>, frames: Frames, free: set<nat>, page: Page, m: nat) {
    m in free0 && m !in free && m in frames && frames[m] == page.bytes
  }

  /** A page the callers ask for: a valid leaf. */
  ghost predicate Proper(page: Page) {
    page.flags < 1024 && page.flags % 2 == 1 && page.flags != 1
  }

  lemma FilledNone(t0: Tables, f0: Frames, free0: set<nat>, dirN: Dir, first: nat, want: seq<Page>)
    ensures Filled(t0, f0, free0, dirN, t0, f0, free0, dirN, first, want, [])
  {
    hide Leaf;
  }

  lemma FilledMore(t0: Tables, f0: Frames, free0: set<nat>, dirN: Dir, t1: Tables, f1: Frames, free1: set<nat>,
                   dir1: Dir,
                   first: nat, want: seq<Page>, taken: seq<nat>, tables: Tables, frames: Frames, free: set<nat>,
                     dir': Dir, mem: nat)
    requires Filled(t0, f0, free0, dirN, t1, f1, free1, dir1, first, want, taken) && |taken| < |want|
    requires Proper(want[|taken|])
    requires mem in free1 && mem !in f1 && free == free1 - {mem} && frames == f1[mem := want[|taken|].bytes]
    requires Mapped(t1, dir1, tables, dir', first + |taken|, 1, mem, want[|taken|].flags)
    ensures Filled(t0, f0, free0, dirN, tables, frames, free, dir', first, want, taken + [mem])
  {
    hide Leaf, Make;
    var i, more := |taken|, taken + [mem];
    forall v: nat ensures Leaf(tables, dir', v) == Expected(t0, dirN, first, want, more, v) {
      assert Leaf(t1, dir1, v) == Expected(t0, dirN, first, want, taken, v);
    }
    forall j: nat | j < |more| ensures FilledOne(free0, frames, free, want[j], more[j]) {
      if j < i {
        assert FilledOne(free0, f1, free1, want[j], taken[j]);
      }
    }
  }

  lemma FilledSame(t0: Tables, f0: Frames, free0: set<nat>, dirN: Dir, t1: Tables, f1: Frames, free1: set<nat>,
                   dir1: Dir,
                   first: nat, want: seq<Page>, taken: seq<nat>, tables: Tables, dir': Dir)
    requires Filled(t0, f0, free0, dirN, t1, f1, free1, dir1, first, want, taken) && SameLeaves(t1, dir1, tables, dir')
    ensures Filled(t0, f0, free0, dirN, tables, f1, free1, dir', first, want, taken)
  {
    hide Leaf, Expected;
    forall v: nat ensures Leaf(tables, dir', v) == Expected(t0, dirN, first, want, taken, v) {
      assert Leaf(tables, dir', v) == Leaf(t1, dir1, v);
    }
  }

  /** What has been filled can be unmapped and freed. */
  lemma FilledFreeable(t0: Tables, f0: Frames, free0: set<nat>, dirN: Dir, tables: Tables, frames: Frames,
                       free: set<nat>,
                       dir': Dir, first: nat, want: seq<Page>, taken: seq<nat>)
    requires Filled(t0, f0, free0, dirN, tables, frames, free, dir', first, want, taken)
    requires forall j :: 0 <= j < |want| ==> Proper(want[j])
    ensures forall v :: first <= v < first + |taken| ==> V(Leaf(tables, dir', v)) && Flags(Leaf(tables, dir', v)) != 1
    ensures forall v :: first <= v < first + |taken| ==> Ppn(Leaf(tables, dir', v)) == taken[v - first]
    ensures FreeableRange(tables, dir', frames, first, |taken|)
  {
    hide Leaf, Make, Flags, Ppn, V;
    forall v: nat | first <= v < first + |taken|
      ensures Ppn(Leaf(tables, dir', v)) == taken[v - first] && V(Leaf(tables, dir', v))
      ensures Flags(Leaf(tables, dir', v)) != 1
      ensures taken[v - first] in frames
    {
      MadeOf(taken[v - first], want[v - first].flags);
      assert FilledOne(free0, frames, free, want[v - first], taken[v - first]);
    }
  }

  lemma {:induction false} FrameSetTaken(tables: Tables, dir: Dir, first: nat, taken: seq<nat>, k: nat)
    requires k <= |taken| && forall v :: first <= v < first + |taken| ==> Ppn(Leaf(tables, dir, v)) == taken[v - first]
    ensures forall p :: p in FrameSet(tables, dir, first, k) <==> exists j :: 0 <= j < k && taken[j] == p
  {
    hide Leaf, Ppn;
    if k > 0 {
      FrameSetTaken(tables, dir, first, taken, k - 1);
      assert Ppn(Leaf(tables, dir, first + k - 1)) == taken[k - 1];
    }
  }

  /** After a failure no frame is missing and no page is mapped that was not before. */
  lemma FilledUndone(t0: Tables, f0: Frames, free0: set<nat>, dirN: Dir, t2: Tables, frames: Frames, free: set<nat>,
                     dir': Dir, first: nat, want: seq<Page>, taken: seq<nat>, tables: Tables)
    requires Filled(t0, f0, free0, dirN, t2, frames, free, dir', first, want, taken)
    requires forall j :: 0 <= j < |want| ==> Proper(want[j])
    requires forall v: nat :: first <= v < first + |want| ==> !V(Leaf(t0, dirN, v))
    requires Cleared(t2, tables, dir', first, |taken|)
    requires forall p :: p in free0 ==> p !in f0
    ensures free + FrameSet(t2, dir', first, |taken|) == free0 && frames - FrameSet(t2, dir', first, |taken|) == f0
    ensures SameMapped(t0, dirN, tables, dir')
  {
    hide Leaf, Make, Flags, Ppn, V, Filled, SameMapped, Proper, Cleared, FrameSet;
    FilledFreeable(t0, f0, free0, dirN, t2, frames, free, dir', first, want, taken);
    FrameSetTaken(t2, dir', first, taken, |taken|);
    TakenBack(t0, f0, free0, dirN, t2, frames, free, dir', first, want, taken, FrameSet(t2, dir', first, |taken|));
    MappedBack(t0, f0, free0, dirN, t2, frames, free, dir', first, want, taken, tables);
  }

  lemma TakenBack(t0: Tables, f0: Frames, free0: set<nat>, dirN: Dir, t2: Tables, frames: Frames, free: set<nat>,
                  dir': Dir, first: nat, want: seq<Page>, taken: seq<nat>, gone: set<nat>)
    requires Filled(t0, f0, free0, dirN, t2, frames, free, dir', first, want, taken)
    requires forall p :: p in gone <==> exists j :: 0 <= j < |taken| && taken[j] == p
    requires forall p :: p in free0 ==> p !in f0
    ensures free + gone == free0 && frames - gone == f0
  {
    hide Leaf, Expected;
    forall j: nat | j < |taken| ensures taken[j] in free0 && taken[j] in gone {
      assert FilledOne(free0, frames, free, want[j], taken[j]);
    }
    assert forall p :: p in taken <==> p in gone;
  }

  lemma MappedBack(t0: Tables, f0: Frames, free0: set<nat>, dirN: Dir, t2: Tables, frames: Frames, free: set<nat>,
                   dir': Dir, first: nat, want: seq<Page>, taken: seq<nat>, tables: Tables)
    requires Filled(t0, f0, free0, dirN, t2, frames, free, dir', first, want, taken)
    requires forall v: nat :: first <= v < first + |want| ==> !V(Leaf(t0, dirN, v))
    requires Cleared(t2, tables, dir', first, |taken|)
    ensures SameMapped(t0, dirN, tables, dir')
  {
    hide Leaf, V, FilledOne;
    ZeroInvalid();
    forall v: nat
      ensures V(Leaf(tables, dir', v)) || V(Leaf(t0, dirN, v)) ==> Leaf(tables, dir', v) == Leaf(t0, dirN, v)
    {
      if !(first <= v < first + |taken|) {
        assert Leaf(t2, dir', v) == Expected(t0, dirN, first, want, taken, v);
      }
    }
  }

  /** The same pages are mapped in the same way. */
  ghost predicate SameMapped(t0: Tables, dirN: Dir, tables: Tables, dir': Dir) {
    forall v: nat :: V(Leaf(tables, dir', v)) || V(Leaf(t0, dirN, v)) ==> Leaf(tables, dir', v) == Leaf(t0, dirN, v)
  }

  // Fork.

  /** The page a fork wants at i: the parent's flags and bytes. */
  ghost function ParentPage(t0: Tables, f0: Frames, dirO: Dir, i: nat): Page {
    var pte := Leaf(t0, dirO, i);
    Page(Flags(pte), if Ppn(pte) in f0 then f0[Ppn(pte)] else [])
  }

  ghost function ParentPages(t0: Tables, f0: Frames, dirO: Dir, n: nat): (want: seq<Page>)
    ensures |want| == n && forall i :: 0 <= i < n ==> want[i] == ParentPage(t0, f0, dirO, i)
  {
    if n == 0 then [] else ParentPages(t0, f0, dirO, n - 1) + [ParentPage(t0, f0, dirO, n - 1)]
  }

  lemma ParentProper(t0: Tables, f0: Frames, dirO: Dir, n: nat)
    requires forall i: nat :: i < n ==> Source(t0, dirO, f0, i)
    ensures forall i :: 0 <= i < n ==> Proper(ParentPages(t0, f0, dirO, n)[i])
  {
    hide Leaf, V, Flags, Ppn, ParentPages;
    forall i: nat | i < n ensures Proper(ParentPages(t0, f0, dirO, n)[i]) {
      assert Source(t0, dirO, f0, i);
      FlagsOf(Leaf(t0, dirO, i));
      FlagsV(Leaf(t0, dirO, i));
    }
  }

  lemma FlagsV(pte: nat)
    ensures Flags(pte) % 2 == 1 <==> V(pte)
  {
    assert pte == pte / 1024 * 1024 + pte % 1024;
  }

  /** The parent's table is untouched by work on the child's. */
  lemma SourceKept(t0: Tables, p0: set<nat>, src: nat, dirO: Dir, dirN: Dir, tables: Tables, pages: set<nat>, dir': Dir)
    requires Shape(t0, src, dirO) && Fresh(p0, dirO) && Separate(dirO, dirN) && Apart(t0, p0, dirN, tables, pages, dir')
    ensures Shape(tables, src, dirO) && Fresh(pages, dirO) && Separate(dirO, dir') && SameLeaves(t0, dirO, tables, dirO)
  {
    hide V, Ppn, Upper;
    forall k | k in dirO ensures dirO[k] in tables && tables[dirO[k]] == t0[dirO[k]] {
      if dirO[k] in dirN.Values {
        assert false;
      }
    }
    forall k, i | k in dirO && k.level > 0 && 0 <= i < ENTRIES ensures LinkOk(tables, dirO, k, i) {
      assert LinkOk(t0, dirO, k, i);
    }
  }

  lemma SourceNow(t0: Tables, f0: Frames, free0: set<nat>, dirO: Dir, dirN: Dir, tables: Tables, frames: Frames,
                  free: set<nat>, dir': Dir, want: seq<Page>, taken: seq<nat>, i: nat)
    requires Filled(t0, f0, free0, dirN, tables, frames, free, dir', 0, want, taken) && i == |taken|
    requires Source(t0, dirO, f0, i) && SameLeaves(t0, dirO, tables, dirO)
    ensures Source(tables, dirO, frames, i) && Leaf(tables, dirO, i) == Leaf(t0, dirO, i)
    ensures Page(Flags(Leaf(tables, dirO, i)), frames[Ppn(Leaf(tables, dirO, i))]) == ParentPage(t0, f0, dirO, i)
  {
    hide Leaf, Flags, Ppn, V, FilledOne, Expected;
    assert Leaf(tables, dirO, i) == Leaf(t0, dirO, i);
  }

  lemma UnmappedNow(t0: Tables, f0: Frames, free0: set<nat>, dirN: Dir, tables: Tables, frames: Frames, free: set<nat>,
                    dir': Dir, first: nat, want: seq<Page>, taken: seq<nat>)
    requires Filled(t0, f0, free0, dirN, tables, frames, free, dir', first, want, taken)
    ensures Leaf(tables, dir', first + |taken|) == Leaf(t0, dirN, first + |taken|)
  {
    hide Leaf;
    assert Leaf(tables, dir', first + |taken|) == Expected(t0, dirN, first, want, taken, first + |taken|);
  }

  /** After a fork the two memories have no frame in common: a write through one table is never seen
      through the other. */
  lemma ForkApart(t0: Tables, f0: Frames, free0: set<nat>, dirO: Dir, dirN: Dir, tables: Tables, frames: Frames,
                  free: set<nat>, dir': Dir, n: nat, taken: seq<nat>, v: nat, w: nat)
    requires forall i: nat :: i < n ==> Source(t0, dirO, f0, i)
    requires forall p :: p in free0 ==> p !in f0
    requires |taken| == n && SameLeaves(t0, dirO, tables, dirO) && v < n && w < n
    requires Filled(t0, f0, free0, dirN, tables, frames, free, dir', 0, ParentPages(t0, f0, dirO, n), taken)
    ensures Ppn(Leaf(tables, dirO, v)) != Ppn(Leaf(tables, dir', w))
    ensures Ppn(Leaf(tables, dirO, w)) in frames && Ppn(Leaf(tables, dir', w)) in frames
    ensures frames[Ppn(Leaf(tables, dir', w))] == frames[Ppn(Leaf(tables, dirO, w))]
    ensures Flags(Leaf(tables, dir', w)) == Flags(Leaf(tables, dirO, w))
  {
    hide Leaf, Make, Flags, Ppn, V, ParentPages;
    assert Source(t0, dirO, f0, v) && Source(t0, dirO, f0, w);
    assert Leaf(tables, dirO, v) == Leaf(t0, dirO, v) && Leaf(tables, dirO, w) == Leaf(t0, dirO, w);
    var want := ParentPages(t0, f0, dirO, n);
    assert FilledOne(free0, frames, free, want[w], taken[w]);
    assert Leaf(tables, dir', w) == Expected(t0, dirN, 0, want, taken, w);
    FlagsOf(Leaf(t0, dirO, w));
    MadeOf(taken[w], Flags(Leaf(t0, dirO, w)));
  }

  /** A page is in at most one use: left to alloc_pages, left to kalloc, a page table, or data. */
  ghost predicate Split(tables: Tables, frames: Frames, pages: set<nat>, free: set<nat>) {
    && (forall p :: p in tables ==> p !in frames && p !in pages && p !in free)
    && (forall p :: p in frames ==> p !in pages && p !in free)
    && pages !! free
  }

  ghost function AllOf(tables: Tables, frames: Frames, pages: set<nat>, free: set<nat>): set<nat> {
    tables.Keys + frames.Keys + pages + free
  }

  /** A page of the pool becomes a table. */
  lemma MoveTable(tables: Tables, frames: Frames, pages: set<nat>, free: set<nat>, tables': Tables, c: nat)
    requires Split(tables, frames, pages, free) && c in pages && tables'.Keys == tables.Keys + {c}
    ensures Split(tables', frames, pages - {c}, free)
    ensures AllOf(tables', frames, pages - {c}, free) == AllOf(tables, frames, pages, free)
  {
    assert forall p :: p in tables' <==> p in tables'.Keys;
  }

  /** A page kalloc has becomes a table. */
  lemma MoveRoot(tables: Tables, frames: Frames, pages: set<nat>, free: set<nat>, c: nat, t: Table)
    requires Split(tables, frames, pages, free) && c in free
    ensures Split(tables[c := t], frames, pages, free - {c})
    ensures AllOf(tables[c := t], frames, pages, free - {c}) == AllOf(tables, frames, pages, free)
  {
    assert tables[c := t].Keys == tables.Keys + {c};
  }

  /** Entries of tables change. */
  lemma MoveEntry(tables: Tables, frames: Frames, pages: set<nat>, free: set<nat>, tables': Tables)
    requires Split(tables, frames, pages, free) && tables'.Keys == tables.Keys
    ensures Split(tables', frames, pages, free)
    ensures AllOf(tables', frames, pages, free) == AllOf(tables, frames, pages, free)
  {
    assert forall p :: p in tables' <==> p in tables'.Keys;
  }

  /** A page kalloc has gets bytes. */
  lemma MoveFrame(tables: Tables, frames: Frames, pages: set<nat>, free: set<nat>, m: nat, bytes: seq<Byte>)
    requires Split(tables, frames, pages, free) && m in free
    ensures Split(tables, frames[m := bytes], pages, free - {m}) && m !in frames && m !in tables
    ensures AllOf(tables, frames[m := bytes], pages, free - {m}) == AllOf(tables, frames, pages, free)
  {
    assert frames[m := bytes].Keys == frames.Keys + {m};
  }

  /** A frame goes back to kalloc. */
  lemma MoveBack(tables: Tables, frames: Frames, pages: set<nat>, free: set<nat>, m: nat)
    requires Split(tables, frames, pages, free) && m in frames
    ensures m !in free && tables - {m} == tables
    ensures Split(tables, frames - {m}, pages, free + {m})
    ensures AllOf(tables, frames - {m}, pages, free + {m}) == AllOf(tables, frames, pages, free)
  {
    assert (frames - {m}).Keys == frames.Keys - {m};
  }

  lemma SplitFresh(tables: Tables, frames: Frames, pages: set<nat>, free: set<nat>, root: nat, dir: Dir)
    requires Split(tables, frames, pages, free) && Shape(tables, root, dir)
    ensures Fresh(pages, dir) && Fresh(free, dir)
  {
    hide LinkOk;
  }

  class Memory {
    /** What is on the pages in use: tables, and bytes. */
    var tables: Tables
    var frames: Frames
    /** The pages alloc_pages has left, and those kalloc has. */
    var pages: set<nat>
    var free: set<nat>

    ghost predicate Valid()
      reads this
    {
      Split(tables, frames, pages, free)
    }

    /** All pages of the machine that are accounted for. */
    ghost function All(): set<nat>
      reads this
    {
      AllOf(tables, frames, pages, free)
    }

    /** walk(): the place of the entry for vpn. */
    method Walk(root: nat, vpn: nat, alloc: bool, ghost dir: Dir) returns (r: Option<(nat, nat)>, ghost dir': Dir)
      requires Valid() && Shape(tables, root, dir) && vpn < MAX_VPN
      modifies `tables, `pages
      ensures Shape(tables, root, dir') && Apart(old(tables), old(pages), dir, tables, pages, dir')
      ensures SameLeaves(old(tables), dir, tables, dir')
      ensures r.Some? <==> NodeOf(0, vpn) in dir'
      ensures r.Some? ==> r.value == (dir'[NodeOf(0, vpn)], Px(0, vpn))
      ensures alloc && r.None? ==> pages == {}
      ensures !alloc ==> tables == old(tables) && pages == old(pages) && dir' == dir
      ensures Valid() && All() == old(All())
    {
      hide V, Ppn, Make, Upper, Shape, SameLeaves, Apart, Px, Split, AllOf;
      RootServes(vpn);
      ShapeRoot(tables, root, dir);
      SplitFresh(tables, frames, pages, free, root, dir);
      NoStep(tables, pages, dir);
      dir' := dir;
      var page, level: nat := root, TOP;
      while level > 0
        invariant level <= TOP && NodeOf(level, vpn) in dir' && dir'[NodeOf(level, vpn)] == page
        invariant Valid() && All() == old(All()) && Shape(tables, root, dir') && Fresh(pages, dir')
        invariant Apart(old(tables), old(pages), dir, tables, pages, dir') && SameLeaves(old(tables), dir, tables, dir')
        invariant !alloc ==> tables == old(tables) && pages == old(pages) && dir' == dir
      {
        ghost var k := NodeOf(level, vpn);
        var i := Px(level, vpn);
        LinkAt(tables, root, dir', k, i);
        var pte := tables[page][i];
        ChildOf(level, vpn);
        if V(pte) {
          page := Ppn(pte);
        } else {
          if !alloc || pages == {} {
            MissingBelow(tables, root, dir', level - 1, vpn);
            return None, dir';
          }
          var c :| c in pages;
          ghost var tables0, pages0, dir0 := tables, pages, dir';
          pages := pages - {c};
          tables := tables[c := NewTable()];
          tables := tables[page := SetEntry(tables[page], i, Make(c, 1))];
          dir' := dir'[Child(k, i) := c];
          MoveTable(tables0, frames, pages0, free, tables, c);
          LinkNew(tables0, pages0, root, dir0, tables, pages, dir', k, i, c);
          ApartTrans(old(tables), old(pages), dir, tables0, pages0, dir0, tables, pages, dir');
          LeavesTrans(old(tables), dir, tables0, dir0, tables, dir');
          page := c;
        }
        level := level - 1;
      }
      return Some((page, Px(0, vpn))), dir';
    }

    /** mappages(): maps the pages of va..va + size to the frames from pa on. On failure the first n
        of them are mapped. */
    method Mappages(root: nat, va: nat, size: nat, pa: nat, perm: nat, ghost dir: Dir)
      returns (r: int, ghost dir': Dir, ghost n: nat)
      requires Valid() && Shape(tables, root, dir) && perm < 1024
      requires size > 0 && va + size <= MAX_VPN * PGSIZE
      requires forall v :: Floor(va) <= v <= Floor(va + size - 1) ==> !V(Leaf(tables, dir, v))
      modifies `tables, `pages
      ensures Shape(tables, root, dir') && Apart(old(tables), old(pages), dir, tables, pages, dir')
      ensures Mapped(old(tables), dir, tables, dir', Floor(va), n, Floor(pa), WithV(perm))
      ensures r == 0 ==> n == Floor(va + size - 1) - Floor(va) + 1
      ensures r != 0 ==> r == -1 && n <= Floor(va + size - 1) - Floor(va) && pages == {}
      ensures Valid() && All() == old(All())
    {
      hide Shape, V, Leaf, Make, Apart, NodeOf, Px, Split, AllOf, Floor;
      FloorBelow(va, size);
      WithVSmall(perm);
      var cur, last, ppn := Floor(va), Floor(va + size - 1), Floor(pa);
      ghost var first := cur;
      dir', n := dir, 0;
      SplitFresh(tables, frames, pages, free, root, dir);
      NoStep(tables, pages, dir);
      while true
        invariant cur == first + n <= last && ppn == Floor(pa) + n
        invariant Valid() && All() == old(All()) && Shape(tables, root, dir')
        invariant Apart(old(tables), old(pages), dir, tables, pages, dir')
        invariant Mapped(old(tables), dir, tables, dir', first, n, Floor(pa), WithV(perm))
        decreases last - cur
      {
        ghost var tables1, pages1, dir1 := tables, pages, dir';
        var pte, dir2 := Walk(root, cur, true, dir');
        dir' := dir2;
        ApartTrans(old(tables), old(pages), dir, tables1, pages1, dir1, tables, pages, dir');
        ApartFresh(tables1, pages1, dir1, tables, pages, dir');
        if pte.None? {
          LeavesMapped(old(tables), dir, tables1, dir1, tables, dir', first, n, Floor(pa), WithV(perm));
          return -1, dir', n;
        }
        ghost var tables2 := tables;
        TableAt(tables, root, dir', cur);
        assert !V(tables[pte.value.0][pte.value.1]);
        tables := tables[pte.value.0 := SetEntry(tables[pte.value.0], pte.value.1, Make(ppn, WithV(perm)))];
        MoveEntry(tables2, frames, pages, free, tables);
        StoredApart(tables2, pages, root, dir', tables, cur, Make(ppn, WithV(perm)));
        ApartTrans(old(tables), old(pages), dir, tables2, pages, dir', tables, pages, dir');
        MappedMore(old(tables), dir, tables1, dir1, tables2, dir', tables, first, n, Floor(pa), WithV(perm));
        n := n + 1;
        if cur == last {
          return 0, dir', n;
        }
        cur, ppn := cur + 1, ppn + 1;
      }
    }

    method Kalloc() returns (p: Option<nat>)
      modifies `free
      ensures p.None? ==> free == old(free) == {}
      ensures p.Some? ==> p.value in old(free) && free == old(free) - {p.value}
    {
      if free == {} {
        return None;
      }
      var q :| q in free;
      free := free - {q};
      return Some(q);
    }

    /** kfree(): what was on the page is lost. */
    method Kfree(p: nat)
      requires p !in free
      modifies `free, `tables, `frames
      ensures free == old(free) + {p} && tables == old(tables) - {p} && frames == old(frames) - {p}
    {
      tables, frames, free := tables - {p}, frames - {p}, free + {p};
    }

    /** One round of uvmunmap(). */
    method UnmapPage(root: nat, a: nat, doFree: bool, ghost dir: Dir)
      requires Valid() && Shape(tables, root, dir) && a < MAX_VPN
      requires V(Leaf(tables, dir, a)) && Flags(Leaf(tables, dir, a)) != 1
      requires doFree ==> Ppn(Leaf(tables, dir, a)) in frames
      modifies this
      ensures Shape(tables, root, dir) && pages == old(pages) && tables.Keys == old(tables).Keys
      ensures Apart(old(tables), pages, dir, tables, pages, dir)
      ensures forall v :: Leaf(tables, dir, v) == if v == a then 0 else Leaf(old(tables), dir, v)
      ensures var ppn := Ppn(Leaf(old(tables), dir, a));
        && (doFree ==> free == old(free) + {ppn} && frames == old(frames) - {ppn})
        && (!doFree ==> free == old(free) && frames == old(frames))
      ensures Valid() && All() == old(All())
    {
      hide Shape, V, Leaf, Flags, Apart, NodeOf, Px, Ppn, Split, AllOf;
      SplitFresh(tables, frames, pages, free, root, dir);
      ValidServed(tables, dir, a);
      var pte, _ := Walk(root, a, false, dir);
      TableAt(tables, root, dir, a);
      if doFree {
        MoveBack(tables, frames, pages, free, Ppn(tables[pte.value.0][pte.value.1]));
        Kfree(Ppn(tables[pte.value.0][pte.value.1]));
      }
      tables := tables[pte.value.0 := SetEntry(tables[pte.value.0], pte.value.1, 0)];
      MoveEntry(old(tables), frames, pages, free, tables);
      StoredApart(old(tables), pages, root, dir, tables, a, 0);
    }

    /** uvmunmap(): removes the mappings of n pages from vpn on, which must be leaves, and frees
        their frames if asked to. */
    method Uvmunmap(root: nat, vpn: nat, n: nat, doFree: bool, ghost dir: Dir)
      requires Valid() && Shape(tables, root, dir) && vpn + n <= MAX_VPN
      requires forall v :: vpn <= v < vpn + n ==> V(Leaf(tables, dir, v)) && Flags(Leaf(tables, dir, v)) != 1
      requires doFree ==> FreeableRange(tables, dir, frames, vpn, n)
      modifies this
      ensures Shape(tables, root, dir) && pages == old(pages) && tables.Keys == old(tables).Keys
      ensures Apart(old(tables), pages, dir, tables, pages, dir)
      ensures Cleared(old(tables), tables, dir, vpn, n)
      ensures doFree ==> free == old(free) + FrameSet(old(tables), dir, vpn, n)
      ensures doFree ==> frames == old(frames) - FrameSet(old(tables), dir, vpn, n)
      ensures !doFree ==> free == old(free) && frames == old(frames)
      ensures Valid() && All() == old(All())
    {
      hide Shape, V, Leaf, Flags, Apart, Ppn, Split, AllOf, FreeableRange;
      var k := 0;
      SplitFresh(tables, frames, pages, free, root, dir);
      NoStep(tables, pages, dir);
      while k < n
        invariant k <= n && pages == old(pages) && tables.Keys == old(tables).Keys && Valid() && All() == old(All())
        invariant Shape(tables, root, dir) && Apart(old(tables), pages, dir, tables, pages, dir)
        invariant Cleared(old(tables), tables, dir, vpn, k)
        invariant doFree ==> free == old(free) + FrameSet(old(tables), dir, vpn, k)
        invariant doFree ==> frames == old(frames) - FrameSet(old(tables), dir, vpn, k)
        invariant !doFree ==> free == old(free) && frames == old(frames)
      {
        assert Leaf(tables, dir, vpn + k) == Leaf(old(tables), dir, vpn + k);
        ghost var tables1 := tables;
        if doFree {
          FreeableOne(old(tables), dir, old(frames), vpn, n, k);
        }
        UnmapPage(root, vpn + k, doFree, dir);
        ApartTrans(old(tables), pages, dir, tables1, pages, dir, tables, pages, dir);
        k := k + 1;
      }
    }

    /** A fresh frame with these bytes is mapped at page i. */
    method GivePage(root: nat, i: nat, flags: nat, bytes: seq<Byte>, ghost dir: Dir)
      returns (ok: bool, ghost dir': Dir, ghost mem: nat)
      requires Valid() && Shape(tables, root, dir) && i < MAX_VPN && flags < 1024 && flags % 2 == 1
      requires !V(Leaf(tables, dir, i))
      modifies this
      ensures Shape(tables, root, dir') && Apart(old(tables), old(pages), dir, tables, pages, dir')
      ensures !ok ==> SameLeaves(old(tables), dir, tables, dir') && free == old(free) && frames == old(frames)
      ensures ok ==>
        mem in old(free) && mem !in old(frames) && free == old(free) - {mem} && frames == old(frames)[mem := bytes]
      ensures ok ==> Mapped(old(tables), dir, tables, dir', i, 1, mem, flags)
      ensures Valid() && All() == old(All())
    {
      hide Shape, V, Leaf, Apart, SameLeaves, Mapped, Split, AllOf;
      SplitFresh(tables, frames, pages, free, root, dir);
      NoStep(tables, pages, dir);
      var m := Kalloc();
      if m.None? {
        return false, dir, 0;
      }
      MoveFrame(tables, frames, pages, old(free), m.value, bytes);
      frames := frames[m.value := bytes];
      OnePage(i, m.value);
      var r, dir1, n := Mappages(root, i * PGSIZE, PGSIZE, m.value * PGSIZE, flags, dir);
      if r != 0 {
        MoveBack(tables, frames, pages, free, m.value);
        Kfree(m.value);
        MappedNone(old(tables), dir, tables, dir1, i, m.value, flags);
      }
      return r == 0, dir1, m.value;
    }

    /** uvmcopy(): gives the child table dst copies of the first n pages of the parent table src. On
        failure everything is taken back. */
    method Uvmcopy(src: nat, dst: nat, n: nat, ghost dirO: Dir, ghost dirN: Dir)
      returns (r: int, ghost dir': Dir, ghost taken: seq<nat>)
      requires Valid() && Shape(tables, src, dirO) && Shape(tables, dst, dirN) && Separate(dirO, dirN) && n <= MAX_VPN
      requires forall i: nat :: i < n ==> Source(tables, dirO, frames, i) && !V(Leaf(tables, dirN, i))
      modifies this
      ensures Shape(tables, src, dirO) && SameLeaves(old(tables), dirO, tables, dirO)
      ensures Shape(tables, dst, dir') && Separate(dirO, dir')
      ensures Apart(old(tables), old(pages), dirN, tables, pages, dir')
      ensures r == 0 || r == -1
      ensures r == 0 ==> |taken| == n
      ensures r == 0 ==> Filled(old(tables), old(frames), old(free), dirN, tables, frames, free, dir', 0,
                                ParentPages(old(tables), old(frames), dirO, n), taken)
      ensures r == -1 ==> free == old(free) && frames == old(frames) && SameMapped(old(tables), dirN, tables, dir')
      ensures Valid() && All() == old(All())
    {
      hide Shape, V, Leaf, Flags, Apart, Ppn, Filled, SameLeaves, Mapped, Source, Separate, SameMapped, ParentPages,
        Proper, Cleared, Split, AllOf;
      dir', taken := dirN, [];
      ghost var t0, p0, f0, free0, want := tables, pages, frames, free, ParentPages(tables, frames, dirO, n);
      SplitFresh(tables, frames, pages, free, src, dirO);
      SplitFresh(tables, frames, pages, free, dst, dirN);
      SplitApart(tables, frames, pages, free);
      NoStep(tables, pages, dirN);
      FilledNone(tables, frames, free, dirN, 0, want);
      ParentProper(tables, frames, dirO, n);
      SourceKept(t0, p0, src, dirO, dirN, tables, pages, dir');
      var i := 0;
      while i < n
        invariant i <= n && |taken| == i && Valid() && All() == old(All())
        invariant Shape(tables, dst, dir') && Apart(t0, p0, dirN, tables, pages, dir')
        invariant Shape(tables, src, dirO) && Separate(dirO, dir') && SameLeaves(t0, dirO, tables, dirO)
        invariant Filled(t0, f0, free0, dirN, tables, frames, free, dir', 0, want, taken)
      {
        SourceNow(t0, f0, free0, dirO, dirN, tables, frames, free, dir', want, taken, i);
        UnmappedNow(t0, f0, free0, dirN, tables, frames, free, dir', 0, want, taken);
        SourceFacts(tables, dirO, frames, i);
        ghost var t1, p1, f1, free1, dir1 := tables, pages, frames, free, dir';
        var pte, _ := Walk(src, i, false, dirO);
        TableAt(tables, src, dirO, i);
        var entry := tables[pte.value.0][pte.value.1];
        var ok, dir2, mem := GivePage(dst, i, Flags(entry), frames[Ppn(entry)], dir');
        dir' := dir2;
        ApartTrans(t0, p0, dirN, t1, p1, dir1, tables, pages, dir');
        SourceKept(t0, p0, src, dirO, dirN, tables, pages, dir');
        if !ok {
          FilledSame(t0, f0, free0, dirN, t1, f1, free1, dir1, 0, want, taken, tables, dir');
          ghost var t2, p2 := tables, pages;
          FilledFreeable(t0, f0, free0, dirN, tables, frames, free, dir', 0, want, taken);
          Uvmunmap(dst, 0, i, true, dir');
          ApartTrans(t0, p0, dirN, t2, p2, dir', tables, pages, dir');
          SourceKept(t0, p0, src, dirO, dirN, tables, pages, dir');
          FilledUndone(t0, f0, free0, dirN, t2, f1, free1, dir', 0, want, taken, tables);
          return -1, dir', taken;
        }
        FilledMore(t0, f0, free0, dirN, t1, f1, free1, dir1, 0, want, taken, tables, frames, free, dir', mem);
        taken := taken + [mem];
        i := i + 1;
      }
      return 0, dir', taken;
    }

    /** uvmcreate(): an empty table, which maps nothing. */
    method Uvmcreate() returns (root: Option<nat>, ghost dir: Dir)
      requires Valid()
      modifies `tables, `free
      ensures root.None? ==> free == old(free) == {} && tables == old(tables)
      ensures root.Some? ==> root.value in old(free) && root.value !in old(tables) && free == old(free) - {root.value}
      ensures root.Some? ==> tables == old(tables)[root.value := NewTable()] && dir == map[Node(TOP, 0) := root.value]
      ensures root.Some? ==> Shape(tables, root.value, dir) && forall v: nat :: Leaf(tables, dir, v) == 0
      ensures Valid() && All() == old(All())
    {
      hide Upper, Split, AllOf;
      dir := map[];
      root := Kalloc();
      if root.Some? {
        MoveRoot(tables, frames, pages, old(free), root.value, NewTable());
        SplitApart(old(tables), frames, pages, old(free));
        tables := tables[root.value := NewTable()];
        dir := map[Node(TOP, 0) := root.value];
        ZeroInvalid();
      }
    }

    /** freewalk(): gives the pages of a subtree without mappings to kfree, each once. The panic for a
        leaf cannot happen. */
    method Freewalk(page: nat, ghost k: Node, ghost dir: Dir)
      requires Valid() && Bare(tables, dir, k) && page == dir[k]
      modifies this
      ensures tables == old(tables) - PagesUnder(dir, k) && free == old(free) + PagesUnder(dir, k)
      ensures frames == old(frames) && pages == old(pages)
      ensures Valid() && All() == old(All())
      decreases k.level
    {
      hide V, Ppn, Flags, Upper, Under, UnderFirst, Bare, PagesUnder, PagesUnderFirst, Split, AllOf;
      BareAt(tables, dir, k);
      PagesAll(dir, k);
      ghost var gone: set<nat> := {};
      for i := 0 to ENTRIES
        invariant Valid() && All() == old(All()) && frames == old(frames) && pages == old(pages)
        invariant gone == if k.level > 0 then PagesUnderFirst(dir, k, i) else {}
        invariant free == old(free) + gone && tables.Keys == old(tables).Keys - gone && page in tables && page !in gone
        invariant forall t :: t in tables && t != page ==> tables[t] == old(tables)[t]
        invariant |tables[page]| == ENTRIES && forall e :: i <= e < ENTRIES ==> tables[page][e] == old(tables)[page][e]
      {
        var pte := tables[page][i];
        BareEntry(old(tables), dir, k, i);
        if k.level > 0 {
          PagesNext(old(tables), dir, k, i);
        }
        if V(pte) && IsPointer(pte) {
          var child := Ppn(pte);
          BareChild(old(tables), dir, k, i, tables);
          ghost var tables1 := tables;
          Freewalk(child, Child(k, i), dir);
          gone := gone + PagesUnder(dir, Child(k, i));
          ghost var tables2 := tables;
          tables := tables[page := SetEntry(tables[page], i, 0)];
          MoveEntry(tables2, frames, pages, free, tables);
        } else {
          assert !V(pte);
        }
      }
      FreeTable(tables, frames, pages, free, page);
      NoneFirst(dir, k);
      Kfree(page);
      assert tables == old(tables) - PagesUnder(dir, k);
    }

    /** uvmfree(): takes the memory of sz bytes and the page table apart. */
    method Uvmfree(root: nat, sz: nat, ghost dir: Dir)
      requires Valid() && Shape(tables, root, dir) && Ceil(sz) <= MAX_VPN
      requires forall v: nat :: v < Ceil(sz) ==> V(Leaf(tables, dir, v)) && Flags(Leaf(tables, dir, v)) != 1
      requires forall v: nat :: v >= Ceil(sz) ==> !V(Leaf(tables, dir, v))
      requires FreeableRange(tables, dir, frames, 0, Ceil(sz))
      modifies this
      ensures tables == old(tables) - dir.Values && pages == old(pages)
      ensures frames == old(frames) - FrameSet(old(tables), dir, 0, Ceil(sz))
      ensures free == old(free) + FrameSet(old(tables), dir, 0, Ceil(sz)) + dir.Values
      ensures Valid() && All() == old(All())
    {
      hide Shape, V, Leaf, Flags, Apart, Ceil, FreeableRange, Split, AllOf, Cleared, Bare, PagesUnder, FrameSet;
      NoCeil();
      NothingCleared(tables, dir);
      SplitFresh(tables, frames, pages, free, root, dir);
      SplitApart(tables, frames, pages, free);
      NoStep(tables, pages, dir);
      if sz > 0 {
        Uvmunmap(root, 0, Ceil(sz), true, dir);
      }
      AllCleared(old(tables), tables, dir, Ceil(sz));
      BareRoot(tables, root, dir);
      ShapeRoot(tables, root, dir);
      ghost var tables1 := tables;
      Freewalk(root, Node(TOP, 0), dir);
      SameElse(old(tables), pages, dir, tables1);
    }

    /** uvmfree() of a table that maps nothing. */
    method FreeEmpty(root: nat, ghost dir: Dir)
      requires Valid() && Shape(tables, root, dir) && forall v: nat :: !V(Leaf(tables, dir, v))
      modifies this
      ensures tables == old(tables) - dir.Values && pages == old(pages)
      ensures frames == old(frames) && free == old(free) + dir.Values
      ensures Valid() && All() == old(All())
    {
      hide Shape, V, Leaf, Split, AllOf, Ceil, FreeableRange, FrameSet, Flags;
      NoCeil();
      NoFrames(tables, dir, frames);
      Uvmfree(root, 0, dir);
      assert frames == old(frames) && free == old(free) + dir.Values;
    }

    /** proc_pagetable(): a table with the trampoline and the trapframe at its top. If memory runs out,
        the table is gone and every page taken for it is with kalloc. */
    method ProcPagetable(trampoline: nat, trapframe: nat) returns (root: Option<nat>, ghost dir: Dir)
      requires Valid()
      modifies this
      ensures frames == old(frames)
      ensures root.Some? ==> root.value in old(free) && free == old(free) - {root.value}
      ensures root.Some? ==> Shape(tables, root.value, dir) && Top(tables, dir, Some(trampoline), Some(trapframe))
      ensures root.Some? ==> tables - dir.Values == old(tables)
      ensures root.None? ==> tables == old(tables) && old(free) <= free && pages + free == old(pages) + old(free)
      ensures Valid() && All() == old(All())
    {
      hide Shape, V, Leaf, Make, Apart, Mapped, Split, AllOf, Ceil, FreeableRange, FrameSet, Cleared, Flags, Top;
      root, dir := Uvmcreate();
      if root.None? {
        return;
      }
      ghost var t0, p0, dir0 := tables, pages, dir;
      TopNone(tables, dir);
      OnePage(TRAMPOLINE, trampoline);
      TopFacts(tables, dir, None, None);
      var r, dir1, n := Mappages(root.value, TRAMPOLINE * PGSIZE, PGSIZE, trampoline * PGSIZE, RX, dir);
      TopFirst(t0, dir0, tables, dir1, n, trampoline);
      if r != 0 {
        TopFacts(tables, dir1, None, None);
        TablesBack(old(tables), frames, p0, old(free), root.value, tables, pages, dir1);
        FreeEmpty(root.value, dir1);
        PoolsBack(tables, frames, p0, old(free), pages, free);
        return None, dir;
      }
      ghost var t1, p1 := tables, pages;
      OnePage(TRAPFRAME, trapframe);
      TopFacts(tables, dir1, Some(trampoline), None);
      var q, dir2, m := Mappages(root.value, TRAPFRAME * PGSIZE, PGSIZE, trapframe * PGSIZE, RW, dir1);
      TopSecond(t1, dir1, tables, dir2, m, trampoline, trapframe);
      ApartTrans(t0, p0, dir0, t1, p1, dir1, tables, pages, dir2);
      if q != 0 {
        ghost var t2 := tables;
        TopFacts(tables, dir2, Some(trampoline), None);
        Uvmunmap(root.value, TRAMPOLINE, 1, false, dir2);
        TopGone(t2, dir2, tables, trampoline);
        ApartTrans(t0, p0, dir0, t2, pages, dir2, tables, pages, dir2);
        TopFacts(tables, dir2, None, None);
        TablesBack(old(tables), frames, p0, old(free), root.value, tables, pages, dir2);
        FreeEmpty(root.value, dir2);
        PoolsBack(tables, frames, p0, old(free), pages, free);
        return None, dir;
      }
      dir := dir2;
      TablesBack(old(tables), frames, p0, old(free), root.value, tables, pages, dir2);
    }

    /** proc_freepagetable(): takes the memory of sz bytes and the page table apart, but not the
        trampoline and the trapframe. */
    method ProcFreepagetable(root: nat, sz: nat, ghost dir: Dir)
      requires Valid() && Shape(tables, root, dir) && Ceil(sz) <= TRAPFRAME
      requires forall v: nat :: V(Leaf(tables, dir, v)) <==> v < Ceil(sz) || v == TRAPFRAME || v == TRAMPOLINE
      requires forall v: nat :: V(Leaf(tables, dir, v)) ==> Flags(Leaf(tables, dir, v)) != 1
      requires FreeableRange(tables, dir, frames, 0, Ceil(sz))
      modifies this
      ensures tables == old(tables) - dir.Values && pages == old(pages)
      ensures frames == old(frames) - FrameSet(old(tables), dir, 0, Ceil(sz))
      ensures free == old(free) + FrameSet(old(tables), dir, 0, Ceil(sz)) + dir.Values
      ensures Valid() && All() == old(All())
    {
      hide Shape, V, Leaf, Apart, Split, AllOf, Ceil, FreeableRange, FrameSet, Flags;
      SplitFresh(tables, frames, pages, free, root, dir);
      SplitApart(tables, frames, pages, free);
      ZeroInvalid();
      Uvmunmap(root, TRAMPOLINE, 1, false, dir);
      ghost var t1 := tables;
      Uvmunmap(root, TRAPFRAME, 1, false, dir);
      ApartTrans(old(tables), pages, dir, t1, pages, dir, tables, pages, dir);
      SameBelow(old(tables), tables, dir, frames, Ceil(sz));
      ghost var t2 := tables;
      Uvmfree(root, sz, dir);
      SameElse(old(tables), pages, dir, t2);
    }

    /** The memory of a new process, as fork() makes it: a page table with copies of the first n pages
        of the parent. If memory runs out at any point, nothing is left of it. */
    method ForkMemory(src: nat, n: nat, trampoline: nat, trapframe: nat, ghost dirO: Dir)
      returns (root: Option<nat>, ghost dir: Dir, ghost taken: seq<nat>)
      requires Valid() && Shape(tables, src, dirO) && n <= TRAPFRAME
      requires forall i: nat :: i < n ==> Source(tables, dirO, frames, i)
      modifies this
      ensures Shape(tables, src, dirO) && SameLeaves(old(tables), dirO, tables, dirO)
      ensures root.Some? ==> Shape(tables, root.value, dir) && Separate(dirO, dir)
      ensures root.Some? ==> Forked(old(tables), old(frames), dirO, tables, frames, dir, n, trampoline, trapframe,
        taken)
      ensures root.None? ==> tables == old(tables) && frames == old(frames) && pages + free == old(pages) + old(free)
      ensures Valid() && All() == old(All())
    {
      hide Shape, V, Leaf, Flags, Make, Apart, Filled, SameLeaves, Source, Separate, SameMapped, ParentPages, Top,
        Split, AllOf,
           FreeableRange, FrameSet, Ceil, Forked;
      taken := [];
      root, dir := ProcPagetable(trampoline, trapframe);
      TablesKept(old(tables), tables, src, dirO, dir);
      if root.None? {
        return;
      }
      ghost var t0, p0, frames0, free0, dir0 := tables, pages, frames, free, dir;
      SplitApart(tables, frames, pages, free);
      TopFacts(tables, dir, Some(trampoline), Some(trapframe));
      SourcesKept(old(tables), tables, frames, dirO, n);
      ParentsKept(old(tables), tables, frames, dirO, n);
      var r, dir1, got := Uvmcopy(src, root.value, n, dirO, dir);
      LeavesTrans(old(tables), dirO, t0, dirO, tables, dirO);
      dir, taken := dir1, got;
      if r != 0 {
        NoCeil();
        NoFrames(tables, dir, frames);
        TopKept(t0, dir0, tables, dir, trampoline, trapframe);
        ghost var t1 := tables;
        ProcFreepagetable(root.value, 0, dir);
        ChildGone(old(tables), t0, p0, dir0, t1, pages, dir, old(frames), old(pages), old(free), free0);
        assert frames == old(frames);
        PoolsBack(tables, frames, old(pages), old(free), pages, free);
        TablesKept(old(tables), tables, src, dirO, map[]);
        return None, dir, [];
      }
      FilledForked(old(tables), t0, frames0, free0, dirO, dir0, tables, frames, free, dir, n, trampoline, trapframe,
        taken);
    }

    /** uvmdealloc(): shrinks the memory from oldsz to newsz bytes. */
    method Uvmdealloc(root: nat, oldsz: nat, newsz: nat, ghost dir: Dir) returns (r: nat)
      requires Valid() && Shape(tables, root, dir) && Ceil(oldsz) <= MAX_VPN
      requires forall v :: Ceil(newsz) <= v < Ceil(oldsz) ==>
        V(Leaf(tables, dir, v)) && Flags(Leaf(tables, dir, v)) != 1
      requires Ceil(newsz) < Ceil(oldsz) ==> FreeableRange(tables, dir, frames, Ceil(newsz), Ceil(oldsz) - Ceil(newsz))
      modifies this
      ensures r == if newsz >= oldsz then oldsz else newsz
      ensures Shape(tables, root, dir) && pages == old(pages) && Apart(old(tables), pages, dir, tables, pages, dir)
      ensures var n := if Ceil(newsz) < Ceil(oldsz) then Ceil(oldsz) - Ceil(newsz) else 0;
        && Cleared(old(tables), tables, dir, Ceil(newsz), n)
        && free == old(free) + FrameSet(old(tables), dir, Ceil(newsz), n)
        && frames == old(frames) - FrameSet(old(tables), dir, Ceil(newsz), n)
      ensures Valid() && All() == old(All())
    {
      hide Shape, V, Leaf, Flags, Apart, Ceil, FreeableRange, Split, AllOf;
      SplitFresh(tables, frames, pages, free, root, dir);
      NoStep(tables, pages, dir);
      CeilGrows(oldsz, newsz);
      if newsz >= oldsz {
        return oldsz;
      }
      if Ceil(newsz) < Ceil(oldsz) {
        Uvmunmap(root, Ceil(newsz), Ceil(oldsz) - Ceil(newsz), true, dir);
      }
      return newsz;
    }

    /** uvmalloc(): grows the memory from oldsz to newsz bytes with zeroed pages, whose flags are
        PTE_R | PTE_U | xperm. On failure everything is taken back. */
    method Uvmalloc(root: nat, oldsz: nat, newsz: nat, perm: nat, ghost dir: Dir)
      returns (r: nat, ghost dir': Dir, ghost taken: seq<nat>)
      requires Valid() && Shape(tables, root, dir) && newsz <= MAX_VPN * PGSIZE && Proper(Page(WithV(perm), []))
      requires forall v: nat :: Ceil(oldsz) <= v < Ceil(newsz) ==> !V(Leaf(tables, dir, v))
      modifies this
      ensures Shape(tables, root, dir') && Apart(old(tables), old(pages), dir, tables, pages, dir')
      ensures newsz < oldsz ==> r == oldsz && taken == []
      ensures newsz >= oldsz && r != 0 ==> r == newsz && |taken| == Ceil(newsz) - Ceil(oldsz)
      ensures newsz < oldsz || r != 0 ==>
        Filled(old(tables), old(frames), old(free), dir, tables, frames, free, dir', Ceil(oldsz),
          Blank(WithV(perm), |taken|), taken)
      ensures newsz >= oldsz && r == 0 && newsz != 0 ==>
        free == old(free) && frames == old(frames) && SameMapped(old(tables), dir, tables, dir')
      ensures Valid() && All() == old(All())
    {
      hide Shape, V, Leaf, Flags, Apart, Ppn, Filled, SameLeaves, Mapped, SameMapped, Cleared, Proper, Blank, Ceil,
        Split, AllOf;
      dir', taken := dir, [];
      SplitFresh(tables, frames, pages, free, root, dir);
      SplitApart(tables, frames, pages, free);
      NoStep(tables, pages, dir);
      ghost var t0, p0, f0, free0 := tables, pages, frames, free;
      if newsz < oldsz {
        FilledNone(tables, frames, free, dir, Ceil(oldsz), Blank(WithV(perm), 0));
        return oldsz, dir', [];
      }
      CeilGrows(newsz, oldsz);
      var first, last := Ceil(oldsz), Ceil(newsz);
      ghost var want := Blank(WithV(perm), last - first);
      FilledNone(tables, frames, free, dir, first, want);
      BlankProper(perm, last - first);
      CeilMax(newsz);
      var zeroes := seq(PGSIZE, _ => 0);
      var a := first;
      while a * PGSIZE < newsz
        invariant first <= a <= last && |taken| == a - first && Valid() && All() == old(All())
        invariant Shape(tables, root, dir') && Apart(t0, p0, dir, tables, pages, dir')
        invariant Filled(t0, f0, free0, dir, tables, frames, free, dir', first, want, taken)
      {
        CeilBelow(a, newsz);
        UnmappedNow(t0, f0, free0, dir, tables, frames, free, dir', first, want, taken);
        ghost var t1, p1, f1, free1, dir1 := tables, pages, frames, free, dir';
        ProperFlags(perm);
        var ok, dir2, mem := GivePage(root, a, WithV(perm), zeroes, dir');
        dir' := dir2;
        ApartTrans(t0, p0, dir, t1, p1, dir1, tables, pages, dir');
        if !ok {
          FilledSame(t0, f0, free0, dir, t1, f1, free1, dir1, first, want, taken, tables, dir');
          ghost var t2, p2 := tables, pages;
          FilledFreeable(t0, f0, free0, dir, tables, frames, free, dir', first, want, taken);
          CeilOf(a);
          CeilOf(first);
          var _ := Uvmdealloc(root, a * PGSIZE, first * PGSIZE, dir');
          ApartTrans(t0, p0, dir, t2, p2, dir', tables, pages, dir');
          FilledUndone(t0, f0, free0, dir, t2, f1, free1, dir', first, want, taken, tables);
          return 0, dir', taken;
        }
        BlankAt(WithV(perm), last - first, a - first);
        FilledMore(t0, f0, free0, dir, t1, f1, free1, dir1, first, want, taken, tables, frames, free, dir', mem);
        taken := taken + [mem];
        a := a + 1;
      }
      CeilReached(a, newsz);
      return newsz, dir', taken;
    }
  }

  /** None of PTE_R, PTE_W and PTE_X is set. */
  predicate IsPointer(pte: nat) {
    pte / 2 % 8 == 0
  }

  lemma BareAt(tables: Tables, dir: Dir, k: Node)
    requires Bare(tables, dir, k)
    ensures k in dir && dir[k] in tables && |tables[dir[k]]| == ENTRIES
  {
    hide LinkOk, V;
    UnderAll(k, k);
  }

  /** A valid entry in a subtree without mappings points to a child. */
  lemma BareEntry(tables: Tables, dir: Dir, k: Node, i: nat)
    requires Bare(tables, dir, k) && i < ENTRIES
    ensures dir[k] in tables && |tables[dir[k]]| == ENTRIES
    ensures var pte := tables[dir[k]][i];
      && (V(pte) ==> k.level > 0 && IsPointer(pte) && Child(k, i) in dir && Ppn(pte) == dir[Child(k, i)])
      && (!V(pte) && k.level > 0 ==> Child(k, i) !in dir)
  {
    hide Upper, V, Ppn, Flags, IsPointer, Under;
    UnderAll(k, k);
    assert k.level > 0 ==> LinkOk(tables, dir, k, i);
    PointerFlags(tables[dir[k]][i]);
  }

  lemma PointerFlags(pte: nat)
    ensures Flags(pte) == 1 ==> IsPointer(pte)
  {
    assert pte == 1024 * (pte / 1024) + pte % 1024;
  }

  lemma FreeTable(tables: Tables, frames: Frames, pages: set<nat>, free: set<nat>, p: nat)
    requires Split(tables, frames, pages, free) && p in tables
    ensures p !in free && frames - {p} == frames
    ensures Split(tables - {p}, frames, pages, free + {p})
    ensures AllOf(tables - {p}, frames, pages, free + {p}) == AllOf(tables, frames, pages, free)
  {
    assert (tables - {p}).Keys == tables.Keys - {p};
  }

  lemma NoneFirst(dir: Dir, k: Node)
    ensures k.level == 0 ==> PagesUnderFirst(dir, k, ENTRIES) == {}
  {
    hide Upper;
  }

  const TRAMPOLINE: nat := MAX_VPN - 1
  const TRAPFRAME: nat := MAX_VPN - 2
  /** PTE_R | PTE_X and PTE_R | PTE_W. */
  const RX: nat := 10
  const RW: nat := 6

  /** Nothing is mapped but, where given, the trampoline and the trapframe. */
  ghost predicate Top(tables: Tables, dir: Dir, trampoline: Option<nat>, trapframe: Option<nat>) {
    forall v: nat :: Leaf(tables, dir, v) == TopEntry(trampoline, trapframe, v)
  }

  ghost function TopEntry(trampoline: Option<nat>, trapframe: Option<nat>, v: nat): nat {
    if v == TRAMPOLINE && trampoline.Some? then Make(trampoline.value, WithV(RX))
    else if v == TRAPFRAME && trapframe.Some? then Make(trapframe.value, WithV(RW))
    else 0
  }

  lemma TopNone(tables: Tables, dir: Dir)
    requires forall v: nat :: Leaf(tables, dir, v) == 0
    ensures Top(tables, dir, None, None)
  {
    hide Leaf;
  }

  lemma TopFirst(t0: Tables, dir0: Dir, tables: Tables, dir: Dir, n: nat, trampoline: nat)
    requires Top(t0, dir0, None, None) && n <= 1 && Mapped(t0, dir0, tables, dir, TRAMPOLINE, n, trampoline, WithV(RX))
    ensures Top(tables, dir, if n == 1 then Some(trampoline) else None, None)
  {
    hide Leaf, Make;
    forall v: nat ensures Leaf(tables, dir, v) == TopEntry(if n == 1 then Some(trampoline) else None, None, v) {
      assert Leaf(t0, dir0, v) == 0;
    }
  }

  lemma TopSecond(t0: Tables, dir0: Dir, tables: Tables, dir: Dir, n: nat, trampoline: nat, trapframe: nat)
    requires Top(t0, dir0, Some(trampoline), None) && n <= 1
    requires Mapped(t0, dir0, tables, dir, TRAPFRAME, n, trapframe, WithV(RW))
    ensures Top(tables, dir, Some(trampoline), if n == 1 then Some(trapframe) else None)
  {
    hide Leaf, Make;
    forall v: nat
      ensures Leaf(tables, dir, v) == TopEntry(Some(trampoline), if n == 1 then Some(trapframe) else None, v)
    {
      assert Leaf(t0, dir0, v) == TopEntry(Some(trampoline), None, v);
    }
  }

  lemma TopGone(t0: Tables, dir: Dir, tables: Tables, trampoline: nat)
    requires Top(t0, dir, Some(trampoline), None) && Cleared(t0, tables, dir, TRAMPOLINE, 1)
    ensures Top(tables, dir, None, None)
  {
    hide Leaf, Make;
    forall v: nat ensures Leaf(tables, dir, v) == TopEntry(None, None, v) {
      assert Leaf(t0, dir, v) == TopEntry(Some(trampoline), None, v);
    }
  }

  lemma TopFacts(tables: Tables, dir: Dir, trampoline: Option<nat>, trapframe: Option<nat>)
    requires Top(tables, dir, trampoline, trapframe)
    ensures forall v: nat :: V(Leaf(tables, dir, v)) <==>
              (v == TRAMPOLINE && trampoline.Some?) || (v == TRAPFRAME && trapframe.Some?)
    ensures trampoline.Some? ==> Flags(Leaf(tables, dir, TRAMPOLINE)) != 1
  {
    hide Leaf, Make, V, Flags;
    ZeroInvalid();
    if trampoline.Some? {
      MadeOf(trampoline.value, WithV(RX));
      assert Leaf(tables, dir, TRAMPOLINE) == TopEntry(trampoline, trapframe, TRAMPOLINE);
    }
    if trapframe.Some? {
      MadeOf(trapframe.value, WithV(RW));
    }
    forall v: nat
      ensures V(Leaf(tables, dir, v)) <==> (v == TRAMPOLINE && trampoline.Some?) || (v == TRAPFRAME && trapframe.Some?)
    {
      assert Leaf(tables, dir, v) == TopEntry(trampoline, trapframe, v);
    }
  }

  /** The child's pages below n have the parent's flags and bytes, on frames of their own. */
  ghost predicate Forked(t0: Tables, f0: Frames, dirO: Dir, tables: Tables, frames: Frames, dir: Dir, n: nat,
                         trampoline: nat, trapframe: nat, taken: seq<nat>) {
    && |taken| == n
    && (forall v: nat :: Leaf(tables, dir, v) ==
          if v < n then Entry(taken[v], Flags(Leaf(t0, dirO, v))) else TopEntry(Some(trampoline), Some(trapframe), v))
    && (forall j: nat :: j < n ==> ForkedPage(f0, frames, Ppn(Leaf(t0, dirO, j)), taken[j]))
    && (forall j: nat, k: nat :: j < k < n ==> taken[j] != taken[k])
    && (forall p :: p in f0 ==> p in frames && frames[p] == f0[p])
  }

  ghost predicate ForkedPage(f0: Frames, frames: Frames, p: nat, c: nat) {
    p in f0 && c !in f0 && c in frames && frames[c] == f0[p]
  }

  lemma FilledForked(t: Tables, t0: Tables, f0: Frames, free0: set<nat>, dirO: Dir, dir0: Dir, tables: Tables,
                     frames: Frames,
                     free: set<nat>, dir: Dir, n: nat, trampoline: nat, trapframe: nat, taken: seq<nat>)
    requires Top(t0, dir0, Some(trampoline), Some(trapframe)) && |taken| == n
    requires Filled(t0, f0, free0, dir0, tables, frames, free, dir, 0, ParentPages(t, f0, dirO, n), taken)
    requires (forall p :: p in free0 ==> p !in f0) && forall i: nat :: i < n ==> Source(t, dirO, f0, i)
    ensures Forked(t, f0, dirO, tables, frames, dir, n, trampoline, trapframe, taken)
  {
    hide Leaf, Make, V, Flags, Ppn, ParentPages, TopEntry;
    var want := ParentPages(t, f0, dirO, n);
    forall v: nat ensures Leaf(tables, dir, v) ==
        if v < n then Entry(taken[v], Flags(Leaf(t, dirO, v))) else TopEntry(Some(trampoline), Some(trapframe), v) {
      assert Leaf(tables, dir, v) == Expected(t0, dir0, 0, want, taken, v);
      assert Leaf(t0, dir0, v) == TopEntry(Some(trampoline), Some(trapframe), v);
    }
    forall j: nat | j < n ensures ForkedPage(f0, frames, Ppn(Leaf(t, dirO, j)), taken[j]) {
      assert FilledOne(free0, frames, free, want[j], taken[j]) && Source(t, dirO, f0, j);
    }
  }

  lemma TopKept(t0: Tables, dir0: Dir, tables: Tables, dir: Dir, trampoline: nat, trapframe: nat)
    requires Top(t0, dir0, Some(trampoline), Some(trapframe)) && SameMapped(t0, dir0, tables, dir)
    ensures forall v: nat :: V(Leaf(tables, dir, v)) <==> v == TRAPFRAME || v == TRAMPOLINE
    ensures forall v: nat :: V(Leaf(tables, dir, v)) ==> Flags(Leaf(tables, dir, v)) != 1
  {
    hide Leaf, Make, V, Flags;
    TopFacts(t0, dir0, Some(trampoline), Some(trapframe));
    MadeOf(trampoline, WithV(RX));
    MadeOf(trapframe, WithV(RW));
    assert Leaf(t0, dir0, TRAPFRAME) == TopEntry(Some(trampoline), Some(trapframe), TRAPFRAME);
  }

  /** Tables that were there before are as they were. */
  lemma TablesKept(t0: Tables, tables: Tables, src: nat, dirO: Dir, dir: Dir)
    requires Shape(t0, src, dirO) && (tables == t0 || tables - dir.Values == t0)
    ensures Shape(tables, src, dirO) && SameLeaves(t0, dirO, tables, dirO)
    ensures tables - dir.Values == t0 ==> Separate(dirO, dir)
  {
    hide V, Ppn, Flags, Upper;
    forall p | p in t0 ensures p in tables && tables[p] == t0[p] {
      if tables != t0 {
        assert p in tables - dir.Values;
      }
    }
    forall k, i | k in dirO && k.level > 0 && 0 <= i < ENTRIES ensures LinkOk(tables, dirO, k, i) {
      assert LinkOk(t0, dirO, k, i);
    }
    if tables - dir.Values == t0 {
      forall k, j | k in dirO && j in dir ensures dirO[k] != dir[j] {
        assert dirO[k] in tables - dir.Values;
        assert dir[j] in dir.Values;
      }
    }
  }

  lemma SourcesKept(t0: Tables, tables: Tables, frames: Frames, dirO: Dir, n: nat)
    requires SameLeaves(t0, dirO, tables, dirO) && forall i: nat :: i < n ==> Source(t0, dirO, frames, i)
    ensures forall i: nat :: i < n ==> Source(tables, dirO, frames, i)
  {
    hide Leaf, V, Flags, Ppn;
    forall i: nat | i < n ensures Source(tables, dirO, frames, i) {
      assert Leaf(tables, dirO, i) == Leaf(t0, dirO, i) && Source(t0, dirO, frames, i);
    }
  }

  lemma {:induction false} ParentsKept(t0: Tables, tables: Tables, frames: Frames, dirO: Dir, n: nat)
    requires SameLeaves(t0, dirO, tables, dirO)
    ensures ParentPages(tables, frames, dirO, n) == ParentPages(t0, frames, dirO, n)
  {
    hide Leaf, V, Flags, Ppn;
    if n > 0 {
      ParentsKept(t0, tables, frames, dirO, n - 1);
      assert Leaf(tables, dirO, n - 1) == Leaf(t0, dirO, n - 1);
    }
  }

  /** A child's table that is thrown away leaves the other tables as they were. */
  lemma ChildGone(t: Tables, t0: Tables, p0: set<nat>, dir0: Dir, t1: Tables, p1: set<nat>, dir1: Dir,
                  frames: Frames, pages: set<nat>, free: set<nat>, free0: set<nat>)
    requires t0 - dir0.Values == t && Apart(t0, p0, dir0, t1, p1, dir1)
    requires Split(t0, frames, p0, free0) && Split(t1, frames, p1, free0)
    requires AllOf(t1, frames, p1, free0) == AllOf(t0, frames, p0, free0)
    ensures t1 - dir1.Values == t
  {
    forall p | p in t ensures p in t1 && p !in dir1.Values && t1[p] == t[p] {
      assert p in t0 - dir0.Values;
      forall k | k in dir1 ensures dir1[k] != p {
        assert k in dir0 ==> dir0[k] in dir0.Values;
      }
    }
    forall p | p in t1 && p !in dir1.Values ensures p in t {
      assert p in AllOf(t0, frames, p0, free0);
      forall k | k in dir0 ensures dir0[k] != p {
        assert dir1[k] in dir1.Values;
      }
    }
  }

  lemma NoFrames(tables: Tables, dir: Dir, frames: Frames)
    ensures FreeableRange(tables, dir, frames, 0, 0) && FrameSet(tables, dir, 0, 0) == {}
  {
  }

  /** What is left without the pages of a new table is what was there before. */
  lemma TablesBack(t: Tables, frames: Frames, pages: set<nat>, free: set<nat>, root: nat, tables: Tables,
                   pages': set<nat>, dir: Dir)
    requires Split(t, frames, pages, free) && root in free
    requires Apart(t[root := NewTable()], pages, map[Node(TOP, 0) := root], tables, pages', dir)
    requires Split(tables, frames, pages', free - {root})
    requires AllOf(tables, frames, pages', free - {root}) == AllOf(t, frames, pages, free)
    ensures tables - dir.Values == t && root in dir.Values
  {
    var dir0 := map[Node(TOP, 0) := root];
    assert dir[Node(TOP, 0)] == root;
    forall p | p in t ensures p in tables && p !in dir.Values && tables[p] == t[p] {
      assert p !in dir0.Values;
    }
    forall p | p in tables && p !in dir.Values ensures p in t {
      assert p in AllOf(t, frames, pages, free);
    }
  }

  lemma PoolsBack(tables: Tables, frames: Frames, pages: set<nat>, free: set<nat>, pages': set<nat>, free': set<nat>)
    requires Split(tables, frames, pages, free) && Split(tables, frames, pages', free')
    requires AllOf(tables, frames, pages', free') == AllOf(tables, frames, pages, free)
    ensures pages' + free' == pages + free
  {
    forall p | p in pages + free ensures p in pages' + free' {
      assert p in AllOf(tables, frames, pages', free');
    }
    forall p | p in pages' + free' ensures p in pages + free {
      assert p in AllOf(tables, frames, pages, free);
    }
  }

  lemma {:induction false} FrameSetSame(t0: Tables, tables: Tables, dir: Dir, n: nat)
    requires forall v: nat :: v < n ==> Leaf(tables, dir, v) == Leaf(t0, dir, v)
    ensures FrameSet(tables, dir, 0, n) == FrameSet(t0, dir, 0, n)
  {
    hide Leaf, Ppn;
    if n > 0 {
      FrameSetSame(t0, tables, dir, n - 1);
    }
  }

  lemma SameBelow(t0: Tables, tables: Tables, dir: Dir, frames: Frames, n: nat)
    requires FreeableRange(t0, dir, frames, 0, n) && forall v: nat :: v < n ==> Leaf(tables, dir, v) == Leaf(t0, dir, v)
    ensures FreeableRange(tables, dir, frames, 0, n) && FrameSet(tables, dir, 0, n) == FrameSet(t0, dir, 0, n)
  {
    hide Leaf, Ppn;
    FrameSetSame(t0, tables, dir, n);
  }

  lemma NoCeil()
    ensures Ceil(0) == 0
  {
  }

  lemma NothingCleared(tables: Tables, dir: Dir)
    ensures Cleared(tables, tables, dir, 0, 0) && FrameSet(tables, dir, 0, 0) == {}
  {
  }

  lemma AllCleared(t0: Tables, tables: Tables, dir: Dir, n: nat)
    requires Cleared(t0, tables, dir, 0, n) && forall v: nat :: v >= n ==> !V(Leaf(t0, dir, v))
    ensures forall v: nat :: !V(Leaf(tables, dir, v))
  {
    hide Leaf, V;
    ZeroInvalid();
  }

  /** Only the tables of dir were worked on. */
  lemma SameElse(t0: Tables, pages: set<nat>, dir: Dir, tables: Tables)
    requires Apart(t0, pages, dir, tables, pages, dir) && tables.Keys == t0.Keys && forall p :: p in t0 ==> p !in pages
    ensures tables - dir.Values == t0 - dir.Values
  {
  }

  lemma SplitApart(tables: Tables, frames: Frames, pages: set<nat>, free: set<nat>)
    requires Split(tables, frames, pages, free)
    ensures forall p :: p in free ==> p !in frames && p !in tables
    ensures forall p :: p in tables ==> p !in pages
  {
  }

  /** PGROUNDUP in pages. */
  function Ceil(sz: nat): nat {
    (sz + PGSIZE - 1) / PGSIZE
  }

  lemma CeilGrows(a: nat, b: nat)
    ensures b <= a ==> Ceil(b) <= Ceil(a)
    ensures a <= b ==> Ceil(a) <= Ceil(b)
  {
  }

  lemma CeilMax(a: nat)
    requires a <= MAX_VPN * PGSIZE
    ensures Ceil(a) <= MAX_VPN
  {
  }

  lemma CeilBelow(a: nat, sz: nat)
    requires a * PGSIZE < sz
    ensures a < Ceil(sz)
  {
  }

  lemma CeilReached(a: nat, sz: nat)
    requires a <= Ceil(sz) && a * PGSIZE >= sz
    ensures a == Ceil(sz)
  {
  }

  lemma CeilOf(a: nat)
    ensures Ceil(a * PGSIZE) == a
  {
  }

  ghost function Blank(flags: nat, n: nat): (want: seq<Page>)
    ensures |want| == n
  {
    seq(n, _ => Page(flags, seq(PGSIZE, _ => 0)))
  }

  lemma BlankAt(flags: nat, n: nat, k: nat)
    requires k < n
    ensures Blank(flags, n)[k] == Page(flags, seq(PGSIZE, _ => 0))
  {
  }

  lemma BlankProper(perm: nat, n: nat)
    requires Proper(Page(WithV(perm), []))
    ensures forall k :: 0 <= k < n ==> Proper(Blank(WithV(perm), n)[k])
  {
  }

  lemma ProperFlags(perm: nat)
    requires Proper(Page(WithV(perm), []))
    ensures WithV(perm) < 1024 && WithV(perm) % 2 == 1
  {
  }

  lemma SourceFacts(tables: Tables, dir: Dir, frames: Frames, i: nat)
    requires Source(tables, dir, frames, i)
    ensures var pte := Leaf(tables, dir, i);
      NodeOf(0, i) in dir && Flags(pte) < 1024 && Flags(pte) % 2 == 1 && Ppn(pte) in frames && V(pte)
  {
    hide V, Ppn, Flags;
    ValidServed(tables, dir, i);
    FlagsOf(Leaf(tables, dir, i));
    FlagsV(Leaf(tables, dir, i));
  }

  lemma ApartFresh(tables: Tables, pages: set<nat>, dir: Dir, tables': Tables, pages': set<nat>, dir': Dir)
    requires Apart(tables, pages, dir, tables', pages', dir')
    ensures Fresh(pages', dir')
  {
  }

  lemma LeavesMapped(tables: Tables, dir: Dir, tables1: Tables, dir1: Dir, tables2: Tables, dir2: Dir,
                     first: nat, n: nat, ppn: nat, flags: nat)
    requires Mapped(tables, dir, tables1, dir1, first, n, ppn, flags) && SameLeaves(tables1, dir1, tables2, dir2)
    ensures Mapped(tables, dir, tables2, dir2, first, n, ppn, flags)
  {
    hide Leaf, Make;
    forall v: nat
      ensures Leaf(tables2, dir2, v) == if first <= v < first + n then Entry(ppn + (v - first), flags)
        else Leaf(tables, dir, v)
    {
      assert Leaf(tables2, dir2, v) == Leaf(tables1, dir1, v);
    }
  }

  /** The entry found by walk is the leaf. */
  lemma TableAt(tables: Tables, root: nat, dir: Dir, vpn: nat)
    requires Shape(tables, root, dir) && NodeOf(0, vpn) in dir
    ensures var t := dir[NodeOf(0, vpn)];
      t in tables && |tables[t]| == ENTRIES && Px(0, vpn) < ENTRIES && tables[t][Px(0, vpn)] == Leaf(tables, dir, vpn)
  {
    hide LinkOk, NodeOf, Px;
  }
}
