/** Four-level page tables (Sv48) as a tree of pages of 512 entries, and as a finite map from page
    numbers to entries (kernel/vm.c, include/riscv.h). */
module PageTable {

  import opened Common

  const PGSIZE: nat := 4096
  const ENTRIES: nat := 512
  const TOP: nat := 3
  /** MAX_VA in pages. */
  const MAX_VPN: nat := 0x8_0000_0000

  // Entries: a page number above ten flag bits, of which the lowest is PTE_V.

  function Ppn(pte: nat): nat { pte / 1024 }

  function Flags(pte: nat): nat { pte % 1024 }

  predicate V(pte: nat) { pte % 2 == 1 }

  function WithV(flags: nat): nat { if flags % 2 == 1 then flags else flags + 1 }

  /** PA2PTE of page number ppn, or'ed with flags. */
  function Make(ppn: nat, flags: nat): nat
    requires flags < 1024
  {
    ppn * 1024 + flags
  }

  lemma MadeOf(ppn: nat, flags: nat)
    requires flags < 1024
    ensures Ppn(Make(ppn, flags)) == ppn && Flags(Make(ppn, flags)) == flags
    ensures (V(Make(ppn, flags)) <==> flags % 2 == 1)
  {
    assert (ppn * 1024 + flags) / 1024 == ppn;
  }

  // The tree.

  type Table = seq<nat>
  type Tables = map<nat, Table>

  function SetEntry(t: Table, i: nat, pte: nat): Table
    requires i < |t|
  {
    t[i := pte]
  }

  /** A node of the tree: the tables of this level are numbered by the upper part of the page
      numbers they serve. */
  datatype Node = Node(level: nat, prefix: nat)

  /** Which page holds which node. */
  type Dir = map<Node, nat>

  function Child(k: Node, i: nat): Node
    requires k.level > 0
  {
    Node(k.level - 1, 512 * k.prefix + i)
  }

  function Parent(k: Node): Node {
    Node(k.level + 1, k.prefix / 512)
  }

  /** The upper part of a page number, without its lowest n nine-bit fields. */
  function Upper(vpn: nat, n: nat): nat {
    if n == 0 then vpn else Upper(vpn, n - 1) / 512
  }

  /** PX(level, va). */
  function Px(level: nat, vpn: nat): (i: nat)
    ensures i < ENTRIES
  {
    Upper(vpn, level) % 512
  }

  /** The table of this level that serves vpn. */
  function NodeOf(level: nat, vpn: nat): Node {
    Node(level, Upper(vpn, level + 1))
  }

  lemma ChildOf(level: nat, vpn: nat)
    requires level > 0
    ensures Child(NodeOf(level, vpn), Px(level, vpn)) == NodeOf(level - 1, vpn)
  {
  }

  lemma ParentOf(k: Node, i: nat)
    requires k.level > 0 && i < ENTRIES
    ensures Parent(Child(k, i)) == k
  {
    assert (512 * k.prefix + i) / 512 == k.prefix;
  }

  lemma ChildApart(k: Node, i: nat, j: Node, m: nat)
    requires k.level > 0 && j.level > 0 && i < ENTRIES && m < ENTRIES && Child(k, i) == Child(j, m)
    ensures k == j && i == m
  {
    ParentOf(k, i);
    ParentOf(j, m);
  }

  ghost predicate Shape(tables: Tables, root: nat, dir: Dir) {
    && Node(TOP, 0) in dir && dir[Node(TOP, 0)] == root
    && (forall k :: k in dir ==> k.level <= TOP && dir[k] in tables && |tables[dir[k]]| == ENTRIES)
    && (forall k :: k in dir && k.level == TOP ==> k.prefix == 0)
    && (forall k, i :: k in dir && k.level > 0 && 0 <= i < ENTRIES ==> LinkOk(tables, dir, k, i))
    && (forall k :: k in dir && k.level < TOP ==> Parent(k) in dir)
    && (forall k, j :: k in dir && j in dir && dir[k] == dir[j] ==> k == j)
  }

  /** An inner entry is valid exactly when the child is there, and then it names the child's page and
      has no other flag. */
  ghost predicate LinkOk(tables: Tables, dir: Dir, k: Node, i: nat)
    requires k in dir && dir[k] in tables && k.level > 0 && i < |tables[dir[k]]|
  {
    var pte := tables[dir[k]][i];
    && (V(pte) <==> Child(k, i) in dir)
    && (Child(k, i) in dir ==> Ppn(pte) == dir[Child(k, i)] && Flags(pte) == 1)
  }

  /** The entry for a page, zero if there is no table for it. */
  ghost function Leaf(tables: Tables, dir: Dir, vpn: nat): nat {
    var k := NodeOf(0, vpn);
    if k in dir && dir[k] in tables && Px(0, vpn) < |tables[dir[k]]| then tables[dir[k]][Px(0, vpn)] else 0
  }

  /** A walk over level + 1 levels of tables, as the hardware does it where inner entries are pointers. */
  ghost function Translate(tables: Tables, page: nat, level: nat, vpn: nat): nat
    decreases level
  {
    if page !in tables || |tables[page]| != ENTRIES then 0
    else
      var pte := tables[page][Px(level, vpn)];
      if level == 0 then pte
      else if V(pte) then Translate(tables, Ppn(pte), level - 1, vpn)
      else 0
  }

  /** The tree is a map: a walk over all its levels finds the entry of the abstract map. */
  lemma {:induction false} TranslateIsLeaf(tables: Tables, root: nat, dir: Dir, level: nat, vpn: nat)
    requires Shape(tables, root, dir) && NodeOf(level, vpn) in dir
    ensures Translate(tables, dir[NodeOf(level, vpn)], level, vpn) == Leaf(tables, dir, vpn)
  {
    hide V, Ppn, Flags, Upper;
    if level > 0 {
      var k, i := NodeOf(level, vpn), Px(level, vpn);
      assert LinkOk(tables, dir, k, i);
      ChildOf(level, vpn);
      if V(tables[dir[k]][i]) {
        TranslateIsLeaf(tables, root, dir, level - 1, vpn);
      } else {
        MissingBelow(tables, root, dir, level - 1, vpn);
      }
    }
  }

  lemma {:induction false} MissingBelow(tables: Tables, root: nat, dir: Dir, level: nat, vpn: nat)
    requires Shape(tables, root, dir) && NodeOf(level, vpn) !in dir && level < TOP
    ensures NodeOf(0, vpn) !in dir
  {
    hide LinkOk;
    if level > 0 {
      assert Parent(NodeOf(level - 1, vpn)) == NodeOf(level, vpn);
      MissingBelow(tables, root, dir, level - 1, vpn);
    }
  }

  /** The root serves every page below MAX_VA. */
  lemma RootServes(vpn: nat)
    requires vpn < MAX_VPN
    ensures NodeOf(TOP, vpn) == Node(TOP, 0)
  {
    assert Upper(vpn, 1) == vpn / 512;
    assert Upper(vpn, 2) == Upper(vpn, 1) / 512;
    assert Upper(vpn, 3) == Upper(vpn, 2) / 512;
    assert Upper(vpn, 4) == Upper(vpn, 3) / 512;
  }

  /** A walk over fewer levels than the tree has stops at a pointer, never at an entry for a page. */
  lemma {:induction false} ShortWalk(tables: Tables, root: nat, dir: Dir, k: Node, level: nat, vpn: nat)
    requires Shape(tables, root, dir) && k in dir && level < k.level
    ensures var pte := Translate(tables, dir[k], level, vpn); V(pte) ==> Flags(pte) == 1
    decreases level
  {
    hide Ppn, Flags, Upper, Px;
    assert LinkOk(tables, dir, k, Px(level, vpn));
    if level > 0 && V(tables[dir[k]][Px(level, vpn)]) {
      ShortWalk(tables, root, dir, Child(k, Px(level, vpn)), level - 1, vpn);
    }
  }

  ghost predicate Serves(tables: Tables, root: nat, dir: Dir, top: nat) {
    forall vpn :: 0 <= vpn < MAX_VPN ==> Translate(tables, root, top, vpn) == Leaf(tables, dir, vpn)
  }

  /** MAKE_SATP always selects Sv39, three levels, whatever number of levels the tree is built with.
      With a page mapped in a tree of four, the hardware finds what the kernel mapped if and only if
      its mode has four levels, too. */
  lemma ModeIff(tables: Tables, root: nat, dir: Dir, top: nat, mapped: nat)
    requires Shape(tables, root, dir) && top <= TOP
    requires mapped < MAX_VPN && V(Leaf(tables, dir, mapped)) && Flags(Leaf(tables, dir, mapped)) != 1
    ensures Serves(tables, root, dir, top) <==> top == TOP
  {
    hide V, Ppn, Flags, Upper, Leaf, Translate, LinkOk;
    if top < TOP {
      ShortWalk(tables, root, dir, Node(TOP, 0), top, mapped);
    } else {
      forall vpn | 0 <= vpn < MAX_VPN ensures Translate(tables, root, top, vpn) == Leaf(tables, dir, vpn) {
        RootServes(vpn);
        TranslateIsLeaf(tables, root, dir, TOP, vpn);
      }
    }
  }

  // Growing the tree.

  ghost function Zeroes(): (t: Table)
    ensures |t| == ENTRIES && forall i :: 0 <= i < ENTRIES ==> t[i] == 0
  {
    seq(ENTRIES, _ => 0)
  }

  /** The empty table on page c becomes child i of node k. */
  ghost predicate Linked(tables: Tables, dir: Dir, tables': Tables, dir': Dir, k: Node, i: nat, c: nat)
  {
    && k in dir && dir[k] in tables && k.level > 0 && i < ENTRIES == |tables[dir[k]]|
    && tables' == tables[c := Zeroes()][dir[k] := SetEntry(tables[dir[k]], i, Make(c, 1))]
    && dir' == dir[Child(k, i) := c]
  }

  lemma LinkedShape(tables: Tables, root: nat, dir: Dir, tables': Tables, dir': Dir, k: Node, i: nat, c: nat)
    requires Shape(tables, root, dir) && Linked(tables, dir, tables', dir', k, i, c)
    requires c !in dir.Values && Child(k, i) !in dir
    ensures Shape(tables', root, dir')
  {
    hide V, Ppn, Flags, Upper, Make, LinkOk;
    ParentOf(k, i);
    ValuesApart(dir, c);
    forall j, m | j in dir' && j.level > 0 && 0 <= m < ENTRIES ensures LinkOk(tables', dir', j, m) {
      if j == Child(k, i) {
        EmptyLink(tables', dir', j, m);
        NoGrandchild(tables, root, dir, k, i, m);
      } else {
        LinkedLink(tables, root, dir, tables', dir', k, i, c, j, m);
      }
    }
  }

  /** Nothing hangs below a node that is not there. */
  lemma NoGrandchild(tables: Tables, root: nat, dir: Dir, k: Node, i: nat, m: nat)
    requires Shape(tables, root, dir) && k.level > 1 && k.level <= TOP && i < ENTRIES && m < ENTRIES
    requires Child(k, i) !in dir
    ensures Child(Child(k, i), m) !in dir && Child(Child(k, i), m) != Child(k, i)
  {
    hide LinkOk;
    ParentOf(Child(k, i), m);
  }

  lemma EmptyLink(tables: Tables, dir: Dir, j: Node, m: nat)
    requires j in dir && dir[j] in tables && j.level > 0 && m < |tables[dir[j]]| && tables[dir[j]][m] == 0
    ensures Child(j, m) !in dir ==> LinkOk(tables, dir, j, m)
  {
    ZeroInvalid();
  }

  lemma LinkedLink(tables: Tables, root: nat, dir: Dir, tables': Tables, dir': Dir, k: Node, i: nat, c: nat, j: Node,
                   m: nat)
    requires Shape(tables, root, dir) && Linked(tables, dir, tables', dir', k, i, c)
    requires c !in dir.Values && Child(k, i) !in dir && j in dir && j.level > 0 && m < ENTRIES
    ensures dir'[j] in tables' && |tables'[dir'[j]]| == ENTRIES && LinkOk(tables', dir', j, m)
  {
    hide V, Ppn, Flags, Upper, Make;
    MadeOf(c, 1);
    ValuesApart(dir, c);
    assert LinkOk(tables, dir, j, m);
    if Child(j, m) == Child(k, i) {
      ChildApart(j, m, k, i);
    }
  }

  lemma LinkedLeaf(tables: Tables, root: nat, dir: Dir, tables': Tables, dir': Dir, k: Node, i: nat, c: nat, vpn: nat)
    requires Shape(tables, root, dir) && Linked(tables, dir, tables', dir', k, i, c)
    requires c !in dir.Values && Child(k, i) !in dir
    ensures Leaf(tables', dir', vpn) == Leaf(tables, dir, vpn)
  {
    hide V, Ppn, Flags, Upper, Make, LinkOk, Parent;
    ValuesApart(dir, c);
    assert NodeOf(0, vpn) != k;
  }

  lemma ZeroInvalid()
    ensures !V(0)
  {
  }

  lemma ValuesApart(dir: Dir, c: nat)
    requires c !in dir.Values
    ensures forall k :: k in dir ==> dir[k] != c
  {
    forall k | k in dir ensures dir[k] != c {
      assert dir[k] in dir.Values;
    }
  }

  /** A leaf entry is written. */
  ghost predicate Stored(tables: Tables, dir: Dir, tables': Tables, vpn: nat, pte: nat) {
    var k := NodeOf(0, vpn);
    k in dir && dir[k] in tables && |tables[dir[k]]| == ENTRIES
    && tables' == tables[dir[k] := SetEntry(tables[dir[k]], Px(0, vpn), pte)]
  }

  lemma StoredShape(tables: Tables, root: nat, dir: Dir, tables': Tables, vpn: nat, pte: nat)
    requires Shape(tables, root, dir) && Stored(tables, dir, tables', vpn, pte)
    ensures Shape(tables', root, dir)
    ensures forall v :: Leaf(tables', dir, v) == if v == vpn then pte else Leaf(tables, dir, v)
  {
    hide V, Ppn, Flags;
    var k := NodeOf(0, vpn);
    forall j, m | j in dir && j.level > 0 && 0 <= m < ENTRIES ensures LinkOk(tables', dir, j, m) {
      assert LinkOk(tables, dir, j, m);
    }
    forall v ensures Leaf(tables', dir, v) == if v == vpn then pte else Leaf(tables, dir, v) {
      if NodeOf(0, v) == k && Px(0, v) == Px(0, vpn) {
        LeafIndex(v, vpn);
      }
    }
  }

  lemma LeafIndex(v: nat, w: nat)
    requires NodeOf(0, v) == NodeOf(0, w) && Px(0, v) == Px(0, w)
    ensures v == w
  {
    assert v / 512 == w / 512 && v % 512 == w % 512;
  }

  // Memory.

  /** What work on the page table dir leaves alone: every page that it did not use and did not take
      from the pool. What it took from the pool is part of the table now. */
  ghost predicate Apart(tables: Tables, pages: set<nat>, dir: Dir, tables': Tables, pages': set<nat>, dir': Dir) {
    && pages' <= pages
    && (forall k :: k in dir ==> k in dir' && dir'[k] == dir[k])
    && (forall k :: k in dir' ==> dir'[k] !in pages' && (k in dir || dir'[k] in pages))
    && (forall t :: t in tables && t !in pages && t !in dir.Values ==> t in tables' && tables'[t] == tables[t])
    && (forall p :: p in pages && p !in pages' ==> p in dir'.Values)
  }

  lemma ApartTrans(tables: Tables, pages: set<nat>, dir: Dir, tables1: Tables, pages1: set<nat>, dir1: Dir,
                   tables2: Tables, pages2: set<nat>, dir2: Dir)
    requires Apart(tables, pages, dir, tables1, pages1, dir1) && Apart(tables1, pages1, dir1, tables2, pages2, dir2)
    ensures Apart(tables, pages, dir, tables2, pages2, dir2)
  {
    assert forall k :: k in dir ==> dir[k] in dir.Values;
    forall p | p in pages && p !in pages2 ensures p in dir2.Values {
      if p !in pages1 {
        var k :| k in dir1 && dir1[k] == p;
        assert dir2[k] == p;
      }
    }
  }

  /** No page of the table is in the pool. */
  ghost predicate Fresh(pages: set<nat>, dir: Dir) {
    forall k :: k in dir ==> dir[k] !in pages
  }

  ghost predicate SameLeaves(tables: Tables, dir: Dir, tables': Tables, dir': Dir) {
    forall v :: Leaf(tables', dir', v) == Leaf(tables, dir, v)
  }

  lemma ShapeRoot(tables: Tables, root: nat, dir: Dir)
    requires Shape(tables, root, dir)
    ensures Node(TOP, 0) in dir && dir[Node(TOP, 0)] == root
  {
  }

  lemma NoStep(tables: Tables, pages: set<nat>, dir: Dir)
    requires Fresh(pages, dir)
    ensures Apart(tables, pages, dir, tables, pages, dir) && SameLeaves(tables, dir, tables, dir)
  {
  }

  lemma LeavesTrans(tables: Tables, dir: Dir, tables1: Tables, dir1: Dir, tables2: Tables, dir2: Dir)
    requires SameLeaves(tables, dir, tables1, dir1) && SameLeaves(tables1, dir1, tables2, dir2)
    ensures SameLeaves(tables, dir, tables2, dir2)
  {
    hide Leaf;
    forall v ensures Leaf(tables2, dir2, v) == Leaf(tables, dir, v) {
      assert Leaf(tables1, dir1, v) == Leaf(tables, dir, v);
    }
  }

  function NewTable(): (t: Table)
    ensures t == Zeroes()
  {
    seq(ENTRIES, _ => 0)
  }

  lemma LinkAt(tables: Tables, root: nat, dir: Dir, k: Node, i: nat)
    requires Shape(tables, root, dir) && k in dir && k.level > 0 && i < ENTRIES
    ensures dir[k] in tables && |tables[dir[k]]| == ENTRIES
    ensures var pte := tables[dir[k]][i];
      (V(pte) <==> Child(k, i) in dir) && (V(pte) ==> Ppn(pte) == dir[Child(k, i)])
  {
    hide V, Ppn, Flags;
    assert LinkOk(tables, dir, k, i);
  }

  lemma LinkNew(tables: Tables, pages: set<nat>, root: nat, dir: Dir, tables': Tables, pages': set<nat>, dir': Dir,
                k: Node, i: nat, c: nat)
    requires Shape(tables, root, dir) && Fresh(pages, dir) && c in pages && pages' == pages - {c}
    requires Linked(tables, dir, tables', dir', k, i, c) && Child(k, i) !in dir
    ensures Shape(tables', root, dir') && Fresh(pages', dir') && SameLeaves(tables, dir, tables', dir')
    ensures Apart(tables, pages, dir, tables', pages', dir')
  {
    hide Shape, Leaf, Make, Upper;
    assert c !in dir.Values && dir'[Child(k, i)] == c;
    LinkedShape(tables, root, dir, tables', dir', k, i, c);
    forall v ensures Leaf(tables', dir', v) == Leaf(tables, dir, v) {
      LinkedLeaf(tables, root, dir, tables', dir', k, i, c, v);
    }
  }

  // Subtrees.

  /** Node j is k or a node below it. */
  ghost predicate Under(j: Node, k: Node) {
    j.level <= k.level && Upper(j.prefix, k.level - j.level) == k.prefix
  }

  /** Node j is below one of the first i children of k. */
  ghost predicate UnderFirst(j: Node, k: Node, i: nat) {
    j.level < k.level && var c := Upper(j.prefix, k.level - 1 - j.level); c / 512 == k.prefix && c % 512 < i
  }

  ghost function PagesUnder(dir: Dir, k: Node): set<nat> {
    set j | j in dir && Under(j, k) :: dir[j]
  }

  ghost function PagesUnderFirst(dir: Dir, k: Node, i: nat): set<nat> {
    set j | j in dir && UnderFirst(j, k, i) :: dir[j]
  }

  /** The subtree of k is in place, and no entry for a page is valid in it. */
  ghost predicate Bare(tables: Tables, dir: Dir, k: Node) {
    && k in dir
    && (forall j, m :: j in dir && m in dir && dir[j] == dir[m] ==> j == m)
    && (forall j :: j in dir && Under(j, k) ==> dir[j] in tables && |tables[dir[j]]| == ENTRIES)
    && (forall j, i :: j in dir && Under(j, k) && j.level > 0 && 0 <= i < ENTRIES ==> LinkOk(tables, dir, j, i))
    && (forall j, i :: j in dir && Under(j, k) && j.level == 0 && 0 <= i < ENTRIES ==> !V(tables[dir[j]][i]))
    && (forall j :: j in dir && Under(j, k) && j != k ==> Parent(j) in dir)
  }

  lemma {:induction false} UpperShift(x: nat, n: nat)
    ensures Upper(x / 512, n) == Upper(x, n + 1)
  {
    if n > 0 {
      UpperShift(x, n - 1);
    }
  }

  lemma UnderChild(j: Node, k: Node, i: nat)
    requires k.level > 0 && i < ENTRIES
    ensures Under(j, Child(k, i)) <==> UnderFirst(j, k, i + 1) && !UnderFirst(j, k, i)
    ensures Under(j, Child(k, i)) ==> Under(j, k)
  {
    hide Upper;
    if j.level < k.level {
      var c := Upper(j.prefix, k.level - 1 - j.level);
      UpperStep(j.prefix, k.level - 1 - j.level);
      assert c == 512 * k.prefix + i <==> c / 512 == k.prefix && c % 512 == i;
    }
  }

  lemma UpperStep(x: nat, n: nat)
    ensures Upper(x, n + 1) == Upper(x, n) / 512
  {
  }

  lemma UnderAll(j: Node, k: Node)
    ensures Under(j, k) <==> j == k || UnderFirst(j, k, ENTRIES)
  {
    hide Upper;
    if j.level < k.level {
      UpperStep(j.prefix, k.level - 1 - j.level);
    } else if j.level == k.level {
      UpperNone(j.prefix);
    }
  }

  lemma UpperNone(x: nat)
    ensures Upper(x, 0) == x
  {
  }

  lemma UnderParent(j: Node, k: Node)
    requires Under(j, k) && j != k
    ensures Under(Parent(j), k)
  {
    hide Upper;
    UpperNone(j.prefix);
    UpperShift(j.prefix, k.level - j.level - 1);
  }

  /** Without a child there is nothing below the child. */
  lemma {:induction false} NothingUnder(tables: Tables, dir: Dir, k: Node, i: nat, j: Node)
    requires Bare(tables, dir, k) && k.level > 0 && i < ENTRIES && j in dir && Under(j, Child(k, i))
    ensures Child(k, i) in dir
    decreases k.level - j.level
  {
    hide Upper, LinkOk, Parent;
    UnderChild(j, k, i);
    if j != Child(k, i) {
      UnderParent(j, Child(k, i));
      ParentLevel(j);
      NothingUnder(tables, dir, k, i, Parent(j));
    }
  }

  lemma ParentLevel(j: Node)
    ensures Parent(j).level == j.level + 1
  {
  }

  lemma PagesNext(tables: Tables, dir: Dir, k: Node, i: nat)
    requires Bare(tables, dir, k) && k.level > 0 && i < ENTRIES
    ensures PagesUnderFirst(dir, k, i + 1) == PagesUnderFirst(dir, k, i) + PagesUnder(dir, Child(k, i))
    ensures Child(k, i) !in dir ==> PagesUnderFirst(dir, k, i + 1) == PagesUnderFirst(dir, k, i)
  {
    hide Upper, Under, UnderFirst, Bare;
    forall j | j in dir ensures UnderFirst(j, k, i + 1) <==> UnderFirst(j, k, i) || Under(j, Child(k, i)) {
      UnderChild(j, k, i);
      FirstGrows(j, k, i);
    }
    if Child(k, i) !in dir {
      forall j | j in dir ensures !Under(j, Child(k, i)) {
        if Under(j, Child(k, i)) {
          NothingUnder(tables, dir, k, i, j);
        }
      }
    }
  }

  lemma FirstGrows(j: Node, k: Node, i: nat)
    ensures UnderFirst(j, k, i) ==> UnderFirst(j, k, i + 1)
    ensures !UnderFirst(j, k, 0)
  {
  }

  lemma PagesAll(dir: Dir, k: Node)
    requires k in dir
    ensures PagesUnder(dir, k) == PagesUnderFirst(dir, k, ENTRIES) + {dir[k]}
    ensures PagesUnderFirst(dir, k, 0) == {}
  {
    hide Upper, Under, UnderFirst;
    forall j | j in dir ensures Under(j, k) <==> j == k || UnderFirst(j, k, ENTRIES) {
      UnderAll(j, k);
    }
    forall j ensures !UnderFirst(j, k, 0) {
      FirstGrows(j, k, 0);
    }
  }

  /** The subtree of child i is still in place after the first i have gone. */
  lemma BareChild(tables: Tables, dir: Dir, k: Node, i: nat, tables': Tables)
    requires Bare(tables, dir, k) && k.level > 0 && i < ENTRIES && Child(k, i) in dir
    requires forall t :: t in tables && t !in PagesUnderFirst(dir, k, i) && t != dir[k] ==>
      t in tables' && tables'[t] == tables[t]
    ensures Bare(tables', dir, Child(k, i)) && dir[k] !in PagesUnder(dir, Child(k, i))
  {
    hide Upper, Under, UnderFirst, V, Ppn, Flags;
    var c := Child(k, i);
    forall j | j in dir && Under(j, c)
      ensures Under(j, k) && dir[j] in tables' && tables'[dir[j]] == tables[dir[j]] && dir[j] != dir[k]
    {
      UnderChild(j, k, i);
      UnderLevel(j, c);
    }
    forall j, e | j in dir && Under(j, c) && j.level > 0 && 0 <= e < ENTRIES ensures LinkOk(tables', dir, j, e) {
      assert LinkOk(tables, dir, j, e);
    }
    forall j | j in dir && Under(j, c) && j != c ensures Parent(j) in dir {
      UnderLevel(j, c);
    }
  }

  lemma UnderLevel(j: Node, c: Node)
    requires Under(j, c)
    ensures j.level <= c.level
  {
  }

  /** All of a page table is below its root. */
  lemma {:induction false} UnderRoot(tables: Tables, root: nat, dir: Dir, j: Node)
    requires Shape(tables, root, dir) && j in dir
    ensures Under(j, Node(TOP, 0))
    decreases TOP - j.level
  {
    hide Upper, LinkOk;
    if j.level == TOP {
      UpperNone(j.prefix);
    } else {
      UnderRoot(tables, root, dir, Parent(j));
      UpperShift(j.prefix, TOP - j.level - 1);
    }
  }

  lemma BareRoot(tables: Tables, root: nat, dir: Dir)
    requires Shape(tables, root, dir) && forall v: nat :: !V(Leaf(tables, dir, v))
    ensures Bare(tables, dir, Node(TOP, 0)) && PagesUnder(dir, Node(TOP, 0)) == dir.Values
  {
    hide Upper, V, Ppn, Flags, LinkOk, Under;
    var r := Node(TOP, 0);
    forall j | j in dir ensures Under(j, r) {
      UnderRoot(tables, root, dir, j);
    }
    forall j, i | j in dir && j.level == 0 && 0 <= i < ENTRIES ensures !V(tables[dir[j]][i]) {
      LeafOf(j, i);
      assert !V(Leaf(tables, dir, 512 * j.prefix + i));
    }
    forall j | j in dir && j != r ensures Parent(j) in dir {
      assert j.level < TOP;
    }
  }

  lemma LeafOf(j: Node, i: nat)
    requires j.level == 0 && i < ENTRIES
    ensures NodeOf(0, 512 * j.prefix + i) == j && Px(0, 512 * j.prefix + i) == i
  {
    UpperNone(512 * j.prefix + i);
    UpperStep(512 * j.prefix + i, 0);
  }
}
