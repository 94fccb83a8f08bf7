/** Path names: skipelem, the inode table, and namex (kernel/fs.c). */
module Paths {

  import opened Common

  const DIRSIZ: nat := 14
  const NINODE: nat := 50
  const ROOTINO: nat := 1

  // Path elements.

  /** What stands between the slashes. */
  function Split(p: string): (r: seq<string>)
    ensures |r| > 0
    decreases |p|
  {
    var i := Run(p, false);
    if i == |p| then [p] else [p[..i]] + Split(p[i + 1..])
  }

  /** The number of leading characters that are slashes, or that are not. */
  function Run(p: string, slash: bool): (n: nat)
    ensures n <= |p| && (forall k :: 0 <= k < n ==> (p[k] == '/') == slash) && (n < |p| ==> (p[n] == '/') != slash)
  {
    if p == "" || (p[0] == '/') != slash then 0 else 1 + Run(p[1..], slash)
  }

  lemma RunIs(p: string, slash: bool, n: nat)
    requires n <= |p| && (forall k :: 0 <= k < n ==> (p[k] == '/') == slash) && (n < |p| ==> (p[n] == '/') != slash)
    ensures Run(p, slash) == n
  {
  }

  /** A name is cut to DIRSIZ bytes. */
  function Cut(s: string): string {
    if |s| >= DIRSIZ then s[..DIRSIZ] else s
  }

  /** The elements of a path: the non-empty parts between slashes, each cut to DIRSIZ bytes. */
  function Elements(p: string): seq<string> {
    Keep(Split(p))
  }

  function Keep(parts: seq<string>): seq<string> {
    if parts == [] then []
    else (if parts[0] == "" then [] else [Cut(parts[0])]) + Keep(parts[1..])
  }

  lemma {:induction false} SlashFirst(p: string)
    requires p != "" && p[0] == '/'
    ensures Elements(p) == Elements(p[1..])
  {
    hide Split, Keep;
    SplitSlash(p);
    KeepEmpty(Split(p[1..]));
  }

  lemma SplitSlash(p: string)
    requires p != "" && p[0] == '/'
    ensures Split(p) == [""] + Split(p[1..])
  {
    hide Run;
    RunIs(p, false, 0);
    assert p[..0] == "";
  }

  lemma KeepEmpty(parts: seq<string>)
    ensures Keep([""] + parts) == Keep(parts)
  {
    assert ([""] + parts)[1..] == parts;
  }

  /** Leading slashes do not matter. */
  lemma {:induction false} SlashesFirst(p: string, n: nat)
    requires n <= |p| && forall k :: 0 <= k < n ==> p[k] == '/'
    ensures Elements(p) == Elements(p[n..])
    decreases n
  {
    if n == 0 {
      assert p[0..] == p;
    } else {
      SlashFirst(p);
      SlashesFirst(p[1..], n - 1);
      assert p[1..][n - 1..] == p[n..];
    }
  }

  lemma NoElements()
    ensures Elements("") == []
  {
    assert Split("") == [""];
  }

  /** An element in front. */
  lemma ElementFirst(p: string, n: nat)
    requires 0 < n <= |p| && (forall k :: 0 <= k < n ==> p[k] != '/') && (n < |p| ==> p[n] == '/')
    ensures Elements(p) == [Cut(p[..n])] + Elements(p[n..])
  {
    RunIs(p, false, n);
    if n == |p| {
      assert p[n..] == "" && p[..n] == p;
      NoElements();
      assert Split(p) == [p];
      assert Keep([p]) == [Cut(p)] + Keep([p][1..]);
    } else {
      assert Split(p) == [p[..n]] + Split(p[n + 1..]);
      assert Split(p)[1..] == Split(p[n + 1..]);
      SlashFirst(p[n..]);
      assert p[n..][1..] == p[n + 1..];
    }
  }

  /** skipelem: the next element and the rest of the path behind the slashes that follow it. Going on
      with the rest gives exactly the elements of the path. */
  method SkipElem(path: string) returns (r: Option<string>, name: string)
    ensures r.None? ==> Elements(path) == []
    ensures r.Some? ==> Elements(path) == [name] + Elements(r.value) && |r.value| < |path|
    ensures r.Some? ==> name != "" && |name| <= DIRSIZ && '/' !in name && (r.value != "" ==> r.value[0] != '/')
  {
    hide Split, Elements, Keep;
    var i := 0;
    while i < |path| && path[i] == '/'
      invariant i <= |path| && forall k :: 0 <= k < i ==> path[k] == '/'
    {
      i := i + 1;
    }
    SlashesFirst(path, i);
    if i == |path| {
      NoElements();
      assert path[i..] == "";
      return None, "";
    }
    var s := i;
    while i < |path| && path[i] != '/'
      invariant s <= i <= |path| && forall k :: s <= k < i ==> path[k] != '/'
    {
      i := i + 1;
    }
    name := Cut(path[s..i]);
    var t := i;
    while i < |path| && path[i] == '/'
      invariant t <= i <= |path| && forall k :: t <= k < i ==> path[k] == '/'
    {
      i := i + 1;
    }
    Skipped(path, s, t, i);
    CutIs(path, s, t);
    return Some(path[i..]), name;
  }

  /** Slashes up to s, an element up to t, slashes up to i. */
  lemma Skipped(path: string, s: nat, t: nat, i: nat)
    requires s < t <= i <= |path|
    requires forall k :: 0 <= k < s ==> path[k] == '/'
    requires (forall k :: s <= k < t ==> path[k] != '/') && (t < |path| ==> path[t] == '/')
    requires forall k :: t <= k < i ==> path[k] == '/'
    ensures Elements(path) == [Cut(path[s..t])] + Elements(path[i..])
  {
    hide Split, Elements, Keep, Cut;
    SlashesFirst(path, s);
    SliceSlice(path, s, t);
    ElementFirst(path[s..], t - s);
    SliceSlice(path, t, i);
    SlashesFirst(path[t..], i - t);
  }

  lemma CutIs(path: string, s: nat, t: nat)
    requires s < t <= |path| && forall k :: s <= k < t ==> path[k] != '/'
    ensures var name := Cut(path[s..t]); name != "" && |name| <= DIRSIZ && '/' !in name
  {
    var part := path[s..t];
    assert forall k :: 0 <= k < |part| ==> part[k] == path[s + k];
  }

  lemma SliceSlice(p: string, s: nat, i: nat)
    requires s <= i <= |p|
    ensures p[s..][..i - s] == p[s..i] && p[s..][i - s..] == p[i..]
  {
    var a, b := p[s..][..i - s], p[s..i];
    assert forall k :: 0 <= k < i - s ==> a[k] == b[k];
    assert a == b;
    var c, d := p[s..][i - s..], p[i..];
    assert forall k :: 0 <= k < |p| - i ==> c[k] == d[k];
    assert c == d;
  }

  // The inode table.

  datatype Entry = Entry(dev: nat, inum: nat, ref: nat)

  /** The references the table holds for an inode. */
  ghost function Refs(table: seq<Entry>, dev: nat, inum: nat): nat {
    if table == [] then 0
    else
      var e := table[|table| - 1];
      Refs(table[..|table| - 1], dev, inum) + if e.dev == dev && e.inum == inum then e.ref else 0
  }

  lemma {:induction false} RefsUpdate(table: seq<Entry>, k: nat, e: Entry, dev: nat, inum: nat)
    requires k < |table|
    ensures Refs(table[k := e], dev, inum) + Share(table[k], dev, inum) == Refs(table, dev, inum) + Share(e, dev, inum)
    decreases |table|
  {
    var n := |table| - 1;
    if k == n {
      assert table[k := e][..n] == table[..n];
    } else {
      RefsUpdate(table[..n], k, e, dev, inum);
      assert table[k := e][..n] == table[..n][k := e];
    }
  }

  ghost function Share(e: Entry, dev: nat, inum: nat): nat {
    if e.dev == dev && e.inum == inum then e.ref else 0
  }

  /** At most one entry in use per inode. */
  ghost predicate Unique(table: seq<Entry>) {
    forall j, k :: 0 <= j < k < |table| && table[j].ref > 0 && table[k].ref > 0 ==>
      table[j].dev != table[k].dev || table[j].inum != table[k].inum
  }

  /** One reference more, or less, for one inode, and none for any other. */
  ghost predicate RefsChange(table: seq<Entry>, table': seq<Entry>, dev: nat, inum: nat, delta: int) {
    forall d: nat, i: nat :: Refs(table', d, i) == Refs(table, d, i) + if d == dev && i == inum then delta else 0
  }

  ghost predicate SameRefs(table: seq<Entry>, table': seq<Entry>) {
    forall d: nat, i: nat :: Refs(table', d, i) == Refs(table, d, i)
  }

  lemma EntryChange(table: seq<Entry>, k: nat, e: Entry)
    requires k < |table| && (table[k].ref > 0 ==> e.dev == table[k].dev && e.inum == table[k].inum)
    ensures RefsChange(table, table[k := e], e.dev, e.inum, e.ref - table[k].ref)
  {
    hide Refs;
    forall d: nat, i: nat
      ensures Refs(table[k := e], d, i) ==
        Refs(table, d, i) + if d == e.dev && i == e.inum then e.ref - table[k].ref else 0
    {
      RefsUpdate(table, k, e, d, i);
    }
  }

  lemma ChangeBack(t0: seq<Entry>, t1: seq<Entry>, t2: seq<Entry>, dev: nat, inum: nat)
    requires RefsChange(t0, t1, dev, inum, 1) && RefsChange(t1, t2, dev, inum, -1)
    ensures SameRefs(t0, t2)
  {
    hide Refs;
    forall d: nat, i: nat ensures Refs(t2, d, i) == Refs(t0, d, i) {
      assert Refs(t1, d, i) == Refs(t0, d, i) + if d == dev && i == inum then 1 else 0;
    }
  }

  /** A reference to the parent is exchanged for one to the child. */
  lemma ChangeOn(t0: seq<Entry>, t1: seq<Entry>, t2: seq<Entry>, t3: seq<Entry>, dev: nat, inum: nat, next: nat)
    requires RefsChange(t0, t1, dev, inum, 1) && RefsChange(t1, t2, dev, next, 1) && RefsChange(t2, t3, dev, inum, -1)
    ensures RefsChange(t0, t3, dev, next, 1)
  {
    hide Refs;
    forall d: nat, i: nat ensures Refs(t3, d, i) == Refs(t0, d, i) + if d == dev && i == next then 1 else 0 {
      assert Refs(t1, d, i) == Refs(t0, d, i) + if d == dev && i == inum then 1 else 0;
      assert Refs(t2, d, i) == Refs(t1, d, i) + if d == dev && i == next then 1 else 0;
    }
  }

  /** Directories by inode number; what is not in the map is no directory. */
  type Dirs = map<nat, map<string, nat>>

  /** What a path means: from inode at, element by element. */
  function Resolve(dirs: Dirs, at: nat, names: seq<string>): Option<nat>
    decreases |names|
  {
    if names == [] then Some(at)
    else if at !in dirs || names[0] !in dirs[at] then None
    else Resolve(dirs, dirs[at][names[0]], names[1..])
  }

  /** The inode a path means, or the directory its last element is to be found in. */
  function Target(dirs: Dirs, at: nat, names: seq<string>, parent: bool): Option<nat> {
    if !parent then Resolve(dirs, at, names)
    else if names == [] then None
    else
      var d := Resolve(dirs, at, names[..|names| - 1]);
      if d.Some? && d.value in dirs then d else None
  }

  lemma TargetStep(dirs: Dirs, at: nat, names: seq<string>, parent: bool)
    requires names != [] && (parent ==> |names| > 1)
    ensures at !in dirs || names[0] !in dirs[at] ==> Target(dirs, at, names, parent) == None
    ensures at in dirs && names[0] in dirs[at] ==>
      Target(dirs, at, names, parent) == Target(dirs, dirs[at][names[0]], names[1..], parent)
  {
    if parent {
      var init := names[..|names| - 1];
      assert init[1..] == names[1..][..|names| - 2];
    }
  }

  datatype Outcome = Found(k: nat) | NotFound | Panic

  class Namespace {
    const dev: nat
    const dirs: Dirs
    var table: seq<Entry>
    /** The entries whose inode lock this process holds. */
    var locked: set<nat>

    ghost predicate Valid()
      reads this
    {
      |table| == NINODE && Unique(table)
    }

    /** iget(): the entry for an inode, found or recycled; the source panics when the table is full. */
    method Iget(d: nat, inum: nat) returns (r: Option<nat>)
      requires Valid()
      modifies `table
      ensures Valid()
      ensures r.Some? ==>
        r.value < NINODE && table == old(table)[r.value := Entry(d, inum, old(table)[r.value].ref + 1)]
      ensures r.Some? && old(table)[r.value].ref > 0 ==>
        old(table)[r.value].dev == d && old(table)[r.value].inum == inum
      ensures r.Some? ==> RefsChange(old(table), table, d, inum, 1)
      ensures r.None? ==> table == old(table) && forall k :: 0 <= k < NINODE ==> table[k].ref > 0
    {
      hide RefsChange;
      var empty: Option<nat> := None;
      var k := 0;
      while k < NINODE
        invariant k <= NINODE && table == old(table)
        invariant empty.Some? ==> empty.value < k && table[empty.value].ref == 0
        invariant empty.None? ==> forall j :: 0 <= j < k ==> table[j].ref > 0
        invariant forall j :: 0 <= j < k && table[j].ref > 0 ==> table[j].dev != d || table[j].inum != inum
      {
        if table[k].ref > 0 && table[k].dev == d && table[k].inum == inum {
          EntryChange(table, k, table[k].(ref := table[k].ref + 1));
          table := table[k := table[k].(ref := table[k].ref + 1)];
          return Some(k);
        }
        if empty.None? && table[k].ref == 0 {
          empty := Some(k);
        }
        k := k + 1;
      }
      if empty.None? {
        return None;
      }
      EntryChange(table, empty.value, Entry(d, inum, 1));
      table := table[empty.value := Entry(d, inum, 1)];
      return empty;
    }

    /** idup(). */
    method Idup(k: nat)
      requires Valid() && k < NINODE && table[k].ref > 0
      modifies `table
      ensures Valid() && table == old(table)[k := old(table)[k].(ref := old(table)[k].ref + 1)]
      ensures RefsChange(old(table), table, table[k].dev, table[k].inum, 1)
    {
      hide RefsChange;
      EntryChange(table, k, table[k].(ref := table[k].ref + 1));
      table := table[k := table[k].(ref := table[k].ref + 1)];
    }

    /** iput(), as far as references go. */
    method Iput(k: nat)
      requires Valid() && k < NINODE && table[k].ref > 0
      modifies `table
      ensures Valid() && table == old(table)[k := old(table)[k].(ref := old(table)[k].ref - 1)]
      ensures RefsChange(old(table), table, old(table)[k].dev, old(table)[k].inum, -1)
    {
      hide RefsChange;
      EntryChange(table, k, table[k].(ref := table[k].ref - 1));
      table := table[k := table[k].(ref := table[k].ref - 1)];
    }

    /** ilock() and iunlock(), which panic on an unreferenced inode or on a lock that is not held. */
    method Ilock(k: nat)
      requires Valid() && k < NINODE && table[k].ref > 0 && k !in locked
      modifies `locked
      ensures locked == old(locked) + {k}
    {
      locked := locked + {k};
    }

    method Iunlock(k: nat)
      requires Valid() && k < NINODE && table[k].ref > 0 && k in locked
      modifies `locked
      ensures locked == old(locked) - {k}
    {
      locked := locked - {k};
    }

    /** One turn of namex's loop: from the locked directory k to its entry name, giving up k. */
    method Descend(k: nat, name: string) returns (r: Outcome)
      requires Valid() && k < NINODE && table[k].ref > 0 && table[k].dev == dev && k in locked
      modifies `table, `locked
      ensures r.Panic? || locked == old(locked) - {k}
      ensures Valid()
      ensures r.NotFound? ==> old(table)[k].inum !in dirs || name !in dirs[old(table)[k].inum]
      ensures r.NotFound? ==> RefsChange(old(table), table, dev, old(table)[k].inum, -1)
      ensures r.Found? ==> old(table)[k].inum in dirs && name in dirs[old(table)[k].inum]
      ensures r.Found? ==>
        r.k < NINODE && table[r.k].ref > 0 && table[r.k].dev == dev && table[r.k].inum == dirs[old(table)[k].inum][name]
      ensures r.Found? ==> exists t :: Exchanged(old(table), t, table, dev, old(table)[k].inum, table[r.k].inum)
    {
      hide RefsChange;
      var inum := table[k].inum;
      if inum !in dirs || name !in dirs[inum] {
        Iunlock(k);
        Iput(k);
        return NotFound;
      }
      var next := Iget(dev, dirs[inum][name]);
      if next.None? {
        return Panic;
      }
      Iunlock(k);
      ghost var t := table;
      Iput(k);
      assert Exchanged(old(table), t, table, dev, inum, table[next.value].inum);
      return Found(next.value);
    }

    /** namex(): resolves the path from the root or from the current directory cwd. Whatever the
        outcome, no lock stays taken, and references are as before but for one to the inode returned. */
    method Namex(path: string, parent: bool, cwd: nat) returns (r: Outcome, name: string)
      requires Valid() && cwd < NINODE && table[cwd].ref > 0 && table[cwd].dev == dev && locked == {}
      modifies `table, `locked
      ensures Valid()
      ensures !r.Panic? ==> locked == {}
      ensures var start := if path != "" && path[0] == '/' then ROOTINO else old(table)[cwd].inum;
        var target := Target(dirs, start, Elements(path), parent);
        && (r.NotFound? ==> target.None? && SameRefs(old(table), table))
        && (r.Found? ==>
          r.k < NINODE && target == Some(table[r.k].inum) && RefsChange(old(table), table, dev, table[r.k].inum, 1))
      ensures r.Found? && parent ==> Elements(path) != [] && name == Elements(path)[|Elements(path)| - 1]
    {
      hide RefsChange, SameRefs, Elements, Resolve, Unique;
      var k: nat := cwd;
      if path != "" && path[0] == '/' {
        var root := Iget(dev, ROOTINO);
        if root.None? {
          return Panic, "";
        }
        k := root.value;
      } else {
        Idup(k);
      }
      ghost var t0 := old(table);
      ghost var start := table[k].inum;
      ghost var want := Target(dirs, start, Elements(path), parent);
      var rest := path;
      name := "";
      while true
        invariant Valid() && locked == {} && k < NINODE && table[k].ref > 0 && table[k].dev == dev
        invariant RefsChange(t0, table, dev, table[k].inum, 1)
        invariant Target(dirs, table[k].inum, Elements(rest), parent) == want
        invariant parent && Elements(rest) == [] ==> rest == path
        invariant Elements(rest) != [] ==>
          Elements(path) != [] && Elements(path)[|Elements(path)| - 1] == Elements(rest)[|Elements(rest)| - 1]
        decreases |rest|
      {
        ghost var names := Elements(rest);
        var next, elem := SkipElem(rest);
        if next.None? {
          break;
        }
        name := elem;
        rest := next.value;
        ghost var t1 := table;
        Ilock(k);
        if table[k].inum !in dirs {
          Iunlock(k);
          Iput(k);
          ChangeBack(t0, t1, table, dev, t1[k].inum);
          if parent && |names| == 1 {
            LastStep(dirs, t1[k].inum, names);
          } else {
            TargetStep(dirs, t1[k].inum, names, parent);
          }
          return NotFound, name;
        }
        if parent && rest == "" {
          Iunlock(k);
          NoElements();
          LastStep(dirs, table[k].inum, names);
          return Found(k), name;
        }
        MoreElements(rest);
        TargetStep(dirs, t1[k].inum, names, parent);
        var down := Descend(k, name);
        if down.Panic? {
          return Panic, name;
        }
        if down.NotFound? {
          ChangeBack(t0, t1, table, dev, t1[k].inum);
          return NotFound, name;
        }
        ghost var t2 :| Exchanged(t1, t2, table, dev, t1[k].inum, table[down.k].inum);
        ChangeOn(t0, t1, t2, table, dev, t1[k].inum, table[down.k].inum);
        k := down.k;
      }
      if parent {
        ghost var t1 := table;
        Iput(k);
        ChangeBack(t0, t1, table, dev, t1[k].inum);
        return NotFound, name;
      }
      NoneLeft(dirs, table[k].inum);
      return Found(k), name;
    }
  }

  lemma NoneLeft(dirs: Dirs, at: nat)
    ensures Target(dirs, at, [], false) == Some(at)
  {
  }

  /** A path that does not start with a slash has an element unless it is empty. */
  lemma MoreElements(p: string)
    requires p != "" ==> p[0] != '/'
    ensures p != "" ==> Elements(p) != []
  {
    if p != "" {
      ElementFirst(p, Run(p, false));
    }
  }

  lemma LastStep(dirs: Dirs, at: nat, names: seq<string>)
    requires |names| == 1
    ensures Target(dirs, at, names, true) == if at in dirs then Some(at) else None
  {
    assert names[..0] == [];
  }

  /** First one more reference to next, then one less to inum. */
  ghost predicate Exchanged(t1: seq<Entry>, t2: seq<Entry>, t3: seq<Entry>, dev: nat, inum: nat, next: nat) {
    RefsChange(t1, t2, dev, next, 1) && RefsChange(t2, t3, dev, inum, -1)
  }
}
