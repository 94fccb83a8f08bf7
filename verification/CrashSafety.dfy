/** The file system and the log together: if what the operations make of the blocks is a file system
    whenever none of them is open, then what comes back after a crash at any moment is one, too. */
module CrashSafety {

  import opened Blocks
  import opened Common
  import opened RedoLog
  import opened Transactions
  import I = Inodes
  import F = Files
  import B = Bitmap

  /** The blocks hold a file system: the inodes on them and some ownership of blocks fit. */
  ghost predicate Holding(d: Image, l: I.Layout) {
    exists inodes, own :: F.Valid(F.Vol(d, inodes, own), l)
  }

  /** The log lies in front of the inodes. */
  ghost predicate LogFirst(lay: Layout, l: I.Layout) {
    lay.start + lay.size <= l.inodestart
  }

  /** The blocks a file system looks at are the same. */
  ghost predicate SameFiles(d: Image, e: Image, l: I.Layout) {
    |d| == |e| && forall b :: l.inodestart <= b < |d| ==> e[b] == d[b]
  }

  lemma EntrySame(d: Image, e: Image, inodes: seq<I.Inode>, own: I.Owners, l: I.Layout, i: nat, n: nat)
    requires I.LayoutOk(l) && SameFiles(d, e, l) && I.RefsOk(d, inodes, own, l) && i < |inodes| && n < I.SLOTS
    ensures I.Entry(e, inodes[i], n) == I.Entry(d, inodes[i], n)
  {
    hide WordAt;
    if n > I.NDIRECT {
      assert I.RefOk(d, inodes[i], own, i, I.NDIRECT);
      var b := inodes[i].addrs[I.NDIRECT];
      assert I.Entry(d, inodes[i], I.NDIRECT) == b;
      if b != 0 {
        assert I.OwnOk(d, inodes, own, l, b);
      }
    }
  }

  lemma RefsSame(d: Image, e: Image, inodes: seq<I.Inode>, own: I.Owners, l: I.Layout)
    requires I.LayoutOk(l) && SameFiles(d, e, l) && I.RefsOk(d, inodes, own, l)
    ensures I.RefsOk(e, inodes, own, l)
  {
    hide I.Entry, SameFiles;
    forall i, n | 0 <= i < |inodes| && 0 <= n < I.SLOTS ensures I.RefOk(e, inodes[i], own, i, n) {
      EntrySame(d, e, inodes, own, l, i, n);
      assert I.RefOk(d, inodes[i], own, i, n);
    }
    forall b | b in own ensures I.OwnOk(e, inodes, own, l, b) {
      assert I.OwnOk(d, inodes, own, l, b);
      EntrySame(d, e, inodes, own, l, own[b].0, own[b].1);
    }
  }

  lemma BitsSame(d: Image, e: Image, own: I.Owners, l: I.Layout)
    requires I.LayoutOk(l) && SameFiles(d, e, l) && |d| == l.size && I.BitsOk(d, own, l)
    ensures I.BitsOk(e, own, l)
  {
    hide B.BlockBit;
    forall b | 0 <= b < l.size ensures I.BitOf(e, l, b) <==> b < l.data || b in own {
      assert I.BitOf(d, l, b) <==> b < l.data || b in own;
      assert b / B.BPB <= l.size / B.BPB;
    }
  }

  lemma StoredSame(v: F.Vol, e: Image, l: I.Layout, j: nat)
    requires F.Sound(v, l) && SameFiles(v.disk, e, l) && j < l.ninodes && F.Stored(v, l, j)
    ensures F.Stored(v.(disk := e), l, j)
  {
    hide I.Entry, I.RefsOk, I.BitsOk;
    assert l.inodestart + j / I.IPB < l.bmapstart;
    forall k | 0 <= k < I.MAXFILE && k * BSIZE < v.inodes[j].size ensures F.DataBlock(e, v.inodes[j], k) != 0 {
      EntrySame(v.disk, e, v.inodes, v.own, l, j, F.DataSlot(k));
      assert F.DataBlock(v.disk, v.inodes[j], k) != 0;
    }
  }

  /** A file system does not depend on the blocks in front of its inodes. */
  lemma ValidSame(v: F.Vol, e: Image, l: I.Layout)
    requires F.Valid(v, l) && SameFiles(v.disk, e, l)
    ensures F.Valid(v.(disk := e), l)
  {
    hide I.RefsOk, I.BitsOk, F.Stored, SameFiles;
    RefsSame(v.disk, e, v.inodes, v.own, l);
    BitsSame(v.disk, e, v.own, l);
    SizesSame(v.disk, e, l);
    forall j | 0 <= j < l.ninodes ensures F.Stored(v.(disk := e), l, j) {
      StoredSame(v, e, l, j);
    }
  }

  lemma SizesSame(d: Image, e: Image, l: I.Layout)
    requires SameFiles(d, e, l)
    ensures |e| == |d|
  {
  }

  lemma HomeFiles(d: Image, e: Image, lay: Layout, l: I.Layout)
    requires SameHome(e, d, lay) && LogFirst(lay, l)
    ensures SameFiles(d, e, l)
  {
  }

  /** Files have the same bytes on both. */
  lemma FileSame(v: F.Vol, e: Image, l: I.Layout, j: nat)
    requires F.Valid(v, l) && SameFiles(v.disk, e, l) && j < l.ninodes
    ensures F.File(e, l, j) == F.File(v.disk, l, j)
  {
    hide I.Entry, I.RefsOk, I.BitsOk, F.ByteAt;
    assert F.Stored(v, l, j);
    var ino := v.inodes[j];
    assert I.InodeOf(e, l, j) == ino by {
      assert l.inodestart + j / I.IPB < l.bmapstart;
    }
    forall k | 0 <= k < ino.size ensures F.ByteAt(e, ino, k) == F.ByteAt(v.disk, ino, k) {
      assert k / BSIZE * BSIZE <= k;
      assert F.DataBlock(v.disk, ino, k / BSIZE) != 0;
      ByteSame(v, e, l, j, k);
    }
    assert F.Bytes(e, ino, ino.size) == F.Bytes(v.disk, ino, ino.size);
  }

  lemma ByteSame(v: F.Vol, e: Image, l: I.Layout, j: nat, k: nat)
    requires F.Sound(v, l) && SameFiles(v.disk, e, l) && j < |v.inodes| && k < I.MAXFILE * BSIZE
    requires F.DataBlock(v.disk, v.inodes[j], k / BSIZE) != 0
    ensures F.ByteAt(e, v.inodes[j], k) == F.ByteAt(v.disk, v.inodes[j], k)
  {
    hide I.Entry, I.BitsOk;
    var n := F.DataSlot(k / BSIZE);
    EntrySame(v.disk, e, v.inodes, v.own, l, j, n);
    var b := I.Entry(v.disk, v.inodes[j], n);
    assert I.RefOk(v.disk, v.inodes[j], v.own, j, n);
    assert I.OwnOk(v.disk, v.inodes, v.own, l, b);
  }

  /** A run in which, whenever the last open operation ends, what they have made is a file system. */
  ghost predicate Careful(s: State, acts: seq<Action>, s': State, lay: Layout, limit: nat, l: I.Layout)
    decreases |acts|
  {
    if acts == [] then s' == s
    else exists m ::
      && Next(s, m, acts[0], lay, limit)
      && (s.ops != map[] && m.ops == map[] && acts[0].AEnd? ==> Holding(m.current, l))
      && Careful(m, acts[1..], s', lay, limit, l)
  }

  ghost predicate Files(s: State, l: I.Layout) {
    Holding(s.durable, l) && (s.ops == map[] ==> Holding(s.current, l))
  }

  lemma FilesNext(s: State, s': State, a: Action, lay: Layout, limit: nat, l: I.Layout)
    requires Inv(s, lay) && Next(s, s', a, lay, limit) && Files(s, l)
    requires s.ops != map[] && s'.ops == map[] && a.AEnd? ==> Holding(s'.current, l)
    ensures Files(s', l)
  {
    hide Holding, Sized, Placed, Counted, Disciplined, Fresh, Settled, Logged, Spare, AfterCommitWrite,
      AfterRecoverWrite;
    match a {
      case ABegin(p) => assert p in s'.ops;
      case AModify(p, b, x) => assert p in s'.ops;
      case ALogWrite(p, b) => assert p in s'.ops;
      case _ =>
    }
  }

  lemma {:induction false} FilesKept(s: State, acts: seq<Action>, s': State, lay: Layout, limit: nat, l: I.Layout)
    requires limit < MAXOPBLOCKS && Inv(s, lay) && Files(s, l) && Careful(s, acts, s', lay, limit, l)
    ensures Files(s', l) && Inv(s', lay)
    decreases |acts|
  {
    hide Inv, Next, Files, Holding;
    if acts != [] {
      var m :| && Next(s, m, acts[0], lay, limit)
               && (s.ops != map[] && m.ops == map[] && acts[0].AEnd? ==> Holding(m.current, l))
               && Careful(m, acts[1..], s', lay, limit, l);
      KeepNext(s, m, acts[0], lay, limit);
      FilesNext(s, m, acts[0], lay, limit, l);
      FilesKept(m, acts[1..], s', lay, limit, l);
    }
  }

  lemma {:induction false} CarefulSteps(s: State, acts: seq<Action>, s': State, lay: Layout, limit: nat, l: I.Layout)
    requires Careful(s, acts, s', lay, limit, l)
    ensures Steps(s, acts, s', lay, limit)
    decreases |acts|
  {
    hide Next, Holding;
    if acts != [] {
      var m :| && Next(s, m, acts[0], lay, limit)
               && (s.ops != map[] && m.ops == map[] && acts[0].AEnd? ==> Holding(m.current, l))
               && Careful(m, acts[1..], s', lay, limit, l);
      CarefulSteps(m, acts[1..], s', lay, limit, l);
    }
  }

  /** Recovery from d gives a file system with the files of the durable blocks. */
  ghost predicate Survived(d: Image, durable: Image, lay: Layout, l: I.Layout) {
    hide WordAt, SetWord, PutHeader, Holding, F.File;
    LogOk(d, lay) && var r := Recovered(d, lay);
    Holding(r, l) && forall j :: 0 <= j < l.ninodes ==> F.File(r, l, j) == F.File(durable, l, j)
  }

  lemma SurvivedFrom(d: Image, durable: Image, lay: Layout, l: I.Layout)
    requires LogOk(d, lay) && SameHome(Recovered(d, lay), durable, lay) && Holding(durable, l) && LogFirst(lay, l)
    ensures Survived(d, durable, lay, l)
  {
    hide Recovered, LogOk, F.Valid, F.File, SameHome, SameFiles;
    var inodes, own :| F.Valid(F.Vol(durable, inodes, own), l);
    HomeFiles(durable, Recovered(d, lay), lay, l);
    ValidSame(F.Vol(durable, inodes, own), Recovered(d, lay), l);
    assert F.Valid(F.Vol(Recovered(d, lay), inodes, own), l);
    forall j | 0 <= j < l.ninodes ensures F.File(Recovered(d, lay), l, j) == F.File(durable, l, j) {
      FileSame(F.Vol(durable, inodes, own), Recovered(d, lay), l, j);
    }
  }

  /** Whenever the machine stops, the blocks that recovery brings back are a file system with the files
      of the last commit. */
  lemma FilesSurvive(s0: State, acts: seq<Action>, s: State, lay: Layout, limit: nat, l: I.Layout)
    requires limit < MAXOPBLOCKS && Init(s0, lay) && Holding(s0.durable, l) && LogFirst(lay, l)
    requires Careful(s0, acts, s, lay, limit, l)
    ensures Holding(s.durable, l) && Survived(s.disk, s.durable, lay, l)
  {
    hide Inv, Next, Careful, Steps, Recovered, LogOk, Holding, Survived, SameHome;
    CarefulSteps(s0, acts, s, lay, limit, l);
    CrashBringsBackDurable(s, lay, limit);
    KeepInit(s0, lay);
    FilesKept(s0, acts, s, lay, limit, l);
    SurvivedFrom(s.disk, s.durable, lay, l);
  }
}
