/** The buffer cache: NBUF buffers on a circular LRU list over one disk. */
module BufferCache {
  import opened Blocks
  import opened LruList

  const ROOTDEV: nat := 1

  /** A disk of atomically written blocks. history records the platter after each write, so a
      statement about every element of history is a statement about a crash at any moment. */
  class Disk {
    var blocks: seq<Block>
    ghost var history: seq<seq<Block>>

    constructor (image: seq<Block>)
      ensures blocks == image && history == []
    {
      blocks, history := image, [];
    }

    method Write(blockno: nat, data: Block)
      requires blockno < |blocks|
      modifies this
      ensures blocks == old(blocks)[blockno := data]
      ensures history == old(history) + [blocks]
    {
      blocks := blocks[blockno := data];
      history := history + [blocks];
    }
  }

  datatype Buf = Buf(dev: nat, blockno: nat, valid: bool, refcnt: nat, data: Block)

  predicate Caches(b: Buf, dev: nat, blockno: nat) {
    b.dev == dev && b.blockno == blockno
  }

  /** No two buffers in use for a device stand for the same block; a buffer not yet given to a
      device holds nothing; a buffer nobody references agrees with the disk. */
  ghost predicate Coherent(buf: seq<Buf>, blocks: seq<Block>) {
    && (forall i :: 0 <= i < |buf| ==>
          && buf[i].dev in {0, ROOTDEV}
          && (buf[i].dev == 0 ==> !buf[i].valid)
          && (buf[i].dev != 0 ==> buf[i].blockno < |blocks|)
          && (buf[i].valid && buf[i].refcnt == 0 ==> buf[i].data == blocks[buf[i].blockno]))
    && (forall i, j :: 0 <= i < j < |buf| && buf[i].dev != 0 ==> !Caches(buf[j], buf[i].dev, buf[i].blockno))
  }

  ghost predicate Cached(buf: seq<Buf>, blockno: nat) {
    exists i :: 0 <= i < |buf| && buf[i].valid && buf[i].blockno == blockno
  }

  ghost function Current(buf: seq<Buf>, blocks: seq<Block>, blockno: nat): Block
    requires blockno < |blocks|
  {
    if Cached(buf, blockno)
    then var i :| 0 <= i < |buf| && buf[i].valid && buf[i].blockno == blockno; buf[i].data
    else blocks[blockno]
  }

  /** What a reader of the cache sees: the flat block store that cache and disk together stand for. */
  ghost function View(buf: seq<Buf>, blocks: seq<Block>): (s: seq<Block>)
    requires Coherent(buf, blocks)
    ensures |s| == |blocks|
    ensures forall i :: 0 <= i < |buf| && buf[i].valid ==> s[buf[i].blockno] == buf[i].data
    ensures forall b :: 0 <= b < |blocks| && !Cached(buf, b) ==> s[b] == blocks[b]
  {
    seq(|blocks|, b requires 0 <= b < |blocks| => Current(buf, blocks, b))
  }

  /** One buffer changes without changing what its block reads as. */
  lemma SameView(buf: seq<Buf>, i: nat, nb: Buf, blocks: seq<Block>)
    requires Coherent(buf, blocks) && i < |buf|
    requires Coherent(buf[i := nb], blocks)
    requires buf[i].valid && buf[i].data != blocks[buf[i].blockno] ==>
               nb.valid && nb.blockno == buf[i].blockno
    requires nb.valid ==> nb.blockno < |blocks| && nb.data == View(buf, blocks)[nb.blockno]
    ensures View(buf[i := nb], blocks) == View(buf, blocks)
  {
    var buf' := buf[i := nb];
    var s, s' := View(buf, blocks), View(buf', blocks);
    forall b | 0 <= b < |blocks| ensures s[b] == s'[b] {
      if j :| 0 <= j < |buf| && j != i && buf[j].valid && buf[j].blockno == b {
        assert buf'[j] == buf[j];
      } else if nb.valid && nb.blockno == b {
        assert buf'[i] == nb;
      } else {
        assert !Cached(buf', b);
        if Cached(buf, b) {
          assert buf[i].valid && buf[i].blockno == b;
        }
      }
    }
  }

  ghost function RefOf(buf: seq<Buf>, blockno: nat): nat {
    if exists i :: 0 <= i < |buf| && Caches(buf[i], ROOTDEV, blockno)
    then var i :| 0 <= i < |buf| && Caches(buf[i], ROOTDEV, blockno); buf[i].refcnt
    else 0
  }

  /** The reference count of every block: a block without a buffer has none. */
  ghost function BlockRefs(buf: seq<Buf>, blocks: seq<Block>): (r: seq<nat>)
    requires Coherent(buf, blocks)
    ensures |r| == |blocks|
    ensures forall i :: 0 <= i < |buf| && buf[i].dev == ROOTDEV ==> r[buf[i].blockno] == buf[i].refcnt
    ensures forall b :: 0 <= b < |blocks| && r[b] > 0 ==>
              exists i :: 0 <= i < |buf| && Caches(buf[i], ROOTDEV, b)
  {
    seq(|blocks|, b requires 0 <= b < |blocks| => RefOf(buf, b))
  }

  ghost function Taken(r: seq<nat>, b: nat): (t: seq<nat>)
    requires b < |r|
    ensures |t| == |r| && t[b] == r[b] + 1
  {
    r[b := r[b] + 1]
  }

  ghost function Dropped(r: seq<nat>, b: nat): (t: seq<nat>)
    requires b < |r| && r[b] > 0
    ensures |t| == |r| && t[b] == r[b] - 1
  {
    r[b := r[b] - 1]
  }

  /** References dropped in any order after being taken leave the counts alone. */
  lemma TakeDrop(r: seq<nat>, a: nat, b: nat)
    requires a < |r| && b < |r|
    ensures Dropped(Taken(r, a), a) == r
    ensures a != b ==> Taken(r, a)[b] == r[b]
    ensures Dropped(Dropped(Taken(Taken(r, a), b), b), a) == r
    ensures Dropped(Dropped(Taken(Taken(r, a), b), a), b) == r
    ensures a != b && r[b] > 0 ==> Dropped(Dropped(Dropped(Taken(Taken(r, a), b), b), a), b) == Dropped(r, b)
  {
  }

  ghost function CountFree(buf: seq<Buf>): nat {
    if buf == [] then 0 else CountFree(buf[1..]) + if buf[0].refcnt == 0 then 1 else 0
  }

  lemma CountFreeUpdate(buf: seq<Buf>, i: nat, nb: Buf)
    requires i < |buf|
    ensures CountFree(buf[i := nb]) + (if buf[i].refcnt == 0 then 1 else 0)
            == CountFree(buf) + if nb.refcnt == 0 then 1 else 0
  {
    if i > 0 {
      assert buf[i := nb][1..] == buf[1..][i - 1 := nb];
      CountFreeUpdate(buf[1..], i - 1, nb);
    } else {
      assert buf[i := nb][1..] == buf[1..];
    }
  }

  lemma SomeFree(buf: seq<Buf>)
    requires CountFree(buf) > 0
    ensures exists i :: 0 <= i < |buf| && buf[i].refcnt == 0
  {
    if buf[0].refcnt != 0 {
      SomeFree(buf[1..]);
      var i :| 0 <= i < |buf[1..]| && buf[1..][i].refcnt == 0;
      assert buf[i + 1].refcnt == 0;
    }
  }

  lemma AllFree(buf: seq<Buf>)
    requires forall i :: 0 <= i < |buf| ==> buf[i].refcnt == 0
    ensures CountFree(buf) == |buf|
  {
  }

  /** Replacing one buffer, without dropping a referenced block, changes one block's count. */
  lemma RefsUpdate(buf: seq<Buf>, i: nat, nb: Buf, blocks: seq<Block>)
    requires Coherent(buf, blocks) && i < |buf|
    requires Coherent(buf[i := nb], blocks) && nb.dev == ROOTDEV && nb.blockno < |blocks|
    requires buf[i].refcnt == 0 || Caches(buf[i], ROOTDEV, nb.blockno)
    ensures BlockRefs(buf[i := nb], blocks) == BlockRefs(buf, blocks)[nb.blockno := nb.refcnt]
    ensures BlockRefs(buf, blocks)[nb.blockno] == buf[i].refcnt
  {
    var buf' := buf[i := nb];
    var r, r' := BlockRefs(buf, blocks), BlockRefs(buf', blocks);
    assert buf'[i] == nb;
    forall b | 0 <= b < |blocks| && b != nb.blockno ensures r'[b] == r[b] {
      if j :| 0 <= j < |buf| && j != i && Caches(buf[j], ROOTDEV, b) {
        assert buf'[j] == buf[j];
      }
    }
    if !Caches(buf[i], ROOTDEV, nb.blockno) {
      forall j | 0 <= j < |buf| ensures !Caches(buf[j], ROOTDEV, nb.blockno) {
        if j != i {
          assert buf'[j] == buf[j];
        }
      }
    }
  }

  /** Reading an invalid buffer in from disk changes nothing a reader can see. */
  lemma FillBuffer(buf: seq<Buf>, i: nat, blocks: seq<Block>)
    requires Coherent(buf, blocks) && i < |buf|
    requires buf[i].dev == ROOTDEV && !buf[i].valid && buf[i].refcnt > 0
    ensures var buf' := buf[i := buf[i].(data := blocks[buf[i].blockno], valid := true)];
            && Coherent(buf', blocks)
            && View(buf', blocks) == View(buf, blocks)
            && BlockRefs(buf', blocks) == BlockRefs(buf, blocks)
            && CountFree(buf') == CountFree(buf)
  {
    var nb := buf[i].(data := blocks[buf[i].blockno], valid := true);
    assert !Cached(buf, buf[i].blockno);
    SameView(buf, i, nb, blocks);
    RefsUpdate(buf, i, nb, blocks);
    CountFreeUpdate(buf, i, nb);
  }

  /** A holder overwriting its buffer changes exactly that block. */
  lemma OverwriteBuffer(buf: seq<Buf>, i: nat, data: Block, blocks: seq<Block>)
    requires Coherent(buf, blocks) && i < |buf|
    requires buf[i].valid && buf[i].refcnt > 0
    ensures var buf' := buf[i := buf[i].(data := data)];
            && Coherent(buf', blocks)
            && View(buf', blocks) == View(buf, blocks)[buf[i].blockno := data]
            && BlockRefs(buf', blocks) == BlockRefs(buf, blocks)
            && CountFree(buf') == CountFree(buf)
  {
    var nb := buf[i].(data := data);
    OnlyBlock(buf, blocks, buf[i := nb], blocks, buf[i].blockno);
    RefsUpdate(buf, i, nb, blocks);
    CountFreeUpdate(buf, i, nb);
  }

  /** Everything a client of the cache can observe or crash into. */
  datatype Snap = Snap(disk: seq<Block>, store: seq<Block>, refs: seq<nat>, free: nat, history: seq<seq<Block>>)

  class Cache {
    const disk: Disk
    var buf: seq<Buf>
    var prev: seq<nat>
    var next: seq<nat>
    ghost var order: seq<nat>   // the buffers from head.next to head.prev
    ghost var stamp: seq<nat>   // when each buffer last went to the front of the list
    ghost var clock: nat

    ghost predicate ListValid()
      reads this
    {
      Linked(Links(prev, next), order) && |buf| == NBUF && Stamped(order, stamp, clock)
    }

    ghost predicate Valid()
      reads this, disk
    {
      ListValid() && Coherent(buf, disk.blocks)
    }

    ghost function Store(): seq<Block>
      reads this, disk
      requires Valid()
    {
      View(buf, disk.blocks)
    }

    ghost function Refs(): seq<nat>
      reads this, disk
      requires Valid()
    {
      BlockRefs(buf, disk.blocks)
    }

    ghost function Free(): nat
      reads this
    {
      CountFree(buf)
    }

    ghost function Snapshot(): Snap
      reads this, disk
      requires Valid()
    {
      Snap(disk.blocks, Store(), Refs(), Free(), disk.history)
    }

    /** Among the buffers nobody references, b went to the front of the list longest ago. */
    ghost predicate LeastRecent(b: nat)
      reads this
      requires ListValid()
    {
      b < NBUF && buf[b].refcnt == 0 &&
      forall c :: 0 <= c < NBUF && c != b && buf[c].refcnt == 0 ==> stamp[c] > stamp[b]
    }

    constructor Binit(disk: Disk)
      ensures this.disk == disk
      ensures Valid()
      ensures forall i :: 0 <= i < NBUF ==> buf[i].dev == 0 && buf[i].refcnt == 0
      ensures Store() == disk.blocks
      ensures Refs() == seq(|disk.blocks|, _ => 0) && Free() == NBUF
    {
      this.disk := disk;
      var free := Buf(0, 0, false, 0, Zeroed());
      buf := seq(NBUF, _ => free);
      prev, next := seq(NBUF + 1, _ => HEAD), seq(NBUF + 1, _ => HEAD);
      order, stamp, clock := [], [], 0;
      new;
      ghost var unused := buf;
      for b := 0 to NBUF
        invariant buf == unused
        invariant Linked(Links(prev, next), order)
        invariant |order| == |stamp| == clock == b
        invariant forall i :: 0 <= i < b ==> order[i] == b - 1 - i && stamp[i] == i
      {
        LinkFrontKeepsRing(Links(prev, next), order, b);
        next := next[b := next[HEAD]];
        prev := prev[b := HEAD];
        prev := prev[next[HEAD] := b];
        next := next[HEAD := b];
        order, stamp, clock := [b] + order, stamp + [clock], clock + 1;
      }
      forall b | 0 <= b < NBUF ensures b in order {
        assert order[NBUF - 1 - b] == b;
      }
      AllFree(buf);
    }

    /** Forward scan for a buffer of the block; HEAD if there is none. */
    method FindCached(dev: nat, blockno: nat) returns (b: nat)
      requires ListValid()
      ensures b == HEAD || (b < NBUF && Caches(buf[b], dev, blockno))
      ensures b == HEAD ==> forall i :: 0 <= i < NBUF ==> !Caches(buf[i], dev, blockno)
    {
      b := next[HEAD];
      ghost var k := 0;
      assert Joined(Links(prev, next), Ring(order), 0);
      while b != HEAD && !(buf[b].dev == dev && buf[b].blockno == blockno)
        invariant 0 <= k <= NBUF && b == Ring(order)[k + 1]
        invariant forall j :: 0 <= j < k ==> !Caches(buf[order[j]], dev, blockno)
        decreases NBUF - k
      {
        assert Joined(Links(prev, next), Ring(order), k + 1);
        b := next[b];
        k := k + 1;
      }
      if b == HEAD {
        forall i | 0 <= i < NBUF ensures !Caches(buf[i], dev, blockno) {
          assert i in order;
        }
      }
    }

    /** Backward scan for the least recently used buffer nobody references; HEAD if there is none. */
    method FindFree() returns (b: nat)
      requires ListValid()
      ensures b == HEAD || LeastRecent(b)
      ensures b == HEAD ==> forall i :: 0 <= i < NBUF ==> buf[i].refcnt > 0
    {
      b := prev[HEAD];
      ghost var k := NBUF;
      assert Joined(Links(prev, next), Ring(order), NBUF);
      while b != HEAD && buf[b].refcnt != 0
        invariant 0 <= k <= NBUF && b == Ring(order)[k]
        invariant forall j :: k <= j < NBUF ==> buf[order[j]].refcnt > 0
        decreases k
      {
        assert Joined(Links(prev, next), Ring(order), k - 1);
        b := prev[b];
        k := k - 1;
      }
      forall c | 0 <= c < NBUF && c != b ensures buf[c].refcnt > 0 || (k > 0 && stamp[c] > stamp[b]) {
        assert c in order;
      }
    }

    /** Look for the block; failing that, recycle the least recently used free buffer.
        The precondition is the absence of the "no buffers" panic. */
    method Bget(dev: nat, blockno: nat) returns (b: nat)
      requires Valid()
      requires dev == ROOTDEV && blockno < |disk.blocks|
      requires Refs()[blockno] > 0 || Free() > 0
      modifies this`buf
      ensures Valid() && Store() == old(Store())
      ensures b < NBUF
      ensures if Caches(old(buf)[b], dev, blockno)
              then buf == old(buf)[b := old(buf)[b].(refcnt := old(buf)[b].refcnt + 1)]
              else && (forall i :: 0 <= i < NBUF ==> !Caches(old(buf)[i], dev, blockno))
                   && old(LeastRecent(b))
                   && buf == old(buf)[b := Buf(dev, blockno, false, 1, old(buf)[b].data)]
      ensures Refs() == old(Taken(Refs(), blockno))
      ensures Free() == old(Free()) - if old(Refs())[blockno] == 0 then 1 else 0
    {
      hide Linked, Stamped, View, BlockRefs, CountFree;
      b := FindCached(dev, blockno);
      if b != HEAD {
        buf := buf[b := buf[b].(refcnt := buf[b].refcnt + 1)];
      } else {
        b := FindFree();
        if b == HEAD {
          SomeFree(buf);
          assert false;
        }
        buf := buf[b := Buf(dev, blockno, false, 1, buf[b].data)];
      }
      SameView(old(buf), b, buf[b], disk.blocks);
      RefsUpdate(old(buf), b, buf[b], disk.blocks);
      CountFreeUpdate(old(buf), b, buf[b]);
    }

    method Fill(b: nat)
      requires Valid()
      requires b < NBUF && buf[b].dev == ROOTDEV && !buf[b].valid && buf[b].refcnt > 0
      modifies this`buf
      ensures Valid() && Store() == old(Store()) && Refs() == old(Refs()) && Free() == old(Free())
      ensures buf == old(buf)[b := old(buf)[b].(data := disk.blocks[old(buf)[b].blockno], valid := true)]
    {
      FillBuffer(buf, b, disk.blocks);
      buf := buf[b := buf[b].(data := disk.blocks[buf[b].blockno], valid := true)];
    }

    /** A referenced buffer with the current contents of the block. */
    method Bread(dev: nat, blockno: nat) returns (b: nat)
      requires Valid()
      requires dev == ROOTDEV && blockno < |disk.blocks|
      requires Refs()[blockno] > 0 || Free() > 0
      modifies this`buf
      ensures Valid() && Store() == old(Store())
      ensures b < NBUF
      ensures buf == old(buf)[b := Buf(dev, blockno, true, old(Refs())[blockno] + 1, Store()[blockno])]
      ensures Caches(old(buf)[b], dev, blockno) || old(LeastRecent(b))
      ensures Refs() == old(Taken(Refs(), blockno))
      ensures Free() == old(Free()) - if old(Refs())[blockno] == 0 then 1 else 0
    {
      hide Linked, Stamped, View, BlockRefs, CountFree;
      b := Bget(dev, blockno);
      if !buf[b].valid {
        Fill(b);
      }
    }

    /** The holder of a buffer overwrites its contents. */
    method Modify(b: nat, data: Block)
      requires Valid()
      requires b < NBUF && buf[b].valid && buf[b].refcnt > 0
      modifies this`buf
      ensures Valid() && Store() == old(Store()[buf[b].blockno := data])
      ensures buf == old(buf)[b := old(buf)[b].(data := data)]
      ensures Refs() == old(Refs()) && Free() == old(Free())
    {
      OverwriteBuffer(buf, b, data, disk.blocks);
      buf := buf[b := buf[b].(data := data)];
    }

    method Bwrite(b: nat)
      requires Valid()
      requires b < NBUF && buf[b].valid && buf[b].refcnt > 0
      modifies disk
      ensures Valid() && Store() == old(Store())
      ensures disk.blocks == old(disk.blocks)[buf[b].blockno := buf[b].data]
      ensures disk.history == old(disk.history) + [disk.blocks]
      ensures Refs() == old(Refs())
    {
      disk.Write(buf[b].blockno, buf[b].data);
      OnlyBlock(buf, old(disk.blocks), buf, disk.blocks, buf[b].blockno);
    }

    method MoveToFront(b: nat)
      requires ListValid() && b < NBUF
      modifies this`prev, this`next, this`order, this`stamp, this`clock
      ensures ListValid()
      ensures stamp == old(stamp)[b := old(clock)] && clock == old(clock) + 1
    {
      assert b in order;
      ghost var p :| 0 <= p < NBUF && order[p] == b;
      hide Without, Stamped;
      UnlinkKeepsRing(Links(prev, next), order, p);
      LinkFrontKeepsRing(Unlink(Links(prev, next), b), Without(order, p), b);
      hide Linked;
      MoveStamped(order, stamp, clock, p);
      prev := prev[next[b] := prev[b]];
      next := next[prev[b] := next[b]];
      next := next[b := next[HEAD]];
      prev := prev[b := HEAD];
      prev := prev[next[HEAD] := b];
      next := next[HEAD := b];
      order, stamp, clock := [b] + Without(order, p), stamp[b := clock], clock + 1;
    }

    /** Drop a reference; the last one sends the buffer to the front of the list. */
    method Brelse(b: nat)
      requires Valid()
      requires b < NBUF && buf[b].valid && buf[b].refcnt > 0
      requires buf[b].refcnt == 1 ==> buf[b].data == disk.blocks[buf[b].blockno]
      modifies this
      ensures Valid() && Store() == old(Store())
      ensures buf == old(buf)[b := old(buf)[b].(refcnt := old(buf)[b].refcnt - 1)]
      ensures Refs() == old(Dropped(Refs(), buf[b].blockno))
      ensures Free() == old(Free()) + if buf[b].refcnt == 0 then 1 else 0
      ensures if buf[b].refcnt == 0
              then stamp == old(stamp)[b := old(clock)] && clock == old(clock) + 1
              else order == old(order) && stamp == old(stamp) && clock == old(clock)
    {
      hide Linked, Stamped, View, BlockRefs, CountFree;
      buf := buf[b := buf[b].(refcnt := buf[b].refcnt - 1)];
      SameView(old(buf), b, buf[b], disk.blocks);
      RefsUpdate(old(buf), b, buf[b], disk.blocks);
      CountFreeUpdate(old(buf), b, buf[b]);
      if buf[b].refcnt == 0 {
        MoveToFront(b);
      }
    }

    method Bpin(b: nat)
      requires Valid()
      requires b < NBUF && buf[b].valid && buf[b].refcnt > 0
      modifies this`buf
      ensures Valid() && Store() == old(Store())
      ensures buf == old(buf)[b := old(buf)[b].(refcnt := old(buf)[b].refcnt + 1)]
      ensures Refs() == old(Taken(Refs(), buf[b].blockno)) && Free() == old(Free())
    {
      hide Linked, Stamped, View, BlockRefs, CountFree;
      buf := buf[b := buf[b].(refcnt := buf[b].refcnt + 1)];
      SameView(old(buf), b, buf[b], disk.blocks);
      RefsUpdate(old(buf), b, buf[b], disk.blocks);
      CountFreeUpdate(old(buf), b, buf[b]);
    }

    /** Undo Bpin. The buffer keeps its place in the list even if nobody references it any more. */
    method Bunpin(b: nat)
      requires Valid()
      requires b < NBUF && buf[b].valid && buf[b].refcnt > 0
      requires buf[b].refcnt == 1 ==> buf[b].data == disk.blocks[buf[b].blockno]
      modifies this`buf
      ensures Valid() && Store() == old(Store())
      ensures buf == old(buf)[b := old(buf)[b].(refcnt := old(buf)[b].refcnt - 1)]
      ensures Refs() == old(Dropped(Refs(), buf[b].blockno))
      ensures Free() == old(Free()) + if buf[b].refcnt == 0 then 1 else 0
    {
      hide Linked, Stamped, View, BlockRefs, CountFree;
      buf := buf[b := buf[b].(refcnt := buf[b].refcnt - 1)];
      SameView(old(buf), b, buf[b], disk.blocks);
      RefsUpdate(old(buf), b, buf[b], disk.blocks);
      CountFreeUpdate(old(buf), b, buf[b]);
    }

    /** Two different blocks held at once. */
    method BreadPair(x: nat, y: nat) returns (i: nat, j: nat)
      requires Valid()
      requires x < |disk.blocks| && y < |disk.blocks| && x != y
      requires Free() >= (if Refs()[x] == 0 then 1 else 0) + (if Refs()[y] == 0 then 1 else 0)
      modifies this`buf
      ensures Valid() && Store() == old(Store())
      ensures i < NBUF && j < NBUF && i != j
      ensures buf[i] == Buf(ROOTDEV, x, true, old(Refs())[x] + 1, Store()[x])
      ensures buf[j] == Buf(ROOTDEV, y, true, old(Refs())[y] + 1, Store()[y])
      ensures Refs() == old(Taken(Taken(Refs(), x), y))
      ensures Free() == old(Free() - (if Refs()[x] == 0 then 1 else 0) - (if Refs()[y] == 0 then 1 else 0))
    {
      hide Linked, Stamped, Coherent, View, BlockRefs, CountFree;
      i := Bread(ROOTDEV, x);
      j := Bread(ROOTDEV, y);
    }

    /** Overwrite a held buffer and write it through to the disk. */
    method Overwrite(b: nat, data: Block)
      requires Valid()
      requires b < NBUF && buf[b].valid && buf[b].refcnt > 0
      modifies this`buf, disk
      ensures Valid()
      ensures buf == old(buf)[b := old(buf)[b].(data := data)]
      ensures Refs() == old(Refs()) && Free() == old(Free())
      ensures Store() == old(Store()[buf[b].blockno := data])
      ensures disk.blocks == old(disk.blocks[buf[b].blockno := data])
      ensures disk.history == old(disk.history) + [disk.blocks]
    {
      hide Linked, Stamped, Coherent, View, BlockRefs, CountFree;
      Modify(b, data);
      Bwrite(b);
    }

    method BrelsePair(i: nat, j: nat)
      requires Valid()
      requires i < NBUF && j < NBUF && i != j
      requires buf[i].valid && buf[i].refcnt > 0 && buf[j].valid && buf[j].refcnt > 0
      requires buf[i].refcnt == 1 ==> buf[i].data == disk.blocks[buf[i].blockno]
      requires buf[j].refcnt == 1 ==> buf[j].data == disk.blocks[buf[j].blockno]
      modifies this
      ensures Valid() && Store() == old(Store())
      ensures Refs() == old(Dropped(Dropped(Refs(), buf[i].blockno), buf[j].blockno))
      ensures Free() == old(Free() + (if buf[i].refcnt == 1 then 1 else 0) + (if buf[j].refcnt == 1 then 1 else 0))
    {
      hide Linked, Stamped, View, BlockRefs, CountFree;
      Brelse(i);
      Brelse(j);
    }
  }

  /** Two cache-and-disk states that differ only at one cached block read alike everywhere else. */
  lemma OnlyBlock(buf: seq<Buf>, blocks: seq<Block>, buf': seq<Buf>, blocks': seq<Block>, blockno: nat)
    requires Coherent(buf, blocks) && Coherent(buf', blocks')
    requires |buf| == |buf'| && |blocks| == |blocks'| && blockno < |blocks|
    requires Cached(buf, blockno)
    requires forall i :: 0 <= i < |buf| ==>
               buf'[i].valid == buf[i].valid && buf'[i].blockno == buf[i].blockno &&
               (buf[i].data == buf'[i].data || buf[i].blockno == blockno)
    requires forall b :: 0 <= b < |blocks| && b != blockno ==> blocks'[b] == blocks[b]
    ensures View(buf', blocks') == View(buf, blocks)[blockno := View(buf', blocks')[blockno]]
  {
    var s, s' := View(buf, blocks), View(buf', blocks');
    forall b | 0 <= b < |blocks| && b != blockno ensures s'[b] == s[b] {
      if i :| 0 <= i < |buf| && buf[i].valid && buf[i].blockno == b {
        assert buf'[i].valid && buf'[i].blockno == b;
      } else {
        assert !Cached(buf', b);
      }
    }
  }
}
