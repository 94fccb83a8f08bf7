/** The block allocator and the inode operations as they run: balloc, bfree, bmap, itrunc, readi,
    writei (kernel/fs.c) and the chunk loop of filewrite (kernel/file.c). Blocks are read and
    written through the cache and the log, which act as one flat block store. */
module FileSystem {

  import opened Common
  import opened Blocks
  import opened Bitmap
  import opened Inodes
  import opened Files

  const UINT_MAX: nat := 0xFFFF_FFFF

  /** No block is free. */
  ghost predicate Full(disk: seq<Block>, l: Layout)
    requires l.bmapstart + l.size / BPB < |disk|
  {
    forall b :: 0 <= b < l.size ==> BitOf(disk, l, b)
  }

  /** A block of the free map. */
  ghost predicate MapBlock(l: Layout, b: nat) {
    l.bmapstart <= b && (b - l.bmapstart) * BPB < l.size
  }

  /** Blocks that an operation on blocks lo..hi of file i may give to log_write. */
  ghost predicate MayLog(disk: seq<Block>, ino: Inode, l: Layout, i: nat, lo: nat, hi: nat, b: nat) {
    || MapBlock(l, b)
    || b == l.inodestart + i / IPB
    || (b != 0 && b == ino.addrs[NDIRECT])
    || (b != 0 && exists k :: lo <= k < hi && k < MAXFILE && DataBlock(disk, ino, k) == b)
  }

  lemma MayLogKeeps(v: Vol, w: Vol, l: Layout, i: nat, lo: nat, hi: nat, hi': nat, b: nat)
    requires Keeps(v, w, l, i) && hi <= hi'
    requires MayLog(v.disk, v.inodes[i], l, i, lo, hi, b)
    ensures MayLog(w.disk, w.inodes[i], l, i, lo, hi', b)
  {
    hide WordAt;
    if b != 0 && b == v.inodes[i].addrs[NDIRECT] {
      assert Entry(v.disk, v.inodes[i], NDIRECT) == b;
    } else if k :| b != 0 && lo <= k < hi && k < MAXFILE && DataBlock(v.disk, v.inodes[i], k) == b {
      assert DataBlock(w.disk, w.inodes[i], k) == b;
    }
  }

  lemma MayLogWider(disk: seq<Block>, ino: Inode, l: Layout, i: nat, k: nat, lo: nat, hi: nat, b: nat)
    requires MayLog(disk, ino, l, i, k, k + 1, b) && lo <= k < hi
    ensures MayLog(disk, ino, l, i, lo, hi, b)
  {
    hide Entry, MapBlock;
  }

  lemma MayLogData(disk: seq<Block>, ino: Inode, l: Layout, i: nat, k: nat, lo: nat, hi: nat)
    requires lo <= k < hi && k < MAXFILE && DataBlock(disk, ino, k) != 0
    ensures MayLog(disk, ino, l, i, lo, hi, DataBlock(disk, ino, k))
  {
    hide Entry, MapBlock;
  }

  lemma MayLogSame(v: Vol, w: Vol, l: Layout, i: nat, lo: nat, hi: nat, b: nat)
    requires i < |v.inodes| && i < |w.inodes| && w.inodes[i].addrs == v.inodes[i].addrs
    requires forall n :: 0 <= n < SLOTS ==> Entry(w.disk, w.inodes[i], n) == Entry(v.disk, v.inodes[i], n)
    requires MayLog(v.disk, v.inodes[i], l, i, lo, hi, b)
    ensures MayLog(w.disk, w.inodes[i], l, i, lo, hi, b)
  {
    hide Entry, MapBlock;
    if k :| b != 0 && lo <= k < hi && k < MAXFILE && DataBlock(v.disk, v.inodes[i], k) == b {
      assert DataBlock(w.disk, w.inodes[i], k) == b;
    }
  }

  ghost predicate AllMayLog(logged: set<nat>, v: Vol, l: Layout, i: nat, lo: nat, hi: nat) {
    i < |v.inodes| && forall b :: b in logged ==> MayLog(v.disk, v.inodes[i], l, i, lo, hi, b)
  }

  /** What writing n bytes at off of file i may have given to log_write. */
  ghost predicate Logged(logged: set<nat>, v: Vol, l: Layout, i: nat, off: nat, n: nat) {
    AllMayLog(logged, v, l, i, off / BSIZE, (off + n + BSIZE - 1) / BSIZE)
  }

  lemma AllMayLogBmap(was: set<nat>, v: Vol, logged: set<nat>, w: Vol, l: Layout, i: nat, k: nat, lo: nat, hi: nat)
    requires AllMayLog(was, v, l, i, lo, hi) && Keeps(v, w, l, i) && lo <= k < hi
    requires forall b :: b in logged ==> b in was || MayLog(w.disk, w.inodes[i], l, i, k, k + 1, b)
    ensures AllMayLog(logged, w, l, i, lo, hi)
  {
    hide MayLog, Keeps;
    KeepsSizes(v, w, l, i);
    forall b | b in logged ensures MayLog(w.disk, w.inodes[i], l, i, lo, hi, b) {
      if b in was {
        MayLogKeeps(v, w, l, i, lo, hi, hi, b);
      } else {
        MayLogWider(w.disk, w.inodes[i], l, i, k, lo, hi, b);
      }
    }
  }

  lemma AllMayLogPut(was: set<nat>, v: Vol, logged: set<nat>, w: Vol, l: Layout, i: nat, k: nat, lo: nat, hi: nat)
    requires AllMayLog(was, v, l, i, lo, hi) && lo <= k < hi && k < MAXFILE
    requires i < |v.inodes| && i < |w.inodes| && w.inodes[i].addrs == v.inodes[i].addrs
    requires forall n :: 0 <= n < SLOTS ==> Entry(w.disk, w.inodes[i], n) == Entry(v.disk, v.inodes[i], n)
    requires var b := DataBlock(v.disk, v.inodes[i], k); b != 0 && logged <= was + {b as nat}
    ensures AllMayLog(logged, w, l, i, lo, hi)
  {
    hide MayLog, Entry;
    forall b | b in logged ensures MayLog(w.disk, w.inodes[i], l, i, lo, hi, b) {
      if b in was {
        MayLogSame(v, w, l, i, lo, hi, b);
      } else {
        MayLogData(w.disk, w.inodes[i], l, i, k, lo, hi);
      }
    }
  }

  lemma LoggedNone(v: Vol, l: Layout, i: nat, off: nat, n: nat)
    requires i < |v.inodes|
    ensures Logged({}, v, l, i, off, n)
  {
  }

  lemma LoggedMore(logged: set<nat>, v: Vol, l: Layout, i: nat, off: nat, n: nat, n': nat)
    requires Logged(logged, v, l, i, off, n) && n <= n'
    ensures Logged(logged, v, l, i, off, n')
  {
    hide DataBlock, MapBlock;
    var lo, hi, hi' := off / BSIZE, (off + n + BSIZE - 1) / BSIZE, (off + n' + BSIZE - 1) / BSIZE;
    forall b | b in logged ensures MayLog(v.disk, v.inodes[i], l, i, lo, hi', b) {
      assert MayLog(v.disk, v.inodes[i], l, i, lo, hi, b);
    }
  }

  lemma LoggedFinish(logged: set<nat>, v: Vol, w: Vol, l: Layout, i: nat, size: Word, off: nat, n: nat)
    requires Sound(v, l) && i < |v.inodes| && Finished(v, w, l, i, size) && Logged(logged, v, l, i, off, n)
    ensures Logged(logged + {l.inodestart + i / IPB}, w, l, i, off, n)
  {
    hide Sound, Entry, MapBlock, PutInodeOf;
    LayoutOrder(v, l);
    FinishedSound(v, w, l, i, size);
    var lo, hi := off / BSIZE, (off + n + BSIZE - 1) / BSIZE;
    forall b | b in logged ensures MayLog(w.disk, w.inodes[i], l, i, lo, hi, b) {
      MayLogSame(v, w, l, i, lo, hi, b);
    }
  }

  lemma StopsFinish(v: Vol, w: Vol, l: Layout, i: nat, size: Word, off: nat, tot: nat, spill: nat, have: nat, n: nat)
    requires Sound(v, l) && i < |v.inodes| && Finished(v, w, l, i, size)
    requires Stops(v, l, i, off, tot, spill, have, n)
    ensures Stops(w, l, i, off, tot, spill, have, n)
  {
    hide Sound, Finished, Full, Entry, InBlock;
    MapInside(v, l);
    FullFinish(v, w, l, i, size);
    FinishedSound(v, w, l, i, size);
    MapInside(w, l);
    LayoutOrder(v, l);
    LayoutOrder(w, l);
  }

  lemma FullFinish(v: Vol, w: Vol, l: Layout, i: nat, size: Word)
    requires Sound(v, l) && i < |v.inodes| && Finished(v, w, l, i, size)
    ensures Full(v.disk, l) ==> Full(w.disk, l)
  {
    hide BlockBit, PutInodeOf, RefsOk;
    FinishedSound(v, w, l, i, size);
    if Full(v.disk, l) {
      forall b | 0 <= b < l.size ensures BitOf(w.disk, l, b) {
        assert BitOf(v.disk, l, b);
      }
    }
  }

  lemma OthersSelf(v: Vol, l: Layout, i: nat)
    requires i < |v.inodes|
    ensures Others(v, v, l, i)
  {
  }

  lemma OthersSizes(v: Vol, w: Vol, l: Layout, i: nat)
    requires Others(v, w, l, i)
    ensures |w.disk| == |v.disk| && |w.inodes| == |v.inodes| && i < |w.inodes|
  {
  }

  /** The "freeing free block" panic is out of reach: what an inode refers to is in use. */
  lemma DirectUsed(v: Vol, l: Layout, i: nat, n: nat, b: Word)
    requires Sound(v, l) && i < |v.inodes| && n <= NDIRECT && v.inodes[i].addrs[n] == b != 0
    ensures b < l.size && BitOf(v.disk, l, b)
  {
    hide BitOf, RefsOk;
    OwnedEntry(v, l, i, n);
    OwnedAreData(v, l);
  }

  lemma EntryUsed(v: Vol, l: Layout, i: nat, n: nat, b: Word)
    requires Freeing(v, l, i, n) && i < |v.inodes| && NDIRECT < n < SLOTS && b == Entry(v.disk, v.inodes[i], n) != 0
    ensures LayoutOk(l) && |v.disk| == l.size && b < l.size && BitOf(v.disk, l, b)
  {
    hide BitOf, Entry;
    assert RefOk(v.disk, v.inodes[i], v.own, i, n);
    assert OwnOk(v.disk, v.inodes, v.own, l, b);
  }

  lemma IndirectUsed(v: Vol, l: Layout, i: nat, b: Word)
    requires Freeing(v, l, i, SLOTS) && i < |v.inodes| && b == v.inodes[i].addrs[NDIRECT] != 0
    ensures LayoutOk(l) && |v.disk| == l.size && b < l.size && BitOf(v.disk, l, b)
  {
    hide BitOf;
    assert RefOk(v.disk, v.inodes[i], v.own, i, NDIRECT);
    assert OwnOk(v.disk, v.inodes, v.own, l, b);
  }

  lemma FreeingStart(v: Vol, l: Layout, i: nat)
    requires Sound(v, l)
    ensures Freeing(v, l, i, NDIRECT + 1)
  {
    hide BitsOk, RefOk, OwnOk;
  }

  lemma MarkFrame(disk: seq<Block>, l: Layout, b: nat, c: nat)
    requires LayoutOk(l) && |disk| == l.size && b < l.size && l.data <= c < l.size
    ensures Mark(disk, l.bmapstart, b, false)[c] == disk[c]
  {
    hide SetBlockBit;
  }

  // The size of one transaction.

  ghost function DataSet(disk: seq<Block>, ino: Inode, lo: nat, hi: nat): set<nat>
    decreases hi
  {
    if hi <= lo then {}
    else DataSet(disk, ino, lo, hi - 1) + if hi <= MAXFILE then {DataBlock(disk, ino, hi - 1) as nat} else {}
  }

  lemma {:induction false} DataSetSize(disk: seq<Block>, ino: Inode, lo: nat, hi: nat)
    requires lo <= hi
    ensures |DataSet(disk, ino, lo, hi)| <= hi - lo
    ensures forall k :: lo <= k < hi && k < MAXFILE ==> DataBlock(disk, ino, k) in DataSet(disk, ino, lo, hi)
    decreases hi
  {
    hide DataBlock;
    if lo < hi {
      DataSetSize(disk, ino, lo, hi - 1);
    }
  }

  /** A chunk of filewrite logs at most 7 distinct blocks, when the free map fits in one block. */
  lemma ChunkFits(logged: set<nat>, v: Vol, l: Layout, i: nat, off: nat, n: nat)
    requires Logged(logged, v, l, i, off, n) && n <= 3 * BSIZE && l.size <= BPB
    ensures |logged| <= 7
  {
    hide DataBlock;
    var lo, hi := off / BSIZE, (off + n + BSIZE - 1) / BSIZE;
    var ino := v.inodes[i];
    DataSetSize(v.disk, ino, lo, hi);
    var data := DataSet(v.disk, ino, lo, hi);
    var meta: set<nat> := {l.bmapstart, l.inodestart + i / IPB, ino.addrs[NDIRECT]};
    forall b | b in logged ensures b in meta + data {
      assert MayLog(v.disk, ino, l, i, lo, hi, b);
    }
    SubsetSize(logged, meta + data);
  }

  /** Every block that differs has been given to log_write. */
  ghost predicate Covered(d0: seq<Block>, d1: seq<Block>, logged: set<nat>) {
    |d1| == |d0| && forall b :: 0 <= b < |d0| && d1[b] != d0[b] ==> b in logged
  }

  lemma CoveredTrans(d0: seq<Block>, d1: seq<Block>, a: set<nat>, d2: seq<Block>, b: set<nat>)
    requires Covered(d0, d1, a) && a <= b && Covered(d1, d2, b)
    ensures Covered(d0, d2, b)
  {
  }

  lemma CoveredSelf(disk: seq<Block>, logged: set<nat>)
    ensures Covered(disk, disk, logged)
  {
  }

  lemma CoveredOne(disk: seq<Block>, b: nat, data: Block, logged: set<nat>)
    requires b < |disk| && (b in logged || disk[b] == data)
    ensures Covered(disk, disk[b := data], logged)
  {
  }

  lemma CoveredGiven(disk: seq<Block>, l: Layout, r: nat, logged: set<nat>)
    requires l.bmapstart + r / BPB < |disk| && r < |disk| && l.bmapstart + r / BPB in logged && r in logged
    ensures Covered(disk, Given(disk, l, r), logged)
  {
    hide SetBlockBit;
  }

  lemma CoveredMark(disk: seq<Block>, l: Layout, b: nat, logged: set<nat>)
    requires l.bmapstart + b / BPB < |disk| && l.bmapstart + b / BPB in logged
    ensures Covered(disk, Mark(disk, l.bmapstart, b, false), logged)
  {
    hide SetBlockBit;
  }

  lemma MapBlockOf(l: Layout, b: nat)
    requires b < l.size
    ensures MapBlock(l, l.bmapstart + b / BPB)
  {
  }

  /** Every block that differs has been given to log_write in one of the operations from n on. */
  ghost predicate CoveredBy(d0: seq<Block>, d1: seq<Block>, ops: seq<set<nat>>, n: nat) {
    |d1| == |d0| && forall b :: 0 <= b < |d0| && d1[b] != d0[b] ==> exists k :: n <= k < |ops| && b in ops[k]
  }

  lemma CoveredLost(d0: seq<Block>, d1: seq<Block>, ops: seq<set<nat>>, n: nat, d2: seq<Block>, logged: set<nat>,
                    lost: set<nat>)
    requires CoveredBy(d0, d1, ops + [{}], n) && n <= |ops| && Covered(d1, d2, logged + lost)
    ensures CoveredBy(d0, d2, ops + [logged] + [lost], n)
  {
    var more := ops + [logged] + [lost];
    forall b | 0 <= b < |d0| && d2[b] != d0[b] ensures exists k :: n <= k < |more| && b in more[k] {
      if d1[b] != d0[b] {
        var k :| n <= k <= |ops| && b in (ops + [{}])[k];
        assert b in more[k];
      } else {
        assert b in more[|ops|] || b in more[|ops| + 1];
      }
    }
  }

  lemma CoveredNone(disk: seq<Block>, ops: seq<set<nat>>)
    ensures CoveredBy(disk, disk, ops + [{}], |ops|)
  {
  }

  lemma Wraps(off: Word, n: nat)
    requires n <= UINT_MAX
    ensures (off + n) % (UINT_MAX + 1) < off <==> off + n > UINT_MAX
  {
  }

  lemma SliceJoin(f: seq<Byte>, a: nat, b: nat, c: nat)
    requires a <= b <= c <= |f|
    ensures f[a..b] + f[b..c] == f[a..c]
  {
  }

  /** As many of the count bytes at o as lie in one block. */
  function InBlock(o: nat, count: nat): (m: nat)
    ensures m <= count && o % BSIZE + m <= BSIZE && (count > 0 ==> m > 0)
    ensures m == count || o % BSIZE + m == BSIZE
  {
    if count < BSIZE - o % BSIZE then count else BSIZE - o % BSIZE
  }

  lemma InBlockEnd(o: nat, m: nat)
    requires 0 < m && o % BSIZE + m <= BSIZE
    ensures (o + m + BSIZE - 1) / BSIZE == o / BSIZE + 1
  {
    assert o + m + BSIZE - 1 == (o / BSIZE + 1) * BSIZE + (o % BSIZE + m - 1);
  }

  lemma InBlockNext(o: nat, m: nat)
    requires o % BSIZE + m == BSIZE
    ensures (o + m) % BSIZE == 0 && (o + m) / BSIZE == o / BSIZE + 1
  {
    assert o + m == (o / BSIZE + 1) * BSIZE;
  }

  // A source that cannot be read to its end.

  /** Where writei stops after tot of n bytes when the first have of them can be read: at the end,
      for want of a block, or in the chunk that it cannot copy. The part spill of that chunk that
      can be read is in the block all the same. */
  ghost predicate Stops(w: Vol, l: Layout, i: nat, off: nat, tot: nat, spill: nat, have: nat, n: nat) {
    && tot + spill <= have <= n
    && (tot == 0 || tot == n || (off + tot) % BSIZE == 0)
    && (tot == n ==> spill == 0)
    && (tot < n ==>
          || (spill == 0 && NoBlock(w, l, i, off + tot))
          || (have < tot + InBlock(off + tot, n - tot) && spill == have - tot))
  }

  /** Position o of file i has no block, and no block is free. */
  ghost predicate NoBlock(w: Vol, l: Layout, i: nat, o: nat) {
    && l.bmapstart + l.size / BPB < |w.disk| && Full(w.disk, l)
    && i < |w.inodes| && o < MAXFILE * BSIZE && DataBlock(w.disk, w.inodes[i], o / BSIZE) == 0
  }

  /** How much of a source that is cut short writei reports: whole blocks. */
  lemma StopsWhole(w: Vol, l: Layout, i: nat, off: nat, tot: nat, spill: nat, have: nat, n: nat)
    requires Stops(w, l, i, off, tot, spill, have, n) && !NoBlock(w, l, i, off + tot)
    ensures have == n ==> tot == n && spill == 0
    ensures have < n ==> tot + spill == have
    ensures have < n ==> spill == if (off + have) % BSIZE <= have then (off + have) % BSIZE else have
  {
    hide NoBlock;
    if tot < n {
      var o := off + tot;
      assert off + have == o / BSIZE * BSIZE + (o % BSIZE + spill);
      assert (off + have) % BSIZE == o % BSIZE + spill;
    }
  }

  /** data was put at position o of file i with no call of log_write: a block that the file had
      before is then changed and not logged, a new one was logged when it was allocated. */
  ghost predicate Spilt(v: Vol, disk: seq<Block>, logged: set<nat>, i: nat, o: nat, data: seq<Byte>) {
    i < |v.inodes| && o < MAXFILE * BSIZE && o % BSIZE + |data| <= BSIZE &&
    var b := DataBlock(v.disk, v.inodes[i], o / BSIZE);
    if b == 0 then Covered(v.disk, disk, logged)
    else
      && |disk| == |v.disk| && b < |v.disk| && b !in logged && Covered(v.disk, disk, logged + {b as nat})
      && disk[b] == Splice(v.disk[b], o % BSIZE, data)
  }

  lemma SpiltBlock(v: Vol, disk: seq<Block>, logged: set<nat>, i: nat, o: nat, data: seq<Byte>) returns (lost: set<nat>)
    requires Spilt(v, disk, logged, i, o, data)
    ensures |lost| <= 1 && Covered(v.disk, disk, logged + lost)
  {
    hide Splice, DataBlock;
    var b := DataBlock(v.disk, v.inodes[i], o / BSIZE);
    lost := if b == 0 then {} else {b as nat};
  }

  /** Everything changed is logged if and only if the block is new or the bytes were there before. */
  lemma SpiltIff(v: Vol, disk: seq<Block>, logged: set<nat>, i: nat, o: nat, data: seq<Byte>)
    requires Spilt(v, disk, logged, i, o, data)
    ensures var b := DataBlock(v.disk, v.inodes[i], o / BSIZE);
      b < |v.disk| || b == 0
    ensures var b := DataBlock(v.disk, v.inodes[i], o / BSIZE);
      Covered(v.disk, disk, logged) <==> b == 0 || v.disk[b][o % BSIZE..o % BSIZE + |data|] == data
  {
    hide DataBlock, Splice;
    var b := DataBlock(v.disk, v.inodes[i], o / BSIZE);
    if b != 0 {
      SpliceSame(v.disk[b], o % BSIZE, data);
    }
  }

  lemma SpliceSame(b: Block, o: nat, data: seq<Byte>)
    requires o + |data| <= BSIZE
    ensures Splice(b, o, data) == b <==> b[o..o + |data|] == data
  {
    var r := Splice(b, o, data);
    if b[o..o + |data|] == data {
      forall k | 0 <= k < BSIZE ensures r[k] == b[k] {
        if o <= k < o + |data| {
          assert b[o..o + |data|][k - o] == b[k];
        }
      }
      assert r == b;
    }
    if r == b {
      forall k | 0 <= k < |data| ensures b[o..o + |data|][k] == data[k] {
        assert r[o + k] == data[k];
      }
    }
  }

  lemma SpliceNone(b: Block, o: nat, data: seq<Byte>)
    requires o + |data| <= BSIZE
    ensures data == [] ==> Splice(b, o, data) == b
  {
    SpliceSame(b, o, data);
  }

  /** The block that holds position o is none of those logged for the blocks before it. */
  lemma NotLogged(v: Vol, l: Layout, i: nat, lo: nat, k: nat)
    requires Sound(v, l) && i < |v.inodes| && k < MAXFILE && DataBlock(v.disk, v.inodes[i], k) != 0
    ensures !MayLog(v.disk, v.inodes[i], l, i, lo, k, DataBlock(v.disk, v.inodes[i], k))
  {
    hide Sound, WordAt;
    var b := DataBlock(v.disk, v.inodes[i], k);
    DataEntry(v, l, i, k);
    OwnedEntry(v, l, i, NDIRECT);
    InodeBlocks(v, l, i, b);
    if j :| lo <= j < k && j < MAXFILE && DataBlock(v.disk, v.inodes[i], j) == b {
      DataEntry(v, l, i, j);
    }
  }

  lemma InodeBlocks(v: Vol, l: Layout, i: nat, b: nat)
    requires Sound(v, l) && i < |v.inodes| && l.data <= b
    ensures !MapBlock(l, b) && b != l.inodestart + i / IPB
  {
    hide RefsOk, BitsOk;
  }

  lemma ChunkNotLogged(logged: set<nat>, v: Vol, l: Layout, i: nat, off: nat, tot: nat)
    requires Sound(v, l) && Logged(logged, v, l, i, off, tot) && off + tot < MAXFILE * BSIZE
    requires logged == {} || (off + tot) % BSIZE == 0
    ensures var b := DataBlock(v.disk, v.inodes[i], (off + tot) / BSIZE); b != 0 ==> b !in logged
  {
    hide Sound, DataBlock, MayLog;
    var k := (off + tot) / BSIZE;
    if DataBlock(v.disk, v.inodes[i], k) != 0 {
      NotLogged(v, l, i, off / BSIZE, k);
      if logged != {} {
        assert (off + tot + BSIZE - 1) / BSIZE == k;
      }
    }
  }

  /** From the k-th block on file i has the same blocks. */
  ghost predicate Beyond(v: Vol, w: Vol, i: nat, k: nat) {
    && i < |v.inodes| && i < |w.inodes|
    && forall m :: k <= m < MAXFILE ==> DataBlock(w.disk, w.inodes[i], m) == DataBlock(v.disk, v.inodes[i], m)
  }

  lemma SameAt(v: Vol, w: Vol, i: nat, n: nat, m: nat)
    requires SameBut(v, w, i, n) && m < SLOTS && m != n
    ensures i < |v.inodes| && i < |w.inodes| && Entry(w.disk, w.inodes[i], m) == Entry(v.disk, v.inodes[i], m)
  {
    hide Entry;
  }

  lemma BeyondOne(v: Vol, w: Vol, i: nat, k: nat)
    requires k < MAXFILE && (SameBut(v, w, i, DataSlot(k)) || SameBut(v, w, i, NDIRECT))
    ensures Beyond(v, w, i, k + 1)
  {
    hide Entry;
  }

  lemma BeyondTrans(v: Vol, u: Vol, w: Vol, i: nat, k: nat, k': nat)
    requires Beyond(v, u, i, k) && Beyond(u, w, i, k') && k <= k'
    ensures Beyond(v, w, i, k')
  {
    hide DataBlock;
  }

  lemma BeyondSelf(v: Vol, i: nat, k: nat)
    requires i < |v.inodes|
    ensures Beyond(v, v, i, k)
  {
  }

  lemma BeyondData(v: Vol, w: Vol, i: nat, k: nat)
    requires i < |v.inodes| && i < |w.inodes|
    requires forall n :: 0 <= n < SLOTS ==> Entry(w.disk, w.inodes[i], n) == Entry(v.disk, v.inodes[i], n)
    ensures Beyond(v, w, i, k)
  {
    hide Entry;
  }

  /** The block that the rest of a chunk spills into, seen from the start of the write. */
  lemma SpiltFrom(v: Vol, u: Vol, was: set<nat>, w: Vol, logged: set<nat>, l: Layout, i: nat, off: nat, tot: nat,
                  data: seq<Byte>)
    requires Sound(u, l) && Covered(v.disk, u.disk, was) && Logged(was, u, l, i, off, tot)
    requires was == {} || (off + tot) % BSIZE == 0
    requires var o := off + tot; o < MAXFILE * BSIZE && o % BSIZE + |data| <= BSIZE && Beyond(v, u, i, o / BSIZE)
    requires was <= logged && |w.disk| == |u.disk|
    requires var b := DataBlock(u.disk, u.inodes[i], (off + tot) / BSIZE);
      if b == 0 then Covered(u.disk, w.disk, logged)
      else b < |u.disk| && logged == was && w.disk == u.disk[b := Splice(u.disk[b], (off + tot) % BSIZE, data)]
    ensures Spilt(v, w.disk, logged, i, off + tot, data)
  {
    hide Sound, DataBlock, Logged, Splice;
    ChunkNotLogged(was, u, l, i, off, tot);
    var b := DataBlock(u.disk, u.inodes[i], (off + tot) / BSIZE);
    assert DataBlock(v.disk, v.inodes[i], (off + tot) / BSIZE) == b;
    if b == 0 {
      CoveredTrans(v.disk, u.disk, was, w.disk, logged);
    }
  }

  /** The inode is written and logged at the end. */
  lemma SpiltFinish(v: Vol, u: Vol, w: Vol, logged: set<nat>, l: Layout, i: nat, size: Word, o: nat, data: seq<Byte>)
    requires Sound(v, l) && Sound(u, l) && i < |u.inodes| && Finished(u, w, l, i, size)
    requires Spilt(v, u.disk, logged, i, o, data)
    requires Covered(u.disk, w.disk, logged + {l.inodestart + i / IPB})
    ensures Spilt(v, w.disk, logged + {l.inodestart + i / IPB}, i, o, data)
  {
    hide Sound, DataBlock, Splice, Finished;
    DataEntry(v, l, i, o / BSIZE);
    FinishedSound(u, w, l, i, size);
    var b := DataBlock(v.disk, v.inodes[i], o / BSIZE);
    if b == 0 {
      CoveredTrans(v.disk, u.disk, logged, w.disk, logged + {l.inodestart + i / IPB});
    } else {
      InodeBlocks(v, l, i, b);
      LayoutOrder(v, l);
    }
  }

  // The loop of writei.

  /** After tot bytes of file i were copied and logged. none: the operation had logged nothing before. */
  ghost predicate Progress(v: Vol, w: Vol, logged: set<nat>, l: Layout, i: nat, off: nat, src: seq<Byte>, n: nat,
                           tot: nat, none: bool) {
    && tot <= |src| <= n && i < |v.inodes| && off <= v.inodes[i].size
    && (tot == 0 || tot == n || (off + tot) % BSIZE == 0)
    && Sound(w, l) && Written(v, w, l, i, off, src[..tot]) && Covered(v.disk, w.disk, logged)
    && (none ==> Logged(logged, w, l, i, off, tot) && (tot == 0 ==> logged == {}))
    && (tot < n ==> Beyond(v, w, i, (off + tot) / BSIZE))
  }

  /** When the loop is left after tot bytes. */
  ghost predicate Halted(v: Vol, w: Vol, logged: set<nat>, l: Layout, i: nat, off: nat, src: seq<Byte>, n: nat,
                         tot: nat, spill: nat, none: bool) {
    && tot + spill <= |src| && Sound(w, l) && Written(v, w, l, i, off, src[..tot + spill])
    && Stops(w, l, i, off, tot, spill, |src|, n)
    && (none ==> Logged(logged, w, l, i, off, n))
    && (spill == 0 ==> Covered(v.disk, w.disk, logged))
    && (spill > 0 && none ==> Spilt(v, w.disk, logged, i, off + tot, src[tot..]))
  }

  /** One turn of the loop: the block is found or allocated (mid), and data goes into it. */
  ghost predicate ChunkPut(u: Vol, was: set<nat>, mid: Vol, w: Vol, logged: set<nat>, l: Layout, i: nat, o: nat,
                           data: seq<Byte>, fails: bool, ok: bool) {
    && i < |u.inodes| && i < |mid.inodes| && o < MAXFILE * BSIZE && o % BSIZE + |data| <= BSIZE
    && Sound(mid, l) && Keeps(u, mid, l, i) && Sound(w, l)
    && (!ok || data == [] ==> w == mid)
    && (ok ==>
          var b := DataBlock(mid.disk, mid.inodes[i], o / BSIZE);
          0 < b < |mid.disk| && w == mid.(disk := mid.disk[b := Splice(mid.disk[b], o % BSIZE, data)]))
    && was <= logged && Beyond(u, w, i, o / BSIZE + 1)
    && if ok && fails && DataBlock(u.disk, u.inodes[i], o / BSIZE) != 0 && data != [] then mid == u && logged == was
       else Covered(u.disk, w.disk, logged)
  }

  lemma ChunkGrows(u: Vol, was: set<nat>, mid: Vol, w: Vol, logged: set<nat>, l: Layout, i: nat, o: nat,
                   data: seq<Byte>, fails: bool, ok: bool)
    requires ChunkPut(u, was, mid, w, logged, l, i, o, data, fails, ok)
    ensures was <= logged
  {
  }

  lemma ProgressNone(v: Vol, logged: set<nat>, l: Layout, i: nat, off: nat, src: seq<Byte>, n: nat)
    requires Valid(v, l) && i < |v.inodes| && off <= v.inodes[i].size && |src| <= n
    ensures Progress(v, v, logged, l, i, off, src, n, 0, logged == {})
  {
    hide Sound, Written, Beyond, MayLog, InodeOf;
    WrittenNone(v, l, i, off);
    BeyondSelf(v, i, off / BSIZE);
  }

  lemma ProgressBounds(v: Vol, w: Vol, logged: set<nat>, l: Layout, i: nat, off: nat, src: seq<Byte>, n: nat, tot: nat,
                       none: bool)
    requires Progress(v, w, logged, l, i, off, src, n, tot, none)
    ensures Sound(w, l) && i < |w.inodes|
  {
    hide Sound, Logged, Beyond, Mapped;
  }

  lemma ProgressLogged(v: Vol, w: Vol, logged: set<nat>, l: Layout, i: nat, off: nat, src: seq<Byte>, n: nat, tot: nat,
                       m: nat)
    requires Progress(v, w, logged, l, i, off, src, n, tot, true)
    ensures Logged(logged, w, l, i, off, tot + m)
  {
    hide Sound, Logged, Beyond, Mapped, Written;
    LoggedMore(logged, w, l, i, off, tot, tot + m);
  }

  lemma ProgressEnd(v: Vol, w: Vol, logged: set<nat>, l: Layout, i: nat, off: nat, src: seq<Byte>, n: nat, none: bool)
    requires Progress(v, w, logged, l, i, off, src, n, n, none)
    ensures Halted(v, w, logged, l, i, off, src, n, n, 0, none)
  {
    hide Written, Logged, Beyond, Covered, Sound, NoBlock;
  }

  lemma ChunkDone(v: Vol, u: Vol, was: set<nat>, mid: Vol, w: Vol, logged: set<nat>, l: Layout, i: nat, off: nat,
                  src: seq<Byte>, n: nat, tot: nat, m: nat, none: bool)
    requires Progress(v, u, was, l, i, off, src, n, tot, none) && tot < n && off + n <= MAXFILE * BSIZE
    requires m == InBlock(off + tot, n - tot) && tot + m <= |src|
    requires ChunkPut(u, was, mid, w, logged, l, i, off + tot, src[tot..tot + m], false, true)
    requires none ==> Logged(logged, w, l, i, off, tot + m)
    ensures Progress(v, w, logged, l, i, off, src, n, tot + m, none)
  {
    hide Sound, Written, Logged, Beyond, Covered, Keeps, InBlock, Splice, DataBlock;
    WrittenKeeps(v, u, mid, l, i, off, src[..tot]);
    WrittenMore(v, mid, w, l, i, off, src[..tot], src[tot..tot + m]);
    SliceJoin(src, 0, tot, tot + m);
    assert src[0..tot] == src[..tot] && src[0..tot + m] == src[..tot + m];
    CoveredTrans(v.disk, u.disk, was, w.disk, logged);
    if m < n - tot {
      InBlockNext(off + tot, m);
      BeyondTrans(v, u, w, i, (off + tot) / BSIZE, (off + tot) / BSIZE + 1);
    }
  }

  lemma ChunkStopped(v: Vol, u: Vol, was: set<nat>, mid: Vol, w: Vol, logged: set<nat>, l: Layout, i: nat, off: nat,
                     src: seq<Byte>, n: nat, tot: nat, m: nat, part: nat, ok: bool, none: bool)
    requires Progress(v, u, was, l, i, off, src, n, tot, none) && tot < n && off + n <= MAXFILE * BSIZE
    requires m == InBlock(off + tot, n - tot) && tot + part <= |src| && (part == m || (part < m && tot + part == |src|))
    requires ChunkPut(u, was, mid, w, logged, l, i, off + tot, src[tot..tot + part], part < m, ok)
    requires !ok || part < m
    requires none ==> Logged(logged, w, l, i, off, tot + m)
    requires !ok ==> NoBlock(w, l, i, off + tot)
    ensures Halted(v, w, logged, l, i, off, src, n, tot, if ok then part else 0, none)
  {
    hide Sound, Written, Logged, Beyond, Covered, Keeps, InBlock, Splice, DataBlock, NoBlock, Spilt;
    WrittenKeeps(v, u, mid, l, i, off, src[..tot]);
    if none {
      LoggedMore(logged, w, l, i, off, tot + m, n);
    }
    if ok && part > 0 {
      WrittenMore(v, mid, w, l, i, off, src[..tot], src[tot..tot + part]);
      SliceJoin(src, 0, tot, tot + part);
      assert src[0..tot] == src[..tot] && src[0..tot + part] == src[..tot + part] && src[tot..tot + part] == src[tot..];
      if none {
        ChunkSpilt(v, u, was, mid, w, logged, l, i, off, src, n, tot);
      }
    } else {
      CoveredTrans(v.disk, u.disk, was, w.disk, logged);
    }
  }

  lemma ChunkSpilt(v: Vol, u: Vol, was: set<nat>, mid: Vol, w: Vol, logged: set<nat>, l: Layout, i: nat, off: nat,
                   src: seq<Byte>, n: nat, tot: nat)
    requires Progress(v, u, was, l, i, off, src, n, tot, true) && tot < n && tot < |src| && off + n <= MAXFILE * BSIZE
    requires ChunkPut(u, was, mid, w, logged, l, i, off + tot, src[tot..], true, true)
    ensures Spilt(v, w.disk, logged, i, off + tot, src[tot..])
  {
    hide Sound, Written, Logged, Beyond, Keeps, Splice, DataBlock, Spilt, Covered;
    KeepsSizes(u, mid, l, i);
    ProgressBounds(v, u, was, l, i, off, src, n, tot, true);
    SpiltFrom(v, u, was, w, logged, l, i, off, tot, src[tot..]);
  }

  lemma HaltedSizes(v: Vol, u: Vol, was: set<nat>, l: Layout, i: nat, off: nat, src: seq<Byte>, n: nat, tot: nat,
                    spill: nat, none: bool)
    requires Halted(v, u, was, l, i, off, src, n, tot, spill, none)
    ensures LayoutOk(l) && |u.disk| == l.size && |u.inodes| == l.ninodes && tot + spill <= |src| && tot <= n
    ensures |v.inodes| == |u.inodes| && i < |u.inodes| && u.inodes[i].size == v.inodes[i].size
  {
    hide Sound, Written, Logged, Spilt, Covered, InBlock, NoBlock;
    LayoutOrder(u, l);
    WrittenSizes(v, u, l, i, off, src[..tot + spill]);
  }

  /** The end of writei: the size is set and the inode written. */
  lemma WriteiEnd(v: Vol, u: Vol, was: set<nat>, w: Vol, l: Layout, i: nat, off: nat, src: seq<Byte>, n: nat, tot: nat,
                  spill: nat, size: Word, none: bool)
    requires Valid(v, l) && i < |v.inodes| && off <= v.inodes[i].size
    requires Halted(v, u, was, l, i, off, src, n, tot, spill, none)
    requires LayoutOk(l) && |u.disk| == l.size && i < l.ninodes == |u.inodes| && Finished(u, w, l, i, size)
    requires size == Max(v.inodes[i].size, off + tot) && Covered(u.disk, w.disk, was + {l.inodestart + i / IPB})
    ensures Valid(w, l) && off <= |File(v.disk, l, i)| && Stops(w, l, i, off, tot, spill, |src|, n)
    ensures tot + spill <= |src| && File(w.disk, l, i) == Covering(File(v.disk, l, i), off, src[..tot + spill], tot)
    ensures forall j :: 0 <= j < l.ninodes && j != i ==> File(w.disk, l, j) == File(v.disk, l, j)
    ensures none ==> Logged(was + {l.inodestart + i / IPB}, w, l, i, off, n)
    ensures spill == 0 ==> Covered(v.disk, w.disk, was + {l.inodestart + i / IPB})
    ensures spill > 0 && none ==> Spilt(v, w.disk, was + {l.inodestart + i / IPB}, i, off + tot, src[tot..])
  {
    hide Sound, Written, Logged, Spilt, Covered, Finished, Stops, File, Overlay, Valid;
    ValidSound(v, l);
    WriteFinish(v, u, w, l, i, off, src[..tot + spill], size);
    StopsFinish(u, w, l, i, size, off, tot, spill, |src|, n);
    if none {
      LoggedFinish(was, u, w, l, i, size, off, n);
    }
    if spill == 0 {
      CoveredTrans(v.disk, u.disk, was, w.disk, was + {l.inodestart + i / IPB});
    } else if none {
      SpiltFinish(v, u, w, was, l, i, size, off + tot, src[tot..]);
    }
  }

  lemma ValidSound(v: Vol, l: Layout)
    requires Valid(v, l)
    ensures Sound(v, l)
  {
    hide Sound, Stored;
  }

  lemma MapInside(v: Vol, l: Layout)
    requires Sound(v, l)
    ensures l.bmapstart + l.size / BPB < |v.disk|
  {
    hide RefsOk, BitsOk;
  }

  class Fs {
    const l: Layout
    var disk: seq<Block>
    var inodes: seq<Inode>
    ghost var own: Owners
    /** The blocks given to log_write in the current operation, and in each of those that have ended. */
    ghost var logged: set<nat>
    ghost var ops: seq<set<nat>>

    ghost function V(): Vol
      reads this
    {
      Vol(disk, inodes, own)
    }

    /** begin_op() and end_op(). */
    ghost method BeginOp()
      modifies `logged
      ensures logged == {}
    {
      logged := {};
    }

    ghost method EndOp()
      modifies `ops
      ensures ops == old(ops) + [logged]
    {
      ops := ops + [logged];
    }

    method LogWrite(b: nat, data: Block)
      requires b < |disk|
      modifies `disk, `logged
      ensures disk == old(disk)[b := data] && logged == old(logged) + {b}
    {
      disk := disk[b := data];
      logged := logged + {b};
    }

    /** Allocates the first free block, zeroed. */
    method Balloc() returns (r: Word)
      requires Sound(V(), l)
      modifies `disk, `logged
      ensures r == 0 ==> disk == old(disk) && logged == old(logged) && Full(disk, l)
      ensures r != 0 ==> r < l.size && !BitOf(old(disk), l, r) && disk == Given(old(disk), l, r)
      ensures r != 0 ==> forall b :: 0 <= b < r ==> BitOf(old(disk), l, b)
      ensures forall b :: b in logged ==> b in old(logged) || MapBlock(l, b) || b == r
      ensures Covered(old(disk), disk, logged) && old(logged) <= logged && (r != 0 ==> r in logged)
    {
      hide RefsOk, BlockBit, SetBlockBit, Zeroed;
      var t := 0;
      while t * BPB < l.size
        invariant disk == old(disk) && logged == old(logged)
        invariant forall c :: 0 <= c < t * BPB && c < l.size ==> BitOf(disk, l, c)
      {
        assert l.bmapstart + t * BPB / BPB < |disk|;
        var bp := disk[l.bmapstart + t];
        var bi := 0;
        while bi < BPB && t * BPB + bi < l.size
          invariant 0 <= bi <= BPB
          invariant disk == old(disk) && logged == old(logged)
          invariant forall c :: 0 <= c < t * BPB + bi && c < l.size ==> BitOf(disk, l, c)
        {
          var b := t * BPB + bi;
          assert b / BPB == t && b % BPB == bi;
          assert BitOf(disk, l, b) == BlockBit(bp, bi);
          if !BlockBit(bp, bi) {
            LogWrite(l.bmapstart + t, SetBlockBit(bp, bi, true));
            LogWrite(b, Zeroed());
            assert BitOf(old(disk), l, 0);
            CoveredGiven(old(disk), l, b, logged);
            return b;
          }
          bi := bi + 1;
        }
        t := t + 1;
      }
      return 0;
    }

    /** Frees block b, which must be in use: the source panics otherwise. */
    method Bfree(b: nat)
      requires LayoutOk(l) && |disk| == l.size && b < l.size && BitOf(disk, l, b)
      modifies `disk, `logged
      ensures disk == Mark(old(disk), l.bmapstart, b, false) && logged == old(logged) + {l.bmapstart + b / BPB}
    {
      var bp := disk[l.bmapstart + b / BPB];
      LogWrite(l.bmapstart + b / BPB, SetBlockBit(bp, b % BPB, false));
    }

    /** Allocates a block for the empty slot n <= NDIRECT of inode i. */
    method Fill(i: nat, n: nat) returns (r: Word)
      requires Sound(V(), l) && i < |inodes| && n <= NDIRECT && inodes[i].addrs[n] == 0
      modifies this
      ensures Sound(V(), l) && Keeps(old(V()), V(), l, i) && inodes[i].addrs[n] == r
      ensures r == 0 ==> Full(disk, l) && logged == old(logged)
      ensures forall b :: b in logged ==> b in old(logged) || MapBlock(l, b) || b == r
      ensures Covered(old(disk), disk, logged) && old(logged) <= logged && ops == old(ops)
      ensures r != 0 ==> r in logged
      ensures SameBut(old(V()), V(), i, n)
    {
      hide Sound, BitOf, Full, Given, Mark, Entry, MapBlock;
      LayoutOrder(V(), l);
      r := Balloc();
      if r != 0 {
        inodes := inodes[i := inodes[i].(addrs := inodes[i].addrs[n := r])];
        own := own[r := (i, n)];
        GiveBlock(old(V()), l, i, n, r, V());
      }
    }

    /** Allocates a block for the empty entry n of inode i's indirect block. */
    method FillEntry(i: nat, n: nat) returns (r: Word)
      requires Sound(V(), l) && i < |inodes| && NDIRECT < n < SLOTS
      requires inodes[i].addrs[NDIRECT] != 0 && Entry(disk, inodes[i], n) == 0
      modifies `disk, `own, `logged
      ensures Sound(V(), l) && Keeps(old(V()), V(), l, i) && Entry(disk, inodes[i], n) == r
      ensures r == 0 ==> Full(disk, l) && logged == old(logged)
      ensures forall b :: b in logged ==> b in old(logged) || MapBlock(l, b) || b == r || b == inodes[i].addrs[NDIRECT]
      ensures Covered(old(disk), disk, logged) && old(logged) <= logged && (r != 0 ==> r in logged)
      ensures SameBut(old(V()), V(), i, n)
    {
      hide Sound, BitOf, Full, Given, Mark, WordAt, SetWord, MapBlock;
      LayoutOrder(V(), l);
      OwnedEntry(V(), l, i, NDIRECT);
      OwnedAreData(V(), l);
      var b := inodes[i].addrs[NDIRECT];
      var bp := disk[b];
      r := Balloc();
      if r != 0 {
        LogWrite(b, SetWord(bp, n - NDIRECT - 1, r));
        own := own[r := (i, n)];
        assert EntryGiven(old(V()), l, i, n, r, V());
        GiveEntry(old(V()), l, i, n, r, V());
      }
    }

    /** The block of file i that holds its bn-th kilobyte, allocated if there is none; 0 if it
        cannot be. */
    method Bmap(i: nat, bn: nat) returns (r: Word)
      requires Sound(V(), l) && i < |inodes| && bn < MAXFILE
      modifies this
      ensures Sound(V(), l) && Keeps(old(V()), V(), l, i)
      ensures r == DataBlock(disk, inodes[i], bn)
      ensures r == 0 ==> Full(disk, l)
      ensures old(DataBlock(disk, inodes[i], bn)) != 0 ==> V() == old(V()) && logged == old(logged)
      ensures old(DataBlock(disk, inodes[i], bn)) == 0 && r != 0 ==> r in logged
      ensures Beyond(old(V()), V(), i, bn + 1)
      ensures forall b :: b in logged ==> b in old(logged) || MayLog(disk, inodes[i], l, i, bn, bn + 1, b)
      ensures Covered(old(disk), disk, logged) && old(logged) <= logged && ops == old(ops)
    {
      hide Sound, Full, WordAt, MapBlock, Keeps, SameBut, Beyond;
      LayoutOrder(V(), l);
      KeepsSelf(V(), l, i);
      BeyondSelf(V(), i, bn + 1);
      if bn < NDIRECT {
        r := inodes[i].addrs[bn];
        if r == 0 {
          r := Fill(i, bn);
          KeepsSizes(old(V()), V(), l, i);
          BeyondOne(old(V()), V(), i, bn);
        }
        return;
      }
      var n := bn + 1;
      if inodes[i].addrs[NDIRECT] == 0 {
        r := Fill(i, NDIRECT);
        KeepsSizes(old(V()), V(), l, i);
        BeyondOne(old(V()), V(), i, bn);
        SameAt(old(V()), V(), i, NDIRECT, n);
        if r == 0 {
          return;
        }
      }
      OwnedEntry(V(), l, i, NDIRECT);
      OwnedAreData(V(), l);
      var mid := V();
      r := WordAt(disk[inodes[i].addrs[NDIRECT]], n - NDIRECT - 1);
      if r == 0 {
        ghost var was := logged;
        r := FillEntry(i, n);
        KeepsTrans(old(V()), mid, V(), l, i);
        BeyondOne(mid, V(), i, bn);
        BeyondTrans(old(V()), mid, V(), i, bn + 1, bn + 1);
        CoveredTrans(old(disk), mid.disk, was, disk, logged);
      }
    }

    /** Writes inode i to its block. */
    method Iupdate(i: nat)
      requires LayoutOk(l) && |disk| == l.size && i < l.ninodes == |inodes|
      modifies `disk, `logged
      ensures disk == PutInodeOf(old(disk), l, i, inodes[i])
      ensures logged == old(logged) + {l.inodestart + i / IPB} && Covered(old(disk), disk, logged)
    {
      var bp := disk[l.inodestart + i / IPB];
      LogWrite(l.inodestart + i / IPB, PutInode(bp, i % IPB, inodes[i]));
    }

    /** Reads up to n bytes of file i from off on. Nothing is allocated. */
    method Readi(i: nat, off: Word, n: Word) returns (data: seq<Byte>)
      requires Valid(V(), l) && i < l.ninodes
      modifies this
      ensures V() == old(V()) && logged == old(logged) && ops == old(ops)
      ensures var f := File(disk, l, i);
        data == if off > |f| || off + n > UINT_MAX then [] else f[off..if off + n > |f| then |f| else off + n]
    {
      hide Sound, Keeps, Full, MayLog, InodeOf, Mapped, ByteAt, Bytes, Covered, InBlock, File, DataBlock;
      LayoutOrder(V(), l);
      Wraps(off, n);
      ghost var f := File(disk, l, i);
      StoredFile(V(), l, i);
      var size := inodes[i].size;
      if off > size || (off + n) % (UINT_MAX + 1) < off {
        return [];
      }
      var count := if off + n > size then size - off else n;
      data := [];
      while |data| < count
        invariant |data| <= count && data == f[off..off + |data|]
        invariant V() == old(V()) && logged == old(logged) && ops == old(ops)
      {
        var o := off + |data|;
        var m := InBlock(o, count - |data|);
        FileBlock(V(), l, i, o, m);
        var addr := Bmap(i, o / BSIZE);
        if addr == 0 {
          break;
        }
        SliceJoin(f, off, o, o + m);
        data := data + disk[addr][o % BSIZE..o % BSIZE + m];
      }
    }

    /** One turn of writei's loop: data goes to position o of file i, if there is room. When fails,
        data is the part of the chunk that could be copied. */
    method PutBytes(i: nat, o: nat, data: seq<Byte>, fails: bool, ghost lo: nat, ghost hi: nat)
      returns (ok: bool, ghost mid: Vol)
      requires Sound(V(), l) && i < |inodes| && o < MAXFILE * BSIZE && o % BSIZE + |data| <= BSIZE
      requires lo <= o / BSIZE < hi
      modifies this
      ensures ChunkPut(old(V()), old(logged), mid, V(), logged, l, i, o, data, fails, ok)
      ensures AllMayLog(old(logged), old(V()), l, i, lo, hi) ==> AllMayLog(logged, V(), l, i, lo, hi)
      ensures !ok ==> NoBlock(V(), l, i, o)
      ensures ops == old(ops)
    {
      hide Sound, Keeps, Full, MayLog, Splice, DataBlock, Beyond, AllMayLog, Covered;
      ghost var v, was := V(), logged;
      var addr := Bmap(i, o / BSIZE);
      mid := V();
      KeepsSizes(v, mid, l, i);
      MapInside(mid, l);
      if AllMayLog(was, v, l, i, lo, hi) {
        AllMayLogBmap(was, v, logged, mid, l, i, o / BSIZE, lo, hi);
      }
      ok := addr != 0;
      if ok {
        DataEntry(mid, l, i, o / BSIZE);
        LayoutOrder(mid, l);
        WriteData(mid, mid.(disk := disk[addr := Splice(disk[addr], o % BSIZE, data)]), l, i, o, data);
        was := logged;
        disk := disk[addr := Splice(disk[addr], o % BSIZE, data)];
        if !fails {
          logged := logged + {addr as nat};
        }
        BeyondData(mid, V(), i, o / BSIZE + 1);
        BeyondTrans(v, mid, V(), i, o / BSIZE + 1, o / BSIZE + 1);
        SpliceNone(mid.disk[addr], o % BSIZE, data);
        if addr in logged || data == [] {
          CoveredOne(mid.disk, addr, disk[addr], logged);
          CoveredTrans(v.disk, mid.disk, was, disk, logged);
        }
        if AllMayLog(was, mid, l, i, lo, hi) {
          AllMayLogPut(was, mid, logged, V(), l, i, o / BSIZE, lo, hi);
        }
      }
    }

    /** writei's loop over n bytes, of which the first |src| can be read. */
    method WriteBytes(i: nat, src: seq<Byte>, n: nat, off: Word) returns (tot: nat, ghost spill: nat)
      requires Valid(V(), l) && i < l.ninodes && off <= inodes[i].size && |src| <= n && off + n <= MAXFILE * BSIZE
      modifies this
      ensures Halted(old(V()), V(), logged, l, i, off, src, n, tot, spill, old(logged) == {})
      ensures old(logged) <= logged && ops == old(ops)
    {
      hide Sound, Full, AllMayLog, Progress, Halted, ChunkPut, InodeOf, InBlock;
      LayoutOrder(V(), l);
      ghost var v, none := V(), logged == {};
      tot, spill := 0, 0;
      ProgressNone(v, logged, l, i, off, src, n);
      while tot < n
        invariant 0 <= tot <= n && tot <= |src| && spill == 0
        invariant Progress(v, V(), logged, l, i, off, src, n, tot, none)
        invariant old(logged) <= logged && ops == old(ops)
      {
        var m := InBlock(off + tot, n - tot);
        var part := if tot + m <= |src| then m else |src| - tot;
        ghost var u, was := V(), logged;
        ProgressBounds(v, u, was, l, i, off, src, n, tot, none);
        InBlockEnd(off + tot, m);
        if none {
          ProgressLogged(v, u, was, l, i, off, src, n, tot, m);
        }
        var ok, mid := PutBytes(i, off + tot, src[tot..tot + part], part < m, off / BSIZE,
          (off + tot + m + BSIZE - 1) / BSIZE);
        ChunkGrows(u, was, mid, V(), logged, l, i, off + tot, src[tot..tot + part], part < m, ok);
        if !ok || part < m {
          spill := if ok then part else 0;
          ChunkStopped(v, u, was, mid, V(), logged, l, i, off, src, n, tot, m, part, ok, none);
          return;
        }
        ChunkDone(v, u, was, mid, V(), logged, l, i, off, src, n, tot, m, none);
        tot := tot + m;
      }
      ProgressEnd(v, V(), logged, l, i, off, src, n, none);
    }

    /** Writes n bytes to file i at off, of which the first |src| can be read; r is the number of
        bytes reported as written, or -1 if off lies behind the end of the file or the result would
        be too large. */
    method Writei(i: nat, src: seq<Byte>, n: Word, off: Word) returns (r: int, ghost spill: nat)
      requires Valid(V(), l) && i < l.ninodes && |src| <= n
      modifies this
      ensures Valid(V(), l)
      ensures r == -1 <==> off > |old(File(disk, l, i))| || off + n > UINT_MAX || off + n > MAXFILE * BSIZE
      ensures r == -1 ==> V() == old(V()) && logged == old(logged) && spill == 0
      ensures r != -1 ==> 0 <= r && r + spill <= |src| && off <= |old(File(disk, l, i))|
      ensures r != -1 ==> File(disk, l, i) == Covering(old(File(disk, l, i)), off, src[..r + spill], r)
      ensures r != -1 ==> Stops(V(), l, i, off, r, spill, |src|, n)
      ensures forall j :: 0 <= j < l.ninodes && j != i ==> File(disk, l, j) == old(File(disk, l, j))
      ensures old(logged) == {} ==> Logged(logged, V(), l, i, off, n)
      ensures old(logged) <= logged && ops == old(ops)
      ensures spill == 0 ==> Covered(old(disk), disk, logged)
      ensures spill > 0 && old(logged) == {} ==> Spilt(old(V()), disk, logged, i, off + r, src[r..])
    {
      hide Sound, Full, MayLog, InodeOf, Bytes, PutInodeOf, Mapped, Spilt, Covered, Stops, Logged, Halted, Covering,
        Valid, File;
      Wraps(off, n);
      StoredFile(V(), l, i);
      CoveredSelf(disk, logged);
      LoggedNone(V(), l, i, off, n);
      spill := 0;
      if off > inodes[i].size || (off + n) % (UINT_MAX + 1) < off {
        return -1, 0;
      }
      if off + n > MAXFILE * BSIZE {
        return -1, 0;
      }
      ghost var v, none := V(), logged == {};
      var tot;
      tot, spill := WriteBytes(i, src, n, off);
      ghost var u, was := V(), logged;
      HaltedSizes(v, u, was, l, i, off, src, n, tot, spill, none);
      var size: Word := if off + tot > inodes[i].size then off + tot else inodes[i].size;
      inodes := inodes[i := inodes[i].(size := size)];
      Iupdate(i);
      WriteiEnd(v, u, was, V(), l, i, off, src, n, tot, spill, size, none);
      return tot, spill;
    }

    /** The first loop of itrunc: the direct blocks. */
    method FreeDirect(i: nat)
      requires Sound(V(), l) && i < |inodes|
      modifies this
      ensures Sound(V(), l) && Others(old(V()), V(), l, i)
      ensures forall n :: 0 <= n < NDIRECT ==> inodes[i].addrs[n] == 0
      ensures (forall b :: b in logged ==> b in old(logged) || MapBlock(l, b)) && Covered(old(disk), disk, logged)
      ensures old(logged) <= logged
    {
      hide Sound, Others, BitOf, Mark;
      ghost var v := V();
      OthersSelf(v, l, i);
      var n := 0;
      while n < NDIRECT
        invariant n <= NDIRECT && i < |inodes|
        invariant Sound(V(), l) && Others(v, V(), l, i)
        invariant forall m :: 0 <= m < n ==> inodes[i].addrs[m] == 0
        invariant (forall b :: b in logged ==> b in old(logged) || MapBlock(l, b)) && Covered(v.disk, disk, logged)
        invariant old(logged) <= logged
      {
        LayoutOrder(V(), l);
        var b := inodes[i].addrs[n];
        if b != 0 {
          ghost var u := V();
          DirectUsed(u, l, i, n, b);
          MapBlockOf(l, b);
          Bfree(b);
          CoveredMark(u.disk, l, b, logged);
          inodes := inodes[i := inodes[i].(addrs := inodes[i].addrs[n := 0])];
          own := own - {b as nat};
          FreeBlock(u, l, i, n, b, V());
          OthersTrans(v, u, V(), l, i);
        }
        n := n + 1;
      }
    }

    /** The second loop of itrunc: the entries of the indirect block, and the block itself. */
    method FreeIndirectBlocks(i: nat)
      requires Sound(V(), l) && i < |inodes| && inodes[i].addrs[NDIRECT] != 0
      modifies this
      ensures Sound(V(), l) && Others(old(V()), V(), l, i)
      ensures |inodes| == |old(inodes)| && inodes[i].addrs == old(inodes)[i].addrs[NDIRECT := 0]
      ensures (forall b :: b in logged ==> b in old(logged) || MapBlock(l, b)) && Covered(old(disk), disk, logged)
      ensures old(logged) <= logged
    {
      hide Sound, Others, BitOf, Mark, Freeing, WordAt;
      ghost var v := V();
      OthersSelf(v, l, i);
      FreeingStart(v, l, i);
      OwnedEntry(v, l, i, NDIRECT);
      OwnedAreData(v, l);
      LayoutOrder(v, l);
      var ind := inodes[i].addrs[NDIRECT];
      var a := disk[ind];
      var j := 0;
      while j < NINDIRECT
        invariant j <= NINDIRECT && |inodes| == |v.inodes| && inodes == v.inodes && |disk| == l.size
        invariant Freeing(V(), l, i, NDIRECT + 1 + j) && Others(v, V(), l, i)
        invariant disk[ind] == a
        invariant (forall b :: b in logged ==> b in old(logged) || MapBlock(l, b)) && Covered(v.disk, disk, logged)
        invariant old(logged) <= logged
      {
        ghost var u := V();
        var b := WordAt(a, j);
        if b != 0 {
          EntryUsed(u, l, i, NDIRECT + 1 + j, b);
          MapBlockOf(l, b);
          Bfree(b);
          CoveredMark(u.disk, l, b, logged);
          own := own - {b as nat};
          MarkFrame(u.disk, l, b, ind);
        }
        FreeEntry(u, l, i, NDIRECT + 1 + j, b, V());
        OthersTrans(v, u, V(), l, i);
        j := j + 1;
      }
      ghost var u := V();
      IndirectUsed(u, l, i, ind);
      MapBlockOf(l, ind);
      Bfree(ind);
      CoveredMark(u.disk, l, ind, logged);
      inodes := inodes[i := inodes[i].(addrs := inodes[i].addrs[NDIRECT := 0])];
      own := own - {ind as nat};
      FreeIndirect(u, l, i, ind, V());
      OthersTrans(v, u, V(), l, i);
    }

    /** Discards the contents of file i and frees exactly its blocks. */
    method Itrunc(i: nat)
      requires Valid(V(), l) && i < l.ninodes
      modifies this
      ensures Valid(V(), l) && File(disk, l, i) == []
      ensures forall b :: b in own <==> b in old(own) && old(own)[b].0 != i
      ensures forall b :: b in logged ==> b in old(logged) || MapBlock(l, b) || b == l.inodestart + i / IPB
      ensures Covered(old(disk), disk, logged) && old(logged) <= logged
      ensures forall j :: 0 <= j < l.ninodes && j != i ==> File(disk, l, j) == old(File(disk, l, j))
    {
      hide Sound, Others, InodeOf, PutInodeOf, Bytes;
      ghost var v := V();
      LayoutOrder(v, l);
      FreeDirect(i);
      ghost var u := V();
      OthersSizes(v, u, l, i);
      if inodes[i].addrs[NDIRECT] != 0 {
        ghost var was := logged;
        FreeIndirectBlocks(i);
        OthersTrans(v, u, V(), l, i);
        CoveredTrans(v.disk, u.disk, was, disk, logged);
      }
      u := V();
      ghost var was := logged;
      OthersSizes(v, u, l, i);
      inodes := inodes[i := inodes[i].(size := 0)];
      Iupdate(i);
      CoveredTrans(v.disk, u.disk, was, disk, logged);
      TruncFinish(v, u, V(), l, i);
    }

    /** One transaction of filewrite. */
    method WriteOp(i: nat, src: seq<Byte>, n: Word, off: Word) returns (r: int, ghost spill: nat, ghost lost: set<nat>)
      requires Valid(V(), l) && i < l.ninodes && |src| <= n <= 3 * BSIZE
      modifies this
      ensures Valid(V(), l) && -1 <= r <= n && (spill > 0 ==> 0 <= r && r + spill == |src| < n)
      ensures r == -1 ==> File(disk, l, i) == old(File(disk, l, i)) && spill == 0
      ensures r != -1 ==> r + spill <= |src| && off <= |old(File(disk, l, i))| && off + n <= UINT_MAX
      ensures r != -1 ==> File(disk, l, i) == Covering(old(File(disk, l, i)), off, src[..r + spill], r)
      ensures forall j :: 0 <= j < l.ninodes && j != i ==> File(disk, l, j) == old(File(disk, l, j))
      ensures |lost| <= 1 && (spill == 0 ==> lost == {})
      ensures ops == old(ops) + [logged] && Covered(old(disk), disk, logged + lost)
      ensures l.size <= BPB ==> |logged| <= 7
    {
      hide Valid, File, Covering, Covered, Spilt, Logged, NoBlock, InBlock;
      lost := {};
      BeginOp();
      ghost var v := V();
      r, spill := Writei(i, src, n, off);
      if l.size <= BPB {
        ChunkFits(logged, V(), l, i, off, n);
      }
      if spill > 0 {
        lost := SpiltBlock(v, disk, logged, i, off + r, src[r..]);
      } else {
        assert logged + lost == logged;
      }
      EndOp();
    }

    /** Writes n bytes, of which the first |src| can be read, at off through as many transactions as
        it takes. A negative n is an error. */
    method Filewrite(i: nat, src: seq<Byte>, n: int, off: Word)
      returns (ret: int, off': Word, ghost done: nat, ghost spill: nat, ghost lost: set<nat>)
      requires Valid(V(), l) && i < l.ninodes && n <= 0x7FFF_FFFF && |src| <= if n < 0 then 0 else n
      modifies this
      ensures Valid(V(), l)
      ensures off' == off + done && ret == if done == n then n else -1
      ensures Put(old(File(disk, l, i)), File(disk, l, i), off, src, done, spill)
      ensures spill > 0 ==> done + spill == |src| < n
      ensures forall j :: 0 <= j < l.ninodes && j != i ==> File(disk, l, j) == old(File(disk, l, j))
      ensures |lost| <= 1 && (spill == 0 ==> lost == {})
      ensures old(ops) <= ops && CoveredBy(old(disk), disk, ops + [lost], |old(ops)|)
      ensures l.size <= BPB ==> forall k :: |old(ops)| <= k < |ops| ==> |ops[k]| <= 7 < MAXOPBLOCKS
    {
      hide File, Valid, Covering, Put, Covered, CoveredBy;
      PutNone(File(disk, l, i), off, src);
      ghost var f := File(disk, l, i);
      var max := (MAXOPBLOCKS - 1 - 1 - 2) / 2 * BSIZE;
      var k := 0;
      off', done, spill, lost := off, 0, 0, {};
      CoveredNone(disk, ops);
      while k < n
        invariant 0 <= k && (k <= n || n < 0) && done == k <= |src| && off' == off + done && spill == 0 && lost == {}
        invariant Valid(V(), l)
        invariant Put(f, File(disk, l, i), off, src, done, 0)
        invariant forall j :: 0 <= j < l.ninodes && j != i ==> File(disk, l, j) == old(File(disk, l, j))
        invariant old(ops) <= ops && CoveredBy(old(disk), disk, ops + [{}], |old(ops)|)
        invariant l.size <= BPB ==> forall k :: |old(ops)| <= k < |ops| ==> |ops[k]| <= 7
      {
        var n1 := if n - k > max then max else n - k;
        var have := if k + n1 <= |src| then n1 else |src| - k;
        ghost var g, d, was := File(disk, l, i), disk, ops;
        var r;
        r, spill, lost := WriteOp(i, src[k..k + have], n1, off');
        CoveredLost(old(disk), d, was, |old(ops)|, disk, logged, lost);
        if r >= 0 {
          PutMore(f, g, File(disk, l, i), off, src, done, have, r, spill);
        }
        if r > 0 {
          off' := off' + r;
          done := done + r;
        }
        PutMax(f, File(disk, l, i), off, src, done, spill);
        if r != n1 {
          return -1, off', done, spill, lost;
        }
        k := k + r;
      }
      ret := if k == n then n else -1;
    }
  }

  /** A write of which only the first byte can be read, over a file that begins otherwise: no byte is
      reported as written, but the file begins with that byte, and its block was changed and not
      given to log_write. */
  method TornWrite(fs: Fs, i: nat, x: Byte) returns (r: int)
    requires Valid(fs.V(), fs.l) && i < fs.l.ninodes && fs.logged == {}
    requires var f := File(fs.disk, fs.l, i); |f| > 0 && f[0] != x
    modifies fs
    ensures r == 0 && File(fs.disk, fs.l, i) == [x] + old(File(fs.disk, fs.l, i))[1..]
    ensures !Covered(old(fs.disk), fs.disk, fs.logged)
  {
    hide Valid, File, Covered, Spilt, Logged, DataBlock, Splice, NoBlock;
    ghost var v, f := fs.V(), File(fs.disk, fs.l, i);
    FirstBlock(v, fs.l, i);
    ghost var spill;
    r, spill := fs.Writei(i, [x], 2, 0);
    FirstBlock(fs.V(), fs.l, i);
    SpiltIff(v, fs.disk, fs.logged, i, 0, [x]);
  }

  lemma FirstBlock(v: Vol, l: Layout, i: nat)
    requires Valid(v, l) && i < l.ninodes && File(v.disk, l, i) != []
    ensures i < |v.inodes| && !NoBlock(v, l, i, 0)
    ensures var b := DataBlock(v.disk, v.inodes[i], 0); 0 < b < |v.disk| && v.disk[b][0..1] == File(v.disk, l, i)[..1]
  {
    hide Sound, InodeOf, Bytes, DataBlock;
    StoredFile(v, l, i);
    FileBlock(v, l, i, 0, 1);
  }
}
