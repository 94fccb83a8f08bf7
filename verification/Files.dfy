/** Files as byte sequences over the block store: bmap, itrunc, readi, writei and the chunks of
    filewrite (kernel/fs.c, kernel/file.c). */
module Files {

  import opened Blocks
  import opened Bitmap
  import opened Inodes

  /** The blocks as bread returns them, the inodes in memory, and who owns which block. */
  datatype Vol = Vol(disk: seq<Block>, inodes: seq<Inode>, own: Owners)

  ghost predicate Sound(v: Vol, l: Layout) {
    && LayoutOk(l) && |v.disk| == l.size && |v.inodes| == l.ninodes
    && RefsOk(v.disk, v.inodes, v.own, l) && BitsOk(v.disk, v.own, l)
  }

  /** The slot of the k-th data block of a file. */
  function DataSlot(k: nat): nat {
    if k < NDIRECT then k else k + 1
  }

  function DataBlock(disk: seq<Block>, ino: Inode, k: nat): Word
    requires k < MAXFILE
  {
    Entry(disk, ino, DataSlot(k))
  }

  /** Every block below len is there. */
  ghost predicate Mapped(disk: seq<Block>, ino: Inode, len: nat) {
    && len <= MAXFILE * BSIZE
    && forall k :: 0 <= k < MAXFILE && k * BSIZE < len ==> DataBlock(disk, ino, k) != 0
  }

  function ByteAt(disk: seq<Block>, ino: Inode, k: nat): Byte
    requires k < MAXFILE * BSIZE
  {
    var b := DataBlock(disk, ino, k / BSIZE);
    if b < |disk| then disk[b][k % BSIZE] else 0
  }

  function Bytes(disk: seq<Block>, ino: Inode, len: nat): (r: seq<Byte>)
    requires len <= MAXFILE * BSIZE
    ensures |r| == len && forall k :: 0 <= k < len ==> r[k] == ByteAt(disk, ino, k)
  {
    seq(len, k requires 0 <= k < len => ByteAt(disk, ino, k))
  }

  /** What a step on behalf of inode i leaves alone elsewhere: all other inodes, all blocks of
      other inodes and the inode blocks. */
  ghost predicate Others(v: Vol, w: Vol, l: Layout, i: nat) {
    && |w.disk| == |v.disk| && |w.inodes| == |v.inodes| && i < |v.inodes|
    && (forall j :: 0 <= j < |v.inodes| && j != i ==> w.inodes[j] == v.inodes[j])
    && w.inodes[i].meta == v.inodes[i].meta
    && (forall b :: b in v.own && v.own[b].0 != i ==> b in w.own && w.own[b] == v.own[b])
    && (forall b :: b in w.own && w.own[b].0 != i ==> b in v.own && w.own[b] == v.own[b])
    && (forall b :: b in v.own && b < |v.disk| && v.own[b].0 != i ==> w.disk[b] == v.disk[b])
    && (forall b :: l.inodestart <= b < l.bmapstart && b < |v.disk| ==> w.disk[b] == v.disk[b])
  }

  /** Besides, the references inode i has and its data blocks stay. */
  ghost predicate Keeps(v: Vol, w: Vol, l: Layout, i: nat) {
    && Others(v, w, l, i)
    && w.inodes[i].size == v.inodes[i].size
    && (forall b :: b in v.own && v.own[b].0 == i ==> b in w.own && w.own[b] == v.own[b])
    && (forall b :: b in v.own && b < |v.disk| && v.own[b].1 != NDIRECT ==> w.disk[b] == v.disk[b])
    && (forall n :: 0 <= n < SLOTS && Entry(v.disk, v.inodes[i], n) != 0 ==>
          Entry(w.disk, w.inodes[i], n) == Entry(v.disk, v.inodes[i], n))
  }

  lemma OthersTrans(u: Vol, v: Vol, w: Vol, l: Layout, i: nat)
    requires Others(u, v, l, i) && Others(v, w, l, i)
    ensures Others(u, w, l, i)
  {
  }

  lemma KeepsTrans(u: Vol, v: Vol, w: Vol, l: Layout, i: nat)
    requires Keeps(u, v, l, i) && Keeps(v, w, l, i)
    ensures Keeps(u, w, l, i)
  {
    hide Entry;
  }

  lemma KeepsSelf(v: Vol, l: Layout, i: nat)
    requires i < |v.inodes|
    ensures Keeps(v, v, l, i)
  {
  }

  lemma KeepsSizes(v: Vol, w: Vol, l: Layout, i: nat)
    requires Keeps(v, w, l, i)
    ensures |w.disk| == |v.disk| && |w.inodes| == |v.inodes| && i < |w.inodes|
  {
  }

  /** A block given out by balloc: marked in the free map and zeroed. */
  function Given(disk: seq<Block>, l: Layout, r: nat): (d: seq<Block>)
    requires l.bmapstart + r / BPB < |disk| && r < |disk|
    ensures |d| == |disk|
  {
    Mark(disk, l.bmapstart, r, true)[r := Zeroed()]
  }

  lemma ZeroWords(j: nat)
    requires j < WORDS
    ensures WordAt(Zeroed(), j) == 0
  {
  }

  lemma GivenSound(v: Vol, l: Layout, r: Word, own: Owners)
    requires Sound(v, l) && r < l.size && !BitOf(v.disk, l, r)
    requires forall c :: c in own <==> (c in v.own || c == r)
    ensures l.data <= r && r !in v.own
    ensures RefsOk(Given(v.disk, l, r), v.inodes, v.own, l) && BitsOk(Given(v.disk, l, r), own, l)
    ensures forall b :: 0 <= b < |v.disk| && b != r && (b < l.bmapstart || l.data <= b) ==>
      Given(v.disk, l, r)[b] == v.disk[b]
    ensures Given(v.disk, l, r)[r] == Zeroed()
  {
    hide Zeroed, BitOf, SetBlockBit, Entry;
    BitsMark(v.disk, v.own, l, r, own);
    BitsFrame(Mark(v.disk, l.bmapstart, r, true), Given(v.disk, l, r), own, l);
    forall b | b in v.own ensures l.data <= b < l.size {
      assert OwnOk(v.disk, v.inodes, v.own, l, b);
    }
    RefsFrame(v.disk, Given(v.disk, l, r), v.inodes, v.own, l);
  }

  /** balloc's block r goes into the empty slot n <= NDIRECT of inode i. */
  lemma GiveBlock(v: Vol, l: Layout, i: nat, n: nat, r: Word, w: Vol)
    requires Sound(v, l) && r < l.size && !BitOf(v.disk, l, r)
    requires i < |v.inodes| && n <= NDIRECT && v.inodes[i].addrs[n] == 0
    requires w == Vol(Given(v.disk, l, r), v.inodes[i := v.inodes[i].(addrs := v.inodes[i].addrs[n := r])],
      v.own[r := (i, n)])
    ensures Sound(w, l) && Keeps(v, w, l, i) && r != 0 && SameBut(v, w, i, n)
  {
    hide BitOf, Given, Zeroed, WordAt, BitsOk, RefOk, OwnOk;
    GivenSound(v, l, r, w.own);
    forall j | 0 <= j < NINDIRECT ensures WordAt(w.disk[r], j) == 0 {
      ZeroWords(j);
    }
    AddBlock(w.disk, v.inodes, v.own, l, i, n, r, w.inodes[i]);
    OwnedAreData(v, l);
    forall m | 0 <= m < SLOTS && m != n ensures Entry(w.disk, w.inodes[i], m) == Entry(v.disk, v.inodes[i], m) {
      EntryFrame(v.disk, w.disk, v.inodes, v.own, l, i, m);
    }
  }

  /** Inode i refers to the same blocks from everywhere but slot n. */
  ghost predicate SameBut(v: Vol, w: Vol, i: nat, n: nat) {
    && i < |v.inodes| && i < |w.inodes|
    && forall m :: 0 <= m < SLOTS && m != n ==> Entry(w.disk, w.inodes[i], m) == Entry(v.disk, v.inodes[i], m)
  }

  lemma OwnedAreData(v: Vol, l: Layout)
    requires Sound(v, l)
    ensures forall b :: b in v.own ==> l.data <= b < l.size
  {
    hide Entry;
    forall b | b in v.own ensures l.data <= b < l.size {
      assert OwnOk(v.disk, v.inodes, v.own, l, b);
    }
  }

  ghost predicate EntryGiven(v: Vol, l: Layout, i: nat, n: nat, r: Word, w: Vol)
    requires Sound(v, l) && r < l.size && i < |v.inodes| && NDIRECT < n < SLOTS
  {
    var b := v.inodes[i].addrs[NDIRECT];
    && 0 < b < |v.disk| && Entry(v.disk, v.inodes[i], n) == 0
    && w == Vol(Given(v.disk, l, r)[b := SetWord(v.disk[b], n - NDIRECT - 1, r)], v.inodes, v.own[r := (i, n)])
  }

  /** balloc's block r goes into the empty entry n > NDIRECT of inode i's indirect block. */
  lemma GiveEntry(v: Vol, l: Layout, i: nat, n: nat, r: Word, w: Vol)
    requires Sound(v, l) && r < l.size && !BitOf(v.disk, l, r) && i < |v.inodes| && NDIRECT < n < SLOTS
    requires EntryGiven(v, l, i, n, r, w)
    ensures Sound(w, l) && Keeps(v, w, l, i) && r != 0 && Entry(w.disk, w.inodes[i], n) == r && SameBut(v, w, i, n)
  {
    hide BitOf, Given, Zeroed, WordAt, SetWord, RefsOk, BitsOk;
    GiveEntrySound(v, l, i, n, r, w);
    GivenSound(v, l, r, w.own);
    OwnedAreData(v, l);
    OwnedEntry(v, l, i, NDIRECT);
    hide Sound;
  }

  lemma GiveEntrySound(v: Vol, l: Layout, i: nat, n: nat, r: Word, w: Vol)
    requires Sound(v, l) && r < l.size && !BitOf(v.disk, l, r) && i < |v.inodes| && NDIRECT < n < SLOTS
    requires EntryGiven(v, l, i, n, r, w)
    ensures Sound(w, l)
    ensures forall m :: 0 <= m < SLOTS ==>
      Entry(w.disk, w.inodes[i], m) == if m == n then r else Entry(v.disk, v.inodes[i], m)
  {
    hide BitOf, Given, Zeroed, WordAt, SetWord, RefsOk, BitsOk;
    var d := Given(v.disk, l, r);
    GivenSound(v, l, r, w.own);
    OwnedAreData(v, l);
    OwnedEntry(v, l, i, NDIRECT);
    forall m | 0 <= m < SLOTS ensures Entry(d, v.inodes[i], m) == Entry(v.disk, v.inodes[i], m) {
      EntryFrame(v.disk, d, v.inodes, v.own, l, i, m);
    }
    AddEntry(d, w.disk, v.inodes, v.own, l, i, n, r);
    BitsFrame(d, w.disk, w.own, l);
  }

  lemma OwnedEntry(v: Vol, l: Layout, i: nat, n: nat)
    requires Sound(v, l) && i < |v.inodes| && n < SLOTS
    ensures var b := Entry(v.disk, v.inodes[i], n); b != 0 ==> b in v.own && v.own[b] == (i, n)
  {
    hide Entry;
    assert RefOk(v.disk, v.inodes[i], v.own, i, n);
  }

  /** The free map has exactly the metadata blocks and the blocks some inode refers to, and no
      block is referred to from two places. */
  lemma EachOnce(v: Vol, l: Layout)
    requires Sound(v, l)
    ensures forall b :: 0 <= b < l.size ==> (BitOf(v.disk, l, b) <==> b < l.data || Referenced(v, b))
    ensures forall i, n, j, m | 0 <= i < |v.inodes| && 0 <= j < |v.inodes| && 0 <= n < SLOTS && 0 <= m < SLOTS ::
              Entry(v.disk, v.inodes[i], n) == Entry(v.disk, v.inodes[j], m) != 0 ==> i == j && n == m
  {
    hide Entry, BitOf;
    forall b | 0 <= b < l.size ensures BitOf(v.disk, l, b) <==> b < l.data || Referenced(v, b) {
      if b in v.own {
        assert OwnOk(v.disk, v.inodes, v.own, l, b);
      }
      if Referenced(v, b) {
        var i, n :| 0 <= i < |v.inodes| && 0 <= n < SLOTS && b != 0 && Entry(v.disk, v.inodes[i], n) == b;
        assert RefOk(v.disk, v.inodes[i], v.own, i, n);
      }
    }
    forall i, n, j, m | 0 <= i < |v.inodes| && 0 <= j < |v.inodes| && 0 <= n < SLOTS && 0 <= m < SLOTS &&
        Entry(v.disk, v.inodes[i], n) == Entry(v.disk, v.inodes[j], m) != 0
      ensures i == j && n == m
    {
      assert RefOk(v.disk, v.inodes[i], v.own, i, n) && RefOk(v.disk, v.inodes[j], v.own, j, m);
    }
  }

  ghost predicate Referenced(v: Vol, b: nat) {
    b != 0 && exists i, n :: 0 <= i < |v.inodes| && 0 <= n < SLOTS && Entry(v.disk, v.inodes[i], n) == b
  }

  // Bytes.

  lemma DataEntry(v: Vol, l: Layout, i: nat, k: nat)
    requires Sound(v, l) && i < |v.inodes| && k < MAXFILE
    ensures var b := DataBlock(v.disk, v.inodes[i], k);
      b != 0 ==> b in v.own && v.own[b] == (i, DataSlot(k)) && l.data <= b < l.size && DataSlot(k) != NDIRECT
  {
    hide Entry, Sound;
    OwnedEntry(v, l, i, DataSlot(k));
    OwnedAreData(v, l);
  }

  lemma KeepsByte(v: Vol, w: Vol, l: Layout, i: nat, k: nat)
    requires Sound(v, l) && Keeps(v, w, l, i) && k < MAXFILE * BSIZE
    requires DataBlock(v.disk, v.inodes[i], k / BSIZE) != 0
    ensures ByteAt(w.disk, w.inodes[i], k) == ByteAt(v.disk, v.inodes[i], k)
  {
    hide Entry;
    DataEntry(v, l, i, k / BSIZE);
  }

  /** The bytes of a file that is not the one worked on. */
  lemma OtherBytes(v: Vol, w: Vol, l: Layout, i: nat, j: nat, len: nat)
    requires Sound(v, l) && Others(v, w, l, i) && j < |v.inodes| && j != i && Mapped(v.disk, v.inodes[j], len)
    ensures Mapped(w.disk, w.inodes[j], len) && Bytes(w.disk, w.inodes[j], len) == Bytes(v.disk, v.inodes[j], len)
  {
    hide Sound, Entry, Bytes, WordAt;
    forall n | 0 <= n < SLOTS ensures Entry(w.disk, v.inodes[j], n) == Entry(v.disk, v.inodes[j], n) {
      OtherEntry(v, w, l, i, j, n);
    }
    forall k | 0 <= k < MAXFILE ensures DataBlock(w.disk, w.inodes[j], k) == DataBlock(v.disk, v.inodes[j], k) {
    }
    forall k | 0 <= k < len ensures ByteAt(w.disk, w.inodes[j], k) == ByteAt(v.disk, v.inodes[j], k) {
      assert k / BSIZE * BSIZE < len;
      DataEntry(v, l, j, k / BSIZE);
    }
  }

  lemma OtherEntry(v: Vol, w: Vol, l: Layout, i: nat, j: nat, n: nat)
    requires Sound(v, l) && Others(v, w, l, i) && j < |v.inodes| && j != i && n < SLOTS
    ensures Entry(w.disk, v.inodes[j], n) == Entry(v.disk, v.inodes[j], n)
  {
    hide Sound, WordAt;
    OwnedEntry(v, l, j, NDIRECT);
  }

  function Splice(b: Block, o: nat, data: seq<Byte>): (r: Block)
    requires o + |data| <= BSIZE
    ensures forall k :: 0 <= k < BSIZE ==> r[k] == if o <= k < o + |data| then data[k - o] else b[k]
  {
    b[..o] + data + b[o + |data|..]
  }

  /** Bytes are put into the data block that holds position o of file i. */
  lemma WriteData(v: Vol, w: Vol, l: Layout, i: nat, o: nat, data: seq<Byte>)
    requires Sound(v, l) && i < |v.inodes| && o < MAXFILE * BSIZE && o % BSIZE + |data| <= BSIZE
    requires var b := DataBlock(v.disk, v.inodes[i], o / BSIZE);
      0 < b < |v.disk| && w == v.(disk := v.disk[b := Splice(v.disk[b], o % BSIZE, data)])
    ensures Sound(w, l) && Others(v, w, l, i)
    ensures forall n :: 0 <= n < SLOTS ==> Entry(w.disk, w.inodes[i], n) == Entry(v.disk, v.inodes[i], n)
    ensures forall k :: 0 <= k < MAXFILE * BSIZE && DataBlock(v.disk, v.inodes[i], k / BSIZE) != 0 ==>
              ByteAt(w.disk, w.inodes[i], k) ==
              if o <= k < o + |data| then data[k - o] else ByteAt(v.disk, v.inodes[i], k)
  {
    hide Entry, Splice, BitsOk, RefsOk;
    var b := DataBlock(v.disk, v.inodes[i], o / BSIZE);
    DataEntry(v, l, i, o / BSIZE);
    RefsFrame(v.disk, w.disk, v.inodes, v.own, l);
    BitsFrame(v.disk, w.disk, v.own, l);
    forall n | 0 <= n < SLOTS ensures Entry(w.disk, w.inodes[i], n) == Entry(v.disk, v.inodes[i], n) {
      EntryFrame(v.disk, w.disk, v.inodes, v.own, l, i, n);
    }
    forall k | 0 <= k < MAXFILE * BSIZE && DataBlock(v.disk, v.inodes[i], k / BSIZE) != 0
      ensures ByteAt(w.disk, w.inodes[i], k) ==
        if o <= k < o + |data| then data[k - o] else ByteAt(v.disk, v.inodes[i], k)
    {
      DataEntry(v, l, i, k / BSIZE);
    }
  }

  ghost function Max(a: nat, b: nat): nat {
    if a < b then b else a
  }

  /** From v to w the bytes data went into file i at off, with the size in the inode not yet
      changed. */
  ghost predicate Written(v: Vol, w: Vol, l: Layout, i: nat, off: nat, data: seq<Byte>) {
    && Others(v, w, l, i)
    && w.inodes[i].size == v.inodes[i].size
    && Mapped(w.disk, w.inodes[i], Max(v.inodes[i].size, off + |data|))
    && forall k :: 0 <= k < Max(v.inodes[i].size, off + |data|) ==>
         ByteAt(w.disk, w.inodes[i], k) ==
         if off <= k < off + |data| then data[k - off] else ByteAt(v.disk, v.inodes[i], k)
  }

  lemma WrittenKeeps(v: Vol, u: Vol, w: Vol, l: Layout, i: nat, off: nat, data: seq<Byte>)
    requires Sound(u, l) && Written(v, u, l, i, off, data) && Keeps(u, w, l, i)
    ensures Written(v, w, l, i, off, data)
  {
    hide Entry, Sound, ByteAt;
    OthersTrans(v, u, w, l, i);
    var len := Max(v.inodes[i].size, off + |data|);
    forall k | 0 <= k < MAXFILE && k * BSIZE < len ensures DataBlock(w.disk, w.inodes[i], k) != 0 {
      assert DataBlock(u.disk, u.inodes[i], k) != 0;
    }
    forall k | 0 <= k < len ensures ByteAt(w.disk, w.inodes[i], k) == ByteAt(u.disk, u.inodes[i], k) {
      assert k / BSIZE * BSIZE < len;
      KeepsByte(u, w, l, i, k);
    }
  }

  lemma WrittenMore(v: Vol, u: Vol, w: Vol, l: Layout, i: nat, off: nat, data: seq<Byte>, more: seq<Byte>)
    requires Sound(u, l) && Written(v, u, l, i, off, data) && i < |u.inodes| && off <= v.inodes[i].size
    requires var o := off + |data|; o + |more| <= MAXFILE * BSIZE && o % BSIZE + |more| <= BSIZE && |more| > 0
    requires var o := off + |data|; var b := DataBlock(u.disk, u.inodes[i], o / BSIZE);
      0 < b < |u.disk| && w == u.(disk := u.disk[b := Splice(u.disk[b], o % BSIZE, more)])
    ensures Sound(w, l) && Written(v, w, l, i, off, data + more)
  {
    hide Entry, Sound, Others, Splice, ByteAt, DataBlock;
    var o := off + |data|;
    WriteData(u, w, l, i, o, more);
    SameBlocks(u, w, i);
    OthersTrans(v, u, w, l, i);
    var len, len' := Max(v.inodes[i].size, o), Max(v.inodes[i].size, o + |more|);
    forall k | 0 <= k < MAXFILE && k * BSIZE < len'
      ensures DataBlock(u.disk, u.inodes[i], k) != 0 && DataBlock(w.disk, w.inodes[i], k) != 0
    {
      BlockReached(o, |more|, k, len, len');
      assert DataBlock(w.disk, w.inodes[i], k) == DataBlock(u.disk, u.inodes[i], k);
    }
    forall k | 0 <= k < len' ensures DataBlock(u.disk, u.inodes[i], k / BSIZE) != 0 {
      assert k / BSIZE * BSIZE < len';
    }
  }

  lemma SameBlocks(v: Vol, w: Vol, i: nat)
    requires i < |v.inodes| && i < |w.inodes|
    requires forall n :: 0 <= n < SLOTS ==> Entry(w.disk, w.inodes[i], n) == Entry(v.disk, v.inodes[i], n)
    ensures forall k :: 0 <= k < MAXFILE ==> DataBlock(w.disk, w.inodes[i], k) == DataBlock(v.disk, v.inodes[i], k)
  {
    hide Entry;
  }

  /** A block that begins below the new length began below the old one, or holds what is added. */
  lemma BlockReached(o: nat, m: nat, k: nat, len: nat, len': nat)
    requires o % BSIZE + m <= BSIZE && o <= len <= len' <= Max(len, o + m) && k * BSIZE < len'
    ensures k * BSIZE < len || k == o / BSIZE
  {
  }

  // Whole operations.

  /** At the end of an operation the disk alone tells every file: inodes are stored, and every
      block below a file's size is there. */
  ghost predicate Valid(v: Vol, l: Layout) {
    Sound(v, l) && forall j :: 0 <= j < l.ninodes ==> Stored(v, l, j)
  }

  ghost predicate Stored(v: Vol, l: Layout, j: nat)
    requires LayoutOk(l) && |v.disk| == l.size && j < l.ninodes == |v.inodes|
  {
    InodeOf(v.disk, l, j) == v.inodes[j] && Mapped(v.disk, v.inodes[j], v.inodes[j].size)
  }

  /** The contents of file j, from the disk alone. */
  ghost function File(disk: seq<Block>, l: Layout, j: nat): seq<Byte> {
    if l.inodestart + j / IPB >= |disk| then []
    else
      var ino := InodeOf(disk, l, j);
      if ino.size <= MAXFILE * BSIZE then Bytes(disk, ino, ino.size) else []
  }

  /** old with data put at off, growing it if need be. */
  ghost function Overlay(was: seq<Byte>, off: nat, data: seq<Byte>): (r: seq<Byte>)
    requires off <= |was|
    ensures |r| == Max(|was|, off + |data|)
  {
    was[..off] + data + if off + |data| < |was| then was[off + |data|..] else []
  }

  /** The size in inode i is set and the inode is written to its block. */
  ghost predicate Finished(v: Vol, w: Vol, l: Layout, i: nat, size: Word)
    requires LayoutOk(l) && |v.disk| == l.size && i < l.ninodes == |v.inodes|
  {
    var ino: Inode := v.inodes[i].(size := size);
    w == Vol(PutInodeOf(v.disk, l, i, ino), v.inodes[i := ino], v.own)
  }

  lemma SizeSound(v: Vol, l: Layout, i: nat, ino: Inode)
    requires Sound(v, l) && i < |v.inodes| && ino.addrs == v.inodes[i].addrs
    ensures Sound(v.(inodes := v.inodes[i := ino]), l)
    ensures forall n :: 0 <= n < SLOTS ==> Entry(v.disk, ino, n) == Entry(v.disk, v.inodes[i], n)
  {
    hide WordAt, BitsOk;
    var inodes := v.inodes[i := ino];
    forall j, n | 0 <= j < |inodes| && 0 <= n < SLOTS ensures RefOk(v.disk, inodes[j], v.own, j, n) {
      assert RefOk(v.disk, v.inodes[j], v.own, j, n);
    }
    forall b | b in v.own ensures OwnOk(v.disk, inodes, v.own, l, b) {
      assert OwnOk(v.disk, v.inodes, v.own, l, b);
    }
  }

  lemma FinishedSound(v: Vol, w: Vol, l: Layout, i: nat, size: Word)
    requires Sound(v, l) && i < |v.inodes| && Finished(v, w, l, i, size)
    ensures Sound(w, l)
    ensures forall b :: 0 <= b < |v.disk| && l.bmapstart <= b ==> w.disk[b] == v.disk[b]
    ensures forall j, n :: 0 <= j < |v.inodes| && 0 <= n < SLOTS ==>
      Entry(w.disk, w.inodes[j], n) == Entry(v.disk, v.inodes[j], n)
  {
    hide Entry, BitsOk, RefsOk, PutInode;
    var ino: Inode := v.inodes[i].(size := size);
    var u := v.(inodes := v.inodes[i := ino]);
    SizeSound(v, l, i, ino);
    OwnedAreData(u, l);
    RefsFrame(u.disk, w.disk, u.inodes, u.own, l);
    BitsFrame(u.disk, w.disk, u.own, l);
    forall j, n | 0 <= j < |v.inodes| && 0 <= n < SLOTS
      ensures Entry(w.disk, w.inodes[j], n) == Entry(v.disk, v.inodes[j], n)
    {
      EntryFrame(u.disk, w.disk, u.inodes, u.own, l, j, n);
    }
  }

  lemma FinishedBytes(v: Vol, w: Vol, l: Layout, i: nat, size: Word, j: nat, len: nat)
    requires Sound(v, l) && i < |v.inodes| && Finished(v, w, l, i, size) && j < |v.inodes|
    requires Mapped(v.disk, v.inodes[j], len)
    ensures Mapped(w.disk, w.inodes[j], len) && Bytes(w.disk, w.inodes[j], len) == Bytes(v.disk, v.inodes[j], len)
  {
    hide Entry, Sound, PutInodeOf, Bytes;
    FinishedSound(v, w, l, i, size);
    forall k | 0 <= k < MAXFILE ensures DataBlock(w.disk, w.inodes[j], k) == DataBlock(v.disk, v.inodes[j], k) {
    }
    forall k | 0 <= k < len ensures ByteAt(w.disk, w.inodes[j], k) == ByteAt(v.disk, v.inodes[j], k) {
      assert k / BSIZE * BSIZE < len;
      DataEntry(v, l, j, k / BSIZE);
      LayoutOrder(v, l);
    }
  }

  lemma LayoutOrder(v: Vol, l: Layout)
    requires Sound(v, l)
    ensures l.bmapstart < l.data && |v.disk| == l.size && |v.inodes| == l.ninodes && LayoutOk(l)
  {
  }

  lemma FinishedStored(v: Vol, w: Vol, l: Layout, i: nat, size: Word, j: nat)
    requires LayoutOk(l) && |v.disk| == l.size && i < l.ninodes == |v.inodes| && j < l.ninodes
    requires Finished(v, w, l, i, size) && (j != i ==> InodeOf(v.disk, l, j) == v.inodes[j])
    ensures InodeOf(w.disk, l, j) == w.inodes[j]
  {
    hide InodeOf, PutInodeOf;
    PutGetOf(v.disk, l, i, v.inodes[i].(size := size), j);
  }

  /** The end of an operation on inode i: what the other files are. */
  lemma OthersFinish(v: Vol, u: Vol, w: Vol, l: Layout, i: nat, size: Word, j: nat)
    requires Valid(v, l) && Sound(u, l) && Others(v, u, l, i) && Finished(u, w, l, i, size) && j < |v.inodes| && j != i
    ensures |w.disk| == |v.disk| && |w.inodes| == |v.inodes| && Stored(w, l, j)
    ensures File(w.disk, l, j) == File(v.disk, l, j) && w.inodes[j] == v.inodes[j]
  {
    hide InodeAt, Entry, RefsOk, BitsOk, PutInodeOf, Bytes, Mapped;
    assert Stored(v, l, j);
    assert InodeOf(u.disk, l, j) == InodeOf(v.disk, l, j);
    FinishedStored(u, w, l, i, size, j);
    OtherBytes(v, u, l, i, j, v.inodes[j].size);
    FinishedBytes(u, w, l, i, size, j, v.inodes[j].size);
  }

  /** The end of a write. */
  lemma WriteFinish(v: Vol, u: Vol, w: Vol, l: Layout, i: nat, off: nat, data: seq<Byte>, size: Word)
    requires Valid(v, l) && Sound(u, l) && i < |v.inodes| && off <= v.inodes[i].size
    requires Written(v, u, l, i, off, data) && Finished(u, w, l, i, size)
    requires v.inodes[i].size <= size <= Max(v.inodes[i].size, off + |data|)
    ensures Valid(w, l)
    ensures off <= |File(v.disk, l, i)| == v.inodes[i].size
    ensures File(w.disk, l, i) == Overlay(File(v.disk, l, i), off, data)[..size]
    ensures forall j :: 0 <= j < l.ninodes && j != i ==>
      File(w.disk, l, j) == File(v.disk, l, j) && w.inodes[j] == v.inodes[j]
  {
    hide InodeOf, Entry, RefsOk, BitsOk, PutInodeOf, Bytes, Mapped, ByteAt;
    assert Stored(v, l, i);
    FinishedSound(u, w, l, i, size);
    forall j | 0 <= j < l.ninodes && j != i
      ensures Stored(w, l, j) && File(w.disk, l, j) == File(v.disk, l, j) && w.inodes[j] == v.inodes[j]
    {
      OthersFinish(v, u, w, l, i, size, j);
    }
    MappedLess(u.disk, u.inodes[i], Max(v.inodes[i].size, off + |data|), size);
    FinishedBytes(u, w, l, i, size, i, size);
    FinishedStored(u, w, l, i, size, i);
    MappedMax(v.disk, v.inodes[i], v.inodes[i].size);
    MappedMax(u.disk, u.inodes[i], size);
    var was := File(v.disk, l, i);
    assert forall k :: 0 <= k < size ==> Bytes(u.disk, u.inodes[i], size)[k] == Overlay(was, off, data)[k];
    assert Bytes(u.disk, u.inodes[i], size) == Overlay(was, off, data)[..size];
  }

  lemma MappedLess(disk: seq<Block>, ino: Inode, len: nat, size: nat)
    requires Mapped(disk, ino, len) && size <= len
    ensures Mapped(disk, ino, size)
  {
    hide DataBlock;
  }

  lemma MappedMax(disk: seq<Block>, ino: Inode, len: nat)
    requires Mapped(disk, ino, len)
    ensures len <= MAXFILE * BSIZE
  {
  }

  // Freeing.

  /** Slot n < NDIRECT of inode i is freed. */
  lemma FreeBlock(v: Vol, l: Layout, i: nat, n: nat, b: Word, w: Vol)
    requires Sound(v, l) && i < |v.inodes| && n < NDIRECT && v.inodes[i].addrs[n] == b != 0
    requires b < l.size ==>
      w == Vol(Mark(v.disk, l.bmapstart, b, false), v.inodes[i := v.inodes[i].(addrs := v.inodes[i].addrs[n := 0])],
        v.own - {b})
    ensures b in v.own && l.data <= b < l.size && BitOf(v.disk, l, b)
    ensures Sound(w, l) && Others(v, w, l, i)
  {
    hide BitOf, WordAt, BitsOk, RefsOk, SetBlockBit;
    OwnedEntry(v, l, i, n);
    OwnedAreData(v, l);
    BitsUnmark(v.disk, v.own, l, b);
    BitOwned(v, l, b);
    DropBlock(v.disk, v.inodes, v.own, l, i, n, b, w.inodes[i]);
    RefsFrame(v.disk, w.disk, w.inodes, w.own, l);
  }

  lemma BitOwned(v: Vol, l: Layout, b: nat)
    requires LayoutOk(l) && BitsOk(v.disk, v.own, l) && b in v.own && b < l.size
    ensures BitOf(v.disk, l, b)
  {
  }

  /** What holds inside itrunc's loop over the indirect block. */
  ghost predicate Freeing(v: Vol, l: Layout, i: nat, n: nat) {
    && LayoutOk(l) && |v.disk| == l.size && |v.inodes| == l.ninodes
    && RefsBut(v.disk, v.inodes, v.own, l, i, n) && BitsOk(v.disk, v.own, l)
  }

  lemma FreeEntry(v: Vol, l: Layout, i: nat, n: nat, b: Word, w: Vol)
    requires Freeing(v, l, i, n) && i < |v.inodes| && NDIRECT < n < SLOTS && b == Entry(v.disk, v.inodes[i], n)
    requires b < l.size ==> w == if b == 0 then v else Vol(Mark(v.disk, l.bmapstart, b, false), v.inodes, v.own - {b})
    ensures b != 0 ==> b in v.own && l.data <= b < l.size && BitOf(v.disk, l, b)
    ensures Freeing(w, l, i, n + 1) && Others(v, w, l, i)
  {
    hide BitOf, WordAt, BitsOk, SetBlockBit, Entry;
    assert RefOk(v.disk, v.inodes[i], v.own, i, n);
    if b == 0 {
      DropEntry(v.disk, v.disk, v.inodes, v.own, l, i, n);
    } else {
      assert OwnOk(v.disk, v.inodes, v.own, l, b);
      forall c | c in v.own ensures l.data <= c < l.size {
        assert OwnOk(v.disk, v.inodes, v.own, l, c);
      }
      BitOwned(v, l, b);
      BitsUnmark(v.disk, v.own, l, b);
      DropEntry(v.disk, w.disk, v.inodes, v.own, l, i, n);
    }
  }

  lemma FreeIndirect(v: Vol, l: Layout, i: nat, b: Word, w: Vol)
    requires Freeing(v, l, i, SLOTS) && i < |v.inodes| && v.inodes[i].addrs[NDIRECT] == b != 0
    requires b < l.size ==>
      w == Vol(Mark(v.disk, l.bmapstart, b, false),
        v.inodes[i := v.inodes[i].(addrs := v.inodes[i].addrs[NDIRECT := 0])], v.own - {b})
    ensures b in v.own && l.data <= b < l.size && BitOf(v.disk, l, b)
    ensures Sound(w, l) && Others(v, w, l, i)
  {
    hide BitOf, WordAt, BitsOk, SetBlockBit;
    assert RefOk(v.disk, v.inodes[i], v.own, i, NDIRECT);
    assert OwnOk(v.disk, v.inodes, v.own, l, b);
    forall c | c in v.own ensures l.data <= c < l.size {
      assert OwnOk(v.disk, v.inodes, v.own, l, c);
    }
    BitOwned(v, l, b);
    BitsUnmark(v.disk, v.own, l, b);
    DropIndirect(v.disk, v.inodes, v.own, l, i, b, w.inodes[i]);
    RefsFrame(v.disk, w.disk, w.inodes, w.own, l);
  }

  /** The end of itrunc. */
  lemma TruncFinish(v: Vol, u: Vol, w: Vol, l: Layout, i: nat)
    requires Valid(v, l) && Sound(u, l) && Others(v, u, l, i) && Finished(u, w, l, i, 0)
    requires forall n :: 0 <= n <= NDIRECT ==> u.inodes[i].addrs[n] == 0
    ensures Valid(w, l) && File(w.disk, l, i) == []
    ensures forall b :: b in w.own <==> b in v.own && v.own[b].0 != i
    ensures forall j :: 0 <= j < l.ninodes && j != i ==>
      File(w.disk, l, j) == File(v.disk, l, j) && w.inodes[j] == v.inodes[j]
  {
    hide InodeOf, BitsOk, PutInodeOf, Bytes, WordAt;
    FinishedSound(u, w, l, i, 0);
    FinishedStored(u, w, l, i, 0, i);
    forall j | 0 <= j < l.ninodes && j != i
      ensures Stored(w, l, j) && File(w.disk, l, j) == File(v.disk, l, j) && w.inodes[j] == v.inodes[j]
    {
      OthersFinish(v, u, w, l, i, 0, j);
    }
    forall b | b in w.own ensures w.own[b].0 != i {
      assert OwnOk(w.disk, w.inodes, w.own, l, b);
    }
  }

  lemma WrittenNone(v: Vol, l: Layout, i: nat, off: nat)
    requires Valid(v, l) && i < |v.inodes| && off <= v.inodes[i].size
    ensures Written(v, v, l, i, off, [])
  {
    hide RefsOk, BitsOk, ByteAt, DataBlock, InodeOf;
    assert Stored(v, l, i);
  }

  lemma WrittenSizes(v: Vol, w: Vol, l: Layout, i: nat, off: nat, data: seq<Byte>)
    requires Written(v, w, l, i, off, data)
    ensures |w.disk| == |v.disk| && |w.inodes| == |v.inodes| && i < |w.inodes| && w.inodes[i].size == v.inodes[i].size
  {
  }

  lemma StoredFile(v: Vol, l: Layout, i: nat)
    requires Valid(v, l) && i < l.ninodes
    ensures |v.inodes| == l.ninodes && LayoutOk(l) && |v.disk| == l.size && v.inodes[i].size <= MAXFILE * BSIZE
    ensures File(v.disk, l, i) == Bytes(v.disk, v.inodes[i], v.inodes[i].size)
  {
    hide InodeOf, Bytes, RefsOk, BitsOk;
    assert Stored(v, l, i);
  }

  /** Position o of file i: its block is there and holds the file's bytes from o on. */
  lemma FileBlock(v: Vol, l: Layout, i: nat, o: nat, m: nat)
    requires Valid(v, l) && i < l.ninodes && i < |v.inodes| && o < v.inodes[i].size
    requires o + m <= v.inodes[i].size && o % BSIZE + m <= BSIZE
    ensures v.inodes[i].size <= MAXFILE * BSIZE
    ensures var b := DataBlock(v.disk, v.inodes[i], o / BSIZE);
      0 < b < |v.disk| && v.disk[b][o % BSIZE..o % BSIZE + m] == Bytes(v.disk, v.inodes[i], v.inodes[i].size)[o..o + m]
  {
    hide InodeOf, RefsOk, BitsOk, Entry, Bytes;
    assert Stored(v, l, i);
    assert o / BSIZE * BSIZE < v.inodes[i].size;
    DataEntry(v, l, i, o / BSIZE);
    var b := DataBlock(v.disk, v.inodes[i], o / BSIZE);
    var x, y := v.disk[b][o % BSIZE..o % BSIZE + m], Bytes(v.disk, v.inodes[i], v.inodes[i].size)[o..o + m];
    forall k | 0 <= k < m ensures x[k] == y[k] {
      assert (o + k) / BSIZE == o / BSIZE && (o + k) % BSIZE == o % BSIZE + k;
    }
  }

  lemma OverlayTwice(f: seq<Byte>, off: nat, a: seq<Byte>, b: seq<Byte>)
    requires off <= |f|
    ensures Overlay(Overlay(f, off, a), off + |a|, b) == Overlay(f, off, a + b)
  {
    var x, y := Overlay(Overlay(f, off, a), off + |a|, b), Overlay(f, off, a + b);
    assert |x| == |y|;
    assert forall k :: 0 <= k < |x| ==> x[k] == y[k];
  }

  /** f with data put at off, of which only the first done bytes make it longer. */
  ghost function Covering(f: seq<Byte>, off: nat, data: seq<Byte>, done: nat): seq<Byte>
    requires off <= |f| && done <= |data|
  {
    Overlay(f, off, data)[..Max(|f|, off + done)]
  }

  /** A write reported as done bytes that put more of them: what the file then holds is what was
      reported if and only if the bytes behind were there before. */
  lemma CoveringIff(f: seq<Byte>, off: nat, data: seq<Byte>, done: nat)
    requires off <= |f| && done <= |data|
    ensures Covering(f, off, data, done) == Overlay(f, off, data[..done]) <==>
            forall k :: done <= k < |data| && off + k < |f| ==> f[off + k] == data[k]
  {
    var x, y := Covering(f, off, data, done), Overlay(f, off, data[..done]);
    if x == y {
      forall k | done <= k < |data| && off + k < |f| ensures f[off + k] == data[k] {
        assert x[off + k] == data[k] && y[off + k] == f[off + k];
      }
    }
    if forall k :: done <= k < |data| && off + k < |f| ==> f[off + k] == data[k] {
      forall p | 0 <= p < |x| ensures x[p] == y[p] {
        if off + done <= p < off + |data| {
          assert f[off + (p - off)] == data[p - off];
        }
      }
    }
  }

  lemma CoveringAll(f: seq<Byte>, off: nat, data: seq<Byte>)
    requires off <= |f|
    ensures Covering(f, off, data, |data|) == Overlay(f, off, data)
  {
  }

  /** g is f with the first done bytes of src put at off, and spill more of them over old ones. */
  ghost predicate Put(f: seq<Byte>, g: seq<Byte>, off: nat, src: seq<Byte>, done: nat, spill: nat) {
    && done + spill <= |src|
    && (done + spill == 0 ==> g == f)
    && (done + spill > 0 ==> off <= |f| && g == Covering(f, off, src[..done + spill], done))
  }

  lemma PutMore(f: seq<Byte>, g: seq<Byte>, h: seq<Byte>, off: nat, src: seq<Byte>, done: nat, n: nat, r: nat,
                spill: nat)
    requires Put(f, g, off, src, done, 0) && done + n <= |src| && r + spill <= n
    requires off + done <= |g| && h == Covering(g, off + done, src[done..done + n][..r + spill], r)
    ensures Put(f, h, off, src, done + r, spill)
  {
    hide Overlay;
    var more := src[done..done + n][..r + spill];
    PrefixMore(src, done, n, r + spill);
    if done > 0 {
      CoveringAll(f, off, src[..done]);
      OverlayTwice(f, off, src[..done], more);
    } else {
      assert src[..0] == [] && [] + more == more;
      if r + spill == 0 {
        CoveringAll(g, off, more);
        OverlayNone(g, off);
      }
    }
  }

  lemma PrefixMore(src: seq<Byte>, done: nat, n: nat, r: nat)
    requires done + n <= |src| && r <= n
    ensures src[..done] + src[done..done + n][..r] == src[..done + r]
  {
    var s, t := src[..done] + src[done..done + n][..r], src[..done + r];
    forall k | 0 <= k < done + r ensures s[k] == t[k] {
      if k >= done {
        assert src[done..done + n][..r][k - done] == src[done..done + n][k - done] == src[k];
      }
    }
    assert s == t;
  }

  lemma OverlayNone(f: seq<Byte>, off: nat)
    requires off <= |f|
    ensures Overlay(f, off, []) == f
  {
  }

  lemma PutNone(f: seq<Byte>, off: nat, src: seq<Byte>)
    ensures Put(f, f, off, src, 0, 0)
  {
  }

  lemma PutMax(f: seq<Byte>, g: seq<Byte>, off: nat, src: seq<Byte>, done: nat, spill: nat)
    requires Put(f, g, off, src, done, spill)
    ensures done + spill <= |src|
  {
  }
}
