/** Inodes: their place on disk, the blocks they refer to, and who owns which block
    (kernel/fs.c, include/fs.h). */
module Inodes {

  import opened Blocks
  import opened Bitmap

  const NDIRECT: nat := 12
  const NINDIRECT: nat := WORDS
  const MAXFILE: nat := NDIRECT + NINDIRECT
  /** Inodes per block. */
  const IPB: nat := 16
  /** The places of an inode that can hold a block number: the direct ones, the indirect block
      (number NDIRECT), and the entries of the indirect block. */
  const SLOTS: nat := MAXFILE + 1

  /** The first two words hold type, major, minor and nlink. */
  datatype InodeRecord = InodeRecord(meta: seq<Word>, size: Word, addrs: seq<Word>)

  type Inode = x: InodeRecord | |x.meta| == 2 && |x.addrs| == NDIRECT + 1
    witness InodeRecord([0, 0], 0, [0, 0, 0, 0, 0, 0, 0, 0, 0, 0, 0, 0, 0])

  /** The super block: the number of blocks and of inodes, and where the inode blocks, the free
      map and the data blocks start. */
  datatype Layout = Layout(size: nat, ninodes: nat, inodestart: nat, bmapstart: nat, data: nat)

  ghost predicate LayoutOk(l: Layout) {
    && l.size <= 0x1_0000_0000
    && 0 < l.inodestart && l.inodestart + l.ninodes / IPB < l.bmapstart
    && l.bmapstart + l.size / BPB < l.data <= l.size
  }

  // Inodes on disk.

  function WordsAt(b: Block, from: nat, n: nat): (r: seq<Word>)
    requires from + n <= WORDS
    ensures |r| == n && forall j :: 0 <= j < n ==> r[j] == WordAt(b, from + j)
  {
    if n == 0 then [] else WordsAt(b, from, n - 1) + [WordAt(b, from + n - 1)]
  }

  function PutWords(b: Block, from: nat, ws: seq<Word>): (r: Block)
    requires from + |ws| <= WORDS
    ensures forall j :: 0 <= j < WORDS ==>
              WordAt(r, j) == if from <= j < from + |ws| then ws[j - from] else WordAt(b, j)
  {
    hide WordAt, SetWord;
    if ws == [] then b
    else SetWord(PutWords(b, from, ws[..|ws| - 1]), from + |ws| - 1, ws[|ws| - 1])
  }

  function InodeAt(b: Block, k: nat): Inode
    requires k < IPB
  {
    InodeRecord(WordsAt(b, 16 * k, 2), WordAt(b, 16 * k + 2), WordsAt(b, 16 * k + 3, NDIRECT + 1))
  }

  function PutInode(b: Block, k: nat, ino: Inode): Block
    requires k < IPB
  {
    PutWords(b, 16 * k, ino.meta + [ino.size] + ino.addrs)
  }

  /** Writing one inode of a block reads back, and leaves the others alone. */
  lemma PutGet(b: Block, k: nat, ino: Inode, j: nat)
    requires k < IPB && j < IPB
    ensures InodeAt(PutInode(b, k, ino), j) == if j == k then ino else InodeAt(b, j)
  {
    hide WordAt, WordsAt, PutWords;
    var r := PutInode(b, k, ino);
    if j == k {
      assert WordsAt(r, 16 * j, 2) == ino.meta;
      assert WordsAt(r, 16 * j + 3, NDIRECT + 1) == ino.addrs;
    } else {
      assert WordsAt(r, 16 * j, 2) == WordsAt(b, 16 * j, 2);
      assert WordsAt(r, 16 * j + 3, NDIRECT + 1) == WordsAt(b, 16 * j + 3, NDIRECT + 1);
    }
  }

  /** Inode number i as the disk has it. */
  function InodeOf(disk: seq<Block>, l: Layout, i: nat): Inode
    requires l.inodestart + i / IPB < |disk|
  {
    InodeAt(disk[l.inodestart + i / IPB], i % IPB)
  }

  function PutInodeOf(disk: seq<Block>, l: Layout, i: nat, ino: Inode): (r: seq<Block>)
    requires l.inodestart + i / IPB < |disk|
    ensures |r| == |disk|
  {
    disk[l.inodestart + i / IPB := PutInode(disk[l.inodestart + i / IPB], i % IPB, ino)]
  }

  lemma PutGetOf(disk: seq<Block>, l: Layout, i: nat, ino: Inode, j: nat)
    requires l.inodestart + i / IPB < |disk| && l.inodestart + j / IPB < |disk|
    ensures InodeOf(PutInodeOf(disk, l, i, ino), l, j) == if j == i then ino else InodeOf(disk, l, j)
  {
    hide InodeAt, PutInode;
    if j / IPB == i / IPB {
      PutGet(disk[l.inodestart + i / IPB], i % IPB, ino, j % IPB);
      assert j != i ==> j % IPB != i % IPB;
    }
  }

  // What an inode refers to.

  /** The block number in slot n of an inode, or zero. */
  function Entry(disk: seq<Block>, ino: Inode, n: nat): Word
    requires n < SLOTS
  {
    if n <= NDIRECT then ino.addrs[n]
    else if ino.addrs[NDIRECT] == 0 || ino.addrs[NDIRECT] >= |disk| then 0
    else WordAt(disk[ino.addrs[NDIRECT]], n - NDIRECT - 1)
  }

  type Slot = (nat, nat)
  type Owners = map<nat, Slot>

  /** own is the inverse of the block references of all inodes: each referenced block is a data
      block, referenced from one place only. */
  ghost predicate RefsOk(disk: seq<Block>, inodes: seq<Inode>, own: Owners, l: Layout) {
    && (forall i, n :: 0 <= i < |inodes| && 0 <= n < SLOTS ==> RefOk(disk, inodes[i], own, i, n))
    && (forall b :: b in own ==> OwnOk(disk, inodes, own, l, b))
  }

  ghost predicate RefOk(disk: seq<Block>, ino: Inode, own: Owners, i: nat, n: nat)
    requires n < SLOTS
  {
    var b := Entry(disk, ino, n);
    b != 0 ==> b in own && own[b] == (i, n)
  }

  ghost predicate OwnOk(disk: seq<Block>, inodes: seq<Inode>, own: Owners, l: Layout, b: nat)
    requires b in own
  {
    && l.data <= b < l.size
    && own[b].0 < |inodes| && own[b].1 < SLOTS
    && Entry(disk, inodes[own[b].0], own[b].1) == b
  }

  /** The free map has exactly the metadata blocks and the owned blocks. */
  ghost predicate BitsOk(disk: seq<Block>, own: Owners, l: Layout) {
    && l.bmapstart + l.size / BPB < |disk|
    && forall b :: 0 <= b < l.size ==> (BitOf(disk, l, b) <==> b < l.data || b in own)
  }

  ghost predicate BitOf(disk: seq<Block>, l: Layout, b: nat)
    requires b < l.size && l.bmapstart + l.size / BPB < |disk|
  {
    Used(disk, l.bmapstart, b)
  }

  /** The same blocks from the two disks wherever an indirect block is owned. */
  ghost predicate SameIndirect(disk: seq<Block>, disk': seq<Block>, own: Owners) {
    && |disk| == |disk'|
    && forall b :: b in own && own[b].1 == NDIRECT && b < |disk| ==> disk'[b] == disk[b]
  }

  lemma EntryFrame(disk: seq<Block>, disk': seq<Block>, inodes: seq<Inode>, own: Owners, l: Layout, i: nat, n: nat)
    requires RefsOk(disk, inodes, own, l) && SameIndirect(disk, disk', own) && l.size <= |disk|
    requires i < |inodes| && n < SLOTS
    ensures Entry(disk', inodes[i], n) == Entry(disk, inodes[i], n)
  {
    hide WordAt;
    assert RefOk(disk, inodes[i], own, i, NDIRECT);
  }

  lemma RefsFrame(disk: seq<Block>, disk': seq<Block>, inodes: seq<Inode>, own: Owners, l: Layout)
    requires RefsOk(disk, inodes, own, l) && SameIndirect(disk, disk', own) && l.size <= |disk|
    ensures RefsOk(disk', inodes, own, l)
  {
    forall i, n | 0 <= i < |inodes| && 0 <= n < SLOTS ensures RefOk(disk', inodes[i], own, i, n) {
      EntryFrame(disk, disk', inodes, own, l, i, n);
      assert RefOk(disk, inodes[i], own, i, n);
    }
    forall b | b in own ensures OwnOk(disk', inodes, own, l, b) {
      assert OwnOk(disk, inodes, own, l, b);
      EntryFrame(disk, disk', inodes, own, l, own[b].0, own[b].1);
    }
  }

  /** A fresh block r goes into the empty slot n <= NDIRECT of inode i. */
  lemma AddBlock(disk: seq<Block>, inodes: seq<Inode>, own: Owners, l: Layout, i: nat, n: nat, r: Word, ino: Inode)
    requires RefsOk(disk, inodes, own, l) && l.size <= |disk| && 0 < l.data
    requires i < |inodes| && n <= NDIRECT && inodes[i].addrs[n] == 0
    requires r !in own && l.data <= r < l.size
    requires n == NDIRECT ==> forall j :: 0 <= j < NINDIRECT ==> WordAt(disk[r], j) == 0
    requires ino == inodes[i].(addrs := inodes[i].addrs[n := r])
    ensures RefsOk(disk, inodes[i := ino], own[r := (i, n)], l)
    ensures forall m :: 0 <= m < SLOTS && m != n ==> Entry(disk, ino, m) == Entry(disk, inodes[i], m)
  {
    hide WordAt;
    var inodes', own' := inodes[i := ino], own[r := (i, n)];
    forall m | 0 <= m < SLOTS && m != n ensures Entry(disk, ino, m) == Entry(disk, inodes[i], m) {
    }
    forall j, m | 0 <= j < |inodes| && 0 <= m < SLOTS ensures RefOk(disk, inodes'[j], own', j, m) {
      assert RefOk(disk, inodes[j], own, j, m);
    }
    forall b | b in own' ensures OwnOk(disk, inodes', own', l, b) {
      if b != r {
        assert OwnOk(disk, inodes, own, l, b);
        assert own[b] == (i, n) ==> Entry(disk, inodes[i], n) == 0;
      }
    }
  }

  /** A fresh block r goes into the empty entry n > NDIRECT of inode i's indirect block. */
  lemma AddEntry(disk: seq<Block>, disk': seq<Block>, inodes: seq<Inode>, own: Owners, l: Layout, i: nat, n: nat,
                 r: Word)
    requires RefsOk(disk, inodes, own, l) && l.size <= |disk| == |disk'| && 0 < l.data
    requires i < |inodes| && NDIRECT < n < SLOTS && 0 < inodes[i].addrs[NDIRECT] < |disk|
    requires Entry(disk, inodes[i], n) == 0
    requires r !in own && l.data <= r < l.size
    requires forall b :: 0 <= b < |disk| && b != inodes[i].addrs[NDIRECT] ==> disk'[b] == disk[b]
    requires var b := inodes[i].addrs[NDIRECT];
      forall j :: 0 <= j < NINDIRECT ==> WordAt(disk'[b], j) == if j == n - NDIRECT - 1 then r else WordAt(disk[b], j)
    ensures RefsOk(disk', inodes, own[r := (i, n)], l)
    ensures forall m :: 0 <= m < SLOTS && m != n ==> Entry(disk', inodes[i], m) == Entry(disk, inodes[i], m)
  {
    hide WordAt;
    var own' := own[r := (i, n)];
    assert RefOk(disk, inodes[i], own, i, NDIRECT);
    forall j, m | 0 <= j < |inodes| && 0 <= m < SLOTS && (j, m) != (i, n)
      ensures Entry(disk', inodes[j], m) == Entry(disk, inodes[j], m)
    {
      assert RefOk(disk, inodes[j], own, j, NDIRECT);
    }
    forall j, m | 0 <= j < |inodes| && 0 <= m < SLOTS ensures RefOk(disk', inodes[j], own', j, m) {
      assert RefOk(disk, inodes[j], own, j, m);
    }
    forall b | b in own' ensures OwnOk(disk', inodes, own', l, b) {
      if b != r {
        assert OwnOk(disk, inodes, own, l, b);
      }
    }
  }

  // Taking references away.

  /** RefsOk, except that the entries of inode i's indirect block below slot hi are no longer owned,
      though the indirect block still lists them. */
  ghost predicate RefsBut(disk: seq<Block>, inodes: seq<Inode>, own: Owners, l: Layout, i: nat, hi: nat) {
    && (forall j, n :: 0 <= j < |inodes| && 0 <= n < SLOTS && !(j == i && NDIRECT < n < hi) ==>
         RefOk(disk, inodes[j], own, j, n))
    && (forall b :: b in own ==> OwnOk(disk, inodes, own, l, b) && !(own[b].0 == i && NDIRECT < own[b].1 < hi))
  }

  /** Slot n < NDIRECT of inode i, holding b, is cleared. */
  lemma DropBlock(disk: seq<Block>, inodes: seq<Inode>, own: Owners, l: Layout, i: nat, n: nat, b: Word, ino: Inode)
    requires RefsOk(disk, inodes, own, l)
    requires i < |inodes| && n < NDIRECT && inodes[i].addrs[n] == b != 0
    requires ino == inodes[i].(addrs := inodes[i].addrs[n := 0])
    ensures b in own && RefsOk(disk, inodes[i := ino], own - {b}, l)
  {
    hide WordAt;
    assert RefOk(disk, inodes[i], own, i, n);
    var inodes', own' := inodes[i := ino], own - {b};
    forall j, m | 0 <= j < |inodes| && 0 <= m < SLOTS ensures RefOk(disk, inodes'[j], own', j, m) {
      assert RefOk(disk, inodes[j], own, j, m);
    }
    forall c | c in own' ensures OwnOk(disk, inodes', own', l, c) {
      assert OwnOk(disk, inodes, own, l, c);
    }
  }

  /** Entry n > NDIRECT of inode i is given up while it stays listed. */
  lemma DropEntry(disk: seq<Block>, disk': seq<Block>, inodes: seq<Inode>, own: Owners, l: Layout, i: nat, n: nat)
    requires RefsBut(disk, inodes, own, l, i, n) && i < |inodes| && NDIRECT < n < SLOTS
    requires SameIndirect(disk, disk', own) && 0 < l.data && l.size <= |disk|
    ensures var b := Entry(disk, inodes[i], n);
      && Entry(disk', inodes[i], n) == b && (b != 0 ==> b in own)
      && RefsBut(disk', inodes, if b != 0 then own - {b as nat} else own, l, i, n + 1)
  {
    hide WordAt;
    var e := Entry(disk, inodes[i], n);
    var own' := if e != 0 then own - {e as nat} else own;
    forall j, m | 0 <= j < |inodes| && 0 <= m < SLOTS ensures Entry(disk', inodes[j], m) == Entry(disk, inodes[j], m) {
      assert RefOk(disk, inodes[j], own, j, NDIRECT);
    }
    assert RefOk(disk, inodes[i], own, i, n);
    forall j, m | 0 <= j < |inodes| && 0 <= m < SLOTS && !(j == i && NDIRECT < m < n + 1)
      ensures RefOk(disk', inodes[j], own', j, m)
    {
      assert RefOk(disk, inodes[j], own, j, m);
    }
    forall c | c in own' ensures OwnOk(disk', inodes, own', l, c) && !(own'[c].0 == i && NDIRECT < own'[c].1 < n + 1) {
      assert OwnOk(disk, inodes, own, l, c);
    }
  }

  /** The indirect block b of inode i goes, after all its entries. */
  lemma DropIndirect(disk: seq<Block>, inodes: seq<Inode>, own: Owners, l: Layout, i: nat, b: Word, ino: Inode)
    requires RefsBut(disk, inodes, own, l, i, SLOTS) && i < |inodes| && inodes[i].addrs[NDIRECT] == b != 0
    requires ino == inodes[i].(addrs := inodes[i].addrs[NDIRECT := 0])
    ensures b in own && RefsOk(disk, inodes[i := ino], own - {b}, l)
  {
    hide WordAt;
    assert RefOk(disk, inodes[i], own, i, NDIRECT);
    var inodes', own' := inodes[i := ino], own - {b};
    forall j, m | 0 <= j < |inodes| && 0 <= m < SLOTS ensures RefOk(disk, inodes'[j], own', j, m) {
      assert !(j == i && NDIRECT < m < SLOTS) ==> RefOk(disk, inodes[j], own, j, m);
    }
    forall c | c in own' ensures OwnOk(disk, inodes', own', l, c) {
      assert OwnOk(disk, inodes, own, l, c);
    }
  }

  /** The free map after block b is given out or given back. */
  lemma BitsMark(disk: seq<Block>, own: Owners, l: Layout, b: nat, own': Owners)
    requires BitsOk(disk, own, l) && l.data <= b < l.size
    requires forall c :: c in own' <==> (c in own || c == b)
    ensures BitsOk(Mark(disk, l.bmapstart, b, true), own', l)
  {
    hide Used;
    forall c | 0 <= c < l.size ensures BitOf(Mark(disk, l.bmapstart, b, true), l, c) <==> c < l.data || c in own' {
      MarkUsed(disk, l.bmapstart, b, true, c);
      assert BitOf(disk, l, c) <==> c < l.data || c in own;
    }
  }

  lemma BitsUnmark(disk: seq<Block>, own: Owners, l: Layout, b: nat)
    requires BitsOk(disk, own, l) && l.data <= b < l.size
    ensures BitsOk(Mark(disk, l.bmapstart, b, false), own - {b}, l)
  {
    hide Used;
    forall c | 0 <= c < l.size
      ensures BitOf(Mark(disk, l.bmapstart, b, false), l, c) <==> c < l.data || c in own - {b}
    {
      MarkUsed(disk, l.bmapstart, b, false, c);
      assert BitOf(disk, l, c) <==> c < l.data || c in own;
    }
  }

  /** The free map lies outside the blocks that change. */
  lemma BitsFrame(disk: seq<Block>, disk': seq<Block>, own: Owners, l: Layout)
    requires BitsOk(disk, own, l) && |disk'| == |disk|
    requires forall b :: l.bmapstart <= b < l.data && b < |disk| ==> disk'[b] == disk[b]
    requires l.bmapstart + l.size / BPB < l.data
    ensures BitsOk(disk', own, l)
  {
    hide BlockBit;
    forall c | 0 <= c < l.size ensures BitOf(disk', l, c) <==> c < l.data || c in own {
      assert BitOf(disk, l, c) <==> c < l.data || c in own;
    }
  }
}
