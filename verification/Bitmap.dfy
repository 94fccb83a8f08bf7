/** The free map: one bit per disk block, laid over the blocks from bmapstart on (kernel/fs.c,
    include/fs.h). */
module Bitmap {

  import opened Blocks

  const BPB: nat := 8192

  /** x & (1 << k) is not zero. */
  function Bit(x: nat, k: nat): bool {
    if k == 0 then x % 2 == 1 else Bit(x / 2, k - 1)
  }

  /** x | (1 << k). */
  function OrBit(x: nat, k: nat): nat {
    if k == 0 then x / 2 * 2 + 1 else 2 * OrBit(x / 2, k - 1) + x % 2
  }

  /** x & ~(1 << k). */
  function ClearBit(x: nat, k: nat): nat {
    if k == 0 then x / 2 * 2 else 2 * ClearBit(x / 2, k - 1) + x % 2
  }

  lemma {:induction false} BitOr(x: nat, k: nat, j: nat)
    ensures Bit(OrBit(x, k), j) == (j == k || Bit(x, j))
  {
    if k != 0 {
      assert OrBit(x, k) / 2 == OrBit(x / 2, k - 1);
      if j != 0 {
        BitOr(x / 2, k - 1, j - 1);
      }
    }
  }

  lemma {:induction false} BitClear(x: nat, k: nat, j: nat)
    ensures Bit(ClearBit(x, k), j) == (j != k && Bit(x, j))
  {
    if k != 0 {
      assert ClearBit(x, k) / 2 == ClearBit(x / 2, k - 1);
      if j != 0 {
        BitClear(x / 2, k - 1, j - 1);
      }
    }
  }

  function Pow2(n: nat): nat {
    if n == 0 then 1 else 2 * Pow2(n - 1)
  }

  lemma {:induction false} StaysSmall(x: nat, k: nat, n: nat)
    requires k < n && x < Pow2(n)
    ensures OrBit(x, k) < Pow2(n) && ClearBit(x, k) < Pow2(n)
  {
    assert x / 2 < Pow2(n - 1);
    if k != 0 {
      StaysSmall(x / 2, k - 1, n - 1);
    }
  }

  function SetIn(x: Byte, k: nat, on: bool): (r: Byte)
    requires k < 8
    ensures forall j :: 0 <= j < 8 ==> Bit(r, j) == if j == k then on else Bit(x, j)
  {
    assert Pow2(8) == 256 by {
      assert Pow2(4) == 16;
    }
    StaysSmall(x, k, 8);
    assert forall j :: 0 <= j < 8 ==> Bit(OrBit(x, k), j) == (j == k || Bit(x, j)) by {
      forall j | 0 <= j < 8 ensures Bit(OrBit(x, k), j) == (j == k || Bit(x, j)) {
        BitOr(x, k, j);
      }
    }
    assert forall j :: 0 <= j < 8 ==> Bit(ClearBit(x, k), j) == (j != k && Bit(x, j)) by {
      forall j | 0 <= j < 8 ensures Bit(ClearBit(x, k), j) == (j != k && Bit(x, j)) {
        BitClear(x, k, j);
      }
    }
    if on then OrBit(x, k) else ClearBit(x, k)
  }

  /** Bit number bi of a bitmap block. */
  function BlockBit(b: Block, bi: nat): bool
    requires bi < BPB
  {
    Bit(b[bi / 8], bi % 8)
  }

  function SetBlockBit(b: Block, bi: nat, on: bool): (r: Block)
    requires bi < BPB
    ensures forall c :: 0 <= c < BPB ==> BlockBit(r, c) == if c == bi then on else BlockBit(b, c)
  {
    hide Bit, SetIn;
    b[bi / 8 := SetIn(b[bi / 8], bi % 8, on)]
  }

  /** The free map says that block b is in use. */
  predicate Used(disk: seq<Block>, start: nat, b: nat)
    requires start + b / BPB < |disk|
  {
    BlockBit(disk[start + b / BPB], b % BPB)
  }

  function Mark(disk: seq<Block>, start: nat, b: nat, on: bool): (r: seq<Block>)
    requires start + b / BPB < |disk|
    ensures |r| == |disk|
  {
    disk[start + b / BPB := SetBlockBit(disk[start + b / BPB], b % BPB, on)]
  }

  lemma MarkUsed(disk: seq<Block>, start: nat, b: nat, on: bool, c: nat)
    requires start + b / BPB < |disk| && start + c / BPB < |disk|
    ensures Used(Mark(disk, start, b, on), start, c) == if c == b then on else Used(disk, start, c)
  {
    hide BlockBit, SetBlockBit;
    if c != b && c / BPB == b / BPB {
      assert c % BPB != b % BPB;
    }
  }
}
