/** Disk blocks as byte sequences, and the 32-bit little-endian words laid over them
    (the log header and indirect blocks are read and written through such a view). */
module Blocks {

  const BSIZE: nat := 1024
  const WORDS: nat := 256

  type Byte = x: int | 0 <= x < 256
  type Word = x: int | 0 <= x < 0x1_0000_0000
  type Block = b: seq<Byte> | |b| == BSIZE witness seq(BSIZE, _ => 0)

  function Little(b0: int, b1: int, b2: int, b3: int): int {
    b0 + 0x100 * b1 + 0x1_0000 * b2 + 0x100_0000 * b3
  }

  function WordAt(b: Block, i: nat): (w: Word)
    requires i < WORDS
  {
    Little(b[4 * i], b[4 * i + 1], b[4 * i + 2], b[4 * i + 3])
  }

  function WordBytes(w: Word): (s: seq<Byte>)
    ensures |s| == 4
    ensures w == Little(s[0], s[1], s[2], s[3])
  {
    var q1 := w / 0x100;
    var q2 := q1 / 0x100;
    [w % 0x100, q1 % 0x100, q2 % 0x100, q2 / 0x100]
  }

  /** The block with word i overwritten. */
  function SetWord(b: Block, i: nat, w: Word): (r: Block)
    requires i < WORDS
    ensures forall j :: 0 <= j < WORDS ==> WordAt(r, j) == if j == i then w else WordAt(b, j)
  {
    var r: Block := b[..4 * i] + WordBytes(w) + b[4 * i + 4..];
    assert forall j :: 0 <= j < BSIZE ==> r[j] == if 4 * i <= j < 4 * i + 4 then WordBytes(w)[j - 4 * i] else b[j];
    r
  }

  function Zeroed(): (b: Block)
    ensures forall i :: 0 <= i < BSIZE ==> b[i] == 0
  {
    seq(BSIZE, _ => 0)
  }
}
