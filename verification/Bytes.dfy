/**
 Fixed-size blocks of bytes and the little-endian 32-bit words stored in them.
 The log header (kernel/log.c) and the indirect block (kernel/fs.c) are both
 blocks that the kernel reads and writes through a `uint *`.
 */
module Bytes {

  type byte = x: int | 0 <= x < 256

  const WORD := 0x1_0000_0000

  type word = x: int | 0 <= x < WORD

  // BSIZE, kernel/fs.h
  const BSIZE := 1024

  type Block = b: seq<byte> | |b| == BSIZE witness seq(BSIZE, _ => 0)

  const ZERO: Block := seq(BSIZE, _ => 0)

  // Number of words in a block.
  const WORDS := BSIZE / 4

  /** The k-th little-endian word of a block. */
  function Word(b: Block, k: nat): (w: word)
    requires k < WORDS
  {
    var b0: int, b1: int, b2: int, b3: int := b[4 * k], b[4 * k + 1], b[4 * k + 2], b[4 * k + 3];
    b0 + 0x100 * b1 + 0x1_0000 * b2 + 0x100_0000 * b3
  }

  /** The block after storing w as the k-th word. */
  function PutWord(b: Block, k: nat, w: word): (r: Block)
    requires k < WORDS
    ensures Word(r, k) == w
    ensures forall j: nat :: j < WORDS && j != k ==> Word(r, j) == Word(b, j)
  {
    var r := b[4 * k := w % 0x100]
              [4 * k + 1 := w / 0x100 % 0x100]
              [4 * k + 2 := w / 0x1_0000 % 0x100]
              [4 * k + 3 := w / 0x100_0000];
    SplitWord(w);
    r
  }

  /** A word is the sum of its four bytes. */
  lemma SplitWord(w: word)
    ensures w == w % 0x100 + 0x100 * (w / 0x100 % 0x100) + 0x1_0000 * (w / 0x1_0000 % 0x100)
                 + 0x100_0000 * (w / 0x100_0000)
    ensures w / 0x100_0000 < 256
  {
    var a := w / 0x100;
    var b := a / 0x100;
    assert b == w / 0x1_0000;
    assert b / 0x100 == w / 0x100_0000;
    assert w == w % 0x100 + 0x100 * a;
    assert a == a % 0x100 + 0x100 * b;
    assert b == b % 0x100 + 0x100 * (b / 0x100);
  }

  /** Some bytes with new ones stored at off. */
  function Spliced(page: seq<byte>, off: nat, bytes: seq<byte>): (r: seq<byte>)
    requires off + |bytes| <= |page|
    ensures |r| == |page|
    ensures forall i :: 0 <= i < |page| ==> r[i] == if off <= i < off + |bytes| then bytes[i - off] else page[i]
  {
    page[..off] + bytes + page[off + |bytes|..]
  }
}
