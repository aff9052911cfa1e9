/**
 The layout that the block and inode layer of kernel/fs.c keeps on disk: the bitmap
 of blocks in use, and the direct and indirect block numbers of each inode.
 */
module FsLayout {
  import opened Bytes

  type Disk = seq<Block>

  const NDIRECT := 12
  const NINDIRECT := WORDS
  const MAXFILE := NDIRECT + NINDIRECT
  const BPB := BSIZE * 8

  // ---- Bits of a byte ----

  // (x & (1 << k)) != 0
  predicate BitOf(x: nat, k: nat) { if k == 0 then x % 2 == 1 else BitOf(x / 2, k - 1) }

  // x | (1 << k), or x & ~(1 << k)
  function PutBit(x: nat, k: nat, on: bool): nat {
    if k == 0 then x / 2 * 2 + (if on then 1 else 0) else PutBit(x / 2, k - 1, on) * 2 + x % 2
  }

  /** Storing a bit changes that bit and no other, and stays within the byte. */
  lemma {:induction false} PutBitAt(x: nat, k: nat, on: bool, j: nat)
    ensures BitOf(PutBit(x, k, on), j) == if j == k then on else BitOf(x, j)
  {
    if k > 0 && j > 0 {
      PutBitAt(x / 2, k - 1, on, j - 1);
    }
  }

  lemma {:induction false} PutBitFits(x: nat, k: nat, on: bool, width: nat)
    requires k < width && x < Pow2(width)
    ensures PutBit(x, k, on) < Pow2(width)
  {
    if k > 0 {
      PutBitFits(x / 2, k - 1, on, width - 1);
    }
  }

  function Pow2(n: nat): nat { if n == 0 then 1 else 2 * Pow2(n - 1) }

  lemma ByteBits(x: byte, k: nat, on: bool)
    requires k < 8
    ensures PutBit(x, k, on) < 256
  {
    assert Pow2(8) == 256 by {
      assert Pow2(4) == 16;
    }
    PutBitFits(x, k, on, 8);
  }

  function ZeroBlock(): (b: Block)
    ensures forall i :: 0 <= i < BSIZE ==> b[i] == 0
  {
    seq(BSIZE, _ => 0)
  }

  // ---- The bitmap ----

  // What the file system takes from the superblock; meta is where the data blocks start.
  datatype Super = Super(size: nat, meta: nat, bmapstart: nat, inodestart: nat, ninodes: nat) {
    predicate Valid() {
      && 0 < meta <= size < 0x8000_0000
      && bmapstart + (size - 1) / BPB < meta
      && inodestart + ninodes / 16 < meta
      && (forall i :: 0 <= i < ninodes ==> IBlock(i) < bmapstart || IBlock(i) > BBlock(size - 1))
    }

    // BBLOCK
    function BBlock(b: nat): nat { b / BPB + bmapstart }

    // IBLOCK: sixteen inodes to a block
    function IBlock(i: nat): nat { i / 16 + inodestart }
  }

  predicate Bit(sb: Super, data: Disk, b: nat)
    requires sb.Valid() && |data| == sb.size && b < sb.size
  {
    BitOf(data[sb.BBlock(b)][b % BPB / 8], b % BPB % 8)
  }

  function PutBlock(data: Disk, b: nat, block: Block): (r: Disk)
    requires b < |data|
    ensures |r| == |data| && forall c :: 0 <= c < |data| ==> r[c] == if c == b then block else data[c]
  {
    data[b := block]
  }

  function WithByte(block: Block, k: nat, x: byte): (r: Block)
    requires k < BSIZE
    ensures forall j :: 0 <= j < BSIZE ==> r[j] == if j == k then x else block[j]
  {
    block[k := x]
  }

  /** The bitmap block of b with b's bit stored. */
  function BitBlock(sb: Super, data: Disk, b: nat, on: bool): Block
    requires sb.Valid() && |data| == sb.size && b < sb.size
  {
    var block := data[sb.BBlock(b)];
    ByteBits(block[b % BPB / 8], b % BPB % 8, on);
    WithByte(block, b % BPB / 8, PutBit(block[b % BPB / 8], b % BPB % 8, on))
  }

  function SetBit(sb: Super, data: Disk, b: nat, on: bool): Disk
    requires sb.Valid() && |data| == sb.size && b < sb.size
  {
    PutBlock(data, sb.BBlock(b), BitBlock(sb, data, b, on))
  }

  /** Storing the bit of one block changes no other block's. */
  lemma BitStored(sb: Super, data: Disk, b: nat, on: bool, c: nat)
    requires sb.Valid() && |data| == sb.size && b < sb.size && c < sb.size
    ensures Bit(sb, SetBit(sb, data, b, on), c) == if c == b then on else Bit(sb, data, c)
  {
    var k := b % BPB;
    if sb.BBlock(c) == sb.BBlock(b) && c % BPB / 8 == k / 8 {
      PutBitAt(data[sb.BBlock(b)][k / 8], k % 8, on, c % BPB % 8);
      SplitBlockNumber(b);
      SplitBlockNumber(c);
    }
  }

  lemma SplitBlockNumber(b: nat)
    ensures b == b / BPB * BPB + (b % BPB / 8 * 8 + b % BPB % 8)
  {}

  // ---- Inodes ----

  datatype Inode = Inode(size: nat, addrs: seq<nat>)

  ghost predicate Sized(sb: Super, data: Disk, inodes: seq<Inode>) {
    sb.Valid() && |data| == sb.size && |inodes| == sb.ninodes &&
    forall i :: 0 <= i < |inodes| ==> |inodes[i].addrs| == NDIRECT + 1
  }

  // Where a block number can stand: a direct address, the address of the indirect block, an entry of it.
  datatype Slot = Direct(i: nat, k: nat) | Indirect(i: nat) | Entry(i: nat, j: nat)

  /** The block number in a slot, 0 if it has none. */
  ghost function AddrOf(data: Disk, inodes: seq<Inode>, slot: Slot): nat {
    if slot.i >= |inodes| || |inodes[slot.i].addrs| != NDIRECT + 1 then 0
    else
      match slot
      case Direct(i, k) => if k < NDIRECT then inodes[i].addrs[k] else 0
      case Indirect(i) => inodes[i].addrs[NDIRECT]
      case Entry(i, j) =>
        var ind := inodes[i].addrs[NDIRECT];
        if 0 < ind < |data| && j < NINDIRECT then Word(data[ind], j) else 0
  }

  ghost predicate Uses(data: Disk, inodes: seq<Inode>, slot: Slot, b: nat) {
    b != 0 && AddrOf(data, inodes, slot) == b
  }

  /** Every block in use by a file is in exactly one slot of one inode, which owner records. */
  ghost predicate Owned(sb: Super, data: Disk, inodes: seq<Inode>, owner: map<nat, Slot>) {
    && (forall slot, b :: Uses(data, inodes, slot, b) <==> b in owner && owner[b] == slot)
    && (forall b :: b in owner ==> sb.meta <= b < sb.size)
  }

  /** The bitmap marks the metadata and the blocks of used, and nothing else. */
  ghost predicate Marked(sb: Super, data: Disk, used: set<nat>)
    requires sb.Valid() && |data| == sb.size
  {
    && (forall b :: 0 <= b < sb.size ==> (Bit(sb, data, b) <==> b < sb.meta || b in used))
    && (forall b :: b in used ==> sb.meta <= b < sb.size)
  }

  /** The address of block bn of a file. */
  ghost function BlockOf(data: Disk, inodes: seq<Inode>, i: nat, bn: nat): nat {
    AddrOf(data, inodes, if bn < NDIRECT then Direct(i, bn) else Entry(i, bn - NDIRECT))
  }

  // ---- What storing does to the slots ----

  /** Changing blocks that are no file's indirect block changes no slot. */
  lemma SlotsKept(sb: Super, data: Disk, data': Disk, inodes: seq<Inode>, owner: map<nat, Slot>)
    requires Sized(sb, data, inodes) && |data'| == |data| && Owned(sb, data, inodes, owner)
    requires forall b :: b in owner && owner[b].Indirect? ==> data'[b] == data[b]
    ensures Owned(sb, data', inodes, owner)
    ensures forall slot :: AddrOf(data', inodes, slot) == AddrOf(data, inodes, slot)
  {
    forall slot ensures AddrOf(data', inodes, slot) == AddrOf(data, inodes, slot) {
      if slot.Entry? && slot.i < |inodes| && AddrOf(data, inodes, Indirect(slot.i)) != 0 {
        assert Uses(data, inodes, Indirect(slot.i), AddrOf(data, inodes, Indirect(slot.i)));
      }
    }
    forall slot, b ensures Uses(data', inodes, slot, b) <==> b in owner && owner[b] == slot {
      assert Uses(data', inodes, slot, b) <==> Uses(data, inodes, slot, b);
    }
  }

  /** A block not in use goes into an empty slot. */
  lemma SlotFilled(sb: Super, data: Disk, inodes: seq<Inode>, owner: map<nat, Slot>,
                   data': Disk, inodes': seq<Inode>, slot: Slot, b: nat)
    requires Owned(sb, data, inodes, owner) && sb.Valid() && sb.meta <= b < sb.size && b !in owner
    requires AddrOf(data, inodes, slot) == 0 && AddrOf(data', inodes', slot) == b
    requires forall s :: s != slot ==> AddrOf(data', inodes', s) == AddrOf(data, inodes, s)
    ensures Owned(sb, data', inodes', owner[b := slot])
  {
    var owner' := owner[b := slot];
    forall s, c ensures Uses(data', inodes', s, c) <==> c in owner' && owner'[c] == s {
      assert Uses(data', inodes', s, c) <==> Uses(data, inodes, s, c) || (s == slot && c == b);
    }
  }

  /** A slot is emptied. */
  lemma SlotEmptied(sb: Super, data: Disk, inodes: seq<Inode>, owner: map<nat, Slot>,
                    data': Disk, inodes': seq<Inode>, slot: Slot)
    requires Owned(sb, data, inodes, owner) && AddrOf(data', inodes', slot) == 0
    requires forall s :: s != slot ==> AddrOf(data', inodes', s) == AddrOf(data, inodes, s)
    ensures Owned(sb, data', inodes', owner - {AddrOf(data, inodes, slot)})
  {
    var b := AddrOf(data, inodes, slot);
    var owner' := owner - {b};
    assert b != 0 ==> Uses(data, inodes, slot, b);
    forall s, c ensures Uses(data', inodes', s, c) <==> c in owner' && owner'[c] == s {
      assert Uses(data', inodes', s, c) <==> Uses(data, inodes, s, c) && s != slot;
    }
  }
}
