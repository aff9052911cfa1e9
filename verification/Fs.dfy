/**
 Block allocation and inode contents of kernel/fs.c, over the logical disk that
 bread() and log_write() give them.
 */
module Fs {
  import opened Bytes
  import opened FsLayout

  /** A disk in which balloc(b) has marked and zeroed b. */
  function Allocated(sb: Super, data: Disk, b: nat): Disk
    requires sb.Valid() && |data| == sb.size && b < sb.size
  {
    PutBlock(SetBit(sb, data, b, true), b, ZeroBlock())
  }

  lemma MarkedAlloc(sb: Super, data: Disk, used: set<nat>, b: nat)
    requires sb.Valid() && |data| == sb.size && Marked(sb, data, used) && sb.meta <= b < sb.size
    ensures Marked(sb, Allocated(sb, data, b), used + {b})
  {
    var data' := Allocated(sb, data, b);
    forall c | 0 <= c < sb.size ensures Bit(sb, data', c) <==> c < sb.meta || c in used + {b} {
      BitStored(sb, data, b, true, c);
      BitmapBelow(sb, c);
    }
  }

  lemma MarkedFree(sb: Super, data: Disk, used: set<nat>, b: nat)
    requires sb.Valid() && |data| == sb.size && Marked(sb, data, used) && sb.meta <= b < sb.size
    ensures Marked(sb, SetBit(sb, data, b, false), used - {b})
  {
    var data' := SetBit(sb, data, b, false);
    forall c | 0 <= c < sb.size ensures Bit(sb, data', c) <==> c < sb.meta || c in used - {b} {
      BitStored(sb, data, b, false, c);
    }
  }

  /** The bitmap's own blocks are metadata. */
  lemma BitmapBelow(sb: Super, c: nat)
    requires sb.Valid() && c < sb.size
    ensures sb.bmapstart <= sb.BBlock(c) <= sb.BBlock(sb.size - 1) < sb.meta
  {
    assert c / BPB <= (sb.size - 1) / BPB;
  }

  lemma ShapedSizes(sb: Super, data: Disk, inodes: seq<Inode>)
    requires Sized(sb, data, inodes)
    ensures sb.Valid() && |data| == sb.size && |inodes| == sb.ninodes
  {}

  lemma SizedBits(sb: Super, data: Disk, inodes: seq<Inode>, b: nat)
    requires Sized(sb, data, inodes) && b < sb.size
    ensures sb.Valid() && |data| == sb.size && sb.BBlock(b) < sb.size
  {
    BitmapBelow(sb, b);
  }

  /** Every block below n is in use. */
  ghost predicate AllSet(sb: Super, data: Disk, n: nat)
    requires sb.Valid() && |data| == sb.size && n <= sb.size
  {
    forall c: nat :: c < n ==> Bit(sb, data, c)
  }

  ghost predicate Full(sb: Super, data: Disk)
    requires sb.Valid() && |data| == sb.size
  {
    AllSet(sb, data, sb.size)
  }

  lemma NoneSet(sb: Super, data: Disk)
    requires sb.Valid() && |data| == sb.size
    ensures AllSet(sb, data, 0)
  {}

  lemma OneMoreSet(sb: Super, data: Disk, n: nat)
    requires sb.Valid() && |data| == sb.size && n < sb.size && AllSet(sb, data, n) && Bit(sb, data, n)
    ensures AllSet(sb, data, n + 1)
  {}

  lemma DivBpb(k: nat, bi: nat)
    requires bi < BPB
    ensures (k * BPB + bi) / BPB == k && (k * BPB + bi) % BPB == bi
  {}

  /** Where the loops of balloc() find the bit of block b + bi. */
  lemma BitAt(sb: Super, data: Disk, k: nat, bi: nat)
    requires sb.Valid() && |data| == sb.size && bi < BPB && k * BPB + bi < sb.size
    ensures sb.BBlock(k * BPB) < sb.size
    ensures Bit(sb, data, k * BPB + bi) == BitOf(data[sb.BBlock(k * BPB)][bi / 8], bi % 8)
  {
    var b := k * BPB;
    DivBpb(k, bi);
    DivBpb(k, 0);
    BitmapBelow(sb, b);
  }

  lemma FreeBlock(sb: Super, data: Disk, used: set<nat>, b: nat)
    requires sb.Valid() && |data| == sb.size && Marked(sb, data, used) && b < sb.size && !Bit(sb, data, b)
    ensures sb.meta <= b && b !in used
  {}

  lemma UsedMarked(sb: Super, data: Disk, used: set<nat>, b: nat)
    requires sb.Valid() && |data| == sb.size && Marked(sb, data, used) && b in used
    ensures sb.meta <= b < sb.size && Bit(sb, data, b)
  {}

  lemma AllocShaped(sb: Super, data: Disk, inodes: seq<Inode>, owner: map<nat, Slot>, used: set<nat>, b: nat)
    requires Sized(sb, data, inodes) && Owned(sb, data, inodes, owner) && Marked(sb, data, used)
    requires sb.meta <= b < sb.size && b !in owner
    ensures var data' := Allocated(sb, data, b);
            && Sized(sb, data', inodes) && Owned(sb, data', inodes, owner) && Marked(sb, data', used + {b})
            && forall slot :: AddrOf(data', inodes, slot) == AddrOf(data, inodes, slot)
  {
    MarkedAlloc(sb, data, used, b);
    BitmapBelow(sb, b);
    SlotsKept(sb, data, Allocated(sb, data, b), inodes, owner);
  }

  lemma FreeShaped(sb: Super, data: Disk, inodes: seq<Inode>, owner: map<nat, Slot>, used: set<nat>, b: nat)
    requires Sized(sb, data, inodes) && Owned(sb, data, inodes, owner) && Marked(sb, data, used)
    requires sb.meta <= b < sb.size
    ensures var data' := SetBit(sb, data, b, false);
            && Sized(sb, data', inodes) && Owned(sb, data', inodes, owner) && Marked(sb, data', used - {b})
            && forall slot :: AddrOf(data', inodes, slot) == AddrOf(data, inodes, slot)
  {
    MarkedFree(sb, data, used, b);
    BitmapBelow(sb, b);
    SlotsKept(sb, data, SetBit(sb, data, b, false), inodes, owner);
  }

  // ---- Slots and files ----

  function WithAddr(inodes: seq<Inode>, i: nat, k: nat, b: nat): seq<Inode>
    requires i < |inodes| && k < |inodes[i].addrs|
  {
    inodes[i := inodes[i].(addrs := inodes[i].addrs[k := b])]
  }

  lemma ZeroEntries(k: nat)
    requires k < NINDIRECT
    ensures Word(ZeroBlock(), k) == 0
  {}

  /** Filling an empty direct or indirect address with a zeroed block changes that slot alone. */
  lemma AddrPut(data: Disk, inodes: seq<Inode>, i: nat, k: nat, b: nat)
    requires i < |inodes| && |inodes[i].addrs| == NDIRECT + 1 && k <= NDIRECT && inodes[i].addrs[k] == 0
    requires 0 < b < |data| && data[b] == ZeroBlock()
    ensures var slot := if k < NDIRECT then Direct(i, k) else Indirect(i);
            && AddrOf(data, inodes, slot) == 0 && AddrOf(data, WithAddr(inodes, i, k, b), slot) == b
            && forall s :: s != slot ==> AddrOf(data, WithAddr(inodes, i, k, b), s) == AddrOf(data, inodes, s)
  {
    forall j: nat | j < NINDIRECT ensures Word(data[b], j) == 0 {
      ZeroEntries(j);
    }
  }

  /** No slot has lost or changed its block, and no data block in use has changed. */
  ghost predicate Kept(data: Disk, inodes: seq<Inode>, owner: map<nat, Slot>, data': Disk, inodes': seq<Inode>) {
    && |data'| == |data| && |inodes'| == |inodes|
    && (forall i :: 0 <= i < |inodes| ==> inodes'[i].size == inodes[i].size)
    && (forall slot :: AddrOf(data, inodes, slot) != 0 ==> AddrOf(data', inodes', slot) == AddrOf(data, inodes, slot))
    && (forall b :: b in owner && b < |data| && !owner[b].Indirect? ==> data'[b] == data[b])
  }

  lemma KeptSlots(data: Disk, inodes: seq<Inode>, owner: map<nat, Slot>, data': Disk, inodes': seq<Inode>, slot: Slot)
    requires |data'| == |data| && |inodes'| == |inodes|
    requires forall i :: 0 <= i < |inodes| ==> inodes'[i].size == inodes[i].size
    requires AddrOf(data, inodes, slot) == 0
    requires forall s :: s != slot ==> AddrOf(data', inodes', s) == AddrOf(data, inodes, s)
    requires forall b :: b in owner && b < |data| && !owner[b].Indirect? ==> data'[b] == data[b]
    ensures Kept(data, inodes, owner, data', inodes')
  {}

  lemma KeptMore(data: Disk, inodes: seq<Inode>, owner: map<nat, Slot>, data': Disk, inodes': seq<Inode>,
                 owner': map<nat, Slot>, data'': Disk, inodes'': seq<Inode>)
    requires Kept(data, inodes, owner, data', inodes') && Kept(data', inodes', owner', data'', inodes'')
    requires Extended(owner, owner')
    ensures Kept(data, inodes, owner, data'', inodes'')
  {}

  lemma KeptSelf(data: Disk, inodes: seq<Inode>, owner: map<nat, Slot>)
    ensures Kept(data, inodes, owner, data, inodes)
  {}

  lemma AllocKept(sb: Super, data: Disk, inodes: seq<Inode>, owner: map<nat, Slot>, b: nat)
    requires Sized(sb, data, inodes) && Owned(sb, data, inodes, owner) && sb.meta <= b < sb.size && b !in owner
    ensures Kept(data, inodes, owner, Allocated(sb, data, b), inodes)
    ensures Allocated(sb, data, b)[b] == ZeroBlock() && |Allocated(sb, data, b)| == |data|
    ensures forall slot :: AddrOf(Allocated(sb, data, b), inodes, slot) == AddrOf(data, inodes, slot)
  {
    BitmapBelow(sb, b);
    SlotsKept(sb, data, Allocated(sb, data, b), inodes, owner);
  }

  lemma NoHolesKept(data: Disk, inodes: seq<Inode>, owner: map<nat, Slot>, data': Disk, inodes': seq<Inode>)
    requires NoHoles(data, inodes) && Kept(data, inodes, owner, data', inodes')
    ensures NoHoles(data', inodes')
  {
    forall i: nat, bn: nat | i < |inodes'| && bn * BSIZE < inodes'[i].size ensures HasBlock(data', inodes', i, bn) {
      assert HasBlock(data, inodes, i, bn);
    }
  }

  /** Storing a block number in an empty entry of an indirect block changes that slot alone. */
  lemma EntryPut(sb: Super, data: Disk, inodes: seq<Inode>, owner: map<nat, Slot>, i: nat, j: nat, b: nat)
    requires Sized(sb, data, inodes) && Owned(sb, data, inodes, owner) && i < |inodes| && j < NINDIRECT && b < sb.size
    requires inodes[i].addrs[NDIRECT] != 0 && AddrOf(data, inodes, Entry(i, j)) == 0
    ensures var ind := inodes[i].addrs[NDIRECT];
            && ind in owner && owner[ind] == Indirect(i) && sb.meta <= ind < sb.size
            && var data' := PutBlock(data, ind, PutWord(data[ind], j, b));
            && AddrOf(data', inodes, Entry(i, j)) == b
            && forall s :: s != Entry(i, j) ==> AddrOf(data', inodes, s) == AddrOf(data, inodes, s)
  {
    var ind := inodes[i].addrs[NDIRECT];
    assert Uses(data, inodes, Indirect(i), ind);
    var data' := PutBlock(data, ind, PutWord(data[ind], j, b));
    forall s | s != Entry(i, j) ensures AddrOf(data', inodes, s) == AddrOf(data, inodes, s) {
      if s.Entry? && s.i < |inodes| && inodes[s.i].addrs[NDIRECT] == ind {
        assert Uses(data, inodes, Indirect(s.i), ind);
      }
    }
  }

  lemma BitmapSame(sb: Super, data: Disk, used: set<nat>, b: nat, block: Block)
    requires sb.Valid() && |data| == sb.size && Marked(sb, data, used) && sb.meta <= b < sb.size
    ensures Marked(sb, PutBlock(data, b, block), used)
  {
    forall c: nat | c < sb.size ensures Bit(sb, PutBlock(data, b, block), c) == Bit(sb, data, c) {
      BitmapBelow(sb, c);
    }
  }

  predicate IsBitmap(sb: Super, b: nat)
    requires sb.Valid()
  {
    sb.bmapstart <= b <= sb.BBlock(sb.size - 1)
  }

  function NonZero(b: nat): set<nat> { if b == 0 then {} else {b} }

  /** What an operation may have logged besides bitmap blocks. */
  ghost predicate LoggedOnly(sb: Super, logged: set<nat>, logged': set<nat>, more: set<nat>)
    requires sb.Valid()
  {
    forall b :: b in logged' ==> b in logged || b in more || IsBitmap(sb, b)
  }

  ghost predicate Extended(owner: map<nat, Slot>, owner': map<nat, Slot>) {
    forall b :: b in owner ==> b in owner' && owner'[b] == owner[b]
  }

  /** A block number in a slot is a data block's. */
  lemma BlockThere(sb: Super, data: Disk, inodes: seq<Inode>, owner: map<nat, Slot>, slot: Slot)
    requires Owned(sb, data, inodes, owner)
    ensures var b := AddrOf(data, inodes, slot); b != 0 ==> b in owner && owner[b] == slot && sb.meta <= b < sb.size
  {
    assert AddrOf(data, inodes, slot) != 0 ==> Uses(data, inodes, slot, AddrOf(data, inodes, slot));
  }

  /** Every block of a file below its size is there. */
  ghost predicate NoHoles(data: Disk, inodes: seq<Inode>) {
    forall i: nat, bn: nat :: i < |inodes| && bn * BSIZE < inodes[i].size ==> HasBlock(data, inodes, i, bn)
  }

  ghost predicate HasBlock(data: Disk, inodes: seq<Inode>, i: nat, bn: nat) {
    bn < MAXFILE && BlockOf(data, inodes, i, bn) != 0
  }

  // ---- Files as byte sequences ----

  /** The byte of file i at pos, whether or not its size reaches that far. */
  ghost function FileByte(data: Disk, inodes: seq<Inode>, i: nat, pos: nat): byte {
    var b := BlockOf(data, inodes, i, pos / BSIZE);
    if 0 < b < |data| then data[b][pos % BSIZE] else 0
  }

  ghost function Contents(data: Disk, inodes: seq<Inode>, i: nat): (c: seq<byte>)
    requires i < |inodes|
    ensures |c| == inodes[i].size && forall pos: nat :: pos < |c| ==> c[pos] == FileByte(data, inodes, i, pos)
  {
    seq(inodes[i].size, pos requires pos >= 0 => FileByte(data, inodes, i, pos))
  }

  lemma DivBsize(pos: nat, size: nat)
    requires pos < size
    ensures pos / BSIZE * BSIZE < size
  {}

  /** A file's block is a data block, recorded as such. */
  lemma DataBlock(sb: Super, data: Disk, inodes: seq<Inode>, owner: map<nat, Slot>, i: nat, bn: nat)
    requires Owned(sb, data, inodes, owner) && HasBlock(data, inodes, i, bn)
    ensures var b := BlockOf(data, inodes, i, bn); b in owner && !owner[b].Indirect? && sb.meta <= b < sb.size
  {
    BlockThere(sb, data, inodes, owner, if bn < NDIRECT then Direct(i, bn) else Entry(i, bn - NDIRECT));
  }

  lemma FileBlock(sb: Super, data: Disk, inodes: seq<Inode>, owner: map<nat, Slot>, i: nat, pos: nat)
    requires Owned(sb, data, inodes, owner) && NoHoles(data, inodes) && i < |inodes| && pos < inodes[i].size
    ensures HasBlock(data, inodes, i, pos / BSIZE)
    ensures var b := BlockOf(data, inodes, i, pos / BSIZE); b in owner && sb.meta <= b < sb.size
  {
    DivBsize(pos, inodes[i].size);
    assert HasBlock(data, inodes, i, pos / BSIZE);
    DataBlock(sb, data, inodes, owner, i, pos / BSIZE);
  }

  /** A byte that was on some block is still there and the same. */
  ghost predicate KeptByte(data: Disk, inodes: seq<Inode>, data': Disk, inodes': seq<Inode>, j: nat, p: nat) {
    HasBlock(data, inodes, j, p / BSIZE) ==>
      HasBlock(data', inodes', j, p / BSIZE) && FileByte(data', inodes', j, p) == FileByte(data, inodes, j, p)
  }

  /** File i has on a block of its own the byte at p of bytes stored from off on. */
  ghost predicate HasByte(data: Disk, inodes: seq<Inode>, i: nat, off: nat, bytes: seq<byte>, p: nat)
    requires off <= p < off + |bytes|
  {
    HasBlock(data, inodes, i, p / BSIZE) && FileByte(data, inodes, i, p) == bytes[p - off]
  }

  /** File i has bytes stored from off on, on blocks of its own, and no other byte of any file has changed. */
  ghost predicate Changed(data: Disk, inodes: seq<Inode>, data': Disk, inodes': seq<Inode>, i: nat, off: nat,
                          bytes: seq<byte>) {
    && |inodes'| == |inodes| && (forall j :: 0 <= j < |inodes| ==> inodes'[j].size == inodes[j].size)
    && (forall p: nat :: off <= p < off + |bytes| ==> HasByte(data', inodes', i, off, bytes, p))
    && (forall j: nat, p: nat :: j < |inodes| && !(j == i && off <= p < off + |bytes|) ==>
        KeptByte(data, inodes, data', inodes', j, p))
  }

  lemma ChangedMore(data: Disk, inodes: seq<Inode>, data1: Disk, inodes1: seq<Inode>, data2: Disk, inodes2: seq<Inode>,
                    i: nat, off: nat, a: seq<byte>, b: seq<byte>)
    requires i < |inodes| && Changed(data, inodes, data1, inodes1, i, off, a)
    requires Changed(data1, inodes1, data2, inodes2, i, off + |a|, b)
    ensures Changed(data, inodes, data2, inodes2, i, off, a + b)
  {
    forall p: nat | off <= p < off + |a + b| ensures HasByte(data2, inodes2, i, off, a + b, p) {
      if p < off + |a| {
        assert HasByte(data1, inodes1, i, off, a, p);
        assert KeptByte(data1, inodes1, data2, inodes2, i, p);
      } else {
        assert HasByte(data2, inodes2, i, off + |a|, b, p);
      }
    }
    forall j: nat, p: nat | j < |inodes| && !(j == i && off <= p < off + |a + b|)
      ensures KeptByte(data, inodes, data2, inodes2, j, p)
    {
      assert KeptByte(data, inodes, data1, inodes1, j, p) && KeptByte(data1, inodes1, data2, inodes2, j, p);
    }
  }

  lemma ChangedChunk(data: Disk, inodes: seq<Inode>, data1: Disk, inodes1: seq<Inode>, data2: Disk, inodes2: seq<Inode>,
                     i: nat, off: nat, src: seq<byte>, tot: nat, m: nat)
    requires i < |inodes| && tot + m <= |src| && Changed(data, inodes, data1, inodes1, i, off, src[..tot])
    requires Changed(data1, inodes1, data2, inodes2, i, off + tot, src[tot..tot + m])
    ensures Changed(data, inodes, data2, inodes2, i, off, src[..tot + m])
  {
    hide Changed;
    ChangedMore(data, inodes, data1, inodes1, data2, inodes2, i, off, src[..tot], src[tot..tot + m]);
    assert src[..tot] + src[tot..tot + m] == src[..tot + m];
  }

  /** What keeps every slot and data block keeps every byte of every file. */
  lemma KeptUnchanged(sb: Super, data: Disk, inodes: seq<Inode>, owner: map<nat, Slot>, data': Disk,
                      inodes': seq<Inode>, i: nat, off: nat)
    requires Sized(sb, data, inodes) && Owned(sb, data, inodes, owner) && Kept(data, inodes, owner, data', inodes')
    ensures Changed(data, inodes, data', inodes', i, off, [])
  {
    forall j: nat, p: nat | j < |inodes| ensures KeptByte(data, inodes, data', inodes', j, p) {
      if HasBlock(data, inodes, j, p / BSIZE) {
        DataBlock(sb, data, inodes, owner, j, p / BSIZE);
      }
    }
  }

  /** Storing bytes in one of a file's blocks stores them in that file alone. */
  lemma ChunkStored(sb: Super, data: Disk, inodes: seq<Inode>, owner: map<nat, Slot>, i: nat, pos: nat,
                    bytes: seq<byte>)
    requires Sized(sb, data, inodes) && Owned(sb, data, inodes, owner) && i < |inodes|
    requires HasBlock(data, inodes, i, pos / BSIZE) && pos % BSIZE + |bytes| <= BSIZE
    ensures var b := BlockOf(data, inodes, i, pos / BSIZE);
            && sb.meta <= b < sb.size
            && var data' := PutBlock(data, b, Spliced(data[b], pos % BSIZE, bytes));
            && Owned(sb, data', inodes, owner) && Changed(data, inodes, data', inodes, i, pos, bytes)
            && forall slot :: AddrOf(data', inodes, slot) == AddrOf(data, inodes, slot)
  {
    hide Owned, AddrOf;
    var b := BlockOf(data, inodes, i, pos / BSIZE);
    DataBlock(sb, data, inodes, owner, i, pos / BSIZE);
    var data' := PutBlock(data, b, Spliced(data[b], pos % BSIZE, bytes));
    ChunkSlots(sb, data, inodes, owner, b, Spliced(data[b], pos % BSIZE, bytes));
    forall p: nat | pos <= p < pos + |bytes| ensures HasByte(data', inodes, i, pos, bytes, p) {
      SameBlock(pos, p - pos);
    }
    forall j: nat, p: nat | j < |inodes| && !(j == i && pos <= p < pos + |bytes|)
      ensures KeptByte(data, inodes, data', inodes, j, p)
    {
      ByteElsewhere(sb, data, inodes, owner, i, pos, |bytes|, j, p);
    }
  }

  /** Storing into a data block changes no slot. */
  lemma ChunkSlots(sb: Super, data: Disk, inodes: seq<Inode>, owner: map<nat, Slot>, b: nat, block: Block)
    requires Sized(sb, data, inodes) && Owned(sb, data, inodes, owner) && b in owner && !owner[b].Indirect?
    ensures b < sb.size && Owned(sb, PutBlock(data, b, block), inodes, owner)
    ensures forall slot :: AddrOf(PutBlock(data, b, block), inodes, slot) == AddrOf(data, inodes, slot)
  {
    SlotsKept(sb, data, PutBlock(data, b, block), inodes, owner);
  }

  /** Two bytes of files that are on the same block at the same place are the same byte of the same file. */
  lemma ByteElsewhere(sb: Super, data: Disk, inodes: seq<Inode>, owner: map<nat, Slot>, i: nat, pos: nat, m: nat,
                      j: nat, p: nat)
    requires Owned(sb, data, inodes, owner) && HasBlock(data, inodes, i, pos / BSIZE) && pos % BSIZE + m <= BSIZE
    requires !(j == i && pos <= p < pos + m)
    ensures HasBlock(data, inodes, j, p / BSIZE)
            && BlockOf(data, inodes, j, p / BSIZE) == BlockOf(data, inodes, i, pos / BSIZE) ==>
              !(pos % BSIZE <= p % BSIZE < pos % BSIZE + m)
  {
    DataSlot(sb, data, inodes, owner, i, pos / BSIZE);
    DataSlot(sb, data, inodes, owner, j, p / BSIZE);
  }

  lemma DataSlot(sb: Super, data: Disk, inodes: seq<Inode>, owner: map<nat, Slot>, i: nat, bn: nat)
    requires Owned(sb, data, inodes, owner)
    ensures HasBlock(data, inodes, i, bn) ==>
              var b := BlockOf(data, inodes, i, bn);
              b in owner && owner[b] == if bn < NDIRECT then Direct(i, bn) else Entry(i, bn - NDIRECT)
  {
    BlockThere(sb, data, inodes, owner, if bn < NDIRECT then Direct(i, bn) else Entry(i, bn - NDIRECT));
  }

  function Min(a: nat, b: nat): nat { if a < b then a else b }

  /** The bytes of a file within one block are that block's. */
  lemma BlockBytes(data: Disk, inodes: seq<Inode>, i: nat, pos: nat, m: nat)
    requires i < |inodes| && pos + m <= inodes[i].size && pos % BSIZE + m <= BSIZE
    requires 0 < BlockOf(data, inodes, i, pos / BSIZE) < |data|
    ensures Contents(data, inodes,
                     i)[pos..pos + m] == data[BlockOf(data, inodes, i, pos / BSIZE)][pos % BSIZE..pos % BSIZE + m]
  {
    var c, b := Contents(data, inodes, i), data[BlockOf(data, inodes, i, pos / BSIZE)];
    var x, y := c[pos..pos + m], b[pos % BSIZE..pos % BSIZE + m];
    forall k | 0 <= k < m ensures x[k] == y[k] {
      SameBlock(pos, k);
    }
  }

  lemma SameBlock(pos: nat, k: nat)
    requires pos % BSIZE + k < BSIZE
    ensures (pos + k) / BSIZE == pos / BSIZE && (pos + k) % BSIZE == pos % BSIZE + k
  {}

  datatype Outcome = Stored | DiskFull | Fault

  lemma IndirectKept(data: Disk, inodes: seq<Inode>, owner: map<nat, Slot>, data': Disk, inodes': seq<Inode>, i: nat)
    requires Kept(data, inodes, owner, data', inodes') && i < |inodes|
    requires |inodes[i].addrs| == NDIRECT + 1 && |inodes'[i].addrs| == NDIRECT + 1
    ensures inodes[i].addrs[NDIRECT] != 0 ==> inodes'[i].addrs[NDIRECT] == inodes[i].addrs[NDIRECT]
  {
    assert AddrOf(data, inodes, Indirect(i)) == inodes[i].addrs[NDIRECT];
  }

  lemma SlotHoles(data: Disk, data': Disk, inodes: seq<Inode>)
    requires NoHoles(data, inodes) && forall slot :: AddrOf(data', inodes, slot) == AddrOf(data, inodes, slot)
    ensures NoHoles(data', inodes)
  {
    forall i: nat, bn: nat | i < |inodes| && bn * BSIZE < inodes[i].size ensures HasBlock(data', inodes, i, bn) {
      assert HasBlock(data, inodes, i, bn);
    }
  }

  /** Bytes stored in a sequence from off on, past its end if they reach there. */
  function FileSplice(c: seq<byte>, off: nat, bytes: seq<byte>): seq<byte>
    requires off <= |c|
  {
    c[..off] + bytes + if off + |bytes| < |c| then c[off + |bytes|..] else []
  }

  lemma Unchanged(data: Disk, inodes: seq<Inode>, i: nat, off: nat)
    ensures Changed(data, inodes, data, inodes, i, off, [])
  {}

  /** How many blocks n bytes from off on are spread over. */
  function Span(off: nat, n: nat): nat
  {
    if n == 0 then 0 else (off + n - 1) / BSIZE - off / BSIZE + 1
  }

  lemma SpanFrom(off: nat, n: nat)
    ensures Span(off, 0) == 0 && AtBlock(off, 0, n)
  {}

  lemma SpanNext(off: nat, n: nat, m: nat)
    requires 0 < m && (off + n) % BSIZE + m <= BSIZE && (n > 0 ==> (off + n) % BSIZE == 0)
    ensures Span(off, n + m) == Span(off, n) + 1
  {
    SameBlock(off + n, m - 1);
    if n > 0 {
      LastOfBlock(off + n);
    }
  }

  lemma LastOfBlock(p: nat)
    requires p > 0 && p % BSIZE == 0
    ensures (p - 1) / BSIZE + 1 == p / BSIZE
  {}

  lemma SpanGrows(off: nat, n: nat, n': nat)
    requires n <= n'
    ensures Span(off, n) <= Span(off, n')
  {
    if n > 0 {
      DivGrows(off + n - 1, off + n' - 1);
    }
  }

  lemma DivGrows(a: nat, b: nat)
    requires a <= b
    ensures a / BSIZE <= b / BSIZE
  {}

  function WithSize(inodes: seq<Inode>, i: nat, size: nat): seq<Inode>
    requires i < |inodes|
  {
    if size > inodes[i].size then inodes[i := inodes[i].(size := size)] else inodes
  }

  /** A file's size has nothing to do with which blocks it has. */
  lemma SizeSlots(sb: Super, data: Disk, inodes: seq<Inode>, owner: map<nat, Slot>, i: nat, size: nat)
    requires i < |inodes| && Owned(sb, data, inodes, owner)
    ensures var inodes' := WithSize(inodes, i, size);
            && Owned(sb, data, inodes', owner)
            && forall slot :: AddrOf(data, inodes', slot) == AddrOf(data, inodes, slot)
  {
    var inodes' := WithSize(inodes, i, size);
    assert forall slot :: AddrOf(data, inodes', slot) == AddrOf(data, inodes, slot);
    forall slot, b ensures Uses(data, inodes', slot, b) <==> b in owner && owner[b] == slot {
      assert Uses(data, inodes', slot, b) <==> Uses(data, inodes, slot, b);
    }
  }

  lemma SizeHoles(data: Disk, inodes: seq<Inode>, data': Disk, inodes': seq<Inode>, inodes'': seq<Inode>, i: nat,
                  off: nat, bytes: seq<byte>)
    requires Changed(data, inodes, data', inodes', i, off, bytes) && i < |inodes| && off <= inodes[i].size
    requires NoHoles(data', inodes') && off + |bytes| <= MAXFILE * BSIZE
             && inodes'' == WithSize(inodes', i, off + |bytes|)
    requires forall slot :: AddrOf(data', inodes'', slot) == AddrOf(data', inodes', slot)
    ensures NoHoles(data', inodes'')
  {
    forall j: nat, bn: nat | j < |inodes''| && bn * BSIZE < inodes''[j].size ensures HasBlock(data', inodes'', j, bn) {
      if bn * BSIZE < inodes'[j].size {
        assert HasBlock(data', inodes', j, bn);
      } else {
        assert bn * BSIZE / BSIZE == bn;
        assert HasByte(data', inodes', i, off, bytes, bn * BSIZE);
      }
    }
  }

  lemma OtherContents(data: Disk, inodes: seq<Inode>, data': Disk, inodes': seq<Inode>, inodes'': seq<Inode>, i: nat,
                      off: nat, bytes: seq<byte>, j: nat)
    requires Changed(data, inodes, data', inodes', i, off, bytes) && NoHoles(data, inodes) && j < |inodes| && j != i
    requires |inodes''| == |inodes| && inodes''[j].size == inodes[j].size
    requires forall slot :: AddrOf(data', inodes'', slot) == AddrOf(data', inodes', slot)
    ensures Contents(data', inodes'', j) == Contents(data, inodes, j)
  {
    var c, c' := Contents(data, inodes, j), Contents(data', inodes'', j);
    forall p: nat | p < |c| ensures c'[p] == c[p] {
      DivBsize(p, inodes[j].size);
      assert HasBlock(data, inodes, j, p / BSIZE) && KeptByte(data, inodes, data', inodes', j, p);
    }
  }

  lemma SplicedContents(data: Disk, inodes: seq<Inode>, data': Disk, inodes': seq<Inode>, inodes'': seq<Inode>,
                        i: nat, off: nat, bytes: seq<byte>)
    requires Changed(data, inodes, data', inodes', i, off, bytes) && NoHoles(data, inodes) && i < |inodes|
             && off <= inodes[i].size
    requires inodes'' == WithSize(inodes', i, off + |bytes|)
    requires forall slot :: AddrOf(data', inodes'', slot) == AddrOf(data', inodes', slot)
    ensures Contents(data', inodes'', i) == FileSplice(Contents(data, inodes, i), off, bytes)
  {
    var c, c' := Contents(data, inodes, i), Contents(data', inodes'', i);
    var d := FileSplice(c, off, bytes);
    assert |d| == |c'|;
    forall p: nat | p < |c'| ensures c'[p] == d[p] {
      if off <= p < off + |bytes| {
        assert HasByte(data', inodes', i, off, bytes, p);
      } else {
        DivBsize(p, inodes[i].size);
        assert HasBlock(data, inodes, i, p / BSIZE) && KeptByte(data, inodes, data', inodes', i, p);
      }
    }
  }

  /** writei()'s last step: the size covers what was stored, and the files are the old ones with it spliced in. */
  lemma SizeSet(sb: Super, data: Disk, inodes: seq<Inode>, data': Disk, inodes': seq<Inode>, owner: map<nat, Slot>,
                i: nat, off: nat, bytes: seq<byte>)
    requires NoHoles(data, inodes) && Changed(data, inodes, data', inodes', i, off, bytes) && |inodes'| == |inodes|
    requires Owned(sb, data', inodes', owner) && NoHoles(data', inodes')
    requires i < |inodes| && off <= inodes[i].size && off + |bytes| <= MAXFILE * BSIZE
    ensures var inodes'' := WithSize(inodes', i, off + |bytes|);
            && Owned(sb, data', inodes'', owner) && NoHoles(data', inodes'')
            && Contents(data', inodes'', i) == FileSplice(Contents(data, inodes, i), off, bytes)
            && forall j: nat :: j < |inodes| && j != i ==> Contents(data', inodes'', j) == Contents(data, inodes, j)
  {
    hide Owned, NoHoles, FileByte, AddrOf;
    var inodes'' := WithSize(inodes', i, off + |bytes|);
    SizeSlots(sb, data', inodes', owner, i, off + |bytes|);
    SizeHoles(data, inodes, data', inodes', inodes'', i, off, bytes);
    SplicedContents(data, inodes, data', inodes', inodes'', i, off, bytes);
    forall j: nat | j < |inodes| && j != i ensures Contents(data', inodes'', j) == Contents(data, inodes, j) {
      OtherContents(data, inodes, data', inodes', inodes'', i, off, bytes, j);
    }
  }

  lemma LoggedNothing(sb: Super, logged: set<nat>, more: set<nat>)
    requires sb.Valid()
    ensures LoggedOnly(sb, logged, logged, more)
  {}

  /** One more chunk's blocks; the indirect block, once there, stays. */
  lemma LoggedMore(sb: Super, a: set<nat>, b: set<nat>, c: set<nat>, touched: set<nat>, ind: nat, addr: nat, ind': nat)
    requires sb.Valid() && LoggedOnly(sb, a, b, touched + NonZero(ind))
             && LoggedOnly(sb, b, c, NonZero(addr) + NonZero(ind'))
    requires ind != 0 ==> ind' == ind
    ensures LoggedOnly(sb, a, c, touched + NonZero(addr) + NonZero(ind'))
    ensures |touched + NonZero(addr)| <= |touched| + 1
  {}

  /** n bytes at pos stay within one block of a file. */
  predicate FitsBlock(pos: nat, n: nat) { pos / BSIZE < MAXFILE && pos % BSIZE + n <= BSIZE }

  /** How much of the n bytes from off on the block after the first tot takes. */
  function Chunk(off: nat, tot: nat, n: nat): nat
    requires tot <= n
  {
    Min(n - tot, BSIZE - (off + tot) % BSIZE)
  }

  // The loop of writei() is between blocks.
  predicate AtBlock(off: nat, tot: nat, n: nat) { 0 < tot < n ==> (off + tot) % BSIZE == 0 }

  lemma ChunkFits(off: nat, tot: nat, n: nat)
    requires tot < n && AtBlock(off, tot, n) && off + n <= MAXFILE * BSIZE
    ensures var m := Chunk(off, tot, n);
            && 0 < m && tot + m <= n && FitsBlock(off + tot, m) && AtBlock(off, tot + m, n)
            && Span(off, tot + m) == Span(off, tot) + 1 && Span(off, tot + m) <= Span(off, n)
  {
    var m := Chunk(off, tot, n);
    SpanNext(off, tot, m);
    SpanGrows(off, tot + m, n);
    if tot + m < n {
      EndOfBlock(off + tot);
    }
  }

  lemma EndOfBlock(p: nat)
    ensures (p + (BSIZE - p % BSIZE)) % BSIZE == 0
  {}

  /** No block outside the bitmap and the other metadata has changed. */
  ghost predicate DataKept(sb: Super, data: Disk, data': Disk) {
    |data'| == |data| && forall b :: sb.meta <= b < |data| ==> data'[b] == data[b]
  }

  lemma DirectThere(sb: Super, data: Disk, inodes: seq<Inode>, owner: map<nat, Slot>, i: nat, k: nat)
    requires Sized(sb, data, inodes) && Owned(sb, data, inodes, owner) && i < |inodes| && k < NDIRECT
             && inodes[i].addrs[k] != 0
    ensures var b := inodes[i].addrs[k]; b in owner && owner[b] == Direct(i, k) && sb.meta <= b < sb.size
  {
    BlockThere(sb, data, inodes, owner, Direct(i, k));
  }

  lemma AddrCleared(data: Disk, inodes: seq<Inode>, i: nat, k: nat)
    requires i < |inodes| && |inodes[i].addrs| == NDIRECT + 1 && k < NDIRECT
    ensures var inodes' := WithAddr(inodes, i, k, 0);
            && AddrOf(data, inodes', Direct(i, k)) == 0 && AddrOf(data, inodes, Direct(i, k)) == inodes[i].addrs[k]
            && forall s :: s != Direct(i, k) ==> AddrOf(data, inodes', s) == AddrOf(data, inodes, s)
  {}

  lemma BitDataKept(sb: Super, data0: Disk, data: Disk, b: nat)
    requires sb.Valid() && |data| == sb.size && b < sb.size && DataKept(sb, data0, data)
    ensures DataKept(sb, data0, SetBit(sb, data, b, false))
  {
    BitmapBelow(sb, b);
  }

  lemma DataMore(sb: Super, a: Disk, b: Disk, c: Disk)
    requires DataKept(sb, a, b) && DataKept(sb, b, c)
    ensures DataKept(sb, a, c)
  {}

  lemma IndirectThere(sb: Super, data: Disk, inodes: seq<Inode>, owner: map<nat, Slot>, i: nat)
    requires Sized(sb, data, inodes) && Owned(sb, data, inodes, owner) && i < |inodes| && inodes[i].addrs[NDIRECT] != 0
    ensures var b := inodes[i].addrs[NDIRECT]; b in owner && owner[b] == Indirect(i) && sb.meta <= b < sb.size
  {
    BlockThere(sb, data, inodes, owner, Indirect(i));
  }

  /** The blocks still in use when the first j entries of inode i's indirect block have been freed. */
  function Left(owner: map<nat, Slot>, i: nat, j: nat): set<nat> {
    set b | b in owner && !(owner[b].Entry? && owner[b].i == i && owner[b].j < j)
  }

  lemma AllLeft(sb: Super, data: Disk, owner: map<nat, Slot>, i: nat)
    ensures Left(owner, i, 0) == owner.Keys && DataKept(sb, data, data) && Without(owner, i, 0, false) == owner
  {}

  lemma EntryStep(sb: Super, data: Disk, inodes: seq<Inode>, owner: map<nat, Slot>, i: nat, j: nat)
    requires Sized(sb, data, inodes) && Owned(sb, data, inodes, owner) && i < |inodes| && j < NINDIRECT
    requires 0 < inodes[i].addrs[NDIRECT] < sb.size
    ensures var a := Word(data[inodes[i].addrs[NDIRECT]], j);
            if a == 0 then Left(owner, i, j + 1) == Left(owner, i, j)
            else a in Left(owner, i, j) && sb.meta <= a < sb.size && Left(owner, i, j + 1) == Left(owner, i, j) - {a}
  {
    var a := Word(data[inodes[i].addrs[NDIRECT]], j);
    assert AddrOf(data, inodes, Entry(i, j)) == a;
    BlockThere(sb, data, inodes, owner, Entry(i, j));
    forall b | b in owner && owner[b] == Entry(i, j) ensures b == a {
      assert Uses(data, inodes, Entry(i, j), b);
    }
  }

  /** Ownership with inode i's first k direct blocks gone, and with all its indirect ones if ind says so. */
  function Without(owner: map<nat, Slot>, i: nat, k: nat, ind: bool): map<nat, Slot> {
    map b | b in owner && !(owner[b].i == i && (if owner[b].Direct? then owner[b].k < k else ind)) :: owner[b]
  }

  /** The first k direct addresses of inode i are cleared, and nothing else has changed. */
  ghost predicate Cut(inodes: seq<Inode>, inodes': seq<Inode>, i: nat, k: nat)
    requires i < |inodes| == |inodes'|
  {
    && (forall j :: 0 <= j < |inodes| && j != i ==> inodes'[j] == inodes[j])
    && |inodes'[i].addrs| == |inodes[i].addrs| && inodes'[i].size == inodes[i].size
    && (forall m :: 0 <= m < |inodes[i].addrs| ==> inodes'[i].addrs[m] == if m < k then 0 else inodes[i].addrs[m])
  }

  lemma DirectStep(sb: Super, data: Disk, inodes: seq<Inode>, owner0: map<nat, Slot>, owner: map<nat, Slot>, i: nat,
                   k: nat)
    requires Sized(sb, data, inodes) && Owned(sb, data, inodes, owner) && i < |inodes| && k < NDIRECT
    requires owner == Without(owner0, i, k, false)
    ensures Without(owner0, i, k + 1, false) == owner - {inodes[i].addrs[k]}
    ensures inodes[i].addrs[k] == 0 ==> owner - {0} == owner
  {
    BlockThere(sb, data, inodes, owner, Direct(i, k));
    assert 0 !in owner by {
      assert forall b :: b in owner ==> b != 0;
    }
    forall b | b in owner && owner[b] == Direct(i, k) ensures b == inodes[i].addrs[k] {
      assert Uses(data, inodes, Direct(i, k), b);
    }
  }

  lemma IndirectLeft(sb: Super, data: Disk, inodes: seq<Inode>, owner: map<nat, Slot>, i: nat)
    requires Sized(sb, data, inodes) && Owned(sb, data, inodes, owner) && i < |inodes|
    ensures inodes[i].addrs[NDIRECT] != 0 ==> inodes[i].addrs[NDIRECT] in Left(owner, i, NINDIRECT)
    ensures Left(owner, i, NINDIRECT) - {inodes[i].addrs[NDIRECT]} == Without(owner, i, 0, true).Keys
  {
    BlockThere(sb, data, inodes, owner, Indirect(i));
    forall b | b in owner ensures Uses(data, inodes, owner[b], b) {}
  }

  /** With the indirect address cleared, the indirect block and its entries are nobody's. */
  lemma IndirectCut(sb: Super, data: Disk, inodes: seq<Inode>, owner: map<nat, Slot>, i: nat)
    requires Sized(sb, data, inodes) && Owned(sb, data, inodes, owner) && i < |inodes|
    ensures Owned(sb, data, WithAddr(inodes, i, NDIRECT, 0), Without(owner, i, 0, true))
  {
    var inodes', owner' := WithAddr(inodes, i, NDIRECT, 0), Without(owner, i, 0, true);
    forall s, b ensures Uses(data, inodes', s, b) <==> b in owner' && owner'[b] == s {
      assert Uses(data, inodes', s, b) <==> Uses(data, inodes, s, b) && (s.i != i || s.Direct?);
    }
  }

  lemma NoIndirect(sb: Super, data: Disk, inodes: seq<Inode>, owner: map<nat, Slot>, i: nat)
    requires Sized(sb, data, inodes) && Owned(sb, data, inodes, owner) && i < |inodes| && inodes[i].addrs[NDIRECT] == 0
    ensures Without(owner, i, 0, true) == owner
  {
    forall b | b in owner ensures Uses(data, inodes, owner[b], b) {}
  }

  lemma WithoutBoth(owner: map<nat, Slot>, i: nat)
    ensures Without(Without(owner, i, NDIRECT, false), i, 0, true) == Without(owner, i, NDIRECT, true)
  {}

  /** File i is empty; every other file has its inode and its blocks as they were. */
  lemma Emptied(sb: Super, data: Disk, inodes: seq<Inode>, owner: map<nat, Slot>, data': Disk, inodes': seq<Inode>,
                i: nat)
    requires Sized(sb, data, inodes) && Owned(sb, data, inodes, owner) && NoHoles(data, inodes)
             && DataKept(sb, data, data')
    requires i < |inodes| == |inodes'| && inodes'[i].size == 0
    requires forall j :: 0 <= j < |inodes| && j != i ==> inodes'[j] == inodes[j]
    ensures NoHoles(data', inodes') && Contents(data', inodes', i) == []
    ensures forall j: nat :: j < |inodes| && j != i ==> Contents(data', inodes', j) == Contents(data, inodes, j)
  {
    forall j: nat, bn: nat | j < |inodes| && j != i
           ensures BlockOf(data', inodes', j, bn) == BlockOf(data, inodes, j, bn) {
      BlockThere(sb, data, inodes, owner, Indirect(j));
    }
    forall j: nat, bn: nat | j < |inodes'| && bn * BSIZE < inodes'[j].size ensures HasBlock(data', inodes', j, bn) {
      assert HasBlock(data, inodes, j, bn);
    }
    forall j: nat | j < |inodes| && j != i ensures Contents(data', inodes', j) == Contents(data, inodes, j) {
      forall p: nat | p < inodes[j].size ensures FileByte(data', inodes', j, p) == FileByte(data, inodes, j, p) {
        FileBlock(sb, data, inodes, owner, j, p);
      }
    }
  }

  lemma SizeOnly(sb: Super, data: Disk, inodes: seq<Inode>, owner: map<nat, Slot>, i: nat, size: nat)
    requires Owned(sb, data, inodes, owner) && i < |inodes|
    ensures Owned(sb, data, inodes[i := inodes[i].(size := size)], owner)
  {
    var inodes' := inodes[i := inodes[i].(size := size)];
    forall slot, b ensures Uses(data, inodes', slot, b) <==> b in owner && owner[b] == slot {
      assert Uses(data, inodes', slot, b) <==> Uses(data, inodes, slot, b);
    }
  }

  /** A block's bit is set exactly when it is metadata or some slot of some inode names it, and then only one does. */
  lemma BitmapExact(sb: Super, data: Disk, inodes: seq<Inode>, owner: map<nat, Slot>, used: set<nat>, b: nat)
    requires Sized(sb, data, inodes) && Owned(sb, data, inodes, owner) && Marked(sb, data, used) && used == owner.Keys
    requires b < sb.size
    ensures Bit(sb, data, b) <==> b < sb.meta || exists slot :: Uses(data, inodes, slot, b)
    ensures forall s, t :: Uses(data, inodes, s, b) && Uses(data, inodes, t, b) ==> s == t
    ensures forall s :: Uses(data, inodes, s, b) ==> sb.meta <= b
  {
    if b in owner {
      assert Uses(data, inodes, owner[b], b);
    }
  }

  // ---- An empty file system ----

  /** Exactly the blocks below n are marked. */
  ghost predicate MarkedTo(sb: Super, data: Disk, n: nat)
    requires sb.Valid() && |data| == sb.size
  {
    forall b :: 0 <= b < sb.size ==> (Bit(sb, data, b) <==> b < n)
  }

  lemma {:induction false} ZeroBit(k: nat)
    ensures !BitOf(0, k)
  {
    if k > 0 {
      ZeroBit(k - 1);
    }
  }

  lemma FreshBits(sb: Super, data: Disk)
    requires sb.Valid() && |data| == sb.size && forall b :: 0 <= b < sb.size ==> data[b] == ZeroBlock()
    ensures MarkedTo(sb, data, 0)
  {
    forall b | 0 <= b < sb.size ensures !Bit(sb, data, b) {
      BitmapBelow(sb, b);
      ZeroBit(b % BPB % 8);
    }
  }

  lemma OneMarked(sb: Super, data: Disk, n: nat)
    requires sb.Valid() && |data| == sb.size && n < sb.meta && MarkedTo(sb, data, n)
    ensures |SetBit(sb, data, n, true)| == sb.size && MarkedTo(sb, SetBit(sb, data, n, true), n + 1)
  {
    hide Bit;
    BitmapBelow(sb, n);
    forall b | 0 <= b < sb.size ensures Bit(sb, SetBit(sb, data, n, true), b) <==> b < n + 1 {
      BitStored(sb, data, n, true, b);
    }
  }

  /** No inode names a block, and every file is empty. */
  ghost predicate NoAddrs(inodes: seq<Inode>) {
    forall i :: 0 <= i < |inodes| ==>
      inodes[i].size == 0 && forall k :: 0 <= k < |inodes[i].addrs| ==> inodes[i].addrs[k] == 0
  }

  lemma FreshFiles(sb: Super, data: Disk, inodes: seq<Inode>)
    requires Sized(sb, data, inodes) && NoAddrs(inodes)
    ensures Owned(sb, data, inodes, map[]) && NoHoles(data, inodes)
    ensures forall i: nat :: i < |inodes| ==> Contents(data, inodes, i) == []
  {}

  /**
   Of n bytes from off on, of which ok can be read, tot is up to the last block boundary at or below
   ok, unless full.
   */
  ghost predicate StopsAt(off: nat, n: nat, ok: nat, tot: nat, full: bool)
    requires tot <= n
  {
    tot <= ok && AtBlock(off, tot, n) && (tot < n ==> full || ok < tot + Chunk(off, tot, n))
  }

  class FileSystem {
    const sb: Super
    var data: Disk
    var inodes: seq<Inode>
    ghost var owner: map<nat, Slot>
    ghost var used: set<nat>      // blocks that balloc() has given out
    ghost var logged: set<nat>    // blocks passed to log_write() by the current operation

    ghost predicate Shaped()
      reads this
    {
      Sized(sb, data, inodes) && Owned(sb, data, inodes, owner) && Marked(sb, data, used)
    }

    /** An empty file system on any disk with room for its metadata: no file has a block, no other block is in use. */
    constructor (sb: Super)
      requires sb.Valid()
      ensures Valid() && this.sb == sb && owner == map[] && logged == {}
      ensures forall i: nat :: i < |inodes| ==> Contents(data, inodes, i) == []
    {
      this.sb := sb;
      data := seq(sb.size, _ => ZeroBlock());
      inodes := seq(sb.ninodes, _ => Inode(0, seq(NDIRECT + 1, _ => 0)));
      owner, used, logged := map[], {}, {};
      new;
      hide Contents, NoHoles, Owned, Bit;
      FreshBits(sb, data);
      for b := 0 to sb.meta
        invariant Sized(sb, data, inodes) && NoAddrs(inodes) && logged == {}
        invariant owner == map[] && used == {} && MarkedTo(sb, data, b)
      {
        OneMarked(sb, data, b);
        data := SetBit(sb, data, b, true);
      }
      FreshFiles(sb, data, inodes);
    }

    /** Stores b's bit in its bitmap block and logs that. */
    method StoreBit(b: nat, on: bool)
      requires Sized(sb, data, inodes) && b < sb.size
      modifies `data, `logged
      ensures |data| == |old(data)| && data == SetBit(sb, old(data), b, on) && logged == old(logged) + {sb.BBlock(b)}
    {
      hide Sized;
      SizedBits(sb, data, inodes, b);
      var bp := data[sb.BBlock(b)];
      var bi := b % BPB;
      ByteBits(bp[bi / 8], bi % 8, on);
      data := PutBlock(data, sb.BBlock(b), WithByte(bp, bi / 8, PutBit(bp[bi / 8], bi % 8, on)));
      logged := logged + {sb.BBlock(b)};
    }

    /** Marks b in use and zeroes it. */
    method Take(b: nat)
      requires Shaped() && owner.Keys <= used && sb.meta <= b < sb.size && b !in used
      modifies `data, `used, `logged
      ensures Shaped() && data == Allocated(sb, old(data), b) && used == old(used) + {b}
      ensures logged == old(logged) + {sb.BBlock(b), b}
    {
      hide Sized, Owned, Marked, SetBit;
      ShapedSizes(sb, data, inodes);
      StoreBit(b, true);
      data := PutBlock(data, b, ZeroBlock());
      logged := logged + {b};
      used := used + {b};
      AllocShaped(sb, old(data), inodes, owner, old(used), b);
    }

    /** The lowest free block, marked and zeroed; 0 when there is none. */
    method BAlloc() returns (r: nat)
      requires Shaped() && owner.Keys <= used
      modifies `data, `used, `logged
      ensures Shaped() && owner.Keys <= used
      ensures Kept(old(data), inodes, owner, data, inodes)
      ensures r == 0 ==> data == old(data) && used == old(used) && logged == old(logged) && Full(sb, data)
      ensures r != 0 ==>
                && sb.meta <= r < sb.size && r !in old(used) && AllSet(sb, old(data), r)
                && data == Allocated(sb, old(data), r) && used == old(used) + {r}
                && logged == old(logged) + {sb.BBlock(r), r}
    {
      hide Sized, Owned, Marked, Bit, BitOf, AllSet, Allocated, Kept;
      ShapedSizes(sb, data, inodes);
      var b := 0;
      ghost var k := 0;
      NoneSet(sb, data);
      while b < sb.size
        invariant data == old(data) && used == old(used) && logged == old(logged)
        invariant b == k * BPB && AllSet(sb, data, if b < sb.size then b else sb.size)
      {
        var bi := 0;
        while bi < BPB && b + bi < sb.size
          invariant data == old(data) && used == old(used) && logged == old(logged)
          invariant bi <= BPB && b + bi <= sb.size && AllSet(sb, data, b + bi)
        {
          BitAt(sb, data, k, bi);
          var bp := data[sb.BBlock(b)];
          if !BitOf(bp[bi / 8], bi % 8) {
            r := b + bi;
            FreeBlock(sb, data, used, r);
            AllocKept(sb, data, inodes, owner, r);
            Take(r);
            return;
          }
          OneMoreSet(sb, data, b + bi);
          bi := bi + 1;
        }
        b := b + BPB;
        k := k + 1;
      }
      r := 0;
      KeptSelf(data, inodes, owner);
    }

    method BFree(b: nat)
      requires Shaped() && b in used
      modifies `data, `used, `logged
      ensures Shaped()
      ensures data == SetBit(sb, old(data), b, false) && used == old(used) - {b}
              && logged == old(logged) + {sb.BBlock(b)}
    {
      hide Sized, Owned, Marked, SetBit;
      ShapedSizes(sb, data, inodes);
      UsedMarked(sb, data, used, b);
      // panic("freeing free block")
      assert Bit(sb, data, b);
      StoreBit(b, false);
      used := used - {b};
      FreeShaped(sb, old(data), inodes, owner, old(used), b);
    }

    ghost predicate Valid()
      reads this
    {
      Shaped() && used == owner.Keys && NoHoles(data, inodes)
    }

    /** Puts a newly allocated block into an empty address of an inode. */
    method PutAddr(i: nat, k: nat, b: nat)
      requires Shaped() && i < |inodes| && k <= NDIRECT && inodes[i].addrs[k] == 0
      requires b in used && b !in owner && data[b] == ZeroBlock()
      modifies `inodes, `owner
      ensures Shaped() && owner == old(owner)[b := if k < NDIRECT then Direct(i, k) else Indirect(i)]
      ensures inodes == WithAddr(old(inodes), i, k, b) && Kept(data, old(inodes), old(owner), data, inodes)
    {
      hide Owned, Marked, Kept;
      UsedMarked(sb, data, used, b);
      AddrPut(data, inodes, i, k, b);
      var slot := if k < NDIRECT then Direct(i, k) else Indirect(i);
      inodes := inodes[i := inodes[i].(addrs := inodes[i].addrs[k := b])];
      SlotFilled(sb, data, old(inodes), owner, data, inodes, slot, b);
      KeptSlots(data, old(inodes), owner, data, inodes, slot);
      owner := owner[b := slot];
    }

    /** Stores a newly allocated block's number in an empty entry of an inode's indirect block. */
    method PutEntry(i: nat, j: nat, b: nat)
      requires Shaped() && i < |inodes| && j < NINDIRECT && inodes[i].addrs[NDIRECT] != 0
      requires AddrOf(data, inodes, Entry(i, j)) == 0 && b in used && b !in owner
      modifies `data, `owner, `logged
      ensures Shaped() && owner == old(owner)[b := Entry(i, j)] && logged == old(logged) + {inodes[i].addrs[NDIRECT]}
      ensures Kept(old(data), inodes, old(owner), data, inodes) && AddrOf(data, inodes, Entry(i, j)) == b
              && data[b] == old(data[b])
    {
      hide Owned, Marked, Kept;
      UsedMarked(sb, data, used, b);
      EntryPut(sb, data, inodes, owner, i, j, b);
      var ind := inodes[i].addrs[NDIRECT];
      BitmapSame(sb, data, used, ind, PutWord(data[ind], j, b));
      data := PutBlock(data, ind, PutWord(data[ind], j, b));
      SlotFilled(sb, old(data), inodes, owner, data, inodes, Entry(i, j), b);
      KeptSlots(old(data), inodes, owner, data, inodes, Entry(i, j));
      logged := logged + {ind};
      owner := owner[b := Entry(i, j)];
    }

    /** Allocates a zeroed block for an empty direct or indirect address. */
    method NewAddr(i: nat, k: nat) returns (b: nat)
      requires Valid() && i < |inodes| && k <= NDIRECT && inodes[i].addrs[k] == 0
      modifies `data, `inodes, `owner, `used, `logged
      ensures Valid() && Kept(old(data), old(inodes), old(owner), data, inodes) && Extended(old(owner), owner)
      ensures b == 0 ==>
                && data == old(data) && inodes == old(inodes) && owner == old(owner) && used == old(used)
                && logged == old(logged)
      ensures b == 0 ==> Full(sb, data)
      ensures b != 0 ==>
                sb.meta <= b < sb.size && inodes == WithAddr(old(inodes), i, k, b) && data[b] == ZeroBlock()
                  && logged == old(logged) + {sb.BBlock(b), b}
    {
      hide Owned, Marked, Kept, NoHoles, Allocated, Full, AllSet;
      b := BAlloc();
      NoHolesKept(old(data), inodes, owner, data, inodes);
      if b == 0 { return; }
      AllocKept(sb, old(data), inodes, owner, b);
      ghost var data1 := data;
      PutAddr(i, k, b);
      KeptMore(old(data), old(inodes), old(owner), data1, old(inodes), old(owner), data, inodes);
      NoHolesKept(old(data), old(inodes), old(owner), data, inodes);
    }

    /** The address in entry j of an inode's indirect block, allocated if it was empty. */
    method MapEntry(i: nat, j: nat) returns (addr: nat)
      requires Valid() && i < |inodes| && j < NINDIRECT && inodes[i].addrs[NDIRECT] != 0
      modifies `data, `owner, `used, `logged
      ensures Valid() && Kept(old(data), inodes, old(owner), data, inodes) && Extended(old(owner), owner)
      ensures addr != 0 ==> addr == AddrOf(data, inodes, Entry(i, j)) && sb.meta <= addr < sb.size
      ensures addr != 0 && old(AddrOf(data, inodes, Entry(i, j))) == 0 ==> data[addr] == ZeroBlock()
      ensures addr == 0 ==> old(AddrOf(data, inodes, Entry(i, j))) == 0 && Full(sb, data)
      ensures old(AddrOf(data, inodes, Entry(i, j))) != 0 ==>
                data == old(data) && owner == old(owner) && used == old(used) && logged == old(logged)
      ensures LoggedOnly(sb, old(logged), logged, NonZero(addr) + NonZero(inodes[i].addrs[NDIRECT]))
    {
      hide Owned, Marked, Kept, NoHoles, Allocated, Full, AllSet;
      KeptSelf(data, inodes, owner);
      BlockThere(sb, data, inodes, owner, Indirect(i));
      BlockThere(sb, data, inodes, owner, Entry(i, j));
      addr := Word(data[inodes[i].addrs[NDIRECT]], j);
      if addr == 0 {
        addr := BAlloc();
        NoHolesKept(old(data), inodes, owner, data, inodes);
        if addr != 0 {
          AllocKept(sb, old(data), inodes, owner, addr);
          ghost var data1 := data;
          PutEntry(i, j, addr);
          KeptMore(old(data), inodes, old(owner), data1, inodes, old(owner), data, inodes);
          NoHolesKept(old(data), inodes, old(owner), data, inodes);
          BitmapBelow(sb, addr);
        }
      }
    }

    /** The address of block bn of file i, allocated and zeroed if it had none; 0 if the disk is full. */
    method BMap(i: nat, bn: nat) returns (addr: nat)
      requires Valid() && i < |inodes| && bn < MAXFILE
      modifies `data, `inodes, `owner, `used, `logged
      ensures Valid() && Kept(old(data), old(inodes), old(owner), data, inodes) && Extended(old(owner), owner)
      ensures addr != 0 ==> addr == BlockOf(data, inodes, i, bn) && sb.meta <= addr < sb.size
      ensures addr != 0 && old(BlockOf(data, inodes, i, bn)) == 0 ==> data[addr] == ZeroBlock()
      ensures addr == 0 ==> old(BlockOf(data, inodes, i, bn)) == 0 && Full(sb, data)
      ensures old(BlockOf(data, inodes, i, bn)) != 0 ==>
                data == old(data) && inodes == old(inodes) && owner == old(owner) && used == old(used)
                  && logged == old(logged)
      ensures LoggedOnly(sb, old(logged), logged, NonZero(addr) + NonZero(inodes[i].addrs[NDIRECT]))
    {
      hide Owned, Marked, Kept, NoHoles, Full, AllSet;
      KeptSelf(data, inodes, owner);
      if bn < NDIRECT {
        addr := inodes[i].addrs[bn];
        BlockThere(sb, data, inodes, owner, Direct(i, bn));
        if addr == 0 {
          addr := NewAddr(i, bn);
          if addr != 0 { BitmapBelow(sb, addr); }
        }
        return;
      }
      ghost var j := bn - NDIRECT;
      if inodes[i].addrs[NDIRECT] == 0 {
        var ind := NewAddr(i, NDIRECT);
        if ind == 0 {
          return 0;
        }
        ZeroEntries(j);
        BitmapBelow(sb, ind);
      }
      ghost var data1, inodes1, owner1 := data, inodes, owner;
      addr := MapEntry(i, bn - NDIRECT);
      KeptMore(old(data), old(inodes), old(owner), data1, inodes1, owner1, data, inodes);
    }

    /** The bytes of file i at pos that are within one block. */
    method ReadChunk(i: nat, pos: nat, m: nat) returns (bytes: seq<byte>)
      requires Valid() && i < |inodes| && 0 < m && pos + m <= inodes[i].size && pos % BSIZE + m <= BSIZE
      modifies `data, `inodes, `owner, `used, `logged
      ensures Valid() && data == old(data) && inodes == old(inodes) && owner == old(owner) && used == old(used)
              && logged == old(logged)
      ensures bytes == Contents(data, inodes, i)[pos..pos + m]
    {
      hide Owned, Marked, Kept, NoHoles, Full, AddrOf, FileByte, Contents;
      FileBlock(sb, data, inodes, owner, i, pos);
      var addr := BMap(i, pos / BSIZE);
      BlockBytes(data, inodes, i, pos, m);
      bytes := data[addr][pos % BSIZE..pos % BSIZE + m];
    }

    /**
     Up to n bytes of file i from off on; ok is how many the caller's buffer takes.
     Nothing changes, for every block of the file is there.
     */
    method ReadI(i: nat, off: word, n: word, ok: nat) returns (r: int, out: seq<byte>)
      requires Valid() && i < |inodes|
      modifies `data, `inodes, `owner, `used, `logged
      ensures Valid() && data == old(data) && inodes == old(inodes) && owner == old(owner) && used == old(used)
              && logged == old(logged)
      ensures var c := Contents(data, inodes, i);
              if off > |c| || off + n >= WORD then r == 0 && out == []
              else
                var want := c[off..if off + n < |c| then off + n else |c|];
                if |want| <= ok then r == |want| && out == want else r == -1
    {
      hide Shaped, NoHoles, FileByte;
      out := [];
      if off > inodes[i].size || (off + n) % WORD < off {
        return 0, [];
      }
      var n' := n;
      if off + n > inodes[i].size {
        n' := inodes[i].size - off;
      }
      ghost var c := Contents(data, inodes, i);
      var tot, pos := 0, off;
      while tot < n'
        invariant Valid() && data == old(data) && inodes == old(inodes) && owner == old(owner) && used == old(used)
                  && logged == old(logged)
        invariant tot <= n' && pos == off + tot && out == c[off..off + tot] && tot <= ok
      {
        var m := Min(n' - tot, BSIZE - pos % BSIZE);
        var bytes := ReadChunk(i, pos, m);
        if tot + m > ok {
          return -1, out;
        }
        assert c[off..pos + m] == c[off..pos] + c[pos..pos + m];
        out := out + bytes;
        tot, pos := tot + m, pos + m;
      }
      r := tot;
    }

    /** One block's worth of writei(); copied says whether either_copyin() succeeds. */
    method WriteChunk(i: nat, pos: nat, bytes: seq<byte>, copied: bool) returns (r: Outcome, ghost addr: nat)
      requires Valid() && i < |inodes| && FitsBlock(pos, |bytes|)
      modifies `data, `inodes, `owner, `used, `logged
      ensures Valid() && |inodes| == |old(inodes)|
      ensures Changed(old(data), old(inodes), data, inodes, i, pos, if r == Stored then bytes else [])
      ensures if r == DiskFull then Full(sb, data) else (r == Stored <==> copied)
      ensures old(inodes[i].addrs[NDIRECT]) != 0 ==> inodes[i].addrs[NDIRECT] == old(inodes[i].addrs[NDIRECT])
      ensures LoggedOnly(sb, old(logged), logged, NonZero(addr) + NonZero(inodes[i].addrs[NDIRECT]))
    {
      hide Owned, Marked, NoHoles, Full, Changed;
      var b := BMap(i, pos / BSIZE);
      addr := b;
      IndirectKept(old(data), old(inodes), old(owner), data, inodes, i);
      KeptUnchanged(sb, old(data), old(inodes), old(owner), data, inodes, i, pos);
      if b == 0 {
        return DiskFull, addr;
      }
      if !copied {
        return Fault, addr;
      }
      ghost var data1 := data;
      ChunkStored(sb, data, inodes, owner, i, pos, bytes);
      BitmapSame(sb, data, used, b, Spliced(data[b], pos % BSIZE, bytes));
      SlotHoles(data, PutBlock(data, b, Spliced(data[b], pos % BSIZE, bytes)), inodes);
      data := PutBlock(data, b, Spliced(data[b], pos % BSIZE, bytes));
      logged := logged + {b};
      ChangedMore(old(data), old(inodes), data1, inodes, data, inodes, i, pos, [], bytes);
      assert [] + bytes == bytes;
      r := Stored;
    }

    /** The loop of writei(): how many bytes got stored, without regard to the size. */
    method WriteBlocks(i: nat, off: nat, src: seq<byte>, ok: nat) returns (tot: nat, ghost touched: set<nat>)
      requires Valid() && i < |inodes| && off + |src| <= MAXFILE * BSIZE
      modifies `data, `inodes, `owner, `used, `logged
      ensures Valid() && |inodes| == |old(inodes)| && tot <= |src| && (tot < |src| ==> Full(sb, data) || ok < |src|)
      ensures StopsAt(off, |src|, ok, tot, Full(sb, data))
      ensures Changed(old(data), old(inodes), data, inodes, i, off, src[..tot])
      ensures |touched| <= Span(off, |src|)
      ensures LoggedOnly(sb, old(logged), logged, touched + NonZero(inodes[i].addrs[NDIRECT]))
    {
      hide Owned, Marked, NoHoles, Full, Changed, Span, LoggedOnly, AtBlock, FitsBlock, Chunk;
      touched, tot := {}, 0;
      var pos := off;
      Unchanged(data, inodes, i, off);
      SpanFrom(off, |src|);
      LoggedNothing(sb, logged, NonZero(inodes[i].addrs[NDIRECT]));
      assert {} + NonZero(inodes[i].addrs[NDIRECT]) == NonZero(inodes[i].addrs[NDIRECT]);
      while tot < |src|
        invariant Valid() && |inodes| == |old(inodes)| && tot <= |src| && pos == off + tot && AtBlock(off, tot, |src|)
        invariant Changed(old(data), old(inodes), data, inodes, i, off, src[..tot])
        invariant |touched| <= Span(off, tot) && tot <= ok
        invariant LoggedOnly(sb, old(logged), logged, touched + NonZero(inodes[i].addrs[NDIRECT]))
      {
        ghost var data1, inodes1, logged1, ind := data, inodes, logged, inodes[i].addrs[NDIRECT];
        var m := Chunk(off, tot, |src|);
        ChunkFits(off, tot, |src|);
        assert src[tot..tot + 0] == [];
        var out, addr := WriteChunk(i, pos, src[tot..tot + m], tot + m <= ok);
        LoggedMore(sb, old(logged), logged1, logged, touched, ind, addr, inodes[i].addrs[NDIRECT]);
        touched := touched + NonZero(addr);
        ChangedChunk(old(data), old(inodes), data1, inodes1, data, inodes, i, off, src, tot,
                     if out == Stored then m else 0);
        if out != Stored {
          return;
        }
        tot, pos := tot + m, pos + m;
      }
    }

    /**
     Stores the first r bytes of src in file i from off on, growing it if they reach past its
     end, and changes no other file.  Fewer than all are stored only if the disk fills or the
     source faults, and then r is the last block boundary the source reaches; ok is how many
     bytes of it can be read.
     */
    method WriteI(i: nat, off: word, src: seq<byte>, ok: nat) returns (r: int, ghost touched: set<nat>)
      requires Valid() && i < |inodes| && |src| < WORD
      modifies `data, `inodes, `owner, `used, `logged
      ensures Valid() && |inodes| == |old(inodes)|
      ensures var bad := off > old(inodes[i].size) || off + |src| >= WORD || off + |src| > MAXFILE * BSIZE;
              if bad then r == -1 && data == old(data) && inodes == old(inodes) && logged == old(logged)
              else
                && 0 <= r <= |src| && (r < |src| ==> Full(sb, data) || ok < |src|)
                && StopsAt(off, |src|, ok, r, Full(sb, data))
                && Contents(data, inodes, i) == FileSplice(old(Contents(data, inodes, i)), off, src[..r])
                && (forall j: nat :: j < |inodes| && j != i ==>
                    Contents(data, inodes, j) == old(Contents(data, inodes, j)))
      ensures |touched| <= Span(off, |src|)
      ensures LoggedOnly(sb, old(logged), logged, touched + NonZero(inodes[i].addrs[NDIRECT]) + {sb.IBlock(i)})
    {
      hide Owned, Marked, NoHoles, Full, Changed, FileByte, Span;
      touched := {};
      if off > inodes[i].size || (off + |src|) % WORD < off {
        return -1, touched;
      }
      if off + |src| > MAXFILE * BSIZE {
        return -1, touched;
      }
      var tot;
      tot, touched := WriteBlocks(i, off, src, ok);
      SizeSet(sb, old(data), old(inodes), data, inodes, owner, i, off, src[..tot]);
      inodes := WithSize(inodes, i, off + tot);
      logged := logged + {sb.IBlock(i)};
      r := tot;
    }

    /** itrunc() frees one direct block and clears its address. */
    method FreeDirect(i: nat, k: nat)
      requires Shaped() && used == owner.Keys && i < |inodes| && k < NDIRECT && inodes[i].addrs[k] != 0
      modifies `data, `inodes, `owner, `used, `logged
      ensures Shaped() && used == owner.Keys && DataKept(sb, old(data), data)
      ensures inodes == old(WithAddr(inodes, i, k, 0)) && owner == old(owner - {inodes[i].addrs[k]})
      ensures old(inodes[i].addrs[k]) in old(owner) && old(owner)[old(inodes[i].addrs[k])] == Direct(i, k)
    {
      hide Owned, Marked, AddrOf;
      var b := inodes[i].addrs[k];
      DirectThere(sb, data, inodes, owner, i, k);
      BitmapBelow(sb, b);
      BFree(b);
      AddrCleared(data, inodes, i, k);
      SlotEmptied(sb, data, inodes, owner, data, WithAddr(inodes, i, k, 0), Direct(i, k));
      inodes := WithAddr(inodes, i, k, 0);
      owner := owner - {b};
    }

    /** itrunc() frees the blocks named in an inode's indirect block, which stays as it is. */
    method FreeEntries(i: nat)
      requires Shaped() && used == owner.Keys && i < |inodes| && inodes[i].addrs[NDIRECT] != 0
      modifies `data, `used, `logged
      ensures Shaped() && DataKept(sb, old(data), data) && used == Left(owner, i, NINDIRECT)
    {
      hide Owned, Marked, AddrOf, SetBit, Left, DataKept;
      IndirectThere(sb, data, inodes, owner, i);
      AllLeft(sb, data, owner, i);
      for j := 0 to NINDIRECT
        invariant Shaped() && DataKept(sb, old(data), data) && used == Left(owner, i, j)
      {
        EntryStep(sb, data, inodes, owner, i, j);
        var a := Word(data[inodes[i].addrs[NDIRECT]], j);
        if a != 0 {
          BitDataKept(sb, old(data), data, a);
          BFree(a);
        }
      }
    }

    /** itrunc() frees an inode's indirect block and the blocks named in it. */
    method FreeIndirect(i: nat)
      requires Shaped() && used == owner.Keys && i < |inodes| && inodes[i].addrs[NDIRECT] != 0
      modifies `data, `inodes, `owner, `used, `logged
      ensures Shaped() && used == owner.Keys && DataKept(sb, old(data), data)
      ensures inodes == old(WithAddr(inodes, i, NDIRECT, 0)) && owner == old(Without(owner, i, 0, true))
    {
      hide Owned, Marked, AddrOf, SetBit, Left, DataKept, Without;
      var ind := inodes[i].addrs[NDIRECT];
      FreeEntries(i);
      IndirectThere(sb, data, inodes, owner, i);
      IndirectLeft(sb, data, inodes, owner, i);
      BitDataKept(sb, old(data), data, ind);
      BFree(ind);
      IndirectCut(sb, data, inodes, owner, i);
      inodes := WithAddr(inodes, i, NDIRECT, 0);
      owner := Without(owner, i, 0, true);
    }

    /** Empties file i: exactly its blocks are free again, and no other file has changed. */
    method ITrunc(i: nat)
      requires Valid() && i < |inodes|
      modifies `data, `inodes, `owner, `used, `logged
      ensures Valid() && |inodes| == |old(inodes)| && DataKept(sb, old(data), data)
      ensures Contents(data, inodes, i) == []
      ensures forall j: nat :: j < |inodes| && j != i ==>
                inodes[j] == old(inodes)[j] && Contents(data, inodes, j) == old(Contents(data, inodes, j))
      ensures owner == Without(old(owner), i, NDIRECT, true)
    {
      hide Owned, Marked, AddrOf, NoHoles, FileByte, SetBit, DataKept, Without;
      AllLeft(sb, data, owner, i);
      for k := 0 to NDIRECT
        invariant Shaped() && used == owner.Keys && |inodes| == |old(inodes)| && DataKept(sb, old(data), data)
        invariant Cut(old(inodes), inodes, i, k) && owner == Without(old(owner), i, k, false)
      {
        DirectStep(sb, data, inodes, old(owner), owner, i, k);
        if inodes[i].addrs[k] != 0 {
          ghost var was := data;
          FreeDirect(i, k);
          DataMore(sb, old(data), was, data);
        }
      }
      WithoutBoth(old(owner), i);
      if inodes[i].addrs[NDIRECT] != 0 {
        ghost var was := data;
        FreeIndirect(i);
        DataMore(sb, old(data), was, data);
      } else {
        NoIndirect(sb, data, inodes, owner, i);
      }
      SizeOnly(sb, data, inodes, owner, i, 0);
      inodes := inodes[i := inodes[i].(size := 0)];
      Emptied(sb, old(data), old(inodes), old(owner), data, inodes, i);
      logged := logged + {sb.IBlock(i)};
    }
  }
}
