/**
 filewrite() of kernel/file.c: a write to an inode split into transactions small
 enough for the log.
 */
module FileWrite {
  import opened Bytes
  import opened FsLayout
  import opened Fs

  const MAXOPBLOCKS := 10

  // ((MAXOPBLOCKS - 1 - 1 - 2) / 2) * BSIZE
  const MAXCHUNK := ((MAXOPBLOCKS - 1 - 1 - 2) / 2) * BSIZE

  /** A chunk lies on at most four blocks. */
  lemma ChunkSpan(off: nat, n: nat)
    requires n <= MAXCHUNK
    ensures Span(off, n) <= 4
  {
    if n > 0 {
      assert (off + n - 1) / BSIZE <= off / BSIZE + 3;
    }
  }

  /** With one bitmap block, what a chunk logs is four data blocks, that one, the indirect block and the inode's. */
  lemma ChunkBlocks(sb: Super, logged: set<nat>, touched: set<nat>, ind: nat, iblock: nat)
    requires sb.Valid() && sb.size <= BPB && |touched| <= 4
    requires LoggedOnly(sb, {}, logged, touched + NonZero(ind) + {iblock})
    ensures |logged| <= 7
  {
    var all := touched + NonZero(ind) + {iblock} + {sb.bmapstart};
    assert sb.BBlock(sb.size - 1) == sb.bmapstart;
    assert logged <= all;
    SubsetSize(logged, all);
    UnionSize(touched, NonZero(ind));
    UnionSize(touched + NonZero(ind), {iblock});
    UnionSize(touched + NonZero(ind) + {iblock}, {sb.bmapstart});
  }

  lemma UnionSize(a: set<nat>, b: set<nat>)
    ensures |a + b| <= |a| + |b|
  {
    assert a + b == a + (b - a);
    SubsetSize(b - a, b);
  }

  lemma {:induction false} SubsetSize(a: set<nat>, b: set<nat>)
    requires a <= b
    ensures |a| <= |b|
  {
    if a != {} {
      var x :| x in a;
      SubsetSize(a - {x}, b - {x});
    }
  }

  lemma SpliceMore(c: seq<byte>, off: nat, a: seq<byte>, b: seq<byte>)
    requires off <= |c|
    ensures off + |a| <= |FileSplice(c, off, a)|
            && FileSplice(FileSplice(c, off, a), off + |a|, b) == FileSplice(c, off, a + b)
  {}

  lemma SpliceOn(c: seq<byte>, off: nat, src: seq<byte>, i: nat, n: nat, w: nat)
    requires off <= |c| && i + n <= |src| && w <= n
    ensures off + i <= |FileSplice(c, off, src[..i])|
    ensures FileSplice(FileSplice(c, off, src[..i]), off + i, src[i..i + n][..w]) == FileSplice(c, off, src[..i + w])
  {
    hide FileSplice;
    SpliceMore(c, off, src[..i], src[i..i + n][..w]);
    assert src[..i] + src[i..i + n][..w] == src[..i + w];
  }

  lemma SpliceNothing(c: seq<byte>, off: nat)
    requires off <= |c|
    ensures FileSplice(c, off, []) == c
  {}

  ghost predicate OthersKept(data: Disk, inodes: seq<Inode>, data': Disk, inodes': seq<Inode>, i: nat) {
    |inodes'| == |inodes| && forall j: nat :: j < |inodes| && j != i ==>
      Contents(data', inodes', j) == Contents(data, inodes, j)
  }

  /** One transaction of filewrite(): at most seven distinct blocks go into the log. */
  method WriteOp(fs: FileSystem, i: nat, off: word, bytes: seq<byte>, ok: nat) returns (r: int)
    requires fs.Valid() && i < |fs.inodes| && |bytes| <= MAXCHUNK
    modifies fs
    ensures fs.Valid() && OthersKept(old(fs.data), old(fs.inodes), fs.data, fs.inodes, i)
    ensures fs.sb.size <= BPB ==> |fs.logged| <= 7 < MAXOPBLOCKS
    ensures -1 <= r <= |bytes|
    ensures r == -1 ==> Contents(fs.data, fs.inodes, i) == old(Contents(fs.data, fs.inodes, i))
    ensures r >= 0 ==>
              off <= |old(Contents(fs.data, fs.inodes, i))| && off + |bytes| <= MAXFILE * BSIZE &&
              Contents(fs.data, fs.inodes, i) == FileSplice(old(Contents(fs.data, fs.inodes, i)), off, bytes[..r])
    ensures r == -1 ==> off > |old(Contents(fs.data, fs.inodes, i))| || off + |bytes| > MAXFILE * BSIZE
    ensures 0 <= r < |bytes| ==> Full(fs.sb, fs.data) || ok < |bytes|
  {
    hide Span, FileByte, LoggedOnly, Owned, Marked, NoHoles, Full;
    fs.logged := {};
    ghost var touched;
    r, touched := fs.WriteI(i, off, bytes, ok);
    ChunkSpan(off, |bytes|);
    if fs.sb.size <= BPB {
      ChunkBlocks(fs.sb, fs.logged, touched, fs.inodes[i].addrs[NDIRECT], fs.sb.IBlock(i));
    }
  }

  /** struct file, of type FD_INODE */
  class OpenFile {
    const ip: nat
    const writable: bool
    var off: word

    constructor (ip: nat, writable: bool, off: word)
      ensures this.ip == ip && this.writable == writable && this.off == off
    {
      this.ip, this.writable, this.off := ip, writable, off;
    }

    /**
     Writes src at the file offset.  Exactly a prefix of it, k bytes, ends up in the file and the
     offset moves past that prefix; the result is its length when it is all of src and -1 otherwise.
     */
    method Write(fs: FileSystem, src: seq<byte>, ok: nat) returns (r: int, ghost k: nat)
      requires fs.Valid() && ip < |fs.inodes| && |src| < 0x8000_0000
      modifies this`off, fs
      ensures fs.Valid() && OthersKept(old(fs.data), old(fs.inodes), fs.data, fs.inodes, ip)
      ensures !writable ==> r == -1 && k == 0
      ensures k <= |src| && off == old(off) + k && (writable ==> r == if k == |src| then |src| else -1)
      ensures var c := old(Contents(fs.data, fs.inodes, ip));
              Contents(fs.data, fs.inodes, ip) == if old(off) <= |c| then FileSplice(c, old(off), src[..k]) else c
      ensures old(off) > old(fs.inodes[ip].size) ==> k == 0
      ensures writable && k < |src| ==>
                || Full(fs.sb, fs.data) || ok < |src| || old(off) > old(fs.inodes[ip].size)
                   || old(off) + |src| > MAXFILE * BSIZE
    {
      hide FileByte, Owned, Marked, NoHoles, Full, FileSplice;
      k := 0;
      ghost var c := Contents(fs.data, fs.inodes, ip);
      assert src[..0] == [];
      if off <= |c| { SpliceNothing(c, off); }
      if !writable {
        return -1, 0;
      }
      var i := 0;
      while i < |src|
        invariant fs.Valid() && ip < |fs.inodes| && OthersKept(old(fs.data), old(fs.inodes), fs.data, fs.inodes, ip)
        invariant k == i <= |src| && off == old(off) + i && (old(off) > |c| ==> i == 0)
        invariant Contents(fs.data, fs.inodes, ip) == if old(off) <= |c| then FileSplice(c, old(off), src[..i]) else c
        decreases |src| - i
      {
        var n1 := Min(|src| - i, MAXCHUNK);
        if old(off) <= |c| { SpliceMore(c, old(off), src[..i], []); }
        var w := WriteOp(fs, ip, off, src[i..i + n1], if ok > i then ok - i else 0);
        if w >= 0 {
          SpliceOn(c, old(off), src, i, n1, w);
        }
        if w > 0 {
          off := off + w;
          k := k + w;
        }
        if w != n1 {
          return -1, k;
        }
        i := i + w;
      }
      r := |src|;
    }
  }
}
