/**
 The on-disk redo log of kernel/log.c: a header block holding a count and the
 home block numbers, followed by the logged blocks themselves.  `Durable` says
 what a completed recovery would leave in a home block; the lemmas say how each
 kind of disk write changes it.
 */
module LogDisk {
  import opened Bytes
  import opened Common

  type Disk = seq<Block>

  /** Where the log lives (superblock fields) and how many blocks it can hold (LOGBLOCKS). */
  datatype Layout = Layout(size: nat, start: nat, cap: nat) {
    // initlog() panics unless the header fits in a block.
    predicate Valid() {
      4 * (cap + 1) < BSIZE && start + cap < size && size < WORD
    }

    // The header or one of the log's data blocks.
    predicate InLog(b: nat) { start <= b <= start + cap }

    predicate Home(b: nat) { b < size && !InLog(b) }

    // The disk block holding the i-th logged block.
    function Slot(i: nat): nat { start + 1 + i }
  }

  /** The count stored in the on-disk header. */
  function HeadCount(l: Layout, d: Disk): (n: word)
    requires l.Valid() && |d| == l.size
  {
    Word(d[l.start], 0)
  }

  /** The home block numbers stored in a header block, count of them. */
  function HeaderList(h: Block): (s: seq<word>)
    requires Word(h, 0) < WORDS
  {
    seq(Word(h, 0), i requires 0 <= i < Word(h, 0) => Word(h, i + 1))
  }

  /** A logged set of home blocks: in range, outside the log, no block twice. */
  predicate GoodList(l: Layout, blocks: seq<nat>) {
    && |blocks| <= l.cap
    && NoDup(blocks)
    && forall i :: 0 <= i < |blocks| ==> l.Home(blocks[i])
  }

  predicate GoodDisk(l: Layout, d: Disk) {
    && l.Valid()
    && |d| == l.size
    && HeadCount(l, d) <= l.cap
    && GoodList(l, HeaderList(d[l.start]))
  }

  /** What home block b holds once recovery has run to completion. */
  function Durable(l: Layout, d: Disk, b: nat): (r: Block)
    requires GoodDisk(l, d) && l.Home(b)
  {
    var blocks := HeaderList(d[l.start]);
    if b in blocks then d[l.Slot(Find(blocks, b))] else d[b]
  }

  /** Two disks that recover to the same file system. */
  ghost predicate SameDurable(l: Layout, d: Disk, e: Disk)
    requires GoodDisk(l, d) && GoodDisk(l, e)
  {
    forall b: nat | l.Home(b) :: Durable(l, d, b) == Durable(l, e, b)
  }

  /** The header block write_head() builds: count, then entries; later words keep their stale values. */
  predicate IsHeader(h: Block, blocks: seq<nat>) {
    && |blocks| < WORDS
    && Word(h, 0) == |blocks|
    && forall i :: 0 <= i < |blocks| ==> Word(h, i + 1) == blocks[i]
  }

  lemma HeaderDecodes(h: Block, blocks: seq<nat>)
    requires IsHeader(h, blocks)
    ensures Word(h, 0) < WORDS && HeaderList(h) == blocks
  {}

  /** Writing a log slot while the header is clear is invisible to recovery. */
  lemma SlotWriteInvisible(l: Layout, d: Disk, i: nat, x: Block)
    requires GoodDisk(l, d) && HeadCount(l, d) == 0 && i < l.cap
    ensures GoodDisk(l, d[l.Slot(i) := x])
    ensures SameDurable(l, d, d[l.Slot(i) := x])
  {}

  /** The commit point: one header write turns every slot into its block's durable contents. */
  lemma HeaderWriteCommits(l: Layout, d: Disk, h: Block, blocks: seq<nat>)
    requires GoodDisk(l, d) && HeadCount(l, d) == 0
    requires GoodList(l, blocks) && IsHeader(h, blocks)
    ensures var e := d[l.start := h];
            && GoodDisk(l, e)
            && HeaderList(e[l.start]) == blocks
            && (forall i :: 0 <= i < |blocks| ==> Durable(l, e, blocks[i]) == d[l.Slot(i)])
            && (forall b: nat | l.Home(b) && b !in blocks :: Durable(l, e, b) == d[b])
  {
    HeaderDecodes(h, blocks);
  }

  /** Installing a slot is invisible to recovery, however often it is repeated. */
  lemma InstallInvisible(l: Layout, d: Disk, i: nat)
    requires GoodDisk(l, d) && i < HeadCount(l, d)
    ensures var e := d[HeaderList(d[l.start])[i] := d[l.Slot(i)]];
            GoodDisk(l, e) && SameDurable(l, d, e)
  {}

  /** Clearing the header is invisible to recovery once every slot is installed. */
  lemma ClearInvisible(l: Layout, d: Disk, h: Block)
    requires GoodDisk(l, d) && Word(h, 0) == 0
    requires forall i :: 0 <= i < HeadCount(l, d) ==> d[HeaderList(d[l.start])[i]] == d[l.Slot(i)]
    ensures GoodDisk(l, d[l.start := h]) && HeadCount(l, d[l.start := h]) == 0
    ensures SameDurable(l, d, d[l.start := h])
  {
    HeaderDecodes(h, []);
  }
}
