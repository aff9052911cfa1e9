/**
 kernel/log.c as code: the in-memory header, the loops of write_log(),
 write_head(), install_trans() and read_head(), and commit() and recovery built
 from them.  `writes` records the disk after every bwrite(), so that a contract
 can speak of a crash between any two of them.
 */
module LogCode {
  import opened Bytes
  import opened Common
  import opened LogDisk

  // ---- What the loops do to the disk ----

  /** write_log(): the first k slots filled. */
  ghost function FillSlots(l: Layout, d: Disk, xs: seq<Block>, k: nat): (e: Disk)
    requires l.Valid() && |d| == l.size && k <= |xs| <= l.cap
    ensures |e| == |d|
  {
    if k == 0 then d else FillSlots(l, d, xs, k - 1)[l.Slot(k - 1) := xs[k - 1]]
  }

  /** install_trans(): the first k slots copied home. */
  ghost function InstallTo(l: Layout, d: Disk, blocks: seq<nat>, k: nat): (e: Disk)
    requires l.Valid() && |d| == l.size && GoodList(l, blocks) && k <= |blocks|
    ensures |e| == |d|
  {
    if k == 0 then d else InstallTo(l, d, blocks, k - 1)[blocks[k - 1] := d[l.Slot(k - 1)]]
  }

  lemma {:induction false} FillSlotsAt(l: Layout, d: Disk, xs: seq<Block>, k: nat)
    requires l.Valid() && |d| == l.size && k <= |xs| <= l.cap
    ensures var e := FillSlots(l, d, xs, k);
            && (forall i :: 0 <= i < k ==> e[l.Slot(i)] == xs[i])
            && (forall b :: 0 <= b < l.size && !(l.start < b <= l.start + k) ==> e[b] == d[b])
  {
    if k > 0 {
      FillSlotsAt(l, d, xs, k - 1);
    }
  }

  lemma {:induction false} InstallToAt(l: Layout, d: Disk, blocks: seq<nat>, k: nat)
    requires l.Valid() && |d| == l.size && GoodList(l, blocks) && k <= |blocks|
    ensures var e := InstallTo(l, d, blocks, k);
            && (forall i :: 0 <= i < k ==> e[blocks[i]] == d[l.Slot(i)])
            && (forall b :: 0 <= b < l.size && b !in blocks[..k] ==> e[b] == d[b])
  {
    if k > 0 {
      InstallToAt(l, d, blocks, k - 1);
      assert blocks[..k] == blocks[..k - 1] + [blocks[k - 1]];
    }
  }

  /** Filling slots is invisible to recovery while the header is clear. */
  lemma FillSlotsInvisible(l: Layout, d: Disk, xs: seq<Block>, k: nat)
    requires GoodDisk(l, d) && HeadCount(l, d) == 0 && k <= |xs| <= l.cap
    ensures var e := FillSlots(l, d, xs, k);
            GoodDisk(l, e) && HeadCount(l, e) == 0 && SameDurable(l, d, e)
  {
    FillSlotsAt(l, d, xs, k);
  }

  /** Installing any number of slots is invisible to recovery. */
  lemma InstallToInvisible(l: Layout, d: Disk, k: nat)
    requires GoodDisk(l, d) && k <= HeadCount(l, d)
    ensures var e := InstallTo(l, d, HeaderList(d[l.start]), k);
            GoodDisk(l, e) && e[l.start] == d[l.start] && SameDurable(l, d, e)
  {
    var blocks := HeaderList(d[l.start]);
    InstallToAt(l, d, blocks, k);
    var e := InstallTo(l, d, blocks, k);
    forall b: nat | l.Home(b) ensures Durable(l, d, b) == Durable(l, e, b) {
      if b in blocks {
        assert e[l.Slot(Find(blocks, b))] == d[l.Slot(Find(blocks, b))];
      }
    }
  }

  /** Once every slot is installed, clearing the header is invisible too. */
  lemma InstalledThenCleared(l: Layout, d: Disk, h: Block)
    requires GoodDisk(l, d) && Word(h, 0) == 0
    ensures var e := InstallTo(l, d, HeaderList(d[l.start]), HeadCount(l, d))[l.start := h];
            && GoodDisk(l, e) && HeadCount(l, e) == 0 && SameDurable(l, d, e)
            && forall b: nat | l.Home(b) :: e[b] == Durable(l, d, b)
  {
    var blocks := HeaderList(d[l.start]);
    InstallToAt(l, d, blocks, |blocks|);
    InstallToInvisible(l, d, |blocks|);
    ClearInvisible(l, InstallTo(l, d, blocks, |blocks|), h);
    HeaderDecodes(h, []);
  }

  // ---- A whole commit, write by write ----

  /** The block bread() would return. */
  function Shown(d: Disk, data: map<nat, Block>, b: nat): Block
    requires b < |d|
  {
    if b in data then data[b] else d[b]
  }

  /** The disks write_log() goes through. */
  ghost function FillTrace(l: Layout, d: Disk, xs: seq<Block>, k: nat): (t: seq<Disk>)
    requires l.Valid() && |d| == l.size && k <= |xs| <= l.cap
    ensures |t| == k && forall i :: 0 <= i < k ==> t[i] == FillSlots(l, d, xs, i + 1)
  {
    if k == 0 then [] else FillTrace(l, d, xs, k - 1) + [FillSlots(l, d, xs, k)]
  }

  /** The disks install_trans() goes through. */
  ghost function InstallTrace(l: Layout, d: Disk, blocks: seq<nat>, k: nat): (t: seq<Disk>)
    requires l.Valid() && |d| == l.size && GoodList(l, blocks) && k <= |blocks|
    ensures |t| == k && forall i :: 0 <= i < k ==> t[i] == InstallTo(l, d, blocks, i + 1)
  {
    if k == 0 then [] else InstallTrace(l, d, blocks, k - 1) + [InstallTo(l, d, blocks, k)]
  }

  lemma FillStart(l: Layout, d: Disk, xs: seq<Block>)
    requires l.Valid() && |d| == l.size && |xs| <= l.cap
    ensures FillSlots(l, d, xs, 0) == d && FillTrace(l, d, xs, 0) == []
  {}

  lemma FillMore(l: Layout, d: Disk, xs: seq<Block>, k: nat)
    requires l.Valid() && |d| == l.size && k < |xs| <= l.cap
    ensures |FillSlots(l, d, xs, k)| == |d| && FillSlots(l, d, xs, k + 1) == FillSlots(l, d, xs, k)[l.Slot(k) := xs[k]]
    ensures FillTrace(l, d, xs, k + 1) == FillTrace(l, d, xs, k) + [FillSlots(l, d, xs, k + 1)]
  {}

  lemma InstallTraceMore(l: Layout, d: Disk, blocks: seq<nat>, k: nat)
    requires l.Valid() && |d| == l.size && GoodList(l, blocks) && k < |blocks|
    ensures InstallTrace(l, d, blocks, k + 1) == InstallTrace(l, d, blocks, k) + [InstallTo(l, d, blocks, k + 1)]
  {}

  lemma InstallTraceInvisible(l: Layout, d: Disk)
    requires GoodDisk(l, d)
    ensures var t := InstallTrace(l, d, HeaderList(d[l.start]), HeadCount(l, d));
            forall k :: 0 <= k < |t| ==> GoodDisk(l, t[k]) && SameDurable(l, d, t[k])
  {
    var t := InstallTrace(l, d, HeaderList(d[l.start]), HeadCount(l, d));
    forall k | 0 <= k < |t| ensures GoodDisk(l, t[k]) && SameDurable(l, d, t[k]) {
      InstallToInvisible(l, d, k + 1);
    }
  }

  /** Every disk commit() goes through, in order. */
  ghost function CommitTrace(l: Layout, d: Disk, blocks: seq<nat>, xs: seq<Block>, h: Block, h0: Block): seq<Disk>
    requires l.Valid() && |d| == l.size && GoodList(l, blocks) && |xs| == |blocks|
  {
    var n := |blocks|;
    var committed := FillSlots(l, d, xs, n)[l.start := h];
    FillTrace(l, d, xs, n) + [committed]
    + InstallTrace(l, committed, blocks, n) + [InstallTo(l, committed, blocks, n)[l.start := h0]]
  }

  /** Recovering e yields the old file system with the logged blocks replaced. */
  ghost predicate After(l: Layout, d: Disk, blocks: seq<nat>, xs: seq<Block>, e: Disk)
    requires GoodDisk(l, d) && GoodList(l, blocks) && |xs| == |blocks| && GoodDisk(l, e)
  {
    forall b: nat | l.Home(b) :: Durable(l, e, b) == if b in blocks then xs[Find(blocks, b)] else Durable(l, d, b)
  }

  lemma HeaderCommits(l: Layout, d: Disk, blocks: seq<nat>, xs: seq<Block>, h: Block)
    requires GoodDisk(l, d) && HeadCount(l, d) == 0
    requires GoodList(l, blocks) && |xs| == |blocks| && IsHeader(h, blocks)
    ensures var e := FillSlots(l, d, xs, |blocks|)[l.start := h];
            GoodDisk(l, e) && HeaderList(e[l.start]) == blocks && After(l, d, blocks, xs, e)
  {
    FillSlotsAt(l, d, xs, |blocks|);
    FillSlotsInvisible(l, d, xs, |blocks|);
    HeaderWriteCommits(l, FillSlots(l, d, xs, |blocks|), h, blocks);
  }

  lemma CommitTraceAt(l: Layout, d: Disk, blocks: seq<nat>, xs: seq<Block>, h: Block, h0: Block, k: nat)
    requires l.Valid() && |d| == l.size && GoodList(l, blocks) && |xs| == |blocks|
    ensures var t, n := CommitTrace(l, d, blocks, xs, h, h0), |blocks|;
            var committed := FillSlots(l, d, xs, n)[l.start := h];
            |t| == 2 * n + 2 && (k < |t| ==>
              t[k] == if k < n then FillSlots(l, d, xs, k + 1) else if k == n then committed
                      else if k <= 2 * n then InstallTo(l, committed, blocks, k - n)
                      else InstallTo(l, committed, blocks, n)[l.start := h0])
  {}

  lemma AfterSame(l: Layout, d: Disk, blocks: seq<nat>, xs: seq<Block>, c: Disk, e: Disk)
    requires GoodDisk(l, d) && GoodList(l, blocks) && |xs| == |blocks| && GoodDisk(l, c) && GoodDisk(l, e)
    requires After(l, d, blocks, xs, c) && SameDurable(l, c, e)
    ensures After(l, d, blocks, xs, e)
  {}

  /**
   Crash atomicity of commit(): at every write up to the header write recovery yields the
   file system before the transaction, from then on the one after it.
   */
  lemma CommitAtomic(l: Layout, d: Disk, blocks: seq<nat>, xs: seq<Block>, h: Block, h0: Block, k: nat)
    requires GoodDisk(l, d) && HeadCount(l, d) == 0
    requires GoodList(l, blocks) && |xs| == |blocks| && IsHeader(h, blocks) && Word(h0, 0) == 0
    requires k < |CommitTrace(l, d, blocks, xs, h, h0)|
    ensures var e := CommitTrace(l, d, blocks, xs, h, h0)[k];
            GoodDisk(l, e) && if k < |blocks| then SameDurable(l, d, e) else After(l, d, blocks, xs, e)
  {
    hide FillSlots, InstallTo, CommitTrace, After, SameDurable, Durable;
    CommitTraceAt(l, d, blocks, xs, h, h0, k);
    var n, e := |blocks|, CommitTrace(l, d, blocks, xs, h, h0)[k];
    if k < n {
      FillSlotsInvisible(l, d, xs, k + 1);
    } else {
      var committed := FillSlots(l, d, xs, n)[l.start := h];
      HeaderCommits(l, d, blocks, xs, h);
      if n < k <= 2 * n {
        InstallToInvisible(l, committed, k - n);
        AfterSame(l, d, blocks, xs, committed, e);
      } else if k == 2 * n + 1 {
        InstalledThenCleared(l, committed, h0);
        AfterSame(l, d, blocks, xs, committed, e);
      }
    }
  }

  /** The same, in terms of what bread() showed when commit() began. */
  lemma CommitShown(l: Layout, d: Disk, data: map<nat, Block>, blocks: seq<nat>, xs: seq<Block>, h: Block, h0: Block)
    requires GoodDisk(l, d) && HeadCount(l, d) == 0
    requires GoodList(l, blocks) && |xs| == |blocks| && IsHeader(h, blocks) && IsHeader(h0, [])
    requires forall i :: 0 <= i < |blocks| ==> blocks[i] in data && xs[i] == data[blocks[i]]
    requires forall b :: b in data && b !in blocks ==> b < |d| && data[b] == d[b]
    ensures var t := CommitTrace(l, d, blocks, xs, h, h0);
            && |t| == 2 * |blocks| + 2
            && (forall k :: 0 <= k < |t| ==> GoodDisk(l, t[k]))
            && (forall k :: 0 <= k < |blocks| ==> SameDurable(l, d, t[k]))
            && (forall k, b: nat :: |blocks| <= k < |t| && l.Home(b) ==> Durable(l, t[k], b) == Shown(d, data, b))
            && HeadCount(l, t[|t| - 1]) == 0
            && (forall b: nat | l.Home(b) :: t[|t| - 1][b] == Shown(d, data, b))
  {
    hide CommitTrace, FillSlots, InstallTo;
    var t := CommitTrace(l, d, blocks, xs, h, h0);
    forall k | 0 <= k < |t| ensures
        GoodDisk(l, t[k]) && if k < |blocks| then SameDurable(l, d, t[k]) else After(l, d, blocks, xs, t[k])
    {
      CommitAtomic(l, d, blocks, xs, h, h0, k);
    }
    HeaderDecodes(h0, []);
    CommitTraceAt(l, d, blocks, xs, h, h0, 2 * |blocks| + 1);
    CommittedClear(l, d, blocks, xs, h, h0);
  }

  /** At the end of commit() the header is clear. */
  lemma CommittedClear(l: Layout, d: Disk, blocks: seq<nat>, xs: seq<Block>, h: Block, h0: Block)
    requires GoodDisk(l, d) && HeadCount(l, d) == 0
    requires GoodList(l, blocks) && |xs| == |blocks| && IsHeader(h, blocks) && IsHeader(h0, [])
    ensures var t := CommitTrace(l, d, blocks, xs, h, h0);
            |t| == 2 * |blocks| + 2 && GoodDisk(l, t[|t| - 1]) && HeadCount(l, t[|t| - 1]) == 0
  {
    hide FillSlots, InstallTo, CommitTrace, After, SameDurable, Durable;
    CommitTraceAt(l, d, blocks, xs, h, h0, 2 * |blocks| + 1);
    HeaderCommits(l, d, blocks, xs, h);
    InstalledThenCleared(l, FillSlots(l, d, xs, |blocks|)[l.start := h], h0);
  }

  lemma Appended<T>(a: seq<T>, b: seq<T>, c: seq<T>, d: seq<T>, e: seq<T>)
    ensures a + b + c + d + e == a + (b + c + d + e)
  {}

  // ---- The code ----

  /** bunpin() of the first k blocks. */
  ghost function Unpin(r: seq<nat>, blocks: seq<nat>, k: nat): (q: seq<nat>)
    requires k <= |blocks| && forall i :: 0 <= i < |blocks| ==> blocks[i] < |r|
    ensures |q| == |r|
  {
    if k == 0 then r
    else
      var q := Unpin(r, blocks, k - 1);
      var b := blocks[k - 1];
      q[b := if q[b] > 0 then q[b] - 1 else 0]
  }

  lemma UnpinMore(r: seq<nat>, blocks: seq<nat>, k: nat)
    requires k < |blocks| && forall i :: 0 <= i < |blocks| ==> blocks[i] < |r|
    requires Unpin(r, blocks, k)[blocks[k]] > 0
    ensures var q := Unpin(r, blocks, k);
            Unpin(r, blocks, k + 1) == q[blocks[k] := q[blocks[k]] - 1]
  {}

  /** Each pinned block loses one reference, once. */
  lemma {:induction false} UnpinAt(r: seq<nat>, blocks: seq<nat>, k: nat, b: nat)
    requires k <= |blocks| && NoDup(blocks) && forall i :: 0 <= i < |blocks| ==> blocks[i] < |r| && r[blocks[i]] > 0
    requires b < |r|
    ensures Unpin(r, blocks, k)[b] == r[b] - if b in blocks[..k] then 1 else 0
  {
    if k > 0 {
      UnpinAt(r, blocks, k - 1, b);
      assert blocks[..k] == blocks[..k - 1] + [blocks[k - 1]];
    }
  }

  lemma InstallStart(l: Layout, d: Disk, r: seq<nat>, blocks: seq<nat>)
    requires l.Valid() && |d| == l.size && GoodList(l, blocks) && |r| == |d|
    ensures InstallTo(l, d, blocks, 0) == d && InstallTrace(l, d, blocks, 0) == []
    ensures (forall i :: 0 <= i < |blocks| ==> blocks[i] < |r|) && Unpin(r, blocks, 0) == r
  {}

  class Log {
    const l: Layout
    var disk: Disk
    var data: map<nat, Block>    // contents of the buffers that have been read
    var refs: seq<nat>           // b->refcnt, by block number
    var n: nat                   // log.lh.n
    var block: array<nat>        // log.lh.block
    ghost var writes: seq<Disk>  // the disk after each bwrite() so far

    /** Power-on: nothing cached, an empty in-memory header, the disk as it was left. */
    constructor (l: Layout, d: Disk)
      requires l.Valid() && |d| == l.size
      ensures this.l == l && disk == d && writes == [] && fresh(block) && Valid() && n == 0 && data == map[]
    {
      this.l, disk, data, n, writes := l, d, map[], 0, [];
      refs := seq(|d|, _ => 0);
      block := new nat[l.cap];
    }

    ghost predicate Shape()
      reads this, block
    {
      && l.Valid() && |disk| == l.size && block.Length == l.cap && n <= l.cap
      && GoodList(l, block[..n])
    }

    /** Buffers of the listed blocks are pinned; every other buffer agrees with the disk. */
    ghost predicate Cached(pinned: seq<nat>)
      reads this
    {
      && |refs| == |disk|
      && (forall b :: b in data ==> b < |disk|)
      && (forall b :: b in pinned ==> b in data && refs[b] > 0)
      && (forall b :: b in data && b !in pinned ==> data[b] == disk[b])
    }

    lemma CachedSized(pinned: seq<nat>)
      requires Cached(pinned)
      ensures |refs| == |disk|
    {}

    ghost predicate Valid()
      reads this, block
    {
      Shape() && Cached(block[..n])
    }

    /** bread(): find the block or read it, recycling any unreferenced buffers on the way. */
    method BRead(b: nat, ghost pinned: seq<nat>)
      requires b < |disk| && Cached(pinned)
      modifies this`data, this`refs
      ensures Cached(pinned)
      ensures b in data && data[b] == old(Shown(disk, data, b))
      ensures refs == old(refs)[b := old(refs)[b] + 1]
      ensures forall x :: x in old(data) && old(refs)[x] > 0 ==> x in data && data[x] == old(data)[x]
    {
      if b !in data {
        var free := set x | x in data && refs[x] == 0;
        var victims: set<nat> :| victims <= free;
        data := (data - victims)[b := disk[b]];
      }
      refs := refs[b := refs[b] + 1];
    }

    method BWrite(b: nat)
      requires b < |disk| && b in data
      modifies this`disk, this`writes
      ensures disk == old(disk)[b := data[b]]
      ensures writes == old(writes) + [disk]
    {
      disk := disk[b := data[b]];
      writes := writes + [disk];
    }

    /** bunpin(), and the reference dropped by brelse(). */
    method Drop(b: nat)
      requires b < |refs| && refs[b] > 0
      modifies this`refs
      ensures refs == old(refs)[b := old(refs)[b] - 1]
    {
      refs := refs[b := refs[b] - 1];
    }

    /** bread() of source and destination and the memmove between them. */
    method Fetch(from: nat, to: nat, ghost pinned: seq<nat>)
      requires from < |disk| && to < |disk| && from != to && Cached(pinned)
      modifies this`data, this`refs
      ensures refs == old(refs)[from := old(refs)[from] + 1][to := old(refs)[to] + 1]
      ensures to in data && data[to] == old(Shown(disk, data, from))
      ensures forall b :: b in data ==> b < |disk|
      ensures forall b :: b in pinned && b != to ==> b in data && data[b] == old(data)[b]
      ensures forall b :: b in data && b !in pinned && b != to ==> data[b] == disk[b]
    {
      BRead(from, pinned);
      BRead(to, pinned);
      data := data[to := data[from]];
    }

    /** One turn of write_log() or install_trans(). */
    method CopyBlock(from: nat, to: nat, unpin: bool, ghost pinned: seq<nat>)
      requires from < |disk| && to < |disk| && from != to && Cached(pinned) && (unpin ==> refs[to] > 0)
      modifies this`disk, this`data, this`refs, this`writes
      ensures disk == old(disk)[to := old(Shown(disk, data, from))]
      ensures writes == old(writes) + [disk]
      ensures refs == if unpin then old(refs)[to := old(refs)[to] - 1] else old(refs)
      ensures to in data && data[to] == disk[to]
      ensures forall b :: b in data ==> b < |disk|
      ensures forall b :: b in pinned && b != to ==> b in data && data[b] == old(data)[b]
      ensures forall b :: b in data && b !in pinned ==> data[b] == disk[b]
    {
      Fetch(from, to, pinned);
      BWrite(to);
      if unpin {
        Drop(to);
      }
      Drop(from);
      Drop(to);
    }

    /** write_log(): copy every logged block from the cache to its slot. */
    method WriteLog(ghost xs: seq<Block>)
      requires Valid() && |xs| == n && forall i :: 0 <= i < n ==> xs[i] == data[block[i]]
      modifies this`disk, this`data, this`refs, this`writes
      ensures Valid() && refs == old(refs)
      ensures forall b :: b in block[..n] ==> data[b] == old(data)[b]
      ensures disk == FillSlots(l, old(disk), xs, n)
      ensures writes == old(writes) + FillTrace(l, old(disk), xs, n)
    {
      hide FillSlots, FillTrace;
      FillStart(l, disk, xs);
      for tail := 0 to n
        invariant Valid() && refs == old(refs)
        invariant forall b :: b in block[..n] ==> data[b] == old(data)[b]
        invariant disk == FillSlots(l, old(disk), xs, tail)
        invariant writes == old(writes) + FillTrace(l, old(disk), xs, tail)
      {
        assert block[tail] in block[..n];
        CopyBlock(block[tail], l.Slot(tail), false, block[..n]);
        FillMore(l, old(disk), xs, tail);
      }
    }

    /** write_head(): store the in-memory header in the header buffer and write it. */
    method WriteHead(ghost pinned: seq<nat>) returns (ghost h: Block)
      requires Shape() && Cached(pinned) && l.start !in pinned
      modifies this`disk, this`data, this`refs, this`writes
      ensures IsHeader(h, block[..n])
      ensures disk == old(disk)[l.start := h] && writes == old(writes) + [disk]
      ensures refs == old(refs) && Cached(pinned)
      ensures forall b :: b in pinned ==> data[b] == old(data)[b]
    {
      BRead(l.start, pinned);
      var hb := PutWord(data[l.start], 0, n);
      for i := 0 to n
        invariant Word(hb, 0) == n
        invariant forall j :: 0 <= j < i ==> Word(hb, j + 1) == block[j]
      {
        hb := PutWord(hb, i + 1, block[i]);
      }
      h := hb;
      data := data[l.start := hb];
      BWrite(l.start);
      Drop(l.start);
    }

    /** One turn of install_trans() over a slot and the home block it belongs to. */
    method InstallOne(slot: nat, home: nat, recovering: bool, ghost pinned: seq<nat>)
      requires slot < |disk| && home < |disk| && slot != home && slot !in pinned && home !in pinned
      requires Cached(if recovering then [] else [home] + pinned)
      modifies this`disk, this`data, this`refs, this`writes
      ensures Cached(if recovering then [] else pinned)
      ensures disk == old(disk)[home := old(disk)[slot]] && writes == old(writes) + [disk]
      ensures refs == if recovering then old(refs) else old(refs)[home := old(refs)[home] - 1]
    {
      ghost var all := if recovering then [] else [home] + pinned;
      assert slot !in all;
      CopyBlock(slot, home, !recovering, all);
    }

    /** Turn number tail of install_trans() over these blocks, the disk having been d when it began. */
    method InstallTurn(home: nat, tail: nat, recovering: bool, ghost d: Disk, ghost blocks: seq<nat>)
      requires l.Valid() && GoodList(l, blocks) && tail < |blocks| && home == blocks[tail]
      requires |d| == l.size && disk == InstallTo(l, d, blocks, tail)
      requires Cached(if recovering then [] else blocks[tail..])
      modifies this`disk, this`data, this`refs, this`writes
      ensures Cached(if recovering then [] else blocks[tail + 1..])
      ensures disk == InstallTo(l, d, blocks, tail + 1) && writes == old(writes) + [disk]
      ensures !recovering ==> old(refs)[home] > 0
      ensures refs == if recovering then old(refs) else old(refs)[home := old(refs)[home] - 1]
    {
      assert disk[l.Slot(tail)] == d[l.Slot(tail)] by { InstallToAt(l, d, blocks, tail); }
      assert blocks[tail..] == [home] + blocks[tail + 1..] && home in blocks[tail..];
      InstallOne(l.Slot(tail), home, recovering, blocks[tail + 1..]);
    }

    /** install_trans(): copy every slot to its home block; outside recovery, unpin it. */
    method InstallTrans(recovering: bool, ghost blocks: seq<nat>)
      requires Shape() && blocks == block[..n] && Cached(if recovering then [] else blocks)
      modifies this`disk, this`data, this`refs, this`writes
      ensures Cached([])
      ensures disk == InstallTo(l, old(disk), blocks, n)
      ensures writes == old(writes) + InstallTrace(l, old(disk), blocks, n)
      ensures refs == if recovering then old(refs) else Unpin(old(refs), blocks, n)
    {
      hide InstallTo, InstallTrace, Unpin, Cached, GoodList;
      assert blocks[0..] == blocks && blocks[n..] == [];
      CachedSized(if recovering then [] else blocks);
      InstallStart(l, disk, refs, blocks);
      for tail := 0 to n
        invariant Cached(if recovering then [] else blocks[tail..])
        invariant disk == InstallTo(l, old(disk), blocks, tail)
        invariant writes == old(writes) + InstallTrace(l, old(disk), blocks, tail)
        invariant refs == if recovering then old(refs) else Unpin(old(refs), blocks, tail)
      {
        InstallTurn(block[tail], tail, recovering, old(disk), blocks);
        InstallTraceMore(l, old(disk), blocks, tail);
        if !recovering {
          UnpinMore(old(refs), blocks, tail);
        }
      }
    }

    /** What bread() shows for each logged block. */
    ghost function Contents(): (xs: seq<Block>)
      requires Valid()
      reads this, block
      ensures |xs| == n && forall i :: 0 <= i < n ==> xs[i] == data[block[i]]
    {
      seq(n, i requires 0 <= i < n reads this, block requires Valid() => assert block[i] in block[..n]; data[block[i]])
    }

    /** The body of commit(), which goes through exactly the disks of CommitTrace. */
    method CommitLogged(ghost blocks: seq<nat>, ghost xs: seq<Block>) returns (ghost h: Block, ghost h0: Block)
      requires Valid() && blocks == block[..n] && xs == Contents()
      modifies this
      ensures block == old(block) && Shape() && n == 0 && Cached([])
      ensures IsHeader(h, blocks) && IsHeader(h0, [])
      ensures writes == old(writes) + CommitTrace(l, old(disk), blocks, xs, h, h0)
      ensures disk == writes[|writes| - 1]
      ensures refs == Unpin(old(refs), blocks, |blocks|)
    {
      WriteLog(xs);
      h := WriteHead(blocks);
      ghost var committed := disk;
      InstallTrans(false, blocks);
      n := 0;
      h0 := WriteHead([]);
      Appended(old(writes), FillTrace(l, old(disk), xs, |blocks|), [committed],
               InstallTrace(l, committed, blocks, |blocks|), [disk]);
    }

    /**
     commit(): every write before the header write is invisible; from the header write on the new
     blocks are durable.
     */
    method Commit()
      requires Valid() && GoodDisk(l, disk) && HeadCount(l, disk) == 0
      modifies this
      ensures block == old(block) && Valid() && n == 0
      ensures GoodDisk(l, disk) && HeadCount(l, disk) == 0
      ensures |refs| == l.size && forall b :: 0 <= b < l.size ==>
                refs[b] == old(refs)[b] - if b in old(block[..n]) then 1 else 0
      ensures forall b: nat | l.Home(b) :: disk[b] == old(Shown(disk, data, b))
      ensures old(writes) <= writes
      ensures forall k :: old(|writes|) <= k < |writes| ==>
                GoodDisk(l, writes[k]) &&
                if k < old(|writes| + n) then SameDurable(l, old(disk), writes[k])
                else forall b: nat | l.Home(b) :: Durable(l, writes[k], b) == old(Shown(disk, data, b))
    {
      hide CommitTrace, Unpin, SameDurable, Durable;
      if n > 0 {
        ghost var blocks, xs := block[..n], Contents();
        ghost var h, h0 := CommitLogged(blocks, xs);
        CommitShown(l, old(disk), old(data), blocks, xs, h, h0);
        forall b | 0 <= b < l.size ensures refs[b] == old(refs)[b] - if b in blocks then 1 else 0 {
          UnpinAt(old(refs), blocks, |blocks|, b);
          assert blocks[..|blocks|] == blocks;
        }
      }
    }

    /** read_head(): load the header block into the in-memory header. */
    method ReadHead()
      requires GoodDisk(l, disk) && block.Length == l.cap && Cached([])
      modifies this`data, this`refs, this`n, block
      ensures n == HeadCount(l, disk) && block[..n] == HeaderList(disk[l.start])
      ensures refs == old(refs) && Cached([])
    {
      BRead(l.start, []);
      var lh := data[l.start];
      n := Word(lh, 0);
      for i := 0 to n
        invariant n == Word(lh, 0)
        invariant forall j :: 0 <= j < i ==> block[j] == Word(lh, j + 1)
        modifies block
      {
        block[i] := Word(lh, i + 1);
      }
      Drop(l.start);
      assert refs == old(refs);
    }

    /** recover_from_log(): no write changes what recovery would yield, and at the end every block is home. */
    method RecoverFromLog()
      requires GoodDisk(l, disk) && block.Length == l.cap && Cached([])
      modifies this, block
      ensures block == old(block) && Valid() && n == 0
      ensures GoodDisk(l, disk) && HeadCount(l, disk) == 0
      ensures forall b: nat | l.Home(b) :: disk[b] == Durable(l, old(disk), b)
      ensures old(writes) <= writes
      ensures forall k :: old(|writes|) <= k < |writes| ==>
                GoodDisk(l, writes[k]) && SameDurable(l, old(disk), writes[k])
    {
      ghost var d := disk;
      ReadHead();
      ghost var blocks := block[..n];
      InstallTrans(true, blocks);
      n := 0;
      ghost var h := WriteHead([]);
      InstalledThenCleared(l, d, h);
      InstallTraceInvisible(l, d);
    }

    /**
     log_write(): absorb a block already logged, otherwise append and pin it; None of it fits when
     the log is full.
     */
    method LogWrite(b: nat) returns (ok: bool)
      requires Shape() && l.Home(b) && |refs| == l.size
      modifies this`n, this`refs, block
      ensures Shape()
      ensures ok == (old(n) < l.cap)
      ensures block[..n] == if !ok || b in old(block[..n]) then old(block[..n]) else old(block[..n]) + [b]
      ensures refs == if !ok || b in old(block[..n]) then old(refs) else old(refs)[b := old(refs)[b] + 1]
    {
      ok := n < l.cap;
      if ok {
        var i := 0;
        while i < n && block[i] != b
          invariant 0 <= i <= n && b !in block[..i]
        {
          i := i + 1;
        }
        ghost var before := block[..n];
        block[i] := b;
        if i == n {
          refs := refs[b := refs[b] + 1];
          n := n + 1;
          assert block[..n] == before + [b];
        } else {
          assert block[..n] == before;
        }
      }
    }
  }
}
