/**
 Safety of the log machine over every run: whatever the interleaving and
 wherever the crashes fall, recovering the disk always yields exactly the blocks
 that bread() showed when the last committed transaction's last operation ended.
 */
module LogSafety {
  import opened Bytes
  import opened Common
  import opened LogDisk
  import opened LogMachine
  import opened Runs

  // ---- The invariant ----

  /** Logged blocks whose pin commit() has not yet dropped. */
  function Pinned(pc: Pc, lh: seq<nat>): seq<nat> {
    match pc
    case InstCopy(i) => if i <= |lh| then lh[i..] else []
    case InstWrite(i) => if i <= |lh| then lh[i..] else []
    case InstUnpin(i) => if i <= |lh| then lh[i..] else []
    case RecCopy(_) => []
    case RecWrite(_) => []
    case _ => lh
  }

  /** Logged blocks whose home copy is still the one before this transaction. */
  function Unwritten(pc: Pc, lh: seq<nat>): seq<nat> {
    match pc
    case InstUnpin(i) => if i < |lh| then lh[i + 1..] else []
    case _ => Pinned(pc, lh)
  }

  predicate InRange(pc: Pc, lh: seq<nat>) {
    match pc
    case LogCopy(i) => i <= |lh|
    case LogWrite(i) => i < |lh|
    case InstCopy(i) => i <= |lh|
    case InstWrite(i) => i < |lh|
    case InstUnpin(i) => i < |lh|
    case RecCopy(i) => i <= |lh|
    case RecWrite(i) => i < |lh|
    case ClearWrite => lh == []
    case Done => lh == []
    case RecHead => lh == []
    case RecClear => lh == []
    case _ => true
  }

  ghost predicate Shape(l: Layout, d: Disk, pc: Pc, lh: seq<nat>, active: set<Proc>) {
    && l.Valid() && |d| == l.size
    && GoodList(l, lh)
    && InRange(pc, lh)
    && (active != {} ==> pc == Idle)
  }

  /** References name cached buffers, lock holders have a reference, only buffers have contents. */
  ghost predicate Owned(l: Layout, cache: map<nat, Buf>, data: map<nat, Block>, refs: set<(Proc, nat)>) {
    && (forall b :: b in cache ==> b < l.size)
    && (forall b :: b in data ==> b in cache)
    && (forall r :: r in refs ==> r.1 in cache)
    && (forall b :: b in cache && cache[b].holder.Some? ==> (cache[b].holder.value, b) in refs)
  }

  /** An unlogged change is in the hands of an operation still in progress. */
  ghost predicate Dirty(l: Layout, cache: map<nat, Buf>, data: map<nat, Block>, dirty: set<nat>, active: set<Proc>) {
    forall b :: b in dirty ==>
      l.Home(b) && b in cache && b in data && cache[b].holder.Some? && cache[b].holder.value in active
  }

  /** commit() and recovery hold the buffer they are about to write. */
  ghost predicate Holding(t: Option<nat>, cache: map<nat, Buf>, data: map<nat, Block>, me: Proc) {
    t.Some? ==> t.value in cache && t.value in data && cache[t.value].holder == Some(me)
  }

  function RefsTo(refs: set<(Proc, nat)>, b: nat): set<(Proc, nat)> {
    set r | r in refs && r.1 == b
  }

  /** refcnt counts the references and the pin. */
  ghost predicate Counted(cache: map<nat, Buf>, refs: set<(Proc, nat)>, pinned: seq<nat>) {
    forall b :: b in cache ==> cache[b].refcnt == |RefsTo(refs, b)| + if b in pinned then 1 else 0
  }

  ghost predicate Present(pinned: seq<nat>, data: map<nat, Block>) {
    forall b :: b in pinned ==> b in data
  }

  /** A buffer that has been read agrees with the disk unless it is on its way there. */
  ghost predicate Coherent(d: Disk, data: map<nat, Block>, dirty: set<nat>, unwritten: seq<nat>, target: Option<nat>) {
    forall b ::
      b in data && b !in dirty && b !in unwritten && target != Some(b) ==> b < |d| && data[b] == d[b]
  }

  /** The first n entries of the on-disk header are already installed. */
  ghost predicate InstalledTo(l: Layout, d: Disk, n: nat)
    requires GoodDisk(l, d)
  {
    n <= HeadCount(l, d) &&
    forall j :: 0 <= j < n ==> d[HeaderList(d[l.start])[j]] == d[l.Slot(j)]
  }

  /** Before the commit point the snapshot is what bread() shows, and the slots hold a prefix of it. */
  ghost predicate Logged(l: Layout, d: Disk, data: map<nat, Block>, lh: seq<nat>, snap: Disk, n: nat)
    requires GoodDisk(l, d)
  {
    && HeadCount(l, d) == 0
    && n <= |lh| <= l.cap
    && |snap| == l.size
    && (forall b: nat | l.Home(b) :: View(d, data, b) == snap[b])
    && (forall j :: 0 <= j < n ==> lh[j] < l.size && d[l.Slot(j)] == snap[lh[j]])
  }

  ghost predicate Phase(l: Layout, d: Disk, data: map<nat, Block>, pc: Pc, lh: seq<nat>, snap: Disk)
    requires GoodDisk(l, d) && InRange(pc, lh)
  {
    match pc
    case Idle => HeadCount(l, d) == 0
    case Done => HeadCount(l, d) == 0
    case LogCopy(i) => Logged(l, d, data, lh, snap, i)
    case LogWrite(i) =>
      Logged(l, d, data, lh, snap, i) && lh[i] < l.size && l.Slot(i) in data && data[l.Slot(i)] == snap[lh[i]]
    case HeadWrite => Logged(l, d, data, lh, snap, |lh|) && l.start in data && IsHeader(data[l.start], lh)
    case InstCopy(i) => IsHeader(d[l.start], lh) && InstalledTo(l, d, i)
    case InstWrite(i) =>
      IsHeader(d[l.start], lh) && InstalledTo(l, d, i) && lh[i] in data && data[lh[i]] == d[l.Slot(i)]
    case InstUnpin(i) => IsHeader(d[l.start], lh) && InstalledTo(l, d, i + 1)
    case ClearWrite => InstalledTo(l, d, HeadCount(l, d)) && l.start in data && IsHeader(data[l.start], [])
    case RecHead => true
    case RecCopy(i) => IsHeader(d[l.start], lh) && InstalledTo(l, d, i)
    case RecWrite(i) =>
      IsHeader(d[l.start], lh) && InstalledTo(l, d, i) && lh[i] in data && data[lh[i]] == d[l.Slot(i)]
    case RecClear => InstalledTo(l, d, HeadCount(l, d)) && l.start in data && IsHeader(data[l.start], [])
  }

  /** Recovering now would leave exactly the committed file system. */
  ghost predicate Recoverable(l: Layout, d: Disk, committed: Disk) {
    && GoodDisk(l, d)
    && |committed| == l.size
    && forall b: nat | l.Home(b) :: Durable(l, d, b) == committed[b]
  }

  /** What the buffer cache keeps, whatever commit() is doing. */
  ghost predicate CacheInv(l: Layout, s: State) {
    && Shape(l, s.disk, s.pc, s.lh, s.active)
    && Owned(l, s.cache, s.data, s.refs)
    && Dirty(l, s.cache, s.data, s.dirty, s.active)
    && Holding(Target(l, s.pc, s.lh), s.cache, s.data, s.me)
    && Counted(s.cache, s.refs, Pinned(s.pc, s.lh))
    && Present(Pinned(s.pc, s.lh), s.data)
    && Coherent(s.disk, s.data, s.dirty, Unwritten(s.pc, s.lh), Target(l, s.pc, s.lh))
  }

  ghost predicate Inv(l: Layout, s: State) {
    && CacheInv(l, s)
    && Recoverable(l, s.disk, s.committed)
    && Phase(l, s.disk, s.data, s.pc, s.lh, s.snap)
  }

  /** Power-on: an arbitrary well-formed disk, nothing in memory, recovery about to start. */
  ghost predicate Boot(l: Layout, s: State) {
    && Recoverable(l, s.disk, s.committed)
    && s == State(s.disk, map[], map[], [], {}, {}, {}, RecHead, s.me, s.snap, s.committed)
  }

  // ---- Reference counts ----

  lemma RefAdded(refs: set<(Proc, nat)>, r: (Proc, nat), b: nat)
    requires r !in refs
    ensures |RefsTo(refs + {r}, b)| == |RefsTo(refs, b)| + if r.1 == b then 1 else 0
  {
    if r.1 == b {
      assert RefsTo(refs + {r}, b) == RefsTo(refs, b) + {r};
    } else {
      assert RefsTo(refs + {r}, b) == RefsTo(refs, b);
    }
  }

  lemma RefDropped(refs: set<(Proc, nat)>, r: (Proc, nat), b: nat)
    requires r in refs
    ensures |RefsTo(refs, b)| == |RefsTo(refs - {r}, b)| + if r.1 == b then 1 else 0
  {
    RefAdded(refs - {r}, r, b);
    assert refs - {r} + {r} == refs;
  }

  /** A buffer nobody references and nothing pins is the only kind bget() may recycle. */
  lemma UnreferencedIsFree(l: Layout, s: State, b: nat)
    requires CacheInv(l, s) && b in s.cache && s.cache[b].refcnt == 0
    ensures s.cache[b].holder == None && b !in Pinned(s.pc, s.lh) && b !in s.dirty
    ensures Target(l, s.pc, s.lh) != Some(b)
    ensures forall r :: r in s.refs ==> r.1 != b
  {
    assert RefsTo(s.refs, b) == {};
    forall r | r in s.refs ensures r.1 != b {
      assert r.1 == b ==> r in RefsTo(s.refs, b);
    }
  }

  // ---- File-system calls ----

  lemma BeginKeeps(l: Layout, s: State, p: Proc)
    requires Inv(l, s) && Can(l, s, Begin(p))
    ensures Inv(l, Do(l, s, Begin(p)))
  {}

  lemma UpdateKeeps(l: Layout, s: State, p: Proc, b: nat, x: Block)
    requires Inv(l, s) && Can(l, s, Update(p, b, x))
    ensures Inv(l, Do(l, s, Update(p, b, x)))
  {}

  /** A newly logged block gains its pin and its reference count together. */
  lemma PinCounted(cache: map<nat, Buf>, refs: set<(Proc, nat)>, lh: seq<nat>, b: nat)
    requires Counted(cache, refs, lh) && b in cache && b !in lh
    ensures Counted(cache[b := cache[b].(refcnt := cache[b].refcnt + 1)], refs, lh + [b])
  {}

  lemma AppendGood(l: Layout, d: Disk, data: map<nat, Block>, dirty: set<nat>, lh: seq<nat>, b: nat)
    requires GoodList(l, lh) && |lh| < l.cap && b !in lh && l.Home(b)
    requires Present(lh, data) && b in data && Coherent(d, data, dirty, lh, None)
    ensures GoodList(l, lh + [b]) && Present(lh + [b], data) && Coherent(d, data, dirty - {b}, lh + [b], None)
  {}

  lemma AbsorbKeeps(l: Layout, s: State, p: Proc, b: nat)
    requires Inv(l, s) && Can(l, s, Log(p, b)) && b in s.lh
    ensures Inv(l, Do(l, s, Log(p, b)))
  {}

  lemma AppendKeeps(l: Layout, s: State, p: Proc, b: nat)
    requires Inv(l, s) && Can(l, s, Log(p, b)) && b !in s.lh
    ensures Inv(l, Do(l, s, Log(p, b)))
  {
    AppendCache(l, s, p, b);
  }

  lemma AppendCache(l: Layout, s: State, p: Proc, b: nat)
    requires CacheInv(l, s) && Can(l, s, Log(p, b)) && b !in s.lh
    ensures CacheInv(l, Do(l, s, Log(p, b)))
  {
    hide Counted;
    var t := Do(l, s, Log(p, b));
    assert s.pc == Idle && t.lh == s.lh + [b] && t.dirty == s.dirty - {b};
    PinCounted(s.cache, s.refs, s.lh, b);
    AppendGood(l, s.disk, s.data, s.dirty, s.lh, b);
  }

  lemma EndKeeps(l: Layout, s: State, p: Proc)
    requires Inv(l, s) && Can(l, s, End(p))
    ensures Inv(l, Do(l, s, End(p)))
  {
    hide Owned, Counted, Recoverable;
  }

  // ---- Buffer cache steps, by any process ----

  /** t differs from s in the cache only, and shows the same blocks. */
  ghost predicate CacheOnly(l: Layout, s: State, t: State) {
    && t == s.(cache := t.cache, data := t.data, refs := t.refs)
    && |s.disk| == l.size
    && (forall b: nat | b < l.size :: View(t.disk, t.data, b) == View(s.disk, s.data, b))
    && (Target(l, s.pc, s.lh).Some? ==>
          && Target(l, s.pc, s.lh).value in s.data && Target(l, s.pc, s.lh).value in t.data
          && t.data[Target(l, s.pc, s.lh).value] == s.data[Target(l, s.pc, s.lh).value])
  }

  /** A step that leaves disk, log and every visible block alone leaves the commit's progress alone. */
  lemma PhaseFrame(l: Layout, s: State, t: State)
    requires Inv(l, s) && CacheOnly(l, s, t) && CacheInv(l, t)
    ensures Inv(l, t)
  {}

  lemma HitCounted(cache: map<nat, Buf>, refs: set<(Proc, nat)>, pinned: seq<nat>, p: Proc, b: nat)
    requires Counted(cache, refs, pinned) && b in cache && (p, b) !in refs
    ensures Counted(cache[b := cache[b].(refcnt := cache[b].refcnt + 1)], refs + {(p, b)}, pinned)
  {
    forall c | c in cache { RefAdded(refs, (p, b), c); }
  }

  lemma HitParts(l: Layout, s: State, p: Proc, b: nat)
    requires Owned(l, s.cache, s.data, s.refs) && Dirty(l, s.cache, s.data, s.dirty, s.active) && b in s.cache
    ensures var cache := s.cache[b := s.cache[b].(refcnt := s.cache[b].refcnt + 1)];
            Owned(l, cache, s.data, s.refs + {(p, b)}) && Dirty(l, cache, s.data, s.dirty, s.active)
  {}

  lemma HitCache(l: Layout, s: State, p: Proc, b: nat)
    requires CacheInv(l, s) && Can(l, s, Hit(p, b))
    ensures CacheOnly(l, s, Do(l, s, Hit(p, b))) && CacheInv(l, Do(l, s, Hit(p, b)))
  {
    hide Counted, Owned, Dirty, Coherent, Present;
    HitParts(l, s, p, b);
    HitCounted(s.cache, s.refs, Pinned(s.pc, s.lh), p, b);
  }

  lemma UnrefCounted(cache: map<nat, Buf>, refs: set<(Proc, nat)>, pinned: seq<nat>, p: Proc, b: nat)
    requires Counted(cache, refs, pinned) && b in cache && (p, b) in refs && cache[b].refcnt > 0
    ensures Counted(cache[b := cache[b].(refcnt := cache[b].refcnt - 1)], refs - {(p, b)}, pinned)
  {
    forall c | c in cache { RefDropped(refs, (p, b), c); }
  }

  lemma UnrefParts(l: Layout, s: State, p: Proc, b: nat)
    requires Owned(l, s.cache, s.data, s.refs) && Dirty(l, s.cache, s.data, s.dirty, s.active)
    requires b in s.cache && s.cache[b].refcnt > 0 && s.cache[b].holder != Some(p)
    ensures var cache := s.cache[b := s.cache[b].(refcnt := s.cache[b].refcnt - 1)];
            Owned(l, cache, s.data, s.refs - {(p, b)}) && Dirty(l, cache, s.data, s.dirty, s.active)
  {}

  lemma UnrefCache(l: Layout, s: State, p: Proc, b: nat)
    requires CacheInv(l, s) && Can(l, s, Unref(p, b))
    ensures CacheOnly(l, s, Do(l, s, Unref(p, b))) && CacheInv(l, Do(l, s, Unref(p, b)))
  {
    hide Counted, Owned, Dirty, Coherent, Present;
    UnrefParts(l, s, p, b);
    UnrefCounted(s.cache, s.refs, Pinned(s.pc, s.lh), p, b);
  }

  lemma RecycleCounted(cache: map<nat, Buf>, refs: set<(Proc, nat)>, pinned: seq<nat>, c: map<nat, Buf>, p: Proc,
                       b: nat)
    requires Counted(cache, refs, pinned) && b !in pinned && forall r :: r in refs ==> r.1 != b
    requires forall x :: x in c ==> x in cache && c[x] == cache[x]
    ensures Counted(c[b := Buf(1, None)], refs + {(p, b)}, pinned)
  {
    assert RefsTo(refs, b) == {};
    forall x | x in c || x == b { RefAdded(refs, (p, b), x); }
  }

  /** Dropping buffers nobody uses and adding an unread one. */
  lemma RecycleOwned(l: Layout, s: State, c: map<nat, Buf>, data: map<nat, Block>, p: Proc, b: nat)
    requires CacheInv(l, s) && b !in s.cache && b < l.size
    requires c.Keys <= s.cache.Keys && data.Keys == s.data.Keys * c.Keys
    requires (forall x :: x in c ==> c[x] == s.cache[x]) && (forall x :: x in data ==> data[x] == s.data[x])
    requires forall x :: x in s.cache && x !in c ==> s.cache[x].holder == None && x !in s.dirty
    requires forall r :: r in s.refs ==> r.1 in c
    ensures Owned(l, c[b := Buf(1, None)], data, s.refs + {(p, b)})
    ensures Dirty(l, c[b := Buf(1, None)], data, s.dirty, s.active)
    ensures Coherent(s.disk, data, s.dirty, Unwritten(s.pc, s.lh), Target(l, s.pc, s.lh))
  {
    hide Counted, Shape, Holding, Present;
  }

  /** No block reads differently for a buffer being recycled. */
  lemma RecycleShows(l: Layout, s: State, p: Proc, b: nat, victim: Option<nat>)
    requires CacheInv(l, s) && Can(l, s, Recycle(p, b, victim))
    ensures CacheOnly(l, s, Do(l, s, Recycle(p, b, victim)))
  {
    hide Counted, Owned, Dirty, Present;
    if victim.Some? { UnreferencedIsFree(l, s, victim.value); }
  }

  lemma RecycleCache(l: Layout, s: State, p: Proc, b: nat, victim: Option<nat>)
    requires CacheInv(l, s) && Can(l, s, Recycle(p, b, victim))
    ensures CacheOnly(l, s, Do(l, s, Recycle(p, b, victim))) && CacheInv(l, Do(l, s, Recycle(p, b, victim)))
  {
    hide Counted, Dirty, Coherent, CacheOnly;
    RecycleShows(l, s, p, b, victim);
    var c := if victim.Some? then s.cache - {victim.value} else s.cache;
    if victim.Some? { UnreferencedIsFree(l, s, victim.value); }
    RecycleCounted(s.cache, s.refs, Pinned(s.pc, s.lh), c, p, b);
    RecycleOwned(l, s, c, Do(l, s, Recycle(p, b, victim)).data, p, b);
  }

  lemma LockCache(l: Layout, s: State, p: Proc, b: nat)
    requires CacheInv(l, s) && Can(l, s, Lock(p, b))
    ensures CacheOnly(l, s, Do(l, s, Lock(p, b))) && CacheInv(l, Do(l, s, Lock(p, b)))
  {}

  lemma FillCache(l: Layout, s: State, p: Proc, b: nat)
    requires CacheInv(l, s) && Can(l, s, Fill(p, b))
    ensures CacheOnly(l, s, Do(l, s, Fill(p, b))) && CacheInv(l, Do(l, s, Fill(p, b)))
  {}

  lemma UnlockCache(l: Layout, s: State, p: Proc, b: nat)
    requires CacheInv(l, s) && Can(l, s, Unlock(p, b))
    ensures CacheOnly(l, s, Do(l, s, Unlock(p, b))) && CacheInv(l, Do(l, s, Unlock(p, b)))
  {}

  // ---- commit() and recovery ----

  /** memmove() into a buffer that is already read in. */
  lemma Copied(l: Layout, s: State, b: nat, x: Block)
    requires CacheInv(l, s) && b in s.data && Target(l, s.pc, s.lh) == None
    ensures var data := s.data[b := x];
            && Owned(l, s.cache, data, s.refs)
            && Dirty(l, s.cache, data, s.dirty, s.active)
            && Present(Pinned(s.pc, s.lh), data)
            && Coherent(s.disk, data, s.dirty, Unwritten(s.pc, s.lh), Some(b))
  {}

  /** bwrite() of the target buffer. */
  lemma WrittenBack(d: Disk, data: map<nat, Block>, dirty: set<nat>, unwritten: seq<nat>, b: nat)
    requires Coherent(d, data, dirty, unwritten, Some(b)) && b in data && b < |d|
    ensures Coherent(d[b := data[b]], data, dirty, unwritten, None)
  {}

  /** Filling a buffer of the log area does not touch what file-system calls see. */
  lemma LoggedFrame(l: Layout, d: Disk, data: map<nat, Block>, lh: seq<nat>, snap: Disk, n: nat, b: nat, x: Block)
    requires GoodDisk(l, d) && Logged(l, d, data, lh, snap, n) && l.InLog(b)
    ensures Logged(l, d, data[b := x], lh, snap, n)
  {}

  lemma LogCopyEntry(l: Layout, s: State, i: nat)
    requires CacheInv(l, s) && s.pc == LogCopy(i) && i < |s.lh| && CanAdvance(l, s)
    ensures CacheInv(l, DoAdvance(l, s))
  {
    hide Counted, Owned, Dirty;
    Copied(l, s, l.Slot(i), s.data[s.lh[i]]);
  }

  lemma LogCopyHead(l: Layout, s: State, i: nat)
    requires CacheInv(l, s) && s.pc == LogCopy(i) && i == |s.lh| && CanAdvance(l, s)
    ensures CacheInv(l, DoAdvance(l, s))
  {
    hide Counted, Owned, Dirty;
    Copied(l, s, l.start, FillHeader(s.data[l.start], s.lh));
  }

  lemma LogCopyCache(l: Layout, s: State)
    requires CacheInv(l, s) && s.pc.LogCopy? && CanAdvance(l, s)
    ensures CacheInv(l, DoAdvance(l, s))
  {
    if s.pc.i < |s.lh| { LogCopyEntry(l, s, s.pc.i); } else { LogCopyHead(l, s, s.pc.i); }
  }

  lemma LogCopyKeeps(l: Layout, s: State)
    requires Inv(l, s) && s.pc.LogCopy? && CanAdvance(l, s) && CacheInv(l, DoAdvance(l, s))
    ensures Inv(l, DoAdvance(l, s))
  {
    var b := if s.pc.i < |s.lh| then l.Slot(s.pc.i) else l.start;
    LoggedFrame(l, s.disk, s.data, s.lh, s.snap, s.pc.i, b, DoAdvance(l, s).data[b]);
    if s.pc.i < |s.lh| {
      assert View(s.disk, s.data, s.lh[s.pc.i]) == s.snap[s.lh[s.pc.i]];
    }
  }

  lemma LogWriteCache(l: Layout, s: State)
    requires CacheInv(l, s) && s.pc.LogWrite? && CanAdvance(l, s)
    ensures CacheInv(l, DoAdvance(l, s))
  {
    WrittenBack(s.disk, s.data, s.dirty, Unwritten(s.pc, s.lh), Target(l, s.pc, s.lh).value);
  }

  /** write_log() fills slot i while the header is still clear. */
  lemma SlotWritten(l: Layout, d: Disk, data: map<nat, Block>, lh: seq<nat>, snap: Disk, i: nat, committed: Disk)
    requires Recoverable(l, d, committed) && GoodList(l, lh) && i < |lh|
    requires Logged(l, d, data, lh, snap, i) && l.Slot(i) in data && data[l.Slot(i)] == snap[lh[i]]
    ensures var e := d[l.Slot(i) := data[l.Slot(i)]];
            Recoverable(l, e, committed) && Logged(l, e, data, lh, snap, i + 1)
  {
    SlotWriteInvisible(l, d, i, data[l.Slot(i)]);
  }

  lemma LogWriteKeeps(l: Layout, s: State)
    requires Inv(l, s) && s.pc.LogWrite? && CanAdvance(l, s) && CacheInv(l, DoAdvance(l, s))
    ensures Inv(l, DoAdvance(l, s))
  {
    SlotWritten(l, s.disk, s.data, s.lh, s.snap, s.pc.i, s.committed);
  }

  lemma HeadWriteCache(l: Layout, s: State)
    requires CacheInv(l, s) && s.pc.HeadWrite? && CanAdvance(l, s)
    ensures CacheInv(l, DoAdvance(l, s))
  {
    WrittenBack(s.disk, s.data, s.dirty, Unwritten(s.pc, s.lh), Target(l, s.pc, s.lh).value);
  }

  /** The header write makes the snapshot durable. */
  lemma CommitPoint(l: Layout, d: Disk, data: map<nat, Block>, lh: seq<nat>, snap: Disk)
    requires GoodDisk(l, d) && GoodList(l, lh)
    requires Logged(l, d, data, lh, snap, |lh|) && l.start in data && IsHeader(data[l.start], lh)
    requires forall b: nat | l.Home(b) && b !in lh :: d[b] == snap[b]
    ensures Recoverable(l, d[l.start := data[l.start]], snap)
    ensures IsHeader(d[l.start := data[l.start]][l.start], lh)
  {
    HeaderWriteCommits(l, d, data[l.start], lh);
    assert GoodDisk(l, d[l.start := data[l.start]]);
  }

  lemma HeadWriteKeeps(l: Layout, s: State)
    requires Inv(l, s) && s.pc.HeadWrite? && CanAdvance(l, s) && CacheInv(l, DoAdvance(l, s))
    ensures Inv(l, DoAdvance(l, s))
  {
    CommitPoint(l, s.disk, s.data, s.lh, s.snap);
  }

  lemma InstCopyEntry(l: Layout, s: State, i: nat)
    requires CacheInv(l, s) && s.pc == InstCopy(i) && i < |s.lh| && CanAdvance(l, s)
    ensures CacheInv(l, DoAdvance(l, s))
  {
    hide Counted, Owned, Dirty;
    Copied(l, s, s.lh[i], s.data[l.Slot(i)]);
  }

  lemma InstCopyHead(l: Layout, s: State, i: nat)
    requires CacheInv(l, s) && s.pc == InstCopy(i) && i == |s.lh| && CanAdvance(l, s)
    ensures CacheInv(l, DoAdvance(l, s))
  {
    hide Counted, Owned, Dirty;
    Copied(l, s, l.start, FillHeader(s.data[l.start], []));
    assert s.lh[i..] == [];
  }

  lemma InstCopyCache(l: Layout, s: State)
    requires CacheInv(l, s) && s.pc.InstCopy? && CanAdvance(l, s)
    ensures CacheInv(l, DoAdvance(l, s))
  {
    if s.pc.i < |s.lh| { InstCopyEntry(l, s, s.pc.i); } else { InstCopyHead(l, s, s.pc.i); }
  }

  lemma InstCopyKeeps(l: Layout, s: State)
    requires Inv(l, s) && s.pc.InstCopy? && CanAdvance(l, s) && CacheInv(l, DoAdvance(l, s))
    ensures Inv(l, DoAdvance(l, s))
  {}

  lemma InstWriteCache(l: Layout, s: State)
    requires CacheInv(l, s) && s.pc.InstWrite? && CanAdvance(l, s)
    ensures CacheInv(l, DoAdvance(l, s))
  {}

  /** Copying slot i home changes nothing that recovery would yield. */
  lemma InstallOne(l: Layout, d: Disk, lh: seq<nat>, i: nat, committed: Disk)
    requires Recoverable(l, d, committed) && GoodList(l, lh) && IsHeader(d[l.start], lh)
    requires i < |lh| && InstalledTo(l, d, i)
    ensures Recoverable(l, d[lh[i] := d[l.Slot(i)]], committed)
    ensures IsHeader(d[lh[i] := d[l.Slot(i)]][l.start], lh) && InstalledTo(l, d[lh[i] := d[l.Slot(i)]], i + 1)
  {
    HeaderDecodes(d[l.start], lh);
    InstallInvisible(l, d, i);
  }

  lemma InstWriteKeeps(l: Layout, s: State)
    requires Inv(l, s) && s.pc.InstWrite? && CanAdvance(l, s) && CacheInv(l, DoAdvance(l, s))
    ensures Inv(l, DoAdvance(l, s))
  {
    InstallOne(l, s.disk, s.lh, s.pc.i, s.committed);
  }

  lemma UnpinCounted(cache: map<nat, Buf>, refs: set<(Proc, nat)>, lh: seq<nat>, i: nat)
    requires NoDup(lh) && i < |lh| && Counted(cache, refs, lh[i..]) && lh[i] in cache
    ensures cache[lh[i]].refcnt > 0
    ensures Counted(cache[lh[i] := cache[lh[i]].(refcnt := cache[lh[i]].refcnt - 1)], refs, lh[i + 1..])
  {
    assert lh[i..] == [lh[i]] + lh[i + 1..];
    assert lh[i] !in lh[i + 1..];
  }

  lemma InstUnpinCache(l: Layout, s: State)
    requires CacheInv(l, s) && s.pc.InstUnpin? && CanAdvance(l, s)
    ensures CacheInv(l, DoAdvance(l, s))
  {
    hide Counted;
    UnpinCounted(s.cache, s.refs, s.lh, s.pc.i);
    assert Unwritten(s.pc, s.lh) == s.lh[s.pc.i + 1..];
  }

  lemma InstUnpinKeeps(l: Layout, s: State)
    requires Inv(l, s) && s.pc.InstUnpin? && CanAdvance(l, s) && CacheInv(l, DoAdvance(l, s))
    ensures Inv(l, DoAdvance(l, s))
  {}

  lemma ClearWriteCache(l: Layout, s: State)
    requires CacheInv(l, s) && s.pc.ClearWrite? && CanAdvance(l, s)
    ensures CacheInv(l, DoAdvance(l, s))
  {
    WrittenBack(s.disk, s.data, s.dirty, Unwritten(s.pc, s.lh), Target(l, s.pc, s.lh).value);
  }

  lemma ClearWriteKeeps(l: Layout, s: State)
    requires Inv(l, s) && s.pc.ClearWrite? && CanAdvance(l, s) && CacheInv(l, DoAdvance(l, s))
    ensures Inv(l, DoAdvance(l, s))
  {}

  lemma DoneCache(l: Layout, s: State)
    requires CacheInv(l, s) && s.pc.Done? && CanAdvance(l, s)
    ensures CacheInv(l, DoAdvance(l, s))
  {}

  lemma DoneKeeps(l: Layout, s: State)
    requires Inv(l, s) && s.pc.Done? && CanAdvance(l, s) && CacheInv(l, DoAdvance(l, s))
    ensures Inv(l, DoAdvance(l, s))
  {}

  lemma RecHeadCache(l: Layout, s: State)
    requires Inv(l, s) && s.pc.RecHead? && CanAdvance(l, s)
    ensures CacheInv(l, DoAdvance(l, s))
  {}

  lemma RecHeadKeeps(l: Layout, s: State)
    requires Inv(l, s) && s.pc.RecHead? && CanAdvance(l, s) && CacheInv(l, DoAdvance(l, s))
    ensures Inv(l, DoAdvance(l, s))
  {}

  lemma RecCopyEntry(l: Layout, s: State, i: nat)
    requires CacheInv(l, s) && s.pc == RecCopy(i) && i < |s.lh| && CanAdvance(l, s)
    ensures CacheInv(l, DoAdvance(l, s))
  {
    hide Counted, Owned, Dirty;
    Copied(l, s, s.lh[i], s.data[l.Slot(i)]);
  }

  lemma RecCopyHead(l: Layout, s: State, i: nat)
    requires CacheInv(l, s) && s.pc == RecCopy(i) && i == |s.lh| && CanAdvance(l, s)
    ensures CacheInv(l, DoAdvance(l, s))
  {
    hide Counted, Owned, Dirty;
    Copied(l, s, l.start, FillHeader(s.data[l.start], []));
    assert s.lh[i..] == [];
  }

  lemma RecCopyCache(l: Layout, s: State)
    requires CacheInv(l, s) && s.pc.RecCopy? && CanAdvance(l, s)
    ensures CacheInv(l, DoAdvance(l, s))
  {
    if s.pc.i < |s.lh| { RecCopyEntry(l, s, s.pc.i); } else { RecCopyHead(l, s, s.pc.i); }
  }

  lemma RecCopyKeeps(l: Layout, s: State)
    requires Inv(l, s) && s.pc.RecCopy? && CanAdvance(l, s) && CacheInv(l, DoAdvance(l, s))
    ensures Inv(l, DoAdvance(l, s))
  {}

  lemma RecWriteCache(l: Layout, s: State)
    requires CacheInv(l, s) && s.pc.RecWrite? && CanAdvance(l, s)
    ensures CacheInv(l, DoAdvance(l, s))
  {
    WrittenBack(s.disk, s.data, s.dirty, Unwritten(s.pc, s.lh), Target(l, s.pc, s.lh).value);
  }

  lemma RecWriteKeeps(l: Layout, s: State)
    requires Inv(l, s) && s.pc.RecWrite? && CanAdvance(l, s) && CacheInv(l, DoAdvance(l, s))
    ensures Inv(l, DoAdvance(l, s))
  {
    InstallOne(l, s.disk, s.lh, s.pc.i, s.committed);
  }

  lemma RecClearCache(l: Layout, s: State)
    requires CacheInv(l, s) && s.pc.RecClear? && CanAdvance(l, s)
    ensures CacheInv(l, DoAdvance(l, s))
  {
    WrittenBack(s.disk, s.data, s.dirty, Unwritten(s.pc, s.lh), Target(l, s.pc, s.lh).value);
  }

  lemma RecClearKeeps(l: Layout, s: State)
    requires Inv(l, s) && s.pc.RecClear? && CanAdvance(l, s) && CacheInv(l, DoAdvance(l, s))
    ensures Inv(l, DoAdvance(l, s))
  {}

  lemma CommitKeeps(l: Layout, s: State)
    requires Inv(l, s) && CanAdvance(l, s)
    requires s.pc.LogCopy? || s.pc.LogWrite? || s.pc.HeadWrite? || s.pc.Done? || s.pc.ClearWrite?
    ensures Inv(l, DoAdvance(l, s))
  {
    match s.pc
    case LogCopy(_) => LogCopyCache(l, s); LogCopyKeeps(l, s);
    case LogWrite(_) => LogWriteCache(l, s); LogWriteKeeps(l, s);
    case HeadWrite => HeadWriteCache(l, s); HeadWriteKeeps(l, s);
    case ClearWrite => ClearWriteCache(l, s); ClearWriteKeeps(l, s);
    case Done => DoneCache(l, s); DoneKeeps(l, s);
  }

  lemma InstallKeeps(l: Layout, s: State)
    requires Inv(l, s) && CanAdvance(l, s)
    requires s.pc.InstCopy? || s.pc.InstWrite? || s.pc.InstUnpin?
    ensures Inv(l, DoAdvance(l, s))
  {
    match s.pc
    case InstCopy(_) => InstCopyCache(l, s); InstCopyKeeps(l, s);
    case InstWrite(_) => InstWriteCache(l, s); InstWriteKeeps(l, s);
    case InstUnpin(_) => InstUnpinCache(l, s); InstUnpinKeeps(l, s);
  }

  lemma RecoveryKeeps(l: Layout, s: State)
    requires Inv(l, s) && CanAdvance(l, s)
    requires s.pc.RecHead? || s.pc.RecCopy? || s.pc.RecWrite? || s.pc.RecClear?
    ensures Inv(l, DoAdvance(l, s))
  {
    match s.pc
    case RecHead => RecHeadCache(l, s); RecHeadKeeps(l, s);
    case RecCopy(_) => RecCopyCache(l, s); RecCopyKeeps(l, s);
    case RecWrite(_) => RecWriteCache(l, s); RecWriteKeeps(l, s);
    case RecClear => RecClearCache(l, s); RecClearKeeps(l, s);
  }

  /** Every step of commit() and of recovery keeps the invariant. */
  lemma AdvanceKeeps(l: Layout, s: State)
    requires Inv(l, s) && CanAdvance(l, s)
    ensures Inv(l, DoAdvance(l, s))
  {
    if s.pc.InstCopy? || s.pc.InstWrite? || s.pc.InstUnpin? {
      InstallKeeps(l, s);
    } else if s.pc.RecHead? || s.pc.RecCopy? || s.pc.RecWrite? || s.pc.RecClear? {
      RecoveryKeeps(l, s);
    } else {
      CommitKeeps(l, s);
    }
  }

  lemma CrashKeeps(l: Layout, s: State)
    requires Inv(l, s)
    ensures Inv(l, Do(l, s, Crash))
  {}

  /** bget(), the read inside bread(), and brelse(), by any process at any moment. */
  lemma BufferStep(l: Layout, s: State, a: Step)
    requires CacheInv(l, s) && Can(l, s, a)
    requires a.Hit? || a.Recycle? || a.Lock? || a.Fill? || a.Unlock? || a.Unref?
    ensures CacheOnly(l, s, Do(l, s, a)) && CacheInv(l, Do(l, s, a))
  {
    match a
    case Hit(p, b) => HitCache(l, s, p, b);
    case Recycle(p, b, v) => RecycleCache(l, s, p, b, v);
    case Lock(p, b) => LockCache(l, s, p, b);
    case Fill(p, b) => FillCache(l, s, p, b);
    case Unlock(p, b) => UnlockCache(l, s, p, b);
    case Unref(p, b) => UnrefCache(l, s, p, b);
  }

  /** begin_op(), changes to cached blocks, log_write() and end_op(), by any process. */
  lemma CallStep(l: Layout, s: State, a: Step)
    requires Inv(l, s) && Can(l, s, a)
    requires a.Begin? || a.Update? || a.Log? || a.End?
    ensures Inv(l, Do(l, s, a))
  {
    match a
    case Begin(p) => BeginKeeps(l, s, p);
    case Update(p, b, x) => UpdateKeeps(l, s, p, b, x);
    case Log(p, b) => if b in s.lh { AbsorbKeeps(l, s, p, b); } else { AppendKeeps(l, s, p, b); }
    case End(p) => EndKeeps(l, s, p);
  }

  /** Every step of every process, of commit(), of recovery, and every crash keeps the invariant. */
  lemma StepKeeps(l: Layout, s: State, a: Step)
    requires Inv(l, s) && Can(l, s, a)
    ensures Inv(l, Do(l, s, a))
  {
    if a.Begin? || a.Update? || a.Log? || a.End? {
      CallStep(l, s, a);
    } else if a == Advance {
      AdvanceKeeps(l, s);
    } else if a == Crash {
      CrashKeeps(l, s);
    } else {
      BufferStep(l, s, a);
      PhaseFrame(l, s, Do(l, s, a));
    }
  }

  // ---- Runs ----

  /** A run from power-on, with any steps in any order. */
  ghost predicate Run(l: Layout, ss: seq<State>, steps: seq<Step>) {
    Linked((s, a, t) => Next(l, s, a, t), ss, steps) && Boot(l, ss[0])
  }

  lemma BootInv(l: Layout, s: State)
    requires Boot(l, s)
    ensures Inv(l, s)
  {}

  lemma NextKeeps(l: Layout, s: State, a: Step, t: State)
    requires Inv(l, s) && Next(l, s, a, t)
    ensures Inv(l, t)
  {
    StepKeeps(l, s, a);
  }

  /** The invariant holds in every state of every run. */
  lemma RunInv(l: Layout, ss: seq<State>, steps: seq<Step>, i: nat)
    requires Run(l, ss, steps) && i < |ss|
    ensures Inv(l, ss[i])
  {
    BootInv(l, ss[0]);
    forall s, a, t | Inv(l, s) && Next(l, s, a, t) ensures Inv(l, t) { NextKeeps(l, s, a, t); }
    Invariant((s, a, t) => Next(l, s, a, t), s => Inv(l, s), ss, steps, i);
  }

  /** The header write of commit(): the only step that changes what recovery yields. */
  predicate Commits(s: State, a: Step) {
    a == Advance && s.pc == HeadWrite
  }

  lemma CommittedChanges(l: Layout, s: State, a: Step)
    requires Sized(l, s) && Can(l, s, a)
    ensures Do(l, s, a).committed == if Commits(s, a) then s.snap else s.committed
  {}

  lemma SameCommitted(l: Layout, d: Disk, e: Disk, committed: Disk)
    requires Recoverable(l, d, committed) && Recoverable(l, e, committed)
    ensures SameDurable(l, d, e)
  {}

  lemma SnapshotShown(l: Layout, e: Disk, d: Disk, data: map<nat, Block>, lh: seq<nat>, snap: Disk)
    requires GoodDisk(l, d) && Logged(l, d, data, lh, snap, |lh|) && Recoverable(l, e, snap)
    ensures forall b: nat | l.Home(b) :: Durable(l, e, b) == View(d, data, b)
  {}

  /**
   Crash atomicity, one step at a time: recovery after the step yields, for all home
   blocks at once, either what it would have yielded before the step, or (at the commit
   header write only) what bread() shows now.
   */
  lemma StepAtomic(l: Layout, s: State, a: Step)
    requires Inv(l, s) && Can(l, s, a)
    ensures var t := Do(l, s, a);
            && GoodDisk(l, t.disk)
            && (!Commits(s, a) ==> SameDurable(l, s.disk, t.disk))
            && (Commits(s, a) ==> forall b: nat | l.Home(b) :: Durable(l, t.disk, b) == View(s.disk, s.data, b))
  {
    StepKeeps(l, s, a);
    CommittedChanges(l, s, a);
    if Commits(s, a) {
      SnapshotShown(l, Do(l, s, a).disk, s.disk, s.data, s.lh, s.snap);
    } else {
      SameCommitted(l, s.disk, Do(l, s, a).disk, s.committed);
    }
  }

  /** Only the installs of commit() and of recovery write home blocks. */
  lemma HomeWrites(l: Layout, s: State, a: Step, b: nat)
    requires Shape(l, s.disk, s.pc, s.lh, s.active) && Can(l, s, a) && l.Home(b)
    requires !(a == Advance && (s.pc.InstWrite? || s.pc.RecWrite?))
    ensures |Do(l, s, a).disk| == l.size && Do(l, s, a).disk[b] == s.disk[b]
  {}

  /** Slot i is the durable contents of the block the header's entry i names. */
  lemma EntryDurable(l: Layout, d: Disk, lh: seq<nat>, i: nat)
    requires GoodDisk(l, d) && IsHeader(d[l.start], lh) && i < |lh| && l.Home(lh[i])
    ensures lh[i] in HeaderList(d[l.start]) && Durable(l, d, lh[i]) == d[l.Slot(i)]
  {
    HeaderDecodes(d[l.start], lh);
  }

  lemma InstallWrites(l: Layout, s: State, b: nat)
    requires Inv(l, s) && CanAdvance(l, s) && (s.pc.InstWrite? || s.pc.RecWrite?) && l.Home(b)
    ensures |DoAdvance(l, s).disk| == l.size
    ensures DoAdvance(l, s).disk[b] != s.disk[b] ==>
              b in HeaderList(s.disk[l.start]) && DoAdvance(l, s).disk[b] == Durable(l, s.disk, b)
  {
    EntryDurable(l, s.disk, s.lh, s.pc.i);
    assert DoAdvance(l, s).disk == s.disk[s.lh[s.pc.i] := s.disk[l.Slot(s.pc.i)]];
  }

  /** No steal: a home block on disk changes only while a committed header names it, to its committed contents. */
  lemma NoSteal(l: Layout, s: State, a: Step, b: nat)
    requires Inv(l, s) && Can(l, s, a) && l.Home(b)
    ensures |Do(l, s, a).disk| == l.size
    ensures Do(l, s, a).disk[b] != s.disk[b] ==>
              && a == Advance && (s.pc.InstWrite? || s.pc.RecWrite?)
              && b in HeaderList(s.disk[l.start])
              && Do(l, s, a).disk[b] == Durable(l, s.disk, b)
  {
    if a == Advance && (s.pc.InstWrite? || s.pc.RecWrite?) {
      InstallWrites(l, s, b);
    } else {
      HomeWrites(l, s, a, b);
    }
  }

  /** s recovers to what d recovers to. */
  ghost predicate RecoversTo(l: Layout, d: Disk, s: State) {
    GoodDisk(l, d) && Inv(l, s) && SameDurable(l, d, s.disk)
  }

  lemma QuietKeeps(l: Layout, d: Disk, s: State, a: Step, t: State)
    requires RecoversTo(l, d, s) && Next(l, s, a, t) && !Commits(s, a)
    ensures RecoversTo(l, d, t)
  {
    StepAtomic(l, s, a);
    NextKeeps(l, s, a, t);
  }

  /** Between commits, recovery yields the same file system at every moment, through any crashes. */
  lemma DurableStable(l: Layout, ss: seq<State>, steps: seq<Step>, i: nat, k: nat)
    requires Run(l, ss, steps) && i <= k < |ss|
    requires forall j :: i <= j < k ==> !Commits(ss[j], steps[j])
    ensures RecoversTo(l, ss[i].disk, ss[k])
  {
    var d := ss[i].disk;
    RunInv(l, ss, steps, i);
    forall s, a, t | RecoversTo(l, d, s) && Next(l, s, a, t) && !Commits(s, a) ensures RecoversTo(l, d, t) {
      QuietKeeps(l, d, s, a, t);
    }
    Between((s, a, t) => Next(l, s, a, t), (s, a) => !Commits(s, a), s => RecoversTo(l, d, s), ss, steps, i, k);
  }

  /** The last step of recovery leaves every durable block home and the log empty. */
  lemma RecoveryEnds(l: Layout, s: State)
    requires Inv(l, s) && CanAdvance(l, s) && s.pc == RecClear
    ensures var t := DoAdvance(l, s);
            && Inv(l, t) && HeadCount(l, t.disk) == 0
            && forall b: nat | l.Home(b) :: t.disk[b] == Durable(l, s.disk, b)
  {
    AdvanceKeeps(l, s);
    StepAtomic(l, s, Advance);
  }

  /** A completed recovery, after any number of crashes, leaves the durable blocks home and the log empty. */
  lemma CrashThenRecover(l: Layout, ss: seq<State>, steps: seq<Step>, c: nat, r: nat)
    requires Run(l, ss, steps) && c <= r < |steps|
    requires steps[c] == Crash && steps[r] == Advance && ss[r].pc == RecClear
    requires forall j :: c <= j < r ==> !Commits(ss[j], steps[j])
    ensures GoodDisk(l, ss[c].disk) && GoodDisk(l, ss[r + 1].disk)
    ensures HeadCount(l, ss[r + 1].disk) == 0
    ensures forall b: nat | l.Home(b) :: ss[r + 1].disk[b] == Durable(l, ss[c].disk, b)
  {
    DurableStable(l, ss, steps, c, r);
    assert Next(l, ss[r], steps[r], ss[r + 1]);
    RecoveryEnds(l, ss[r]);
  }

  predicate Logging(pc: Pc) {
    pc.LogCopy? || pc.LogWrite? || pc == HeadWrite
  }

  /** While blocks are being copied to the log no operation is in progress, so none can end. */
  lemma LoggingStep(l: Layout, s: State, a: Step)
    requires Shape(l, s.disk, s.pc, s.lh, s.active) && Logging(s.pc)
    requires Can(l, s, a) && a != Crash && !Commits(s, a)
    ensures Logging(Do(l, s, a).pc) && Do(l, s, a).snap == s.snap
  {}

  /** Copying to the log, with the snapshot still d. */
  ghost predicate LoggingFrom(l: Layout, d: Disk, s: State) {
    Inv(l, s) && Logging(s.pc) && s.snap == d
  }

  /** The end_op() of the last operation takes the snapshot. */
  lemma SnapshotTaken(l: Layout, s: State, a: Step, t: State)
    requires Next(l, s, a, t) && a.End? && s.pc == Idle && t.pc == LogCopy(0)
    ensures t.snap == Snapshot(s)
  {}

  lemma LoggingKeeps(l: Layout, d: Disk, s: State, a: Step, t: State)
    requires LoggingFrom(l, d, s) && Next(l, s, a, t) && a != Crash && !Commits(s, a)
    ensures LoggingFrom(l, d, t)
  {
    LoggingStep(l, s, a);
    NextKeeps(l, s, a, t);
  }

  /** From the end_op() that starts a commit to its header write the snapshot stands. */
  lemma SnapshotFrozen(l: Layout, ss: seq<State>, steps: seq<Step>, e: nat, k: nat)
    requires Run(l, ss, steps) && e < k < |ss|
    requires steps[e].End? && ss[e].pc == Idle && ss[e + 1].pc == LogCopy(0)
    requires forall j :: e < j < k ==> steps[j] != Crash && !Commits(ss[j], steps[j])
    ensures LoggingFrom(l, Snapshot(ss[e]), ss[k])
  {
    var d := Snapshot(ss[e]);
    RunInv(l, ss, steps, e);
    NextKeeps(l, ss[e], steps[e], ss[e + 1]);
    SnapshotTaken(l, ss[e], steps[e], ss[e + 1]);
    forall s, a, t | LoggingFrom(l, d, s) && Next(l, s, a, t) && a != Crash && !Commits(s, a)
      ensures LoggingFrom(l, d, t)
    {
      LoggingKeeps(l, d, s, a, t);
    }
    Between((s, a, t) => Next(l, s, a, t), (s, a) => a != Crash && !Commits(s, a), s => LoggingFrom(l, d, s),
            ss, steps, e + 1, k);
  }

  /**
   Latest data: what a commit makes durable is exactly what bread() showed when the
   last operation of the transaction ended.
   */
  lemma CommitsLatest(l: Layout, ss: seq<State>, steps: seq<Step>, e: nat, k: nat)
    requires Run(l, ss, steps) && e < k < |steps|
    requires steps[e].End? && ss[e].pc == Idle && ss[e + 1].pc == LogCopy(0)
    requires forall j :: e < j < k ==> steps[j] != Crash && !Commits(ss[j], steps[j])
    requires Commits(ss[k], steps[k])
    ensures |ss[e].disk| == l.size && GoodDisk(l, ss[k + 1].disk)
    ensures forall b: nat | l.Home(b) :: Durable(l, ss[k + 1].disk, b) == View(ss[e].disk, ss[e].data, b)
  {
    assert Next(l, ss[k], steps[k], ss[k + 1]);
    SnapshotFrozen(l, ss, steps, e, k);
    RunInv(l, ss, steps, e);
    NextKeeps(l, ss[k], steps[k], ss[k + 1]);
  }

  // ---- A whole commit, crashed anywhere ----

  /** Past the commit point, or recovering: no header write is ahead. */
  predicate Settled(pc: Pc) {
    pc != Idle && !Logging(pc)
  }

  lemma SettledStep(l: Layout, s: State, a: Step)
    requires Shape(l, s.disk, s.pc, s.lh, s.active) && Can(l, s, a) && Settled(s.pc)
    ensures Do(l, s, a).pc == Idle || Settled(Do(l, s, a).pc)
  {}

  lemma {:induction false} SettledStays(l: Layout, ss: seq<State>, steps: seq<Step>, c: nat, k: nat)
    requires Run(l, ss, steps) && c <= k < |ss| && Settled(ss[c].pc)
    requires forall j :: c <= j <= k ==> ss[j].pc != Idle
    ensures Settled(ss[k].pc)
    decreases k
  {
    hide Settled, Recoverable, Phase, Owned, Dirty, Holding, Counted, Present, Coherent, Sized;
    if c < k {
      SettledStays(l, ss, steps, c, k - 1);
      assert Next(l, ss[k - 1], steps[k - 1], ss[k - 1 + 1]);
      RunInv(l, ss, steps, k - 1);
      SettledStep(l, ss[k - 1], steps[k - 1]);
    }
  }

  /** The first commit point from step e on, before step k; k if there is none. */
  lemma {:induction false} FirstCommit(ss: seq<State>, steps: seq<Step>, e: nat, k: nat) returns (c: nat)
    requires e <= k <= |steps| < |ss|
    ensures e <= c <= k && (c < k ==> Commits(ss[c], steps[c]))
    ensures forall j :: e <= j < c ==> !Commits(ss[j], steps[j])
    decreases k - e
  {
    if e == k || Commits(ss[e], steps[e]) {
      c := e;
    } else {
      c := FirstCommit(ss, steps, e + 1, k);
    }
  }

  lemma PastCommit(l: Layout, ss: seq<State>, steps: seq<Step>, c: nat)
    requires Run(l, ss, steps) && c < |steps| && (steps[c] == Crash || Commits(ss[c], steps[c]))
    ensures Settled(ss[c + 1].pc)
  {
    assert Next(l, ss[c], steps[c], ss[c + 1]);
  }

  /** From the commit point on, until the log is idle again, there is no other. */
  lemma NoOtherCommit(l: Layout, ss: seq<State>, steps: seq<Step>, c: nat, k: nat)
    requires Run(l, ss, steps) && c < k < |steps|
    requires Settled(ss[c + 1].pc) && forall j :: c < j <= k ==> ss[j].pc != Idle
    ensures forall j :: c < j <= k ==> !Commits(ss[j], steps[j])
  {
    forall j | c < j <= k ensures !Commits(ss[j], steps[j]) {
      SettledStays(l, ss, steps, c + 1, j);
    }
  }

  /** Every home block of d is the durable one of the disk before. */
  ghost predicate AllOld(l: Layout, before: State, d: Disk) {
    && GoodDisk(l, before.disk) && |d| == l.size
    && forall b: nat | l.Home(b) :: d[b] == Durable(l, before.disk, b)
  }

  /** Every home block of d is the one bread() showed before. */
  ghost predicate AllNew(l: Layout, before: State, d: Disk) {
    && |d| == l.size == |before.disk|
    && forall b: nat | l.Home(b) :: d[b] == View(before.disk, before.data, b)
  }

  lemma RecoveredOld(l: Layout, ss: seq<State>, steps: seq<Step>, e: nat, k: nat, r: nat)
    requires Run(l, ss, steps) && e < k <= r < |steps|
    requires steps[k] == Crash && steps[r] == Advance && ss[r].pc == RecClear
    requires forall j :: e <= j <= r ==> !Commits(ss[j], steps[j])
    ensures AllOld(l, ss[e], ss[r + 1].disk) && GoodDisk(l, ss[r + 1].disk) && HeadCount(l, ss[r + 1].disk) == 0
  {
    CrashThenRecover(l, ss, steps, k, r);
    DurableStable(l, ss, steps, e, k);
  }

  lemma RecoveredNew(l: Layout, ss: seq<State>, steps: seq<Step>, e: nat, c: nat, k: nat, r: nat)
    requires Run(l, ss, steps) && e < c < k <= r < |steps|
    requires steps[e].End? && ss[e].pc == Idle && ss[e + 1].pc == LogCopy(0)
    requires forall j :: e < j < k ==> steps[j] != Crash
    requires Commits(ss[c], steps[c]) && forall j :: e < j <= r && j != c ==> !Commits(ss[j], steps[j])
    requires steps[k] == Crash && steps[r] == Advance && ss[r].pc == RecClear
    ensures AllNew(l, ss[e], ss[r + 1].disk) && GoodDisk(l, ss[r + 1].disk) && HeadCount(l, ss[r + 1].disk) == 0
  {
    CommitsLatest(l, ss, steps, e, c);
    DurableStable(l, ss, steps, c + 1, k);
    CrashThenRecover(l, ss, steps, k, r);
  }

  /**
   Crash atomicity of a whole commit: end_op() of the last operation at step e starts it, the machine
   crashes at step k, and recovery, itself interrupted by any number of crashes, completes at step r.
   Then all home blocks are as before the transaction, or all are as bread() showed them when it ended,
   the second exactly when the header write came before the crash; and the log is empty.
   */
  lemma CrashAtomic(l: Layout, ss: seq<State>, steps: seq<Step>, e: nat, k: nat, r: nat)
    requires Run(l, ss, steps) && e < k <= r < |steps|
    requires steps[e].End? && ss[e].pc == Idle && ss[e + 1].pc == LogCopy(0)
    requires (forall j :: e < j < k ==> steps[j] != Crash) && forall j :: e < j <= r ==> ss[j].pc != Idle
    requires steps[k] == Crash && steps[r] == Advance && ss[r].pc == RecClear
    ensures GoodDisk(l, ss[r + 1].disk) && HeadCount(l, ss[r + 1].disk) == 0
    ensures if exists c :: e < c < k && Commits(ss[c], steps[c]) then AllNew(l, ss[e], ss[r + 1].disk)
            else AllOld(l, ss[e], ss[r + 1].disk)
  {
    hide AllNew, AllOld, Next, GoodDisk, Settled;
    PastCommit(l, ss, steps, k);
    if k < r {
      NoOtherCommit(l, ss, steps, k, r);
    }
    var c := FirstCommit(ss, steps, e, k);
    if c == k {
      RecoveredOld(l, ss, steps, e, k, r);
    } else {
      PastCommit(l, ss, steps, c);
      NoOtherCommit(l, ss, steps, c, k);
      RecoveredNew(l, ss, steps, e, c, k, r);
    }
  }

  /** A logged block stays cached, read in and referenced until commit() unpins it, so bget() cannot recycle it. */
  lemma PinnedStays(l: Layout, s: State, b: nat)
    requires CacheInv(l, s) && b in Pinned(s.pc, s.lh)
    ensures b in s.cache && b in s.data && s.cache[b].refcnt > 0
    ensures forall p, v :: !Can(l, s, Recycle(p, v, Some(b)))
  {
    assert b in s.data && b in s.cache;
  }
}
