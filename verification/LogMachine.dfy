/**
 kernel/log.c and kernel/bio.c as one step machine.  Any number of processes
 look up, lock, read, change, log and release cached blocks; the last end_op()
 runs commit(); the machine may crash between any two steps and then recovers,
 itself subject to further crashes.  A step is what one critical section or one
 block transfer does, so steps of different processes interleave freely.

 The cache is a map from block number to buffer: that it can be one is the
 uniqueness invariant proved of the linked list in module Bcache.
 */
module LogMachine {
  import opened Bytes
  import opened Common
  import opened LogDisk

  type Proc = nat

  // The bookkeeping half of struct buf; holder is the process holding the buffer's sleep lock.
  datatype Buf = Buf(refcnt: nat, holder: Option<Proc>)

  /** Where the process running commit() or recover_from_log() has got to. */
  datatype Pc =
    | Idle                 // log.committing == 0
    | LogCopy(i: nat)      // write_log(), before the memmove of entry i
    | LogWrite(i: nat)     // write_log(), before bwrite(to)
    | HeadWrite            // first write_head(), before its bwrite
    | InstCopy(i: nat)     // install_trans(0), before the memmove of entry i
    | InstWrite(i: nat)    // install_trans(0), before bwrite(dbuf)
    | InstUnpin(i: nat)    // install_trans(0), before bunpin(dbuf)
    | ClearWrite           // second write_head(), before its bwrite
    | Done                 // commit() returned, log.committing still set
    | RecHead              // read_head()
    | RecCopy(i: nat)      // install_trans(1), before the memmove of entry i
    | RecWrite(i: nat)     // install_trans(1), before bwrite(dbuf)
    | RecClear             // write_head() of recovery, before its bwrite

  datatype State = State(
    disk: Disk,
    cache: map<nat, Buf>,      // the buffers in use, by block number
    data: map<nat, Block>,     // b->data of the buffers with b->valid set
    lh: seq<nat>,              // log.lh.block[..log.lh.n]
    active: set<Proc>,         // processes between begin_op() and end_op()
    refs: set<(Proc, nat)>,    // references obtained by bget() and not yet dropped
    dirty: set<nat>,           // changed by their lock holder, not yet passed to log_write()
    pc: Pc,
    me: Proc,                  // who runs commit() or recovery
    snap: Disk,                // what bread() showed when the last operation ended
    committed: Disk            // snap as of the last commit point
  )

  datatype Step =
    | Begin(p: Proc)
    | Update(p: Proc, b: nat, x: Block)
    | Log(p: Proc, b: nat)
    | End(p: Proc)
    | Hit(p: Proc, b: nat)
    | Recycle(p: Proc, b: nat, victim: Option<nat>)
    | Lock(p: Proc, b: nat)
    | Fill(p: Proc, b: nat)
    | Unlock(p: Proc, b: nat)
    | Unref(p: Proc, b: nat)
    | Advance              // the next step of commit() or of recovery
    | Crash

  // ---- What a step needs ----

  /** p has b's buffer locked and read in: what bread() returns. */
  predicate Held(s: State, p: Proc, b: nat) {
    b in s.cache && b in s.data && s.cache[b].holder == Some(p)
  }

  /** The buffer commit() or recovery is about to write out. */
  function Target(l: Layout, pc: Pc, lh: seq<nat>): Option<nat> {
    match pc
    case LogWrite(i) => Some(l.Slot(i))
    case HeadWrite => Some(l.start)
    case InstWrite(i) => if i < |lh| then Some(lh[i]) else None
    case ClearWrite => Some(l.start)
    case RecWrite(i) => if i < |lh| then Some(lh[i]) else None
    case RecClear => Some(l.start)
    case _ => None
  }

  predicate CanAdvance(l: Layout, s: State) {
    match s.pc
    case Idle => false
    case LogCopy(i) =>
      if i < |s.lh| then Held(s, s.me, l.Slot(i)) && Held(s, s.me, s.lh[i]) else Held(s, s.me, l.start)
    case InstCopy(i) =>
      if i < |s.lh| then Held(s, s.me, l.Slot(i)) && Held(s, s.me, s.lh[i]) else Held(s, s.me, l.start)
    case RecCopy(i) =>
      if i < |s.lh| then Held(s, s.me, l.Slot(i)) && Held(s, s.me, s.lh[i]) else Held(s, s.me, l.start)
    case RecHead => Held(s, s.me, l.start)
    case Done => true
    case InstUnpin(i) => i < |s.lh| && s.lh[i] in s.cache
    case _ => Target(l, s.pc, s.lh).Some? && Target(l, s.pc, s.lh).value in s.data
  }

  predicate Can(l: Layout, s: State, a: Step) {
    match a
    case Begin(p) => s.pc == Idle && p !in s.active
    // Only file-system calls change blocks, inside a transaction and never the log itself.
    case Update(p, b, x) => p in s.active && Held(s, p, b) && l.Home(b)
    // log_write() panics when the log is full.
    case Log(p, b) => p in s.active && Held(s, p, b) && l.Home(b) && |s.lh| < l.cap
    // A file-system call logs what it changed before it ends.
    case End(p) => p in s.active && forall b :: b in s.dirty && b in s.cache ==> s.cache[b].holder != Some(p)
    case Hit(p, b) => b in s.cache && (p, b) !in s.refs
    case Recycle(p, b, victim) =>
      && b < l.size && b !in s.cache
      && (victim.Some? ==> victim.value in s.cache && s.cache[victim.value].refcnt == 0)
    case Lock(p, b) => (p, b) in s.refs && b in s.cache && s.cache[b].holder == None
    case Fill(p, b) => b in s.cache && s.cache[b].holder == Some(p) && b !in s.data && b < |s.disk|
    case Unlock(p, b) =>
      b in s.cache && s.cache[b].holder == Some(p) && b !in s.dirty && Target(l, s.pc, s.lh) != Some(b)
    case Unref(p, b) =>
      (p, b) in s.refs && b in s.cache && s.cache[b].holder != Some(p) && s.cache[b].refcnt > 0
    case Advance => CanAdvance(l, s)
    case Crash => true
  }

  // ---- What a step does ----

  /** The block bread() would return now. */
  function View(disk: Disk, data: map<nat, Block>, b: nat): Block
    requires b < |disk|
  {
    if b in data then data[b] else disk[b]
  }

  function Snapshot(s: State): (d: Disk)
    ensures |d| == |s.disk| && forall b :: 0 <= b < |d| ==> d[b] == View(s.disk, s.data, b)
  {
    seq(|s.disk|, b requires 0 <= b < |s.disk| => View(s.disk, s.data, b))
  }

  /** write_head()'s loop: store the entries after the count. */
  function FillEntries(h: Block, blocks: seq<nat>, n: nat): (r: Block)
    requires n <= |blocks| < WORDS && forall i :: 0 <= i < |blocks| ==> blocks[i] < WORD
    ensures Word(r, 0) == Word(h, 0)
    ensures forall i :: 0 <= i < n ==> Word(r, i + 1) == blocks[i]
  {
    if n == 0 then h else PutWord(FillEntries(h, blocks, n - 1), n, blocks[n - 1])
  }

  function FillHeader(h: Block, blocks: seq<nat>): (r: Block)
    requires |blocks| < WORDS && forall i :: 0 <= i < |blocks| ==> blocks[i] < WORD
    ensures IsHeader(r, blocks)
  {
    FillEntries(PutWord(h, 0, |blocks|), blocks, |blocks|)
  }

  /** bwrite() of the target buffer. */
  function Written(l: Layout, s: State): Disk
    requires CanAdvance(l, s) && Target(l, s.pc, s.lh).Some?
  {
    var b := Target(l, s.pc, s.lh).value;
    if b < |s.disk| then s.disk[b := s.data[b]] else s.disk
  }

  predicate Sized(l: Layout, s: State) {
    && l.Valid()
    && |s.lh| <= l.cap
    && forall i :: 0 <= i < |s.lh| ==> s.lh[i] < l.size
  }

  function DoAdvance(l: Layout, s: State): State
    requires Sized(l, s) && CanAdvance(l, s)
  {
    match s.pc
    case LogCopy(i) =>
      if i < |s.lh| then
        s.(data := s.data[l.Slot(i) := s.data[s.lh[i]]], pc := LogWrite(i))
      else
        s.(data := s.data[l.start := FillHeader(s.data[l.start], s.lh)], pc := HeadWrite)
    case LogWrite(i) => s.(disk := Written(l, s), pc := LogCopy(i + 1))
    case HeadWrite => s.(disk := Written(l, s), pc := InstCopy(0), committed := s.snap)
    case InstCopy(i) =>
      if i < |s.lh| then
        s.(data := s.data[s.lh[i] := s.data[l.Slot(i)]], pc := InstWrite(i))
      else
        s.(data := s.data[l.start := FillHeader(s.data[l.start], [])], pc := ClearWrite, lh := [])
    case InstWrite(i) => s.(disk := Written(l, s), pc := InstUnpin(i))
    case InstUnpin(i) =>
      var b := s.lh[i];
      var r := s.cache[b].refcnt;
      s.(cache := s.cache[b := s.cache[b].(refcnt := if r > 0 then r - 1 else 0)], pc := InstCopy(i + 1))
    case ClearWrite => s.(disk := Written(l, s), pc := Done)
    case Done => s.(pc := Idle)
    case RecHead =>
      var h := s.data[l.start];
      s.(lh := if Word(h, 0) < WORDS then HeaderList(h) else [], pc := RecCopy(0))
    case RecCopy(i) =>
      if i < |s.lh| then
        s.(data := s.data[s.lh[i] := s.data[l.Slot(i)]], pc := RecWrite(i))
      else
        s.(data := s.data[l.start := FillHeader(s.data[l.start], [])], pc := RecClear, lh := [])
    case RecWrite(i) => s.(disk := Written(l, s), pc := RecCopy(i + 1))
    case RecClear => s.(disk := Written(l, s), pc := Idle)
  }

  function Do(l: Layout, s: State, a: Step): State
    requires Sized(l, s) && Can(l, s, a)
  {
    match a
    case Begin(p) => s.(active := s.active + {p})
    case Update(p, b, x) => s.(data := s.data[b := x], dirty := s.dirty + {b})
    case Log(p, b) =>
      // log absorption
      if b in s.lh then s.(dirty := s.dirty - {b})
      else s.(dirty := s.dirty - {b}, lh := s.lh + [b],
              cache := s.cache[b := s.cache[b].(refcnt := s.cache[b].refcnt + 1)])
    case End(p) =>
      var t := s.(active := s.active - {p});
      if t.active != {} then t
      else t.(me := p, snap := Snapshot(s), pc := if s.lh == [] then Done else LogCopy(0))
    case Hit(p, b) =>
      s.(refs := s.refs + {(p, b)}, cache := s.cache[b := s.cache[b].(refcnt := s.cache[b].refcnt + 1)])
    case Recycle(p, b, victim) =>
      var c := if victim.Some? then s.cache - {victim.value} else s.cache;
      s.(refs := s.refs + {(p, b)}, cache := c[b := Buf(1, None)],
         data := if victim.Some? then s.data - {victim.value} else s.data)
    case Lock(p, b) => s.(cache := s.cache[b := s.cache[b].(holder := Some(p))])
    case Fill(p, b) => s.(data := s.data[b := s.disk[b]])
    case Unlock(p, b) => s.(cache := s.cache[b := s.cache[b].(holder := None)])
    case Unref(p, b) =>
      s.(refs := s.refs - {(p, b)}, cache := s.cache[b := s.cache[b].(refcnt := s.cache[b].refcnt - 1)])
    case Advance => DoAdvance(l, s)
    case Crash => State(s.disk, map[], map[], [], {}, {}, {}, RecHead, 0, s.snap, s.committed)
  }

  ghost predicate Next(l: Layout, s: State, a: Step, t: State) {
    Sized(l, s) && Can(l, s, a) && t == Do(l, s, a)
  }
}
