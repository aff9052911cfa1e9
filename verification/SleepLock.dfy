/**
 Sleep locks (kernel/sleeplock.c) over sleep() and wakeup() (kernel/proc.c) as a
 step machine.  Processes acquire and release sleep locks and kill one another in
 any interleaving; every spinlock operation and every access made under one is a
 step of its own, wakeup() scans the process table one entry at a time, and the
 timer can make a process yield wherever it holds no spinlock.
 */
module SleepLock {
  import opened Common
  import opened Runs

  type Proc = nat
  type Lock = nat

  datatype PState = Running | Sleeping | Runnable

  // Who holds a p->lock: a process, or the scheduler it was handed to by sched().
  datatype Holder = Free | By(q: Proc) | Scheduler

  // The fields of struct proc that sleep() and wakeup() use; chan is a sleep lock's address.
  datatype Entry = Entry(state: PState, chan: Option<Lock>, lock: Holder)

  // struct sleeplock, with the holder of its spinlock lk->lk.
  datatype SLock = SLock(locked: bool, pid: Option<Proc>, spin: Option<Proc>)

  /** Where a process has got to. */
  datatype Pc =
    | Out                        // in none of these functions
    | AcqSpin(l: Lock)           // acquiresleep(), or sleep() on its way back: before acquire(&lk->lk)
    | AcqTest(l: Lock)           // at the loop test
    | AcqDone(l: Lock)           // locked set, before release(&lk->lk)
    | SleepLockP(l: Lock)        // sleep(): before acquire(&p->lock)
    | SleepUnlock(l: Lock)       // before release(lk)
    | SleepMark(l: Lock)         // before setting chan and SLEEPING
    | SleepOff(l: Lock)          // switched away in sched()
    | SleepBack(l: Lock)         // switched back, still holding p->lock
    | RelSpin(l: Lock)           // releasesleep(): before acquire(&lk->lk)
    | RelClear(l: Lock)          // before locked = 0
    | Scan(l: Lock, j: Proc)     // wakeup(): about to look at entry j
    | ScanAt(l: Lock, j: Proc)   // wakeup(): holding entry j's lock
    | Kill(v: Proc)              // kkill(): before acquire(&p->lock) of the victim
    | KillAt(v: Proc)            // kkill(): holding the victim's lock
    | YieldMark(k: Pc)           // yield(): holding p->lock, before setting RUNNABLE
    | Yielded(k: Pc)             // switched away in yield(), to go on at k
    | YieldBack(k: Pc)           // switched back, still holding p->lock

  datatype State = State(
    pcs: seq<Pc>,
    procs: seq<Entry>,
    locks: seq<SLock>,
    owned: seq<set<Lock>>   // the locks each process has acquired and not begun to release
  )

  datatype Step =
    | Acquire(p: Proc, l: Lock)
    | Release(p: Proc, l: Lock)
    | KillCall(p: Proc, v: Proc)
    | Yield(p: Proc)         // a timer interrupt, handled in yield()
    | Go(p: Proc)            // p's next step
    | Dispatch(p: Proc)      // scheduler() runs p again
    | SwitchedOff(p: Proc)   // scheduler() releases the lock of the process it came back from

  predicate Sized(n: nat, s: State) {
    && |s.pcs| == n && |s.procs| == n && |s.owned| == n
    && forall p :: 0 <= p < n ==> PcSized(n, |s.locks|, s.pcs[p])
  }

  /** p holds no spinlock at pc, so interrupts are on. */
  predicate Preemptible(pc: Pc) {
    pc == Out || pc.AcqSpin? || pc.RelSpin? || pc.Kill?
  }

  predicate PcSized(n: nat, m: nat, pc: Pc) {
    match pc
    case YieldMark(k) => Preemptible(k) && PcSized(n, m, k)
    case Yielded(k) => Preemptible(k) && PcSized(n, m, k)
    case YieldBack(k) => Preemptible(k) && PcSized(n, m, k)
    case Out => true
    case Kill(v) => v < n
    case KillAt(v) => v < n
    case Scan(l, j) => l < m && j <= n
    case ScanAt(l, j) => l < m && j < n
    case AcqSpin(l) => l < m
    case AcqTest(l) => l < m
    case AcqDone(l) => l < m
    case SleepLockP(l) => l < m
    case SleepUnlock(l) => l < m
    case SleepMark(l) => l < m
    case SleepOff(l) => l < m
    case SleepBack(l) => l < m
    case RelSpin(l) => l < m
    case RelClear(l) => l < m
  }

  /** Whether p's next step can be taken: acquire() of a held spinlock waits. */
  predicate CanGo(n: nat, s: State, p: Proc)
    requires Sized(n, s) && p < n
  {
    match s.pcs[p]
    case Out => false
    case AcqSpin(l) => s.locks[l].spin == None
    case RelSpin(l) => s.locks[l].spin == None
    case SleepLockP(l) => s.procs[p].lock == Free
    case SleepOff(l) => false
    case Yielded(k) => false
    case Scan(l, j) => j == n || j == p || s.procs[j].lock == Free
    case Kill(v) => s.procs[v].lock == Free
    case _ => true
  }

  predicate Can(n: nat, s: State, a: Step)
    requires Sized(n, s)
  {
    match a
    case Acquire(p, l) => p < n && l < |s.locks| && s.pcs[p] == Out && l !in s.owned[p]
    // Callers release only locks they hold: brelse() and iunlock() panic otherwise.
    case Release(p, l) => p < n && l < |s.locks| && s.pcs[p] == Out && l in s.owned[p]
    case KillCall(p, v) => p < n && v < n && s.pcs[p] == Out
    case Yield(p) => p < n && Preemptible(s.pcs[p]) && s.procs[p].lock == Free
    case Go(p) => p < n && CanGo(n, s, p)
    case Dispatch(p) =>
      p < n && (s.pcs[p].SleepOff? || s.pcs[p].Yielded?) && s.procs[p].state == Runnable && s.procs[p].lock == Free
    case SwitchedOff(p) => p < n && s.procs[p].lock == Scheduler
  }

  function At(s: State, p: Proc, pc: Pc): State
    requires p < |s.pcs|
  {
    s.(pcs := s.pcs[p := pc])
  }

  function Spin(s: State, l: Lock, h: Option<Proc>): State
    requires l < |s.locks|
  {
    s.(locks := s.locks[l := s.locks[l].(spin := h)])
  }

  function PLock(s: State, q: Proc, h: Holder): State
    requires q < |s.procs|
  {
    s.(procs := s.procs[q := s.procs[q].(lock := h)])
  }

  function DoGo(n: nat, s: State, p: Proc): State
    requires Sized(n, s) && p < n && CanGo(n, s, p)
  {
    match s.pcs[p]
    case AcqSpin(l) => At(Spin(s, l, Some(p)), p, AcqTest(l))
    case AcqTest(l) =>
      if s.locks[l].locked then At(s, p, SleepLockP(l))
      else At(s.(locks := s.locks[l := s.locks[l].(locked := true, pid := Some(p))]), p, AcqDone(l))
    case AcqDone(l) => At(Spin(s, l, None).(owned := s.owned[p := s.owned[p] + {l}]), p, Out)
    case SleepLockP(l) => At(PLock(s, p, By(p)), p, SleepUnlock(l))
    case SleepUnlock(l) => At(Spin(s, l, None), p, SleepMark(l))
    case SleepMark(l) => At(s.(procs := s.procs[p := Entry(Sleeping, Some(l), Scheduler)]), p, SleepOff(l))
    case SleepBack(l) => At(s.(procs := s.procs[p := s.procs[p].(chan := None, lock := Free)]), p, AcqSpin(l))
    case RelSpin(l) => At(Spin(s, l, Some(p)), p, RelClear(l))
    case RelClear(l) =>
      At(s.(locks := s.locks[l := s.locks[l].(locked := false, pid := None)]), p, Scan(l, 0))
    case Scan(l, j) =>
      if j == n then At(Spin(s, l, None), p, Out)
      else if j == p then At(s, p, Scan(l, j + 1))
      else At(PLock(s, j, By(p)), p, ScanAt(l, j))
    case ScanAt(l, j) =>
      var e := s.procs[j];
      At(s.(procs := s.procs[j := e.(lock := Free,
                                     state := if e.state == Sleeping && e.chan == Some(l) then Runnable else e.state)]),
         p, Scan(l, j + 1))
    case YieldMark(k) => At(s.(procs := s.procs[p := s.procs[p].(state := Runnable, lock := Scheduler)]), p, Yielded(k))
    case YieldBack(k) => At(PLock(s, p, Free), p, k)
    case Kill(v) => At(PLock(s, v, By(p)), p, KillAt(v))
    case KillAt(v) =>
      var e := s.procs[v];
      At(s.(procs := s.procs[v := e.(lock := Free,
                                     state := if e.state == Sleeping then Runnable else e.state)]), p, Out)
  }

  function Do(n: nat, s: State, a: Step): State
    requires Sized(n, s) && Can(n, s, a)
  {
    match a
    case Acquire(p, l) => At(s, p, AcqSpin(l))
    case Release(p, l) => At(s.(owned := s.owned[p := s.owned[p] - {l}]), p, RelSpin(l))
    case KillCall(p, v) => At(s, p, Kill(v))
    case Yield(p) => At(PLock(s, p, By(p)), p, YieldMark(s.pcs[p]))
    case Go(p) => DoGo(n, s, p)
    case Dispatch(p) =>
      At(s.(procs := s.procs[p := s.procs[p].(state := Running, lock := By(p))]), p,
         if s.pcs[p].SleepOff? then SleepBack(s.pcs[p].l) else YieldBack(s.pcs[p].k))
    case SwitchedOff(p) => PLock(s, p, Free)
  }

  ghost predicate Next(n: nat, s: State, a: Step, t: State) {
    Sized(n, s) && Can(n, s, a) && t == Do(n, s, a)
  }

  /** Every process running, every lock free. */
  ghost predicate Init(n: nat, s: State) {
    && Sized(n, s)
    && (forall p :: 0 <= p < n ==> s.pcs[p] == Out && s.procs[p] == Entry(Running, None, Free) && s.owned[p] == {})
    && (forall l :: 0 <= l < |s.locks| ==> s.locks[l] == SLock(false, None, None))
  }

  // ---- The invariant ----

  /** The sleep lock whose spinlock a process at pc holds. */
  function SpinOf(pc: Pc): Option<Lock> {
    match pc
    case AcqTest(l) => Some(l)
    case AcqDone(l) => Some(l)
    case SleepLockP(l) => Some(l)
    case SleepUnlock(l) => Some(l)
    case RelClear(l) => Some(l)
    case Scan(l, _) => Some(l)
    case ScanAt(l, _) => Some(l)
    case _ => None
  }

  /** The process whose p->lock process p holds at pc. */
  function PLockOf(p: Proc, pc: Pc): Option<Proc> {
    match pc
    case SleepUnlock(_) => Some(p)
    case SleepMark(_) => Some(p)
    case SleepBack(_) => Some(p)
    case YieldMark(_) => Some(p)
    case YieldBack(_) => Some(p)
    case ScanAt(_, j) => Some(j)
    case KillAt(v) => Some(v)
    case _ => None
  }

  /** The sleep lock p owns at pc besides owned[p]: just acquired, or not yet cleared. */
  function Handing(pc: Pc): set<Lock> {
    match pc
    case AcqDone(l) => {l}
    case RelSpin(l) => {l}
    case RelClear(l) => {l}
    case YieldMark(k) => Handing(k)
    case Yielded(k) => Handing(k)
    case YieldBack(k) => Handing(k)
    case _ => {}
  }

  /** A sleep lock's spinlock records exactly the process inside the sections it protects. */
  ghost predicate Spins(pcs: seq<Pc>, locks: seq<SLock>) {
    && (forall p, l :: 0 <= p < |pcs| && 0 <= l < |locks| ==>
          (locks[l].spin == Some(p) <==> SpinOf(pcs[p]) == Some(l)))
    && (forall l :: 0 <= l < |locks| && locks[l].spin.Some? ==> locks[l].spin.value < |pcs|)
  }

  /** So does a p->lock. */
  ghost predicate PLocks(pcs: seq<Pc>, procs: seq<Entry>) {
    forall p, q :: 0 <= p < |pcs| && 0 <= q < |procs| ==>
      (procs[q].lock == By(p) <==> PLockOf(p, pcs[p]) == Some(q))
  }

  /** A sleep lock is held exactly by the process it names. */
  ghost predicate Owners(pcs: seq<Pc>, locks: seq<SLock>, owned: seq<set<Lock>>) {
    && |owned| == |pcs|
    && (forall p, l :: 0 <= p < |pcs| && 0 <= l < |locks| ==>
          (l in owned[p] || l in Handing(pcs[p]) <==> locks[l].locked && locks[l].pid == Some(p)))
    && (forall p, l :: 0 <= p < |pcs| && l in owned[p] ==> l < |locks| && l !in Handing(pcs[p]))
    && (forall l :: 0 <= l < |locks| && locks[l].locked ==> locks[l].pid.Some? && locks[l].pid.value < |pcs|)
  }

  /** A process is SLEEPING only when switched away, on the lock it is waiting for. */
  ghost predicate Asleep(pcs: seq<Pc>, procs: seq<Entry>) {
    |pcs| == |procs| && forall q :: 0 <= q < |pcs| && procs[q].state == Sleeping ==>
      pcs[q].SleepOff? && procs[q].chan == Some(pcs[q].l)
  }

  predicate Waker(pc: Pc, l: Lock, q: Proc) {
    match pc
    case Scan(k, j) => k == l && j <= q
    case ScanAt(k, j) => k == l && j <= q
    case _ => false
  }

  /** Some releaser of l is scanning and has yet to deal with entry q. */
  ghost predicate WakerComing(pcs: seq<Pc>, l: Lock, q: Proc) {
    exists r :: 0 <= r < |pcs| && Waker(pcs[r], l, q)
  }

  /** q has decided to sleep on l: nothing but a wakeup will get it to look at l again. */
  predicate Committed(pc: Pc, state: PState, l: Lock) {
    pc == SleepLockP(l) || pc == SleepUnlock(l) || pc == SleepMark(l) || (pc == SleepOff(l) && state == Sleeping)
  }

  ghost predicate NoLostWakeup(pcs: seq<Pc>, procs: seq<Entry>, locks: seq<SLock>) {
    |pcs| == |procs| && forall q, l :: 0 <= q < |pcs| && 0 <= l < |locks| && Committed(pcs[q], procs[q].state, l) ==>
      locks[l].locked || WakerComing(pcs, l, q)
  }

  ghost predicate Inv(n: nat, s: State) {
    && Sized(n, s)
    && Spins(s.pcs, s.locks) && PLocks(s.pcs, s.procs) && Owners(s.pcs, s.locks, s.owned)
    && Asleep(s.pcs, s.procs) && NoLostWakeup(s.pcs, s.procs, s.locks)
  }

  // ---- What a step may do to each part ----

  ghost predicate SameSpins(locks: seq<SLock>, locks': seq<SLock>) {
    |locks| == |locks'| && forall l :: 0 <= l < |locks| ==> locks'[l].spin == locks[l].spin
  }

  lemma SpinsStay(pcs: seq<Pc>, locks: seq<SLock>, p: Proc, pc: Pc, locks': seq<SLock>)
    requires Spins(pcs, locks) && p < |pcs| && SpinOf(pc) == SpinOf(pcs[p]) && SameSpins(locks, locks')
    ensures Spins(pcs[p := pc], locks')
  {}

  lemma SpinTaken(pcs: seq<Pc>, locks: seq<SLock>, p: Proc, pc: Pc, l: Lock)
    requires Spins(pcs, locks) && p < |pcs| && l < |locks| && locks[l].spin == None
    requires SpinOf(pcs[p]) == None && SpinOf(pc) == Some(l)
    ensures Spins(pcs[p := pc], locks[l := locks[l].(spin := Some(p))])
  {}

  lemma SpinDropped(pcs: seq<Pc>, locks: seq<SLock>, p: Proc, pc: Pc, l: Lock)
    requires Spins(pcs, locks) && p < |pcs| && l < |locks| && SpinOf(pcs[p]) == Some(l) && SpinOf(pc) == None
    ensures Spins(pcs[p := pc], locks[l := locks[l].(spin := None)])
  {}

  lemma PLocksStay(pcs: seq<Pc>, procs: seq<Entry>, p: Proc, pc: Pc)
    requires PLocks(pcs, procs) && p < |pcs| && PLockOf(p, pc) == PLockOf(p, pcs[p])
    ensures PLocks(pcs[p := pc], procs)
  {}

  lemma PLockTaken(pcs: seq<Pc>, procs: seq<Entry>, p: Proc, pc: Pc, q: Proc, e: Entry)
    requires PLocks(pcs, procs) && p < |pcs| && q < |procs| && procs[q].lock == Free && e.lock == By(p)
    requires PLockOf(p, pcs[p]) == None && PLockOf(p, pc) == Some(q)
    ensures PLocks(pcs[p := pc], procs[q := e])
  {}

  lemma PLockDropped(pcs: seq<Pc>, procs: seq<Entry>, p: Proc, pc: Pc, q: Proc, e: Entry)
    requires PLocks(pcs, procs) && p < |pcs| && q < |procs| && !e.lock.By?
    requires PLockOf(p, pcs[p]) == Some(q) && PLockOf(p, pc) == None
    ensures PLocks(pcs[p := pc], procs[q := e])
  {}

  lemma OwnersStay(pcs: seq<Pc>, locks: seq<SLock>, owned: seq<set<Lock>>, p: Proc, pc: Pc, locks': seq<SLock>)
    requires Owners(pcs, locks, owned) && p < |pcs| && Handing(pc) == Handing(pcs[p]) && |locks'| == |locks|
    requires forall l :: 0 <= l < |locks| ==> locks'[l].locked == locks[l].locked && locks'[l].pid == locks[l].pid
    ensures Owners(pcs[p := pc], locks', owned)
  {}

  lemma OwnerTaken(pcs: seq<Pc>, locks: seq<SLock>, owned: seq<set<Lock>>, p: Proc, l: Lock)
    requires Owners(pcs, locks, owned) && p < |pcs| && pcs[p] == AcqTest(l) && l < |locks| && !locks[l].locked
    ensures Owners(pcs[p := AcqDone(l)], locks[l := locks[l].(locked := true, pid := Some(p))], owned)
  {}

  lemma OwnerKept(pcs: seq<Pc>, locks: seq<SLock>, owned: seq<set<Lock>>, p: Proc, l: Lock, locks': seq<SLock>)
    requires Owners(pcs, locks, owned) && p < |pcs| && pcs[p] == AcqDone(l) && l < |locks| && |locks'| == |locks|
    requires forall k :: 0 <= k < |locks| ==> locks'[k].locked == locks[k].locked && locks'[k].pid == locks[k].pid
    ensures Owners(pcs[p := Out], locks', owned[p := owned[p] + {l}])
  {}

  /** Some waker at p that goes on being one. */
  lemma WakerStays(pcs: seq<Pc>, p: Proc, pc: Pc, l: Lock, q: Proc)
    requires p < |pcs| && WakerComing(pcs, l, q) && (Waker(pcs[p], l, q) ==> Waker(pc, l, q))
    ensures WakerComing(pcs[p := pc], l, q)
  {
    var r :| 0 <= r < |pcs| && Waker(pcs[r], l, q);
    assert Waker(pcs[p := pc][r], l, q);
  }

  /** The wakeups owed after p moves to pc, when p gives up being a waker only for processes it has dealt with. */
  lemma NoLostStays(pcs: seq<Pc>, procs: seq<Entry>, locks: seq<SLock>,
                    p: Proc, pc: Pc, procs': seq<Entry>, locks': seq<SLock>)
    requires NoLostWakeup(pcs, procs, locks) && p < |pcs| && |procs'| == |procs| && |locks'| == |locks|
    requires forall l :: 0 <= l < |locks| ==> locks[l].locked ==> locks'[l].locked
    requires forall q :: 0 <= q < |procs| && q != p && procs'[q].state == Sleeping ==> procs[q].state == Sleeping
    requires forall l :: 0 <= l < |locks| && Committed(pc, procs'[p].state, l) ==>
               Committed(pcs[p], procs[p].state, l) || locks'[l].locked
    requires forall q, l :: 0 <= q < |pcs| && 0 <= l < |locks| && Waker(pcs[p], l, q) && !Waker(pc, l, q) ==>
               !Committed(pcs[p := pc][q], procs'[q].state, l)
    ensures NoLostWakeup(pcs[p := pc], procs', locks')
  {
    forall q, l | 0 <= q < |pcs| && 0 <= l < |locks| && Committed(pcs[p := pc][q], procs'[q].state, l)
      ensures locks'[l].locked || WakerComing(pcs[p := pc], l, q)
    {
      if !locks'[l].locked {
        assert Committed(pcs[q], procs[q].state, l);
        WakerStays(pcs, p, pc, l, q);
      }
    }
  }

  // ---- Every step keeps the invariant ----

  lemma CallKept(n: nat, s: State, a: Step)
    requires Inv(n, s) && Can(n, s, a) && (a.Acquire? || a.KillCall?)
    ensures Inv(n, Do(n, s, a))
  {
    var pc := Do(n, s, a).pcs[a.p];
    SpinsStay(s.pcs, s.locks, a.p, pc, s.locks);
    PLocksStay(s.pcs, s.procs, a.p, pc);
    OwnersStay(s.pcs, s.locks, s.owned, a.p, pc, s.locks);
    NoLostStays(s.pcs, s.procs, s.locks, a.p, pc, s.procs, s.locks);
  }

  lemma ReleaseKept(n: nat, s: State, p: Proc, l: Lock)
    requires Inv(n, s) && Can(n, s, Release(p, l))
    ensures Inv(n, Do(n, s, Release(p, l)))
  {
    SpinsStay(s.pcs, s.locks, p, RelSpin(l), s.locks);
    PLocksStay(s.pcs, s.procs, p, RelSpin(l));
    NoLostStays(s.pcs, s.procs, s.locks, p, RelSpin(l), s.procs, s.locks);
  }

  /** acquire(&lk->lk) in acquiresleep() and releasesleep(). */
  lemma SpinKept(n: nat, s: State, p: Proc, l: Lock)
    requires Inv(n, s) && Can(n, s, Go(p)) && (s.pcs[p] == AcqSpin(l) || s.pcs[p] == RelSpin(l))
    ensures Inv(n, DoGo(n, s, p))
  {
    var t := DoGo(n, s, p);
    SpinTaken(s.pcs, s.locks, p, t.pcs[p], l);
    PLocksStay(s.pcs, s.procs, p, t.pcs[p]);
    OwnersStay(s.pcs, s.locks, s.owned, p, t.pcs[p], t.locks);
    NoLostStays(s.pcs, s.procs, s.locks, p, t.pcs[p], s.procs, t.locks);
  }

  lemma TestKept(n: nat, s: State, p: Proc, l: Lock)
    requires Inv(n, s) && p < n && s.pcs[p] == AcqTest(l)
    ensures Inv(n, DoGo(n, s, p))
  {
    var t := DoGo(n, s, p);
    if s.locks[l].locked {
      OwnersStay(s.pcs, s.locks, s.owned, p, t.pcs[p], s.locks);
    } else {
      OwnerTaken(s.pcs, s.locks, s.owned, p, l);
    }
    SpinsStay(s.pcs, s.locks, p, t.pcs[p], t.locks);
    PLocksStay(s.pcs, s.procs, p, t.pcs[p]);
    NoLostStays(s.pcs, s.procs, s.locks, p, t.pcs[p], s.procs, t.locks);
  }

  lemma AcquiredKept(n: nat, s: State, p: Proc, l: Lock)
    requires Inv(n, s) && p < n && s.pcs[p] == AcqDone(l)
    ensures Inv(n, DoGo(n, s, p))
  {
    hide WakerComing, Owners;
    var t := DoGo(n, s, p);
    OwnerKept(s.pcs, s.locks, s.owned, p, l, t.locks);
    SpinDropped(s.pcs, s.locks, p, Out, l);
    PLocksStay(s.pcs, s.procs, p, Out);
    NoLostStays(s.pcs, s.procs, s.locks, p, Out, s.procs, t.locks);
  }

  lemma SleepLockKept(n: nat, s: State, p: Proc, l: Lock)
    requires Inv(n, s) && Can(n, s, Go(p)) && s.pcs[p] == SleepLockP(l)
    ensures Inv(n, DoGo(n, s, p))
  {
    var t := DoGo(n, s, p);
    SpinsStay(s.pcs, s.locks, p, t.pcs[p], s.locks);
    PLockTaken(s.pcs, s.procs, p, t.pcs[p], p, t.procs[p]);
    OwnersStay(s.pcs, s.locks, s.owned, p, t.pcs[p], s.locks);
    NoLostStays(s.pcs, s.procs, s.locks, p, t.pcs[p], t.procs, s.locks);
  }

  lemma SleepUnlockKept(n: nat, s: State, p: Proc, l: Lock)
    requires Inv(n, s) && p < n && s.pcs[p] == SleepUnlock(l)
    ensures Inv(n, DoGo(n, s, p))
  {
    var t := DoGo(n, s, p);
    SpinDropped(s.pcs, s.locks, p, t.pcs[p], l);
    PLocksStay(s.pcs, s.procs, p, t.pcs[p]);
    OwnersStay(s.pcs, s.locks, s.owned, p, t.pcs[p], t.locks);
    NoLostStays(s.pcs, s.procs, s.locks, p, t.pcs[p], s.procs, t.locks);
  }

  lemma SleepMarkKept(n: nat, s: State, p: Proc, l: Lock)
    requires Inv(n, s) && p < n && (s.pcs[p] == SleepMark(l) || s.pcs[p] == SleepBack(l))
    ensures Inv(n, DoGo(n, s, p))
  {
    var t := DoGo(n, s, p);
    SpinsStay(s.pcs, s.locks, p, t.pcs[p], s.locks);
    PLockDropped(s.pcs, s.procs, p, t.pcs[p], p, t.procs[p]);
    OwnersStay(s.pcs, s.locks, s.owned, p, t.pcs[p], s.locks);
    NoLostStays(s.pcs, s.procs, s.locks, p, t.pcs[p], t.procs, s.locks);
  }

  lemma ClearKept(n: nat, s: State, p: Proc, l: Lock)
    requires Inv(n, s) && p < n && s.pcs[p] == RelClear(l)
    ensures Inv(n, DoGo(n, s, p))
  {
    var t := DoGo(n, s, p);
    SpinsStay(s.pcs, s.locks, p, t.pcs[p], t.locks);
    PLocksStay(s.pcs, s.procs, p, t.pcs[p]);
    forall q, k | 0 <= q < n && 0 <= k < |s.locks| && Committed(t.pcs[q], t.procs[q].state, k)
      ensures t.locks[k].locked || WakerComing(t.pcs, k, q)
    {
      if k == l {
        assert Waker(t.pcs[p], l, q);
      } else {
        if WakerComing(s.pcs, k, q) { WakerStays(s.pcs, p, t.pcs[p], k, q); }
      }
    }
  }

  lemma KillKept(n: nat, s: State, p: Proc, v: Proc)
    requires Inv(n, s) && Can(n, s, Go(p)) && s.pcs[p] == Kill(v)
    ensures Inv(n, DoGo(n, s, p))
  {
    hide WakerComing;
    var t := DoGo(n, s, p);
    SpinsStay(s.pcs, s.locks, p, t.pcs[p], s.locks);
    PLockTaken(s.pcs, s.procs, p, t.pcs[p], v, t.procs[v]);
    OwnersStay(s.pcs, s.locks, s.owned, p, t.pcs[p], s.locks);
    NoLostStays(s.pcs, s.procs, s.locks, p, t.pcs[p], t.procs, s.locks);
  }

  lemma KillAtKept(n: nat, s: State, p: Proc, v: Proc)
    requires Inv(n, s) && Can(n, s, Go(p)) && s.pcs[p] == KillAt(v)
    ensures Inv(n, DoGo(n, s, p))
  {
    hide WakerComing;
    var t := DoGo(n, s, p);
    SpinsStay(s.pcs, s.locks, p, t.pcs[p], s.locks);
    PLockDropped(s.pcs, s.procs, p, t.pcs[p], v, t.procs[v]);
    OwnersStay(s.pcs, s.locks, s.owned, p, t.pcs[p], s.locks);
    NoLostStays(s.pcs, s.procs, s.locks, p, t.pcs[p], t.procs, s.locks);
  }

  /** wakeup() moves on to entry j, or returns. */
  lemma ScanKept(n: nat, s: State, p: Proc, l: Lock, j: Proc)
    requires Inv(n, s) && Can(n, s, Go(p)) && s.pcs[p] == Scan(l, j) && j < n
    ensures Inv(n, DoGo(n, s, p))
  {
    var t := DoGo(n, s, p);
    SpinsStay(s.pcs, s.locks, p, t.pcs[p], s.locks);
    if j == p {
      PLocksStay(s.pcs, s.procs, p, t.pcs[p]);
    } else {
      PLockTaken(s.pcs, s.procs, p, t.pcs[p], j, t.procs[j]);
    }
    OwnersStay(s.pcs, s.locks, s.owned, p, t.pcs[p], s.locks);
    NoLostStays(s.pcs, s.procs, s.locks, p, t.pcs[p], t.procs, s.locks);
  }

  lemma ScanEndKept(n: nat, s: State, p: Proc, l: Lock)
    requires Inv(n, s) && p < n && s.pcs[p] == Scan(l, n)
    ensures Inv(n, DoGo(n, s, p))
  {
    var t := DoGo(n, s, p);
    SpinDropped(s.pcs, s.locks, p, Out, l);
    PLocksStay(s.pcs, s.procs, p, Out);
    OwnersStay(s.pcs, s.locks, s.owned, p, Out, t.locks);
    NoLostStays(s.pcs, s.procs, s.locks, p, Out, s.procs, t.locks);
  }

  /** wakeup() leaves entry j: j is no longer committed to sleep on l. */
  lemma ScanAtKept(n: nat, s: State, p: Proc, l: Lock, j: Proc)
    requires Inv(n, s) && p < n && s.pcs[p] == ScanAt(l, j)
    ensures Inv(n, DoGo(n, s, p))
  {
    var t := DoGo(n, s, p);
    SpinsStay(s.pcs, s.locks, p, t.pcs[p], s.locks);
    PLockDropped(s.pcs, s.procs, p, t.pcs[p], j, t.procs[j]);
    OwnersStay(s.pcs, s.locks, s.owned, p, t.pcs[p], s.locks);
    assert !Committed(t.pcs[j], t.procs[j].state, l) by {
      assert s.locks[l].spin == Some(p) && s.procs[j].lock == By(p);
    }
    NoLostStays(s.pcs, s.procs, s.locks, p, t.pcs[p], t.procs, s.locks);
  }

  /** scheduler() picks p, or lets go of the lock of a process that switched away. */
  lemma SchedulerKept(n: nat, s: State, a: Step)
    requires Inv(n, s) && Can(n, s, a) && (a.Dispatch? || a.SwitchedOff?)
    ensures Inv(n, Do(n, s, a))
  {
    var t := Do(n, s, a);
    var p := a.p;
    if a.Dispatch? {
      SpinsStay(s.pcs, s.locks, p, t.pcs[p], s.locks);
      PLockTaken(s.pcs, s.procs, p, t.pcs[p], p, t.procs[p]);
      OwnersStay(s.pcs, s.locks, s.owned, p, t.pcs[p], s.locks);
      NoLostStays(s.pcs, s.procs, s.locks, p, t.pcs[p], t.procs, s.locks);
    }
  }

  /** yield(): into it, and the two steps a process takes in it itself. */
  lemma YieldKept(n: nat, s: State, p: Proc)
    requires Inv(n, s) && Can(n, s, Yield(p))
    ensures Inv(n, Do(n, s, Yield(p)))
  {
    hide WakerComing;
    var t := Do(n, s, Yield(p));
    SpinsStay(s.pcs, s.locks, p, t.pcs[p], s.locks);
    PLockTaken(s.pcs, s.procs, p, t.pcs[p], p, t.procs[p]);
    OwnersStay(s.pcs, s.locks, s.owned, p, t.pcs[p], s.locks);
    NoLostStays(s.pcs, s.procs, s.locks, p, t.pcs[p], t.procs, s.locks);
  }

  lemma YieldStepKept(n: nat, s: State, p: Proc)
    requires Inv(n, s) && Can(n, s, Go(p)) && (s.pcs[p].YieldMark? || s.pcs[p].YieldBack?)
    ensures Inv(n, DoGo(n, s, p))
  {
    hide WakerComing;
    var t := DoGo(n, s, p);
    SpinsStay(s.pcs, s.locks, p, t.pcs[p], s.locks);
    PLockDropped(s.pcs, s.procs, p, t.pcs[p], p, t.procs[p]);
    OwnersStay(s.pcs, s.locks, s.owned, p, t.pcs[p], s.locks);
    NoLostStays(s.pcs, s.procs, s.locks, p, t.pcs[p], t.procs, s.locks);
  }

  lemma GoKept(n: nat, s: State, p: Proc)
    requires Inv(n, s) && Can(n, s, Go(p))
    ensures Inv(n, DoGo(n, s, p))
  {
    match s.pcs[p]
    case AcqSpin(l) => SpinKept(n, s, p, l);
    case RelSpin(l) => SpinKept(n, s, p, l);
    case AcqTest(l) => TestKept(n, s, p, l);
    case AcqDone(l) => AcquiredKept(n, s, p, l);
    case SleepLockP(l) => SleepLockKept(n, s, p, l);
    case SleepUnlock(l) => SleepUnlockKept(n, s, p, l);
    case SleepMark(l) => SleepMarkKept(n, s, p, l);
    case SleepBack(l) => SleepMarkKept(n, s, p, l);
    case RelClear(l) => ClearKept(n, s, p, l);
    case Scan(l, j) => if j < n { ScanKept(n, s, p, l, j); } else { ScanEndKept(n, s, p, l); }
    case ScanAt(l, j) => ScanAtKept(n, s, p, l, j);
    case Kill(v) => KillKept(n, s, p, v);
    case KillAt(v) => KillAtKept(n, s, p, v);
    case YieldMark(_) => YieldStepKept(n, s, p);
    case YieldBack(_) => YieldStepKept(n, s, p);
  }

  lemma StepKept(n: nat, s: State, a: Step, t: State)
    requires Inv(n, s) && Next(n, s, a, t)
    ensures Inv(n, t)
  {
    match a
    case Acquire(_, _) => CallKept(n, s, a);
    case KillCall(_, _) => CallKept(n, s, a);
    case Release(p, l) => ReleaseKept(n, s, p, l);
    case Yield(p) => YieldKept(n, s, p);
    case Go(p) => GoKept(n, s, p);
    case Dispatch(_) => SchedulerKept(n, s, a);
    case SwitchedOff(_) => SchedulerKept(n, s, a);
  }

  // ---- Runs ----

  ghost predicate Run(n: nat, ss: seq<State>, steps: seq<Step>) {
    Linked((s, a, t) => Next(n, s, a, t), ss, steps) && Init(n, ss[0])
  }

  lemma RunInv(n: nat, ss: seq<State>, steps: seq<Step>, i: nat)
    requires Run(n, ss, steps) && i < |ss|
    ensures Inv(n, ss[i])
  {
    forall s, a, t | Inv(n, s) && Next(n, s, a, t) ensures Inv(n, t) { StepKept(n, s, a, t); }
    Invariant((s, a, t) => Next(n, s, a, t), s => Inv(n, s), ss, steps, i);
  }

  /** In every interleaving, no sleep lock is ever held by two processes. */
  lemma MutualExclusion(n: nat, ss: seq<State>, steps: seq<Step>, i: nat, p: Proc, q: Proc)
    requires Run(n, ss, steps) && i < |ss| && p < n && q < n && p != q
    ensures |ss[i].owned| == n && ss[i].owned[p] !! ss[i].owned[q]
  {
    RunInv(n, ss, steps, i);
    forall l | l in ss[i].owned[p] ensures l !in ss[i].owned[q] {
      assert ss[i].locks[l].pid == Some(p);
    }
  }

  lemma SleeperAwaited(n: nat, s: State, q: Proc, l: Lock)
    requires Inv(n, s) && q < n && l < |s.locks|
    requires s.procs[q].state == Sleeping && s.procs[q].chan == Some(l) && !s.locks[l].locked
    ensures exists r :: 0 <= r < |s.pcs| && Waker(s.pcs[r], l, q)
  {
    hide Waker, Spins, PLocks, Owners, PcSized;
    assert Committed(s.pcs[q], s.procs[q].state, l);
    assert WakerComing(s.pcs, l, q);
  }

  /**
   No lost wakeup: a process asleep on a sleep lock that is free will be woken, for some
   releaser is still in its wakeup() and has not yet passed it.
   */
  lemma SleeperHasWaker(n: nat, ss: seq<State>, steps: seq<Step>, i: nat, q: Proc, l: Lock)
    requires Run(n, ss, steps) && i < |ss| && q < n && |ss[i].procs| == n && l < |ss[i].locks|
    requires ss[i].procs[q].state == Sleeping && ss[i].procs[q].chan == Some(l) && !ss[i].locks[l].locked
    ensures exists r :: 0 <= r < |ss[i].pcs| && Waker(ss[i].pcs[r], l, q)
  {
    hide *;
    RunInv(n, ss, steps, i);
    SleeperAwaited(n, ss[i], q, l);
  }

  /** So once nobody is inside the lock's code and the lock is free, nobody is asleep on it. */
  lemma FreeLockHasNoSleeper(n: nat, ss: seq<State>, steps: seq<Step>, i: nat, q: Proc, l: Lock)
    requires Run(n, ss, steps) && i < |ss| && q < n && |ss[i].procs| == n && l < |ss[i].locks|
    requires ss[i].locks[l].spin == None && !ss[i].locks[l].locked
    ensures !(ss[i].procs[q].state == Sleeping && ss[i].procs[q].chan == Some(l))
  {
    RunInv(n, ss, steps, i);
    if ss[i].procs[q].state == Sleeping && ss[i].procs[q].chan == Some(l) {
      SleeperHasWaker(n, ss, steps, i, q, l);
    }
  }
}
