/**
 Process life cycle of kernel/proc.c as a step machine: fork, exit, wait, kill,
 yield and the scheduler, in any interleaving.  The timer can make a process yield
 wherever it holds no lock, in the middle of these functions too.  wait_lock and every p->lock are
 explicit; a step is one acquire, one release or one table entry's worth of work
 done under them, and wakeup() and the scans of kwait() and reparent() visit one
 entry at a time.  Process 0 is initproc.
 */
module Procs {
  import opened Common
  import opened Runs

  type Proc = nat

  datatype PState = UNUSED | USED | SLEEPING | RUNNABLE | RUNNING | ZOMBIE

  // Who holds a p->lock: a process, or the scheduler that sched() handed it to.
  datatype Holder = Free | By(q: Proc) | Scheduler

  // struct cpu: proc is p while Running(p); Releasing(p) has cleared it and is about to release p->lock.
  datatype Cpu = Idle | RunningOn(p: Proc) | Releasing(p: Proc)

  /** Where a process has got to. */
  datatype Pc =
    | Unborn                       // slot not in use
    | Embryo                       // allocated by a fork still in progress
    | Born                         // runnable for the first time
    | User                         // on a CPU, in none of the functions below
    | Back(k: Pc)                  // just switched to by the scheduler, holding its own lock, to go on at k
    | ForkSetup(np: Proc)          // kfork(): holding np->lock, np USED
    | ForkWait(np: Proc)           // before acquire(&wait_lock)
    | ForkParent(np: Proc)         // holding wait_lock
    | ForkLock(np: Proc)           // before acquire(&np->lock)
    | ForkRun(np: Proc)            // holding np->lock
    | ExitWait(x: int)             // kexit(x): before acquire(&wait_lock)
    | Reparent(x: int, i: Proc)    // reparent(): about to look at entry i
    // wakeup(q) about to look at entry j; then comes reparent's next entry, or the exit
    | Wake(x: int, q: Proc, j: Proc, next: Option<Proc>)
    | WakeAt(x: int, q: Proc, j: Proc, next: Option<Proc>)  // wakeup(q) holding entry j's lock
    | ExitLock(x: int)             // before acquire(&p->lock)
    | ExitMark(x: int)             // before xstate and ZOMBIE are set
    | ExitRelease                  // ZOMBIE, before release(&wait_lock) and sched()
    | Dead                         // switched away for good
    | WaitWait                     // kwait(), or its sleep() on the way back: before acquire(&wait_lock)
    | WaitScan(i: Proc, kids: bool)  // about to look at entry i
    | WaitAt(i: Proc)              // holding child i's lock
    | WaitReaped                   // child freed and its lock released, before release(&wait_lock)
    | WaitLock                     // sleep(): before acquire(&p->lock)
    | WaitUnlock                   // before release(&wait_lock)
    | WaitMark                     // before chan and SLEEPING are set
    | WaitOff                      // switched away in sleep()
    | WaitBack                     // switched back, holding its own lock
    | YieldMark(k: Pc)             // yield(): holding its own lock
    | Yielded(k: Pc)               // switched away in yield(), to go on at k
    | KillLock(v: Proc)            // kkill(): before acquire of the victim's lock
    | KillAt(v: Proc)              // kkill(): holding the victim's lock

  datatype State = State(
    pcs: seq<Pc>,
    st: seq<PState>,
    chan: seq<Option<Proc>>,       // the channel kwait() sleeps on is a process's address
    killed: seq<bool>,
    pid: seq<nat>,
    xstate: seq<int>,
    parent: seq<Option<Proc>>,
    lock: seq<Holder>,
    waitLock: Option<Proc>,
    cpus: seq<Cpu>,
    nextpid: nat,
    exits: map<nat, int>,          // the status each pid exited with
    reaped: seq<(nat, int)>        // the pids and statuses kwait() returned
  )

  datatype Step =
    | Fork(p: Proc, np: Proc)
    | Exit(p: Proc, x: int)
    | Wait(p: Proc)
    | Yield(p: Proc)
    | Kill(p: Proc, v: Proc)
    | Go(p: Proc, ok: bool)        // p's next step; ok decides memory allocation and copyout()
    | Dispatch(c: nat, p: Proc)    // scheduler() on CPU c runs p
    | SwitchOff(c: nat)            // scheduler() takes over again from the process that called sched()

  predicate Sized(n: nat, s: State) {
    && n > 0
    && |s.pcs| == |s.st| == |s.chan| == |s.killed| == |s.pid| == |s.xstate| == |s.parent| == |s.lock| == n
    && (forall p :: 0 <= p < n ==> PcSized(n, s.pcs[p]))
    && (forall p :: 0 <= p < n && s.parent[p].Some? ==> s.parent[p].value < n)
    && (forall c :: 0 <= c < |s.cpus| ==> s.cpus[c].Idle? || s.cpus[c].p < n)
  }

  /** p holds no lock at pc, so that interrupts are on. */
  predicate Preemptible(pc: Pc) {
    pc == User || pc.ForkWait? || pc.ForkLock? || pc.ExitWait? || pc == WaitWait || pc.KillLock?
  }

  /** Where a process is but for being made to yield. */
  function Base(pc: Pc): Pc {
    match pc
    case Back(k) => k
    case YieldMark(k) => k
    case Yielded(k) => k
    case _ => pc
  }

  predicate PcSized(n: nat, pc: Pc) {
    match pc
    case Back(k) => Preemptible(k) && PcSized(n, k)
    case YieldMark(k) => Preemptible(k) && PcSized(n, k)
    case Yielded(k) => Preemptible(k) && PcSized(n, k)
    case ForkSetup(np) => np < n
    case ForkWait(np) => np < n
    case ForkParent(np) => np < n
    case ForkLock(np) => np < n
    case ForkRun(np) => np < n
    case Reparent(_, i) => i <= n
    case Wake(_, q, j, next) => q < n && j <= n && (next.Some? ==> next.value <= n)
    case WakeAt(_, q, j, next) => q < n && j < n && (next.Some? ==> next.value <= n)
    case WaitScan(i, _) => i <= n
    case WaitAt(i) => i < n
    case KillLock(v) => v < n
    case KillAt(v) => v < n
    case _ => true
  }

  /** Whether p's next step can be taken: acquire() of a held lock waits, and a process off its CPU does nothing. */
  predicate CanGo(n: nat, s: State, p: Proc)
    requires Sized(n, s) && p < n
  {
    match s.pcs[p]
    case Unborn => false
    case Embryo => false
    case Born => false
    case User => false
    case Dead => false
    case WaitOff => false
    case Yielded(_) => false
    case ForkWait(_) => s.waitLock == None
    case ExitWait(_) => s.waitLock == None
    case WaitWait => s.waitLock == None
    case ForkLock(np) => s.lock[np] == Free
    case ExitLock(_) => s.lock[p] == Free
    case WaitLock => s.lock[p] == Free
    case Reparent(_, i) => i < n || s.parent[p].Some?
    case Wake(_, _, j, _) => j == n || j == p || s.lock[j] == Free
    case WaitScan(i, _) =>
      // killed() takes p's own lock
      if i < n then s.parent[i] == Some(p) ==> s.lock[i] == Free else s.lock[p] == Free
    case KillLock(v) => s.lock[v] == Free
    case _ => true
  }

  predicate Can(n: nat, s: State, a: Step)
    requires Sized(n, s)
  {
    match a
    case Fork(p, np) => p < n && np < n && s.pcs[p] == User && s.st[np] == UNUSED && s.lock[np] == Free
    // kexit() panics for initproc.
    case Exit(p, _) => p < n && s.pcs[p] == User && p != 0
    case Wait(p) => p < n && s.pcs[p] == User
    case Yield(p) => p < n && Preemptible(s.pcs[p]) && s.lock[p] == Free
    case Kill(p, v) => p < n && v < n && s.pcs[p] == User
    case Go(p, _) => p < n && CanGo(n, s, p)
    case Dispatch(c, p) => c < |s.cpus| && s.cpus[c] == Idle && p < n && s.st[p] == RUNNABLE && s.lock[p] == Free
    case SwitchOff(c) =>
      && c < |s.cpus| && !s.cpus[c].Idle?
      && (s.cpus[c].RunningOn? ==> s.lock[s.cpus[c].p] == Scheduler)
  }

  // ---- What each step does ----

  function At(s: State, p: Proc, pc: Pc): State
    requires p < |s.pcs|
  {
    s.(pcs := s.pcs[p := pc])
  }

  function Lock(s: State, q: Proc, h: Holder): State
    requires q < |s.lock|
  {
    s.(lock := s.lock[q := h])
  }

  function SetState(s: State, q: Proc, x: PState): State
    requires q < |s.st|
  {
    s.(st := s.st[q := x])
  }

  /** freeproc() */
  function FreeProc(n: nat, s: State, q: Proc): State
    requires Sized(n, s) && q < n
  {
    s.(pid := s.pid[q := 0], parent := s.parent[q := None], chan := s.chan[q := None], killed := s.killed[q := false],
       xstate := s.xstate[q := 0], st := s.st[q := UNUSED], pcs := s.pcs[q := Unborn])
  }

  predicate InFork(pc: Pc) {
    pc.ForkSetup? || pc.ForkWait? || pc.ForkParent? || pc.ForkLock? || pc.ForkRun?
  }

  predicate InExit(pc: Pc) {
    || pc.ExitWait? || pc.Reparent? || pc.Wake? || pc.WakeAt? || pc.ExitLock? || pc.ExitMark? || pc.ExitRelease?
  }

  predicate InWait(pc: Pc) {
    || pc.WaitWait? || pc.WaitScan? || pc.WaitAt? || pc.WaitReaped?
    || pc.WaitLock? || pc.WaitUnlock? || pc.WaitMark? || pc.WaitBack?
  }

  function GoFork(n: nat, s: State, p: Proc, ok: bool): State
    requires Sized(n, s) && p < n && CanGo(n, s, p)
    requires InFork(s.pcs[p])
  {
    var np := s.pcs[p].np;
    match s.pcs[p]
    case ForkSetup(_) =>
      if ok then At(Lock(s, np, Free), p, ForkWait(np)) else At(Lock(FreeProc(n, s, np), np, Free), p, User)
    case ForkWait(_) => At(s.(waitLock := Some(p)), p, ForkParent(np))
    case ForkParent(_) => At(s.(parent := s.parent[np := Some(p)], waitLock := None), p, ForkLock(np))
    case ForkLock(_) => At(Lock(s, np, By(p)), p, ForkRun(np))
    case ForkRun(_) => At(At(Lock(SetState(s, np, RUNNABLE), np, Free), np, Born), p, User)
  }

  function GoExit(n: nat, s: State, p: Proc): State
    requires Sized(n, s) && p < n && CanGo(n, s, p)
    requires InExit(s.pcs[p])
  {
    match s.pcs[p]
    case ExitWait(x) => At(s.(waitLock := Some(p)), p, Reparent(x, 0))
    case Reparent(x, i) =>
      if i == n then At(s, p, Wake(x, s.parent[p].value, 0, None))
      else if s.parent[i] == Some(p) then At(s.(parent := s.parent[i := Some(0)]), p, Wake(x, 0, 0, Some(i + 1)))
      else At(s, p, Reparent(x, i + 1))
    case Wake(x, q, j, next) =>
      if j == n then At(s, p, if next.Some? then Reparent(x, next.value) else ExitLock(x))
      else if j == p then At(s, p, Wake(x, q, j + 1, next))
      else At(Lock(s, j, By(p)), p, WakeAt(x, q, j, next))
    case WakeAt(x, q, j, next) =>
      var x' := if s.st[j] == SLEEPING && s.chan[j] == Some(q) then RUNNABLE else s.st[j];
      At(Lock(SetState(s, j, x'), j, Free), p, Wake(x, q, j + 1, next))
    case ExitLock(x) => At(Lock(s, p, By(p)), p, ExitMark(x))
    case ExitMark(x) =>
      At(SetState(s, p, ZOMBIE).(xstate := s.xstate[p := x], exits := s.exits[s.pid[p] := x]), p, ExitRelease)
    case ExitRelease => At(Lock(s.(waitLock := None), p, Scheduler), p, Dead)
  }

  function GoWait(n: nat, s: State, p: Proc, ok: bool): State
    requires Sized(n, s) && p < n && CanGo(n, s, p)
    requires InWait(s.pcs[p])
  {
    match s.pcs[p]
    case WaitWait => At(s.(waitLock := Some(p)), p, WaitScan(0, false))
    case WaitScan(i, kids) =>
      if i == n then
        if !kids || s.killed[p] then At(s.(waitLock := None), p, User) else At(s, p, WaitLock)
      else if s.parent[i] == Some(p) then At(Lock(s, i, By(p)), p, WaitAt(i))
      else At(s, p, WaitScan(i + 1, kids))
    case WaitAt(i) =>
      if s.st[i] != ZOMBIE then At(Lock(s, i, Free), p, WaitScan(i + 1, true))
      else if !ok then At(Lock(s.(waitLock := None), i, Free), p, User)
      else At(Lock(FreeProc(n, s, i), i, Free).(reaped := s.reaped + [(s.pid[i], s.xstate[i])]), p, WaitReaped)
    case WaitReaped => At(s.(waitLock := None), p, User)
    case WaitLock => At(Lock(s, p, By(p)), p, WaitUnlock)
    case WaitUnlock => At(s.(waitLock := None), p, WaitMark)
    case WaitMark => At(Lock(SetState(s, p, SLEEPING).(chan := s.chan[p := Some(p)]), p, Scheduler), p, WaitOff)
    case WaitBack => At(Lock(s.(chan := s.chan[p := None]), p, Free), p, WaitWait)
  }

  function GoOther(n: nat, s: State, p: Proc): State
    requires Sized(n, s) && p < n && CanGo(n, s, p)
    requires s.pcs[p].Back? || s.pcs[p].YieldMark? || s.pcs[p].KillLock? || s.pcs[p].KillAt?
  {
    match s.pcs[p]
    case Back(k) => At(Lock(s, p, Free), p, k)
    case YieldMark(k) => At(Lock(SetState(s, p, RUNNABLE), p, Scheduler), p, Yielded(k))
    case KillLock(v) => At(Lock(s, v, By(p)), p, KillAt(v))
    case KillAt(v) =>
      At(Lock(SetState(s, v, if s.st[v] == SLEEPING then RUNNABLE else s.st[v]), v, Free)
           .(killed := s.killed[v := true]), p, User)
  }

  function DoGo(n: nat, s: State, p: Proc, ok: bool): State
    requires Sized(n, s) && p < n && CanGo(n, s, p)
  {
    if InFork(s.pcs[p]) then GoFork(n, s, p, ok)
    else if InExit(s.pcs[p]) then GoExit(n, s, p)
    else if InWait(s.pcs[p]) then GoWait(n, s, p, ok)
    else GoOther(n, s, p)
  }

  function Do(n: nat, s: State, a: Step): State
    requires Sized(n, s) && Can(n, s, a)
  {
    match a
    case Fork(p, np) =>
      At(At(Lock(SetState(s, np, USED), np, By(p)).(pid := s.pid[np := s.nextpid], nextpid := s.nextpid + 1), np,
            Embryo),
         p, ForkSetup(np))
    case Exit(p, x) => At(s, p, ExitWait(x))
    case Wait(p) => At(s, p, WaitWait)
    case Yield(p) => At(Lock(s, p, By(p)), p, YieldMark(s.pcs[p]))
    case Kill(p, v) => At(s, p, KillLock(v))
    case Go(p, ok) => DoGo(n, s, p, ok)
    case Dispatch(c, p) =>
      At(Lock(SetState(s, p, RUNNING), p, By(p)).(cpus := s.cpus[c := RunningOn(p)]),
         p, if s.pcs[p] == WaitOff then WaitBack else Back(if s.pcs[p].Yielded? then s.pcs[p].k else User))
    case SwitchOff(c) =>
      if s.cpus[c].RunningOn? then s.(cpus := s.cpus[c := Releasing(s.cpus[c].p)])
      else Lock(s, s.cpus[c].p, Free).(cpus := s.cpus[c := Idle])
  }

  ghost predicate Next(n: nat, s: State, a: Step, t: State) {
    Sized(n, s) && Can(n, s, a) && t == Do(n, s, a)
  }

  /** userinit(): initproc runnable, every other slot free. */
  ghost predicate Init(n: nat, s: State) {
    && Sized(n, s)
    && s.pcs[0] == Born && s.st[0] == RUNNABLE && s.pid[0] == 1 && s.nextpid == 2
    && (forall p :: 0 < p < n ==> s.pcs[p] == Unborn && s.st[p] == UNUSED)
    && (forall p :: 0 <= p < n ==> s.lock[p] == Free && s.parent[p] == None && s.chan[p] == None)
    && s.waitLock == None && (forall c :: 0 <= c < |s.cpus| ==> s.cpus[c] == Idle)
    && s.exits == map[] && s.reaped == []
  }
}
