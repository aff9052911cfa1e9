/**
 Safety of fork, exit, wait and the scheduler over every run of module Procs:
 no process is orphaned, no wakeup of a waiting parent is lost, no exit status is
 reaped twice, and no process is freed while a CPU is still on its stack.
 */
module ProcSafety {
  import opened Common
  import opened Runs
  import opened Procs

  // ---- What a position implies ----

  predicate StateOk(pc: Pc, st: PState) {
    match pc
    case Unborn => st == UNUSED
    case Embryo => st == USED
    case Born => st == RUNNABLE
    case Yielded(_) => st == RUNNABLE
    case WaitOff => st == SLEEPING || st == RUNNABLE
    case ExitRelease => st == ZOMBIE
    case Dead => st == ZOMBIE
    case _ => st == RUNNING
  }

  predicate OnCpu(pc: Pc) {
    !(pc == Unborn || pc == Embryo || pc == Born || pc == Dead || pc == WaitOff || pc.Yielded?)
  }

  predicate Zombie(pc: Pc) { pc == ExitRelease || pc == Dead }

  /** Able to be somebody's parent. */
  predicate Alive(pc: Pc) { !(pc == Unborn || pc == Embryo || Zombie(pc)) }

  predicate HoldsWait(pc: Pc) {
    || pc.ForkParent? || pc.Reparent? || pc.Wake? || pc.WakeAt? || pc.ExitLock? || pc.ExitMark? || pc.ExitRelease?
    || pc.WaitScan? || pc.WaitAt? || pc.WaitReaped? || pc.WaitLock? || pc.WaitUnlock?
  }

  /** The process whose p->lock process p holds at pc. */
  function LockOf(p: Proc, pc: Pc): Option<Proc> {
    match pc
    case ForkSetup(np) => Some(np)
    case ForkRun(np) => Some(np)
    case WakeAt(_, _, j, _) => Some(j)
    case ExitMark(_) => Some(p)
    case ExitRelease => Some(p)
    case WaitAt(i) => Some(i)
    case WaitUnlock => Some(p)
    case WaitMark => Some(p)
    case WaitBack => Some(p)
    case Back(_) => Some(p)
    case YieldMark(_) => Some(p)
    case KillAt(v) => Some(v)
    case _ => None
  }

  /** Entries below this are known not to be children of an exiting process at pc. */
  function Cleared(n: nat, pc: Pc): nat {
    match pc
    case Reparent(_, i) => i
    case Wake(_, _, _, next) => if next.Some? then next.value else n
    case WakeAt(_, _, _, next) => if next.Some? then next.value else n
    case ExitLock(_) => n
    case ExitMark(_) => n
    case _ => 0
  }

  /** Entries below this are known not to be zombie children of a waiting process at pc. */
  function Scanned(n: nat, pc: Pc): nat {
    match pc
    case WaitScan(i, _) => i
    case WaitAt(i) => i
    case WaitLock => n
    case WaitUnlock => n
    case _ => 0
  }

  /** A waiting process that will not look at its children again until woken. */
  predicate Committed(pc: Pc, st: PState) {
    pc == WaitLock || pc == WaitUnlock || pc == WaitMark || (pc == WaitOff && st == SLEEPING)
  }

  /** In a wakeup(q) that has yet to deal with q. */
  predicate Waker(pc: Pc, q: Proc) {
    match pc
    case Wake(_, k, j, _) => k == q && j <= q
    case WakeAt(_, k, j, _) => k == q && j <= q
    case _ => false
  }

  /** In the last wakeup of kexit(), or past it. */
  predicate Leaving(pc: Pc) {
    (pc.Wake? && pc.next == None) || (pc.WakeAt? && pc.next == None) || pc.ExitLock? || pc.ExitMark?
  }

  // ---- The invariant, part by part ----

  ghost predicate Table(pcs: seq<Pc>, st: seq<PState>) {
    |pcs| == |st| && forall p :: 0 <= p < |pcs| ==> StateOk(pcs[p], st[p])
  }

  ghost predicate Waits(pcs: seq<Pc>, w: Option<Proc>) {
    && (forall p :: 0 <= p < |pcs| ==> (w == Some(p) <==> HoldsWait(pcs[p])))
    && (w.Some? ==> w.value < |pcs|)
  }

  ghost predicate Locks(pcs: seq<Pc>, lock: seq<Holder>) {
    && |pcs| == |lock|
    && (forall p, q :: 0 <= p < |pcs| && 0 <= q < |lock| ==> (lock[q] == By(p) <==> LockOf(p, pcs[p]) == Some(q)))
    && (forall q :: 0 <= q < |lock| && lock[q].By? ==> lock[q].q < |pcs|)
    && (forall q :: 0 <= q < |lock| && lock[q] == Scheduler ==> !OnCpu(pcs[q]))
  }

  /** A CPU's current process is running on it or has just handed it its lock; no process is on two CPUs. */
  ghost predicate OnCpus(pcs: seq<Pc>, lock: seq<Holder>, cpus: seq<Cpu>) {
    && |pcs| == |lock|
    && (forall c :: 0 <= c < |cpus| && !cpus[c].Idle? ==> cpus[c].p < |pcs|)
    && (forall c :: 0 <= c < |cpus| && cpus[c].RunningOn? ==> OnCpu(pcs[cpus[c].p]) || lock[cpus[c].p] == Scheduler)
    && (forall c :: 0 <= c < |cpus| && cpus[c].Releasing? ==> lock[cpus[c].p] == Scheduler)
    && (forall c, d :: 0 <= c < d < |cpus| && !cpus[c].Idle? && !cpus[d].Idle? ==> cpus[c].p != cpus[d].p)
  }

  /** Every process that was ever runnable has a live parent, except initproc, which never exits. */
  ghost predicate Kin(pcs: seq<Pc>, parent: seq<Option<Proc>>) {
    && |pcs| == |parent| && |pcs| > 0
    && Alive(pcs[0]) && !InExit(Base(pcs[0])) && parent[0] == None
    && (forall c {:trigger parent[c]} :: 0 <= c < |pcs| && parent[c].Some? ==>
          parent[c].value != c && parent[c].value < |pcs| && Alive(pcs[parent[c].value]))
    && (forall c {:trigger parent[c]} :: 0 < c < |pcs| && pcs[c] != Unborn && pcs[c] != Embryo ==> parent[c].Some?)
    && (forall c {:trigger parent[c]} :: 0 <= c < |pcs| && pcs[c] == Unborn ==> parent[c] == None)
  }

  /** A fork in progress owns its embryo. */
  ghost predicate Forks(pcs: seq<Pc>, parent: seq<Option<Proc>>) {
    && |pcs| == |parent|
    && (forall x {:trigger InFork(Base(pcs[x]))} :: 0 <= x < |pcs| && InFork(Base(pcs[x])) ==>
          && Base(pcs[x]).np < |pcs| && pcs[Base(pcs[x]).np] == Embryo
          && parent[Base(pcs[x]).np] == if Base(pcs[x]).ForkLock? || Base(pcs[x]).ForkRun? then Some(x) else None)
    && (forall x, y {:trigger InFork(Base(pcs[x])), InFork(Base(pcs[y]))} ::
          0 <= x < |pcs| && 0 <= y < |pcs| && x != y && InFork(Base(pcs[x])) && InFork(Base(pcs[y])) ==>
            Base(pcs[x]).np != Base(pcs[y]).np)
  }

  /** reparent() has taken the children it has passed. */
  ghost predicate Orphans(pcs: seq<Pc>, parent: seq<Option<Proc>>) {
    |pcs| == |parent| &&
    forall x, c :: 0 <= x < |pcs| && 0 <= c < Cleared(|pcs|, pcs[x]) && c < |pcs| ==> parent[c] != Some(x)
  }

  ghost predicate WakerComing(pcs: seq<Pc>, q: Proc) {
    exists r :: 0 <= r < |pcs| && Waker(pcs[r], q)
  }

  /** A parent that is going to sleep, or asleep, with a zombie child is about to be woken. */
  ghost predicate NoLostWakeup(pcs: seq<Pc>, st: seq<PState>, parent: seq<Option<Proc>>) {
    |pcs| == |parent| == |st| &&
    forall c :: 0 <= c < |pcs| && parent[c].Some? && parent[c].value < |pcs| && Zombie(pcs[c])
                && Committed(pcs[parent[c].value], st[parent[c].value]) ==>
      WakerComing(pcs, parent[c].value)
  }

  /** An exiting process past its wakeup of the parent has a parent that is not going to sleep. */
  ghost predicate Notified(pcs: seq<Pc>, st: seq<PState>, parent: seq<Option<Proc>>) {
    |pcs| == |parent| == |st| &&
    forall c :: 0 <= c < |pcs| && Leaving(pcs[c]) ==>
      && parent[c].Some? && parent[c].value < |pcs|
      && (pcs[c].Wake? || pcs[c].WakeAt? ==> pcs[c].q == parent[c].value)
      && (Waker(pcs[c], parent[c].value) || !Committed(pcs[parent[c].value], st[parent[c].value]))
  }

  /** kwait() has no zombie child among the entries it has passed. */
  ghost predicate Looked(pcs: seq<Pc>, parent: seq<Option<Proc>>) {
    |pcs| == |parent| &&
    forall p, c :: 0 <= p < |pcs| && 0 <= c < Scanned(|pcs|, pcs[p]) && c < |pcs| && parent[c] == Some(p) ==>
      !Zombie(pcs[c])
  }

  ghost predicate Channels(st: seq<PState>, chan: seq<Option<Proc>>) {
    |st| == |chan| && forall p :: 0 <= p < |st| && st[p] == SLEEPING ==> chan[p] == Some(p)
  }

  /** Pids are unique; a zombie's status is the one it exited with and has not been reaped; none is reaped twice. */
  ghost predicate Statuses(pcs: seq<Pc>, pid: seq<nat>, xstate: seq<int>, nextpid: nat,
                           exits: map<nat, int>, reaped: seq<(nat, int)>) {
    && |pcs| == |pid| == |xstate|
    && (forall p :: 0 <= p < |pcs| && pcs[p] != Unborn ==> 0 < pid[p] < nextpid)
    && (forall p, q :: 0 <= p < q < |pcs| && pcs[p] != Unborn && pcs[q] != Unborn ==> pid[p] != pid[q])
    && (forall p :: 0 <= p < |pcs| && pcs[p] != Unborn ==> (pid[p] in exits <==> Zombie(pcs[p])))
    && (forall p :: 0 <= p < |pcs| && Zombie(pcs[p]) ==> xstate[p] == exits[pid[p]])
    && (forall k :: k in exits ==> k < nextpid)
    && (forall i :: 0 <= i < |reaped| ==> reaped[i].0 in exits && exits[reaped[i].0] == reaped[i].1)
    && (forall i, p :: 0 <= i < |reaped| && 0 <= p < |pcs| && pcs[p] != Unborn ==> pid[p] != reaped[i].0)
    && (forall i, j :: 0 <= i < j < |reaped| ==> reaped[i].0 != reaped[j].0)
  }

  // ---- What one process's move does to each part ----

  lemma TableMove(pcs: seq<Pc>, st: seq<PState>, p: Proc, pc: Pc, q: Proc, x: PState)
    requires Table(pcs, st) && p < |pcs| && q < |pcs|
    requires StateOk(pc, if q == p then x else st[p]) && (q != p ==> StateOk(pcs[q], x))
    ensures Table(pcs[p := pc], st[q := x])
  {}

  lemma WaitsStay(pcs: seq<Pc>, w: Option<Proc>, p: Proc, pc: Pc)
    requires Waits(pcs, w) && p < |pcs| && HoldsWait(pc) == HoldsWait(pcs[p])
    ensures Waits(pcs[p := pc], w)
  {}

  lemma WaitTaken(pcs: seq<Pc>, p: Proc, pc: Pc)
    requires Waits(pcs, None) && p < |pcs| && HoldsWait(pc)
    ensures Waits(pcs[p := pc], Some(p))
  {}

  lemma WaitDropped(pcs: seq<Pc>, w: Option<Proc>, p: Proc, pc: Pc)
    requires Waits(pcs, w) && p < |pcs| && HoldsWait(pcs[p]) && !HoldsWait(pc)
    ensures Waits(pcs[p := pc], None)
  {}

  lemma LocksStay(pcs: seq<Pc>, lock: seq<Holder>, p: Proc, pc: Pc)
    requires Locks(pcs, lock) && p < |pcs| && LockOf(p, pc) == LockOf(p, pcs[p])
    requires lock[p] == Scheduler ==> !OnCpu(pc)
    ensures Locks(pcs[p := pc], lock)
  {}

  lemma LockTaken(pcs: seq<Pc>, lock: seq<Holder>, p: Proc, pc: Pc, q: Proc)
    requires Locks(pcs, lock) && p < |pcs| && q < |pcs| && lock[q] == Free
    requires LockOf(p, pcs[p]) == None && LockOf(p, pc) == Some(q)
    requires lock[p] == Scheduler ==> !OnCpu(pc)
    ensures Locks(pcs[p := pc], lock[q := By(p)])
  {}

  lemma LockDropped(pcs: seq<Pc>, lock: seq<Holder>, p: Proc, pc: Pc, q: Proc, h: Holder)
    requires Locks(pcs, lock) && p < |pcs| && q < |pcs|
    requires LockOf(p, pcs[p]) == Some(q) && LockOf(p, pc) == None
    requires h == Free || (h == Scheduler && q == p && !OnCpu(pc))
    requires lock[p] == Scheduler ==> !OnCpu(pc)
    ensures Locks(pcs[p := pc], lock[q := h])
  {}

  /** Processes leave their CPU only by handing it their lock. */
  lemma CpusStay(pcs: seq<Pc>, lock: seq<Holder>, cpus: seq<Cpu>, pcs': seq<Pc>, lock': seq<Holder>)
    requires OnCpus(pcs, lock, cpus) && |pcs'| == |lock'| == |pcs|
    requires forall q :: 0 <= q < |pcs| ==> lock[q] == Scheduler ==> lock'[q] == Scheduler
    requires forall q :: 0 <= q < |pcs| ==> OnCpu(pcs[q]) ==> OnCpu(pcs'[q]) || lock'[q] == Scheduler
    ensures OnCpus(pcs', lock', cpus)
  {}

  lemma KinStay(pcs: seq<Pc>, parent: seq<Option<Proc>>, p: Proc, pc: Pc)
    requires Kin(pcs, parent) && p < |pcs| && Alive(pc) == Alive(pcs[p]) && (p == 0 ==> !InExit(Base(pc)))
    requires pc != Unborn && pcs[p] != Unborn && pcs[p] != Embryo
    ensures Kin(pcs[p := pc], parent)
  {}

  lemma ForksStay(pcs: seq<Pc>, parent: seq<Option<Proc>>, p: Proc, pc: Pc)
    requires Forks(pcs, parent) && p < |pcs| && pcs[p] != Embryo
    requires var k, k' := Base(pcs[p]), Base(pc);
             InFork(k') ==> InFork(k) && k'.np == k.np && (k'.ForkLock? || k'.ForkRun? <==> k.ForkLock? || k.ForkRun?)
    ensures Forks(pcs[p := pc], parent)
  {}

  /** A slot with no children is freed, allocated or made runnable. */
  lemma KinSlot(pcs: seq<Pc>, parent: seq<Option<Proc>>, q: Proc, pc: Pc)
    requires Kin(pcs, parent) && q < |pcs| && !Alive(pcs[q])
    requires if pc == Unborn then parent[q] == None else pc == Embryo || parent[q].Some?
    ensures Kin(pcs[q := pc], parent)
  {}

  lemma KinParent(pcs: seq<Pc>, parent: seq<Option<Proc>>, c: Proc, v: Proc)
    requires Kin(pcs, parent) && 0 < c < |pcs| && pcs[c] != Unborn
    requires v != c && v < |pcs| && Alive(pcs[v])
    ensures Kin(pcs, parent[c := Some(v)])
  {}

  lemma KinFreed(pcs: seq<Pc>, parent: seq<Option<Proc>>, q: Proc)
    requires Kin(pcs, parent) && q < |pcs| && !Alive(pcs[q])
    ensures Kin(pcs[q := Unborn], parent[q := None])
  {}

  lemma KinZombie(pcs: seq<Pc>, parent: seq<Option<Proc>>, p: Proc)
    requires Kin(pcs, parent) && 0 < p < |pcs| && Alive(pcs[p])
    requires forall c :: 0 <= c < |pcs| ==> parent[c] != Some(p)
    ensures Kin(pcs[p := ExitRelease], parent)
  {}

  /** Slot q is no fork's embryo. */
  ghost predicate Unforked(pcs: seq<Pc>, q: Proc) {
    forall x :: 0 <= x < |pcs| && InFork(Base(pcs[x])) ==> Base(pcs[x]).np != q
  }

  lemma ForksSlot(pcs: seq<Pc>, parent: seq<Option<Proc>>, q: Proc, pc: Pc)
    requires Forks(pcs, parent) && q < |pcs| && Unforked(pcs, q) && !InFork(Base(pc))
    ensures Forks(pcs[q := pc], parent)
  {}

  lemma ForksParent(pcs: seq<Pc>, parent: seq<Option<Proc>>, c: Proc, v: Option<Proc>)
    requires Forks(pcs, parent) && c < |pcs| && Unforked(pcs, c)
    ensures Forks(pcs, parent[c := v])
  {}

  lemma ForkBegun(pcs: seq<Pc>, parent: seq<Option<Proc>>, p: Proc, np: Proc)
    requires Forks(pcs, parent) && p < |pcs| && np < |pcs| && Unforked(pcs, np)
    requires pcs[p] == User && pcs[np] == Embryo && parent[np] == None
    ensures Forks(pcs[p := ForkSetup(np)], parent)
  {}

  lemma ForkAdopted(pcs: seq<Pc>, parent: seq<Option<Proc>>, p: Proc, np: Proc)
    requires Forks(pcs, parent) && p < |pcs| && np < |pcs| && pcs[p] == ForkParent(np)
    ensures Forks(pcs[p := ForkLock(np)], parent[np := Some(p)])
  {
    assert InFork(Base(pcs[p]));
  }

  lemma ForkOver(pcs: seq<Pc>, parent: seq<Option<Proc>>, p: Proc)
    requires Forks(pcs, parent) && p < |pcs| && InFork(pcs[p])
    ensures Unforked(pcs[p := User], pcs[p].np)
  {
    assert InFork(Base(pcs[p]));
  }

  lemma OrphansStay(pcs: seq<Pc>, parent: seq<Option<Proc>>, p: Proc, pc: Pc)
    requires Orphans(pcs, parent) && p < |pcs|
    requires forall c :: Cleared(|pcs|, pcs[p]) <= c < Cleared(|pcs|, pc) && c < |pcs| ==> parent[c] != Some(p)
    ensures Orphans(pcs[p := pc], parent)
  {}

  lemma LookedStay(pcs: seq<Pc>, parent: seq<Option<Proc>>, p: Proc, pc: Pc)
    requires Looked(pcs, parent) && p < |pcs| && (Zombie(pc) ==> Zombie(pcs[p]))
    requires forall c :: Scanned(|pcs|, pcs[p]) <= c < Scanned(|pcs|, pc) && c < |pcs| && parent[c] == Some(p) ==>
               !Zombie(pcs[p := pc][c])
    ensures Looked(pcs[p := pc], parent)
  {}

  lemma WakerStays(pcs: seq<Pc>, p: Proc, pc: Pc, q: Proc)
    requires p < |pcs| && WakerComing(pcs, q) && (Waker(pcs[p], q) ==> Waker(pc, q))
    ensures WakerComing(pcs[p := pc], q)
  {
    var r :| 0 <= r < |pcs| && Waker(pcs[r], q);
    assert Waker(pcs[p := pc][r], q);
  }

  /** Nobody but p starts to sleep. */
  ghost predicate OnlyWakes(st: seq<PState>, st': seq<PState>, p: Proc) {
    |st| == |st'| && forall q :: 0 <= q < |st| && q != p && st'[q] == SLEEPING ==> st[q] == SLEEPING
  }

  lemma NoLostStays(pcs: seq<Pc>, st: seq<PState>, parent: seq<Option<Proc>>, p: Proc, pc: Pc, st': seq<PState>)
    requires NoLostWakeup(pcs, st, parent) && p < |pcs| && OnlyWakes(st, st', p)
    requires Zombie(pc) ==> Zombie(pcs[p])
    requires Committed(pc, st'[p]) && !Committed(pcs[p], st[p]) ==>
               forall c :: 0 <= c < |pcs| && parent[c] == Some(p) ==> !Zombie(pcs[p := pc][c])
    requires forall q :: 0 <= q < |pcs| && Waker(pcs[p], q) && !Waker(pc, q) ==> !Committed(pcs[p := pc][q], st'[q])
    ensures NoLostWakeup(pcs[p := pc], st', parent)
  {
    forall c | 0 <= c < |pcs| && parent[c].Some? && parent[c].value < |pcs| && Zombie(pcs[p := pc][c])
               && Committed(pcs[p := pc][parent[c].value], st'[parent[c].value])
      ensures WakerComing(pcs[p := pc], parent[c].value)
    {
      assert Committed(pcs[parent[c].value], st[parent[c].value]);
      WakerStays(pcs, p, pc, parent[c].value);
    }
  }

  /** c's parent is being, or has been, told that c is leaving. */
  predicate Told(pcs: seq<Pc>, st: seq<PState>, parent: seq<Option<Proc>>, c: Proc)
    requires |pcs| == |parent| == |st| && c < |pcs|
  {
    && parent[c].Some? && parent[c].value < |pcs|
    && (pcs[c].Wake? || pcs[c].WakeAt? ==> pcs[c].q == parent[c].value)
    && (Waker(pcs[c], parent[c].value) || !Committed(pcs[parent[c].value], st[parent[c].value]))
  }

  lemma NotifiedStays(pcs: seq<Pc>, st: seq<PState>, parent: seq<Option<Proc>>, p: Proc, pc: Pc, st': seq<PState>)
    requires Notified(pcs, st, parent) && p < |pcs| && OnlyWakes(st, st', p)
    requires Leaving(pc) ==> Told(pcs[p := pc], st', parent, p)
    requires Committed(pc, st'[p]) && !Committed(pcs[p], st[p]) ==>
               forall c :: 0 <= c < |pcs| && Leaving(pcs[c]) ==> parent[c] != Some(p)
    ensures Notified(pcs[p := pc], st', parent)
  {
    var pcs' := pcs[p := pc];
    forall c | 0 <= c < |pcs'| && Leaving(pcs'[c]) ensures Told(pcs', st', parent, c) {
      if c != p {
        assert Told(pcs, st, parent, c);
      }
    }
  }

  /** Who is whose parent. */
  ghost predicate Tree(pcs: seq<Pc>, parent: seq<Option<Proc>>) {
    Kin(pcs, parent) && Forks(pcs, parent)
  }

  /** How far the scans of the table have got. */
  ghost predicate Scans(pcs: seq<Pc>, parent: seq<Option<Proc>>) {
    Orphans(pcs, parent) && Looked(pcs, parent)
  }

  /** Who is to wake whom. */
  ghost predicate Wakes(pcs: seq<Pc>, st: seq<PState>, parent: seq<Option<Proc>>) {
    NoLostWakeup(pcs, st, parent) && Notified(pcs, st, parent)
  }

  /** A live process goes on, its fork and its embryo with it. */
  predicate SameFork(pc: Pc, pc': Pc) {
    && Alive(pc) && Alive(pc')
    && (InFork(Base(pc')) ==>
          && InFork(Base(pc)) && Base(pc).np == Base(pc').np
          && (Base(pc).ForkLock? || Base(pc).ForkRun? <==> Base(pc').ForkLock? || Base(pc').ForkRun?))
  }

  /** No scan of the table advances. */
  predicate SameScan(n: nat, pc: Pc, pc': Pc) {
    Alive(pc') && Cleared(n, pc') <= Cleared(n, pc) && Scanned(n, pc') <= Scanned(n, pc)
  }

  /** No wakeup advances, and no process starts to leave. */
  predicate SameWake(pc: Pc, pc': Pc) {
    && Alive(pc') && Leaving(pc') == Leaving(pc)
    && (pc.Wake? || pc.WakeAt? <==> pc'.Wake? || pc'.WakeAt?)
    && (pc.Wake? || pc.WakeAt? ==> pc.q == pc'.q && pc.j == pc'.j)
  }

  lemma TreeSized(pcs: seq<Pc>, parent: seq<Option<Proc>>)
    requires Tree(pcs, parent)
    ensures |pcs| == |parent| && |pcs| > 0 && Alive(pcs[0])
  {}

  lemma QuietTree(pcs: seq<Pc>, parent: seq<Option<Proc>>, p: Proc, pc: Pc)
    requires Tree(pcs, parent) && p < |pcs| && SameFork(pcs[p], pc) && (p == 0 ==> !InExit(Base(pc)))
    ensures Tree(pcs[p := pc], parent)
  {
    KinStay(pcs, parent, p, pc);
    ForksStay(pcs, parent, p, pc);
  }

  lemma QuietScans(pcs: seq<Pc>, parent: seq<Option<Proc>>, p: Proc, pc: Pc)
    requires Scans(pcs, parent) && p < |pcs| && SameScan(|pcs|, pcs[p], pc)
    ensures Scans(pcs[p := pc], parent)
  {
    OrphansStay(pcs, parent, p, pc);
    LookedStay(pcs, parent, p, pc);
  }

  lemma QuietWakes(pcs: seq<Pc>, st: seq<PState>, parent: seq<Option<Proc>>, p: Proc, pc: Pc, st': seq<PState>)
    requires Wakes(pcs, st, parent) && p < |pcs| && OnlyWakes(st, st', p) && SameWake(pcs[p], pc)
    requires Committed(pc, st'[p]) ==> Committed(pcs[p], st[p])
    ensures Wakes(pcs[p := pc], st', parent)
  {
    NoLostStays(pcs, st, parent, p, pc, st');
    NotifiedStays(pcs, st, parent, p, pc, st');
  }

  // ---- Moves that concern parents and children ----

  lemma ForkStartsTree(pcs: seq<Pc>, parent: seq<Option<Proc>>, p: Proc, np: Proc)
    requires Tree(pcs, parent) && p < |pcs| && np < |pcs| && pcs[p] == User && pcs[np] == Unborn
    ensures Tree(pcs[np := Embryo][p := ForkSetup(np)], parent)
  {
    var a := pcs[np := Embryo];
    KinSlot(pcs, parent, np, Embryo);
    assert Unforked(pcs, np);
    ForksSlot(pcs, parent, np, Embryo);
    KinStay(a, parent, p, ForkSetup(np));
    ForkBegun(a, parent, p, np);
  }

  /** A fork ends: its embryo is freed, or becomes runnable. */
  lemma ForkEndsTree(pcs: seq<Pc>, parent: seq<Option<Proc>>, p: Proc, np: Proc, pc: Pc)
    requires Kin(pcs, parent) && Forks(pcs, parent) && p < |pcs| && np < |pcs|
    requires (pcs[p] == ForkSetup(np) && pc == Unborn) || (pcs[p] == ForkRun(np) && pc == Born)
    ensures pc == Unborn ==> parent[np] == None
    ensures Tree(pcs[np := pc][p := User], parent)
  {
    var a := pcs[p := User];
    assert InFork(Base(pcs[p]));
    KinStay(pcs, parent, p, User);
    KinSlot(a, parent, np, pc);
    ForksStay(pcs, parent, p, User);
    ForkOver(pcs, parent, p);
    ForksSlot(a, parent, np, pc);
    assert a[np := pc] == pcs[np := pc][p := User];
  }

  /** Slot np, with no scan of its own, changes while p forks it. */
  lemma ForkScans(pcs: seq<Pc>, parent: seq<Option<Proc>>, p: Proc, np: Proc, pc: Pc, pc': Pc)
    requires Scans(pcs, parent) && p < |pcs| && np < |pcs| && p != np
    requires pc' == Unborn || pc' == Embryo || pc' == Born
    requires pc == User || InFork(pc)
    ensures Scans(pcs[np := pc'][p := pc], parent)
  {
    OrphansStay(pcs, parent, np, pc');
    LookedStay(pcs, parent, np, pc');
    OrphansStay(pcs[np := pc'], parent, p, pc);
    LookedStay(pcs[np := pc'], parent, p, pc);
  }

  /** Slot np, never woken and never waking anybody, changes while p forks it. */
  lemma ForkWakes(pcs: seq<Pc>, st: seq<PState>, parent: seq<Option<Proc>>, p: Proc, np: Proc, pc: Pc, pc': Pc,
                  x: PState)
    requires Wakes(pcs, st, parent) && p < |pcs| && np < |pcs| == |st| && p != np && x != SLEEPING
    requires pcs[np] == Unborn || pcs[np] == Embryo
    requires pc' == Unborn || pc' == Embryo || pc' == Born
    requires (pcs[p] == User || InFork(pcs[p])) && (pc == User || InFork(pc))
    ensures Wakes(pcs[np := pc'][p := pc], st[np := x], parent)
  {
    var a, st' := pcs[np := pc'], st[np := x];
    NoLostStays(pcs, st, parent, np, pc', st');
    NotifiedStays(pcs, st, parent, np, pc', st');
    NoLostStays(a, st', parent, p, pc, st');
    NotifiedStays(a, st', parent, p, pc, st');
  }

  lemma ForkAdoptsTree(pcs: seq<Pc>, parent: seq<Option<Proc>>, p: Proc, np: Proc)
    requires Tree(pcs, parent) && p < |pcs| && pcs[p] == ForkParent(np) && np < |pcs|
    ensures Tree(pcs[p := ForkLock(np)], parent[np := Some(p)])
  {
    assert InFork(Base(pcs[p]));
    KinStay(pcs, parent, p, ForkLock(np));
    KinParent(pcs[p := ForkLock(np)], parent, np, p);
    ForkAdopted(pcs, parent, p, np);
  }

  lemma ForkAdoptsScans(pcs: seq<Pc>, parent: seq<Option<Proc>>, p: Proc, np: Proc)
    requires Scans(pcs, parent) && p < |pcs| && pcs[p] == ForkParent(np) && np < |pcs|
    ensures Scans(pcs[p := ForkLock(np)], parent[np := Some(p)])
  {}

  /** The parent of a process that is neither a zombie nor leaving changes. */
  lemma AdoptWakes(pcs: seq<Pc>, st: seq<PState>, parent: seq<Option<Proc>>, c: Proc, v: Option<Proc>)
    requires Wakes(pcs, st, parent) && c < |pcs| && !Zombie(pcs[c]) && !Leaving(pcs[c])
    ensures Wakes(pcs, st, parent[c := v])
  {}

  /** reparent() gives child i to initproc. */
  lemma AdoptedTree(pcs: seq<Pc>, parent: seq<Option<Proc>>, p: Proc, x: int, i: Proc)
    requires Tree(pcs, parent)
    requires 0 < p < |pcs| && i < |pcs| && pcs[p] == Reparent(x, i) && parent[i] == Some(p)
    ensures Tree(pcs[p := Wake(x, 0, 0, Some(i + 1))], parent[i := Some(0)])
  {
    var pc := Wake(x, 0, 0, Some(i + 1));
    KinStay(pcs, parent, p, pc);
    ForksStay(pcs, parent, p, pc);
    KinParent(pcs[p := pc], parent, i, 0);
    assert Unforked(pcs, i);
    ForksParent(pcs[p := pc], parent, i, Some(0));
  }

  lemma AdoptedScans(pcs: seq<Pc>, parent: seq<Option<Proc>>, p: Proc, x: int, i: Proc)
    requires Scans(pcs, parent) && Waits(pcs, Some(p))
    requires 0 < p < |pcs| && i < |pcs| && pcs[p] == Reparent(x, i) && parent[i] == Some(p)
    ensures Scans(pcs[p := Wake(x, 0, 0, Some(i + 1))], parent[i := Some(0)])
  {
    assert Cleared(|pcs|, pcs[0]) == 0 && Scanned(|pcs|, pcs[0]) == 0;
  }

  lemma AdoptedWakes(pcs: seq<Pc>, st: seq<PState>, parent: seq<Option<Proc>>, p: Proc, x: int, i: Proc)
    requires Wakes(pcs, st, parent) && Waits(pcs, Some(p))
    requires 0 < p < |pcs| && i < |pcs| && pcs[p] == Reparent(x, i) && i != p
    ensures Wakes(pcs[p := Wake(x, 0, 0, Some(i + 1))], st, parent[i := Some(0)])
  {
    var pc := Wake(x, 0, 0, Some(i + 1));
    var pcs' := pcs[p := pc];
    NoLostStays(pcs, st, parent, p, pc, st);
    NotifiedStays(pcs, st, parent, p, pc, st);
    assert Waker(pcs'[p], 0);
    assert !Leaving(pcs'[i]);
  }

  /** reparent() passes an entry that is not its child. */
  lemma ReparentScans(pcs: seq<Pc>, parent: seq<Option<Proc>>, p: Proc, x: int, i: Proc)
    requires Scans(pcs, parent) && p < |pcs| && pcs[p] == Reparent(x, i) && i < |pcs| && parent[i] != Some(p)
    ensures Scans(pcs[p := Reparent(x, i + 1)], parent)
  {
    OrphansStay(pcs, parent, p, Reparent(x, i + 1));
    LookedStay(pcs, parent, p, Reparent(x, i + 1));
  }

  /** reparent() passes an entry, or reaches the end of the table. */
  lemma ReparentWakes(pcs: seq<Pc>, st: seq<PState>, parent: seq<Option<Proc>>, p: Proc, pc: Pc)
    requires Wakes(pcs, st, parent) && p < |pcs| && pcs[p].Reparent?
    requires pc.Reparent?
             || (parent[p].Some? && parent[p].value < |pcs| && pc == Wake(pcs[p].x, parent[p].value, 0, None))
    ensures Wakes(pcs[p := pc], st, parent)
  {
    NoLostStays(pcs, st, parent, p, pc, st);
    NotifiedStays(pcs, st, parent, p, pc, st);
  }

  /** wakeup(q) leaves an entry: its own, or one it has woken if it was asleep on q. */
  lemma WakeGoesWakes(pcs: seq<Pc>, st: seq<PState>, parent: seq<Option<Proc>>, p: Proc, pc: Pc, st': seq<PState>)
    requires Wakes(pcs, st, parent) && p < |pcs| && OnlyWakes(st, st', p)
    requires (pcs[p].Wake? || pcs[p].WakeAt?) && pcs[p].j < |pcs|
    requires pc == Wake(pcs[p].x, pcs[p].q, pcs[p].j + 1, pcs[p].next)
    requires pcs[p].j == pcs[p].q ==> !Committed(pcs[p := pc][pcs[p].q], st'[pcs[p].q])
    ensures Wakes(pcs[p := pc], st', parent)
  {
    NoLostStays(pcs, st, parent, p, pc, st');
    NotifiedStays(pcs, st, parent, p, pc, st');
  }

  lemma WakeEndsWakes(pcs: seq<Pc>, st: seq<PState>, parent: seq<Option<Proc>>, p: Proc, pc: Pc)
    requires Wakes(pcs, st, parent) && p < |pcs| && pcs[p].Wake? && pcs[p].j == |pcs| && pcs[p].q < |pcs|
    requires pc == if pcs[p].next.Some? then Reparent(pcs[p].x, pcs[p].next.value) else ExitLock(pcs[p].x)
    ensures Wakes(pcs[p := pc], st, parent)
  {
    assert forall q :: 0 <= q < |pcs| ==> !Waker(pcs[p], q);
    NoLostStays(pcs, st, parent, p, pc, st);
    NotifiedStays(pcs, st, parent, p, pc, st);
  }

  lemma ZombieTree(pcs: seq<Pc>, parent: seq<Option<Proc>>, p: Proc)
    requires Tree(pcs, parent) && Orphans(pcs, parent) && 0 < p < |pcs| && pcs[p].ExitMark?
    ensures Tree(pcs[p := ExitRelease], parent)
  {
    KinZombie(pcs, parent, p);
    ForksStay(pcs, parent, p, ExitRelease);
  }

  lemma ZombieScans(pcs: seq<Pc>, parent: seq<Option<Proc>>, p: Proc)
    requires Scans(pcs, parent) && Waits(pcs, Some(p)) && p < |pcs| && pcs[p].ExitMark?
    ensures Scans(pcs[p := ExitRelease], parent)
  {
    OrphansStay(pcs, parent, p, ExitRelease);
    assert forall q :: 0 <= q < |pcs| && q != p ==> Scanned(|pcs|, pcs[q]) == 0;
  }

  lemma ZombieWakes(pcs: seq<Pc>, st: seq<PState>, parent: seq<Option<Proc>>, p: Proc)
    requires Wakes(pcs, st, parent) && p < |pcs| && pcs[p].ExitMark?
    ensures Wakes(pcs[p := ExitRelease], st[p := ZOMBIE], parent)
  {
    var pcs', st' := pcs[p := ExitRelease], st[p := ZOMBIE];
    NotifiedStays(pcs, st, parent, p, ExitRelease, st');
    assert Told(pcs, st, parent, p);
    forall c | 0 <= c < |pcs'| && parent[c].Some? && parent[c].value < |pcs| && Zombie(pcs'[c])
               && Committed(pcs'[parent[c].value], st'[parent[c].value])
      ensures WakerComing(pcs', parent[c].value)
    {
      WakerStays(pcs, p, ExitRelease, parent[c].value);
    }
  }

  lemma Dies(pcs: seq<Pc>, st: seq<PState>, parent: seq<Option<Proc>>, p: Proc)
    requires Tree(pcs, parent) && Scans(pcs, parent) && Wakes(pcs, st, parent) && p < |pcs| && pcs[p] == ExitRelease
    ensures Tree(pcs[p := Dead], parent) && Scans(pcs[p := Dead], parent) && Wakes(pcs[p := Dead], st, parent)
  {
    KinStay(pcs, parent, p, Dead);
    ForksStay(pcs, parent, p, Dead);
    OrphansStay(pcs, parent, p, Dead);
    LookedStay(pcs, parent, p, Dead);
    NoLostStays(pcs, st, parent, p, Dead, st);
    NotifiedStays(pcs, st, parent, p, Dead, st);
  }

  /** kwait() has found that entry i is not its zombie child. */
  lemma ScanGoes(pcs: seq<Pc>, parent: seq<Option<Proc>>, p: Proc, i: Proc, kids: bool)
    requires Scans(pcs, parent) && p < |pcs| && i < |pcs| && (pcs[p].WaitScan? || pcs[p].WaitAt?) && pcs[p].i == i
    requires parent[i] == Some(p) ==> !Zombie(pcs[i])
    ensures Scans(pcs[p := WaitScan(i + 1, kids)], parent)
  {
    OrphansStay(pcs, parent, p, WaitScan(i + 1, kids));
    LookedStay(pcs, parent, p, WaitScan(i + 1, kids));
  }

  /** kwait() has looked at them all and goes to sleep. */
  lemma SleepsScans(pcs: seq<Pc>, parent: seq<Option<Proc>>, p: Proc)
    requires Scans(pcs, parent) && p < |pcs| && pcs[p].WaitScan? && pcs[p].i == |pcs|
    ensures Scans(pcs[p := WaitLock], parent)
  {
    OrphansStay(pcs, parent, p, WaitLock);
    LookedStay(pcs, parent, p, WaitLock);
  }

  lemma SleepsWakes(pcs: seq<Pc>, st: seq<PState>, parent: seq<Option<Proc>>, p: Proc)
    requires Looked(pcs, parent) && Waits(pcs, Some(p)) && Wakes(pcs, st, parent)
    requires p < |pcs| && pcs[p].WaitScan? && pcs[p].i == |pcs|
    ensures Wakes(pcs[p := WaitLock], st, parent)
  {
    assert forall c :: 0 <= c < |pcs| ==> !Leaving(pcs[c]);
    assert Scanned(|pcs|, pcs[p]) == |pcs|;
    NoLostStays(pcs, st, parent, p, WaitLock, st);
    NotifiedStays(pcs, st, parent, p, WaitLock, st);
  }

  /** kwait() frees zombie child i. */
  lemma ForksFreed(pcs: seq<Pc>, parent: seq<Option<Proc>>, i: Proc)
    requires Forks(pcs, parent) && i < |pcs| && pcs[i] == Dead
    ensures Forks(pcs[i := Unborn], parent[i := None])
  {
    assert Unforked(pcs, i);
    ForksSlot(pcs, parent, i, Unborn);
    ForksParent(pcs[i := Unborn], parent, i, None);
  }

  lemma ReapedTree(pcs: seq<Pc>, parent: seq<Option<Proc>>, p: Proc, i: Proc)
    requires Tree(pcs, parent) && p < |pcs| && i < |pcs| && pcs[p] == WaitAt(i) && pcs[i] == Dead
    ensures Tree(pcs[i := Unborn][p := WaitReaped], parent[i := None])
  {
    hide Kin, Forks;
    TreeSized(pcs, parent);
    var a := pcs[p := WaitReaped];
    KinStay(pcs, parent, p, WaitReaped);
    ForksStay(pcs, parent, p, WaitReaped);
    KinFreed(a, parent, i);
    ForksFreed(a, parent, i);
    assert a[i := Unborn] == pcs[i := Unborn][p := WaitReaped];
  }

  lemma ReapedScans(pcs: seq<Pc>, parent: seq<Option<Proc>>, p: Proc, i: Proc)
    requires Scans(pcs, parent) && p < |pcs| && i < |pcs| && pcs[p] == WaitAt(i) && pcs[i] == Dead
    ensures Scans(pcs[i := Unborn][p := WaitReaped], parent[i := None])
  {}

  lemma ReapedWakes(pcs: seq<Pc>, st: seq<PState>, parent: seq<Option<Proc>>, p: Proc, i: Proc)
    requires Wakes(pcs, st, parent) && p < |pcs| == |st| && i < |pcs| && pcs[p] == WaitAt(i) && pcs[i] == Dead
    ensures Wakes(pcs[i := Unborn][p := WaitReaped], st[i := UNUSED], parent[i := None])
  {
    var a, st', parent' := pcs[p := WaitReaped], st[i := UNUSED], parent[i := None];
    QuietWakes(pcs, st, parent, p, WaitReaped, st);
    NoLostStays(a, st, parent, i, Unborn, st');
    NotifiedStays(a, st, parent, i, Unborn, st');
    AdoptWakes(a[i := Unborn], st', parent, i, None);
    assert a[i := Unborn] == pcs[i := Unborn][p := WaitReaped];
  }

  // ---- Pids and statuses ----

  lemma StatusesStay(pcs: seq<Pc>, pid: seq<nat>, xstate: seq<int>, nextpid: nat,
                     exits: map<nat, int>, reaped: seq<(nat, int)>, p: Proc, pc: Pc)
    requires Statuses(pcs, pid, xstate, nextpid, exits, reaped) && p < |pcs|
    requires Zombie(pc) == Zombie(pcs[p]) && pc != Unborn && pcs[p] != Unborn
    ensures Statuses(pcs[p := pc], pid, xstate, nextpid, exits, reaped)
  {}

  lemma StatusesBorn(pcs: seq<Pc>, pid: seq<nat>, xstate: seq<int>, nextpid: nat,
                     exits: map<nat, int>, reaped: seq<(nat, int)>, np: Proc)
    requires Statuses(pcs, pid, xstate, nextpid, exits, reaped) && np < |pcs| && pcs[np] == Unborn && 0 < nextpid
    ensures Statuses(pcs[np := Embryo], pid[np := nextpid], xstate, nextpid + 1, exits, reaped)
  {}

  lemma StatusesFreed(pcs: seq<Pc>, pid: seq<nat>, xstate: seq<int>, nextpid: nat,
                      exits: map<nat, int>, reaped: seq<(nat, int)>, q: Proc)
    requires Statuses(pcs, pid, xstate, nextpid, exits, reaped) && q < |pcs|
    ensures Statuses(pcs[q := Unborn], pid[q := 0], xstate[q := 0], nextpid, exits, reaped)
  {}

  lemma StatusesZombie(pcs: seq<Pc>, pid: seq<nat>, xstate: seq<int>, nextpid: nat,
                       exits: map<nat, int>, reaped: seq<(nat, int)>, p: Proc, x: int)
    requires Statuses(pcs, pid, xstate, nextpid, exits, reaped) && p < |pcs| && Alive(pcs[p])
    ensures Statuses(pcs[p := ExitRelease], pid, xstate[p := x], nextpid, exits[pid[p] := x], reaped)
  {}

  lemma StatusesReaped(pcs: seq<Pc>, pid: seq<nat>, xstate: seq<int>, nextpid: nat,
                       exits: map<nat, int>, reaped: seq<(nat, int)>, q: Proc)
    requires Statuses(pcs, pid, xstate, nextpid, exits, reaped) && q < |pcs| && Zombie(pcs[q])
    ensures Statuses(pcs[q := Unborn], pid[q := 0], xstate[q := 0], nextpid, exits, reaped + [(pid[q], xstate[q])])
  {}

  // ---- The table, the locks and the CPUs ----

  ghost predicate Core(pcs: seq<Pc>, st: seq<PState>, lock: seq<Holder>, w: Option<Proc>, cpus: seq<Cpu>) {
    Table(pcs, st) && Waits(pcs, w) && Locks(pcs, lock) && OnCpus(pcs, lock, cpus)
  }

  /** p moves on, keeping every lock it has. */
  lemma CoreStay(pcs: seq<Pc>, st: seq<PState>, lock: seq<Holder>, w: Option<Proc>, cpus: seq<Cpu>,
                 p: Proc, pc: Pc, x: PState)
    requires Core(pcs, st, lock, w, cpus) && p < |pcs| && OnCpu(pcs[p]) && OnCpu(pc) && StateOk(pc, x)
    requires HoldsWait(pc) == HoldsWait(pcs[p]) && LockOf(p, pc) == LockOf(p, pcs[p])
    ensures Core(pcs[p := pc], st[p := x], lock, w, cpus)
  {
    TableMove(pcs, st, p, pc, p, x);
    WaitsStay(pcs, w, p, pc);
    LocksStay(pcs, lock, p, pc);
    CpusStay(pcs, lock, cpus, pcs[p := pc], lock);
  }

  lemma CoreWaitTaken(pcs: seq<Pc>, st: seq<PState>, lock: seq<Holder>, cpus: seq<Cpu>, p: Proc, pc: Pc)
    requires Core(pcs, st, lock, None, cpus) && p < |pcs| && OnCpu(pcs[p]) && OnCpu(pc) && StateOk(pc, st[p])
    requires HoldsWait(pc) && LockOf(p, pc) == LockOf(p, pcs[p])
    ensures Core(pcs[p := pc], st, lock, Some(p), cpus)
  {
    TableMove(pcs, st, p, pc, p, st[p]);
    assert st[p := st[p]] == st;
    WaitTaken(pcs, p, pc);
    LocksStay(pcs, lock, p, pc);
    CpusStay(pcs, lock, cpus, pcs[p := pc], lock);
  }

  lemma CoreWaitDropped(pcs: seq<Pc>, st: seq<PState>, lock: seq<Holder>, w: Option<Proc>, cpus: seq<Cpu>, p: Proc,
                        pc: Pc)
    requires Core(pcs, st, lock, w, cpus) && p < |pcs| && OnCpu(pcs[p]) && OnCpu(pc) && StateOk(pc, st[p])
    requires HoldsWait(pcs[p]) && !HoldsWait(pc) && LockOf(p, pc) == LockOf(p, pcs[p])
    ensures Core(pcs[p := pc], st, lock, None, cpus)
  {
    TableMove(pcs, st, p, pc, p, st[p]);
    assert st[p := st[p]] == st;
    WaitDropped(pcs, w, p, pc);
    LocksStay(pcs, lock, p, pc);
    CpusStay(pcs, lock, cpus, pcs[p := pc], lock);
  }

  lemma CoreLockTaken(pcs: seq<Pc>, st: seq<PState>, lock: seq<Holder>, w: Option<Proc>, cpus: seq<Cpu>,
                      p: Proc, pc: Pc, q: Proc)
    requires Core(pcs, st, lock, w, cpus) && p < |pcs| && OnCpu(pcs[p]) && OnCpu(pc) && StateOk(pc, st[p])
    requires q < |pcs| && lock[q] == Free
    requires HoldsWait(pcs[p]) == HoldsWait(pc) && LockOf(p, pcs[p]) == None && LockOf(p, pc) == Some(q)
    ensures Core(pcs[p := pc], st, lock[q := By(p)], w, cpus)
  {
    TableMove(pcs, st, p, pc, p, st[p]);
    assert st[p := st[p]] == st;
    WaitsStay(pcs, w, p, pc);
    LockTaken(pcs, lock, p, pc, q);
    CpusStay(pcs, lock, cpus, pcs[p := pc], lock[q := By(p)]);
  }

  /** p releases q's lock, having changed q's state to x, or hands its own lock to the scheduler. */
  lemma CoreLockDropped(pcs: seq<Pc>, st: seq<PState>, lock: seq<Holder>, w: Option<Proc>, cpus: seq<Cpu>,
                        p: Proc, pc: Pc, q: Proc, x: PState, h: Holder)
    requires Core(pcs, st, lock, w, cpus) && p < |pcs| && OnCpu(pcs[p]) && q < |pcs|
    requires StateOk(pc, if q == p then x else st[p]) && (q != p ==> StateOk(pcs[q], x))
    requires HoldsWait(pcs[p]) == HoldsWait(pc) && LockOf(p, pcs[p]) == Some(q) && LockOf(p, pc) == None
    requires if OnCpu(pc) then h == Free else h == Scheduler && q == p
    ensures Core(pcs[p := pc], st[q := x], lock[q := h], w, cpus)
  {
    TableMove(pcs, st, p, pc, q, x);
    WaitsStay(pcs, w, p, pc);
    LockDropped(pcs, lock, p, pc, q, h);
    CpusStay(pcs, lock, cpus, pcs[p := pc], lock[q := h]);
  }

  /** p gives up wait_lock and a process's lock together. */
  lemma CoreBothDropped(pcs: seq<Pc>, st: seq<PState>, lock: seq<Holder>, w: Option<Proc>, cpus: seq<Cpu>,
                        p: Proc, pc: Pc, q: Proc, h: Holder)
    requires Core(pcs, st, lock, w, cpus) && p < |pcs| && OnCpu(pcs[p]) && q < |pcs| && StateOk(pc, st[p])
    requires HoldsWait(pcs[p]) && !HoldsWait(pc) && LockOf(p, pcs[p]) == Some(q) && LockOf(p, pc) == None
    requires if OnCpu(pc) then h == Free else h == Scheduler && q == p
    ensures Core(pcs[p := pc], st, lock[q := h], None, cpus)
  {
    TableMove(pcs, st, p, pc, p, st[p]);
    assert st[p := st[p]] == st;
    WaitDropped(pcs, w, p, pc);
    LockDropped(pcs, lock, p, pc, q, h);
    CpusStay(pcs, lock, cpus, pcs[p := pc], lock[q := h]);
  }

  /** A slot that is nobody's, whose lock a process on a CPU holds, is allocated, freed or made runnable. */
  lemma CoreSlot(pcs: seq<Pc>, st: seq<PState>, lock: seq<Holder>, w: Option<Proc>, cpus: seq<Cpu>,
                 q: Proc, pc: Pc, x: PState)
    requires Core(pcs, st, lock, w, cpus) && q < |pcs| && StateOk(pc, x)
    requires pcs[q] == Unborn || pcs[q] == Embryo || pcs[q] == Dead
    requires pc == Unborn || pc == Embryo || pc == Born
    ensures Core(pcs[q := pc], st[q := x], lock, w, cpus)
  {
    TableMove(pcs, st, q, pc, q, x);
    WaitsStay(pcs, w, q, pc);
    LocksStay(pcs, lock, q, pc);
    CpusStay(pcs, lock, cpus, pcs[q := pc], lock);
  }

  lemma CoreDispatched(pcs: seq<Pc>, st: seq<PState>, lock: seq<Holder>, w: Option<Proc>, cpus: seq<Cpu>,
                       c: nat, p: Proc, pc: Pc)
    requires Core(pcs, st, lock, w, cpus) && p < |pcs| && c < |cpus| && cpus[c] == Idle
    requires st[p] == RUNNABLE && lock[p] == Free && (pc.Back? || pc == WaitBack)
    ensures Core(pcs[p := pc], st[p := RUNNING], lock[p := By(p)], w, cpus[c := RunningOn(p)])
  {
    TableMove(pcs, st, p, pc, p, RUNNING);
    WaitsStay(pcs, w, p, pc);
    LockTaken(pcs, lock, p, pc, p);
  }

  lemma CoreSwitched(pcs: seq<Pc>, st: seq<PState>, lock: seq<Holder>, w: Option<Proc>, cpus: seq<Cpu>, c: nat)
    requires Core(pcs, st, lock, w, cpus) && c < |cpus|
    requires cpus[c].RunningOn? && lock[cpus[c].p] == Scheduler
    ensures Core(pcs, st, lock, w, cpus[c := Releasing(cpus[c].p)])
  {}

  lemma CoreReleased(pcs: seq<Pc>, st: seq<PState>, lock: seq<Holder>, w: Option<Proc>, cpus: seq<Cpu>, c: nat)
    requires Core(pcs, st, lock, w, cpus) && c < |cpus| && cpus[c].Releasing?
    ensures Core(pcs, st, lock[cpus[c].p := Free], w, cpus[c := Idle])
  {}

  // ---- Every step keeps the invariant ----

  ghost predicate CoreOf(s: State) { Core(s.pcs, s.st, s.lock, s.waitLock, s.cpus) }

  ghost predicate StatusesOf(s: State) { Statuses(s.pcs, s.pid, s.xstate, s.nextpid, s.exits, s.reaped) }

  ghost predicate FamilyOf(s: State) {
    Tree(s.pcs, s.parent) && Scans(s.pcs, s.parent) && Wakes(s.pcs, s.st, s.parent)
  }

  ghost predicate Inv(n: nat, s: State) {
    Sized(n, s) && CoreOf(s) && FamilyOf(s) && Channels(s.st, s.chan) && StatusesOf(s)
  }

  lemma Sizes(n: nat, s: State, p: Proc)
    requires Sized(n, s) && p < n
    ensures |s.pcs| == |s.st| == |s.chan| == |s.killed| == |s.pid| == |s.xstate| == |s.parent| == |s.lock| == n > 0
    ensures PcSized(n, s.pcs[p]) && (s.parent[p].Some? ==> s.parent[p].value < n)
  {}

  lemma SizedFork(n: nat, s: State, p: Proc, ok: bool)
    requires Sized(n, s) && p < n && CanGo(n, s, p) && InFork(s.pcs[p])
    ensures Sized(n, GoFork(n, s, p, ok))
  {}

  lemma SizedExit(n: nat, s: State, p: Proc)
    requires Sized(n, s) && p < n && CanGo(n, s, p) && InExit(s.pcs[p])
    ensures Sized(n, GoExit(n, s, p))
  {}

  lemma SizedWait(n: nat, s: State, p: Proc, ok: bool)
    requires Sized(n, s) && p < n && CanGo(n, s, p) && InWait(s.pcs[p])
    ensures Sized(n, GoWait(n, s, p, ok))
  {
    hide CanGo;
  }

  lemma CallSized(n: nat, s: State, a: Step)
    requires Sized(n, s) && Can(n, s, a) && !a.Go?
    ensures Sized(n, Do(n, s, a))
  {}

  lemma SizedKept(n: nat, s: State, a: Step)
    requires Sized(n, s) && Can(n, s, a)
    ensures Sized(n, Do(n, s, a))
  {
    if !a.Go? {
      CallSized(n, s, a);
    } else if InFork(s.pcs[a.p]) {
      SizedFork(n, s, a.p, a.ok);
    } else if InExit(s.pcs[a.p]) {
      SizedExit(n, s, a.p);
    } else if InWait(s.pcs[a.p]) {
      SizedWait(n, s, a.p, a.ok);
    }
  }

  lemma QuietFamily(s: State, p: Proc, pc: Pc, st: seq<PState>)
    requires FamilyOf(s) && p < |s.pcs| && OnlyWakes(s.st, st, p)
    requires SameFork(s.pcs[p], pc) && SameScan(|s.pcs|, s.pcs[p], pc) && SameWake(s.pcs[p], pc)
    requires (Committed(pc, st[p]) ==> Committed(s.pcs[p], s.st[p])) && (p == 0 ==> !InExit(Base(pc)))
    ensures FamilyOf(s.(pcs := s.pcs[p := pc], st := st))
  {
    QuietTree(s.pcs, s.parent, p, pc);
    QuietScans(s.pcs, s.parent, p, pc);
    QuietWakes(s.pcs, s.st, s.parent, p, pc, st);
  }

  /** What a process knows of the table from where it is. */
  lemma Position(s: State, p: Proc)
    requires CoreOf(s) && FamilyOf(s) && p < |s.pcs|
    ensures StateOk(s.pcs[p], s.st[p]) && (InExit(Base(s.pcs[p])) ==> p > 0)
    ensures HoldsWait(s.pcs[p]) ==> Waits(s.pcs, Some(p)) && s.waitLock == Some(p)
    ensures forall c :: 0 <= c < |s.pcs| && s.parent[c] == Some(p) ==> c != p
  {}

  /** wakeup() of q at q's entry, whose lock it holds: q is not on its way to sleep any more. */
  lemma Woken(s: State, p: Proc)
    requires CoreOf(s) && Channels(s.st, s.chan) && p < |s.pcs|
    requires s.pcs[p].WakeAt? && s.pcs[p].j == s.pcs[p].q < |s.pcs|
    ensures var q := s.pcs[p].q;
            Committed(s.pcs[q], s.st[q]) ==> s.pcs[q] == WaitOff && s.st[q] == SLEEPING && s.chan[q] == Some(q)
  {}

  lemma EmbryoAt(s: State, p: Proc)
    requires FamilyOf(s) && p < |s.pcs| && InFork(s.pcs[p])
    ensures s.pcs[p].np < |s.pcs| && s.pcs[s.pcs[p].np] == Embryo
  {
    hide Kin, Scans, Wakes;
    assert InFork(Base(s.pcs[p]));
  }

  lemma InitNeverExits(s: State)
    requires FamilyOf(s)
    ensures |s.pcs| > 0 && !InExit(Base(s.pcs[0]))
  {
    hide Forks, Scans, Wakes;
  }

  lemma FamilyFork(n: nat, s: State, p: Proc, ok: bool)
    requires Sized(n, s) && p < n && CanGo(n, s, p) && InFork(s.pcs[p]) && FamilyOf(s)
    ensures FamilyOf(GoFork(n, s, p, ok))
  {
    hide Sized, Kin, Forks, Orphans, Looked, NoLostWakeup, Notified;
    Sizes(n, s, p);
    var np := s.pcs[p].np;
    EmbryoAt(s, p);
    match s.pcs[p] {
      case ForkSetup(_) =>
        if ok {
          QuietFamily(s, p, ForkWait(np), s.st);
        } else {
          ForkEndsTree(s.pcs, s.parent, p, np, Unborn);
          assert s.parent[np := None] == s.parent;
          ForkScans(s.pcs, s.parent, p, np, User, Unborn);
          ForkWakes(s.pcs, s.st, s.parent, p, np, User, Unborn, UNUSED);
        }
      case ForkWait(_) => QuietFamily(s, p, ForkParent(np), s.st);
      case ForkParent(_) =>
        ForkAdoptsTree(s.pcs, s.parent, p, np);
        ForkAdoptsScans(s.pcs, s.parent, p, np);
        QuietWakes(s.pcs, s.st, s.parent, p, ForkLock(np), s.st);
        AdoptWakes(s.pcs[p := ForkLock(np)], s.st, s.parent, np, Some(p));
      case ForkLock(_) => QuietFamily(s, p, ForkRun(np), s.st);
      case ForkRun(_) =>
        ForkEndsTree(s.pcs, s.parent, p, np, Born);
        ForkScans(s.pcs, s.parent, p, np, User, Born);
        ForkWakes(s.pcs, s.st, s.parent, p, np, User, Born, RUNNABLE);
    }
  }

  lemma FamilyAdopts(n: nat, s: State, p: Proc)
    requires Sized(n, s) && p < n && CanGo(n, s, p) && s.pcs[p].Reparent? && CoreOf(s) && FamilyOf(s)
    requires s.pcs[p].i < n && s.parent[s.pcs[p].i] == Some(p)
    ensures FamilyOf(GoExit(n, s, p))
  {
    hide Sized, Tree, Scans, Wakes, CoreOf, Waits, CanGo, PcSized;
    Sizes(n, s, p);
    Position(s, p);
    var x, i := s.pcs[p].x, s.pcs[p].i;
    AdoptedTree(s.pcs, s.parent, p, x, i);
    AdoptedScans(s.pcs, s.parent, p, x, i);
    AdoptedWakes(s.pcs, s.st, s.parent, p, x, i);
  }

  lemma FamilyReparent(n: nat, s: State, p: Proc)
    requires Sized(n, s) && p < n && CanGo(n, s, p) && s.pcs[p].Reparent? && CoreOf(s) && FamilyOf(s)
    ensures FamilyOf(GoExit(n, s, p))
  {
    hide Sized, Tree, Scans, Wakes, CoreOf, Waits;
    Sizes(n, s, p);
    Position(s, p);
    var x, i, t := s.pcs[p].x, s.pcs[p].i, GoExit(n, s, p);
    if i < n && s.parent[i] == Some(p) {
      FamilyAdopts(n, s, p);
    } else {
      QuietTree(s.pcs, s.parent, p, t.pcs[p]);
      if i < n {
        ReparentScans(s.pcs, s.parent, p, x, i);
      } else {
        QuietScans(s.pcs, s.parent, p, t.pcs[p]);
      }
      ReparentWakes(s.pcs, s.st, s.parent, p, t.pcs[p]);
    }
  }

  lemma FamilyWakeAt(n: nat, s: State, p: Proc)
    requires Sized(n, s) && p < n && CanGo(n, s, p) && s.pcs[p].WakeAt?
    requires CoreOf(s) && FamilyOf(s) && Channels(s.st, s.chan)
    ensures FamilyOf(GoExit(n, s, p))
  {
    hide Sized, Tree, Scans, Wakes, CoreOf, Waits, Channels;
    Sizes(n, s, p);
    Position(s, p);
    var t := GoExit(n, s, p);
    QuietTree(s.pcs, s.parent, p, t.pcs[p]);
    QuietScans(s.pcs, s.parent, p, t.pcs[p]);
    if s.pcs[p].j == s.pcs[p].q {
      Woken(s, p);
    }
    WakeGoesWakes(s.pcs, s.st, s.parent, p, t.pcs[p], t.st);
  }

  lemma FamilyWakeup(n: nat, s: State, p: Proc)
    requires Sized(n, s) && p < n && CanGo(n, s, p) && s.pcs[p].Wake? && CoreOf(s) && FamilyOf(s)
    ensures FamilyOf(GoExit(n, s, p))
  {
    hide Sized, Tree, Scans, Wakes, CoreOf, Waits;
    Sizes(n, s, p);
    Position(s, p);
    var j, t := s.pcs[p].j, GoExit(n, s, p);
    QuietTree(s.pcs, s.parent, p, t.pcs[p]);
    QuietScans(s.pcs, s.parent, p, t.pcs[p]);
    if j == n {
      WakeEndsWakes(s.pcs, s.st, s.parent, p, t.pcs[p]);
    } else if j == p {
      WakeGoesWakes(s.pcs, s.st, s.parent, p, t.pcs[p], s.st);
    } else {
      QuietWakes(s.pcs, s.st, s.parent, p, t.pcs[p], s.st);
    }
  }

  lemma FamilyExit(n: nat, s: State, p: Proc)
    requires Sized(n, s) && p < n && CanGo(n, s, p) && InExit(s.pcs[p])
    requires CoreOf(s) && FamilyOf(s) && Channels(s.st, s.chan)
    ensures FamilyOf(GoExit(n, s, p))
  {
    hide Sized, Kin, Forks, Orphans, Looked, NoLostWakeup, Notified, CoreOf, Channels, Waits;
    Sizes(n, s, p);
    Position(s, p);
    if s.pcs[p].Reparent? {
      FamilyReparent(n, s, p);
    } else if s.pcs[p].Wake? {
      FamilyWakeup(n, s, p);
    } else if s.pcs[p].WakeAt? {
      FamilyWakeAt(n, s, p);
    } else if s.pcs[p].ExitMark? {
      ZombieTree(s.pcs, s.parent, p);
      ZombieScans(s.pcs, s.parent, p);
      ZombieWakes(s.pcs, s.st, s.parent, p);
    } else if s.pcs[p] == ExitRelease {
      Dies(s.pcs, s.st, s.parent, p);
    } else {
      QuietFamily(s, p, GoExit(n, s, p).pcs[p], s.st);
    }
  }

  /** A zombie child whose lock its parent holds has left its CPU. */
  lemma ZombieIsDead(s: State, p: Proc)
    requires CoreOf(s) && p < |s.pcs| && s.pcs[p].WaitAt? && s.pcs[p].i < |s.pcs| && s.st[s.pcs[p].i] == ZOMBIE
    ensures s.pcs[s.pcs[p].i] == Dead && forall c :: 0 <= c < |s.cpus| ==> s.cpus[c] != RunningOn(s.pcs[p].i)
  {
    var i := s.pcs[p].i;
    assert StateOk(s.pcs[i], s.st[i]);
    assert s.lock[i] == By(p);
  }

  lemma ScanMoves(n: nat, s: State, p: Proc, ok: bool)
    requires Sized(n, s) && p < n && CanGo(n, s, p) && s.pcs[p].WaitScan?
    ensures var t, i := GoWait(n, s, p, ok), s.pcs[p].i;
            && |s.pcs| == |s.st| == |s.parent| == |t.pcs| == n && t.pcs == s.pcs[p := t.pcs[p]]
            && t.st == s.st && t.parent == s.parent && i <= n
            && if i == n then t.pcs[p] == User || t.pcs[p] == WaitLock
               else if s.parent[i] == Some(p) then t.pcs[p] == WaitAt(i)
               else t.pcs[p] == WaitScan(i + 1, s.pcs[p].kids)
  {
    hide CanGo;
  }

  lemma ScanQuiet(n: nat, pc: Pc, pc': Pc)
    requires pc.WaitScan?
             && (pc' == User || pc' == WaitLock || pc' == WaitAt(pc.i) || pc' == WaitScan(pc.i + 1, pc.kids))
    ensures SameFork(pc, pc') && !InExit(Base(pc')) && SameWake(pc, pc')
    ensures pc' == User || pc'.WaitAt? ==> SameScan(n, pc, pc')
    ensures pc' != WaitLock ==> forall st :: !Committed(pc', st)
  {}

  lemma AllAwake(st: seq<PState>, p: Proc)
    ensures OnlyWakes(st, st, p)
  {}

  lemma FamilyScan(n: nat, s: State, p: Proc, ok: bool)
    requires Sized(n, s) && p < n && CanGo(n, s, p) && s.pcs[p].WaitScan? && CoreOf(s) && FamilyOf(s)
    ensures FamilyOf(GoWait(n, s, p, ok))
  {
    hide Sized, Tree, Orphans, Looked, Wakes, CoreOf, Waits, GoWait, CanGo;
    hide SameFork, SameScan, SameWake, InExit, Committed, OnlyWakes;
    ScanMoves(n, s, p, ok);
    Position(s, p);
    var i, t := s.pcs[p].i, GoWait(n, s, p, ok);
    ScanQuiet(n, s.pcs[p], t.pcs[p]);
    AllAwake(s.st, p);
    QuietTree(s.pcs, s.parent, p, t.pcs[p]);
    if t.pcs[p] == WaitLock {
      SleepsScans(s.pcs, s.parent, p);
      SleepsWakes(s.pcs, s.st, s.parent, p);
    } else {
      if t.pcs[p].WaitScan? {
        ScanGoes(s.pcs, s.parent, p, i, s.pcs[p].kids);
      } else {
        QuietScans(s.pcs, s.parent, p, t.pcs[p]);
      }
      QuietWakes(s.pcs, s.st, s.parent, p, t.pcs[p], s.st);
    }
  }

  lemma FamilyChild(n: nat, s: State, p: Proc, ok: bool)
    requires Sized(n, s) && p < n && CanGo(n, s, p) && s.pcs[p].WaitAt? && CoreOf(s) && FamilyOf(s)
    ensures FamilyOf(GoWait(n, s, p, ok))
  {
    hide Sized, Kin, Forks, Orphans, Looked, NoLostWakeup, Notified, CoreOf, Waits;
    Sizes(n, s, p);
    Position(s, p);
    var i, t := s.pcs[p].i, GoWait(n, s, p, ok);
    if s.st[i] == ZOMBIE && ok {
      ZombieIsDead(s, p);
      ReapedTree(s.pcs, s.parent, p, i);
      ReapedScans(s.pcs, s.parent, p, i);
      ReapedWakes(s.pcs, s.st, s.parent, p, i);
    } else {
      QuietTree(s.pcs, s.parent, p, t.pcs[p]);
      if s.st[i] == ZOMBIE {
        QuietScans(s.pcs, s.parent, p, t.pcs[p]);
      } else {
        Position(s, i);
        ScanGoes(s.pcs, s.parent, p, i, true);
      }
      QuietWakes(s.pcs, s.st, s.parent, p, t.pcs[p], s.st);
    }
  }

  lemma FamilyWait(n: nat, s: State, p: Proc, ok: bool)
    requires Sized(n, s) && p < n && CanGo(n, s, p) && InWait(s.pcs[p]) && CoreOf(s) && FamilyOf(s)
    ensures FamilyOf(GoWait(n, s, p, ok))
  {
    hide Sized, FamilyOf, CoreOf, CanGo, GoWait;
    Sizes(n, s, p);
    if s.pcs[p].WaitScan? {
      FamilyScan(n, s, p, ok);
    } else if s.pcs[p].WaitAt? {
      FamilyChild(n, s, p, ok);
    } else {
      FamilySleeps(n, s, p, ok);
    }
  }

  /** The steps of kwait() outside its scan of the children. */
  predicate WaitEdge(pc: Pc, pc': Pc) {
    match pc
    case WaitWait => pc' == WaitScan(0, false)
    case WaitReaped => pc' == User
    case WaitLock => pc' == WaitUnlock
    case WaitUnlock => pc' == WaitMark
    case WaitMark => pc' == WaitOff
    case WaitBack => pc' == WaitWait
    case _ => false
  }

  lemma WaitMoves(n: nat, s: State, p: Proc, ok: bool)
    requires Sized(n, s) && p < n && CanGo(n, s, p) && InWait(s.pcs[p]) && !s.pcs[p].WaitScan? && !s.pcs[p].WaitAt?
    ensures var t := GoWait(n, s, p, ok);
            && p < |s.pcs| == |t.pcs| && WaitEdge(s.pcs[p], t.pcs[p]) && t.pcs == s.pcs[p := t.pcs[p]]
            && |s.st| == |s.pcs| && t.parent == s.parent
            && t.st == if s.pcs[p] == WaitMark then s.st[p := SLEEPING] else s.st
  {
    hide PcSized, CanGo;
  }

  lemma WaitQuiet(n: nat, pc: Pc, pc': Pc)
    requires WaitEdge(pc, pc')
    ensures SameFork(pc, pc') && SameScan(n, pc, pc') && SameWake(pc, pc') && !InExit(Base(pc'))
    ensures forall st, st' :: Committed(pc', st') ==> Committed(pc, st)
  {}

  lemma FamilySleeps(n: nat, s: State, p: Proc, ok: bool)
    requires Sized(n, s) && p < n && CanGo(n, s, p) && InWait(s.pcs[p]) && FamilyOf(s)
    requires !s.pcs[p].WaitScan? && !s.pcs[p].WaitAt?
    ensures FamilyOf(GoWait(n, s, p, ok))
  {
    hide Sized, CanGo, GoWait, FamilyOf, WaitEdge, SameFork, SameScan, SameWake, InExit, Committed;
    var t := GoWait(n, s, p, ok);
    WaitMoves(n, s, p, ok);
    WaitQuiet(|s.pcs|, s.pcs[p], t.pcs[p]);
    QuietFamily(s, p, t.pcs[p], t.st);
    FamilyFrame(s.(pcs := t.pcs, st := t.st), t);
  }

  predicate OtherEdge(pc: Pc, pc': Pc) {
    match pc
    case Back(k) => Preemptible(k) && pc' == k
    case YieldMark(k) => Preemptible(k) && pc' == Yielded(k)
    case KillLock(v) => pc' == KillAt(v)
    case KillAt(v) => pc' == User
    case _ => false
  }

  lemma OtherMoves(n: nat, s: State, p: Proc)
    requires Sized(n, s) && p < n && CanGo(n, s, p)
    requires s.pcs[p].Back? || s.pcs[p].YieldMark? || s.pcs[p].KillLock? || s.pcs[p].KillAt?
    ensures var t := GoOther(n, s, p);
            && p < |s.pcs| == |t.pcs| && OtherEdge(s.pcs[p], t.pcs[p]) && t.pcs == s.pcs[p := t.pcs[p]]
            && |s.st| == |s.pcs| && t.parent == s.parent && OnlyWakes(s.st, t.st, p)
  {
    hide PcSized, CanGo;
    Sizes(n, s, p);
  }

  lemma OtherQuiet(n: nat, pc: Pc, pc': Pc)
    requires OtherEdge(pc, pc')
    ensures SameFork(pc, pc') && SameScan(n, pc, pc') && SameWake(pc, pc')
    ensures InExit(Base(pc')) ==> InExit(Base(pc))
    ensures forall st' :: !Committed(pc', st')
  {}

  lemma FamilyOther(n: nat, s: State, p: Proc)
    requires Sized(n, s) && p < n && CanGo(n, s, p) && FamilyOf(s)
    requires s.pcs[p].Back? || s.pcs[p].YieldMark? || s.pcs[p].KillLock? || s.pcs[p].KillAt?
    ensures FamilyOf(GoOther(n, s, p))
  {
    hide Sized, CanGo, GoOther, FamilyOf, OtherEdge, SameFork, SameScan, SameWake, InExit, Committed;
    var t := GoOther(n, s, p);
    OtherMoves(n, s, p);
    InitNeverExits(s);
    OtherQuiet(|s.pcs|, s.pcs[p], t.pcs[p]);
    QuietFamily(s, p, t.pcs[p], t.st);
    FamilyFrame(s.(pcs := t.pcs, st := t.st), t);
  }

  // ---- The same, for the table, the locks and the CPUs ----

  lemma CoreForkSetup(n: nat, s: State, p: Proc, ok: bool)
    requires Sized(n, s) && p < n && CanGo(n, s, p) && s.pcs[p].ForkSetup? && CoreOf(s) && FamilyOf(s)
    ensures CoreOf(GoFork(n, s, p, ok))
  {
    hide Sized, Core, FamilyOf, Waits;
    Sizes(n, s, p);
    Position(s, p);
    var np := s.pcs[p].np;
    EmbryoAt(s, p);
    Position(s, np);
    if ok {
      assert s.st[np := s.st[np]] == s.st;
      CoreLockDropped(s.pcs, s.st, s.lock, s.waitLock, s.cpus, p, ForkWait(np), np, s.st[np], Free);
    } else {
      CoreSlot(s.pcs, s.st, s.lock, s.waitLock, s.cpus, np, Unborn, UNUSED);
      CoreLockDropped(s.pcs[np := Unborn], s.st[np := UNUSED], s.lock, s.waitLock, s.cpus, p, User, np, UNUSED, Free);
      assert s.st[np := UNUSED][np := UNUSED] == s.st[np := UNUSED];
    }
  }

  lemma CoreFork(n: nat, s: State, p: Proc, ok: bool)
    requires Sized(n, s) && p < n && CanGo(n, s, p) && InFork(s.pcs[p]) && CoreOf(s) && FamilyOf(s)
    ensures CoreOf(GoFork(n, s, p, ok))
  {
    hide Sized, Core, FamilyOf, Waits;
    Sizes(n, s, p);
    Position(s, p);
    var np := s.pcs[p].np;
    match s.pcs[p] {
      case ForkSetup(_) => CoreForkSetup(n, s, p, ok);
      case ForkWait(_) => CoreWaitTaken(s.pcs, s.st, s.lock, s.cpus, p, ForkParent(np));
      case ForkParent(_) => CoreWaitDropped(s.pcs, s.st, s.lock, s.waitLock, s.cpus, p, ForkLock(np));
      case ForkLock(_) => CoreLockTaken(s.pcs, s.st, s.lock, s.waitLock, s.cpus, p, ForkRun(np), np);
      case ForkRun(_) =>
        EmbryoAt(s, p);
        CoreSlot(s.pcs, s.st, s.lock, s.waitLock, s.cpus, np, Born, RUNNABLE);
        CoreLockDropped(s.pcs[np := Born], s.st[np := RUNNABLE], s.lock, s.waitLock, s.cpus, p, User, np, RUNNABLE,
                        Free);
        assert s.st[np := RUNNABLE][np := RUNNABLE] == s.st[np := RUNNABLE];
    }
  }

  lemma CoreWakeup(n: nat, s: State, p: Proc)
    requires Sized(n, s) && p < n && CanGo(n, s, p) && (s.pcs[p].Wake? || s.pcs[p].WakeAt?) && CoreOf(s) && FamilyOf(s)
    ensures CoreOf(GoExit(n, s, p))
  {
    hide Sized, Core, FamilyOf, Waits;
    Sizes(n, s, p);
    Position(s, p);
    var j, t := s.pcs[p].j, GoExit(n, s, p);
    if s.pcs[p].WakeAt? {
      Position(s, j);
      CoreLockDropped(s.pcs, s.st, s.lock, s.waitLock, s.cpus, p, t.pcs[p], j, t.st[j], Free);
    } else if j == n || j == p {
      assert s.st[p := s.st[p]] == s.st;
      CoreStay(s.pcs, s.st, s.lock, s.waitLock, s.cpus, p, t.pcs[p], s.st[p]);
    } else {
      CoreLockTaken(s.pcs, s.st, s.lock, s.waitLock, s.cpus, p, t.pcs[p], j);
    }
  }

  lemma CoreExit(n: nat, s: State, p: Proc)
    requires Sized(n, s) && p < n && CanGo(n, s, p) && InExit(s.pcs[p]) && CoreOf(s) && FamilyOf(s)
    ensures CoreOf(GoExit(n, s, p))
  {
    hide Sized, Core, FamilyOf, Waits;
    Sizes(n, s, p);
    Position(s, p);
    var t := GoExit(n, s, p);
    assert s.st[p := s.st[p]] == s.st;
    match s.pcs[p] {
      case ExitWait(x) => CoreWaitTaken(s.pcs, s.st, s.lock, s.cpus, p, t.pcs[p]);
      case Reparent(x, i) => CoreStay(s.pcs, s.st, s.lock, s.waitLock, s.cpus, p, t.pcs[p], s.st[p]);
      case Wake(_, _, _, _) => CoreWakeup(n, s, p);
      case WakeAt(_, _, _, _) => CoreWakeup(n, s, p);
      case ExitLock(x) => CoreLockTaken(s.pcs, s.st, s.lock, s.waitLock, s.cpus, p, t.pcs[p], p);
      case ExitMark(x) => CoreStay(s.pcs, s.st, s.lock, s.waitLock, s.cpus, p, t.pcs[p], ZOMBIE);
      case ExitRelease => CoreBothDropped(s.pcs, s.st, s.lock, s.waitLock, s.cpus, p, Dead, p, Scheduler);
    }
  }

  lemma CoreReap(s: State, p: Proc, i: Proc)
    requires CoreOf(s) && p < |s.pcs| && i < |s.pcs| && s.pcs[p] == WaitAt(i) && s.pcs[i] == Dead && s.st[p] == RUNNING
    requires |s.lock| == |s.st| == |s.pcs|
    ensures Core(s.pcs[i := Unborn][p := WaitReaped], s.st[i := UNUSED], s.lock[i := Free], s.waitLock, s.cpus)
  {
    hide Core;
    CoreSlot(s.pcs, s.st, s.lock, s.waitLock, s.cpus, i, Unborn, UNUSED);
    CoreLockDropped(s.pcs[i := Unborn], s.st[i := UNUSED], s.lock, s.waitLock, s.cpus, p, WaitReaped, i, UNUSED, Free);
    assert s.st[i := UNUSED][i := UNUSED] == s.st[i := UNUSED];
  }

  lemma CoreChild(n: nat, s: State, p: Proc, ok: bool)
    requires Sized(n, s) && p < n && CanGo(n, s, p) && s.pcs[p].WaitAt? && CoreOf(s) && FamilyOf(s)
    ensures CoreOf(GoWait(n, s, p, ok))
  {
    hide Sized, Core, FamilyOf, Waits, CanGo;
    Sizes(n, s, p);
    Position(s, p);
    var i := s.pcs[p].i;
    if s.st[i] != ZOMBIE {
      Position(s, i);
      assert s.st[i := s.st[i]] == s.st;
      CoreLockDropped(s.pcs, s.st, s.lock, s.waitLock, s.cpus, p, WaitScan(i + 1, true), i, s.st[i], Free);
    } else if !ok {
      CoreBothDropped(s.pcs, s.st, s.lock, s.waitLock, s.cpus, p, User, i, Free);
    } else {
      ZombieIsDead(s, p);
      CoreReap(s, p, i);
    }
  }

  lemma CoreScan(n: nat, s: State, p: Proc, ok: bool)
    requires Sized(n, s) && p < n && CanGo(n, s, p) && s.pcs[p].WaitScan? && CoreOf(s) && FamilyOf(s)
    ensures CoreOf(GoWait(n, s, p, ok))
  {
    hide Sized, Core, FamilyOf, Waits;
    Sizes(n, s, p);
    Position(s, p);
    var i, t := s.pcs[p].i, GoWait(n, s, p, ok);
    if t.pcs[p].WaitAt? {
      CoreLockTaken(s.pcs, s.st, s.lock, s.waitLock, s.cpus, p, t.pcs[p], i);
    } else if t.pcs[p] == User {
      CoreWaitDropped(s.pcs, s.st, s.lock, s.waitLock, s.cpus, p, User);
    } else {
      assert s.st[p := s.st[p]] == s.st;
      CoreStay(s.pcs, s.st, s.lock, s.waitLock, s.cpus, p, t.pcs[p], s.st[p]);
    }
  }

  /** sleep() in kwait(), and the return from it. */
  lemma CoreSleep(n: nat, s: State, p: Proc, ok: bool)
    requires Sized(n, s) && p < n && CanGo(n, s, p) && InWait(s.pcs[p]) && CoreOf(s) && FamilyOf(s)
    requires s.pcs[p] == WaitLock || s.pcs[p] == WaitUnlock || s.pcs[p] == WaitMark || s.pcs[p] == WaitBack
    ensures CoreOf(GoWait(n, s, p, ok))
  {
    hide Sized, Core, FamilyOf, Waits;
    Sizes(n, s, p);
    Position(s, p);
    assert s.st[p := s.st[p]] == s.st;
    if s.pcs[p] == WaitLock {
      CoreLockTaken(s.pcs, s.st, s.lock, s.waitLock, s.cpus, p, WaitUnlock, p);
    } else if s.pcs[p] == WaitUnlock {
      CoreWaitDropped(s.pcs, s.st, s.lock, s.waitLock, s.cpus, p, WaitMark);
    } else if s.pcs[p] == WaitMark {
      CoreLockDropped(s.pcs, s.st, s.lock, s.waitLock, s.cpus, p, WaitOff, p, SLEEPING, Scheduler);
    } else {
      CoreLockDropped(s.pcs, s.st, s.lock, s.waitLock, s.cpus, p, WaitWait, p, s.st[p], Free);
    }
  }

  lemma CoreWait(n: nat, s: State, p: Proc, ok: bool)
    requires Sized(n, s) && p < n && CanGo(n, s, p) && InWait(s.pcs[p]) && CoreOf(s) && FamilyOf(s)
    ensures CoreOf(GoWait(n, s, p, ok))
  {
    hide Sized, Core, FamilyOf, Waits;
    Sizes(n, s, p);
    Position(s, p);
    if s.pcs[p] == WaitWait {
      CoreWaitTaken(s.pcs, s.st, s.lock, s.cpus, p, WaitScan(0, false));
    } else if s.pcs[p].WaitScan? {
      CoreScan(n, s, p, ok);
    } else if s.pcs[p].WaitAt? {
      CoreChild(n, s, p, ok);
    } else if s.pcs[p] == WaitReaped {
      CoreWaitDropped(s.pcs, s.st, s.lock, s.waitLock, s.cpus, p, User);
    } else {
      CoreSleep(n, s, p, ok);
    }
  }

  lemma CoreKill(n: nat, s: State, p: Proc)
    requires Sized(n, s) && p < n && CanGo(n, s, p) && CoreOf(s) && FamilyOf(s)
    requires s.pcs[p].KillLock? || s.pcs[p].KillAt?
    ensures CoreOf(GoOther(n, s, p))
  {
    hide Sized, Core, FamilyOf, Waits, PcSized;
    Sizes(n, s, p);
    Position(s, p);
    var v, t := s.pcs[p].v, GoOther(n, s, p);
    if s.pcs[p].KillLock? {
      CoreLockTaken(s.pcs, s.st, s.lock, s.waitLock, s.cpus, p, t.pcs[p], v);
    } else {
      Position(s, v);
      CoreLockDropped(s.pcs, s.st, s.lock, s.waitLock, s.cpus, p, t.pcs[p], v, t.st[v], Free);
    }
  }

  lemma CoreOther(n: nat, s: State, p: Proc)
    requires Sized(n, s) && p < n && CanGo(n, s, p) && CoreOf(s) && FamilyOf(s)
    requires s.pcs[p].Back? || s.pcs[p].YieldMark? || s.pcs[p].KillLock? || s.pcs[p].KillAt?
    ensures CoreOf(GoOther(n, s, p))
  {
    hide Sized, Core, FamilyOf, Waits, CanGo;
    Sizes(n, s, p);
    Position(s, p);
    if s.pcs[p].Back? {
      assert s.st[p := s.st[p]] == s.st;
      CoreLockDropped(s.pcs, s.st, s.lock, s.waitLock, s.cpus, p, s.pcs[p].k, p, s.st[p], Free);
    } else if s.pcs[p].YieldMark? {
      CoreLockDropped(s.pcs, s.st, s.lock, s.waitLock, s.cpus, p, Yielded(s.pcs[p].k), p, RUNNABLE, Scheduler);
    } else {
      CoreKill(n, s, p);
    }
  }

  // ---- And for pids, statuses and sleep channels ----

  lemma StatusesFork(n: nat, s: State, p: Proc, ok: bool)
    requires Sized(n, s) && p < n && CanGo(n, s, p) && InFork(s.pcs[p]) && FamilyOf(s) && StatusesOf(s)
    ensures StatusesOf(GoFork(n, s, p, ok))
  {
    hide Sized, FamilyOf, Statuses;
    Sizes(n, s, p);
    EmbryoAt(s, p);
    var np, t := s.pcs[p].np, GoFork(n, s, p, ok);
    if s.pcs[p].ForkSetup? && !ok {
      StatusesFreed(s.pcs, s.pid, s.xstate, s.nextpid, s.exits, s.reaped, np);
      StatusesStay(s.pcs[np := Unborn], t.pid, t.xstate, s.nextpid, s.exits, s.reaped, p, User);
    } else if s.pcs[p].ForkRun? {
      StatusesStay(s.pcs, s.pid, s.xstate, s.nextpid, s.exits, s.reaped, np, Born);
      StatusesStay(s.pcs[np := Born], s.pid, s.xstate, s.nextpid, s.exits, s.reaped, p, User);
    } else {
      StatusesStay(s.pcs, s.pid, s.xstate, s.nextpid, s.exits, s.reaped, p, t.pcs[p]);
    }
  }

  lemma StatusesExit(n: nat, s: State, p: Proc)
    requires Sized(n, s) && p < n && CanGo(n, s, p) && InExit(s.pcs[p]) && StatusesOf(s)
    ensures StatusesOf(GoExit(n, s, p))
  {
    hide Sized, Statuses;
    Sizes(n, s, p);
    if s.pcs[p].ExitMark? {
      StatusesZombie(s.pcs, s.pid, s.xstate, s.nextpid, s.exits, s.reaped, p, s.pcs[p].x);
    } else {
      StatusesStay(s.pcs, s.pid, s.xstate, s.nextpid, s.exits, s.reaped, p, GoExit(n, s, p).pcs[p]);
    }
  }

  lemma StatusesWait(n: nat, s: State, p: Proc, ok: bool)
    requires Sized(n, s) && p < n && CanGo(n, s, p) && InWait(s.pcs[p]) && CoreOf(s) && StatusesOf(s)
    ensures StatusesOf(GoWait(n, s, p, ok))
  {
    hide Sized, CoreOf, Statuses;
    Sizes(n, s, p);
    var t := GoWait(n, s, p, ok);
    if s.pcs[p].WaitAt? && s.st[s.pcs[p].i] == ZOMBIE && ok {
      ZombieIsDead(s, p);
      StatusesReaped(s.pcs, s.pid, s.xstate, s.nextpid, s.exits, s.reaped, s.pcs[p].i);
      StatusesStay(s.pcs[s.pcs[p].i := Unborn], t.pid, t.xstate, s.nextpid, s.exits, t.reaped, p, WaitReaped);
    } else {
      StatusesStay(s.pcs, s.pid, s.xstate, s.nextpid, s.exits, s.reaped, p, t.pcs[p]);
    }
  }

  lemma ChannelsGo(n: nat, s: State, p: Proc, ok: bool)
    requires Sized(n, s) && p < n && CanGo(n, s, p) && Channels(s.st, s.chan) && StateOk(s.pcs[p], s.st[p])
    ensures Channels(DoGo(n, s, p, ok).st, DoGo(n, s, p, ok).chan)
  {
    hide PcSized, GoFork, GoExit, GoWait, GoOther, Channels;
    if InFork(s.pcs[p]) {
      ChannelsFork(n, s, p, ok);
    } else if InExit(s.pcs[p]) {
      ChannelsExit(n, s, p);
    } else if InWait(s.pcs[p]) {
      ChannelsWait(n, s, p, ok);
    } else {
      ChannelsOther(n, s, p);
    }
  }

  lemma ChannelsFork(n: nat, s: State, p: Proc, ok: bool)
    requires Sized(n, s) && p < n && CanGo(n, s, p) && Channels(s.st, s.chan) && InFork(s.pcs[p])
    ensures Channels(GoFork(n, s, p, ok).st, GoFork(n, s, p, ok).chan)
  {
    hide Sized, CanGo;
    Sizes(n, s, p);
  }

  lemma ChannelsExit(n: nat, s: State, p: Proc)
    requires Sized(n, s) && p < n && CanGo(n, s, p) && Channels(s.st, s.chan) && InExit(s.pcs[p])
    ensures Channels(GoExit(n, s, p).st, GoExit(n, s, p).chan)
  {
    hide Sized, CanGo;
    Sizes(n, s, p);
  }

  lemma ChannelsWait(n: nat, s: State, p: Proc, ok: bool)
    requires Sized(n, s) && p < n && CanGo(n, s, p) && Channels(s.st, s.chan) && InWait(s.pcs[p])
    requires StateOk(s.pcs[p], s.st[p])
    ensures Channels(GoWait(n, s, p, ok).st, GoWait(n, s, p, ok).chan)
  {
    hide Sized, CanGo;
    Sizes(n, s, p);
  }

  lemma ChannelsOther(n: nat, s: State, p: Proc)
    requires Sized(n, s) && p < n && CanGo(n, s, p) && Channels(s.st, s.chan)
    requires s.pcs[p].Back? || s.pcs[p].YieldMark? || s.pcs[p].KillLock? || s.pcs[p].KillAt?
    ensures Channels(GoOther(n, s, p).st, GoOther(n, s, p).chan)
  {
    hide Sized, CanGo;
    Sizes(n, s, p);
  }

  // ---- Every step ----

  lemma GoKept(n: nat, s: State, p: Proc, ok: bool)
    requires Inv(n, s) && p < n && CanGo(n, s, p)
    ensures Inv(n, DoGo(n, s, p, ok))
  {
    hide Sized, CoreOf, FamilyOf, StatusesOf, Channels, Waits, CanGo, GoFork, GoExit, GoWait;
    Sizes(n, s, p);
    Position(s, p);
    SizedKept(n, s, Go(p, ok));
    ChannelsGo(n, s, p, ok);
    if InFork(s.pcs[p]) {
      CoreFork(n, s, p, ok);
      FamilyFork(n, s, p, ok);
      StatusesFork(n, s, p, ok);
    } else if InExit(s.pcs[p]) {
      CoreExit(n, s, p);
      FamilyExit(n, s, p);
      StatusesExit(n, s, p);
    } else if InWait(s.pcs[p]) {
      CoreWait(n, s, p, ok);
      FamilyWait(n, s, p, ok);
      StatusesWait(n, s, p, ok);
    } else {
      OtherKept(n, s, p);
    }
  }

  lemma OtherKept(n: nat, s: State, p: Proc)
    requires Inv(n, s) && p < n && CanGo(n, s, p)
    requires !InFork(s.pcs[p]) && !InExit(s.pcs[p]) && !InWait(s.pcs[p])
    ensures CoreOf(GoOther(n, s, p)) && FamilyOf(GoOther(n, s, p)) && StatusesOf(GoOther(n, s, p))
  {
    hide Sized, CoreOf, FamilyOf, Statuses, Channels;
    Sizes(n, s, p);
    CoreOther(n, s, p);
    FamilyOther(n, s, p);
    StatusesStay(s.pcs, s.pid, s.xstate, s.nextpid, s.exits, s.reaped, p, GoOther(n, s, p).pcs[p]);
  }

  lemma CoreCall(n: nat, s: State, a: Step)
    requires Inv(n, s) && Can(n, s, a) && (a.Exit? || a.Wait? || a.Kill? || a.Yield?)
    ensures CoreOf(Do(n, s, a))
  {
    hide Sized, Core, FamilyOf, Statuses, Channels, Waits;
    Sizes(n, s, a.p);
    Position(s, a.p);
    var pc := Do(n, s, a).pcs[a.p];
    if a.Yield? {
      CoreLockTaken(s.pcs, s.st, s.lock, s.waitLock, s.cpus, a.p, pc, a.p);
    } else {
      assert s.st[a.p := s.st[a.p]] == s.st;
      CoreStay(s.pcs, s.st, s.lock, s.waitLock, s.cpus, a.p, pc, s.st[a.p]);
    }
  }

  /** A call of kexit(), kwait(), kkill() or yield(). */
  /** A system call, or a yield, only begins: nobody's family is concerned. */
  lemma CallQuiet(n: nat, s: State, a: Step)
    requires Sized(n, s) && Can(n, s, a) && (a.Exit? || a.Wait? || a.Kill? || a.Yield?)
    ensures var t := Do(n, s, a);
            && |s.st| == |s.pcs| == |t.pcs| == n && a.p < n && t.st == s.st && OnlyWakes(s.st, s.st, a.p)
            && SameFork(s.pcs[a.p], t.pcs[a.p]) && SameScan(n, s.pcs[a.p], t.pcs[a.p])
            && SameWake(s.pcs[a.p], t.pcs[a.p])
            && !Committed(t.pcs[a.p], s.st[a.p])
            && (a.p == 0 && InExit(Base(t.pcs[0])) ==> InExit(Base(s.pcs[0])))
  {
    hide PcSized;
  }

  lemma CallKept(n: nat, s: State, a: Step)
    requires Inv(n, s) && Can(n, s, a) && (a.Exit? || a.Wait? || a.Kill? || a.Yield?)
    ensures FamilyOf(Do(n, s, a)) && StatusesOf(Do(n, s, a)) && Do(n, s, a).st == s.st
  {
    hide Sized, CoreOf, FamilyOf, Statuses, Channels, SameFork, SameScan, SameWake, InExit, Committed, OnlyWakes;
    Sizes(n, s, a.p);
    InitNeverExits(s);
    var pc := Do(n, s, a).pcs[a.p];
    CallQuiet(n, s, a);
    QuietFamily(s, a.p, pc, s.st);
    FamilyFrame(s.(pcs := s.pcs[a.p := pc], st := s.st), Do(n, s, a));
    StatusesStay(s.pcs, s.pid, s.xstate, s.nextpid, s.exits, s.reaped, a.p, pc);
  }

  lemma FamilyFrame(s: State, t: State)
    requires FamilyOf(s) && t.pcs == s.pcs && t.st == s.st && t.parent == s.parent
    ensures FamilyOf(t)
  {}

  lemma ForkKept(n: nat, s: State, p: Proc, np: Proc)
    requires Inv(n, s) && Can(n, s, Fork(p, np))
    ensures CoreOf(Do(n, s, Fork(p, np))) && FamilyOf(Do(n, s, Fork(p, np))) && StatusesOf(Do(n, s, Fork(p, np)))
  {
    hide Sized, Core, Tree, Scans, Wakes, Statuses, Channels, Waits;
    Sizes(n, s, p);
    Position(s, p);
    Position(s, np);
    FirstPid(s, p);
    var a := s.pcs[np := Embryo];
    CoreSlot(s.pcs, s.st, s.lock, s.waitLock, s.cpus, np, Embryo, USED);
    CoreLockTaken(a, s.st[np := USED], s.lock, s.waitLock, s.cpus, p, ForkSetup(np), np);
    ForkStartsTree(s.pcs, s.parent, p, np);
    ForkScans(s.pcs, s.parent, p, np, ForkSetup(np), Embryo);
    ForkWakes(s.pcs, s.st, s.parent, p, np, ForkSetup(np), Embryo, USED);
    StatusesBorn(s.pcs, s.pid, s.xstate, s.nextpid, s.exits, s.reaped, np);
    StatusesStay(a, s.pid[np := s.nextpid], s.xstate, s.nextpid + 1, s.exits, s.reaped, p, ForkSetup(np));
  }

  lemma FirstPid(s: State, p: Proc)
    requires StatusesOf(s) && p < |s.pcs| && s.pcs[p] != Unborn
    ensures 0 < s.nextpid
  {}

  lemma DispatchKept(n: nat, s: State, c: nat, p: Proc)
    requires Inv(n, s) && Can(n, s, Dispatch(c, p))
    ensures CoreOf(Do(n, s, Dispatch(c, p))) && FamilyOf(Do(n, s, Dispatch(c, p)))
            && StatusesOf(Do(n, s, Dispatch(c, p)))
  {
    hide Sized, Core, FamilyOf, Statuses, Channels, Waits;
    Sizes(n, s, p);
    Position(s, p);
    var t := Do(n, s, Dispatch(c, p));
    CoreDispatched(s.pcs, s.st, s.lock, s.waitLock, s.cpus, c, p, t.pcs[p]);
    QuietFamily(s, p, t.pcs[p], t.st);
    FamilyFrame(s.(pcs := s.pcs[p := t.pcs[p]], st := t.st), t);
    StatusesStay(s.pcs, s.pid, s.xstate, s.nextpid, s.exits, s.reaped, p, t.pcs[p]);
  }

  lemma SwitchKept(n: nat, s: State, c: nat)
    requires Inv(n, s) && Can(n, s, SwitchOff(c))
    ensures CoreOf(Do(n, s, SwitchOff(c))) && FamilyOf(Do(n, s, SwitchOff(c))) && StatusesOf(Do(n, s, SwitchOff(c)))
  {
    hide Core, FamilyOf, Statuses, Channels;
    if s.cpus[c].RunningOn? {
      CoreSwitched(s.pcs, s.st, s.lock, s.waitLock, s.cpus, c);
    } else {
      CoreReleased(s.pcs, s.st, s.lock, s.waitLock, s.cpus, c);
    }
    FamilyFrame(s, Do(n, s, SwitchOff(c)));
  }

  lemma ChannelsKept(n: nat, s: State, a: Step)
    requires Sized(n, s) && Can(n, s, a) && Channels(s.st, s.chan) && !a.Go?
    ensures Channels(Do(n, s, a).st, Do(n, s, a).chan)
  {}

  lemma StepKept(n: nat, s: State, a: Step, t: State)
    requires Inv(n, s) && Next(n, s, a, t)
    ensures Inv(n, t)
  {
    hide Sized, CoreOf, FamilyOf, StatusesOf, Channels, DoGo;
    SizedKept(n, s, a);
    if a.Go? {
      GoKept(n, s, a.p, a.ok);
    } else {
      ChannelsKept(n, s, a);
      if a.Fork? {
        ForkKept(n, s, a.p, a.np);
      } else if a.Dispatch? {
        DispatchKept(n, s, a.c, a.p);
      } else if a.SwitchOff? {
        SwitchKept(n, s, a.c);
      } else {
        CoreCall(n, s, a);
        CallKept(n, s, a);
      }
    }
  }

  lemma InitCore(n: nat, s: State)
    requires Init(n, s)
    ensures CoreOf(s)
  {}

  /** At the start only initproc exists, and it is in none of the functions. */
  lemma InitPcs(n: nat, s: State)
    requires Init(n, s)
    ensures |s.pcs| == |s.parent| == n > 0
    ensures forall p :: 0 <= p < n ==> s.pcs[p] == (if p == 0 then Born else Unborn) && s.parent[p] == None
  {}

  lemma InitKin(n: nat, s: State)
    requires Init(n, s)
    ensures Kin(s.pcs, s.parent)
  {
    hide Init, Sized;
    InitPcs(n, s);
  }

  lemma InitForks(n: nat, s: State)
    requires Init(n, s)
    ensures Forks(s.pcs, s.parent)
  {
    hide Init, Sized;
    InitPcs(n, s);
    forall p | 0 <= p < n ensures !InFork(Base(s.pcs[p])) {}
  }

  lemma InitTree(n: nat, s: State)
    requires Init(n, s)
    ensures Tree(s.pcs, s.parent) && Scans(s.pcs, s.parent)
  {
    hide Init, Sized, Kin, Forks;
    InitPcs(n, s);
    InitKin(n, s);
    InitForks(n, s);
  }

  lemma InitInv(n: nat, s: State)
    requires Init(n, s)
    ensures Inv(n, s)
  {
    hide Core, Tree, Scans;
    InitCore(n, s);
    InitTree(n, s);
  }

  // ---- What holds over every run ----

  /** Any interleaving of any calls by any processes and CPUs, from boot. */
  ghost predicate Run(n: nat, ss: seq<State>, steps: seq<Step>) {
    Linked((s, a, t) => Next(n, s, a, t), ss, steps) && Init(n, ss[0])
  }

  lemma RunInv(n: nat, ss: seq<State>, steps: seq<Step>, i: nat)
    requires Run(n, ss, steps) && i < |ss|
    ensures Inv(n, ss[i])
  {
    hide Init, Inv, Next;
    InitInv(n, ss[0]);
    forall s, a, t | Inv(n, s) && Next(n, s, a, t) ensures Inv(n, t) { StepKept(n, s, a, t); }
    Invariant((s, a, t) => Next(n, s, a, t), s => Inv(n, s), ss, steps, i);
  }

  /**
   Every process that can be scheduled, or waits to be reaped, has a parent that can still reap it;
   initproc lives.
   */
  lemma LiveParent(n: nat, ss: seq<State>, steps: seq<Step>, i: nat, p: Proc)
    requires Run(n, ss, steps) && i < |ss| && p < n
    ensures Sized(n, ss[i])
    ensures ss[i].st[0] != UNUSED && ss[i].st[0] != ZOMBIE
    ensures p > 0 && ss[i].st[p] != UNUSED && ss[i].st[p] != USED ==>
              && ss[i].parent[p].Some? && ss[i].parent[p].value != p
              && ss[i].st[ss[i].parent[p].value] !in {UNUSED, USED, ZOMBIE}
  {
    RunInv(n, ss, steps, i);
    ParentAt(n, ss[i], p);
  }

  lemma ParentAt(n: nat, s: State, p: Proc)
    requires Inv(n, s) && p < n
    ensures s.st[0] != UNUSED && s.st[0] != ZOMBIE
    ensures p > 0 && s.st[p] != UNUSED && s.st[p] != USED ==>
              s.parent[p].Some? && s.parent[p].value != p && s.st[s.parent[p].value] !in {UNUSED, USED, ZOMBIE}
  {
    hide Scans, Wakes, StatusesOf, Channels, Forks, Waits, Locks, OnCpus;
    assert StateOk(s.pcs[0], s.st[0]) && StateOk(s.pcs[p], s.st[p]);
    if s.parent[p].Some? {
      assert StateOk(s.pcs[s.parent[p].value], s.st[s.parent[p].value]);
    }
  }

  /** A process asleep in kwait() has no zombie child whenever wait_lock is free. */
  lemma SleeperHasNoZombie(n: nat, ss: seq<State>, steps: seq<Step>, i: nat, p: Proc, c: Proc)
    requires Run(n, ss, steps) && i < |ss| && p < n && c < n
    ensures Sized(n, ss[i])
    ensures ss[i].waitLock == None && ss[i].st[p] == SLEEPING && ss[i].parent[c] == Some(p) ==> ss[i].st[c] != ZOMBIE
  {
    RunInv(n, ss, steps, i);
    if ss[i].waitLock == None && ss[i].st[p] == SLEEPING && ss[i].parent[c] == Some(p) {
      NoZombieAt(n, ss[i], p, c);
    }
  }

  lemma NoZombieAt(n: nat, s: State, p: Proc, c: Proc)
    requires Inv(n, s) && p < n && c < n
    requires s.waitLock == None && s.st[p] == SLEEPING && s.parent[c] == Some(p)
    ensures s.st[c] != ZOMBIE
  {
    hide Scans, StatusesOf, Channels, Tree, Locks, OnCpus, Notified;
    assert StateOk(s.pcs[p], s.st[p]) && StateOk(s.pcs[c], s.st[c]);
    assert forall r :: 0 <= r < n ==> !Waker(s.pcs[r], p) by {
      assert forall r :: 0 <= r < n ==> !HoldsWait(s.pcs[r]);
    }
  }

  /** kwait() returns each pid at most once. */
  lemma ReapedOnce(n: nat, ss: seq<State>, steps: seq<Step>, i: nat, j: nat, k: nat)
    requires Run(n, ss, steps) && i < |ss| && j < k < |ss[i].reaped|
    ensures ss[i].reaped[j].0 != ss[i].reaped[k].0
  {
    hide CoreOf, FamilyOf, Channels, Sized, Run;
    RunInv(n, ss, steps, i);
  }

  /** What kwait() returns with a pid is always the status that process exited with. */
  lemma ReapedStatus(n: nat, ss: seq<State>, steps: seq<Step>, i: nat, k: nat)
    requires Run(n, ss, steps) && i < |ss| && k < |ss[i].reaped|
    ensures ss[i].reaped[k].0 in ss[i].exits && ss[i].exits[ss[i].reaped[k].0] == ss[i].reaped[k].1
  {
    hide CoreOf, FamilyOf, Channels, Sized, Run;
    RunInv(n, ss, steps, i);
  }

  lemma ExitKept(n: nat, s: State, a: Step, t: State, k: nat)
    requires Inv(n, s) && Next(n, s, a, t) && k in s.exits
    ensures k in t.exits && t.exits[k] == s.exits[k]
  {
    hide CoreOf, FamilyOf, Channels, Sized;
    if a.Go? {
      Sizes(n, s, a.p);
      assert s.pcs[a.p].ExitMark? ==> s.pid[a.p] !in s.exits;
    }
  }

  /** A process exits once: the status recorded for a pid never changes. */
  lemma {:induction false} ExitsOnce(n: nat, ss: seq<State>, steps: seq<Step>, i: nat, j: nat, k: nat)
    requires Run(n, ss, steps) && i <= j < |ss| && k in ss[i].exits
    ensures k in ss[j].exits && ss[j].exits[k] == ss[i].exits[k]
  {
    hide Inv, Next, Init;
    if i < j {
      ExitsOnce(n, ss, steps, i, j - 1, k);
      RunInv(n, ss, steps, j - 1);
      assert ((s, a, t) => Next(n, s, a, t))(ss[j - 1], steps[j - 1], ss[j - 1 + 1]);
      ExitKept(n, ss[j - 1], steps[j - 1], ss[j], k);
    }
  }

  /** freeproc() never runs on a process that some CPU is still running, whatever called it. */
  lemma FreedOffCpu(n: nat, ss: seq<State>, steps: seq<Step>, i: nat, q: Proc, c: nat)
    requires Run(n, ss, steps) && i < |steps| && q < n && c < |ss[i].cpus|
    ensures Sized(n, ss[i]) && Sized(n, ss[i + 1])
    ensures ss[i].st[q] != UNUSED && ss[i + 1].st[q] == UNUSED ==> ss[i].cpus[c] != RunningOn(q)
  {
    RunInv(n, ss, steps, i);
    RunInv(n, ss, steps, i + 1);
    assert Next(n, ss[i], steps[i], ss[i + 1]);
    if ss[i].st[q] != UNUSED && ss[i + 1].st[q] == UNUSED {
      FreedAt(n, ss[i], steps[i], q, c);
    }
  }

  /** The two calls of freeproc(): by a fork that failed, and by kwait() of a zombie. */
  lemma FreedBy(n: nat, s: State, a: Step, q: Proc)
    requires Sized(n, s) && Can(n, s, a) && q < n
    requires s.st[q] != UNUSED && Sized(n, Do(n, s, a)) && Do(n, s, a).st[q] == UNUSED
    ensures a.Go? && ((s.pcs[a.p] == WaitAt(q) && s.st[q] == ZOMBIE) || s.pcs[a.p] == ForkSetup(q))
  {
    hide PcSized, GoFork, GoWait, GoExit, GoOther;
    if a.Go? {
      if InExit(s.pcs[a.p]) {
        ExitFreesNone(n, s, a.p, q);
      } else if InFork(s.pcs[a.p]) {
        ForkFrees(n, s, a.p, a.ok, q);
      } else if InWait(s.pcs[a.p]) {
        WaitFrees(n, s, a.p, a.ok, q);
      } else {
        OtherFreesNone(n, s, a.p, q);
      }
    }
  }

  lemma ForkFrees(n: nat, s: State, p: Proc, ok: bool, q: Proc)
    requires Sized(n, s) && p < n && CanGo(n, s, p) && InFork(s.pcs[p]) && q < n && s.st[q] != UNUSED
    ensures |GoFork(n, s, p, ok).st| == n && (GoFork(n, s, p, ok).st[q] == UNUSED ==> s.pcs[p] == ForkSetup(q))
  {}

  lemma WaitFrees(n: nat, s: State, p: Proc, ok: bool, q: Proc)
    requires Sized(n, s) && p < n && CanGo(n, s, p) && InWait(s.pcs[p]) && q < n && s.st[q] != UNUSED
    ensures |GoWait(n, s, p, ok).st| == n
    ensures GoWait(n, s, p, ok).st[q] == UNUSED ==> s.pcs[p] == WaitAt(q) && s.st[q] == ZOMBIE
  {}

  lemma OtherFreesNone(n: nat, s: State, p: Proc, q: Proc)
    requires Sized(n, s) && p < n && CanGo(n, s, p) && q < n && s.st[q] != UNUSED
    requires s.pcs[p].Back? || s.pcs[p].YieldMark? || s.pcs[p].KillLock? || s.pcs[p].KillAt?
    ensures |GoOther(n, s, p).st| == n && GoOther(n, s, p).st[q] != UNUSED
  {}

  lemma ExitFreesNone(n: nat, s: State, p: Proc, q: Proc)
    requires Sized(n, s) && p < n && CanGo(n, s, p) && InExit(s.pcs[p]) && q < n && s.st[q] != UNUSED
    ensures |GoExit(n, s, p).st| == n && GoExit(n, s, p).st[q] != UNUSED
  {}

  lemma FreedAt(n: nat, s: State, a: Step, q: Proc, c: nat)
    requires Inv(n, s) && Can(n, s, a) && q < n && c < |s.cpus|
    requires s.st[q] != UNUSED && Sized(n, Do(n, s, a)) && Do(n, s, a).st[q] == UNUSED
    ensures s.cpus[c] != RunningOn(q)
  {
    hide CoreOf, FamilyOf, StatusesOf, Channels, Do, PcSized, CanGo;
    FreedBy(n, s, a, q);
    if s.pcs[a.p].WaitAt? {
      ZombieIsDead(s, a.p);
    } else {
      EmbryoAt(s, a.p);
      EmbryoOffCpu(s, a.p, c);
    }
  }

  lemma EmbryoOffCpu(s: State, p: Proc, c: nat)
    requires CoreOf(s) && p < |s.pcs| && s.pcs[p].ForkSetup? && s.pcs[p].np < |s.pcs| && s.pcs[s.pcs[p].np] == Embryo
    requires c < |s.cpus|
    ensures s.cpus[c] != RunningOn(s.pcs[p].np)
  {
    assert s.lock[s.pcs[p].np] == By(p);
  }
}