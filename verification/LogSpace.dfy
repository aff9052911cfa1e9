/**
 Space reservation in kernel/log.c.  begin_op() lets an operation in only if the
 log would still fit were every operation in progress to add MAXOPBLOCKS blocks;
 log_write() panics when the log is full, before it looks whether the block is
 already there.
 */
module LogSpace {
  import opened Runs

  type Proc = nat

  /** MAXOPBLOCKS and LOGBLOCKS. */
  datatype Limits = Limits(perOp: nat, cap: nat)

  /** The logged blocks, and for each operation in progress how many of them it added. */
  datatype State = State(lh: seq<nat>, added: map<Proc, nat>, committing: bool)

  datatype Step = Begin(p: Proc) | Write(p: Proc, b: nat) | End(p: Proc) | Committed

  /** Whether begin_op() goes ahead rather than sleep. */
  predicate Admits(c: Limits, s: State) {
    !s.committing && |s.lh| + (|s.added| + 1) * c.perOp <= c.cap
  }

  predicate Can(c: Limits, s: State, a: Step) {
    match a
    case Begin(p) => p !in s.added && Admits(c, s)
    case Write(p, b) => p in s.added
    case End(p) => p in s.added
    case Committed => s.committing
  }

  function Do(c: Limits, s: State, a: Step): State
    requires Can(c, s, a)
  {
    match a
    case Begin(p) => s.(added := s.added[p := 0])
    case Write(p, b) =>
      if b in s.lh then s else s.(lh := s.lh + [b], added := s.added[p := s.added[p] + 1])
    case End(p) => s.(added := s.added - {p}, committing := s.added.Keys == {p})
    case Committed => s.(lh := [], committing := false)
  }

  /** log_write() reaches panic("too big a transaction"). */
  predicate Panics(c: Limits, s: State, a: Step) {
    a.Write? && |s.lh| >= c.cap
  }

  /** No operation adds more than max blocks, and no step that panics is taken. */
  ghost predicate Next(c: Limits, max: nat, s: State, a: Step, t: State) {
    && Can(c, s, a) && !Panics(c, s, a) && t == Do(c, s, a)
    && forall p :: p in t.added ==> t.added[p] <= max
  }

  const Init := State([], map[], false)

  ghost predicate Run(c: Limits, max: nat, ss: seq<State>, steps: seq<Step>) {
    Linked((s, a, t) => Next(c, max, s, a, t), ss, steps) && ss[0] == Init
  }

  // ---- The reservation ----

  /** Blocks the operations in progress may still add. */
  ghost function Reserved(perOp: nat, added: map<Proc, nat>): int
    decreases |added|
  {
    if added == map[] then 0
    else
      var p :| p in added;
      perOp - added[p] + Reserved(perOp, added - {p})
  }

  lemma {:induction false} ReservedRemove(perOp: nat, added: map<Proc, nat>, p: Proc)
    requires p in added
    ensures Reserved(perOp, added) == perOp - added[p] + Reserved(perOp, added - {p})
    decreases |added|
  {
    var q :| q in added && Reserved(perOp, added) == perOp - added[q] + Reserved(perOp, added - {q});
    if p != q {
      ReservedRemove(perOp, added - {q}, p);
      ReservedRemove(perOp, added - {p}, q);
      assert added - {q} - {p} == added - {p} - {q};
    }
  }

  lemma ReservedPut(perOp: nat, added: map<Proc, nat>, p: Proc, n: nat)
    ensures Reserved(perOp, added[p := n]) == perOp - n + Reserved(perOp, added - {p})
  {
    ReservedRemove(perOp, added[p := n], p);
    assert added[p := n] - {p} == added - {p};
  }

  /** An operation that may add n more blocks has them reserved. */
  lemma {:induction false} ReservedAtLeast(perOp: nat, added: map<Proc, nat>, p: Proc)
    requires p in added && forall q :: q in added ==> added[q] <= perOp
    ensures Reserved(perOp, added) >= perOp - added[p]
    decreases |added|
  {
    ReservedRemove(perOp, added, p);
    ReservedNonNegative(perOp, added - {p});
  }

  lemma OneLess(added: map<Proc, nat>, p: Proc)
    requires p in added
    ensures |added| == |added - {p}| + 1
  {
    assert (added - {p}).Keys == added.Keys - {p};
  }

  lemma OneMore(n: nat, k: nat)
    ensures (n + 1) * k == n * k + k
  {}

  lemma {:induction false} ReservedNonNegative(perOp: nat, added: map<Proc, nat>)
    requires forall q :: q in added ==> added[q] <= perOp
    ensures 0 <= Reserved(perOp, added) <= |added| * perOp
    decreases |added|
  {
    if added == map[] {
      assert |added| * perOp == 0;
    } else {
      var p :| p in added;
      ReservedRemove(perOp, added, p);
      OneLess(added, p);
      ReservedNonNegative(perOp, added - {p});
      OneMore(|added - {p}|, perOp);
    }
  }

  /** Used and reserved space fit the log. */
  ghost predicate Fits(c: Limits, max: nat, s: State) {
    && (forall p :: p in s.added ==> s.added[p] <= max)
    && max <= c.perOp
    && |s.lh| + Reserved(c.perOp, s.added) <= c.cap
  }

  lemma BeginFits(c: Limits, max: nat, s: State, p: Proc)
    requires Fits(c, max, s) && Can(c, s, Begin(p))
    ensures Fits(c, max, Do(c, s, Begin(p)))
  {
    assert |s.lh| + Reserved(c.perOp, s.added) + c.perOp <= c.cap by {
      ReservedNonNegative(c.perOp, s.added);
      OneMore(|s.added|, c.perOp);
    }
    ReservedPut(c.perOp, s.added, p, 0);
    assert s.added - {p} == s.added;
  }

  lemma WriteFits(c: Limits, max: nat, s: State, p: Proc, b: nat)
    requires Fits(c, max, s) && Can(c, s, Write(p, b)) && b !in s.lh && s.added[p] < max
    ensures Fits(c, max, Do(c, s, Write(p, b)))
  {
    ReservedPut(c.perOp, s.added, p, s.added[p] + 1);
    ReservedRemove(c.perOp, s.added, p);
  }

  lemma StepFits(c: Limits, max: nat, s: State, a: Step, t: State)
    requires Fits(c, max, s) && Next(c, max, s, a, t)
    ensures Fits(c, max, t)
  {
    match a
    case Begin(p) => BeginFits(c, max, s, p);
    case Write(p, b) =>
      if b !in s.lh {
        assert t.added[p] <= max;
        WriteFits(c, max, s, p, b);
      }
    case End(p) => ReservedRemove(c.perOp, s.added, p);
    case Committed =>
  }

  lemma RunFits(c: Limits, max: nat, ss: seq<State>, steps: seq<Step>, i: nat)
    requires Run(c, max, ss, steps) && i < |ss| && max <= c.perOp
    ensures Fits(c, max, ss[i])
  {
    forall s, a, t | Fits(c, max, s) && Next(c, max, s, a, t) ensures Fits(c, max, t) { StepFits(c, max, s, a, t); }
    Invariant((s, a, t) => Next(c, max, s, a, t), s => Fits(c, max, s), ss, steps, i);
  }

  /**
   If no operation adds as many as MAXOPBLOCKS blocks, no log_write() ever finds the log
   full, not even one that would be absorbed.
   */
  lemma NeverTooBig(c: Limits, max: nat, ss: seq<State>, steps: seq<Step>, a: Step)
    requires Run(c, max, ss, steps) && max < c.perOp && Can(c, ss[|steps|], a)
    ensures !Panics(c, ss[|steps|], a)
  {
    var s := ss[|steps|];
    RunFits(c, max, ss, steps, |steps|);
    if a.Write? {
      ReservedAtLeast(c.perOp, s.added, a.p);
    }
  }

  /** With at most MAXOPBLOCKS blocks per operation a write of a new block is still safe. */
  lemma NewBlockFits(c: Limits, ss: seq<State>, steps: seq<Step>, p: Proc, b: nat)
    requires Run(c, c.perOp, ss, steps) && Can(c, ss[|steps|], Write(p, b))
    requires b !in ss[|steps|].lh && ss[|steps|].added[p] < c.perOp
    ensures !Panics(c, ss[|steps|], Write(p, b))
  {
    RunFits(c, c.perOp, ss, steps, |steps|);
    ReservedAtLeast(c.perOp, ss[|steps|].added, p);
  }

  // ---- MAXOPBLOCKS blocks are one too many ----

  /** After m blocks written by three operations that all began first. */
  function Filled(perOp: nat, m: nat): State
  {
    State(seq(m, i => i),
          map[0 := Share(perOp, m, 0), 1 := Share(perOp, m, 1), 2 := Share(perOp, m, 2)], false)
  }

  /** How many of the first m blocks operation p added, each filling its allowance in turn. */
  function Share(perOp: nat, m: nat, p: nat): nat {
    if m <= p * perOp then 0 else if m <= (p + 1) * perOp then m - p * perOp else perOp
  }

  lemma Extend(c: Limits, max: nat, ss: seq<State>, steps: seq<Step>, a: Step)
    returns (ss': seq<State>, steps': seq<Step>)
    requires Run(c, max, ss, steps) && Can(c, ss[|steps|], a)
    requires Next(c, max, ss[|steps|], a, Do(c, ss[|steps|], a))
    ensures Run(c, max, ss', steps') && ss'[|steps'|] == Do(c, ss[|steps|], a)
  {
    ss', steps' := ss + [Do(c, ss[|steps|], a)], steps + [a];
    forall i | 0 <= i < |steps'| ensures Next(c, max, ss'[i], steps'[i], ss'[i + 1]) {
      if i < |steps| {
        assert Next(c, max, ss[i], steps[i], ss[i + 1]);
      }
    }
  }

  lemma FillOne(c: Limits, m: nat, p: nat)
    requires c.cap == 3 * c.perOp && p * c.perOp < m <= (p + 1) * c.perOp && p < 3
    ensures Can(c, Filled(c.perOp, m - 1), Write(p, m - 1))
    ensures Next(c, c.perOp, Filled(c.perOp, m - 1), Write(p, m - 1), Filled(c.perOp, m))
  {
    var s, t := Filled(c.perOp, m - 1), Filled(c.perOp, m);
    assert t.lh == s.lh + [m - 1];
    assert t.added == s.added[p := s.added[p] + 1];
  }

  lemma {:induction false} ReachFilled(c: Limits, m: nat) returns (ss: seq<State>, steps: seq<Step>)
    requires c.cap == 3 * c.perOp && c.perOp > 0 && m <= c.cap
    ensures Run(c, c.perOp, ss, steps) && ss[|steps|] == Filled(c.perOp, m)
  {
    if m == 0 {
      ss, steps := [Init], [];
      ss, steps := Extend(c, c.perOp, ss, steps, Begin(0));
      ss, steps := Extend(c, c.perOp, ss, steps, Begin(1));
      ss, steps := Extend(c, c.perOp, ss, steps, Begin(2));
    } else {
      ss, steps := ReachFilled(c, m - 1);
      var p := if m <= c.perOp then 0 else if m <= 2 * c.perOp then 1 else 2;
      FillOne(c, m, p);
      ss, steps := Extend(c, c.perOp, ss, steps, Write(p, m - 1));
    }
  }

  /**
   LOGBLOCKS is 3 * MAXOPBLOCKS.  Operations that each add exactly MAXOPBLOCKS blocks can
   fill the log, and then even an absorbed log_write() panics: the bound of NeverTooBig is exact.
   */
  lemma FullLogPanics(c: Limits)
    requires c.cap == 3 * c.perOp && c.perOp > 0
    ensures exists ss: seq<State>, steps: seq<Step>, p: Proc, b: nat ::
              Run(c, c.perOp, ss, steps) && b in ss[|steps|].lh
              && Can(c, ss[|steps|], Write(p, b)) && Panics(c, ss[|steps|], Write(p, b))
  {
    var ss, steps := ReachFilled(c, c.cap);
    assert ss[|steps|].lh[0] == 0;
    assert 0 in ss[|steps|].lh && Can(c, ss[|steps|], Write(0, 0)) && Panics(c, ss[|steps|], Write(0, 0));
  }

  /** A larger allowance permits the same runs. */
  lemma AllowanceGrows(c: Limits, max: nat, max': nat, ss: seq<State>, steps: seq<Step>)
    requires Run(c, max, ss, steps) && max <= max'
    ensures Run(c, max', ss, steps)
  {
    forall i | 0 <= i < |steps| ensures Next(c, max', ss[i], steps[i], ss[i + 1]) {
      assert ((s, a, t) => Next(c, max, s, a, t))(ss[i], steps[i], ss[i + 1]);
    }
  }

  /** In no run does log_write() of a block already logged panic. */
  ghost predicate AbsorbsAlways(c: Limits, max: nat) {
    forall ss: seq<State>, steps: seq<Step>, p: Proc, b: nat ::
      Run(c, max, ss, steps) && b in ss[|steps|].lh && Can(c, ss[|steps|], Write(p, b)) ==>
        !Panics(c, ss[|steps|], Write(p, b))
  }

  /** The limit is exact: absorbed writes are safe if and only if every operation adds fewer than MAXOPBLOCKS blocks. */
  lemma AbsorbsIffBelow(c: Limits, max: nat)
    requires c.cap == 3 * c.perOp && c.perOp > 0
    ensures AbsorbsAlways(c, max) <==> max < c.perOp
  {
    if max < c.perOp {
      forall ss: seq<State>, steps: seq<Step>, p: Proc, b: nat |
        Run(c, max, ss, steps) && b in ss[|steps|].lh && Can(c, ss[|steps|], Write(p, b))
        ensures !Panics(c, ss[|steps|], Write(p, b))
      {
        NeverTooBig(c, max, ss, steps, Write(p, b));
      }
    } else {
      FullLogPanics(c);
      var ss: seq<State>, steps: seq<Step>, p: Proc, b: nat :| Run(c, c.perOp, ss, steps) && b in ss[|steps|].lh
              && Can(c, ss[|steps|], Write(p, b)) && Panics(c, ss[|steps|], Write(p, b));
      AllowanceGrows(c, c.perOp, max, ss, steps);
    }
  }
}
