/** The quantum loop of a compiled machine function, and runs cut into slices by it. */
module Slices {
  import opened Lake
  import opened BlockMachine

  /** Codes a machine function returns. `Crash` stands for a trap, which takes the whole process down. */
  datatype StopCode = StopDone | StopLimit | StopPark | Crash

  predicate Terminal(prog: Program, c: Cfg) {
    c.Stopped? || Finished(prog, c)
  }

  /**
   * One call of the machine function from `c` to `d`: `n` blocks, none from a terminal configuration, at most the
   * quantum of them, and the code it returns. A finished actor runs no block; every other slice runs one at least.
   */
  ghost predicate IsSlice(prog: Program, c: Cfg, d: Cfg, quantum: nat, n: nat, stop: StopCode) {
    && d == Steps(prog, c, n) && n <= quantum
    && (forall j :: 0 <= j < n ==> !Terminal(prog, Steps(prog, c, j)))
    && (stop == StopDone ==> Finished(prog, d) || (d.Stopped? && d.why == Died))
    && (stop == Crash ==> d.Stopped? && d.why != Died)
    && (stop == StopLimit || stop == StopPark ==> n >= 1 && d.At?)
  }

  /** The block that `c` stands at ends in a parking call. */
  predicate Parks(prog: Program, c: Cfg) {
    c.At? && !Finished(prog, c) && prog.branches[c.branch][c.id].exit.ParkThenGoto?
  }

  /** After `j + 1` blocks the slice goes on: no parking call, quantum left, clock within budget. */
  predicate GoesOn(prog: Program, c: Cfg, quantum: nat, overBudget: nat -> bool, j: nat) {
    !Parks(prog, Steps(prog, c, j)) && j + 1 < quantum && !overBudget(j + 1)
  }

  /**
   * Why the slice ended just there. StopPark: its last block parked. StopLimit: it did not, and the quantum is used up
   * or the clock says so. StopDone of a finished actor: neither. Otherwise the last block trapped or left its actor
   * dying. No earlier block gave a reason to stop.
   */
  ghost predicate EndsRightly(prog: Program, c: Cfg, d: Cfg, quantum: nat, overBudget: nat -> bool, n: nat, stop: StopCode) {
    && (forall j :: 0 <= j < n - 1 ==> GoesOn(prog, c, quantum, overBudget, j))
    && (stop == StopPark ==> n >= 1 && Parks(prog, Steps(prog, c, n - 1)))
    && (stop == StopLimit ==>
          n >= 1 && !Parks(prog, Steps(prog, c, n - 1)) && (n == quantum || overBudget(n)))
    && (stop == StopDone && !d.Stopped? ==> n == 0 || GoesOn(prog, c, quantum, overBudget, n - 1))
  }

  /** From one configuration, with one quantum and one clock, there is one slice: so many blocks, and that code. */
  lemma SliceUnique(prog: Program, c: Cfg, d: Cfg, d1: Cfg, quantum: nat, overBudget: nat -> bool, n: nat, n1: nat,
      stop: StopCode, stop1: StopCode)
    requires IsSlice(prog, c, d, quantum, n, stop) && EndsRightly(prog, c, d, quantum, overBudget, n, stop)
    requires IsSlice(prog, c, d1, quantum, n1, stop1) && EndsRightly(prog, c, d1, quantum, overBudget, n1, stop1)
    ensures n == n1 && stop == stop1 && d == d1
  {
    hide Steps, Parks;
    NotShorter(prog, c, d, d1, quantum, overBudget, n, n1, stop, stop1);
    NotShorter(prog, c, d1, d, quantum, overBudget, n1, n, stop1, stop);
    if n >= 1 {
      assert GoesOn(prog, c, quantum, overBudget, n - 1) ==> n < quantum && !overBudget(n) by { assert n - 1 + 1 == n; }
    }
  }

  lemma NotShorter(prog: Program, c: Cfg, d: Cfg, d1: Cfg, quantum: nat, overBudget: nat -> bool, n: nat, n1: nat,
      stop: StopCode, stop1: StopCode)
    requires IsSlice(prog, c, d, quantum, n, stop) && EndsRightly(prog, c, d, quantum, overBudget, n, stop)
    requires IsSlice(prog, c, d1, quantum, n1, stop1) && EndsRightly(prog, c, d1, quantum, overBudget, n1, stop1)
    ensures n1 <= n
  {
    hide Steps, Finished, Parks;
    assert n < n1 ==> !Terminal(prog, Steps(prog, c, n));
    assert 1 <= n < n1 ==> GoesOn(prog, c, quantum, overBudget, n - 1);
    assert 1 <= n ==> n - 1 + 1 == n;
  }

  /** The execution context: BRANCH_ID, BLOCK_ID, and the buffers and registers blocks work on. */
  class ExecCtx {
    var branchId: nat
    var blockId: int
    var m: M

    constructor (branch: nat, m: M)
      ensures branchId == branch && blockId == 0 && this.m == m
    {
      branchId, blockId, this.m := branch, 0, m;
    }

    function Cfg(): Cfg
      reads this
    {
      At(branchId, blockId, m)
    }

    /**
     * The emitted machine function. `overBudget(i)` is the answer of the i-th clock check of this slice.
     * BLOCK_ID is stored before every check, so that a yield resumes where the run stood.
     */
    method RunSlice(prog: Program, quantum: nat, overBudget: nat -> bool) returns (stop: StopCode, ghost n: nat)
      requires quantum >= 1 && !m.dying
      modifies this
      ensures stop == StopLimit || stop == StopPark ==> !m.dying && IsSlice(prog, old(Cfg()), Cfg(), quantum, n, stop)
      ensures stop == StopDone ==>
        IsSlice(prog, old(Cfg()), if m.dying then Stopped(Died, m) else Cfg(), quantum, n, stop)
      ensures stop == Crash ==> exists why :: IsSlice(prog, old(Cfg()), Stopped(why, m), quantum, n, stop)
      ensures EndsRightly(prog, old(Cfg()), if m.dying then Stopped(Died, m) else Cfg(), quantum, overBudget, n, stop)
    {
      hide RunOps, RunExit, Steps, Finished;
      var remaining := quantum;
      n := 0;
      NoStep(prog, Cfg());
      while true
        invariant 1 <= remaining && n + remaining == quantum
        invariant Cfg() == Steps(prog, old(Cfg()), n) && !m.dying
        invariant forall j :: 0 <= j < n ==> !Terminal(prog, Steps(prog, old(Cfg()), j))
        invariant forall j :: 0 <= j < n ==> GoesOn(prog, old(Cfg()), quantum, overBudget, j)
        decreases remaining
      {
        if branchId !in prog.branches || blockId !in prog.branches[branchId] {
          NoBlock(prog, Cfg());
          return StopDone, n;
        }
        var block := prog.branches[branchId][blockId];
        NextStep(prog, old(Cfg()), Cfg(), n);
        StepIs(prog, Cfg());
        ParksHere(prog, Cfg());
        NoDeadStop(prog, branchId, block, m);
        n := n + 1;
        match RunOps(prog.world, block.ops, m) {
          case Stop(why, m1) =>
            m := m1;
            assert IsSlice(prog, old(Cfg()), Stopped(why, m), quantum, n, Crash);
            return Crash, n;
          case Next(m1) =>
            if m1.dying {
              m := m1;
              return StopDone, n;
            }
            match RunExit(prog, branchId, block.exit, m1) {
              case Stopped(why, m2) =>
                m := m2;
                assert IsSlice(prog, old(Cfg()), Stopped(why, m), quantum, n, Crash);
                return Crash, n;
              case At(b, id, m2) =>
                branchId, blockId, m := b, id, m2;
            }
            if block.exit.ParkThenGoto? {
              return StopPark, n;
            }
            remaining := remaining - 1;
            if remaining == 0 || overBudget(quantum - remaining) {
              return StopLimit, n;
            }
        }
      }
    }
  }

  lemma NoStep(prog: Program, c: Cfg)
    ensures Steps(prog, c, 0) == c
  {
  }

  lemma NoBlock(prog: Program, c: Cfg)
    requires c.At? && (c.branch !in prog.branches || c.id !in prog.branches[c.branch])
    ensures Finished(prog, c)
  {
  }

  /** A block is left dead by the death check only. */
  lemma NoDeadStop(prog: Program, branch: nat, b: Block, m: M)
    ensures RunOps(prog.world, b.ops, m).Stop? ==> RunOps(prog.world, b.ops, m).why != Died
    ensures RunOps(prog.world, b.ops, m).Next? ==>
      var e := RunExit(prog, branch, b.exit, RunOps(prog.world, b.ops, m).m);
      (e.Stopped? ==> e.why != Died) && (e.m.dying == RunOps(prog.world, b.ops, m).m.dying)
  {
    hide RunOps, EvalAll;
    OpsNeverStopDead(prog.world, b.ops, m);
  }

  lemma StepIs(prog: Program, c: Cfg)
    requires c.At? && c.branch in prog.branches && c.id in prog.branches[c.branch]
    ensures !Terminal(prog, c)
    ensures Step(prog, c) == RunBlock(prog, c.branch, prog.branches[c.branch][c.id], c.m)
  {
  }

  lemma ParksHere(prog: Program, c: Cfg)
    requires c.At? && c.branch in prog.branches && c.id in prog.branches[c.branch]
    ensures Parks(prog, c) <==> prog.branches[c.branch][c.id].exit.ParkThenGoto?
  {
  }

  lemma NextStep(prog: Program, c: Cfg, d: Cfg, n: nat)
    requires d == Steps(prog, c, n)
    ensures Steps(prog, c, n + 1) == Step(prog, d)
  {
    StepsAdd(prog, c, n, 1);
    assert Steps(prog, Step(prog, d), 0) == Step(prog, d);
  }

  lemma {:induction false} OpsNeverStopDead(world: World, ops: seq<Op>, m: M)
    ensures RunOps(world, ops, m).Stop? ==> RunOps(world, ops, m).why != Died
    decreases ops
  {
    hide PureEval, StoreFat, EvalAll;
    if ops != [] {
      match RunOp(world, ops[0], m)
      case Next(m1) => OpsNeverStopDead(world, ops[1..], m1);
      case Stop(_, _) =>
    }
  }

  // ---------- Schedules ----------

  /** Slices one after another, each resuming where the last one yielded; `quanta`, `counts` and `stops` describe them. */
  ghost predicate IsSchedule(prog: Program, cfgs: seq<Cfg>, quanta: seq<nat>, counts: seq<nat>, stops: seq<StopCode>) {
    && |cfgs| == |counts| + 1 && |quanta| == |counts| == |stops|
    && forall i :: 0 <= i < |counts| ==> IsSlice(prog, cfgs[i], cfgs[i + 1], quanta[i], counts[i], stops[i])
  }

  function Sum(counts: seq<nat>): nat {
    if counts == [] then 0 else Sum(counts[..|counts| - 1]) + counts[|counts| - 1]
  }

  /** Cutting a run into slices changes nothing but where it pauses. */
  lemma {:induction false} ScheduleIsRun(prog: Program, cfgs: seq<Cfg>, quanta: seq<nat>, counts: seq<nat>,
      stops: seq<StopCode>)
    requires IsSchedule(prog, cfgs, quanta, counts, stops)
    ensures cfgs[|counts|] == Steps(prog, cfgs[0], Sum(counts))
    ensures forall j :: 0 <= j < Sum(counts) ==> !Terminal(prog, Steps(prog, cfgs[0], j))
    ensures (forall i :: 0 <= i < |stops| ==> stops[i] == StopLimit || stops[i] == StopPark) ==> |counts| <= Sum(counts)
    decreases counts
  {
    if counts == [] {
      assert Steps(prog, cfgs[0], 0) == cfgs[0];
    } else {
      var l := |counts| - 1;
      ScheduleIsRun(prog, cfgs[..l + 1], quanta[..l], counts[..l], stops[..l]);
      var before := Sum(counts[..l]);
      assert IsSlice(prog, cfgs[l], cfgs[l + 1], quanta[l], counts[l], stops[l]);
      StepsAdd(prog, cfgs[0], before, counts[l]);
      forall j | 0 <= j < Sum(counts) ensures !Terminal(prog, Steps(prog, cfgs[0], j)) {
        if j >= before {
          StepsAdd(prog, cfgs[0], before, j - before);
          assert !Terminal(prog, Steps(prog, cfgs[l], j - before));
        }
      }
    }
  }

  lemma {:induction false} TerminalStays(prog: Program, c: Cfg, k: nat)
    requires Terminal(prog, c)
    ensures Steps(prog, c, k) == c
    decreases k
  {
    if k > 0 {
      TerminalStays(prog, c, k - 1);
    }
  }

  /**
   * Preemption transparency. If the uninterrupted run is over after `k` blocks, then under every quantum and every
   * answer of the clock there are at most `k` yields before the actor is over, and the schedule that runs it to the
   * end leaves it exactly where the uninterrupted run does: same buffers, same memory, same action trace.
   */
  lemma PreemptionTransparent(prog: Program, cfgs: seq<Cfg>, quanta: seq<nat>, counts: seq<nat>, stops: seq<StopCode>,
      k: nat)
    requires IsSchedule(prog, cfgs, quanta, counts, stops)
    requires Terminal(prog, Steps(prog, cfgs[0], k))
    ensures Sum(counts) <= k
    ensures (forall i :: 0 <= i < |stops| ==> stops[i] == StopLimit || stops[i] == StopPark) ==> |stops| <= k
    ensures Terminal(prog, cfgs[|counts|]) ==> cfgs[|counts|] == Steps(prog, cfgs[0], k)
    ensures cfgs[|counts|] == Steps(prog, cfgs[0], Sum(counts))
  {
    var start := cfgs[0];
    ScheduleIsRun(prog, cfgs, quanta, counts, stops);
    var total := Sum(counts);
    assert k < total ==> !Terminal(prog, Steps(prog, start, k));
    StepsAdd(prog, cfgs[0], total, k - total);
    if Terminal(prog, cfgs[|counts|]) {
      TerminalStays(prog, cfgs[|counts|], k - total);
    }
  }
}
