/** Branch bodies: runs of straight-line statements share one block, registered under every id of the run. */
module SuperBlock {
  import opened Words
  import opened Lake
  import opened BlockMachine
  import opened BlockCompiler
  import opened CompilerShape
  import opened CompilerCorrect

  /** A pure expression, or a `let` of one: a statement that can share its block with its neighbours. */
  predicate AcceptsEntry(e: Expr) {
    e.P? || (e.Let? && e.init.P?)
  }

  /** Length of the run of such statements at the front. */
  function RunLength(es: seq<Expr>): (n: nat)
    ensures n <= |es| && forall i :: 0 <= i < n ==> AcceptsEntry(es[i])
    ensures n < |es| ==> !AcceptsEntry(es[n])
  {
    if es == [] || !AcceptsEntry(es[0]) then 0 else 1 + RunLength(es[1..])
  }

  datatype RunCompiled = RunFail | RunDone(ops: seq<Op>, st: Slots)

  function CompileOp(e: Expr, st: Slots): RunCompiled
    requires AcceptsEntry(e)
  {
    if e.P? then
      (match Resolve(e.pure, st.vars) case None => RunFail case Some(p) => RunDone([SetTemp(p)], st))
    else
      (match Resolve(e.init.pure, st.vars)
       case None => RunFail
       case Some(p) => RunDone([SetVar(st.next, p)], st.Insert(e.name)))
  }

  /** The instructions of a run, one per statement. */
  function CompileRun(es: seq<Expr>, st: Slots): (r: RunCompiled)
    requires forall i :: 0 <= i < |es| ==> AcceptsEntry(es[i])
    ensures r.RunDone? ==> |r.ops| == |es|
  {
    if es == [] then RunDone([], st)
    else match CompileOp(es[0], st)
      case RunFail => RunFail
      case RunDone(op, st1) =>
        (match CompileRun(es[1..], st1) case RunFail => RunFail case RunDone(ops, st2) => RunDone(op + ops, st2))
  }

  /** One block under `n` consecutive ids. */
  function Shared(id: int, n: nat, b: Block): (t: BlockTable)
    ensures forall i :: i in t <==> id <= i < id + n
    ensures forall i :: i in t ==> t[i] == b
  {
    if n == 0 then map[] else Shared(id, n - 1, b)[id + n - 1 := b]
  }

  /** A branch body. Statements after a terminal one are never compiled. */
  function CompileBody(es: seq<Expr>, id: int, st: Slots): Compiled
    decreases |es|
  {
    if es == [] then Done(map[], Continue(id), st)
    else
      var n := RunLength(es);
      if n >= 2 then
        (match CompileRun(es[..n], st)
         case RunFail => Fail(UnknownName)
         case RunDone(ops, st1) =>
           (match CompileBody(es[n..], id + n, st1)
            case Done(rest, outcome, st2) => Done(Shared(id, n, Block(ops, Goto(id + n))) + rest, outcome, st2)
            case fail => fail))
      else match CompileExpr(es[0], id, st, 0)
        case Done(blocks, Continue(next), st1) =>
          (match CompileBody(es[1..], next, st1)
           case Done(rest, outcome, st2) => Done(blocks + rest, outcome, st2)
           case fail => fail)
        case other => other
  }

  // ---------- A run is re-entrant ----------

  predicate ReadsBelow(p: Pure<nat>, n: nat) {
    match p
    case Var(slot) => slot < n
    case Neg(q) => ReadsBelow(q, n)
    case Bin(_, l, r) => ReadsBelow(l, n) && ReadsBelow(r, n)
    case TupleIndex(t, _) => ReadsBelow(t, n)
    case Load(_, f, o) => ReadsBelow(f, n) && ReadsBelow(o, n)
    case _ => true
  }

  /** Every instruction reads slots below `next` only; a store goes to `next` itself, which then moves on. */
  predicate WritesFresh(ops: seq<Op>, next: nat) {
    ops == [] ||
    (match ops[0]
     case SetTemp(p) => ReadsBelow(p, next) && WritesFresh(ops[1..], next)
     case SetVar(slot, p) => slot == next && ReadsBelow(p, next) && WritesFresh(ops[1..], next + 1)
     case _ => false)
  }

  lemma {:induction false} ResolvedReadsBelow(p: Pure<string>, st: Slots)
    requires st.Valid() && Resolve(p, st.vars).Some?
    ensures ReadsBelow(Resolve(p, st.vars).value, st.next)
  {
    match p
    case Neg(q) => ResolvedReadsBelow(q, st);
    case Bin(_, l, r) =>
      ResolvedReadsBelow(l, st);
      ResolvedReadsBelow(r, st);
    case TupleIndex(t, _) => ResolvedReadsBelow(t, st);
    case Load(_, f, o) =>
      ResolvedReadsBelow(f, st);
      ResolvedReadsBelow(o, st);
    case _ =>
  }

  lemma {:induction false} RunWritesFresh(es: seq<Expr>, st: Slots)
    requires forall i :: 0 <= i < |es| ==> AcceptsEntry(es[i])
    requires st.Valid() && CompileRun(es, st).RunDone?
    ensures WritesFresh(CompileRun(es, st).ops, st.next)
    ensures CompileRun(es, st).st.Valid() && st.next <= CompileRun(es, st).st.next
  {
    if es != [] {
      var c := CompileOp(es[0], st);
      ResolvedReadsBelow(if es[0].P? then es[0].pure else es[0].init.pure, st);
      RunWritesFresh(es[1..], c.st);
      var ops := CompileRun(es[1..], c.st).ops;
      assert (c.ops + ops)[0] == c.ops[0] && (c.ops + ops)[1..] == ops;
    }
  }

  predicate SameBelow(a: map<nat, Word>, b: map<nat, Word>, n: nat) {
    a.Keys == b.Keys && forall k :: k in a && k < n ==> a[k] == b[k]
  }

  lemma {:induction false} SameValue(p: Pure<nat>, a: map<nat, Word>, b: map<nat, Word>, n: nat, mem: Mem)
    requires ReadsBelow(p, n) && SameBelow(a, b, n)
    ensures PureEval(p, a, mem) == PureEval(p, b, mem)
  {
    hide ApplyBin, LoadLE, Wrap;
    match p
    case Neg(q) => SameValue(q, a, b, n, mem);
    case Bin(_, l, r) =>
      SameValue(l, a, b, n, mem);
      SameValue(r, a, b, n, mem);
    case TupleIndex(t, _) => SameValue(t, a, b, n, mem);
    case Load(_, f, o) =>
      SameValue(f, a, b, n, mem);
      SameValue(o, a, b, n, mem);
    case _ =>
  }

  lemma {:induction false} RunOpsAppend(world: World, x: seq<Op>, y: seq<Op>, m: M)
    ensures RunOps(world, x + y, m) ==
      if RunOps(world, x, m).Next? then RunOps(world, y, RunOps(world, x, m).m) else RunOps(world, x, m)
  {
    hide RunOp;
    if x == [] {
      assert x + y == y;
    } else {
      assert (x + y)[0] == x[0] && (x + y)[1..] == x[1..] + y;
      match RunOp(world, x[0], m)
      case Next(m1) => RunOpsAppend(world, x[1..], y, m1);
      case Stop(_, _) =>
    }
  }

  /** A completed run only adds: slots below `next` stay. */
  lemma {:induction false} RunKeepsBelow(world: World, ops: seq<Op>, next: nat, m: M)
    requires WritesFresh(ops, next) && RunOps(world, ops, m).Next?
    ensures var m1 := RunOps(world, ops, m).m;
      SameBelow(m.vars, m1.vars, next) && m1.mem == m.mem && m1.trace == m.trace && m1.dying == m.dying
      && m1.jumpArgs == m.jumpArgs
    decreases ops
  {
    hide PureEval;
    if ops != [] {
      var m1 := RunOp(world, ops[0], m).m;
      RunKeepsBelow(world, ops[1..], if ops[0].SetVar? then next + 1 else next, m1);
    }
  }

  predicate SetsTemp(ops: seq<Op>) {
    exists op :: op in ops && op.SetTemp?
  }

  /** Running a run again from its own result, whatever the register holds then, gives that result back. */
  lemma {:induction false} RunAgain(world: World, ops: seq<Op>, next: nat, m: M, n: M)
    requires WritesFresh(ops, next) && RunOps(world, ops, m).Next?
    requires var m1 := RunOps(world, ops, m).m;
      n == m1.(temp := n.temp) && (SetsTemp(ops) || n.temp == m1.temp)
    ensures RunOps(world, ops, n) == RunOps(world, ops, m)
    decreases ops
  {
    if ops != [] {
      var m1 := RunOps(world, ops, m).m;
      var next1 := if ops[0].SetVar? then next + 1 else next;
      var mid := RunOp(world, ops[0], m).m;
      assert RunOps(world, ops[1..], mid) == Next(m1);
      RunKeepsBelow(world, ops[1..], next1, mid);
      RunKeepsBelow(world, ops, next, m);
      SameValue(ops[0].p, m.vars, n.vars, next, m.mem);
      var after := RunOp(world, ops[0], n).m;
      assert RunOp(world, ops[0], n).Next?;
      if ops[0].SetVar? {
        assert mid.vars[next] == m1.vars[next];
        assert after.vars == m1.vars;
        assert SetsTemp(ops) ==> SetsTemp(ops[1..]);
      } else {
        TempAfter(world, ops[1..], next1, mid);
      }
      RunAgain(world, ops[1..], next1, mid, after);
    }
  }

  /** Without a register write, the register is what it was. */
  lemma {:induction false} TempAfter(world: World, ops: seq<Op>, next: nat, m: M)
    requires WritesFresh(ops, next) && RunOps(world, ops, m).Next?
    ensures SetsTemp(ops) || RunOps(world, ops, m).m.temp == m.temp
    decreases ops
  {
    hide PureEval;
    if ops != [] {
      var next1 := if ops[0].SetVar? then next + 1 else next;
      TempAfter(world, ops[1..], next1, RunOp(world, ops[0], m).m);
      assert forall op :: op in ops[1..] ==> op in ops;
      assert ops[0] in ops;
    }
  }

  lemma {:induction false} PrefixWritesFresh(ops: seq<Op>, next: nat, j: nat)
    requires WritesFresh(ops, next) && j <= |ops|
    ensures WritesFresh(ops[..j], next)
    decreases ops
  {
    if j > 0 {
      assert ops[..j][0] == ops[0] && ops[..j][1..] == ops[1..][..j - 1];
      PrefixWritesFresh(ops[1..], if ops[0].SetVar? then next + 1 else next, j - 1);
    }
  }

  /**
   * Re-entry: an actor resumed after any `j` statements of a shared block re-runs the block from its start
   * and ends exactly where the uninterrupted block ends. With `j` the whole run, running twice is running once.
   */
  lemma {:induction false} ResumeAnywhere(world: World, es: seq<Expr>, st: Slots, j: nat, m: M)
    requires forall i :: 0 <= i < |es| ==> AcceptsEntry(es[i])
    requires st.Valid() && CompileRun(es, st).RunDone? && j <= |es|
    requires RunOps(world, CompileRun(es, st).ops[..j], m).Next?
    ensures var ops := CompileRun(es, st).ops;
      RunOps(world, ops, RunOps(world, ops[..j], m).m) == RunOps(world, ops, m)
  {
    var ops := CompileRun(es, st).ops;
    var m1 := RunOps(world, ops[..j], m).m;
    RunWritesFresh(es, st);
    PrefixWritesFresh(ops, st.next, j);
    assert ops == ops[..j] + ops[j..];
    RunOpsAppend(world, ops[..j], ops[j..], m);
    RunOpsAppend(world, ops[..j], ops[j..], m1);
    RunAgain(world, ops[..j], st.next, m, m1);
  }

  // ---------- A branch body runs as it evaluates ----------

  /** The value of a whole body is not used. */
  function Forget(r: Result): Result {
    if r.Val? then Val(r.s, None) else r
  }

  lemma {:induction false} EvalStmtsSplit(es: seq<Expr>, n: nat, s: State, world: World)
    requires n <= |es|
    ensures var r := EvalStmts(es[..n], s, world);
      Forget(EvalStmts(es, s, world)) == if r.Val? then Forget(EvalStmts(es[n..], r.s, world)) else r
    decreases n
  {
    hide Eval;
    if n == 0 {
      assert es[0..] == es;
    } else {
      assert es[..n][0] == es[0] && es[..n][1..] == es[1..][..n - 1] && es[1..][n - 1..] == es[n..];
      var r := Eval(es[0], s, world);
      if r.Val? {
        EvalStmtsSplit(es[1..], n - 1, r.s, world);
        if |es| == 1 {
          assert es[n..] == [];
        }
      }
    }
  }

  /** What a shared block does against what its statements mean. */
  predicate RunLands(o: Ran, r: Result, st1: Slots, m: M, lo: nat) {
    match r
    case Val(s1, _) =>
      o.Next? && Related(s1, st1, o.m) && SameBelow(m.vars, o.m.vars, lo) && o.m.jumpArgs == m.jumpArgs
    case Halt(why, mem, trace) => o.Stop? && o.why == why && o.m.mem == mem && o.m.trace == trace
    case _ => false
  }

  lemma {:induction false} SimOp(world: World, e: Expr, st: Slots, s: State, m: M, cap: nat)
    requires AcceptsEntry(e) && CompileOp(e, st).RunDone? && CompileOp(e, st).st.next <= cap
    requires st.Valid() && Related(s, st, m) && Roomy(m, cap) && Eval(e, s, world) != Wrong
    ensures RunLands(RunOp(world, CompileOp(e, st).ops[0], m), Eval(e, s, world), CompileOp(e, st).st, m, st.next)
  {
    hide PureEval, StoreLE, LoadLE;
    if e.P? {
      assert Eval(e, s, world) == EvalPure(e.pure, s);
      ResolveAgrees(e.pure, s.env, st.vars, m.vars, m.mem);
    } else {
      assert Eval(e.init, s, world) == EvalPure(e.init.pure, s);
      ResolveAgrees(e.init.pure, s.env, st.vars, m.vars, m.mem);
    }
  }

  lemma {:induction false} SimRun(world: World, es: seq<Expr>, st: Slots, s: State, m: M, cap: nat)
    requires forall i :: 0 <= i < |es| ==> AcceptsEntry(es[i])
    requires CompileRun(es, st).RunDone? && CompileRun(es, st).st.next <= cap
    requires st.Valid() && Related(s, st, m) && Roomy(m, cap) && EvalStmts(es, s, world) != Wrong
    ensures RunLands(RunOps(world, CompileRun(es, st).ops, m), EvalStmts(es, s, world), CompileRun(es, st).st, m, st.next)
    decreases es
  {
    hide Eval, PureEval, RunOp;
    if es != [] {
      var c := CompileOp(es[0], st);
      var rest := CompileRun(es[1..], c.st);
      assert (c.ops + rest.ops)[0] == c.ops[0] && (c.ops + rest.ops)[1..] == rest.ops;
      ResolvedReadsBelow(if es[0].P? then es[0].pure else es[0].init.pure, st);
      RunWritesFresh(es[1..], c.st);
      SimOp(world, es[0], st, s, m, cap);
      var r := Eval(es[0], s, world);
      if r.Val? {
        SimRun(world, es[1..], c.st, r.s, RunOp(world, c.ops[0], m).m, cap);
        if |es| == 1 {
          assert es[1..] == [];
        }
      }
    }
  }

  lemma {:induction false} ShapeOfBody(es: seq<Expr>, id: int, st: Slots)
    requires st.Valid()
    ensures var c := CompileBody(es, id, st);
      c.Done? ==> WithinIds(c.blocks, id, c.outcome.NextAvailable()) && c.st.Valid() && st.next <= c.st.next
    decreases |es|
  {
    hide CompileExpr;
    if es != [] {
      var n := RunLength(es);
      if n >= 2 {
        var run := CompileRun(es[..n], st);
        if run.RunDone? {
          RunWritesFresh(es[..n], st);
          ShapeOfBody(es[n..], id + n, run.st);
        }
      } else {
        ShapeOfExpr(es[0], id, st, 0);
        match CompileExpr(es[0], id, st, 0)
        case Done(_, Continue(next), st1) => ShapeOfBody(es[1..], next, st1);
        case _ =>
      }
    }
  }

  predicate AssumedBody(prog: Program, b: nat, es: seq<Expr>, id: int, st: Slots, s: State, m: M, cap: nat) {
    var out := CompileBody(es, id, st);
    && out.Done? && Ready(prog, b, out.blocks, s, st, m, out.st, cap)
    && ScopedAll(es, s.env.Keys) && RestrainedAll(es, cap) && StagedInAll(es) <= JUMP_ARGS_WORDS
    && EvalStmts(es, s, prog.world) != Wrong
  }

  predicate SimulatedBody(prog: Program, b: nat, es: seq<Expr>, id: int, st: Slots, s: State, m: M, k: nat) {
    var out := CompileBody(es, id, st);
    out.Done? &&
    Lands(prog, b, Steps(prog, At(b, id, m), k), Forget(EvalStmts(es, s, prog.world)), out.outcome, out.st, m, st.next, 0)
  }

  lemma {:induction false} RunScopes(es: seq<Expr>, n: nat, bound: set<string>, cap: nat, s: State, world: World)
    requires n <= |es| && ScopedAll(es, bound) && RestrainedAll(es, cap)
    ensures ScopedAll(es[n..], BoundAll(es[..n], bound)) && RestrainedAll(es[n..], cap)
    ensures StagedInAll(es[n..]) <= StagedInAll(es)
    decreases n
  {
    hide Scoped, Restrained, StagedWords, Bound;
    if n == 0 {
      assert es[0..] == es;
    } else {
      assert es[..n][0] == es[0] && es[..n][1..] == es[1..][..n - 1] && es[1..][n - 1..] == es[n..];
      RunScopes(es[1..], n - 1, Bound(es[0], bound), cap, s, world);
    }
  }

  lemma {:induction false} BoundIsStmtsEnv(es: seq<Expr>, s: State, world: World)
    ensures var r := EvalStmts(es, s, world);
      r.Val? ==> r.s.env.Keys == BoundAll(es, s.env.Keys)
    decreases es
  {
    hide Eval, Bound;
    if es != [] {
      BoundIsEnv(es[0], s, world);
      var r := Eval(es[0], s, world);
      if r.Val? {
        BoundIsStmtsEnv(es[1..], r.s, world);
        if |es| == 1 {
          assert es[1..] == [];
        }
      }
    }
  }

  lemma StepRun(prog: Program, b: nat, id: int, ops: seq<Op>, next: int, m: M)
    requires b in prog.branches && id in prog.branches[b] && prog.branches[b][id] == Block(ops, Goto(next))
    requires !RunOps(prog.world, ops, m).m.dying
    ensures Steps(prog, At(b, id, m), 1) ==
      if RunOps(prog.world, ops, m).Next? then At(b, next, RunOps(prog.world, ops, m).m)
      else Stopped(RunOps(prog.world, ops, m).why, RunOps(prog.world, ops, m).m)
  {
    hide RunOps;
    var c := Step(prog, At(b, id, m));
    assert Steps(prog, c, 0) == c;
  }

  /** A stopped run leaves the actor alive but trapped. */
  lemma {:induction false} RunNeverDies(world: World, ops: seq<Op>, next: nat, m: M)
    requires WritesFresh(ops, next) && !m.dying
    ensures !RunOps(world, ops, m).m.dying
    decreases ops
  {
    hide PureEval;
    if ops != [] {
      var r := RunOp(world, ops[0], m);
      if r.Next? {
        RunNeverDies(world, ops[1..], if ops[0].SetVar? then next + 1 else next, r.m);
      }
    }
  }

  /** What the front run puts into the program, in front of the rest of the body. */
  lemma {:induction false} FrontRunParts(prog: Program, b: nat, es: seq<Expr>, id: int, st: Slots, s: State, m: M, cap: nat)
    requires AssumedBody(prog, b, es, id, st, s, m, cap) && RunLength(es) >= 2
    ensures var n := RunLength(es);
      var run := CompileRun(es[..n], st);
      && run.RunDone? && st.next <= run.st.next && run.st.Valid()
      && id in prog.branches[b] && prog.branches[b][id] == Block(run.ops, Goto(id + n))
      && var rest, out := CompileBody(es[n..], id + n, run.st), CompileBody(es, id, st);
         && rest.Done? && Included(rest.blocks, prog.branches[b]) && run.st.next <= rest.st.next <= cap
         && out.Done? && out.outcome == rest.outcome && out.st == rest.st
  {
    hide CompileExpr, CompileRun, Scoped, Restrained, StagedWords, Bound, EvalStmts, Related, Roomy;
    var n := RunLength(es);
    var run := CompileRun(es[..n], st);
    var rest := CompileBody(es[n..], id + n, run.st);
    RunWritesFresh(es[..n], st);
    ShapeOfBody(es[n..], id + n, run.st);
    var block := Block(run.ops, Goto(id + n));
    IncludedParts(Shared(id, n, block), rest.blocks, prog.branches[b]);
    assert id in Shared(id, n, block);
  }

  /** The front run of a body, in one block. */
  lemma {:induction false} SimFrontRun(prog: Program, b: nat, es: seq<Expr>, id: int, st: Slots, s: State, m: M, cap: nat)
    requires AssumedBody(prog, b, es, id, st, s, m, cap) && RunLength(es) >= 2
    ensures var n := RunLength(es);
      var r, run, end := EvalStmts(es[..n], s, prog.world), CompileRun(es[..n], st), Steps(prog, At(b, id, m), 1);
      && run.RunDone? && st.next <= run.st.next
      && (if r.Val? then
            && end == At(b, id + n, end.m) && Kept(m, end.m, st.next, JUMP_ARGS_WORDS)
            && AssumedBody(prog, b, es[n..], id + n, run.st, r.s, end.m, cap)
          else SimulatedBody(prog, b, es, id, st, s, m, 1))
  {
    hide Eval, PureEval, RunOp, RunOps, Step, Steps, CompileExpr, Scoped, Restrained, StagedWords, Bound, EvalStmts;
    hide CompileRun, CompileBody, Included, RestrainedAll, ScopedAll, StagedInAll;
    var n := RunLength(es);
    var run := CompileRun(es[..n], st);
    FrontRunParts(prog, b, es, id, st, s, m, cap);
    RunWritesFresh(es[..n], st);
    EvalStmtsSplit(es, n, s, prog.world);
    SimRun(prog.world, es[..n], st, s, m, cap);
    RunNeverDies(prog.world, run.ops, st.next, m);
    StepRun(prog, b, id, run.ops, id + n, m);
    RunScopes(es, n, s.env.Keys, cap, s, prog.world);
    BoundIsStmtsEnv(es[..n], s, prog.world);
  }

  /** Branch bodies: the compiled body, from its first block, does what its statements mean. */
  lemma {:induction false} SimBody(prog: Program, b: nat, es: seq<Expr>, id: int, st: Slots, s: State, m: M, cap: nat)
    returns (k: nat)
    requires AssumedBody(prog, b, es, id, st, s, m, cap)
    ensures SimulatedBody(prog, b, es, id, st, s, m, k)
    decreases |es|
  {
    hide Eval, PureEval, RunOp, RunOps, Step, Steps, CompileExpr, Scoped, Restrained, StagedWords, Bound, CompileRun, LetNames;
    if es == [] {
      StepsZero(prog, At(b, id, m));
      k := 0;
    } else if RunLength(es) >= 2 {
      var n := RunLength(es);
      SimFrontRun(prog, b, es, id, st, s, m, cap);
      EvalStmtsSplit(es, n, s, prog.world);
      k := 1;
      if EvalStmts(es[..n], s, prog.world).Val? {
        var m1 := Steps(prog, At(b, id, m), 1).m;
        var run := CompileRun(es[..n], st);
        var more := SimBody(prog, b, es[n..], id + n, run.st, EvalStmts(es[..n], s, prog.world).s, m1, cap);
        StepsAdd(prog, At(b, id, m), 1, more);
        k := 1 + more;
      }
    } else {
      k := SimFirstStmt(prog, b, es, id, st, s, m, cap);
      var r, c := Eval(es[0], s, prog.world), CompileExpr(es[0], id, st, 0);
      if r.Val? {
        var m1 := Steps(prog, At(b, id, m), k).m;
        var more := SimBody(prog, b, es[1..], c.outcome.id, c.st, r.s, m1, cap);
        StepsAdd(prog, At(b, id, m), k, more);
        k := k + more;
      }
    }
  }

  /** A front statement compiled on its own. */
  lemma {:induction false} SimFirstStmt(prog: Program, b: nat, es: seq<Expr>, id: int, st: Slots, s: State, m: M, cap: nat)
    returns (k: nat)
    requires es != [] && RunLength(es) < 2 && AssumedBody(prog, b, es, id, st, s, m, cap)
    ensures var r, c, end := Eval(es[0], s, prog.world), CompileExpr(es[0], id, st, 0), Steps(prog, At(b, id, m), k);
      if r.Val? then
        && c.Done? && c.outcome.Continue? && st.next <= c.st.next
        && end == At(b, c.outcome.id, end.m) && Kept(m, end.m, st.next, 0)
        && AssumedBody(prog, b, es[1..], c.outcome.id, c.st, r.s, end.m, cap)
        && Forget(EvalStmts(es, s, prog.world)) == Forget(EvalStmts(es[1..], r.s, prog.world))
      else SimulatedBody(prog, b, es, id, st, s, m, k)
  {
    hide Eval, PureEval, RunOp, RunOps, Step, Steps, CompileExpr, Scoped, Restrained, StagedWords, Bound, CompileRun, LetNames;
    var r, c := Eval(es[0], s, prog.world), CompileExpr(es[0], id, st, 0);
    ShapeOfExpr(es[0], id, st, 0);
    BoundIsEnv(es[0], s, prog.world);
    if |es| == 1 {
      assert es[1..] == [];
    }
    if c.outcome.Continue? {
      ShapeOfBody(es[1..], c.outcome.id, c.st);
      IncludedParts(c.blocks, CompileBody(es[1..], c.outcome.id, c.st).blocks, prog.branches[b]);
    }
    k := SimExpr(prog, b, es[0], id, st, 0, s, m, cap);
  }

  // ---------- The statement loop ----------

  /** Blocks compiled so far in front of what the rest compiles to. */
  function Prepend(table: BlockTable, c: Compiled): Compiled {
    match c
    case Done(blocks, outcome, st) => Done(table + blocks, outcome, st)
    case fail => fail
  }

  lemma {:induction false} RunExtends(es: seq<Expr>, n: nat)
    requires n < |es| && (forall i :: 0 <= i <= n ==> AcceptsEntry(es[i])) && (n + 1 < |es| ==> !AcceptsEntry(es[n + 1]))
    ensures RunLength(es) == n + 1
    decreases n
  {
    if n > 0 {
      RunExtends(es[1..], n - 1);
    } else if |es| > 1 {
      assert es[1..][0] == es[1];
    }
  }

  lemma {:induction false} RunAppends(es: seq<Expr>, e: Expr, st: Slots)
    requires (forall i :: 0 <= i < |es| ==> AcceptsEntry(es[i])) && AcceptsEntry(e)
    ensures CompileRun(es + [e], st) ==
      match CompileRun(es, st)
      case RunFail => RunFail
      case RunDone(ops, st1) =>
        (match CompileOp(e, st1) case RunFail => RunFail case RunDone(op, st2) => RunDone(ops + op, st2))
    decreases es
  {
    hide CompileOp;
    if es == [] {
      assert es + [e] == [e] && [e][1..] == [];
      match CompileOp(e, st) case RunDone(op, _) => assert op + [] == op && [] + op == op; case RunFail =>
    } else {
      assert (es + [e])[0] == es[0] && (es + [e])[1..] == es[1..] + [e];
      match CompileOp(es[0], st)
      case RunFail =>
      case RunDone(op0, st1) =>
        RunAppends(es[1..], e, st1);
        match CompileRun(es[1..], st1)
        case RunFail =>
        case RunDone(ops, st2) =>
          match CompileOp(e, st2) case RunDone(op, _) => assert op0 + (ops + op) == (op0 + ops) + op; case RunFail =>
    }
  }

  /** A run once failed stays failed. */
  lemma {:induction false} RunFailed(es: seq<Expr>, n: nat, st: Slots)
    requires n <= |es| && (forall i :: 0 <= i < |es| ==> AcceptsEntry(es[i])) && CompileRun(es[..n], st).RunFail?
    ensures CompileRun(es, st).RunFail?
    decreases |es|
  {
    hide CompileOp;
    if n > 0 {
      assert es[..n][0] == es[0] && es[..n][1..] == es[1..][..n - 1];
      match CompileOp(es[0], st)
      case RunFail =>
      case RunDone(_, st1) => RunFailed(es[1..], n - 1, st1);
    }
  }

  /** A body that starts with a run of two statements or more. */
  lemma BodyOfRun(es: seq<Expr>, id: int, st: Slots, n: nat)
    requires RunLength(es) == n >= 2
    ensures CompileBody(es, id, st) ==
      match CompileRun(es[..n], st)
      case RunFail => Fail(UnknownName)
      case RunDone(ops, st1) => Prepend(Shared(id, n, Block(ops, Goto(id + n))), CompileBody(es[n..], id + n, st1))
  {
    hide CompileRun, CompileExpr;
  }

  /** A body that starts with a statement compiled on its own. */
  lemma BodyOfOne(es: seq<Expr>, id: int, st: Slots)
    requires es != [] && RunLength(es) < 2
    ensures CompileBody(es, id, st) ==
      match CompileExpr(es[0], id, st, 0)
      case Done(blocks, Continue(next), st1) => Prepend(blocks, CompileBody(es[1..], next, st1))
      case other => other
  {
    hide CompileRun, CompileExpr;
  }

  lemma PrependTwice(x: BlockTable, y: BlockTable, c: Compiled)
    ensures Prepend(x, Prepend(y, c)) == Prepend(x + y, c)
  {
    match c
    case Done(blocks, _, _) => assert x + (y + blocks) == (x + y) + blocks;
    case Fail(_) =>
  }

  /**
   * The statement loop: one statement at a time, with the super-block under construction. It emits exactly the blocks
   * that the body's runs and single statements stand for.
   */
  method CompileBranchBody(es: seq<Expr>, id0: int, st0: Slots) returns (r: Compiled)
    ensures r == CompileBody(es, id0, st0)
  {
    hide CompileRun, CompileExpr, CompileBody, CompileOp, RunLength, Shared;
    var table: BlockTable := map[];
    var id, st := id0, st0;
    var open := false;
    var ops: seq<Op> := [];
    var first := 0;
    ghost var start := st0;
    var i := 0;
    PrependNothing(CompileBody(es, id0, st0));
    assert es[0..] == es;
    while i < |es|
      invariant 0 <= first <= i <= |es|
      invariant !open ==> first == i && start == st && ops == []
      invariant open ==> first < i && i < |es| && AcceptsEntry(es[i])
      invariant forall j :: first <= j < i ==> AcceptsEntry(es[j])
      invariant open ==> CompileRun(es[first..i], start) == RunDone(ops, st)
      invariant CompileBody(es, id0, st0) == Prepend(table, CompileBody(es[first..], id - (i - first), start))
    {
      var thisFast := AcceptsEntry(es[i]);
      var nextFast := i + 1 < |es| && AcceptsEntry(es[i + 1]);
      var rest := es[first..];
      if thisFast && (open || nextFast) {
        assert es[first..i + 1] == es[first..i] + [es[i]];
        assert !open ==> es[first..i] == [];
        NoRun(start);
        RunAppends(es[first..i], es[i], start);
        match CompileOp(es[i], st) {
          case RunFail =>
            BadRun(es, first, i, id - (i - first), start);
            PrependFail(table, UnknownName);
            return Fail(UnknownName);
          case RunDone(op, st1) =>
            ops, st := ops + op, st1;
        }
        if nextFast {
          open := true;
        } else {
          var n := i + 1 - first;
          RunAt(es, first, i);
          BodyOfRun(es[first..], id - (i - first), start, n);
          assert es[first..][..n] == es[first..i + 1] && es[first..][n..] == es[i + 1..];
          PrependTwice(table, Shared(id - (i - first), n, Block(ops, Goto(id + 1))), CompileBody(es[i + 1..], id + 1, st));
          table := table + Shared(id - (i - first), n, Block(ops, Goto(id + 1)));
          open, ops, first, start := false, [], i + 1, st;
        }
        id := id + 1;
      } else {
        Alone(es, i);
        BodyOfOne(es[i..], id, st);
        assert es[i..][0] == es[i] && es[i..][1..] == es[i + 1..];
        match CompileExpr(es[i], id, st, 0) {
          case Done(blocks, Continue(next), st1) =>
            PrependTwice(table, blocks, CompileBody(es[i + 1..], next, st1));
            table, id, st := table + blocks, next, st1;
            first, start := i + 1, st1;
          case Done(blocks, StateChange(next), st1) =>
            return Done(table + blocks, StateChange(next), st1);
          case Fail(e) =>
            return Fail(e);
        }
      }
      i := i + 1;
    }
    assert es[first..] == [];
    EmptyBody(id, st);
    r := Done(table, Continue(id), st);
    assert table + map[] == table;
  }

  lemma PrependNothing(c: Compiled)
    ensures Prepend(map[], c) == c
  {
    match c case Done(blocks, _, _) => assert map[] + blocks == blocks; case Fail(_) =>
  }

  lemma PrependFail(table: BlockTable, e: CompileError)
    ensures Prepend(table, Fail(e)) == Fail(e)
  {
  }

  lemma NoRun(st: Slots)
    ensures CompileRun([], st) == RunDone([], st)
  {
  }

  lemma EmptyBody(id: int, st: Slots)
    ensures CompileBody([], id, st) == Done(map[], Continue(id), st)
  {
  }

  lemma RunAt(es: seq<Expr>, first: nat, i: nat)
    requires first <= i < |es| && (forall j :: first <= j <= i ==> AcceptsEntry(es[j]))
    requires i + 1 < |es| ==> !AcceptsEntry(es[i + 1])
    ensures RunLength(es[first..]) == i + 1 - first
  {
    RunExtends(es[first..], i - first);
  }

  /** A statement that is slow, or fast between slow ones, is a run of at most one. */
  lemma Alone(es: seq<Expr>, i: nat)
    requires i < |es| && !(AcceptsEntry(es[i]) && i + 1 < |es| && AcceptsEntry(es[i + 1]))
    ensures RunLength(es[i..]) < 2
  {
    if AcceptsEntry(es[i]) {
      RunAt(es, i, i);
    }
  }

  /** A run that fails to compile at some statement fails as a whole. */
  lemma BadRun(es: seq<Expr>, first: nat, i: nat, id: int, st: Slots)
    requires first <= i < |es| && (forall j :: first <= j <= i ==> AcceptsEntry(es[j]))
    requires i > first || (i + 1 < |es| && AcceptsEntry(es[i + 1]))
    requires CompileRun(es[first..i + 1], st).RunFail?
    ensures CompileBody(es[first..], id, st) == Fail(UnknownName)
  {
    hide CompileOp, CompileExpr, CompileRun;
    var rest := es[first..];
    var n := RunLength(rest);
    RunCovers(rest, i + 1 - first);
    if i + 1 < |es| && AcceptsEntry(es[i + 1]) {
      RunCovers(rest, i + 2 - first);
    }
    BodyOfRun(rest, id, st, n);
    assert rest[..n][..i + 1 - first] == es[first..i + 1];
    RunFailed(rest[..n], i + 1 - first, st);
  }

  lemma {:induction false} RunCovers(es: seq<Expr>, n: nat)
    requires n <= |es| && forall i :: 0 <= i < n ==> AcceptsEntry(es[i])
    ensures RunLength(es) >= n
    decreases n
  {
    if n > 0 {
      RunCovers(es[1..], n - 1);
    }
  }
}
