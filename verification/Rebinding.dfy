/** Arms that re-bind outer names: when that does no harm, and what a later read finds. */
module Rebinding {
  import opened Words
  import opened Lake
  import opened BlockMachine
  import opened BlockCompiler
  import opened CompilerShape
  import opened CompilerCorrect
  import opened SuperBlock

  // ---------- Names that are read ----------

  predicate ReadsIn(p: Pure<string>, bound: set<string>) {
    match p
    case Var(x) => x in bound
    case Neg(q) => ReadsIn(q, bound)
    case Bin(_, l, r) => ReadsIn(l, bound) && ReadsIn(r, bound)
    case TupleIndex(t, _) => ReadsIn(t, bound)
    case Load(_, f, o) => ReadsIn(f, bound) && ReadsIn(o, bound)
    case _ => true
  }

  /** Every name read is in `bound` or bound on the way. */
  predicate Closed(e: Expr, bound: set<string>)
    decreases e, 1
  {
    match e
    case P(p) => ReadsIn(p, bound)
    case Str(_, _, _) => true
    case Let(_, init) => Closed(init, bound)
    case When(cond, arms) => Closed(cond, bound) && ClosedArms(arms, Bound(cond, bound))
    case Call(c, args) => ClosedAll(args, bound) && (c.Send? ==> c.pid in BoundAll(args, bound))
    case SelfCall(args) => ClosedAll(args, bound)
  }

  predicate ClosedAll(es: seq<Expr>, bound: set<string>)
    decreases es, 0
  {
    es == [] || (Closed(es[0], bound) && ClosedAll(es[1..], Bound(es[0], bound)))
  }

  predicate ClosedArms(arms: seq<Arm>, bound: set<string>)
    decreases arms, 0
  {
    arms == [] || (ClosedAll(arms[0].body, bound) && ClosedArms(arms[1..], bound))
  }

  lemma {:induction false} ClosedArm(arms: seq<Arm>, i: nat, bound: set<string>)
    requires ClosedArms(arms, bound) && i < |arms|
    ensures ClosedAll(arms[i].body, bound)
    decreases arms
  {
    hide ClosedAll;
    if i > 0 {
      ClosedArm(arms[1..], i - 1, bound);
    }
  }

  // ---------- Evaluation does not depend on names that are not read ----------

  /** `t` knows some of the names `s` knows, and else they agree. */
  predicate Within(t: State, s: State) {
    && t.mem == s.mem && t.trace == s.trace
    && forall x :: x in t.env ==> x in s.env && s.env[x] == t.env[x]
  }

  /** The same result, with fewer names in scope. */
  predicate SameResult(r: Result, q: Result) {
    match q
    case Val(t, v) => r.Val? && r.v == v && Within(t, r.s)
    case _ => r == q
  }

  predicate SameArgs(r: ArgsResult, q: ArgsResult) {
    match q
    case Args(t, ws) => r.Args? && r.words == ws && Within(t, r.s)
    case Early(q1) => r == q
  }

  lemma {:induction false} PureFrame(p: Pure<string>, small: map<string, Word>, env: map<string, Word>, mem: Mem)
    requires ReadsIn(p, small.Keys) && forall x :: x in small ==> x in env && env[x] == small[x]
    ensures PureEval(p, env, mem) == PureEval(p, small, mem)
  {
    hide ApplyBin, LoadLE, Wrap;
    match p
    case Neg(q) => PureFrame(q, small, env, mem);
    case Bin(_, l, r) =>
      PureFrame(l, small, env, mem);
      PureFrame(r, small, env, mem);
    case TupleIndex(t, _) => PureFrame(t, small, env, mem);
    case Load(_, f, o) =>
      PureFrame(f, small, env, mem);
      PureFrame(o, small, env, mem);
    case _ =>
  }

  lemma {:induction false} EvalFrame(e: Expr, t: State, s: State, world: World)
    requires Within(t, s) && Closed(e, t.env.Keys)
    ensures SameResult(Eval(e, s, world), Eval(e, t, world))
    decreases e, 1
  {
    hide PureEval, StoreLE;
    match e
    case P(p) => PureFrame(p, t.env, s.env, t.mem);
    case Str(_, _, _) =>
    case Let(_, init) => EvalFrame(init, t, s, world);
    case When(_, _) => WhenFrame(e, t, s, world);
    case Call(c, args) => CallFrame(c, args, t, s, world);
    case SelfCall(args) => ArgsFrame(args, t, s, world);
  }

  lemma {:induction false} CallFrame(c: Callee<string>, args: seq<Expr>, t: State, s: State, world: World)
    requires Within(t, s) && ClosedAll(args, t.env.Keys) && (c.Send? ==> c.pid in BoundAll(args, t.env.Keys))
    ensures SameResult(Eval(Call(c, args), s, world), Eval(Call(c, args), t, world))
    decreases args, 2
  {
    hide Bound, Closed;
    ArgsFrame(args, t, s, world);
    BoundIsArgsEnv(args, t, world);
  }

  lemma {:induction false} WhenFrame(e: Expr, t: State, s: State, world: World)
    requires e.When? && Within(t, s) && Closed(e, t.env.Keys)
    ensures SameResult(Eval(e, s, world), Eval(e, t, world))
    decreases e, 0
  {
    hide EvalStmts, Bound, IndexOf, ClosedAll;
    EvalFrame(e.cond, t, s, world);
    BoundIsEnv(e.cond, t, world);
    var q := Eval(e.cond, t, world);
    if q.Val? && q.v.Some? && Select(e.arms, q.v.value).Some? {
      var i := Select(e.arms, q.v.value).value;
      ClosedArm(e.arms, i, q.s.env.Keys);
      StmtsFrame(e.arms[i].body, q.s, Eval(e.cond, s, world).s, world);
    }
  }

  lemma {:induction false} StmtsFrame(es: seq<Expr>, t: State, s: State, world: World)
    requires Within(t, s) && ClosedAll(es, t.env.Keys)
    ensures SameResult(EvalStmts(es, s, world), EvalStmts(es, t, world))
    decreases es, 0
  {
    hide Bound, Closed;
    if es != [] {
      EvalFrame(es[0], t, s, world);
      BoundIsEnv(es[0], t, world);
      var q := Eval(es[0], t, world);
      if q.Val? && |es| > 1 {
        StmtsFrame(es[1..], q.s, Eval(es[0], s, world).s, world);
      }
    }
  }

  lemma {:induction false} ArgsFrame(es: seq<Expr>, t: State, s: State, world: World)
    requires Within(t, s) && ClosedAll(es, t.env.Keys)
    ensures SameArgs(EvalArgs(es, s, world), EvalArgs(es, t, world))
    decreases es, 0
  {
    hide Bound, Closed;
    if es != [] {
      EvalFrame(es[0], t, s, world);
      BoundIsEnv(es[0], t, world);
      var q := Eval(es[0], t, world);
      if q.Val? && q.v.Some? {
        ArgsFrame(es[1..], q.s, Eval(es[0], s, world).s, world);
      }
    }
  }

  // ---------- Re-binding without harm ----------

  /** Names that stay usable in the arms of a `when` and behind it. */
  function Usable(e: Expr, bound: set<string>): set<string>
    requires e.When?
  {
    Bound(e.cond, bound) - ArmNames(e.arms)
  }

  /** What the machine shows at the end of a body, names aside. */
  predicate BodyLands(prog: Program, b: nat, c: Cfg, r: Result, outcome: Outcome) {
    match r
    case Val(s, _) =>
      outcome.Continue? && c == At(b, outcome.id, c.m) && c.m.mem == s.mem && c.m.trace == s.trace && !c.m.dying
    case Again(words, mem, trace) =>
      c == At(prog.pick(words), 0, c.m) && Holds(c.m.vars, 0, words) && c.m.mem == mem && c.m.trace == trace && !c.m.dying
    case Halt(why, mem, trace) => c == Stopped(why, c.m) && c.m.mem == mem && c.m.trace == trace
    case Wrong => false
  }

  /** What is left of a body from a `when` that re-binds names, none of which is read in its arms or behind it. */
  predicate Harmless(es: seq<Expr>, bound: set<string>) {
    && es != [] && es[0].When? && !Tabular(es[0].arms)
    && (var usable := Usable(es[0], bound);
        && Scoped(es[0].cond, bound)
        && ScopedArms(es[0].arms, usable) && ClosedArms(es[0].arms, usable)
        && ScopedAll(es[1..], usable) && ClosedAll(es[1..], usable))
  }

  /** The `when` without the outer values of the names it re-binds means the same. */
  lemma WithoutIsWhen(e: Expr, s: State, world: World)
    requires e.When? && ClosedArms(e.arms, Usable(e, s.env.Keys))
    ensures SameResult(Eval(e, s, world), EvalWithout(e, ArmNames(e.arms), s, world))
    ensures var q := EvalWithout(e, ArmNames(e.arms), s, world); q.Val? ==> q.s.env.Keys == Usable(e, s.env.Keys)
  {
    hide EvalStmts, Bound, IndexOf, ClosedAll, ArmNames;
    BoundIsEnv(e.cond, s, world);
    var r := Eval(e.cond, s, world);
    if r.Val? && r.v.Some? {
      var t1 := r.s.(env := r.s.env - ArmNames(e.arms));
      assert t1.env.Keys == Usable(e, s.env.Keys);
      if Select(e.arms, r.v.value).Some? {
        var i := Select(e.arms, r.v.value).value;
        ClosedArm(e.arms, i, t1.env.Keys);
        StmtsFrame(e.arms[i].body, t1, r.s, world);
      }
    }
  }

  /** The compiled body in front of and behind its first `when`. */
  lemma {:induction false} FirstWhen(es: seq<Expr>, id: int, st: Slots)
    requires es != [] && es[0].When? && st.Valid() && CompileBody(es, id, st).Done?
    ensures var c, out := CompileExpr(es[0], id, st, 0), CompileBody(es, id, st);
      && c.Done? && c.outcome.Continue? && c.st.Valid() && st.next <= c.st.next
      && var rest := CompileBody(es[1..], c.outcome.id, c.st);
         && rest.Done? && rest.outcome == out.outcome && rest.st == out.st && c.st.next <= rest.st.next
         && forall table :: Included(out.blocks, table) ==> Included(c.blocks, table) && Included(rest.blocks, table)
  {
    hide CompileArms, CompileStmts, LetNames;
    var c, out := CompileExpr(es[0], id, st, 0), CompileBody(es, id, st);
    ShapeOfExpr(es[0], id, st, 0);
    assert CompileExpr(es[0], id, st, 0) == CompileWhen(es[0], id, st, 0);
    var rest := CompileBody(es[1..], c.outcome.id, c.st);
    ShapeOfBody(es[1..], c.outcome.id, c.st);
    forall table | Included(out.blocks, table) ensures Included(c.blocks, table) && Included(rest.blocks, table) {
      IncludedParts(c.blocks, rest.blocks, table);
    }
  }

  lemma RestAfter(es: seq<Expr>, s: State, world: World)
    requires es != [] && EvalStmts(es, s, world) != Wrong
    ensures var r := Eval(es[0], s, world);
      && r != Wrong
      && Forget(EvalStmts(es, s, world)) == (if r.Val? then Forget(EvalStmts(es[1..], r.s, world)) else r)
      && (r.Val? ==> EvalStmts(es[1..], r.s, world) != Wrong)
  {
    hide Eval;
    if |es| == 1 {
      assert es[1..] == [];
    }
  }

  /** Re-binding does no harm: the rest of the body runs as it evaluates. */
  lemma {:induction false} HarmlessShadowing(prog: Program, b: nat, es: seq<Expr>, id: int, st: Slots, s: State, m: M,
      cap: nat)
    returns (k: nat)
    requires Harmless(es, s.env.Keys) && CompileBody(es, id, st).Done?
    requires Ready(prog, b, CompileBody(es, id, st).blocks, s, st, m, CompileBody(es, id, st).st, cap)
    requires RestrainedAll(es, cap) && StagedInAll(es) <= JUMP_ARGS_WORDS && EvalStmts(es, s, prog.world) != Wrong
    ensures BodyLands(prog, b, Steps(prog, At(b, id, m), k), Forget(EvalStmts(es, s, prog.world)), CompileBody(es, id, st).outcome)
  {
    hide PureEval, Step, Steps, CompileExpr, CompileBody, EvalStmts, EvalWithout, Eval, Bound, ArmNames, ScopedAll, ClosedAll;
    hide ScopedArms, ClosedArms, Scoped, Restrained, StagedWords, Related;
    var e, names := es[0], ArmNames(es[0].arms);
    var c := CompileExpr(e, id, st, 0);
    FirstWhen(es, id, st);
    WithoutIsWhen(e, s, prog.world);
    RestAfter(es, s, prog.world);
    CondDefined(e, s, prog.world);
    var q := EvalWithout(e, names, s, prog.world);
    k := SimDispatch(prog, b, e, names, id, st, 0, s, m, cap);
    if q.Val? {
      var m1 := Steps(prog, At(b, id, m), k).m;
      var s1 := Eval(e, s, prog.world).s;
      StmtsFrame(es[1..], q.s, s1, prog.world);
      var more := SimBody(prog, b, es[1..], c.outcome.id, c.st, q.s, m1, cap);
      StepsAdd(prog, At(b, id, m), k, more);
      k := k + more;
      var end := Steps(prog, At(b, id, m), k);
      LandsBare(prog, b, end, Forget(EvalStmts(es[1..], q.s, prog.world)), CompileBody(es, id, st).outcome,
                CompileBody(es, id, st).st, m1, c.st.next);
    } else {
      LandsBare(prog, b, Steps(prog, At(b, id, m), k), q, c.outcome, c.st, m, st.next);
    }
  }

  lemma CondDefined(e: Expr, s: State, world: World)
    requires e.When? && Eval(e, s, world) != Wrong
    ensures Eval(e.cond, s, world) != Wrong
  {
    hide EvalStmts, Select;
  }

  lemma LandsBare(prog: Program, b: nat, c: Cfg, r: Result, outcome: Outcome, st: Slots, m: M, lo: nat)
    requires Lands(prog, b, c, r, outcome, st, m, lo, 0)
    ensures BodyLands(prog, b, c, r, outcome)
  {
  }

  // ---------- Which names move to another slot ----------

  /** Compiles into a jump out of the branch: what follows it in its list is not compiled. */
  predicate Terminal(e: Expr) {
    match e
    case SelfCall(_) => true
    case Let(_, init) => Terminal(init)
    case _ => false
  }

  /** Names let-bound in the statements that get compiled, taken or not. */
  function Rebound(e: Expr): set<string>
    decreases e, 1
  {
    match e
    case P(_) => {}
    case Str(_, _, _) => {}
    case Let(x, init) => Rebound(init) + (if Terminal(init) then {} else {x})
    case When(cond, arms) => Rebound(cond) + (if Tabular(arms) then {} else ReboundInArms(arms))
    case Call(_, args) => ReboundInAll(args)
    case SelfCall(args) => ReboundInAll(args)
  }

  function ReboundInAll(es: seq<Expr>): set<string>
    decreases es, 0
  {
    if es == [] then {} else Rebound(es[0]) + (if Terminal(es[0]) then {} else ReboundInAll(es[1..]))
  }

  function ReboundInArms(arms: seq<Arm>): set<string>
    decreases arms, 0
  {
    if arms == [] then {} else ReboundInAll(arms[0].body) + ReboundInArms(arms[1..])
  }

  /** From `st` to `st1` the names in `names` got new slots, and no other name moved. */
  predicate Moves(st: Slots, st1: Slots, names: set<string>) {
    && st.next <= st1.next && st1.vars.Keys == st.vars.Keys + names
    && (forall x :: x in names ==> st1.vars[x] >= st.next)
    && (forall x :: x in st.vars && x !in names ==> st1.vars[x] == st.vars[x])
  }

  lemma MovesNone(st: Slots)
    ensures Moves(st, st, {})
  {
  }

  lemma MovesTwice(st: Slots, st1: Slots, st2: Slots, a: set<string>, b: set<string>)
    requires Moves(st, st1, a) && Moves(st1, st2, b)
    ensures Moves(st, st2, a + b)
  {
  }

  /** Compiling an expression moves exactly the names it re-binds. */
  lemma {:induction false} SlotsOfExpr(e: Expr, id: int, st: Slots, base: nat)
    ensures var c := CompileExpr(e, id, st, base);
      c.Done? ==> Moves(st, c.st, Rebound(e)) && (c.outcome.StateChange? <==> Terminal(e))
    decreases e, 2
  {
    hide Resolve, ResolveAll, ConstFold;
    match e
    case P(_) =>
    case Str(_, _, _) =>
    case Let(x, init) => SlotsOfExpr(init, id, st, base);
    case When(_, _) => SlotsOfWhen(e, id, st, base);
    case Call(_, args) =>
      SlotsOfArgs(args, id, st, base + |args|, base);
      PureBindsNothing(args);
    case SelfCall(args) =>
      SlotsOfArgs(args, id, st, base + |args|, base);
      PureBindsNothing(args);
  }

  lemma {:induction false} PureBindsNothing(es: seq<Expr>)
    ensures AllPure(es) ==> ReboundInAll(es) == {}
    decreases es
  {
    if AllPure(es) && es != [] {
      assert es[0] in es;
      PureBindsNothing(es[1..]);
    }
  }

  lemma {:induction false} SlotsOfWhen(e: Expr, id: int, st: Slots, base: nat)
    requires e.When?
    ensures var c := CompileExpr(e, id, st, base);
      c.Done? ==> Moves(st, c.st, Rebound(e)) && c.outcome.Continue?
    decreases e, 1
  {
    hide ConstFold, ReboundInArms, CompileArms, Cases, Default, Redirects, Moves, TableValues;
    assert CompileExpr(e, id, st, base) == CompileWhen(e, id, st, base);
    SlotsOfExpr(e.cond, id, st, base);
    var c := CompileExpr(e.cond, id, st, base);
    if c.Done? && c.outcome.Continue? {
      SlotsOfArms(e.arms, c.outcome.id + 1, c.st, base);
      var arms := CompileArms(e.arms, c.outcome.id + 1, c.st, base);
      if Tabular(e.arms) {
        assert Rebound(e) == Rebound(e.cond);
      } else if arms.ArmsDone? {
        MovesTwice(st, c.st, arms.st, Rebound(e.cond), ReboundInArms(e.arms));
      }
    }
  }

  lemma {:induction false} SlotsOfArgs(es: seq<Expr>, id: int, st: Slots, inner: nat, k: nat)
    ensures var c := CompileArgs(es, id, st, inner, k); c.ArgsDone? ==> Moves(st, c.st, ReboundInAll(es))
    decreases es, 0
  {
    hide CompileExpr, Moves, Rebound;
    if es == [] {
      MovesNone(st);
    } else {
      SlotsOfExpr(es[0], id, st, inner);
      var c := CompileExpr(es[0], id, st, inner);
      if c.Done? && c.outcome.Continue? {
        SlotsOfArgs(es[1..], c.outcome.id + 1, c.st, inner, k + 1);
        var rest := CompileArgs(es[1..], c.outcome.id + 1, c.st, inner, k + 1);
        if rest.ArgsDone? {
          MovesTwice(st, c.st, rest.st, Rebound(es[0]), ReboundInAll(es[1..]));
        }
      }
    }
  }

  lemma {:induction false} SlotsOfStmts(es: seq<Expr>, id: int, st: Slots, base: nat)
    ensures var c := CompileStmts(es, id, st, base); c.Done? ==> Moves(st, c.st, ReboundInAll(es))
    decreases es, 0
  {
    hide CompileExpr, Moves, Rebound;
    if es == [] {
      MovesNone(st);
    } else {
      SlotsOfExpr(es[0], id, st, base);
      var c := CompileExpr(es[0], id, st, base);
      if c.Done? && c.outcome.Continue? {
        SlotsOfStmts(es[1..], c.outcome.id, c.st, base);
        var rest := CompileStmts(es[1..], c.outcome.id, c.st, base);
        if rest.Done? {
          MovesTwice(st, c.st, rest.st, Rebound(es[0]), ReboundInAll(es[1..]));
        }
      } else if c.Done? {
        assert ReboundInAll(es) == Rebound(es[0]);
      }
    }
  }

  lemma {:induction false} SlotsOfArms(arms: seq<Arm>, id: int, st: Slots, base: nat)
    ensures var c := CompileArms(arms, id, st, base); c.ArmsDone? ==> Moves(st, c.st, ReboundInArms(arms))
    decreases arms, 0
  {
    hide CompileStmts, Moves, ReboundInAll;
    if arms == [] {
      MovesNone(st);
    } else {
      SlotsOfStmts(arms[0].body, id, st, base);
      var c := CompileStmts(arms[0].body, id, st, base);
      if c.Done? && |arms| > 1 {
        SlotsOfArms(arms[1..], c.outcome.NextAvailable() + 1, c.st, base);
        var rest := CompileArms(arms[1..], c.outcome.NextAvailable() + 1, c.st, base);
        if rest.ArmsDone? {
          MovesTwice(st, c.st, rest.st, ReboundInAll(arms[0].body), ReboundInArms(arms[1..]));
        }
      } else if c.Done? {
        assert arms[1..] == [];
        assert ReboundInArms(arms) == ReboundInAll(arms[0].body);
      }
    }
  }

  // ---------- What a later read finds ----------

  /** VARIABLES with the same buffers that hold every name's value. */
  predicate Alike(s: State, st: Slots, m: M, vars: map<nat, Word>) {
    vars.Keys == m.vars.Keys && Agree(s.env, st.vars, vars)
  }

  /** Behind the `when`, with these VARIABLES before it, the slot `x` has then holds the source's value. */
  ghost predicate ReadsRight(prog: Program, b: nat, e: Expr, id: int, st: Slots, base: nat, s: State, m: M, x: string,
      vars: map<nat, Word>)
    requires CompileExpr(e, id, st, base).Done? && x in s.env
  {
    var c, st1 := Steps(prog, At(b, id, m.(vars := vars)), 2), CompileExpr(e, id, st, base).st;
    && c.m.trace == m.trace && x in st1.vars && st1.vars[x] in c.m.vars && c.m.vars[st1.vars[x]] == s.env[x]
  }

  /**
   * A `when` with a pure condition that selects no arm. Whatever VARIABLES hold beyond the values in scope, a read of
   * `x` behind it finds the source's value, if and only if no compiled arm re-binds `x`.
   */
  lemma {:induction false} ReadExact(prog: Program, b: nat, e: Expr, id: int, st: Slots, base: nat, s: State, m: M,
      cap: nat, d: Word, x: string)
    requires e.When? && e.cond.P? && !Tabular(e.arms) && x in s.env
    requires PureEval(e.cond.pure, s.env, s.mem) == Ok(d) && Select(e.arms, d) == None
    requires AssumedWhen(prog, b, e, id, st, base, s, m, cap)
    ensures (forall vars :: Alike(s, st, m, vars) ==> ReadsRight(prog, b, e, id, st, base, s, m, x, vars)) <==>
            x !in ReboundInArms(e.arms)
  {
    hide PureEval, Steps, CompileExpr, ReboundInArms, Scoped, Restrained, StagedWords, LetNames;
    SlotsOfExpr(e, id, st, base);
    ShapeOfExpr(e, id, st, base);
    var st1 := CompileExpr(e, id, st, base).st;
    assert Rebound(e) == ReboundInArms(e.arms) by {
      assert Rebound(e.cond) == {};
    }
    forall vars | Alike(s, st, m, vars)
      ensures Steps(prog, At(b, id, m.(vars := vars)), 2).m.vars == vars
      ensures Steps(prog, At(b, id, m.(vars := vars)), 2).m.trace == m.trace
    {
      SkipsArms(prog, b, e, id, st, base, s, m.(vars := vars), cap, d);
    }
    if x in ReboundInArms(e.arms) {
      var slot := st1.vars[x];
      assert slot >= st.next && slot in m.vars;
      var vars := m.vars[slot := if s.env[x] == 0 then 1 else 0];
      assert Alike(s, st, m, vars);
      assert vars[slot] != s.env[x];
      assert !ReadsRight(prog, b, e, id, st, base, s, m, x, vars);
    }
  }

  /** No arm selected: the test block, the dispatch block, and VARIABLES as they were. */
  lemma {:induction false} SkipsArms(prog: Program, b: nat, e: Expr, id: int, st: Slots, base: nat, s: State, m: M,
      cap: nat, d: Word)
    requires e.When? && e.cond.P? && !Tabular(e.arms)
    requires PureEval(e.cond.pure, s.env, s.mem) == Ok(d) && Select(e.arms, d) == None
    requires AssumedWhen(prog, b, e, id, st, base, s, m, cap)
    ensures var out := CompileExpr(e, id, st, base);
      Steps(prog, At(b, id, m), 2) == At(b, out.outcome.NextAvailable(), m.(temp := d))
  {
    hide PureEval, Step, Steps, CompileArms, Scoped, Restrained, StagedWords, Select;
    WhenParts(prog, b, e, id, st, base, s, m, cap);
    var c := CompileExpr(e.cond, id, st, base);
    var arms := CompileArms(e.arms, c.outcome.id + 1, c.st, base);
    TestStep(prog, b, e, id, st, base, s, m, cap, d);
    StepDispatch(prog, b, id + 1, e.arms, arms, m.(temp := d));
    StepsAdd(prog, At(b, id, m), 1, 1);
  }

  lemma TestStep(prog: Program, b: nat, e: Expr, id: int, st: Slots, base: nat, s: State, m: M, cap: nat, d: Word)
    requires e.When? && e.cond.P? && PureEval(e.cond.pure, s.env, s.mem) == Ok(d)
    requires Assumed(prog, b, e.cond, id, st, base, s, m, cap)
    ensures CompileExpr(e.cond, id, st, base).outcome == Continue(id + 1)
    ensures Steps(prog, At(b, id, m), 1) == At(b, id + 1, m.(temp := d))
  {
    hide PureEval, Step, Steps;
    ResolveAgrees(e.cond.pure, s.env, st.vars, m.vars, m.mem);
    StepOp(prog, b, id, SetTemp(Resolve(e.cond.pure, st.vars).value), Goto(id + 1), m);
  }
}
