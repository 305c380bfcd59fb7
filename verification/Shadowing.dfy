/** Why an arm must not re-bind a name from outside it: names resolve in compilation order, not in execution order. */
module Shadowing {
  import opened Words
  import opened Lake
  import opened BlockMachine
  import opened BlockCompiler
  import opened CompilerShape
  import opened CompilerCorrect
  import opened SuperBlock

  // ---------- A run with the wrong word ----------

  const REBINDING: Arm := Arm(BoolKey(true), [Let("x", P(Num(2)))])

  const CHOICE: Expr := When(P(Bool(false)), [REBINDING])

  const PUT: Expr := Call(Rt("put"), [P(Var("x"))])

  /** `let x = 1; when false { true -> let x = 2 }; put(x)` */
  const BODY: seq<Expr> := [Let("x", P(Num(1))), CHOICE, PUT]

  const OUTER: Slots := Slots(map["x" := 0], 1)
  const INNER: Slots := Slots(map["x" := 1], 2)

  const EMPTY: Slots := Slots(map[], 0)

  const BIND_BLOCK: Block := Block([SetVar(0, Num(1))], Goto(1))
  const TEST_BLOCK: Block := Block([SetTemp(Bool(false))], Goto(2))
  const SWITCH_BLOCK: Block := Block([], Switch(map[1 := 3], 5))
  const ARM_BLOCK: Block := Block([SetVar(1, Num(2))], Goto(4))
  const PUT_BLOCK: Block := Block([InvokeFused(Rt("put"), [Var(1)])], Goto(6))

  const CHOICE_TABLE: BlockTable :=
    map[1 := TEST_BLOCK] + Single(2, SWITCH_BLOCK) + map[3 := ARM_BLOCK] + Redirects([4], 5)

  /** The blocks the body compiles to. */
  const TABLE: BlockTable := map[0 := BIND_BLOCK] + (CHOICE_TABLE + (map[5 := PUT_BLOCK] + map[]))

  lemma InTable()
    ensures forall id :: id in TABLE <==> 0 <= id < 6
    ensures TABLE[0] == BIND_BLOCK && TABLE[1] == TEST_BLOCK && TABLE[2] == SWITCH_BLOCK && TABLE[5] == PUT_BLOCK
  {
  }

  lemma CompiledArm()
    ensures CompileArms([REBINDING], 3, OUTER, 0) == ArmsDone(map[3 := ARM_BLOCK], [3], [4], 5, INNER)
  {
    var body := REBINDING.body;
    assert body[1..] == [];
    assert CompileExpr(body[0], 3, OUTER, 0) == Done(map[3 := ARM_BLOCK], Continue(4), INNER);
    assert CompileStmts([], 4, INNER, 0) == Done(map[], Continue(4), INNER);
    assert CompileStmts(body, 3, OUTER, 0) == Done(map[3 := ARM_BLOCK], Continue(4), INNER);
  }

  lemma CompiledChoice()
    ensures CompileExpr(CHOICE, 1, OUTER, 0) ==
      Done(CHOICE_TABLE, Continue(5), INNER)
  {
    hide CompileArms, Redirects, CompileStmts, ConstFold;
    CompiledArm();
    var arms := [REBINDING];
    assert CHOICE.arms == arms && arms[0].key == BoolKey(true);
    assert CompileExpr(CHOICE.cond, 1, OUTER, 0) == Done(map[1 := TEST_BLOCK], Continue(2), OUTER);
    assert !Tabular(arms) && !AllWildcards(arms) && !ManyWildcards(arms) && !DuplicateKeys(arms);
    assert Cases(arms, [3]) == map[1 := 3] && Default(arms, [3], 5) == 5;
    assert CompileExpr(CHOICE, 1, OUTER, 0) == CompileWhen(CHOICE, 1, OUTER, 0);
  }

  lemma CompiledPut()
    ensures CompileExpr(PUT, 5, INNER, 0) == Done(map[5 := PUT_BLOCK], Continue(6), INNER)
  {
    var args := PUT.args;
    var none: seq<Expr> := args[1..];
    assert none == [];
    assert ResolveAll(none, INNER.vars) == Some([]);
    assert Resolve(args[0].pure, INNER.vars) == Some(Var(1));
    var ps: seq<Pure<nat>> := [Var(1)] + [];
    assert ps == [Var(1)];
    assert ResolveAll(args, INNER.vars) == Some(ps);
  }

  lemma CompiledBody()
    ensures CompileBody(BODY, 0, EMPTY) == Done(TABLE, Continue(6), INNER)
  {
    hide CompileExpr;
    CompiledChoice();
    CompiledPut();
    CompiledBind();
    var rest := BODY[1..];
    assert rest == [CHOICE, PUT] && rest[1..] == [PUT] && rest[1..][1..] == [];
    assert CompileBody([], 6, INNER) == Done(map[], Continue(6), INNER);
    assert CompileBody([PUT], 5, INNER) == Done(map[5 := PUT_BLOCK] + map[], Continue(6), INNER);
    assert CompileBody(rest, 1, OUTER) == Done(CHOICE_TABLE + (map[5 := PUT_BLOCK] + map[]), Continue(6), INNER);
  }

  lemma CompiledBind()
    ensures CompileExpr(BODY[0], 0, EMPTY, 0) == Done(map[0 := BIND_BLOCK], Continue(1), OUTER)
  {
  }

  function Put(w: Word): Action {
    Action(Rt("put"), [w])
  }

  lemma Evaluated(world: World, mem: Mem)
    requires forall trace: seq<Action>, mem1: Mem :: !world(trace, mem1).dies
    ensures var r := EvalStmts(BODY, State(map[], mem, []), world);
      r.Val? && r.s.trace == [Put(1)]
  {
    var s := State(map["x" := 1], mem, []);
    assert Eval(BODY[0], State(map[], mem, []), world) == Val(s, None);
    assert CHOICE.arms[1..] == [];
    assert Select(CHOICE.arms, 0) == None;
    assert Eval(CHOICE, s, world) == Val(s, None);
    assert PUT.args[1..] == [];
    assert EvalArgs(PUT.args, s, world) == Args(s, [1]);
    var done := Eval(PUT, s, world);
    assert done.Val? && done.s.trace == [Put(1)];
    assert BODY[1..] == [CHOICE, PUT] && [CHOICE, PUT][1..] == [PUT];
    assert EvalStmts([PUT], s, world) == done;
    assert EvalStmts([CHOICE, PUT], s, world) == done;
  }

  /** Four blocks: bind, test, dispatch past the arm, put. */
  lemma Ran(prog: Program, m: M)
    requires 0 in prog.branches && prog.branches[0] == TABLE && 0 in m.vars && 1 in m.vars && !m.dying
    requires forall trace: seq<Action>, mem: Mem :: !prog.world(trace, mem).dies
    ensures var c := Steps(prog, At(0, 0, m), 4);
      Finished(prog, c) && c.m.trace == m.trace + [Put(m.vars[1])]
  {
    hide Step, RunOp, RunExit, Steps;
    InTable();
    var m1 := m.(vars := m.vars[0 := 1]);
    var m2 := m1.(temp := 0);
    Straight(prog.world, m);
    Straight(prog.world, m1);
    RunsOne(prog, 0, SetVar(0, Num(1)), m, m1, 1);
    RunsOne(prog, 1, SetTemp(Bool(false)), m1, m2, 2);
    RunNoOp(prog, 0, 2, Switch(map[1 := 3], 5), m2);
    Past(prog, m2);
    var ps: seq<Pure<nat>> := [Var(1)];
    var m3 := CallRuns(prog, m2);
    RunsOne(prog, 5, InvokeFused(Rt("put"), ps), m2, m3, 6);
    StepsAdd(prog, At(0, 0, m), 1, 1);
    StepsAdd(prog, At(0, 0, m), 2, 1);
    StepsAdd(prog, At(0, 0, m), 3, 1);
  }

  lemma Straight(world: World, m: M)
    requires 0 in m.vars
    ensures RunOp(world, SetVar(0, Num(1)), m) == Next(m.(vars := m.vars[0 := 1]))
    ensures RunOp(world, SetTemp(Bool(false)), m) == Next(m.(temp := 0))
  {
  }

  lemma Past(prog: Program, m: M)
    requires m.temp == 0
    ensures RunExit(prog, 0, Switch(map[1 := 3], 5), m) == At(0, 5, m)
  {
  }

  lemma CallRuns(prog: Program, m: M)
    returns (m1: M)
    requires 1 in m.vars && forall trace: seq<Action>, mem: Mem :: !prog.world(trace, mem).dies
    ensures RunOp(prog.world, InvokeFused(Rt("put"), [Var(1)]), m) == Next(m1)
    ensures m1.trace == m.trace + [Put(m.vars[1])] && !m1.dying
  {
    var ps: seq<Pure<nat>> := [Var(1)];
    assert ps[1..] == [];
    assert EvalAll(ps[1..], m) == Some([]);
    var none: seq<Word> := [];
    assert [m.vars[1]] + none == [m.vars[1]];
    assert PureEval(ps[0], m.vars, m.mem) == Ok(m.vars[1]);
    assert EvalAll(ps, m) == Some([m.vars[1]]);
    m1 := RunOp(prog.world, InvokeFused(Rt("put"), ps), m).m;
  }

  lemma RunsOne(prog: Program, id: int, op: Op, m: M, m1: M, next: int)
    requires 0 in prog.branches && id in prog.branches[0] && prog.branches[0][id] == Block([op], Goto(next))
    requires RunOp(prog.world, op, m) == Next(m1) && !m1.dying
    ensures Steps(prog, At(0, id, m), 1) == At(0, next, m1)
  {
    RunOneOp(prog, 0, id, op, Goto(next), m);
  }

  /**
   * The source puts the 1 it bound. The compiled body finishes too, but puts what slot 1 held at entry: the slot
   * written only in the arm that is not taken. The two traces are equal exactly when that word happens to be 1.
   */
  lemma WrongSlot(prog: Program, m: M)
    requires CompileBody(BODY, 0, EMPTY).Done?
    requires 0 in prog.branches && prog.branches[0] == CompileBody(BODY, 0, EMPTY).blocks
    requires 0 in m.vars && 1 in m.vars && !m.dying && m.trace == []
    requires forall trace: seq<Action>, mem: Mem :: !prog.world(trace, mem).dies
    ensures !ScopedAll(BODY, {})
    ensures var r := EvalStmts(BODY, State(map[], m.mem, []), prog.world); r.Val? && r.s.trace == [Put(1)]
    ensures var c := Steps(prog, At(0, 0, m), 4); Finished(prog, c) && c.m.trace == [Put(m.vars[1])]
    ensures EvalStmts(BODY, State(map[], m.mem, []), prog.world).s.trace == Steps(prog, At(0, 0, m), 4).m.trace <==>
            m.vars[1] == 1
  {
    hide EvalStmts, CompileBody, Steps;
    CompiledBody();
    Evaluated(prog.world, m.mem);
    Ran(prog, m);
    NotScoped();
    assert Put(1).args[0] == 1 && Put(m.vars[1]).args[0] == m.vars[1];
  }

  lemma NotScoped()
    ensures !ScopedAll(BODY, {})
  {
    assert REBINDING.body[1..] == [] && [REBINDING][1..] == [];
    assert "x" in ArmNames([REBINDING]);
    assert Bound(BODY[0], {}) == {"x"};
    assert BODY[1..][0] == CHOICE;
    assert !Scoped(CHOICE, {"x"});
  }
}
