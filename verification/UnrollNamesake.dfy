/** A machine that calls itself by its own name: spawned by the plain compilation, looped by the unrolled one. */
module UnrollNamesake {
  import opened Words
  import opened Lake
  import opened BlockMachine
  import opened BlockCompiler
  import opened CompilerShape
  import opened CompilerCorrect
  import opened SuperBlock
  import opened ActorRuns
  import opened Unroll
  import opened UnrollCorrect
  import opened UnrollLimits

  const NAMED_ARM: Arm := Arm(BoolKey(true), [Call(Spawn("worker"), [P(Num(0))])])

  /** In machine `worker`: `n -> when n { true -> worker(0); _ -> put(n) }` */
  const NAMED_BRANCH: Branch := Branch([Some("n")], [When(P(Var("n")), [NAMED_ARM, EXIT_ARM])])

  function Namesake(world: World): Source {
    Source("worker", map[0 := NAMED_BRANCH], words => if |words| == 1 then 0 else 1, world)
  }

  function Spawned(w: Word): Action {
    Action(Spawn("worker"), [w])
  }

  lemma NamesakeDetected(world: World)
    ensures Detect(NAMED_BRANCH.body, 1, "worker") == Some(TailLoop(Var("n"), NAMED_ARM, EXIT_ARM, true))
    ensures AsSelf(NAMED_ARM.body) == SELF_ARM.body
    ensures ArityRespected(Namesake(world))
  {
    assert AllPure(NAMED_ARM.body[0].args);
    assert NAMED_ARM.body[..0] == [];
    assert [] + SELF_ARM.body == SELF_ARM.body;
  }

  /** At 1 the arm is read as `self(0)`; at 0 the loop is left. */
  lemma AtWord(world: World, w: Word, mem: Mem, trace: seq<Action>)
    requires Kind(world)
    ensures var src, p := Namesake(world), Point([w], mem, trace);
      && InBranch(src, 0, p) && (TakesSelf(src, 0, p) <==> w != 0) && (FitsAt(src, 0, p) <==> w <= 1)
      && (w != 0 ==> TakenAt(src, 0, p) == Again([0], mem, trace) && !ClosesAt(src, 0, p) && StaysAt(src, 0, p))
      && (w == 0 ==> TakenAt(src, 0, p).Val? && TakenAt(src, 0, p).s.trace == trace + [Put(0)])
      && (w == 1 ==> BodyAt(src, 0, p).Val? && BodyAt(src, 0, p).s.trace == trace + [Spawned(0)])
  {
    NamesakeDetected(world);
    var src, p := Namesake(world), Point([w], mem, trace);
    var s := Entry(NAMED_BRANCH, p);
    EntryOf(w);
    SelfArmRuns(s, world);
    ExitArmRuns(s, world, w);
    NamedArmRuns(s, world);
    assert Discriminant(src, 0, p) == Ok(w);
    assert AsSelf(NAMED_ARM.body)[0] != NAMED_ARM.body[0];
    if w <= 1 {
      ArmIsBody(src, 0, p);
    }
  }

  lemma NamedArmRuns(s: State, world: World)
    requires Kind(world)
    ensures var r := EvalStmts(NAMED_ARM.body, s, world); r.Val? && r.s.trace == s.trace + [Spawned(0)] && r.s.env == s.env
  {
    var args: seq<Expr> := [P(Num(0))];
    assert args[1..] == [];
    assert EvalArgs(args[1..], s, world) == Args(s, []);
    assert EvalArgs(args, s, world) == Args(s, [0]);
    assert EvalStmts(NAMED_ARM.body, s, world) == Eval(NAMED_ARM.body[0], s, world);
  }

  // ---------- It compiles, plain and unrolled ----------

  lemma NamedArgsCompiled()
    ensures var c := CompileArgs(NAMED_ARM.body[0].args, 2, SLOTS, 1, 0); c.ArgsDone? && c.id == 4 && c.st == SLOTS
  {
    var args := NAMED_ARM.body[0].args;
    assert args[1..] == [];
    assert CompileExpr(args[0], 2, SLOTS, 1) == Done(map[2 := Block([SetTemp(Num(0))], Goto(3))], Continue(3), SLOTS);
    assert CompileArgs(args[1..], 4, SLOTS, 1, 1) == ArgsDone(map[], 4, SLOTS);
  }

  lemma NamedArmCompiled()
    ensures var c := CompileStmts(NAMED_ARM.body, 2, SLOTS, 0); c.Done? && c.outcome == Continue(5) && c.st == SLOTS
  {
    hide CompileArgs;
    NamedArgsCompiled();
    var e := NAMED_ARM.body[0];
    assert ResolveCallee(e.callee, SLOTS.vars).Some?;
    assert CompileExpr(e, 2, SLOTS, 0).Done? && CompileExpr(e, 2, SLOTS, 0).outcome == Continue(5);
    assert NAMED_ARM.body[1..] == [];
    assert CompileStmts([], 5, SLOTS, 0) == Done(map[], Continue(5), SLOTS);
  }

  lemma NamedArmsCompile()
    ensures var c := CompileArms([NAMED_ARM, EXIT_ARM], 2, SLOTS, 0); c.ArmsDone? && c.st == SLOTS
  {
    hide CompileStmts;
    NamedArmCompiled();
    ExitArmCompiled(6);
    var arms := [NAMED_ARM, EXIT_ARM];
    assert arms[1..] == [EXIT_ARM];
    assert CompileArms([EXIT_ARM], 6, SLOTS, 0).ArmsDone? && CompileArms([EXIT_ARM], 6, SLOTS, 0).st == SLOTS;
  }

  lemma NamedWhenCompiled()
    ensures var c := CompileExpr(NAMED_BRANCH.body[0], 0, SLOTS, 0); c.Done? && c.outcome.Continue? && c.st == SLOTS
  {
    hide CompileArms, CompileStmts, ConstFold, Cases, Redirects;
    NamedArmsCompile();
    var e := NAMED_BRANCH.body[0];
    assert CompileExpr(e.cond, 0, SLOTS, 0) ==
           Done(map[0 := Block([SetTemp(Var(0))], Goto(1))], Continue(1), SLOTS);
    assert e.arms[0].key == BoolKey(true) && e.arms[1].key == Wildcard;
    assert !ConstantArm(e.arms[0]);
    assert CompileExpr(e, 0, SLOTS, 0) == CompileWhen(e, 0, SLOTS, 0);
  }

  lemma NamedLoopCompiled()
    ensures var c := CompileBody(NAMED_BRANCH.body, 0, SLOTS); c.Done? && c.st == SLOTS
  {
    hide CompileExpr;
    NamedWhenCompiled();
    assert NAMED_BRANCH.body[1..] == [];
  }

  lemma NamedNoNames()
    ensures ArmNames([NAMED_ARM, EXIT_ARM]) == {}
  {
    hide AllNames;
    NoNames();
    assert [NAMED_ARM, EXIT_ARM][1..] == [EXIT_ARM] && [SELF_ARM, EXIT_ARM][1..] == [EXIT_ARM];
    NamedArmNames();
  }

  lemma NamedArmNames()
    ensures AllNames(NAMED_ARM.body) == {}
  {
    assert NAMED_ARM.body[1..] == [] && NAMED_ARM.body[0].args[1..] == [];
    assert AllNames(NAMED_ARM.body[0].args) == {};
    assert LetNames(NAMED_ARM.body[0]) == {};
  }

  lemma NamedArmScoped(cap: nat)
    ensures ScopedAll(NAMED_ARM.body, {"n"}) && RestrainedAll(NAMED_ARM.body, cap) && StagedInAll(NAMED_ARM.body) == 1
  {
    var args := NAMED_ARM.body[0].args;
    assert args[1..] == [] && NAMED_ARM.body[1..] == [];
    assert ScopedAll(args, {"n"}) && RestrainedAll(args, cap) && StagedInAll(args) == 0;
    assert Scoped(NAMED_ARM.body[0], {"n"}) && Restrained(NAMED_ARM.body[0], cap) && StagedWords(NAMED_ARM.body[0]) == 1;
  }

  lemma NamedLoopScoped(cap: nat)
    requires cap >= 1
    ensures ScopedAll(NAMED_BRANCH.body, {"n"}) && RestrainedAll(NAMED_BRANCH.body, cap)
    ensures StagedInAll(NAMED_BRANCH.body) <= JUMP_ARGS_WORDS
  {
    hide ArmNames, ScopedAll, RestrainedAll, StagedInAll;
    var arms := [NAMED_ARM, EXIT_ARM];
    assert arms[1..] == [EXIT_ARM] && arms[1..][1..] == [];
    NamedNoNames();
    NamedArmScoped(cap);
    ArmScoped(EXIT_ARM, cap);
    assert ScopedArms([EXIT_ARM], {"n"}) && RestrainedArms([EXIT_ARM], cap) && StagedInArms([EXIT_ARM]) == 1;
    assert ScopedArms(arms, {"n"}) && RestrainedArms(arms, cap) && StagedInArms(arms) == 1;
    assert !ConstantArm(arms[0]);
    OneStatement(NAMED_BRANCH.body[0], {"n"}, cap);
  }

  /** Both compilations exist, at every factor. */
  lemma NamesakeCompiles(world: World, requested: nat, cap: nat)
    returns (plain: Program, up: UProgram)
    requires Kind(world) && cap >= 1
    ensures Compiles(Namesake(world), plain, cap)
    ensures UCompiles(Namesake(world), up, requested, cap) && 0 in up.loops
  {
    hide CompileBody, CompileStmts, EmitArm, ScopedAll, RestrainedAll, StagedInAll, ParamSlots, ParamNames, Detect, Copies;
    hide AsSelf;
    var src := Namesake(world);
    SlotsAre();
    NamedLoopCompiled();
    NamedLoopScoped(cap);
    SelfArmEmitted();
    ExitArmCompiled(1);
    NamesakeDetected(world);
    var loop := CompileBody(NAMED_BRANCH.body, 0, SLOTS);
    plain := Program(map[0 := loop.blocks], src.pick, world);
    var unrolled := EmitUnrolled(LoopOf(src, 0), 1, SLOTS, requested).value;
    var exit := CompileStmts(EXIT_ARM.body, 1, SLOTS, 0);
    up := UProgram(Program(map[0 := exit.blocks], src.pick, world), map[0 := unrolled]);
  }

  // ---------- The run ----------

  /**
   * From n = 1 the discriminant fits and the branch is its own, but the arm closes by the machine's name. The plain
   * machine spawns a worker and is done; the unrolled one spawns nobody, loops, and puts 0, whatever the factor and the
   * quanta.
   */
  lemma SpawnMissed(world: World, plain: Program, up: UProgram, requested: nat, m: M, cap: nat, mem: Mem,
      quanta: nat -> int)
    returns (j: nat, k: nat)
    requires Kind(world) && Compiles(Namesake(world), plain, cap)
    requires UCompiles(Namesake(world), up, requested, cap) && 0 in up.loops
    requires Committed(m, Point([1], mem, []), cap)
    ensures var src, p := Namesake(world), Point([1], mem, []);
      InBranch(src, 0, p) && FitsAt(src, 0, p) && StaysAt(src, 0, p) && !ClosesAt(src, 0, p)
    ensures var c := Steps(plain, At(0, 0, m), j); Finished(plain, c) && c.m.trace == [Spawned(0)]
    ensures up.Valid()
    ensures var d := USteps(up, At(0, 0, m), quanta, 0, k); Finished(up.prog, d) && !AtLoop(up, d) && d.m.trace == [Put(0)]
  {
    hide BodyAt, TakenAt, TakesSelf, FitsAt, StaysAt, ClosesAt, Detect, USteps, Steps, UCompiles, Compiles, Entry, EvalStmts;
    var src, p := Namesake(world), Point([1], mem, []);
    NamesakeDetected(world);
    AtWord(world, 1, mem, []);
    AtWord(world, 0, mem, []);
    LiveStep(src, 0, p, 0);
    j := RunCorrect(src, plain, 0, p.words, m, cap, 0);
    k := LeavesAfterOne(src, up, requested, 0, p, m, cap, quanta);
  }
}
