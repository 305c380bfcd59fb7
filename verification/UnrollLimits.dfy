/** What goes wrong where a loop is not steady: two runs whose unrolled and plain compilations end differently. */
module UnrollLimits {
  import opened Words
  import opened Lake
  import opened BlockMachine
  import opened BlockCompiler
  import opened CompilerShape
  import opened CompilerCorrect
  import opened SuperBlock
  import opened ActorRuns
  import opened Unroll
  import opened UnrollCorrect

  // ---------- One copy, then the exit arm ----------

  /** The first copy continues and the second one leaves: the machine ends as the exit arm does at the second point. */
  lemma LeavesAfterOne(src: Source, up: UProgram, requested: nat, b: nat, p: Point, m: M, cap: nat, quanta: nat -> int)
    returns (k: nat)
    requires UCompiles(src, up, requested, cap) && b in up.loops && InBranch(src, b, p) && Committed(m, p, cap)
    requires TakesSelf(src, b, p) && TakenAt(src, b, p).Again?
    requires var v := TakenAt(src, b, p);
      && Enters(src, b, v.args) && !TakesSelf(src, b, Point(v.args, v.mem, v.trace))
      && TakenAt(src, b, Point(v.args, v.mem, v.trace)).Val?
    ensures up.Valid()
    ensures var v := TakenAt(src, b, p);
      UEnds(up, USteps(up, At(b, 0, m), quanta, 0, k), TakenAt(src, b, Point(v.args, v.mem, v.trace)))
  {
    hide TakesSelf, TakenAt, RunChunk, Registers, IterationOf, Committed, EmitUnrolled, LoopCompiles, Steps, Step, Installed;
    UCompilesValid(src, up, requested, cap);
    var u := up.loops[b];
    assert Unrolls(src, up.prog, b, u, requested, cap);
    var v := TakenAt(src, b, p);
    var p1 := Point(v.args, v.mem, v.trace);
    RegistersAtEntry(src, up.prog, b, u, requested, p, m, cap);
    var r := LoadRegs(m, u.arity);
    var r1 := OneCopy(src, b, p, r, u, requested);
    CarriesAt(src, b, p1, r1);
    CommitCarries(m, r1, p1, cap);
    var m1 := Commit(m, r1, u.arity);
    OneDispatch(up, At(b, 0, m), quanta, 0);
    ExitTaken(src, b, p1);
    var more := SimExit(src, up.prog, b, u, requested, p1, m1, cap);
    var more1 := UFollows(up, At(b, 1, m1), quanta, 1, more);
    UStepsAdd(up, At(b, 0, m), quanta, 0, 1, more1);
    k := 1 + more1;
  }

  lemma CarriesAt(src: Source, b: nat, p: Point, r: M)
    requires Registers(src, b, p, r)
    ensures Carries(r, p)
  {
  }

  lemma ExitTaken(src: Source, b: nat, p: Point)
    requires InBranch(src, b, p) && !TakesSelf(src, b, p) && TakenAt(src, b, p).Val?
    ensures TakenAt(src, b, p) == ArmAt(src, b, LoopOf(src, b).exit, p)
  {
  }

  lemma OneCopy(src: Source, b: nat, p: Point, r: M, u: Unrolled, requested: nat)
    returns (r1: M)
    requires Registers(src, b, p, r) && TakesSelf(src, b, p) && TakenAt(src, b, p).Again?
    requires EmitUnrolled(LoopOf(src, b), |p.words|, ParamSlots(src.branches[b].params), requested) == Some(u)
    requires var v := TakenAt(src, b, p);
      && Enters(src, b, v.args) && !TakesSelf(src, b, Point(v.args, v.mem, v.trace))
      && TakenAt(src, b, Point(v.args, v.mem, v.trace)).Val?
    ensures var v := TakenAt(src, b, p); Registers(src, b, Point(v.args, v.mem, v.trace), r1)
    ensures RunChunk(src.world, u.onTruthy, u.chunk, r) == Left(r1) && |TakenAt(src, b, p).args| == u.arity == |p.words|
    ensures u.factor >= 2
  {
    hide TakesSelf, TakenAt, RunChunk, EmitIteration, CopyNext, Detect, SelfArm, Gentle, Carries;
    var v := TakenAt(src, b, p);
    var p1 := Point(v.args, v.mem, v.trace);
    SimIteration(src, b, r, p);
    var code, truthy := IterationOf(src, b, p, r), LoopOf(src, b).onTruthy;
    r1 := RunChunk(src.world, truthy, code, r).m;
    SimIteration(src, b, r1, p1);
    var rest := Copies(code, u.factor - 1);
    assert u.chunk == code + rest && rest == code + Copies(code, u.factor - 2);
    RunChunkAppend(src.world, truthy, code, rest, r);
    RunChunkAppend(src.world, truthy, code, Copies(code, u.factor - 2), r1);
  }

  // ---------- A source with two branches of one arity ----------

  const SELF_ARM: Arm := Arm(BoolKey(true), [SelfCall([P(Num(0))])])
  const EXIT_ARM: Arm := Arm(Wildcard, [Call(Rt("put"), [P(Var("n"))])])

  /** `n -> when n { true -> self(0); _ -> put(n) }` */
  const LOOP_BRANCH: Branch := Branch([Some("n")], [When(P(Var("n")), [SELF_ARM, EXIT_ARM])])

  /** `0 -> put(1)` */
  const ZERO_BRANCH: Branch := Branch([None], [Call(Rt("put"), [P(Num(1))])])

  /** A branch guarded by 0 takes that word, if there is one; every other single word enters the loop. */
  function Siblings(world: World, guarded: bool): Source {
    Source("worker", map[0 := LOOP_BRANCH, 1 := ZERO_BRANCH],
           words => if guarded && words == [0] then 1 else if |words| == 1 then 0 else 2, world)
  }

  function Put(w: Word): Action {
    Action(Rt("put"), [w])
  }

  /** The world lets actors live. */
  ghost predicate Kind(world: World) {
    forall trace: seq<Action>, mem: Mem :: !world(trace, mem).dies
  }

  lemma SiblingsDetected(world: World, guarded: bool)
    ensures var br := LOOP_BRANCH; Detect(br.body, 1, "worker") == Some(TailLoop(Var("n"), SELF_ARM, EXIT_ARM, true))
    ensures ArityRespected(Siblings(world, guarded))
  {
    assert AllPure(SELF_ARM.body[0].args);
  }

  /** At a single word `w`: the body puts `w` unless it is 1, and the register code unless it is 0. */
  lemma AtWord(world: World, guarded: bool, w: Word, mem: Mem, trace: seq<Action>)
    requires Kind(world)
    ensures var src, p := Siblings(world, guarded), Point([w], mem, trace);
      && InBranch(src, 0, p) && (TakesSelf(src, 0, p) <==> w != 0) && (FitsAt(src, 0, p) <==> w <= 1)
      && ClosesAt(src, 0, p) && (StaysAt(src, 0, p) <==> w == 0 || !guarded)
      && (w != 0 ==> TakenAt(src, 0, p) == Again([0], mem, trace))
      && (w == 0 ==> TakenAt(src, 0, p).Val? && TakenAt(src, 0, p).s.trace == trace + [Put(0)])
      && (w > 1 ==> BodyAt(src, 0, p).Val? && BodyAt(src, 0, p).s.trace == trace + [Put(w)])
      && (w <= 1 ==> BodyAt(src, 0, p) == TakenAt(src, 0, p))
  {
    SiblingsDetected(world, guarded);
    var src, p := Siblings(world, guarded), Point([w], mem, trace);
    var s := Entry(LOOP_BRANCH, p);
    EntryOf(w);
    SelfArmRuns(s, world);
    ExitArmRuns(s, world, w);
    assert Discriminant(src, 0, p) == Ok(w);
    if w <= 1 {
      TakenIsBody(src, 0, p);
    } else {
      BodyRuns(s, world, w);
    }
  }

  lemma EntryOf(w: Word)
    ensures EntryEnv([Some("n")], [w]) == map["n" := w]
  {
    var params: seq<Option<string>> := [Some("n")];
    var words: seq<Word> := [w];
    assert params[..0] == [] && words[..0] == [];
    assert EntryEnv(params[..0], words[..0]) == map[];
  }

  lemma SelfArmRuns(s: State, world: World)
    ensures EvalStmts(SELF_ARM.body, s, world) == Again([0], s.mem, s.trace)
  {
    var args: seq<Expr> := [P(Num(0))];
    assert args[1..] == [];
    assert EvalArgs(args[1..], s, world) == Args(s, []);
    assert EvalArgs(args, s, world) == Args(s, [0]);
    assert EvalStmts(SELF_ARM.body, s, world) == Eval(SELF_ARM.body[0], s, world);
  }

  lemma ExitArmRuns(s: State, world: World, w: Word)
    requires Kind(world) && s.env == map["n" := w]
    ensures var r := EvalStmts(EXIT_ARM.body, s, world); r.Val? && r.s.trace == s.trace + [Put(w)] && r.s.env == s.env
  {
    var args: seq<Expr> := [P(Var("n"))];
    assert args[1..] == [];
    assert EvalArgs(args[1..], s, world) == Args(s, []);
    assert EvalArgs(args, s, world) == Args(s, [w]);
    assert EvalStmts(EXIT_ARM.body, s, world) == Eval(EXIT_ARM.body[0], s, world);
  }

  /** A discriminant above 1 selects the wildcard arm. */
  lemma BodyRuns(s: State, world: World, w: Word)
    requires Kind(world) && s.env == map["n" := w] && w > 1
    ensures var r := EvalStmts(LOOP_BRANCH.body, s, world); r.Val? && r.s.trace == s.trace + [Put(w)]
  {
    ExitArmRuns(s, world, w);
    var arms := [SELF_ARM, EXIT_ARM];
    assert arms[1..] == [EXIT_ARM] && arms[1..][1..] == [];
    assert IndexOf(arms[1..][1..], Some(w)) == None;
    assert IndexOf(arms[1..], Some(w)) == None;
    assert IndexOf(arms, Some(w)) == None;
    assert IndexOf(arms[1..], None) == Some(0);
    assert Select(arms, w) == Some(1);
    var e := LOOP_BRANCH.body[0];
    assert Eval(e.cond, s, world) == Val(s, Some(w));
    assert EvalStmts(LOOP_BRANCH.body, s, world) == Eval(e, s, world);
  }

  lemma ZeroRuns(world: World, guarded: bool, mem: Mem, trace: seq<Action>)
    requires Kind(world)
    ensures var v := BodyAt(Siblings(world, guarded), 1, Point([0], mem, trace)); v.Val? && v.s.trace == trace + [Put(1)]
  {
    var s := Entry(ZERO_BRANCH, Point([0], mem, trace));
    var args: seq<Expr> := [P(Num(1))];
    assert args[1..] == [];
    assert EvalArgs(args[1..], s, world) == Args(s, []);
    assert EvalArgs(args, s, world) == Args(s, [1]);
    assert EvalStmts(ZERO_BRANCH.body, s, world) == Eval(ZERO_BRANCH.body[0], s, world);
  }

  // ---------- It compiles, plain and unrolled ----------

  const SLOTS: Slots := Slots(map["n" := 0], 1)

  lemma SlotsAre()
    ensures ParamSlots(LOOP_BRANCH.params) == SLOTS && ParamSlots(ZERO_BRANCH.params) == Slots(map[], 1)
    ensures ParamNames(LOOP_BRANCH.params) == {"n"} && ParamNames(ZERO_BRANCH.params) == {}
  {
    assert LOOP_BRANCH.params[..0] == [] && ZERO_BRANCH.params[..0] == [];
    assert ParamSlots(LOOP_BRANCH.params[..0]) == ParamSlots(ZERO_BRANCH.params[..0]) == Slots(map[], 0);
    assert LOOP_BRANCH.params[0] == Some("n");
    assert "n" in ParamNames(LOOP_BRANCH.params);
  }

  lemma SelfArgs()
    ensures AllPure(SELF_ARM.body[0].args) && ResolveAll(SELF_ARM.body[0].args, SLOTS.vars) == Some([Num(0)])
  {
    var args := SELF_ARM.body[0].args;
    assert ResolveAll(args[1..], SLOTS.vars) == Some([]);
    var none: seq<Pure<nat>> := [];
    assert [Num(0)] + none == [Num(0)];
  }

  lemma SelfArmCompiled()
    ensures var c := CompileStmts(SELF_ARM.body, 2, SLOTS, 0); c.Done? && c.outcome == StateChange(3) && c.st == SLOTS
  {
    hide ResolveAll;
    SelfArgs();
  }

  lemma SelfArmEmitted()
    ensures EmitArm(SELF_ARM.body, 1, SLOTS) == Emitted([Rebind([Num(0)])], SLOTS)
  {
    hide ResolveAll;
    SelfArgs();
  }

  /** The call is the same block wherever its id. */
  lemma ExitArmCompiled(id: int)
    ensures var c := CompileStmts(EXIT_ARM.body, id, SLOTS, 0); c.Done? && c.outcome == Continue(id + 1) && c.st == SLOTS
  {
    var args := EXIT_ARM.body[0].args;
    assert ResolveAll(args[1..], SLOTS.vars) == Some([]);
    assert ResolveAll(args, SLOTS.vars).Some?;
    assert EXIT_ARM.body[1..] == [];
    assert CompileStmts(EXIT_ARM.body[1..], id + 1, SLOTS, 0) == Done(map[], Continue(id + 1), SLOTS);
  }

  lemma ArmsCompile()
    ensures var c := CompileArms([SELF_ARM, EXIT_ARM], 2, SLOTS, 0); c.ArmsDone? && c.st == SLOTS
  {
    hide CompileStmts;
    SelfArmCompiled();
    ExitArmCompiled(4);
    var arms := [SELF_ARM, EXIT_ARM];
    assert arms[1..] == [EXIT_ARM];
    assert CompileArms([EXIT_ARM], 4, SLOTS, 0).ArmsDone? && CompileArms([EXIT_ARM], 4, SLOTS, 0).st == SLOTS;
  }

  lemma WhenCompiled()
    ensures var c := CompileExpr(LOOP_BRANCH.body[0], 0, SLOTS, 0); c.Done? && c.outcome.Continue? && c.st == SLOTS
  {
    hide CompileArms, CompileStmts, ConstFold, Cases, Redirects;
    ArmsCompile();
    var e := LOOP_BRANCH.body[0];
    assert CompileExpr(e.cond, 0, SLOTS, 0) ==
           Done(map[0 := Block([SetTemp(Var(0))], Goto(1))], Continue(1), SLOTS);
    assert e.arms[0].key == BoolKey(true) && e.arms[1].key == Wildcard;
    assert !ConstantArm(e.arms[0]);
    assert CompileExpr(e, 0, SLOTS, 0) == CompileWhen(e, 0, SLOTS, 0);
  }

  lemma LoopCompiled()
    ensures var c := CompileBody(LOOP_BRANCH.body, 0, SLOTS); c.Done? && c.st == SLOTS
  {
    hide CompileExpr;
    WhenCompiled();
    assert LOOP_BRANCH.body[1..] == [];
  }

  lemma ZeroCompiled()
    ensures var c := CompileBody(ZERO_BRANCH.body, 0, Slots(map[], 1)); c.Done? && c.st.next == 1
  {
    var args := ZERO_BRANCH.body[0].args;
    var none: map<string, nat> := map[];
    assert ResolveAll(args[1..], none) == Some([]);
    assert ResolveAll(args, none).Some?;
    assert ZERO_BRANCH.body[1..] == [];
  }

  lemma NoNames()
    ensures ArmNames([SELF_ARM, EXIT_ARM]) == {}
  {
    assert SELF_ARM.body[1..] == [] && EXIT_ARM.body[1..] == [];
    assert SELF_ARM.body[0].args[1..] == [] && EXIT_ARM.body[0].args[1..] == [];
    assert AllNames(SELF_ARM.body[0].args) == {} && AllNames(EXIT_ARM.body[0].args) == {};
    assert LetNames(SELF_ARM.body[0]) == {} && LetNames(EXIT_ARM.body[0]) == {};
    assert AllNames(SELF_ARM.body) == {} && AllNames(EXIT_ARM.body) == {};
    assert [SELF_ARM, EXIT_ARM][1..] == [EXIT_ARM] && [EXIT_ARM][1..] == [];
    assert ArmNames([EXIT_ARM]) == {};
  }

  lemma ArmScoped(arm: Arm, cap: nat)
    requires (arm == SELF_ARM || arm == EXIT_ARM) && cap >= 1
    ensures ScopedAll(arm.body, {"n"}) && RestrainedAll(arm.body, cap) && StagedInAll(arm.body) == 1
  {
    var args := arm.body[0].args;
    assert args[1..] == [] && arm.body[1..] == [];
    assert ScopedAll(args, {"n"}) && RestrainedAll(args, cap) && StagedInAll(args) == 0;
    assert Scoped(arm.body[0], {"n"}) && Restrained(arm.body[0], cap) && StagedWords(arm.body[0]) == 1;
  }

  lemma LoopScoped(cap: nat)
    requires cap >= 1
    ensures ScopedAll(LOOP_BRANCH.body, {"n"}) && RestrainedAll(LOOP_BRANCH.body, cap)
    ensures StagedInAll(LOOP_BRANCH.body) <= JUMP_ARGS_WORDS
  {
    hide ArmNames, ScopedAll, RestrainedAll, StagedInAll;
    var arms := [SELF_ARM, EXIT_ARM];
    assert arms[1..] == [EXIT_ARM] && arms[1..][1..] == [];
    NoNames();
    ArmScoped(SELF_ARM, cap);
    ArmScoped(EXIT_ARM, cap);
    assert ScopedArms([EXIT_ARM], {"n"}) && RestrainedArms([EXIT_ARM], cap) && StagedInArms([EXIT_ARM]) == 1;
    assert ScopedArms(arms, {"n"}) && RestrainedArms(arms, cap) && StagedInArms(arms) == 1;
    assert !ConstantArm(arms[0]);
    OneStatement(LOOP_BRANCH.body[0], {"n"}, cap);
  }

  lemma OneStatement(e: Expr, bound: set<string>, cap: nat)
    ensures ScopedAll([e], bound) == Scoped(e, bound) && RestrainedAll([e], cap) == Restrained(e, cap)
    ensures StagedInAll([e]) == StagedWords(e)
  {
    assert [e][1..] == [];
  }

  lemma ZeroScoped(cap: nat)
    ensures ScopedAll(ZERO_BRANCH.body, {}) && RestrainedAll(ZERO_BRANCH.body, cap)
    ensures StagedInAll(ZERO_BRANCH.body) <= JUMP_ARGS_WORDS
  {
    var args := ZERO_BRANCH.body[0].args;
    assert args[1..] == [] && ZERO_BRANCH.body[1..] == [];
    assert ScopedAll(args, {}) && RestrainedAll(args, cap) && StagedInAll(args) == 0;
  }

  /** Both compilations of the two-branch source exist, at every factor. */
  lemma SiblingsCompile(world: World, guarded: bool, requested: nat, cap: nat)
    returns (plain: Program, up: UProgram)
    requires Kind(world) && cap >= 1
    ensures Compiles(Siblings(world, guarded), plain, cap)
    ensures UCompiles(Siblings(world, guarded), up, requested, cap) && 0 in up.loops
  {
    hide CompileBody, CompileStmts, EmitArm, ScopedAll, RestrainedAll, StagedInAll, ParamSlots, ParamNames, Detect, Copies;
    var src := Siblings(world, guarded);
    SlotsAre();
    LoopCompiled();
    ZeroCompiled();
    LoopScoped(cap);
    ZeroScoped(cap);
    SelfArmEmitted();
    ExitArmCompiled(1);
    SiblingsDetected(world, guarded);
    var loop, zero := CompileBody(LOOP_BRANCH.body, 0, SLOTS), CompileBody(ZERO_BRANCH.body, 0, Slots(map[], 1));
    plain := Program(map[0 := loop.blocks, 1 := zero.blocks], src.pick, world);
    var unrolled := EmitUnrolled(LoopOf(src, 0), 1, SLOTS, requested).value;
    var exit := CompileStmts(EXIT_ARM.body, 1, SLOTS, 0);
    up := UProgram(Program(map[0 := exit.blocks, 1 := zero.blocks], src.pick, world), map[0 := unrolled]);
  }

  // ---------- The two runs ----------

  /**
   * From n = 1 the discriminant fits, but `self(0)` belongs to the guarded sibling. The plain machine puts 1 there;
   * the unrolled one stays, leaves its loop, and puts 0, whatever the factor and the quanta.
   */
  lemma SiblingMissed(world: World, plain: Program, up: UProgram, requested: nat, m: M, cap: nat, mem: Mem,
      quanta: nat -> int)
    returns (j: nat, k: nat)
    requires Kind(world) && Compiles(Siblings(world, true), plain, cap)
    requires UCompiles(Siblings(world, true), up, requested, cap) && 0 in up.loops
    requires Committed(m, Point([1], mem, []), cap)
    ensures var src, p := Siblings(world, true), Point([1], mem, []);
      InBranch(src, 0, p) && FitsAt(src, 0, p) && ClosesAt(src, 0, p) && !StaysAt(src, 0, p)
    ensures var c := Steps(plain, At(0, 0, m), j); Finished(plain, c) && c.m.trace == [Put(1)]
    ensures up.Valid()
    ensures var d := USteps(up, At(0, 0, m), quanta, 0, k); Finished(up.prog, d) && !AtLoop(up, d) && d.m.trace == [Put(0)]
  {
    hide BodyAt, TakenAt, TakesSelf, FitsAt, Detect, USteps, Steps, UCompiles, Compiles, Entry, EvalStmts;
    var src, p := Siblings(world, true), Point([1], mem, []);
    SiblingsDetected(world, true);
    AtWord(world, true, 1, mem, []);
    AtWord(world, true, 0, mem, []);
    ZeroRuns(world, true, mem, []);
    LiveStep(src, 0, p, 1);
    LiveStep(src, 1, Point([0], mem, []), 0);
    j := RunCorrect(src, plain, 0, p.words, m, cap, 1);
    k := LeavesAfterOne(src, up, requested, 0, p, m, cap, quanta);
  }

  /**
   * From n = 2 the keys select the wildcard arm and the plain machine puts 2. Testing against zero continues the loop,
   * and the unrolled machine puts 0.
   */
  lemma ArmMissed(world: World, plain: Program, up: UProgram, requested: nat, m: M, cap: nat, mem: Mem,
      quanta: nat -> int)
    returns (j: nat, k: nat)
    requires Kind(world) && Compiles(Siblings(world, false), plain, cap)
    requires UCompiles(Siblings(world, false), up, requested, cap) && 0 in up.loops
    requires Committed(m, Point([2], mem, []), cap)
    ensures var src, p := Siblings(world, false), Point([2], mem, []);
      InBranch(src, 0, p) && !FitsAt(src, 0, p) && ClosesAt(src, 0, p) && StaysAt(src, 0, p)
    ensures var c := Steps(plain, At(0, 0, m), j); Finished(plain, c) && c.m.trace == [Put(2)]
    ensures up.Valid()
    ensures var d := USteps(up, At(0, 0, m), quanta, 0, k); Finished(up.prog, d) && !AtLoop(up, d) && d.m.trace == [Put(0)]
  {
    hide BodyAt, TakenAt, TakesSelf, FitsAt, Detect, USteps, Steps, UCompiles, Compiles, Entry, EvalStmts;
    var src, p := Siblings(world, false), Point([2], mem, []);
    SiblingsDetected(world, false);
    AtWord(world, false, 2, mem, []);
    AtWord(world, false, 0, mem, []);
    LiveStep(src, 0, p, 0);
    j := RunCorrect(src, plain, 0, p.words, m, cap, 0);
    k := LeavesAfterOne(src, up, requested, 0, p, m, cap, quanta);
  }
}
