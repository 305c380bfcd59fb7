/** An unrolled branch ends where its plain loop ends, whatever the unroll factor, the quanta and the yields. */
module UnrollCorrect {
  import opened Words
  import opened Lake
  import opened BlockMachine
  import opened BlockCompiler
  import opened CompilerShape
  import opened CompilerCorrect
  import opened SuperBlock
  import opened ActorRuns
  import opened Unroll

  // ---------- The unrolled branch ----------

  /** Code at loop_top, the number of registers it keeps, and how much quantum one pass costs. */
  datatype Unrolled = Unrolled(chunk: seq<Instr>, arity: nat, factor: nat, onTruthy: bool)

  /** `requested` copies, two at least. */
  function EmitUnrolled(loop: TailLoop, arity: nat, st: Slots, requested: nat): Option<Unrolled>
    requires SelfArm(AsSelf(loop.self.body), arity)
  {
    match EmitIteration(loop, arity, st)
    case NotEmitted => None
    case Emitted(code, _) =>
      var factor := Max(requested, 2);
      Some(Unrolled(Copies(code, factor), arity, factor, loop.onTruthy))
  }

  lemma {:induction false} CopiesLength(code: seq<Instr>, n: nat)
    ensures |Copies(code, n)| == n * |code|
  {
    if n > 0 {
      CopiesLength(code, n - 1);
      assert n * |code| == |code| + (n - 1) * |code|;
    }
  }

  /** As many copies as asked for and two at least, each a whole iteration; a pass costs one unit of quantum per copy. */
  lemma FactorExact(loop: TailLoop, arity: nat, st: Slots, requested: nat)
    requires SelfArm(AsSelf(loop.self.body), arity) && EmitUnrolled(loop, arity, st, requested).Some?
    ensures var u, one := EmitUnrolled(loop, arity, st, requested).value, EmitIteration(loop, arity, st);
      && (requested >= 2 ==> u.factor == requested) && (requested < 2 ==> u.factor == 2)
      && one.Emitted? && |u.chunk| == u.factor * |one.code| && u.arity == arity && u.onTruthy == loop.onTruthy
  {
    hide EmitIteration, SelfArm, AsSelf;
    CopiesLength(EmitIteration(loop, arity, st).code, Max(requested, 2));
  }

  /** Registers from VARIABLES, at entry and after every yield. */
  function LoadRegs(m: M, n: nat): M {
    m.(vars := map i | i in m.vars && i < n :: m.vars[i])
  }

  /** Registers to VARIABLES; memory and trace are shared all along. */
  function Commit(m: M, r: M, n: nat): M {
    m.(vars := map i | i in m.vars :: if i < n && i in r.vars then r.vars[i] else m.vars[i],
       mem := r.mem, trace := r.trace, dying := r.dying)
  }

  /** How control leaves the unrolled code: a yield at block 0, the exit arm at block 1, or a trap. */
  datatype VisitEnd = Yielded(m: M) | Exited(m: M) | Crashed(why: Why, m: M)

  /** From loop_top with registers `r`: whole chunks until the quantum is used up or the loop is left. */
  function Visit(u: Unrolled, world: World, m: M, r: M, quantum: int): VisitEnd
    requires u.factor >= 2
    decreases quantum
  {
    match RunChunk(world, u.onTruthy, u.chunk, r)
    case Broke(why, r1) => Crashed(why, r1)
    case Left(r1) => Exited(Commit(m, r1, u.arity))
    case Through(r1) =>
      var m1 := Commit(m, r1, u.arity);
      if quantum - u.factor <= 0 then Yielded(m1) else Visit(u, world, m1, r1, quantum - u.factor)
  }

  /** The emitted loop, as it runs. */
  method RunVisit(u: Unrolled, world: World, entry: M, quantum: int) returns (end: VisitEnd)
    requires u.factor >= 2
    ensures end == Visit(u, world, entry, LoadRegs(entry, u.arity), quantum)
  {
    hide RunChunk, Commit, LoadRegs;
    var m, regs, remaining := entry, LoadRegs(entry, u.arity), quantum;
    while true
      invariant Visit(u, world, m, regs, remaining) == Visit(u, world, entry, LoadRegs(entry, u.arity), quantum)
      decreases remaining
    {
      match RunChunk(world, u.onTruthy, u.chunk, regs) {
        case Broke(why, r1) => return Crashed(why, r1);
        case Left(r1) => return Exited(Commit(m, r1, u.arity));
        case Through(r1) =>
          regs := r1;
      }
      m := Commit(m, regs, u.arity);
      remaining := remaining - u.factor;
      if remaining <= 0 {
        return Yielded(m);
      }
    }
  }

  // ---------- The source side ----------

  datatype Point = Point(words: seq<Word>, mem: Mem, trace: seq<Action>)

  ghost function LiveAt(src: Source, b: nat, p: Point, n: nat): Result
    requires Enters(src, b, p.words) && ArityRespected(src)
  {
    Live(src, b, p.words, p.mem, p.trace, n)
  }

  function Entry(br: Branch, p: Point): State
    requires |br.params| == |p.words|
  {
    State(EntryEnv(br.params, p.words), p.mem, p.trace)
  }

  /** After `done` iterations, all of them inside the loop, the source is at `p1`. */
  ghost predicate Moved(src: Source, b: nat, p: Point, p1: Point, done: nat)
    requires Enters(src, b, p.words) && Enters(src, b, p1.words) && ArityRespected(src)
  {
    && (forall j: nat :: j >= done ==> LiveAt(src, b, p, j) == LiveAt(src, b, p1, j - done))
    && (forall j: nat :: j < done ==> LiveAt(src, b, p, j).Again?)
  }

  /** The unrolled branch is compiled from the source branch, and the source conditions hold. */
  ghost predicate LoopCompiles(br: Branch, own: string, u: Unrolled, table: BlockTable, requested: nat, cap: nat) {
    var arity := |br.params|;
    var st := ParamSlots(br.params);
    && (forall i :: 0 <= i < arity ==> br.params[i].Some?)
    && Detect(br.body, arity, own).Some?
    && (var loop := Detect(br.body, arity, own).value;
        var c := CompileStmts(loop.exit.body, 1, st, 0);
        && SelfArm(AsSelf(loop.self.body), arity) && EmitUnrolled(loop, arity, st, requested) == Some(u)
        && c.Done? && table == c.blocks && c.st.next <= cap)
    && ScopedAll(br.body, ParamNames(br.params)) && RestrainedAll(br.body, cap)
    && StagedInAll(br.body) <= JUMP_ARGS_WORDS
  }

  /** Everything known of an unrolled branch `b`. */
  ghost predicate Unrolls(src: Source, prog: Program, b: nat, u: Unrolled, requested: nat, cap: nat) {
    && prog.pick == src.pick && prog.world == src.world && Gentle(src.world)
    && b in src.branches && b in prog.branches
    && LoopCompiles(src.branches[b], src.own, u, prog.branches[b], requested, cap)
  }

  // ---------- One iteration ----------

  lemma DetectShape(body: seq<Expr>, arity: nat, own: string)
    requires Detect(body, arity, own).Some?
    ensures |body| == 1 && body[0].When? && body[0].cond.P? && |body[0].arms| == 2
    ensures var loop := Detect(body, arity, own).value;
      && body[0].cond.pure == loop.cond && TwoArms(body[0].arms, loop.self, loop.exit)
      && Polarity(loop.self.key, loop.exit.key) == Some(loop.onTruthy)
      && LoopArm(loop.self.body, arity, own) && SelfArm(AsSelf(loop.self.body), arity)
  {
    hide LoopArm, SelfArm, AsSelf;
    var arms := body[0].arms;
    assert arms == [arms[0], arms[1]];
    ReadAsSelf(Detect(body, arity, own).value.self.body, arity, own);
  }

  /** Registers, memory and trace hold the source's point. */
  predicate Carries(r: M, p: Point) {
    Holds(r.vars, 0, p.words) && r.mem == p.mem && r.trace == p.trace && !r.dying
  }

  /** The result of the branch body entered at `p`. */
  function BodyAt(src: Source, b: nat, p: Point): Result
    requires b in src.branches && Enters(src, b, p.words)
  {
    Forget(EvalStmts(src.branches[b].body, Entry(src.branches[b], p), src.world))
  }

  /** The source enters branch `b`, which is a loop, with the words of `p`. */
  predicate InBranch(src: Source, b: nat, p: Point) {
    && b in src.branches && Enters(src, b, p.words)
    && Detect(src.branches[b].body, |src.branches[b].params|, src.own).Some?
  }

  function LoopOf(src: Source, b: nat): TailLoop
    requires b in src.branches && Detect(src.branches[b].body, |src.branches[b].params|, src.own).Some?
  {
    Detect(src.branches[b].body, |src.branches[b].params|, src.own).value
  }

  function Discriminant(src: Source, b: nat, p: Point): PureResult
    requires InBranch(src, b, p)
  {
    PureEval(LoopOf(src, b).cond, Entry(src.branches[b], p).env, p.mem)
  }

  function ArmAt(src: Source, b: nat, arm: Arm, p: Point): Result
    requires b in src.branches && Enters(src, b, p.words)
  {
    var s := Entry(src.branches[b], p);
    Forget(Lake.Leave(s.env, EvalStmts(arm.body, s, src.world)))
  }

  /** Testing against zero continues the loop. */
  predicate TakesSelf(src: Source, b: nat, p: Point)
    requires InBranch(src, b, p)
  {
    Discriminant(src, b, p).Ok? && (Discriminant(src, b, p).w != 0) == LoopOf(src, b).onTruthy
  }

  /** The loop arm as the unroller reads it. */
  function ReadArm(loop: TailLoop): Arm {
    Arm(loop.self.key, AsSelf(loop.self.body))
  }

  /** The result of the arm that testing against zero takes, a loop arm's closing call read as `self(...)`. */
  function TakenAt(src: Source, b: nat, p: Point): Result
    requires InBranch(src, b, p)
  {
    match Discriminant(src, b, p)
    case Ok(_) => ArmAt(src, b, if TakesSelf(src, b, p) then ReadArm(LoopOf(src, b)) else LoopOf(src, b).exit, p)
    case Trap => Halt(Trapped, p.mem, p.trace)
    case Unbound => Wrong
  }

  /** The discriminant reached is one for which testing against zero selects what the keys select. */
  predicate FitsAt(src: Source, b: nat, p: Point)
    requires InBranch(src, b, p)
  {
    Discriminant(src, b, p).Ok? ==> Fits(LoopOf(src, b).self.key, LoopOf(src, b).exit.key, Discriminant(src, b, p).w)
  }

  /** If the self arm is taken here, its `self(...)` enters this very branch. */
  predicate StaysAt(src: Source, b: nat, p: Point)
    requires InBranch(src, b, p)
  {
    TakesSelf(src, b, p) && TakenAt(src, b, p).Again? ==> src.pick(TakenAt(src, b, p).args) == b
  }

  /** If the loop arm is taken here and reaches its closing call, that call is `self(...)` and not a call by name. */
  predicate ClosesAt(src: Source, b: nat, p: Point)
    requires InBranch(src, b, p)
  {
    TakesSelf(src, b, p) && TakenAt(src, b, p).Again? ==> AsSelf(LoopOf(src, b).self.body) == LoopOf(src, b).self.body
  }

  /** What the unroller relies on at one point of a run, and does not check. */
  predicate SteadyAt(src: Source, b: nat, p: Point)
    requires InBranch(src, b, p)
  {
    FitsAt(src, b, p) && ClosesAt(src, b, p) && StaysAt(src, b, p)
  }

  /** With a discriminant that fits, the body does what the arm as written does. */
  lemma ArmIsBody(src: Source, b: nat, p: Point)
    requires InBranch(src, b, p) && FitsAt(src, b, p)
    ensures TakesSelf(src, b, p) ==> BodyAt(src, b, p) == ArmAt(src, b, LoopOf(src, b).self, p)
    ensures !TakesSelf(src, b, p) ==> BodyAt(src, b, p) == TakenAt(src, b, p)
  {
    hide PureEval, Select, EvalArgs, Perform, Detect, EntryEnv, AsSelf, LoopArm;
    var br := src.branches[b];
    var loop := LoopOf(src, b);
    var s := Entry(br, p);
    DetectShape(br.body, |br.params|, src.own);
    var e := br.body[0];
    assert EvalStmts(br.body, s, src.world) == Eval(e, s, src.world);
    assert Eval(e.cond, s, src.world) == EvalPure(loop.cond, s);
    if Discriminant(src, b, p).Ok? {
      PolarityExact(e.arms, loop.self, loop.exit, Discriminant(src, b, p).w);
    }
  }

  /** A loop arm that does not reach its closing call ends as written; one that does re-enters only by `self(...)`. */
  lemma {:induction false} ReadingExact(body: seq<Expr>, arity: nat, own: string, s: State, world: World)
    requires LoopArm(body, arity, own)
    ensures var v, w := EvalStmts(AsSelf(body), s, world), EvalStmts(body, s, world);
      && !v.Val? && (!v.Again? ==> w == v)
      && (v.Again? && body[|body| - 1].Call? ==> !w.Again?)
    decreases body
  {
    hide PureEval, Perform;
    var last := body[|body| - 1];
    if |body| == 1 {
      ClosingExact(last, s, world);
      assert AsSelf(body) == [if last.Call? then SelfCall(last.args) else last];
    } else {
      assert body[1..][|body| - 2] == last;
      assert AsSelf(body)[0] == body[0] && AsSelf(body)[1..] == AsSelf(body[1..]);
      NeverAgain(body[0], s, world);
      var r := Eval(body[0], s, world);
      if r.Val? {
        ReadingExact(body[1..], arity, own, r.s, world);
      }
    }
  }

  lemma ClosingExact(e: Expr, s: State, world: World)
    requires (e.SelfCall? || e.Call?) && AllPure(e.args)
    ensures var v, w := Eval(SelfCall(e.args), s, world), Eval(e, s, world);
      && !v.Val? && (!v.Again? ==> w == v)
      && (v.Again? && e.Call? ==> !w.Again?)
  {
    hide PureEval;
    PureNeverAgain(e.args, s, world);
  }

  lemma {:induction false} PureNeverAgain(es: seq<Expr>, s: State, world: World)
    requires AllPure(es)
    ensures var r := EvalArgs(es, s, world); r.Early? ==> !r.r.Again? && !r.r.Val?
    decreases es
  {
    hide PureEval;
    if es != [] {
      assert es[0] in es;
      var r := Eval(es[0], s, world);
      if r.Val? {
        PureNeverAgain(es[1..], r.s, world);
      }
    }
  }

  lemma NeverAgain(e: Expr, s: State, world: World)
    requires UnrollSafe(e)
    ensures !Eval(e, s, world).Again?
  {
    hide PureEval;
    if e.Call? {
      PureNeverAgain(e.args, s, world);
    }
  }

  /** With a discriminant that fits and a closing `self(...)`, the arm taken gives the body's result. */
  lemma TakenIsBody(src: Source, b: nat, p: Point)
    requires InBranch(src, b, p) && FitsAt(src, b, p) && ClosesAt(src, b, p)
    ensures TakenAt(src, b, p) == BodyAt(src, b, p)
  {
    hide PureEval, Detect, EntryEnv, EvalStmts, LoopArm, AsSelf;
    ArmIsBody(src, b, p);
    if TakesSelf(src, b, p) {
      DetectShape(src.branches[b].body, |src.branches[b].params|, src.own);
      ReadingExact(LoopOf(src, b).self.body, |p.words|, src.own, Entry(src.branches[b], p), src.world);
    }
  }

  // ---------- One copy against one iteration ----------

  /** Where an iteration leads: into a branch at a point, or to the end of the run. */
  datatype Onward = GoOn(branch: nat, p: Point) | End(r: Result)

  function SourceNext(src: Source, b: nat, p: Point): Onward
    requires InBranch(src, b, p)
  {
    var v := BodyAt(src, b, p);
    if v.Again? then GoOn(src.pick(v.args), Point(v.args, v.mem, v.trace)) else End(v)
  }

  /** An unrolled copy: the arm by testing against zero, and a self arm that always stays. */
  function CopyNext(src: Source, b: nat, p: Point): Onward
    requires InBranch(src, b, p)
  {
    var v := TakenAt(src, b, p);
    if v.Again? then GoOn(if TakesSelf(src, b, p) then b else src.pick(v.args), Point(v.args, v.mem, v.trace)) else End(v)
  }

  /** The arm taken happens to give what the arm selected by its key gives, or what falling through gives. */
  predicate ArmsCoincide(src: Source, b: nat, p: Point)
    requires InBranch(src, b, p)
  {
    Discriminant(src, b, p).Ok? &&
    (DetectShape(src.branches[b].body, |src.branches[b].params|, src.own);
     var arms := src.branches[b].body[0].arms;
     match Select(arms, Discriminant(src, b, p).w)
     case None => TakenAt(src, b, p) == Val(Entry(src.branches[b], p), None)
     case Some(i) => TakenAt(src, b, p) == ArmAt(src, b, arms[i], p))
  }

  /**
   * A copy does what the source's iteration does if and only if the self arm, when taken, stays in the branch, and:
   * the discriminant fits the keys and the closing call is `self(...)` where the arm reaches it; or, where the
   * discriminant does not fit, both arms happen to do the same.
   */
  lemma IterationExact(src: Source, b: nat, p: Point)
    requires InBranch(src, b, p)
    ensures CopyNext(src, b, p) == SourceNext(src, b, p) <==>
            StaysAt(src, b, p) && if FitsAt(src, b, p) then ClosesAt(src, b, p) else ArmsCoincide(src, b, p)
  {
    hide PureEval, Select, EvalArgs, Perform, Detect, EntryEnv, AsSelf, LoopArm, EvalStmts;
    if FitsAt(src, b, p) {
      if ClosesAt(src, b, p) {
        TakenIsBody(src, b, p);
      } else {
        CalledByName(src, b, p);
      }
    } else {
      UnfitBody(src, b, p);
    }
  }

  /** Called by its name where `self` was meant, the machine does not re-enter. */
  lemma CalledByName(src: Source, b: nat, p: Point)
    requires InBranch(src, b, p) && FitsAt(src, b, p) && !ClosesAt(src, b, p)
    ensures TakenAt(src, b, p).Again? && !BodyAt(src, b, p).Again?
  {
    hide PureEval, Detect, EntryEnv, EvalStmts;
    ArmIsBody(src, b, p);
    DetectShape(src.branches[b].body, |src.branches[b].params|, src.own);
    ReadAsSelf(LoopOf(src, b).self.body, |p.words|, src.own);
    ReadingExact(LoopOf(src, b).self.body, |p.words|, src.own, Entry(src.branches[b], p), src.world);
  }

  lemma UnfitBody(src: Source, b: nat, p: Point)
    requires InBranch(src, b, p) && !FitsAt(src, b, p)
    ensures TakenAt(src, b, p) == BodyAt(src, b, p) <==> ArmsCoincide(src, b, p)
  {
    hide PureEval, Select, EvalArgs, Perform, Detect, EntryEnv, AsSelf, LoopArm;
    var br := src.branches[b];
    var s := Entry(br, p);
    DetectShape(br.body, |br.params|, src.own);
    assert EvalStmts(br.body, s, src.world) == Eval(br.body[0], s, src.world);
    assert Eval(br.body[0].cond, s, src.world) == EvalPure(LoopOf(src, b).cond, s);
  }

  /** The registers stand at `p`, in a branch whose iterations can be emitted. */
  ghost predicate Registers(src: Source, b: nat, p: Point, r: M) {
    && InBranch(src, b, p) && Gentle(src.world) && Carries(r, p)
    && SelfArm(AsSelf(LoopOf(src, b).self.body), |p.words|)
    && EmitIteration(LoopOf(src, b), |p.words|, ParamSlots(src.branches[b].params)).Emitted?
  }

  ghost function IterationOf(src: Source, b: nat, p: Point, r: M): seq<Instr>
    requires Registers(src, b, p, r)
  {
    EmitIteration(LoopOf(src, b), |p.words|, ParamSlots(src.branches[b].params)).code
  }

  /** The register code of one copy goes where `CopyNext` says. */
  lemma {:induction false} SimIteration(src: Source, b: nat, r: M, p: Point)
    requires Registers(src, b, p, r) && TakenAt(src, b, p) != Wrong
    ensures var v := TakenAt(src, b, p);
      match RunChunk(src.world, LoopOf(src, b).onTruthy, IterationOf(src, b, p, r), r)
      case Through(r1) =>
        && TakesSelf(src, b, p) && v.Again? && |v.args| == |p.words|
        && CopyNext(src, b, p) == GoOn(b, Point(v.args, v.mem, v.trace))
        && Registers(src, b, Point(v.args, v.mem, v.trace), r1)
      case Left(r1) => r1 == r && !TakesSelf(src, b, p) && v == ArmAt(src, b, LoopOf(src, b).exit, p)
      case Broke(why, r1) => CopyNext(src, b, p) == End(v) && v == Halt(why, r1.mem, r1.trace)
  {
    hide PureEval, EvalStmts, Detect, EmitArm, SelfArm, Resolve, AsSelf;
    var br := src.branches[b];
    var loop := LoopOf(src, b);
    var st := ParamSlots(br.params);
    var s := Entry(br, p);
    EntryAgrees(br.params, p.words, r.vars);
    ResolveAgrees(loop.cond, s.env, st.vars, r.vars, r.mem);
    var arm := EmitArm(AsSelf(loop.self.body), |p.words|, st);
    var q := Guard(Resolve(loop.cond, st.vars).value);
    assert ([q] + arm.code)[0] == q && ([q] + arm.code)[1..] == arm.code;
    if TakesSelf(src, b, p) {
      SimSelfArm(src.world, loop.onTruthy, AsSelf(loop.self.body), |p.words|, st, s, r);
    }
  }

  // ---------- Several iterations ----------

  lemma LiveStep(src: Source, b: nat, p: Point, n: nat)
    requires b in src.branches && Enters(src, b, p.words) && ArityRespected(src)
    ensures var v := BodyAt(src, b, p);
      && LiveAt(src, b, p, 0) == v
      && LiveAt(src, b, p, n) ==
         if v.Again? && n > 0 then LiveAt(src, src.pick(v.args), Point(v.args, v.mem, v.trace), n - 1) else v
  {
    hide EvalStmts, EntryEnv;
  }

  lemma MovedNone(src: Source, b: nat, p: Point)
    requires Enters(src, b, p.words) && ArityRespected(src)
    ensures Moved(src, b, p, p, 0)
  {
  }

  lemma MovedOn(src: Source, b: nat, p: Point, p1: Point, p2: Point, done: nat, more: nat)
    requires Enters(src, b, p.words) && Enters(src, b, p1.words) && Enters(src, b, p2.words) && ArityRespected(src)
    requires Moved(src, b, p, p1, done) && Moved(src, b, p1, p2, more)
    ensures Moved(src, b, p, p2, done + more)
  {
    hide LiveAt;
    forall j: nat | j >= done + more ensures LiveAt(src, b, p, j) == LiveAt(src, b, p2, j - (done + more)) {
      assert LiveAt(src, b, p1, j - done) == LiveAt(src, b, p2, j - done - more);
    }
    forall j: nat | j < done + more ensures LiveAt(src, b, p, j).Again? {
      if j >= done {
        assert LiveAt(src, b, p1, j - done).Again?;
      }
    }
  }

  /** One `self(...)` that stays in the branch. */
  lemma MovedOne(src: Source, b: nat, p: Point)
    requires b in src.branches && Enters(src, b, p.words) && ArityRespected(src) && BodyAt(src, b, p).Again?
    requires src.pick(BodyAt(src, b, p).args) == b
    ensures var v := BodyAt(src, b, p);
      Enters(src, b, v.args) && Moved(src, b, p, Point(v.args, v.mem, v.trace), 1)
  {
    hide LiveAt, BodyAt;
    var v := BodyAt(src, b, p);
    forall j: nat ensures j >= 1 ==> LiveAt(src, b, p, j) == LiveAt(src, b, Point(v.args, v.mem, v.trace), j - 1)
      ensures j == 0 ==> LiveAt(src, b, p, j).Again?
    {
      LiveStep(src, b, p, j);
    }
  }

  ghost predicate NeverWrong(src: Source, b: nat, p: Point)
    requires Enters(src, b, p.words) && ArityRespected(src)
  {
    forall j: nat :: LiveAt(src, b, p, j) != Wrong
  }

  /** Along `n` more iterations, every loop of `loops` is steady wherever it is entered. */
  ghost predicate SteadyFor(src: Source, loops: set<nat>, b: nat, p: Point, n: nat)
    requires Enters(src, b, p.words) && ArityRespected(src)
    decreases n
  {
    b in src.branches ==>
      && (b in loops && InBranch(src, b, p) ==> SteadyAt(src, b, p))
      && var v := BodyAt(src, b, p);
         v.Again? && n > 0 ==> SteadyFor(src, loops, src.pick(v.args), Point(v.args, v.mem, v.trace), n - 1)
  }

  /** The source run from `p` is defined, and steady wherever it goes through an unrolled loop. */
  ghost predicate Proper(src: Source, loops: set<nat>, b: nat, p: Point)
    requires Enters(src, b, p.words) && ArityRespected(src)
  {
    NeverWrong(src, b, p) && forall n: nat :: SteadyFor(src, loops, b, p, n)
  }

  lemma ProperHere(src: Source, loops: set<nat>, b: nat, p: Point)
    requires b in src.branches && Enters(src, b, p.words) && ArityRespected(src) && Proper(src, loops, b, p)
    ensures BodyAt(src, b, p) != Wrong
    ensures b in loops && InBranch(src, b, p) ==> SteadyAt(src, b, p)
  {
    hide LiveAt, BodyAt, SteadyAt;
    LiveStep(src, b, p, 0);
    assert LiveAt(src, b, p, 0) != Wrong;
    assert SteadyFor(src, loops, b, p, 0);
  }

  /** It stays so from one branch body to the next. */
  lemma ProperNext(src: Source, loops: set<nat>, b: nat, p: Point)
    requires b in src.branches && Enters(src, b, p.words) && ArityRespected(src) && Proper(src, loops, b, p)
    requires BodyAt(src, b, p).Again?
    ensures var v := BodyAt(src, b, p);
      Enters(src, src.pick(v.args), v.args) && Proper(src, loops, src.pick(v.args), Point(v.args, v.mem, v.trace))
  {
    hide LiveAt, BodyAt, SteadyAt;
    var v := BodyAt(src, b, p);
    var p1 := Point(v.args, v.mem, v.trace);
    forall j: nat ensures LiveAt(src, src.pick(v.args), p1, j) != Wrong {
      LiveStep(src, b, p, j + 1);
      assert LiveAt(src, b, p, j + 1) != Wrong;
    }
    forall n: nat ensures SteadyFor(src, loops, src.pick(v.args), p1, n) {
      assert SteadyFor(src, loops, b, p, n + 1);
    }
  }

  /** The source is over with this result, after `done` or more iterations. */
  ghost predicate Over(src: Source, b: nat, p: Point, done: nat, v: Result)
    requires Enters(src, b, p.words) && ArityRespected(src)
  {
    && (forall j: nat :: j >= done ==> LiveAt(src, b, p, j) == v)
    && (forall j: nat :: j < done ==> LiveAt(src, b, p, j).Again?)
  }

  lemma OverHere(src: Source, b: nat, p: Point)
    requires b in src.branches && Enters(src, b, p.words) && ArityRespected(src) && !BodyAt(src, b, p).Again?
    ensures Over(src, b, p, 0, BodyAt(src, b, p))
  {
    hide LiveAt, BodyAt;
    forall j: nat ensures LiveAt(src, b, p, j) == BodyAt(src, b, p) {
      LiveStep(src, b, p, j);
    }
  }

  lemma OverLater(src: Source, b: nat, p: Point, p1: Point, done: nat, more: nat, v: Result)
    requires Enters(src, b, p.words) && Enters(src, b, p1.words) && ArityRespected(src)
    requires Moved(src, b, p, p1, done) && Over(src, b, p1, more, v)
    ensures Over(src, b, p, done + more, v)
  {
    hide LiveAt;
    forall j: nat | j >= done + more ensures LiveAt(src, b, p, j) == v {
      assert LiveAt(src, b, p, j) == LiveAt(src, b, p1, j - done);
    }
    forall j: nat | j < done + more ensures LiveAt(src, b, p, j).Again? {
      if j >= done {
        assert LiveAt(src, b, p1, j - done).Again?;
      }
    }
  }

  /** What a chunk assumes. */
  ghost predicate InLoop(src: Source, loops: set<nat>, b: nat, p: Point, r: M) {
    Registers(src, b, p, r) && ArityRespected(src) && b in loops && Proper(src, loops, b, p)
  }

  /** Where a stretch of `copies` iterations from `p` takes the source, when the register code ends as `end`. */
  ghost predicate ChunkLands(src: Source, loops: set<nat>, b: nat, p: Point, copies: nat, end: ChunkEnd, done: nat, p1: Point)
    requires b in src.branches && Detect(src.branches[b].body, |src.branches[b].params|, src.own).Some?
    requires Enters(src, b, p.words) && ArityRespected(src)
  {
    && Enters(src, b, p1.words)
    && match end
       case Through(r1) => done == copies && Moved(src, b, p, p1, done) && Carries(r1, p1) && Proper(src, loops, b, p1)
       case Left(r1) =>
         && done < copies && Moved(src, b, p, p1, done) && Carries(r1, p1) && Proper(src, loops, b, p1)
         && BodyAt(src, b, p1) == ArmAt(src, b, LoopOf(src, b).exit, p1)
       case Broke(why, r1) => done < copies && Over(src, b, p, done, Halt(why, r1.mem, r1.trace))
  }

  lemma FirstIteration(src: Source, loops: set<nat>, b: nat, p: Point, r: M)
    returns (p1: Point)
    requires InLoop(src, loops, b, p, r)
    ensures var end := RunChunk(src.world, LoopOf(src, b).onTruthy, IterationOf(src, b, p, r), r);
      && ChunkLands(src, loops, b, p, 1, end, if end.Through? then 1 else 0, p1)
      && (end.Through? ==> InLoop(src, loops, b, p1, end.m))
  {
    hide LiveAt, BodyAt, ArmAt, TakenAt, FitsAt, RunChunk, EmitIteration, Detect, SelfArm, AsSelf, Moved, Over, Proper, TakesSelf;
    p1 := p;
    ProperHere(src, loops, b, p);
    TakenIsBody(src, b, p);
    SimIteration(src, b, r, p);
    var end := RunChunk(src.world, LoopOf(src, b).onTruthy, IterationOf(src, b, p, r), r);
    var v := BodyAt(src, b, p);
    match end
    case Through(r1) =>
      p1 := Point(v.args, v.mem, v.trace);
      MovedOne(src, b, p);
      ProperNext(src, loops, b, p);
    case Left(_) => MovedNone(src, b, p);
    case Broke(_, _) => OverHere(src, b, p);
  }

  /** Any number of copies in a row. */
  lemma {:induction false} SimChunk(src: Source, loops: set<nat>, b: nat, p: Point, r: M, copies: nat)
    returns (done: nat, p1: Point)
    requires InLoop(src, loops, b, p, r)
    ensures var end := RunChunk(src.world, LoopOf(src, b).onTruthy, Copies(IterationOf(src, b, p, r), copies), r);
      && ChunkLands(src, loops, b, p, copies, end, done, p1)
      && (end.Through? ==> InLoop(src, loops, b, p1, end.m))
    decreases copies
  {
    hide LiveAt, BodyAt, ArmAt, RunChunk, EmitIteration, Detect, SelfArm, AsSelf, Moved, Over, Proper, Carries, Gentle;
    hide ArityRespected;
    done, p1 := 0, p;
    var code, truthy := IterationOf(src, b, p, r), LoopOf(src, b).onTruthy;
    if copies == 0 {
      NoIteration(src, loops, b, p, r);
    } else {
      var next := FirstIteration(src, loops, b, p, r);
      RunChunkAppend(src.world, truthy, code, Copies(code, copies - 1), r);
      var end := RunChunk(src.world, truthy, code, r);
      p1 := next;
      if end.Through? {
        SameIteration(src, loops, b, p, r, next, end.m);
        var more, last := SimChunk(src, loops, b, next, end.m, copies - 1);
        done, p1 := 1 + more, last;
        ChunkOn(src, loops, b, p, next, copies, RunChunk(src.world, truthy, Copies(code, copies - 1), end.m), more, last);
      }
    }
  }

  lemma NoIteration(src: Source, loops: set<nat>, b: nat, p: Point, r: M)
    requires InLoop(src, loops, b, p, r)
    ensures ChunkLands(src, loops, b, p, 0, RunChunk(src.world, LoopOf(src, b).onTruthy, [], r), 0, p)
    ensures RunChunk(src.world, LoopOf(src, b).onTruthy, [], r) == Through(r)
  {
    hide LiveAt, BodyAt, ArmAt, EmitIteration, Detect, SelfArm, AsSelf;
    MovedNone(src, b, p);
  }

  lemma SameIteration(src: Source, loops: set<nat>, b: nat, p: Point, r: M, p1: Point, r1: M)
    requires InLoop(src, loops, b, p, r) && InLoop(src, loops, b, p1, r1)
    ensures IterationOf(src, b, p, r) == IterationOf(src, b, p1, r1)
  {
  }

  lemma ChunkOn(src: Source, loops: set<nat>, b: nat, p: Point, p1: Point, copies: nat, end: ChunkEnd, more: nat, p2: Point)
    requires b in src.branches && Detect(src.branches[b].body, |src.branches[b].params|, src.own).Some?
    requires Enters(src, b, p.words) && Enters(src, b, p1.words) && ArityRespected(src) && copies > 0
    requires Moved(src, b, p, p1, 1) && ChunkLands(src, loops, b, p1, copies - 1, end, more, p2)
    ensures ChunkLands(src, loops, b, p, copies, end, 1 + more, p2)
  {
    hide LiveAt, BodyAt, ArmAt, Detect, SelfArm, AsSelf, Moved, Over, Proper, Carries;
    match end
    case Through(_) => MovedOn(src, b, p, p1, p2, 1, more);
    case Left(_) => MovedOn(src, b, p, p1, p2, 1, more);
    case Broke(why, r1) => OverLater(src, b, p, p1, 1, more, Halt(why, r1.mem, r1.trace));
  }

  // ---------- One visit: every quantum, every yield ----------

  /** VARIABLES hold the point: what a yield or the exit arm must find in memory. */
  predicate Committed(m: M, p: Point, cap: nat) {
    EntryState(m, p.words, cap) && m.mem == p.mem && m.trace == p.trace
  }

  /** `done` is one chunk or several. */
  predicate Whole(done: nat, factor: nat)
    requires factor >= 1
  {
    done == factor || (done > factor && Whole(done - factor, factor))
  }

  /**
   * One visit, from entry to the next yield or to the end of the loop. At a yield a positive whole number of chunks
   * has run, the fewest that use the quantum up, and memory holds the values of the iteration reached; the same holds
   * when the exit arm is entered in the middle of a chunk; a trap is the source's trap. No chunk starts once the
   * quantum is used up.
   */
  ghost predicate VisitLands(src: Source, loops: set<nat>, b: nat, u: Unrolled, p: Point, end: VisitEnd, quantum: int, done: nat,
      p1: Point, cap: nat)
    requires b in src.branches && Detect(src.branches[b].body, |src.branches[b].params|, src.own).Some?
    requires Enters(src, b, p.words) && ArityRespected(src) && u.factor >= 1
  {
    && Enters(src, b, p1.words)
    && match end
       case Yielded(m1) =>
         && Whole(done, u.factor) && quantum <= done && (done == u.factor || done - u.factor < quantum)
         && Moved(src, b, p, p1, done) && Committed(m1, p1, cap) && Proper(src, loops, b, p1)
       case Exited(m1) =>
         && (done < u.factor || done - u.factor < quantum)
         && Moved(src, b, p, p1, done) && Committed(m1, p1, cap) && Proper(src, loops, b, p1)
         && BodyAt(src, b, p1) == ArmAt(src, b, LoopOf(src, b).exit, p1)
       case Crashed(why, m1) =>
         (done < u.factor || done - u.factor < quantum) && Over(src, b, p, done, Halt(why, m1.mem, m1.trace))
  }

  lemma CommitCarries(m: M, r: M, p: Point, cap: nat)
    requires Roomy(m, cap) && Carries(r, p) && |p.words| <= cap
    ensures Committed(Commit(m, r, |p.words|), p, cap)
  {
    var m1 := Commit(m, r, |p.words|);
    forall k | 0 <= k < |p.words| ensures k in m1.vars && m1.vars[k] == p.words[k] {
      assert k in r.vars && r.vars[k] == p.words[k - 0];
      assert k in m.vars;
    }
  }

  lemma {:induction false} SimVisit(src: Source, loops: set<nat>, b: nat, u: Unrolled, requested: nat, p: Point, m: M, r: M, quantum: int,
      cap: nat)
    returns (done: nat, p1: Point)
    requires InLoop(src, loops, b, p, r) && Roomy(m, cap) && |p.words| <= cap
    requires EmitUnrolled(LoopOf(src, b), |p.words|, ParamSlots(src.branches[b].params), requested) == Some(u)
    ensures VisitLands(src, loops, b, u, p, Visit(u, src.world, m, r, quantum), quantum, done, p1, cap)
    decreases quantum
  {
    hide LiveAt, BodyAt, ArmAt, RunChunk, EmitIteration, Detect, SelfArm, AsSelf, Moved, Over, Proper, Carries, Gentle;
    hide Commit, ArityRespected, Copies;
    done, p1 := SimChunk(src, loops, b, p, r, u.factor);
    var end := RunChunk(src.world, u.onTruthy, u.chunk, r);
    match end
    case Broke(_, _) =>
    case Left(r1) =>
      CommitCarries(m, r1, p1, cap);
    case Through(r1) =>
      CommitCarries(m, r1, p1, cap);
      var m1 := Commit(m, r1, u.arity);
      if quantum - u.factor > 0 {
        var more, last := SimVisit(src, loops, b, u, requested, p1, m1, r1, quantum - u.factor, cap);
        VisitOn(src, loops, b, u, p, p1, Visit(u, src.world, m1, r1, quantum - u.factor), quantum, u.factor, more, last, cap);
        done, p1 := done + more, last;
      }
  }

  lemma VisitOn(src: Source, loops: set<nat>, b: nat, u: Unrolled, p: Point, p1: Point, end: VisitEnd, quantum: int, done: nat,
      more: nat, p2: Point, cap: nat)
    requires b in src.branches && Detect(src.branches[b].body, |src.branches[b].params|, src.own).Some?
    requires Enters(src, b, p.words) && Enters(src, b, p1.words) && ArityRespected(src)
    requires u.factor >= 1 && done == u.factor < quantum
    requires Moved(src, b, p, p1, done) && VisitLands(src, loops, b, u, p1, end, quantum - u.factor, more, p2, cap)
    ensures VisitLands(src, loops, b, u, p, end, quantum, done + more, p2, cap)
  {
    hide LiveAt, BodyAt, ArmAt, Detect, SelfArm, AsSelf, Moved, Over, Proper, Carries, Committed;
    match end
    case Yielded(_) =>
      MovedOn(src, b, p, p1, p2, done, more);
    case Exited(_) => MovedOn(src, b, p, p1, p2, done, more);
    case Crashed(why, m1) => OverLater(src, b, p, p1, done, more, Halt(why, m1.mem, m1.trace));
  }

  // ---------- Whole runs ----------

  /** A compiled machine some of whose branches are unrolled; their tables hold the exit arms only, from id 1 on. */
  datatype UProgram = UProgram(prog: Program, loops: map<nat, Unrolled>) {
    ghost predicate Valid() {
      forall b :: b in loops ==> loops[b].factor >= 2 && b in prog.branches && 0 !in prog.branches[b]
    }
  }

  predicate AtLoop(up: UProgram, c: Cfg) {
    c.At? && c.branch in up.loops && c.id == 0
  }

  /** One dispatch: a whole visit of an unrolled loop with the quantum left at that moment, or one block. */
  ghost function UStep(up: UProgram, c: Cfg, quantum: int): Cfg
    requires up.Valid()
  {
    if AtLoop(up, c) then
      var u := up.loops[c.branch];
      match Visit(u, up.prog.world, c.m, LoadRegs(c.m, u.arity), quantum)
      case Yielded(m1) => At(c.branch, 0, m1)
      case Exited(m1) => At(c.branch, 1, m1)
      case Crashed(why, m1) => Stopped(why, m1)
    else Step(up.prog, c)
  }

  /** `k` dispatches, the i-th of them with quantum `quanta(i)` left. */
  ghost function USteps(up: UProgram, c: Cfg, quanta: nat -> int, i: nat, k: nat): Cfg
    requires up.Valid()
    decreases k
  {
    if k == 0 then c else USteps(up, UStep(up, c, quanta(i)), quanta, i + 1, k - 1)
  }

  lemma {:induction false} UStepsAdd(up: UProgram, c: Cfg, quanta: nat -> int, i: nat, j: nat, k: nat)
    requires up.Valid()
    ensures USteps(up, c, quanta, i, j + k) == USteps(up, USteps(up, c, quanta, i, j), quanta, i + j, k)
    decreases j
  {
    hide UStep;
    if j > 0 {
      UStepsAdd(up, UStep(up, c, quanta(i)), quanta, i + 1, j - 1, k);
    }
  }

  /** Blocks run the same up to the first arrival at an unrolled loop, where the block machine alone stands still. */
  lemma {:induction false} UFollows(up: UProgram, c: Cfg, quanta: nat -> int, i: nat, k: nat)
    returns (k1: nat)
    requires up.Valid()
    ensures USteps(up, c, quanta, i, k1) == Steps(up.prog, c, k)
    decreases k
  {
    hide RunBlock, Visit;
    if k == 0 {
      k1 := 0;
    } else if AtLoop(up, c) {
      assert Finished(up.prog, c);
      StandsStill(up.prog, c, k);
      k1 := 0;
    } else {
      var more := UFollows(up, Step(up.prog, c), quanta, i + 1, k - 1);
      k1 := 1 + more;
    }
  }

  lemma {:induction false} StandsStill(prog: Program, c: Cfg, k: nat)
    requires Finished(prog, c)
    ensures Steps(prog, c, k) == c
    decreases k
  {
    if k > 0 {
      StandsStill(prog, c, k - 1);
    }
  }

  /** Every branch of the source is compiled, unrolled or plain. */
  ghost predicate UCompiles(src: Source, up: UProgram, requested: nat, cap: nat) {
    && (forall b :: b in up.loops ==> Unrolls(src, up.prog, b, up.loops[b], requested, cap))
    && (forall b :: b !in up.loops ==> Installed(src, up.prog, b, cap))
  }

  lemma UCompilesValid(src: Source, up: UProgram, requested: nat, cap: nat)
    requires UCompiles(src, up, requested, cap)
    ensures up.Valid()
  {
    hide Gentle, CompileStmts, ScopedAll, RestrainedAll, StagedInAll, Detect, SelfArm, AsSelf, EmitIteration, Copies, EntryEnv;
    hide ParamSlots, Installed;
    forall b | b in up.loops ensures up.loops[b].factor >= 2 && b in up.prog.branches && 0 !in up.prog.branches[b] {
      assert Unrolls(src, up.prog, b, up.loops[b], requested, cap);
      var br := src.branches[b];
      var st := ParamSlots(br.params);
      EntryAgrees(br.params, seq(|br.params|, _ => 0), map i: nat | i in Numbers(|br.params|) :: 0);
      ShapeOfStmts(Detect(br.body, |br.params|, src.own).value.exit.body, 1, st, 0);
    }
  }

  function Numbers(n: nat): (s: set<nat>)
    ensures forall i: nat :: i in s <==> i < n
  {
    if n == 0 then {} else Numbers(n - 1) + {n - 1}
  }

  /** The end of a source run, in the machine with unrolled loops: finished for good, or stopped for the same reason. */
  ghost predicate UEnds(up: UProgram, c: Cfg, r: Result) {
    match r
    case Val(s, _) => Finished(up.prog, c) && !AtLoop(up, c) && c.m.mem == s.mem && c.m.trace == s.trace
    case Halt(why, mem, trace) => c == Stopped(why, c.m) && c.m.mem == mem && c.m.trace == trace
    case _ => false
  }

  /** The exit arm, from block 1. */
  lemma {:induction false} SimExit(src: Source, prog: Program, b: nat, u: Unrolled, requested: nat, p: Point, m: M, cap: nat)
    returns (k: nat)
    requires Unrolls(src, prog, b, u, requested, cap) && Enters(src, b, p.words) && Committed(m, p, cap)
    requires ArmAt(src, b, LoopOf(src, b).exit, p) != Wrong
    ensures var v := ArmAt(src, b, LoopOf(src, b).exit, p);
      && Ends(prog, Steps(prog, At(b, 1, m), k), v, cap)
      && (v.Val? ==> Steps(prog, At(b, 1, m), k).branch == b && Steps(prog, At(b, 1, m), k).id >= 1)
  {
    hide CompileStmts, EvalStmts, Step, Steps, ParamSlots, EntryEnv, ParamNames, Detect, Gentle, Scoped, Restrained;
    hide StagedWords, EmitIteration, Copies, SelfArm, Polarity, BodyAt;
    var br := src.branches[b];
    var st, s := ParamSlots(br.params), Entry(br, p);
    EntryAgrees(br.params, p.words, m.vars);
    var exit := LoopOf(src, b).exit.body;
    ExitScoped(br, src.own, cap);
    ShapeOfStmts(exit, 1, st, 0);
    k := SimStmts(prog, b, exit, 1, st, 0, s, m, cap);
  }

  lemma ExitScoped(br: Branch, own: string, cap: nat)
    requires Detect(br.body, |br.params|, own).Some?
    requires ScopedAll(br.body, ParamNames(br.params)) && RestrainedAll(br.body, cap)
    ensures var exit := Detect(br.body, |br.params|, own).value.exit.body;
      && ScopedAll(exit, ParamNames(br.params)) && RestrainedAll(exit, cap) && StagedInAll(exit) <= StagedInAll(br.body)
  {
    hide ParamNames, LetNames, SelfArm;
    DetectShape(br.body, |br.params|, own);
    var arms := br.body[0].arms;
    var bound := ParamNames(br.params);
    assert Bound(br.body[0].cond, bound) == bound;
    ArmsScoped(arms, bound, cap);
  }

  lemma {:induction false} ArmsScoped(arms: seq<Arm>, bound: set<string>, cap: nat)
    requires ScopedArms(arms, bound) && RestrainedArms(arms, cap)
    ensures forall i :: 0 <= i < |arms| ==>
      ScopedAll(arms[i].body, bound) && RestrainedAll(arms[i].body, cap) && StagedInAll(arms[i].body) <= StagedInArms(arms)
    decreases arms
  {
    hide ScopedAll, RestrainedAll, StagedInAll;
    if arms != [] {
      ArmsScoped(arms[1..], bound, cap);
      forall i | 0 <= i < |arms|
        ensures ScopedAll(arms[i].body, bound) && RestrainedAll(arms[i].body, cap) && StagedInAll(arms[i].body) <= StagedInArms(arms)
      {
        if i > 0 {
          assert arms[1..][i - 1] == arms[i];
        }
      }
    }
  }

  lemma RegistersAtEntry(src: Source, prog: Program, b: nat, u: Unrolled, requested: nat, p: Point, m: M, cap: nat)
    requires Unrolls(src, prog, b, u, requested, cap) && Enters(src, b, p.words) && Committed(m, p, cap)
    ensures Registers(src, b, p, LoadRegs(m, u.arity)) && Roomy(m, cap) && |p.words| <= cap
    ensures EmitUnrolled(LoopOf(src, b), |p.words|, ParamSlots(src.branches[b].params), requested) == Some(u)
  {
    hide EvalStmts, CompileStmts, Detect, SelfArm, AsSelf, Gentle, ScopedAll, RestrainedAll, StagedInAll, Copies;
    var r := LoadRegs(m, u.arity);
    var br := src.branches[b];
    assert Carries(r, p);
    EntryAgrees(br.params, p.words, m.vars);
    var c := CompileStmts(LoopOf(src, b).exit.body, 1, ParamSlots(br.params), 0);
    ShapeOfStmts(LoopOf(src, b).exit.body, 1, ParamSlots(br.params), 0);
  }

  /** The rest of a run, once one branch body is over. */
  lemma OneBody(src: Source, loops: set<nat>, b: nat, p: Point, n: nat)
    requires b in src.branches && Enters(src, b, p.words) && ArityRespected(src) && Proper(src, loops, b, p)
    ensures var v := BodyAt(src, b, p);
      && v != Wrong
      && (v.Again? && n > 0 ==>
            var p1 := Point(v.args, v.mem, v.trace);
            && Enters(src, src.pick(v.args), v.args) && Proper(src, loops, src.pick(v.args), p1)
            && LiveAt(src, b, p, n) == LiveAt(src, src.pick(v.args), p1, n - 1))
      && (!(v.Again? && n > 0) ==> LiveAt(src, b, p, n) == v)
  {
    hide LiveAt, BodyAt, Proper;
    LiveStep(src, b, p, n);
    ProperHere(src, loops, b, p);
    if BodyAt(src, b, p).Again? {
      ProperNext(src, loops, b, p);
    }
  }

  /**
   * Where a dispatch or more from `p` may take the machine: to a later point of the same branch, to the end of its
   * body, or to a trap inside the loop.
   */
  ghost predicate Dispatched(src: Source, up: UProgram, b: nat, p: Point, c: Cfg, done: nat, p1: Point, cap: nat)
    requires up.Valid() && b in src.branches && Enters(src, b, p.words) && Enters(src, b, p1.words) && ArityRespected(src)
  {
    || (&& done > 0 && c == At(b, 0, c.m) && Committed(c.m, p1, cap)
        && Moved(src, b, p, p1, done) && Proper(src, up.loops.Keys, b, p1))
    || (&& Moved(src, b, p, p1, done) && Proper(src, up.loops.Keys, b, p1)
        && Ends(up.prog, c, BodyAt(src, b, p1), cap) && (BodyAt(src, b, p1).Val? ==> UEnds(up, c, BodyAt(src, b, p1))))
    || (c.Stopped? && Over(src, b, p, done, Halt(c.why, c.m.mem, c.m.trace)))
  }

  /** One dispatch at an unrolled loop. */
  lemma {:induction false} LoopDispatch(src: Source, up: UProgram, requested: nat, b: nat, p: Point, m: M, cap: nat,
      quanta: nat -> int, i: nat)
    returns (k: nat, done: nat, p1: Point)
    requires up.Valid() && UCompiles(src, up, requested, cap) && b in up.loops
    requires Enters(src, b, p.words) && ArityRespected(src) && Committed(m, p, cap) && Proper(src, up.loops.Keys, b, p)
    ensures b in src.branches && Enters(src, b, p1.words)
    ensures Dispatched(src, up, b, p, USteps(up, At(b, 0, m), quanta, i, k), done, p1, cap)
  {
    hide LiveAt, BodyAt, ArmAt, Step, Steps, Detect, SelfArm, AsSelf, Moved, Over, Proper, LoopCompiles, Visit, Registers;
    hide Gentle, Installed, LoadRegs, Committed, EmitUnrolled;
    var u := up.loops[b];
    assert Unrolls(src, up.prog, b, u, requested, cap);
    RegistersAtEntry(src, up.prog, b, u, requested, p, m, cap);
    done, p1 := SimVisit(src, up.loops.Keys, b, u, requested, p, m, LoadRegs(m, u.arity), quanta(i), cap);
    var end := Visit(u, up.prog.world, m, LoadRegs(m, u.arity), quanta(i));
    var c := UStep(up, At(b, 0, m), quanta(i));
    OneDispatch(up, At(b, 0, m), quanta, i);
    k := 1;
    match end
    case Yielded(m1) =>
    case Crashed(why, m1) =>
    case Exited(m1) =>
      OneBody(src, up.loops.Keys, b, p1, 0);
      var more := SimExit(src, up.prog, b, u, requested, p1, m1, cap);
      var more1 := UFollows(up, At(b, 1, m1), quanta, i + 1, more);
      UStepsAdd(up, At(b, 0, m), quanta, i, 1, more1);
      k := 1 + more1;
  }

  lemma OneDispatch(up: UProgram, c: Cfg, quanta: nat -> int, i: nat)
    requires up.Valid()
    ensures USteps(up, c, quanta, i, 1) == UStep(up, c, quanta(i))
  {
    var d := UStep(up, c, quanta(i));
    assert USteps(up, d, quanta, i + 1, 0) == d;
  }

  /** A source run that ends within `n` iterations has done no more than `n` when it is inside the loop. */
  lemma WithinBound(src: Source, b: nat, p: Point, p1: Point, done: nat, n: nat)
    requires Enters(src, b, p.words) && Enters(src, b, p1.words) && ArityRespected(src)
    requires Moved(src, b, p, p1, done) && !LiveAt(src, b, p, n).Again?
    ensures done <= n && LiveAt(src, b, p, n) == LiveAt(src, b, p1, n - done)
  {
    hide LiveAt;
  }

  lemma NoBranch(src: Source, up: UProgram, requested: nat, b: nat, p: Point, m: M, cap: nat, n: nat,
      quanta: nat -> int, i: nat)
    returns (k: nat)
    requires up.Valid() && UCompiles(src, up, requested, cap) && b !in src.branches
    requires Enters(src, b, p.words) && ArityRespected(src) && Committed(m, p, cap)
    ensures UEnds(up, USteps(up, At(b, 0, m), quanta, i, k), LiveAt(src, b, p, n))
  {
    hide Unrolls, BranchCompiles;
    k := 0;
    if b in up.loops {
      assert up.loops[b].factor >= 2;
      NotASource(src, up.prog, b, up.loops[b], requested, cap);
    }
    assert Installed(src, up.prog, b, cap);
  }

  lemma NotASource(src: Source, prog: Program, b: nat, u: Unrolled, requested: nat, cap: nat)
    requires Unrolls(src, prog, b, u, requested, cap)
    ensures b in src.branches
  {
  }

  /** A branch compiled plain, to the end of its body. */
  lemma {:induction false} PlainDispatch(src: Source, up: UProgram, requested: nat, b: nat, p: Point, m: M, cap: nat,
      quanta: nat -> int, i: nat)
    returns (k: nat)
    requires up.Valid() && UCompiles(src, up, requested, cap) && b !in up.loops && b in src.branches
    requires Enters(src, b, p.words) && ArityRespected(src) && Committed(m, p, cap) && Proper(src, up.loops.Keys, b, p)
    ensures Dispatched(src, up, b, p, USteps(up, At(b, 0, m), quanta, i, k), 0, p, cap)
  {
    hide BodyAt, Step, Steps, Unrolls, USteps, BranchCompiles, Live;
    assert Installed(src, up.prog, b, cap);
    OneBody(src, up.loops.Keys, b, p, 0);
    var k0 := BranchCorrect(src, up.prog, b, p.words, m, cap);
    k := UFollows(up, At(b, 0, m), quanta, i, k0);
    MovedNone(src, b, p);
  }

  lemma SamePick(src: Source, up: UProgram, requested: nat, b: nat, cap: nat)
    requires UCompiles(src, up, requested, cap)
    ensures up.prog.pick == src.pick
  {
    assert if b in up.loops then Unrolls(src, up.prog, b, up.loops[b], requested, cap) else Installed(src, up.prog, b, cap);
  }

  /** What is left of a run after a dispatch: `left` iterations from `next`, or nothing (-1). */
  lemma RestOfRun(src: Source, up: UProgram, b: nat, p: Point, c: Cfg, done: nat, p1: Point, n: nat, cap: nat)
    returns (next: nat, next1: Point, left: int)
    requires up.Valid() && b in src.branches && Enters(src, b, p.words) && Enters(src, b, p1.words) && ArityRespected(src)
    requires Dispatched(src, up, b, p, c, done, p1, cap) && !LiveAt(src, b, p, n).Again? && up.prog.pick == src.pick
    ensures -1 <= left < n
    ensures left == -1 ==> UEnds(up, c, LiveAt(src, b, p, n))
    ensures left >= 0 ==>
      && Enters(src, next, next1.words) && Proper(src, up.loops.Keys, next, next1) && Committed(c.m, next1, cap)
      && c == At(next, 0, c.m) && LiveAt(src, b, p, n) == LiveAt(src, next, next1, left)
  {
    hide LiveAt, BodyAt, Moved, Proper, EntryState;
    next, next1, left := b, p1, -1;
    if !(c.Stopped? && Over(src, b, p, done, Halt(c.why, c.m.mem, c.m.trace))) {
      WithinBound(src, b, p, p1, done, n);
      if done > 0 && c == At(b, 0, c.m) && Committed(c.m, p1, cap) {
        left := n - done;
      } else {
        OneBody(src, up.loops.Keys, b, p1, n - done);
        var v := BodyAt(src, b, p1);
        if v.Again? && n - done > 0 {
          next, next1, left := src.pick(v.args), Point(v.args, v.mem, v.trace), n - done - 1;
        }
      }
    }
  }

  /**
   * Unrolling preserves meaning. Take any machine whose branches are compiled plain or unrolled, any unroll factor,
   * and any quantum at every dispatch. If the source run ends, the machine ends too, with the same memory and the
   * same trace of actions, for the same reason.
   */
  lemma {:induction false} UnrolledRunCorrect(src: Source, up: UProgram, requested: nat, b: nat, p: Point, m: M, cap: nat,
      n: nat, quanta: nat -> int, i: nat)
    returns (k: nat)
    requires UCompiles(src, up, requested, cap)
    requires Enters(src, b, p.words) && ArityRespected(src) && Committed(m, p, cap) && Proper(src, up.loops.Keys, b, p)
    requires !LiveAt(src, b, p, n).Again?
    ensures up.Valid() && UEnds(up, USteps(up, At(b, 0, m), quanta, i, k), LiveAt(src, b, p, n))
    decreases n
  {
    hide Live, LiveAt, BodyAt, Step, Steps, Moved, Over, Proper, Installed, Unrolls, USteps, Committed, AtLoop, UCompiles;
    hide Dispatched, UEnds;
    UCompilesValid(src, up, requested, cap);
    if b !in src.branches {
      k := NoBranch(src, up, requested, b, p, m, cap, n, quanta, i);
    } else {
      var done, p1 := 0, p;
      if b in up.loops {
        k, done, p1 := LoopDispatch(src, up, requested, b, p, m, cap, quanta, i);
      } else {
        k := PlainDispatch(src, up, requested, b, p, m, cap, quanta, i);
      }
      var c := USteps(up, At(b, 0, m), quanta, i, k);
      SamePick(src, up, requested, b, cap);
      var next, next1, left := RestOfRun(src, up, b, p, c, done, p1, n, cap);
      if left >= 0 {
        var more := UnrolledRunCorrect(src, up, requested, next, next1, c.m, cap, left, quanta, i + k);
        UStepsAdd(up, At(b, 0, m), quanta, i, k, more);
        k := k + more;
      }
    }
  }

  /**
   * The plain compilation and the unrolled one of the same source end alike: same end, same memory, same trace.
   */
  lemma UnrollingIsTransparent(src: Source, plain: Program, up: UProgram, requested: nat, b: nat, p: Point, m: M, cap: nat,
      n: nat, quanta: nat -> int)
    returns (j: nat, k: nat)
    requires UCompiles(src, up, requested, cap) && Compiles(src, plain, cap)
    requires Enters(src, b, p.words) && ArityRespected(src) && Committed(m, p, cap) && Proper(src, up.loops.Keys, b, p)
    requires !LiveAt(src, b, p, n).Again?
    ensures up.Valid()
    ensures var c, d := Steps(plain, At(b, 0, m), j), USteps(up, At(b, 0, m), quanta, 0, k);
      && c.m.mem == d.m.mem && c.m.trace == d.m.trace
      && (Finished(plain, c) <==> Finished(up.prog, d) && !AtLoop(up, d))
      && (c.Stopped? <==> d.Stopped?) && (c.Stopped? ==> c.why == d.why)
  {
    hide Live, Step, Steps, Installed, Unrolls, USteps, UCompiles, Compiles;
    UCompilesValid(src, up, requested, cap);
    assert LiveAt(src, b, p, n) != Wrong;
    j := RunCorrect(src, plain, b, p.words, m, cap, n);
    k := UnrolledRunCorrect(src, up, requested, b, p, m, cap, n, quanta, 0);
  }
}
