/** The loop unroller: which branch bodies it takes, the register code it emits for them, and what that code does. */
module Unroll {
  import opened Words
  import opened Lake
  import opened BlockMachine
  import opened BlockCompiler
  import opened CompilerCorrect

  // ---------- Detection ----------

  /** Runtime calls that may stand bare before the closing `self(...)`. */
  const SAFE_EFFECTS: set<string> := {"rt_store", "rt_copy_bytes"}

  /** A statement that may precede the closing `self(...)`: a pure `let`, a safe effect, or a bare load. */
  predicate UnrollSafe(e: Expr) {
    match e
    case Let(_, init) => init.P?
    case Call(c, args) => c.Rt? && c.name in SAFE_EFFECTS && AllPure(args)
    case P(p) => p.Load?
    case _ => false
  }

  function CalleeName(c: Callee<string>): string {
    match c
    case Rt(n) => n
    case Parking(n) => n
    case Spawn(m) => m
    case Send(x) => x
  }

  /** A call that the detector takes for re-entry: of `self`, or of the machine's own name, whatever that name means. */
  predicate Closing(e: Expr, own: string) {
    e.SelfCall? || (e.Call? && CalleeName(e.callee) == own)
  }

  predicate LoopArm(body: seq<Expr>, arity: nat, own: string) {
    && body != []
    && (var last := body[|body| - 1]; Closing(last, own) && |last.args| == arity && AllPure(last.args))
    && forall i :: 0 <= i < |body| - 1 ==> UnrollSafe(body[i])
  }

  /** A loop arm that closes by `self(...)`. */
  predicate SelfArm(body: seq<Expr>, arity: nat) {
    && body != []
    && (var last := body[|body| - 1]; last.SelfCall? && |last.args| == arity && AllPure(last.args))
    && forall i :: 0 <= i < |body| - 1 ==> UnrollSafe(body[i])
  }

  /** The arm with its closing call read as `self(...)`. */
  function AsSelf(body: seq<Expr>): seq<Expr> {
    if body != [] && body[|body| - 1].Call? then body[..|body| - 1] + [SelfCall(body[|body| - 1].args)] else body
  }

  lemma ReadAsSelf(body: seq<Expr>, arity: nat, own: string)
    requires LoopArm(body, arity, own)
    ensures SelfArm(AsSelf(body), arity)
    ensures AsSelf(body) == body <==> body[|body| - 1].SelfCall?
  {
    if body[|body| - 1].Call? {
      assert AsSelf(body)[|body| - 1] == SelfCall(body[|body| - 1].args);
      assert body[|body| - 1] != SelfCall(body[|body| - 1].args);
    }
  }

  /** Whether the loop continues on a non-zero discriminant; nothing for key pairs that are not taken. */
  function Polarity(self: Key, exit: Key): Option<bool> {
    match (self, exit)
    case (BoolKey(b), BoolKey(c)) => if b != c then Some(b) else None
    case (BoolKey(b), Wildcard) => Some(b)
    case (Wildcard, BoolKey(b)) => Some(!b)
    case _ => None
  }

  datatype TailLoop = TailLoop(cond: Pure<string>, self: Arm, exit: Arm, onTruthy: bool)

  /** In machine `own`, the body is one `when` on a pure condition with a loop arm and an exit arm. */
  function Detect(body: seq<Expr>, arity: nat, own: string): Option<TailLoop> {
    if |body| != 1 || !body[0].When? || !body[0].cond.P? || |body[0].arms| != 2 then None
    else
      var arms := body[0].arms;
      if !(arms[0].key.BoolKey? || arms[0].key.Wildcard?) || !(arms[1].key.BoolKey? || arms[1].key.Wildcard?) then None
      else
        var i := if LoopArm(arms[0].body, arity, own) then 0 else 1;
        if !LoopArm(arms[i].body, arity, own) then None
        else match Polarity(arms[i].key, arms[1 - i].key)
          case None => None
          case Some(truthy) => Some(TailLoop(body[0].cond.pure, arms[i], arms[1 - i], truthy))
  }

  /** `true`, `false` or the wildcard. */
  predicate TruthKey(k: Key) {
    k.BoolKey? || k.Wildcard?
  }

  /**
   * Taken is exactly one pure `when` with two arms under two different keys out of `true`, `false` and the wildcard,
   * one of them a loop arm; of two loop arms the first one loops.
   */
  lemma DetectExact(body: seq<Expr>, arity: nat, own: string)
    ensures Detect(body, arity, own).Some? <==>
      && |body| == 1 && body[0].When? && body[0].cond.P? && |body[0].arms| == 2
      && var a, b := body[0].arms[0], body[0].arms[1];
         TruthKey(a.key) && TruthKey(b.key) && a.key != b.key && (LoopArm(a.body, arity, own) || LoopArm(b.body, arity, own))
    ensures Detect(body, arity, own).Some? ==>
      var loop, a, b := Detect(body, arity, own).value, body[0].arms[0], body[0].arms[1];
      && loop.cond == body[0].cond.pure
      && (if LoopArm(a.body, arity, own) then loop.self == a && loop.exit == b else loop.self == b && loop.exit == a)
      && (loop.onTruthy <==> loop.self.key == BoolKey(true) || loop.exit.key == BoolKey(false))
  {
    hide LoopArm;
  }

  // ---------- Emission ----------

  /** Register code of one unrolled branch, in which a slot number names a register. */
  datatype Instr =
    | Guard(cond: Pure<nat>)
    | Def(slot: nat, p: Pure<nat>)
    | Touch(p: Pure<nat>)
    | Effect(name: string, ps: seq<Pure<nat>>)
    | Rebind(ps: seq<Pure<nat>>)

  datatype Emitted = NotEmitted | Emitted(code: seq<Instr>, st: Slots)

  /** One self arm: its statements, then every argument read before any register is written. */
  function EmitArm(es: seq<Expr>, arity: nat, st: Slots): Emitted
    requires SelfArm(es, arity)
  {
    if |es| == 1 then
      (match ResolveAll(es[0].args, st.vars)
       case None => NotEmitted
       case Some(ps) => Emitted([Rebind(ps)], st))
    else match EmitPre(es[0], st)
      case NotEmitted => NotEmitted
      case Emitted(one, st1) =>
        match EmitArm(es[1..], arity, st1)
        case NotEmitted => NotEmitted
        case Emitted(rest, st2) => Emitted(one + rest, st2)
  }

  function EmitPre(e: Expr, st: Slots): Emitted
    requires UnrollSafe(e)
  {
    match e
    case Let(x, init) =>
      (match Resolve(init.pure, st.vars)
       case None => NotEmitted
       case Some(p) => Emitted([Def(st.next, p)], st.Insert(x)))
    case Call(c, args) =>
      (match ResolveAll(args, st.vars) case None => NotEmitted case Some(ps) => Emitted([Effect(c.name, ps)], st))
    case P(p) =>
      (match Resolve(p, st.vars) case None => NotEmitted case Some(q) => Emitted([Touch(q)], st))
  }

  /** Forgetting the iteration's own names; their slots are above every other one. */
  function Drop(st: Slots, names: set<string>): map<string, nat> {
    st.vars - names
  }

  /** Names let-bound by a self arm's statements. */
  function Locals(es: seq<Expr>): set<string> {
    set i | 0 <= i < |es| && es[i].Let? :: es[i].name
  }

  function EmitIteration(loop: TailLoop, arity: nat, st: Slots): Emitted
    requires SelfArm(AsSelf(loop.self.body), arity)
  {
    match Resolve(loop.cond, st.vars)
    case None => NotEmitted
    case Some(q) =>
      match EmitArm(AsSelf(loop.self.body), arity, st)
      case NotEmitted => NotEmitted
      case Emitted(code, st1) => Emitted([Guard(q)] + code, st1)
  }

  function Copies(code: seq<Instr>, n: nat): seq<Instr> {
    if n == 0 then [] else code + Copies(code, n - 1)
  }

  /**
   * After an iteration is emitted, dropping its names restores the name table it started from, so that the next copy
   * is emitted the same way; true whenever the arm's `let`s shadow none of the names in the table.
   */
  lemma {:induction false} DropRestores(es: seq<Expr>, arity: nat, st: Slots)
    requires SelfArm(es, arity) && EmitArm(es, arity, st).Emitted?
    requires Locals(es) !! st.vars.Keys
    ensures Drop(EmitArm(es, arity, st).st, Locals(es)) == st.vars
    decreases es
  {
    EmitExtends(es, arity, st);
  }

  lemma {:induction false} EmitExtends(es: seq<Expr>, arity: nat, st: Slots)
    requires SelfArm(es, arity) && EmitArm(es, arity, st).Emitted?
    ensures var st1 := EmitArm(es, arity, st).st;
      && st1.vars.Keys == st.vars.Keys + Locals(es)
      && forall x :: x in st.vars && x !in Locals(es) ==> st1.vars[x] == st.vars[x]
    decreases es
  {
    if |es| > 1 {
      var one := EmitPre(es[0], st);
      assert SelfArm(es[1..], arity);
      EmitExtends(es[1..], arity, one.st);
      assert Locals(es) == Locals(es[1..]) + (if es[0].Let? then {es[0].name} else {}) by {
        forall x | x in Locals(es) ensures x in Locals(es[1..]) || (es[0].Let? && x == es[0].name) {
          var i :| 0 <= i < |es| && es[i].Let? && es[i].name == x;
          if i > 0 { assert es[1..][i - 1] == es[i]; }
        }
        forall x | x in Locals(es[1..]) ensures x in Locals(es) {
          var i :| 0 <= i < |es[1..]| && es[1..][i].Let? && es[1..][i].name == x;
          assert es[i + 1] == es[1..][i];
        }
      }
    }
  }

  // ---------- Execution ----------

  /** Where a stretch of register code ends: at its end, at a guard that left the loop, or nowhere. */
  datatype ChunkEnd = Through(m: M) | Left(m: M) | Broke(why: Why, m: M)

  /** VARIABLES of `r` are the registers. A call's result and its death mark are not looked at inside a chunk. */
  function RunInstr(world: World, onTruthy: bool, i: Instr, r: M): ChunkEnd {
    match i
    case Guard(p) =>
      (match PureEval(p, r.vars, r.mem)
       case Ok(d) => if (d != 0) == onTruthy then Through(r) else Left(r)
       case Trap => Broke(Trapped, r) case Unbound => Broke(Overrun, r))
    case Def(slot, p) =>
      (match PureEval(p, r.vars, r.mem)
       case Ok(w) => Through(r.(vars := r.vars[slot := w]))
       case Trap => Broke(Trapped, r) case Unbound => Broke(Overrun, r))
    case Touch(p) =>
      (match PureEval(p, r.vars, r.mem)
       case Ok(_) => Through(r) case Trap => Broke(Trapped, r) case Unbound => Broke(Overrun, r))
    case Effect(name, ps) =>
      (match EvalAll(ps, r)
       case None => Broke(Trapped, r)
       case Some(ws) =>
         var trace := r.trace + [Action(Rt(name), ws)];
         var reply := world(trace, r.mem);
         Through(r.(mem := reply.mem, trace := trace, dying := r.dying || reply.dies)))
    case Rebind(ps) =>
      (match EvalAll(ps, r)
       case None => Broke(Trapped, r)
       case Some(ws) => Through(r.(vars := Overwrite(r.vars, ws))))
  }

  /** Registers 0 .. |ws| set to the words. */
  function Overwrite(regs: map<nat, Word>, ws: seq<Word>): (r: map<nat, Word>)
    ensures Holds(r, 0, ws)
    ensures forall k :: k in regs ==> k in r && (|ws| <= k ==> r[k] == regs[k])
  {
    if ws == [] then regs else Overwrite(regs, ws[..|ws| - 1])[|ws| - 1 := ws[|ws| - 1]]
  }

  function RunChunk(world: World, onTruthy: bool, code: seq<Instr>, r: M): ChunkEnd {
    if code == [] then Through(r)
    else match RunInstr(world, onTruthy, code[0], r)
      case Through(r1) => RunChunk(world, onTruthy, code[1..], r1)
      case other => other
  }

  lemma {:induction false} RunChunkAppend(world: World, onTruthy: bool, x: seq<Instr>, y: seq<Instr>, r: M)
    ensures RunChunk(world, onTruthy, x + y, r) ==
      match RunChunk(world, onTruthy, x, r)
      case Through(r1) => RunChunk(world, onTruthy, y, r1)
      case other => other
    decreases x
  {
    hide RunInstr;
    if x == [] {
      assert x + y == y;
    } else {
      assert (x + y)[0] == x[0] && (x + y)[1..] == x[1..] + y;
      match RunInstr(world, onTruthy, x[0], r)
      case Through(r1) => RunChunkAppend(world, onTruthy, x[1..], y, r1);
      case other =>
    }
  }

  // ---------- One iteration ----------

  /** The safe effects never mark the actor for death. */
  ghost predicate Gentle(world: World) {
    forall trace: seq<Action>, mem: Mem ::
      (trace != [] && trace[|trace| - 1].callee.Rt? && trace[|trace| - 1].callee.name in SAFE_EFFECTS) ==>
        !world(trace, mem).dies
  }

  /** Register state after a self arm against the source's result for it. */
  predicate ArmLands(end: ChunkEnd, r: Result) {
    match r
    case Again(ws, mem, trace) =>
      && end.Through? && Holds(end.m.vars, 0, ws)
      && end.m.mem == mem && end.m.trace == trace && !end.m.dying
    case Halt(why, mem, trace) => end.Broke? && end.why == why && end.m.mem == mem && end.m.trace == trace
    case _ => false
  }

  lemma {:induction false} SimPre(world: World, onTruthy: bool, e: Expr, st: Slots, s: State, r: M)
    requires UnrollSafe(e) && EmitPre(e, st).Emitted? && Gentle(world)
    requires st.Valid() && Related(s, st, r) && Eval(e, s, world) != Wrong
    ensures var em, v := EmitPre(e, st), Eval(e, s, world);
      && em.st.Valid() && |em.code| == 1
      && (var end := RunInstr(world, onTruthy, em.code[0], r);
          if v.Val? then end.Through? && Related(v.s, em.st, end.m) else v.Halt? && ArmLands(end, v))
  {
    hide PureEval, LoadLE, Wrap;
    match e
    case Let(x, init) =>
      assert Eval(init, s, world) == EvalPure(init.pure, s);
      ResolveAgrees(init.pure, s.env, st.vars, r.vars, r.mem);
    case Call(c, args) =>
      PureArgs(args, s, st, r, world);
      var a := EvalArgs(args, s, world);
      if a.Args? {
        var trace := s.trace + [Action(Rt(c.name), a.words)];
        assert trace[|trace| - 1] == Action(Rt(c.name), a.words);
        assert !world(trace, s.mem).dies;
      }
    case P(p) => ResolveAgrees(p, s.env, st.vars, r.vars, r.mem);
  }

  lemma {:induction false} SimSelfArm(world: World, onTruthy: bool, es: seq<Expr>, arity: nat, st: Slots, s: State, r: M)
    requires SelfArm(es, arity) && EmitArm(es, arity, st).Emitted? && Gentle(world)
    requires st.Valid() && Related(s, st, r) && EvalStmts(es, s, world) != Wrong
    ensures ArmLands(RunChunk(world, onTruthy, EmitArm(es, arity, st).code, r), EvalStmts(es, s, world))
    ensures EvalStmts(es, s, world).Again? ==> |EvalStmts(es, s, world).args| == arity
    decreases es
  {
    hide PureEval, EvalArgs, Perform, RunInstr, EmitPre, ResolveAll;
    if |es| == 1 {
      SimRebind(world, onTruthy, es[0].args, st, s, r);
    } else {
      var one := EmitPre(es[0], st);
      var rest := EmitArm(es[1..], arity, one.st);
      SimPre(world, onTruthy, es[0], st, s, r);
      assert (one.code + rest.code)[0] == one.code[0] && (one.code + rest.code)[1..] == rest.code;
      var v := Eval(es[0], s, world);
      if v.Val? {
        SimSelfArm(world, onTruthy, es[1..], arity, one.st, v.s, RunInstr(world, onTruthy, one.code[0], r).m);
      }
    }
  }

  lemma {:induction false} SimRebind(world: World, onTruthy: bool, args: seq<Expr>, st: Slots, s: State, r: M)
    requires AllPure(args) && ResolveAll(args, st.vars).Some?
    requires Related(s, st, r) && EvalStmts([SelfCall(args)], s, world) != Wrong
    ensures var v := EvalStmts([SelfCall(args)], s, world);
      && ArmLands(RunChunk(world, onTruthy, [Rebind(ResolveAll(args, st.vars).value)], r), v)
      && (v.Again? ==> |v.args| == |args|)
  {
    hide PureEval;
    var v := Eval(SelfCall(args), s, world);
    assert EvalStmts([SelfCall(args)], s, world) == v;
    PureArgs(args, s, st, r, world);
    BoundIsArgsEnv(args, s, world);
    var code := [Rebind(ResolveAll(args, st.vars).value)];
    assert code[1..] == [];
    assert RunChunk(world, onTruthy, code, r) == RunInstr(world, onTruthy, code[0], r);
  }

  // ---------- Which arm ----------

  /** The discriminants for which testing against zero selects the arm that the two keys select. */
  predicate Fits(self: Key, exit: Key, d: Word) {
    || d <= 1
    || (self == Wildcard && exit == BoolKey(false))
    || (self == BoolKey(false) && exit == Wildcard)
  }

  predicate TwoArms(arms: seq<Arm>, self: Arm, exit: Arm) {
    arms == [self, exit] || arms == [exit, self]
  }

  /** The unrolled test takes the arm the `when` selects exactly for the discriminants that fit. */
  lemma PolarityExact(arms: seq<Arm>, self: Arm, exit: Arm, d: Word)
    requires TwoArms(arms, self, exit) && Polarity(self.key, exit.key).Some?
    ensures
      Fits(self.key, exit.key, d) <==>
      (Select(arms, d).Some? &&
       arms[Select(arms, d).value] == if (d != 0) == Polarity(self.key, exit.key).value then self else exit)
  {
    var i := Select(arms, d);
    assert arms[1..][1..] == [];
    assert arms[1..][0] == arms[1];
    assert IndexOf(arms[1..][1..], Some(d)) == None && IndexOf(arms[1..][1..], None) == None;
    assert self.key != exit.key;
  }

  /** Comparisons always fit. */
  lemma ComparisonsFit(op: BinOp, a: Pure<string>, b: Pure<string>, env: map<string, Word>, mem: Mem, self: Key, exit: Key)
    requires op.Le? || op.Ge? || op.Eq? || op.Lt? || op.Gt?
    ensures PureEval(Bin(op, a, b), env, mem).Ok? ==> Fits(self, exit, PureEval(Bin(op, a, b), env, mem).w)
  {
  }
}
