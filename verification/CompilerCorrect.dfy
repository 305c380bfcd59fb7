/** Running the compiled blocks gives what direct evaluation gives. */
module CompilerCorrect {
  import opened Words
  import opened Lake
  import opened BlockMachine
  import opened BlockCompiler
  import opened CompilerShape
  import KTable

  // ---------- Conditions on the source ----------

  /** No arm re-binds a name that is in scope where its `when` starts. */
  predicate Scoped(e: Expr, bound: set<string>)
    decreases e, 1
  {
    match e
    case P(_) => true
    case Str(_, _, _) => true
    case Let(_, init) => Scoped(init, bound)
    case When(cond, arms) =>
      Scoped(cond, bound) && ArmNames(arms) !! Bound(cond, bound) && ScopedArms(arms, Bound(cond, bound))
    case Call(_, args) => ScopedAll(args, bound)
    case SelfCall(args) => ScopedAll(args, bound)
  }

  predicate ScopedAll(es: seq<Expr>, bound: set<string>)
    decreases es, 0
  {
    es == [] || (Scoped(es[0], bound) && ScopedAll(es[1..], Bound(es[0], bound)))
  }

  predicate ScopedArms(arms: seq<Arm>, bound: set<string>)
    decreases arms, 0
  {
    arms == [] || (ScopedAll(arms[0].body, bound) && ScopedArms(arms[1..], bound))
  }

  /** Names in scope after evaluating `e`. */
  function Bound(e: Expr, bound: set<string>): set<string>
    decreases e, 1
  {
    match e
    case P(_) => bound
    case Str(_, _, _) => bound
    case Let(x, init) => Bound(init, bound) + {x}
    case When(cond, _) => Bound(cond, bound)
    case Call(_, args) => BoundAll(args, bound)
    case SelfCall(args) => BoundAll(args, bound)
  }

  function BoundAll(es: seq<Expr>, bound: set<string>): set<string>
    decreases es, 0
  {
    if es == [] then bound else BoundAll(es[1..], Bound(es[0], bound))
  }

  /** Words of JUMP_ARGS that compiling `e` at staging base 0 can touch. */
  function StagedWords(e: Expr): nat
    decreases e, 1
  {
    match e
    case P(_) => 0
    case Str(_, _, _) => 0
    case Let(_, init) => StagedWords(init)
    case When(cond, arms) => Max(StagedWords(cond), StagedInArms(arms))
    case Call(_, args) => |args| + StagedInAll(args)
    case SelfCall(args) => |args| + StagedInAll(args)
  }

  function StagedInAll(es: seq<Expr>): nat
    decreases es, 0
  {
    if es == [] then 0 else Max(StagedWords(es[0]), StagedInAll(es[1..]))
  }

  function StagedInArms(arms: seq<Arm>): nat
    decreases arms, 0
  {
    if arms == [] then 0 else Max(StagedInAll(arms[0].body), StagedInArms(arms[1..]))
  }

  function Max(a: nat, b: nat): nat {
    if a < b then b else a
  }

  /** Every `self(...)` inside passes at most `n` words, and no division in a constant table overflows. */
  predicate Restrained(e: Expr, n: nat)
    decreases e, 1
  {
    match e
    case P(_) => true
    case Str(_, _, _) => true
    case Let(_, init) => Restrained(init, n)
    case When(cond, arms) =>
      Restrained(cond, n) && RestrainedArms(arms, n) && (Tabular(arms) ==> KTable.NoneTraps(arms))
    case Call(_, args) => RestrainedAll(args, n)
    case SelfCall(args) => |args| <= n && RestrainedAll(args, n)
  }

  predicate RestrainedAll(es: seq<Expr>, n: nat)
    decreases es, 0
  {
    es == [] || (Restrained(es[0], n) && RestrainedAll(es[1..], n))
  }

  predicate RestrainedArms(arms: seq<Arm>, n: nat)
    decreases arms, 0
  {
    arms == [] || (RestrainedAll(arms[0].body, n) && RestrainedArms(arms[1..], n))
  }

  // ---------- Source state against machine state ----------

  predicate Agree(env: map<string, Word>, slots: map<string, nat>, vars: map<nat, Word>) {
    forall x :: x in env ==> x in slots && slots[x] in vars && vars[slots[x]] == env[x]
  }

  predicate Related(s: State, st: Slots, m: M) {
    s.mem == m.mem && s.trace == m.trace && !m.dying && Agree(s.env, st.vars, m.vars)
  }

  /** VARIABLES has at least `cap` words and JUMP_ARGS its full size. */
  predicate Roomy(m: M, cap: nat) {
    && (forall k: nat :: k < cap ==> k in m.vars)
    && (forall k: nat :: k < JUMP_ARGS_WORDS ==> k in m.jumpArgs)
  }

  predicate SameBuffers(m: M, m1: M) {
    m1.vars.Keys == m.vars.Keys && m1.jumpArgs.Keys == m.jumpArgs.Keys
  }

  /** Slots below `lo` and staged words below `base` are untouched. */
  predicate Kept(m: M, m1: M, lo: nat, base: nat) {
    && SameBuffers(m, m1)
    && (forall k :: k in m.vars && k < lo ==> m1.vars[k] == m.vars[k])
    && (forall k :: k in m.jumpArgs && k < base ==> m1.jumpArgs[k] == m.jumpArgs[k])
  }

  /** The machine stands where the source result says it should. */
  predicate Lands(prog: Program, b: nat, c: Cfg, r: Result, outcome: Outcome, st1: Slots, m: M, lo: nat, base: nat) {
    match r
    case Val(s1, v) =>
      && outcome.Continue? && c.At? && c.branch == b && c.id == outcome.id
      && Related(s1, st1, c.m) && (v.Some? ==> c.m.temp == v.value) && Kept(m, c.m, lo, base)
    case Again(args, mem, trace) =>
      && c.At? && c.branch == prog.pick(args) && c.id == 0
      && c.m.mem == mem && c.m.trace == trace && !c.m.dying && SameBuffers(m, c.m)
      && (forall i :: 0 <= i < |args| ==> i in c.m.vars && c.m.vars[i] == args[i])
    case Halt(why, mem, trace) =>
      c.Stopped? && c.why == why && c.m.mem == mem && c.m.trace == trace
    case Wrong => false
  }

  /** The words stand in the buffer from position `k` on. */
  predicate Holds(buffer: map<nat, Word>, k: nat, words: seq<Word>) {
    forall j :: k <= j < k + |words| ==> j in buffer && buffer[j] == words[j - k]
  }

  predicate LandsArgs(prog: Program, b: nat, c: Cfg, r: ArgsResult, out: ArgsCompiled, m: M, lo: nat, k: nat)
    requires out.ArgsDone?
  {
    match r
    case Args(s1, words) =>
      && c.At? && c.branch == b && c.id == out.id
      && Related(s1, out.st, c.m) && Kept(m, c.m, lo, k)
      && Holds(c.m.jumpArgs, k, words)
    case Early(r1) => !r1.Val? && Lands(prog, b, c, r1, Continue(0), out.st, m, lo, k)
  }

  // ---------- Names and slots ----------

  lemma {:induction false} BoundIsEnv(e: Expr, s: State, world: World)
    ensures var r := Eval(e, s, world);
      r.Val? ==> r.s.env.Keys == Bound(e, s.env.Keys)
    decreases e, 1
  {
    match e
    case Let(x, init) => BoundIsEnv(init, s, world);
    case When(cond, arms) => BoundIsEnv(cond, s, world);
    case Call(_, args) => BoundIsArgsEnv(args, s, world);
    case SelfCall(args) => BoundIsArgsEnv(args, s, world);
    case _ =>
  }

  lemma {:induction false} BoundIsArgsEnv(es: seq<Expr>, s: State, world: World)
    ensures match EvalArgs(es, s, world)
      case Args(s1, words) => s1.env.Keys == BoundAll(es, s.env.Keys) && |words| == |es|
      case Early(r) => !r.Val?
    decreases es, 0
  {
    if es != [] {
      BoundIsEnv(es[0], s, world);
      var r := Eval(es[0], s, world);
      if r.Val? && r.v.Some? {
        BoundIsArgsEnv(es[1..], r.s, world);
      }
    }
  }

  lemma {:induction false} ResolveAgrees(p: Pure<string>, env: map<string, Word>, slots: map<string, nat>,
      vars: map<nat, Word>, mem: Mem)
    requires Agree(env, slots, vars) && Resolve(p, slots).Some? && !PureEval(p, env, mem).Unbound?
    ensures PureEval(Resolve(p, slots).value, vars, mem) == PureEval(p, env, mem)
    decreases p, 1
  {
    hide LoadLE, Wrap, ApplyBin;
    match p
    case Neg(q) => ResolveAgrees(q, env, slots, vars, mem);
    case Bin(_, _, _) => ResolveBinAgrees(p, env, slots, vars, mem);
    case TupleIndex(t, _) => ResolveAgrees(t, env, slots, vars, mem);
    case Load(_, _, _) => ResolveLoadAgrees(p, env, slots, vars, mem);
    case _ =>
  }

  lemma {:induction false} ResolveBinAgrees(p: Pure<string>, env: map<string, Word>, slots: map<string, nat>,
      vars: map<nat, Word>, mem: Mem)
    requires p.Bin? && Agree(env, slots, vars) && Resolve(p, slots).Some? && !PureEval(p, env, mem).Unbound?
    ensures PureEval(Resolve(p, slots).value, vars, mem) == PureEval(p, env, mem)
    decreases p, 0
  {
    hide LoadLE, Wrap, ApplyBin;
    ResolveAgrees(p.left, env, slots, vars, mem);
    if PureEval(p.left, env, mem).Ok? {
      ResolveAgrees(p.right, env, slots, vars, mem);
    }
  }

  lemma {:induction false} ResolveLoadAgrees(p: Pure<string>, env: map<string, Word>, slots: map<string, nat>,
      vars: map<nat, Word>, mem: Mem)
    requires p.Load? && Agree(env, slots, vars) && Resolve(p, slots).Some? && !PureEval(p, env, mem).Unbound?
    ensures PureEval(Resolve(p, slots).value, vars, mem) == PureEval(p, env, mem)
    decreases p, 0
  {
    hide LoadLE, Wrap, ApplyBin;
    ResolveAgrees(p.fat, env, slots, vars, mem);
    if PureEval(p.fat, env, mem).Ok? {
      ResolveAgrees(p.offset, env, slots, vars, mem);
    }
  }

  /** Arguments that are all pure: one state throughout, and a trap in any of them is the only other end. */
  lemma {:induction false} PureArgs(es: seq<Expr>, s: State, st: Slots, m: M, world: World)
    requires AllPure(es) && ResolveAll(es, st.vars).Some? && Related(s, st, m)
    requires EvalArgs(es, s, world) != Early(Wrong)
    ensures match EvalArgs(es, s, world)
      case Args(s1, words) => s1 == s && EvalAll(ResolveAll(es, st.vars).value, m) == Some(words)
      case Early(r) => r == Halt(Trapped, s.mem, s.trace) && EvalAll(ResolveAll(es, st.vars).value, m) == None
  {
    if es != [] {
      assert es[0].P?;
      var p := es[0].pure;
      ResolveAgrees(p, s.env, st.vars, m.vars, m.mem);
      var q, qs := Resolve(p, st.vars).value, ResolveAll(es[1..], st.vars).value;
      assert ResolveAll(es, st.vars).value == [q] + qs;
      assert ([q] + qs)[0] == q && ([q] + qs)[1..] == qs;
      if PureEval(p, s.env, s.mem).Ok? {
        PureArgs(es[1..], s, st, m, world);
      }
    }
  }

  // ---------- One dispatched block ----------

  lemma RunOneOp(prog: Program, b: nat, id: int, op: Op, exit: Exit, m: M)
    requires b in prog.branches && id in prog.branches[b] && prog.branches[b][id] == Block([op], exit)
    ensures Steps(prog, At(b, id, m), 1) == BlockMachine.Leave(prog, b, exit, RunOp(prog.world, op, m))
  {
    var ops := [op];
    assert ops[0] == op && ops[1..] == [];
    assert RunOps(prog.world, ops, m) == RunOp(prog.world, op, m);
    var c := Step(prog, At(b, id, m));
    assert Steps(prog, c, 0) == c;
  }

  lemma RunNoOp(prog: Program, b: nat, id: int, exit: Exit, m: M)
    requires b in prog.branches && id in prog.branches[b] && prog.branches[b][id] == Block([], exit)
    requires !m.dying
    ensures Steps(prog, At(b, id, m), 1) == RunExit(prog, b, exit, m)
  {
    var c := Step(prog, At(b, id, m));
    assert Steps(prog, c, 0) == c;
  }

  lemma StepsZero(prog: Program, c: Cfg)
    ensures Steps(prog, c, 0) == c
  {
  }

  lemma {:induction false} StoppedStays(prog: Program, c: Cfg, k: nat)
    requires c.Stopped?
    ensures Steps(prog, c, k) == c
    decreases k
  {
    if k > 0 {
      StoppedStays(prog, c, k - 1);
    }
  }

  // ---------- Single steps, as state changes ----------

  lemma StepSave(prog: Program, b: nat, id: int, x: string, v: Word, s: State, st: Slots, m: M)
    requires b in prog.branches && id in prog.branches[b]
    requires prog.branches[b][id] == Block([SaveTemp(st.next)], Goto(id + 1))
    requires st.Valid() && Related(s, st, m) && st.next in m.vars && m.temp == v
    ensures Steps(prog, At(b, id, m), 1) == At(b, id + 1, m.(vars := m.vars[st.next := v]))
    ensures Related(s.(env := s.env[x := v]), st.Insert(x), m.(vars := m.vars[st.next := v]))
  {
    RunOneOp(prog, b, id, SaveTemp(st.next), Goto(id + 1), m);
  }

  lemma StepStage(prog: Program, b: nat, id: int, at: nat, s: State, st: Slots, m: M)
    requires b in prog.branches && id in prog.branches[b]
    requires prog.branches[b][id] == Block([Stage(at)], Goto(id + 1))
    requires Related(s, st, m) && at in m.jumpArgs
    ensures Steps(prog, At(b, id, m), 1) == At(b, id + 1, m.(jumpArgs := m.jumpArgs[at := m.temp]))
    ensures Related(s, st, m.(jumpArgs := m.jumpArgs[at := m.temp]))
  {
    RunOneOp(prog, b, id, Stage(at), Goto(id + 1), m);
  }

  // ---------- Simulation ----------

  predicate Apart(x: BlockTable, y: BlockTable) {
    forall i :: i in x ==> i !in y
  }

  lemma IncludedParts(x: BlockTable, y: BlockTable, table: BlockTable)
    requires Included(x + y, table) && Apart(x, y)
    ensures Included(x, table) && Included(y, table)
  {
    forall i | i in x ensures i in table && table[i] == x[i] {
      assert i in x + y && (x + y)[i] == x[i];
    }
    forall i | i in y ensures i in table && table[i] == y[i] {
      assert i in x + y && (x + y)[i] == y[i];
    }
  }

  lemma StepOp(prog: Program, b: nat, id: int, op: Op, exit: Exit, m: M)
    requires b in prog.branches && id in prog.branches[b] && prog.branches[b][id] == Block([op], exit)
    requires exit.Goto? && !RunOp(prog.world, op, m).m.dying
    ensures Steps(prog, At(b, id, m), 1) ==
      if RunOp(prog.world, op, m).Next? then At(b, exit.id, RunOp(prog.world, op, m).m)
      else Stopped(RunOp(prog.world, op, m).why, RunOp(prog.world, op, m).m)
  {
    RunOneOp(prog, b, id, op, exit, m);
  }

  lemma StepGoto(prog: Program, b: nat, id: int, after: int, m: M)
    requires b in prog.branches && id in prog.branches[b] && prog.branches[b][id] == Block([], Goto(after))
    requires !m.dying
    ensures Steps(prog, At(b, id, m), 1) == At(b, after, m)
  {
    RunNoOp(prog, b, id, Goto(after), m);
  }

  /** Blocks claimed one after another: `x` below `mid`, one block at `mid`, `y` above it. */
  lemma IncludedRun(x: BlockTable, mid: int, block: Block, y: BlockTable, lo: int, hi: int, table: BlockTable)
    requires Included(x + Single(mid, block) + y, table)
    requires WithinIds(x, lo, mid) && WithinIds(y, mid + 1, hi)
    ensures Included(x, table) && Included(y, table) && mid in table && table[mid] == block
  {
    assert mid in Single(mid, block) && Single(mid, block)[mid] == block;
    IncludedParts(x + Single(mid, block), y, table);
    IncludedParts(x, Single(mid, block), table);
  }

  lemma IncludedTail(x: BlockTable, mid: int, block: Block, lo: int, table: BlockTable)
    requires Included(x + Single(mid, block), table) && WithinIds(x, lo, mid)
    ensures Included(x, table) && mid in table && table[mid] == block
  {
    assert mid in Single(mid, block) && Single(mid, block)[mid] == block;
    IncludedParts(x, Single(mid, block), table);
  }

  /** What every simulation lemma assumes of the program, the compiled piece and the two states. */
  predicate Ready(prog: Program, b: nat, blocks: BlockTable, s: State, st: Slots, m: M, last: Slots, cap: nat) {
    && b in prog.branches && Included(blocks, prog.branches[b])
    && st.Valid() && Related(s, st, m) && Roomy(m, cap) && last.next <= cap
  }

  /** What simulating one expression assumes: it compiles into the program, the states match, the source run is defined. */
  predicate Assumed(prog: Program, b: nat, e: Expr, id: int, st: Slots, base: nat, s: State, m: M, cap: nat) {
    var out := CompileExpr(e, id, st, base);
    && out.Done? && Ready(prog, b, out.blocks, s, st, m, out.st, cap)
    && Scoped(e, s.env.Keys) && Restrained(e, cap) && base + StagedWords(e) <= JUMP_ARGS_WORDS
    && Eval(e, s, prog.world) != Wrong
  }

  /** `k` blocks from `id` take the machine to where the source result says. */
  predicate Simulated(prog: Program, b: nat, e: Expr, id: int, st: Slots, base: nat, s: State, m: M, k: nat) {
    var out := CompileExpr(e, id, st, base);
    out.Done? && Lands(prog, b, Steps(prog, At(b, id, m), k), Eval(e, s, prog.world), out.outcome, out.st, m, st.next, base)
  }

  /** What simulating a `when` assumes, whatever its arms bind. */
  predicate AssumedWhen(prog: Program, b: nat, e: Expr, id: int, st: Slots, base: nat, s: State, m: M, cap: nat)
    requires e.When?
  {
    var out := CompileExpr(e, id, st, base);
    && out.Done? && Ready(prog, b, out.blocks, s, st, m, out.st, cap)
    && Scoped(e.cond, s.env.Keys) && Restrained(e, cap) && base + StagedWords(e) <= JUMP_ARGS_WORDS
    && Eval(e.cond, s, prog.world) != Wrong
  }

  /** The meaning of a `when` whose arms, and the code after it, do without the outer values of `names`. */
  function EvalWithout(e: Expr, names: set<string>, s: State, world: World): Result
    requires e.When?
  {
    match Eval(e.cond, s, world)
    case Val(s1, Some(d)) =>
      var t1 := s1.(env := s1.env - names);
      (match Select(e.arms, d)
       case None => Val(t1, None)
       case Some(i) => Lake.Leave(t1.env, EvalStmts(e.arms[i].body, t1, world)))
    case Val(_, None) => Wrong
    case other => other
  }

  predicate AssumedStmts(prog: Program, b: nat, es: seq<Expr>, id: int, st: Slots, base: nat, s: State, m: M, cap: nat) {
    var out := CompileStmts(es, id, st, base);
    && out.Done? && Ready(prog, b, out.blocks, s, st, m, out.st, cap)
    && ScopedAll(es, s.env.Keys) && RestrainedAll(es, cap) && base + StagedInAll(es) <= JUMP_ARGS_WORDS
    && EvalStmts(es, s, prog.world) != Wrong
  }

  predicate SimulatedStmts(prog: Program, b: nat, es: seq<Expr>, id: int, st: Slots, base: nat, s: State, m: M, k: nat) {
    var out := CompileStmts(es, id, st, base);
    out.Done? &&
    Lands(prog, b, Steps(prog, At(b, id, m), k), EvalStmts(es, s, prog.world), out.outcome, out.st, m, st.next, base)
  }

  predicate AssumedArgs(prog: Program, b: nat, es: seq<Expr>, id: int, st: Slots, inner: nat, at: nat, s: State, m: M,
      cap: nat)
  {
    var out := CompileArgs(es, id, st, inner, at);
    && out.ArgsDone? && Ready(prog, b, out.blocks, s, st, m, out.st, cap)
    && ScopedAll(es, s.env.Keys) && RestrainedAll(es, cap)
    && at + |es| <= inner && inner + StagedInAll(es) <= JUMP_ARGS_WORDS
    && EvalArgs(es, s, prog.world) != Early(Wrong)
  }

  predicate SimulatedArgs(prog: Program, b: nat, es: seq<Expr>, id: int, st: Slots, inner: nat, at: nat, s: State, m: M,
      k: nat)
  {
    var out := CompileArgs(es, id, st, inner, at);
    out.ArgsDone? && LandsArgs(prog, b, Steps(prog, At(b, id, m), k), EvalArgs(es, s, prog.world), out, m, st.next, at)
  }

  predicate AssumedArm(prog: Program, b: nat, arms: seq<Arm>, i: nat, id: int, st: Slots, base: nat, s: State, m: M,
      cap: nat, after: int)
  {
    var out := CompileArms(arms, id, st, base);
    && i < |arms|
    && out.ArmsDone? && Ready(prog, b, out.blocks, s, st, m, out.st, cap)
    && (forall x :: x in out.exits ==> x in prog.branches[b] && prog.branches[b][x] == Block([], Goto(after)))
    && ScopedArms(arms, s.env.Keys) && RestrainedArms(arms, cap) && ArmNames(arms) !! s.env.Keys
    && base + StagedInArms(arms) <= JUMP_ARGS_WORDS
    && EvalStmts(arms[i].body, s, prog.world) != Wrong
  }

  predicate SimulatedArm(prog: Program, b: nat, arms: seq<Arm>, i: nat, id: int, st: Slots, base: nat, s: State, m: M,
      after: int, k: nat)
  {
    var out := CompileArms(arms, id, st, base);
    i < |arms| && out.ArmsDone? &&
    Lands(prog, b, Steps(prog, At(b, out.starts[i], m), k), Lake.Leave(s.env, EvalStmts(arms[i].body, s, prog.world)),
          Continue(after), out.st, m, st.next, base)
  }

  /** Performing an action from the two related states gives related states. */
  lemma PerformAgrees(prog: Program, c: Callee<string>, c1: Callee<nat>, words: seq<Word>, s: State, st: Slots, m: M)
    requires Related(s, st, m) && ResolveCallee(c, st.vars) == Some(c1)
    requires c.Send? ==> c.pid in s.env
    ensures var all := if c.Send? then [s.env[c.pid]] + words else words;
      var r := Perform(prog.world, c, all, s);
      var o := InvokeWith(prog.world, c1, words, m);
      && o.Next? && SameBuffers(m, o.m) && o.m.vars == m.vars && o.m.jumpArgs == m.jumpArgs
      && (r.Val? ==> Related(r.s, st, o.m) && r.s.env == s.env && (r.v.Some? ==> o.m.temp == r.v.value))
      && (r.Halt? ==> o.m.dying && r == Halt(Died, o.m.mem, o.m.trace))
      && !r.Again? && !r.Wrong?
  {
  }

  lemma {:induction false} SimExpr(prog: Program, b: nat, e: Expr, id: int, st: Slots, base: nat, s: State, m: M, cap: nat)
    returns (k: nat)
    requires Assumed(prog, b, e, id, st, base, s, m, cap)
    ensures Simulated(prog, b, e, id, st, base, s, m, k)
    decreases e, 2
  {
    match e
    case P(p) =>
      ResolveAgrees(p, s.env, st.vars, m.vars, m.mem);
      RunOneOp(prog, b, id, SetTemp(Resolve(p, st.vars).value), Goto(id + 1), m);
      k := 1;
    case Str(fat, start, end) =>
      RunOneOp(prog, b, id, LoadStr(fat, start, end), Goto(id + 1), m);
      k := 1;
    case Let(_, init) =>
      if init.P? {
        k := SimPureLet(prog, b, e, id, st, base, s, m, cap);
      } else {
        k := SimLet(prog, b, e, id, st, base, s, m, cap);
      }
    case When(_, _) => k := SimWhen(prog, b, e, id, st, base, s, m, cap);
    case Call(c, args) =>
      if c.Rt? && AllPure(args) {
        k := SimFusedCall(prog, b, e, id, st, base, s, m, cap);
      } else {
        k := SimStagedCall(prog, b, e, id, st, base, s, m, cap);
      }
    case SelfCall(_) => k := SimSelf(prog, b, e, id, st, base, s, m, cap);
  }

  lemma SimPureLet(prog: Program, b: nat, e: Expr, id: int, st: Slots, base: nat, s: State, m: M, cap: nat)
    returns (k: nat)
    requires e.Let? && e.init.P? && Assumed(prog, b, e, id, st, base, s, m, cap)
    ensures Simulated(prog, b, e, id, st, base, s, m, k)
  {
    hide PureEval, Step, Steps, RunOps, RunBlock, BlockMachine.Leave, RunExit, InvokeWith, StoreLE, LoadLE, Wrap;
    hide Perform, Bound, LetNames, CompileStmts, CompileArms, CompileArgs, EvalArgs, EvalStmts, ScopedAll;
    assert Eval(e.init, s, prog.world) == EvalPure(e.init.pure, s);
    ResolveAgrees(e.init.pure, s.env, st.vars, m.vars, m.mem);
    var op := SetVar(st.next, Resolve(e.init.pure, st.vars).value);
    assert prog.branches[b][id] == Block([op], Goto(id + 1)) by {
      assert id in Single(id, Block([op], Goto(id + 1)));
    }
    StepOp(prog, b, id, op, Goto(id + 1), m);
    k := 1;
  }

  lemma {:induction false} SimLet(prog: Program, b: nat, e: Expr, id: int, st: Slots, base: nat, s: State, m: M, cap: nat)
    returns (k: nat)
    requires e.Let? && !e.init.P? && Assumed(prog, b, e, id, st, base, s, m, cap)
    ensures Simulated(prog, b, e, id, st, base, s, m, k)
    decreases e, 0
  {
    hide PureEval, Step, Steps, RunOps, RunOp, RunBlock, BlockMachine.Leave, RunExit, InvokeWith, StoreLE, LoadLE, Wrap;
    hide Perform, Bound, LetNames, CompileStmts, CompileArms, CompileArgs, EvalArgs, EvalStmts, ScopedAll;
    var c := CompileExpr(e.init, id, st, base);
    ShapeOfExpr(e.init, id, st, base);
    if c.outcome.Continue? {
      var save := c.outcome.id;
      IncludedTail(c.blocks, save, Block([SaveTemp(c.st.next)], Goto(save + 1)), id, prog.branches[b]);
      k := SimExpr(prog, b, e.init, id, st, base, s, m, cap);
      var r := Eval(e.init, s, prog.world);
      if r.Val? {
        StepSave(prog, b, save, e.name, r.v.value, r.s, c.st, Steps(prog, At(b, id, m), k).m);
        StepsAdd(prog, At(b, id, m), k, 1);
        k := k + 1;
      }
    } else {
      k := SimExpr(prog, b, e.init, id, st, base, s, m, cap);
    }
  }

  /** First argument staged at `at`, the others after it: together they are staged in order. */
  lemma ArgsCons(prog: Program, b: nat, es: seq<Expr>, id: int, st: Slots, inner: nat, at: nat, s: State, m: M, m2: M,
      k: nat, more: nat)
    requires es != [] && CompileArgs(es, id, st, inner, at).ArgsDone?
    requires var c, r := CompileExpr(es[0], id, st, inner), Eval(es[0], s, prog.world);
      && r.Val? && r.v.Some? && st.next <= c.st.next
      && SimulatedArgs(prog, b, es[1..], c.outcome.id + 1, c.st, inner, at + 1, r.s, m2, more)
      && Kept(m, m2, st.next, at) && at in m2.jumpArgs && m2.jumpArgs[at] == r.v.value
      && Steps(prog, At(b, id, m), k) == Steps(prog, At(b, c.outcome.id + 1, m2), more)
    ensures SimulatedArgs(prog, b, es, id, st, inner, at, s, m, k)
  {
    hide PureEval, Step, Steps, CompileExpr, Eval, CompileStmts, CompileArms;
    var r := Eval(es[0], s, prog.world);
    var c := Steps(prog, At(b, id, m), k);
    match EvalArgs(es[1..], r.s, prog.world)
    case Early(_) =>
    case Args(s2, ws) =>
      var words := [r.v.value] + ws;
      assert EvalArgs(es, s, prog.world) == Args(s2, words);
      assert Holds(c.m.jumpArgs, at, words);
  }

  /** What compiling the first argument and staging it puts into the program, in front of the other arguments. */
  lemma {:induction false} FirstArgParts(prog: Program, b: nat, es: seq<Expr>, id: int, st: Slots, inner: nat, at: nat,
      s: State, m: M, cap: nat)
    requires es != [] && AssumedArgs(prog, b, es, id, st, inner, at, s, m, cap)
    ensures Assumed(prog, b, es[0], id, st, inner, s, m, cap)
    ensures var c := CompileExpr(es[0], id, st, inner);
      && c.outcome.Continue? && c.st.Valid() && st.next <= c.st.next
      && c.outcome.id in prog.branches[b]
      && prog.branches[b][c.outcome.id] == Block([Stage(at)], Goto(c.outcome.id + 1))
      && var rest := CompileArgs(es[1..], c.outcome.id + 1, c.st, inner, at + 1);
         rest.ArgsDone? && Included(rest.blocks, prog.branches[b]) && rest.st.next <= cap
  {
    hide PureEval, Step, Steps, RunOps, RunOp, RunBlock, BlockMachine.Leave, RunExit, InvokeWith, StoreLE, LoadLE, Wrap;
    hide Perform, CompileExpr, Eval, Scoped, Restrained, StagedWords, Bound, LetNames, CompileStmts, CompileArms, Related;
    var c := CompileExpr(es[0], id, st, inner);
    var stage := c.outcome.id;
    var rest := CompileArgs(es[1..], stage + 1, c.st, inner, at + 1);
    ShapeOfExpr(es[0], id, st, inner);
    ShapeOfArgs(es[1..], stage + 1, c.st, inner, at + 1);
    IncludedRun(c.blocks, stage, Block([Stage(at)], Goto(stage + 1)), rest.blocks, id, rest.id, prog.branches[b]);
  }

  /** The first argument: computed, then staged, leaving the others to simulate; or the run ends in it. */
  lemma {:induction false} SimFirstArg(prog: Program, b: nat, es: seq<Expr>, id: int, st: Slots, inner: nat, at: nat,
      s: State, m: M, cap: nat)
    returns (k: nat)
    requires es != [] && AssumedArgs(prog, b, es, id, st, inner, at, s, m, cap)
    ensures var r, c, end := Eval(es[0], s, prog.world), CompileExpr(es[0], id, st, inner), Steps(prog, At(b, id, m), k);
      if r.Val? then
        && c.Done? && c.outcome.Continue? && r.v.Some? && st.next <= c.st.next
        && end.At? && end == At(b, c.outcome.id + 1, end.m)
        && Kept(m, end.m, st.next, at) && at in end.m.jumpArgs && end.m.jumpArgs[at] == r.v.value
        && AssumedArgs(prog, b, es[1..], c.outcome.id + 1, c.st, inner, at + 1, r.s, end.m, cap)
      else SimulatedArgs(prog, b, es, id, st, inner, at, s, m, k)
    decreases es, 0
  {
    hide PureEval, Step, Steps, RunOps, RunOp, RunBlock, BlockMachine.Leave, RunExit, InvokeWith, StoreLE, LoadLE, Wrap;
    hide Perform, CompileExpr, Eval, Scoped, Restrained, StagedWords, Bound, LetNames, CompileStmts, CompileArms;
    hide CompileArgs, Included;
    FirstArgParts(prog, b, es, id, st, inner, at, s, m, cap);
    var c := CompileExpr(es[0], id, st, inner);
    var stage := c.outcome.id;
    k := SimExpr(prog, b, es[0], id, st, inner, s, m, cap);
    var r := Eval(es[0], s, prog.world);
    if r.Val? {
      BoundIsEnv(es[0], s, prog.world);
      var m1 := Steps(prog, At(b, id, m), k).m;
      StepStage(prog, b, stage, at, r.s, c.st, m1);
      StepsAdd(prog, At(b, id, m), k, 1);
      k := k + 1;
    }
  }

  lemma {:induction false} SimArgs(prog: Program, b: nat, es: seq<Expr>, id: int, st: Slots, inner: nat, at: nat,
      s: State, m: M, cap: nat)
    returns (k: nat)
    requires AssumedArgs(prog, b, es, id, st, inner, at, s, m, cap)
    ensures SimulatedArgs(prog, b, es, id, st, inner, at, s, m, k)
    decreases es, 1
  {
    hide PureEval, Step, Steps, CompileExpr, Eval, Scoped, Restrained, StagedWords, Bound, LetNames, AssumedArgs, Kept;
    if es == [] {
      hide *;
      k := SimNoArgs(prog, b, id, st, inner, at, s, m, cap);
    } else {
      k := SimFirstArg(prog, b, es, id, st, inner, at, s, m, cap);
      var r, c, m2 := Eval(es[0], s, prog.world), CompileExpr(es[0], id, st, inner), Steps(prog, At(b, id, m), k).m;
      if r.Val? {
        var more := SimArgs(prog, b, es[1..], c.outcome.id + 1, c.st, inner, at + 1, r.s, m2, cap);
        StepsAdd(prog, At(b, id, m), k, more);
        k := k + more;
        assert CompileArgs(es, id, st, inner, at).ArgsDone?;
        ArgsCons(prog, b, es, id, st, inner, at, s, m, m2, k, more);
      }
    }
  }

  lemma SimNoArgs(prog: Program, b: nat, id: int, st: Slots, inner: nat, at: nat, s: State, m: M, cap: nat)
    returns (k: nat)
    requires AssumedArgs(prog, b, [], id, st, inner, at, s, m, cap)
    ensures SimulatedArgs(prog, b, [], id, st, inner, at, s, m, k)
  {
    k := 0;
  }

  lemma StagedIs(m: M, base: nat, words: seq<Word>)
    requires Holds(m.jumpArgs, base, words)
    ensures Staged(m, base, |words|) == Some(words)
  {
    assert Staged(m, base, |words|).value == words;
  }

  /** A block that performs one action and goes on. */
  lemma StepInvoke(prog: Program, b: nat, id: int, op: Op, exit: Exit, next: int, c: Callee<string>, c1: Callee<nat>,
      words: seq<Word>, s: State, st: Slots, m: M)
    requires b in prog.branches && id in prog.branches[b] && prog.branches[b][id] == Block([op], exit)
    requires exit == Goto(next) || exit == ParkThenGoto(next)
    requires Related(s, st, m) && ResolveCallee(c, st.vars) == Some(c1) && (c.Send? ==> c.pid in s.env)
    requires RunOp(prog.world, op, m) == InvokeWith(prog.world, c1, words, m)
    ensures var all := if c.Send? then [s.env[c.pid]] + words else words;
      var r, end := Perform(prog.world, c, all, s), Steps(prog, At(b, id, m), 1);
      && !r.Again? && !r.Wrong?
      && (r.Val? ==>
            && end == At(b, next, end.m) && Related(r.s, st, end.m) && r.s.env == s.env
            && (r.v.Some? ==> end.m.temp == r.v.value) && end.m.vars == m.vars && end.m.jumpArgs == m.jumpArgs)
      && (r.Halt? ==> end == Stopped(Died, end.m) && r == Halt(Died, end.m.mem, end.m.trace))
  {
    hide Perform, InvokeWith, PureEval, EvalAll, StoreVar, StoreFat;
    RunOneOp(prog, b, id, op, exit, m);
    PerformAgrees(prog, c, c1, words, s, st, m);
  }

  lemma SimFusedCall(prog: Program, b: nat, e: Expr, id: int, st: Slots, base: nat, s: State, m: M, cap: nat)
    returns (k: nat)
    requires e.Call? && e.callee.Rt? && AllPure(e.args) && Assumed(prog, b, e, id, st, base, s, m, cap)
    ensures Simulated(prog, b, e, id, st, base, s, m, k)
  {
    hide PureEval, Step, Steps, RunOps, RunBlock, BlockMachine.Leave, RunExit, InvokeWith, StoreLE, LoadLE, Wrap;
    hide Perform, Scoped, Restrained, StagedWords, Bound, LetNames, CompileStmts, CompileArms, CompileArgs, EvalArgs;
    var args := e.args;
    PureArgs(args, s, st, m, prog.world);
    var op := InvokeFused(Rt(e.callee.name), ResolveAll(args, st.vars).value);
    assert prog.branches[b][id] == Block([op], Goto(id + 1)) by {
      assert id in Single(id, Block([op], Goto(id + 1)));
    }
    k := 1;
    match EvalArgs(args, s, prog.world)
    case Args(_, words) => StepInvoke(prog, b, id, op, Goto(id + 1), id + 1, e.callee, Rt(e.callee.name), words, s, st, m);
    case Early(_) => StepTrap(prog, b, id, op, Goto(id + 1), m);
  }

  lemma StepTrap(prog: Program, b: nat, id: int, op: Op, exit: Exit, m: M)
    requires b in prog.branches && id in prog.branches[b] && prog.branches[b][id] == Block([op], exit)
    requires RunOp(prog.world, op, m) == Stop(Trapped, m)
    ensures Steps(prog, At(b, id, m), 1) == Stopped(Trapped, m)
  {
    RunOneOp(prog, b, id, op, exit, m);
  }

  /** A staged call's exit, once its action is done. */
  function CallExit(c: Callee<string>, next: int): Exit {
    if c.Parking? then ParkThenGoto(next) else Goto(next)
  }

  /** A staged call is its arguments' blocks and one block behind them. */
  lemma {:induction false} StagedParts(prog: Program, b: nat, e: Expr, id: int, st: Slots, base: nat, s: State, m: M,
      cap: nat)
    requires e.Call? && !(e.callee.Rt? && AllPure(e.args)) && Assumed(prog, b, e, id, st, base, s, m, cap)
    ensures var out := CompileArgs(e.args, id, st, base + |e.args|, base);
      && AssumedArgs(prog, b, e.args, id, st, base + |e.args|, base, s, m, cap)
      && out.ArgsDone? && ResolveCallee(e.callee, out.st.vars).Some? && out.id in prog.branches[b]
      && prog.branches[b][out.id] ==
           Block([Invoke(ResolveCallee(e.callee, out.st.vars).value, base, |e.args|)], CallExit(e.callee, out.id + 1))
      && CompileExpr(e, id, st, base).outcome == Continue(out.id + 1) && CompileExpr(e, id, st, base).st == out.st
      && st.next <= out.st.next
  {
    hide PureEval, Bound, LetNames, CompileStmts, CompileArms, CompileArgs, EvalArgs, ScopedAll, RestrainedAll, Perform;
    var out := CompileArgs(e.args, id, st, base + |e.args|, base);
    ShapeOfArgs(e.args, id, st, base + |e.args|, base);
    var op := Invoke(ResolveCallee(e.callee, out.st.vars).value, base, |e.args|);
    IncludedTail(out.blocks, out.id, Block([op], CallExit(e.callee, out.id + 1)), id, prog.branches[b]);
  }

  lemma {:induction false} SimStagedCall(prog: Program, b: nat, e: Expr, id: int, st: Slots, base: nat, s: State, m: M,
      cap: nat)
    returns (k: nat)
    requires e.Call? && !(e.callee.Rt? && AllPure(e.args)) && Assumed(prog, b, e, id, st, base, s, m, cap)
    ensures Simulated(prog, b, e, id, st, base, s, m, k)
    decreases e, 0
  {
    hide PureEval, Step, Steps, RunOps, RunBlock, BlockMachine.Leave, RunExit, InvokeWith, StoreLE, LoadLE, Wrap;
    hide Perform, Bound, LetNames, CompileStmts, CompileArms, CompileArgs, EvalArgs, CompileExpr, Scoped, Restrained;
    hide StagedWords, AssumedArgs, Included;
    var c, args := e.callee, e.args;
    StagedParts(prog, b, e, id, st, base, s, m, cap);
    BoundIsArgsEnv(args, s, prog.world);
    var out := CompileArgs(args, id, st, base + |args|, base);
    var c1 := ResolveCallee(c, out.st.vars).value;
    k := SimArgs(prog, b, args, id, st, base + |args|, base, s, m, cap);
    match EvalArgs(args, s, prog.world)
    case Args(s1, words) =>
      var m1 := Steps(prog, At(b, id, m), k).m;
      StagedIs(m1, base, words);
      StepInvoke(prog, b, out.id, Invoke(c1, base, |args|), CallExit(c, out.id + 1), out.id + 1, c, c1, words, s1, out.st, m1);
      StepsAdd(prog, At(b, id, m), k, 1);
      k := k + 1;
    case Early(_) =>
  }

  /** A restart writes the argument words into the first slots and enters the branch they pick. */
  lemma StepRestart(prog: Program, b: nat, id: int, exit: Exit, words: seq<Word>, s: State, st: Slots, m: M, cap: nat)
    requires b in prog.branches && id in prog.branches[b] && prog.branches[b][id] == Block([], exit)
    requires Related(s, st, m) && Roomy(m, cap) && |words| <= cap
    requires RunExit(prog, b, exit, m) == Restart(prog, Some(words), Overrun, m)
    ensures var end := Steps(prog, At(b, id, m), 1);
      && end == At(prog.pick(words), 0, end.m) && end.m.mem == s.mem && end.m.trace == s.trace && !end.m.dying
      && SameBuffers(m, end.m) && (forall i :: 0 <= i < |words| ==> i in end.m.vars && end.m.vars[i] == words[i])
  {
    RunNoOp(prog, b, id, exit, m);
  }

  lemma {:induction false} SimSelf(prog: Program, b: nat, e: Expr, id: int, st: Slots, base: nat, s: State, m: M, cap: nat)
    returns (k: nat)
    requires e.SelfCall? && Assumed(prog, b, e, id, st, base, s, m, cap)
    ensures Simulated(prog, b, e, id, st, base, s, m, k)
    decreases e, 0
  {
    hide PureEval, Step, Steps, RunOps, RunOp, RunBlock, BlockMachine.Leave, StoreLE, LoadLE, Wrap, StoreVars;
    hide Perform, Bound, LetNames, CompileStmts, CompileArms, CompileArgs, EvalArgs, ScopedAll, RestrainedAll;
    var args := e.args;
    if AllPure(args) {
      k := SimFusedSelf(prog, b, e, id, st, base, s, m, cap);
    } else {
      BoundIsArgsEnv(args, s, prog.world);
      var out := CompileArgs(args, id, st, base + |args|, base);
      var exit := RestartStaged(base, |args|);
      ShapeOfArgs(args, id, st, base + |args|, base);
      IncludedTail(out.blocks, out.id, Block([], exit), id, prog.branches[b]);
      k := SimArgs(prog, b, args, id, st, base + |args|, base, s, m, cap);
      match EvalArgs(args, s, prog.world)
      case Args(s1, words) =>
        var m1 := Steps(prog, At(b, id, m), k).m;
        StagedIs(m1, base, words);
        StepRestart(prog, b, out.id, exit, words, s1, out.st, m1, cap);
        StepsAdd(prog, At(b, id, m), k, 1);
        k := k + 1;
      case Early(_) =>
    }
  }

  /** `self(...)` of pure arguments: one block that re-enters. */
  lemma SimFusedSelf(prog: Program, b: nat, e: Expr, id: int, st: Slots, base: nat, s: State, m: M, cap: nat)
    returns (k: nat)
    requires e.SelfCall? && AllPure(e.args) && Assumed(prog, b, e, id, st, base, s, m, cap)
    ensures Simulated(prog, b, e, id, st, base, s, m, k)
  {
    hide PureEval, Step, Steps, RunOps, RunOp, RunBlock, BlockMachine.Leave, StoreLE, LoadLE, Wrap, StoreVars;
    hide Perform, Bound, LetNames, CompileStmts, CompileArms, CompileArgs, EvalArgs, ScopedAll, RestrainedAll;
    var args := e.args;
    BoundIsArgsEnv(args, s, prog.world);
    PureArgs(args, s, st, m, prog.world);
    var exit := RestartFused(ResolveAll(args, st.vars).value);
    assert prog.branches[b][id] == Block([], exit) by {
      assert id in Single(id, Block([], exit));
    }
    k := 1;
    match EvalArgs(args, s, prog.world)
    case Args(_, words) => StepRestart(prog, b, id, exit, words, s, st, m, cap);
    case Early(_) => RunNoOp(prog, b, id, exit, m);
  }

  lemma {:induction false} SimStmts(prog: Program, b: nat, es: seq<Expr>, id: int, st: Slots, base: nat,
      s: State, m: M, cap: nat)
    returns (k: nat)
    requires AssumedStmts(prog, b, es, id, st, base, s, m, cap)
    ensures SimulatedStmts(prog, b, es, id, st, base, s, m, k)
    decreases es, 0
  {
    hide PureEval, Step, Steps, RunOps, RunOp, RunBlock, BlockMachine.Leave, RunExit, InvokeWith, StoreLE, LoadLE, Wrap, Perform, CompileExpr, Eval, Scoped, Restrained, StagedWords, Bound, LetNames;
    k := 0;
    StepsZero(prog, At(b, id, m));
    if es != [] {
      var c := CompileExpr(es[0], id, st, base);
      ShapeOfExpr(es[0], id, st, base);
      var r := Eval(es[0], s, prog.world);
      if c.outcome.Continue? {
        var rest := CompileStmts(es[1..], c.outcome.id, c.st, base);
        ShapeOfStmts(es[1..], c.outcome.id, c.st, base);
        IncludedParts(c.blocks, rest.blocks, prog.branches[b]);
        k := SimExpr(prog, b, es[0], id, st, base, s, m, cap);
        if r.Val? && |es| > 1 {
          BoundIsEnv(es[0], s, prog.world);
          var m1 := Steps(prog, At(b, id, m), k).m;
          var more := SimStmts(prog, b, es[1..], c.outcome.id, c.st, base, r.s, m1, cap);
          StepsAdd(prog, At(b, id, m), k, more);
          k := k + more;
        } else if r.Val? {
          assert es[1..] == [];
        }
      } else {
        k := SimExpr(prog, b, es[0], id, st, base, s, m, cap);
      }
    }
  }

  // ---------- `when` ----------

  /** The dispatch switch goes where selection goes. */
  lemma {:induction false} CasesAgree(arms: seq<Arm>, starts: seq<int>, d: Word)
    requires |arms| == |starts|
    ensures match IndexOf(arms, Some(d))
      case Some(i) => d in Cases(arms, starts) && Cases(arms, starts)[d] == starts[i]
      case None => d !in Cases(arms, starts)
  {
    if arms != [] {
      CasesAgree(arms[1..], starts[1..], d);
    }
  }

  /** From the start of the first arm to the code after the `when`. */
  lemma {:induction false} SimFirstArm(prog: Program, b: nat, arms: seq<Arm>, id: int, st: Slots, base: nat,
      s: State, m: M, cap: nat, after: int)
    returns (k: nat)
    requires AssumedArm(prog, b, arms, 0, id, st, base, s, m, cap, after)
    ensures SimulatedArm(prog, b, arms, 0, id, st, base, s, m, after, k)
    decreases arms, 0
  {
    hide PureEval, Step, Steps, RunOps, RunOp, RunBlock, BlockMachine.Leave, RunExit, InvokeWith, StoreLE, LoadLE, Wrap;
    hide Perform, CompileExpr, Eval, Scoped, Restrained, StagedWords, Bound, LetNames, CompileArgs, EvalArgs;
    var out := CompileArms(arms, id, st, base);
    var c := CompileStmts(arms[0].body, id, st, base);
    ArmParts(prog, b, arms, id, st, base, s, m, cap, after);
    k := SimStmts(prog, b, arms[0].body, id, st, base, s, m, cap);
    var r := EvalStmts(arms[0].body, s, prog.world);
    if r.Val? {
      var m1 := Steps(prog, At(b, id, m), k).m;
      StepGoto(prog, b, c.outcome.id, after, m1);
      StepsAdd(prog, At(b, id, m), k, 1);
      k := k + 1;
      ShapeOfArms(arms, id, st, base);
    }
  }

  /** What the first arm's simulation needs of the compiled arms. */
  lemma {:induction false} ArmParts(prog: Program, b: nat, arms: seq<Arm>, id: int, st: Slots, base: nat,
      s: State, m: M, cap: nat, after: int)
    requires AssumedArm(prog, b, arms, 0, id, st, base, s, m, cap, after)
    ensures AssumedStmts(prog, b, arms[0].body, id, st, base, s, m, cap)
    ensures var c, out := CompileStmts(arms[0].body, id, st, base), CompileArms(arms, id, st, base);
      && out.starts[0] == id && st.next <= c.st.next
      && (c.outcome.Continue? ==>
            c.outcome.id in prog.branches[b] && prog.branches[b][c.outcome.id] == Block([], Goto(after)))
  {
    hide PureEval, Step, Steps, RunOps, RunOp, RunBlock, BlockMachine.Leave, RunExit, InvokeWith, StoreLE, LoadLE, Wrap;
    hide Perform, CompileExpr, Eval, Scoped, Restrained, StagedWords, Bound, LetNames, CompileArgs, EvalArgs, EvalStmts;
    var out := CompileArms(arms, id, st, base);
    var c := CompileStmts(arms[0].body, id, st, base);
    ShapeOfStmts(arms[0].body, id, st, base);
    if |arms| > 1 {
      var next := c.outcome.NextAvailable() + 1;
      ShapeOfArms(arms[1..], next, c.st, base);
      IncludedParts(c.blocks, CompileArms(arms[1..], next, c.st, base).blocks, prog.branches[b]);
    }
    if c.outcome.Continue? {
      assert c.outcome.id in out.exits;
    }
  }

  /** The later arms, compiled after the first, are ready to be simulated from the same state. */
  lemma {:induction false} LaterArms(prog: Program, b: nat, arms: seq<Arm>, i: nat, id: int, st: Slots, base: nat,
      s: State, m: M, cap: nat, after: int)
    requires 0 < i && AssumedArm(prog, b, arms, i, id, st, base, s, m, cap, after)
    ensures var c, out := CompileStmts(arms[0].body, id, st, base), CompileArms(arms, id, st, base);
      && c.Done? && st.next <= c.st.next
      && var next := c.outcome.NextAvailable() + 1;
        && AssumedArm(prog, b, arms[1..], i - 1, next, c.st, base, s, m, cap, after)
        && out.starts[i] == CompileArms(arms[1..], next, c.st, base).starts[i - 1]
        && out.st == CompileArms(arms[1..], next, c.st, base).st
  {
    hide PureEval, Step, Steps, RunOps, RunOp, RunBlock, BlockMachine.Leave, RunExit, InvokeWith, StoreLE, LoadLE, Wrap;
    hide Perform, CompileExpr, Eval, Scoped, Restrained, StagedWords, Bound, LetNames, CompileArgs, EvalArgs, EvalStmts;
    var c := CompileStmts(arms[0].body, id, st, base);
    ShapeOfStmts(arms[0].body, id, st, base);
    var next := c.outcome.NextAvailable() + 1;
    ShapeOfArms(arms[1..], next, c.st, base);
    IncludedParts(c.blocks, CompileArms(arms[1..], next, c.st, base).blocks, prog.branches[b]);
  }

  /** From the start of arm `i` to the code after the `when`. */
  lemma {:induction false} SimArm(prog: Program, b: nat, arms: seq<Arm>, i: nat, id: int, st: Slots, base: nat,
      s: State, m: M, cap: nat, after: int)
    returns (k: nat)
    requires AssumedArm(prog, b, arms, i, id, st, base, s, m, cap, after)
    ensures SimulatedArm(prog, b, arms, i, id, st, base, s, m, after, k)
    decreases arms, 1
  {
    hide PureEval, Step, Steps, RunOps, RunOp, RunBlock, BlockMachine.Leave, RunExit, InvokeWith, StoreLE, LoadLE, Wrap;
    hide Perform, CompileExpr, Eval, Scoped, Restrained, StagedWords, Bound, LetNames, CompileArgs, EvalArgs, CompileStmts, EvalStmts, AssumedArm;
    if i == 0 {
      k := SimFirstArm(prog, b, arms, id, st, base, s, m, cap, after);
    } else {
      ArmIndex(prog, b, arms, i, id, st, base, s, m, cap, after);
      LaterArms(prog, b, arms, i, id, st, base, s, m, cap, after);
      var c := CompileStmts(arms[0].body, id, st, base);
      k := SimArm(prog, b, arms[1..], i - 1, c.outcome.NextAvailable() + 1, c.st, base, s, m, cap, after);
    }
  }

  lemma ArmIndex(prog: Program, b: nat, arms: seq<Arm>, i: nat, id: int, st: Slots, base: nat, s: State, m: M,
      cap: nat, after: int)
    requires AssumedArm(prog, b, arms, i, id, st, base, s, m, cap, after)
    ensures i < |arms| && CompileArms(arms, id, st, base).ArmsDone?
  {
  }

  /** What compiling a `when` by dispatch puts into the program. */
  lemma {:induction false} WhenParts(prog: Program, b: nat, e: Expr, id: int, st: Slots, base: nat, s: State, m: M, cap: nat)
    requires e.When? && !Tabular(e.arms) && AssumedWhen(prog, b, e, id, st, base, s, m, cap)
    ensures var c := CompileExpr(e.cond, id, st, base);
      && Assumed(prog, b, e.cond, id, st, base, s, m, cap) && c.outcome.Continue?
      && var arms := CompileArms(e.arms, c.outcome.id + 1, c.st, base);
        && arms.ArmsDone? && c.st.Valid() && st.next <= c.st.next && arms.st.next <= cap
        && DispatchInPlace(prog.branches[b], c.outcome.id, e.arms, arms)
        && CompileExpr(e, id, st, base).Done?
        && CompileExpr(e, id, st, base).outcome == Continue(arms.next)
        && CompileExpr(e, id, st, base).st == arms.st
  {
    hide PureEval, Step, Steps, RunOps, RunOp, RunBlock, BlockMachine.Leave, StoreLE, LoadLE, Wrap, StoreVars;
    hide Perform, Bound, LetNames, CompileStmts, CompileArms, CompileArgs, EvalArgs, EvalStmts, ScopedAll, ArmNames;
    assert CompileExpr(e, id, st, base) == CompileWhen(e, id, st, base);
    var c := CompileExpr(e.cond, id, st, base);
    var check := c.outcome.id;
    ShapeOfExpr(e.cond, id, st, base);
    var arms := CompileArms(e.arms, check + 1, c.st, base);
    var dispatch := Block([], Switch(Cases(e.arms, arms.starts), Default(e.arms, arms.starts, arms.next)));
    var redirects := Redirects(arms.exits, arms.next);
    ShapeOfArms(e.arms, check + 1, c.st, base);
    IncludedParts(c.blocks + Single(check, dispatch) + arms.blocks, redirects, prog.branches[b]);
    IncludedRun(c.blocks, check, dispatch, arms.blocks, id, arms.next, prog.branches[b]);
    forall x | x in arms.exits ensures x in prog.branches[b] && prog.branches[b][x] == Block([], Goto(arms.next)) {
      assert x in redirects;
    }
  }

  /** The table holds the dispatch block, every arm's blocks and every redirect past the `when`. */
  predicate DispatchInPlace(table: BlockTable, check: int, arms: seq<Arm>, out: ArmsCompiled)
    requires out.ArmsDone? && |out.starts| == |arms|
  {
    && check in table
    && table[check] == Block([], Switch(Cases(arms, out.starts), Default(arms, out.starts, out.next)))
    && Included(out.blocks, table)
    && (forall x :: x in out.exits ==> x in table && table[x] == Block([], Goto(out.next)))
  }

  /** The dispatch block jumps to the selected arm, or past the `when`. */
  lemma StepDispatch(prog: Program, b: nat, check: int, arms: seq<Arm>, out: ArmsCompiled, m: M)
    requires b in prog.branches && out.ArmsDone? && |out.starts| == |arms|
    requires DispatchInPlace(prog.branches[b], check, arms, out) && !m.dying
    ensures Steps(prog, At(b, check, m), 1) ==
      At(b, if Select(arms, m.temp).Some? then out.starts[Select(arms, m.temp).value] else out.next, m)
  {
    var exit := Switch(Cases(arms, out.starts), Default(arms, out.starts, out.next));
    RunNoOp(prog, b, check, exit, m);
    CasesAgree(arms, out.starts, m.temp);
  }

  /**
   * A `when` by dispatch. With `names` holding every name its arms re-bind, it runs as it evaluates without the outer
   * values of those names.
   */
  lemma {:induction false} SimDispatch(prog: Program, b: nat, e: Expr, names: set<string>, id: int, st: Slots, base: nat,
      s: State, m: M, cap: nat)
    returns (k: nat)
    requires e.When? && !Tabular(e.arms) && AssumedWhen(prog, b, e, id, st, base, s, m, cap)
    requires ScopedArms(e.arms, Bound(e.cond, s.env.Keys) - names)
    requires ArmNames(e.arms) * Bound(e.cond, s.env.Keys) <= names && EvalWithout(e, names, s, prog.world) != Wrong
    ensures var out := CompileExpr(e, id, st, base);
      && out.Done?
      && Lands(prog, b, Steps(prog, At(b, id, m), k), EvalWithout(e, names, s, prog.world), out.outcome, out.st, m,
               st.next, base)
    decreases e, 0
  {
    hide PureEval, Step, Steps, RunOps, RunOp, RunBlock, BlockMachine.Leave, RunExit, StoreLE, LoadLE, Wrap, StoreVars;
    hide Perform, Bound, LetNames, CompileExpr, CompileArms, CompileArgs, EvalArgs, EvalStmts, ScopedAll, ArmNames;
    WhenParts(prog, b, e, id, st, base, s, m, cap);
    BoundIsEnv(e.cond, s, prog.world);
    var c := CompileExpr(e.cond, id, st, base);
    var check := c.outcome.id;
    var arms := CompileArms(e.arms, check + 1, c.st, base);
    k := SimExpr(prog, b, e.cond, id, st, base, s, m, cap);
    var r := Eval(e.cond, s, prog.world);
    if r.Val? {
      var m1 := Steps(prog, At(b, id, m), k).m;
      StepDispatch(prog, b, check, e.arms, arms, m1);
      StepsAdd(prog, At(b, id, m), k, 1);
      k := k + 1;
      var t1 := r.s.(env := r.s.env - names);
      assert t1.env.Keys == Bound(e.cond, s.env.Keys) - names;
      ShapeOfArms(e.arms, check + 1, c.st, base);
      match Select(e.arms, r.v.value)
      case None => SlotsKept(t1, c.st, arms.st, ArmNames(e.arms), m1);
      case Some(i) =>
        var more := SimArm(prog, b, e.arms, i, check + 1, c.st, base, t1, m1, cap, arms.next);
        StepsAdd(prog, At(b, id, m), k, more);
        k := k + more;
    }
  }

  /** Names not among those that moved mean what they meant. */
  lemma SlotsKept(s: State, st: Slots, st1: Slots, names: set<string>, m: M)
    requires Related(s, st, m) && Extends(st, st1, names) && s.env.Keys !! names
    ensures Related(s, st1, m)
  {
  }

  lemma {:induction false} SimWhen(prog: Program, b: nat, e: Expr, id: int, st: Slots, base: nat, s: State, m: M, cap: nat)
    returns (k: nat)
    requires e.When? && Assumed(prog, b, e, id, st, base, s, m, cap)
    ensures Simulated(prog, b, e, id, st, base, s, m, k)
    decreases e, 1
  {
    hide PureEval, Step, Steps, RunOps, RunOp, RunBlock, BlockMachine.Leave, RunExit, StoreLE, LoadLE, Wrap, StoreVars;
    hide Perform, Bound, LetNames, CompileExpr, CompileArms, CompileArgs, EvalArgs, EvalStmts, ScopedAll, ArmNames, Lands;
    if Tabular(e.arms) {
      k := SimTable(prog, b, e, id, st, base, s, m, cap);
    } else {
      var bound := Bound(e.cond, s.env.Keys);
      assert bound - {} == bound;
      AllNamesKept(e, s, prog.world);
      k := SimDispatch(prog, b, e, {}, id, st, base, s, m, cap);
    }
  }

  lemma AllNamesKept(e: Expr, s: State, world: World)
    requires e.When?
    ensures EvalWithout(e, {}, s, world) == Eval(e, s, world)
  {
    hide EvalStmts, Select, Lake.Leave;
    var r := Eval(e.cond, s, world);
    if r.Val? {
      assert r.s.env - {} == r.s.env;
    }
  }

  lemma ConstantBody(a: Arm, s: State, world: World)
    requires ConstantArm(a) && KTable.NoOverflowingDiv(a.body[0].pure)
    ensures EvalStmts(a.body, s, world) == Val(s, Some(ConstFold(a.body[0].pure).value))
  {
    KTable.FoldAgrees(a.body[0].pure, s.env, s.mem);
    assert Eval(a.body[0], s, world) == EvalPure(a.body[0].pure, s);
  }

  /** The lookup block loads the table entry; out of range, it leaves the register alone. */
  lemma StepLookup(prog: Program, b: nat, check: int, values: seq<Word>, m: M)
    requires b in prog.branches && check in prog.branches[b]
    requires prog.branches[b][check] == Block([], Table(values, check + 1)) && !m.dying
    ensures Steps(prog, At(b, check, m), 1) ==
      At(b, check + 1, if m.temp < |values| then m.(temp := values[m.temp]) else m)
  {
    RunNoOp(prog, b, check, Table(values, check + 1), m);
  }

  lemma {:induction false} SimTable(prog: Program, b: nat, e: Expr, id: int, st: Slots, base: nat, s: State, m: M, cap: nat)
    returns (k: nat)
    requires e.When? && Tabular(e.arms) && Assumed(prog, b, e, id, st, base, s, m, cap)
    ensures Simulated(prog, b, e, id, st, base, s, m, k)
    decreases e.cond, 3
  {
    hide PureEval, Step, Steps, RunOps, RunOp, RunBlock, BlockMachine.Leave, RunExit, StoreLE, LoadLE, Wrap, StoreVars;
    hide Perform, Bound, LetNames, CompileStmts, CompileArms, CompileArgs, EvalArgs, EvalStmts, ScopedAll, ArmNames;
    assert CompileExpr(e, id, st, base) == CompileWhen(e, id, st, base);
    var c := CompileExpr(e.cond, id, st, base);
    var check := c.outcome.id;
    ShapeOfExpr(e.cond, id, st, base);
    IncludedTail(c.blocks, check, Block([], Table(TableValues(e.arms), check + 1)), id, prog.branches[b]);
    k := SimExpr(prog, b, e.cond, id, st, base, s, m, cap);
    var r := Eval(e.cond, s, prog.world);
    if r.Val? {
      var m1 := Steps(prog, At(b, id, m), k).m;
      StepLookup(prog, b, check, TableValues(e.arms), m1);
      StepsAdd(prog, At(b, id, m), k, 1);
      k := k + 1;
      KTable.TableIsSelection(e.arms, r.v.value);
      match Select(e.arms, r.v.value)
      case None =>
      case Some(i) => ConstantBody(e.arms[i], r.s, prog.world);
    }
  }
}
