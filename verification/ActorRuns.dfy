/** Whole actor runs: branch after branch, each entered by `self(...)`, against iterated evaluation. */
module ActorRuns {
  import opened Words
  import opened Lake
  import opened BlockMachine
  import opened BlockCompiler
  import opened CompilerCorrect
  import opened SuperBlock
  import Slices

  /** A parameter is a name, or an anonymous position (literal guard or wildcard) that still takes a slot. */
  datatype Branch = Branch(params: seq<Option<string>>, body: seq<Expr>)

  /** A machine: its own name, its branches, which of them argument words enter, and the world around it. */
  datatype Source = Source(own: string, branches: map<nat, Branch>, pick: seq<Word> -> nat, world: World)

  // ---------- Branch entry ----------

  /** Slots in parameter order. */
  function ParamSlots(params: seq<Option<string>>): Slots {
    if params == [] then Slots(map[], 0)
    else
      var st := ParamSlots(params[..|params| - 1]);
      match params[|params| - 1]
      case Some(x) => st.Insert(x)
      case None => st.(next := st.next + 1)
  }

  /** Names bound to the call's words; a repeated name means its last position. */
  function EntryEnv(params: seq<Option<string>>, words: seq<Word>): map<string, Word>
    requires |params| == |words|
  {
    if params == [] then map[]
    else
      var last := |params| - 1;
      var env := EntryEnv(params[..last], words[..last]);
      match params[last] case Some(x) => env[x := words[last]] case None => env
  }

  function ParamNames(params: seq<Option<string>>): set<string> {
    set i | 0 <= i < |params| && params[i].Some? :: params[i].value
  }

  /** Argument words stored positionally are what the names mean, anonymous positions included. */
  lemma {:induction false} EntryAgrees(params: seq<Option<string>>, words: seq<Word>, vars: map<nat, Word>)
    requires |params| == |words| && Holds(vars, 0, words)
    ensures ParamSlots(params).Valid() && ParamSlots(params).next == |params|
    ensures Agree(EntryEnv(params, words), ParamSlots(params).vars, vars)
    ensures EntryEnv(params, words).Keys == ParamNames(params)
    decreases params
  {
    if params != [] {
      var last := |params| - 1;
      EntryAgrees(params[..last], words[..last], vars);
      assert last in vars && vars[last] == words[last];
      assert ParamNames(params) == ParamNames(params[..last]) +
             (if params[last].Some? then {params[last].value} else {});
    }
  }

  /** A name means the word at the last position that has it, and its slot is that position. */
  lemma {:induction false} EntryPlaces(params: seq<Option<string>>, words: seq<Word>, i: nat)
    requires |params| == |words| && i < |params| && params[i].Some?
    requires forall j :: i < j < |params| ==> params[j] != params[i]
    ensures var x := params[i].value;
      && x in EntryEnv(params, words) && EntryEnv(params, words)[x] == words[i]
      && x in ParamSlots(params).vars && ParamSlots(params).vars[x] == i
    ensures ParamSlots(params).next == |params|
    decreases params
  {
    var last := |params| - 1;
    SlotCount(params[..last]);
    if i < last {
      EntryPlaces(params[..last], words[..last], i);
    }
  }

  lemma {:induction false} SlotCount(params: seq<Option<string>>)
    ensures ParamSlots(params).next == |params|
    decreases params
  {
    if params != [] {
      SlotCount(params[..|params| - 1]);
    }
  }

  // ---------- Compiled machines ----------

  /** The branch compiles from id 0 into `table`, fits the buffers and meets the source conditions. */
  predicate BranchCompiles(br: Branch, table: BlockTable, cap: nat) {
    var c := CompileBody(br.body, 0, ParamSlots(br.params));
    && c.Done? && table == c.blocks && c.st.next <= cap
    && ScopedAll(br.body, ParamNames(br.params)) && RestrainedAll(br.body, cap)
    && StagedInAll(br.body) <= JUMP_ARGS_WORDS
  }

  /** Both sides share the world and the choice of branches, and `branch` is compiled if the source has it. */
  ghost predicate Installed(src: Source, prog: Program, branch: nat, cap: nat) {
    && prog.pick == src.pick && prog.world == src.world && (branch in prog.branches <==> branch in src.branches)
    && (branch in src.branches ==> BranchCompiles(src.branches[branch], prog.branches[branch], cap))
  }

  ghost predicate Compiles(src: Source, prog: Program, cap: nat) {
    forall b :: Installed(src, prog, b, cap)
  }

  /** `self(...)` reaches branches of its own arity only. */
  ghost predicate ArityRespected(src: Source) {
    forall words :: src.pick(words) in src.branches ==> |src.branches[src.pick(words)].params| == |words|
  }

  predicate Enters(src: Source, branch: nat, words: seq<Word>) {
    branch in src.branches ==> |src.branches[branch].params| == |words|
  }

  // ---------- Iterated evaluation ----------

  /** The result of the last of at most `n + 1` branch bodies, each entered with the previous one's arguments. */
  ghost function Live(src: Source, branch: nat, words: seq<Word>, mem: Mem, trace: seq<Action>, n: nat): Result
    requires Enters(src, branch, words) && ArityRespected(src)
    decreases n
  {
    if branch !in src.branches then Val(State(map[], mem, trace), None)
    else
      var br := src.branches[branch];
      var r := Forget(EvalStmts(br.body, State(EntryEnv(br.params, words), mem, trace), src.world));
      if r.Again? && n > 0 then Live(src, src.pick(r.args), r.args, r.mem, r.trace, n - 1) else r
  }

  /** Buffers allocated, argument words in place. */
  predicate EntryState(m: M, words: seq<Word>, cap: nat) {
    Roomy(m, cap) && !m.dying && Holds(m.vars, 0, words)
  }

  predicate Ends(prog: Program, c: Cfg, r: Result, cap: nat) {
    match r
    case Val(s, _) => Finished(prog, c) && c.m.mem == s.mem && c.m.trace == s.trace
    case Again(words, mem, trace) =>
      c == At(prog.pick(words), 0, c.m) && EntryState(c.m, words, cap) && c.m.mem == mem && c.m.trace == trace
    case Halt(why, mem, trace) => c == Stopped(why, c.m) && c.m.mem == mem && c.m.trace == trace
    case Wrong => false
  }

  /** One branch, from its entry to its end. */
  lemma {:induction false} BranchCorrect(src: Source, prog: Program, branch: nat, words: seq<Word>, m: M, cap: nat)
    returns (k: nat)
    requires Installed(src, prog, branch, cap) && Enters(src, branch, words) && ArityRespected(src)
    requires EntryState(m, words, cap) && Live(src, branch, words, m.mem, m.trace, 0) != Wrong
    ensures Ends(prog, Steps(prog, At(branch, 0, m), k), Live(src, branch, words, m.mem, m.trace, 0), cap)
    ensures Live(src, branch, words, m.mem, m.trace, 0).Val? ==> Steps(prog, At(branch, 0, m), k).branch == branch
  {
    hide CompileBody, EvalStmts, ScopedAll, RestrainedAll, StagedInAll, Step, Steps, ParamSlots, EntryEnv, ParamNames;
    if branch !in src.branches {
      StepsZero(prog, At(branch, 0, m));
      k := 0;
    } else {
      var br := src.branches[branch];
      var st := ParamSlots(br.params);
      var s := State(EntryEnv(br.params, words), m.mem, m.trace);
      EntryAgrees(br.params, words, m.vars);
      ShapeOfBody(br.body, 0, st);
      assert BranchCompiles(br, prog.branches[branch], cap);
      k := SimBody(prog, branch, br.body, 0, st, s, m, cap);
    }
  }

  /**
   * Compiler correctness over whole runs. For every number of `self(...)` iterations, the compiled machine,
   * entered with the argument words in VARIABLES, reaches the state the source reaches: finished with the same
   * memory and the same action trace, re-entered with the same arguments, or stopped for the same reason.
   */
  lemma {:induction false} RunCorrect(src: Source, prog: Program, branch: nat, words: seq<Word>, m: M, cap: nat, n: nat)
    returns (k: nat)
    requires Compiles(src, prog, cap) && Enters(src, branch, words) && ArityRespected(src)
    requires EntryState(m, words, cap) && Live(src, branch, words, m.mem, m.trace, n) != Wrong
    ensures Ends(prog, Steps(prog, At(branch, 0, m), k), Live(src, branch, words, m.mem, m.trace, n), cap)
    decreases n
  {
    hide EvalStmts, Step, Steps, EntryEnv, BranchCompiles, Roomy, Holds;
    k := BranchCorrect(src, prog, branch, words, m, cap);
    var r := Live(src, branch, words, m.mem, m.trace, 0);
    if r.Again? && n > 0 {
      var c := Steps(prog, At(branch, 0, m), k);
      var more := RunCorrect(src, prog, c.branch, r.args, c.m, cap, n - 1);
      StepsAdd(prog, At(branch, 0, m), k, more);
      k := k + more;
    }
  }

  /**
   * Compiler correctness under preemption. However a compiled actor's run is cut into slices, once the slices bring
   * it to an end that end is the source's: the result of direct evaluation, with the same memory and action trace.
   */
  lemma SlicedRunCorrect(src: Source, prog: Program, branch: nat, words: seq<Word>, m: M, cap: nat, n: nat,
      cfgs: seq<Cfg>, quanta: seq<nat>, counts: seq<nat>, stops: seq<Slices.StopCode>)
    requires Compiles(src, prog, cap) && Enters(src, branch, words) && ArityRespected(src)
    requires EntryState(m, words, cap)
    requires Live(src, branch, words, m.mem, m.trace, n) != Wrong && !Live(src, branch, words, m.mem, m.trace, n).Again?
    requires Slices.IsSchedule(prog, cfgs, quanta, counts, stops) && cfgs[0] == At(branch, 0, m)
    requires Slices.Terminal(prog, cfgs[|counts|])
    ensures Ends(prog, cfgs[|counts|], Live(src, branch, words, m.mem, m.trace, n), cap)
  {
    hide Live, Steps, Step, Installed, EntryState, Enters;
    var k := RunCorrect(src, prog, branch, words, m, cap, n);
    Slices.PreemptionTransparent(prog, cfgs, quanta, counts, stops, k);
  }
}
