/** The machine that runs compiled blocks: numbered blocks over VARIABLES, TEMP_VAL and JUMP_ARGS. */
module BlockMachine {
  import opened Words
  import opened Lake

  const JUMP_ARGS_WORDS: nat := 256

  /** An actor's execution state. VARIABLES and JUMP_ARGS are buffers: their keys are the words allocated. */
  datatype M = M(
    vars: map<nat, Word>, temp: Word, jumpArgs: map<nat, Word>,
    mem: Mem, trace: seq<Action>, dying: bool)

  datatype Op =
    | SetTemp(p: Pure<nat>)
    | SetVar(slot: nat, p: Pure<nat>)
    | LoadStr(fat: Word, start: Word, end: Word)
    | SaveTemp(slot: nat)
    | Stage(k: nat)
    | Invoke(callee: Callee<nat>, base: nat, n: nat)
    | InvokeFused(callee: Callee<nat>, ps: seq<Pure<nat>>)

  datatype Exit =
    | Goto(id: int)
    | ParkThenGoto(id: int)
    | Switch(cases: map<Word, int>, dflt: int)
    | Table(values: seq<Word>, after: int)
    | RestartStaged(base: nat, n: nat)
    | RestartFused(ps: seq<Pure<nat>>)

  datatype Block = Block(ops: seq<Op>, exit: Exit)

  type BlockTable = map<int, Block>

  /** `pick` chooses the branch that a `self(...)` with these argument words enters. */
  datatype Program = Program(branches: map<nat, BlockTable>, pick: seq<Word> -> nat, world: World)

  datatype Ran = Next(m: M) | Stop(why: Why, m: M)

  function EvalAll(ps: seq<Pure<nat>>, m: M): Option<seq<Word>> {
    if ps == [] then Some([])
    else match PureEval(ps[0], m.vars, m.mem)
      case Ok(w) =>
        (match EvalAll(ps[1..], m) case Some(ws) => Some([w] + ws) case None => None)
      case _ => None
  }

  /** JUMP_ARGS[base .. base + n), or nothing when that range leaves the buffer. */
  function Staged(m: M, base: nat, n: nat): Option<seq<Word>> {
    if forall i :: base <= i < base + n ==> i in m.jumpArgs
    then Some(seq(n, i requires 0 <= i < n => m.jumpArgs[base + i]))
    else None
  }

  function InvokeWith(world: World, c: Callee<nat>, words: seq<Word>, m: M): Ran {
    if c.Send? && c.pid !in m.vars then Stop(Overrun, m) else
    var all := if c.Send? then [m.vars[c.pid]] + words else words;
    var trace := m.trace + [Action(Anonymous(c), all)];
    var r := world(trace, m.mem);
    var ret := RetOf(c, r);
    Next(m.(mem := r.mem, trace := trace, dying := r.dies,
            temp := if ret.Some? then ret.value else m.temp))
  }

  function StoreVar(m: M, slot: nat, w: Word): Ran {
    if slot in m.vars then Next(m.(vars := m.vars[slot := w])) else Stop(Overrun, m)
  }

  function RunOp(world: World, op: Op, m: M): Ran {
    match op
    case SetTemp(p) =>
      (match PureEval(p, m.vars, m.mem)
       case Ok(w) => Next(m.(temp := w)) case Trap => Stop(Trapped, m) case Unbound => Stop(Overrun, m))
    case SetVar(slot, p) =>
      (match PureEval(p, m.vars, m.mem)
       case Ok(w) => StoreVar(m, slot, w) case Trap => Stop(Trapped, m) case Unbound => Stop(Overrun, m))
    case LoadStr(fat, start, end) =>
      Next(m.(mem := StoreFat(m.mem, fat, start, end), temp := fat))
    case SaveTemp(slot) => StoreVar(m, slot, m.temp)
    case Stage(k) =>
      if k in m.jumpArgs then Next(m.(jumpArgs := m.jumpArgs[k := m.temp])) else Stop(Overrun, m)
    case Invoke(c, base, n) =>
      (match Staged(m, base, n) case Some(ws) => InvokeWith(world, c, ws, m) case None => Stop(Overrun, m))
    case InvokeFused(c, ps) =>
      (match EvalAll(ps, m) case Some(ws) => InvokeWith(world, c, ws, m) case None => Stop(Trapped, m))
  }

  function RunOps(world: World, ops: seq<Op>, m: M): Ran {
    if ops == [] then Next(m)
    else match RunOp(world, ops[0], m)
      case Next(m1) => RunOps(world, ops[1..], m1)
      case stop => stop
  }

  /** Where the machine is: at a block of a branch, or stopped for good. */
  datatype Cfg = At(branch: nat, id: int, m: M) | Stopped(why: Why, m: M)

  /** Write VARIABLES[0 .. |words|) := words. */
  function StoreVars(m: M, words: seq<Word>): Ran {
    if forall i :: 0 <= i < |words| ==> i in m.vars
    then Next(m.(vars := map i | i in m.vars :: if i < |words| then words[i] else m.vars[i]))
    else Stop(Overrun, m)
  }

  function Restart(prog: Program, words: Option<seq<Word>>, otherwise: Why, m: M): Cfg {
    if words.None? then Stopped(otherwise, m)
    else match StoreVars(m, words.value)
      case Next(m1) => At(prog.pick(words.value), 0, m1)
      case Stop(why, m1) => Stopped(why, m1)
  }

  function SwitchTarget(cases: map<Word, int>, dflt: int, d: Word): int {
    if d in cases then cases[d] else dflt
  }

  function RunExit(prog: Program, branch: nat, exit: Exit, m: M): Cfg {
    match exit
    case Goto(id) => At(branch, id, m)
    case ParkThenGoto(id) => At(branch, id, m)
    case Switch(cases, dflt) => At(branch, SwitchTarget(cases, dflt, m.temp), m)
    case Table(values, after) =>
      if m.temp < |values| then At(branch, after, m.(temp := values[m.temp]))
      else At(branch, after, m)
    case RestartStaged(base, n) => Restart(prog, Staged(m, base, n), Overrun, m)
    case RestartFused(ps) => Restart(prog, EvalAll(ps, m), Trapped, m)
  }

  /** An id with no block falls to the branch switch's default: the actor is done. */
  predicate Finished(prog: Program, c: Cfg) {
    c.At? && (c.branch !in prog.branches || c.id !in prog.branches[c.branch])
  }

  function RunBlock(prog: Program, branch: nat, b: Block, m: M): Cfg {
    Leave(prog, branch, b.exit, RunOps(prog.world, b.ops, m))
  }

  /** The end of a block; the quantum loop's death check comes before its exit takes effect. */
  function Leave(prog: Program, branch: nat, exit: Exit, r: Ran): Cfg {
    match r
    case Stop(why, m) => Stopped(why, m)
    case Next(m) => if m.dying then Stopped(Died, m) else RunExit(prog, branch, exit, m)
  }

  /** One dispatched block. */
  function Step(prog: Program, c: Cfg): Cfg {
    if c.Stopped? || Finished(prog, c) then c
    else RunBlock(prog, c.branch, prog.branches[c.branch][c.id], c.m)
  }

  function Steps(prog: Program, c: Cfg, k: nat): Cfg
    decreases k
  {
    if k == 0 then c else Steps(prog, Step(prog, c), k - 1)
  }

  lemma {:induction false} StepsAdd(prog: Program, c: Cfg, j: nat, k: nat)
    ensures Steps(prog, c, j + k) == Steps(prog, Steps(prog, c, j), k)
    decreases j
  {
    if j > 0 {
      StepsAdd(prog, Step(prog, c), j - 1, k);
    }
  }
}
