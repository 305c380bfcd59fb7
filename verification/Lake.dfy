/** Abstract syntax of a branch body, its data memory and its direct (big-step) meaning. */
module Lake {
  import opened Words

  datatype Option<+T> = None | Some(value: T)

  // ---------- Data memory ----------

  /** Bytes reachable through fat pointers; an address never written reads as 0. */
  type Mem = map<Word, Byte>

  function LoadByte(mem: Mem, addr: Word): Byte {
    if addr in mem then mem[addr] else 0
  }

  /** Little-endian load of `n` bytes, zero-extended to a word. */
  function LoadLE(mem: Mem, addr: Word, n: nat): Word
    decreases n
  {
    if n == 0 then 0 else Wrap(256 * LoadLE(mem, Wrap(addr + 1), n - 1) + LoadByte(mem, addr))
  }

  /** Little-endian store of the `n` low bytes of `w`. */
  function StoreLE(mem: Mem, addr: Word, w: Word, n: nat): Mem
    decreases n
  {
    if n == 0 then mem else StoreLE(mem[addr := w % 256], Wrap(addr + 1), w / 256, n - 1)
  }

  /** Fat pointer at `fat`: the addresses of a region's first byte and of one past its last. */
  function StoreFat(mem: Mem, fat: Word, start: Word, end: Word): Mem {
    StoreLE(StoreLE(mem, fat, start, 8), Wrap(fat + 8), end, 8)
  }

  // ---------- Syntax ----------

  /** Expressions that fold into straight-line code. `V` is a name in the source, a slot in the target. */
  datatype Pure<V> =
    | Num(w: Word)
    | Bool(b: bool)
    | Atom(id: Word)
    | Var(v: V)
    | Neg(operand: Pure<V>)
    | Bin(op: BinOp, left: Pure<V>, right: Pure<V>)
    | TupleIndex(tuple: Pure<V>, index: Word)
    | Load(bytes: nat, fat: Pure<V>, offset: Pure<V>)

  /** What a call runs: a runtime function, one that parks the actor, a spawn, or a send. */
  datatype Callee<V> = Rt(name: string) | Parking(name: string) | Spawn(machine: string) | Send(pid: V)

  datatype Key = NumKey(w: Word) | BoolKey(b: bool) | AtomKey(id: Word) | Wildcard

  /** The word an arm's key is compared with; the wildcard has none. */
  function LiteralValue(k: Key): Option<Word> {
    match k
    case NumKey(w) => Some(w)
    case BoolKey(b) => Some(FromBool(b))
    case AtomKey(id) => Some(id)
    case Wildcard => None
  }

  datatype Arm = Arm(key: Key, body: seq<Expr>)

  datatype Expr =
    | P(pure: Pure<string>)
    | Str(fat: Word, start: Word, end: Word)
    | Let(name: string, init: Expr)
    | When(cond: Expr, arms: seq<Arm>)
    | Call(callee: Callee<string>, args: seq<Expr>)
    | SelfCall(args: seq<Expr>)

  // ---------- Pure expressions ----------

  datatype PureResult = Ok(w: Word) | Trap | Unbound

  function PureEval<V(==)>(p: Pure<V>, env: map<V, Word>, mem: Mem): PureResult {
    match p
    case Num(w) => Ok(w)
    case Bool(b) => Ok(FromBool(b))
    case Atom(id) => Ok(id)
    case Var(v) => if v in env then Ok(env[v]) else Unbound
    case Neg(q) =>
      var r := PureEval(q, env, mem);
      if r.Ok? then Ok(Negate(r.w)) else r
    case Bin(op, l, r) =>
      var a := PureEval(l, env, mem);
      if !a.Ok? then a else
      var b := PureEval(r, env, mem);
      if !b.Ok? then b else
      (match ApplyBin(op, a.w, b.w) case Value(w) => Ok(w) case Fault => Trap)
    case TupleIndex(t, i) =>
      var a := PureEval(t, env, mem);
      if !a.Ok? then a else Ok(LoadLE(mem, Wrap(LoadLE(mem, a.w, 8) + 8 * i), 8))
    case Load(n, f, o) =>
      var a := PureEval(f, env, mem);
      if !a.Ok? then a else
      var b := PureEval(o, env, mem);
      if !b.Ok? then b else Ok(LoadLE(mem, Wrap(LoadLE(mem, a.w, 8) + b.w), n))
  }

  // ---------- The world outside the actor ----------

  /** One observable action: the callee with every argument word. A send carries the pid first. */
  datatype Action = Action(callee: Callee<()>, args: seq<Word>)

  /** The world's answer to an action: new memory, a word if one comes back, and whether the actor must die. */
  datatype Reply = Reply(mem: Mem, ret: Option<Word>, dies: bool)

  /** The world answers from the whole history of actions, the last one included. */
  type World = (seq<Action>, Mem) -> Reply

  function Anonymous<V>(c: Callee<V>): Callee<()> {
    match c
    case Rt(n) => Rt(n)
    case Parking(n) => Parking(n)
    case Spawn(n) => Spawn(n)
    case Send(_) => Send(())
  }

  /** A send never writes the word register; every other callee stores its reply there, if there is one. */
  function RetOf<V>(c: Callee<V>, r: Reply): Option<Word> {
    if c.Send? then None else r.ret
  }

  // ---------- Big-step meaning ----------

  datatype State = State(env: map<string, Word>, mem: Mem, trace: seq<Action>)

  datatype Why = Trapped | Died | Overrun

  datatype Result =
    | Val(s: State, v: Option<Word>)
    | Again(args: seq<Word>, mem: Mem, trace: seq<Action>)
    | Halt(why: Why, mem: Mem, trace: seq<Action>)
    | Wrong  // a value position without a value, or a name that is not in scope

  datatype ArgsResult = Args(s: State, words: seq<Word>) | Early(r: Result)

  function EvalPure(p: Pure<string>, s: State): Result {
    match PureEval(p, s.env, s.mem)
    case Ok(w) => Val(s, Some(w))
    case Trap => Halt(Trapped, s.mem, s.trace)
    case Unbound => Wrong
  }

  /** The arm a discriminant selects: the literal equal to it, else the wildcard, else none. */
  function Select(arms: seq<Arm>, d: Word): Option<nat> {
    match IndexOf(arms, Some(d))
    case Some(i) => Some(i)
    case None => IndexOf(arms, None)
  }

  /** First arm whose key has this literal value. */
  function IndexOf(arms: seq<Arm>, k: Option<Word>): (r: Option<nat>)
    ensures r.Some? ==> r.value < |arms| && LiteralValue(arms[r.value].key) == k
    ensures r.None? ==> forall i :: 0 <= i < |arms| ==> LiteralValue(arms[i].key) != k
  {
    if arms == [] then None
    else if LiteralValue(arms[0].key) == k then Some(0)
    else match IndexOf(arms[1..], k)
      case Some(i) => Some(i + 1)
      case None =>
        assert forall i :: 0 < i < |arms| ==> arms[i] == arms[1..][i - 1];
        None
  }

  function Perform<V>(world: World, c: Callee<V>, words: seq<Word>, s: State): Result {
    var trace := s.trace + [Action(Anonymous(c), words)];
    var r := world(trace, s.mem);
    if r.dies then Halt(Died, r.mem, trace)
    else Val(State(s.env, r.mem, trace), RetOf(c, r))
  }

  function Eval(e: Expr, s: State, world: World): Result
    decreases e, 1
  {
    match e
    case P(p) => EvalPure(p, s)
    case Str(fat, start, end) =>
      Val(s.(mem := StoreFat(s.mem, fat, start, end)), Some(fat))
    case Let(x, init) =>
      (match Eval(init, s, world)
       case Val(s1, Some(w)) => Val(s1.(env := s1.env[x := w]), None)
       case Val(_, None) => Wrong
       case other => other)
    case When(cond, arms) =>
      (match Eval(cond, s, world)
       case Val(s1, Some(d)) =>
         (match Select(arms, d)
          case None => Val(s1, None)
          case Some(i) => Leave(s1.env, EvalStmts(arms[i].body, s1, world)))
       case Val(_, None) => Wrong
       case other => other)
    case Call(c, args) =>
      (match EvalArgs(args, s, world)
       case Early(r) => r
       case Args(s1, words) =>
         if c.Send? then
           if c.pid in s1.env then Perform(world, c, [s1.env[c.pid]] + words, s1) else Wrong
         else Perform(world, c, words, s1))
    case SelfCall(args) =>
      (match EvalArgs(args, s, world)
       case Early(r) => r
       case Args(s1, words) => Again(words, s1.mem, s1.trace))
  }

  /** Leaving an arm drops its bindings. */
  function Leave(env: map<string, Word>, r: Result): Result {
    if r.Val? then Val(r.s.(env := env), r.v) else r
  }

  function EvalStmts(es: seq<Expr>, s: State, world: World): Result
    decreases es, 0
  {
    if es == [] then Val(s, None)
    else
      var r := Eval(es[0], s, world);
      if !r.Val? || |es| == 1 then r else EvalStmts(es[1..], r.s, world)
  }

  function EvalArgs(es: seq<Expr>, s: State, world: World): ArgsResult
    decreases es, 0
  {
    if es == [] then Args(s, [])
    else match Eval(es[0], s, world)
      case Val(s1, Some(w)) =>
        (match EvalArgs(es[1..], s1, world)
         case Args(s2, ws) => Args(s2, [w] + ws)
         case early => early)
      case Val(_, None) => Early(Wrong)
      case other => Early(other)
  }
}
