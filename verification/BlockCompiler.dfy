/** The block compiler: one numbered block or more per expression, with the source's id arithmetic. */
module BlockCompiler {
  import opened Words
  import opened Lake
  import opened BlockMachine

  // ---------- Compile-time state ----------

  /** Name-to-slot table of a branch. `next` is one past the largest slot in use. */
  datatype Slots = Slots(vars: map<string, nat>, next: nat) {
    predicate Valid() {
      forall x :: x in vars ==> vars[x] < next
    }

    function Insert(x: string): Slots {
      Slots(vars[x := next], next + 1)
    }
  }

  datatype Outcome = Continue(id: int) | StateChange(next: int) {
    function NextAvailable(): int {
      if Continue? then id else next
    }
  }

  datatype CompileError = UnknownName | TerminalValue | ManyWildcardArms | NoTypedArm | DuplicateKey

  datatype Compiled = Fail(error: CompileError) | Done(blocks: BlockTable, outcome: Outcome, st: Slots)

  datatype ArgsCompiled = ArgsFail(error: CompileError) | ArgsDone(blocks: BlockTable, id: int, st: Slots)

  datatype ArmsCompiled =
    | ArmsFail(error: CompileError)
    | ArmsDone(blocks: BlockTable, starts: seq<int>, exits: seq<int>, next: int, st: Slots)

  // ---------- Names to slots ----------

  function Resolve(p: Pure<string>, vars: map<string, nat>): Option<Pure<nat>> {
    match p
    case Num(w) => Some(Num(w))
    case Bool(b) => Some(Bool(b))
    case Atom(id) => Some(Atom(id))
    case Var(x) => if x in vars then Some(Var(vars[x])) else None
    case Neg(q) =>
      var r := Resolve(q, vars);
      if r.None? then None else Some(Neg(r.value))
    case Bin(op, l, r) =>
      var a, b := Resolve(l, vars), Resolve(r, vars);
      if a.None? || b.None? then None else Some(Bin(op, a.value, b.value))
    case TupleIndex(t, i) =>
      var r := Resolve(t, vars);
      if r.None? then None else Some(TupleIndex(r.value, i))
    case Load(n, f, o) =>
      var a, b := Resolve(f, vars), Resolve(o, vars);
      if a.None? || b.None? then None else Some(Load(n, a.value, b.value))
  }

  predicate AllPure(es: seq<Expr>) {
    forall e :: e in es ==> e.P?
  }

  function ResolveAll(es: seq<Expr>, vars: map<string, nat>): Option<seq<Pure<nat>>>
    requires AllPure(es)
  {
    if es == [] then Some([])
    else
      var a, rest := Resolve(es[0].pure, vars), ResolveAll(es[1..], vars);
      if a.None? || rest.None? then None else Some([a.value] + rest.value)
  }

  function ResolveCallee(c: Callee<string>, vars: map<string, nat>): Option<Callee<nat>> {
    match c
    case Rt(n) => Some(Rt(n))
    case Parking(n) => Some(Parking(n))
    case Spawn(n) => Some(Spawn(n))
    case Send(x) => if x in vars then Some(Send(vars[x])) else None
  }

  // ---------- Constant table for a dense `when` ----------

  /** Compile-time value of a constant; `None` where the fold gives up. */
  function ConstFold(p: Pure<string>): Option<Word> {
    match p
    case Num(w) => Some(w)
    case Bool(b) => Some(FromBool(b))
    case Neg(q) =>
      var r := ConstFold(q);
      if r.None? then None else Some(Negate(r.value))
    case Bin(op, l, r) =>
      var b := ConstFold(r);
      if b.None? then None else
      var a := ConstFold(l);
      if a.None? then None else FoldBin(op, a.value, b.value)
    case _ => None
  }

  /** Compile-time operator: no comparisons, no zero divisor, shift amounts below 64 only. */
  function FoldBin(op: BinOp, a: Word, b: Word): Option<Word> {
    match op
    case Add => Some(Wrap(a + b))
    case Sub => Some(Wrap(a - b))
    case Mul => Some(Wrap(a * b))
    case Div => if b == 0 then None else Some(WrappingDiv(a, b))
    case BAnd => Some(Bits64(op, a, b))
    case BOr => Some(Bits64(op, a, b))
    case BXor => Some(Bits64(op, a, b))
    case Shl => if b < 64 then Some(ShiftLeft(a, b)) else None
    case Shr => if b < 64 then Some(ShiftRight(a, b)) else None
    case _ => None
  }

  /** An arm keyed by a number whose body is one constant. */
  predicate ConstantArm(a: Arm) {
    a.key.NumKey? && |a.body| == 1 && a.body[0].P? && ConstFold(a.body[0].pure).Some?
  }

  /** Keys exactly 0 .. |arms|, each once, every body one constant. */
  predicate Tabular(arms: seq<Arm>) {
    && 2 <= |arms|
    && (forall i :: 0 <= i < |arms| ==> ConstantArm(arms[i]) && arms[i].key.w < |arms|)
    && (forall i, j :: 0 <= i < j < |arms| ==> arms[i].key != arms[j].key)
  }

  /** The table's contents after visiting the arms in order. */
  function FillTable(arms: seq<Arm>, values: seq<Word>): (r: seq<Word>)
    requires forall i :: 0 <= i < |arms| ==> ConstantArm(arms[i]) && arms[i].key.w < |values|
    ensures |r| == |values|
  {
    if arms == [] then values
    else
      assert ConstantArm(arms[0]);
      FillTable(arms[1..], values[arms[0].key.w := ConstFold(arms[0].body[0].pure).value])
  }

  function TableValues(arms: seq<Arm>): (r: seq<Word>)
    requires Tabular(arms)
    ensures |r| == |arms|
  {
    FillTable(arms, seq(|arms|, _ => 0))
  }

  // ---------- Which `when`s are rejected ----------

  predicate ManyWildcards(arms: seq<Arm>) {
    exists i, j :: 0 <= i < j < |arms| && arms[i].key == Wildcard && arms[j].key == Wildcard
  }

  predicate AllWildcards(arms: seq<Arm>) {
    forall i :: 0 <= i < |arms| ==> arms[i].key == Wildcard
  }

  predicate DuplicateKeys(arms: seq<Arm>) {
    exists i, j :: 0 <= i < j < |arms| && LiteralValue(arms[i].key).Some? &&
      LiteralValue(arms[i].key) == LiteralValue(arms[j].key)
  }

  // ---------- Expressions ----------

  function Single(id: int, b: Block): BlockTable {
    map[id := b]
  }

  function CompilePure(p: Pure<string>, id: int, st: Slots): Compiled {
    match Resolve(p, st.vars)
    case None => Fail(UnknownName)
    case Some(q) => Done(Single(id, Block([SetTemp(q)], Goto(id + 1))), Continue(id + 1), st)
  }

  /** `let x = <pure>`: one block that folds straight into the slot. */
  function CompilePureLet(x: string, p: Pure<string>, id: int, st: Slots): Compiled {
    match Resolve(p, st.vars)
    case None => Fail(UnknownName)
    case Some(q) =>
      Done(Single(id, Block([SetVar(st.next, q)], Goto(id + 1))), Continue(id + 1), st.Insert(x))
  }

  function CompileExpr(e: Expr, id: int, st: Slots, base: nat): Compiled
    decreases e, 1
  {
    match e
    case P(p) => CompilePure(p, id, st)
    case Str(fat, start, end) =>
      Done(Single(id, Block([LoadStr(fat, start, end)], Goto(id + 1))), Continue(id + 1), st)
    case Let(x, init) =>
      if init.P? then CompilePureLet(x, init.pure, id, st) else
      (match CompileExpr(init, id, st, base)
       case Done(blocks, Continue(save), st1) =>
         Done(blocks + Single(save, Block([SaveTemp(st1.next)], Goto(save + 1))),
              Continue(save + 1), st1.Insert(x))
       case other => other)
    case When(_, _) => CompileWhen(e, id, st, base)
    case Call(c, args) =>
      if c.Rt? && AllPure(args) then
        (match ResolveAll(args, st.vars)
         case None => Fail(UnknownName)
         case Some(ps) =>
           Done(Single(id, Block([InvokeFused(Rt(c.name), ps)], Goto(id + 1))), Continue(id + 1), st))
      else
        (match CompileArgs(args, id, st, base + |args|, base)
         case ArgsFail(err) => Fail(err)
         case ArgsDone(blocks, call, st1) =>
           (match ResolveCallee(c, st1.vars)
            case None => Fail(UnknownName)
            case Some(c1) =>
              var exit := if c.Parking? then ParkThenGoto(call + 1) else Goto(call + 1);
              Done(blocks + Single(call, Block([Invoke(c1, base, |args|)], exit)),
                   Continue(call + 1), st1)))
    case SelfCall(args) =>
      if AllPure(args) then
        (match ResolveAll(args, st.vars)
         case None => Fail(UnknownName)
         case Some(ps) =>
           Done(Single(id, Block([], RestartFused(ps))), StateChange(id + 1), st))
      else
        (match CompileArgs(args, id, st, base + |args|, base)
         case ArgsFail(err) => Fail(err)
         case ArgsDone(blocks, call, st1) =>
           Done(blocks + Single(call, Block([], RestartStaged(base, |args|))), StateChange(call + 1), st1))
  }

  /** Arguments in order: compute each (its own calls stage from `inner` on), then stage it at `k`. */
  function CompileArgs(args: seq<Expr>, id: int, st: Slots, inner: nat, k: nat): ArgsCompiled
    decreases args, 0
  {
    if args == [] then ArgsDone(map[], id, st)
    else match CompileExpr(args[0], id, st, inner)
      case Fail(err) => ArgsFail(err)
      case Done(_, StateChange(_), _) => ArgsFail(TerminalValue)
      case Done(blocks, Continue(stage), st1) =>
        match CompileArgs(args[1..], stage + 1, st1, inner, k + 1)
        case ArgsFail(err) => ArgsFail(err)
        case ArgsDone(rest, next, st2) =>
          ArgsDone(blocks + Single(stage, Block([Stage(k)], Goto(stage + 1))) + rest, next, st2)
  }

  function CompileStmts(es: seq<Expr>, id: int, st: Slots, base: nat): Compiled
    decreases es, 0
  {
    if es == [] then Done(map[], Continue(id), st)
    else match CompileExpr(es[0], id, st, base)
      case Done(blocks, Continue(next), st1) =>
        (match CompileStmts(es[1..], next, st1, base)
         case Done(rest, outcome, st2) => Done(blocks + rest, outcome, st2)
         case fail => fail)
      case other => other
  }

  /** Arms one after another. `starts` are their first ids, `exits` the ids to redirect past the `when`. */
  function CompileArms(arms: seq<Arm>, id: int, st: Slots, base: nat): (r: ArmsCompiled)
    ensures r.ArmsDone? ==> |r.starts| == |arms|
    decreases arms, 0
  {
    if arms == [] then ArmsDone(map[], [], [], id, st)
    else match CompileStmts(arms[0].body, id, st, base)
      case Fail(err) => ArmsFail(err)
      case Done(blocks, outcome, st1) =>
        var exits := if outcome.Continue? then [outcome.id] else [];
        if |arms| == 1 then
          ArmsDone(blocks, [id], exits, if outcome.Continue? then outcome.id + 1 else outcome.next, st1)
        else match CompileArms(arms[1..], outcome.NextAvailable() + 1, st1, base)
          case ArmsFail(err) => ArmsFail(err)
          case ArmsDone(rest, starts, more, next, st2) =>
            ArmsDone(blocks + rest, [id] + starts, exits + more, next, st2)
  }

  /** Literal keys to arm starts; with distinct keys the order does not matter. */
  function Cases(arms: seq<Arm>, starts: seq<int>): map<Word, int>
    requires |arms| == |starts|
  {
    if arms == [] then map[]
    else
      var rest := Cases(arms[1..], starts[1..]);
      match LiteralValue(arms[0].key) case Some(w) => rest[w := starts[0]] case None => rest
  }

  function Default(arms: seq<Arm>, starts: seq<int>, after: int): int
    requires |arms| == |starts|
  {
    match IndexOf(arms, None) case Some(i) => starts[i] case None => after
  }

  function Redirects(exits: seq<int>, after: int): BlockTable {
    map id | id in exits :: Block([], Goto(after))
  }

  function CompileWhen(e: Expr, id: int, st: Slots, base: nat): Compiled
    requires e.When?
    decreases e, 0
  {
    var arms := e.arms;
    if ManyWildcards(arms) then Fail(ManyWildcardArms)
    else match CompileExpr(e.cond, id, st, base)
      case Fail(err) => Fail(err)
      case Done(_, StateChange(_), _) => Fail(TerminalValue)
      case Done(blocks, Continue(check), st1) =>
        if Tabular(arms) then
          Done(blocks + Single(check, Block([], Table(TableValues(arms), check + 1))), Continue(check + 1), st1)
        else if AllWildcards(arms) then Fail(NoTypedArm)
        else if DuplicateKeys(arms) then Fail(DuplicateKey)
        else match CompileArms(arms, check + 1, st1, base)
          case ArmsFail(err) => Fail(err)
          case ArmsDone(bodies, starts, exits, after, st2) =>
            var dispatch := Block([], Switch(Cases(arms, starts), Default(arms, starts, after)));
            Done(blocks + Single(check, dispatch) + bodies + Redirects(exits, after), Continue(after), st2)
  }
}
