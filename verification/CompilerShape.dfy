/** What compilation allocates: ids inside the claimed range, slots that only grow, no block overwritten. */
module CompilerShape {
  import opened Lake
  import opened BlockMachine
  import opened BlockCompiler

  /** Every name let-bound anywhere inside. */
  function LetNames(e: Expr): set<string>
    decreases e, 1
  {
    match e
    case P(_) => {}
    case Str(_, _, _) => {}
    case Let(x, init) => {x} + LetNames(init)
    case When(cond, arms) => LetNames(cond) + ArmNames(arms)
    case Call(_, args) => AllNames(args)
    case SelfCall(args) => AllNames(args)
  }

  function AllNames(es: seq<Expr>): set<string>
    decreases es, 0
  {
    if es == [] then {} else LetNames(es[0]) + AllNames(es[1..])
  }

  function ArmNames(arms: seq<Arm>): set<string>
    decreases arms, 0
  {
    if arms == [] then {} else AllNames(arms[0].body) + ArmNames(arms[1..])
  }

  predicate WithinIds(blocks: BlockTable, lo: int, hi: int) {
    lo <= hi && forall i :: i in blocks ==> lo <= i < hi
  }

  /** `st1` follows `st`: slots only grow, and only names in `names` may have moved. */
  predicate Extends(st: Slots, st1: Slots, names: set<string>) {
    && st1.Valid()
    && st.next <= st1.next
    && forall x :: x in st.vars ==> x in st1.vars && (x !in names ==> st1.vars[x] == st.vars[x])
  }

  predicate Included(blocks: BlockTable, table: BlockTable) {
    forall i :: i in blocks ==> i in table && table[i] == blocks[i]
  }

  predicate ExprShape(c: Compiled, id: int, st: Slots, names: set<string>) {
    c.Done? ==> WithinIds(c.blocks, id, c.outcome.NextAvailable()) && Extends(st, c.st, names)
  }

  predicate ArgsShape(c: ArgsCompiled, id: int, st: Slots, names: set<string>) {
    c.ArgsDone? ==> WithinIds(c.blocks, id, c.id) && Extends(st, c.st, names)
  }

  predicate ArmsShape(c: ArmsCompiled, id: int, st: Slots, names: set<string>) {
    c.ArmsDone? ==>
      && WithinIds(c.blocks, id, c.next)
      && Extends(st, c.st, names)
      && (forall i :: i in c.exits ==> id <= i < c.next && i !in c.blocks)
  }

  lemma {:induction false} ShapeOfExpr(e: Expr, id: int, st: Slots, base: nat)
    requires st.Valid()
    ensures ExprShape(CompileExpr(e, id, st, base), id, st, LetNames(e))
    decreases e, 1
  {
    match e
    case P(_) =>
    case Str(_, _, _) =>
    case Let(x, init) => ShapeOfExpr(init, id, st, base);
    case When(_, _) => ShapeOfWhen(e, id, st, base);
    case Call(_, args) => ShapeOfArgs(args, id, st, base + |args|, base);
    case SelfCall(args) => ShapeOfArgs(args, id, st, base + |args|, base);
  }

  lemma {:induction false} ShapeOfWhen(e: Expr, id: int, st: Slots, base: nat)
    requires e.When? && st.Valid()
    ensures ExprShape(CompileWhen(e, id, st, base), id, st, LetNames(e))
    decreases e, 0
  {
    hide CompileExpr, CompileArms, ConstFold, LetNames, ArmNames, Extends, Cases, Default, TableValues;
    ShapeOfExpr(e.cond, id, st, base);
    var c := CompileExpr(e.cond, id, st, base);
    if c.Done? && c.outcome.Continue? {
      ValidAfter(st, c.st, LetNames(e.cond));
      var arms := CompileArms(e.arms, c.outcome.id + 1, c.st, base);
      ShapeOfArms(e.arms, c.outcome.id + 1, c.st, base);
      WhenNames(e);
      if arms.ArmsDone? {
        ExtendsTwice(st, c.st, arms.st, LetNames(e.cond), ArmNames(e.arms));
      }
      ExtendsMore(st, c.st, LetNames(e.cond), ArmNames(e.arms));
    }
  }

  lemma WhenNames(e: Expr)
    requires e.When?
    ensures LetNames(e) == LetNames(e.cond) + ArmNames(e.arms)
  {
  }

  lemma ValidAfter(st: Slots, st1: Slots, names: set<string>)
    requires Extends(st, st1, names)
    ensures st1.Valid()
  {
  }

  lemma ExtendsTwice(st: Slots, st1: Slots, st2: Slots, a: set<string>, b: set<string>)
    requires Extends(st, st1, a) && Extends(st1, st2, b)
    ensures Extends(st, st2, a + b)
  {
  }

  lemma ExtendsMore(st: Slots, st1: Slots, a: set<string>, b: set<string>)
    requires Extends(st, st1, a)
    ensures Extends(st, st1, a + b)
  {
  }

  lemma {:induction false} ShapeOfArgs(args: seq<Expr>, id: int, st: Slots, inner: nat, k: nat)
    requires st.Valid()
    ensures ArgsShape(CompileArgs(args, id, st, inner, k), id, st, AllNames(args))
    decreases args, 0
  {
    if args != [] {
      ShapeOfExpr(args[0], id, st, inner);
      match CompileExpr(args[0], id, st, inner)
      case Done(_, Continue(stage), st1) => ShapeOfArgs(args[1..], stage + 1, st1, inner, k + 1);
      case _ =>
    }
  }

  lemma {:induction false} ShapeOfStmts(es: seq<Expr>, id: int, st: Slots, base: nat)
    requires st.Valid()
    ensures ExprShape(CompileStmts(es, id, st, base), id, st, AllNames(es))
    decreases es, 0
  {
    if es != [] {
      ShapeOfExpr(es[0], id, st, base);
      match CompileExpr(es[0], id, st, base)
      case Done(_, Continue(next), st1) => ShapeOfStmts(es[1..], next, st1, base);
      case _ =>
    }
  }

  lemma {:induction false} ShapeOfArms(arms: seq<Arm>, id: int, st: Slots, base: nat)
    requires st.Valid()
    ensures ArmsShape(CompileArms(arms, id, st, base), id, st, ArmNames(arms))
    decreases arms, 0
  {
    if arms != [] {
      ShapeOfStmts(arms[0].body, id, st, base);
      var c := CompileStmts(arms[0].body, id, st, base);
      if c.Done? && |arms| > 1 {
        ShapeOfArms(arms[1..], c.outcome.NextAvailable() + 1, c.st, base);
      }
    }
  }
}
