/** The compiler's argument and arm loops, with the counters and lists they update, against the recursive definitions. */
module CompilerLoops {
  import opened Lake
  import opened BlockMachine
  import opened BlockCompiler

  // ---------- Arguments ----------

  function AfterBlocks(table: BlockTable, r: ArgsCompiled): ArgsCompiled {
    match r
    case ArgsDone(blocks, id, st) => ArgsDone(table + blocks, id, st)
    case fail => fail
  }

  lemma AfterTwice(x: BlockTable, y: BlockTable, r: ArgsCompiled)
    ensures AfterBlocks(x, AfterBlocks(y, r)) == AfterBlocks(x + y, r)
  {
    match r
    case ArgsDone(blocks, _, _) => assert x + (y + blocks) == (x + y) + blocks;
    case ArgsFail(_) =>
  }

  lemma AfterNothing(r: ArgsCompiled)
    ensures AfterBlocks(map[], r) == r
  {
    match r case ArgsDone(blocks, _, _) => assert map[] + blocks == blocks; case ArgsFail(_) =>
  }

  /** One argument, then its staging block, then the others. */
  lemma ArgsUnfold(args: seq<Expr>, id: int, st: Slots, inner: nat, k: nat)
    requires args != []
    ensures CompileArgs(args, id, st, inner, k) ==
      match CompileExpr(args[0], id, st, inner)
      case Fail(err) => ArgsFail(err)
      case Done(_, StateChange(_), _) => ArgsFail(TerminalValue)
      case Done(blocks, Continue(stage), st1) =>
        AfterBlocks(blocks + Single(stage, Block([Stage(k)], Goto(stage + 1))),
                    CompileArgs(args[1..], stage + 1, st1, inner, k + 1))
  {
    hide CompileExpr;
  }

  /** The argument loop: `next` is the next free id, `k` the staging slot of the argument at hand. */
  method CompileArgsLoop(args: seq<Expr>, id: int, st: Slots, inner: nat, base: nat) returns (r: ArgsCompiled)
    ensures r == CompileArgs(args, id, st, inner, base)
  {
    hide CompileExpr, CompileArgs;
    var table: BlockTable := map[];
    var next, names := id, st;
    var i := 0;
    AfterNothing(CompileArgs(args, id, st, inner, base));
    assert args[0..] == args;
    while i < |args|
      invariant 0 <= i <= |args|
      invariant CompileArgs(args, id, st, inner, base) == AfterBlocks(table, CompileArgs(args[i..], next, names, inner, base + i))
    {
      ArgsUnfold(args[i..], next, names, inner, base + i);
      assert args[i..][0] == args[i] && args[i..][1..] == args[i + 1..];
      match CompileExpr(args[i], next, names, inner) {
        case Fail(err) =>
          return ArgsFail(err);
        case Done(_, StateChange(_), _) =>
          return ArgsFail(TerminalValue);
        case Done(blocks, Continue(stage), st1) =>
          var one := blocks + Single(stage, Block([Stage(base + i)], Goto(stage + 1)));
          AfterTwice(table, one, CompileArgs(args[i + 1..], stage + 1, st1, inner, base + i + 1));
          table, next, names := table + one, stage + 1, st1;
      }
      i := i + 1;
    }
    assert args[i..] == [];
    NoArgs(next, names, inner, base + i);
    assert table + map[] == table;
    r := ArgsDone(table, next, names);
  }

  lemma NoArgs(id: int, st: Slots, inner: nat, k: nat)
    ensures CompileArgs([], id, st, inner, k) == ArgsDone(map[], id, st)
  {
  }

  // ---------- Arms ----------

  /** What earlier arms contribute: blocks, first ids, and the ids to redirect. */
  function AfterArms(table: BlockTable, starts: seq<int>, exits: seq<int>, r: ArmsCompiled): ArmsCompiled {
    match r
    case ArmsDone(blocks, starts1, exits1, next, st) => ArmsDone(table + blocks, starts + starts1, exits + exits1, next, st)
    case fail => fail
  }

  lemma AfterArmsTwice(x: BlockTable, xs: seq<int>, xe: seq<int>, y: BlockTable, ys: seq<int>, ye: seq<int>, r: ArmsCompiled)
    ensures AfterArms(x, xs, xe, AfterArms(y, ys, ye, r)) == AfterArms(x + y, xs + ys, xe + ye, r)
  {
    match r
    case ArmsDone(blocks, starts, exits, _, _) =>
      assert x + (y + blocks) == (x + y) + blocks;
      assert xs + (ys + starts) == (xs + ys) + starts;
      assert xe + (ye + exits) == (xe + ye) + exits;
    case ArmsFail(_) =>
  }

  lemma AfterNoArms(r: ArmsCompiled)
    ensures AfterArms(map[], [], [], r) == r
  {
    match r
    case ArmsDone(blocks, starts, exits, _, _) =>
      assert map[] + blocks == blocks && [] + starts == starts && [] + exits == exits;
    case ArmsFail(_) =>
  }

  function ExitOf(outcome: Outcome): seq<int> {
    if outcome.Continue? then [outcome.id] else []
  }

  lemma ArmsUnfold(arms: seq<Arm>, id: int, st: Slots, base: nat)
    requires |arms| > 1
    ensures CompileArms(arms, id, st, base) ==
      match CompileStmts(arms[0].body, id, st, base)
      case Fail(err) => ArmsFail(err)
      case Done(blocks, outcome, st1) =>
        AfterArms(blocks, [id], ExitOf(outcome), CompileArms(arms[1..], outcome.NextAvailable() + 1, st1, base))
  {
    hide CompileStmts;
  }

  lemma LastArm(arms: seq<Arm>, id: int, st: Slots, base: nat)
    requires |arms| == 1
    ensures CompileArms(arms, id, st, base) ==
      match CompileStmts(arms[0].body, id, st, base)
      case Fail(err) => ArmsFail(err)
      case Done(blocks, outcome, st1) =>
        ArmsDone(blocks, [id], ExitOf(outcome), if outcome.Continue? then outcome.id + 1 else outcome.next, st1)
  {
    hide CompileStmts;
  }

  /** The arm loop: `current` is the id the next arm starts at; first ids and redirects are collected on the way. */
  method CompileArmsLoop(arms: seq<Arm>, id: int, st: Slots, base: nat) returns (r: ArmsCompiled)
    requires arms != []
    ensures r == CompileArms(arms, id, st, base)
  {
    hide CompileStmts, CompileArms;
    var table: BlockTable := map[];
    var starts: seq<int>, redirects: seq<int> := [], [];
    var current, names := id, st;
    var i := 0;
    AfterNoArms(CompileArms(arms, id, st, base));
    assert arms[0..] == arms;
    while i < |arms| - 1
      invariant 0 <= i <= |arms| - 1
      invariant CompileArms(arms, id, st, base) == AfterArms(table, starts, redirects, CompileArms(arms[i..], current, names, base))
    {
      ArmsUnfold(arms[i..], current, names, base);
      assert arms[i..][0] == arms[i] && arms[i..][1..] == arms[i + 1..];
      match CompileStmts(arms[i].body, current, names, base) {
        case Fail(err) =>
          return ArmsFail(err);
        case Done(blocks, outcome, st1) =>
          AfterArmsTwice(table, starts, redirects, blocks, [current], ExitOf(outcome),
                         CompileArms(arms[i + 1..], outcome.NextAvailable() + 1, st1, base));
          table, starts, redirects := table + blocks, starts + [current], redirects + ExitOf(outcome);
          current, names := outcome.NextAvailable() + 1, st1;
      }
      i := i + 1;
    }
    LastArm(arms[i..], current, names, base);
    match CompileStmts(arms[i].body, current, names, base) {
      case Fail(err) =>
        return ArmsFail(err);
      case Done(blocks, outcome, st1) =>
        r := ArmsDone(table + blocks, starts + [current], redirects + ExitOf(outcome),
                      if outcome.Continue? then outcome.id + 1 else outcome.next, st1);
    }
  }
}
