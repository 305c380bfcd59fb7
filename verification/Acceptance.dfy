/** Which branch bodies compile: names known where they are read, values where they are needed, `when`s well-keyed. */
module Acceptance {
  import opened Words
  import opened Lake
  import opened BlockMachine
  import opened BlockCompiler
  import opened SuperBlock
  import opened Rebinding

  // ---------- Well-formed source ----------

  /** Every arm can be selected: it is the first with its key. Some arm has a literal. */
  predicate WellKeyed(arms: seq<Arm>) {
    && (forall i :: 0 <= i < |arms| ==> IndexOf(arms, LiteralValue(arms[i].key)) == Some(i))
    && (exists i :: 0 <= i < |arms| && !arms[i].key.Wildcard?)
  }

  /**
   * With `names` known. A constant `when` is taken without a look at its arms; an arm knows the names the arms before
   * it bind.
   */
  predicate Accepted(e: Expr, names: set<string>)
    decreases e, 1
  {
    match e
    case P(p) => ReadsIn(p, names)
    case Str(_, _, _) => true
    case Let(_, init) => Accepted(init, names)
    case When(cond, arms) =>
      && WellKeyed(arms) && Accepted(cond, names) && !Terminal(cond)
      && (Tabular(arms) || AcceptedArms(arms, names + Rebound(cond)))
    case Call(c, args) => AcceptedArgs(args, names) && (c.Send? ==> c.pid in names + ReboundInAll(args))
    case SelfCall(args) => AcceptedArgs(args, names)
  }

  predicate AcceptedArgs(es: seq<Expr>, names: set<string>)
    decreases es, 0
  {
    es == [] || (Accepted(es[0], names) && !Terminal(es[0]) && AcceptedArgs(es[1..], names + Rebound(es[0])))
  }

  /** Statements up to the first terminal one; those behind it are never looked at. */
  predicate AcceptedAll(es: seq<Expr>, names: set<string>)
    decreases es, 0
  {
    es == [] || (Accepted(es[0], names) && (Terminal(es[0]) || AcceptedAll(es[1..], names + Rebound(es[0]))))
  }

  predicate AcceptedArms(arms: seq<Arm>, names: set<string>)
    decreases arms, 0
  {
    arms == [] || (AcceptedAll(arms[0].body, names) && AcceptedArms(arms[1..], names + ReboundInAll(arms[0].body)))
  }

  // ---------- Keys ----------

  /** What the compiler refuses of the keys is what is not well-keyed. */
  lemma KeysExact(arms: seq<Arm>)
    ensures WellKeyed(arms) <==> !ManyWildcards(arms) && !DuplicateKeys(arms) && !AllWildcards(arms)
  {
    hide LiteralValue, IndexOf;
    NoneIsWildcard(arms);
    forall i | 0 <= i < |arms| ensures FirstWith(arms, i) {
      FirstOfKey(arms, LiteralValue(arms[i].key), i);
    }
    if WellKeyed(arms) {
      forall i, j | 0 <= i < j < |arms| ensures LiteralValue(arms[i].key) != LiteralValue(arms[j].key) {
        assert FirstWith(arms, i) && FirstWith(arms, j);
      }
    } else if !ManyWildcards(arms) && !DuplicateKeys(arms) {
      forall i | 0 <= i < |arms| ensures IndexOf(arms, LiteralValue(arms[i].key)) == Some(i) {
        assert FirstWith(arms, i);
      }
    }
  }

  /** The first arm with the key of arm `i` is `i` itself or one before it. */
  predicate FirstWith(arms: seq<Arm>, i: nat)
    requires i < |arms|
  {
    var f := IndexOf(arms, LiteralValue(arms[i].key));
    f.Some? && f.value <= i && LiteralValue(arms[f.value].key) == LiteralValue(arms[i].key)
  }

  lemma {:induction false} FirstOfKey(arms: seq<Arm>, k: Option<Word>, i: nat)
    requires i < |arms| && LiteralValue(arms[i].key) == k
    ensures IndexOf(arms, k).Some? && IndexOf(arms, k).value <= i
    ensures LiteralValue(arms[IndexOf(arms, k).value].key) == k
    decreases arms
  {
    if i > 0 && LiteralValue(arms[0].key) != k {
      FirstOfKey(arms[1..], k, i - 1);
    }
  }

  lemma NoneIsWildcard(arms: seq<Arm>)
    ensures forall i :: 0 <= i < |arms| ==> (LiteralValue(arms[i].key).None? <==> arms[i].key == Wildcard)
  {
  }

  lemma TabularKeys(arms: seq<Arm>)
    requires Tabular(arms)
    ensures !ManyWildcards(arms) && !DuplicateKeys(arms) && !AllWildcards(arms)
  {
    hide ConstFold;
    assert ConstantArm(arms[0]);
  }

  // ---------- Names ----------

  lemma {:induction false} ResolveExact(p: Pure<string>, vars: map<string, nat>)
    ensures Resolve(p, vars).Some? <==> ReadsIn(p, vars.Keys)
  {
    match p
    case Neg(q) => ResolveExact(q, vars);
    case Bin(_, l, r) =>
      ResolveExact(l, vars);
      ResolveExact(r, vars);
    case TupleIndex(t, _) => ResolveExact(t, vars);
    case Load(_, f, o) =>
      ResolveExact(f, vars);
      ResolveExact(o, vars);
    case _ =>
  }

  lemma {:induction false} ResolveAllExact(es: seq<Expr>, vars: map<string, nat>)
    requires AllPure(es)
    ensures ResolveAll(es, vars).Some? <==> AcceptedArgs(es, vars.Keys)
    decreases es
  {
    hide Resolve, ReadsIn;
    if es != [] {
      assert es[0] in es;
      ResolveExact(es[0].pure, vars);
      ResolveAllExact(es[1..], vars);
      assert vars.Keys + Rebound(es[0]) == vars.Keys;
    }
  }

  // ---------- Success is well-formedness ----------

  lemma {:induction false} ExprAccepted(e: Expr, id: int, st: Slots, base: nat)
    ensures CompileExpr(e, id, st, base).Done? <==> Accepted(e, st.vars.Keys)
    decreases e, 2
  {
    hide Resolve, ReadsIn, ResolveAll, CompileArgs, AcceptedArgs, CompileWhen, Rebound, ReboundInAll;
    match e
    case P(p) => ResolveExact(p, st.vars);
    case Str(_, _, _) =>
    case Let(_, init) =>
      ExprAccepted(init, id, st, base);
      if init.P? {
        ResolveExact(init.pure, st.vars);
      }
    case When(_, _) => WhenAccepted(e, id, st, base);
    case Call(c, args) =>
      if AllPure(args) {
        ResolveAllExact(args, st.vars);
      }
      ArgsAccepted(args, id, st, base + |args|, base);
      SlotsOfArgs(args, id, st, base + |args|, base);
    case SelfCall(args) =>
      if AllPure(args) {
        ResolveAllExact(args, st.vars);
      }
      ArgsAccepted(args, id, st, base + |args|, base);
  }

  lemma {:induction false} WhenAccepted(e: Expr, id: int, st: Slots, base: nat)
    requires e.When?
    ensures CompileWhen(e, id, st, base).Done? <==> Accepted(e, st.vars.Keys)
    decreases e, 1
  {
    hide ManyWildcards, AllWildcards, DuplicateKeys, Tabular, TableValues, Cases, Default, Redirects, CompileArms, AcceptedArms;
    hide Rebound, WellKeyed;
    KeysExact(e.arms);
    if Tabular(e.arms) {
      TabularKeys(e.arms);
    }
    ExprAccepted(e.cond, id, st, base);
    SlotsOfExpr(e.cond, id, st, base);
    var c := CompileExpr(e.cond, id, st, base);
    if c.Done? && c.outcome.Continue? {
      ArmsAccepted(e.arms, c.outcome.id + 1, c.st, base);
    }
  }

  lemma {:induction false} ArgsAccepted(es: seq<Expr>, id: int, st: Slots, inner: nat, k: nat)
    ensures CompileArgs(es, id, st, inner, k).ArgsDone? <==> AcceptedArgs(es, st.vars.Keys)
    decreases es, 0
  {
    hide CompileExpr, Accepted, Rebound, Terminal;
    if es != [] {
      ExprAccepted(es[0], id, st, inner);
      SlotsOfExpr(es[0], id, st, inner);
      var c := CompileExpr(es[0], id, st, inner);
      if c.Done? && c.outcome.Continue? {
        ArgsAccepted(es[1..], c.outcome.id + 1, c.st, inner, k + 1);
      }
    }
  }

  lemma {:induction false} StmtsAccepted(es: seq<Expr>, id: int, st: Slots, base: nat)
    ensures CompileStmts(es, id, st, base).Done? <==> AcceptedAll(es, st.vars.Keys)
    decreases es, 0
  {
    hide CompileExpr, Accepted, Rebound, Terminal;
    if es != [] {
      ExprAccepted(es[0], id, st, base);
      SlotsOfExpr(es[0], id, st, base);
      var c := CompileExpr(es[0], id, st, base);
      if c.Done? && c.outcome.Continue? {
        StmtsAccepted(es[1..], c.outcome.id, c.st, base);
      }
    }
  }

  lemma {:induction false} ArmsAccepted(arms: seq<Arm>, id: int, st: Slots, base: nat)
    ensures CompileArms(arms, id, st, base).ArmsDone? <==> AcceptedArms(arms, st.vars.Keys)
    decreases arms, 0
  {
    hide CompileStmts, AcceptedAll, ReboundInAll;
    if arms != [] {
      StmtsAccepted(arms[0].body, id, st, base);
      SlotsOfStmts(arms[0].body, id, st, base);
      var c := CompileStmts(arms[0].body, id, st, base);
      if c.Done? && |arms| > 1 {
        ArmsAccepted(arms[1..], c.outcome.NextAvailable() + 1, c.st, base);
      }
    }
  }

  // ---------- Whole bodies ----------

  lemma OpAccepted(e: Expr, st: Slots)
    requires AcceptsEntry(e)
    ensures CompileOp(e, st).RunDone? <==> Accepted(e, st.vars.Keys)
    ensures CompileOp(e, st).RunDone? ==> CompileOp(e, st).st.vars.Keys == st.vars.Keys + Rebound(e)
    ensures !Terminal(e)
  {
    hide Resolve, ReadsIn;
    ResolveExact(if e.P? then e.pure else e.init.pure, st.vars);
  }

  /** The names known behind `n` statements, none of them terminal. */
  function KnownAfter(es: seq<Expr>, n: nat, names: set<string>): set<string>
    requires n <= |es|
  {
    if n == 0 then names else KnownAfter(es[1..], n - 1, names + Rebound(es[0]))
  }

  lemma {:induction false} RunAccepted(es: seq<Expr>, n: nat, st: Slots)
    requires n <= |es| && forall i :: 0 <= i < n ==> AcceptsEntry(es[i])
    ensures var r, names := CompileRun(es[..n], st), KnownAfter(es, n, st.vars.Keys);
      && (r.RunDone? ==> r.st.vars.Keys == names)
      && (AcceptedAll(es, st.vars.Keys) <==> r.RunDone? && AcceptedAll(es[n..], names))
    decreases n
  {
    hide CompileOp, Accepted, Rebound, Terminal, AcceptsEntry;
    if n == 0 {
      assert es[..0] == [] && es[0..] == es;
    } else {
      assert es[..n][0] == es[0] && es[..n][1..] == es[1..][..n - 1] && es[1..][n - 1..] == es[n..];
      OpAccepted(es[0], st);
      if CompileOp(es[0], st).RunDone? {
        RunAccepted(es[1..], n - 1, CompileOp(es[0], st).st);
      }
    }
  }

  /** A branch body compiles if and only if it is well-formed; ids and slots make no difference. */
  lemma {:induction false} BodyAccepted(es: seq<Expr>, id: int, st: Slots)
    ensures CompileBody(es, id, st).Done? <==> AcceptedAll(es, st.vars.Keys)
    decreases |es|
  {
    hide CompileExpr, Accepted, Rebound, Terminal, CompileRun, KnownAfter, RunLength;
    if es != [] {
      var n := RunLength(es);
      if n >= 2 {
        RunAccepted(es, n, st);
        var r := CompileRun(es[..n], st);
        if r.RunDone? {
          BodyAccepted(es[n..], id + n, r.st);
        }
      } else {
        ExprAccepted(es[0], id, st, 0);
        SlotsOfExpr(es[0], id, st, 0);
        var c := CompileExpr(es[0], id, st, 0);
        if c.Done? && c.outcome.Continue? {
          BodyAccepted(es[1..], c.outcome.id, c.st);
        }
      }
    }
  }
}
