/** The constant table that replaces a dense `when` over constants. */
module KTable {
  import opened Words
  import opened Lake
  import opened BlockCompiler
  import opened FiniteSets

  /** No division in the constant is of the smallest i64 by -1. */
  predicate NoOverflowingDiv(p: Pure<string>) {
    match p
    case Neg(q) => NoOverflowingDiv(q)
    case Bin(op, l, r) =>
      && NoOverflowingDiv(l) && NoOverflowingDiv(r)
      && !(op.Div? && ConstFold(l) == Some(TWO_63) && ConstFold(r) == Some(TWO_64 - 1))
    case _ => true
  }

  predicate NoneTraps(arms: seq<Arm>)
    requires Tabular(arms)
  {
    forall i :: 0 <= i < |arms| ==> ConstantArm(arms[i]) && NoOverflowingDiv(arms[i].body[0].pure)
  }

  lemma FoldBinAgrees(op: BinOp, a: Word, b: Word)
    requires FoldBin(op, a, b).Some?
    ensures ApplyBin(op, a, b) ==
            if op.Div? && DivTraps(a, b) then Fault else Value(FoldBin(op, a, b).value)
  {
  }

  /**
   * Where the compile-time fold gives a word, evaluation gives that word if and only if no division in it overflows,
   * and traps otherwise, whatever the state.
   */
  lemma {:induction false} FoldAgrees(p: Pure<string>, env: map<string, Word>, mem: Mem)
    requires ConstFold(p).Some?
    ensures PureEval(p, env, mem) == if NoOverflowingDiv(p) then Ok(ConstFold(p).value) else Trap
  {
    match p
    case Neg(q) => FoldAgrees(q, env, mem);
    case Bin(op, l, r) =>
      FoldAgrees(l, env, mem);
      FoldAgrees(r, env, mem);
      FoldBinAgrees(op, ConstFold(l).value, ConstFold(r).value);
    case _ =>
  }

  // ---------- The table covers exactly the keys ----------

  function FirstKeys(arms: seq<Arm>, n: nat): set<int>
    requires Tabular(arms) && n <= |arms|
  {
    set i | 0 <= i < n :: arms[i].key.w
  }

  lemma {:induction false} FirstKeysSize(arms: seq<Arm>, n: nat)
    requires Tabular(arms) && n <= |arms|
    ensures |FirstKeys(arms, n)| == n
  {
    if n > 0 {
      FirstKeysSize(arms, n - 1);
      assert FirstKeys(arms, n) == FirstKeys(arms, n - 1) + {arms[n - 1].key.w};
      assert arms[n - 1].key.w !in FirstKeys(arms, n - 1) by {
        forall i | 0 <= i < n - 1 ensures arms[i].key.w != arms[n - 1].key.w {
          assert ConstantArm(arms[i]) && ConstantArm(arms[n - 1]);
          assert arms[i].key != arms[n - 1].key;
        }
      }
    }
  }

  /** n distinct keys below n: every discriminant below n has its arm. */
  lemma {:induction false} EveryKeyHasAnArm(arms: seq<Arm>, d: Word)
    requires Tabular(arms) && d < |arms|
    ensures exists i :: 0 <= i < |arms| && arms[i].key == NumKey(d)
  {
    FirstKeysSize(arms, |arms|);
    assert FirstKeys(arms, |arms|) <= Below(|arms|) by {
      forall i | 0 <= i < |arms| ensures arms[i].key.w in Below(|arms|) {
        assert ConstantArm(arms[i]);
      }
    }
    SubsetOfEqualSize(FirstKeys(arms, |arms|), Below(|arms|));
    assert d in FirstKeys(arms, |arms|);
    var i :| 0 <= i < |arms| && arms[i].key.w == d;
    assert ConstantArm(arms[i]);
  }

  lemma {:induction false} FillKeeps(arms: seq<Arm>, values: seq<Word>, d: Word)
    requires forall i :: 0 <= i < |arms| ==> ConstantArm(arms[i]) && arms[i].key.w < |values|
    requires d < |values|
    requires forall i :: 0 <= i < |arms| ==> arms[i].key != NumKey(d)
    ensures FillTable(arms, values)[d] == values[d]
  {
    if arms != [] {
      assert ConstantArm(arms[0]);
      FillKeeps(arms[1..], values[arms[0].key.w := ConstFold(arms[0].body[0].pure).value], d);
    }
  }

  /** With distinct keys, the entry of arm `i` holds arm `i`'s constant. */
  lemma {:induction false} FillStores(arms: seq<Arm>, values: seq<Word>, i: nat)
    requires forall j :: 0 <= j < |arms| ==> ConstantArm(arms[j]) && arms[j].key.w < |values|
    requires forall j, l :: 0 <= j < l < |arms| ==> arms[j].key != arms[l].key
    requires i < |arms|
    ensures arms[i].key.NumKey? && arms[i].key.w < |values|
    ensures ConstantArm(arms[i]) && FillTable(arms, values)[arms[i].key.w] == ConstFold(arms[i].body[0].pure).value
  {
    assert ConstantArm(arms[0]) && ConstantArm(arms[i]);
    var next := values[arms[0].key.w := ConstFold(arms[0].body[0].pure).value];
    if i == 0 {
      FillKeeps(arms[1..], next, arms[0].key.w);
    } else {
      FillStores(arms[1..], next, i - 1);
    }
  }

  /** For every discriminant, what the table read gives is what selecting an arm and folding its constant gives. */
  lemma {:induction false} TableIsSelection(arms: seq<Arm>, d: Word)
    requires Tabular(arms)
    ensures match Select(arms, d)
      case None => d >= |arms|
      case Some(i) =>
        d < |arms| && ConstantArm(arms[i]) && TableValues(arms)[d] == ConstFold(arms[i].body[0].pure).value
  {
    assert IndexOf(arms, None).None? by {
      assert forall i :: 0 <= i < |arms| ==> ConstantArm(arms[i]);
    }
    if d < |arms| {
      EveryKeyHasAnArm(arms, d);
    }
    match IndexOf(arms, Some(d))
    case Some(i) =>
      assert ConstantArm(arms[i]);
      FillStores(arms, seq(|arms|, _ => 0), i);
    case None =>
  }

  // ---------- The detector ----------

  /** One more arm that the detector accepts. */
  predicate Fresh(arms: seq<Arm>, i: nat)
    requires i < |arms|
  {
    ConstantArm(arms[i]) && arms[i].key.w < |arms| && forall j :: 0 <= j < i ==> arms[j].key != arms[i].key
  }

  lemma FreshIsTabular(arms: seq<Arm>)
    ensures Tabular(arms) <==> 2 <= |arms| && forall i :: 0 <= i < |arms| ==> Fresh(arms, i)
  {
    if Tabular(arms) {
      forall i | 0 <= i < |arms| ensures Fresh(arms, i) {
        assert ConstantArm(arms[i]) && arms[i].key.w < |arms|;
      }
    }
    if 2 <= |arms| && forall i :: 0 <= i < |arms| ==> Fresh(arms, i) {
      forall i, j | 0 <= i < j < |arms| ensures arms[i].key != arms[j].key {
        assert Fresh(arms, j);
      }
      forall i | 0 <= i < |arms| ensures ConstantArm(arms[i]) && arms[i].key.w < |arms| {
        assert Fresh(arms, i);
      }
    }
  }

  /** The detector's loop, with its table and its set of seen keys. */
  method TryBuildKTable(arms: seq<Arm>) returns (table: Option<seq<Word>>)
    ensures table == if Tabular(arms) then Some(TableValues(arms)) else None
  {
    hide ConstFold, FillTable;
    FreshIsTabular(arms);
    if |arms| < 2 {
      return None;
    }
    var values := new Word[|arms|](_ => 0);
    var seen := new bool[|arms|](_ => false);
    ghost var accepted := true;
    assert values[..] == seq(|arms|, _ => 0);
    assert arms[0..] == arms;
    var i := 0;
    while i < |arms|
      invariant 0 <= i <= |arms|
      invariant forall j :: 0 <= j < i ==> Fresh(arms, j)
      invariant forall k :: 0 <= k < |arms| ==> (seen[k] <==> exists j :: 0 <= j < i && arms[j].key.NumKey? && arms[j].key.w == k)
      invariant Filling(arms, i, values[..])
    {
      if !arms[i].key.NumKey? || |arms| <= arms[i].key.w {
        assert !Fresh(arms, i);
        return None;
      }
      var key := arms[i].key.w;
      if seen[key] {
        assert !Fresh(arms, i);
        return None;
      }
      if |arms[i].body| != 1 || !arms[i].body[0].P? || ConstFold(arms[i].body[0].pure).None? {
        assert !Fresh(arms, i);
        return None;
      }
      assert Fresh(arms, i);
      FillOne(arms, i, values[..]);
      seen[key] := true;
      values[key] := ConstFold(arms[i].body[0].pure).value;
      i := i + 1;
    }
    FilledUp(arms, values[..]);
    table := Some(values[..]);
  }

  /** Filling the remaining arms into `values` completes the table, should the arms be tabular. */
  ghost predicate Filling(arms: seq<Arm>, i: nat, values: seq<Word>)
    requires i <= |arms|
  {
    && |values| == |arms|
    && (Tabular(arms) ==>
          && (forall j :: i <= j < |arms| ==> ConstantArm(arms[j]) && arms[j].key.w < |values|)
          && (forall j :: 0 <= j < |arms[i..]| ==> arms[i..][j] == arms[j + i])
          && FillTable(arms[i..], values) == TableValues(arms))
  }

  lemma FillOne(arms: seq<Arm>, i: nat, values: seq<Word>)
    requires i < |arms| && Filling(arms, i, values) && ConstantArm(arms[i]) && arms[i].key.w < |arms|
    ensures Filling(arms, i + 1, values[arms[i].key.w := ConstFold(arms[i].body[0].pure).value])
  {
    hide ConstFold;
    assert arms[i..][0] == arms[i] && arms[i..][1..] == arms[i + 1..];
  }

  lemma FilledUp(arms: seq<Arm>, values: seq<Word>)
    requires Filling(arms, |arms|, values) && Tabular(arms)
    ensures values == TableValues(arms)
  {
    assert arms[|arms|..] == [];
  }

  // ---------- A table is faithful exactly when no division in it overflows ----------

  lemma {:induction false} TableFaithful(arms: seq<Arm>, i: nat, s: State, world: World)
    requires Tabular(arms) && i < |arms|
    ensures ConstantArm(arms[i]) && arms[i].key.w < |arms|
    ensures EvalStmts(arms[i].body, s, world) == Val(s, Some(TableValues(arms)[arms[i].key.w])) <==>
            NoOverflowingDiv(arms[i].body[0].pure)
    ensures !NoOverflowingDiv(arms[i].body[0].pure) ==>
            EvalStmts(arms[i].body, s, world) == Halt(Trapped, s.mem, s.trace)
  {
    assert ConstantArm(arms[i]) && arms[i].key.w < |arms|;
    var body := arms[i].body;
    assert EvalStmts(body, s, world) == EvalPure(body[0].pure, s);
    FoldAgrees(body[0].pure, s.env, s.mem);
    FillStores(arms, seq(|arms|, _ => 0), i);
  }

  /** `(-9223372036854775807 - 1) / -1` */
  const SMALLEST_BY_MINUS_ONE: Pure<string> := Bin(Div, Bin(Sub, Neg(Num(TWO_63 - 1)), Num(1)), Neg(Num(1)))

  /** `when 0 { 0 -> (-9223372036854775807 - 1) / -1; 1 -> 0 }` */
  const OVERFLOWING: Expr :=
    When(P(Num(0)), [Arm(NumKey(0), [P(SMALLEST_BY_MINUS_ONE)]), Arm(NumKey(1), [P(Num(0))])])

  /** The detector takes this `when`, and its table answers with a word; evaluating it traps. */
  lemma SmallestByMinusOne(s: State, world: World)
    ensures Tabular(OVERFLOWING.arms) && TableValues(OVERFLOWING.arms)[0] == TWO_63
    ensures Eval(OVERFLOWING, s, world) == Halt(Trapped, s.mem, s.trace)
  {
    var arms := OVERFLOWING.arms;
    FoldedDiv();
    assert ConstantArm(arms[0]) && ConstantArm(arms[1]);
    TableFaithful(arms, 0, s, world);
    FillStores(arms, seq(|arms|, _ => 0), 0);
    assert Select(arms, 0) == Some(0);
    assert Eval(OVERFLOWING.cond, s, world) == Val(s, Some(0));
  }

  lemma FoldedDiv()
    ensures ConstFold(SMALLEST_BY_MINUS_ONE) == Some(TWO_63) && !NoOverflowingDiv(SMALLEST_BY_MINUS_ONE)
  {
    assert ConstFold(SMALLEST_BY_MINUS_ONE.left.left) == Some(TWO_63 + 1);
    assert ConstFold(SMALLEST_BY_MINUS_ONE.left) == Some(TWO_63);
    assert ConstFold(SMALLEST_BY_MINUS_ONE.right) == Some(TWO_64 - 1);
  }
}
