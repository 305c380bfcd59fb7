/** What keys, actions and replies tell apart, stated without the definitions that source and machine share. */
module LakeLaws {
  import opened Words
  import opened Lake

  const NO_NAMES: map<string, Word> := map[]

  /** The expression a key is written as. */
  function Literal(k: Key): Pure<string>
    requires !k.Wildcard?
  {
    match k
    case NumKey(w) => Num(w)
    case BoolKey(b) => Bool(b)
    case AtomKey(id) => Atom(id)
  }

  /** A key's word is the word of the expression it is written as; `true` is 1 and `false` 0. */
  lemma KeysAreLiterals(k: Key, mem: Mem)
    ensures k.Wildcard? <==> LiteralValue(k).None?
    ensures !k.Wildcard? ==> PureEval(Literal(k), NO_NAMES, mem) == Ok(LiteralValue(k).value)
    ensures k.NumKey? ==> LiteralValue(k) == Some(k.w)
    ensures k.AtomKey? ==> LiteralValue(k) == Some(k.id)
    ensures k == BoolKey(true) ==> LiteralValue(k) == Some(1)
    ensures k == BoolKey(false) ==> LiteralValue(k) == Some(0)
  {
  }

  /** A `when` on the literal of a key takes the first arm with that word, and a wildcard arm only when there is none. */
  lemma LiteralSelects(arms: seq<Arm>, d: Word)
    ensures match Select(arms, d)
      case Some(i) =>
        && i < |arms|
        && (LiteralValue(arms[i].key) == Some(d) ||
            (arms[i].key.Wildcard? && forall j :: 0 <= j < |arms| ==> LiteralValue(arms[j].key) != Some(d)))
      case None => forall j :: 0 <= j < |arms| ==> !arms[j].key.Wildcard? && LiteralValue(arms[j].key) != Some(d)
    ensures forall j :: 0 <= j < |arms| && LiteralValue(arms[j].key) == Some(d) ==>
      Select(arms, d).Some? && Select(arms, d).value <= j
  {
    FirstIndex(arms, Some(d));
  }

  lemma {:induction false} FirstIndex(arms: seq<Arm>, k: Option<Word>)
    ensures forall j :: 0 <= j < |arms| && LiteralValue(arms[j].key) == k ==> IndexOf(arms, k).Some? && IndexOf(arms, k).value <= j
    decreases arms
  {
    if arms != [] {
      FirstIndex(arms[1..], k);
      forall j | 0 <= j < |arms| && LiteralValue(arms[j].key) == k
        ensures IndexOf(arms, k).Some? && IndexOf(arms, k).value <= j
      {
        if j > 0 {
          assert arms[1..][j - 1] == arms[j];
        }
      }
    }
  }

  /** An action in the trace tells the kind and the name of its callee; all sends look alike, their pid is the first word. */
  lemma ActionsTell(c: Callee<string>, d: Callee<string>)
    ensures Anonymous(c) == Anonymous(d) <==> c == d || (c.Send? && d.Send?)
    ensures c.Rt? ==> Anonymous(c) == Rt(c.name)
    ensures c.Parking? ==> Anonymous(c) == Parking(c.name)
    ensures c.Spawn? ==> Anonymous(c) == Spawn(c.machine)
  {
  }

  function Numbers(ws: seq<Word>): seq<Expr> {
    seq(|ws|, i requires 0 <= i < |ws| => P(Num(ws[i])))
  }

  lemma {:induction false} NumbersEvaluate(ws: seq<Word>, s: State, world: World)
    ensures EvalArgs(Numbers(ws), s, world) == Args(s, ws)
    decreases ws
  {
    if ws == [] {
      assert Numbers(ws) == [];
    } else {
      assert Numbers(ws)[1..] == Numbers(ws[1..]);
      NumbersEvaluate(ws[1..], s, world);
      assert ws == [ws[0]] + ws[1..];
    }
  }

  /**
   * A call of numbers adds one action to the trace: that callee, those words in that order, a send's pid in front. The
   * world answers from the trace with that action in it. Only a send leaves no value of its own.
   */
  lemma CallOfNumbers(c: Callee<string>, ws: seq<Word>, s: State, world: World)
    requires c.Send? ==> c.pid in s.env
    ensures var action := Action(Anonymous(c), (if c.Send? then [s.env[c.pid]] else []) + ws);
      var trace := s.trace + [action];
      var reply := world(trace, s.mem);
      Eval(Call(c, Numbers(ws)), s, world) ==
      (if reply.dies then Halt(Died, reply.mem, trace)
       else Val(State(s.env, reply.mem, trace), if c.Send? then None else reply.ret))
  {
    NumbersEvaluate(ws, s, world);
    assert [] + ws == ws;
  }

  /** `self(...)` of numbers re-enters with those words in that order. */
  lemma SelfOfNumbers(ws: seq<Word>, s: State, world: World)
    ensures Eval(SelfCall(Numbers(ws)), s, world) == Again(ws, s.mem, s.trace)
  {
    NumbersEvaluate(ws, s, world);
  }
}
