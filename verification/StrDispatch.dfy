/** Dispatch on a string guard: perfect-hash lookup, three checks, and the linear scan it stands for. */
module StrDispatch {
  import opened Words
  import opened Lake
  import opened FiniteSets
  import opened Mphf

  /** A literal guard; string literals are kept as written and unescaped when the tables are built. */
  datatype Guard = IntGuard(v: Word) | StrGuard(text: string)

  /** A branch: the guard of each parameter, if it has one, and its id. */
  datatype Branch = Branch(guards: seq<Option<Guard>>, id: Word)

  function GuardAt(b: Branch, pos: nat): Option<Guard> {
    if pos < |b.guards| then b.guards[pos] else None
  }

  // ---------- The position to dispatch on ----------

  /** The distinct guards at a position. */
  function GuardsAt(candidates: seq<Branch>, pos: nat): set<Guard> {
    set b | b in candidates && GuardAt(b, pos).Some? :: GuardAt(b, pos).value
  }

  function MaxArity(candidates: seq<Branch>): nat {
    if candidates == [] then 0
    else
      var rest := MaxArity(candidates[1..]);
      if |candidates[0].guards| > rest then |candidates[0].guards| else rest
  }

  /** The leftmost of the positions with the most distinct guards; 0 when nothing is guarded. */
  ghost predicate BestPos(candidates: seq<Branch>, pos: nat) {
    && (forall p: nat :: |GuardsAt(candidates, p)| <= |GuardsAt(candidates, pos)|)
    && (forall p: nat :: p < pos ==> |GuardsAt(candidates, p)| < |GuardsAt(candidates, pos)|)
  }

  lemma {:induction false} BeyondArity(candidates: seq<Branch>, pos: nat)
    requires pos >= MaxArity(candidates)
    ensures GuardsAt(candidates, pos) == {}
  {
    forall b | b in candidates ensures GuardAt(b, pos).None? {
      ArityBound(candidates, b);
    }
  }

  lemma {:induction false} ArityBound(candidates: seq<Branch>, b: Branch)
    requires b in candidates
    ensures |b.guards| <= MaxArity(candidates)
    decreases candidates
  {
    if b != candidates[0] {
      ArityBound(candidates[1..], b);
    }
  }

  /** `find_best_guard_pos`. */
  method FindBestPos(candidates: seq<Branch>) returns (best: nat)
    ensures BestPos(candidates, best)
  {
    best := 0;
    var distinct := |GuardsAt(candidates, 0)|;
    var pos := 1;
    while pos < MaxArity(candidates)
      invariant 1 <= pos && best < pos && distinct == |GuardsAt(candidates, best)|
      invariant forall p: nat :: p < pos ==> |GuardsAt(candidates, p)| <= distinct
      invariant forall p: nat :: p < best ==> |GuardsAt(candidates, p)| < distinct
      decreases MaxArity(candidates) - pos
    {
      if |GuardsAt(candidates, pos)| > distinct {
        distinct := |GuardsAt(candidates, pos)|;
        best := pos;
      }
      pos := pos + 1;
    }
    forall p: nat ensures |GuardsAt(candidates, p)| <= distinct {
      if p >= pos {
        BeyondArity(candidates, p);
      }
    }
  }

  // ---------- The meaning: a linear scan ----------

  type Unescape = string -> seq<Byte>

  /** A branch guarded by this very string at the position. */
  predicate Accepts(b: Branch, pos: nat, unescape: Unescape, arg: seq<Byte>) {
    GuardAt(b, pos).Some? && GuardAt(b, pos).value.StrGuard? && unescape(GuardAt(b, pos).value.text) == arg
  }

  /** The last branch unguarded at the position, else the first one. */
  function Fallback(candidates: seq<Branch>, pos: nat): Word
    requires candidates != []
  {
    match LastUnguarded(candidates, pos) case Some(b) => b.id case None => candidates[0].id
  }

  function LastUnguarded(candidates: seq<Branch>, pos: nat): Option<Branch> {
    if candidates == [] then None
    else
      var last := candidates[|candidates| - 1];
      if GuardAt(last, pos).None? then Some(last) else LastUnguarded(candidates[..|candidates| - 1], pos)
  }

  function FirstAccepting(candidates: seq<Branch>, pos: nat, unescape: Unescape, arg: seq<Byte>): Option<Branch> {
    if candidates == [] then None
    else if Accepts(candidates[0], pos, unescape, arg) then Some(candidates[0])
    else FirstAccepting(candidates[1..], pos, unescape, arg)
  }

  function Scan(candidates: seq<Branch>, pos: nat, unescape: Unescape, arg: seq<Byte>): Word
    requires candidates != []
  {
    match FirstAccepting(candidates, pos, unescape, arg)
    case Some(b) => b.id
    case None => Fallback(candidates, pos)
  }

  // ---------- The tables ----------

  datatype Literal = Literal(bytes: seq<Byte>, id: Word)

  /** Per index: hash of the literal, where it lies in the blob and how long it is, and its branch. */
  datatype Entry = Entry(key: Word, offset: nat, length: nat, id: Word)

  datatype Tables = Tables(mphf: Table, entries: seq<Entry>, blob: seq<Byte>, fallback: Word)

  /** String-guarded candidates in order. */
  function Literals(candidates: seq<Branch>, pos: nat, unescape: Unescape): seq<Literal> {
    if candidates == [] then []
    else
      var b := candidates[0];
      var rest := Literals(candidates[1..], pos, unescape);
      match GuardAt(b, pos)
      case Some(StrGuard(text)) => [Literal(unescape(text), b.id)] + rest
      case _ => rest
  }

  predicate MixesInts(candidates: seq<Branch>, pos: nat) {
    exists b :: b in candidates && GuardAt(b, pos).Some? && GuardAt(b, pos).value.IntGuard?
  }

  function Keys(literals: seq<Literal>): seq<Word> {
    seq(|literals|, i requires 0 <= i < |literals| => FxHash(literals[i].bytes))
  }

  /** Literals by their lookup index. */
  ghost predicate Indexed(t: Table, literals: seq<Literal>, byIndex: seq<Option<Literal>>)
    requires t.displacements != [] && t.total > 0
  {
    && |byIndex| == t.total
    && forall i :: 0 <= i < |literals| ==>
         Lookup(t, FxHash(literals[i].bytes)) < |byIndex| &&
         byIndex[Lookup(t, FxHash(literals[i].bytes))] == Some(literals[i])
  }

  /** An entry of the tables describes the literal at its index. */
  predicate Describes(e: Entry, l: Literal, blob: seq<Byte>) {
    && e.key == FxHash(l.bytes) && e.length == |l.bytes| && e.id == l.id
    && e.offset + e.length <= |blob| && blob[e.offset..e.offset + e.length] == l.bytes
  }

  /** Dispatch code exists: strings only at the position, one at least, and a hash for them. */
  predicate Emits(candidates: seq<Branch>, pos: nat, unescape: Unescape) {
    && !MixesInts(candidates, pos) && Literals(candidates, pos, unescape) != []
    && !NoTable(Keys(Literals(candidates, pos, unescape)))
  }

  datatype Error = MixedGuards | NoStrings | NoHash

  datatype Emitted = Failed(error: Error) | Done(tables: Tables)

  /**
   * `emit_str_guard_select`, the compile-time half: literals, their hash, the tables in index order.
   */
  method Emit(candidates: seq<Branch>, pos: nat, unescape: Unescape) returns (r: Emitted)
    requires candidates != [] && |candidates| * 500 <= TWO_32
    ensures MixesInts(candidates, pos) ==> r == Failed(MixedGuards)
    ensures !MixesInts(candidates, pos) && Literals(candidates, pos, unescape) == [] ==> r == Failed(NoStrings)
    ensures r == Failed(NoHash) <==>
      (!MixesInts(candidates, pos) && Literals(candidates, pos, unescape) != [] &&
       NoTable(Keys(Literals(candidates, pos, unescape))))
    ensures r.Done? <==> Emits(candidates, pos, unescape)
    ensures r.Done? ==> Built(candidates, pos, unescape, r.tables)
  {
    hide FxHash, Perfect, Lookup, Literals, MixesInts, NoTable;
    var mixed, literals, fallback := Partition(candidates, pos, unescape);
    if mixed {
      return Failed(MixedGuards);
    }
    if literals == [] {
      return Failed(NoStrings);
    }
    LiteralCount(candidates, pos, unescape);
    var t := Build(Keys(literals));
    if t.None? {
      return Failed(NoHash);
    }
    PerfectShape(t.value, Keys(literals));
    var byIndex := Reorder(t.value, literals);
    var entries, blob := WriteTables(byIndex);
    r := Done(Tables(t.value, entries, blob, fallback));
  }

  /** Literals and the branch to fall back on, in one pass; an int guard at the position stops it. */
  method Partition(candidates: seq<Branch>, pos: nat, unescape: Unescape)
    returns (mixed: bool, literals: seq<Literal>, fallback: Word)
    requires candidates != []
    ensures mixed <==> MixesInts(candidates, pos)
    ensures !mixed ==> literals == Literals(candidates, pos, unescape) && fallback == Fallback(candidates, pos)
  {
    hide Literals, LastUnguarded;
    literals := [];
    var wildcard: Option<Branch> := None;
    var i := 0;
    NoLiterals(pos, unescape);
    while i < |candidates|
      invariant 0 <= i <= |candidates|
      invariant forall j :: 0 <= j < i ==> !(GuardAt(candidates[j], pos).Some? && GuardAt(candidates[j], pos).value.IntGuard?)
      invariant literals == Literals(candidates[..i], pos, unescape)
      invariant wildcard == LastUnguarded(candidates[..i], pos)
    {
      var b := candidates[i];
      assert candidates[..i + 1] == candidates[..i] + [b];
      OneMore(candidates[..i], b, pos, unescape);
      match GuardAt(b, pos) {
        case Some(IntGuard(_)) =>
          assert b in candidates;
          return true, literals, 0;
        case Some(StrGuard(text)) =>
          literals := literals + [Literal(unescape(text), b.id)];
        case None =>
          wildcard := Some(b);
      }
      i := i + 1;
    }
    assert candidates[..|candidates|] == candidates;
    mixed := false;
    fallback := if wildcard.Some? then wildcard.value.id else candidates[0].id;
  }

  lemma NoLiterals(pos: nat, unescape: Unescape)
    ensures Literals([], pos, unescape) == [] && LastUnguarded([], pos) == None
  {
  }

  lemma {:induction false} OneMore(candidates: seq<Branch>, b: Branch, pos: nat, unescape: Unescape)
    ensures Literals(candidates + [b], pos, unescape) == Literals(candidates, pos, unescape) +
      (match GuardAt(b, pos) case Some(StrGuard(text)) => [Literal(unescape(text), b.id)] case _ => [])
    ensures LastUnguarded(candidates + [b], pos) ==
      if GuardAt(b, pos).None? then Some(b) else LastUnguarded(candidates, pos)
    decreases candidates
  {
    assert (candidates + [b])[..|candidates|] == candidates;
    if candidates == [] {
      assert candidates + [b] == [b] && [b][1..] == [];
    } else {
      assert (candidates + [b])[0] == candidates[0] && (candidates + [b])[1..] == candidates[1..] + [b];
      OneMore(candidates[1..], b, pos, unescape);
    }
  }

  /** What the tables are, once emitted. */
  ghost predicate Built(candidates: seq<Branch>, pos: nat, unescape: Unescape, tables: Tables)
    requires candidates != []
  {
    var literals := Literals(candidates, pos, unescape);
    && literals != [] && Perfect(tables.mphf, Keys(literals)) && NoDup(Keys(literals))
    && |tables.entries| == |literals| && tables.fallback == Fallback(candidates, pos)
    && forall i :: 0 <= i < |literals| ==>
         Lookup(tables.mphf, FxHash(literals[i].bytes)) < |tables.entries| &&
         Describes(tables.entries[Lookup(tables.mphf, FxHash(literals[i].bytes))], literals[i], tables.blob)
  }

  lemma {:induction false} LiteralCount(candidates: seq<Branch>, pos: nat, unescape: Unescape)
    ensures |Literals(candidates, pos, unescape)| <= |candidates|
    decreases candidates
  {
    if candidates != [] {
      LiteralCount(candidates[1..], pos, unescape);
    }
  }

  lemma PerfectShape(t: Table, keys: seq<Word>)
    requires Perfect(t, keys)
    ensures t.displacements != [] && t.total == |keys| > 0
    ensures forall k: Word :: Lookup(t, k) < t.total
    ensures forall i, j :: 0 <= i < j < |keys| ==> Lookup(t, keys[i]) != Lookup(t, keys[j])
  {
    hide Lookup, Filled;
  }

  method Reorder(t: Table, literals: seq<Literal>) returns (byIndex: seq<Option<Literal>>)
    requires Perfect(t, Keys(literals))
    ensures Indexed(t, literals, byIndex)
    ensures forall s :: 0 <= s < |byIndex| ==> byIndex[s].Some?
  {
    hide FxHash, Perfect, Lookup;
    PerfectShape(t, Keys(literals));
    byIndex := seq(t.total, _ => None);
    var i := 0;
    while i < |literals|
      invariant 0 <= i <= |literals| && |byIndex| == t.total
      invariant forall j :: 0 <= j < i ==> byIndex[Lookup(t, FxHash(literals[j].bytes))] == Some(literals[j])
    {
      var slot := Lookup(t, FxHash(literals[i].bytes));
      forall j | 0 <= j < i ensures Lookup(t, FxHash(literals[j].bytes)) != slot {
        assert Keys(literals)[j] == FxHash(literals[j].bytes) && Keys(literals)[i] == FxHash(literals[i].bytes);
      }
      byIndex := byIndex[slot := Some(literals[i])];
      i := i + 1;
    }
    forall s: nat | s < |byIndex| ensures byIndex[s].Some? {
      var j := SlotOwner(t, Keys(literals), s);
      assert Keys(literals)[j] == FxHash(literals[j].bytes);
    }
  }

  lemma SlotOwner(t: Table, keys: seq<Word>, s: nat)
    returns (i: int)
    requires Perfect(t, keys) && s < |keys|
    ensures 0 <= i < |keys| && Lookup(t, keys[i]) == s
  {
    hide Lookup;
    assert Filled(t, keys, s);
    i :| 0 <= i < |keys| && Lookup(t, keys[i]) == s;
  }

  /** Keys, places and branch ids by index; literal bytes one after another. */
  method WriteTables(byIndex: seq<Option<Literal>>) returns (entries: seq<Entry>, blob: seq<Byte>)
    requires forall s :: 0 <= s < |byIndex| ==> byIndex[s].Some?
    ensures |entries| == |byIndex| && blob != []
    ensures forall s :: 0 <= s < |byIndex| ==> Describes(entries[s], byIndex[s].value, blob)
  {
    hide FxHash;
    entries, blob := [], [];
    var s := 0;
    while s < |byIndex|
      invariant 0 <= s <= |byIndex| && |entries| == s
      invariant forall j :: 0 <= j < s ==> Describes(entries[j], byIndex[j].value, blob)
    {
      var l := byIndex[s].value;
      forall j | 0 <= j < s ensures Describes(entries[j], byIndex[j].value, blob + l.bytes) {
        StillDescribes(entries[j], byIndex[j].value, blob, l.bytes);
      }
      entries := entries + [Entry(FxHash(l.bytes), |blob|, |l.bytes|, l.id)];
      blob := blob + l.bytes;
      s := s + 1;
    }
    if blob == [] {
      forall j | 0 <= j < s ensures Describes(entries[j], byIndex[j].value, [0]) {
        StillDescribes(entries[j], byIndex[j].value, [], [0]);
      }
      blob := [0];
    }
  }

  lemma StillDescribes(e: Entry, l: Literal, blob: seq<Byte>, more: seq<Byte>)
    requires Describes(e, l, blob)
    ensures Describes(e, l, blob + more)
  {
    hide FxHash;
    assert (blob + more)[e.offset..e.offset + e.length] == blob[e.offset..e.offset + e.length];
  }

  // ---------- The emitted code ----------

  /** Hash, lookup, then key, length and bytes; any miss falls back. */
  method Select(tables: Tables, arg: seq<Byte>) returns (id: Word)
    requires tables.mphf.displacements != [] && tables.mphf.total > 0
    requires forall k: Word :: Lookup(tables.mphf, k) < |tables.entries|
    requires forall e :: e in tables.entries ==> e.offset + e.length <= |tables.blob|
    ensures id == Selected(tables, arg)
  {
    hide FxHash, Lookup;
    var key := FxHashLoop(arg);
    var index := Lookup(tables.mphf, key);
    var e := tables.entries[index];
    if e.key != key {
      return tables.fallback;
    }
    if e.length != |arg| {
      return tables.fallback;
    }
    var i := 0;
    while i < |arg|
      invariant 0 <= i <= |arg|
      invariant arg[..i] == tables.blob[e.offset..e.offset + i]
    {
      if arg[i] != tables.blob[e.offset + i] {
        assert tables.blob[e.offset..e.offset + e.length][i] != arg[i];
        return tables.fallback;
      }
      i := i + 1;
    }
    assert arg == tables.blob[e.offset..e.offset + e.length];
    id := e.id;
  }

  function Selected(tables: Tables, arg: seq<Byte>): Word
    requires tables.mphf.displacements != [] && tables.mphf.total > 0
    requires forall k: Word :: Lookup(tables.mphf, k) < |tables.entries|
    requires forall e :: e in tables.entries ==> e.offset + e.length <= |tables.blob|
  {
    var e := tables.entries[Lookup(tables.mphf, FxHash(arg))];
    if e.key == FxHash(arg) && e.length == |arg| && tables.blob[e.offset..e.offset + e.length] == arg then e.id
    else tables.fallback
  }

  // ---------- They agree ----------

  /** The first literal equal to the argument belongs to the first accepting branch. */
  lemma {:induction false} AcceptingLiteral(candidates: seq<Branch>, pos: nat, unescape: Unescape, arg: seq<Byte>)
    returns (j: nat)
    requires !MixesInts(candidates, pos)
    ensures var literals, first := Literals(candidates, pos, unescape), FirstAccepting(candidates, pos, unescape, arg);
      && j <= |literals|
      && (forall i :: 0 <= i < j ==> literals[i].bytes != arg)
      && (j == |literals| <==> first.None?)
      && (j < |literals| ==> literals[j] == Literal(arg, first.value.id))
    decreases candidates
  {
    j := 0;
    if candidates != [] {
      var b, rest := candidates[0], candidates[1..];
      assert !MixesInts(rest, pos) by {
        assert forall c :: c in rest ==> c in candidates;
      }
      assert b in candidates;
      var k := AcceptingLiteral(rest, pos, unescape, arg);
      if GuardAt(b, pos).None? {
        j := k;
      } else if !Accepts(b, pos, unescape, arg) {
        j := k + 1;
      }
    }
  }

  /** Every entry belongs to some literal. */
  lemma EntryOwner(candidates: seq<Branch>, pos: nat, unescape: Unescape, tables: Tables, s: nat)
    returns (i: nat)
    requires candidates != [] && Built(candidates, pos, unescape, tables) && s < |tables.entries|
    ensures i < |Literals(candidates, pos, unescape)|
    ensures Describes(tables.entries[s], Literals(candidates, pos, unescape)[i], tables.blob)
  {
    hide Lookup, FxHash, Literals, Describes, Perfect, Fallback;
    var literals := Literals(candidates, pos, unescape);
    i := SlotOwner(tables.mphf, Keys(literals), s);
    assert Keys(literals)[i] == FxHash(literals[i].bytes);
  }

  /** The emitted code's reads are in bounds. */
  lemma InBounds(candidates: seq<Branch>, pos: nat, unescape: Unescape, tables: Tables)
    requires candidates != [] && Built(candidates, pos, unescape, tables)
    ensures tables.mphf.displacements != [] && tables.mphf.total > 0
    ensures forall k: Word :: Lookup(tables.mphf, k) < |tables.entries|
    ensures forall e :: e in tables.entries ==> e.offset + e.length <= |tables.blob|
  {
    hide Lookup, FxHash, Literals, Perfect, Fallback;
    PerfectShape(tables.mphf, Keys(Literals(candidates, pos, unescape)));
    forall e | e in tables.entries ensures e.offset + e.length <= |tables.blob| {
      var s :| 0 <= s < |tables.entries| && tables.entries[s] == e;
      var i := EntryOwner(candidates, pos, unescape, tables, s);
    }
  }

  /**
   * String-guard dispatch is a linear scan. For every argument, one whose hash collides with a literal's included,
   * the hash, the displacement and the three checks select the branch whose unescaped literal equals the argument,
   * or the fallback branch when there is none.
   */
  lemma DispatchIsScan(candidates: seq<Branch>, pos: nat, unescape: Unescape, tables: Tables, arg: seq<Byte>)
    requires candidates != [] && Built(candidates, pos, unescape, tables) && !MixesInts(candidates, pos)
    ensures tables.mphf.displacements != [] && tables.mphf.total > 0
    ensures forall k: Word :: Lookup(tables.mphf, k) < |tables.entries|
    ensures forall e :: e in tables.entries ==> e.offset + e.length <= |tables.blob|
    ensures Selected(tables, arg) == Scan(candidates, pos, unescape, arg)
  {
    hide Lookup, FxHash, Literals, Perfect, Fallback, FirstAccepting, MixesInts;
    InBounds(candidates, pos, unescape, tables);
    var literals := Literals(candidates, pos, unescape);
    var j := AcceptingLiteral(candidates, pos, unescape, arg);
    var s := Lookup(tables.mphf, FxHash(arg));
    var i := EntryOwner(candidates, pos, unescape, tables, s);
    if j < |literals| {
      assert Describes(tables.entries[s], literals[j], tables.blob);
    } else {
      assert literals[i].bytes != arg;
    }
  }

  // ---------- Int guards, and the choice between the two ----------

  /** The guard of the first guarded parameter, whichever that is. */
  function FirstGuard(guards: seq<Option<Guard>>): Option<Guard> {
    if guards == [] then None else if guards[0].Some? then guards[0] else FirstGuard(guards[1..])
  }

  predicate IntFirst(b: Branch) {
    FirstGuard(b.guards).Some? && FirstGuard(b.guards).value.IntGuard?
  }

  /** Two branches whose first guards are the same number: the switch refuses the second. */
  predicate RepeatsInts(candidates: seq<Branch>) {
    exists i, j :: 0 <= i < j < |candidates| && IntFirst(candidates[i]) &&
      FirstGuard(candidates[i].guards) == FirstGuard(candidates[j].guards)
  }

  function FirstByInt(candidates: seq<Branch>, d: Word): Option<Branch> {
    if candidates == [] then None
    else if FirstGuard(candidates[0].guards) == Some(IntGuard(d)) then Some(candidates[0])
    else FirstByInt(candidates[1..], d)
  }

  function LastNotInt(candidates: seq<Branch>): Option<Branch> {
    if candidates == [] then None
    else
      var last := candidates[|candidates| - 1];
      if !IntFirst(last) then Some(last) else LastNotInt(candidates[..|candidates| - 1])
  }

  /** The branch whose first guard is the number, else the last one whose first guard is no number, else the first. */
  function IntScan(candidates: seq<Branch>, d: Word): Word
    requires candidates != []
  {
    match FirstByInt(candidates, d)
    case Some(b) => b.id
    case None => match LastNotInt(candidates) case Some(b) => b.id case None => candidates[0].id
  }

  /** `emit_int_guard_select`: the switch over first guards, its default, and where it goes for `d`. */
  method IntSelect(candidates: seq<Branch>, d: Word) returns (id: Option<Word>)
    requires candidates != []
    ensures id == if RepeatsInts(candidates) then None else Some(IntScan(candidates, d))
  {
    hide IntScan;
    var cases: map<Word, Word> := map[];
    var wildcard: Option<Branch> := None;
    var i := 0;
    while i < |candidates|
      invariant 0 <= i <= |candidates| && !RepeatsInts(candidates[..i])
      invariant wildcard == LastNotInt(candidates[..i])
      invariant forall w :: w in cases <==> FirstByInt(candidates[..i], w).Some?
      invariant forall w :: w in cases ==> cases[w] == FirstByInt(candidates[..i], w).value.id
    {
      var b := candidates[i];
      assert candidates[..i + 1] == candidates[..i] + [b];
      forall w ensures FirstByInt(candidates[..i + 1], w) ==
          if FirstByInt(candidates[..i], w).Some? then FirstByInt(candidates[..i], w)
          else if FirstGuard(b.guards) == Some(IntGuard(w)) then Some(b) else None
      {
        FirstByIntAppend(candidates[..i], b, w);
      }
      if IntFirst(b) {
        var w := FirstGuard(b.guards).value.v;
        Repeats(candidates[..i], b);
        if w in cases {
          StillRepeats(candidates, i + 1);
          return None;
        }
        cases := cases[w := b.id];
      } else {
        Repeats(candidates[..i], b);
        wildcard := Some(b);
      }
      i := i + 1;
    }
    assert candidates[..|candidates|] == candidates;
    id := Some(if d in cases then cases[d] else if wildcard.Some? then wildcard.value.id else candidates[0].id);
    IntScanIs(candidates, d);
  }

  lemma IntScanIs(candidates: seq<Branch>, d: Word)
    requires candidates != []
    ensures IntScan(candidates, d) ==
      if FirstByInt(candidates, d).Some? then FirstByInt(candidates, d).value.id
      else if LastNotInt(candidates).Some? then LastNotInt(candidates).value.id
      else candidates[0].id
  {
  }

  lemma {:induction false} FirstByIntAppend(candidates: seq<Branch>, b: Branch, w: Word)
    ensures FirstByInt(candidates + [b], w) ==
      if FirstByInt(candidates, w).Some? then FirstByInt(candidates, w)
      else if FirstGuard(b.guards) == Some(IntGuard(w)) then Some(b) else None
    decreases candidates
  {
    if candidates == [] {
      assert candidates + [b] == [b] && [b][1..] == [];
    } else {
      assert (candidates + [b])[0] == candidates[0] && (candidates + [b])[1..] == candidates[1..] + [b];
      FirstByIntAppend(candidates[1..], b, w);
    }
  }

  /** What is found has that number as first guard; what has it is found. */
  lemma {:induction false} FoundByInt(candidates: seq<Branch>, w: Word)
    ensures FirstByInt(candidates, w).Some? <==>
      exists i :: 0 <= i < |candidates| && FirstGuard(candidates[i].guards) == Some(IntGuard(w))
    decreases candidates
  {
    if candidates != [] {
      FoundByInt(candidates[1..], w);
      if i :| 0 <= i < |candidates| && FirstGuard(candidates[i].guards) == Some(IntGuard(w)) {
        if i > 0 {
          assert candidates[1..][i - 1] == candidates[i];
        }
      }
      if FirstByInt(candidates[1..], w).Some? {
        var i :| 0 <= i < |candidates[1..]| && FirstGuard(candidates[1..][i].guards) == Some(IntGuard(w));
        assert candidates[i + 1] == candidates[1..][i];
      }
    }
  }

  /** One branch more repeats a number exactly when its own is already there. */
  lemma Repeats(candidates: seq<Branch>, b: Branch)
    requires !RepeatsInts(candidates)
    ensures RepeatsInts(candidates + [b]) <==>
      IntFirst(b) && FirstByInt(candidates, FirstGuard(b.guards).value.v).Some?
  {
    hide FirstByInt, FirstGuard;
    var all := candidates + [b];
    assert forall i :: 0 <= i < |candidates| ==> all[i] == candidates[i];
    assert all[|candidates|] == b;
    if IntFirst(b) {
      FoundByInt(candidates, FirstGuard(b.guards).value.v);
      if i :| 0 <= i < |candidates| && FirstGuard(candidates[i].guards) == FirstGuard(b.guards) {
        assert IntFirst(all[i]) && FirstGuard(all[i].guards) == FirstGuard(all[|candidates|].guards);
      }
    }
    if RepeatsInts(all) {
      var i, j :| 0 <= i < j < |all| && IntFirst(all[i]) && FirstGuard(all[i].guards) == FirstGuard(all[j].guards);
      assert j == |candidates| && all[i] == candidates[i];
    }
  }

  lemma StillRepeats(candidates: seq<Branch>, n: nat)
    requires n <= |candidates| && RepeatsInts(candidates[..n])
    ensures RepeatsInts(candidates)
  {
    hide FirstGuard;
    var i, j :| 0 <= i < j < n && IntFirst(candidates[..n][i]) &&
      FirstGuard(candidates[..n][i].guards) == FirstGuard(candidates[..n][j].guards);
    assert candidates[..n][i] == candidates[i] && candidates[..n][j] == candidates[j];
  }

  /** The branch guarded by the number at the position, else the last one not guarded by a number there, else the first. */
  function ScanAt(candidates: seq<Branch>, pos: nat, d: Word, all: seq<Branch>): Word
    requires all != []
  {
    if candidates == [] then match LastNotIntAt(all, pos) case Some(b) => b.id case None => all[0].id
    else if GuardAt(candidates[0], pos) == Some(IntGuard(d)) then candidates[0].id
    else ScanAt(candidates[1..], pos, d, all)
  }

  function LastNotIntAt(candidates: seq<Branch>, pos: nat): Option<Branch> {
    if candidates == [] then None
    else
      var last := candidates[|candidates| - 1];
      if !(GuardAt(last, pos).Some? && GuardAt(last, pos).value.IntGuard?) then Some(last)
      else LastNotIntAt(candidates[..|candidates| - 1], pos)
  }

  /** Guards at one position only. */
  predicate GuardedAt(candidates: seq<Branch>, pos: nat) {
    forall b, q: nat :: b in candidates && q < |b.guards| && b.guards[q].Some? ==> q == pos
  }

  lemma {:induction false} OneGuard(guards: seq<Option<Guard>>, pos: int)
    requires forall q :: 0 <= q < |guards| && guards[q].Some? ==> q == pos
    ensures FirstGuard(guards) == if 0 <= pos < |guards| then guards[pos] else None
    decreases guards
  {
    if guards != [] {
      assert forall q :: 0 <= q < |guards[1..]| ==> guards[1..][q] == guards[q + 1];
      OneGuard(guards[1..], pos - 1);
    }
  }

  /** With guards at one position only, the switch is a linear scan of that position. */
  lemma IntIsScan(candidates: seq<Branch>, pos: nat, d: Word)
    requires candidates != [] && GuardedAt(candidates, pos)
    ensures IntScan(candidates, d) == ScanAt(candidates, pos, d, candidates)
  {
    FirstAt(candidates, pos, d, candidates);
    LastAt(candidates, pos);
  }

  lemma {:induction false} FirstAt(candidates: seq<Branch>, pos: nat, d: Word, all: seq<Branch>)
    requires all != [] && GuardedAt(candidates, pos)
    ensures ScanAt(candidates, pos, d, all) ==
      match FirstByInt(candidates, d)
      case Some(b) => b.id
      case None => (match LastNotIntAt(all, pos) case Some(b) => b.id case None => all[0].id)
    decreases candidates
  {
    if candidates != [] {
      assert candidates[0] in candidates;
      OneGuard(candidates[0].guards, pos);
      assert forall b :: b in candidates[1..] ==> b in candidates;
      FirstAt(candidates[1..], pos, d, all);
    }
  }

  lemma {:induction false} LastAt(candidates: seq<Branch>, pos: nat)
    requires GuardedAt(candidates, pos)
    ensures LastNotInt(candidates) == LastNotIntAt(candidates, pos)
    decreases candidates
  {
    if candidates != [] {
      var n := |candidates| - 1;
      assert candidates[n] in candidates;
      OneGuard(candidates[n].guards, pos);
      assert forall b :: b in candidates[..n] ==> b in candidates;
      LastAt(candidates[..n], pos);
    }
  }

  // ---------- The choice, by quantifiers ----------

  /** Strings: the first branch accepting the argument, else the last one unguarded at the position, else the first. */
  predicate StringPick(candidates: seq<Branch>, pos: nat, unescape: Unescape, arg: seq<Byte>, i: int) {
    && 0 <= i < |candidates|
    && if exists j :: 0 <= j < |candidates| && Accepts(candidates[j], pos, unescape, arg) then
         Accepts(candidates[i], pos, unescape, arg)
         && forall j :: 0 <= j < i ==> !Accepts(candidates[j], pos, unescape, arg)
       else if exists j :: 0 <= j < |candidates| && GuardAt(candidates[j], pos).None? then
         GuardAt(candidates[i], pos).None? && forall j :: i < j < |candidates| ==> GuardAt(candidates[j], pos).Some?
       else i == 0
  }

  /** Numbers: the branch whose first guard is the word, else the last one with no number there, else the first. */
  predicate NumberPick(candidates: seq<Branch>, word: Word, i: int) {
    && 0 <= i < |candidates|
    && if exists j :: 0 <= j < |candidates| && FirstGuard(candidates[j].guards) == Some(IntGuard(word)) then
         FirstGuard(candidates[i].guards) == Some(IntGuard(word))
         && forall j :: 0 <= j < i ==> FirstGuard(candidates[j].guards) != Some(IntGuard(word))
       else if exists j :: 0 <= j < |candidates| && !IntFirst(candidates[j]) then
         !IntFirst(candidates[i]) && forall j :: i < j < |candidates| ==> IntFirst(candidates[j])
       else i == 0
  }

  lemma {:induction false} FirstAccepted(candidates: seq<Branch>, pos: nat, unescape: Unescape, arg: seq<Byte>)
    returns (i: nat)
    ensures i <= |candidates| && forall j :: 0 <= j < i ==> !Accepts(candidates[j], pos, unescape, arg)
    ensures i < |candidates| ==> Accepts(candidates[i], pos, unescape, arg)
    ensures FirstAccepting(candidates, pos, unescape, arg) == if i < |candidates| then Some(candidates[i]) else None
    decreases candidates
  {
    i := 0;
    if candidates != [] && !Accepts(candidates[0], pos, unescape, arg) {
      i := FirstAccepted(candidates[1..], pos, unescape, arg);
      i := i + 1;
    }
  }

  lemma {:induction false} LastFree(candidates: seq<Branch>, pos: nat)
    returns (i: int)
    ensures -1 <= i < |candidates| && forall j :: i < j < |candidates| ==> GuardAt(candidates[j], pos).Some?
    ensures i >= 0 ==> GuardAt(candidates[i], pos).None?
    ensures LastUnguarded(candidates, pos) == if i >= 0 then Some(candidates[i]) else None
    decreases candidates
  {
    i := |candidates| - 1;
    if i >= 0 && GuardAt(candidates[i], pos).Some? {
      i := LastFree(candidates[..i], pos);
    }
  }

  lemma {:induction false} FirstNumber(candidates: seq<Branch>, word: Word)
    returns (i: nat)
    ensures i <= |candidates| && forall j :: 0 <= j < i ==> FirstGuard(candidates[j].guards) != Some(IntGuard(word))
    ensures i < |candidates| ==> FirstGuard(candidates[i].guards) == Some(IntGuard(word))
    ensures FirstByInt(candidates, word) == if i < |candidates| then Some(candidates[i]) else None
    decreases candidates
  {
    i := 0;
    if candidates != [] && FirstGuard(candidates[0].guards) != Some(IntGuard(word)) {
      i := FirstNumber(candidates[1..], word);
      i := i + 1;
    }
  }

  lemma {:induction false} LastOther(candidates: seq<Branch>)
    returns (i: int)
    ensures -1 <= i < |candidates| && forall j :: i < j < |candidates| ==> IntFirst(candidates[j])
    ensures i >= 0 ==> !IntFirst(candidates[i])
    ensures LastNotInt(candidates) == if i >= 0 then Some(candidates[i]) else None
    decreases candidates
  {
    i := |candidates| - 1;
    if i >= 0 && IntFirst(candidates[i]) {
      i := LastOther(candidates[..i]);
    }
  }

  /** The scan's branch is the one picked. */
  lemma ScanPicks(candidates: seq<Branch>, pos: nat, unescape: Unescape, arg: seq<Byte>)
    returns (i: nat)
    requires candidates != []
    ensures StringPick(candidates, pos, unescape, arg, i) && Scan(candidates, pos, unescape, arg) == candidates[i].id
  {
    hide Accepts, GuardAt;
    i := FirstAccepted(candidates, pos, unescape, arg);
    if i == |candidates| {
      var last := LastFree(candidates, pos);
      i := if last >= 0 then last else 0;
    }
  }

  /** The switch's branch is the one picked. */
  lemma SwitchPicks(candidates: seq<Branch>, word: Word)
    returns (i: nat)
    requires candidates != []
    ensures NumberPick(candidates, word, i) && IntScan(candidates, word) == candidates[i].id
  {
    hide FirstGuard, IntFirst;
    i := FirstNumber(candidates, word);
    if i == |candidates| {
      var last := LastOther(candidates);
      i := if last >= 0 then last else 0;
    }
  }

  datatype Kind = IntKind | StrKind

  /** The kind of the first guard found at the position. */
  function GuardKind(candidates: seq<Branch>, pos: nat): Option<Kind> {
    if candidates == [] then None
    else match GuardAt(candidates[0], pos)
      case Some(IntGuard(_)) => Some(IntKind)
      case Some(StrGuard(_)) => Some(StrKind)
      case None => GuardKind(candidates[1..], pos)
  }

  /** The first candidate guarded at the position has a string there. */
  predicate StringFirst(candidates: seq<Branch>, pos: nat) {
    exists i :: 0 <= i < |candidates| && GuardAt(candidates[i], pos).Some? && GuardAt(candidates[i], pos).value.StrGuard?
      && forall j :: 0 <= j < i ==> GuardAt(candidates[j], pos).None?
  }

  lemma {:induction false} KindIsFirst(candidates: seq<Branch>, pos: nat)
    ensures GuardKind(candidates, pos) == Some(StrKind) <==> StringFirst(candidates, pos)
    decreases candidates
  {
    hide GuardAt;
    if candidates != [] && GuardAt(candidates[0], pos).None? {
      var rest := candidates[1..];
      KindIsFirst(rest, pos);
      if StringFirst(rest, pos) {
        var i :| 0 <= i < |rest| && GuardAt(rest[i], pos).Some? && GuardAt(rest[i], pos).value.StrGuard?
          && forall j :: 0 <= j < i ==> GuardAt(rest[j], pos).None?;
        assert candidates[i + 1] == rest[i];
        assert forall j :: 0 < j < i + 1 ==> candidates[j] == rest[j - 1];
      }
      if StringFirst(candidates, pos) {
        var i :| 0 <= i < |candidates| && GuardAt(candidates[i], pos).Some? && GuardAt(candidates[i], pos).value.StrGuard?
          && forall j :: 0 <= j < i ==> GuardAt(candidates[j], pos).None?;
        assert candidates[i] == rest[i - 1];
        assert forall j :: 0 <= j < i - 1 ==> rest[j] == candidates[j + 1];
      }
    }
  }

  /**
   * With a string as the first guard there: the branch the argument's bytes pick, whenever the tables can be emitted.
   * With a number or no guard: the branch the word picks, unless a number repeats.
   */
  ghost predicate Dispatched(candidates: seq<Branch>, pos: nat, unescape: Unescape, word: Word, arg: seq<Byte>, id: Option<Word>)
  {
    if StringFirst(candidates, pos) then
      if Emits(candidates, pos, unescape) then
        exists i :: StringPick(candidates, pos, unescape, arg, i) && id == Some(candidates[i].id)
      else id == None
    else if RepeatsInts(candidates) then id == None
    else exists i :: NumberPick(candidates, word, i) && id == Some(candidates[i].id)
  }

  /**
   * `emit_guard_select` and the code it emits, end to end: best position, kind, tables, selection. The argument is a
   * word, and for strings the bytes its fat pointer delimits.
   */
  method Dispatch(candidates: seq<Branch>, unescape: Unescape, word: Word, arg: seq<Byte>) returns (id: Option<Word>)
    requires candidates != [] && |candidates| * 500 <= TWO_32
    ensures exists pos: nat :: BestPos(candidates, pos) && Dispatched(candidates, pos, unescape, word, arg, id)
  {
    hide Lookup, Scan, Selected, BestPos, NoTable, Literals, MixesInts, IntScan, RepeatsInts, GuardKind, StringFirst,
      StringPick, NumberPick;
    var pos := FindBestPos(candidates);
    KindIsFirst(candidates, pos);
    if GuardKind(candidates, pos) != Some(StrKind) {
      id := IntSelect(candidates, word);
      ghost var i := SwitchPicks(candidates, word);
      return;
    }
    var emitted := Emit(candidates, pos, unescape);
    if emitted.Failed? {
      return None;
    }
    InBounds(candidates, pos, unescape, emitted.tables);
    DispatchIsScan(candidates, pos, unescape, emitted.tables, arg);
    var chosen := Select(emitted.tables, arg);
    ghost var i := ScanPicks(candidates, pos, unescape, arg);
    id := Some(chosen);
  }
}
