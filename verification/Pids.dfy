/** Generation-tagged pids: the table, its recycled-slot stack, and what a lookup can and cannot return. */
module Pids {
  import opened Words
  import opened FiniteSets

  /** 16-byte table entry: the slot's generation and its actor's context address, 0 for none. */
  datatype Entry = Entry(gen: Word, proc: Word)

  /** The table up to its capacity, the high-water mark, and the stack of recycled slots. */
  datatype PidState = PidState(entries: seq<Entry>, len: nat, free: seq<nat>)

  /** Generation in the high half, slot in the low half. */
  function Pack(gen: Word, slot: nat): Word
    requires slot < TWO_32
  {
    Wrap(gen * TWO_32) + slot
  }

  function SlotOf(pid: Word): nat {
    pid % TWO_32
  }

  function GenOf(pid: Word): nat {
    pid / TWO_32
  }

  /** A packed pid unpacks to its parts exactly when the generation fits its half. */
  lemma PackExact(gen: Word, slot: nat)
    requires slot < TWO_32
    ensures SlotOf(Pack(gen, slot)) == slot
    ensures GenOf(Pack(gen, slot)) == gen <==> gen < TWO_32
  {
    assert TWO_64 == TWO_32 * TWO_32;
    var high := gen % TWO_32;
    assert gen * TWO_32 == (gen / TWO_32) * TWO_64 + high * TWO_32;
    assert Wrap(gen * TWO_32) == high * TWO_32;
  }

  /** The slot the next assignment takes: the top of the stack, else a fresh one. */
  function NextSlot(s: PidState): nat {
    if s.free == [] then s.len else s.free[|s.free| - 1]
  }

  /** Doubled when slot + 1 reaches the capacity; `spare` is what the new half happens to hold. */
  function Grown(entries: seq<Entry>, slot: nat, spare: seq<Entry>): seq<Entry> {
    if slot + 1 >= |entries| then entries + spare else entries
  }

  predicate CanAssign(s: PidState, spare: seq<Entry>) {
    NextSlot(s) < TWO_32 && NextSlot(s) < |s.entries| && |spare| == |s.entries|
  }

  function AssignedGen(s: PidState): Word
    requires NextSlot(s) < |s.entries|
  {
    Wrap(s.entries[NextSlot(s)].gen + 1)
  }

  function AssignPid(s: PidState, proc: Word, spare: seq<Entry>): (PidState, Word)
    requires CanAssign(s, spare)
  {
    var slot := NextSlot(s);
    var entries := Grown(s.entries, slot, spare);
    var gen := Wrap(entries[slot].gen + 1);
    var s1 := PidState(entries[slot := Entry(gen, proc)],
                       if s.free == [] then s.len + 1 else s.len,
                       if s.free == [] then [] else s.free[..|s.free| - 1]);
    (s1, Pack(gen, slot))
  }

  /** The slot's actor when the generations match, else 0. */
  function Lookup(s: PidState, pid: Word): Word
    requires SlotOf(pid) < |s.entries|
  {
    var e := s.entries[SlotOf(pid)];
    if e.gen == GenOf(pid) then e.proc else 0
  }

  function ClearPid(s: PidState, pid: Word): PidState
    requires SlotOf(pid) < |s.entries|
  {
    var slot := SlotOf(pid);
    s.(entries := s.entries[slot := s.entries[slot].(proc := 0)],
       free := if slot != 0 then s.free + [slot] else s.free)
  }

  // ---------- What the table keeps over a run ----------

  /** Who lives under which pid, and every pid ever issued. */
  datatype Book = Book(live: map<Word, Word>, issued: set<Word>)

  predicate InRange(s: PidState, slot: nat) {
    0 < slot < s.len
  }

  /** Live slots and recycled slots share out 1 .. len; slot 0 is the null entry. */
  ghost predicate Partitioned(s: PidState) {
    && 1 <= s.len < |s.entries| && s.len <= TWO_32
    && s.entries[0] == Entry(0, 0)
    && NoDup(s.free) && (forall i :: 0 <= i < |s.free| ==> InRange(s, s.free[i]))
    && (forall slot: nat :: InRange(s, slot) ==> (slot in s.free <==> s.entries[slot].proc == 0))
    && (forall slot: nat :: InRange(s, slot) ==> s.entries[slot].gen < TWO_32)
  }

  /** Issued pids name slots in use, with a generation that has been reached. */
  ghost predicate IssuedReached(s: PidState, b: Book) {
    forall pid :: pid in b.issued ==>
      InRange(s, SlotOf(pid)) && SlotOf(pid) < |s.entries| && 1 <= GenOf(pid) <= s.entries[SlotOf(pid)].gen
  }

  /** A live pid's slot holds its generation and its actor. */
  ghost predicate LiveStored(s: PidState, b: Book) {
    forall pid :: pid in b.live ==>
      && pid in b.issued && b.live[pid] != 0
      && SlotOf(pid) < |s.entries| && s.entries[SlotOf(pid)] == Entry(GenOf(pid), b.live[pid])
  }

  /** An occupied slot's pid is live. */
  ghost predicate OccupiedLive(s: PidState, b: Book) {
    forall slot: nat :: InRange(s, slot) && slot < |s.entries| && slot < TWO_32 && s.entries[slot].proc != 0 ==>
      Pack(s.entries[slot].gen, slot) in b.live
  }

  ghost predicate Booked(s: PidState, b: Book) {
    IssuedReached(s, b) && LiveStored(s, b) && OccupiedLive(s, b)
  }

  ghost predicate Sound(s: PidState, b: Book) {
    Partitioned(s) && Booked(s, b)
  }

  /** The null entry alone: what start-up leaves, given zeroed memory. */
  lemma InitiallySound(cap: nat)
    requires 1 < cap
    ensures Sound(PidState(seq(cap, _ => Entry(0, 0)), 1, []), Book(map[], {}))
  {
  }

  /** Room for one more pid: the slot index fits its half, and the slot's next generation does too. */
  predicate Fits(s: PidState, spare: seq<Entry>) {
    && NextSlot(s) + 1 < TWO_32 && |spare| == |s.entries|
    && NextSlot(s) < |s.entries| && s.entries[NextSlot(s)].gen + 1 < TWO_32
  }

  function BookAssign(b: Book, pid: Word, proc: Word): Book {
    Book(b.live[pid := proc], b.issued + {pid})
  }

  function BookClear(b: Book, pid: Word): Book {
    Book(b.live - {pid}, b.issued)
  }

  lemma GenSlot(pid: Word, gen: Word, slot: nat)
    requires slot < TWO_32 && gen < TWO_32
    ensures pid == Pack(gen, slot) <==> SlotOf(pid) == slot && GenOf(pid) == gen
  {
    PackExact(gen, slot);
    SamePid(pid, Pack(gen, slot));
  }

  /** No other pid has these two halves. */
  lemma OnePid(gen: Word, slot: nat)
    requires slot < TWO_32 && gen < TWO_32
    ensures forall p: Word :: p == Pack(gen, slot) <==> SlotOf(p) == slot && GenOf(p) == gen
  {
    hide *;
    forall p: Word ensures p == Pack(gen, slot) <==> SlotOf(p) == slot && GenOf(p) == gen {
      GenSlot(p, gen, slot);
    }
  }

  /** A pid is its two halves. */
  lemma SamePid(p: Word, q: Word)
    ensures p == q <==> SlotOf(p) == SlotOf(q) && GenOf(p) == GenOf(q)
  {
    assert p == GenOf(p) * TWO_32 + SlotOf(p) && q == GenOf(q) * TWO_32 + SlotOf(q);
  }

  /** A new pid was never issued before, and everything stays sound. */
  lemma AssignKeeps(s: PidState, b: Book, proc: Word, spare: seq<Entry>)
    requires Sound(s, b) && proc != 0 && Fits(s, spare)
    ensures CanAssign(s, spare)
    ensures var (s1, pid) := AssignPid(s, proc, spare);
      pid != 0 && pid !in b.issued && Sound(s1, BookAssign(b, pid, proc))
  {
    hide SlotOf, GenOf, Pack, IssuedReached, LiveStored, OccupiedLive, Booked;
    AssignPartitioned(s, proc, spare);
    var slot, gen := NextSlot(s), s.entries[NextSlot(s)].gen + 1;
    assert AssignedGen(s) == gen by { hide *; NoWrap(s.entries[NextSlot(s)].gen); }
    OnePid(gen, slot);
    AssignBooked(s, b, proc, spare, gen, Pack(gen, slot));
    ZeroPid();
  }

  lemma NoWrap(n: Word)
    requires n + 1 < TWO_32
    ensures Wrap(n + 1) == n + 1
  {
  }

  lemma ZeroPid()
    ensures SlotOf(0) == 0
  {
  }

  lemma AssignPartitioned(s: PidState, proc: Word, spare: seq<Entry>)
    requires Partitioned(s) && proc != 0 && Fits(s, spare)
    ensures CanAssign(s, spare) && Partitioned(AssignPid(s, proc, spare).0)
  {
    var slot := NextSlot(s);
    if s.free != [] {
      assert InRange(s, s.free[|s.free| - 1]);
    }
    var s1 := AssignPid(s, proc, spare).0;
    forall t: nat | InRange(s1, t)
      ensures t in s1.free <==> s1.entries[t].proc == 0
      ensures s1.entries[t].gen < TWO_32
    {
      if t != slot {
        assert InRange(s, t) && s1.entries[t] == s.entries[t];
        if s.free != [] {
          assert s.free == s1.free + [slot];
        }
      } else {
        assert t !in s1.free;
      }
    }
  }

  lemma AssignBooked(s: PidState, b: Book, proc: Word, spare: seq<Entry>, gen: Word, pid: Word)
    requires Sound(s, b) && proc != 0 && Fits(s, spare) && CanAssign(s, spare)
    requires AssignPid(s, proc, spare).1 == pid
    requires gen == s.entries[NextSlot(s)].gen + 1 < TWO_32 && AssignedGen(s) == gen
    requires pid == Pack(gen, NextSlot(s))
    requires forall p: Word :: p == pid <==> SlotOf(p) == NextSlot(s) && GenOf(p) == gen
    ensures Booked(AssignPid(s, proc, spare).0, BookAssign(b, pid, proc))
    ensures pid !in b.issued
  {
    hide SlotOf, GenOf, Pack, AssignPid, IssuedReached, LiveStored, OccupiedLive, Partitioned, AssignedGen;
    AssignedEntries(s, proc, spare, gen);
    NotLiveThere(s, b, spare);
    NotYetIssued(s, b, pid, gen);
    SlotsInTable(s);
    AssignIssued(s, AssignPid(s, proc, spare).0, b, proc, gen, pid);
    AssignLive(s, AssignPid(s, proc, spare).0, b, proc, gen, pid);
    AssignOccupied(s, AssignPid(s, proc, spare).0, b, proc, gen, pid);
  }

  lemma NotYetIssued(s: PidState, b: Book, pid: Word, gen: Word)
    requires IssuedReached(s, b) && NextSlot(s) < |s.entries|
    requires gen == s.entries[NextSlot(s)].gen + 1 && SlotOf(pid) == NextSlot(s) && GenOf(pid) == gen
    ensures pid !in b.issued
  {
    hide SlotOf, GenOf, NextSlot;
  }

  lemma SlotsInTable(s: PidState)
    requires Partitioned(s)
    ensures forall t: nat :: InRange(s, t) ==> t < |s.entries|
  {
  }

  /** The slot to be assigned is nobody's. */
  lemma NotLiveThere(s: PidState, b: Book, spare: seq<Entry>)
    requires Sound(s, b) && Fits(s, spare)
    ensures forall p :: p in b.live ==> SlotOf(p) != NextSlot(s)
  {
    hide SlotOf, GenOf, Pack, OccupiedLive;
    if s.free != [] {
      assert InRange(s, s.free[|s.free| - 1]) && NextSlot(s) in s.free;
    }
    forall p | p in b.live ensures SlotOf(p) != NextSlot(s) {
      assert p in b.issued;
    }
  }

  /** `s1` is `s` with the next slot given to `proc` under generation `gen`. */
  ghost predicate GivenTo(s: PidState, s1: PidState, proc: Word, gen: Word) {
    && |s1.entries| >= |s.entries| && NextSlot(s) < |s.entries| && s1.entries[NextSlot(s)] == Entry(gen, proc)
    && (forall t: nat :: t < |s.entries| && t != NextSlot(s) ==> s1.entries[t] == s.entries[t])
    && (forall t: nat :: InRange(s1, t) <==> InRange(s, t) || t == NextSlot(s))
  }

  lemma AssignIssued(s: PidState, s1: PidState, b: Book, proc: Word, gen: Word, pid: Word)
    requires GivenTo(s, s1, proc, gen) && IssuedReached(s, b)
    requires gen == s.entries[NextSlot(s)].gen + 1 && SlotOf(pid) == NextSlot(s) && GenOf(pid) == gen
    ensures IssuedReached(s1, BookAssign(b, pid, proc))
  {
    hide SlotOf, GenOf, NextSlot, InRange;
  }

  lemma AssignLive(s: PidState, s1: PidState, b: Book, proc: Word, gen: Word, pid: Word)
    requires GivenTo(s, s1, proc, gen) && LiveStored(s, b) && proc != 0
    requires SlotOf(pid) == NextSlot(s) && GenOf(pid) == gen
    requires forall p :: p in b.live ==> SlotOf(p) != NextSlot(s)
    ensures LiveStored(s1, BookAssign(b, pid, proc))
  {
    hide SlotOf, GenOf, NextSlot, InRange;
  }

  lemma AssignOccupied(s: PidState, s1: PidState, b: Book, proc: Word, gen: Word, pid: Word)
    requires GivenTo(s, s1, proc, gen) && OccupiedLive(s, b) && (forall t: nat :: InRange(s, t) ==> t < |s.entries|)
    requires NextSlot(s) < TWO_32 && pid == Pack(gen, NextSlot(s))
    ensures OccupiedLive(s1, BookAssign(b, pid, proc))
  {
    hide SlotOf, GenOf, NextSlot, InRange, Pack;
    var b1 := BookAssign(b, pid, proc);
    forall t: nat | InRange(s1, t) && t < |s1.entries| && t < TWO_32 && s1.entries[t].proc != 0
      ensures Pack(s1.entries[t].gen, t) in b1.live
    {
      if t != NextSlot(s) {
        assert InRange(s, t) && s1.entries[t] == s.entries[t];
      }
    }
  }

  /** The one entry that changes. */
  lemma AssignedEntries(s: PidState, proc: Word, spare: seq<Entry>, gen: Word)
    requires Partitioned(s) && Fits(s, spare) && CanAssign(s, spare) && AssignedGen(s) == gen
    ensures GivenTo(s, AssignPid(s, proc, spare).0, proc, gen)
  {
    if s.free != [] {
      assert InRange(s, s.free[|s.free| - 1]);
    }
  }

  /**
   * The slot cleared last is given out next, one generation on, and the stack below it is as it was.
   */
  lemma Reused(s: PidState, b: Book, pid: Word, proc: Word, spare: seq<Entry>)
    requires Sound(s, b) && pid in b.live && proc != 0 && Fits(ClearPid(s, pid), spare)
    ensures CanAssign(ClearPid(s, pid), spare)
    ensures var (s1, pid1) := AssignPid(ClearPid(s, pid), proc, spare);
      pid1 == pid + TWO_32 && s1.free == s.free && s1.len == s.len
  {
    hide Pack, SlotOf, GenOf, Sound, AssignPid, AssignedGen, ClearPid;
    LiveInRange(s, b, pid);
    ClearedOnTop(s, pid, spare);
    TakesTop(ClearPid(s, pid), proc, spare, GenOf(pid));
    NextGeneration(pid, GenOf(pid), SlotOf(pid));
  }

  lemma ClearedOnTop(s: PidState, pid: Word, spare: seq<Entry>)
    requires 0 < SlotOf(pid) < |s.entries|
    ensures var s0 := ClearPid(s, pid);
      && s0.free == s.free + [SlotOf(pid)] && s0.len == s.len && NextSlot(s0) == SlotOf(pid)
      && |s0.entries| == |s.entries| && s0.entries[SlotOf(pid)].gen == s.entries[SlotOf(pid)].gen
  {
    hide SlotOf;
  }

  lemma TakesTop(s: PidState, proc: Word, spare: seq<Entry>, gen: Word)
    requires CanAssign(s, spare) && s.free != [] && s.entries[NextSlot(s)].gen == gen && gen + 1 < TWO_32
    ensures var (s1, pid) := AssignPid(s, proc, spare);
      pid == Pack(gen + 1, NextSlot(s)) && s1.free == s.free[..|s.free| - 1] && s1.len == s.len
  {
    hide Pack, Wrap;
    NoWrap(gen);
  }

  lemma LiveInRange(s: PidState, b: Book, pid: Word)
    requires Sound(s, b) && pid in b.live
    ensures 0 < SlotOf(pid) < |s.entries| && s.entries[SlotOf(pid)].gen == GenOf(pid) < TWO_32
  {
    hide SlotOf, GenOf, OccupiedLive;
    assert InRange(s, SlotOf(pid));
  }

  lemma NextGeneration(pid: Word, gen: Word, slot: nat)
    requires gen + 1 < TWO_32 && slot == SlotOf(pid) && gen == GenOf(pid)
    ensures slot < TWO_32 && Pack(gen + 1, slot) == pid + TWO_32
  {
    assert pid == gen * TWO_32 + slot;
    assert (gen + 1) * TWO_32 < TWO_32 * TWO_32 == TWO_64;
  }

  /** Without a recycled slot the new one is the first never used; otherwise it is the recycled one on top. */
  lemma FreshOnlyWhenNoneFree(s: PidState, b: Book, proc: Word, spare: seq<Entry>)
    requires Sound(s, b) && proc != 0 && Fits(s, spare) && CanAssign(s, spare)
    ensures var (s1, pid) := AssignPid(s, proc, spare);
      && (s.free == [] ==> SlotOf(pid) == s.len && s1.len == s.len + 1 && s1.free == [])
      && (s.free != [] ==> s.free == s1.free + [SlotOf(pid)] && s1.len == s.len)
      && GenOf(pid) == s.entries[SlotOf(pid)].gen + 1
  {
    hide Pack, OccupiedLive, IssuedReached, SlotOf, GenOf, LiveStored;
    var slot, gen := NextSlot(s), s.entries[NextSlot(s)].gen;
    NoWrap(gen);
    PackExact(gen + 1, slot);
  }

  /** Clearing a live pid frees its slot and keeps every other actor reachable. */
  lemma ClearKeeps(s: PidState, b: Book, pid: Word)
    requires Sound(s, b) && pid in b.live
    ensures SlotOf(pid) < |s.entries| && Sound(ClearPid(s, pid), BookClear(b, pid))
  {
    hide SlotOf, GenOf, Pack, Partitioned, OccupiedLive;
    assert pid in b.issued;
    ClearPartitioned(s, SlotOf(pid), pid);
    forall p | p in BookClear(b, pid).live ensures SlotOf(p) != SlotOf(pid) {
      SamePid(p, pid);
    }
    ClearOccupied(s, b, pid);
  }

  lemma ClearPartitioned(s: PidState, slot: nat, pid: Word)
    requires Partitioned(s) && InRange(s, slot) && slot == SlotOf(pid) && s.entries[slot].proc != 0
    ensures Partitioned(ClearPid(s, pid))
  {
    hide SlotOf;
    var s1 := ClearPid(s, pid);
    assert slot !in s.free;
    forall t: nat | InRange(s1, t) ensures t in s1.free <==> s1.entries[t].proc == 0 {
      assert InRange(s, t);
      assert s1.free[|s.free|] == slot;
    }
  }

  lemma ClearOccupied(s: PidState, b: Book, pid: Word)
    requires OccupiedLive(s, b) && SlotOf(pid) < |s.entries|
    ensures OccupiedLive(ClearPid(s, pid), BookClear(b, pid))
  {
    hide SlotOf, GenOf, Pack;
    var s1, b1 := ClearPid(s, pid), BookClear(b, pid);
    forall t: nat | InRange(s1, t) && t < |s1.entries| && t < TWO_32 && s1.entries[t].proc != 0
      ensures Pack(s1.entries[t].gen, t) in b1.live
    {
      assert t != SlotOf(pid) && InRange(s, t) && s1.entries[t] == s.entries[t];
      PackedSlot(s.entries[t].gen, t);
    }
  }

  lemma PackedSlot(gen: Word, slot: nat)
    requires slot < TWO_32
    ensures SlotOf(Pack(gen, slot)) == slot
  {
    PackExact(gen, slot);
  }

  /** A lookup finds an actor exactly under its own pid while it lives; null and dead pids find nothing. */
  lemma LookupExact(s: PidState, b: Book, pid: Word)
    requires Sound(s, b) && (pid == 0 || pid in b.issued)
    ensures SlotOf(pid) < |s.entries|
    ensures Lookup(s, pid) == if pid in b.live then b.live[pid] else 0
  {
    if pid != 0 && Lookup(s, pid) != 0 {
      GenSlot(pid, s.entries[SlotOf(pid)].gen, SlotOf(pid));
    }
  }

  /** Distinct live pids belong to distinct slots. */
  lemma LiveSlotsDiffer(s: PidState, b: Book, p: Word, q: Word)
    requires Sound(s, b) && p in b.live && q in b.live && p != q
    ensures SlotOf(p) != SlotOf(q)
  {
    hide SlotOf, GenOf;
    SamePid(p, q);
  }

  /** The actor just assigned is found under its pid if and only if its generation fits 32 bits. */
  lemma AssignedIsFound(s: PidState, proc: Word, spare: seq<Entry>)
    requires CanAssign(s, spare) && proc != 0
    ensures var (s1, pid) := AssignPid(s, proc, spare);
      && SlotOf(pid) < |s1.entries|
      && (Lookup(s1, pid) == proc <==> AssignedGen(s) < TWO_32)
  {
    PackExact(AssignedGen(s), NextSlot(s));
  }

  // ---------- Runs ----------

  datatype PidOp = Assign(proc: Word, spare: seq<Entry>) | Clear(pid: Word)

  ghost predicate Allowed(s: PidState, b: Book, op: PidOp) {
    match op
    case Assign(proc, spare) => proc != 0 && Fits(s, spare)
    case Clear(pid) => pid in b.live
  }

  ghost function Do(s: PidState, b: Book, op: PidOp): (r: (PidState, Book))
    requires Sound(s, b) && Allowed(s, b, op)
    ensures Sound(r.0, r.1)
  {
    match op
    case Assign(proc, spare) =>
      AssignKeeps(s, b, proc, spare);
      var (s1, pid) := AssignPid(s, proc, spare);
      (s1, BookAssign(b, pid, proc))
    case Clear(pid) =>
      ClearKeeps(s, b, pid);
      (ClearPid(s, pid), BookClear(b, pid))
  }

  ghost predicate IsRun(s: PidState, b: Book, ops: seq<PidOp>)
    requires Sound(s, b)
    decreases |ops|
  {
    ops == [] || (Allowed(s, b, ops[0]) && (var (s1, b1) := Do(s, b, ops[0]); IsRun(s1, b1, ops[1..])))
  }

  ghost function After(s: PidState, b: Book, ops: seq<PidOp>): (PidState, Book)
    requires Sound(s, b) && IsRun(s, b, ops)
    decreases |ops|
  {
    if ops == [] then (s, b) else var (s1, b1) := Do(s, b, ops[0]); After(s1, b1, ops[1..])
  }

  /** Over any run: pids issued so far stay issued, and lookups stay exact. */
  lemma {:induction false} RunSound(s: PidState, b: Book, ops: seq<PidOp>, pid: Word)
    requires Sound(s, b) && IsRun(s, b, ops)
    ensures var (s1, b1) := After(s, b, ops);
      && Sound(s1, b1) && b.issued <= b1.issued
      && (pid == 0 || pid in b1.issued ==>
            SlotOf(pid) < |s1.entries| && Lookup(s1, pid) == if pid in b1.live then b1.live[pid] else 0)
    decreases |ops|
  {
    if ops == [] {
      if pid == 0 || pid in b.issued {
        LookupExact(s, b, pid);
      }
    } else {
      var (s1, b1) := Do(s, b, ops[0]);
      RunSound(s1, b1, ops[1..], pid);
    }
  }

  /** A dead actor's pid never comes back: once issued and no longer live, it stays so. */
  lemma {:induction false} DeadStaysDead(s: PidState, b: Book, ops: seq<PidOp>, pid: Word)
    requires Sound(s, b) && IsRun(s, b, ops) && pid in b.issued && pid !in b.live
    ensures var (s1, b1) := After(s, b, ops);
      pid !in b1.live && SlotOf(pid) < |s1.entries| && Lookup(s1, pid) == 0
    decreases |ops|
  {
    if ops == [] {
      LookupExact(s, b, pid);
    } else {
      if ops[0].Assign? {
        AssignKeeps(s, b, ops[0].proc, ops[0].spare);
      }
      var (s1, b1) := Do(s, b, ops[0]);
      DeadStaysDead(s1, b1, ops[1..], pid);
    }
  }
}
