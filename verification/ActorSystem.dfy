/** The actor runtime as one state machine: queues, pids and mailboxes over every run of spawn, send, wait, park and die. */
module ActorSystem {
  import opened Words
  import opened Pids
  import opened FiniteSets
  import opened Queues

  const MAX_PENDING: int := 255

  /** What the run-time keeps per actor: its pid, the words pending in its mailbox, its word register. */
  datatype Actor = Actor(pid: Word, box: seq<Word>, temp: Word)

  /** `actors` maps the context address of every actor that has been spawned and has not died. */
  datatype Sys = Sys(q: Queues, pids: PidState, book: Book, actors: map<Word, Actor>)

  /**
   * What can happen: inside the current actor's slice it spawns, sends or takes a message; its slice ends by a yield,
   * a wait, its death or an I/O park; between slices a parked actor's request completes.
   */
  datatype Event =
    | Spawn(proc: Word, spare: seq<Entry>)
    | SendTo(pid: Word, words: seq<Word>)
    | Receive(n: nat)
    | Yield
    | Wait
    | Die
    | ParkIo
    | Complete(proc: Word, res: Word)

  function Current(s: Sys): Word
    requires s.q.cur < |s.q.run|
  {
    s.q.run[s.q.cur]
  }

  ghost predicate Enabled(s: Sys, e: Event) {
    if e.Complete? then e.proc in s.q.parked && e.proc in s.actors else
    && s.q.cur < |s.q.run| && Current(s) in s.actors
    && match e
       case Spawn(proc, spare) => proc != 0 && proc !in s.actors && CanAssign(s.pids, spare) && Fits(s.pids, spare)
       case SendTo(pid, words) =>
         && (pid == 0 || pid in s.book.issued) && SlotOf(pid) < |s.pids.entries|
         && (var p := Lookup(s.pids, pid);
             p != 0 ==> p in s.actors && |s.actors[p].box| + |words| <= MAX_PENDING)
       case Receive(n) => s.actors[Current(s)].box != [] && n <= |s.actors[Current(s)].box|
       case Wait => s.actors[Current(s)].box == []
       case Die => SlotOf(s.actors[Current(s)].pid) < |s.pids.entries|
       case _ => true
  }

  /** A send to an actor that is alive: enqueue, then wake it if it waits. */
  function Delivered(s: Sys, pid: Word, p: Word, words: seq<Word>): Sys
    requires p in s.actors
  {
    var a := s.actors[p];
    s.(actors := s.actors[p := a.(box := a.box + words)],
       q := if pid in s.q.waiting then AddRunnable(StopWaiting(s.q, pid), p) else s.q)
  }

  ghost function Step(s: Sys, e: Event): Sys
    requires Enabled(s, e)
  {
    match e
    case Spawn(proc, spare) =>
      var (pids, pid) := AssignPid(s.pids, proc, spare);
      Sys(AddRunnable(s.q, proc), pids, BookAssign(s.book, pid, proc), s.actors[proc := Actor(pid, [], 0)])
    case SendTo(pid, words) =>
      var p := Lookup(s.pids, pid);
      if p == 0 then s else Delivered(s, pid, p, words)
    case Receive(n) =>
      var a := s.actors[Current(s)];
      s.(actors := s.actors[Current(s) := a.(box := a.box[n..])])
    case Yield => s.(q := Advance(s.q))
    case Wait => s.(q := DropCurrent(AddWaiting(s.q, s.actors[Current(s)].pid)))
    case Die =>
      var pid := s.actors[Current(s)].pid;
      Sys(DropCurrent(s.q), ClearPid(s.pids, pid), BookClear(s.book, pid), s.actors - {Current(s)})
    case ParkIo => s.(q := Park(s.q))
    case Complete(proc, res) =>
      s.(q := Unpark(s.q, proc), actors := s.actors[proc := s.actors[proc].(temp := res)])
  }

  // ---------- Invariants ----------

  /** Actors and live pids correspond one to one. */
  ghost predicate Named(s: Sys) {
    && Sound(s.pids, s.book)
    && (forall p :: p in s.actors ==>
          p != 0 && s.actors[p].pid in s.book.live && s.book.live[s.actors[p].pid] == p)
    && (forall pid :: pid in s.book.live ==>
          s.book.live[pid] in s.actors && s.actors[s.book.live[pid]].pid == pid)
  }

  predicate Waits(s: Sys, p: Word)
    requires p in s.actors
  {
    s.actors[p].pid in s.q.waiting
  }

  /** In one of the three places and in no other. */
  predicate InOnePlace(s: Sys, p: Word)
    requires p in s.actors
  {
    || (p in s.q.run && !Waits(s, p) && p !in s.q.parked)
    || (p !in s.q.run && Waits(s, p) && p !in s.q.parked)
    || (p !in s.q.run && !Waits(s, p) && p in s.q.parked)
  }

  /** Every actor is in exactly one list, exactly once, and the lists hold nothing else. */
  ghost predicate Conserved(s: Sys) {
    && CursorIn(s.q) && NoDup(s.q.run) && NoDup(s.q.waiting) && NoDup(s.q.parked)
    && (forall p :: p in s.q.run || p in s.q.parked ==> p in s.actors)
    && (forall pid :: pid in s.q.waiting ==> pid in s.book.live)
    && (forall p :: p in s.actors ==> InOnePlace(s, p))
  }

  /** Who waits has nothing to read. */
  ghost predicate NothingLost(s: Sys) {
    forall p :: p in s.actors && Waits(s, p) ==> s.actors[p].box == []
  }

  ghost predicate Inv(s: Sys) {
    Named(s) && Conserved(s) && NothingLost(s)
  }

  // ---------- Every step keeps them ----------

  lemma AddedSet(s: seq<Word>, x: Word)
    requires NoDup(s) && x !in s
    ensures NoDup(s + [x])
    ensures forall y :: y in s + [x] <==> y in s || y == x
  {
  }

  lemma SpawnKeeps(s: Sys, proc: Word, spare: seq<Entry>)
    requires Inv(s) && Enabled(s, Spawn(proc, spare))
    ensures Inv(Step(s, Spawn(proc, spare)))
  {
    hide Sound, Lookup, AssignPid, Fits, CanAssign, SlotOf;
    SpawnNames(s, proc, spare);
    AddedSet(s.q.run, proc);
    var s1 := Step(s, Spawn(proc, spare));
    var pid := s1.actors[proc].pid;
    assert pid !in s.q.waiting by { SpawnIsNew(s, proc, spare); }
    forall p | p in s1.actors ensures InOnePlace(s1, p) {
      if p != proc {
        assert InOnePlace(s, p);
      }
    }
  }

  lemma SpawnIsNew(s: Sys, proc: Word, spare: seq<Entry>)
    requires Inv(s) && Enabled(s, Spawn(proc, spare))
    ensures AssignPid(s.pids, proc, spare).1 !in s.book.live
  {
    hide AssignPid, Partitioned, IssuedReached, OccupiedLive, SlotOf, Lookup;
    AssignKeeps(s.pids, s.book, proc, spare);
  }

  lemma SpawnNames(s: Sys, proc: Word, spare: seq<Entry>)
    requires Inv(s) && Enabled(s, Spawn(proc, spare))
    ensures Named(Step(s, Spawn(proc, spare)))
  {
    hide Sound, Lookup, AssignPid, Fits, CanAssign, SlotOf;
    AssignKeeps(s.pids, s.book, proc, spare);
    SpawnIsNew(s, proc, spare);
  }

  /** What a live pid finds. */
  lemma Found(s: Sys, pid: Word)
    requires Inv(s) && (pid == 0 || pid in s.book.issued) && SlotOf(pid) < |s.pids.entries|
    ensures var p := Lookup(s.pids, pid);
      p != 0 ==> p in s.actors && s.actors[p].pid == pid && pid in s.book.live
  {
    hide Sound, Lookup, SlotOf;
    LookupExact(s.pids, s.book, pid);
  }

  lemma SendKeeps(s: Sys, pid: Word, words: seq<Word>)
    requires Inv(s) && Enabled(s, SendTo(pid, words))
    ensures Inv(Step(s, SendTo(pid, words)))
  {
    hide Sound, Lookup, SlotOf, Index;
    Found(s, pid);
    var p := Lookup(s.pids, pid);
    if p != 0 {
      DeliverKeeps(s, pid, p, words);
    }
  }

  lemma DeliverKeeps(s: Sys, pid: Word, p: Word, words: seq<Word>)
    requires Inv(s) && p in s.actors && s.actors[p].pid == pid
    ensures Inv(Delivered(s, pid, p, words))
  {
    hide Sound, Index;
    var s1 := Delivered(s, pid, p, words);
    assert InOnePlace(s, p);
    if pid in s.q.waiting {
      PoppedSet(s.q.waiting, Index(s.q.waiting, pid));
      AddedSet(s.q.run, p);
    }
    forall r | r in s1.actors ensures InOnePlace(s1, r) {
      assert InOnePlace(s, r);
    }
  }

  lemma ReceiveKeeps(s: Sys, n: nat)
    requires Inv(s) && Enabled(s, Receive(n))
    ensures Inv(Step(s, Receive(n)))
  {
    hide Sound;
    var s1 := Step(s, Receive(n));
    forall r | r in s1.actors ensures InOnePlace(s1, r) {
      assert InOnePlace(s, r);
    }
  }

  lemma YieldKeeps(s: Sys)
    requires Inv(s) && Enabled(s, Yield)
    ensures Inv(Step(s, Yield))
  {
    hide Sound;
    var s1 := Step(s, Yield);
    forall r | r in s1.actors ensures InOnePlace(s1, r) {
      assert InOnePlace(s, r);
    }
  }

  lemma WaitKeeps(s: Sys)
    requires Inv(s) && Enabled(s, Wait)
    ensures Inv(Step(s, Wait))
  {
    hide Sound;
    var c := Current(s);
    var s1 := Step(s, Wait);
    assert InOnePlace(s, c);
    PoppedSet(s.q.run, s.q.cur);
    AddedSet(s.q.waiting, s.actors[c].pid);
    forall r | r in s1.actors ensures InOnePlace(s1, r) {
      assert InOnePlace(s, r);
    }
  }

  lemma ParkKeeps(s: Sys)
    requires Inv(s) && Enabled(s, ParkIo)
    ensures Inv(Step(s, ParkIo))
  {
    hide Sound;
    var c := Current(s);
    var s1 := Step(s, ParkIo);
    assert InOnePlace(s, c);
    PoppedSet(s.q.run, s.q.cur);
    AddedSet(s.q.parked, c);
    forall r | r in s1.actors ensures InOnePlace(s1, r) {
      assert InOnePlace(s, r);
    }
  }

  lemma CompleteKeeps(s: Sys, proc: Word, res: Word)
    requires Inv(s) && Enabled(s, Complete(proc, res))
    ensures Inv(Step(s, Complete(proc, res)))
  {
    hide Sound, Index;
    var s1 := Step(s, Complete(proc, res));
    assert InOnePlace(s, proc);
    PoppedSet(s.q.parked, Index(s.q.parked, proc));
    AddedSet(s.q.run, proc);
    forall r | r in s1.actors ensures InOnePlace(s1, r) {
      assert InOnePlace(s, r);
    }
  }

  lemma DieNames(s: Sys)
    requires Inv(s) && Enabled(s, Die)
    ensures Named(Step(s, Die))
  {
    hide Sound, ClearPid, SlotOf, DropCurrent, Conserved, NothingLost;
    ClearKeeps(s.pids, s.book, s.actors[Current(s)].pid);
  }

  /** The lists after the current actor has left. */
  lemma Dropped(s: Sys)
    requires Inv(s) && s.q.cur < |s.q.run|
    ensures var q := DropCurrent(s.q);
      && NoDup(q.run) && CursorIn(q) && q.waiting == s.q.waiting && q.parked == s.q.parked
      && forall p :: p in q.run <==> p in s.q.run && p != Current(s)
  {
    hide Inv, NoDup;
    RunDistinct(s);
    PoppedSet(s.q.run, s.q.cur);
  }

  lemma DieKeeps(s: Sys)
    requires Inv(s) && Enabled(s, Die)
    ensures Inv(Step(s, Die))
  {
    hide Sound, ClearPid, SlotOf, NoDup, CursorIn, DropCurrent;
    var c := Current(s);
    var s1 := Step(s, Die);
    assert InOnePlace(s, c);
    DieNames(s);
    Dropped(s);
    forall pid | pid in s.q.waiting ensures pid in s1.book.live {
    }
    forall r | r in s1.actors ensures InOnePlace(s1, r) {
      assert InOnePlace(s, r);
    }
  }

  lemma StepKeeps(s: Sys, e: Event)
    requires Inv(s) && Enabled(s, e)
    ensures Inv(Step(s, e))
  {
    hide Inv, Enabled, Step;
    match e
    case Spawn(proc, spare) => SpawnKeeps(s, proc, spare);
    case SendTo(pid, words) => SendKeeps(s, pid, words);
    case Receive(n) => ReceiveKeeps(s, n);
    case Yield => YieldKeeps(s);
    case Wait => WaitKeeps(s);
    case Die => DieKeeps(s);
    case ParkIo => ParkKeeps(s);
    case Complete(proc, res) => CompleteKeeps(s, proc, res);
  }

  // ---------- Whose slice it is ----------

  /** While its slice lasts, an actor stays the current one: it spawns, sends and receives at the same place. */
  lemma SliceIsItsOwn(s: Sys, e: Event)
    requires Inv(s) && Enabled(s, e) && (e.Spawn? || e.SendTo? || e.Receive?)
    ensures var s1 := Step(s, e);
      && s1.q.cur == s.q.cur < |s1.q.run| && Current(s1) == Current(s)
      && s.q.run <= s1.q.run && |s1.q.run| <= |s.q.run| + 1 && s1.q.parked == s.q.parked
  {
    hide Sound, Lookup, AssignPid, SlotOf, CanAssign, Fits, Index, Inv, Conserved;
  }

  predicate IsUp(q: Queues, p: Word) {
    q.cur < |q.run| && q.run[q.cur] == p
  }

  /**
   * Who runs next. After a yield the next one in the queue, around its end. After a wait or a death the actor that
   * fills the hole, or the first when the last one left. After parking always the first.
   */
  predicate TurnPasses(q: Queues, q1: Queues, e: Event)
    requires q.cur < |q.run|
  {
    var n, p := |q.run|, q.run[q.cur];
    if e.Yield? then q1.run == q.run && IsUp(q1, q.run[if q.cur == n - 1 then 0 else q.cur + 1])
    else
      && |q1.run| == n - 1 && p !in q1.run
      && q1.parked == (if e.ParkIo? then q.parked + [p] else q.parked)
      && (n > 1 ==>
            IsUp(q1, if e.ParkIo? then if q.cur == 0 then q.run[n - 1] else q.run[0]
                     else if q.cur == n - 1 then q.run[0] else q.run[n - 1]))
  }

  lemma NextUp(s: Sys, e: Event)
    requires Inv(s) && Enabled(s, e) && (e.Yield? || e.Wait? || e.Die? || e.ParkIo?)
    ensures TurnPasses(s.q, Step(s, e).q, e)
    ensures Step(s, e).q.waiting == if e.Wait? then s.q.waiting + [s.actors[Current(s)].pid] else s.q.waiting
  {
    hide Sound, ClearPid, SlotOf, Inv, NoDup;
    RunDistinct(s);
    PoppedSet(s.q.run, s.q.cur);
  }

  lemma RunDistinct(s: Sys)
    requires Inv(s)
    ensures NoDup(s.q.run)
  {
    hide Sound, NothingLost, InOnePlace;
  }

  /** A completion takes nobody's turn: it appends to the queue and hands its result to the actor it woke. */
  lemma CompletionWaitsItsTurn(s: Sys, proc: Word, res: Word)
    requires Inv(s) && Enabled(s, Complete(proc, res))
    ensures var s1 := Step(s, Complete(proc, res));
      && s1.q.cur == s.q.cur && s1.q.run == s.q.run + [proc] && s1.q.waiting == s.q.waiting
      && (s.q.run != [] ==> Current(s1) == Current(s))
      && proc !in s1.q.parked && |s1.q.parked| == |s.q.parked| - 1
      && s1.actors == s.actors[proc := s.actors[proc].(temp := res)]
      && s1.pids == s.pids && s1.book == s.book
  {
    hide Sound;
    PoppedSet(s.q.parked, Index(s.q.parked, proc));
  }

  // ---------- Runs ----------

  /** After `init_main_process`: `main` holds the first pid and is alone in the run queue. */
  ghost predicate Started(s: Sys, main: Word, cap: nat) {
    && 1 < cap && main != 0
    && var (pids, pid) := AssignPid(PidState(seq(cap, _ => Entry(0, 0)), 1, []), main, seq(cap, _ => Entry(0, 0)));
       s == Sys(Queues([main], 0, [], []), pids, BookAssign(Book(map[], {}), pid, main), map[main := Actor(pid, [], 0)])
  }

  lemma StartedInv(s: Sys, main: Word, cap: nat)
    requires Started(s, main, cap)
    ensures Inv(s)
  {
    hide Sound, AssignPid;
    InitiallySound(cap);
    var empty := seq(cap, _ => Entry(0, 0));
    AssignKeeps(PidState(empty, 1, []), Book(map[], {}), main, empty);
    assert InOnePlace(s, main);
  }

  /** States `run[0], run[1], ...` with the events between them. */
  ghost predicate IsHistory(run: seq<Sys>, events: seq<Event>) {
    && |run| == |events| + 1
    && forall i :: 0 <= i < |events| ==> Enabled(run[i], events[i]) && run[i + 1] == Step(run[i], events[i])
  }

  /** A run of the whole system, from start-up on. */
  ghost predicate FromStart(run: seq<Sys>, events: seq<Event>, main: Word, cap: nat) {
    IsHistory(run, events) && Started(run[0], main, cap)
  }

  lemma {:induction false} ReachableInv(run: seq<Sys>, events: seq<Event>, main: Word, cap: nat, k: nat)
    requires FromStart(run, events, main, cap) && k < |run|
    ensures Inv(run[k])
    decreases k
  {
    hide Inv, Enabled, Step, Started;
    if k == 0 {
      StartedInv(run[0], main, cap);
    } else {
      ReachableInv(run, events, main, cap, k - 1);
      assert Enabled(run[k - 1], events[k - 1]) && run[k - 1 + 1] == Step(run[k - 1], events[k - 1]);
      StepKeeps(run[k - 1], events[k - 1]);
    }
  }

  /** In every reachable state, empty lists mean that nobody is alive, and the other way round. */
  lemma ExitExact(run: seq<Sys>, events: seq<Event>, main: Word, cap: nat, k: nat)
    requires FromStart(run, events, main, cap) && k < |run|
    ensures run[k].q.run == [] && run[k].q.waiting == [] && run[k].q.parked == [] <==> run[k].actors == map[]
  {
    hide Sound, FromStart;
    ReachableInv(run, events, main, cap, k);
    var s := run[k];
    if s.actors != map[] {
      var p :| p in s.actors;
      assert InOnePlace(s, p);
    }
    if s.q.run != [] {
      assert s.q.run[0] in s.q.run;
    }
    if s.q.parked != [] {
      assert s.q.parked[0] in s.q.parked;
    }
    if s.q.waiting != [] {
      assert s.q.waiting[0] in s.q.waiting;
    }
  }

  /** No lost wake-up: in every reachable state an actor with a pending message is runnable or parked on I/O. */
  lemma PendingIsNotWaiting(run: seq<Sys>, events: seq<Event>, main: Word, cap: nat, k: nat, p: Word)
    requires FromStart(run, events, main, cap) && k < |run| && p in run[k].actors && run[k].actors[p].box != []
    ensures p in run[k].q.run || p in run[k].q.parked
    ensures run[k].actors[p].pid !in run[k].q.waiting
  {
    hide Sound, FromStart;
    ReachableInv(run, events, main, cap, k);
    assert InOnePlace(run[k], p);
  }

  lemma SentInRun(run: seq<Sys>, events: seq<Event>, main: Word, cap: nat, k: nat)
    requires FromStart(run, events, main, cap) && k < |events|
    ensures Inv(run[k]) && Enabled(run[k], events[k]) && run[k + 1] == Step(run[k], events[k])
  {
    hide Inv, Enabled, Step, Started;
    ReachableInv(run, events, main, cap, k);
  }

  /** In every run, a send to a waiting actor moves it to the end of the run queue, once, with the message. */
  lemma SendWakes(run: seq<Sys>, events: seq<Event>, main: Word, cap: nat, k: nat, pid: Word, words: seq<Word>)
    requires FromStart(run, events, main, cap) && k < |events| && events[k] == SendTo(pid, words)
    requires pid in run[k].q.waiting
    ensures pid in run[k].book.live
    ensures var s, s1, p := run[k], run[k + 1], run[k].book.live[pid];
      && s1.q.run == s.q.run + [p] && p !in s.q.run
      && pid !in s1.q.waiting && |s1.q.waiting| == |s.q.waiting| - 1
      && p in s1.actors && s1.actors[p].box == words
  {
    hide Sound, Lookup, SlotOf, Index, Started;
    SentInRun(run, events, main, cap, k);
    var s := run[k];
    assert pid in s.book.issued by { LiveIsIssued(s.pids, s.book, pid); }
    LookupExact(s.pids, s.book, pid);
    var p := s.book.live[pid];
    assert InOnePlace(s, p);
    PoppedSet(s.q.waiting, Index(s.q.waiting, pid));
    assert [] + words == words;
  }

  lemma LiveIsIssued(s: PidState, b: Book, pid: Word)
    requires Sound(s, b) && pid in b.live
    ensures pid in b.issued
  {
  }

  /** In every run, a send to the null pid or to a dead actor changes nothing. */
  lemma SendToNobody(run: seq<Sys>, events: seq<Event>, main: Word, cap: nat, k: nat, pid: Word, words: seq<Word>)
    requires FromStart(run, events, main, cap) && k < |events| && events[k] == SendTo(pid, words)
    ensures run[k + 1] == run[k] || pid in run[k].book.live
  {
    hide Sound, Lookup, SlotOf, Started;
    SentInRun(run, events, main, cap, k);
    LookupExact(run[k].pids, run[k].book, pid);
  }
}
