/** The runtime's operations on its arrays, put together slice by slice into the events of the state machine. */
module Runtime {
  import opened Words
  import opened Pids
  import opened Queues
  import opened ActorSystem
  import opened Scheduler
  import opened PidTable
  import opened Mailbox

  /** Scheduler and pid table hold the state's queues and pids, in arrays of their own. */
  ghost predicate Holding(s: Sys, sched: Sched, table: Table)
    reads sched, table, sched.processArr, sched.waitArr, sched.ioParked, table.entries, table.freeSlots
  {
    && Lists(sched) !! Slots(table) && sched.Valid() && table.Valid() && sched.View() == s.q && table.View() == s.pids
  }

  ghost function Lists(sched: Sched): set<object>
    reads sched
  {
    {sched, sched.processArr, sched.waitArr, sched.ioParked}
  }

  ghost function Slots(table: Table): set<object>
    reads table
  {
    {table, table.entries, table.freeSlots}
  }

  /** The mailbox ring of the actor at `p`. */
  ghost predicate BoxOf(s: Sys, p: Word, ring: Ring)
    reads ring, ring.cells
  {
    ring.Valid() && p in s.actors && ring.Queue() == s.actors[p].box
  }

  method CurrentActor(ghost s: Sys, sched: Sched, table: Table) returns (p: Word)
    requires Holding(s, sched, table) && s.q.cur < |s.q.run|
    ensures p == Current(s) && sched.last >= 0
  {
    p := sched.processArr[sched.current];
  }

  /** Spawn: a pid, an empty mailbox, a place at the end of the run queue. */
  method SpawnSlice(ghost s: Sys, sched: Sched, table: Table, proc: Word)
    returns (pid: Word, ring: Ring, ghost spare: seq<Entry>)
    requires Holding(s, sched, table) && s.q.cur < |s.q.run| && Current(s) in s.actors && proc != 0 && proc !in s.actors
    requires NextSlot(s.pids) + 1 < TWO_32 && NextSlot(s.pids) < |s.pids.entries|
    requires s.pids.entries[NextSlot(s.pids)].gen + 1 < TWO_32
    modifies sched, sched.processArr, table, table.entries
    ensures Enabled(s, Spawn(proc, spare)) && Holding(Step(s, Spawn(proc, spare)), sched, table)
    ensures fresh(ring) && BoxOf(Step(s, Spawn(proc, spare)), proc, ring)
    ensures Step(s, Spawn(proc, spare)).actors[proc].pid == pid
  {
    ring := new Ring();
    pid, spare := table.AssignPid(proc);
    sched.NewProcess(proc);
  }

  /** Send: look the pid up; for an actor that is alive, enqueue the words and wake it if it waits. */
  method SendSlice(ghost s: Sys, sched: Sched, table: Table, pid: Word, words: seq<Word>, ring: Ring)
    requires Holding(s, sched, table) && Enabled(s, SendTo(pid, words)) && Inv(s)
    requires Lookup(s.pids, pid) != 0 ==> BoxOf(s, Lookup(s.pids, pid), ring)
    requires {ring as object, ring.cells} !! Lists(sched) + Slots(table)
    modifies sched, sched.processArr, sched.waitArr, ring`tail, ring.cells
    ensures Holding(Step(s, SendTo(pid, words)), sched, table)
    ensures Lookup(s.pids, pid) != 0 ==> BoxOf(Step(s, SendTo(pid, words)), Lookup(s.pids, pid), ring)
  {
    hide Inv, Lookup, AddRunnable, StopWaiting;
    var p := table.Find(pid);
    if p != 0 {
      NobodyIsNull(s, pid, words);
      ring.Enqueue(words);
      sched.Wake(pid, table);
    }
  }

  /** What a lookup finds is not under the null pid. */
  lemma NobodyIsNull(s: Sys, pid: Word, words: seq<Word>)
    requires Inv(s) && Enabled(s, SendTo(pid, words)) && Lookup(s.pids, pid) != 0
    ensures pid != 0
  {
    hide Sound, Lookup, SlotOf, Conserved, NothingLost;
    LookupExact(s.pids, s.book, pid);
    NullNotLive(s.pids, s.book);
  }

  lemma NullNotLive(t: PidState, b: Book)
    requires Sound(t, b)
    ensures 0 !in b.live
  {
    hide OccupiedLive;
    assert SlotOf(0) == 0;
  }

  /** One message of `arity` words off the current actor's mailbox. */
  method ReceiveSlice(ghost s: Sys, sched: Sched, table: Table, arity: nat, ring: Ring) returns (words: seq<Word>)
    requires Holding(s, sched, table) && Enabled(s, Receive(arity)) && BoxOf(s, Current(s), ring)
    requires {ring as object, ring.cells} !! Lists(sched) + Slots(table)
    modifies ring`head
    ensures Holding(Step(s, Receive(arity)), sched, table) && BoxOf(Step(s, Receive(arity)), Current(s), ring)
    ensures words == s.actors[Current(s)].box[..arity]
  {
    ghost var before := ring.Queue();
    words := ring.Dequeue(arity);
    assert before[..arity] == words && before[arity..] == ring.Queue();
  }

  method YieldSlice(ghost s: Sys, sched: Sched, table: Table)
    requires Holding(s, sched, table) && Enabled(s, Yield)
    modifies sched`current
    ensures Holding(Step(s, Yield), sched, table)
  {
    var p := CurrentActor(s, sched, table);
    sched.NextProcess();
  }

  /** Into the wait array first, then out of the run queue. */
  method WaitSlice(ghost s: Sys, sched: Sched, table: Table, pid: Word)
    requires Holding(s, sched, table) && Enabled(s, Wait) && pid == s.actors[Current(s)].pid
    modifies sched, sched.waitArr, sched.processArr
    ensures Holding(Step(s, Wait), sched, table)
  {
    var p := CurrentActor(s, sched, table);
    sched.WaitCurrent(pid);
    sched.RemoveCurrent();
  }

  /** The pid is cleared and the actor leaves the run queue. */
  method DieSlice(ghost s: Sys, sched: Sched, table: Table, pid: Word)
    requires Holding(s, sched, table) && Enabled(s, Die) && pid == s.actors[Current(s)].pid
    modifies sched, sched.processArr, table, table.entries, table.freeSlots
    ensures Holding(Step(s, Die), sched, table)
  {
    var p := CurrentActor(s, sched, table);
    table.ClearPid(pid);
    sched.RemoveCurrent();
  }

  method ParkSlice(ghost s: Sys, sched: Sched, table: Table)
    requires Holding(s, sched, table) && Enabled(s, ParkIo) && Current(s) !in s.q.parked
    requires sched.ioParkedCount < sched.ioParked.Length
    modifies sched, sched.processArr, sched.ioParked
    ensures Holding(Step(s, ParkIo), sched, table)
  {
    var p := CurrentActor(s, sched, table);
    sched.ParkCurrent();
  }

  /** What a machine function hands back to the main loop. */
  datatype Code = Done | Waiting | Parked | Limit

  /** The event a slice ends with; a parked actor has already left the queue inside its slice. */
  ghost predicate EndedBy(s: Sys, code: Code, s1: Sys) {
    match code
    case Done => Enabled(s, Die) && s1 == Step(s, Die)
    case Waiting => Enabled(s, Wait) && s1 == Step(s, Wait)
    case Parked => s1 == s
    case Limit => Enabled(s, Yield) && s1 == Step(s, Yield)
  }

  /** The main loop over stop codes: the dead are removed, the waiting moved, the parked left, everyone else goes round. */
  method EndSlice(ghost s: Sys, ghost s1: Sys, sched: Sched, table: Table, code: Code, pid: Word)
    requires Holding(s, sched, table) && EndedBy(s, code, s1)
    requires code != Parked ==> s.q.cur < |s.q.run| && Current(s) in s.actors && pid == s.actors[Current(s)].pid
    modifies sched, sched.processArr, sched.waitArr, table, table.entries, table.freeSlots
    ensures Holding(s1, sched, table)
  {
    match code {
      case Done => DieSlice(s, sched, table, pid);
      case Waiting => WaitSlice(s, sched, table, pid);
      case Parked =>
      case Limit => YieldSlice(s, sched, table);
    }
  }

  /** A completion, between slices. */
  method CompleteIo(ghost s: Sys, sched: Sched, table: Table, proc: Word, ghost res: Word)
    requires Holding(s, sched, table) && Enabled(s, Complete(proc, res)) && sched.last + 1 < sched.processArr.Length
    modifies sched, sched.processArr, sched.ioParked
    ensures Holding(Step(s, Complete(proc, res)), sched, table)
  {
    sched.WakeParked(proc);
  }
}
