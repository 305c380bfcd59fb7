/** The scheduler context: growable arrays, counters and cursors, and the operations the run-time emits on them. */
module Scheduler {
  import opened Words
  import opened Pids
  import opened FiniteSets
  import opened Queues
  import PidTable

  datatype Decision = Exec | WaitIo | Poll | Exit

  class Sched {
    var processArr: array<Word>
    var last: int
    var realCount: int
    var current: int
    var waitArr: array<Word>
    var lastWaited: int
    var waitedCount: int
    var ioParked: array<Word>
    var ioParkedCount: int
    var parkedIdx: map<Word, int>

    /** Counters agree with cursors; slot 0 of the wait array holds no pid; parked actors know their place. */
    ghost predicate Valid()
      reads this, processArr, waitArr, ioParked
    {
      && processArr != waitArr && waitArr != ioParked && processArr != ioParked
      && -1 <= last < processArr.Length && 0 < processArr.Length && realCount == last + 1
      && 0 <= current && (current <= last || (last == -1 && current == 0))
      && 0 <= lastWaited < waitArr.Length && waitedCount == lastWaited && waitArr[0] == 0
      && 0 <= ioParkedCount <= ioParked.Length
      && NoDup(ioParked[..ioParkedCount])
      && (forall k :: 0 <= k < ioParkedCount ==> ioParked[k] in parkedIdx && parkedIdx[ioParked[k]] == k)
    }

    ghost function View(): Queues
      reads this, processArr, waitArr, ioParked
      requires Valid()
    {
      Queues(processArr[..last + 1], current, waitArr[1..lastWaited + 1], ioParked[..ioParkedCount])
    }

    /** Start-up: `main` runs, nobody waits. */
    constructor (main: Word, cap: nat)
      requires 1 <= cap
      ensures Valid() && View() == Queues([main], 0, [], [])
      ensures fresh(processArr) && fresh(waitArr) && fresh(ioParked)
    {
      processArr := new Word[cap](_ => 0);
      waitArr := new Word[cap](_ => 0);
      ioParked := new Word[cap](_ => 0);
      last, realCount, current := 0, 1, 0;
      lastWaited, waitedCount, ioParkedCount := 0, 0, 0;
      parkedIdx := map[];
      new;
      processArr[0] := main;
    }

    method NewProcess(p: Word)
      requires Valid()
      modifies this, processArr
      ensures Valid() && (processArr == old(processArr) || fresh(processArr))
      ensures waitArr == old(waitArr) && ioParked == old(ioParked)
      ensures View() == AddRunnable(old(View()), p)
      ensures current == old(current) && last == old(last) + 1 && processArr[last] == p
      ensures processArr[..last] == old(processArr[..last + 1])
      ensures lastWaited == old(lastWaited) && ioParkedCount == old(ioParkedCount) && parkedIdx == old(parkedIdx)
    {
      var next := last + 1;
      var arr := PidTable.GrowIfFull(processArr, next);
      processArr := arr;
      processArr[next] := p;
      last := next;
      realCount := realCount + 1;
      assert processArr[..last + 1] == old(processArr[..last + 1]) + [p];
    }

    /** Swap-and-pop of the current actor. */
    method RemoveCurrent()
      requires Valid() && last >= 0
      modifies this`last, this`realCount, this`current, processArr
      ensures Valid() && View() == DropCurrent(old(View()))
      ensures current == if old(current) == old(last) then 0 else old(current)
      ensures last == old(last) - 1 && (old(current) < old(last) ==> processArr[current] == old(processArr[last]))
    {
      processArr[current] := processArr[last];
      processArr[last] := 0;
      realCount := realCount - 1;
      if current == last {
        current := 0;
      }
      last := last - 1;
      assert processArr[..last + 1] == Popped(old(processArr[..last + 1]), old(current));
    }

    method WaitCurrent(pid: Word)
      requires Valid()
      modifies this, waitArr
      ensures Valid() && (waitArr == old(waitArr) || fresh(waitArr))
      ensures processArr == old(processArr) && ioParked == old(ioParked)
      ensures View() == AddWaiting(old(View()), pid)
    {
      var next := lastWaited + 1;
      var arr := PidTable.GrowIfFull(waitArr, next);
      assert arr[0] == waitArr[0] by { assert arr[..waitArr.Length][0] == waitArr[..][0]; }
      waitArr := arr;
      waitArr[next] := pid;
      lastWaited := next;
      waitedCount := waitedCount + 1;
      assert waitArr[1..lastWaited + 1] == old(waitArr[1..lastWaited + 1]) + [pid];
    }

    /** The scan of the wait array, from its null slot up to the last entry. */
    method Scan(pid: Word) returns (i: int)
      requires Valid() && pid != 0
      ensures 0 <= i <= lastWaited + 1
      ensures i <= lastWaited <==> pid in View().waiting
      ensures i <= lastWaited ==> i >= 1 && i - 1 == Index(View().waiting, pid)
    {
      i := 0;
      while i <= lastWaited
        invariant 0 <= i <= lastWaited + 1
        invariant forall j :: 0 <= j < i ==> waitArr[j] != pid
      {
        if waitArr[i] == pid {
          assert View().waiting[i - 1] == pid;
          assert forall j :: 0 <= j < i - 1 ==> View().waiting[j] == waitArr[j + 1];
          return;
        }
        i := i + 1;
      }
      assert forall j :: 0 <= j < |View().waiting| ==> View().waiting[j] == waitArr[j + 1];
    }

    /** Swap-and-pop of a found entry. */
    method Unwait(i: int, pid: Word)
      requires Valid() && 1 <= i <= lastWaited && pid in View().waiting && i - 1 == Index(View().waiting, pid)
      modifies this`lastWaited, this`waitedCount, waitArr
      ensures Valid() && View() == StopWaiting(old(View()), pid)
    {
      waitArr[i] := waitArr[lastWaited];
      waitArr[lastWaited] := 0;
      lastWaited := lastWaited - 1;
      waitedCount := waitedCount - 1;
      assert waitArr[1..lastWaited + 1] == Popped(old(View()).waiting, i - 1);
    }

    /** Wake: a waiting actor leaves the wait array and, if the table still knows it, joins the run queue. */
    method Wake(pid: Word, table: PidTable.Table)
      requires Valid() && pid != 0 && table.Valid() && SlotOf(pid) < table.entries.Length
      modifies this, processArr, waitArr
      ensures Valid() && (processArr == old(processArr) || fresh(processArr))
      ensures waitArr == old(waitArr) && ioParked == old(ioParked)
      ensures pid !in old(View()).waiting ==> View() == old(View())
      ensures pid in old(View()).waiting ==>
        View() == (var q := StopWaiting(old(View()), pid);
                   var p := Lookup(old(table.View()), pid);
                   if p != 0 then AddRunnable(q, p) else q)
      ensures current == old(current) && old(last) <= last < processArr.Length
      ensures processArr[..old(last) + 1] == old(processArr[..last + 1])
      ensures pid in old(View()).waiting ==>
        var p := Lookup(old(table.View()), pid);
        && lastWaited == old(lastWaited) - 1
        && last == old(last) + (if p != 0 then 1 else 0) && (p != 0 ==> processArr[last] == p)
    {
      var i := Scan(pid);
      if i > lastWaited {
        return;
      }
      var p := table.Find(pid);
      Unwait(i, pid);
      if p != 0 {
        NewProcess(p);
      }
    }

    method NextProcess()
      requires Valid() && last >= 0
      modifies this`current
      ensures Valid() && View() == Advance(old(View()))
      ensures current == if old(current) == last then 0 else old(current) + 1
    {
      if last < current + 1 {
        current := 0;
      } else {
        current := current + 1;
      }
    }

    /** The current actor parks itself; the parked list has room. */
    method ParkCurrent()
      requires Valid() && last >= 0 && ioParkedCount < ioParked.Length
      requires View().run[current] !in View().parked
      modifies this`last, this`realCount, this`current, this`ioParkedCount, this`parkedIdx, processArr, ioParked
      ensures Valid() && View() == Park(old(View()))
      ensures parkedIdx == old(parkedIdx)[old(View().run[current]) := old(ioParkedCount)]
      ensures current == 0 && last == old(last) - 1
      ensures ioParkedCount == old(ioParkedCount) + 1 && ioParked[ioParkedCount - 1] == old(processArr[current])
    {
      ghost var before := View();
      var p := processArr[current];
      processArr[current] := processArr[last];
      last := last - 1;
      current := 0;
      realCount := realCount - 1;
      ioParked[ioParkedCount] := p;
      parkedIdx := parkedIdx[p := ioParkedCount];
      ioParkedCount := ioParkedCount + 1;
      assert processArr[..last + 1] == Popped(before.run, before.cur);
      assert ioParked[..ioParkedCount] == before.parked + [p];
      forall k | 0 <= k < ioParkedCount ensures ioParked[k] in parkedIdx && parkedIdx[ioParked[k]] == k {
        assert k < |before.parked| ==> before.parked[k] == old(ioParked[k]);
      }
    }

    /** Swap-and-pop of the parked list at the place an actor knows; the actor moved there learns it. */
    method Unlist(k: int)
      requires Valid() && 0 <= k < ioParkedCount
      modifies this`ioParkedCount, this`parkedIdx, ioParked
      ensures Valid() && View() == old(View()).(parked := Popped(old(View()).parked, k))
    {
      ghost var before := View();
      var lastIdx := ioParkedCount - 1;
      var moved := ioParked[lastIdx];
      ioParked[k] := moved;
      if k != lastIdx {
        parkedIdx := parkedIdx[moved := k];
      }
      ioParkedCount := lastIdx;
      assert ioParked[..ioParkedCount] == Popped(before.parked, k);
      PoppedSet(before.parked, k);
    }

    /** A completion for a parked actor; the run queue has room. */
    method WakeParked(p: Word)
      requires Valid() && p in View().parked && last + 1 < processArr.Length
      modifies this`last, this`realCount, this`ioParkedCount, this`parkedIdx, processArr, ioParked
      ensures Valid() && View() == Unpark(old(View()), p)
      ensures current == old(current) && last == old(last) + 1 && processArr[last] == p
      ensures processArr[..last] == old(processArr[..last + 1])
      ensures ioParkedCount == old(ioParkedCount) - 1
    {
      ghost var before := View();
      ParkedAt(p);
      var k := parkedIdx[p];
      IndexOfIs(before.parked, k);
      Unlist(k);
      processArr[last + 1] := p;
      last := last + 1;
      realCount := realCount + 1;
      assert processArr[..last + 1] == before.run + [p];
    }

    lemma ParkedAt(p: Word)
      requires Valid() && p in View().parked
      ensures p in parkedIdx && 0 <= parkedIdx[p] < ioParkedCount && View().parked[parkedIdx[p]] == p
    {
      var j :| 0 <= j < |View().parked| && View().parked[j] == p;
      assert ioParked[j] == p;
    }

    /** The main loop's choice; it leaves the loop exactly when no list holds an actor. */
    method Decide() returns (d: Decision)
      requires Valid()
      ensures d == Exec <==> View().run != []
      ensures d == WaitIo <==> View().run == [] && View().parked != []
      ensures d == Exit <==> View().run == [] && View().parked == [] && View().waiting == []
    {
      if realCount != 0 {
        return Exec;
      }
      if ioParkedCount != 0 {
        return WaitIo;
      }
      d := if waitedCount != 0 then Poll else Exit;
    }
  }
}
