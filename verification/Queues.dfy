/** The scheduler's three lists of actors, as values, and what each queue operation does to them. */
module Queues {
  import opened Words
  import opened FiniteSets

  /** Runnable actors with the cursor, pids waiting for a message, actors parked on I/O. */
  datatype Queues = Queues(run: seq<Word>, cur: nat, waiting: seq<Word>, parked: seq<Word>)

  /** Swap-and-pop: the last element fills the hole. */
  function Popped<T>(s: seq<T>, i: nat): (r: seq<T>)
    requires i < |s|
    ensures |r| == |s| - 1
  {
    s[i := s[|s| - 1]][..|s| - 1]
  }

  function Index<T(==)>(s: seq<T>, x: T): (i: nat)
    ensures i <= |s|
    ensures i < |s| ==> s[i] == x
    ensures x in s <==> i < |s|
    ensures forall j :: 0 <= j < i ==> s[j] != x
  {
    if s == [] || s[0] == x then 0 else 1 + Index(s[1..], x)
  }

  function AddRunnable(q: Queues, p: Word): Queues {
    q.(run := q.run + [p])
  }

  predicate CursorIn(q: Queues) {
    q.cur < |q.run| || (q.run == [] && q.cur == 0)
  }

  /** The actor whose slice it is leaves the run queue; the cursor goes back to 0 only from the last place. */
  function DropCurrent(q: Queues): Queues
    requires q.cur < |q.run|
  {
    q.(run := Popped(q.run, q.cur), cur := if q.cur == |q.run| - 1 then 0 else q.cur)
  }

  function AddWaiting(q: Queues, pid: Word): Queues {
    q.(waiting := q.waiting + [pid])
  }

  function StopWaiting(q: Queues, pid: Word): Queues
    requires pid in q.waiting
  {
    q.(waiting := Popped(q.waiting, Index(q.waiting, pid)))
  }

  /** The cursor moves on, around the queue. */
  function Advance(q: Queues): Queues {
    q.(cur := if |q.run| <= q.cur + 1 then 0 else q.cur + 1)
  }

  /** The current actor moves to the parked list; the cursor always goes back to 0. */
  function Park(q: Queues): Queues
    requires q.cur < |q.run|
  {
    q.(run := Popped(q.run, q.cur), cur := 0, parked := q.parked + [q.run[q.cur]])
  }

  function Unpark(q: Queues, p: Word): Queues
    requires p in q.parked
  {
    q.(parked := Popped(q.parked, Index(q.parked, p)), run := q.run + [p])
  }

  /** Popping removes exactly the element at `i` and keeps the rest distinct. */
  lemma PoppedSet<T>(s: seq<T>, i: nat)
    requires i < |s| && NoDup(s)
    ensures NoDup(Popped(s, i))
    ensures forall x :: x in Popped(s, i) <==> x in s && x != s[i]
    ensures forall j :: 0 <= j < |s| - 1 ==> Popped(s, i)[j] == if j == i then s[|s| - 1] else s[j]
  {
    var r := Popped(s, i);
    forall x | x in s && x != s[i] ensures x in r {
      var j :| 0 <= j < |s| && s[j] == x;
      if j == |s| - 1 {
        assert r[i] == x;
      } else {
        assert r[j] == x;
      }
    }
  }

  lemma IndexOfIs<T>(s: seq<T>, k: nat)
    requires k < |s| && NoDup(s)
    ensures Index(s, s[k]) == k
  {
  }
}
