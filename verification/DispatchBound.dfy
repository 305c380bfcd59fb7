/** How long a runnable actor can be passed over while the run queue only shrinks. */
module DispatchBound {
  import opened Words
  import opened FiniteSets
  import opened Queues

  /** How a slice ends: the actor stays in the queue, or leaves it (by waiting or dying). */
  datatype SliceEnd = Stays | Leaves

  function Next(q: Queues, end: SliceEnd): Queues {
    if q.cur < |q.run| && end == Leaves then DropCurrent(q) else Advance(q)
  }

  /** The queue after `k` slices, the i-th of which ends as `ends(i)`. */
  function After(q: Queues, ends: nat -> SliceEnd, k: nat): Queues
    decreases k
  {
    if k == 0 then q else Next(After(q, ends, k - 1), ends(k - 1))
  }

  /** Places between the cursor and index `i`, going round. */
  function Distance(q: Queues, i: nat): nat
    requires q.cur < |q.run| && i < |q.run|
  {
    if q.cur <= i then i - q.cur else i + |q.run| - q.cur
  }

  predicate Queued(q: Queues, p: Word) {
    q.cur < |q.run| && NoDup(q.run) && p in q.run
  }

  /** Cyclic distance from the cursor plus the queue's length. */
  function Measure(q: Queues, p: Word): nat
    requires Queued(q, p)
  {
    Distance(q, Index(q.run, p)) + |q.run|
  }

  /** Every slice of another actor brings `p` closer, whether that actor stays or leaves. */
  lemma Closer(q: Queues, p: Word, end: SliceEnd)
    requires Queued(q, p) && q.run[q.cur] != p
    ensures Queued(Next(q, end), p) && Measure(Next(q, end), p) < Measure(q, p)
  {
    var i := Index(q.run, p);
    if end == Leaves {
      PoppedSet(q.run, q.cur);
      var r := Popped(q.run, q.cur);
      IndexOfIs(r, if i == |q.run| - 1 then q.cur else i);
    }
  }

  /** An actor that has not been dispatched yet is still queued and at least `k` closer. */
  lemma {:induction false} Waited(q: Queues, p: Word, ends: nat -> SliceEnd, k: nat)
    requires Queued(q, p)
    requires forall j: nat :: j < k ==> var s := After(q, ends, j); s.cur < |s.run| ==> s.run[s.cur] != p
    ensures Queued(After(q, ends, k), p) && Measure(After(q, ends, k), p) + k <= Measure(q, p)
    decreases k
  {
    hide Measure, Next;
    if k > 0 {
      Waited(q, p, ends, k - 1);
      Closer(After(q, ends, k - 1), p, ends(k - 1));
    }
  }

  /** With `n` actors in the queue, each is dispatched within the next 2n - 1 slices. */
  lemma DispatchedSoon(q: Queues, p: Word, ends: nat -> SliceEnd)
    returns (k: nat)
    requires Queued(q, p)
    ensures k < 2 * |q.run| - 1
    ensures var s := After(q, ends, k); s.cur < |s.run| && s.run[s.cur] == p
  {
    hide After;
    k := 0;
    Waited(q, p, ends, 0);
    while k < 2 * |q.run| - 1 && !(After(q, ends, k).cur < |After(q, ends, k).run| &&
                                   After(q, ends, k).run[After(q, ends, k).cur] == p)
      invariant forall j: nat :: j < k ==> var s := After(q, ends, j); s.cur < |s.run| ==> s.run[s.cur] != p
      invariant Queued(After(q, ends, k), p) && Measure(After(q, ends, k), p) + k <= Measure(q, p)
    {
      k := k + 1;
      Waited(q, p, ends, k);
    }
  }
}
