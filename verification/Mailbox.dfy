/** The 256-word ring of an actor's mailbox: sends, single-handler receives, and the queue they implement. */
module Mailbox {
  import opened Words

  const SIZE: int := 256

  /** Words between two indices of a ring. */
  function Pending(head: nat, tail: nat): (n: nat)
    ensures n < SIZE
  {
    (tail - head) % SIZE
  }

  /** Index `i` words past `base`, around the ring. */
  function Cell(base: nat, i: nat): (k: nat)
    ensures k < SIZE
  {
    (base + i) % SIZE
  }

  /** The words of the ring from HEAD to TAIL, in order. */
  function Contents(cells: seq<Word>, head: nat, tail: nat): (r: seq<Word>)
    requires |cells| == SIZE
    ensures |r| == Pending(head, tail)
  {
    seq(Pending(head, tail), i requires 0 <= i < Pending(head, tail) => cells[Cell(head, i)])
  }

  class Ring {
    var cells: array<Word>
    var head: nat
    var tail: nat

    ghost predicate Valid()
      reads this
    {
      cells.Length == SIZE && head < SIZE && tail < SIZE
    }

    ghost function Queue(): seq<Word>
      reads this, cells
      requires Valid()
    {
      Contents(cells[..], head, tail)
    }

    constructor ()
      ensures Valid() && fresh(cells) && Queue() == []
    {
      cells := new Word[SIZE](_ => 0);
      head, tail := 0, 0;
    }

    /** A send: the message's words, then TAIL. */
    method Enqueue(words: seq<Word>)
      requires Valid()
      modifies this`tail, cells
      ensures Valid()
      ensures cells[..] == Written(old(cells[..]), old(tail), words) && tail == Cell(old(tail), |words|)
      ensures |old(Queue())| + |words| < SIZE ==> Queue() == old(Queue()) + words
    {
      hide Cell, Pending, Contents;
      ghost var before := cells[..];
      var i := 0;
      while i < |words|
        invariant 0 <= i <= |words|
        invariant tail == old(tail) && cells[..] == Written(before, tail, words[..i])
      {
        cells[Cell(tail, i)] := words[i];
        i := i + 1;
        assert words[..i][..i - 1] == words[..i - 1];
      }
      assert words[..|words|] == words;
      if Pending(head, tail) + |words| < SIZE {
        AppendFits(before, head, tail, words);
      }
      tail := Cell(tail, |words|);
    }

    method IsEmpty() returns (empty: bool)
      requires Valid()
      ensures empty <==> Queue() == []
    {
      empty := head == tail;
      EmptyExact(head, tail);
    }

    /** One message of `arity` words off the front. */
    method Dequeue(arity: nat) returns (words: seq<Word>)
      requires Valid() && arity <= |Queue()|
      modifies this`head
      ensures Valid() && old(Queue()) == words + Queue() && |words| == arity
    {
      hide Cell, Pending;
      words := [];
      var i := 0;
      while i < arity
        invariant 0 <= i <= arity && |words| == i && head == old(head)
        invariant forall j :: 0 <= j < i ==> words[j] == cells[Cell(head, j)]
      {
        words := words + [cells[Cell(head, i)]];
        i := i + 1;
      }
      PendingShrinks(head, tail, arity);
      head := Cell(head, arity);
      forall i | 0 <= i < |Queue()| ensures Queue()[i] == old(Queue())[arity + i] {
        Around(old(head), arity, i);
      }
    }

    /**
     * One visit of a single-handler `wait`: suspend on an empty mailbox, else take one message; with a filter, a
     * message whose first word is not in it is dropped whole.
     */
    method WaitCheck(arity: nat, filter: seq<Word>) returns (visit: Visit)
      requires Valid() && (filter != [] ==> arity > 0) && (Queue() != [] ==> arity <= |Queue()|)
      modifies this`head
      ensures Valid() && (visit, Queue()) == Visited(old(Queue()), arity, filter)
    {
      var empty := IsEmpty();
      if empty {
        return Suspended;
      }
      ghost var before := Queue();
      var words := Dequeue(arity);
      assert before[..arity] == words && before[arity..] == Queue();
      if filter == [] || words[0] in filter {
        visit := Got(words);
      } else {
        visit := Dropped;
      }
    }
  }

  // ---------- Receiving ----------

  datatype Visit = Suspended | Dropped | Got(words: seq<Word>)

  function Visited(queue: seq<Word>, arity: nat, filter: seq<Word>): (Visit, seq<Word>)
    requires (filter != [] ==> arity > 0) && (queue != [] ==> arity <= |queue|)
  {
    if queue == [] then (Suspended, [])
    else if filter == [] || queue[0] in filter then (Got(queue[..arity]), queue[arity..])
    else (Dropped, queue[arity..])
  }

  function Flat(messages: seq<seq<Word>>): seq<Word> {
    if messages == [] then [] else messages[0] + Flat(messages[1..])
  }

  /** Position of the first message the handler takes, or the number of messages. */
  function FirstWanted(messages: seq<seq<Word>>, filter: seq<Word>): (k: nat)
    requires forall i :: 0 <= i < |messages| ==> messages[i] != []
    ensures k <= |messages|
    ensures k < |messages| ==> filter == [] || messages[k][0] in filter
    ensures forall j :: 0 <= j < k ==> filter != [] && messages[j][0] !in filter
  {
    if messages == [] || filter == [] || messages[0][0] in filter then 0 else 1 + FirstWanted(messages[1..], filter)
  }

  /** `k` visits in a row. */
  function Visits(queue: seq<Word>, arity: nat, filter: seq<Word>, k: nat): seq<Word>
    decreases k
  {
    if k == 0 || |queue| < arity then queue else Visits(queue[arity..], arity, filter, k - 1)
  }

  /**
   * On whole messages of the handler's arity, the visits before the first wanted one each drop exactly one message,
   * the next one delivers it, and the messages behind it stay in order.
   */
  lemma {:induction false} DeliversFirstWanted(messages: seq<seq<Word>>, arity: nat, filter: seq<Word>, j: nat)
    requires arity > 0 && (forall i :: 0 <= i < |messages| ==> |messages[i]| == arity) && j <= FirstWanted(messages, filter)
    ensures var queue := Visits(Flat(messages), arity, filter, j);
      && queue == Flat(messages[j..])
      && (queue != [] ==> arity <= |queue|)
      && Visited(queue, arity, filter) ==
           if j == |messages| then (Suspended, [])
           else if j == FirstWanted(messages, filter) then (Got(messages[j]), Flat(messages[j + 1..]))
           else (Dropped, Flat(messages[j + 1..]))
    decreases messages
  {
    if messages != [] {
      var rest := messages[1..];
      assert Flat(messages)[arity..] == Flat(rest) && Flat(messages)[..arity] == messages[0];
      if j > 0 {
        DeliversFirstWanted(rest, arity, filter, j - 1);
        assert rest[j - 1..] == messages[j..];
        if j < |messages| {
          assert rest[j..] == messages[j + 1..] && rest[j - 1] == messages[j];
        }
      }
    }
  }

  // ---------- Any interleaving of sends and receives ----------

  datatype RingState = RingState(cells: seq<Word>, head: nat, tail: nat) {
    predicate Valid() {
      |cells| == SIZE && head < SIZE && tail < SIZE
    }

    function Queue(): (q: seq<Word>)
      requires Valid()
    {
      Contents(cells, head, tail)
    }
  }

  datatype RingOp = Put(words: seq<Word>) | Take(n: nat)

  predicate Possible(s: RingState, op: RingOp)
    requires s.Valid()
  {
    match op
    case Put(words) => Pending(s.head, s.tail) + |words| < SIZE
    case Take(n) => n <= Pending(s.head, s.tail)
  }

  function DoOp(s: RingState, op: RingOp): RingState
    requires s.Valid()
  {
    match op
    case Put(words) => RingState(Written(s.cells, s.tail, words), s.head, Cell(s.tail, |words|))
    case Take(n) => RingState(s.cells, Cell(s.head, n), s.tail)
  }

  predicate PossibleRun(s: RingState, ops: seq<RingOp>)
    requires s.Valid()
    decreases |ops|
  {
    ops == [] || (Possible(s, ops[0]) && PossibleRun(DoOp(s, ops[0]), ops[1..]))
  }

  function AfterOps(s: RingState, ops: seq<RingOp>): (r: RingState)
    requires s.Valid()
    ensures r.Valid()
    decreases |ops|
  {
    if ops == [] then s else AfterOps(DoOp(s, ops[0]), ops[1..])
  }

  /** Words sent, in order. */
  function Sent(ops: seq<RingOp>): seq<Word> {
    if ops == [] then [] else (if ops[0].Put? then ops[0].words else []) + Sent(ops[1..])
  }

  /** Words received, in order. */
  function Received(s: RingState, ops: seq<RingOp>): seq<Word>
    requires s.Valid() && PossibleRun(s, ops)
    decreases |ops|
  {
    if ops == [] then []
    else (if ops[0].Take? then s.Queue()[..ops[0].n] else []) + Received(DoOp(s, ops[0]), ops[1..])
  }

  /** The ring is a queue: what was there, then what was sent, is what was received, then what is left. */
  lemma {:induction false} Fifo(s: RingState, ops: seq<RingOp>)
    requires s.Valid() && PossibleRun(s, ops)
    ensures s.Queue() + Sent(ops) == Received(s, ops) + AfterOps(s, ops).Queue()
    decreases |ops|
  {
    hide Contents, Written, Cell, Pending;
    if ops != [] {
      var s1 := DoOp(s, ops[0]);
      Fifo(s1, ops[1..]);
      match ops[0]
      case Put(words) =>
        AppendFits(s.cells, s.head, s.tail, words);
        assert s1.Queue() + Sent(ops[1..]) == s.Queue() + Sent(ops);
      case Take(n) =>
        TakeFront(s, n);
        assert s.Queue() + Sent(ops) == s.Queue()[..n] + (s1.Queue() + Sent(ops[1..]));
    }
  }

  lemma TakeFront(s: RingState, n: nat)
    requires s.Valid() && n <= Pending(s.head, s.tail)
    ensures s.Queue() == s.Queue()[..n] + DoOp(s, Take(n)).Queue()
  {
    hide Cell, Pending;
    PendingShrinks(s.head, s.tail, n);
    var rest := DoOp(s, Take(n)).Queue();
    forall i | 0 <= i < |rest| ensures rest[i] == s.Queue()[n + i] {
      Around(s.head, n, i);
    }
  }

  // ---------- Ring arithmetic ----------

  lemma EmptyExact(head: nat, tail: nat)
    requires head < SIZE && tail < SIZE
    ensures Pending(head, tail) == 0 <==> head == tail
  {
  }

  lemma Around(head: nat, n: nat, i: nat)
    requires head < SIZE
    ensures Cell(Cell(head, n), i) == Cell(head, n + i)
  {
  }

  lemma PendingGrows(head: nat, tail: nat, n: nat)
    requires head < SIZE && tail < SIZE && Pending(head, tail) + n < SIZE
    ensures Pending(head, Cell(tail, n)) == Pending(head, tail) + n
  {
  }

  lemma PendingShrinks(head: nat, tail: nat, n: nat)
    requires head < SIZE && tail < SIZE && n <= Pending(head, tail)
    ensures Pending(Cell(head, n), tail) == Pending(head, tail) - n
  {
  }

  /** Which cell the i-th word is in, relative to TAIL. */
  lemma CellOf(head: nat, tail: nat, i: nat, pending: nat)
    requires head < SIZE && tail < SIZE && pending == Pending(head, tail) && i < SIZE
    ensures i < pending ==> Pending(tail, Cell(head, i)) == i - pending + SIZE
    ensures pending <= i ==> Pending(tail, Cell(head, i)) == i - pending
  {
  }

  /** What a send leaves in the ring. */
  function Written(cells: seq<Word>, tail: nat, words: seq<Word>): (r: seq<Word>)
    requires |cells| == SIZE
    ensures |r| == SIZE
  {
    if words == [] then cells
    else Written(cells, tail, words[..|words| - 1])[Cell(tail, |words| - 1) := words[|words| - 1]]
  }

  lemma AppendAt(cells: seq<Word>, head: nat, tail: nat, words: seq<Word>, i: nat)
    requires |cells| == SIZE && head < SIZE && tail < SIZE && Pending(head, tail) + |words| < SIZE
    requires i < Pending(head, tail) + |words|
    ensures Written(cells, tail, words)[Cell(head, i)] ==
            if i < Pending(head, tail) then cells[Cell(head, i)] else words[i - Pending(head, tail)]
  {
    hide Written, Cell;
    WrittenCells(cells, tail, words, Cell(head, i));
    CellOf(head, tail, i, Pending(head, tail));
  }

  lemma AppendFits(cells: seq<Word>, head: nat, tail: nat, words: seq<Word>)
    requires |cells| == SIZE && head < SIZE && tail < SIZE && Pending(head, tail) + |words| < SIZE
    ensures Contents(Written(cells, tail, words), head, Cell(tail, |words|)) == Contents(cells, head, tail) + words
  {
    hide Written, Pending, Cell;
    var next := Cell(tail, |words|);
    PendingGrows(head, tail, |words|);
    forall i | 0 <= i < Pending(head, next)
      ensures Contents(Written(cells, tail, words), head, next)[i] == (Contents(cells, head, tail) + words)[i]
    {
      AppendAt(cells, head, tail, words, i);
    }
  }

  /** A non-empty message is appended to the queue exactly when all pending words still fit 255. */
  lemma AppendExact(cells: seq<Word>, head: nat, tail: nat, words: seq<Word>)
    requires |cells| == SIZE && head < SIZE && tail < SIZE && words != []
    ensures Contents(Written(cells, tail, words), head, Cell(tail, |words|)) == Contents(cells, head, tail) + words <==>
            Pending(head, tail) + |words| < SIZE
  {
    hide Written, Pending, Cell;
    if Pending(head, tail) + |words| < SIZE {
      AppendFits(cells, head, tail, words);
    }
  }

  lemma CellInverse(tail: nat, k: nat, n: nat)
    requires tail < SIZE && k < SIZE && n < SIZE
    ensures k == Cell(tail, n) <==> Pending(tail, k) == n
  {
  }

  lemma {:induction false} WrittenCells(cells: seq<Word>, tail: nat, words: seq<Word>, k: nat)
    requires |cells| == SIZE && tail < SIZE && k < SIZE && |words| < SIZE
    ensures var j := Pending(tail, k);
      Written(cells, tail, words)[k] == if j < |words| then words[j] else cells[k]
    decreases |words|
  {
    hide Cell, Pending;
    if words != [] {
      CellInverse(tail, k, |words| - 1);
      WrittenCells(cells, tail, words[..|words| - 1], k);
    }
  }
}
