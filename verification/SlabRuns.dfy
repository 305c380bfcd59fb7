/** Whole runs of the slab allocator, as its callers see them: addresses handed out and given back. */
module SlabRuns {
  import opened Lake
  import opened SlabLayout
  import opened SlabAllocator

  /** The heap, and the class of every address handed out and not given back yet. */
  datatype Point = Point(heap: Heap, held: map<int, nat>)

  datatype Move =
    | Alloc(cls: nat, mapping: Option<nat>)
    | Release(addr: int)

  /** Every slab of the class is full. */
  predicate Full(h: Heap, cls: nat) {
    forall b :: b in h.slabs && h.slabs[b].cls == cls ==> h.slabs[b].free == 0
  }

  predicate HasFree(h: Heap, cls: nat, base: int) {
    base in h.slabs && h.slabs[base].cls == cls && h.slabs[base].free != 0
  }

  /** `h1` and `addr` come of taking a chunk from the slab at `base`. */
  predicate Taken(h: Heap, base: int, h1: Heap, addr: int) {
    && base in h.slabs && FirstSet(h.slabs[base].bits) < |h.slabs[base].bits| && h.slabs[base].cls < |h.currents|
    && (h1, addr) == Take(h, base)
  }

  /** An allocation takes from any slab of the class with room, maps a new one when there is none, or gives 0. */
  ghost predicate Allocates(h: Heap, cls: nat, mapping: Option<nat>, h1: Heap, addr: int) {
    || (exists base :: HasFree(h, cls, base) && Taken(h, base, h1, addr))
    || (Full(h, cls) && mapping == None && h1 == h && addr == 0)
    || (Full(h, cls) && mapping.Some? && cls < |h.heads| && FreshMapping(h, mapping.value, 2 * SlabSize(cls)) &&
        SlabSize(cls) > 0 &&
        Taken(Link(h, AlignUp(mapping.value, SlabSize(cls)), cls), AlignUp(mapping.value, SlabSize(cls)), h1, addr))
  }

  ghost predicate Next(p: Point, move: Move, q: Point) {
    match move
    case Alloc(cls, mapping) =>
      && cls < NUM_CLASSES
      && exists addr :: Allocates(p.heap, cls, mapping, q.heap, addr) &&
           q.held == if addr == 0 then p.held else p.held[addr := cls]
    case Release(addr) =>
      && addr in p.held && Freeable(p.heap, addr)
      && q == Point(Free(p.heap, addr), p.held - {addr})
  }

  /** The live chunks are exactly the addresses held, each with the class it was asked for. */
  ghost predicate Agrees(h: Heap, held: map<int, nat>) {
    && (forall c :: Live(h, c) ==> Start(h, c) in held && held[Start(h, c)] == h.slabs[c.base].cls)
    && (forall a :: a in held ==> exists c :: Live(h, c) && Start(h, c) == a)
  }

  ghost predicate Good(p: Point) {
    && (exists lists :: Inv(p.heap, lists))
    && Agrees(p.heap, p.held)
  }

  function NoSlabs(): Heap {
    Heap(map[], seq(NUM_CLASSES, _ => 0), seq(NUM_CLASSES, _ => 0))
  }

  ghost predicate IsHistory(run: seq<Point>, moves: seq<Move>) {
    && |run| == |moves| + 1 && run[0] == Point(NoSlabs(), map[])
    && forall i :: 0 <= i < |moves| ==> Next(run[i], moves[i], run[i + 1])
  }

  /** Two live chunks start at different addresses, and never at 0. */
  lemma StartsDiffer(h: Heap, lists: seq<seq<int>>, c: Chunk, d: Chunk)
    requires Inv(h, lists) && Live(h, c) && Live(h, d)
    ensures Start(h, c) == Start(h, d) ==> c == d
    ensures Start(h, c) > 0
  {
    hide ChunksPerSlab, PayloadOffset, NumWords, SlabSize, Lists, ChunkAddr, ClassSize;
    LiveInside(h, lists, c);
    assert SlabOk(c.base, h.slabs[c.base]);
    ClassPositive(h.slabs[c.base].cls);
    ClassPositive(h.slabs[d.base].cls);
    if c != d {
      LiveDisjoint(h, lists, c, d);
    }
  }

  lemma ClassPositive(cls: nat)
    ensures ClassSize(cls) > 0
  {
  }

  /** A taken chunk was held by nobody, and is held afterwards. */
  lemma TakeAgrees(h: Heap, lists: seq<seq<int>>, held: map<int, nat>, base: int, h1: Heap, addr: int)
    requires Inv(h, lists) && Agrees(h, held) && base in h.slabs && h.slabs[base].free != 0 && Taken(h, base, h1, addr)
    ensures Inv(h1, lists) && addr > 0 && addr !in held && Agrees(h1, held[addr := h.slabs[base].cls])
  {
    hide Inv, Live, ChunkAddr, Count, ClassSize, SlabSize, NumWords, ChunksPerSlab, FirstSet;
    TakeKeeps(h, lists, base);
    var c := Chunk(base, FirstSet(h.slabs[base].bits));
    ChangeAgrees(h, h1, lists, held, c);
  }

  lemma ChangeAgrees(h: Heap, h1: Heap, lists: seq<seq<int>>, held: map<int, nat>, c: Chunk)
    requires Agrees(h, held) && BitSet(h, h1, c, false) && Inv(h1, lists)
    requires !Live(h, c) && Live(h1, c) && forall d :: d != c ==> (Live(h1, d) <==> Live(h, d))
    ensures Start(h1, c) > 0 && Start(h1, c) !in held && Agrees(h1, held[Start(h1, c) := h.slabs[c.base].cls])
  {
    hide Inv, ChunkAddr, ClassSize, SlabSize, NumWords, ChunksPerSlab;
    var addr := Start(h1, c);
    var held1 := held[addr := h.slabs[c.base].cls];
    StartsDiffer(h1, lists, c, c);
    if addr in held {
      var d :| Live(h, d) && Start(h, d) == addr;
      StartsDiffer(h1, lists, c, d);
    }
    forall d | Live(h1, d) ensures Start(h1, d) in held1 && held1[Start(h1, d)] == h1.slabs[d.base].cls {
      if d != c {
        StartsDiffer(h1, lists, c, d);
        assert Live(h, d);
      }
    }
    forall a | a in held1 ensures exists d :: Live(h1, d) && Start(h1, d) == a {
      if a != addr {
        var d :| Live(h, d) && Start(h, d) == a;
        assert d != c;
        assert Live(h1, d) && Start(h1, d) == a;
      }
    }
  }

  /** Giving back a held address ends exactly that chunk's life. */
  lemma ReleaseAgrees(h: Heap, lists: seq<seq<int>>, held: map<int, nat>, addr: int)
    requires Inv(h, lists) && Agrees(h, held) && addr in held
    ensures Freeable(h, addr) && Inv(Free(h, addr), lists) && Agrees(Free(h, addr), held - {addr})
  {
    hide Inv, Live, ChunkAddr, Count, ClassSize, SlabSize, NumWords, ChunksPerSlab, Freeable, Free;
    LiveHere(h);
    var c :| Live(h, c) && Start(h, c) == addr;
    FreeKeeps(h, lists, c);
    var h1 := Free(h, addr);
    LiveHere(h1);
    forall d | Live(h1, d) ensures Start(h1, d) in held - {addr} && held[Start(h1, d)] == h1.slabs[d.base].cls {
      assert Live(h, d);
      StartsDiffer(h, lists, c, d);
    }
    forall a | a in held - {addr} ensures exists d :: Live(h1, d) && Start(h1, d) == a {
      var d :| Live(h, d) && Start(h, d) == a;
      assert Live(h1, d) && Start(h1, d) == a;
    }
  }

  lemma LiveHere(h: Heap)
    ensures forall d :: Live(h, d) ==> d.base in h.slabs
  {
  }

  /** A new slab holds no chunk of anybody. */
  lemma LinkAgrees(h: Heap, lists: seq<seq<int>>, held: map<int, nat>, raw: nat, cls: nat)
    requires Inv(h, lists) && Agrees(h, held) && cls < NUM_CLASSES && cls < |lists| && cls < |h.heads|
    requires SlabSize(cls) > 0 && FreshMapping(h, raw, 2 * SlabSize(cls))
    ensures var base := AlignUp(raw, SlabSize(cls));
      && Inv(Link(h, base, cls), Push(lists, cls, base)) && HasFree(Link(h, base, cls), cls, base)
      && Agrees(Link(h, base, cls), held)
  {
    hide Inv, Live, Agrees, SlabSize, AlignUp, FreshMapping, Link, Push;
    var base := AlignUp(raw, SlabSize(cls));
    LinkKeeps(h, lists, raw, cls);
    LinkSlabs(h, lists, raw, cls);
    LinkClasses(h, base, cls);
    SameChunks(h, Link(h, base, cls), held);
  }

  lemma LinkClasses(h: Heap, base: int, cls: nat)
    requires cls < |h.heads| && base !in h.slabs
    ensures forall b :: b in h.slabs ==> b in Link(h, base, cls).slabs && Link(h, base, cls).slabs[b].cls == h.slabs[b].cls
  {
    hide FullBitmap, NumWords, ChunksPerSlab;
  }

  lemma SameChunks(h: Heap, h1: Heap, held: map<int, nat>)
    requires Agrees(h, held) && forall d :: Live(h1, d) <==> Live(h, d)
    requires forall b :: b in h.slabs ==> b in h1.slabs && h1.slabs[b].cls == h.slabs[b].cls
    ensures Agrees(h1, held)
  {
    hide Live, ChunkAddr;
    LiveHere(h);
    forall d | Live(h1, d) ensures Start(h1, d) in held && held[Start(h1, d)] == h1.slabs[d.base].cls {
      assert Live(h, d);
    }
    forall a | a in held ensures exists d :: Live(h1, d) && Start(h1, d) == a {
      var d :| Live(h, d) && Start(h, d) == a;
      assert Live(h1, d) && Start(h1, d) == a;
    }
  }

  lemma ListsCount(h: Heap, lists: seq<seq<int>>)
    requires Inv(h, lists)
    ensures |lists| == |h.heads| == NUM_CLASSES
  {
  }

  /** An allocation hands out an address nobody holds. */
  lemma AllocGood(p: Point, lists: seq<seq<int>>, cls: nat, mapping: Option<nat>, q: Point, addr: int)
    requires Inv(p.heap, lists) && Agrees(p.heap, p.held) && cls < NUM_CLASSES
    requires Allocates(p.heap, cls, mapping, q.heap, addr)
    requires q.held == if addr == 0 then p.held else p.held[addr := cls]
    ensures Good(q) && (addr != 0 ==> addr !in p.held)
  {
    hide Inv, Agrees, Link, AlignUp, FreshMapping, SlabSize, Full, Taken, Push;
    ListsCount(p.heap, lists);
    if base :| HasFree(p.heap, cls, base) && Taken(p.heap, base, q.heap, addr) {
      TakeAgrees(p.heap, lists, p.held, base, q.heap, addr);
    } else if mapping.Some? {
      var base := AlignUp(mapping.value, SlabSize(cls));
      LinkAgrees(p.heap, lists, p.held, mapping.value, cls);
      TakeAgrees(Link(p.heap, base, cls), Push(lists, cls, base), p.held, base, q.heap, addr);
    } else {
      assert q == p;
    }
  }

  /** A step keeps the heap sound, and an allocation keeps everything that was held. */
  lemma NextGood(p: Point, move: Move, q: Point)
    requires Good(p) && Next(p, move, q)
    ensures Good(q)
    ensures move.Alloc? ==> forall a :: a in p.held ==> a in q.held && q.held[a] == p.held[a]
  {
    hide Inv, Agrees, Allocates, Free, Freeable;
    var lists :| Inv(p.heap, lists);
    match move
    case Alloc(cls, mapping) =>
      var addr :| Allocates(p.heap, cls, mapping, q.heap, addr) &&
                  q.held == if addr == 0 then p.held else p.held[addr := cls];
      AllocGood(p, lists, cls, mapping, q, addr);
    case Release(addr) => ReleaseAgrees(p.heap, lists, p.held, addr);
  }

  lemma StartGood()
    ensures Good(Point(NoSlabs(), map[]))
  {
    hide SlabOk, Apart, ChunksPerSlab;
    var h := NoSlabs();
    var lists: seq<seq<int>> := seq(NUM_CLASSES, _ => []);
    assert forall c :: 0 <= c < NUM_CLASSES ==> Linked(h, h.heads[c], lists[c]);
    assert Inv(h, lists);
  }

  /** After any run of allocations and frees the heap is sound and the live chunks are exactly the addresses held. */
  lemma {:induction false} ReachableGood(run: seq<Point>, moves: seq<Move>, k: nat)
    requires IsHistory(run, moves) && k < |run|
    ensures Good(run[k])
    decreases k
  {
    hide Next, Good, NoSlabs;
    if k == 0 {
      StartGood();
    } else {
      ReachableGood(run, moves, k - 1);
      assert Next(run[k - 1], moves[k - 1], run[k - 1 + 1]);
      NextGood(run[k - 1], moves[k - 1], run[k]);
    }
  }

  /** In every reachable state the memory behind any two held addresses is disjoint, whatever their classes. */
  lemma HeldApart(run: seq<Point>, moves: seq<Move>, k: nat, a: int, b: int)
    requires IsHistory(run, moves) && k < |run|
    requires a in run[k].held && b in run[k].held && a != b
    ensures a + ClassSize(run[k].held[a]) <= b || b + ClassSize(run[k].held[b]) <= a
    ensures a % 16 == 0 && a > 0
  {
    hide IsHistory, Live, Inv, ChunkAddr, ClassSize;
    ReachableGood(run, moves, k);
    var h := run[k].heap;
    LiveHere(h);
    var lists :| Inv(h, lists);
    var c :| Live(h, c) && Start(h, c) == a;
    var d :| Live(h, d) && Start(h, d) == b;
    LiveDisjoint(h, lists, c, d);
    LiveInside(h, lists, c);
    StartsDiffer(h, lists, c, d);
  }

  /** In every reachable state the address of a held chunk is enough to give it back. */
  lemma HeldFreeable(run: seq<Point>, moves: seq<Move>, k: nat, addr: int)
    requires IsHistory(run, moves) && k < |run| && addr in run[k].held
    ensures Freeable(run[k].heap, addr)
  {
    hide IsHistory, Inv, Agrees, Freeable;
    ReachableGood(run, moves, k);
    var lists :| Inv(run[k].heap, lists);
    ReleaseAgrees(run[k].heap, lists, run[k].held, addr);
  }
}
