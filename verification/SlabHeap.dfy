/** The slab allocator's entry points, as they run over the mapped slabs. */
module SlabHeap {
  import opened Lake
  import opened SlabLayout
  import opened SlabAllocator
  import opened SlabRuns

  /** A range of a mapping given back. */
  datatype Unmapped = Unmapped(addr: int, len: int)

  /** Where an allocation takes its chunk: the current slab while it has room, else the first listed one with room. */
  ghost predicate Preferred(h: Heap, list: seq<int>, cls: nat, base: int)
    requires cls < |h.currents|
  {
    if h.currents[cls] in h.slabs && h.slabs[h.currents[cls]].free != 0 then base == h.currents[cls]
    else FirstWithRoom(h, list, base)
  }

  ghost predicate FirstWithRoom(h: Heap, list: seq<int>, base: int) {
    exists k :: 0 <= k < |list| && list[k] == base && base in h.slabs && h.slabs[base].free != 0
      && forall j :: 0 <= j < k ==> list[j] in h.slabs && h.slabs[list[j]].free == 0
  }

  /** The lowest free chunk of its slab. */
  predicate Lowest(h: Heap, c: Chunk) {
    && c.base in h.slabs && c.index < |h.slabs[c.base].bits| && h.slabs[c.base].bits[c.index]
    && forall j :: 0 <= j < c.index ==> !h.slabs[c.base].bits[j]
  }

  class Allocator {
    var slabs: map<int, Slab>
    var heads: seq<int>
    var currents: seq<int>
    ghost var lists: seq<seq<int>>

    ghost function View(): Heap
      reads this
    {
      Heap(slabs, heads, currents)
    }

    ghost predicate Valid()
      reads this
    {
      Inv(View(), lists)
    }

    constructor ()
      ensures Valid() && slabs == map[]
    {
      slabs := map[];
      heads := seq(NUM_CLASSES, _ => 0);
      currents := seq(NUM_CLASSES, _ => 0);
      lists := seq(NUM_CLASSES, _ => []);
    }

    /** Clear the first set bit of a slab that has one. */
    method TakeFrom(base: int) returns (addr: int, ghost c: Chunk)
      requires Valid() && base in slabs && slabs[base].free != 0
      modifies this`slabs, this`currents
      ensures Valid() && c.base == base && slabs.Keys == old(slabs.Keys) && slabs[base].cls == old(slabs[base].cls)
      ensures BitSet(old(View()), View(), c, false) && !Live(old(View()), c) && Live(View(), c)
      ensures addr == Start(View(), c) && Taken(old(View()), base, View(), addr)
      ensures Lowest(old(View()), c) && slabs[base].cls < |old(currents)|
      ensures currents == old(currents)[slabs[base].cls := base]
      ensures forall d :: d != c ==> (Live(View(), d) <==> Live(old(View()), d))
    {
      hide Inv, Live, ChunkAddr, Count, FirstSet, NumWords, ChunksPerSlab, SlabSize;
      ghost var before := View();
      TakeKeeps(before, lists, base);
      SlabShape(before, lists, base);
      var s := slabs[base];
      var i := Scan(s.bits, NumWords(s.cls));
      slabs := slabs[base := s.(bits := s.bits[i := false], free := s.free - 1)];
      currents := currents[s.cls := base];
      addr := ChunkAddr(base, s.cls, i);
      c := Chunk(base, i);
      assert (View(), addr) == Take(before, base);
    }

    /** Map twice the size, keep the aligned slab inside, initialise it and link it at the head. */
    method NewSlab(cls: nat, raw: nat) returns (base: int, prefix: Unmapped, suffix: Unmapped)
      requires Valid() && cls < NUM_CLASSES && SlabSize(cls) > 0 && FreshMapping(View(), raw, 2 * SlabSize(cls))
      modifies this`slabs, this`heads, this`lists
      ensures Valid() && base in slabs && slabs[base].free != 0 && slabs[base].cls == cls
      ensures |slabs[base].bits| > 0 && slabs[base].bits[0]
      ensures forall d :: Live(View(), d) <==> Live(old(View()), d)
      ensures base == AlignUp(raw, SlabSize(cls)) && base % SlabSize(cls) == 0
      ensures cls < |old(heads)| && View() == Link(old(View()), base, cls)
      ensures prefix.addr == raw && prefix.addr + prefix.len == base && prefix.len >= 0
      ensures suffix.addr == base + SlabSize(cls) && suffix.addr + suffix.len == raw + 2 * SlabSize(cls) && suffix.len >= 0
    {
      hide Inv, Live, ChunkAddr, Count, NumWords, ChunksPerSlab, SlabSize, AlignUp, FullBitmap;
      ghost var before := View();
      LinkKeeps(before, lists, raw, cls);
      HeadInside(before, lists, cls);
      WordsCover(cls);
      Trimmed(raw, SlabSize(cls));
      base := AlignUp(raw, SlabSize(cls));
      prefix := Unmapped(raw, base - raw);
      suffix := Unmapped(base + SlabSize(cls), SlabSize(cls) - prefix.len);
      var bits := FillBitmap(NumWords(cls), ChunksPerSlab(cls));
      var head := heads[cls];
      if head != 0 {
        slabs := slabs[head := slabs[head].(prev := base)];
      }
      slabs := slabs[base := Slab(cls, bits, ChunksPerSlab(cls), head, 0)];
      heads := heads[cls := base];
      lists := Push(lists, cls, base);
      assert View() == Link(before, base, cls);
      FirstFree(cls);
    }

    /** The first slab of the class, in list order, with a free chunk. */
    method WalkList(cls: nat) returns (base: int)
      requires Valid() && cls < NUM_CLASSES
      ensures base != 0 ==> base in slabs && slabs[base].cls == cls && slabs[base].free != 0
      ensures base == 0 ==> Full(View(), cls)
      ensures cls < |lists| && (base != 0 ==> FirstWithRoom(View(), lists[cls], base))
    {
      hide SlabOk, Apart;
      ghost var list := lists[cls];
      ghost var k := 0;
      assert Linked(View(), heads[cls], list);
      base := heads[cls];
      while base != 0
        invariant 0 <= k <= |list|
        invariant base == if k < |list| then list[k] else 0
        invariant forall j :: 0 <= j < k ==> slabs[list[j]].free == 0
        decreases |list| - k
      {
        assert k < |list| && base == list[k];
        assert base in list && base in slabs;
        if slabs[base].free != 0 {
          return;
        }
        base := slabs[base].next;
        k := k + 1;
      }
      NullIsNoSlab(View(), lists);
      assert k == |list|;
      assert forall b :: b in list ==> slabs[b].free == 0;
    }

    /**
     * `rt_allocate_slab`: from the class's current slab, else from the first listed one with room, else from a new
     * one. Nothing but a failing mapping returns 0, and only when no slab of the class has a free chunk.
     */
    method Allocate(cls: nat, mapping: Option<nat>) returns (addr: int, ghost c: Chunk)
      requires Valid() && cls < NUM_CLASSES
      requires mapping.Some? ==> SlabSize(cls) > 0 && FreshMapping(View(), mapping.value, 2 * SlabSize(cls))
      modifies this
      ensures Valid() && Allocates(old(View()), cls, mapping, View(), addr)
      ensures addr == 0 ==> mapping == None && View() == old(View())
      ensures addr == 0 ==> Full(View(), cls)
      ensures addr != 0 ==>
        !Live(old(View()), c) && Live(View(), c) && slabs[c.base].cls == cls && addr == Start(View(), c)
      ensures addr != 0 ==> forall d :: d != c ==> (Live(View(), d) <==> Live(old(View()), d))
      ensures cls < |old(lists)| && cls < |old(currents)|
      ensures addr != 0 ==> currents == old(currents)[cls := c.base]
      ensures addr != 0 && !Full(old(View()), cls) ==>
        && slabs.Keys == old(slabs.Keys) && heads == old(heads)
        && Preferred(old(View()), old(lists)[cls], cls, c.base) && Lowest(old(View()), c)
      ensures addr != 0 && Full(old(View()), cls) ==> mapping.Some? && c == Chunk(AlignUp(mapping.value, SlabSize(cls)), 0)
    {
      hide Live, ChunkAddr, Count, NumWords, ChunksPerSlab, SlabSize, SlabOk, Apart, Linked, FreshMapping, BitSet;
      hide Link, AlignUp, Taken;
      c := Chunk(0, 0);
      NullIsNoSlab(View(), lists);
      var current := currents[cls];
      if current != 0 && slabs[current].free != 0 {
        addr, c := TakeFrom(current);
        StartPositive(View(), lists, c);
        return;
      }
      var base := WalkList(cls);
      if base != 0 {
        addr, c := TakeFrom(base);
        StartPositive(View(), lists, c);
        return;
      }
      if mapping.None? {
        return 0, c;
      }
      var prefix, suffix;
      base, prefix, suffix := NewSlab(cls, mapping.value);
      addr, c := TakeFrom(base);
      StartPositive(View(), lists, c);
    }

    /** `rt_free_slab`. */
    method Free(addr: int, ghost c: Chunk)
      requires Valid() && Live(View(), c) && addr == Start(View(), c)
      modifies this`slabs
      ensures Valid() && !Live(View(), c) && BitSet(old(View()), View(), c, true)
      ensures Freeable(old(View()), addr) && View() == SlabAllocator.Free(old(View()), addr)
      ensures forall d :: d != c ==> (Live(View(), d) <==> Live(old(View()), d))
    {
      hide Inv, Live, ChunkAddr, Count, NumWords, ChunksPerSlab, SlabSize, ClassSize, PayloadOffset;
      ghost var before := View();
      FreeKeeps(before, lists, c);
      var base := SlabOf(addr);
      var s := slabs[base];
      var i := SlabAllocator.IndexOf(addr, base, s.cls);
      slabs := slabs[base := s.(bits := s.bits[i := true], free := s.free + 1)];
      assert View() == SlabAllocator.Free(before, addr);
    }
  }

  lemma SlabShape(h: Heap, lists: seq<seq<int>>, base: int)
    requires Inv(h, lists) && base in h.slabs
    ensures |h.slabs[base].bits| == 64 * NumWords(h.slabs[base].cls)
  {
    hide Lists, Apart, SlabSize, ChunksPerSlab, NumWords;
    assert SlabOk(base, h.slabs[base]);
  }

  lemma HeadInside(h: Heap, lists: seq<seq<int>>, cls: nat)
    requires Inv(h, lists) && cls < NUM_CLASSES
    ensures cls < |h.heads| && cls < |lists| && (h.heads[cls] != 0 ==> h.heads[cls] in h.slabs)
  {
    hide Slabs;
    assert Linked(h, h.heads[cls], lists[cls]);
  }

  lemma WordsCover(cls: nat)
    ensures 64 * NumWords(cls) < ChunksPerSlab(cls) + 64 && ChunksPerSlab(cls) <= 64 * NumWords(cls)
  {
    hide ChunksPerSlab;
  }

  lemma FirstFree(cls: nat)
    requires cls < NUM_CLASSES
    ensures var bits := FullBitmap(NumWords(cls), ChunksPerSlab(cls)); |bits| > 0 && bits[0]
  {
    hide ChunksPerSlab, NumWords, PayloadOffset, ClassSize, SlabSize;
    WordsCover(cls);
    Geometry(cls);
  }

  lemma NullIsNoSlab(h: Heap, lists: seq<seq<int>>)
    requires Inv(h, lists)
    ensures 0 !in h.slabs
  {
    hide Lists, Apart;
    assert forall b :: b in h.slabs ==> SlabOk(b, h.slabs[b]);
  }

  lemma StartPositive(h: Heap, lists: seq<seq<int>>, c: Chunk)
    requires Inv(h, lists) && Live(h, c)
    ensures Start(h, c) > 0
  {
    hide Lists, Apart, ClassSize, SlabSize, ChunksPerSlab, NumWords, PayloadOffset;
    LiveInside(h, lists, c);
    assert SlabOk(c.base, h.slabs[c.base]);
  }
}
