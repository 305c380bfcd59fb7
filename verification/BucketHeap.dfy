/** `rt_allocate_raw` and `rt_free` over the bucket heap. */
module BucketHeap {
  import opened SlabLayout
  import opened BucketAllocator

  /** A system call that gives memory back. */
  datatype Released = Nothing | Advise(addr: int, len: int) | Unmapped(addr: int, len: int)

  /** The advice a freed block gives, from its header alone. */
  function Given(k: Block): Released {
    var b := Bucket(if k.stop < k.start then 0 else k.stop - k.start);
    if b < 0 then Nothing
    else
      var (addr, len) := Advised(k.start, b);
      if len > 0 then Advise(addr, len) else Nothing
  }

  /** A page behind the chain word and inside `size` bytes of payload. */
  predicate WholePage(p: int, start: int, size: nat) {
    p % PAGE == 0 && start + 8 <= p && p + PAGE <= start + size
  }

  /**
   * From two pages up, exactly the whole pages behind the chain word are advised; below that, or when there is none,
   * nothing is.
   */
  ghost predicate AdvisesWholePages(released: Released, start: int, size: nat) {
    match released
    case Nothing => size < 2 * PAGE || forall p :: !WholePage(p, start, size)
    case Advise(addr, len) =>
      && size >= 2 * PAGE && addr % PAGE == 0 && len % PAGE == 0 && len >= PAGE
      && start + 8 <= addr && addr + len <= start + size
      && forall p :: WholePage(p, start, size) ==> addr <= p && p + PAGE <= addr + len
    case Unmapped(_, _) => false
  }

  /** No byte of another block, its header included, and no byte of the unused heap is advised. */
  predicate AdvisesOwn(h: Heap, f: int, released: Released) {
    released.Advise? ==>
      && (released.addr + released.len <= h.curr || h.end <= released.addr)
      && forall g :: g in h.blocks && g != f ==>
           released.addr + released.len <= g || h.blocks[g].start + BucketSize(h.blocks[g].bucket) <= released.addr
  }

  lemma PagesBetween(p: int, start: int, size: nat)
    ensures WholePage(p, start, size) ==>
      PageUp(start + 8) <= p && p + PAGE <= PageUp(start + 8) + PageDown(start + size - PageUp(start + 8))
  {
  }

  /** The advice a header gives, for a size its capacity holds. */
  lemma GivenRight(k: Block)
    requires k.start <= k.stop && Bucket(k.stop - k.start) >= 0
    ensures AdvisesWholePages(Given(k), k.start, BucketSize(Bucket(k.stop - k.start)))
  {
    hide Bucket, ClassSize, PageUp, PageDown;
    var size := BucketSize(Bucket(k.stop - k.start));
    PageUpBounds(k.start + 8);
    var addr := PageUp(k.start + 8);
    PageDownBounds(k.start + size - addr);
    forall p
      ensures WholePage(p, k.start, size) ==> addr <= p && p + PAGE <= addr + PageDown(k.start + size - addr)
    {
      PagesBetween(p, k.start, size);
    }
  }

  lemma OwnPages(h: Heap, lists: seq<seq<int>>, f: int, size: nat, released: Released)
    requires Inv(h, lists) && f in h.blocks && size <= BucketSize(h.blocks[f].bucket)
    requires AdvisesWholePages(released, h.blocks[f].start, size)
    ensures AdvisesOwn(h, f, released)
  {
    hide ClassSize, FreeLists, MappingOk, WholePage;
    assert BlockOk(h, f, h.blocks[f]);
    if f in h.maps {
      OutsideHeap(h, f);
    }
    forall g | g in h.blocks && g != f ensures ApartBlocks(f, h.blocks[f], g, h.blocks[g]) {
    }
  }

  class Allocator {
    const base: int
    const end: int
    var curr: int
    const heads: array<int>
    var blocks: map<int, Block>
    var maps: map<int, Mapping>
    var stranded: map<int, nat>
    ghost var lists: seq<seq<int>>

    ghost function View(): Heap
      reads this, heads
    {
      Heap(base, curr, end, heads[..], blocks, maps, stranded)
    }

    ghost predicate Valid()
      reads this, heads
    {
      heads.Length == MAX_BUCKET + 1 && Inv(View(), lists)
    }

    constructor (base: int, end: int)
      requires 0 < base <= end
      ensures Valid() && fresh(heads) && View() == Empty(base, end)
    {
      this.base, this.end, curr := base, end, base;
      heads := new int[MAX_BUCKET + 1](_ => 0);
      blocks, maps, stranded := map[], map[], map[];
      lists := seq(MAX_BUCKET + 1, _ => []);
      new;
      assert heads[..] == seq(MAX_BUCKET + 1, _ => 0);
    }

    /** The fat pointer of a block with `size` visible bytes; 0 when the heap is exhausted. */
    method Allocate(size: nat, mapping: int) returns (f: int)
      requires Valid() && Allowed(View(), Alloc(size, mapping))
      modifies this, heads
      ensures Valid() && View() == AllocStep(old(View()), size, mapping)
      ensures Bucket(size) > MAX_BUCKET ==>
        && f == mapping && f in maps && maps[f].start == f + HUGE_PAYLOAD && maps[f].stop == f + maps[f].size
        && size + HUGE_PAYLOAD <= maps[f].size < size + HUGE_PAYLOAD + PAGE && maps[f].size % PAGE == 0
        && blocks == old(blocks) && heads[..] == old(heads[..]) && curr == old(curr)
      ensures Bucket(size) <= MAX_BUCKET && f != 0 ==>
        && f in blocks && blocks[f].live && blocks[f].stop == blocks[f].start + size
        && (f in old(blocks) ==> !old(blocks)[f].live)
      ensures Bucket(size) <= MAX_BUCKET && f == 0 ==> View() == old(View())
      ensures 0 <= Bucket(size) && heads.Length == |old(heads[..])| == MAX_BUCKET + 1
      ensures Bucket(size) <= MAX_BUCKET && old(heads[..])[Bucket(size)] != 0 ==>
        && f == old(heads[..])[Bucket(size)] && f in old(blocks) && curr == old(curr)
        && heads[..] == old(heads[..])[Bucket(size) := old(blocks)[f].chain]
        && blocks == old(blocks)[f := blocks[f]] && blocks[f].start == old(blocks)[f].start
      ensures Bucket(size) <= MAX_BUCKET && old(heads[..])[Bucket(size)] == 0 ==>
        var start := Align16(old(curr) + HEADER);
        && old(curr) + HEADER <= start < old(curr) + HEADER + 16 && start % 16 == 0
        && heads[..] == old(heads[..]) && (f == 0 <==> start + BucketSize(Bucket(size)) > end)
        && (f != 0 ==>
              && f == old(curr) && curr == start + BucketSize(Bucket(size)) && blocks[f].start == start
              && blocks[f].bucket == Bucket(size) && blocks == old(blocks)[f := blocks[f]])
    {
      hide Inv, Bucket, ClassSize, PageUp, FreshMapping, AllocStep, Align16;
      AlignedUp(curr + HEADER);
      ghost var before := View();
      BucketExact(size);
      HeadsCount(before, lists);
      var b := Bucket(size);
      if b > MAX_BUCKET {
        MapKeeps(before, lists, mapping, size);
        maps := maps[mapping := Mapping(mapping + HUGE_PAYLOAD, mapping + PageUp(size + HUGE_PAYLOAD), PageUp(size + HUGE_PAYLOAD))];
        f := mapping;
        PageUpBounds(size + HUGE_PAYLOAD);
        MapRoute(before, size, mapping);
        return;
      }
      f := heads[b];
      if f != 0 {
        PopKeeps(before, lists, b, size);
        var k := blocks[f];
        heads[b] := k.chain;
        blocks := blocks[f := k.(stop := k.start + size, chain := 0, live := true)];
        lists := lists[b := lists[b][1..]];
        PopRoute(before, size, mapping);
        assert View() == PopHead(before, b, size);
        return;
      }
      var start := Align16(curr + HEADER);
      if start + BucketSize(b) > end {
        FullRoute(before, size, mapping);
        return 0;
      }
      BumpKeeps(before, lists, b, size);
      f := curr;
      CurrPositive(before, lists);
      blocks := blocks[f := Block(start, start + size, 0, b, true)];
      curr := start + BucketSize(b);
      BumpRoute(before, size, mapping);
      assert View() == Bump(before, b, size);
    }

    /** `buf_trim`: the visible end moves, in whatever header the fat pointer is. */
    method Trim(f: int, len: nat)
      requires Valid() && (f in blocks || f in maps)
      requires Allowed(View(), BucketAllocator.Trim(f, (if f in blocks then blocks[f].start else maps[f].start) + len))
      modifies this`blocks, this`maps
      ensures Valid()
      ensures var start := if f in old(blocks) then old(blocks)[f].start else old(maps)[f].start;
        View() == Step(old(View()), BucketAllocator.Trim(f, start + len))
      ensures f in old(blocks) ==>
        maps == old(maps) && blocks == old(blocks)[f := old(blocks)[f].(stop := old(blocks)[f].start + len)]
      ensures f !in old(blocks) ==>
        blocks == old(blocks) && maps == old(maps)[f := old(maps)[f].(stop := old(maps)[f].start + len)]
    {
      hide Inv, ClassSize;
      ghost var before := View();
      if f in blocks {
        SetStopKeeps(before, lists, f, blocks[f].start + len);
        blocks := blocks[f := blocks[f].(stop := blocks[f].start + len)];
      } else {
        SetMapStopKeeps(before, lists, f, maps[f].start + len);
        maps := maps[f := maps[f].(stop := maps[f].start + len)];
      }
    }

    /**
     * By the distance of the header's two words alone: onto that size's list, with whole free pages advised away; or,
     * above the biggest bucket, unmapped from the header up to the visible end.
     */
    method Free(f: int) returns (released: Released)
      requires Valid() && if f in blocks then blocks[f].live else f in maps
      modifies this, heads
      ensures Valid()
      ensures old(f in blocks) ==>
        View() == Step(old(View()), FreeBlock(f)) && released == Given(old(blocks)[f])
      ensures old(f !in blocks) ==>
        && View() == Step(old(View()), FreeHuge(f))
        && var m := old(maps)[f];
           released == if m.stop - m.start > BucketSize(MAX_BUCKET) then Unmapped(f, m.stop - f)
                       else Given(Block(m.start, m.stop, 0, MAX_BUCKET, true))
      ensures !released.Unmapped? ==>
        var start := old(if f in blocks then blocks[f].start else maps[f].start);
        var b := Bucket(old(if f in blocks then blocks[f].stop - blocks[f].start else maps[f].stop - maps[f].start));
        && 0 <= b < heads.Length == |old(heads[..])| && heads[b] == f
        && f in blocks && blocks[f].start == start && !blocks[f].live && blocks[f].chain == old(heads[..])[b]
        && AdvisesWholePages(released, start, BucketSize(b)) && AdvisesOwn(View(), f, released)
    {
      hide Inv, Bucket, ClassSize, PageUp, PageDown, FreeMapped;
      ghost var before := View();
      ghost var lists1 := lists;
      HeadsCount(before, lists);
      var start, stop := if f in blocks then blocks[f].start else maps[f].start, if f in blocks then blocks[f].stop else maps[f].stop;
      if f in blocks {
        FreeKeeps(before, lists, f);
      } else {
        lists1 := FreeMappedKeeps(before, lists, f);
        HugeIsBig(stop - start);
      }
      var b := Bucket(stop - start);
      if b > MAX_BUCKET {
        released := Unmapped(f, stop - f);
        var len := PageUp(stop - f);
        if 0 <= len < maps[f].size {
          stranded := stranded[f + len := maps[f].size - len];
        }
        maps := maps - {f};
        assert View() == Unmap(before, f);
        return;
      }
      blocks := blocks[f := Block(start, stop, heads[b], if f in blocks then blocks[f].bucket else MAX_BUCKET, false)];
      heads[b] := f;
      lists := lists[b := [f] + lists[b]];
      assert View() == PushFree(if f in before.blocks then before else Adopt(before, f), f, b);
      released := Given(Block(start, stop, 0, 0, true));
      GivenRight(Block(start, stop, 0, 0, true));
      ClassMono(b, blocks[f].bucket);
      OwnPages(View(), lists, f, BucketSize(b), released);
    }
  }

  lemma AlignedUp(addr: int)
    ensures addr <= Align16(addr) < addr + 16 && Align16(addr) % 16 == 0
  {
  }

  lemma MapRoute(h: Heap, size: nat, mapping: int)
    requires Bucket(size) > MAX_BUCKET && PageUp(size + HUGE_PAYLOAD) >= 0
    ensures AllocStep(h, size, mapping) == MapHuge(h, mapping, size)
  {
  }

  lemma PopRoute(h: Heap, size: nat, mapping: int)
    requires 0 <= Bucket(size) <= MAX_BUCKET && |h.heads| == MAX_BUCKET + 1
    requires h.heads[Bucket(size)] != 0 && h.heads[Bucket(size)] in h.blocks
    ensures AllocStep(h, size, mapping) == PopHead(h, Bucket(size), size)
  {
  }

  lemma BumpRoute(h: Heap, size: nat, mapping: int)
    requires 0 <= Bucket(size) <= MAX_BUCKET && |h.heads| == MAX_BUCKET + 1 && h.heads[Bucket(size)] == 0
    requires BumpStart(h) + BucketSize(Bucket(size)) <= h.end
    ensures AllocStep(h, size, mapping) == Bump(h, Bucket(size), size)
  {
  }

  lemma FullRoute(h: Heap, size: nat, mapping: int)
    requires 0 <= Bucket(size) <= MAX_BUCKET && |h.heads| == MAX_BUCKET + 1 && h.heads[Bucket(size)] == 0
    requires BumpStart(h) + BucketSize(Bucket(size)) > h.end
    ensures AllocStep(h, size, mapping) == h
  {
  }

  lemma CurrPositive(h: Heap, lists: seq<seq<int>>)
    requires Inv(h, lists)
    ensures h.curr > 0
  {
  }
}
