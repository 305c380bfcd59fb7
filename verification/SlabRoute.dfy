/** Slab mode: which sizes the slabs serve, and which way a free goes by its header alone. */
module SlabRoute {
  import opened SlabLayout
  import SlabAllocator
  import Buckets = BucketAllocator

  /** The class of a payload and its 16-byte header, at allocation and, from the visible size, at free. */
  function RouteClass(size: nat): nat {
    Buckets.BucketExact(size + Buckets.HEADER);
    Buckets.Bucket(size + Buckets.HEADER)
  }

  /** Classes up to 20 go to the slabs, everything above to a mapping of its own. */
  predicate ToSlab(size: nat) {
    RouteClass(size) <= Buckets.MAX_BUCKET
  }

  lemma ToSlabExact(size: nat)
    ensures ToSlab(size) <==> size + Buckets.HEADER <= ClassSize(Buckets.MAX_BUCKET)
  {
    hide ClassSize, Buckets.Bucket;
    Buckets.BucketExact(size + Buckets.HEADER);
    Buckets.HugeIsBig(size + Buckets.HEADER);
  }

  /** A slab chunk holds header and payload, and however its visible end moves inside the chunk its free goes to the slabs. */
  lemma ChunkStays(size: nat, len: nat)
    requires ToSlab(size) && len + Buckets.HEADER <= ClassSize(RouteClass(size))
    ensures size + Buckets.HEADER <= ClassSize(RouteClass(size))
    ensures ToSlab(len) && RouteClass(len) <= RouteClass(size)
  {
    hide ClassSize, Buckets.Bucket;
    Buckets.BucketExact(size + Buckets.HEADER);
    Buckets.BucketWithin(len + Buckets.HEADER, RouteClass(size));
  }

  /**
   * A mapping of its own: its free unmaps, and exactly the mapping, with the header as written; with `len` bytes
   * visible, it unmaps if and only if `len` and a header exceed the biggest class, and exactly the mapping if and only
   * if moreover the end lies in its last page.
   */
  lemma MappingExact(size: nat, len: nat)
    requires !ToSlab(size)
    requires Buckets.HUGE_PAYLOAD + len <= Buckets.PageUp(size + Buckets.HUGE_PAYLOAD)
    ensures var whole := Buckets.PageUp(size + Buckets.HUGE_PAYLOAD);
      && whole >= Buckets.HUGE_PAYLOAD && !ToSlab(whole - Buckets.HUGE_PAYLOAD)
      && (!ToSlab(len) <==> len > ClassSize(Buckets.MAX_BUCKET) - Buckets.HEADER)
      && (!ToSlab(len) && Buckets.PageUp(Buckets.HUGE_PAYLOAD + len) == whole <==>
            len > ClassSize(Buckets.MAX_BUCKET) - Buckets.HEADER && Buckets.HUGE_PAYLOAD + len > whole - Buckets.PAGE)
  {
    hide ClassSize, Buckets.Bucket, Buckets.PageUp;
    var whole := Buckets.PageUp(size + Buckets.HUGE_PAYLOAD);
    Buckets.PageUpBounds(size + Buckets.HUGE_PAYLOAD);
    ToSlabExact(size);
    ToSlabExact(len);
    ToSlabExact(whole - Buckets.HUGE_PAYLOAD);
    Buckets.LastPage(Buckets.HUGE_PAYLOAD + len, whole);
  }

  /** A mapping beside all slabs is in none of them: a free routed there by a shortened end finds no slab. */
  lemma MappingIsNoSlab(h: SlabAllocator.Heap, lists: seq<seq<int>>, a: nat, len: nat)
    requires SlabAllocator.Inv(h, lists) && len > 0 && SlabAllocator.FreshMapping(h, a, len)
    ensures !SlabAllocator.Freeable(h, a)
  {
    hide ClassSize, ChunksPerSlab, NumWords, PayloadOffset, SlabSize, SlabAllocator.Lists, SlabAllocator.IndexOf;
    var b := SlabAllocator.SlabOf(a);
    Masked(a);
    if b in h.slabs {
      assert SlabAllocator.SlabOk(b, h.slabs[b]);
      Geometry(h.slabs[b].cls);
      WholeSlabs(SlabSize(h.slabs[b].cls));
    }
  }

  lemma Masked(a: nat)
    ensures SlabAllocator.SlabOf(a) <= a < SlabAllocator.SlabOf(a) + DEFAULT_SLAB_SIZE
  {
  }

  lemma WholeSlabs(size: nat)
    requires size % DEFAULT_SLAB_SIZE == 0 && size > 0
    ensures size >= DEFAULT_SLAB_SIZE
  {
  }
}
