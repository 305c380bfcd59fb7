/** Geometry of slabs: class sizes, chunks per slab, where the bitmap and the chunks lie. */
module SlabLayout {

  const DEFAULT_SLAB_SIZE: nat := 65536
  const HDR_FIXED_BYTES: nat := 32
  const CHUNK_ALIGN: nat := 16
  const NUM_CLASSES: nat := 21

  function ClassSize(cls: nat): (n: nat)
    ensures n >= 16
  {
    if cls == 0 then 16 else 2 * ClassSize(cls - 1)
  }

  function SlabSize(cls: nat): nat {
    if 2 * ClassSize(cls) > DEFAULT_SLAB_SIZE then 2 * ClassSize(cls) else DEFAULT_SLAB_SIZE
  }

  function Times(index: nat, size: nat): nat {
    index * size
  }

  function CeilDiv(n: nat, d: nat): nat
    requires d > 0
  {
    (n + d - 1) / d
  }

  function RoundUp(n: nat, d: nat): nat
    requires d > 0
  {
    CeilDiv(n, d) * d
  }

  /** First byte after the header and a bitmap for `chunks` chunks, rounded up to the chunk alignment. */
  function PayloadFor(chunks: nat): nat {
    RoundUp(HDR_FIXED_BYTES + CeilDiv(chunks, 8), CHUNK_ALIGN)
  }

  /** One round of the fixed-point search; nothing when the bitmap alone fills the slab. */
  function Round(cls: nat, chunks: nat): int {
    if PayloadFor(chunks) >= SlabSize(cls) then -1 else (SlabSize(cls) - PayloadFor(chunks)) / ClassSize(cls)
  }

  function Settle(cls: nat, chunks: nat, rounds: nat): nat
    decreases rounds
  {
    if rounds == 0 then chunks
    else
      var actual := Round(cls, chunks);
      if actual < 0 then 0 else if actual == chunks then chunks else Settle(cls, actual, rounds - 1)
  }

  function ChunksPerSlab(cls: nat): nat {
    if SlabSize(cls) <= HDR_FIXED_BYTES + ClassSize(cls) then 0
    else Settle(cls, (SlabSize(cls) - HDR_FIXED_BYTES) / ClassSize(cls), 8)
  }

  /** The search as a loop of at most eight rounds. */
  method ComputeChunks(cls: nat) returns (chunks: nat)
    ensures chunks == ChunksPerSlab(cls)
  {
    hide Round;
    if SlabSize(cls) <= HDR_FIXED_BYTES + ClassSize(cls) {
      return 0;
    }
    chunks := (SlabSize(cls) - HDR_FIXED_BYTES) / ClassSize(cls);
    var left: nat := 8;
    while left > 0
      invariant Settle(cls, chunks, left) == ChunksPerSlab(cls)
    {
      var actual := Round(cls, chunks);
      if actual < 0 {
        return 0;
      }
      if actual == chunks {
        return;
      }
      chunks := actual;
      left := left - 1;
    }
  }

  function PayloadOffset(cls: nat): nat {
    if ChunksPerSlab(cls) == 0 then 0 else PayloadFor(ChunksPerSlab(cls))
  }

  function NumWords(cls: nat): nat {
    CeilDiv(ChunksPerSlab(cls), 64)
  }

  // ---------- What the numbers are good for ----------

  lemma {:induction false} Sizes()
    ensures ClassSize(0) == 16 && ClassSize(1) == 32 && ClassSize(2) == 64 && ClassSize(3) == 128 && ClassSize(4) == 256
    ensures ClassSize(5) == 512 && ClassSize(6) == 1024 && ClassSize(7) == 2048 && ClassSize(8) == 4096
    ensures ClassSize(9) == 8192 && ClassSize(10) == 16384 && ClassSize(11) == 32768 && ClassSize(12) == 65536
  {
    assert ClassSize(4) == 256;
    assert ClassSize(8) == 4096;
    assert ClassSize(12) == 65536;
  }

  lemma {:induction false} BigClass(cls: nat)
    requires cls >= 12
    ensures ClassSize(cls) >= 65536
    decreases cls
  {
    if cls == 12 {
      Sizes();
    } else {
      BigClass(cls - 1);
    }
  }

  lemma {:induction false} AlignedClass(cls: nat)
    ensures ClassSize(cls) % 16 == 0
  {
    if cls > 0 {
      AlignedClass(cls - 1);
    }
  }

  lemma MulLe(a: nat, b: nat, d: nat)
    requires a <= b
    ensures a * d <= b * d
  {
  }

  lemma QuotientIs(d: nat, q: nat, r: nat, m: nat)
    requires m < d && q * d <= r * d + m < q * d + d
    ensures r == q
  {
    if r < q {
      MulLe(r + 1, q, d);
    } else if q < r {
      MulLe(q + 1, r, d);
    }
  }

  lemma DivIs(n: nat, d: nat, q: nat)
    requires d > 0 && q * d <= n < q * d + d
    ensures n / d == q
  {
    var r, m := n / d, n % d;
    assert n == r * d + m;
    QuotientIs(d, q, r, m);
  }

  lemma RoundIs(cls: nat, size: nat, slab: nat, chunks: nat, payload: nat, result: nat)
    requires ClassSize(cls) == size && SlabSize(cls) == slab && PayloadFor(chunks) == payload < slab
    requires result * size <= slab - payload < result * size + size
    ensures Round(cls, chunks) == result
  {
    hide ClassSize, SlabSize, PayloadFor;
    DivIs(slab - payload, size, result);
  }

  /** A payload offset from its bounds. */
  lemma PayloadIs(chunks: nat, bytes: nat, units: nat)
    requires 8 * bytes < chunks + 8 && chunks <= 8 * bytes
    requires 16 * units < 32 + bytes + 16 && 32 + bytes <= 16 * units
    ensures PayloadFor(chunks) == 16 * units
  {
    DivIs(chunks + 7, 8, bytes);
    DivIs(32 + bytes + 15, 16, units);
  }

  /** A start from which the second round settles, in a default slab. */
  lemma Settled(cls: nat, size: nat, start: nat, bytes0: nat, units0: nat, chunks: nat, bytes: nat, units: nat)
    requires ClassSize(cls) == size && 2 * size <= DEFAULT_SLAB_SIZE
    requires start * size <= DEFAULT_SLAB_SIZE - 32 < start * size + size
    requires 8 * bytes0 < start + 8 && start <= 8 * bytes0 && 32 + bytes0 <= 16 * units0 < 32 + bytes0 + 16
    requires 8 * bytes < chunks + 8 && chunks <= 8 * bytes && 32 + bytes <= 16 * units < 32 + bytes + 16
    requires 16 * units0 < DEFAULT_SLAB_SIZE && 16 * units < DEFAULT_SLAB_SIZE
    requires chunks * size <= DEFAULT_SLAB_SIZE - 16 * units0 < chunks * size + size
    requires chunks * size <= DEFAULT_SLAB_SIZE - 16 * units < chunks * size + size
    ensures ChunksPerSlab(cls) == chunks
    ensures chunks > 0 ==> PayloadOffset(cls) == 16 * units
    ensures PayloadOffset(cls) + ChunksPerSlab(cls) * ClassSize(cls) <= SlabSize(cls)
  {
    hide ClassSize, PayloadFor, Round;
    PayloadIs(start, bytes0, units0);
    PayloadIs(chunks, bytes, units);
    DivIs(DEFAULT_SLAB_SIZE - 32, size, start);
    RoundIs(cls, size, DEFAULT_SLAB_SIZE, start, 16 * units0, chunks);
    RoundIs(cls, size, DEFAULT_SLAB_SIZE, chunks, 16 * units, chunks);
    assert Settle(cls, chunks, 7) == chunks;
  }

  /** Chunks per 64 KiB slab. */
  const SMALL_COUNTS: seq<nat> := [4062, 2039, 1021, 511, 255, 127, 63, 31, 15, 7, 3, 1]

  lemma SmallClass(cls: nat)
    requires cls < 12
    ensures SlabSize(cls) == DEFAULT_SLAB_SIZE && ChunksPerSlab(cls) == SMALL_COUNTS[cls]
    ensures PayloadOffset(cls) + ChunksPerSlab(cls) * ClassSize(cls) <= SlabSize(cls)
  {
    hide ClassSize, ChunksPerSlab, PayloadOffset;
    Sizes();
    match cls
    case 0 => Settled(0, 16, 4094, 512, 34, 4062, 508, 34);
    case 1 => Settled(1, 32, 2047, 256, 18, 2039, 255, 18);
    case 2 => Settled(2, 64, 1023, 128, 10, 1021, 128, 10);
    case 3 => Settled(3, 128, 511, 64, 6, 511, 64, 6);
    case 4 => Settled(4, 256, 255, 32, 4, 255, 32, 4);
    case 5 => Settled(5, 512, 127, 16, 3, 127, 16, 3);
    case 6 => Settled(6, 1024, 63, 8, 3, 63, 8, 3);
    case 7 => Settled(7, 2048, 31, 4, 3, 31, 4, 3);
    case 8 => Settled(8, 4096, 15, 2, 3, 15, 2, 3);
    case 9 => Settled(9, 8192, 7, 1, 3, 7, 1, 3);
    case 10 => Settled(10, 16384, 3, 1, 3, 3, 1, 3);
    case 11 => Settled(11, 32768, 1, 1, 3, 1, 1, 3);
  }

  /** From class 12 on a slab holds one chunk, after 48 bytes. */
  lemma OneChunk(cls: nat)
    requires cls >= 12
    ensures ChunksPerSlab(cls) == 1 && PayloadOffset(cls) == 48 && SlabSize(cls) == 2 * ClassSize(cls)
  {
    hide ClassSize, Round;
    BigClass(cls);
    var size := ClassSize(cls);
    DivIs(2 * size - 32, size, 1);
    assert PayloadFor(1) == 48;
    RoundIs(cls, size, 2 * size, 1, 48, 1);
  }

  lemma CeilBounds(n: nat, d: nat)
    requires d > 0
    ensures n <= CeilDiv(n, d) * d < n + d
  {
    var q, m := (n + d - 1) / d, (n + d - 1) % d;
    assert n + d - 1 == q * d + m;
  }

  lemma ModOfMultiple(q: nat, d: nat)
    requires d > 0
    ensures (q * d) % d == 0
  {
    DivIs(q * d, d, q);
    assert q * d == d * ((q * d) / d) + (q * d) % d;
  }

  lemma WordsFit(chunks: nat, bytes: nat, words: nat, units: nat)
    requires chunks <= 8 * bytes && 64 * words < chunks + 64 && 32 + bytes <= 16 * units
    ensures 32 + 8 * words <= 16 * units
  {
    assert 8 * words < bytes + 8;
    assert 8 * words < 8 * (2 * units - 3);
    assert words < 2 * units - 3;
  }

  lemma BitmapFits(chunks: nat)
    ensures HDR_FIXED_BYTES + 8 * CeilDiv(chunks, 64) <= PayloadFor(chunks)
    ensures PayloadFor(chunks) % CHUNK_ALIGN == 0
  {
    hide CeilDiv;
    var bytes, words := CeilDiv(chunks, 8), CeilDiv(chunks, 64);
    var units := CeilDiv(32 + bytes, 16);
    CeilBounds(chunks, 8);
    CeilBounds(chunks, 64);
    CeilBounds(32 + bytes, 16);
    assert PayloadFor(chunks) == units * 16;
    ModOfMultiple(units, 16);
    WordsFit(chunks, bytes, words, units);
  }

  lemma {:induction false} SlabAligned(cls: nat)
    ensures SlabSize(cls) % DEFAULT_SLAB_SIZE == 0 && SlabSize(cls) >= DEFAULT_SLAB_SIZE
  {
    if cls < 12 {
      SmallClass(cls);
    } else if cls == 12 {
      Sizes();
    } else {
      BigClass(cls - 1);
      SlabAligned(cls - 1);
    }
  }

  /**
   * Every class has room for a chunk; header and whole bitmap words end before the payload; the payload is 16-aligned
   * and ends inside the slab; past class 11 the only chunk starts within the first 64 KiB.
   */
  lemma Geometry(cls: nat)
    ensures ChunksPerSlab(cls) > 0
    ensures HDR_FIXED_BYTES + 8 * NumWords(cls) <= PayloadOffset(cls) < DEFAULT_SLAB_SIZE
    ensures PayloadOffset(cls) % CHUNK_ALIGN == 0 && ClassSize(cls) % CHUNK_ALIGN == 0
    ensures PayloadOffset(cls) + ChunksPerSlab(cls) * ClassSize(cls) <= SlabSize(cls)
    ensures SlabSize(cls) == DEFAULT_SLAB_SIZE || ChunksPerSlab(cls) == 1
    ensures SlabSize(cls) % DEFAULT_SLAB_SIZE == 0
    ensures ChunksPerSlab(cls) <= 64 * NumWords(cls)
  {
    hide ClassSize, ChunksPerSlab, PayloadFor;
    AlignedClass(cls);
    SlabAligned(cls);
    BitmapFits(ChunksPerSlab(cls));
    if cls < 12 {
      SmallClass(cls);
      assert ChunksPerSlab(cls) > 0;
      assert ChunksPerSlab(cls) * ClassSize(cls) > 0;
    } else {
      OneChunk(cls);
      BigClass(cls);
    }
  }
}
