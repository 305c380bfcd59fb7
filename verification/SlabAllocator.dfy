/** The slab allocator: bitmaps, free counts, per-class lists of slabs, and recovery of a slab from a chunk address. */
module SlabAllocator {
  import opened SlabLayout

  // ---------- Data ----------

  /** A slab header: class, one bit per chunk (set = free), free count, and list links as base addresses. */
  datatype Slab = Slab(cls: nat, bits: seq<bool>, free: int, next: int, prev: int)

  /** Mapped slabs by base address, and each class's list head and last-used slab (0 for none). */
  datatype Heap = Heap(slabs: map<int, Slab>, heads: seq<int>, currents: seq<int>)

  /** One chunk: its slab and its index there. */
  datatype Chunk = Chunk(base: int, index: nat)

  function ChunkAddr(base: int, cls: nat, index: nat): int {
    base + PayloadOffset(cls) + Times(index, ClassSize(cls))
  }

  // ---------- Bitmaps ----------

  function Count(bits: seq<bool>): nat {
    if bits == [] then 0 else Count(bits[..|bits| - 1]) + (if bits[|bits| - 1] then 1 else 0)
  }

  function FirstSet(bits: seq<bool>): (i: nat)
    ensures i <= |bits| && (i < |bits| ==> bits[i]) && forall j :: 0 <= j < i ==> !bits[j]
  {
    if bits == [] || bits[0] then 0 else 1 + FirstSet(bits[1..])
  }

  function FullBitmap(words: nat, chunks: nat): seq<bool> {
    seq(64 * words, i => i < chunks)
  }

  lemma {:induction false} CountUpdate(bits: seq<bool>, i: nat, b: bool)
    requires i < |bits|
    ensures Count(bits[i := b]) == Count(bits) + (if b then 1 else 0) - (if bits[i] then 1 else 0)
    decreases |bits|
  {
    var n := |bits| - 1;
    if i < n {
      CountUpdate(bits[..n], i, b);
      assert bits[i := b][..n] == bits[..n][i := b];
    } else {
      assert bits[i := b][..n] == bits[..n];
    }
  }

  lemma {:induction false} CountZero(bits: seq<bool>)
    ensures Count(bits) == 0 <==> forall i :: 0 <= i < |bits| ==> !bits[i]
    ensures Count(bits) <= |bits|
    decreases |bits|
  {
    if bits != [] {
      CountZero(bits[..|bits| - 1]);
    }
  }

  lemma {:induction false} CountPrefix(n: nat, chunks: nat)
    ensures Count(seq(n, i => i < chunks)) == if n < chunks then n else chunks
    decreases n
  {
    if n > 0 {
      var bits := seq(n, i => i < chunks);
      assert bits[..n - 1] == seq(n - 1, i => i < chunks);
      CountPrefix(n - 1, chunks);
    }
  }

  /** The scan: whole words first, then the lowest bit of the first non-zero one. */
  method Scan(bits: seq<bool>, words: nat) returns (i: nat)
    requires |bits| == 64 * words
    ensures i == FirstSet(bits)
  {
    var w := 0;
    while w < words
      invariant w <= words
      invariant forall j :: 0 <= j < 64 * w ==> !bits[j]
    {
      var word := bits[64 * w..64 * w + 64];
      var bit := FirstSet(word);
      if bit < 64 {
        i := 64 * w + bit;
        assert bits[i] == word[bit];
        assert forall j :: 64 * w <= j < i ==> bits[j] == word[j - 64 * w];
        return;
      }
      assert forall j :: 64 * w <= j < 64 * w + 64 ==> bits[j] == word[j - 64 * w];
      w := w + 1;
    }
    i := 64 * words;
  }

  /** The fill loop of a new slab: 64 bits at a time, the last word partly. */
  method FillBitmap(words: nat, chunks: nat) returns (bits: seq<bool>)
    requires 64 * words < chunks + 64 && chunks <= 64 * words
    ensures bits == FullBitmap(words, chunks)
  {
    bits := [];
    var w := 0;
    while w < words
      invariant w <= words && |bits| == 64 * w
      invariant forall j :: 0 <= j < |bits| ==> bits[j] == (j < chunks)
    {
      var remaining := chunks - 64 * w;
      var ones := if remaining >= 64 then 64 else remaining;
      bits := bits + seq(64, i => i < ones);
      w := w + 1;
    }
  }

  // ---------- Operations on the heap ----------

  function TakeBit(s: Slab): Slab
    requires FirstSet(s.bits) < |s.bits|
  {
    s.(bits := s.bits[FirstSet(s.bits) := false], free := s.free - 1)
  }

  /** Allocate from the slab at `base`, which becomes its class's current one. */
  function Take(h: Heap, base: int): (Heap, int)
    requires base in h.slabs && FirstSet(h.slabs[base].bits) < |h.slabs[base].bits|
    requires h.slabs[base].cls < |h.currents|
  {
    var s := h.slabs[base];
    (h.(slabs := h.slabs[base := TakeBit(s)], currents := h.currents[s.cls := base]),
     ChunkAddr(base, s.cls, FirstSet(s.bits)))
  }

  /** Where in a class's list the walk stops: the first slab with a free chunk, or past the end. */
  function Walk(h: Heap, list: seq<int>): (i: nat)
    requires forall j :: 0 <= j < |list| ==> list[j] in h.slabs
    ensures i <= |list|
    ensures i < |list| ==> h.slabs[list[i]].free != 0
    ensures forall j :: 0 <= j < i ==> h.slabs[list[j]].free == 0
  {
    if list == [] || h.slabs[list[0]].free != 0 then 0 else 1 + Walk(h, list[1..])
  }

  /** A fresh slab at the head of its class's list. */
  function Link(h: Heap, base: int, cls: nat): Heap
    requires cls < |h.heads|
  {
    var old_ := h.heads[cls];
    var s := Slab(cls, FullBitmap(NumWords(cls), ChunksPerSlab(cls)), ChunksPerSlab(cls), old_, 0);
    var slabs := if old_ != 0 && old_ in h.slabs then h.slabs[old_ := h.slabs[old_].(prev := base)] else h.slabs;
    h.(slabs := slabs[base := s], heads := h.heads[cls := base])
  }

  /** The slab of an address: its 64 KiB boundary. */
  function SlabOf(addr: int): int {
    addr / DEFAULT_SLAB_SIZE * DEFAULT_SLAB_SIZE
  }

  function IndexOf(addr: int, base: int, cls: nat): int {
    (addr - (base + PayloadOffset(cls))) / ClassSize(cls)
  }

  predicate Freeable(h: Heap, addr: int) {
    var base := SlabOf(addr);
    base in h.slabs && 0 <= IndexOf(addr, base, h.slabs[base].cls) < |h.slabs[base].bits|
  }

  function Free(h: Heap, addr: int): Heap
    requires Freeable(h, addr)
  {
    var base := SlabOf(addr);
    var s := h.slabs[base];
    h.(slabs := h.slabs[base := s.(bits := s.bits[IndexOf(addr, base, s.cls) := true], free := s.free + 1)])
  }

  // ---------- Invariants ----------

  /** Aligned base, bitmap of whole words with the spare bits clear, and a count that is the number of set bits. */
  predicate SlabOk(base: int, s: Slab) {
    && s.cls < NUM_CLASSES && base > 0 && base % SlabSize(s.cls) == 0
    && |s.bits| == 64 * NumWords(s.cls)
    && (forall i :: ChunksPerSlab(s.cls) <= i < |s.bits| ==> !s.bits[i])
    && s.free == Count(s.bits)
  }

  predicate Apart(h: Heap, a: int, b: int)
    requires a in h.slabs && b in h.slabs
  {
    a + SlabSize(h.slabs[a].cls) <= b || b + SlabSize(h.slabs[b].cls) <= a
  }

  predicate Distinct(list: seq<int>) {
    forall i, j :: 0 <= i < j < |list| ==> list[i] != list[j]
  }

  /** `list` is what following `next` from `head` visits; `prev` is its inverse; no slab comes twice. */
  predicate LinkedIn(slabs: map<int, Slab>, head: int, list: seq<int>) {
    && Distinct(list) && (forall i :: 0 <= i < |list| ==> list[i] in slabs)
    && head == (if list == [] then 0 else list[0])
    && (forall i {:trigger list[i]} :: 0 <= i < |list| ==> slabs[list[i]].next == if i + 1 < |list| then list[i + 1] else 0)
    && (forall i {:trigger list[i]} :: 0 <= i < |list| ==> slabs[list[i]].prev == if i > 0 then list[i - 1] else 0)
  }

  predicate Linked(h: Heap, head: int, list: seq<int>) {
    LinkedIn(h.slabs, head, list)
  }

  ghost predicate Slabs(h: Heap) {
    && (forall b :: b in h.slabs ==> SlabOk(b, h.slabs[b]))
    && (forall a, b :: a in h.slabs && b in h.slabs && a != b ==> Apart(h, a, b))
  }

  ghost predicate Lists(h: Heap, lists: seq<seq<int>>) {
    && |lists| == |h.heads| == |h.currents| == NUM_CLASSES
    && (forall c :: 0 <= c < NUM_CLASSES ==> Linked(h, h.heads[c], lists[c]))
    && (forall c, b :: 0 <= c < NUM_CLASSES && b in lists[c] ==> b in h.slabs && h.slabs[b].cls == c)
    && (forall b :: b in h.slabs && h.slabs[b].cls < NUM_CLASSES ==> b in lists[h.slabs[b].cls])
    && (forall c :: 0 <= c < NUM_CLASSES ==>
          h.currents[c] == 0 || (h.currents[c] in h.slabs && h.slabs[h.currents[c]].cls == c))
  }

  ghost predicate Inv(h: Heap, lists: seq<seq<int>>) {
    Slabs(h) && Lists(h, lists)
  }

  /** A chunk is live while its bit is clear. */
  predicate Live(h: Heap, c: Chunk) {
    && c.base in h.slabs && c.index < |h.slabs[c.base].bits|
    && c.index < ChunksPerSlab(h.slabs[c.base].cls) && !h.slabs[c.base].bits[c.index]
  }

  function Start(h: Heap, c: Chunk): int
    requires c.base in h.slabs
  {
    ChunkAddr(c.base, h.slabs[c.base].cls, c.index)
  }

  function End(h: Heap, c: Chunk): int
    requires c.base in h.slabs
  {
    Start(h, c) + ClassSize(h.slabs[c.base].cls)
  }

  // ---------- Safety ----------

  /** A live chunk is 16-aligned, behind the last bitmap word, and inside its slab. */
  lemma LiveInside(h: Heap, lists: seq<seq<int>>, c: Chunk)
    requires Inv(h, lists) && Live(h, c)
    ensures Start(h, c) % 16 == 0
    ensures c.base + HDR_FIXED_BYTES + 8 * NumWords(h.slabs[c.base].cls) <= Start(h, c)
    ensures End(h, c) <= c.base + SlabSize(h.slabs[c.base].cls)
  {
    hide ClassSize, ChunksPerSlab, PayloadOffset, NumWords, SlabSize, Lists, Times;
    var cls := h.slabs[c.base].cls;
    assert SlabOk(c.base, h.slabs[c.base]);
    Geometry(cls);
    WithinPayload(c.index, ChunksPerSlab(cls), ClassSize(cls));
    AlignedBase(c.base, SlabSize(cls));
    AlignedIndex(c.index, ClassSize(cls));
    SumAligned(c.base, PayloadOffset(cls), Times(c.index, ClassSize(cls)));
  }

  lemma SumAligned(a: nat, b: nat, c: nat)
    requires a % 16 == 0 && b % 16 == 0 && c % 16 == 0
    ensures (a + b + c) % 16 == 0
  {
  }

  lemma WithinPayload(index: nat, chunks: nat, size: nat)
    requires index < chunks
    ensures Times(index, size) + size <= Times(chunks, size) == chunks * size
  {
    MulLe(index + 1, chunks, size);
  }

  lemma AlignedIndex(index: nat, size: nat)
    requires size % 16 == 0
    ensures Times(index, size) % 16 == 0
  {
    var units := size / 16;
    assert index * size == index * units * 16;
    ModOfMultiple(index * units, 16);
  }

  lemma AlignedBase(base: int, slab: nat)
    requires slab > 0 && slab % DEFAULT_SLAB_SIZE == 0 && base >= 0 && base % slab == 0
    ensures base % DEFAULT_SLAB_SIZE == 0 && base % 16 == 0
  {
    var k, j := base / slab, slab / DEFAULT_SLAB_SIZE;
    assert base == k * slab && slab == j * DEFAULT_SLAB_SIZE;
    MulAssoc(k, j);
    ModOfMultiple(k * j, DEFAULT_SLAB_SIZE);
    ModOfMultiple(k * j * 4096, 16);
  }

  lemma MulAssoc(k: nat, j: nat)
    ensures k * (j * DEFAULT_SLAB_SIZE) == (k * j) * DEFAULT_SLAB_SIZE == (k * j * 4096) * 16
  {
  }

  /** Two live chunks never overlap, whatever their classes. */
  lemma LiveDisjoint(h: Heap, lists: seq<seq<int>>, c: Chunk, d: Chunk)
    requires Inv(h, lists) && Live(h, c) && Live(h, d) && c != d
    ensures End(h, c) <= Start(h, d) || End(h, d) <= Start(h, c)
  {
    hide ClassSize, ChunksPerSlab, PayloadOffset, NumWords, SlabSize, Lists, Times;
    LiveInside(h, lists, c);
    LiveInside(h, lists, d);
    if c.base == d.base {
      var size := ClassSize(h.slabs[c.base].cls);
      if c.index < d.index {
        WithinPayload(c.index, d.index, size);
      } else {
        WithinPayload(d.index, c.index, size);
      }
    } else {
      assert Apart(h, c.base, d.base);
    }
  }

  lemma TimesDiv(index: nat, size: nat)
    requires size > 0
    ensures Times(index, size) / size == index
  {
    DivIs(index * size, size, index);
  }

  /** The 64 KiB mask, the payload offset and the shift find the very slab and bit an address was made from. */
  lemma FreeRecovers(h: Heap, lists: seq<seq<int>>, c: Chunk)
    requires Inv(h, lists) && Live(h, c)
    ensures SlabOf(Start(h, c)) == c.base
    ensures IndexOf(Start(h, c), c.base, h.slabs[c.base].cls) == c.index
    ensures Freeable(h, Start(h, c))
  {
    hide ClassSize, ChunksPerSlab, PayloadOffset, NumWords, SlabSize, Lists, Times, SlabOf, IndexOf, ChunkAddr;
    var cls := h.slabs[c.base].cls;
    assert SlabOk(c.base, h.slabs[c.base]);
    Geometry(cls);
    AlignedBase(c.base, SlabSize(cls));
    StartsNear(h, lists, c);
    MaskFinds(Start(h, c), c.base);
    IndexFinds(c.base, cls, c.index);
  }

  lemma StartsNear(h: Heap, lists: seq<seq<int>>, c: Chunk)
    requires Inv(h, lists) && Live(h, c)
    ensures c.base <= Start(h, c) < c.base + DEFAULT_SLAB_SIZE
  {
    hide ClassSize, ChunksPerSlab, PayloadOffset, NumWords, SlabSize, Lists;
    var cls := h.slabs[c.base].cls;
    Geometry(cls);
    LiveInside(h, lists, c);
    if SlabSize(cls) != DEFAULT_SLAB_SIZE {
      assert c.index == 0;
      assert Times(c.index, ClassSize(cls)) == 0;
    }
  }

  lemma MaskFinds(addr: int, base: int)
    requires base % DEFAULT_SLAB_SIZE == 0 && base <= addr < base + DEFAULT_SLAB_SIZE
    ensures SlabOf(addr) == base
  {
  }

  lemma IndexFinds(base: int, cls: nat, index: nat)
    ensures IndexOf(ChunkAddr(base, cls, index), base, cls) == index
  {
    hide ClassSize, PayloadOffset, Times;
    TimesDiv(index, ClassSize(cls));
  }

  // ---------- Every operation keeps the invariants ----------

  /** Only the bitmap and the count of the slab at `base` may change. */
  predicate SameLinks(h: Heap, h1: Heap) {
    && h1.slabs.Keys == h.slabs.Keys && h1.heads == h.heads && |h1.currents| == |h.currents|
    && forall b :: b in h.slabs ==>
         h1.slabs[b].cls == h.slabs[b].cls && h1.slabs[b].next == h.slabs[b].next && h1.slabs[b].prev == h.slabs[b].prev
  }

  lemma ListsKept(h: Heap, h1: Heap, lists: seq<seq<int>>)
    requires Lists(h, lists) && SameLinks(h, h1)
    requires forall c :: 0 <= c < NUM_CLASSES ==>
      h1.currents[c] == h.currents[c] || (h1.currents[c] in h.slabs && h.slabs[h1.currents[c]].cls == c)
    ensures Lists(h1, lists)
  {
    forall c | 0 <= c < NUM_CLASSES ensures Linked(h1, h1.heads[c], lists[c]) {
      assert Linked(h, h.heads[c], lists[c]);
    }
  }

  lemma SlabsKept(h: Heap, h1: Heap, base: int)
    requires Slabs(h) && SameLinks(h, h1) && base in h.slabs && SlabOk(base, h1.slabs[base])
    requires forall b :: b in h.slabs && b != base ==> h1.slabs[b] == h.slabs[b]
    ensures Slabs(h1)
  {
    hide SlabSize, NumWords, ChunksPerSlab, Count;
    forall a, b | a in h1.slabs && b in h1.slabs && a != b ensures Apart(h1, a, b) {
      assert Apart(h, a, b);
    }
  }

  /** A slab whose count is not zero has a free chunk; its first set bit is a chunk's. */
  lemma HasRoom(h: Heap, base: int)
    requires Slabs(h) && base in h.slabs && h.slabs[base].free != 0
    ensures FirstSet(h.slabs[base].bits) < ChunksPerSlab(h.slabs[base].cls)
    ensures FirstSet(h.slabs[base].bits) < |h.slabs[base].bits|
  {
    hide SlabSize, NumWords, ChunksPerSlab;
    var s := h.slabs[base];
    assert SlabOk(base, s);
    CountZero(s.bits);
  }

  /** `h1` differs from `h` in one bit and its slab's count. */
  ghost predicate BitSet(h: Heap, h1: Heap, c: Chunk, value: bool) {
    && c.base in h.slabs && c.index < |h.slabs[c.base].bits| && h.slabs[c.base].bits[c.index] != value
    && h1.slabs == h.slabs[c.base := h.slabs[c.base].(bits := h.slabs[c.base].bits[c.index := value],
                                                      free := h.slabs[c.base].free + (if value then 1 else -1))]
    && h1.heads == h.heads
  }

  lemma BitKeeps(h: Heap, h1: Heap, lists: seq<seq<int>>, c: Chunk, value: bool)
    requires Inv(h, lists) && BitSet(h, h1, c, value) && c.index < ChunksPerSlab(h.slabs[c.base].cls)
    requires |h1.currents| == |h.currents| && forall k :: 0 <= k < NUM_CLASSES ==>
      h1.currents[k] == h.currents[k] || (h1.currents[k] in h.slabs && h.slabs[h1.currents[k]].cls == k)
    ensures Inv(h1, lists)
  {
    hide SlabSize, NumWords, ChunksPerSlab, Count, Linked;
    assert SlabOk(c.base, h.slabs[c.base]);
    CountUpdate(h.slabs[c.base].bits, c.index, value);
    SlabsKept(h, h1, c.base);
    ListsKept(h, h1, lists);
  }

  lemma BitLive(h: Heap, h1: Heap, c: Chunk, value: bool)
    requires BitSet(h, h1, c, value) && c.index < ChunksPerSlab(h.slabs[c.base].cls)
    ensures Live(h1, c) == !value && Live(h, c) == value
    ensures forall d :: d != c ==> (Live(h1, d) <==> Live(h, d))
  {
    hide ChunksPerSlab;
  }

  /** Taking a chunk hands out one that was free, counts it, and leaves everything else alone. */
  lemma TakeKeeps(h: Heap, lists: seq<seq<int>>, base: int)
    requires Inv(h, lists) && base in h.slabs && h.slabs[base].free != 0
    ensures FirstSet(h.slabs[base].bits) < |h.slabs[base].bits| && h.slabs[base].cls < |h.currents|
    ensures var (h1, addr) := Take(h, base);
      var c := Chunk(base, FirstSet(h.slabs[base].bits));
      && Inv(h1, lists) && BitSet(h, h1, c, false) && !Live(h, c) && Live(h1, c) && addr == Start(h1, c)
      && (forall d :: d != c ==> (Live(h1, d) <==> Live(h, d)))
  {
    hide SlabSize, NumWords, ChunksPerSlab, ClassSize, PayloadOffset, Count, Live, ChunkAddr, Linked, Apart;
    var s := h.slabs[base];
    assert SlabOk(base, s);
    HasRoom(h, base);
    var (h1, addr) := Take(h, base);
    var c := Chunk(base, FirstSet(s.bits));
    assert BitSet(h, h1, c, false);
    BitKeeps(h, h1, lists, c, false);
    BitLive(h, h1, c, false);
  }

  /** Freeing a live chunk makes exactly that chunk free again. */
  lemma FreeKeeps(h: Heap, lists: seq<seq<int>>, c: Chunk)
    requires Inv(h, lists) && Live(h, c)
    ensures Freeable(h, Start(h, c))
    ensures var h1 := Free(h, Start(h, c));
      && Inv(h1, lists) && BitSet(h, h1, c, true) && !Live(h1, c) && h1.currents == h.currents
      && (forall d :: d != c ==> (Live(h1, d) <==> Live(h, d)))
  {
    hide SlabSize, NumWords, ChunksPerSlab, ClassSize, PayloadOffset, Count, SlabOf, IndexOf, ChunkAddr, Linked, Apart;
    FreeRecovers(h, lists, c);
    var h1 := Free(h, Start(h, c));
    assert BitSet(h, h1, c, true);
    BitKeeps(h, h1, lists, c, true);
    BitLive(h, h1, c, true);
  }

  /** Free undoes alloc: bitmaps, counts and links are those before the allocation. */
  lemma FreeUndoesTake(h: Heap, lists: seq<seq<int>>, base: int)
    requires Inv(h, lists) && base in h.slabs && h.slabs[base].free != 0
    ensures FirstSet(h.slabs[base].bits) < |h.slabs[base].bits| && h.slabs[base].cls < |h.currents|
    ensures var (h1, addr) := Take(h, base); Freeable(h1, addr) && Free(h1, addr).slabs == h.slabs
  {
    hide SlabSize, NumWords, ChunksPerSlab, ClassSize, PayloadOffset, Count, SlabOf, IndexOf, ChunkAddr, Inv, Lists, Slabs;
    TakeKeeps(h, lists, base);
    var (h1, addr) := Take(h, base);
    var c := Chunk(base, FirstSet(h.slabs[base].bits));
    FreeKeeps(h1, lists, c);
    assert h1.slabs[base].bits[c.index := true] == h.slabs[base].bits;
    assert Free(h1, addr).slabs[base] == h.slabs[base];
  }

  // ---------- A new slab ----------

  function AlignUp(raw: nat, slab: nat): nat
    requires slab > 0
  {
    (raw + slab - 1) / slab * slab
  }

  /** Over-mapping by twice the size leaves an aligned slab inside; prefix and suffix are what is trimmed. */
  lemma Trimmed(raw: nat, slab: nat)
    requires slab > 0
    ensures raw <= AlignUp(raw, slab) < raw + slab && AlignUp(raw, slab) % slab == 0
  {
    var q := (raw + slab - 1) / slab;
    assert raw + slab - 1 == slab * q + (raw + slab - 1) % slab;
    assert q * slab == slab * q;
    ModOfMultiple(q, slab);
  }

  /** The mapping of `len` bytes at `raw` overlaps no slab. */
  predicate FreshMapping(h: Heap, raw: nat, len: nat) {
    raw > 0 && forall b :: b in h.slabs ==> raw + len <= b || b + SlabSize(h.slabs[b].cls) <= raw
  }

  function Push(lists: seq<seq<int>>, cls: nat, base: int): seq<seq<int>>
    requires cls < |lists|
  {
    lists[cls := [base] + lists[cls]]
  }

  lemma NewSlabOk(base: int, cls: nat, next: int)
    requires cls < NUM_CLASSES && base > 0 && base % SlabSize(cls) == 0
    ensures SlabOk(base, Slab(cls, FullBitmap(NumWords(cls), ChunksPerSlab(cls)), ChunksPerSlab(cls), next, 0))
  {
    hide SlabSize, NumWords, ChunksPerSlab;
    Geometry(cls);
    CountPrefix(64 * NumWords(cls), ChunksPerSlab(cls));
  }

  lemma LinkSlabs(h: Heap, lists: seq<seq<int>>, raw: nat, cls: nat)
    requires Inv(h, lists) && cls < NUM_CLASSES && FreshMapping(h, raw, 2 * SlabSize(cls)) && SlabSize(cls) > 0
    ensures var base := AlignUp(raw, SlabSize(cls)); base !in h.slabs && base > 0 && Slabs(Link(h, base, cls))
  {
    hide SlabSize, NumWords, ChunksPerSlab, Count, FullBitmap, AlignUp, Linked;
    var base := AlignUp(raw, SlabSize(cls));
    Trimmed(raw, SlabSize(cls));
    var old_ := h.heads[cls];
    NewSlabOk(base, cls, old_);
    var h1 := Link(h, base, cls);
    SizesPositive();
    forall b | b in h1.slabs ensures SlabOk(b, h1.slabs[b]) {
      if b != base {
        assert SlabOk(b, h.slabs[b]);
      }
    }
    forall a, b | a in h1.slabs && b in h1.slabs && a != b ensures Apart(h1, a, b) {
      if a != base && b != base {
        assert Apart(h, a, b);
      }
    }
  }

  lemma SizesPositive()
    ensures forall cls :: SlabSize(cls) > 0
  {
  }

  lemma LinkLists(h: Heap, lists: seq<seq<int>>, base: int, cls: nat)
    requires Lists(h, lists) && cls < NUM_CLASSES && base !in h.slabs && base > 0 && 0 !in h.slabs
    ensures Lists(Link(h, base, cls), Push(lists, cls, base))
  {
    hide SlabSize, NumWords, ChunksPerSlab, Count, FullBitmap, Linked;
    var h1, lists1 := Link(h, base, cls), Push(lists, cls, base);
    assert Linked(h, h.heads[cls], lists[cls]);
    forall c | 0 <= c < NUM_CLASSES ensures Linked(h1, h1.heads[c], lists1[c]) {
      assert Linked(h, h.heads[c], lists[c]);
      if c == cls {
        PushLinked(h, lists[cls], base, cls);
      } else {
        OtherLinked(h, lists, base, cls, c);
      }
    }
  }

  lemma OtherLinked(h: Heap, lists: seq<seq<int>>, base: int, cls: nat, c: nat)
    requires Lists(h, lists) && cls < NUM_CLASSES && c < NUM_CLASSES && c != cls && base !in h.slabs
    requires Linked(h, h.heads[cls], lists[cls]) && Linked(h, h.heads[c], lists[c])
    ensures Linked(Link(h, base, cls), h.heads[c], lists[c])
  {
    hide NumWords, ChunksPerSlab, FullBitmap;
    var h1 := Link(h, base, cls);
    forall i | 0 <= i < |lists[c]| ensures h1.slabs[lists[c][i]] == h.slabs[lists[c][i]] {
      OtherClass(h, lists, cls, c, i);
    }
  }

  lemma OtherClass(h: Heap, lists: seq<seq<int>>, cls: nat, c: nat, i: nat)
    requires Lists(h, lists) && cls < NUM_CLASSES && c < NUM_CLASSES && c != cls && i < |lists[c]|
    ensures h.heads[cls] == lists[c][i] ==> lists[c][i] == 0
  {
    assert Linked(h, h.heads[cls], lists[cls]);
    assert lists[c][i] in lists[c];
    if lists[cls] != [] {
      assert lists[cls][0] in lists[cls];
    }
  }

  lemma PushLinked(h: Heap, list: seq<int>, base: int, cls: nat)
    requires cls < |h.heads| && Linked(h, h.heads[cls], list) && base !in h.slabs && base > 0 && 0 !in h.slabs
    ensures Linked(Link(h, base, cls), base, [base] + list)
  {
    hide NumWords, ChunksPerSlab, FullBitmap, LinkedIn;
    var h1 := Link(h, base, cls);
    InList(h.slabs, h.heads[cls], list);
    PushIn(h.slabs, h1.slabs, h.heads[cls], list, base);
  }

  lemma InList(slabs: map<int, Slab>, head: int, list: seq<int>)
    requires LinkedIn(slabs, head, list)
    ensures forall i :: 0 <= i < |list| ==> list[i] in slabs
    ensures list != [] ==> head == list[0]
    ensures list == [] ==> head == 0
    ensures forall i :: 0 < i < |list| ==> list[i] != list[0]
  {
  }

  lemma PushIn(slabs: map<int, Slab>, slabs1: map<int, Slab>, head: int, list: seq<int>, base: int)
    requires LinkedIn(slabs, head, list) && base !in slabs
    requires base in slabs1 && slabs1[base].next == head && slabs1[base].prev == 0
    requires forall i :: 0 <= i < |list| ==> list[i] in slabs && list[i] in slabs1
    requires forall i :: 0 <= i < |list| ==> slabs1[list[i]].next == slabs[list[i]].next
    requires forall i :: 0 <= i < |list| ==> slabs1[list[i]].prev == if i > 0 then slabs[list[i]].prev else base
    ensures LinkedIn(slabs1, base, [base] + list)
  {
    var all: seq<int> := [base] + list;
    forall j | 0 < j < |all| ensures all[j] == list[j - 1] && all[j] in slabs && all[j] in slabs1 {
    }
    assert Distinct(all);
    forall j | 0 <= j < |all| ensures slabs1[all[j]].next == if j + 1 < |all| then all[j + 1] else 0 {
      assert j + 1 < |all| ==> all[j + 1] == list[j];
      if j > 0 {
        assert slabs1[list[j - 1]].next == slabs[list[j - 1]].next;
      }
    }
    forall j | 0 <= j < |all| ensures slabs1[all[j]].prev == if j > 0 then all[j - 1] else 0 {
      if j > 1 {
        assert slabs1[list[j - 1]].prev == slabs[list[j - 1]].prev;
      }
    }
  }

  /** A new slab keeps every list acyclic and doubly linked, and has no live chunk. */
  lemma LinkKeeps(h: Heap, lists: seq<seq<int>>, raw: nat, cls: nat)
    requires Inv(h, lists) && cls < NUM_CLASSES && FreshMapping(h, raw, 2 * SlabSize(cls)) && SlabSize(cls) > 0
    ensures var base := AlignUp(raw, SlabSize(cls));
      var h1 := Link(h, base, cls);
      && Inv(h1, Push(lists, cls, base)) && base in h1.slabs && h1.slabs[base].free != 0
      && h1.slabs[base].cls == cls
      && (forall d :: Live(h1, d) <==> Live(h, d))
  {
    hide SlabSize, NumWords, ChunksPerSlab, Count, AlignUp, Linked;
    var base := AlignUp(raw, SlabSize(cls));
    LinkSlabs(h, lists, raw, cls);
    assert 0 !in h.slabs by {
      assert forall b :: b in h.slabs ==> SlabOk(b, h.slabs[b]);
    }
    LinkLists(h, lists, base, cls);
    Geometry(cls);
  }
}
