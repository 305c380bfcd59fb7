/** The power-of-two bucket allocator: bump allocation, intrusive free lists, and direct mappings for huge sizes. */
module BucketAllocator {
  import opened SlabLayout

  const MAX_BUCKET: nat := 20
  const PAGE: nat := 4096
  const HEADER: nat := 16
  const HUGE_PAYLOAD: nat := 32

  // ---------- Buckets ----------

  /** Bits needed to write `n`: 64 minus the leading zeros of the word. */
  function BitLen(n: nat): nat {
    if n == 0 then 0 else 1 + BitLen(n / 2)
  }

  /** ceil(log2(max(size, 16))) - 4. */
  function Bucket(size: nat): int {
    BitLen((if size < 16 then 16 else size) - 1) - 4
  }

  function BucketSize(b: nat): nat {
    ClassSize(b)
  }

  lemma {:induction false} BitLenBounds(n: nat)
    requires n > 0
    ensures BitLen(n) > 0 && Power(BitLen(n) - 1) <= n < Power(BitLen(n))
  {
    if n > 1 {
      BitLenBounds(n / 2);
    } else {
      assert BitLen(0) == 0;
      assert Power(0) == 1 && Power(1) == 2;
    }
  }

  function Power(k: nat): nat {
    if k == 0 then 1 else 2 * Power(k - 1)
  }

  lemma {:induction false} PowerIsClass(b: nat)
    ensures Power(b + 4) == ClassSize(b)
  {
    if b == 0 {
      assert Power(4) == 2 * Power(3) && Power(3) == 2 * Power(2) && Power(2) == 2 * Power(1);
    } else {
      PowerIsClass(b - 1);
    }
  }

  lemma {:induction false} PowerMono(j: nat, k: nat)
    requires j <= k
    ensures Power(j) <= Power(k)
  {
    if j < k {
      PowerMono(j, k - 1);
    }
  }

  lemma PowerStrict(j: nat, k: nat)
    requires Power(j) < Power(k)
    ensures j < k
  {
    if j >= k {
      PowerMono(k, j);
    }
  }

  /** The bucket of a size is the smallest whose chunks hold it. */
  lemma BucketExact(size: nat)
    ensures Bucket(size) >= 0
    ensures BucketSize(Bucket(size)) >= size
    ensures Bucket(size) > 0 ==> BucketSize(Bucket(size) - 1) < size
  {
    var n := (if size < 16 then 16 else size) - 1;
    BitLenBounds(n);
    assert Power(4) == 16 by { PowerIsClass(0); }
    assert Power(4) == 2 * Power(3);
    PowerStrict(3, BitLen(n));
    var b := BitLen(n) - 4;
    PowerIsClass(b);
    if b > 0 {
      PowerIsClass(b - 1);
    }
  }

  /** A size that some bucket holds has that bucket or a smaller one. */
  lemma {:induction false} BucketWithin(size: nat, b: nat)
    requires size <= BucketSize(b)
    ensures 0 <= Bucket(size) <= b && BucketSize(Bucket(size)) <= BucketSize(b)
  {
    BucketExact(size);
    if Bucket(size) > b {
      ClassMono(b, Bucket(size) - 1);
    } else {
      ClassMono(Bucket(size), b);
    }
  }

  lemma {:induction false} ClassMono(j: nat, k: nat)
    requires j <= k
    ensures ClassSize(j) <= ClassSize(k)
  {
    if j < k {
      ClassMono(j, k - 1);
    }
  }

  // ---------- State ----------

  /**
   * A block of the heap: its fat pointer's two words, the chain word at the front of its payload while it is free,
   * and the bucket it was cut for.
   */
  datatype Block = Block(start: int, stop: int, chain: int, bucket: nat, live: bool)

  /** A mapping of its own, with the fat pointer of the huge block it was made for at the front. */
  datatype Mapping = Mapping(start: int, stop: int, size: nat)

  /**
   * `maps` are the mappings not given back. One whose address is also in `blocks` has been put on a free list, and its
   * header is that block's from then on. `stranded` are the tails left mapped by unmapping less than a whole mapping.
   */
  datatype Heap = Heap(base: int, curr: int, end: int, heads: seq<int>, blocks: map<int, Block>, maps: map<int, Mapping>,
                       stranded: map<int, nat>)

  function Align16(addr: int): int {
    (addr + 15) / 16 * 16
  }

  function PageUp(n: int): int {
    (n + 4095) / 4096 * 4096
  }

  function PageDown(n: int): int {
    n / 4096 * 4096
  }

  /** The bump allocator's next payload and where it ends. */
  function BumpStart(h: Heap): int {
    Align16(h.curr + HEADER)
  }

  function PopHead(h: Heap, b: nat, size: nat): Heap
    requires b < |h.heads| && h.heads[b] in h.blocks
  {
    var f := h.heads[b];
    var k := h.blocks[f];
    h.(heads := h.heads[b := k.chain], blocks := h.blocks[f := k.(stop := k.start + size, chain := 0, live := true)])
  }

  function Bump(h: Heap, b: nat, size: nat): Heap {
    var start := BumpStart(h);
    h.(curr := start + BucketSize(b), blocks := h.blocks[h.curr := Block(start, start + size, 0, b, true)])
  }

  function MapHuge(h: Heap, addr: int, size: nat): Heap {
    h.(maps := h.maps[addr := Mapping(addr + HUGE_PAYLOAD, addr + PageUp(size + HUGE_PAYLOAD), PageUp(size + HUGE_PAYLOAD))])
  }

  function PushFree(h: Heap, f: int, b: nat): Heap
    requires f in h.blocks && b < |h.heads|
  {
    h.(heads := h.heads[b := f], blocks := h.blocks[f := h.blocks[f].(chain := h.heads[b], live := false)])
  }

  /** Pages given back while a block sits on a free list: a page-aligned start and a length, maybe 0. */
  function Advised(start: int, b: nat): (int, int) {
    var addr := PageUp(start + 8);
    var len := PageDown(start + BucketSize(b) - addr);
    if BucketSize(b) >= 2 * PAGE && len >= PAGE then (addr, len) else (addr, 0)
  }

  // ---------- Invariants ----------

  /** In the used part of the heap, or inside the mapping it was made in. */
  predicate Housed(h: Heap, f: int, k: Block) {
    || (h.base <= f && k.start + BucketSize(k.bucket) <= h.curr)
    || (f in h.maps && k.start + BucketSize(k.bucket) <= f + h.maps[f].size)
  }

  predicate BlockOk(h: Heap, f: int, k: Block) {
    && 0 < f && f + HEADER <= k.start && k.start % 16 == 0
    && k.bucket <= MAX_BUCKET && Housed(h, f, k)
    && k.start <= k.stop <= k.start + BucketSize(k.bucket)
  }

  /** Everything a block occupies, header and capacity. */
  predicate ApartBlocks(f: int, k: Block, g: int, l: Block) {
    k.start + BucketSize(k.bucket) <= g || l.start + BucketSize(l.bucket) <= f
  }

  predicate MappingOk(h: Heap, a: int, m: Mapping) {
    && a > 0 && a % PAGE == 0 && m.size % PAGE == 0 && m.start == a + HUGE_PAYLOAD
    && m.start + BucketSize(MAX_BUCKET) < a + m.size && m.start <= m.stop <= a + m.size
    && (a + m.size <= h.base || h.end <= a)
  }

  /** A stranded tail is outside the heap and every mapping. */
  predicate StrandedOk(h: Heap, t: int, len: nat) {
    && len > 0 && (t + len <= h.base || h.end <= t)
    && forall a :: a in h.maps ==> t + len <= a || a + h.maps[a].size <= t
  }

  predicate Distinct(list: seq<int>) {
    forall i, j :: 0 <= i < j < |list| ==> list[i] != list[j]
  }

  /** Following chain words from `head` visits `list` and ends. */
  predicate Chained(blocks: map<int, Block>, head: int, list: seq<int>) {
    && Distinct(list) && (forall i :: 0 <= i < |list| ==> list[i] in blocks)
    && head == (if list == [] then 0 else list[0])
    && (forall i {:trigger list[i]} :: 0 <= i < |list| ==> blocks[list[i]].chain == if i + 1 < |list| then list[i + 1] else 0)
  }

  ghost predicate Places(h: Heap) {
    && 0 < h.base <= h.curr <= h.end
    && (forall f :: f in h.blocks ==> BlockOk(h, f, h.blocks[f]))
    && (forall f, g :: f in h.blocks && g in h.blocks && f != g ==> ApartBlocks(f, h.blocks[f], g, h.blocks[g]))
    && (forall a :: a in h.maps ==> MappingOk(h, a, h.maps[a]))
    && (forall a, c :: a in h.maps && c in h.maps && a != c ==> a + h.maps[a].size <= c || c + h.maps[c].size <= a)
    && (forall t :: t in h.stranded ==> StrandedOk(h, t, h.stranded[t]))
  }

  /** Free blocks are on exactly one list each, of a bucket they are big enough for. */
  ghost predicate FreeLists(h: Heap, lists: seq<seq<int>>) {
    && |lists| == |h.heads| == MAX_BUCKET + 1
    && (forall b :: 0 <= b <= MAX_BUCKET ==> Chained(h.blocks, h.heads[b], lists[b]))
    && (forall b, f :: 0 <= b <= MAX_BUCKET && f in lists[b] ==>
          f in h.blocks && !h.blocks[f].live && b <= h.blocks[f].bucket)
    && (forall b, c, f :: 0 <= b < c <= MAX_BUCKET && f in lists[b] ==> f !in lists[c])
    && (forall f :: f in h.blocks && !h.blocks[f].live ==> exists b :: 0 <= b <= MAX_BUCKET && f in lists[b])
  }

  ghost predicate Inv(h: Heap, lists: seq<seq<int>>) {
    Places(h) && FreeLists(h, lists)
  }

  // ---------- What an operation keeps ----------

  /** Popping the head of bucket b's list. */
  lemma PopKeeps(h: Heap, lists: seq<seq<int>>, b: nat, size: nat)
    requires Inv(h, lists) && b <= MAX_BUCKET && h.heads[b] != 0 && size <= BucketSize(b)
    ensures lists[b] != [] && h.heads[b] in h.blocks && !h.blocks[h.heads[b]].live
    ensures var h1 := PopHead(h, b, size);
      && Inv(h1, lists[b := lists[b][1..]])
      && h1.blocks[h.heads[b]].live && h1.blocks[h.heads[b]].stop == h1.blocks[h.heads[b]].start + size
      && (forall g :: g in h.blocks && g != h.heads[b] ==> h1.blocks[g] == h.blocks[g])
  {
    hide ClassSize, MappingOk;
    assert Chained(h.blocks, h.heads[b], lists[b]);
    var f := h.heads[b];
    assert f in lists[b];
    PopPlaces(h, lists, b, size);
    PopLists(h, lists, b, size);
  }

  lemma PopPlaces(h: Heap, lists: seq<seq<int>>, b: nat, size: nat)
    requires Inv(h, lists) && b <= MAX_BUCKET && h.heads[b] in lists[b] && size <= BucketSize(b)
    ensures h.heads[b] in h.blocks && Places(PopHead(h, b, size))
  {
    hide ClassSize, MappingOk, Chained;
    var f := h.heads[b];
    ClassMono(b, h.blocks[f].bucket);
    var h1 := PopHead(h, b, size);
    forall g | g in h1.blocks ensures BlockOk(h1, g, h1.blocks[g]) {
      assert BlockOk(h, g, h.blocks[g]);
    }
    forall g, l | g in h1.blocks && l in h1.blocks && g != l ensures ApartBlocks(g, h1.blocks[g], l, h1.blocks[l]) {
      assert ApartBlocks(g, h.blocks[g], l, h.blocks[l]);
    }
    forall a | a in h1.maps ensures MappingOk(h1, a, h1.maps[a]) {
      assert MappingOk(h, a, h.maps[a]);
      SameMapping(h, h1, a);
    }
  }

  lemma SameMapping(h: Heap, h1: Heap, a: int)
    requires a in h.maps && MappingOk(h, a, h.maps[a]) && h1.base == h.base && h1.end == h.end
    ensures MappingOk(h1, a, h.maps[a])
  {
  }

  lemma PopLists(h: Heap, lists: seq<seq<int>>, b: nat, size: nat)
    requires Inv(h, lists) && b <= MAX_BUCKET && h.heads[b] in lists[b]
    ensures h.heads[b] in h.blocks && FreeLists(PopHead(h, b, size), lists[b := lists[b][1..]])
  {
    hide ClassSize, Places, Chained;
    HeadOf(h.blocks, h.heads[b], lists[b]);
    PopChains(h, lists, b, size);
    TailMembers(lists[b]);
    var f, h1, lists1 := h.heads[b], PopHead(h, b, size), lists[b := lists[b][1..]];
    forall g | g in h1.blocks && !h1.blocks[g].live ensures exists c :: 0 <= c <= MAX_BUCKET && g in lists1[c] {
      var c :| 0 <= c <= MAX_BUCKET && g in lists[c];
      assert g in lists1[c];
    }
  }

  lemma HeadOf(blocks: map<int, Block>, head: int, list: seq<int>)
    requires Chained(blocks, head, list) && head in list
    ensures list != [] && list[0] == head && Distinct(list)
  {
  }

  /** A distinct list is its head and its tail. */
  lemma TailMembers(list: seq<int>)
    requires list != [] && Distinct(list)
    ensures forall g :: g in list[1..] <==> g in list && g != list[0]
  {
    forall g | g in list && g != list[0] ensures g in list[1..] {
      var i :| 0 <= i < |list| && list[i] == g;
      assert list[1..][i - 1] == g;
    }
    forall g | g in list[1..] ensures g in list && g != list[0] {
      var i :| 0 <= i < |list[1..]| && list[1..][i] == g;
      assert list[i + 1] == g;
    }
  }

  lemma PopChains(h: Heap, lists: seq<seq<int>>, b: nat, size: nat)
    requires Inv(h, lists) && b <= MAX_BUCKET && h.heads[b] in lists[b]
    ensures h.heads[b] in h.blocks
    ensures var h1, lists1 := PopHead(h, b, size), lists[b := lists[b][1..]];
      forall c :: 0 <= c <= MAX_BUCKET ==> Chained(h1.blocks, h1.heads[c], lists1[c])
  {
    hide ClassSize, Places, Chained;
    var f, h1, lists1 := h.heads[b], PopHead(h, b, size), lists[b := lists[b][1..]];
    HeadOf(h.blocks, h.heads[b], lists[b]);
    forall c | 0 <= c <= MAX_BUCKET ensures Chained(h1.blocks, h1.heads[c], lists1[c]) {
      assert Chained(h.blocks, h.heads[c], lists[c]);
      if c == b {
        ChainTail(h.blocks, h.heads[b], lists[b], h1.blocks[f]);
      } else {
        assert f !in lists[c];
        ChainKept(h.blocks, h1.blocks, h.heads[c], lists[c]);
      }
    }
  }

  lemma ChainTail(blocks: map<int, Block>, head: int, list: seq<int>, k: Block)
    requires Chained(blocks, head, list) && list != []
    ensures head in blocks && Chained(blocks[head := k], blocks[head].chain, list[1..])
  {
    var rest := list[1..];
    assert forall i :: 0 <= i < |rest| ==> rest[i] == list[i + 1];
  }

  lemma ChainKept(blocks: map<int, Block>, blocks1: map<int, Block>, head: int, list: seq<int>)
    requires Chained(blocks, head, list)
    requires forall f :: f in list ==> f in blocks1 && f in blocks && blocks1[f].chain == blocks[f].chain
    ensures Chained(blocks1, head, list)
  {
    forall i | 0 <= i < |list| ensures list[i] in list {
    }
  }

  lemma ChainPush(blocks: map<int, Block>, head: int, list: seq<int>, f: int, k: Block)
    requires Chained(blocks, head, list) && f !in list && f != 0 && k.chain == head
    ensures Chained(blocks[f := k], f, [f] + list)
  {
    var all: seq<int> := [f] + list;
    forall j | 0 < j < |all| ensures all[j] == list[j - 1] && all[j] in blocks && all[j] != f {
    }
    assert Distinct(all);
    forall j | 0 <= j < |all| ensures blocks[f := k][all[j]].chain == if j + 1 < |all| then all[j + 1] else 0 {
      assert j + 1 < |all| ==> all[j + 1] == list[j];
      if j > 0 {
        assert blocks[list[j - 1]].chain == if j < |list| then list[j] else 0;
      }
    }
  }

  /** Freeing a live block links it into the bucket of its visible size, which it is big enough for. */
  lemma FreeKeeps(h: Heap, lists: seq<seq<int>>, f: int)
    requires Inv(h, lists) && f in h.blocks && h.blocks[f].live
    ensures h.blocks[f].stop >= h.blocks[f].start
    ensures var b := Bucket(h.blocks[f].stop - h.blocks[f].start);
      && 0 <= b <= MAX_BUCKET && b <= h.blocks[f].bucket
      && (var h1 := PushFree(h, f, b);
          && Inv(h1, lists[b := [f] + lists[b]]) && !h1.blocks[f].live
          && (forall g :: g in h.blocks && g != f ==> h1.blocks[g] == h.blocks[g]))
  {
    hide ClassSize, MappingOk, Bucket, Chained, Places, FreeLists;
    var k := h.blocks[f];
    BlockBounds(h, f);
    HeadsCount(h, lists);
    var b := Bucket(k.stop - k.start);
    BucketWithin(k.stop - k.start, k.bucket);
    PushPlaces(h, lists, f, b);
    PushLists(h, lists, f, b);
  }

  lemma BlockBounds(h: Heap, f: int)
    requires Places(h) && f in h.blocks
    ensures h.blocks[f].start <= h.blocks[f].stop <= h.blocks[f].start + BucketSize(h.blocks[f].bucket)
    ensures h.blocks[f].bucket <= MAX_BUCKET
  {
    hide ClassSize, MappingOk;
    assert BlockOk(h, f, h.blocks[f]);
  }

  lemma PushPlaces(h: Heap, lists: seq<seq<int>>, f: int, b: nat)
    requires Inv(h, lists) && f in h.blocks && b <= MAX_BUCKET
    ensures Places(PushFree(h, f, b))
  {
    hide ClassSize, MappingOk, Chained;
    var h1 := PushFree(h, f, b);
    forall g | g in h1.blocks ensures BlockOk(h1, g, h1.blocks[g]) {
      assert BlockOk(h, g, h.blocks[g]);
    }
    forall g, l | g in h1.blocks && l in h1.blocks && g != l ensures ApartBlocks(g, h1.blocks[g], l, h1.blocks[l]) {
      assert ApartBlocks(g, h.blocks[g], l, h.blocks[l]);
    }
    forall a | a in h1.maps ensures MappingOk(h1, a, h1.maps[a]) {
      assert MappingOk(h, a, h.maps[a]);
      SameMapping(h, h1, a);
    }
  }

  lemma PushLists(h: Heap, lists: seq<seq<int>>, f: int, b: nat)
    requires Inv(h, lists) && f in h.blocks && h.blocks[f].live && b <= MAX_BUCKET && b <= h.blocks[f].bucket
    ensures FreeLists(PushFree(h, f, b), lists[b := [f] + lists[b]])
  {
    hide ClassSize, Places, Chained;
    PushChains(h, lists, f, b);
    var h1, lists1 := PushFree(h, f, b), lists[b := [f] + lists[b]];
    assert forall g :: g in lists1[b] <==> g == f || g in lists[b];
    forall g | g in h1.blocks && !h1.blocks[g].live ensures exists c :: 0 <= c <= MAX_BUCKET && g in lists1[c] {
      if g != f {
        var c :| 0 <= c <= MAX_BUCKET && g in lists[c];
        assert g in lists1[c];
      } else {
        assert g in lists1[b];
      }
    }
  }

  lemma PushChains(h: Heap, lists: seq<seq<int>>, f: int, b: nat)
    requires Inv(h, lists) && f in h.blocks && h.blocks[f].live && b <= MAX_BUCKET
    ensures var h1, lists1 := PushFree(h, f, b), lists[b := [f] + lists[b]];
      forall c :: 0 <= c <= MAX_BUCKET ==> Chained(h1.blocks, h1.heads[c], lists1[c])
  {
    hide ClassSize, Places, Chained;
    var h1, lists1 := PushFree(h, f, b), lists[b := [f] + lists[b]];
    NotNull(h, f);
    forall c | 0 <= c <= MAX_BUCKET ensures Chained(h1.blocks, h1.heads[c], lists1[c]) {
      assert Chained(h.blocks, h.heads[c], lists[c]);
      assert f !in lists[c];
      if c == b {
        ChainPush(h.blocks, h.heads[b], lists[b], f, h1.blocks[f]);
      } else {
        ChainKept(h.blocks, h1.blocks, h.heads[c], lists[c]);
      }
    }
  }

  lemma NotNull(h: Heap, f: int)
    requires Places(h) && f in h.blocks
    ensures f != 0
  {
    assert BlockOk(h, f, h.blocks[f]);
  }

  /** A bump allocation cuts a new block off the unused heap. */
  lemma BumpKeeps(h: Heap, lists: seq<seq<int>>, b: nat, size: nat)
    requires Inv(h, lists) && b <= MAX_BUCKET && size <= BucketSize(b) && BumpStart(h) + BucketSize(b) <= h.end
    ensures h.curr !in h.blocks
    ensures var h1 := Bump(h, b, size);
      && Inv(h1, lists) && h1.blocks[h.curr].live
      && h1.blocks[h.curr].stop == h1.blocks[h.curr].start + size
      && (forall g :: g in h.blocks ==> g in h1.blocks && h1.blocks[g] == h.blocks[g])
  {
    hide ClassSize, MappingOk;
    BumpPlaces(h, lists, b, size);
    var h1 := Bump(h, b, size);
    forall c | 0 <= c <= MAX_BUCKET ensures Chained(h1.blocks, h1.heads[c], lists[c]) {
      assert Chained(h.blocks, h.heads[c], lists[c]);
      ChainKept(h.blocks, h1.blocks, h.heads[c], lists[c]);
    }
  }

  lemma BumpPlaces(h: Heap, lists: seq<seq<int>>, b: nat, size: nat)
    requires Inv(h, lists) && b <= MAX_BUCKET && size <= BucketSize(b) && BumpStart(h) + BucketSize(b) <= h.end
    ensures h.curr !in h.blocks && Places(Bump(h, b, size))
  {
    hide ClassSize, MappingOk, FreeLists;
    var h1 := Bump(h, b, size);
    SizePositive(b);
    forall g | g in h.blocks ensures g != h.curr && ApartBlocks(h.curr, h1.blocks[h.curr], g, h.blocks[g]) {
      assert BlockOk(h, g, h.blocks[g]);
      SizePositive(h.blocks[g].bucket);
      if g in h.maps {
        OutsideHeap(h, g);
      }
    }
    forall g | g in h1.blocks ensures BlockOk(h1, g, h1.blocks[g]) {
      if g != h.curr {
        assert BlockOk(h, g, h.blocks[g]);
      }
    }
    forall g, l | g in h1.blocks && l in h1.blocks && g != l ensures ApartBlocks(g, h1.blocks[g], l, h1.blocks[l]) {
      if g != h.curr && l != h.curr {
        assert ApartBlocks(g, h.blocks[g], l, h.blocks[l]);
      }
    }
    forall a | a in h1.maps ensures MappingOk(h1, a, h1.maps[a]) {
      assert MappingOk(h, a, h.maps[a]);
      SameMapping(h, h1, a);
    }
  }

  lemma OutsideHeap(h: Heap, a: int)
    requires Places(h) && a in h.maps
    ensures a + h.maps[a].size <= h.base || h.end <= a
  {
    assert MappingOk(h, a, h.maps[a]);
  }

  lemma SizePositive(b: nat)
    ensures BucketSize(b) > 0
  {
  }

  // ---------- Huge blocks ----------

  lemma HugeIsBig(size: nat)
    ensures Bucket(size) > MAX_BUCKET <==> size > BucketSize(MAX_BUCKET)
  {
    hide ClassSize, Bucket;
    BucketExact(size);
    if Bucket(size) > MAX_BUCKET {
      ClassMono(MAX_BUCKET, Bucket(size) - 1);
    } else {
      ClassMono(Bucket(size), MAX_BUCKET);
    }
  }

  lemma PageUpBounds(n: int)
    ensures n <= PageUp(n) < n + PAGE && PageUp(n) % PAGE == 0
  {
  }

  /** A mapping of `len` bytes at `addr` that is page-aligned and overlaps nothing mapped. */
  predicate FreshMapping(h: Heap, addr: int, len: nat) {
    && addr > 0 && addr % PAGE == 0 && (addr + len <= h.base || h.end <= addr)
    && (forall a :: a in h.maps ==> addr + len <= a || a + h.maps[a].size <= addr)
    && (forall t :: t in h.stranded ==> addr + len <= t || t + h.stranded[t] <= addr)
  }

  /** A huge block gets its own mapping; freeing it takes the same route and unmaps exactly that mapping. */
  lemma MapKeeps(h: Heap, lists: seq<seq<int>>, addr: int, size: nat)
    requires Inv(h, lists) && Bucket(size) > MAX_BUCKET && PageUp(size + HUGE_PAYLOAD) >= 0
    requires FreshMapping(h, addr, PageUp(size + HUGE_PAYLOAD))
    ensures addr !in h.maps
    ensures var h1 := MapHuge(h, addr, size);
      var m := h1.maps[addr];
      && Inv(h1, lists) && m.start + size <= m.stop && m.stop >= m.start
      && Bucket(m.stop - m.start) > MAX_BUCKET && m.stop - addr == m.size
  {
    hide ClassSize, Bucket, FreeLists, PageUp, BlockOk, ApartBlocks;
    NewMappingOk(h, addr, size);
    var h1 := MapHuge(h, addr, size);
    forall a | a in h1.maps ensures MappingOk(h1, a, h1.maps[a]) {
      if a != addr {
        assert MappingOk(h, a, h.maps[a]);
        SameMapping(h, h1, a);
      }
    }
    forall t | t in h1.stranded ensures StrandedOk(h1, t, h1.stranded[t]) {
      assert StrandedOk(h, t, h.stranded[t]);
    }
    MapPlaces(h, h1);
    MapLists(h, h1, lists);
  }

  /** The mapping just made. */
  lemma NewMappingOk(h: Heap, addr: int, size: nat)
    requires Bucket(size) > MAX_BUCKET && PageUp(size + HUGE_PAYLOAD) >= 0
    requires FreshMapping(h, addr, PageUp(size + HUGE_PAYLOAD))
    ensures var h1 := MapHuge(h, addr, size);
      var m := h1.maps[addr];
      && MappingOk(h1, addr, m) && m.size > HUGE_PAYLOAD && m.start + size <= m.stop && m.stop >= m.start
      && Bucket(m.stop - m.start) > MAX_BUCKET && m.stop - addr == m.size
  {
    hide ClassSize, Bucket, PageUp;
    PageUpBounds(size + HUGE_PAYLOAD);
    HugeIsBig(size);
    HugeIsBig(PageUp(size + HUGE_PAYLOAD) - HUGE_PAYLOAD);
  }

  lemma MapPlaces(h: Heap, h1: Heap)
    requires Places(h) && h1 == h.(maps := h1.maps, stranded := h1.stranded)
    requires forall f :: f in h.blocks && f in h.maps ==> f in h1.maps && h1.maps[f].size == h.maps[f].size
    requires forall a :: a in h1.maps ==> MappingOk(h1, a, h1.maps[a])
    requires forall a, c :: a in h1.maps && c in h1.maps && a != c ==>
      a + h1.maps[a].size <= c || c + h1.maps[c].size <= a
    requires forall t :: t in h1.stranded ==> StrandedOk(h1, t, h1.stranded[t])
    ensures Places(h1)
  {
    hide ClassSize, MappingOk, StrandedOk;
    forall g | g in h1.blocks ensures BlockOk(h1, g, h1.blocks[g]) {
      assert BlockOk(h, g, h.blocks[g]);
    }
  }

  lemma MapLists(h: Heap, h1: Heap, lists: seq<seq<int>>)
    requires FreeLists(h, lists) && h1.heads == h.heads && h1.blocks == h.blocks
    ensures FreeLists(h1, lists)
  {
    hide Chained;
  }

  /**
   * Unmapping from the fat pointer to its visible end, which the kernel rounds up to whole pages. What lies behind that
   * stays mapped and belongs to nobody.
   */
  function Unmap(h: Heap, a: int): Heap
    requires a in h.maps
  {
    var m := h.maps[a];
    var len := PageUp(m.stop - a);
    h.(maps := h.maps - {a},
       stranded := if 0 <= len < m.size then h.stranded[a + len := m.size - len] else h.stranded)
  }

  lemma UnmapKeeps(h: Heap, lists: seq<seq<int>>, a: int)
    requires Inv(h, lists) && a in h.maps && a !in h.blocks
    ensures Inv(Unmap(h, a), lists)
  {
    hide ClassSize, Bucket, FreeLists, PageUp;
    assert MappingOk(h, a, h.maps[a]);
    var h1 := Unmap(h, a);
    forall c | c in h1.maps ensures MappingOk(h1, c, h1.maps[c]) {
      assert MappingOk(h, c, h.maps[c]);
      SameMapping(h, h1, c);
    }
    forall t | t in h1.stranded ensures StrandedOk(h1, t, h1.stranded[t]) {
      if t in h.stranded && h1.stranded[t] == h.stranded[t] {
        assert StrandedOk(h, t, h.stranded[t]);
      }
    }
    MapPlaces(h, h1);
    MapLists(h, h1, lists);
  }

  /** The header of a mapping taken for that of a block as big as the biggest bucket. */
  function Adopt(h: Heap, a: int): Heap
    requires a in h.maps
  {
    h.(blocks := h.blocks[a := Block(h.maps[a].start, h.maps[a].stop, 0, MAX_BUCKET, true)])
  }

  /** A mapping is big enough to be any bucket's block. */
  lemma AdoptKeeps(h: Heap, lists: seq<seq<int>>, a: int)
    requires Inv(h, lists) && a in h.maps && a !in h.blocks
    requires h.maps[a].stop - h.maps[a].start <= BucketSize(MAX_BUCKET)
    ensures Inv(Adopt(h, a), lists)
  {
    hide ClassSize, Bucket, FreeLists;
    var h1 := Adopt(h, a);
    assert MappingOk(h, a, h.maps[a]);
    PageIsAligned(a);
    forall g | g in h1.blocks ensures BlockOk(h1, g, h1.blocks[g]) {
      if g != a {
        assert BlockOk(h, g, h.blocks[g]);
      }
    }
    forall g | g in h.blocks ensures ApartBlocks(a, h1.blocks[a], g, h.blocks[g]) {
      assert BlockOk(h, g, h.blocks[g]);
      if g in h.maps {
        assert MappingOk(h, g, h.maps[g]);
      }
    }
    forall g, l | g in h1.blocks && l in h1.blocks && g != l ensures ApartBlocks(g, h1.blocks[g], l, h1.blocks[l]) {
      if g != a && l != a {
        assert ApartBlocks(g, h.blocks[g], l, h.blocks[l]);
      }
    }
    forall c | c in h1.maps ensures MappingOk(h1, c, h1.maps[c]) {
      assert MappingOk(h, c, h.maps[c]);
    }
    AdoptLists(h, lists, a);
  }

  lemma PageIsAligned(a: int)
    requires a % PAGE == 0
    ensures (a + HUGE_PAYLOAD) % 16 == 0
  {
  }

  lemma AdoptLists(h: Heap, lists: seq<seq<int>>, a: int)
    requires FreeLists(h, lists) && a in h.maps && a !in h.blocks
    ensures FreeLists(Adopt(h, a), lists)
  {
    hide ClassSize, Chained;
    var h1 := Adopt(h, a);
    forall c | 0 <= c <= MAX_BUCKET ensures Chained(h1.blocks, h1.heads[c], lists[c]) {
      assert Chained(h.blocks, h.heads[c], lists[c]);
      ChainKept(h.blocks, h1.blocks, h.heads[c], lists[c]);
    }
  }

  /** The free of a mapping's header goes by the distance of its two words alone. */
  function FreeMapped(h: Heap, a: int): Heap
    requires a in h.maps
  {
    var m := h.maps[a];
    var b := if m.stop < m.start then 0 else Bucket(m.stop - m.start);
    if 0 <= b <= MAX_BUCKET && b < |h.heads| then PushFree(Adopt(h, a), a, b) else Unmap(h, a)
  }

  /** Whatever the visible end, the free keeps everything sound: the mapping is on a list it is big enough for, or gone. */
  lemma FreeMappedKeeps(h: Heap, lists: seq<seq<int>>, a: int)
    returns (lists1: seq<seq<int>>)
    requires Inv(h, lists) && a in h.maps && a !in h.blocks
    ensures Inv(FreeMapped(h, a), lists1)
    ensures h.maps[a].stop >= h.maps[a].start
    ensures var b := Bucket(h.maps[a].stop - h.maps[a].start);
      && b >= 0 && (FreeMapped(h, a) == if b <= MAX_BUCKET then PushFree(Adopt(h, a), a, b) else Unmap(h, a))
      && lists1 == if b <= MAX_BUCKET then lists[b := [a] + lists[b]] else lists
  {
    hide ClassSize, Bucket, Chained, Places, FreeLists, PageUp, MappingOk;
    var m := h.maps[a];
    MapBounds(h, a);
    HeadsCount(h, lists);
    var size := m.stop - m.start;
    BucketExact(size);
    HugeIsBig(size);
    lists1 := lists;
    if Bucket(size) <= MAX_BUCKET {
      AdoptKeeps(h, lists, a);
      FreeKeeps(Adopt(h, a), lists, a);
      lists1 := lists[Bucket(size) := [a] + lists[Bucket(size)]];
    } else {
      UnmapKeeps(h, lists, a);
    }
  }

  lemma MapBounds(h: Heap, a: int)
    requires Places(h) && a in h.maps
    ensures h.maps[a].start <= h.maps[a].stop <= a + h.maps[a].size
    ensures h.maps[a].start == a + HUGE_PAYLOAD && h.maps[a].size % PAGE == 0
  {
    assert MappingOk(h, a, h.maps[a]);
  }

  /**
   * For every visible end: the free unmaps if and only if more than the biggest bucket is visible, and what it unmaps is
   * the whole mapping, with nothing stranded, if and only if moreover the end lies in the mapping's last page.
   */
  lemma FreeMappedExact(h: Heap, lists: seq<seq<int>>, a: int)
    requires Inv(h, lists) && a in h.maps && a !in h.blocks
    ensures var m, h1 := h.maps[a], FreeMapped(h, a);
      && (a !in h1.maps <==> m.stop - m.start > BucketSize(MAX_BUCKET))
      && (a in h1.maps ==> h1.maps == h.maps && a in h1.heads && a in h1.blocks && !h1.blocks[a].live)
      && (a !in h1.maps && h1.stranded == h.stranded <==>
            m.stop - m.start > BucketSize(MAX_BUCKET) && m.stop > a + m.size - PAGE)
      && (a !in h1.maps && m.stop <= a + m.size - PAGE ==>
            var len := PageUp(m.stop - a);
            && a + len in h1.stranded && h1.stranded[a + len] == m.size - len && len < m.size)
  {
    hide ClassSize, Bucket, Chained, Places, FreeLists, MappingOk;
    var m := h.maps[a];
    MapBounds(h, a);
    HeadsCount(h, lists);
    var lists1 := FreeMappedKeeps(h, lists, a);
    HugeIsBig(m.stop - m.start);
    LastPage(m.stop - a, m.size);
    NotStranded(h, a);
    var b, h1, len := Bucket(m.stop - m.start), FreeMapped(h, a), PageUp(m.stop - a);
    if b <= MAX_BUCKET {
      assert h1.heads[b] == a;
    } else if len < m.size {
      assert a + len in h1.stranded && a + len !in h.stranded;
    }
  }

  lemma LastPage(n: int, size: nat)
    requires 0 <= n <= size && size % PAGE == 0
    ensures PageUp(n) <= size && (PageUp(n) == size <==> n > size - PAGE) && PageUp(n) >= 0
  {
  }

  /** No stranded tail starts inside a mapping. */
  lemma NotStranded(h: Heap, a: int)
    requires Places(h) && a in h.maps
    ensures forall t :: t in h.stranded ==> !(a <= t < a + h.maps[a].size)
  {
    forall t | t in h.stranded ensures !(a <= t < a + h.maps[a].size) {
      assert StrandedOk(h, t, h.stranded[t]);
    }
  }

  // ---------- Visible ends ----------

  function SetStop(h: Heap, f: int, stop: int): Heap
    requires f in h.blocks
  {
    h.(blocks := h.blocks[f := h.blocks[f].(stop := stop)])
  }

  /** A live block's visible end may move anywhere up to its capacity. */
  lemma SetStopKeeps(h: Heap, lists: seq<seq<int>>, f: int, stop: int)
    requires Inv(h, lists) && f in h.blocks && h.blocks[f].live
    requires h.blocks[f].start <= stop <= h.blocks[f].start + BucketSize(h.blocks[f].bucket)
    ensures Inv(SetStop(h, f, stop), lists)
  {
    hide ClassSize, MappingOk, Places, FreeLists;
    SetStopPlaces(h, lists, f, stop);
    SetStopLists(h, lists, f, stop);
  }

  lemma SetStopPlaces(h: Heap, lists: seq<seq<int>>, f: int, stop: int)
    requires Inv(h, lists) && f in h.blocks
    requires h.blocks[f].start <= stop <= h.blocks[f].start + BucketSize(h.blocks[f].bucket)
    ensures Places(SetStop(h, f, stop))
  {
    hide ClassSize, MappingOk, FreeLists;
    var h1 := SetStop(h, f, stop);
    forall g | g in h1.blocks ensures BlockOk(h1, g, h1.blocks[g]) {
      assert BlockOk(h, g, h.blocks[g]);
    }
    forall g, l | g in h1.blocks && l in h1.blocks && g != l ensures ApartBlocks(g, h1.blocks[g], l, h1.blocks[l]) {
      assert ApartBlocks(g, h.blocks[g], l, h.blocks[l]);
    }
    forall a | a in h1.maps ensures MappingOk(h1, a, h1.maps[a]) {
      assert MappingOk(h, a, h.maps[a]);
      SameMapping(h, h1, a);
    }
  }

  lemma SetStopLists(h: Heap, lists: seq<seq<int>>, f: int, stop: int)
    requires Inv(h, lists) && f in h.blocks
    ensures FreeLists(SetStop(h, f, stop), lists)
  {
    hide ClassSize, Places, Chained;
    var h1 := SetStop(h, f, stop);
    forall c | 0 <= c <= MAX_BUCKET ensures Chained(h1.blocks, h1.heads[c], lists[c]) {
      assert Chained(h.blocks, h.heads[c], lists[c]);
      ChainKept(h.blocks, h1.blocks, h.heads[c], lists[c]);
    }
  }

  function SetMapStop(h: Heap, a: int, stop: int): Heap
    requires a in h.maps
  {
    h.(maps := h.maps[a := h.maps[a].(stop := stop)])
  }

  /** A huge block's visible end may move anywhere inside its mapping. */
  lemma SetMapStopKeeps(h: Heap, lists: seq<seq<int>>, a: int, stop: int)
    requires Inv(h, lists) && a in h.maps && h.maps[a].start <= stop <= a + h.maps[a].size
    ensures Inv(SetMapStop(h, a, stop), lists)
  {
    hide ClassSize, FreeLists;
    var h1 := SetMapStop(h, a, stop);
    forall c | c in h1.maps ensures MappingOk(h1, c, h1.maps[c]) {
      assert MappingOk(h, c, h.maps[c]);
    }
    forall t | t in h1.stranded ensures StrandedOk(h1, t, h1.stranded[t]) {
      assert StrandedOk(h, t, h.stranded[t]);
    }
    MapPlaces(h, h1);
    MapLists(h, h1, lists);
  }

  // ---------- What is advised, what is zeroed ----------

  /**
   * Advised pages start behind the chain word and end inside the block, and from two pages up no whole page behind the
   * chain word is kept back.
   */
  lemma AdvisedSpares(h: Heap, lists: seq<seq<int>>, f: int, b: nat)
    requires Inv(h, lists) && f in h.blocks && b <= h.blocks[f].bucket
    ensures var (addr, len) := Advised(h.blocks[f].start, b);
      && addr >= h.blocks[f].start + 8 && addr % PAGE == 0 && len % PAGE == 0 && len >= 0
      && (len > 0 ==> addr + len <= h.blocks[f].start + BucketSize(h.blocks[f].bucket))
      && (BucketSize(b) < 2 * PAGE ==> len == 0)
      && (BucketSize(b) >= 2 * PAGE ==>
            addr < h.blocks[f].start + 8 + PAGE && h.blocks[f].start + BucketSize(b) - (addr + len) < PAGE)
  {
    hide ClassSize, FreeLists, Places, PageUp, PageDown;
    ClassMono(b, h.blocks[f].bucket);
    PageUpBounds(h.blocks[f].start + 8);
    PageDownBounds(h.blocks[f].start + BucketSize(b) - PageUp(h.blocks[f].start + 8));
  }

  lemma PageDownBounds(n: int)
    ensures PageDown(n) <= n < PageDown(n) + PAGE && PageDown(n) % PAGE == 0
  {
  }

  /** Zeroing the requested size, rounded up to whole words, stays inside the bucket's size. */
  lemma ZeroedInside(size: nat)
    ensures Bucket(size) >= 0 && (size + 7) / 8 * 8 <= BucketSize(Bucket(size))
  {
    hide Bucket, ClassSize;
    BucketExact(size);
    var limit := BucketSize(Bucket(size));
    AlignedClass(Bucket(size));
    WordsWithin(size, (size + 7) / 8, limit / 16);
  }

  lemma WordsWithin(size: nat, words: nat, units: nat)
    requires 8 * words < size + 8 && size <= 16 * units
    ensures 8 * words <= 16 * units
  {
    assert 8 * words < 8 * (2 * units + 1);
    assert words < 2 * units + 1;
  }

  // ---------- Runs ----------

  datatype Op =
    | Alloc(size: nat, mapping: int)
    | Trim(f: int, stop: int)
    | FreeBlock(f: int)
    | FreeHuge(a: int)

  /**
   * A huge request is given a fresh mapping; a visible end moves between the start and the end of what was allocated;
   * what is freed is live.
   */
  ghost predicate Allowed(h: Heap, op: Op) {
    match op
    case Alloc(size, mapping) =>
      Bucket(size) > MAX_BUCKET ==>
        PageUp(size + HUGE_PAYLOAD) >= 0 && FreshMapping(h, mapping, PageUp(size + HUGE_PAYLOAD))
    case Trim(f, stop) =>
      if f in h.blocks then
        h.blocks[f].live && h.blocks[f].start <= stop <= h.blocks[f].start + BucketSize(h.blocks[f].bucket)
      else f in h.maps && h.maps[f].start <= stop <= f + h.maps[f].size
    case FreeBlock(f) => f in h.blocks && h.blocks[f].live
    case FreeHuge(a) => a in h.maps && a !in h.blocks
  }

  /** The allocation's three routes; an exhausted heap leaves everything as it is. */
  function AllocStep(h: Heap, size: nat, mapping: int): Heap {
    var b := Bucket(size);
    if b > MAX_BUCKET then MapHuge(h, mapping, size)
    else if 0 <= b < |h.heads| && h.heads[b] != 0 && h.heads[b] in h.blocks then PopHead(h, b, size)
    else if 0 <= b && BumpStart(h) + BucketSize(b) <= h.end then Bump(h, b, size)
    else h
  }

  ghost function Step(h: Heap, op: Op): Heap
    requires Allowed(h, op)
  {
    match op
    case Alloc(size, mapping) => AllocStep(h, size, mapping)
    case Trim(f, stop) => if f in h.blocks then SetStop(h, f, stop) else SetMapStop(h, f, stop)
    case FreeBlock(f) =>
      var size := h.blocks[f].stop - h.blocks[f].start;
      if size >= 0 && 0 <= Bucket(size) < |h.heads| then PushFree(h, f, Bucket(size)) else h
    case FreeHuge(a) => FreeMapped(h, a)
  }

  ghost predicate Sound(h: Heap) {
    exists lists :: Inv(h, lists)
  }

  lemma AllocKeeps(h: Heap, lists: seq<seq<int>>, size: nat, mapping: int)
    returns (lists1: seq<seq<int>>)
    requires Inv(h, lists) && Allowed(h, Alloc(size, mapping))
    ensures Inv(AllocStep(h, size, mapping), lists1)
  {
    hide ClassSize, Bucket, Places, PageUp, FreshMapping;
    BucketExact(size);
    var b := Bucket(size);
    lists1 := lists;
    if b > MAX_BUCKET {
      MapKeeps(h, lists, mapping, size);
    } else if h.heads[b] != 0 && h.heads[b] in h.blocks {
      PopKeeps(h, lists, b, size);
      lists1 := lists[b := lists[b][1..]];
    } else if BumpStart(h) + BucketSize(b) <= h.end {
      BumpKeeps(h, lists, b, size);
    }
  }

  lemma StepKeeps(h: Heap, op: Op)
    requires Sound(h) && Allowed(h, op)
    ensures Sound(Step(h, op))
  {
    hide ClassSize, Bucket, Inv, PageUp, FreshMapping, AllocStep, FreeMapped;
    var lists :| Inv(h, lists);
    HeadsCount(h, lists);
    match op
    case Alloc(size, mapping) =>
      var lists1 := AllocKeeps(h, lists, size, mapping);
    case Trim(f, stop) =>
      if f in h.blocks {
        SetStopKeeps(h, lists, f, stop);
      } else {
        SetMapStopKeeps(h, lists, f, stop);
      }
    case FreeBlock(f) =>
      FreeKeeps(h, lists, f);
      var b := Bucket(h.blocks[f].stop - h.blocks[f].start);
      assert Inv(Step(h, op), lists[b := [f] + lists[b]]);
    case FreeHuge(a) =>
      var lists1 := FreeMappedKeeps(h, lists, a);
  }

  lemma HeadsCount(h: Heap, lists: seq<seq<int>>)
    requires Inv(h, lists)
    ensures |lists| == |h.heads| == MAX_BUCKET + 1
  {
  }

  ghost predicate IsHistory(run: seq<Heap>, ops: seq<Op>) {
    && |run| == |ops| + 1
    && forall i :: 0 <= i < |ops| ==> Allowed(run[i], ops[i]) && run[i + 1] == Step(run[i], ops[i])
  }

  /** An empty heap between two addresses. */
  function Empty(base: int, end: int): Heap {
    Heap(base, base, end, seq(MAX_BUCKET + 1, _ => 0), map[], map[], map[])
  }

  lemma {:induction false} ReachableSound(run: seq<Heap>, ops: seq<Op>, base: int, end: int, k: nat)
    requires IsHistory(run, ops) && 0 < base <= end && run[0] == Empty(base, end) && k < |run|
    ensures Sound(run[k])
    decreases k
  {
    hide Allowed, Step;
    if k == 0 {
      assert Inv(run[0], seq(MAX_BUCKET + 1, _ => []));
    } else {
      ReachableSound(run, ops, base, end, k - 1);
      assert Allowed(run[k - 1], ops[k - 1]) && run[k - 1 + 1] == Step(run[k - 1], ops[k - 1]);
      StepKeeps(run[k - 1], ops[k - 1]);
    }
  }

  // ---------- Where allocation and free part ways ----------

  lemma HundredInThree()
    ensures Bucket(100) == 3
  {
    hide Bucket;
    BucketExact(100);
    assert ClassSize(0) == 16 && ClassSize(1) == 32 && ClassSize(2) == 64 && ClassSize(3) == 128;
    BucketWithin(100, 3);
  }

  lemma {:induction false} BiggestBucket()
    ensures BucketSize(MAX_BUCKET) == 0x100_0000
  {
    assert ClassSize(4) == 256;
    assert ClassSize(8) == 4096;
    assert ClassSize(12) == 65536;
    assert ClassSize(16) == 1048576;
  }

  lemma FreshIsNew(h: Heap, lists: seq<seq<int>>, a: int, len: nat)
    requires Inv(h, lists) && FreshMapping(h, a, len) && len > 0
    ensures a !in h.maps && a !in h.blocks
  {
    hide ClassSize, FreeLists, MappingOk;
    if a in h.maps {
      assert a + len <= a || a + h.maps[a].size <= a;
      MapBounds(h, a);
    }
    if a in h.blocks {
      assert BlockOk(h, a, h.blocks[a]);
      SizePositive(h.blocks[a].bucket);
    }
  }

  /** Allocate `size` bytes on the huge route at `a`, move the visible end to `len` bytes, free. */
  ghost function TrimmedFree(h: Heap, a: int, size: nat, len: nat): Heap
    requires a !in h.maps && a !in h.blocks && Bucket(size) > MAX_BUCKET
  {
    FreeMapped(SetMapStop(MapHuge(h, a, size), a, a + HUGE_PAYLOAD + len), a)
  }

  /** These are allowed steps of a run. */
  lemma TrimmedFreeSteps(h: Heap, lists: seq<seq<int>>, a: int, size: nat, len: nat)
    requires Inv(h, lists) && Bucket(size) > MAX_BUCKET && len <= size && PageUp(size + HUGE_PAYLOAD) >= 0
    requires FreshMapping(h, a, PageUp(size + HUGE_PAYLOAD)) && a !in h.maps && a !in h.blocks
    ensures Allowed(h, Alloc(size, a))
    ensures var h1 := Step(h, Alloc(size, a));
      && Allowed(h1, Trim(a, a + HUGE_PAYLOAD + len))
      && var h2 := Step(h1, Trim(a, a + HUGE_PAYLOAD + len));
         Allowed(h2, FreeHuge(a)) && Step(h2, FreeHuge(a)) == TrimmedFree(h, a, size, len)
    ensures Inv(SetMapStop(MapHuge(h, a, size), a, a + HUGE_PAYLOAD + len), lists)
  {
    hide Bucket, ClassSize, PageUp, FreeMapped, Inv, FreshMapping;
    MapKeeps(h, lists, a, size);
    SetMapStopKeeps(MapHuge(h, a, size), lists, a, a + HUGE_PAYLOAD + len);
  }

  /**
   * 16 MiB and one byte, trimmed to 100 bytes: allocated by a mapping, and freed onto the list of bucket 3 with nothing
   * unmapped.
   */
  lemma TrimmedIsListed(h: Heap, lists: seq<seq<int>>, a: int)
    requires Inv(h, lists) && FreshMapping(h, a, 0x100_1000)
    ensures a !in h.maps && a !in h.blocks && Bucket(0x100_0001) > MAX_BUCKET
    ensures var h1 := TrimmedFree(h, a, 0x100_0001, 100);
      && |h1.heads| == MAX_BUCKET + 1 && h1.heads[3] == a
      && a in h1.maps && h1.maps[a].size == 0x100_1000 && h1.stranded == h.stranded
  {
    hide Bucket, ClassSize, Inv, FreshMapping;
    BiggestBucket();
    HugeIsBig(0x100_0001);
    HundredInThree();
    FreshIsNew(h, lists, a, 0x100_1000);
    assert PageUp(0x100_0001 + HUGE_PAYLOAD) == 0x100_1000;
    TrimmedFreeSteps(h, lists, a, 0x100_0001, 100);
    var h2 := SetMapStop(MapHuge(h, a, 0x100_0001), a, a + HUGE_PAYLOAD + 100);
    HeadsCount(h2, lists);
    var lists1 := FreeMappedKeeps(h2, lists, a);
  }

  /** 32 MiB, trimmed to 16 MiB and one byte: the front is unmapped, and almost 16 MiB stay mapped and lost. */
  lemma TrimmedIsStranded(h: Heap, lists: seq<seq<int>>, a: int)
    requires Inv(h, lists) && FreshMapping(h, a, 0x200_1000)
    ensures a !in h.maps && a !in h.blocks && Bucket(0x200_0000) > MAX_BUCKET
    ensures var h1 := TrimmedFree(h, a, 0x200_0000, 0x100_0001);
      a !in h1.maps && a + 0x100_1000 in h1.stranded && h1.stranded[a + 0x100_1000] == 0x100_0000
  {
    hide Bucket, ClassSize, Inv, FreshMapping;
    BiggestBucket();
    HugeIsBig(0x200_0000);
    HugeIsBig(0x100_0001);
    FreshIsNew(h, lists, a, 0x200_1000);
    assert PageUp(0x200_0000 + HUGE_PAYLOAD) == 0x200_1000;
    TrimmedFreeSteps(h, lists, a, 0x200_0000, 0x100_0001);
    var h2 := SetMapStop(MapHuge(h, a, 0x200_0000), a, a + HUGE_PAYLOAD + 0x100_0001);
    assert PageUp(HUGE_PAYLOAD + 0x100_0001) == 0x100_1000;
    var lists1 := FreeMappedKeeps(h2, lists, a);
  }

  /** In every reachable state any two blocks, live or free, are apart from each other and from the unused heap. */
  lemma BlocksDisjoint(run: seq<Heap>, ops: seq<Op>, base: int, end: int, k: nat, f: int, g: int)
    requires IsHistory(run, ops) && 0 < base <= end && run[0] == Empty(base, end) && k < |run|
    requires f in run[k].blocks && g in run[k].blocks && f != g
    ensures ApartBlocks(f, run[k].blocks[f], g, run[k].blocks[g])
    ensures run[k].curr <= run[k].end
    ensures run[k].blocks[f].start + BucketSize(run[k].blocks[f].bucket) <= run[k].curr || run[k].end <= f
    ensures run[k].blocks[f].start % 16 == 0
  {
    hide ClassSize, FreeLists, IsHistory;
    ReachableSound(run, ops, base, end, k);
    var h := run[k];
    var lists :| Inv(h, lists);
    assert BlockOk(h, f, h.blocks[f]);
  }
}
