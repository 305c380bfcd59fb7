/** `self(...)` of an actor with its own arena: pointer arguments survive the reset of the arena they live in. */
module ArenaSelf {
  import opened Lake

  // ---------- Memory ----------

  /**
   * One byte of memory. A stored word is whole only while its eight cells are: overwriting any of them with data
   * loses it.
   */
  datatype Cell = Data(b: int) | Word(w: int) | Part(k: nat)

  type Memory = map<int, Cell>

  function CellAt(mem: Memory, a: int): Cell {
    if a in mem then mem[a] else Data(0)
  }

  function StoreWord(mem: Memory, a: int, w: int): Memory {
    mem[a := Word(w)][a + 1 := Part(1)][a + 2 := Part(2)][a + 3 := Part(3)][a + 4 := Part(4)]
       [a + 5 := Part(5)][a + 6 := Part(6)][a + 7 := Part(7)]
  }

  function LoadWord(mem: Memory, a: int): Option<int> {
    if CellAt(mem, a).Word? && forall k {:trigger CellAt(mem, k)} :: a < k < a + 8 ==> CellAt(mem, k) == Part(k - a)
    then Some(CellAt(mem, a).w)
    else None
  }

  datatype Region = Region(start: int, end: int)

  /** The region a fat pointer names: two words, the first byte's address and one past the last's. */
  function FatPtr(mem: Memory, fat: int): Option<Region> {
    match (LoadWord(mem, fat), LoadWord(mem, fat + 8))
    case (Some(s), Some(e)) => Some(Region(s, e))
    case _ => None
  }

  function StoreRegion(mem: Memory, fat: int, r: Region): Memory {
    StoreWord(StoreWord(mem, fat, r.start), fat + 8, r.end)
  }

  /** Same contents from `lo` to `hi`. */
  predicate Same(mem: Memory, mem1: Memory, lo: int, hi: int) {
    forall a {:trigger CellAt(mem1, a)} :: lo <= a < hi ==> CellAt(mem1, a) == CellAt(mem, a)
  }

  /** The bytes of `from` stand at `to`. */
  predicate Copied(mem: Memory, src: int, mem1: Memory, dst: int, n: int) {
    forall a {:trigger CellAt(mem1, a)} :: dst <= a < dst + n ==> CellAt(mem1, a) == CellAt(mem, src + (a - dst))
  }

  predicate Apart(lo: int, hi: int, lo1: int, hi1: int) {
    hi <= lo1 || hi1 <= lo
  }

  lemma Put(mem: Memory, a: int, c: Cell)
    ensures forall b {:trigger CellAt(mem[a := c], b)} ::
      CellAt(mem[a := c], b) == if b == a then c else CellAt(mem, b)
  {
  }

  lemma StoreWordAt(mem: Memory, a: int, w: int)
    ensures LoadWord(StoreWord(mem, a, w), a) == Some(w)
    ensures forall b {:trigger CellAt(StoreWord(mem, a, w), b)} :: (b < a || a + 8 <= b) ==>
      CellAt(StoreWord(mem, a, w), b) == CellAt(mem, b)
  {
    var mem1 := StoreWord(mem, a, w);
    forall k | a < k < a + 8 ensures CellAt(mem1, k) == Part(k - a) {
    }
  }

  lemma LoadKept(mem: Memory, mem1: Memory, a: int)
    requires Same(mem, mem1, a, a + 8)
    ensures LoadWord(mem1, a) == LoadWord(mem, a)
  {
    if LoadWord(mem, a).Some? {
      forall k | a < k < a + 8 ensures CellAt(mem1, k) == Part(k - a) {
        assert CellAt(mem, k) == Part(k - a);
      }
    }
    if LoadWord(mem1, a).Some? {
      forall k | a < k < a + 8 ensures CellAt(mem, k) == Part(k - a) {
        assert CellAt(mem1, k) == Part(k - a);
      }
    }
    assert CellAt(mem1, a) == CellAt(mem, a);
  }

  lemma FatKept(mem: Memory, mem1: Memory, fat: int)
    requires Same(mem, mem1, fat, fat + 16)
    ensures FatPtr(mem1, fat) == FatPtr(mem, fat)
  {
    LoadKept(mem, mem1, fat);
    LoadKept(mem, mem1, fat + 8);
  }

  lemma StoreRegionAt(mem: Memory, fat: int, r: Region)
    ensures FatPtr(StoreRegion(mem, fat, r), fat) == Some(r)
    ensures forall b {:trigger CellAt(StoreRegion(mem, fat, r), b)} :: (b < fat || fat + 16 <= b) ==>
      CellAt(StoreRegion(mem, fat, r), b) == CellAt(mem, b)
  {
    hide LoadWord, StoreWord, CellAt;
    var mem1 := StoreWord(mem, fat, r.start);
    StoreWordAt(mem, fat, r.start);
    StoreWordAt(mem1, fat + 8, r.end);
    LoadKept(mem1, StoreWord(mem1, fat + 8, r.end), fat);
  }

  // ---------- Copying forward ----------

  /** Memory after `n` bytes have gone from `src` to `dst`, first to last. */
  function Forward(mem: Memory, src: int, dst: int, n: nat): Memory {
    if n == 0 then mem
    else
      var before := Forward(mem, src, dst, n - 1);
      before[dst + n - 1 := CellAt(before, src + n - 1)]
  }

  lemma {:induction false} ForwardOutside(mem: Memory, src: int, dst: int, n: nat)
    ensures forall a {:trigger CellAt(Forward(mem, src, dst, n), a)} :: (a < dst || dst + n <= a) ==>
      CellAt(Forward(mem, src, dst, n), a) == CellAt(mem, a)
  {
    hide CellAt;
    if n > 0 {
      ForwardOutside(mem, src, dst, n - 1);
      var before := Forward(mem, src, dst, n - 1);
      Put(before, dst + n - 1, CellAt(before, src + n - 1));
    }
  }

  /** Ranges that are apart, or overlap with the destination in front: every byte arrives. */
  lemma {:induction false} ForwardMoves(mem: Memory, src: int, dst: int, n: nat)
    requires dst <= src || src + n <= dst
    ensures Copied(mem, src, Forward(mem, src, dst, n), dst, n)
  {
    hide CellAt, Forward;
    if n > 0 {
      ForwardMoves(mem, src, dst, n - 1);
      ForwardOutside(mem, src, dst, n - 1);
      var before, after := Forward(mem, src, dst, n - 1), Forward(mem, src, dst, n);
      forall a | dst <= a < dst + n ensures CellAt(after, a) == CellAt(mem, src + (a - dst)) {
        OneMore(mem, src, dst, n, a);
        if a < dst + n - 1 {
          assert CellAt(before, a) == CellAt(mem, src + (a - dst));
        } else {
          assert CellAt(before, src + n - 1) == CellAt(mem, src + n - 1);
        }
      }
    }
  }

  lemma OneMore(mem: Memory, src: int, dst: int, n: nat, a: int)
    requires n > 0
    ensures CellAt(Forward(mem, src, dst, n), a) ==
      CellAt(Forward(mem, src, dst, n - 1), if a == dst + n - 1 then src + n - 1 else a)
  {
    hide CellAt;
    var before := Forward(mem, src, dst, n - 1);
    Put(before, dst + n - 1, CellAt(before, src + n - 1));
  }

  /** Where index `i` falls in a stretch of `period` repeated over and over. */
  function Phase(i: nat, period: nat): (r: nat)
    requires period > 0
    ensures r < period
  {
    if i < period then i else Phase(i - period, period)
  }

  /** What a byte of the destination holds then. */
  predicate Repeats(mem: Memory, src: int, mem1: Memory, dst: int, i: nat)
    requires src < dst
  {
    CellAt(mem1, dst + i) == CellAt(mem, src + Phase(i, dst - src))
  }

  /** The destination starts inside the source: the bytes between the two starts repeat. */
  lemma {:induction false} ForwardRepeats(mem: Memory, src: int, dst: int, n: nat)
    requires src < dst
    ensures forall i: nat :: i < n ==> Repeats(mem, src, Forward(mem, src, dst, n), dst, i)
  {
    hide CellAt, Forward;
    if n > 0 {
      ForwardRepeats(mem, src, dst, n - 1);
      ForwardOutside(mem, src, dst, n - 1);
      var before, after := Forward(mem, src, dst, n - 1), Forward(mem, src, dst, n);
      forall i: nat | i < n ensures Repeats(mem, src, after, dst, i) {
        OneMore(mem, src, dst, n, dst + i);
        if i < n - 1 {
          assert Repeats(mem, src, before, dst, i);
        } else if i >= dst - src {
          assert Repeats(mem, src, before, dst, i - (dst - src));
          assert dst + (i - (dst - src)) == src + i;
        } else {
          assert CellAt(before, src + i) == CellAt(mem, src + i);
        }
      }
    }
  }

  // ---------- The operations ----------

  function RoundUp8(n: int): int {
    (n + 7) / 8 * 8
  }

  /** Argument words; a pointer argument is the address of a fat pointer. */
  datatype Arg = Scalar(word: int) | Pointer(fat: int)

  /** What the raw allocator returns for one request: the fat pointer's address and the payload's. */
  datatype Raw = Raw(fat: int, start: int)

  class Actor {
    var mem: Memory
    var cursor: int
    const base: int
    const end: int

    constructor (mem: Memory, base: int, cursor: int, end: int)
      ensures this.mem == mem && this.base == base && this.cursor == cursor && this.end == end
    {
      this.mem, this.base, this.cursor, this.end := mem, base, cursor, end;
    }

    /** `rt_copy_bytes`: checks both ranges, then copies byte by byte. */
    method CopyBytes(dstFat: int, dstOff: int, srcFat: int, srcOff: int, len: nat) returns (ok: bool)
      requires FatPtr(mem, dstFat).Some? && FatPtr(mem, srcFat).Some?
      modifies this`mem
      ensures var dst, src := old(FatPtr(mem, dstFat)).value, old(FatPtr(mem, srcFat)).value;
        && (ok <==> dst.start + dstOff + len <= dst.end && src.start + srcOff + len <= src.end)
        && (!ok ==> mem == old(mem))
        && (ok ==> mem == Forward(old(mem), src.start + srcOff, dst.start + dstOff, len))
        && (ok && (dst.start + dstOff <= src.start + srcOff || src.start + srcOff + len <= dst.start + dstOff) ==>
              Copied(old(mem), src.start + srcOff, mem, dst.start + dstOff, len))
        && (ok ==> forall a {:trigger CellAt(mem, a)} :: (a < dst.start + dstOff || dst.start + dstOff + len <= a) ==>
                        CellAt(mem, a) == CellAt(old(mem), a))
    {
      hide CellAt, LoadWord;
      var dst, src := FatPtr(mem, dstFat).value, FatPtr(mem, srcFat).value;
      var d, s := dst.start + dstOff, src.start + srcOff;
      ok := d + len <= dst.end && s + len <= src.end;
      if !ok {
        return;
      }
      var i := 0;
      while i < len
        invariant 0 <= i <= len
        invariant mem == Forward(old(mem), s, d, i)
      {
        mem := mem[d + i := CellAt(mem, s + i)];
        i := i + 1;
      }
      ForwardOutside(old(mem), s, d, len);
      if d <= s || s + len <= d {
        ForwardMoves(old(mem), s, d, len);
      }
    }

    /** `rt_allocate_raw`: writes the fat pointer of a block nobody else holds. */
    method AllocateRaw(size: nat, raw: Raw)
      requires raw.fat + 16 <= raw.start
      modifies this`mem
      ensures FatPtr(mem, raw.fat) == Some(Region(raw.start, raw.start + size))
      ensures forall a {:trigger CellAt(mem, a)} :: (a < raw.fat || raw.fat + 16 <= a) ==> CellAt(mem, a) == CellAt(old(mem), a)
    {
      hide StoreRegion, FatPtr, CellAt;
      StoreRegionAt(mem, raw.fat, Region(raw.start, raw.start + size));
      mem := StoreRegion(mem, raw.fat, Region(raw.start, raw.start + size));
    }

    /** `rt_arena_alloc`: the next header and payload of the arena, or a raw block when they do not fit. */
    method ArenaAlloc(size: nat, raw: Raw) returns (fat: int, ghost region: Region)
      requires raw.fat + 16 <= raw.start
      modifies this`mem, this`cursor
      ensures FatPtr(mem, fat) == Some(region) && region.end - region.start == size && fat + 16 <= region.start
      ensures old(cursor) + RoundUp8(size) + 16 <= end ==>
        && fat == old(cursor) && cursor == old(cursor) + RoundUp8(size) + 16 && region.end <= cursor
      ensures old(cursor) + RoundUp8(size) + 16 > end ==>
        fat == raw.fat && region.start == raw.start && cursor == old(cursor)
      ensures forall a {:trigger CellAt(mem, a)} :: (a < fat || fat + 16 <= a) ==> CellAt(mem, a) == CellAt(old(mem), a)
    {
      hide StoreRegion, FatPtr, CellAt;
      var next := cursor + RoundUp8(size) + 16;
      if next <= end {
        fat := cursor;
        region := Region(fat + 16, fat + 16 + size);
        StoreRegionAt(mem, fat, region);
        mem := StoreRegion(mem, fat, Region(fat + 16, fat + 16 + size));
        cursor := next;
      } else {
        AllocateRaw(size, raw);
        fat := raw.fat;
        region := Region(raw.start, raw.start + size);
      }
    }

    /** Snapshot every pointer argument's bytes, one after another, into the scratch block. */
    method Snapshot(args: seq<Arg>, sizes: seq<nat>, scratch: Raw, ghost mem0: Memory) 
      requires Headers(mem0, args) && Measured(mem0, args, sizes)
      requires FatPtr(mem, scratch.fat) == Some(Region(scratch.start, scratch.start + Total(mem0, args, |args|)))
      requires scratch.fat + 16 <= scratch.start && ScratchApart(mem0, args, scratch)
      requires Outside(mem0, mem, scratch.fat, scratch.fat + 16)
      modifies this`mem
      ensures Outside(mem0, mem, scratch.fat, scratch.start + Total(mem0, args, |args|))
      ensures FatPtr(mem, scratch.fat) == Some(Region(scratch.start, scratch.start + Total(mem0, args, |args|)))
      ensures forall j :: 0 <= j < |args| && args[j].Pointer? ==>
        Copied(mem0, Start(mem0, args[j]), mem, scratch.start + Total(mem0, args, j), Size(mem0, args[j]))
    {
      hide FatPtr, CellAt, Size, Start, Total, Same, Copied;
      ghost var total := Total(mem0, args, |args|);
      TotalNone(mem0, args);
      var off := 0;
      var i := 0;
      while i < |args|
        invariant 0 <= i <= |args| && off == Total(mem0, args, i)
        invariant Outside(mem0, mem, scratch.fat, scratch.start + total)
        invariant FatPtr(mem, scratch.fat) == Some(Region(scratch.start, scratch.start + total))
        invariant forall j :: 0 <= j < i && args[j].Pointer? ==>
          Copied(mem0, Start(mem0, args[j]), mem, scratch.start + Total(mem0, args, j), Size(mem0, args[j]))
      {
        TotalStep(mem0, args, i);
        if args[i].Pointer? {
          TotalMono(mem0, args, i + 1, |args|);
          SourceKept(mem0, mem, args, i, scratch);
          ghost var before := mem;
          var ok := CopyBytes(scratch.fat, off, args[i].fat, 0, sizes[i]);
          assert ok;
          SnapshotStep(mem0, before, mem, args, i, scratch);
          off := off + sizes[i];
        }
        i := i + 1;
      }
    }

    /** The pointer arguments' sizes, read from their headers, and the sum. */
    method Measure(args: seq<Arg>) returns (sizes: seq<nat>, total: nat)
      requires Headers(mem, args)
      ensures Measured(mem, args, sizes) && total == Total(mem, args, |args|)
    {
      hide LoadWord;
      sizes, total := [], 0;
      var i := 0;
      while i < |args|
        invariant 0 <= i <= |args| && |sizes| == i && total == Total(mem, args, i)
        invariant forall j :: 0 <= j < i ==> sizes[j] == Size(mem, args[j])
      {
        var size := 0;
        if args[i].Pointer? {
          var r := FatPtr(mem, args[i].fat).value;
          size := r.end - r.start;
        }
        sizes := sizes + [size];
        total := total + size;
        i := i + 1;
      }
    }

    /** Fresh copies of every pointer argument, out of the scratch block; scalars pass through. */
    method Restore(args: seq<Arg>, sizes: seq<nat>, raws: seq<Raw>, ghost mem0: Memory)
      returns (vars: seq<int>, ghost regions: seq<Region>)
      requires Headers(mem0, args) && Measured(mem0, args, sizes) && RawsApart(mem0, args, raws, base, end)
      requires base <= cursor <= end && InScratch(mem0, mem, args, raws[0])
      modifies this`mem, this`cursor
      ensures old(cursor) <= cursor <= end && Restored(mem0, mem, args, vars, regions)
      ensures cursor == Bumped(mem0, args, |args|, old(cursor), end) && InTurn(mem0, args, raws, vars, old(cursor), end)
    {
      hide FatPtr, CellAt, Size, Start, Total, Same, Copied, Headers, RawsApart, InScratch, Restored, Placed, Outside,
        RoundUp8, InTurn, Bumped;
      vars, regions := [], [];
      RawCount(mem0, args, raws, base, end);
      NoneInTurn(mem0, args, raws, cursor, end);
      NothingRestored(mem0, mem, args, raws, base, cursor);
      TotalNone(mem0, args);
      var off := 0;
      var i := 0;
      while i < |args|
        invariant 0 <= i <= |args| && |vars| == |regions| == i && off == Total(mem0, args, i)
        invariant base <= old(cursor) <= cursor <= end
        invariant InScratch(mem0, mem, args, raws[0])
        invariant Restored(mem0, mem, args[..i], vars, regions)
        invariant Placed(args[..i], raws, vars, regions, base, cursor)
        invariant cursor == Bumped(mem0, args, i, old(cursor), end) && InTurn(mem0, args, raws, vars, old(cursor), end)
      {
        TotalStep(mem0, args, i);
        assert args[..i + 1] == args[..i] + [args[i]];
        if args[i].Scalar? {
          ScalarStep(mem0, mem, args, raws, i, vars, regions, base, cursor);
          NextInTurn(mem0, args, raws, vars, args[i].word, old(cursor), end);
          vars, regions := vars + [args[i].word], regions + [Region(0, 0)];
        } else {
          ghost var before, from := mem, cursor;
          RawHeader(mem0, args, raws, i, base, end);
          var fat, region := ArenaAlloc(sizes[i], raws[1 + i]);
          ghost var headed := mem;
          assert Outside(before, headed, fat, fat + 16) by { OutsideIs(before, headed, fat, fat + 16); }
          assert Located(fat, region, raws[1 + i], base, from, cursor) && cursor <= end;
          ScratchKept(mem0, before, headed, args, raws, i, base, end, from, cursor, fat, region);
          var ok := CopyBytes(fat, 0, raws[0].fat, off, sizes[i]);
          assert ok;
          assert Outside(headed, mem, region.start, region.end) by { OutsideIs(headed, mem, region.start, region.end); }
          PointerStep(mem0, before, headed, mem, args, raws, i, base, end, from, cursor, fat, region, vars, regions);
          NextInTurn(mem0, args, raws, vars, fat, old(cursor), end);
          off := off + sizes[i];
          vars, regions := vars + [fat], regions + [region];
        }
        i := i + 1;
      }
      assert args[..|args|] == args;
    }

    /**
     * The argument part of `self(...)`: snapshot, reset, fresh copies. Whatever the arguments alias and wherever they
     * live, the arena about to be reset included, each new variable is the old scalar or a whole fat pointer to its
     * own copy of the old bytes. The arena starts over at its base and holds these copies and nothing else.
     */
    method SelfCall(args: seq<Arg>, raws: seq<Raw>) returns (vars: seq<int>, ghost regions: seq<Region>)
      requires base <= end && Headers(mem, args) && RawsApart(mem, args, raws, base, end)
      requires ScratchApart(mem, args, raws[0])
      modifies this`mem, this`cursor
      ensures base <= cursor <= end && Restored(old(mem), mem, args, vars, regions)
      ensures cursor == Bumped(old(mem), args, |args|, base, end) && InTurn(old(mem), args, raws, vars, base, end)
      ensures cursor <= base + Room(old(mem), args)
    {
      hide FatPtr, CellAt, Size, Start, Total, Same, Copied, Headers, RawsApart, InScratch, Restored, Outside, ScratchApart,
        RoundUp8, InTurn, Bumped, Room;
      ghost var mem0 := mem;
      RawCount(mem0, args, raws, base, end);
      BumpedBound(mem0, args, base, end);
      var sizes, total := Measure(args);
      if exists i :: 0 <= i < |args| && args[i].Pointer? {
        ScratchHeader(mem0, args, raws, base, end);
        AllocateRaw(total, raws[0]);
        assert Outside(mem0, mem, raws[0].fat, raws[0].fat + 16) by { OutsideIs(mem0, mem, raws[0].fat, raws[0].fat + 16); }
        Snapshot(args, sizes, raws[0], mem0);
        assert InScratch(mem0, mem, args, raws[0]) by { ScratchFilled(mem0, mem, args, raws[0]); }
        cursor := base;
        vars, regions := Restore(args, sizes, raws, mem0);
      } else {
        cursor := base;
        vars := seq(|args|, i requires 0 <= i < |args| && args[i].Scalar? => args[i].word);
        regions := seq(|args|, i => Region(0, 0));
        ScalarsRestored(mem0, args, vars, regions);
        ScalarsInTurn(mem0, args, raws, vars, base, end);
      }
    }
  }

  // ---------- Sizes and places ----------

  /** Every pointer argument's header is whole and names a region. */
  predicate Headers(mem: Memory, args: seq<Arg>) {
    forall i :: 0 <= i < |args| && args[i].Pointer? ==>
      FatPtr(mem, args[i].fat).Some? && FatPtr(mem, args[i].fat).value.start <= FatPtr(mem, args[i].fat).value.end
  }

  function Start(mem: Memory, a: Arg): int {
    if a.Pointer? && FatPtr(mem, a.fat).Some? then FatPtr(mem, a.fat).value.start else 0
  }

  function Size(mem: Memory, a: Arg): nat {
    if a.Pointer? && FatPtr(mem, a.fat).Some? && FatPtr(mem, a.fat).value.start <= FatPtr(mem, a.fat).value.end
    then FatPtr(mem, a.fat).value.end - FatPtr(mem, a.fat).value.start
    else 0
  }

  /** Bytes of the pointer arguments before the k-th. */
  function Total(mem: Memory, args: seq<Arg>, k: nat): nat
    requires k <= |args|
  {
    if k == 0 then 0 else Total(mem, args, k - 1) + Size(mem, args[k - 1])
  }

  lemma TotalNone(mem: Memory, args: seq<Arg>)
    ensures Total(mem, args, 0) == 0
  {
  }

  lemma TotalStep(mem: Memory, args: seq<Arg>, i: nat)
    requires i < |args|
    ensures Total(mem, args, i + 1) == Total(mem, args, i) + Size(mem, args[i])
    ensures args[i].Scalar? ==> Size(mem, args[i]) == 0
  {
  }

  lemma {:induction false} TotalMono(mem: Memory, args: seq<Arg>, j: nat, k: nat)
    requires j <= k <= |args|
    ensures Total(mem, args, j) <= Total(mem, args, k)
  {
    if j < k {
      TotalMono(mem, args, j, k - 1);
    }
  }

  /** A header and the bytes, rounded up to whole words. */
  function Need(mem: Memory, a: Arg): int {
    RoundUp8(Size(mem, a)) + 16
  }

  /** Where an arena's cursor stands once the first k arguments have their copies. */
  function Bumped(mem: Memory, args: seq<Arg>, k: nat, cursor: int, end: int): int
    requires k <= |args|
  {
    if k == 0 then cursor
    else
      var before := Bumped(mem, args, k - 1, cursor, end);
      if args[k - 1].Pointer? && before + Need(mem, args[k - 1]) <= end then before + Need(mem, args[k - 1]) else before
  }

  /** What all copies together take. */
  function Room(mem: Memory, args: seq<Arg>): int {
    if args == [] then 0
    else
      var last := args[|args| - 1];
      Room(mem, args[..|args| - 1]) + if last.Pointer? then Need(mem, last) else 0
  }

  /** Each pointer's new header is next in the arena while its copy fits there, and in a raw block when it does not. */
  predicate InTurn(mem: Memory, args: seq<Arg>, raws: seq<Raw>, vars: seq<int>, cursor: int, end: int) {
    && |vars| <= |args| && |raws| == |args| + 1
    && forall i :: 0 <= i < |vars| && args[i].Pointer? ==>
         var at := Bumped(mem, args, i, cursor, end);
         vars[i] == if at + Need(mem, args[i]) <= end then at else raws[1 + i].fat
  }

  lemma NoneInTurn(mem: Memory, args: seq<Arg>, raws: seq<Raw>, cursor: int, end: int)
    requires |raws| == |args| + 1
    ensures InTurn(mem, args, raws, [], cursor, end) && Bumped(mem, args, 0, cursor, end) == cursor
  {
  }

  lemma NextInTurn(mem: Memory, args: seq<Arg>, raws: seq<Raw>, vars: seq<int>, v: int, cursor: int, end: int)
    requires InTurn(mem, args, raws, vars, cursor, end) && |vars| < |args|
    requires var at, a := Bumped(mem, args, |vars|, cursor, end), args[|vars|];
      v == if a.Scalar? then a.word else if at + Need(mem, a) <= end then at else raws[1 + |vars|].fat
    ensures InTurn(mem, args, raws, vars + [v], cursor, end)
    ensures var at, a := Bumped(mem, args, |vars|, cursor, end), args[|vars|];
      Bumped(mem, args, |vars| + 1, cursor, end) ==
        if a.Pointer? && at + RoundUp8(Size(mem, a)) + 16 <= end then at + RoundUp8(Size(mem, a)) + 16 else at
  {
    hide RoundUp8, Size;
  }

  lemma {:induction false} ScalarsInTurn(mem: Memory, args: seq<Arg>, raws: seq<Raw>, vars: seq<int>, cursor: int, end: int)
    requires |vars| == |args| && |raws| == |args| + 1 && forall i :: 0 <= i < |args| ==> args[i].Scalar?
    ensures InTurn(mem, args, raws, vars, cursor, end) && Bumped(mem, args, |args|, cursor, end) == cursor
  {
    var k := 0;
    while k < |args|
      invariant 0 <= k <= |args| && Bumped(mem, args, k, cursor, end) == cursor
    {
      k := k + 1;
    }
  }

  lemma RoundsUp(n: nat)
    ensures n <= RoundUp8(n) < n + 8 && RoundUp8(n) % 8 == 0
  {
  }

  lemma {:induction false} BumpedPrefix(mem: Memory, args: seq<Arg>, k: nat, n: nat, cursor: int, end: int)
    requires k <= n <= |args|
    ensures Bumped(mem, args[..n], k, cursor, end) == Bumped(mem, args, k, cursor, end)
  {
    hide Need;
    if k > 0 {
      BumpedPrefix(mem, args, k - 1, n, cursor, end);
    }
  }

  lemma {:induction false} BumpedBound(mem: Memory, args: seq<Arg>, cursor: int, end: int)
    ensures cursor <= Bumped(mem, args, |args|, cursor, end) <= cursor + Room(mem, args)
    decreases |args|
  {
    hide RoundUp8, Size;
    if args != [] {
      var n := |args| - 1;
      BumpedBound(mem, args[..n], cursor, end);
      BumpedPrefix(mem, args, n, n, cursor, end);
      RoundsUp(Size(mem, args[n]));
    }
  }

  /** Same everywhere except from `lo` to `hi`. */
  ghost predicate Outside(mem: Memory, mem1: Memory, lo: int, hi: int) {
    forall a {:trigger CellAt(mem1, a)} :: (a < lo || hi <= a) ==> CellAt(mem1, a) == CellAt(mem, a)
  }

  /** The scratch block overlaps no argument's header and no argument's bytes. */
  predicate ScratchApart(mem: Memory, args: seq<Arg>, scratch: Raw) {
    forall i :: 0 <= i < |args| && args[i].Pointer? ==>
      var hi := scratch.start + Total(mem, args, |args|);
      && Apart(scratch.fat, hi, args[i].fat, args[i].fat + 16)
      && Apart(scratch.fat, hi, Start(mem, args[i]), Start(mem, args[i]) + Size(mem, args[i]))
  }

  /** While the scratch block is being filled, the arguments still read as they did. */
  lemma SourceKept(mem0: Memory, mem: Memory, args: seq<Arg>, i: nat, scratch: Raw)
    requires Headers(mem0, args) && ScratchApart(mem0, args, scratch) && i < |args| && args[i].Pointer?
    requires Outside(mem0, mem, scratch.fat, scratch.start + Total(mem0, args, |args|))
    ensures FatPtr(mem, args[i].fat) == Some(Region(Start(mem0, args[i]), Start(mem0, args[i]) + Size(mem0, args[i])))
    ensures Same(mem0, mem, Start(mem0, args[i]), Start(mem0, args[i]) + Size(mem0, args[i]))
  {
    hide LoadWord, CellAt;
    FatKept(mem0, mem, args[i].fat);
  }

  /** One more argument in the scratch block; the earlier ones and the block's header stay. */
  lemma SnapshotStep(mem0: Memory, mem: Memory, mem1: Memory, args: seq<Arg>, i: nat, scratch: Raw)
    requires i < |args| && args[i].Pointer? && scratch.fat + 16 <= scratch.start
    requires Outside(mem0, mem, scratch.fat, scratch.start + Total(mem0, args, |args|))
    requires Same(mem0, mem, Start(mem0, args[i]), Start(mem0, args[i]) + Size(mem0, args[i]))
    requires var d := scratch.start + Total(mem0, args, i);
      && Copied(mem, Start(mem0, args[i]), mem1, d, Size(mem0, args[i]))
      && Outside(mem, mem1, d, d + Size(mem0, args[i]))
    requires forall j :: 0 <= j < i && args[j].Pointer? ==>
      Copied(mem0, Start(mem0, args[j]), mem, scratch.start + Total(mem0, args, j), Size(mem0, args[j]))
    ensures Outside(mem0, mem1, scratch.fat, scratch.start + Total(mem0, args, |args|))
    ensures FatPtr(mem1, scratch.fat) == FatPtr(mem, scratch.fat)
    ensures forall j :: 0 <= j <= i && args[j].Pointer? ==>
      Copied(mem0, Start(mem0, args[j]), mem1, scratch.start + Total(mem0, args, j), Size(mem0, args[j]))
  {
    hide LoadWord, CellAt, Size, Start, FatPtr, Outside, Copied, Total, Same;
    TotalStep(mem0, args, i);
    TotalMono(mem0, args, i + 1, |args|);
    var d, n := scratch.start + Total(mem0, args, i), Size(mem0, args[i]);
    OutsideTrans(mem0, mem, mem1, scratch.fat, scratch.start + Total(mem0, args, |args|), d, d + n);
    OutsideSame(mem, mem1, d, d + n, scratch.fat, scratch.fat + 16);
    FatKept(mem, mem1, scratch.fat);
    CopiedFrom(mem0, mem, mem1, Start(mem0, args[i]), d, n);
    forall j | 0 <= j <= i && args[j].Pointer?
      ensures Copied(mem0, Start(mem0, args[j]), mem1, scratch.start + Total(mem0, args, j), Size(mem0, args[j]))
    {
      if j < i {
        TotalStep(mem0, args, j);
        TotalMono(mem0, args, j + 1, i);
        CopiedKept(mem0, mem, mem1, Start(mem0, args[j]), scratch.start + Total(mem0, args, j), Size(mem0, args[j]), d, d + n);
      }
    }
  }

  lemma OutsideTrans(mem0: Memory, mem: Memory, mem1: Memory, lo: int, hi: int, lo1: int, hi1: int)
    requires Outside(mem0, mem, lo, hi) && Outside(mem, mem1, lo1, hi1) && lo <= lo1 <= hi1 <= hi
    ensures Outside(mem0, mem1, lo, hi)
  {
    hide CellAt;
    forall a | a < lo || hi <= a ensures CellAt(mem1, a) == CellAt(mem0, a) {
      assert CellAt(mem1, a) == CellAt(mem, a);
    }
  }

  lemma OutsideSame(mem: Memory, mem1: Memory, lo: int, hi: int, from: int, to: int)
    requires Outside(mem, mem1, lo, hi) && Apart(lo, hi, from, to)
    ensures Same(mem, mem1, from, to)
  {
    hide CellAt;
  }

  lemma CopiedFrom(mem0: Memory, mem: Memory, mem1: Memory, src: int, dst: int, n: nat)
    requires Same(mem0, mem, src, src + n) && Copied(mem, src, mem1, dst, n)
    ensures Copied(mem0, src, mem1, dst, n)
  {
    hide CellAt;
    forall a | dst <= a < dst + n ensures CellAt(mem1, a) == CellAt(mem0, src + (a - dst)) {
      assert CellAt(mem1, a) == CellAt(mem, src + (a - dst));
    }
  }

  lemma CopiedKept(mem0: Memory, mem: Memory, mem1: Memory, src: int, dst: int, n: nat, lo: int, hi: int)
    requires Copied(mem0, src, mem, dst, n) && Outside(mem, mem1, lo, hi) && Apart(dst, dst + n, lo, hi)
    ensures Copied(mem0, src, mem1, dst, n)
  {
    hide CellAt;
    forall a | dst <= a < dst + n ensures CellAt(mem1, a) == CellAt(mem0, src + (a - dst)) {
      assert CellAt(mem1, a) == CellAt(mem, a);
    }
  }

  /** Sizes as the headers had them. */
  predicate Measured(mem: Memory, args: seq<Arg>, sizes: seq<nat>) {
    |sizes| == |args| && forall j :: 0 <= j < |args| ==> sizes[j] == Size(mem, args[j])
  }

  // ---------- Restoring ----------

  /** The scratch block holds every pointer argument's bytes, and its own header is whole. */
  ghost predicate InScratch(mem0: Memory, mem: Memory, args: seq<Arg>, scratch: Raw) {
    && scratch.fat + 16 <= scratch.start
    && FatPtr(mem, scratch.fat) == Some(Region(scratch.start, scratch.start + Total(mem0, args, |args|)))
    && forall j :: 0 <= j < |args| && args[j].Pointer? ==>
         Copied(mem0, Start(mem0, args[j]), mem, scratch.start + Total(mem0, args, j), Size(mem0, args[j]))
  }

  /** One new variable: a scalar as it was, or a whole fat pointer to a copy of the argument's bytes. */
  ghost predicate Fresh(mem0: Memory, mem: Memory, a: Arg, v: int, r: Region) {
    match a
    case Scalar(w) => v == w
    case Pointer(_) =>
      && FatPtr(mem, v) == Some(r) && v + 16 <= r.start && r.end - r.start == Size(mem0, a)
      && Copied(mem0, Start(mem0, a), mem, r.start, Size(mem0, a))
  }

  /** Every new variable is right, and no two copies share a byte, headers included. */
  ghost predicate Restored(mem0: Memory, mem: Memory, args: seq<Arg>, vars: seq<int>, regions: seq<Region>) {
    && |vars| == |regions| == |args|
    && (forall j :: 0 <= j < |args| ==> Fresh(mem0, mem, args[j], vars[j], regions[j]))
    && (forall j, k :: 0 <= j < k < |args| && args[j].Pointer? && args[k].Pointer? ==>
          Apart(vars[j], regions[j].end, vars[k], regions[k].end))
  }

  /** Where a new block lies: in the arena below the cursor, or where the raw allocator put it. */
  predicate Located(fat: int, r: Region, raw: Raw, base: int, from: int, cursor: int) {
    || (base <= from == fat && r.end <= cursor)
    || (fat == raw.fat && r.start == raw.start && cursor == from)
  }

  predicate PlacedAt(fat: int, r: Region, raw: Raw, base: int, cursor: int) {
    (base <= fat && r.end <= cursor) || (fat == raw.fat && r.start == raw.start)
  }

  predicate Placed(args: seq<Arg>, raws: seq<Raw>, vars: seq<int>, regions: seq<Region>, base: int, cursor: int) {
    && |vars| == |regions| == |args| < |raws|
    && forall j :: 0 <= j < |args| && args[j].Pointer? ==> PlacedAt(vars[j], regions[j], raws[1 + j], base, cursor)
  }

  /** Blocks from the raw allocator overlap neither the arena nor one another. */
  predicate RawsApart(mem: Memory, args: seq<Arg>, raws: seq<Raw>, base: int, end: int) {
    && |raws| == |args| + 1
    && (forall k :: 0 <= k < |raws| ==> raws[k].fat + 16 <= raws[k].start)
    && Apart(raws[0].fat, raws[0].start + Total(mem, args, |args|), base, end)
    && (forall j :: 0 <= j < |args| && args[j].Pointer? ==>
          var hi := raws[1 + j].start + Size(mem, args[j]);
          && Apart(raws[0].fat, raws[0].start + Total(mem, args, |args|), raws[1 + j].fat, hi)
          && Apart(base, end, raws[1 + j].fat, hi))
    && (forall j, k :: 0 <= j < k < |args| && args[j].Pointer? && args[k].Pointer? ==>
          Apart(raws[1 + j].fat, raws[1 + j].start + Size(mem, args[j]), raws[1 + k].fat, raws[1 + k].start + Size(mem, args[k])))
  }

  lemma OutsideIs(mem: Memory, mem1: Memory, lo: int, hi: int)
    requires forall a {:trigger CellAt(mem1, a)} :: (a < lo || hi <= a) ==> CellAt(mem1, a) == CellAt(mem, a)
    ensures Outside(mem, mem1, lo, hi)
  {
  }

  lemma RawHeader(mem: Memory, args: seq<Arg>, raws: seq<Raw>, i: nat, base: int, end: int)
    requires RawsApart(mem, args, raws, base, end) && i < |args|
    ensures raws[1 + i].fat + 16 <= raws[1 + i].start && raws[0].fat + 16 <= raws[0].start
  {
    hide Total, Size;
  }

  lemma NothingRestored(mem0: Memory, mem: Memory, args: seq<Arg>, raws: seq<Raw>, base: int, cursor: int)
    requires |raws| == |args| + 1
    ensures Restored(mem0, mem, args[..0], [], []) && Placed(args[..0], raws, [], [], base, cursor)
  {
  }

  lemma ScalarStep(mem0: Memory, mem: Memory, args: seq<Arg>, raws: seq<Raw>, i: nat, vars: seq<int>, regions: seq<Region>,
      base: int, cursor: int)
    requires i < |args| && args[i].Scalar? && |vars| == i && |regions| == i
    requires Restored(mem0, mem, args[..i], vars, regions) && Placed(args[..i], raws, vars, regions, base, cursor)
    requires |raws| == |args| + 1
    ensures Restored(mem0, mem, args[..i] + [args[i]], vars + [args[i].word], regions + [Region(0, 0)])
    ensures Placed(args[..i] + [args[i]], raws, vars + [args[i].word], regions + [Region(0, 0)], base, cursor)
  {
    hide FatPtr, CellAt, Size, Start, Copied;
  }

  /** A new block overlaps the scratch block nowhere. */
  lemma ApartFromScratch(mem0: Memory, args: seq<Arg>, raws: seq<Raw>, i: nat, base: int, end: int, from: int, cursor: int,
      fat: int, r: Region)
    requires RawsApart(mem0, args, raws, base, end) && i < |args| && args[i].Pointer? && cursor <= end
    requires Located(fat, r, raws[1 + i], base, from, cursor) && r.end - r.start == Size(mem0, args[i])
    ensures Apart(raws[0].fat, raws[0].start + Total(mem0, args, |args|), fat, r.end)
  {
    hide Total, Size;
  }

  /** A new block overlaps no earlier one. */
  lemma ApartFromEarlier(mem0: Memory, args: seq<Arg>, raws: seq<Raw>, i: nat, j: nat, base: int, end: int, from: int,
      cursor: int, fat: int, r: Region, fat0: int, r0: Region)
    requires RawsApart(mem0, args, raws, base, end) && j < i < |args| && args[i].Pointer? && args[j].Pointer?
    requires base <= from <= end && cursor <= end && Located(fat, r, raws[1 + i], base, from, cursor)
    requires r.end - r.start == Size(mem0, args[i])
    requires PlacedAt(fat0, r0, raws[1 + j], base, from) && r0.end - r0.start == Size(mem0, args[j])
    ensures Apart(fat0, r0.end, fat, r.end)
  {
    hide Total, Size;
  }

  /** Allocating the new block leaves the scratch block as it is, and the copy into it passes both bounds checks. */
  lemma ScratchKept(mem0: Memory, before: Memory, mem: Memory, args: seq<Arg>, raws: seq<Raw>, i: nat, base: int, end: int,
      from: int, cursor: int, fat: int, r: Region)
    requires RawsApart(mem0, args, raws, base, end) && i < |args| && args[i].Pointer? && cursor <= end
    requires Located(fat, r, raws[1 + i], base, from, cursor) && fat + 16 <= r.start && r.end - r.start == Size(mem0, args[i])
    requires InScratch(mem0, before, args, raws[0]) && Outside(before, mem, fat, fat + 16)
    ensures InScratch(mem0, mem, args, raws[0])
    ensures FatPtr(mem, raws[0].fat) == Some(Region(raws[0].start, raws[0].start + Total(mem0, args, |args|)))
    ensures var s := raws[0].start + Total(mem0, args, i);
      && Apart(r.start, r.start + Size(mem0, args[i]), s, s + Size(mem0, args[i]))
      && s + Size(mem0, args[i]) <= raws[0].start + Total(mem0, args, |args|)
  {
    hide FatPtr, CellAt, Size, Start, Total, Same, Copied, RawsApart, Outside;
    RawCount(mem0, args, raws, base, end);
    ApartFromScratch(mem0, args, raws, i, base, end, from, cursor, fat, r);
    TotalStep(mem0, args, i);
    TotalMono(mem0, args, i + 1, |args|);
    TotalNone(mem0, args);
    TotalMono(mem0, args, 0, i);
    KeepScratch(mem0, before, mem, args, raws[0], fat, fat + 16);
  }

  /** Writes apart from the scratch block leave it as it is. */
  lemma KeepScratch(mem0: Memory, mem: Memory, mem1: Memory, args: seq<Arg>, scratch: Raw, lo: int, hi: int)
    requires InScratch(mem0, mem, args, scratch) && Outside(mem, mem1, lo, hi)
    requires Apart(scratch.fat, scratch.start + Total(mem0, args, |args|), lo, hi)
    ensures InScratch(mem0, mem1, args, scratch)
  {
    hide FatPtr, CellAt, Size, Start, Total, Same, Copied, Outside;
    TotalNone(mem0, args);
    TotalMono(mem0, args, 0, |args|);
    OutsideSame(mem, mem1, lo, hi, scratch.fat, scratch.fat + 16);
    FatKept(mem, mem1, scratch.fat);
    forall j | 0 <= j < |args| && args[j].Pointer?
      ensures Copied(mem0, Start(mem0, args[j]), mem1, scratch.start + Total(mem0, args, j), Size(mem0, args[j]))
    {
      TotalStep(mem0, args, j);
      TotalMono(mem0, args, j + 1, |args|);
      CopiedKept(mem0, mem, mem1, Start(mem0, args[j]), scratch.start + Total(mem0, args, j), Size(mem0, args[j]), lo, hi);
    }
  }

  /** Writes apart from a copy leave it as it is. */
  lemma KeepFresh(mem0: Memory, mem: Memory, mem1: Memory, a: Arg, v: int, r: Region, lo: int, hi: int)
    requires Fresh(mem0, mem, a, v, r) && Outside(mem, mem1, lo, hi)
    requires a.Pointer? ==> Apart(v, r.end, lo, hi)
    ensures Fresh(mem0, mem1, a, v, r)
  {
    hide FatPtr, CellAt, Size, Start, Same, Copied, Outside;
    if a.Pointer? {
      OutsideSame(mem, mem1, lo, hi, v, v + 16);
      FatKept(mem, mem1, v);
      CopiedKept(mem0, mem, mem1, Start(mem0, a), r.start, Size(mem0, a), lo, hi);
    }
  }

  /** A copy made from the scratch block is a copy of the argument. */
  lemma NewFresh(mem0: Memory, mem: Memory, mem1: Memory, args: seq<Arg>, scratch: Raw, i: nat, fat: int, r: Region)
    requires InScratch(mem0, mem, args, scratch) && i < |args| && args[i].Pointer?
    requires FatPtr(mem, fat) == Some(r) && fat + 16 <= r.start && r.end - r.start == Size(mem0, args[i])
    requires Outside(mem, mem1, r.start, r.end)
    requires Copied(mem, scratch.start + Total(mem0, args, i), mem1, r.start, Size(mem0, args[i]))
    ensures Fresh(mem0, mem1, args[i], fat, r)
  {
    hide FatPtr, CellAt, Size, Start, Total, Same, Copied, Outside;
    OutsideSame(mem, mem1, r.start, r.end, fat, fat + 16);
    FatKept(mem, mem1, fat);
    CopiedTwice(mem0, mem, mem1, Start(mem0, args[i]), scratch.start + Total(mem0, args, i), r.start, Size(mem0, args[i]));
  }

  lemma CopiedTwice(mem0: Memory, mem: Memory, mem1: Memory, src: int, mid: int, dst: int, n: nat)
    requires Copied(mem0, src, mem, mid, n) && Copied(mem, mid, mem1, dst, n)
    ensures Copied(mem0, src, mem1, dst, n)
  {
    hide CellAt;
    forall a | dst <= a < dst + n ensures CellAt(mem1, a) == CellAt(mem0, src + (a - dst)) {
      assert CellAt(mem1, a) == CellAt(mem, mid + (a - dst));
      assert mid <= mid + (a - dst) < mid + n;
    }
  }

  /** One more pointer argument restored; the ones before it stay. */
  lemma PointerStep(mem0: Memory, before: Memory, headed: Memory, mem: Memory, args: seq<Arg>, raws: seq<Raw>, i: nat,
      base: int, end: int, from: int, cursor: int, fat: int, r: Region, vars: seq<int>, regions: seq<Region>)
    requires RawsApart(mem0, args, raws, base, end) && i < |args| && args[i].Pointer?
    requires base <= from <= cursor <= end && Located(fat, r, raws[1 + i], base, from, cursor)
    requires FatPtr(headed, fat) == Some(r) && fat + 16 <= r.start && r.end - r.start == Size(mem0, args[i])
    requires Outside(before, headed, fat, fat + 16) && Outside(headed, mem, r.start, r.end)
    requires InScratch(mem0, headed, args, raws[0])
    requires Copied(headed, raws[0].start + Total(mem0, args, i), mem, r.start, Size(mem0, args[i]))
    requires Restored(mem0, before, args[..i], vars, regions) && Placed(args[..i], raws, vars, regions, base, from)
    ensures InScratch(mem0, mem, args, raws[0])
    ensures Restored(mem0, mem, args[..i] + [args[i]], vars + [fat], regions + [r])
    ensures Placed(args[..i] + [args[i]], raws, vars + [fat], regions + [r], base, cursor)
  {
    hide FatPtr, CellAt, Size, Start, Total, Same, Copied, Outside, RawsApart, InScratch, Fresh;
    ApartFromScratch(mem0, args, raws, i, base, end, from, cursor, fat, r);
    KeepScratch(mem0, headed, mem, args, raws[0], r.start, r.end);
    NewFresh(mem0, headed, mem, args, raws[0], i, fat, r);
    RawCount(mem0, args, raws, base, end);
    forall j | 0 <= j < i
      ensures Fresh(mem0, mem, args[j], vars[j], regions[j])
      ensures args[j].Pointer? ==> Apart(vars[j], regions[j].end, fat, r.end)
    {
      assert args[..i][j] == args[j];
      if args[j].Pointer? {
        FreshSize(mem0, before, args[j], vars[j], regions[j]);
        ApartFromEarlier(mem0, args, raws, i, j, base, end, from, cursor, fat, r, vars[j], regions[j]);
      }
      KeepFresh(mem0, before, headed, args[j], vars[j], regions[j], fat, fat + 16);
      KeepFresh(mem0, headed, mem, args[j], vars[j], regions[j], r.start, r.end);
    }
  }

  lemma RawCount(mem0: Memory, args: seq<Arg>, raws: seq<Raw>, base: int, end: int)
    requires RawsApart(mem0, args, raws, base, end)
    ensures |raws| == |args| + 1
  {
    hide Total, Size;
  }

  lemma FreshSize(mem0: Memory, mem: Memory, a: Arg, v: int, r: Region)
    requires a.Pointer? && Fresh(mem0, mem, a, v, r)
    ensures r.end - r.start == Size(mem0, a)
  {
    hide FatPtr, Size, Copied;
  }

  lemma ScratchHeader(mem: Memory, args: seq<Arg>, raws: seq<Raw>, base: int, end: int)
    requires RawsApart(mem, args, raws, base, end)
    ensures raws[0].fat + 16 <= raws[0].start
  {
    hide Total, Size;
  }

  lemma ScratchFilled(mem0: Memory, mem: Memory, args: seq<Arg>, scratch: Raw)
    requires scratch.fat + 16 <= scratch.start
    requires FatPtr(mem, scratch.fat) == Some(Region(scratch.start, scratch.start + Total(mem0, args, |args|)))
    requires forall j :: 0 <= j < |args| && args[j].Pointer? ==>
      Copied(mem0, Start(mem0, args[j]), mem, scratch.start + Total(mem0, args, j), Size(mem0, args[j]))
    ensures InScratch(mem0, mem, args, scratch)
  {
  }

  lemma ScalarsRestored(mem: Memory, args: seq<Arg>, vars: seq<int>, regions: seq<Region>)
    requires |vars| == |regions| == |args|
    requires forall i :: 0 <= i < |args| ==> args[i].Scalar? && vars[i] == args[i].word
    ensures Restored(mem, mem, args, vars, regions)
  {
  }
}
