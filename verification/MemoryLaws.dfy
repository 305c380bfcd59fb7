/** Little-endian memory: what stores leave, what loads and the reads through fat pointers give back. */
module MemoryLaws {
  import opened Words
  import opened Lake

  /** Byte `k` of a word, from the low end. */
  function ByteOf(w: nat, k: nat): Byte
    decreases k
  {
    if k == 0 then w % 256 else ByteOf(w / 256, k - 1)
  }

  function Power256(n: nat): (p: nat)
    ensures p > 0
  {
    if n == 0 then 1 else 256 * Power256(n - 1)
  }

  lemma EightBytes()
    ensures Power256(8) == TWO_64
  {
    assert Power256(4) == TWO_32;
  }

  /** `len` bytes from `from`, around the end of the address space. */
  predicate Within(a: Word, from: Word, len: nat) {
    Wrap(a - from) < len
  }

  ghost predicate Disjoint(from: Word, len: nat, from1: Word, len1: nat) {
    forall a: Word :: Within(a, from, len) ==> !Within(a, from1, len1)
  }

  lemma {:induction false} StoredOutside(mem: Mem, addr: Word, w: Word, n: nat, a: Word)
    requires n <= 16 && !Within(a, addr, n)
    ensures LoadByte(StoreLE(mem, addr, w, n), a) == LoadByte(mem, a)
    decreases n
  {
    if n > 0 {
      StoredOutside(mem[addr := w % 256], Wrap(addr + 1), w / 256, n - 1, a);
    }
  }

  /** A store puts the word's low bytes at consecutive addresses, the lowest first. */
  lemma {:induction false} StoredBytes(mem: Mem, addr: Word, w: Word, n: nat, k: nat)
    requires k < n <= 16
    ensures LoadByte(StoreLE(mem, addr, w, n), Wrap(addr + k)) == ByteOf(w, k)
    decreases n
  {
    hide Wrap, Within, LoadByte;
    var mem1 := mem[addr := w % 256];
    Following(addr, k);
    if k == 0 {
      BehindFirst(addr, n);
      StoredOutside(mem1, Wrap(addr + 1), w / 256, n - 1, addr);
      assert LoadByte(mem1, addr) == w % 256 by { ByteThere(mem, addr, w % 256); }
    } else {
      StoredBytes(mem1, Wrap(addr + 1), w / 256, n - 1, k - 1);
    }
  }

  lemma BehindFirst(addr: Word, n: nat)
    requires 0 < n <= 16
    ensures !Within(addr, Wrap(addr + 1), n - 1)
  {
  }

  lemma ByteThere(mem: Mem, addr: Word, b: Byte)
    ensures LoadByte(mem[addr := b], addr) == b
  {
  }

  /** A load of up to 8 bytes has exactly the bytes at consecutive addresses, the lowest first, and no others. */
  lemma {:induction false} LoadedBytes(mem: Mem, addr: Word, n: nat)
    requires n <= 8
    ensures LoadLE(mem, addr, n) < Power256(n)
    ensures forall k: nat :: k < n ==> ByteOf(LoadLE(mem, addr, n), k) == LoadByte(mem, Wrap(addr + k))
    decreases n
  {
    hide LoadByte, ByteOf, Wrap, LoadLE;
    if n == 0 {
      NoBytes(mem, addr);
    } else {
      var next := Wrap(addr + 1);
      var rest, low := LoadLE(mem, next, n - 1), LoadByte(mem, addr);
      LoadedBytes(mem, next, n - 1);
      OneByte(mem, addr, n);
      var w := LoadLE(mem, addr, n);
      forall k: nat | k < n ensures ByteOf(w, k) == LoadByte(mem, Wrap(addr + k)) {
        FrontByte(rest, low, k);
        Following(addr, k);
      }
    }
  }

  lemma NoBytes(mem: Mem, addr: Word)
    ensures LoadLE(mem, addr, 0) == 0 && Power256(0) == 1
  {
  }

  lemma OneByte(mem: Mem, addr: Word, n: nat)
    requires 0 < n <= 8 && LoadLE(mem, Wrap(addr + 1), n - 1) < Power256(n - 1)
    ensures var w := 256 * LoadLE(mem, Wrap(addr + 1), n - 1) + LoadByte(mem, addr);
      LoadLE(mem, addr, n) == w && w < Power256(n)
  {
    hide LoadByte, Wrap;
    var rest, low := LoadLE(mem, Wrap(addr + 1), n - 1), LoadByte(mem, addr);
    EightBytes();
    PowerMono(n, 8);
    Below(rest, low, Power256(n - 1));
    assert 256 * rest + low < Power256(n) <= TWO_64;
    Unwrapped(256 * rest + low);
  }

  lemma Below(rest: nat, low: Byte, p: nat)
    requires rest < p
    ensures 256 * rest + low < 256 * p
  {
  }

  lemma Unwrapped(n: nat)
    requires n < TWO_64
    ensures Wrap(n) == n
  {
  }

  lemma FrontByte(rest: nat, low: Byte, k: nat)
    ensures ByteOf(256 * rest + low, k) == if k == 0 then low else ByteOf(rest, k - 1)
  {
    assert (256 * rest + low) / 256 == rest && (256 * rest + low) % 256 == low;
  }

  /** Addresses go on past the end of the address space from its front. */
  lemma Following(addr: Word, k: nat)
    ensures k > 0 ==> Wrap(Wrap(addr + 1) + (k - 1)) == Wrap(addr + k)
    ensures Wrap(addr) == addr
  {
  }

  lemma {:induction false} PowerMono(m: nat, n: nat)
    requires m <= n
    ensures Power256(m) <= Power256(n)
    decreases n
  {
    if m < n {
      PowerMono(m, n - 1);
    }
  }

  /** Numbers of `n` bytes with the same bytes are the same. */
  lemma {:induction false} SameBytes(v: nat, w: nat, n: nat)
    requires v < Power256(n) && w < Power256(n) && forall k: nat :: k < n ==> ByteOf(v, k) == ByteOf(w, k)
    ensures v == w
    decreases n
  {
    if n > 0 {
      assert ByteOf(v, 0) == ByteOf(w, 0);
      forall k: nat | k < n - 1 ensures ByteOf(v / 256, k) == ByteOf(w / 256, k) {
        assert ByteOf(v, k + 1) == ByteOf(w, k + 1);
      }
      SameBytes(v / 256, w / 256, n - 1);
    }
  }

  /** `v` is what `n` bytes hold of the word `w`. */
  ghost predicate Holds(v: Word, w: Word, n: nat) {
    v < Power256(n) && (forall k: nat :: k < n ==> ByteOf(v, k) == ByteOf(w, k)) && (n == 8 ==> v == w)
  }

  /** What is stored is loaded: the word itself with 8 bytes, its low bytes with fewer. */
  lemma StoreLoad(mem: Mem, addr: Word, w: Word, n: nat)
    requires n <= 8
    ensures Holds(LoadLE(StoreLE(mem, addr, w, n), addr, n), w, n)
  {
    hide LoadLE, StoreLE, LoadByte, ByteOf, Power256;
    var mem1 := StoreLE(mem, addr, w, n);
    LoadedBytes(mem1, addr, n);
    forall k: nat | k < n ensures ByteOf(LoadLE(mem1, addr, n), k) == ByteOf(w, k) {
      StoredBytes(mem, addr, w, n, k);
    }
    EightBytes();
    if n == 8 {
      SameBytes(LoadLE(mem1, addr, n), w, n);
    }
  }

  /** A load apart from a store is not touched by it. */
  lemma {:induction false} LoadKept(mem: Mem, mem1: Mem, addr: Word, n: nat)
    requires n <= 16 && forall a: Word :: Within(a, addr, n) ==> LoadByte(mem1, a) == LoadByte(mem, a)
    ensures LoadLE(mem1, addr, n) == LoadLE(mem, addr, n)
    decreases n
  {
    hide Within, LoadByte, Wrap;
    if n > 0 {
      FirstWithin(addr, n);
      forall a: Word | Within(a, Wrap(addr + 1), n - 1) ensures LoadByte(mem1, a) == LoadByte(mem, a) {
        LaterWithin(a, addr, n);
      }
      LoadKept(mem, mem1, Wrap(addr + 1), n - 1);
    }
  }

  lemma FirstWithin(addr: Word, n: nat)
    requires n > 0
    ensures Within(addr, addr, n)
  {
  }

  lemma LaterWithin(a: Word, addr: Word, n: nat)
    requires 0 < n <= 16 && Within(a, Wrap(addr + 1), n - 1)
    ensures Within(a, addr, n)
  {
  }

  lemma HalvesApart(fat: Word)
    ensures Disjoint(fat, 8, Wrap(fat + 8), 8)
  {
  }

  /** A store beside a range leaves its loads alone. */
  lemma StoreBeside(mem: Mem, at: Word, w: Word, n: nat, addr: Word, len: nat)
    requires n <= 16 && len <= 16 && Disjoint(addr, len, at, n)
    ensures LoadLE(StoreLE(mem, at, w, n), addr, len) == LoadLE(mem, addr, len)
  {
    hide LoadLE, StoreLE, LoadByte, Within;
    forall a: Word | Within(a, addr, len) ensures LoadByte(StoreLE(mem, at, w, n), a) == LoadByte(mem, a) {
      StoredOutside(mem, at, w, n, a);
    }
    LoadKept(mem, StoreLE(mem, at, w, n), addr, len);
  }

  /** A string's fat pointer holds its start, and its end 8 bytes further on. */
  lemma FatWords(mem: Mem, fat: Word, start: Word, end: Word)
    ensures var mem1 := StoreFat(mem, fat, start, end);
      LoadLE(mem1, fat, 8) == start && LoadLE(mem1, Wrap(fat + 8), 8) == end
  {
    hide LoadLE, StoreLE, LoadByte, Wrap, Disjoint;
    var half := StoreLE(mem, fat, start, 8);
    StoreLoad(mem, fat, start, 8);
    StoreLoad(half, Wrap(fat + 8), end, 8);
    HalvesApart(fat);
    StoreBeside(half, Wrap(fat + 8), end, 8, fat, 8);
  }

  const NO_NAMES: map<string, Word> := map[]

  /** `rt_load_*` of `n` bytes gives the low bytes of what was stored at that offset behind the start of the region. */
  lemma LoadReads(mem: Mem, fat: Word, offset: Word, w: Word, n: nat)
    requires n <= 8 && Disjoint(fat, 8, Wrap(LoadLE(mem, fat, 8) + offset), n)
    ensures var r := PureEval(Load(n, Num(fat), Num(offset)), NO_NAMES, StoreLE(mem, Wrap(LoadLE(mem, fat, 8) + offset), w, n));
      r.Ok? && Holds(r.w, w, n)
  {
    hide LoadLE, StoreLE, Wrap, Disjoint, Holds;
    var at := Wrap(LoadLE(mem, fat, 8) + offset);
    StoreBeside(mem, at, w, n, fat, 8);
    StoreLoad(mem, at, w, n);
  }

  /** Element `i` of a tuple is the word 8 * i bytes behind the start of its region. */
  lemma TupleReads(mem: Mem, tuple: Word, i: Word, w: Word)
    requires Disjoint(tuple, 8, Wrap(LoadLE(mem, tuple, 8) + 8 * i), 8)
    ensures PureEval(TupleIndex(Num(tuple), i), NO_NAMES, StoreLE(mem, Wrap(LoadLE(mem, tuple, 8) + 8 * i), w, 8)) == Ok(w)
  {
    hide LoadLE, StoreLE, Wrap, Disjoint;
    var at := Wrap(LoadLE(mem, tuple, 8) + 8 * i);
    StoreBeside(mem, at, w, 8, tuple, 8);
    StoreLoad(mem, at, w, 8);
  }
}
