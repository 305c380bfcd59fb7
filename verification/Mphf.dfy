/** The minimal perfect hash: its randomised build search, its lookup, and why the lookup is a bijection. */
module Mphf {
  import opened Words
  import opened Lake
  import opened FiniteSets

  // ---------- Hashing ----------

  function XorShift33(h: Word): Word {
    Bits64(BXor, h, ShiftRight(h, 33))
  }

  /** The mixing hash; builder, table and emitted code all use it. */
  function Hash(key: Word, seed: Word): Word {
    var h := XorShift33(Wrap(key + seed));
    var h1 := XorShift33(Wrap(h * 0xff51_afd7_ed55_8ccd));
    XorShift33(Wrap(h1 * 0xc4ce_b9fe_1a85_ec53))
  }

  /** FNV-1a over bytes. */
  function FxHash(data: seq<Byte>): Word {
    if data == [] then 0xcbf2_9ce4_8422_2325
    else Wrap(Bits64(BXor, FxHash(data[..|data| - 1]), data[|data| - 1]) * 0x100_0000_01b3)
  }

  /** The accumulating loop, as the builder and the emitted code run it. */
  method FxHashLoop(data: seq<Byte>) returns (hash: Word)
    ensures hash == FxHash(data)
  {
    hide Bits64, Wrap;
    hash := 0xcbf2_9ce4_8422_2325;
    var i := 0;
    while i < |data|
      invariant 0 <= i <= |data| && hash == FxHash(data[..i])
    {
      assert data[..i + 1][..i] == data[..i];
      hash := Wrap(Bits64(BXor, hash, data[i]) * 0x100_0000_01b3);
      i := i + 1;
    }
    assert data[..|data|] == data;
  }

  // ---------- Lookup ----------

  datatype Table = Table(seed: Word, displacements: seq<nat>, total: nat)

  function BucketOf(key: Word, seed: Word, buckets: nat): (b: nat)
    requires buckets > 0
    ensures b < buckets
  {
    Hash(key, seed) % buckets
  }

  /** Where a displacement sends a key. */
  function Slot(key: Word, seed: Word, displacement: nat, total: nat): (s: nat)
    requires total > 0
    ensures s < total
  {
    Wrap(Hash(key, seed) + displacement) % total
  }

  function Lookup(t: Table, key: Word): nat
    requires t.displacements != [] && t.total > 0
  {
    Slot(key, t.seed, t.displacements[BucketOf(key, t.seed, |t.displacements|)], t.total)
  }

  /** Every key has its own slot and every slot its key. */
  ghost predicate Perfect(t: Table, keys: seq<Word>) {
    && t.displacements != [] && t.total == |keys| > 0
    && (forall k: Word :: Lookup(t, k) < t.total)
    && (forall i, j :: 0 <= i < j < |keys| ==> Lookup(t, keys[i]) != Lookup(t, keys[j]))
    && (forall s: nat :: s < |keys| ==> Filled(t, keys, s))
  }

  predicate Filled(t: Table, keys: seq<Word>, s: nat)
    requires t.displacements != [] && t.total > 0
  {
    exists i :: 0 <= i < |keys| && Lookup(t, keys[i]) == s
  }

  // ---------- Buckets ----------

  /** The keys of one bucket, in key order. */
  function BucketKeys(keys: seq<Word>, seed: Word, buckets: nat, b: nat): seq<Word>
    requires buckets > 0
  {
    if keys == [] then []
    else
      var rest := BucketKeys(keys[..|keys| - 1], seed, buckets, b);
      var last := keys[|keys| - 1];
      if BucketOf(last, seed, buckets) == b then rest + [last] else rest
  }

  lemma {:induction false} InBucket(keys: seq<Word>, seed: Word, buckets: nat, b: nat, k: Word)
    requires buckets > 0
    ensures k in BucketKeys(keys, seed, buckets, b) <==> k in keys && BucketOf(k, seed, buckets) == b
    decreases keys
  {
    hide BucketOf;
    if keys != [] {
      InBucket(keys[..|keys| - 1], seed, buckets, b, k);
      assert keys == keys[..|keys| - 1] + [keys[|keys| - 1]];
    }
  }

  /** Repeated keys share a bucket, so buckets without repetition mean keys without repetition. */
  lemma {:induction false} DistinctBuckets(keys: seq<Word>, seed: Word, buckets: nat)
    requires buckets > 0
    requires forall b: nat :: b < buckets ==> NoDup(BucketKeys(keys, seed, buckets, b))
    ensures NoDup(keys)
    decreases keys
  {
    hide BucketOf;
    if keys != [] {
      var n := |keys| - 1;
      var last := keys[n];
      forall b: nat | b < buckets ensures NoDup(BucketKeys(keys[..n], seed, buckets, b)) {
        assert NoDup(BucketKeys(keys, seed, buckets, b));
        if BucketOf(last, seed, buckets) == b {
          var rest := BucketKeys(keys[..n], seed, buckets, b);
          assert forall i :: 0 <= i < |rest| ==> (rest + [last])[i] == rest[i];
        }
      }
      DistinctBuckets(keys[..n], seed, buckets);
      LastIsNew(keys, seed, buckets);
    }
  }

  lemma LastIsNew(keys: seq<Word>, seed: Word, buckets: nat)
    requires buckets > 0 && keys != []
    requires NoDup(BucketKeys(keys, seed, buckets, BucketOf(keys[|keys| - 1], seed, buckets)))
    ensures keys[|keys| - 1] !in keys[..|keys| - 1]
  {
    hide BucketOf;
    var n := |keys| - 1;
    var last := keys[n];
    var b := BucketOf(last, seed, buckets);
    var rest := BucketKeys(keys[..n], seed, buckets, b);
    InBucket(keys[..n], seed, buckets, b, last);
    var all := rest + [last];
    assert NoDup(all) && all[|rest|] == last;
    assert forall i :: 0 <= i < |rest| ==> all[i] == rest[i];
  }

  // ---------- Bucket order ----------

  /** Insert after every bucket at least as big: a stable sort, largest first. */
  function InsertBySize(order: seq<nat>, sizes: seq<nat>, b: nat): (r: seq<nat>)
    requires b < |sizes| && forall i :: 0 <= i < |order| ==> order[i] < |sizes|
    ensures forall i :: 0 <= i < |r| ==> r[i] < |sizes|
  {
    if order == [] || sizes[order[|order| - 1]] >= sizes[b] then order + [b]
    else InsertBySize(order[..|order| - 1], sizes, b) + [order[|order| - 1]]
  }

  lemma {:induction false} InsertMembers(order: seq<nat>, sizes: seq<nat>, b: nat)
    requires b < |sizes| && forall i :: 0 <= i < |order| ==> order[i] < |sizes|
    ensures forall x :: x in InsertBySize(order, sizes, b) <==> x in order || x == b
    decreases order
  {
    if order != [] && sizes[order[|order| - 1]] < sizes[b] {
      InsertMembers(order[..|order| - 1], sizes, b);
      assert order == order[..|order| - 1] + [order[|order| - 1]];
    }
  }

  /** The first `n` buckets in that order. */
  function SortedBuckets(sizes: seq<nat>, n: nat): (r: seq<nat>)
    requires n <= |sizes|
    ensures forall i :: 0 <= i < |r| ==> r[i] < |sizes|
  {
    if n == 0 then [] else InsertBySize(SortedBuckets(sizes, n - 1), sizes, n - 1)
  }

  lemma {:induction false} SortedMembers(sizes: seq<nat>, n: nat)
    requires n <= |sizes|
    ensures forall b: nat :: b in SortedBuckets(sizes, n) <==> b < n
  {
    if n > 0 {
      SortedMembers(sizes, n - 1);
      InsertMembers(SortedBuckets(sizes, n - 1), sizes, n - 1);
    }
  }

  /** Bigger buckets in front, equal ones by number. */
  predicate LargestFirst(order: seq<nat>, sizes: seq<nat>)
    requires forall i :: 0 <= i < |order| ==> order[i] < |sizes|
  {
    forall i, j :: 0 <= i < j < |order| ==>
      sizes[order[i]] > sizes[order[j]] || (sizes[order[i]] == sizes[order[j]] && order[i] < order[j])
  }

  lemma {:induction false} InsertKeepsOrder(order: seq<nat>, sizes: seq<nat>, b: nat)
    requires b < |sizes| && forall i :: 0 <= i < |order| ==> order[i] < b
    requires LargestFirst(order, sizes)
    ensures LargestFirst(InsertBySize(order, sizes, b), sizes)
    ensures |InsertBySize(order, sizes, b)| == |order| + 1
    decreases order
  {
    if order != [] {
      var n := |order| - 1;
      if sizes[order[n]] < sizes[b] {
        InsertKeepsOrder(order[..n], sizes, b);
        var r := InsertBySize(order[..n], sizes, b);
        InsertMembers(order[..n], sizes, b);
        forall i | 0 <= i < |r|
          ensures sizes[r[i]] > sizes[order[n]] || (sizes[r[i]] == sizes[order[n]] && r[i] < order[n])
        {
          assert r[i] in r;
        }
      }
    }
  }

  lemma {:induction false} SortedOrder(sizes: seq<nat>, n: nat)
    requires n <= |sizes|
    ensures |SortedBuckets(sizes, n)| == n && LargestFirst(SortedBuckets(sizes, n), sizes)
  {
    if n > 0 {
      SortedOrder(sizes, n - 1);
      SortedMembers(sizes, n - 1);
      var order := SortedBuckets(sizes, n - 1);
      forall i | 0 <= i < |order| ensures order[i] < n - 1 {
        assert order[i] in order;
      }
      InsertKeepsOrder(order, sizes, n - 1);
    }
  }

  /** The buckets by size, the largest first: each once, equal ones in the order of their numbers. */
  method BucketOrder(sizes: seq<nat>) returns (order: seq<nat>)
    ensures order == SortedBuckets(sizes, |sizes|)
    ensures |order| == |sizes| && (forall b: nat :: b in order <==> b < |sizes|) && LargestFirst(order, sizes)
  {
    order := [];
    var b := 0;
    while b < |sizes|
      invariant b <= |sizes|
      invariant order == SortedBuckets(sizes, b)
    {
      order := InsertBySize(order, sizes, b);
      b := b + 1;
    }
    SortedMembers(sizes, |sizes|);
    SortedOrder(sizes, |sizes|);
  }

  // ---------- The search ----------

  /** Two keys of the bucket collide under a displacement, or one hits a slot already used. */
  predicate Conflict(bucket: seq<Word>, used: set<int>, seed: Word, displacement: nat, total: nat)
    requires total > 0
  {
    || (exists i :: 0 <= i < |bucket| && Slot(bucket[i], seed, displacement, total) in used)
    || (exists i, j :: 0 <= i < j < |bucket| &&
          Slot(bucket[i], seed, displacement, total) == Slot(bucket[j], seed, displacement, total))
  }

  /** The slots of a bucket's keys, or nothing exactly when there is a conflict. */
  method TryDisplacement(bucket: seq<Word>, used: set<int>, seed: Word, displacement: nat, total: nat)
    returns (slots: Option<seq<int>>)
    requires total > 0
    ensures slots.None? <==> Conflict(bucket, used, seed, displacement, total)
    ensures slots.Some? ==> |slots.value| == |bucket|
    ensures slots.Some? ==> forall i :: 0 <= i < |bucket| ==> slots.value[i] == Slot(bucket[i], seed, displacement, total)
  {
    hide Slot;
    var chosen: seq<int> := [];
    var i := 0;
    while i < |bucket|
      invariant 0 <= i <= |bucket| && |chosen| == i
      invariant forall j :: 0 <= j < i ==> chosen[j] == Slot(bucket[j], seed, displacement, total)
      invariant forall j :: 0 <= j < i ==> chosen[j] !in used
      invariant forall j, k :: 0 <= j < k < i ==> chosen[j] != chosen[k]
    {
      var slot := Slot(bucket[i], seed, displacement, total);
      if slot in used || slot in chosen {
        return None;
      }
      chosen := chosen + [slot];
      i := i + 1;
    }
    slots := Some(chosen);
  }

  /** Displacements are stored in 32 bits. */
  function Narrow(displacement: nat): nat {
    displacement % TWO_32
  }

  function SlotIn(key: Word, seed: Word, displacements: seq<nat>, total: nat): int
    requires displacements != [] && total > 0
  {
    Slot(key, seed, displacements[BucketOf(key, seed, |displacements|)], total)
  }

  /** The buckets in `done` are settled: their keys hold used slots, all different. */
  ghost predicate Settled(keys: seq<Word>, seed: Word, displacements: seq<nat>, total: nat, done: set<nat>, used: set<int>)
    requires displacements != [] && total > 0
  {
    && (forall x :: x in keys && BucketOf(x, seed, |displacements|) in done ==>
          SlotIn(x, seed, displacements, total) in used)
    && (forall x, y ::
          (x in keys && y in keys && x != y && BucketOf(x, seed, |displacements|) in done &&
           BucketOf(y, seed, |displacements|) in done) ==>
          SlotIn(x, seed, displacements, total) != SlotIn(y, seed, displacements, total))
    && (forall b :: b in done ==> NoDup(BucketKeys(keys, seed, |displacements|, b)))
  }

  /** One bucket more. */
  lemma SettleBucket(keys: seq<Word>, seed: Word, displacements: seq<nat>, total: nat, done: set<nat>, used: set<int>,
      b: nat, displacement: nat)
    requires displacements != [] && total > 0 && b < |displacements|
    requires Settled(keys, seed, displacements, total, done, used)
    requires !Conflict(BucketKeys(keys, seed, |displacements|, b), used, seed, displacement, total)
    ensures var bucket := BucketKeys(keys, seed, |displacements|, b);
      Settled(keys, seed, displacements[b := displacement], total, done + {b}, used + SlotsOf(bucket, seed, displacement, total))
  {
    hide Slot, BucketOf;
    var bucket := BucketKeys(keys, seed, |displacements|, b);
    var slots := SlotsOf(bucket, seed, displacement, total);
    var after := displacements[b := displacement];
    forall x | x in keys
      ensures BucketOf(x, seed, |after|) == b ==>
        SlotIn(x, seed, after, total) in slots && SlotIn(x, seed, after, total) !in used && x in bucket
      ensures BucketOf(x, seed, |after|) != b ==> SlotIn(x, seed, after, total) == SlotIn(x, seed, displacements, total)
    {
      InBucket(keys, seed, |displacements|, b, x);
      if BucketOf(x, seed, |after|) == b {
        var i :| 0 <= i < |bucket| && bucket[i] == x;
        assert Slot(bucket[i], seed, displacement, total) as int in slots;
      }
    }
    forall x, y | x in bucket && y in bucket && x != y
      ensures Slot(x, seed, displacement, total) != Slot(y, seed, displacement, total)
    {
      var i :| 0 <= i < |bucket| && bucket[i] == x;
      var j :| 0 <= j < |bucket| && bucket[j] == y;
    }
    assert NoDup(bucket);
  }

  lemma SettleEmpty(keys: seq<Word>, seed: Word, displacements: seq<nat>, total: nat, done: set<nat>, used: set<int>,
      b: nat)
    requires displacements != [] && total > 0 && b < |displacements|
    requires Settled(keys, seed, displacements, total, done, used)
    requires BucketKeys(keys, seed, |displacements|, b) == []
    ensures Settled(keys, seed, displacements, total, done + {b}, used)
  {
    hide Slot, BucketOf;
    forall x | x in keys ensures BucketOf(x, seed, |displacements|) != b {
      InBucket(keys, seed, |displacements|, b, x);
    }
  }

  /** All buckets settled: a perfect hash. */
  lemma AllSettled(keys: seq<Word>, seed: Word, displacements: seq<nat>, done: set<nat>, used: set<int>)
    requires displacements != [] && keys != []
    requires Settled(keys, seed, displacements, |keys|, done, used)
    requires forall b: nat :: b < |displacements| ==> b in done
    ensures NoDup(keys) && Perfect(Table(seed, displacements, |keys|), keys)
  {
    hide Slot, BucketOf;
    var t := Table(seed, displacements, |keys|);
    DistinctBuckets(keys, seed, |displacements|);
    forall i, j | 0 <= i < j < |keys| ensures Lookup(t, keys[i]) != Lookup(t, keys[j]) {
      assert SlotIn(keys[i], seed, displacements, |keys|) != SlotIn(keys[j], seed, displacements, |keys|);
    }
    var slots: seq<int> := seq(|keys|, i requires 0 <= i < |keys| => Lookup(t, keys[i]));
    forall s: nat | s < |keys| ensures Filled(t, keys, s) {
      Pigeonhole(slots, s);
      var i :| 0 <= i < |slots| && slots[i] == s;
      assert Lookup(t, keys[i]) == s;
    }
  }

  // ---------- One attempt, as a function ----------

  /** The least displacement from `d` on, below 500 n, that causes no conflict. */
  function Least(bucket: seq<Word>, used: set<int>, seed: Word, n: nat, d: nat): Option<nat>
    requires n > 0
    decreases n * 500 - d
  {
    if d >= n * 500 then None
    else if !Conflict(bucket, used, seed, d, n) then Some(d)
    else Least(bucket, used, seed, n, d + 1)
  }

  lemma {:induction false} LeastIs(bucket: seq<Word>, used: set<int>, seed: Word, n: nat, d: nat)
    requires n > 0
    ensures match Least(bucket, used, seed, n, d)
      case Some(e) =>
        && d <= e < n * 500 && !Conflict(bucket, used, seed, e, n)
        && forall c: nat :: d <= c < e ==> Conflict(bucket, used, seed, c, n)
      case None => forall c: nat :: d <= c < n * 500 ==> Conflict(bucket, used, seed, c, n)
    decreases n * 500 - d
  {
    hide Conflict;
    if d < n * 500 {
      LeastIs(bucket, used, seed, n, d + 1);
    }
  }

  function SlotsOf(bucket: seq<Word>, seed: Word, displacement: nat, n: nat): set<int>
    requires n > 0
  {
    set i | 0 <= i < |bucket| :: Slot(bucket[i], seed, displacement, n) as int
  }

  /** Buckets order[k], order[k + 1], ... each at its least displacement beside those before it; None if one has none. */
  function Place(keys: seq<Word>, seed: Word, order: seq<nat>, k: nat, displacements: seq<nat>, used: set<int>)
    : (r: Option<seq<nat>>)
    requires keys != [] && displacements != [] && k <= |order|
    requires forall i :: 0 <= i < |order| ==> order[i] < |displacements|
    ensures r.Some? ==> |r.value| == |displacements|
    decreases |order| - k
  {
    if k == |order| then Some(displacements)
    else
      var b := order[k];
      var bucket := BucketKeys(keys, seed, |displacements|, b);
      if bucket == [] then Place(keys, seed, order, k + 1, displacements, used)
      else match Least(bucket, used, seed, |keys|, 0)
        case None => None
        case Some(d) =>
          Place(keys, seed, order, k + 1, displacements[b := d], used + SlotsOf(bucket, seed, d, |keys|))
  }

  function Sizes(keys: seq<Word>, seed: Word, buckets: nat): seq<nat>
    requires buckets > 0
  {
    seq(buckets, b requires 0 <= b < buckets => |BucketKeys(keys, seed, buckets, b)|)
  }

  /** What one seed and number of buckets give: largest bucket first, each placed greedily. */
  function Attempt(keys: seq<Word>, seed: Word, buckets: nat): Option<Table>
    requires keys != [] && buckets > 0
  {
    var order := SortedBuckets(Sizes(keys, seed, buckets), buckets);
    match Place(keys, seed, order, 0, seq(buckets, _ => 0), {})
    case None => None
    case Some(displacements) => Some(Table(seed, displacements, |keys|))
  }

  /** Placing the remaining buckets beside settled ones settles them all. */
  lemma {:induction false} PlacedPerfect(keys: seq<Word>, seed: Word, order: seq<nat>, k: nat, displacements: seq<nat>,
      used: set<int>, done: set<nat>)
    requires keys != [] && displacements != [] && k <= |order|
    requires forall i :: 0 <= i < |order| ==> order[i] < |displacements|
    requires forall b: nat :: b < |displacements| ==> b in order
    requires Settled(keys, seed, displacements, |keys|, done, used)
    requires forall j :: 0 <= j < k ==> order[j] in done
    ensures var r := Place(keys, seed, order, k, displacements, used);
      r.Some? ==> NoDup(keys) && Perfect(Table(seed, r.value, |keys|), keys)
    decreases |order| - k
  {
    hide Slot, BucketOf, Conflict, Settled, Perfect, Least, BucketKeys;
    if k == |order| {
      forall b: nat | b < |displacements| ensures b in done {
        assert b in order;
        var j :| 0 <= j < |order| && order[j] == b;
      }
      AllSettled(keys, seed, displacements, done, used);
    } else {
      var b := order[k];
      var bucket := BucketKeys(keys, seed, |displacements|, b);
      if bucket == [] {
        SettleEmpty(keys, seed, displacements, |keys|, done, used, b);
        PlacedPerfect(keys, seed, order, k + 1, displacements, used, done + {b});
      } else {
        match Least(bucket, used, seed, |keys|, 0)
        case None =>
        case Some(d) =>
          LeastIs(bucket, used, seed, |keys|, 0);
          SettleBucket(keys, seed, displacements, |keys|, done, used, b, d);
          PlacedPerfect(keys, seed, order, k + 1, displacements[b := d], used + SlotsOf(bucket, seed, d, |keys|), done + {b});
      }
    }
  }

  lemma NothingSettled(keys: seq<Word>, seed: Word, displacements: seq<nat>)
    requires keys != [] && displacements != []
    ensures Settled(keys, seed, displacements, |keys|, {}, {})
  {
  }

  /** Whatever the seed and the number of buckets, a table found is perfect, and the keys were distinct. */
  lemma AttemptPerfect(keys: seq<Word>, seed: Word, buckets: nat)
    requires keys != [] && buckets > 0
    ensures var t := Attempt(keys, seed, buckets);
      t.Some? ==>
        NoDup(keys) && Perfect(t.value, keys) && t.value.seed == seed && |t.value.displacements| == buckets
  {
    hide Slot, BucketOf, Conflict, Settled, Perfect, Least, BucketKeys, Place, SortedBuckets;
    var sizes := Sizes(keys, seed, buckets);
    SortedMembers(sizes, buckets);
    var zeros: seq<nat> := seq(buckets, _ => 0);
    NothingSettled(keys, seed, zeros);
    PlacedPerfect(keys, seed, SortedBuckets(sizes, buckets), 0, zeros, {}, {});
  }

  /** One attempt of the search, with its groups, its set of used slots and its search loop. */
  method TryBuild(keys: seq<Word>, seed: Word, buckets: nat) returns (t: Option<Table>)
    requires keys != [] && buckets > 0 && |keys| * 500 <= TWO_32
    ensures t == Attempt(keys, seed, buckets)
    ensures t.Some? ==> NoDup(keys) && Perfect(t.value, keys)
  {
    hide Slot, BucketOf, Conflict, Perfect, SortedBuckets, BucketKeys, Least;
    AttemptPerfect(keys, seed, buckets);
    var n := |keys|;
    var groups := Group(keys, seed, buckets);
    var sizes := seq(buckets, b requires 0 <= b < buckets => |groups[b]|);
    assert sizes == Sizes(keys, seed, buckets);
    var order := BucketOrder(sizes);
    var used: set<int> := {};
    var displacements: seq<nat> := seq(buckets, _ => 0);
    ghost var start := displacements;
    var k := 0;
    while k < |order|
      invariant 0 <= k <= |order| && |displacements| == buckets
      invariant Place(keys, seed, order, k, displacements, used) == Place(keys, seed, order, 0, start, {})
    {
      var b := order[k];
      var bucket := groups[b];
      if bucket != [] {
        var found := SearchDisplacement(bucket, used, seed, n);
        if found.None? {
          return None;
        }
        LeastIs(bucket, used, seed, n, 0);
        Unnarrowed(found.value, n);
        used := used + SlotsOf(bucket, seed, found.value, n);
        displacements := displacements[b := Narrow(found.value)];
      }
      k := k + 1;
    }
    t := Some(Table(seed, displacements, n));
  }

  lemma Unnarrowed(displacement: nat, n: nat)
    requires displacement < n * 500 <= TWO_32
    ensures Narrow(displacement) == displacement
  {
  }

  /** Keys into buckets, one after another. */
  method Group(keys: seq<Word>, seed: Word, buckets: nat) returns (groups: seq<seq<Word>>)
    requires buckets > 0
    ensures |groups| == buckets && forall b :: 0 <= b < buckets ==> groups[b] == BucketKeys(keys, seed, buckets, b)
  {
    hide BucketOf;
    groups := seq(buckets, _ => []);
    var i := 0;
    while i < |keys|
      invariant 0 <= i <= |keys| && |groups| == buckets
      invariant forall b :: 0 <= b < buckets ==> groups[b] == BucketKeys(keys[..i], seed, buckets, b)
    {
      var b := BucketOf(keys[i], seed, buckets);
      groups := groups[b := groups[b] + [keys[i]]];
      assert keys[..i + 1][..i] == keys[..i];
      i := i + 1;
    }
    assert keys[..|keys|] == keys;
  }

  /** The first displacement below n * 500 without a conflict. */
  method SearchDisplacement(bucket: seq<Word>, used: set<int>, seed: Word, n: nat) returns (found: Option<nat>)
    requires n > 0
    ensures found == Least(bucket, used, seed, n, 0)
  {
    hide Slot, Conflict;
    var displacement := 0;
    while displacement < n * 500
      invariant displacement <= n * 500
      invariant Least(bucket, used, seed, n, displacement) == Least(bucket, used, seed, n, 0)
    {
      var slots := TryDisplacement(bucket, used, seed, displacement, n);
      if slots.Some? {
        return Some(displacement);
      }
      displacement := displacement + 1;
    }
    found := None;
  }

  // ---------- The four strategies ----------

  predicate AllFail(keys: seq<Word>, buckets: nat, limit: nat)
    requires keys != [] && buckets > 0 && limit <= 10000
  {
    forall seed: nat :: seed < limit ==> Attempt(keys, seed, buckets).None?
  }

  /** The table of the first seed that has one. */
  ghost predicate FromFirstSeed(t: Table, keys: seq<Word>, buckets: nat, seeds: nat)
    requires keys != [] && buckets > 0 && seeds <= 10000
  {
    exists seed: nat :: seed < seeds && Attempt(keys, seed, buckets) == Some(t)
      && forall s: nat :: s < seed ==> Attempt(keys, s, buckets).None?
  }

  /** Seeds 0 .. limit at a fixed number of buckets: the first that works. */
  method TrySeeds(keys: seq<Word>, buckets: nat, limit: nat) returns (t: Option<Table>)
    requires keys != [] && buckets > 0 && |keys| * 500 <= TWO_32 && limit <= 10000
    ensures t.None? <==> AllFail(keys, buckets, limit)
    ensures t.Some? ==> NoDup(keys) && Perfect(t.value, keys) && FromFirstSeed(t.value, keys, buckets, limit)
  {
    hide Perfect, Attempt;
    var seed := 0;
    t := None;
    while seed < limit && t.None?
      invariant 0 <= seed <= limit
      invariant t.None? <==> AllFail(keys, buckets, seed)
      invariant t.Some? ==> NoDup(keys) && Perfect(t.value, keys) && FromFirstSeed(t.value, keys, buckets, limit)
    {
      t := TryBuild(keys, seed, buckets);
      if t.Some? {
        assert Attempt(keys, seed, buckets) == Some(t.value);
      }
      seed := seed + 1;
    }
  }

  /** One bucket for every `k` keys, one at least. */
  function Share(n: nat, k: nat): (b: nat)
    requires k > 0
    ensures b > 0 && (n >= k ==> b * k <= n < b * k + k) && (n < k ==> b == 1)
  {
    if n / k > 1 then n / k else 1
  }

  /** All four strategies fail with every one of their seeds. */
  predicate NoTable(keys: seq<Word>)
    requires keys != []
  {
    && AllFail(keys, Share(|keys|, 4), 3000) && AllFail(keys, Share(|keys|, 3), 3000)
    && AllFail(keys, Share(|keys|, 2), 5000) && AllFail(keys, |keys|, 10000)
  }

  /** Repeated keys leave every attempt without a table. */
  lemma RepeatedKeys(keys: seq<Word>)
    requires keys != [] && !NoDup(keys)
    ensures NoTable(keys)
  {
    hide Attempt, Perfect;
    forall seed: nat, buckets: nat | seed < 10000 && buckets > 0 ensures Attempt(keys, seed, buckets).None? {
      AttemptPerfect(keys, seed, buckets);
    }
  }

  /**
   * A perfect hash for the keys, or nothing exactly when every strategy fails with every seed. The strategy with the
   * fewest buckets that has a table wins, and in it the first seed.
   */
  method Build(keys: seq<Word>) returns (t: Option<Table>)
    requires keys != [] && |keys| * 500 <= TWO_32
    ensures t.None? <==> NoTable(keys)
    ensures t.Some? ==> NoDup(keys) && Perfect(t.value, keys)
    ensures t.Some? ==>
      var n := |keys|;
      if !AllFail(keys, Share(n, 4), 3000) then FromFirstSeed(t.value, keys, Share(n, 4), 3000)
      else if !AllFail(keys, Share(n, 3), 3000) then FromFirstSeed(t.value, keys, Share(n, 3), 3000)
      else if !AllFail(keys, Share(n, 2), 5000) then FromFirstSeed(t.value, keys, Share(n, 2), 5000)
      else FromFirstSeed(t.value, keys, n, 10000)
  {
    hide Perfect, AllFail, FromFirstSeed;
    var n := |keys|;
    t := TrySeeds(keys, Share(n, 4), 3000);
    if t.None? {
      t := TrySeeds(keys, Share(n, 3), 3000);
    }
    if t.None? {
      t := TrySeeds(keys, Share(n, 2), 5000);
    }
    if t.None? {
      t := TrySeeds(keys, n, 10000);
    }
  }
}
