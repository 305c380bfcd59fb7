/** What the word operators compute, stated without their definitions: order, ring, truncated division, bits, shifts. */
module WordLaws {
  import opened Words
  import SlabLayout

  function Result(op: BinOp, a: Word, b: Word): Word {
    match ApplyBin(op, a, b) case Value(w) => w case Fault => 0
  }

  // ---------- Order ----------

  /** A comparison answers 0 or 1; of less, equal and greater exactly one holds; the two weak ones follow. */
  lemma Trichotomy(a: Word, b: Word)
    ensures forall op :: op in {Lt, Gt, Le, Ge, Eq} ==> ApplyBin(op, a, b) in {Value(0), Value(1)}
    ensures Result(Lt, a, b) + Result(Eq, a, b) + Result(Gt, a, b) == 1
    ensures Result(Eq, a, b) == 1 <==> a == b
    ensures Result(Gt, a, b) == Result(Lt, b, a)
    ensures Result(Le, a, b) == Result(Lt, a, b) + Result(Eq, a, b)
    ensures Result(Ge, a, b) == Result(Gt, a, b) + Result(Eq, a, b)
  {
  }

  /** Every word but the largest i64 is less than the next one, and less is transitive: the order is that of i64. */
  lemma SignedOrder(a: Word, b: Word, c: Word)
    ensures Result(Lt, a, Result(Add, a, 1)) == 1 <==> a != TWO_63 - 1
    ensures Result(Lt, a, b) == 1 && Result(Lt, b, c) == 1 ==> Result(Lt, a, c) == 1
    ensures b < TWO_63 <= a ==> Result(Lt, a, b) == 1
  {
  }

  // ---------- Ring ----------

  ghost predicate Congruent(m: int, n: int) {
    exists k: int :: m == n + Times(k)
  }

  function Times(k: int): int {
    k * TWO_64
  }

  lemma Multiple(m: int, n: int, k: int)
    requires m == n + k * TWO_64
    ensures Congruent(m, n)
  {
    assert m == n + Times(k);
  }

  lemma WrapCongruent(n: int)
    ensures Congruent(Signed(Wrap(n)), n)
  {
    assert n == (n / TWO_64) * TWO_64 + n % TWO_64;
    Multiple(Signed(Wrap(n)), n, if Wrap(n) < TWO_63 then -(n / TWO_64) else -(n / TWO_64) - 1);
  }

  /** The result, read as i64, is the signed sum, difference or product modulo 2^64. */
  lemma RingLaws(a: Word, b: Word)
    ensures Congruent(Signed(Result(Add, a, b)), Signed(a) + Signed(b))
    ensures Congruent(Signed(Result(Sub, a, b)), Signed(a) - Signed(b))
    ensures Congruent(Signed(Result(Mul, a, b)), Signed(a) * Signed(b))
    ensures Congruent(Signed(Negate(a)), -Signed(a))
  {
    hide Congruent, Wrap, Signed;
    WrapCongruent(a + b);
    WrapCongruent(a - b);
    WrapCongruent(a * b);
    WrapCongruent(0 - a);
    var i := Lift(a);
    var j := Lift(b);
    Shifted(Signed(Wrap(a + b)), a + b, Signed(a) + Signed(b), i + j);
    Shifted(Signed(Wrap(a - b)), a - b, Signed(a) - Signed(b), i - j);
    Shifted(Signed(Wrap(0 - a)), 0 - a, -Signed(a), -i);
    Expand(Signed(a), Signed(b), i, j);
    Shifted(Signed(Wrap(a * b)), a * b, Signed(a) * Signed(b), i * Signed(b) + j * Signed(a) + i * j * TWO_64);
  }

  lemma Lift(a: Word) returns (i: int)
    ensures a == Signed(a) + i * TWO_64
  {
    i := if a < TWO_63 then 0 else 1;
  }

  lemma Expand(x: int, y: int, i: int, j: int)
    ensures (x + i * TWO_64) * (y + j * TWO_64) == x * y + (i * y + j * x + i * j * TWO_64) * TWO_64
  {
    var p, q := i * TWO_64, j * TWO_64;
    assert (x + p) * (y + q) == x * y + x * q + p * y + p * q;
    assert x * q == (j * x) * TWO_64;
    assert p * y == (i * y) * TWO_64;
    assert p * q == (i * j * TWO_64) * TWO_64;
  }

  lemma Shifted(r: int, m: int, n: int, k: int)
    requires Congruent(r, m) && m == n + k * TWO_64
    ensures Congruent(r, n)
  {
    var j :| r == m + Times(j);
    Multiple(r, n, j + k);
  }

  // ---------- Division ----------

  /** Division traps by zero and on the one quotient that does not fit; else the remainder has the dividend's sign. */
  lemma Truncated(a: Word, b: Word)
    ensures ApplyBin(Div, a, b).Fault? <==> b == 0 || (Signed(a) == -TWO_63 && Signed(b) == -1)
    ensures ApplyBin(Div, a, b).Value? ==>
      var r := Signed(a) - Signed(b) * Signed(Result(Div, a, b));
      && -Abs(Signed(b)) < r < Abs(Signed(b))
      && (Signed(a) >= 0 ==> r >= 0) && (Signed(a) <= 0 ==> r <= 0)
  {
    if ApplyBin(Div, a, b).Value? {
      hide Wrap;
      var x, y := Signed(a), Signed(b);
      var q, t := Abs(x) / Abs(y), TruncDiv(x, y);
      Quotient(Abs(x), Abs(y), q);
      Fits(x, y, q);
      assert t == if (x < 0) != (y < 0) then -q else q;
      Reads(t);
      Signs(x, y, q, t);
    }
  }

  function Abs(n: int): (m: int)
    ensures m >= 0 && (n != 0 ==> m > 0)
  {
    if n < 0 then -n else n
  }

  lemma Reads(t: int)
    requires -TWO_63 <= t < TWO_63
    ensures Signed(Wrap(t)) == t
  {
  }

  lemma Quotient(x: int, y: int, q: int)
    requires x >= 0 && y > 0 && q == x / y
    ensures Prod(y, q) <= x < Prod(y, q) + y && 0 <= q <= x
  {
    var r := x % y;
    assert x == q * y + r;
    AtLeast(q, y);
  }

  lemma AtLeast(q: int, y: int)
    requires q >= 0 && y >= 1
    ensures q * y >= q
  {
  }

  function Prod(x: int, y: int): int {
    x * y
  }

  lemma Fits(x: int, y: int, q: int)
    requires -TWO_63 <= x < TWO_63 && -TWO_63 <= y < TWO_63 && y != 0 && !(x == -TWO_63 && y == -1)
    requires Prod(Abs(y), q) <= Abs(x) && 0 <= q <= Abs(x)
    ensures (x < 0) == (y < 0) ==> q < TWO_63
    ensures q <= TWO_63
  {
    if x == -TWO_63 && y < 0 {
      assert Abs(y) >= 2;
      assert 2 * q <= Abs(y) * q;
    }
  }

  lemma Signs(x: int, y: int, q: int, t: int)
    requires y != 0 && Prod(Abs(y), q) <= Abs(x) < Prod(Abs(y), q) + Abs(y)
    requires t == if (x < 0) != (y < 0) then -q else q
    ensures var r := x - y * t;
      -Abs(y) < r < Abs(y) && (x >= 0 ==> r >= 0) && (x <= 0 ==> r <= 0)
  {
    assert y * t == if x < 0 then -(Abs(y) * q) else Abs(y) * q;
  }

  // ---------- Bits ----------

  function Bit(n: nat, k: nat): bool
    decreases k
  {
    if k == 0 then n % 2 == 1 else Bit(n / 2, k - 1)
  }

  /** Each bit below 64 is the operation on the operands' bits. */
  lemma BitLaws(a: Word, b: Word, k: nat)
    requires k < 64
    ensures Bit(Result(BAnd, a, b), k) <==> Bit(a, k) && Bit(b, k)
    ensures Bit(Result(BOr, a, b), k) <==> Bit(a, k) || Bit(b, k)
    ensures Bit(Result(BXor, a, b), k) <==> Bit(a, k) != Bit(b, k)
  {
    hide Bitwise, Bit;
    BitwiseBit(BAnd, a, b, 64, k);
    BitwiseBit(BOr, a, b, 64, k);
    BitwiseBit(BXor, a, b, 64, k);
  }

  lemma {:induction false} BitwiseBit(op: BinOp, a: nat, b: nat, n: nat, k: nat)
    requires k < n
    ensures Bit(Bitwise(op, a, b, n), k) ==
      if op.BAnd? then Bit(a, k) && Bit(b, k) else if op.BOr? then Bit(a, k) || Bit(b, k) else Bit(a, k) != Bit(b, k)
    decreases k
  {
    if k > 0 {
      BitwiseBit(op, a / 2, b / 2, n - 1, k - 1);
    }
  }

  /** A word is its 64 bits. */
  lemma {:induction false} SameBits(m: nat, n: nat, size: nat)
    requires m < Pow2(size) && n < Pow2(size) && forall k :: 0 <= k < size ==> Bit(m, k) == Bit(n, k)
    ensures m == n
    decreases size
  {
    if size > 0 {
      forall k | 0 <= k < size - 1 ensures Bit(m / 2, k) == Bit(n / 2, k) {
        assert Bit(m, k + 1) == Bit(n, k + 1);
      }
      SameBits(m / 2, n / 2, size - 1);
      assert Bit(m, 0) == Bit(n, 0);
    }
  }

  // ---------- Shifts ----------

  /** By the amount modulo 64: a product with, or a quotient by, that power of two. */
  lemma ShiftLaws(a: Word, k: Word)
    ensures Result(Shl, a, k) == Wrap(a * Pow2(k % 64))
    ensures Result(Shr, a, k) == a / Pow2(k % 64)
  {
    hide ShiftLeft, ShiftRight, Pow2;
    LeftIs(a, k % 64);
    RightIs(a, k % 64);
  }

  lemma {:induction false} LeftIs(a: Word, k: nat)
    ensures ShiftLeft(a, k) == Wrap(a * Pow2(k))
    decreases k
  {
    if k > 0 {
      LeftIs(Wrap(2 * a), k - 1);
      WrapTimes(2 * a, Pow2(k - 1));
      assert 2 * a * Pow2(k - 1) == a * Pow2(k);
    }
  }

  lemma WrapTimes(m: nat, p: nat)
    ensures Wrap(Wrap(m) * p) == Wrap(m * p)
  {
    var q := m / TWO_64;
    assert m == q * TWO_64 + Wrap(m);
    assert m * p == Wrap(m) * p + (q * p) * TWO_64;
    WrapPlus(Wrap(m) * p, q * p);
  }

  lemma WrapPlus(n: int, k: int)
    ensures Wrap(n + k * TWO_64) == Wrap(n)
  {
    var r, q := n % TWO_64, n / TWO_64;
    assert n + k * TWO_64 == (q + k) * TWO_64 + r;
    WrapIs(n + k * TWO_64, q + k, r);
  }

  lemma WrapIs(n: int, q: int, r: int)
    requires n == q * TWO_64 + r && 0 <= r < TWO_64
    ensures Wrap(n) == r
  {
  }

  lemma {:induction false} RightIs(a: Word, k: nat)
    ensures ShiftRight(a, k) == a / Pow2(k)
    decreases k
  {
    if k > 0 {
      RightIs(a / 2, k - 1);
      Halves(a, Pow2(k - 1));
    }
  }

  lemma Halves(a: nat, p: nat)
    requires p > 0
    ensures a / 2 / p == a / (2 * p)
  {
    var h := a / 2;
    var q, r := h / p, h % p;
    assert h == q * p + r;
    assert q * (2 * p) == 2 * (q * p);
    SlabLayout.DivIs(a, 2 * p, q);
  }
}
