/** 64-bit machine words, as the integers below 2^64, and the operators compiled pure expressions apply to them. */
module Words {
  const TWO_32: int := 0x1_0000_0000
  const TWO_63: int := 0x8000_0000_0000_0000
  const TWO_64: int := 0x1_0000_0000_0000_0000

  type Word = w: int | 0 <= w < TWO_64
  type Byte = b: int | 0 <= b < 256

  /** Binary operators of the source language (pure_expr.rs, `fold_with_self`). */
  datatype BinOp =
    | Add | Sub | Mul | Div
    | Le | Ge | Eq | Lt | Gt
    | BAnd | BOr | BXor | Shl | Shr

  function Wrap(n: int): Word {
    n % TWO_64
  }

  /** Two's-complement reading of a word. */
  function Signed(w: Word): int {
    if w < TWO_63 then w else w - TWO_64
  }

  function Negate(w: Word): Word {
    Wrap(0 - w)
  }

  function FromBool(b: bool): Word {
    if b then 1 else 0
  }

  /** Quotient truncated toward zero. */
  function TruncDiv(a: int, b: int): int
    requires b != 0
  {
    var q := (if a < 0 then -a else a) / (if b < 0 then -b else b);
    if (a < 0) != (b < 0) then -q else q
  }

  /** Truncated signed quotient; the one that does not fit, -2^63 / -1, wraps. */
  function WrappingDiv(a: Word, b: Word): Word
    requires b != 0
  {
    Wrap(TruncDiv(Signed(a), Signed(b)))
  }

  /** The division instruction traps on a zero divisor and on the quotient that does not fit. */
  predicate DivTraps(a: Word, b: Word) {
    b == 0 || (a == TWO_63 && b == TWO_64 - 1)
  }

  function Pow2(n: nat): (r: nat)
    ensures r >= 1
  {
    if n == 0 then 1 else 2 * Pow2(n - 1)
  }

  lemma {:induction false} Pow2Add(m: nat, n: nat)
    ensures Pow2(m + n) == Pow2(m) * Pow2(n)
  {
    if m > 0 {
      Pow2Add(m - 1, n);
    }
  }

  lemma Pow2Of8()
    ensures Pow2(8) == 256
  {
    assert Pow2(4) == 16;
    hide Pow2;
    Pow2Add(4, 4);
  }

  lemma Pow2Of16()
    ensures Pow2(16) == 65536
  {
    hide Pow2;
    Pow2Of8();
    Pow2Add(8, 8);
  }

  lemma Pow2Of64()
    ensures Pow2(64) == TWO_64
  {
    Pow2Of16();
    hide Pow2;
    Pow2Add(16, 16);
    Pow2Add(32, 32);
  }

  /** Bit-by-bit combination of the `n` low bits. */
  function Bitwise(op: BinOp, a: nat, b: nat, n: nat): (r: nat)
    ensures r < Pow2(n)
    decreases n
  {
    if n == 0 then 0
    else
      var x, y := a % 2 == 1, b % 2 == 1;
      var bit := if op.BAnd? then x && y else if op.BOr? then x || y else x != y;
      2 * Bitwise(op, a / 2, b / 2, n - 1) + (if bit then 1 else 0)
  }

  function Bits64(op: BinOp, a: Word, b: Word): Word {
    Pow2Of64();
    Bitwise(op, a, b, 64)
  }

  function ShiftLeft(a: Word, k: nat): Word
    decreases k
  {
    if k == 0 then a else ShiftLeft(Wrap(2 * a), k - 1)
  }

  function ShiftRight(a: Word, k: nat): Word
    decreases k
  {
    if k == 0 then a else ShiftRight(a / 2, k - 1)
  }

  datatype OpResult = Value(w: Word) | Fault

  /** What the emitted instruction leaves for `a op b`; shifts take the amount modulo 64. */
  function ApplyBin(op: BinOp, a: Word, b: Word): OpResult {
    match op
    case Add => Value(Wrap(a + b))
    case Sub => Value(Wrap(a - b))
    case Mul => Value(Wrap(a * b))
    case Div => if DivTraps(a, b) then Fault else Value(WrappingDiv(a, b))
    case Le => Value(FromBool(Signed(a) <= Signed(b)))
    case Ge => Value(FromBool(Signed(a) >= Signed(b)))
    case Eq => Value(FromBool(a == b))
    case Lt => Value(FromBool(Signed(a) < Signed(b)))
    case Gt => Value(FromBool(Signed(a) > Signed(b)))
    case BAnd => Value(Bits64(op, a, b))
    case BOr => Value(Bits64(op, a, b))
    case BXor => Value(Bits64(op, a, b))
    case Shl => Value(ShiftLeft(a, b % 64))
    case Shr => Value(ShiftRight(a, b % 64))
  }
}
