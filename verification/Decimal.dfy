/** Decimal printing of a 64-bit integer, from the right end of a fixed buffer to the left. */
module Decimal {
  import opened Words
  import opened Lake

  const MIN_I64: int := -TWO_63
  const ZERO: Byte := 48
  const MINUS: Byte := 45
  const NEWLINE: Byte := 10

  predicate IsI64(n: int) {
    MIN_I64 <= n < TWO_63
  }

  /** Remainder with the dividend's sign. */
  function TruncRem(a: int, b: int): int
    requires b != 0
  {
    a - b * TruncDiv(a, b)
  }

  /** Two's-complement negation: the minimum is its own. */
  function NegateI64(n: int): int
    requires IsI64(n)
  {
    if n == MIN_I64 then n else -n
  }

  function DigitByte(rem: int): Byte {
    (rem + 48) % 256
  }

  /** What the digit loop writes for a value, left to right. */
  function Digits(v: int): seq<Byte>
    decreases if v < 0 then -v else v
  {
    if TruncDiv(v, 10) == 0 then [DigitByte(TruncRem(v, 10))]
    else Digits(TruncDiv(v, 10)) + [DigitByte(TruncRem(v, 10))]
  }

  /** The visible bytes. */
  function Text(n: int): seq<Byte>
    requires IsI64(n)
  {
    if n == 0 then [ZERO]
    else if n < 0 then [MINUS] + Digits(NegateI64(n))
    else Digits(n)
  }

  // ---------- Reading back ----------

  /** Value of a run of decimal digits, nothing for an empty run or any other byte. */
  function ParseDigits(s: seq<Byte>): Option<nat> {
    if s == [] then None
    else
      var d := s[|s| - 1];
      if d < 48 || d > 57 then None
      else if |s| == 1 then Some(d - 48)
      else match ParseDigits(s[..|s| - 1]) case Some(v) => Some(10 * v + (d - 48)) case None => None
  }

  function Parse(s: seq<Byte>): Option<int> {
    if s != [] && s[0] == MINUS
    then (match ParseDigits(s[1..]) case Some(v) => Some(0 - v) case None => None)
    else (match ParseDigits(s) case Some(v) => Some(v) case None => None)
  }

  lemma DivRem(v: nat)
    ensures TruncDiv(v, 10) == v / 10 && TruncRem(v, 10) == v % 10
  {
  }

  /** Digits of a natural number read back as it, without a leading zero. */
  lemma {:induction false} DigitsRead(v: nat)
    ensures ParseDigits(Digits(v)) == Some(v)
    ensures Digits(v) != [] && 48 <= Digits(v)[0] <= 57
    ensures v > 0 ==> Digits(v)[0] != ZERO
    decreases v
  {
    DivRem(v);
    if v >= 10 {
      DigitsRead(v / 10);
      var d := Digits(v);
      assert d[..|d| - 1] == Digits(v / 10);
    }
  }

  function Pow10(k: nat): nat {
    if k == 0 then 1 else 10 * Pow10(k - 1)
  }

  lemma {:induction false} DigitCount(v: int, k: nat)
    requires 0 - v < Pow10(k) && v < Pow10(k) && k > 0
    ensures 1 <= |Digits(v)| <= k
    decreases k
  {
    var q := TruncDiv(v, 10);
    assert Pow10(1) == 10;
    if q != 0 && k > 1 {
      DigitCount(q, k - 1);
    }
  }

  lemma NineteenDigits(n: int)
    requires IsI64(n)
    ensures |Digits(n)| <= 19 && |Digits(NegateI64(n))| <= 19
  {
    assert Pow10(5) == 100_000;
    assert Pow10(10) == 10_000_000_000;
    assert Pow10(15) == 1_000_000_000_000_000;
    assert Pow10(19) == 10_000_000_000_000_000_000;
    DigitCount(n, 19);
    DigitCount(NegateI64(n), 19);
  }

  /** The text reads back as the number, and is canonical, exactly for every i64 but the minimum. */
  lemma TextExact(n: int)
    requires IsI64(n)
    ensures Parse(Text(n)) == Some(n) <==> n != MIN_I64
    ensures n != MIN_I64 && n != 0 ==> Text(n)[if n < 0 then 1 else 0] != ZERO
  {
    if n == MIN_I64 {
      MinimumText();
    } else if n < 0 {
      DigitsRead(-n);
      assert Text(n)[1..] == Digits(-n);
    } else {
      DigitsRead(n);
    }
  }

  /** The minimum's last byte is '(' instead of a digit. */
  lemma MinimumText()
    ensures var s := Text(MIN_I64); s[|s| - 1] == 40 && s[0] == MINUS && ParseDigits(s[1..]) == None
  {
    var s := Text(MIN_I64);
    assert TruncRem(MIN_I64, 10) == -8;
    assert Digits(MIN_I64)[|Digits(MIN_I64)| - 1] == 40;
    assert s[1..] == Digits(MIN_I64);
  }

  // ---------- The emitted code ----------

  /**
   * `to_string` (31 bytes) and `to_string_with_ln` (32 bytes, a newline in the last). Digits go leftwards from index
   * 30; a '-' always follows, and the visible start skips it for positive numbers.
   */
  method ToString(n: int, newline: bool) returns (buffer: array<Byte>, start: nat)
    requires IsI64(n)
    ensures fresh(buffer) && buffer.Length == (if newline then 32 else 31) && start <= 30
    ensures buffer[start..31] == Text(n)
    ensures newline ==> buffer[31] == NEWLINE
  {
    hide Digits, Text;
    buffer := new Byte[if newline then 32 else 31];
    if newline {
      buffer[31] := NEWLINE;
    }
    var wp: int := 30;
    if n == 0 {
      buffer[wp] := ZERO;
      ZeroText();
      return buffer, wp;
    }
    NineteenDigits(n);
    var val := if n < 0 then NegateI64(n) else n;
    ghost var abs := val;
    assert buffer[wp + 1..31] == [];
    while true
      invariant 11 <= wp <= 30 && |Digits(val)| <= wp - 11
      invariant Digits(abs) == Digits(val) + buffer[wp + 1..31]
      invariant newline ==> buffer[31] == NEWLINE
      decreases if val < 0 then -val else val
    {
      LastDigit(val);
      ghost var tail := buffer[wp + 1..31];
      buffer[wp] := DigitByte(TruncRem(val, 10));
      assert buffer[wp..31] == [DigitByte(TruncRem(val, 10))] + tail;
      wp := wp - 1;
      if TruncDiv(val, 10) == 0 {
        break;
      }
      val := TruncDiv(val, 10);
    }
    assert buffer[wp + 1..31] == Digits(abs);
    buffer[wp] := MINUS;
    start := wp + 1 - (if n < 0 then 1 else 0);
    assert buffer[wp + 1..31] == Digits(abs);
    assert buffer[wp..31] == [MINUS] + Digits(abs);
    SignedText(n);
  }

  lemma ZeroText()
    ensures Text(0) == [ZERO]
  {
  }

  lemma SignedText(n: int)
    requires IsI64(n) && n != 0
    ensures Text(n) == if n < 0 then [MINUS] + Digits(NegateI64(n)) else Digits(n)
  {
  }

  lemma LastDigit(v: int)
    ensures |Digits(v)| >= 1
    ensures Digits(v) == (if TruncDiv(v, 10) == 0 then [] else Digits(TruncDiv(v, 10))) + [DigitByte(TruncRem(v, 10))]
    ensures TruncDiv(v, 10) != 0 ==> |Digits(v)| == |Digits(TruncDiv(v, 10))| + 1
    ensures TruncDiv(v, 10) != 0 ==> (if TruncDiv(v, 10) < 0 then -TruncDiv(v, 10) else TruncDiv(v, 10)) < if v < 0 then -v else v
  {
  }
}
