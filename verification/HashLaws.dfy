/** The two hashes keep keys apart as far as they promise to: no seed confuses two keys, no single byte goes unseen. */
module HashLaws {
  import opened Words
  import opened WordLaws
  import opened Mphf
  import SlabLayout

  // ---------- Shift and xor ----------

  lemma {:induction false} ShiftedBit(h: Word, j: nat, k: nat)
    ensures Bit(ShiftRight(h, j), k) == Bit(h, j + k)
    decreases j
  {
    if j > 0 {
      ShiftedBit(h / 2, j - 1, k);
    }
  }

  lemma {:induction false} NoBitsAbove(n: nat, size: nat, k: nat)
    requires n < Pow2(size) && k >= size
    ensures !Bit(n, k)
    decreases k
  {
    if k > 0 {
      NoBitsAbove(n / 2, if size == 0 then 0 else size - 1, k - 1);
    }
  }

  lemma XorBit(a: Word, b: Word, k: nat)
    requires k < 64
    ensures Bit(Bits64(BXor, a, b), k) <==> Bit(a, k) != Bit(b, k)
  {
    hide Bit, Bitwise;
    BitwiseBit(BXor, a, b, 64, k);
  }

  lemma MixedBit(h: Word, k: nat)
    requires k < 64
    ensures Bit(XorShift33(h), k) == (Bit(h, k) != (k + 33 < 64 && Bit(h, k + 33)))
  {
    hide Bit, Bits64, ShiftRight;
    XorBit(h, ShiftRight(h, 33), k);
    ShiftedBit(h, 33, k);
    if k + 33 >= 64 {
      Pow2Of64();
      NoBitsAbove(h, 64, k + 33);
    }
  }

  /** The upper bits come through as they are, and with them the lower ones can be told. */
  lemma XorShiftKeeps(a: Word, b: Word)
    requires XorShift33(a) == XorShift33(b)
    ensures a == b
  {
    hide Bit, XorShift33, Pow2;
    forall k | 0 <= k < 64 ensures Bit(a, k) == Bit(b, k) {
      MixedBit(a, k);
      MixedBit(b, k);
      if k + 33 < 64 {
        MixedBit(a, k + 33);
        MixedBit(b, k + 33);
      }
    }
    Pow2Of64();
    SameBits(a, b, 64);
  }

  /** Xor with one operand fixed tells the other. */
  lemma XorKeeps(a: Word, b: Word, x: Word)
    requires Bits64(BXor, a, x) == Bits64(BXor, b, x) || Bits64(BXor, x, a) == Bits64(BXor, x, b)
    ensures a == b
  {
    hide Bit, Bits64, Pow2;
    forall k | 0 <= k < 64 ensures Bit(a, k) == Bit(b, k) {
      XorBit(a, x, k);
      XorBit(b, x, k);
      XorBit(x, a, k);
      XorBit(x, b, k);
    }
    Pow2Of64();
    SameBits(a, b, 64);
  }

  // ---------- Odd factors ----------

  /** A factor with an inverse modulo 2^64 can be undone. */
  lemma FactorKeeps(a: Word, b: Word, c: nat, inverse: nat, m: nat)
    requires c * inverse == 1 + m * TWO_64 && Wrap(a * c) == Wrap(b * c)
    ensures a == b
  {
    Undo(a, c, inverse, m);
    Undo(b, c, inverse, m);
  }

  lemma Undo(a: Word, c: nat, inverse: nat, m: nat)
    requires c * inverse == 1 + m * TWO_64
    ensures Wrap(Wrap(a * c) * inverse) == a
  {
    hide Wrap;
    WrapTimes(a * c, inverse);
    Regroup(a, c, inverse, m);
    WrapPlus(a, a * m);
    Small(a);
  }

  lemma Regroup(a: nat, c: nat, inverse: nat, m: nat)
    requires c * inverse == 1 + m * TWO_64
    ensures a * c * inverse == a + a * m * TWO_64
  {
    Associate(a, c, inverse);
    Associate(a, m, TWO_64);
    Distribute(a, 1, m * TWO_64);
  }

  lemma Associate(a: nat, b: nat, c: nat)
    ensures a * b * c == a * (b * c)
  {
  }

  lemma Distribute(a: nat, b: nat, c: nat)
    ensures a * (b + c) == a * b + a * c
  {
  }

  lemma Small(n: nat)
    requires n < TWO_64
    ensures Wrap(n) == n
  {
  }

  lemma FirstFactor(a: Word, b: Word)
    requires Wrap(a * 0xff51_afd7_ed55_8ccd) == Wrap(b * 0xff51_afd7_ed55_8ccd)
    ensures a == b
  {
    FactorKeeps(a, b, 0xff51_afd7_ed55_8ccd, 0x4f74_430c_22a5_4005, 5710046619856821070);
  }

  lemma SecondFactor(a: Word, b: Word)
    requires Wrap(a * 0xc4ce_b9fe_1a85_ec53) == Wrap(b * 0xc4ce_b9fe_1a85_ec53)
    ensures a == b
  {
    FactorKeeps(a, b, 0xc4ce_b9fe_1a85_ec53, 0x9cb4_b2f8_1293_37db, 8680939279959119233);
  }

  lemma FnvFactor(a: Word, b: Word)
    requires Wrap(a * 0x100_0000_01b3) == Wrap(b * 0x100_0000_01b3)
    ensures a == b
  {
    FactorKeeps(a, b, 0x100_0000_01b3, 0xce96_5057_aff6_957b, 887285111055);
  }

  // ---------- The hashes ----------

  /** The two rounds after the first shift. */
  lemma MixKeeps(a: Word, b: Word)
    requires
      XorShift33(Wrap(XorShift33(Wrap(a * 0xff51_afd7_ed55_8ccd)) * 0xc4ce_b9fe_1a85_ec53)) ==
      XorShift33(Wrap(XorShift33(Wrap(b * 0xff51_afd7_ed55_8ccd)) * 0xc4ce_b9fe_1a85_ec53))
    ensures a == b
  {
    hide XorShift33, Wrap;
    var a1, b1 := Wrap(a * 0xff51_afd7_ed55_8ccd), Wrap(b * 0xff51_afd7_ed55_8ccd);
    XorShiftKeeps(Wrap(XorShift33(a1) * 0xc4ce_b9fe_1a85_ec53), Wrap(XorShift33(b1) * 0xc4ce_b9fe_1a85_ec53));
    SecondFactor(XorShift33(a1), XorShift33(b1));
    XorShiftKeeps(a1, b1);
    FirstFactor(a, b);
  }

  /** Under one seed no two keys hash alike. */
  lemma HashKeepsApart(a: Word, b: Word, seed: Word)
    ensures Hash(a, seed) == Hash(b, seed) <==> a == b
  {
    hide XorShift33, Wrap;
    if Hash(a, seed) == Hash(b, seed) {
      var ha, hb := XorShift33(Wrap(a + seed)), XorShift33(Wrap(b + seed));
      MixKeeps(ha, hb);
      XorShiftKeeps(Wrap(a + seed), Wrap(b + seed));
      SeedKeeps(a, b, seed);
    }
  }

  lemma SeedKeeps(a: Word, b: Word, seed: Word)
    requires Wrap(a + seed) == Wrap(b + seed)
    ensures a == b
  {
  }

  /** Without a displacement a key goes to its hash's slot; each further unit moves it one slot on, around the table. */
  lemma SlotSteps(key: Word, seed: Word, displacement: nat, total: nat)
    requires total > 0
    ensures Slot(key, seed, 0, total) == Hash(key, seed) % total
    ensures Hash(key, seed) + displacement + 1 < TWO_64 ==>
      var s := Slot(key, seed, displacement, total);
      Slot(key, seed, displacement + 1, total) == if s + 1 == total then 0 else s + 1
  {
    hide Hash, Wrap;
    var h := Hash(key, seed);
    Small(h);
    if h + displacement + 1 < TWO_64 {
      Small(h + displacement);
      Small(h + displacement + 1);
      OneOn(h + displacement, total);
    }
  }

  lemma OneOn(n: nat, d: nat)
    requires d > 0
    ensures (n + 1) % d == if n % d + 1 == d then 0 else n % d + 1
  {
    var q, r := n / d, n % d;
    assert n == q * d + r;
    var q1 := if r + 1 == d then q + 1 else q;
    assert q1 * d <= n + 1 < q1 * d + d;
    SlabLayout.DivIs(n + 1, d, q1);
    assert n + 1 == (n + 1) / d * d + (n + 1) % d;
  }

  /** Strings of one length that differ in exactly one byte never hash alike. */
  lemma {:induction false} OneByteSeen(d: seq<Byte>, e: seq<Byte>, i: nat)
    requires |d| == |e| && i < |d| && d[i] != e[i] && forall j :: 0 <= j < |d| && j != i ==> d[j] == e[j]
    ensures FxHash(d) != FxHash(e)
    decreases |d|
  {
    hide Bits64, Wrap;
    var n := |d| - 1;
    if FxHash(d) == FxHash(e) {
      FnvFactor(Bits64(BXor, FxHash(d[..n]), d[n]), Bits64(BXor, FxHash(e[..n]), e[n]));
      if i == n {
        assert d[..n] == e[..n];
        XorKeeps(d[n], e[n], FxHash(d[..n]));
        assert false;
      }
      XorKeeps(FxHash(d[..n]), FxHash(e[..n]), d[n]);
      OneByteSeen(d[..n], e[..n], i);
    }
  }
}
