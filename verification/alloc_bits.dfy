// Tree bin indices of src/lj_alloc.c: which bin a size belongs to, and which of
// its bits decide the way down the bin's trie.
module AllocBits {
  const NTREEBINS: nat := 32
  const MIN_LARGE_SIZE: nat := 256
  const SIZE_LIMIT: nat := 0x100_0000_0000     // chunks are smaller than 2^40 bytes
  const TWO64: nat := 0x1_0000_0000_0000_0000

  // s >> k
  function Shr(s: nat, k: nat): nat { if k == 0 then s else Shr(s, k - 1) / 2 }

  function Bit(s: nat, k: nat): (b: nat)
    ensures b < 2
  {
    Shr(s, k) % 2
  }

  function P(k: nat): (p: nat)
    ensures p >= 1
  {
    if k == 0 then 1 else 2 * P(k - 1)
  }

  lemma {:induction false} ShrHalf(s: nat, k: nat)
    ensures Shr(s / 2, k) == Shr(s, k + 1)
  {
    if k > 0 { ShrHalf(s, k - 1); }
  }

  lemma {:induction false} ShrShr(s: nat, j: nat, k: nat)
    ensures Shr(Shr(s, j), k) == Shr(s, j + k)
  {
    if k > 0 { ShrShr(s, j, k - 1); }
  }

  lemma {:induction false} ShrMono(s: nat, t: nat, k: nat)
    requires s <= t
    ensures Shr(s, k) <= Shr(t, k)
  {
    if k > 0 { ShrMono(s, t, k - 1); }
  }

  lemma {:induction false} ShrBound(s: nat, n: nat, k: nat)
    requires s < P(n) && k <= n
    ensures Shr(s, k) < P(n - k)
  {
    if k > 0 {
      ShrBound(s, n, k - 1);
      assert P(n - k + 1) == 2 * P(n - k);
    }
  }

  lemma {:induction false} ShrZero(s: nat, j: nat, k: nat)
    requires Shr(s, j) == 0 && j <= k
    ensures Shr(s, k) == 0
  {
    if j < k { ShrZero(s, j, k - 1); }
  }

  lemma PowValues()
    ensures P(8) == 256 && P(16) == 0x1_0000 && P(40) == SIZE_LIMIT && P(63) * 2 == TWO64
  {
    assert P(4) == 16;
    PowStep(4);
    PowStep(8);
    PowStep(12);
    PowStep(16);
    PowStep(20);
    PowStep(24);
    PowStep(28);
    PowStep(32);
    PowStep(36);
    PowStep(40);
    PowStep(44);
    PowStep(48);
    PowStep(52);
    PowStep(56);
    assert P(63) == 8 * P(60);
  }

  lemma PowStep(k: nat)
    ensures P(k + 4) == 16 * P(k)
  {
    assert P(k + 4) == 2 * P(k + 3) && P(k + 3) == 2 * P(k + 2) && P(k + 2) == 2 * P(k + 1) && P(k + 1) == 2 * P(k);
  }

  lemma EightShr(s: nat)
    ensures Shr(s, 8) == s / 256
  {
    assert Shr(s, 2) == Shr(s, 1) / 2 && Shr(s, 4) == Shr(s, 3) / 2 && Shr(s, 6) == Shr(s, 5) / 2
           && Shr(s, 8) == Shr(s, 7) / 2;
    assert Shr(s, 4) == s / 16;
    assert Shr(s, 8) == Shr(s, 4) / 16;
  }

  // Most significant bit.
  function Fls(x: nat): (k: nat)
    requires x > 0
  {
    if x == 1 then 0 else 1 + Fls(x / 2)
  }

  lemma {:induction false} FlsIs(x: nat)
    requires x > 0
    ensures Shr(x, Fls(x)) == 1
  {
    if x > 1 {
      FlsIs(x / 2);
      ShrHalf(x, Fls(x / 2));
    }
  }

  lemma {:induction false} FlsMono(x: nat, y: nat)
    requires 0 < x <= y
    ensures Fls(x) <= Fls(y)
  {
    if x > 1 { FlsMono(x / 2, y / 2); }
  }

  lemma FlsBelow(x: nat)
    requires 0 < x <= 0xFFFF
    ensures Fls(x) <= 15
  {
    PowValues();
    FlsIs(x);
    ShrBound(x, 16, 16);
    if Fls(x) >= 16 { ShrZero(x, 16, Fls(x)); }
  }

  // compute_tree_index
  function TreeIndex(s: nat): (i: nat)
    ensures i < NTREEBINS
  {
    var x := s / 256 % 0x1_0000_0000;
    if x == 0 then 0
    else if x > 0xFFFF then NTREEBINS - 1
    else
      FlsBelow(x);
      2 * Fls(x) + Bit(s, Fls(x) + 7)
  }

  predicate LargeSize(s: nat) { MIN_LARGE_SIZE <= s < SIZE_LIMIT }

  // The bit that decides at the root of bin i, and what the sizes of the bin have
  // in common above it.
  function RootBit(i: nat): nat { if i == NTREEBINS - 1 then 63 else i / 2 + 6 }

  function BinPrefix(i: nat): nat { if i == NTREEBINS - 1 then 0 else 2 + i % 2 }

  // Above the leading bit K + 8 there is nothing, and bit K + 7 is in the index.
  lemma LeadingBits(s: nat)
    requires LargeSize(s) && s / 256 <= 0xFFFF
    ensures var k := Fls(s / 256); k <= 15 && Shr(s, k + 7) == 2 + Bit(s, k + 7)
    ensures TreeIndex(s) == 2 * Fls(s / 256) + Bit(s, Fls(s / 256) + 7)
  {
    var x := s / 256;
    var k := Fls(x);
    FlsBelow(x);
    FlsIs(x);
    EightShr(s);
    ShrShr(s, 8, k);
    assert Shr(s, k + 8) == Shr(s, k + 7) / 2 == 1;
  }

  lemma BinShares(s: nat)
    requires LargeSize(s)
    ensures var i := TreeIndex(s); Shr(s, RootBit(i) + 1) == BinPrefix(i)
  {
    var i := TreeIndex(s);
    if i == NTREEBINS - 1 {
      PowValues();
      ShrBound(s, 40, 40);
      ShrZero(s, 40, 64);
    } else {
      LeadingBits(s);
    }
  }

  // Larger sizes are in later bins.
  lemma IndexMono(s: nat, t: nat)
    requires LargeSize(s) && LargeSize(t) && s <= t
    ensures TreeIndex(s) <= TreeIndex(t)
  {
    if t / 256 <= 0xFFFF {
      LeadingBits(s);
      LeadingBits(t);
      FlsMono(s / 256, t / 256);
      if Fls(s / 256) == Fls(t / 256) { ShrMono(s, t, Fls(s / 256) + 7); }
    }
  }

  // -- Testing bits from the top by shifting left ----------------------------

  function Shl(k: nat): nat { k * 2 % TWO64 }

  function ShlBy(s: nat, n: nat): nat { if n == 0 then s % TWO64 else Shl(ShlBy(s, n - 1)) }

  lemma {:induction false} ShrDouble(k: nat, j: nat)
    ensures Shr(2 * k, j + 1) == Shr(k, j)
  {
    if j > 0 { ShrDouble(k, j - 1); }
  }

  lemma {:induction false} ShrMinus(k: nat, n: nat, j: nat)
    requires j <= n && P(n) <= k
    ensures Shr(k - P(n), j) == Shr(k, j) - P(n - j)
  {
    if j > 0 {
      ShrMinus(k, n, j - 1);
      assert P(n - j + 1) == 2 * P(n - j);
    }
  }

  lemma ShlIs(k: nat)
    requires k < TWO64
    ensures Shl(k) == if 2 * k < TWO64 then 2 * k else 2 * k - TWO64
  {
  }

  lemma SameParity(a: nat, b: nat)
    requires 2 * b <= a
    ensures (a - 2 * b) % 2 == a % 2
  {
  }

  lemma ShlBit(k: nat, j: nat)
    requires k < TWO64 && j < 63
    ensures Bit(Shl(k), j + 1) == Bit(k, j)
  {
    ShlIs(k);
    PowValues();
    ShrDouble(k, j);
    if 2 * k >= TWO64 {
      var low := k - P(63);
      ShrMinus(k, 63, j);
      ShrDouble(low, j);
      assert P(63 - j) == 2 * P(62 - j);
      hide P, Shr, Shl;
      assert Shl(k) == 2 * low;
      SameParity(Shr(k, j), P(62 - j));
    }
  }

  lemma {:induction false} ShlByBit(s: nat, n: nat, j: nat)
    requires s < TWO64 && j + n <= 63
    ensures ShlBy(s, n) < TWO64 && Bit(ShlBy(s, n), j + n) == Bit(s, j)
  {
    if n > 0 {
      ShlByBit(s, n - 1, j);
      ShlBit(ShlBy(s, n - 1), j + n - 1);
    }
  }
}
