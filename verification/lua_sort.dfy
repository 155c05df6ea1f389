// table.sort: the quicksort of src/lib_table.c.
module LuaSort {
  // What the comparator answers on its k-th call; Lua allows any function here,
  // consistent or not.
  type Cmp<!T> = (nat, T, T) -> bool

  // -- Orders ----------------------------------------------------------------

  // A comparator that answers by a strict weak order.
  ghost predicate WeakOrder<T(!new)>(cmp: Cmp<T>) {
    && (forall k, l, x, y :: cmp(k, x, y) == cmp(l, x, y))
    && (forall x :: !cmp(0, x, x))
    && (forall x, y :: cmp(0, x, y) ==> !cmp(0, y, x))
    && (forall x, y, z :: cmp(0, x, z) ==> cmp(0, x, y) || cmp(0, y, z))
  }

  predicate Leq<T>(cmp: Cmp<T>, x: T, y: T) { !cmp(0, y, x) }

  lemma LeqTrans<T(!new)>(cmp: Cmp<T>, x: T, y: T, z: T)
    requires WeakOrder(cmp) && Leq(cmp, x, y) && Leq(cmp, y, z)
    ensures Leq(cmp, x, z)
  {
  }

  lemma Answer<T(!new)>(cmp: Cmp<T>, k: nat, x: T, y: T)
    requires WeakOrder(cmp)
    ensures cmp(k, x, y) == cmp(0, x, y)
    ensures cmp(k, x, y) ==> Leq(cmp, x, y)
    ensures !cmp(k, x, y) ==> Leq(cmp, y, x)
  {
  }

  ghost predicate SortedRange<T(!new)>(cmp: Cmp<T>, s: seq<T>, lo: int, hi: int) {
    forall x, y :: 0 <= lo <= x < y < hi <= |s| ==> Leq(cmp, s[x], s[y])
  }

  // -- Permutations ----------------------------------------------------------

  // Only the part from lo to hi has been rearranged.
  ghost predicate Rearranged<T>(s: seq<T>, s': seq<T>, lo: int, hi: int) {
    && |s| == |s'| && 0 <= lo <= hi <= |s|
    && s'[..lo] == s[..lo] && s'[hi..] == s[hi..] && multiset(s'[lo..hi]) == multiset(s[lo..hi])
  }

  lemma RearrangedWider<T>(s: seq<T>, s': seq<T>, lo: int, hi: int, lo2: int, hi2: int)
    requires Rearranged(s, s', lo, hi) && 0 <= lo2 <= lo <= hi <= hi2 <= |s|
    ensures Rearranged(s, s', lo2, hi2)
  {
    assert s[lo2..hi2] == s[lo2..lo] + s[lo..hi] + s[hi..hi2];
    assert s'[lo2..hi2] == s'[lo2..lo] + s'[lo..hi] + s'[hi..hi2];
    assert s'[lo2..lo] == s'[..lo][lo2..] == s[..lo][lo2..] == s[lo2..lo];
    assert s'[hi..hi2] == s'[hi..][..hi2 - hi] == s[hi..][..hi2 - hi] == s[hi..hi2];
    assert s'[..lo2] == s'[..lo][..lo2] == s[..lo][..lo2] == s[..lo2];
    assert s'[hi2..] == s'[hi..][hi2 - hi..] == s[hi..][hi2 - hi..] == s[hi2..];
  }

  lemma RearrangedTrans<T>(s: seq<T>, s1: seq<T>, s2: seq<T>, lo: int, hi: int)
    requires Rearranged(s, s1, lo, hi) && Rearranged(s1, s2, lo, hi)
    ensures Rearranged(s, s2, lo, hi)
  {
  }

  lemma RearrangedSelf<T>(s: seq<T>, lo: int, hi: int)
    requires 0 <= lo <= hi <= |s|
    ensures Rearranged(s, s, lo, hi)
  {
  }

  function SwapAt<T>(s: seq<T>, i: int, j: int): (s': seq<T>)
    requires 0 <= i < |s| && 0 <= j < |s|
    ensures |s'| == |s| && s'[i] == s[j] && s'[j] == s[i]
  {
    s[i := s[j]][j := s[i]]
  }

  lemma Swapped<T>(s: seq<T>, i: int, j: int, lo: int, hi: int)
    requires 0 <= lo <= i < hi <= |s| && lo <= j < hi
    ensures Rearranged(s, SwapAt(s, i, j), lo, hi)
  {
    var s' := SwapAt(s, i, j);
    var m, m' := s[lo..hi], s'[lo..hi];
    assert m' == m[i - lo := m[j - lo]][j - lo := m[i - lo]];
  }

  // Whatever holds of all values of a part holds after rearranging it.
  lemma RearrangedAt<T>(s: seq<T>, s': seq<T>, lo: int, hi: int, k: int) returns (k': int)
    requires Rearranged(s, s', lo, hi) && 0 <= k < |s|
    ensures 0 <= k' < |s| && s[k'] == s'[k] && (lo <= k < hi ==> lo <= k' < hi) && (k < lo || k >= hi ==> k' == k)
  {
    if k < lo {
      assert s'[k] == s'[..lo][k] == s[..lo][k];
      k' := k;
    } else if k >= hi {
      assert s'[k] == s'[hi..][k - hi] == s[hi..][k - hi];
      k' := k;
    } else {
      assert s'[k] == s'[lo..hi][k - lo];
      assert s'[k] in multiset(s'[lo..hi]);
      assert s'[k] in s[lo..hi];
      var d :| 0 <= d < hi - lo && s[lo..hi][d] == s'[k];
      k' := lo + d;
    }
  }

  function Pow2(n: nat): (p: nat)
    ensures p >= 1
  {
    if n == 0 then 1 else 2 * Pow2(n - 1)
  }

  // How deep calls may nest when sorting n elements.
  function Log2(n: nat): (k: nat)
    ensures n > 0 ==> Pow2(k) <= n < Pow2(k + 1)
    ensures n == 0 ==> k == 0
  {
    if n < 2 then 0 else 1 + Log2(n / 2)
  }

  // The smaller part of n elements leaves one level less.
  lemma HalfBudget(budget: nat, m: nat, n: nat)
    requires n < Pow2(budget + 1) && 2 * m < n && n >= 2
    ensures budget > 0 && m < Pow2(budget)
  {
    assert Pow2(budget + 1) == 2 * Pow2(budget);
  }

  // A part of the array that lies on one side of the pivot.
  ghost predicate Below<T(!new)>(cmp: Cmp<T>, s: seq<T>, lo: int, hi: int, x: T) {
    forall k :: 0 <= lo <= k < hi <= |s| ==> Leq(cmp, s[k], x)
  }

  ghost predicate Above<T(!new)>(cmp: Cmp<T>, s: seq<T>, lo: int, hi: int, x: T) {
    forall k :: 0 <= lo <= k < hi <= |s| ==> Leq(cmp, x, s[k])
  }

  predicate Ordered<T>(cmp: Cmp<T>, s: seq<T>, l: int, u: int) { 0 <= l < u < |s| && Leq(cmp, s[l], s[u]) }

  predicate Ordered3<T>(cmp: Cmp<T>, s: seq<T>, l: int, i: int, u: int) {
    Ordered(cmp, s, l, i) && Ordered(cmp, s, i, u) && Ordered(cmp, s, l, u)
  }

  predicate PivotBetween<T>(cmp: Cmp<T>, s: seq<T>, l: int, u: int, p: T) {
    0 <= l < u < |s| && Leq(cmp, s[l], p) && Leq(cmp, p, s[u])
  }

  lemma Sorted2<T(!new)>(cmp: Cmp<T>, s: seq<T>, l: int)
    ensures Ordered(cmp, s, l, l + 1) ==> SortedRange(cmp, s, l, l + 2)
  {
  }

  lemma Sorted3<T(!new)>(cmp: Cmp<T>, s: seq<T>, l: int)
    ensures Ordered3(cmp, s, l, l + 1, l + 2) ==> SortedRange(cmp, s, l, l + 3)
  {
  }

  lemma OrderedSwap<T>(cmp: Cmp<T>, s: seq<T>, l: int, u: int)
    requires 0 <= l < u < |s|
    ensures Leq(cmp, s[l], s[u]) ==> Ordered(cmp, s, l, u)
    ensures Leq(cmp, s[u], s[l]) ==> Ordered(cmp, SwapAt(s, l, u), l, u)
  {
  }

  lemma MidCases<T(!new)>(cmp: Cmp<T>, s: seq<T>, l: int, i: int, u: int)
    requires 0 <= l < i < u < |s|
    ensures WeakOrder(cmp) && Ordered(cmp, s, l, u) && Leq(cmp, s[i], s[l]) ==> Ordered3(cmp, SwapAt(s, i, l), l, i, u)
    ensures WeakOrder(cmp) && Ordered(cmp, s, l, u) && Leq(cmp, s[l], s[i]) && Leq(cmp, s[u], s[i])
            ==> Ordered3(cmp, SwapAt(s, i, u), l, i, u)
    ensures Ordered(cmp, s, l, u) && Leq(cmp, s[l], s[i]) && Leq(cmp, s[i], s[u]) ==> Ordered3(cmp, s, l, i, u)
  {
    if WeakOrder(cmp) && Ordered(cmp, s, l, u) && Leq(cmp, s[i], s[l]) { LeqTrans(cmp, s[i], s[l], s[u]); }
  }

  lemma PivotPlaced<T>(cmp: Cmp<T>, s: seq<T>, l: int, i: int, u: int)
    requires 0 <= l < i < u - 1 < u < |s|
    ensures Ordered3(cmp, s, l, i, u) ==> PivotBetween(cmp, SwapAt(s, i, u - 1), l, u, s[i])
  {
  }

  // The values at i <= j are on the wrong sides of the pivot and change places.
  lemma SwapSides<T(!new)>(cmp: Cmp<T>, s: seq<T>, l: int, u: int, i: int, j: int, p: T)
    requires 0 <= l < i <= j < u < |s|
    ensures j < u - 1 ==> SwapAt(s, i, j)[u - 1] == s[u - 1]
    ensures Below(cmp, s, l, i, p) && Above(cmp, s, j + 1, u + 1, p) && Leq(cmp, s[j], p) && Leq(cmp, p, s[i]) ==>
              Below(cmp, SwapAt(s, i, j), l, i + 1, p) && Above(cmp, SwapAt(s, i, j), j, u + 1, p)
  {
  }

  ghost predicate Split<T(!new)>(cmp: Cmp<T>, s: seq<T>, l: int, i: int, u: int, p: T) {
    0 <= l < i < u < |s| && s[i] == p && Below(cmp, s, l, i, p) && Above(cmp, s, i + 1, u + 1, p)
  }

  // Finally the pivot goes to i.
  lemma PivotHome<T(!new)>(cmp: Cmp<T>, s: seq<T>, l: int, u: int, i: int, j: int, p: T)
    requires 0 <= l < i < u < |s| && 0 <= j < i && s[u - 1] == p
    requires Below(cmp, s, l, i, p) && Above(cmp, s, j + 1, u + 1, p)
    ensures Split(cmp, SwapAt(s, u - 1, i), l, i, u, p)
  {
    assert Leq(cmp, p, s[i]);
  }

  lemma BelowAt<T(!new)>(cmp: Cmp<T>, s: seq<T>, lo: int, hi: int, x: T, k: int)
    requires Below(cmp, s, lo, hi, x) && 0 <= lo <= k < hi <= |s|
    ensures Leq(cmp, s[k], x)
  {
  }

  // The scans extend what is known on both sides.
  lemma Extend<T(!new)>(cmp: Cmp<T>, s: seq<T>, l: int, u: int, i0: int, i: int, j0: int, j: int, p: T)
    requires Below(cmp, s, l, i0 + 1, p) && Below(cmp, s, i0 + 1, i, p)
    requires Above(cmp, s, j0, u + 1, p) && Above(cmp, s, j + 1, j0, p)
    requires 0 <= l <= i0 < i <= |s| && -1 <= j < j0 <= u < |s|
    ensures Below(cmp, s, l, i, p) && Above(cmp, s, j + 1, u + 1, p)
  {
  }

  lemma PivotSelf<T(!new)>(cmp: Cmp<T>, s: seq<T>, l: int, u: int, p: T)
    requires 0 <= l < u - 1 < u < |s| && WeakOrder(cmp) && PivotBetween(cmp, s, l, u, p) && s[u - 1] == p
    ensures Below(cmp, s, l, l + 1, p) && Above(cmp, s, u - 1, u + 1, p)
  {
  }

  // -- What remains to be sorted ---------------------------------------------

  // Between lo and hi only pairs inside l..u may be out of order.
  ghost predicate OuterOk<T(!new)>(cmp: Cmp<T>, s: seq<T>, lo: int, hi: int, l: int, u: int) {
    forall x, y :: 0 <= lo <= x < y <= hi < |s| && !(l <= x && y <= u) ==> Leq(cmp, s[x], s[y])
  }

  lemma OuterStart<T(!new)>(cmp: Cmp<T>, s: seq<T>, lo: int, hi: int)
    ensures OuterOk(cmp, s, lo, hi, lo, hi)
  {
  }

  lemma OuterRearranged<T(!new)>(cmp: Cmp<T>, s: seq<T>, s': seq<T>, lo: int, hi: int, l: int, u: int)
    requires OuterOk(cmp, s, lo, hi, l, u) && Rearranged(s, s', l, u + 1) && lo <= l && u <= hi
    ensures OuterOk(cmp, s', lo, hi, l, u)
  {
    forall x, y | 0 <= lo <= x < y <= hi < |s'| && !(l <= x && y <= u)
      ensures Leq(cmp, s'[x], s'[y])
    {
      var x' := RearrangedAt(s, s', l, u + 1, x);
      var y' := RearrangedAt(s, s', l, u + 1, y);
      assert !(l <= x && y <= u) && Leq(cmp, s[x'], s[y']);
    }
  }

  lemma BelowRearranged<T(!new)>(cmp: Cmp<T>, s: seq<T>, s': seq<T>, lo: int, hi: int, p: T)
    requires Below(cmp, s, lo, hi, p) && Rearranged(s, s', lo, hi)
    ensures Below(cmp, s', lo, hi, p)
  {
    forall k | 0 <= lo <= k < hi <= |s'| ensures Leq(cmp, s'[k], p) { var k' := RearrangedAt(s, s', lo, hi, k); }
  }

  lemma AboveRearranged<T(!new)>(cmp: Cmp<T>, s: seq<T>, s': seq<T>, lo: int, hi: int, p: T)
    requires Above(cmp, s, lo, hi, p) && Rearranged(s, s', lo, hi)
    ensures Above(cmp, s', lo, hi, p)
  {
    forall k | 0 <= lo <= k < hi <= |s'| ensures Leq(cmp, p, s'[k]) { var k' := RearrangedAt(s, s', lo, hi, k); }
  }

  lemma RearrangedOutside<T>(s: seq<T>, s': seq<T>, lo: int, hi: int, k: int)
    requires Rearranged(s, s', lo, hi) && 0 <= k < |s| && (k < lo || k >= hi)
    ensures s'[k] == s[k]
  {
    var _ := RearrangedAt(s, s', lo, hi, k);
  }

  // Once the part on one side of the pivot is sorted, the other side remains.
  lemma LeftDone<T(!new)>(cmp: Cmp<T>, s: seq<T>, s': seq<T>, lo: int, hi: int, l: int, i: int, u: int, p: T)
    requires WeakOrder(cmp) && 0 <= lo <= l && u <= hi < |s|
    requires OuterOk(cmp, s, lo, hi, l, u) && Split(cmp, s, l, i, u, p)
    requires Rearranged(s, s', l, i) && SortedRange(cmp, s', l, i)
    ensures OuterOk(cmp, s', lo, hi, i + 1, u)
  {
    RearrangedWider(s, s', l, i, l, u + 1);
    OuterRearranged(cmp, s, s', lo, hi, l, u);
    BelowRearranged(cmp, s, s', l, i, p);
    forall k | i <= k <= u ensures s'[k] == s[k] { RearrangedOutside(s, s', l, i, k); }
    hide Rearranged, WeakOrder;
    forall x, y | lo <= x < y <= hi && !(i + 1 <= x && y <= u)
      ensures Leq(cmp, s'[x], s'[y])
    {
      if l <= x < i <= y <= u { LeqTrans(cmp, s'[x], p, s'[y]); }
    }
  }

  lemma RightDone<T(!new)>(cmp: Cmp<T>, s: seq<T>, s': seq<T>, lo: int, hi: int, l: int, i: int, u: int, p: T)
    requires WeakOrder(cmp) && 0 <= lo <= l && u <= hi < |s|
    requires OuterOk(cmp, s, lo, hi, l, u) && Split(cmp, s, l, i, u, p)
    requires Rearranged(s, s', i + 1, u + 1) && SortedRange(cmp, s', i + 1, u + 1)
    ensures OuterOk(cmp, s', lo, hi, l, i - 1)
  {
    RearrangedWider(s, s', i + 1, u + 1, l, u + 1);
    OuterRearranged(cmp, s, s', lo, hi, l, u);
    AboveRearranged(cmp, s, s', i + 1, u + 1, p);
    forall k | l <= k <= i ensures s'[k] == s[k] { RearrangedOutside(s, s', i + 1, u + 1, k); }
    hide Rearranged, WeakOrder;
    forall x, y | lo <= x < y <= hi && !(l <= x && y <= i - 1)
      ensures Leq(cmp, s'[x], s'[y])
    {
      if l <= x <= i < y <= u { LeqTrans(cmp, s'[x], p, s'[y]); }
    }
  }

  lemma OuterDone<T(!new)>(cmp: Cmp<T>, s: seq<T>, lo: int, hi: int, l: int, u: int)
    requires OuterOk(cmp, s, lo, hi, l, u) && (l >= u || SortedRange(cmp, s, l, u + 1)) && 0 <= lo <= l && u <= hi
    ensures SortedRange(cmp, s, lo, hi + 1)
  {
  }

  // A run of the loop has rearranged lo..hi and left l..u to be sorted.
  ghost predicate Partly<T(!new)>(cmp: Cmp<T>, s: seq<T>, s': seq<T>, lo: int, hi: int, l: int, u: int) {
    Rearranged(s, s', lo, hi + 1) && (WeakOrder(cmp) ==> OuterOk(cmp, s', lo, hi, l, u))
  }

  lemma PartlyStart<T(!new)>(cmp: Cmp<T>, s: seq<T>, lo: int, hi: int)
    requires 0 <= lo <= hi + 1 <= |s|
    ensures Partly(cmp, s, s, lo, hi, lo, hi)
  {
    OuterStart(cmp, s, lo, hi);
  }

  lemma PartlyFacts<T(!new)>(cmp: Cmp<T>, s: seq<T>, s': seq<T>, lo: int, hi: int, l: int, u: int)
    requires Partly(cmp, s, s', lo, hi, l, u)
    ensures Rearranged(s, s', lo, hi + 1)
  {
  }

  lemma PartlyInner<T(!new)>(cmp: Cmp<T>, s: seq<T>, s1: seq<T>, s2: seq<T>, lo: int, hi: int, l: int, u: int)
    requires 0 <= lo <= l < u <= hi < |s1| && Partly(cmp, s, s1, lo, hi, l, u) && Rearranged(s1, s2, l, u + 1)
    ensures Partly(cmp, s, s2, lo, hi, l, u)
  {
    RearrangedWider(s1, s2, l, u + 1, lo, hi + 1);
    RearrangedTrans(s, s1, s2, lo, hi + 1);
    if WeakOrder(cmp) { OuterRearranged(cmp, s1, s2, lo, hi, l, u); }
  }

  lemma PartlyDone<T(!new)>(cmp: Cmp<T>, s: seq<T>, s': seq<T>, lo: int, hi: int, l: int, u: int)
    requires Partly(cmp, s, s', lo, hi, l, u) && 0 <= lo <= l && u <= hi
    ensures WeakOrder(cmp) && (l >= u || SortedRange(cmp, s', l, u + 1)) ==> SortedRange(cmp, s', lo, hi + 1)
  {
    if WeakOrder(cmp) && (l >= u || SortedRange(cmp, s', l, u + 1)) { OuterDone(cmp, s', lo, hi, l, u); }
  }

  lemma PartlyLeft<T(!new)>(cmp: Cmp<T>, s: seq<T>, s1: seq<T>, s2: seq<T>, lo: int, hi: int, l: int, i: int, u: int,
                     p: T)
    requires 0 <= lo <= l < i <= u <= hi < |s1| && Partly(cmp, s, s1, lo, hi, l, u) && Rearranged(s1, s2, l, i)
    requires WeakOrder(cmp) ==> Split(cmp, s1, l, i, u, p) && SortedRange(cmp, s2, l, i)
    ensures Partly(cmp, s, s2, lo, hi, i + 1, u)
  {
    RearrangedWider(s1, s2, l, i, lo, hi + 1);
    RearrangedTrans(s, s1, s2, lo, hi + 1);
    if WeakOrder(cmp) { LeftDone(cmp, s1, s2, lo, hi, l, i, u, p); }
  }

  lemma PartlyRight<T(!new)>(cmp: Cmp<T>, s: seq<T>, s1: seq<T>, s2: seq<T>, lo: int, hi: int, l: int, i: int, u: int,
                      p: T)
    requires 0 <= lo <= l < i <= u <= hi < |s1| && Partly(cmp, s, s1, lo, hi, l, u) && Rearranged(s1, s2, i + 1, u + 1)
    requires WeakOrder(cmp) ==> Split(cmp, s1, l, i, u, p) && SortedRange(cmp, s2, i + 1, u + 1)
    ensures Partly(cmp, s, s2, lo, hi, l, i - 1)
  {
    RearrangedWider(s1, s2, i + 1, u + 1, lo, hi + 1);
    RearrangedTrans(s, s1, s2, lo, hi + 1);
    if WeakOrder(cmp) { RightDone(cmp, s1, s2, lo, hi, l, i, u, p); }
  }

  // -- Sorting ---------------------------------------------------------------

  class Sorter<T(!new)> {
    const a: array<T>
    const cmp: Cmp<T>
    var calls: nat

    constructor (table: array<T>, comparator: Cmp<T>)
      ensures a == table && cmp == comparator && calls == 0
    {
      a, cmp, calls := table, comparator, 0;
    }

    method SortComp(x: T, y: T) returns (less: bool)
      modifies `calls
      ensures less == cmp(old(calls), x, y)
      ensures WeakOrder(cmp) ==> if less then Leq(cmp, x, y) && !Leq(cmp, y, x) else Leq(cmp, y, x)
    {
      if WeakOrder(cmp) { Answer(cmp, calls, x, y); }
      less := cmp(calls, x, y);
      calls := calls + 1;
    }

    method Set2(i: int, j: int, ghost lo: int, ghost hi: int)
      requires 0 <= lo <= i < hi <= a.Length && lo <= j < hi
      modifies a
      ensures a[..] == SwapAt(old(a[..]), i, j)
      ensures Rearranged(old(a[..]), a[..], lo, hi)
    {
      Swapped(a[..], i, j, lo, hi);
      a[i], a[j] := a[j], a[i];
    }

    // Sort a[l], a[(l + u) / 2] and a[u]; with more than three elements move the
    // middle one, the pivot, to u - 1.
    method Median(l: int, u: int) returns (p: T)
      requires 0 <= l < u < a.Length
      modifies a, `calls
      ensures Rearranged(old(a[..]), a[..], l, u + 1)
      ensures WeakOrder(cmp) && u - l <= 2 ==> SortedRange(cmp, a[..], l, u + 1)
      ensures u - l > 2 ==> p == a[..][u - 1]
      ensures WeakOrder(cmp) && u - l > 2 ==> PivotBetween(cmp, a[..], l, u, p)
    {
      hide *;
      ghost var s := a[..];
      MedianEnds(l, u);
      ghost var s1 := a[..];
      p := a[l];
      if u - l == 1 {
        Sorted2(cmp, s1, l);
        return;
      }
      var i := (l + u) / 2;
      MedianMid(l, u, i);
      ghost var s2 := a[..];
      RearrangedTrans(s, s1, s2, l, u + 1);
      if u - l == 2 {
        Sorted3(cmp, s2, l);
        return;
      }
      p := a[i];
      PivotPlaced(cmp, s2, l, i, u);
      Set2(i, u - 1, l, u + 1);
      RearrangedTrans(s, s2, a[..], l, u + 1);
    }

    // Swap a[l] and a[u] if need be.
    method MedianEnds(l: int, u: int)
      requires 0 <= l < u < a.Length
      modifies a, `calls
      ensures Rearranged(old(a[..]), a[..], l, u + 1)
      ensures WeakOrder(cmp) ==> Ordered(cmp, a[..], l, u)
    {
      hide *;
      ghost var s := a[..];
      RearrangedSelf(s, l, u + 1);
      OrderedSwap(cmp, s, l, u);
      var c := SortComp(a[u], a[l]);
      if c {
        Set2(l, u, l, u + 1);
      }
    }

    // Put a[i] between a[l] and a[u].
    method MedianMid(l: int, u: int, i: int)
      requires 0 <= l < i < u < a.Length
      modifies a, `calls
      ensures Rearranged(old(a[..]), a[..], l, u + 1)
      ensures WeakOrder(cmp) && Ordered(cmp, old(a[..]), l, u) ==> Ordered3(cmp, a[..], l, i, u)
    {
      hide *;
      ghost var s := a[..];
      RearrangedSelf(s, l, u + 1);
      MidCases(cmp, s, l, i, u);
      var c := SortComp(a[i], a[l]);
      if c {
        Set2(i, l, l, u + 1);
      } else {
        c := SortComp(a[u], a[i]);
        if c {
          Set2(i, u, l, u + 1);
        }
      }
    }

    // Repeat ++i until a[i] >= p.
    method ScanUp(i0: int, u: int, p: T) returns (ok: bool, i: int)
      requires 0 <= i0 < u < a.Length
      modifies `calls
      ensures i0 < i <= u
      ensures WeakOrder(cmp) ==> Below(cmp, a[..], i0 + 1, i, p)
      ensures WeakOrder(cmp) && ok ==> Leq(cmp, p, a[..][i])
      ensures WeakOrder(cmp) && i0 < u - 1 && a[..][u - 1] == p ==> ok && i < u
    {
      i := i0 + 1;
      while true
        invariant i0 < i <= u
        invariant WeakOrder(cmp) ==> Below(cmp, a[..], i0 + 1, i, p)
        invariant WeakOrder(cmp) && i0 < u - 1 && a[u - 1] == p ==> i < u
        decreases u - i
      {
        var less := SortComp(a[i], p);
        if !less {
          return true, i;
        }
        if i >= u {
          return false, i;
        }
        i := i + 1;
      }
    }

    // Repeat --j until a[j] <= p.
    method ScanDown(j0: int, l: int, p: T) returns (ok: bool, j: int)
      requires 0 <= l < j0 < a.Length
      modifies `calls
      ensures l <= j < j0
      ensures WeakOrder(cmp) ==> Above(cmp, a[..], j + 1, j0, p)
      ensures WeakOrder(cmp) && ok ==> Leq(cmp, a[..][j], p)
      ensures WeakOrder(cmp) && Leq(cmp, a[..][l], p) ==> ok
    {
      j := j0 - 1;
      while true
        invariant l <= j < j0
        invariant WeakOrder(cmp) ==> Above(cmp, a[..], j + 1, j0, p)
        decreases j
      {
        var less := SortComp(p, a[j]);
        if !less {
          return true, j;
        }
        if j <= l {
          return false, j;
        }
        j := j - 1;
      }
    }

    // Split a[l..u] around the pivot, which ends up at i.
    method Partition(l: int, u: int, p: T) returns (ok: bool, i: int)
      requires 0 <= l && l + 2 < u < a.Length && a[..][u - 1] == p
      modifies a, `calls
      ensures Rearranged(old(a[..]), a[..], l, u + 1) && l < i <= u
      ensures WeakOrder(cmp) && PivotBetween(cmp, old(a[..]), l, u, p) ==>
                ok && i < u && Split(cmp, a[..], l, i, u, p)
    {
      hide *;
      ghost var s := a[..];
      ghost var good := WeakOrder(cmp) && PivotBetween(cmp, s, l, u, p);
      RearrangedSelf(s, l, u + 1);
      if good { PivotSelf(cmp, s, l, u, p); }
      i := l;
      var j := u - 1;
      while true
        invariant l <= i <= j <= u - 1 && i < u - 1 && (i == l <==> j == u - 1)
        invariant Rearranged(s, a[..], l, u + 1) && a[..][u - 1] == p
        invariant good ==> Below(cmp, a[..], l, i + 1, p) && Above(cmp, a[..], j, u + 1, p)
        decreases j - i
      {
        ghost var s1, i0, j0 := a[..], i, j;
        ok, i := ScanUp(i, u, p);
        if !ok { return; }
        if good { BelowAt(cmp, s1, l, i0 + 1, p, l); }
        ok, j := ScanDown(j, l, p);
        if !ok { return; }
        if good { Extend(cmp, s1, l, u, i0, i, j0, j, p); }
        if j < i { break; }
        SwapSides(cmp, s1, l, u, i, j, p);
        Set2(i, j, l, u + 1);
        RearrangedTrans(s, s1, a[..], l, u + 1);
      }
      ghost var s1 := a[..];
      if good { PivotHome(cmp, s1, l, u, i, j, p); }
      Set2(u - 1, i, l, u + 1);
      RearrangedTrans(s, s1, a[..], l, u + 1);
    }

    // One round: either a[l..u] is sorted or it is split at i.
    method Divide(l: int, u: int, ghost s: seq<T>, ghost l0: int, ghost u0: int)
                  returns (done: bool, ok: bool, i: int, ghost p: T)
      requires 0 <= l0 <= l < u <= u0 < a.Length && Partly(cmp, s, a[..], l0, u0, l, u)
      modifies a, `calls
      ensures Partly(cmp, s, a[..], l0, u0, l, u)
      ensures done ==> ok && (WeakOrder(cmp) ==> SortedRange(cmp, a[..], l0, u0 + 1))
      ensures !done ==> l < i <= u && u - l > 2
      ensures !done && WeakOrder(cmp) ==> ok && Split(cmp, a[..], l, i, u, p)
    {
      hide *;
      ghost var s1 := a[..];
      var q := Median(l, u);
      p := q;
      ghost var s2 := a[..];
      PartlyInner(cmp, s, s1, s2, l0, u0, l, u);
      if u - l <= 2 {
        PartlyDone(cmp, s, s2, l0, u0, l, u);
        return true, true, l, p;
      }
      done := false;
      ok, i := Partition(l, u, q);
      PartlyInner(cmp, s, s2, a[..], l0, u0, l, u);
    }

    // Sort a[l0..u0]: recurse into the smaller part, loop on the larger one. Each
    // nested call has one level less of the budget, which is log2 of the length.
    method AuxSort(l0: int, u0: int, ghost budget: nat) returns (ok: bool)
      requires 0 <= l0 <= u0 + 1 <= a.Length && u0 - l0 + 1 < Pow2(budget + 1)
      modifies a, `calls
      ensures Rearranged(old(a[..]), a[..], l0, u0 + 1)
      ensures WeakOrder(cmp) ==> ok && SortedRange(cmp, a[..], l0, u0 + 1)
      decreases budget
    {
      hide *;
      ghost var s := a[..];
      PartlyStart(cmp, s, l0, u0);
      var l, u := l0, u0;
      while l < u
        invariant l0 <= l <= u + 1 && u <= u0
        invariant Partly(cmp, s, a[..], l0, u0, l, u)
        decreases u - l
      {
        ghost var p;
        var done, i;
        done, ok, i, p := Divide(l, u, s, l0, u0);
        ghost var s3 := a[..];
        PartlyFacts(cmp, s, s3, l0, u0, l, u);
        if done || !ok { return; }
        if i - l < u - i {
          HalfBudget(budget, i - l, u0 - l0 + 1);
          ok := AuxSort(l, i - 1, budget - 1);
          PartlyLeft(cmp, s, s3, a[..], l0, u0, l, i, u, p);
          l := i + 1;
        } else {
          HalfBudget(budget, u - i, u0 - l0 + 1);
          ok := AuxSort(i + 1, u, budget - 1);
          PartlyRight(cmp, s, s3, a[..], l0, u0, l, i, u, p);
          u := i - 1;
        }
        if !ok {
          PartlyFacts(cmp, s, a[..], l0, u0, l, u);
          return;
        }
      }
      PartlyDone(cmp, s, a[..], l0, u0, l, u);
      PartlyFacts(cmp, s, a[..], l0, u0, l, u);
      ok := true;
    }
  }

  // table.sort on a[1..n]: the table is rearranged and nothing else, sorted if
  // the comparator is an order. Calls nest within a budget of log2(n) levels.
  method TableSort<T(!new)>(a: array<T>, cmp: Cmp<T>) returns (ok: bool)
    requires a.Length > 0
    modifies a
    ensures Rearranged(old(a[..]), a[..], 1, a.Length)
    ensures WeakOrder(cmp) ==> ok && SortedRange(cmp, a[..], 1, a.Length)
  {
    var sorter := new Sorter(a, cmp);
    ok := sorter.AuxSort(1, a.Length - 1, Log2(a.Length - 1));
  }
}
