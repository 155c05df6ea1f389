// The searches of tmalloc_large and tmalloc_small of src/lj_alloc.c: the chunk
// they choose is a best fit among all chunks of the tree bins.
module AllocFit {
  import opened AllocRing
  import opened AllocBits
  import opened AllocTree
  import opened AllocUntree
  import opened AllocBins
  import opened AllocLinks

  // a - b in size_t
  function Minus(a: nat, b: nat): nat
    requires a < TWO64 && b <= TWO64
  {
    (a + TWO64 - b) % TWO64
  }

  // The choice so far: nothing yet, or a chunk of t that fits.
  ghost predicate Choice(t: Tree, sz: Links, nb: nat, v: nat, rsize: nat) {
    if v == 0 then rsize == TWO64 - nb else In(t, v) && At(sz, v) >= nb && rsize == At(sz, v) - nb
  }

  ghost predicate Sizes(t: Tree, sz: Links) { forall x :: In(t, x) ==> x != 0 && At(sz, x) < SIZE_LIMIT }

  // Every fitting chunk of t is in cur, or there is a better one chosen or in rst.
  ghost predicate Cover(t: Tree, cur: Tree, rst: Tree, sz: Links, nb: nat, v: nat) {
    forall x :: In(t, x) && At(sz, x) >= nb ==> CoverAt(cur, rst, sz, v, x)
  }

  ghost predicate CoverAt(cur: Tree, rst: Tree, sz: Links, v: nat, x: nat) {
    || (v != 0 && At(sz, v) <= At(sz, x))
    || In(cur, x)
    || (rst.Node? && forall y :: In(rst, y) ==> At(sz, y) <= At(sz, x))
    || In(rst, x)
  }

  ghost predicate Within(a: Tree, t: Tree) { forall x :: In(a, x) ==> In(t, x) }

  // All of a is smaller than all of b.
  ghost predicate Below(a: Tree, b: Tree, sz: Links) { forall x, y :: In(a, x) && In(b, y) ==> At(sz, x) < At(sz, y) }

  ghost predicate AtLeast(t: Tree, sz: Links, nb: nat) { forall x :: In(t, x) ==> At(sz, x) >= nb }

  ghost predicate Trie(t: Tree, sz: Links) { exists k: int, pre: nat :: TrieOk(t, sz, k, pre) }

  // The walk along the bits of nb: cur has them above bit kk in common.
  ghost predicate Walk(t: Tree, cur: Tree, rst: Tree, sz: Links, nb: nat, kk: int, pre: nat, v: nat, rsize: nat) {
    && Within(cur, t) && Within(rst, t) && Choice(t, sz, nb, v, rsize)
    && TrieOk(cur, sz, kk, pre) && kk >= -1 && Trie(rst, sz)
    && (nb < SIZE_LIMIT ==> Shr(nb, kk + 1) == pre && AtLeast(rst, sz, nb) && Below(cur, rst, sz)
                            && Cover(t, cur, rst, sz, nb, v))
  }

  // Bits decide on which side nb itself would be.
  lemma SideOfBit(cur: Tree, sz: Links, nb: nat, kk: int, pre: nat, x: nat)
    requires cur.Node? && TrieOk(cur, sz, kk, pre) && kk >= 0 && Shr(nb, kk + 1) == pre
    ensures Bit(nb, kk) == 1 && In(cur.left, x) ==> At(sz, x) < nb
    ensures Bit(nb, kk) == 0 && In(cur.right, x) ==> At(sz, x) > nb
  {
    assert Shr(nb, kk + 1) == Shr(nb, kk) / 2;
    if In(cur.left, x) {
      MemberPrefix(cur.left, sz, kk - 1, 2 * pre, x);
      if At(sz, x) >= nb { ShrMono(nb, At(sz, x), kk); }
    }
    if In(cur.right, x) {
      MemberPrefix(cur.right, sz, kk - 1, 2 * pre + 1, x);
      if At(sz, x) <= nb { ShrMono(At(sz, x), nb, kk); }
    }
  }

  // Looking at the first chunk c of a ring.
  lemma Look(t: Tree, sz: Links, nb: nat, v: nat, rsize: nat, c: nat)
    requires Choice(t, sz, nb, v, rsize) && In(t, c) && Sizes(t, sz) && 0 < nb < TWO64
    ensures var trem := Minus(At(sz, c), nb);
            && (trem < rsize <==> At(sz, c) >= nb && (v == 0 || At(sz, c) < At(sz, v)))
            && (trem < rsize ==> Choice(t, sz, nb, c, trem))
            && (trem == 0 <==> At(sz, c) == nb)
  {
  }

  // One step of the first loop of tmalloc_large, at a node with children.
  lemma WalkDown(t: Tree, cur: Tree, rst: Tree, sz: Links, nb: nat, kk: int, pre: nat, v0: nat, r0: nat, v: nat,
                 rsize: nat)
    requires Walk(t, cur, rst, sz, nb, kk, pre, v0, r0) && cur.Node? && kk >= 0 && Choice(t, sz, nb, v, rsize)
    requires At(sz, cur.ring[0]) >= nb ==> v != 0 && At(sz, v) <= At(sz, cur.ring[0])
    requires v0 != 0 ==> v != 0 && At(sz, v) <= At(sz, v0)
    ensures var right := Bit(nb, kk) == 1;
            Walk(t, if right then cur.right else cur.left, if !right && cur.right.Node? then cur.right else rst, sz, nb,
              kk - 1,
                 if right then 2 * pre + 1 else 2 * pre, v, rsize)
  {
    var right := Bit(nb, kk) == 1;
    var cur', rst' := if right then cur.right else cur.left, if !right && cur.right.Node? then cur.right else rst;
    assert TrieOk(cur.left, sz, kk - 1, 2 * pre) && TrieOk(cur.right, sz, kk - 1, 2 * pre + 1);
    if nb < SIZE_LIMIT {
      assert Shr(nb, kk + 1) == Shr(nb, kk) / 2;
      NewRest(cur, rst, sz, nb, kk, pre);
      forall x | In(t, x) && At(sz, x) >= nb
        ensures CoverAt(cur', rst', sz, v, x)
      {
        assert CoverAt(cur, rst, sz, v0, x);
        if !(v0 != 0 && At(sz, v0) <= At(sz, x)) {
          if In(cur, x) { StillIn(cur, rst, sz, nb, kk, pre, v, x); }
            else if !right && cur.right.Node? { RestAbove(cur, rst, sz, x); }
        }
      }
    }
  }

  lemma StillIn(cur: Tree, rst: Tree, sz: Links, nb: nat, kk: int, pre: nat, v: nat, x: nat)
    requires In(cur, x) && cur.Node? && TrieOk(cur, sz, kk, pre) && kk >= 0 && Shr(nb, kk + 1) == pre && At(sz, x) >= nb
    requires At(sz, cur.ring[0]) >= nb ==> v != 0 && At(sz, v) <= At(sz, cur.ring[0])
    ensures var right := Bit(nb, kk) == 1;
            CoverAt(if right then cur.right else cur.left, if !right && cur.right.Node? then cur.right else rst, sz, v,
              x)
  {
    if x in cur.ring {
      assert At(sz, x) == At(sz, cur.ring[0]);
    } else {
      SideOfBit(cur, sz, nb, kk, pre, x);
    }
  }

  lemma NewRest(cur: Tree, rst: Tree, sz: Links, nb: nat, kk: int, pre: nat)
    requires cur.Node? && TrieOk(cur, sz, kk, pre) && kk >= 0 && Shr(nb, kk + 1) == pre && AtLeast(rst, sz, nb)
             && Below(cur, rst, sz)
    ensures var right := Bit(nb, kk) == 1;
            var cur', rst' := if right then cur.right else cur.left, if !right && cur.right.Node? then cur.right
              else rst;
            AtLeast(rst', sz, nb) && Below(cur', rst', sz)
  {
    forall x | In(cur.right, x) && Bit(nb, kk) == 0 ensures At(sz, x) >= nb { SideOfBit(cur, sz, nb, kk, pre, x); }
    forall x, y | In(cur.left, x) && In(cur.right, y)
      ensures At(sz, x) < At(sz, y)
    {
      LeftSmaller(cur, sz, kk, pre, x, y);
    }
  }

  // A chunk covered by the old rst is covered by a newer one from inside cur.
  lemma RestAbove(cur: Tree, rst: Tree, sz: Links, x: nat)
    requires cur.Node? && Below(cur, rst, sz) && rst.Node? && Trie(rst, sz)
    requires In(rst, x) || forall y :: In(rst, y) ==> At(sz, y) <= At(sz, x)
    ensures forall y :: In(cur.right, y) ==> At(sz, y) <= At(sz, x)
  {
    assert In(rst, rst.ring[0]);
    forall y | In(cur.right, y) ensures At(sz, y) <= At(sz, x) { assert In(cur, y); }
  }

  // -- The leftmost descent --------------------------------------------------

  // Nothing smaller outside cur, whose chunks all fit.
  ghost predicate Descent(t: Tree, cur: Tree, sz: Links, nb: nat, v: nat, rsize: nat) {
    && Within(cur, t) && Choice(t, sz, nb, v, rsize) && Trie(cur, sz)
    && (nb < SIZE_LIMIT ==> Cover(t, cur, cur, sz, nb, v) && ((v != 0 && rsize == 0) || AtLeast(cur, sz, nb)))
  }

  lemma DescentStep(t: Tree, cur: Tree, sz: Links, nb: nat, v0: nat, r0: nat, v: nat, rsize: nat)
    requires Descent(t, cur, sz, nb, v0, r0) && cur.Node? && Choice(t, sz, nb, v, rsize) && |cur.ring| > 0
    requires At(sz, cur.ring[0]) >= nb ==> v != 0 && At(sz, v) <= At(sz, cur.ring[0])
    requires v0 != 0 ==> v != 0 && At(sz, v) <= At(sz, v0)
    ensures Descent(t, if cur.left.Node? then cur.left else cur.right, sz, nb, v, rsize)
  {
    var k: int, pre: nat :| TrieOk(cur, sz, k, pre);
    assert TrieOk(cur.left, sz, k - 1, 2 * pre) && TrieOk(cur.right, sz, k - 1, 2 * pre + 1);
    var cur' := if cur.left.Node? then cur.left else cur.right;
    assert In(cur, cur.ring[0]);
    if nb < SIZE_LIMIT {
      forall x | In(t, x) && At(sz, x) >= nb
        ensures CoverAt(cur', cur', sz, v, x)
      {
        assert CoverAt(cur, cur, sz, v0, x);
        if !(v0 != 0 && At(sz, v0) <= At(sz, x)) {
          assert AtLeast(cur, sz, nb);
          if In(cur, x) { StillLow(cur, sz, k, pre, v, x); }
            else if cur'.Node? { assert forall y :: In(cur', y) ==> In(cur, y); }
        }
      }
    }
  }

  lemma StillLow(cur: Tree, sz: Links, k: int, pre: nat, v: nat, x: nat)
    requires In(cur, x) && TrieOk(cur, sz, k, pre) && v != 0 && At(sz, v) <= At(sz, cur.ring[0])
    ensures var cur' := if cur.left.Node? then cur.left else cur.right;
            CoverAt(cur', cur', sz, v, x)
  {
    if x in cur.ring {
      assert At(sz, x) == At(sz, cur.ring[0]);
    } else if cur.left.Node? && !In(cur.left, x) {
      forall y | In(cur.left, y) ensures At(sz, y) <= At(sz, x) { LeftSmaller(cur, sz, k, pre, y, x); }
    }
  }

  lemma DescentDone(t: Tree, sz: Links, nb: nat, v: nat, rsize: nat)
    requires Descent(t, Nil, sz, nb, v, rsize) && Sizes(t, sz)
    ensures forall x :: In(t, x) && At(sz, x) >= nb ==> v != 0 && At(sz, v) <= At(sz, x)
  {
    forall x | In(t, x) && At(sz, x) >= nb
      ensures v != 0 && At(sz, v) <= At(sz, x)
    {
      assert CoverAt(Nil, Nil, sz, v, x);
    }
  }

  // -- The searches ----------------------------------------------------------

  // A large chunk of the tree bins that holds nb bytes.
  ghost predicate Fits(b: Bins, sz: Links, nb: nat, x: nat)
    requires |b.small| == NSMALLBINS && |b.trees| == NTREEBINS
    reads b
  {
    b.Has(sz, x) && !IsSmall(At(sz, x)) && At(sz, x) >= nb
  }

  lemma BinTree(bv: BV, base: nat, sz: Links, i: nat)
    requires BinsOk(bv, base, sz) && i < NTREEBINS
    ensures Rep(bv.trees[i], bv.m, bv.treebins[i], TreeBin(base, i))
            && TrieOk(bv.trees[i], sz, RootBit(i), BinPrefix(i))
    ensures Sizes(bv.trees[i], sz) && (i in bv.treemap <==> bv.trees[i].Node?)
    ensures forall x :: In(bv.trees[i], x) ==> LargeSize(At(sz, x)) && TreeIndex(At(sz, x)) == i && Binned(bv, sz, x)
                                               && !IsSmall(At(sz, x))
    ensures bv.trees[i].Node? <==> bv.treebins[i] != 0
  {
    assert TreeOk(bv, base, sz, i);
    NoZero(bv.trees[i], bv.m, bv.treebins[i], TreeBin(base, i));
    forall x | In(bv.trees[i], x)
      ensures LargeMember(bv, base, sz, i, x) && Binned(bv, sz, x)
    {
      LargeIsBinned(bv, base, sz, i, x);
    }
    if bv.trees[i].Node? { RootParent(bv.trees[i], bv.m, bv.treebins[i], TreeBin(base, i)); }
  }

  // What a loop sees at the node t of cur.
  lemma NodeSeen(cur: Tree, m: Mem, t: nat, above: nat)
    requires Rep(cur, m, t, above) && cur.Node?
    ensures t != 0 && |cur.ring| > 0 && cur.ring[0] == t && In(cur, t)
    ensures (At(m.c0, t) != 0 <==> cur.left.Node?) && (At(m.c1, t) != 0 <==> cur.right.Node?)
    ensures Rep(cur.left, m, At(m.c0, t), t) && Rep(cur.right, m, At(m.c1, t), t)
  {
    LeafStep(cur, m, t, above);
    assert t in cur.ring;
  }

  // The smallest chunk of the subtree cur of t, or the choice made before.
  method Leftmost(b: Bins, size: Links, nb: nat, ghost t: Tree, ghost start: Tree, p: nat, ghost up: nat, v0: nat,
                  r0: nat)
    returns (v: nat, rsize: nat)
    requires 0 < nb < TWO64 && Rep(start, b.M(), p, up) && Descent(t, start, size, nb, v0, r0) && Sizes(t, size)
    ensures Choice(t, size, nb, v, rsize)
    ensures forall x :: In(t, x) && At(size, x) >= nb ==> v != 0 && At(size, v) <= At(size, x)
  {
    ghost var m := b.M();
    v, rsize := v0, r0;
    var n: nat := p;
    ghost var cur, above: nat := start, up;
    while n != 0
      invariant Rep(cur, m, n, above) && (n != 0 <==> cur.Node?)
      invariant Descent(t, cur, size, nb, v, rsize)
      decreases cur
    {
      NodeSeen(cur, m, n, above);
      Look(t, size, nb, v, rsize, n);
      ghost var v1, r1 := v, rsize;
      var trem := Minus(At(size, n), nb);
      if trem < rsize {
        rsize := trem;
        v := n;
      }
      DescentStep(t, cur, size, nb, v1, r1, v, rsize);
      var next: nat := if At(b.c0, n) != 0 then At(b.c0, n) else At(b.c1, n);
      above, cur := n, if cur.left.Node? then cur.left else cur.right;
      n := next;
    }
    DescentDone(t, size, nb, v, rsize);
  }

  // A size outside the chunk sizes fits nowhere.
  lemma WalkStart(t: Tree, sz: Links, nb: nat, i: nat)
    requires TrieOk(t, sz, RootBit(i), BinPrefix(i)) && i < NTREEBINS && MIN_LARGE_SIZE <= nb < TWO64
             && i == TreeIndex(nb)
    ensures Walk(t, t, Nil, sz, nb, RootBit(i), BinPrefix(i), 0, TWO64 - nb)
  {
    if nb < SIZE_LIMIT { BinShares(nb); }
    assert TrieOk(Nil, sz, 0, 0);
  }

  // At a node without children on the bit side the walk is over.
  lemma WalkEnd(t: Tree, cur: Tree, rst: Tree, sz: Links, nb: nat, kk: int, pre: nat, v: nat, rsize: nat)
    requires Walk(t, cur, rst, sz, nb, kk, pre, v, rsize)
    requires cur.Nil? || (v != 0 && rsize == 0)
    ensures Descent(t, if cur.Nil? then rst else cur, sz, nb, v, rsize)
  {
    if cur.Nil? && nb < SIZE_LIMIT {
      forall x | In(t, x) && At(sz, x) >= nb
        ensures CoverAt(rst, rst, sz, v, x)
      {
        assert CoverAt(cur, rst, sz, v, x);
      }
    } else if nb < SIZE_LIMIT {
      forall x | In(t, x) && At(sz, x) >= nb
        ensures CoverAt(cur, cur, sz, v, x)
      {
      }
    }
  }

  // Below the last bit there is nothing.
  lemma WalkBottom(t: Tree, cur: Tree, rst: Tree, sz: Links, nb: nat, pre: nat, v0: nat, r0: nat, v: nat, rsize: nat)
    requires Walk(t, cur, rst, sz, nb, -1, pre, v0, r0) && cur.Node? && Choice(t, sz, nb, v, rsize)
    requires At(sz, cur.ring[0]) >= nb ==> v != 0 && At(sz, v) <= At(sz, cur.ring[0])
    requires v0 != 0 ==> v != 0 && At(sz, v) <= At(sz, v0)
    ensures cur.left.Nil? && cur.right.Nil? && Walk(t, Nil, rst, sz, nb, -1, pre, v, rsize)
  {
    if nb < SIZE_LIMIT {
      forall x | In(t, x) && At(sz, x) >= nb
        ensures CoverAt(Nil, rst, sz, v, x)
      {
        assert CoverAt(cur, rst, sz, v0, x);
        if x in cur.ring { assert At(sz, x) == At(sz, cur.ring[0]); }
      }
    }
  }

  // The bit looked at and the bits in common, one node down.
  function Down(kk: int): int { if kk >= 0 then kk - 1 else kk }

  function Pushed(pre: nat, kk: int, right: bool): nat {
    if kk < 0 then pre else if right then 2 * pre + 1 else 2 * pre
  }

  lemma WalkOn(t: Tree, cur: Tree, rst: Tree, sz: Links, nb: nat, kk: int, pre: nat, v0: nat, r0: nat, v: nat,
               rsize: nat, right: bool)
    requires Walk(t, cur, rst, sz, nb, kk, pre, v0, r0) && cur.Node? && kk >= -1 && Choice(t, sz, nb, v, rsize)
    requires At(sz, cur.ring[0]) >= nb ==> v != 0 && At(sz, v) <= At(sz, cur.ring[0])
    requires v0 != 0 ==> v != 0 && At(sz, v) <= At(sz, v0)
    requires kk >= 0 ==> (right <==> Bit(nb, kk) == 1)
    ensures var next, rst' := if right then cur.right else cur.left, if !right && cur.right.Node? then cur.right
            else rst;
            Walk(t, next, rst', sz, nb, Down(kk), Pushed(pre, kk, right), v, rsize)
  {
    if kk >= 0 {
      WalkDown(t, cur, rst, sz, nb, kk, pre, v0, r0, v, rsize);
    } else {
      WalkBottom(t, cur, rst, sz, nb, pre, v0, r0, v, rsize);
    }
    hide Walk, Choice;
  }

  // The first loop of tmalloc_large, in the bin of nb: afterwards only the
  // subtree at p may hold something better than v.
  method SearchBin(b: Bins, size: Links, nb: nat, i: nat)
                   returns (p: nat, v: nat, rsize: nat, ghost rest: Tree, ghost up: nat)
    requires |b.trees| == |b.treebins| == NTREEBINS && b.Valid(size) && i == TreeIndex(nb)
             && MIN_LARGE_SIZE <= nb < TWO64
    requires b.treebins[i] != 0
    ensures Rep(rest, b.M(), p, up) && Descent(b.trees[i], rest, size, nb, v, rsize)
  {
    ghost var m, t := b.M(), b.trees[i];
    BinTree(b.V(), b.base, size, i);
    WalkStart(t, size, nb, i);
    v, rsize := 0, TWO64 - nb;
    p := b.treebins[i];
    ghost var cur, above: nat, kk: int, pre: nat := t, TreeBin(b.base, i), RootBit(i), BinPrefix(i);
    var rst: nat := 0;
    rest, up := Nil, 0;
    RootShift(i);
    var bits := ShlBy(nb, LeftShift(i));
    hide BinsOk, TrieOk, Rep, Walk, Descent, Choice, Sizes, ShlBy, Shl, Bit, LeftShift, Trie, RootBit, BinPrefix,
      Minus, TreeIndex, Pushed, Down;
    while true
      invariant cur.Node? && Rep(cur, m, p, above) && Walk(t, cur, rest, size, nb, kk, pre, v, rsize) && Sizes(t, size)
      invariant Rep(rest, m, rst, up) && Choice(t, size, nb, v, rsize)
      invariant -1 <= kk <= 63 && (kk >= 0 ==> bits == ShlBy(nb, 63 - kk))
      decreases cur
    {
      NodeSeen(cur, m, p, above);
      WalkIn(t, cur, rest, size, nb, kk, pre, v, rsize, p);
      Look(t, size, nb, v, rsize, p);
      ghost var v1, r1 := v, rsize;
      var trem := Minus(At(size, p), nb);
      if trem < rsize {
        v := p;
        rsize := trem;
        if rsize == 0 {
          WalkExact(t, cur, rest, size, nb, kk, pre, v1, r1, v, rsize);
          rest, up := cur, above;
          return;
        }
      }
      LookKept(t, size, nb, v1, r1, v, rsize, p);
      KidsApart(cur, m, size, kk, pre, p, above);
      var rt: nat := At(b.c1, p);
      var right := Bit(bits, 63) == 1;
      var next: nat := if right then At(b.c1, p) else At(b.c0, p);
      if kk >= 0 { ShiftOn(nb, bits, kk); }
      WalkOn(t, cur, rest, size, nb, kk, pre, v1, r1, v, rsize, right);
      if rt != 0 && rt != next {
        rst := rt;
        rest, up := cur.right, p;
      }
      cur := if right then cur.right else cur.left;
      kk, pre := Down(kk), Pushed(pre, kk, right);
      if next == 0 {
        WalkEnd(t, cur, rest, size, nb, kk, pre, v, rsize);
        p := rst;
        return;
      }
      above := p;
      p := next;
      bits := Shl(bits);
    }
  }

  lemma ShiftOn(nb: nat, bits: nat, kk: int)
    requires 0 <= kk <= 63 && nb < TWO64 && bits == ShlBy(nb, 63 - kk)
    ensures Bit(bits, 63) == Bit(nb, kk)
    ensures -1 <= Down(kk) < 63 && (Down(kk) >= 0 ==> Shl(bits) == ShlBy(nb, 63 - Down(kk)))
  {
    ShiftTests(nb, kk);
    NextShift(nb, kk);
  }

  lemma WalkIn(t: Tree, cur: Tree, rst: Tree, sz: Links, nb: nat, kk: int, pre: nat, v: nat, rsize: nat, p: nat)
    requires Walk(t, cur, rst, sz, nb, kk, pre, v, rsize) && In(cur, p)
    ensures In(t, p) && kk >= -1 && TrieOk(cur, sz, kk, pre)
  {
  }

  lemma WalkExact(t: Tree, cur: Tree, rst: Tree, sz: Links, nb: nat, kk: int, pre: nat, v0: nat, r0: nat, v: nat,
                  rsize: nat)
    requires Walk(t, cur, rst, sz, nb, kk, pre, v0, r0) && Choice(t, sz, nb, v, rsize) && v != 0 && rsize == 0
    ensures Descent(t, cur, sz, nb, v, rsize)
  {
    forall x | In(t, x) && At(sz, x) >= nb ensures CoverAt(cur, cur, sz, v, x) { }
    assert Trie(cur, sz);
  }

  lemma LookKept(t: Tree, sz: Links, nb: nat, v0: nat, r0: nat, v: nat, rsize: nat, c: nat)
    requires Choice(t, sz, nb, v0, r0) && In(t, c) && Sizes(t, sz) && 0 < nb < TWO64
    requires var trem := Minus(At(sz, c), nb); if trem < r0 then v == c && rsize == trem else v == v0 && rsize == r0
    ensures At(sz, c) >= nb ==> v != 0 && At(sz, v) <= At(sz, c)
    ensures v0 != 0 ==> v != 0 && At(sz, v) <= At(sz, v0)
  {
  }

  lemma KidsApart(cur: Tree, m: Mem, sz: Links, kk: int, pre: nat, t: nat, above: nat)
    requires cur.Node? && Rep(cur, m, t, above) && TrieOk(cur, sz, kk, pre)
    ensures At(m.c1, t) != 0 ==> At(m.c0, t) != At(m.c1, t)
    ensures kk == -1 ==> cur.left.Nil? && cur.right.Nil?
    ensures kk >= -1
  {
    ChildIn(cur, m, t, above);
    NoZero(cur, m, t, above);
    if At(m.c1, t) != 0 { Apart(cur, sz, kk, pre, At(m.c1, t)); }
  }

  // The lowest marked bin from bin i on.
  function FirstFrom(marked: set<nat>, i: nat): (r: nat)
    requires i <= NTREEBINS
    ensures i <= r <= NTREEBINS && (r < NTREEBINS ==> r in marked)
    ensures forall j :: i <= j < r ==> j !in marked
    decreases NTREEBINS - i
  {
    if i == NTREEBINS || i in marked then i else FirstFrom(marked, i + 1)
  }

  // A bin past that of nb holds only larger chunks, one before it only smaller ones.
  lemma PastBin(bv: BV, base: nat, sz: Links, nb: nat, j: nat, x: nat)
    requires BinsOk(bv, base, sz) && j < NTREEBINS && In(bv.trees[j], x) && MIN_LARGE_SIZE <= nb < SIZE_LIMIT
    ensures j > TreeIndex(nb) ==> At(sz, x) > nb
    ensures j < TreeIndex(nb) ==> At(sz, x) < nb
  {
    BinTree(bv, base, sz, j);
    if At(sz, x) <= nb { IndexMono(At(sz, x), nb); }
    if At(sz, x) >= nb { IndexMono(nb, At(sz, x)); }
  }

  lemma LaterLarger(bv: BV, base: nat, sz: Links, i: nat, j: nat, v: nat, x: nat)
    requires BinsOk(bv, base, sz) && i < j < NTREEBINS && In(bv.trees[i], v) && In(bv.trees[j], x)
    ensures At(sz, v) < At(sz, x)
  {
    BinTree(bv, base, sz, i);
    BinTree(bv, base, sz, j);
    if At(sz, x) <= At(sz, v) { IndexMono(At(sz, x), At(sz, v)); }
  }

  ghost predicate BestIn(t: Tree, sz: Links, nb: nat, v: nat) {
    forall x :: In(t, x) && At(sz, x) >= nb ==> v != 0 && At(sz, v) <= At(sz, x)
  }

  ghost predicate NoFit(t: Tree, sz: Links, nb: nat) { forall x :: In(t, x) ==> At(sz, x) < nb }

  // The best of bin i is the best of all when nothing between the bin of nb and i fits.
  lemma BestOfAll(bv: BV, base: nat, sz: Links, nb: nat, i: nat, v: nat, x: nat)
    requires BinsOk(bv, base, sz) && MIN_LARGE_SIZE <= nb && TreeIndex(nb) <= i < NTREEBINS
    requires BestIn(bv.trees[i], sz, nb, v) && (v != 0 ==> In(bv.trees[i], v) && At(sz, v) >= nb)
    requires forall j :: TreeIndex(nb) <= j < i ==> NoFit(bv.trees[j], sz, nb)
    requires v == 0 && nb < SIZE_LIMIT ==> forall j :: i < j < NTREEBINS ==> bv.trees[j].Nil?
    requires Binned(bv, sz, x) && !IsSmall(At(sz, x)) && At(sz, x) >= nb
    ensures v != 0 && At(sz, v) <= At(sz, x)
  {
    BinnedMember(bv, base, sz, x);
    var j := TreeIndex(At(sz, x));
    PastBin(bv, base, sz, nb, j, x);
    var t := bv.trees[j];
    assert TreeIndex(nb) <= j < i ==> NoFit(t, sz, nb);
    if j > i && v != 0 { LaterLarger(bv, base, sz, i, j, v, x); }
  }

  lemma FreshStart(t: Tree, sz: Links, nb: nat)
    requires Trie(t, sz) && nb < TWO64 && (nb < SIZE_LIMIT ==> AtLeast(t, sz, nb))
    ensures Descent(t, t, sz, nb, 0, TWO64 - nb)
  {
    forall x | In(t, x) && At(sz, x) >= nb ensures CoverAt(t, t, sz, 0, x) { }
  }

  lemma RestFits(t: Tree, rest: Tree, sz: Links, nb: nat, v: nat, rsize: nat)
    requires Descent(t, rest, sz, nb, v, rsize) && Sizes(t, sz) && nb < SIZE_LIMIT
    ensures rest.Node? && v == 0 ==> exists x :: In(t, x) && At(sz, x) >= nb
  {
    if rest.Node? && v == 0 {
      var k: int, pre: nat :| TrieOk(rest, sz, k, pre);
      assert In(rest, rest.ring[0]);
    }
  }

  lemma NilDone(t: Tree, m: Mem, sz: Links, nb: nat)
    requires t.Nil? && nb < TWO64
    ensures Rep(Nil, m, 0, 0) && Descent(t, Nil, sz, nb, 0, TWO64 - nb)
  {
    assert TrieOk(Nil, sz, 0, 0);
  }

  lemma NothingHere(t: Tree, rest: Tree, m: Mem, sz: Links, nb: nat, up: nat, rsize: nat)
    requires Rep(rest, m, 0, up) && Descent(t, rest, sz, nb, 0, rsize) && Sizes(t, sz)
    ensures NoFit(t, sz, nb) && rsize == TWO64 - nb
  {
    forall x | In(t, x)
      ensures At(sz, x) < nb
    {
      NotCovered(rest, sz, x);
    }
  }

  lemma NotCovered(rest: Tree, sz: Links, x: nat)
    requires rest.Nil?
    ensures !CoverAt(rest, rest, sz, 0, x)
  {
  }

  lemma NextBin(bv: BV, base: nat, sz: Links, nb: nat, i: nat)
    requires BinsOk(bv, base, sz) && TreeIndex(nb) < i < NTREEBINS && MIN_LARGE_SIZE <= nb < TWO64
    ensures Rep(bv.trees[i], bv.m, bv.treebins[i], TreeBin(base, i))
            && Descent(bv.trees[i], bv.trees[i], sz, nb, 0, TWO64 - nb)
  {
    BinTree(bv, base, sz, i);
    if nb < SIZE_LIMIT { forall x | In(bv.trees[i], x) ensures At(sz, x) >= nb { PastBin(bv, base, sz, nb, i, x); } }
    FreshStart(bv.trees[i], sz, nb);
  }

  lemma StillFits(t: Tree, rest: Tree, m: Mem, p: nat, up: nat, sz: Links, nb: nat, v: nat, rsize: nat)
    requires Rep(rest, m, p, up) && Descent(t, rest, sz, nb, v, rsize) && Sizes(t, sz)
    ensures v != 0 || (p != 0 && nb < SIZE_LIMIT) ==> exists x :: In(t, x) && At(sz, x) >= nb
  {
    if v == 0 && p != 0 && nb < SIZE_LIMIT { RestFits(t, rest, sz, nb, v, rsize); }
  }

  lemma Chosen(bv: BV, base: nat, sz: Links, nb: nat, i: nat, v: nat, rsize: nat)
    requires BinsOk(bv, base, sz) && i < NTREEBINS && Choice(bv.trees[i], sz, nb, v, rsize)
    ensures if v == 0 then rsize == TWO64 - nb
            else In(bv.trees[i], v) && Binned(bv, sz, v) && !IsSmall(At(sz, v)) && At(sz, v) >= nb
                 && rsize == At(sz, v) - nb
  {
    BinTree(bv, base, sz, i);
  }

  lemma Emptied(bv: BV, base: nat, sz: Links, nb: nat, i: nat, next: nat, j: nat)
    requires BinsOk(bv, base, sz) && i < j < next <= NTREEBINS && j !in bv.treemap
    ensures bv.trees[j].Nil? && NoFit(bv.trees[j], sz, nb)
  {
    BinTree(bv, base, sz, j);
  }

  // Past the bin of nb: the root of the next marked bin, if any.
  method NextMarked(b: Bins, size: Links, nb: nat, idx: nat)
                    returns (t: nat, ghost i: nat, ghost rest: Tree, ghost up: nat)
    requires |b.small| == NSMALLBINS && |b.trees| == |b.treebins| == NTREEBINS && b.Valid(size)
             && MIN_LARGE_SIZE <= nb < TWO64
    requires idx == TreeIndex(nb) && NoFit(b.trees[idx], size, nb)
    ensures idx <= i < NTREEBINS && Rep(rest, b.M(), t, up) && Descent(b.trees[i], rest, size, nb, 0, TWO64 - nb)
    ensures forall j :: idx <= j < i ==> NoFit(b.trees[j], size, nb)
    ensures t == 0 && nb < SIZE_LIMIT ==> forall j :: i < j < NTREEBINS ==> b.trees[j].Nil?
  {
    ghost var bv, base := b.V(), b.base;
    var next := FirstFrom(b.treemap, idx + 1);
    BinTree(bv, base, size, idx);
    hide BinsOk, Descent, Rep, TrieOk, NoFit, Cover, AtLeast;
    t := 0;
    i, rest, up := idx, Nil, 0;
    forall j | idx < j < next
      ensures NoFit(b.trees[j], size, nb) && b.trees[j].Nil?
    {
      Emptied(bv, base, size, nb, idx, next, j);
    }
    if next < NTREEBINS {
      t := b.treebins[next];
      i := next;
      rest, up := b.trees[i], TreeBin(base, i);
      NextBin(bv, base, size, nb, i);
      BinTree(bv, base, size, i);
    } else {
      NoneLeft(b.trees[idx], b.M(), size, nb);
    }
  }

  lemma NoneLeft(t: Tree, m: Mem, sz: Links, nb: nat)
    requires NoFit(t, sz, nb) && nb < TWO64
    ensures Rep(Nil, m, 0, 0) && Descent(t, Nil, sz, nb, 0, TWO64 - nb)
  {
    assert TrieOk(Nil, sz, 0, 0);
  }

  // The search of tmalloc_large: a best fit among the chunks of the tree bins.
  method TmallocLargeFit(b: Bins, size: Links, nb: nat) returns (v: nat, rsize: nat)
    requires |b.small| == NSMALLBINS && |b.trees| == |b.treebins| == NTREEBINS && b.Valid(size)
             && MIN_LARGE_SIZE <= nb < TWO64
    ensures if v == 0 then rsize == TWO64 - nb else Fits(b, size, nb, v) && rsize == At(size, v) - nb
    ensures forall x :: Fits(b, size, nb, x) ==> v != 0 && At(size, v) <= At(size, x)
  {
    ghost var bv, base := b.V(), b.base;
    var idx := TreeIndex(nb);
    BinTree(bv, base, size, idx);
    hide BinsOk, Descent, Choice, Sizes, Rep, TrieOk, NoFit, AtLeast;
    var t: nat := 0;
    v, rsize := 0, TWO64 - nb;
    ghost var i, rest, up: nat := idx, Nil, 0;
    if b.treebins[idx] != 0 {
      t, v, rsize, rest, up := SearchBin(b, size, nb, idx);
    } else {
      NilDone(b.trees[idx], b.M(), size, nb);
    }
    if t == 0 && v == 0 {
      NothingHere(b.trees[idx], rest, b.M(), size, nb, up, rsize);
      t, i, rest, up := NextMarked(b, size, nb, idx);
    }
    BinTree(bv, base, size, i);
    StillFits(b.trees[i], rest, b.M(), t, up, size, nb, v, rsize);
    v, rsize := Leftmost(b, size, nb, b.trees[i], rest, t, up, v, rsize);
    Chosen(bv, base, size, nb, i, v, rsize);
    forall x | Fits(b, size, nb, x)
      ensures v != 0 && At(size, v) <= At(size, x)
    {
      BestOfAll(bv, base, size, nb, i, v, x);
    }
  }

  // The search of tmalloc_small: all chunks of the tree bins fit, and it finds a smallest.
  method TmallocSmallFit(b: Bins, size: Links, nb: nat) returns (v: nat, rsize: nat)
    requires |b.small| == NSMALLBINS && |b.trees| == |b.treebins| == NTREEBINS && b.Valid(size)
             && 0 < nb < MIN_LARGE_SIZE
    requires b.treemap != {}
    ensures Fits(b, size, nb, v) && rsize == At(size, v) - nb
    ensures forall x :: Fits(b, size, nb, x) ==> At(size, v) <= At(size, x)
  {
    ghost var bv, base := b.V(), b.base;
    Marked(bv, base);
    var i := FirstFrom(b.treemap, 0);
    BinTree(bv, base, size, i);
    ghost var m, tree := b.M(), b.trees[i];
    var t: nat := b.treebins[i];
    v := t;
    rsize := Minus(At(size, t), nb);
    hide BinsOk, Descent, Choice, Sizes, Rep, TrieOk;
    SmallStart(tree, m, size, nb, i, t, TreeBin(base, i));
    NodeSeen(tree, m, t, TreeBin(base, i));
    t := if At(b.c0, t) != 0 then At(b.c0, t) else At(b.c1, t);
    ghost var cur, above: nat := if tree.left.Node? then tree.left else tree.right, v;
    while t != 0
      invariant Rep(cur, m, t, above) && (t != 0 <==> cur.Node?) && Choice(tree, size, nb, v, rsize)
      invariant Descent(tree, cur, size, nb, v, rsize) && v != 0
      decreases cur
    {
      NodeSeen(cur, m, t, above);
      DescentIn(tree, cur, size, nb, v, rsize, t);
      Look(tree, size, nb, v, rsize, t);
      ghost var v1, r1 := v, rsize;
      var trem := Minus(At(size, t), nb);
      if trem < rsize {
        rsize := trem;
        v := t;
      }
      LookKept(tree, size, nb, v1, r1, v, rsize, t);
      DescentStep(tree, cur, size, nb, v1, r1, v, rsize);
      var next: nat := if At(b.c0, t) != 0 then At(b.c0, t) else At(b.c1, t);
      above, cur := t, if cur.left.Node? then cur.left else cur.right;
      t := next;
    }
    DescentDone(tree, size, nb, v, rsize);
    Chosen(bv, base, size, nb, i, v, rsize);
    forall x | Fits(b, size, nb, x) ensures At(size, v) <= At(size, x) { FirstBinBest(bv, base, size, nb, i, v, x); }
  }

  lemma DescentIn(t: Tree, cur: Tree, sz: Links, nb: nat, v: nat, rsize: nat, x: nat)
    requires Descent(t, cur, sz, nb, v, rsize) && In(cur, x)
    ensures In(t, x)
  {
  }

  lemma Marked(bv: BV, base: nat)
    requires Shape(bv, base) && bv.treemap != {}
    ensures FirstFrom(bv.treemap, 0) in bv.treemap && FirstFrom(bv.treemap, 0) < NTREEBINS
  {
    var j :| j in bv.treemap;
    assert 0 <= j < NTREEBINS;
  }

  lemma SmallStart(t: Tree, m: Mem, sz: Links, nb: nat, i: nat, p: nat, up: nat)
    requires t.Node? && Rep(t, m, p, up) && TrieOk(t, sz, RootBit(i), BinPrefix(i)) && 0 < nb < MIN_LARGE_SIZE
    requires forall x :: In(t, x) ==> LargeSize(At(sz, x))
    ensures At(sz, p) < TWO64 && p != 0 && |t.ring| > 0
    ensures Choice(t, sz, nb, p, Minus(At(sz, p), nb))
    ensures Descent(t, if t.left.Node? then t.left else t.right, sz, nb, p, Minus(At(sz, p), nb))
  {
    assert Trie(t, sz);
    FreshStart(t, sz, nb);
    assert p in t.ring && In(t, p);
    DescentStep(t, t, sz, nb, 0, TWO64 - nb, p, Minus(At(sz, p), nb));
  }

  lemma FirstBinBest(bv: BV, base: nat, sz: Links, nb: nat, i: nat, v: nat, x: nat)
    requires BinsOk(bv, base, sz) && i < NTREEBINS && i == FirstFrom(bv.treemap, 0) && v != 0
    requires BestIn(bv.trees[i], sz, nb, v) && In(bv.trees[i], v)
    requires Binned(bv, sz, x) && !IsSmall(At(sz, x)) && At(sz, x) >= nb
    ensures At(sz, v) <= At(sz, x)
  {
    BinnedMember(bv, base, sz, x);
    var j := TreeIndex(At(sz, x));
    BinTree(bv, base, sz, j);
    if j > i { LaterLarger(bv, base, sz, i, j, v, x); }
  }
}
