// The bin operations of src/lj_alloc.c on the link fields they rewrite.
module AllocLinks {
  import opened AllocRing
  import opened AllocBits
  import opened AllocTree
  import opened AllocUntree
  import opened AllocBins

  // leftshift_for_tree_index
  function LeftShift(i: nat): nat { if i == NTREEBINS - 1 then 0 else if i / 2 + 6 <= 63 then 63 - (i / 2 + 6) else 0 }

  lemma ShiftTests(s: nat, k: nat)
    requires s < TWO64 && k <= 63
    ensures Bit(ShlBy(s, 63 - k), 63) == Bit(s, k)
  {
    ShlByBit(s, 63 - k, k);
  }

  class Bins {
    const base: nat
    var fd: Links
    var bk: Links
    var c0: Links
    var c1: Links
    var par: Links
    var index: Links
    var smallmap: set<nat>
    var treemap: set<nat>
    var treebins: seq<nat>
    ghost var small: seq<seq<nat>>
    ghost var trees: seq<Tree>

    ghost function M(): Mem
      reads this
    {
      Mem(fd, bk, c0, c1, par)
    }

    ghost function V(): BV
      reads this
    {
      BV(M(), index, smallmap, treemap, treebins, small, trees)
    }

    ghost predicate Valid(sz: Links)
      reads this
    {
      BinsOk(V(), base, sz)
    }

    ghost predicate Has(sz: Links, x: nat)
      requires |small| == NSMALLBINS && |trees| == NTREEBINS
      reads this
    {
      Binned(V(), sz, x)
    }

    // init_bins on a zeroed malloc_state at address b.
    constructor (b: nat, ghost sz: Links)
      requires b > 0
      ensures base == b && Valid(sz) && smallmap == {} && treemap == {} && forall x :: !Has(sz, x)
    {
      base := b;
      fd, bk, c0, c1, par, index := map[], map[], map[], map[], map[], map[];
      smallmap, treemap := {}, {};
      treebins := seq(NTREEBINS, i => 0);
      small := seq(NSMALLBINS, i => []);
      trees := seq(NTREEBINS, i => Nil);
      new;
      ghost var none, noTrees := small, trees;
      for i := 0 to NSMALLBINS
        invariant smallmap == {} && treemap == {} && small == none && trees == noTrees && |treebins| == NTREEBINS
        invariant forall j :: 0 <= j < NTREEBINS ==> treebins[j] == 0
      {
        fd := fd[SmallBin(b, i) := SmallBin(b, i)];
        bk := bk[SmallBin(b, i) := SmallBin(b, i)];
      }
    }

    method InsertSmall(p: nat, s: nat, ghost sz: Links)
      requires |small| == NSMALLBINS && |trees| == NTREEBINS && s == At(sz, p) && IsSmall(s) && s % 8 == 0
               && !InState(base, p) && p != 0
      requires Valid(sz) && !Has(sz, p)
      modifies `fd, `bk, `smallmap, `small
      ensures Valid(sz) && |small| == NSMALLBINS && forall y :: Has(sz, y) <==> old(Has(sz, y)) || y == p
    {
      ghost var bv := V();
      PutSmallOk(bv, base, sz, p);
      hide *;
      var i := s / 8;
      SmallShape(bv, base, sz, i, p);
      var b := SmallBin(base, i);
      var f := b;
      if i !in smallmap {
        smallmap := smallmap + {i};
      } else {
        f := At(fd, b);
      }
      fd := fd[b := p];
      bk := bk[f := p];
      fd := fd[p := f];
      bk := bk[p := b];
      small := small[i := [p] + small[i]];
      assert V() == PutSmall(bv, base, i, p);
    }

    method UnlinkSmall(p: nat, s: nat, ghost sz: Links)
      requires |small| == NSMALLBINS && |trees| == NTREEBINS && s == At(sz, p) && IsSmall(s)
      requires Valid(sz) && Has(sz, p)
      modifies `fd, `bk, `smallmap, `small
      ensures Valid(sz) && |small| == NSMALLBINS && forall y :: Has(sz, y) <==> old(Has(sz, y)) && y != p
    {
      ghost var bv := V();
      BinnedMember(bv, base, sz, p);
      var i := s / 8;
      ghost var k := IndexOf(small[i], p);
      TakeSmallOk(bv, base, sz, i, k);
      hide *;
      TakeSmallIs(bv, i, k, p);
      var f, b := At(fd, p), At(bk, p);
      small := small[i := Without(small[i], k)];
      if f == b {
        smallmap := smallmap - {i};
      } else {
        bk := bk[f := b];
        fd := fd[b := f];
      }
      assert V() == TakeSmall(bv, i, k);
    }

    // The first chunk of a small bin that is marked.
    method UnlinkFirstSmall(i: nat, ghost sz: Links) returns (p: nat)
      requires |small| == NSMALLBINS && |trees| == NTREEBINS && i < NSMALLBINS && i in smallmap
      requires Valid(sz)
      modifies `fd, `bk, `smallmap, `small
      ensures Valid(sz) && |small| == NSMALLBINS && forall y :: Has(sz, y) <==> old(Has(sz, y)) && y != p
      ensures old(Has(sz, p)) && At(sz, p) == 8 * i
    {
      ghost var bv := V();
      var b := SmallBin(base, i);
      p := At(fd, b);
      FirstSmall(bv, base, sz, i);
      TakeSmallOk(bv, base, sz, i, 0);
      var f := At(fd, p);
      hide *;
      TakeFirstIs(bv, base, sz, i, p);
      small := small[i := Without(small[i], 0)];
      if b == f {
        smallmap := smallmap - {i};
      } else {
        fd := fd[b := f];
        bk := bk[f := b];
      }
      assert V() == TakeSmall(bv, i, 0);
    }

    method InsertLarge(x: nat, s: nat, size: Links)
      requires |small| == NSMALLBINS && |trees| == |treebins| == NTREEBINS && s == At(size, x) && LargeSize(s)
               && !InState(base, x) && x != 0
      requires Valid(size) && !Has(size, x)
      modifies `fd, `bk, `c0, `c1, `par, `index, `treemap, `treebins, `trees
      ensures Valid(size) && |trees| == NTREEBINS && forall y :: Has(size, y) <==> old(Has(size, y)) || y == x
    {
      ghost var bv := V();
      var i := TreeIndex(s);
      PutLargeOk(bv, base, size, x);
      LargeStart(bv, base, size, i, x);
      PutBin(x, s, i, size);
    }

    method PutBin(x: nat, s: nat, i: nat, size: Links)
      requires |trees| == |treebins| == NTREEBINS && i < NTREEBINS && s < TWO64 && s == At(size, x)
      requires i in treemap ==> trees[i].Node?
                                && LargeWalk(trees[i], M(), size, RootBit(i), BinPrefix(i), treebins[i], x)
      requires i !in treemap ==> trees[i].Nil?
      modifies `fd, `bk, `c0, `c1, `par, `index, `treemap, `treebins, `trees
      ensures V() == PutLarge(old(V()), base, size, i, x)
    {
      hide LargeWalk, Put, FindSpot, Insert, PutLarge;
      ghost var bv := V();
      PutLargeCases(bv, base, size, i, x);
      index := index[x := i];
      if i !in treemap {
        FirstLarge(x, i);
      } else {
        LinkLarge(x, s, i, size);
        trees := trees[i := Insert(trees[i], size, RootBit(i), x)];
      }
    }

    // The first chunk of its bin.
    method FirstLarge(x: nat, i: nat)
      requires |trees| == |treebins| == NTREEBINS && i < NTREEBINS
      modifies `fd, `bk, `c0, `c1, `par, `treemap, `treebins, `trees
      ensures M() == Mem(old(fd)[x := x], old(bk)[x := x], old(c0)[x := 0], old(c1)[x := 0],
              old(par)[x := TreeBin(base, i)])
      ensures treemap == old(treemap) + {i} && treebins == old(treebins)[i := x]
              && trees == old(trees)[i := Node([x], Nil, Nil)]
    {
      c0 := c0[x := 0];
      c1 := c1[x := 0];
      treemap := treemap + {i};
      treebins := treebins[i := x];
      par := par[x := TreeBin(base, i)];
      fd := fd[x := x];
      bk := bk[x := x];
      trees := trees[i := Node([x], Nil, Nil)];
    }

    // Walk down the trie of bin i by the bits of s, highest first, and link x.
    method LinkLarge(x: nat, s: nat, i: nat, size: Links)
      requires |trees| == |treebins| == NTREEBINS && i < NTREEBINS && s < TWO64 && s == At(size, x) && trees[i].Node?
      requires LargeWalk(trees[i], M(), size, RootBit(i), BinPrefix(i), treebins[i], x)
      modifies `fd, `bk, `c0, `c1, `par
      ensures M() == Put(old(M()), FindSpot(trees[i], size, RootBit(i), x), x)
    {
      hide LargeWalk, Put, FindSpot, ShlBy, Shr, Bit, Shl, LeftShift, RootBit, BinPrefix;
      ghost var m := M();
      var t: nat := treebins[i];
      ghost var cur: Tree, kk: int, pre: nat := trees[i], RootBit(i), BinPrefix(i);
      RootShift(i);
      var k := ShlBy(s, LeftShift(i));
      while true
        invariant cur.Node? && LargeWalk(cur, m, size, kk, pre, t, x)
        invariant FindSpot(cur, size, kk, x) == FindSpot(trees[i], size, RootBit(i), x)
        invariant kk <= 63 && (kk >= 0 ==> k == ShlBy(s, 63 - kk))
        invariant M() == m
        decreases cur
      {
        WalkStep(cur, m, size, kk, pre, t, x);
        if At(size, t) == s {
          LinkSame(x, t);
          return;
        }
        ShiftTests(s, kk);
        NextShift(s, kk);
        var right := Bit(k, 63) == 1;
        k := Shl(k);
        var c: nat := if right then At(c1, t) else At(c0, t);
        if c == 0 {
          LinkChild(x, t, right);
          return;
        }
        t := c;
        cur, kk, pre := if right then cur.right else cur.left, kk - 1, if right then 2 * pre + 1 else 2 * pre;
      }
    }

    method LinkChild(x: nat, t: nat, right: bool)
      requires t != x
      modifies `fd, `bk, `c0, `c1, `par
      ensures M() == Put(old(M()), Child(t, if right then 1 else 0), x)
    {
      PutChildIs(M(), t, if right then 1 else 0, x);
      c0 := c0[x := 0];
      c1 := c1[x := 0];
      if right {
        c1 := c1[t := x];
      } else {
        c0 := c0[t := x];
      }
      par := par[x := t];
      fd := fd[x := x];
      bk := bk[x := x];
    }

    method LinkSame(x: nat, t: nat)
      modifies `fd, `bk, `c0, `c1, `par
      ensures M() == Put(old(M()), Same(t), x)
    {
      PutSameIs(M(), t, x);
      c0 := c0[x := 0];
      c1 := c1[x := 0];
      var f := At(fd, t);
      fd := fd[t := x];
      bk := bk[f := x];
      fd := fd[x := f];
      bk := bk[x := t];
      par := par[x := 0];
    }

    // The leaf that will replace x, and the node and side it hangs from; 0 without children.
    method LeafBelow(x: nat, ghost n: Tree, ghost up: nat) returns (r: nat, q: nat, b: nat)
      requires n.Node? && Rep(n, M(), x, up)
      ensures HasChild(n) ==> Place(r, q, b) == LeafPlace(n, 0, 0) && r != 0
      ensures !HasChild(n) ==> r == 0
    {
      ghost var m := M();
      hide Rep;
      LeafStep(n, m, x, up);
      q, b := x, 1;
      r := At(c1, x);
      if r == 0 {
        b := 0;
        r := At(c0, x);
        if r == 0 { return; }
      }
      ghost var cur, above := if b == 1 then n.right else n.left, x;
      while true
        invariant cur.Node? && r != 0 && Rep(cur, m, r, above) && LeafPlace(cur, q, b) == LeafPlace(n, 0, 0)
        decreases cur
      {
        LeafStep(cur, m, r, above);
        var side := if At(c1, r) != 0 then 1 else 0;
        var down: nat := if side == 1 then At(c1, r) else At(c0, r);
        if down == 0 { return; }
        cur, above := if side == 1 then cur.right else cur.left, r;
        q, b, r := r, side, down;
      }
    }

    method UnlinkLarge(x: nat, ghost size: Links)
      requires |small| == NSMALLBINS && |trees| == |treebins| == NTREEBINS
      requires Valid(size) && Has(size, x) && !IsSmall(At(size, x))
      modifies `fd, `bk, `c0, `c1, `par, `treemap, `treebins, `trees
      ensures Valid(size) && |trees| == NTREEBINS && forall y :: Has(size, y) <==> old(Has(size, y)) && y != x
    {
      ghost var bv := V();
      BinnedMember(bv, base, size, x);
      var i := At(index, x);
      TakeLargeOk(bv, base, size, i, x);
      TakeOut(x, i, size);
    }

    method TakeOut(x: nat, i: nat, ghost size: Links)
      requires |trees| == |treebins| == NTREEBINS && i < NTREEBINS && i == At(index, x)
      requires Valid(size) && In(trees[i], x)
      modifies `fd, `bk, `c0, `c1, `par, `treemap, `treebins, `trees
      ensures V() == TakeLarge(old(V()), base, i, x)
    {
      hide BinsOk, In, HeadIn, TakeLarge, NodeOf, Heir, AfterCut, Settled, Unlinked, Remove, Rep, LeafPlace, Adopt,
        Hang, SetChild;
      ghost var bv := V();
      ghost var n := NodeOf(trees[i], x);
      TakeCases(bv, base, size, i, x);
      var xp := At(par, x);
      var r: nat := CutOut(x, n, xp);
      trees := trees[i := Remove(trees[i], x)];
      if xp != 0 {
        if x == treebins[i] {
          treebins := treebins[i := r];
          if r == 0 { treemap := treemap - {i}; }
        } else {
          HangAt(xp, x, r);
        }
        if r != 0 { AdoptChildren(x, r, xp); }
      }
    }

    // The first half: x leaves its ring, or the leaf below it leaves its place.
    method CutOut(x: nat, ghost n: Tree, ghost xp: nat) returns (r: nat)
      requires if xp == 0 then At(bk, x) != x else NodeCase(n, M(), x, xp)
      modifies `fd, `bk, `c0, `c1
      ensures xp == 0 ==> M() == CutRing(old(M()), x)
      ensures xp != 0 ==> n.Node? && |n.ring| > 0 && M() == AfterCut(n, old(M())) && r == Heir(n, old(M()))
    {
      hide Heir, AfterCut, Rep, LeafPlace, SetChild;
      r := At(bk, x);
      if r != x {
        var f := At(fd, x);
        bk := bk[f := r];
        fd := fd[r := f];
      } else {
        var q, b;
        r, q, b := LeafBelow(x, n, xp);
        if r != 0 { ClearChild(q, b); }
      }
    }

    method ClearChild(q: nat, b: nat)
      modifies `c0, `c1
      ensures M() == SetChild(old(M()), q, b, 0)
    {
      if b == 0 { c0 := c0[q := 0]; } else { c1 := c1[q := 0]; }
    }

    method HangAt(q: nat, x: nat, r: nat)
      modifies `c0, `c1
      ensures M() == Hang(old(M()), q, x, r)
    {
      if At(c0, q) == x { c0 := c0[q := r]; } else { c1 := c1[q := r]; }
    }

    method AdoptChildren(x: nat, r: nat, up: nat)
      modifies `c0, `c1, `par
      ensures M() == Adopt(old(M()), x, r, up)
    {
      par := par[r := up];
      var l := At(c0, x);
      if l != 0 {
        c0 := c0[r := l];
        par := par[l := r];
      }
      var h := At(c1, x);
      if h != 0 {
        c1 := c1[r := h];
        par := par[h := r];
      }
    }

    method InsertChunk(p: nat, s: nat, size: Links)
      requires |small| == NSMALLBINS && |trees| == |treebins| == NTREEBINS && s == At(size, p) && s % 8 == 0
               && s < SIZE_LIMIT
      requires !InState(base, p) && p != 0 && Valid(size) && !Has(size, p)
      modifies this
      ensures Valid(size) && |small| == NSMALLBINS && |trees| == |treebins| == NTREEBINS
      ensures forall y :: Has(size, y) <==> old(Has(size, y)) || y == p
    {
      if IsSmall(s) { InsertSmall(p, s, size); } else { InsertLarge(p, s, size); }
    }

    method UnlinkChunk(p: nat, s: nat, ghost size: Links)
      requires |small| == NSMALLBINS && |trees| == |treebins| == NTREEBINS && s == At(size, p)
      requires Valid(size) && Has(size, p)
      modifies this
      ensures Valid(size) && |small| == NSMALLBINS && |trees| == |treebins| == NTREEBINS
      ensures forall y :: Has(size, y) <==> old(Has(size, y)) && y != p
    {
      if IsSmall(s) { UnlinkSmall(p, s, size); } else { UnlinkLarge(p, size); }
    }
  }

  // What the child fields say about the trees below a node.
  lemma LeafStep(t: Tree, m: Mem, p: nat, up: nat)
    requires t.Node? && Rep(t, m, p, up)
    ensures (At(m.c0, p) != 0 <==> t.left.Node?) && (At(m.c1, p) != 0 <==> t.right.Node?)
    ensures Rep(t.left, m, At(m.c0, p), p) && Rep(t.right, m, At(m.c1, p), p)
    ensures forall q, b :: LeafPlace(t, q, b) ==
              if t.right.Node? then LeafPlace(t.right, p, 1) else if t.left.Node? then LeafPlace(t.left, p, 0)
                else Place(p, q, b)
  {
    if t.left.Node? { assert RootOk(t.left.ring, m, At(m.c0, p), p); }
    if t.right.Node? { assert RootOk(t.right.ring, m, At(m.c1, p), p); }
  }

  // The parent of a node is outside the node's own tree.
  lemma {:induction false} ParentApart(t: Tree, m: Mem, sz: Links, k: int, pre: nat, p: nat, up: nat, x: nat)
    requires HeadIn(t, x) && Rep(t, m, p, up) && TrieOk(t, sz, k, pre) && x != p
    ensures !In(NodeOf(t, x), At(m.par, x))
    decreases t
  {
    HeadSide(t, m, sz, k, pre, p, up, x);
    var left := HeadIn(t.left, x);
    SideHead(t, m, sz, k, pre, p, up, x, left);
    Apart(t, sz, k, pre, p);
    var side, at := if left then t.left else t.right, if left then At(m.c0, p) else At(m.c1, p);
    if x != at { ParentApart(side, m, sz, k - 1, if left then 2 * pre else 2 * pre + 1, at, p, x); }
  }

  // Taking over the children and the parent's child field are independent.
  lemma HangAdopt(m: Mem, q: nat, x: nat, r: nat, up: nat)
    requires q != r && q != x && r != x
    ensures Adopt(Hang(m, q, x, r), x, r, up) == Hang(Adopt(m, x, r, up), q, x, r)
  {
    var l, h := At(m.c0, x), At(m.c1, x);
    AdoptIs(m, x, r, up);
    AdoptIs(Hang(m, q, x, r), x, r, up);
    hide Adopt;
    if At(m.c0, q) == x {
      Commute(m.c0, q, r, r, l);
    } else {
      Commute(m.c1, q, r, r, h);
    }
  }

  lemma Commute(c: Links, a: nat, u: nat, b: nat, v: nat)
    requires a != b
    ensures c[a := u][b := v] == c[b := v][a := u]
  {
  }

  lemma AdoptIs(m: Mem, x: nat, r: nat, up: nat)
    requires r != x
    ensures var l, h := At(m.c0, x), At(m.c1, x);
            Adopt(m, x, r, up) ==
              Mem(m.fd, m.bk, if l != 0 then m.c0[r := l] else m.c0, if h != 0 then m.c1[r := h] else m.c1,
                  if l != 0 && h != 0 then m.par[r := up][l := r][h := r] else if l != 0 then m.par[r := up][l := r]
                  else if h != 0 then m.par[r := up][h := r] else m.par[r := up])
  {
  }

  // The cases of unlink_large_chunk, in the order of its writes.
  lemma TakeCases(bv: BV, base: nat, sz: Links, i: nat, x: nat)
    requires BinsOk(bv, base, sz) && i < NTREEBINS && In(bv.trees[i], x)
    ensures var t, n, xp := bv.trees[i], NodeOf(bv.trees[i], x), At(bv.m.par, x);
            && (xp == 0 ==> At(bv.m.bk, x) != x
                            && TakeLarge(bv, base, i, x)
                            == bv.(trees := bv.trees[i := Remove(t, x)], m := CutRing(bv.m, x)))
            && (xp != 0 ==> NodeCase(n, bv.m, x, xp) && TakeLarge(bv, base, i, x) == TakenNode(bv, i, n, x, xp))
  {
    TreeParts(bv, base, sz, i);
    var t, k, pre, p, up := bv.trees[i], RootBit(i), BinPrefix(i), bv.treebins[i], TreeBin(base, i);
    MemberLinks(t, bv.m, sz, k, pre, p, up, x);
    TakeLargeIs(bv, base, i, x);
    if HeadIn(t, x) { TakeNode(bv, base, sz, i, x); }
  }

  // A tree node whose first chunk is x, and what its ring fields say.
  ghost predicate NodeCase(n: Tree, m: Mem, x: nat, xp: nat) {
    && n.Node? && |n.ring| > 0 && n.ring[0] == x && Rep(n, m, x, xp)
    && (At(m.bk, x) == x <==> |n.ring| == 1)
    && (At(m.bk, x) != x ==> AfterCut(n, m) == CutRing(m, x) && Heir(n, m) == At(m.bk, x))
    && (At(m.bk, x) == x && HasChild(n) ==>
          AfterCut(n, m) == SetChild(m, LeafPlace(n, 0, 0).q, LeafPlace(n, 0, 0).b, 0)
            && Heir(n, m) == LeafPlace(n, 0, 0).r)
    && (At(m.bk, x) == x && !HasChild(n) ==> AfterCut(n, m) == m && Heir(n, m) == 0)
  }

  function TakenNode(bv: BV, i: nat, n: Tree, x: nat, xp: nat): BV
    requires n.Node? && |n.ring| > 0 && i < |bv.trees| == |bv.treebins|
  {
    var r := Heir(n, bv.m);
    var root := x == bv.treebins[i];
    var m := if root then AfterCut(n, bv.m) else Hang(AfterCut(n, bv.m), xp, x, r);
    bv.(m := if r != 0 then Adopt(m, x, r, xp) else m,
        trees := bv.trees[i := Remove(bv.trees[i], x)],
        treebins := if root then bv.treebins[i := r] else bv.treebins,
        treemap := if root && r == 0 then bv.treemap - {i} else bv.treemap)
  }

  lemma NodeCases(n: Tree, m: Mem, x: nat, xp: nat)
    requires n.Node? && Rep(n, m, x, xp)
    ensures NodeCase(n, m, x, xp)
  {
    RingAt(m.fd, m.bk, n.ring, 0);
  }

  lemma TakeNode(bv: BV, base: nat, sz: Links, i: nat, x: nat)
    requires BinsOk(bv, base, sz) && i < NTREEBINS && HeadIn(bv.trees[i], x)
    ensures var n, xp := NodeOf(bv.trees[i], x), At(bv.m.par, x);
            NodeCase(n, bv.m, x, xp) && TakeLarge(bv, base, i, x) == TakenNode(bv, i, n, x, xp)
  {
    hide *;
    BinParts(bv, base, sz, i);
    TreeCount(bv, base);
    InNode(bv.trees[i], x);
    TreeParts(bv, base, sz, i);
    var t, k, pre, p, up := bv.trees[i], RootBit(i), BinPrefix(i), bv.treebins[i], TreeBin(base, i);
    var n, xp := NodeOf(t, x), At(bv.m.par, x);
    HeadNode(t, bv.m, sz, k, pre, p, up, x);
    var k', pre' :| TrieOk(n, sz, k', pre') && Rep(n, bv.m, x, xp);
    NodeCases(n, bv.m, x, xp);
    TakeLargeIs(bv, base, i, x);
    if x == p {
      RootNode(t, x, bv.m, p, up);
      TakenRoot(bv, base, i, x);
    } else {
      ParentApart(t, bv.m, sz, k, pre, p, up, x);
      HeirApart(n, bv.m, sz, k', pre', x, xp);
      TakenInner(bv, base, i, x);
    }
  }

  lemma TreeCount(bv: BV, base: nat)
    requires Shape(bv, base)
    ensures |bv.trees| == |bv.treebins| == NTREEBINS
  {
  }

  lemma BinParts(bv: BV, base: nat, sz: Links, i: nat)
    requires BinsOk(bv, base, sz) && i < NTREEBINS
    ensures Shape(bv, base) && TreeOk(bv, base, sz, i)
  {
  }

  lemma RootNode(t: Tree, x: nat, m: Mem, p: nat, up: nat)
    requires t.Node? && Rep(t, m, p, up) && x == p
    ensures NodeOf(t, x) == t && |t.ring| > 0
  {
  }

  // The heir is inside the node and is not its first chunk.
  lemma HeirApart(n: Tree, m: Mem, sz: Links, k: int, pre: nat, x: nat, xp: nat)
    requires n.Node? && Rep(n, m, x, xp) && TrieOk(n, sz, k, pre)
    ensures |n.ring| > 0 && In(n, x) && (Heir(n, m) != 0 ==> In(n, Heir(n, m)) && Heir(n, m) != x)
  {
    NodeRemoved(n, m, sz, k, pre, x, xp);
    RepRings(n, m, x, xp);
    RemoveHeadOk(n, sz, k, pre);
    if Heir(n, m) != 0 { assert In(RemoveHead(n), Heir(n, m)); }
  }

  lemma TakenRoot(bv: BV, base: nat, i: nat, x: nat)
    requires Shape(bv, base) && i < NTREEBINS && HeadIn(bv.trees[i], x) && x == bv.treebins[i]
    requires var t := bv.trees[i]; NodeOf(t, x) == t && t.Node? && |t.ring| > 0 && t.ring[0] == x
                                   && At(bv.m.par, x) == TreeBin(base, i)
    ensures TakeLarge(bv, base, i, x) == TakenNode(bv, i, bv.trees[i], x, TreeBin(base, i))
  {
    hide Heir, AfterCut, Adopt, Remove, NodeOf, HeadIn;
  }

  lemma TakenInner(bv: BV, base: nat, i: nat, x: nat)
    requires Shape(bv, base) && i < NTREEBINS && HeadIn(bv.trees[i], x) && x != bv.treebins[i]
    requires var n, q := NodeOf(bv.trees[i], x), At(bv.m.par, x);
             && n.Node? && |n.ring| > 0 && n.ring[0] == x && In(n, x) && !In(n, q)
             && (Heir(n, bv.m) != 0 ==> In(n, Heir(n, bv.m)) && Heir(n, bv.m) != x)
    ensures TakeLarge(bv, base, i, x) == TakenNode(bv, i, NodeOf(bv.trees[i], x), x, At(bv.m.par, x))
  {
    var n, q := NodeOf(bv.trees[i], x), At(bv.m.par, x);
    var r, m := Heir(n, bv.m), AfterCut(n, bv.m);
    hide Heir, AfterCut, Adopt, Hang, Remove, NodeOf, HeadIn, In;
    if r != 0 { HangAdopt(m, q, x, r, q); }
  }

  // The walk is at node t of the trie, above whose bit kk the size agrees.
  ghost predicate LargeWalk(cur: Tree, m: Mem, sz: Links, kk: int, pre: nat, t: nat, x: nat) {
    && cur.Node? && TrieOk(cur, sz, kk, pre) && Shr(At(sz, x), kk + 1) == pre && !In(cur, x) && x != 0
    && exists up :: up == At(m.par, t) && Rep(cur, m, t, up)
  }

  lemma LargeStart(bv: BV, base: nat, sz: Links, i: nat, x: nat)
    requires BinsOk(bv, base, sz) && i == TreeIndex(At(sz, x)) && LargeSize(At(sz, x)) && !Binned(bv, sz, x) && x != 0
    ensures |bv.trees| == |bv.treebins| == NTREEBINS && At(sz, x) < TWO64
    ensures i in bv.treemap <==> bv.trees[i].Node?
    ensures i in bv.treemap ==> LargeWalk(bv.trees[i], bv.m, sz, RootBit(i), BinPrefix(i), bv.treebins[i], x)
  {
    assert TreeOk(bv, base, sz, i);
    BinShares(At(sz, x));
    if i in bv.treemap {
      RootParent(bv.trees[i], bv.m, bv.treebins[i], TreeBin(base, i));
      if In(bv.trees[i], x) { LargeIsBinned(bv, base, sz, i, x); }
    }
  }

  lemma PutLargeCases(bv: BV, base: nat, sz: Links, i: nat, x: nat)
    requires |bv.trees| == |bv.treebins| == NTREEBINS && i < NTREEBINS
    ensures i in bv.treemap && bv.trees[i].Node? ==>
              PutLarge(bv, base, sz, i, x) ==
                bv.(index := bv.index[x := i], m := Put(bv.m, FindSpot(bv.trees[i], sz, RootBit(i), x), x),
                    trees := bv.trees[i := Insert(bv.trees[i], sz, RootBit(i), x)])
    ensures i !in bv.treemap ==>
              PutLarge(bv, base, sz, i, x) ==
                bv.(index := bv.index[x := i],
                    m := Mem(bv.m.fd[x := x], bv.m.bk[x := x], bv.m.c0[x := 0], bv.m.c1[x := 0],
                      bv.m.par[x := TreeBin(base, i)]),
                    treemap := bv.treemap + {i}, treebins := bv.treebins[i := x],
                      trees := bv.trees[i := Node([x], Nil, Nil)])
  {
  }

  lemma RootParent(t: Tree, m: Mem, p: nat, up: nat)
    requires t.Node? && Rep(t, m, p, up)
    ensures up == At(m.par, p)
  {
  }

  lemma RootShift(i: nat)
    requires i < NTREEBINS
    ensures LeftShift(i) == 63 - RootBit(i) && RootBit(i) <= 63
  {
  }

  lemma NextShift(s: nat, kk: int)
    requires 0 <= kk <= 63
    ensures kk >= 1 ==> Shl(ShlBy(s, 63 - kk)) == ShlBy(s, 63 - (kk - 1))
  {
  }

  // What the walk sees at a node.
  lemma WalkStep(cur: Tree, m: Mem, sz: Links, kk: int, pre: nat, t: nat, x: nat)
    requires LargeWalk(cur, m, sz, kk, pre, t, x)
    ensures t != x && At(m.c0, t) == At(m.c0[x := 0], t) && At(m.c1, t) == At(m.c1[x := 0], t)
    ensures At(sz, t) == At(sz, x) ==> FindSpot(cur, sz, kk, x) == Same(t)
    ensures At(sz, t) != At(sz, x) ==> kk >= 0
    ensures At(sz, t) != At(sz, x) ==>
              var right := Bit(At(sz, x), kk) == 1;
              var c, side, pre' := if right then At(m.c1, t) else At(m.c0, t), if right then cur.right else cur.left,
                if right then 2 * pre + 1 else 2 * pre;
              if c == 0 then FindSpot(cur, sz, kk, x) == Child(t, if right then 1 else 0)
              else side.Node? && LargeWalk(side, m, sz, kk - 1, pre', c, x)
                   && FindSpot(cur, sz, kk, x) == FindSpot(side, sz, kk - 1, x)
  {
    var up :| up == At(m.par, t) && Rep(cur, m, t, up);
    assert t in cur.ring && In(cur, t);
    NoZero(cur, m, t, up);
    ChildIn(cur, m, t, up);
    if cur.left.Node? { RootParent(cur.left, m, At(m.c0, t), t); }
    if cur.right.Node? { RootParent(cur.right, m, At(m.c1, t), t); }
    if At(sz, t) != At(sz, x) {
      assert kk >= 0;
      assert Shr(At(sz, x), kk + 1) == Shr(At(sz, x), kk) / 2;
    }
  }

  lemma PutChildIs(m: Mem, t: nat, b: nat, x: nat)
    requires b <= 1 && t != x
    ensures Put(m, Child(t, b), x) ==
              Mem(m.fd[x := x], m.bk[x := x], if b == 0 then m.c0[x := 0][t := x] else m.c0[x := 0],
                  if b == 1 then m.c1[x := 0][t := x] else m.c1[x := 0], m.par[x := t])
  {
  }

  lemma PutSameIs(m: Mem, t: nat, x: nat)
    ensures var f := At(m.fd, t);
            Put(m, Same(t), x) == Mem(m.fd[t := x][x := f], m.bk[f := x][x := t], m.c0[x := 0], m.c1[x := 0],
              m.par[x := 0])
  {
  }

  lemma SmallShape(bv: BV, base: nat, sz: Links, i: nat, p: nat)
    requires BinsOk(bv, base, sz) && IsSmall(At(sz, p)) && At(sz, p) % 8 == 0 && i == At(sz, p) / 8
    ensures i < |bv.small|
    ensures var b := SmallBin(base, i);
            var f := if i in bv.smallmap then At(bv.m.fd, b) else b;
            PutSmall(bv, base, i, p) ==
              bv.(m := bv.m.(fd := bv.m.fd[b := p][p := f], bk := bv.m.bk[f := p][p := b]),
                  smallmap := bv.smallmap + {i}, small := bv.small[i := [p] + bv.small[i]])
  {
  }

  lemma TakeSmallIs(bv: BV, i: nat, k: nat, x: nat)
    requires i < |bv.small| && k < |bv.small[i]| && bv.small[i][k] == x
    ensures var f, b := At(bv.m.fd, x), At(bv.m.bk, x);
            TakeSmall(bv, i, k) ==
              if f == b then bv.(small := bv.small[i := Without(bv.small[i], k)], smallmap := bv.smallmap - {i})
              else bv.(small := bv.small[i := Without(bv.small[i], k)],
                m := bv.m.(bk := bv.m.bk[f := b], fd := bv.m.fd[b := f]))
  {
  }

  lemma FirstSmall(bv: BV, base: nat, sz: Links, i: nat)
    requires BinsOk(bv, base, sz) && i < NSMALLBINS && i in bv.smallmap
    ensures |bv.small[i]| > 0 && At(bv.m.fd, SmallBin(base, i)) == bv.small[i][0]
    ensures At(bv.m.bk, bv.small[i][0]) == SmallBin(base, i) && Binned(bv, sz, bv.small[i][0])
            && At(sz, bv.small[i][0]) == 8 * i
  {
    assert SmallOk(bv, base, sz, i);
    var c := SmallRing(bv, base, i);
    RingAt(bv.m.fd, bv.m.bk, c, 0);
    RingAt(bv.m.fd, bv.m.bk, c, 1);
    assert c[1] == bv.small[i][0];
    SmallIsBinned(bv, base, sz, i, bv.small[i][0]);
  }

  lemma TakeFirstIs(bv: BV, base: nat, sz: Links, i: nat, p: nat)
    requires BinsOk(bv, base, sz) && i < NSMALLBINS && i in bv.smallmap && p == At(bv.m.fd, SmallBin(base, i))
    ensures i < |bv.small| && |bv.small[i]| > 0 && bv.small[i][0] == p && Binned(bv, sz, p) && At(sz, p) == 8 * i
    ensures var f, b := At(bv.m.fd, p), SmallBin(base, i);
            TakeSmall(bv, i, 0) ==
              if b == f then bv.(small := bv.small[i := Without(bv.small[i], 0)], smallmap := bv.smallmap - {i})
              else bv.(small := bv.small[i := Without(bv.small[i], 0)],
                m := bv.m.(fd := bv.m.fd[b := f], bk := bv.m.bk[f := b]))
  {
    FirstSmall(bv, base, sz, i);
    TakeSmallIs(bv, i, 0, p);
  }
}
