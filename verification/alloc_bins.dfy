// All bins of src/lj_alloc.c together: 32 rings of small chunks with headers in
// malloc_state, and 32 tries of large ones.
module AllocBins {
  import opened AllocRing
  import opened AllocBits
  import opened AllocTree
  import opened AllocUntree

  const NSMALLBINS: nat := 32
  const BINS_END: nat := 840      // the part of struct malloc_state before its segment record

  predicate IsSmall(s: nat) { s / 8 < NSMALLBINS }

  // The bin headers seen as chunks, and the slots of the tree roots.
  function SmallBin(base: nat, i: nat): nat { base + 56 + 16 * i }
  function TreeBin(base: nat, i: nat): nat { base + 584 + 8 * i }

  predicate InState(base: nat, x: nat) { base <= x < base + BINS_END }

  // Link fields, maps and roots, with what they stand for.
  datatype BV = BV(m: Mem, index: Links, smallmap: set<nat>, treemap: set<nat>, treebins: seq<nat>,
                   small: seq<seq<nat>>, trees: seq<Tree>)

  ghost predicate SmallOk(bv: BV, base: nat, sz: Links, i: nat)
    requires |bv.small| == NSMALLBINS && i < NSMALLBINS
  {
    && (i in bv.smallmap <==> bv.small[i] != [])
    && (bv.small[i] != [] ==> Ring(bv.m.fd, bv.m.bk, [SmallBin(base, i)] + bv.small[i]))
    && forall x :: x in bv.small[i] ==> SmallMember(base, sz, i, x)
  }

  predicate SmallMember(base: nat, sz: Links, i: nat, x: nat) { At(sz, x) == 8 * i && !InState(base, x) && x != 0 }

  ghost predicate TreeOk(bv: BV, base: nat, sz: Links, i: nat)
    requires |bv.trees| == |bv.treebins| == NTREEBINS && i < NTREEBINS
  {
    && (i in bv.treemap <==> bv.trees[i].Node?)
    && Rep(bv.trees[i], bv.m, bv.treebins[i], TreeBin(base, i))
    && TrieOk(bv.trees[i], sz, RootBit(i), BinPrefix(i))
    && forall x :: In(bv.trees[i], x) ==> LargeMember(bv, base, sz, i, x)
  }

  predicate LargeMember(bv: BV, base: nat, sz: Links, i: nat, x: nat) {
    LargeSize(At(sz, x)) && TreeIndex(At(sz, x)) == i && At(bv.index, x) == i && !InState(base, x)
  }

  ghost predicate Shape(bv: BV, base: nat) {
    && |bv.small| == NSMALLBINS && |bv.trees| == |bv.treebins| == NTREEBINS && base > 0
    && (forall i :: i in bv.smallmap ==> i < NSMALLBINS) && (forall i :: i in bv.treemap ==> i < NTREEBINS)
  }

  ghost predicate BinsOk(bv: BV, base: nat, sz: Links) {
    && Shape(bv, base)
    && (forall i :: 0 <= i < NSMALLBINS ==> SmallOk(bv, base, sz, i))
    && (forall i :: 0 <= i < NTREEBINS ==> TreeOk(bv, base, sz, i))
  }

  // A chunk is binned in the one place its size calls for.
  predicate Binned(bv: BV, sz: Links, x: nat)
    requires |bv.small| == NSMALLBINS && |bv.trees| == NTREEBINS
  {
    var s := At(sz, x);
    if IsSmall(s) then s % 8 == 0 && x in bv.small[s / 8] else In(bv.trees[TreeIndex(s)], x)
  }

  lemma SmallIsBinned(bv: BV, base: nat, sz: Links, i: nat, x: nat)
    requires BinsOk(bv, base, sz) && i < NSMALLBINS && x in bv.small[i]
    ensures Binned(bv, sz, x) && SmallMember(base, sz, i, x)
  {
    assert SmallOk(bv, base, sz, i);
  }

  lemma LargeIsBinned(bv: BV, base: nat, sz: Links, i: nat, x: nat)
    requires BinsOk(bv, base, sz) && i < NTREEBINS && In(bv.trees[i], x)
    ensures Binned(bv, sz, x) && LargeMember(bv, base, sz, i, x)
  {
    assert TreeOk(bv, base, sz, i);
  }

  lemma BinnedMember(bv: BV, base: nat, sz: Links, x: nat)
    requires BinsOk(bv, base, sz) && Binned(bv, sz, x)
    ensures !InState(base, x)
    ensures if IsSmall(At(sz, x)) then At(sz, x) % 8 == 0 && x in bv.small[At(sz, x) / 8]
            else LargeSize(At(sz, x)) && At(bv.index, x) == TreeIndex(At(sz, x))
                 && In(bv.trees[TreeIndex(At(sz, x))], x)
  {
    var s := At(sz, x);
    if IsSmall(s) { assert SmallOk(bv, base, sz, s / 8); } else { assert TreeOk(bv, base, sz, TreeIndex(s)); }
  }

  // Sizes of binned chunks matter, others do not.
  lemma BinsSizes(bv: BV, base: nat, sz: Links, sz': Links)
    requires BinsOk(bv, base, sz) && forall x :: Binned(bv, sz, x) ==> At(sz', x) == At(sz, x)
    ensures BinsOk(bv, base, sz')
  {
    forall i | 0 <= i < NSMALLBINS
      ensures SmallOk(bv, base, sz', i)
    {
      assert SmallOk(bv, base, sz, i);
      forall x | x in bv.small[i] ensures SmallMember(base, sz', i, x) { SmallIsBinned(bv, base, sz, i, x); }
    }
    forall i | 0 <= i < NTREEBINS
      ensures TreeOk(bv, base, sz', i)
    {
      assert TreeOk(bv, base, sz, i);
      forall x | In(bv.trees[i], x)
        ensures At(sz', x) == At(sz, x) && LargeMember(bv, base, sz', i, x)
      {
        LargeIsBinned(bv, base, sz, i, x);
      }
      TrieFrame(bv.trees[i], sz, sz', RootBit(i), BinPrefix(i));
    }
  }

  // -- Bins apart ------------------------------------------------------------

  // Fields of y that no insertion or removal of a chunk of another bin touches.
  ghost predicate SmallKept(bv: BV, bv': BV, base: nat, i: nat)
    requires Shape(bv, base) && Shape(bv', base) && i < NSMALLBINS
  {
    && bv'.small[i] == bv.small[i] && (i in bv'.smallmap <==> i in bv.smallmap)
    && (forall y :: y in bv.small[i] || y == SmallBin(base, i) ==> At(bv'.m.fd, y) == At(bv.m.fd, y)
                                                                   && At(bv'.m.bk, y) == At(bv.m.bk, y))
  }

  ghost predicate TreeKept(bv: BV, bv': BV, base: nat, i: nat)
    requires Shape(bv, base) && Shape(bv', base) && i < NTREEBINS
  {
    && bv'.trees[i] == bv.trees[i] && (i in bv'.treemap <==> i in bv.treemap) && bv'.treebins[i] == bv.treebins[i]
    && (forall y :: In(bv.trees[i], y) ==> SameFields(bv.m, bv'.m, y) && At(bv'.index, y) == At(bv.index, y))
  }

  lemma SmallKeptOk(bv: BV, bv': BV, base: nat, sz: Links, i: nat)
    requires Shape(bv, base) && Shape(bv', base) && i < NSMALLBINS && SmallOk(bv, base, sz, i)
             && SmallKept(bv, bv', base, i)
    ensures SmallOk(bv', base, sz, i)
  {
    if bv.small[i] != [] {
      RingFrame(bv.m.fd, bv.m.bk, bv'.m.fd, bv'.m.bk, [SmallBin(base, i)] + bv.small[i]);
    }
  }

  lemma TreeKeptOk(bv: BV, bv': BV, base: nat, sz: Links, i: nat)
    requires Shape(bv, base) && Shape(bv', base) && i < NTREEBINS && TreeOk(bv, base, sz, i)
             && TreeKept(bv, bv', base, i)
    ensures TreeOk(bv', base, sz, i)
  {
    RepFrame(bv.trees[i], bv.m, bv'.m, bv.treebins[i], TreeBin(base, i));
    forall x | In(bv'.trees[i], x) ensures LargeMember(bv', base, sz, i, x) { assert LargeMember(bv, base, sz, i, x); }
  }

  // Headers and chunks of other bins are different from those of small bin i.
  lemma OtherSmall(bv: BV, base: nat, sz: Links, i: nat, j: nat, y: nat)
    requires BinsOk(bv, base, sz) && i < NSMALLBINS && j < NSMALLBINS && i != j
             && (y in bv.small[j] || y == SmallBin(base, j))
    ensures y !in bv.small[i] && y != SmallBin(base, i)
  {
    if y in bv.small[i] { SmallIsBinned(bv, base, sz, i, y); }
    if y in bv.small[j] { SmallIsBinned(bv, base, sz, j, y); }
  }

  lemma TreeNotSmall(bv: BV, base: nat, sz: Links, i: nat, j: nat, y: nat)
    requires BinsOk(bv, base, sz) && i < NSMALLBINS && j < NTREEBINS && In(bv.trees[j], y)
    ensures y !in bv.small[i] && y != SmallBin(base, i)
  {
    LargeIsBinned(bv, base, sz, j, y);
    if y in bv.small[i] { SmallIsBinned(bv, base, sz, i, y); }
  }

  lemma SmallNotTree(bv: BV, base: nat, sz: Links, i: nat, j: nat, y: nat)
    requires BinsOk(bv, base, sz) && i < NSMALLBINS && j < NTREEBINS && (y in bv.small[i] || y == SmallBin(base, i))
    ensures !In(bv.trees[j], y)
  {
    if In(bv.trees[j], y) { TreeNotSmall(bv, base, sz, i, j, y); }
  }

  lemma OtherTree(bv: BV, base: nat, sz: Links, i: nat, j: nat, y: nat)
    requires BinsOk(bv, base, sz) && i < NTREEBINS && j < NTREEBINS && i != j && In(bv.trees[j], y)
    ensures !In(bv.trees[i], y)
  {
    LargeIsBinned(bv, base, sz, j, y);
    if In(bv.trees[i], y) { LargeIsBinned(bv, base, sz, i, y); }
  }

  // -- Small bins ------------------------------------------------------------

  function SmallRing(bv: BV, base: nat, i: nat): seq<nat>
    requires i < |bv.small|
  {
    [SmallBin(base, i)] + bv.small[i]
  }

  // insert_small_chunk
  function PutSmall(bv: BV, base: nat, i: nat, x: nat): BV
    requires i < |bv.small|
  {
    var b := SmallBin(base, i);
    var f := if i in bv.smallmap then At(bv.m.fd, b) else b;
    var m := bv.m.(fd := bv.m.fd[b := x][x := f], bk := bv.m.bk[f := x][x := b]);
    bv.(m := m, smallmap := bv.smallmap + {i}, small := bv.small[i := [x] + bv.small[i]])
  }

  // Writes to small bin i, its members and the chunk x only.
  ghost predicate OnlySmall(bv: BV, bv': BV, base: nat, i: nat, x: nat) {
    && |bv.small| == |bv'.small| == NSMALLBINS && i < NSMALLBINS
    && bv'.trees == bv.trees && bv'.treemap == bv.treemap && bv'.treebins == bv.treebins && bv'.index == bv.index
    && bv'.m.c0 == bv.m.c0 && bv'.m.c1 == bv.m.c1 && bv'.m.par == bv.m.par
    && (forall j :: 0 <= j < NSMALLBINS && j != i ==> bv'.small[j] == bv.small[j]
                                                      && (j in bv'.smallmap <==> j in bv.smallmap))
    && (forall y :: y !in bv.small[i] && y != SmallBin(base, i) && y != x
                    ==> At(bv'.m.fd, y) == At(bv.m.fd, y) && At(bv'.m.bk, y) == At(bv.m.bk, y))
  }

  lemma OthersKept(bv: BV, bv': BV, base: nat, sz: Links, i: nat, x: nat)
    requires BinsOk(bv, base, sz) && Shape(bv', base) && OnlySmall(bv, bv', base, i, x) && SmallOk(bv', base, sz, i)
    requires !InState(base, x) && (!Binned(bv, sz, x) || x in bv.small[i])
    ensures BinsOk(bv', base, sz)
  {
    forall j | 0 <= j < NSMALLBINS
      ensures SmallOk(bv', base, sz, j)
    {
      assert SmallOk(bv, base, sz, j);
      if j != i {
        forall y | y in bv.small[j] || y == SmallBin(base, j)
          ensures y !in bv.small[i] && y != SmallBin(base, i) && y != x
        {
          OtherSmall(bv, base, sz, i, j, y);
          if y in bv.small[j] { SmallIsBinned(bv, base, sz, j, y); }
        }
        SmallKeptOk(bv, bv', base, sz, j);
      }
    }
    forall j | 0 <= j < NTREEBINS
      ensures TreeOk(bv', base, sz, j)
    {
      assert TreeOk(bv, base, sz, j);
      forall y | In(bv.trees[j], y) ensures y !in bv.small[i] && y != SmallBin(base, i) && y != x {
        TreeNotSmall(bv, base, sz, i, j, y);
        LargeIsBinned(bv, base, sz, j, y);
      }
      TreeKeptOk(bv, bv', base, sz, j);
    }
  }

  lemma PutSmallOk(bv: BV, base: nat, sz: Links, x: nat)
    requires BinsOk(bv, base, sz) && !Binned(bv, sz, x) && IsSmall(At(sz, x)) && At(sz, x) % 8 == 0 && !InState(base, x)
             && x != 0
    ensures BinsOk(PutSmall(bv, base, At(sz, x) / 8, x), base, sz)
    ensures forall y :: Binned(PutSmall(bv, base, At(sz, x) / 8, x), sz, y) <==> Binned(bv, sz, y) || y == x
  {
    var i := At(sz, x) / 8;
    var bv' := PutSmall(bv, base, i, x);
    assert SmallOk(bv, base, sz, i);
    PutSmallRing(bv, base, sz, i, x);
    assert SmallOk(bv', base, sz, i) by {
      forall y | y in bv'.small[i]
        ensures SmallMember(base, sz, i, y)
      {
        if y != x { assert SmallMember(base, sz, i, y); }
      }
    }
    assert OnlySmall(bv, bv', base, i, x);
    hide SmallOk, TreeOk;
    OthersKept(bv, bv', base, sz, i, x);
  }

  lemma PutSmallRing(bv: BV, base: nat, sz: Links, i: nat, x: nat)
    requires Shape(bv, base) && i < NSMALLBINS && SmallOk(bv, base, sz, i) && x !in bv.small[i]
             && x != SmallBin(base, i)
    ensures var bv' := PutSmall(bv, base, i, x); Ring(bv'.m.fd, bv'.m.bk, SmallRing(bv', base, i))
    ensures var b := SmallBin(base, i); var f := if i in bv.smallmap then At(bv.m.fd, b)
            else b; f == b || f in bv.small[i]
  {
    var b, bv' := SmallBin(base, i), PutSmall(bv, base, i, x);
    if bv.small[i] == [] {
      assert SmallRing(bv', base, i) == [b, x];
      assert Ring(bv'.m.fd, bv'.m.bk, [b, x]) by {
        assert Linked(bv'.m.fd, bv'.m.bk, [b, x], 0) && Linked(bv'.m.fd, bv'.m.bk, [b, x], 1);
      }
    } else {
      var c := SmallRing(bv, base, i);
      RingInsert(bv.m.fd, bv.m.bk, c, x);
      RingAt(bv.m.fd, bv.m.bk, c, 0);
      assert After(c, 0) == bv.small[i][0];
      assert SmallRing(bv', base, i) == Inserted(c, x);
    }
  }

  // unlink_small_chunk: k is the place of x in its bin.
  function TakeSmall(bv: BV, i: nat, k: nat): BV
    requires i < |bv.small| && k < |bv.small[i]|
  {
    var x := bv.small[i][k];
    var f, b := At(bv.m.fd, x), At(bv.m.bk, x);
    var taken := bv.(small := bv.small[i := Without(bv.small[i], k)]);
    if f == b then taken.(smallmap := bv.smallmap - {i}) else taken.(m := CutRing(bv.m, x))
  }

  lemma TakeSmallOk(bv: BV, base: nat, sz: Links, i: nat, k: nat)
    requires BinsOk(bv, base, sz) && i < NSMALLBINS && k < |bv.small[i]|
    ensures BinsOk(TakeSmall(bv, i, k), base, sz)
    ensures forall y :: Binned(TakeSmall(bv, i, k), sz, y) <==> Binned(bv, sz, y) && y != bv.small[i][k]
  {
    var bv', x := TakeSmall(bv, i, k), bv.small[i][k];
    assert SmallOk(bv, base, sz, i);
    TakeSmallBin(bv, base, sz, i, k);
    SmallIsBinned(bv, base, sz, i, x);
    hide *;
    OthersKept(bv, bv', base, sz, i, x);
    TakenSmall(bv, bv', base, sz, i, x);
  }

  lemma TakeSmallBin(bv: BV, base: nat, sz: Links, i: nat, k: nat)
    requires Shape(bv, base) && i < NSMALLBINS && SmallOk(bv, base, sz, i) && k < |bv.small[i]|
    ensures var bv', x := TakeSmall(bv, i, k), bv.small[i][k];
            && Shape(bv', base) && SmallOk(bv', base, sz, i) && OnlySmall(bv, bv', base, i, x)
               && SmallMember(base, sz, i, x)
            && (forall y :: y in bv'.small[i] <==> y in bv.small[i] && y != x)
  {
    TakeSmallRing(bv, base, sz, i, k);
    hide Ring;
  }

  lemma TakenSmall(bv: BV, bv': BV, base: nat, sz: Links, i: nat, x: nat)
    requires OnlySmall(bv, bv', base, i, x) && SmallMember(base, sz, i, x) && |bv.trees| == |bv'.trees| == NTREEBINS
    requires forall y :: y in bv'.small[i] <==> y in bv.small[i] && y != x
    ensures forall y :: Binned(bv', sz, y) <==> Binned(bv, sz, y) && y != x
  {
  }

  lemma TakeSmallRing(bv: BV, base: nat, sz: Links, i: nat, k: nat)
    requires Shape(bv, base) && i < NSMALLBINS && SmallOk(bv, base, sz, i) && k < |bv.small[i]|
    ensures var bv', x := TakeSmall(bv, i, k), bv.small[i][k];
            && (bv'.small[i] != [] ==> Ring(bv'.m.fd, bv'.m.bk, SmallRing(bv', base, i)))
            && (i in bv'.smallmap <==> bv'.small[i] != [])
            && (forall y :: y in bv'.small[i] <==> y in bv.small[i] && y != x)
            && (At(bv.m.fd, x) in bv.small[i] || At(bv.m.fd, x) == SmallBin(base, i))
            && (At(bv.m.bk, x) in bv.small[i] || At(bv.m.bk, x) == SmallBin(base, i))
  {
    var c, x := SmallRing(bv, base, i), bv.small[i][k];
    var bv' := TakeSmall(bv, i, k);
    assert c[k + 1] == x;
    RingAt(bv.m.fd, bv.m.bk, c, k + 1);
    RingRemove(bv.m.fd, bv.m.bk, c, k + 1);
    assert Without(c, k + 1) == SmallRing(bv', base, i);
    SmallDistinct(bv, base, sz, i, k);
    hide Ring, Without, SmallOk, Distinct;
    assert After(c, k + 1) in c && Before(c, k + 1) in c;
    if |bv.small[i]| == 1 {
      assert After(c, k + 1) == Before(c, k + 1);
    } else {
      assert After(c, k + 1) != Before(c, k + 1);
    }
  }

  lemma SmallDistinct(bv: BV, base: nat, sz: Links, i: nat, k: nat)
    requires Shape(bv, base) && i < NSMALLBINS && SmallOk(bv, base, sz, i) && k < |bv.small[i]|
    ensures Distinct(bv.small[i]) && (forall y :: y in Without(bv.small[i], k)
                                                  <==> y in bv.small[i] && y != bv.small[i][k])
    ensures |Without(bv.small[i], k)| == |bv.small[i]| - 1
  {
    var c := SmallRing(bv, base, i);
    forall a, b | 0 <= a < b < |bv.small[i]| ensures bv.small[i][a] != bv.small[i][b] { assert c[a + 1] != c[b + 1]; }
    WithoutMembers(bv.small[i], k);
  }

  // -- Tree bins -------------------------------------------------------------

  // Writes to tree bin i, its members and the chunk x only.
  ghost predicate OnlyTree(bv: BV, bv': BV, base: nat, i: nat, x: nat) {
    && Shape(bv, base) && Shape(bv', base) && i < NTREEBINS
    && bv'.small == bv.small && bv'.smallmap == bv.smallmap
    && (forall j :: 0 <= j < NTREEBINS && j != i ==> TreeSame(bv, bv', j))
    && (forall y :: !In(bv.trees[i], y) && y != x ==> SameFields(bv.m, bv'.m, y) && At(bv'.index, y) == At(bv.index, y))
  }

  predicate TreeSame(bv: BV, bv': BV, j: nat)
    requires |bv.trees| == |bv.treebins| == |bv'.trees| == |bv'.treebins| == NTREEBINS && j < NTREEBINS
  {
    bv'.trees[j] == bv.trees[j] && bv'.treebins[j] == bv.treebins[j] && (j in bv'.treemap <==> j in bv.treemap)
  }

  lemma OtherTreesKept(bv: BV, bv': BV, base: nat, sz: Links, i: nat, x: nat)
    requires BinsOk(bv, base, sz) && OnlyTree(bv, bv', base, i, x) && TreeOk(bv', base, sz, i)
    requires !InState(base, x) && (!Binned(bv, sz, x) || In(bv.trees[i], x))
    ensures BinsOk(bv', base, sz)
  {
    forall j | 0 <= j < NSMALLBINS
      ensures SmallOk(bv', base, sz, j)
    {
      assert SmallOk(bv, base, sz, j);
      forall y | y in bv.small[j] || y == SmallBin(base, j) ensures SameFields(bv.m, bv'.m, y) {
        SmallNotTree(bv, base, sz, j, i, y);
        if y in bv.small[j] { SmallIsBinned(bv, base, sz, j, y); }
      }
      SmallKeptOk(bv, bv', base, sz, j);
    }
    forall j | 0 <= j < NTREEBINS
      ensures TreeOk(bv', base, sz, j)
    {
      assert TreeOk(bv, base, sz, j);
      if j != i {
        assert TreeSame(bv, bv', j);
        forall y | In(bv.trees[j], y) ensures SameFields(bv.m, bv'.m, y) && At(bv'.index, y) == At(bv.index, y) {
          OtherTree(bv, base, sz, i, j, y);
          LargeIsBinned(bv, base, sz, j, y);
        }
        TreeKeptOk(bv, bv', base, sz, j);
      }
    }
  }

  // insert_large_chunk
  function PutLarge(bv: BV, base: nat, sz: Links, i: nat, x: nat): BV
    requires i < |bv.trees| == |bv.treebins|
  {
    var cut := bv.(index := bv.index[x := i]);
    if i !in bv.treemap || bv.trees[i].Nil? then
      var m := bv.m;
      var m' := Mem(m.fd[x := x], m.bk[x := x], m.c0[x := 0], m.c1[x := 0], m.par[x := TreeBin(base, i)]);
      cut.(m := m', treemap := bv.treemap + {i}, treebins := bv.treebins[i := x],
        trees := bv.trees[i := Node([x], Nil, Nil)])
    else
      cut.(m := Put(bv.m, FindSpot(bv.trees[i], sz, RootBit(i), x), x),
        trees := bv.trees[i := Insert(bv.trees[i], sz, RootBit(i), x)])
  }

  lemma PutLargeOk(bv: BV, base: nat, sz: Links, x: nat)
    requires BinsOk(bv, base, sz) && !Binned(bv, sz, x) && LargeSize(At(sz, x)) && !InState(base, x) && x != 0
    ensures var bv' := PutLarge(bv, base, sz, TreeIndex(At(sz, x)), x);
            BinsOk(bv', base, sz) && forall y :: Binned(bv', sz, y) <==> Binned(bv, sz, y) || y == x
  {
    var i := TreeIndex(At(sz, x));
    var bv' := PutLarge(bv, base, sz, i, x);
    assert TreeOk(bv, base, sz, i);
    BinShares(At(sz, x));
    PutLargeTree(bv, base, sz, i, x);
    hide SmallOk, TreeOk;
    OtherTreesKept(bv, bv', base, sz, i, x);
    hide BinsOk, OnlyTree, PutLarge;
    forall y
      ensures Binned(bv', sz, y) <==> Binned(bv, sz, y) || y == x
    {
      if !IsSmall(At(sz, y)) && TreeIndex(At(sz, y)) != i { TreesSame(bv, bv', base, i, x, TreeIndex(At(sz, y))); }
    }
  }

  lemma TreesSame(bv: BV, bv': BV, base: nat, i: nat, x: nat, j: nat)
    requires OnlyTree(bv, bv', base, i, x) && j < NTREEBINS && j != i
    ensures bv'.trees[j] == bv.trees[j]
  {
    assert TreeSame(bv, bv', j);
  }

  lemma PutLargeTree(bv: BV, base: nat, sz: Links, i: nat, x: nat)
    requires Shape(bv, base) && i < NTREEBINS && TreeOk(bv, base, sz, i) && !In(bv.trees[i], x) && x != 0
             && !InState(base, x)
    requires LargeSize(At(sz, x)) && TreeIndex(At(sz, x)) == i && Shr(At(sz, x), RootBit(i) + 1) == BinPrefix(i)
    ensures var bv' := PutLarge(bv, base, sz, i, x);
            && TreeOk(bv', base, sz, i) && OnlyTree(bv, bv', base, i, x) && bv'.small == bv.small
            && (forall y :: In(bv'.trees[i], y) <==> In(bv.trees[i], y) || y == x)
  {
    var bv' := PutLarge(bv, base, sz, i, x);
    PutLargeRep(bv, base, sz, i, x);
    hide TrieOk, Rep, PutLarge;
    forall y | In(bv'.trees[i], y)
      ensures LargeMember(bv', base, sz, i, y)
    {
      if y != x { assert LargeMember(bv, base, sz, i, y); }
    }
  }

  lemma PutLargeRep(bv: BV, base: nat, sz: Links, i: nat, x: nat)
    requires Shape(bv, base) && i < NTREEBINS && TreeOk(bv, base, sz, i) && !In(bv.trees[i], x) && x != 0
             && !InState(base, x)
    requires LargeSize(At(sz, x)) && TreeIndex(At(sz, x)) == i && Shr(At(sz, x), RootBit(i) + 1) == BinPrefix(i)
    ensures var bv' := PutLarge(bv, base, sz, i, x);
            && OnlyTree(bv, bv', base, i, x) && bv'.small == bv.small && bv'.index == bv.index[x := i]
            && (i in bv'.treemap <==> bv'.trees[i].Node?)
            && Rep(bv'.trees[i], bv'.m, bv'.treebins[i], TreeBin(base, i))
               && TrieOk(bv'.trees[i], sz, RootBit(i), BinPrefix(i))
            && (forall y :: In(bv'.trees[i], y) <==> In(bv.trees[i], y) || y == x)
  {
    if bv.trees[i].Nil? { PutFirst(bv, base, sz, i, x); } else { PutNext(bv, base, sz, i, x); }
    hide PutLarge, OnlyTree, Rep, TrieOk;
  }

  lemma PutNext(bv: BV, base: nat, sz: Links, i: nat, x: nat)
    requires Shape(bv, base) && i < NTREEBINS && TreeOk(bv, base, sz, i) && bv.trees[i].Node? && !In(bv.trees[i], x)
             && x != 0 && !InState(base, x)
    requires Shr(At(sz, x), RootBit(i) + 1) == BinPrefix(i)
    ensures var bv' := PutLarge(bv, base, sz, i, x);
            && OnlyTree(bv, bv', base, i, x) && bv'.small == bv.small && bv'.index == bv.index[x := i]
            && (i in bv'.treemap <==> bv'.trees[i].Node?)
            && Rep(bv'.trees[i], bv'.m, bv'.treebins[i], TreeBin(base, i))
               && TrieOk(bv'.trees[i], sz, RootBit(i), BinPrefix(i))
            && (forall y :: In(bv'.trees[i], y) <==> In(bv.trees[i], y) || y == x)
  {
    hide *;
    TreeParts(bv, base, sz, i);
    SlotApart(base, i, x);
    PutNode(bv.trees[i], bv.m, sz, RootBit(i), BinPrefix(i), bv.treebins[i], TreeBin(base, i), x);
    PutLargeIs(bv, base, sz, i, x);
    OnlyTreeIs(bv, PutLarge(bv, base, sz, i, x), base, i, x);
  }

  lemma SlotApart(base: nat, i: nat, x: nat)
    requires i < NTREEBINS && !InState(base, x)
    ensures TreeBin(base, i) != x && TreeBin(base, i) != 0
  {
  }

  lemma TreeParts(bv: BV, base: nat, sz: Links, i: nat)
    requires Shape(bv, base) && i < NTREEBINS && TreeOk(bv, base, sz, i)
    ensures |bv.trees| == |bv.treebins| == NTREEBINS
    ensures (i in bv.treemap <==> bv.trees[i].Node?)
    ensures Rep(bv.trees[i], bv.m, bv.treebins[i], TreeBin(base, i))
    ensures TrieOk(bv.trees[i], sz, RootBit(i), BinPrefix(i))
  {
  }

  lemma PutLargeIs(bv: BV, base: nat, sz: Links, i: nat, x: nat)
    requires Shape(bv, base) && i < NTREEBINS && i in bv.treemap && bv.trees[i].Node?
    ensures var bv' := PutLarge(bv, base, sz, i, x);
            && bv'.small == bv.small && bv'.smallmap == bv.smallmap && bv'.index == bv.index[x := i]
            && bv'.treemap == bv.treemap && bv'.treebins == bv.treebins
            && bv'.trees == bv.trees[i := Insert(bv.trees[i], sz, RootBit(i), x)]
            && bv'.m == Put(bv.m, FindSpot(bv.trees[i], sz, RootBit(i), x), x)
  {
  }

  lemma OnlyTreeIs(bv: BV, bv': BV, base: nat, i: nat, x: nat)
    requires Shape(bv, base) && i < NTREEBINS && |bv'.trees| == |bv'.treebins| == NTREEBINS
             && bv'.trees == bv.trees[i := bv'.trees[i]]
    requires bv'.small == bv.small && bv'.smallmap == bv.smallmap && bv'.treebins == bv.treebins[i := bv'.treebins[i]]
    requires bv'.treemap == bv.treemap || bv'.treemap == bv.treemap - {i}
    requires bv'.index == bv.index || bv'.index == bv.index[x := i]
    requires forall y :: !In(bv.trees[i], y) && y != x ==> SameFields(bv.m, bv'.m, y)
    ensures OnlyTree(bv, bv', base, i, x)
  {
    forall j | 0 <= j < NTREEBINS && j != i ensures TreeSame(bv, bv', j) { }
  }

  lemma PutNode(t: Tree, m: Mem, sz: Links, k: nat, pre: nat, p: nat, up: nat, x: nat)
    requires t.Node? && Rep(t, m, p, up) && TrieOk(t, sz, k, pre) && !In(t, x) && x != 0 && up != x
             && Shr(At(sz, x), k + 1) == pre
    ensures Rep(Insert(t, sz, k, x), Put(m, FindSpot(t, sz, k, x), x), p, up) && TrieOk(Insert(t, sz, k, x), sz, k, pre)
    ensures Insert(t, sz, k, x).Node? && forall y :: In(Insert(t, sz, k, x), y) <==> In(t, y) || y == x
    ensures forall y :: !In(t, y) && y != x ==> SameFields(m, Put(m, FindSpot(t, sz, k, x), x), y)
  {
    PutRep(t, m, sz, k, pre, p, up, x);
    InsertOk(t, sz, k, pre, x);
    InsertNode(t, sz, k, x);
    forall y | !In(t, y) && y != x
      ensures SameFields(m, Put(m, FindSpot(t, sz, k, x), x), y)
    {
      PutFrame(t, m, sz, k, pre, p, up, x, y);
    }
  }

  lemma InsertNode(t: Tree, sz: Links, k: int, x: nat)
    requires t.Node?
    ensures Insert(t, sz, k, x).Node?
  {
  }

  lemma PutFirst(bv: BV, base: nat, sz: Links, i: nat, x: nat)
    requires Shape(bv, base) && i < NTREEBINS && bv.trees[i].Nil? && x != 0
             && Shr(At(sz, x), RootBit(i) + 1) == BinPrefix(i)
    ensures var bv' := PutLarge(bv, base, sz, i, x);
            && OnlyTree(bv, bv', base, i, x) && bv'.small == bv.small && bv'.index == bv.index[x := i]
            && i in bv'.treemap && bv'.trees[i] == Node([x], Nil, Nil)
            && Rep(bv'.trees[i], bv'.m, bv'.treebins[i], TreeBin(base, i))
               && TrieOk(bv'.trees[i], sz, RootBit(i), BinPrefix(i))
  {
    var bv' := PutLarge(bv, base, sz, i, x);
    OneLeaf(bv'.m, x, TreeBin(base, i));
    assert NodeOk([x], Nil, Nil, sz, RootBit(i), BinPrefix(i));
  }

  // unlink_large_chunk
  function TakeLarge(bv: BV, base: nat, i: nat, x: nat): BV
    requires i < |bv.trees| == |bv.treebins|
  {
    var t := bv.trees[i];
    var cut := bv.(trees := bv.trees[i := Remove(t, x)]);
    if !HeadIn(t, x) then cut.(m := CutRing(bv.m, x))
    else if bv.treebins[i] == x && |t.ring| > 0 then
      var r := Heir(t, bv.m);
      cut.(m := Settled(t, bv.m, TreeBin(base, i)), treebins := bv.treebins[i := r], treemap := if r == 0
        then bv.treemap - {i} else bv.treemap)
    else if NodeOf(t, x).Node? && |NodeOf(t, x).ring| > 0 then cut.(m := Unlinked(t, bv.m, x))
    else bv
  }

  lemma TakeLargeOk(bv: BV, base: nat, sz: Links, i: nat, x: nat)
    requires BinsOk(bv, base, sz) && i < NTREEBINS && In(bv.trees[i], x)
    ensures var bv' := TakeLarge(bv, base, i, x);
            BinsOk(bv', base, sz) && forall y :: Binned(bv', sz, y) <==> Binned(bv, sz, y) && y != x
  {
    var bv' := TakeLarge(bv, base, i, x);
    LargeIsBinned(bv, base, sz, i, x);
    assert TreeOk(bv, base, sz, i);
    TakeLargeTree(bv, base, sz, i, x);
    hide SmallOk, TreeOk;
    OtherTreesKept(bv, bv', base, sz, i, x);
    hide BinsOk, OnlyTree, TakeLarge;
    forall y
      ensures Binned(bv', sz, y) <==> Binned(bv, sz, y) && y != x
    {
      if !IsSmall(At(sz, y)) && TreeIndex(At(sz, y)) != i { TreesSame(bv, bv', base, i, x, TreeIndex(At(sz, y))); }
    }
  }

  lemma TakeLargeTree(bv: BV, base: nat, sz: Links, i: nat, x: nat)
    requires Shape(bv, base) && i < NTREEBINS && TreeOk(bv, base, sz, i) && In(bv.trees[i], x)
    ensures var bv' := TakeLarge(bv, base, i, x);
            && TreeOk(bv', base, sz, i) && OnlyTree(bv, bv', base, i, x) && bv'.small == bv.small
            && (forall y :: In(bv'.trees[i], y) <==> In(bv.trees[i], y) && y != x)
  {
    var bv' := TakeLarge(bv, base, i, x);
    var t, p, up, k, pre := bv.trees[i], bv.treebins[i], TreeBin(base, i), RootBit(i), BinPrefix(i);
    RepRings(t, bv.m, p, up);
    RemoveOk(t, sz, k, pre, x);
    TakeLargeRep(bv, base, sz, i, x);
    hide TrieOk, Rep, Remove, TakeLarge;
    forall y | In(bv'.trees[i], y)
      ensures LargeMember(bv', base, sz, i, y)
    {
      assert LargeMember(bv, base, sz, i, y);
    }
  }

  lemma TakeLargeRep(bv: BV, base: nat, sz: Links, i: nat, x: nat)
    requires Shape(bv, base) && i < NTREEBINS && TreeOk(bv, base, sz, i) && In(bv.trees[i], x)
    ensures var bv' := TakeLarge(bv, base, i, x);
            && OnlyTree(bv, bv', base, i, x) && bv'.small == bv.small && bv'.index == bv.index
            && bv'.trees == bv.trees[i := Remove(bv.trees[i], x)]
            && Rep(bv'.trees[i], bv'.m, bv'.treebins[i], TreeBin(base, i))
            && (i in bv'.treemap <==> bv'.trees[i].Node?)
  {
    if !HeadIn(bv.trees[i], x) {
      TakeLargeMember(bv, base, sz, i, x);
    } else if x == bv.treebins[i] {
      TakeLargeRoot(bv, base, sz, i, x);
    } else {
      TakeLargeInner(bv, base, sz, i, x);
    }
    hide TakeLarge, OnlyTree, Rep, Remove;
  }

  ghost predicate TreeTaken(bv: BV, bv': BV, base: nat, i: nat, x: nat) {
    && OnlyTree(bv, bv', base, i, x) && bv'.small == bv.small && bv'.index == bv.index
    && bv'.trees == bv.trees[i := Remove(bv.trees[i], x)]
    && Rep(bv'.trees[i], bv'.m, bv'.treebins[i], TreeBin(base, i))
    && (i in bv'.treemap <==> bv'.trees[i].Node?)
  }

  lemma InNode(t: Tree, x: nat)
    requires In(t, x) || HeadIn(t, x)
    ensures t.Node?
  {
  }

  lemma TakenIs(bv: BV, bv': BV, base: nat, i: nat, x: nat)
    requires OnlyTree(bv, bv', base, i, x) && bv'.small == bv.small && bv'.index == bv.index
    requires bv'.trees == bv.trees[i := Remove(bv.trees[i], x)]
    requires Rep(bv'.trees[i], bv'.m, bv'.treebins[i], TreeBin(base, i)) && (i in bv'.treemap <==> bv'.trees[i].Node?)
    ensures TreeTaken(bv, bv', base, i, x)
  {
  }

  lemma TakeLargeIs(bv: BV, base: nat, i: nat, x: nat)
    requires Shape(bv, base) && i < NTREEBINS
    ensures var t, bv' := bv.trees[i], TakeLarge(bv, base, i, x);
            && |bv'.trees| == |bv'.treebins| == NTREEBINS && bv'.small == bv.small && bv'.smallmap == bv.smallmap
               && bv'.index == bv.index
            && (!HeadIn(t, x) ==> bv' == bv.(trees := bv.trees[i := Remove(t, x)], m := CutRing(bv.m, x)))
            && (HeadIn(t, x) && bv.treebins[i] == x && |t.ring| > 0 ==>
                  && bv'.trees == bv.trees[i := Remove(t, x)] && bv'.m == Settled(t, bv.m, TreeBin(base, i))
                  && bv'.treebins == bv.treebins[i := Heir(t, bv.m)]
                  && bv'.treemap == (if Heir(t, bv.m) == 0 then bv.treemap - {i} else bv.treemap))
            && (HeadIn(t, x) && bv.treebins[i] != x && NodeOf(t, x).Node? && |NodeOf(t, x).ring| > 0 ==>
                  bv' == bv.(trees := bv.trees[i := Remove(t, x)], m := Unlinked(t, bv.m, x)))
  {
  }

  lemma TakeLargeMember(bv: BV, base: nat, sz: Links, i: nat, x: nat)
    requires Shape(bv, base) && i < NTREEBINS && TreeOk(bv, base, sz, i) && In(bv.trees[i], x)
             && !HeadIn(bv.trees[i], x)
    ensures TreeTaken(bv, TakeLarge(bv, base, i, x), base, i, x)
  {
    hide *;
    TreeParts(bv, base, sz, i);
    InNode(bv.trees[i], x);
    TakeMember(bv.trees[i], bv.m, sz, RootBit(i), BinPrefix(i), bv.treebins[i], TreeBin(base, i), x);
    TakeLargeIs(bv, base, i, x);
    OnlyTreeIs(bv, TakeLarge(bv, base, i, x), base, i, x);
    TakenIs(bv, TakeLarge(bv, base, i, x), base, i, x);
  }

  lemma TakeLargeRoot(bv: BV, base: nat, sz: Links, i: nat, x: nat)
    requires Shape(bv, base) && i < NTREEBINS && TreeOk(bv, base, sz, i) && HeadIn(bv.trees[i], x)
             && x == bv.treebins[i]
    ensures TreeTaken(bv, TakeLarge(bv, base, i, x), base, i, x)
  {
    hide *;
    TreeParts(bv, base, sz, i);
    InNode(bv.trees[i], x);
    TakeRoot(bv.trees[i], bv.m, sz, RootBit(i), BinPrefix(i), bv.treebins[i], TreeBin(base, i));
    TakeLargeIs(bv, base, i, x);
    OnlyTreeIs(bv, TakeLarge(bv, base, i, x), base, i, x);
    TakenIs(bv, TakeLarge(bv, base, i, x), base, i, x);
  }

  lemma TakeLargeInner(bv: BV, base: nat, sz: Links, i: nat, x: nat)
    requires Shape(bv, base) && i < NTREEBINS && TreeOk(bv, base, sz, i) && HeadIn(bv.trees[i], x)
             && x != bv.treebins[i]
    ensures TreeTaken(bv, TakeLarge(bv, base, i, x), base, i, x)
  {
    hide *;
    TreeParts(bv, base, sz, i);
    InNode(bv.trees[i], x);
    TakeInner(bv.trees[i], bv.m, sz, RootBit(i), BinPrefix(i), bv.treebins[i], TreeBin(base, i), x);
    TakeLargeIs(bv, base, i, x);
    OnlyTreeIs(bv, TakeLarge(bv, base, i, x), base, i, x);
    TakenIs(bv, TakeLarge(bv, base, i, x), base, i, x);
  }

  lemma TakeMember(t: Tree, m: Mem, sz: Links, k: int, pre: nat, p: nat, up: nat, x: nat)
    requires In(t, x) && !HeadIn(t, x) && Rep(t, m, p, up) && TrieOk(t, sz, k, pre)
    ensures Rep(Remove(t, x), CutRing(m, x), p, up) && Remove(t, x).Node?
    ensures forall y :: !In(t, y) ==> SameFields(m, CutRing(m, x), y)
  {
    CutMemberRep(t, m, sz, k, pre, p, up, x);
    forall y | !In(t, y) ensures SameFields(m, CutRing(m, x), y) { CutMemberFrame(t, m, sz, k, pre, p, up, x, y); }
    KeepsRoot(t, m, p, up, x);
  }

  lemma TakeRoot(t: Tree, m: Mem, sz: Links, k: int, pre: nat, p: nat, up: nat)
    requires HeadIn(t, p) && Rep(t, m, p, up) && TrieOk(t, sz, k, pre)
    ensures |t.ring| > 0 && Rep(Remove(t, p), Settled(t, m, up), Heir(t, m), up)
            && (Heir(t, m) == 0 <==> Remove(t, p).Nil?)
    ensures forall y :: !In(t, y) ==> SameFields(m, Settled(t, m, up), y)
  {
    NodeRemoved(t, m, sz, k, pre, p, up);
    HeirNil(t, m, sz, k, pre, p, up);
    forall y | !In(t, y) ensures SameFields(m, Settled(t, m, up), y) { SettledFrame(t, m, sz, k, pre, p, up, up, y); }
  }

  lemma TakeInner(t: Tree, m: Mem, sz: Links, k: int, pre: nat, p: nat, up: nat, x: nat)
    requires HeadIn(t, x) && x != p && Rep(t, m, p, up) && TrieOk(t, sz, k, pre)
    ensures NodeOf(t, x).Node? && |NodeOf(t, x).ring| > 0
    ensures Rep(Remove(t, x), Unlinked(t, m, x), p, up) && Remove(t, x).Node?
    ensures forall y :: !In(t, y) ==> SameFields(m, Unlinked(t, m, x), y)
  {
    RemoveRep(t, m, sz, k, pre, p, up, x);
    HeadNode(t, m, sz, k, pre, p, up, x);
    KeepsRoot(t, m, p, up, x);
    forall y | !In(t, y) ensures SameFields(m, Unlinked(t, m, x), y) { UnlinkedFrame(t, m, sz, k, pre, p, up, x, y); }
  }

  lemma KeepsRoot(t: Tree, m: Mem, p: nat, up: nat, x: nat)
    requires t.Node? && Rep(t, m, p, up) && x != p
    ensures Remove(t, x).Node?
  {
  }

  lemma HeirNil(t: Tree, m: Mem, sz: Links, k: int, pre: nat, p: nat, up: nat)
    requires t.Node? && Rep(t, m, p, up) && TrieOk(t, sz, k, pre)
    ensures Remove(t, p) == RemoveHead(t) && (Heir(t, m) == 0 <==> RemoveHead(t).Nil?)
  {
    NodeRemoved(t, m, sz, k, pre, p, up);
    if |t.ring| > 1 { RingHeir(t, m, sz, k, pre, p, up); } else if HasChild(t) { LeafHeir(t, m, sz, k, pre, p, up); }
  }
}
