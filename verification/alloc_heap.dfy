// A whole heap of src/lj_alloc.c: tags, bins and directly mapped chunks joined.
module AllocHeap {
  import opened AllocRing
  import opened AllocBits
  import opened AllocTree
  import opened AllocBins
  import opened AllocChunks
  import opened AllocTags
  import opened AllocSegs

  const PAGE: nat := 4096
  const DIRECT_FOOT_PAD: nat := 32

  // p in direct is a chunk alone in a mapping of direct[p] bytes.
  type Direct = map<nat, nat>

  predicate BinAt(c: Chunks, x: nat) { x in c && c[x].kind == Bin }

  // The bins hold exactly the chunks of kind Bin, but for those in out.
  ghost predicate Synced(bv: BV, sz: Links, c: Chunks, out: set<nat>)
    requires |bv.small| == NSMALLBINS && |bv.trees| == NTREEBINS
  {
    forall x: nat {:trigger Binned(bv, sz, x)} {:trigger BinAt(c, x)} :: Binned(bv, sz, x) <==> BinAt(c, x) && x !in out
  }

  predicate DirectTag(h: HV, p: nat, mm: nat) {
    mm > DIRECT_FOOT_PAD + 16 && At(h.size, p) + DIRECT_FOOT_PAD == mm && p in h.cin && p !in h.pin
      && At(h.foot, p) == 1
  }

  ghost predicate ClearAll(segs: seq<Segment>, p: nat, n: nat) {
    forall i {:trigger Clear(segs, i, p, n)} :: 0 <= i < |segs| ==> Clear(segs, i, p, n)
  }

  predicate RegionsApart(d: Direct, p: nat, q: nat)
    requires p in d && q in d
  {
    p < q ==> p + d[p] <= q
  }

  ghost predicate DirectAt(h: HV, p: nat, mm: nat) {
    p > 0 && p % 8 == 0 && mm % 8 == 0 && p + mm < TWO64 && DirectTag(h, p, mm) && ClearAll(h.segs, p, mm)
  }

  ghost predicate DirectOk(h: HV, d: Direct) {
    && (forall p {:trigger p in d} :: p in d ==> DirectAt(h, p, d[p]))
    && (forall p, q {:trigger RegionsApart(d, p, q)} :: p in d && q in d ==> RegionsApart(d, p, q))
  }

  // Everything the allocator relies on; out has chunks on their way to or from a bin.
  ghost predicate GoodBut(h: HV, bv: BV, d: Direct, out: set<nat>) {
    && HeapOk(h) && BinsOk(bv, h.st + 16, h.size) && Synced(bv, h.size, h.c, out) && DirectOk(h, d)
  }

  ghost predicate Good(h: HV, bv: BV, d: Direct) { GoodBut(h, bv, d, {}) }

  // -- Parts -----------------------------------------------------------------

  lemma GoodParts(h: HV, bv: BV, d: Direct, out: set<nat>)
    requires GoodBut(h, bv, d, out)
    ensures HeapOk(h) && BinsOk(bv, h.st + 16, h.size) && DirectOk(h, d)
    ensures |bv.small| == NSMALLBINS && |bv.trees| == |bv.treebins| == NTREEBINS && Synced(bv, h.size, h.c, out)
  {
  }

  lemma BinCounts(bv: BV, base: nat, sz: Links)
    requires BinsOk(bv, base, sz)
    ensures |bv.small| == NSMALLBINS && |bv.trees| == |bv.treebins| == NTREEBINS
  {
  }

  // The bins do not look at sizes of chunks they do not hold.
  lemma BinsWrite(bv: BV, base: nat, sz: Links, sz': Links)
    requires BinsOk(bv, base, sz) && forall x {:trigger Binned(bv, sz, x)} ::
             Binned(bv, sz, x) ==> At(sz', x) == At(sz, x)
    ensures BinsOk(bv, base, sz') && forall x {:trigger Binned(bv, sz', x)} {:trigger Binned(bv, sz, x)} ::
            Binned(bv, sz', x) <==> Binned(bv, sz, x)
  {
    BinsSizes(bv, base, sz, sz');
    hide BinsOk;
    forall x: nat
      ensures Binned(bv, sz', x) <==> Binned(bv, sz, x)
    {
      if Binned(bv, sz', x) && !Binned(bv, sz, x) { BinnedElsewhere(bv, base, sz, sz', x); }
    }
  }

  lemma BinnedElsewhere(bv: BV, base: nat, sz: Links, sz': Links, x: nat)
    requires BinsOk(bv, base, sz) && |bv.small| == NSMALLBINS && |bv.trees| == NTREEBINS && Binned(bv, sz', x)
    ensures Binned(bv, sz, x)
  {
    var s := At(sz', x);
    if IsSmall(s) { SmallIsBinned(bv, base, sz, s / 8, x); } else { LargeIsBinned(bv, base, sz, TreeIndex(s), x); }
  }

  // Direct chunks lie off the segments, whose rewriting leaves them alone.
  lemma DirectKept(h: HV, h': HV, d: Direct)
    requires DirectOk(h, d) && OffKept(h, h') && forall p {:trigger p in d} :: p in d ==> ClearAll(h'.segs, p, d[p])
    ensures DirectOk(h', d)
  {
    forall p | p in d
      ensures DirectAt(h', p, d[p])
    {
      assert DirectAt(h, p, d[p]) && ClearAll(h'.segs, p, d[p]);
      ClearOff(h, p, d[p]);
      ClearOff(h', p, d[p]);
      assert SameTag(h, h', p);
    }
  }

  lemma ClearOff(h: HV, p: nat, n: nat)
    requires ClearAll(h.segs, p, n) && n > 0
    ensures Off(h, p)
  {
    forall i | 0 <= i < |h.segs| ensures !(h.segs[i].base <= p < End(h.segs[i])) { assert Clear(h.segs, i, p, n); }
  }

  lemma DirectSame(h: HV, h': HV, d: Direct)
    requires DirectOk(h, d) && OffKept(h, h') && h'.segs == h.segs
    ensures DirectOk(h', d)
  {
    forall p | p in d ensures ClearAll(h'.segs, p, d[p]) { assert DirectAt(h, p, d[p]); }
    DirectKept(h, h', d);
  }

  // -- Rewriting a region ----------------------------------------------------

  // No chunk of the region is in a bin, before or after.
  ghost predicate OutOfBins(h: HV, h': HV, lo: nat, hi: nat, out: set<nat>, out': set<nat>) {
    && (forall x :: lo <= x < hi && BinAt(h.c, x) ==> x in out)
    && (forall x :: lo <= x < hi && BinAt(h'.c, x) ==> x in out')
    && (forall x: nat :: !(lo <= x < hi) ==> (x in out <==> x in out'))
  }

  lemma RetileGood(h: HV, bv: BV, d: Direct, out: set<nat>, out': set<nat>, lo: nat, n1: nat, k1: Kind, n2: nat,
                   k2: Kind)
    requires GoodBut(h, bv, d, out) && CanRetile(h, lo, n1, k1, n2, k2) && (n2 == 0 ==> k2 == k1)
    requires OutOfBins(h, Retile(h, lo, n1, k1, n2, k2), lo, lo + n1 + n2, out, out')
    ensures GoodBut(Retile(h, lo, n1, k1, n2, k2), bv, d, out')
  {
    var h', hi := Retile(h, lo, n1, k1, n2, k2), lo + n1 + n2;
    RetileOk(h, lo, n1, k1, n2, k2);
    RetileIs(h, lo, n1, k1, n2, k2);
    DirectSame(h, h', d);
    RetileSynced(h, bv, out, out', lo, n1, k1, n2, k2);
  }

  lemma RetileSynced(h: HV, bv: BV, out: set<nat>, out': set<nat>, lo: nat, n1: nat, k1: Kind, n2: nat, k2: Kind)
    requires HeapOk(h) && BinsOk(bv, h.st + 16, h.size) && Synced(bv, h.size, h.c, out)
    requires CanRetile(h, lo, n1, k1, n2, k2) && (n2 == 0 ==> k2 == k1)
    requires OutOfBins(h, Retile(h, lo, n1, k1, n2, k2), lo, lo + n1 + n2, out, out')
    ensures var h' := Retile(h, lo, n1, k1, n2, k2); BinsOk(bv, h.st + 16, h'.size) && Synced(bv, h'.size, h'.c, out')
  {
    var h', hi := Retile(h, lo, n1, k1, n2, k2), lo + n1 + n2;
    hide *;
    NotBinned(h, h', bv, lo, hi, out, out');
    RetileSizes(h, lo, n1, k1, n2, k2);
    BinsWrite(bv, h.st + 16, h.size, h'.size);
    RetileBins(h, lo, n1, k1, n2, k2);
    SyncedIs(h, h', bv, lo, hi, out, out');
  }

  lemma NotBinned(h: HV, h': HV, bv: BV, lo: nat, hi: nat, out: set<nat>, out': set<nat>)
    requires BinsOk(bv, h.st + 16, h.size) && Synced(bv, h.size, h.c, out) && OutOfBins(h, h', lo, hi, out, out')
    ensures |bv.small| == NSMALLBINS && |bv.trees| == NTREEBINS
    ensures forall x: nat {:trigger Binned(bv, h.size, x)} :: Binned(bv, h.size, x) ==> x in h.c && !(lo <= x < hi)
  {
    forall x: nat | Binned(bv, h.size, x) ensures x in h.c && !(lo <= x < hi) { assert BinAt(h.c, x); }
  }

  lemma RetileSizes(h: HV, lo: nat, n1: nat, k1: Kind, n2: nat, k2: Kind)
    requires CanRetile(h, lo, n1, k1, n2, k2) && (n2 == 0 ==> k2 == k1)
    ensures forall x: nat :: !(lo <= x < lo + n1 + n2) ==> At(Retile(h, lo, n1, k1, n2, k2).size, x) == At(h.size, x)
  {
    forall x: nat | !(lo <= x < lo + n1 + n2)
      ensures At(Retile(h, lo, n1, k1, n2, k2).size, x) == At(h.size, x)
    {
      RetileTags(h, lo, n1, k1, n2, k2, x);
      hide Retile;
    }
  }

  lemma RetileBins(h: HV, lo: nat, n1: nat, k1: Kind, n2: nat, k2: Kind)
    requires CanRetile(h, lo, n1, k1, n2, k2) && (n2 == 0 ==> k2 == k1)
    ensures forall x: nat :: !(lo <= x < lo + n1 + n2)
                             ==> (BinAt(Retile(h, lo, n1, k1, n2, k2).c, x) <==> BinAt(h.c, x))
  {
    RetileIs(h, lo, n1, k1, n2, k2);
    CoverHas(h.c, lo, n1, k1, n2, k2);
    hide Retile, Cover;
  }

  lemma SyncedIs(h: HV, h': HV, bv: BV, lo: nat, hi: nat, out: set<nat>, out': set<nat>)
    requires |bv.small| == NSMALLBINS && |bv.trees| == NTREEBINS && Synced(bv, h.size, h.c, out)
             && OutOfBins(h, h', lo, hi, out, out')
    requires forall x: nat {:trigger Binned(bv, h'.size, x)} {:trigger Binned(bv, h.size, x)} ::
             Binned(bv, h'.size, x) <==> Binned(bv, h.size, x)
    requires forall x: nat :: !(lo <= x < hi) ==> (BinAt(h'.c, x) <==> BinAt(h.c, x))
    ensures Synced(bv, h'.size, h'.c, out')
  {
    hide Binned, BinAt;
    forall x: nat
      ensures Binned(bv, h'.size, x) <==> BinAt(h'.c, x) && x !in out'
    {
      assert Binned(bv, h.size, x) <==> BinAt(h.c, x) && x !in out;
    }
  }

  // -- On the way to and from the bins ---------------------------------------

  lemma TakenOut(h: HV, bv: BV, bv': BV, d: Direct, out: set<nat>, p: nat)
    requires GoodBut(h, bv, d, out) && BinsOk(bv', h.st + 16, h.size)
    requires forall y: nat {:trigger Binned(bv', h.size, y)} :: Binned(bv', h.size, y)
                                                                <==> Binned(bv, h.size, y) && y != p
    ensures GoodBut(h, bv', d, out + {p})
  {
    GoodParts(h, bv, d, out);
    BinCounts(bv', h.st + 16, h.size);
    hide HeapOk, BinsOk, Binned, DirectOk, BinAt;
    forall x: nat
      ensures Binned(bv', h.size, x) <==> BinAt(h.c, x) && x !in out + {p}
    {
      assert Binned(bv, h.size, x) <==> BinAt(h.c, x) && x !in out;
    }
  }

  lemma PutIn(h: HV, bv: BV, bv': BV, d: Direct, out: set<nat>, p: nat)
    requires GoodBut(h, bv, d, out) && BinsOk(bv', h.st + 16, h.size) && BinAt(h.c, p)
    requires forall y: nat {:trigger Binned(bv', h.size, y)} :: Binned(bv', h.size, y)
                                                                <==> Binned(bv, h.size, y) || y == p
    ensures GoodBut(h, bv', d, out - {p})
  {
    GoodParts(h, bv, d, out);
    BinCounts(bv', h.st + 16, h.size);
    hide HeapOk, BinsOk, Binned, DirectOk, BinAt;
    forall x: nat
      ensures Binned(bv', h.size, x) <==> BinAt(h.c, x) && x !in out - {p}
    {
      assert Binned(bv, h.size, x) <==> BinAt(h.c, x) && x !in out;
    }
  }

  // A chunk that may be put into a bin.
  lemma Insertable(h: HV, bv: BV, d: Direct, out: set<nat>, r: nat)
    requires GoodBut(h, bv, d, out) && BinAt(h.c, r) && r in out
    ensures At(h.size, r) == h.c[r].size && At(h.size, r) % 8 == 0 && At(h.size, r) < SIZE_LIMIT
            && !InState(h.st + 16, r) && r != 0
    ensures |bv.small| == NSMALLBINS && |bv.trees| == NTREEBINS && !Binned(bv, h.size, r)
  {
    GoodParts(h, bv, d, out);
    ChunkFacts(h, r);
    ChunkFacts(h, h.st);
    assert TagOk(h, r) && TagOk(h, h.st);
    assert Binned(bv, h.size, r) <==> BinAt(h.c, r) && r !in out;
    hide HeapOk, BinsOk, Binned, DirectOk;
  }

  // -- What users see --------------------------------------------------------

  // The bytes a user may hold at address a; 0 if a is no block.
  function Cap(c: Chunks, d: Direct, a: nat): nat {
    if a < 16 then 0
    else if a - 16 in d then (if d[a - 16] >= 48 then d[a - 16] - 48 else 0)
    else if a - 16 in c && c[a - 16].kind == Live && c[a - 16].size >= 8 then c[a - 16].size - 8
    else 0
  }

  lemma DirectOutside(h: HV, d: Direct, lo: nat, hi: nat, p: nat)
    requires DirectOk(h, d) && lo <= p < hi && Inside(h.segs, lo, hi - lo)
    ensures p !in d
  {
    var i :| 0 <= i < |h.segs| && Holds(h.segs[i], lo, hi - lo);
    if p in d { DirectClear(h, d, p, i); }
  }

  lemma DirectClear(h: HV, d: Direct, p: nat, i: nat)
    requires DirectOk(h, d) && p in d && i < |h.segs|
    ensures DirectAt(h, p, d[p]) && Clear(h.segs, i, p, d[p]) && !(h.segs[i].base <= p < End(h.segs[i]))
  {
    assert DirectAt(h, p, d[p]);
    assert Clear(h.segs, i, p, d[p]);
  }

  // Retiling gives and takes blocks in its region only.
  lemma RetileCaps(h: HV, d: Direct, lo: nat, n1: nat, k1: Kind, n2: nat, k2: Kind, a: nat)
    requires DirectOk(h, d) && CanRetile(h, lo, n1, k1, n2, k2) && (n2 == 0 ==> k2 == k1)
    ensures var c', hi := Retile(h, lo, n1, k1, n2, k2).c, lo + n1 + n2;
            && (!(lo + 16 <= a < hi + 16) ==> Cap(c', d, a) == Cap(h.c, d, a))
            && (a == lo + 16 ==> Cap(c', d, a) == if k1 == Live then n1 - 8 else 0)
            && (n2 > 0 && a == lo + n1 + 16 ==> Cap(c', d, a) == if k2 == Live then n2 - 8 else 0)
            && (lo + 16 < a < hi + 16 && (n2 == 0 || a != lo + n1 + 16) ==> Cap(c', d, a) == 0)
  {
    RetileIs(h, lo, n1, k1, n2, k2);
    CoverHas(h.c, lo, n1, k1, n2, k2);
    if lo + 16 <= a < lo + n1 + n2 + 16 { DirectOutside(h, d, lo, lo + n1 + n2, a - 16); }
    hide DirectOk, Inside, Retile, Cover;
  }
}
