// Taking memory from free chunks and from top: what the tag writes amount to, and
// what block the user gets.
module AllocUse {
  import opened AllocRing
  import opened AllocBits
  import opened AllocTree
  import opened AllocBins
  import opened AllocLinks
  import AllocFit
  import opened AllocChunks
  import opened AllocTags
  import opened AllocSegs
  import opened AllocHeap

  // The two views agree in all but dv and dvsize.
  predicate SameHeap(h: HV, h': HV) { h' == h.(dv := h'.dv, dvsize := h'.dvsize) }

  lemma TakeWhole(h: HV, p: nat)
    requires HeapOk(h) && p in h.c && Spare(h.c[p].kind)
    ensures var n, h' := h.c[p].size, Retile(h, p, h.c[p].size, Live, 0, Live);
            && CanRetile(h, p, n, Live, 0, Live)
            && SameHeap(h.(c := Cover(h.c, p, n, Live, 0, Live), size := h.size[p := n], cin := h.cin + {p},
               pin := h.pin + {p, p + n}), h')
            && (if p == h.dv then h'.dv == 0 && h'.dvsize == 0 else h'.dv == h.dv && h'.dvsize == h.dvsize)
  {
    ChunkFacts(h, p);
    RegionOne(h.c, h.segs, h.top, p);
    if h.dv != 0 { assert TagOk(h, h.dv); }
    hide HeapOk, Geo, Region, Cover;
    assert h.pin + {p + h.c[p].size} == h.pin + {p, p + h.c[p].size};
  }

  lemma TakePart(h: HV, p: nat, nb: nat, rest: nat, k: Kind)
    requires HeapOk(h) && p in h.c && Spare(h.c[p].kind) && Piece(nb, Live) && Piece(rest, k) && Spare(k)
             && nb + rest == h.c[p].size
    requires k == Dv ==> h.dv == 0 || h.dv == p
    ensures var r, h' := p + nb, Retile(h, p, nb, Live, rest, k);
            && CanRetile(h, p, nb, Live, rest, k)
            && SameHeap(h.(c := Cover(h.c, p, nb, Live, rest, k), size := h.size[p := nb][r := rest],
               cin := h.cin + {p} - {r},
                           pin := h.pin + {p} + {r}, foot := h.foot[r + rest := rest]), h')
            && (if k == Dv then h'.dv == r && h'.dvsize == rest
                else if p == h.dv then h'.dv == 0 && h'.dvsize == 0 else h'.dv == h.dv && h'.dvsize == h.dvsize)
  {
    ChunkFacts(h, p);
    RegionOne(h.c, h.segs, h.top, p);
    if h.dv != 0 { assert TagOk(h, h.dv); ChunkFacts(h, h.dv); }
    hide HeapOk, Geo, Region, Cover;
    var r := p + nb;
    assert h.pin + {r} + {r} - {r + rest} == h.pin + {p} + {r};
  }

  // A block of cap bytes at mem appears, and no other block changes.
  ghost predicate Gave(c: Chunks, c': Chunks, d: Direct, mem: nat, cap: nat) {
    mem % 8 == 0 && Cap(c, d, mem) == 0 && Cap(c', d, mem) == cap && forall a: nat ::
      a != mem ==> Cap(c', d, a) == Cap(c, d, a)
  }

  ghost predicate SameBlocks(c: Chunks, c': Chunks, d: Direct) { forall a: nat :: Cap(c', d, a) == Cap(c, d, a) }

  lemma UsedGives(h: HV, d: Direct, p: nat, n1: nat, n2: nat, k2: Kind)
    requires HeapOk(h) && DirectOk(h, d) && p in h.c && h.c[p].kind != Live && n1 + n2 == h.c[p].size
    requires CanRetile(h, p, n1, Live, n2, k2) && (if n2 == 0 then k2 == Live else k2 != Live)
    ensures Gave(h.c, Retile(h, p, n1, Live, n2, k2).c, d, p + 16, n1 - 8)
  {
    ChunkFacts(h, p);
    RegionOf(h, p, n1, n2, k2);
    hide HeapOk, Retile, CanRetile;
    forall a: nat
      ensures a != p + 16 ==> Cap(Retile(h, p, n1, Live, n2, k2).c, d, a) == Cap(h.c, d, a)
      ensures Cap(Retile(h, p, n1, Live, n2, k2).c, d, p + 16) == n1 - 8
    {
      RetileCaps(h, d, p, n1, Live, n2, k2, a);
      RetileCaps(h, d, p, n1, Live, n2, k2, p + 16);
      if p + 16 <= a < p + n1 + n2 + 16 { DirectOutside(h, d, p, p + n1 + n2, a - 16); }
    }
    DirectOutside(h, d, p, p + n1 + n2, p);
  }

  lemma RegionOf(h: HV, p: nat, n1: nat, n2: nat, k2: Kind)
    requires CanRetile(h, p, n1, Live, n2, k2)
    ensures Inside(h.segs, p, n1 + n2) && n1 >= MIN_CHUNK_SIZE
  {
  }

  lemma SpareNot(k: Kind)
    requires Spare(k)
    ensures k != Live && k != Top && !Last(k)
  {
  }

  lemma WholeOut(h: HV, p: nat, out: set<nat>)
    requires HeapOk(h) && p in h.c && Spare(h.c[p].kind) && (h.c[p].kind == Bin ==> p in out)
    ensures OutOfBins(h, Retile(h, p, h.c[p].size, Live, 0, Live), p, p + h.c[p].size, out, out - {p})
  {
    ChunkFacts(h, p);
    var n := h.c[p].size;
    RetileIs(h, p, n, Live, 0, Live);
    CoverHas(h.c, p, n, Live, 0, Live);
    hide HeapOk, Retile, Cover;
  }

  // A free chunk that is in no bin becomes a block as it is.
  lemma UseWholeOk(h: HV, bv: BV, d: Direct, p: nat, out: set<nat>)
    requires GoodBut(h, bv, d, out) && p in h.c && Spare(h.c[p].kind) && (h.c[p].kind == Bin ==> p in out)
    ensures var n, h' := h.c[p].size, Retile(h, p, h.c[p].size, Live, 0, Live);
            && n >= MIN_CHUNK_SIZE && GoodBut(h', bv, d, out - {p}) && Gave(h.c, h'.c, d, p + 16, n - 8)
            && SameHeap(h.(c := Cover(h.c, p, n, Live, 0, Live), size := h.size[p := n], cin := h.cin + {p},
               pin := h.pin + {p, p + n}), h')
            && (if p == h.dv then h'.dv == 0 && h'.dvsize == 0 else h'.dv == h.dv && h'.dvsize == h.dvsize)
  {
    hide *;
    GoodParts(h, bv, d, out);
    ChunkFacts(h, p);
    TakeWhole(h, p);
    WholeOut(h, p, out);
    RetileGood(h, bv, d, out, out - {p}, p, h.c[p].size, Live, 0, Live);
    SpareNot(h.c[p].kind);
    UsedGives(h, d, p, h.c[p].size, 0, Live);
  }

  function RestOut(out: set<nat>, p: nat, r: nat, k: Kind): set<nat> { if k == Bin then out - {p} + {r} else out - {p} }

  lemma PartOut(h: HV, p: nat, nb: nat, rest: nat, k: Kind, out: set<nat>)
    requires HeapOk(h) && p in h.c && Spare(h.c[p].kind) && (h.c[p].kind == Bin ==> p in out)
             && nb + rest == h.c[p].size && nb > 0 && rest > 0 && Spare(k)
    ensures OutOfBins(h, Retile(h, p, nb, Live, rest, k), p, p + nb + rest, out, RestOut(out, p, p + nb, k))
  {
    ChunkFacts(h, p);
    RetileIs(h, p, nb, Live, rest, k);
    CoverHas(h.c, p, nb, Live, rest, k);
    hide HeapOk, Retile, Cover;
  }

  // The front of a free chunk becomes a block, the rest stays free.
  lemma UsePartOk(h: HV, bv: BV, d: Direct, p: nat, nb: nat, rest: nat, k: Kind, out: set<nat>)
    requires GoodBut(h, bv, d, out) && p in h.c && Spare(h.c[p].kind) && (h.c[p].kind == Bin ==> p in out)
    requires Piece(nb, Live) && Piece(rest, k) && Spare(k) && nb + rest == h.c[p].size
             && (k == Dv ==> h.dv == 0 || h.dv == p)
    ensures var r, h' := p + nb, Retile(h, p, nb, Live, rest, k);
            && nb >= 32 && GoodBut(h', bv, d, RestOut(out, p, r, k)) && Gave(h.c, h'.c, d, p + 16, nb - 8)
            && r in h'.c && h'.c[r] == Ck(rest, k)
            && SameHeap(h.(c := Cover(h.c, p, nb, Live, rest, k), size := h.size[p := nb][r := rest],
               cin := h.cin + {p} - {r},
                           pin := h.pin + {p} + {r}, foot := h.foot[r + rest := rest]), h')
            && (if k == Dv then h'.dv == r && h'.dvsize == rest
                else if p == h.dv then h'.dv == 0 && h'.dvsize == 0 else h'.dv == h.dv && h'.dvsize == h.dvsize)
  {
    hide *;
    PieceSize(nb, Live);
    PieceSize(rest, k);
    GoodParts(h, bv, d, out);
    ChunkFacts(h, p);
    TakePart(h, p, nb, rest, k);
    PartOut(h, p, nb, rest, k, out);
    RetileGood(h, bv, d, out, RestOut(out, p, p + nb, k), p, nb, Live, rest, k);
    SpareNot(h.c[p].kind);
    SpareNot(k);
    UsedGives(h, d, p, nb, rest, k);
    RetileIs(h, p, nb, Live, rest, k);
    CoverHas(h.c, p, nb, Live, rest, k);
  }

  lemma PieceSize(n: nat, k: Kind)
    requires Piece(n, k)
    ensures n >= 32 && n % 8 == 0
  {
  }

  // A free chunk changes between bin and dv: no tag changes.
  lemma ChangeKind(h: HV, bv: BV, d: Direct, p: nat, k: Kind, out: set<nat>)
    requires GoodBut(h, bv, d, out) && p in h.c && Spare(h.c[p].kind) && Spare(k) && (h.c[p].kind == Bin ==> p in out)
             && (k == Dv ==> h.dv == 0)
    ensures var n, h' := h.c[p].size, Retile(h, p, h.c[p].size, k, 0, k);
            && GoodBut(h', bv, d, RestOut(out, p, p, k)) && SameBlocks(h.c, h'.c, d)
            && h'.c == Cover(h.c, p, n, k, 0, k) && p in h'.c && h'.c[p] == Ck(n, k) && SameHeap(h.(c := h'.c), h')
            && (forall q :: q in h.c && q != p ==> q in h'.c && h'.c[q] == h.c[q])
            && (if k == Dv then h'.dv == p && h'.dvsize == n
                else if p == h.dv then h'.dv == 0 && h'.dvsize == 0 else h'.dv == h.dv && h'.dvsize == h.dvsize)
  {
    hide *;
    GoodParts(h, bv, d, out);
    ChunkFacts(h, p);
    SpareNot(h.c[p].kind);
    SpareNot(k);
    ChangeCan(h, p, k);
    ChangeOut(h, p, k, out);
    RetileGood(h, bv, d, out, RestOut(out, p, p, k), p, h.c[p].size, k, 0, k);
    ChangeTags(h, p, k);
    ChangeBlocks(h, d, p, k);
  }

  lemma ChangeCan(h: HV, p: nat, k: Kind)
    requires HeapOk(h) && p in h.c && Spare(h.c[p].kind) && Spare(k) && (k == Dv ==> h.dv == 0)
    ensures CanRetile(h, p, h.c[p].size, k, 0, k)
  {
    ChunkFacts(h, p);
    RegionOne(h.c, h.segs, h.top, p);
    hide HeapOk, Geo, Region;
  }

  lemma ChangeOut(h: HV, p: nat, k: Kind, out: set<nat>)
    requires HeapOk(h) && p in h.c && Spare(k) && (h.c[p].kind == Bin ==> p in out)
    ensures OutOfBins(h, Retile(h, p, h.c[p].size, k, 0, k), p, p + h.c[p].size, out, RestOut(out, p, p, k))
  {
    ChunkFacts(h, p);
    RetileIs(h, p, h.c[p].size, k, 0, k);
    CoverHas(h.c, p, h.c[p].size, k, 0, k);
    hide HeapOk, Retile, Cover;
  }

  lemma ChangeTags(h: HV, p: nat, k: Kind)
    requires HeapOk(h) && p in h.c && Spare(h.c[p].kind) && Spare(k)
    ensures var n, h' := h.c[p].size, Retile(h, p, h.c[p].size, k, 0, k);
            && h'.c == Cover(h.c, p, n, k, 0, k) && p in h'.c && h'.c[p] == Ck(n, k) && SameHeap(h.(c := h'.c), h')
            && (forall q :: q in h.c && q != p ==> q in h'.c && h'.c[q] == h.c[q])
            && (if k == Dv then h'.dv == p && h'.dvsize == n
                else if p == h.dv then h'.dv == 0 && h'.dvsize == 0 else h'.dv == h.dv && h'.dvsize == h.dvsize)
  {
    var n := h.c[p].size;
    ChunkFacts(h, p);
    CoverHas(h.c, p, n, k, 0, k);
    if h.dv != 0 { ChunkFacts(h, h.dv); }
    hide HeapOk, Geo, Cover;
    assert h.size[p := n] == h.size;
    assert h.cin - {p} == h.cin;
    assert h.pin + {p} - {p + n} == h.pin;
    assert h.foot[p + n := n] == h.foot;
  }

  lemma ChangeBlocks(h: HV, d: Direct, p: nat, k: Kind)
    requires HeapOk(h) && p in h.c && Spare(h.c[p].kind) && Spare(k)
    ensures SameBlocks(h.c, Retile(h, p, h.c[p].size, k, 0, k).c, d)
  {
    var n := h.c[p].size;
    ChunkFacts(h, p);
    RetileIs(h, p, n, k, 0, k);
    CoverHas(h.c, p, n, k, 0, k);
    hide HeapOk, Geo, Cover, Retile;
  }

  // The front of top becomes a block.
  lemma UseTopOk(h: HV, bv: BV, d: Direct, nb: nat)
    requires Good(h, bv, d) && Piece(nb, Live) && nb < h.topsize
    ensures var p, r, rest, h' := h.top, h.top + nb, h.topsize - nb,
            Retile(h, h.top, nb, Live, h.topsize - nb + TOP_FOOT_SIZE, Top);
            && Good(h', bv, d) && Gave(h.c, h'.c, d, p + 16, nb - 8)
            && h' == h.(c := Cover(h.c, p, nb, Live, rest + TOP_FOOT_SIZE, Top), size := h.size[p := nb][r := rest],
               cin := h.cin + {p} - {r},
                        pin := h.pin + {p} + {r}, top := r, topsize := rest)
  {
    GoodParts(h, bv, d, {});
    TopIs(h);
    TopCan(h, nb);
    TopOut(h, nb);
    RetileGood(h, bv, d, {}, {}, h.top, nb, Live, h.topsize - nb + TOP_FOOT_SIZE, Top);
    UsedGives(h, d, h.top, nb, h.topsize - nb + TOP_FOOT_SIZE, Top);
    TopTags(h, nb);
    hide *;
  }

  lemma TopIs(h: HV)
    requires HeapOk(h)
    ensures h.top in h.c && h.c[h.top] == Ck(h.topsize + TOP_FOOT_SIZE, Top) && h.topsize % 8 == 0
            && h.topsize < SIZE_LIMIT && h.top in h.pin && h.top % 8 == 0
    ensures h.top > 0 && h.dv != h.top && At(h.size, h.top) == h.topsize && h.top !in h.cin
    ensures h.top + h.topsize + TOP_FOOT_SIZE == End(h.segs[0]) && h.segs[0].base <= h.top
  {
    ChunkFacts(h, h.st);
    ChunkFacts(h, h.top);
    assert TagOk(h, h.top);
    TopInside(h.c, h.segs, h.top);
  }

  lemma TopCan(h: HV, nb: nat)
    requires HeapOk(h) && Piece(nb, Live) && nb < h.topsize
    ensures CanRetile(h, h.top, nb, Live, h.topsize - nb + TOP_FOOT_SIZE, Top)
  {
    TopIs(h);
    ChunkFacts(h, h.top);
    RegionOne(h.c, h.segs, h.top, h.top);
    hide HeapOk, Geo, Region;
  }

  lemma TopOut(h: HV, nb: nat)
    requires HeapOk(h) && nb > 0 && nb < h.topsize
    ensures OutOfBins(h, Retile(h, h.top, nb, Live, h.topsize - nb + TOP_FOOT_SIZE, Top), h.top,
            h.top + nb + (h.topsize - nb + TOP_FOOT_SIZE), {}, {})
  {
    TopIs(h);
    ChunkFacts(h, h.top);
    RetileIs(h, h.top, nb, Live, h.topsize - nb + TOP_FOOT_SIZE, Top);
    CoverHas(h.c, h.top, nb, Live, h.topsize - nb + TOP_FOOT_SIZE, Top);
    hide HeapOk, Retile, Cover;
  }

  lemma TopTags(h: HV, nb: nat)
    requires HeapOk(h) && nb < h.topsize
    ensures var p, r, rest := h.top, h.top + nb, h.topsize - nb;
            Retile(h, p, nb, Live, rest + TOP_FOOT_SIZE, Top) ==
              h.(c := Cover(h.c, p, nb, Live, rest + TOP_FOOT_SIZE, Top), size := h.size[p := nb][r := rest],
                cin := h.cin + {p} - {r},
                 pin := h.pin + {p} + {r}, top := r, topsize := rest)
  {
    TopIs(h);
    ChunkFacts(h, h.top);
    if h.dv != 0 { ChunkFacts(h, h.dv); }
    hide HeapOk, Geo, Cover;
    var r := h.top + nb;
    assert h.pin + {r} + {r} == h.pin + {h.top} + {r};
  }

  // -- Best fit --------------------------------------------------------------

  // Chunks tmalloc_large and the dv test choose among.
  predicate Candidate(c: Chunks, x: nat) { x in c && (c[x].kind == Dv || (c[x].kind == Bin && !IsSmall(c[x].size))) }

  ghost predicate Best(c: Chunks, nb: nat, v: nat) {
    Candidate(c, v) && c[v].size >= nb && forall x: nat {:trigger Candidate(c, x)} ::
      Candidate(c, x) && c[x].size >= nb ==> c[v].size <= c[x].size
  }

  ghost predicate NoneFits(c: Chunks, nb: nat) {
    forall x: nat {:trigger Candidate(c, x)} :: Candidate(c, x) ==> c[x].size < nb
  }

  // What is in the bins: v is a smallest chunk of at least nb bytes, there is none,
  // and none within a word of it.
  ghost predicate Least(c: Chunks, nb: nat, v: nat) { BinAt(c, v) && c[v].size >= nb && AtLeast(c, nb, c[v].size) }

  ghost predicate AtLeast(c: Chunks, nb: nat, n: nat) {
    forall x: nat {:trigger BinAt(c, x)} :: BinAt(c, x) && c[x].size >= nb ==> c[x].size >= n
  }

  ghost predicate NoneBinned(c: Chunks, nb: nat) {
    forall x: nat {:trigger BinAt(c, x)} :: BinAt(c, x) ==> c[x].size < nb
  }

  ghost predicate NoneNear(c: Chunks, nb: nat) {
    forall x: nat {:trigger BinAt(c, x)} :: BinAt(c, x) && IsSmall(c[x].size) && c[x].size >= nb ==> c[x].size > nb + 8
  }

  // Where lj_alloc_malloc takes a request of nb bytes from, unless it must ask the system.
  ghost predicate Prefers(h: HV, nb: nat, mem: nat) {
    if IsSmall(nb) && (!NoneNear(h.c, nb) || (h.dvsize < nb && !NoneBinned(h.c, nb)))
      then mem >= 16 && Least(h.c, nb, mem - 16)
    else if !IsSmall(nb) && !NoneFits(h.c, nb) then mem >= 16 && Best(h.c, nb, mem - 16)
    else if nb <= h.dvsize then mem == h.dv + 16
    else if nb < h.topsize then mem == h.top + 16
    else true
  }

  // No free chunk has nb bytes, and top has not more than that.
  ghost predicate NoRoom(c: Chunks, nb: nat) {
    forall x: nat {:trigger x in c} :: x in c ==>
      match c[x].kind
      case Bin => c[x].size < nb
      case Dv => c[x].size < nb
      case Top => c[x].size <= nb + TOP_FOOT_SIZE
      case _ => true
  }

  ghost predicate TreeFit(bv: BV, sz: Links, nb: nat, x: nat)
    requires |bv.small| == NSMALLBINS && |bv.trees| == NTREEBINS
  {
    Binned(bv, sz, x) && !IsSmall(At(sz, x)) && At(sz, x) >= nb
  }

  // The wrapping test of tmalloc_large compares with dv only if dv is large enough.
  lemma DvTest(h: HV, bv: BV, d: Direct, nb: nat, v: nat, rsize: nat)
    requires Good(h, bv, d) && |bv.small| == NSMALLBINS && |bv.trees| == NTREEBINS && 0 < nb < TWO64
    requires if v == 0 then rsize == TWO64 - nb else TreeFit(bv, h.size, nb, v) && rsize == At(h.size, v) - nb
    requires forall x: nat {:trigger TreeFit(bv, h.size, nb, x)} :: TreeFit(bv, h.size, nb, x)
                                                                    ==> v != 0 && At(h.size, v) <= At(h.size, x)
    ensures h.dvsize < TWO64
    ensures v != 0 && rsize < AllocFit.Minus(h.dvsize, nb) ==> Best(h.c, nb, v)
    ensures !(v != 0 && rsize < AllocFit.Minus(h.dvsize, nb)) ==> if h.dvsize >= nb then Best(h.c, nb, h.dv)
            else NoneFits(h.c, nb)
  {
    DvIs(h, bv, d, {});
    if v != 0 { BinSize(h, bv, d, v); }
    forall x: nat | Candidate(h.c, x) && h.c[x].size >= nb
      ensures if x == h.dv then h.c[x].size == h.dvsize else v != 0 && At(h.size, v) <= h.c[x].size
    {
      if h.c[x].kind == Bin {
        BinSize(h, bv, d, x);
        assert TreeFit(bv, h.size, nb, x);
      } else {
        DvOnly(h, bv, d, x);
      }
    }
    hide Good;
    var fits := v != 0 && rsize < AllocFit.Minus(h.dvsize, nb);
    assert v != 0 ==> Candidate(h.c, v) && h.c[v].size == At(h.size, v);
    assert h.dv != 0 ==> Candidate(h.c, h.dv);
    if v != 0 { Wraps(h.dvsize, nb, rsize); }
    assert v != 0 ==> (fits <==> h.dvsize < nb || At(h.size, v) < h.dvsize);
  }

  lemma Wraps(dvsize: nat, nb: nat, rsize: nat)
    requires dvsize < SIZE_LIMIT && rsize < SIZE_LIMIT && 0 < nb < SIZE_LIMIT
    ensures (rsize < AllocFit.Minus(dvsize, nb) <==> dvsize < nb || rsize < dvsize - nb)
  {
  }

  // With dv too small, the smallest chunk of the trees is a best fit.
  lemma SmallestFits(h: HV, bv: BV, d: Direct, nb: nat, v: nat)
    requires Good(h, bv, d) && |bv.small| == NSMALLBINS && |bv.trees| == NTREEBINS && h.dvsize < nb
             && TreeFit(bv, h.size, nb, v)
    requires forall x: nat {:trigger TreeFit(bv, h.size, nb, x)} :: TreeFit(bv, h.size, nb, x)
                                                                    ==> At(h.size, v) <= At(h.size, x)
    ensures Best(h.c, nb, v)
  {
    BinSize(h, bv, d, v);
    forall x: nat | Candidate(h.c, x) && h.c[x].size >= nb
      ensures At(h.size, v) <= h.c[x].size
    {
      if h.c[x].kind == Bin {
        BinSize(h, bv, d, x);
        assert TreeFit(bv, h.size, nb, x);
      } else {
        DvOnly(h, bv, d, x);
      }
    }
  }

  lemma DvOnly(h: HV, bv: BV, d: Direct, x: nat)
    requires Good(h, bv, d) && x in h.c && h.c[x].kind == Dv
    ensures x == h.dv && h.c[x].size == h.dvsize
  {
    GoodParts(h, bv, d, {});
    assert TagOk(h, x);
  }

  lemma DvIs(h: HV, bv: BV, d: Direct, out: set<nat>)
    requires GoodBut(h, bv, d, out)
    ensures h.dvsize < SIZE_LIMIT && h.dvsize % 8 == 0 && (h.dv == 0 <==> h.dvsize == 0) && 0 !in h.c
    ensures h.dv != 0 ==> h.dv in h.c && h.c[h.dv] == Ck(h.dvsize, Dv)
  {
    GoodParts(h, bv, d, out);
    if h.dv != 0 { ChunkFacts(h, h.dv); }
    if 0 in h.c { ChunkFacts(h, 0); }
  }

  lemma BinSize(h: HV, bv: BV, d: Direct, x: nat)
    requires Good(h, bv, d) && |bv.small| == NSMALLBINS && |bv.trees| == NTREEBINS
    ensures Binned(bv, h.size, x) <==> BinAt(h.c, x)
    ensures BinAt(h.c, x) ==> x > 0 && At(h.size, x) == h.c[x].size && h.c[x].size < SIZE_LIMIT && h.c[x].size % 8 == 0
  {
    GoodParts(h, bv, d, {});
    assert Binned(bv, h.size, x) <==> BinAt(h.c, x) && x !in {};
    if BinAt(h.c, x) { ChunkFacts(h, x); }
  }
}
