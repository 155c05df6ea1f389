// Blocks that change their size in place, and blocks as users see them.
module AllocResize {
  import opened AllocRing
  import opened AllocBits
  import opened AllocTree
  import opened AllocBins
  import opened AllocChunks
  import opened AllocTags
  import opened AllocSegs
  import opened AllocHeap
  import opened AllocUse
  import opened AllocMerge
  import opened AllocGrow

  // -- Cutting a used chunk in two -------------------------------------------

  lemma CutOk(h: HV, bv: BV, d: Direct, p: nat, nb: nat, rest: nat)
    requires Good(h, bv, d) && p in h.c && h.c[p].kind == Live && h.c[p].size == nb + rest && Piece(nb, Live)
             && Piece(rest, Live)
    ensures var r, h' := p + nb, Retile(h, p, nb, Live, rest, Live);
            && Good(h', bv, d) && nb >= 32 && rest >= 32
            && h' == h.(c := Cover(h.c, p, nb, Live, rest, Live), size := h.size[p := nb][r := rest],
               cin := h.cin + {p} + {r}, pin := h.pin + {r} + {r + rest})
            && forall a: nat :: Cap(h'.c, d, a) == if a == p + 16 then nb - 8 else if a == r + 16 then rest - 8
               else Cap(h.c, d, a)
  {
    GoodParts(h, bv, d, {});
    CutCan(h, p, nb, rest);
    CutOut(h, p, nb, rest);
    RetileGood(h, bv, d, {}, {}, p, nb, Live, rest, Live);
    CutTags(h, p, nb, rest);
    forall a: nat
      ensures Cap(Retile(h, p, nb, Live, rest, Live).c, d, a) == if a == p + 16 then nb - 8 else if a == p + nb + 16
              then rest - 8 else Cap(h.c, d, a)
    {
      CutCap(h, d, p, nb, rest, a);
    }
    PieceSize(nb, Live);
    PieceSize(rest, Live);
    hide *;
  }

  lemma CutCan(h: HV, p: nat, nb: nat, rest: nat)
    requires HeapOk(h) && p in h.c && h.c[p].kind == Live && h.c[p].size == nb + rest && Piece(nb, Live)
             && Piece(rest, Live)
    ensures CanRetile(h, p, nb, Live, rest, Live)
  {
    ChunkFacts(h, p);
    RegionOne(h.c, h.segs, h.top, p);
    hide HeapOk, Geo, Region;
  }

  lemma CutOut(h: HV, p: nat, nb: nat, rest: nat)
    requires HeapOk(h) && p in h.c && h.c[p].kind == Live && h.c[p].size == nb + rest && nb > 0 && rest > 0
    ensures OutOfBins(h, Retile(h, p, nb, Live, rest, Live), p, p + nb + rest, {}, {})
  {
    ChunkFacts(h, p);
    RetileIs(h, p, nb, Live, rest, Live);
    CoverHas(h.c, p, nb, Live, rest, Live);
    hide HeapOk, Geo, Retile, Cover;
  }

  lemma CutTags(h: HV, p: nat, nb: nat, rest: nat)
    requires HeapOk(h) && p in h.c && h.c[p].kind == Live && h.c[p].size == nb + rest
    requires rest > 0
    ensures var r := p + nb;
            Retile(h, p, nb, Live, rest, Live) ==
              h.(c := Cover(h.c, p, nb, Live, rest, Live), size := h.size[p := nb][r := rest], cin := h.cin + {p} + {r},
                pin := h.pin + {r} + {r + rest})
  {
    ChunkFacts(h, p);
    if h.dv != 0 { ChunkFacts(h, h.dv); }
    hide HeapOk, Geo, Cover;
  }

  lemma CutCap(h: HV, d: Direct, p: nat, nb: nat, rest: nat, a: nat)
    requires HeapOk(h) && DirectOk(h, d) && CanRetile(h, p, nb, Live, rest, Live) && p in h.c
             && h.c[p].size == nb + rest && rest > 0
    ensures Cap(Retile(h, p, nb, Live, rest, Live).c, d, a) == if a == p + 16 then nb - 8 else if a == p + nb + 16
            then rest - 8 else Cap(h.c, d, a)
    ensures nb >= 8 && rest >= 8
  {
    ChunkFacts(h, p);
    RegionOf(h, p, nb, rest, Live);
    RetileCaps(h, d, p, nb, Live, rest, Live, a);
    CutPieces(h, p, nb, rest);
    if p + 16 <= a < p + nb + rest + 16 { DirectOutside(h, d, p, p + nb + rest, a - 16); }
    hide HeapOk, Geo, DirectOk, CanRetile, Retile;
  }

  lemma CutPieces(h: HV, p: nat, nb: nat, rest: nat)
    requires CanRetile(h, p, nb, Live, rest, Live) && rest > 0
    ensures nb >= 32 && rest >= 32
  {
  }

  // -- Growing into top ------------------------------------------------------

  lemma ExtendOk(h: HV, bv: BV, d: Direct, p: nat, nb: nat)
    requires Good(h, bv, d) && p in h.c && h.c[p].kind == Live && h.top == p + h.c[p].size && Piece(nb, Live)
             && nb < h.c[p].size + h.topsize
    ensures var r, rest := p + nb, h.c[p].size + h.topsize - nb;
            var h' := Retile(h, p, nb, Live, rest + TOP_FOOT_SIZE, Top);
            && Good(h', bv, d) && nb >= 32
            && h' == h.(c := Cover(h.c, p, nb, Live, rest + TOP_FOOT_SIZE, Top), size := h.size[p := nb][r := rest],
               cin := h.cin + {p} - {r},
                        pin := h.pin + {r}, top := r, topsize := rest)
            && forall a: nat :: Cap(h'.c, d, a) == if a == p + 16 then nb - 8 else Cap(h.c, d, a)
  {
    GoodParts(h, bv, d, {});
    var rest := h.c[p].size + h.topsize - nb;
    ExtendCan(h, p, nb);
    ExtendOut(h, p, nb);
    RetileGood(h, bv, d, {}, {}, p, nb, Live, rest + TOP_FOOT_SIZE, Top);
    ExtendTags(h, p, nb);
    forall a: nat
      ensures Cap(Retile(h, p, nb, Live, rest + TOP_FOOT_SIZE, Top).c, d, a) == if a == p + 16 then nb - 8
              else Cap(h.c, d, a)
    {
      ExtendCap(h, d, p, nb, a);
    }
    PieceSize(nb, Live);
    hide *;
  }

  lemma ExtendCan(h: HV, p: nat, nb: nat)
    requires HeapOk(h) && p in h.c && h.c[p].kind == Live && h.top == p + h.c[p].size && Piece(nb, Live)
             && nb < h.c[p].size + h.topsize
    ensures CanRetile(h, p, nb, Live, h.c[p].size + h.topsize - nb + TOP_FOOT_SIZE, Top)
  {
    ChunkFacts(h, p);
    TopIs(h);
    NextFacts(h, p);
    hide HeapOk, Geo, Region;
    Sum8(h.c[p].size, h.topsize);
    Minus8(h.c[p].size + h.topsize, nb);
  }

  lemma ExtendOut(h: HV, p: nat, nb: nat)
    requires HeapOk(h) && p in h.c && h.c[p].kind == Live && h.top == p + h.c[p].size
             && 0 < nb < h.c[p].size + h.topsize
    ensures var rest := h.c[p].size + h.topsize - nb + TOP_FOOT_SIZE;
            OutOfBins(h, Retile(h, p, nb, Live, rest, Top), p, p + nb + rest, {}, {})
  {
    var rest := h.c[p].size + h.topsize - nb + TOP_FOOT_SIZE;
    ChunkFacts(h, p);
    TopIs(h);
    ChunkFacts(h, h.top);
    RetileIs(h, p, nb, Live, rest, Top);
    CoverHas(h.c, p, nb, Live, rest, Top);
    hide HeapOk, Geo, Retile, Cover;
  }

  lemma ExtendTags(h: HV, p: nat, nb: nat)
    requires HeapOk(h) && p in h.c && h.c[p].kind == Live && h.top == p + h.c[p].size
             && 0 < nb < h.c[p].size + h.topsize
    ensures var r, rest := p + nb, h.c[p].size + h.topsize - nb;
            Retile(h, p, nb, Live, rest + TOP_FOOT_SIZE, Top) ==
              h.(c := Cover(h.c, p, nb, Live, rest + TOP_FOOT_SIZE, Top), size := h.size[p := nb][r := rest],
                cin := h.cin + {p} - {r},
                 pin := h.pin + {r}, top := r, topsize := rest)
  {
    ChunkFacts(h, p);
    TopIs(h);
    ChunkFacts(h, h.top);
    if h.dv != 0 { ChunkFacts(h, h.dv); }
    hide HeapOk, Geo, Cover;
    assert h.pin + {p + nb} + {p + nb} == h.pin + {p + nb};
  }

  lemma ExtendCap(h: HV, d: Direct, p: nat, nb: nat, a: nat)
    requires HeapOk(h) && DirectOk(h, d) && p in h.c && h.c[p].kind == Live && h.top == p + h.c[p].size
             && nb < h.c[p].size + h.topsize
    requires CanRetile(h, p, nb, Live, h.c[p].size + h.topsize - nb + TOP_FOOT_SIZE, Top)
    ensures nb >= 8
    ensures Cap(Retile(h, p, nb, Live, h.c[p].size + h.topsize - nb + TOP_FOOT_SIZE, Top).c, d, a) == if a == p + 16
            then nb - 8 else Cap(h.c, d, a)
  {
    var rest := h.c[p].size + h.topsize - nb + TOP_FOOT_SIZE;
    ChunkFacts(h, p);
    TopIs(h);
    ChunkFacts(h, h.top);
    RegionOf(h, p, nb, rest, Top);
    RetileCaps(h, d, p, nb, Live, rest, Top, a);
    if p + 16 <= a < p + nb + rest + 16 { DirectOutside(h, d, p, p + nb + rest, a - 16); }
    hide HeapOk, Geo, DirectOk, CanRetile, Retile;
  }

  // -- Blocks ----------------------------------------------------------------

  // Blocks are aligned, apart from each other and from the allocator's own data.
  lemma BlocksApart(h: HV, bv: BV, d: Direct, a: nat, b: nat)
    requires Good(h, bv, d) && Cap(h.c, d, a) > 0
    ensures a % 8 == 0
    ensures Cap(h.c, d, b) > 0 && a != b ==> Misses(a, Cap(h.c, d, a), b, Cap(h.c, d, b))
    ensures Misses(a, Cap(h.c, d, a), h.st + 16, 864)
    ensures forall i :: 1 <= i < |h.segs| ==> Misses(a, Cap(h.c, d, a), h.segs[i].rec, 24)
  {
    GoodParts(h, bv, d, {});
    WhichBlock(h, bv, d, a);
    ChunkFacts(h, h.st);
    assert TagOk(h, h.st);
    if a - 16 in d {
      DirectLess(h, bv, d, a - 16);
      ClearUnneeded(h, bv, d - {a - 16}, a - 16, d[a - 16]);
      hide GoodBut, HeapOk, BinsOk;
    } else {
      if Cap(h.c, d, b) > 0 && b != a { LiveApart(h, bv, d, a - 16, b); }
      forall i | 1 <= i < |h.segs| ensures Misses(a, Cap(h.c, d, a), h.segs[i].rec, 24) { LiveRecord(h, a - 16, i); }
      ChunkFacts(h, a - 16);
      hide GoodBut, HeapOk, BinsOk;
    }
  }

  lemma LiveApart(h: HV, bv: BV, d: Direct, p: nat, b: nat)
    requires Good(h, bv, d) && p in h.c && h.c[p].kind == Live && p !in d && Cap(h.c, d, b) > 0 && b != p + 16
    ensures h.c[p].size >= 32 && Misses(p + 16, h.c[p].size - 8, b, Cap(h.c, d, b))
  {
    GoodParts(h, bv, d, {});
    ChunkFacts(h, p);
    if b - 16 in d {
      assert DirectAt(h, b - 16, d[b - 16]);
      UsedClear(h, p, b - 16, d[b - 16]);
    } else {
      ChunkFacts(h, b - 16);
    }
    hide HeapOk, BinsOk, Geo;
  }

  lemma LiveRecord(h: HV, p: nat, i: nat)
    requires HeapOk(h) && p in h.c && h.c[p].kind == Live && 1 <= i < |h.segs|
    ensures h.c[p].size >= 32 && Misses(p + 16, h.c[p].size - 8, h.segs[i].rec, 24)
  {
    assert SegOk(h.c, h.segs, h.top, i);
    var r := h.segs[i].rec - 16;
    ChunkFacts(h, p);
    ChunkFacts(h, r);
    LastChunk(h.c, h.segs, h.top, i);
    hide HeapOk, Geo;
  }

  // No word that means something to the allocator lies in a block: not the head of
  // a chunk, not a foot in use, nothing of a free chunk after its own prev_foot.
  lemma WordsApart(h: HV, bv: BV, d: Direct, a: nat, q: nat)
    requires Good(h, bv, d) && Cap(h.c, d, a) > 0 && q in h.c
    ensures Misses(a, Cap(h.c, d, a), q + 8, 8)
    ensures q !in h.pin ==> Misses(a, Cap(h.c, d, a), q, 8)
    ensures !InUse(h.c[q].kind) ==> h.c[q].size >= 32 && Misses(a, Cap(h.c, d, a), q + 8, h.c[q].size - 8)
  {
    GoodParts(h, bv, d, {});
    WhichBlock(h, bv, d, a);
    ChunkFacts(h, q);
    if a - 16 in d {
      DirectChunk(h, d, a - 16, q);
    } else {
      ChunkFacts(h, a - 16);
      ReadsNext(h, a - 16);
    }
    hide GoodBut, HeapOk, BinsOk, Geo, DirectOk;
  }

  lemma DirectChunk(h: HV, d: Direct, p: nat, q: nat)
    requires HeapOk(h) && DirectOk(h, d) && p in d && q in h.c
    ensures d[p] >= 48 && Misses(p, d[p], q, h.c[q].size) && h.c[q].size >= 32
  {
    assert DirectAt(h, p, d[p]) && Placed(h.c, h.segs, h.top, q);
    var i :| 0 <= i < |h.segs| && Holds(h.segs[i], q, h.c[q].size);
    assert Clear(h.segs, i, p, d[p]);
  }

  // -- Bytes -----------------------------------------------------------------

  // The n bytes at a.
  function Bytes(b: Links, a: nat, n: nat): (r: seq<nat>)
    ensures |r| == n
  {
    if n == 0 then [] else Bytes(b, a, n - 1) + [At(b, a + n - 1)]
  }

  lemma {:induction false} BytesSame(b: Links, b': Links, a: nat, n: nat)
    requires forall x: nat :: a <= x < a + n ==> At(b', x) == At(b, x)
    ensures Bytes(b', a, n) == Bytes(b, a, n)
  {
    if n > 0 { BytesSame(b, b', a, n - 1); }
  }

  lemma {:induction false} BytesMoved(b: Links, b': Links, src: nat, dst: nat, n: nat)
    requires forall x: nat :: dst <= x < dst + n ==> At(b', x) == At(b, src + (x - dst))
    ensures Bytes(b', dst, n) == Bytes(b, src, n)
  {
    if n > 0 {
      BytesMoved(b, b', src, dst, n - 1);
      assert At(b', dst + n - 1) == At(b, src + n - 1);
    }
  }

  function Min(a: nat, b: nat): nat { if a < b then a else b }

  // What a reallocation of the block at ptr to n bytes does to blocks and bytes.
  ghost predicate Reallocs(c: Chunks, d: Direct, b: Links, c': Chunks, d': Direct, b': Links, ptr: nat, n: nat,
                           res: nat) {
    if res == 0 then b' == b && forall a: nat :: Cap(c', d', a) == Cap(c, d, a)
    else
      && res % 8 == 0 && Cap(c', d', res) >= n
      && (res != ptr ==> Cap(c, d, res) == 0 && Cap(c', d', ptr) == 0)
      && (forall a: nat :: a != ptr && a != res ==> Cap(c', d', a) == Cap(c, d, a))
      && (var m := Min(Cap(c, d, ptr), n); Bytes(b', res, m) == Bytes(b, ptr, m))
      && (forall a: nat :: a != ptr && a != res ==> Bytes(b', a, Cap(c, d, a)) == Bytes(b, a, Cap(c, d, a)))
  }

  // What lj_alloc_f(ptr, n) does to blocks and bytes.
  ghost predicate Serves(c: Chunks, d: Direct, b: Links, c': Chunks, d': Direct, b': Links, ptr: nat, n: nat,
                         res: nat) {
    if n == 0 then res == 0 && b' == b && Cap(c', d', ptr) == 0 && forall a: nat ::
      a != ptr ==> Cap(c', d', a) == Cap(c, d, a)
    else if ptr == 0 then
      && b' == b && (res == 0 ==> forall a: nat :: Cap(c', d', a) == Cap(c, d, a))
      && (res != 0 ==> Grants(c, d, c', d', res, Cap(c', d', res)) && Cap(c', d', res) >= n)
    else Reallocs(c, d, b, c', d', b', ptr, n, res)
  }

  // malloc, memcpy, free.
  lemma CopyReallocs(h: HV, bv: BV, c0: Chunks, d0: Direct, d: Direct, b: Links, c': Chunks, d': Direct, b': Links,
                     ptr: nat, n: nat, res: nat, m: nat)
    requires Good(h, bv, d) && Grants(c0, d0, h.c, d, res, Cap(h.c, d, res)) && Cap(h.c, d, res) >= n
             && Cap(c0, d0, ptr) > 0 && n > 0
    requires m == Min(Cap(c0, d0, ptr), n) && Drops(h.c, d, c', d', ptr) && res > 0
    requires forall x: nat :: res <= x < res + m ==> At(b', x) == At(b, ptr + (x - res))
    requires forall x: nat :: !(res <= x < res + m) ==> At(b', x) == At(b, x)
    ensures Reallocs(c0, d0, b, c', d', b', ptr, n, res)
  {
    assert res != ptr;
    BytesMoved(b, b', ptr, res, m);
    forall a: nat | a != ptr && a != res
      ensures Bytes(b', a, Cap(c0, d0, a)) == Bytes(b, a, Cap(c0, d0, a))
    {
      if Cap(c0, d0, a) > 0 {
        BlocksApart(h, bv, d, res, a);
        hide Good, Bytes;
        BytesSame(b, b', a, Cap(c0, d0, a));
      }
    }
  }

  // A block changes in place.
  lemma InPlaceReallocs(c: Chunks, d: Direct, c': Chunks, d': Direct, b: Links, ptr: nat, n: nat)
    requires ptr > 0 && ptr % 8 == 0 && Cap(c', d', ptr) >= n && forall a: nat ::
             a != ptr ==> Cap(c', d', a) == Cap(c, d, a)
    ensures Reallocs(c, d, b, c', d', b, ptr, n, ptr)
  {
    hide Bytes, Cap;
  }

  // A direct chunk moves, or gets a new size where it is.
  lemma DirectMove(h: HV, h': HV, bv: BV, d: Direct, p: nat, q: nat, mm: nat, b: Links, b': Links, n: nat)
    requires Good(h, bv, d) && p in d && ClearAll(h.segs, q, mm) && OffDirect(d - {p}, q, mm) && WroteIn(h, h', q, mm)
    requires q > 0 && q % 8 == 0 && mm % 8 == 0 && q + mm < TWO64 && DirectTag(h', q, mm) && mm >= n + 48 && n > 0
    requires forall x: nat :: q <= x < q + Min(d[p], mm) ==> At(b', x) == At(b, p + (x - q))
    requires forall x: nat :: !(q <= x < q + mm) ==> At(b', x) == At(b, x)
    ensures Good(h', bv, (d - {p})[q := mm])
    ensures Reallocs(h.c, d, b, h'.c, (d - {p})[q := mm], b', p + 16, n, q + 16)
  {
    var d1, d' := d - {p}, (d - {p})[q := mm];
    DirectLess(h, bv, d, p);
    DirectNew(h, h', bv, d1, q, mm);
    DirectCap(h, bv, d, p);
    hide *;
    var m := Min(Cap(h.c, d, p + 16), n);
    MinBelow(d[p], mm, n, m);
    BytesMoved(b, b', p + 16, q + 16, m);
    forall a: nat | a != p + 16 && a != q + 16
      ensures Bytes(b', a, Cap(h.c, d, a)) == Bytes(b, a, Cap(h.c, d, a))
    {
      OthersKept(h, bv, d, p, q, mm, b, b', a);
    }
    MovedReallocs(h.c, d, b, h'.c, d', b', p + 16, n, q + 16, mm);
  }

  lemma MinBelow(was: nat, mm: nat, n: nat, m: nat)
    requires mm >= n + 48 && was >= 48 && m == Min(was - 48, n)
    ensures m + 16 <= Min(was, mm)
  {
  }

  lemma DirectCap(h: HV, bv: BV, d: Direct, p: nat)
    requires Good(h, bv, d) && p in d
    ensures d[p] >= 48 && Cap(h.c, d, p + 16) == d[p] - 48
  {
    GoodParts(h, bv, d, {});
    assert DirectAt(h, p, d[p]);
  }

  lemma OthersKept(h: HV, bv: BV, d: Direct, p: nat, q: nat, mm: nat, b: Links, b': Links, a: nat)
    requires Good(h, bv, d) && p in d && Good(h, bv, d - {p}) && ClearAll(h.segs, q, mm) && OffDirect(d - {p}, q, mm)
             && a != p + 16
    requires forall x: nat :: !(q <= x < q + mm) ==> At(b', x) == At(b, x)
    ensures Bytes(b', a, Cap(h.c, d, a)) == Bytes(b, a, Cap(h.c, d, a))
  {
    OthersMiss(h, h, bv, d - {p}, q, mm, a);
    hide GoodBut, Bytes;
    BytesSame(b, b', a, Cap(h.c, d, a));
  }

  lemma MovedReallocs(c: Chunks, d: Direct, b: Links, c': Chunks, d': Direct, b': Links, ptr: nat, n: nat, res: nat,
                      mm: nat)
    requires Drops(c, d, c, d - {ptr - 16}, ptr) && ptr >= 16 && mm >= n + 48
             && Grants(c, d - {ptr - 16}, c', d', res, mm - 48) && res > 0
    requires var m := Min(Cap(c, d, ptr), n); Bytes(b', res, m) == Bytes(b, ptr, m)
    requires forall a: nat :: a != ptr && a != res ==> Bytes(b', a, Cap(c, d, a)) == Bytes(b, a, Cap(c, d, a))
    ensures Reallocs(c, d, b, c', d', b', ptr, n, res)
  {
    hide Bytes, Cap, Min;
  }

  // Other blocks lie outside the region of a direct chunk.
  lemma OthersMiss(h: HV, h': HV, bv: BV, d: Direct, q: nat, mm: nat, a: nat)
    requires Good(h, bv, d) && ClearAll(h.segs, q, mm) && OffDirect(d, q, mm)
    ensures Cap(h.c, d, a) > 0 ==> Misses(a, Cap(h.c, d, a), q, mm)
  {
    ClearUnneeded(h, bv, d, q, mm);
  }

  lemma NothingReallocs(c: Chunks, d: Direct, c': Chunks, d': Direct, b: Links, ptr: nat, n: nat)
    requires forall a: nat :: Cap(c', d', a) == Cap(c, d, a)
    ensures Reallocs(c, d, b, c', d', b, ptr, n, 0)
  {
  }

  // The words of a direct chunk and of the fake chunk after it.
  function DirectWords(h: HV, p: nat, mm: nat): HV
    requires mm >= DIRECT_FOOT_PAD
  {
    var f := p + (mm - DIRECT_FOOT_PAD);
    h.(foot := h.foot[p := 1], size := h.size[p := mm - DIRECT_FOOT_PAD][f := 8][f + 8 := 0],
      cin := h.cin + {p} + {f} - {f + 8},
       pin := h.pin - {p} + {f} - {f + 8})
  }

  lemma DirectWordsOk(h: HV, p: nat, mm: nat)
    requires mm > 48
    ensures WroteIn(h, DirectWords(h, p, mm), p, mm) && DirectTag(DirectWords(h, p, mm), p, mm)
  {
  }
}
