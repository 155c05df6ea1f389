// Freeing: a chunk is joined with the free chunks next to it, and then lies
// between used ones.
module AllocMerge {
  import opened AllocRing
  import opened AllocBits
  import opened AllocChunks
  import opened AllocTags
  import opened AllocHeap
  import opened AllocUse
  import opened AllocBins

  // Where the joined chunk begins and ends, and what becomes of it.
  function JoinStart(h: HV, p: nat): nat { if p in h.pin || At(h.foot, p) > p then p else p - At(h.foot, p) }

  function JoinEnd(h: HV, p: nat): nat
    requires p in h.c
  {
    var q := p + h.c[p].size;
    if q in h.c && !InUse(h.c[q].kind) then q + h.c[q].size else q
  }

  predicate KindAt(c: Chunks, p: nat, k: Kind) { p in c && c[p].kind == k }

  function JoinKind(h: HV, p: nat): Kind
    requires p in h.c
  {
    var q := p + h.c[p].size;
    if KindAt(h.c, q, Top) then Top
    else if KindAt(h.c, q, Dv) || (p !in h.pin && KindAt(h.c, JoinStart(h, p), Dv)) then Dv
    else Bin
  }

  lemma NextFacts(h: HV, p: nat)
    requires HeapOk(h) && p in h.c && h.c[p].kind == Live
    ensures var q := p + h.c[p].size;
            && q in h.c && Region(h.c, h.segs, h.top, p, JoinEnd(h, p)) && JoinEnd(h, p) > p && JoinEnd(h, p) >= q
            && (h.c[q].kind != Top ==> JoinEnd(h, p) in h.c && InUse(h.c[JoinEnd(h, p)].kind))
            && (p <= h.top < JoinEnd(h, p) <==> h.c[q].kind == Top)
            && (q == h.dv ==> h.c[q].kind == Dv)
  {
    var q := p + h.c[p].size;
    ChunkFacts(h, p);
    ChunkFacts(h, q);
    RegionOne(h.c, h.segs, h.top, p);
    if !InUse(h.c[q].kind) {
      RegionOne(h.c, h.segs, h.top, q);
      RegionJoin(h.c, h.segs, h.top, p, p, q, q + h.c[q].size);
    }
    if h.dv != 0 { ChunkFacts(h, h.dv); }
    hide HeapOk, Geo, Region;
  }

  lemma PrevFacts(h: HV, p: nat)
    requires HeapOk(h) && p in h.c && h.c[p].kind == Live && p !in h.pin
    ensures var lo := JoinStart(h, p);
            && lo in h.c && Spare(h.c[lo].kind) && lo + h.c[lo].size == p && lo in h.pin && lo < p
            && Region(h.c, h.segs, h.top, lo, p) && !(lo <= h.top < p) && At(h.foot, p) == h.c[lo].size
               && At(h.foot, p) <= p
            && (lo == h.dv <==> h.c[lo].kind == Dv)
  {
    var lo := JoinStart(h, p);
    ChunkFacts(h, p);
    ChunkFacts(h, lo);
    RegionOne(h.c, h.segs, h.top, lo);
    if h.dv != 0 { ChunkFacts(h, h.dv); }
    hide HeapOk, Geo, Region;
  }

  lemma JoinRegion(h: HV, p: nat)
    requires HeapOk(h) && p in h.c && h.c[p].kind == Live
    ensures JoinStart(h, p) <= p < JoinEnd(h, p) && Region(h.c, h.segs, h.top, JoinStart(h, p), JoinEnd(h, p))
    ensures JoinStart(h, p) <= h.top < JoinEnd(h, p) <==> JoinKind(h, p) == Top
  {
    NextFacts(h, p);
    if p !in h.pin {
      PrevFacts(h, p);
      ChunkFacts(h, p);
      var lo := JoinStart(h, p);
      SpareNot(h.c[lo].kind);
      RegionJoin(h.c, h.segs, h.top, lo, lo, p, JoinEnd(h, p));
    }
    hide HeapOk, Geo, Region;
  }

  // The coalescing of lj_alloc_free leaves no free neighbours.
  lemma JoinOk(h: HV, p: nat)
    requires HeapOk(h) && p in h.c && h.c[p].kind == Live
    ensures JoinStart(h, p) < JoinEnd(h, p) && CanRetile(h, JoinStart(h, p), JoinEnd(h, p) - JoinStart(h, p),
            JoinKind(h, p), 0, JoinKind(h, p))
  {
    JoinRegion(h, p);
    JoinPiece(h, p);
    NextFacts(h, p);
    JoinDv(h, p);
    if p !in h.pin { PrevFacts(h, p); }
    hide HeapOk, Geo, Region, TagOk;
  }

  lemma JoinDv(h: HV, p: nat)
    requires HeapOk(h) && p in h.c && h.c[p].kind == Live
    ensures JoinKind(h, p) == Dv ==> JoinStart(h, p) <= h.dv < JoinEnd(h, p)
  {
    var q := p + h.c[p].size;
    NextFacts(h, p);
    assert TagOk(h, q);
    ChunkFacts(h, q);
    if p !in h.pin {
      PrevFacts(h, p);
      assert TagOk(h, JoinStart(h, p));
    }
    hide HeapOk, Geo, Region;
  }

  lemma Sum8(a: nat, b: nat)
    requires a % 8 == 0 && b % 8 == 0
    ensures (a + b) % 8 == 0
  {
  }

  lemma JoinPiece(h: HV, p: nat)
    requires HeapOk(h) && p in h.c && h.c[p].kind == Live
    ensures JoinStart(h, p) <= p < JoinEnd(h, p) && Piece(JoinEnd(h, p) - JoinStart(h, p), JoinKind(h, p))
  {
    BackPiece(h, p);
    FrontPiece(h, p);
    hide HeapOk, JoinStart, JoinEnd;
    Sum8(p - JoinStart(h, p), JoinEnd(h, p) - p);
  }

  lemma BackPiece(h: HV, p: nat)
    requires HeapOk(h) && p in h.c && h.c[p].kind == Live
    ensures JoinStart(h, p) <= p && (p - JoinStart(h, p)) % 8 == 0
  {
    if p !in h.pin {
      PrevFacts(h, p);
      ChunkFacts(h, JoinStart(h, p));
    } else {
      assert p - p == 0;
    }
    hide HeapOk, Geo, Region;
  }

  lemma FrontPiece(h: HV, p: nat)
    requires HeapOk(h) && p in h.c && h.c[p].kind == Live
    ensures JoinEnd(h, p) >= p + MIN_CHUNK_SIZE && (JoinEnd(h, p) - p) % 8 == 0
            && (JoinKind(h, p) == Top ==> JoinEnd(h, p) >= p + TOP_FOOT_SIZE)
    ensures JoinKind(h, p) != Tail && JoinKind(h, p) != State
  {
    var q := p + h.c[p].size;
    ChunkFacts(h, p);
    ChunkFacts(h, q);
    if h.c[q].kind == Top { TopIs(h); }
    hide HeapOk, Geo;
    Sum8(h.c[p].size, h.c[q].size);
  }

  // -- The whole of a free ---------------------------------------------------

  // The block at mem disappears, and no other block changes.
  ghost predicate Took(c: Chunks, c': Chunks, d: Direct, mem: nat) {
    Cap(c', d, mem) == 0 && forall a: nat :: a != mem ==> Cap(c', d, a) == Cap(c, d, a)
  }

  function Joined(h: HV, p: nat): HV
    requires p in h.c && JoinStart(h, p) <= JoinEnd(h, p)
  {
    Retile(h, JoinStart(h, p), JoinEnd(h, p) - JoinStart(h, p), JoinKind(h, p), 0, JoinKind(h, p))
  }

  function BackOut(h: HV, p: nat): set<nat> {
    if p !in h.pin && KindAt(h.c, JoinStart(h, p), Bin) then {JoinStart(h, p)} else {}
  }

  // The free neighbours that have to leave their bins.
  function JoinOut(h: HV, p: nat): set<nat>
    requires p in h.c
  {
    BackOut(h, p) + if KindAt(h.c, p + h.c[p].size, Bin) then {p + h.c[p].size} else {}
  }

  function LeftOut(h: HV, p: nat): set<nat>
    requires p in h.c
  {
    if JoinKind(h, p) == Bin then {JoinStart(h, p)} else {}
  }

  // Between the ends there is only p and its neighbours.
  lemma JoinChunks(h: HV, p: nat, x: nat)
    requires HeapOk(h) && p in h.c && h.c[p].kind == Live && x in h.c && JoinStart(h, p) <= x < JoinEnd(h, p)
    ensures x == p || (x == p + h.c[p].size && !InUse(h.c[x].kind))
            || (x == JoinStart(h, p) && p !in h.pin && Spare(h.c[x].kind))
  {
    var q := p + h.c[p].size;
    NextFacts(h, p);
    ChunkFacts(h, p);
    ChunkFacts(h, q);
    ChunkFacts(h, x);
    if p !in h.pin {
      PrevFacts(h, p);
      ChunkFacts(h, JoinStart(h, p));
    }
    hide HeapOk, Geo, Region;
  }

  lemma JoinOutOk(h: HV, p: nat)
    requires HeapOk(h) && p in h.c && h.c[p].kind == Live && JoinStart(h, p) < JoinEnd(h, p)
    ensures OutOfBins(h, Joined(h, p), JoinStart(h, p), JoinEnd(h, p), JoinOut(h, p), LeftOut(h, p))
  {
    hide HeapOk, Joined, JoinStart, JoinEnd, JoinOut, LeftOut, JoinKind;
    forall x: nat
      ensures JoinStart(h, p) <= x < JoinEnd(h, p) && BinAt(h.c, x) ==> x in JoinOut(h, p)
      ensures JoinStart(h, p) <= x < JoinEnd(h, p) && BinAt(Joined(h, p).c, x) ==> x in LeftOut(h, p)
      ensures !(JoinStart(h, p) <= x < JoinEnd(h, p)) ==> x !in JoinOut(h, p) && x !in LeftOut(h, p)
    {
      JoinOutHas(h, p, x);
      LeftOutHas(h, p, x);
      if x in JoinOut(h, p) || x in LeftOut(h, p) { OutWithin(h, p, x); }
    }
  }

  lemma JoinOutHas(h: HV, p: nat, x: nat)
    requires HeapOk(h) && p in h.c && h.c[p].kind == Live
    ensures JoinStart(h, p) <= x < JoinEnd(h, p) && BinAt(h.c, x) ==> x in JoinOut(h, p)
  {
    if JoinStart(h, p) <= x < JoinEnd(h, p) && x in h.c { JoinChunks(h, p, x); }
    hide HeapOk;
  }

  lemma LeftOutHas(h: HV, p: nat, x: nat)
    requires p in h.c && JoinStart(h, p) < JoinEnd(h, p)
    ensures JoinStart(h, p) <= x < JoinEnd(h, p) && BinAt(Joined(h, p).c, x) ==> x in LeftOut(h, p)
  {
    var lo, n, k := JoinStart(h, p), JoinEnd(h, p) - JoinStart(h, p), JoinKind(h, p);
    RetileIs(h, lo, n, k, 0, k);
    CoverHas(h.c, lo, n, k, 0, k);
    hide Retile, Cover, JoinStart, JoinEnd, JoinKind;
  }

  lemma OutWithin(h: HV, p: nat, x: nat)
    requires HeapOk(h) && p in h.c && h.c[p].kind == Live && (x in JoinOut(h, p) || x in LeftOut(h, p))
    ensures JoinStart(h, p) <= x < JoinEnd(h, p)
  {
    NextFacts(h, p);
    ChunkFacts(h, p);
    ChunkFacts(h, p + h.c[p].size);
    if p !in h.pin { PrevFacts(h, p); }
    hide HeapOk, Geo, Region;
  }

  lemma JoinTook(h: HV, d: Direct, p: nat)
    requires HeapOk(h) && DirectOk(h, d) && p in h.c && h.c[p].kind == Live && JoinStart(h, p) < JoinEnd(h, p)
    ensures Took(h.c, Joined(h, p).c, d, p + 16)
  {
    var lo, hi, k := JoinStart(h, p), JoinEnd(h, p), JoinKind(h, p);
    JoinOk(h, p);
    hide HeapOk, Geo, DirectOk, CanRetile;
    forall a: nat
      ensures a != p + 16 ==> Cap(Joined(h, p).c, d, a) == Cap(h.c, d, a)
      ensures a == p + 16 ==> Cap(Joined(h, p).c, d, a) == 0
    {
      JoinCap(h, d, p, a);
    }
  }

  lemma JoinCap(h: HV, d: Direct, p: nat, a: nat)
    requires HeapOk(h) && DirectOk(h, d) && p in h.c && h.c[p].kind == Live && JoinStart(h, p) < JoinEnd(h, p)
    ensures a != p + 16 ==> Cap(Joined(h, p).c, d, a) == Cap(h.c, d, a)
    ensures a == p + 16 ==> Cap(Joined(h, p).c, d, a) == 0
  {
    var lo, n, k := JoinStart(h, p), JoinEnd(h, p) - JoinStart(h, p), JoinKind(h, p);
    hide *;
    JoinOk(h, p);
    RetileCaps(h, d, lo, n, k, 0, k, a);
    JoinedIs(h, p);
    JoinNotLive(k, h, p);
    JoinRegion(h, p);
    if lo + 16 <= a < lo + n + 16 && a != p + 16 { OldCap(h, d, p, a); }
  }

  lemma JoinedIs(h: HV, p: nat)
    requires p in h.c && JoinStart(h, p) < JoinEnd(h, p)
    ensures Joined(h, p) == Retile(h, JoinStart(h, p), JoinEnd(h, p) - JoinStart(h, p), JoinKind(h, p), 0,
            JoinKind(h, p))
  {
  }

  lemma JoinNotLive(k: Kind, h: HV, p: nat)
    requires p in h.c && k == JoinKind(h, p)
    ensures k != Live
  {
  }

  lemma OldCap(h: HV, d: Direct, p: nat, a: nat)
    requires HeapOk(h) && DirectOk(h, d) && p in h.c && h.c[p].kind == Live
             && JoinStart(h, p) + 16 <= a < JoinEnd(h, p) + 16 && a != p + 16
    ensures Cap(h.c, d, a) == 0
  {
    JoinRegion(h, p);
    RegionInside(h, JoinStart(h, p), JoinEnd(h, p));
    DirectOutside(h, d, JoinStart(h, p), JoinEnd(h, p), a - 16);
    if a - 16 in h.c { JoinChunks(h, p, a - 16); }
    hide HeapOk, DirectOk, Region, Inside, JoinStart, JoinEnd;
  }

  lemma RegionInside(h: HV, lo: nat, hi: nat)
    requires Region(h.c, h.segs, h.top, lo, hi)
    ensures lo < hi && Inside(h.segs, lo, hi - lo)
  {
  }

  lemma JoinGood(h: HV, bv: BV, d: Direct, p: nat)
    requires p in h.c && h.c[p].kind == Live && GoodBut(h, bv, d, JoinOut(h, p))
    ensures JoinStart(h, p) < JoinEnd(h, p) && GoodBut(Joined(h, p), bv, d, LeftOut(h, p))
            && Took(h.c, Joined(h, p).c, d, p + 16)
    ensures Joined(h, p).c == Cover(h.c, JoinStart(h, p), JoinEnd(h, p) - JoinStart(h, p), JoinKind(h, p), 0,
            JoinKind(h, p))
    ensures JoinStart(h, p) in Joined(h, p).c
            && Joined(h, p).c[JoinStart(h, p)] == Ck(JoinEnd(h, p) - JoinStart(h, p), JoinKind(h, p))
  {
    GoodParts(h, bv, d, JoinOut(h, p));
    JoinOk(h, p);
    JoinOutOk(h, p);
    JoinTook(h, d, p);
    JoinRetiled(h, bv, d, p);
    hide *;
  }

  lemma JoinRetiled(h: HV, bv: BV, d: Direct, p: nat)
    requires p in h.c && GoodBut(h, bv, d, JoinOut(h, p)) && JoinStart(h, p) < JoinEnd(h, p)
    requires CanRetile(h, JoinStart(h, p), JoinEnd(h, p) - JoinStart(h, p), JoinKind(h, p), 0, JoinKind(h, p))
    requires OutOfBins(h, Joined(h, p), JoinStart(h, p), JoinEnd(h, p), JoinOut(h, p), LeftOut(h, p))
    ensures GoodBut(Joined(h, p), bv, d, LeftOut(h, p))
    ensures Joined(h, p).c == Cover(h.c, JoinStart(h, p), JoinEnd(h, p) - JoinStart(h, p), JoinKind(h, p), 0,
            JoinKind(h, p))
    ensures JoinStart(h, p) in Joined(h, p).c
            && Joined(h, p).c[JoinStart(h, p)] == Ck(JoinEnd(h, p) - JoinStart(h, p), JoinKind(h, p))
  {
    hide GoodBut, CanRetile, OutOfBins, Retile, Cover, JoinStart, JoinEnd, JoinKind, JoinOut, LeftOut;
    var lo, n, k := JoinStart(h, p), JoinEnd(h, p) - JoinStart(h, p), JoinKind(h, p);
    RetileGood(h, bv, d, JoinOut(h, p), LeftOut(h, p), lo, n, k, 0, k);
    RetileIs(h, lo, n, k, 0, k);
    CoverHas(h.c, lo, n, k, 0, k);
  }

  // The tags of a joined chunk that is not top, as lj_alloc_free writes them.
  lemma JoinTags(h: HV, p: nat)
    requires HeapOk(h) && p in h.c && h.c[p].kind == Live && JoinStart(h, p) < JoinEnd(h, p) && JoinKind(h, p) != Top
    ensures var q, lo, hi, n, h' := p + h.c[p].size, JoinStart(h, p), JoinEnd(h, p), JoinEnd(h, p) - JoinStart(h, p),
            Joined(h, p);
            && q in h.c && SameHeap(h.(c := h'.c, size := h.size[lo := n], cin := h.cin - {lo}, foot := h.foot[hi := n],
                                       pin := if InUse(h.c[q].kind) then h.pin - {q} + {lo} else h.pin + {lo}), h')
            && (if JoinKind(h, p) == Dv then h'.dv == lo && h'.dvsize == n else h'.dv == h.dv && h'.dvsize == h.dvsize)
  {
    var lo, hi, n, k := JoinStart(h, p), JoinEnd(h, p), JoinEnd(h, p) - JoinStart(h, p), JoinKind(h, p);
    JoinPins(h, p);
    DvOutside(h, p);
    JoinSpare(h, p);
    hide HeapOk, Geo, Region, Cover, JoinStart, JoinEnd, JoinKind;
  }

  lemma JoinSpare(h: HV, p: nat)
    requires p in h.c && JoinKind(h, p) != Top
    ensures Spare(JoinKind(h, p))
  {
  }

  lemma JoinPins(h: HV, p: nat)
    requires HeapOk(h) && p in h.c && h.c[p].kind == Live && JoinKind(h, p) != Top
    ensures var q, lo, hi := p + h.c[p].size, JoinStart(h, p), JoinEnd(h, p);
            q in h.c && h.pin + {lo} - {hi} == if InUse(h.c[q].kind) then h.pin - {q} + {lo} else h.pin + {lo}
  {
    var q, lo, hi := p + h.c[p].size, JoinStart(h, p), JoinEnd(h, p);
    NextFacts(h, p);
    assert TagOk(h, q);
    ChunkFacts(h, p);
    ChunkFacts(h, q);
    hide HeapOk, Geo, Region;
    assert lo != hi;
    assert !InUse(h.c[q].kind) ==> hi !in h.pin;
  }

  lemma DvOutside(h: HV, p: nat)
    requires HeapOk(h) && p in h.c && h.c[p].kind == Live
    ensures JoinKind(h, p) == Bin ==> !(JoinStart(h, p) <= h.dv < JoinEnd(h, p))
    ensures JoinKind(h, p) == Top ==> (JoinStart(h, p) <= h.dv < JoinEnd(h, p) <==> JoinStart(h, p) == h.dv)
  {
    NextFacts(h, p);
    ChunkFacts(h, p);
    if h.dv != 0 {
      ChunkFacts(h, h.dv);
      if JoinStart(h, p) <= h.dv < JoinEnd(h, p) { JoinChunks(h, p, h.dv); }
    }
    if p !in h.pin { PrevFacts(h, p); ChunkFacts(h, JoinStart(h, p)); }
    hide HeapOk, Geo, Region;
  }

  // And when it is joined with top.
  lemma JoinTopTags(h: HV, p: nat)
    requires HeapOk(h) && p in h.c && h.c[p].kind == Live && JoinStart(h, p) < JoinEnd(h, p) && JoinKind(h, p) == Top
    ensures var lo, n, h' := JoinStart(h, p), JoinEnd(h, p) - JoinStart(h, p), Joined(h, p);
            && n >= TOP_FOOT_SIZE && h.top == p + h.c[p].size && JoinEnd(h, p) == h.top + h.topsize + TOP_FOOT_SIZE
            && h' == h.(c := h'.c, size := h.size[lo := n - TOP_FOOT_SIZE], cin := h.cin - {lo}, pin := h.pin + {lo},
               top := lo, topsize := n - TOP_FOOT_SIZE,
                        dv := if lo == h.dv then 0 else h.dv, dvsize := if lo == h.dv then 0 else h.dvsize)
  {
    TopIs(h);
    NextFacts(h, p);
    ChunkFacts(h, p);
    ChunkFacts(h, p + h.c[p].size);
    DvOutside(h, p);
    if p !in h.pin { PrevFacts(h, p); }
    hide HeapOk, Geo, Region, Cover;
  }

  // What lj_alloc_free reads from the words around a block.
  lemma FreeReads(h: HV, bv: BV, d: Direct, p: nat)
    requires Good(h, bv, d) && p in h.c && h.c[p].kind == Live
    ensures At(h.size, p) == h.c[p].size && h.c[p].size >= 32
    ensures var q := p + h.c[p].size;
            && q in h.c && (q in h.cin <==> InUse(h.c[q].kind)) && q in h.pin
            && (q == h.top <==> h.c[q].kind == Top) && (q == h.dv <==> h.c[q].kind == Dv)
            && (h.c[q].kind == Bin ==> At(h.size, q) == h.c[q].size) && (h.c[q].kind == Dv ==> h.dvsize == h.c[q].size)
    ensures p !in h.pin ==>
              var f := At(h.foot, p);
              && f <= p && JoinStart(h, p) == p - f && p - f in h.c && h.c[p - f].size == f && f % 2 == 0
                 && Spare(h.c[p - f].kind) && p - f > 0
              && (p - f == h.dv <==> h.c[p - f].kind == Dv) && At(h.size, p - f) == f
  {
    GoodParts(h, bv, d, {});
    hide *;
    ReadsNext(h, p);
    if p !in h.pin { ReadsPrev(h, p); }
  }

  lemma ReadsNext(h: HV, p: nat)
    requires HeapOk(h) && p in h.c && h.c[p].kind == Live
    ensures At(h.size, p) == h.c[p].size && h.c[p].size >= 32
    ensures var q := p + h.c[p].size;
            && q in h.c && (q in h.cin <==> InUse(h.c[q].kind)) && q in h.pin
            && (q == h.top <==> h.c[q].kind == Top) && (q == h.dv <==> h.c[q].kind == Dv)
            && (h.c[q].kind == Bin ==> At(h.size, q) == h.c[q].size) && (h.c[q].kind == Dv ==> h.dvsize == h.c[q].size)
  {
    ChunkFacts(h, p);
    var q := p + h.c[p].size;
    ChunkFacts(h, q);
    NextPin(h, p);
    if h.dv != 0 { ChunkFacts(h, h.dv); }
    hide HeapOk, Geo;
  }

  lemma ReadsPrev(h: HV, p: nat)
    requires HeapOk(h) && p in h.c && h.c[p].kind == Live && p !in h.pin
    ensures var f := At(h.foot, p);
            && f <= p && JoinStart(h, p) == p - f && p - f in h.c && h.c[p - f].size == f && f % 2 == 0
               && Spare(h.c[p - f].kind) && p - f > 0
            && (p - f == h.dv <==> h.c[p - f].kind == Dv) && At(h.size, p - f) == f
  {
    PrevFacts(h, p);
    ChunkFacts(h, JoinStart(h, p));
    EightEven(At(h.foot, p));
    hide HeapOk, Geo, Region;
  }

  lemma EightEven(n: nat)
    ensures n % 8 == 0 ==> n % 2 == 0
  {
    var k := n / 8;
    assert n == 8 * k + n % 8;
    if n % 8 == 0 { Twice(4 * k, n); }
  }

  lemma Twice(k: nat, n: nat)
    requires n == 2 * k
    ensures n % 2 == 0
  {
  }

  lemma NextPin(h: HV, p: nat)
    requires HeapOk(h) && p in h.c && h.c[p].kind == Live
    ensures p + h.c[p].size in h.pin
  {
    ChunkFacts(h, p);
    var q := p + h.c[p].size;
    ChunkFacts(h, q);
    var r := q - At(h.foot, q);
    if q !in h.pin { ChunkFacts(h, r); }
    hide HeapOk, Geo;
  }

  // The outcome, by what lies before and after.
  lemma JoinCases(h: HV, p: nat)
    requires HeapOk(h) && p in h.c && h.c[p].kind == Live
    ensures var lo, nx := JoinStart(h, p), p + h.c[p].size; lo in h.c && nx in h.c
    ensures var lo, nx := JoinStart(h, p), p + h.c[p].size;
            var back := if p !in h.pin && h.c[lo].kind == Dv then Dv else Bin;
            && BackOut(h, p) == (if p !in h.pin && h.c[lo].kind == Bin then {lo} else {})
            && JoinEnd(h, p) == (if InUse(h.c[nx].kind) then nx else nx + h.c[nx].size)
            && JoinKind(h, p) == (match h.c[nx].kind case Top => Top case Dv => Dv case _ => back)
            && nx !in BackOut(h, p) && JoinOut(h, p)
               == (if h.c[nx].kind == Bin then BackOut(h, p) + {nx} else BackOut(h, p))
  {
    NextFacts(h, p);
    ChunkFacts(h, p);
    if p !in h.pin { PrevFacts(h, p); }
    hide HeapOk, Geo, Region;
  }

  // -- Keeping the front of a used chunk -------------------------------------

  // The rest of the chunk at p after nb bytes, joined with free memory after it.
  function Trimmed(h: HV, p: nat, nb: nat): HV
    requires p in h.c && p + nb <= JoinEnd(h, p)
  {
    Retile(h, p, nb, Live, JoinEnd(h, p) - p - nb, JoinKind(h, p))
  }

  ghost predicate CanKeep(h: HV, p: nat, nb: nat) {
    && HeapOk(h) && p in h.c && h.c[p].kind == Live && p in h.pin && Piece(nb, Live)
       && nb + MIN_CHUNK_SIZE <= h.c[p].size
    && (KindAt(h.c, p + h.c[p].size, Top) ==> nb + TOP_FOOT_SIZE <= h.c[p].size)
  }

  function RestIn(h: HV, p: nat, nb: nat): set<nat>
    requires p in h.c
  {
    if JoinKind(h, p) == Bin then {p + nb} else {}
  }

  lemma KeepPiece(h: HV, p: nat, nb: nat)
    requires CanKeep(h, p, nb)
    ensures p + nb <= JoinEnd(h, p) && Piece(JoinEnd(h, p) - p - nb, JoinKind(h, p)) && JoinStart(h, p) == p
  {
    FrontPiece(h, p);
    NextFacts(h, p);
    hide HeapOk, Geo, Region, JoinKind;
    var a := JoinEnd(h, p) - p;
    Minus8(a, nb);
  }

  lemma Minus8(a: nat, b: nat)
    requires a % 8 == 0 && b % 8 == 0 && b <= a
    ensures (a - b) % 8 == 0
  {
  }

  lemma KeepOk(h: HV, p: nat, nb: nat)
    requires CanKeep(h, p, nb)
    ensures p + nb <= JoinEnd(h, p) && CanRetile(h, p, nb, Live, JoinEnd(h, p) - p - nb, JoinKind(h, p))
  {
    KeepPiece(h, p, nb);
    JoinRegion(h, p);
    NextFacts(h, p);
    JoinDv(h, p);
    hide HeapOk, Geo, Region, TagOk;
  }

  lemma KeepOut(h: HV, p: nat, nb: nat)
    requires CanKeep(h, p, nb) && p + nb <= JoinEnd(h, p)
    ensures OutOfBins(h, Trimmed(h, p, nb), p, JoinEnd(h, p), JoinOut(h, p), RestIn(h, p, nb))
  {
    KeepPiece(h, p, nb);
    var n2, k := JoinEnd(h, p) - p - nb, JoinKind(h, p);
    RetileIs(h, p, nb, Live, n2, k);
    CoverHas(h.c, p, nb, Live, n2, k);
    hide HeapOk, JoinEnd, JoinOut, JoinKind, JoinStart, Retile, Cover;
    forall x: nat
      ensures p <= x < JoinEnd(h, p) && BinAt(h.c, x) ==> x in JoinOut(h, p)
      ensures !(p <= x < JoinEnd(h, p)) ==> x !in JoinOut(h, p)
    {
      JoinOutHas(h, p, x);
      if x in JoinOut(h, p) { OutWithin(h, p, x); }
    }
  }

  lemma KeepGood(h: HV, bv: BV, d: Direct, p: nat, nb: nat)
    requires CanKeep(h, p, nb) && GoodBut(h, bv, d, JoinOut(h, p))
    ensures p + nb <= JoinEnd(h, p) && GoodBut(Trimmed(h, p, nb), bv, d, RestIn(h, p, nb))
    ensures var rest, h' := JoinEnd(h, p) - p - nb, Trimmed(h, p, nb); p + nb in h'.c
                                                                       && h'.c[p + nb] == Ck(rest, JoinKind(h, p))
                                                                       && rest >= 32
  {
    hide *;
    KeepOk(h, p, nb);
    KeepOut(h, p, nb);
    KeepPiece(h, p, nb);
    TrimmedIs(h, p, nb);
    var n2, k := JoinEnd(h, p) - p - nb, JoinKind(h, p);
    PieceSize(n2, k);
    RetileGood(h, bv, d, JoinOut(h, p), RestIn(h, p, nb), p, nb, Live, n2, k);
    RetileIs(h, p, nb, Live, n2, k);
    CoverHas(h.c, p, nb, Live, n2, k);
  }

  // Only the kept block changes.
  lemma KeepCap(h: HV, d: Direct, p: nat, nb: nat, a: nat)
    requires CanKeep(h, p, nb) && DirectOk(h, d) && p + nb <= JoinEnd(h, p)
    ensures a != p + 16 ==> Cap(Trimmed(h, p, nb).c, d, a) == Cap(h.c, d, a)
    ensures a == p + 16 ==> Cap(Trimmed(h, p, nb).c, d, a) == nb - 8
  {
    var n2, k := JoinEnd(h, p) - p - nb, JoinKind(h, p);
    hide *;
    KeepOk(h, p, nb);
    KeepPiece(h, p, nb);
    PieceSize(nb, Live);
    PieceSize(n2, k);
    RetileCaps(h, d, p, nb, Live, n2, k, a);
    JoinNotLive(k, h, p);
    TrimmedIs(h, p, nb);
    if p + 16 <= a < p + nb + n2 + 16 && a != p + 16 { OldCap(h, d, p, a); }
  }

  lemma TrimmedIs(h: HV, p: nat, nb: nat)
    requires CanKeep(h, p, nb) && p + nb <= JoinEnd(h, p)
    ensures Trimmed(h, p, nb) == Retile(h, p, nb, Live, JoinEnd(h, p) - p - nb, JoinKind(h, p))
    ensures HeapOk(h) && p in h.c && h.c[p].kind == Live && nb >= 32
  {
    hide HeapOk, Retile, JoinEnd, JoinKind;
  }

  // The tags of the two parts when the rest is not top, as prepend_alloc writes them.
  lemma KeepTags(h: HV, p: nat, nb: nat)
    requires CanKeep(h, p, nb) && p + nb <= JoinEnd(h, p) && JoinKind(h, p) != Top
    ensures var q, r, rest, h' := p + h.c[p].size, p + nb, JoinEnd(h, p) - p - nb, Trimmed(h, p, nb);
            && q in h.c && SameHeap(h.(c := h'.c, size := h.size[p := nb][r := rest], cin := h.cin + {p} - {r},
               foot := h.foot[r + rest := rest],
                                       pin := if InUse(h.c[q].kind) then h.pin - {q} + {r} else h.pin + {r}), h')
            && (if JoinKind(h, p) == Dv then h'.dv == r && h'.dvsize == rest
               else h'.dv == h.dv && h'.dvsize == h.dvsize)
  {
    hide *;
    TrimmedIs(h, p, nb);
    KeepPiece(h, p, nb);
    KeepPins(h, p, nb);
    DvOutside(h, p);
    JoinSpare(h, p);
    KeepWords(h, p, nb, JoinEnd(h, p) - p - nb, JoinKind(h, p));
  }

  lemma KeepWords(h: HV, p: nat, nb: nat, rest: nat, k: Kind)
    requires Spare(k) && rest > 0 && (k == Bin ==> !(p <= h.dv < p + nb + rest))
    ensures var r, h' := p + nb, Retile(h, p, nb, Live, rest, k);
            && SameHeap(h.(c := h'.c, size := h.size[p := nb][r := rest], cin := h.cin + {p} - {r},
               foot := h.foot[r + rest := rest],
                           pin := h.pin + {r} + {r} - {r + rest}), h')
            && (if k == Dv then h'.dv == r && h'.dvsize == rest else h'.dv == h.dv && h'.dvsize == h.dvsize)
  {
    hide Cover;
  }

  lemma KeepPins(h: HV, p: nat, nb: nat)
    requires CanKeep(h, p, nb) && p + nb <= JoinEnd(h, p) && JoinKind(h, p) != Top
    ensures JoinEnd(h, p) - p - nb > 0 && p in h.c
    ensures var q, r, hi := p + h.c[p].size, p + nb, JoinEnd(h, p);
            q in h.c && h.pin + {r} + {r} - {r + (hi - p - nb)} == if InUse(h.c[q].kind) then h.pin - {q} + {r}
              else h.pin + {r}
  {
    var q, r, hi := p + h.c[p].size, p + nb, JoinEnd(h, p);
    NextFacts(h, p);
    assert TagOk(h, q);
    ChunkFacts(h, p);
    ChunkFacts(h, q);
    hide HeapOk, Geo, Region;
    assert r != hi;
    assert !InUse(h.c[q].kind) ==> hi !in h.pin;
  }

  // And when it is.
  lemma KeepTopTags(h: HV, p: nat, nb: nat)
    requires CanKeep(h, p, nb) && p + nb <= JoinEnd(h, p) && JoinKind(h, p) == Top
    ensures var r, h' := p + nb, Trimmed(h, p, nb);
            && h.top == p + h.c[p].size && h.topsize + h.top >= r
            && (var rest := h.topsize + h.top - r;
                h' == h.(c := h'.c, size := h.size[p := nb][r := rest], cin := h.cin + {p} - {r}, pin := h.pin + {r},
                  top := r, topsize := rest))
  {
    TopIs(h);
    NextFacts(h, p);
    ChunkFacts(h, p);
    ChunkFacts(h, p + h.c[p].size);
    DvOutside(h, p);
    hide HeapOk, Geo, Region, Cover;
    assert h.pin + {p + nb} + {p + nb} == h.pin + {p + nb};
  }
}
