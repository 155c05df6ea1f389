// Mapped memory of src/lj_alloc.c comes and goes: whole heaps before and after.
module AllocGrow {
  import opened AllocRing
  import opened AllocBits
  import opened AllocTree
  import opened AllocBins
  import opened AllocChunks
  import opened AllocTags
  import opened AllocSegs
  import opened AllocHeap
  import opened AllocUse
  import opened AllocMerge

  // Words that belong to no chunk may hold anything.
  lemma Scribble(h: HV, h': HV, bv: BV, d: Direct, out: set<nat>)
    requires GoodBut(h, bv, d, out) && h' == h.(size := h'.size, cin := h'.cin, pin := h'.pin, foot := h'.foot)
    requires forall a: nat {:trigger SameTag(h, h', a)} :: a in h.c || a in d ==> SameTag(h, h', a)
    ensures GoodBut(h', bv, d, out)
  {
    GoodParts(h, bv, d, out);
    ScribbleHeap(h, h');
    ScribbleBins(h, h', bv, out);
    forall p | p in d
      ensures DirectAt(h', p, d[p])
    {
      assert DirectAt(h, p, d[p]) && SameTag(h, h', p);
    }
    hide HeapOk, BinsOk, Synced;
  }

  lemma ScribbleHeap(h: HV, h': HV)
    requires HeapOk(h) && h' == h.(size := h'.size, cin := h'.cin, pin := h'.pin, foot := h'.foot)
    requires forall a: nat {:trigger SameTag(h, h', a)} :: a in h.c ==> SameTag(h, h', a)
    ensures HeapOk(h')
  {
    HeapParts(h);
    forall i | 0 <= i < |h'.segs|
      ensures h'.segs[i].base in h'.pin
    {
      assert SegOk(h.c, h.segs, h.top, i);
      assert SameTag(h, h', h.segs[i].base);
    }
    ScribbleTags(h, h');
    hide *;
    HeapIs(h');
  }

  lemma HeapParts(h: HV)
    requires HeapOk(h)
    ensures Geo(h.c, h.segs, h.top) && |h.segs| > 0
    ensures forall i :: 0 <= i < |h.segs| ==> h.segs[i].base in h.pin
    ensures h.segs[0].rec == h.st + 856 && h.st in h.c && h.c[h.st].kind == State
    ensures (h.dv == 0 <==> h.dvsize == 0) && (h.dv != 0 ==> SpareAt(h.c, h.dv, h.dvsize) && h.c[h.dv].kind == Dv)
  {
  }

  lemma ScribbleTags(h: HV, h': HV)
    requires HeapOk(h) && h' == h.(size := h'.size, cin := h'.cin, pin := h'.pin, foot := h'.foot)
    requires forall a: nat {:trigger SameTag(h, h', a)} :: a in h.c ==> SameTag(h, h', a)
    ensures forall p {:trigger TagOk(h', p)} :: p in h'.c ==> TagOk(h', p)
  {
    forall p | p in h'.c
      ensures TagOk(h', p)
    {
      ChunkFacts(h, p);
      assert SameTag(h, h', p);
      hide HeapOk, Geo;
      if Spare(h.c[p].kind) { assert SameTag(h, h', p + h.c[p].size); }
    }
    hide *;
  }

  lemma ScribbleBins(h: HV, h': HV, bv: BV, out: set<nat>)
    requires BinsOk(bv, h.st + 16, h.size) && |bv.small| == NSMALLBINS && |bv.trees| == NTREEBINS
             && Synced(bv, h.size, h.c, out)
    requires h'.c == h.c && h'.st == h.st
    requires forall a: nat {:trigger SameTag(h, h', a)} :: a in h.c ==> SameTag(h, h', a)
    ensures BinsOk(bv, h'.st + 16, h'.size) && Synced(bv, h'.size, h'.c, out)
  {
    hide BinsOk, Binned;
    forall x: nat | Binned(bv, h.size, x)
      ensures At(h'.size, x) == At(h.size, x)
    {
      assert BinAt(h.c, x);
      assert SameTag(h, h', x);
    }
    BinsWrite(bv, h.st + 16, h.size, h'.size);
    forall x: nat
      ensures Binned(bv, h'.size, x) <==> BinAt(h'.c, x) && x !in out
    {
      assert Binned(bv, h.size, x) <==> BinAt(h.c, x) && x !in out;
    }
  }

  // Bins and kinds when the chunks of kind Bin and their sizes stay.
  lemma KeepBins(h: HV, h': HV, bv: BV, out: set<nat>)
    requires BinsOk(bv, h.st + 16, h.size) && |bv.small| == NSMALLBINS && |bv.trees| == NTREEBINS
             && Synced(bv, h.size, h.c, out) && h'.st == h.st
    requires forall x: nat :: BinAt(h'.c, x) <==> BinAt(h.c, x)
    requires forall x: nat :: BinAt(h.c, x) ==> At(h'.size, x) == At(h.size, x)
    ensures BinsOk(bv, h'.st + 16, h'.size) && Synced(bv, h'.size, h'.c, out)
  {
    hide BinsOk, Binned, BinAt;
    forall x: nat | Binned(bv, h.size, x) ensures At(h'.size, x) == At(h.size, x) { assert BinAt(h.c, x); }
    BinsWrite(bv, h.st + 16, h.size, h'.size);
    forall x: nat
      ensures Binned(bv, h'.size, x) <==> BinAt(h'.c, x) && x !in out
    {
      assert Binned(bv, h.size, x) <==> BinAt(h.c, x) && x !in out;
    }
  }

  // A region clear of all direct chunks.
  ghost predicate OffDirect(d: Direct, b: nat, n: nat) {
    forall p {:trigger p in d} :: p in d ==> p + d[p] <= b || b + n <= p
  }

  // -- A new size for the top segment ----------------------------------------

  lemma ResizeGood(h: HV, bv: BV, d: Direct, n: nat)
    requires Good(h, bv, d) && CanResize(h.segs, h.top, n) && OffDirect(d, h.segs[0].base, n)
    ensures Good(Resize(h, n), bv, d) && SameBlocks(h.c, Resize(h, n).c, d)
  {
    var h' := Resize(h, n);
    GoodParts(h, bv, d, {});
    TopIs(h);
    ResizeOk(h, n);
    hide HeapOk, BinsOk, Synced, Geo;
    KeepBins(h, h', bv, {});
    forall p | p in d
      ensures ClearAll(h'.segs, p, d[p])
    {
      assert DirectAt(h, p, d[p]);
      forall i | 0 <= i < |h'.segs| ensures Clear(h'.segs, i, p, d[p]) { assert Clear(h.segs, i, p, d[p]); }
    }
    DirectKept(h, h', d);
  }

  // -- In front of a segment -------------------------------------------------

  lemma FrontGood(h: HV, bv: BV, d: Direct, out: set<nat>, i: nat, b: nat, n: nat)
    requires GoodBut(h, bv, d, out) && Fresh(h.segs, b, n) && OffDirect(d, b, n) && i < |h.segs|
             && b + n == h.segs[i].base
    ensures GoodBut(Front(h, i, b, n), bv, d, out) && b !in h.c && b !in d
  {
    var h' := Front(h, i, b, n);
    GoodParts(h, bv, d, out);
    FrontOk(h, i, b, n);
    hide HeapOk, BinsOk, Synced, Geo;
    KeepBins(h, h', bv, out);
    forall p | p in d
      ensures ClearAll(h'.segs, p, d[p])
    {
      assert DirectAt(h, p, d[p]);
      forall j | 0 <= j < |h'.segs| ensures Clear(h'.segs, j, p, d[p]) { assert Clear(h.segs, j, p, d[p]); }
    }
    DirectKept(h, h', d);
    NotDirect(h, d, b, n);
  }

  lemma NotDirect(h: HV, d: Direct, b: nat, n: nat)
    requires DirectOk(h, d) && OffDirect(d, b, n) && n > 0
    ensures b !in d
  {
    hide HeapOk;
  }

  // -- A new segment ---------------------------------------------------------

  lemma AddGood(h: HV, h': HV, bv: BV, d: Direct, b: nat, n: nat)
    requires Good(h, bv, d) && Fresh(h.segs, b, n) && OffDirect(d, b, n) && Added(h, h', b, n) && OffKept(h, h')
    ensures GoodBut(h', bv, d, if h.topsize < MIN_CHUNK_SIZE then {} else {h.top}) && SameBlocks(h.c, h'.c, d)
  {
    var out := if h.topsize < MIN_CHUNK_SIZE then {} else {h.top};
    GoodParts(h, bv, d, {});
    TopIs(h);
    HeapGeo(h);
    AddOk(h, h', b, n);
    AddBins(h, h', bv, d, b, n, out);
    AddBlocks(h, h', d, b, n);
    hide HeapOk, BinsOk, Synced, Geo, Added, Fresh;
    forall p | p in d ensures ClearAll(h'.segs, p, d[p]) { AddClear(h, h', d, b, n, p); }
    DirectKept(h, h', d);
  }

  lemma AddClear(h: HV, h': HV, d: Direct, b: nat, n: nat, p: nat)
    requires DirectOk(h, d) && OffDirect(d, b, n) && Added(h, h', b, n) && p in d
    ensures ClearAll(h'.segs, p, d[p])
  {
    assert DirectAt(h, p, d[p]);
    forall j | 0 <= j < |h'.segs|
      ensures Clear(h'.segs, j, p, d[p])
    {
      if j > 0 { assert Clear(h.segs, j - 1, p, d[p]); }
      assert j > 1 ==> h'.segs[j] == h.segs[j - 1];
    }
  }

  // The chunks of other kinds stay; the rest of top is the only new free one.
  lemma AddBins(h: HV, h': HV, bv: BV, d: Direct, b: nat, n: nat, out: set<nat>)
    requires HeapOk(h) && BinsOk(bv, h.st + 16, h.size) && |bv.small| == NSMALLBINS && |bv.trees| == NTREEBINS
             && Synced(bv, h.size, h.c, {})
    requires Fresh(h.segs, b, n) && Added(h, h', b, n) && h.top in h.c
             && h.c[h.top] == Ck(h.topsize + TOP_FOOT_SIZE, Top)
    requires out == if h.topsize < MIN_CHUNK_SIZE then {} else {h.top}
    ensures BinsOk(bv, h'.st + 16, h'.size) && Synced(bv, h'.size, h'.c, out)
  {
    hide BinsOk, Binned;
    HeapGeo(h);
    forall x: nat
      ensures BinAt(h'.c, x) && x !in out <==> BinAt(h.c, x)
      ensures BinAt(h.c, x) ==> At(h'.size, x) == At(h.size, x)
    {
      AddKind(h, h', b, n, x);
    }
    hide HeapOk, Added, Fresh, BinAt;
    forall x: nat | Binned(bv, h.size, x) ensures At(h'.size, x) == At(h.size, x) { assert BinAt(h.c, x); }
    AddSt(h, h', b, n);
    BinsWrite(bv, h.st + 16, h.size, h'.size);
    forall x: nat
      ensures Binned(bv, h'.size, x) <==> BinAt(h'.c, x) && x !in out
    {
      assert Binned(bv, h.size, x) <==> BinAt(h.c, x) && x !in {};
    }
  }

  lemma AddSt(h: HV, h': HV, b: nat, n: nat)
    requires Added(h, h', b, n)
    ensures h'.st == h.st
  {
  }

  lemma AddKind(h: HV, h': HV, b: nat, n: nat, x: nat)
    requires HeapOk(h) && Fresh(h.segs, b, n) && Added(h, h', b, n) && h.top in h.c
             && h.c[h.top] == Ck(h.topsize + TOP_FOOT_SIZE, Top)
    ensures BinAt(h'.c, x) && !(h.topsize >= MIN_CHUNK_SIZE && x == h.top) <==> BinAt(h.c, x)
    ensures BinAt(h.c, x) ==> At(h'.size, x) == At(h.size, x)
  {
    HeapGeo(h);
    if x in h.c {
      KeptInAdd(h.c, h.segs, h.top, h.topsize, b, n, x);
      assert x != h.top ==> SameTag(h, h', x);
    }
    hide HeapOk, Geo, Fresh;
  }

  lemma AddBlocks(h: HV, h': HV, d: Direct, b: nat, n: nat)
    requires HeapOk(h) && Fresh(h.segs, b, n) && Added(h, h', b, n) && h.top in h.c
             && h.c[h.top] == Ck(h.topsize + TOP_FOOT_SIZE, Top)
    ensures SameBlocks(h.c, h'.c, d)
  {
    HeapGeo(h);
    forall a: nat
      ensures Cap(h'.c, d, a) == Cap(h.c, d, a)
    {
      if a >= 16 && a - 16 in h.c { KeptInAdd(h.c, h.segs, h.top, h.topsize, b, n, a - 16); }
      hide HeapOk, Geo, Fresh;
    }
  }

  // -- A segment less --------------------------------------------------------

  lemma ReleaseGood(h: HV, bv: BV, d: Direct, i: nat)
    requires CanRelease(h, i) && GoodBut(h, bv, d, if h.segs[i].base == h.dv then {} else {h.segs[i].base})
    ensures Good(Release(h, i), bv, d) && SameBlocks(h.c, Release(h, i).c, d)
  {
    var h', out := Release(h, i), if h.segs[i].base == h.dv then {} else {h.segs[i].base};
    GoodParts(h, bv, d, out);
    ReleaseOk(h, i);
    ReleaseShape(h, i);
    ReleaseKinds(h, i);
    hide HeapOk, BinsOk, Binned, CanRelease, Geo;
    ReleaseDirect(h, d, i);
    BinsWrite(bv, h.st + 16, h.size, h.size);
    forall x: nat
      ensures Binned(bv, h'.size, x) <==> BinAt(h'.c, x)
    {
      assert Binned(bv, h.size, x) <==> BinAt(h.c, x) && x !in out;
    }
  }

  lemma ReleaseKinds(h: HV, i: nat)
    requires CanRelease(h, i)
    ensures var p, r := h.segs[i].base, h.segs[i].rec - 16;
            && p in h.c && r in h.c && h.c[r].kind == Tail && Spare(h.c[p].kind) && (h.c[p].kind == Dv <==> p == h.dv)
            && Release(h, i).c == h.c - {p, r}
  {
    ReleaseShape(h, i);
    var p := h.segs[i].base;
    ChunkFacts(h, p);
    if h.dv != 0 { ChunkFacts(h, h.dv); }
  }

  lemma ReleaseDirect(h: HV, d: Direct, i: nat)
    requires DirectOk(h, d) && 1 <= i < |h.segs|
    ensures DirectOk(Release(h, i), d)
  {
    var h' := Release(h, i);
    forall p | p in d
      ensures ClearAll(h'.segs, p, d[p])
    {
      assert DirectAt(h, p, d[p]);
      forall j | 0 <= j < |h'.segs|
        ensures Clear(h'.segs, j, p, d[p])
      {
        assert Clear(h.segs, if j < i then j else j + 1, p, d[p]);
      }
    }
    DirectKept(h, h', d);
  }

  // -- Directly mapped chunks ------------------------------------------------

  // The blocks of one heap and of another, with directly mapped ones.
  ghost predicate Grants(c: Chunks, d: Direct, c': Chunks, d': Direct, mem: nat, cap: nat) {
    mem % 8 == 0 && Cap(c, d, mem) == 0 && Cap(c', d', mem) == cap && forall a: nat ::
      a != mem ==> Cap(c', d', a) == Cap(c, d, a)
  }

  ghost predicate Drops(c: Chunks, d: Direct, c': Chunks, d': Direct, mem: nat) {
    Cap(c', d', mem) == 0 && forall a: nat :: a != mem ==> Cap(c', d', a) == Cap(c, d, a)
  }

  // Only words of the region change.
  ghost predicate WroteIn(h: HV, h': HV, p: nat, mm: nat) {
    && h' == h.(size := h'.size, cin := h'.cin, pin := h'.pin, foot := h'.foot)
    && forall a: nat {:trigger SameTag(h, h', a)} :: !(p <= a < p + mm) ==> SameTag(h, h', a)
  }

  lemma ChunkOutside(h: HV, p: nat, mm: nat, a: nat)
    requires HeapOk(h) && ClearAll(h.segs, p, mm) && a in h.c
    ensures !(p <= a < p + mm)
  {
    assert Placed(h.c, h.segs, h.top, a);
    var i :| 0 <= i < |h.segs| && Holds(h.segs[i], a, h.c[a].size);
    assert Clear(h.segs, i, p, mm);
  }

  lemma DirectNew(h: HV, h': HV, bv: BV, d: Direct, p: nat, mm: nat)
    requires Good(h, bv, d) && ClearAll(h.segs, p, mm) && OffDirect(d, p, mm) && WroteIn(h, h', p, mm)
    requires p > 0 && p % 8 == 0 && mm % 8 == 0 && p + mm < TWO64 && DirectTag(h', p, mm)
    ensures Good(h', bv, d[p := mm]) && Grants(h.c, d, h'.c, d[p := mm], p + 16, mm - 48)
  {
    GoodParts(h, bv, d, {});
    forall a: nat | a in h.c || a in d
      ensures SameTag(h, h', a) && a != p
    {
      if a in h.c { ChunkOutside(h, p, mm, a); } else { assert DirectAt(h, a, d[a]); }
    }
    Scribble(h, h', bv, d, {});
    GoodParts(h', bv, d, {});
    hide HeapOk, BinsOk, Synced;
    var d' := d[p := mm];
    forall q | q in d' ensures DirectAt(h', q, d'[q]) { if q != p { assert DirectAt(h', q, d[q]); } }
    forall q, r | q in d' && r in d'
      ensures RegionsApart(d', q, r)
    {
      if q in d && r in d { assert RegionsApart(d, q, r); }
    }
  }

  lemma DirectLess(h: HV, bv: BV, d: Direct, p: nat)
    requires Good(h, bv, d) && p in d
    ensures Good(h, bv, d - {p}) && Drops(h.c, d, h.c, d - {p}, p + 16)
    ensures ClearAll(h.segs, p, d[p]) && OffDirect(d - {p}, p, d[p])
  {
    GoodParts(h, bv, d, {});
    assert DirectAt(h, p, d[p]);
    if p in h.c { ChunkOutside(h, p, d[p], p); }
    hide HeapOk, BinsOk, Synced;
    var d' := d - {p};
    forall q, r | q in d' && r in d' ensures RegionsApart(d', q, r) { assert RegionsApart(d, q, r); }
    forall q | q in d' ensures q + d[q] <= p || p + d[p] <= q { assert RegionsApart(d, p, q) && RegionsApart(d, q, p); }
  }

  // -- What may be unmapped --------------------------------------------------

  predicate Misses(a: nat, n: nat, b: nat, m: nat) { a + n <= b || b + m <= a }

  // No block, not the allocator's state and no segment record has a byte there.
  ghost predicate Unneeded(h: HV, d: Direct, b: nat, n: nat) {
    && (forall a: nat :: Cap(h.c, d, a) > 0 ==> Misses(a, Cap(h.c, d, a), b, n))
    && Misses(h.st + 16, 864, b, n)
    && (forall i :: 1 <= i < |h.segs| ==> Misses(h.segs[i].rec, 24, b, n))
  }

  lemma ClearUnneeded(h: HV, bv: BV, d: Direct, b: nat, n: nat)
    requires Good(h, bv, d) && ClearAll(h.segs, b, n) && OffDirect(d, b, n)
    ensures Unneeded(h, d, b, n)
  {
    GoodParts(h, bv, d, {});
    hide GoodBut, BinsOk, Synced;
    forall a: nat | Cap(h.c, d, a) > 0
      ensures Misses(a, Cap(h.c, d, a), b, n)
    {
      if a - 16 in d { assert DirectAt(h, a - 16, d[a - 16]); } else { UsedClear(h, a - 16, b, n); }
    }
    ChunkFacts(h, h.st);
    UsedClear(h, h.st, b, n);
    assert TagOk(h, h.st);
    forall i | 1 <= i < |h.segs|
      ensures Misses(h.segs[i].rec, 24, b, n)
    {
      assert SegOk(h.c, h.segs, h.top, i);
      TailClear(h, h.segs[i].rec - 16, b, n);
    }
  }

  lemma TailClear(h: HV, p: nat, b: nat, n: nat)
    requires HeapOk(h) && ClearAll(h.segs, b, n) && p in h.c
    ensures Misses(p, h.c[p].size, b, n) && (h.c[p].kind == Tail ==> h.c[p].size >= TOP_FOOT_SIZE)
  {
    assert Placed(h.c, h.segs, h.top, p);
    var i :| 0 <= i < |h.segs| && Holds(h.segs[i], p, h.c[p].size);
    assert Clear(h.segs, i, b, n);
  }

  // A used chunk and the word after it.
  lemma UsedClear(h: HV, p: nat, b: nat, n: nat)
    requires HeapOk(h) && ClearAll(h.segs, b, n) && p in h.c && (h.c[p].kind == Live || h.c[p].kind == State)
    ensures Misses(p, h.c[p].size + 8, b, n) && h.c[p].size >= 32
  {
    NextChunk(h.c, h.segs, h.top, p);
    assert Placed(h.c, h.segs, h.top, p) && Placed(h.c, h.segs, h.top, p + h.c[p].size);
    var i :| 0 <= i < |h.segs| && Holds(h.segs[i], p, h.c[p].size + h.c[p + h.c[p].size].size);
    assert Clear(h.segs, i, b, n);
  }

  // -- prepend_alloc ---------------------------------------------------------

  // The region b of n bytes in front of segment i, seen as one used chunk whose
  // first nb bytes stay a block.
  lemma PrependCan(h: HV, bv: BV, d: Direct, i: nat, b: nat, n: nat, nb: nat)
    requires Good(h, bv, d) && Fresh(h.segs, b, n) && OffDirect(d, b, n) && i < |h.segs| && b + n == h.segs[i].base
    requires Piece(nb, Live) && nb + TOP_FOOT_SIZE < n
    ensures var h1 := Front(h, i, b, n); CanKeep(h1, b, nb) && b !in h.c && b !in d && b + n in h.c
  {
    GoodParts(h, bv, d, {});
    FrontOk(h, i, b, n);
    NotDirect(h, d, b, n);
    assert SegOk(h.c, h.segs, h.top, i);
    hide HeapOk, Geo, BinsOk;
  }

  lemma PrependReads(h: HV, bv: BV, d: Direct, i: nat, b: nat, n: nat)
    requires Good(h, bv, d) && i < |h.segs| && b + n == h.segs[i].base && b !in h.c && b + n in h.c
             && HeapOk(Front(h, i, b, n))
    ensures var q, h1 := b + n, Front(h, i, b, n);
            && (q in h.cin <==> InUse(h.c[q].kind)) && (q == h.top <==> h.c[q].kind == Top)
               && (q == h.dv <==> h.c[q].kind == Dv)
            && (h.c[q].kind == Bin ==> At(h.size, q) == h.c[q].size) && (h.c[q].kind == Dv ==> h.dvsize == h.c[q].size)
            && JoinEnd(h1, b) == (if InUse(h.c[q].kind) then q else q + h.c[q].size)
            && JoinKind(h1, b) == (match h.c[q].kind case Top => Top case Dv => Dv case _ => Bin)
            && JoinOut(h1, b) == (if h.c[q].kind == Bin then {q} else {})
            && h1.c[b].size == n && q == b + h1.c[b].size && h1.c[q] == h.c[q]
  {
    var q, h1 := b + n, Front(h, i, b, n);
    GoodParts(h, bv, d, {});
    hide BinsOk, GoodBut;
    JoinCases(h1, b);
    ReadsNext(h1, b);
    ChunkFacts(h, q);
    if h.dv != 0 { ChunkFacts(h, h.dv); }
    hide HeapOk, Geo, JoinEnd, JoinKind, JoinOut;
  }

  // The kept block is the only news for users.
  lemma PrependGives(h: HV, bv: BV, d: Direct, i: nat, b: nat, n: nat, nb: nat)
    requires Good(h, bv, d) && Fresh(h.segs, b, n) && OffDirect(d, b, n) && i < |h.segs| && b + n == h.segs[i].base
             && b % 8 == 0
    requires CanKeep(Front(h, i, b, n), b, nb) && b !in h.c && b !in d && b + nb <= JoinEnd(Front(h, i, b, n), b)
    ensures nb >= 32 && Gave(h.c, Trimmed(Front(h, i, b, n), b, nb).c, d, b + 16, nb - 8)
  {
    var h1 := Front(h, i, b, n);
    FrontGood(h, bv, d, {}, i, b, n);
    GoodParts(h1, bv, d, {});
    TrimmedIs(h1, b, nb);
    hide HeapOk, BinsOk, GoodBut, DirectOk, Trimmed, CanKeep, JoinEnd;
    forall a: nat
      ensures a != b + 16 ==> Cap(Trimmed(h1, b, nb).c, d, a) == Cap(h.c, d, a)
      ensures a == b + 16 ==> Cap(Trimmed(h1, b, nb).c, d, a) == nb - 8
    {
      KeepCap(h1, d, b, nb, a);
    }
  }

  lemma PrependTopIs(h: HV, i: nat, b: nat, n: nat, nb: nat)
    requires i < |h.segs| && CanKeep(Front(h, i, b, n), b, nb) && b + nb <= JoinEnd(Front(h, i, b, n), b)
             && JoinKind(Front(h, i, b, n), b) == Top
    requires Front(h, i, b, n).c[b].size == n && nb < n
    ensures var h', q, room := Trimmed(Front(h, i, b, n), b, nb), b + nb, h.topsize + (n - nb);
            h' == h.(c := h'.c, segs := Fronted(h.segs, i, b, n), size := h.size[b := nb][q := room],
              cin := h.cin + {b} - {q},
                     pin := h.pin + {b} + {q}, top := q, topsize := room)
  {
    var h1 := Front(h, i, b, n);
    KeepTopTags(h1, b, nb);
    hide HeapOk, CanKeep, Trimmed, JoinEnd, JoinKind, Fronted;
    assert h.cin + {b} + {b} - {b + nb} == h.cin + {b} - {b + nb};
    assert h.size[b := n][b := nb] == h.size[b := nb];
  }

  lemma PrependIs(h: HV, i: nat, b: nat, n: nat, nb: nat)
    requires i < |h.segs| && CanKeep(Front(h, i, b, n), b, nb) && b + nb <= JoinEnd(Front(h, i, b, n), b)
             && JoinKind(Front(h, i, b, n), b) != Top
    requires b + n in h.c && Front(h, i, b, n).c[b].size == n && Front(h, i, b, n).c[b + n] == h.c[b + n] && nb < n
    ensures var h1 := Front(h, i, b, n);
            var h', q, rest := Trimmed(h1, b, nb), b + nb, JoinEnd(h1, b) - b - nb;
            && SameHeap(h.(c := h'.c, segs := Fronted(h.segs, i, b, n), size := h.size[b := nb][q := rest],
               cin := h.cin + {b} - {q},
                           foot := h.foot[q + rest := rest],
                             pin := (if InUse(h.c[b + n].kind) then h.pin - {b + n} else h.pin) + {b} + {q}), h')
            && (if JoinKind(h1, b) == Dv then h'.dv == q && h'.dvsize == rest
               else h'.dv == h.dv && h'.dvsize == h.dvsize)
  {
    var h1, q, r := Front(h, i, b, n), b + nb, b + n;
    KeepTags(h1, b, nb);
    hide HeapOk, CanKeep, Trimmed, JoinEnd, JoinKind, Fronted;
    assert h.cin + {b} + {b} - {q} == h.cin + {b} - {q};
    assert h.size[b := n][b := nb] == h.size[b := nb];
    assert h.pin + {b} - {r} + {q} == h.pin - {r} + {b} + {q};
  }

  // What prepend_alloc finds: region b of n bytes in front of segment i.
  ghost predicate Prepending(h: HV, i: nat, b: nat, n: nat, nb: nat) {
    && i < |h.segs| && Fresh(h.segs, b, n) && b + n == h.segs[i].base && nb < n
    && var h1, q := Front(h, i, b, n), b + n;
       && CanKeep(h1, b, nb) && b + nb <= JoinEnd(h1, b) && q in h.c && h1.c[b].size == n && h1.c[q] == h.c[q]
       && (q in h.cin <==> InUse(h.c[q].kind)) && (q == h.top <==> h.c[q].kind == Top)
          && (q == h.dv <==> h.c[q].kind == Dv)
       && (h.c[q].kind == Bin ==> At(h.size, q) == h.c[q].size) && (h.c[q].kind == Dv ==> h.dvsize == h.c[q].size)
       && JoinEnd(h1, b) == (if InUse(h.c[q].kind) then q else q + h.c[q].size)
       && JoinKind(h1, b) == (match h.c[q].kind case Top => Top case Dv => Dv case _ => Bin)
       && JoinOut(h1, b) == (if h.c[q].kind == Bin then {q} else {})
  }

  // And the heap g it leaves.
  ghost predicate PrependGoal(h: HV, i: nat, b: nat, n: nat, nb: nat, g: HV) {
    Prepending(h, i, b, n, nb) && g == Trimmed(Front(h, i, b, n), b, nb)
  }

  lemma PrependStart(h: HV, bv: BV, d: Direct, i: nat, b: nat, n: nat, nb: nat) returns (g: HV)
    requires Good(h, bv, d) && Fresh(h.segs, b, n) && OffDirect(d, b, n) && i < |h.segs| && b + n == h.segs[i].base
    requires Piece(nb, Live) && nb + TOP_FOOT_SIZE < n
    ensures PrependGoal(h, i, b, n, nb, g) && nb >= 32 && Gave(h.c, g.c, d, b + 16, nb - 8)
    ensures b + n in h.c && (b + n == h.top <==> h.c[b + n].kind == Top) && (b + n == h.dv <==> h.c[b + n].kind == Dv)
  {
    PrependCan(h, bv, d, i, b, n, nb);
    FrontGood(h, bv, d, {}, i, b, n);
    GoodParts(Front(h, i, b, n), bv, d, {});
    PrependReads(h, bv, d, i, b, n);
    KeepPiece(Front(h, i, b, n), b, nb);
    PrependGives(h, bv, d, i, b, n, nb);
    g := Trimmed(Front(h, i, b, n), b, nb);
    hide GoodBut, HeapOk, BinsOk, DirectOk, Trimmed, CanKeep, JoinEnd, JoinKind, JoinOut, Front, Fronted, Gave;
  }

  // The words for a block of nb bytes and room bytes of top.
  function TopWords(h: HV, i: nat, b: nat, n: nat, nb: nat, room: nat, c: Chunks): HV
    requires i < |h.segs|
  {
    var q := b + nb;
    h.(c := c, segs := Fronted(h.segs, i, b, n), size := h.size[b := nb][q := room], cin := h.cin + {b} - {q},
       pin := h.pin + {b} + {q}, top := q, topsize := room)
  }

  // The same for a block and rest bytes of free memory.
  function FreeWords(h: HV, i: nat, b: nat, n: nat, nb: nat, rest: nat, used: bool, c: Chunks): HV
    requires i < |h.segs|
  {
    var q := b + nb;
    h.(c := c, segs := Fronted(h.segs, i, b, n), size := h.size[b := nb][q := rest], cin := h.cin + {b} - {q},
       foot := h.foot[q + rest := rest], pin := (if used then h.pin - {b + n} else h.pin) + {b} + {q})
  }

  // Into top.
  lemma PrependToTop(h: HV, bv: BV, d: Direct, i: nat, b: nat, n: nat, nb: nat, g: HV)
    requires Good(h, bv, d) && PrependGoal(h, i, b, n, nb, g) && OffDirect(d, b, n) && KindAt(h.c, b + n, Top)
    ensures nb < n && i < |h.segs| && Good(g, bv, d) && g == TopWords(h, i, b, n, nb, h.topsize + (n - nb), g.c)
  {
    var h1 := Front(h, i, b, n);
    FrontGood(h, bv, d, {}, i, b, n);
    KeepGood(h1, bv, d, b, nb);
    PrependTopIs(h, i, b, n, nb);
    assert RestIn(h1, b, nb) == {};
    hide GoodBut, HeapOk, BinsOk, DirectOk, Trimmed, CanKeep, JoinEnd, JoinKind, JoinOut, Front, Fronted;
  }

  // Into dv.
  lemma PrependToDv(h: HV, bv: BV, d: Direct, i: nat, b: nat, n: nat, nb: nat, g: HV)
    requires Good(h, bv, d) && PrependGoal(h, i, b, n, nb, g) && OffDirect(d, b, n) && KindAt(h.c, b + n, Dv)
    ensures nb < n && i < |h.segs| && Good(g, bv, d)
    ensures g == FreeWords(h, i, b, n, nb, h.dvsize + (n - nb), false, g.c).(dv := b + nb,
            dvsize := h.dvsize + (n - nb))
  {
    var h1 := Front(h, i, b, n);
    FrontGood(h, bv, d, {}, i, b, n);
    KeepGood(h1, bv, d, b, nb);
    PrependIs(h, i, b, n, nb);
    assert RestIn(h1, b, nb) == {};
    hide GoodBut, HeapOk, BinsOk, DirectOk, Trimmed, CanKeep, JoinEnd, JoinKind, JoinOut, Front, Fronted;
  }

  function FirstOut(c: Chunks, q: nat): set<nat> { if KindAt(c, q, Bin) then {q} else {} }

  function FirstSize(c: Chunks, q: nat): nat { if KindAt(c, q, Bin) then c[q].size else 0 }

  // To a bin, alone or joined with the chunk at b + n, which is out of its bin.
  lemma PrependToBin(h: HV, bv: BV, d: Direct, i: nat, b: nat, n: nat, nb: nat, g: HV, out: set<nat>)
    requires GoodBut(h, bv, d, out) && PrependGoal(h, i, b, n, nb, g) && OffDirect(d, b, n)
    requires !KindAt(h.c, b + n, Top) && !KindAt(h.c, b + n, Dv) && out == FirstOut(h.c, b + n)
    ensures nb < n && i < |h.segs| && b + n in h.c && (b + n in h.cin <==> !KindAt(h.c, b + n, Bin))
    ensures var rest := FirstSize(h.c, b + n) + (n - nb);
            && GoodBut(g, bv, d, {b + nb}) && g == FreeWords(h, i, b, n, nb, rest, b + n in h.cin, g.c)
            && b + nb in g.c && g.c[b + nb] == Ck(rest, Bin)
  {
    hide *;
    PrependAt(h, i, b, n, nb, g);
    var h1 := Front(h, i, b, n);
    FrontGood(h, bv, d, out, i, b, n);
    PrependFirst(h, i, b, n, nb, g);
    BinGoal(h, i, b, n, nb, g);
    KeepGood(h1, bv, d, b, nb);
    PrependIs(h, i, b, n, nb);
    BinWords(h, i, b, n, nb, g);
  }

  lemma PrependAt(h: HV, i: nat, b: nat, n: nat, nb: nat, g: HV)
    requires PrependGoal(h, i, b, n, nb, g)
    ensures i < |h.segs| && Fresh(h.segs, b, n) && b + n == h.segs[i].base && nb < n
  {
    hide Fresh, CanKeep, Trimmed;
  }

  lemma BinGoal(h: HV, i: nat, b: nat, n: nat, nb: nat, g: HV)
    requires PrependGoal(h, i, b, n, nb, g) && !KindAt(h.c, b + n, Top) && !KindAt(h.c, b + n, Dv)
    ensures var h1, out := Front(h, i, b, n), FirstOut(h.c, b + n);
            && CanKeep(h1, b, nb) && b + nb <= JoinEnd(h1, b) && JoinOut(h1, b) == out && JoinKind(h1, b) == Bin
               && JoinKind(h1, b) != Top
            && h1.c[b].size == n && h1.c[b + n] == h.c[b + n]
            && g == Trimmed(h1, b, nb) && RestIn(h1, b, nb) == {b + nb}
            && JoinEnd(h1, b) - b - nb == FirstSize(h.c, b + n) + (n - nb)
            && (b + n in h.cin <==> !KindAt(h.c, b + n, Bin)) && (b + n in h.cin <==> InUse(h.c[b + n].kind))
  {
    hide CanKeep, JoinEnd, Trimmed, JoinOut, Front;
  }

  lemma BinWords(h: HV, i: nat, b: nat, n: nat, nb: nat, g: HV)
    requires i < |h.segs| && b + n in h.c && nb < n
    requires var q, rest := b + nb, FirstSize(h.c, b + n) + (n - nb);
             && SameHeap(h.(c := g.c, segs := Fronted(h.segs, i, b, n), size := h.size[b := nb][q := rest],
                cin := h.cin + {b} - {q},
                            foot := h.foot[q + rest := rest],
                              pin := (if InUse(h.c[b + n].kind) then h.pin - {b + n} else h.pin) + {b} + {q}), g)
             && g.dv == h.dv && g.dvsize == h.dvsize && (b + n in h.cin <==> InUse(h.c[b + n].kind))
    ensures var rest := FirstSize(h.c, b + n) + (n - nb);
            g == FreeWords(h, i, b, n, nb, rest, b + n in h.cin, g.c)
  {
    hide Fronted;
  }

  lemma PrependFirst(h: HV, i: nat, b: nat, n: nat, nb: nat, g: HV)
    requires PrependGoal(h, i, b, n, nb, g)
    ensures i < |h.segs| && nb < n && b + n in h.c && (b + n in h.cin <==> InUse(h.c[b + n].kind))
    ensures h.c[b + n].kind == Bin ==> At(h.size, b + n) == h.c[b + n].size
    ensures h.c[b + n].kind == Dv ==> h.dvsize == h.c[b + n].size
  {
  }

  // -- init_top --------------------------------------------------------------

  // Its words: the head of top, and the fake chunk in the padding after it.
  function InitWords(h: HV, p: nat, psize: nat): HV {
    h.(top := p, topsize := psize, size := h.size[p := psize][p + psize := TOP_FOOT_SIZE],
      cin := h.cin - {p} - {p + psize},
       pin := h.pin + {p} - {p + psize})
  }

  function Resized(h: HV, n: nat): HV
    requires |h.segs| > 0 && h.top + TOP_FOOT_SIZE <= h.segs[0].base + n
  {
    InitWords(h.(segs := ResizedSegs(h.segs, n), c := ResizedChunks(h.c, h.segs, h.top, n)), h.top,
      h.segs[0].base + n - h.top - TOP_FOOT_SIZE)
  }

  // The top segment gets n bytes.
  lemma ResizedGood(h: HV, bv: BV, d: Direct, n: nat)
    requires Good(h, bv, d) && CanResize(h.segs, h.top, n) && OffDirect(d, h.segs[0].base, n)
             && h.top + TOP_FOOT_SIZE < h.segs[0].base + n
    ensures Good(Resized(h, n), bv, d) && SameBlocks(h.c, Resized(h, n).c, d)
  {
    var h1, g := Resize(h, n), Resized(h, n);
    ResizeGood(h, bv, d, n);
    GoodParts(h, bv, d, {});
    TopIs(h);
    GoodParts(h1, bv, d, {});
    TopIs(h1);
    hide GoodBut, HeapOk, BinsOk, Geo, CanResize;
    var e := h1.top + h1.topsize;
    assert g.size == h1.size[e := TOP_FOOT_SIZE];
    assert g.cin == h1.cin - {e};
    assert g.pin == h1.pin - {e};
    assert g == FakeFoot(h1, e);
    FakeGood(h1, bv, d);
  }

  function FakeFoot(h: HV, e: nat): HV {
    h.(size := h.size[e := TOP_FOOT_SIZE], cin := h.cin - {e}, pin := h.pin - {e})
  }

  lemma FakeGood(h: HV, bv: BV, d: Direct)
    requires Good(h, bv, d) && h.topsize > 0
    ensures Good(FakeFoot(h, h.top + h.topsize), bv, d)
  {
    var e := h.top + h.topsize;
    GoodParts(h, bv, d, {});
    TopIs(h);
    ChunkFacts(h, h.top);
    FakeInside(h);
    DirectOutside(h, d, h.top, h.top + h.topsize + TOP_FOOT_SIZE, e);
    hide GoodBut, HeapOk, BinsOk, Geo, DirectOk, Inside;
    forall a: nat | a in h.c || a in d ensures SameTag(h, FakeFoot(h, e), a) { assert a != e; }
    Scribble(h, FakeFoot(h, e), bv, d, {});
  }

  lemma FakeInside(h: HV)
    requires HeapOk(h)
    ensures Inside(h.segs, h.top, h.topsize + TOP_FOOT_SIZE)
  {
    TopIs(h);
    assert Placed(h.c, h.segs, h.top, h.top);
  }

  // -- add_segment -----------------------------------------------------------

  // Tag words change only in the new segment and from top to the end of the old one.
  ghost predicate AddWrites(h: HV, h': HV, b: nat, n: nat) {
    |h.segs| > 0 && forall a: nat {:trigger SameTag(h, h', a)} :: !(b <= a < b + n) && !(h.top <= a < End(h.segs[0]))
                                                                  ==> SameTag(h, h', a)
  }

  lemma AddedFrom(h: HV, h': HV, bv: BV, d: Direct, b: nat, n: nat)
    requires Good(h, bv, d) && Fresh(h.segs, b, n) && AddWrites(h, h', b, n)
    requires h' == h.(c := AddedChunks(h.c, h.top, h.topsize, b, n),
             segs := AddedSegs(h.segs, b, n, h.st + 856, RecordAt(h.top, h.topsize)),
                      top := b, topsize := h'.topsize, size := h'.size, cin := h'.cin, pin := h'.pin, foot := h'.foot)
    requires n >= TOP_FOOT_SIZE && h'.topsize == n - TOP_FOOT_SIZE && At(h'.size, b) == n - TOP_FOOT_SIZE
             && b !in h'.cin && b in h'.pin
    requires h.top in h'.pin && At(h'.foot, h.top) == At(h.foot, h.top)
    requires var at := RecordAt(h.top, h.topsize);
             && At(h'.size, at) == 32 && at in h'.cin
             && (at != h.top ==> At(h'.size, h.top) == h.topsize && h.top !in h'.cin && at !in h'.pin
                                 && At(h'.foot, at) == h.topsize)
    ensures Added(h, h', b, n) && OffKept(h, h')
  {
    GoodParts(h, bv, d, {});
    TopIs(h);
    hide GoodBut, BinsOk, AddedChunks, AddedSegs;
    forall p: nat | p in h.c && p != h.top
      ensures SameTag(h, h', p)
    {
      AddUntouched(h, b, n, p);
    }
    forall a: nat | Off(h, a) && Off(h', a)
      ensures SameTag(h, h', a)
    {
      assert !(h.segs[0].base <= a < End(h.segs[0]));
      AddHead(h, h', b, n);
      assert !(h'.segs[0].base <= a < End(h'.segs[0]));
    }
  }

  lemma AddHead(h: HV, h': HV, b: nat, n: nat)
    requires |h.segs| > 0 && h'.segs == AddedSegs(h.segs, b, n, h.st + 856, RecordAt(h.top, h.topsize))
    ensures |h'.segs| > 0 && h'.segs[0].base == b && End(h'.segs[0]) == b + n
  {
  }

  lemma AddUntouched(h: HV, b: nat, n: nat, p: nat)
    requires HeapOk(h) && Fresh(h.segs, b, n) && p in h.c && p != h.top
    ensures |h.segs| > 0 && !(b <= p < b + n) && !(h.top <= p < End(h.segs[0]))
  {
    TopIs(h);
    ChunkFacts(h, h.top);
    HeapGeo(h);
    OutsideFresh(h.c, h.segs, h.top, b, n, p);
  }

  // The top is in the first segment only.
  lemma TopHeld(h: HV, bv: BV, d: Direct, i: nat)
    requires Good(h, bv, d) && i < |h.segs|
    ensures h.segs[i].base <= h.top < End(h.segs[i]) <==> i == 0
  {
    GoodParts(h, bv, d, {});
    TopIs(h);
    HeapGeo(h);
    GeoParts(h.c, h.segs, h.top);
    SameSegment(h.segs, 0, i, h.top);
  }

  lemma GrantsSame(c: Chunks, c1: Chunks, c2: Chunks, d: Direct, mem: nat, cap: nat)
    requires SameBlocks(c, c1, d) && Gave(c1, c2, d, mem, cap)
    ensures Grants(c, d, c2, d, mem, cap)
  {
  }

  // -- Releasing -------------------------------------------------------------

  // The test of release_unused_segments finds segments that are free.
  lemma ReleaseCan(h: HV, bv: BV, d: Direct, i: nat)
    requires Good(h, bv, d) && 1 <= i < |h.segs|
    ensures var p := h.segs[i].base;
            (p !in h.cin && p + At(h.size, p) + TOP_FOOT_SIZE >= End(h.segs[i]) <==> Idle(h.c, h.segs[i])) &&
            (Idle(h.c, h.segs[i]) ==>
              && CanRelease(h, i) && At(h.size, p) == h.c[p].size && h.c[p].size >= 256 && h.c[p].size < SIZE_LIMIT
                 && h.c[p].size % 8 == 0
              && (p == h.dv <==> h.c[p].kind == Dv) && (p != h.dv <==> h.c[p].kind == Bin))
  {
    GoodParts(h, bv, d, {});
    var p := h.segs[i].base;
    assert SegOk(h.c, h.segs, h.top, i) && SegOk(h.c, h.segs, h.top, 0);
    ChunkFacts(h, p);
    TopHeld(h, bv, d, i);
    if h.dv != 0 { ChunkFacts(h, h.dv); }
    if p !in h.cin && p + At(h.size, p) + TOP_FOOT_SIZE >= End(h.segs[i]) {
      assert Spare(h.c[p].kind);
      ReleaseShape(h, i);
    }
  }

  // The segment can go: nothing needed is in it.
  lemma ReleaseSafe(h: HV, bv: BV, d: Direct, i: nat)
    requires CanRelease(h, i) && GoodBut(h, bv, d, if h.segs[i].base == h.dv then {} else {h.segs[i].base})
    ensures Good(Release(h, i), bv, d) && SameBlocks(h.c, Release(h, i).c, d)
            && Unneeded(Release(h, i), d, h.segs[i].base, h.segs[i].size)
  {
    var h', s := Release(h, i), h.segs[i];
    GoodParts(h, bv, d, if s.base == h.dv then {} else {s.base});
    ReleaseGood(h, bv, d, i);
    HeapGeo(h);
    GeoParts(h.c, h.segs, h.top);
    forall j | 0 <= j < |h'.segs|
      ensures Clear(h'.segs, j, s.base, s.size)
    {
      var k := if j < i then j else j + 1;
      if k < i { SegsDisjoint(h.segs, k, i); } else { SegsDisjoint(h.segs, i, k); }
    }
    forall p | p in d ensures p + d[p] <= s.base || s.base + s.size <= p { DirectClear(h, d, p, i); }
    hide GoodBut, HeapOk, BinsOk, Geo, CanRelease;
    ClearUnneeded(h', bv, d, s.base, s.size);
  }

  lemma SegsDisjoint(segs: seq<Segment>, i: nat, j: nat)
    requires SegsApart(segs) && i < j < |segs|
    ensures Disjoint(segs[i], segs[j])
  {
  }

  // -- Trimming --------------------------------------------------------------

  // What alloc_trim gives back: whole units, and more than pad bytes of top stay.
  function TrimExtra(topsize: nat, pad: nat): nat
    requires topsize > pad
  {
    ((topsize - pad + (DEFAULT_GRANULARITY - 1)) / DEFAULT_GRANULARITY - 1) * DEFAULT_GRANULARITY
  }

  lemma TrimExtraIs(topsize: nat, pad: nat)
    requires topsize > pad
    ensures TrimExtra(topsize, pad) < topsize - pad && TrimExtra(topsize, pad) % DEFAULT_GRANULARITY == 0
    ensures topsize - pad - TrimExtra(topsize, pad) <= DEFAULT_GRANULARITY
  {
    var t := topsize - pad;
    var k := (t + (DEFAULT_GRANULARITY - 1)) / DEFAULT_GRANULARITY;
    assert k * DEFAULT_GRANULARITY <= t + (DEFAULT_GRANULARITY - 1) < k * DEFAULT_GRANULARITY + DEFAULT_GRANULARITY;
    assert k >= 1;
    UnitsLess(k);
  }

  lemma UnitsLess(k: nat)
    requires k >= 1
    ensures (k - 1) * DEFAULT_GRANULARITY == k * DEFAULT_GRANULARITY - DEFAULT_GRANULARITY
    ensures ((k - 1) * DEFAULT_GRANULARITY) % DEFAULT_GRANULARITY == 0
  {
  }

  lemma GranularMinus(a: nat, b: nat)
    requires Granular(a) && b % DEFAULT_GRANULARITY == 0 && b < a
    ensures Granular(a - b) && (a - b) % 8 == 0
  {
    var k, l := a / DEFAULT_GRANULARITY, b / DEFAULT_GRANULARITY;
    assert a - b == DEFAULT_GRANULARITY * (k - l);
    assert k > l;
    Eight(a - b);
  }

  // The end of the top segment can go.
  lemma TrimSafe(h: HV, bv: BV, d: Direct, extra: nat)
    requires Good(h, bv, d) && extra < h.topsize && extra % DEFAULT_GRANULARITY == 0
    ensures |h.segs| > 0 && extra <= h.segs[0].size && h.topsize + TOP_FOOT_SIZE + h.top == End(h.segs[0])
    ensures var s, n := h.segs[0], h.segs[0].size - extra;
            && CanResize(h.segs, h.top, n) && OffDirect(d, s.base, n) && h.top + TOP_FOOT_SIZE < s.base + n
            && Unneeded(Resized(h, n), d, s.base + n, extra)
  {
    GoodParts(h, bv, d, {});
    TopIs(h);
    HeapGeo(h);
    GeoParts(h.c, h.segs, h.top);
    var s, n := h.segs[0], h.segs[0].size - extra;
    assert SegOk(h.c, h.segs, h.top, 0);
    GranularMinus(s.size, extra);
    forall j | 1 <= j < |h.segs|
      ensures Clear(h.segs, j, s.base, n) && Clear(h.segs, j, s.base + n, extra)
    {
      SegsDisjoint(h.segs, 0, j);
    }
    forall p | p in d
      ensures (p + d[p] <= s.base || s.base + n <= p) && (p + d[p] <= s.base + n || s.base + n + extra <= p)
    {
      DirectClear(h, d, p, 0);
    }
    hide GoodBut, HeapOk, BinsOk, Geo, DirectOk;
    ResizedGood(h, bv, d, n);
    var h', b := Resized(h, n), s.base + n;
    forall j | 0 <= j < |h'.segs|
      ensures Clear(h'.segs, j, b, extra)
    {
      if j > 0 { assert Clear(h.segs, j, b, extra); }
    }
    ClearUnneeded(h', bv, d, b, extra);
  }

  // -- Which block a pointer is ----------------------------------------------

  // is_direct tells direct chunks from the others.
  lemma WhichBlock(h: HV, bv: BV, d: Direct, a: nat)
    requires Good(h, bv, d) && Cap(h.c, d, a) > 0
    ensures a >= 16 && a % 8 == 0
    ensures a - 16 in d <==> a - 16 !in h.pin && At(h.foot, a - 16) % 2 == 1
    ensures a - 16 in d ==> At(h.foot, a - 16) == 1 && At(h.size, a - 16) + DIRECT_FOOT_PAD == d[a - 16]
                            && Cap(h.c, d, a) + 48 == d[a - 16]
    ensures a - 16 !in d ==> a - 16 in h.c && h.c[a - 16].kind == Live && At(h.size, a - 16) == h.c[a - 16].size
                             && Cap(h.c, d, a) + 8 == h.c[a - 16].size
  {
    GoodParts(h, bv, d, {});
    if a - 16 in d {
      assert DirectAt(h, a - 16, d[a - 16]);
    } else {
      ChunkFacts(h, a - 16);
      ReadsNext(h, a - 16);
      if a - 16 !in h.pin { ReadsPrev(h, a - 16); }
    }
    hide HeapOk, BinsOk, Geo;
  }

  lemma DropsSame(c: Chunks, c1: Chunks, c2: Chunks, d: Direct, mem: nat)
    requires Took(c, c1, d, mem) && SameBlocks(c1, c2, d)
    ensures Drops(c, d, c2, d, mem)
  {
  }
}
