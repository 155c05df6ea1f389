// Boundary tags of src/lj_alloc.c: the heads and feet of all chunks agree with
// the tiling, and no two neighbours are free.
module AllocTags {
  import opened AllocRing
  import opened AllocBits
  import opened AllocChunks

  // The head word of the chunk at p is size[p] with p in cin and p in pin; foot[p]
  // is its prev_foot word.
  datatype HV = HV(c: Chunks, size: Links, cin: set<nat>, pin: set<nat>, foot: Links,
                   segs: seq<Segment>, top: nat, topsize: nat, dv: nat, dvsize: nat, st: nat)

  predicate SpareAt(c: Chunks, p: nat, n: nat) { p in c && Spare(c[p].kind) && c[p].size == n }

  // What a free chunk of n bytes tells the chunk after it.
  predicate FreeBefore(h: HV, p: nat, n: nat) {
    p in h.c && InUse(h.c[p].kind) && p !in h.pin && At(h.foot, p) == n
  }

  predicate TagOk(h: HV, p: nat)
    requires p in h.c
  {
    var n := h.c[p].size;
    && (match h.c[p].kind
        case Live => At(h.size, p) == n && p in h.cin
        case State => At(h.size, p) == n && p in h.cin && p == h.st && n == STATE_CHUNK
        case Tail => At(h.size, p) == 32 && p in h.cin
        case Bin => At(h.size, p) == n && p !in h.cin && p in h.pin && FreeBefore(h, p + n, n)
        case Dv => At(h.size, p) == n && p !in h.cin && p in h.pin && FreeBefore(h, p + n, n) && p == h.dv
          && n == h.dvsize
        case Top => At(h.size, p) + TOP_FOOT_SIZE == n && p !in h.cin && p in h.pin && h.topsize + TOP_FOOT_SIZE == n)
    && (p !in h.pin ==> At(h.foot, p) <= p && SpareAt(h.c, p - At(h.foot, p), At(h.foot, p)))
  }

  ghost predicate HeapOk(h: HV) {
    && Geo(h.c, h.segs, h.top)
    && (forall p {:trigger TagOk(h, p)} :: p in h.c ==> TagOk(h, p))
    && (forall i :: 0 <= i < |h.segs| ==> h.segs[i].base in h.pin)
    && h.segs[0].rec == h.st + 856
    && h.st in h.c && h.c[h.st].kind == State
    && (h.dv == 0 <==> h.dvsize == 0) && (h.dv != 0 ==> SpareAt(h.c, h.dv, h.dvsize) && h.c[h.dv].kind == Dv)
  }

  // Addresses outside all segments.
  ghost predicate Off(h: HV, a: nat) { forall i :: 0 <= i < |h.segs| ==> !(h.segs[i].base <= a < End(h.segs[i])) }

  predicate SameTag(h: HV, h': HV, a: nat) {
    At(h'.size, a) == At(h.size, a) && (a in h'.cin <==> a in h.cin) && (a in h'.pin <==> a in h.pin)
      && At(h'.foot, a) == At(h.foot, a)
  }

  ghost predicate OffKept(h: HV, h': HV) { forall a: nat :: Off(h, a) && Off(h', a) ==> SameTag(h, h', a) }

  lemma ChunkOn(h: HV, p: nat)
    requires Geo(h.c, h.segs, h.top) && p in h.c
    ensures !Off(h, p) && p > 0
  {
    assert Placed(h.c, h.segs, h.top, p);
    var i :| 0 <= i < |h.segs| && Holds(h.segs[i], p, h.c[p].size);
  }

  // -- Locality --------------------------------------------------------------

  // Chunks from lo up to hi are rewritten, with their tags and the tag of hi.
  ghost predicate Rewrote(h: HV, h': HV, lo: nat, hi: nat) {
    && lo < hi && lo in h.c && lo in h'.c
    && (forall q {:trigger q in h'.c} {:trigger q in h.c} :: !(lo <= q < hi)
                                                             ==> (q in h'.c <==> q in h.c)
                                                                 && (q in h.c ==> h'.c[q] == h.c[q]))
    && (forall q: nat {:trigger SameTag(h, h', q)} :: !(lo <= q <= hi) ==> SameTag(h, h', q))
    && (forall q :: q in h.c && lo <= q < hi ==> q + h.c[q].size <= hi)
    && (lo in h'.pin <==> lo in h.pin) && At(h'.foot, lo) == At(h.foot, lo)
    && (lo !in h.pin ==> InUse(h'.c[lo].kind))
  }

  lemma Local(h: HV, h': HV, lo: nat, hi: nat, p: nat)
    requires Geo(h.c, h.segs, h.top) && Rewrote(h, h', lo, hi) && p in h.c && p in h'.c && !(lo <= p <= hi)
             && TagOk(h, p)
    requires h'.st == h.st && (h.c[p].kind == Dv ==> h'.dv == h.dv && h'.dvsize == h.dvsize)
             && (h.c[p].kind == Top ==> h'.topsize == h.topsize)
    ensures TagOk(h', p)
  {
    var n := h.c[p].size;
    assert SameTag(h, h', p);
    if Spare(h.c[p].kind) {
      assert p < lo ==> Precedes(h.c, p, lo);
      if p + n != lo { assert SameTag(h, h', p + n); }
    }
    if p !in h.pin {
      var q := p - At(h.foot, p);
      assert q in h.c;
      if q < lo { assert Precedes(h.c, q, lo); }
    }
  }

  // The chunk after the region keeps its own tag, except for what its predecessor says.
  predicate EndOk(h: HV, h': HV, hi: nat)
    requires hi in h.c
  {
    && At(h'.size, hi) == At(h.size, hi) && (hi in h'.cin <==> hi in h.cin)
    && (hi !in h'.pin ==> InUse(h.c[hi].kind) && At(h'.foot, hi) <= hi
                          && SpareAt(h'.c, hi - At(h'.foot, hi), At(h'.foot, hi)))
  }

  lemma LocalEnd(h: HV, h': HV, lo: nat, hi: nat)
    requires Geo(h.c, h.segs, h.top) && Rewrote(h, h', lo, hi) && hi in h.c && TagOk(h, hi) && EndOk(h, h', hi)
    requires h'.st == h.st && (h.c[hi].kind == Dv ==> h'.dv == h.dv && h'.dvsize == h.dvsize)
             && (h.c[hi].kind == Top ==> h'.topsize == h.topsize)
    ensures TagOk(h', hi)
  {
    var n := h.c[hi].size;
    assert Placed(h.c, h.segs, h.top, hi);
    if Spare(h.c[hi].kind) { assert SameTag(h, h', hi + n); }
  }

  // What has to be shown of a rewriting: the new chunks and the one after them.
  ghost predicate Tagged(h: HV, h': HV, lo: nat, hi: nat) {
    && Geo(h'.c, h'.segs, h'.top) && Rewrote(h, h', lo, hi) && h'.st == h.st
    && (h.dv == 0 || lo <= h.dv < hi || (h'.dv == h.dv && h'.dvsize == h.dvsize))
    && (lo <= h.top < hi || h'.topsize == h.topsize)
    && (hi in h.c ==> EndOk(h, h', hi))
    && (forall q {:trigger TagOk(h', q)} :: q in h'.c && lo <= q < hi ==> TagOk(h', q))
  }

  lemma Retag(h: HV, h': HV, lo: nat, hi: nat)
    requires HeapOk(h) && Tagged(h, h', lo, hi)
    ensures forall q {:trigger TagOk(h', q)} :: q in h'.c ==> TagOk(h', q)
  {
    forall q | q in h'.c
      ensures TagOk(h', q)
    {
      if !(lo <= q < hi) {
        assert TagOk(h, q);
        TopAt(h.c, h.segs, h.top, q);
        if q == hi { LocalEnd(h, h', lo, hi); } else { Local(h, h', lo, hi, q); }
      }
    }
  }

  // What is known about one chunk of a good heap.
  lemma ChunkFacts(h: HV, p: nat)
    requires HeapOk(h) && p in h.c
    ensures TagOk(h, p) && p > 0 && p % 8 == 0 && h.c[p].size % 8 == 0 && MIN_CHUNK_SIZE <= h.c[p].size < SIZE_LIMIT
            && Geo(h.c, h.segs, h.top)
    ensures !Last(h.c[p].kind) ==> p + h.c[p].size in h.c
    ensures h.c[p].kind == Top <==> p == h.top
    ensures forall q :: q in h.c && p < q ==> p + h.c[p].size <= q
    ensures |h.segs| > 0 && h.st in h.c && h.c[h.st].kind == State && h.top in h.c
    ensures !Off(h, p)
    ensures h.dv != 0 ==> h.dv in h.c && h.c[h.dv].kind == Dv
  {
    assert TagOk(h, p) && Placed(h.c, h.segs, h.top, p);
    TopAt(h.c, h.segs, h.top, p);
    ChunkOn(h, p);
    var i :| 0 <= i < |h.segs| && Holds(h.segs[i], p, h.c[p].size);
    assert SegOk(h.c, h.segs, h.top, i) && SegOk(h.c, h.segs, h.top, 0);
    forall q | q in h.c && p < q ensures p + h.c[p].size <= q { assert Precedes(h.c, p, q); }
  }

  // Assembling a good heap from its parts, for a rewriting that moves no segment.
  lemma HeapFrom(h: HV, h': HV, lo: nat, hi: nat)
    requires HeapOk(h) && Tagged(h, h', lo, hi) && h'.segs == h.segs && h'.st in h'.c && h'.c[h'.st].kind == State
    requires forall i :: 0 <= i < |h.segs| ==> h.segs[i].base in h'.pin
    requires (h'.dv == 0 <==> h'.dvsize == 0)
             && (h'.dv != 0 ==> SpareAt(h'.c, h'.dv, h'.dvsize) && h'.c[h'.dv].kind == Dv)
    ensures HeapOk(h')
  {
    Retag(h, h', lo, hi);
  }

  // -- Laying down chunks ----------------------------------------------------

  // The writes of set_inuse, set_free_with_pinuse and of a new top.
  function Lay(h: HV, p: nat, n: nat, k: Kind): HV {
    if k == Live then h.(size := h.size[p := n], cin := h.cin + {p}, pin := h.pin + {p + n})
    else if Spare(k) then h.(size := h.size[p := n], cin := h.cin - {p}, pin := h.pin + {p} - {p + n},
      foot := h.foot[p + n := n])
    else h.(size := h.size[p := if n >= TOP_FOOT_SIZE then n - TOP_FOOT_SIZE else 0], cin := h.cin - {p},
      pin := h.pin + {p})
  }

  // dv and top follow their chunks.
  function Designate(h: HV, lo: nat, hi: nat, p: nat, n: nat, k: Kind): HV {
    if k == Dv then h.(dv := p, dvsize := n)
    else
      var h' := if lo <= h.dv < hi then h.(dv := 0, dvsize := 0) else h;
      if k == Top then h'.(top := p, topsize := if n >= TOP_FOOT_SIZE then n - TOP_FOOT_SIZE else 0) else h'
  }

  // The chunks from lo on become one of n1 bytes, and one of n2 if n2 > 0.
  function Retile(h: HV, lo: nat, n1: nat, k1: Kind, n2: nat, k2: Kind): HV {
    var h1 := Lay(h.(c := Cover(h.c, lo, n1, k1, n2, k2)), lo, n1, k1);
    var h2 := if n2 == 0 then h1 else Lay(h1, lo + n1, n2, k2);
    if n2 == 0 then Designate(h2, lo, lo + n1, lo, n1, k1) else Designate(h2, lo, lo + n1 + n2, lo + n1, n2, k2)
  }

  // When that keeps the heap good: no free chunk next to another.
  ghost predicate CanRetile(h: HV, lo: nat, n1: nat, k1: Kind, n2: nat, k2: Kind) {
    var hi, k := lo + n1 + n2, if n2 == 0 then k1 else k2;
    && CanCover(h.c, h.segs, h.top, lo, n1, k1, n2, k2)
    && (lo !in h.pin ==> k1 == Live)
    && (Spare(k) ==> hi in h.c && InUse(h.c[hi].kind))
    && (k == Dv ==> h.dv == 0 || lo <= h.dv < hi)
  }

  lemma LayTags(h: HV, p: nat, n: nat, k: Kind, a: nat)
    requires n > 0
    ensures var h' := Lay(h, p, n, k);
            && (a != p && a != p + n ==> SameTag(h, h', a))
            && h'.c == h.c && h'.segs == h.segs && h'.st == h.st && h'.dv == h.dv && h'.dvsize == h.dvsize
               && h'.top == h.top && h'.topsize == h.topsize
            && (a == p ==> At(h'.foot, a) == At(h.foot, a)
                           && (if k == Live then a in h'.pin <==> a in h.pin else a in h'.pin)
                           && (a in h'.cin <==> k == Live) && At(h'.size, a) == if k == Top
                              then (if n >= 64 then n - 64 else 0) else if k == Live || Spare(k) then n
                              else At(h'.size, a))
            && (a == p + n ==> At(h'.size, a) == At(h.size, a) && (a in h'.cin <==> a in h.cin)
                               && (if k == Live then a in h'.pin else if Spare(k) then a !in h'.pin
                                  else a in h'.pin <==> a in h.pin)
                               && At(h'.foot, a) == if Spare(k) then n else At(h.foot, a))
  {
  }

  // Only dv and top change.
  lemma DesignateKeeps(h: HV, lo: nat, hi: nat, p: nat, n: nat, k: Kind)
    ensures var h' := Designate(h, lo, hi, p, n, k);
            && h'.c == h.c && h'.segs == h.segs && h'.st == h.st && h'.size == h.size && h'.cin == h.cin
               && h'.pin == h.pin && h'.foot == h.foot
            && (k == Dv ==> h'.dv == p && h'.dvsize == n)
            && (k != Dv ==> if lo <= h.dv < hi then h'.dv == 0 && h'.dvsize == 0
               else h'.dv == h.dv && h'.dvsize == h.dvsize)
            && (if k == Top then h'.top == p && (n >= TOP_FOOT_SIZE ==> h'.topsize + TOP_FOOT_SIZE == n)
               else h'.top == h.top && h'.topsize == h.topsize)
  {
  }

  // The result of Retile, word by word.
  lemma RetileIs(h: HV, lo: nat, n1: nat, k1: Kind, n2: nat, k2: Kind)
    requires n1 > 0
    ensures var h', hi, p, n, k := Retile(h, lo, n1, k1, n2, k2), lo + n1 + n2, if n2 == 0 then lo else lo + n1,
            if n2 == 0 then n1 else n2, if n2 == 0 then k1 else k2;
            && h'.c == Cover(h.c, lo, n1, k1, n2, k2) && h'.segs == h.segs && h'.st == h.st
               && h'.top == NewTop(h.top, lo, n1, k1, n2, k2)
            && (k == Dv ==> h'.dv == p && h'.dvsize == n)
            && (k != Dv ==> if lo <= h.dv < hi then h'.dv == 0 && h'.dvsize == 0
               else h'.dv == h.dv && h'.dvsize == h.dvsize)
            && (if k == Top then n >= TOP_FOOT_SIZE ==> h'.topsize + TOP_FOOT_SIZE == n else h'.topsize == h.topsize)
  {
    var h0 := h.(c := Cover(h.c, lo, n1, k1, n2, k2));
    var h1 := Lay(h0, lo, n1, k1);
    var h2 := if n2 == 0 then h1 else Lay(h1, lo + n1, n2, k2);
    LayTags(h0, lo, n1, k1, 0);
    if n2 > 0 { LayTags(h1, lo + n1, n2, k2, 0); }
    DesignateKeeps(h2, lo, lo + n1 + n2, if n2 == 0 then lo else lo + n1, if n2 == 0 then n1 else n2, if n2 == 0 then k1
      else k2);
    hide Lay, Designate, Cover;
  }

  // The tag words after Retile: outside, at the new chunks, at the end.
  ghost predicate TagsAs(h: HV, h': HV, lo: nat, n1: nat, k1: Kind, n2: nat, k2: Kind, a: nat) {
    var hi, p, n, k := lo + n1 + n2, if n2 == 0 then lo else lo + n1, if n2 == 0 then n1 else n2, if n2 == 0 then k1
      else k2;
    && (!(lo <= a <= hi) ==> SameTag(h, h', a))
    && (a == lo ==> At(h'.foot, a) == At(h.foot, a) && (a in h'.pin <==> k1 != Live || a in h.pin)
                    && (a in h'.cin <==> k1 == Live))
    && (a == lo && n2 > 0 ==> At(h'.size, a) == n1)
    && (a == p ==> (a in h'.cin <==> k == Live) && At(h'.size, a) == (if k == Top then n - TOP_FOOT_SIZE else n)
                   && (n2 > 0 ==> a in h'.pin))
    && (a == hi ==> At(h'.size, a) == At(h.size, a) && (a in h'.cin <==> a in h.cin) && EndWord(h, h', a, n, k))
  }

  predicate EndWord(h: HV, h': HV, a: nat, n: nat, k: Kind) {
    if k == Live then a in h'.pin else if Spare(k) then a !in h'.pin && At(h'.foot, a) == n else SameTag(h, h', a)
  }

  lemma OneTags(h: HV, lo: nat, n1: nat, k1: Kind, a: nat)
    requires Piece(n1, k1)
    ensures TagsAs(h, Retile(h, lo, n1, k1, 0, k1), lo, n1, k1, 0, k1, a)
  {
    var h0 := h.(c := Cover(h.c, lo, n1, k1, 0, k1));
    var h1 := Lay(h0, lo, n1, k1);
    LayTags(h0, lo, n1, k1, a);
    DesignateKeeps(h1, lo, lo + n1, lo, n1, k1);
    hide Lay, Designate, Cover;
  }

  lemma TwoTags(h: HV, lo: nat, n1: nat, n2: nat, k2: Kind, a: nat)
    requires Piece(n1, Live) && Piece(n2, k2)
    ensures TagsAs(h, Retile(h, lo, n1, Live, n2, k2), lo, n1, Live, n2, k2, a)
  {
    var h0 := h.(c := Cover(h.c, lo, n1, Live, n2, k2));
    var h1 := Lay(h0, lo, n1, Live);
    var h2 := Lay(h1, lo + n1, n2, k2);
    LayTags(h0, lo, n1, Live, a);
    LayTags(h1, lo + n1, n2, k2, a);
    DesignateKeeps(h2, lo, lo + n1 + n2, lo + n1, n2, k2);
    hide Lay, Designate, Cover;
  }

  lemma RetileTags(h: HV, lo: nat, n1: nat, k1: Kind, n2: nat, k2: Kind, a: nat)
    requires Piece(n1, k1) && (n2 > 0 ==> k1 == Live && Piece(n2, k2)) && (n2 == 0 ==> k2 == k1)
    ensures TagsAs(h, Retile(h, lo, n1, k1, n2, k2), lo, n1, k1, n2, k2, a)
  {
    if n2 == 0 { OneTags(h, lo, n1, k1, a); } else { TwoTags(h, lo, n1, n2, k2, a); }
  }

  lemma CoverHas(c: Chunks, lo: nat, n1: nat, k1: Kind, n2: nat, k2: Kind)
    requires n1 > 0
    ensures var c' := Cover(c, lo, n1, k1, n2, k2);
            && (forall q {:trigger q in c'} {:trigger q in c} :: !(lo <= q < lo + n1 + n2)
                                                                 ==> (q in c' <==> q in c)
                                                                     && (q in c ==> c'[q] == c[q]))
            && lo in c' && c'[lo] == Ck(n1, k1) && (n2 > 0 ==> lo + n1 in c' && c'[lo + n1] == Ck(n2, k2))
            && (forall q :: q in c' && lo <= q < lo + n1 + n2 ==> q == lo || (n2 > 0 && q == lo + n1))
  {
  }

  lemma RetileRewrote(h: HV, lo: nat, n1: nat, k1: Kind, n2: nat, k2: Kind)
    requires HeapOk(h) && CanRetile(h, lo, n1, k1, n2, k2) && (n2 == 0 ==> k2 == k1)
    ensures Rewrote(h, Retile(h, lo, n1, k1, n2, k2), lo, lo + n1 + n2)
  {
    var h', hi := Retile(h, lo, n1, k1, n2, k2), lo + n1 + n2;
    RegionKinds(h.c, h.segs, h.top, lo, hi);
    RetileIs(h, lo, n1, k1, n2, k2);
    CoverHas(h.c, lo, n1, k1, n2, k2);
    RetileTags(h, lo, n1, k1, n2, k2, lo);
    hide HeapOk, Region, TagOk, Retile, Cover;
    forall q: nat | !(lo <= q <= hi) ensures SameTag(h, h', q) { RetileTags(h, lo, n1, k1, n2, k2, q); }
    assert lo in h.c;
  }

  // Right after Top there can only be another segment.
  lemma PastTop(h: HV, hi: nat)
    requires HeapOk(h) && hi == End(h.segs[0]) && hi in h.c
    ensures hi in h.pin
  {
    assert Placed(h.c, h.segs, h.top, hi) && SegOk(h.c, h.segs, h.top, 0);
    assert Placed(h.c, h.segs, h.top, h.segs[0].base);
    var i :| 0 <= i < |h.segs| && Holds(h.segs[i], hi, h.c[hi].size);
    TopAt(h.c, h.segs, h.top, h.top);
    assert Placed(h.c, h.segs, h.top, h.top);
    assert 0 < i ==> Disjoint(h.segs[0], h.segs[i]);
  }

  lemma RetileEnd(h: HV, lo: nat, n1: nat, k1: Kind, n2: nat, k2: Kind)
    requires HeapOk(h) && CanRetile(h, lo, n1, k1, n2, k2) && (n2 == 0 ==> k2 == k1) && lo + n1 + n2 in h.c
    ensures EndOk(h, Retile(h, lo, n1, k1, n2, k2), lo + n1 + n2)
  {
    var h', hi := Retile(h, lo, n1, k1, n2, k2), lo + n1 + n2;
    hide HeapOk, TagOk, Retile, Cover, Region, Geo;
    RetileIs(h, lo, n1, k1, n2, k2);
    CoverHas(h.c, lo, n1, k1, n2, k2);
    RetileTags(h, lo, n1, k1, n2, k2, hi);
    if k2 == Top {
      TopEnds(h, lo, hi);
      PastTop(h, hi);
    }
  }

  lemma TopEnds(h: HV, lo: nat, hi: nat)
    requires Region(h.c, h.segs, h.top, lo, hi) && lo <= h.top < hi
    ensures |h.segs| > 0 && hi == End(h.segs[0])
  {
  }

  lemma ChunkTag(h: HV, p: nat)
    requires HeapOk(h) && p in h.c
    ensures TagOk(h, p)
  {
  }

  lemma RegionStart(h: HV, lo: nat, hi: nat)
    requires Region(h.c, h.segs, h.top, lo, hi)
    ensures lo in h.c
  {
  }

  // The tag of the first new chunk, and of the second.
  lemma FirstTag(h: HV, lo: nat, n1: nat, k1: Kind, n2: nat, k2: Kind)
    requires HeapOk(h) && CanRetile(h, lo, n1, k1, n2, k2) && (n2 == 0 ==> k2 == k1)
    ensures lo in Retile(h, lo, n1, k1, n2, k2).c && TagOk(Retile(h, lo, n1, k1, n2, k2), lo)
  {
    hide HeapOk, Retile, Cover, Region, Geo;
    var h', hi := Retile(h, lo, n1, k1, n2, k2), lo + n1 + n2;
    RetileIs(h, lo, n1, k1, n2, k2);
    CoverHas(h.c, lo, n1, k1, n2, k2);
    RetileTags(h, lo, n1, k1, n2, k2, hi);
    RetileTags(h, lo, n1, k1, n2, k2, lo);
    RegionStart(h, lo, hi);
    ChunkTag(h, lo);
  }

  lemma SecondTag(h: HV, lo: nat, n1: nat, n2: nat, k2: Kind)
    requires HeapOk(h) && CanRetile(h, lo, n1, Live, n2, k2) && n2 > 0
    ensures lo + n1 in Retile(h, lo, n1, Live, n2, k2).c && TagOk(Retile(h, lo, n1, Live, n2, k2), lo + n1)
  {
    var h', hi, p := Retile(h, lo, n1, Live, n2, k2), lo + n1 + n2, lo + n1;
    RetileIs(h, lo, n1, Live, n2, k2);
    CoverHas(h.c, lo, n1, Live, n2, k2);
    RetileTags(h, lo, n1, Live, n2, k2, hi);
    RetileTags(h, lo, n1, Live, n2, k2, p);
    hide HeapOk, Retile, Cover, Region;
  }

  lemma RetileTagged(h: HV, lo: nat, n1: nat, k1: Kind, n2: nat, k2: Kind)
    requires HeapOk(h) && CanRetile(h, lo, n1, k1, n2, k2) && (n2 == 0 ==> k2 == k1)
    ensures Tagged(h, Retile(h, lo, n1, k1, n2, k2), lo, lo + n1 + n2)
  {
    var h', hi := Retile(h, lo, n1, k1, n2, k2), lo + n1 + n2;
    hide *;
    RetileParts(h, lo, n1, k1, n2, k2);
    RetileRewrote(h, lo, n1, k1, n2, k2);
    if hi in h.c { RetileEnd(h, lo, n1, k1, n2, k2); }
    FirstTag(h, lo, n1, k1, n2, k2);
    if n2 > 0 { SecondTag(h, lo, n1, n2, k2); }
    TaggedIs(h, h', lo, n1, n2);
  }

  lemma RetileParts(h: HV, lo: nat, n1: nat, k1: Kind, n2: nat, k2: Kind)
    requires HeapOk(h) && CanRetile(h, lo, n1, k1, n2, k2) && (n2 == 0 ==> k2 == k1)
    ensures var h', hi := Retile(h, lo, n1, k1, n2, k2), lo + n1 + n2;
            && Geo(h'.c, h'.segs, h'.top) && h'.st == h.st && h'.segs == h.segs && (n2 > 0 ==> k1 == Live)
            && (h.dv == 0 || lo <= h.dv < hi || (h'.dv == h.dv && h'.dvsize == h.dvsize))
            && (lo <= h.top < hi || h'.topsize == h.topsize)
            && (forall q :: q in h'.c && lo <= q < hi ==> q == lo || (n2 > 0 && q == lo + n1))
  {
    CoverGeo(h.c, h.segs, h.top, lo, n1, k1, n2, k2);
    RetileIs(h, lo, n1, k1, n2, k2);
    CoverHas(h.c, lo, n1, k1, n2, k2);
    hide HeapOk, Retile, Cover, Geo, Region;
  }

  lemma TaggedIs(h: HV, h': HV, lo: nat, n1: nat, n2: nat)
    requires Geo(h'.c, h'.segs, h'.top) && Rewrote(h, h', lo, lo + n1 + n2) && h'.st == h.st
    requires h.dv == 0 || lo <= h.dv < lo + n1 + n2 || (h'.dv == h.dv && h'.dvsize == h.dvsize)
    requires lo <= h.top < lo + n1 + n2 || h'.topsize == h.topsize
    requires lo + n1 + n2 in h.c ==> EndOk(h, h', lo + n1 + n2)
    requires forall q :: q in h'.c && lo <= q < lo + n1 + n2 ==> q == lo || (n2 > 0 && q == lo + n1)
    requires lo in h'.c && TagOk(h', lo) && (n2 > 0 ==> lo + n1 in h'.c && TagOk(h', lo + n1))
    ensures Tagged(h, h', lo, lo + n1 + n2)
  {
  }

  // Retiling a region keeps a good heap good.
  lemma RetileOk(h: HV, lo: nat, n1: nat, k1: Kind, n2: nat, k2: Kind)
    requires HeapOk(h) && CanRetile(h, lo, n1, k1, n2, k2) && (n2 == 0 ==> k2 == k1)
    ensures HeapOk(Retile(h, lo, n1, k1, n2, k2)) && OffKept(h, Retile(h, lo, n1, k1, n2, k2))
  {
    var h', hi := Retile(h, lo, n1, k1, n2, k2), lo + n1 + n2;
    hide *;
    RetileTagged(h, lo, n1, k1, n2, k2);
    RetileFixed(h, lo, n1, k1, n2, k2);
    RetileBases(h, lo, n1, k1, n2, k2);
    RetileOff(h, lo, n1, k1, n2, k2);
    HeapFrom(h, h', lo, hi);
  }

  // What follows a region without top in its segment.
  lemma RegionInner(h: HV, lo: nat, hi: nat)
    requires HeapOk(h) && Region(h.c, h.segs, h.top, lo, hi) && !(lo <= h.top < hi)
    ensures forall i :: 0 <= i < |h.segs| ==> h.segs[i].base != hi
  {
    var j :| 0 <= j < |h.segs| && Holds(h.segs[j], lo, hi - lo);
    LastChunk(h.c, h.segs, h.top, j);
    RegionKinds(h.c, h.segs, h.top, lo, hi);
    TopAt(h.c, h.segs, h.top, LastOf(h.segs, h.top, j));
    assert Precedes(h.c, LastOf(h.segs, h.top, j), lo);
    forall i | 0 <= i < |h.segs| ensures h.segs[i].base != hi { EndInside(h, lo, hi, i, j); }
  }

  lemma EndInside(h: HV, lo: nat, hi: nat, i: nat, j: nat)
    requires HeapOk(h) && lo < hi && i < |h.segs| && j < |h.segs| && h.segs[j].base <= lo && hi < End(h.segs[j])
    ensures h.segs[i].base != hi
  {
    assert SegOk(h.c, h.segs, h.top, i);
    LastChunk(h.c, h.segs, h.top, i);
    assert Placed(h.c, h.segs, h.top, h.segs[i].base) && Placed(h.c, h.segs, h.top, LastOf(h.segs, h.top, i));
    assert Precedes(h.c, LastOf(h.segs, h.top, i), h.segs[i].base);
    SameSegment(h.segs, i, j, hi);
  }

  lemma RetileBases(h: HV, lo: nat, n1: nat, k1: Kind, n2: nat, k2: Kind)
    requires HeapOk(h) && CanRetile(h, lo, n1, k1, n2, k2) && (n2 == 0 ==> k2 == k1)
    ensures var h' := Retile(h, lo, n1, k1, n2, k2); forall i :: 0 <= i < |h.segs| ==> h.segs[i].base in h'.pin
  {
    var h', hi := Retile(h, lo, n1, k1, n2, k2), lo + n1 + n2;
    CoverHas(h.c, lo, n1, k1, n2, k2);
    if !(lo <= h.top < hi) { RegionInner(h, lo, hi); }
    forall i | 0 <= i < |h.segs|
      ensures h.segs[i].base in h'.pin
    {
      CoverBase(h.c, h.segs, h.top, lo, n1, k1, n2, k2, i);
      RetileTags(h, lo, n1, k1, n2, k2, h.segs[i].base);
    }
  }

  lemma RetileFixed(h: HV, lo: nat, n1: nat, k1: Kind, n2: nat, k2: Kind)
    requires HeapOk(h) && CanRetile(h, lo, n1, k1, n2, k2) && (n2 == 0 ==> k2 == k1)
    ensures var h' := Retile(h, lo, n1, k1, n2, k2);
            && h'.segs == h.segs && h'.st in h'.c && h'.c[h'.st].kind == State
            && (h'.dv == 0 <==> h'.dvsize == 0)
               && (h'.dv != 0 ==> SpareAt(h'.c, h'.dv, h'.dvsize) && h'.c[h'.dv].kind == Dv)
  {
    var h', hi := Retile(h, lo, n1, k1, n2, k2), lo + n1 + n2;
    ChunkFacts(h, lo);
    RegionKinds(h.c, h.segs, h.top, lo, hi);
    RetileIs(h, lo, n1, k1, n2, k2);
    CoverHas(h.c, lo, n1, k1, n2, k2);
    hide Retile, Cover, Region, Geo;
  }

  lemma RetileOff(h: HV, lo: nat, n1: nat, k1: Kind, n2: nat, k2: Kind)
    requires HeapOk(h) && CanRetile(h, lo, n1, k1, n2, k2) && (n2 == 0 ==> k2 == k1)
    ensures OffKept(h, Retile(h, lo, n1, k1, n2, k2))
  {
    var h', hi := Retile(h, lo, n1, k1, n2, k2), lo + n1 + n2;
    RetileIs(h, lo, n1, k1, n2, k2);
    if hi in h.c { ChunkOn(h, hi); }
    var i :| 0 <= i < |h.segs| && Holds(h.segs[i], lo, hi - lo);
    hide HeapOk, Retile, Region, Geo;
    forall a: nat | Off(h, a) && Off(h', a)
      ensures SameTag(h, h', a)
    {
      assert !(h.segs[i].base <= a < End(h.segs[i]));
      RetileTags(h, lo, n1, k1, n2, k2, a);
    }
  }
}
