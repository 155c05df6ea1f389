// The chunks of src/lj_alloc.c: how they tile the segments, and how splitting
// and joining neighbours keeps the tiling.
module AllocChunks {
  import opened AllocRing
  import opened AllocBits

  const MIN_CHUNK_SIZE: nat := 32
  const TOP_FOOT_SIZE: nat := 64
  const STATE_CHUNK: nat := 872   // the chunk holding malloc_state
  const DEFAULT_GRANULARITY: nat := 0x2_0000

  // Live belongs to the user; State holds malloc_state; Tail holds a segment
  // record and fenceposts; Bin is in a bin; Dv and Top are the designated ones.
  datatype Kind = Live | State | Tail | Bin | Dv | Top

  // Top extends over the padding at the end of its segment.
  datatype Ck = Ck(size: nat, kind: Kind)

  type Chunks = map<nat, Ck>

  // rec is the address of the segment's own record.
  datatype Segment = Segment(base: nat, size: nat, rec: nat)

  function End(s: Segment): nat { s.base + s.size }

  predicate Last(k: Kind) { k == Tail || k == Top }

  predicate Spare(k: Kind) { k == Bin || k == Dv }

  predicate InUse(k: Kind) { k == Live || k == State || k == Tail }

  // -- Tiling ----------------------------------------------------------------

  predicate Holds(s: Segment, p: nat, n: nat) { s.base <= p && p + n <= End(s) }

  ghost predicate Inside(segs: seq<Segment>, p: nat, n: nat) { exists i :: 0 <= i < |segs| && Holds(segs[i], p, n) }

  // Segments are whole units, so that a free chunk filling one is a large one.
  predicate Granular(n: nat) { n >= DEFAULT_GRANULARITY && n % DEFAULT_GRANULARITY == 0 }

  predicate TailOf(s: Segment, p: nat, n: nat) { s.rec == p + 16 && p + n == End(s) }

  ghost predicate HasTail(segs: seq<Segment>, p: nat, n: nat) { exists i :: 1 <= i < |segs| && TailOf(segs[i], p, n) }

  ghost predicate Placed(c: Chunks, segs: seq<Segment>, top: nat, p: nat)
    requires p in c && |segs| > 0
  {
    var n := c[p].size;
    && p > 0 && p % 8 == 0 && n % 8 == 0 && n >= MIN_CHUNK_SIZE && Inside(segs, p, n)
    && match c[p].kind
       case Top => p == top && p + n == End(segs[0]) && n >= TOP_FOOT_SIZE
       case Tail => n >= TOP_FOOT_SIZE && HasTail(segs, p, n)
       case _ => p + n in c
  }

  ghost predicate SegOk(c: Chunks, segs: seq<Segment>, top: nat, i: nat)
    requires i < |segs|
  {
    var s := segs[i];
    && 0 < s.base && s.base % 8 == 0 && s.base in c && End(s) < TWO64 && s.size < SIZE_LIMIT && Granular(s.size)
    && (i == 0 ==> top in c && c[top].kind == Top)
    && (i > 0 ==> s.rec >= 16 && s.rec - 16 in c && c[s.rec - 16].kind == Tail
                  && TailOf(s, s.rec - 16, c[s.rec - 16].size))
  }

  predicate Disjoint(s: Segment, t: Segment) { End(s) <= t.base || End(t) <= s.base }

  ghost predicate SegsApart(segs: seq<Segment>) { forall i, j :: 0 <= i < j < |segs| ==> Disjoint(segs[i], segs[j]) }

  predicate Precedes(c: Chunks, p: nat, q: nat)
    requires p in c
  {
    p < q ==> p + c[p].size <= q
  }

  ghost predicate Ordered(c: Chunks) {
    forall p, q {:trigger Precedes(c, p, q)} :: p in c && q in c ==> Precedes(c, p, q)
  }

  ghost predicate Geo(c: Chunks, segs: seq<Segment>, top: nat) {
    && |segs| > 0 && SegsApart(segs) && Ordered(c)
    && (forall p {:trigger Placed(c, segs, top, p)} :: p in c ==> Placed(c, segs, top, p))
    && (forall i {:trigger SegOk(c, segs, top, i)} :: 0 <= i < |segs| ==> SegOk(c, segs, top, i))
  }

  // -- Consequences ----------------------------------------------------------

  // The last chunk of a segment.
  function LastOf(segs: seq<Segment>, top: nat, i: nat): int
    requires i < |segs|
  {
    if i == 0 then top else segs[i].rec - 16
  }

  lemma LastChunk(c: Chunks, segs: seq<Segment>, top: nat, i: nat)
    requires Geo(c, segs, top) && i < |segs|
    ensures var l := LastOf(segs, top, i); l in c && Last(c[l].kind) && l + c[l].size == End(segs[i])
                                           && c[l].size >= TOP_FOOT_SIZE
  {
    assert SegOk(c, segs, top, i);
    var l := LastOf(segs, top, i);
    assert Placed(c, segs, top, l);
  }

  lemma SameSegment(segs: seq<Segment>, i: nat, j: nat, p: nat)
    requires SegsApart(segs) && i < |segs| && j < |segs|
    ensures segs[i].base <= p < End(segs[i]) && segs[j].base <= p < End(segs[j]) ==> i == j
  {
    assert i < j ==> Disjoint(segs[i], segs[j]);
    assert j < i ==> Disjoint(segs[j], segs[i]);
  }

  // Only the last chunk of a segment reaches its end.
  lemma NextChunk(c: Chunks, segs: seq<Segment>, top: nat, p: nat)
    requires Geo(c, segs, top) && p in c && !Last(c[p].kind)
    ensures p + c[p].size in c
    ensures exists i :: 0 <= i < |segs| && Holds(segs[i], p, c[p].size + c[p + c[p].size].size)
  {
    assert Placed(c, segs, top, p);
    var q := p + c[p].size;
    var i :| 0 <= i < |segs| && Holds(segs[i], p, c[p].size);
    LastChunk(c, segs, top, i);
    var l := LastOf(segs, top, i);
    assert Precedes(c, p, l) && Precedes(c, l, p);
    assert Placed(c, segs, top, q);
    var j :| 0 <= j < |segs| && Holds(segs[j], q, c[q].size);
    SameSegment(segs, i, j, q);
    assert Holds(segs[i], p, c[p].size + c[q].size);
  }

  lemma TopAt(c: Chunks, segs: seq<Segment>, top: nat, p: nat)
    requires Geo(c, segs, top) && p in c
    ensures c[p].kind == Top <==> p == top
  {
    assert Placed(c, segs, top, p) && SegOk(c, segs, top, 0);
  }

  // -- Regions ---------------------------------------------------------------

  predicate Ends(c: Chunks, q: nat, hi: nat)
    requires q in c
  {
    q + c[q].size <= hi && c[q].kind != Tail && c[q].kind != State
  }

  // Whole neighbouring chunks from lo up to hi, none of which is fixed in place.
  ghost predicate Region(c: Chunks, segs: seq<Segment>, top: nat, lo: nat, hi: nat) {
    && lo < hi && lo in c && |segs| > 0 && Inside(segs, lo, hi - lo)
    && (forall q {:trigger Ends(c, q, hi)} :: q in c && lo <= q < hi ==> Ends(c, q, hi))
    && (if lo <= top < hi then hi == End(segs[0]) else hi in c)
  }

  lemma RegionKinds(c: Chunks, segs: seq<Segment>, top: nat, lo: nat, hi: nat)
    requires Region(c, segs, top, lo, hi)
    ensures forall q :: q in c && lo <= q < hi ==> c[q].kind != Tail && c[q].kind != State && q + c[q].size <= hi
  {
    forall q | q in c && lo <= q < hi
      ensures c[q].kind != Tail && c[q].kind != State && q + c[q].size <= hi
    {
      assert Ends(c, q, hi);
    }
  }

  lemma RegionOne(c: Chunks, segs: seq<Segment>, top: nat, p: nat)
    requires Geo(c, segs, top) && p in c && c[p].kind != Tail && c[p].kind != State
    ensures Region(c, segs, top, p, p + c[p].size)
  {
    assert Placed(c, segs, top, p) && SegOk(c, segs, top, 0);
    TopAt(c, segs, top, p);
    assert Precedes(c, p, top);
    forall q | q in c && p <= q < p + c[p].size ensures Ends(c, q, p + c[p].size) { assert Precedes(c, p, q); }
  }

  lemma TopPast(c: Chunks, segs: seq<Segment>, top: nat, lo: nat, p: nat, mid: nat)
    requires Geo(c, segs, top) && Region(c, segs, top, lo, mid) && lo <= p && p in c && !Last(c[p].kind)
             && p + c[p].size == mid
    ensures !(lo <= top < mid)
  {
    TopAt(c, segs, top, p);
    LastChunk(c, segs, top, 0);
    assert Precedes(c, p, top) && Precedes(c, top, p) && Placed(c, segs, top, p);
  }

  // p is the last chunk before mid.
  lemma RegionJoin(c: Chunks, segs: seq<Segment>, top: nat, lo: nat, p: nat, mid: nat, hi: nat)
    requires Geo(c, segs, top) && Region(c, segs, top, lo, mid) && Region(c, segs, top, mid, hi)
    requires lo <= p && p in c && !Last(c[p].kind) && p + c[p].size == mid
    ensures Region(c, segs, top, lo, hi)
  {
    TopPast(c, segs, top, lo, p, mid);
    JoinInside(c, segs, top, lo, p, mid, hi);
    RegionKinds(c, segs, top, lo, mid);
    RegionKinds(c, segs, top, mid, hi);
    hide Geo, Inside;
    forall q | q in c && lo <= q < hi ensures Ends(c, q, hi) { }
  }

  lemma JoinInside(c: Chunks, segs: seq<Segment>, top: nat, lo: nat, p: nat, mid: nat, hi: nat)
    requires Geo(c, segs, top) && Region(c, segs, top, lo, mid) && Region(c, segs, top, mid, hi)
    requires lo <= p && p in c && !Last(c[p].kind) && p + c[p].size == mid
    ensures Inside(segs, lo, hi - lo)
  {
    NextChunk(c, segs, top, p);
    var i :| 0 <= i < |segs| && Holds(segs[i], p, c[p].size + c[mid].size);
    assert Placed(c, segs, top, p) && Placed(c, segs, top, mid);
    assert c[p].size > 0 && c[mid].size > 0;
    GeoParts(c, segs, top);
    hide Geo, Placed, SegsApart;
    var j :| 0 <= j < |segs| && Holds(segs[j], lo, mid - lo);
    var k :| 0 <= k < |segs| && Holds(segs[k], mid, hi - mid);
    SameSegment(segs, i, j, p);
    SameSegment(segs, i, k, mid);
    assert Holds(segs[i], lo, hi - lo);
  }

  // -- Tiling a region anew --------------------------------------------------

  // One chunk, or two if n2 > 0.
  function Cover(c: Chunks, lo: nat, n1: nat, k1: Kind, n2: nat, k2: Kind): Chunks {
    var rest := map q | q in c && !(lo <= q < lo + n1 + n2) :: c[q];
    var one := rest[lo := Ck(n1, k1)];
    if n2 == 0 then one else one[lo + n1 := Ck(n2, k2)]
  }

  predicate Piece(n: nat, k: Kind) {
    n % 8 == 0 && n >= MIN_CHUNK_SIZE && k != Tail && k != State && (k == Top ==> n >= TOP_FOOT_SIZE)
  }

  function NewTop(top: nat, lo: nat, n1: nat, k1: Kind, n2: nat, k2: Kind): nat {
    if n2 == 0 then (if k1 == Top then lo else top) else if k2 == Top then lo + n1 else top
  }

  ghost predicate CanCover(c: Chunks, segs: seq<Segment>, top: nat, lo: nat, n1: nat, k1: Kind, n2: nat, k2: Kind) {
    && Region(c, segs, top, lo, lo + n1 + n2) && Piece(n1, k1) && (n2 > 0 ==> Piece(n2, k2) && k1 == Live)
    && ((if n2 == 0 then k1 else k2) == Top <==> lo <= top < lo + n1 + n2)
  }

  lemma CoverPlaced(c: Chunks, segs: seq<Segment>, top: nat, lo: nat, n1: nat, k1: Kind, n2: nat, k2: Kind, p: nat)
    requires Geo(c, segs, top) && CanCover(c, segs, top, lo, n1, k1, n2, k2) && p in Cover(c, lo, n1, k1, n2, k2)
    ensures Placed(Cover(c, lo, n1, k1, n2, k2), segs, NewTop(top, lo, n1, k1, n2, k2), p)
  {
    hide SegsApart, SegOk;
    var hi := lo + n1 + n2;
    var i :| 0 <= i < |segs| && Holds(segs[i], lo, hi - lo);
    assert Placed(c, segs, top, lo);
    if lo <= p < hi {
      assert Holds(segs[i], lo, n1) && Holds(segs[i], lo + n1, n2);
    } else {
      assert Placed(c, segs, top, p);
      TopAt(c, segs, top, p);
      assert Precedes(c, p, lo);
    }
  }

  lemma CoverOrdered(c: Chunks, segs: seq<Segment>, top: nat, lo: nat, n1: nat, k1: Kind, n2: nat, k2: Kind)
    requires Geo(c, segs, top) && CanCover(c, segs, top, lo, n1, k1, n2, k2)
    ensures Ordered(Cover(c, lo, n1, k1, n2, k2))
  {
    var c' := Cover(c, lo, n1, k1, n2, k2);
    hide Placed, SegOk, Inside;
    forall q, r | q in c' && r in c'
      ensures Precedes(c', q, r)
    {
      assert q in c && r in c ==> Precedes(c, q, r);
      assert q in c ==> Precedes(c, q, lo);
    }
  }

  lemma CoverSeg(c: Chunks, segs: seq<Segment>, top: nat, lo: nat, n1: nat, k1: Kind, n2: nat, k2: Kind, j: nat)
    requires Geo(c, segs, top) && CanCover(c, segs, top, lo, n1, k1, n2, k2) && j < |segs|
    ensures SegOk(Cover(c, lo, n1, k1, n2, k2), segs, NewTop(top, lo, n1, k1, n2, k2), j)
  {
    hide *;
    CoverBase(c, segs, top, lo, n1, k1, n2, k2, j);
    CoverLast(c, segs, top, lo, n1, k1, n2, k2, j);
    CoverSegIs(c, segs, top, lo, n1, k1, n2, k2, j);
  }

  lemma CoverBase(c: Chunks, segs: seq<Segment>, top: nat, lo: nat, n1: nat, k1: Kind, n2: nat, k2: Kind, j: nat)
    requires Geo(c, segs, top) && CanCover(c, segs, top, lo, n1, k1, n2, k2) && j < |segs|
    ensures segs[j].base in Cover(c, lo, n1, k1, n2, k2)
  {
    hide Placed, Ordered;
    var hi := lo + n1 + n2;
    assert SegOk(c, segs, top, j);
    var i :| 0 <= i < |segs| && Holds(segs[i], lo, hi - lo);
    SameSegment(segs, i, j, segs[j].base);
  }

  lemma CoverLast(c: Chunks, segs: seq<Segment>, top: nat, lo: nat, n1: nat, k1: Kind, n2: nat, k2: Kind, j: nat)
    requires Geo(c, segs, top) && CanCover(c, segs, top, lo, n1, k1, n2, k2) && j < |segs|
    ensures var c', l, top' := Cover(c, lo, n1, k1, n2, k2), LastOf(segs, top, j), NewTop(top, lo, n1, k1, n2, k2);
            if j == 0 then top' in c' && c'[top'].kind == Top else l in c && l in c' && c'[l] == c[l]
  {
    var hi := lo + n1 + n2;
    assert SegOk(c, segs, top, j);
    hide Placed, Ordered, SegsApart;
    RegionKinds(c, segs, top, lo, hi);
  }

  lemma CoverSegIs(c: Chunks, segs: seq<Segment>, top: nat, lo: nat, n1: nat, k1: Kind, n2: nat, k2: Kind, j: nat)
    requires Geo(c, segs, top) && j < |segs| && segs[j].base in Cover(c, lo, n1, k1, n2, k2)
    requires var c', l, top' := Cover(c, lo, n1, k1, n2, k2), LastOf(segs, top, j), NewTop(top, lo, n1, k1, n2, k2);
             if j == 0 then top' in c' && c'[top'].kind == Top else l in c && l in c' && c'[l] == c[l]
    ensures SegOk(Cover(c, lo, n1, k1, n2, k2), segs, NewTop(top, lo, n1, k1, n2, k2), j)
  {
    assert SegOk(c, segs, top, j);
    hide Placed, Ordered, SegsApart, Cover;
  }

  lemma CoverGeo(c: Chunks, segs: seq<Segment>, top: nat, lo: nat, n1: nat, k1: Kind, n2: nat, k2: Kind)
    requires Geo(c, segs, top) && CanCover(c, segs, top, lo, n1, k1, n2, k2)
    ensures Geo(Cover(c, lo, n1, k1, n2, k2), segs, NewTop(top, lo, n1, k1, n2, k2))
  {
    hide *;
    var c', top' := Cover(c, lo, n1, k1, n2, k2), NewTop(top, lo, n1, k1, n2, k2);
    GeoParts(c, segs, top);
    CoverOrdered(c, segs, top, lo, n1, k1, n2, k2);
    forall p | p in c' ensures Placed(c', segs, top', p) { CoverPlaced(c, segs, top, lo, n1, k1, n2, k2, p); }
    forall j | 0 <= j < |segs| ensures SegOk(c', segs, top', j) { CoverSeg(c, segs, top, lo, n1, k1, n2, k2, j); }
    GeoIs(c', segs, top');
  }

  lemma GeoParts(c: Chunks, segs: seq<Segment>, top: nat)
    requires Geo(c, segs, top)
    ensures |segs| > 0 && SegsApart(segs)
  {
  }

  lemma GeoIs(c: Chunks, segs: seq<Segment>, top: nat)
    requires |segs| > 0 && SegsApart(segs) && Ordered(c)
    requires forall p {:trigger Placed(c, segs, top, p)} :: p in c ==> Placed(c, segs, top, p)
    requires forall i {:trigger SegOk(c, segs, top, i)} :: 0 <= i < |segs| ==> SegOk(c, segs, top, i)
    ensures Geo(c, segs, top)
  {
  }
}
