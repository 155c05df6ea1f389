// Growing and shrinking the mapped space of src/lj_alloc.c: a region is appended
// to the top segment, put in front of a segment, or becomes a new segment; a
// segment is released or trimmed.
module AllocSegs {
  import opened AllocRing
  import opened AllocBits
  import opened AllocChunks
  import opened AllocTags

  // A region the system may hand out: aligned, disjoint from what is mapped, and
  // together with no segment as large as the tree bins cannot index.
  ghost predicate Fresh(segs: seq<Segment>, b: nat, n: nat) {
    && 0 < b && b % 8 == 0 && Granular(n) && b + n < TWO64 && n < SIZE_LIMIT
    && (forall i {:trigger Clear(segs, i, b, n)} :: 0 <= i < |segs| ==> Clear(segs, i, b, n))
    && (forall i {:trigger Joinable(segs, i, n)} :: 0 <= i < |segs| ==> Joinable(segs, i, n))
  }

  predicate Clear(segs: seq<Segment>, i: nat, b: nat, n: nat)
    requires i < |segs|
  {
    End(segs[i]) <= b || b + n <= segs[i].base
  }

  predicate Joinable(segs: seq<Segment>, i: nat, n: nat)
    requires i < |segs|
  {
    segs[i].size + n < SIZE_LIMIT
  }

  lemma Eight(n: nat)
    requires Granular(n)
    ensures n % 8 == 0 && n >= 256
  {
    var q := n / DEFAULT_GRANULARITY;
    assert n == DEFAULT_GRANULARITY * q + n % DEFAULT_GRANULARITY;
    EightTimes(DEFAULT_GRANULARITY / 8 * q, n);
  }

  lemma EightTimes(k: nat, n: nat)
    requires n == 8 * k
    ensures n % 8 == 0
  {
  }

  lemma OutsideFresh(c: Chunks, segs: seq<Segment>, top: nat, b: nat, n: nat, p: nat)
    requires Geo(c, segs, top) && Fresh(segs, b, n) && p in c
    ensures c[p].size > 0 && (p + c[p].size <= b || b + n <= p)
  {
    assert Placed(c, segs, top, p);
    var i :| 0 <= i < |segs| && Holds(segs[i], p, c[p].size);
    assert Clear(segs, i, b, n);
  }

  // -- In front of a segment (prepend_alloc) ---------------------------------

  function Fronted(segs: seq<Segment>, i: nat, b: nat, n: nat): seq<Segment>
    requires i < |segs|
  {
    segs[i := Segment(b, segs[i].size + n, segs[i].rec)]
  }

  lemma FrontGeo(c: Chunks, segs: seq<Segment>, top: nat, i: nat, b: nat, n: nat)
    requires Geo(c, segs, top) && Fresh(segs, b, n) && i < |segs| && b + n == segs[i].base
    ensures b !in c && Geo(c[b := Ck(n, Live)], Fronted(segs, i, b, n), top)
  {
    var c', segs' := c[b := Ck(n, Live)], Fronted(segs, i, b, n);
    hide *;
    FrontApart(c, segs, top, i, b, n);
    FrontOrdered(c, segs, top, i, b, n);
    forall p | p in c' ensures Placed(c', segs', top, p) { FrontPlaced(c, segs, top, i, b, n, p); }
    forall j | 0 <= j < |segs'| ensures SegOk(c', segs', top, j) { FrontSeg(c, segs, top, i, b, n, j); }
    GeoIs(c', segs', top);
  }

  lemma FrontApart(c: Chunks, segs: seq<Segment>, top: nat, i: nat, b: nat, n: nat)
    requires Geo(c, segs, top) && Fresh(segs, b, n) && i < |segs| && b + n == segs[i].base
    ensures |Fronted(segs, i, b, n)| > 0 && SegsApart(Fronted(segs, i, b, n))
  {
    var segs' := Fronted(segs, i, b, n);
    forall j, k | 0 <= j < k < |segs'|
      ensures Disjoint(segs'[j], segs'[k])
    {
      assert Disjoint(segs[j], segs[k]) && Clear(segs, j, b, n) && Clear(segs, k, b, n);
      assert SegOk(c, segs, top, j) && SegOk(c, segs, top, k);
    }
  }

  lemma FrontOrdered(c: Chunks, segs: seq<Segment>, top: nat, i: nat, b: nat, n: nat)
    requires Geo(c, segs, top) && Fresh(segs, b, n) && i < |segs| && b + n == segs[i].base
    ensures b !in c && Ordered(c[b := Ck(n, Live)])
  {
    var c' := c[b := Ck(n, Live)];
    if b in c { OutsideFresh(c, segs, top, b, n, b); }
    forall p, q | p in c' && q in c'
      ensures Precedes(c', p, q)
    {
      if p in c && q in c { assert Precedes(c, p, q); }
      if p in c { OutsideFresh(c, segs, top, b, n, p); }
      if q in c { OutsideFresh(c, segs, top, b, n, q); }
    }
  }

  lemma FrontPlaced(c: Chunks, segs: seq<Segment>, top: nat, i: nat, b: nat, n: nat, p: nat)
    requires Geo(c, segs, top) && Fresh(segs, b, n) && i < |segs| && b + n == segs[i].base && p in c[b := Ck(n, Live)]
             && b !in c
    ensures Placed(c[b := Ck(n, Live)], Fronted(segs, i, b, n), top, p)
  {
    hide SegsApart, Ordered, Granular;
    Eight(n);
    var segs' := Fronted(segs, i, b, n);
    if p == b {
      assert Holds(segs'[i], b, n);
      assert SegOk(c, segs, top, i);
    } else {
      assert Placed(c, segs, top, p);
      var j :| 0 <= j < |segs| && Holds(segs[j], p, c[p].size);
      assert Holds(segs'[j], p, c[p].size);
      if c[p].kind == Tail {
        var k :| 1 <= k < |segs| && TailOf(segs[k], p, c[p].size);
        assert TailOf(segs'[k], p, c[p].size);
      }
    }
  }

  lemma FrontSeg(c: Chunks, segs: seq<Segment>, top: nat, i: nat, b: nat, n: nat, j: nat)
    requires Geo(c, segs, top) && Fresh(segs, b, n) && i < |segs| && b + n == segs[i].base && j < |segs| && b !in c
    ensures SegOk(c[b := Ck(n, Live)], Fronted(segs, i, b, n), top, j)
  {
    assert SegOk(c, segs, top, j) && SegOk(c, segs, top, i) && Joinable(segs, i, n);
    hide Placed, Ordered, SegsApart, Inside;
  }

  // The new chunk as one used chunk in front of the segment.
  function Front(h: HV, i: nat, b: nat, n: nat): HV
    requires i < |h.segs|
  {
    h.(c := h.c[b := Ck(n, Live)], segs := Fronted(h.segs, i, b, n), size := h.size[b := n], cin := h.cin + {b},
      pin := h.pin + {b})
  }

  lemma FrontOk(h: HV, i: nat, b: nat, n: nat)
    requires HeapOk(h) && Fresh(h.segs, b, n) && i < |h.segs| && b + n == h.segs[i].base
    ensures HeapOk(Front(h, i, b, n)) && OffKept(h, Front(h, i, b, n)) && b !in h.c
  {
    var h' := Front(h, i, b, n);
    hide *;
    HeapGeo(h);
    FrontGeo(h.c, h.segs, h.top, i, b, n);
    FrontRest(h, i, b, n);
    FrontTags(h, i, b, n);
    HeapIs(h');
  }

  lemma FrontTags(h: HV, i: nat, b: nat, n: nat)
    requires HeapOk(h) && i < |h.segs| && b !in h.c
    ensures var h' := Front(h, i, b, n); forall p {:trigger TagOk(h', p)} :: p in h'.c ==> TagOk(h', p)
  {
    hide *;
    forall p | p in Front(h, i, b, n).c ensures TagOk(Front(h, i, b, n), p) { FrontTag(h, i, b, n, p); }
  }

  lemma HeapGeo(h: HV)
    requires HeapOk(h)
    ensures Geo(h.c, h.segs, h.top) && |h.segs| > 0
  {
  }

  lemma FrontTag(h: HV, i: nat, b: nat, n: nat, p: nat)
    requires HeapOk(h) && i < |h.segs| && b !in h.c && p in Front(h, i, b, n).c
    ensures TagOk(Front(h, i, b, n), p)
  {
    if p != b { ChunkTag(h, p); }
    hide HeapOk, Geo, Fronted;
  }

  lemma FrontRest(h: HV, i: nat, b: nat, n: nat)
    requires HeapOk(h) && Fresh(h.segs, b, n) && i < |h.segs| && b + n == h.segs[i].base && b !in h.c
    ensures var h' := Front(h, i, b, n);
            && h'.c == h.c[b := Ck(n, Live)] && h'.segs == Fronted(h.segs, i, b, n) && h'.top == h.top && |h'.segs| > 0
            && (forall j :: 0 <= j < |h'.segs| ==> h'.segs[j].base in h'.pin)
            && h'.segs[0].rec == h'.st + 856 && h'.st in h'.c && h'.c[h'.st].kind == State
            && (h'.dv == 0 <==> h'.dvsize == 0)
               && (h'.dv != 0 ==> SpareAt(h'.c, h'.dv, h'.dvsize) && h'.c[h'.dv].kind == Dv)
            && OffKept(h, h')
  {
    var h' := Front(h, i, b, n);
    hide Geo, TagOk;
    assert !Off(h', b) by { assert h'.segs[i].base == b; }
  }

  // -- A new size for the top segment (append, alloc_trim) -------------------

  function ResizedSegs(segs: seq<Segment>, n: nat): seq<Segment>
    requires |segs| > 0
  {
    segs[0 := Segment(segs[0].base, n, segs[0].rec)]
  }

  function ResizedChunks(c: Chunks, segs: seq<Segment>, top: nat, n: nat): Chunks
    requires |segs| > 0 && top <= segs[0].base + n
  {
    c[top := Ck(segs[0].base + n - top, Top)]
  }

  // The new extent is free of other segments and keeps the padding after top.
  ghost predicate CanResize(segs: seq<Segment>, top: nat, n: nat) {
    && |segs| > 0 && Granular(n) && segs[0].base + n < TWO64 && n < SIZE_LIMIT && n % 8 == 0
       && top + TOP_FOOT_SIZE <= segs[0].base + n
    && forall j {:trigger Clear(segs, j, segs[0].base, n)} :: 1 <= j < |segs| ==> Clear(segs, j, segs[0].base, n)
  }

  lemma ResizePlaced(c: Chunks, segs: seq<Segment>, top: nat, n: nat, p: nat)
    requires Geo(c, segs, top) && CanResize(segs, top, n) && p in ResizedChunks(c, segs, top, n)
    ensures Placed(ResizedChunks(c, segs, top, n), ResizedSegs(segs, n), top, p)
  {
    var c', segs' := ResizedChunks(c, segs, top, n), ResizedSegs(segs, n);
    assert SegOk(c, segs, top, 0);
    assert Placed(c, segs, top, p);
    TopAt(c, segs, top, p);
    var j :| 0 <= j < |segs| && Holds(segs[j], p, c[p].size);
    TopSegment(c, segs, top, p, j);
    assert Placed(c, segs, top, top);
    TopRoom(segs[0].base, n, top);
    hide Geo, SegOk, CanResize, Granular;
    assert Holds(segs'[j], p, c'[p].size);
    if c[p].kind == Tail {
      var k :| 1 <= k < |segs| && TailOf(segs[k], p, c[p].size);
      assert TailOf(segs'[k], p, c[p].size);
    }
  }

  lemma TopRoom(base: nat, n: nat, top: nat)
    requires base % 8 == 0 && n % 8 == 0 && top % 8 == 0 && top <= base + n
    ensures (base + n - top) % 8 == 0
  {
  }

  // A chunk of the top segment is top or lies before it.
  lemma TopSegment(c: Chunks, segs: seq<Segment>, top: nat, p: nat, j: nat)
    requires Geo(c, segs, top) && p in c && j < |segs| && Holds(segs[j], p, c[p].size)
    ensures top in c && segs[0].base <= top && (p == top ==> j == 0) && (j == 0 && p != top ==> p + c[p].size <= top)
  {
    assert SegOk(c, segs, top, 0) && Placed(c, segs, top, top) && Placed(c, segs, top, p);
    assert SegOk(c, segs, top, 0) && Placed(c, segs, top, segs[0].base);
    assert Precedes(c, top, segs[0].base) && Precedes(c, p, top) && Precedes(c, top, p);
    var i :| 0 <= i < |segs| && Holds(segs[i], top, c[top].size);
    assert 0 < i ==> Disjoint(segs[0], segs[i]);
    SameSegment(segs, 0, j, p);
  }

  lemma ResizeOrdered(c: Chunks, segs: seq<Segment>, top: nat, n: nat)
    requires Geo(c, segs, top) && CanResize(segs, top, n)
    ensures Ordered(ResizedChunks(c, segs, top, n))
  {
    var c' := ResizedChunks(c, segs, top, n);
    assert SegOk(c, segs, top, 0);
    forall p, q | p in c' && q in c'
      ensures Precedes(c', p, q)
    {
      assert Precedes(c, p, q);
      if p == top && top < q { PastResized(c, segs, top, n, q); }
    }
  }

  lemma PastResized(c: Chunks, segs: seq<Segment>, top: nat, n: nat, q: nat)
    requires Geo(c, segs, top) && CanResize(segs, top, n) && q in c && top < q
    ensures segs[0].base + n <= q
  {
    assert Placed(c, segs, top, q);
    var j :| 0 <= j < |segs| && Holds(segs[j], q, c[q].size);
    TopSegment(c, segs, top, q, j);
    assert j > 0 ==> Clear(segs, j, segs[0].base, n);
  }

  lemma ResizeSegs(c: Chunks, segs: seq<Segment>, top: nat, n: nat)
    requires Geo(c, segs, top) && CanResize(segs, top, n)
    ensures |ResizedSegs(segs, n)| > 0 && SegsApart(ResizedSegs(segs, n))
    ensures forall j {:trigger SegOk(ResizedChunks(c, segs, top, n), ResizedSegs(segs, n), top, j)} ::
              0 <= j < |ResizedSegs(segs, n)| ==> SegOk(ResizedChunks(c, segs, top, n), ResizedSegs(segs, n), top, j)
  {
    var c', segs' := ResizedChunks(c, segs, top, n), ResizedSegs(segs, n);
    forall j, k | 0 <= j < k < |segs'|
      ensures Disjoint(segs'[j], segs'[k])
    {
      assert Disjoint(segs[j], segs[k]) && (j == 0 ==> Clear(segs, k, segs[0].base, n));
    }
    hide Placed, Ordered;
    forall j | 0 <= j < |segs'|
      ensures SegOk(c', segs', top, j)
    {
      assert SegOk(c, segs, top, j) && SegOk(c, segs, top, 0);
    }
  }

  lemma ResizeGeo(c: Chunks, segs: seq<Segment>, top: nat, n: nat)
    requires Geo(c, segs, top) && CanResize(segs, top, n)
    ensures Geo(ResizedChunks(c, segs, top, n), ResizedSegs(segs, n), top)
  {
    var c', segs' := ResizedChunks(c, segs, top, n), ResizedSegs(segs, n);
    hide *;
    ResizeOrdered(c, segs, top, n);
    ResizeSegs(c, segs, top, n);
    forall p | p in c' ensures Placed(c', segs', top, p) { ResizePlaced(c, segs, top, n, p); }
    GeoIs(c', segs', top);
  }

  function Resize(h: HV, n: nat): HV
    requires |h.segs| > 0 && h.top + TOP_FOOT_SIZE <= h.segs[0].base + n
  {
    var room := h.segs[0].base + n - h.top - TOP_FOOT_SIZE;
    h.(c := ResizedChunks(h.c, h.segs, h.top, n), segs := ResizedSegs(h.segs, n), size := h.size[h.top := room],
       pin := h.pin + {h.top}, topsize := room)
  }

  lemma ResizeOk(h: HV, n: nat)
    requires HeapOk(h) && CanResize(h.segs, h.top, n)
    ensures HeapOk(Resize(h, n)) && OffKept(h, Resize(h, n))
  {
    var h' := Resize(h, n);
    hide *;
    HeapGeo(h);
    ResizeGeo(h.c, h.segs, h.top, n);
    ResizeRest(h, n);
    ResizeTags(h, n);
    ResizeOff(h, n);
    HeapIs(h');
  }

  lemma ResizeTags(h: HV, n: nat)
    requires HeapOk(h) && CanResize(h.segs, h.top, n)
    ensures forall p {:trigger TagOk(Resize(h, n), p)} :: p in Resize(h, n).c ==> TagOk(Resize(h, n), p)
  {
    var h' := Resize(h, n);
    hide *;
    forall p | p in h'.c ensures TagOk(h', p) { ResizeTag(h, n, p); }
  }

  lemma ResizeTag(h: HV, n: nat, p: nat)
    requires HeapOk(h) && CanResize(h.segs, h.top, n) && p in Resize(h, n).c
    ensures TagOk(Resize(h, n), p)
  {
    assert SegOk(h.c, h.segs, h.top, 0);
    ChunkOn(h, h.top);
    assert TagOk(h, h.top) && TagOk(h, p);
    TopAt(h.c, h.segs, h.top, p);
    if Spare(h.c[p].kind) { TopAt(h.c, h.segs, h.top, p + h.c[p].size); }
    hide Geo;
  }

  lemma ResizeRest(h: HV, n: nat)
    requires HeapOk(h) && CanResize(h.segs, h.top, n)
    ensures var h' := Resize(h, n);
            && h'.c == ResizedChunks(h.c, h.segs, h.top, n) && h'.segs == ResizedSegs(h.segs, n) && h'.top == h.top
               && |h'.segs| > 0
            && (forall i :: 0 <= i < |h'.segs| ==> h'.segs[i].base in h'.pin)
            && h'.segs[0].rec == h'.st + 856 && h'.st in h'.c && h'.c[h'.st].kind == State
            && (h'.dv == 0 <==> h'.dvsize == 0)
               && (h'.dv != 0 ==> SpareAt(h'.c, h'.dv, h'.dvsize) && h'.c[h'.dv].kind == Dv)
  {
    assert SegOk(h.c, h.segs, h.top, 0);
    TopAt(h.c, h.segs, h.top, h.st);
    if h.dv != 0 { TopAt(h.c, h.segs, h.top, h.dv); }
    hide Geo, TagOk;
  }

  lemma ResizeOff(h: HV, n: nat)
    requires HeapOk(h) && CanResize(h.segs, h.top, n)
    ensures OffKept(h, Resize(h, n))
  {
    assert SegOk(h.c, h.segs, h.top, 0);
    ChunkOn(h, h.top);
    hide HeapOk;
  }

  // -- A new segment (add_segment) -------------------------------------------

  // Where the old top segment's record goes: room bytes of top are left before it.
  function RecordAt(top: nat, room: nat): nat { if room < MIN_CHUNK_SIZE then top else top + room }

  function AddedSegs(segs: seq<Segment>, b: nat, n: nat, state: nat, at: nat): seq<Segment>
    requires |segs| > 0
  {
    [Segment(b, n, state), Segment(segs[0].base, segs[0].size, at + 16)] + segs[1..]
  }

  function AddedChunks(c: Chunks, top: nat, room: nat, b: nat, n: nat): Chunks {
    var cut := if room < MIN_CHUNK_SIZE then c[top := Ck(room + TOP_FOOT_SIZE, Tail)]
               else c[top := Ck(room, Bin)][top + room := Ck(TOP_FOOT_SIZE, Tail)];
    cut[b := Ck(n, Top)]
  }

  ghost predicate CanAdd(c: Chunks, segs: seq<Segment>, top: nat, room: nat, b: nat, n: nat) {
    && Geo(c, segs, top) && Fresh(segs, b, n) && top in c && c[top].size == room + TOP_FOOT_SIZE
  }

  lemma AddPlaced(c: Chunks, segs: seq<Segment>, top: nat, room: nat, b: nat, n: nat, state: nat, p: nat)
    requires CanAdd(c, segs, top, room, b, n) && p in AddedChunks(c, top, room, b, n)
    ensures Placed(AddedChunks(c, top, room, b, n), AddedSegs(segs, b, n, state, RecordAt(top, room)), b, p)
  {
    hide SegsApart, Ordered, Granular;
    Eight(n);
    var c', segs' := AddedChunks(c, top, room, b, n), AddedSegs(segs, b, n, state, RecordAt(top, room));
    assert SegOk(c, segs, top, 0) && Placed(c, segs, top, top);
    TopInside(c, segs, top);
    OutsideFresh(c, segs, top, b, n, top);
    if p == b {
      assert Holds(segs'[0], b, n);
    } else if top <= p < top + room + TOP_FOOT_SIZE {
      AddInTop(c, segs, top, room, b, n, p);
      assert Holds(segs'[1], p, c'[p].size);
      assert c'[p].kind == Tail ==> TailOf(segs'[1], p, c'[p].size);
    } else {
      AddOther(c, segs, top, room, b, n, state, p);
    }
  }

  lemma AddInTop(c: Chunks, segs: seq<Segment>, top: nat, room: nat, b: nat, n: nat, p: nat)
    requires CanAdd(c, segs, top, room, b, n) && p in AddedChunks(c, top, room, b, n)
             && top <= p < top + room + TOP_FOOT_SIZE
    ensures p == top || p == top + room
    ensures room < MIN_CHUNK_SIZE ==> p == top
  {
    assert p in c ==> Precedes(c, top, p);
    OutsideFresh(c, segs, top, b, n, top);
  }

  lemma TopInside(c: Chunks, segs: seq<Segment>, top: nat)
    requires Geo(c, segs, top)
    ensures |segs| > 0 && top in c && segs[0].base <= top && top + c[top].size == End(segs[0])
  {
    assert SegOk(c, segs, top, 0) && Placed(c, segs, top, top) && Placed(c, segs, top, segs[0].base);
    assert Precedes(c, top, segs[0].base);
    var i :| 0 <= i < |segs| && Holds(segs[i], top, c[top].size);
    assert 0 < i ==> Disjoint(segs[0], segs[i]);
  }

  // Chunks elsewhere do not notice.
  lemma AddOther(c: Chunks, segs: seq<Segment>, top: nat, room: nat, b: nat, n: nat, state: nat, p: nat)
    requires CanAdd(c, segs, top, room, b, n) && p in AddedChunks(c, top, room, b, n) && p != b
             && !(top <= p < top + room + TOP_FOOT_SIZE)
    ensures p in c && AddedChunks(c, top, room, b, n)[p] == c[p] && c[p].kind != Top
    ensures Placed(AddedChunks(c, top, room, b, n), AddedSegs(segs, b, n, state, RecordAt(top, room)), b, p)
  {
    hide SegsApart, Ordered, Granular;
    var segs' := AddedSegs(segs, b, n, state, RecordAt(top, room));
    assert Placed(c, segs, top, p);
    TopAt(c, segs, top, p);
    var j :| 0 <= j < |segs| && Holds(segs[j], p, c[p].size);
    assert Holds(segs'[j + 1], p, c[p].size);
    if c[p].kind == Tail {
      var k :| 1 <= k < |segs| && TailOf(segs[k], p, c[p].size);
      assert segs'[k + 1] == segs[k];
    }
  }

  lemma AddOrdered(c: Chunks, segs: seq<Segment>, top: nat, room: nat, b: nat, n: nat)
    requires CanAdd(c, segs, top, room, b, n)
    ensures b !in c && Ordered(AddedChunks(c, top, room, b, n))
  {
    var c' := AddedChunks(c, top, room, b, n);
    if b in c { OutsideFresh(c, segs, top, b, n, b); }
    OutsideFresh(c, segs, top, b, n, top);
    hide Placed, SegOk, Inside;
    forall p, q | p in c' && q in c'
      ensures Precedes(c', p, q)
    {
      if p in c { OutsideFresh(c, segs, top, b, n, p); }
      if q in c { OutsideFresh(c, segs, top, b, n, q); }
      assert p in c && q in c ==> Precedes(c, p, q);
      assert p in c ==> Precedes(c, p, top) && Precedes(c, top, p);
      assert q in c ==> Precedes(c, top, q);
    }
  }

  lemma AddSegs(c: Chunks, segs: seq<Segment>, top: nat, room: nat, b: nat, n: nat, state: nat)
    requires CanAdd(c, segs, top, room, b, n)
    ensures var c', segs' := AddedChunks(c, top, room, b, n), AddedSegs(segs, b, n, state, RecordAt(top, room));
            |segs'| > 0 && SegsApart(segs') && forall j {:trigger SegOk(c', segs', b, j)} ::
              0 <= j < |segs'| ==> SegOk(c', segs', b, j)
  {
    var c', segs' := AddedChunks(c, top, room, b, n), AddedSegs(segs, b, n, state, RecordAt(top, room));
    forall j, k | 0 <= j < k < |segs'|
      ensures Disjoint(segs'[j], segs'[k])
    {
      assert Clear(segs, k - 1, b, n);
      assert j > 0 ==> Disjoint(segs[j - 1], segs[k - 1]);
    }
    forall j | 0 <= j < |segs'| ensures SegOk(c', segs', b, j) { AddSeg(c, segs, top, room, b, n, state, j); }
  }

  lemma AddSeg(c: Chunks, segs: seq<Segment>, top: nat, room: nat, b: nat, n: nat, state: nat, j: nat)
    requires CanAdd(c, segs, top, room, b, n) && j <= |segs|
    ensures var c', segs' := AddedChunks(c, top, room, b, n), AddedSegs(segs, b, n, state, RecordAt(top, room));
            SegOk(c', segs', b, j)
  {
    var segs' := AddedSegs(segs, b, n, state, RecordAt(top, room));
    TopInside(c, segs, top);
    AddOrdered(c, segs, top, room, b, n);
    var c' := AddedChunks(c, top, room, b, n);
    OutsideFresh(c, segs, top, b, n, top);
    if j == 1 {
      assert SegOk(c, segs, top, 0);
      OutsideFresh(c, segs, top, b, n, segs[0].base);
    } else if j > 1 {
      assert SegOk(c, segs, top, j - 1) && segs'[j] == segs[j - 1];
      KeptInAdd(c, segs, top, room, b, n, segs[j - 1].base);
      KeptInAdd(c, segs, top, room, b, n, segs[j - 1].rec - 16);
      TopAt(c, segs, top, segs[j - 1].rec - 16);
    }
    hide Placed, Ordered, SegsApart, Inside;
  }

  lemma KeptInAdd(c: Chunks, segs: seq<Segment>, top: nat, room: nat, b: nat, n: nat, p: nat)
    requires CanAdd(c, segs, top, room, b, n) && p in c
    ensures p in AddedChunks(c, top, room, b, n) && (p != top ==> AddedChunks(c, top, room, b, n)[p] == c[p])
  {
    OutsideFresh(c, segs, top, b, n, p);
    assert Precedes(c, top, p);
  }

  lemma AddGeo(c: Chunks, segs: seq<Segment>, top: nat, room: nat, b: nat, n: nat, state: nat)
    requires CanAdd(c, segs, top, room, b, n)
    ensures |segs| > 0 && Geo(AddedChunks(c, top, room, b, n), AddedSegs(segs, b, n, state, RecordAt(top, room)), b)
  {
    TopInside(c, segs, top);
    var c', segs' := AddedChunks(c, top, room, b, n), AddedSegs(segs, b, n, state, RecordAt(top, room));
    hide *;
    AddOrdered(c, segs, top, room, b, n);
    AddSegs(c, segs, top, room, b, n, state);
    forall p | p in c' ensures Placed(c', segs', b, p) { AddPlaced(c, segs, top, room, b, n, state, p); }
    GeoIs(c', segs', b);
  }

  // What add_segment leaves in the tags; fenceposts may have any address in the tail.
  ghost predicate Added(h: HV, h': HV, b: nat, n: nat) {
    && |h.segs| > 0 && n >= TOP_FOOT_SIZE
    && h'.c == AddedChunks(h.c, h.top, h.topsize, b, n)
    && h'.segs == AddedSegs(h.segs, b, n, h.st + 856, RecordAt(h.top, h.topsize))
    && h'.top == b && h'.topsize == n - TOP_FOOT_SIZE && h'.dv == h.dv && h'.dvsize == h.dvsize && h'.st == h.st
    && (forall p {:trigger SameTag(h, h', p)} :: p in h.c && p != h.top ==> SameTag(h, h', p))
    && At(h'.size, b) == n - TOP_FOOT_SIZE && b !in h'.cin && b in h'.pin
    && h.top in h'.pin && At(h'.foot, h.top) == At(h.foot, h.top)
    && (if h.topsize < MIN_CHUNK_SIZE then At(h'.size, h.top) == 32 && h.top in h'.cin
        else
          var at := h.top + h.topsize;
          && At(h'.size, h.top) == h.topsize && h.top !in h'.cin
          && At(h'.size, at) == 32 && at in h'.cin && at !in h'.pin && At(h'.foot, at) == h.topsize)
  }

  lemma AddTag(h: HV, h': HV, b: nat, n: nat, p: nat)
    requires HeapOk(h) && CanAdd(h.c, h.segs, h.top, h.topsize, b, n) && Added(h, h', b, n) && p in h'.c
    ensures TagOk(h', p)
  {
    TopInside(h.c, h.segs, h.top);
    OutsideFresh(h.c, h.segs, h.top, b, n, h.top);
    if p == b {
    } else if h.top <= p < h.top + h.topsize + TOP_FOOT_SIZE {
      AddInTop(h.c, h.segs, h.top, h.topsize, b, n, p);
    } else {
      AddOther(h.c, h.segs, h.top, h.topsize, b, n, h.st + 856, p);
      AddKeptTag(h, h', b, n, p);
    }
  }

  lemma AddKeptTag(h: HV, h': HV, b: nat, n: nat, p: nat)
    requires HeapOk(h) && CanAdd(h.c, h.segs, h.top, h.topsize, b, n) && Added(h, h', b, n)
    requires p in h.c && p in h'.c && h'.c[p] == h.c[p] && p != h.top
    ensures TagOk(h', p)
  {
    assert TagOk(h, p) && TagOk(h, h.top) && SameTag(h, h', p);
    TopAt(h.c, h.segs, h.top, p);
    TopAt(h.c, h.segs, h.top, h.top);
    var q, r := p + h.c[p].size, p - At(h.foot, p);
    if Spare(h.c[p].kind) { KeptInAdd(h.c, h.segs, h.top, h.topsize, b, n, q); }
    if r in h.c { KeptInAdd(h.c, h.segs, h.top, h.topsize, b, n, r); }
    hide Geo, HeapOk, CanAdd, AddedChunks, AddedSegs;
    assert q in h.c && q != h.top ==> SameTag(h, h', q);
  }

  lemma AddOk(h: HV, h': HV, b: nat, n: nat)
    requires HeapOk(h) && CanAdd(h.c, h.segs, h.top, h.topsize, b, n) && Added(h, h', b, n)
    ensures HeapOk(h')
  {
    hide *;
    AddGeo(h.c, h.segs, h.top, h.topsize, b, n, h.st + 856);
    AddTags(h, h', b, n);
    AddFixed(h, h', b, n);
    HeapIs(h');
  }

  lemma AddTags(h: HV, h': HV, b: nat, n: nat)
    requires HeapOk(h) && CanAdd(h.c, h.segs, h.top, h.topsize, b, n) && Added(h, h', b, n)
    ensures forall p {:trigger TagOk(h', p)} :: p in h'.c ==> TagOk(h', p)
  {
    hide *;
    forall p | p in h'.c ensures TagOk(h', p) { AddTag(h, h', b, n, p); }
  }

  lemma AddFixed(h: HV, h': HV, b: nat, n: nat)
    requires HeapOk(h) && CanAdd(h.c, h.segs, h.top, h.topsize, b, n) && Added(h, h', b, n)
    ensures h'.c == AddedChunks(h.c, h.top, h.topsize, b, n) && h'.top == b
    ensures h'.segs == AddedSegs(h.segs, b, n, h.st + 856, RecordAt(h.top, h.topsize)) && |h'.segs| > 0
    ensures h'.segs[0].rec == h'.st + 856 && h'.st in h'.c && h'.c[h'.st].kind == State
    ensures (h'.dv == 0 <==> h'.dvsize == 0) && (h'.dv != 0 ==> SpareAt(h'.c, h'.dv, h'.dvsize)
                                                                && h'.c[h'.dv].kind == Dv)
    ensures forall i :: 0 <= i < |h'.segs| ==> h'.segs[i].base in h'.pin
  {
    TopAt(h.c, h.segs, h.top, h.st);
    KeptInAdd(h.c, h.segs, h.top, h.topsize, b, n, h.st);
    if h.dv != 0 {
      TopAt(h.c, h.segs, h.top, h.dv);
      KeptInAdd(h.c, h.segs, h.top, h.topsize, b, n, h.dv);
    }
    forall i | 0 <= i < |h'.segs|
      ensures h'.segs[i].base in h'.pin
    {
      if i > 0 {
        assert SegOk(h.c, h.segs, h.top, i - 1) && h'.segs[i].base == h.segs[i - 1].base;
        assert h.segs[i - 1].base != h.top ==> SameTag(h, h', h.segs[i - 1].base);
      }
    }
  }

  // -- Releasing a segment (release_unused_segments) -------------------------

  // A segment that is one free chunk and the tail.
  ghost predicate CanRelease(h: HV, i: nat) { HeapOk(h) && 1 <= i < |h.segs| && Idle(h.c, h.segs[i]) }

  // Nothing but a free chunk and the record of the segment.
  predicate Idle(c: Chunks, s: Segment) {
    s.base in c && Spare(c[s.base].kind) && s.base + c[s.base].size >= End(s) - TOP_FOOT_SIZE
  }

  function Release(h: HV, i: nat): HV
    requires 1 <= i < |h.segs|
  {
    var p, r := h.segs[i].base, if h.segs[i].rec >= 16 then h.segs[i].rec - 16 else 0;
    var h' := h.(c := h.c - {p, r}, segs := h.segs[..i] + h.segs[i + 1..]);
    if p == h.dv then h'.(dv := 0, dvsize := 0) else h'
  }

  // The free chunk is followed by the tail.
  lemma ReleaseShape(h: HV, i: nat)
    requires CanRelease(h, i)
    ensures var p, r := h.segs[i].base, h.segs[i].rec - 16;
            && r > p && r in h.c && h.c[r].kind == Tail && p + h.c[p].size == r && r + h.c[r].size == End(h.segs[i])
    ensures h.c[h.segs[i].base].size >= 256
  {
    var p, r := h.segs[i].base, h.segs[i].rec - 16;
    assert SegOk(h.c, h.segs, h.top, i) && Placed(h.c, h.segs, h.top, p) && Placed(h.c, h.segs, h.top, r);
    NextChunk(h.c, h.segs, h.top, p);
    var q := p + h.c[p].size;
    assert Placed(h.c, h.segs, h.top, q);
    var j :| 0 <= j < |h.segs| && Holds(h.segs[j], p, h.c[p].size + h.c[q].size);
    SameSegment(h.segs, i, j, p);
    assert Precedes(h.c, q, r) && Precedes(h.c, r, q);
  }

  predicate SameStart(c: Chunks, c': Chunks, s: Segment) {
    (s.base in c <==> s.base in c') && (s.base in c ==> c[s.base] == c'[s.base])
  }

  // Releasing a segment leaves the first chunks of all others.
  lemma ReleaseStarts(h: HV, i: nat, k: nat)
    requires CanRelease(h, i) && k < |h.segs| && k != i
    ensures SameStart(h.c, Release(h, i).c, h.segs[k])
  {
    ReleaseShape(h, i);
    assert SegOk(h.c, h.segs, h.top, k) && SegOk(h.c, h.segs, h.top, i);
    HeapGeo(h);
    GeoParts(h.c, h.segs, h.top);
    SameSegment(h.segs, i, k, h.segs[k].base);
    assert Placed(h.c, h.segs, h.top, h.segs[i].rec - 16);
    hide HeapOk, Geo;
  }

  ghost predicate OthersStart(h: HV, h': HV, i: nat) {
    forall k: nat :: k < |h.segs| && k != i ==> SameStart(h.c, h'.c, h.segs[k])
  }

  lemma OthersRemain(h: HV, i: nat)
    requires CanRelease(h, i)
    ensures OthersStart(h, Release(h, i), i)
  {
    forall k: nat | k < |h.segs| && k != i
      ensures SameStart(h.c, Release(h, i).c, h.segs[k])
    {
      ReleaseStarts(h, i, k);
    }
  }

  // None of the segments from 1 to i is idle.
  ghost predicate NoneIdle(c: Chunks, segs: seq<Segment>, i: nat) {
    forall k: nat :: 1 <= k < i && k < |segs| ==> !Idle(c, segs[k])
  }

  lemma NoneIdleLess(h: HV, h': HV, i: nat)
    requires NoneIdle(h.c, h.segs, i) && OthersStart(h, h', i) && i < |h.segs|
    requires h'.segs == h.segs[..i] + h.segs[i + 1..]
    ensures NoneIdle(h'.c, h'.segs, i)
  {
    forall k: nat | 1 <= k < i && k < |h'.segs|
      ensures !Idle(h'.c, h'.segs[k])
    {
      assert SameStart(h.c, h'.c, h.segs[k]) && h'.segs[k] == h.segs[k];
    }
  }

  lemma NoneIdleYet(c: Chunks, segs: seq<Segment>)
    ensures NoneIdle(c, segs, 1)
  {
  }

  lemma NoneIdleMore(c: Chunks, segs: seq<Segment>, i: nat)
    requires NoneIdle(c, segs, i) && i < |segs| && !Idle(c, segs[i])
    ensures NoneIdle(c, segs, i + 1)
  {
  }

  lemma NoneIdleAll(c: Chunks, segs: seq<Segment>, i: nat)
    requires NoneIdle(c, segs, i) && i >= |segs|
    ensures NoneIdle(c, segs, |segs|)
  {
  }

  // Every other chunk lies in another segment.
  lemma ReleaseOther(h: HV, i: nat, q: nat)
    requires CanRelease(h, i) && q in h.c && q != h.segs[i].base && q != h.segs[i].rec - 16
    ensures exists j :: 0 <= j < |h.segs| && j != i && Holds(h.segs[j], q, h.c[q].size)
    ensures q + h.c[q].size != h.segs[i].rec - 16
    ensures q + h.c[q].size == h.segs[i].base ==> Last(h.c[q].kind)
  {
    var p, r := h.segs[i].base, h.segs[i].rec - 16;
    ReleaseShape(h, i);
    assert Placed(h.c, h.segs, h.top, q) && Placed(h.c, h.segs, h.top, p);
    var j :| 0 <= j < |h.segs| && Holds(h.segs[j], q, h.c[q].size);
    assert Precedes(h.c, p, q) && Precedes(h.c, q, p) && Precedes(h.c, r, q) && Precedes(h.c, q, r);
    if !Last(h.c[q].kind) {
      NextChunk(h.c, h.segs, h.top, q);
      var k :| 0 <= k < |h.segs| && Holds(h.segs[k], q, h.c[q].size + h.c[q + h.c[q].size].size);
      SameSegment(h.segs, i, k, p);
    }
  }

  lemma ReleasePlaced(h: HV, i: nat, q: nat)
    requires CanRelease(h, i) && q in Release(h, i).c
    ensures |Release(h, i).segs| > 0 && Placed(Release(h, i).c, Release(h, i).segs, h.top, q)
  {
    assert Placed(h.c, h.segs, h.top, q);
    ReleaseShape(h, i);
    ReleaseOther(h, i, q);
    ReleaseInside(h, i, q);
    hide HeapOk, CanRelease, Inside, HasTail;
  }

  lemma ReleaseInside(h: HV, i: nat, q: nat)
    requires CanRelease(h, i) && q in Release(h, i).c
    ensures var segs' := Release(h, i).segs;
            |segs'| > 0 && Inside(segs', q, h.c[q].size) && (h.c[q].kind == Tail ==> HasTail(segs', q, h.c[q].size))
              && segs'[0] == h.segs[0]
  {
    ReleaseOther(h, i, q);
    var j :| 0 <= j < |h.segs| && j != i && Holds(h.segs[j], q, h.c[q].size);
    WithoutInside(h.segs, i, j, q, h.c[q].size);
    ReleaseShape(h, i);
    assert Placed(h.c, h.segs, h.top, q);
    hide HeapOk, Inside;
    if h.c[q].kind == Tail {
      var k :| 1 <= k < |h.segs| && TailOf(h.segs[k], q, h.c[q].size);
      WithoutTail(h.segs, i, k, q, h.c[q].size);
    }
  }

  lemma WithoutInside(segs: seq<Segment>, i: nat, j: nat, p: nat, n: nat)
    requires i < |segs| && j < |segs| && j != i && Holds(segs[j], p, n)
    ensures Inside(segs[..i] + segs[i + 1..], p, n)
  {
    var segs' := segs[..i] + segs[i + 1..];
    assert segs'[if j < i then j else j - 1] == segs[j];
  }

  lemma WithoutTail(segs: seq<Segment>, i: nat, k: nat, p: nat, n: nat)
    requires 1 <= i < |segs| && 1 <= k < |segs| && k != i && TailOf(segs[k], p, n)
    ensures HasTail(segs[..i] + segs[i + 1..], p, n)
  {
    var segs' := segs[..i] + segs[i + 1..];
    assert segs'[if k < i then k else k - 1] == segs[k];
  }

  lemma ReleaseSegs(h: HV, i: nat)
    requires CanRelease(h, i)
    ensures var h' := Release(h, i);
            && |h'.segs| > 0 && SegsApart(h'.segs) && Ordered(h'.c)
            && forall j {:trigger SegOk(h'.c, h'.segs, h.top, j)} :: 0 <= j < |h'.segs|
                                                                     ==> SegOk(h'.c, h'.segs, h.top, j)
  {
    var h' := Release(h, i);
    ReleaseShape(h, i);
    forall j, k | 0 <= j < k < |h'.segs|
      ensures Disjoint(h'.segs[j], h'.segs[k])
    {
      assert Disjoint(h.segs[if j < i then j else j + 1], h.segs[if k < i then k else k + 1]);
    }
    forall q, r | q in h'.c && r in h'.c ensures Precedes(h'.c, q, r) { assert Precedes(h.c, q, r); }
    forall j | 0 <= j < |h'.segs| ensures SegOk(h'.c, h'.segs, h.top, j) { ReleaseSeg(h, i, j); }
  }

  lemma ReleaseSeg(h: HV, i: nat, j: nat)
    requires CanRelease(h, i) && j < |Release(h, i).segs|
    ensures SegOk(Release(h, i).c, Release(h, i).segs, h.top, j)
  {
    var k := if j < i then j else j + 1;
    ReleaseShape(h, i);
    assert SegOk(h.c, h.segs, h.top, k) && SegOk(h.c, h.segs, h.top, i);
    TopAt(h.c, h.segs, h.top, h.segs[i].base);
    TopAt(h.c, h.segs, h.top, h.segs[i].rec - 16);
    LastChunk(h.c, h.segs, h.top, k);
    LastChunk(h.c, h.segs, h.top, i);
    var h' := Release(h, i);
    assert h'.segs[j] == h.segs[k];
    assert h.segs[k].base in h'.c;
    assert k == 0 ==> h.top in h'.c;
    assert k > 0 ==> h.segs[k].rec - 16 in h'.c;
    assert i < k ==> Disjoint(h.segs[i], h.segs[k]);
    assert k < i ==> Disjoint(h.segs[k], h.segs[i]);
    hide Placed, Ordered, SegsApart, TagOk;
  }

  lemma ReleaseTag(h: HV, i: nat, q: nat)
    requires CanRelease(h, i) && q in Release(h, i).c
    ensures TagOk(Release(h, i), q)
  {
    ReleaseShape(h, i);
    ReleaseOther(h, i, q);
    var p := h.segs[i].base;
    assert TagOk(h, q) && TagOk(h, p);
    hide Geo;
  }

  lemma ReleaseFixed(h: HV, i: nat)
    requires CanRelease(h, i)
    ensures var h' := Release(h, i);
            && h'.st in h'.c && h'.c[h'.st].kind == State && |h'.segs| > 0 && h'.segs[0] == h.segs[0]
            && (h'.dv == 0 <==> h'.dvsize == 0)
               && (h'.dv != 0 ==> SpareAt(h'.c, h'.dv, h'.dvsize) && h'.c[h'.dv].kind == Dv)
            && (forall j :: 0 <= j < |h'.segs| ==> h'.segs[j].base in h'.pin)
  {
    ReleaseShape(h, i);
    hide Geo, TagOk;
  }

  lemma ReleaseOk(h: HV, i: nat)
    requires CanRelease(h, i)
    ensures HeapOk(Release(h, i))
  {
    var h' := Release(h, i);
    hide *;
    ReleaseSegs(h, i);
    ReleaseFixed(h, i);
    forall q | q in h'.c ensures Placed(h'.c, h'.segs, h.top, q) { ReleasePlaced(h, i, q); }
    GeoIs(h'.c, h'.segs, h.top);
    forall q | q in h'.c ensures TagOk(h', q) { ReleaseTag(h, i, q); }
    ReleaseParts(h, i);
    HeapIs(h');
  }

  lemma ReleaseParts(h: HV, i: nat)
    requires CanRelease(h, i)
    ensures Release(h, i).top == h.top && |h.segs| > 0 && Release(h, i).st == h.st && h.segs[0].rec == h.st + 856
  {
  }

  lemma HeapIs(h: HV)
    requires Geo(h.c, h.segs, h.top) && |h.segs| > 0
    requires forall p {:trigger TagOk(h, p)} :: p in h.c ==> TagOk(h, p)
    requires forall i :: 0 <= i < |h.segs| ==> h.segs[i].base in h.pin
    requires h.segs[0].rec == h.st + 856 && h.st in h.c && h.c[h.st].kind == State
    requires (h.dv == 0 <==> h.dvsize == 0) && (h.dv != 0 ==> SpareAt(h.c, h.dv, h.dvsize) && h.c[h.dv].kind == Dv)
    ensures HeapOk(h)
  {
  }
}
