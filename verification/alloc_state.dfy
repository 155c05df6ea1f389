// The allocator of src/lj_alloc.c at work: malloc_state, the heads and feet of
// its chunks, and the operations that take chunks apart and put them together.
module AllocState {
  import opened AllocRing
  import opened AllocBits
  import opened AllocTree
  import opened AllocBins
  import opened AllocLinks
  import opened AllocChunks
  import opened AllocTags
  import opened AllocSegs
  import opened AllocHeap
  import opened AllocUse
  import opened AllocMerge
  import opened AllocGrow
  import opened AllocResize
  import AllocFit

  class Mstate {
    const bins: Bins
    const st: nat
    var size: Links
    var cin: set<nat>
    var pin: set<nat>
    var foot: Links
    var segs: seq<Segment>
    var top: nat
    var topsize: nat
    var dv: nat
    var dvsize: nat
    var trimCheck: nat
    var releaseChecks: nat
    var data: Links        // the bytes users have written
    ghost var chunks: Chunks
    ghost var refused: seq<nat>   // the sizes the system would not map, in order
    var direct: Direct     // what the system has mapped for single chunks

    ghost function H(): HV
      reads this
    {
      HV(chunks, size, cin, pin, foot, segs, top, topsize, dv, dvsize, st)
    }

    // All is well, except that the chunks in out are in no bin although of kind Bin.
    ghost predicate Sound(out: set<nat>)
      reads this, bins
    {
      bins.base == st + 16 && GoodBut(H(), bins.V(), direct, out)
    }

    ghost predicate Valid()
      reads this, bins
    {
      Sound({}) && releaseChecks > 0
    }

    lemma Counts(out: set<nat>)
      requires Sound(out)
      ensures |bins.small| == NSMALLBINS && |bins.trees| == |bins.treebins| == NTREEBINS && bins.Valid(size)
              && HeapOk(H()) && DirectOk(H(), direct)
      ensures bins.base == st + 16
      ensures forall x: nat :: bins.Has(size, x) <==> BinAt(chunks, x) && x !in out
    {
      GoodParts(H(), bins.V(), direct, out);
      hide BinsOk, HeapOk, DirectOk, Binned;
      forall x: nat
        ensures bins.Has(size, x) <==> BinAt(chunks, x) && x !in out
      {
        assert Binned(bins.V(), size, x) <==> BinAt(chunks, x) && x !in out;
      }
    }

    // lj_alloc_create on a region mapped at b: a chunk for malloc_state, then top.
    constructor (b: nat)
      requires CanCreate(b)
      ensures Valid() && fresh(bins) && direct == map[] && refused == [] && forall a: nat :: Cap(chunks, direct, a) == 0
    {
      st := b;
      bins := new Bins(b + 16, map[]);
      size := map[b := STATE_CHUNK, b + STATE_CHUNK := FIRST_TOP, b + STATE_CHUNK + FIRST_TOP := TOP_FOOT_SIZE];
      cin, pin := {b}, {b, b + STATE_CHUNK};
      foot := map[];
      segs := [Segment(b, DEFAULT_GRANULARITY, b + 856)];
      top, topsize := b + STATE_CHUNK, FIRST_TOP;
      dv, dvsize := 0, 0;
      trimCheck, releaseChecks := DEFAULT_TRIM_THRESHOLD, MAX_RELEASE_CHECK_RATE;
      chunks := map[b := Ck(STATE_CHUNK, State), b + STATE_CHUNK := Ck(DEFAULT_GRANULARITY - STATE_CHUNK, Top)];
      direct := map[];
      data := map[];
      refused := [];
      new;
      ghost var none: Links := map[];
      forall x: nat ensures !Binned(bins.V(), none, x) { assert !bins.Has(none, x); }
      CreatedGood(H(), bins.V());
    }

    // Being sound, from and to views.
    lemma ToView(out: set<nat>)
      requires Sound(out)
      ensures bins.base == H().st + 16 && GoodBut(H(), bins.V(), direct, out)
    {
    }

    lemma FromView(h: HV, out: set<nat>)
      requires H() == h && bins.base == h.st + 16 && GoodBut(h, bins.V(), direct, out)
      ensures Sound(out) && chunks == h.c
    {
    }

    method SetDv(p: nat, n: nat)
      modifies `dv, `dvsize
      ensures H() == old(H()).(dv := p, dvsize := n)
    {
      dvsize := n;
      dv := p;
    }

    // -- Heads and feet --------------------------------------------------------

    // set_inuse
    method SetInuse(p: nat, s: nat)
      modifies `size, `cin, `pin
      ensures size == old(size)[p := s] && cin == old(cin) + {p} && pin == old(pin) + {p + s}
    {
      size := size[p := s];
      cin := cin + {p};
      pin := pin + {p + s};
    }

    // set_inuse_and_pinuse
    method SetInuseAndPinuse(p: nat, s: nat)
      modifies `size, `cin, `pin
      ensures size == old(size)[p := s] && cin == old(cin) + {p} && pin == old(pin) + {p, p + s}
    {
      size := size[p := s];
      cin, pin := cin + {p}, pin + {p};
      pin := pin + {p + s};
    }

    // set_size_and_pinuse_of_inuse_chunk
    method SetSizeInuse(p: nat, s: nat)
      modifies `size, `cin, `pin
      ensures size == old(size)[p := s] && cin == old(cin) + {p} && pin == old(pin) + {p}
    {
      size := size[p := s];
      cin, pin := cin + {p}, pin + {p};
    }

    // set_size_and_pinuse_of_free_chunk
    method SetFree(p: nat, s: nat)
      modifies `size, `cin, `pin, `foot
      ensures size == old(size)[p := s] && cin == old(cin) - {p} && pin == old(pin) + {p}
              && foot == old(foot)[p + s := s]
    {
      size := size[p := s];
      cin, pin := cin - {p}, pin + {p};
      foot := foot[p + s := s];
    }

    // set_free_with_pinuse
    method SetFreeWithPinuse(p: nat, s: nat, n: nat)
      modifies `size, `cin, `pin, `foot
      ensures size == old(size)[p := s] && cin == old(cin) - {p} && pin == old(pin) - {n} + {p}
              && foot == old(foot)[p + s := s]
    {
      pin := pin - {n};
      SetFree(p, s);
    }

    // head = s | PINUSE_BIT
    method SetTopHead(p: nat, s: nat)
      modifies `size, `cin, `pin
      ensures size == old(size)[p := s] && cin == old(cin) - {p} && pin == old(pin) + {p}
    {
      size := size[p := s];
      cin, pin := cin - {p}, pin + {p};
    }

    method SplitHeads(p: nat, nb: nat, rest: nat)
      modifies `size, `cin, `pin, `foot
      ensures size == old(size)[p := nb][p + nb := rest] && cin == old(cin) + {p} - {p + nb}
      ensures pin == old(pin) + {p} + {p + nb} && foot == old(foot)[p + nb + rest := rest]
    {
      var r := p + nb;
      SetSizeInuse(p, nb);
      SetFree(r, rest);
    }

    // The heads for the front of top as a block, and the new top.
    method TopHeads(nb: nat, ghost c: Chunks)
      requires 0 < nb < topsize
      modifies `size, `cin, `pin, `top, `topsize, `chunks
      ensures var h, r, rest := old(H()), old(top) + nb, old(topsize) - nb;
              H() == h.(c := c, size := h.size[h.top := nb][r := rest], cin := h.cin + {h.top} - {r},
                pin := h.pin + {h.top} + {r}, top := r, topsize := rest)
    {
      topsize := topsize - nb;
      var p := top;
      var r := p + nb;
      top := r;
      SetTopHead(r, topsize);
      SetSizeInuse(p, nb);
      chunks := c;
    }

    // The heads for the front of dv as a block, and the new dv.
    method DvHeads(nb: nat, rsize: nat, ghost c: Chunks)
      requires 0 < nb
      modifies `size, `cin, `pin, `foot, `dv, `dvsize, `chunks
      ensures var h, r := old(H()), old(dv) + nb;
              H() == h.(c := c, size := h.size[h.dv := nb][r := rsize], cin := h.cin + {h.dv} - {r},
                pin := h.pin + {h.dv} + {r},
                        foot := h.foot[r + rsize := rsize], dv := r, dvsize := rsize)
    {
      var p := dv;
      var r := p + nb;
      dv := r;
      dvsize := rsize;
      SetFree(r, rsize);
      SetSizeInuse(p, nb);
      chunks := c;
    }

    // The head and foot of a chunk that has become free, before used or free memory.
    method FreeHead(q: nat, n: nat, next: nat, used: bool, ghost c: Chunks)
      modifies `size, `cin, `pin, `foot, `chunks
      ensures var h := old(H());
              H() == h.(c := c, size := h.size[q := n], cin := h.cin - {q}, foot := h.foot[q + n := n],
                        pin := if used then h.pin - {next} + {q} else h.pin + {q})
    {
      if used { SetFreeWithPinuse(q, n, next); } else { SetFree(q, n); }
      chunks := c;
    }

    // top grows downwards over free memory, dv maybe.
    method TopBack(q: nat, n: nat, ghost c: Chunks)
      modifies `size, `cin, `pin, `top, `topsize, `dv, `dvsize, `chunks
      ensures var h, n' := old(H()), old(topsize) + n;
              H() == h.(c := c, size := h.size[q := n'], cin := h.cin - {q}, pin := h.pin + {q}, top := q,
                topsize := n',
                        dv := if q == h.dv then 0 else h.dv, dvsize := if q == h.dv then 0 else h.dvsize)
    {
      topsize := topsize + n;
      top := q;
      SetTopHead(q, topsize);
      if q == dv {
        dv := 0;
        dvsize := 0;
      }
      chunks := c;
    }

    // -- Bins ------------------------------------------------------------------

    // unlink_chunk
    method Unlink(p: nat, s: nat, ghost out: set<nat>)
      requires Sound(out) && BinAt(chunks, p) && p !in out && s == At(size, p)
      modifies bins
      ensures Sound(out + {p})
    {
      ghost var bv := bins.V();
      Counts(out);
      bins.UnlinkChunk(p, s, size);
      Unlinked(bv, out, p);
    }

    // unlink_large_chunk
    method UnlinkTree(p: nat, ghost out: set<nat>)
      requires Sound(out) && BinAt(chunks, p) && p !in out && !IsSmall(At(size, p))
      modifies bins
      ensures Sound(out + {p})
    {
      ghost var bv := bins.V();
      Counts(out);
      bins.UnlinkLarge(p, size);
      Unlinked(bv, out, p);
    }

    lemma Unlinked(bv: BV, out: set<nat>, p: nat)
      requires bins.base == st + 16 && GoodBut(H(), bv, direct, out) && bins.Valid(size)
      requires |bv.small| == |bins.small| == NSMALLBINS && |bv.trees| == |bins.trees| == NTREEBINS
      requires forall y: nat :: bins.Has(size, y) <==> Binned(bv, size, y) && y != p
      ensures Sound(out + {p})
    {
      hide BinsOk, GoodBut, Binned;
      forall y: nat
        ensures Binned(bins.V(), size, y) <==> Binned(bv, size, y) && y != p
      {
        assert bins.Has(size, y) <==> Binned(bv, size, y) && y != p;
      }
      TakenOut(H(), bv, bins.V(), direct, out, p);
    }

    // -- Taking free chunks ----------------------------------------------------

    // A free chunk taken out of its bin becomes a block as it is.
    method UseWhole(p: nat, n: nat)
      requires Sound({p}) && p in chunks && chunks[p] == Ck(n, Bin) && n >= 8
      modifies `size, `cin, `pin, `chunks
      ensures Sound({}) && Gave(old(chunks), chunks, direct, p + 16, n - 8)
    {
      ghost var h := H();
      DvIs(h, bins.V(), direct, {p});
      UseWholeOk(h, bins.V(), direct, p, {p});
      assert {p} - {p} == {};
      hide GoodBut, Retile, Cover, Gave, CanRetile;
      SetInuseAndPinuse(p, n);
      chunks := Cover(chunks, p, n, Live, 0, Live);
      assert H() == Retile(h, p, n, Live, 0, Live);
    }

    // Its front becomes a block of nb bytes, and the rest will go to a bin.
    method UsePart(p: nat, nb: nat, rest: nat)
      requires Sound({p}) && p in chunks && chunks[p] == Ck(nb + rest, Bin) && Piece(nb, Live) && Piece(rest, Bin)
      modifies `size, `cin, `pin, `foot, `chunks
      ensures Sound({p + nb}) && Gave(old(chunks), chunks, direct, p + 16, nb - 8) && p + nb in chunks
              && chunks[p + nb] == Ck(rest, Bin)
    {
      ghost var h := H();
      DvIs(h, bins.V(), direct, {p});
      UsePartOk(h, bins.V(), direct, p, nb, rest, Bin, {p});
      assert RestOut({p}, p, p + nb, Bin) == {p + nb};
      hide GoodBut, Retile, Cover, Gave, CanRetile, RestOut;
      SplitHeads(p, nb, rest);
      chunks := Cover(chunks, p, nb, Live, rest, Bin);
      assert H() == Retile(h, p, nb, Live, rest, Bin);
    }

    // insert_chunk for a free chunk that is in no bin yet.
    method InsertRest(r: nat, rest: nat)
      requires Sound({r}) && r in chunks && chunks[r] == Ck(rest, Bin)
      modifies bins
      ensures Sound({})
    {
      ghost var bv := bins.V();
      Insertable(H(), bv, direct, {r}, r);
      Counts({r});
      bins.InsertChunk(r, rest, size);
      PutIn(H(), bv, bins.V(), direct, {r}, r);
      assert {r} - {r} == {};
    }

    // -- Allocating ------------------------------------------------------------

    // tmalloc_large: a best fit, unless dv is a better one.
    method TmallocLarge(nb: nat) returns (mem: nat)
      requires Valid() && MIN_LARGE_SIZE <= nb < TWO64 && nb % 8 == 0
      modifies `size, `cin, `pin, `foot, `chunks, bins
      ensures Valid()
      ensures mem == 0 ==> H() == old(H()) && if dvsize >= nb then Best(chunks, nb, dv) else NoneFits(chunks, nb)
      ensures mem != 0 ==> mem >= 16 && Best(old(chunks), nb, mem - 16)
      ensures mem != 0 ==> Gave(old(chunks), chunks, direct, mem, Cap(chunks, direct, mem))
                           && Snug(Cap(chunks, direct, mem), nb)
    {
      ghost var h, bv := H(), bins.V();
      Counts({});
      var v, rsize := AllocFit.TmallocLargeFit(bins, size, nb);
      FitsAre(nb);
      DvTest(h, bv, direct, nb, v, rsize);
      if v != 0 && rsize < AllocFit.Minus(dvsize, nb) {
        BinSize(h, bv, direct, v);
        hide GoodBut, Best, NoneFits, Gave;
        UnlinkTree(v, {});
        Carve(v, nb, rsize);
        return v + 16;
      }
      mem := 0;
    }

    lemma FitsAre(nb: nat)
      requires |bins.small| == NSMALLBINS && |bins.trees| == NTREEBINS
      ensures forall x: nat {:trigger TreeFit(bins.V(), size, nb, x)} ::
              TreeFit(bins.V(), size, nb, x) <==> AllocFit.Fits(bins, size, nb, x)
    {
    }

    // The end of tmalloc_large: the unlinked chunk v is used whole or split.
    method Carve(v: nat, nb: nat, rsize: nat)
      requires Sound({} + {v}) && v in chunks && chunks[v] == Ck(nb + rsize, Bin) && nb % 8 == 0 && rsize % 8 == 0
               && nb >= 32
      modifies `size, `cin, `pin, `foot, `chunks, bins
      ensures Sound({}) && Gave(old(chunks), chunks, direct, v + 16,
              (if rsize < MIN_CHUNK_SIZE then nb + rsize else nb) - 8)
    {
      hide GoodBut, Gave;
      assert {} + {v} == {v};
      if rsize < MIN_CHUNK_SIZE {
        UseWhole(v, rsize + nb);
      } else {
        UsePart(v, nb, rsize);
        InsertRest(v + nb, rsize);
      }
    }

    // The old dv, if any, goes to its small bin.
    method BinDv(r: nat, s: nat)
      requires Sound({r}) && r in chunks && chunks[r] == Ck(s, Bin) && IsSmall(dvsize)
      modifies `chunks, bins
      ensures bins.base == st + 16 && GoodBut(H().(dv := 0, dvsize := 0), bins.V(), direct, {r})
              && SameBlocks(old(chunks), chunks, direct)
      ensures r in chunks && chunks[r] == Ck(s, Bin)
    {
      ghost var h, bv := H(), bins.V();
      DvIs(h, bv, direct, {r});
      if dvsize != 0 {
        ChangeKind(h, bv, direct, dv, Bin, {r});
        ghost var h' := Retile(h, dv, dvsize, Bin, 0, Bin);
        assert RestOut({r}, dv, dv, Bin) == {r, dv};
        chunks := h'.c;
        assert H().(dv := 0, dvsize := 0) == h';
        Insertable(h', bv, direct, {r, dv}, dv);
        GoodParts(h', bv, direct, {r, dv});
        hide GoodBut, BinsOk, Retile, Cover, SameBlocks;
        bins.InsertSmall(dv, dvsize, size);
        Inserted(h', bv, {r, dv}, dv);
        assert {r, dv} - {dv} == {r};
      } else {
        assert H().(dv := 0, dvsize := 0) == H();
      }
    }

    lemma Inserted(h: HV, bv: BV, out: set<nat>, p: nat)
      requires bins.base == h.st + 16 && GoodBut(h, bv, direct, out) && bins.Valid(h.size) && BinAt(h.c, p)
      requires |bv.small| == |bins.small| == NSMALLBINS && |bv.trees| == |bins.trees| == NTREEBINS
      requires forall y: nat :: bins.Has(h.size, y) <==> Binned(bv, h.size, y) || y == p
      ensures GoodBut(h, bins.V(), direct, out - {p})
    {
      hide BinsOk, GoodBut, Binned;
      forall y: nat
        ensures Binned(bins.V(), h.size, y) <==> Binned(bv, h.size, y) || y == p
      {
        assert bins.Has(h.size, y) <==> Binned(bv, h.size, y) || y == p;
      }
      PutIn(h, bv, bins.V(), direct, out, p);
    }

    // replace_dv
    method ReplaceDv(r: nat, s: nat)
      requires Sound({r}) && r in chunks && chunks[r] == Ck(s, Bin) && IsSmall(dvsize)
      modifies `dv, `dvsize, `chunks, bins
      ensures Sound({}) && dv == r && dvsize == s && SameBlocks(old(chunks), chunks, direct)
    {
      BinDv(r, s);
      ghost var h := H().(dv := 0, dvsize := 0);
      ChangeKind(h, bins.V(), direct, r, Dv, {r});
      assert RestOut({r}, r, r, Dv) == {};
      hide GoodBut, BinsOk, Retile, Cover, SameBlocks;
      dvsize := s;
      dv := r;
      SameTwice(old(chunks), chunks, Retile(h, r, s, Dv, 0, Dv).c, direct);
      chunks := Retile(h, r, s, Dv, 0, Dv).c;
      assert H() == Retile(h, r, s, Dv, 0, Dv);
    }

    // tmalloc_small: the smallest chunk of the tree bins, its rest the new dv.
    method TmallocSmall(nb: nat) returns (mem: nat)
      requires Valid() && nb % 8 == 0 && 32 <= nb < MIN_LARGE_SIZE && dvsize < nb && bins.treemap != {}
      modifies `size, `cin, `pin, `foot, `chunks, `dv, `dvsize, bins
      ensures Valid() && mem >= 16 && Best(old(chunks), nb, mem - 16)
      ensures Gave(old(chunks), chunks, direct, mem, Cap(chunks, direct, mem)) && Snug(Cap(chunks, direct, mem), nb)
    {
      ghost var h, bv := H(), bins.V();
      Counts({});
      var v, rsize := AllocFit.TmallocSmallFit(bins, size, nb);
      FitsAre(nb);
      SmallestFits(h, bv, direct, nb, v);
      BinSize(h, bv, direct, v);
      Minus8(At(size, v), nb);
      hide GoodBut, Best, Gave, Cap, H, Sound;
      UnlinkTree(v, {});
      CarveDv(v, nb, rsize);
      mem := v + 16;
      GaveCap(old(chunks), chunks, direct, mem, (if rsize < MIN_CHUNK_SIZE then nb + rsize else nb) - 8);
    }

    // The end of tmalloc_small and of a fit in a larger small bin.
    method CarveDv(v: nat, nb: nat, rsize: nat)
      requires Sound({} + {v}) && v in chunks && chunks[v] == Ck(nb + rsize, Bin) && nb % 8 == 0 && rsize % 8 == 0
               && nb >= 32 && IsSmall(dvsize)
      modifies `size, `cin, `pin, `foot, `chunks, `dv, `dvsize, bins
      ensures Sound({}) && Gave(old(chunks), chunks, direct, v + 16,
              (if rsize < MIN_CHUNK_SIZE then nb + rsize else nb) - 8)
    {
      hide GoodBut, Gave, SameBlocks;
      assert {} + {v} == {v};
      if rsize < MIN_CHUNK_SIZE {
        UseWhole(v, rsize + nb);
      } else {
        UsePart(v, nb, rsize);
        ghost var c := chunks;
        ReplaceDv(v + nb, rsize);
        GaveSame(old(chunks), c, chunks, direct, v + 16, nb - 8);
      }
    }

    // The first chunk of small bin i.
    method TakeSmallBin(i: nat) returns (p: nat)
      requires Sound({}) && i in bins.smallmap
      modifies bins
      ensures Sound({} + {p}) && p in chunks && chunks[p] == Ck(8 * i, Bin)
    {
      ghost var h, bv := H(), bins.V();
      Counts({});
      p := bins.UnlinkFirstSmall(i, size);
      BinSize(h, bv, direct, p);
      Unlinked(bv, {}, p);
    }

    // Use dv, whole or its front.
    method UseDv(nb: nat) returns (mem: nat)
      requires Valid() && nb % 8 == 0 && 32 <= nb <= dvsize
      modifies `size, `cin, `pin, `foot, `chunks, `dv, `dvsize
      ensures Valid() && mem == old(dv) + 16
      ensures Gave(old(chunks), chunks, direct, mem, Cap(chunks, direct, mem)) && Snug(Cap(chunks, direct, mem), nb)
    {
      ghost var h, bv := H(), bins.V();
      DvIs(h, bv, direct, {});
      var rsize := dvsize - nb;
      if rsize >= MIN_CHUNK_SIZE { mem := SplitDv(nb, rsize); } else { mem := ExhaustDv(); }
    }

    method SplitDv(nb: nat, rsize: nat) returns (mem: nat)
      requires Valid() && dvsize == nb + rsize && Piece(nb, Live) && Piece(rsize, Dv)
      modifies `size, `cin, `pin, `foot, `chunks, `dv, `dvsize
      ensures Valid() && mem == old(dv) + 16 && Gave(old(chunks), chunks, direct, mem, nb - 8)
    {
      ghost var h, bv := H(), bins.V();
      DvIs(h, bv, direct, {});
      UsePartOk(h, bv, direct, dv, nb, rsize, Dv, {});
      assert RestOut({}, dv, dv + nb, Dv) == {};
      hide GoodBut, Retile, Cover, Gave, CanRetile;
      mem := dv + 16;
      DvHeads(nb, rsize, Cover(chunks, dv, nb, Live, rsize, Dv));
      assert H() == Retile(h, h.dv, nb, Live, rsize, Dv);
    }

    method ExhaustDv() returns (mem: nat)
      requires Valid() && dv != 0
      modifies `size, `cin, `pin, `chunks, `dv, `dvsize
      ensures Valid() && mem == old(dv) + 16 && old(dvsize) >= 32
              && Gave(old(chunks), chunks, direct, mem, old(dvsize) - 8)
    {
      ghost var h := H();
      ToView({});
      DvIs(h, bins.V(), direct, {});
      UseWholeOk(h, bins.V(), direct, dv, {});
      assert {} - {dv} == {};
      ghost var g := Retile(h, dv, dvsize, Live, 0, Live);
      DvWholeIs(h);
      hide H, Sound, GoodBut, Retile, Cover, Gave, CanRetile;
      mem := dv + 16;
      DvWhole(g.c);
      FromView(g, {});
    }

    // The heads for the whole of dv as a block.
    method DvWhole(ghost c: Chunks)
      modifies `size, `cin, `pin, `dv, `dvsize, `chunks
      ensures var h := old(H());
              H() == h.(c := c, size := h.size[h.dv := h.dvsize], cin := h.cin + {h.dv},
                pin := h.pin + {h.dv, h.dv + h.dvsize}, dv := 0, dvsize := 0)
    {
      var p, dvs := dv, dvsize;
      dvsize := 0;
      dv := 0;
      SetInuseAndPinuse(p, dvs);
      chunks := c;
    }

    // Use the front of top.
    method UseTop(nb: nat) returns (mem: nat)
      requires Valid() && Piece(nb, Live) && nb < topsize
      modifies `size, `cin, `pin, `chunks, `top, `topsize
      ensures Valid() && mem == old(top) + 16 && Gave(old(chunks), chunks, direct, mem, nb - 8)
    {
      ghost var h, bv := H(), bins.V();
      UseTopOk(h, bv, direct, nb);
      hide GoodBut, Retile, Cover, Gave;
      mem := top + 16;
      TopHeads(nb, Cover(chunks, top, nb, Live, topsize - nb + TOP_FOOT_SIZE, Top));
    }

    // -- Freeing ---------------------------------------------------------------

    // The joined chunk is or becomes dv.
    method FreeToDv(ghost p: nat, q: nat, n: nat, next: nat, used: bool)
      requires p in chunks && chunks[p].kind == Live && Sound(JoinOut(H(), p)) && JoinKind(H(), p) == Dv
      requires q == JoinStart(H(), p) && q + n == JoinEnd(H(), p) && next == p + chunks[p].size && next in chunks
               && (used <==> InUse(chunks[next].kind))
      modifies `size, `cin, `pin, `foot, `chunks, `dv, `dvsize
      ensures Sound({}) && Took(old(chunks), chunks, direct, p + 16)
    {
      ghost var h, bv := H(), bins.V();
      ToView(JoinOut(h, p));
      ViewIs();
      GoodParts(h, bv, direct, JoinOut(h, p));
      JoinGood(h, bv, direct, p);
      JoinTags(h, p);
      assert LeftOut(h, p) == {};
      ghost var g := Joined(h, p);
      hide H, Sound, HeapOk, BinsOk, DirectOk, GoodBut, JoinStart, JoinEnd, JoinKind, Took, Joined, Cover;
      FreeHead(q, n, next, used, g.c);
      SetDv(q, n);
      FromView(g, {});
    }

    // The joined chunk goes to a bin.
    method FreeToBin(ghost p: nat, q: nat, n: nat, next: nat, used: bool)
      requires p in chunks && chunks[p].kind == Live && Sound(JoinOut(H(), p)) && JoinKind(H(), p) == Bin
      requires q == JoinStart(H(), p) && q + n == JoinEnd(H(), p) && next == p + chunks[p].size && next in chunks
               && (used <==> InUse(chunks[next].kind))
      modifies `size, `cin, `pin, `foot, `chunks, bins
      ensures Sound({}) && Took(old(chunks), chunks, direct, p + 16)
    {
      ghost var h, bv := H(), bins.V();
      GoodParts(h, bv, direct, JoinOut(h, p));
      JoinGood(h, bv, direct, p);
      JoinTags(h, p);
      assert LeftOut(h, p) == {q};
      hide HeapOk, BinsOk, DirectOk, GoodBut, JoinStart, JoinEnd, JoinKind, Took, Joined, Cover;
      FreeHead(q, n, next, used, Joined(h, p).c);
      assert H() == Joined(h, p);
      InsertRest(q, n);
    }

    // The joined chunk becomes top.
    method FreeToTop(ghost p: nat, q: nat, psize: nat)
      requires p in chunks && chunks[p].kind == Live && Sound(JoinOut(H(), p)) && JoinKind(H(), p) == Top
      requires q == JoinStart(H(), p) && q + psize == top && top == p + chunks[p].size
      modifies `size, `cin, `pin, `chunks, `dv, `dvsize, `top, `topsize
      ensures Sound({}) && Took(old(chunks), chunks, direct, p + 16)
    {
      ghost var h, bv := H(), bins.V();
      GoodParts(h, bv, direct, JoinOut(h, p));
      JoinGood(h, bv, direct, p);
      JoinTopTags(h, p);
      assert LeftOut(h, p) == {};
      hide HeapOk, BinsOk, DirectOk, GoodBut, JoinStart, JoinEnd, JoinKind, Took, Joined, Cover;
      TopBack(q, psize, Joined(h, p).c);
      assert H() == Joined(h, p);
    }

    // The part of lj_alloc_free that puts a chunk back, joined with free neighbours.
    method FreeChunk(p: nat) returns (what: Freed)
      requires Sound({}) && p in chunks && chunks[p].kind == Live
      modifies `size, `cin, `pin, `foot, `chunks, `dv, `dvsize, `top, `topsize, bins
      ensures Sound({}) && Took(old(chunks), chunks, direct, p + 16)
      ensures what != IntoTop ==> topsize == old(topsize)
    {
      ghost var h := H();
      FreeReads(h, bins.V(), direct, p);
      GoodParts(h, bins.V(), direct, {});
      JoinCases(h, p);
      DvIs(h, bins.V(), direct, {});
      var psize, q := At(size, p), p;
      var next := p + psize;
      hide GoodBut, BinsOk, HeapOk, DirectOk, JoinStart, JoinEnd, JoinKind, JoinOut, BackOut, Took;
      if p !in pin {
        var prevsize := At(foot, p);
        q := p - prevsize;
        psize := psize + prevsize;
        if q != dv {
          Unlink(q, prevsize, {});
          assert {} + {q} == BackOut(h, p);
        } else if next in cin && next in pin {
          FreeToDv(p, q, psize, next, true);
          return IntoDv;
        }
      }
      what := FreeForward(p, q, psize, next);
    }

    // Its second half: what comes after the chunk.
    method FreeForward(ghost p: nat, q: nat, n: nat, next: nat) returns (what: Freed)
      requires p in chunks && chunks[p].kind == Live && HeapOk(H()) && Sound(BackOut(H(), p)) && q == JoinStart(H(), p)
               && q + n == next == p + chunks[p].size
      requires next in chunks && (next in cin <==> InUse(chunks[next].kind))
               && (next == top <==> chunks[next].kind == Top)
      requires (next == dv <==> chunks[next].kind == Dv)
               && (chunks[next].kind == Bin ==> At(size, next) == chunks[next].size)
      requires chunks[next].kind == Dv ==> dvsize == chunks[next].size
      requires q == dv <==> p !in pin && q in chunks && chunks[q].kind == Dv
      requires InUse(chunks[next].kind) ==> q != dv
      modifies `size, `cin, `pin, `foot, `chunks, `dv, `dvsize, `top, `topsize, bins
      ensures Sound({}) && Took(old(chunks), chunks, direct, p + 16)
      ensures what != IntoTop ==> topsize == old(topsize)
    {
      ghost var h := H();
      JoinCases(h, p);
      hide GoodBut, BinsOk, HeapOk, DirectOk, JoinStart, JoinEnd, JoinKind, JoinOut, BackOut, Took;
      var psize := n;
      if next !in cin {
        if next == top {
          FreeToTop(p, q, psize);
          return IntoTop;
        } else if next == dv {
          FreeToDv(p, q, psize + dvsize, next, false);
          return IntoDv;
        }
        var nsize := At(size, next);
        psize := psize + nsize;
        Unlink(next, nsize, BackOut(h, p));
        if q == dv {
          FreeToDv(p, q, psize, next, false);
          return IntoDv;
        }
        FreeToBin(p, q, psize, next, false);
      } else {
        FreeToBin(p, q, psize, next, true);
      }
      what := if IsSmall(psize) then IntoSmallBin else IntoTreeBin;
    }

    // -- The system ------------------------------------------------------------

    // mmap: maps n bytes where nothing is mapped, or refuses.
    method Mmap(n: nat) returns (b: nat)
      modifies `refused
      ensures refused == (if b == 0 then old(refused) + [n] else old(refused)) && H() == old(H())
      ensures b != 0 ==> b % PAGE == 0 && b + n < TWO64 && ClearAll(segs, b, n) && OffDirect(direct, b, n)
    {
      b := *;
      if b % PAGE != 0 || b + n >= TWO64 || !Unmapped(segs, direct, b, n) { b := 0; }
      if b == 0 { refused := refused + [n]; }
    }

    // The same for segments, which the system is taken to keep below the size that
    // tree bins can index.
    method MapSegment(n: nat) returns (b: nat)
      requires Granular(n)
      modifies `refused
      ensures refused == if b == 0 then old(refused) + [n] else old(refused)
      ensures b != 0 ==> b % PAGE == 0 && Fresh(segs, b, n) && OffDirect(direct, b, n)
    {
      b := *;
      if b <= 0 || b % PAGE != 0 || b + n >= TWO64 || !Unmapped(segs, direct, b, n)
        || n >= SIZE_LIMIT || exists i :: 0 <= i < |segs| && !Joinable(segs, i, n) { b := 0; }
      if b == 0 { refused := refused + [n]; }
      PageEight(b);
    }

    // munmap, for memory nobody needs any more in the heap h to come.
    method Munmap(b: nat, n: nat, ghost h: HV, ghost d: Direct) returns (ok: bool)
      requires Unneeded(h, d, b, n)
    {
      ok := *;
    }

    // direct_alloc
    method DirectAlloc(nb: nat) returns (mem: nat)
      requires Valid() && DEFAULT_MMAP_THRESHOLD <= nb < TWO64
      modifies `size, `cin, `pin, `foot, `direct, `refused
      ensures Valid() && (mem == 0 ==> H() == old(H()) && direct == old(direct)) && (nb == TWO64 - 1 ==> mem == 0)
      ensures mem != 0 ==> Grants(old(chunks), old(direct), chunks, direct, mem, Cap(chunks, direct, mem))
                           && Cap(chunks, direct, mem) >= nb
      ensures if mem == 0 && DirectSize(nb) > nb then refused == old(refused) + [DirectSize(nb)]
              else refused == old(refused)
      ensures forall p: nat :: p + 16 != mem ==> (p in direct <==> p in old(direct))
      ensures mem != 0 ==> mem >= 16 && mem - 16 in direct
    {
      hide H, Sound, GoodBut, Grants, Cap, DirectSize, OffDirect, ClearAll;
      mem := 0;
      var mmsize := DirectSize(nb);
      DirectBelow(nb);
      if mmsize > nb {
        MmapAligned(nb);
        ToView({});
        ViewIs();
        ghost var h := H();
        var mm := Mmap(mmsize);
        FromView(h, {});
        if mm != 0 {
          PageEight(mm);
          DirectChunk(mm, mmsize);
          mem := mm + 16;
          GrantsCap(old(chunks), old(direct), chunks, direct, mem, mmsize - 48);
        }
      }
    }

    // The words of a new direct chunk.
    method DirectChunk(mm: nat, mmsize: nat)
      requires Valid() && mm > 0 && mm % 8 == 0 && mmsize % 8 == 0 && mm + mmsize < TWO64 && mmsize > 48
      requires ClearAll(segs, mm, mmsize) && OffDirect(direct, mm, mmsize)
      modifies `size, `cin, `pin, `foot, `direct
      ensures Valid() && Grants(old(chunks), old(direct), chunks, direct, mm + 16, mmsize - 48)
      ensures direct == old(direct)[mm := mmsize]
    {
      ghost var h := H();
      foot := foot[mm := 1];
      DirectHeads(h, mm, mmsize);
      DirectWordsOk(h, mm, mmsize);
      DirectNew(h, H(), bins.V(), direct, mm, mmsize);
      hide GoodBut, Grants;
      direct := direct[mm := mmsize];
    }

    // The heads of a direct chunk and of the fake chunk after it.
    method DirectHeads(ghost h: HV, p: nat, mmsize: nat)
      requires mmsize > 48 && H() == h.(foot := h.foot[p := 1])
      modifies `size, `cin, `pin
      ensures H() == DirectWords(h, p, mmsize)
    {
      var psize := mmsize - DIRECT_FOOT_PAD;
      size := size[p := psize];
      cin, pin := cin + {p}, pin - {p};
      SetFence(p + psize);
      size := size[p + psize + 8 := 0];
      cin, pin := cin - {p + psize + 8}, pin - {p + psize + 8};
    }

    // head = FENCEPOST_HEAD
    method SetFence(p: nat)
      modifies `size, `cin, `pin
      ensures size == old(size)[p := 8] && cin == old(cin) + {p} && pin == old(pin) + {p}
    {
      size := size[p := 8];
      cin, pin := cin + {p}, pin + {p};
    }

    // prepend_alloc: a region is put in front of segment i, nb bytes of it are a
    // block, and the rest joins what was first in the segment.
    method Prepend(i: nat, tbase: nat, tsize: nat, nb: nat) returns (mem: nat)
      requires Valid() && Fresh(segs, tbase, tsize) && OffDirect(direct, tbase, tsize) && i < |segs|
               && tbase + tsize == segs[i].base
      requires Piece(nb, Live) && nb + TOP_FOOT_SIZE < tsize
      modifies `segs, `size, `cin, `pin, `foot, `chunks, `dv, `dvsize, `top, `topsize, bins
      ensures Valid() && mem == tbase + 16 && Gave(old(chunks), chunks, direct, mem, nb - 8)
    {
      ghost var g := PrependStart(H(), bins.V(), direct, i, tbase, tsize, nb);
      hide GoodBut, PrependGoal, Fresh, OffDirect, Gave;
      mem := tbase + 16;
      PrependRest(i, tbase, tsize, nb, g);
    }

    // What becomes of the rest, and of the first chunk of the old segment.
    method PrependRest(i: nat, tbase: nat, tsize: nat, nb: nat, ghost g: HV)
      requires Sound({}) && PrependGoal(H(), i, tbase, tsize, nb, g) && OffDirect(direct, tbase, tsize) && nb > 0
      requires var q := tbase + tsize; (q == top <==> KindAt(chunks, q, Top)) && (q == dv <==> KindAt(chunks, q, Dv))
      modifies `segs, `size, `cin, `pin, `foot, `chunks, `dv, `dvsize, `top, `topsize, bins
      ensures Sound({}) && chunks == g.c
    {
      hide GoodBut, PrependGoal, OffDirect, KindAt;
      var oldfirst := tbase + tsize;
      if oldfirst == top {
        PrependIntoTop(i, tbase, tsize, nb, g);
      } else if oldfirst == dv {
        PrependIntoDv(i, tbase, tsize, nb, g);
      } else {
        PrependBin(i, tbase, tsize, nb, g);
      }
    }

    method PrependIntoTop(i: nat, tbase: nat, tsize: nat, nb: nat, ghost g: HV)
      requires Sound({}) && PrependGoal(H(), i, tbase, tsize, nb, g) && OffDirect(direct, tbase, tsize)
               && KindAt(chunks, tbase + tsize, Top) && nb > 0
      modifies `segs, `size, `cin, `pin, `chunks, `top, `topsize
      ensures Sound({}) && chunks == g.c
    {
      ToView({});
      PrependToTop(H(), bins.V(), direct, i, tbase, tsize, nb, g);
      assert H().topsize == topsize;
      hide GoodBut, PrependGoal, OffDirect, TopWords, H, Sound;
      PrependTop(i, tbase, tsize, nb, g.c);
      FromView(g, {});
    }

    method PrependIntoDv(i: nat, tbase: nat, tsize: nat, nb: nat, ghost g: HV)
      requires Sound({}) && PrependGoal(H(), i, tbase, tsize, nb, g) && OffDirect(direct, tbase, tsize)
               && KindAt(chunks, tbase + tsize, Dv) && nb > 0
      modifies `segs, `size, `cin, `pin, `foot, `chunks, `dv, `dvsize
      ensures Sound({}) && chunks == g.c
    {
      ToView({});
      PrependToDv(H(), bins.V(), direct, i, tbase, tsize, nb, g);
      var rest := dvsize + (tsize - nb);
      hide GoodBut, PrependGoal, OffDirect, FreeWords, H, Sound;
      PrependFree(i, tbase, tsize, nb, rest, false, g.c);
      SetDv(tbase + nb, rest);
      FromView(g, {});
    }

    // The rest goes to a bin, joined with the old first chunk if that is free.
    method PrependBin(i: nat, tbase: nat, tsize: nat, nb: nat, ghost g: HV)
      requires Sound({}) && PrependGoal(H(), i, tbase, tsize, nb, g) && OffDirect(direct, tbase, tsize) && nb > 0
      requires !KindAt(chunks, tbase + tsize, Top) && !KindAt(chunks, tbase + tsize, Dv)
      modifies `segs, `size, `cin, `pin, `foot, `chunks, bins
      ensures Sound({}) && chunks == g.c
    {
      ViewIs();
      PrependFirst(H(), i, tbase, tsize, nb, g);
      hide H, Sound, GoodBut, PrependGoal, OffDirect, FreeWords;
      var oldfirst := tbase + tsize;
      var used := oldfirst in cin;
      var more := if used then 0 else At(size, oldfirst);
      if !used { Unlink(oldfirst, more, {}); }
      assert (if used then {} else {} + {oldfirst}) == FirstOut(chunks, oldfirst);
      hide KindAt;
      PrependBinned(i, tbase, tsize, nb, more + (tsize - nb), used, g);
      InsertRest(tbase + nb, more + (tsize - nb));
    }

    method PrependBinned(i: nat, tbase: nat, tsize: nat, nb: nat, qsize: nat, used: bool, ghost g: HV)
      requires Sound(FirstOut(chunks, tbase + tsize)) && PrependGoal(H(), i, tbase, tsize, nb, g)
               && OffDirect(direct, tbase, tsize) && nb > 0
      requires !KindAt(chunks, tbase + tsize, Top) && !KindAt(chunks, tbase + tsize, Dv)
      requires tsize > nb && used == (tbase + tsize in cin) && qsize == FirstSize(chunks, tbase + tsize) + (tsize - nb)
      modifies `segs, `size, `cin, `pin, `foot, `chunks
      ensures Sound({tbase + nb}) && chunks == g.c && tbase + nb in g.c && g.c[tbase + nb] == Ck(qsize, Bin)
    {
      ToView(FirstOut(chunks, tbase + tsize));
      assert H().c == chunks && H().cin == cin;
      hide H, Sound, GoodBut, PrependGoal, OffDirect, FreeWords, FirstOut, FirstSize, KindAt;
      PrependToBin(H(), bins.V(), direct, i, tbase, tsize, nb, g, FirstOut(chunks, tbase + tsize));
      ViewIs();
      PrependWrite(i, tbase, tsize, nb, qsize, used, g);
    }

    lemma ViewIs()
      ensures H().st == st && H().segs == segs && H().c == chunks && H().size == size && H().cin == cin
              && H().pin == pin
      ensures H().top == top && H().topsize == topsize && H().dv == dv && H().dvsize == dvsize
    {
    }

    method PrependWrite(i: nat, tbase: nat, tsize: nat, nb: nat, qsize: nat, used: bool, ghost g: HV)
      requires bins.base == st + 16 && GoodBut(g, bins.V(), direct, {tbase + nb}) && i < |segs| && 0 < nb < tsize
      requires g == FreeWords(H(), i, tbase, tsize, nb, qsize, used, g.c)
      modifies `segs, `size, `cin, `pin, `foot, `chunks
      ensures Sound({tbase + nb}) && chunks == g.c
    {
      assert g.st == st;
      hide GoodBut, FreeWords, H, Sound;
      PrependFree(i, tbase, tsize, nb, qsize, used, g.c);
      FromView(g, {tbase + nb});
    }

    // The segment begins earlier, with a block of nb bytes, and top after that.
    method PrependTop(i: nat, tbase: nat, tsize: nat, nb: nat, ghost c: Chunks)
      requires i < |segs| && 0 < nb < tsize
      modifies `segs, `size, `cin, `pin, `chunks, `top, `topsize
      ensures H() == TopWords(old(H()), i, tbase, tsize, nb, old(topsize) + (tsize - nb), c)
    {
      segs := segs[i := Segment(tbase, segs[i].size + tsize, segs[i].rec)];
      SetSizeInuse(tbase, nb);
      topsize := topsize + (tsize - nb);
      top := tbase + nb;
      SetTopHead(top, topsize);
      chunks := c;
    }

    // The same with free memory of rest bytes after the block.
    method PrependFree(i: nat, tbase: nat, tsize: nat, nb: nat, rest: nat, used: bool, ghost c: Chunks)
      requires i < |segs| && 0 < nb < tsize
      modifies `segs, `size, `cin, `pin, `foot, `chunks
      ensures H() == FreeWords(old(H()), i, tbase, tsize, nb, rest, used, c)
    {
      segs := segs[i := Segment(tbase, segs[i].size + tsize, segs[i].rec)];
      SetSizeInuse(tbase, nb);
      if used { SetFreeWithPinuse(tbase + nb, rest, tbase + tsize); } else { SetFree(tbase + nb, rest); }
      chunks := c;
      assert used ==> old(pin) + {tbase} - {tbase + tsize} + {tbase + nb} == old(pin) - {tbase + tsize} + {tbase}
                      + {tbase + nb};
    }

    // -- Segments --------------------------------------------------------------

    // init_top; chunks are aligned here, so there is no offset.
    method InitTop(p: nat, psize: nat)
      modifies `top, `topsize, `size, `cin, `pin, `trimCheck
      ensures H() == InitWords(old(H()), p, psize)
    {
      top := p;
      topsize := psize;
      SetTopHead(p, psize);
      size := size[p + psize := TOP_FOOT_SIZE];
      cin, pin := cin - {p + psize}, pin - {p + psize};
      trimCheck := DEFAULT_TRIM_THRESHOLD;
    }

    // The top segment gets n bytes in all.
    method SetTopSegment(n: nat)
      requires Sound({}) && CanResize(segs, top, n) && OffDirect(direct, segs[0].base, n)
               && top + TOP_FOOT_SIZE < segs[0].base + n
      modifies `top, `topsize, `size, `cin, `pin, `trimCheck, `segs, `chunks
      ensures Sound({}) && SameBlocks(old(chunks), chunks, direct) && top == old(top)
              && segs == ResizedSegs(old(segs), n)
      ensures topsize + TOP_FOOT_SIZE + top == segs[0].base + n
    {
      ghost var h := H();
      ResizedGood(h, bins.V(), direct, n);
      var room := segs[0].base + n - top - TOP_FOOT_SIZE;
      segs := segs[0 := Segment(segs[0].base, n, segs[0].rec)];
      chunks := ResizedChunks(chunks, h.segs, top, n);
      hide GoodBut, CanResize, OffDirect, SameBlocks, ResizedChunks;
      InitTop(top, room);
      assert H() == Resized(h, n);
    }

    // The append case of alloc_sys.
    method Append(tsize: nat)
      requires Sound({}) && |segs| > 0 && Fresh(segs, End(segs[0]), tsize) && OffDirect(direct, End(segs[0]), tsize)
      modifies `top, `topsize, `size, `cin, `pin, `trimCheck, `segs, `chunks
      ensures Sound({}) && SameBlocks(old(chunks), chunks, direct) && topsize == old(topsize) + tsize
    {
      AppendCan(H(), bins.V(), direct, tsize);
      hide GoodBut, CanResize, OffDirect, SameBlocks, Fresh;
      SetTopSegment(segs[0].size + tsize);
    }

    // The records and fenceposts of add_segment at the end of the old top segment.
    method Fences(csp: nat, oldEnd: nat)
      requires csp + 48 <= oldEnd && csp % 8 == 0 && oldEnd % 8 == 0
      modifies `size, `cin, `pin
      ensures At(size, csp) == 32 && csp in cin && csp in pin
      ensures forall a: nat {:trigger SameTag(old(H()), H(), a)} :: !(csp <= a < oldEnd) ==> SameTag(old(H()), H(), a)
    {
      SetSizeInuse(csp, 32);
      var p := csp + 32;
      while true
        invariant csp + 32 <= p && p + 16 <= oldEnd && p % 8 == 0
        invariant At(size, csp) == 32 && csp in cin && csp in pin
        invariant forall a: nat :: !(csp <= a < oldEnd) ==> At(size, a) == At(old(size), a)
                                                            && (a in cin <==> a in old(cin))
                                                            && (a in pin <==> a in old(pin))
        decreases oldEnd - p
      {
        SetFence(p);
        if p + 16 >= oldEnd { break; }
        p := p + 8;
      }
    }

    // The free rest of the old top before the record: set_free_with_pinuse.
    method OldTopFree(q: nat, psize: nat, tn: nat)
      requires q != tn && psize > 0
      modifies `size, `cin, `pin, `foot
      ensures At(size, q) == psize && q !in cin && q in pin && tn !in pin && At(foot, q + psize) == psize
      ensures forall a: nat :: a != q ==> At(size, a) == At(old(size), a) && (a in cin <==> a in old(cin))
      ensures forall a: nat :: a != q && a != tn ==> (a in pin <==> a in old(pin))
      ensures forall a: nat :: a != q + psize ==> At(foot, a) == At(old(foot), a)
    {
      SetFreeWithPinuse(q, psize, tn);
    }

    // add_segment
    method AddSegment(tbase: nat, tsize: nat)
      requires Sound({}) && Fresh(segs, tbase, tsize) && OffDirect(direct, tbase, tsize)
      modifies `top, `topsize, `size, `cin, `pin, `foot, `trimCheck, `segs, `chunks, bins
      ensures Sound({}) && SameBlocks(old(chunks), chunks, direct) && topsize + TOP_FOOT_SIZE == tsize
    {
      ghost var h := H();
      AddStart(h, bins.V(), direct, tbase, tsize);
      var oldTop, room := top, topsize;
      var oldEnd := segs[0].base + segs[0].size;
      var asp := oldEnd - 64;
      var csp := if asp < oldTop + MIN_CHUNK_SIZE then oldTop else asp;
      AddWords(tbase, tsize, csp, oldEnd);
      AddedFrom(h, H(), bins.V(), direct, tbase, tsize);
      AddGood(h, H(), bins.V(), direct, tbase, tsize);
      AddRest(h, tbase, tsize);
      hide GoodBut, Added, AddWrites, Fresh, OffDirect, SameBlocks, AddedChunks;
      if csp != oldTop {
        InsertRest(oldTop, csp - oldTop);
      }
    }

    // Everything add_segment writes before it inserts the rest of the old top.
    method AddWords(tbase: nat, tsize: nat, csp: nat, oldEnd: nat)
      requires |segs| > 0 && oldEnd == End(segs[0]) == top + topsize + TOP_FOOT_SIZE && csp == RecordAt(top, topsize)
      requires top % 8 == 0 && topsize % 8 == 0 && oldEnd % 8 == 0 && tsize > TOP_FOOT_SIZE + 8
               && (tbase + tsize <= top || oldEnd <= tbase) && top in pin
      modifies `top, `topsize, `size, `cin, `pin, `foot, `trimCheck, `segs, `chunks
      ensures var h, h' := old(H()), H();
              && h' == h.(c := AddedChunks(h.c, h.top, h.topsize, tbase, tsize),
                 segs := AddedSegs(h.segs, tbase, tsize, h.st + 856, csp),
                          top := tbase, topsize := h'.topsize, size := h'.size, cin := h'.cin, pin := h'.pin,
                            foot := h'.foot)
              && AddWrites(h, h', tbase, tsize)
              && h'.topsize == tsize - TOP_FOOT_SIZE && At(h'.size, tbase) == tsize - TOP_FOOT_SIZE && tbase !in h'.cin
                 && tbase in h'.pin
              && h.top in h'.pin && At(h'.foot, h.top) == At(h.foot, h.top) && At(h'.size, csp) == 32 && csp in h'.cin
              && (csp != h.top ==> At(h'.size, h.top) == h.topsize && h.top !in h'.cin && csp !in h'.pin
                                   && At(h'.foot, csp) == h.topsize)
    {
      var oldTop, room := top, topsize;
      ghost var h := H();
      InitTop(tbase, tsize - TOP_FOOT_SIZE);
      segs := [Segment(tbase, tsize, st + 856), Segment(segs[0].base, segs[0].size, csp + 16)] + segs[1..];
      chunks := AddedChunks(chunks, oldTop, room, tbase, tsize);
      ghost var h1 := H();
      AddTail(oldTop, csp, oldEnd);
      forall a: nat | !(tbase <= a < tbase + tsize) && !(oldTop <= a < oldEnd)
        ensures SameTag(h, H(), a)
      {
        assert SameTag(h1, H(), a);
      }
      assert SameTag(h1, H(), tbase);
    }

    // The record, the fenceposts, and the free memory before them.
    method AddTail(oldTop: nat, csp: nat, oldEnd: nat)
      requires oldTop <= csp && csp + 48 <= oldEnd && csp % 8 == 0 && oldEnd % 8 == 0
      modifies `size, `cin, `pin, `foot
      ensures H() == old(H()).(size := size, cin := cin, pin := pin, foot := foot)
      ensures forall a: nat {:trigger SameTag(old(H()), H(), a)} :: !(oldTop <= a < oldEnd)
                                                                    ==> SameTag(old(H()), H(), a)
      ensures At(size, csp) == 32 && csp in cin && At(foot, oldTop) == At(old(foot), oldTop)
      ensures csp == oldTop ==> oldTop in pin
      ensures csp != oldTop ==> At(size, oldTop) == csp - oldTop && oldTop !in cin && oldTop in pin && csp !in pin
                                && At(foot, csp) == csp - oldTop
    {
      ghost var h := H();
      Fences(csp, oldEnd);
      ghost var h1 := H();
      if csp != oldTop { OldTopFree(oldTop, csp - oldTop, csp); }
      forall a: nat | !(oldTop <= a < oldEnd)
        ensures SameTag(h, H(), a)
      {
        assert SameTag(h, h1, a);
      }
    }

    // The segment that ends at a, or |segs|.
    method EndingAt(a: nat) returns (i: nat)
      ensures i <= |segs| && (i < |segs| ==> End(segs[i]) == a)
    {
      i := 0;
      while i < |segs| && a != segs[i].base + segs[i].size
        invariant i <= |segs|
      {
        i := i + 1;
      }
    }

    // The segment that begins at a, or |segs|.
    method BeginningAt(a: nat) returns (i: nat)
      ensures i <= |segs| && (i < |segs| ==> segs[i].base == a)
    {
      i := 0;
      while i < |segs| && segs[i].base != a
        invariant i <= |segs|
      {
        i := i + 1;
      }
    }

    // alloc_sys
    method AllocSys(nb: nat) returns (mem: nat)
      requires Valid() && nb < TWO64 && (Piece(nb, Live) || nb == TWO64 - 1)
      modifies `top, `topsize, `size, `cin, `pin, `foot, `trimCheck, `segs, `chunks, `dv, `dvsize, `direct, `refused,
        bins
      ensures Valid() && (nb == TWO64 - 1 ==> mem == 0)
      ensures mem == 0 ==> forall a: nat :: Cap(chunks, direct, a) == Cap(old(chunks), old(direct), a)
      ensures mem != 0 ==> Grants(old(chunks), old(direct), chunks, direct, mem, Cap(chunks, direct, mem))
                           && Cap(chunks, direct, mem) + 8 >= nb
      ensures mem != 0 && mem - 16 !in direct ==> Snug(Cap(chunks, direct, mem), nb)
      ensures mem == 0 ==> Unmappable(nb) || Turned(old(refused), refused, SegmentSize(nb))
      ensures mem != 0 && nb >= DEFAULT_MMAP_THRESHOLD && mem - 16 !in direct && DirectSize(nb) > nb ==>
                Turned(old(refused), refused, DirectSize(nb))
      ensures old(refused) <= refused
      ensures forall p: nat :: p + 16 != mem ==> (p in direct <==> p in old(direct))
    {
      hide GoodBut, Grants, Cap, DirectSize, SegmentSize, Unmappable, Piece;
      if nb >= DEFAULT_MMAP_THRESHOLD {
        mem := DirectAlloc(nb);
        TurnedNow(old(refused), refused, DirectSize(nb));
        if mem != 0 { return; }
      }
      ghost var between := refused;
      mem := AllocSegment(nb);
      TurnedNow(between, refused, SegmentSize(nb));
      TurnedOn(old(refused), between, refused, DirectSize(nb));
      TurnedOn(old(refused), between, refused, SegmentSize(nb));
    }

    // A segment for the request, merged with another one or added.
    method AllocSegment(nb: nat) returns (mem: nat)
      requires Valid() && nb < TWO64 && (Piece(nb, Live) || nb == TWO64 - 1)
      modifies `top, `topsize, `size, `cin, `pin, `foot, `trimCheck, `segs, `chunks, `dv, `dvsize, `refused, bins
      ensures Valid() && (nb == TWO64 - 1 ==> mem == 0)
      ensures mem == 0 ==> H() == old(H()) && (Unmappable(nb) || refused == old(refused) + [SegmentSize(nb)])
      ensures mem != 0 ==> Grants(old(chunks), direct, chunks, direct, mem, Cap(chunks, direct, mem))
                           && Snug(Cap(chunks, direct, mem), nb)
      ensures old(refused) <= refused
    {
      mem := 0;
      MappableIs(nb);
      var rsize := SegmentSize(nb);
      if rsize > nb {
        GranularityAligned(nb);
        var tbase := MapSegment(rsize);
        hide GoodBut, Grants, Fresh, OffDirect, SegmentSize;
        if tbase != 0 { mem := UseRegion(tbase, rsize, nb); }
      }
    }

    // A new region is merged with a segment or added, and the request is met.
    method UseRegion(tbase: nat, tsize: nat, nb: nat) returns (mem: nat)
      requires Valid() && Piece(nb, Live) && nb + TOP_FOOT_SIZE < tsize && Fresh(segs, tbase, tsize)
               && OffDirect(direct, tbase, tsize)
      modifies `top, `topsize, `size, `cin, `pin, `foot, `trimCheck, `segs, `chunks, `dv, `dvsize, bins
      ensures Valid() && mem != 0
      ensures Grants(old(chunks), direct, chunks, direct, mem, Cap(chunks, direct, mem))
              && Snug(Cap(chunks, direct, mem), nb)
    {
      var i := EndingAt(tbase);
      if i < |segs| { TopHeld(H(), bins.V(), direct, i); }
      hide GoodBut, Fresh, OffDirect;
      if i < |segs| && segs[i].base <= top < segs[i].base + segs[i].size {
        Append(tsize);
      } else {
        i := BeginningAt(tbase + tsize);
        if i < |segs| {
          mem := Prepend(i, tbase, tsize, nb);
          GrantsSame(old(chunks), old(chunks), chunks, direct, mem, nb - 8);
          return;
        }
        AddSegment(tbase, tsize);
      }
      ghost var c := chunks;
      mem := FromTop(nb);
      GrantsSame(old(chunks), c, chunks, direct, mem, nb - 8);
    }

    method FromTop(nb: nat) returns (mem: nat)
      requires Valid() && Piece(nb, Live)
      modifies `size, `cin, `pin, `chunks, `top, `topsize
      ensures mem != 0 <==> nb < old(topsize)
      ensures Valid() && (mem == 0 ==> chunks == old(chunks))
              && (mem != 0 ==> Gave(old(chunks), chunks, direct, mem, nb - 8))
    {
      mem := 0;
      if nb < topsize { mem := UseTop(nb); }
    }

    // -- Giving memory back ----------------------------------------------------

    // The test of release_unused_segments and, if it holds, an attempt to unmap.
    method ReleaseOne(i: nat) returns (gone: bool, ghost denied: bool)
      requires Sound({}) && 1 <= i < |segs|
      modifies `segs, `chunks, `dv, `dvsize, bins
      ensures Sound({}) && SameBlocks(old(chunks), chunks, direct)
      ensures segs == if gone then old(segs)[..i] + old(segs)[i + 1..] else old(segs)
      ensures gone ==> OthersStart(old(H()), H(), i)
      ensures !gone && !denied ==> chunks == old(chunks) && !Idle(chunks, segs[i])
    {
      ghost var h := H();
      ReleaseCan(h, bins.V(), direct, i);
      gone, denied := false, false;
      var p := segs[i].base;
      var psize := At(size, p);
      if p !in cin && p + psize + TOP_FOOT_SIZE >= End(segs[i]) {
        hide GoodBut, CanRelease, SameBlocks, OthersStart;
        if p == dv {
          gone := ReleaseDv(i, p, psize);
        } else {
          UnlinkTree(p, {});
          gone := ReleaseBinned(i, p, psize);
        }
        denied := !gone;
      }
    }

    // Its free chunk has been taken out of its bin.
    method ReleaseBinned(i: nat, p: nat, psize: nat) returns (gone: bool)
      requires Sound({} + {p}) && 1 <= i < |segs| && CanRelease(H(), i) && p == segs[i].base && p != dv && p in chunks
               && chunks[p] == Ck(psize, Bin)
      modifies `segs, `chunks, bins
      ensures Sound({}) && SameBlocks(old(chunks), chunks, direct)
      ensures segs == if gone then old(segs)[..i] + old(segs)[i + 1..] else old(segs)
      ensures gone ==> OthersStart(old(H()), H(), i)
    {
      ghost var h := H();
      assert {} + {p} == {p};
      ReleaseSafe(h, bins.V(), direct, i);
      OthersRemain(h, i);
      hide GoodBut, CanRelease, SameBlocks, Unneeded, OthersStart;
      gone := Munmap(p, segs[i].size, Release(h, i), direct);
      if gone {
        chunks := Release(h, i).c;
        segs := segs[..i] + segs[i + 1..];
        assert H() == Release(h, i);
      } else {
        InsertRest(p, psize);
        BlocksSame(chunks, direct);
      }
    }

    // Its free chunk is dv.
    method ReleaseDv(i: nat, p: nat, psize: nat) returns (gone: bool)
      requires Sound({}) && 1 <= i < |segs| && CanRelease(H(), i) && p == segs[i].base == dv && p in chunks
               && chunks[p] == Ck(psize, Dv)
      modifies `segs, `chunks, `dv, `dvsize, bins
      ensures Sound({}) && SameBlocks(old(chunks), chunks, direct)
      ensures segs == if gone then old(segs)[..i] + old(segs)[i + 1..] else old(segs)
      ensures gone ==> OthersStart(old(H()), H(), i)
    {
      ghost var h := H();
      ToView({});
      ReleaseSafe(h, bins.V(), direct, i);
      ReleaseDvIs(h, i);
      OthersRemain(h, i);
      SetDv(0, 0);
      gone := Munmap(p, segs[i].size, Release(h, i), direct);
      hide H, Sound, GoodBut, CanRelease, SameBlocks, Unneeded, Release, OthersStart;
      if gone {
        DropSegment(i, Release(h, i).c);
        FromView(Release(h, i), {});
      } else {
        DvToBin(h, p, psize);
      }
    }

    method DropSegment(i: nat, ghost c: Chunks)
      requires 1 <= i < |segs|
      modifies `segs, `chunks
      ensures H() == old(H()).(c := c, segs := old(segs)[..i] + old(segs)[i + 1..])
    {
      chunks := c;
      segs := segs[..i] + segs[i + 1..];
    }

    // Back out: what was dv goes to a bin.
    method DvToBin(ghost h: HV, p: nat, psize: nat)
      requires bins.base == h.st + 16 && GoodBut(h, bins.V(), direct, {}) && H() == h.(dv := 0, dvsize := 0)
      requires p == h.dv && p in h.c && h.c[p] == Ck(psize, Dv)
      modifies `chunks, bins
      ensures Sound({}) && SameBlocks(old(chunks), chunks, direct)
    {
      ChangeKind(h, bins.V(), direct, p, Bin, {});
      assert RestOut({}, p, p, Bin) == {p};
      hide GoodBut, SameBlocks, Retile, Cover;
      chunks := Retile(h, p, psize, Bin, 0, Bin).c;
      assert H() == Retile(h, p, psize, Bin, 0, Bin);
      InsertRest(p, psize);
    }

    // release_unused_segments
    method ReleaseUnused() returns (released: nat, ghost denied: bool)
      requires Sound({})
      modifies `segs, `chunks, `dv, `dvsize, `releaseChecks, bins
      ensures Valid() && SameBlocks(old(chunks), chunks, direct) && releaseChecks >= MAX_RELEASE_CHECK_RATE
      ensures !denied ==> NoneIdle(chunks, segs, |segs|)
    {
      BlocksSame(chunks, direct);
      hide GoodBut, SameBlocks, NoneIdle, OthersStart, Idle;
      released, denied := 0, false;
      var nsegs, i := 0, 1;
      NoneIdleYet(chunks, segs);
      while i < |segs|
        invariant 1 <= i && Sound({}) && SameBlocks(old(chunks), chunks, direct)
        invariant !denied ==> NoneIdle(chunks, segs, i)
        decreases |segs| - i
      {
        nsegs := nsegs + 1;
        var bytes := segs[i].size;
        ghost var h := H();
        ghost var no;
        var gone;
        gone, no := ReleaseOne(i);
        denied := denied || no;
        SameTwice(old(chunks), h.c, chunks, direct);
        if gone {
          released := released + bytes;
          if !denied { NoneIdleLess(h, H(), i); }
        } else {
          if !denied { NoneIdleMore(chunks, segs, i); }
          i := i + 1;
        }
      }
      if !denied { NoneIdleAll(chunks, segs, i); }
      releaseChecks := if nsegs > MAX_RELEASE_CHECK_RATE then nsegs else MAX_RELEASE_CHECK_RATE;
    }

    // has_segment_link
    method HasLink(i: nat) returns (linked: bool)
      requires i < |segs|
      ensures linked <==> exists j :: 0 <= j < |segs| && segs[i].base <= segs[j].rec < End(segs[i])
    {
      var j := 0;
      while j < |segs|
        invariant j <= |segs| && forall k :: 0 <= k < j ==> !(segs[i].base <= segs[k].rec < End(segs[i]))
      {
        if segs[i].base <= segs[j].rec < segs[i].base + segs[i].size { return true; }
        j := j + 1;
      }
      linked := false;
    }

    // segment_holding
    method SegmentHolding(a: nat) returns (i: nat)
      ensures i <= |segs| && (i < |segs| ==> segs[i].base <= a < End(segs[i]))
      ensures forall k :: 0 <= k < i ==> !(segs[k].base <= a < End(segs[k]))
    {
      i := 0;
      while i < |segs| && !(segs[i].base <= a < segs[i].base + segs[i].size)
        invariant i <= |segs| && forall k :: 0 <= k < i ==> !(segs[k].base <= a < End(segs[k]))
      {
        i := i + 1;
      }
    }

    // mremap in place, which unmaps the end of a region, and if it fails munmap.
    method UnmapEnd(b: nat, n: nat, ghost h: HV, ghost d: Direct) returns (ok: bool)
      requires Unneeded(h, d, b, n)
    {
      ok := Munmap(b, n, h, d);
      if !ok { ok := Munmap(b, n, h, d); }
    }

    // Shrinking top: the first half of alloc_trim.
    method TrimTop(pad: nat) returns (released: nat, ghost denied: bool)
      requires Sound({}) && topsize > pad
      modifies `top, `topsize, `size, `cin, `pin, `trimCheck, `segs, `chunks
      ensures Sound({}) && SameBlocks(old(chunks), chunks, direct) && topsize > pad
      ensures !denied && !Pinned(old(segs)) ==> topsize <= pad + DEFAULT_GRANULARITY
    {
      ghost var h := H();
      ToView({});
      ViewIs();
      hide H, Sound, GoodBut, CanResize, OffDirect, SameBlocks, Unneeded, TrimExtra, Resized;
      BlocksSame(chunks, direct);
      TrimExtraIs(topsize, pad);
      var extra := TrimExtra(topsize, pad);
      TrimSafe(h, bins.V(), direct, extra);
      TopHeld(h, bins.V(), direct, 0);
      released, denied := 0, false;
      var i := SegmentHolding(top);
      var linked := HasLink(i);
      if segs[i].size >= extra && !linked {
        var newsize := segs[i].size - extra;
        var ok := UnmapEnd(segs[i].base + newsize, extra, Resized(h, newsize), direct);
        denied := !ok;
        if ok { released := extra; }
      }
      if released != 0 { SetTopSegment(segs[i].size - released); }
    }

    // alloc_trim
    method Trim(pad: nat) returns (freed: bool, ghost denied: bool)
      requires Valid()
      modifies `top, `topsize, `size, `cin, `pin, `trimCheck, `segs, `chunks, `dv, `dvsize, `releaseChecks, bins
      ensures Valid() && SameBlocks(old(chunks), chunks, direct)
      ensures old(topsize) > pad + TOP_FOOT_SIZE ==> topsize > pad + TOP_FOOT_SIZE
      ensures pad < MAX_REQUEST && !denied ==>
                NoneIdle(chunks, segs, |segs|)
                && (Pinned(old(segs)) || topsize <= pad + TOP_FOOT_SIZE + DEFAULT_GRANULARITY)
    {
      BlocksSame(chunks, direct);
      TopSet();
      hide GoodBut, SameBlocks, NoneIdle, Pinned;
      var released := 0;
      denied := false;
      if pad < MAX_REQUEST && top != 0 {
        var reserve := pad + TOP_FOOT_SIZE;
        if topsize > reserve { released, denied := TrimTop(reserve); }
        ghost var c, no := chunks, denied;
        var more;
        more, denied := ReleaseUnused();
        denied := denied || no;
        SameTwice(old(chunks), c, chunks, direct);
        released := released + more;
        if released == 0 && topsize > trimCheck { trimCheck := TWO64 - 1; }
      }
      freed := released != 0;
    }

    lemma TopSet()
      requires Valid()
      ensures top > 0
    {
      GoodParts(H(), bins.V(), direct, {});
      TopIs(H());
    }

    // -- lj_alloc_free and lj_alloc_malloc -------------------------------------

    // lj_alloc_free
    method Free(ptr: nat) returns (ghost denied: bool)
      requires Valid() && (ptr == 0 || Cap(chunks, direct, ptr) > 0)
      modifies `top, `topsize, `size, `cin, `pin, `foot, `trimCheck, `segs, `chunks, `dv, `dvsize, `releaseChecks,
        `direct, bins
      ensures Valid()
      ensures ptr == 0 ==> H() == old(H()) && direct == old(direct)
      ensures ptr != 0 ==> Drops(old(chunks), old(direct), chunks, direct, ptr)
      ensures !denied && topsize > old(topsize) && topsize > old(trimCheck) ==>
                NoneIdle(chunks, segs, |segs|)
                && (Pinned(old(segs)) || topsize <= TOP_FOOT_SIZE + DEFAULT_GRANULARITY)
      ensures !denied && releaseChecks > old(releaseChecks) ==> NoneIdle(chunks, segs, |segs|)
      ensures forall p: nat :: p + 16 != ptr ==> (p in direct <==> p in old(direct))
    {
      denied := false;
      if ptr == 0 { return; }
      BlockIs(ptr);
      hide *;
      var p := ptr - 16;
      if p !in pin && At(foot, p) % 2 == 1 {
        FreeDirect(p);
        return;
      }
      denied := FreeHeld(p);
    }

    // A block of the heap.
    method FreeHeld(p: nat) returns (ghost denied: bool)
      requires Valid() && p in chunks && chunks[p].kind == Live
      modifies `top, `topsize, `size, `cin, `pin, `foot, `trimCheck, `segs, `chunks, `dv, `dvsize, `releaseChecks, bins
      ensures Valid() && Drops(old(chunks), direct, chunks, direct, p + 16)
      ensures !denied && topsize > old(topsize) && topsize > old(trimCheck) ==>
                NoneIdle(chunks, segs, |segs|)
                && (Pinned(old(segs)) || topsize <= TOP_FOOT_SIZE + DEFAULT_GRANULARITY)
      ensures !denied && releaseChecks > old(releaseChecks) ==> NoneIdle(chunks, segs, |segs|)
    {
      hide H, Sound, GoodBut, Cap, Took, SameBlocks, Drops, NoneIdle, Pinned;
      var what := FreeChunk(p);
      ghost var c := chunks;
      BlocksSame(chunks, direct);
      denied := FreeAfter(what);
      DropsSame(old(chunks), c, chunks, direct, p + 16);
    }

    // What the words of a block's chunk tell.
    lemma BlockIs(a: nat)
      requires Sound({}) && Cap(chunks, direct, a) > 0
      ensures a >= 16 && a % 8 == 0
      ensures a - 16 in direct <==> a - 16 !in pin && At(foot, a - 16) % 2 == 1
      ensures a - 16 in direct ==> At(foot, a - 16) == 1 && At(size, a - 16) + DIRECT_FOOT_PAD == direct[a - 16]
                                   && Cap(chunks, direct, a) + 48 == direct[a - 16]
      ensures a - 16 !in direct ==> a - 16 in chunks && chunks[a - 16].kind == Live
                                    && At(size, a - 16) == chunks[a - 16].size
                                    && Cap(chunks, direct, a) + 8 == chunks[a - 16].size
    {
      WhichBlock(H(), bins.V(), direct, a);
    }

    // munmap of a direct chunk.
    method FreeDirect(p: nat)
      requires Valid() && p in direct && At(foot, p) == 1 && At(size, p) + DIRECT_FOOT_PAD == direct[p]
      modifies `direct
      ensures Valid() && Drops(chunks, old(direct), chunks, direct, p + 16)
      ensures direct == old(direct) - {p}
    {
      DirectLess(H(), bins.V(), direct, p);
      ClearUnneeded(H(), bins.V(), direct - {p}, p, direct[p]);
      hide GoodBut, Unneeded, Drops;
      var prevsize := At(foot, p) - 1;
      var psize := At(size, p) + prevsize + DIRECT_FOOT_PAD;
      var ok := Munmap(p - prevsize, psize, H(), direct - {p});
      direct := direct - {p};
    }

    // What lj_alloc_free does besides: trimming when top has grown too large, and
    // releasing segments now and then.
    method FreeAfter(what: Freed) returns (ghost denied: bool)
      requires Valid()
      modifies `top, `topsize, `size, `cin, `pin, `trimCheck, `segs, `chunks, `dv, `dvsize, `releaseChecks, bins
      ensures Valid() && SameBlocks(old(chunks), chunks, direct)
      ensures what != IntoTop ==> topsize == old(topsize)
      ensures what == IntoTop && old(topsize) > old(trimCheck) && !denied ==>
                NoneIdle(chunks, segs, |segs|)
                && (Pinned(old(segs)) || topsize <= TOP_FOOT_SIZE + DEFAULT_GRANULARITY)
      ensures what == IntoTop && old(topsize) <= old(trimCheck) ==> topsize == old(topsize)
      ensures !denied && releaseChecks > old(releaseChecks) ==> NoneIdle(chunks, segs, |segs|)
    {
      BlocksSame(chunks, direct);
      hide GoodBut, SameBlocks, NoneIdle, Pinned;
      denied := false;
      if what == IntoTop {
        if topsize > trimCheck {
          var freed;
          freed, denied := Trim(0);
        }
      } else if what == IntoTreeBin {
        releaseChecks := releaseChecks - 1;
        if releaseChecks == 0 {
          var released;
          released, denied := ReleaseUnused();
        }
      }
    }

    // lj_alloc_malloc
    method Malloc(nsize: nat) returns (mem: nat)
      requires Valid() && nsize < TWO64
      modifies `top, `topsize, `size, `cin, `pin, `foot, `trimCheck, `segs, `chunks, `dv, `dvsize, `direct, `refused,
        bins
      ensures Valid()
      ensures mem == 0 ==> forall a: nat :: Cap(chunks, direct, a) == Cap(old(chunks), old(direct), a)
      ensures mem != 0 ==> Grants(old(chunks), old(direct), chunks, direct, mem, Cap(chunks, direct, mem))
                           && Cap(chunks, direct, mem) >= nsize
      ensures mem != 0 && mem - 16 !in direct ==> Snug(Cap(chunks, direct, mem), RequestSize(nsize))
      ensures nsize < MAX_REQUEST ==> Prefers(old(H()), RequestSize(nsize), mem)
      ensures (mem == 0 ==> Excused(nsize, old(refused), refused)) && (nsize >= MAX_REQUEST ==> mem == 0)
      ensures old(refused) <= refused
      ensures forall p: nat :: p + 16 != mem ==> (p in direct <==> p in old(direct))
    {
      var nb;
      mem := 0;
      hide GoodBut, Grants, Gave, Prefers, FromBins, PadRequest, Turned, SegmentSize;
      if nsize <= MAX_SMALL_REQUEST {
        nb := if nsize < MIN_REQUEST then MIN_CHUNK_SIZE else PadRequest(nsize);
        PaddedSmall(nsize);
        mem := MallocSmall(nb);
      } else if nsize >= MAX_REQUEST {
        nb := TWO64 - 1;
      } else {
        nb := PadRequest(nsize);
        PaddedLarge(nsize);
        mem := MallocLarge(nb);
      }
      if mem != 0 {
        GaveGrants(old(chunks), chunks, direct, mem);
        BinsPreferred(old(H()), nb, mem);
        return;
      }
      mem := MallocRest(nb);
      if nsize < MAX_REQUEST { RestPreferred(old(H()), nb, mem); }
    }

    // From dv, from top, or from the system.
    method MallocRest(nb: nat) returns (mem: nat)
      requires Valid() && nb < TWO64 && (Piece(nb, Live) || nb == TWO64 - 1)
      modifies `top, `topsize, `size, `cin, `pin, `foot, `trimCheck, `segs, `chunks, `dv, `dvsize, `direct, `refused,
        bins
      ensures Valid() && (nb == TWO64 - 1 ==> mem == 0) && (nb <= old(dvsize) ==> mem == old(dv) + 16)
      ensures old(dvsize) < nb < old(topsize) ==> mem == old(top) + 16
      ensures mem == 0 ==> forall a: nat :: Cap(chunks, direct, a) == Cap(old(chunks), old(direct), a)
      ensures mem != 0 ==> Grants(old(chunks), old(direct), chunks, direct, mem, Cap(chunks, direct, mem))
                           && Cap(chunks, direct, mem) + 8 >= nb
      ensures mem != 0 && mem - 16 !in direct ==> Snug(Cap(chunks, direct, mem), nb)
      ensures mem == 0 ==> Unmappable(nb) || Turned(old(refused), refused, SegmentSize(nb))
      ensures old(refused) <= refused
      ensures forall p: nat :: p + 16 != mem ==> (p in direct <==> p in old(direct))
    {
      DvFits(nb);
      hide GoodBut, Grants, Gave;
      if nb <= dvsize {
        mem := UseDv(nb);
        GaveGrants(old(chunks), chunks, direct, mem);
      } else if nb < topsize {
        mem := UseTop(nb);
        GaveGrants(old(chunks), chunks, direct, mem);
      } else {
        mem := AllocSys(nb);
      }
    }

    // A large request is met from the tree bins unless dv is better.
    method MallocLarge(nb: nat) returns (mem: nat)
      requires Valid() && MIN_LARGE_SIZE <= nb < TWO64 && nb % 8 == 0
      modifies `size, `cin, `pin, `foot, `chunks, bins
      ensures Valid() && FromBins(old(H()), nb, mem) && (mem == 0 ==> H() == old(H()))
      ensures mem != 0 ==> Gave(old(chunks), chunks, direct, mem, Cap(chunks, direct, mem))
                           && Snug(Cap(chunks, direct, mem), nb)
    {
      mem := 0;
      if bins.treemap != {} {
        mem := TmallocLarge(nb);
      } else {
        NoTrees(H(), bins.V(), direct, nb);
      }
    }

    // A small request is met from a small bin that fits almost exactly, else, if
    // dv is too small, from the next small bin or from the tree bins.
    method MallocSmall(nb: nat) returns (mem: nat)
      requires Valid() && nb % 8 == 0 && 32 <= nb < MIN_LARGE_SIZE
      modifies `size, `cin, `pin, `foot, `chunks, `dv, `dvsize, bins
      ensures Valid() && FromBins(old(H()), nb, mem) && (mem == 0 ==> H() == old(H()))
      ensures mem != 0 ==> Gave(old(chunks), chunks, direct, mem, Cap(chunks, direct, mem))
                           && Snug(Cap(chunks, direct, mem), nb)
    {
      var idx := nb / 8;
      ghost var h, bv := H(), bins.V();
      hide GoodBut, Gave, AtLeast, NoneNear, NoneBinned, BinAt;
      mem := 0;
      if idx in bins.smallmap || idx + 1 in bins.smallmap {
        var i := if idx in bins.smallmap then idx else idx + 1;
        SmallFrom(h, bv, direct, nb, i);
        mem := FromSmallBin(i, nb);
      } else {
        NothingNear(h, bv, direct, nb);
        if nb > dvsize { mem := MallocNext(nb); }
      }
    }

    // No small bin fits almost exactly and dv is too small.
    method MallocNext(nb: nat) returns (mem: nat)
      requires Valid() && nb % 8 == 0 && 32 <= nb < MIN_LARGE_SIZE && dvsize < nb
      modifies `size, `cin, `pin, `foot, `chunks, `dv, `dvsize, bins
      ensures Valid() && (mem == 0 ==> H() == old(H()) && NoneBinned(chunks, nb))
      ensures mem != 0 ==> mem >= 16 && Least(old(chunks), nb, mem - 16)
      ensures mem != 0 ==> Gave(old(chunks), chunks, direct, mem, Cap(chunks, direct, mem))
                           && Snug(Cap(chunks, direct, mem), nb)
    {
      ghost var h, bv := H(), bins.V();
      hide GoodBut, Gave, AtLeast, NoneBinned, BinAt, Best;
      mem := 0;
      var i := AllocFit.FirstFrom(bins.smallmap, nb / 8);
      SmallFrom(h, bv, direct, nb, i);
      if i < NSMALLBINS {
        mem := FromLargerBin(i, nb);
      } else if bins.treemap != {} {
        mem := TmallocSmall(nb);
        BestLeast(h, bv, direct, nb, mem - 16);
      } else {
        TreesEmpty(h, bv, direct, nb);
      }
    }

    // The first chunk of bin i, whole.
    method FromSmallBin(i: nat, nb: nat) returns (mem: nat)
      requires Valid() && i in bins.smallmap && nb <= 8 * i <= nb + 8 && nb >= 32
      modifies `size, `cin, `pin, `chunks, bins
      ensures Valid() && mem >= 16 && BinAt(old(chunks), mem - 16) && old(chunks)[mem - 16].size == 8 * i
      ensures Gave(old(chunks), chunks, direct, mem, Cap(chunks, direct, mem)) && Snug(Cap(chunks, direct, mem), nb)
    {
      var p := TakeSmallBin(i);
      assert {} + {p} == {p};
      UseWhole(p, 8 * i);
      mem := p + 16;
    }

    // The first chunk of the larger bin i; what is left becomes dv.
    method FromLargerBin(i: nat, nb: nat) returns (mem: nat)
      requires Valid() && i in bins.smallmap && nb <= 8 * i && nb >= 32 && nb % 8 == 0 && dvsize < nb < MIN_LARGE_SIZE
      modifies `size, `cin, `pin, `foot, `chunks, `dv, `dvsize, bins
      ensures Valid() && mem >= 16 && BinAt(old(chunks), mem - 16) && old(chunks)[mem - 16].size == 8 * i
      ensures Gave(old(chunks), chunks, direct, mem, Cap(chunks, direct, mem)) && Snug(Cap(chunks, direct, mem), nb)
    {
      var p := TakeSmallBin(i);
      CarveDv(p, nb, 8 * i - nb);
      mem := p + 16;
    }

    lemma DvFits(nb: nat)
      requires Valid()
      ensures dvsize < SIZE_LIMIT && topsize < SIZE_LIMIT
    {
      DvIs(H(), bins.V(), direct, {});
      GoodParts(H(), bins.V(), direct, {});
      TopIs(H());
    }

    // -- lj_alloc_realloc ------------------------------------------------------

    method CutHeads(p: nat, nb: nat, rest: nat, ghost c: Chunks)
      modifies `size, `cin, `pin, `chunks
      ensures var h, r := old(H()), p + nb;
              H() == h.(c := c, size := h.size[p := nb][r := rest], cin := h.cin + {p} + {r},
                pin := h.pin + {r} + {r + rest})
    {
      SetInuse(p, nb);
      SetInuse(p + nb, rest);
      chunks := c;
    }

    // A block is cut down to nb bytes and the rest is freed.
    method ShrinkBlock(p: nat, nb: nat, rest: nat)
      requires Valid() && p in chunks && chunks[p] == Ck(nb + rest, Live) && Piece(nb, Live) && Piece(rest, Live)
      modifies `top, `topsize, `size, `cin, `pin, `foot, `trimCheck, `segs, `chunks, `dv, `dvsize, `releaseChecks,
        `direct, bins
      ensures Valid() && Cap(chunks, direct, p + 16) == nb - 8
      ensures forall a: nat :: a != p + 16 ==> Cap(chunks, direct, a) == Cap(old(chunks), old(direct), a)
    {
      CutBlock(p, nb, rest);
      hide H, Sound, GoodBut, Cap;
      ghost var denied := Free(p + nb + 16);
    }

    // Both parts are used, for a moment.
    method CutBlock(p: nat, nb: nat, rest: nat)
      requires Valid() && p in chunks && chunks[p] == Ck(nb + rest, Live) && Piece(nb, Live) && Piece(rest, Live)
      modifies `size, `cin, `pin, `chunks
      ensures Valid() && Cap(chunks, direct, p + 16) == nb - 8 && Cap(chunks, direct, p + nb + 16) > 0
              && Cap(old(chunks), direct, p + nb + 16) == 0
      ensures forall a: nat :: a != p + 16 && a != p + nb + 16 ==> Cap(chunks, direct, a) == Cap(old(chunks), direct, a)
    {
      ToView({});
      ViewIs();
      CutOk(H(), bins.V(), direct, p, nb, rest);
      CutFree(p, nb, rest, direct);
      ghost var g := Retile(H(), p, nb, Live, rest, Live);
      hide H, Sound, GoodBut, Retile, Cover, Cap;
      CutHeads(p, nb, rest, g.c);
      FromView(g, {});
    }

    lemma CutFree(p: nat, nb: nat, rest: nat, d: Direct)
      requires Valid() && d == direct && p in chunks && chunks[p] == Ck(nb + rest, Live) && nb >= 32 && rest >= 32
      ensures Cap(chunks, direct, p + nb + 16) == 0
    {
      GoodParts(H(), bins.V(), direct, {});
      ChunkFacts(H(), p);
      assert Placed(chunks, segs, top, p);
      DirectOutside(H(), direct, p, p + nb + rest, p + nb);
    }

    method ExtendHeads(p: nat, nb: nat, rest: nat, ghost c: Chunks)
      requires nb > 0
      modifies `size, `cin, `pin, `chunks, `top, `topsize
      ensures var h, r := old(H()), p + nb;
              H() == h.(c := c, size := h.size[p := nb][r := rest], cin := h.cin + {p} - {r}, pin := h.pin + {r},
                top := r, topsize := rest)
    {
      SetInuse(p, nb);
      SetTopHead(p + nb, rest);
      top := p + nb;
      topsize := rest;
      chunks := c;
      assert old(pin) + {p + nb} + {p + nb} == old(pin) + {p + nb};
    }

    // A block grows into top.
    method ExtendBlock(p: nat, nb: nat)
      requires Valid() && p in chunks && chunks[p].kind == Live && top == p + chunks[p].size && Piece(nb, Live)
               && nb < chunks[p].size + topsize
      modifies `size, `cin, `pin, `chunks, `top, `topsize
      ensures Valid() && Cap(chunks, direct, p + 16) == nb - 8
      ensures forall a: nat :: a != p + 16 ==> Cap(chunks, direct, a) == Cap(old(chunks), direct, a)
    {
      ToView({});
      ViewIs();
      ExtendOk(H(), bins.V(), direct, p, nb);
      var newtopsize := At(size, p) + topsize - nb;
      LiveSize(p);
      ghost var g := Retile(H(), p, nb, Live, newtopsize + TOP_FOOT_SIZE, Top);
      hide H, Sound, GoodBut, Retile, Cover, Cap;
      ExtendHeads(p, nb, newtopsize, g.c);
      FromView(g, {});
    }

    lemma LiveSize(p: nat)
      requires Valid() && p in chunks && chunks[p].kind == Live
      ensures At(size, p) == chunks[p].size
    {
      GoodParts(H(), bins.V(), direct, {});
      ChunkFacts(H(), p);
    }

    method Memcpy(dst: nat, src: nat, n: nat)
      requires Misses(dst, n, src, n)
      modifies `data
      ensures forall x: nat :: dst <= x < dst + n ==> At(data, x) == At(old(data), src + (x - dst))
      ensures forall x: nat :: !(dst <= x < dst + n) ==> At(data, x) == At(old(data), x)
    {
      var k := 0;
      while k < n
        invariant k <= n
        invariant forall x: nat :: dst <= x < dst + k ==> At(data, x) == At(old(data), src + (x - dst))
        invariant forall x: nat :: !(dst <= x < dst + k) ==> At(data, x) == At(old(data), x)
      {
        assert At(data, src + k) == At(old(data), src + k);
        ghost var before := data;
        data := data[dst + k := At(data, src + k)];
        forall x: nat | dst <= x < dst + k + 1
          ensures At(data, x) == At(old(data), src + (x - dst))
        {
          if x < dst + k { assert At(data, x) == At(before, x); }
        }
        k := k + 1;
      }
    }

    // mremap of a direct chunk, which may move it with its bytes and its prev_foot.
    method Mremap(b: nat, osz: nat, nsz: nat) returns (cp: nat)
      requires b in direct && direct[b] == osz
      modifies `data, `foot, `refused
      ensures refused == if cp == 0 then old(refused) + [nsz] else old(refused)
      ensures H() == old(H()).(foot := foot)
      ensures cp == 0 ==> data == old(data) && foot == old(foot)
      ensures cp != 0 ==>
                && nsz > 0 && cp % 8 == 0 && cp + nsz < TWO64 && ClearAll(segs, cp, nsz)
                   && OffDirect(direct - {b}, cp, nsz)
                && foot == old(foot)[cp := At(old(foot), b)]
                && (forall x: nat :: cp <= x < cp + Min(osz, nsz) ==> At(data, x) == At(old(data), b + (x - cp)))
                && (forall x: nat :: !(cp <= x < cp + nsz) ==> At(data, x) == At(old(data), x))
    {
      cp := *;
      if cp <= 0 || nsz == 0 || cp % PAGE != 0 || cp + nsz >= TWO64
        || !Unmapped(segs, direct - {b}, cp, nsz) {
        refused := refused + [nsz];
        return 0;
      }
      PageEight(cp);
      foot := foot[cp := At(foot, b)];
      var was: Links, k: nat := data, 0;
      while k < Min(osz, nsz)
        invariant k <= Min(osz, nsz) && refused == old(refused) && foot == old(foot)[cp := At(old(foot), b)]
        invariant forall x: nat :: cp <= x < cp + k ==> At(data, x) == At(was, b + (x - cp))
        invariant forall x: nat :: !(cp <= x < cp + k) ==> At(data, x) == At(was, x)
      {
        ghost var before := data;
        data := data[cp + k := At(was, b + k)];
        forall x: nat | cp <= x < cp + k + 1
          ensures At(data, x) == At(was, b + (x - cp))
        {
          if x < cp + k { assert At(data, x) == At(before, x); }
        }
        k := k + 1;
      }
    }

    // direct_resize
    method DirectResize(oldp: nat, nb: nat, ghost n: nat) returns (newp: nat)
      requires Valid() && oldp in direct && At(foot, oldp) == 1 && At(size, oldp) + DIRECT_FOOT_PAD == direct[oldp]
               && oldp % 8 == 0
      requires nb + 64 < TWO64 && 0 < n && n + 8 <= nb && Cap(chunks, direct, oldp + 16) + 48 == direct[oldp]
      modifies `size, `cin, `pin, `foot, `direct, `data, `refused
      ensures Valid()
      ensures if newp == 0 && !IsSmall(nb) then refused == old(refused) + [DirectSize(nb)] else refused == old(refused)
      ensures !IsSmall(nb) && nb + 8 <= old(At(size, oldp)) <= nb + DEFAULT_GRANULARITY / 2 ==> newp == oldp
      ensures newp == 0 ==> H() == old(H()) && direct == old(direct) && data == old(data)
      ensures newp != 0 ==> Reallocs(old(chunks), old(direct), old(data), chunks, direct, data, oldp + 16, n, newp + 16)
      ensures newp != 0 ==> newp in direct
    {
      var oldsize := At(size, oldp);
      if IsSmall(nb) { return 0; }
      if oldsize >= nb + 8 && oldsize - nb <= DEFAULT_GRANULARITY / 2 {
        InPlaceReallocs(chunks, direct, chunks, direct, data, oldp + 16, n);
        return oldp;
      }
      newp := DirectMoved(oldp, oldsize, nb, n);
    }

    // By mremap.
    method DirectMoved(oldp: nat, oldsize: nat, nb: nat, ghost n: nat) returns (newp: nat)
      requires Valid() && oldp in direct && At(foot, oldp) == 1 && oldsize + DIRECT_FOOT_PAD == direct[oldp]
      requires nb + 64 < TWO64 && 0 < n && n + 8 <= nb
      modifies `size, `cin, `pin, `foot, `direct, `data, `refused
      ensures Valid()
      ensures refused == if newp == 0 then old(refused) + [DirectSize(nb)] else old(refused)
      ensures newp == 0 ==> H() == old(H()) && direct == old(direct) && data == old(data)
      ensures newp != 0 ==> Reallocs(old(chunks), old(direct), old(data), chunks, direct, data, oldp + 16, n, newp + 16)
      ensures newp != 0 ==> newp in direct
    {
      var offset := At(foot, oldp) - 1;
      MmapNonzero(nb);
      hide *;
      newp := Remap(oldp, oldp - offset, oldsize + offset + DIRECT_FOOT_PAD, DirectSize(nb), n);
      if newp != 0 { newp := newp + offset; }
    }

    method Remap(p: nat, b: nat, osz: nat, nsz: nat, ghost n: nat) returns (newp: nat)
      requires Valid() && b == p && p in direct && direct[p] == osz && 0 < n
      requires nsz > 0 ==> nsz >= n + 48 && nsz % 8 == 0
      modifies `size, `cin, `pin, `foot, `direct, `data, `refused
      ensures Valid()
      ensures refused == if newp == 0 then old(refused) + [nsz] else old(refused)
      ensures newp == 0 ==> H() == old(H()) && direct == old(direct) && data == old(data)
      ensures newp != 0 ==> Reallocs(old(chunks), old(direct), old(data), chunks, direct, data, p + 16, n, newp + 16)
      ensures newp != 0 ==> newp in direct
    {
      ghost var h, was := H(), data;
      ToView({});
      ViewIs();
      hide H, Sound, GoodBut, Reallocs, ClearAll, OffDirect, Cap, Min;
      newp := Mremap(b, osz, nsz);
      if newp != 0 { Settle(h, p, newp, nsz, was, n); } else { FromView(h, {}); }
    }

    method MoveDirect(p: nat, q: nat, mmsize: nat)
      modifies `direct
      ensures H() == old(H()) && direct == (old(direct) - {p})[q := mmsize]
    {
      direct := (direct - {p})[q := mmsize];
    }

    // The direct chunk of the heap h has been moved from p to q and gets its new heads.
    method Settle(ghost h: HV, p: nat, q: nat, mmsize: nat, ghost b: Links, ghost n: nat)
      requires H() == h.(foot := h.foot[q := 1]) && bins.base == h.st + 16 && Good(h, bins.V(), direct)
               && releaseChecks > 0
      requires p in direct && ClearAll(h.segs, q, mmsize) && OffDirect(direct - {p}, q, mmsize)
      requires q > 0 && q % 8 == 0 && mmsize % 8 == 0 && q + mmsize < TWO64 && mmsize >= n + 48 && n > 0
      requires forall x: nat :: q <= x < q + Min(direct[p], mmsize) ==> At(data, x) == At(b, p + (x - q))
      requires forall x: nat :: !(q <= x < q + mmsize) ==> At(data, x) == At(b, x)
      modifies `size, `cin, `pin, `direct
      ensures Valid() && Reallocs(h.c, old(direct), b, chunks, direct, data, p + 16, n, q + 16) && q in direct
    {
      hide H, GoodBut, Reallocs, WroteIn, DirectTag, ClearAll, OffDirect, DirectWords, Min, Sound;
      DirectHeads(h, q, mmsize);
      DirectWordsOk(h, q, mmsize);
      DirectMove(h, H(), bins.V(), direct, p, q, mmsize, b, data, n);
      MoveDirect(p, q, mmsize);
      FromView(DirectWords(h, q, mmsize), {});
    }

    // lj_alloc_realloc
    method Realloc(ptr: nat, nsize: nat) returns (mem: nat)
      requires Valid() && 0 < nsize < TWO64 && Cap(chunks, direct, ptr) > 0
      modifies `top, `topsize, `size, `cin, `pin, `foot, `trimCheck, `segs, `chunks, `dv, `dvsize, `releaseChecks,
        `direct, `data, `refused, bins
      ensures Valid()
      ensures Reallocs(old(chunks), old(direct), old(data), chunks, direct, data, ptr, nsize, mem)
      ensures nsize < MAX_REQUEST && ptr - 16 !in old(direct) && FitsInPlace(old(H()), ptr - 16, RequestSize(nsize))
              ==> mem == ptr
      ensures (mem == 0 ==> Excused(nsize, old(refused), refused)) && old(refused) <= refused
      ensures mem != 0 && mem - 16 !in direct ==> Snug(Cap(chunks, direct, mem), RequestSize(nsize))
    {
      mem := 0;
      if nsize >= MAX_REQUEST { return; }
      hide Valid, Reallocs, Cap, H, FitsInPlace, Excused, RequestSize, Snug;
      mem := ReallocHere(ptr, nsize);
      if mem == 0 { mem := MoveBlock(ptr, nsize); }
    }

    // Without a new block: by mremap, by cutting off the end or by growing into top.
    method ReallocHere(ptr: nat, nsize: nat) returns (mem: nat)
      requires Valid() && 0 < nsize < MAX_REQUEST && Cap(chunks, direct, ptr) > 0
      modifies `top, `topsize, `size, `cin, `pin, `foot, `trimCheck, `segs, `chunks, `dv, `dvsize, `releaseChecks,
        `direct, `data, `refused, bins
      ensures Valid() && old(refused) <= refused
      ensures mem == 0 ==> H() == old(H()) && direct == old(direct) && data == old(data)
      ensures mem != 0 ==> Reallocs(old(chunks), old(direct), old(data), chunks, direct, data, ptr, nsize, mem)
      ensures ptr - 16 !in old(direct) && FitsInPlace(old(H()), ptr - 16, RequestSize(nsize)) ==> mem == ptr
      ensures mem != 0 && mem - 16 !in direct ==> Snug(Cap(chunks, direct, mem), RequestSize(nsize))
    {
      hide *;
      ReallocReads(ptr, nsize);
      var oldp := ptr - 16;
      var nb := RequestSize(nsize);
      if oldp !in pin && At(foot, oldp) % 2 == 1 {
        var newp := DirectResize(oldp, nb, nsize);
        return if newp != 0 then newp + 16 else 0;
      }
      var newp := ResizeBlock(oldp, nb, nsize);
      return if newp != 0 then newp + 16 else 0;
    }

    // What the words of the chunk tell, and the size it is to have.
    lemma ReallocReads(a: nat, n: nat)
      requires Valid() && n < MAX_REQUEST && Cap(chunks, direct, a) > 0
      ensures a >= 16 && a % 8 == 0
      ensures a - 16 in direct <==> a - 16 !in pin && At(foot, a - 16) % 2 == 1
      ensures a - 16 in direct ==> At(foot, a - 16) == 1 && At(size, a - 16) + DIRECT_FOOT_PAD == direct[a - 16]
                                   && Cap(chunks, direct, a) + 48 == direct[a - 16]
      ensures a - 16 !in direct ==> a - 16 in chunks && chunks[a - 16].kind == Live
                                    && At(size, a - 16) == chunks[a - 16].size
      ensures var nb := RequestSize(n);
              nb % 8 == 0 && nb >= 32 && nb >= n + 8 && nb + 64 < TWO64 && Piece(nb, Live)
    {
      BlockIs(a);
      Padded(n);
    }

    // In place, by cutting off the end or growing into top; 0 if neither works.
    method ResizeBlock(oldp: nat, nb: nat, ghost n: nat) returns (newp: nat)
      requires Valid() && oldp in chunks && chunks[oldp].kind == Live && oldp !in direct && Piece(nb, Live) && 0 < n
               && n + 8 <= nb
      requires At(size, oldp) == chunks[oldp].size
      modifies `top, `topsize, `size, `cin, `pin, `foot, `trimCheck, `segs, `chunks, `dv, `dvsize, `releaseChecks,
        `direct, bins
      ensures Valid() && (newp == 0 ==> H() == old(H()) && direct == old(direct))
      ensures newp != 0 <==> FitsInPlace(old(H()), oldp, nb)
      ensures newp != 0 ==> newp == oldp && Reallocs(old(chunks), old(direct), data, chunks, direct, data, oldp + 16, n,
              oldp + 16)
      ensures newp != 0 ==> Snug(Cap(chunks, direct, newp + 16), nb)
    {
      BlockFacts(oldp);
      var oldsize := At(size, oldp);
      var next := oldp + oldsize;
      hide GoodBut, Reallocs;
      newp := 0;
      if oldsize >= nb {
        var rsize := oldsize - nb;
        if rsize >= MIN_CHUNK_SIZE { ShrinkBlock(oldp, nb, rsize); }
        InPlaceReallocs(old(chunks), old(direct), chunks, direct, data, oldp + 16, n);
        newp := oldp;
      } else if next == top && oldsize + topsize > nb {
        ExtendBlock(oldp, nb);
        InPlaceReallocs(old(chunks), old(direct), chunks, direct, data, oldp + 16, n);
        newp := oldp;
      }
    }

    lemma BlockFacts(p: nat)
      requires Valid() && p in chunks && chunks[p].kind == Live && p !in direct
      ensures p > 0 && p % 8 == 0 && chunks[p].size % 8 == 0 && chunks[p].size >= 32
              && Cap(chunks, direct, p + 16) == chunks[p].size - 8
    {
      GoodParts(H(), bins.V(), direct, {});
      ChunkFacts(H(), p);
    }

    // Elsewhere: malloc, copy and free.
    method MoveBlock(ptr: nat, nsize: nat) returns (mem: nat)
      requires Valid() && 0 < nsize < MAX_REQUEST && Cap(chunks, direct, ptr) > 0
      modifies `top, `topsize, `size, `cin, `pin, `foot, `trimCheck, `segs, `chunks, `dv, `dvsize, `releaseChecks,
        `direct, `data, `refused, bins
      ensures Valid() && Reallocs(old(chunks), old(direct), old(data), chunks, direct, data, ptr, nsize, mem)
      ensures (mem == 0 ==> Excused(nsize, old(refused), refused)) && old(refused) <= refused
      ensures mem != 0 && mem - 16 !in direct ==> Snug(Cap(chunks, direct, mem), RequestSize(nsize))
    {
      var oldp := ptr - 16;
      var oldsize := At(size, oldp);
      BlockIs(ptr);
      hide H, Sound, GoodBut, Reallocs, Grants, Cap, Prefers, Excused, RequestSize, Snug;
      mem := Malloc(nsize);
      if mem != 0 {
        GrantsOther(old(chunks), old(direct), chunks, direct, mem, ptr);
        BlockIs(ptr);
        var overhead := if oldp !in pin && At(foot, oldp) % 2 == 1 then 16 else 8;
        var oc := oldsize - overhead;
        CopyFree(ptr, nsize, mem, oc, old(chunks), old(direct));
      } else {
        NothingReallocs(old(chunks), old(direct), chunks, direct, data, ptr, nsize);
      }
    }

    // memcpy of what fits, and free.
    method CopyFree(ptr: nat, nsize: nat, mem: nat, oc: nat, ghost c: Chunks, ghost d: Direct)
      requires Valid() && Grants(c, d, chunks, direct, mem, Cap(chunks, direct, mem))
               && Cap(chunks, direct, mem) >= nsize > 0 && mem > 0
      requires oc == Cap(c, d, ptr) > 0
      modifies `top, `topsize, `size, `cin, `pin, `foot, `trimCheck, `segs, `chunks, `dv, `dvsize, `releaseChecks,
        `direct, `data, bins
      ensures Valid() && Reallocs(c, d, old(data), chunks, direct, data, ptr, nsize, mem)
      ensures Cap(chunks, direct, mem) == Cap(old(chunks), old(direct), mem)
      ensures mem - 16 in direct <==> mem - 16 in old(direct)
    {
      ghost var h, bv, d1, b := H(), bins.V(), direct, data;
      BlocksApart(h, bv, d1, mem, ptr);
      var m := if oc < nsize then oc else nsize;
      Memcpy(mem, ptr, m);
      ghost var denied := Free(ptr);
      hide GoodBut, Reallocs;
      CopyReallocs(h, bv, c, d, d1, b, chunks, direct, data, ptr, nsize, mem, m);
    }
    // A program writes to its memory.
    method Poke(a: nat, v: nat)
      requires Valid()
      modifies `data
      ensures Valid() && data == old(data)[a := v]
    {
      data := data[a := v];
    }

    // lj_alloc_f
    method AllocF(ptr: nat, nsize: nat) returns (mem: nat)
      requires Valid() && nsize < TWO64 && (ptr == 0 || Cap(chunks, direct, ptr) > 0)
      modifies `top, `topsize, `size, `cin, `pin, `foot, `trimCheck, `segs, `chunks, `dv, `dvsize, `releaseChecks,
        `direct, `data, `refused, bins
      ensures Valid()
      ensures Serves(old(chunks), old(direct), old(data), chunks, direct, data, ptr, nsize, mem)
      ensures (mem == 0 && nsize > 0 ==> Excused(nsize, old(refused), refused)) && old(refused) <= refused
    {
      hide Valid, Reallocs;
      if nsize == 0 {
        ghost var denied := Free(ptr);
        mem := 0;
      } else if ptr == 0 {
        mem := Malloc(nsize);
      } else {
        mem := Realloc(ptr, nsize);
      }
    }
  }

  const MAX_SMALL_REQUEST: nat := 240
  const MIN_REQUEST: nat := 23

  // pad_request, which wraps
  function PadRequest(n: nat): nat { (n + 15) % TWO64 / 8 * 8 }

  // request2size
  function RequestSize(n: nat): nat { if n < MIN_REQUEST then MIN_CHUNK_SIZE else PadRequest(n) }

  // The block at p is long enough, or it is next to a top that is.
  ghost predicate FitsInPlace(h: HV, p: nat, nb: nat) {
    p in h.c && (nb <= h.c[p].size || (p + h.c[p].size == h.top && nb < h.c[p].size + h.topsize))
  }

  lemma Padded(n: nat)
    requires n < MAX_REQUEST
    ensures var nb := if n < MIN_REQUEST then MIN_CHUNK_SIZE
            else PadRequest(n); nb % 8 == 0 && nb >= 32 && nb >= n + 8 && nb + 64 < TWO64 && Piece(nb, Live)
  {
    Rounded((n + 15) / 8, n);
  }

  lemma PaddedSmall(n: nat)
    requires n <= MAX_SMALL_REQUEST
    ensures var nb := if n < MIN_REQUEST then MIN_CHUNK_SIZE
            else PadRequest(n); nb % 8 == 0 && 32 <= nb < 256 && nb >= n + 8
  {
  }

  lemma PaddedLarge(n: nat)
    requires MAX_SMALL_REQUEST < n < MAX_REQUEST
    ensures PadRequest(n) % 8 == 0 && 256 <= PadRequest(n) < TWO64 && PadRequest(n) >= n + 8
  {
    Rounded((n + 15) / 8, n);
  }

  lemma Rounded(k: nat, n: nat)
    requires k == (n + 15) / 8
    ensures k * 8 % 8 == 0 && k * 8 <= n + 15 < k * 8 + 8
  {
  }

  lemma GaveCap(c: Chunks, c': Chunks, d: Direct, mem: nat, cap: nat)
    requires Gave(c, c', d, mem, cap)
    ensures Cap(c', d, mem) == cap
  {
  }

  lemma GrantsCap(c: Chunks, d: Direct, c': Chunks, d': Direct, mem: nat, cap: nat)
    requires Grants(c, d, c', d', mem, cap)
    ensures Cap(c', d', mem) == cap
  {
  }

  lemma GaveGrants(c: Chunks, c': Chunks, d: Direct, mem: nat)
    requires Gave(c, c', d, mem, Cap(c', d, mem))
    ensures Grants(c, d, c', d, mem, Cap(c', d, mem))
  {
  }

  // Without trees only dv may fit a large request.
  lemma NoTrees(h: HV, bv: BV, d: Direct, nb: nat)
    requires Good(h, bv, d) && bv.treemap == {}
    ensures if h.dvsize >= nb && nb > 0 then Best(h.c, nb, h.dv) else nb > 0 ==> NoneFits(h.c, nb)
  {
    GoodParts(h, bv, d, {});
    DvIs(h, bv, d, {});
    forall x: nat | Candidate(h.c, x)
      ensures x == h.dv
    {
      if h.c[x].kind == Bin {
        NoTree(h, bv, d, x);
      } else {
        DvOnly(h, bv, d, x);
      }
    }
    hide GoodBut, HeapOk, BinsOk;
  }

  lemma NoTree(h: HV, bv: BV, d: Direct, x: nat)
    requires Good(h, bv, d) && bv.treemap == {} && BinAt(h.c, x)
    ensures IsSmall(h.c[x].size)
  {
    GoodParts(h, bv, d, {});
    BinSize(h, bv, d, x);
    BinnedMember(bv, h.st + 16, h.size, x);
    if !IsSmall(At(h.size, x)) { AllocFit.BinTree(bv, h.st + 16, h.size, TreeIndex(At(h.size, x))); }
    hide GoodBut, HeapOk, BinsOk;
  }

  // The small bins from nb's on are empty up to bin i.
  lemma SmallFrom(h: HV, bv: BV, d: Direct, nb: nat, i: nat)
    requires Good(h, bv, d) && i <= NSMALLBINS && forall j :: nb / 8 <= j < i ==> j !in bv.smallmap
    ensures AtLeast(h.c, nb, 8 * i)
  {
    GoodParts(h, bv, d, {});
    forall x: nat | BinAt(h.c, x) && h.c[x].size >= nb
      ensures h.c[x].size >= 8 * i
    {
      BinSize(h, bv, d, x);
      BinnedMember(bv, h.st + 16, h.size, x);
      if IsSmall(h.c[x].size) { assert SmallOk(bv, h.st + 16, h.size, h.c[x].size / 8); }
    }
    hide GoodBut, HeapOk, BinsOk;
  }

  // The tree bins are empty.
  lemma TreesEmpty(h: HV, bv: BV, d: Direct, nb: nat)
    requires Good(h, bv, d) && bv.treemap == {} && AtLeast(h.c, nb, 256)
    ensures NoneBinned(h.c, nb)
  {
    forall x: nat | BinAt(h.c, x) ensures h.c[x].size < nb { NoTree(h, bv, d, x); }
    hide GoodBut;
  }

  lemma NothingNear(h: HV, bv: BV, d: Direct, nb: nat)
    requires Good(h, bv, d) && nb < MIN_LARGE_SIZE && nb % 8 == 0 && nb / 8 !in bv.smallmap
             && nb / 8 + 1 !in bv.smallmap
    ensures NoneNear(h.c, nb)
  {
    if nb + 8 < MIN_LARGE_SIZE { SmallFrom(h, bv, d, nb, nb / 8 + 2); } else { SmallFrom(h, bv, d, nb, nb / 8 + 1); }
    hide GoodBut;
  }

  lemma BestLeast(h: HV, bv: BV, d: Direct, nb: nat, v: nat)
    requires Good(h, bv, d) && Best(h.c, nb, v) && AtLeast(h.c, nb, 256) && h.dvsize < nb
    ensures Least(h.c, nb, v)
  {
    if h.c[v].kind == Dv { DvOnly(h, bv, d, v); }
    forall x: nat | BinAt(h.c, x) && h.c[x].size >= nb
      ensures h.c[x].size >= h.c[v].size
    {
      assert Candidate(h.c, x);
    }
    hide GoodBut;
  }

  // What the bins yield; 0 means that dv, top or the system must do.
  ghost predicate FromBins(h: HV, nb: nat, mem: nat) {
    if IsSmall(nb) then
      && (mem != 0 ==> mem >= 16 && Least(h.c, nb, mem - 16)
                       && ((IsSmall(h.c[mem - 16].size) && h.c[mem - 16].size <= nb + 8) || h.dvsize < nb))
      && (mem == 0 ==> NoneNear(h.c, nb) && (h.dvsize < nb ==> NoneBinned(h.c, nb)))
    else if mem != 0 then mem >= 16 && Best(h.c, nb, mem - 16)
    else if h.dvsize >= nb then Best(h.c, nb, h.dv)
    else NoneFits(h.c, nb)
  }

  lemma BinsPreferred(h: HV, nb: nat, mem: nat)
    requires FromBins(h, nb, mem) && mem != 0
    ensures Prefers(h, nb, mem)
  {
  }

  lemma RestPreferred(h: HV, nb: nat, mem: nat)
    requires FromBins(h, nb, 0) && (nb <= h.dvsize ==> mem == h.dv + 16)
             && (h.dvsize < nb < h.topsize ==> mem == h.top + 16)
    ensures Prefers(h, nb, mem)
  {
  }

  // A request that must go to the system finds no free memory of its size.
  lemma PrefersFree(h: HV, bv: BV, d: Direct, nb: nat)
    requires Good(h, bv, d) && Prefers(h, nb, 0)
    ensures NoRoom(h.c, nb)
  {
    GoodParts(h, bv, d, {});
    TopIs(h);
    DvIs(h, bv, d, {});
    forall x | x in h.c && h.c[x].kind == Dv ensures h.c[x].size < nb { DvOnly(h, bv, d, x); }
    forall x | x in h.c && h.c[x].kind == Top ensures h.c[x].size <= nb + TOP_FOOT_SIZE { ChunkFacts(h, x); }
    forall x | x in h.c && h.c[x].kind == Bin
      ensures h.c[x].size < nb
    {
      assert BinAt(h.c, x) && (IsSmall(h.c[x].size) || Candidate(h.c, x));
    }
    hide GoodBut, HeapOk, BinsOk, Geo;
  }

  lemma DvWholeIs(h: HV)
    requires HeapOk(h) && h.dv != 0
    ensures var c := Retile(h, h.dv, h.dvsize, Live, 0, Live).c;
            Retile(h, h.dv, h.dvsize, Live, 0, Live) ==
              h.(c := c, size := h.size[h.dv := h.dvsize], cin := h.cin + {h.dv},
                pin := h.pin + {h.dv, h.dv + h.dvsize}, dv := 0, dvsize := 0)
  {
    ChunkFacts(h, h.dv);
    assert TagOk(h, h.dv);
    hide HeapOk, Geo, Cover;
    assert h.pin + {h.dv, h.dv + h.dvsize} == h.pin + {h.dv + h.dvsize};
  }

  lemma ReleaseDvIs(h: HV, i: nat)
    requires 1 <= i < |h.segs| && h.segs[i].base == h.dv
    ensures Release(h, i) == h.(c := Release(h, i).c, segs := h.segs[..i] + h.segs[i + 1..], dv := 0, dvsize := 0)
  {
  }

  const MAX_REQUEST: nat := TWO64 - 128

  lemma BlocksSame(c: Chunks, d: Direct)
    ensures SameBlocks(c, c, d)
  {
  }

  lemma AddStart(h: HV, bv: BV, d: Direct, b: nat, n: nat)
    requires Good(h, bv, d) && Fresh(h.segs, b, n)
    ensures b !in h.c && |h.segs| > 0 && End(h.segs[0]) == h.top + h.topsize + TOP_FOOT_SIZE && h.top % 8 == 0
            && h.topsize % 8 == 0 && h.top in h.pin
    ensures (h.top + h.topsize + TOP_FOOT_SIZE) % 8 == 0 && n > TOP_FOOT_SIZE + 8
            && (b + n <= h.top || End(h.segs[0]) <= b)
  {
    GoodParts(h, bv, d, {});
    TopIs(h);
    HeapGeo(h);
    OutsideFresh(h.c, h.segs, h.top, b, n, h.top);
    if b in h.c { OutsideFresh(h.c, h.segs, h.top, b, n, b); }
    Eight(n);
  }

  // The free rest of the old top.
  lemma AddRest(h: HV, b: nat, n: nat)
    requires b !in h.c && (b + n <= h.top || h.top + h.topsize + TOP_FOOT_SIZE <= b) && n > 0
    ensures h.topsize >= MIN_CHUNK_SIZE ==>
              h.top in AddedChunks(h.c, h.top, h.topsize, b, n)
                && AddedChunks(h.c, h.top, h.topsize, b, n)[h.top] == Ck(h.topsize, Bin)
  {
  }

  lemma AppendCan(h: HV, bv: BV, d: Direct, n: nat)
    requires Good(h, bv, d) && |h.segs| > 0 && Fresh(h.segs, End(h.segs[0]), n) && OffDirect(d, End(h.segs[0]), n)
    ensures var n' := h.segs[0].size + n;
            && CanResize(h.segs, h.top, n') && OffDirect(d, h.segs[0].base, n')
               && h.top + TOP_FOOT_SIZE < h.segs[0].base + n'
            && h.segs[0].base + n' == h.top + h.topsize + TOP_FOOT_SIZE + n
  {
    GoodParts(h, bv, d, {});
    TopIs(h);
    HeapGeo(h);
    var s, n' := h.segs[0], h.segs[0].size + n;
    assert SegOk(h.c, h.segs, h.top, 0) && Joinable(h.segs, 0, n);
    forall j | 1 <= j < |h.segs|
      ensures Clear(h.segs, j, s.base, n')
    {
      assert Clear(h.segs, j, End(s), n) && SegOk(h.c, h.segs, h.top, j);
      SegsDisjoint(h.segs, 0, j);
    }
    forall p | p in d
      ensures p + d[p] <= s.base || s.base + n' <= p
    {
      DirectClear(h, d, p, 0);
    }
    hide HeapOk, Geo, BinsOk, DirectOk;
    GranularSum(s.size, n);
  }

  lemma GranularSum(a: nat, b: nat)
    requires Granular(a) && Granular(b)
    ensures Granular(a + b) && (a + b) % 8 == 0
  {
    Eight(a);
    Eight(b);
    var k, l := a / DEFAULT_GRANULARITY, b / DEFAULT_GRANULARITY;
    assert a + b == DEFAULT_GRANULARITY * (k + l);
  }

  // granularity_align, which wraps
  function GranularityAlign(n: nat): nat {
    (n + DEFAULT_GRANULARITY - 1) % TWO64 / DEFAULT_GRANULARITY * DEFAULT_GRANULARITY
  }

  // The size of a new segment for a chunk of nb bytes, which wraps.
  function SegmentSize(nb: nat): nat { GranularityAlign((nb + TOP_FOOT_SIZE + 1) % TWO64) }

  // No segment can hold such a chunk and the foot of top.
  predicate Unmappable(nb: nat) { nb + TOP_FOOT_SIZE + DEFAULT_GRANULARITY >= TWO64 }

  lemma MappableIs(nb: nat)
    requires nb < TWO64
    ensures SegmentSize(nb) > nb || Unmappable(nb)
  {
    if !Unmappable(nb) {
      var y := nb + 65 + (DEFAULT_GRANULARITY - 1);
      assert (nb + TOP_FOOT_SIZE + 1) % TWO64 == nb + 65 && y % TWO64 == y;
      assert y / DEFAULT_GRANULARITY * DEFAULT_GRANULARITY > y - DEFAULT_GRANULARITY;
    }
  }

  // Between these two points the system has refused to map n bytes.
  predicate Turned(before: seq<nat>, after: seq<nat>, n: nat) { before <= after && n in after[|before|..] }

  lemma TurnedNow(before: seq<nat>, after: seq<nat>, n: nat)
    ensures after == before + [n] ==> Turned(before, after, n)
  {
    if after == before + [n] { assert after[|before|..] == [n]; }
  }

  lemma TurnedOn(first: seq<nat>, before: seq<nat>, after: seq<nat>, n: nat)
    requires first <= before <= after
    ensures Turned(first, before, n) || Turned(before, after, n) ==> Turned(first, after, n)
  {
    if Turned(first, before, n) {
      var k :| |first| <= k < |before| && before[k] == n;
      assert after[k] == n;
    }
  }

  // The only reasons to refuse a request of n bytes: it is too large for any segment,
  // or the system has been asked for one and has refused.
  predicate Excused(n: nat, before: seq<nat>, after: seq<nat>) {
    n >= MAX_REQUEST || Unmappable(RequestSize(n)) || Turned(before, after, SegmentSize(RequestSize(n)))
  }

  lemma GranularityAligned(nb: nat)
    requires nb < TWO64 && SegmentSize(nb) > nb
    ensures var n := SegmentSize(nb);
            n > nb + TOP_FOOT_SIZE && Granular(n) && nb < TWO64 - 1
  {
    var x := (nb + 65) % TWO64;
    var y := (x + DEFAULT_GRANULARITY - 1) % TWO64;
    var k := y / DEFAULT_GRANULARITY;
    assert k * DEFAULT_GRANULARITY <= y < k * DEFAULT_GRANULARITY + DEFAULT_GRANULARITY;
    assert nb + 65 < TWO64;
    assert x + DEFAULT_GRANULARITY - 1 < TWO64;
    MultipleIs(k);
  }

  lemma MultipleIs(k: nat)
    ensures (k * DEFAULT_GRANULARITY) % DEFAULT_GRANULARITY == 0
            && (k > 0 ==> k * DEFAULT_GRANULARITY >= DEFAULT_GRANULARITY)
  {
  }

  const DEFAULT_MMAP_THRESHOLD: nat := 0x2_0000

  // mmap_align, which wraps
  function MmapAlign(n: nat): nat { (n + PAGE - 1) % TWO64 / PAGE * PAGE }

  // The size of the mapping for a chunk of nb bytes.
  function DirectSize(nb: nat): nat { MmapAlign((nb + 48 + 7) % TWO64) }

  lemma MmapNonzero(nb: nat)
    requires nb + 64 < TWO64
    ensures var mm := DirectSize(nb); mm > 0 ==> mm >= nb + 48 && mm % 8 == 0
  {
    if DirectSize(nb) == 0 { return; }
    var x := (nb + 55) % TWO64;
    var y := (x + PAGE - 1) % TWO64;
    var k := y / 4096;
    assert y == 4096 * k + y % 4096;
    assert x + 4095 < TWO64;
    Times8(512 * k, 4096 * k);
  }

  lemma DirectBelow(nb: nat)
    ensures DirectSize(nb) < TWO64
  {
    MmapBelow((nb + 48 + 7) % TWO64);
  }

  lemma MmapBelow(n: nat)
    ensures MmapAlign(n) < TWO64
  {
    var y := (n + PAGE - 1) % TWO64;
    assert y / PAGE * PAGE <= y;
  }

  lemma MmapAligned(nb: nat)
    requires nb < TWO64 && DirectSize(nb) > nb
    ensures var mm := DirectSize(nb); mm >= nb + 48 && mm % 8 == 0
  {
    var x := (nb + 55) % TWO64;
    MmapAlignBelow(x);
    hide MmapAlign;
    MmapNonzero(nb);
  }

  lemma MmapAlignBelow(x: nat)
    requires x < TWO64
    ensures MmapAlign(x) <= (x + PAGE - 1) % TWO64
  {
    DivTimes((x + PAGE - 1) % TWO64);
  }

  lemma DivTimes(y: nat)
    ensures y / PAGE * PAGE <= y
  {
  }

  lemma Times8(k: nat, b: nat)
    requires b == 8 * k
    ensures b % 8 == 0
  {
  }

  lemma PageEight(b: nat)
    requires b % PAGE == 0
    ensures b % 8 == 0
  {
    var q := b / 4096;
    assert b == 4096 * q + b % 4096;
    Times8(512 * q, b);
  }

  predicate Unmapped(segs: seq<Segment>, d: Direct, b: nat, n: nat) {
    (forall i :: 0 <= i < |segs| ==> Clear(segs, i, b, n)) && (forall p :: p in d ==> p + d[p] <= b || b + n <= p)
  }

  datatype Freed = IntoTop | IntoDv | IntoSmallBin | IntoTreeBin

  lemma GaveSame(c: Chunks, c1: Chunks, c2: Chunks, d: Direct, mem: nat, cap: nat)
    requires Gave(c, c1, d, mem, cap) && SameBlocks(c1, c2, d)
    ensures Gave(c, c2, d, mem, cap)
  {
  }

  lemma GrantsOther(c: Chunks, d: Direct, c': Chunks, d': Direct, mem: nat, a: nat)
    requires Grants(c, d, c', d', mem, Cap(c', d', mem)) && Cap(c, d, a) > 0
    ensures a != mem && Cap(c', d', a) == Cap(c, d, a)
  {
  }

  // Hardly more than asked for.
  predicate Snug(cap: nat, nb: nat) { nb <= cap + 8 < nb + MIN_CHUNK_SIZE }

  // A segment record in the top segment keeps it from being cut.
  ghost predicate Pinned(segs: seq<Segment>) {
    |segs| > 0 && exists j :: 0 <= j < |segs| && segs[0].base <= segs[j].rec < End(segs[0])
  }

  lemma SameTwice(c: Chunks, c1: Chunks, c2: Chunks, d: Direct)
    requires SameBlocks(c, c1, d) && SameBlocks(c1, c2, d)
    ensures SameBlocks(c, c2, d)
  {
  }

  const DEFAULT_TRIM_THRESHOLD: nat := 0x20_0000
  const MAX_RELEASE_CHECK_RATE: nat := 255
  const FIRST_TOP: nat := DEFAULT_GRANULARITY - STATE_CHUNK - TOP_FOOT_SIZE

  predicate CanCreate(b: nat) { b > 0 && b % PAGE == 0 && b + DEFAULT_GRANULARITY < TWO64 }

  function CreatedHeap(b: nat): HV {
    HV(map[b := Ck(STATE_CHUNK, State), b + STATE_CHUNK := Ck(DEFAULT_GRANULARITY - STATE_CHUNK, Top)],
       map[b := STATE_CHUNK, b + STATE_CHUNK := FIRST_TOP, b + STATE_CHUNK + FIRST_TOP := TOP_FOOT_SIZE],
       {b}, {b, b + STATE_CHUNK}, map[], [Segment(b, DEFAULT_GRANULARITY, b + 856)], b + STATE_CHUNK, FIRST_TOP, 0, 0,
         b)
  }

  lemma CreatedGood(h: HV, bv: BV)
    requires CanCreate(h.st) && h == CreatedHeap(h.st)
    requires BinsOk(bv, h.st + 16, map[]) && forall x: nat {:trigger Binned(bv, map[], x)} :: !Binned(bv, map[], x)
    ensures Good(h, bv, map[])
  {
    CreatedOk(h.st);
    BinsWrite(bv, h.st + 16, map[], h.size);
    BinCounts(bv, h.st + 16, h.size);
    hide HeapOk, BinsOk, Binned;
    forall x: nat ensures Binned(bv, h.size, x) <==> BinAt(h.c, x) && x !in {} { assert !Binned(bv, map[], x); }
  }

  lemma CreatedOk(b: nat)
    requires CanCreate(b)
    ensures HeapOk(CreatedHeap(b))
  {
    assert b % 8 == 0;
    hide *;
    CanCreateIs(b);
    CreatedGeo(b);
    CreatedTags(b);
  }

  lemma CanCreateIs(b: nat)
    requires CanCreate(b)
    ensures b > 0 && b + DEFAULT_GRANULARITY < TWO64
  {
  }

  lemma CreatedGeo(b: nat)
    requires b > 0 && b % 8 == 0 && b + DEFAULT_GRANULARITY < TWO64
    ensures var h := CreatedHeap(b); Geo(h.c, h.segs, h.top)
  {
    var h := CreatedHeap(b);
    assert Holds(h.segs[0], b, STATE_CHUNK) && Holds(h.segs[0], h.top, DEFAULT_GRANULARITY - STATE_CHUNK);
    assert Placed(h.c, h.segs, h.top, b);
    assert Placed(h.c, h.segs, h.top, h.top);
    assert SegOk(h.c, h.segs, h.top, 0);
  }

  lemma CreatedTags(b: nat)
    requires b > 0 && Geo(CreatedHeap(b).c, CreatedHeap(b).segs, CreatedHeap(b).top)
    ensures HeapOk(CreatedHeap(b))
  {
    hide Geo;
    var h := CreatedHeap(b);
    assert TagOk(h, b) && TagOk(h, h.top);
  }
}
