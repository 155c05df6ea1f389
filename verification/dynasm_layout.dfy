// What pass 2 of DynASM decides: final offsets and branch sizes, and why the
// decisions taken on pass 1 estimates are safe.
module DynasmLayout {
  import opened Arith
  import opened DynasmActions
  import opened DynasmStore
  import opened DynasmView

  // fin[s][k] is the offset of item k of section s in the finished code;
  // fin[s][|items[s]|] is where section s ends.
  type Offsets = seq<seq<int>>

  // Estimated offset before item k of section s.
  function Est(v: View, s: nat, k: nat): int
    requires s < |v.items| == |v.ends|
  {
    EndAt(v.items[s], v.ends[s], k).ofs
  }

  // Total estimated size of sections s .. r-1.
  function SumOfs(v: View, s: nat, r: nat): int
    requires s <= r <= |v.ends|
    decreases r
  {
    if s == r then 0 else SumOfs(v, s, r - 1) + v.ends[r - 1].ofs
  }

  // Smallest multiple of mask+1 that is not below x.
  function AlignUp(x: int, mask: nat): int {
    x + mask - (x + mask) % (mask + 1)
  }

  lemma AlignUpMeaning(x: int, mask: nat)
    ensures x <= AlignUp(x, mask) <= x + mask
    ensures AlignUp(x, mask) % (mask + 1) == 0
  {
    var m := mask + 1;
    var q := (x + mask) / m;
    assert AlignUp(x, mask) == q * m;
    MultipleMod(q, m);
  }

  // Code bytes of an item at offset f, given its shrink amount.
  function FinalSize(it: Item, f: int, shrink: int): int {
    if IsRel(it.act) then 4 - shrink
    else if it.act.Align? then AlignUp(f, it.act.mask) - f
    else MaxSize(it.act, it.arg)
  }

  // The number of bytes the branch at (s,k) may lose.
  function MayShrink(v: View, s: nat, k: nat): nat
    requires s < |v.items|
  {
    Shrink(LitAt(v.items[s], k - 1))
  }

  // `items[s2][k2]` is the label at position t.
  predicate IsTarget(v: View, t: int, s2: nat, k2: nat) {
    s2 < |v.items| && k2 < |v.items[s2]| && v.items[s2][k2].pos == t && IsLabel(v.items[s2][k2].act)
  }

  // The distance dasm_link judges for a branch stored at pos and estimated to
  // end at `end`, whose label is at t: a label ahead still has its estimate,
  // one behind has its final offset, and `ofs` is the adjustment so far.
  function Distance(v: View, cells: map<int, int>, s: nat, pos: int, t: int, end: int, ofs: int): int
    requires s <= |v.ends| && (t > pos ==> s <= SecOf(t) <= |v.ends|) && t in cells
  {
    cells[t] + (if t > pos then SumOfs(v, s, SecOf(t)) else -ofs) - end
  }

  predicate InReach(d: int, shrink: int) { -128 - shrink <= d <= 127 }

  // The shrink amount for the branch at (s,k), decided with the given cells:
  // all of it if the label is known and judged in reach, otherwise none.
  function ShrinkFor(v: View, cells: map<int, int>, s: nat, k: nat, f0: int): int
    requires s < |v.items| == |v.ends| && k < |v.items[s]| && v.items[s][k].pos in cells
  {
    var it := v.items[s][k];
    var sh := MayShrink(v, s, k);
    var t := cells[it.pos];
    if sh > 0 && t in cells && t >= 0 && (t > it.pos ==> s <= SecOf(t) <= |v.ends|)
       && InReach(Distance(v, cells, s, it.pos, t, Est(v, s, k + 1), f0 - Est(v, s, k)), sh) then sh else 0
  }

  // Item k of section s is placed at f0 and ends at f1.
  ghost predicate PlacedAt(v: View, cells: map<int, int>, s: nat, k: nat, f0: int, f1: int)
    requires s < |v.items| == |v.ends| && k < |v.items[s]|
  {
    var it := v.items[s][k];
    && (IsRel(it.act) ==> it.pos in cells && it.pos + 1 in cells && ShrinkOk(v, cells, s, k, f0))
    && f1 == f0 + FinalSize(it, f0, if IsRel(it.act) then cells[it.pos + 1] else 0)
    && (IsLabel(it.act) ==> it.pos in cells && cells[it.pos] == f0)
    && (KeepsCell(it.act) ==> it.pos in cells && it.pos in v.cells && cells[it.pos] == v.cells[it.pos])
    && (it.act.Align? ==> it.pos in cells)
  }

  // Pass 2 rewrites label offsets and shrink amounts, but not the first cell of
  // any other item.
  predicate KeepsCell(a: Act) { a.Begin? || a.Imm? || a.Space? || IsRef(a) }

  // The stored shrink amount is what the label ahead (by its estimate in v) or
  // behind (by its final offset) justifies.
  ghost predicate ShrinkOk(v: View, cells: map<int, int>, s: nat, k: nat, f0: int)
    requires s < |v.items| == |v.ends| && k < |v.items[s]|
    requires v.items[s][k].pos in cells && v.items[s][k].pos + 1 in cells
  {
    var it := v.items[s][k];
    var t := cells[it.pos];
    && (t > it.pos && t in v.cells ==> cells[it.pos + 1] == ShrinkFor(v, cells[t := v.cells[t]], s, k, f0))
    && (t < it.pos ==> cells[it.pos + 1] == ShrinkFor(v, cells, s, k, f0))
    && (cells[it.pos + 1] == 0 || cells[it.pos + 1] == MayShrink(v, s, k))
  }

  ghost predicate Placed(v: View, fin: Offsets, cells: map<int, int>, s: nat, k: nat)
    requires s < |v.items| == |v.ends| && s < |fin| && k < |v.items[s]| && k + 1 < |fin[s]|
  {
    PlacedAt(v, cells, s, k, fin[s][k], fin[s][k + 1])
  }

  predicate Shaped(v: View, fin: Offsets) {
    && |v.items| == |v.ends| == |fin|
    && (forall r :: 0 <= r < |fin| ==> |fin[r]| == |v.items[r]| + 1)
  }

  // Section r starts where section r-1 ends, which is codesize for r = |fin|.
  predicate Chained(fin: Offsets, codesize: int) {
    && (forall r :: 0 <= r < |fin| ==> |fin[r]| > 0 && fin[r][0] == StartOf(fin, r))
    && StartOf(fin, |fin|) == codesize
  }

  function StartOf(fin: Offsets, r: nat): int
    requires r <= |fin|
  {
    if r == 0 || |fin[r - 1]| == 0 then 0 else fin[r - 1][|fin[r - 1]| - 1]
  }

  // The order and the estimated sizes of the stored items, without their cells.
  ghost predicate Geometry(v: View) {
    && |v.items| == |v.ends|
    && (forall s :: 0 <= s < |v.items| ==>
          EndAt(v.items[s], v.ends[s], 0) == End(Base(s), 0, -1) && Base(s) <= v.ends[s].pos < Base(s + 1))
    && (forall s, k :: 0 <= s < |v.items| && 0 <= k < |v.items[s]| ==> Sized(v, s, k))
  }

  predicate Sized(v: View, s: nat, k: nat)
    requires s < |v.items| == |v.ends| && k < |v.items[s]|
  {
    var it := v.items[s][k];
    var nx := EndAt(v.items[s], v.ends[s], k + 1);
    && Base(s) <= it.pos && it.pos + Slots(it.act) <= v.ends[s].pos
    && nx.pos == it.pos + Slots(it.act)
    && nx.ofs == it.ofs + MaxSize(it.act, it.arg)
    && (it.act.Space? ==> it.arg >= 0)
  }

  lemma LayoutGeometry(v: View)
    requires LayoutInv(v)
    ensures Geometry(v)
  {
    forall s | 0 <= s < |v.items|
      ensures EndAt(v.items[s], v.ends[s], 0) == End(Base(s), 0, -1) && Base(s) <= v.ends[s].pos < Base(s + 1)
      ensures forall k :: 0 <= k < |v.items[s]| ==> Sized(v, s, k)
    {
      assert Lays(v.al, v.cells, v.links, s, v.items[s], v.ends[s]);
      forall k | 0 <= k < |v.items[s]|
        ensures Sized(v, s, k)
      {
        assert ItemOk(v.al, v.cells, v.links, v.items[s][k], EndAt(v.items[s], v.ends[s], k + 1));
      }
    }
  }

  // The result of a successful dasm_link.
  ghost predicate Linked(v: View, fin: Offsets, cells: map<int, int>, codesize: int) {
    && Shaped(v, fin) && Chained(fin, codesize)
    && AllPlaced(v, fin, cells)
  }

  // Every item shrinks or keeps its estimate, and none gets a negative size.
  lemma SizeBounds(v: View, fin: Offsets, cells: map<int, int>, s: nat, k: nat)
    requires Geometry(v) && Shaped(v, fin) && s < |fin| && k < |v.items[s]|
    requires Placed(v, fin, cells, s, k)
    ensures fin[s][k] <= fin[s][k + 1]
    ensures fin[s][k + 1] - Est(v, s, k + 1) <= fin[s][k] - Est(v, s, k)
  {
    var it := v.items[s][k];
    assert Sized(v, s, k);
    if it.act.Align? {
      AlignUpMeaning(fin[s][k], it.act.mask);
    }
  }

  ghost predicate AllPlaced(v: View, fin: Offsets, cells: map<int, int>)
    requires Shaped(v, fin)
  {
    forall s, k :: 0 <= s < |fin| && 0 <= k < |v.items[s]| ==> Placed(v, fin, cells, s, k)
  }

  predicate TameAt(v: View, fin: Offsets, s: nat, k: nat)
    requires Shaped(v, fin) && s < |fin| && k < |v.items[s]|
  {
    fin[s][k] <= fin[s][k + 1] && fin[s][k + 1] - Est(v, s, k + 1) <= fin[s][k] - Est(v, s, k)
  }

  predicate Tame(v: View, fin: Offsets)
    requires Shaped(v, fin)
  {
    forall s, k :: 0 <= s < |fin| && 0 <= k < |v.items[s]| ==> TameAt(v, fin, s, k)
  }

  lemma PlacedTame(v: View, fin: Offsets, cells: map<int, int>)
    requires Geometry(v) && Shaped(v, fin) && AllPlaced(v, fin, cells)
    ensures Tame(v, fin)
  {
    forall s, k | 0 <= s < |fin| && 0 <= k < |v.items[s]|
      ensures TameAt(v, fin, s, k)
    {
      SizeBounds(v, fin, cells, s, k);
    }
  }

  // Within a section offsets grow, and the gap to the estimate only widens.
  lemma {:induction false} Monotone(v: View, fin: Offsets, s: nat, j: nat, k: nat)
    requires Shaped(v, fin) && Tame(v, fin) && s < |fin| && j <= k <= |v.items[s]|
    ensures fin[s][j] <= fin[s][k]
    ensures fin[s][k] - Est(v, s, k) <= fin[s][j] - Est(v, s, j)
    decreases k
  {
    if j < k {
      Monotone(v, fin, s, j, k - 1);
      assert TameAt(v, fin, s, k - 1);
    }
  }

  // Estimates are relative to the section.
  predicate FromZero(v: View) {
    |v.items| == |v.ends| && forall r :: 0 <= r < |v.items| ==> Est(v, r, 0) == 0
  }

  // The same across sections.
  lemma {:induction false} MonotoneAcross(v: View, fin: Offsets, s: nat, j: nat, r: nat, codesize: int)
    requires Shaped(v, fin) && Tame(v, fin) && Chained(fin, codesize) && FromZero(v)
    requires s < r < |fin| && j <= |v.items[s]|
    ensures fin[s][j] <= fin[r][0]
    ensures fin[r][0] - SumOfs(v, s, r) <= fin[s][j] - Est(v, s, j)
    decreases r
  {
    var m := |v.items[r - 1]|;
    assert fin[r][0] == StartOf(fin, r) == fin[r - 1][m];
    assert Est(v, r - 1, m) == v.ends[r - 1].ofs;
    if r - 1 == s {
      Monotone(v, fin, s, j, m);
      assert SumOfs(v, s, s) == 0;
    } else {
      MonotoneAcross(v, fin, s, j, r - 1, codesize);
      Monotone(v, fin, r - 1, 0, m);
      assert Est(v, r - 1, 0) == 0;
    }
  }

  // An item ahead of (s,j): no nearer than (s,j), no farther than estimated.
  lemma Ahead(v: View, fin: Offsets, s: nat, j: nat, s2: nat, k2: nat, codesize: int)
    requires Shaped(v, fin) && Tame(v, fin) && Chained(fin, codesize) && FromZero(v)
    requires s < |fin| && s2 < |fin| && j <= |v.items[s]| && k2 < |v.items[s2]|
    requires s < s2 || (s == s2 && j <= k2)
    ensures 0 <= fin[s2][k2] - fin[s][j] <= Est(v, s2, k2) + SumOfs(v, s, s2) - Est(v, s, j)
  {
    if s < s2 {
      MonotoneAcross(v, fin, s, j, s2, codesize);
      Monotone(v, fin, s2, 0, k2);
      assert Est(v, s2, 0) == 0;
    } else {
      Monotone(v, fin, s, j, k2);
      assert SumOfs(v, s, s) == 0;
    }
  }

  // Buffer positions follow the item order inside a section.
  lemma {:induction false} PosMonotone(v: View, s: nat, j: nat, k: nat)
    requires Geometry(v) && s < |v.items| && j < k < |v.items[s]|
    ensures v.items[s][j].pos + Slots(v.items[s][j].act) <= v.items[s][k].pos
    decreases k
  {
    assert Sized(v, s, k - 1);
    if j < k - 1 {
      PosMonotone(v, s, j, k - 1);
    }
  }

  // ... and across sections.
  lemma PosOrder(v: View, s: nat, k: nat, s2: nat, k2: nat)
    requires Geometry(v) && s < |v.items| && k < |v.items[s]| && s2 < |v.items| && k2 < |v.items[s2]|
    requires Slots(v.items[s][k].act) > 0 && Slots(v.items[s2][k2].act) > 0
    ensures v.items[s][k].pos < v.items[s2][k2].pos <==> s < s2 || (s == s2 && k < k2)
  {
    assert Sized(v, s, k) && Sized(v, s2, k2);
    assert v.ends[s].pos < Base(s + 1) && v.ends[s2].pos < Base(s2 + 1);
    if s == s2 && k < k2 {
      PosMonotone(v, s, k, k2);
    } else if s == s2 && k2 < k {
      PosMonotone(v, s, k2, k);
    }
  }

  // Every shrunk branch reaches its label with a signed byte, although a
  // forward distance was judged on estimates that later branches and
  // alignments still reduce.
  lemma ShrunkFits(v: View, fin: Offsets, cells: map<int, int>, codesize: int, s: nat, k: nat, s2: nat, k2: nat)
    requires Geometry(v) && Linked(v, fin, cells, codesize)
    requires s < |v.items| && k < |v.items[s]| && IsRel(v.items[s][k].act)
    requires v.items[s][k].pos in cells && IsTarget(v, cells[v.items[s][k].pos], s2, k2)
    requires v.items[s][k].pos + 1 in cells && cells[v.items[s][k].pos + 1] > 0
    requires v.items[s2][k2].pos in v.cells && v.cells[v.items[s2][k2].pos] == Est(v, s2, k2)
    ensures FitsS8(fin[s2][k2] - fin[s][k + 1])
  {
    hide Sized, Est, Tame, Chained, PlacedAt, Geometry, SecOf, Base, ShrinkFor;
    PlacedTame(v, fin, cells);
    StartsAtZero(v);
    assert PlacedAt(v, cells, s, k, fin[s][k], fin[s][k + 1])
           && PlacedAt(v, cells, s2, k2, fin[s2][k2], fin[s2][k2 + 1]) by {
      assert Placed(v, fin, cells, s, k) && Placed(v, fin, cells, s2, k2);
    }
    BranchPlaced(v, cells, s, k, fin[s][k], fin[s][k + 1]);
    LabelPlaced(v, cells, s2, k2, fin[s2][k2], fin[s2][k2 + 1]);
    PosOrder(v, s, k, s2, k2);
    PosOrder(v, s2, k2, s, k);
    TargetSection(v, s2, k2);
    EstStep(v, s, k);
    if s < s2 || (s == s2 && k < k2) {
      ForwardReach(v, cells, s, k, fin[s][k], s2, k2);
      Ahead(v, fin, s, k + 1, s2, k2, codesize);
    } else {
      Ahead(v, fin, s2, k2, s, k, codesize);
      BackwardReach(v, cells, s, k, fin[s][k], s2, k2, fin[s2][k2]);
    }
  }

  // A branch back can be short if the short form reaches its label, and a branch ahead
  // if the estimate of pass 1 is in reach of the long form.
  predicate ShortReaches(v: View, fin: Offsets, s: nat, k: nat, s2: nat, k2: nat, sh: nat)
    requires Shaped(v, fin) && s < |fin| && k < |v.items[s]| && s2 < |fin| && k2 < |v.items[s2]|
  {
    if s < s2 || (s == s2 && k < k2) then Est(v, s2, k2) + SumOfs(v, s, s2) - Est(v, s, k + 1) <= 127
    else FitsS8(fin[s2][k2] - (fin[s][k] + 4 - sh))
  }

  // A branch that can be short is short, and no other is.
  lemma ShrinksWhen(v: View, fin: Offsets, cells: map<int, int>, codesize: int, s: nat, k: nat, s2: nat, k2: nat)
    requires Geometry(v) && Linked(v, fin, cells, codesize)
    requires s < |v.items| && k < |v.items[s]| && IsRel(v.items[s][k].act)
    requires v.items[s][k].pos in cells && IsTarget(v, cells[v.items[s][k].pos], s2, k2)
    requires v.items[s2][k2].pos in v.cells && v.cells[v.items[s2][k2].pos] == Est(v, s2, k2)
    ensures var sh := MayShrink(v, s, k);
            fin[s][k + 1] == fin[s][k] + 4 - if sh > 0 && ShortReaches(v, fin, s, k, s2, k2, sh) then sh else 0
  {
    hide Sized, Est, Tame, Chained, PlacedAt, Geometry, SecOf, Base, ShrinkFor, MayShrink;
    PlacedTame(v, fin, cells);
    StartsAtZero(v);
    assert PlacedAt(v, cells, s, k, fin[s][k], fin[s][k + 1])
           && PlacedAt(v, cells, s2, k2, fin[s2][k2], fin[s2][k2 + 1]) by {
      assert Placed(v, fin, cells, s, k) && Placed(v, fin, cells, s2, k2);
    }
    BranchPlaced(v, cells, s, k, fin[s][k], fin[s][k + 1]);
    LabelPlaced(v, cells, s2, k2, fin[s2][k2], fin[s2][k2 + 1]);
    PosOrder(v, s, k, s2, k2);
    PosOrder(v, s2, k2, s, k);
    TargetSection(v, s2, k2);
    EstStep(v, s, k);
    if s < s2 || (s == s2 && k < k2) {
      ForwardReach(v, cells, s, k, fin[s][k], s2, k2);
      Ahead(v, fin, s, k + 1, s2, k2, codesize);
    } else {
      Ahead(v, fin, s2, k2, s, k, codesize);
      MayShrinkIs(v, s, k);
      BackwardReach(v, cells, s, k, fin[s][k], s2, k2, fin[s2][k2]);
    }
  }

  lemma MayShrinkIs(v: View, s: nat, k: nat)
    requires s < |v.items|
    ensures MayShrink(v, s, k) <= 4
  {
  }

  lemma BranchPlaced(v: View, cells: map<int, int>, s: nat, k: nat, f0: int, f1: int)
    requires s < |v.items| == |v.ends| && k < |v.items[s]| && IsRel(v.items[s][k].act)
    requires PlacedAt(v, cells, s, k, f0, f1)
    ensures v.items[s][k].pos in cells && v.items[s][k].pos + 1 in cells && ShrinkOk(v, cells, s, k, f0)
    ensures f1 == f0 + 4 - cells[v.items[s][k].pos + 1] && 0 <= cells[v.items[s][k].pos + 1] <= 4
  {
  }

  lemma LabelPlaced(v: View, cells: map<int, int>, s: nat, k: nat, f0: int, f1: int)
    requires s < |v.items| == |v.ends| && k < |v.items[s]| && IsLabel(v.items[s][k].act)
    requires PlacedAt(v, cells, s, k, f0, f1)
    ensures v.items[s][k].pos in cells && cells[v.items[s][k].pos] == f0
  {
  }

  lemma TargetSection(v: View, s: nat, k: nat)
    requires Geometry(v) && s < |v.items| && k < |v.items[s]| && Slots(v.items[s][k].act) > 0
    ensures SecOf(v.items[s][k].pos) == s && v.items[s][k].pos >= 0
  {
    assert Sized(v, s, k);
    PosOfSection(s, v.items[s][k].pos);
  }

  lemma EstStep(v: View, s: nat, k: nat)
    requires Geometry(v) && s < |v.items| && k < |v.items[s]|
    ensures Est(v, s, k + 1) == Est(v, s, k) + MaxSize(v.items[s][k].act, v.items[s][k].arg)
  {
    assert Sized(v, s, k);
  }

  // What a stored shrink amount says about a label ahead ...
  lemma ForwardReach(v: View, cells: map<int, int>, s: nat, k: nat, f0: int, s2: nat, k2: nat)
    requires s < |v.items| == |v.ends| && k < |v.items[s]| && s <= s2 < |v.items| && k2 < |v.items[s2]|
    requires v.items[s][k].pos in cells && v.items[s][k].pos + 1 in cells && ShrinkOk(v, cells, s, k, f0)
    requires cells[v.items[s][k].pos] == v.items[s2][k2].pos > v.items[s][k].pos
    requires SecOf(v.items[s2][k2].pos) == s2 && v.items[s2][k2].pos >= 0
    requires v.items[s2][k2].pos in v.cells && v.cells[v.items[s2][k2].pos] == Est(v, s2, k2)
    ensures var sh := MayShrink(v, s, k);
            cells[v.items[s][k].pos + 1] ==
            if sh > 0 && InReach(Est(v, s2, k2) + SumOfs(v, s, s2) - Est(v, s, k + 1), sh) then sh else 0
  {
    hide SumOfs, Est, SecOf, MayShrink;
    var t := v.items[s2][k2].pos;
    assert cells[v.items[s][k].pos + 1] == ShrinkFor(v, cells[t := v.cells[t]], s, k, f0);
  }

  // ... and about one behind.
  lemma BackwardReach(v: View, cells: map<int, int>, s: nat, k: nat, f0: int, s2: nat, k2: nat, f2: int)
    requires s < |v.items| == |v.ends| && k < |v.items[s]| && s2 < |v.items| && k2 < |v.items[s2]|
    requires v.items[s][k].pos in cells && v.items[s][k].pos + 1 in cells && ShrinkOk(v, cells, s, k, f0)
    requires cells[v.items[s][k].pos] == v.items[s2][k2].pos < v.items[s][k].pos
    requires v.items[s2][k2].pos in cells && cells[v.items[s2][k2].pos] == f2
    requires v.items[s2][k2].pos >= 0
    ensures var sh := MayShrink(v, s, k);
            cells[v.items[s][k].pos + 1] ==
            if sh > 0 && InReach(f2 - (f0 - Est(v, s, k)) - Est(v, s, k + 1), sh) then sh else 0
  {
    hide SumOfs, Est, SecOf, MayShrink;
    assert cells[v.items[s][k].pos + 1] == ShrinkFor(v, cells, s, k, f0);
  }

  lemma StartsAtZero(v: View)
    requires Geometry(v)
    ensures FromZero(v)
  {
    forall r | 0 <= r < |v.items|
      ensures Est(v, r, 0) == 0
    {
      assert EndAt(v.items[r], v.ends[r], 0) == End(Base(r), 0, -1);
    }
  }
}
