// DynASM pass 2: dasm_link.
module DynasmLink {
  import opened DynasmActions
  import opened DynasmStore
  import opened DynasmView
  import opened DynasmLayout
  import opened DynasmPass1

  // -- Undefined globals -----------------------------------------------------

  // After the globals below `idx` were handled: their unresolved references
  // hold minus the label number, all other cells are untouched.
  ghost predicate Marked(v: View, cells: map<int, int>, idx: int) {
    && cells.Keys == v.cells.Keys
    && (forall q :: q in v.cells ==> MarkedCell(v, cells, idx, q))
  }

  ghost predicate MarkedCell(v: View, cells: map<int, int>, idx: int, q: int)
    requires q in cells && q in v.cells
  {
    && (forall n :: 10 <= n < idx && q in ChainOf(v, LG(n)) ==> cells[q] == -n)
    && ((forall n :: 10 <= n < idx ==> q !in ChainOf(v, LG(n))) ==> cells[q] == v.cells[q])
  }

  lemma MarkStep(v: View, cells: map<int, int>, idx: int)
    requires HistoryInv(v) && idx >= 10 && Marked(v, cells, idx)
    ensures Marked(v, Fill(cells, ChainOf(v, LG(idx)), -idx), idx + 1)
  {
    hide StateOf, ChainOf, HistoryInv;
    var cells' := Fill(cells, ChainOf(v, LG(idx)), -idx);
    forall q | q in v.cells
      ensures MarkedCell(v, cells', idx + 1, q)
    {
      assert MarkedCell(v, cells, idx, q);
      if q in ChainOf(v, LG(idx)) {
        forall n | 10 <= n < idx
          ensures q !in ChainOf(v, LG(n))
        {
          ChainsDisjoint(v, LG(idx), LG(n), q);
        }
      }
    }
  }

  // The chain of the next global is still intact.
  lemma MarkReady(v: View, cells: map<int, int>, idx: int)
    requires Inv(v) && 10 <= idx < |v.lg| && Marked(v, cells, idx)
    ensures var c := ChainOf(v, LG(idx));
            && ChainOk(cells, c) && (if c == [] then v.lg[idx] <= 0 else v.lg[idx] == c[0])
            && (forall i, j :: 0 <= i < j < |c| ==> c[i] != c[j])
            && (forall q :: q in c ==> q > 0 && Used(v.ends, q))
  {
    var l := LG(idx);
    var c := ChainOf(v, l);
    ChainReady(v, l);
    hide StateOf, ChainOf, Inv;
    assert HistoryInv(v) by { InvParts(v); }
    forall k | 0 <= k < |c|
      ensures c[k] in cells && cells[c[k]] == ChainNext(c, k)
    {
      var q := c[k];
      assert q in c && q in v.cells && MarkedCell(v, cells, idx, q);
      forall n | 10 <= n < idx
        ensures q !in ChainOf(v, LG(n))
      {
        ChainsDisjoint(v, l, LG(n), q);
      }
    }
  }

  // Marking only writes link cells, so the layout survives.
  lemma MarkedLayout(v: View, cells: map<int, int>, idx: int)
    requires Inv(v) && Marked(v, cells, idx)
    ensures LayoutInv(v.(cells := cells))
  {
    hide Inv, StateOf, MarkedCell, Lays;
    InvParts(v);
    forall q | q in v.cells && q !in v.links
      ensures cells[q] == v.cells[q]
    {
      UnlinkedKept(v, cells, idx, q);
    }
    forall s | 0 <= s < |v.items|
      ensures Lays(v.al, cells, v.links, s, v.items[s], v.ends[s])
    {
      LaysFrame(v.al, v.cells, cells, v.links, v.links, s, v.items[s], v.ends[s]);
    }
  }

  lemma UnlinkedKept(v: View, cells: map<int, int>, idx: int, q: int)
    requires HistoryInv(v) && Marked(v, cells, idx) && q in v.cells && q !in v.links
    ensures cells[q] == v.cells[q]
  {
    hide HistoryInv, StateOf;
    assert MarkedCell(v, cells, idx, q);
    forall n | 10 <= n < idx
      ensures q !in ChainOf(v, LG(n))
    {
      if q in ChainOf(v, LG(n)) {
        InChain(v, LG(n), q);
      }
    }
  }

  lemma InChain(v: View, l: Lab, q: int)
    requires HistoryInv(v) && q in ChainOf(v, l)
    ensures q in v.links && OnChain(v.events, l, q)
  {
    ChainUsed(v, l, q);
  }

  // Every reference ends up at its definition, or marked with the number of
  // its undefined global.
  ghost predicate Bound(ev: seq<Event>, cells: map<int, int>) {
    forall i :: 0 <= i < |ev| && IsReference(ev[i]) ==> BoundAt(ev, cells, i)
  }

  ghost predicate BoundAt(ev: seq<Event>, cells: map<int, int>, i: nat)
    requires i < |ev| && IsReference(ev[i])
  {
    ev[i].pos in cells &&
    if Target(ev, i) != 0 then cells[ev[i].pos] == Target(ev, i)
    else ev[i].lab.LG? && ev[i].lab.n >= 10 && cells[ev[i].pos] == -ev[i].lab.n
  }

  lemma MarkedBound(v: View, cells: map<int, int>)
    requires Inv(v) && Marked(v, cells, |v.lg|)
    requires forall l :: ValidLab(v, l) && (l.PC? || l.n < 10) ==> !StateOf(v.events, l).Pending?
    ensures Bound(v.events, cells)
  {
    hide StateOf, Target, ChainOf, LayoutInv, TableInv, MarkedCell;
    forall i | 0 <= i < |v.events| && IsReference(v.events[i])
      ensures BoundAt(v.events, cells, i)
    {
      MarkedBoundAt(v, cells, i);
    }
  }

  lemma MarkedBoundAt(v: View, cells: map<int, int>, i: nat)
    requires HistoryInv(v) && Resolved(v.events, v.cells) && Marked(v, cells, |v.lg|)
    requires forall l :: ValidLab(v, l) && (l.PC? || l.n < 10) ==> !StateOf(v.events, l).Pending?
    requires i < |v.events| && IsReference(v.events[i])
    ensures BoundAt(v.events, cells, i)
  {
    var l, q := v.events[i].lab, v.events[i].pos;
    assert Placeable(v, v.events[i]);
    if Target(v.events, i) == 0 {
      PendingHere(v, i);
      PendingCell(v, cells, l, q);
    } else {
      assert v.cells[q] == Target(v.events, i);
      hide StateOf, Target, HistoryInv, Resolved, Placeable, ChainOf;
      assert MarkedCell(v, cells, |v.lg|, q);
      forall n | 10 <= n < |v.lg|
        ensures q !in ChainOf(v, LG(n))
      {
        NotPendingHere(v, i, LG(n));
      }
    }
  }

  lemma PendingCell(v: View, cells: map<int, int>, l: Lab, q: int)
    requires Marked(v, cells, |v.lg|) && q in v.cells && ValidLab(v, l)
    requires forall m :: ValidLab(v, m) && (m.PC? || m.n < 10) ==> !StateOf(v.events, m).Pending?
    requires StateOf(v.events, l).Pending? && q in ChainOf(v, l)
    ensures l.LG? && l.n >= 10 && cells[q] == -l.n
  {
    hide StateOf;
    assert MarkedCell(v, cells, |v.lg|, q);
    assert l == LG(l.n);
  }

  lemma PendingHere(v: View, i: nat)
    requires HistoryInv(v) && i < |v.events| && IsReference(v.events[i]) && Target(v.events, i) == 0
    ensures StateOf(v.events, v.events[i].lab).Pending? && v.events[i].pos in ChainOf(v, v.events[i].lab)
  {
    PendingIsUnresolved(v.events, v.events[i].lab, i);
  }

  lemma NotPendingHere(v: View, i: nat, l: Lab)
    requires HistoryInv(v) && i < |v.events| && IsReference(v.events[i]) && Target(v.events, i) != 0
    ensures v.events[i].pos !in ChainOf(v, l)
  {
    PendingIsUnresolved(v.events, l, i);
  }

  // -- The main loop ---------------------------------------------------------

  // Sections before s and the first k items of section s are placed; nothing
  // else has been touched.
  ghost predicate LinkState(v: View, fin: Offsets, cells: map<int, int>, s: nat, k: nat) {
    && s < |v.items| == |v.ends| && |fin| == s + 1 && |fin[s]| == k + 1 <= |v.items[s]| + 1
    && (forall r :: 0 <= r < s ==> |fin[r]| == |v.items[r]| + 1)
    && StartsOk(fin)
    && PlacedSoFar(v, fin, cells)
    && Untouched(v, cells, EndAt(v.items[s], v.ends[s], k).pos)
  }

  // Every section begun so far starts where the one before it ends.
  predicate StartsOk(fin: Offsets) {
    forall r :: 0 <= r < |fin| ==> |fin[r]| > 0 && fin[r][0] == StartOf(fin, r)
  }

  ghost predicate PlacedSoFar(v: View, fin: Offsets, cells: map<int, int>) {
    && |fin| <= |v.items| == |v.ends|
    && (forall r :: 0 <= r < |fin| ==> |fin[r]| <= |v.items[r]| + 1)
    && (forall r, j :: 0 <= r < |fin| && 0 <= j < |fin[r]| - 1 ==> Placed(v, fin, cells, r, j))
  }

  // Link cells and all cells from position `from` on are as before the pass.
  ghost predicate Untouched(v: View, cells: map<int, int>, from: int) {
    && cells.Keys == v.cells.Keys
    && (forall q :: q in v.cells && (q >= from || q in v.links) ==> cells[q] == v.cells[q])
  }

  // Writing behind an item does not disturb its placement.
  lemma PlacedFrame(v: View, cells: map<int, int>, cells': map<int, int>, s: nat, k: nat, f0: int, f1: int, from: int)
    requires s < |v.items| == |v.ends| && k < |v.items[s]| && PlacedAt(v, cells, s, k, f0, f1)
    requires v.items[s][k].pos + Slots(v.items[s][k].act) <= from
    requires cells'.Keys == cells.Keys && forall q :: q in cells && q < from ==> cells'[q] == cells[q]
    ensures PlacedAt(v, cells', s, k, f0, f1)
  {
    hide Est, SumOfs, SecOf, MayShrink, FinalSize, InReach;
    var it := v.items[s][k];
    if IsRel(it.act) {
      var t := cells[it.pos];
      assert cells'[it.pos] == t;
      if t > it.pos && t in v.cells {
        ShrinkForFrame(v, cells[t := v.cells[t]], cells'[t := v.cells[t]], s, k, f0);
      }
      if t < it.pos {
        ShrinkForFrame(v, cells, cells', s, k, f0);
      }
    }
  }

  lemma ShrinkForFrame(v: View, cells: map<int, int>, cells': map<int, int>, s: nat, k: nat, f0: int)
    requires s < |v.items| == |v.ends| && k < |v.items[s]| && v.items[s][k].pos in cells
    requires cells'.Keys == cells.Keys
    requires cells'[v.items[s][k].pos] == cells[v.items[s][k].pos]
    requires var t := cells[v.items[s][k].pos]; t in cells ==> cells'[t] == cells[t]
    ensures ShrinkFor(v, cells', s, k, f0) == ShrinkFor(v, cells, s, k, f0)
  {
    hide SumOfs, SecOf, MayShrink, Est;
  }

  // One more item is placed.
  lemma PlaceNext(v: View, fin: Offsets, cells: map<int, int>, cells': map<int, int>, s: nat, k: nat, f1: int)
    requires Geometry(v) && LinkState(v, fin, cells, s, k) && k < |v.items[s]|
    requires PlacedAt(v, cells', s, k, fin[s][k], f1)
    requires var it := v.items[s][k];
             cells'.Keys == cells.Keys &&
             forall q :: q in cells && !(it.pos <= q < it.pos + Slots(it.act) && q !in v.links)
                         ==> cells'[q] == cells[q]
    ensures LinkState(v, fin[s := fin[s] + [f1]], cells', s, k + 1)
  {
    hide PlacedAt, PlacedSoFar;
    var it := v.items[s][k];
    assert Sized(v, s, k);
    StartsGrow(fin, s, f1);
    PlacedGrow(v, fin, cells, cells', s, k, f1);
  }

  lemma StartsGrow(fin: Offsets, s: nat, f1: int)
    requires StartsOk(fin) && |fin| == s + 1
    ensures StartsOk(fin[s := fin[s] + [f1]])
  {
    var fin' := fin[s := fin[s] + [f1]];
    forall r | 0 <= r < |fin'|
      ensures |fin'[r]| > 0 && fin'[r][0] == StartOf(fin', r)
    {
      assert fin[r][0] == StartOf(fin, r);
    }
  }

  lemma PlacedGrow(v: View, fin: Offsets, cells: map<int, int>, cells': map<int, int>, s: nat, k: nat, f1: int)
    requires Geometry(v) && PlacedSoFar(v, fin, cells) && |fin| == s + 1 && |fin[s]| == k + 1 <= |v.items[s]|
    requires PlacedAt(v, cells', s, k, fin[s][k], f1)
    requires cells'.Keys == cells.Keys && forall q :: q in cells && q < v.items[s][k].pos ==> cells'[q] == cells[q]
    ensures PlacedSoFar(v, fin[s := fin[s] + [f1]], cells')
  {
    hide PlacedAt, Geometry;
    var fin' := fin[s := fin[s] + [f1]];
    forall r, j | 0 <= r < |fin'| && 0 <= j < |fin'[r]| - 1
      ensures Placed(v, fin', cells', r, j)
    {
      if r == s && j == k {
      } else {
        assert Placed(v, fin, cells, r, j);
        EarlierPos(v, r, j, s, k);
        PlacedFrame(v, cells, cells', r, j, fin[r][j], fin[r][j + 1], v.items[s][k].pos);
      }
    }
  }

  // Items are stored in order.
  lemma EarlierPos(v: View, r: nat, j: nat, s: nat, k: nat)
    requires Geometry(v) && r < |v.items| && s < |v.items| && j < |v.items[r]| && k < |v.items[s]|
    requires r < s || (r == s && j < k)
    ensures v.items[r][j].pos + Slots(v.items[r][j].act) <= v.items[s][k].pos
  {
    assert Sized(v, r, j) && Sized(v, s, k);
    assert v.ends[r].pos < Base(r + 1);
    if r == s {
      PosMonotone(v, r, j, k);
    }
  }

  // The next section starts where this one ends.
  lemma NextSection(v: View, fin: Offsets, cells: map<int, int>, s: nat)
    requires Geometry(v) && s + 1 < |v.items| && LinkState(v, fin, cells, s, |v.items[s]|)
    ensures LinkState(v, fin + [[fin[s][|v.items[s]|]]], cells, s + 1, 0)
  {
    hide PlacedAt, Sized, PlacedSoFar, StartsOk;
    var f := fin[s][|v.items[s]|];
    assert EndAt(v.items[s + 1], v.ends[s + 1], 0) == End(Base(s + 1), 0, -1);
    assert v.ends[s].pos < Base(s + 1);
    StartsSnoc(fin, f);
    PlacedSnoc(v, fin, cells, f);
  }

  lemma StartsSnoc(fin: Offsets, f: int)
    requires StartsOk(fin) && |fin| > 0 && f == fin[|fin| - 1][|fin[|fin| - 1]| - 1]
    ensures StartsOk(fin + [[f]])
  {
    var fin' := fin + [[f]];
    forall r | 0 <= r < |fin'|
      ensures |fin'[r]| > 0 && fin'[r][0] == StartOf(fin', r)
    {
      if r < |fin| { assert fin[r][0] == StartOf(fin, r); }
    }
  }

  lemma PlacedSnoc(v: View, fin: Offsets, cells: map<int, int>, f: int)
    requires PlacedSoFar(v, fin, cells) && |fin| < |v.items|
    ensures PlacedSoFar(v, fin + [[f]], cells)
  {
    hide PlacedAt;
    var fin' := fin + [[f]];
    forall r, j | 0 <= r < |fin'| && 0 <= j < |fin'[r]| - 1
      ensures Placed(v, fin', cells, r, j)
    {
      assert Placed(v, fin, cells, r, j);
    }
  }

  lemma LinkDone(v: View, fin: Offsets, cells: map<int, int>, s: nat)
    requires s + 1 == |v.items| && LinkState(v, fin, cells, s, |v.items[s]|)
    ensures Linked(v, fin, cells, fin[s][|v.items[s]|])
  {
    hide PlacedAt;
  }

  // -- What a link cell holds ------------------------------------------------

  // The encoder as pass 2 starts its main loop.
  ghost predicate LinkReady(v: View) {
    LayoutInv(v) && HistoryInv(v) && Bound(v.events, v.cells)
  }

  lemma {:induction false} NextDefIsDef(ev: seq<Event>, l: Lab, i: nat)
    ensures NextDef(ev, l, i) == 0 || exists j :: i <= j < |ev| && ev[j].Def? && ev[j].lab == l
                                                  && ev[j].pos == NextDef(ev, l, i)
    decreases |ev| - i
  {
    if i < |ev| && !(ev[i].Def? && ev[i].lab == l) {
      NextDefIsDef(ev, l, i + 1);
    }
  }

  lemma {:induction false} PrevDefIsDef(ev: seq<Event>, l: Lab, i: nat)
    requires i <= |ev|
    ensures PrevDef(ev, l, i) == 0 || exists j :: 0 <= j < i && ev[j].Def? && ev[j].lab == l
                                                  && ev[j].pos == PrevDef(ev, l, i)
  {
    if i > 0 && !(ev[i - 1].Def? && ev[i - 1].lab == l) {
      PrevDefIsDef(ev, l, i - 1);
    }
  }

  // A reference's target is the position of a definition of its label.
  lemma TargetIsDef(ev: seq<Event>, i: nat)
    requires i < |ev| && IsReference(ev[i])
    ensures Target(ev, i) == 0 ||
            exists j :: 0 <= j < |ev| && ev[j].Def? && ev[j].lab == ev[i].lab && ev[j].pos == Target(ev, i)
  {
    NextDefIsDef(ev, ev[i].lab, i + 1);
    PrevDefIsDef(ev, ev[i].lab, i);
  }

  // A stored reference leads to a stored label or to an undefined global.
  lemma RefLeads(v: View, s: nat, k: nat) returns (s2: nat, k2: nat)
    requires LinkReady(v) && s < |v.items| && k < |v.items[s]| && IsRef(v.items[s][k].act)
    ensures v.items[s][k].pos in v.cells
    ensures var t := v.cells[v.items[s][k].pos];
            if t < 0 then EventOf(v.items[s][k]).lab == LG(-t) && -t >= 10
            else IsTarget(v, t, s2, k2) && EventOf(v.items[s2][k2]).lab == EventOf(v.items[s][k]).lab
  {
    hide LayoutOf, WfEvents, GoodHistory, Placeable, Target, StateOf;
    var it := v.items[s][k];
    s2, k2 := 0, 0;
    assert Recorded(v.events, it);
    var i :| 0 <= i < |v.events| && v.events[i] == EventOf(it);
    assert BoundAt(v.events, v.cells, i);
    TargetIsDef(v.events, i);
    if Target(v.events, i) != 0 {
      var j :| 0 <= j < |v.events| && v.events[j].Def? && v.events[j].lab == v.events[i].lab
        && v.events[j].pos == Target(v.events, i);
      assert HasLabel(v, v.events[j].pos);
      s2, k2 := LabelOf(v, j);
    }
  }

  lemma LabelOf(v: View, j: nat) returns (s2: nat, k2: nat)
    requires LayoutInv(v) && HistoryInv(v) && j < |v.events| && v.events[j].Def?
    ensures IsTarget(v, v.events[j].pos, s2, k2) && EventOf(v.items[s2][k2]) == v.events[j]
    ensures v.events[j].pos > 0
  {
    var q := v.events[j].pos;
    assert HasLabel(v, q);
    s2, k2 :| 0 <= s2 < |v.items| && 0 <= k2 < |v.items[s2]| && v.items[s2][k2].pos == q
      && IsLabel(v.items[s2][k2].act);
    assert Recorded(v.events, v.items[s2][k2]);
    var i :| 0 <= i < |v.events| && v.events[i] == EventOf(v.items[s2][k2]);
    assert v.events[i].pos == q;
    assert i == j;
  }

  // The cell of a label holds its estimate.
  lemma LabelCell(v: View, s2: nat, k2: nat)
    requires LayoutInv(v) && s2 < |v.items| && k2 < |v.items[s2]| && IsLabel(v.items[s2][k2].act)
    ensures var q := v.items[s2][k2].pos; q in v.cells && v.cells[q] == Est(v, s2, k2)
  {
    assert Lays(v.al, v.cells, v.links, s2, v.items[s2], v.ends[s2]);
    assert ItemOk(v.al, v.cells, v.links, v.items[s2][k2], EndAt(v.items[s2], v.ends[s2], k2 + 1));
  }

  // -- The pass --------------------------------------------------------------

  // The encoder d while its cells are rewritten; v is its state when the main
  // loop began.
  ghost predicate Linking(d: Encoder, v: View)
    reads d
  {
    LinkingOf(d.actionlist, d.sections, v)
  }

  ghost predicate LinkingOf(al: seq<Byte>, sections: seq<SecRec>, v: View) {
    && LinkReady(v) && Geometry(v)
    && al == v.al && |sections| == |v.ends| == |v.items|
    && (forall r :: 0 <= r < |sections| ==> sections[r].pos == v.ends[r].pos && sections[r].ofs == v.ends[r].ofs)
    && (forall r :: 0 <= r < |v.ends| ==> v.ends[r].ap == -1)
  }

  // Cumulative section offsets for a label ahead in a later section.
  method AddSections(d: Encoder, ghost v: View, s: nat, r: nat, lofs: int) returns (x: int)
    requires s <= r <= |d.sections| == |v.ends|
    requires forall i :: 0 <= i < |d.sections| ==> d.sections[i].ofs == v.ends[i].ofs
    ensures x == lofs + SumOfs(v, s, r)
  {
    x := lofs;
    for i := s to r
      invariant x == lofs + SumOfs(v, s, i)
    {
      x := x + d.sections[i].ofs;
    }
  }

  // The decision of pass 2 for a relative operand.
  method ShrinkBranch(d: Encoder, ghost v: View, s: nat, ghost k: nat, pos: int, op: int, ofs: int, ghost f0: int)
    returns (shrink: int)
    requires Linking(d, v) && s < |v.items| && k < |v.items[s]| && IsRel(v.items[s][k].act)
    requires Untouched(v, d.cells, pos) && pos == v.items[s][k].pos
    requires op == LitAt(v.items[s], k - 1) && ofs == f0 - Est(v, s, k)
    requires pos in v.cells && pos + 1 in v.cells && v.cells[pos + 1] == Est(v, s, k + 1)
    ensures pos in d.cells && shrink == ShrinkFor(v, d.cells, s, k, f0)
  {
    hide LinkReady, Geometry, Untouched, SumOfs, IsTarget, SecOf;
    LinkTarget(v, d.cells, s, k);
    shrink := Shrink(op);
    if shrink != 0 {
      var lpos := d.cells[pos];
      if lpos < 0 {
        shrink := 0;
      } else {
        var lofs := d.cells[lpos];
        if lpos > pos {
          lofs := AddSections(d, v, s, SecOf(lpos), lofs);
        } else {
          lofs := lofs - ofs;
        }
        lofs := lofs - d.cells[pos + 1];
        if !(lofs >= -128 - shrink && lofs <= 127) {
          shrink := 0;
        }
      }
    }
  }

  lemma LinkTarget(v: View, cells: map<int, int>, s: nat, k: nat)
    requires LinkReady(v) && Geometry(v) && s < |v.items| && k < |v.items[s]| && IsRel(v.items[s][k].act)
    requires Untouched(v, cells, v.items[s][k].pos) && v.items[s][k].pos + 1 in v.cells
    ensures v.items[s][k].pos in cells && cells[v.items[s][k].pos] == v.cells[v.items[s][k].pos]
    ensures v.items[s][k].pos + 1 in cells && cells[v.items[s][k].pos + 1] == v.cells[v.items[s][k].pos + 1]
    ensures var t := cells[v.items[s][k].pos];
            t >= 0 ==> t in cells && t != v.items[s][k].pos && (t > v.items[s][k].pos ==> s <= SecOf(t) < |v.ends|)
  {
    var s2, k2 := RefLeads(v, s, k);
    hide LinkReady;
    if v.cells[v.items[s][k].pos] >= 0 {
      assert LayoutInv(v) by { ReadyParts(v); }
      LabelCell(v, s2, k2);
      TargetSection(v, s2, k2);
      TargetSection(v, s, k);
      PosOrder(v, s, k, s2, k2);
      PosOrder(v, s2, k2, s, k);
    }
  }

  lemma ReadyParts(v: View)
    requires LinkReady(v)
    ensures LayoutInv(v) && HistoryInv(v) && Bound(v.events, v.cells)
  {
  }

  // The byte in front of a relative operand is the opcode of its instruction.
  lemma EndsCount(v: View)
    requires LayoutInv(v)
    ensures |v.ends| == |v.items|
  {
  }

  lemma LitFirst(I: seq<Item>, k: nat)
    requires k < |I| && OpcodeOk(I, k) && IsRel(I[k].act)
    ensures k >= 1 && IsLit(I[k - 1].act) && LitAt(I, k - 1) == I[k - 1].act.b
  {
  }

  lemma EndIs(I: seq<Item>, e: End, k: nat)
    requires k < |I|
    ensures EndAt(I, e, k) == End(I[k].pos, I[k].ofs, I[k].ap)
  {
  }

  lemma OpcodeByte(v: View, s: nat, k: nat)
    requires LayoutInv(v) && s < |v.items| && k < |v.items[s]| && IsRel(v.items[s][k].act)
    ensures var p := v.items[s][k].ap;
            1 <= p <= |v.al| && k >= 1 && IsLit(v.items[s][k - 1].act) && v.al[p - 1] == LitAt(v.items[s], k - 1)
  {
    hide *;
    EndsCount(v);
    StoredOpcode(v, s, k);
    LitFirst(v.items[s], k);
    StoredItem(v, s, k - 1);
    PrevEnd(v.al, v.cells, v.links, v.items[s][k - 1], EndAt(v.items[s], v.ends[s], k));
    EndIs(v.items[s], v.ends[s], k);
  }

  lemma PrevEnd(al: seq<Byte>, cells: map<int, int>, links: set<int>, it: Item, nx: End)
    requires ItemOk(al, cells, links, it, nx) && IsLit(it.act)
    ensures 1 <= nx.ap <= |al| && al[nx.ap - 1] == it.act.b
  {
  }

  lemma StoredOpcode(v: View, s: nat, k: nat)
    requires LayoutInv(v) && s < |v.items| && k < |v.items[s]|
    ensures OpcodeOk(v.items[s], k)
  {
    hide ItemOk, OpcodeOk;
    assert Lays(v.al, v.cells, v.links, s, v.items[s], v.ends[s]);
  }

  // The stored form of item k.
  lemma StoredItem(v: View, s: nat, k: nat)
    requires LayoutInv(v) && s < |v.items| && k < |v.items[s]|
    ensures ItemOk(v.al, v.cells, v.links, v.items[s][k], EndAt(v.items[s], v.ends[s], k + 1))
  {
    assert Lays(v.al, v.cells, v.links, s, v.items[s], v.ends[s]);
  }

  // One action of pass 2 (other than the end of a put).
  method LinkAction(d: Encoder, ghost v: View, ghost fin: Offsets, s: nat, ghost k: nat, pos: int, p: int, ofs: int)
    returns (npos: int, nofs: int)
    requires s < |v.items| == |v.ends| && k < |v.items[s]| && p >= 0 && |fin| == s + 1 && |fin[s]| == k + 1
    requires v.items[s][k].pos == pos && v.items[s][k].ap == p && !IsEnd(v.items[s][k].act)
    requires LinkState(v, fin, d.cells, s, k) && ofs == fin[s][k] - Est(v, s, k)
    requires Linking(d, v)
    modifies d`cells
    ensures npos == pos + Slots(v.items[s][k].act)
    ensures LinkState(v, fin[s := fin[s] + [nofs + Est(v, s, k + 1)]], d.cells, s, k + 1)
  {
    hide LinkState, LinkReady, Geometry, PlacedAt, Est, ActAt;
    ghost var it, f0, cells0 := v.items[s][k], fin[s][k], d.cells;
    ActionReady(v, fin, d.cells, s, k);
    var a := ActAt(d.actionlist, p);
    npos, nofs := pos, ofs;
    if IsRel(a) {
      var shrink := ShrinkBranch(d, v, s, k, pos, d.actionlist[p - 1], ofs, f0);
      nofs := ofs - shrink;
      d.cells := d.cells[pos + 1 := shrink];
      npos := pos + 2;
      BranchPlaces(v, cells0, d.cells, s, k, f0);
    } else if IsLabel(a) {
      d.cells := d.cells[pos := d.cells[pos] + ofs];
      npos := pos + 1;
      LabelPlaces(v, d.cells, s, k, f0);
    } else if a.Align? {
      nofs := ofs - (d.cells[pos] + ofs) % (a.mask + 1);
      npos := pos + 1;
      AlignPlaces(v, d.cells, s, k, f0);
    } else {
      if Slots(a) == 1 { npos := pos + 1; }
      OtherPlaces(v, d.cells, s, k, f0);
    }
    PlaceNext(v, fin, cells0, d.cells, s, k, nofs + Est(v, s, k + 1));
  }

  lemma BranchPlaces(v: View, cells: map<int, int>, cells': map<int, int>, s: nat, k: nat, f0: int)
    requires s < |v.items| == |v.ends| && k < |v.items[s]| && IsRel(v.items[s][k].act)
    requires Untouched(v, cells, v.items[s][k].pos) && v.items[s][k].pos in cells && v.items[s][k].pos + 1 in cells
    requires cells' == cells[v.items[s][k].pos + 1 := ShrinkFor(v, cells, s, k, f0)]
    ensures PlacedAt(v, cells', s, k, f0, f0 + 4 - cells'[v.items[s][k].pos + 1])
  {
    hide Est, SumOfs, SecOf, InReach, MayShrink;
    var q := v.items[s][k].pos;
    var t := cells[q];
    assert cells'[q] == t;
    assert q in v.cells;
    if t > q && t in v.cells {
      ShrinkForFrame(v, cells, cells'[t := v.cells[t]], s, k, f0);
    }
    if t < q {
      ShrinkForFrame(v, cells, cells', s, k, f0);
    }
    assert cells'[q] == v.cells[q] by { assert cells[q] == v.cells[q]; }
  }

  lemma LabelPlaces(v: View, cells: map<int, int>, s: nat, k: nat, f0: int)
    requires s < |v.items| == |v.ends| && k < |v.items[s]| && IsLabel(v.items[s][k].act)
    requires v.items[s][k].pos in cells && cells[v.items[s][k].pos] == f0
    ensures PlacedAt(v, cells, s, k, f0, f0)
  {
  }

  lemma AlignPlaces(v: View, cells: map<int, int>, s: nat, k: nat, f0: int)
    requires s < |v.items| == |v.ends| && k < |v.items[s]| && v.items[s][k].act.Align? && v.items[s][k].pos in cells
    ensures PlacedAt(v, cells, s, k, f0, AlignUp(f0, v.items[s][k].act.mask))
  {
  }

  lemma OtherPlaces(v: View, cells: map<int, int>, s: nat, k: nat, f0: int)
    requires s < |v.items| == |v.ends| && k < |v.items[s]|
    requires var a := v.items[s][k].act; !IsRel(a) && !IsLabel(a) && !a.Align?
    requires var it := v.items[s][k]; KeepsCell(it.act) ==> it.pos in v.cells && it.pos in cells
                                                            && cells[it.pos] == v.cells[it.pos]
    ensures PlacedAt(v, cells, s, k, f0, f0 + MaxSize(v.items[s][k].act, v.items[s][k].arg))
  {
  }

  // What the cells of item k of section s hold when pass 2 gets there.
  ghost predicate Ready(v: View, cells: map<int, int>, s: nat, k: nat)
    requires s < |v.items| == |v.ends| && k < |v.items[s]|
  {
    var it := v.items[s][k];
    && Untouched(v, cells, it.pos)
    && (it.ap >= 0 ==> it.act == ActAt(v.al, it.ap) && !it.act.Unsupported?)
    && Est(v, s, k + 1) == Est(v, s, k) + MaxSize(it.act, it.arg)
    && (IsRel(it.act) ==> 1 <= it.ap <= |v.al| && v.al[it.ap - 1] == LitAt(v.items[s], k - 1))
    && (IsRel(it.act) ==> it.pos + 1 in v.cells && it.pos + 1 !in v.links && v.cells[it.pos + 1] == Est(v, s, k + 1))
    && (IsLabel(it.act) ==> it.pos in cells && cells[it.pos] == Est(v, s, k) && it.pos !in v.links)
    && (it.act.Align? ==> it.pos in cells && cells[it.pos] == Est(v, s, k + 1))
    && (KeepsCell(it.act) ==> it.pos in v.cells && it.pos in cells && cells[it.pos] == v.cells[it.pos])
  }

  lemma ActionReady(v: View, fin: Offsets, cells: map<int, int>, s: nat, k: nat)
    requires s < |v.items| == |v.ends| && k < |v.items[s]|
    requires LinkReady(v) && Geometry(v) && LinkState(v, fin, cells, s, k)
    ensures Ready(v, cells, s, k)
  {
    hide LayoutOf, HistoryInv, Bound, ActAt, PlacedSoFar, StartsOk, Geometry, OpcodeOk;
    EstStep(v, s, k);
    StoredItem(v, s, k);
    if IsRel(v.items[s][k].act) { OpcodeByte(v, s, k); }
  }

  // The walk of pass 2 over one section.
  method LinkSection(d: Encoder, ghost v: View, ghost fin: Offsets, s: nat, ofs: int)
    returns (nofs: int, ghost fin': Offsets)
    requires s < |v.items| == |v.ends| && s < |d.sections| && |fin| == s + 1 && |fin[s]| == 1 && ofs == fin[s][0]
    requires LinkState(v, fin, d.cells, s, 0) && Linking(d, v)
    modifies d`cells
    ensures |fin'| == s + 1 && |fin'[s]| == |v.items[s]| + 1
    ensures LinkState(v, fin', d.cells, s, |v.items[s]|)
    ensures nofs + d.sections[s].ofs == fin'[s][|v.items[s]|]
  {
    hide LinkState, LinkReady, Geometry, ActAt;
    nofs, fin' := ofs, fin;
    SectionStart(v, s);
    var pos := Base(s);
    var lastpos := d.sections[s].pos;
    ghost var k := 0;
    while pos != lastpos
      invariant k <= |v.items[s]| && |fin'| == s + 1 && |fin'[s]| == k + 1
      invariant LinkState(v, fin', d.cells, s, k) && nofs == fin'[s][k] - Est(v, s, k)
      invariant EndAt(v.items[s], v.ends[s], k).pos == pos && EndAt(v.items[s], v.ends[s], k).ap == -1
      decreases |v.items[s]| - k
    {
      PutStart(v, fin', d.cells, s, k);
      var p := d.cells[pos];
      pos := pos + 1;
      BeginPlaces(v, fin', d.cells, s, k);
      fin' := fin'[s := fin'[s] + [nofs + Est(v, s, k + 1)]];
      k := k + 1;
      while !IsEnd(ActAt(d.actionlist, p))
        invariant 0 < k < |v.items[s]| && |fin'| == s + 1 && |fin'[s]| == k + 1
        invariant LinkState(v, fin', d.cells, s, k) && nofs == fin'[s][k] - Est(v, s, k)
        invariant v.items[s][k].pos == pos && v.items[s][k].ap == p >= 0 && v.items[s][k].act == ActAt(d.actionlist, p)
        decreases |v.items[s]| - k
      {
        ItemFollows(v, s, k);
        var a := ActAt(d.actionlist, p);
        pos, nofs := LinkAction(d, v, fin', s, k, pos, p, nofs);
        fin' := fin'[s := fin'[s] + [nofs + Est(v, s, k + 1)]];
        p := p + Len(a);
        k := k + 1;
      }
      EndPlaces(v, fin', d.cells, s, k);
      fin' := fin'[s := fin'[s] + [nofs + Est(v, s, k + 1)]];
      k := k + 1;
    }
    SectionFinished(v, s, k);
  }

  lemma SectionStart(v: View, s: nat)
    requires Geometry(v) && s < |v.items|
    ensures EndAt(v.items[s], v.ends[s], 0) == End(Base(s), 0, -1) && Est(v, s, 0) == 0
  {
  }

  // All items are done exactly when the end position is reached.
  lemma SectionFinished(v: View, s: nat, k: nat)
    requires LinkReady(v) && s < |v.items| == |v.ends| && k <= |v.items[s]|
    requires EndAt(v.items[s], v.ends[s], k).pos == v.ends[s].pos && EndAt(v.items[s], v.ends[s], k).ap == -1
    ensures k == |v.items[s]| && Est(v, s, k) == v.ends[s].ofs
  {
    hide LayoutOf, HistoryInv, Bound, ActAt;
    if k < |v.items[s]| {
      LayoutGeometry(v);
      assert Sized(v, s, k);
      StoredItem(v, s, k);
    }
  }

  // At a put boundary before the end stands a Begin, which names the first action.
  lemma PutStart(v: View, fin: Offsets, cells: map<int, int>, s: nat, k: nat)
    requires LinkReady(v) && s < |v.items| == |v.ends| && k <= |v.items[s]|
    requires LinkState(v, fin, cells, s, k) && v.ends[s].ap == -1
    requires EndAt(v.items[s], v.ends[s], k).pos != v.ends[s].pos && EndAt(v.items[s], v.ends[s], k).ap == -1
    ensures k + 1 < |v.items[s]| && v.items[s][k].act.Begin?
    ensures v.items[s][k].pos in cells && cells[v.items[s][k].pos] == v.items[s][k + 1].ap >= 0
    ensures v.items[s][k + 1].pos == v.items[s][k].pos + 1 && v.items[s][k + 1].act == ActAt(v.al, v.items[s][k + 1].ap)
  {
    hide LayoutOf, HistoryInv, Bound, ActAt, PlacedSoFar, StartsOk, OpcodeOk;
    StoredItem(v, s, k);
    assert v.cells[v.items[s][k].pos] == v.items[s][k].act.start;
    assert EndAt(v.items[s], v.ends[s], k + 1).ap == v.items[s][k].act.start;
    StoredItem(v, s, k + 1);
  }

  // Behind any action but the last of a put stands the next one of the list.
  lemma ItemFollows(v: View, s: nat, k: nat)
    requires LinkReady(v) && s < |v.items| == |v.ends| && k < |v.items[s]| && v.ends[s].ap == -1
    requires v.items[s][k].ap >= 0 && !IsEnd(v.items[s][k].act)
    ensures k + 1 < |v.items[s]| && v.items[s][k + 1].ap == v.items[s][k].ap + Len(v.items[s][k].act)
    ensures v.items[s][k + 1].pos == v.items[s][k].pos + Slots(v.items[s][k].act)
    ensures v.items[s][k + 1].act == ActAt(v.al, v.items[s][k + 1].ap)
  {
    hide LayoutOf, HistoryInv, Bound, ActAt, OpcodeOk;
    StoredItem(v, s, k);
    assert EndAt(v.items[s], v.ends[s], k + 1).ap >= 0;
    StoredItem(v, s, k + 1);
  }

  lemma BeginPlaces(v: View, fin: Offsets, cells: map<int, int>, s: nat, k: nat)
    requires LinkReady(v) && Geometry(v) && s < |v.items| == |v.ends| && k < |v.items[s]| && v.items[s][k].act.Begin?
    requires |fin| == s + 1 && |fin[s]| == k + 1 && LinkState(v, fin, cells, s, k)
    ensures LinkState(v, fin[s := fin[s] + [fin[s][k] - Est(v, s, k) + Est(v, s, k + 1)]], cells, s, k + 1)
  {
    hide LinkReady, Geometry, LinkState, PlacedAt, Est;
    ActionReady(v, fin, cells, s, k);
    OtherPlaces(v, cells, s, k, fin[s][k]);
    PlaceNext(v, fin, cells, cells, s, k, fin[s][k]);
  }

  lemma EndPlaces(v: View, fin: Offsets, cells: map<int, int>, s: nat, k: nat)
    requires LinkReady(v) && Geometry(v) && s < |v.items| == |v.ends| && k < |v.items[s]| && IsEnd(v.items[s][k].act)
    requires |fin| == s + 1 && |fin[s]| == k + 1 && LinkState(v, fin, cells, s, k)
    ensures LinkState(v, fin[s := fin[s] + [fin[s][k] - Est(v, s, k) + Est(v, s, k + 1)]], cells, s, k + 1)
    ensures EndAt(v.items[s], v.ends[s], k + 1).ap == -1
    ensures EndAt(v.items[s], v.ends[s], k + 1).pos == v.items[s][k].pos
  {
    hide LinkReady, Geometry, LinkState, PlacedAt, Est;
    EndBoundary(v, s, k);
    ActionReady(v, fin, cells, s, k);
    OtherPlaces(v, cells, s, k, fin[s][k]);
    PlaceNext(v, fin, cells, cells, s, k, fin[s][k]);
  }

  lemma EndBoundary(v: View, s: nat, k: nat)
    requires LinkReady(v) && s < |v.items| == |v.ends| && k < |v.items[s]| && IsEnd(v.items[s][k].act)
    ensures EndAt(v.items[s], v.ends[s], k + 1).ap == -1
    ensures EndAt(v.items[s], v.ends[s], k + 1).pos == v.items[s][k].pos
  {
    hide LayoutOf, HistoryInv, Bound, ActAt, OpcodeOk;
    StoredItem(v, s, k);
  }

  // Globals that no put defined: their references get the negated number.
  method MarkGlobals(d: Encoder)
    requires d.Valid()
    modifies d`cells
    ensures Marked(old(d.V()), d.cells, |d.lglabels|)
  {
    hide Inv, Marked, ChainOf, ChainOk, Fill, InBuf, Used;
    ghost var v := d.V();
    AllInBuf(d);
    InvParts(v);
    NothingMarked(v);
    var idx := 10;
    while idx < |d.lglabels|
      invariant 10 <= idx <= |d.lglabels|
      invariant Marked(v, d.cells, idx)
    {
      MarkReady(v, d.cells, idx);
      ghost var cells := d.cells;
      d.Collapse(d.lglabels[idx], -idx, ChainOf(v, LG(idx)));
      MarkStep(v, cells, idx);
      idx := idx + 1;
    }
  }

  lemma AllInBuf(d: Encoder)
    requires d.Valid()
    ensures forall q :: Used(d.ends, q) ==> InBuf(d.sections, q)
  {
    hide HistoryInv, Resolved, TableInv, LayoutOf;
    forall q | Used(d.ends, q)
      ensures InBuf(d.sections, q)
    {
      var r :| 0 <= r < |d.ends| && InSection(d.ends, r, q);
      d.SectionBounds(r);
      PosOfSection(r, q);
    }
  }

  lemma NothingMarked(v: View)
    ensures Marked(v, v.cells, 10)
  {
  }

  // A label table with no pending entry that link would not handle.
  lemma NonePending(v: View)
    requires Inv(v) && |v.lg| >= 10
    requires forall n :: 1 <= n <= 9 ==> v.lg[n] <= 0
    requires forall n :: 0 <= n < |v.pc| ==> v.pc[n] <= 0
    ensures forall l :: ValidLab(v, l) && (l.PC? || l.n < 10) ==> !StateOf(v.events, l).Pending?
  {
    InvParts(v);
    hide Inv, StateOf, LayoutInv, WfEvents, GoodHistory;
    forall l | ValidLab(v, l) && (l.PC? || l.n < 10)
      ensures !StateOf(v.events, l).Pending?
    {
      EntrySign(v, l);
      if l.LG? && l.n == 0 {
        ZeroNeverPending(v.events);
        assert l == LG(0);
      } else if l.LG? {
        assert l == LG(l.n);
      }
    }
  }

  // dasm_link: on success all sections are placed and every reference is bound.
  method Link(d: Encoder) returns (st: Status, sz: int, ghost v: View, ghost fin: Offsets)
    requires d.status.OK? ==> d.Valid() && forall n :: 1 <= n <= 9 ==> d.lglabels[n] <= 0
    requires d.status.OK? ==> 0 < |d.sections|
    modifies d`cells, d`codesize
    ensures !d.status.OK? ==> st == d.status && sz == 0
    ensures d.status.OK? ==> (st.OK? <==> forall pc :: 0 <= pc < |d.pclabels| ==> d.pclabels[pc] <= 0)
    ensures d.status.OK? && !st.OK? ==>
              st.UndefPC? && 0 <= st.n < |d.pclabels| && d.pclabels[st.n] > 0 &&
              forall pc :: 0 <= pc < st.n ==> d.pclabels[pc] <= 0
    ensures d.status.OK? && st.OK? ==>
              && v == old(d.V()).(cells := v.cells) && Linking(d, v)
              && Linked(v, fin, d.cells, sz) && d.codesize == sz && PcDone(v)
  {
    sz := 0;
    v, fin := d.V(), [];
    st := d.status;
    if !d.status.OK? { return; }
    var pc := 0;
    while pc < |d.pclabels|
      invariant 0 <= pc <= |d.pclabels|
      invariant forall i :: 0 <= i < pc ==> d.pclabels[i] <= 0
    {
      if d.pclabels[pc] > 0 {
        st := UndefPC(pc);
        return;
      }
      pc := pc + 1;
    }
    NonePending(v);
    PcEntries(v);
    MarkGlobals(d);
    v := v.(cells := d.cells);
    MarkedReady(old(d.V()), d.cells);
    fin, sz := LinkSections(d, v);
    d.codesize := sz;
  }

  lemma MarkedReady(v: View, cells: map<int, int>)
    requires Inv(v) && Marked(v, cells, |v.lg|)
    requires forall l :: ValidLab(v, l) && (l.PC? || l.n < 10) ==> !StateOf(v.events, l).Pending?
    ensures LinkReady(v.(cells := cells)) && Geometry(v.(cells := cells))
  {
    hide StateOf, Lays, MarkedCell, Geometry;
    MarkedLayout(v, cells, |v.lg|);
    MarkedBound(v, cells);
    var w := v.(cells := cells);
    forall i | 0 <= i < |w.events|
      ensures Placeable(w, w.events[i]) && (w.events[i].Def? ==> HasLabel(w, w.events[i].pos))
    {
      assert Placeable(v, v.events[i]);
      assert v.events[i].Def? ==> HasLabel(v, v.events[i].pos);
    }
    LayoutGeometry(w);
  }

  // All sections in turn; each starts right behind the one before it.
  method LinkSections(d: Encoder, ghost v: View) returns (ghost fin: Offsets, ofs: int)
    requires 0 < |d.sections| && Linking(d, v) && d.cells == v.cells
    modifies d`cells
    ensures Linked(v, fin, d.cells, ofs)
  {
    hide LinkState, LinkReady, Geometry, Linked;
    ofs, fin := 0, [[0]];
    LinkStarts(v);
    var s := 0;
    while s < |d.sections|
      invariant 0 <= s <= |d.sections|
      invariant s < |d.sections| ==>
                  |fin| == s + 1 && |fin[s]| == 1 && ofs == fin[s][0] && LinkState(v, fin, d.cells, s, 0)
      invariant s == |d.sections| ==> Linked(v, fin, d.cells, ofs)
    {
      ofs, fin := LinkSection(d, v, fin, s, ofs);
      ofs := ofs + d.sections[s].ofs;
      if s + 1 < |d.sections| {
        NextSection(v, fin, d.cells, s);
        fin := fin + [[fin[s][|v.items[s]|]]];
      } else {
        LinkDone(v, fin, d.cells, s);
      }
      s := s + 1;
    }
  }

  lemma LinkStarts(v: View)
    requires 0 < |v.items| == |v.ends|
    ensures LinkState(v, [[0]], v.cells, 0, 0)
  {
  }

  // What dasm_getpclabel answers: -2 for an unused label, -1 for an undefined one.
  function PcLabel(pcs: seq<int>, cells: map<int, int>, pc: int): int {
    if !(0 <= pc < |pcs|) || pcs[pc] == 0 then -2
    else if pcs[pc] > 0 then -1
    else if -pcs[pc] in cells then cells[-pcs[pc]] else 0
  }

  // dasm_getpclabel.
  method GetPcLabel(d: Encoder, pc: int) returns (r: int)
    requires forall q :: 0 <= q < |d.pclabels| && d.pclabels[q] < 0 ==> -d.pclabels[q] in d.cells
    ensures r == PcLabel(d.pclabels, d.cells, pc)
  {
    if 0 <= pc < |d.pclabels| {
      var pos := d.pclabels[pc];
      if pos < 0 { return d.cells[-pos]; }
      if pos > 0 { return -1; }
    }
    return -2;
  }

  // After a successful link a pc label's entry holds its last definition, if any.
  ghost predicate PcDone(v: View) {
    forall pc :: 0 <= pc < |v.pc| ==> v.pc[pc] == -PrevDef(v.events, PC(pc), |v.events|) <= 0
  }

  lemma PcEntries(v: View)
    requires Inv(v) && forall n :: 0 <= n < |v.pc| ==> v.pc[n] <= 0
    ensures PcDone(v)
  {
    InvParts(v);
    forall pc | 0 <= pc < |v.pc|
      ensures v.pc[pc] == -PrevDef(v.events, PC(pc), |v.events|)
    {
      EntrySign(v, PC(pc));
      DefinedIsLast(v.events, PC(pc));
      NoDefNegative(v.events, PC(pc), |v.events|);
      hide Inv, StateOf, HistoryInv, TableInv;
    }
  }

  lemma {:induction false} NoDefNegative(ev: seq<Event>, l: Lab, i: nat)
    requires i <= |ev|
    ensures WfEvents(ev) ==> PrevDef(ev, l, i) >= 0
  {
    if i > 0 { NoDefNegative(ev, l, i - 1); }
  }

  // dasm_getpclabel after dasm_link: the offset at which pass 2 placed the last
  // definition of the label.
  lemma PcLabelPlaced(v: View, fin: Offsets, cells: map<int, int>, codesize: int, pc: nat)
    requires LinkReady(v) && PcDone(v) && Linked(v, fin, cells, codesize) && pc < |v.pc|
    ensures v.pc[pc] < 0 ==> -v.pc[pc] in cells
    ensures var t := PrevDef(v.events, PC(pc), |v.events|);
            if t == 0 then PcLabel(v.pc, cells, pc) == -2 else LabelAt(v, fin, t, PcLabel(v.pc, cells, pc))
  {
    var t := PrevDef(v.events, PC(pc), |v.events|);
    PrevDefIsDef(v.events, PC(pc), |v.events|);
    assert v.pc[pc] == -t <= 0;
    hide *;
    if t != 0 {
      var j :| 0 <= j < |v.events| && v.events[j].Def? && v.events[j].lab == PC(pc) && v.events[j].pos == t;
      ReadyHistory(v);
      var s2, k2 := LabelOf(v, j);
      TargetPlaced(v, fin, cells, codesize, t, s2, k2);
    }
    PcLabelIs(v.pc, cells, pc);
  }

  lemma ReadyHistory(v: View)
    requires LinkReady(v)
    ensures LayoutInv(v) && HistoryInv(v)
  {
  }

  lemma PcLabelIs(pcs: seq<int>, cells: map<int, int>, pc: nat)
    requires pc < |pcs| && pcs[pc] <= 0
    ensures PcLabel(pcs, cells, pc) == if pcs[pc] == 0 then -2 else if -pcs[pc] in cells then cells[-pcs[pc]] else 0
  {
  }

  // The label at position t stands at offset x of the code.
  ghost predicate LabelAt(v: View, fin: Offsets, t: int, x: int) {
    exists s2: nat, k2: nat :: IsTarget(v, t, s2, k2) && s2 < |fin| && k2 < |fin[s2]| && fin[s2][k2] == x
  }

  lemma TargetPlaced(v: View, fin: Offsets, cells: map<int, int>, codesize: int, t: int, s2: nat, k2: nat)
    requires Linked(v, fin, cells, codesize) && IsTarget(v, t, s2, k2)
    ensures t in cells && LabelAt(v, fin, t, cells[t])
  {
    assert Placed(v, fin, cells, s2, k2);
  }

  // -- Undefined labels ------------------------------------------------------

  lemma {:induction false} NoNextDef(ev: seq<Event>, l: Lab, i: nat, j: nat)
    requires WfEvents(ev) && NextDef(ev, l, i) == 0 && i <= j < |ev|
    ensures !(ev[j].Def? && ev[j].lab == l)
    decreases |ev| - i
  {
    if i < j { NoNextDef(ev, l, i + 1, j); }
  }

  lemma {:induction false} NoPrevDef(ev: seq<Event>, l: Lab, i: nat, j: nat)
    requires WfEvents(ev) && i <= |ev| && PrevDef(ev, l, i) == 0 && j < i
    ensures !(ev[j].Def? && ev[j].lab == l)
    decreases i
  {
    if j < i - 1 { NoPrevDef(ev, l, i - 1, j); }
  }

  // A reference marked with a label number means no put defines that label.
  lemma UndefinedHere(v: View, s: nat, k: nat)
    requires LinkReady(v) && s < |v.items| && k < |v.items[s]| && IsRef(v.items[s][k].act)
    requires v.items[s][k].pos in v.cells && v.cells[v.items[s][k].pos] < 0
    ensures var t := v.cells[v.items[s][k].pos];
            && -t < |v.lg|
            && forall r, j :: 0 <= r < |v.items| && 0 <= j < |v.items[r]| && v.items[r][j].act.LabLG?
                              ==> v.items[r][j].act.n != -t
  {
    hide LayoutOf, GoodHistory, Target;
    var it := v.items[s][k];
    var t := v.cells[it.pos];
    assert Recorded(v.events, it);
    var i :| 0 <= i < |v.events| && v.events[i] == EventOf(it);
    assert BoundAt(v.events, v.cells, i) && Placeable(v, v.events[i]);
    TargetIsDef(v.events, i);
    DefsPositive(v, i);
    NoTarget(v.events, i);
    forall r, j | 0 <= r < |v.items| && 0 <= j < |v.items[r]| && v.items[r][j].act.LabLG?
      ensures v.items[r][j].act.n != -t
    {
      assert Recorded(v.events, v.items[r][j]);
      var x :| 0 <= x < |v.events| && v.events[x] == EventOf(v.items[r][j]);
      if v.items[r][j].act.n == -t {
        if x > i { NoNextDef(v.events, v.events[i].lab, i + 1, x); }
          else { NoPrevDef(v.events, v.events[i].lab, i, x); }
      }
    }
  }

  lemma NoTarget(ev: seq<Event>, i: nat)
    requires i < |ev| && IsReference(ev[i])
    ensures Target(ev, i) == 0 ==> NextDef(ev, ev[i].lab, i + 1) == 0 && (ev[i].Ref? ==> PrevDef(ev, ev[i].lab, i) == 0)
  {
  }

  lemma DefsPositive(v: View, i: nat)
    requires LinkReady(v) && i < |v.events| && IsReference(v.events[i])
    ensures Target(v.events, i) >= 0
  {
    hide LayoutOf, GoodHistory, Target;
    TargetIsDef(v.events, i);
  }
}
