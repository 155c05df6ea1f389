// Side traces: assembled down to the values they inherit from the parent trace,
// and joined to it by the head of asm_head_side.
module RaSide {
  import opened RaIr
  import opened RaInv
  import opened RaState
  import opened RaTrace
  import opened RaHead

  // The instructions below top are inherited: the parent leaves each in a register
  // of its own.
  predicate ParentRegs(c: Cfg, parent: seq<nat>, top: nat) {
    && |parent| == |c.ir| && c.nk <= top <= |c.ir|
    && (forall x :: c.nk <= x < top ==> parent[x] in ClassSet(c, x))
    && (forall x, y :: c.nk <= x < y < top ==> parent[x] != parent[y])
  }

  // A machine state as the parent leaves it, as far as the side trace is concerned.
  ghost predicate Inherited(c: Cfg, sem: Sem, parent: seq<nat>, top: nat, m: M) {
    |parent| == |c.ir| && forall x :: c.nk <= x < top <= |c.ir| && Wanted(c, x, top)
                                      ==> Reg(m, parent[x]) == Val(sem, c.ir, x)
  }

  // The code computes out from any state in which the registers regs hold the
  // inherited values, and it needs just those.
  ghost predicate StartsFrom(c: Cfg, sem: Sem, regs: seq<nat>, top: nat, code: seq<MIns>, out: seq<(nat, int)>) {
    && |regs| == |c.ir| && top <= |c.ir|
    && (forall x :: c.nk <= x < top ==> (HasReg(regs[x]) <==> Wanted(c, x, top)))
    && forall m: M :: (forall x :: c.nk <= x < top && Wanted(c, x, top) ==> Reg(m, regs[x]) == Val(sem, c.ir, x))
                      ==> Run(sem, code, m).log == m.log + out
  }

  // lj_asm_trace for a side trace, unless an inherited value needs a stack slot
  // (stacked), for which there are two more passes. The loop has left the inherited
  // values in the registers regs, with the code body.
  method AsmSideTrace(c: Cfg, ghost sem: Sem, hints: seq<nat>, parent: seq<nat>, top: nat)
    returns (res: Res<()>, a: AsmState, stacked: bool, ghost regs: seq<nat>, ghost body: seq<MIns>)
    requires WfCfg(c) && |hints| == |c.ir| && ParentRegs(c, parent, top)
    requires forall x :: 0 <= x < |hints| ==> !HasReg(hints[x])
    ensures fresh(a) && a.c == c && (res.Ok? && !stacked ==> a.freeset == All(c))
    ensures res.Ok? && !stacked ==>
              forall m: M :: Inherited(c, sem, parent, top, m)
                             ==> Run(sem, a.code, m).log == m.log + Expected(c, sem, top)
    ensures stacked ==> res.Ok? && exists x :: c.nk <= x < top && x < |a.s| && a.s[x] != 0
    ensures res.TraceErr? ==> (res.err == SpillOv && RanOut(c, a.s, a.code)) || res.err == NyiCoal
    ensures !stacked && res != TraceErr(SpillOv) ==>
              && StartsFrom(c, sem, regs, top, body, Expected(c, sem, top))
              && (exists moves :: a.code == moves + body)
              && (res.TraceErr? <==> Tangled(c, regs, top, parent, c.gpr) || Tangled(c, regs, top, parent, c.fpr))
  {
    hide Inv, Reloaded, UsesExact, Expected, ParentOk, Inherits, Inherited, Wanted, SlotInv, Keeps, Run, RanOut,
      Tangled, StartsFrom;
    stacked, regs, body := false, [], [];
    res, a := AsmBackwards(c, sem, hints, top);
    if res.TraceErr? { return; }
    ghost var v0 := a.V();
    a.RaEvictk();
    ViewLengths(c, sem, a.V(), a.lim, a.code, a.need, a.out, a.pend);
    stacked := HasSlot(a, c.nk, top);
    if stacked { return; }
    SideReady(c, sem, v0, a.V(), top, a.code, a.need, a.out, parent);
    BodyStarts(c, sem, v0, a.V(), top, a.code, a.need, a.out, parent);
    regs, body := a.r, a.code;
    ghost var moves;
    res, moves := AsmHeadSide(a, parent, top);
    if res.TraceErr? { return; }
    forall m: M | Inherited(c, sem, parent, top, m)
      ensures Run(sem, a.code, m).log == m.log + Expected(c, sem, top)
    {
      assert Inherits(c, sem, regs, top, parent, m);
    }
  }

  // Whether an inherited value has a spill slot.
  method HasSlot(a: AsmState, from: nat, top: nat) returns (found: bool)
    requires from <= top <= |a.s|
    ensures found <==> exists x :: from <= x < top && a.s[x] != 0
  {
    for x := from to top
      invariant forall y :: from <= y < x ==> a.s[y] == 0
    {
      if a.s[x] != 0 { return true; }
    }
    found := false;
  }

  lemma SideReady(c: Cfg, sem: Sem, v0: View, v: View, top: nat, code: seq<MIns>, need: Need, out: seq<(nat, int)>,
                  parent: seq<nat>)
    requires WfCfg(c) && Inv(c, sem, v, top, code, need, out, -1) && ParentRegs(c, parent, top)
    requires UsesExact(c, v0, top) && Keeps(c, v0, v, top)
    requires forall q :: q in All(c) && q !in v.free && q < |v.cost| ==> CostRef(v.cost[q]) >= c.nk
    requires |v.s| >= top && !exists x :: c.nk <= x < top && v.s[x] != 0
    ensures ParentOk(c, v, top, parent)
    ensures forall m: M :: Inherited(c, sem, parent, top, m) ==> Inherits(c, sem, v.r, top, parent, m)
  {
    ViewLengths(c, sem, v, top, code, need, out, -1);
    forall x | 0 <= x < top
      ensures v.s[x] == 0
    {
      if x < c.nk { ConstNoSlot(c, sem, v, top, code, need, out, x); }
    }
    forall x | c.nk <= x < top && HasReg(v.r[x])
      ensures parent[x] in All(c) && SameFile(parent[x], v.r[x]) && Wanted(c, x, top)
    {
      Held(c, sem, v, top, code, need, out, -1, x);
      assert Used(v, x);
    }
    CostCount(c, sem, v, top, code, need, out);
    hide Inv, Reloaded, Wanted;
  }

  lemma ConstNoSlot(c: Cfg, sem: Sem, v: View, top: nat, code: seq<MIns>, need: Need, out: seq<(nat, int)>, x: nat)
    requires Inv(c, sem, v, top, code, need, out, -1) && x < c.nk
    ensures x < |v.s| && v.s[x] == 0
  {
    assert SlotOk(c, v, x);
  }

  lemma CostCount(c: Cfg, sem: Sem, v: View, top: nat, code: seq<MIns>, need: Need, out: seq<(nat, int)>)
    requires Inv(c, sem, v, top, code, need, out, -1)
    ensures |v.cost| == RID_MAX
  {
  }

  lemma BodyStarts(c: Cfg, sem: Sem, v0: View, v: View, top: nat, code: seq<MIns>, need: Need, out: seq<(nat, int)>,
                   parent: seq<nat>)
    requires Inv(c, sem, v, top, code, need, out, -1) && ParentOk(c, v, top, parent)
    requires UsesExact(c, v0, top) && Keeps(c, v0, v, top)
    ensures StartsFrom(c, sem, v.r, top, code, out)
  {
    ViewLengths(c, sem, v, top, code, need, out, -1);
    forall x | c.nk <= x < top
      ensures HasReg(v.r[x]) <==> Wanted(c, x, top)
    {
      assert Used(v, x) <==> Used(v0, x);
    }
    forall m: M | forall x :: c.nk <= x < top && Wanted(c, x, top) ==> Reg(m, v.r[x]) == Val(sem, c.ir, x)
      ensures Run(sem, code, m).log == m.log + out
    {
      BodyRuns(c, sem, v, top, code, need, out, parent, m);
    }
    hide Inv, ParentOk, UsesExact, Keeps, Wanted;
  }

  lemma BodyRuns(c: Cfg, sem: Sem, v: View, top: nat, code: seq<MIns>, need: Need, out: seq<(nat, int)>,
                 parent: seq<nat>, m: M)
    requires Inv(c, sem, v, top, code, need, out, -1) && ParentOk(c, v, top, parent)
    requires forall x :: c.nk <= x < top && HasReg(v.r[x]) ==> Reg(m, v.r[x]) == Val(sem, c.ir, x)
    ensures Run(sem, code, m).log == m.log + out
  {
    forall q | q in need
      ensures Reg(m, q) == Val(sem, c.ir, need[q])
    {
      assert NeedOk(c, v, top, need, -1, q);
      Holder(c, sem, v, top, code, need, out, -1, q);
      var x := need[q];
      assert c.nk <= x < top && v.r[x] == q;
    }
    assert Holds(sem, c.ir, m, need);
    assert SlotsOk(sem, c.ir, v.s, top, m);
  }
}
