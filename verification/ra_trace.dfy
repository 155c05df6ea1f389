// Assembling a loop-free trace backwards: the instruction shapes served by the
// allocator, the loop of lj_asm_trace with its dead-code elimination, and what
// the finished code computes.
module RaTrace {
  import opened RaIr
  import opened RaInv
  import opened RaState

  // -- What should be kept ---------------------------------------------------

  // An instruction stays if it has side effects or a later one that stays needs
  // its value.
  ghost predicate Kept(c: Cfg, x: nat)
    decreases |c.ir| - x
  {
    x < |c.ir| &&
    (!c.dce || SideEff(c.ir[x]) || exists y :: x < y < |c.ir| && NeededBy(c, x, y) && Kept(c, y))
  }

  predicate NeededBy(c: Cfg, x: nat, y: nat) { y < |c.ir| && Operand(c.ir[y], x) }

  ghost predicate Wanted(c: Cfg, x: nat, from: nat) {
    exists y :: from <= y < |c.ir| && NeededBy(c, x, y) && Kept(c, y)
  }

  // The values a run of the trace computes, in order.
  ghost function Expected(c: Cfg, sem: Sem, x: nat): seq<(nat, int)>
    decreases |c.ir| - x
  {
    if x >= |c.ir| then []
    else (if Kept(c, x) && !c.ir[x].Use? then [(x, Val(sem, c.ir, x))] else []) + Expected(c, sem, x + 1)
  }

  // Exactly the kept instructions appear, each with the value the IR gives it,
  // and in the order of the trace.
  ghost predicate Entry(c: Cfg, sem: Sem, x: nat, e: (nat, int)) {
    x <= e.0 < |c.ir| && Kept(c, e.0) && !c.ir[e.0].Use? && e.1 == Val(sem, c.ir, e.0)
  }

  lemma {:induction false} ExpectedExact(c: Cfg, sem: Sem, x: nat, e: (nat, int))
    ensures e in Expected(c, sem, x) <==> Entry(c, sem, x, e)
    decreases |c.ir| - x
  {
    if x < |c.ir| {
      ExpectedExact(c, sem, x + 1, e);
      var now := if Kept(c, x) && !c.ir[x].Use? then [(x, Val(sem, c.ir, x))] else [];
      assert e in now <==> e.0 == x && Entry(c, sem, x, e);
      assert e in now + Expected(c, sem, x + 1) <==> e in now || e in Expected(c, sem, x + 1);
    }
  }

  lemma {:induction false} ExpectedOrdered(c: Cfg, sem: Sem, x: nat)
    ensures var log := Expected(c, sem, x); forall k, l :: 0 <= k < l < |log| ==> log[k].0 < log[l].0
    decreases |c.ir| - x
  {
    if x < |c.ir| {
      ExpectedOrdered(c, sem, x + 1);
      var rest := Expected(c, sem, x + 1);
      var now := if Kept(c, x) && !c.ir[x].Use? then [(x, Val(sem, c.ir, x))] else [];
      var log := Expected(c, sem, x);
      assert log == now + rest;
      forall k, l | 0 <= k < l < |log|
        ensures log[k].0 < log[l].0
      {
        ExpectedExact(c, sem, x + 1, rest[l - |now|]);
        assert k >= |now| ==> rest[k - |now|].0 < rest[l - |now|].0;
      }
    }
  }

  // The code logs x, with its value.
  ghost predicate Logged(c: Cfg, sem: Sem, x: nat) { x < |c.ir| && (x, Val(sem, c.ir, x)) in Expected(c, sem, c.nk) }

  // y is a USE of x, or takes it as an operand and is logged.
  ghost predicate Consumes(c: Cfg, sem: Sem, y: nat, x: nat) {
    x < y < |c.ir| && (c.ir[y] == Use(x) || (c.ir[y].Op? && x in {c.ir[y].a, c.ir[y].b} && Logged(c, sem, y)))
  }

  // Exactly these instructions are logged: those with the side effect mark, those
  // that something consumes, and all of them without dead-code elimination.
  lemma LoggedExactly(c: Cfg, sem: Sem, x: nat)
    requires WfCfg(c) && c.nk <= x < |c.ir| && (c.ir[x].Op? || c.ir[x].Leaf?)
    ensures Logged(c, sem, x) <==> c.ir[x].side || !c.dce || exists y :: Consumes(c, sem, y, x)
  {
    ExpectedExact(c, sem, c.nk, (x, Val(sem, c.ir, x)));
    forall y | x < y < |c.ir| && NeededBy(c, x, y)
      ensures Kept(c, y) <==> Consumes(c, sem, y, x)
    {
      ExpectedExact(c, sem, c.nk, (y, Val(sem, c.ir, y)));
    }
    if y :| Consumes(c, sem, y, x) { assert NeededBy(c, x, y) && Kept(c, y); }
    if y :| x < y < |c.ir| && NeededBy(c, x, y) && Kept(c, y) { assert Consumes(c, sem, y, x); }
  }

  // -- Uses ------------------------------------------------------------------

  // A reference has a register or a spill slot iff a kept instruction at `lim`
  // or later needs it.
  ghost predicate UsesExact(c: Cfg, v: View, lim: nat) {
    && |v.r| == |v.s| == |c.ir| && lim <= |c.ir|
    && forall x :: c.nk <= x < lim ==> (Used(v, x) <==> Wanted(c, x, lim))
  }

  function Operands(i: Ins): set<nat> {
    match i
    case Op(_, _, a, b, _, _, _) => {a, b}
    case Use(a) => {a}
    case _ => {}
  }

  lemma WantedStep(c: Cfg, y: nat, x: nat)
    requires x < |c.ir|
    ensures Wanted(c, y, x) <==> Wanted(c, y, x + 1) || (Kept(c, x) && NeededBy(c, y, x))
  {
    if Wanted(c, y, x) {
      var z :| x <= z < |c.ir| && NeededBy(c, y, z) && Kept(c, z);
      if z != x { assert x + 1 <= z < |c.ir| && NeededBy(c, y, z); }
    }
    if Wanted(c, y, x + 1) {
      var z :| x + 1 <= z < |c.ir| && NeededBy(c, y, z) && Kept(c, z);
      assert x <= z < |c.ir|;
    }
  }

  lemma UsedIsKept(c: Cfg, v: View, x: nat)
    requires x < |c.ir| && c.nk <= x && UsesExact(c, v, x + 1)
    ensures Kept(c, x) <==> !c.dce || SideEff(c.ir[x]) || Used(v, x)
  {
    if Used(v, x) {
      var y :| x + 1 <= y < |c.ir| && NeededBy(c, x, y) && Kept(c, y);
      assert x < y < |c.ir|;
    }
  }

  lemma UsesStep(c: Cfg, v: View, v': View, x: nat)
    requires x < |c.ir| && UsesExact(c, v, x + 1) && |v'.r| == |c.ir|
    requires Grown(c, v, v', x, if Kept(c, x) then Operands(c.ir[x]) else {})
    ensures UsesExact(c, v', x)
  {
    forall y | c.nk <= y < x
      ensures Used(v', y) <==> Wanted(c, y, x)
    {
      WantedStep(c, y, x);
      assert NeededBy(c, y, x) <==> y in Operands(c.ir[x]);
    }
  }

  lemma UseThenGrown(c: Cfg, v: View, v1: View, v2: View, lim: nat, xs: set<nat>)
    requires SameUse(c, v, v1, lim) && Grown(c, v1, v2, lim, xs)
    ensures Grown(c, v, v2, lim, xs)
  {
    forall x | c.nk <= x < lim ensures Used(v2, x) <==> Used(v, x) || x in xs { assert Used(v, x) <==> Used(v1, x); }
  }

  // -- Instructions ----------------------------------------------------------

  lemma OperandsOf(c: Cfg, sem: Sem, v: View, lim: nat, code: seq<MIns>, need: Need, out: seq<(nat, int)>, pend: int,
                   x: nat)
    requires Inv(c, sem, v, lim, code, need, out, pend) && x < |c.ir| && x < lim
    ensures |v.r| == |v.s| == |c.ir| && |v.cost| == RID_MAX && Two(c.gpr) && Two(c.fpr)
    ensures c.ir[x].Op? ==>
              && c.ir[x].a < x && c.ir[x].b < x && !c.ir[c.ir[x].a].Use? && !c.ir[c.ir[x].b].Use?
              && ClassSet(c, x) == ClassSet(c, c.ir[x].a) == ClassSet(c, c.ir[x].b)
    ensures c.ir[x].Use? ==> c.ir[x].a < x && !c.ir[c.ir[x].a].Use?
    ensures All(c) == c.gpr + c.fpr && c.scratch <= All(c) && c.ret in c.gpr && c.fpret in c.fpr
            && {c.ret, c.fpret} <= c.scratch
  {
    assert WfIns(c.ir, x);
  }

  // What assembling one instruction has to achieve.
  ghost predicate Assembled(c: Cfg, sem: Sem, v: View, v': View, x: nat, out: seq<(nat, int)>, out': seq<(nat, int)>) {
    && x < |c.ir| && |v'.r| == |c.ir|
    && Grown(c, v, v', x, Operands(c.ir[x]))
    && out' == (if c.ir[x].Use? then [] else [(x, Val(sem, c.ir, x))]) + out
  }

  method AsmFparith(a: AsmState, x: nat) returns (res: Res<()>)
    requires x + 1 == a.lim && x < |a.c.ir| && a.c.ir[x].Op? && a.pend == -1 && a.Valid()
    modifies a
    ensures res.Ok? ==> a.Valid() && a.lim == x && a.pend == -1
    ensures res.Ok? ==> Assembled(a.c, a.sem, old(a.V()), a.V(), x, old(a.out), a.out)
    ensures res.TraceErr? ==> res.err == SpillOv && RanOut(a.c, a.s, a.code)
  {
    hide Inv, Reloaded, Grown, SameUse, Two, WfCfg;
    ghost var v := a.V();
    OperandsOf(a.c, a.sem, a.V(), a.lim, a.code, a.need, a.out, a.pend, x);
    var allow := ClassSet(a.c, x);
    StillTwo(allow, 0);
    var dest :- a.RaDest(x, allow);
    ghost var v1 := a.V();
    DestLengths(a.c, v, v1, x);
    var lr :- a.RaAlloc2(x, allow);
    UseThenGrown(a.c, v, v1, a.V(), x, {a.c.ir[x].a, a.c.ir[x].b});
    EmitDnm(a, x, dest, lr.0, lr.1);
    return Ok(());
  }

  method EmitDnm(a: AsmState, x: nat, d: nat, l: nat, r: nat)
    requires x < |a.c.ir| && a.c.ir[x].Op? && a.c.ir[x].a < x < |a.r| && a.c.ir[x].b < x
    requires HasReg(l) && HasReg(r) && a.r[a.c.ir[x].a] == l && a.r[a.c.ir[x].b] == r
    requires a.lim == x && a.pend == d && a.Valid()
    modifies a`code, a`need, a`out, a`pend
    ensures a.Valid() && a.pend == -1 && a.out == [(x, Val(a.sem, a.c.ir, x))] + old(a.out)
    ensures a.code == [Op3(a.c.ir[x].f, d, l, r, x)] + old(a.code) && |a.r| == |a.c.ir|
  {
    hide Inv, Reloaded;
    ViewLengths(a.c, a.sem, a.V(), a.lim, a.code, a.need, a.out, a.pend);
    OpInv(a.c, a.sem, a.V(), x, a.code, a.need, a.out, d);
    ReloadedOn(a.s, Op3(a.c.ir[x].f, d, l, r, x), a.code);
    a.code := [Op3(a.c.ir[x].f, d, l, r, x)] + a.code;
    a.need := (a.need - {d})[l := a.c.ir[x].a][r := a.c.ir[x].b];
    a.out := [(x, Val(a.sem, a.c.ir, x))] + a.out;
    a.pend := -1;
  }

  lemma DestLengths(c: Cfg, v: View, v1: View, x: nat)
    requires SameUse(c, v, v1, x)
    ensures |v1.r| == |v1.s| == |v.r|
  {
  }

  lemma ViewLengths(c: Cfg, sem: Sem, v: View, lim: nat, code: seq<MIns>, need: Need, out: seq<(nat, int)>, pend: int)
    requires Inv(c, sem, v, lim, code, need, out, pend)
    ensures |v.r| == |v.s| == |c.ir| && |v.cost| == RID_MAX && lim <= |c.ir|
  {
  }

  lemma UseGrown(c: Cfg, v: View, v1: View, lim: nat)
    requires SameUse(c, v, v1, lim)
    ensures Grown(c, v, v1, lim, {})
  {
  }

  method AsmLeaf(a: AsmState, x: nat) returns (res: Res<()>)
    requires x + 1 == a.lim && x < |a.c.ir| && a.c.ir[x].Leaf? && a.pend == -1 && a.Valid()
    modifies a
    ensures res.Ok? ==> a.Valid() && a.lim == x && a.pend == -1
    ensures res.Ok? ==> Assembled(a.c, a.sem, old(a.V()), a.V(), x, old(a.out), a.out)
    ensures res.TraceErr? ==> res.err == SpillOv && RanOut(a.c, a.s, a.code)
  {
    hide Inv, Reloaded, Grown, SameUse, Two, WfCfg;
    ghost var v := a.V();
    OperandsOf(a.c, a.sem, a.V(), a.lim, a.code, a.need, a.out, a.pend, x);
    StillTwo(ClassSet(a.c, x), 0);
    var dest :- a.RaDest(x, ClassSet(a.c, x));
    UseGrown(a.c, v, a.V(), x);
    LeafInv(a.c, a.sem, a.V(), x, a.code, a.need, a.out, dest);
    ReloadedOn(a.s, LeafOp(a.c.ir[x].f, dest, x), a.code);
    a.code := [LeafOp(a.c.ir[x].f, dest, x)] + a.code;
    a.need := a.need - {dest};
    a.out := [(x, Val(a.sem, a.c.ir, x))] + a.out;
    a.pend := -1;
    ViewLengths(a.c, a.sem, a.V(), a.lim, a.code, a.need, a.out, a.pend);
    return Ok(());
  }

  // Before a call all scratch registers are evicted, except that its result is
  // taken from the return register.
  method AsmSetupresult(a: AsmState, x: nat, ret: nat) returns (res: Res<()>)
    requires x + 1 == a.lim && a.c.nk <= x < |a.c.ir| && a.pend == -1
    requires ret in ClassSet(a.c, x) && ret in a.c.scratch && a.Valid()
    modifies a`r, a`s, a`freeset, a`modset, a`evenspill, a`oddspill, a`code, a`need, a`lim, a`pend
    ensures res.Ok? ==> a.Valid() && a.lim == x && (a.pend == -1 || a.pend == ret) && a.c.scratch <= a.freeset
    ensures res.Ok? ==> Grown(a.c, old(a.V()), a.V(), x, {})
    ensures res.TraceErr? ==> res.err == SpillOv && RanOut(a.c, a.s, a.code)
  {
    hide Inv, Reloaded, Grown, SameUse, Two, WfCfg, Keeps, All;
    ghost var v := a.V();
    OperandsOf(a.c, a.sem, v, a.lim, a.code, a.need, a.out, a.pend, x);
    Held(a.c, a.sem, v, a.lim, a.code, a.need, a.out, a.pend, x);
    var drop := a.c.scratch;
    if HasReg(a.r[x]) {
      drop := drop - {a.r[x]};
    }
    ghost var code, need := a.code, a.need;
    var _ :- a.RaEvictset(drop);
    ghost var v1 := a.V();
    KeptDrop(a.c, a.sem, v, v1, a.lim, code, a.code, need, a.need, a.out, a.pend, x);
    if HasReg(a.r[x]) || a.s[x] != 0 {
      var _ :- a.RaDestreg(x, ret);
    } else {
      SkipInv(a.c, a.sem, v1, x, a.code, a.need, a.out);
      a.lim := x;
      SameUseSelf(a.c, a.sem, v1, x, a.code, a.need, a.out, a.pend);
    }
    UseTrans(a.c, v, v1, a.V(), x);
    return Ok(());
  }

  method AsmCall(a: AsmState, x: nat) returns (res: Res<()>)
    requires x + 1 == a.lim && a.c.nk <= x < |a.c.ir| && a.c.ir[x].Leaf? && a.pend == -1 && a.Valid()
    modifies a
    ensures res.Ok? ==> a.Valid() && a.lim == x && a.pend == -1
    ensures res.Ok? ==> Assembled(a.c, a.sem, old(a.V()), a.V(), x, old(a.out), a.out)
    ensures res.TraceErr? ==> res.err == SpillOv && RanOut(a.c, a.s, a.code)
  {
    hide Inv, Reloaded, Grown, WfCfg;
    OperandsOf(a.c, a.sem, a.V(), a.lim, a.code, a.need, a.out, a.pend, x);
    var ret := if ClsOf(a.c.ir[x]) == Fpr then a.c.fpret else a.c.ret;
    var _ :- AsmSetupresult(a, x, ret);
    CallInv(a.c, a.sem, a.V(), x, a.code, a.need, a.out, a.pend, ret);
    ReloadedOn(a.s, CallOp(a.c.ir[x].f, ret, a.c.scratch, x), a.code);
    a.code := [CallOp(a.c.ir[x].f, ret, a.c.scratch, x)] + a.code;
    a.need := a.need - {ret};
    a.out := [(x, Val(a.sem, a.c.ir, x))] + a.out;
    a.pend := -1;
    ViewLengths(a.c, a.sem, a.V(), a.lim, a.code, a.need, a.out, a.pend);
    return Ok(());
  }

  // Evicting other registers leaves x and its register alone.
  lemma KeptDrop(c: Cfg, sem: Sem, v: View, v1: View, lim: nat, code: seq<MIns>, code1: seq<MIns>, need: Need,
                 need1: Need,
                 out: seq<(nat, int)>, pend: int, x: nat)
    requires Keeps(c, v, v1, lim) && c.nk <= x < lim
    requires Inv(c, sem, v, lim, code, need, out, pend) && Inv(c, sem, v1, lim, code1, need1, out, pend)
    requires x < |v.r| && HasReg(v.r[x]) ==> v.r[x] !in v1.free
    ensures x < |v.r| == |v1.r| == |v.s| == |v1.s| && |v1.cost| == RID_MAX
    ensures if HasReg(v.r[x]) then v1.r[x] == v.r[x] else !HasReg(v1.r[x])
    ensures Used(v, x) <==> Used(v1, x)
    ensures SameUse(c, v, v1, lim)
  {
    Held(c, sem, v, lim, code, need, out, pend, x);
    if HasReg(v.r[x]) {
      Holder(c, sem, v1, lim, code1, need1, out, pend, v.r[x]);
    }
  }

  lemma UseTrans(c: Cfg, v: View, v1: View, v2: View, x: nat)
    requires SameUse(c, v, v1, x + 1) && SameUse(c, v1, v2, x)
    ensures Grown(c, v, v2, x, {})
  {
    forall y | c.nk <= y < x ensures Used(v2, y) <==> Used(v, y) || y in {} { assert Used(v, y) <==> Used(v1, y); }
  }

  // USE only keeps its operand alive.
  method AsmUse(a: AsmState, x: nat) returns (res: Res<()>)
    requires x + 1 == a.lim && a.c.nk <= x < |a.c.ir| && a.c.ir[x].Use? && a.pend == -1 && a.Valid()
    requires x < |a.r| && x < |a.s| && !Used(a.V(), x)
    modifies a
    ensures res.Ok? ==> a.Valid() && a.lim == x && a.pend == -1
    ensures res.Ok? ==> Assembled(a.c, a.sem, old(a.V()), a.V(), x, old(a.out), a.out)
    ensures res.TraceErr? ==> res.err == SpillOv && RanOut(a.c, a.s, a.code)
  {
    hide Inv, Reloaded, Grown, SameUse, Two, WfCfg, Used;
    ghost var v := a.V();
    OperandsOf(a.c, a.sem, v, a.lim, a.code, a.need, a.out, a.pend, x);
    var y := a.c.ir[x].a;
    StillTwo(ClassSet(a.c, y), 0);
    var _ :- a.RaAlloc1(y, ClassSet(a.c, y));
    ViewLengths(a.c, a.sem, a.V(), a.lim, a.code, a.need, a.out, a.pend);
    GrownBelow(a.c, v, a.V(), x, {y});
    SkipInv(a.c, a.sem, a.V(), x, a.code, a.need, a.out);
    a.lim := x;
    assert a.out == [] + old(a.out);
    return Ok(());
  }

  lemma GrownBelow(c: Cfg, v: View, v': View, x: nat, xs: set<nat>)
    requires Grown(c, v, v', x + 1, xs) && x !in xs && c.nk <= x
    ensures Grown(c, v, v', x, xs) && x < |v.r| == |v'.r| == |v.s| == |v'.s| && (Used(v', x) <==> Used(v, x))
  {
  }

  method AsmIr(a: AsmState, x: nat) returns (res: Res<()>)
    requires x + 1 == a.lim && a.c.nk <= x < |a.c.ir| && !a.c.ir[x].K? && a.pend == -1 && a.Valid()
    requires a.c.ir[x].Use? ==> x < |a.r| && x < |a.s| && !Used(a.V(), x)
    modifies a
    ensures res.Ok? ==> a.Valid() && a.lim == x && a.pend == -1
    ensures res.Ok? ==> Assembled(a.c, a.sem, old(a.V()), a.V(), x, old(a.out), a.out)
    ensures res.TraceErr? ==> res.err == SpillOv && RanOut(a.c, a.s, a.code)
  {
    match a.c.ir[x]
    case Op(_, _, _, _, _, _, _) => res := AsmFparith(a, x);
    case Leaf(_, _, call, _, _, _) =>
      if call {
        res := AsmCall(a, x);
      } else {
        res := AsmLeaf(a, x);
      }
    case Use(_) => res := AsmUse(a, x);
  }

  // -- The trace -------------------------------------------------------------

  lemma ExpectedStep(c: Cfg, sem: Sem, x: nat, out: seq<(nat, int)>)
    requires x < |c.ir| && out == Expected(c, sem, x + 1)
    ensures Expected(c, sem, x) == (if Kept(c, x) && !c.ir[x].Use? then [(x, Val(sem, c.ir, x))] else []) + out
  {
  }

  // One round of the backwards loop keeps both loop invariants.
  lemma Round(c: Cfg, sem: Sem, v: View, v': View, x: nat, out: seq<(nat, int)>, out': seq<(nat, int)>)
    requires c.nk <= x < |c.ir| && UsesExact(c, v, x + 1) && out == Expected(c, sem, x + 1)
    requires if c.dce && !SideEff(c.ir[x]) && !Used(v, x) then v' == v && out' == out
             else Assembled(c, sem, v, v', x, out, out')
    ensures UsesExact(c, v', x) && out' == Expected(c, sem, x)
  {
    UsedIsKept(c, v, x);
    ExpectedStep(c, sem, x, out);
    hide Expected, Kept, Wanted;
    if c.dce && !SideEff(c.ir[x]) && !Used(v, x) {
      assert Grown(c, v, v', x, {});
    }
    UsesStep(c, v, v', x);
  }

  // References of USE never get a register or a spill slot.
  lemma UseUnused(c: Cfg, v: View, x: nat)
    requires WfCfg(c) && c.nk <= x < |c.ir| && c.ir[x].Use? && UsesExact(c, v, x + 1)
    ensures !Used(v, x)
  {
    forall y | 0 <= y < |c.ir|
      ensures !NeededBy(c, x, y)
    {
      assert WfIns(c.ir, y);
    }
  }

  // What lj_asm_trace promises: no register stays behind (no BADRA error), and
  // run from any machine state the code computes exactly the kept instructions
  // with the values the IR gives them.
  ghost predicate TraceOk(a: AsmState)
    reads a
  {
    && a.freeset == All(a.c)
    && SlotInv(a.c, a.V())
    && forall m: M :: Run(a.sem, a.code, m).log == m.log + Expected(a.c, a.sem, a.c.nk)
  }

  lemma Finished(c: Cfg, sem: Sem, v: View, code: seq<MIns>, need: Need, out: seq<(nat, int)>)
    requires Inv(c, sem, v, c.nk, code, need, out, -1) && out == Expected(c, sem, c.nk)
    requires forall q :: q in All(c) && q !in v.free && q < |v.cost| ==> CostRef(v.cost[q]) >= c.nk
    ensures v.free == All(c) && SlotInv(c, v)
    ensures forall m: M :: Run(sem, code, m).log == m.log + Expected(c, sem, c.nk)
  {
    forall q | q in All(c)
      ensures q in v.free
    {
      if q !in v.free { Holder(c, sem, v, c.nk, code, need, out, -1, q); }
    }
    forall q: nat
      ensures q !in need
    {
      assert q in need ==> NeedOk(c, v, c.nk, need, -1, q);
    }
    assert need == map[];
    forall x | 0 <= x < |v.s| && x < c.nk
      ensures v.s[x] == 0
    {
      assert SlotOk(c, v, x);
    }
    forall m: M
      ensures Run(sem, code, m).log == m.log + Expected(c, sem, c.nk)
    {
      RunFromAnyState(sem, c.ir, v.s, c.nk, code, need, out, m);
    }
  }

  // The loop of lj_asm_trace over the instructions from the last one down to top.
  method AsmBackwards(c: Cfg, ghost sem: Sem, hints: seq<nat>, top: nat) returns (res: Res<()>, a: AsmState)
    requires WfCfg(c) && |hints| == |c.ir| && c.nk <= top <= |c.ir|
    requires forall x :: 0 <= x < |hints| ==> !HasReg(hints[x])
    ensures fresh(a) && a.c == c && a.sem == sem
    ensures res.Ok? ==> a.lim == top && a.pend == -1 && a.Valid()
    ensures res.Ok? ==> UsesExact(c, a.V(), top) && a.out == Expected(c, sem, top)
    ensures res.TraceErr? ==> res.err == SpillOv && RanOut(c, a.s, a.code) && Overflow(c)
  {
    hide Inv, Reloaded, UsesExact, Expected, Assembled, RanOut;
    a := new AsmState(c, sem, hints);
    ViewLengths(c, sem, a.V(), a.lim, a.code, a.need, a.out, a.pend);
    StartUses(c, sem, a.V());
    var x := |c.ir|;
    while x > top
      invariant top <= x <= |c.ir| && a.c == c && a.sem == sem && fresh(a)
      invariant a.lim == x && a.pend == -1 && a.Valid()
      invariant UsesExact(c, a.V(), x) && a.out == Expected(c, sem, x)
    {
      x := x - 1;
      ghost var v, out := a.V(), a.out;
      ViewLengths(c, sem, v, a.lim, a.code, a.need, out, a.pend);
      NotConst(c, x);
      if !HasReg(a.r[x]) && a.s[x] == 0 && !SideEff(c.ir[x]) && c.dce {
        SkipInv(c, sem, v, x, a.code, a.need, out);
        a.lim := x;
      } else {
        if c.ir[x].Use? { UseUnused(c, v, x); }
        res := AsmIr(a, x);
        if res.TraceErr? {
          RanOutOverflow(c, a.s, a.code);
          return;
        }
      }
      Round(c, sem, v, a.V(), x, out, a.out);
    }
    res := Ok(());
  }

  method AsmTrace(c: Cfg, ghost sem: Sem, hints: seq<nat>) returns (res: Res<()>, a: AsmState)
    requires WfCfg(c) && |hints| == |c.ir|
    requires forall x :: 0 <= x < |hints| ==> !HasReg(hints[x])
    ensures fresh(a) && a.c == c && a.sem == sem && (res.Ok? ==> TraceOk(a))
    ensures res.TraceErr? ==> res.err == SpillOv && RanOut(c, a.s, a.code) && Overflow(c)
  {
    hide Inv, Reloaded, UsesExact, Expected, RanOut;
    res, a := AsmBackwards(c, sem, hints, c.nk);
    if res.TraceErr? { return; }
    a.RaEvictk();
    Finished(c, sem, a.V(), a.code, a.need, a.out);
  }

  lemma NotConst(c: Cfg, x: nat)
    requires WfCfg(c) && c.nk <= x < |c.ir|
    ensures !c.ir[x].K?
  {
  }

  lemma StartUses(c: Cfg, sem: Sem, v: View)
    requires |v.r| == |v.s| == |c.ir| && forall x :: 0 <= x < |c.ir| ==> !Used(v, x)
    ensures UsesExact(c, v, |c.ir|) && Expected(c, sem, |c.ir|) == []
  {
  }
}
