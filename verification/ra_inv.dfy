// The bookkeeping of the register allocator of src/lj_asm.c: which register
// holds which reference, spill slots, and how they fit the code emitted so far.
module RaInv {
  import opened RaIr

  // Register numbers, the "no register" bit of the r field and the hint range.
  const RID_MAX_GPR: nat := 32
  const RID_MAX: nat := 64
  const RID_NONE: nat := 0x80
  const RID_INIT: nat := 0xff
  const RID_SUNK: nat := 0xfd
  const REGCOST_PHI_WEIGHT: nat := 64

  predicate IsPhi(i: Ins) { (i.Op? || i.Leaf?) && i.phi }

  predicate HasReg(r: nat) { r < RID_NONE }
  predicate HasHint(r: nat) { r < RID_SUNK }
  function GetHint(r: nat): nat { if r < RID_NONE then r else r - RID_NONE }
  function SetHint(r: nat): nat { r + RID_NONE }

  predicate SameFile(p: nat, q: nat) { p < RID_MAX_GPR <==> q < RID_MAX_GPR }

  // A cost packs the reference of the register's holder in its low half.
  function CostRef(cost: nat): nat { cost % 0x10000 }
  function RegCost(ref: nat, i: Ins): nat {
    ref + (ref + (if IsPhi(i) then REGCOST_PHI_WEIGHT else 0)) * 0x10000
  }

  lemma CostRefOf(ref: nat, i: Ins)
    requires ref < 0x10000
    ensures CostRef(RegCost(ref, i)) == ref
  {
  }

  // The trace, the register sets of the target, the first reference of the loop,
  // whether dead code is dropped and the first spill slot to use.
  datatype Cfg = Cfg(ir: seq<Ins>, nk: nat, gpr: set<nat>, fpr: set<nat>, scratch: set<nat>,
                     ret: nat, fpret: nat, loopref: nat, dce: bool, first: nat)

  function All(c: Cfg): set<nat> { c.gpr + c.fpr }

  function ClassSet(c: Cfg, x: nat): set<nat>
    requires x < |c.ir|
  {
    if ClsOf(c.ir[x]) == Fpr then c.fpr else c.gpr
  }

  predicate Two(s: set<nat>) { exists p, q :: p in s && q in s && p != q }

  predicate WfCfg(c: Cfg) {
    && WfIr(c.ir, c.nk)
    && (forall q :: q in c.gpr ==> q < RID_MAX_GPR)
    && (forall q :: q in c.fpr ==> RID_MAX_GPR <= q < RID_MAX)
    && Two(c.gpr) && Two(c.fpr)
    && c.scratch <= c.gpr + c.fpr && c.ret in c.gpr * c.scratch && c.fpret in c.fpr * c.scratch
    && 2 <= c.first <= 255
  }

  // Only with that many instructions can the spill slots run out.
  predicate Overflow(c: Cfg) { c.first + c.first % 2 + 2 * (|c.ir| - c.nk) > 256 }

  // The r and s fields of the IR, the free set, the costs and the next slots.
  datatype View = View(r: seq<nat>, s: seq<nat>, free: set<nat>, cost: seq<nat>, even: nat, odd: nat)

  predicate Shape(c: Cfg, v: View) {
    |v.r| == |v.s| == |c.ir| && |v.cost| == RID_MAX && v.free <= All(c)
  }

  // -- Registers and references ----------------------------------------------

  predicate RegOk(c: Cfg, v: View, x: nat)
    requires |v.r| == |c.ir| && |v.cost| == RID_MAX && x < |c.ir|
  {
    HasReg(v.r[x]) ==>
      v.r[x] < RID_MAX && v.r[x] in ClassSet(c, x) && v.r[x] !in v.free && CostRef(v.cost[v.r[x]]) == x
  }

  predicate HolderOk(c: Cfg, v: View, lim: nat, q: nat)
    requires |v.r| == |c.ir| && |v.cost| == RID_MAX && lim <= |c.ir|
  {
    q < RID_MAX &&
    var x := CostRef(v.cost[q]);
    x < lim && !c.ir[x].Use? && v.r[x] == q && v.cost[q] == RegCost(x, c.ir[x])
  }

  // For references not assembled yet a register is taken iff its cost names the
  // one reference whose r field is that register.
  ghost predicate RegsInv(c: Cfg, v: View, lim: nat) {
    && Shape(c, v) && lim <= |c.ir|
    && (forall x :: 0 <= x < lim ==> RegOk(c, v, x))
    && (forall q :: q in All(c) && q !in v.free ==> HolderOk(c, v, lim, q))
  }

  // -- Spill slots -----------------------------------------------------------

  predicate SlotOk(c: Cfg, v: View, x: nat)
    requires |v.s| == |c.ir| && x < |c.ir|
  {
    v.s[x] != 0 ==>
      && x >= c.nk && v.s[x] >= c.first
      && v.s[x] + Width(c.ir[x]) <= v.even
      && (Width(c.ir[x]) == 2 ==> v.s[x] % 2 == 0)
      && (v.odd != 0 ==> Apart(v.s[x], Width(c.ir[x]), v.odd, 1))
  }

  // The room that the slots of the first n references take.
  function Filled(ir: seq<Ins>, s: seq<nat>, n: nat): nat
    requires n <= |s| && n <= |ir|
  {
    if n == 0 then 0 else Filled(ir, s, n - 1) + (if s[n - 1] != 0 then Width(ir[n - 1]) else 0)
  }

  // Behind the fixed slots there is no gap but the odd slot.
  ghost predicate SlotInv(c: Cfg, v: View) {
    && |v.s| == |c.ir|
    && v.even == c.first + Filled(c.ir, v.s, |v.s|) + (if v.odd != 0 then 1 else 0)
    && 2 <= c.first <= v.even <= 256 && v.even % 2 == 0
    && (v.odd != 0 ==> v.odd % 2 == 1 && c.first <= v.odd < v.even)
    && (forall x :: 0 <= x < |c.ir| ==> SlotOk(c, v, x))
    && SlotsApart(c.ir, v.s)
  }

  // -- Emitted code ----------------------------------------------------------

  // What the code needs is held by the reference the cost names.  Only between
  // picking the destination `pend` of the current instruction and emitting that
  // instruction, the code needs the instruction's own value in `pend`.
  predicate NeedOk(c: Cfg, v: View, lim: nat, need: Need, pend: int, q: nat)
    requires |v.cost| == RID_MAX && q in need
  {
    if q == pend then need[q] == lim
    else q in All(c) && q !in v.free && q < RID_MAX && need[q] == CostRef(v.cost[q])
  }

  ghost predicate CodeInv(c: Cfg, sem: Sem, v: View, lim: nat, code: seq<MIns>, need: Need, out: seq<(nat, int)>,
                          pend: int) {
    && |v.cost| == RID_MAX
    && CodeOk(sem, c.ir, v.s, lim, code, need, out)
    && (forall q :: q in need ==> NeedOk(c, v, lim, need, pend, q))
  }

  ghost predicate Inv(c: Cfg, sem: Sem, v: View, lim: nat, code: seq<MIns>, need: Need, out: seq<(nat, int)>,
                      pend: int) {
    && WfCfg(c)
    && RegsInv(c, v, lim)
    && SlotInv(c, v)
    && CodeInv(c, sem, v, lim, code, need, out, pend)
  }

  // -- Use -------------------------------------------------------------------

  predicate Used(v: View, x: nat)
    requires |v.r| == |v.s| && x < |v.r|
  {
    HasReg(v.r[x]) || v.s[x] != 0
  }

  ghost predicate SameUse(c: Cfg, v: View, v': View, lim: nat) {
    && |v.r| == |v.s| == |v'.r| == |v'.s| && lim <= |v.r|
    && forall x :: c.nk <= x < lim ==> (Used(v, x) <==> Used(v', x))
  }

  // -- Steps -----------------------------------------------------------------

  // The reference x gives up its register and keeps `left` in its r field.
  function Release(v: View, x: nat, left: nat): View
    requires x < |v.r|
  {
    v.(r := v.r[x := left], free := v.free + {v.r[x]})
  }

  function Assign(c: Cfg, v: View, x: nat, q: nat): View
    requires x < |v.r| == |c.ir| && q < |v.cost|
  {
    v.(r := v.r[x := q], free := v.free - {q}, cost := v.cost[q := RegCost(x, c.ir[x])])
  }

  function Rename(v: View, down: nat, up: nat): View
    requires down < |v.cost| && up < |v.cost| && CostRef(v.cost[down]) < |v.r|
  {
    v.(r := v.r[CostRef(v.cost[down]) := up], free := v.free + {down} - {up},
       cost := v.cost[up := v.cost[down]][down := 0])
  }

  // The three slot allocations of a spill.
  function Spill(c: Cfg, v: View, x: nat): View
    requires x < |v.s| == |c.ir|
  {
    if Width(c.ir[x]) == 2 then v.(s := v.s[x := v.even], even := v.even + 2)
    else if v.odd != 0 then v.(s := v.s[x := v.odd], odd := 0)
    else v.(s := v.s[x := v.even], odd := v.even + 1, even := v.even + 2)
  }

  lemma ReleaseRegs(c: Cfg, v: View, lim: nat, x: nat, left: nat)
    requires WfCfg(c) && RegsInv(c, v, lim) && x < lim && HasReg(v.r[x]) && !HasReg(left)
    ensures RegsInv(c, Release(v, x, left), lim)
  {
    var v' := Release(v, x, left);
    assert RegOk(c, v, x);
    forall y | 0 <= y < lim
      ensures RegOk(c, v', y)
    {
      assert RegOk(c, v, y);
    }
    forall q | q in All(c) && q !in v'.free
      ensures HolderOk(c, v', lim, q)
    {
      assert HolderOk(c, v, lim, q);
    }
  }

  lemma AssignRegs(c: Cfg, v: View, lim: nat, x: nat, q: nat)
    requires WfCfg(c) && RegsInv(c, v, lim) && x < lim && !HasReg(v.r[x]) && !c.ir[x].Use?
    requires q in v.free && q in ClassSet(c, x)
    ensures q < |v.cost| && RegsInv(c, Assign(c, v, x, q), lim)
  {
    assert q in All(c) && q < RID_MAX;
    CostRefOf(x, c.ir[x]);
    var v' := Assign(c, v, x, q);
    forall y | 0 <= y < lim
      ensures RegOk(c, v', y)
    {
      assert RegOk(c, v, y);
    }
    forall p | p in All(c) && p !in v'.free
      ensures HolderOk(c, v', lim, p)
    {
      if p != q { assert HolderOk(c, v, lim, p); }
    }
  }

  lemma RenameRegs(c: Cfg, v: View, lim: nat, down: nat, up: nat)
    requires WfCfg(c) && RegsInv(c, v, lim)
    requires down in All(c) && down !in v.free && up in v.free && SameFile(down, up)
    ensures down < |v.cost| && up < |v.cost| == RID_MAX && up in All(c) && CostRef(v.cost[down]) < |v.r|
    ensures RegsInv(c, Rename(v, down, up), lim)
  {
    assert HolderOk(c, v, lim, down);
    var x := CostRef(v.cost[down]);
    assert RegOk(c, v, x);
    assert up in All(c) && up < RID_MAX;
    var v' := Rename(v, down, up);
    forall y | 0 <= y < lim
      ensures RegOk(c, v', y)
    {
      assert RegOk(c, v, y);
    }
    forall p | p in All(c) && p !in v'.free
      ensures HolderOk(c, v', lim, p)
    {
      if p != up { assert HolderOk(c, v, lim, p); }
    }
  }

  lemma {:induction false} FilledMore(ir: seq<Ins>, s: seq<nat>, s': seq<nat>, x: nat, n: nat)
    requires n <= |s| == |s'| == |ir| && x < |s| && s[x] == 0 && s'[x] != 0 && s' == s[x := s'[x]]
    ensures Filled(ir, s', n) == Filled(ir, s, n) + if x < n then Width(ir[x]) else 0
  {
    if n > 0 { FilledMore(ir, s, s', x, n - 1); }
  }

  lemma {:induction false} FilledNone(ir: seq<Ins>, s: seq<nat>, n: nat)
    requires n <= |s| == |ir| && forall x :: 0 <= x < n ==> s[x] == 0
    ensures Filled(ir, s, n) == 0
  {
    if n > 0 { FilledNone(ir, s, n - 1); }
  }

  lemma SpillSlots(c: Cfg, v: View, x: nat)
    requires SlotInv(c, v) && c.nk <= x < |c.ir| && v.s[x] == 0
    requires Spill(c, v, x).even <= 256
    ensures SlotInv(c, Spill(c, v, x))
    ensures Spill(c, v, x).s[x] != 0
  {
    var v' := Spill(c, v, x);
    FilledMore(c.ir, v.s, v'.s, x, |v.s|);
    hide Filled;
    forall y | 0 <= y < |c.ir|
      ensures SlotOk(c, v', y)
    {
      assert SlotOk(c, v, y);
    }
    forall y, z | 0 <= y < z < |v'.s| && v'.s[y] != 0 && v'.s[z] != 0
      ensures Apart(v'.s[y], Width(c.ir[y]), v'.s[z], Width(c.ir[z]))
    {
      assert SlotOk(c, v, y) && SlotOk(c, v, z);
      if y != x && z != x { assert Apart(v.s[y], Width(c.ir[y]), v.s[z], Width(c.ir[z])); }
    }
  }

  // -- What a call of the allocator changes ----------------------------------

  // References only lose registers, and those in use stay in use.
  ghost predicate Keeps(c: Cfg, v: View, v': View, lim: nat) {
    && SameUse(c, v, v', lim) && v'.cost == v.cost && v.free <= v'.free
    && (forall x :: 0 <= x < lim && HasReg(v'.r[x]) ==> v'.r[x] == v.r[x])
    && (forall x :: 0 <= x < lim && v.s[x] != 0 ==> v'.s[x] == v.s[x])
  }

  // The register q has become free, and nothing else has.
  ghost predicate Freed(c: Cfg, v: View, v': View, lim: nat, q: nat) {
    && Keeps(c, v, v', lim) && v'.free == v.free + {q}
    && (forall x :: 0 <= x < lim && HasReg(v.r[x]) && v.r[x] != q ==> v'.r[x] == v.r[x])
  }

  // The register q now holds x; whoever held q before has lost it.
  ghost predicate Allocated(c: Cfg, v: View, v': View, lim: nat, x: nat, q: nat) {
    && |v.r| == |v.s| == |v'.r| == |v'.s| && x < lim <= |v.r|
    && v'.r[x] == q && HasReg(q) && v'.free == v.free - {q}
    && (forall y :: 0 <= y < lim && y != x && HasReg(v'.r[y]) ==> v'.r[y] == v.r[y])
    && (forall y :: 0 <= y < lim && y != x && HasReg(v.r[y]) && v.r[y] != q ==> v'.r[y] == v.r[y])
    && (forall y :: c.nk <= y < lim ==> (Used(v', y) <==> Used(v, y) || y == x))
  }

  lemma FreedAlready(c: Cfg, v: View, lim: nat, q: nat)
    requires Shape(c, v) && lim <= |c.ir| && q in v.free
    ensures Freed(c, v, v, lim, q)
  {
  }

  // -- Steps keep the invariant ----------------------------------------------

  // Who holds a taken register, and the other way round.
  lemma Holder(c: Cfg, sem: Sem, v: View, lim: nat, code: seq<MIns>, need: Need, out: seq<(nat, int)>, pend: int,
               q: nat)
    requires Inv(c, sem, v, lim, code, need, out, pend) && q in All(c) && q !in v.free
    ensures Shape(c, v) && q < RID_MAX && lim <= |c.ir| && CostRef(v.cost[q]) < lim
    ensures !c.ir[CostRef(v.cost[q])].Use? && v.r[CostRef(v.cost[q])] == q
    ensures v.cost[q] == RegCost(CostRef(v.cost[q]), c.ir[CostRef(v.cost[q])])
  {
    assert HolderOk(c, v, lim, q);
  }

  lemma Held(c: Cfg, sem: Sem, v: View, lim: nat, code: seq<MIns>, need: Need, out: seq<(nat, int)>, pend: int, x: nat)
    requires Inv(c, sem, v, lim, code, need, out, pend) && x < lim
    ensures Shape(c, v) && lim <= |c.ir|
    ensures HasReg(v.r[x]) ==> v.r[x] < RID_MAX && v.r[x] in ClassSet(c, x) && v.r[x] !in v.free
                               && CostRef(v.cost[v.r[x]]) == x
  {
    assert RegOk(c, v, x);
  }

  lemma ReleaseNeed(c: Cfg, v: View, lim: nat, need: Need, pend: int, x: nat, left: nat)
    requires |v.cost| == RID_MAX && x < |v.r| && v.r[x] != pend
    requires forall q :: q in need ==> NeedOk(c, v, lim, need, pend, q)
    ensures var need' := need - {v.r[x]}; forall q :: q in need' ==> NeedOk(c, Release(v, x, left), lim, need', pend, q)
  {
    var need' := need - {v.r[x]};
    forall q | q in need'
      ensures NeedOk(c, Release(v, x, left), lim, need', pend, q)
    {
      assert q in need && NeedOk(c, v, lim, need, pend, q);
    }
  }

  lemma RematInv(c: Cfg, sem: Sem, v: View, lim: nat, code: seq<MIns>, need: Need, out: seq<(nat, int)>, pend: int,
                 x: nat)
    requires Inv(c, sem, v, lim, code, need, out, pend) && x < lim && x < c.nk && HasReg(v.r[x]) && v.r[x] != pend
    ensures c.ir[x].K? && Inv(c, sem, Release(v, x, RID_INIT), lim, [LoadI(v.r[x], c.ir[x].k)] + code, need - {v.r[x]},
            out, pend)
    ensures Freed(c, v, Release(v, x, RID_INIT), lim, v.r[x])
  {
    var q := v.r[x];
    assert WfIns(c.ir, x);
    assert RegOk(c, v, x);
    if q in need { assert NeedOk(c, v, lim, need, pend, q); }
    EmitLoadI(sem, c.ir, v.s, lim, code, need, out, q, x);
    ReleaseNeed(c, v, lim, need, pend, x, RID_INIT);
    ReleaseRegs(c, v, lim, x, RID_INIT);
    assert SlotInv(c, Release(v, x, RID_INIT)) by { SlotsOnly(c, v, Release(v, x, RID_INIT)); }
  }

  function Numbers(lo: nat, hi: nat): (s: set<nat>)
    ensures forall x :: x in s <==> lo <= x < hi
    ensures lo <= hi ==> |s| == hi - lo
  {
    if lo < hi then Numbers(lo, hi - 1) + {hi - 1} else {}
  }

  lemma Subset(a: set<nat>, b: set<nat>)
    requires a <= b
    ensures |a| <= |b|
  {
    if a != {} {
      var x :| x in a;
      Subset(a - {x}, b - {x});
    }
  }

  lemma ImageSmaller(a: set<nat>, b: set<nat>, f: map<nat, nat>)
    requires forall x :: x in a ==> x in f
    requires forall y :: y in b ==> exists x :: x in a && f[x] == y
    ensures |b| <= |a|
  {
    if b != {} {
      var y :| y in b;
      var x :| x in a && f[x] == y;
      var a' := a - {x};
      forall z | z in b - {y}
        ensures exists w :: w in a' && f[w] == z
      {
        var w :| w in a && f[w] == z;
        assert w in a';
      }
      ImageSmaller(a', b - {y}, f);
    }
  }

  lemma SubsetEqual(a: set<nat>, b: set<nat>)
    requires a <= b && |b| <= |a|
    ensures a == b
  {
    if q :| q in b && q !in a {
      Subset(a, b - {q});
    }
  }

  // A slot of this width does not fit any more.
  predicate NoRoom(c: Cfg, s: seq<nat>, x: nat)
    requires |s| == |c.ir| && x < |s|
  {
    c.first + Filled(c.ir, s, |s|) + Width(c.ir[x]) > 256
  }

  lemma SpillFull(c: Cfg, v: View, x: nat)
    requires SlotInv(c, v) && x < |c.ir|
    ensures Spill(c, v, x).even > 256 <==> NoRoom(c, v.s, x)
  {
  }

  // The slots that the code loads from.
  function Loads(code: seq<MIns>): set<nat> {
    if code == [] then {} else (if code[0].SpLoad? then {code[0].slot} else {}) + Loads(code[1..])
  }

  lemma LoadsCons(i: MIns, code: seq<MIns>)
    ensures Loads([i] + code) == (if i.SpLoad? then {i.slot} else {}) + Loads(code)
  {
    assert ([i] + code)[1..] == code;
  }

  // Every slot given out is one a register has been restored from.
  predicate Reloaded(s: seq<nat>, code: seq<MIns>) { forall x :: 0 <= x < |s| && s[x] != 0 ==> s[x] in Loads(code) }

  lemma ReloadedOn(s: seq<nat>, i: MIns, code: seq<MIns>)
    requires Reloaded(s, code)
    ensures Reloaded(s, [i] + code)
  {
    LoadsCons(i, code);
  }

  lemma ReloadedMore(s: seq<nat>, x: nat, i: MIns, code: seq<MIns>)
    requires Reloaded(s, code) && i.SpLoad? && x < |s|
    ensures Reloaded(s[x := i.slot], [i] + code)
  {
    LoadsCons(i, code);
  }

  // A reference needs a slot, and the slots given out, each apart from the others
  // and in use by the code, leave no room for it.
  ghost predicate RanOut(c: Cfg, s: seq<nat>, code: seq<MIns>) {
    && SlotsApart(c.ir, s) && Reloaded(s, code)
    && (forall x :: 0 <= x < |s| && s[x] != 0 ==> c.nk <= x && c.first <= s[x] && s[x] + Width(c.ir[x]) <= 256)
    && exists x :: c.nk <= x < |s| && s[x] == 0 && NoRoom(c, s, x)
  }

  lemma SpillFails(c: Cfg, v: View, code: seq<MIns>, x: nat)
    requires SlotInv(c, v) && Reloaded(v.s, code) && c.nk <= x < |c.ir| && v.s[x] == 0 && Spill(c, v, x).even > 256
    ensures RanOut(c, v.s, code)
  {
    SpillFull(c, v, x);
    forall y | 0 <= y < |v.s| && v.s[y] != 0
      ensures c.nk <= y && c.first <= v.s[y] && v.s[y] + Width(c.ir[y]) <= 256
    {
      assert SlotOk(c, v, y);
    }
    hide Filled, Loads;
  }

  lemma {:induction false} FilledAtMost(c: Cfg, s: seq<nat>, x: nat, n: nat)
    requires n <= |s| == |c.ir| && c.nk <= x < |s| && s[x] == 0 && forall y :: 0 <= y < |s| && s[y] != 0 ==> c.nk <= y
    ensures Filled(c.ir, s, n) <= if n <= c.nk then 0 else 2 * (n - c.nk - if x < n then 1 else 0)
  {
    if n > 0 { FilledAtMost(c, s, x, n - 1); }
  }

  // So it takes a long trace to run out.
  lemma RanOutOverflow(c: Cfg, s: seq<nat>, code: seq<MIns>)
    requires RanOut(c, s, code)
    ensures Overflow(c)
  {
    var x :| c.nk <= x < |s| && s[x] == 0 && NoRoom(c, s, x);
    FilledAtMost(c, s, x, |s|);
    hide Filled, Loads;
  }

  // And without a restored register, only the first one restored can have failed.
  lemma RanOutLoads(c: Cfg, s: seq<nat>, code: seq<MIns>)
    requires RanOut(c, s, code) && c.first <= 254
    ensures Loads(code) != {}
  {
    if forall x :: 0 <= x < |s| ==> s[x] == 0 { FilledNone(c.ir, s, |s|); }
  }

  lemma SlotsOnly(c: Cfg, v: View, v': View)
    requires SlotInv(c, v) && v'.s == v.s && v'.even == v.even && v'.odd == v.odd
    ensures SlotInv(c, v')
  {
    forall x | 0 <= x < |c.ir| ensures SlotOk(c, v', x) { assert SlotOk(c, v, x); }
  }

  lemma RestoreInv(c: Cfg, sem: Sem, v: View, lim: nat, code: seq<MIns>, need: Need, out: seq<(nat, int)>, pend: int,
                   x: nat)
    requires Inv(c, sem, v, lim, code, need, out, pend) && x < lim && HasReg(v.r[x]) && v.r[x] != pend && v.s[x] != 0
    ensures Inv(c, sem, Release(v, x, SetHint(v.r[x])), lim, [SpLoad(v.r[x], v.s[x], Width(c.ir[x]))] + code,
            need - {v.r[x]}, out, pend)
    ensures Freed(c, v, Release(v, x, SetHint(v.r[x])), lim, v.r[x])
  {
    var q := v.r[x];
    assert RegOk(c, v, x);
    if q in need { assert NeedOk(c, v, lim, need, pend, q); }
    EmitSpLoad(sem, c.ir, v.s, lim, code, need, out, q, x);
    ReleaseNeed(c, v, lim, need, pend, x, SetHint(q));
    ReleaseRegs(c, v, lim, x, SetHint(q));
    SlotsOnly(c, v, Release(v, x, SetHint(q)));
  }

  lemma SpillInv(c: Cfg, sem: Sem, v: View, lim: nat, code: seq<MIns>, need: Need, out: seq<(nat, int)>, pend: int,
                 x: nat)
    requires Inv(c, sem, v, lim, code, need, out, pend) && c.nk <= x < lim && HasReg(v.r[x]) && v.s[x] == 0
    requires Spill(c, v, x).even <= 256
    ensures Inv(c, sem, Spill(c, v, x), lim, code, need, out, pend)
    ensures Spill(c, v, x).s[x] != 0 && Keeps(c, v, Spill(c, v, x), lim)
  {
    var v' := Spill(c, v, x);
    SpillSlots(c, v, x);
    MoreSlots(sem, c.ir, v.s, v'.s, lim, code, need, out);
    forall q | q in need ensures NeedOk(c, v', lim, need, pend, q) { assert NeedOk(c, v, lim, need, pend, q); }
    forall y | 0 <= y < lim ensures RegOk(c, v', y) { assert RegOk(c, v, y); }
    forall q | q in All(c) && q !in v'.free ensures HolderOk(c, v', lim, q) { assert HolderOk(c, v, lim, q); }
  }

  lemma AssignInv(c: Cfg, sem: Sem, v: View, lim: nat, code: seq<MIns>, need: Need, out: seq<(nat, int)>, pend: int,
                  x: nat, q: nat)
    requires Inv(c, sem, v, lim, code, need, out, pend) && x < lim && !HasReg(v.r[x]) && !c.ir[x].Use?
    requires q in v.free && q in ClassSet(c, x)
    ensures q < |v.cost| && Inv(c, sem, Assign(c, v, x, q), lim, code, need, out, pend)
  {
    AssignRegs(c, v, lim, x, q);
    var v' := Assign(c, v, x, q);
    forall p | p in need ensures NeedOk(c, v', lim, need, pend, p) { assert NeedOk(c, v, lim, need, pend, p); }
    SlotsOnly(c, v, v');
  }

  // The value moves from down to up when the code is read backwards.
  lemma RenameInv(c: Cfg, sem: Sem, v: View, lim: nat, code: seq<MIns>, need: Need, out: seq<(nat, int)>, down: nat,
                  up: nat)
    requires Inv(c, sem, v, lim, code, need, out, -1)
    requires down in All(c) && down !in v.free && up in v.free && SameFile(down, up)
    ensures down < |v.cost| && up < |v.cost| && CostRef(v.cost[down]) < |v.r|
    ensures Inv(c, sem, Rename(v, down, up), lim, [Mov(down, up)] + code, (need - {down})[up := CostRef(v.cost[down])],
            out, -1)
  {
    hide CodeOk, RegsInv, SlotInv, WfCfg;
    RenameRegs(c, v, lim, down, up);
    var x := CostRef(v.cost[down]);
    var v' := Rename(v, down, up);
    if down in need { assert NeedOk(c, v, lim, need, -1, down); }
    forall q | q in need ensures q !in v.free { assert NeedOk(c, v, lim, need, -1, q); }
    EmitMov(sem, c.ir, v.s, lim, code, need, out, down, up, x);
    var need' := (need - {down})[up := x];
    forall q | q in need'
      ensures NeedOk(c, v', lim, need', -1, q)
    {
      if q != up { assert q in need && NeedOk(c, v, lim, need, -1, q); }
    }
    SlotsOnly(c, v, v');
  }

  // The destination of the current instruction x: free from here on, and stored
  // if x has a spill slot.
  function Dest(v: View, x: nat, d: nat): View
    requires x < |v.r|
  {
    v.(r := v.r[x := d], free := v.free + {d})
  }

  lemma DestRegs(c: Cfg, v: View, x: nat, d: nat)
    requires WfCfg(c) && RegsInv(c, v, x + 1)
    requires if HasReg(v.r[x]) then d == v.r[x] else d in v.free
    ensures RegsInv(c, Dest(v, x, d), x)
  {
    var v' := Dest(v, x, d);
    assert RegOk(c, v, x);
    assert Shape(c, v') && x <= |c.ir|;
    forall y | 0 <= y < x
      ensures RegOk(c, v', y)
    {
      assert RegOk(c, v, y) && v'.r[y] == v.r[y];
    }
    forall q | q in All(c) && q !in v'.free
      ensures HolderOk(c, v', x, q)
    {
      assert HolderOk(c, v, x + 1, q) && q != d;
      assert CostRef(v.cost[q]) != x;
    }
  }

  lemma DestNeed(c: Cfg, v: View, x: nat, need: Need, d: nat)
    requires WfCfg(c) && RegsInv(c, v, x + 1)
    requires if HasReg(v.r[x]) then d == v.r[x] else d in v.free
    requires forall q :: q in need ==> NeedOk(c, v, x + 1, need, -1, q)
    ensures d in need ==> need[d] == x
    ensures var need' := need[d := x]; forall q :: q in need' ==> NeedOk(c, Dest(v, x, d), x, need', d, q)
    ensures forall q :: q in need ==> NeedOk(c, Dest(v, x, d), x, need, d, q)
  {
    assert RegOk(c, v, x);
    forall q | q in need
      ensures NeedOk(c, Dest(v, x, d), x, need, d, q)
      ensures q != d ==> NeedOk(c, Dest(v, x, d), x, need[d := x], d, q)
    {
      assert NeedOk(c, v, x + 1, need, -1, q);
    }
  }

  lemma DestInv(c: Cfg, sem: Sem, v: View, x: nat, code: seq<MIns>, need: Need, out: seq<(nat, int)>, d: nat)
    requires Inv(c, sem, v, x + 1, code, need, out, -1)
    requires if HasReg(v.r[x]) then d == v.r[x] else d in v.free
    ensures v.s[x] == 0 ==> Inv(c, sem, Dest(v, x, d), x, code, need, out, d)
    ensures v.s[x] != 0 ==>
              Inv(c, sem, Dest(v, x, d), x, [SpStore(d, v.s[x], Width(c.ir[x]))] + code, need[d := x], out, d)
  {
    DestRegs(c, v, x, d);
    DestNeed(c, v, x, need, d);
    SlotsOnly(c, v, Dest(v, x, d));
    if v.s[x] == 0 {
      NoSlotToStore(sem, c.ir, v.s, code, need, out, x);
    } else {
      EmitSpStore(sem, c.ir, v.s, code, need, out, d, x);
    }
  }

  // An instruction nobody uses has no destination.
  lemma SkipInv(c: Cfg, sem: Sem, v: View, x: nat, code: seq<MIns>, need: Need, out: seq<(nat, int)>)
    requires Inv(c, sem, v, x + 1, code, need, out, -1) && !Used(v, x)
    ensures Inv(c, sem, v, x, code, need, out, -1)
  {
    NoSlotToStore(sem, c.ir, v.s, code, need, out, x);
    forall y | 0 <= y < x ensures RegOk(c, v, y) { assert RegOk(c, v, y); }
    forall q | q in All(c) && q !in v.free ensures HolderOk(c, v, x, q) { assert HolderOk(c, v, x + 1, q); }
    forall q | q in need ensures NeedOk(c, v, x, need, -1, q) { assert NeedOk(c, v, x + 1, need, -1, q); }
  }

  // The copy to a forced destination r.
  lemma DestMovInv(c: Cfg, sem: Sem, v: View, x: nat, code: seq<MIns>, need: Need, out: seq<(nat, int)>, d: nat, r: nat)
    requires Inv(c, sem, v, x, code, need, out, d) && r in v.free && r != d
    ensures Inv(c, sem, v, x, [Mov(d, r)] + code, (need - {d})[r := x], out, r)
  {
    forall q | q in need && q != d ensures q !in v.free { assert NeedOk(c, v, x, need, d, q); }
    if d in need { assert NeedOk(c, v, x, need, d, d); }
    EmitMov(sem, c.ir, v.s, x, code, need, out, d, r, x);
    var need' := (need - {d})[r := x];
    forall q | q in need'
      ensures NeedOk(c, v, x, need', r, q)
    {
      if q != r { assert q in need && NeedOk(c, v, x, need, d, q); }
    }
  }

  lemma OpInv(c: Cfg, sem: Sem, v: View, x: nat, code: seq<MIns>, need: Need, out: seq<(nat, int)>, d: nat)
    requires x < |c.ir| && c.ir[x].Op? && Inv(c, sem, v, x, code, need, out, d)
    requires c.ir[x].a < x && c.ir[x].b < x
    requires HasReg(v.r[c.ir[x].a]) && HasReg(v.r[c.ir[x].b])
    ensures var l, r := v.r[c.ir[x].a], v.r[c.ir[x].b];
            Inv(c, sem, v, x, [Op3(c.ir[x].f, d, l, r, x)] + code,
                (need - {d})[l := c.ir[x].a][r := c.ir[x].b], [(x, Val(sem, c.ir, x))] + out, -1)
  {
    var a, b := c.ir[x].a, c.ir[x].b;
    assert RegOk(c, v, a) && RegOk(c, v, b);
    var l, r := v.r[a], v.r[b];
    forall q | q in need
      ensures q == d ==> need[q] == x ensures q == l && q != d ==> need[q] == a ensures q == r && q != d
                                                                   ==> need[q] == b
    {
      assert NeedOk(c, v, x, need, d, q);
    }
    EmitOp(sem, c.ir, v.s, x, code, need, out, x, d, l, r);
    var need' := (need - {d})[l := a][r := b];
    forall q | q in need'
      ensures NeedOk(c, v, x, need', -1, q)
    {
      if q != l && q != r { assert q in need && NeedOk(c, v, x, need, d, q); }
    }
  }

  lemma LeafInv(c: Cfg, sem: Sem, v: View, x: nat, code: seq<MIns>, need: Need, out: seq<(nat, int)>, d: nat)
    requires x < |c.ir| && c.ir[x].Leaf? && Inv(c, sem, v, x, code, need, out, d)
    ensures Inv(c, sem, v, x, [LeafOp(c.ir[x].f, d, x)] + code, need - {d}, [(x, Val(sem, c.ir, x))] + out, -1)
  {
    if d in need { assert NeedOk(c, v, x, need, d, d); }
    EmitLeaf(sem, c.ir, v.s, x, code, need, out, x, d);
    var need' := need - {d};
    forall q | q in need' ensures NeedOk(c, v, x, need', -1, q) { assert q in need && NeedOk(c, v, x, need, d, q); }
  }

  // pend is d, or -1 when the result of the call is not used.
  lemma CallInv(c: Cfg, sem: Sem, v: View, x: nat, code: seq<MIns>, need: Need, out: seq<(nat, int)>, pend: int, d: nat)
    requires x < |c.ir| && c.ir[x].Leaf? && Inv(c, sem, v, x, code, need, out, pend)
    requires c.scratch <= v.free && d in c.scratch && (pend == d || pend == -1)
    ensures Inv(c, sem, v, x, [CallOp(c.ir[x].f, d, c.scratch, x)] + code, need - {d}, [(x, Val(sem, c.ir, x))] + out,
            -1)
  {
    forall q | q in need ensures q == d ==> need[q] == x ensures q in c.scratch ==> q == d {
      assert NeedOk(c, v, x, need, pend, q);
    }
    EmitCall(sem, c.ir, v.s, x, code, need, out, x, d, c.scratch);
    var need' := need - {d};
    forall q | q in need' ensures NeedOk(c, v, x, need', -1, q) { assert q in need && NeedOk(c, v, x, need, pend, q); }
  }
}
