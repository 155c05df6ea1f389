// The PHI register shuffle before a loop (asm_phi_break and asm_phi_shuffle of
// src/lj_asm.c).
module RaPhi {
  import opened RaIr
  import opened RaInv
  import opened RaState

  type PhiReg = map<nat, nat>

  // Every PHI register belongs to one left PHI operand, marked, that is still to
  // be assembled; each register file has registers without PHI.
  ghost predicate PhiOk(c: Cfg, lim: nat, phiset: set<nat>, phireg: PhiReg, marked: set<nat>) {
    && WfCfg(c) && lim <= |c.ir| && phiset == phireg.Keys && phiset <= All(c)
    && c.gpr - phiset != {} && c.fpr - phiset != {}
    && (forall q :: q in phireg ==> HomeOk(c, lim, phireg, q) && phireg[q] in marked)
    && (forall q, p :: q in phireg && p in phireg && phireg[q] == phireg[p] ==> q == p)
    && (forall x :: x in marked ==> exists q :: q in phireg && phireg[q] == x)
  }

  predicate HomeOk(c: Cfg, lim: nat, phireg: PhiReg, q: nat)
    requires q in phireg
  {
    c.nk <= phireg[q] < lim && phireg[q] < |c.ir| && q in ClassSet(c, phireg[q])
  }

  // The register of the left operand whose PHI register is q.
  function Left(v: View, phireg: PhiReg, q: nat): nat {
    if q in phireg && phireg[q] < |v.r| then v.r[phireg[q]] else RID_INIT
  }

  predicate Astray(v: View, phireg: PhiReg, q: nat) { HasReg(Left(v, phireg, q)) && Left(v, phireg, q) != q }

  ghost function Misplaced(v: View, phireg: PhiReg): set<nat> { set q | q in phireg && Astray(v, phireg, q) }

  // A misplaced operand whose own register is free.
  ghost predicate Ready(v: View, phireg: PhiReg) { exists q :: q in Misplaced(v, phireg) && q in v.free }

  // -- One pass --------------------------------------------------------------

  // A PHI register counts as blocked by another left operand, and unless it has
  // been freed since, some operand went home, it still is.
  ghost predicate BlockedOk(v0: View, v: View, phireg: PhiReg, marked: set<nat>, blockedby: set<nat>, q: nat)
    requires |v.cost| == RID_MAX
  {
    && q in phireg && q < RID_MAX && Left(v, phireg, q) != q
    && (HasReg(Left(v, phireg, q)) ==> Left(v, phireg, q) in blockedby)
    && (if q in v.free then Misplaced(v, phireg) != Misplaced(v0, phireg) else CostRef(v.cost[q]) in marked)
  }

  ghost predicate PassInv(v0: View, v: View, phireg: PhiReg, marked: set<nat>, todo: set<nat>, blocked: set<nat>,
                          blockedby: set<nat>) {
    && |v.cost| == RID_MAX && todo <= phireg.Keys && blocked <= phireg.Keys - todo
    && Misplaced(v, phireg) <= Misplaced(v0, phireg)
    && Misplaced(v, phireg) <= todo + blocked
    && (forall q :: q in blocked ==> BlockedOk(v0, v, phireg, marked, blockedby, q))
    && (forall q :: q in todo ==> Left(v, phireg, q) == Left(v0, phireg, q)
                                  || (!HasReg(Left(v, phireg, q)) && !HasReg(Left(v0, phireg, q))))
    && (Misplaced(v, phireg) == Misplaced(v0, phireg) ==>
          forall q :: q in Misplaced(v0, phireg) && q in v0.free ==> q in todo && q in v.free)
  }

  // A left operand with a register stays where it is or goes home.
  predicate Stays(v0: View, v: View, phireg: PhiReg, q: nat) {
    if HasReg(Left(v0, phireg, q)) then Left(v, phireg, q) == Left(v0, phireg, q) || Left(v, phireg, q) == q
    else !HasReg(Left(v, phireg, q))
  }

  ghost predicate AllStay(v0: View, v: View, phireg: PhiReg) { forall q :: q in phireg ==> Stays(v0, v, phireg, q) }

  lemma StayRestored(v0: View, v: View, v': View, phireg: PhiReg)
    requires AllStay(v0, v, phireg) && SameLefts(v, v', phireg) && forall q :: q in phireg ==> HasReg(q)
    ensures AllStay(v0, v', phireg)
  {
    forall q | q in phireg
      ensures Stays(v0, v', phireg, q)
    {
      assert Stays(v0, v, phireg, q);
      SameLeft(v, v', phireg, q);
    }
  }

  lemma StayRenamed(v0: View, v: View, v': View, phireg: PhiReg, q: nat)
    requires AllStay(v0, v, phireg) && q in phireg && Astray(v, phireg, q) && HasReg(q)
    requires forall p :: p in phireg ==> Left(v', phireg, p) == if p == q then q else Left(v, phireg, p)
    ensures AllStay(v0, v', phireg)
  {
    forall p | p in phireg ensures Stays(v0, v', phireg, p) { assert Stays(v0, v, phireg, p); }
  }

  lemma StayTrans(v0: View, v: View, v': View, phireg: PhiReg)
    requires AllStay(v0, v, phireg) && AllStay(v, v', phireg) && forall q :: q in phireg ==> HasReg(q)
    ensures AllStay(v0, v', phireg)
  {
    forall q | q in phireg
      ensures Stays(v0, v', phireg, q)
    {
      assert Stays(v0, v, phireg, q) && Stays(v, v', phireg, q);
    }
  }

  lemma StaySelf(v: View, phireg: PhiReg)
    ensures AllStay(v, v, phireg)
  {
  }

  lemma PassStart(v: View, phireg: PhiReg, marked: set<nat>)
    requires |v.cost| == RID_MAX
    ensures PassInv(v, v, phireg, marked, phireg.Keys, {}, {})
  {
  }

  // The left operand is in place.
  lemma PassPlaced(v0: View, v: View, phireg: PhiReg, marked: set<nat>, todo: set<nat>, blocked: set<nat>,
                   blockedby: set<nat>, q: nat)
    requires PassInv(v0, v, phireg, marked, todo, blocked, blockedby) && q in todo
    requires Left(v, phireg, q) == q || (!HasReg(Left(v, phireg, q)) && q in v.free)
    ensures PassInv(v0, v, phireg, marked, todo - {q}, blocked, blockedby)
  {
    assert q !in Misplaced(v, phireg);
  }

  // The PHI register is blocked by another left operand.
  lemma PassBlocked(v0: View, v: View, phireg: PhiReg, marked: set<nat>, todo: set<nat>, blocked: set<nat>,
                    blockedby: set<nat>, q: nat)
    requires PassInv(v0, v, phireg, marked, todo, blocked, blockedby) && q in todo && q < RID_MAX
    requires Left(v, phireg, q) != q && q !in v.free && CostRef(v.cost[q]) in marked
    ensures PassInv(v0, v, phireg, marked, todo - {q}, blocked + {q},
                    if HasReg(Left(v, phireg, q)) then blockedby + {Left(v, phireg, q)} else blockedby)
  {
    var seen := if HasReg(Left(v, phireg, q)) then blockedby + {Left(v, phireg, q)} else blockedby;
    forall p | p in blocked + {q}
      ensures BlockedOk(v0, v, phireg, marked, seen, p)
    {
      if p != q { assert BlockedOk(v0, v, phireg, marked, blockedby, p); }
    }
  }

  // Restoring a reference that is no left operand changes none of them.
  ghost predicate SameLefts(v: View, v': View, phireg: PhiReg) {
    && v'.cost == v.cost && v.free <= v'.free
    && forall p :: p in phireg ==> Left(v', phireg, p) == Left(v, phireg, p)
                                   || (!HasReg(Left(v', phireg, p)) && !HasReg(Left(v, phireg, p)))
  }

  lemma LeftsSelf(v: View, phireg: PhiReg)
    ensures SameLefts(v, v, phireg)
  {
  }

  lemma SameMisplaced(v: View, v': View, phireg: PhiReg)
    requires SameLefts(v, v', phireg)
    ensures Misplaced(v', phireg) == Misplaced(v, phireg)
  {
  }

  lemma RestoredLefts(c: Cfg, sem: Sem, v: View, v': View, lim: nat, code: seq<MIns>, need: Need, out: seq<(nat, int)>,
                      phiset: set<nat>, phireg: PhiReg, marked: set<nat>, q: nat)
    requires PhiOk(c, lim, phiset, phireg, marked) && Inv(c, sem, v, lim, code, need, out, -1)
             && Freed(c, v, v', lim, q)
    requires q in All(c) && q !in v.free && CostRef(v.cost[q]) !in marked
    ensures SameLefts(v, v', phireg)
  {
    Holder(c, sem, v, lim, code, need, out, -1, q);
    forall p | p in phireg
      ensures Left(v', phireg, p) == Left(v, phireg, p) || (!HasReg(Left(v', phireg, p)) && !HasReg(Left(v, phireg, p)))
    {
      assert HomeOk(c, lim, phireg, p);
      Held(c, sem, v, lim, code, need, out, -1, phireg[p]);
    }
  }

  lemma PassRestored(v0: View, v: View, v': View, phireg: PhiReg, marked: set<nat>, todo: set<nat>, blocked: set<nat>,
                     blockedby: set<nat>, q: nat)
    requires PassInv(v0, v, phireg, marked, todo, blocked, blockedby) && q in todo && SameLefts(v, v', phireg)
             && v'.free == v.free + {q}
    ensures PassInv(v0, v', phireg, marked, todo, blocked, blockedby)
  {
    SameMisplaced(v, v', phireg);
    forall p | p in blocked
      ensures BlockedOk(v0, v', phireg, marked, blockedby, p)
    {
      assert BlockedOk(v0, v, phireg, marked, blockedby, p);
    }
  }

  // The rename brings the left operand of q home.
  lemma RenamedLefts(c: Cfg, sem: Sem, v: View, lim: nat, code: seq<MIns>, need: Need, out: seq<(nat, int)>,
                     phiset: set<nat>, phireg: PhiReg, marked: set<nat>, q: nat)
    requires PhiOk(c, lim, phiset, phireg, marked) && Inv(c, sem, v, lim, code, need, out, -1)
    requires q in phireg && q in v.free && Astray(v, phireg, q)
    ensures var left := Left(v, phireg, q);
            && left < RID_MAX && q < RID_MAX && SameFile(left, q) && left in All(c) && left !in v.free
               && |v.cost| == RID_MAX
            && CostRef(v.cost[left]) == phireg[q] < |v.r|
            && forall p :: p in phireg ==> Left(Rename(v, left, q), phireg, p) == if p == q then q
               else Left(v, phireg, p)
  {
    assert HomeOk(c, lim, phireg, q);
    Held(c, sem, v, lim, code, need, out, -1, phireg[q]);
    forall p | p in phireg && p != q
      ensures phireg[p] != phireg[q] && phireg[p] < |v.r|
    {
      assert HomeOk(c, lim, phireg, p);
    }
  }

  lemma PassRenamed(v0: View, v: View, v': View, phireg: PhiReg, marked: set<nat>, todo: set<nat>, blocked: set<nat>,
                    blockedby: set<nat>, q: nat)
    requires PassInv(v0, v, phireg, marked, todo, blocked, blockedby) && q in todo && Astray(v, phireg, q)
    requires Left(v, phireg, q) < RID_MAX && q < RID_MAX && CostRef(v.cost[Left(v, phireg, q)]) < |v.r|
    requires v' == Rename(v, Left(v, phireg, q), q) && q in v.free
    requires forall p :: p in phireg ==> Left(v', phireg, p) == if p == q then q else Left(v, phireg, p)
    ensures PassInv(v0, v', phireg, marked, todo - {q}, blocked, blockedby)
  {
    assert q in Misplaced(v, phireg) && q !in Misplaced(v', phireg);
    assert Misplaced(v', phireg) <= Misplaced(v, phireg);
    forall p | p in blocked
      ensures BlockedOk(v0, v', phireg, marked, blockedby, p)
    {
      assert BlockedOk(v0, v, phireg, marked, blockedby, p);
    }
  }

  // What one pass achieves.
  ghost predicate PassDone(v0: View, v: View, phireg: PhiReg, marked: set<nat>, blocked: set<nat>,
                           blockedby: set<nat>) {
    && PassInv(v0, v, phireg, marked, {}, blocked, blockedby)
    && (Ready(v0, phireg) ==> Misplaced(v, phireg) != Misplaced(v0, phireg))
  }

  lemma PassEnd(v0: View, v: View, phireg: PhiReg, marked: set<nat>, blocked: set<nat>, blockedby: set<nat>)
    requires PassInv(v0, v, phireg, marked, {}, blocked, blockedby)
    ensures PassDone(v0, v, phireg, marked, blocked, blockedby)
  {
  }

  // Check all left PHI operand registers once.
  method PhiPass(a: AsmState) returns (res: Res<()>, blocked: set<nat>, blockedby: set<nat>)
    requires |a.cost| == RID_MAX && a.phiset == a.phireg.Keys
    requires a.pend == -1 && a.Valid() && PhiOk(a.c, a.lim, a.phiset, a.phireg, a.marked)
    modifies a`r, a`s, a`freeset, a`modset, a`cost, a`evenspill, a`oddspill, a`code, a`need
    ensures res.Ok? ==> a.Valid() && PassDone(old(a.V()), a.V(), a.phireg, a.marked, blocked, blockedby)
    ensures res.Ok? ==> AllStay(old(a.V()), a.V(), a.phireg)
    ensures res.TraceErr? ==> res.err == SpillOv && RanOut(a.c, a.s, a.code)
  {
    hide Inv, Reloaded, PhiOk, PassInv, AllStay, PassDone, Freed, SameLefts, WfCfg, All;
    ghost var v0 := a.V();
    blocked, blockedby := {}, {};
    var todo := a.phiset;
    PassStart(v0, a.phireg, a.marked);
    StaySelf(v0, a.phireg);
    while todo != {}
      invariant todo <= a.phireg.Keys && |a.cost| == RID_MAX
      invariant a.Valid() && PassInv(v0, a.V(), a.phireg, a.marked, todo, blocked, blockedby)
      invariant AllStay(v0, a.V(), a.phireg)
    {
      var q := PickBot(todo);
      PhiFacts(a.c, a.sem, a.V(), a.lim, a.code, a.need, a.out, a.phiset, a.phireg, a.marked, q);
      var left := a.r[a.phireg[q]];
      if q != left && q !in a.freeset && CostRef(a.cost[q]) in a.marked {
        PassBlocked(v0, a.V(), a.phireg, a.marked, todo, blocked, blockedby, q);
        blocked := blocked + {q};
        if HasReg(left) {
          blockedby := blockedby + {left};
        }
      } else if q != left {
        res := PhiHome(a, q, v0, todo, blocked, blockedby);
        if res.TraceErr? { return; }
      } else {
        PassPlaced(v0, a.V(), a.phireg, a.marked, todo, blocked, blockedby, q);
      }
      todo := todo - {q};
    }
    PassEnd(v0, a.V(), a.phireg, a.marked, blocked, blockedby);
    res := Ok(());
  }

  lemma PhiFacts(c: Cfg, sem: Sem, v: View, lim: nat, code: seq<MIns>, need: Need, out: seq<(nat, int)>,
                 phiset: set<nat>, phireg: PhiReg, marked: set<nat>, q: nat)
    requires PhiOk(c, lim, phiset, phireg, marked) && Inv(c, sem, v, lim, code, need, out, -1) && q in phireg
    ensures phireg[q] < |v.r| && q < RID_MAX == |v.cost| && q in All(c) && Left(v, phireg, q) == v.r[phireg[q]]
    ensures q !in v.free ==> CostRef(v.cost[q]) < lim <= |v.r| && v.r[CostRef(v.cost[q])] == q && HasReg(q)
  {
    assert HomeOk(c, lim, phireg, q);
    if q !in v.free { Holder(c, sem, v, lim, code, need, out, -1, q); }
  }

  // Take the PHI register q from an invariant if need be and rename the left
  // operand to it.
  method PhiHome(a: AsmState, q: nat, ghost v0: View, ghost todo: set<nat>, ghost blocked: set<nat>,
                 ghost blockedby: set<nat>)
    returns (res: Res<()>)
    requires |a.cost| == RID_MAX && q in todo && q in a.phireg && a.phireg[q] < |a.r| && a.r[a.phireg[q]] != q
    requires q < RID_MAX && (q in a.freeset || CostRef(a.cost[q]) !in a.marked)
    requires a.pend == -1 && a.Valid() && PhiOk(a.c, a.lim, a.phiset, a.phireg, a.marked)
    requires PassInv(v0, a.V(), a.phireg, a.marked, todo, blocked, blockedby) && AllStay(v0, a.V(), a.phireg)
    modifies a`r, a`s, a`freeset, a`modset, a`cost, a`evenspill, a`oddspill, a`code, a`need
    ensures res.Ok? ==> |a.cost| == RID_MAX && a.Valid()
                        && PassInv(v0, a.V(), a.phireg, a.marked, todo - {q}, blocked, blockedby)
                        && AllStay(v0, a.V(), a.phireg)
    ensures res.TraceErr? ==> res.err == SpillOv && RanOut(a.c, a.s, a.code)
  {
    hide Inv, Reloaded, PhiOk, PassInv, AllStay, Freed, SameLefts, WfCfg, All;
    ghost var v := a.V();
    PhiFacts(a.c, a.sem, v, a.lim, a.code, a.need, a.out, a.phiset, a.phireg, a.marked, q);
    ghost var code, need := a.code, a.need;
    var left := a.r[a.phireg[q]];
    if q !in a.freeset {
      var _ :- a.RaRestore(CostRef(a.cost[q]));
      RestoredLefts(a.c, a.sem, v, a.V(), a.lim, code, need, a.out, a.phiset, a.phireg, a.marked, q);
      FreedSets(a.c, v, a.V(), a.lim, q);
      PassRestored(v0, v, a.V(), a.phireg, a.marked, todo, blocked, blockedby, q);
      PhiRegisters(a.c, a.lim, a.phiset, a.phireg, a.marked);
      StayRestored(v0, v, a.V(), a.phireg);
    } else {
      assert SameLefts(v, v, a.phireg) by { LeftsSelf(v, a.phireg); }
    }
    PhiFacts(a.c, a.sem, a.V(), a.lim, a.code, a.need, a.out, a.phiset, a.phireg, a.marked, q);
    ghost var v1 := a.V();
    SameLeft(v, v1, a.phireg, q);
    if HasReg(left) {
      RenamedLefts(a.c, a.sem, v1, a.lim, a.code, a.need, a.out, a.phiset, a.phireg, a.marked, q);
      a.RaRename(left, q);
      PassRenamed(v0, v1, a.V(), a.phireg, a.marked, todo, blocked, blockedby, q);
      StayRenamed(v0, v1, a.V(), a.phireg, q);
    } else {
      PassPlaced(v0, v1, a.phireg, a.marked, todo, blocked, blockedby, q);
    }
    return Ok(());
  }

  lemma SameLeft(v: View, v': View, phireg: PhiReg, q: nat)
    requires SameLefts(v, v', phireg) && q in phireg
    ensures Left(v', phireg, q) == Left(v, phireg, q) || (!HasReg(Left(v', phireg, q)) && !HasReg(Left(v, phireg, q)))
  {
  }

  lemma FreedSets(c: Cfg, v: View, v': View, lim: nat, q: nat)
    requires Freed(c, v, v', lim, q)
    ensures v'.free == v.free + {q} && v'.cost == v.cost
  {
  }

  // -- Breaking cycles -------------------------------------------------------

  // The blocked registers of a file are taken and form cycles: the left operand
  // of each sits in another one.
  ghost predicate CycleAt(v: View, phireg: PhiReg, blocked: set<nat>, file: set<nat>, q: nat) {
    && q in phireg && q !in v.free && q < RID_MAX
    && HasReg(Left(v, phireg, q)) && Left(v, phireg, q) != q && Left(v, phireg, q) in blocked
       && Left(v, phireg, q) in file
  }

  ghost predicate PureCycles(v: View, phireg: PhiReg, blocked: set<nat>, file: set<nat>) {
    forall q :: q in blocked && q in file ==> CycleAt(v, phireg, blocked, file, q)
  }

  // If no blocked register is free after a pass, blocked registers form pure
  // cycles, so none of them is left out of blockedby.
  lemma BlockedIsCycles(c: Cfg, sem: Sem, v0: View, v: View, lim: nat, code: seq<MIns>, need: Need,
                        out: seq<(nat, int)>,
                        phiset: set<nat>, phireg: PhiReg, marked: set<nat>, blocked: set<nat>, blockedby: set<nat>)
    requires PhiOk(c, lim, phiset, phireg, marked) && Inv(c, sem, v, lim, code, need, out, -1)
    requires PassDone(v0, v, phireg, marked, blocked, blockedby) && v.free * blocked == {}
    ensures blocked <= blockedby && blocked <= phiset
    ensures PureCycles(v, phireg, blocked, c.gpr) && PureCycles(v, phireg, blocked, c.fpr)
  {
    var home := map q | q in blocked && q in phireg :: Left(v, phireg, q);
    forall q | q in blocked
      ensures Hit(blocked, home, q) && q in blockedby && q !in v.free && q in home && q in phireg
    {
      assert q in v.free ==> q in v.free * blocked;
      var h := Occupant(c, sem, v0, v, lim, code, need, out, phiset, phireg, marked, blocked, blockedby, q);
      assert h in blocked && h in home && home[h] == q;
    }
    Permutes(blocked, home);
    forall q | q in blocked
      ensures q in c.gpr ==> CycleAt(v, phireg, blocked, c.gpr, q)
      ensures q in c.fpr ==> CycleAt(v, phireg, blocked, c.fpr, q)
    {
      assert home[q] in blocked;
      BlockedAstray(c, sem, v0, v, lim, code, need, out, phiset, phireg, marked, blocked, blockedby, q);
    }
  }

  lemma BlockedAstray(c: Cfg, sem: Sem, v0: View, v: View, lim: nat, code: seq<MIns>, need: Need, out: seq<(nat, int)>,
                      phiset: set<nat>, phireg: PhiReg, marked: set<nat>, blocked: set<nat>, blockedby: set<nat>,
                      q: nat)
    requires PhiOk(c, lim, phiset, phireg, marked) && Inv(c, sem, v, lim, code, need, out, -1)
    requires PassDone(v0, v, phireg, marked, blocked, blockedby) && q in blocked && q !in v.free
    requires Left(v, phireg, q) in blocked
    ensures q in phireg && q < RID_MAX && Left(v, phireg, q) != q && HasReg(Left(v, phireg, q))
    ensures q in c.gpr <==> Left(v, phireg, q) in c.gpr
    ensures q in c.fpr <==> Left(v, phireg, q) in c.fpr
  {
    assert BlockedOk(v0, v, phireg, marked, blockedby, q);
    assert BlockedOk(v0, v, phireg, marked, blockedby, Left(v, phireg, q));
    SameClass(c, sem, v, lim, code, need, out, phiset, phireg, marked, q);
  }

  // The left operand in a blocked, taken register is a misplaced one.
  lemma Occupant(c: Cfg, sem: Sem, v0: View, v: View, lim: nat, code: seq<MIns>, need: Need, out: seq<(nat, int)>,
                 phiset: set<nat>, phireg: PhiReg, marked: set<nat>, blocked: set<nat>, blockedby: set<nat>, q: nat)
                 returns (h: nat)
    requires PhiOk(c, lim, phiset, phireg, marked) && Inv(c, sem, v, lim, code, need, out, -1)
    requires PassDone(v0, v, phireg, marked, blocked, blockedby) && q in blocked && q !in v.free
    ensures h in blocked && h in phireg && Left(v, phireg, h) == q && q in phireg && q in blockedby
  {
    assert BlockedOk(v0, v, phireg, marked, blockedby, q);
    Holder(c, sem, v, lim, code, need, out, -1, q);
    var x := CostRef(v.cost[q]);
    h :| h in phireg && phireg[h] == x;
    assert h != q && Astray(v, phireg, h);
    assert h in Misplaced(v, phireg);
    assert BlockedOk(v0, v, phireg, marked, blockedby, h);
  }

  ghost predicate Hit(s: set<nat>, f: map<nat, nat>, q: nat) { exists h :: h in s && h in f && f[h] == q }

  // A map from a finite set onto itself stays inside.
  lemma Permutes(s: set<nat>, f: map<nat, nat>)
    requires forall q :: q in s ==> q in f && Hit(s, f, q)
    ensures forall q :: q in s ==> f[q] in s
  {
    forall q | q in s
      ensures f[q] in s
    {
      var rest := s - {q};
      if f[q] !in s {
        forall p | p in s
          ensures exists h :: h in rest && f[h] == p
        {
          assert Hit(s, f, p);
          var h :| h in s && h in f && f[h] == p;
          assert h in rest;
        }
        ImageSmaller(rest, s, f);
      }
      assert |rest| < |s|;
    }
  }

  lemma SameClass(c: Cfg, sem: Sem, v: View, lim: nat, code: seq<MIns>, need: Need, out: seq<(nat, int)>,
                  phiset: set<nat>, phireg: PhiReg, marked: set<nat>, q: nat)
    requires PhiOk(c, lim, phiset, phireg, marked) && Inv(c, sem, v, lim, code, need, out, -1) && q in phireg
    requires HasReg(Left(v, phireg, q))
    ensures q in c.gpr <==> Left(v, phireg, q) in c.gpr
    ensures q in c.fpr <==> Left(v, phireg, q) in c.fpr
  {
    assert HomeOk(c, lim, phireg, q);
    Held(c, sem, v, lim, code, need, out, -1, phireg[q]);
  }

  // After evicting to free `up` and renaming the blocked register `down` to it,
  // nothing more is misplaced and the operand of `down` can go home.
  lemma BreakStep(c: Cfg, v: View, v1: View, lim: nat, phiset: set<nat>, phireg: PhiReg, marked: set<nat>,
                  blocked: set<nat>, file: set<nat>, down: nat, up: nat)
    requires |v1.r| == |v.r| == |c.ir| && |v1.cost| == RID_MAX && v1.cost == v.cost && down < RID_MAX && up < RID_MAX
    requires CostRef(v.cost[down]) < |v1.r| && v.r[CostRef(v.cost[down])] == down
    requires PhiOk(c, lim, phiset, phireg, marked) && CycleAt(v, phireg, blocked, file, down) && up !in blocked
             && up != down
    requires forall p :: p in phireg ==> FewerLeft(v, v1, phireg, up, p)
    ensures Misplaced(Rename(v1, down, up), phireg) <= Misplaced(v, phireg)
    ensures down in Misplaced(Rename(v1, down, up), phireg) && down in Rename(v1, down, up).free
  {
    hide PhiOk;
    var v2 := Rename(v1, down, up);
    forall p | p in Misplaced(v2, phireg)
      ensures p in Misplaced(v, phireg)
    {
      assert FewerLeft(v, v1, phireg, up, p);
      LeftRenamed(c, v, v1, lim, phiset, phireg, marked, down, up, p);
    }
    assert FewerLeft(v, v1, phireg, up, down);
    LeftRenamed(c, v, v1, lim, phiset, phireg, marked, down, up, down);
  }

  // Freeing `up` takes a register away from at most one left operand.
  ghost predicate FewerLeft(v: View, v1: View, phireg: PhiReg, up: nat, p: nat) {
    && (HasReg(Left(v1, phireg, p)) ==> Left(v1, phireg, p) == Left(v, phireg, p))
    && (HasReg(Left(v, phireg, p)) && Left(v, phireg, p) != up ==> Left(v1, phireg, p) == Left(v, phireg, p))
  }

  lemma FewerLefts(c: Cfg, v: View, v1: View, lim: nat, phiset: set<nat>, phireg: PhiReg, marked: set<nat>, up: nat)
    requires PhiOk(c, lim, phiset, phireg, marked) && Freed(c, v, v1, lim, up)
    ensures forall p :: p in phireg ==> FewerLeft(v, v1, phireg, up, p)
    ensures v1.free == v.free + {up} && v1.cost == v.cost && |v1.r| == |v.r|
  {
    forall p | p in phireg ensures FewerLeft(v, v1, phireg, up, p) { assert HomeOk(c, lim, phireg, p); }
  }

  lemma LeftRenamed(c: Cfg, v: View, v1: View, lim: nat, phiset: set<nat>, phireg: PhiReg, marked: set<nat>, down: nat,
                    up: nat, p: nat)
    requires |v1.r| == |v.r| == |c.ir| && PhiOk(c, lim, phiset, phireg, marked) && p in phireg
    requires |v1.cost| == RID_MAX && down < RID_MAX && up < RID_MAX && v1.cost == v.cost
             && CostRef(v.cost[down]) < |v1.r|
    requires v.r[CostRef(v.cost[down])] == down
    ensures Left(Rename(v1, down, up), phireg, p) == if phireg[p] == CostRef(v.cost[down]) then up
            else Left(v1, phireg, p)
    ensures phireg[p] == CostRef(v.cost[down]) ==> Left(v, phireg, p) == down
  {
    assert HomeOk(c, lim, phireg, p);
  }

  // The registers of the other file are not concerned.
  lemma BreakOther(c: Cfg, sem: Sem, v: View, v1: View, lim: nat, code: seq<MIns>, need: Need, out: seq<(nat, int)>,
                   phiset: set<nat>, phireg: PhiReg, marked: set<nat>, blocked: set<nat>, file: set<nat>,
                   other: set<nat>, down: nat, up: nat, q: nat)
    requires |v1.r| == |v.r| == |c.ir| && |v1.cost| == RID_MAX && v1.cost == v.cost && down < RID_MAX && up < RID_MAX
    requires CostRef(v.cost[down]) < |v1.r| && v.r[CostRef(v.cost[down])] == down && v1.free == v.free + {up}
    requires PhiOk(c, lim, phiset, phireg, marked) && Inv(c, sem, v, lim, code, need, out, -1)
    requires (file == c.gpr && other == c.fpr) || (file == c.fpr && other == c.gpr)
    requires down in file && up in file && q in other && q in phireg && HasReg(Left(v, phireg, q))
    requires FewerLeft(v, v1, phireg, up, q)
    ensures Left(Rename(v1, down, up), phireg, q) == Left(v, phireg, q)
    ensures q in v.free <==> q in Rename(v1, down, up).free
  {
    SameClass(c, sem, v, lim, code, need, out, phiset, phireg, marked, q);
    FilesApart(c, lim, phiset, phireg, marked);
    hide Inv, Reloaded, WfCfg;
    LeftRenamed(c, v, v1, lim, phiset, phireg, marked, down, up, q);
  }

  lemma FilesApart(c: Cfg, lim: nat, phiset: set<nat>, phireg: PhiReg, marked: set<nat>)
    requires PhiOk(c, lim, phiset, phireg, marked)
    ensures c.gpr !! c.fpr
  {
  }

  lemma InFile(c: Cfg, lim: nat, phiset: set<nat>, phireg: PhiReg, marked: set<nat>, file: set<nat>, p: nat, q: nat)
    requires PhiOk(c, lim, phiset, phireg, marked) && (file == c.gpr || file == c.fpr) && p in file && q in file
    ensures SameFile(p, q) && p < RID_MAX && q < RID_MAX && p in All(c)
  {
  }

  // Each register file has registers without PHI.
  lemma RoomLeft(c: Cfg, lim: nat, phiset: set<nat>, phireg: PhiReg, marked: set<nat>, blocked: set<nat>)
    requires PhiOk(c, lim, phiset, phireg, marked) && blocked <= phiset
    ensures c.gpr - blocked != {} && c.fpr - blocked != {}
  {
    var g :| g in c.gpr - phiset;
    var f :| f in c.fpr - phiset;
    assert g in c.gpr - blocked && f in c.fpr - blocked;
  }

  // Operands of the other file that can go home still can.
  ghost predicate StaysReady(v: View, v': View, phireg: PhiReg, other: set<nat>) {
    forall q :: q in other && q in Misplaced(v, phireg) && q in v.free ==> q in Misplaced(v', phireg) && q in v'.free
  }

  lemma BreakOthers(c: Cfg, sem: Sem, v: View, v1: View, lim: nat, code: seq<MIns>, need: Need, out: seq<(nat, int)>,
                    phiset: set<nat>, phireg: PhiReg, marked: set<nat>, blocked: set<nat>, file: set<nat>,
                    other: set<nat>, down: nat, up: nat)
    requires |v1.r| == |v.r| == |c.ir| && |v1.cost| == RID_MAX && v1.cost == v.cost && down < RID_MAX && up < RID_MAX
    requires CostRef(v.cost[down]) < |v1.r| && v.r[CostRef(v.cost[down])] == down && v1.free == v.free + {up}
    requires PhiOk(c, lim, phiset, phireg, marked) && Inv(c, sem, v, lim, code, need, out, -1)
    requires (file == c.gpr && other == c.fpr) || (file == c.fpr && other == c.gpr)
    requires down in file && up in file
    requires forall p :: p in phireg ==> FewerLeft(v, v1, phireg, up, p)
    ensures PureCycles(v, phireg, blocked, other) ==> PureCycles(Rename(v1, down, up), phireg, blocked, other)
    ensures StaysReady(v, Rename(v1, down, up), phireg, other)
  {
    hide Inv, Reloaded, PhiOk, WfCfg, FewerLeft;
    var v2 := Rename(v1, down, up);
    forall q | q in blocked && q in other && PureCycles(v, phireg, blocked, other)
      ensures CycleAt(v2, phireg, blocked, other, q)
    {
      assert CycleAt(v, phireg, blocked, other, q);
      BreakOther(c, sem, v, v1, lim, code, need, out, phiset, phireg, marked, blocked, file, other, down, up, q);
    }
    forall q | q in other && q in Misplaced(v, phireg) && q in v.free
      ensures q in Misplaced(v2, phireg) && q in v2.free
    {
      BreakOther(c, sem, v, v1, lim, code, need, out, phiset, phireg, marked, blocked, file, other, down, up, q);
    }
  }

  // Break a PHI cycle by renaming to a free register (evict if needed).
  method AsmPhiBreak(a: AsmState, blocked: set<nat>, blockedby: set<nat>, allow: set<nat>, ghost other: set<nat>)
                     returns (res: Res<()>)
    requires (allow == a.c.gpr && other == a.c.fpr) || (allow == a.c.fpr && other == a.c.gpr)
    requires blocked <= blockedby && blocked <= a.phiset && |a.cost| == RID_MAX
    requires a.pend == -1 && a.Valid() && PhiOk(a.c, a.lim, a.phiset, a.phireg, a.marked)
    requires PureCycles(a.V(), a.phireg, blocked, allow)
    modifies a`r, a`s, a`freeset, a`modset, a`cost, a`evenspill, a`oddspill, a`code, a`need
    ensures res.Ok? ==> a.Valid() && |a.cost| == RID_MAX
                        && Misplaced(a.V(), a.phireg) <= Misplaced(old(a.V()), a.phireg)
    ensures res.Ok? ==> old(PureCycles(a.V(), a.phireg, blocked, other)) ==> PureCycles(a.V(), a.phireg, blocked, other)
    ensures res.Ok? ==> StaysReady(old(a.V()), a.V(), a.phireg, other)
    ensures res.Ok? && blocked * allow != {} ==> exists q :: q in allow && q in Misplaced(a.V(), a.phireg)
                                                             && q in a.freeset
    ensures res.TraceErr? ==> res.err == SpillOv && RanOut(a.c, a.s, a.code)
  {
    hide Inv, Reloaded, PhiOk, WfCfg, Freed, Misplaced, PureCycles, FewerLeft, CycleAt;
    ghost var v := a.V();
    ghost var code, need := a.code, a.need;
    RoomLeft(a.c, a.lim, a.phiset, a.phireg, a.marked, blocked);
    var candidates := blocked * allow;
    if candidates != {} {
      var up :- a.RaPick(allow - blocked);
      ghost var v1 := a.V();
      if candidates - blockedby != {} {
        candidates := candidates - blockedby;
      }
      var down := PickTop(candidates);
      BreakFacts(a.c, a.sem, v, v1, a.lim, code, need, a.out, a.phiset, a.phireg, a.marked, blocked, allow, down, up);
      FewerLefts(a.c, v, v1, a.lim, a.phiset, a.phireg, a.marked, up);
      BreakStep(a.c, v, v1, a.lim, a.phiset, a.phireg, a.marked, blocked, allow, down, up);
      BreakOthers(a.c, a.sem, v, v1, a.lim, code, need, a.out, a.phiset, a.phireg, a.marked, blocked, allow, other,
        down, up);
      a.RaRename(down, up);
    }
    return Ok(());
  }

  lemma BreakFacts(c: Cfg, sem: Sem, v: View, v1: View, lim: nat, code: seq<MIns>, need: Need, out: seq<(nat, int)>,
                   phiset: set<nat>, phireg: PhiReg, marked: set<nat>, blocked: set<nat>, file: set<nat>, down: nat,
                   up: nat)
    requires PhiOk(c, lim, phiset, phireg, marked) && Inv(c, sem, v, lim, code, need, out, -1)
             && Freed(c, v, v1, lim, up)
    requires PureCycles(v, phireg, blocked, file) && down in blocked && down in file && up in file && up !in blocked
    requires file == c.gpr || file == c.fpr
    ensures |v1.r| == |v.r| == |c.ir| && |v1.cost| == RID_MAX && v1.cost == v.cost && down < RID_MAX && up < RID_MAX
    ensures CostRef(v.cost[down]) < |v1.r| && v.r[CostRef(v.cost[down])] == down && v1.free == v.free + {up}
    ensures CycleAt(v, phireg, blocked, file, down) && down in All(c) && down !in v1.free && up in v1.free
            && SameFile(down, up)
  {
    hide *;
    PureAt(v, phireg, blocked, file, down);
    FreedLengths(c, v, v1, lim, up);
    InFile(c, lim, phiset, phireg, marked, file, down, up);
    InvCfg(c, sem, v, lim, code, need, out, -1);
    Holder(c, sem, v, lim, code, need, out, -1, down);
    ShapeOf(c, v);
  }

  lemma ShapeOf(c: Cfg, v: View)
    requires Shape(c, v)
    ensures |v.r| == |c.ir| && |v.cost| == RID_MAX
  {
  }

  lemma PureAt(v: View, phireg: PhiReg, blocked: set<nat>, file: set<nat>, q: nat)
    requires PureCycles(v, phireg, blocked, file) && q in blocked && q in file
    ensures CycleAt(v, phireg, blocked, file, q) && q !in v.free
  {
    assert CycleAt(v, phireg, blocked, file, q);
  }

  lemma FreedLengths(c: Cfg, v: View, v1: View, lim: nat, up: nat)
    requires Freed(c, v, v1, lim, up)
    ensures |v1.r| == |v.r| && v1.cost == v.cost && v1.free == v.free + {up}
  {
  }

  // Find and resolve PHI register mismatches: afterwards every left operand that
  // still has a register is in its own PHI register.
  method PhiMatch(a: AsmState) returns (res: Res<()>)
    requires |a.cost| == RID_MAX && a.phiset == a.phireg.Keys
    requires a.pend == -1 && a.Valid() && PhiOk(a.c, a.lim, a.phiset, a.phireg, a.marked)
    modifies a`r, a`s, a`freeset, a`modset, a`cost, a`evenspill, a`oddspill, a`code, a`need
    ensures res.Ok? ==> a.Valid() && |a.cost| == RID_MAX && Misplaced(a.V(), a.phireg) == {}
    ensures res.Ok? && !PhiRing(old(a.V()), a.phireg) ==> AllStay(old(a.V()), a.V(), a.phireg)
    ensures res.TraceErr? ==> res.err == SpillOv && RanOut(a.c, a.s, a.code)
  {
    hide Inv, Reloaded, PhiOk, PassDone, PureCycles, Misplaced, StaysReady, WfCfg, AllStay, PhiRing;
    ghost var entry := a.V();
    StaySelf(entry, a.phireg);
    PhiRegisters(a.c, a.lim, a.phiset, a.phireg, a.marked);
    while true
      invariant |a.cost| == RID_MAX && a.Valid()
      invariant AllStay(entry, a.V(), a.phireg) || PhiRing(entry, a.phireg)
      decreases Misplaced(a.V(), a.phireg), !Ready(a.V(), a.phireg)
    {
      ghost var v0 := a.V();
      var blocked, blockedby;
      res, blocked, blockedby := PhiPass(a);
      if res.TraceErr? { return; }
      ghost var v1 := a.V();
      PassResult(v0, v1, a.phireg, a.marked, blocked, blockedby);
      if AllStay(entry, v0, a.phireg) { StayTrans(entry, v0, v1, a.phireg); }
      if blocked == {} {
        return Ok(());
      }
      if a.freeset * blocked == {} {
        // Break cycles if none are free.
        BlockedIsCycles(a.c, a.sem, v0, v1, a.lim, a.code, a.need, a.out, a.phiset, a.phireg, a.marked, blocked,
          blockedby);
        if AllStay(entry, v1, a.phireg) {
          RingAtEntry(a.c, entry, v1, a.lim, a.phiset, a.phireg, a.marked, blocked);
        }
        res := AsmPhiBreak(a, blocked, blockedby, a.c.gpr, a.c.fpr);
        if res.TraceErr? { return; }
        ghost var v2 := a.V();
        res := AsmPhiBreak(a, blocked, blockedby, a.c.fpr, a.c.gpr);
        if res.TraceErr? { return; }
        BrokenReady(a.c, a.lim, v2, a.V(), a.phiset, a.phireg, a.marked, blocked);
      }
    }
  }

  // Left operands that sit in each other's PHI registers.
  ghost predicate PhiRing(v: View, phireg: PhiReg) { exists ring :: InRing(v, phireg, ring) }

  ghost predicate InRing(v: View, phireg: PhiReg, ring: set<nat>) {
    ring != {} && forall q :: q in ring ==> q in phireg && Astray(v, phireg, q) && Left(v, phireg, q) in ring
  }

  lemma PhiRegisters(c: Cfg, lim: nat, phiset: set<nat>, phireg: PhiReg, marked: set<nat>)
    requires PhiOk(c, lim, phiset, phireg, marked)
    ensures forall q :: q in phireg ==> HasReg(q)
  {
    forall q | q in phireg ensures HasReg(q) { assert HomeOk(c, lim, phireg, q); }
  }

  // As long as operands have only gone home, what blocks them now did so on entry.
  lemma RingAtEntry(c: Cfg, v0: View, v: View, lim: nat, phiset: set<nat>, phireg: PhiReg, marked: set<nat>,
                    blocked: set<nat>)
    requires PhiOk(c, lim, phiset, phireg, marked) && AllStay(v0, v, phireg) && blocked <= phiset && blocked != {}
    requires PureCycles(v, phireg, blocked, c.gpr) && PureCycles(v, phireg, blocked, c.fpr)
    ensures PhiRing(v0, phireg)
  {
    PhiRegisters(c, lim, phiset, phireg, marked);
    forall q | q in blocked
      ensures q in phireg && Astray(v0, phireg, q) && Left(v0, phireg, q) in blocked
    {
      AstrayAtEntry(c, v0, v, lim, phiset, phireg, marked, blocked, q);
    }
    hide PhiOk, AllStay, PureCycles, Astray, Left;
    assert InRing(v0, phireg, blocked);
  }

  lemma AstrayAtEntry(c: Cfg, v0: View, v: View, lim: nat, phiset: set<nat>, phireg: PhiReg, marked: set<nat>,
                      blocked: set<nat>, q: nat)
    requires PhiOk(c, lim, phiset, phireg, marked) && AllStay(v0, v, phireg) && blocked <= phiset && q in blocked
    requires PureCycles(v, phireg, blocked, c.gpr) && PureCycles(v, phireg, blocked, c.fpr)
    ensures q in phireg && Astray(v0, phireg, q) && Left(v0, phireg, q) in blocked
  {
    assert q in All(c);
    if q in c.gpr { PureAt(v, phireg, blocked, c.gpr, q); } else { PureAt(v, phireg, blocked, c.fpr, q); }
    assert Stays(v0, v, phireg, q);
    hide PhiOk, PureCycles, AllStay;
  }

  lemma PassResult(v0: View, v: View, phireg: PhiReg, marked: set<nat>, blocked: set<nat>, blockedby: set<nat>)
    requires PassDone(v0, v, phireg, marked, blocked, blockedby)
    ensures |v.cost| == RID_MAX && Misplaced(v, phireg) <= Misplaced(v0, phireg)
    ensures Ready(v0, phireg) || v.free * blocked != {} ==> Misplaced(v, phireg) != Misplaced(v0, phireg)
    ensures blocked == {} ==> Misplaced(v, phireg) == {}
  {
    if q :| q in v.free * blocked {
      assert BlockedOk(v0, v, phireg, marked, blockedby, q);
    }
  }

  lemma BrokenReady(c: Cfg, lim: nat, v: View, v': View, phiset: set<nat>, phireg: PhiReg, marked: set<nat>,
                    blocked: set<nat>)
    requires PhiOk(c, lim, phiset, phireg, marked) && blocked <= phiset && blocked != {}
    requires blocked * c.gpr != {} ==> exists q :: q in c.gpr && q in Misplaced(v, phireg) && q in v.free
    requires blocked * c.fpr != {} ==> exists q :: q in c.fpr && q in Misplaced(v', phireg) && q in v'.free
    requires StaysReady(v, v', phireg, c.gpr)
    ensures Ready(v', phireg)
  {
    var b :| b in blocked;
    assert b in blocked * c.gpr || b in blocked * c.fpr;
  }

  // asm_phi_shuffle up to the saving of PHI registers.
  method AsmPhiShuffle(a: AsmState) returns (res: Res<()>)
    requires |a.cost| == RID_MAX && a.phiset == a.phireg.Keys
    requires a.pend == -1 && a.Valid() && PhiOk(a.c, a.lim, a.phiset, a.phireg, a.marked)
    modifies a`r, a`s, a`freeset, a`modset, a`cost, a`evenspill, a`oddspill, a`code, a`need
    ensures res.Ok? ==> a.Valid() && forall q :: q in a.phireg ==> !Astray(a.V(), a.phireg, q)
    ensures res.Ok? && !PhiRing(old(a.V()), a.phireg) ==>
              forall q :: q in a.phireg ==>
                if HasReg(Left(old(a.V()), a.phireg, q)) then Left(a.V(), a.phireg, q) == q
                else !HasReg(Left(a.V(), a.phireg, q))
    ensures res.Ok? ==> forall q :: q in a.modset && q in All(a.c) && q !in a.phiset ==> q in a.freeset
    ensures res.TraceErr? ==> res.err == SpillOv && RanOut(a.c, a.s, a.code)
  {
    hide Inv, Reloaded, PhiOk, Keeps, WfCfg, AllStay, PhiRing;
    ghost var v0 := a.V();
    var _ :- PhiMatch(a);
    ghost var v, code, need := a.V(), a.code, a.need;
    // Restore invariants whose registers are modified inside the loop.
    var _ :- a.RaRestoreSet((a.modset - (a.freeset + a.phiset)) * a.c.fpr);
    ghost var v1 := a.V();
    var _ :- a.RaRestoreSet((a.modset - (a.freeset + a.phiset)) * (a.c.gpr + a.c.fpr));
    KeepsTrans(a.c, v, v1, a.V(), a.lim);
    NotAstray(a.c, v, a.V(), a.lim, a.phiset, a.phireg, a.marked);
    if !PhiRing(v0, a.phireg) {
      HomeStays(a.c, a.sem, v0, v, a.V(), a.lim, code, need, a.code, a.need, a.out, a.phiset, a.phireg, a.marked);
    }
    return Ok(());
  }

  // Registers of PHIs are not among those restored in the end.
  lemma HomeStays(c: Cfg, sem: Sem, v0: View, v: View, v': View, lim: nat, code: seq<MIns>, need: Need,
                  code': seq<MIns>, need': Need, out: seq<(nat, int)>, phiset: set<nat>, phireg: PhiReg,
                  marked: set<nat>)
    requires PhiOk(c, lim, phiset, phireg, marked) && Keeps(c, v, v', lim) && Misplaced(v, phireg) == {}
    requires AllStay(v0, v, phireg) && v'.free * phiset <= v.free
    requires Inv(c, sem, v, lim, code, need, out, -1) && Inv(c, sem, v', lim, code', need', out, -1)
    ensures forall q :: q in phireg ==>
              if HasReg(Left(v0, phireg, q)) then Left(v', phireg, q) == q else !HasReg(Left(v', phireg, q))
  {
    forall q | q in phireg
      ensures if HasReg(Left(v0, phireg, q)) then Left(v', phireg, q) == q else !HasReg(Left(v', phireg, q))
    {
      assert HomeOk(c, lim, phireg, q) && Stays(v0, v, phireg, q) && q !in Misplaced(v, phireg);
      Held(c, sem, v, lim, code, need, out, -1, phireg[q]);
      if HasReg(Left(v, phireg, q)) { Holder(c, sem, v', lim, code', need', out, -1, q); }
    }
    hide *;
  }

  lemma NotAstray(c: Cfg, v: View, v': View, lim: nat, phiset: set<nat>, phireg: PhiReg, marked: set<nat>)
    requires PhiOk(c, lim, phiset, phireg, marked) && Keeps(c, v, v', lim) && Misplaced(v, phireg) == {}
    ensures forall q :: q in phireg ==> !Astray(v', phireg, q)
  {
    forall q | q in phireg
      ensures !Astray(v', phireg, q)
    {
      assert HomeOk(c, lim, phireg, q);
      assert q !in Misplaced(v, phireg);
    }
  }
}
