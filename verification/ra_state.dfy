// The register allocator proper: the ra_* functions of src/lj_asm.c over the
// state they update in place, with ra_alloc2 of src/lj_asm_arm64.h.
module RaState {
  import opened RaIr
  import opened RaInv

  datatype Err = SpillOv | NyiCoal

  // A trace error leaves the assembler and throws its state away.
  datatype Res<+T> = Ok(value: T) | TraceErr(err: Err) {
    predicate IsFailure() { TraceErr? }
    function PropagateFailure<U>(): Res<U>
      requires TraceErr?
    {
      TraceErr(err)
    }
    function Extract(): T
      requires Ok?
    {
      value
    }
  }

  // -- Register sets ---------------------------------------------------------

  predicate Bot(s: set<nat>, q: nat) { q in s && forall p :: p in s ==> q <= p }

  predicate Top(s: set<nat>, q: nat) { q in s && forall p :: p in s ==> p <= q }

  lemma HasBotTop(s: set<nat>)
    requires s != {}
    ensures exists q :: q in s && Bot(s, q)
    ensures exists q :: q in s && Top(s, q)
  {
    var q :| q in s;
    var rest := s - {q};
    if rest == {} {
      assert s == {q};
      assert Bot(s, q) && Top(s, q);
    } else {
      HasBotTop(rest);
      var lo :| lo in rest && Bot(rest, lo);
      var hi :| hi in rest && Top(rest, hi);
      var bot, top := if q <= lo then q else lo, if hi <= q then q else hi;
      forall p | p in s
        ensures bot <= p <= top
      {
        if p != q { assert p in rest; }
      }
      assert Bot(s, bot) && Top(s, top);
    }
  }

  function PickBot(s: set<nat>): (q: nat)
    requires s != {}
    ensures Bot(s, q)
  {
    HasBotTop(s);
    var q :| q in s && Bot(s, q);
    q
  }

  function PickTop(s: set<nat>): (q: nat)
    requires s != {}
    ensures Top(s, q)
  {
    HasBotTop(s);
    var q :| q in s && Top(s, q);
    q
  }

  class AsmState {
    const c: Cfg
    ghost const sem: Sem

    var r: seq<nat>              // ir->r of every reference
    var s: seq<nat>              // ir->s of every reference
    var freeset: set<nat>
    var modset: set<nat>
    var cost: seq<nat>
    var evenspill: nat
    var oddspill: nat
    var code: seq<MIns>          // from mcp upwards: the last emitted comes first
    var phiset: set<nat>
    var phireg: map<nat, nat>
    var marked: set<nat>         // references with the mark bit

    ghost var lim: nat           // references below are not assembled yet
    ghost var need: Need
    ghost var out: seq<(nat, int)>
    ghost var pend: int

    ghost function V(): View
      reads this
    {
      View(r, s, freeset, cost, evenspill, oddspill)
    }

    ghost predicate Valid()
      reads this
    {
      Inv(c, sem, V(), lim, code, need, out, pend) && Reloaded(s, code)
    }

    // A free register may be handed out, the pending destination not evicted.
    ghost predicate MayTake(allow: set<nat>)
      reads this
    {
      pend in freeset || pend !in allow
    }

    // ra_setup, with the register hints and the first spill slot chosen by
    // asm_setup_regsp.
    constructor (cfg: Cfg, ghost meaning: Sem, hints: seq<nat>)
      requires WfCfg(cfg) && |hints| == |cfg.ir|
      requires forall x :: 0 <= x < |hints| ==> !HasReg(hints[x])
      ensures c == cfg && sem == meaning && Valid()
      ensures lim == |c.ir| && out == [] && pend == -1 && freeset == All(c) && code == []
      ensures forall x :: 0 <= x < |c.ir| ==> !Used(V(), x)
    {
      c := cfg;
      sem := meaning;
      r := hints;
      s := seq(|cfg.ir|, i => 0);
      freeset := cfg.gpr + cfg.fpr;
      modset, phiset, phireg, marked := {}, {}, map[], {};
      cost := seq(RID_MAX, i => 0xffff0000);
      if cfg.first % 2 == 1 {
        evenspill, oddspill := cfg.first + 1, cfg.first;
      } else {
        evenspill, oddspill := cfg.first, 0;
      }
      code := [];
      lim, need, out, pend := |cfg.ir|, map[], [], -1;
      new;
      FilledNone(c.ir, s, |s|);
      assert RegsInv(c, V(), lim);
      assert SlotInv(c, V());
      assert CodeOk(sem, c.ir, s, lim, code, need, out);
    }

    // Rematerialize a constant.
    method RaRematk(ref: nat) returns (q: nat)
      requires ref < |r| && HasReg(r[ref]) && r[ref] != pend
      requires ref < lim && ref < c.nk && Valid()
      modifies `r, `freeset, `modset, `code, `need
      ensures Valid() && Freed(c, old(V()), V(), lim, q) && q == old(r[ref]) && modset == old(modset) + {q}
      ensures ref < |r| && !HasReg(r[ref])
    {
      q := r[ref];
      RematInv(c, sem, V(), lim, code, need, out, pend, ref);
      hide Inv, Reloaded, Freed;
      freeset := freeset + {q};
      modset := modset + {q};
      r := r[ref := RID_INIT];
      ReloadedOn(s, LoadI(q, c.ir[ref].k), code);
      code := [LoadI(q, c.ir[ref].k)] + code;
      need := need - {q};
    }

    // Force a spill slot, a new one if there is none.
    method RaSpill(x: nat) returns (res: Res<nat>)
      requires x < |r| && x < |s| == |c.ir| && HasReg(r[x])
      requires c.nk <= x < lim && Valid()
      modifies `s, `evenspill, `oddspill
      ensures res.Ok? ==> Inv(c, sem, V(), lim, code, need, out, pend) && Keeps(c, old(V()), V(), lim)
      ensures res.Ok? ==> x < |s| && res.value == s[x] != 0 && s == old(s)[x := res.value]
      ensures res.TraceErr? <==> old(s)[x] == 0 && NoRoom(c, old(s), x)
      ensures res.TraceErr? ==> res.err == SpillOv && RanOut(c, s, code)
    {
      Held(c, sem, V(), lim, code, need, out, pend, x);
      var slot := s[x];
      if slot == 0 {
        ghost var v := V();
        SpillFull(c, v, x);
        if Spill(c, v, x).even > 256 { SpillFails(c, v, code, x); }
        if Width(c.ir[x]) == 2 {
          slot := evenspill;
          evenspill := evenspill + 2;
        } else if oddspill != 0 {
          slot := oddspill;
          oddspill := 0;
        } else {
          slot := evenspill;
          oddspill := slot + 1;
          evenspill := evenspill + 2;
        }
        if evenspill > 256 {
          return TraceErr(SpillOv);
        }
        s := s[x := slot];
        assert V() == Spill(c, v, x);
        SpillInv(c, sem, v, lim, code, need, out, pend, x);
      }
      return Ok(slot);
    }

    // Restore a register: rematerialize or reload from a spill slot.
    method RaRestore(ref: nat) returns (res: Res<nat>)
      requires ref < |r| && HasReg(r[ref]) && r[ref] != pend
      requires ref < lim && Valid()
      modifies `r, `s, `freeset, `modset, `evenspill, `oddspill, `code, `need
      ensures res.Ok? ==> Valid() && Freed(c, old(V()), V(), lim, res.value)
      ensures res.Ok? ==> res.value == old(r[ref]) && ref < |r| && !HasReg(r[ref])
                          && modset == old(modset) + {res.value}
      ensures res.TraceErr? ==> res.err == SpillOv && RanOut(c, s, code)
    {
      hide Inv, Reloaded, Freed, Keeps, Shape;
      Held(c, sem, V(), lim, code, need, out, pend, ref);
      if ref < c.nk {
        var q := RaRematk(ref);
        return Ok(q);
      }
      ghost var v := V();
      var ofs :- RaSpill(ref);
      ghost var v1 := V();
      var q := r[ref];
      RestoreInv(c, sem, V(), lim, code, need, out, pend, ref);
      r := r[ref := SetHint(q)];
      freeset := freeset + {q};
      modset := modset + {q};
      ReloadedMore(old(s), ref, SpLoad(q, ofs, Width(c.ir[ref])), code);
      code := [SpLoad(q, ofs, Width(c.ir[ref]))] + code;
      need := need - {q};
      assert V() == Release(v1, ref, SetHint(q));
      KeepsThenFreed(c, v, v1, V(), lim, q);
      return Ok(q);
    }

    // The lowest cost among the allowed registers of one register file.
    static method MinCost(cost: seq<nat>, allow: set<nat>) returns (best: nat)
      requires |cost| == RID_MAX
      requires (forall q :: q in allow ==> q < RID_MAX_GPR) || (forall q :: q in allow ==> RID_MAX_GPR <= q < RID_MAX)
      requires exists q :: q in allow && cost[q] < 0xffffffff
      ensures exists p :: p in allow && p < |cost| && best == cost[p]
      ensures forall p :: p in allow && p < |cost| ==> best <= cost[p]
    {
      var lo, hi := 0, RID_MAX_GPR;
      if !(forall q :: q in allow ==> q < RID_MAX_GPR) {
        lo, hi := RID_MAX_GPR, RID_MAX;
      }
      best := 0xffffffff;
      for q := lo to hi
        invariant best == 0xffffffff || exists p :: p in allow && p < |cost| && best == cost[p]
        invariant forall p :: p in allow && p < q ==> best <= cost[p]
      {
        if q in allow && cost[q] < best {
          best := cost[q];
        }
      }
    }

    // Evict the register with the lowest cost, forcing a restore.
    method RaEvict(allow: set<nat>) returns (res: Res<nat>)
      requires allow != {} && (allow <= c.gpr || allow <= c.fpr) && allow !! freeset && pend !in allow
      requires |cost| == RID_MAX && Valid()
      modifies `r, `s, `freeset, `modset, `evenspill, `oddspill, `code, `need
      ensures res.Ok? ==> Valid() && Freed(c, old(V()), V(), lim, res.value)
      ensures res.Ok? ==> res.value in allow && res.value < RID_MAX == |cost|
      ensures res.Ok? ==> forall q :: q in allow && q < RID_MAX ==> cost[res.value] <= cost[q]
      ensures res.TraceErr? ==> res.err == SpillOv && RanOut(c, s, code)
    {
      hide Inv, Reloaded, Freed;
      ghost var any :| any in allow;
      HolderAt(c, sem, V(), lim, code, need, out, pend, any, allow);
      var best := MinCost(cost, allow);
      ghost var p :| p in allow && p < |cost| && best == cost[p];
      HolderAt(c, sem, V(), lim, code, need, out, pend, p, allow);
      res := RaRestore(CostRef(best));
    }

    // Pick any register (marked as free), evict on demand.
    method RaPick(allow: set<nat>) returns (res: Res<nat>)
      requires allow != {} && (allow <= c.gpr || allow <= c.fpr) && MayTake(allow)
      requires |cost| == RID_MAX && Valid()
      modifies `r, `s, `freeset, `modset, `evenspill, `oddspill, `code, `need
      ensures res.Ok? ==> Valid() && Freed(c, old(V()), V(), lim, res.value)
      ensures res.Ok? ==> res.value in allow
      ensures old(freeset) * allow != {} ==> res.Ok? && V() == old(V()) && code == old(code)
      ensures res.TraceErr? ==> res.err == SpillOv && RanOut(c, s, code)
    {
      hide Inv, Reloaded, Freed;
      var pick := freeset * allow;
      if pick == {} {
        NoneFree(freeset, allow, pick);
        res := RaEvict(allow);
      } else {
        var q := PickTop(pick);
        FreedNow(c, sem, V(), lim, code, need, out, pend, q);
        return Ok(q);
      }
    }

    // Get a scratch register (marked as free).
    method RaScratch(allow: set<nat>) returns (res: Res<nat>)
      requires allow != {} && (allow <= c.gpr || allow <= c.fpr) && MayTake(allow)
      requires |cost| == RID_MAX && Valid()
      modifies `r, `s, `freeset, `modset, `evenspill, `oddspill, `code, `need
      ensures res.Ok? ==> Valid() && Freed(c, old(V()), V(), lim, res.value)
      ensures res.Ok? ==> res.value in allow
      ensures res.TraceErr? ==> res.err == SpillOv && RanOut(c, s, code)
    {
      hide Inv, Reloaded, Freed;
      var q :- RaPick(allow);
      modset := modset + {q};
      return Ok(q);
    }

    // The choice of a register for ref: a hinted one if possible, else by the
    // kind of reference, else by eviction.
    method RaSelect(ref: nat, allow: set<nat>) returns (res: Res<nat>)
      requires ref < lim && ref < |r| && ref < |c.ir| && !HasReg(r[ref])
      requires allow != {} && (allow <= c.gpr || allow <= c.fpr) && MayTake(allow)
      requires |cost| == RID_MAX && Valid()
      modifies `r, `s, `freeset, `modset, `evenspill, `oddspill, `code, `need
      ensures res.Ok? ==> Valid() && Freed(c, old(V()), V(), lim, res.value)
      ensures res.Ok? ==> res.value in allow
      ensures res.TraceErr? ==> res.err == SpillOv && RanOut(c, s, code)
    {
      hide Inv, Reloaded, Freed;
      var pick := freeset * allow;
      if pick == {} {
        NoneFree(freeset, allow, pick);
        res := RaEvict(allow);
        return;
      }
      var hint := GetHint(r[ref]);
      var q;
      if HasHint(r[ref]) && hint in pick {
        q := hint;
      } else if HasHint(r[ref]) && hint in allow && hint < RID_MAX && CostRef(cost[hint]) < c.nk {
        // Rematerialization is cheaper than missing a hint.
        HolderAt(c, sem, V(), lim, code, need, out, pend, hint, allow);
        q := RaRematk(CostRef(cost[hint]));
        return Ok(q);
      } else if ref < c.loopref && !IsPhi(c.ir[ref]) {
        // Invariants should preferably get unmodified registers.
        if pick - modset != {} {
          pick := pick - modset;
        }
        q := PickBot(pick);
      } else {
        if pick - c.scratch != {} {
          pick := pick - c.scratch;
        }
        q := PickTop(pick);
      }
      FreedNow(c, sem, V(), lim, code, need, out, pend, q);
      return Ok(q);
    }

    // Allocate a register for ref, which has none yet, from the allowed set.
    method RaAllocref(ref: nat, allow: set<nat>) returns (res: Res<nat>)
      requires ref < lim && ref < |r| && ref < |c.ir| && !HasReg(r[ref]) && !c.ir[ref].Use?
      requires allow != {} && allow <= ClassSet(c, ref) && MayTake(allow)
      requires |cost| == RID_MAX && Valid()
      modifies `r, `s, `freeset, `modset, `cost, `evenspill, `oddspill, `code, `need
      ensures res.Ok? ==> Valid() && Allocated(c, old(V()), V(), lim, ref, res.value)
      ensures res.Ok? ==> res.value in allow
      ensures res.TraceErr? ==> res.err == SpillOv && RanOut(c, s, code)
    {
      hide Inv, Reloaded, Freed, Allocated;
      ghost var v := V();
      var q :- RaSelect(ref, allow);
      ghost var v1 := V();
      FreedFacts(c, sem, v, v1, lim, code, need, out, pend, ref, q);
      AssignInv(c, sem, v1, lim, code, need, out, pend, ref, q);
      FreedAssigned(c, sem, v, v1, lim, code, need, out, pend, ref, q);
      r := r[ref := q];
      freeset := freeset - {q};
      cost := cost[q := RegCost(ref, c.ir[ref])];
      assert V() == Assign(c, v1, ref, q);
      return Ok(q);
    }

    // Allocate a register on demand; allow is ignored if there already is one.
    method RaAlloc1(ref: nat, allow: set<nat>) returns (res: Res<nat>)
      requires ref < lim && ref < |r| && ref < |c.ir| && !c.ir[ref].Use?
      requires allow != {} && allow <= ClassSet(c, ref) && (HasReg(r[ref]) || MayTake(allow))
      requires |cost| == RID_MAX && Valid()
      modifies `r, `s, `freeset, `modset, `cost, `evenspill, `oddspill, `code, `need
      ensures res.Ok? ==> Valid() && Grown(c, old(V()), V(), lim, {ref})
      ensures res.Ok? ==> ref < |r| && r[ref] == res.value && HasReg(res.value)
      ensures res.Ok? ==> forall y :: 0 <= y < lim && y != ref && y < old(|r|) && y < |r| && old(HasReg(r[y])) ==>
                            old(r[y]) !in allow ==> r[y] == old(r[y])
      ensures res.Ok? && old(HasReg(r[ref])) ==> V() == old(V())
      ensures res.TraceErr? ==> res.err == SpillOv && RanOut(c, s, code)
    {
      hide Inv, Reloaded, Grown, Used;
      var q := r[ref];
      if !HasReg(q) {
        ghost var v := V();
        q :- RaAllocref(ref, allow);
        AllocatedGrown(c, sem, v, V(), lim, code, need, out, pend, ref, q);
      } else {
        SameGrown(c, sem, V(), lim, code, need, out, pend, ref);
      }
      return Ok(q);
    }

    // Allocate two source registers for a three-operand instruction.
    method RaAlloc2(x: nat, allow: set<nat>) returns (res: Res<(nat, nat)>)
      requires x == lim < |c.ir| && c.ir[x].Op? && c.ir[x].a < x && c.ir[x].b < x && x < |r|
      requires !c.ir[c.ir[x].a].Use? && !c.ir[c.ir[x].b].Use?
      requires Two(allow) && allow <= ClassSet(c, c.ir[x].a) && allow <= ClassSet(c, c.ir[x].b)
      requires pend in freeset && |cost| == RID_MAX && Valid()
      modifies `r, `s, `freeset, `modset, `cost, `evenspill, `oddspill, `code, `need
      ensures res.Ok? ==> Valid() && Grown(c, old(V()), V(), lim, {c.ir[x].a, c.ir[x].b})
      ensures res.Ok? ==> x < |r| && r[c.ir[x].a] == res.value.0 && r[c.ir[x].b] == res.value.1
      ensures res.Ok? ==> HasReg(res.value.0) && HasReg(res.value.1)
      ensures res.TraceErr? ==> res.err == SpillOv && RanOut(c, s, code)
    {
      hide Inv, Reloaded, Grown, Allocated, Used, Two;
      var a, b := c.ir[x].a, c.ir[x].b;
      var left, right := r[a], r[b];
      ghost var v := V();
      StillTwo(allow, left);
      if HasReg(left) {
        SameGrown(c, sem, v, lim, code, need, out, pend, a);
        if !HasReg(right) {
          StillTwo(allow, left);
          right :- RaAllocref(b, allow - {left});
          AllocatedGrown(c, sem, v, V(), lim, code, need, out, pend, b, right);
          AllocatedKeeps(c, v, V(), lim, b, right, a);
        } else {
          SameGrown(c, sem, v, lim, code, need, out, pend, b);
        }
        GrownTwo(c, v, v, V(), lim, a, b);
      } else if HasReg(right) {
        SameGrown(c, sem, v, lim, code, need, out, pend, b);
        StillTwo(allow, right);
        left :- RaAllocref(a, allow - {right});
        AllocatedGrown(c, sem, v, V(), lim, code, need, out, pend, a, left);
        AllocatedKeeps(c, v, V(), lim, a, left, b);
        GrownTwo(c, v, v, V(), lim, b, a);
      } else if HasHint(right) {
        right :- RaAllocref(b, allow);
        ghost var v1 := V();
        AllocatedGrown(c, sem, v, v1, lim, code, need, out, pend, b, right);
        StillTwo(allow, right);
        left :- RaAlloc1(a, allow - {right});
        GrownTwo(c, v, v1, V(), lim, b, a);
      } else {
        left :- RaAllocref(a, allow);
        ghost var v1 := V();
        AllocatedGrown(c, sem, v, v1, lim, code, need, out, pend, a, left);
        StillTwo(allow, left);
        right :- RaAlloc1(b, allow - {left});
        GrownTwo(c, v, v1, V(), lim, a, b);
      }
      assert {b, a} == {a, b};
      return Ok((left, right));
    }

    // Rename a register allocation and emit the move: backwards code generation
    // needs the inverse move.
    method RaRename(down: nat, up: nat)
      requires down < RID_MAX && up < RID_MAX && SameFile(down, up) && down in All(c) && down !in freeset
               && up in freeset
      requires |cost| == RID_MAX && CostRef(cost[down]) < |r|
      modifies `r, `freeset, `modset, `cost, `code, `need
      ensures V() == Rename(old(V()), down, up) && code == [Mov(down, up)] + old(code)
      ensures old(Valid()) && pend == -1 ==> Valid()
    {
      hide Inv, Reloaded;
      ghost var v := V();
      if Valid() && pend == -1 { RenameInv(c, sem, v, lim, code, need, out, down, up); }
      var ref := CostRef(cost[down]);
      cost := cost[up := cost[down]];
      r := r[ref := up];
      cost := cost[down := 0];
      freeset := freeset + {down};
      modset := modset + {down};
      freeset := freeset - {up};
      if Reloaded(s, code) { ReloadedOn(s, Mov(down, up), code); }
      code := [Mov(down, up)] + code;
      need := (need - {down})[up := ref];
      assert down != up;
      assert V() == Rename(v, down, up);
    }

    // Save a register to a spill slot.
    method RaSave(x: nat, q: nat)
      requires x < |s| && x < |r| && s[x] != 0
      requires pend == -1 && lim == x + 1 && Valid() && (if HasReg(r[x]) then q == r[x] else q in freeset)
      modifies `r, `freeset, `code, `need, `lim, `pend
      ensures Valid() && lim == x && pend == q && V() == Dest(old(V()), x, q)
      ensures code == [SpStore(q, s[x], Width(c.ir[x]))] + old(code)
    {
      hide Inv, Reloaded;
      InvCfg(c, sem, V(), lim, code, need, out, pend);
      DestInv(c, sem, V(), x, code, need, out, q);
      ReloadedOn(s, SpStore(q, s[x], Width(c.ir[x])), code);
      code := [SpStore(q, s[x], Width(c.ir[x]))] + code;
      need := need[q := x];
      r := r[x := q];
      freeset := freeset + {q};
      lim, pend := x, q;
    }

    // The destination of x: the register x already has, else a hinted or a
    // scratch register.
    method RaDestSelect(x: nat, allow: set<nat>) returns (res: Res<nat>)
      requires x + 1 == lim && x < |r| && x < |s| && x < |c.ir|
      requires allow != {} && (allow <= c.gpr || allow <= c.fpr)
      requires pend == -1 && |cost| == RID_MAX && Valid()
      modifies `r, `s, `freeset, `modset, `evenspill, `oddspill, `code, `need
      ensures res.Ok? ==> Valid() && |r| == |s| == |c.ir|
                          && (if HasReg(r[x]) then res.value == r[x] else res.value in freeset)
      ensures res.Ok? ==> SameUse(c, old(V()), Dest(V(), x, res.value), x) && old(freeset) <= freeset
      ensures res.Ok? ==> res.value == old(r[x]) || (!HasReg(old(r[x])) && res.value in allow)
      ensures res.TraceErr? ==> res.err == SpillOv && RanOut(c, s, code)
    {
      hide Inv, Reloaded, Freed, SameUse;
      ghost var v := V();
      var dest := r[x];
      Held(c, sem, v, lim, code, need, out, pend, x);
      if HasReg(dest) {
        modset := modset + {dest};
      } else if HasHint(dest) && GetHint(dest) in freeset * allow {
        dest := GetHint(dest);
        modset := modset + {dest};
        FreedNow(c, sem, v, lim, code, need, out, pend, dest);
      } else {
        dest :- RaScratch(allow);
      }
      FreedDest(c, sem, v, V(), code, need, out, x, dest);
      return Ok(dest);
    }

    // Pick a destination register (marked as free); allow is ignored if there
    // already is one.  From here on the references below x remain.
    method RaDest(x: nat, allow: set<nat>) returns (res: Res<nat>)
      requires x + 1 == lim && x < |r| && x < |s| && x < |c.ir|
      requires allow != {} && allow <= ClassSet(c, x)
      requires pend == -1 && |cost| == RID_MAX && Valid()
      modifies `r, `s, `freeset, `modset, `evenspill, `oddspill, `code, `need, `lim, `pend
      ensures res.Ok? ==> Valid() && lim == x && pend == res.value && res.value in freeset && |cost| == RID_MAX
      ensures res.Ok? ==> SameUse(c, old(V()), V(), x) && old(freeset) <= freeset
      ensures res.Ok? ==> res.value == old(r[x]) || (!HasReg(old(r[x])) && res.value in allow)
      ensures res.TraceErr? ==> res.err == SpillOv && RanOut(c, s, code)
    {
      hide Inv, Reloaded, SameUse;
      var dest :- RaDestSelect(x, allow);
      if s[x] != 0 {
        RaSave(x, dest);
      } else {
        DestInv(c, sem, V(), x, code, need, out, dest);
        r := r[x := dest];
        freeset := freeset + {dest};
        lim, pend := x, dest;
      }
      InvCfg(c, sem, V(), lim, code, need, out, pend);
      return Ok(dest);
    }

    // Force a specific destination register (marked as free).
    method RaDestreg(x: nat, q: nat) returns (res: Res<()>)
      requires x + 1 == lim && x < |r| && x < |s| && x < |c.ir| && q in ClassSet(c, x)
      requires q in freeset || q == r[x]
      requires pend == -1 && |cost| == RID_MAX && Valid()
      modifies `r, `s, `freeset, `modset, `evenspill, `oddspill, `code, `need, `lim, `pend
      ensures res.Ok? ==> Valid() && lim == x && pend == q && q in freeset && |cost| == RID_MAX
      ensures res.Ok? ==> SameUse(c, old(V()), V(), x) && old(freeset) <= freeset
                          && (HasReg(old(r[x])) ==> old(r[x]) in freeset)
      ensures res.TraceErr? ==> res.err == SpillOv && RanOut(c, s, code)
    {
      hide Inv, Reloaded, SameUse;
      var dest :- RaDest(x, {q});
      if dest != q {
        DestMovInv(c, sem, V(), x, code, need, out, dest, q);
        modset := modset + {q};
        ReloadedOn(s, Mov(dest, q), code);
        code := [Mov(dest, q)] + code;
        need := (need - {dest})[q := x];
        pend := q;
      }
      return Ok(());
    }

    // Restore every register of a work set, lowest first.
    method RaRestoreSet(work: set<nat>) returns (res: Res<()>)
      requires work <= All(c) && work !! freeset
      requires pend == -1 && Valid()
      modifies `r, `s, `freeset, `modset, `evenspill, `oddspill, `code, `need
      ensures res.Ok? ==> Valid() && Keeps(c, old(V()), V(), lim)
      ensures res.Ok? ==> freeset == old(freeset) + work && modset == old(modset) + work
      ensures res.TraceErr? ==> res.err == SpillOv && RanOut(c, s, code)
    {
      hide Inv, Reloaded, Keeps, Freed, All;
      ghost var v := V();
      KeepsSelf(c, sem, v, lim, code, need, out, pend);
      var todo := work;
      while todo != {}
        invariant todo <= work && todo !! freeset
        invariant freeset == v.free + (work - todo) && modset == old(modset) + (work - todo)
        invariant Valid() && Keeps(c, v, V(), lim)
      {
        var q := PickBot(todo);
        ghost var v1 := V();
        HolderIn(c, sem, v1, lim, code, need, out, pend, q);
        var _ :- RaRestore(CostRef(cost[q]));
        todo := todo - {q};
        KeepsFreed(c, v, v1, V(), lim, q);
      }
      return Ok(());
    }

    // Evict all registers of a set (if not free).
    method RaEvictset(drop: set<nat>) returns (res: Res<()>)
      requires drop <= All(c)
      requires pend == -1 && Valid()
      modifies `r, `s, `freeset, `modset, `evenspill, `oddspill, `code, `need
      ensures res.Ok? ==> Valid() && Keeps(c, old(V()), V(), lim) && freeset == old(freeset) + drop
      ensures res.TraceErr? ==> res.err == SpillOv && RanOut(c, s, code)
    {
      hide Inv, Reloaded, Keeps;
      ghost var v := V();
      modset := modset + drop;
      var _ :- RaRestoreSet((drop - freeset) * c.fpr);
      ghost var v1 := V();
      var _ :- RaRestoreSet(drop - freeset);
      KeepsTrans(c, v, v1, V(), lim);
      return Ok(());
    }

    // Rematerialize the constants in a work set of registers.
    method RaEvictkSet(work: set<nat>)
      requires work <= All(c) && work !! freeset
      requires pend == -1 && Valid()
      modifies `r, `freeset, `modset, `code, `need
      ensures Valid() && Keeps(c, old(V()), V(), lim)
      ensures forall q :: q in work && q !in freeset && q < |cost| ==> CostRef(cost[q]) >= c.nk
    {
      hide Inv, Reloaded, Keeps, Freed, All;
      ghost var v := V();
      KeepsSelf(c, sem, v, lim, code, need, out, pend);
      var todo := work;
      while todo != {}
        invariant todo <= work && todo !! freeset
        invariant Valid() && Keeps(c, v, V(), lim)
        invariant forall q :: q in work && q !in todo && q !in freeset && q < |cost| ==> CostRef(cost[q]) >= c.nk
      {
        var q := PickBot(todo);
        ghost var v1 := V();
        HolderIn(c, sem, v1, lim, code, need, out, pend, q);
        var ref := CostRef(cost[q]);
        if ref < c.nk {
          var _ := RaRematk(ref);
          KeepsFreed(c, v, v1, V(), lim, q);
        }
        todo := todo - {q};
      }
    }

    // Evict (rematerialize) all registers allocated to constants.
    method RaEvictk()
      requires pend == -1 && Valid()
      modifies `r, `freeset, `modset, `code, `need
      ensures Valid() && Keeps(c, old(V()), V(), lim)
      ensures forall q :: q in All(c) && q !in freeset && q < |cost| ==> CostRef(cost[q]) >= c.nk
    {
      hide Inv, Reloaded, Keeps;
      ghost var v := V();
      RaEvictkSet(c.fpr - freeset);
      ghost var v1 := V();
      RaEvictkSet(c.gpr - freeset);
      KeepsTrans(c, v, v1, V(), lim);
      KeepsFree(c, v1, V(), lim);
    }
  }

  lemma SameUseSelf(c: Cfg, sem: Sem, v: View, lim: nat, code: seq<MIns>, need: Need, out: seq<(nat, int)>, pend: int)
    requires Inv(c, sem, v, lim, code, need, out, pend)
    ensures SameUse(c, v, v, lim)
  {
  }

  // After the destination of x has been chosen only references below x matter.
  lemma FreedDest(c: Cfg, sem: Sem, v: View, v1: View, code: seq<MIns>, need: Need, out: seq<(nat, int)>, x: nat,
                  d: nat)
    requires Inv(c, sem, v1, x + 1, code, need, out, -1) && x < |v.r|
    requires if HasReg(v.r[x]) then v1 == v && d == v.r[x] else Freed(c, v, v1, x + 1, d)
    ensures |v1.r| == |v1.s| == |c.ir| && x < |c.ir| && (if HasReg(v1.r[x]) then d == v1.r[x] else d in v1.free)
    ensures SameUse(c, v, Dest(v1, x, d), x) && v.free <= v1.free
  {
    var v' := Dest(v1, x, d);
    forall y | c.nk <= y < x
      ensures Used(v, y) <==> Used(v', y)
    {
      assert Used(v, y) <==> Used(v1, y);
    }
  }

  lemma HolderIn(c: Cfg, sem: Sem, v: View, lim: nat, code: seq<MIns>, need: Need, out: seq<(nat, int)>, pend: int,
                 q: nat)
    requires Inv(c, sem, v, lim, code, need, out, pend) && q in All(c) && q !in v.free
    ensures q < |v.cost| && CostRef(v.cost[q]) < lim <= |v.r| && v.r[CostRef(v.cost[q])] == q && HasReg(q)
  {
    Holder(c, sem, v, lim, code, need, out, pend, q);
  }

  lemma KeepsSelf(c: Cfg, sem: Sem, v: View, lim: nat, code: seq<MIns>, need: Need, out: seq<(nat, int)>, pend: int)
    requires Inv(c, sem, v, lim, code, need, out, pend)
    ensures Keeps(c, v, v, lim)
  {
  }

  lemma KeepsTrans(c: Cfg, v: View, v1: View, v2: View, lim: nat)
    requires Keeps(c, v, v1, lim) && Keeps(c, v1, v2, lim)
    ensures Keeps(c, v, v2, lim)
  {
    forall x | c.nk <= x < lim ensures Used(v, x) <==> Used(v2, x) { assert Used(v, x) <==> Used(v1, x); }
    forall x | 0 <= x < lim && HasReg(v2.r[x]) ensures v2.r[x] == v.r[x] { assert v2.r[x] == v1.r[x]; }
    forall x | 0 <= x < lim && v.s[x] != 0 ensures v2.s[x] == v.s[x] { assert v1.s[x] == v.s[x]; }
  }

  lemma KeepsFreed(c: Cfg, v: View, v1: View, v2: View, lim: nat, q: nat)
    requires Keeps(c, v, v1, lim) && Freed(c, v1, v2, lim, q)
    ensures Keeps(c, v, v2, lim) && v2.free == v1.free + {q} && v2.cost == v1.cost
  {
    KeepsTrans(c, v, v1, v2, lim);
  }

  lemma KeepsFree(c: Cfg, v: View, v': View, lim: nat)
    requires Keeps(c, v, v', lim)
    ensures v.free <= v'.free && v.cost == v'.cost
  {
  }


  // The references in use have grown by those in xs; constants do not count.
  ghost predicate Grown(c: Cfg, v: View, v': View, lim: nat, xs: set<nat>) {
    && |v.r| == |v.s| == |v'.r| == |v'.s| && lim <= |v.r|
    && forall y :: c.nk <= y < lim ==> (Used(v', y) <==> Used(v, y) || y in xs)
  }

  lemma AllocatedGrown(c: Cfg, sem: Sem, v: View, v': View, lim: nat, code: seq<MIns>, need: Need, out: seq<(nat, int)>,
                       pend: int, x: nat, q: nat)
    requires Inv(c, sem, v', lim, code, need, out, pend) && Allocated(c, v, v', lim, x, q)
    ensures Grown(c, v, v', lim, {x}) && |v'.cost| == RID_MAX && |v'.r| == |c.ir| && v'.r[x] == q && HasReg(q)
    ensures v'.free == v.free - {q}
    ensures forall y :: 0 <= y < lim && y != x && HasReg(v.r[y]) && v.r[y] != q ==> v'.r[y] == v.r[y]
  {
    assert forall y :: c.nk <= y < lim ==> (Used(v', y) <==> Used(v, y) || y in {x});
  }

  lemma SameGrown(c: Cfg, sem: Sem, v: View, lim: nat, code: seq<MIns>, need: Need, out: seq<(nat, int)>, pend: int,
                  x: nat)
    requires Inv(c, sem, v, lim, code, need, out, pend) && x < lim && x < |v.r| && HasReg(v.r[x])
    ensures Grown(c, v, v, lim, {x})
  {
  }

  lemma AllocatedKeeps(c: Cfg, v: View, v': View, lim: nat, x: nat, q: nat, y: nat)
    requires Allocated(c, v, v', lim, x, q) && y < lim && y != x && y < |v.r| && HasReg(v.r[y]) && v.r[y] != q
    ensures y < |v'.r| && v'.r[y] == v.r[y]
  {
  }

  lemma GrownTwo(c: Cfg, v: View, v1: View, v2: View, lim: nat, x: nat, y: nat)
    requires Grown(c, v, v1, lim, {x}) && Grown(c, v1, v2, lim, {y})
    ensures Grown(c, v, v2, lim, {x, y})
  {
    forall z | c.nk <= z < lim
      ensures Used(v2, z) <==> Used(v, z) || z in {x, y}
    {
      assert Used(v1, z) <==> Used(v, z) || z in {x};
      assert Used(v2, z) <==> Used(v1, z) || z in {y};
    }
  }

  lemma StillTwo(allow: set<nat>, q: nat)
    requires Two(allow)
    ensures allow - {q} != {} && allow != {}
  {
    var p, p' :| p in allow && p' in allow && p != p';
    assert (if p != q then p else p') in allow - {q};
  }

  lemma InvCfg(c: Cfg, sem: Sem, v: View, lim: nat, code: seq<MIns>, need: Need, out: seq<(nat, int)>, pend: int)
    requires Inv(c, sem, v, lim, code, need, out, pend)
    ensures WfCfg(c) && Shape(c, v) && lim <= |c.ir|
  {
  }

  lemma NoneFree(free: set<nat>, allow: set<nat>, both: set<nat>)
    requires both == free * allow == {}
    ensures allow !! free
  {
    forall q | q in allow ensures q !in free { assert q in free ==> q in both; }
  }

  lemma CostBelow(x: nat, i: Ins)
    requires x < 0xff00
    ensures RegCost(x, i) < 0xffffffff
  {
  }

  lemma FreedNow(c: Cfg, sem: Sem, v: View, lim: nat, code: seq<MIns>, need: Need, out: seq<(nat, int)>, pend: int,
                 q: nat)
    requires Inv(c, sem, v, lim, code, need, out, pend) && q in v.free
    ensures Freed(c, v, v, lim, q)
  {
    FreedAlready(c, v, lim, q);
  }

  // A register of the allowed set that is not free has a holder.
  lemma HolderAt(c: Cfg, sem: Sem, v: View, lim: nat, code: seq<MIns>, need: Need, out: seq<(nat, int)>, pend: int,
                 q: nat, allow: set<nat>)
    requires Inv(c, sem, v, lim, code, need, out, pend) && q in allow && (allow <= c.gpr || allow <= c.fpr)
             && q !in v.free
    ensures q < |v.cost| && CostRef(v.cost[q]) < lim <= |v.r| && v.r[CostRef(v.cost[q])] == q && HasReg(q)
    ensures v.cost[q] < 0xffffffff && WfCfg(c)
  {
    Holder(c, sem, v, lim, code, need, out, pend, q);
    CostBelow(CostRef(v.cost[q]), c.ir[CostRef(v.cost[q])]);
  }

  lemma FreedFacts(c: Cfg, sem: Sem, v: View, v1: View, lim: nat, code: seq<MIns>, need: Need, out: seq<(nat, int)>,
                   pend: int, x: nat, q: nat)
    requires Inv(c, sem, v1, lim, code, need, out, pend) && Freed(c, v, v1, lim, q) && x < lim && x < |v.r|
             && !HasReg(v.r[x])
    ensures q in v1.free && x < |v1.r| && !HasReg(v1.r[x]) && |v1.cost| == RID_MAX && q < RID_MAX
  {
    assert q in All(c);
  }

  lemma FreedAssigned(c: Cfg, sem: Sem, v: View, v1: View, lim: nat, code: seq<MIns>, need: Need, out: seq<(nat, int)>,
                      pend: int, x: nat, q: nat)
    requires Inv(c, sem, v1, lim, code, need, out, pend) && Freed(c, v, v1, lim, q) && x < lim && x < |v.r|
             && !HasReg(v.r[x])
    ensures x < |v1.r| == |c.ir| && q < |v1.cost| && Allocated(c, v, Assign(c, v1, x, q), lim, x, q)
  {
    FreedFacts(c, sem, v, v1, lim, code, need, out, pend, x, q);
    var v' := Assign(c, v1, x, q);
    assert v'.free == v.free - {q};
    forall y | c.nk <= y < lim
      ensures Used(v', y) <==> Used(v, y) || y == x
    {
      assert Used(v, y) <==> Used(v1, y);
    }
  }

  lemma KeepsThenFreed(c: Cfg, v: View, v1: View, v2: View, lim: nat, q: nat)
    requires Keeps(c, v, v1, lim) && v1.free == v.free && v1.r == v.r && Freed(c, v1, v2, lim, q)
    ensures Freed(c, v, v2, lim, q)
  {
    forall x | c.nk <= x < lim ensures Used(v, x) <==> Used(v2, x) { assert Used(v, x) <==> Used(v1, x); }
  }
}
