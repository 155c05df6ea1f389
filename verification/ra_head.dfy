// The register shuffle at the head of a side trace (asm_head_side of
// src/lj_asm.c): parent registers move to the registers the side trace wants.
module RaHead {
  import opened RaIr
  import opened RaInv
  import opened RaState

  // sloadins: which reference the value of a parent register is for.
  type Src = map<nat, nat>

  // The reference of parent register p holds register q.
  predicate Feeds(v: View, src: Src, p: nat, q: nat) { p in src && src[p] < |v.r| && v.r[src[p]] == q }

  ghost predicate Fed(v: View, src: Src, s: set<nat>, q: nat) { exists p :: p in s && Feeds(v, src, p, q) }

  // A live parent register has its own reference, which still holds a register.
  ghost predicate LiveOk(c: Cfg, v: View, src: Src, rp: nat)
    requires |v.cost| == RID_MAX
  {
    && rp in src && rp in All(c) && rp < RID_MAX && src[rp] < |v.r|
    && v.r[src[rp]] < RID_MAX && v.r[src[rp]] in All(c) - v.free && SameFile(rp, v.r[src[rp]])
    && CostRef(v.cost[v.r[src[rp]]]) == src[rp]
  }

  // A taken register is held by the reference of a live parent register.
  ghost predicate TakenOk(c: Cfg, v: View, live: set<nat>, src: Src, q: nat)
    requires |v.cost| == RID_MAX
  {
    q < RID_MAX && exists rp :: rp in live && Feeds(v, src, rp, q) && src[rp] == CostRef(v.cost[q])
  }

  // Coalesced parent registers are free for good.
  ghost predicate HeadInv(c: Cfg, v: View, live: set<nat>, allow: set<nat>, src: Src) {
    && |v.cost| == RID_MAX && allow <= All(c) && v.free <= All(c) && live <= src.Keys
    && Targets(v, src) && AllLive(c, v, live, src) && AllTaken(c, v, live, src) && AllGone(v, live, allow, src)
  }

  ghost predicate Targets(v: View, src: Src) {
    && (forall rp :: rp in src ==> src[rp] < |v.r|)
    && (forall rp, rp' :: rp in src && rp' in src && src[rp] == src[rp'] ==> rp == rp')
  }

  ghost predicate AllLive(c: Cfg, v: View, live: set<nat>, src: Src)
    requires |v.cost| == RID_MAX
  {
    forall rp :: rp in live ==> LiveOk(c, v, src, rp)
  }

  ghost predicate AllTaken(c: Cfg, v: View, live: set<nat>, src: Src)
    requires |v.cost| == RID_MAX
  {
    forall q :: q in All(c) && q !in v.free ==> TakenOk(c, v, live, src, q)
  }

  ghost predicate AllGone(v: View, live: set<nat>, allow: set<nat>, src: Src) {
    forall rp :: rp in src && rp !in live ==> rp in v.free && rp !in allow
  }

  // -- Parallel move ---------------------------------------------------------

  // Where the value of parent register rp has to be before the moves.
  function Where(v: View, live: set<nat>, src: Src, rp: nat): nat
    requires rp in src && src[rp] < |v.r|
  {
    if rp in live then v.r[src[rp]] else rp
  }

  predicate MoveOk(sem: Sem, moves: seq<MIns>, to: nat, from: nat, m: M) {
    Reg(Run(sem, moves, m), to) == Reg(m, from)
  }

  ghost predicate MovesOk(sem: Sem, moves: seq<MIns>, v0: View, v: View, live: set<nat>, src: Src) {
    && |v.r| == |v0.r|
    && forall rp, m: M :: rp in src && src[rp] < |v.r| ==> MoveOk(sem, moves, v0.r[src[rp]], Where(v, live, src, rp), m)
  }

  // One more move in front, for the reference of parent register rx.
  lemma MoreMoves(sem: Sem, moves: seq<MIns>, v0: View, v: View, v': View, live: set<nat>, live': set<nat>, src: Src,
                  rx: nat, d: nat, s: nat)
    requires MovesOk(sem, moves, v0, v, live, src) && |v'.r| == |v.r|
    requires forall rp :: rp in src && src[rp] < |v.r| ==>
               if rp == rx then Where(v, live, src, rp) == d && Where(v', live', src, rp) == s
               else Where(v, live, src, rp) != d && Where(v', live', src, rp) == Where(v, live, src, rp)
    ensures MovesOk(sem, [Mov(d, s)] + moves, v0, v', live', src)
  {
    forall rp, m: M | rp in src && src[rp] < |v.r|
      ensures MoveOk(sem, [Mov(d, s)] + moves, v0.r[src[rp]], Where(v', live', src, rp), m)
    {
      RunCons(sem, Mov(d, s), moves, m);
      var m' := Step(sem, Mov(d, s), m);
      assert MoveOk(sem, moves, v0.r[src[rp]], Where(v, live, src, rp), m');
    }
  }

  // -- Coalescing one live register ------------------------------------------

  function Coalesce(v: View, src: Src, rp: nat): View
    requires rp in src && src[rp] < |v.r|
  {
    v.(free := v.free + {v.r[src[rp]]})
  }

  lemma CoalesceInv(c: Cfg, v: View, live: set<nat>, allow: set<nat>, src: Src, rp: nat)
    requires HeadInv(c, v, live, allow, src) && rp in live && rp in v.free
    ensures rp in src && src[rp] < |v.r| && HeadInv(c, Coalesce(v, src, rp), live - {rp}, allow - {rp}, src)
  {
    assert LiveOk(c, v, src, rp);
    var v' := Coalesce(v, src, rp);
    forall p | p in live - {rp}
      ensures LiveOk(c, v', src, p)
    {
      assert LiveOk(c, v, src, p);
    }
    forall q | q in All(c) && q !in v'.free
      ensures TakenOk(c, v', live - {rp}, src, q)
    {
      assert TakenOk(c, v, live, src, q);
      var p :| p in live && Feeds(v, src, p, q) && src[p] == CostRef(v.cost[q]);
      assert p != rp && Feeds(v', src, p, q);
    }
  }

  lemma CoalesceMoves(c: Cfg, sem: Sem, moves: seq<MIns>, v0: View, v: View, live: set<nat>, allow: set<nat>, src: Src,
                      rp: nat)
    requires HeadInv(c, v, live, allow, src) && rp in live && rp in v.free && MovesOk(sem, moves, v0, v, live, src)
    ensures rp in src && src[rp] < |v.r|
    ensures MovesOk(sem, [Mov(v.r[src[rp]], rp)] + moves, v0, Coalesce(v, src, rp), live - {rp}, src)
  {
    assert LiveOk(c, v, src, rp);
    forall p | p in src && p != rp
      ensures Where(v, live, src, p) != v.r[src[rp]]
    {
      if p in live { assert LiveOk(c, v, src, p); }
    }
    MoreMoves(sem, moves, v0, v, Coalesce(v, src, rp), live, live - {rp}, src, rp, v.r[src[rp]], rp);
  }

  // -- Breaking a cycle ------------------------------------------------------

  lemma RenameLive(c: Cfg, v: View, live: set<nat>, allow: set<nat>, src: Src, down: nat, up: nat)
    requires HeadInv(c, v, live, allow, src) && down in All(c) && down !in v.free && up in v.free && up < RID_MAX
    requires SameFile(down, up)
    ensures down < RID_MAX && CostRef(v.cost[down]) < |v.r| && AllLive(c, Rename(v, down, up), live, src)
  {
    hide Targets, AllGone;
    assert TakenOk(c, v, live, src, down);
    hide AllTaken;
    forall p | p in live
      ensures LiveOk(c, Rename(v, down, up), src, p)
    {
      assert LiveOk(c, v, src, p);
    }
  }

  lemma RenameTaken(c: Cfg, v: View, live: set<nat>, allow: set<nat>, src: Src, down: nat, up: nat, q: nat)
    requires HeadInv(c, v, live, allow, src) && down in All(c) && down !in v.free && up in v.free && up < RID_MAX
             && down < RID_MAX
    requires CostRef(v.cost[down]) < |v.r| && q in All(c) && q !in Rename(v, down, up).free
    ensures TakenOk(c, Rename(v, down, up), live, src, q)
  {
    hide Targets, AllGone, AllLive;
    var v' := Rename(v, down, up);
    var q0 := if q == up then down else q;
    assert TakenOk(c, v, live, src, q0);
    var p :| p in live && Feeds(v, src, p, q0) && src[p] == CostRef(v.cost[q0]);
    if q != up {
      assert TakenOk(c, v, live, src, down);
      var p' :| p' in live && Feeds(v, src, p', down) && src[p'] == CostRef(v.cost[down]);
    }
    assert p in live && Feeds(v', src, p, q) && src[p] == CostRef(v'.cost[q]);
  }

  lemma RenameHead(c: Cfg, v: View, live: set<nat>, allow: set<nat>, src: Src, down: nat, up: nat)
    requires HeadInv(c, v, live, allow, src) && down in All(c) && down !in v.free && up in v.free && up in allow
             && up < RID_MAX
    requires SameFile(down, up)
    ensures down < RID_MAX && CostRef(v.cost[down]) < |v.r| && HeadInv(c, Rename(v, down, up), live, allow, src)
  {
    hide AllLive, TakenOk;
    RenameLive(c, v, live, allow, src, down, up);
    var v' := Rename(v, down, up);
    forall q | q in All(c) && q !in v'.free
      ensures TakenOk(c, v', live, src, q)
    {
      RenameTaken(c, v, live, allow, src, down, up, q);
    }
  }

  lemma RenameMoves(c: Cfg, sem: Sem, moves: seq<MIns>, v0: View, v: View, live: set<nat>, allow: set<nat>, src: Src,
                    down: nat, up: nat)
    requires HeadInv(c, v, live, allow, src) && MovesOk(sem, moves, v0, v, live, src)
    requires down in All(c) && down !in v.free && up in v.free && up < RID_MAX
    ensures down < RID_MAX && CostRef(v.cost[down]) < |v.r|
    ensures MovesOk(sem, [Mov(down, up)] + moves, v0, Rename(v, down, up), live, src)
  {
    assert TakenOk(c, v, live, src, down);
    var x := CostRef(v.cost[down]);
    var rx :| rx in live && Feeds(v, src, rx, down) && src[rx] == x;
    var v' := Rename(v, down, up);
    forall p | p in src && p != rx
      ensures Where(v, live, src, p) != down && Where(v', live, src, p) == Where(v, live, src, p)
    {
      if p in live { assert LiveOk(c, v, src, p); }
    }
    MoreMoves(sem, moves, v0, v, v', live, live, src, rx, down, up);
  }

  // -- When the shuffle fails ------------------------------------------------

  // A register of the file that may hold a value while a cycle is broken.
  ghost predicate Temp(v: View, live: set<nat>, allow: set<nat>, file: set<nat>) {
    (v.free - live) * allow * file != {}
  }

  // Live parent registers of the file that are each other's targets.
  ghost predicate Cycle(v: View, live: set<nat>, src: Src, file: set<nat>, s: set<nat>) {
    s != {} && s <= live * file &&
    forall rp :: rp in s ==> Fed(v, src, s, rp)
  }

  ghost predicate Stuck(v: View, live: set<nat>, allow: set<nat>, src: Src, file: set<nat>) {
    !Temp(v, live, allow, file) && exists s :: Cycle(v, live, src, file, s)
  }

  // Without a temporary no target register has been renamed, and cycles stay.
  ghost predicate Untouched(v0: View, live0: set<nat>, allow0: set<nat>, v: View, live: set<nat>, src: Src,
                            file: set<nat>) {
    !Temp(v0, live0, allow0, file) ==> NotRenamed(v0, v, live, src, file) && CyclesLive(v0, live0, live, src, file)
  }

  predicate SameTarget(v0: View, v: View, src: Src, rp: nat) {
    rp in src && src[rp] < |v.r| && src[rp] < |v0.r| ==> v.r[src[rp]] == v0.r[src[rp]]
  }

  ghost predicate NotRenamed(v0: View, v: View, live: set<nat>, src: Src, file: set<nat>) {
    forall rp :: rp in live && rp in file ==> SameTarget(v0, v, src, rp)
  }

  ghost predicate CyclesLive(v0: View, live0: set<nat>, live: set<nat>, src: Src, file: set<nat>) {
    forall s :: Cycle(v0, live0, src, file, s) ==> Within(s, live)
  }

  predicate Within(s: set<nat>, live: set<nat>) { s <= live }

  ghost predicate Progress(c: Cfg, v0: View, live0: set<nat>, allow0: set<nat>, v: View, live: set<nat>,
                           allow: set<nat>, src: Src) {
    && WfCfg(c) && |v.r| == |v0.r| && live <= live0 <= src.Keys && allow <= allow0 && allow0 - live0 <= allow
    && allow0 !! (All(c) - v0.free)
    && HeadInv(c, v, live, allow, src)
    && Untouched(v0, live0, allow0, v, live, src, c.gpr)
    && Untouched(v0, live0, allow0, v, live, src, c.fpr)
  }

  // Once no live register of a file is free, the taken ones are the live ones.
  lemma TakenAreLive(c: Cfg, v: View, live: set<nat>, allow: set<nat>, src: Src, file: set<nat>)
    requires WfCfg(c) && HeadInv(c, v, live, allow, src) && (file == c.gpr || file == c.fpr)
    requires live * file * v.free == {}
    ensures (All(c) - v.free) * file == live * file
  {
    var taken := (All(c) - v.free) * file;
    var mine := live * file;
    var f := map rp | rp in mine && rp in src && src[rp] < |v.r| :: v.r[src[rp]];
    forall rp | rp in mine
      ensures rp in f && rp in taken
    {
      assert LiveOk(c, v, src, rp);
      assert rp in v.free ==> rp in live * file * v.free;
    }
    forall q | q in taken
      ensures exists x :: x in mine && f[x] == q
    {
      assert TakenOk(c, v, live, src, q);
      var rp :| rp in live && Feeds(v, src, rp, q) && src[rp] == CostRef(v.cost[q]);
      assert LiveOk(c, v, src, rp);
      assert rp in mine;
    }
    ImageSmaller(mine, taken, f);
    SubsetEqual(mine, taken);
  }

  // A cycle can be broken iff there was a temporary to begin with.
  lemma TempStays(c: Cfg, v0: View, live0: set<nat>, allow0: set<nat>, v: View, live: set<nat>, allow: set<nat>,
                  src: Src, file: set<nat>)
    requires Progress(c, v0, live0, allow0, v, live, allow, src) && (file == c.gpr || file == c.fpr)
    requires live * file * v.free == {} && live * file != {}
    ensures (v.free - live) * allow * file == {} ==> Stuck(v0, live0, allow0, src, file)
    ensures (v.free - live) * allow * file != {} ==> Temp(v0, live0, allow0, file)
  {
    hide HeadInv, Cycle, WfCfg;
    AllowedFree(c, v, live, allow, src);
    if t :| t in (v0.free - live0) * allow0 * file {
      TakenAreLive(c, v, live, allow, src, file);
      assert t in (v.free - live) * allow * file by {
        assert t in v.free || t in (All(c) - v.free) * file;
      }
    } else {
      assert (v.free - live) * allow * file == {} by {
        forall q | q in (v.free - live) * allow * file
          ensures false
        {
          assert q in v0.free && q !in (v0.free - live0) * allow0 * file;
          assert q in src && q !in live;
          Gone(c, v, live, allow, src, q);
        }
      }
      LiveIsCycle(c, v0, live0, allow0, v, live, allow, src, file);
    }
  }

  lemma AllowedFree(c: Cfg, v: View, live: set<nat>, allow: set<nat>, src: Src)
    requires HeadInv(c, v, live, allow, src)
    ensures allow <= All(c) && v.free <= All(c) && live <= src.Keys
  {
  }

  lemma Gone(c: Cfg, v: View, live: set<nat>, allow: set<nat>, src: Src, rp: nat)
    requires HeadInv(c, v, live, allow, src) && rp in src && rp !in live
    ensures rp !in allow && rp in v.free
  {
  }

  lemma LiveIsCycle(c: Cfg, v0: View, live0: set<nat>, allow0: set<nat>, v: View, live: set<nat>, allow: set<nat>,
                    src: Src, file: set<nat>)
    requires Progress(c, v0, live0, allow0, v, live, allow, src) && (file == c.gpr || file == c.fpr)
    requires live * file * v.free == {} && live * file != {} && !Temp(v0, live0, allow0, file)
    ensures Cycle(v0, live0, src, file, live * file)
  {
    hide HeadInv, Temp, WfCfg, All;
    var s := live * file;
    forall rp | rp in s
      ensures Fed(v0, src, s, rp)
    {
      assert rp in v.free ==> rp in live * file * v.free;
      FeedsSame(c, v, live, allow, src, file, rp);
      var p :| p in s && Feeds(v, src, p, rp);
      assert SameTarget(v0, v, src, p);
      assert Feeds(v0, src, p, rp);
    }
  }

  // The value wanted in a live, taken register of a file is in that file too.
  lemma FeedsSame(c: Cfg, v: View, live: set<nat>, allow: set<nat>, src: Src, file: set<nat>, rp: nat)
    requires WfCfg(c) && HeadInv(c, v, live, allow, src) && (file == c.gpr || file == c.fpr)
    requires rp in live * file && rp !in v.free
    ensures exists p :: p in live * file && Feeds(v, src, p, rp)
  {
    assert TakenOk(c, v, live, src, rp);
    var p :| p in live && Feeds(v, src, p, rp) && src[p] == CostRef(v.cost[rp]);
    assert LiveOk(c, v, src, p);
    assert p in live * file;
  }

  lemma LiveTaken(c: Cfg, v: View, live: set<nat>, allow: set<nat>, src: Src, rp: nat)
    requires HeadInv(c, v, live, allow, src) && rp in live
    ensures rp in src && src[rp] < |v.r| && v.r[src[rp]] !in v.free
  {
    assert LiveOk(c, v, src, rp);
  }

  // -- Steps -----------------------------------------------------------------

  // A free register is not part of a cycle.
  lemma NotInCycle(c: Cfg, v0: View, live0: set<nat>, v: View, live: set<nat>, allow: set<nat>, src: Src,
                   rp: nat, file: set<nat>, s: set<nat>)
    requires HeadInv(c, v, live, allow, src) && rp in v.free && |v.r| == |v0.r|
    requires NotRenamed(v0, v, live, src, file) && Cycle(v0, live0, src, file, s) && Within(s, live)
    ensures rp !in s
  {
    hide AllTaken, AllGone, Targets;
    forall p | p in s
      ensures p in src && src[p] < |v.r| && v0.r[src[p]] !in v.free
    {
      assert p in live && p in file;
      assert SameTarget(v0, v, src, p);
      LiveTaken(c, v, live, allow, src, p);
    }
    assert rp in s ==> Fed(v0, src, s, rp);
  }

  lemma CoalesceUntouched(c: Cfg, v0: View, live0: set<nat>, allow0: set<nat>, v: View, live: set<nat>, allow: set<nat>,
                          src: Src,
                          rp: nat, file: set<nat>)
    requires HeadInv(c, v, live, allow, src) && rp in live && rp in v.free && |v.r| == |v0.r|
    requires Untouched(v0, live0, allow0, v, live, src, file)
    ensures rp in src && src[rp] < |v.r| && Untouched(v0, live0, allow0, Coalesce(v, src, rp), live - {rp}, src, file)
  {
    LiveTaken(c, v, live, allow, src, rp);
    if !Temp(v0, live0, allow0, file) {
      CoalesceCycles(c, v0, live0, v, live, allow, src, rp, file);
      CoalesceSame(v0, v, live, src, rp, file);
    }
  }

  lemma CoalesceSame(v0: View, v: View, live: set<nat>, src: Src, rp: nat, file: set<nat>)
    requires rp in src && src[rp] < |v.r| && NotRenamed(v0, v, live, src, file)
    ensures NotRenamed(v0, Coalesce(v, src, rp), live - {rp}, src, file)
  {
    forall p | p in live - {rp} && p in file
      ensures SameTarget(v0, Coalesce(v, src, rp), src, p)
    {
      assert SameTarget(v0, v, src, p);
    }
  }

  lemma CoalesceCycles(c: Cfg, v0: View, live0: set<nat>, v: View, live: set<nat>, allow: set<nat>, src: Src, rp: nat,
                       file: set<nat>)
    requires HeadInv(c, v, live, allow, src) && rp in v.free && |v.r| == |v0.r|
    requires NotRenamed(v0, v, live, src, file) && CyclesLive(v0, live0, live, src, file)
    ensures CyclesLive(v0, live0, live - {rp}, src, file)
  {
    hide HeadInv, NotRenamed, Cycle;
    forall s | Cycle(v0, live0, src, file, s)
      ensures Within(s, live - {rp})
    {
      assert Within(s, live);
      NotInCycle(c, v0, live0, v, live, allow, src, rp, file, s);
    }
  }

  lemma CoalesceProgress(c: Cfg, v0: View, live0: set<nat>, allow0: set<nat>, v: View, live: set<nat>, allow: set<nat>,
                         src: Src, rp: nat)
    requires Progress(c, v0, live0, allow0, v, live, allow, src) && rp in live && rp in v.free
    ensures rp in src && src[rp] < |v.r|
    ensures Progress(c, v0, live0, allow0, Coalesce(v, src, rp), live - {rp}, allow - {rp}, src)
  {
    hide HeadInv, Untouched, WfCfg;
    CoalesceInv(c, v, live, allow, src, rp);
    CoalesceUntouched(c, v0, live0, allow0, v, live, allow, src, rp, c.gpr);
    CoalesceUntouched(c, v0, live0, allow0, v, live, allow, src, rp, c.fpr);
  }

  lemma RenameUntouched(c: Cfg, v0: View, live0: set<nat>, allow0: set<nat>, v: View, live: set<nat>, allow: set<nat>,
                        src: Src,
                        down: nat, up: nat, file: set<nat>, mine: set<nat>)
    requires WfCfg(c) && HeadInv(c, v, live, allow, src) && |v.r| == |v0.r|
    requires (file == c.gpr || file == c.fpr) && (mine == c.gpr || mine == c.fpr)
    requires down in mine && down !in v.free && up < RID_MAX && (mine == file ==> Temp(v0, live0, allow0, file))
    requires Untouched(v0, live0, allow0, v, live, src, file)
    ensures down < RID_MAX && CostRef(v.cost[down]) < |v.r|
    ensures Untouched(v0, live0, allow0, Rename(v, down, up), live, src, file)
  {
    assert TakenOk(c, v, live, src, down);
    var v' := Rename(v, down, up);
    forall rp | rp in live && rp in file && !Temp(v0, live0, allow0, file)
      ensures SameTarget(v0, v', src, rp)
    {
      assert LiveOk(c, v, src, rp) && SameTarget(v0, v, src, rp);
    }
  }

  lemma RenameProgress(c: Cfg, v0: View, live0: set<nat>, allow0: set<nat>, v: View, live: set<nat>, allow: set<nat>,
                       src: Src,
                       down: nat, up: nat, file: set<nat>)
    requires Progress(c, v0, live0, allow0, v, live, allow, src) && (file == c.gpr || file == c.fpr)
    requires down in live * file && live * file * v.free == {}
    requires up in (v.free - live) * allow * file
    ensures down < RID_MAX && up < RID_MAX && SameFile(down, up) && CostRef(v.cost[down]) < |v.r|
    ensures Progress(c, v0, live0, allow0, Rename(v, down, up), live, allow, src)
  {
    TempStays(c, v0, live0, allow0, v, live, allow, src, file);
    assert down in v.free ==> down in live * file * v.free;
    assert down < RID_MAX && up < RID_MAX && SameFile(down, up);
    hide HeadInv, Untouched, Temp, WfCfg;
    RenameHead(c, v, live, allow, src, down, up);
    RenameUntouched(c, v0, live0, allow0, v, live, allow, src, down, up, c.gpr, file);
    RenameUntouched(c, v0, live0, allow0, v, live, allow, src, down, up, c.fpr, file);
  }

  // -- The shuffle -----------------------------------------------------------

  predicate OnlyMoves(moves: seq<MIns>) { forall i :: 0 <= i < |moves| ==> moves[i].Mov? }

  ghost predicate Shuffling(c: Cfg, sem: Sem, v0: View, live0: set<nat>, allow0: set<nat>,
                            v: View, live: set<nat>, allow: set<nat>, src: Src, moves: seq<MIns>) {
    Progress(c, v0, live0, allow0, v, live, allow, src) && MovesOk(sem, moves, v0, v, live, src) && OnlyMoves(moves)
  }

  lemma CoalesceStep(c: Cfg, sem: Sem, v0: View, live0: set<nat>, allow0: set<nat>,
                     v: View, live: set<nat>, allow: set<nat>, src: Src, moves: seq<MIns>, rp: nat)
    requires Shuffling(c, sem, v0, live0, allow0, v, live, allow, src, moves) && rp in live && rp in v.free
    ensures rp in src && src[rp] < |v.r|
    ensures Shuffling(c, sem, v0, live0, allow0, Coalesce(v, src, rp), live - {rp}, allow - {rp}, src,
            [Mov(v.r[src[rp]], rp)] + moves)
  {
    hide HeadInv, Untouched, MovesOk;
    CoalesceProgress(c, v0, live0, allow0, v, live, allow, src, rp);
    CoalesceMoves(c, sem, moves, v0, v, live, allow, src, rp);
  }

  lemma RenameStep(c: Cfg, sem: Sem, v0: View, live0: set<nat>, allow0: set<nat>,
                   v: View, live: set<nat>, allow: set<nat>, src: Src, moves: seq<MIns>, down: nat, up: nat,
                   file: set<nat>)
    requires Shuffling(c, sem, v0, live0, allow0, v, live, allow, src, moves) && (file == c.gpr || file == c.fpr)
    requires down in live * file && live * file * v.free == {} && up in (v.free - live) * allow * file
    ensures down < RID_MAX && up < RID_MAX && SameFile(down, up) && |v.cost| == RID_MAX && CostRef(v.cost[down]) < |v.r|
    ensures down in All(c) && down !in v.free
    ensures Shuffling(c, sem, v0, live0, allow0, Rename(v, down, up), live, allow, src, [Mov(down, up)] + moves)
  {
    hide Untouched, MovesOk, AllLive, AllTaken, AllGone, Targets, WfCfg;
    assert down in v.free ==> down in live * file * v.free;
    RenameProgress(c, v0, live0, allow0, v, live, allow, src, down, up, file);
    RenameMoves(c, sem, moves, v0, v, live, allow, src, down, up);
  }

  // Repeatedly coalesce free live registers by moving to their target.
  method CoalesceFree(a: AsmState, src: Src, live: set<nat>, allow: set<nat>, ghost v0: View, ghost live0: set<nat>,
                      ghost allow0: set<nat>,
                      ghost moves: seq<MIns>, ghost rest: seq<MIns>)
    returns (live': set<nat>, allow': set<nat>, ghost moves': seq<MIns>)
    requires Shuffling(a.c, a.sem, v0, live0, allow0, a.V(), live, allow, src, moves) && a.code == moves + rest
    modifies a`freeset, a`code
    ensures Shuffling(a.c, a.sem, v0, live0, allow0, a.V(), live', allow', src, moves') && a.code == moves' + rest
    ensures live' <= live && a.freeset * live' == {} && (live' == live ==> a.freeset == old(a.freeset))
  {
    hide Shuffling;
    live', allow', moves' := live, allow, moves;
    while a.freeset * live' != {}
      invariant live' <= live && (live' == live ==> a.freeset == old(a.freeset))
      invariant Shuffling(a.c, a.sem, v0, live0, allow0, a.V(), live', allow', src, moves') && a.code == moves' + rest
      decreases live'
    {
      var rp := PickBot(a.freeset * live');
      CoalesceStep(a.c, a.sem, v0, live0, allow0, a.V(), live', allow', src, moves', rp);
      var q := a.r[src[rp]];
      live' := live' - {rp};
      allow' := allow' - {rp};
      a.freeset := a.freeset + {q};
      a.code := [Mov(q, rp)] + a.code;
      moves' := [Mov(q, rp)] + moves';
    }
  }

  lemma TempStill(c: Cfg, sem: Sem, v0: View, live0: set<nat>, allow0: set<nat>,
                  v: View, live: set<nat>, allow: set<nat>, src: Src, moves: seq<MIns>, file: set<nat>)
    requires Shuffling(c, sem, v0, live0, allow0, v, live, allow, src, moves) && (file == c.gpr || file == c.fpr)
    requires live * file * v.free == {} && live * file != {}
    ensures (v.free - live) * allow * file == {} ==> Stuck(v0, live0, allow0, src, file)
  {
    TempStays(c, v0, live0, allow0, v, live, allow, src, file);
  }

  // Break a cycle by renaming one target to a temporary register.
  method BreakCycle(a: AsmState, src: Src, live: set<nat>, allow: set<nat>, file: set<nat>,
                    ghost v0: View, ghost live0: set<nat>, ghost allow0: set<nat>, ghost moves: seq<MIns>,
                      ghost rest: seq<MIns>)
    returns (res: Res<()>, ghost moves': seq<MIns>)
    requires Shuffling(a.c, a.sem, v0, live0, allow0, a.V(), live, allow, src, moves) && a.code == moves + rest
    requires (file == a.c.gpr || file == a.c.fpr) && a.freeset * live * file == {}
    modifies a`r, a`freeset, a`modset, a`cost, a`code, a`need
    ensures res.Ok? ==> Shuffling(a.c, a.sem, v0, live0, allow0, a.V(), live, allow, src, moves')
    ensures a.code == moves' + rest
    ensures res.Ok? ==> if live * file != {} then a.freeset * live != {} else a.freeset == old(a.freeset)
    ensures res.Ok? ==> old(a.freeset) - file == a.freeset - file
    ensures res.TraceErr? ==> res.err == NyiCoal && Stuck(v0, live0, allow0, src, file)
  {
    hide Shuffling, Stuck, Temp, All, WfCfg;
    moves' := moves;
    if live * file != {} {
      assert live * file * a.freeset == {};
      TempStill(a.c, a.sem, v0, live0, allow0, a.V(), live, allow, src, moves, file);
      var tmpset := (a.freeset - live) * allow * file;
      if tmpset == {} {
        return TraceErr(NyiCoal), moves';
      }
      var down, up := PickBot(live * file), PickBot(tmpset);
      RenameStep(a.c, a.sem, v0, live0, allow0, a.V(), live, allow, src, moves, down, up, file);
      a.RaRename(down, up);
      moves' := [Mov(down, up)] + moves;
      assert down in a.freeset * live;
    }
    return Ok(()), moves';
  }

  lemma StartShuffle(c: Cfg, sem: Sem, v: View, live: set<nat>, allow: set<nat>, src: Src)
    requires WfCfg(c) && HeadInv(c, v, live, allow, src) && allow !! (All(c) - v.free)
    requires forall rp :: rp in src && rp !in live ==> v.r[src[rp]] == rp
    ensures Shuffling(c, sem, v, live, allow, v, live, allow, src, [])
  {
    forall s | Cycle(v, live, src, c.gpr, s) || Cycle(v, live, src, c.fpr, s)
      ensures Within(s, live)
    {
    }
  }

  lemma EndShuffle(c: Cfg, sem: Sem, v0: View, live0: set<nat>, allow0: set<nat>, v: View, allow: set<nat>, src: Src,
                   moves: seq<MIns>)
    requires Shuffling(c, sem, v0, live0, allow0, v, {}, allow, src, moves)
    ensures v.free == All(c) && OnlyMoves(moves)
    ensures forall rp, m: M :: rp in src ==> src[rp] < |v0.r| && MoveOk(sem, moves, v0.r[src[rp]], rp, m)
    ensures !Stuck(v0, live0, allow0, src, c.gpr) && !Stuck(v0, live0, allow0, src, c.fpr)
  {
    hide AllLive, AllGone, WfCfg, Untouched, Stuck, MoveOk;
    forall q | q in All(c)
      ensures q in v.free
    {
      assert q !in v.free ==> TakenOk(c, v, {}, src, q);
    }
    forall rp, m: M | rp in src
      ensures src[rp] < |v0.r| && MoveOk(sem, moves, v0.r[src[rp]], rp, m)
    {
      assert MoveOk(sem, moves, v0.r[src[rp]], Where(v, {}, src, rp), m);
    }
    NothingStuck(v0, live0, allow0, v, src, c.gpr);
    NothingStuck(v0, live0, allow0, v, src, c.fpr);
  }

  lemma NothingStuck(v0: View, live0: set<nat>, allow0: set<nat>, v: View, src: Src, file: set<nat>)
    requires Untouched(v0, live0, allow0, v, {}, src, file)
    ensures !Stuck(v0, live0, allow0, src, file)
  {
    if !Temp(v0, live0, allow0, file) {
      assert forall s :: Cycle(v0, live0, src, file, s) ==> Within(s, {});
    }
  }

  lemma OtherFile(free: set<nat>, free': set<nat>, live: set<nat>, gpr: set<nat>, fpr: set<nat>)
    requires free * live * fpr == {} && free - gpr == free' - gpr && gpr !! fpr
    ensures free' * live * fpr == {}
  {
    forall q
      ensures q in free' * live * fpr ==> q in free * live * fpr
    {
      assert q in free' - gpr <==> q in free - gpr;
    }
  }

  lemma LiveInFiles(c: Cfg, sem: Sem, v0: View, live0: set<nat>, allow0: set<nat>, v: View, live: set<nat>,
                    allow: set<nat>, src: Src,
                    moves: seq<MIns>)
    requires Shuffling(c, sem, v0, live0, allow0, v, live, allow, src, moves)
    ensures live <= c.gpr + c.fpr && c.gpr !! c.fpr
  {
    forall rp | rp in live ensures rp in All(c) { assert LiveOk(c, v, src, rp); }
  }

  // Shuffle registers to match up target registers with parent registers.
  method AsmHeadShuffle(a: AsmState, src: Src, live0: set<nat>, allow0: set<nat>)
                        returns (res: Res<()>, ghost moves: seq<MIns>)
    requires WfCfg(a.c) && HeadInv(a.c, a.V(), live0, allow0, src) && allow0 !! (All(a.c) - a.freeset)
    requires forall rp :: rp in src && rp !in live0 ==> a.r[src[rp]] == rp
    modifies a`r, a`freeset, a`modset, a`cost, a`code, a`need
    ensures a.code == moves + old(a.code)
    ensures res.Ok? ==> OnlyMoves(moves) && a.freeset == All(a.c)
    ensures res.Ok? ==> forall rp, m: M :: rp in src ==> MoveOk(a.sem, moves, old(a.r)[src[rp]], rp, m)
    ensures res.TraceErr? <==> Stuck(old(a.V()), live0, allow0, src, a.c.gpr)
                               || Stuck(old(a.V()), live0, allow0, src, a.c.fpr)
    ensures res.TraceErr? ==> res.err == NyiCoal
  {
    hide Shuffling, HeadInv, Stuck, WfCfg, MoveOk, OnlyMoves, All;
    ghost var v0, rest := a.V(), a.code;
    StartShuffle(a.c, a.sem, v0, live0, allow0, src);
    var live, allow := live0, allow0;
    moves := [];
    while true
      invariant Shuffling(a.c, a.sem, v0, live0, allow0, a.V(), live, allow, src, moves) && a.code == moves + rest
      decreases live, a.freeset * live == {}
    {
      live, allow, moves := CoalesceFree(a, src, live, allow, v0, live0, allow0, moves, rest);
      if live == {} {
        EndShuffle(a.c, a.sem, v0, live0, allow0, a.V(), allow, src, moves);
        return Ok(()), moves;
      }
      LiveInFiles(a.c, a.sem, v0, live0, allow0, a.V(), live, allow, src, moves);
      ghost var free := a.freeset;
      assert a.freeset * live * a.c.gpr == {} && a.freeset * live * a.c.fpr == {};
      res, moves := BreakCycle(a, src, live, allow, a.c.gpr, v0, live0, allow0, moves, rest);
      if res.TraceErr? { return; }
      OtherFile(free, a.freeset, live, a.c.gpr, a.c.fpr);
      res, moves := BreakCycle(a, src, live, allow, a.c.fpr, v0, live0, allow0, moves, rest);
      if res.TraceErr? { return; }
    }
  }

  // -- The scan and the whole head -------------------------------------------

  // The parent loads x with nk <= x < lim inherit register parent[x].
  ghost predicate ParentOk(c: Cfg, v: View, lim: nat, parent: seq<nat>) {
    && |v.r| == |v.s| == |c.ir| == |parent| && c.nk <= lim <= |c.ir| && |v.cost| == RID_MAX
    && (forall x :: 0 <= x < lim ==> v.s[x] == 0)
    && (forall x :: c.nk <= x < lim && HasReg(v.r[x]) ==> parent[x] in All(c) && SameFile(parent[x], v.r[x]))
    && (forall x, y :: c.nk <= x < lim && c.nk <= y < lim && HasReg(v.r[x]) && HasReg(v.r[y]) && parent[x] == parent[y]
                       ==> x == y)
    && (forall q :: q in All(c) && q !in v.free && q < RID_MAX ==> CostRef(v.cost[q]) >= c.nk)
  }

  function TargetSet(r: seq<nat>, src: Src): set<nat> { set rp | rp in src && src[rp] < |r| :: r[src[rp]] }

  ghost predicate ScannedSrc(r: seq<nat>, from: nat, lim: nat, parent: seq<nat>, src: Src)
    requires lim <= |r| == |parent|
  {
    && (forall rp :: rp in src ==> from <= src[rp] < lim && HasReg(r[src[rp]]) && parent[src[rp]] == rp)
    && (forall x :: from <= x < lim && HasReg(r[x]) ==> parent[x] in src && src[parent[x]] == x)
  }

  // What the scan has recorded for the loads from `from` on.
  ghost predicate Scanned(c: Cfg, v0: View, free: set<nat>, from: nat, lim: nat, parent: seq<nat>, src: Src,
                          live: set<nat>, allow: set<nat>)
    requires |v0.r| == |c.ir| == |parent| && lim <= |c.ir|
  {
    && ScannedSrc(v0.r, from, lim, parent, src)
    && LiveAre(v0.r, lim, src, live)
    && free == v0.free + (src.Keys - live)
    && allow == All(c) - TargetSet(v0.r, src)
  }

  lemma ScanStep(c: Cfg, v0: View, free: set<nat>, x: nat, lim: nat, parent: seq<nat>, src: Src, live: set<nat>,
                 allow: set<nat>)
    requires ParentOk(c, v0, lim, parent) && c.nk <= x < lim
             && Scanned(c, v0, free, x + 1, lim, parent, src, live, allow)
    ensures !HasReg(v0.r[x]) ==> Scanned(c, v0, free, x, lim, parent, src, live, allow)
    ensures HasReg(v0.r[x]) ==>
              var rs, src', allow' := parent[x], src[parent[x] := x], allow - {v0.r[x]};
              if v0.r[x] == rs then Scanned(c, v0, free + {rs}, x, lim, parent, src', live, allow')
              else Scanned(c, v0, free, x, lim, parent, src', live + {rs}, allow')
  {
    if HasReg(v0.r[x]) {
      var rs, src' := parent[x], src[parent[x] := x];
      ScanSrc(c, v0, x, lim, parent, src);
      MoreTargets(v0.r, src, rs, x);
      ScanLive(v0.r, lim, src, live, rs, x);
      hide TargetSet, ParentOk, ScannedSrc, LiveAre;
    } else {
      hide TargetSet, ParentOk;
    }
  }

  // The live sources are those not yet in their registers.
  ghost predicate LiveAre(r: seq<nat>, lim: nat, src: Src, live: set<nat>)
    requires lim <= |r|
  {
    live <= src.Keys && forall rp :: rp in src && src[rp] < lim ==> (rp in live <==> r[src[rp]] != rp)
  }

  lemma ScanLive(r: seq<nat>, lim: nat, src: Src, live: set<nat>, rs: nat, x: nat)
    requires x < lim <= |r| && rs !in src && LiveAre(r, lim, src, live)
    ensures src[rs := x].Keys == src.Keys + {rs}
    ensures LiveAre(r, lim, src[rs := x], if r[x] == rs then live else live + {rs})
  {
    var src' := src[rs := x];
    assert src'.Keys == src.Keys + {rs};
    forall rp | rp in src' ensures rp != rs ==> rp in src && src'[rp] == src[rp] {}
  }

  lemma ScanSrc(c: Cfg, v0: View, x: nat, lim: nat, parent: seq<nat>, src: Src)
    requires ParentOk(c, v0, lim, parent) && c.nk <= x < lim && HasReg(v0.r[x])
    requires ScannedSrc(v0.r, x + 1, lim, parent, src)
    ensures parent[x] !in src && ScannedSrc(v0.r, x, lim, parent, src[parent[x] := x])
  {
    forall rp | rp in src ensures rp != parent[x] { assert parent[src[rp]] == rp; }
  }

  lemma MoreTargets(r: seq<nat>, src: Src, rs: nat, x: nat)
    requires rs !in src && x < |r|
    ensures TargetSet(r, src[rs := x]) == TargetSet(r, src) + {r[x]}
  {
    var src' := src[rs := x];
    assert rs in src' && src'[rs] == x;
    forall q | q in TargetSet(r, src)
      ensures q in TargetSet(r, src')
    {
      var rp :| rp in src && src[rp] < |r| && r[src[rp]] == q;
      assert rp in src' && src'[rp] == src[rp];
    }
  }

  lemma ScanDone(c: Cfg, sem: Sem, v0: View, free: set<nat>, lim: nat, code: seq<MIns>, need: Need,
                 out: seq<(nat, int)>,
                 parent: seq<nat>, src: Src, live: set<nat>, allow: set<nat>)
    requires Inv(c, sem, v0, lim, code, need, out, -1) && ParentOk(c, v0, lim, parent)
    requires Scanned(c, v0, free, c.nk, lim, parent, src, live, allow)
    ensures HeadInv(c, v0.(free := free), live, allow, src) && allow !! (All(c) - free)
    ensures forall rp :: rp in src && rp !in live ==> v0.r[src[rp]] == rp
  {
    var v := v0.(free := free);
    forall rp | rp in src
      ensures v0.r[src[rp]] !in v0.free && v0.r[src[rp]] in All(c) && v0.r[src[rp]] < RID_MAX && rp in All(c)
      ensures CostRef(v0.cost[v0.r[src[rp]]]) == src[rp] && v0.r[src[rp]] !in allow && SameFile(rp, v0.r[src[rp]])
    {
      Held(c, sem, v0, lim, code, need, out, -1, src[rp]);
      assert v0.r[src[rp]] in TargetSet(v0.r, src);
    }
    forall rp | rp in live
      ensures LiveOk(c, v, src, rp)
    {
      ScanLiveOk(c, sem, v0, free, lim, code, need, out, parent, src, live, allow, rp);
    }
    forall q | q in All(c) && q !in free
      ensures TakenOk(c, v, live, src, q) && q !in allow
    {
      ScanTaken(c, sem, v0, free, lim, code, need, out, parent, src, live, allow, q);
    }
    hide Inv, ParentOk, ScannedSrc, LiveOk, TakenOk;
  }

  lemma ScanLiveOk(c: Cfg, sem: Sem, v0: View, free: set<nat>, lim: nat, code: seq<MIns>, need: Need,
                   out: seq<(nat, int)>, parent: seq<nat>, src: Src, live: set<nat>, allow: set<nat>, rp: nat)
    requires Inv(c, sem, v0, lim, code, need, out, -1) && ParentOk(c, v0, lim, parent)
    requires Scanned(c, v0, free, c.nk, lim, parent, src, live, allow) && rp in live
    ensures LiveOk(c, v0.(free := free), src, rp)
  {
    Held(c, sem, v0, lim, code, need, out, -1, src[rp]);
    forall q | q in src && q !in live
      ensures q != v0.r[src[rp]]
    {
      Held(c, sem, v0, lim, code, need, out, -1, src[q]);
      assert v0.r[src[q]] == q && CostRef(v0.cost[q]) == src[q] != src[rp];
    }
    assert rp < RID_MAX by {
      hide Inv, Scanned;
      RegBelow(c, sem, v0, lim, code, need, out, rp);
    }
  }

  lemma ScanTaken(c: Cfg, sem: Sem, v0: View, free: set<nat>, lim: nat, code: seq<MIns>, need: Need,
                  out: seq<(nat, int)>,
                  parent: seq<nat>, src: Src, live: set<nat>, allow: set<nat>, q: nat)
    requires Inv(c, sem, v0, lim, code, need, out, -1) && ParentOk(c, v0, lim, parent)
    requires Scanned(c, v0, free, c.nk, lim, parent, src, live, allow) && q in All(c) && q !in free
    ensures TakenOk(c, v0.(free := free), live, src, q) && q !in allow
  {
    Holder(c, sem, v0, lim, code, need, out, -1, q);
    var x := CostRef(v0.cost[q]);
    var rp := parent[x];
    assert rp in src && src[rp] == x;
    assert q in TargetSet(v0.r, src);
    assert rp in live && Feeds(v0.(free := free), src, rp, q);
  }

  lemma RegBelow(c: Cfg, sem: Sem, v: View, lim: nat, code: seq<MIns>, need: Need, out: seq<(nat, int)>, q: nat)
    requires Inv(c, sem, v, lim, code, need, out, -1) && q in All(c)
    ensures q < RID_MAX
  {
  }

  // Scan all parent loads and collect register dependencies.
  method AsmHeadScan(a: AsmState, parent: seq<nat>, top: nat) returns (src: Src, live: set<nat>, allow: set<nat>)
    requires |a.r| == |a.c.ir| == |parent| && top == a.lim <= |a.c.ir|
    requires a.pend == -1 && a.Valid() && ParentOk(a.c, a.V(), a.lim, parent)
    modifies a`freeset
    ensures Scanned(a.c, old(a.V()), a.freeset, a.c.nk, a.lim, parent, src, live, allow)
    ensures HeadInv(a.c, a.V(), live, allow, src) && allow !! (All(a.c) - a.freeset)
    ensures forall rp :: rp in src && rp !in live ==> a.r[src[rp]] == rp
  {
    hide Inv, Scanned;
    ghost var v0 := a.V();
    src, live, allow := map[], {}, a.c.gpr + a.c.fpr;
    var i := top;
    assert Scanned(a.c, v0, a.freeset, i, a.lim, parent, src, live, allow) by { ScanStart(a.c, v0, a.lim, parent); }
    while i > a.c.nk
      invariant a.c.nk <= i <= a.lim
      invariant Scanned(a.c, v0, a.freeset, i, a.lim, parent, src, live, allow)
    {
      i := i - 1;
      ScanStep(a.c, v0, a.freeset, i, a.lim, parent, src, live, allow);
      var rs := parent[i];
      if HasReg(a.r[i]) {
        allow := allow - {a.r[i]};
        src := src[rs := i];
        if a.r[i] == rs {
          // Coalesce matching registers right now.
          a.freeset := a.freeset + {rs};
        } else {
          live := live + {rs};
        }
      }
    }
    ScanDone(a.c, a.sem, v0, a.freeset, a.lim, a.code, a.need, a.out, parent, src, live, allow);
  }

  lemma ScanStart(c: Cfg, v: View, lim: nat, parent: seq<nat>)
    requires |v.r| == |c.ir| == |parent| && lim <= |c.ir|
    ensures Scanned(c, v, v.free, lim, lim, parent, map[], {}, c.gpr + c.fpr)
  {
  }

  // -- What the side trace computes ------------------------------------------

  lemma {:induction false} RunMoves(sem: Sem, moves: seq<MIns>, rest: seq<MIns>, m: M)
    requires OnlyMoves(moves)
    ensures Run(sem, moves + rest, m) == Run(sem, rest, Run(sem, moves, m))
    ensures Run(sem, moves, m).log == m.log && Run(sem, moves, m).mem == m.mem
    decreases |moves|
  {
    if moves == [] {
      assert moves + rest == rest;
    } else {
      assert (moves + rest)[1..] == moves[1..] + rest;
      RunMoves(sem, moves[1..], rest, Step(sem, moves[0], m));
    }
  }

  // The registers of the parent hold the values the side trace inherits.
  ghost predicate Inherits(c: Cfg, sem: Sem, r: seq<nat>, lim: nat, parent: seq<nat>, m: M) {
    |r| == |parent| && forall x :: c.nk <= x < lim && x < |r| && HasReg(r[x]) ==> Reg(m, parent[x]) == Val(sem, c.ir, x)
  }

  lemma SideRuns(c: Cfg, sem: Sem, v0: View, lim: nat, code: seq<MIns>, need: Need, out: seq<(nat, int)>,
                 parent: seq<nat>, src: Src, live: set<nat>, allow: set<nat>, free: set<nat>, moves: seq<MIns>, m: M)
    requires Inv(c, sem, v0, lim, code, need, out, -1) && ParentOk(c, v0, lim, parent)
    requires Scanned(c, v0, free, c.nk, lim, parent, src, live, allow) && OnlyMoves(moves)
    requires forall rp, m: M :: rp in src ==> src[rp] < |v0.r| && MoveOk(sem, moves, v0.r[src[rp]], rp, m)
    requires Inherits(c, sem, v0.r, lim, parent, m)
    ensures Run(sem, moves + code, m).log == m.log + out
  {
    RunMoves(sem, moves, code, m);
    var m' := Run(sem, moves, m);
    forall q | q in need
      ensures Reg(m', q) == Val(sem, c.ir, need[q])
    {
      assert NeedOk(c, v0, lim, need, -1, q);
      Holder(c, sem, v0, lim, code, need, out, -1, q);
      var x := need[q];
      assert c.nk <= x < lim && v0.r[x] == q;
      assert MoveOk(sem, moves, v0.r[src[parent[x]]], parent[x], m);
    }
    assert Holds(sem, c.ir, m', need);
    assert SlotsOk(sem, c.ir, v0.s, lim, m');
  }

  // -- When a head fails -----------------------------------------------------

  // The parent leaves x in another register than the trace wants it in.
  predicate MustMove(c: Cfg, r: seq<nat>, lim: nat, parent: seq<nat>, x: nat) {
    c.nk <= x < lim && x < |r| && x < |parent| && HasReg(r[x]) && parent[x] != r[x]
  }

  // Each of these values lies, in the parent, where another one of them must go.
  ghost predicate Ring(c: Cfg, r: seq<nat>, lim: nat, parent: seq<nat>, file: set<nat>, xs: set<nat>) {
    xs != {} && forall x :: x in xs ==> MustMove(c, r, lim, parent, x) && parent[x] in file && Awaited(r, xs, parent[x])
  }

  // One of these values must go to q.
  ghost predicate Awaited(r: seq<nat>, xs: set<nat>, q: nat) { exists y :: y in xs && y < |r| && r[y] == q }

  // A register that holds nothing inherited, neither before nor after.
  predicate Spare(c: Cfg, r: seq<nat>, lim: nat, parent: seq<nat>, q: nat) {
    forall x :: c.nk <= x < lim && x < |r| && x < |parent| && HasReg(r[x]) ==> r[x] != q && parent[x] != q
  }

  // A ring of moves, and no register of the file to break it with.
  ghost predicate Tangled(c: Cfg, r: seq<nat>, lim: nat, parent: seq<nat>, file: set<nat>) {
    (exists xs :: Ring(c, r, lim, parent, file, xs)) && forall q :: q in file ==> !Spare(c, r, lim, parent, q)
  }

  lemma TangledIs(c: Cfg, sem: Sem, v0: View, free: set<nat>, lim: nat, code: seq<MIns>, need: Need,
                  out: seq<(nat, int)>, parent: seq<nat>, src: Src, live: set<nat>, allow: set<nat>, file: set<nat>)
    requires Inv(c, sem, v0, lim, code, need, out, -1) && ParentOk(c, v0, lim, parent)
    requires Scanned(c, v0, free, c.nk, lim, parent, src, live, allow) && file <= All(c)
    ensures Stuck(v0.(free := free), live, allow, src, file) <==> Tangled(c, v0.r, lim, parent, file)
  {
    TempIs(c, sem, v0, free, lim, code, need, out, parent, src, live, allow, file);
    RingsAreCycles(c, v0, free, lim, parent, src, live, allow, file);
    hide Inv, ParentOk, Scanned, Cycle, Ring, Temp, Spare;
  }

  lemma RingsAreCycles(c: Cfg, v0: View, free: set<nat>, lim: nat, parent: seq<nat>, src: Src, live: set<nat>,
                       allow: set<nat>, file: set<nat>)
    requires ParentOk(c, v0, lim, parent) && Scanned(c, v0, free, c.nk, lim, parent, src, live, allow)
    ensures (exists s :: Cycle(v0.(free := free), live, src, file, s)) <==> exists xs ::
            Ring(c, v0.r, lim, parent, file, xs)
  {
    hide *;
    if s :| Cycle(v0.(free := free), live, src, file, s) {
      CycleIsRing(c, v0, free, lim, parent, src, live, allow, file, s);
    }
    if xs :| Ring(c, v0.r, lim, parent, file, xs) {
      RingIsCycle(c, v0, free, lim, parent, src, live, allow, file, xs);
    }
  }

  lemma TempIs(c: Cfg, sem: Sem, v0: View, free: set<nat>, lim: nat, code: seq<MIns>, need: Need,
               out: seq<(nat, int)>, parent: seq<nat>, src: Src, live: set<nat>, allow: set<nat>, file: set<nat>)
    requires Inv(c, sem, v0, lim, code, need, out, -1) && ParentOk(c, v0, lim, parent)
    requires Scanned(c, v0, free, c.nk, lim, parent, src, live, allow) && file <= All(c)
    ensures Temp(v0.(free := free), live, allow, file) <==> exists q :: q in file && Spare(c, v0.r, lim, parent, q)
  {
    hide *;
    forall q | q in file
      ensures q in (free - live) * allow <==> Spare(c, v0.r, lim, parent, q)
    {
      SpareIs(c, sem, v0, free, lim, code, need, out, parent, src, live, allow, q);
    }
    TempSome(v0.(free := free), live, allow, file);
  }

  lemma TempSome(v: View, live: set<nat>, allow: set<nat>, file: set<nat>)
    ensures Temp(v, live, allow, file) <==> exists q :: q in file && q in (v.free - live) * allow
  {
    if q :| q in file && q in (v.free - live) * allow { assert q in (v.free - live) * allow * file; }
    if q :| q in (v.free - live) * allow * file { assert q in file && q in (v.free - live) * allow; }
  }

  lemma SpareIs(c: Cfg, sem: Sem, v0: View, free: set<nat>, lim: nat, code: seq<MIns>, need: Need,
                out: seq<(nat, int)>, parent: seq<nat>, src: Src, live: set<nat>, allow: set<nat>, q: nat)
    requires Inv(c, sem, v0, lim, code, need, out, -1) && ParentOk(c, v0, lim, parent)
    requires Scanned(c, v0, free, c.nk, lim, parent, src, live, allow) && q in All(c)
    ensures q in (free - live) * allow <==> Spare(c, v0.r, lim, parent, q)
  {
    if Spare(c, v0.r, lim, parent, q) {
      if q !in v0.free {
        Holder(c, sem, v0, lim, code, need, out, -1, q);
        assert false;
      }
      assert q !in live && q !in TargetSet(v0.r, src);
    } else {
      var x :| c.nk <= x < lim && HasReg(v0.r[x]) && (v0.r[x] == q || parent[x] == q);
      assert parent[x] in src && src[parent[x]] == x;
      assert v0.r[x] in TargetSet(v0.r, src);
    }
    hide Inv, ParentOk;
  }

  // The live parent registers are those of the values that must move.
  lemma LiveMoves(c: Cfg, v0: View, free: set<nat>, lim: nat, parent: seq<nat>, src: Src, live: set<nat>,
                  allow: set<nat>)
    requires ParentOk(c, v0, lim, parent) && Scanned(c, v0, free, c.nk, lim, parent, src, live, allow)
    ensures |v0.r| == |parent|
    ensures forall rp :: rp in live ==> rp in src && MustMove(c, v0.r, lim, parent, src[rp]) && parent[src[rp]] == rp
    ensures forall x: nat :: MustMove(c, v0.r, lim, parent, x) ==>
                          parent[x] in live && parent[x] in src && src[parent[x]] == x
  {
  }

  lemma CycleIsRing(c: Cfg, v0: View, free: set<nat>, lim: nat, parent: seq<nat>, src: Src, live: set<nat>,
                    allow: set<nat>, file: set<nat>, s: set<nat>)
    requires ParentOk(c, v0, lim, parent) && Scanned(c, v0, free, c.nk, lim, parent, src, live, allow)
    requires Cycle(v0.(free := free), live, src, file, s)
    ensures exists xs :: Ring(c, v0.r, lim, parent, file, xs)
  {
    hide *;
    var xs := RefsOf(src, s);
    forall x | x in xs
      ensures MustMove(c, v0.r, lim, parent, x) && x < |parent| && parent[x] in file && Awaited(v0.r, xs, parent[x])
    {
      CycleAwaited(c, v0, free, lim, parent, src, live, allow, file, s, x);
    }
    CycleSome(c, v0, free, lim, parent, src, live, allow, file, s);
    RingIs(c, v0.r, lim, parent, file, xs);
  }

  lemma CycleSome(c: Cfg, v0: View, free: set<nat>, lim: nat, parent: seq<nat>, src: Src, live: set<nat>,
                  allow: set<nat>, file: set<nat>, s: set<nat>)
    requires ParentOk(c, v0, lim, parent) && Scanned(c, v0, free, c.nk, lim, parent, src, live, allow)
    requires Cycle(v0.(free := free), live, src, file, s)
    ensures RefsOf(src, s) != {}
  {
    var rp :| rp in s;
    assert rp in src && src[rp] in RefsOf(src, s);
  }

  lemma CycleAwaited(c: Cfg, v0: View, free: set<nat>, lim: nat, parent: seq<nat>, src: Src, live: set<nat>,
                     allow: set<nat>, file: set<nat>, s: set<nat>, x: nat)
    requires ParentOk(c, v0, lim, parent) && Scanned(c, v0, free, c.nk, lim, parent, src, live, allow)
    requires Cycle(v0.(free := free), live, src, file, s) && x in RefsOf(src, s)
    ensures MustMove(c, v0.r, lim, parent, x) && x < |parent| && parent[x] in file
            && Awaited(v0.r, RefsOf(src, s), parent[x])
  {
    var rp := RefOf(src, s, x);
    CycleParts(v0.(free := free), live, src, file, s);
    FedAwaited(v0.(free := free), src, s, rp);
    LiveMoves(c, v0, free, lim, parent, src, live, allow);
    MoveBelow(c, v0.r, lim, parent, x);
    hide *;
  }

  // The references that go to the registers s, and the registers that the references xs come from.
  function RefsOf(src: Src, s: set<nat>): set<nat> { set rp | rp in s && rp in src :: src[rp] }

  function ParentsOf(parent: seq<nat>, xs: set<nat>): set<nat> { set x | x in xs && x < |parent| :: parent[x] }

  lemma RefOf(src: Src, s: set<nat>, x: nat) returns (rp: nat)
    requires x in RefsOf(src, s)
    ensures rp in s && rp in src && src[rp] == x
  {
    rp :| rp in s && rp in src && src[rp] == x;
  }

  lemma ParentOf(parent: seq<nat>, xs: set<nat>, rp: nat) returns (x: nat)
    requires rp in ParentsOf(parent, xs)
    ensures x in xs && x < |parent| && parent[x] == rp
  {
    x :| x in xs && x < |parent| && parent[x] == rp;
  }

  lemma MoveBelow(c: Cfg, r: seq<nat>, lim: nat, parent: seq<nat>, x: nat)
    requires MustMove(c, r, lim, parent, x)
    ensures x < |r| && x < |parent|
  {
  }

  lemma FedAwaited(v: View, src: Src, s: set<nat>, rp: nat)
    requires Fed(v, src, s, rp)
    ensures Awaited(v.r, RefsOf(src, s), rp)
  {
    var p :| p in s && Feeds(v, src, p, rp);
    assert src[p] in RefsOf(src, s) && v.r[src[p]] == rp;
  }

  lemma RingIs(c: Cfg, r: seq<nat>, lim: nat, parent: seq<nat>, file: set<nat>, xs: set<nat>)
    requires xs != {} && forall x :: x in xs ==>
               MustMove(c, r, lim, parent, x) && x < |parent| && parent[x] in file && Awaited(r, xs, parent[x])
    ensures Ring(c, r, lim, parent, file, xs)
  {
  }

  lemma RingIsCycle(c: Cfg, v0: View, free: set<nat>, lim: nat, parent: seq<nat>, src: Src, live: set<nat>,
                    allow: set<nat>, file: set<nat>, xs: set<nat>)
    requires ParentOk(c, v0, lim, parent) && Scanned(c, v0, free, c.nk, lim, parent, src, live, allow)
    requires Ring(c, v0.r, lim, parent, file, xs)
    ensures exists s :: Cycle(v0.(free := free), live, src, file, s)
  {
    hide *;
    var v, s := v0.(free := free), ParentsOf(parent, xs);
    forall rp | rp in s
      ensures rp in live * file && Fed(v, src, s, rp)
    {
      RingFed(c, v0, free, lim, parent, src, live, allow, file, xs, rp);
    }
    RingSome(c, v0.r, lim, parent, file, xs);
    CycleIs(v, live, src, file, s);
  }

  lemma RingFed(c: Cfg, v0: View, free: set<nat>, lim: nat, parent: seq<nat>, src: Src, live: set<nat>,
                allow: set<nat>, file: set<nat>, xs: set<nat>, rp: nat)
    requires ParentOk(c, v0, lim, parent) && Scanned(c, v0, free, c.nk, lim, parent, src, live, allow)
    requires Ring(c, v0.r, lim, parent, file, xs) && rp in ParentsOf(parent, xs)
    ensures rp in live * file && Fed(v0.(free := free), src, ParentsOf(parent, xs), rp)
  {
    var x := ParentOf(parent, xs, rp);
    RingParts(c, v0.r, lim, parent, file, xs);
    LiveMoves(c, v0, free, lim, parent, src, live, allow);
    AwaitedFed(v0.(free := free), parent, src, xs, rp);
    hide *;
  }

  lemma RingSome(c: Cfg, r: seq<nat>, lim: nat, parent: seq<nat>, file: set<nat>, xs: set<nat>)
    requires Ring(c, r, lim, parent, file, xs)
    ensures ParentsOf(parent, xs) != {}
  {
    var x :| x in xs;
    assert MustMove(c, r, lim, parent, x) && parent[x] in ParentsOf(parent, xs);
  }

  lemma CycleParts(v: View, live: set<nat>, src: Src, file: set<nat>, s: set<nat>)
    requires Cycle(v, live, src, file, s)
    ensures s != {} && s <= live && s <= file && forall rp :: rp in s ==> Fed(v, src, s, rp)
  {
  }

  lemma CycleIs(v: View, live: set<nat>, src: Src, file: set<nat>, s: set<nat>)
    requires s != {} && forall rp :: rp in s ==> rp in live * file && Fed(v, src, s, rp)
    ensures Cycle(v, live, src, file, s)
  {
  }

  lemma RingParts(c: Cfg, r: seq<nat>, lim: nat, parent: seq<nat>, file: set<nat>, xs: set<nat>)
    requires Ring(c, r, lim, parent, file, xs)
    ensures xs != {} && forall x :: x in xs ==>
              MustMove(c, r, lim, parent, x) && x < |parent| && parent[x] in file && Awaited(r, xs, parent[x])
  {
  }

  lemma AwaitedFed(v: View, parent: seq<nat>, src: Src, xs: set<nat>, rp: nat)
    requires Awaited(v.r, xs, rp) && |v.r| == |parent|
    requires forall x :: x in xs && x < |parent| ==> parent[x] in src && src[parent[x]] == x
    ensures Fed(v, src, ParentsOf(parent, xs), rp)
  {
    var y :| y in xs && y < |v.r| && v.r[y] == rp;
    assert parent[y] in ParentsOf(parent, xs) && Feeds(v, src, parent[y], rp);
  }

  method AsmHeadSide(a: AsmState, parent: seq<nat>, top: nat) returns (res: Res<()>, ghost moves: seq<MIns>)
    requires |a.r| == |a.c.ir| == |parent| && top == a.lim <= |a.c.ir|
    requires a.pend == -1 && a.Valid() && ParentOk(a.c, a.V(), a.lim, parent)
    modifies a`r, a`freeset, a`modset, a`cost, a`code, a`need
    ensures a.code == moves + old(a.code)
    ensures res.Ok? ==> a.freeset == All(a.c)
    ensures res.Ok? ==> forall m: M :: Inherits(a.c, a.sem, old(a.r), a.lim, parent, m)
                                       ==> Run(a.sem, a.code, m).log == m.log + a.out
    ensures res.TraceErr? <==> Tangled(a.c, old(a.r), a.lim, parent, a.c.gpr)
                               || Tangled(a.c, old(a.r), a.lim, parent, a.c.fpr)
    ensures res.TraceErr? ==> res.err == NyiCoal
  {
    hide Inv, Scanned, HeadInv, ParentOk, MoveOk, OnlyMoves, Inherits, Run, Stuck, Tangled;
    ghost var v0, code, need := a.V(), a.code, a.need;
    InvCfg(a.c, a.sem, v0, a.lim, code, need, a.out, a.pend);
    var src, live, allow := AsmHeadScan(a, parent, top);
    ghost var v1 := a.V();
    TargetsBelow(a.c, v1, live, allow, src);
    TangledIs(a.c, a.sem, v0, a.freeset, a.lim, code, need, a.out, parent, src, live, allow, a.c.gpr);
    TangledIs(a.c, a.sem, v0, a.freeset, a.lim, code, need, a.out, parent, src, live, allow, a.c.fpr);
    res, moves := AsmHeadShuffle(a, src, live, allow);
    if res.Ok? {
      forall m: M | Inherits(a.c, a.sem, v0.r, a.lim, parent, m)
        ensures Run(a.sem, a.code, m).log == m.log + a.out
      {
        SideRuns(a.c, a.sem, v0, a.lim, code, need, a.out, parent, src, live, allow, v1.free, moves, m);
      }
    }
  }

  lemma TargetsBelow(c: Cfg, v: View, live: set<nat>, allow: set<nat>, src: Src)
    requires HeadInv(c, v, live, allow, src)
    ensures forall rp :: rp in src ==> src[rp] < |v.r|
  {
  }
}
