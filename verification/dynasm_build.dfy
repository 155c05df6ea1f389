// Code as a program gets it that puts, checks, links and encodes, the way
// build_code of src/host/buildvm.c does.
module DynasmBuild {
  import opened DynasmActions
  import opened DynasmStore
  import opened DynasmView
  import opened DynasmLayout
  import opened DynasmPass1
  import opened DynasmLink
  import opened DynasmEncode
  import opened DynasmRead

  // -- Which definition a reference means ------------------------------------

  predicate IsDef(e: Event, l: Lab) { e.Def? && e.lab == l }

  predicate NoneBetween(ev: seq<Event>, l: Lab, i: int, j: int) {
    forall m :: 0 <= m < |ev| && i <= m < j ==> !IsDef(ev[m], l)
  }

  // Reference i means definition j: the last one before it, or the first one
  // after it if it asks for that or if there is none before.
  predicate Means(ev: seq<Event>, i: nat, j: nat)
    requires i < |ev| && IsReference(ev[i])
  {
    var l := ev[i].lab;
    && j < |ev| && IsDef(ev[j], l)
    && if j < i then ev[i].Ref? && NoneBetween(ev, l, j + 1, i)
       else NoneBetween(ev, l, i + 1, j) && (ev[i].Ref? ==> NoneBetween(ev, l, 0, i))
  }

  ghost predicate HasMeaning(ev: seq<Event>, i: nat)
    requires i < |ev| && IsReference(ev[i])
  {
    exists j: nat :: Means(ev, i, j)
  }

  lemma {:induction false} NextDefAt(ev: seq<Event>, l: Lab, i: nat) returns (j: nat)
    requires WfEvents(ev)
    ensures NextDef(ev, l, i) == 0 ==> NoneBetween(ev, l, i, |ev|)
    ensures NextDef(ev, l, i) != 0 ==> i <= j < |ev| && IsDef(ev[j], l) && NoneBetween(ev, l, i, j)
                                       && ev[j].pos == NextDef(ev, l, i)
    decreases |ev| - i
  {
    j := i;
    if i < |ev| && !IsDef(ev[i], l) { j := NextDefAt(ev, l, i + 1); }
  }

  lemma {:induction false} PrevDefAt(ev: seq<Event>, l: Lab, i: nat) returns (j: nat)
    requires WfEvents(ev) && i <= |ev|
    ensures PrevDef(ev, l, i) == 0 ==> NoneBetween(ev, l, 0, i)
    ensures PrevDef(ev, l, i) != 0 ==> j < i && IsDef(ev[j], l) && NoneBetween(ev, l, j + 1, i)
                                       && ev[j].pos == PrevDef(ev, l, i)
  {
    j := 0;
    if i > 0 {
      if IsDef(ev[i - 1], l) { j := i - 1; } else { j := PrevDefAt(ev, l, i - 1); }
    }
  }

  // The targets that label resolution works with are these definitions.
  lemma TargetMeans(ev: seq<Event>, i: nat) returns (j: nat)
    requires WfEvents(ev) && i < |ev| && IsReference(ev[i])
    ensures Target(ev, i) == 0 <==> !HasMeaning(ev, i)
    ensures Target(ev, i) != 0 ==> Means(ev, i, j) && ev[j].pos == Target(ev, i)
  {
    var l := ev[i].lab;
    var b := PrevDefAt(ev, l, i);
    var a := NextDefAt(ev, l, i + 1);
    j := if ev[i].Ref? && PrevDef(ev, l, i) != 0 then b else a;
    assert Target(ev, i) != 0 ==> Means(ev, i, j);
    if Target(ev, i) == 0 {
      forall m: nat ensures !Means(ev, i, m) { if m < |ev| && IsDef(ev[m], l) { assert m < i || m >= i + 1; } }
    }
  }

  // There is never more than one.
  lemma MeansOne(ev: seq<Event>, i: nat, j: nat, k: nat)
    requires i < |ev| && IsReference(ev[i]) && Means(ev, i, j) && Means(ev, i, k)
    ensures j == k
  {
  }

  // -- From source to code ---------------------------------------------------

  // The branch stored as item k of section s leads to where the definition that
  // its reference means was encoded.
  ghost predicate ReachesMeaning(v: View, fin: Offsets, code: seq<Byte>, s: nat, k: nat, i: nat)
    requires Shaped(v, fin) && s < |v.items| && k < |v.items[s]| && i < |v.events| && IsReference(v.events[i])
  {
    exists j: nat, s2: nat, k2: nat ::
      && Means(v.events, i, j) && s2 < |v.items| && k2 < |v.items[s2]| && EventOf(v.items[s2][k2]) == v.events[j]
      && Leads(code, fin[s][k], fin[s][k + 1], fin[s2][k2] - fin[s][k + 1])
  }

  // Item k of section s is a branch, and i is its reference.
  predicate BranchOf(v: View, s: nat, k: nat, i: nat) {
    s < |v.items| && k < |v.items[s]| && IsRel(v.items[s][k].act) && i < |v.events|
      && v.events[i] == EventOf(v.items[s][k])
  }

  ghost predicate AllReach(v: View, fin: Offsets, code: seq<Byte>)
    requires Shaped(v, fin)
  {
    forall s: nat, k: nat, i: nat {:trigger BranchOf(v, s, k, i)} ::
      BranchOf(v, s, k, i) && IsReference(v.events[i]) && HasMeaning(v.events, i) ==>
        ReachesMeaning(v, fin, code, s, k, i)
  }

  lemma BranchMeaning(v: View, fin: Offsets, cells: map<int, int>, codesize: int, gl: seq<int>, base: int,
                      code: seq<Byte>, s: nat, k: nat, i: nat)
    requires LinkReady(v) && Geometry(v) && Linked(v, fin, cells, codesize) && codesize < 0x80000000
    requires AllEmitted(v, fin, cells, gl, base, code)
    requires BranchOf(v, s, k, i) && IsReference(v.events[i]) && HasMeaning(v.events, i)
    ensures ReachesMeaning(v, fin, code, s, k, i)
  {
    BranchIs(v, s, k, i);
    LinkedShape(v, fin, cells, codesize);
    hide *;
    ReadyParts(v);
    EventsWf(v);
    var j := TargetMeans(v.events, i);
    MeansIs(v.events, i, j);
    var s2, k2 := RefTarget(v, fin, cells, codesize, s, k, i, j);
    BranchReaches(v, fin, cells, codesize, gl, base, code, s, k, s2, k2);
    Reaching(v, fin, code, s, k, i, j, s2, k2);
  }

  lemma LinkedShape(v: View, fin: Offsets, cells: map<int, int>, codesize: int)
    requires Linked(v, fin, cells, codesize)
    ensures Shaped(v, fin) && |v.items| == |v.ends| == |fin|
  {
  }

  lemma MeansIs(ev: seq<Event>, i: nat, j: nat)
    requires i < |ev| && IsReference(ev[i]) && Means(ev, i, j)
    ensures j < |ev| && ev[j].Def?
  {
  }

  lemma EventsWf(v: View)
    requires LinkReady(v)
    ensures WfEvents(v.events)
  {
  }

  lemma BranchIs(v: View, s: nat, k: nat, i: nat)
    requires BranchOf(v, s, k, i)
    ensures s < |v.items| && k < |v.items[s]| && IsRel(v.items[s][k].act) && IsRef(v.items[s][k].act) && i < |v.events|
    ensures v.events[i] == EventOf(v.items[s][k]) && v.events[i].pos == v.items[s][k].pos
  {
  }

  // The cell of a branch holds the position of the label it means.
  lemma RefTarget(v: View, fin: Offsets, cells: map<int, int>, codesize: int, s: nat, k: nat, i: nat, j: nat)
                  returns (s2: nat, k2: nat)
    requires LinkReady(v) && Linked(v, fin, cells, codesize)
    requires s < |v.items| && k < |v.items[s]| && IsRef(v.items[s][k].act)
    requires i < |v.events| && IsReference(v.events[i]) && v.events[i].pos == v.items[s][k].pos
    requires Target(v.events, i) != 0 && j < |v.events| && v.events[j].Def? && v.events[j].pos == Target(v.events, i)
    ensures v.items[s][k].pos in cells && IsTarget(v, cells[v.items[s][k].pos], s2, k2)
            && EventOf(v.items[s2][k2]) == v.events[j]
    ensures s2 < |v.items| && k2 < |v.items[s2]|
  {
    hide *;
    ReadyParts(v);
    BoundHere(v, i);
    s2, k2 := LabelOf(v, j);
    LabelIs(v, v.events[j].pos, s2, k2);
    RefKept(v, fin, cells, codesize, s, k);
  }

  lemma LabelIs(v: View, t: int, s2: nat, k2: nat)
    requires IsTarget(v, t, s2, k2)
    ensures s2 < |v.items| && k2 < |v.items[s2]|
  {
  }

  lemma BoundHere(v: View, i: nat)
    requires LinkReady(v) && i < |v.events| && IsReference(v.events[i]) && Target(v.events, i) != 0
    ensures v.events[i].pos in v.cells && v.cells[v.events[i].pos] == Target(v.events, i)
  {
    assert BoundAt(v.events, v.cells, i);
    hide LayoutInv, HistoryInv, Target;
  }

  lemma RefKept(v: View, fin: Offsets, cells: map<int, int>, codesize: int, s: nat, k: nat)
    requires Linked(v, fin, cells, codesize) && s < |v.items| && k < |v.items[s]| && IsRef(v.items[s][k].act)
    ensures v.items[s][k].pos in cells && v.items[s][k].pos in v.cells
            && cells[v.items[s][k].pos] == v.cells[v.items[s][k].pos]
  {
    assert Placed(v, fin, cells, s, k);
    hide MayShrink, Est, Distance, InReach, FinalSize, Chained;
  }

  lemma Reaching(v: View, fin: Offsets, code: seq<Byte>, s: nat, k: nat, i: nat, j: nat, s2: nat, k2: nat)
    requires Shaped(v, fin) && s < |v.items| && k < |v.items[s]| && i < |v.events| && IsReference(v.events[i])
             && Means(v.events, i, j)
    requires s2 < |v.items| && k2 < |v.items[s2]| && EventOf(v.items[s2][k2]) == v.events[j]
    requires Leads(code, fin[s][k], fin[s][k + 1], fin[s2][k2] - fin[s][k + 1])
    ensures ReachesMeaning(v, fin, code, s, k, i)
  {
  }

  lemma AllBranches(v: View, fin: Offsets, cells: map<int, int>, codesize: int, gl: seq<int>, base: int,
                    code: seq<Byte>)
    requires LinkReady(v) && Geometry(v) && Linked(v, fin, cells, codesize) && codesize < 0x80000000
    requires AllEmitted(v, fin, cells, gl, base, code)
    ensures AllReach(v, fin, code)
  {
    LinkedShape(v, fin, cells, codesize);
    hide LinkReady, Geometry, Linked, AllEmitted, ReachesMeaning, HasMeaning, Shaped;
    forall s: nat, k: nat, i: nat | BranchOf(v, s, k, i) && IsReference(v.events[i]) && HasMeaning(v.events, i)
      ensures ReachesMeaning(v, fin, code, s, k, i)
    {
      BranchMeaning(v, fin, cells, codesize, gl, base, code, s, k, i);
    }
  }

  // -- Addresses -------------------------------------------------------------

  // The address that reference i stands for: that of the definition it means, or
  // what the table of globals has for one that no put defines.
  ghost predicate Addressed(v: View, fin: Offsets, gl: seq<int>, base: int, i: nat, a: int)
    requires Shaped(v, fin) && i < |v.events| && IsReference(v.events[i])
  {
    if HasMeaning(v.events, i) then
      exists j: nat, s2: nat, k2: nat ::
        && Means(v.events, i, j) && IsItem(v, s2, k2) && EventOf(v.items[s2][k2]) == v.events[j]
        && a == base + fin[s2][k2]
    else v.events[i].lab.LG? && 10 <= v.events[i].lab.n < |gl| && a == gl[v.events[i].lab.n]
  }

  // What a processor makes of the operand is that address, modulo 32 bits where
  // the operand has as many: an absolute one, or counted from its end.
  predicate OperandRead(v: View, fin: Offsets, base: int, code: seq<Byte>, s: nat, k: nat, a: int)
    requires Shaped(v, fin) && IsItem(v, s, k)
  {
    var f0, f1 := fin[s][k], fin[s][k + 1];
    && 0 <= f0 <= f1 <= |code|
    && if !IsRel(v.items[s][k].act) then f1 == f0 + 4 && Unsigned(code[f0..f1]) == a % 0x1_0000_0000
       else if f1 == f0 + 4 then (base + f1 + Unsigned(code[f0..f1])) % 0x1_0000_0000 == a % 0x1_0000_0000
       else f1 > 0 && base + f1 + ReadS8(code[f1 - 1]) == a
  }

  // Item k of section s takes an address, and i is its reference.
  predicate RefOf(v: View, s: nat, k: nat, i: nat) {
    IsItem(v, s, k) && IsRef(v.items[s][k].act) && i < |v.events| && v.events[i] == EventOf(v.items[s][k])
    && IsReference(v.events[i])
  }

  ghost predicate RefRead(v: View, fin: Offsets, gl: seq<int>, base: int, code: seq<Byte>, s: nat, k: nat, i: nat)
    requires Shaped(v, fin) && RefOf(v, s, k, i)
  {
    exists a :: Addressed(v, fin, gl, base, i, a) && OperandRead(v, fin, base, code, s, k, a)
  }

  ghost predicate AllRefs(v: View, fin: Offsets, gl: seq<int>, base: int, code: seq<Byte>)
    requires Shaped(v, fin)
  {
    forall s: nat, k: nat, i: nat {:trigger RefOf(v, s, k, i)} :: RefOf(v, s, k, i)
                                                                  ==> RefRead(v, fin, gl, base, code, s, k, i)
  }

  lemma RefReads(v: View, fin: Offsets, cells: map<int, int>, codesize: int, gl: seq<int>, base: int, code: seq<Byte>,
                 s: nat, k: nat, i: nat)
    requires LinkReady(v) && Geometry(v) && Linked(v, fin, cells, codesize) && AllEmitted(v, fin, cells, gl, base, code)
    requires RefOf(v, s, k, i)
    ensures Shaped(v, fin) && RefRead(v, fin, gl, base, code, s, k, i)
  {
    hide *;
    RefIs(v, s, k, i);
    LinkedShape(v, fin, cells, codesize);
    EventsWf(v);
    var a: int;
    var j := TargetMeans(v.events, i);
    if HasMeaning(v.events, i) {
      MeansIs(v.events, i, j);
      var s2, k2 := RefTarget(v, fin, cells, codesize, s, k, i, j);
      var x := DefinedOperand(v, fin, cells, codesize, gl, base, code, s, k, s2, k2);
      a := base + x;
      AddressOf(v, fin, gl, base, i, j, s2, k2);
    } else {
      a := GlobalOperand(v, fin, cells, codesize, gl, base, code, s, k, i);
    }
    RefReadIs(v, fin, gl, base, code, s, k, i, a);
  }

  lemma RefIs(v: View, s: nat, k: nat, i: nat)
    requires RefOf(v, s, k, i)
    ensures IsItem(v, s, k) && s < |v.items| && k < |v.items[s]| && IsRef(v.items[s][k].act) && i < |v.events|
    ensures IsReference(v.events[i]) && v.events[i] == EventOf(v.items[s][k]) && v.events[i].pos == v.items[s][k].pos
  {
  }

  lemma RefReadIs(v: View, fin: Offsets, gl: seq<int>, base: int, code: seq<Byte>, s: nat, k: nat, i: nat, a: int)
    requires Shaped(v, fin) && RefOf(v, s, k, i) && IsItem(v, s, k) && i < |v.events| && IsReference(v.events[i])
    requires Addressed(v, fin, gl, base, i, a) && OperandRead(v, fin, base, code, s, k, a)
    ensures RefRead(v, fin, gl, base, code, s, k, i)
  {
  }

  lemma AddressOf(v: View, fin: Offsets, gl: seq<int>, base: int, i: nat, j: nat, s2: nat, k2: nat)
    requires Shaped(v, fin) && i < |v.events| && IsReference(v.events[i]) && Means(v.events, i, j)
    requires j < |v.events| && s2 < |v.items| && k2 < |v.items[s2]| && EventOf(v.items[s2][k2]) == v.events[j]
    ensures s2 < |fin| && k2 < |fin[s2]| && Addressed(v, fin, gl, base, i, base + fin[s2][k2])
  {
    assert HasMeaning(v.events, i);
  }

  // The operand of a reference to a defined label.
  lemma DefinedOperand(v: View, fin: Offsets, cells: map<int, int>, codesize: int, gl: seq<int>, base: int,
                       code: seq<Byte>, s: nat, k: nat, s2: nat, k2: nat)
    returns (x: int)
    requires LinkReady(v) && Geometry(v) && Linked(v, fin, cells, codesize) && AllEmitted(v, fin, cells, gl, base, code)
    requires s < |v.items| && k < |v.items[s]| && IsRef(v.items[s][k].act)
    requires v.items[s][k].pos in cells && IsTarget(v, cells[v.items[s][k].pos], s2, k2)
    ensures Shaped(v, fin) && s2 < |fin| && k2 < |fin[s2]| && x == fin[s2][k2]
    ensures IsItem(v, s, k) && OperandRead(v, fin, base, code, s, k, base + x)
  {
    hide *;
    LinkedShape(v, fin, cells, codesize);
    TargetCell(v, fin, cells, codesize, cells[v.items[s][k].pos], s2, k2);
    RefBytesAre(v, fin, cells, codesize, gl, base, code, s, k);
    x := fin[s2][k2];
    if ShrinkOf(v, cells, s, k) > 0 {
      ShrunkIsRel(v, cells, s, k);
      ShrunkOffset(v, fin, cells, codesize, s, k, s2, k2);
      SignedByte(x - fin[s][k + 1]);
    }
    OperandOf(v, fin, cells, gl, base, code, s, k, base + x);
  }

  // The operand of a reference to a global that no put defines.
  lemma GlobalOperand(v: View, fin: Offsets, cells: map<int, int>, codesize: int, gl: seq<int>, base: int,
                      code: seq<Byte>, s: nat, k: nat, i: nat)
    returns (a: int)
    requires LinkReady(v) && Geometry(v) && Linked(v, fin, cells, codesize) && AllEmitted(v, fin, cells, gl, base, code)
    requires s < |v.items| && k < |v.items[s]| && IsRef(v.items[s][k].act)
    requires i < |v.events| && IsReference(v.events[i]) && v.events[i] == EventOf(v.items[s][k])
             && !HasMeaning(v.events, i)
    ensures Shaped(v, fin) && IsItem(v, s, k) && Addressed(v, fin, gl, base, i, a)
            && OperandRead(v, fin, base, code, s, k, a)
  {
    hide *;
    LinkedShape(v, fin, cells, codesize);
    UnboundHere(v, i);
    RefKept(v, fin, cells, codesize, s, k);
    RefCellsFound(v, fin, cells, codesize, s, k);
    RefBytesAre(v, fin, cells, codesize, gl, base, code, s, k);
    GlobalCell(v, cells, gl, base, code, s, k, fin[s][k], fin[s][k + 1]);
    SamePlace(v, s, k, i);
    a := gl[v.events[i].lab.n];
    GlobalAddress(v, fin, gl, base, i);
    OperandOf(v, fin, cells, gl, base, code, s, k, a);
  }

  lemma SamePlace(v: View, s: nat, k: nat, i: nat)
    requires s < |v.items| && k < |v.items[s]| && i < |v.events| && v.events[i] == EventOf(v.items[s][k])
    ensures !v.events[i].Reset? && v.events[i].pos == v.items[s][k].pos
  {
  }

  lemma GlobalCell(v: View, cells: map<int, int>, gl: seq<int>, base: int, code: seq<Byte>, s: nat, k: nat, f0: int,
                   f1: int)
    requires s < |v.items| && k < |v.items[s]| && v.items[s][k].pos in cells && 0 <= f0 <= f1 <= |code|
    requires RefEmitted(v, cells, gl, base, code, s, k, f0, f1)
    ensures var t := cells[v.items[s][k].pos]; if t < 0 then -t < |gl| else t in cells
  {
  }

  lemma GlobalAddress(v: View, fin: Offsets, gl: seq<int>, base: int, i: nat)
    requires Shaped(v, fin) && i < |v.events| && IsReference(v.events[i]) && !HasMeaning(v.events, i)
    requires !v.events[i].Reset? && v.events[i].lab.LG? && 10 <= v.events[i].lab.n < |gl|
    ensures Addressed(v, fin, gl, base, i, gl[v.events[i].lab.n])
  {
  }

  lemma ShrunkIsRel(v: View, cells: map<int, int>, s: nat, k: nat)
    requires s < |v.items| && k < |v.items[s]| && ShrinkOf(v, cells, s, k) > 0
    ensures IsRel(v.items[s][k].act)
  {
  }

  lemma SignedByte(x: int)
    requires FitsS8(x)
    ensures -128 <= x <= 127
  {
  }

  lemma UnboundHere(v: View, i: nat)
    requires LinkReady(v) && i < |v.events| && IsReference(v.events[i]) && !HasMeaning(v.events, i)
    ensures v.events[i].lab.LG? && v.events[i].lab.n >= 10
    ensures v.events[i].pos in v.cells && v.cells[v.events[i].pos] == -v.events[i].lab.n
  {
    EventsWf(v);
    var j := TargetMeans(v.events, i);
    assert BoundAt(v.events, v.cells, i);
    hide LayoutInv, HistoryInv, Target, HasMeaning;
  }

  lemma TargetCell(v: View, fin: Offsets, cells: map<int, int>, codesize: int, t: int, s2: nat, k2: nat)
    requires Geometry(v) && Linked(v, fin, cells, codesize) && IsTarget(v, t, s2, k2)
    ensures s2 < |fin| && k2 < |fin[s2]| && t >= 0 && t in cells && cells[t] == fin[s2][k2]
  {
    TargetSection(v, s2, k2);
    assert Placed(v, fin, cells, s2, k2);
    hide Geometry, Chained;
  }

  // The bytes of a reference, from its cell.
  lemma RefBytesAre(v: View, fin: Offsets, cells: map<int, int>, codesize: int, gl: seq<int>, base: int,
                    code: seq<Byte>, s: nat, k: nat)
    requires Linked(v, fin, cells, codesize) && AllEmitted(v, fin, cells, gl, base, code)
    requires s < |v.items| && k < |v.items[s]| && IsRef(v.items[s][k].act)
    ensures Shaped(v, fin) && v.items[s][k].pos in cells && 0 <= fin[s][k] <= fin[s][k + 1] <= |code|
    ensures RefEmitted(v, cells, gl, base, code, s, k, fin[s][k], fin[s][k + 1])
    ensures fin[s][k + 1] == fin[s][k] + 4 - ShrinkOf(v, cells, s, k) && ShrinkOf(v, cells, s, k) >= 0
    ensures !IsRel(v.items[s][k].act) ==> ShrinkOf(v, cells, s, k) == 0
  {
    LinkedShape(v, fin, cells, codesize);
    EmittedHere(v, fin, cells, gl, base, code, s, k);
    assert Placed(v, fin, cells, s, k);
    RefSize(v, cells, s, k, fin[s][k], fin[s][k + 1]);
    hide Linked, AllEmitted, RefEmitted, LitByte;
  }

  lemma OperandOf(v: View, fin: Offsets, cells: map<int, int>, gl: seq<int>, base: int, code: seq<Byte>, s: nat, k: nat,
                  a: int)
    requires Shaped(v, fin) && s < |v.items| && k < |v.items[s]| && v.items[s][k].pos in cells
    requires 0 <= fin[s][k] <= fin[s][k + 1] <= |code|
    requires RefEmitted(v, cells, gl, base, code, s, k, fin[s][k], fin[s][k + 1])
    requires fin[s][k + 1] == fin[s][k] + 4 - ShrinkOf(v, cells, s, k) && ShrinkOf(v, cells, s, k) >= 0
    requires !IsRel(v.items[s][k].act) ==> ShrinkOf(v, cells, s, k) == 0
    requires var t := cells[v.items[s][k].pos]; if t < 0 then -t < |gl| && a == gl[-t]
             else t in cells && a == cells[t] + base
    requires ShrinkOf(v, cells, s, k) > 0 ==> -128 <= a - (base + fin[s][k + 1]) <= 127
    ensures IsItem(v, s, k) && OperandRead(v, fin, base, code, s, k, a)
  {
    var f1 := fin[s][k + 1];
    var x := if IsRel(v.items[s][k].act) then a - (base + f1) else a;
    if ShrinkOf(v, cells, s, k) == 0 {
      ReadLe4(x);
      AddMod(base + f1, x);
    } else {
      ReadBackS8(x);
    }
    hide ShrinkOf, Unsigned, Le4, ReadS8;
  }

  lemma AddMod(a: int, x: int)
    ensures (a + x % 0x1_0000_0000) % 0x1_0000_0000 == (a + x) % 0x1_0000_0000
  {
  }

  lemma AllRefsRead(v: View, fin: Offsets, cells: map<int, int>, codesize: int, gl: seq<int>, base: int,
                    code: seq<Byte>)
    requires LinkReady(v) && Geometry(v) && Linked(v, fin, cells, codesize) && AllEmitted(v, fin, cells, gl, base, code)
    ensures Shaped(v, fin) && AllRefs(v, fin, gl, base, code)
  {
    LinkedShape(v, fin, cells, codesize);
    hide LinkReady, Geometry, Linked, AllEmitted, RefRead, Shaped;
    forall s: nat, k: nat, i: nat | RefOf(v, s, k, i)
      ensures RefRead(v, fin, gl, base, code, s, k, i)
    {
      RefReads(v, fin, cells, codesize, gl, base, code, s, k, i);
    }
  }

  // -- Short branches --------------------------------------------------------

  // Whether a branch from (s,k) to the definition at (s2,k2) is short: a jump may lose
  // three bytes, a conditional branch four.
  predicate SizeRight(v: View, fin: Offsets, s: nat, k: nat, s2: nat, k2: nat)
    requires Shaped(v, fin) && IsItem(v, s, k) && IsItem(v, s2, k2)
  {
    var op, size := LitAt(v.items[s], k - 1), fin[s][k + 1] - fin[s][k];
    && (op == 0xe9 ==> size == if ShortReaches(v, fin, s, k, s2, k2, 3) then 1 else 4)
    && (0x80 <= op <= 0x8f ==> size == if ShortReaches(v, fin, s, k, s2, k2, 4) then 0 else 4)
    && (op != 0xe9 && !(0x80 <= op <= 0x8f) ==> size == 4)
  }

  // Item (s,k) is a branch and means the definition at (s2,k2).
  ghost predicate BranchTo(v: View, s: nat, k: nat, i: nat, s2: nat, k2: nat) {
    RefOf(v, s, k, i) && IsRel(v.items[s][k].act) && IsItem(v, s2, k2)
    && exists j :: 0 <= j < |v.events| && Means(v.events, i, j) && EventOf(v.items[s2][k2]) == v.events[j]
  }

  ghost predicate AllShort(v: View, fin: Offsets)
    requires Shaped(v, fin)
  {
    forall s: nat, k: nat, i: nat, s2: nat, k2: nat :: BranchTo(v, s, k, i, s2, k2) ==> SizeRight(v, fin, s, k, s2, k2)
  }

  lemma DefinitionIs(v: View, i: nat, j: nat, s2: nat, k2: nat)
    requires LinkReady(v) && i < |v.events| && IsReference(v.events[i]) && Means(v.events, i, j)
    requires IsItem(v, s2, k2) && EventOf(v.items[s2][k2]) == v.events[j]
    ensures v.events[i].pos in v.cells && IsTarget(v, v.cells[v.events[i].pos], s2, k2)
  {
    EventsWf(v);
    var m := TargetMeans(v.events, i);
    assert HasMeaning(v.events, i);
    MeansOne(v.events, i, j, m);
    BoundHere(v, i);
    hide LinkReady, HasMeaning, Means, Target;
  }

  lemma ShortIs(v: View, fin: Offsets, cells: map<int, int>, codesize: int, s: nat, k: nat, i: nat, s2: nat, k2: nat)
    requires LinkReady(v) && Geometry(v) && Linked(v, fin, cells, codesize) && BranchTo(v, s, k, i, s2, k2)
    ensures Shaped(v, fin) && SizeRight(v, fin, s, k, s2, k2)
  {
    hide *;
    LinkedShape(v, fin, cells, codesize);
    var j := BranchToIs(v, s, k, i, s2, k2);
    DefinitionIs(v, i, j, s2, k2);
    RefKept(v, fin, cells, codesize, s, k);
    ReadyParts(v);
    TargetIsLabel(v, cells[v.items[s][k].pos], s2, k2);
    LabelCell(v, s2, k2);
    ShrinksWhen(v, fin, cells, codesize, s, k, s2, k2);
    SizeFollows(v, fin, s, k, s2, k2);
  }

  lemma BranchToIs(v: View, s: nat, k: nat, i: nat, s2: nat, k2: nat) returns (j: nat)
    requires BranchTo(v, s, k, i, s2, k2)
    ensures s < |v.items| && k < |v.items[s]| && IsItem(v, s, k) && IsItem(v, s2, k2) && s2 < |v.items|
            && k2 < |v.items[s2]| && IsRef(v.items[s][k].act) && IsRel(v.items[s][k].act)
    ensures i < |v.events| && IsReference(v.events[i]) && v.events[i].pos == v.items[s][k].pos
    ensures Means(v.events, i, j) && j < |v.events| && EventOf(v.items[s2][k2]) == v.events[j]
  {
    RefIs(v, s, k, i);
    j :| 0 <= j < |v.events| && Means(v.events, i, j) && EventOf(v.items[s2][k2]) == v.events[j];
  }

  lemma SizeFollows(v: View, fin: Offsets, s: nat, k: nat, s2: nat, k2: nat)
    requires Shaped(v, fin) && IsItem(v, s, k) && IsItem(v, s2, k2)
    requires var sh := MayShrink(v, s, k);
             fin[s][k + 1] == fin[s][k] + 4 - if sh > 0 && ShortReaches(v, fin, s, k, s2, k2, sh) then sh else 0
    ensures SizeRight(v, fin, s, k, s2, k2)
  {
    hide ShortReaches, LitAt;
  }

  lemma TargetIsLabel(v: View, t: int, s2: nat, k2: nat)
    requires IsTarget(v, t, s2, k2)
    ensures s2 < |v.items| && k2 < |v.items[s2]| && IsLabel(v.items[s2][k2].act)
  {
  }

  lemma AllShortIs(v: View, fin: Offsets, cells: map<int, int>, codesize: int)
    requires LinkReady(v) && Geometry(v) && Linked(v, fin, cells, codesize)
    ensures Shaped(v, fin) && AllShort(v, fin)
  {
    LinkedShape(v, fin, cells, codesize);
    hide LinkReady, Geometry, Linked, SizeRight, Shaped;
    forall s: nat, k: nat, i: nat, s2: nat, k2: nat | BranchTo(v, s, k, i, s2, k2)
      ensures SizeRight(v, fin, s, k, s2, k2)
    {
      ShortIs(v, fin, cells, codesize, s, k, i, s2, k2);
    }
  }

  // -- What the passes refuse ------------------------------------------------

  // Only a global may be without a definition.
  ghost predicate AllDefined(ev: seq<Event>) {
    forall i: nat :: i < |ev| && IsReference(ev[i]) && (IsLocal(ev[i].lab) || ev[i].lab.PC?) ==> HasMeaning(ev, i)
  }

  // The entry of a label is positive if and only if some reference to it has no definition.
  lemma OpenEntry(v: View, l: Lab)
    requires Inv(v) && ValidLab(v, l)
    ensures Entry(v, l) > 0 <==> exists i: nat :: i < |v.events| && IsReference(v.events[i]) && v.events[i].lab == l
                                                  && !HasMeaning(v.events, i)
  {
    InvParts(v);
    EntrySign(v, l);
    ChainPositions(v.events, l);
    hide Inv, LayoutInv, TableInv, Resolved, Entry;
    forall i: nat | i < |v.events| && IsReference(v.events[i])
      ensures OnChain(v.events, l, v.events[i].pos) <==> v.events[i].lab == l && !HasMeaning(v.events, i)
    {
      PendingIsUnresolved(v.events, l, i);
      var j := TargetMeans(v.events, i);
    }
    hide HasMeaning, HistoryInv;
    if StateOf(v.events, l).Pending? {
      var q := StateOf(v.events, l).chain[0];
      assert q in StateOf(v.events, l).chain;
    }
  }

  lemma OpenEntries(v: View)
    requires Inv(v) && |v.lg| >= 10
    ensures AllDefined(v.events) <==> (forall n :: 1 <= n <= 9 ==> v.lg[n] <= 0)
                                      && (forall pc :: 0 <= pc < |v.pc| ==> v.pc[pc] <= 0)
  {
    forall n | 1 <= n <= 9
      ensures v.lg[n] > 0 <==> exists i: nat :: i < |v.events| && IsReference(v.events[i]) && v.events[i].lab == LG(n)
                                                && !HasMeaning(v.events, i)
    {
      OpenEntry(v, LG(n));
    }
    forall pc | 0 <= pc < |v.pc|
      ensures v.pc[pc] > 0 <==> exists i: nat :: i < |v.events| && IsReference(v.events[i]) && v.events[i].lab == PC(pc)
                                                 && !HasMeaning(v.events, i)
    {
      OpenEntry(v, PC(pc));
    }
    forall i: nat | i < |v.events| && IsReference(v.events[i]) ensures ValidLab(v, v.events[i].lab) { RefLabel(v, i); }
    hide Inv, HasMeaning;
  }

  lemma RefLabel(v: View, i: nat)
    requires Inv(v) && i < |v.events| && IsReference(v.events[i])
    ensures ValidLab(v, v.events[i].lab)
  {
    InvParts(v);
    assert Placeable(v, v.events[i]);
    hide Inv, LayoutInv, TableInv, Resolved;
  }

  // -- The offsets of pc labels ----------------------------------------------

  ghost predicate Defined(ev: seq<Event>, l: Lab) { exists j: nat :: j < |ev| && IsDef(ev[j], l) }

  // The last definition of the label was encoded at offset x.
  ghost predicate LastDefAt(v: View, fin: Offsets, l: Lab, x: int)
    requires Shaped(v, fin)
  {
    exists j: nat, s2: nat, k2: nat ::
      && j < |v.events| && IsDef(v.events[j], l) && NoneBetween(v.events, l, j + 1, |v.events|)
      && s2 < |v.items| && k2 < |v.items[s2]| && EventOf(v.items[s2][k2]) == v.events[j] && fin[s2][k2] == x
  }

  lemma PcOffset(v: View, fin: Offsets, cells: map<int, int>, codesize: int, pc: nat)
    requires LinkReady(v) && Geometry(v) && PcDone(v) && Linked(v, fin, cells, codesize) && pc < |v.pc|
             && Shaped(v, fin)
    ensures v.pc[pc] < 0 ==> -v.pc[pc] in cells
    ensures var x := PcLabel(v.pc, cells, pc); if Defined(v.events, PC(pc)) then x >= 0 && LastDefAt(v, fin, PC(pc), x)
            else x == -2
  {
    var l := PC(pc);
    EventsWf(v);
    ReadyParts(v);
    var j := PrevDefAt(v.events, l, |v.events|);
    PcLabelPlaced(v, fin, cells, codesize, pc);
    hide LinkReady, LayoutInv, HistoryInv, Geometry, Linked, Bound, PcDone, WfEvents;
    if PrevDef(v.events, l, |v.events|) != 0 {
      var s2, k2 := LabelOf(v, j);
      TargetPlaced(v, fin, cells, codesize, v.events[j].pos, s2, k2);
      OffsetsNonNegative(v, fin, cells, codesize, s2, k2);
      PcCell(v, fin, cells, codesize, pc, s2, k2);
    }
  }

  lemma PcCell(v: View, fin: Offsets, cells: map<int, int>, codesize: int, pc: nat, s2: nat, k2: nat)
    requires PcDone(v) && Linked(v, fin, cells, codesize) && pc < |v.pc| && PrevDef(v.events, PC(pc), |v.events|) != 0
    requires IsTarget(v, PrevDef(v.events, PC(pc), |v.events|), s2, k2)
    ensures PcLabel(v.pc, cells, pc) == fin[s2][k2]
  {
    assert Placed(v, fin, cells, s2, k2);
  }

  // The loop of build_code over the pc labels.
  method CollectOpcodes(d: Encoder, npc: nat, ghost v: View, ghost fin: Offsets) returns (st: Status, ofs: seq<int>)
    requires npc <= |d.pclabels| && d.pclabels == v.pc && Shaped(v, fin)
    requires LinkReady(v) && Geometry(v) && PcDone(v) && Linked(v, fin, d.cells, d.codesize)
    ensures st.OK? <==> forall pc: nat :: pc < npc ==> Defined(v.events, PC(pc))
    ensures st.OK? ==> |ofs| == npc && forall pc: nat :: pc < npc ==> LastDefAt(v, fin, PC(pc), ofs[pc])
  {
    hide *;
    ofs := [];
    for pc := 0 to npc
      invariant |ofs| == pc && forall i: nat :: i < pc ==> Defined(v.events, PC(i)) && LastDefAt(v, fin, PC(i), ofs[i])
    {
      forall q | 0 <= q < |d.pclabels|
        ensures d.pclabels[q] < 0 ==> -d.pclabels[q] in d.cells
      {
        PcOffset(v, fin, d.cells, d.codesize, q);
      }
      var x := GetPcLabel(d, pc);
      PcOffset(v, fin, d.cells, d.codesize, pc);
      if x < 0 { return UndefPC(pc), ofs; }
      ofs := ofs + [x];
    }
    st := OK;
  }

  // -- build_code ------------------------------------------------------------

  // The end of build_code: the local labels are checked, the code is linked and
  // encoded, and npc labels are looked up. It fails exactly if a put failed or a
  // local or pc label is missing.
  method BuildCode(d: Encoder, base: int, npc: nat)
                   returns (st: Status, code: array<Byte>, ofs: seq<int>, ghost v: View, ghost fin: Offsets)
    requires d.status.OK? ==> d.Valid()
    requires 0 < |d.sections| && |d.globals| == |d.lglabels| && npc <= |d.pclabels|
    modifies d
    ensures st.OK? <==>
              old(d.status).OK? && AllDefined(old(d.events)) && forall pc: nat ::
                pc < npc ==> Defined(old(d.events), PC(pc))
    ensures st.OK? ==>
              && v.items == old(d.items) && v.events == old(d.events) + [Reset]
              && code.Length == d.codesize && Shaped(v, fin)
              && Chained(fin, d.codesize) && AllRead(v, fin, code[..])
              && AllShort(v, fin) && AllRefs(v, fin, old(d.globals), base, code[..])
                 && GlobalsSet(v, fin, base, old(d.globals), d.globals)
              && (d.codesize < 0x80000000 ==> AllReach(v, fin, code[..]))
              && |ofs| == npc && forall pc: nat :: pc < npc ==> LastDefAt(v, fin, PC(pc), ofs[pc])
  {
    hide Inv, LinkReady, Geometry, Linked, AllReach, AllRead, AllRefs, AllShort, AllEmitted, GlobalsSet, AllDefined,
      PcDone,
      LastDefAt, Chained;
    if d.status.OK? { OpenEntries(d.V()); }
    DefinedOn(d.events);
    code, ofs := new Byte[0], [];
    st := d.CheckStep(-1);
    var sz;
    st, sz, v, fin := Link(d);
    if !st.OK? { return; }
    LinkedSize(v, fin, d.cells, sz);
    code := new Byte[sz];
    ghost var gl := d.globals;
    st := Encode(d, code, base, v, fin);
    assert code[..] == code[..d.codesize];
    AllReads(v, fin, d.cells, d.codesize, gl, base, code[..]);
    AllRefsRead(v, fin, d.cells, d.codesize, gl, base, code[..]);
    LinkedChain(v, fin, d.cells, d.codesize);
    AllShortIs(v, fin, d.cells, d.codesize);
    if d.codesize < 0x80000000 { AllBranches(v, fin, d.cells, d.codesize, gl, base, code[..]); }
    st, ofs := CollectOpcodes(d, npc, v, fin);
  }

  lemma DefinedOn(ev: seq<Event>)
    ensures forall l :: Defined(ev + [Reset], l) <==> Defined(ev, l)
  {
    forall l ensures Defined(ev + [Reset], l) <==> Defined(ev, l) {
      if Defined(ev, l) {
        var j: nat :| j < |ev| && IsDef(ev[j], l);
        assert IsDef((ev + [Reset])[j], l);
      }
    }
  }

  lemma LinkedChain(v: View, fin: Offsets, cells: map<int, int>, codesize: int)
    requires Linked(v, fin, cells, codesize)
    ensures Chained(fin, codesize)
  {
  }

  lemma LinkedSize(v: View, fin: Offsets, cells: map<int, int>, codesize: int)
    requires Geometry(v) && Linked(v, fin, cells, codesize) && 0 < |v.items|
    ensures codesize >= 0
  {
    var s := |v.items| - 1;
    OffsetsNonNegative(v, fin, cells, codesize, s, |v.items[s]|);
    assert StartOf(fin, |fin|) == codesize;
    hide AllPlaced;
  }
}
