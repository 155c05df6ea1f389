// What pass 1 of DynASM leaves behind: the items stored in the section buffers
// and the label chains threaded through them.  Everything here is about values;
// the passes that work on the buffers are in dynasm_pass1.dfy to dynasm_encode.dfy.
module DynasmStore {
  import opened DynasmActions

  // A buffer position is a section number (8 bits) and an index (24 bits).
  function Base(s: int): int { s * 0x1000000 }

  function SecOf(pos: int): int { pos / 0x1000000 }

  lemma PosOfSection(s: nat, pos: int)
    requires Base(s) <= pos < Base(s + 1)
    ensures SecOf(pos) == s
  {
  }

  // One stored action: its first buffer position, the pass 1 offset before it,
  // its place in the action list (-1 for Begin) and its variable argument.
  datatype Item = Item(pos: int, ofs: int, ap: int, act: Act, arg: int)

  // Where the next item goes; ap is -1 between two puts.
  datatype End = End(pos: int, ofs: int, ap: int)

  function EndAt(I: seq<Item>, e: End, k: nat): End {
    if k < |I| then End(I[k].pos, I[k].ofs, I[k].ap) else e
  }

  // -- Labels and references, in the order the puts made them ----------------

  datatype Lab = LG(n: int) | PC(n: int)

  predicate IsLocal(l: Lab) { l.LG? && 1 <= l.n <= 9 }

  // The entries below the globals; they take no undefined backward reference.
  predicate IsLow(l: Lab) { l.LG? && 0 <= l.n < 10 }

  datatype Event =
    | Def(lab: Lab, pos: int)    // a label is placed
    | Fwd(lab: Lab, pos: int)    // a forward reference to a local label
    | Ref(lab: Lab, pos: int)    // any other reference
    | Reset                      // dasm_checkstep forgets the local labels

  // The event of a reference or label (meaningless for other items).
  function EventOf(it: Item): (e: Event)
    ensures !e.Reset?
  {
    match it.act
    case RelLG(n) => if n <= 246 then Ref(LG(n), it.pos) else Fwd(LG(n - 246), it.pos)
    case ImmLG(n) => if n <= 246 then Ref(LG(n), it.pos) else Fwd(LG(n - 246), it.pos)
    case LabLG(n) => Def(LG(n), it.pos)
    case LabPC => Def(PC(it.arg), it.pos)
    case _ => Ref(PC(it.arg), it.pos)
  }

  // Position of the first definition of l at or after event i, else 0.
  function NextDef(ev: seq<Event>, l: Lab, i: nat): int
    decreases |ev| - i
  {
    if i >= |ev| then 0
    else if ev[i].Def? && ev[i].lab == l then ev[i].pos
    else NextDef(ev, l, i + 1)
  }

  // Position of the last definition of l before event i, else 0.
  function PrevDef(ev: seq<Event>, l: Lab, i: nat): int
    requires i <= |ev|
  {
    if i == 0 then 0
    else if ev[i - 1].Def? && ev[i - 1].lab == l then ev[i - 1].pos
    else PrevDef(ev, l, i - 1)
  }

  predicate IsReference(e: Event) { e.Fwd? || e.Ref? }

  // The definition a reference means, or 0 while there is none: a forward
  // reference means the first later definition; any other one means the last
  // earlier definition, and the first later one if there is no earlier one.
  function Target(ev: seq<Event>, i: nat): int
    requires i < |ev| && IsReference(ev[i])
  {
    var l := ev[i].lab;
    if ev[i].Ref? && PrevDef(ev, l, i) != 0 then PrevDef(ev, l, i)
    else NextDef(ev, l, i + 1)
  }

  // What one table entry stands for.
  datatype LabState = Unused | Defined(pos: int) | Pending(chain: seq<int>)

  function AddPending(st: LabState, q: int): LabState {
    Pending([q] + if st.Pending? then st.chain else [])
  }

  function StateOf(ev: seq<Event>, l: Lab): LabState {
    if |ev| == 0 then Unused
    else
      var prev := StateOf(ev[..|ev| - 1], l);
      match ev[|ev| - 1]
      case Reset => if IsLocal(l) then Unused else prev
      case Def(m, q) => if m == l then Defined(q) else prev
      case Fwd(m, q) => if m == l then AddPending(prev, q) else prev
      case Ref(m, q) => if m == l && !prev.Defined? then AddPending(prev, q) else prev
  }

  predicate WfEvents(ev: seq<Event>) {
    && (forall k :: 0 <= k < |ev| && !ev[k].Reset? ==> ev[k].pos > 0)
    && (forall k :: 0 <= k < |ev| && ev[k].Fwd? ==> IsLocal(ev[k].lab))
    && (forall j, k :: 0 <= j < k < |ev| && !ev[j].Reset? && !ev[k].Reset? ==> ev[j].pos != ev[k].pos)
  }

  lemma {:induction false} NextDefSnoc(ev: seq<Event>, e: Event, l: Lab, i: nat)
    requires WfEvents(ev)
    ensures NextDef(ev, l, i) >= 0
    ensures NextDef(ev + [e], l, i) ==
            if NextDef(ev, l, i) > 0 then NextDef(ev, l, i)
            else if i <= |ev| && e.Def? && e.lab == l then e.pos else 0
    decreases |ev| - i
  {
    var ev' := ev + [e];
    if i < |ev| {
      assert ev'[i] == ev[i];
      NextDefSnoc(ev, e, l, i + 1);
    } else if i == |ev| {
      assert ev'[i] == e;
      assert NextDef(ev', l, i + 1) == 0;
    }
  }

  lemma {:induction false} PrevDefSnoc(ev: seq<Event>, e: Event, l: Lab, i: nat)
    requires i <= |ev|
    ensures PrevDef(ev + [e], l, i) == PrevDef(ev, l, i)
  {
    if i > 0 {
      assert (ev + [e])[i - 1] == ev[i - 1];
      PrevDefSnoc(ev, e, l, i - 1);
    }
  }

  lemma {:induction false} StateSnoc(ev: seq<Event>, e: Event, l: Lab)
    ensures var prev := StateOf(ev, l);
            StateOf(ev + [e], l) ==
              match e
              case Reset => (if IsLocal(l) then Unused else prev)
              case Def(m, q) => (if m == l then Defined(q) else prev)
              case Fwd(m, q) => (if m == l then AddPending(prev, q) else prev)
              case Ref(m, q) => (if m == l && !prev.Defined? then AddPending(prev, q) else prev)
  {
    assert (ev + [e])[..|ev|] == ev;
  }

  // A label counts as defined only at its last definition, and a label that
  // cannot be referenced forward is defined as soon as any definition exists.
  lemma {:induction false} DefinedIsLast(ev: seq<Event>, l: Lab)
    requires WfEvents(ev)
    ensures StateOf(ev, l).Defined? ==> StateOf(ev, l).pos == PrevDef(ev, l, |ev|) > 0
    ensures !IsLocal(l) && PrevDef(ev, l, |ev|) != 0 ==> StateOf(ev, l).Defined?
  {
    if |ev| > 0 {
      var p := ev[..|ev| - 1];
      DefinedIsLast(p, l);
      PrevDefSnoc(p, ev[|ev| - 1], l, |p|);
      assert p + [ev[|ev| - 1]] == ev;
    }
  }

  // The history of a run whose range checks all passed: a local label is
  // referenced backwards only while it is defined, and the local labels are
  // reset only when none of them is pending.
  predicate GoodHistory(ev: seq<Event>) {
    |ev| > 0 ==>
      var p := ev[..|ev| - 1];
      var e := ev[|ev| - 1];
      && GoodHistory(p)
      && (e.Ref? && IsLow(e.lab) ==> StateOf(p, e.lab).Defined?)
      && (e.Reset? ==> forall n :: 1 <= n <= 9 ==> !StateOf(p, LG(n)).Pending?)
  }

  // The pending chain of a label holds exactly its unresolved references.
  predicate OnChain(ev: seq<Event>, l: Lab, q: int) {
    StateOf(ev, l).Pending? && q in StateOf(ev, l).chain
  }

  lemma {:induction false} PendingIsUnresolved(ev: seq<Event>, l: Lab, i: nat)
    requires WfEvents(ev) && GoodHistory(ev)
    requires i < |ev| && IsReference(ev[i])
    ensures Target(ev, i) == 0 && ev[i].lab == l <==> OnChain(ev, l, ev[i].pos)
  {
    var n := |ev| - 1;
    var p := ev[..n];
    assert p + [ev[n]] == ev;
    if i == n {
      NewReference(p, ev[n], l);
    } else {
      assert ev[i] == p[i];
      PendingIsUnresolved(p, l, i);
      if ev[n].Reset? && IsLocal(l) {
        assert l == LG(l.n);
      }
      OldReference(p, ev[n], l, i);
    }
  }

  // The case of an older reference.
  lemma OldReference(p: seq<Event>, e: Event, l: Lab, i: nat)
    requires WfEvents(p) && i < |p| && IsReference(p[i])
    requires Target(p, i) == 0 && p[i].lab == l <==> OnChain(p, l, p[i].pos)
    requires !e.Reset? ==> e.pos > 0 && e.pos != p[i].pos
    requires e.Reset? && IsLocal(l) ==> !StateOf(p, l).Pending?
    ensures Target(p + [e], i) == 0 && p[i].lab == l <==> OnChain(p + [e], l, p[i].pos)
  {
    assert (p + [e])[i] == p[i];
    StateSnoc(p, e, l);
    PrevDefSnoc(p, e, p[i].lab, i);
    NextDefSnoc(p, e, p[i].lab, i + 1);
  }

  lemma WfPrefix(p: seq<Event>, e: Event)
    requires WfEvents(p + [e]) && !e.Reset?
    ensures WfEvents(p) && forall k :: 0 <= k < |p| && !p[k].Reset? ==> p[k].pos != e.pos
  {
    var ev := p + [e];
    assert ev[|p|] == e;
    assert forall k :: 0 <= k < |p| ==> ev[k] == p[k];
  }

  // The case of the newest event being the reference.
  lemma NewReference(p: seq<Event>, e: Event, l: Lab)
    requires WfEvents(p + [e]) && GoodHistory(p) && IsReference(e)
    requires e.Ref? && IsLow(e.lab) ==> StateOf(p, e.lab).Defined?
    ensures Target(p + [e], |p|) == 0 && e.lab == l <==> OnChain(p + [e], l, e.pos)
  {
    hide WfEvents, GoodHistory;
    var ev := p + [e];
    WfPrefix(p, e);
    assert ev[|p|] == e;
    assert NextDef(ev, e.lab, |p| + 1) == 0;
    PrevDefSnoc(p, e, e.lab, |p|);
    DefinedIsLast(p, e.lab);
    StateSnoc(p, e, l);
    ChainPositions(p, l);
  }

  // Every position on a chain comes from a reference to that label.
  lemma {:induction false} ChainPositions(ev: seq<Event>, l: Lab)
    ensures StateOf(ev, l).Pending? ==>
              |StateOf(ev, l).chain| > 0 &&
              forall q :: q in StateOf(ev, l).chain ==>
                exists i :: 0 <= i < |ev| && IsReference(ev[i]) && ev[i].lab == l && ev[i].pos == q
  {
    if |ev| > 0 {
      var n := |ev| - 1;
      var p := ev[..n];
      ChainPositions(p, l);
      var st := StateOf(ev, l);
      if st.Pending? {
        forall q | q in st.chain
          ensures exists i :: 0 <= i < |ev| && IsReference(ev[i]) && ev[i].lab == l && ev[i].pos == q
        {
          if IsReference(ev[n]) && ev[n].pos == q && ev[n].lab == l {
          } else {
            var i :| 0 <= i < |p| && IsReference(p[i]) && p[i].lab == l && p[i].pos == q;
            assert ev[i] == p[i];
          }
        }
      }
    }
  }

  // Entry 0 of the local/global table is never pending.
  lemma {:induction false} ZeroNeverPending(ev: seq<Event>)
    requires WfEvents(ev) && GoodHistory(ev)
    ensures !StateOf(ev, LG(0)).Pending?
  {
    if |ev| > 0 {
      ZeroNeverPending(ev[..|ev| - 1]);
    }
  }

  // No cell occurs twice on a chain, so walking a chain ends.
  lemma {:induction false} ChainDistinct(ev: seq<Event>, l: Lab)
    requires WfEvents(ev) && StateOf(ev, l).Pending?
    ensures forall i, j :: 0 <= i < j < |StateOf(ev, l).chain| ==> StateOf(ev, l).chain[i] != StateOf(ev, l).chain[j]
  {
    var n := |ev| - 1;
    var p := ev[..n];
    if StateOf(p, l).Pending? {
      ChainDistinct(p, l);
      ChainPositions(p, l);
      var c, d := StateOf(p, l).chain, StateOf(ev, l).chain;
      forall i, j | 0 <= i < j < |d|
        ensures d[i] != d[j]
      {
        if d != c {
          var q := d[j];
          assert q == c[j - 1] && q in c;
        }
      }
    }
  }
}
