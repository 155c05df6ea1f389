// DynASM pass 1: dasm_setup, dasm_put and dasm_checkstep as methods of the
// encoder object, proved to store exactly the actions of every put.
module DynasmPass1 {
  import opened DynasmActions
  import opened DynasmStore
  import opened DynasmView

  datatype Status =
    | OK | RangeI(at: int) | RangeSec(at: int) | RangeLG(at: int) | RangePC(at: int)
    | UndefL(n: int) | UndefPC(n: int) | MatchSec(n: int) | Phase

  // dasm_Section: buffer size in bytes, next position, first position that
  // calls for a bigger buffer, and the pass 1 offset.
  datatype SecRec = SecRec(bsize: nat, pos: int, epos: int, ofs: int)

  // The items a put stores for the actions from p on.
  function PutItems(al: seq<Byte>, p: int, args: seq<int>, pos: int, ofs: int): seq<Item>
    requires ArgsFit(al, p, args)
    decreases |al| - p
  {
    var a := ActAt(al, p);
    if a.Unsupported? then []
    else
      var it := Item(pos, ofs, p, a, if TakesArg(a) then args[0] else 0);
      if IsEnd(a) then [it]
      else [it] + PutItems(al, p + Len(a), if TakesArg(a) then args[1..] else args,
                           pos + Slots(a), ofs + MaxSize(a, it.arg))
  }

  // The arguments that some items have taken, in order.
  function ArgsOf(I: seq<Item>): seq<int> {
    if I == [] then [] else (if TakesArg(I[0].act) then [I[0].arg] else []) + ArgsOf(I[1..])
  }

  // The actions of one put stand one behind the other in the action list, up to its end.
  predicate Decodes(al: seq<Byte>, I: seq<Item>, k: nat)
    requires k < |I|
  {
    && I[k].act == ActAt(al, I[k].ap)
    && if k + 1 < |I| then !IsEnd(I[k].act) && I[k + 1].ap == I[k].ap + Len(I[k].act) else IsEnd(I[k].act)
  }

  function Taken(a: Act, args: seq<int>): seq<int> { if TakesArg(a) && |args| > 0 then [args[0]] else [] }

  function Rest(a: Act, args: seq<int>): seq<int> { if TakesArg(a) && |args| > 0 then args[1..] else args }

  function LitOf(a: Act): int { if IsLit(a) then a.b else -1 }

  lemma PutStep(al: seq<Byte>, p: int, args: seq<int>, pos: int, ofs: int, b1: int, b2: int)
    requires ArgsFit(al, p, args) && WellFormed(al, p, b1, b2)
    ensures var a, I := ActAt(al, p), PutItems(al, p, args, pos, ofs);
            && |I| > 0 && p < |al| && Len(a) > 0 && I[0].ap == p && I[0].act == a && ArgsOf([I[0]]) <= args
            && (IsEnd(a) ==> I == [I[0]])
            && (!IsEnd(a) ==>
                  && ArgsOf([I[0]]) == Taken(a, args) && ArgsFit(al, p + Len(a), Rest(a, args))
                  && WellFormed(al, p + Len(a), LitOf(a), if IsLit(a) then b1 else -1)
                  && I == [I[0]] + PutItems(al, p + Len(a), Rest(a, args), I[0].pos + Slots(a),
                     I[0].ofs + MaxSize(a, I[0].arg)))
  {
  }

  lemma DecodesCons(al: seq<Byte>, it: Item, J: seq<Item>)
    requires it.act == ActAt(al, it.ap) && !IsEnd(it.act) && |J| > 0 && J[0].ap == it.ap + Len(it.act)
    requires forall k: nat :: k < |J| ==> Decodes(al, J, k)
    ensures forall k: nat :: k < |[it] + J| ==> Decodes(al, [it] + J, k)
  {
    forall k: nat | k < |[it] + J|
      ensures Decodes(al, [it] + J, k)
    {
      if k > 0 { assert Decodes(al, J, k - 1); }
    }
  }

  lemma ArgsCons(it: Item, J: seq<Item>)
    ensures ArgsOf([it] + J) == ArgsOf([it]) + ArgsOf(J)
  {
    assert ([it] + J)[1..] == J && [it][1..] == [];
  }

  // A put stores each action from p on, and the arguments in the order given.
  lemma {:induction false} PutItemsAre(al: seq<Byte>, p: int, args: seq<int>, pos: int, ofs: int, b1: int, b2: int)
    requires ArgsFit(al, p, args) && WellFormed(al, p, b1, b2)
    ensures var I := PutItems(al, p, args, pos, ofs);
            |I| > 0 && I[0].ap == p && (forall k: nat :: k < |I| ==> Decodes(al, I, k)) && ArgsOf(I) <= args
    decreases |al| - p
  {
    hide *;
    var a, I := ActAt(al, p), PutItems(al, p, args, pos, ofs);
    PutStep(al, p, args, pos, ofs, b1, b2);
    if IsEnd(a) {
      DecodesEnd(al, I);
    } else {
      var it, rest := I[0], Rest(a, args);
      var J := PutItems(al, p + Len(a), rest, it.pos + Slots(a), it.ofs + MaxSize(a, it.arg));
      PutItemsAre(al, p + Len(a), rest, it.pos + Slots(a), it.ofs + MaxSize(a, it.arg), LitOf(a),
        if IsLit(a) then b1 else -1);
      DecodesCons(al, it, J);
      ArgsCons(it, J);
      TakenRest(a, args);
    }
  }

  lemma DecodesEnd(al: seq<Byte>, I: seq<Item>)
    requires |I| == 1 && I[0].act == ActAt(al, I[0].ap) && IsEnd(I[0].act)
    ensures forall k: nat :: k < |I| ==> Decodes(al, I, k)
  {
  }

  lemma TakenRest(a: Act, args: seq<int>)
    ensures Taken(a, args) + Rest(a, args) == args
  {
  }

  // The labels and references among some items.
  function EventsOf(I: seq<Item>): seq<Event> {
    if |I| == 0 then []
    else EventsOf(I[..|I| - 1]) + if IsRef(I[|I| - 1].act) || IsLabel(I[|I| - 1].act) then [EventOf(I[|I| - 1])] else []
  }

  lemma EventsOfSnoc(I: seq<Item>, it: Item)
    ensures EventsOf(I + [it]) == EventsOf(I) + if IsRef(it.act) || IsLabel(it.act) then [EventOf(it)] else []
  {
    assert (I + [it])[..|I|] == I;
  }

  lemma EventsOfOne(it: Item)
    ensures EventsOf([it]) == if IsRef(it.act) || IsLabel(it.act) then [EventOf(it)] else []
  {
    assert [it][..0] == [];
  }

  // The active section after some items.
  function SectionAfter(I: seq<Item>, s: nat): nat {
    if |I| > 0 && I[|I| - 1].act.Section? then I[|I| - 1].act.n else s
  }

  lemma EventsOfAppend(I: seq<Item>, it: Item)
    ensures EventsOf(I + [it]) == EventsOf(I) + EventsOf([it])
  {
    EventsOfSnoc(I, it);
    EventsOfOne(it);
  }

  lemma StepItems(al: seq<Byte>, p: int, args: seq<int>, pos: int, ofs: int)
    requires ArgsFit(al, p, args) && !ActAt(al, p).Unsupported?
    ensures var a := ActAt(al, p);
            var it := Item(pos, ofs, p, a, if TakesArg(a) then args[0] else 0);
            PutItems(al, p, args, pos, ofs) ==
              [it] + if IsEnd(a) then []
                     else PutItems(al, p + Len(a), if TakesArg(a) then args[1..] else args, After(it).pos,
                       After(it).ofs)
  {
  }

  lemma BeginLits(I: seq<Item>)
    requires |I| > 0 && I[|I| - 1].act.Begin?
    ensures LitAt(I, |I| - 1) == -1 && LitBefore(I, |I|) == -1
  {
  }

  lemma LitSnoc(I: seq<Item>, it: Item)
    ensures LitAt(I + [it], |I|) == if IsLit(it.act) then it.act.b else -1
    ensures LitBefore(I + [it], |I| + 1) == if IsLit(it.act) then LitAt(I, |I| - 1) else -1
  {
  }

  // What the list guarantees at p is what the next item needs.
  lemma WellFormedOpcode(al: seq<Byte>, p: int, I: seq<Item>, it: Item)
    requires WellFormed(al, p, LitAt(I, |I| - 1), LitBefore(I, |I|)) && it.act == ActAt(al, p)
    ensures OpcodeOk(I + [it], |I|)
  {
    var J := I + [it];
    assert LitAt(J, |I| - 1) == LitAt(I, |I| - 1);
    assert LitAt(J, |I| - 2) == LitAt(I, |I| - 2);
  }

  // A put that has stored `done` of all its items, and continues at p.
  ghost predicate Progress(al: seq<Byte>, I0: seq<Item>, ev0: seq<Event>, ev: seq<Event>, all: seq<Item>,
                           done: seq<Item>, p: int, rest: seq<int>, pos: int, ofs: int, pos0: int) {
    var I := I0 + done;
    && ev == ev0 + EventsOf(done)
    && ArgsFit(al, p, rest)
    && all == done + PutItems(al, p, rest, pos, ofs)
    && WellFormed(al, p, LitAt(I, |I| - 1), LitBefore(I, |I|))
    && pos + SlotsFrom(al, p) <= pos0 + MAXSECPOS
  }

  lemma ProgressStart(al: seq<Byte>, I0: seq<Item>, ev0: seq<Event>, first: Item, args: seq<int>)
    requires first.act.Begin? && WellFormed(al, first.act.start, -1, -1) && ArgsFit(al, first.act.start, args)
    requires 1 + SlotsFrom(al, first.act.start) <= MAXSECPOS
    ensures Progress(al, I0, ev0, ev0, [first] + PutItems(al, first.act.start, args, first.pos + 1, first.ofs), [first],
                     first.act.start, args, first.pos + 1, first.ofs, first.pos)
  {
    EventsOfOne(first);
    BeginLits(I0 + [first]);
  }

  // What the action at p needs to be stored.
  lemma ProgressNow(al: seq<Byte>, I0: seq<Item>, ev0: seq<Event>, ev: seq<Event>, all: seq<Item>,
                    done: seq<Item>, p: int, rest: seq<int>, pos: int, ofs: int, pos0: int)
    requires Progress(al, I0, ev0, ev, all, done, p, rest, pos, ofs, pos0)
    ensures var a := ActAt(al, p);
            && !a.Unsupported? && p < |al|
            && (TakesArg(a) && !IsEnd(a) ==> |rest| > 0 && (a.Space? ==> rest[0] >= 0))
            && (a.Align? ==> IsMask(a.mask))
            && (!IsEnd(a) ==> pos + Slots(a) <= pos0 + MAXSECPOS)
            && OpcodeOk(I0 + done + [Item(pos, ofs, p, a, if TakesArg(a) && |rest| > 0 then rest[0] else 0)],
               |I0 + done|)
  {
    var a := ActAt(al, p);
    WellFormedOpcode(al, p, I0 + done, Item(pos, ofs, p, a, if TakesArg(a) && |rest| > 0 then rest[0] else 0));
  }

  lemma ProgressStep(al: seq<Byte>, I0: seq<Item>, ev0: seq<Event>, ev: seq<Event>, all: seq<Item>,
                     done: seq<Item>, p: int, rest: seq<int>, pos: int, ofs: int, pos0: int)
    requires Progress(al, I0, ev0, ev, all, done, p, rest, pos, ofs, pos0) && !IsEnd(ActAt(al, p))
    requires TakesArg(ActAt(al, p)) ==> |rest| > 0
    ensures var a := ActAt(al, p);
            var it := Item(pos, ofs, p, a, if TakesArg(a) then rest[0] else 0);
            Progress(al, I0, ev0, ev + EventsOf([it]), all, done + [it], p + Len(a),
                     if TakesArg(a) then rest[1..] else rest, After(it).pos, After(it).ofs, pos0)
            && pos <= After(it).pos && I0 + (done + [it]) == I0 + done + [it]
  {
    hide ActAt, PutItems, WellFormed, ArgsFit, SlotsFrom, EventsOf, LitBefore, LitAt;
    var a := ActAt(al, p);
    var it := Item(pos, ofs, p, a, if TakesArg(a) then rest[0] else 0);
    StepWellFormed(al, p, LitAt(I0 + done, |I0 + done| - 1), LitBefore(I0 + done, |I0 + done|));
    StepRest(al, p, rest);
    StepItems(al, p, rest, pos, ofs);
    EventsOfAppend(done, it);
    LitSnoc(I0 + done, it);
    assert I0 + (done + [it]) == (I0 + done) + [it];
  }

  lemma StepWellFormed(al: seq<Byte>, p: int, b1: int, b2: int)
    requires WellFormed(al, p, b1, b2)
    ensures var a := ActAt(al, p);
            && !a.Unsupported?
            && (!IsEnd(a) ==> WellFormed(al, p + Len(a), if IsLit(a) then a.b else -1, if IsLit(a) then b1 else -1))
  {
  }

  lemma StepRest(al: seq<Byte>, p: int, rest: seq<int>)
    requires ArgsFit(al, p, rest) && !ActAt(al, p).Unsupported? && !IsEnd(ActAt(al, p))
    ensures var a := ActAt(al, p);
            && (TakesArg(a) ==> |rest| > 0)
            && ArgsFit(al, p + Len(a), if TakesArg(a) then rest[1..] else rest)
            && SlotsFrom(al, p) == Slots(a) + SlotsFrom(al, p + Len(a))
  {
  }

  lemma ProgressEnd(al: seq<Byte>, I0: seq<Item>, ev0: seq<Event>, ev: seq<Event>, all: seq<Item>,
                    done: seq<Item>, p: int, rest: seq<int>, pos: int, ofs: int, pos0: int)
    requires Progress(al, I0, ev0, ev, all, done, p, rest, pos, ofs, pos0) && IsEnd(ActAt(al, p))
    ensures all == done + [Item(pos, ofs, p, ActAt(al, p), 0)] && ev == ev0 + EventsOf(all) == ev0 + EventsOf(done)
    ensures pos <= pos0 + MAXSECPOS
    ensures forall s :: SectionAfter(all, s) == SectionAfter([Item(pos, ofs, p, ActAt(al, p), 0)], s)
    ensures I0 + all == I0 + done + [Item(pos, ofs, p, ActAt(al, p), 0)]
  {
    var it := Item(pos, ofs, p, ActAt(al, p), 0);
    StepItems(al, p, rest, pos, ofs);
    EventsOfAppend(done, it);
    EventsOfOne(it);
  }

  // The range checks of dasm_put: immediates fit their width, label numbers are
  // in the tables, and a backward reference to a local label needs a definition.
  predicate InRange(v: View, it: Item) {
    && (it.act.Imm? ==> ImmInRange(it.act.kind, it.arg))
    && (IsRef(it.act) || IsLabel(it.act) ==> ValidLab(v, EventOf(it).lab))
    && (IsRef(it.act) && EventOf(it).Ref? && IsLow(EventOf(it).lab) ==>
          ValidLab(v, EventOf(it).lab) && Entry(v, EventOf(it).lab) < 0)
  }

  // -- Which puts fail -------------------------------------------------------

  // The label is taken up again by a forward reference, or forgotten.
  predicate Reopens(e: Event, l: Lab) { (e.Reset? && IsLocal(l)) || (e.Fwd? && e.lab == l) }

  // There is a definition to refer back to.
  ghost predicate Behind(ev: seq<Event>, l: Lab) {
    exists j :: 0 <= j < |ev| && ev[j].Def? && ev[j].lab == l && forall m :: j < m < |ev| ==> !Reopens(ev[m], l)
  }

  // The action stored as `it` after the events ev is accepted, with nlg, npc and nsec
  // table entries: operands fit, labels and sections exist, and a backward reference
  // to a local label finds one.
  ghost predicate Admits(nlg: nat, npc: nat, nsec: nat, ev: seq<Event>, it: Item) {
    match it.act
    case Imm(k) =>
      && (k == ImmS ==> -128 <= it.arg <= 127) && (k == ImmB ==> 0 <= it.arg <= 255)
      && (k == ImmW ==> 0 <= it.arg <= 65535) && (k == ImmWB ==> -128 <= it.arg <= 65535)
    case RelLG(n) => n <= 246 ==> n < nlg && (n < 10 ==> Behind(ev, LG(n)))
    case ImmLG(n) => n <= 246 ==> n < nlg && (n < 10 ==> Behind(ev, LG(n)))
    case LabLG(n) => n < nlg
    case RelPC => 0 <= it.arg < npc
    case ImmPC => 0 <= it.arg < npc
    case LabPC => 0 <= it.arg < npc
    case Section(n) => n < nsec
    case _ => true
  }

  // The status if it is not: what is wrong and where in the action list.
  function Fault(it: Item): Status {
    match it.act
    case Imm(_) => RangeI(it.ap)
    case RelLG(_) => RangeLG(it.ap + 1)
    case ImmLG(_) => RangeLG(it.ap + 1)
    case LabLG(_) => RangeLG(it.ap + 1)
    case Section(_) => RangeSec(it.ap)
    case _ => RangePC(it.ap)
  }

  // Items before k of a put that follows the events ev are accepted.
  ghost predicate AdmitsTo(nlg: nat, npc: nat, nsec: nat, ev: seq<Event>, put: seq<Item>, k: nat) {
    forall m :: 0 <= m < k && m < |put| ==> Admits(nlg, npc, nsec, ev + EventsOf(put[..m]), put[m])
  }

  // Item k is the first one that is not, and the status says so.
  ghost predicate FailsAt(nlg: nat, npc: nat, nsec: nat, ev: seq<Event>, put: seq<Item>, k: nat, st: Status) {
    && k < |put| && AdmitsTo(nlg, npc, nsec, ev, put, k) && !Admits(nlg, npc, nsec, ev + EventsOf(put[..k]), put[k])
    && st == Fault(put[k])
  }

  ghost predicate PutStatus(nlg: nat, npc: nat, nsec: nat, ev: seq<Event>, put: seq<Item>, st: Status) {
    if AdmitsTo(nlg, npc, nsec, ev, put, |put|) then st.OK?
    else exists k: nat :: FailsAt(nlg, npc, nsec, ev, put, k, st)
  }

  lemma {:induction false} BehindIs(ev: seq<Event>, l: Lab)
    ensures Behind(ev, l) <==> StateOf(ev, l).Defined?
  {
    if |ev| > 0 {
      var n := |ev| - 1;
      var p, e := ev[..n], ev[n];
      BehindIs(p, l);
      if Behind(p, l) && !Reopens(e, l) {
        var j :| 0 <= j < n && p[j].Def? && p[j].lab == l && forall m :: j < m < n ==> !Reopens(p[m], l);
        assert forall m :: j < m < |ev| ==> !Reopens(ev[m], l);
        assert Behind(ev, l);
      }
      if Behind(ev, l) && !(e.Def? && e.lab == l) {
        var j :| 0 <= j < |ev| && ev[j].Def? && ev[j].lab == l && forall m :: j < m < |ev| ==> !Reopens(ev[m], l);
        assert p[j] == ev[j] && forall m :: j < m < n ==> p[m] == ev[m];
        assert Behind(p, l) && !Reopens(e, l);
      }
    }
  }

  lemma AdmitsIs(v: View, nsec: nat, it: Item)
    requires Inv(v) && !IsEnd(it.act) && |v.lg| >= 10
    ensures Admits(|v.lg|, |v.pc|, nsec, v.events, it) <==> InRange(v, it)
  {
    hide Inv;
    if it.act.RelLG? || it.act.ImmLG? {
      var n := it.act.n;
      if n < |v.lg| {
        EntryOfDefined(v, LG(n));
        BehindIs(v.events, LG(n));
      }
    }
    hide Behind, StateOf;
  }

  lemma EntryOfDefined(v: View, l: Lab)
    requires Inv(v) && ValidLab(v, l)
    ensures Entry(v, l) < 0 <==> StateOf(v.events, l).Defined?
  {
    EntrySign(v, l);
  }

  lemma AdmitsNone(nlg: nat, npc: nat, nsec: nat, ev: seq<Event>, first: Item, put: seq<Item>)
    requires first.act.Begin?
    ensures AdmitsTo(nlg, npc, nsec, ev, [first] + put, 1)
  {
  }

  lemma AdmitsAll(nlg: nat, npc: nat, nsec: nat, ev: seq<Event>, put: seq<Item>, st: Status)
    requires AdmitsTo(nlg, npc, nsec, ev, put, |put|) && st.OK?
    ensures PutStatus(nlg, npc, nsec, ev, put, st)
  {
    hide AdmitsTo;
  }

  // What a put that is in progress stores next.
  lemma ProgressItem(al: seq<Byte>, I0: seq<Item>, ev0: seq<Event>, ev: seq<Event>, all: seq<Item>,
                     done: seq<Item>, p: int, rest: seq<int>, pos: int, ofs: int, pos0: int) returns (more: seq<Item>)
    requires Progress(al, I0, ev0, ev, all, done, p, rest, pos, ofs, pos0)
    requires TakesArg(ActAt(al, p)) ==> |rest| > 0
    ensures all == done + [Item(pos, ofs, p, ActAt(al, p), if TakesArg(ActAt(al, p)) then rest[0] else 0)] + more
    ensures ev == ev0 + EventsOf(done)
  {
    hide ActAt, PutItems, WellFormed, SlotsFrom, EventsOf, LitBefore, LitAt, OpcodeOk;
    ProgressNow(al, I0, ev0, ev, all, done, p, rest, pos, ofs, pos0);
    StepItems(al, p, rest, pos, ofs);
    more := PutItems(al, p, rest, pos, ofs)[1..];
  }

  // One more item has been accepted, or the put ends here.
  lemma AdmitsNext(nlg: nat, npc: nat, nsec: nat, ev: seq<Event>, put: seq<Item>, done: seq<Item>, it: Item,
                   rest: seq<Item>, st: Status)
    requires put == done + [it] + rest && AdmitsTo(nlg, npc, nsec, ev, put, |done|)
    requires st.OK? <==> Admits(nlg, npc, nsec, ev + EventsOf(done), it)
    requires !st.OK? ==> st == Fault(it)
    ensures if st.OK? then AdmitsTo(nlg, npc, nsec, ev, put, |done| + 1) else PutStatus(nlg, npc, nsec, ev, put, st)
  {
    hide Admits, Fault, EventsOf;
    assert put[..|done|] == done && put[|done|] == it;
    if !st.OK? { assert FailsAt(nlg, npc, nsec, ev, put, |done|, st); }
  }

  // The buffer has room for position q.
  predicate InBuf(secs: seq<SecRec>, q: int) {
    0 <= q && SecOf(q) < |secs| && q - Base(SecOf(q)) < secs[SecOf(q)].bsize / 4
  }

  predicate RoomOk(s: nat, sec: SecRec) {
    && sec.pos - Base(s) <= sec.bsize / 4
    && (sec.pos < sec.epos ==> sec.epos + MAXSECPOS <= Base(s) + sec.bsize / 4)
  }

  // All sections have sound buffer bounds, and all but s are between puts.
  ghost predicate OthersOk(secs: seq<SecRec>, ends: seq<End>, s: nat) {
    |secs| == |ends| &&
    forall r :: 0 <= r < |secs| ==>
      RoomOk(r, secs[r]) && (r != s ==> ends[r] == End(secs[r].pos, secs[r].ofs, -1))
  }

  // The growth policy of DASM_M_GROW.
  method GrowSize(sz: nat, need: nat) returns (r: nat)
    ensures r >= sz && r >= need && (sz % 4 == 0 ==> r % 4 == 0)
  {
    r := sz;
    if r < need {
      if r < 16 { r := 16; }
      while r < need
        invariant r >= sz && r >= 16 && (sz % 4 == 0 ==> r % 4 == 0)
        decreases need - r
      {
        r := r + r;
      }
    }
  }

  class Encoder {
    var actionlist: seq<Byte>
    var lglabels: seq<int>
    var pclabels: seq<int>
    var globals: seq<int>
    var section: nat
    var codesize: int
    var status: Status
    var sections: seq<SecRec>
    var cells: map<int, int>

    ghost var items: seq<seq<Item>>
    ghost var ends: seq<End>
    ghost var links: set<int>
    ghost var events: seq<Event>

    ghost function V(): View
      reads this
    {
      View(actionlist, cells, lglabels, pclabels, items, ends, links, events)
    }

    ghost predicate Tables()
      reads this
    {
      |lglabels| == |globals| >= 10 && section < |sections| == |ends| == |items|
    }

    // Between two puts.
    ghost predicate Valid()
      reads this
    {
      && Inv(V()) && Tables()
      && (forall s :: 0 <= s < |sections| ==>
            RoomOk(s, sections[s]) && ends[s] == End(sections[s].pos, sections[s].ofs, -1))
    }

    // Inside a put to section s that has reached (pos, ofs, ap).
    ghost predicate Mid(s: nat, pos: int, ofs: int, ap: int)
      reads this
    {
      && Inv(V()) && Tables() && s == section
      && ends[s] == End(pos, ofs, ap)
      && OthersOk(sections, ends, s)
    }

    // dasm_init, dasm_setupglobal, dasm_growpc and dasm_setup for `maxsection`
    // sections, `nlg` local/global and `npc` PC label entries.
    constructor (maxsection: nat, nlg: nat, npc: nat, gl: seq<int>, al: seq<Byte>)
      requires 1 <= maxsection <= 127 && nlg >= 10 && |gl| == nlg
      ensures Valid() && status.OK? && actionlist == al && globals == gl
      ensures |sections| == maxsection && section == 0 && |lglabels| == nlg && |pclabels| == npc
      ensures events == [] && items == seq(maxsection, _ => [])
    {
      actionlist := al;
      status := OK;
      section := 0;
      codesize := 0;
      lglabels := seq(nlg, _ => 0);
      pclabels := seq(npc, _ => 0);
      globals := gl;
      sections := seq(maxsection, i => SecRec(0, Base(i), 0, 0));
      cells := map[];
      items := seq(maxsection, _ => []);
      ends := seq(maxsection, i => End(Base(i), 0, -1));
      links := {};
      events := [];
    }

    method StoreCell(q: int, x: int)
      requires InBuf(sections, q)
      modifies this`cells
      ensures cells == old(cells)[q := x]
    {
      cells := cells[q := x];
    }

    predicate InTables(l: Lab)
      reads this
    {
      LabIn(lglabels, pclabels, l)
    }

    function GetEntry(l: Lab): int
      requires InTables(l)
      reads this
    {
      EntryIn(lglabels, pclabels, l)
    }

    method SetEntry(l: Lab, x: int)
      requires InTables(l)
      modifies this`lglabels, this`pclabels
      ensures lglabels == LgWith(old(lglabels), l, x) && pclabels == PcWith(old(pclabels), l, x)
    {
      match l {
        case LG(n) => lglabels := lglabels[n := x];
        case PC(n) => pclabels := pclabels[n := x];
      }
    }

    // Records an item without a label.
    ghost method Record(s: nat, it: Item)
      requires s < |items| == |ends|
      modifies this`items, this`ends
      ensures items == old(items)[s := old(items)[s] + [it]] && ends == old(ends)[s := After(it)]
      ensures OthersOk(sections, old(ends), s) ==> OthersOk(sections, ends, s)
    {
      items := items[s := items[s] + [it]];
      ends := ends[s := After(it)];
    }

    // Actions without a label: literal bytes, immediates, fill, alignment.
    method PutPlain(s: nat, pos: int, ofs: int, p: int, arg: int) returns (npos: int, nofs: int)
      requires Mid(s, pos, ofs, p) && status.OK? && p >= 0
      requires var a := ActAt(actionlist, p);
               (IsLit(a) || a.Imm? || a.Space? || a.Align?) && (a.Space? ==> arg >= 0) && (a.Align? ==> IsMask(a.mask))
      requires OpcodeOk(items[s] + [Item(pos, ofs, p, ActAt(actionlist, p), arg)], |items[s]|)
      requires (Slots(ActAt(actionlist, p)) > 0 ==> InBuf(sections, pos)) && pos + 1 < Base(s + 1)
      modifies this`cells, this`status, this`items, this`ends
      ensures unchanged(this`lglabels) && unchanged(this`pclabels)
      ensures status.OK? <==> InRange(old(V()), Item(pos, ofs, p, ActAt(actionlist, p), arg))
      ensures !status.OK? ==> status == Fault(Item(pos, ofs, p, ActAt(actionlist, p), arg))
      ensures status.OK? ==>
                var it := Item(pos, ofs, p, ActAt(actionlist, p), arg);
                && Mid(s, npos, nofs, p + Len(it.act)) && After(it) == End(npos, nofs, p + Len(it.act))
                && items == old(items)[s := old(items)[s] + [it]]
    {
      hide Inv, OthersOk, CanStore, AgreeUsed, OpcodeOk, ImmInRange, ImmSize, ActAt;
      var a := ActAt(actionlist, p);
      npos, nofs := pos, ofs;
      ghost var v := V();
      match a {
        case Lit(_) | Esc(_) => nofs := ofs + 1;
        case Imm(k) =>
          StoreCell(pos, arg);
          npos := pos + 1;
          if !ImmInRange(k, arg) {
            status := RangeI(p);
            return;
          }
          nofs := ofs + ImmSize(k, arg);
        case Space(_) =>
          StoreCell(pos, arg);
          npos, nofs := pos + 1, ofs + arg;
        case Align(m) =>
          nofs := ofs + m;
          StoreCell(pos, nofs);
          npos := pos + 1;
      }
      ghost var it := Item(pos, ofs, p, a, arg);
      assert V().(items := v.items) == v.(cells := cells);
      PlainStorable(v, s, it, cells);
      StorePlain(v, s, it, cells);
      Record(s, it);
      assert V() == Store(v, s, it, cells);
    }

    // The range checks on a reference.
    method CheckRef(it: Item)
      requires IsRef(it.act) && |lglabels| >= 10 && status.OK?
      modifies this`status
      ensures status.OK? <==> InRange(V(), it)
      ensures !status.OK? ==> status == Fault(it)
      ensures status.OK? ==> InTables(EventOf(it).lab) && IsReference(EventOf(it)) && EventOf(it).pos == it.pos
    {
      var a := it.act;
      if a.RelLG? || a.ImmLG? {
        if a.n <= 246 && ((a.n < 10 && lglabels[a.n] >= 0) || a.n >= |lglabels|) {
          status := RangeLG(it.ap + 1);
        }
      } else if !(0 <= it.arg < |pclabels|) {
        status := RangePC(it.ap);
      }
    }

    // putrel and linkrel: fill the link cell.
    method LinkRef(pos: int, e: Event)
      requires IsReference(e) && e.pos == pos && InTables(e.lab) && InBuf(sections, pos)
      modifies this`cells, this`lglabels, this`pclabels
      ensures cells == old(cells)[pos := LinkCell(e, old(GetEntry(e.lab)))]
      ensures lglabels == LgWith(old(lglabels), e.lab, LinkEntry(e, old(GetEntry(e.lab))))
      ensures pclabels == PcWith(old(pclabels), e.lab, LinkEntry(e, old(GetEntry(e.lab))))
    {
      var n := GetEntry(e.lab);
      if e.Fwd? && n < 0 { n := 0; }
      if n < 0 {
        StoreCell(pos, -n);
      } else {
        StoreCell(pos, n);
        SetEntry(e.lab, pos);
      }
    }

    // References: store the label's position or link the cell into its chain.
    method PutRef(s: nat, pos: int, ofs: int, p: int, arg: int) returns (npos: int, nofs: int)
      requires status.OK? && p >= 0 && pos > 0 && s < |items|
      requires IsRef(ActAt(actionlist, p))
      requires OpcodeOk(items[s] + [Item(pos, ofs, p, ActAt(actionlist, p), arg)], |items[s]|)
      requires InBuf(sections, pos) && pos + 2 < Base(s + 1)
      requires IsRel(ActAt(actionlist, p)) ==> InBuf(sections, pos + 1)
      requires Mid(s, pos, ofs, p)
      modifies this`cells, this`status, this`items, this`ends, this`links, this`events, this`lglabels, this`pclabels
      ensures |lglabels| == |old(lglabels)| && |pclabels| == |old(pclabels)|
      ensures status.OK? ==>
                var it := Item(pos, ofs, p, ActAt(actionlist, p), arg);
                && Mid(s, npos, nofs, p + Len(it.act)) && After(it) == End(npos, nofs, p + Len(it.act))
                && items == old(items)[s := old(items)[s] + [it]]
                && events == old(events) + [EventOf(it)]
      ensures status.OK? <==> InRange(old(V()), Item(pos, ofs, p, ActAt(actionlist, p), arg))
      ensures !status.OK? ==> status == Fault(Item(pos, ofs, p, ActAt(actionlist, p), arg))
    {
      hide Inv, OthersOk, CanStore, OpcodeOk, ActAt, LinkCell, LinkEntry, LgWith, PcWith, InBuf, InRange, EventOf,
        LabIn, EntryIn, Base, SecOf, ImmSize, ImmInRange;
      npos, nofs := pos, ofs;
      ghost var v := V();
      var it := Item(pos, ofs, p, ActAt(actionlist, p), arg);
      CheckRef(it);
      if !status.OK? { return; }
      LinkRef(pos, EventOf(it));
      npos, nofs := pos + 1, ofs + 4;
      if IsRel(it.act) {
        StoreCell(npos, nofs);
        npos := npos + 1;
      }
      RefStep(v, s, it, cells);
      Record(s, it);
      links := links + {pos};
      events := events + [EventOf(it)];
      assert V() == StoreRefView(v, s, it, cells);
    }

    // Collapses the chain that starts at n: every cell gets x.
    method Collapse(n: int, x: int, ghost c: seq<int>)
      requires ChainOk(cells, c) && (if c == [] then n <= 0 else n == c[0])
      requires forall i, j :: 0 <= i < j < |c| ==> c[i] != c[j]
      requires forall q :: q in c ==> q > 0 && InBuf(sections, q)
      modifies this`cells
      ensures cells == Fill(old(cells), c, x)
    {
      var m := n;
      ghost var k := 0;
      assert cells == Fill(cells, c[..0], x);
      while m > 0
        invariant 0 <= k <= |c|
        invariant cells == Fill(old(cells), c[..k], x)
        invariant if k < |c| then m == c[k] else m <= 0
        decreases |c| - k
      {
        var q := m;
        assert q == c[k] && q in c && q in old(cells);
        assert q !in c[..k];
        m := cells[q];
        StoreCell(q, x);
        FillSnoc(old(cells), c, k, x);
        k := k + 1;
      }
      assert k < |c| ==> m in c;
      assert c[..k] == c;
    }

    // Labels: resolve the chain and note the definition.
    method PutLabel(s: nat, pos: int, ofs: int, p: int, arg: int) returns (npos: int, nofs: int)
      requires status.OK? && p >= 0 && pos > 0 && s < |items|
      requires IsLabel(ActAt(actionlist, p))
      requires InBuf(sections, pos) && pos + 1 < Base(s + 1)
      requires Mid(s, pos, ofs, p)
      modifies this`cells, this`status, this`items, this`ends, this`events, this`lglabels, this`pclabels
      ensures |lglabels| == |old(lglabels)| && |pclabels| == |old(pclabels)|
      ensures status.OK? ==>
                var it := Item(pos, ofs, p, ActAt(actionlist, p), arg);
                && Mid(s, npos, nofs, p + Len(it.act)) && After(it) == End(npos, nofs, p + Len(it.act))
                && items == old(items)[s := old(items)[s] + [it]]
                && events == old(events) + [EventOf(it)]
      ensures status.OK? <==> InRange(old(V()), Item(pos, ofs, p, ActAt(actionlist, p), arg))
      ensures !status.OK? ==> status == Fault(Item(pos, ofs, p, ActAt(actionlist, p), arg))
    {
      hide Inv, OthersOk, CanStore, OpcodeOk, ActAt, LgWith, PcWith, ChainOk, InBuf, Fill, ChainOf, StateOf, Used,
        EntryIn, Base, SecOf, ImmSize, ImmInRange;
      npos, nofs := pos, ofs;
      ghost var v := V();
      var it := Item(pos, ofs, p, ActAt(actionlist, p), arg);
      var l := EventOf(it).lab;
      if !InTables(l) {
        status := if it.act.LabLG? then RangeLG(p + 1) else RangePC(p);
        return;
      }
      ChainReady(v, l);
      assert GetEntry(l) == Entry(v, l);
      UsedInBuf(s, pos, ofs, p);
      Collapse(GetEntry(l), pos, ChainOf(v, l));
      SetEntry(l, -pos);
      StoreCell(pos, ofs);
      npos := pos + 1;
      LabelStep(v, s, it);
      Record(s, it);
      events := events + [EventOf(it)];
      assert V() == StoreDefView(v, s, it);
    }

    // Used positions lie inside the buffers.
    lemma UsedInBuf(s: nat, pos: int, ofs: int, p: int)
      requires Mid(s, pos, ofs, p) && InBuf(sections, pos)
      ensures forall q :: Used(ends, q) ==> InBuf(sections, q)
    {
      hide HistoryInv, Resolved, TableInv, Lays;
      assert forall r :: 0 <= r < |sections| ==> RoomOk(r, sections[r]);
      forall q | Used(ends, q)
        ensures InBuf(sections, q)
      {
        var r :| 0 <= r < |ends| && InSection(ends, r, q);
        EndInSection(V(), r);
        EndInSection(V(), s);
        PosOfSection(r, q);
        PosOfSection(s, pos);
      }
    }

    // The buffer growth at the start of dasm_put, and the slot for `start`.
    method BeginPut(start: nat) returns (pos: int)
      requires Valid() && status.OK?
      requires sections[section].pos + MAXSECPOS < Base(section + 1)
      modifies this`cells, this`sections, this`items, this`ends
      ensures Mid(section, pos, old(sections[section].ofs), start)
      ensures pos == old(sections[section].pos) + 1 && sections[section].pos == old(sections[section].pos)
      ensures |sections| == |old(sections)|
      ensures pos - 1 + MAXSECPOS <= Base(section) + sections[section].bsize / 4
      ensures items == old(items)[section := old(items[section]) + [BeginItem(start, old(sections[section]))]]
    {
      hide Inv, CanStore, OpcodeOk;
      var s := section;
      var sec := sections[s];
      pos := sec.pos;
      SectionBounds(s);
      if pos >= sec.epos {
        var bs := GrowSize(sec.bsize, sec.bsize + 2 * MAXSECPOS * 4);
        sections := sections[s := sec.(bsize := bs, epos := bs / 4 - MAXSECPOS + Base(SecOf(pos)))];
      }
      ghost var it := BeginItem(start, sec);
      ghost var v := V();
      StoreCell(pos, start);
      pos := pos + 1;
      BeginStep(v, s, it, cells);
      Record(s, it);
      assert V() == Store(v, s, it, cells);
    }

    lemma SectionBounds(s: nat)
      requires Valid() && s < |sections|
      ensures Base(s) <= sections[s].pos < Base(s + 1) && SecOf(sections[s].pos) == s
      ensures ends[s] == End(sections[s].pos, sections[s].ofs, -1) && RoomOk(s, sections[s])
    {
      EndInSection(V(), s);
    }

    // One action other than an end.
    method PutAction(s: nat, pos: int, ofs: int, p: int, arg: int) returns (npos: int, nofs: int)
      requires status.OK? && p >= 0 && pos > 0 && s < |items| && s < |sections|
      requires var a := ActAt(actionlist, p);
               !a.Unsupported? && !IsEnd(a) && (a.Space? ==> arg >= 0) && (a.Align? ==> IsMask(a.mask))
      requires OpcodeOk(items[s] + [Item(pos, ofs, p, ActAt(actionlist, p), arg)], |items[s]|)
      requires pos + Slots(ActAt(actionlist, p)) <= Base(s) + sections[s].bsize / 4
      requires Base(s) <= pos && pos + 2 < Base(s + 1)
      requires Mid(s, pos, ofs, p)
      modifies this`cells, this`status, this`items, this`ends, this`links, this`events, this`lglabels, this`pclabels
      ensures |lglabels| == |old(lglabels)| && |pclabels| == |old(pclabels)|
      ensures status.OK? <==> InRange(old(V()), Item(pos, ofs, p, ActAt(actionlist, p), arg))
      ensures !status.OK? ==> status == Fault(Item(pos, ofs, p, ActAt(actionlist, p), arg))
      ensures status.OK? ==>
                var it := Item(pos, ofs, p, ActAt(actionlist, p), arg);
                && Mid(s, npos, nofs, p + Len(it.act)) && After(it) == End(npos, nofs, p + Len(it.act))
                && items == old(items)[s := old(items)[s] + [it]]
                && events == old(events) + EventsOf([it])
    {
      hide Inv, OthersOk, OpcodeOk, InRange, ImmInRange, ImmSize, EventsOf, EventOf, InBuf, After, MaxSize;
      RoomForSlots(s, pos);
      EventsOfOne(Item(pos, ofs, p, ActAt(actionlist, p), arg));
      var a := ActAt(actionlist, p);
      if IsRef(a) {
        npos, nofs := PutRef(s, pos, ofs, p, arg);
      } else if IsLabel(a) {
        npos, nofs := PutLabel(s, pos, ofs, p, arg);
      } else {
        npos, nofs := PutPlain(s, pos, ofs, p, arg);
      }
    }

    // The end of a put: note the end, switch sections if asked to, and commit.
    method FinishPut(s: nat, pos: int, ofs: int, p: int)
      requires status.OK? && p >= 0 && s < |items| && s < |sections| && IsEnd(ActAt(actionlist, p))
      requires sections[s].pos <= pos <= Base(s) + sections[s].bsize / 4
      requires Mid(s, pos, ofs, p)
      modifies this`status, this`items, this`ends, this`section, this`sections
      ensures |sections| == |old(sections)|
      ensures var it := Item(pos, ofs, p, ActAt(actionlist, p), 0);
              (status.OK? <==> Admits(|lglabels|, |pclabels|, |old(sections)|, events, it))
              && (!status.OK? ==> status == Fault(it))
      ensures status.OK? ==>
                var it := Item(pos, ofs, p, ActAt(actionlist, p), 0);
                && Valid() && items == old(items)[s := old(items)[s] + [it]]
                && section == SectionAfter([it], s)
    {
      hide Inv, ActAt;
      var a := ActAt(actionlist, p);
      if a.Section? {
        if a.n >= |sections| {
          status := RangeSec(p);
          return;
        }
        section := a.n;
      }
      ghost var it := Item(pos, ofs, p, a, 0);
      ghost var v := V();
      EndStep(v, s, it);
      Record(s, it);
      assert V() == Store(v, s, it, cells);
      sections := sections[s := sections[s].(pos := pos, ofs := ofs)];
    }

    lemma RoomForSlots(s: nat, pos: int)
      requires s < |sections| && Base(s) <= pos
      ensures forall q :: pos <= q < Base(s) + sections[s].bsize / 4 && q < Base(s + 1) ==> InBuf(sections, q)
    {
      forall q | pos <= q < Base(s) + sections[s].bsize / 4 && q < Base(s + 1)
        ensures InBuf(sections, q)
      {
        PosOfSection(s, q);
      }
    }

    // One action of a put that takes its arguments from rest.
    method PutNext(s: nat, pos: int, ofs: int, p: int, rest: seq<int>, ghost I0: seq<Item>, ghost ev0: seq<Event>,
                   ghost all: seq<Item>,
                   ghost done: seq<Item>, ghost pos0: int)
      returns (npos: int, nofs: int, np: int, nrest: seq<int>, ghost ndone: seq<Item>)
      requires status.OK? && p >= 0 && s < |items| && s < |sections| && Mid(s, pos, ofs, p)
               && !IsEnd(ActAt(actionlist, p))
      requires items[s] == I0 + done && Progress(actionlist, I0, ev0, events, all, done, p, rest, pos, ofs, pos0)
      requires Base(s) <= pos0 < pos && pos0 + MAXSECPOS <= Base(s) + sections[s].bsize / 4
               && pos0 + MAXSECPOS + 2 < Base(s + 1)
      requires AdmitsTo(|lglabels|, |pclabels|, |sections|, ev0, all, |done|)
      modifies this`cells, this`status, this`items, this`ends, this`links, this`events, this`lglabels, this`pclabels
      ensures |lglabels| == |old(lglabels)| && |pclabels| == |old(pclabels)|
      ensures if status.OK? then AdmitsTo(|lglabels|, |pclabels|, |sections|, ev0, all, |ndone|)
              else PutStatus(|lglabels|, |pclabels|, |sections|, ev0, all, status)
      ensures status.OK? ==>
                && Mid(s, npos, nofs, np) && p < |actionlist| && np > p && pos <= npos
                   && items == old(items)[s := I0 + ndone]
                && Progress(actionlist, I0, ev0, events, all, ndone, np, nrest, npos, nofs, pos0)
    {
      hide Inv, OthersOk, OpcodeOk, InRange, EventsOf, PutItems, After, WellFormed, ArgsFit, SlotsFrom, Progress, ActAt,
        Mid, AdmitsTo, PutStatus, Admits, Fault;
      var a := ActAt(actionlist, p);
      ProgressNow(actionlist, I0, ev0, events, all, done, p, rest, pos, ofs, pos0);
      var arg := if TakesArg(a) then rest[0] else 0;
      ghost var ev, it := events, Item(pos, ofs, p, a, arg);
      np, nrest, ndone := p, rest, done;
      AdmitsHere(s, pos, ofs, p, it);
      npos, nofs := PutAction(s, pos, ofs, p, arg);
      ghost var more := ProgressItem(actionlist, I0, ev0, ev, all, done, p, rest, pos, ofs, pos0);
      AdmitsNext(|lglabels|, |pclabels|, |sections|, ev0, all, done, it, more, status);
      if !status.OK? { return; }
      ProgressStep(actionlist, I0, ev0, ev, all, done, p, rest, pos, ofs, pos0);
      ndone := done + [it];
      nrest := if TakesArg(a) then rest[1..] else rest;
      np := p + Len(a);
    }

    lemma AdmitsHere(s: nat, pos: int, ofs: int, p: int, it: Item)
      requires Mid(s, pos, ofs, p) && !IsEnd(it.act)
      ensures Admits(|lglabels|, |pclabels|, |sections|, events, it) <==> InRange(V(), it)
    {
      AdmitsIs(V(), |sections|, it);
    }

    // dasm_put: one call stores its start offset and all its actions.
    method Put(start: nat, args: seq<int>)
      requires Valid() && status.OK?
      requires WellFormed(actionlist, start, -1, -1) && ArgsFit(actionlist, start, args)
      requires 1 + SlotsFrom(actionlist, start) <= MAXSECPOS
      requires sections[section].pos + MAXSECPOS + 2 < Base(section + 1)
      modifies this
      ensures actionlist == old(actionlist) && globals == old(globals)
      ensures |lglabels| == |old(lglabels)| && |pclabels| == |old(pclabels)| && |sections| == |old(sections)|
      ensures var sec := old(sections[section]);
              var put := [BeginItem(start, sec)] + PutItems(actionlist, start, args, sec.pos + 1, sec.ofs);
              PutStatus(|lglabels|, |pclabels|, |sections|, old(events), put, status)
      ensures status.OK? ==>
                var s, sec := old(section), old(sections[section]);
                var put := [BeginItem(start, sec)] + PutItems(actionlist, start, args, sec.pos + 1, sec.ofs);
                && Valid()
                && items == old(items)[s := old(items[s]) + put]
                && events == old(events) + EventsOf(put)
                && section == SectionAfter(put, s)
    {
      hide Inv, OthersOk, OpcodeOk, InRange, EventsOf, PutItems, After, WellFormed, ArgsFit, SlotsFrom, Progress, ActAt,
        AdmitsTo, PutStatus, Admits, Fault;
      var s := section;
      ghost var sec := sections[s];
      ghost var I0, ev0 := items[s], events;
      SectionBounds(s);
      var ofs := sections[s].ofs;
      var pos := BeginPut(start);
      var p, rest := start, args;
      ghost var first := BeginItem(start, sec);
      ghost var done := [first];
      ghost var goal := PutItems(actionlist, start, args, pos, ofs);
      ProgressStart(actionlist, I0, ev0, first, args);
      AdmitsNone(|lglabels|, |pclabels|, |sections|, ev0, first, goal);
      while !IsEnd(ActAt(actionlist, p))
        invariant status.OK? && s == section && Mid(s, pos, ofs, p) && p >= 0
        invariant actionlist == old(actionlist) && globals == old(globals)
        invariant |lglabels| == |old(lglabels)| && |pclabels| == |old(pclabels)| && |sections| == |old(sections)|
        invariant items == old(items)[s := I0 + done]
        invariant AdmitsTo(|lglabels|, |pclabels|, |sections|, ev0, [first] + goal, |done|)
        invariant Progress(actionlist, I0, ev0, events, [first] + goal, done, p, rest, pos, ofs, sec.pos)
        invariant Base(s) <= sec.pos == sections[s].pos < pos
        invariant sec.pos + MAXSECPOS <= Base(s) + sections[s].bsize / 4
        decreases |actionlist| - p
      {
        pos, ofs, p, rest, done := PutNext(s, pos, ofs, p, rest, I0, ev0, [first] + goal, done, sec.pos);
        if !status.OK? { return; }
      }
      ProgressEnd(actionlist, I0, ev0, events, [first] + goal, done, p, rest, pos, ofs, sec.pos);
      ghost var last := Item(pos, ofs, p, ActAt(actionlist, p), 0);
      FinishPut(s, pos, ofs, p);
      AdmitsNext(|lglabels|, |pclabels|, |sections|, ev0, [first] + goal, done, last, [], status);
      if status.OK? { AdmitsAll(|lglabels|, |pclabels|, |sections|, ev0, [first] + goal, status); }
    }

    // dasm_checkstep: no forward reference to a local label may be left over
    // and, if secmatch >= 0, that section must be active.
    method CheckStep(secmatch: int) returns (st: Status)
      requires status.OK? ==> Valid()
      requires secmatch < |sections|
      modifies this`lglabels, this`status, this`events
      ensures st == status
      ensures !old(status).OK? ==> status == old(status)
      ensures old(status).OK? ==>
                (status.OK? <==> (forall n :: 1 <= n <= 9 ==> old(lglabels)[n] <= 0)
                                 && (secmatch >= 0 ==> section == secmatch))
      ensures old(status).OK? && !status.OK? ==>
                if forall n :: 1 <= n <= 9 ==> old(lglabels)[n] <= 0 then status == MatchSec(section)
                else status.UndefL? && 1 <= status.n <= 9 && old(lglabels)[status.n] > 0
                     && forall n :: 1 <= n < status.n ==> old(lglabels)[n] <= 0
      ensures status.OK? ==> Valid() && V() == ResetLocals(old(V())) && forall n :: 1 <= n <= 9 ==> lglabels[n] == 0
    {
      hide Inv;
      if status.OK? {
        ghost var lg := lglabels;
        var i := 1;
        while i <= 9
          invariant 1 <= i <= 10 && status.OK? && |lglabels| == |lg| >= 10 && events == old(events)
          invariant forall n :: 0 <= n < |lg| ==> lglabels[n] == if 1 <= n < i then 0 else lg[n]
          invariant forall n :: 1 <= n < i ==> lg[n] <= 0
        {
          if lglabels[i] > 0 {
            status := UndefL(i);
            break;
          }
          lglabels := lglabels[i := 0];
          i := i + 1;
        }
        if status.OK? {
          events := events + [Reset];
          assert lglabels == ResetLocals(old(V())).lg;
          ResetKeepsInv(old(V()));
          if secmatch >= 0 && section != secmatch {
            status := MatchSec(section);
          }
        }
      }
      st := status;
    }
  }

  lemma EndInSection(v: View, r: nat)
    requires LayoutInv(v) && r < |v.ends|
    ensures Base(r) <= v.ends[r].pos < Base(r + 1)
  {
    assert Lays(v.al, v.cells, v.links, r, v.items[r], v.ends[r]);
  }

  // The chain of a label, ready to be walked.
  lemma ChainReady(v: View, l: Lab)
    requires Inv(v) && ValidLab(v, l)
    ensures var c := ChainOf(v, l);
            && ChainOk(v.cells, c) && (if c == [] then Entry(v, l) <= 0 else Entry(v, l) == c[0])
            && (forall i, j :: 0 <= i < j < |c| ==> c[i] != c[j])
            && (forall q :: q in c ==> q > 0 && Used(v.ends, q))
  {
    hide LayoutInv, Resolved, WfEvents, GoodHistory;
    EntrySign(v, l);
    if StateOf(v.events, l).Pending? {
      ChainDistinct(v.events, l);
      forall q | q in ChainOf(v, l)
        ensures q > 0 && Used(v.ends, q)
      {
        ChainUsed(v, l, q);
      }
    }
  }

  lemma FillSnoc(cells: map<int, int>, c: seq<int>, k: nat, x: int)
    requires k < |c| && c[k] in cells
    ensures Fill(cells, c[..k + 1], x) == Fill(cells, c[..k], x)[c[k] := x]
  {
    var q := c[k];
    assert c[..k + 1] == c[..k] + [q];
    forall y | y in cells
      ensures y in c[..k + 1] <==> y in c[..k] || y == q
    {
    }
  }

  lemma LabelStep(v: View, s: nat, it: Item)
    requires s < |v.items| == |v.ends| && End(it.pos, it.ofs, it.ap) == v.ends[s]
    requires ActAt(v.al, it.ap) == it.act && it.ap >= 0 && it.pos > 0 && IsLabel(it.act)
    requires it.pos + 1 < Base(s + 1) && ValidLab(v, EventOf(it).lab)
    requires Inv(v)
    ensures Inv(StoreDefView(v, s, it))
  {
    hide ActAt, HistoryInv, TableInv, Resolved, Lays, Fill, ChainOf;
    assert CanStore(v, s, it, StoreDefView(v, s, it).cells);
    StoreDef(v, s, it);
  }

  function BeginItem(start: nat, sec: SecRec): Item {
    Item(sec.pos, sec.ofs, -1, Begin(start), 0)
  }

  lemma BeginStep(v: View, s: nat, it: Item, cells: map<int, int>)
    requires s < |v.items| == |v.ends| && End(it.pos, it.ofs, it.ap) == v.ends[s]
    requires it.act.Begin? && it.ap == -1 && it.arg == 0 && it.pos + 1 < Base(s + 1)
    requires cells == v.cells[it.pos := it.act.start]
    requires Inv(v)
    ensures Inv(Store(v, s, it, cells))
  {
    hide ActAt, HistoryInv, TableInv, Resolved, Lays;
    NotInLinks(v, s);
    assert CanStore(v, s, it, cells) && AgreeUsed(v, cells);
    StorePlain(v, s, it, cells);
  }

  lemma EndStep(v: View, s: nat, it: Item)
    requires s < |v.items| == |v.ends| && End(it.pos, it.ofs, it.ap) == v.ends[s]
    requires ActAt(v.al, it.ap) == it.act && it.ap >= 0 && IsEnd(it.act)
    requires Inv(v)
    ensures Inv(Store(v, s, it, v.cells))
  {
    hide ActAt, HistoryInv, TableInv, Resolved, Lays;
    EndInSection(v, s);
    assert CanStore(v, s, it, v.cells) && AgreeUsed(v, v.cells);
    StorePlain(v, s, it, v.cells);
  }

  // The cells after storing a reference.
  function RefCells(v: View, it: Item): map<int, int>
    requires IsRef(it.act) && ValidLab(v, EventOf(it).lab)
  {
    var c := v.cells[it.pos := LinkCell(EventOf(it), Entry(v, EventOf(it).lab))];
    if IsRel(it.act) then c[it.pos + 1 := it.ofs + 4] else c
  }

  lemma RefStep(v: View, s: nat, it: Item, cells: map<int, int>)
    requires s < |v.items| == |v.ends| && End(it.pos, it.ofs, it.ap) == v.ends[s]
    requires ActAt(v.al, it.ap) == it.act && it.ap >= 0 && it.pos > 0 && IsRef(it.act)
    requires OpcodeOk(v.items[s] + [it], |v.items[s]|) && it.pos + 2 < Base(s + 1)
    requires InRange(v, it) && cells == RefCells(v, it)
    requires Inv(v)
    ensures Inv(StoreRefView(v, s, it, cells))
  {
    hide ActAt, HistoryInv, TableInv, Resolved, OpcodeOk, Lays, LinkCell, Entry;
    NotInLinks(v, s);
    assert CanStore(v, s, it, cells) && AgreeUsed(v, cells);
    StoreRef(v, s, it, cells);
  }

  lemma PlainStorable(v: View, s: nat, it: Item, cells: map<int, int>)
    requires Inv(v) && s < |v.items| == |v.ends| && End(it.pos, it.ofs, it.ap) == v.ends[s]
    requires ActAt(v.al, it.ap) == it.act && it.ap >= 0
    requires IsLit(it.act) || it.act.Imm? || it.act.Space? || it.act.Align?
    requires (it.act.Space? ==> it.arg >= 0) && (it.act.Align? ==> IsMask(it.act.mask))
    requires it.act.Imm? ==> ImmInRange(it.act.kind, it.arg)
    requires OpcodeOk(v.items[s] + [it], |v.items[s]|) && it.pos + 1 < Base(s + 1)
    requires cells == if IsLit(it.act) then v.cells
                      else v.cells[it.pos := if it.act.Align? then it.ofs + it.act.mask else it.arg]
    ensures CanStore(v, s, it, cells) && AgreeUsed(v, cells)
  {
    NotInLinks(v, s);
  }
}
