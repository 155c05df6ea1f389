// The invariant of DynASM pass 1: what is stored, and that every step of
// dasm_put keeps it.
module DynasmView {
  import opened DynasmActions
  import opened DynasmStore

  // A snapshot of the encoder.  `cells` is the memory behind the biased buffer
  // pointers, indexed by position.  `links` are the cells that belong to label
  // chains; `items`, `ends` and `events` record what the puts stored.
  datatype View = View(
    al: seq<Byte>, cells: map<int, int>, lg: seq<int>, pc: seq<int>,
    items: seq<seq<Item>>, ends: seq<End>, links: set<int>, events: seq<Event>)

  predicate LabIn(lg: seq<int>, pc: seq<int>, l: Lab) {
    match l
    case LG(n) => 0 <= n < |lg|
    case PC(n) => 0 <= n < |pc|
  }

  function EntryIn(lg: seq<int>, pc: seq<int>, l: Lab): int
    requires LabIn(lg, pc, l)
  {
    match l
    case LG(n) => lg[n]
    case PC(n) => pc[n]
  }

  predicate ValidLab(v: View, l: Lab) { LabIn(v.lg, v.pc, l) }

  function Entry(v: View, l: Lab): int
    requires ValidLab(v, l)
  {
    EntryIn(v.lg, v.pc, l)
  }

  function LgWith(lg: seq<int>, l: Lab, x: int): (r: seq<int>)
    ensures |r| == |lg|
  {
    if l.LG? && 0 <= l.n < |lg| then lg[l.n := x] else lg
  }

  function PcWith(pc: seq<int>, l: Lab, x: int): (r: seq<int>)
    ensures |r| == |pc|
  {
    if l.PC? && 0 <= l.n < |pc| then pc[l.n := x] else pc
  }

  function WithEntry(v: View, l: Lab, x: int): (w: View)
    requires ValidLab(v, l)
    ensures forall m :: ValidLab(w, m) <==> ValidLab(v, m)
    ensures forall m :: ValidLab(v, m) ==> Entry(w, m) == if m == l then x else Entry(v, m)
  {
    v.(lg := LgWith(v.lg, l, x), pc := PcWith(v.pc, l, x))
  }

  // Item `it` is stored in the cells and is followed by `nx`.
  ghost predicate ItemOk(al: seq<Byte>, cells: map<int, int>, links: set<int>, it: Item, nx: End) {
    && nx.pos == it.pos + Slots(it.act)
    && nx.ofs == it.ofs + MaxSize(it.act, it.arg)
    && (it.act.Begin? <==> it.ap == -1)
    && (it.act.Begin? ==> nx.ap == it.act.start)
    && (!it.act.Begin? ==>
          && it.ap >= 0 && ActAt(al, it.ap) == it.act && !it.act.Unsupported?
          && nx.ap == if IsEnd(it.act) then -1 else it.ap + Len(it.act))
    && (it.act.Begin? ==> Data(cells, links, it.pos, it.act.start))
    && (it.act.Imm? ==> Data(cells, links, it.pos, it.arg) && ImmInRange(it.act.kind, it.arg))
    && (it.act.Space? ==> Data(cells, links, it.pos, it.arg) && it.arg >= 0)
    && (IsRef(it.act) ==> it.pos in links && it.pos in cells)
    && (IsRel(it.act) ==> Data(cells, links, it.pos + 1, nx.ofs))
    && (IsLabel(it.act) ==> Data(cells, links, it.pos, it.ofs))
    && (it.act.Align? ==> Data(cells, links, it.pos, nx.ofs) && IsMask(it.act.mask))
  }

  // A cell that holds x and is not part of any label chain.
  ghost predicate Data(cells: map<int, int>, links: set<int>, q: int, x: int) {
    q in cells && cells[q] == x && q !in links
  }

  // The literal byte stored by item k, or -1.
  function LitAt(I: seq<Item>, k: int): int {
    if 0 <= k < |I| && IsLit(I[k].act) then I[k].act.b else -1
  }

  function LitBefore(I: seq<Item>, k: int): int {
    if LitAt(I, k - 1) >= 0 then LitAt(I, k - 2) else -1
  }

  // Branches and width-selecting immediates stand behind their opcode bytes.
  predicate OpcodeOk(I: seq<Item>, k: nat)
    requires k < |I|
  {
    && (IsRel(I[k].act) ==> LitAt(I, k - 1) >= 0 && (Shrink(LitAt(I, k - 1)) == 4 ==> LitBefore(I, k) == 0x0f))
    && (I[k].act == Imm(ImmDB) || I[k].act == Imm(ImmWB) ==> LitAt(I, k - 1) >= 0 && LitBefore(I, k) >= 0)
  }

  // Section s stores the items I and ends at e.
  ghost predicate Lays(al: seq<Byte>, cells: map<int, int>, links: set<int>, s: int, I: seq<Item>, e: End) {
    && EndAt(I, e, 0) == End(Base(s), 0, -1)
    && Base(s) <= e.pos < Base(s + 1)
    && (forall k :: 0 <= k < |I| ==>
          && Base(s) <= I[k].pos && I[k].pos + Slots(I[k].act) <= e.pos
          && ItemOk(al, cells, links, I[k], EndAt(I, e, k + 1))
          && OpcodeOk(I, k))
  }

  predicate InSection(ends: seq<End>, s: int, q: int) {
    0 <= s < |ends| && Base(s) <= q < ends[s].pos
  }

  // The buffer slots the puts have filled.
  predicate Used(ends: seq<End>, q: int) {
    exists s :: 0 <= s < |ends| && InSection(ends, s, q)
  }

  function ChainNext(c: seq<int>, k: nat): int {
    if k + 1 < |c| then c[k + 1] else 0
  }

  ghost predicate ChainOk(cells: map<int, int>, c: seq<int>) {
    forall k :: 0 <= k < |c| ==> c[k] in cells && cells[c[k]] == ChainNext(c, k)
  }

  // A label table entry is 0 for an unused label, minus the position of its
  // definition, or the head of the chain of its unresolved references.
  ghost predicate EntryOk(cells: map<int, int>, st: LabState, x: int) {
    match st
    case Unused => x == 0
    case Defined(p) => x == -p
    case Pending(c) => c != [] && x == c[0] && ChainOk(cells, c)
  }

  ghost predicate HasLabel(v: View, q: int) {
    exists s, k :: 0 <= s < |v.items| && 0 <= k < |v.items[s]| && v.items[s][k].pos == q && IsLabel(v.items[s][k].act)
  }

  ghost predicate LayoutOf(al: seq<Byte>, cells: map<int, int>, items: seq<seq<Item>>, ends: seq<End>,
                           links: set<int>) {
    && |items| == |ends| <= 128
    && (forall s :: 0 <= s < |items| ==> Lays(al, cells, links, s, items[s], ends[s]))
    && (forall q :: q in links ==> Used(ends, q))
  }

  ghost predicate LayoutInv(v: View) {
    LayoutOf(v.al, v.cells, v.items, v.ends, v.links)
  }

  // A label or reference has its event.
  predicate Recorded(ev: seq<Event>, it: Item) {
    IsRef(it.act) || IsLabel(it.act) ==> EventOf(it) in ev
  }

  // An event's position is in use and its label is in the tables.
  ghost predicate Placeable(v: View, e: Event) {
    !e.Reset? ==>
      && Used(v.ends, e.pos) && e.pos in v.cells && ValidLab(v, e.lab)
      && (IsReference(e) ==> e.pos in v.links)
  }

  ghost predicate HistoryInv(v: View) {
    && WfEvents(v.events) && GoodHistory(v.events)
    && (forall i :: 0 <= i < |v.events| ==> Placeable(v, v.events[i]))
    && (forall i :: 0 <= i < |v.events| && v.events[i].Def? ==> HasLabel(v, v.events[i].pos))
    && (forall s, k | 0 <= s < |v.items| && 0 <= k < |v.items[s]| :: Recorded(v.events, v.items[s][k]))
  }

  // Every reference that has a definition points at it.
  ghost predicate Resolved(ev: seq<Event>, cells: map<int, int>) {
    forall i :: 0 <= i < |ev| && IsReference(ev[i]) && Target(ev, i) != 0 ==>
      ev[i].pos in cells && cells[ev[i].pos] == Target(ev, i)
  }

  ghost predicate TableInv(v: View) {
    forall l :: ValidLab(v, l) ==> EntryOk(v.cells, StateOf(v.events, l), Entry(v, l))
  }

  ghost predicate Inv(v: View) {
    LayoutInv(v) && HistoryInv(v) && Resolved(v.events, v.cells) && TableInv(v)
  }

  // -- Adding one item -------------------------------------------------------

  // v with item `it` stored behind section s.
  function Store(v: View, s: nat, it: Item, cells: map<int, int>): View
    requires s < |v.items| == |v.ends|
  {
    v.(items := v.items[s := v.items[s] + [it]],
       ends := v.ends[s := After(it)],
       links := if IsRef(it.act) then v.links + {it.pos} else v.links,
       cells := cells)
  }

  // The place behind an item.
  function After(it: Item): End {
    End(it.pos + Slots(it.act), it.ofs + MaxSize(it.act, it.arg),
        if it.act.Begin? then it.act.start else if IsEnd(it.act) then -1 else it.ap + Len(it.act))
  }

  // `it` may follow section s of v, given the cells after storing it.
  ghost predicate CanStore(v: View, s: nat, it: Item, cells: map<int, int>) {
    && s < |v.items| == |v.ends|
    && End(it.pos, it.ofs, it.ap) == v.ends[s]
    && it.pos + Slots(it.act) < Base(s + 1)
    && ItemOk(v.al, cells, if IsRef(it.act) then {it.pos} else {}, it, After(it))
    && OpcodeOk(v.items[s] + [it], |v.items[s]|)
  }

  // Writing only chain cells and fresh cells leaves the stored items alone.
  lemma LaysFrame(al: seq<Byte>, cells: map<int, int>, cells': map<int, int>, links: set<int>, links': set<int>,
                  s: int, I: seq<Item>, e: End)
    requires Lays(al, cells, links, s, I, e)
    requires forall q :: Base(s) <= q < e.pos && q in cells ==>
               q in cells' && (q !in links ==> cells'[q] == cells[q])
    requires forall q :: Base(s) <= q < e.pos ==> (q in links <==> q in links')
    ensures Lays(al, cells', links', s, I, e)
  {
    forall k | 0 <= k < |I|
      ensures ItemOk(al, cells', links', I[k], EndAt(I, e, k + 1))
    {
      assert ItemOk(al, cells, links, I[k], EndAt(I, e, k + 1));
    }
  }

  lemma OpcodePrefix(I: seq<Item>, it: Item, k: nat)
    requires k < |I| && OpcodeOk(I, k)
    ensures OpcodeOk(I + [it], k)
  {
    assert LitAt(I + [it], k - 1) == LitAt(I, k - 1);
    assert LitAt(I + [it], k - 2) == LitAt(I, k - 2);
  }

  lemma LaysSnoc(al: seq<Byte>, cells: map<int, int>, links: set<int>, s: int, I: seq<Item>, e: End, it: Item)
    requires Lays(al, cells, links, s, I, e)
    requires End(it.pos, it.ofs, it.ap) == e
    requires it.pos + Slots(it.act) < Base(s + 1)
    requires ItemOk(al, cells, links, it, After(it))
    requires OpcodeOk(I + [it], |I|)
    ensures Lays(al, cells, links, s, I + [it], After(it))
  {
    var J := I + [it];
    forall k | 0 <= k < |J|
      ensures Base(s) <= J[k].pos && J[k].pos + Slots(J[k].act) <= After(it).pos
      ensures ItemOk(al, cells, links, J[k], EndAt(J, After(it), k + 1)) && OpcodeOk(J, k)
    {
      if k < |I| {
        OpcodePrefix(I, it, k);
        assert EndAt(J, After(it), k + 1) == EndAt(I, e, k + 1);
      }
    }
  }

  lemma StoreLayout(v: View, s: nat, it: Item, cells: map<int, int>)
    requires LayoutInv(v) && CanStore(v, s, it, cells)
    requires forall q :: q in v.cells && Used(v.ends, q) ==>
               q in cells && (q !in v.links ==> cells[q] == v.cells[q])
    ensures LayoutInv(Store(v, s, it, cells))
  {
    var w := Store(v, s, it, cells);
    forall q | q in w.links
      ensures Used(w.ends, q)
    {
      UsedGrows(v.ends, s, w.ends[s], q);
      assert q == it.pos ==> InSection(w.ends, s, q);
    }
    forall r | 0 <= r < |w.items|
      ensures Lays(w.al, w.cells, w.links, r, w.items[r], w.ends[r])
    {
      forall q | Base(r) <= q < v.ends[r].pos
        ensures Used(v.ends, q) && q != it.pos
      {
        assert InSection(v.ends, r, q);
        PosOfSection(r, q);
        PosOfSection(s, it.pos);
      }
      LaysFrame(v.al, v.cells, cells, v.links, w.links, r, v.items[r], v.ends[r]);
      if r == s {
        NotInLinks(v, s);
        LaysSnoc(v.al, cells, w.links, s, v.items[s], v.ends[s], it);
      }
    }
  }

  // Positions at or behind the end of a section belong to no chain.
  lemma NotInLinks(v: View, s: nat)
    requires LayoutInv(v) && s < |v.ends|
    ensures forall q :: v.ends[s].pos <= q < Base(s + 1) ==> !Used(v.ends, q) && q !in v.links
  {
    forall q | v.ends[s].pos <= q < Base(s + 1)
      ensures !Used(v.ends, q)
    {
      forall r | 0 <= r < |v.ends| && InSection(v.ends, r, q)
        ensures false
      {
        PosOfSection(s, q);
        PosOfSection(r, q);
      }
    }
  }

  lemma UsedGrows(ends: seq<End>, s: nat, e: End, q: int)
    requires s < |ends| && e.pos >= ends[s].pos
    ensures Used(ends, q) ==> Used(ends[s := e], q)
  {
    if Used(ends, q) {
      var r :| 0 <= r < |ends| && InSection(ends, r, q);
      assert InSection(ends[s := e], r, q);
    }
  }

  // -- The label history -----------------------------------------------------

  ghost predicate AgreeUsed(v: View, cells: map<int, int>) {
    forall q :: q in v.cells && Used(v.ends, q) ==> q in cells && cells[q] == v.cells[q]
  }

  // A pending chain only runs through used cells of that label's references.
  lemma ChainUsed(v: View, l: Lab, q: int)
    requires HistoryInv(v)
    requires StateOf(v.events, l).Pending? && q in StateOf(v.events, l).chain
    ensures Used(v.ends, q) && q in v.cells && q in v.links && q > 0
  {
    ChainPositions(v.events, l);
    var i :| 0 <= i < |v.events| && IsReference(v.events[i]) && v.events[i].lab == l && v.events[i].pos == q;
  }

  // An entry survives a step that keeps the cells of its chain.
  lemma EntryFrame(cells: map<int, int>, cells': map<int, int>, st: LabState, x: int)
    requires EntryOk(cells, st, x)
    requires st.Pending? ==> forall q :: q in st.chain && q in cells ==> q in cells' && cells'[q] == cells[q]
    ensures EntryOk(cells', st, x)
  {
    if st.Pending? {
      forall k | 0 <= k < |st.chain|
        ensures st.chain[k] in cells' && cells'[st.chain[k]] == cells[st.chain[k]]
      {
        assert ChainOk(cells, st.chain);
        var q := st.chain[k];
        assert q in st.chain && q in cells;
      }
    }
  }

  lemma EntryAgree(v: View, l: Lab, cells: map<int, int>)
    requires HistoryInv(v) && TableInv(v) && ValidLab(v, l) && AgreeUsed(v, cells)
    ensures EntryOk(cells, StateOf(v.events, l), Entry(v, l))
    ensures StateOf(v.events, l).Pending? ==>
              forall q :: q in StateOf(v.events, l).chain ==> q in cells && cells[q] == v.cells[q]
  {
    if StateOf(v.events, l).Pending? {
      forall q | q in StateOf(v.events, l).chain
        ensures q in v.cells && q in cells && cells[q] == v.cells[q]
      {
        ChainUsed(v, l, q);
      }
    }
    EntryFrame(v.cells, cells, StateOf(v.events, l), Entry(v, l));
  }

  lemma UsedAll(v: View, s: nat, e: End)
    requires s < |v.ends| && e.pos >= v.ends[s].pos
    ensures forall q :: Used(v.ends, q) ==> Used(v.ends[s := e], q)
  {
    forall q | Used(v.ends, q)
      ensures Used(v.ends[s := e], q)
    {
      UsedGrows(v.ends, s, e, q);
    }
  }

  lemma HasLabelGrows(v: View, s: nat, it: Item, cells: map<int, int>, q: int)
    requires s < |v.items| == |v.ends| && HasLabel(v, q)
    ensures HasLabel(Store(v, s, it, cells), q)
  {
    var r, k :| 0 <= r < |v.items| && 0 <= k < |v.items[r]| && v.items[r][k].pos == q && IsLabel(v.items[r][k].act);
    var w := Store(v, s, it, cells);
    assert w.items[r][k] == v.items[r][k];
  }

  // An action without a label.
  lemma StorePlain(v: View, s: nat, it: Item, cells: map<int, int>)
    requires Inv(v) && CanStore(v, s, it, cells)
    requires !IsRef(it.act) && !IsLabel(it.act)
    requires AgreeUsed(v, cells)
    ensures Inv(Store(v, s, it, cells))
  {
    var w := Store(v, s, it, cells);
    StoreLayout(v, s, it, cells);
    UsedAll(v, s, w.ends[s]);
    forall i | 0 <= i < |v.events| && v.events[i].Def?
      ensures HasLabel(w, v.events[i].pos)
    {
      HasLabelGrows(v, s, it, cells, v.events[i].pos);
    }
    assert HistoryInv(w);
    forall l | ValidLab(w, l)
      ensures EntryOk(w.cells, StateOf(w.events, l), Entry(w, l))
    {
      EntryAgree(v, l, cells);
    }
  }

  // Appending a checked event keeps the history good.
  lemma HistorySnoc(v: View, e: Event)
    requires HistoryInv(v) && !e.Reset? && !Used(v.ends, e.pos) && e.pos > 0
    requires e.Fwd? ==> IsLocal(e.lab)
    requires e.Ref? && IsLow(e.lab) ==> StateOf(v.events, e.lab).Defined?
    ensures WfEvents(v.events + [e]) && GoodHistory(v.events + [e])
  {
    assert (v.events + [e])[..|v.events|] == v.events;
  }

  lemma DefsHaveLabels(v: View, s: nat, it: Item, cells: map<int, int>, w: View)
    requires s < |v.items| == |v.ends|
    requires IsRef(it.act) || IsLabel(it.act)
    requires forall i :: 0 <= i < |v.events| && v.events[i].Def? ==> HasLabel(v, v.events[i].pos)
    requires w.items == v.items[s := v.items[s] + [it]] && w.events == v.events + [EventOf(it)]
    ensures forall i :: 0 <= i < |w.events| && w.events[i].Def? ==> HasLabel(w, w.events[i].pos)
  {
    forall i | 0 <= i < |w.events| && w.events[i].Def?
      ensures HasLabel(w, w.events[i].pos)
    {
      if i < |v.events| {
        assert w.events[i] == v.events[i];
        var q := v.events[i].pos;
        var r, k :| 0 <= r < |v.items| && 0 <= k < |v.items[r]| && v.items[r][k].pos == q && IsLabel(v.items[r][k].act);
        assert w.items[r][k] == v.items[r][k];
      } else {
        assert w.items[s][|v.items[s]|] == it;
      }
    }
  }

  lemma ItemsRecorded(v: View, s: nat, it: Item, w: View)
    requires s < |v.items| == |v.ends|
    requires IsRef(it.act) || IsLabel(it.act)
    requires forall r, k | 0 <= r < |v.items| && 0 <= k < |v.items[r]| :: Recorded(v.events, v.items[r][k])
    requires w.items == v.items[s := v.items[s] + [it]] && w.events == v.events + [EventOf(it)]
    ensures forall r, k | 0 <= r < |w.items| && 0 <= k < |w.items[r]| :: Recorded(w.events, w.items[r][k])
  {
    forall r, k | 0 <= r < |w.items| && 0 <= k < |w.items[r]|
      ensures Recorded(w.events, w.items[r][k])
    {
      if r == s && k == |v.items[s]| {
        assert w.events[|v.events|] == EventOf(it);
      } else {
        assert w.items[r][k] == v.items[r][k];
        assert Recorded(v.events, v.items[r][k]);
      }
    }
  }

  // The history part of storing a label or a reference.
  lemma StoreHistory(v: View, s: nat, it: Item, cells: map<int, int>, w: View)
    requires LayoutInv(v) && HistoryInv(v) && CanStore(v, s, it, cells)
    requires IsRef(it.act) || IsLabel(it.act)
    requires forall q :: q in v.cells ==> q in cells
    requires w == Store(v, s, it, cells).(events := v.events + [EventOf(it)], lg := w.lg, pc := w.pc)
    requires forall l :: ValidLab(w, l) <==> ValidLab(v, l)
    requires ValidLab(v, EventOf(it).lab) && it.pos > 0
    requires EventOf(it).Fwd? ==> IsLocal(EventOf(it).lab)
    requires EventOf(it).Ref? && IsLow(EventOf(it).lab) ==> StateOf(v.events, EventOf(it).lab).Defined?
    ensures HistoryInv(w)
  {
    NotInLinks(v, s);
    HistorySnoc(v, EventOf(it));
    DefsHaveLabels(v, s, it, cells, w);
    ItemsRecorded(v, s, it, w);
    EventsPlaceable(v, s, it, cells, w);
  }

  lemma EventsPlaceable(v: View, s: nat, it: Item, cells: map<int, int>, w: View)
    requires s < |v.items| == |v.ends| && it.pos == v.ends[s].pos >= Base(s) && it.pos in cells
    requires forall i :: 0 <= i < |v.events| ==> Placeable(v, v.events[i])
    requires IsRef(it.act) || IsLabel(it.act)
    requires forall q :: q in v.cells ==> q in cells
    requires w == Store(v, s, it, cells).(events := v.events + [EventOf(it)], lg := w.lg, pc := w.pc)
    requires forall l :: ValidLab(w, l) <==> ValidLab(v, l)
    requires ValidLab(v, EventOf(it).lab)
    ensures forall i :: 0 <= i < |w.events| ==> Placeable(w, w.events[i])
  {
    UsedAll(v, s, w.ends[s]);
    assert InSection(w.ends, s, it.pos);
    forall i | 0 <= i < |w.events|
      ensures Placeable(w, w.events[i])
    {
      if i < |v.events| {
        assert w.events[i] == v.events[i] && Placeable(v, v.events[i]);
      }
    }
  }

  // -- References ------------------------------------------------------------

  // What dasm_put writes into the link cell of a reference and into the table
  // entry of its label, given the entry's old value n: a defined label is
  // stored directly, everything else joins or starts a chain at q.
  function LinkCell(e: Event, n: int): int
    requires IsReference(e)
  {
    if e.Ref? && n < 0 then -n else if n < 0 then 0 else n
  }

  function LinkEntry(e: Event, n: int): int
    requires IsReference(e)
  {
    if e.Ref? && n < 0 then n else e.pos
  }

  function StoreRefView(v: View, s: nat, it: Item, cells: map<int, int>): View
    requires s < |v.items| == |v.ends| && IsRef(it.act) && ValidLab(v, EventOf(it).lab)
  {
    var e := EventOf(it);
    WithEntry(Store(v, s, it, cells), e.lab, LinkEntry(e, Entry(v, e.lab))).(events := v.events + [e])
  }

  // The targets of earlier references do not depend on a later reference.
  lemma TargetSnocRef(ev: seq<Event>, e: Event, i: nat)
    requires WfEvents(ev)
    requires i < |ev| && IsReference(ev[i]) && !e.Def?
    ensures Target(ev + [e], i) == Target(ev, i)
  {
    assert (ev + [e])[i] == ev[i];
    NextDefSnoc(ev, e, ev[i].lab, i + 1);
    PrevDefSnoc(ev, e, ev[i].lab, i);
  }

  lemma ResolvedRef(ev: seq<Event>, e: Event, cells: map<int, int>, cells': map<int, int>)
    requires WfEvents(ev) && Resolved(ev, cells) && IsReference(e)
    requires forall i :: 0 <= i < |ev| && IsReference(ev[i]) && ev[i].pos in cells ==>
               ev[i].pos in cells' && cells'[ev[i].pos] == cells[ev[i].pos]
    requires e.Ref? && PrevDef(ev, e.lab, |ev|) != 0 ==>
               e.pos in cells' && cells'[e.pos] == PrevDef(ev, e.lab, |ev|)
    ensures Resolved(ev + [e], cells')
  {
    var w := ev + [e];
    forall i | 0 <= i < |w| && IsReference(w[i]) && Target(w, i) != 0
      ensures w[i].pos in cells' && cells'[w[i].pos] == Target(w, i)
    {
      if i < |ev| {
        assert w[i] == ev[i];
        TargetSnocRef(ev, e, i);
      } else {
        assert NextDef(w, e.lab, |ev| + 1) == 0;
        PrevDefSnoc(ev, e, e.lab, |ev|);
      }
    }
  }

  lemma StoreRefTable(v: View, s: nat, it: Item, cells: map<int, int>)
    requires HistoryInv(v) && TableInv(v) && s < |v.items| == |v.ends|
    requires IsRef(it.act) && ValidLab(v, EventOf(it).lab) && AgreeUsed(v, cells)
    requires it.pos in cells && cells[it.pos] == LinkCell(EventOf(it), Entry(v, EventOf(it).lab))
    ensures TableInv(StoreRefView(v, s, it, cells))
  {
    var w := StoreRefView(v, s, it, cells);
    var e := EventOf(it);
    forall l | ValidLab(w, l)
      ensures EntryOk(w.cells, StateOf(w.events, l), Entry(w, l))
    {
      EntryAgree(v, l, cells);
      StateSnoc(v.events, e, l);
      if l == e.lab {
        LinkedEntry(v, l, e, cells);
      }
    }
  }

  // The entry of the referenced label after the reference joined its chain.
  lemma LinkedEntry(v: View, l: Lab, e: Event, cells: map<int, int>)
    requires HistoryInv(v) && TableInv(v) && ValidLab(v, l) && IsReference(e) && l == e.lab
    requires EntryOk(cells, StateOf(v.events, l), Entry(v, l))
    requires e.pos in cells && cells[e.pos] == LinkCell(e, Entry(v, l))
    ensures EntryOk(cells, StateOf(v.events + [e], l), LinkEntry(e, Entry(v, l)))
  {
    var st := StateOf(v.events, l);
    StateSnoc(v.events, e, l);
    DefinedIsLast(v.events, l);
    if st.Pending? {
      ChainUsed(v, l, st.chain[0]);
      NewLink(cells, st.chain, e.pos);
    } else if StateOf(v.events + [e], l) != st {
      assert ChainOk(cells, []);
      NewLink(cells, [], e.pos);
      assert [e.pos] + [] == [e.pos];
    }
  }

  // A fresh cell in front of a chain.
  lemma NewLink(cells: map<int, int>, c: seq<int>, q: int)
    requires ChainOk(cells, c)
    requires q in cells && cells[q] == if c == [] then 0 else c[0]
    ensures ChainOk(cells, [q] + c)
  {
    var d := [q] + c;
    forall k | 0 <= k < |d|
      ensures d[k] in cells && cells[d[k]] == ChainNext(d, k)
    {
      if k > 0 {
        assert d[k] == c[k - 1] && ChainNext(d, k) == ChainNext(c, k - 1);
      }
    }
  }

  // The sign of a table entry tells the state of its label.
  lemma EntrySign(v: View, l: Lab)
    requires HistoryInv(v) && TableInv(v) && ValidLab(v, l)
    ensures var st := StateOf(v.events, l);
            && (Entry(v, l) < 0 <==> st.Defined?)
            && (Entry(v, l) == 0 <==> st.Unused?)
            && (Entry(v, l) > 0 <==> st.Pending?)
            && (st.Defined? ==> Entry(v, l) == -st.pos)
  {
    var st := StateOf(v.events, l);
    DefinedIsLast(v.events, l);
    if st.Pending? {
      ChainUsed(v, l, st.chain[0]);
    }
  }

  // A reference: dasm_put's putrel and linkrel branches.
  lemma StoreRef(v: View, s: nat, it: Item, cells: map<int, int>)
    requires Inv(v) && CanStore(v, s, it, cells) && it.pos > 0
    requires IsRef(it.act) && ValidLab(v, EventOf(it).lab) && AgreeUsed(v, cells)
    requires it.pos in cells && cells[it.pos] == LinkCell(EventOf(it), Entry(v, EventOf(it).lab))
    requires EventOf(it).Fwd? ==> IsLocal(EventOf(it).lab)
    requires EventOf(it).Ref? && IsLow(EventOf(it).lab) ==> Entry(v, EventOf(it).lab) < 0
    requires forall q :: q in v.cells ==> q in cells
    ensures Inv(StoreRefView(v, s, it, cells))
  {
    hide *;
    CanStoreAt(v, s, it, cells);
    InvParts(v);
    StoreRefLayout(v, s, it, cells);
    StoreRefHistory(v, s, it, cells);
    StoreRefResolved(v, s, it, cells);
    StoreRefTable(v, s, it, cells);
    InvIs(StoreRefView(v, s, it, cells));
  }

  lemma CanStoreAt(v: View, s: nat, it: Item, cells: map<int, int>)
    requires CanStore(v, s, it, cells)
    ensures s < |v.items| == |v.ends|
  {
  }

  lemma InvParts(v: View)
    requires Inv(v)
    ensures LayoutInv(v) && HistoryInv(v) && Resolved(v.events, v.cells) && TableInv(v)
  {
  }

  lemma InvIs(v: View)
    requires LayoutInv(v) && HistoryInv(v) && Resolved(v.events, v.cells) && TableInv(v)
    ensures Inv(v)
  {
  }

  lemma StoreRefLayout(v: View, s: nat, it: Item, cells: map<int, int>)
    requires Inv(v) && CanStore(v, s, it, cells) && IsRef(it.act) && ValidLab(v, EventOf(it).lab) && AgreeUsed(v, cells)
    ensures LayoutInv(StoreRefView(v, s, it, cells))
  {
    hide LayoutOf, HistoryInv, TableInv, Resolved;
    StoreLayout(v, s, it, cells);
  }

  lemma StoreRefHistory(v: View, s: nat, it: Item, cells: map<int, int>)
    requires Inv(v) && CanStore(v, s, it, cells) && it.pos > 0
    requires IsRef(it.act) && ValidLab(v, EventOf(it).lab) && AgreeUsed(v, cells)
    requires it.pos in cells && cells[it.pos] == LinkCell(EventOf(it), Entry(v, EventOf(it).lab))
    requires EventOf(it).Fwd? ==> IsLocal(EventOf(it).lab)
    requires EventOf(it).Ref? && IsLow(EventOf(it).lab) ==> Entry(v, EventOf(it).lab) < 0
    requires forall q :: q in v.cells ==> q in cells
    ensures HistoryInv(StoreRefView(v, s, it, cells))
  {
    EntrySign(v, EventOf(it).lab);
    hide LayoutInv, HistoryInv, TableInv, Resolved;
    StoreHistory(v, s, it, cells, StoreRefView(v, s, it, cells));
  }

  lemma StoreRefResolved(v: View, s: nat, it: Item, cells: map<int, int>)
    requires Inv(v) && CanStore(v, s, it, cells) && it.pos > 0
    requires IsRef(it.act) && ValidLab(v, EventOf(it).lab) && AgreeUsed(v, cells)
    requires it.pos in cells && cells[it.pos] == LinkCell(EventOf(it), Entry(v, EventOf(it).lab))
    requires EventOf(it).Fwd? ==> IsLocal(EventOf(it).lab)
    requires EventOf(it).Ref? && IsLow(EventOf(it).lab) ==> Entry(v, EventOf(it).lab) < 0
    requires forall q :: q in v.cells ==> q in cells
    ensures var w := StoreRefView(v, s, it, cells); Resolved(w.events, w.cells)
  {
    var ev := v.events;
    EntrySign(v, EventOf(it).lab);
    DefinedIsLast(ev, EventOf(it).lab);
    forall i | 0 <= i < |ev| && IsReference(ev[i]) && ev[i].pos in v.cells
      ensures ev[i].pos in cells && cells[ev[i].pos] == v.cells[ev[i].pos]
    {
      assert Placeable(v, ev[i]);
    }
    hide LayoutInv, HistoryInv, TableInv, Resolved, StateOf, PrevDef, LgWith, PcWith;
    ResolvedRef(v.events, EventOf(it), v.cells, cells);
  }

  // -- Definitions -----------------------------------------------------------

  // The cells after every cell of chain c was set to x.
  function Fill(cells: map<int, int>, c: seq<int>, x: int): (r: map<int, int>)
    ensures r.Keys == cells.Keys
  {
    map q | q in cells :: if q in c then x else cells[q]
  }

  function ChainOf(v: View, l: Lab): seq<int> {
    if StateOf(v.events, l).Pending? then StateOf(v.events, l).chain else []
  }

  function StoreDefView(v: View, s: nat, it: Item): View
    requires s < |v.items| == |v.ends| && IsLabel(it.act) && ValidLab(v, EventOf(it).lab)
  {
    var e := EventOf(it);
    var cells := Fill(v.cells, ChainOf(v, e.lab), it.pos)[it.pos := it.ofs];
    WithEntry(Store(v, s, it, cells), e.lab, -it.pos).(events := v.events + [e])
  }

  lemma ResolvedDef(ev: seq<Event>, e: Event, cells: map<int, int>, cells': map<int, int>)
    requires WfEvents(ev) && GoodHistory(ev) && Resolved(ev, cells) && e.Def? && e.pos > 0
    requires forall i :: 0 <= i < |ev| && IsReference(ev[i]) && ev[i].pos in cells ==> ev[i].pos in cells'
    requires forall i :: 0 <= i < |ev| && IsReference(ev[i]) ==>
               if OnChain(ev, e.lab, ev[i].pos) then ev[i].pos in cells' && cells'[ev[i].pos] == e.pos
               else ev[i].pos in cells ==> cells'[ev[i].pos] == cells[ev[i].pos]
    ensures Resolved(ev + [e], cells')
  {
    var w := ev + [e];
    forall i | 0 <= i < |w| && IsReference(w[i]) && Target(w, i) != 0
      ensures w[i].pos in cells' && cells'[w[i].pos] == Target(w, i)
    {
      assert w[i] == ev[i];
      TargetSnocDef(ev, e, i);
    }
  }

  // A definition resolves exactly the pending references to its label.
  lemma TargetSnocDef(ev: seq<Event>, e: Event, i: nat)
    requires WfEvents(ev) && GoodHistory(ev) && e.Def? && e.pos > 0
    requires i < |ev| && IsReference(ev[i])
    ensures Target(ev + [e], i) == if OnChain(ev, e.lab, ev[i].pos) then e.pos else Target(ev, i)
  {
    assert (ev + [e])[i] == ev[i];
    NextDefSnoc(ev, e, ev[i].lab, i + 1);
    PrevDefSnoc(ev, e, ev[i].lab, i);
    PendingIsUnresolved(ev, e.lab, i);
    hide WfEvents, GoodHistory, NextDef, PrevDef, OnChain;
  }

  lemma StoreDefTable(v: View, s: nat, it: Item)
    requires HistoryInv(v) && TableInv(v) && s < |v.items| == |v.ends|
    requires IsLabel(it.act) && ValidLab(v, EventOf(it).lab)
    requires it.pos > 0 && !Used(v.ends, it.pos)
    ensures TableInv(StoreDefView(v, s, it))
  {
    var w := StoreDefView(v, s, it);
    forall l | ValidLab(w, l)
      ensures EntryOk(w.cells, StateOf(w.events, l), Entry(w, l))
    {
      EntryStored(v, s, it, l);
    }
    hide HistoryInv, EntryOk, StoreDefView;
  }

  lemma EntryStored(v: View, s: nat, it: Item, l: Lab)
    requires HistoryInv(v) && TableInv(v) && s < |v.items| == |v.ends|
    requires IsLabel(it.act) && ValidLab(v, EventOf(it).lab)
    requires it.pos > 0 && !Used(v.ends, it.pos) && ValidLab(StoreDefView(v, s, it), l)
    ensures var w := StoreDefView(v, s, it); EntryOk(w.cells, StateOf(w.events, l), Entry(w, l))
  {
    StateSnoc(v.events, EventOf(it), l);
    if l != EventOf(it).lab { OtherEntry(v, l, it, StoreDefView(v, s, it).cells); }
  }

  lemma OtherEntry(v: View, l: Lab, it: Item, cells: map<int, int>)
    requires HistoryInv(v) && TableInv(v) && ValidLab(v, l) && IsLabel(it.act) && l != EventOf(it).lab
    requires !Used(v.ends, it.pos)
    requires cells == Fill(v.cells, ChainOf(v, EventOf(it).lab), it.pos)[it.pos := it.ofs]
    ensures EntryOk(cells, StateOf(v.events, l), Entry(v, l))
  {
    if StateOf(v.events, l).Pending? {
      forall q | q in StateOf(v.events, l).chain
        ensures q in cells && cells[q] == v.cells[q]
      {
        ChainUsed(v, l, q);
        ChainsDisjoint(v, l, EventOf(it).lab, q);
      }
    }
    EntryFrame(v.cells, cells, StateOf(v.events, l), Entry(v, l));
  }

  // Chains of different labels share no cell.
  lemma ChainsDisjoint(v: View, l: Lab, m: Lab, q: int)
    requires HistoryInv(v) && l != m && q in ChainOf(v, l)
    ensures q !in ChainOf(v, m)
  {
    ChainPositions(v.events, l);
    var i :| 0 <= i < |v.events| && IsReference(v.events[i]) && v.events[i].lab == l && v.events[i].pos == q;
    if q in ChainOf(v, m) {
      ChainPositions(v.events, m);
    }
  }

  // Resolving a label's chain writes link cells only.
  lemma FillAgrees(v: View, l: Lab, pos: int, ofs: int)
    requires HistoryInv(v) && !Used(v.ends, pos)
    ensures var cells := Fill(v.cells, ChainOf(v, l), pos)[pos := ofs];
            forall q :: q in v.cells && Used(v.ends, q) ==> q in cells && (q !in v.links ==> cells[q] == v.cells[q])
  {
    var cells := Fill(v.cells, ChainOf(v, l), pos)[pos := ofs];
    forall q | q in v.cells && Used(v.ends, q)
      ensures q in cells && (q !in v.links ==> cells[q] == v.cells[q])
    {
      if q in ChainOf(v, l) { ChainUsed(v, l, q); }
    }
  }

  // A label: dasm_put's putlabel branch.
  lemma StoreDef(v: View, s: nat, it: Item)
    requires Inv(v) && s < |v.items| && it.pos > 0
    requires IsLabel(it.act) && ValidLab(v, EventOf(it).lab)
    requires CanStore(v, s, it, StoreDefView(v, s, it).cells)
    ensures Inv(StoreDefView(v, s, it))
  {
    hide Lays, ItemOk, WfEvents, GoodHistory, Recorded, HasLabel, EntryOk;
    var w := StoreDefView(v, s, it);
    var l := EventOf(it).lab;
    NotInLinks(v, s);
    FillAgrees(v, l, it.pos, it.ofs);
    StoreLayout(v, s, it, w.cells);
    StoreHistory(v, s, it, w.cells, w);
    ResolvedDef(v.events, EventOf(it), v.cells, w.cells);
    StoreDefTable(v, s, it);
  }

  // dasm_checkstep: no local label may be pending, then all are forgotten.
  function ResetLocals(v: View): View
    requires |v.lg| >= 10
  {
    v.(lg := [v.lg[0]] + [0, 0, 0, 0, 0, 0, 0, 0, 0] + v.lg[10..], events := v.events + [Reset])
  }

  lemma ResetGood(ev: seq<Event>)
    requires WfEvents(ev) && GoodHistory(ev)
    requires forall n :: 1 <= n <= 9 ==> !StateOf(ev, LG(n)).Pending?
    ensures WfEvents(ev + [Reset]) && GoodHistory(ev + [Reset])
  {
    assert (ev + [Reset])[..|ev|] == ev;
  }

  lemma ResetHistory(v: View)
    requires HistoryInv(v) && |v.lg| >= 10
    requires forall n :: 1 <= n <= 9 ==> !StateOf(v.events, LG(n)).Pending?
    ensures HistoryInv(ResetLocals(v))
  {
    hide StateOf, WfEvents, GoodHistory;
    var w := ResetLocals(v);
    ResetGood(v.events);
    forall i | 0 <= i < |v.events|
      ensures Placeable(w, v.events[i]) && (v.events[i].Def? ==> HasLabel(w, v.events[i].pos))
    {
      assert Placeable(v, v.events[i]);
      assert v.events[i].Def? ==> HasLabel(v, v.events[i].pos);
    }
    forall r, k | 0 <= r < |w.items| && 0 <= k < |w.items[r]|
      ensures Recorded(w.events, w.items[r][k])
    {
      assert Recorded(v.events, v.items[r][k]);
    }
  }

  lemma ResetResolved(ev: seq<Event>, cells: map<int, int>)
    requires WfEvents(ev) && Resolved(ev, cells)
    ensures Resolved(ev + [Reset], cells)
  {
    var w := ev + [Reset];
    forall i | 0 <= i < |w| && IsReference(w[i]) && Target(w, i) != 0
      ensures w[i].pos in cells && cells[w[i].pos] == Target(w, i)
    {
      assert w[i] == ev[i];
      TargetSnocRef(ev, Reset, i);
    }
  }

  lemma ResetTable(v: View)
    requires TableInv(v) && |v.lg| >= 10
    ensures TableInv(ResetLocals(v))
  {
    hide StateOf;
    var w := ResetLocals(v);
    forall l | ValidLab(w, l)
      ensures EntryOk(w.cells, StateOf(w.events, l), Entry(w, l))
    {
      assert ValidLab(v, l);
      StateSnoc(v.events, Reset, l);
      assert IsLocal(l) ==> l == LG(l.n);
    }
  }

  lemma ResetKeepsInv(v: View)
    requires Inv(v) && |v.lg| >= 10
    requires forall n :: 1 <= n <= 9 ==> v.lg[n] <= 0
    ensures Inv(ResetLocals(v))
  {
    hide Lays, ItemOk, WfEvents, GoodHistory, Placeable, Recorded, HasLabel, EntryOk, Resolved, StateOf;
    forall m | 1 <= m <= 9
      ensures !StateOf(v.events, LG(m)).Pending?
    {
      assert ValidLab(v, LG(m));
      EntrySign(v, LG(m));
    }
    ResetHistory(v);
    ResetResolved(v.events, v.cells);
    ResetTable(v);
  }
}
