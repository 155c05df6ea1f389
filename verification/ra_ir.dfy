// The trace IR, the machine the register allocator of src/lj_asm.c emits code
// for, and what it means for a piece of emitted code to be right.
module RaIr {
  // -- IR --------------------------------------------------------------------

  datatype Cls = Gpr | Fpr

  // IR instructions: constants, instructions with two operands, instructions
  // without register operands (loads from the Lua stack and, with `call`, calls
  // of C functions), and USE, which only keeps its operand alive.  `side` marks
  // side effects, `wide` 64 bit values and `phi` operands of a PHI.
  datatype Ins =
    | K(cls: Cls, k: int)
    | Op(cls: Cls, f: int, a: nat, b: nat, side: bool, wide: bool, phi: bool)
    | Leaf(cls: Cls, f: int, call: bool, side: bool, wide: bool, phi: bool)
    | Use(a: nat)

  function ClsOf(i: Ins): Cls { if i.Use? then Gpr else i.cls }

  // Spill slots are 32 bits wide.
  function Width(i: Ins): nat { if (i.Op? || i.Leaf?) && i.wide then 2 else 1 }

  predicate SideEff(i: Ins) { i.Use? || ((i.Op? || i.Leaf?) && i.side) }

  predicate Operand(i: Ins, x: nat) {
    (i.Op? && (i.a == x || i.b == x)) || (i.Use? && i.a == x)
  }

  // References below nk are constants; SSA order means operands come first.
  predicate WfIr(ir: seq<Ins>, nk: nat) {
    && nk <= |ir| < 0xff00
    && (forall x :: 0 <= x < |ir| ==> (ir[x].K? <==> x < nk) && WfIns(ir, x))
  }

  predicate WfIns(ir: seq<Ins>, x: nat)
    requires x < |ir|
  {
    && (ir[x].Op? ==> ir[x].a < x && ir[x].b < x && !ir[ir[x].a].Use? && !ir[ir[x].b].Use?
                      && ClsOf(ir[ir[x].a]) == ir[x].cls && ClsOf(ir[ir[x].b]) == ir[x].cls)
    && (ir[x].Use? ==> ir[x].a < x && !ir[ir[x].a].Use?)
  }

  // The meaning of opcodes and of loads is arbitrary, and so is what a call
  // leaves in the registers it clobbers.
  datatype Sem = Sem(op: (int, int, int) -> int, leaf: int -> int, junk: nat -> int)

  function Val(sem: Sem, ir: seq<Ins>, x: nat): int
    decreases x
  {
    if x >= |ir| then 0
    else match ir[x]
      case K(_, k) => k
      case Op(_, f, a, b, _, _, _) => if a < x && b < x then sem.op(f, Val(sem, ir, a), Val(sem, ir, b)) else 0
      case Leaf(_, f, _, _, _, _) => sem.leaf(f)
      case Use(_) => 0
  }

  // -- Machine ---------------------------------------------------------------

  datatype MIns =
    | Mov(d: nat, r: nat)
    | LoadI(d: nat, k: int)
    | SpLoad(d: nat, slot: nat, w: nat)
    | SpStore(r: nat, slot: nat, w: nat)
    | Op3(f: int, d: nat, l: nat, r: nat, ref: nat)
    | LeafOp(f: int, d: nat, ref: nat)
    | CallOp(f: int, d: nat, clobber: set<nat>, ref: nat)

  // A 32 bit stack slot holds one part of a value.
  datatype Cell = Cell(v: int, part: nat)

  // Registers, stack slots, and the values computed so far with the IR
  // instruction each belongs to.
  datatype M = M(regs: map<nat, int>, mem: map<nat, Cell>, log: seq<(nat, int)>)

  function Reg(m: M, r: nat): int { if r in m.regs then m.regs[r] else 0 }

  predicate SlotHolds(m: M, slot: nat, w: nat, v: int) {
    forall q :: slot <= q < slot + w ==> q in m.mem && m.mem[q] == Cell(v, q - slot)
  }

  function SetReg(m: M, r: nat, v: int): M { m.(regs := m.regs[r := v]) }

  function StoreSlot(m: M, slot: nat, w: nat, v: int): M
    decreases w
  {
    if w == 0 then m else
      var m' := StoreSlot(m, slot, w - 1, v);
      m'.(mem := m'.mem[slot + w - 1 := Cell(v, w - 1)])
  }

  // A load of slots that do not hold all parts of one value yields garbage.
  function LoadSlot(m: M, slot: nat, w: nat): int {
    if slot in m.mem && SlotHolds(m, slot, w, m.mem[slot].v) then m.mem[slot].v else 0
  }

  function Step(sem: Sem, i: MIns, m: M): M {
    match i
    case Mov(d, r) => SetReg(m, d, Reg(m, r))
    case LoadI(d, k) => SetReg(m, d, k)
    case SpLoad(d, slot, w) => SetReg(m, d, LoadSlot(m, slot, w))
    case SpStore(r, slot, w) => StoreSlot(m, slot, w, Reg(m, r))
    case Op3(f, d, l, r, ref) =>
      var v := sem.op(f, Reg(m, l), Reg(m, r));
      SetReg(m, d, v).(log := m.log + [(ref, v)])
    case LeafOp(f, d, ref) =>
      var v := sem.leaf(f);
      SetReg(m, d, v).(log := m.log + [(ref, v)])
    case CallOp(f, d, clobber, ref) =>
      var v := sem.leaf(f);
      var m' := m.(regs := m.regs + (map q | q in clobber :: sem.junk(q)));
      SetReg(m', d, v).(log := m.log + [(ref, v)])
  }

  function Run(sem: Sem, code: seq<MIns>, m: M): M
    decreases |code|
  {
    if code == [] then m else Run(sem, code[1..], Step(sem, code[0], m))
  }

  lemma RunCons(sem: Sem, i: MIns, code: seq<MIns>, m: M)
    ensures Run(sem, [i] + code, m) == Run(sem, code, Step(sem, i, m))
  {
    assert ([i] + code)[1..] == code;
  }

  lemma StoreSlotHolds(m: M, slot: nat, w: nat, v: int)
    ensures SlotHolds(StoreSlot(m, slot, w, v), slot, w, v)
    ensures StoreSlot(m, slot, w, v).regs == m.regs && StoreSlot(m, slot, w, v).log == m.log
    ensures forall q :: (q < slot || q >= slot + w) && q in m.mem ==>
              q in StoreSlot(m, slot, w, v).mem && StoreSlot(m, slot, w, v).mem[q] == m.mem[q]
  {
  }

  // -- Right code ------------------------------------------------------------

  // Which register must hold the value of which reference.
  type Need = map<nat, nat>

  ghost predicate Holds(sem: Sem, ir: seq<Ins>, m: M, need: Need) {
    forall x :: x in need ==> Reg(m, x) == Val(sem, ir, need[x])
  }

  // Every reference below cur that has a spill slot has been stored there.
  ghost predicate SlotsOk(sem: Sem, ir: seq<Ins>, s: seq<nat>, cur: nat, m: M) {
    forall x :: 0 <= x < |ir| && x < |s| && x < cur && s[x] != 0 ==> SlotHolds(m, s[x], Width(ir[x]), Val(sem, ir, x))
  }

  // From any state with the needed registers and slots the code computes `out`.
  ghost predicate CodeOk(sem: Sem, ir: seq<Ins>, s: seq<nat>, cur: nat, code: seq<MIns>, need: Need,
                         out: seq<(nat, int)>) {
    forall m :: Holds(sem, ir, m, need) && SlotsOk(sem, ir, s, cur, m) ==> Run(sem, code, m).log == m.log + out
  }

  // Slots of two references must not share a stack slot.
  predicate Apart(s1: nat, w1: nat, s2: nat, w2: nat) { s1 + w1 <= s2 || s2 + w2 <= s1 }

  predicate SlotsApart(ir: seq<Ins>, s: seq<nat>) {
    |s| == |ir| &&
    forall x, y :: 0 <= x < y < |s| && s[x] != 0 && s[y] != 0 ==> Apart(s[x], Width(ir[x]), s[y], Width(ir[y]))
  }

  // -- Emitting one instruction in front of right code -----------------------

  lemma EmitMov(sem: Sem, ir: seq<Ins>, s: seq<nat>, cur: nat, code: seq<MIns>, need: Need, out: seq<(nat, int)>,
                d: nat, r: nat, x: nat)
    requires CodeOk(sem, ir, s, cur, code, need, out)
    requires d in need ==> need[d] == x
    requires r in need && r != d ==> need[r] == x
    ensures CodeOk(sem, ir, s, cur, [Mov(d, r)] + code, (need - {d})[r := x], out)
  {
    var need' := (need - {d})[r := x];
    forall m | Holds(sem, ir, m, need') && SlotsOk(sem, ir, s, cur, m)
      ensures Run(sem, [Mov(d, r)] + code, m).log == m.log + out
    {
      RunCons(sem, Mov(d, r), code, m);
      var m' := Step(sem, Mov(d, r), m);
      assert r in need';
      forall y | y in need
        ensures Reg(m', y) == Val(sem, ir, need[y])
      {
        if y != d { assert y in need'; }
      }
      SlotsSame(sem, ir, s, cur, m, m');
    }
  }

  lemma SlotsSame(sem: Sem, ir: seq<Ins>, s: seq<nat>, cur: nat, m: M, m': M)
    requires SlotsOk(sem, ir, s, cur, m) && m'.mem == m.mem
    ensures SlotsOk(sem, ir, s, cur, m')
  {
    forall x | 0 <= x < |ir| && x < |s| && x < cur && s[x] != 0
      ensures SlotHolds(m', s[x], Width(ir[x]), Val(sem, ir, x))
    {
      assert SlotHolds(m, s[x], Width(ir[x]), Val(sem, ir, x));
    }
  }

  // A constant: the register need not hold anything before.
  lemma EmitLoadI(sem: Sem, ir: seq<Ins>, s: seq<nat>, cur: nat, code: seq<MIns>, need: Need, out: seq<(nat, int)>,
                  d: nat, x: nat)
    requires CodeOk(sem, ir, s, cur, code, need, out) && x < |ir| && ir[x].K?
    requires d in need ==> need[d] == x
    ensures CodeOk(sem, ir, s, cur, [LoadI(d, ir[x].k)] + code, need - {d}, out)
  {
    var i := LoadI(d, ir[x].k);
    forall m | Holds(sem, ir, m, need - {d}) && SlotsOk(sem, ir, s, cur, m)
      ensures Run(sem, [i] + code, m).log == m.log + out
    {
      RunCons(sem, i, code, m);
      var m' := Step(sem, i, m);
      forall y | y in need
        ensures Reg(m', y) == Val(sem, ir, need[y])
      {
        if y != d { assert y in need - {d}; }
      }
      SlotsSame(sem, ir, s, cur, m, m');
    }
  }

  // A reload from the reference's spill slot.
  lemma EmitSpLoad(sem: Sem, ir: seq<Ins>, s: seq<nat>, cur: nat, code: seq<MIns>, need: Need, out: seq<(nat, int)>,
                   d: nat, x: nat)
    requires CodeOk(sem, ir, s, cur, code, need, out) && x < cur && x < |ir| && |s| == |ir| && s[x] != 0
    requires d in need ==> need[d] == x
    ensures CodeOk(sem, ir, s, cur, [SpLoad(d, s[x], Width(ir[x]))] + code, need - {d}, out)
  {
    var i := SpLoad(d, s[x], Width(ir[x]));
    forall m | Holds(sem, ir, m, need - {d}) && SlotsOk(sem, ir, s, cur, m)
      ensures Run(sem, [i] + code, m).log == m.log + out
    {
      RunCons(sem, i, code, m);
      var m' := Step(sem, i, m);
      assert SlotHolds(m, s[x], Width(ir[x]), Val(sem, ir, x));
      LoadHolds(m, s[x], Width(ir[x]), Val(sem, ir, x));
      forall y | y in need
        ensures Reg(m', y) == Val(sem, ir, need[y])
      {
        if y != d { assert y in need - {d}; }
      }
      SlotsSame(sem, ir, s, cur, m, m');
    }
  }

  lemma LoadHolds(m: M, slot: nat, w: nat, v: int)
    requires w > 0 && SlotHolds(m, slot, w, v)
    ensures LoadSlot(m, slot, w) == v
  {
    assert slot in m.mem;
  }

  // The store at a definition: afterwards the slot of x counts as valid.
  lemma EmitSpStore(sem: Sem, ir: seq<Ins>, s: seq<nat>, code: seq<MIns>, need: Need, out: seq<(nat, int)>,
                    d: nat, x: nat)
    requires SlotsApart(ir, s) && x < |ir| && s[x] != 0
    requires CodeOk(sem, ir, s, x + 1, code, need, out)
    requires d in need ==> need[d] == x
    ensures CodeOk(sem, ir, s, x, [SpStore(d, s[x], Width(ir[x]))] + code, need[d := x], out)
  {
    var i := SpStore(d, s[x], Width(ir[x]));
    var need' := need[d := x];
    forall m | Holds(sem, ir, m, need') && SlotsOk(sem, ir, s, x, m)
      ensures Run(sem, [i] + code, m).log == m.log + out
    {
      RunCons(sem, i, code, m);
      var m' := Step(sem, i, m);
      assert d in need';
      StoreSlotHolds(m, s[x], Width(ir[x]), Reg(m, d));
      forall y | y in need
        ensures Reg(m', y) == Val(sem, ir, need[y])
      {
        assert y in need';
      }
      StoredSlots(sem, ir, s, x, m, m');
    }
  }

  lemma StoredSlots(sem: Sem, ir: seq<Ins>, s: seq<nat>, x: nat, m: M, m': M)
    requires SlotsApart(ir, s) && x < |ir| && s[x] != 0 && SlotsOk(sem, ir, s, x, m)
    requires SlotHolds(m', s[x], Width(ir[x]), Val(sem, ir, x))
    requires forall q :: (q < s[x] || q >= s[x] + Width(ir[x])) && q in m.mem ==> q in m'.mem && m'.mem[q] == m.mem[q]
    ensures SlotsOk(sem, ir, s, x + 1, m')
  {
    forall y | 0 <= y < |ir| && y < |s| && y < x + 1 && s[y] != 0
      ensures SlotHolds(m', s[y], Width(ir[y]), Val(sem, ir, y))
    {
      if y < x {
        assert SlotHolds(m, s[y], Width(ir[y]), Val(sem, ir, y));
        assert Apart(s[y], Width(ir[y]), s[x], Width(ir[x]));
      }
    }
  }

  // Without a slot there is nothing to store.
  lemma NoSlotToStore(sem: Sem, ir: seq<Ins>, s: seq<nat>, code: seq<MIns>, need: Need, out: seq<(nat, int)>, x: nat)
    requires |s| == |ir| && x < |ir| && s[x] == 0 && CodeOk(sem, ir, s, x + 1, code, need, out)
    ensures CodeOk(sem, ir, s, x, code, need, out)
  {
    forall m | SlotsOk(sem, ir, s, x, m)
      ensures SlotsOk(sem, ir, s, x + 1, m)
    {
      forall y | 0 <= y < |ir| && y < |s| && y < x + 1 && s[y] != 0
        ensures SlotHolds(m, s[y], Width(ir[y]), Val(sem, ir, y))
      {
        assert y < x;
      }
    }
  }

  lemma ValOp(sem: Sem, ir: seq<Ins>, x: nat)
    requires x < |ir| && ir[x].Op? && ir[x].a < x && ir[x].b < x
    ensures Val(sem, ir, x) == sem.op(ir[x].f, Val(sem, ir, ir[x].a), Val(sem, ir, ir[x].b))
  {
  }

  lemma ValLeaf(sem: Sem, ir: seq<Ins>, x: nat)
    requires x < |ir| && ir[x].Leaf?
    ensures Val(sem, ir, x) == sem.leaf(ir[x].f)
  {
  }

  // The instruction itself.
  lemma EmitOp(sem: Sem, ir: seq<Ins>, s: seq<nat>, cur: nat, code: seq<MIns>, need: Need, out: seq<(nat, int)>,
               x: nat, d: nat, l: nat, r: nat)
    requires CodeOk(sem, ir, s, cur, code, need, out)
    requires x < |ir| && ir[x].Op? && ir[x].a < x && ir[x].b < x
    requires d in need ==> need[d] == x
    requires l == r ==> ir[x].a == ir[x].b
    requires (l in need && l != d ==> need[l] == ir[x].a) && (r in need && r != d ==> need[r] == ir[x].b)
    ensures CodeOk(sem, ir, s, cur, [Op3(ir[x].f, d, l, r, x)] + code, (need - {d})[l := ir[x].a][r := ir[x].b],
                   [(x, Val(sem, ir, x))] + out)
  {
    hide Run, SlotsOk, Val;
    var i := Op3(ir[x].f, d, l, r, x);
    assert Val(sem, ir, x) == sem.op(ir[x].f, Val(sem, ir, ir[x].a), Val(sem, ir, ir[x].b)) by { ValOp(sem, ir, x); }
    var need' := (need - {d})[l := ir[x].a][r := ir[x].b];
    forall m | Holds(sem, ir, m, need') && SlotsOk(sem, ir, s, cur, m)
      ensures Run(sem, [i] + code, m).log == m.log + ([(x, Val(sem, ir, x))] + out)
    {
      RunCons(sem, i, code, m);
      var m' := Step(sem, i, m);
      assert l in need' && r in need';
      forall y | y in need
        ensures Reg(m', y) == Val(sem, ir, need[y])
      {
        if y != d { assert y in need'; }
      }
      SlotsSame(sem, ir, s, cur, m, m');
      assert m'.log + out == m.log + ([(x, Val(sem, ir, x))] + out);
    }
  }

  lemma EmitLeaf(sem: Sem, ir: seq<Ins>, s: seq<nat>, cur: nat, code: seq<MIns>, need: Need, out: seq<(nat, int)>,
                 x: nat, d: nat)
    requires CodeOk(sem, ir, s, cur, code, need, out)
    requires x < |ir| && ir[x].Leaf? && (d in need ==> need[d] == x)
    ensures CodeOk(sem, ir, s, cur, [LeafOp(ir[x].f, d, x)] + code, need - {d}, [(x, Val(sem, ir, x))] + out)
  {
    hide Run, SlotsOk, Val;
    ValLeaf(sem, ir, x);
    var i := LeafOp(ir[x].f, d, x);
    forall m | Holds(sem, ir, m, need - {d}) && SlotsOk(sem, ir, s, cur, m)
      ensures Run(sem, [i] + code, m).log == m.log + ([(x, Val(sem, ir, x))] + out)
    {
      RunCons(sem, i, code, m);
      var m' := Step(sem, i, m);
      forall y | y in need
        ensures Reg(m', y) == Val(sem, ir, need[y])
      {
        if y != d { assert y in need - {d}; }
      }
      SlotsSame(sem, ir, s, cur, m, m');
      assert m'.log + out == m.log + ([(x, Val(sem, ir, x))] + out);
    }
  }

  // A call destroys its clobbered registers, so none but d may be needed.
  lemma EmitCall(sem: Sem, ir: seq<Ins>, s: seq<nat>, cur: nat, code: seq<MIns>, need: Need, out: seq<(nat, int)>,
                 x: nat, d: nat, clobber: set<nat>)
    requires CodeOk(sem, ir, s, cur, code, need, out)
    requires x < |ir| && ir[x].Leaf? && (d in need ==> need[d] == x)
    requires need.Keys * clobber <= {d}
    ensures CodeOk(sem, ir, s, cur, [CallOp(ir[x].f, d, clobber, x)] + code, need - {d}, [(x, Val(sem, ir, x))] + out)
  {
    hide Run, SlotsOk, Val;
    ValLeaf(sem, ir, x);
    var i := CallOp(ir[x].f, d, clobber, x);
    forall m | Holds(sem, ir, m, need - {d}) && SlotsOk(sem, ir, s, cur, m)
      ensures Run(sem, [i] + code, m).log == m.log + ([(x, Val(sem, ir, x))] + out)
    {
      RunCons(sem, i, code, m);
      var m' := Step(sem, i, m);
      forall y | y in need
        ensures Reg(m', y) == Val(sem, ir, need[y])
      {
        if y != d { assert y in need - {d}; assert y in need.Keys && y !in clobber; }
      }
      SlotsSame(sem, ir, s, cur, m, m');
      assert m'.log + out == m.log + ([(x, Val(sem, ir, x))] + out);
    }
  }

  // More spill slots only ask for more.
  lemma MoreSlots(sem: Sem, ir: seq<Ins>, s: seq<nat>, s': seq<nat>, cur: nat, code: seq<MIns>, need: Need,
                  out: seq<(nat, int)>)
    requires CodeOk(sem, ir, s, cur, code, need, out) && |s| == |s'| == |ir|
    requires forall x :: 0 <= x < |s| && s[x] != 0 ==> s'[x] == s[x]
    ensures CodeOk(sem, ir, s', cur, code, need, out)
  {
    forall m | SlotsOk(sem, ir, s', cur, m)
      ensures SlotsOk(sem, ir, s, cur, m)
    {
      forall x | 0 <= x < |ir| && x < |s| && x < cur && s[x] != 0
        ensures SlotHolds(m, s[x], Width(ir[x]), Val(sem, ir, x))
      {
        assert s'[x] == s[x];
      }
    }
  }

  // The finished code: nothing needed, and no constant has a slot.
  lemma RunFromAnyState(sem: Sem, ir: seq<Ins>, s: seq<nat>, cur: nat, code: seq<MIns>, need: Need,
                        out: seq<(nat, int)>, m: M)
    requires CodeOk(sem, ir, s, cur, code, need, out) && need == map[]
    requires forall x :: 0 <= x < |s| && x < cur ==> s[x] == 0
    ensures Run(sem, code, m).log == m.log + out
  {
    assert Holds(sem, ir, m, need) && SlotsOk(sem, ir, s, cur, m);
  }
}
