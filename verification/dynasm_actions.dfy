// The action list of the DynASM x86 engine (dynasm/dasm_x86.h): how the bytes
// produced by the preprocessor decode into actions, and which action lists are
// well formed.  All three passes of the engine read the same list.
module DynasmActions {
  type Byte = n: int | 0 <= n < 256

  datatype ImmKind = ImmS | ImmB | ImmW | ImmD | ImmWB | ImmDB

  // One action together with its immediate operand bytes.  `Begin` is not in
  // the action list: it stands for the buffer slot that holds the list offset
  // at the front of every dasm_put.
  datatype Act =
    | Begin(start: nat)
    | Lit(b: Byte)
    | Esc(b: Byte)
    | Imm(kind: ImmKind)
    | Space(fill: Byte)
    | RelLG(n: Byte)
    | RelPC
    | ImmLG(n: Byte)
    | ImmPC
    | LabLG(n: Byte)
    | LabPC
    | Align(mask: Byte)
    | Section(n: Byte)
    | Stop
    | Unsupported

  const MAXSECPOS: nat := 25

  // The action at offset `p`.  Codes from 233 upwards are actions, all smaller
  // bytes stand for themselves.
  function ActAt(al: seq<Byte>, p: int): (a: Act)
    ensures !a.Begin?
  {
    if !(0 <= p < |al|) then Unsupported
    else if al[p] < 233 then Lit(al[p])
    else if al[p] == 234 then Imm(ImmS)
    else if al[p] == 235 then Imm(ImmB)
    else if al[p] == 236 then Imm(ImmW)
    else if al[p] == 237 then Imm(ImmD)
    else if al[p] == 238 then Imm(ImmWB)
    else if al[p] == 239 then Imm(ImmDB)
    else if al[p] == 245 then RelPC
    else if al[p] == 247 then ImmPC
    else if al[p] == 249 then LabPC
    else if al[p] == 255 then Stop
    else if p + 1 >= |al| then Unsupported
    else if al[p] == 241 then Space(al[p + 1])
    else if al[p] == 244 then RelLG(al[p + 1])
    else if al[p] == 246 then ImmLG(al[p + 1])
    else if al[p] == 248 then LabLG(al[p + 1])
    else if al[p] == 250 then Align(al[p + 1])
    else if al[p] == 252 then Esc(al[p + 1])
    else if al[p] == 254 then Section(al[p + 1])
    else Unsupported
  }

  // Number of action list bytes taken by an action.
  function Len(a: Act): nat {
    match a
    case Esc(_) | Space(_) | RelLG(_) | ImmLG(_) | LabLG(_) | Align(_) => 2
    case _ => 1
  }

  // Number of section buffer slots an action occupies.
  function Slots(a: Act): nat {
    match a
    case Begin(_) => 1
    case Imm(_) | Space(_) | ImmLG(_) | ImmPC | LabLG(_) | LabPC | Align(_) => 1
    case RelLG(_) | RelPC => 2
    case _ => 0
  }

  predicate IsRel(a: Act) { a.RelLG? || a.RelPC? }

  // The actions whose first slot is linked to a label.
  predicate IsRef(a: Act) { IsRel(a) || a.ImmLG? || a.ImmPC? }

  predicate IsLabel(a: Act) { a.LabLG? || a.LabPC? }

  predicate IsEnd(a: Act) { a.Section? || a.Stop? }

  predicate IsLit(a: Act) { a.Lit? || a.Esc? }

  // Does a signed byte hold n?  The engine writes ((n+128)&-256) == 0.
  predicate FitsS8(n: int) { -128 <= n <= 127 }

  // Bytes an immediate operand takes; the engine decides this from the value,
  // once in dasm_put and once more in dasm_encode.
  function ImmSize(k: ImmKind, n: int): nat {
    match k
    case ImmS | ImmB => 1
    case ImmD => 4
    case ImmDB => if FitsS8(n) then 1 else 4
    case ImmW => 2
    case ImmWB => if FitsS8(n) then 1 else 2
  }

  // The operand range checks of dasm_put.
  predicate ImmInRange(k: ImmKind, n: int) {
    match k
    case ImmS => FitsS8(n)
    case ImmB => 0 <= n < 256
    case ImmW => 0 <= n < 65536
    case ImmWB => FitsS8(n) || 0 <= n < 65536
    case ImmD | ImmDB => true
  }

  // Largest possible size of an action's code, the pass 1 estimate.
  function MaxSize(a: Act, arg: int): int {
    match a
    case Lit(_) | Esc(_) => 1
    case Imm(k) => ImmSize(k, arg)
    case Space(_) => arg
    case RelLG(_) | RelPC | ImmLG(_) | ImmPC => 4
    case Align(m) => m
    case _ => 0
  }

  // How many bytes a branch with this opcode byte can lose: jmp rel32 goes
  // from 5 to 2 bytes, jcc rel32 from 6 to 2.
  function Shrink(op: int): nat {
    if op == 0xe9 then 3 else if 0x80 <= op < 0x90 then 4 else 0
  }

  predicate IsMask(m: int) {
    m == 0 || m == 1 || m == 3 || m == 7 || m == 15 || m == 31 || m == 63 || m == 127 || m == 255
  }

  // What the preprocessor guarantees about the list from offset p on, given the
  // literal bytes b1 (directly before p) and b2 (before b1), or -1 when another
  // action stands there: every action is known, alignments are 2^n-1, a
  // relative operand follows its opcode byte (and a conditional branch opcode
  // follows 0x0f), and a width-selecting immediate follows opcode and ModRM.
  predicate WellFormed(al: seq<Byte>, p: int, b1: int, b2: int)
    decreases |al| - p
  {
    var a := ActAt(al, p);
    && !a.Unsupported?
    && (IsRel(a) ==> b1 >= 0 && (Shrink(b1) == 4 ==> b2 == 0x0f))
    && (a == Imm(ImmDB) || a == Imm(ImmWB) ==> b1 >= 0 && b2 >= 0)
    && (a.Align? ==> IsMask(a.mask))
    && (!IsEnd(a) ==>
          WellFormed(al, p + Len(a), if IsLit(a) then a.b else -1, if IsLit(a) then b1 else -1))
  }

  // Slots taken by the actions from p to the end of the put.
  function SlotsFrom(al: seq<Byte>, p: int): nat
    decreases |al| - p
  {
    var a := ActAt(al, p);
    if a.Unsupported? || IsEnd(a) then 0 else Slots(a) + SlotsFrom(al, p + Len(a))
  }

  predicate TakesArg(a: Act) {
    a.Imm? || a.Space? || a.RelPC? || a.ImmPC? || a.LabPC?
  }

  // The variable arguments suffice for the actions from p on, and no
  // `.space` has a negative length.
  predicate ArgsFit(al: seq<Byte>, p: int, args: seq<int>)
    decreases |al| - p
  {
    var a := ActAt(al, p);
    a.Unsupported? || IsEnd(a) ||
    if TakesArg(a) then
      |args| > 0 && (a.Space? ==> args[0] >= 0) && ArgsFit(al, p + Len(a), args[1..])
    else ArgsFit(al, p + Len(a), args)
  }

  // Little-endian bytes of the low 16 and low 32 bits (dasmw and dasmd).
  function Le2(x: int): (r: seq<Byte>)
    ensures |r| == 2
  {
    [x % 256, (x / 256) % 256]
  }

  function Le4(x: int): (r: seq<Byte>)
    ensures |r| == 4
  {
    [x % 256, (x / 256) % 256, (x / 65536) % 256, (x / 16777216) % 256]
  }

  // What the processor reads back.
  function ReadS8(b: Byte): int { if b < 128 then b else b - 256 }

  function ReadS32(s: seq<Byte>): int
    requires |s| == 4
  {
    var u: int := s[0] as int + 256 * (s[1] as int) + 65536 * (s[2] as int) + 16777216 * (s[3] as int);
    if u < 0x80000000 then u else u - 0x1_0000_0000
  }

  lemma ReadBackS8(n: int)
    requires FitsS8(n)
    ensures ReadS8(n % 256) == n
  {
    if n < 0 { assert n % 256 == n + 256; }
  }

  lemma ReadBackS32(n: int)
    requires -0x80000000 <= n < 0x80000000
    ensures ReadS32(Le4(n)) == n
  {
    var m := if n < 0 then n + 0x1_0000_0000 else n;
    var q1 := n / 256;
    var q2 := n / 65536;
    var q3 := n / 16777216;
    assert q2 == q1 / 256;
    assert q3 == q2 / 256;
    assert q3 % 256 == if n < 0 then q3 + 256 else q3;
  }
}
