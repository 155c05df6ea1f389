// The finished code as a processor reads it, item by item.
module DynasmRead {
  import opened DynasmActions
  import opened DynasmStore
  import opened DynasmView
  import opened DynasmLayout
  import opened DynasmLink
  import opened DynasmEncode

  // -- Little-endian numbers -------------------------------------------------

  function Unsigned(s: seq<Byte>): nat {
    if s == [] then 0 else s[0] as int + 256 * Unsigned(s[1..])
  }

  lemma Unsigned1(s: seq<Byte>)
    requires |s| == 1
    ensures Unsigned(s) == s[0]
  {
    assert s[1..] == [];
  }

  lemma Unsigned2(s: seq<Byte>)
    requires |s| == 2
    ensures Unsigned(s) == s[0] as int + 256 * (s[1] as int)
  {
    Unsigned1(s[1..]);
  }

  lemma Unsigned4(s: seq<Byte>)
    requires |s| == 4
    ensures Unsigned(s) == s[0] as int + 256 * (s[1] as int) + 65536 * (s[2] as int) + 16777216 * (s[3] as int)
  {
    assert s[1..][1..] == s[2..];
    Unsigned2(s[2..]);
  }

  // Digits of n in base 256.
  lemma Digits2(n: int, a: int)
    requires a == n / 256
    ensures n % 65536 == n % 256 + 256 * (a % 256)
  {
    assert n == 256 * a + n % 256 && a == 256 * (a / 256) + a % 256;
  }

  lemma Digits3(n: int, a: int)
    requires a == n / 256
    ensures n % 16777216 == n % 256 + 256 * (a % 65536)
  {
    assert n == 256 * a + n % 256 && a == 65536 * (a / 65536) + a % 65536;
  }

  lemma Digits4(n: int, a: int)
    requires a == n / 256
    ensures n % 0x1_0000_0000 == n % 256 + 256 * (a % 16777216)
  {
    assert n == 256 * a + n % 256 && a == 16777216 * (a / 16777216) + a % 16777216;
  }

  lemma ReadLe2(n: int)
    ensures Unsigned(Le2(n)) == n % 65536
  {
    Unsigned2(Le2(n));
    Digits2(n, n / 256);
  }

  lemma ReadLe4(n: int)
    ensures Unsigned(Le4(n)) == n % 0x1_0000_0000
  {
    var a := n / 256;
    var b := a / 256;
    var c := b / 256;
    Unsigned4(Le4(n));
    Quotients(n, a, b, c);
    Digits4(n, a);
    Digits3(a, b);
    Digits2(b, c);
  }

  lemma Quotients(n: int, a: int, b: int, c: int)
    requires a == n / 256 && b == a / 256 && c == b / 256
    ensures n / 65536 == b && n / 16777216 == c
  {
    assert n == 256 * a + n % 256 && a == 256 * b + a % 256 && b == 256 * c + b % 256;
    assert n == 65536 * b + (256 * (a % 256) + n % 256);
    assert n == 16777216 * c + (65536 * (b % 256) + 256 * (a % 256) + n % 256);
  }

  // -- Items without labels --------------------------------------------------

  // An immediate operand: as many bytes as its kind and value call for, with the
  // value modulo the width; a single byte stands for the value sign-extended where
  // the opcode says so.
  predicate ImmRead(kind: ImmKind, n: int, bytes: seq<Byte>) {
    match kind
    case ImmS => |bytes| == 1 && Unsigned(bytes) == n % 256
    case ImmB => |bytes| == 1 && Unsigned(bytes) == n % 256
    case ImmW => |bytes| == 2 && Unsigned(bytes) == n % 65536
    case ImmD => |bytes| == 4 && Unsigned(bytes) == n % 0x1_0000_0000
    case ImmWB => if -128 <= n <= 127 then |bytes| == 1 && ReadS8(bytes[0]) == n
                  else |bytes| == 2 && Unsigned(bytes) == n % 65536
    case ImmDB => if -128 <= n <= 127 then |bytes| == 1 && ReadS8(bytes[0]) == n
                  else |bytes| == 4 && Unsigned(bytes) == n % 0x1_0000_0000
  }

  lemma ImmReads(kind: ImmKind, n: int)
    ensures ImmRead(kind, n, ImmBytes(kind, n))
  {
    Unsigned1([n % 256]);
    ReadLe2(n);
    ReadLe4(n);
    if -128 <= n <= 127 { ReadBackS8(n); }
    hide Unsigned, Le2, Le4, ReadS8;
  }

  // The branch that opcode bytes stand for.
  datatype Jump = NoJump | Always | When(cond: int)

  // jmp rel32 and jcc rel32, whose opcode is b2 and b1 or just b1.
  function NearJump(b2: int, b1: int): Jump {
    if b1 == 0xe9 then Always else if b2 == 0x0f && 0x80 <= b1 <= 0x8f then When(b1 - 0x80) else NoJump
  }

  // jmp rel8 and jcc rel8.
  function ShortJump(b: int): Jump {
    if b == 0xeb then Always else if 0x70 <= b <= 0x7f then When(b - 0x70) else NoJump
  }

  predicate IsItem(v: View, s: nat, k: nat) { s < |v.items| && k < |v.items[s]| }

  // A branch that is encoded with an 8 bit displacement.
  predicate ShortBranch(v: View, fin: Offsets, s: nat, k: nat)
    requires Shaped(v, fin)
  {
    IsItem(v, s, k) && IsRel(v.items[s][k].act) && fin[s][k + 1] - fin[s][k] != 4
  }

  // It is the same branch as the literal bytes before it say.
  predicate BranchRead(v: View, fin: Offsets, code: seq<Byte>, s: nat, k: nat)
    requires Shaped(v, fin) && IsItem(v, s, k)
  {
    ShortBranch(v, fin, s, k) ==>
      var f1, was := fin[s][k + 1], NearJump(LitAt(v.items[s], k - 2), LitAt(v.items[s], k - 1));
      2 <= f1 <= |code| && was != NoJump && ShortJump(code[f1 - 2]) == was
  }

  // The immediate after opcode and ModRM is encoded in 8 bits.
  predicate ShortValue(v: View, s: nat, k: nat) {
    IsItem(v, s, k) && k >= 2 && IsLit(v.items[s][k - 1].act) && IsLit(v.items[s][k - 2].act)
    && v.items[s][k].act.Imm? && v.items[s][k].act.kind in {ImmWB, ImmDB} && -128 <= v.items[s][k].arg <= 127
  }

  // The literal byte is the opcode of a short jmp, or one of the two of a short jcc.
  predicate ShortOpcode(v: View, fin: Offsets, s: nat, k: nat)
    requires Shaped(v, fin) && IsItem(v, s, k)
  {
    ShortBranch(v, fin, s, k + 1) || (ShortBranch(v, fin, s, k + 2) && LitAt(v.items[s], k + 1) != 0xe9)
  }

  // A literal byte is in the code, unless it belongs to the opcode of a branch that
  // has become short; an opcode before a short value has its sign-extending form.
  predicate LitRead(v: View, fin: Offsets, code: seq<Byte>, s: nat, k: nat)
    requires Shaped(v, fin) && IsItem(v, s, k)
  {
    IsLit(v.items[s][k].act) ==>
      && 0 <= fin[s][k] < |code| && fin[s][k + 1] == fin[s][k] + 1
      && (!ShortOpcode(v, fin, s, k) ==>
            code[fin[s][k]] == if ShortValue(v, s, k + 2) then (v.items[s][k].act.b + 2) % 256 else v.items[s][k].act.b)
  }

  // Padding: the bytes asked for, and nops up to the alignment and no farther.
  predicate PadRead(v: View, fin: Offsets, code: seq<Byte>, s: nat, k: nat)
    requires Shaped(v, fin) && IsItem(v, s, k)
  {
    var it, f0, f1 := v.items[s][k], fin[s][k], fin[s][k + 1];
    && 0 <= f0 <= f1 <= |code|
    && (it.act.Space? ==> f1 == f0 + it.arg && forall i :: f0 <= i < f1 ==> code[i] == it.act.fill)
    && (it.act.Align? ==> f1 % (it.act.mask + 1) == 0 && f1 - f0 <= it.act.mask
                          && forall i :: f0 <= i < f1 ==> code[i] == 0x90)
  }

  predicate ValueRead(v: View, fin: Offsets, code: seq<Byte>, s: nat, k: nat)
    requires Shaped(v, fin) && IsItem(v, s, k)
  {
    var it, f0, f1 := v.items[s][k], fin[s][k], fin[s][k + 1];
    it.act.Imm? ==> 0 <= f0 <= f1 <= |code| && ImmRead(it.act.kind, it.arg, code[f0..f1])
  }

  predicate ItemRead(v: View, fin: Offsets, code: seq<Byte>, s: nat, k: nat)
    requires Shaped(v, fin) && IsItem(v, s, k)
  {
    LitRead(v, fin, code, s, k) && ValueRead(v, fin, code, s, k) && PadRead(v, fin, code, s, k)
      && BranchRead(v, fin, code, s, k)
  }

  ghost predicate AllRead(v: View, fin: Offsets, code: seq<Byte>)
    requires Shaped(v, fin)
  {
    forall s: nat, k: nat {:trigger ItemRead(v, fin, code, s, k)} :: IsItem(v, s, k) ==> ItemRead(v, fin, code, s, k)
  }

  // -- What was emitted reads like that --------------------------------------

  lemma RelSize(v: View, fin: Offsets, cells: map<int, int>, codesize: int, s: nat, k: nat)
    requires Linked(v, fin, cells, codesize) && IsItem(v, s, k) && IsRel(v.items[s][k].act)
    ensures Shaped(v, fin) && fin[s][k + 1] - fin[s][k] == 4 - ShrinkOf(v, cells, s, k)
    ensures ShrinkOf(v, cells, s, k) == 0 || ShrinkOf(v, cells, s, k) == MayShrink(v, s, k)
  {
    assert Placed(v, fin, cells, s, k);
    RefSize(v, cells, s, k, fin[s][k], fin[s][k + 1]);
  }

  // Only a relative branch shrinks.
  lemma ShrinkIs(v: View, fin: Offsets, cells: map<int, int>, codesize: int, s: nat, k: nat)
    requires Linked(v, fin, cells, codesize) && IsItem(v, s, k)
    ensures Shaped(v, fin) && (ShrinkOf(v, cells, s, k) != 0 <==> ShortBranch(v, fin, s, k))
  {
    if IsRel(v.items[s][k].act) { RelSize(v, fin, cells, codesize, s, k); }
    hide Linked;
  }

  lemma LitReads(v: View, fin: Offsets, cells: map<int, int>, codesize: int, gl: seq<int>, base: int, code: seq<Byte>,
                 s: nat, k: nat)
    requires Linked(v, fin, cells, codesize) && AllEmitted(v, fin, cells, gl, base, code) && IsItem(v, s, k)
    ensures Shaped(v, fin) && LitRead(v, fin, code, s, k)
  {
    LinkedShaped(v, fin, cells, codesize);
    EmittedHere(v, fin, cells, gl, base, code, s, k);
    if IsLit(v.items[s][k].act) {
      if IsItem(v, s, k + 1) { ShrinkIs(v, fin, cells, codesize, s, k + 1); }
      if IsItem(v, s, k + 2) {
        ShrinkIs(v, fin, cells, codesize, s, k + 2);
        if IsRel(v.items[s][k + 2].act) { RelSize(v, fin, cells, codesize, s, k + 2); }
      }
    }
    hide Linked, AllEmitted, ShrinkOf;
  }

  lemma LinkedShaped(v: View, fin: Offsets, cells: map<int, int>, codesize: int)
    requires Linked(v, fin, cells, codesize)
    ensures Shaped(v, fin)
  {
  }

  lemma EmittedHere(v: View, fin: Offsets, cells: map<int, int>, gl: seq<int>, base: int, code: seq<Byte>, s: nat,
                    k: nat)
    requires Shaped(v, fin) && AllEmitted(v, fin, cells, gl, base, code) && IsItem(v, s, k)
    ensures Emitted(v, cells, gl, base, code, s, k, |v.items[s]|, fin[s][k], fin[s][k + 1])
  {
    assert EmittedAt(v, fin, cells, gl, base, code, s, k, |v.items[s]|);
    hide Emitted;
  }

  lemma ValueReads(v: View, fin: Offsets, cells: map<int, int>, gl: seq<int>, base: int, code: seq<Byte>, s: nat,
                   k: nat)
    requires Shaped(v, fin) && AllEmitted(v, fin, cells, gl, base, code) && IsItem(v, s, k)
    ensures ValueRead(v, fin, code, s, k) && PadRead(v, fin, code, s, k)
  {
    EmittedHere(v, fin, cells, gl, base, code, s, k);
    if v.items[s][k].act.Imm? { ImmReads(v.items[s][k].act.kind, v.items[s][k].arg); }
    hide AllEmitted, RefEmitted, ImmRead, ImmBytes, LitByte;
  }

  // A short branch follows its opcode, rewritten.
  lemma BranchReads(v: View, fin: Offsets, cells: map<int, int>, codesize: int, gl: seq<int>, base: int,
                    code: seq<Byte>, s: nat, k: nat)
    requires LinkReady(v) && Linked(v, fin, cells, codesize) && AllEmitted(v, fin, cells, gl, base, code)
             && IsItem(v, s, k)
    ensures Shaped(v, fin) && BranchRead(v, fin, code, s, k)
  {
    LinkedShaped(v, fin, cells, codesize);
    hide *;
    if ShortBranch(v, fin, s, k) {
      LastLitEnds(v, fin, cells, codesize, gl, base, code, s, k);
      FirstLitEnds(v, fin, cells, codesize, gl, base, code, s, k);
      JumpRead(v, fin, cells, code, s, k);
    } else {
      LongRead(v, fin, code, s, k);
    }
  }

  // The literal before a short branch, for a jmp.
  predicate JmpAt(v: View, fin: Offsets, cells: map<int, int>, code: seq<Byte>, s: nat, k: nat)
    requires Shaped(v, fin)
  {
    && IsItem(v, s, k) && k >= 1 && IsLit(v.items[s][k - 1].act)
    && 0 <= fin[s][k - 1] < |code| && fin[s][k] == fin[s][k - 1] + 1 && fin[s][k + 1] <= |code|
    && fin[s][k + 1] - fin[s][k] == 4 - ShrinkOf(v, cells, s, k)
    && (ShrinkOf(v, cells, s, k) == 3 || ShrinkOf(v, cells, s, k) == 4)
    && (ShrinkOf(v, cells, s, k) == 3 ==> v.items[s][k - 1].act.b == 0xe9 && code[fin[s][k - 1]] == 0xeb)
  }

  // And both of them, for a jcc.
  predicate JccAt(v: View, fin: Offsets, cells: map<int, int>, code: seq<Byte>, s: nat, k: nat)
    requires Shaped(v, fin)
  {
    IsItem(v, s, k) && ShrinkOf(v, cells, s, k) == 4 ==>
      && k >= 2 && IsLit(v.items[s][k - 2].act) && v.items[s][k - 2].act.b == 0x0f
      && IsLit(v.items[s][k - 1].act) && 0x80 <= v.items[s][k - 1].act.b <= 0x8f
      && 0 <= fin[s][k - 2] < |code| && fin[s][k - 1] == fin[s][k - 2] + 1
      && code[fin[s][k - 2]] == (v.items[s][k - 1].act.b as int - 0x10) % 256
  }

  lemma LastLitEnds(v: View, fin: Offsets, cells: map<int, int>, codesize: int, gl: seq<int>, base: int,
                    code: seq<Byte>, s: nat, k: nat)
    requires LinkReady(v) && Linked(v, fin, cells, codesize) && AllEmitted(v, fin, cells, gl, base, code)
    requires Shaped(v, fin) && ShortBranch(v, fin, s, k)
    ensures JmpAt(v, fin, cells, code, s, k)
  {
    hide *;
    BranchIsRel(v, fin, s, k);
    RelSize(v, fin, cells, codesize, s, k);
    ShrinkIs(v, fin, cells, codesize, s, k);
    OpcodeIs(v, s, k);
    JumpByte(v, cells, s, k);
    LitEnds(v, fin, cells, codesize, gl, base, code, s, k - 1);
    EmittedEnds(v, fin, cells, gl, base, code, s, k);
    JmpIs(v, fin, cells, code, s, k);
  }

  lemma EmittedEnds(v: View, fin: Offsets, cells: map<int, int>, gl: seq<int>, base: int, code: seq<Byte>, s: nat,
                    k: nat)
    requires Shaped(v, fin) && AllEmitted(v, fin, cells, gl, base, code) && IsItem(v, s, k)
    ensures 0 <= fin[s][k] <= fin[s][k + 1] <= |code|
  {
    EmittedHere(v, fin, cells, gl, base, code, s, k);
    hide RefEmitted, LitByte, AllEmitted;
  }

  lemma JmpIs(v: View, fin: Offsets, cells: map<int, int>, code: seq<Byte>, s: nat, k: nat)
    requires Shaped(v, fin) && IsItem(v, s, k) && k >= 1 && IsLit(v.items[s][k - 1].act)
    requires 0 <= fin[s][k - 1] < |code| && fin[s][k] == fin[s][k - 1] + 1 && fin[s][k + 1] <= |code|
    requires fin[s][k + 1] - fin[s][k] == 4 - ShrinkOf(v, cells, s, k)
    requires ShrinkOf(v, cells, s, k) == 3 || ShrinkOf(v, cells, s, k) == 4
    requires ShrinkOf(v, cells, s, k) == 3 ==> v.items[s][k - 1].act.b == 0xe9 && code[fin[s][k - 1]] == 0xeb
    ensures JmpAt(v, fin, cells, code, s, k)
  {
  }

  lemma FirstLitEnds(v: View, fin: Offsets, cells: map<int, int>, codesize: int, gl: seq<int>, base: int,
                     code: seq<Byte>, s: nat, k: nat)
    requires LinkReady(v) && Linked(v, fin, cells, codesize) && AllEmitted(v, fin, cells, gl, base, code)
    requires Shaped(v, fin) && ShortBranch(v, fin, s, k)
    ensures JccAt(v, fin, cells, code, s, k)
  {
    hide *;
    BranchIsRel(v, fin, s, k);
    RelSize(v, fin, cells, codesize, s, k);
    if ShrinkOf(v, cells, s, k) == 4 {
      OpcodeIs(v, s, k);
      JccByte(v, cells, s, k);
      LitEnds(v, fin, cells, codesize, gl, base, code, s, k - 2);
    }
    JccIs(v, fin, cells, code, s, k);
  }

  lemma JccIs(v: View, fin: Offsets, cells: map<int, int>, code: seq<Byte>, s: nat, k: nat)
    requires Shaped(v, fin) && IsItem(v, s, k)
    requires ShrinkOf(v, cells, s, k) == 4 ==>
               && k >= 2 && IsLit(v.items[s][k - 2].act) && v.items[s][k - 2].act.b == 0x0f
               && IsLit(v.items[s][k - 1].act) && 0x80 <= v.items[s][k - 1].act.b <= 0x8f
               && 0 <= fin[s][k - 2] < |code| && fin[s][k - 1] == fin[s][k - 2] + 1
               && code[fin[s][k - 2]] == (v.items[s][k - 1].act.b as int - 0x10) % 256
    ensures JccAt(v, fin, cells, code, s, k)
  {
  }

  lemma BranchIsRel(v: View, fin: Offsets, s: nat, k: nat)
    requires Shaped(v, fin) && ShortBranch(v, fin, s, k)
    ensures IsItem(v, s, k) && s < |v.items| && k < |v.items[s]| && s < |fin| && |fin[s]| == |v.items[s]| + 1
    ensures IsRel(v.items[s][k].act)
  {
  }

  lemma LongRead(v: View, fin: Offsets, code: seq<Byte>, s: nat, k: nat)
    requires Shaped(v, fin) && IsItem(v, s, k) && !ShortBranch(v, fin, s, k)
    ensures BranchRead(v, fin, code, s, k)
  {
  }

  // What becomes of the opcode of a branch that loses 3 or 4 bytes.
  lemma JumpByte(v: View, cells: map<int, int>, s: nat, k: nat)
    requires IsItem(v, s, k) && IsRel(v.items[s][k].act) && k >= 1 && IsLit(v.items[s][k - 1].act)
    ensures ShrinkOf(v, cells, s, k) == 3 ==> LitByte(v, cells, s, k - 1, |v.items[s]|) == 0xeb
  {
  }

  lemma JccByte(v: View, cells: map<int, int>, s: nat, k: nat)
    requires IsItem(v, s, k) && IsRel(v.items[s][k].act) && ShrinkOf(v, cells, s, k) == 4
    requires k >= 2 && IsLit(v.items[s][k - 1].act) && IsLit(v.items[s][k - 2].act)
    ensures LitByte(v, cells, s, k - 2, |v.items[s]|) == (v.items[s][k - 1].act.b as int - 0x10) % 256
  {
  }

  lemma JumpRead(v: View, fin: Offsets, cells: map<int, int>, code: seq<Byte>, s: nat, k: nat)
    requires Shaped(v, fin) && ShortBranch(v, fin, s, k)
    requires JmpAt(v, fin, cells, code, s, k) && JccAt(v, fin, cells, code, s, k)
    ensures BranchRead(v, fin, code, s, k)
  {
  }

  lemma OpcodeIs(v: View, s: nat, k: nat)
    requires LinkReady(v) && IsItem(v, s, k) && IsRel(v.items[s][k].act) && MayShrink(v, s, k) != 0
    ensures k >= 1 && IsLit(v.items[s][k - 1].act) && (MayShrink(v, s, k) == 3 ==> v.items[s][k - 1].act.b == 0xe9)
    ensures MayShrink(v, s, k) == 3 || MayShrink(v, s, k) == 4
    ensures MayShrink(v, s, k) == 4 ==>
              && k >= 2 && IsLit(v.items[s][k - 2].act) && v.items[s][k - 2].act.b == 0x0f
              && 0x80 <= v.items[s][k - 1].act.b <= 0x8f
  {
    ReadyParts(v);
    hide LinkReady, LayoutInv, HistoryInv, Bound;
    StoredOpcode(v, s, k);
  }

  // Where a literal byte stands and what it has become.
  lemma LitEnds(v: View, fin: Offsets, cells: map<int, int>, codesize: int, gl: seq<int>, base: int, code: seq<Byte>,
                s: nat, k: nat)
    requires Linked(v, fin, cells, codesize) && AllEmitted(v, fin, cells, gl, base, code)
    requires s < |v.items| && k < |v.items[s]|
    requires IsLit(v.items[s][k].act)
    ensures Shaped(v, fin) && 0 <= fin[s][k] < |code| && fin[s][k + 1] == fin[s][k] + 1
    ensures var b := LitByte(v, cells, s, k, |v.items[s]|); b >= 0 ==> code[fin[s][k]] == b
  {
    LinkedShaped(v, fin, cells, codesize);
    EmittedHere(v, fin, cells, gl, base, code, s, k);
    hide Linked, AllEmitted, LitByte, RefEmitted;
  }

  lemma AllReads(v: View, fin: Offsets, cells: map<int, int>, codesize: int, gl: seq<int>, base: int, code: seq<Byte>)
    requires LinkReady(v) && Linked(v, fin, cells, codesize) && AllEmitted(v, fin, cells, gl, base, code)
    ensures Shaped(v, fin) && AllRead(v, fin, code)
  {
    LinkedShaped(v, fin, cells, codesize);
    hide LinkReady, Linked, AllEmitted, LitRead, ValueRead, PadRead, BranchRead;
    forall s: nat, k: nat | IsItem(v, s, k)
      ensures ItemRead(v, fin, code, s, k)
    {
      LitReads(v, fin, cells, codesize, gl, base, code, s, k);
      ValueReads(v, fin, cells, gl, base, code, s, k);
      BranchReads(v, fin, cells, codesize, gl, base, code, s, k);
    }
  }
}
