// DynASM pass 3: dasm_encode, and the agreement of the three passes.
module DynasmEncode {
  import opened Arith
  import opened DynasmActions
  import opened DynasmStore
  import opened DynasmView
  import opened DynasmLayout
  import opened DynasmPass1
  import opened DynasmLink

  // -- What the finished code must contain -----------------------------------

  // Bytes taken off the branch stored as item k of section s.
  function ShrinkOf(v: View, cells: map<int, int>, s: nat, k: nat): int
    requires s < |v.items| && k < |v.items[s]|
  {
    var it := v.items[s][k];
    if IsRel(it.act) && it.pos + 1 in cells then cells[it.pos + 1] else 0
  }

  // An immediate whose value selected the short form.
  predicate IsShortImm(it: Item) {
    it.act.Imm? && (it.act.kind == ImmDB || it.act.kind == ImmWB) && FitsS8(it.arg)
  }

  // Does item m turn the literal byte two items before it into something else?
  predicate Patches2(v: View, cells: map<int, int>, s: nat, m: nat)
    requires s < |v.items| && m < |v.items[s]|
  {
    m >= 2 && LitAt(v.items[s], m - 1) >= 0 && (ShrinkOf(v, cells, s, m) == 4 || IsShortImm(v.items[s][m]))
  }

  // The final value of the literal byte of item k, when the items before m have
  // been encoded; -1 when the byte's place was taken by a displacement.  A short
  // jump has opcode 0xeb, a short conditional branch the second opcode byte less
  // 0x10, and a short immediate the sign-extending opcode two above.
  function LitByte(v: View, cells: map<int, int>, s: nat, k: nat, m: nat): int
    requires s < |v.items| && k < m <= |v.items[s]| && IsLit(v.items[s][k].act)
  {
    var I := v.items[s];
    if k + 1 < m && ShrinkOf(v, cells, s, k + 1) == 3 then 0xeb
    else if k + 1 < m && ShrinkOf(v, cells, s, k + 1) == 4 then -1
    else if k + 2 < m && Patches2(v, cells, s, k + 2) then
      if IsShortImm(I[k + 2]) then (I[k].act.b + 2) % 256 else (LitAt(I, k + 1) - 0x10) % 256
    else I[k].act.b
  }

  // The address or displacement operand of a reference whose code ends at f1:
  // a displacement from the end of the instruction, or an absolute address.
  // Undefined globals (t < 0) take their address from the table gl.
  function Operand(cells: map<int, int>, gl: seq<int>, base: int, rel: bool, t: int, f1: int): int
    requires if t < 0 then -t < |gl| else t in cells
  {
    var addr := if t < 0 then gl[-t] else cells[t] + base;
    if rel then addr - (base + f1) else addr
  }

  function ImmBytes(k: ImmKind, n: int): (r: seq<Byte>)
    ensures |r| == ImmSize(k, n)
  {
    match ImmSize(k, n)
    case 1 => [n % 256]
    case 2 => Le2(n)
    case _ => Le4(n)
  }

  // `code` holds the bytes of item k of section s, which span f0 .. f1, when
  // the items before m have been encoded.
  ghost predicate Emitted(v: View, cells: map<int, int>, gl: seq<int>, base: int, code: seq<Byte>,
                          s: nat, k: nat, m: nat, f0: int, f1: int)
    requires s < |v.items| && k < m <= |v.items[s]|
  {
    var it := v.items[s][k];
    && 0 <= f0 <= f1 <= |code|
    && (IsLit(it.act) ==> f1 == f0 + 1 && (LitByte(v, cells, s, k, m) >= 0 ==> code[f0] == LitByte(v, cells, s, k, m)))
    && (it.act.Imm? ==> code[f0..f1] == ImmBytes(it.act.kind, it.arg))
    && (it.act.Space? ==> f1 == f0 + it.arg && forall i :: f0 <= i < f1 ==> code[i] == it.act.fill)
    && (it.act.Align? ==> f1 % (it.act.mask + 1) == 0 && f1 - f0 <= it.act.mask && forall i ::
       f0 <= i < f1 ==> code[i] == 0x90)
    && (IsRef(it.act) ==> it.pos in cells && RefEmitted(v, cells, gl, base, code, s, k, f0, f1))
  }

  ghost predicate RefEmitted(v: View, cells: map<int, int>, gl: seq<int>, base: int, code: seq<Byte>,
                             s: nat, k: nat, f0: int, f1: int)
    requires s < |v.items| && k < |v.items[s]| && v.items[s][k].pos in cells && 0 <= f0 <= f1 <= |code|
  {
    var it := v.items[s][k];
    var t := cells[it.pos];
    && (if t < 0 then -t < |gl| else t in cells)
    && var x := Operand(cells, gl, base, IsRel(it.act), t, f1);
       if ShrinkOf(v, cells, s, k) == 0 then code[f0..f1] == Le4(x)
       else f1 > 0 && code[f1 - 1] == x % 256
  }

  // -- Keeping what was emitted ----------------------------------------------

  // Items before m of section s and all earlier sections are in the code.
  ghost predicate EncState(v: View, fin: Offsets, cells: map<int, int>, gl: seq<int>, base: int, code: seq<Byte>,
                           s: nat, m: nat) {
    && Shaped(v, fin) && s < |fin| && m <= |v.items[s]| && |code| == fin[s][m]
    && (forall r, k :: 0 <= r < s && 0 <= k < |v.items[r]|
                       ==> EmittedAt(v, fin, cells, gl, base, code, r, k, |v.items[r]|))
    && EmittedFrom(v, fin, cells, gl, base, code, s, 0, m)
  }

  ghost predicate EmittedFrom(v: View, fin: Offsets, cells: map<int, int>, gl: seq<int>, base: int, code: seq<Byte>,
                              s: nat, low: nat, m: nat)
    requires Shaped(v, fin) && s < |fin| && m <= |v.items[s]|
  {
    forall k :: low <= k < m ==> EmittedAt(v, fin, cells, gl, base, code, s, k, m)
  }

  ghost predicate EmittedAt(v: View, fin: Offsets, cells: map<int, int>, gl: seq<int>, base: int, code: seq<Byte>,
                            s: nat, k: nat, m: nat)
    requires Shaped(v, fin) && s < |fin| && k < m <= |v.items[s]|
  {
    Emitted(v, cells, gl, base, code, s, k, m, fin[s][k], fin[s][k + 1])
  }

  // Code behind an item does not matter to it, and neither does an item that
  // patches none of its bytes.
  lemma KeepEmitted(v: View, cells: map<int, int>, gl: seq<int>, base: int, code: seq<Byte>, code': seq<Byte>,
                    s: nat, k: nat, m: nat, m': nat, f0: int, f1: int)
    requires s < |v.items| && k < m <= m' <= |v.items[s]|
    requires Emitted(v, cells, gl, base, code, s, k, m, f0, f1)
    requires f1 <= |code'| && forall i :: 0 <= i < f1 ==> code'[i] == code[i]
    requires IsLit(v.items[s][k].act) ==> LitByte(v, cells, s, k, m') == LitByte(v, cells, s, k, m)
    ensures Emitted(v, cells, gl, base, code', s, k, m', f0, f1)
  {
    hide LitByte, Operand, ImmBytes, Le4;
    assert code'[f0..f1] == code[f0..f1];
  }

  lemma LitByteSame(v: View, cells: map<int, int>, s: nat, k: nat, m: nat)
    requires s < |v.items| && k < m < |v.items[s]| && IsLit(v.items[s][k].act)
    requires !(k + 1 == m && ShrinkOf(v, cells, s, m) > 0)
    requires !(k + 2 == m && Patches2(v, cells, s, m))
    requires ShrinkOf(v, cells, s, m) >= 0
    ensures LitByte(v, cells, s, k, m + 1) == LitByte(v, cells, s, k, m)
  {
  }

  // Item m was encoded by rewriting the code from index `lim` on, where the
  // patched literals begin: everything before lim is kept.
  lemma EncNext(v: View, fin: Offsets, cells: map<int, int>, gl: seq<int>, base: int, code: seq<Byte>, code': seq<Byte>,
                s: nat, m: nat, low: nat, codesize: int)
    requires Geometry(v) && Linked(v, fin, cells, codesize)
    requires EncState(v, fin, cells, gl, base, code, s, m) && low <= m < |v.items[s]|
    requires |code'| == fin[s][m + 1] && fin[s][low] <= |code'|
    requires forall i :: 0 <= i < fin[s][low] && i < |code| ==> code'[i] == code[i]
    requires EmittedFrom(v, fin, cells, gl, base, code', s, low, m + 1)
    requires forall k :: 0 <= k < low && IsLit(v.items[s][k].act)
                         ==> LitByte(v, cells, s, k, m + 1) == LitByte(v, cells, s, k, m)
    ensures EncState(v, fin, cells, gl, base, code', s, m + 1)
  {
    hide Geometry, AllPlaced, Emitted, LitByte, Chained, Tame, Est;
    PlacedTame(v, fin, cells);
    StartsAtZero(v);
    Monotone(v, fin, s, low, m);
    forall r, k | 0 <= r < s && 0 <= k < |v.items[r]|
      ensures EmittedAt(v, fin, cells, gl, base, code', r, k, |v.items[r]|)
    {
      assert EmittedAt(v, fin, cells, gl, base, code, r, k, |v.items[r]|);
      MonotoneAcross(v, fin, r, k + 1, s, codesize);
      Monotone(v, fin, s, 0, low);
      KeepEmitted(v, cells, gl, base, code, code', r, k, |v.items[r]|, |v.items[r]|, fin[r][k], fin[r][k + 1]);
    }
    var n := m + 1;
    forall k | 0 <= k < n
      ensures EmittedAt(v, fin, cells, gl, base, code', s, k, n)
    {
      if k < low {
        assert EmittedAt(v, fin, cells, gl, base, code, s, k, m);
        Monotone(v, fin, s, k + 1, low);
        KeepEmitted(v, cells, gl, base, code, code', s, k, m, m + 1, fin[s][k], fin[s][k + 1]);
      }
    }
  }

  // Going on to the next section.
  lemma EncSection(v: View, fin: Offsets, cells: map<int, int>, gl: seq<int>, base: int, code: seq<Byte>, s: nat,
                   codesize: int)
    requires Linked(v, fin, cells, codesize) && s + 1 < |fin|
    requires EncState(v, fin, cells, gl, base, code, s, |v.items[s]|)
    ensures EncState(v, fin, cells, gl, base, code, s + 1, 0)
  {
    hide AllPlaced, EmittedAt;
    assert fin[s + 1][0] == StartOf(fin, s + 1);
  }

  // What pass 3 needs to know about the item it is at.
  ghost predicate Current(v: View, fin: Offsets, cells: map<int, int>, gl: seq<int>, base: int, code: seq<Byte>,
                          s: nat, m: nat, codesize: int) {
    && Geometry(v) && Linked(v, fin, cells, codesize)
    && EncState(v, fin, cells, gl, base, code, s, m) && m < |v.items[s]| && 0 <= fin[s][m]
  }

  lemma LitSize(v: View, fin: Offsets, cells: map<int, int>, s: nat, k: nat, codesize: int)
    requires Linked(v, fin, cells, codesize) && s < |fin| && k < |v.items[s]| && IsLit(v.items[s][k].act)
    ensures fin[s][k + 1] == fin[s][k] + 1
  {
    assert Placed(v, fin, cells, s, k);
  }

  // An item that patches nothing appends its bytes.
  lemma EncPlain(v: View, fin: Offsets, cells: map<int, int>, gl: seq<int>, base: int, code: seq<Byte>,
                 code': seq<Byte>,
                 s: nat, m: nat, codesize: int)
    requires Current(v, fin, cells, gl, base, code, s, m, codesize)
    requires ShrinkOf(v, cells, s, m) == 0 && !IsShortImm(v.items[s][m])
    requires |code'| == fin[s][m + 1] >= |code| && code'[..|code|] == code
    requires EmittedAt(v, fin, cells, gl, base, code', s, m, m + 1)
    ensures EncState(v, fin, cells, gl, base, code', s, m + 1)
  {
    hide Geometry, Linked, Emitted, LitByte;
    forall i | 0 <= i < |code|
      ensures code'[i] == code[i]
    {
      assert code'[..|code|][i] == code[i];
    }
    forall k | 0 <= k < m && IsLit(v.items[s][k].act)
      ensures LitByte(v, cells, s, k, m + 1) == LitByte(v, cells, s, k, m)
    {
      LitByteSame(v, cells, s, k, m);
    }
    EncNext(v, fin, cells, gl, base, code, code', s, m, m, codesize);
  }

  lemma LastTwo(v: View, fin: Offsets, cells: map<int, int>, gl: seq<int>, base: int, code: seq<Byte>, s: nat, m: nat)
    requires Shaped(v, fin) && s < |fin| && 1 <= m < |v.items[s]|
    requires EmittedAt(v, fin, cells, gl, base, code, s, m - 1, m + 1)
             && EmittedAt(v, fin, cells, gl, base, code, s, m, m + 1)
    ensures EmittedFrom(v, fin, cells, gl, base, code, s, m - 1, m + 1)
  {
    hide EmittedAt;
  }

  // A short jump rewrites its opcode.
  // Where the code so far ends, after a literal byte.
  lemma LastAt(v: View, fin: Offsets, cells: map<int, int>, gl: seq<int>, base: int, code: seq<Byte>, s: nat, m: nat,
               codesize: int)
    requires Current(v, fin, cells, gl, base, code, s, m, codesize) && m >= 1 && IsLit(v.items[s][m - 1].act)
    ensures Shaped(v, fin) && s < |fin| && fin[s][m] == |code| && fin[s][m - 1] == |code| - 1 >= 0
    ensures EncState(v, fin, cells, gl, base, code, s, m)
  {
    hide *;
    CurrentParts(v, fin, cells, gl, base, code, s, m, codesize);
    LitSize(v, fin, cells, s, m - 1, codesize);
    EndsAt(v, fin, cells, gl, base, code, s, m, m - 1);
  }

  lemma EndsAt(v: View, fin: Offsets, cells: map<int, int>, gl: seq<int>, base: int, code: seq<Byte>, s: nat, m: nat,
               k: nat)
    requires EncState(v, fin, cells, gl, base, code, s, m) && k < m
    ensures Shaped(v, fin) && s < |fin| == |v.items| && m <= |v.items[s]| == |fin[s]| - 1 && fin[s][m] == |code|
            && fin[s][k] >= 0
  {
    assert EmittedAt(v, fin, cells, gl, base, code, s, k, m);
    hide LitByte;
  }

  lemma CurrentParts(v: View, fin: Offsets, cells: map<int, int>, gl: seq<int>, base: int, code: seq<Byte>, s: nat,
                     m: nat, codesize: int)
    requires Current(v, fin, cells, gl, base, code, s, m, codesize)
    ensures Geometry(v) && Linked(v, fin, cells, codesize) && EncState(v, fin, cells, gl, base, code, s, m)
    ensures Shaped(v, fin) && s < |v.items| == |fin| && m < |v.items[s]| && |fin[s]| == |v.items[s]| + 1
  {
    hide EmittedAt, Geometry, AllPlaced, Chained;
  }

  lemma EncJump(v: View, fin: Offsets, cells: map<int, int>, gl: seq<int>, base: int, code: seq<Byte>, code': seq<Byte>,
                s: nat, m: nat, codesize: int, y: Byte)
    requires Current(v, fin, cells, gl, base, code, s, m, codesize)
    requires ShrinkOf(v, cells, s, m) == 3 && m >= 1 && IsLit(v.items[s][m - 1].act) && IsRel(v.items[s][m].act)
    requires |code| >= 1 && code' == code[..|code| - 1] + [0xeb, y] && |code'| == fin[s][m + 1]
    requires EmittedAt(v, fin, cells, gl, base, code', s, m, m + 1)
    ensures EncState(v, fin, cells, gl, base, code', s, m + 1)
  {
    hide *;
    CurrentParts(v, fin, cells, gl, base, code, s, m, codesize);
    LastAt(v, fin, cells, gl, base, code, s, m, codesize);
    JumpLits(v, cells, s, m);
    LitEmitted(v, fin, cells, gl, base, code', s, m - 1, m + 1);
    LastTwo(v, fin, cells, gl, base, code', s, m);
    EncNext(v, fin, cells, gl, base, code, code', s, m, m - 1, codesize);
  }

  lemma JumpLits(v: View, cells: map<int, int>, s: nat, m: nat)
    requires s < |v.items| && 1 <= m < |v.items[s]| && IsLit(v.items[s][m - 1].act)
    requires ShrinkOf(v, cells, s, m) == 3 && IsRel(v.items[s][m].act)
    ensures LitByte(v, cells, s, m - 1, m + 1) == 0xeb
    ensures forall k :: 0 <= k < m - 1 && IsLit(v.items[s][k].act)
                        ==> LitByte(v, cells, s, k, m + 1) == LitByte(v, cells, s, k, m)
  {
  }

  // The literal byte of the item just before the current one.
  lemma LastLit(v: View, fin: Offsets, cells: map<int, int>, gl: seq<int>, base: int, code: seq<Byte>,
                s: nat, m: nat, codesize: int)
    requires Current(v, fin, cells, gl, base, code, s, m, codesize)
    requires m >= 1 && IsLit(v.items[s][m - 1].act)
    ensures fin[s][m - 1] == |code| - 1 >= 0 && code[|code| - 1] == v.items[s][m - 1].act.b
    ensures m >= 2 && IsLit(v.items[s][m - 2].act) ==>
              fin[s][m - 2] == |code| - 2 >= 0 && code[|code| - 2] == v.items[s][m - 2].act.b
  {
    hide *;
    CurrentParts(v, fin, cells, gl, base, code, s, m, codesize);
    LastAt(v, fin, cells, gl, base, code, s, m, codesize);
    LitAtEnd(v, fin, cells, gl, base, code, s, m - 1, m);
    if m >= 2 && IsLit(v.items[s][m - 2].act) {
      LitSize(v, fin, cells, s, m - 2, codesize);
      EndsAt(v, fin, cells, gl, base, code, s, m, m - 2);
      LitAtEnd(v, fin, cells, gl, base, code, s, m - 2, m);
    }
  }

  lemma LitAtEnd(v: View, fin: Offsets, cells: map<int, int>, gl: seq<int>, base: int, code: seq<Byte>, s: nat, k: nat,
                 m: nat)
    requires EncState(v, fin, cells, gl, base, code, s, m) && s < |v.items| && k < m <= |v.items[s]| && m <= k + 2
    requires IsLit(v.items[s][k].act) && (k + 1 < m ==> IsLit(v.items[s][k + 1].act))
    requires Shaped(v, fin) && s < |fin| && 0 <= fin[s][k] < |code|
    ensures code[fin[s][k]] == v.items[s][k].act.b
  {
    assert EmittedAt(v, fin, cells, gl, base, code, s, k, m);
    assert LitByte(v, cells, s, k, m) == v.items[s][k].act.b;
  }

  // The two literal items before item m may be patched by it.
  ghost predicate TwoLits(v: View, s: nat, m: nat) {
    s < |v.items| && 2 <= m < |v.items[s]| && IsLit(v.items[s][m - 1].act) && IsLit(v.items[s][m - 2].act)
  }

  lemma TwoLitsAre(v: View, s: nat, m: nat)
    requires s < |v.items| && m < |v.items[s]| && TwoLits(v, s, m)
    ensures m >= 2 && IsLit(v.items[s][m - 1].act) && IsLit(v.items[s][m - 2].act)
  {
  }

  lemma EncTwoBack(v: View, fin: Offsets, cells: map<int, int>, gl: seq<int>, base: int, code: seq<Byte>,
                   code': seq<Byte>,
                   s: nat, m: nat, codesize: int, c: int)
    requires Current(v, fin, cells, gl, base, code, s, m, codesize) && TwoLits(v, s, m)
    requires 2 <= c == |code| <= |code'| == fin[s][m + 1]
    requires forall i :: 0 <= i < c - 2 ==> code'[i] == code[i]
    requires LitByte(v, cells, s, m - 1, m + 1) >= 0 ==> code'[c - 1] == LitByte(v, cells, s, m - 1, m + 1)
    requires LitByte(v, cells, s, m - 2, m + 1) >= 0 ==> code'[c - 2] == LitByte(v, cells, s, m - 2, m + 1)
    requires forall k :: 0 <= k < m - 2 && IsLit(v.items[s][k].act)
                         ==> LitByte(v, cells, s, k, m + 1) == LitByte(v, cells, s, k, m)
    requires EmittedAt(v, fin, cells, gl, base, code', s, m, m + 1)
    ensures EncState(v, fin, cells, gl, base, code', s, m + 1)
  {
    hide *;
    CurrentParts(v, fin, cells, gl, base, code, s, m, codesize);
    TwoLitsAre(v, s, m);
    LastAt(v, fin, cells, gl, base, code, s, m, codesize);
    LitSize(v, fin, cells, s, m - 2, codesize);
    EndsAt(v, fin, cells, gl, base, code, s, m, m - 2);
    LitEmitted(v, fin, cells, gl, base, code', s, m - 1, m + 1);
    LitEmitted(v, fin, cells, gl, base, code', s, m - 2, m + 1);
    LastThree(v, fin, cells, gl, base, code', s, m);
    EncNext(v, fin, cells, gl, base, code, code', s, m, m - 2, codesize);
  }

  // A short conditional branch: one opcode byte, built from the second.
  lemma EncBranch(v: View, fin: Offsets, cells: map<int, int>, gl: seq<int>, base: int, code: seq<Byte>,
                  code': seq<Byte>,
                  s: nat, m: nat, codesize: int, x: int, c: int)
    requires Current(v, fin, cells, gl, base, code, s, m, codesize) && TwoLits(v, s, m)
    requires ShrinkOf(v, cells, s, m) == 4 && IsRel(v.items[s][m].act)
    requires 2 <= c == |code| && code' == code[..c - 2] + [(code[c - 1] - 0x10) % 256, x % 256]
    requires |code'| == fin[s][m + 1]
    requires EmittedAt(v, fin, cells, gl, base, code', s, m, m + 1)
    ensures EncState(v, fin, cells, gl, base, code', s, m + 1)
  {
    LastLit(v, fin, cells, gl, base, code, s, m, codesize);
    BranchLits(v, cells, s, m);
    hide Geometry, Linked, EmittedAt, LitByte, ShrinkOf, EncState;
    EncTwoBack(v, fin, cells, gl, base, code, code', s, m, codesize, c);
  }

  // A short immediate: the opcode two bytes back changes to its short form.
  lemma EncShortImm(v: View, fin: Offsets, cells: map<int, int>, gl: seq<int>, base: int, code: seq<Byte>,
                    code': seq<Byte>,
                    s: nat, m: nat, codesize: int, x: int, c: int)
    requires Current(v, fin, cells, gl, base, code, s, m, codesize) && TwoLits(v, s, m)
    requires IsShortImm(v.items[s][m])
    requires 2 <= c == |code| && code' == code[..c - 2] + [(code[c - 2] + 2) % 256, code[c - 1], x % 256]
    requires |code'| == fin[s][m + 1]
    requires EmittedAt(v, fin, cells, gl, base, code', s, m, m + 1)
    ensures EncState(v, fin, cells, gl, base, code', s, m + 1)
  {
    LastLit(v, fin, cells, gl, base, code, s, m, codesize);
    ShortImmLits(v, cells, s, m);
    hide Geometry, Linked, EmittedAt, LitByte, ShrinkOf, EncState;
    EncTwoBack(v, fin, cells, gl, base, code, code', s, m, codesize, c);
  }

  lemma LitEmitted(v: View, fin: Offsets, cells: map<int, int>, gl: seq<int>, base: int, code: seq<Byte>, s: nat,
                   k: nat, m: nat)
    requires Shaped(v, fin) && s < |fin| && k < m <= |v.items[s]| && IsLit(v.items[s][k].act)
    requires 0 <= fin[s][k] && fin[s][k + 1] == fin[s][k] + 1 <= |code|
    requires LitByte(v, cells, s, k, m) >= 0 ==> code[fin[s][k]] == LitByte(v, cells, s, k, m)
    ensures EmittedAt(v, fin, cells, gl, base, code, s, k, m)
  {
  }

  lemma LastThree(v: View, fin: Offsets, cells: map<int, int>, gl: seq<int>, base: int, code: seq<Byte>, s: nat, m: nat)
    requires Shaped(v, fin) && s < |fin| && 2 <= m < |v.items[s]|
    requires EmittedAt(v, fin, cells, gl, base, code, s, m - 2, m + 1)
    requires EmittedAt(v, fin, cells, gl, base, code, s, m - 1, m + 1)
    requires EmittedAt(v, fin, cells, gl, base, code, s, m, m + 1)
    ensures EmittedFrom(v, fin, cells, gl, base, code, s, m - 2, m + 1)
  {
    hide EmittedAt;
    var n := m + 1;
    forall k | m - 2 <= k < n
      ensures EmittedAt(v, fin, cells, gl, base, code, s, k, n)
    {
      assert k == m - 2 || k == m - 1 || k == m;
    }
  }

  lemma BranchLits(v: View, cells: map<int, int>, s: nat, m: nat)
    requires TwoLits(v, s, m) && ShrinkOf(v, cells, s, m) == 4 && IsRel(v.items[s][m].act)
    ensures LitByte(v, cells, s, m - 1, m + 1) == -1
    ensures LitByte(v, cells, s, m - 2, m + 1) == (v.items[s][m - 1].act.b - 0x10) % 256
    ensures forall k :: 0 <= k < m - 2 && IsLit(v.items[s][k].act)
                        ==> LitByte(v, cells, s, k, m + 1) == LitByte(v, cells, s, k, m)
  {
  }

  lemma ShortImmLits(v: View, cells: map<int, int>, s: nat, m: nat)
    requires TwoLits(v, s, m) && IsShortImm(v.items[s][m])
    ensures LitByte(v, cells, s, m - 1, m + 1) == v.items[s][m - 1].act.b
    ensures LitByte(v, cells, s, m - 2, m + 1) == (v.items[s][m - 2].act.b + 2) % 256
    ensures forall k :: 0 <= k < m - 2 && IsLit(v.items[s][k].act)
                        ==> LitByte(v, cells, s, k, m + 1) == LitByte(v, cells, s, k, m)
  {
  }

  // -- Writing bytes ---------------------------------------------------------

  method PutByte(buf: array<Byte>, cp: int, x: int)
    requires 0 <= cp < buf.Length
    modifies buf
    ensures buf[..cp + 1] == old(buf[..cp]) + [x % 256]
  {
    buf[cp] := x % 256;
  }

  method PutLe2(buf: array<Byte>, cp: int, x: int)
    requires 0 <= cp && cp + 2 <= buf.Length
    modifies buf
    ensures buf[..cp + 2] == old(buf[..cp]) + Le2(x)
  {
    PutByte(buf, cp, x);
    PutByte(buf, cp + 1, x / 256);
  }

  method PutLe4(buf: array<Byte>, cp: int, x: int)
    requires 0 <= cp && cp + 4 <= buf.Length
    modifies buf
    ensures buf[..cp + 4] == old(buf[..cp]) + Le4(x)
  {
    PutLe2(buf, cp, x);
    PutByte(buf, cp + 2, x / 65536);
    PutByte(buf, cp + 3, x / 16777216);
  }

  method PutFill(buf: array<Byte>, cp: int, n: nat, fill: Byte)
    requires 0 <= cp && cp + n <= buf.Length
    modifies buf
    ensures buf[..cp + n] == old(buf[..cp]) + seq(n, _ => fill)
  {
    var i := 0;
    while i < n
      invariant 0 <= i <= n
      invariant buf[..cp + i] == old(buf[..cp]) + seq(i, _ => fill)
    {
      PutByte(buf, cp + i, fill);
      i := i + 1;
    }
  }

  // Pads with nops up to the next multiple of mask+1.
  method PutNops(buf: array<Byte>, cp: int, mask: nat) returns (ncp: int)
    requires 0 <= cp && AlignUp(cp, mask) <= buf.Length
    modifies buf
    ensures cp <= ncp == AlignUp(cp, mask) && buf[..ncp] == old(buf[..cp]) + seq(ncp - cp, _ => 0x90)
  {
    AlignUpMeaning(cp, mask);
    ncp := cp;
    while ncp % (mask + 1) != 0
      invariant cp <= ncp <= AlignUp(cp, mask)
      invariant buf[..ncp] == old(buf[..cp]) + seq(ncp - cp, _ => 0x90)
      decreases AlignUp(cp, mask) - ncp
    {
      PutByte(buf, ncp, 0x90);
      ncp := ncp + 1;
    }
    AlignUpLeast(cp, mask, ncp);
  }

  lemma AlignUpLeast(x: int, mask: nat, y: int)
    requires x <= y <= AlignUp(x, mask) && y % (mask + 1) == 0
    ensures y == AlignUp(x, mask)
  {
    AlignUpMeaning(x, mask);
    hide AlignUp;
    if y < AlignUp(x, mask) {
      MultiplesApart(y, AlignUp(x, mask), mask + 1);
    }
  }

  // -- The pass --------------------------------------------------------------

  // The encoder after a successful dasm_link.
  ghost predicate Encodable(d: Encoder, v: View, fin: Offsets)
    reads d
  {
    EncodableOf(d.actionlist, d.sections, d.cells, d.codesize, |d.globals|, v, fin)
  }

  ghost predicate EncodableOf(al: seq<Byte>, sections: seq<SecRec>, cells: map<int, int>, codesize: int, ngl: nat,
                              v: View, fin: Offsets) {
    LinkingOf(al, sections, v) && Linked(v, fin, cells, codesize) && ngl == |v.lg|
  }

  // No global without a definition has been assigned yet.
  ghost predicate GlobalsKept(v: View, gl: seq<int>, globals: seq<int>) {
    |globals| == |gl| && forall n :: 0 <= n < |gl| && (n < 10 || !Defines(v, n)) ==> globals[n] == gl[n]
  }

  // Some put places the label with this number.
  ghost predicate Defines(v: View, n: int) {
    exists s, k :: 0 <= s < |v.items| && 0 <= k < |v.items[s]| && v.items[s][k].act.LabLG? && v.items[s][k].act.n == n
  }

  // Offsets are never negative, so a label cell never looks like the engine's
  // marker for an absolute label.
  lemma OffsetsNonNegative(v: View, fin: Offsets, cells: map<int, int>, codesize: int, s: nat, k: nat)
    requires Geometry(v) && Linked(v, fin, cells, codesize) && s < |fin| && k <= |v.items[s]|
    ensures 0 <= fin[s][k] <= codesize
  {
    hide AllPlaced, Geometry, Tame, Est, SumOfs;
    PlacedTame(v, fin, cells);
    StartsAtZero(v);
    Monotone(v, fin, s, 0, k);
    assert fin[0][0] == StartOf(fin, 0) == 0;
    if s > 0 { MonotoneAcross(v, fin, 0, 0, s, codesize); }
    Monotone(v, fin, s, k, |v.items[s]|);
    var z := |fin| - 1;
    assert StartOf(fin, z + 1) == codesize;
    if s < z {
      MonotoneAcross(v, fin, s, |v.items[s]|, z, codesize);
      Monotone(v, fin, z, 0, |v.items[z]|);
    }
  }

  // What pass 3 finds in the cells of a reference.
  lemma RefCellsFound(v: View, fin: Offsets, cells: map<int, int>, codesize: int, s: nat, k: nat)
    requires LinkReady(v) && Geometry(v) && Linked(v, fin, cells, codesize)
    requires s < |v.items| == |v.ends| == |fin| && k < |v.items[s]| && IsRef(v.items[s][k].act)
    ensures v.items[s][k].pos in cells
    ensures var t := cells[v.items[s][k].pos];
            if t < 0 then 10 <= -t < |v.lg| && EventOf(v.items[s][k]).lab == LG(-t) && ShrinkOf(v, cells, s, k) == 0
                          && !Defines(v, -t)
            else t in cells && cells[t] >= 0
    ensures IsRel(v.items[s][k].act) ==> v.items[s][k].pos + 1 in cells
  {
    hide LinkReady, Geometry, PlacedAt, Chained;
    var it := v.items[s][k];
    var s2, k2 := RefLeads(v, s, k);
    assert PlacedAt(v, cells, s, k, fin[s][k], fin[s][k + 1]) by { assert Placed(v, fin, cells, s, k); }
    TargetSection(v, s, k);
    RefPlaced(v, cells, s, k, fin[s][k], fin[s][k + 1]);
    if v.cells[it.pos] >= 0 {
      assert PlacedAt(v, cells, s2, k2, fin[s2][k2], fin[s2][k2 + 1]) by { assert Placed(v, fin, cells, s2, k2); }
      LabelPlaced(v, cells, s2, k2, fin[s2][k2], fin[s2][k2 + 1]);
      OffsetsNonNegative(v, fin, cells, codesize, s2, k2);
    } else {
      UndefinedHere(v, s, k);
    }
  }

  lemma RefPlaced(v: View, cells: map<int, int>, s: nat, k: nat, f0: int, f1: int)
    requires s < |v.items| == |v.ends| && k < |v.items[s]| && IsRef(v.items[s][k].act)
    requires PlacedAt(v, cells, s, k, f0, f1) && v.items[s][k].pos >= 0
    ensures var q := v.items[s][k].pos;
            q in cells && q in v.cells && cells[q] == v.cells[q] && (cells[q] < 0 ==> ShrinkOf(v, cells, s, k) == 0)
    ensures IsRel(v.items[s][k].act) ==> v.items[s][k].pos + 1 in cells
  {
    hide MayShrink, Est, Distance, InReach, FinalSize;
  }

  // What all steps of pass 3 share: items before m of section s are encoded.
  ghost predicate AtItem(d: Encoder, v: View, fin: Offsets, gl: seq<int>, base: int, code: seq<Byte>, s: nat, m: nat)
    requires s < |v.items| == |v.ends| == |fin| && m < |v.items[s]| && m + 1 < |fin[s]|
    reads d
  {
    && Encodable(d, v, fin)
    && EncState(v, fin, d.cells, gl, base, code, s, m) && |code| == fin[s][m]
    && GlobalsKept(v, gl, d.globals)
  }

  lemma AtItemFacts(d: Encoder, v: View, fin: Offsets, gl: seq<int>, base: int, code: seq<Byte>, s: nat, m: nat)
    requires s < |v.items| == |v.ends| == |fin| && m < |v.items[s]| && m + 1 < |fin[s]|
    requires AtItem(d, v, fin, gl, base, code, s, m)
    ensures Current(v, fin, d.cells, gl, base, code, s, m, d.codesize)
    ensures Encodable(d, v, fin) && GlobalsKept(v, gl, d.globals) && |code| == fin[s][m]
    ensures 0 <= fin[s][m] && 0 <= fin[s][m + 1] <= d.codesize
    ensures PlacedAt(v, d.cells, s, m, fin[s][m], fin[s][m + 1])
    ensures Sized(v, s, m)
  {
    hide LinkReady, PlacedAt, EncState, Sized;
    OffsetsNonNegative(v, fin, d.cells, d.codesize, s, m);
    OffsetsNonNegative(v, fin, d.cells, d.codesize, s, m + 1);
    assert Placed(v, fin, d.cells, s, m);
  }

  lemma EncodableParts(d: Encoder, v: View, fin: Offsets)
    requires Encodable(d, v, fin)
    ensures LinkReady(v) && Geometry(v) && Linked(v, fin, d.cells, d.codesize) && |d.globals| == |v.lg|
    ensures d.actionlist == v.al
  {
  }

  lemma KeptGlobal(v: View, gl: seq<int>, globals: seq<int>, n: nat)
    requires GlobalsKept(v, gl, globals) && n < |globals| && !Defines(v, n)
    ensures n < |gl| && globals[n] == gl[n]
  {
  }

  // The operand of a reference: pass 3 recomputes it from the label's cell.
  method RefValue(d: Encoder, base: int, ghost gl: seq<int>, ghost v: View, ghost fin: Offsets,
                  ghost s: nat, ghost m: nat, rel: bool, pos: int, cp: int) returns (n: int, shrink: int)
    requires s < |v.items| == |v.ends| == |fin| && m < |v.items[s]| && m + 1 < |fin[s]|
    requires IsRef(v.items[s][m].act) && v.items[s][m].pos == pos && rel == IsRel(v.items[s][m].act)
    requires cp == fin[s][m] && fin[s][m + 1] == cp + 4 - ShrinkOf(v, d.cells, s, m)
    requires Encodable(d, v, fin) && GlobalsKept(v, gl, d.globals)
    ensures shrink == ShrinkOf(v, d.cells, s, m) && pos in d.cells
    ensures var t := d.cells[pos];
            && (if t < 0 then -t < |gl| else t in d.cells)
            && n == Operand(d.cells, gl, base, rel, t, fin[s][m + 1])
  {
    hide EncodableOf, LinkReady, Linked, Geometry, GlobalsKept, Defines, EventOf;
    EncodableParts(d, v, fin);
    RefCellsFound(v, fin, d.cells, d.codesize, s, m);
    var t := d.cells[pos];
    if t < 0 { KeptGlobal(v, gl, d.globals, -t); }
    shrink := if rel then d.cells[pos + 1] else 0;
    n := if t < 0 then d.globals[-t] else d.cells[t] + base;
    if rel {
      n := n - (base + cp + 4 - shrink);
    }
  }

  // Branch and label operands.
  method EncodeRef(d: Encoder, buf: array<Byte>, base: int, ghost gl: seq<int>, ghost v: View, ghost fin: Offsets,
                   ghost s: nat, ghost m: nat, rel: bool, pos: int, cp: int, ghost f1: int) returns (ncp: int)
    requires s < |v.items| == |v.ends| == |fin| && m < |v.items[s]| && m + 1 < |fin[s]| && f1 == fin[s][m + 1]
    requires IsRef(v.items[s][m].act) && v.items[s][m].pos == pos && rel == IsRel(v.items[s][m].act)
    requires 0 <= cp <= d.codesize <= buf.Length
    requires AtItem(d, v, fin, gl, base, buf[..cp], s, m)
    modifies buf
    ensures ncp == f1 && 0 <= ncp <= d.codesize && EncState(v, fin, d.cells, gl, base, buf[..ncp], s, m + 1)
  {
    hide EncodableOf, LinkReady, Linked, Geometry, EncState, PlacedAt, Emitted, Le4, LitByte, Sized, Operand, ShrinkOf,
      MayShrink, AtItem, Current, GlobalsKept;
    ghost var code := buf[..cp];
    AtItemFacts(d, v, fin, gl, base, code, s, m);
    EncodableParts(d, v, fin);
    RefSize(v, d.cells, s, m, fin[s][m], f1);
    var n, shrink := RefValue(d, base, gl, v, fin, s, m, rel, pos, cp);
    ncp := cp;
    if shrink == 0 {
      PutLe4(buf, ncp, n);
      ncp := ncp + 4;
      RefBytes(v, d.cells, gl, base, code, buf[..ncp], s, m, fin[s][m], f1, n);
      EncPlain(v, fin, d.cells, gl, base, code, buf[..ncp], s, m, d.codesize);
    } else {
      OpcodeLits(v, s, m, shrink);
      LastLit(v, fin, d.cells, gl, base, code, s, m, d.codesize);
      if shrink == 4 {
        ncp := ncp - 1;
        buf[ncp - 1] := (buf[ncp] as int - 0x10) % 256;
      } else {
        buf[ncp - 1] := 0xeb;
      }
      PutByte(buf, ncp, n);
      ncp := ncp + 1;
      ShortRefBytes(v, d.cells, gl, base, buf[..ncp], s, m, fin[s][m], f1, n);
      if shrink == 4 {
        EncBranch(v, fin, d.cells, gl, base, code, buf[..ncp], s, m, d.codesize, n, cp);
      } else {
        EncJump(v, fin, d.cells, gl, base, code, buf[..ncp], s, m, d.codesize, n % 256);
      }
    }
  }

  lemma RefSize(v: View, cells: map<int, int>, s: nat, k: nat, f0: int, f1: int)
    requires s < |v.items| == |v.ends| && k < |v.items[s]| && IsRef(v.items[s][k].act)
             && PlacedAt(v, cells, s, k, f0, f1)
    ensures f1 == f0 + 4 - ShrinkOf(v, cells, s, k)
    ensures ShrinkOf(v, cells, s, k) == 0 || (ShrinkOf(v, cells, s, k) == MayShrink(v, s, k)
            && IsRel(v.items[s][k].act))
    ensures IsRel(v.items[s][k].act) ==> v.items[s][k].pos + 1 in cells
                                         && ShrinkOf(v, cells, s, k) == cells[v.items[s][k].pos + 1]
  {
    hide ShrinkFor, Est;
  }

  lemma RefBytes(v: View, cells: map<int, int>, gl: seq<int>, base: int, code: seq<Byte>, code': seq<Byte>,
                 s: nat, k: nat, f0: int, f1: int, x: int)
    requires s < |v.items| && k < |v.items[s]| && IsRef(v.items[s][k].act) && v.items[s][k].pos in cells
    requires var t := cells[v.items[s][k].pos];
             && (if t < 0 then -t < |gl| else t in cells)
             && x == Operand(cells, gl, base, IsRel(v.items[s][k].act), t, f1)
    requires ShrinkOf(v, cells, s, k) == 0 && f0 == |code| && f1 == f0 + 4 && code' == code + Le4(x)
    ensures Emitted(v, cells, gl, base, code', s, k, k + 1, f0, f1)
  {
    assert code'[f0..f1] == Le4(x);
  }

  lemma ShortRefBytes(v: View, cells: map<int, int>, gl: seq<int>, base: int, code': seq<Byte>,
                      s: nat, k: nat, f0: int, f1: int, x: int)
    requires s < |v.items| && k < |v.items[s]| && IsRel(v.items[s][k].act) && v.items[s][k].pos in cells
    requires var t := cells[v.items[s][k].pos];
             && (if t < 0 then -t < |gl| else t in cells)
             && x == Operand(cells, gl, base, true, t, f1)
    requires ShrinkOf(v, cells, s, k) > 0 && 0 <= f0 <= f1 == |code'| && f1 > 0 && code'[f1 - 1] == x % 256
    ensures Emitted(v, cells, gl, base, code', s, k, k + 1, f0, f1)
  {
  }

  // The opcode bytes of a branch that lost bytes stand right before it.
  lemma OpcodeLits(v: View, s: nat, k: nat, shrink: int)
    requires LinkReady(v) && s < |v.items| && k < |v.items[s]| && IsRel(v.items[s][k].act)
    requires shrink == MayShrink(v, s, k) && shrink > 0
    ensures k >= 1 && IsLit(v.items[s][k - 1].act) && (shrink == 3 || shrink == 4)
    ensures shrink == 4 ==> TwoLits(v, s, k)
  {
    hide HistoryInv, Bound, LayoutOf;
    StoredOpcode(v, s, k);
  }

  // Immediate operands.
  method EncodeImm(d: Encoder, buf: array<Byte>, base: int, ghost gl: seq<int>, ghost v: View, ghost fin: Offsets,
                   ghost s: nat, ghost m: nat, kind: ImmKind, n: int, cp: int, ghost f1: int) returns (ncp: int)
    requires s < |v.items| == |v.ends| == |fin| && m < |v.items[s]| && m + 1 < |fin[s]| && f1 == fin[s][m + 1]
    requires v.items[s][m].act == Imm(kind) && v.items[s][m].arg == n
    requires 0 <= cp <= d.codesize <= buf.Length
    requires AtItem(d, v, fin, gl, base, buf[..cp], s, m)
    modifies buf
    ensures ncp == f1 && 0 <= ncp <= d.codesize && EncState(v, fin, d.cells, gl, base, buf[..ncp], s, m + 1)
  {
    hide EncodableOf, LinkReady, Linked, Geometry, EncState, PlacedAt, Emitted, Le4, Le2, LitByte, Sized, ShrinkOf,
      AtItem,
      Current, GlobalsKept;
    ghost var code := buf[..cp];
    AtItemFacts(d, v, fin, gl, base, code, s, m);
    EncodableParts(d, v, fin);
    ImmPlaced(v, d.cells, s, m, fin[s][m], f1);
    ncp := cp;
    if (kind == ImmDB || kind == ImmWB) && FitsS8(n) {
      ShortImmOpcode(v, s, m);
      LastLit(v, fin, d.cells, gl, base, code, s, m, d.codesize);
      buf[ncp - 2] := (buf[ncp - 2] as int + 2) % 256;
      PutByte(buf, ncp, n);
      ncp := ncp + 1;
      ImmEmitted(v, d.cells, gl, base, code, buf[..ncp], s, m, fin[s][m], f1);
      EncShortImm(v, fin, d.cells, gl, base, code, buf[..ncp], s, m, d.codesize, n, cp);
    } else {
      if kind == ImmS || kind == ImmB {
        PutByte(buf, ncp, n);
        ncp := ncp + 1;
      } else if kind == ImmD || kind == ImmDB {
        PutLe4(buf, ncp, n);
        ncp := ncp + 4;
      } else {
        PutLe2(buf, ncp, n);
        ncp := ncp + 2;
      }
      ImmEmitted(v, d.cells, gl, base, code, buf[..ncp], s, m, fin[s][m], f1);
      EncPlain(v, fin, d.cells, gl, base, code, buf[..ncp], s, m, d.codesize);
    }
  }

  lemma ImmPlaced(v: View, cells: map<int, int>, s: nat, k: nat, f0: int, f1: int)
    requires s < |v.items| == |v.ends| && k < |v.items[s]| && v.items[s][k].act.Imm? && PlacedAt(v, cells, s, k, f0, f1)
    ensures f1 == f0 + ImmSize(v.items[s][k].act.kind, v.items[s][k].arg) && ShrinkOf(v, cells, s, k) == 0
  {
  }

  lemma ImmEmitted(v: View, cells: map<int, int>, gl: seq<int>, base: int, code: seq<Byte>, code': seq<Byte>,
                   s: nat, k: nat, f0: int, f1: int)
    requires s < |v.items| && k < |v.items[s]| && v.items[s][k].act.Imm?
    requires var it := v.items[s][k];
             && f0 == |code| && f1 == f0 + ImmSize(it.act.kind, it.arg) == |code'|
             && code'[f0..] == ImmBytes(it.act.kind, it.arg)
    ensures Emitted(v, cells, gl, base, code', s, k, k + 1, f0, f1)
  {
    assert code'[f0..f1] == code'[f0..];
  }

  lemma ShortImmOpcode(v: View, s: nat, k: nat)
    requires LinkReady(v) && s < |v.items| && k < |v.items[s]| && IsShortImm(v.items[s][k])
    ensures TwoLits(v, s, k)
  {
    hide HistoryInv, Bound, LayoutOf;
    StoredOpcode(v, s, k);
  }

  // The other actions: literal bytes, fill, padding, labels and boundaries.
  method EncodeOther(d: Encoder, buf: array<Byte>, base: int, ghost gl: seq<int>, ghost v: View, ghost fin: Offsets,
                     ghost s: nat, ghost m: nat, a: Act, n: int, cp: int, ghost f1: int) returns (ncp: int)
    requires s < |v.items| == |v.ends| == |fin| && m < |v.items[s]| && m + 1 < |fin[s]| && f1 == fin[s][m + 1]
    requires v.items[s][m].act == a && !IsRef(a) && !a.Imm? && !a.Unsupported?
             && (a.Space? ==> n == v.items[s][m].arg >= 0)
    requires 0 <= cp <= d.codesize <= buf.Length
    requires AtItem(d, v, fin, gl, base, buf[..cp], s, m)
    modifies buf
    ensures ncp == f1 && 0 <= ncp <= d.codesize && EncState(v, fin, d.cells, gl, base, buf[..ncp], s, m + 1)
  {
    hide EncodableOf, LinkReady, Linked, Geometry, EncState, PlacedAt, Emitted, LitByte, Sized, ShrinkOf, AtItem,
      Current, GlobalsKept, AlignUp;
    ghost var code := buf[..cp];
    AtItemFacts(d, v, fin, gl, base, code, s, m);
    EncodableParts(d, v, fin);
    OtherPlaced(v, d.cells, s, m, fin[s][m], f1);
    ncp := cp;
    match a {
      case Lit(b) =>
        PutByte(buf, ncp, b);
        ncp := ncp + 1;
      case Esc(b) =>
        PutByte(buf, ncp, b);
        ncp := ncp + 1;
      case Space(fill) =>
        PutFill(buf, ncp, n, fill);
        ncp := ncp + n;
      case Align(mask) =>
        ncp := PutNops(buf, ncp, mask);
      case _ =>
    }
    OtherEmitted(v, d.cells, gl, base, code, buf[..ncp], s, m, fin[s][m], f1);
    EncPlain(v, fin, d.cells, gl, base, code, buf[..ncp], s, m, d.codesize);
  }

  lemma OtherPlaced(v: View, cells: map<int, int>, s: nat, k: nat, f0: int, f1: int)
    requires s < |v.items| == |v.ends| && k < |v.items[s]| && PlacedAt(v, cells, s, k, f0, f1)
    requires !IsRef(v.items[s][k].act) && !v.items[s][k].act.Imm?
    ensures ShrinkOf(v, cells, s, k) == 0
    ensures var it := v.items[s][k];
            f1 == (match it.act
                   case Lit(_) => f0 + 1
                   case Esc(_) => f0 + 1
                   case Space(_) => f0 + it.arg
                   case Align(mask) => AlignUp(f0, mask)
                   case _ => f0)
  {
    hide AlignUp;
  }

  lemma OtherEmitted(v: View, cells: map<int, int>, gl: seq<int>, base: int, code: seq<Byte>, code': seq<Byte>,
                     s: nat, k: nat, f0: int, f1: int)
    requires s < |v.items| && k < |v.items[s]| && f0 == |code| && f1 == |code'|
    requires var it := v.items[s][k];
             && !IsRef(it.act) && !it.act.Imm?
             && (match it.act
                 case Lit(b) => code' == code + [b]
                 case Esc(b) => code' == code + [b]
                 case Space(fill) => it.arg >= 0 && code' == code + seq(it.arg, _ => fill)
                 case Align(mask) => f1 == AlignUp(f0, mask) && f0 <= f1 && code' == code + seq(f1 - f0, _ => 0x90)
                 case _ => code' == code)
    ensures Emitted(v, cells, gl, base, code', s, k, k + 1, f0, f1)
  {
    if v.items[s][k].act.Align? { AlignUpMeaning(f0, v.items[s][k].act.mask); }
    hide AlignUp;
  }

  // -- Global labels ---------------------------------------------------------

  // Global n got the address of one of its definitions.
  ghost predicate GlobalFrom(v: View, fin: Offsets, base: int, n: int, x: int) {
    exists s, k :: 0 <= s < |v.items| && s < |fin| && 0 <= k < |v.items[s]| && k < |fin[s]|
      && v.items[s][k].act.LabLG? && v.items[s][k].act.n == n && x == base + fin[s][k]
  }

  ghost predicate Assigned(v: View, fin: Offsets, base: int, globals: seq<int>, r: nat, j: nat)
    requires r < |v.items| && j < |v.items[r]|
  {
    var a := v.items[r][j].act;
    a.LabLG? && a.n >= 10 && a.n < |globals| ==> GlobalFrom(v, fin, base, a.n, globals[a.n])
  }

  // Every global defined before item m of section s has been assigned.
  ghost predicate AssignedUpTo(v: View, fin: Offsets, base: int, globals: seq<int>, s: nat, m: nat) {
    && (forall r, j :: 0 <= r < s && r < |v.items| && 0 <= j < |v.items[r]| ==> Assigned(v, fin, base, globals, r, j))
    && (s < |v.items| ==> forall j :: 0 <= j < m && j < |v.items[s]| ==> Assigned(v, fin, base, globals, s, j))
  }

  lemma AssignStep(v: View, fin: Offsets, base: int, globals: seq<int>, s: nat, m: nat, gl: seq<int>)
    requires s < |v.items| && s < |fin| && m < |v.items[s]| && m < |fin[s]|
    requires AssignedUpTo(v, fin, base, globals, s, m) && GlobalsKept(v, gl, globals)
    ensures var a := v.items[s][m].act;
            var globals' := if a.LabLG? && 10 <= a.n < |globals| then globals[a.n := base + fin[s][m]] else globals;
            AssignedUpTo(v, fin, base, globals', s, m + 1) && GlobalsKept(v, gl, globals')
  {
    var a := v.items[s][m].act;
    if a.LabLG? && 10 <= a.n < |globals| {
      var globals' := globals[a.n := base + fin[s][m]];
      assert GlobalFrom(v, fin, base, a.n, globals'[a.n]);
      assert Defines(v, a.n);
      hide GlobalFrom, Defines;
      forall r, j | 0 <= r < |v.items| && 0 <= j < |v.items[r]| && Assigned(v, fin, base, globals, r, j)
        ensures Assigned(v, fin, base, globals', r, j)
      {
      }
    }
  }

  lemma AssignNext(v: View, fin: Offsets, base: int, globals: seq<int>, s: nat)
    requires s < |v.items| && AssignedUpTo(v, fin, base, globals, s, |v.items[s]|)
    ensures AssignedUpTo(v, fin, base, globals, s + 1, 0)
  {
    hide Assigned;
  }

  // The state of pass 3 before item m of section s.
  ghost predicate Encoding(d: Encoder, v: View, fin: Offsets, gl: seq<int>, base: int, code: seq<Byte>, s: nat, m: nat)
    reads d
  {
    && Encodable(d, v, fin) && s < |v.items| == |v.ends| == |fin| && m <= |v.items[s]| && |fin[s]| == |v.items[s]| + 1
    && EncState(v, fin, d.cells, gl, base, code, s, m) && |code| == fin[s][m]
    && GlobalsKept(v, gl, d.globals) && AssignedUpTo(v, fin, base, d.globals, s, m)
  }

  // One action of pass 3.
  method EncodeAction(d: Encoder, buf: array<Byte>, base: int, ghost gl: seq<int>, ghost v: View, ghost fin: Offsets,
                      ghost s: nat, ghost m: nat, pos: int, a: Act, cp: int) returns (npos: int, ncp: int)
    requires s < |v.items| && m < |v.items[s]|
    requires v.items[s][m].pos == pos && v.items[s][m].act == a && !a.Unsupported?
    requires 0 <= cp <= d.codesize <= buf.Length
    requires Encoding(d, v, fin, gl, base, buf[..cp], s, m)
    modifies buf, d`globals
    ensures npos == pos + Slots(a) && 0 <= ncp <= d.codesize
    ensures Encoding(d, v, fin, gl, base, buf[..ncp], s, m + 1)
  {
    hide EncodableOf, LinkReady, Linked, Geometry, EncState, PlacedAt, GlobalsKept, AssignedUpTo, AlignUp;
    ghost var code := buf[..cp];
    ghost var f1 := fin[s][m + 1];
    CellFound(d, v, fin, s, m);
    var n := if Slots(a) > 0 then d.cells[pos] else 0;
    npos := pos + Slots(a);
    AssignStep(v, fin, base, d.globals, s, m, gl);
    if IsRef(a) {
      ncp := EncodeRef(d, buf, base, gl, v, fin, s, m, IsRel(a), pos, cp, f1);
    } else if a.Imm? {
      ncp := EncodeImm(d, buf, base, gl, v, fin, s, m, a.kind, n, cp, f1);
    } else {
      ncp := EncodeOther(d, buf, base, gl, v, fin, s, m, a, n, cp, f1);
      if a.LabLG? && a.n >= 10 {
        d.globals := d.globals[a.n := base + n];
      }
    }
    EncStateLen(v, fin, d.cells, gl, base, buf[..ncp], s, m + 1);
  }

  lemma EncStateLen(v: View, fin: Offsets, cells: map<int, int>, gl: seq<int>, base: int, code: seq<Byte>, s: nat,
                    m: nat)
    requires EncState(v, fin, cells, gl, base, code, s, m)
    ensures s < |fin| && m < |fin[s]| && |code| == fin[s][m]
  {
  }

  // The first cell of item m, as pass 3 reads it.
  lemma CellFound(d: Encoder, v: View, fin: Offsets, s: nat, m: nat)
    requires Encodable(d, v, fin) && s < |v.items| == |v.ends| == |fin| && m < |v.items[s]| && m < |fin[s]|
    ensures var it := v.items[s][m];
            && (Slots(it.act) > 0 ==> it.pos in d.cells)
            && (it.act.Imm? || it.act.Space? ==> d.cells[it.pos] == it.arg)
            && (it.act.Space? ==> it.arg >= 0)
            && (IsLabel(it.act) ==> d.cells[it.pos] == fin[s][m])
            && (it.act.Begin? ==> d.cells[it.pos] == it.act.start)
            && (it.act.LabLG? ==> it.act.n < |d.globals|)
  {
    hide HistoryInv, Bound, LayoutOf, Geometry, FinalSize, ShrinkOk;
    EncodableParts(d, v, fin);
    StoredItem(v, s, m);
    assert Placed(v, fin, d.cells, s, m);
    if v.items[s][m].act.LabLG? { LabelInTable(v, s, m); }
  }

  lemma LabelInTable(v: View, s: nat, m: nat)
    requires LinkReady(v) && s < |v.items| && m < |v.items[s]| && v.items[s][m].act.LabLG?
    ensures v.items[s][m].act.n < |v.lg|
  {
    hide Bound, LayoutOf, WfEvents, GoodHistory;
    assert Recorded(v.events, v.items[s][m]);
    var i :| 0 <= i < |v.events| && v.events[i] == EventOf(v.items[s][m]);
    assert Placeable(v, v.events[i]);
  }

  // The walk of pass 3 over one section.
  method EncodeSection(d: Encoder, buf: array<Byte>, base: int, ghost gl: seq<int>, ghost v: View, ghost fin: Offsets,
                       s: nat, cp: int) returns (ncp: int)
    requires s < |v.items| && s < |d.sections|
    requires 0 <= cp <= d.codesize <= buf.Length
    requires Encoding(d, v, fin, gl, base, buf[..cp], s, 0)
    modifies buf, d`globals
    ensures 0 <= ncp <= d.codesize
    ensures Encoding(d, v, fin, gl, base, buf[..ncp], s, |v.items[s]|)
  {
    hide LinkReady, Linked, Geometry, Encoding, ActAt;
    ncp := cp;
    EncodingFacts(d, v, fin, gl, base, buf[..ncp], s, 0);
    SectionStart(v, s);
    var pos := Base(s);
    var endpos := d.sections[s].pos;
    ghost var m := 0;
    while pos != endpos
      invariant m <= |v.items[s]| && 0 <= ncp <= d.codesize
      invariant Encoding(d, v, fin, gl, base, buf[..ncp], s, m)
      invariant EndAt(v.items[s], v.ends[s], m).pos == pos && EndAt(v.items[s], v.ends[s], m).ap == -1
      decreases |v.items[s]| - m
    {
      EncodingFacts(d, v, fin, gl, base, buf[..ncp], s, m);
      PutBegins(v, s, m);
      CellFound(d, v, fin, s, m);
      var p := d.cells[pos];
      pos, ncp := EncodeAction(d, buf, base, gl, v, fin, s, m, pos, Begin(p), ncp);
      m := m + 1;
      while !IsEnd(ActAt(d.actionlist, p))
        invariant 0 < m < |v.items[s]| && 0 <= ncp <= d.codesize
        invariant Encoding(d, v, fin, gl, base, buf[..ncp], s, m)
        invariant v.items[s][m].pos == pos && v.items[s][m].ap == p >= 0 && v.items[s][m].act == ActAt(d.actionlist, p)
        decreases |v.items[s]| - m
      {
        ItemFollows(v, s, m);
        var a := ActAt(d.actionlist, p);
        Supported(v, s, m);
        pos, ncp := EncodeAction(d, buf, base, gl, v, fin, s, m, pos, a, ncp);
        p := p + Len(a);
        m := m + 1;
      }
      EndBoundary(v, s, m);
      pos, ncp := EncodeAction(d, buf, base, gl, v, fin, s, m, pos, ActAt(d.actionlist, p), ncp);
      m := m + 1;
    }
    SectionFinished(v, s, m);
  }

  lemma EncodingFacts(d: Encoder, v: View, fin: Offsets, gl: seq<int>, base: int, code: seq<Byte>, s: nat, m: nat)
    requires Encoding(d, v, fin, gl, base, code, s, m)
    ensures Encodable(d, v, fin) && LinkReady(v) && Geometry(v) && Linked(v, fin, d.cells, d.codesize)
    ensures s < |v.items| == |v.ends| == |fin| == |d.sections| && |fin[s]| == |v.items[s]| + 1 && m <= |v.items[s]|
    ensures d.sections[s].pos == v.ends[s].pos && v.ends[s].ap == -1 && d.actionlist == v.al
  {
  }

  lemma Supported(v: View, s: nat, k: nat)
    requires LinkReady(v) && s < |v.items| && k < |v.items[s]|
    ensures !v.items[s][k].act.Unsupported?
  {
    hide HistoryInv, Bound, LayoutOf, ActAt;
    StoredItem(v, s, k);
  }

  // At a put boundary before the end stands a Begin with its first action.
  lemma PutBegins(v: View, s: nat, k: nat)
    requires LinkReady(v) && s < |v.items| == |v.ends| && k <= |v.items[s]| && v.ends[s].ap == -1
    requires EndAt(v.items[s], v.ends[s], k).pos != v.ends[s].pos && EndAt(v.items[s], v.ends[s], k).ap == -1
    ensures k + 1 < |v.items[s]| && v.items[s][k].act.Begin?
    ensures v.items[s][k].act.start == v.items[s][k + 1].ap >= 0 && v.items[s][k + 1].pos == v.items[s][k].pos + 1
    ensures v.items[s][k + 1].act == ActAt(v.al, v.items[s][k + 1].ap)
  {
    hide LayoutOf, HistoryInv, Bound, ActAt, OpcodeOk;
    StoredItem(v, s, k);
    assert EndAt(v.items[s], v.ends[s], k + 1).ap == v.items[s][k].act.start;
    StoredItem(v, s, k + 1);
  }

  // Every item of every section is in the code.
  ghost predicate AllEmitted(v: View, fin: Offsets, cells: map<int, int>, gl: seq<int>, base: int, code: seq<Byte>)
    requires Shaped(v, fin)
  {
    forall s, k :: 0 <= s < |fin| && 0 <= k < |v.items[s]|
                   ==> EmittedAt(v, fin, cells, gl, base, code, s, k, |v.items[s]|)
  }

  // Globals end up at their labels; all other entries keep their value.
  ghost predicate GlobalsSet(v: View, fin: Offsets, base: int, gl: seq<int>, globals: seq<int>) {
    && GlobalsKept(v, gl, globals)
    && forall n :: 10 <= n < |globals| && Defines(v, n) ==> GlobalFrom(v, fin, base, n, globals[n])
  }

  // dasm_encode: after a successful link it fills exactly codesize bytes and
  // never reports a phase error.
  method Encode(d: Encoder, buf: array<Byte>, base: int, ghost v: View, ghost fin: Offsets) returns (st: Status)
    requires Encodable(d, v, fin) && 0 < |d.sections|
    requires 0 <= d.codesize <= buf.Length
    modifies buf, d`globals
    ensures st == OK
    ensures AllEmitted(v, fin, d.cells, old(d.globals), base, buf[..d.codesize])
    ensures GlobalsSet(v, fin, base, old(d.globals), d.globals)
  {
    hide LinkReady, Linked, Geometry, Encoding, AllEmitted, GlobalsSet;
    ghost var gl := d.globals;
    var cp := 0;
    var s := 0;
    EncodingStarts(d, v, fin, gl, base, buf[..cp]);
    while s < |d.sections|
      invariant 0 <= s <= |d.sections| && 0 <= cp <= d.codesize && Encodable(d, v, fin)
      invariant s < |d.sections| ==> s < |v.items| && Encoding(d, v, fin, gl, base, buf[..cp], s, 0)
      invariant s == |d.sections| ==>
                  && cp == d.codesize && AllEmitted(v, fin, d.cells, gl, base, buf[..cp])
                  && GlobalsSet(v, fin, base, gl, d.globals)
    {
      cp := EncodeSection(d, buf, base, gl, v, fin, s, cp);
      EncodingFacts(d, v, fin, gl, base, buf[..cp], s, |v.items[s]|);
      if s + 1 < |d.sections| {
        EncodingNext(d, v, fin, gl, base, buf[..cp], s);
      } else {
        EncodingDone(d, v, fin, gl, base, buf[..cp], s);
      }
      s := s + 1;
    }
    st := if cp != d.codesize then Phase else OK;
  }

  lemma EncodingStarts(d: Encoder, v: View, fin: Offsets, gl: seq<int>, base: int, code: seq<Byte>)
    requires Encodable(d, v, fin) && 0 < |d.sections| && code == [] && gl == d.globals
    ensures 0 < |v.items| && Encoding(d, v, fin, gl, base, code, 0, 0)
    ensures Shaped(v, fin)
  {
    hide LinkReady, Geometry, AllPlaced;
    assert fin[0][0] == StartOf(fin, 0) == 0;
  }

  lemma EncodingNext(d: Encoder, v: View, fin: Offsets, gl: seq<int>, base: int, code: seq<Byte>, s: nat)
    requires s + 1 < |v.items| && Encoding(d, v, fin, gl, base, code, s, |v.items[s]|)
    ensures Encoding(d, v, fin, gl, base, code, s + 1, 0)
  {
    hide LinkReady, Geometry, AllPlaced, EncState, AssignedUpTo, GlobalsKept;
    EncSection(v, fin, d.cells, gl, base, code, s, d.codesize);
    EncStateLen(v, fin, d.cells, gl, base, code, s + 1, 0);
    AssignNext(v, fin, base, d.globals, s);
  }

  lemma EncodingDone(d: Encoder, v: View, fin: Offsets, gl: seq<int>, base: int, code: seq<Byte>, s: nat)
    requires s + 1 == |v.items| && Encoding(d, v, fin, gl, base, code, s, |v.items[s]|)
    ensures |code| == d.codesize && Shaped(v, fin) && AllEmitted(v, fin, d.cells, gl, base, code)
    ensures GlobalsSet(v, fin, base, gl, d.globals)
  {
    hide LinkReady, Geometry, AllPlaced, EncState, AssignedUpTo, GlobalsKept, GlobalsSet, AllEmitted;
    assert StartOf(fin, s + 1) == d.codesize;
    DoneEmitted(v, fin, d.cells, gl, base, code, s);
    DoneGlobals(v, fin, base, d.globals, s, gl);
  }

  lemma DoneEmitted(v: View, fin: Offsets, cells: map<int, int>, gl: seq<int>, base: int, code: seq<Byte>, s: nat)
    requires s + 1 == |v.items| && EncState(v, fin, cells, gl, base, code, s, |v.items[s]|)
    ensures AllEmitted(v, fin, cells, gl, base, code)
  {
    hide EmittedAt;
  }

  lemma DoneGlobals(v: View, fin: Offsets, base: int, globals: seq<int>, s: nat, gl: seq<int>)
    requires s + 1 == |v.items| && AssignedUpTo(v, fin, base, globals, s, |v.items[s]|) && GlobalsKept(v, gl, globals)
    ensures GlobalsSet(v, fin, base, gl, globals)
  {
    hide GlobalsKept, GlobalFrom, Assigned;
    forall n | 10 <= n < |globals| && Defines(v, n)
      ensures GlobalFrom(v, fin, base, n, globals[n])
    {
      var r, j :| 0 <= r < |v.items| && 0 <= j < |v.items[r]| && v.items[r][j].act.LabLG? && v.items[r][j].act.n == n;
      assert Assigned(v, fin, base, globals, r, j);
      AssignedMeans(v, fin, base, globals, r, j);
    }
  }

  lemma AssignedMeans(v: View, fin: Offsets, base: int, globals: seq<int>, r: nat, j: nat)
    requires r < |v.items| && j < |v.items[r]| && Assigned(v, fin, base, globals, r, j)
    requires v.items[r][j].act.LabLG? && 10 <= v.items[r][j].act.n < |globals|
    ensures GlobalFrom(v, fin, base, v.items[r][j].act.n, globals[v.items[r][j].act.n])
  {
  }

  // -- The passes agree ------------------------------------------------------

  // Whatever the processor reads as the displacement of an encoded branch, it
  // leads from the end of the instruction to the place where its label was
  // encoded, be the branch short or long.
  lemma BranchReaches(v: View, fin: Offsets, cells: map<int, int>, codesize: int, gl: seq<int>, base: int,
                      code: seq<Byte>,
                      s: nat, k: nat, s2: nat, k2: nat)
    requires LinkReady(v) && Geometry(v) && Linked(v, fin, cells, codesize) && codesize < 0x80000000
    requires AllEmitted(v, fin, cells, gl, base, code)
    requires s < |v.items| && k < |v.items[s]| && IsRel(v.items[s][k].act)
    requires v.items[s][k].pos in cells && IsTarget(v, cells[v.items[s][k].pos], s2, k2)
    ensures Leads(code, fin[s][k], fin[s][k + 1], fin[s2][k2] - fin[s][k + 1])
  {
    hide LinkReady, Geometry, PlacedAt, Emitted, ReadS8, ReadS32, Le4, ShrinkOf, Chained, AllPlaced;
    var f0, f1 := fin[s][k], fin[s][k + 1];
    var x := fin[s2][k2] - f1;
    BranchOperand(v, fin, cells, codesize, gl, base, code, s, k, s2, k2);
    OffsetsNonNegative(v, fin, cells, codesize, s2, k2);
    OffsetsNonNegative(v, fin, cells, codesize, s, k + 1);
    if ShrinkOf(v, cells, s, k) == 0 {
      ReadBackS32(x);
    } else {
      ShrunkOffset(v, fin, cells, codesize, s, k, s2, k2);
      ReadBackS8(x);
    }
  }

  // The branch operand in code[f0..f1] makes the processor jump dist bytes on from f1.
  predicate Leads(code: seq<Byte>, f0: int, f1: int, dist: int) {
    && 0 <= f0 <= f1 <= |code|
    && if f1 - f0 == 4 then ReadS32(code[f0..f1]) == dist else f1 > 0 && ReadS8(code[f1 - 1]) == dist
  }

  lemma BranchOperand(v: View, fin: Offsets, cells: map<int, int>, codesize: int, gl: seq<int>, base: int,
                      code: seq<Byte>,
                      s: nat, k: nat, s2: nat, k2: nat)
    requires Geometry(v) && Linked(v, fin, cells, codesize) && AllEmitted(v, fin, cells, gl, base, code)
    requires s < |v.items| && k < |v.items[s]| && IsRel(v.items[s][k].act)
    requires v.items[s][k].pos in cells && IsTarget(v, cells[v.items[s][k].pos], s2, k2)
    ensures var f0, f1, dist := fin[s][k], fin[s][k + 1], fin[s2][k2] - fin[s][k + 1];
            && 0 <= f0 <= f1 <= |code|
            && (ShrinkOf(v, cells, s, k) == 0 ==> f1 == f0 + 4 && code[f0..f1] == Le4(dist))
            && (ShrinkOf(v, cells, s, k) != 0 ==> f1 > 0 && f1 - f0 < 4 && code[f1 - 1] == dist % 256)
            && ShrinkOf(v, cells, s, k) >= 0
  {
    hide Chained, Geometry, Le4, PlacedAt;
    var f0, f1 := fin[s][k], fin[s][k + 1];
    assert PlacedAt(v, cells, s, k, f0, f1) by { assert Placed(v, fin, cells, s, k); }
    assert PlacedAt(v, cells, s2, k2, fin[s2][k2], fin[s2][k2 + 1]) by { assert Placed(v, fin, cells, s2, k2); }
    RefSize(v, cells, s, k, f0, f1);
    LabelPlaced(v, cells, s2, k2, fin[s2][k2], fin[s2][k2 + 1]);
    TargetSection(v, s2, k2);
    assert EmittedAt(v, fin, cells, gl, base, code, s, k, |v.items[s]|);
  }

  lemma ShrunkOffset(v: View, fin: Offsets, cells: map<int, int>, codesize: int, s: nat, k: nat, s2: nat, k2: nat)
    requires LinkReady(v) && Geometry(v) && Linked(v, fin, cells, codesize)
    requires s < |v.items| && k < |v.items[s]| && IsRel(v.items[s][k].act)
    requires v.items[s][k].pos in cells && IsTarget(v, cells[v.items[s][k].pos], s2, k2)
    requires ShrinkOf(v, cells, s, k) > 0
    ensures FitsS8(fin[s2][k2] - fin[s][k + 1])
  {
    hide LinkReady, Geometry, Linked, LayoutOf, HistoryInv, Bound, Est;
    ReadyParts(v);
    LabelCell(v, s2, k2);
    ShrunkFits(v, fin, cells, codesize, s, k, s2, k2);
  }
}
