// UTF-8: utf8.char (tvm_wchar of src/lib_tvm.c) and the decoder of
// src/lib_utf8.c, which must undo each other.
module LuaUtf8 {
  import opened LuaPattern

  const MAXUNICODE: nat := 0x10FFFF

  // -- Encoding --------------------------------------------------------------

  type code = k: int | 0 <= k <= 0x10FFFF

  function Encode(k: code): seq<byte> {
    if k >= 0x10000 then [240 + k / 0x40000, 128 + k / 0x1000 % 64, 128 + k / 64 % 64, 128 + k % 64]
    else if k >= 0x800 then [224 + k / 0x1000, 128 + k / 64 % 64, 128 + k % 64]
    else if k >= 0x80 then [192 + k / 64, 128 + k % 64]
    else [k]
  }

  function EncodeAll(ks: seq<code>): seq<byte> {
    if ks == [] then [] else Encode(ks[0]) + EncodeAll(ks[1..])
  }

  datatype CharRes = Chars(bytes: seq<byte>) | BadValue(arg: nat)

  method Wchar(args: seq<int>) returns (r: CharRes)
    ensures (forall i :: 0 <= i < |args| ==> 0 <= args[i] <= MAXUNICODE) ==> r == Chars(EncodeAll(args))
    ensures (exists i :: 0 <= i < |args| && !(0 <= args[i] <= MAXUNICODE)) ==>
              r.BadValue? && 1 <= r.arg <= |args| && !(0 <= args[r.arg - 1] <= MAXUNICODE)
  {
    var b: seq<byte> := [];
    var i := 0;
    while i < |args|
      invariant 0 <= i <= |args| && (forall j :: 0 <= j < i ==> 0 <= args[j] <= MAXUNICODE)
      invariant var done: seq<code> := args[..i]; b == EncodeAll(done)
    {
      var k := args[i];
      if k < 0 || k > MAXUNICODE {
        return BadValue(i + 1);
      }
      ghost var done: seq<code> := args[..i];
      EncodeMore(done, k);
      assert args[..i + 1] == done + [k];
      if k >= 0x10000 {
        b := b + [240 + k / 0x40000, 128 + k / 0x1000 % 64, 128 + k / 64 % 64, 128 + k % 64];
      } else if k >= 0x800 {
        b := b + [224 + k / 0x1000, 128 + k / 64 % 64, 128 + k % 64];
      } else if k >= 0x80 {
        b := b + [192 + k / 64, 128 + k % 64];
      } else {
        b := b + [k];
      }
      i := i + 1;
    }
    assert args[..|args|] == args;
    return Chars(b);
  }

  lemma {:induction false} EncodeMore(ks: seq<code>, k: code)
    ensures EncodeAll(ks + [k]) == EncodeAll(ks) + Encode(k)
  {
    if ks == [] {
      assert EncodeAll([k]) == Encode(k) + EncodeAll([]);
    } else {
      EncodeMore(ks[1..], k);
      assert (ks + [k])[1..] == ks[1..] + [k];
    }
  }

  lemma {:induction false} EncodeConcat(ks: seq<code>, ls: seq<code>)
    ensures EncodeAll(ks + ls) == EncodeAll(ks) + EncodeAll(ls)
  {
    hide Encode;
    if ks == [] {
      assert ks + ls == ls;
    } else {
      EncodeConcat(ks[1..], ls);
      assert (ks + ls)[1..] == ks[1..] + ls;
    }
  }

  // -- Decoding one character ------------------------------------------------

  predicate IsCont(c: byte) { c / 64 == 2 }

  predicate ContAt(s: seq<byte>, i: nat) { i < |s| && IsCont(s[i]) }

  function Low(s: seq<byte>, i: nat): int
    requires i < |s|
  {
    var c: int := s[i];
    c % 64
  }

  datatype Dec = Dec(k: code, len: nat) | Invalid

  function Accept(v: int, len: nat, limit: nat): Dec { if limit < v <= MAXUNICODE then Dec(v, len) else Invalid }

  // The values of sequences of two to four bytes.
  function Two(b: int, x: int): int { (b - 192) * 64 + x }
  function Three(b: int, x: int, y: int): int { (b - 224) * 0x1000 + x * 64 + y }
  function Four(b: int, x: int, y: int, z: int): int { (b - 240) * 0x40000 + x * 0x1000 + y * 64 + z }

  // What the bytes at i stand for, read off the ranges of the first byte.
  function Read(s: seq<byte>, i: nat): Dec
    requires i < |s|
  {
    var b: int := s[i];
    if b < 128 then Dec(b, 1)
    else if 192 <= b < 224 && ContAt(s, i + 1) then Accept(Two(b, Low(s, i + 1)), 2, 0x7F)
    else if 224 <= b < 240 && ContAt(s, i + 1) && ContAt(s, i + 2) then
      Accept(Three(b, Low(s, i + 1), Low(s, i + 2)), 3, 0x7FF)
    else if 240 <= b < 248 && ContAt(s, i + 1) && ContAt(s, i + 2) && ContAt(s, i + 3) then
      Accept(Four(b, Low(s, i + 1), Low(s, i + 2), Low(s, i + 3)), 4, 0xFFFF)
    else Invalid
  }

  predicate CharAt(s: seq<byte>, i: nat, k: code) { i + |Encode(k)| <= |s| && s[i..i + |Encode(k)|] == Encode(k) }

  lemma Digits2(b: int, x: int, k: int)
    requires 0 <= x < 64 && 0 <= k
    ensures Two(b, x) == k <==> b == 192 + k / 64 && x == k % 64
  {
  }

  lemma Digits3(b: int, x: int, y: int, k: int)
    requires 0 <= x < 64 && 0 <= y < 64 && 0 <= k
    ensures Three(b, x, y) == k <==> b == 224 + k / 0x1000 && x == k / 64 % 64 && y == k % 64
  {
    assert k / 64 / 64 == k / 0x1000;
  }

  lemma Digits4(b: int, x: int, y: int, z: int, k: int)
    requires 0 <= x < 64 && 0 <= y < 64 && 0 <= z < 64 && 0 <= k
    ensures Four(b, x, y, z) == k <==> b == 240 + k / 0x40000 && x == k / 0x1000 % 64 && y == k / 64 % 64 && z == k % 64
  {
    var k1 := k / 64;
    var k2 := k1 / 64;
    var k3 := k2 / 64;
    assert k == 64 * k1 + k % 64 && k1 == 64 * k2 + k1 % 64 && k2 == 64 * k3 + k2 % 64;
    Quotient12(k, k2, 64 * (k1 % 64) + k % 64);
    Quotient18(k, k3, 0x1000 * (k2 % 64) + 64 * (k1 % 64) + k % 64);
    SameDigits(b - 240, x, y, z, k3, k2 % 64, k1 % 64, k % 64);
  }

  lemma SameDigits(b: int, x: int, y: int, z: int, b': int, x': int, y': int, z': int)
    requires 0 <= x < 64 && 0 <= y < 64 && 0 <= z < 64 && 0 <= x' < 64 && 0 <= y' < 64 && 0 <= z' < 64
    ensures b * 0x40000 + x * 0x1000 + y * 64 + z == b' * 0x40000 + x' * 0x1000 + y' * 64 + z' <==>
              b == b' && x == x' && y == y' && z == z'
  {
  }

  lemma Quotient12(k: int, q: int, r: int)
    requires k == 0x1000 * q + r && 0 <= r < 0x1000
    ensures k / 0x1000 == q
  {
  }

  lemma Quotient18(k: int, q: int, r: int)
    requires k == 0x40000 * q + r && 0 <= r < 0x40000
    ensures k / 0x40000 == q
  {
  }

  lemma CharBytes(s: seq<byte>, i: nat, k: code)
    ensures var e := Encode(k);
            CharAt(s, i, k) <==>
              && i + |e| <= |s| && s[i] == e[0] && (|e| > 1 ==> s[i + 1] == e[1])
              && (|e| > 2 ==> s[i + 2] == e[2]) && (|e| > 3 ==> s[i + 3] == e[3])
  {
    var e := Encode(k);
    if i + |e| <= |s| {
      var t := s[i..i + |e|];
      assert t[0] == s[i] && (|e| > 1 ==> t[1] == s[i + 1]) && (|e| > 2 ==> t[2] == s[i + 2])
             && (|e| > 3 ==> t[3] == s[i + 3]);
    }
  }

  lemma ReadCases(s: seq<byte>, i: nat, k: code)
    requires i < |s|
    ensures Read(s, i) == Dec(k, 1) <==> s[i] < 128 && k == s[i]
    ensures Read(s, i) == Dec(k, 2) <==> 192 <= s[i] < 224 && ContAt(s, i + 1) && Two(s[i], Low(s, i + 1)) == k
                                         && k > 0x7F
    ensures Read(s, i) == Dec(k, 3) <==>
              224 <= s[i] < 240 && ContAt(s, i + 1) && ContAt(s, i + 2)
                && Three(s[i], Low(s, i + 1), Low(s, i + 2)) == k && k > 0x7FF
    ensures Read(s, i) == Dec(k, 4) <==>
              240 <= s[i] < 248 && ContAt(s, i + 1) && ContAt(s, i + 2) && ContAt(s, i + 3) &&
              Four(s[i], Low(s, i + 1), Low(s, i + 2), Low(s, i + 3)) == k && k > 0xFFFF
  {
    hide ContAt, Low, Two, Three, Four;
  }

  lemma ContLow(s: seq<byte>, i: nat, x: int)
    requires i < |s| && 0 <= x < 64
    ensures s[i] == 128 + x <==> ContAt(s, i) && Low(s, i) == x
  {
  }

  // The decoder reads exactly the encodings; overlong forms are rejected.
  lemma ReadEncode(s: seq<byte>, i: nat, k: code)
    requires i < |s|
    ensures CharAt(s, i, k) <==> Read(s, i) == Dec(k, |Encode(k)|)
  {
    CharBytes(s, i, k);
    ReadCases(s, i, k);
    hide CharAt, Read, Two, Three, Four;
    var b: int := s[i];
    if 0x80 <= k < 0x800 && i + 1 < |s| {
      Digits2(b, Low(s, i + 1), k);
      ContLow(s, i + 1, k % 64);
    } else if 0x800 <= k < 0x10000 && i + 2 < |s| {
      Digits3(b, Low(s, i + 1), Low(s, i + 2), k);
      ContLow(s, i + 1, k / 64 % 64);
      ContLow(s, i + 2, k % 64);
    } else if 0x10000 <= k && i + 3 < |s| {
      Digits4(b, Low(s, i + 1), Low(s, i + 2), Low(s, i + 3), k);
      ContLow(s, i + 1, k / 0x1000 % 64);
      ContLow(s, i + 2, k / 64 % 64);
      ContLow(s, i + 3, k % 64);
    }
  }

  lemma ReadLen(s: seq<byte>, i: nat)
    requires i < |s| && Read(s, i).Dec?
    ensures CharAt(s, i, Read(s, i).k) && Read(s, i).len == |Encode(Read(s, i).k)|
  {
    ReadEncode(s, i, Read(s, i).k);
  }

  function Limit(count: nat): nat {
    if count == 0 then 0xFF else if count == 1 then 0x7F else if count == 2 then 0x7FF else 0xFFFF
  }

  // The first byte shifted left once per continuation byte read.
  predicate Shifted(c: int, b: int, n: nat) {
    (n == 0 && c == b) || (n == 1 && c == 2 * b) || (n == 2 && c == 4 * b) || (n == 3 && c == 8 * b) ||
    (n == 4 && c == 16 * b) || (n == 5 && c == 32 * b) || (n == 6 && c == 64 * b) || (n == 7 && c == 128 * b)
  }

  // Another continuation byte is due.
  lemma ShiftGoes(c: int, b: byte, n: nat)
    requires Shifted(c, b, n) && c / 64 % 2 == 1 && b >= 128
    requires (n >= 1 ==> b >= 192) && (n >= 2 ==> b >= 224) && (n >= 3 ==> b >= 240) && (n > 3 ==> b >= 248)
    ensures n < 7 && Shifted(c * 2, b, n + 1)
    ensures (n == 0 ==> b >= 192) && (n == 1 ==> b >= 224) && (n == 2 ==> b >= 240) && (n >= 3 ==> b >= 248)
  {
  }

  function ShiftBy(count: nat): nat {
    if count == 0 then 1 else if count == 1 then 32 else if count == 2 then 0x400 else 0x8000
  }

  // The first byte is used up: its range and what it contributes.
  lemma ShiftStops(c: int, b: byte, n: nat)
    requires Shifted(c, b, n) && c / 64 % 2 == 0 && b >= 128 && n <= 3
    requires (n >= 1 ==> b >= 192) && (n >= 2 ==> b >= 224) && (n >= 3 ==> b >= 240)
    ensures n == 0 ==> b < 192 && 0 <= c % 128 * ShiftBy(0) < 64
    ensures n == 1 ==> 192 <= b < 224 && c % 128 * ShiftBy(1) == (b - 192 as int) * 64
    ensures n == 2 ==> 224 <= b < 240 && c % 128 * ShiftBy(2) == (b - 224 as int) * 0x1000
    ensures n == 3 ==> 240 <= b < 248 && c % 128 * ShiftBy(3) == (b - 240 as int) * 0x40000
  {
    HalfBlock(c, if n == 0 then 1 else if n == 1 then 3 else if n == 2 then 7 else 15);
  }

  lemma HalfBlock(c: int, k: nat)
    requires 128 * k <= c < 128 * k + 128 && c / 64 % 2 == 0
    ensures c < 128 * k + 64 && c % 128 == c - 128 * k
  {
    assert 2 * k <= c / 64 <= 2 * k + 1;
  }

  // The continuation bytes read so far.
  predicate Gathered(s: seq<byte>, i: nat, count: nat, res: int) {
    && (count >= 1 ==> ContAt(s, i + 1)) && (count >= 2 ==> ContAt(s, i + 2)) && (count >= 3 ==> ContAt(s, i + 3))
    && (count == 0 ==> res == 0)
    && (count == 1 ==> res == Low(s, i + 1))
    && (count == 2 ==> res == Low(s, i + 1) * 64 + Low(s, i + 2))
    && (count == 3 ==> res == Low(s, i + 1) * 0x1000 + Low(s, i + 2) * 64 + Low(s, i + 3))
  }

  lemma GatherMore(s: seq<byte>, i: nat, count: nat, res: int)
    requires Gathered(s, i, count, res) && ContAt(s, i + count + 1) && i + count + 1 < |s|
    ensures Gathered(s, i, count + 1, (res * 64 + Low(s, i + count + 1)) % 0x1_0000_0000)
  {
  }

  method Decode(s: seq<byte>, i: nat) returns (ok: bool, val: int, next: nat)
    requires i < |s|
    ensures ok <==> Read(s, i).Dec?
    ensures ok ==> val == Read(s, i).k && next == i + Read(s, i).len <= |s|
  {
    var b := s[i];
    var res, c, count := 0, s[i] as int, 0;
    if c < 0x80 {
      return true, c, i + 1;
    }
    while c / 64 % 2 == 1
      invariant count <= 7 && i + count < |s| && Shifted(c, b, count) && Gathered(s, i, count, res)
      invariant (count >= 1 ==> b >= 192) && (count >= 2 ==> b >= 224) && (count >= 3 ==> b >= 240)
                && (count > 3 ==> b >= 248)
      decreases 7 - count
    {
      ShiftGoes(c, b, count);
      hide Shifted, Gathered, Low, Two, Three, Four;
      var cc := At(s, i + count + 1);
      if !IsCont(cc) {
        MissingCont(s, i, count);
        return false, 0, i;
      }
      GatherMore(s, i, count, res);
      LowIs(s, i + count + 1);
      count := count + 1;
      res := (res * 64 + (cc as int) % 64) % 0x1_0000_0000;
      c := c * 2;
    }
    if count > 3 {
      return false, 0, i;
    }
    ShiftStops(c, b, count);
    DecodeEnd(s, i, count, res, c % 128 * ShiftBy(count));
    hide Read;
    res := res + c % 128 * ShiftBy(count);
    if res > MAXUNICODE || res <= Limit(count) {
      return false, 0, i;
    }
    return true, res, i + count + 1;
  }

  lemma LowIs(s: seq<byte>, i: nat)
    requires i < |s|
    ensures Low(s, i) == (s[i] as int) % 64
  {
  }

  lemma MissingCont(s: seq<byte>, i: nat, count: nat)
    requires i + count < |s| && s[i] >= 128 && !ContAt(s, i + count + 1)
    requires (count == 0 ==> s[i] >= 192) && (count == 1 ==> s[i] >= 224) && (count == 2 ==> s[i] >= 240)
             && (count >= 3 ==> s[i] >= 248)
    ensures Read(s, i) == Invalid
  {
  }

  lemma DecodeEnd(s: seq<byte>, i: nat, count: nat, res: int, lead: int)
    requires i + count < |s| && count <= 3 && s[i] >= 128 && Gathered(s, i, count, res)
    requires count == 0 ==> s[i] < 192 && 0 <= lead < 64
    requires count == 1 ==> 192 <= s[i] < 224 && lead == (s[i] - 192 as int) * 64
    requires count == 2 ==> 224 <= s[i] < 240 && lead == (s[i] - 224 as int) * 0x1000
    requires count == 3 ==> 240 <= s[i] < 248 && lead == (s[i] - 240 as int) * 0x40000
    ensures if Limit(count) < res + lead <= MAXUNICODE then Read(s, i) == Dec(res + lead, count + 1)
            else Read(s, i) == Invalid
  {
  }

  // -- Whole strings ---------------------------------------------------------

  // The characters that start between i and j, or where decoding fails.
  datatype Scan = Scanned(ks: seq<code>, end: nat) | BadAt(pos: nat)

  function ScanFrom(s: seq<byte>, i: nat, j: int): (r: Scan)
    requires j < |s|
    decreases |s| - i
  {
    if i > j then Scanned([], i)
    else match Read(s, i)
      case Invalid => BadAt(i)
      case Dec(k, len) =>
        if i + len > |s| || len == 0 then BadAt(i)
        else match ScanFrom(s, i + len, j)
          case BadAt(pos) => BadAt(pos)
          case Scanned(ks, end) => Scanned([k] + ks, end)
  }

  lemma ScanStep(s: seq<byte>, i: nat, j: int)
    requires i <= j < |s|
    ensures Read(s, i).Invalid? ==> ScanFrom(s, i, j) == BadAt(i)
    ensures Read(s, i).Dec? ==>
              var k, next := Read(s, i).k, i + Read(s, i).len;
              && i < next <= |s| && CharAt(s, i, k) && next == i + |Encode(k)|
              && ScanFrom(s, i, j) == match ScanFrom(s, next, j)
                                      case BadAt(pos) => BadAt(pos)
                                      case Scanned(ks, end) => Scanned([k] + ks, end)
  {
    if Read(s, i).Dec? { ReadLen(s, i); }
    hide Read;
  }

  // Decoding the encoding of any list of code points gives the list back.
  lemma {:induction false} ScanEncoded(s: seq<byte>, i: nat, ks: seq<code>)
    requires i + |EncodeAll(ks)| == |s| && s[i..] == EncodeAll(ks)
    ensures ScanFrom(s, i, |s| - 1) == Scanned(ks, |s|)
    decreases |ks|
  {
    hide *;
    if ks == [] {
      EncodeNone();
      ScanNone(s, i, |s| - 1);
    } else {
      var n := i + |Encode(ks[0])|;
      EncodeFirst(s, i, ks);
      ReadEncode(s, i, ks[0]);
      ScanStep(s, i, |s| - 1);
      ScanEncoded(s, n, ks[1..]);
      assert ks == [ks[0]] + ks[1..];
    }
  }

  lemma EncodeNone()
    ensures EncodeAll([]) == []
  {
  }

  lemma EncodeFirst(s: seq<byte>, i: nat, ks: seq<code>)
    requires ks != [] && i + |EncodeAll(ks)| == |s| && s[i..] == EncodeAll(ks)
    ensures var n := i + |Encode(ks[0])|;
            i < n <= |s| && CharAt(s, i, ks[0]) && s[n..] == EncodeAll(ks[1..]) && n + |EncodeAll(ks[1..])| == |s|
  {
    var e := Encode(ks[0]);
    EncodeLen(ks[0]);
    hide Encode;
    assert s[i..i + |e|] == s[i..][..|e|] == e;
    assert s[i + |e|..] == s[i..][|e|..] == EncodeAll(ks[1..]);
  }

  lemma EncodeLen(k: code)
    ensures |Encode(k)| > 0
  {
  }

  // Whatever is accepted encodes to the same bytes again.
  lemma {:induction false} ScanReencodes(s: seq<byte>, i: nat, j: int)
    requires j < |s| && i <= |s| && ScanFrom(s, i, j).Scanned?
    ensures var r := ScanFrom(s, i, j); i <= r.end <= |s| && s[i..r.end] == EncodeAll(r.ks)
    ensures j == |s| - 1 ==> ScanFrom(s, i, j).end == |s|
    decreases |s| - i
  {
    hide *;
    if i <= j {
      ScanStep(s, i, j);
      var k, next := Read(s, i).k, i + Read(s, i).len;
      ScanReencodes(s, next, j);
      var rest := ScanFrom(s, next, j);
      EncodeCons(k, rest.ks);
      CharSlice(s, i, k, next);
      assert s[i..rest.end] == s[i..next] + s[next..rest.end];
    } else {
      ScanNone(s, i, j);
      EncodeNone();
    }
  }

  lemma EncodeCons(k: code, ks: seq<code>)
    ensures EncodeAll([k] + ks) == Encode(k) + EncodeAll(ks)
  {
    assert ([k] + ks)[1..] == ks;
  }

  lemma CharSlice(s: seq<byte>, i: nat, k: code, next: nat)
    requires CharAt(s, i, k) && next == i + |Encode(k)|
    ensures next <= |s| && s[i..next] == Encode(k)
  {
  }

  // Negative positions count from the end.
  function PosRelat(pos: int, len: nat): int { if pos >= 0 then pos else if -pos > len then 0 else len + pos + 1 }

  datatype LenRes = Count(n: nat) | NilAt(pos: nat) | ArgError(arg: nat)

  // The characters that start between the positions i and j are counted.
  function LenOf(s: seq<byte>, i: int, j: int): LenRes {
    var posi, posj := PosRelat(i, |s|) - 1, PosRelat(j, |s|) - 1;
    if posi < 0 || posi > |s| then ArgError(2)
    else if posj >= |s| then ArgError(3)
    else match ScanFrom(s, posi, posj)
      case Scanned(ks, _) => Count(|ks|)
      case BadAt(pos) => NilAt(pos + 1)
  }

  // utf8.len(s, i, j)
  method Len(s: seq<byte>, i: int, j: int) returns (r: LenRes)
    ensures r == LenOf(s, i, j)
  {
    hide PosRelat, ScanFrom, Read, CharAt, Encode, EncodeAll;
    var posi, posj := PosRelat(i, |s|) - 1, PosRelat(j, |s|) - 1;
    if posi < 0 || posi > |s| {
      return ArgError(2);
    }
    if posj >= |s| {
      return ArgError(3);
    }
    var n: nat := 0;
    ghost var whole := ScanFrom(s, posi, posj);
    while posi <= posj
      invariant 0 <= posi
      invariant match ScanFrom(s, posi, posj)
                case Scanned(ks, _) => whole.Scanned? && |whole.ks| == n + |ks|
                case BadAt(pos) => whole == BadAt(pos)
      decreases |s| - posi
    {
      ScanStep(s, posi, posj);
      var ok, _, next := Decode(s, posi);
      if !ok {
        return NilAt(posi + 1);
      }
      posi := next;
      n := n + 1;
    }
    ScanNone(s, posi, posj);
    return Count(n);
  }

  lemma ScanNone(s: seq<byte>, i: nat, j: int)
    requires j < |s| && i > j
    ensures ScanFrom(s, i, j) == Scanned([], i)
  {
  }

  datatype PointsRes = Points(ks: seq<int>) | RangeError(arg: nat) | InvalidCode | TooLong

  // The code points of the characters that start between the positions i and j.
  function PointsOf(s: seq<byte>, i: int, j: int): PointsRes {
    var posi, pose := PosRelat(i, |s|), PosRelat(j, |s|);
    if posi < 1 then RangeError(2)
    else if pose > |s| then RangeError(3)
    else if pose - posi >= 0x7fffffff then TooLong
    else match ScanFrom(s, posi - 1, pose - 1)
      case Scanned(ks, _) => Points(ks)
      case BadAt(_) => InvalidCode
  }

  // utf8.codepoint(s, i, j)
  method Codepoint(s: seq<byte>, i: int, j: int) returns (r: PointsRes)
    ensures r == PointsOf(s, i, j)
  {
    hide PosRelat, ScanFrom, Read, CharAt, Encode, EncodeAll;
    var posi, pose := PosRelat(i, |s|), PosRelat(j, |s|);
    if posi < 1 {
      return RangeError(2);
    }
    if pose > |s| {
      return RangeError(3);
    }
    if posi > pose {
      ScanNone(s, posi - 1, pose - 1);
      return Points([]);
    }
    if pose - posi >= 0x7fffffff {
      return TooLong;
    }
    var ks: seq<int>, p: nat := [], posi - 1;
    ghost var whole := ScanFrom(s, p, pose - 1);
    while p < pose
      invariant match ScanFrom(s, p, pose - 1)
                case Scanned(rest, _) => whole.Scanned? && whole.ks == ks + rest
                case BadAt(_) => whole.BadAt?
      decreases |s| - p
    {
      ScanStep(s, p, pose - 1);
      var ok, k, next := Decode(s, p);
      if !ok {
        return InvalidCode;
      }
      p := next;
      ks := ks + [k];
    }
    ScanNone(s, p, pose - 1);
    return Points(ks);
  }

  // -- Character starts ------------------------------------------------------

  // The next position that does not hold a continuation byte; the end counts.
  function NextStart(s: seq<byte>, p: nat): (q: nat)
    requires p < |s|
    ensures p < q <= |s| && !IsCont(At(s, q)) && forall k :: p < k < q ==> IsCont(s[k])
    decreases |s| - p
  {
    if IsCont(At(s, p + 1)) then NextStart(s, p + 1) else p + 1
  }

  function PrevStart(s: seq<byte>, p: nat): (q: nat)
    requires 0 < p <= |s|
    ensures q < p && (q == 0 || !IsCont(s[q])) && forall k :: q < k < p ==> IsCont(s[k])
  {
    if p - 1 > 0 && IsCont(s[p - 1]) then PrevStart(s, p - 1) else p - 1
  }

  // n characters on or back from a start, or -1.
  function Forward(s: seq<byte>, p: nat, n: nat): int
    requires p <= |s|
    decreases n
  {
    if n == 0 then p else if p == |s| then -1 else Forward(s, NextStart(s, p), n - 1)
  }

  function Backward(s: seq<byte>, p: nat, n: nat): int
    requires p <= |s|
    decreases n
  {
    if n == 0 then p else if p == 0 then -1 else Backward(s, PrevStart(s, p), n - 1)
  }

  datatype OffsetRes = Offset(pos: nat) | Nil | BadArg | OnContinuation

  // The start of the n-th character from position i on, or of the one that holds it.
  function OffsetOf(s: seq<byte>, n: int, i: int): OffsetRes {
    var p := PosRelat(i, |s|) - 1;
    if p < 0 || p > |s| then BadArg
    else if n == 0 then Offset((if p == 0 || !IsCont(At(s, p)) then p else PrevStart(s, p)) + 1)
    else if IsCont(At(s, p)) then OnContinuation
    else var q := if n > 0 then Forward(s, p, n - 1) else Backward(s, p, -n);
         if q < 0 then Nil else Offset(q + 1)
  }

  // utf8.offset(s, n, i)
  method Utf8Offset(s: seq<byte>, n0: int, i: int) returns (r: OffsetRes)
    ensures r == OffsetOf(s, n0, i)
  {
    hide NextStart, PrevStart, IsCont;
    var p := PosRelat(i, |s|) - 1;
    if p < 0 || p > |s| {
      return BadArg;
    }
    var n := n0;
    if n == 0 {
      // Find the beginning of the current byte sequence.
      if p > 0 && IsCont(At(s, p)) {
        p := BackOne(s, p);
      }
    } else {
      if IsCont(At(s, p)) {
        return OnContinuation;
      }
      ghost var p0 := p;
      if n < 0 {
        while n < 0 && p > 0
          invariant 0 <= p <= |s| && n <= 0 && Backward(s, p, -n) == Backward(s, p0, -n0)
          decreases p
        {
          p := BackOne(s, p);
          n := n + 1;
        }
      } else {
        n := n - 1;
        while n > 0 && p < |s|
          invariant 0 <= p <= |s| && n >= 0 && Forward(s, p, n) == Forward(s, p0, n0 - 1)
          decreases n
        {
          p := ForwardOne(s, p);
          n := n - 1;
        }
      }
    }
    if n == 0 {
      return Offset(p + 1);
    }
    return Nil;
  }

  // Find the beginning of the previous character.
  method BackOne(s: seq<byte>, p: nat) returns (q: nat)
    requires 0 < p <= |s|
    ensures q == PrevStart(s, p) && q < p
  {
    q := p - 1;
    while q > 0 && IsCont(At(s, q))
      invariant q < p && PrevStart(s, p) == if q > 0 && IsCont(s[q]) then PrevStart(s, q) else q
    {
      q := q - 1;
    }
  }

  // Find the beginning of the next character; the final zero byte stops this.
  method ForwardOne(s: seq<byte>, p: nat) returns (q: nat)
    requires p < |s|
    ensures q == NextStart(s, p) && p < q <= |s|
  {
    q := p + 1;
    while IsCont(At(s, q))
      invariant p < q <= |s| && NextStart(s, p) == if IsCont(At(s, q)) then NextStart(s, q) else q
      decreases |s| - q
    {
      q := q + 1;
    }
  }

  // -- utf8.char, utf8.len, utf8.codepoint and utf8.offset together ----------

  function Start(ks: seq<code>, m: nat): nat
    requires m <= |ks|
  {
    |EncodeAll(ks[..m])|
  }

  lemma EncodeShape(k: code)
    ensures var e := Encode(k); |e| > 0 && !IsCont(e[0]) && forall j :: 1 <= j < |e| ==> IsCont(e[j])
  {
  }

  lemma StartStep(ks: seq<code>, m: nat)
    requires m < |ks|
    ensures var s := EncodeAll(ks);
            Start(ks, m + 1) == Start(ks, m) + |Encode(ks[m])| <= |s|
              && s[Start(ks, m)..Start(ks, m + 1)] == Encode(ks[m])
  {
    hide Encode;
    assert ks[..m + 1] == ks[..m] + [ks[m]];
    EncodeMore(ks[..m], ks[m]);
    assert ks == ks[..m + 1] + ks[m + 1..];
    EncodeConcat(ks[..m + 1], ks[m + 1..]);
  }

  lemma StartIsStart(ks: seq<code>, m: nat)
    requires m <= |ks|
    ensures Start(ks, m) <= |EncodeAll(ks)| && !IsCont(At(EncodeAll(ks), Start(ks, m)))
    ensures m == |ks| <==> Start(ks, m) == |EncodeAll(ks)|
  {
    if m < |ks| {
      StartStep(ks, m);
      EncodeShape(ks[m]);
      var s := EncodeAll(ks);
      assert s[Start(ks, m)] == s[Start(ks, m)..Start(ks, m + 1)][0];
    } else {
      assert ks[..m] == ks;
    }
  }

  lemma CharSpan(ks: seq<code>, m: nat, p: nat)
    requires m < |ks| && Start(ks, m) < p < Start(ks, m + 1)
    ensures p < |EncodeAll(ks)| && IsCont(EncodeAll(ks)[p])
  {
    StartStep(ks, m);
    EncodeShape(ks[m]);
    var s := EncodeAll(ks);
    assert s[p] == s[Start(ks, m)..Start(ks, m + 1)][p - Start(ks, m)];
  }

  // The starts of neighbouring characters are each other's next and previous.
  lemma Neighbours(ks: seq<code>, m: nat)
    requires m < |ks|
    ensures var s := EncodeAll(ks);
            && Start(ks, m) < |s| && NextStart(s, Start(ks, m)) == Start(ks, m + 1)
            && 0 < Start(ks, m + 1) <= |s| && PrevStart(s, Start(ks, m + 1)) == Start(ks, m)
  {
    var s := EncodeAll(ks);
    StartStep(ks, m);
    EncodeShape(ks[m]);
    StartIsStart(ks, m);
    StartIsStart(ks, m + 1);
    var a, b := Start(ks, m), Start(ks, m + 1);
    forall p | a < p < b ensures IsCont(s[p]) { CharSpan(ks, m, p); }
    assert !IsCont(s[a]);
  }

  // Positions from the start to the end of s, each the next start of the one
  // before.
  ghost predicate Chain(s: seq<byte>, f: seq<nat>) {
    && |f| > 0 && f[0] == 0 && f[|f| - 1] == |s|
    && forall m :: 0 <= m < |f| - 1 ==> Linked(s, f, m)
  }

  predicate Linked(s: seq<byte>, f: seq<nat>, m: nat)
    requires m + 1 < |f|
  {
    var n := m + 1;
    f[m] < |s| && NextStart(s, f[m]) == f[n] && 0 < f[n] <= |s| && PrevStart(s, f[n]) == f[m]
  }

  lemma {:induction false} ForwardFinds(s: seq<byte>, f: seq<nat>, m: nat, n: nat)
    requires Chain(s, f) && m < |f|
    ensures f[m] <= |s| && Forward(s, f[m], n) == if m + n < |f| then f[m + n] else -1
    decreases n
  {
    if m + 1 < |f| {
      assert Linked(s, f, m);
      if n > 0 { ForwardFinds(s, f, m + 1, n - 1); }
    }
  }

  lemma {:induction false} BackwardFinds(s: seq<byte>, f: seq<nat>, m: nat, n: nat)
    requires Chain(s, f) && m < |f|
    ensures f[m] <= |s| && Backward(s, f[m], n) == if n <= m then f[m - n] else -1
    decreases n
  {
    if m > 0 {
      assert Linked(s, f, m - 1);
      if n > 0 { BackwardFinds(s, f, m - 1, n - 1); }
    }
  }

  ghost function Starts(ks: seq<code>): (f: seq<nat>)
    ensures |f| == |ks| + 1 && forall m :: 0 <= m <= |ks| ==> f[m] == Start(ks, m)
  {
    seq(|ks| + 1, m requires 0 <= m <= |ks| => Start(ks, m))
  }

  lemma StartsChain(ks: seq<code>)
    ensures Chain(EncodeAll(ks), Starts(ks))
  {
    var s, f := EncodeAll(ks), Starts(ks);
    hide Encode, Start;
    StartEnds(ks);
    forall m | 0 <= m < |f| - 1
      ensures Linked(s, f, m)
    {
      Neighbours(ks, m);
    }
  }

  lemma StartEnds(ks: seq<code>)
    ensures Start(ks, 0) == 0 && Start(ks, |ks|) == |EncodeAll(ks)|
  {
    assert ks[..0] == [] && ks[..|ks|] == ks;
  }

  // For every list of code points: the code points of the encoded string, and
  // the start of every character counted from either end.
  lemma RoundTrip(ks: seq<code>)
    ensures var s := EncodeAll(ks);
            && ScanFrom(s, 0, |s| - 1) == Scanned(ks, |s|)
            && (forall n :: 0 <= n < |ks| ==> Forward(s, 0, n) == Start(ks, n))
            && (forall n :: 1 <= n <= |ks| ==> Backward(s, |s|, n) == Start(ks, |ks| - n))
  {
    var s, f := EncodeAll(ks), Starts(ks);
    assert s[0..] == s;
    ScanEncoded(s, 0, ks);
    StartsChain(ks);
    StartEnds(ks);
    hide *;
    ForwardAll(s, f, ks);
    BackwardAll(s, f, ks);
  }

  lemma ForwardAll(s: seq<byte>, f: seq<nat>, ks: seq<code>)
    requires Chain(s, f) && f == Starts(ks) && Start(ks, 0) == 0
    ensures forall n :: 0 <= n < |ks| ==> Forward(s, 0, n) == Start(ks, n)
  {
    hide Forward, Start, Chain;
    forall n | 0 <= n < |ks| ensures Forward(s, 0, n) == Start(ks, n) { ForwardFinds(s, f, 0, n); }
  }

  lemma BackwardAll(s: seq<byte>, f: seq<nat>, ks: seq<code>)
    requires Chain(s, f) && f == Starts(ks) && Start(ks, |ks|) == |s|
    ensures forall n :: 1 <= n <= |ks| ==> Backward(s, |s|, n) == Start(ks, |ks| - n)
  {
    hide Backward, Start, Chain;
    forall n | 1 <= n <= |ks| ensures Backward(s, |s|, n) == Start(ks, |ks| - n) { BackwardFinds(s, f, |ks|, n); }
  }

  // -- The calls themselves --------------------------------------------------

  // A position names the same byte counted from either end.
  predicate Names(pos: int, b: nat, len: nat) { pos == b + 1 || pos == b - len }

  lemma NamedByte(pos: int, b: nat, len: nat)
    requires b < len && Names(pos, b, len)
    ensures PosRelat(pos, len) == b + 1
  {
  }

  // utf8.len counts the characters of an encoded list, utf8.codepoint returns them,
  // and utf8.offset finds the n-th one from either end.
  lemma EncodedCalls(ks: seq<code>, n: nat)
    requires 1 <= n <= |ks|
    ensures var s := EncodeAll(ks);
            && LenOf(s, 1, -1) == Count(|ks|) && LenOf(s, -|s|, |s|) == Count(|ks|)
            && PointsOf(s, 1, -1) == (if |s| > 0x7fffffff then TooLong else Points(ks))
            && OffsetOf(s, n, 1) == Offset(Start(ks, n - 1) + 1)
            && OffsetOf(s, -(n as int), |s| + 1) == Offset(Start(ks, |ks| - n) + 1)
  {
    hide *;
    var s := EncodeAll(ks);
    RoundTrip(ks);
    NotEmpty(ks);
    StartIsStart(ks, 0);
    StartEnds(ks);
    NamedByte(1, 0, |s|);
    NamedByte(-|s|, 0, |s|);
    NamedByte(|s|, |s| - 1, |s|);
    NamedByte(-1, |s| - 1, |s|);
    LenOfAll(ks);
    PointsOfAll(ks);
    OffsetForward(ks, n);
    OffsetBackward(ks, n);
  }

  lemma NotEmpty(ks: seq<code>)
    requires ks != []
    ensures |EncodeAll(ks)| > 0
  {
  }

  lemma LenOfAll(ks: seq<code>)
    requires var s := EncodeAll(ks); s != [] && ScanFrom(s, 0, |s| - 1) == Scanned(ks, |s|)
    ensures var s := EncodeAll(ks); LenOf(s, 1, -1) == Count(|ks|) && LenOf(s, -|s|, |s|) == Count(|ks|)
  {
    hide EncodeAll, ScanFrom;
  }

  lemma PointsOfAll(ks: seq<code>)
    requires var s := EncodeAll(ks); s != [] && ScanFrom(s, 0, |s| - 1) == Scanned(ks, |s|)
    ensures var s := EncodeAll(ks); PointsOf(s, 1, -1) == if |s| > 0x7fffffff then TooLong else Points(ks)
  {
    hide EncodeAll, ScanFrom;
  }

  lemma OffsetForward(ks: seq<code>, n: nat)
    requires var s := EncodeAll(ks);
             1 <= n <= |ks| && !IsCont(At(s, 0)) && Forward(s, 0, n - 1) == Start(ks, n - 1)
    ensures OffsetOf(EncodeAll(ks), n, 1) == Offset(Start(ks, n - 1) + 1)
  {
    hide EncodeAll, Forward, IsCont, Start;
  }

  lemma OffsetBackward(ks: seq<code>, n: nat)
    requires var s := EncodeAll(ks);
             1 <= n <= |ks| && Backward(s, |s|, n) == Start(ks, |ks| - n)
    ensures var s := EncodeAll(ks); OffsetOf(s, -(n as int), |s| + 1) == Offset(Start(ks, |ks| - n) + 1)
  {
    hide EncodeAll, Backward, Start;
  }

  // From any byte of a character, named from either end, utf8.offset(s, 0, i) finds
  // where the character starts.
  lemma HoldingCalls(ks: seq<code>, m: nat, b: nat, pos: int)
    requires m < |ks| && Start(ks, m) <= b < Start(ks, m + 1) && Names(pos, b, |EncodeAll(ks)|)
    ensures OffsetOf(EncodeAll(ks), 0, pos) == Offset(Start(ks, m) + 1)
  {
    var s := EncodeAll(ks);
    BeforeEnd(ks, m);
    NamedByte(pos, b, |s|);
    StartIsStart(ks, m);
    hide EncodeAll, Start, IsCont, PosRelat, PrevStart;
    if b > Start(ks, m) {
      CharSpan(ks, m, b);
      PrevWithin(ks, m, b);
    }
  }

  lemma BeforeEnd(ks: seq<code>, m: nat)
    requires m < |ks|
    ensures Start(ks, m + 1) <= |EncodeAll(ks)|
  {
    StartStep(ks, m);
  }

  lemma PrevWithin(ks: seq<code>, m: nat, b: nat)
    requires m < |ks| && Start(ks, m) < b < Start(ks, m + 1)
    ensures b < |EncodeAll(ks)| && PrevStart(EncodeAll(ks), b) == Start(ks, m)
  {
    var s := EncodeAll(ks);
    StartStep(ks, m);
    StartIsStart(ks, m);
    var a, q := Start(ks, m), PrevStart(s, b);
    forall p | a < p < b
      ensures IsCont(s[p])
    {
      CharSpan(ks, m, p);
    }
    hide EncodeAll, Encode, Start, IsCont, PrevStart;
    assert !IsCont(s[a]);
  }
}
