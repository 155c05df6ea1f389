// Lua patterns: what an item of a pattern matches, and which parses a subject
// has, best first (src/lib_string.c).
module LuaPattern {
  type byte = x: int | 0 <= x < 256

  const ESC: byte := 37           // '%'
  const DOT: byte := 46           // '.'
  const OPEN: byte := 40          // '('
  const CLOSE: byte := 41         // ')'
  const SET: byte := 91           // '['
  const ENDSET: byte := 93        // ']'
  const CARET: byte := 94         // '^'
  const DOLLAR: byte := 36        // '$'
  const DASH: byte := 45          // '-'
  const STAR: byte := 42          // '*'
  const PLUS: byte := 43          // '+'
  const QUERY: byte := 63         // '?'
  const LOWER_B: byte := 98       // 'b'
  const LOWER_F: byte := 102      // 'f'
  const DIGIT_0: byte := 48       // '0'

  const MAXCAPTURES: nat := 32
  const MAX_XLEVEL: nat := 200
  const UNFINISHED: int := -1
  const POSITION: int := -2

  // Strings end with a zero byte, which may be read.
  function At(p: seq<byte>, i: nat): byte
    requires i <= |p|
  {
    if i < |p| then p[i] else 0
  }

  // -- Character classes -----------------------------------------------------

  predicate IsDigit(c: byte) { 48 <= c <= 57 }
  predicate IsUpper(c: byte) { 65 <= c <= 90 }
  predicate IsLower(c: byte) { 97 <= c <= 122 }
  predicate IsAlpha(c: byte) { IsUpper(c) || IsLower(c) }
  predicate IsAlnum(c: byte) { IsAlpha(c) || IsDigit(c) }
  predicate IsXdigit(c: byte) { IsDigit(c) || 65 <= c <= 70 || 97 <= c <= 102 }
  predicate IsCntrl(c: byte) { c < 32 || c == 127 }
  predicate IsSpace(c: byte) { 9 <= c <= 13 || c == 32 }
  predicate IsPunct(c: byte) { 33 <= c <= 126 && !IsAlnum(c) }
  predicate IsGraph(c: byte) { IsAlnum(c) || IsPunct(c) }

  // The letter after % without its case, and whether it names a class.
  predicate HasClass(letter: int) { letter in {1, 3, 4, 7, 12, 16, 19, 21, 23, 24} }

  predicate InClass(c: byte, letter: int)
    requires HasClass(letter)
  {
    if letter == 1 then IsAlpha(c) else if letter == 3 then IsCntrl(c) else if letter == 4 then IsDigit(c)
    else if letter == 7 then IsGraph(c) else if letter == 12 then IsLower(c) else if letter == 16 then IsPunct(c)
    else if letter == 19 then IsSpace(c) else if letter == 21 then IsUpper(c) else if letter == 23 then IsAlnum(c)
    else IsXdigit(c)
  }

  predicate MatchClass(c: byte, cl: byte) {
    if 64 <= cl < 128 && HasClass(cl % 32) then (if cl >= 96 then InClass(c, cl % 32) else !InClass(c, cl % 32))
    else if cl == 122 then c == 0
    else if cl == 90 then c != 0
    else cl == c
  }

  // -- Items -----------------------------------------------------------------

  datatype Error = CapI | PatC | PatE | PatM | PatU | PatB | CapN | CapU | PatX

  datatype Pos = Ends(i: nat) | Bad(err: Error)

  // The end of the set whose members start at i: its first `]` after at least
  // one member; an escaped character is not looked at.
  function SetEnd(p: seq<byte>, i: nat): (r: Pos)
    requires i <= |p|
    ensures r.Ends? ==> i + 1 < r.i <= |p| && p[r.i - 1] == ENDSET
    decreases |p| - i
  {
    if At(p, i) == 0 then Bad(PatM)
    else
      var j := if p[i] == ESC && At(p, i + 1) != 0 then i + 2 else i + 1;
      if At(p, j) == ENDSET then Ends(j + 1) else SetEnd(p, j)
  }

  // Where the single-character item at i ends.
  function ItemEnd(p: seq<byte>, i: nat): (r: Pos)
    requires i < |p| && p[i] != 0
    ensures r.Ends? ==> i < r.i <= |p| && (p[i] == SET ==> i + 2 < r.i && p[r.i - 1] == ENDSET)
                        && (p[i] == ESC ==> r.i == i + 2)
  {
    if p[i] == ESC then (if At(p, i + 1) == 0 then Bad(PatE) else Ends(i + 2))
    else if p[i] == SET then SetEnd(p, if At(p, i + 1) == CARET then i + 2 else i + 1)
    else Ends(i + 1)
  }

  // Some member of the set between i and the `]` at ec matches c.
  predicate SetHas(c: byte, p: seq<byte>, i: nat, ec: nat)
    requires i <= |p| && ec < |p|
    decreases |p| - i
  {
    if i >= ec then false
    else if p[i] == ESC then MatchClass(c, p[i + 1]) || SetHas(c, p, i + 2, ec)
    else if p[i + 1] == DASH && i + 2 < ec then p[i] <= c <= p[i + 2] || SetHas(c, p, i + 3, ec)
    else p[i] == c || SetHas(c, p, i + 1, ec)
  }

  // The set [ at i, with its ] at ec.
  predicate InSet(c: byte, p: seq<byte>, i: nat, ec: nat)
    requires i < ec < |p|
  {
    if p[i + 1] == CARET then !SetHas(c, p, i + 2, ec) else SetHas(c, p, i + 1, ec)
  }

  predicate SingleMatch(c: byte, p: seq<byte>, i: nat, ep: nat)
    requires i < |p| && p[i] != 0 && ItemEnd(p, i) == Ends(ep)
  {
    if p[i] == DOT then true
    else if p[i] == ESC then MatchClass(c, p[i + 1])
    else if p[i] == SET then InSet(c, p, i, ep - 1)
    else p[i] == c
  }

  // How often the item can be repeated from s on.
  function Repeats(src: seq<byte>, s: nat, p: seq<byte>, i: nat, ep: nat): (k: nat)
    requires s <= |src| && i < |p| && p[i] != 0 && ItemEnd(p, i) == Ends(ep)
    ensures s + k <= |src|
    decreases |src| - s
  {
    if s < |src| && SingleMatch(src[s], p, i, ep) then 1 + Repeats(src, s + 1, p, i, ep) else 0
  }

  lemma {:induction false} RepeatsIs(src: seq<byte>, s: nat, p: seq<byte>, i: nat, ep: nat, k: nat)
    requires s <= |src| && i < |p| && p[i] != 0 && ItemEnd(p, i) == Ends(ep) && s + k <= |src|
    requires forall j :: s <= j < s + k ==> SingleMatch(src[j], p, i, ep)
    ensures k <= Repeats(src, s, p, i, ep)
    ensures s + k == |src| || !SingleMatch(src[s + k], p, i, ep) ==> Repeats(src, s, p, i, ep) == k
    ensures s + k < |src| && SingleMatch(src[s + k], p, i, ep) ==> k < Repeats(src, s, p, i, ep)
    decreases k
  {
    if k > 0 {
      assert SingleMatch(src[s], p, i, ep);
      RepeatsIs(src, s + 1, p, i, ep, k - 1);
    }
  }

  // -- %b --------------------------------------------------------------------

  // The nesting depth after the bytes from s + 1 to k, starting at 1.
  function Nesting(src: seq<byte>, s: nat, k: nat, b: byte, e: byte): int
    requires s <= k < |src|
    decreases k
  {
    if k == s then 1
    else Nesting(src, s, k - 1, b, e) + (if src[k] == e then -1 else if src[k] == b then 1 else 0)
  }

  ghost predicate BalancedAt(src: seq<byte>, s: nat, k: nat, b: byte, e: byte) {
    s < k < |src| && Nesting(src, s, k, b, e) == 0 && forall j :: s <= j < k ==> Nesting(src, s, j, b, e) != 0
  }

  // The balance starting at s ends with the first byte that brings the nesting
  // back to zero.
  function Balance(src: seq<byte>, s: nat, k: nat, b: byte, e: byte): (r: int)
    requires s <= k <= |src|
    ensures r == -1 || k < r <= |src|
    decreases |src| - k
  {
    if k + 1 >= |src| then -1
    else if Nesting(src, s, k + 1, b, e) == 0 then k + 2
    else Balance(src, s, k + 1, b, e)
  }

  lemma {:induction false} BalanceFirst(src: seq<byte>, s: nat, k: nat, b: byte, e: byte)
    requires s <= k < |src| && forall j :: s <= j <= k ==> Nesting(src, s, j, b, e) != 0
    ensures Balance(src, s, k, b, e) == -1 ==> forall j :: s <= j < |src| ==> !BalancedAt(src, s, j, b, e)
    ensures Balance(src, s, k, b, e) != -1 ==> BalancedAt(src, s, Balance(src, s, k, b, e) - 1, b, e)
    decreases |src| - k
  {
    if k + 1 < |src| && Nesting(src, s, k + 1, b, e) != 0 {
      BalanceFirst(src, s, k + 1, b, e);
    }
  }
}
