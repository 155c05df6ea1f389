// What patterns mean, without the scans that read them: classes, sets as lists of
// members, and repetitions.
module LuaMeaning {
  import opened LuaPattern
  import opened LuaParse
  import opened LuaMatch

  // -- Classes ---------------------------------------------------------------

  const DIGITS: string := "0123456789"
  const LOWER: string := "abcdefghijklmnopqrstuvwxyz"
  const UPPER: string := "ABCDEFGHIJKLMNOPQRSTUVWXYZ"
  const PUNCT: string := "!\"#$%&'()*+,-./:;<=>?@[\\]^_`{|}~"

  predicate Among(c: byte, s: string) { exists k :: 0 <= k < |s| && s[k] as int == c }

  // The bytes that a class letter names.
  predicate Named(letter: char, c: byte) {
    match letter
    case 'a' => Among(c, LOWER) || Among(c, UPPER)
    case 'c' => c in {0, 1, 2, 3, 4, 5, 6, 7, 8, 9, 10, 11, 12, 13, 14, 15, 16, 17, 18, 19, 20, 21, 22, 23, 24, 25, 26,
      27, 28, 29, 30, 31, 127}
    case 'd' => Among(c, DIGITS)
    case 'g' => Among(c, LOWER) || Among(c, UPPER) || Among(c, DIGITS) || Among(c, PUNCT)
    case 'l' => Among(c, LOWER)
    case 'p' => Among(c, PUNCT)
    case 's' => c in {9, 10, 11, 12, 13, 32}
    case 'u' => Among(c, UPPER)
    case 'w' => Among(c, LOWER) || Among(c, UPPER) || Among(c, DIGITS)
    case 'x' => Among(c, DIGITS) || Among(c, "abcdef") || Among(c, "ABCDEF")
    case 'z' => c == 0
    case _ => false
  }

  lemma DigitsAre(c: byte)
    ensures Among(c, DIGITS) <==> IsDigit(c)
  {
    if IsDigit(c) { assert DIGITS[c - 48] as int == c; }
  }

  lemma LowerAre(c: byte)
    ensures Among(c, LOWER) <==> IsLower(c)
  {
    if IsLower(c) { assert LOWER[c - 97] as int == c; }
  }

  lemma UpperAre(c: byte)
    ensures Among(c, UPPER) <==> IsUpper(c)
  {
    if IsUpper(c) { assert UPPER[c - 65] as int == c; }
  }

  lemma HexAre(c: byte)
    ensures Among(c, "abcdef") <==> 97 <= c <= 102
    ensures Among(c, "ABCDEF") <==> 65 <= c <= 70
  {
    if 97 <= c <= 102 { assert "abcdef"[c - 97] as int == c; }
    if 65 <= c <= 70 { assert "ABCDEF"[c - 65] as int == c; }
  }

  lemma PunctIs(c: byte)
    ensures Among(c, PUNCT) <==> IsPunct(c)
  {
    if IsPunct(c) { PunctHas(c); }
    if Among(c, PUNCT) {
      var k :| 0 <= k < |PUNCT| && PUNCT[k] as int == c;
      PunctAt(k);
    }
  }

  lemma PunctHas(c: byte)
    requires IsPunct(c)
    ensures Among(c, PUNCT)
  {
    if c <= 47 { assert PUNCT[c - 33] as int == c; }
    else if c <= 64 { assert PUNCT[c - 58 + 15] as int == c; }
    else if c <= 96 { assert PUNCT[c - 91 + 22] as int == c; }
    else { assert PUNCT[c - 123 + 28] as int == c; }
  }

  lemma PunctAt(k: nat)
    requires k < |PUNCT|
    ensures PUNCT[k] as int < 127 && IsPunct(PUNCT[k] as int)
  {
  }

  // A class letter names its bytes, and in upper case all others; any other escaped
  // byte stands for itself.
  lemma ClassMeaning(letter: char, c: byte)
    requires letter in "acdglpsuwxz"
    ensures MatchClass(c, letter as int) <==> Named(letter, c)
    ensures MatchClass(c, letter as int - 32) <==> !Named(letter, c)
  {
    DigitsAre(c);
    LowerAre(c);
    UpperAre(c);
    HexAre(c);
    PunctIs(c);
    hide Among;
  }

  lemma EscapedByte(c: byte, cl: byte)
    requires !Among(cl, "acdglpsuwxz") && !Among(cl, "ACDGLPSUWXZ")
    ensures MatchClass(c, cl) <==> c == cl
  {
    var lower, upper := "acdglpsuwxz", "ACDGLPSUWXZ";
    forall k | 0 <= k < 11 ensures cl != lower[k] as int && cl != upper[k] as int {}
    assert cl != 97 && cl != 65 by { assert lower[0] == 'a' && upper[0] == 'A'; }
    assert cl != 99 && cl != 67 by { assert lower[1] == 'c' && upper[1] == 'C'; }
    assert cl != 100 && cl != 68 by { assert lower[2] == 'd' && upper[2] == 'D'; }
    assert cl != 103 && cl != 71 by { assert lower[3] == 'g' && upper[3] == 'G'; }
    assert cl != 108 && cl != 76 by { assert lower[4] == 'l' && upper[4] == 'L'; }
    assert cl != 112 && cl != 80 by { assert lower[5] == 'p' && upper[5] == 'P'; }
    assert cl != 115 && cl != 83 by { assert lower[6] == 's' && upper[6] == 'S'; }
    assert cl != 117 && cl != 85 by { assert lower[7] == 'u' && upper[7] == 'U'; }
    assert cl != 119 && cl != 87 by { assert lower[8] == 'w' && upper[8] == 'W'; }
    assert cl != 120 && cl != 88 by { assert lower[9] == 'x' && upper[9] == 'X'; }
    assert cl != 122 && cl != 90 by { assert lower[10] == 'z' && upper[10] == 'Z'; }
  }

  // -- Sets ------------------------------------------------------------------

  datatype Member = One(b: byte) | Range(lo: byte, hi: byte) | Class(cl: byte)

  predicate Has(m: Member, c: byte) {
    match m
    case One(b) => c == b
    case Range(lo, hi) => lo <= c <= hi
    case Class(cl) => MatchClass(c, cl)
  }

  predicate SomeHas(ms: seq<Member>, c: byte) { exists k :: 0 <= k < |ms| && Has(ms[k], c) }

  function Spell(m: Member): seq<byte> {
    match m
    case One(b) => [b]
    case Range(lo, hi) => [lo, DASH, hi]
    case Class(cl) => [ESC, cl]
  }

  function SpellAll(ms: seq<Member>): seq<byte> { if ms == [] then [] else Spell(ms[0]) + SpellAll(ms[1..]) }

  // The member at i of a set that ends at ec, and all members from there on.
  function MemberAt(p: seq<byte>, i: nat, ec: nat): Member
    requires i < ec < |p|
  {
    if p[i] == ESC then Class(p[i + 1])
    else if i + 2 < ec && p[i + 1] == DASH then Range(p[i], p[i + 2])
    else One(p[i])
  }

  function Members(p: seq<byte>, i: nat, ec: nat): seq<Member>
    requires i <= ec + 1 && ec < |p|
    decreases |p| - i
  {
    if i >= ec then [] else [MemberAt(p, i, ec)] + Members(p, i + |Spell(MemberAt(p, i, ec))|, ec)
  }

  lemma SomeHasCons(m: Member, ms: seq<Member>, c: byte)
    ensures SomeHas([m] + ms, c) <==> Has(m, c) || SomeHas(ms, c)
  {
    var all := [m] + ms;
    assert all[0] == m;
    if SomeHas(ms, c) {
      var k :| 0 <= k < |ms| && Has(ms[k], c);
      assert Has(all[k + 1], c);
    }
  }

  // The scan of a set finds a byte if and only if some member has it.
  lemma {:induction false} SetIsMembers(c: byte, p: seq<byte>, i: nat, ec: nat)
    requires i <= ec + 1 && ec < |p|
    ensures SetHas(c, p, i, ec) <==> SomeHas(Members(p, i, ec), c)
    decreases |p| - i
  {
    if i < ec {
      var m := MemberAt(p, i, ec);
      SetIsMembers(c, p, i + |Spell(m)|, ec);
      SomeHasCons(m, Members(p, i + |Spell(m)|, ec), c);
    }
  }

  lemma FirstSpelled(p: seq<byte>, i: nat, ec: nat)
    requires i < ec < |p|
    ensures var j := i + |Spell(MemberAt(p, i, ec))|; i < j <= ec + 1 && Spell(MemberAt(p, i, ec)) == p[i..j]
  {
  }

  lemma SpellAllCons(m: Member, ms: seq<Member>)
    ensures SpellAll([m] + ms) == Spell(m) + SpellAll(ms)
  {
    assert ([m] + ms)[1..] == ms;
  }

  // The members are what is written there; only when the last one begins with an
  // escape that ClassEnd took for part of a range does it use up the `]`.
  lemma {:induction false} MembersSpelled(p: seq<byte>, i: nat, ec: nat)
    requires i <= ec + 1 && ec < |p|
    ensures i <= ec ==> SpellAll(Members(p, i, ec)) == p[i..ec] || SpellAll(Members(p, i, ec)) == p[i..ec + 1]
    ensures i > ec ==> Members(p, i, ec) == []
    decreases |p| - i
  {
    if i < ec {
      var m := MemberAt(p, i, ec);
      var j := i + |Spell(m)|;
      MembersSpelled(p, j, ec);
      var ms := Members(p, i, ec);
      assert ms == [m] + Members(p, j, ec);
      FirstSpelled(p, i, ec);
      hide MemberAt, Members;
      SpellAllCons(m, Members(p, j, ec));
      if j > ec {
        assert p[i..j] + [] == p[i..ec + 1] && SpellAll([]) == [];
      } else {
        assert p[i..j] + p[j..ec] == p[i..ec] && p[i..j] + p[j..ec + 1] == p[i..ec + 1];
      }
    }
  }

  // The member k can be written down without being misread: it is not taken for an
  // escape, the start of a range or the end of the set.
  predicate PlainAt(ms: seq<Member>, k: nat)
    requires k < |ms|
  {
    match ms[k]
    case One(b) =>
      && b !in {0, ESC} && (k > 0 ==> b != ENDSET)
      && (k + 1 < |ms| && Spell(ms[k + 1])[0] == DASH ==> k + 2 == |ms| && ms[k + 1] == One(DASH))
    case Range(lo, hi) => lo !in {0, ESC} && (k > 0 ==> lo != ENDSET) && hi !in {0, ESC, ENDSET}
    case Class(cl) => cl != 0
  }

  predicate Plain(ms: seq<Member>) { forall k :: 0 <= k < |ms| ==> PlainAt(ms, k) }

  lemma PlainRest(ms: seq<Member>)
    requires Plain(ms) && ms != []
    ensures Plain(ms[1..]) && PlainAt(ms, 0)
    ensures |ms| > 1 ==> Spell(ms[1])[0] != ENDSET
  {
    forall k | 0 <= k < |ms[1..]|
      ensures PlainAt(ms[1..], k)
    {
      assert PlainAt(ms, k + 1);
    }
    if |ms| > 1 { assert PlainAt(ms, 1); }
  }

  ghost predicate SpelledAt(p: seq<byte>, i: nat, m: Member) {
    i + |Spell(m)| <= |p| && forall k :: 0 <= k < |Spell(m)| ==> p[i + k] == Spell(m)[k]
  }

  lemma OneAt(p: seq<byte>, i: nat, m: Member)
    requires m.One? && SpelledAt(p, i, m)
    ensures |Spell(m)| == 1 && p[i] == m.b
  {
    assert p[i + 0] == Spell(m)[0];
  }

  lemma ClassAt(p: seq<byte>, i: nat, m: Member)
    requires m.Class? && SpelledAt(p, i, m)
    ensures |Spell(m)| == 2 && p[i] == ESC && p[i + 1] == m.cl
  {
    assert p[i + 0] == Spell(m)[0] && p[i + 1] == Spell(m)[1];
  }

  lemma RangeAt(p: seq<byte>, i: nat, m: Member)
    requires m.Range? && SpelledAt(p, i, m)
    ensures |Spell(m)| == 3 && p[i] == m.lo && p[i + 1] == DASH && p[i + 2] == m.hi
  {
    assert p[i + 0] == Spell(m)[0] && p[i + 1] == Spell(m)[1] && p[i + 2] == Spell(m)[2];
  }

  // The text of a list begins with the text of its first member.
  lemma SpelledFirst(p: seq<byte>, i: nat, ec: nat, ms: seq<Member>)
    requires i <= ec < |p| && p[i..ec] == SpellAll(ms) && ms != []
    ensures var j := i + |Spell(ms[0])|; j <= ec && p[i..j] == Spell(ms[0]) && p[j..ec] == SpellAll(ms[1..])
    ensures SpelledAt(p, i, ms[0])
    ensures var j := i + |Spell(ms[0])|; if |ms| == 1 then j == ec else j < ec && p[j] == Spell(ms[1])[0]
  {
    var m, rest := ms[0], ms[1..];
    var j := i + |Spell(m)|;
    assert p[i..ec][..|Spell(m)|] == Spell(m) && p[i..ec][|Spell(m)|..] == SpellAll(rest);
    assert p[i..j] == p[i..ec][..j - i] && p[j..ec] == p[i..ec][j - i..];
    assert forall k :: 0 <= k < |Spell(m)| ==> p[i + k] == p[i..j][k];
    if rest != [] {
      assert SpellAll(rest)[0] == Spell(rest[0])[0] && rest[0] == ms[1];
      assert p[j] == p[j..ec][0];
    }
  }

  // The members read are those that were written.
  lemma {:induction false} SpelledMembers(p: seq<byte>, i: nat, ec: nat, ms: seq<Member>)
    requires i <= ec < |p| && p[i..ec] == SpellAll(ms) && Plain(ms)
    ensures Members(p, i, ec) == ms
    decreases |ms|
  {
    if ms == [] { return; }
    var j := i + |Spell(ms[0])|;
    PlainRest(ms);
    SpelledFirst(p, i, ec, ms);
    SpelledMembers(p, j, ec, ms[1..]);
    if |ms| == 2 && ms[1] == One(DASH) { SpelledFirst(p, j, ec, ms[1..]); }
    assert MemberAt(p, i, ec) == ms[0];
  }

  // And the set ends where its text does.
  lemma {:induction false} SpelledEnd(p: seq<byte>, i: nat, ec: nat, ms: seq<Member>)
    requires i < ec < |p| && p[i..ec] == SpellAll(ms) && Plain(ms) && p[ec] == ENDSET
    ensures SetEnd(p, i) == Ends(ec + 1)
    decreases |ms|
  {
    var j := i + |Spell(ms[0])|;
    PlainRest(ms);
    SpelledFirst(p, i, ec, ms);
    if |ms| > 1 { SpelledEnd(p, j, ec, ms[1..]); }
    assert p[j] == ENDSET <==> j == ec;
    assert j < ec ==> SetEnd(p, j) == Ends(ec + 1);
    hide Plain, SpellAll;
    MemberEnd(p, i, ec, ms, j);
  }

  // The scan passes over one member.
  lemma MemberEnd(p: seq<byte>, i: nat, ec: nat, ms: seq<Member>, j: nat)
    requires ms != [] && PlainAt(ms, 0) && i < j <= ec < |p| && j == i + |Spell(ms[0])|
    requires SpelledAt(p, i, ms[0])
    requires (p[j] == ENDSET <==> j == ec) && (j < ec ==> SetEnd(p, j) == Ends(ec + 1))
    ensures SetEnd(p, i) == Ends(ec + 1)
  {
    var m := ms[0];
    hide Spell;
    match m
    case One(b) => OneAt(p, i, m);
    case Class(cl) => ClassAt(p, i, m);
    case Range(lo, hi) =>
      RangeAt(p, i, m);
      assert SetEnd(p, i + 2) == Ends(ec + 1);
      assert SetEnd(p, i + 1) == Ends(ec + 1);
  }

  // Where the members of the set at i start.
  function SetStart(p: seq<byte>, i: nat): nat
    requires i + 1 < |p|
  {
    if p[i + 1] == CARET then i + 2 else i + 1
  }

  // A set matches the bytes that some member has, and with ^ all others.
  lemma SetMeaning(c: byte, p: seq<byte>, i: nat, ep: nat)
    requires i < |p| && p[i] == SET && ItemEnd(p, i) == Ends(ep)
    ensures SingleMatch(c, p, i, ep) <==> (SomeHas(Members(p, SetStart(p, i), ep - 1), c) <==> p[i + 1] != CARET)
  {
    SetIsMembers(c, p, SetStart(p, i), ep - 1);
  }

  // The bytes of a set written as a list of members.
  function SetText(ms: seq<Member>, not: bool): seq<byte> {
    [SET] + (if not then [CARET] else []) + SpellAll(ms) + [ENDSET]
  }

  lemma SetTextParts(ms: seq<Member>, not: bool)
    requires ms != [] && (!not ==> Spell(ms[0])[0] != CARET)
    ensures var p := SetText(ms, not); |p| > 2 && p[0] == SET && p[|p| - 1] == ENDSET && (p[1] == CARET <==> not)
    ensures var p := SetText(ms, not); SetStart(p, 0) < |p| - 1 && p[SetStart(p, 0)..|p| - 1] == SpellAll(ms)
  {
    assert SpellAll(ms)[0] == Spell(ms[0])[0];
  }

  // It matches the bytes that some member has, and with ^ all others.
  lemma SpelledSet(ms: seq<Member>, not: bool, c: byte)
    requires ms != [] && Plain(ms) && (!not ==> Spell(ms[0])[0] != CARET)
    ensures var p := SetText(ms, not);
            p != [] && ItemEnd(p, 0) == Ends(|p|) && (SingleMatch(c, p, 0, |p|) <==> (SomeHas(ms, c) <==> !not))
  {
    hide SetText, SpellAll, Spell, Plain, SomeHas, SingleMatch, SetEnd, Members;
    SetTextParts(ms, not);
    var p := SetText(ms, not);
    var i := SetStart(p, 0);
    SpelledEnd(p, i, |p| - 1, ms);
    SpelledMembers(p, i, |p| - 1, ms);
    SetMeaning(c, p, 0, |p|);
  }

  // In particular [lo-hi] matches the bytes from lo to hi.
  lemma RangeMeaning(c: byte, lo: byte, hi: byte)
    requires lo !in {0, ESC, CARET, ENDSET} && hi !in {0, ESC, ENDSET}
    ensures var p := [SET, lo, DASH, hi, ENDSET]; ItemEnd(p, 0) == Ends(5)
                                                  && (SingleMatch(c, p, 0, 5) <==> lo <= c <= hi)
  {
    var ms := [Range(lo, hi)];
    assert SpellAll(ms) == [lo, DASH, hi] + SpellAll([]);
    assert SetText(ms, false) == [SET, lo, DASH, hi, ENDSET];
    SpelledSet(ms, false, c);
    assert ms[0] == Range(lo, hi);
  }

  // -- Repetitions -----------------------------------------------------------

  // The item at i matches single characters: it is no capture, no %b, %f or
  // back reference, and not the anchor at the end.
  predicate Simple(p: seq<byte>, i: nat)
    requires i < |p|
  {
    && p[i] !in {0, OPEN, CLOSE}
    && (p[i] == ESC ==> var c := At(p, i + 1); c !in {LOWER_B, LOWER_F} && !IsDigit(c))
    && (p[i] == DOLLAR ==> At(p, i + 1) != 0)
  }

  // How often an item may be repeated that is followed by q.
  predicate Allowed(q: byte, k: nat) {
    if q == QUERY then k <= 1 else if q == PLUS then k >= 1 else if q in {STAR, DASH} then true else k == 1
  }

  // - prefers fewer repetitions, all others prefer more.
  predicate Sooner(q: byte, k: nat, m: nat) { if q == DASH then k < m else k > m }

  function AfterItem(p: seq<byte>, ep: nat): nat
    requires ep <= |p|
  {
    if At(p, ep) in {QUERY, PLUS, STAR, DASH} then ep + 1 else ep
  }

  ghost predicate Fits(src: seq<byte>, s: nat, p: seq<byte>, i: nat, ep: nat, k: nat)
    requires i < |p| && p[i] != 0 && ItemEnd(p, i) == Ends(ep)
  {
    s + k <= |src| && forall j :: s <= j < s + k ==> SingleMatch(src[j], p, i, ep)
  }

  lemma FitsIs(src: seq<byte>, s: nat, p: seq<byte>, i: nat, ep: nat, k: nat)
    requires s <= |src| && i < |p| && p[i] != 0 && ItemEnd(p, i) == Ends(ep)
    ensures Fits(src, s, p, i, ep, k) <==> k <= Repeats(src, s, p, i, ep)
  {
    if Fits(src, s, p, i, ep, k) { RepeatsIs(src, s, p, i, ep, k); }
    if k <= Repeats(src, s, p, i, ep) { RepeatsFit(src, s, p, i, ep, k); }
  }

  lemma {:induction false} RepeatsFit(src: seq<byte>, s: nat, p: seq<byte>, i: nat, ep: nat, k: nat)
    requires s <= |src| && i < |p| && p[i] != 0 && ItemEnd(p, i) == Ends(ep) && k <= Repeats(src, s, p, i, ep)
    ensures Fits(src, s, p, i, ep, k)
    decreases k
  {
    hide SingleMatch;
    if k > 0 { RepeatsFit(src, s + 1, p, i, ep, k - 1); }
  }

  // How deep the rest is nested after k repetitions in a call at depth d.
  function ItemDepth(q: byte, d: nat, k: nat): nat {
    if q in {QUERY, PLUS, STAR, DASH} then Inner(q == QUERY, d, k) else d
  }

  // After k repetitions, there is no parse of the rest.
  ghost predicate RestFails(src: seq<byte>, p: seq<byte>, ep: nat, s: nat, caps: seq<Cap>, d: nat, k: nat)
    requires ep <= |p|
  {
    AfterItem(p, ep) <= |p| && s + k <= |src| && CapsOk(caps, s + k)
    && NoParse(src, p, AfterItem(p, ep), s + k, caps, ItemDepth(At(p, ep), d, k))
  }

  // The item is repeated k times, the rest has the outcome res, and no count that
  // comes sooner leads to any parse.
  ghost predicate Repeated(src: seq<byte>, p: seq<byte>, i: nat, ep: nat, s: nat, caps: seq<Cap>, d: nat, k: nat,
                           res: Res, caps': seq<Cap>)
    requires i < |p| && p[i] != 0 && ItemEnd(p, i) == Ends(ep)
  {
    && Allowed(At(p, ep), k) && Fits(src, s, p, i, ep, k) && AfterItem(p, ep) <= |p| && CapsOk(caps, s + k)
    && Outcome(src, p, AfterItem(p, ep), s + k, caps, ItemDepth(At(p, ep), d, k), res, caps')
    && forall m: nat :: Allowed(At(p, ep), m) && Fits(src, s, p, i, ep, m) && Sooner(At(p, ep), m, k)
                 ==> RestFails(src, p, ep, s, caps, d, m)
  }

  lemma ChosenCount(src: seq<byte>, p: seq<byte>, i: nat, s: nat, caps: seq<Cap>, d: nat, ch: seq<nat>)
    requires i <= |p| && s <= |src| && CapsOk(caps, s) && StepAt(src, p, i, s, caps, d).Choose?
    requires First(src, p, i, s, caps, d, ch)
    ensures var c := StepAt(src, p, i, s, caps, d);
            && ch != [] && c.lo <= ch[0] <= c.hi && CapsOk(caps, s + ch[0])
            && First(src, p, c.i, s + ch[0], caps, Inner(c.opt, d, ch[0]), ch[1..])
            && Parse(src, p, i, s, caps, d, ch)
               == Parse(src, p, c.i, s + ch[0], caps, Inner(c.opt, d, ch[0]), ch[1..])
            && forall m :: c.lo <= m <= c.hi && Prefers(c.lazy, m, ch[0])
                           ==> CountFails(src, p, c.i, s, caps, d, c.opt, m)
  {
    hide StepAt, CapsOk, Inner;
    var c := StepAt(src, p, i, s, caps, d);
    var k, rest := ch[0], ch[1..];
    var t, d' := s + k, Inner(c.opt, d, k);
    CapsLater(caps, s, t);
    forall ch' | ch' != rest && Parse(src, p, c.i, t, caps, d', ch') != NoMatch
      ensures Better(src, p, c.i, t, caps, d', rest, ch')
    {
      assert ([k] + ch')[1..] == ch' && ch == [k] + rest;
      assert Parse(src, p, i, s, caps, d, [k] + ch') != NoMatch;
      assert Better(src, p, i, s, caps, d, ch, [k] + ch');
    }
    forall m | c.lo <= m <= c.hi && Prefers(c.lazy, m, k)
      ensures CountFails(src, p, c.i, s, caps, d, c.opt, m)
    {
      SoonerFails(src, p, i, s, caps, d, ch, m);
    }
  }

  lemma SoonerFails(src: seq<byte>, p: seq<byte>, i: nat, s: nat, caps: seq<Cap>, d: nat, ch: seq<nat>, m: nat)
    requires i <= |p| && s <= |src| && CapsOk(caps, s) && StepAt(src, p, i, s, caps, d).Choose?
    requires First(src, p, i, s, caps, d, ch) && ch != []
    requires var c := StepAt(src, p, i, s, caps, d); c.lo <= m <= c.hi && Prefers(c.lazy, m, ch[0])
    ensures var c := StepAt(src, p, i, s, caps, d); CountFails(src, p, c.i, s, caps, d, c.opt, m)
  {
    hide StepAt, CapsOk, Inner;
    var c, t := StepAt(src, p, i, s, caps, d), s + m;
    var d' := Inner(c.opt, d, m);
    CapsLater(caps, s, t);
    forall ch'
      ensures Parse(src, p, c.i, t, caps, d', ch') == NoMatch
    {
      var other := [m] + ch';
      assert other[1..] == ch' && other != ch;
      assert !Better(src, p, i, s, caps, d, ch, other);
      assert Parse(src, p, i, s, caps, d, other) == NoMatch;
    }
  }

  lemma NothingChosen(src: seq<byte>, p: seq<byte>, i: nat, s: nat, caps: seq<Cap>, d: nat, k: nat)
    requires i <= |p| && s <= |src| && CapsOk(caps, s) && NoParse(src, p, i, s, caps, d)
    requires var c := StepAt(src, p, i, s, caps, d); c.Choose? && c.lo <= k <= c.hi
    ensures var c := StepAt(src, p, i, s, caps, d); CountFails(src, p, c.i, s, caps, d, c.opt, k)
  {
    hide StepAt, CapsOk, Inner;
    var c, t := StepAt(src, p, i, s, caps, d), s + k;
    var d' := Inner(c.opt, d, k);
    CapsLater(caps, s, t);
    forall ch
      ensures Parse(src, p, c.i, t, caps, d', ch) == NoMatch
    {
      assert ([k] + ch)[1..] == ch;
      assert Parse(src, p, i, s, caps, d, [k] + ch) == NoMatch;
    }
  }

  // The step at a quantified item offers the counts that are allowed and fit.
  ghost predicate Offers(src: seq<byte>, p: seq<byte>, i: nat, ep: nat, s: nat, caps: seq<Cap>, d: nat)
    requires i < |p| && p[i] != 0 && ItemEnd(p, i) == Ends(ep) && s <= |src| && CapsOk(caps, s)
  {
    var c, q := StepAt(src, p, i, s, caps, d), At(p, ep);
    && q in {QUERY, STAR, PLUS, DASH} && ep < |p| && c.Choose? && c.i == AfterItem(p, ep)
    && c.lazy == (q == DASH) && c.opt == (q == QUERY)
    && forall k: nat :: c.lo <= k <= c.hi <==> Allowed(q, k) && Fits(src, s, p, i, ep, k)
  }

  lemma SimpleStep(src: seq<byte>, p: seq<byte>, i: nat, s: nat, caps: seq<Cap>, d: nat)
    requires i < |p| && Simple(p, i) && s <= |src| && CapsOk(caps, s) && d <= MAX_XLEVEL
    ensures StepAt(src, p, i, s, caps, d) == ItemStep(src, p, i, s, caps, d)
  {
    hide ItemStep;
  }

  lemma OffersIs(src: seq<byte>, p: seq<byte>, i: nat, ep: nat, s: nat, caps: seq<Cap>, d: nat)
    requires i < |p| && Simple(p, i) && ItemEnd(p, i) == Ends(ep) && s <= |src| && CapsOk(caps, s) && d <= MAX_XLEVEL
    requires At(p, ep) in {QUERY, STAR, PLUS, DASH}
    ensures Offers(src, p, i, ep, s, caps, d)
  {
    hide Fits, CapsOk, SingleMatch;
    SimpleStep(src, p, i, s, caps, d);
    hide StepAt;
    forall k: nat
      ensures Fits(src, s, p, i, ep, k) <==> k <= Repeats(src, s, p, i, ep)
    {
      FitsIs(src, s, p, i, ep, k);
    }
  }

  lemma NoRepetition(src: seq<byte>, p: seq<byte>, i: nat, ep: nat, s: nat, caps: seq<Cap>, d: nat)
    requires i < |p| && p[i] != 0 && ItemEnd(p, i) == Ends(ep) && s <= |src| && CapsOk(caps, s)
    requires Offers(src, p, i, ep, s, caps, d) && NoParse(src, p, i, s, caps, d)
    ensures forall k: nat :: Allowed(At(p, ep), k) && Fits(src, s, p, i, ep, k)
                        ==> RestFails(src, p, ep, s, caps, d, k)
  {
    hide Fits, Allowed, CapsOk, NoParse, StepAt;
    forall k: nat | Allowed(At(p, ep), k) && Fits(src, s, p, i, ep, k)
      ensures RestFails(src, p, ep, s, caps, d, k)
    {
      NothingChosen(src, p, i, s, caps, d, k);
    }
  }

  lemma SomeRepetition(src: seq<byte>, p: seq<byte>, i: nat, ep: nat, s: nat, caps: seq<Cap>, d: nat, res: Res,
                       caps': seq<Cap>)
    requires i < |p| && p[i] != 0 && ItemEnd(p, i) == Ends(ep) && s <= |src| && CapsOk(caps, s)
    requires Offers(src, p, i, ep, s, caps, d) && !res.Null? && Outcome(src, p, i, s, caps, d, res, caps')
    ensures exists k: nat :: Repeated(src, p, i, ep, s, caps, d, k, res, caps')
  {
    hide Fits, Allowed, CapsOk, First, Parse, StepAt, NoParse;
    var out := if res.End? then Out.Match(res.e, caps') else Fail(res.err);
    var ch :| Best(src, p, i, s, caps, d, ch, out);
    ChosenCount(src, p, i, s, caps, d, ch);
    var c := StepAt(src, p, i, s, caps, d);
    var k := ch[0];
    assert Best(src, p, c.i, s + k, caps, Inner(c.opt, d, k), ch[1..], out);
    assert Outcome(src, p, c.i, s + k, caps, Inner(c.opt, d, k), res, caps');
    forall m: nat | Allowed(At(p, ep), m) && Fits(src, s, p, i, ep, m) && Sooner(At(p, ep), m, k)
      ensures RestFails(src, p, ep, s, caps, d, m)
    {
      assert CountFails(src, p, c.i, s, caps, d, c.opt, m);
    }
    assert Repeated(src, p, i, ep, s, caps, d, k, res, caps');
  }

  lemma FitsOne(src: seq<byte>, s: nat, p: seq<byte>, i: nat, ep: nat)
    requires i < |p| && p[i] != 0 && ItemEnd(p, i) == Ends(ep) && s <= |src|
    ensures Fits(src, s, p, i, ep, 1) <==> Repeats(src, s, p, i, ep) > 0
  {
    FitsIs(src, s, p, i, ep, 1);
  }

  lemma OnceOnly(src: seq<byte>, p: seq<byte>, i: nat, ep: nat, s: nat, caps: seq<Cap>, d: nat, res: Res,
                 caps': seq<Cap>)
    requires i < |p| && Simple(p, i) && ItemEnd(p, i) == Ends(ep) && s <= |src| && CapsOk(caps, s) && d <= MAX_XLEVEL
    requires At(p, ep) !in {QUERY, STAR, PLUS, DASH} && Outcome(src, p, i, s, caps, d, res, caps')
    ensures res.Null? && Fits(src, s, p, i, ep, 1) ==> RestFails(src, p, ep, s, caps, d, 1)
    ensures !res.Null? ==> Repeated(src, p, i, ep, s, caps, d, 1, res, caps')
  {
    SimpleStep(src, p, i, s, caps, d);
    FitsOne(src, s, p, i, ep);
    assert StepAt(src, p, i, s, caps, d)
           == if Fits(src, s, p, i, ep, 1) then Next(ep, s + 1, caps, d) else Stop(NoMatch) by {
      hide StepAt, Fits, Repeats;
    }
    hide Fits, CapsOk, First, Parse, StepAt, NoParse;
    if Fits(src, s, p, i, ep, 1) {
      CapsLater(caps, s, s + 1);
      NextOutcome(src, p, i, s, caps, d, res, caps');
    } else {
      StopFirst(src, p, i, s, caps, d);
      NoOutcome(src, p, i, s, caps, d, res, caps');
    }
  }

  lemma NoOutcome(src: seq<byte>, p: seq<byte>, i: nat, s: nat, caps: seq<Cap>, d: nat, res: Res, caps': seq<Cap>)
    requires i <= |p| && s <= |src| && CapsOk(caps, s) && NoParse(src, p, i, s, caps, d)
    requires Outcome(src, p, i, s, caps, d, res, caps')
    ensures res.Null?
  {
    hide StepAt, CapsOk, Better;
  }

  // The outcome of a step that can only go on is the outcome of where it goes.
  lemma NextOutcome(src: seq<byte>, p: seq<byte>, i: nat, s: nat, caps: seq<Cap>, d: nat, res: Res, caps': seq<Cap>)
    requires i <= |p| && s <= |src| && CapsOk(caps, s) && StepAt(src, p, i, s, caps, d).Next?
    requires Outcome(src, p, i, s, caps, d, res, caps')
    ensures var n := StepAt(src, p, i, s, caps, d); Outcome(src, p, n.i, n.s, n.caps, n.d, res, caps')
  {
    var n := StepAt(src, p, i, s, caps, d);
    NextFirst(src, p, i, s, caps, d, []);
    hide CapsOk, First, Parse, StepAt, NoParse;
    if !res.Null? {
      var out := if res.End? then Out.Match(res.e, caps') else Fail(res.err);
      var ch :| Best(src, p, i, s, caps, d, ch, out);
      NextFirst(src, p, i, s, caps, d, ch);
      assert Best(src, p, n.i, n.s, n.caps, n.d, ch, out);
    }
  }

  // What ? * + and - mean: a repeated item matches with the first count in its
  // order of preference after which the rest matches, and does not match only if
  // the rest matches after no count.
  lemma RepetitionMeaning(src: seq<byte>, p: seq<byte>, i: nat, ep: nat, s: nat, caps: seq<Cap>, d: nat, res: Res,
                          caps': seq<Cap>)
    requires i < |p| && Simple(p, i) && ItemEnd(p, i) == Ends(ep) && s <= |src| && CapsOk(caps, s) && d <= MAX_XLEVEL
    requires Outcome(src, p, i, s, caps, d, res, caps')
    ensures res.Null? ==> forall k: nat :: Allowed(At(p, ep), k) && Fits(src, s, p, i, ep, k)
                            ==> RestFails(src, p, ep, s, caps, d, k)
    ensures !res.Null? ==> exists k: nat :: Repeated(src, p, i, ep, s, caps, d, k, res, caps')
  {
    if At(p, ep) in {QUERY, STAR, PLUS, DASH} {
      OffersIs(src, p, i, ep, s, caps, d);
      hide Fits, CapsOk, First, Parse, StepAt, RestFails, NoParse, Offers, Repeated;
      if res.Null? { NoRepetition(src, p, i, ep, s, caps, d); }
      else { SomeRepetition(src, p, i, ep, s, caps, d, res, caps'); }
    } else {
      hide Fits, CapsOk, First, Parse, StepAt, RestFails, NoParse;
      OnceOnly(src, p, i, ep, s, caps, d, res, caps');
    }
  }

  // -- Captures --------------------------------------------------------------

  // What follows the `)` at j sees a capture that starts at s and is k bytes long.
  ghost predicate CapturedThen(src: seq<byte>, p: seq<byte>, j: nat, s: nat, caps: seq<Cap>, d: nat, k: nat, res: Res,
                               caps': seq<Cap>)
  {
    && j < |p| && s + k <= |src| && CapsOk(caps + [Cap(s, k)], s + k)
    && Outcome(src, p, j + 1, s + k, caps + [Cap(s, k)], d, res, caps')
  }

  lemma OpenStepIs(src: seq<byte>, p: seq<byte>, i: nat, s: nat, caps: seq<Cap>, d: nat)
    requires i + 1 < |p| && p[i] == OPEN && p[i + 1] != CLOSE && s <= |src| && CapsOk(caps, s)
    requires |caps| < MAXCAPTURES && d <= MAX_XLEVEL
    ensures StepAt(src, p, i, s, caps, d) == Next(i + 1, s, caps + [Cap(s, UNFINISHED)], d + 1)
    ensures CapsOk(caps + [Cap(s, UNFINISHED)], s)
  {
  }

  lemma CloseStepIs(src: seq<byte>, p: seq<byte>, j: nat, s: nat, k: nat, caps: seq<Cap>, d: nat)
    requires j < |p| && p[j] == CLOSE && s + k <= |src| && CapsOk(caps + [Cap(s, UNFINISHED)], s + k)
    requires d <= MAX_XLEVEL
    ensures var open := caps + [Cap(s, UNFINISHED)]; ToClose(open) == |caps|
    ensures StepAt(src, p, j, s + k, caps + [Cap(s, UNFINISHED)], d) == Next(j + 1, s + k, caps + [Cap(s, k)], d + 1)
  {
    var open := caps + [Cap(s, UNFINISHED)];
    assert open[|caps|].len == UNFINISHED;
    assert open[|caps| := Cap(s, k)] == caps + [Cap(s, k)];
  }

  // A capture around a repeated item holds exactly the bytes that the item matches.
  lemma CaptureMeaning(src: seq<byte>, p: seq<byte>, i: nat, ep: nat, s: nat, caps: seq<Cap>, d: nat, res: Res,
                       caps': seq<Cap>)
    returns (k: nat)
    requires i + 1 < |p| && p[i] == OPEN && Simple(p, i + 1) && ItemEnd(p, i + 1) == Ends(ep)
    requires At(p, AfterItem(p, ep)) == CLOSE && s <= |src| && CapsOk(caps, s) && |caps| < MAXCAPTURES
             && d + 3 <= MAX_XLEVEL
    requires Outcome(src, p, i, s, caps, d, res, caps') && !res.Null?
    ensures Allowed(At(p, ep), k) && Fits(src, s, p, i + 1, ep, k)
    ensures CapturedThen(src, p, AfterItem(p, ep), s, caps, ItemDepth(At(p, ep), d + 1, k) + 1, k, res, caps')
  {
    var open, j := caps + [Cap(s, UNFINISHED)], AfterItem(p, ep);
    OpenStepIs(src, p, i, s, caps, d);
    hide StepAt, First, Parse, NoParse, CapsOk, Fits, RestFails;
    NextOutcome(src, p, i, s, caps, d, res, caps');
    RepetitionMeaning(src, p, i + 1, ep, s, open, d + 1, res, caps');
    k :| Repeated(src, p, i + 1, ep, s, open, d + 1, k, res, caps');
    var d' := ItemDepth(At(p, ep), d + 1, k);
    FitsWithin(src, s, p, i + 1, ep, k);
    CloseStepIs(src, p, j, s, k, caps, d');
    NextOutcome(src, p, j, s + k, open, d', res, caps');
    ClosedOk(caps, s, k);
  }

  lemma FitsWithin(src: seq<byte>, s: nat, p: seq<byte>, i: nat, ep: nat, k: nat)
    requires i < |p| && p[i] != 0 && ItemEnd(p, i) == Ends(ep) && Fits(src, s, p, i, ep, k)
    ensures s + k <= |src|
  {
  }

  lemma ClosedOk(caps: seq<Cap>, s: nat, k: nat)
    requires CapsOk(caps + [Cap(s, UNFINISHED)], s + k)
    ensures CapsOk(caps + [Cap(s, k)], s + k)
  {
    var open := caps + [Cap(s, UNFINISHED)];
    forall l | 0 <= l < |open|
      ensures CapOk((caps + [Cap(s, k)])[l], s + k)
    {
      assert CapOk(open[l], s + k);
    }
  }
}
