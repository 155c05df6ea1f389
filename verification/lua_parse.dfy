// The parses of a subject under a pattern: one choice of a repetition count for
// each quantified item, ordered by the preferences of the quantifiers.
module LuaParse {
  import opened LuaPattern

  // A capture: its start and its length, or UNFINISHED or POSITION.
  datatype Cap = Cap(init: nat, len: int)

  predicate CapOk(c: Cap, s: nat) {
    c.init <= s && (c.len == UNFINISHED || c.len == POSITION || (0 <= c.len && c.init + c.len <= s))
  }

  predicate CapsOk(caps: seq<Cap>, s: nat) {
    |caps| <= MAXCAPTURES && forall l :: 0 <= l < |caps| ==> CapOk(caps[l], s)
  }

  datatype Out = NoMatch | Match(e: nat, caps: seq<Cap>) | Fail(err: Error)

  // What the item at i asks for: the end, one way to go on, or a choice of a
  // count between lo and hi, the larger (or with lazy the smaller) first.  Captures
  // and repetitions call the matcher anew, one level deeper; only a skipped
  // optional item does not.
  datatype Step =
    | Stop(out: Out)
    | Next(i: nat, s: nat, caps: seq<Cap>, d: nat)
    | Choose(lazy: bool, opt: bool, i: nat, lo: nat, hi: nat)

  function Inner(opt: bool, d: nat, k: nat): nat { if opt && k == 0 then d else d + 1 }

  // The innermost capture that is still open, or -1.
  function ToClose(caps: seq<Cap>): (l: int)
    ensures -1 <= l < |caps|
    ensures l >= 0 ==> caps[l].len == UNFINISHED
    ensures forall k :: l < k < |caps| ==> caps[k].len != UNFINISHED
  {
    if |caps| == 0 then -1
    else if caps[|caps| - 1].len == UNFINISHED then |caps| - 1
    else ToClose(caps[..|caps| - 1])
  }

  function OpenStep(p: seq<byte>, i: nat, s: nat, caps: seq<Cap>, d: nat): Step
    requires i < |p|
  {
    if |caps| >= MAXCAPTURES then Stop(Fail(CapN))
    else if At(p, i + 1) == CLOSE then Next(i + 2, s, caps + [Cap(s, POSITION)], d + 1)
    else Next(i + 1, s, caps + [Cap(s, UNFINISHED)], d + 1)
  }

  function CloseStep(i: nat, s: nat, caps: seq<Cap>, d: nat): Step {
    var l := ToClose(caps);
    if l < 0 then Stop(Fail(PatC)) else Next(i + 1, s, caps[l := Cap(caps[l].init, s - caps[l].init)], d + 1)
  }

  function BalanceStep(src: seq<byte>, p: seq<byte>, i: nat, s: nat, caps: seq<Cap>, d: nat): Step
    requires i + 2 <= |p| && s <= |src|
  {
    if At(p, i + 2) == 0 || At(p, i + 3) == 0 then Stop(Fail(PatU))
    else if At(src, s) != p[i + 2] then Stop(NoMatch)
    else
      var e := Balance(src, s, s, p[i + 2], p[i + 3]);
      if e < 0 then Stop(NoMatch) else Next(i + 4, e, caps, d)
  }

  function Previous(src: seq<byte>, s: nat): byte
    requires s <= |src|
  {
    if s == 0 then 0 else src[s - 1]
  }

  function FrontierStep(src: seq<byte>, p: seq<byte>, i: nat, s: nat, caps: seq<Cap>, d: nat): Step
    requires i + 2 <= |p| && s <= |src|
  {
    if At(p, i + 2) != SET then Stop(Fail(PatB))
    else match ItemEnd(p, i + 2)
      case Bad(err) => Stop(Fail(err))
      case Ends(ep) =>
        if InSet(Previous(src, s), p, i + 2, ep - 1) || !InSet(At(src, s), p, i + 2, ep - 1) then Stop(NoMatch)
        else Next(ep, s, caps, d)
  }

  // The text of the capture follows once more; that of a position never does.
  predicate Follows(src: seq<byte>, s: nat, c: Cap) {
    s <= |src| && 0 <= c.len && s + c.len <= |src| && c.init <= s && src[c.init..c.init + c.len] == src[s..s + c.len]
  }

  function BackStep(src: seq<byte>, p: seq<byte>, i: nat, s: nat, caps: seq<Cap>, d: nat): Step
    requires i + 2 <= |p| && s <= |src|
  {
    var l := p[i + 1] - DIGIT_0 - 1;
    if l < 0 || l >= |caps| || caps[l].len == UNFINISHED then Stop(Fail(CapI))
    else if Follows(src, s, caps[l]) then Next(i + 2, s + caps[l].len, caps, d)
    else Stop(NoMatch)
  }

  function ItemStep(src: seq<byte>, p: seq<byte>, i: nat, s: nat, caps: seq<Cap>, d: nat): Step
    requires i < |p| && p[i] != 0 && s <= |src|
  {
    match ItemEnd(p, i)
    case Bad(err) => Stop(Fail(err))
    case Ends(ep) =>
      var n := Repeats(src, s, p, i, ep);
      var q := At(p, ep);
      if q == QUERY then Choose(false, true, ep + 1, 0, if n > 0 then 1 else 0)
      else if q == STAR then Choose(false, false, ep + 1, 0, n)
      else if q == PLUS then Choose(false, false, ep + 1, 1, n)
      else if q == DASH then Choose(true, false, ep + 1, 0, n)
      else if n > 0 then Next(ep, s + 1, caps, d)
      else Stop(NoMatch)
  }

  function StepAt(src: seq<byte>, p: seq<byte>, i: nat, s: nat, caps: seq<Cap>, d: nat): (r: Step)
    requires i <= |p| && s <= |src| && CapsOk(caps, s)
    ensures r.Next? ==> i < r.i <= |p| && s <= r.s <= |src| && CapsOk(r.caps, r.s)
    ensures r.Choose? ==> i < r.i <= |p| && s + r.hi <= |src|
    ensures r.Stop? && r.out.Match? ==> r.out == Match(s, caps)
  {
    var c := At(p, i);
    if d > MAX_XLEVEL then Stop(Fail(PatX))
    else if c == 0 then Stop(Match(s, caps))
    else if c == OPEN then OpenStep(p, i, s, caps, d)
    else if c == CLOSE then CloseStep(i, s, caps, d)
    else if c == ESC && At(p, i + 1) == LOWER_B then BalanceStep(src, p, i, s, caps, d)
    else if c == ESC && At(p, i + 1) == LOWER_F then FrontierStep(src, p, i, s, caps, d)
    else if c == ESC && IsDigit(At(p, i + 1)) then BackStep(src, p, i, s, caps, d)
    else if c == DOLLAR && At(p, i + 1) == 0 then Stop(if s == |src| then Match(s, caps) else NoMatch)
    else ItemStep(src, p, i, s, caps, d)
  }

  // The outcome of one vector of choices, all of which must be used.
  function Parse(src: seq<byte>, p: seq<byte>, i: nat, s: nat, caps: seq<Cap>, d: nat, ch: seq<nat>): (r: Out)
    requires i <= |p| && s <= |src| && CapsOk(caps, s)
    decreases |p| - i
  {
    match StepAt(src, p, i, s, caps, d)
    case Stop(out) => if ch == [] then out else NoMatch
    case Next(i', s', caps', d') => Parse(src, p, i', s', caps', d', ch)
    case Choose(_, opt, i', lo, hi) =>
      if ch != [] && lo <= ch[0] <= hi then Parse(src, p, i', s + ch[0], caps, Inner(opt, d, ch[0]), ch[1..])
        else NoMatch
  }

  // The first difference between the vectors is decided by the preference of
  // the quantifier there.
  predicate Better(src: seq<byte>, p: seq<byte>, i: nat, s: nat, caps: seq<Cap>, d: nat, ch: seq<nat>, ch': seq<nat>)
    requires i <= |p| && s <= |src| && CapsOk(caps, s)
    decreases |p| - i
  {
    match StepAt(src, p, i, s, caps, d)
    case Stop(_) => false
    case Next(i', s', caps', d') => Better(src, p, i', s', caps', d', ch, ch')
    case Choose(lazy, opt, i', lo, hi) =>
      && ch != [] && ch' != []
      && if ch[0] == ch'[0] then lo <= ch[0] <= hi
                                 && Better(src, p, i', s + ch[0], caps, Inner(opt, d, ch[0]), ch[1..], ch'[1..])
         else Prefers(lazy, ch[0], ch'[0])
  }

  predicate Prefers(lazy: bool, j: nat, k: nat) { if lazy then j < k else j > k }

  ghost predicate NoParse(src: seq<byte>, p: seq<byte>, i: nat, s: nat, caps: seq<Cap>, d: nat)
    requires i <= |p| && s <= |src| && CapsOk(caps, s)
  {
    forall ch :: Parse(src, p, i, s, caps, d, ch) == NoMatch
  }

  // The best of all vectors that give a match or an error.
  ghost predicate First(src: seq<byte>, p: seq<byte>, i: nat, s: nat, caps: seq<Cap>, d: nat, ch: seq<nat>)
    requires i <= |p| && s <= |src| && CapsOk(caps, s)
  {
    && Parse(src, p, i, s, caps, d, ch) != NoMatch
    && forall ch' :: ch' != ch && Parse(src, p, i, s, caps, d, ch') != NoMatch
                     ==> Better(src, p, i, s, caps, d, ch, ch')
  }

  lemma NotPatX(p: seq<byte>, i: nat)
    requires i < |p| && p[i] != 0
    ensures ItemEnd(p, i) != Bad(PatX)
  {
    if p[i] == SET { SetNotPatX(p, if At(p, i + 1) == CARET then i + 2 else i + 1); }
  }

  lemma SetNotPatX(p: seq<byte>, i: nat)
    requires i <= |p|
    ensures SetEnd(p, i) != Bad(PatX)
    decreases |p| - i
  {
  }

  lemma OnlyTooDeep(src: seq<byte>, p: seq<byte>, i: nat, s: nat, caps: seq<Cap>, d: nat)
    requires i <= |p| && s <= |src| && CapsOk(caps, s) && d <= MAX_XLEVEL
    ensures StepAt(src, p, i, s, caps, d) != Stop(Fail(PatX))
    ensures StepAt(src, p, i, s, caps, d).Next? ==> StepAt(src, p, i, s, caps, d).d <= d + 1
  {
    if i < |p| && p[i] != 0 { NotPatX(p, i); }
    if i + 2 < |p| && p[i + 2] == SET { NotPatX(p, i + 2); }
    hide ItemEnd, Balance, InSet, Follows;
  }

  // A pattern is too complex only if it is long: every level takes a byte of it.
  lemma {:induction false} TooComplex(src: seq<byte>, p: seq<byte>, i: nat, s: nat, caps: seq<Cap>, d: nat,
                                      ch: seq<nat>)
    requires i <= |p| && s <= |src| && CapsOk(caps, s) && Parse(src, p, i, s, caps, d, ch) == Fail(PatX)
    ensures d + |p| - i > MAX_XLEVEL
    decreases |p| - i
  {
    if d <= MAX_XLEVEL {
      OnlyTooDeep(src, p, i, s, caps, d);
      match StepAt(src, p, i, s, caps, d)
      case Stop(out) =>
      case Next(i', s', caps', d') => TooComplex(src, p, i', s', caps', d', ch);
      case Choose(_, opt, i', lo, hi) =>
        CapsLater(caps, s, s + ch[0]);
        TooComplex(src, p, i', s + ch[0], caps, Inner(opt, d, ch[0]), ch[1..]);
    }
  }

  // A match lies within the subject and starts where it was asked to.
  lemma {:induction false} MatchWithin(src: seq<byte>, p: seq<byte>, i: nat, s: nat, caps: seq<Cap>, d: nat,
                                       ch: seq<nat>)
    requires i <= |p| && s <= |src| && CapsOk(caps, s)
    ensures var r := Parse(src, p, i, s, caps, d, ch); r.Match? ==> s <= r.e <= |src| && CapsOk(r.caps, r.e)
    decreases |p| - i
  {
    match StepAt(src, p, i, s, caps, d)
    case Stop(out) =>
    case Next(i', s', caps', d') => MatchWithin(src, p, i', s', caps', d', ch);
    case Choose(_, opt, i', lo, hi) =>
      if ch != [] && lo <= ch[0] <= hi {
        assert CapsOk(caps, s + ch[0]);
        MatchWithin(src, p, i', s + ch[0], caps, Inner(opt, d, ch[0]), ch[1..]);
      }
  }

  // -- How First and NoParse follow the steps --------------------------------

  lemma StopFirst(src: seq<byte>, p: seq<byte>, i: nat, s: nat, caps: seq<Cap>, d: nat)
    requires i <= |p| && s <= |src| && CapsOk(caps, s) && StepAt(src, p, i, s, caps, d).Stop?
    ensures var out := StepAt(src, p, i, s, caps, d).out;
            if out == NoMatch then NoParse(src, p, i, s, caps, d)
            else First(src, p, i, s, caps, d, []) && Parse(src, p, i, s, caps, d, []) == out
  {
  }

  lemma NextFirst(src: seq<byte>, p: seq<byte>, i: nat, s: nat, caps: seq<Cap>, d: nat, ch: seq<nat>)
    requires i <= |p| && s <= |src| && CapsOk(caps, s) && StepAt(src, p, i, s, caps, d).Next?
    ensures var n := StepAt(src, p, i, s, caps, d);
            && Parse(src, p, i, s, caps, d, ch) == Parse(src, p, n.i, n.s, n.caps, n.d, ch)
            && (NoParse(src, p, i, s, caps, d) <==> NoParse(src, p, n.i, n.s, n.caps, n.d))
            && (First(src, p, i, s, caps, d, ch) <==> First(src, p, n.i, n.s, n.caps, n.d, ch))
  {
    var n := StepAt(src, p, i, s, caps, d);
    forall ch'
      ensures Parse(src, p, i, s, caps, d, ch') == Parse(src, p, n.i, n.s, n.caps, n.d, ch')
      ensures Better(src, p, i, s, caps, d, ch, ch') == Better(src, p, n.i, n.s, n.caps, n.d, ch, ch')
    {
    }
    if NoParse(src, p, i, s, caps, d) {
      forall ch'
        ensures Parse(src, p, n.i, n.s, n.caps, n.d, ch') == NoMatch
      {
        assert Parse(src, p, i, s, caps, d, ch') == NoMatch;
      }
    }
    if First(src, p, i, s, caps, d, ch) {
      forall ch' | ch' != ch && Parse(src, p, n.i, n.s, n.caps, n.d, ch') != NoMatch
        ensures Better(src, p, n.i, n.s, n.caps, n.d, ch, ch')
      {
        assert Parse(src, p, i, s, caps, d, ch') != NoMatch;
      }
    }
  }

  lemma CapsLater(caps: seq<Cap>, s: nat, s': nat)
    requires CapsOk(caps, s) && s <= s'
    ensures CapsOk(caps, s')
  {
  }

  // With count k there is no parse.
  ghost predicate CountFails(src: seq<byte>, p: seq<byte>, i: nat, s: nat, caps: seq<Cap>, d: nat, opt: bool, k: nat) {
    i <= |p| && s + k <= |src| && CapsOk(caps, s + k) && NoParse(src, p, i, s + k, caps, Inner(opt, d, k))
  }

  // No count is possible.
  lemma ChooseNone(src: seq<byte>, p: seq<byte>, i: nat, s: nat, caps: seq<Cap>, d: nat)
    requires i <= |p| && s <= |src| && CapsOk(caps, s) && StepAt(src, p, i, s, caps, d).Choose?
    requires var c := StepAt(src, p, i, s, caps, d);
             forall k :: c.lo <= k <= c.hi ==> CountFails(src, p, c.i, s, caps, d, c.opt, k)
    ensures NoParse(src, p, i, s, caps, d)
  {
    var c := StepAt(src, p, i, s, caps, d);
    forall ch
      ensures Parse(src, p, i, s, caps, d, ch) == NoMatch
    {
      if ch != [] && c.lo <= ch[0] <= c.hi {
        assert CountFails(src, p, c.i, s, caps, d, c.opt, ch[0]);
        assert Parse(src, p, c.i, s + ch[0], caps, Inner(c.opt, d, ch[0]), ch[1..]) == NoMatch;
      }
    }
  }

  // The count k gives the best parse if no preferred count gives any.
  lemma ChooseFirst(src: seq<byte>, p: seq<byte>, i: nat, s: nat, caps: seq<Cap>, d: nat, k: nat, ch: seq<nat>)
    requires i <= |p| && s <= |src| && CapsOk(caps, s) && StepAt(src, p, i, s, caps, d).Choose?
    requires var c := StepAt(src, p, i, s, caps, d);
             && c.lo <= k <= c.hi && CapsOk(caps, s + k) && First(src, p, c.i, s + k, caps, Inner(c.opt, d, k), ch)
             && forall j :: c.lo <= j <= c.hi && Prefers(c.lazy, j, k) ==> CountFails(src, p, c.i, s, caps, d, c.opt, j)
    ensures First(src, p, i, s, caps, d, [k] + ch)
    ensures var c := StepAt(src, p, i, s, caps, d);
            Parse(src, p, i, s, caps, d, [k] + ch) == Parse(src, p, c.i, s + k, caps, Inner(c.opt, d, k), ch)
  {
    hide StepAt, CapsOk;
    var c := StepAt(src, p, i, s, caps, d);
    assert ([k] + ch)[1..] == ch;
    forall ch' | ch' != [k] + ch && Parse(src, p, i, s, caps, d, ch') != NoMatch
      ensures Better(src, p, i, s, caps, d, [k] + ch, ch')
    {
      var j, rest := ch'[0], ch'[1..];
      CapsLater(caps, s, s + j);
      assert ch' == [j] + rest;
      assert Parse(src, p, c.i, s + j, caps, Inner(c.opt, d, j), rest) != NoMatch;
      if j == k {
        assert rest != ch;
      } else {
        assert !CountFails(src, p, c.i, s, caps, d, c.opt, j);
      }
    }
  }

  // The preference is a strict order, so there is at most one best parse.
  lemma {:induction false} BetterAsymmetric(src: seq<byte>, p: seq<byte>, i: nat, s: nat, caps: seq<Cap>, d: nat,
                                            ch: seq<nat>,
                                            ch': seq<nat>)
    requires i <= |p| && s <= |src| && CapsOk(caps, s) && Better(src, p, i, s, caps, d, ch, ch')
    ensures !Better(src, p, i, s, caps, d, ch', ch)
    decreases |p| - i
  {
    match StepAt(src, p, i, s, caps, d)
    case Stop(_) =>
    case Next(i', s', caps', d') => BetterAsymmetric(src, p, i', s', caps', d', ch, ch');
    case Choose(_, opt, i', lo, hi) =>
      if ch[0] == ch'[0] {
        CapsLater(caps, s, s + ch[0]);
        BetterAsymmetric(src, p, i', s + ch[0], caps, Inner(opt, d, ch[0]), ch[1..], ch'[1..]);
      }
  }

  lemma FirstUnique(src: seq<byte>, p: seq<byte>, i: nat, s: nat, caps: seq<Cap>, d: nat, ch: seq<nat>, ch': seq<nat>)
    requires i <= |p| && s <= |src| && CapsOk(caps, s) && First(src, p, i, s, caps, d, ch)
             && First(src, p, i, s, caps, d, ch')
    ensures ch == ch'
  {
    if ch != ch' { BetterAsymmetric(src, p, i, s, caps, d, ch, ch'); }
  }
}
