// The backtracking matcher of src/lib_string.c.
module LuaMatch {
  import opened LuaPattern
  import opened LuaParse

  // match() and its helpers return NULL or the end of the match, or raise an
  // error, which leaves the matcher for good.
  datatype Res = Null | End(e: nat) | Err(err: Error)

  ghost predicate Best(src: seq<byte>, p: seq<byte>, i: nat, s: nat, caps: seq<Cap>, d: nat, ch: seq<nat>, out: Out)
    requires i <= |p| && s <= |src| && CapsOk(caps, s)
  {
    First(src, p, i, s, caps, d, ch) && Parse(src, p, i, s, caps, d, ch) == out
  }

  // NULL means that there is no parse, and anything else is the outcome of the
  // best one, in a call that is nested d deep.
  ghost predicate Outcome(src: seq<byte>, p: seq<byte>, i: nat, s: nat, caps: seq<Cap>, d: nat, res: Res,
                          caps': seq<Cap>)
    requires i <= |p| && s <= |src| && CapsOk(caps, s)
  {
    match res
    case Null => NoParse(src, p, i, s, caps, d)
    case End(e) => exists ch :: Best(src, p, i, s, caps, d, ch, Out.Match(e, caps'))
    case Err(err) => exists ch :: Best(src, p, i, s, caps, d, ch, Fail(err))
  }

  // The outcome over all counts up to hi of an item followed by position j.
  ghost predicate Expanded(src: seq<byte>, p: seq<byte>, j: nat, s: nat, caps: seq<Cap>, d: nat, opt: bool, lazy: bool,
                           lo: nat, hi: nat,
                           res: Res, caps': seq<Cap>)
    requires j <= |p| && s + hi <= |src| && CapsOk(caps, s)
  {
    if res.Null? then forall k :: lo <= k <= hi ==> CountFails(src, p, j, s, caps, d, opt, k)
    else exists k :: lo <= k <= hi && CountWins(src, p, j, s, caps, d, opt, lazy, lo, hi, k, res, caps')
  }

  ghost predicate CountWins(src: seq<byte>, p: seq<byte>, j: nat, s: nat, caps: seq<Cap>, d: nat, opt: bool, lazy: bool,
                            lo: nat, hi: nat,
                            k: nat, res: Res, caps': seq<Cap>)
    requires j <= |p| && s + hi <= |src| && k <= hi
  {
    && CapsOk(caps, s + k) && !res.Null? && Outcome(src, p, j, s + k, caps, Inner(opt, d, k), res, caps')
    && forall m :: lo <= m <= hi && Prefers(lazy, m, k) ==> CountFails(src, p, j, s, caps, d, opt, m)
  }

  // -- Outcomes follow the steps ---------------------------------------------

  function Stopped(out: Out): Res {
    match out
    case NoMatch => Null
    case Match(e, _) => End(e)
    case Fail(err) => Err(err)
  }

  lemma OutcomeStop(src: seq<byte>, p: seq<byte>, i: nat, s: nat, caps: seq<Cap>, d: nat)
    requires i <= |p| && s <= |src| && CapsOk(caps, s) && StepAt(src, p, i, s, caps, d).Stop?
    ensures Outcome(src, p, i, s, caps, d, Stopped(StepAt(src, p, i, s, caps, d).out), caps)
  {
    StopFirst(src, p, i, s, caps, d);
    hide StepAt, First, NoParse, Parse;
    var out := StepAt(src, p, i, s, caps, d).out;
    StopsHere(src, p, i, s, caps, d);
    if out != NoMatch {
      assert Best(src, p, i, s, caps, d, [], out);
    }
  }

  lemma StopsHere(src: seq<byte>, p: seq<byte>, i: nat, s: nat, caps: seq<Cap>, d: nat)
    requires i <= |p| && s <= |src| && CapsOk(caps, s) && StepAt(src, p, i, s, caps, d).Stop?
    ensures var out := StepAt(src, p, i, s, caps, d).out; out.Match? ==> out == Match(s, caps)
  {
  }

  lemma OutcomeNext(src: seq<byte>, p: seq<byte>, i: nat, s: nat, caps: seq<Cap>, d: nat, res: Res, caps': seq<Cap>)
    requires i <= |p| && s <= |src| && CapsOk(caps, s) && StepAt(src, p, i, s, caps, d).Next?
    requires var n := StepAt(src, p, i, s, caps, d); Outcome(src, p, n.i, n.s, n.caps, n.d, res, caps')
    ensures Outcome(src, p, i, s, caps, d, res, caps')
  {
    var n := StepAt(src, p, i, s, caps, d);
    NextFirst(src, p, i, s, caps, d, []);
    hide StepAt, First, NoParse, Parse, CapsOk;
    if !res.Null? {
      var out := if res.End? then Out.Match(res.e, caps') else Fail(res.err);
      var ch :| Best(src, p, n.i, n.s, n.caps, n.d, ch, out);
      NextFirst(src, p, i, s, caps, d, ch);
      assert Best(src, p, i, s, caps, d, ch, out);
    }
  }

  lemma OutcomeChoose(src: seq<byte>, p: seq<byte>, i: nat, s: nat, caps: seq<Cap>, d: nat, res: Res, caps': seq<Cap>)
    requires i <= |p| && s <= |src| && CapsOk(caps, s) && StepAt(src, p, i, s, caps, d).Choose?
    requires var c := StepAt(src, p, i, s, caps, d);
             Expanded(src, p, c.i, s, caps, d, c.opt, c.lazy, c.lo, c.hi, res, caps')
    ensures Outcome(src, p, i, s, caps, d, res, caps')
  {
    var c := StepAt(src, p, i, s, caps, d);
    hide StepAt, First, NoParse, Parse, CapsOk;
    if res.Null? {
      ChooseNone(src, p, i, s, caps, d);
    } else {
      var k :| c.lo <= k <= c.hi && CountWins(src, p, c.i, s, caps, d, c.opt, c.lazy, c.lo, c.hi, k, res, caps');
      var out := if res.End? then Out.Match(res.e, caps') else Fail(res.err);
      var ch :| Best(src, p, c.i, s + k, caps, Inner(c.opt, d, k), ch, out);
      ChooseFirst(src, p, i, s, caps, d, k, ch);
      assert Best(src, p, i, s, caps, d, [k] + ch, out);
    }
  }

  // -- Scanning --------------------------------------------------------------

  method ClassEnd(p: seq<byte>, i: nat) returns (r: Pos)
    requires i < |p| && p[i] != 0
    ensures r == ItemEnd(p, i)
  {
    if p[i] == ESC {
      return if At(p, i + 1) == 0 then Bad(PatE) else Ends(i + 2);
    }
    if p[i] != SET {
      return Ends(i + 1);
    }
    var j := i + 1;
    if At(p, j) == CARET {
      j := j + 1;
    }
    ghost var first := j;
    while true
      invariant j <= |p| && SetEnd(p, j) == SetEnd(p, first)
      decreases |p| - j
    {
      if At(p, j) == 0 {
        return Bad(PatM);
      }
      j := j + 1;
      if p[j - 1] == ESC && At(p, j) != 0 {
        j := j + 1;
      }
      if At(p, j) == ENDSET {
        return Ends(j + 1);
      }
    }
  }

  method MatchBracketClass(c: byte, p: seq<byte>, i: nat, ec: nat) returns (b: bool)
    requires i < ec < |p|
    ensures b == InSet(c, p, i, ec)
  {
    var sig, j := true, i + 1;
    if p[j] == CARET {
      sig, j := false, j + 1;
    }
    ghost var first := j;
    while j < ec
      invariant j <= |p| && SetHas(c, p, j, ec) == SetHas(c, p, first, ec)
    {
      if p[j] == ESC {
        j := j + 1;
        if MatchClass(c, p[j]) {
          return sig;
        }
      } else if p[j + 1] == DASH && j + 2 < ec {
        j := j + 2;
        if p[j - 2] <= c <= p[j] {
          return sig;
        }
      } else if p[j] == c {
        return sig;
      }
      j := j + 1;
    }
    return !sig;
  }

  method Single(c: byte, p: seq<byte>, i: nat, ep: nat) returns (b: bool)
    requires i < |p| && p[i] != 0 && ItemEnd(p, i) == Ends(ep)
    ensures b == SingleMatch(c, p, i, ep)
  {
    if p[i] == DOT {
      b := true;
    } else if p[i] == ESC {
      b := MatchClass(c, p[i + 1]);
    } else if p[i] == SET {
      b := MatchBracketClass(c, p, i, ep - 1);
    } else {
      b := p[i] == c;
    }
  }

  // The end of the balanced string starting at s, or -1.
  method MatchBalance(src: seq<byte>, s: nat, b: byte, e: byte) returns (r: int)
    requires s <= |src| && b != 0
    ensures r == if At(src, s) == b then Balance(src, s, s, b, e) else -1
  {
    if At(src, s) != b {
      return -1;
    }
    var cont, k := 1, s + 1;
    while k < |src|
      invariant s < k <= |src| && cont == Nesting(src, s, k - 1, b, e) && cont > 0
      invariant Balance(src, s, k - 1, b, e) == Balance(src, s, s, b, e)
    {
      if src[k] == e {
        cont := cont - 1;
        if cont == 0 {
          return k + 1;
        }
      } else if src[k] == b {
        cont := cont + 1;
      }
      k := k + 1;
    }
    return -1;
  }

  lemma StepOutcome(src: seq<byte>, p: seq<byte>, i: nat, s: nat, caps: seq<Cap>, d: nat, res: Res, caps': seq<Cap>)
    requires i <= |p| && s <= |src| && CapsOk(caps, s) && !StepAt(src, p, i, s, caps, d).Choose?
    requires var n := StepAt(src, p, i, s, caps, d);
             if n.Next? then Outcome(src, p, n.i, n.s, n.caps, n.d, res, caps')
             else n.out.Fail? && res == Err(n.out.err) && caps' == []
    ensures Outcome(src, p, i, s, caps, d, res, caps')
  {
    if StepAt(src, p, i, s, caps, d).Next? {
      OutcomeNext(src, p, i, s, caps, d, res, caps');
    } else {
      StopFirst(src, p, i, s, caps, d);
      hide StepAt, First, NoParse, Parse, CapsOk;
      assert Best(src, p, i, s, caps, d, [], StepAt(src, p, i, s, caps, d).out);
    }
  }

  // -- Going on without a call -----------------------------------------------

  // A round of match() is done or goes on at another place, as `goto init`.
  datatype Flow = Done(res: Res) | Goto(s: nat, i: nat)

  // Whatever is the outcome at i', s' is the outcome at i, s.
  ghost predicate Carries(src: seq<byte>, p: seq<byte>, i: nat, s: nat, caps: seq<Cap>, d: nat, i': nat, s': nat)
    requires i <= |p| && s <= |src| && CapsOk(caps, s)
  {
    i' <= |p| && s' <= |src| && CapsOk(caps, s') &&
    forall res, caps' :: Outcome(src, p, i', s', caps, d, res, caps') ==> Outcome(src, p, i, s, caps, d, res, caps')
  }

  ghost predicate FlowOk(src: seq<byte>, p: seq<byte>, i: nat, s: nat, caps: seq<Cap>, d: nat, f: Flow, caps': seq<Cap>)
    requires i <= |p| && s <= |src| && CapsOk(caps, s)
  {
    match f
    case Done(res) => Outcome(src, p, i, s, caps, d, res, if res.Err? then [] else caps')
    case Goto(s', i') => i < i' <= |p| && s <= s' <= |src| && CapsOk(caps, s') && Carries(src, p, i, s, caps, d, i', s')
  }

  lemma CarriesSelf(src: seq<byte>, p: seq<byte>, i: nat, s: nat, caps: seq<Cap>, d: nat)
    requires i <= |p| && s <= |src| && CapsOk(caps, s)
    ensures Carries(src, p, i, s, caps, d, i, s)
  {
  }

  lemma CarriesTrans(src: seq<byte>, p: seq<byte>, i: nat, s: nat, caps: seq<Cap>, d: nat, i1: nat, s1: nat, i2: nat,
                     s2: nat)
    requires i <= |p| && s <= |src| && CapsOk(caps, s) && i1 <= |p| && s1 <= |src| && CapsOk(caps, s1)
    requires Carries(src, p, i, s, caps, d, i1, s1) && Carries(src, p, i1, s1, caps, d, i2, s2)
    ensures Carries(src, p, i, s, caps, d, i2, s2)
  {
  }

  lemma CarriesOutcome(src: seq<byte>, p: seq<byte>, i: nat, s: nat, caps: seq<Cap>, d: nat, i': nat, s': nat, res: Res,
                       caps': seq<Cap>)
    requires i <= |p| && s <= |src| && CapsOk(caps, s) && i' <= |p| && s' <= |src| && CapsOk(caps, s')
    requires Carries(src, p, i, s, caps, d, i', s') && Outcome(src, p, i', s', caps, d, res, caps')
    ensures Outcome(src, p, i, s, caps, d, res, caps')
  {
  }

  lemma CarriesNext(src: seq<byte>, p: seq<byte>, i: nat, s: nat, caps: seq<Cap>, d: nat)
    requires i <= |p| && s <= |src| && CapsOk(caps, s) && StepAt(src, p, i, s, caps, d).Next?
    requires StepAt(src, p, i, s, caps, d).caps == caps && StepAt(src, p, i, s, caps, d).d == d
    ensures Carries(src, p, i, s, caps, d, StepAt(src, p, i, s, caps, d).i, StepAt(src, p, i, s, caps, d).s)
  {
    var n := StepAt(src, p, i, s, caps, d);
    forall res, caps' | Outcome(src, p, n.i, n.s, caps, d, res, caps')
      ensures Outcome(src, p, i, s, caps, d, res, caps')
    {
      OutcomeNext(src, p, i, s, caps, d, res, caps');
    }
  }

  // An optional item is skipped if taking it fails or is impossible.
  lemma CarriesSkip(src: seq<byte>, p: seq<byte>, i: nat, s: nat, caps: seq<Cap>, d: nat)
    requires i <= |p| && s <= |src| && CapsOk(caps, s) && StepAt(src, p, i, s, caps, d).Choose?
    requires var c := StepAt(src, p, i, s, caps, d);
             c.opt && !c.lazy && c.lo == 0 && c.hi <= 1 && (c.hi == 1 ==> CountFails(src, p, c.i, s, caps, d, true, 1))
    ensures Carries(src, p, i, s, caps, d, StepAt(src, p, i, s, caps, d).i, s)
  {
    var c := StepAt(src, p, i, s, caps, d);
    hide StepAt, First, NoParse, Parse, CapsOk;
    forall res, caps' | Outcome(src, p, c.i, s, caps, d, res, caps')
      ensures Outcome(src, p, i, s, caps, d, res, caps')
    {
      if res.Null? {
        OutcomeNull(src, p, c.i, s, caps, d, true, 0);
      } else {
        assert CountWins(src, p, c.i, s, caps, d, true, false, 0, c.hi, 0, res, caps');
      }
      OutcomeChoose(src, p, i, s, caps, d, res, caps');
    }
  }

  lemma TakenExpanded(src: seq<byte>, p: seq<byte>, j: nat, s: nat, caps: seq<Cap>, d: nat, res: Res, caps': seq<Cap>)
    requires j <= |p| && s + 1 <= |src| && CapsOk(caps, s) && CapsOk(caps, s + 1) && !res.Null?
    requires Outcome(src, p, j, s + 1, caps, d + 1, res, caps')
    ensures Expanded(src, p, j, s, caps, d, true, false, 0, 1, res, caps')
  {
    hide First, NoParse, Parse, CapsOk;
    assert CountWins(src, p, j, s, caps, d, true, false, 0, 1, 1, res, caps');
  }

  lemma NoneExpanded(src: seq<byte>, p: seq<byte>, j: nat, s: nat, caps: seq<Cap>, d: nat)
    requires j <= |p| && s <= |src| && CapsOk(caps, s)
    ensures Expanded(src, p, j, s, caps, d, false, false, 1, 0, Null, caps)
  {
  }

  // One or more repetitions: zero or more after the first.
  lemma PlusExpanded(src: seq<byte>, p: seq<byte>, i: nat, ep: nat, s: nat, caps: seq<Cap>, d: nat, res: Res,
                     caps': seq<Cap>)
    requires i < |p| && p[i] != 0 && ItemEnd(p, i) == Ends(ep) && ep < |p| && s < |src| && SingleMatch(src[s], p, i, ep)
    requires CapsOk(caps, s) && CapsOk(caps, s + 1)
    requires Expanded(src, p, ep + 1, s + 1, caps, d, false, false, 0, Repeats(src, s + 1, p, i, ep), res, caps')
    ensures Expanded(src, p, ep + 1, s, caps, d, false, false, 1, Repeats(src, s, p, i, ep), res, caps')
  {
    var n, j := Repeats(src, s + 1, p, i, ep), ep + 1;
    hide Outcome, NoParse, CapsOk;
    forall m | 1 <= m <= n + 1
      ensures CountFails(src, p, j, s + 1, caps, d, false, m - 1) ==> CountFails(src, p, j, s, caps, d, false, m)
    {
      assert s + 1 + (m - 1) == s + m;
    }
    if !res.Null? {
      var k :| 0 <= k <= n && CountWins(src, p, j, s + 1, caps, d, false, false, 0, n, k, res, caps');
      var k' := k + 1;
      assert s + 1 + k == s + k';
      forall m | 1 <= m <= n + 1 && Prefers(false, m, k')
        ensures CountFails(src, p, j, s, caps, d, false, m)
      {
        assert Prefers(false, m - 1, k);
      }
      assert CountWins(src, p, j, s, caps, d, false, false, 1, n + 1, k', res, caps');
    }
  }

  // -- The matcher -----------------------------------------------------------

  class MatchState {
    const src: seq<byte>
    const p: seq<byte>
    const capture: array<Cap>
    var level: nat
    var depth: nat

    constructor (subject: seq<byte>, pattern: seq<byte>)
      ensures src == subject && p == pattern && level == 0 && depth == 0 && fresh(capture) && Valid()
    {
      src, p, level, depth := subject, pattern, 0, 0;
      capture := new Cap[MAXCAPTURES](i => Cap(0, UNFINISHED));
    }

    ghost predicate Valid()
      reads this
    {
      capture.Length == MAXCAPTURES && level <= MAXCAPTURES
    }

    function Caps(): seq<Cap>
      requires Valid()
      reads this, capture
    {
      capture[..level]
    }

    ghost predicate Ready(i: nat, s: nat)
      reads this, capture
    {
      Valid() && i <= |p| && s <= |src| && CapsOk(Caps(), s)
    }

    // In a call of match() that has counted itself.
    ghost predicate Inside(i: nat, s: nat)
      reads this, capture
    {
      Ready(i, s) && depth <= MAX_XLEVEL
    }

    method CheckCapture(c: byte) returns (l: int)
      requires Valid() && IsDigit(c)
      ensures var k := c - DIGIT_0 - 1; l == if k < 0 || k >= level || Caps()[k].len == UNFINISHED then -1 else k
    {
      var k: int := c - DIGIT_0 - 1;
      if k < 0 || k >= level || capture[k].len == UNFINISHED {
        return -1;
      }
      return k;
    }

    method CaptureToClose() returns (l: int)
      requires Valid()
      ensures l == ToClose(Caps())
    {
      l := level - 1;
      while l >= 0
        invariant -1 <= l < level
        invariant forall k :: l < k < level ==> capture[k].len != UNFINISHED
      {
        if capture[l].len == UNFINISHED {
          break;
        }
        l := l - 1;
      }
      ToCloseIs(Caps(), l);
    }

    // NULL, when the capture does not follow, is -1.
    method MatchCapture(s: nat, l: nat) returns (r: int)
      requires Valid() && l < level && s <= |src| && CapOk(capture[l], s) && capture[l].len != UNFINISHED
      ensures r == if Follows(src, s, capture[l]) then s + capture[l].len else -1
    {
      var c := capture[l];
      // The length of a position capture is huge as an unsigned number.
      if 0 <= c.len <= |src| - s && src[c.init..c.init + c.len] == src[s..s + c.len] {
        return s + c.len;
      }
      return -1;
    }

    // Keeps trying to match with the maximum repetitions.
    method MaxExpand(s: nat, i: nat, ep: nat) returns (res: Res)
      requires i < |p| && p[i] != 0 && ItemEnd(p, i) == Ends(ep) && ep < |p| && Ready(ep + 1, s)
      modifies this, capture
      ensures !res.Err? ==> Valid() && depth == old(depth)
      ensures !res.Err? ==> Expanded(src, p, ep + 1, s, old(Caps()), old(depth), false, false, 0,
              Repeats(src, s, p, i, ep), res, Caps())
      ensures res.Err? ==> Expanded(src, p, ep + 1, s, old(Caps()), old(depth), false, false, 0,
              Repeats(src, s, p, i, ep), res, [])
      ensures res.Null? ==> Caps() == old(Caps())
      decreases |p| - ep, 0
    {
      ghost var caps, d, next := Caps(), depth, ep + 1;
      var n := CountRepeats(s, i, ep);
      hide First, NoParse, Parse, Outcome, ItemEnd, CapsOk;
      var k: int := n;
      while k >= 0
        invariant -1 <= k <= n && Valid() && depth == old(depth) && Caps() == caps
        invariant forall m :: k < m <= n ==> CountFails(src, p, next, s, caps, d, false, m)
      {
        CapsLater(caps, s, s + k);
        res := Match(s + k, ep + 1);
        if !res.Null? {
          assert CountWins(src, p, next, s, caps, d, false, false, 0, n, k, res, if res.Err? then [] else Caps());
          return;
        }
        OutcomeNull(src, p, next, s, caps, d, false, k);
        k := k - 1;
      }
      return Null;
    }

    method CountRepeats(s: nat, i: nat, ep: nat) returns (n: nat)
      requires i < |p| && p[i] != 0 && ItemEnd(p, i) == Ends(ep) && s <= |src|
      ensures n == Repeats(src, s, p, i, ep)
    {
      n := 0;
      while s + n < |src|
        invariant s + n <= |src| && forall j :: s <= j < s + n ==> SingleMatch(src[j], p, i, ep)
      {
        var m := Single(src[s + n], p, i, ep);
        if !m { break; }
        n := n + 1;
      }
      RepeatsIs(src, s, p, i, ep, n);
    }

    // Tries with one more repetition each time.
    method MinExpand(s: nat, i: nat, ep: nat) returns (res: Res)
      requires i < |p| && p[i] != 0 && ItemEnd(p, i) == Ends(ep) && ep < |p| && Ready(ep + 1, s)
      modifies this, capture
      ensures !res.Err? ==> Valid() && depth == old(depth)
      ensures !res.Err? ==> Expanded(src, p, ep + 1, s, old(Caps()), old(depth), false, true, 0,
              Repeats(src, s, p, i, ep), res, Caps())
      ensures res.Err? ==> Expanded(src, p, ep + 1, s, old(Caps()), old(depth), false, true, 0,
              Repeats(src, s, p, i, ep), res, [])
      ensures res.Null? ==> Caps() == old(Caps())
      decreases |p| - ep, 0
    {
      ghost var caps, d, next, hi := Caps(), depth, ep + 1, Repeats(src, s, p, i, ep);
      hide First, NoParse, Parse, Outcome, ItemEnd, CapsOk, AllSingle, SingleMatch, Repeats;
      AllSingleNone(src, p, i, ep, s);
      var k := 0;
      while true
        invariant k <= hi && Valid() && depth == old(depth) && Caps() == caps
        invariant forall m :: 0 <= m < k ==> CountFails(src, p, next, s, caps, d, false, m)
        invariant AllSingle(src, p, i, ep, s, k)
        decreases hi - k
      {
        CapsLater(caps, s, s + k);
        res := Match(s + k, ep + 1);
        if !res.Null? {
          assert CountWins(src, p, next, s, caps, d, false, true, 0, hi, k, res, if res.Err? then [] else Caps());
          return;
        }
        OutcomeNull(src, p, next, s, caps, d, false, k);
        RepeatsSoFar(src, s, p, i, ep, k);
        if s + k >= |src| {
          return Null;
        }
        var m := Single(src[s + k], p, i, ep);
        if !m {
          return Null;
        }
        AllSingleMore(src, p, i, ep, s, k);
        k := k + 1;
      }
    }

    method StartCapture(s: nat, i: nat, what: int) returns (res: Res)
      requires Ready(i, s) && (what == UNFINISHED || what == POSITION)
      modifies this, capture
      ensures !res.Err? ==> Valid() && depth == old(depth)
      ensures res.Null? ==> Caps() == old(Caps())
      ensures if old(level) >= MAXCAPTURES then res == Err(CapN)
              else CapsOk(old(Caps()) + [Cap(s, what)], s) &&
                   Outcome(src, p, i, s, old(Caps()) + [Cap(s, what)], old(depth) + 1, res, if res.Err? then []
                     else Caps())
      decreases |p| - i, 4
    {
      if level >= MAXCAPTURES {
        return Err(CapN);
      }
      ghost var caps := Caps();
      capture[level] := Cap(s, what);
      level := level + 1;
      assert Caps() == caps + [Cap(s, what)];
      res := Match(s, i);
      if res.Null? {
        level := level - 1;
        assert Caps() == (caps + [Cap(s, what)])[..|caps|] == caps;
      }
    }

    method EndCapture(s: nat, i: nat) returns (res: Res)
      requires Ready(i, s)
      modifies this, capture
      ensures !res.Err? ==> Valid() && depth == old(depth)
      ensures res.Null? ==> Caps() == old(Caps())
      ensures var caps := old(Caps()); var l := ToClose(caps);
              if l < 0 then res == Err(PatC)
              else caps[l].init <= s && var caps' := caps[l := Cap(caps[l].init, s - caps[l].init)];
                   CapsOk(caps', s) && Outcome(src, p, i, s, caps', old(depth) + 1, res, if res.Err? then []
                     else Caps())
      decreases |p| - i, 4
    {
      ghost var caps := Caps();
      var l := CaptureToClose();
      if l < 0 {
        return Err(PatC);
      }
      assert CapOk(caps[l], s);
      capture[l] := Cap(capture[l].init, s - capture[l].init);
      ghost var caps' := caps[l := Cap(caps[l].init, s - caps[l].init)];
      assert Caps() == caps';
      res := Match(s, i);
      if res.Null? {
        capture[l] := Cap(capture[l].init, UNFINISHED);
        assert Caps() == caps'[l := Cap(caps[l].init, UNFINISHED)] == caps;
      }
    }

    // %b: a balanced string.
    method EscapeBalance(s: nat, i: nat) returns (f: Flow)
      requires Inside(i, s) && At(p, i) == ESC && At(p, i + 1) == LOWER_B
      ensures FlowOk(src, p, i, s, Caps(), depth, f, Caps())
    {
      ghost var caps, d := Caps(), depth;
      if At(p, i + 2) == 0 || At(p, i + 3) == 0 {
        OutcomeStop(src, p, i, s, caps, d);
        return Done(Err(PatU));
      }
      var e := MatchBalance(src, s, p[i + 2], p[i + 3]);
      if e < 0 {
        OutcomeStop(src, p, i, s, caps, d);
        return Done(Null);
      }
      CarriesNext(src, p, i, s, caps, d);
      return Goto(e, i + 4);
    }

    // %f: the frontier of a set.
    method EscapeFrontier(s: nat, i: nat) returns (f: Flow)
      requires Inside(i, s) && At(p, i) == ESC && At(p, i + 1) == LOWER_F
      ensures FlowOk(src, p, i, s, Caps(), depth, f, Caps())
    {
      ghost var caps, d := Caps(), depth;
      if At(p, i + 2) != SET {
        OutcomeStop(src, p, i, s, caps, d);
        return Done(Err(PatB));
      }
      var ep := ClassEnd(p, i + 2);
      if ep.Bad? {
        OutcomeStop(src, p, i, s, caps, d);
        return Done(Err(ep.err));
      }
      var before := MatchBracketClass(Previous(src, s), p, i + 2, ep.i - 1);
      var after := MatchBracketClass(At(src, s), p, i + 2, ep.i - 1);
      if before || !after {
        OutcomeStop(src, p, i, s, caps, d);
        return Done(Null);
      }
      CarriesNext(src, p, i, s, caps, d);
      return Goto(s, ep.i);
    }

    // %0 to %9: the text of a capture again.
    method EscapeCapture(s: nat, i: nat) returns (f: Flow)
      requires Inside(i, s) && At(p, i) == ESC && IsDigit(At(p, i + 1))
      ensures FlowOk(src, p, i, s, Caps(), depth, f, Caps())
    {
      ghost var caps, d := Caps(), depth;
      var l := CheckCapture(p[i + 1]);
      if l < 0 {
        OutcomeStop(src, p, i, s, caps, d);
        return Done(Err(CapI));
      }
      assert CapOk(caps[l], s);
      var e := MatchCapture(s, l);
      if e < 0 {
        OutcomeStop(src, p, i, s, caps, d);
        return Done(Null);
      }
      CarriesNext(src, p, i, s, caps, d);
      return Goto(e, i + 2);
    }

    // A pattern item with its repetition, if any.
    method MatchItem(s: nat, i: nat) returns (f: Flow)
      requires Inside(i, s) && At(p, i) != 0
      requires StepAt(src, p, i, s, Caps(), depth) == ItemStep(src, p, i, s, Caps(), depth)
      modifies this, capture
      ensures f.Goto? || !f.res.Err? ==> Valid() && depth == old(depth)
      ensures f.Goto? || f.res.Null? ==> Caps() == old(Caps())
      ensures FlowOk(src, p, i, s, old(Caps()), old(depth), f, if f.Goto? || !f.res.Err? then Caps() else [])
      decreases |p| - i, 1
    {
      ghost var caps, d := Caps(), depth;
      var ends := ClassEnd(p, i);
      if ends.Bad? {
        OutcomeStop(src, p, i, s, caps, d);
        return Done(Err(ends.err));
      }
      var ep := ends.i;
      var m := false;
      if s < |src| {
        m := Single(src[s], p, i, ep);
      }
      CapsLater(caps, s, s + 1);
      hide First, NoParse, Parse, Outcome, Expanded, ItemEnd, CapsOk, StepAt, Carries;
      var q := At(p, ep);
      var res;
      if q == QUERY {
        f := MatchOptional(s, i, ep, m);
      } else if q == STAR {
        res := MaxExpand(s, i, ep);
        OutcomeChoose(src, p, i, s, caps, d, res, if res.Err? then [] else Caps());
        f := Done(res);
      } else if q == PLUS {
        if m {
          res := MaxExpand(s + 1, i, ep);
          PlusExpanded(src, p, i, ep, s, caps, d, res, if res.Err? then [] else Caps());
        } else {
          res := Null;
          NoneExpanded(src, p, ep + 1, s, caps, d);
        }
        OutcomeChoose(src, p, i, s, caps, d, res, if res.Err? then [] else Caps());
        f := Done(res);
      } else if q == DASH {
        res := MinExpand(s, i, ep);
        OutcomeChoose(src, p, i, s, caps, d, res, if res.Err? then [] else Caps());
        f := Done(res);
      } else if m {
        CarriesNext(src, p, i, s, caps, d);
        f := Goto(s + 1, ep);
      } else {
        OutcomeStop(src, p, i, s, caps, d);
        f := Done(Null);
      }
    }

    // The optional item is taken first if it matches.
    method MatchOptional(s: nat, i: nat, ep: nat, m: bool) returns (f: Flow)
      requires Inside(i, s) && i < |p| && p[i] != 0 && ItemEnd(p, i) == Ends(ep) && ep < |p|
      requires m <==> s < |src| && SingleMatch(src[s], p, i, ep)
      requires StepAt(src, p, i, s, Caps(), depth) == Choose(false, true, ep + 1, 0, if m then 1 else 0)
      modifies this, capture
      ensures f.Goto? || !f.res.Err? ==> Valid() && depth == old(depth)
      ensures f.Goto? || f.res.Null? ==> Caps() == old(Caps())
      ensures FlowOk(src, p, i, s, old(Caps()), old(depth), f, if f.Goto? || !f.res.Err? then Caps() else [])
      decreases |p| - ep, 0
    {
      ghost var caps, d := Caps(), depth;
      hide First, NoParse, Parse, Outcome, ItemEnd, AllSingle, SingleMatch, Repeats, StepAt, Expanded;
      if m {
        CapsLater(caps, s, s + 1);
        var res := Match(s + 1, ep + 1);
        if !res.Null? {
          ghost var caps' := if res.Err? then [] else Caps();
          TakenExpanded(src, p, ep + 1, s, caps, d, res, caps');
          OutcomeChoose(src, p, i, s, caps, d, res, caps');
          return Done(res);
        }
        OutcomeNull(src, p, ep + 1, s, caps, d, true, 1);
      }
      CarriesSkip(src, p, i, s, caps, d);
      return Goto(s, ep + 1);
    }

    method Match(s: nat, i: nat) returns (res: Res)
      requires Ready(i, s)
      modifies this, capture
      ensures !res.Err? ==> Valid() && depth == old(depth)
                            && Outcome(src, p, i, s, old(Caps()), old(depth) + 1, res, Caps())
      ensures res.Err? ==> Outcome(src, p, i, s, old(Caps()), old(depth) + 1, res, [])
      ensures res.Null? ==> Caps() == old(Caps())
      decreases |p| - i, 3
    {
      ghost var caps, d := Caps(), depth + 1;
      depth := depth + 1;
      if depth > MAX_XLEVEL {
        OutcomeStop(src, p, i, s, caps, d);
        return Err(PatX);
      }
      var cs: nat, ci: nat := s, i;
      CarriesSelf(src, p, i, s, caps, d);
      while true
        invariant i <= ci <= |p| && cs <= |src| && CapsOk(caps, cs)
        invariant Valid() && depth == old(depth) + 1 && Caps() == caps
        invariant Carries(src, p, i, s, caps, d, ci, cs)
        decreases |p| - ci
      {
        var f := MatchStep(cs, ci);
        match f
        case Goto(s', i') =>
          CarriesTrans(src, p, i, s, caps, d, ci, cs, i', s');
          cs, ci := s', i';
        case Done(r) =>
          CarriesOutcome(src, p, i, s, caps, d, ci, cs, r, if r.Err? then [] else Caps());
          res := r;
          if r.Err? { return; }
          break;
      }
      depth := depth - 1;
    }

    // One round of match(): the item at i.
    method MatchStep(s: nat, i: nat) returns (f: Flow)
      requires Inside(i, s)
      modifies this, capture
      ensures f.Goto? || !f.res.Err? ==> Valid() && depth == old(depth)
      ensures f.Goto? || f.res.Null? ==> Caps() == old(Caps())
      ensures FlowOk(src, p, i, s, old(Caps()), old(depth), f, if f.Goto? || !f.res.Err? then Caps() else [])
      decreases |p| - i, 2
    {
      ghost var caps, d := Caps(), depth;
      var c := At(p, i);
      var res;
      if c == OPEN {
        if At(p, i + 1) == CLOSE {
          res := StartCapture(s, i + 2, POSITION);
        } else {
          res := StartCapture(s, i + 1, UNFINISHED);
        }
        StepOutcome(src, p, i, s, caps, d, res, if res.Err? then [] else Caps());
        f := Done(res);
      } else if c == CLOSE {
        res := EndCapture(s, i + 1);
        StepOutcome(src, p, i, s, caps, d, res, if res.Err? then [] else Caps());
        f := Done(res);
      } else if c == 0 {
        OutcomeStop(src, p, i, s, caps, d);
        f := Done(End(s));
      } else if c == ESC && At(p, i + 1) == LOWER_B {
        f := EscapeBalance(s, i);
      } else if c == ESC && At(p, i + 1) == LOWER_F {
        f := EscapeFrontier(s, i);
      } else if c == ESC && IsDigit(At(p, i + 1)) {
        f := EscapeCapture(s, i);
      } else if c == DOLLAR && At(p, i + 1) == 0 {
        OutcomeStop(src, p, i, s, caps, d);
        f := Done(if s == |src| then End(s) else Null);
      } else {
        f := MatchItem(s, i);
      }
    }
  }

  lemma OutcomeNull(src: seq<byte>, p: seq<byte>, i: nat, s: nat, caps: seq<Cap>, d: nat, opt: bool, k: nat)
    requires i <= |p| && s + k <= |src| && CapsOk(caps, s + k)
             && Outcome(src, p, i, s + k, caps, Inner(opt, d, k), Null, caps)
    ensures CountFails(src, p, i, s, caps, d, opt, k)
  {
  }

  ghost predicate AllSingle(src: seq<byte>, p: seq<byte>, i: nat, ep: nat, s: nat, k: nat)
    requires i < |p| && p[i] != 0 && ItemEnd(p, i) == Ends(ep)
  {
    s + k <= |src| && forall j :: s <= j < s + k ==> SingleMatch(src[j], p, i, ep)
  }

  lemma AllSingleNone(src: seq<byte>, p: seq<byte>, i: nat, ep: nat, s: nat)
    requires i < |p| && p[i] != 0 && ItemEnd(p, i) == Ends(ep) && s <= |src|
    ensures AllSingle(src, p, i, ep, s, 0)
  {
  }

  lemma AllSingleMore(src: seq<byte>, p: seq<byte>, i: nat, ep: nat, s: nat, k: nat)
    requires i < |p| && p[i] != 0 && ItemEnd(p, i) == Ends(ep)
    requires AllSingle(src, p, i, ep, s, k) && s + k < |src| && SingleMatch(src[s + k], p, i, ep)
    ensures AllSingle(src, p, i, ep, s, k + 1)
  {
  }

  lemma RepeatsSoFar(src: seq<byte>, s: nat, p: seq<byte>, i: nat, ep: nat, k: nat)
    requires i < |p| && p[i] != 0 && ItemEnd(p, i) == Ends(ep) && s <= |src| && AllSingle(src, p, i, ep, s, k)
    ensures s + k <= |src| && k <= Repeats(src, s, p, i, ep)
    ensures s + k == |src| || !SingleMatch(src[s + k], p, i, ep) ==> Repeats(src, s, p, i, ep) == k
    ensures s + k < |src| && SingleMatch(src[s + k], p, i, ep) ==> k < Repeats(src, s, p, i, ep)
  {
    RepeatsIs(src, s, p, i, ep, k);
  }

  lemma ToCloseIs(caps: seq<Cap>, l: int)
    requires -1 <= l < |caps| && (l >= 0 ==> caps[l].len == UNFINISHED)
    requires forall k :: l < k < |caps| ==> caps[k].len != UNFINISHED
    ensures l == ToClose(caps)
  {
  }
}
