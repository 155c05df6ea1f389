// string.find and string.gsub on top of the matcher (src/lib_string.c).
module LuaGsub {
  import opened LuaPattern
  import opened LuaParse
  import opened LuaMatch

  // -- Replacement text ------------------------------------------------------

  datatype Text = Text(bytes: seq<byte>) | Wrong(err: Error)

  function Decimal(n: nat): seq<byte> {
    if n < 10 then [DIGIT_0 + n] else Decimal(n / 10) + [DIGIT_0 + n % 10]
  }

  // The number that a numeral stands for.
  function Numeral(t: seq<byte>): int {
    if t == [] then 0 else Numeral(t[..|t| - 1]) * 10 + t[|t| - 1] as int - DIGIT_0 as int
  }

  // A number is rendered as its decimal digits, without leading zeros.
  lemma {:induction false} DecimalIs(n: nat)
    ensures Numeral(Decimal(n)) == n && forall k :: 0 <= k < |Decimal(n)| ==> IsDigit(Decimal(n)[k])
    ensures Decimal(n) != [] && (Decimal(n)[0] == DIGIT_0 ==> n == 0)
  {
    var t := Decimal(n);
    if n < 10 {
      assert t[..0] == [];
    } else {
      DecimalIs(n / 10);
      assert t[..|t| - 1] == Decimal(n / 10);
    }
  }

  // A position capture is rendered as the numeral of its position, counted from one.
  lemma PositionText(src: seq<byte>, caps: seq<Cap>, l: nat, s: nat, e: nat)
    requires s <= e <= |src| && CapsOk(caps, e) && l < |caps| && caps[l].len == POSITION
    ensures var t := CaptureText(src, caps, l, s, e); t.Text? && Numeral(t.bytes) == caps[l].init + 1
  {
    DecimalIs(caps[l].init + 1);
  }

  // Capture number l of a match from s to e; without captures the whole match
  // is the first one.
  function CaptureText(src: seq<byte>, caps: seq<Cap>, l: nat, s: nat, e: nat): Text
    requires s <= e <= |src| && CapsOk(caps, e)
  {
    if l >= |caps| then (if l == 0 then Text(src[s..e]) else Wrong(CapI))
    else
      assert CapOk(caps[l], e);
      if caps[l].len == UNFINISHED then Wrong(CapU)
      else if caps[l].len == POSITION then Text(Decimal(caps[l].init + 1))
      else Text(src[caps[l].init..caps[l].init + caps[l].len])
  }

  function Then(a: Text, b: Text): Text {
    if a.Wrong? then a else if b.Wrong? then b else Text(a.bytes + b.bytes)
  }

  // What the replacement says from position i on.
  function Render(news: seq<byte>, i: nat, src: seq<byte>, caps: seq<Cap>, s: nat, e: nat): Text
    requires s <= e <= |src| && CapsOk(caps, e)
    decreases |news| - i
  {
    if i >= |news| then Text([])
    else if news[i] != ESC then Then(Text([news[i]]), Render(news, i + 1, src, caps, s, e))
    else
      var c := At(news, i + 1);
      Then(if !IsDigit(c) then Text([c]) else if c == DIGIT_0 then Text(src[s..e])
        else CaptureText(src, caps, c - DIGIT_0 - 1, s, e),
           Render(news, i + 2, src, caps, s, e))
  }

  // A replacement as it is meant: bytes, the whole match (0) and captures (from 1).
  datatype Part = Lit(b: byte) | Group(l: nat)

  function SpellParts(ps: seq<Part>): seq<byte>
    requires forall k :: 0 <= k < |ps| && ps[k].Group? ==> ps[k].l <= 9
  {
    if ps == [] then []
    else
      (match ps[0]
       case Lit(b) => if b == ESC then [ESC, ESC] else [b]
       case Group(l) => [ESC, DIGIT_0 + l]) + SpellParts(ps[1..])
  }

  function PartsText(ps: seq<Part>, src: seq<byte>, caps: seq<Cap>, s: nat, e: nat): Text
    requires s <= e <= |src| && CapsOk(caps, e)
  {
    if ps == [] then Text([])
    else
      var first := match ps[0]
                   case Lit(b) => Text([b])
                   case Group(l) => if l == 0 then Text(src[s..e]) else CaptureText(src, caps, l - 1, s, e);
      Then(first, PartsText(ps[1..], src, caps, s, e))
  }

  // What is written down in a replacement is what it says.
  lemma {:induction false} PartsRendered(news: seq<byte>, i: nat, ps: seq<Part>, src: seq<byte>, caps: seq<Cap>, s: nat,
                                         e: nat)
    requires s <= e <= |src| && CapsOk(caps, e) && i <= |news|
    requires forall k :: 0 <= k < |ps| && ps[k].Group? ==> ps[k].l <= 9
    requires news[i..] == SpellParts(ps)
    ensures Render(news, i, src, caps, s, e) == PartsText(ps, src, caps, s, e)
    decreases |ps|
  {
    if ps != [] {
      var n := if ps[0].Lit? && ps[0].b != ESC then 1 else 2;
      assert |news| - i >= n && news[i] == news[i..][0] && (n == 2 ==> news[i + 1] == news[i..][1]);
      assert news[i + n..] == news[i..][n..] == SpellParts(ps[1..]);
      hide CaptureText, Then, CapsOk;
      PartsRendered(news, i + n, ps[1..], src, caps, s, e);
    }
  }

  lemma ThenAssoc(a: Text, b: Text, c: Text)
    ensures Then(Then(a, b), c) == Then(a, Then(b, c))
  {
    if !a.Wrong? && !b.Wrong? && !c.Wrong? {
      assert (a.bytes + b.bytes) + c.bytes == a.bytes + (b.bytes + c.bytes);
    }
  }

  method PushOnecapture(ms: MatchState, l: nat, s: nat, e: nat) returns (t: Text)
    requires ms.Valid() && s <= e <= |ms.src| && CapsOk(ms.Caps(), e)
    ensures t == CaptureText(ms.src, ms.Caps(), l, s, e)
  {
    if l >= ms.level {
      return if l == 0 then Text(ms.src[s..e]) else Wrong(CapI);
    }
    var c := ms.capture[l];
    assert CapOk(ms.Caps()[l], e);
    if c.len == UNFINISHED {
      return Wrong(CapU);
    } else if c.len == POSITION {
      return Text(Decimal(c.init + 1));
    }
    return Text(ms.src[c.init..c.init + c.len]);
  }

  method AddS(ms: MatchState, news: seq<byte>, s: nat, e: nat) returns (t: Text)
    requires ms.Valid() && s <= e <= |ms.src| && CapsOk(ms.Caps(), e)
    ensures t == Render(news, 0, ms.src, ms.Caps(), s, e)
  {
    ghost var caps := ms.Caps();
    t := Text([]);
    var i := 0;
    while i < |news|
      invariant t.Text? && Then(t, Render(news, i, ms.src, caps, s, e)) == Render(news, 0, ms.src, caps, s, e)
    {
      ghost var rest := Render(news, if news[i] == ESC then i + 2 else i + 1, ms.src, caps, s, e);
      var now;
      if news[i] != ESC {
        now := Text([news[i]]);
      } else {
        i := i + 1;
        var c := At(news, i);
        if !IsDigit(c) {
          now := Text([c]);
        } else if c == DIGIT_0 {
          now := Text(ms.src[s..e]);
        } else {
          now := PushOnecapture(ms, c - DIGIT_0 - 1, s, e);
        }
      }
      ThenAssoc(t, now, rest);
      if now.Wrong? {
        return now;
      }
      t := Text(t.bytes + now.bytes);
      i := i + 1;
    }
  }

  // -- gsub ------------------------------------------------------------------

  // The subject is cut into replaced matches and copied bytes.
  datatype Piece = Sub(from: nat, to: nat, text: seq<byte>) | Copy(at: nat)

  ghost predicate Tiles(pieces: seq<Piece>, to: nat)
    decreases |pieces|
  {
    if pieces == [] then to == 0
    else
      var last := pieces[|pieces| - 1];
      match last
      case Sub(f, t, _) => f <= t == to && Tiles(pieces[..|pieces| - 1], f)
      case Copy(at) => at + 1 == to && Tiles(pieces[..|pieces| - 1], at)
  }

  function Flatten(src: seq<byte>, pieces: seq<Piece>): seq<byte>
    decreases |pieces|
  {
    if pieces == [] then []
    else
      var last := pieces[|pieces| - 1];
      Flatten(src, pieces[..|pieces| - 1]) + (if last.Sub? then last.text else if last.at < |src| then [src[last.at]]
        else [])
  }

  function Subs(pieces: seq<Piece>): nat
    decreases |pieces|
  {
    if pieces == [] then 0 else Subs(pieces[..|pieces| - 1]) + (if pieces[|pieces| - 1].Sub? then 1 else 0)
  }

  // The empty string at s has just been replaced.
  predicate EmptySub(pieces: seq<Piece>, s: nat) {
    |pieces| > 0 && pieces[|pieces| - 1].Sub? && pieces[|pieces| - 1].from == pieces[|pieces| - 1].to == s
  }

  // Replaced is exactly the best match at its place, the empty string only once, and
  // copied is a byte where nothing matches or the empty string has been replaced.
  ghost predicate PieceOk(src: seq<byte>, p: seq<byte>, news: seq<byte>, pieces: seq<Piece>, k: nat)
    requires k < |pieces|
  {
    match pieces[k]
    case Sub(f, t, text) =>
      f <= t <= |src| && !EmptySub(pieces[..k], f) &&
      exists caps, ch :: CapsOk(caps, t) && Best(src, p, 0, f, [], 1, ch, Out.Match(t, caps))
                         && Render(news, 0, src, caps, f, t) == Text(text)
    case Copy(at) =>
      at < |src| && (NoParse(src, p, 0, at, [], 1) || EmptySub(pieces[..k], at))
  }

  lemma FlattenMore(src: seq<byte>, pieces: seq<Piece>, x: Piece)
    ensures Flatten(src, pieces + [x]) == Flatten(src, pieces)
            + (if x.Sub? then x.text else if x.at < |src| then [src[x.at]] else [])
    ensures Subs(pieces + [x]) == Subs(pieces) + (if x.Sub? then 1 else 0)
  {
    assert (pieces + [x])[..|pieces|] == pieces;
  }

  lemma TilesMore(pieces: seq<Piece>, from: nat, x: Piece)
    requires Tiles(pieces, from) && (if x.Sub? then x.from == from <= x.to else x.at == from)
    ensures Tiles(pieces + [x], if x.Sub? then x.to else from + 1)
  {
    assert (pieces + [x])[..|pieces|] == pieces;
  }

  predicate Unchanged(src: seq<byte>, x: Piece) {
    x.Sub? ==> x.from <= x.to <= |src| && x.text == src[x.from..x.to]
  }

  lemma LastPiece(src: seq<byte>, pieces: seq<Piece>, to: nat) returns (from: nat)
    requires pieces != [] && Tiles(pieces, to) && to <= |src| && AllUnchanged(src, pieces)
    ensures from <= to && Tiles(pieces[..|pieces| - 1], from) && AllUnchanged(src, pieces[..|pieces| - 1])
    ensures Flatten(src, pieces) == Flatten(src, pieces[..|pieces| - 1]) + src[from..to]
  {
    var last := pieces[|pieces| - 1];
    assert Unchanged(src, last);
    from := if last.Sub? then last.from else last.at;
  }

  predicate AllUnchanged(src: seq<byte>, pieces: seq<Piece>) {
    forall k :: 0 <= k < |pieces| ==> Unchanged(src, pieces[k])
  }

  // Replacing every match by itself gives the subject back.
  lemma {:induction false} SelfPieces(src: seq<byte>, pieces: seq<Piece>, to: nat)
    requires Tiles(pieces, to) && to <= |src| && AllUnchanged(src, pieces)
    ensures Flatten(src, pieces) == src[..to]
    decreases |pieces|
  {
    if pieces != [] {
      var from := LastPiece(src, pieces, to);
      hide *;
      SelfPieces(src, pieces[..|pieces| - 1], from);
      SliceJoin(src, from, to);
    }
  }

  lemma SliceJoin(src: seq<byte>, from: nat, to: nat)
    requires from <= to <= |src|
    ensures src[..from] + src[from..to] == src[..to]
  {
  }

  lemma RenderWhole(src: seq<byte>, caps: seq<Cap>, s: nat, e: nat)
    requires s <= e <= |src| && CapsOk(caps, e)
    ensures Render([ESC, DIGIT_0], 0, src, caps, s, e) == Text(src[s..e])
  {
    assert Render([ESC, DIGIT_0], 2, src, caps, s, e) == Text([]);
    assert src[s..e] + [] == src[s..e];
  }

  datatype GsubRes = Done(result: seq<byte>, n: nat) | Raised(err: Error)

  // Pieces up to `to`, all as they should be.
  ghost predicate Cut(src: seq<byte>, p: seq<byte>, news: seq<byte>, pieces: seq<Piece>, to: nat) {
    Tiles(pieces, to) && forall k :: 0 <= k < |pieces| ==> PieceOk(src, p, news, pieces, k)
  }

  lemma CutMore(src: seq<byte>, p: seq<byte>, news: seq<byte>, pieces: seq<Piece>, from: nat, x: Piece)
    requires Cut(src, p, news, pieces, from) && (if x.Sub? then x.from == from <= x.to else x.at == from)
    requires PieceOk(src, p, news, pieces + [x], |pieces|)
    ensures Cut(src, p, news, pieces + [x], if x.Sub? then x.to else from + 1)
  {
    TilesMore(pieces, from, x);
    var more := pieces + [x];
    forall k | 0 <= k < |more|
      ensures PieceOk(src, p, news, more, k)
    {
      if k < |pieces| {
        assert PieceOk(src, p, news, pieces, k);
        assert more[k] == pieces[k] && more[..k] == pieces[..k];
      }
    }
  }

  lemma SubOk(src: seq<byte>, p: seq<byte>, news: seq<byte>, pieces: seq<Piece>, s: nat, e: nat, caps: seq<Cap>,
              text: seq<byte>)
    requires s <= |src| && CapsOk([], s) && Outcome(src, p, 0, s, [], 1, End(e), caps)
    ensures s <= e <= |src| && CapsOk(caps, e)
    ensures Render(news, 0, src, caps, s, e) == Text(text) && !EmptySub(pieces, s)
            ==> PieceOk(src, p, news, pieces + [Sub(s, e, text)], |pieces|)
  {
    var ch :| Best(src, p, 0, s, [], 1, ch, Out.Match(e, caps));
    MatchWithin(src, p, 0, s, [], 1, ch);
    assert (pieces + [Sub(s, e, text)])[..|pieces|] == pieces;
  }

  // Replacing with "%0" changes nothing.
  lemma SelfCut(src: seq<byte>, p: seq<byte>, pieces: seq<Piece>, to: nat)
    requires Cut(src, p, [ESC, DIGIT_0], pieces, to) && to <= |src|
    ensures Flatten(src, pieces) == src[..to]
  {
    forall k | 0 <= k < |pieces|
      ensures Unchanged(src, pieces[k])
    {
      assert PieceOk(src, p, [ESC, DIGIT_0], pieces, k);
      if pieces[k].Sub? {
        var caps, ch :| CapsOk(caps, pieces[k].to)
          && Best(src, p, 0, pieces[k].from, [], 1, ch, Out.Match(pieces[k].to, caps)) &&
          Render([ESC, DIGIT_0], 0, src, caps, pieces[k].from, pieces[k].to) == Text(pieces[k].text);
        RenderWhole(src, caps, pieces[k].from, pieces[k].to);
      }
    }
    SelfPieces(src, pieces, to);
  }

  // The error of the pattern or of the replacement at s.
  ghost predicate RaisedAt(src: seq<byte>, p: seq<byte>, news: seq<byte>, s: nat, err: Error) {
    s <= |src| &&
    (Outcome(src, p, 0, s, [], 1, Err(err), []) || exists e, caps :: RenderFails(src, p, news, s, e, caps, err))
  }

  ghost predicate RenderFails(src: seq<byte>, p: seq<byte>, news: seq<byte>, s: nat, e: nat, caps: seq<Cap>,
                              err: Error) {
    s <= e <= |src| && CapsOk(caps, e) && Outcome(src, p, 0, s, [], 1, End(e), caps)
      && Render(news, 0, src, caps, s, e) == Wrong(err)
  }

  lemma CopyOk(src: seq<byte>, p: seq<byte>, news: seq<byte>, pieces: seq<Piece>, s: nat, res: Res)
    requires s < |src|
    requires if res.Null? then NoParse(src, p, 0, s, [], 1) else EmptySub(pieces, s)
    ensures PieceOk(src, p, news, pieces + [Copy(s)], |pieces|)
  {
    assert (pieces + [Copy(s)])[..|pieces|] == pieces;
  }

  // One match attempt of the loops below, from a fresh start.
  method MatchAt(ms: MatchState, s: nat) returns (res: Res)
    requires ms.Valid() && s <= |ms.src|
    modifies ms, ms.capture
    ensures !res.Err? ==> ms.Valid() && Outcome(ms.src, ms.p, 0, s, [], 1, res, ms.Caps())
    ensures res.Err? ==> Outcome(ms.src, ms.p, 0, s, [], 1, res, [])
  {
    ms.level, ms.depth := 0, 0;
    assert ms.Caps() == [];
    res := ms.Match(s, 0);
  }

  predicate Anchored(pattern: seq<byte>) { At(pattern, 0) == CARET }

  function Unanchored(pattern: seq<byte>): seq<byte> { if Anchored(pattern) then pattern[1..] else pattern }

  // What has been cut and built so far.
  ghost predicate Built(src: seq<byte>, p: seq<byte>, news: seq<byte>, pieces: seq<Piece>, s: nat, b: seq<byte>,
                        n: nat) {
    s <= |src| && Cut(src, p, news, pieces, s) && b == Flatten(src, pieces) && n == Subs(pieces)
  }

  lemma BuiltStart(src: seq<byte>, p: seq<byte>, news: seq<byte>)
    ensures Built(src, p, news, [], 0, [], 0)
  {
  }

  lemma BuiltSub(src: seq<byte>, p: seq<byte>, news: seq<byte>, pieces: seq<Piece>, s: nat, b: seq<byte>, n: nat,
                 e: nat, caps: seq<Cap>, text: seq<byte>)
    requires Built(src, p, news, pieces, s, b, n) && CapsOk([], s) && Outcome(src, p, 0, s, [], 1, End(e), caps)
    requires s <= e <= |src| && CapsOk(caps, e) && Render(news, 0, src, caps, s, e) == Text(text)
    requires !EmptySub(pieces, s)
    ensures Built(src, p, news, pieces + [Sub(s, e, text)], e, b + text, n + 1)
  {
    SubOk(src, p, news, pieces, s, e, caps, text);
    hide PieceOk, Tiles, Flatten, Subs;
    CutMore(src, p, news, pieces, s, Sub(s, e, text));
    FlattenMore(src, pieces, Sub(s, e, text));
  }

  lemma BuiltCopy(src: seq<byte>, p: seq<byte>, news: seq<byte>, pieces: seq<Piece>, s: nat, b: seq<byte>, n: nat,
                  res: Res)
    requires Built(src, p, news, pieces, s, b, n) && s < |src|
    requires if res.Null? then NoParse(src, p, 0, s, [], 1) else EmptySub(pieces, s)
    ensures Built(src, p, news, pieces + [Copy(s)], s + 1, b + [src[s]], n)
  {
    CopyOk(src, p, news, pieces, s, res);
    hide PieceOk, Tiles, Flatten, Subs;
    CutMore(src, p, news, pieces, s, Copy(s));
    FlattenMore(src, pieces, Copy(s));
  }

  // The replacement for a match that has just been found at s.
  method Replacement(ms: MatchState, news: seq<byte>, s: nat, e: nat) returns (text: Text)
    requires ms.Valid() && s <= |ms.src| && Outcome(ms.src, ms.p, 0, s, [], 1, End(e), ms.Caps())
    ensures s <= e <= |ms.src| && CapsOk(ms.Caps(), e)
    ensures text == Render(news, 0, ms.src, ms.Caps(), s, e)
    ensures text.Wrong? ==> RaisedAt(ms.src, ms.p, news, s, text.err)
  {
    SubOk(ms.src, ms.p, news, [], s, e, ms.Caps(), []);
    text := AddS(ms, news, s, e);
    if text.Wrong? {
      assert RenderFails(ms.src, ms.p, news, s, e, ms.Caps(), text.err);
    }
  }

  // Where the search may end: after as many replacements as asked for, after one
  // attempt at the start if the pattern is anchored, and otherwise only after an
  // attempt at the end of the subject.
  ghost predicate Searched(src: seq<byte>, p: seq<byte>, anchor: bool, maxS: int, pieces: seq<Piece>, end: nat,
                           n: nat) {
    || n >= maxS
    || (if anchor then (forall k :: 0 <= k < |pieces| && pieces[k].Sub? ==> pieces[k].from == 0)
                       && (n == 0 ==> NoParse(src, p, 0, 0, [], 1))
        else end == |src| && (NoParse(src, p, 0, end, [], 1) || EmptySub(pieces, end)))
  }

  method Gsub(subject: seq<byte>, pattern: seq<byte>, news: seq<byte>, maxS: int)
              returns (r: GsubRes, ghost pieces: seq<Piece>, ghost end: nat)
    ensures r.Done? ==> exists b :: Built(subject, Unanchored(pattern), news, pieces, end, b, r.n)
                                    && r.result == b + subject[end..]
    ensures r.Done? ==> Searched(subject, Unanchored(pattern), Anchored(pattern), maxS, pieces, end, r.n)
    ensures r.Done? ==> r.n <= |subject| + 1 && r.n <= (if maxS < 0 then 0 else maxS)
    ensures r.Done? && news == [ESC, DIGIT_0] ==> r.result == subject
    ensures r.Raised? ==> RaisedAt(subject, Unanchored(pattern), news, end, r.err) && (Anchored(pattern) ==> end == 0)
                          && exists b, n: nat :: n < maxS
                                                 && Built(subject, Unanchored(pattern), news, pieces, end, b, n)
  {
    var anchor := Anchored(pattern);
    var p := Unanchored(pattern);
    var ms := new MatchState(subject, p);
    var s, n, b := 0, 0, [];
    pieces := [];
    BuiltStart(subject, p, news);
    hide Built, Outcome, NoParse, RaisedAt, Render;
    while n < maxS
      invariant s <= |subject| && n <= s && n <= (if maxS < 0 then 0 else maxS)
      invariant ms.Valid() && ms.src == subject && ms.p == p && fresh(ms) && fresh(ms.capture)
      invariant Built(subject, p, news, pieces, s, b, n) && !EmptySub(pieces, s) && (anchor ==> s == 0 && pieces == [])
      decreases |subject| - s
    {
      var res := MatchAt(ms, s);
      if res.Err? {
        RaisedHere(subject, p, news, s, res.err);
        return Raised(res.err), pieces, s;
      }
      var e := s;
      if res.End? {
        e := res.e;
        var text := Replacement(ms, news, s, e);
        if text.Wrong? {
          return Raised(text.err), pieces, s;
        }
        BuiltSub(subject, p, news, pieces, s, b, n, e, ms.Caps(), text.bytes);
        n := n + 1;
        b := b + text.bytes;
        pieces := pieces + [Sub(s, e, text.bytes)];
      }
      if e > s {
        s := e;
      } else if s < |subject| {
        if res.Null? { NothingHere(subject, p, s); }
        BuiltCopy(subject, p, news, pieces, s, b, n, res);
        b := b + [subject[s]];
        pieces := pieces + [Copy(s)];
        s := s + 1;
      } else {
        break;
      }
      if anchor {
        break;
      }
    }
    end := s;
    r := GsubRes.Done(b + subject[s..], n);
    if news == [ESC, DIGIT_0] {
      SelfBuilt(subject, p, pieces, s, b, n);
    }
  }

  lemma SelfBuilt(src: seq<byte>, p: seq<byte>, pieces: seq<Piece>, s: nat, b: seq<byte>, n: nat)
    requires Built(src, p, [ESC, DIGIT_0], pieces, s, b, n)
    ensures s <= |src| && b + src[s..] == src
  {
    SelfCut(src, p, pieces, s);
    assert src[..s] + src[s..] == src;
  }

  lemma NothingHere(src: seq<byte>, p: seq<byte>, s: nat)
    requires s <= |src| && CapsOk([], s) && Outcome(src, p, 0, s, [], 1, Null, [])
    ensures NoParse(src, p, 0, s, [], 1)
  {
  }

  lemma RaisedHere(src: seq<byte>, p: seq<byte>, news: seq<byte>, s: nat, err: Error)
    requires s <= |src| && CapsOk([], s) && Outcome(src, p, 0, s, [], 1, Err(err), [])
    ensures RaisedAt(src, p, news, s, err)
  {
  }

  // -- find ------------------------------------------------------------------

  datatype FindRes = Found(from: nat, to: nat) | NotFound | FindRaised(err: Error)

  // Search for the pattern from position `start` on: the leftmost match wins.
  method StrFind(subject: seq<byte>, pattern: seq<byte>, start: nat) returns (r: FindRes, ghost caps: seq<Cap>)
    requires start <= |subject|
    ensures var anchor := At(pattern, 0) == CARET; var p := if anchor then pattern[1..] else pattern;
            match r
            case Found(from, to) =>
              && start <= from <= to <= |subject| && (anchor ==> from == start)
              && Outcome(subject, p, 0, from, [], 1, End(to), caps)
              && forall k :: start <= k < from ==> NoParse(subject, p, 0, k, [], 1)
            case NotFound => forall k :: start <= k <= |subject| && (anchor ==> k == start)
                                         ==> NoParse(subject, p, 0, k, [], 1)
            case FindRaised(err) =>
              exists s :: start <= s <= |subject| && Outcome(subject, p, 0, s, [], 1, Err(err), []) &&
                          forall k :: start <= k < s ==> NoParse(subject, p, 0, k, [], 1)
  {
    var anchor := At(pattern, 0) == CARET;
    var p := if anchor then pattern[1..] else pattern;
    var ms := new MatchState(subject, p);
    var s := start;
    caps := [];
    while true
      invariant start <= s <= |subject| && (anchor ==> s == start)
      invariant ms.Valid() && ms.src == subject && ms.p == p && fresh(ms) && fresh(ms.capture)
      invariant forall k :: start <= k < s ==> NoParse(subject, p, 0, k, [], 1)
      decreases |subject| - s
    {
      var res := MatchAt(ms, s);
      if res.Err? {
        return FindRaised(res.err), caps;
      }
      if res.End? {
        SubOk(subject, p, [], [], s, res.e, ms.Caps(), []);
        return Found(s, res.e), ms.Caps();
      }
      if s == |subject| || anchor {
        return NotFound, caps;
      }
      s := s + 1;
    }
  }
}
