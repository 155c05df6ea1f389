// The bitwise tries of the large bins of src/lj_alloc.c.
module AllocTree {
  import opened AllocRing
  import opened AllocBits

  // The link fields of chunks in memory.
  datatype Mem = Mem(fd: Links, bk: Links, c0: Links, c1: Links, par: Links)

  // A tree of rings of equally sized chunks, as the links describe it.
  datatype Tree = Nil | Node(ring: seq<nat>, left: Tree, right: Tree)

  predicate In(t: Tree, x: nat)
    decreases t
  {
    t.Node? && (x in t.ring || In(t.left, x) || In(t.right, x))
  }

  // -- The trie --------------------------------------------------------------

  predicate SameSize(ring: seq<nat>, sz: Links) { |ring| > 0 && forall x :: x in ring ==> At(sz, x) == At(sz, ring[0]) }

  // The sizes of a ring have pre above bit k, and no other node has their size.
  ghost predicate NodeOk(ring: seq<nat>, left: Tree, right: Tree, sz: Links, k: int, pre: nat) {
    && k >= -1 && SameSize(ring, sz)
    && Shr(At(sz, ring[0]), k + 1) == pre
    && (k == -1 ==> left.Nil? && right.Nil?)
    && forall x :: In(left, x) || In(right, x) ==> At(sz, x) != At(sz, ring[0])
  }

  // Bit k decides between the children.
  ghost predicate TrieOk(t: Tree, sz: Links, k: int, pre: nat)
    decreases t
  {
    t.Node? ==>
      && NodeOk(t.ring, t.left, t.right, sz, k, pre)
      && TrieOk(t.left, sz, k - 1, 2 * pre) && TrieOk(t.right, sz, k - 1, 2 * pre + 1)
  }

  lemma {:induction false} MemberPrefix(t: Tree, sz: Links, k: int, pre: nat, x: nat)
    requires TrieOk(t, sz, k, pre) && In(t, x)
    ensures k >= -1 && Shr(At(sz, x), k + 1) == pre
    decreases t
  {
    if x in t.ring {
    } else if In(t.left, x) {
      MemberPrefix(t.left, sz, k - 1, 2 * pre, x);
    } else {
      MemberPrefix(t.right, sz, k - 1, 2 * pre + 1, x);
    }
  }

  // Smaller sizes are to the left.
  lemma LeftSmaller(t: Tree, sz: Links, k: int, pre: nat, x: nat, y: nat)
    requires TrieOk(t, sz, k, pre) && t.Node? && In(t.left, x) && In(t.right, y)
    ensures At(sz, x) < At(sz, y)
  {
    MemberPrefix(t.left, sz, k - 1, 2 * pre, x);
    MemberPrefix(t.right, sz, k - 1, 2 * pre + 1, y);
    hide TrieOk, In;
    if At(sz, y) <= At(sz, x) { ShrMono(At(sz, y), At(sz, x), k); }
  }

  lemma Apart(t: Tree, sz: Links, k: int, pre: nat, x: nat)
    requires TrieOk(t, sz, k, pre) && t.Node?
    ensures In(t.left, x) ==> !In(t.right, x)
    ensures x in t.ring ==> !In(t.left, x) && !In(t.right, x)
  {
    if In(t.left, x) && In(t.right, x) { LeftSmaller(t, sz, k, pre, x, x); }
  }

  lemma {:induction false} TrieFrame(t: Tree, sz: Links, sz': Links, k: int, pre: nat)
    requires TrieOk(t, sz, k, pre) && forall x :: In(t, x) ==> At(sz', x) == At(sz, x)
    ensures TrieOk(t, sz', k, pre)
    decreases t
  {
    if t.Node? {
      assert forall x :: x in t.ring ==> In(t, x);
      assert t.ring[0] in t.ring;
      assert NodeOk(t.ring, t.left, t.right, sz', k, pre);
      TrieFrame(t.left, sz, sz', k - 1, 2 * pre);
      TrieFrame(t.right, sz, sz', k - 1, 2 * pre + 1);
    }
  }

  // -- Representation --------------------------------------------------------

  // The fields of the chunks in t, whose root p hangs below `up`.
  ghost predicate Rep(t: Tree, m: Mem, p: nat, up: nat)
    decreases t
  {
    if t.Nil? then p == 0
    else
      && RootOk(t.ring, m, p, up)
      && Rep(t.left, m, At(m.c0, p), p) && Rep(t.right, m, At(m.c1, p), p)
  }

  // A ring with its first chunk p in the tree and the others only in the ring.
  ghost predicate RootOk(ring: seq<nat>, m: Mem, p: nat, up: nat) {
    && Ring(m.fd, m.bk, ring) && ring[0] == p && p != 0 && up != 0 && At(m.par, p) == up
    && forall i :: 1 <= i < |ring| ==> RingOnly(m, ring[i])
  }

  predicate RingOnly(m: Mem, x: nat) { x != 0 && At(m.par, x) == 0 && At(m.c0, x) == 0 && At(m.c1, x) == 0 }

  predicate SameFields(m: Mem, m': Mem, x: nat) {
    && At(m'.fd, x) == At(m.fd, x) && At(m'.bk, x) == At(m.bk, x) && At(m'.par, x) == At(m.par, x)
    && At(m'.c0, x) == At(m.c0, x) && At(m'.c1, x) == At(m.c1, x)
  }

  lemma RootFrame(ring: seq<nat>, m: Mem, m': Mem, p: nat, up: nat)
    requires RootOk(ring, m, p, up) && forall x :: x in ring ==> SameFields(m, m', x)
    ensures RootOk(ring, m', p, up)
  {
    RingFrame(m.fd, m.bk, m'.fd, m'.bk, ring);
    assert p in ring;
    forall i | 1 <= i < |ring| ensures RingOnly(m', ring[i]) { assert RingOnly(m, ring[i]) && ring[i] in ring; }
  }

  lemma {:induction false} RepFrame(t: Tree, m: Mem, m': Mem, p: nat, up: nat)
    requires Rep(t, m, p, up) && forall x :: In(t, x) ==> SameFields(m, m', x)
    ensures Rep(t, m', p, up)
    decreases t
  {
    if t.Node? {
      assert forall x :: x in t.ring ==> In(t, x) && SameFields(m, m', x);
      RootFrame(t.ring, m, m', p, up);
      assert p in t.ring;
      RepFrame(t.left, m, m', At(m.c0, p), p);
      RepFrame(t.right, m, m', At(m.c1, p), p);
    }
  }

  lemma {:induction false} NoZero(t: Tree, m: Mem, p: nat, up: nat)
    requires Rep(t, m, p, up)
    ensures !In(t, 0)
    decreases t
  {
    if t.Node? {
      forall i | 0 <= i < |t.ring| ensures t.ring[i] != 0 { if i > 0 { assert RingOnly(m, t.ring[i]); } }
      NoZero(t.left, m, At(m.c0, p), p);
      NoZero(t.right, m, At(m.c1, p), p);
    }
  }

  // -- Insertion -------------------------------------------------------------

  function Insert(t: Tree, sz: Links, k: int, x: nat): Tree
    decreases t
  {
    match t
    case Nil => Node([x], Nil, Nil)
    case Node(ring, l, r) =>
      if |ring| == 0 || k < 0 then (if |ring| == 0 then t else Node(Inserted(ring, x), l, r))
      else if At(sz, ring[0]) == At(sz, x) then Node(Inserted(ring, x), l, r)
      else if Bit(At(sz, x), k) == 0 then Node(ring, Insert(l, sz, k - 1, x), r)
      else Node(ring, l, Insert(r, sz, k - 1, x))
  }

  lemma InsertedMembers(c: seq<nat>, x: nat)
    requires |c| > 0
    ensures forall y :: y in Inserted(c, x) <==> y in c || y == x
  {
    assert c == [c[0]] + c[1..];
  }

  lemma {:induction false} InsertOk(t: Tree, sz: Links, k: int, pre: nat, x: nat)
    requires TrieOk(t, sz, k, pre) && k >= -1 && Shr(At(sz, x), k + 1) == pre
    ensures TrieOk(Insert(t, sz, k, x), sz, k, pre)
    ensures forall y :: In(Insert(t, sz, k, x), y) <==> In(t, y) || y == x
    decreases t
  {
    if t.Node? {
      var s := At(sz, x);
      if k < 0 || At(sz, t.ring[0]) == s {
        InsertedMembers(t.ring, x);
        assert k < 0 ==> At(sz, t.ring[0]) == s;
      } else if Bit(s, k) == 0 {
        InsertOk(t.left, sz, k - 1, 2 * pre, x);
      } else {
        InsertOk(t.right, sz, k - 1, 2 * pre + 1, x);
      }
    }
  }

  // Where a chunk is linked: below the node t on side b, or into its ring.
  datatype Spot = Child(t: nat, b: nat) | Same(t: nat)

  function FindSpot(t: Tree, sz: Links, k: int, x: nat): Spot
    requires t.Node?
    decreases t
  {
    if |t.ring| == 0 then Same(0)
    else if k < 0 || At(sz, t.ring[0]) == At(sz, x) then Same(t.ring[0])
    else if Bit(At(sz, x), k) == 0 then (if t.left.Nil? then Child(t.ring[0], 0) else FindSpot(t.left, sz, k - 1, x))
    else if t.right.Nil? then Child(t.ring[0], 1) else FindSpot(t.right, sz, k - 1, x)
  }

  // The writes that link x there.
  function Put(m: Mem, spot: Spot, x: nat): Mem {
    var m0 := m.(c0 := m.c0[x := 0], c1 := m.c1[x := 0]);
    match spot
    case Child(t, b) =>
      var m1 := m0.(par := m0.par[x := t], fd := m0.fd[x := x], bk := m0.bk[x := x]);
      if b == 0 then m1.(c0 := m1.c0[t := x]) else m1.(c1 := m1.c1[t := x])
    case Same(t) =>
      var f := At(m.fd, t);
      m0.(fd := m0.fd[t := x][x := f], bk := m0.bk[f := x][x := t], par := m0.par[x := 0])
  }

  // Only x and chunks of the tree are written.
  lemma {:induction false} PutFrame(t: Tree, m: Mem, sz: Links, k: int, pre: nat, p: nat, up: nat, x: nat, y: nat)
    requires t.Node? && Rep(t, m, p, up) && TrieOk(t, sz, k, pre) && y != x && !In(t, y)
    ensures SameFields(m, Put(m, FindSpot(t, sz, k, x), x), y)
    decreases t
  {
    if k < 0 || At(sz, t.ring[0]) == At(sz, x) {
      SameFrame(t.ring, m, p, up, x, y);
      InsertSame(t, m, sz, k, pre, p, up, x);
      hide *;
    } else {
      SpotDown(t, m, sz, k, pre, p, up, x);
      assert p in t.ring && p != y && !In(t.left, y) && !In(t.right, y);
      hide Rep, TrieOk, FindSpot, Put, In, Bit;
      if Bit(At(sz, x), k) == 0 {
        if t.left.Nil? { ChildFrame(m, p, 0, x, y); }
          else { PutFrame(t.left, m, sz, k - 1, 2 * pre, At(m.c0, p), p, x, y); }
      } else {
        if t.right.Nil? { ChildFrame(m, p, 1, x, y); }
          else { PutFrame(t.right, m, sz, k - 1, 2 * pre + 1, At(m.c1, p), p, x, y); }
      }
    }
  }

  lemma NewLeaf(m: Mem, x: nat, up: nat, b: nat)
    requires up != 0 && x != 0 && up != x
    ensures Rep(Node([x], Nil, Nil), Put(m, Child(up, b), x), x, up)
  {
    OneLeaf(Put(m, Child(up, b), x), x, up);
  }

  lemma OneLeaf(m: Mem, x: nat, up: nat)
    requires At(m.fd, x) == x && At(m.bk, x) == x && At(m.c0, x) == 0 && At(m.c1, x) == 0 && At(m.par, x) == up
             && up != 0 && x != 0
    ensures Rep(Node([x], Nil, Nil), m, x, up)
  {
    RingOne(m.fd, m.bk, x);
  }

  lemma PutSame(ring: seq<nat>, m: Mem, p: nat, up: nat, x: nat)
    requires RootOk(ring, m, p, up) && x != 0 && x !in ring
    ensures RootOk(Inserted(ring, x), Put(m, Same(p), x), p, up)
    ensures At(Put(m, Same(p), x).c0, p) == At(m.c0, p) && At(Put(m, Same(p), x).c1, p) == At(m.c1, p)
  {
    RingInsert(m.fd, m.bk, ring, x);
    var m', c := Put(m, Same(p), x), Inserted(ring, x);
    assert p in ring;
    forall i | 1 <= i < |c|
      ensures RingOnly(m', c[i])
    {
      if i > 1 {
        assert c[i] == ring[i - 1] && ring[i - 1] in ring;
        assert RingOnly(m, ring[i - 1]);
      }
    }
  }

  // Writes below one side of a node leave its ring and the other side alone.
  ghost predicate OneSide(t: Tree, m: Mem, m': Mem, p: nat, left: bool) {
    && t.Node?
    && (forall y :: (y in t.ring || In(if left then t.right else t.left, y)) && y != p ==> SameFields(m, m', y))
    && At(m'.fd, p) == At(m.fd, p) && At(m'.bk, p) == At(m.bk, p) && At(m'.par, p) == At(m.par, p)
    && (if left then At(m'.c1, p) == At(m.c1, p) else At(m'.c0, p) == At(m.c0, p))
  }

  lemma KeepNode(t: Tree, m: Mem, m': Mem, sz: Links, k: int, pre: nat, p: nat, up: nat, left: bool)
    requires Rep(t, m, p, up) && TrieOk(t, sz, k, pre) && OneSide(t, m, m', p, left)
    ensures RootOk(t.ring, m', p, up)
    ensures if left then Rep(t.right, m', At(m'.c1, p), p) else Rep(t.left, m', At(m'.c0, p), p)
  {
    Apart(t, sz, k, pre, p);
    assert p in t.ring;
    RingFrame(m.fd, m.bk, m'.fd, m'.bk, t.ring);
    forall i | 1 <= i < |t.ring|
      ensures RingOnly(m', t.ring[i])
    {
      assert RingOnly(m, t.ring[i]) && t.ring[i] in t.ring && t.ring[i] != p;
    }
    if left { RepFrame(t.right, m, m', At(m.c1, p), p); } else { RepFrame(t.left, m, m', At(m.c0, p), p); }
  }

  lemma SpotDown(t: Tree, m: Mem, sz: Links, k: int, pre: nat, p: nat, up: nat, x: nat)
    requires t.Node? && Rep(t, m, p, up) && TrieOk(t, sz, k, pre) && k >= 0 && At(sz, t.ring[0]) != At(sz, x)
    ensures p in t.ring && TrieOk(t.left, sz, k - 1, 2 * pre) && TrieOk(t.right, sz, k - 1, 2 * pre + 1)
    ensures Rep(t.left, m, At(m.c0, p), p) && Rep(t.right, m, At(m.c1, p), p)
    ensures FindSpot(t, sz, k, x) ==
              if Bit(At(sz, x), k) == 0 then (if t.left.Nil? then Child(p, 0) else FindSpot(t.left, sz, k - 1, x))
              else if t.right.Nil? then Child(p, 1) else FindSpot(t.right, sz, k - 1, x)
  {
  }

  lemma PutOneSide(t: Tree, m: Mem, sz: Links, k: int, pre: nat, p: nat, up: nat, x: nat)
    requires t.Node? && Rep(t, m, p, up) && TrieOk(t, sz, k, pre) && !In(t, x) && k >= 0
             && At(sz, t.ring[0]) != At(sz, x)
    ensures OneSide(t, m, Put(m, FindSpot(t, sz, k, x), x), p, Bit(At(sz, x), k) == 0)
  {
    var left := Bit(At(sz, x), k) == 0;
    var other := if left then t.right else t.left;
    var m' := Put(m, FindSpot(t, sz, k, x), x);
    forall y | (y in t.ring || In(other, y)) && y != p
      ensures SameFields(m, m', y)
    {
      SideFrame(t, m, sz, k, pre, p, up, x, y);
    }
    SideFrame(t, m, sz, k, pre, p, up, x, p);
  }

  lemma ChildFrame(m: Mem, p: nat, b: nat, x: nat, y: nat)
    requires y != x
    ensures y != p ==> SameFields(m, Put(m, Child(p, b), x), y)
    ensures At(Put(m, Child(p, b), x).fd, y) == At(m.fd, y) && At(Put(m, Child(p, b), x).bk, y) == At(m.bk, y)
    ensures At(Put(m, Child(p, b), x).par, y) == At(m.par, y)
    ensures if b == 0 then At(Put(m, Child(p, b), x).c1, y) == At(m.c1, y)
            else At(Put(m, Child(p, b), x).c0, y) == At(m.c0, y)
  {
  }

  // What linking x below one side does to the fields of y outside that side.
  lemma SideFrame(t: Tree, m: Mem, sz: Links, k: int, pre: nat, p: nat, up: nat, x: nat, y: nat)
    requires t.Node? && Rep(t, m, p, up) && TrieOk(t, sz, k, pre) && !In(t, x) && k >= 0
             && At(sz, t.ring[0]) != At(sz, x)
    requires y in t.ring || In(if Bit(At(sz, x), k) == 0 then t.right else t.left, y)
    ensures var m' := Put(m, FindSpot(t, sz, k, x), x);
            && (y != p ==> SameFields(m, m', y))
            && At(m'.fd, y) == At(m.fd, y) && At(m'.bk, y) == At(m.bk, y) && At(m'.par, y) == At(m.par, y)
            && if Bit(At(sz, x), k) == 0 then At(m'.c1, y) == At(m.c1, y) else At(m'.c0, y) == At(m.c0, y)
  {
    SpotDown(t, m, sz, k, pre, p, up, x);
    Apart(t, sz, k, pre, y);
    assert In(t, y) && y != x;
    hide Rep, TrieOk, FindSpot, Put, In, Bit;
    if Bit(At(sz, x), k) == 0 {
      if t.left.Nil? { ChildFrame(m, p, 0, x, y); }
        else { PutFrame(t.left, m, sz, k - 1, 2 * pre, At(m.c0, p), p, x, y); }
    } else {
      if t.right.Nil? { ChildFrame(m, p, 1, x, y); }
        else { PutFrame(t.right, m, sz, k - 1, 2 * pre + 1, At(m.c1, p), p, x, y); }
    }
  }

  lemma {:induction false} PutRep(t: Tree, m: Mem, sz: Links, k: int, pre: nat, p: nat, up: nat, x: nat)
    requires t.Node? && Rep(t, m, p, up) && TrieOk(t, sz, k, pre) && x != 0 && !In(t, x) && up != x
    ensures Rep(Insert(t, sz, k, x), Put(m, FindSpot(t, sz, k, x), x), p, up)
    decreases t
  {
    if k < 0 || At(sz, t.ring[0]) == At(sz, x) {
      PutSameRep(t, m, sz, k, pre, p, up, x);
      InsertSame(t, m, sz, k, pre, p, up, x);
      hide *;
    } else {
      var m', left := Put(m, FindSpot(t, sz, k, x), x), Bit(At(sz, x), k) == 0;
      PutOneSide(t, m, sz, k, pre, p, up, x);
      KeepNode(t, m, m', sz, k, pre, p, up, left);
      PutChild(t, m, sz, k, pre, p, up, x);
      SpotDown(t, m, sz, k, pre, p, up, x);
      InsertDown(t, sz, k, x);
      hide TrieOk, FindSpot, Put, In, Insert, Bit, OneSide, RootOk;
      if left {
        if t.left.Nil? { NewLeaf(m, x, p, 0); } else { PutRep(t.left, m, sz, k - 1, 2 * pre, At(m.c0, p), p, x); }
      } else {
        if t.right.Nil? { NewLeaf(m, x, p, 1); } else { PutRep(t.right, m, sz, k - 1, 2 * pre + 1, At(m.c1, p), p, x); }
      }
    }
  }

  lemma SameFrame(ring: seq<nat>, m: Mem, p: nat, up: nat, x: nat, y: nat)
    requires RootOk(ring, m, p, up) && y !in ring && y != x
    ensures SameFields(m, Put(m, Same(p), x), y)
  {
    RingAt(m.fd, m.bk, ring, 0);
    assert After(ring, 0) in ring && ring[0] in ring;
  }

  lemma InsertSame(t: Tree, m: Mem, sz: Links, k: int, pre: nat, p: nat, up: nat, x: nat)
    requires t.Node? && Rep(t, m, p, up) && (k < 0 || At(sz, t.ring[0]) == At(sz, x))
    ensures Insert(t, sz, k, x) == Node(Inserted(t.ring, x), t.left, t.right) && FindSpot(t, sz, k, x) == Same(p)
  {
  }

  lemma InsertDown(t: Tree, sz: Links, k: int, x: nat)
    requires t.Node? && |t.ring| > 0 && k >= 0 && At(sz, t.ring[0]) != At(sz, x)
    ensures Insert(t, sz, k, x) ==
              if Bit(At(sz, x), k) == 0 then Node(t.ring, if t.left.Nil? then Node([x], Nil, Nil)
                else Insert(t.left, sz, k - 1, x), t.right)
              else Node(t.ring, t.left, if t.right.Nil? then Node([x], Nil, Nil) else Insert(t.right, sz, k - 1, x))
  {
  }

  lemma PutSameRep(t: Tree, m: Mem, sz: Links, k: int, pre: nat, p: nat, up: nat, x: nat)
    requires t.Node? && Rep(t, m, p, up) && TrieOk(t, sz, k, pre) && x != 0 && !In(t, x) && up != x
    ensures Rep(Node(Inserted(t.ring, x), t.left, t.right), Put(m, Same(p), x), p, up)
  {
    var m' := Put(m, Same(p), x);
    PutSame(t.ring, m, p, up, x);
    RingAt(m.fd, m.bk, t.ring, 0);
    assert After(t.ring, 0) in t.ring && p in t.ring;
    forall y | In(t.left, y) || In(t.right, y)
      ensures SameFields(m, m', y)
    {
      Apart(t, sz, k, pre, y);
    }
    RepFrame(t.left, m, m', At(m.c0, p), p);
    RepFrame(t.right, m, m', At(m.c1, p), p);
  }

  // The child pointer on the side x goes to.
  lemma PutChild(t: Tree, m: Mem, sz: Links, k: int, pre: nat, p: nat, up: nat, x: nat)
    requires t.Node? && Rep(t, m, p, up) && TrieOk(t, sz, k, pre) && !In(t, x) && k >= 0
             && At(sz, t.ring[0]) != At(sz, x)
    ensures TrieOk(t.left, sz, k - 1, 2 * pre) && TrieOk(t.right, sz, k - 1, 2 * pre + 1)
    ensures !In(t.left, x) && !In(t.right, x) && p != x
    ensures var m' := Put(m, FindSpot(t, sz, k, x), x);
            if Bit(At(sz, x), k) == 0 then (t.left.Node? ==> At(m'.c0, p) == At(m.c0, p))
                                           && (t.left.Nil? ==> At(m'.c0, p) == x)
            else (t.right.Node? ==> At(m'.c1, p) == At(m.c1, p)) && (t.right.Nil? ==> At(m'.c1, p) == x)
  {
    Apart(t, sz, k, pre, p);
    assert p in t.ring;
    if Bit(At(sz, x), k) == 0 {
      if t.left.Node? { PutFrame(t.left, m, sz, k - 1, 2 * pre, At(m.c0, p), p, x, p); }
    } else {
      if t.right.Node? { PutFrame(t.right, m, sz, k - 1, 2 * pre + 1, At(m.c1, p), p, x, p); }
    }
  }
}
