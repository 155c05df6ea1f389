// Unlinking a chunk from a tree bin of src/lj_alloc.c: a ring neighbour or a
// leaf from below takes the place of a tree node.
module AllocUntree {
  import opened AllocRing
  import opened AllocBits
  import opened AllocTree

  predicate HasChild(t: Tree) { t.Node? && (t.left.Node? || t.right.Node?) }

  // The leaf reached by going right if possible, else left.
  function Leaf(t: Tree): seq<nat>
    requires t.Node?
    decreases t
  {
    if t.right.Node? then Leaf(t.right) else if t.left.Node? then Leaf(t.left) else t.ring
  }

  function DropLeaf(t: Tree): (d: Tree)
    requires t.Node?
    ensures HasChild(t) ==> d.Node? && d.ring == t.ring
    ensures !HasChild(t) ==> d.Nil?
    decreases t
  {
    if t.right.Node? then Node(t.ring, t.left, DropLeaf(t.right))
    else if t.left.Node? then Node(t.ring, DropLeaf(t.left), t.right)
    else Nil
  }

  // The leaf's first chunk, and the node and side it hangs from.
  datatype Place = Place(r: nat, q: nat, b: nat)

  function LeafPlace(t: Tree, q: nat, b: nat): Place
    requires t.Node?
    decreases t
  {
    var p := if |t.ring| > 0 then t.ring[0] else 0;
    if t.right.Node? then LeafPlace(t.right, p, 1) else if t.left.Node? then LeafPlace(t.left, p, 0) else Place(p, q, b)
  }

  // The first chunk of the root's ring is removed.
  function RemoveHead(t: Tree): Tree
    requires t.Node? && |t.ring| > 0
  {
    if |t.ring| > 1 then Node([t.ring[|t.ring| - 1]] + t.ring[1..|t.ring| - 1], t.left, t.right)
    else if !HasChild(t) then Nil
    else
      var d := DropLeaf(t);
      Node(Leaf(t), d.left, d.right)
  }

  function IndexOf(c: seq<nat>, x: nat): (k: nat)
    requires x in c
    ensures k < |c| && c[k] == x
  {
    if c[0] == x then 0 else 1 + IndexOf(c[1..], x)
  }

  function Remove(t: Tree, x: nat): Tree
    decreases t
  {
    if t.Nil? || |t.ring| == 0 then t
    else if t.ring[0] == x then RemoveHead(t)
    else if x in t.ring then Node(Without(t.ring, IndexOf(t.ring, x)), t.left, t.right)
    else if In(t.left, x) then Node(t.ring, Remove(t.left, x), t.right)
    else Node(t.ring, t.left, Remove(t.right, x))
  }

  // -- The trie stays one ----------------------------------------------------

  // The leaf taken out: its chunks and its place in the order of sizes.
  ghost predicate LeafOk(t: Tree, d: Tree, leaf: seq<nat>, sz: Links, k: int, pre: nat) {
    && SameSize(leaf, sz) && k >= -1 && Shr(At(sz, leaf[0]), k + 1) == pre
    && (forall y :: In(t, y) <==> In(d, y) || y in leaf)
    && (forall y :: In(d, y) ==> At(sz, y) != At(sz, leaf[0]))
  }

  lemma {:induction false} DropLeafOk(t: Tree, sz: Links, k: int, pre: nat)
    requires t.Node? && TrieOk(t, sz, k, pre)
    ensures TrieOk(DropLeaf(t), sz, k, pre)
    ensures LeafOk(t, DropLeaf(t), Leaf(t), sz, k, pre)
    decreases t
  {
    var leaf, d := Leaf(t), DropLeaf(t);
    if t.right.Node? {
      DropLeafOk(t.right, sz, k - 1, 2 * pre + 1);
      LeafUp(t, t.right, DropLeaf(t.right), leaf, sz, k, pre, 2 * pre + 1);
      assert NodeOk(d.ring, d.left, d.right, sz, k, pre);
    } else if t.left.Node? {
      DropLeafOk(t.left, sz, k - 1, 2 * pre);
      LeafUp(t, t.left, DropLeaf(t.left), leaf, sz, k, pre, 2 * pre);
      assert NodeOk(d.ring, d.left, d.right, sz, k, pre);
    }
  }

  lemma LeafUp(t: Tree, side: Tree, d: Tree, leaf: seq<nat>, sz: Links, k: int, pre: nat, pre': nat)
    requires t.Node? && TrieOk(t, sz, k, pre) && side.Node? && LeafOk(side, d, leaf, sz, k - 1, pre') && pre' / 2 == pre
    requires (side == t.right && pre' == 2 * pre + 1) || (side == t.left && t.right.Nil?)
    ensures var up := if side == t.right then Node(t.ring, t.left, d) else Node(t.ring, d, t.right);
            LeafOk(t, up, leaf, sz, k, pre)
  {
    assert Shr(At(sz, leaf[0]), k + 1) == Shr(At(sz, leaf[0]), k) / 2;
    assert leaf[0] in leaf;
    if side == t.right {
      var up := Node(t.ring, t.left, d);
      forall y | In(up, y)
        ensures At(sz, y) != At(sz, leaf[0])
      {
        if In(t.left, y) { LeftSmaller(t, sz, k, pre, y, leaf[0]); }
      }
    }
  }

  lemma RemoveHeadOk(t: Tree, sz: Links, k: int, pre: nat)
    requires t.Node? && TrieOk(t, sz, k, pre) && Distinct(t.ring)
    ensures TrieOk(RemoveHead(t), sz, k, pre)
    ensures forall y :: In(RemoveHead(t), y) <==> In(t, y) && y != t.ring[0]
  {
    var x, n := t.ring[0], |t.ring|;
    Apart(t, sz, k, pre, x);
    if n > 1 {
      var c := [t.ring[n - 1]] + t.ring[1..n - 1];
      RotatedMembers(t.ring);
      assert NodeOk(c, t.left, t.right, sz, k, pre);
    } else if HasChild(t) {
      DropLeafOk(t, sz, k, pre);
      var d, leaf := DropLeaf(t), Leaf(t);
      assert In(d, x);
      assert NodeOk(leaf, d.left, d.right, sz, k, pre);
      assert x !in leaf;
      forall y
        ensures In(Node(leaf, d.left, d.right), y) <==> In(t, y) && y != x
      {
        Apart(d, sz, k, pre, y);
      }
    }
  }

  lemma RotatedMembers(c: seq<nat>)
    requires |c| > 1 && Distinct(c)
    ensures forall y :: y in [c[|c| - 1]] + c[1..|c| - 1] <==> y in c && y != c[0]
  {
    var mid := c[1..|c| - 1];
    assert c == [c[0]] + mid + [c[|c| - 1]];
    forall y | y in mid
      ensures y != c[0]
    {
      var i :| 0 <= i < |mid| && mid[i] == y;
      assert c[i + 1] == y;
    }
  }

  lemma WithoutMembers(c: seq<nat>, k: nat)
    requires k < |c| && Distinct(c)
    ensures forall y :: y in Without(c, k) <==> y in c && y != c[k]
  {
    assert c == c[..k] + [c[k]] + c[k + 1..];
    forall y | y in Without(c, k)
      ensures y != c[k]
    {
      var i :| 0 <= i < |c| - 1 && Without(c, k)[i] == y;
      assert y == c[if i < k then i else i + 1];
    }
  }

  // Rings have no repetitions; this is part of being represented.
  ghost predicate Rings(t: Tree)
    decreases t
  {
    t.Node? ==> |t.ring| > 0 && Distinct(t.ring) && Rings(t.left) && Rings(t.right)
  }

  lemma {:induction false} RepRings(t: Tree, m: Mem, p: nat, up: nat)
    requires Rep(t, m, p, up)
    ensures Rings(t)
    decreases t
  {
    if t.Node? {
      RepRings(t.left, m, At(m.c0, p), p);
      RepRings(t.right, m, At(m.c1, p), p);
    }
  }

  lemma {:induction false} RemoveOk(t: Tree, sz: Links, k: int, pre: nat, x: nat)
    requires TrieOk(t, sz, k, pre) && Rings(t) && In(t, x)
    ensures TrieOk(Remove(t, x), sz, k, pre)
    ensures forall y :: In(Remove(t, x), y) <==> In(t, y) && y != x
    decreases t
  {
    Apart(t, sz, k, pre, x);
    if t.ring[0] == x {
      RemoveHeadOk(t, sz, k, pre);
      hide TrieOk, RemoveHead, In, Without, IndexOf;
    } else if x in t.ring {
      RemoveMember(t, sz, k, pre, x);
    } else if In(t.left, x) {
      RemoveOk(t.left, sz, k - 1, 2 * pre, x);
      NodeShrinks(t.ring, t.left, t.right, Remove(t.left, x), t.right, sz, k, pre);
      hide NodeOk, Without, RemoveHead, IndexOf;
    } else {
      RemoveOk(t.right, sz, k - 1, 2 * pre + 1, x);
      NodeShrinks(t.ring, t.left, t.right, t.left, Remove(t.right, x), sz, k, pre);
      hide NodeOk, Without, RemoveHead, IndexOf;
    }
  }

  lemma RemoveMember(t: Tree, sz: Links, k: int, pre: nat, x: nat)
    requires TrieOk(t, sz, k, pre) && Rings(t) && t.Node? && x in t.ring && t.ring[0] != x
    ensures TrieOk(Remove(t, x), sz, k, pre)
    ensures forall y :: In(Remove(t, x), y) <==> In(t, y) && y != x
  {
    Apart(t, sz, k, pre, x);
    WithoutMembers(t.ring, IndexOf(t.ring, x));
    var c := Without(t.ring, IndexOf(t.ring, x));
    assert c[0] == t.ring[0];
    assert NodeOk(c, t.left, t.right, sz, k, pre);
  }

  lemma NodeShrinks(ring: seq<nat>, l: Tree, r: Tree, l': Tree, r': Tree, sz: Links, k: int, pre: nat)
    requires NodeOk(ring, l, r, sz, k, pre) && (l.Nil? ==> l'.Nil?) && (r.Nil? ==> r'.Nil?)
    requires forall y :: (In(l', y) ==> In(l, y)) && (In(r', y) ==> In(r, y))
    ensures NodeOk(ring, l', r', sz, k, pre)
  {
    hide In, SameSize, Shr;
  }

  // -- The links follow ------------------------------------------------------

  function CutRing(m: Mem, x: nat): Mem {
    var f, b := At(m.fd, x), At(m.bk, x);
    m.(bk := m.bk[f := b], fd := m.fd[b := f])
  }

  function SetChild(m: Mem, q: nat, b: nat, v: nat): Mem {
    if b == 0 then m.(c0 := m.c0[q := v]) else m.(c1 := m.c1[q := v])
  }

  // r takes over the children of x.
  function Adopt(m: Mem, x: nat, r: nat, up: nat): Mem {
    var m1 := m.(par := m.par[r := up]);
    var l := At(m1.c0, x);
    var m2 := if l != 0 then m1.(c0 := m1.c0[r := l], par := m1.par[l := r]) else m1;
    var h := At(m2.c1, x);
    if h != 0 then m2.(c1 := m2.c1[r := h], par := m2.par[h := r]) else m2
  }

  // A leaf's ring hangs from nowhere once its place is cleared.
  ghost predicate Loose(ring: seq<nat>, m: Mem) {
    && Ring(m.fd, m.bk, ring) && ring[0] != 0 && At(m.c0, ring[0]) == 0 && At(m.c1, ring[0]) == 0
    && forall i :: 1 <= i < |ring| ==> RingOnly(m, ring[i])
  }

  lemma LooseRoot(ring: seq<nat>, m: Mem, p: nat, up: nat)
    requires RootOk(ring, m, p, up) && At(m.c0, p) == 0 && At(m.c1, p) == 0
    ensures Loose(ring, m)
  {
  }

  lemma LooseFrame(ring: seq<nat>, m: Mem, m': Mem)
    requires Loose(ring, m) && forall x :: x in ring ==> SameFields(m, m', x)
    ensures Loose(ring, m')
  {
    RingFrame(m.fd, m.bk, m'.fd, m'.bk, ring);
    assert ring[0] in ring;
    forall i | 1 <= i < |ring| ensures RingOnly(m', ring[i]) { assert RingOnly(m, ring[i]) && ring[i] in ring; }
  }

  lemma {:induction false} LeafIn(t: Tree, q: nat, b: nat, x: nat)
    requires t.Node? && Rings(t) && (x in Leaf(t) || x == LeafPlace(t, q, b).r)
    ensures In(t, x)
    decreases t
  {
    if t.right.Node? { LeafIn(t.right, t.ring[0], 1, x); } else if t.left.Node? { LeafIn(t.left, t.ring[0], 0, x); }
  }

  // Only the child field of one node above the leaf is cleared.
  lemma {:induction false} PlaceIn(t: Tree, q: nat, b: nat)
    requires t.Node? && Rings(t)
    ensures var w := LeafPlace(t, q, b); |Leaf(t)| > 0 && w.r == Leaf(t)[0]
                                         && (if HasChild(t) then In(t, w.q) else w.q == q && w.b == b)
    decreases t
  {
    if t.right.Node? { PlaceIn(t.right, t.ring[0], 1); } else if t.left.Node? { PlaceIn(t.left, t.ring[0], 0); }
  }

  lemma {:induction false} DropLeafRep(t: Tree, m: Mem, sz: Links, k: int, pre: nat, p: nat, up: nat)
    requires HasChild(t) && Rep(t, m, p, up) && TrieOk(t, sz, k, pre)
    ensures var w := LeafPlace(t, 0, 0); var m' := SetChild(m, w.q, w.b, 0);
            Rep(DropLeaf(t), m', p, up) && Loose(Leaf(t), m')
    decreases t
  {
    RepRings(t, m, p, up);
    var w := LeafPlace(t, 0, 0);
    var m' := SetChild(m, w.q, w.b, 0);
    var right := t.right.Node?;
    var side := if right then t.right else t.left;
    var at := if right then At(m.c1, p) else At(m.c0, p);
    PlaceIn(side, p, if right then 1 else 0);
    assert p in t.ring;
    DropOneSide(t, m, sz, k, pre, p, up);
    KeepNode(t, m, m', sz, k, pre, p, up, !right);
    if !HasChild(side) {
      LeafLoose(t, m, sz, k, pre, p, up, side, at, m');
    } else {
      DropLeafRep(side, m, sz, k - 1, if right then 2 * pre + 1 else 2 * pre, at, p);
      PlaceSame(side, p, if right then 1 else 0);
      Apart(t, sz, k, pre, p);
    }
  }

  // With children the place does not depend on where the tree hangs.
  lemma {:induction false} PlaceSame(t: Tree, q: nat, b: nat)
    requires HasChild(t)
    ensures LeafPlace(t, q, b) == LeafPlace(t, 0, 0)
  {
  }

  lemma LeafLoose(t: Tree, m: Mem, sz: Links, k: int, pre: nat, p: nat, up: nat, side: Tree, at: nat, m': Mem)
    requires t.Node? && Rep(t, m, p, up) && TrieOk(t, sz, k, pre) && side.Node? && !HasChild(side)
    requires (side == t.right && at == At(m.c1, p) && m' == SetChild(m, p, 1, 0))
             || (side == t.left && at == At(m.c0, p) && m' == SetChild(m, p, 0, 0))
    ensures Loose(side.ring, m')
  {
    assert Rep(side, m, at, p) && side.left.Nil? && side.right.Nil?;
    assert Rep(side.left, m, At(m.c0, at), at) && Rep(side.right, m, At(m.c1, at), at);
    LooseRoot(side.ring, m, at, p);
    assert p in t.ring;
    forall x | x in side.ring
      ensures SameFields(m, m', x)
    {
      assert In(side, x);
      Apart(t, sz, k, pre, x);
      Apart(t, sz, k, pre, p);
    }
    LooseFrame(side.ring, m, m');
  }

  lemma PlaceBelow(t: Tree, m: Mem, p: nat, up: nat)
    requires HasChild(t) && Rep(t, m, p, up) && Rings(t)
    ensures var w, right := LeafPlace(t, 0, 0), t.right.Node?;
            p in t.ring && (In(if right then t.right else t.left, w.q) || (w.q == p && w.b == if right then 1 else 0))
  {
    PlaceIn(if t.right.Node? then t.right else t.left, p, if t.right.Node? then 1 else 0);
    hide In, Rings;
  }

  lemma DropOneSide(t: Tree, m: Mem, sz: Links, k: int, pre: nat, p: nat, up: nat)
    requires HasChild(t) && Rep(t, m, p, up) && TrieOk(t, sz, k, pre) && Rings(t)
    ensures var w := LeafPlace(t, 0, 0);
            OneSide(t, m, SetChild(m, w.q, w.b, 0), p, t.right.Nil?)
  {
    var right, w := t.right.Node?, LeafPlace(t, 0, 0);
    var side, other := if right then t.right else t.left, if right then t.left else t.right;
    PlaceBelow(t, m, p, up);
    hide TrieOk, Rep, Rings, LeafPlace, HasChild, In;
    Apart(t, sz, k, pre, p);
    forall y | (y in t.ring || In(other, y)) && y != p
      ensures y != w.q
    {
      Apart(t, sz, k, pre, y);
    }
  }

  // A subtree changes its parent.
  lemma Reparent(t: Tree, m: Mem, m': Mem, p: nat, up: nat, up': nat)
    requires t.Node? && Rep(t, m, p, up) && up' != 0 && At(m'.par, p) == up'
    requires At(m'.fd, p) == At(m.fd, p) && At(m'.bk, p) == At(m.bk, p) && At(m'.c0, p) == At(m.c0, p)
             && At(m'.c1, p) == At(m.c1, p)
    requires forall y :: In(t, y) && y != p ==> SameFields(m, m', y)
    requires !In(t.left, p) && !In(t.right, p)
    ensures Rep(t, m', p, up')
  {
    assert p in t.ring;
    assert forall y :: y in t.ring ==> In(t, y);
    RingFrame(m.fd, m.bk, m'.fd, m'.bk, t.ring);
    forall i | 1 <= i < |t.ring|
      ensures RingOnly(m', t.ring[i])
    {
      assert RingOnly(m, t.ring[i]) && t.ring[i] in t.ring && t.ring[i] != p;
    }
    RepFrame(t.left, m, m', At(m.c0, p), p);
    RepFrame(t.right, m, m', At(m.c1, p), p);
  }

  // The fields that change when r takes the place of x.
  lemma AdoptFields(m: Mem, x: nat, r: nat, up: nat, y: nat)
    requires x != r && r != 0 && At(m.c0, r) == 0 && At(m.c1, r) == 0
    requires At(m.c0, x) != r && At(m.c1, x) != r && (At(m.c0, x) != 0 ==> At(m.c0, x) != At(m.c1, x))
    requires At(m.c0, x) != x && At(m.c1, x) != x
    ensures var m' := Adopt(m, x, r, up); var l, h := At(m.c0, x), At(m.c1, x);
            && At(m'.fd, y) == At(m.fd, y) && At(m'.bk, y) == At(m.bk, y)
            && (y != r ==> At(m'.c0, y) == At(m.c0, y) && At(m'.c1, y) == At(m.c1, y))
            && At(m'.c0, r) == l && At(m'.c1, r) == h && At(m'.par, r) == up
            && (l != 0 ==> At(m'.par, l) == r) && (h != 0 ==> At(m'.par, h) == r)
            && (y != r && y != l && y != h ==> At(m'.par, y) == At(m.par, y))
  {
  }

  // Ring, left and right have no chunk in common, and x is in none of them.
  ghost predicate Separate(ring: seq<nat>, l: Tree, h: Tree, x: nat) {
    && x !in ring && !In(l, x) && !In(h, x)
    && (forall y :: y in ring ==> !In(l, y) && !In(h, y))
    && (forall y :: In(l, y) ==> !In(h, y))
  }

  lemma RootNotBelow(t: Tree, sz: Links, k: int, pre: nat, m: Mem, p: nat, up: nat)
    requires t.Node? && TrieOk(t, sz, k, pre) && Rep(t, m, p, up)
    ensures !In(t.left, p) && !In(t.right, p) && In(t, p)
  {
    assert p in t.ring;
    Apart(t, sz, k, pre, p);
  }

  lemma AdoptRep(ring: seq<nat>, l: Tree, h: Tree, m: Mem, sz: Links, k: int, pre: nat, x: nat, up: nat)
    requires Loose(ring, m) && Rep(l, m, At(m.c0, x), x) && Rep(h, m, At(m.c1, x), x) && up != 0 && x != 0
    requires Separate(ring, l, h, x) && TrieOk(l, sz, k - 1, 2 * pre) && TrieOk(h, sz, k - 1, 2 * pre + 1)
    ensures Rep(Node(ring, l, h), Adopt(m, x, ring[0], up), ring[0], up)
  {
    var r := ring[0];
    var m' := Adopt(m, x, r, up);
    var pl, ph := At(m.c0, x), At(m.c1, x);
    assert r in ring;
    NoZero(l, m, pl, x);
    NoZero(h, m, ph, x);
    RootOrNil(l, sz, k - 1, 2 * pre, m, pl, x);
    RootOrNil(h, sz, k - 1, 2 * pre + 1, m, ph, x);
    hide Rep, TrieOk, In, Adopt, Loose, RootOk;
    LooseLeaf(ring, m);
    forall y ensures AdoptedAs(m, m', x, r, up, y) { AdoptFields(m, x, r, up, y); }
    AdoptedRing(ring, m, m', x, up, l, h, pl, ph);
    AdoptedSide(l, m, m', x, r, up, pl, pl, ph);
    AdoptedSide(h, m, m', x, r, up, ph, pl, ph);
    assert AdoptedAs(m, m', x, r, up, r);
    RepNode(ring, l, h, m', r, up);
  }

  lemma RepNode(ring: seq<nat>, l: Tree, h: Tree, m: Mem, p: nat, up: nat)
    requires RootOk(ring, m, p, up) && Rep(l, m, At(m.c0, p), p) && Rep(h, m, At(m.c1, p), p)
    ensures Rep(Node(ring, l, h), m, p, up)
  {
  }

  lemma LooseLeaf(ring: seq<nat>, m: Mem)
    requires Loose(ring, m)
    ensures |ring| > 0 && ring[0] != 0 && At(m.c0, ring[0]) == 0 && At(m.c1, ring[0]) == 0
  {
  }

  lemma RootOrNil(t: Tree, sz: Links, k: int, pre: nat, m: Mem, p: nat, up: nat)
    requires TrieOk(t, sz, k, pre) && Rep(t, m, p, up)
    ensures t.Node? ==> !In(t.left, p) && !In(t.right, p) && In(t, p)
    ensures t.Nil? ==> p == 0
  {
    if t.Node? { RootNotBelow(t, sz, k, pre, m, p, up); }
  }

  ghost predicate AdoptedAs(m: Mem, m': Mem, x: nat, r: nat, up: nat, y: nat) {
    var l, h := At(m.c0, x), At(m.c1, x);
    && At(m'.fd, y) == At(m.fd, y) && At(m'.bk, y) == At(m.bk, y)
    && (y != r ==> At(m'.c0, y) == At(m.c0, y) && At(m'.c1, y) == At(m.c1, y))
    && At(m'.c0, r) == l && At(m'.c1, r) == h && At(m'.par, r) == up
    && (l != 0 ==> At(m'.par, l) == r) && (h != 0 ==> At(m'.par, h) == r)
    && (y != r && y != l && y != h ==> At(m'.par, y) == At(m.par, y))
  }

  lemma AdoptedRing(ring: seq<nat>, m: Mem, m': Mem, x: nat, up: nat, l: Tree, h: Tree, pl: nat, ph: nat)
    requires Loose(ring, m) && up != 0 && pl == At(m.c0, x) && ph == At(m.c1, x)
    requires forall y :: AdoptedAs(m, m', x, ring[0], up, y)
    requires (pl != 0 ==> In(l, pl)) && (ph != 0 ==> In(h, ph)) && Separate(ring, l, h, x)
    ensures RootOk(ring, m', ring[0], up)
  {
    forall y | y in ring
      ensures At(m'.fd, y) == At(m.fd, y) && At(m'.bk, y) == At(m.bk, y)
    {
      assert AdoptedAs(m, m', x, ring[0], up, y);
    }
    RingFrame(m.fd, m.bk, m'.fd, m'.bk, ring);
    assert AdoptedAs(m, m', x, ring[0], up, ring[0]);
    forall i | 1 <= i < |ring|
      ensures RingOnly(m', ring[i])
    {
      assert RingOnly(m, ring[i]) && ring[i] in ring && ring[i] != ring[0];
      assert AdoptedAs(m, m', x, ring[0], up, ring[i]);
    }
  }

  lemma AdoptedSide(t: Tree, m: Mem, m': Mem, x: nat, r: nat, up: nat, p: nat, pl: nat, ph: nat)
    requires Rep(t, m, p, x) && pl == At(m.c0, x) && ph == At(m.c1, x) && (p == pl || p == ph) && r != 0
    requires forall y :: AdoptedAs(m, m', x, r, up, y)
    requires !In(t, r) && (t.Node? ==> !In(t.left, p) && !In(t.right, p))
    requires (p != pl ==> !In(t, pl)) && (p != ph ==> !In(t, ph))
    ensures Rep(t, m', p, r)
  {
    if t.Node? {
      assert AdoptedAs(m, m', x, r, up, p);
      assert p in t.ring && In(t, p);
      forall y | In(t, y) && y != p
        ensures SameFields(m, m', y)
      {
        assert AdoptedAs(m, m', x, r, up, y);
      }
      Reparent(t, m, m', p, x, r);
    }
  }

  // -- Removing a tree node --------------------------------------------------

  // The heir of the root of t, and the links once it has been cut out.
  function Heir(t: Tree, m: Mem): nat
    requires t.Node? && |t.ring| > 0
  {
    if |t.ring| > 1 then At(m.bk, t.ring[0]) else if HasChild(t) then LeafPlace(t, 0, 0).r else 0
  }

  function AfterCut(t: Tree, m: Mem): Mem
    requires t.Node? && |t.ring| > 0
  {
    if |t.ring| > 1 then CutRing(m, t.ring[0])
    else if HasChild(t) then SetChild(m, LeafPlace(t, 0, 0).q, LeafPlace(t, 0, 0).b, 0)
    else m
  }

  function Settled(t: Tree, m: Mem, up: nat): Mem
    requires t.Node? && |t.ring| > 0
  {
    if Heir(t, m) == 0 then AfterCut(t, m) else Adopt(AfterCut(t, m), t.ring[0], Heir(t, m), up)
  }

  lemma RingHeir(t: Tree, m: Mem, sz: Links, k: int, pre: nat, p: nat, up: nat)
    requires t.Node? && |t.ring| > 1 && Rep(t, m, p, up) && TrieOk(t, sz, k, pre)
    ensures Rep(RemoveHead(t), Settled(t, m, up), Heir(t, m), up) && Heir(t, m) != 0 && In(t, Heir(t, m))
  {
    var n := |t.ring|;
    var c, d := t.ring, [t.ring[n - 1]] + t.ring[..n - 1];
    var ring := [c[n - 1]] + c[1..n - 1];
    var m1 := CutRing(m, p);
    RingAt(m.fd, m.bk, c, 0);
    RingRotate(m.fd, m.bk, c);
    RingRemove(m.fd, m.bk, d, 1);
    assert d[1] == p && Without(d, 1) == ring;
    RotatedMembers(c);
    assert RingOnly(m, c[n - 1]);
    CutLoose(c, ring, m, p);
    CutBelow(t, m, sz, k, pre, p, up);
    forall y
      ensures y in c ==> !In(t.left, y) && !In(t.right, y)
      ensures In(t.left, y) ==> !In(t.right, y)
    {
      Apart(t, sz, k, pre, y);
    }
    AdoptRep(ring, t.left, t.right, m1, sz, k, pre, p, up);
  }

  lemma CutLoose(c: seq<nat>, ring: seq<nat>, m: Mem, p: nat)
    requires |c| > 1 && c[0] == p && Ring(m.fd, m.bk, c) && ring == [c[|c| - 1]] + c[1..|c| - 1]
    requires forall i :: 1 <= i < |c| ==> RingOnly(m, c[i])
    requires Ring(CutRing(m, p).fd, CutRing(m, p).bk, ring)
    ensures Loose(ring, CutRing(m, p))
  {
    assert RingOnly(m, c[|c| - 1]);
    forall i | 1 <= i < |ring|
      ensures RingOnly(CutRing(m, p), ring[i])
    {
      assert ring[i] == c[i] && RingOnly(m, c[i]);
    }
  }

  lemma CutBelow(t: Tree, m: Mem, sz: Links, k: int, pre: nat, p: nat, up: nat)
    requires t.Node? && |t.ring| > 1 && Rep(t, m, p, up) && TrieOk(t, sz, k, pre)
    ensures var m1 := CutRing(m, p);
            Rep(t.left, m1, At(m1.c0, p), p) && Rep(t.right, m1, At(m1.c1, p), p)
  {
    var m1 := CutRing(m, p);
    RingAt(m.fd, m.bk, t.ring, 0);
    assert After(t.ring, 0) in t.ring && Before(t.ring, 0) in t.ring;
    forall y | In(t.left, y) || In(t.right, y)
      ensures SameFields(m, m1, y)
    {
      Apart(t, sz, k, pre, y);
    }
    RepFrame(t.left, m, m1, At(m.c0, p), p);
    RepFrame(t.right, m, m1, At(m.c1, p), p);
  }

  lemma LeafSeparate(d: Tree, leaf: seq<nat>, sz: Links, k: int, pre: nat, p: nat)
    requires d.Node? && TrieOk(d, sz, k, pre) && p in d.ring && p !in leaf && forall y :: y in leaf ==> !In(d, y)
    ensures Separate(leaf, d.left, d.right, p)
  {
    forall y
      ensures y in leaf ==> !In(d.left, y) && !In(d.right, y)
      ensures In(d.left, y) ==> !In(d.right, y)
      ensures y == p ==> !In(d.left, y) && !In(d.right, y)
    {
      Apart(d, sz, k, pre, y);
    }
  }

  lemma LeafHeir(t: Tree, m: Mem, sz: Links, k: int, pre: nat, p: nat, up: nat)
    requires HasChild(t) && |t.ring| == 1 && Rep(t, m, p, up) && TrieOk(t, sz, k, pre)
    ensures Rep(RemoveHead(t), Settled(t, m, up), Heir(t, m), up) && Heir(t, m) != 0 && In(t, Heir(t, m))
  {
    var d, leaf := DropLeaf(t), Leaf(t);
    var m1 := AfterCut(t, m);
    RepRings(t, m, p, up);
    DropLeafRep(t, m, sz, k, pre, p, up);
    DropLeafOk(t, sz, k, pre);
    PlaceIn(t, 0, 0);
    LeafIn(t, 0, 0, Heir(t, m));
    assert p in d.ring && In(d, p);
    LeafSeparate(d, leaf, sz, k, pre, p);
    AdoptRep(leaf, d.left, d.right, m1, sz, k, pre, p, up);
  }

  lemma NodeRemoved(t: Tree, m: Mem, sz: Links, k: int, pre: nat, p: nat, up: nat)
    requires t.Node? && Rep(t, m, p, up) && TrieOk(t, sz, k, pre)
    ensures Rep(RemoveHead(t), Settled(t, m, up), Heir(t, m), up)
    ensures Heir(t, m) != 0 ==> In(t, Heir(t, m))
  {
    if |t.ring| > 1 { RingHeir(t, m, sz, k, pre, p, up); } else if HasChild(t) { LeafHeir(t, m, sz, k, pre, p, up); }
  }

  lemma AdoptFrame(m: Mem, x: nat, r: nat, up: nat, y: nat)
    requires y != r && (At(m.c0, x) != 0 ==> y != At(m.c0, x)) && (At(m.c1, x) != 0 ==> y != At(m.c1, x))
    ensures SameFields(m, Adopt(m, x, r, up), y)
  {
  }

  lemma CutFrame(t: Tree, m: Mem, p: nat, up: nat, y: nat)
    requires t.Node? && Rep(t, m, p, up) && !In(t, y)
    ensures In(t, p) && t.ring[0] == p && SameFields(m, AfterCut(t, m), y)
    ensures At(AfterCut(t, m).c0, p) != 0 ==> At(AfterCut(t, m).c0, p) == At(m.c0, p)
    ensures At(AfterCut(t, m).c1, p) != 0 ==> At(AfterCut(t, m).c1, p) == At(m.c1, p)
  {
    RepRings(t, m, p, up);
    assert p in t.ring && In(t, p);
    if |t.ring| > 1 {
      RingAt(m.fd, m.bk, t.ring, 0);
      assert After(t.ring, 0) in t.ring && Before(t.ring, 0) in t.ring;
    } else if HasChild(t) {
      PlaceIn(t, 0, 0);
    }
  }

  // Only chunks of the tree are written.
  lemma SettledFrame(t: Tree, m: Mem, sz: Links, k: int, pre: nat, p: nat, up: nat, up': nat, y: nat)
    requires t.Node? && Rep(t, m, p, up) && TrieOk(t, sz, k, pre) && !In(t, y)
    ensures SameFields(m, Settled(t, m, up'), y)
  {
    NodeRemoved(t, m, sz, k, pre, p, up);
    CutFrame(t, m, p, up, y);
    ChildIn(t, m, p, up);
    hide Rep, TrieOk, AfterCut, Heir, In, Adopt;
    if Heir(t, m) != 0 { AdoptFrame(AfterCut(t, m), p, Heir(t, m), up', y); }
  }

  lemma ChildIn(t: Tree, m: Mem, p: nat, up: nat)
    requires t.Node? && Rep(t, m, p, up)
    ensures At(m.c0, p) != 0 ==> In(t.left, At(m.c0, p)) && In(t, At(m.c0, p))
    ensures At(m.c1, p) != 0 ==> In(t.right, At(m.c1, p)) && In(t, At(m.c1, p))
  {
    if t.left.Node? { assert At(m.c0, p) in t.left.ring; }
    if t.right.Node? { assert At(m.c1, p) in t.right.ring; }
  }

  // -- Removing anywhere -----------------------------------------------------

  // The node whose first chunk is x.
  function NodeOf(t: Tree, x: nat): Tree
    decreases t
  {
    if t.Nil? || (|t.ring| > 0 && t.ring[0] == x) then t
    else if In(t.left, x) then NodeOf(t.left, x) else NodeOf(t.right, x)
  }

  predicate HeadIn(t: Tree, x: nat)
    decreases t
  {
    t.Node? && ((|t.ring| > 0 && t.ring[0] == x) || HeadIn(t.left, x) || HeadIn(t.right, x))
  }

  // The parent's child field that pointed to x points to r.
  function Hang(m: Mem, q: nat, x: nat, r: nat): Mem {
    if At(m.c0, q) == x then m.(c0 := m.c0[q := r]) else m.(c1 := m.c1[q := r])
  }

  // unlink_large_chunk for a tree node that is not the root of its bin.
  function Unlinked(t: Tree, m: Mem, x: nat): Mem
    requires NodeOf(t, x).Node? && |NodeOf(t, x).ring| > 0
  {
    var n := NodeOf(t, x);
    Hang(Settled(n, m, At(m.par, x)), At(m.par, x), x, Heir(n, m))
  }

  lemma {:induction false} HeadNode(t: Tree, m: Mem, sz: Links, k: int, pre: nat, p: nat, up: nat, x: nat)
    requires HeadIn(t, x) && Rep(t, m, p, up) && TrieOk(t, sz, k, pre)
    ensures In(t, x) && NodeOf(t, x).Node? && |NodeOf(t, x).ring| > 0 && NodeOf(t, x).ring[0] == x
    ensures forall y :: In(NodeOf(t, x), y) ==> In(t, y)
    ensures At(m.par, x) != 0 && (x != p ==> In(t, At(m.par, x))) && (x == p ==> At(m.par, x) == up)
    ensures exists k', pre' :: TrieOk(NodeOf(t, x), sz, k', pre') && Rep(NodeOf(t, x), m, x, At(m.par, x))
    decreases t
  {
    assert p in t.ring;
    if t.ring[0] != x {
      if HeadIn(t.left, x) {
        HeadNode(t.left, m, sz, k - 1, 2 * pre, At(m.c0, p), p, x);
      } else {
        HeadNode(t.right, m, sz, k - 1, 2 * pre + 1, At(m.c1, p), p, x);
        Apart(t, sz, k, pre, x);
      }
    }
  }

  // The frame of a removal: the node, and the child field of its parent.
  lemma UnlinkedFrame(t: Tree, m: Mem, sz: Links, k: int, pre: nat, p: nat, up: nat, x: nat, y: nat)
    requires HeadIn(t, x) && Rep(t, m, p, up) && TrieOk(t, sz, k, pre)
    requires NodeOf(t, x).Node? && |NodeOf(t, x).ring| > 0 && !In(NodeOf(t, x), y)
    ensures y != At(m.par, x) ==> SameFields(m, Unlinked(t, m, x), y)
    ensures At(Unlinked(t, m, x).fd, y) == At(m.fd, y) && At(Unlinked(t, m, x).bk, y) == At(m.bk, y)
    ensures At(Unlinked(t, m, x).par, y) == At(m.par, y)
    ensures var r := Heir(NodeOf(t, x), m);
            y == At(m.par, x) ==>
              if At(m.c0, y) == x then At(Unlinked(t, m, x).c0, y) == r && At(Unlinked(t, m, x).c1, y) == At(m.c1, y)
              else At(Unlinked(t, m, x).c1, y) == r && At(Unlinked(t, m, x).c0, y) == At(m.c0, y)
  {
    HeadNode(t, m, sz, k, pre, p, up, x);
    var k', pre' :| TrieOk(NodeOf(t, x), sz, k', pre') && Rep(NodeOf(t, x), m, x, At(m.par, x));
    var n, q := NodeOf(t, x), At(m.par, x);
    hide TrieOk, Rep, Settled, Heir, In, HeadIn, NodeOf;
    SettledFrame(n, m, sz, k', pre', x, q, q, y);
    var m1 := Settled(n, m, q);
    HangFrame(m1, q, x, Heir(n, m), y);
  }

  lemma HangFrame(m: Mem, q: nat, x: nat, r: nat, y: nat)
    ensures var m' := Hang(m, q, x, r);
            && (y != q ==> SameFields(m, m', y))
            && At(m'.fd, y) == At(m.fd, y) && At(m'.bk, y) == At(m.bk, y) && At(m'.par, y) == At(m.par, y)
            && (y == q ==> if At(m.c0, y) == x then At(m'.c0, y) == r && At(m'.c1, y) == At(m.c1, y)
                           else At(m'.c1, y) == r && At(m'.c0, y) == At(m.c0, y))
  {
  }

  lemma {:induction false} RemoveRep(t: Tree, m: Mem, sz: Links, k: int, pre: nat, p: nat, up: nat, x: nat)
    requires HeadIn(t, x) && Rep(t, m, p, up) && TrieOk(t, sz, k, pre) && x != p
    ensures NodeOf(t, x).Node? && |NodeOf(t, x).ring| > 0 && In(t, x)
    ensures Rep(Remove(t, x), Unlinked(t, m, x), p, up)
    decreases t
  {
    HeadNode(t, m, sz, k, pre, p, up, x);
    HeadSide(t, m, sz, k, pre, p, up, x);
    var left := HeadIn(t.left, x);
    var side, at := if left then t.left else t.right, if left then At(m.c0, p) else At(m.c1, p);
    var m' := Unlinked(t, m, x);
    RemoveOneSide(t, m, sz, k, pre, p, up, x);
    KeepNode(t, m, m', sz, k, pre, p, up, left);
    var pre' := if left then 2 * pre else 2 * pre + 1;
    if x == at {
      ChildRemoved(t, m, sz, k, pre, p, up, x);
    } else {
      RemoveRep(side, m, sz, k - 1, pre', at, p, x);
      ChildKept(t, m, sz, k, pre, p, up, x);
    }
  }

  // On which side of the root the node with head x is.
  lemma HeadSide(t: Tree, m: Mem, sz: Links, k: int, pre: nat, p: nat, up: nat, x: nat)
    requires HeadIn(t, x) && Rep(t, m, p, up) && TrieOk(t, sz, k, pre) && x != p
    ensures p in t.ring && x !in t.ring && (HeadIn(t.left, x) <==> In(t.left, x))
            && (HeadIn(t.left, x) || HeadIn(t.right, x))
    ensures HeadIn(t.left, x) ==> NodeOf(t, x) == NodeOf(t.left, x)
                                  && Remove(t, x) == Node(t.ring, Remove(t.left, x), t.right)
    ensures !HeadIn(t.left, x) ==> NodeOf(t, x) == NodeOf(t.right, x)
                                   && Remove(t, x) == Node(t.ring, t.left, Remove(t.right, x))
  {
    Apart(t, sz, k, pre, x);
    if HeadIn(t.left, x) {
      HeadNode(t.left, m, sz, k - 1, 2 * pre, At(m.c0, p), p, x);
    } else {
      HeadNode(t.right, m, sz, k - 1, 2 * pre + 1, At(m.c1, p), p, x);
    }
  }

  lemma RemoveOneSide(t: Tree, m: Mem, sz: Links, k: int, pre: nat, p: nat, up: nat, x: nat)
    requires HeadIn(t, x) && Rep(t, m, p, up) && TrieOk(t, sz, k, pre) && x != p
    ensures NodeOf(t, x).Node? && |NodeOf(t, x).ring| > 0
    ensures OneSide(t, m, Unlinked(t, m, x), p, HeadIn(t.left, x))
  {
    HeadNode(t, m, sz, k, pre, p, up, x);
    HeadSide(t, m, sz, k, pre, p, up, x);
    var left := HeadIn(t.left, x);
    var side, other := if left then t.left else t.right, if left then t.right else t.left;
    SideHead(t, m, sz, k, pre, p, up, x, left);
    forall y | y in t.ring || In(other, y)
      ensures !In(NodeOf(t, x), y) && (y != p ==> y != At(m.par, x))
    {
      Apart(t, sz, k, pre, y);
    }
    ParentField(t, m, sz, k, pre, p, up, x, left);
    hide Rep, TrieOk, HeadIn, NodeOf, Unlinked, In;
    forall y | (y in t.ring || In(other, y)) && y != p
      ensures SameFields(m, Unlinked(t, m, x), y)
    {
      UnlinkedFrame(t, m, sz, k, pre, p, up, x, y);
    }
    UnlinkedFrame(t, m, sz, k, pre, p, up, x, p);
  }

  // The node and its parent are on that side, or the parent is the root.
  lemma SideHead(t: Tree, m: Mem, sz: Links, k: int, pre: nat, p: nat, up: nat, x: nat, left: bool)
    requires HeadIn(t, x) && Rep(t, m, p, up) && TrieOk(t, sz, k, pre) && x != p && left == HeadIn(t.left, x)
    ensures var side := if left then t.left else t.right;
            && (forall y :: In(NodeOf(t, x), y) ==> In(side, y))
            && (if x == (if left then At(m.c0, p) else At(m.c1, p)) then At(m.par, x) == p else In(side, At(m.par, x)))
  {
    HeadSide(t, m, sz, k, pre, p, up, x);
    if left {
      HeadNode(t.left, m, sz, k - 1, 2 * pre, At(m.c0, p), p, x);
    } else {
      HeadNode(t.right, m, sz, k - 1, 2 * pre + 1, At(m.c1, p), p, x);
    }
  }

  // If the parent is the root, its left child field points to x iff x is left.
  lemma ParentField(t: Tree, m: Mem, sz: Links, k: int, pre: nat, p: nat, up: nat, x: nat, left: bool)
    requires HeadIn(t, x) && Rep(t, m, p, up) && TrieOk(t, sz, k, pre) && x != p && left == HeadIn(t.left, x)
    ensures At(m.par, x) == p ==> (At(m.c0, p) == x <==> left) && (At(m.c1, p) == x <==> !left)
  {
    SideHead(t, m, sz, k, pre, p, up, x, left);
    HeadSide(t, m, sz, k, pre, p, up, x);
    Apart(t, sz, k, pre, p);
    Apart(t, sz, k, pre, x);
    ChildIn(t, m, p, up);
    HeadNode(t, m, sz, k, pre, p, up, x);
    NoZero(t, m, p, up);
  }

  lemma ChildRemoved(t: Tree, m: Mem, sz: Links, k: int, pre: nat, p: nat, up: nat, x: nat)
    requires HeadIn(t, x) && Rep(t, m, p, up) && TrieOk(t, sz, k, pre) && x != p
    requires x == (if HeadIn(t.left, x) then At(m.c0, p) else At(m.c1, p))
    ensures NodeOf(t, x).Node? && |NodeOf(t, x).ring| > 0
    ensures var m', left := Unlinked(t, m, x), HeadIn(t.left, x);
            if left then Rep(Remove(t.left, x), m', At(m'.c0, p), p) else Rep(Remove(t.right, x), m', At(m'.c1, p), p)
  {
    HeadNode(t, m, sz, k, pre, p, up, x);
    HeadSide(t, m, sz, k, pre, p, up, x);
    var left := HeadIn(t.left, x);
    SideHead(t, m, sz, k, pre, p, up, x, left);
    ParentField(t, m, sz, k, pre, p, up, x, left);
    var n := if left then t.left else t.right;
    var pre' := if left then 2 * pre else 2 * pre + 1;
    assert Rep(n, m, x, p) && n.ring[0] == x;
    NodeRemoved(n, m, sz, k - 1, pre', x, p);
    RepRings(n, m, x, p);
    RemoveHeadOk(n, sz, k - 1, pre');
    Apart(t, sz, k, pre, p);
    HeirChild(n, m, x, p, left);
    RepFrame(RemoveHead(n), Settled(n, m, p), Unlinked(t, m, x), Heir(n, m), p);
    UnlinkedFrame(t, m, sz, k, pre, p, up, x, p);
  }

  lemma HeirChild(n: Tree, m: Mem, x: nat, p: nat, left: bool)
    requires n.Node? && |n.ring| > 0 && n.ring[0] == x && !In(RemoveHead(n), p)
    ensures forall y :: In(RemoveHead(n), y) ==> SameFields(Settled(n, m, p), Hang(Settled(n, m, p), p, x, Heir(n, m)),
            y)
  {
  }

  lemma ChildKept(t: Tree, m: Mem, sz: Links, k: int, pre: nat, p: nat, up: nat, x: nat)
    requires HeadIn(t, x) && Rep(t, m, p, up) && TrieOk(t, sz, k, pre) && x != p
    requires x != (if HeadIn(t.left, x) then At(m.c0, p) else At(m.c1, p))
    ensures NodeOf(t, x).Node? && |NodeOf(t, x).ring| > 0
    ensures At(Unlinked(t, m, x).c0, p) == At(m.c0, p) && At(Unlinked(t, m, x).c1, p) == At(m.c1, p)
  {
    HeadNode(t, m, sz, k, pre, p, up, x);
    HeadSide(t, m, sz, k, pre, p, up, x);
    SideHead(t, m, sz, k, pre, p, up, x, HeadIn(t.left, x));
    Apart(t, sz, k, pre, p);
    UnlinkedFrame(t, m, sz, k, pre, p, up, x, p);
  }

  // -- Ring members that are no tree nodes -----------------------------------

  lemma {:induction false} MemberLinks(t: Tree, m: Mem, sz: Links, k: int, pre: nat, p: nat, up: nat, x: nat)
    requires In(t, x) && Rep(t, m, p, up) && TrieOk(t, sz, k, pre)
    ensures HeadIn(t, x) <==> At(m.par, x) != 0
    ensures !HeadIn(t, x) ==> At(m.bk, x) != x
    decreases t
  {
    Apart(t, sz, k, pre, x);
    if x in t.ring {
      var i := IndexOf(t.ring, x);
      RingAt(m.fd, m.bk, t.ring, i);
      if i > 0 { assert RingOnly(m, t.ring[i]); }
      NotHead(t.left, x);
      NotHead(t.right, x);
    } else if In(t.left, x) {
      MemberLinks(t.left, m, sz, k - 1, 2 * pre, At(m.c0, p), p, x);
      NotHead(t.right, x);
    } else {
      MemberLinks(t.right, m, sz, k - 1, 2 * pre + 1, At(m.c1, p), p, x);
      NotHead(t.left, x);
    }
  }

  lemma {:induction false} NotHead(t: Tree, x: nat)
    requires !In(t, x)
    ensures !HeadIn(t, x)
    decreases t
  {
    if t.Node? {
      NotHead(t.left, x);
      NotHead(t.right, x);
    }
  }

  lemma {:induction false} CutMemberFrame(t: Tree, m: Mem, sz: Links, k: int, pre: nat, p: nat, up: nat, x: nat, y: nat)
    requires In(t, x) && Rep(t, m, p, up) && TrieOk(t, sz, k, pre) && !In(t, y)
    ensures SameFields(m, CutRing(m, x), y)
    decreases t
  {
    if x in t.ring {
      RingAt(m.fd, m.bk, t.ring, IndexOf(t.ring, x));
    } else if In(t.left, x) {
      CutMemberFrame(t.left, m, sz, k - 1, 2 * pre, At(m.c0, p), p, x, y);
    } else {
      CutMemberFrame(t.right, m, sz, k - 1, 2 * pre + 1, At(m.c1, p), p, x, y);
    }
  }

  lemma {:induction false} CutMemberRep(t: Tree, m: Mem, sz: Links, k: int, pre: nat, p: nat, up: nat, x: nat)
    requires In(t, x) && !HeadIn(t, x) && Rep(t, m, p, up) && TrieOk(t, sz, k, pre)
    ensures Rep(Remove(t, x), CutRing(m, x), p, up)
    decreases t
  {
    var m' := CutRing(m, x);
    assert p in t.ring;
    Apart(t, sz, k, pre, x);
    if x in t.ring {
      CutInRing(t, m, sz, k, pre, p, up, x);
    } else {
      var left := In(t.left, x);
      var side, other := if left then t.left else t.right, if left then t.right else t.left;
      var pre' := if left then 2 * pre else 2 * pre + 1;
      var at := if left then At(m.c0, p) else At(m.c1, p);
      forall y | y in t.ring || In(other, y)
        ensures SameFields(m, m', y)
      {
        Apart(t, sz, k, pre, y);
        CutMemberFrame(side, m, sz, k - 1, pre', at, p, x, y);
      }
      KeepNode(t, m, m', sz, k, pre, p, up, left);
      CutMemberRep(side, m, sz, k - 1, pre', at, p, x);
    }
  }

  lemma CutInRing(t: Tree, m: Mem, sz: Links, k: int, pre: nat, p: nat, up: nat, x: nat)
    requires t.Node? && x in t.ring && x != p && Rep(t, m, p, up) && TrieOk(t, sz, k, pre)
    ensures Rep(Node(Without(t.ring, IndexOf(t.ring, x)), t.left, t.right), CutRing(m, x), p, up)
  {
    var i := IndexOf(t.ring, x);
    var m', c := CutRing(m, x), Without(t.ring, i);
    RingAt(m.fd, m.bk, t.ring, i);
    RingRemove(m.fd, m.bk, t.ring, i);
    assert c[0] == p;
    forall j | 1 <= j < |c|
      ensures RingOnly(m', c[j])
    {
      assert RingOnly(m, t.ring[if j < i then j else j + 1]);
    }
    forall y | In(t.left, y) || In(t.right, y)
      ensures SameFields(m, m', y)
    {
      Apart(t, sz, k, pre, y);
      CutMemberFrameRing(t.ring, m, i, y);
    }
    RepFrame(t.left, m, m', At(m.c0, p), p);
    RepFrame(t.right, m, m', At(m.c1, p), p);
  }

  lemma CutMemberFrameRing(ring: seq<nat>, m: Mem, i: nat, y: nat)
    requires Ring(m.fd, m.bk, ring) && i < |ring| && y !in ring
    ensures SameFields(m, CutRing(m, ring[i]), y)
  {
    RingAt(m.fd, m.bk, ring, i);
  }
}
