// Doubly linked rings, as used by the bins of src/lj_alloc.c.
module AllocRing {
  type Links = map<nat, nat>

  function At(m: Links, a: nat): nat { if a in m then m[a] else 0 }

  ghost predicate Distinct(c: seq<nat>) { forall i, j :: 0 <= i < j < |c| ==> c[i] != c[j] }

  function After(c: seq<nat>, k: nat): nat
    requires k < |c|
  {
    if k + 1 < |c| then c[k + 1] else c[0]
  }

  predicate Linked(fd: Links, bk: Links, c: seq<nat>, k: nat)
    requires k < |c|
  {
    At(fd, c[k]) == After(c, k) && At(bk, After(c, k)) == c[k]
  }

  ghost predicate Ring(fd: Links, bk: Links, c: seq<nat>) {
    |c| > 0 && Distinct(c) && forall k :: 0 <= k < |c| ==> Linked(fd, bk, c, k)
  }

  function Before(c: seq<nat>, k: nat): nat
    requires k < |c|
  {
    if k > 0 then c[k - 1] else c[|c| - 1]
  }

  lemma RingAt(fd: Links, bk: Links, c: seq<nat>, k: nat)
    requires Ring(fd, bk, c) && k < |c|
    ensures At(fd, c[k]) == After(c, k) && At(bk, c[k]) == Before(c, k)
  {
    assert Linked(fd, bk, c, k);
    assert Linked(fd, bk, c, if k > 0 then k - 1 else |c| - 1);
  }

  lemma RingFrame(fd: Links, bk: Links, fd': Links, bk': Links, c: seq<nat>)
    requires Ring(fd, bk, c) && forall x :: x in c ==> At(fd', x) == At(fd, x) && At(bk', x) == At(bk, x)
    ensures Ring(fd', bk', c)
  {
    forall k | 0 <= k < |c|
      ensures Linked(fd', bk', c, k)
    {
      assert Linked(fd, bk, c, k);
      assert c[k] in c && After(c, k) in c;
    }
  }

  lemma RingOne(fd: Links, bk: Links, x: nat)
    requires At(fd, x) == x && At(bk, x) == x
    ensures Ring(fd, bk, [x])
  {
  }

  // Right after the first element: F = B->fd; B->fd = F->bk = P; P->fd = F; P->bk = B.
  function Inserted(c: seq<nat>, x: nat): seq<nat>
    requires |c| > 0
  {
    [c[0], x] + c[1..]
  }

  lemma RingInsert(fd: Links, bk: Links, c: seq<nat>, x: nat)
    requires Ring(fd, bk, c) && x !in c
    ensures var f := At(fd, c[0]);
            Ring(fd[c[0] := x][x := f], bk[f := x][x := c[0]], Inserted(c, x))
  {
    RingAt(fd, bk, c, 0);
    var f := At(fd, c[0]);
    var fd', bk', d := fd[c[0] := x][x := f], bk[f := x][x := c[0]], Inserted(c, x);
    assert forall k :: 1 <= k < |c| ==> d[k + 1] == c[k];
    assert Distinct(d) by {
      forall i, j | 0 <= i < j < |d| ensures d[i] != d[j] {
        if j >= 2 { assert d[j] == c[j - 1]; }
        if i >= 2 { assert d[i] == c[i - 1]; }
      }
    }
    forall k | 0 <= k < |d|
      ensures Linked(fd', bk', d, k)
    {
      if k >= 2 {
        assert d[k] == c[k - 1];
        assert Linked(fd, bk, c, k - 1);
        assert After(d, k) == After(c, k - 1);
      } else if k == 1 {
        assert After(d, 1) == f;
      }
    }
  }

  lemma RingRotate(fd: Links, bk: Links, c: seq<nat>)
    requires Ring(fd, bk, c)
    ensures Ring(fd, bk, [c[|c| - 1]] + c[..|c| - 1])
  {
    var d := [c[|c| - 1]] + c[..|c| - 1];
    forall k | 0 <= k < |d|
      ensures Linked(fd, bk, d, k)
    {
      var k' := if k == 0 then |c| - 1 else k - 1;
      assert d[k] == c[k'] && Linked(fd, bk, c, k');
      assert After(d, k) == After(c, k');
    }
  }

  function Without(c: seq<nat>, k: nat): seq<nat>
    requires k < |c|
  {
    c[..k] + c[k + 1..]
  }

  // F = P->fd; B = P->bk; F->bk = B; B->fd = F.
  lemma RingRemove(fd: Links, bk: Links, c: seq<nat>, k: nat)
    requires Ring(fd, bk, c) && 0 < k < |c|
    ensures var f, b := At(fd, c[k]), At(bk, c[k]);
            Ring(fd[b := f], bk[f := b], Without(c, k))
  {
    RingAt(fd, bk, c, k);
    var f, b := At(fd, c[k]), At(bk, c[k]);
    var fd', bk', d := fd[b := f], bk[f := b], Without(c, k);
    assert forall i :: 0 <= i < k ==> d[i] == c[i];
    assert forall i :: k <= i < |d| ==> d[i] == c[i + 1];
    assert Distinct(d);
    forall i | 0 <= i < |d|
      ensures Linked(fd', bk', d, i)
    {
      var i' := if i < k then i else i + 1;
      assert d[i] == c[i'] && Linked(fd, bk, c, i');
      if i == k - 1 {
        assert d[i] == b && After(d, i) == f;
      } else {
        assert After(d, i) == After(c, i');
      }
    }
  }
}
