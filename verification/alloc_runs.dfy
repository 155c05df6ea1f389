// Runs of lj_alloc_f: what a program that lives on it can rely on.
module AllocRuns {
  import opened AllocRing
  import opened AllocBits
  import opened AllocTree
  import opened AllocBins
  import opened AllocChunks
  import opened AllocTags
  import opened AllocHeap
  import opened AllocGrow
  import opened AllocResize
  import opened AllocState

  // A program keeps its blocks in slots. It gives a slot n bytes, by a call of
  // lj_alloc_f with the slot's pointer (or NULL), or it writes a byte to it.
  datatype Call = Resize(slot: nat, n: nat) | Write(slot: nat, k: nat, v: nat)

  predicate CallOk(call: Call) { call.Resize? ==> call.n < TWO64 }

  // What the program knows of a slot: how many bytes it asked for, and which of
  // them it has written.
  datatype Block = Block(n: nat, bytes: map<nat, nat>)
  type Store = map<nat, Block>

  function First(bytes: map<nat, nat>, n: nat): map<nat, nat> { map k | k in bytes && k < n :: bytes[k] }

  // A store without addresses, chunks or bins: a request may fail, and that is all.
  function Step(s: Store, call: Call, ok: bool): Store {
    match call
    case Resize(slot, n) =>
      if n == 0 then s - {slot}
      else if !ok then s
      else s[slot := Block(n, if slot in s then First(s[slot].bytes, n) else map[])]
    case Write(slot, k, v) =>
      if slot in s && k < s[slot].n then s[slot := Block(s[slot].n, s[slot].bytes[k := v])] else s
  }

  function Stored(script: seq<Call>, oks: seq<bool>): Store
    requires |oks| == |script|
  {
    if |script| == 0 then map[]
    else
      var k := |script| - 1;
      Step(Stored(script[..k], oks[..k]), script[k], oks[k])
  }

  // The blocks are those the pointers in the slots lead to, one for each, at least
  // as long as asked for, and what has been written is there.
  ghost predicate Realizes(c: Chunks, d: Direct, b: Links, ptrs: map<nat, nat>, s: Store) {
    && ptrs.Keys == s.Keys && Distinct(ptrs)
    && (forall t :: t in ptrs ==> SlotOk(c, d, b, ptrs[t], s[t]))
    && (forall a: nat :: Owned(c, d, ptrs, a))
  }

  predicate Distinct(ptrs: map<nat, nat>) { forall t, u :: t in ptrs && u in ptrs && t != u ==> ptrs[t] != ptrs[u] }

  ghost predicate SlotOk(c: Chunks, d: Direct, b: Links, a: nat, block: Block) {
    a > 0 && 0 < block.n <= Cap(c, d, a) && Holding(b, a, block)
  }

  predicate Owned(c: Chunks, d: Direct, ptrs: map<nat, nat>, a: nat) { Cap(c, d, a) > 0 ==> a in ptrs.Values }

  ghost predicate Holding(b: Links, a: nat, block: Block) {
    forall k :: k in block.bytes ==> k < block.n && At(b, a + k) == block.bytes[k]
  }

  // Aligned, and no byte belongs to two slots.
  ghost predicate Placed(ptrs: map<nat, nat>, s: Store)
    requires ptrs.Keys == s.Keys
  {
    && (forall t :: t in ptrs ==> ptrs[t] % 8 == 0)
    && (forall t, u :: t in ptrs && u in ptrs && t != u ==> Misses(ptrs[t], s[t].n, ptrs[u], s[u].n))
  }

  lemma PlacedOk(h: HV, bv: BV, d: Direct, b: Links, ptrs: map<nat, nat>, s: Store)
    requires Good(h, bv, d) && Realizes(h.c, d, b, ptrs, s)
    ensures Placed(ptrs, s)
  {
    forall t | t in ptrs ensures ptrs[t] % 8 == 0 { BlocksApart(h, bv, d, ptrs[t], ptrs[t]); }
    forall t, u | t in ptrs && u in ptrs && t != u
      ensures Misses(ptrs[t], s[t].n, ptrs[u], s[u].n)
    {
      BlocksApart(h, bv, d, ptrs[t], ptrs[u]);
    }
    hide GoodBut;
  }

  // -- One call --------------------------------------------------------------

  lemma {:induction false} ByteOf(b: Links, a: nat, n: nat, k: nat)
    requires k < n
    ensures Bytes(b, a, n)[k] == At(b, a + k)
  {
    if k < n - 1 { ByteOf(b, a, n - 1, k); }
  }

  lemma HoldingOn(b: Links, b': Links, a: nat, a': nat, n: nat, block: Block, m: nat)
    requires Holding(b, a, block) && Bytes(b', a', n) == Bytes(b, a, n) && m <= n
    ensures Holding(b', a', Block(m, First(block.bytes, m)))
  {
    forall k | k in block.bytes && k < m
      ensures At(b', a' + k) == block.bytes[k]
    {
      ByteOf(b, a, n, k);
      ByteOf(b', a', n, k);
    }
  }

  lemma HoldingSame(b: Links, b': Links, a: nat, n: nat, block: Block)
    requires Holding(b, a, block) && Bytes(b', a, n) == Bytes(b, a, n) && block.n <= n
    ensures Holding(b', a, block)
  {
    forall k | k in block.bytes
      ensures At(b', a + k) == block.bytes[k]
    {
      ByteOf(b, a, n, k);
      ByteOf(b', a, n, k);
    }
  }

  function PtrAt(ptrs: map<nat, nat>, slot: nat): nat { if slot in ptrs then ptrs[slot] else 0 }

  function PtrsAfter(ptrs: map<nat, nat>, slot: nat, n: nat, mem: nat): map<nat, nat> {
    if n == 0 then ptrs - {slot} else if mem == 0 then ptrs else ptrs[slot := mem]
  }

  lemma ServedOk(c: Chunks, d: Direct, b: Links, c': Chunks, d': Direct, b': Links, ptrs: map<nat, nat>, s: Store,
                 slot: nat, n: nat, mem: nat)
    requires Realizes(c, d, b, ptrs, s) && Serves(c, d, b, c', d', b', PtrAt(ptrs, slot), n, mem)
    ensures Realizes(c', d', b', PtrsAfter(ptrs, slot, n, mem), Step(s, Resize(slot, n), mem != 0))
  {
    if n == 0 {
      FreedOk(c, d, b, c', d', ptrs, s, slot);
    } else if mem == 0 {
      RefusedOk(c, d, b, c', d', ptrs, s);
    } else if slot !in ptrs {
      GrantedOk(c, d, b, c', d', ptrs, s, slot, n, mem);
    } else {
      ReallocOk(c, d, b, c', d', b', ptrs, s, slot, n, mem);
    }
    hide Realizes, Serves, Reallocs;
  }

  lemma RefusedOk(c: Chunks, d: Direct, b: Links, c': Chunks, d': Direct, ptrs: map<nat, nat>, s: Store)
    requires Realizes(c, d, b, ptrs, s) && forall a: nat :: Cap(c', d', a) == Cap(c, d, a)
    ensures Realizes(c', d', b, ptrs, s)
  {
    hide Cap, Holding;
    forall t | t in ptrs ensures SlotOk(c', d', b, ptrs[t], s[t]) { assert SlotOk(c, d, b, ptrs[t], s[t]); }
    forall a: nat ensures Owned(c', d', ptrs, a) { assert Owned(c, d, ptrs, a); }
  }

  lemma FreedOk(c: Chunks, d: Direct, b: Links, c': Chunks, d': Direct, ptrs: map<nat, nat>, s: Store, slot: nat)
    requires Realizes(c, d, b, ptrs, s) && Serves(c, d, b, c', d', b, PtrAt(ptrs, slot), 0, 0)
    ensures Realizes(c', d', b, ptrs - {slot}, s - {slot})
  {
    var ptrs', s' := ptrs - {slot}, s - {slot};
    hide Cap, Holding;
    forall t | t in ptrs'
      ensures SlotOk(c', d', b, ptrs'[t], s'[t])
    {
      assert SlotOk(c, d, b, ptrs[t], s[t]) && ptrs[t] != PtrAt(ptrs, slot);
    }
    forall a: nat
      ensures Owned(c', d', ptrs', a)
    {
      assert Owned(c, d, ptrs, a);
      assert Cap(c', d', PtrAt(ptrs, slot)) == 0;
      if Cap(c', d', a) > 0 { Remove(ptrs, slot, a); }
    }
    hide SlotOk, Owned;
  }

  lemma Remove(ptrs: map<nat, nat>, slot: nat, a: nat)
    requires a in ptrs.Values && a != PtrAt(ptrs, slot)
    ensures a in (ptrs - {slot}).Values
  {
    var t :| t in ptrs && ptrs[t] == a;
    assert t in ptrs - {slot};
  }
  // A slot gets a block at mem, and the others keep theirs.
  lemma SlotSet(c: Chunks, d: Direct, c': Chunks, d': Direct, b': Links, ptrs: map<nat, nat>, s: Store, slot: nat,
                mem: nat, block: Block)
    requires ptrs.Keys == s.Keys && Distinct(ptrs) && (forall a: nat :: Owned(c, d, ptrs, a))
    requires forall t :: t in ptrs && t != slot ==> ptrs[t] != mem && SlotOk(c', d', b', ptrs[t], s[t])
    requires SlotOk(c', d', b', mem, block)
    requires slot in ptrs && ptrs[slot] != mem ==> Cap(c', d', ptrs[slot]) == 0
    requires forall a: nat {:trigger Owned(c', d', ptrs, a)} :: a != mem && a != PtrAt(ptrs, slot)
                                                                ==> Cap(c', d', a) == Cap(c, d, a)
    requires Cap(c', d', 0) == 0
    ensures Realizes(c', d', b', ptrs[slot := mem], s[slot := block])
  {
    var ptrs', s' := ptrs[slot := mem], s[slot := block];
    hide Cap, Holding, SlotOk;
    assert ptrs'.Keys == s'.Keys;
    forall a: nat
      ensures Owned(c', d', ptrs', a)
    {
      assert Owned(c, d, ptrs, a);
      assert Owned(c', d', ptrs, a) || a == mem || a == PtrAt(ptrs, slot);
      Replace(ptrs, slot, mem, a);
    }
  }

  lemma Replace(ptrs: map<nat, nat>, slot: nat, mem: nat, a: nat)
    ensures a == mem ==> a in ptrs[slot := mem].Values
    ensures a in ptrs.Values && a != PtrAt(ptrs, slot) ==> a in ptrs[slot := mem].Values
  {
    var after := ptrs[slot := mem];
    assert after[slot] == mem;
    if a in ptrs.Values && a != PtrAt(ptrs, slot) {
      var t :| t in ptrs && ptrs[t] == a;
      assert after[t] == a;
    }
  }

  lemma GrantedOk(c: Chunks, d: Direct, b: Links, c': Chunks, d': Direct, ptrs: map<nat, nat>, s: Store, slot: nat,
                  n: nat, mem: nat)
    requires Realizes(c, d, b, ptrs, s) && slot !in ptrs && n > 0 && mem > 0 && Serves(c, d, b, c', d', b, 0, n, mem)
    ensures Realizes(c', d', b, ptrs[slot := mem], s[slot := Block(n, map[])])
  {
    forall t | t in ptrs
      ensures ptrs[t] != mem && SlotOk(c', d', b, ptrs[t], s[t])
    {
      assert SlotOk(c, d, b, ptrs[t], s[t]);
      hide Holding, Cap;
    }
    assert Cap(c', d', 0) == 0;
    SlotSet(c, d, c', d', b, ptrs, s, slot, mem, Block(n, map[]));
    hide *;
  }

  lemma ReallocOk(c: Chunks, d: Direct, b: Links, c': Chunks, d': Direct, b': Links, ptrs: map<nat, nat>, s: Store,
                  slot: nat, n: nat, mem: nat)
    requires Realizes(c, d, b, ptrs, s) && slot in ptrs && n > 0 && mem > 0
             && Reallocs(c, d, b, c', d', b', ptrs[slot], n, mem)
    ensures Realizes(c', d', b', ptrs[slot := mem], s[slot := Block(n, First(s[slot].bytes, n))])
  {
    forall t | t in ptrs && t != slot
      ensures ptrs[t] != mem && SlotOk(c', d', b', ptrs[t], s[t])
    {
      OtherHeld(c, d, b, c', d', b', ptrs, s, slot, n, mem, t);
    }
    OwnHeld(c, d, b, c', d', b', ptrs, s, slot, n, mem);
    assert Cap(c', d', 0) == 0;
    assert SlotOk(c, d, b, ptrs[slot], s[slot]);
    forall a: nat | a != mem && a != PtrAt(ptrs, slot)
      ensures Cap(c', d', a) == Cap(c, d, a)
    {
      assert a != ptrs[slot];
    }
    hide Bytes, SlotOk, Cap, Min;
    SlotSet(c, d, c', d', b', ptrs, s, slot, mem, Block(n, First(s[slot].bytes, n)));
    hide *;
  }

  lemma OtherHeld(c: Chunks, d: Direct, b: Links, c': Chunks, d': Direct, b': Links, ptrs: map<nat, nat>, s: Store,
                  slot: nat, n: nat, mem: nat, t: nat)
    requires Realizes(c, d, b, ptrs, s) && slot in ptrs && n > 0 && mem > 0
             && Reallocs(c, d, b, c', d', b', ptrs[slot], n, mem)
    requires t in ptrs && t != slot
    ensures ptrs[t] != mem && SlotOk(c', d', b', ptrs[t], s[t])
  {
    hide Cap, Bytes, Holding, Min;
    var a := ptrs[t];
    assert SlotOk(c, d, b, a, s[t]);
    assert a != ptrs[slot] && a != mem;
    HoldingSame(b, b', a, Cap(c, d, a), s[t]);
  }

  lemma OwnHeld(c: Chunks, d: Direct, b: Links, c': Chunks, d': Direct, b': Links, ptrs: map<nat, nat>, s: Store,
                slot: nat, n: nat, mem: nat)
    requires Realizes(c, d, b, ptrs, s) && slot in ptrs && n > 0 && mem > 0
             && Reallocs(c, d, b, c', d', b', ptrs[slot], n, mem)
    ensures SlotOk(c', d', b', mem, Block(n, First(s[slot].bytes, n)))
  {
    hide Cap, Bytes, Holding;
    assert SlotOk(c, d, b, ptrs[slot], s[slot]);
    Keyed(b, ptrs[slot], s[slot]);
    var m := Min(Cap(c, d, ptrs[slot]), n);
    HoldingOn(b, b', ptrs[slot], mem, m, s[slot], m);
    HoldingFirst(b', mem, s[slot], m, n);
  }

  lemma Keyed(b: Links, a: nat, block: Block)
    requires Holding(b, a, block)
    ensures forall k :: k in block.bytes ==> k < block.n
  {
  }

  lemma HoldingFirst(b: Links, a: nat, block: Block, m: nat, n: nat)
    requires Holding(b, a, Block(m, First(block.bytes, m))) && m <= n
             && (m == n || forall k :: k in block.bytes ==> k < m)
    ensures Holding(b, a, Block(n, First(block.bytes, n)))
  {
    assert First(block.bytes, n) == First(block.bytes, m);
  }

  lemma WrittenOk(h: HV, bv: BV, d: Direct, b: Links, ptrs: map<nat, nat>, s: Store, slot: nat, k: nat, v: nat)
    requires Good(h, bv, d) && Realizes(h.c, d, b, ptrs, s) && slot in s && k < s[slot].n
    ensures Realizes(h.c, d, b[ptrs[slot] + k := v], ptrs, Step(s, Write(slot, k, v), true))
  {
    PlacedOk(h, bv, d, b, ptrs, s);
    hide *;
    WrittenIn(h.c, d, b, ptrs, s, slot, k, v);
  }

  lemma WrittenIn(c: Chunks, d: Direct, b: Links, ptrs: map<nat, nat>, s: Store, slot: nat, k: nat, v: nat)
    requires Realizes(c, d, b, ptrs, s) && Placed(ptrs, s) && slot in s && k < s[slot].n
    ensures Realizes(c, d, b[ptrs[slot] + k := v], ptrs, Step(s, Write(slot, k, v), true))
  {
    var s', b' := Step(s, Write(slot, k, v), true), b[ptrs[slot] + k := v];
    assert ptrs.Keys == s'.Keys;
    forall t | t in ptrs
      ensures SlotOk(c, d, b', ptrs[t], s'[t])
    {
      SlotWritten(c, d, b, ptrs, s, slot, k, v, t);
    }
    hide Cap, Owned, Distinct, SlotOk, Placed;
  }

  lemma SlotWritten(c: Chunks, d: Direct, b: Links, ptrs: map<nat, nat>, s: Store, slot: nat, k: nat, v: nat, t: nat)
    requires Realizes(c, d, b, ptrs, s) && Placed(ptrs, s) && slot in s && k < s[slot].n && t in ptrs
    ensures SlotOk(c, d, b[ptrs[slot] + k := v], ptrs[t], Step(s, Write(slot, k, v), true)[t])
  {
    assert SlotOk(c, d, b, ptrs[t], s[t]);
    if t == slot {
      OwnWritten(b, ptrs[slot], s[slot], k, v);
    } else {
      OtherWritten(b, ptrs[t], s[t], ptrs[slot], s[slot].n, k, v);
    }
    hide Cap, Holding, Placed, Realizes;
  }

  lemma OwnWritten(b: Links, a: nat, block: Block, k: nat, v: nat)
    requires Holding(b, a, block) && k < block.n
    ensures Holding(b[a + k := v], a, Block(block.n, block.bytes[k := v]))
  {
  }

  lemma OtherWritten(b: Links, a: nat, block: Block, a': nat, n: nat, k: nat, v: nat)
    requires Holding(b, a, block) && k < n && Misses(a, block.n, a', n)
    ensures Holding(b[a' + k := v], a, block)
  {
  }

  // -- Whole runs ------------------------------------------------------------

  // One call; the pointer in the slot changes unless the request fails.
  method Do(m: Mstate, call: Call, ptrs: map<nat, nat>, s: Store) returns (ptrs': map<nat, nat>, ok: bool)
    requires m.Valid() && CallOk(call) && Realizes(m.chunks, m.direct, m.data, ptrs, s)
    modifies m, m.bins
    ensures m.Valid() && Realizes(m.chunks, m.direct, m.data, ptrs', Step(s, call, ok))
    ensures old(m.refused) <= m.refused && (!ok ==> Refusal(call, old(m.refused), m.refused))
  {
    hide Realizes, GoodBut;
    match call
    case Resize(slot, n) =>
      ptrs', ok := Ask(m, slot, n, ptrs, s);
    case Write(slot, k, v) =>
      ptrs', ok := ptrs, true;
      if slot in s && k < s[slot].n {
        SlotAt(m.chunks, m.direct, m.data, ptrs, s, slot);
        WrittenOk(m.H(), m.bins.V(), m.direct, m.data, ptrs, s, slot, k, v);
        m.Poke(ptrs[slot] + k, v);
      }
  }

  // Only requests for memory fail, and only for one of the reasons there are.
  predicate Refusal(call: Call, before: seq<nat>, after: seq<nat>) {
    call.Resize? && call.n > 0 && Excused(call.n, before, after)
  }

  lemma SlotAt(c: Chunks, d: Direct, b: Links, ptrs: map<nat, nat>, s: Store, slot: nat)
    requires Realizes(c, d, b, ptrs, s)
    ensures slot in ptrs <==> slot in s
    ensures slot in ptrs ==> ptrs[slot] > 0 && Cap(c, d, ptrs[slot]) > 0
  {
    if slot in ptrs { assert SlotOk(c, d, b, ptrs[slot], s[slot]); }
  }

  // A slot gets n bytes.
  method Ask(m: Mstate, slot: nat, n: nat, ptrs: map<nat, nat>, ghost s: Store) returns (ptrs': map<nat, nat>, ok: bool)
    requires m.Valid() && n < TWO64 && Realizes(m.chunks, m.direct, m.data, ptrs, s)
    modifies m, m.bins
    ensures m.Valid() && Realizes(m.chunks, m.direct, m.data, ptrs', Step(s, Resize(slot, n), ok))
    ensures old(m.refused) <= m.refused && (!ok ==> n > 0 && Excused(n, old(m.refused), m.refused))
  {
    hide Serves, GoodBut, Realizes;
    SlotAt(m.chunks, m.direct, m.data, ptrs, s, slot);
    var ptr := if slot in ptrs then ptrs[slot] else 0;
    var mem := m.AllocF(ptr, n);
    ServedOk(old(m.chunks), old(m.direct), old(m.data), m.chunks, m.direct, m.data, ptrs, s, slot, n, mem);
    ok := n == 0 || mem != 0;
    ptrs' := if n == 0 then ptrs - {slot} else if mem == 0 then ptrs else ptrs[slot := mem];
  }

  // Every run on a new state: whatever the system grants or refuses, the slots hold
  // what a store without an allocator would hold. A call fails only if it asks for
  // more than any segment can hold, or if during the call the system refuses a mapping.
  method RunAll(b: nat, script: seq<Call>)
    returns (m: Mstate, ptrs: map<nat, nat>, s: Store, oks: seq<bool>, ghost marks: seq<nat>)
    requires CanCreate(b) && forall i :: 0 <= i < |script| ==> CallOk(script[i])
    ensures m.Valid() && |oks| == |script| && s == Stored(script, oks)
    ensures Realizes(m.chunks, m.direct, m.data, ptrs, s) && Placed(ptrs, s)
    ensures FailuresOk(script, oks, m.refused, marks)
  {
    hide GoodBut, Realizes, Refusal;
    m := new Mstate(b);
    ptrs, s, oks, marks := map[], map[], [], [0];
    NothingYet(m.chunks, m.direct, m.data);
    for i := 0 to |script|
      invariant fresh(m) && fresh(m.bins)
      invariant m.Valid() && |oks| == i && s == Stored(script[..i], oks)
                && Realizes(m.chunks, m.direct, m.data, ptrs, s)
      invariant FailuresOk(script[..i], oks, m.refused, marks) && marks[i] == |m.refused|
    {
      ghost var was := m.refused;
      var ptrs', ok := Do(m, script[i], ptrs, s);
      FailuresMore(script, oks, ok, was, m.refused, marks, i);
      marks := marks + [|m.refused|];
      assert script[..i + 1][..i] == script[..i] && (oks + [ok])[..i] == oks;
      ptrs, s, oks := ptrs', Step(s, script[i], ok), oks + [ok];
    }
    assert script[..|script|] == script;
    PlacedOk(m.H(), m.bins.V(), m.direct, m.data, ptrs, s);
  }

  // marks[i] tells how many mappings had been refused before call i.
  ghost predicate FailuresOk(script: seq<Call>, oks: seq<bool>, refused: seq<nat>, marks: seq<nat>) {
    && |oks| == |script| && |marks| == |script| + 1 && marks[|script|] <= |refused|
    && (forall i: nat :: i < |script| ==> FailureOk(script, oks, refused, marks, i))
  }

  ghost predicate FailureOk(script: seq<Call>, oks: seq<bool>, refused: seq<nat>, marks: seq<nat>, i: nat) {
    && i < |script| == |oks| && i + 1 < |marks| && marks[i] <= marks[i + 1] <= |refused|
    && (!oks[i] ==> Refusal(script[i], refused[..marks[i]], refused[..marks[i + 1]]))
  }

  lemma FailuresMore(script: seq<Call>, oks: seq<bool>, ok: bool, was: seq<nat>, now: seq<nat>, marks: seq<nat>, i: nat)
    requires i < |script| && FailuresOk(script[..i], oks, was, marks) && marks[i] == |was| && was <= now
    requires !ok ==> Refusal(script[i], was, now)
    ensures FailuresOk(script[..i + 1], oks + [ok], now, marks + [|now|])
  {
    var script', marks', oks' := script[..i + 1], marks + [|now|], oks + [ok];
    hide Refusal;
    forall k: nat | k <= i
      ensures FailureOk(script', oks', now, marks', k)
    {
      assert now[..|was|] == was && now[..|now|] == now;
      if k < i {
        assert FailureOk(script[..i], oks, was, marks, k);
        assert now[..marks[k]] == was[..marks[k]] && now[..marks[k + 1]] == was[..marks[k + 1]];
      }
    }
  }

  lemma NothingYet(c: Chunks, d: Direct, b: Links)
    requires forall a: nat :: Cap(c, d, a) == 0
    ensures Realizes(c, d, b, map[], map[])
  {
  }
}
