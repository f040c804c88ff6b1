/** The VM's memory as a value: pool slots with reference counts, stack segments with counts of the
    segments on top of them, and the invariant that ties both to who refers to what
    (src/vm_pool.h:32-60, src/vm_stack.h:32-46). */
module Heap {
  import opened Syntax

  /** A VM variable: function code and, for some codes, the index of a pool slot. */
  datatype Var = Var(fn: byte, ref: nat)

  /** The REF bit (src/vm_defs.h:51). */
  predicate Counted(v: Var) {
    v.fn / 32 % 2 == 1
  }

  /** What a pool slot holds: a closure's values, or a continuation's saved stack and return index. */
  datatype Content = Closure(v1: Var, v2: Var) | Cont(stack: nat, ins: nat)

  datatype Slot = Slot(content: Content, refcnt: nat)

  /** A stack segment; `elems` are the slots in use, the last one is the top. */
  datatype Seg = Seg(prev: Option<nat>, elems: seq<Var>, refcnt: nat)

  /** `slots` are the pool elements handed out so far, `holes` the indices of the free ones among
      them, `segs` the segments ever allocated, None once freed. */
  datatype Store = Store(slots: seq<Slot>, holes: seq<nat>, segs: seq<Option<Seg>>)

  /** Who refers to the memory from outside: `roots` are references to pool slots, `heads` stack heads
      (among them the active stack), `links` segments counted on by a segment that is being freed. */
  datatype Owners = Owners(roots: multiset<nat>, heads: multiset<nat>, links: multiset<nat>)

  function Total<T>(s: seq<T>, f: T -> multiset<nat>): multiset<nat> {
    if s == [] then multiset{} else Total(s[..|s| - 1], f) + f(s[|s| - 1])
  }

  lemma {:induction false} TotalUpdate<T>(s: seq<T>, f: T -> multiset<nat>, i: nat, x: T)
    requires i < |s|
    ensures Total(s[i := x], f) + f(s[i]) == Total(s, f) + f(x)
    decreases |s|
  {
    var n := |s| - 1;
    var t := s[i := x];
    if i < n {
      assert t[..n] == s[..n][i := x] && t[n] == s[n];
      TotalUpdate(s[..n], f, i, x);
      assert s[..n][i] == s[i];
      assert Total(t, f) + f(s[i]) == Total(t[..n], f) + f(s[i]) + f(s[n]);
      assert Total(s, f) + f(x) == Total(s[..n], f) + f(x) + f(s[n]);
    } else {
      assert t[..n] == s[..n];
    }
  }

  lemma TotalAppend<T>(s: seq<T>, f: T -> multiset<nat>, x: T)
    ensures Total(s + [x], f) == Total(s, f) + f(x)
  {
    assert (s + [x])[..|s|] == s;
  }

  lemma {:induction false} TotalHas<T>(s: seq<T>, f: T -> multiset<nat>, i: nat)
    requires i < |s|
    ensures f(s[i]) <= Total(s, f)
    decreases |s|
  {
    var n := |s| - 1;
    if i < n {
      TotalHas(s[..n], f, i);
    }
  }

  /** Where an element of a total comes from. */
  lemma {:induction false} TotalFrom<T>(s: seq<T>, f: T -> multiset<nat>, x: nat) returns (i: nat)
    requires x in Total(s, f)
    ensures i < |s| && x in f(s[i])
    decreases |s|
  {
    var n := |s| - 1;
    if x in f(s[n]) {
      i := n;
    } else {
      i := TotalFrom(s[..n], f, x);
    }
  }

  /** The slots that variables refer to. */
  function VarRefs(v: Var): multiset<nat> {
    if Counted(v) then multiset{v.ref} else multiset{}
  }

  function VarsRefs(vs: seq<Var>): multiset<nat> {
    Total(vs, VarRefs)
  }

  function ContentRefs(c: Content): multiset<nat> {
    match c
    case Closure(v1, v2) => VarRefs(v1) + VarRefs(v2)
    case Cont(_, _) => multiset{}
  }

  function SlotRefs(s: Slot): multiset<nat> {
    if s.refcnt == 0 then multiset{} else ContentRefs(s.content)
  }

  /** The stack head that a slot in use owns. */
  function SlotHeads(s: Slot): multiset<nat> {
    if s.refcnt > 0 && s.content.Cont? then multiset{s.content.stack} else multiset{}
  }

  function SegRefs(g: Option<Seg>): multiset<nat> {
    if g.Some? then VarsRefs(g.value.elems) else multiset{}
  }

  function SegPrev(g: Option<Seg>): multiset<nat> {
    if g.Some? && g.value.prev.Some? then multiset{g.value.prev.value} else multiset{}
  }

  /** All references to pool slots. */
  function Refs(h: Store, o: Owners): multiset<nat> {
    Total(h.slots, SlotRefs) + Total(h.segs, SegRefs) + o.roots
  }

  function Heads(h: Store, o: Owners): multiset<nat> {
    Total(h.slots, SlotHeads) + o.heads
  }

  function Prevs(h: Store, o: Owners): multiset<nat> {
    Total(h.segs, SegPrev) + o.links
  }

  function Count(slots: seq<Slot>, i: nat): nat {
    if i < |slots| then slots[i].refcnt else 0
  }

  predicate Live(segs: seq<Option<Seg>>, id: nat) {
    id < |segs| && segs[id].Some?
  }

  function Children(segs: seq<Option<Seg>>, id: nat): nat {
    if Live(segs, id) then segs[id].value.refcnt else 0
  }

  /** No count is lower than the number of references. */
  ghost predicate Covered(h: Store, o: Owners) {
    forall i: nat :: Refs(h, o)[i] <= Count(h.slots, i)
  }

  /** Every count is the number of references. */
  ghost predicate Exact(h: Store, o: Owners) {
    forall i: nat :: Refs(h, o)[i] == Count(h.slots, i)
  }

  /** The holes are the slots not in use, each listed once. */
  predicate HolesRight(h: Store) {
    && (forall i :: 0 <= i < |h.slots| ==> (h.slots[i].refcnt == 0 <==> i in h.holes))
    && (forall k :: 0 <= k < |h.holes| ==> h.holes[k] < |h.slots|)
    && (forall k, l :: 0 <= k < l < |h.holes| ==> h.holes[k] != h.holes[l])
  }

  /** Segments hang together without cycles; `rank` witnesses that. */
  predicate Linked(segs: seq<Option<Seg>>, rank: seq<nat>) {
    && |rank| == |segs|
    && forall id :: 0 <= id < |segs| && segs[id].Some? && segs[id].value.prev.Some? ==>
         Live(segs, segs[id].value.prev.value) && rank[segs[id].value.prev.value] < rank[id]
  }

  /** A segment's count is the number of segments on top of it, and the segments with none on top
      are exactly the heads that someone owns, each owned once. */
  ghost predicate Counts(h: Store, o: Owners) {
    && (forall id: nat :: Prevs(h, o)[id] == Children(h.segs, id))
    && (forall id: nat :: Heads(h, o)[id] == if Live(h.segs, id) && Children(h.segs, id) == 0 then 1 else 0)
  }

  /** Segments fit, and one that others stand on is nearly full. */
  ghost predicate Filled(segs: seq<Option<Seg>>, segLen: nat) {
    forall id :: 0 <= id < |segs| && segs[id].Some? ==>
      && |segs[id].value.elems| <= segLen
      && (Total(segs, SegPrev)[id] > 0 ==> |segs[id].value.elems| + 3 >= segLen)
  }

  ghost predicate Inv(h: Store, rank: seq<nat>, segLen: nat, o: Owners) {
    && Covered(h, o) && HolesRight(h) && Linked(h.segs, rank) && Counts(h, o) && Filled(h.segs, segLen)
  }

  function AddRoots(o: Owners, more: multiset<nat>): Owners {
    o.(roots := o.roots + more)
  }

  function AddHead(o: Owners, id: nat): Owners {
    o.(heads := o.heads + multiset{id})
  }

  function AddLink(o: Owners, id: nat): Owners {
    o.(links := o.links + multiset{id})
  }

  function SetCount(h: Store, i: nat, n: nat): Store
    requires i < |h.slots|
  {
    h.(slots := h.slots[i := h.slots[i].(refcnt := n)])
  }

  function SetSeg(h: Store, id: nat, g: Option<Seg>): Store
    requires id < |h.segs|
  {
    h.(segs := h.segs[id := g])
  }

  /** One summand replaced: the rest of the balance follows. */
  lemma Rebalance(a: multiset<nat>, x: multiset<nat>, a': multiset<nat>, x': multiset<nat>,
                  rest: multiset<nat>, r: multiset<nat>, r': multiset<nat>)
    requires a' + x == a + x'
    ensures a' + rest + r' + (x + r) == a + rest + r + (x' + r')
  {
    assert a' + rest + r' + (x + r) == (a' + x) + (rest + r' + r);
    assert a + rest + r + (x' + r') == (a + x') + (rest + r' + r);
  }

  lemma Cancel(a: multiset<nat>, b: multiset<nat>, c: multiset<nat>)
    requires a + c == b + c
    ensures a == b
  {
    forall x: nat
      ensures a[x] == b[x]
    {
      assert (a + c)[x] == (b + c)[x];
    }
  }

  /** Forgetting a reference leaves every count high enough. */
  lemma FewerRoots(h: Store, rank: seq<nat>, segLen: nat, o: Owners, roots: multiset<nat>)
    requires Inv(h, rank, segLen, o) && roots <= o.roots
    ensures Inv(h, rank, segLen, o.(roots := roots))
  {
    hide Total, HolesRight, Linked, Filled;
    var o' := o.(roots := roots);
    forall i: nat
      ensures Refs(h, o')[i] <= Count(h.slots, i)
    {
      assert Refs(h, o)[i] <= Count(h.slots, i);
    }
    forall id: nat
      ensures Prevs(h, o')[id] == Prevs(h, o)[id] && Heads(h, o')[id] == Heads(h, o)[id]
    {
    }
  }

  /** A change that keeps the balance of counts and references, and no stack head or segment, keeps
      the invariant. */
  lemma Transfer(h: Store, h': Store, rank: seq<nat>, segLen: nat, o: Owners, o': Owners)
    requires Inv(h, rank, segLen, o) && h'.segs == h.segs && HolesRight(h')
    requires Heads(h', o') == Heads(h, o) && o'.links == o.links
    requires forall k: nat :: Refs(h', o')[k] + Count(h.slots, k) == Refs(h, o)[k] + Count(h'.slots, k)
    ensures Inv(h', rank, segLen, o')
    ensures Exact(h, o) ==> Exact(h', o')
  {
    hide Total, Linked, Filled, HolesRight, Heads, Refs, Count;
    forall k: nat
      ensures Refs(h', o')[k] <= Count(h'.slots, k)
    {
      assert Refs(h, o)[k] <= Count(h.slots, k);
    }
    if Exact(h, o) {
      forall k: nat
        ensures Refs(h', o')[k] == Count(h'.slots, k)
      {
        assert Refs(h, o)[k] == Count(h.slots, k);
      }
    }
  }

  /** What replacing slot `i` does to the sums. */
  lemma SlotSums(h: Store, i: nat, s: Slot, o: Owners, o': Owners)
    requires i < |h.slots|
    ensures
      var h' := h.(slots := h.slots[i := s]);
      && Refs(h', o') + (SlotRefs(h.slots[i]) + o.roots) == Refs(h, o) + (SlotRefs(s) + o'.roots)
      && Heads(h', o') + (SlotHeads(h.slots[i]) + o.heads) == Heads(h, o) + (SlotHeads(s) + o'.heads)
  {
    hide Total, SlotRefs, SlotHeads;
    var h' := h.(slots := h.slots[i := s]);
    TotalUpdate(h.slots, SlotRefs, i, s);
    TotalUpdate(h.slots, SlotHeads, i, s);
    Rebalance(Total(h.slots, SlotRefs), SlotRefs(h.slots[i]), Total(h'.slots, SlotRefs), SlotRefs(s),
              Total(h.segs, SegRefs), o.roots, o'.roots);
    Rebalance(Total(h.slots, SlotHeads), SlotHeads(h.slots[i]), Total(h'.slots, SlotHeads), SlotHeads(s),
              multiset{}, o.heads, o'.heads);
    assert Total(h'.slots, SlotHeads) + multiset{} == Total(h'.slots, SlotHeads);
    assert Total(h.slots, SlotHeads) + multiset{} == Total(h.slots, SlotHeads);
  }

  /** A slot in use whose count changes, but not to zero. */
  lemma CountChanges(h: Store, rank: seq<nat>, segLen: nat, o: Owners, i: nat, n: nat, roots: multiset<nat>)
    requires Inv(h, rank, segLen, o) && Count(h.slots, i) > 0 && n > 0
    requires roots[i] + Count(h.slots, i) == o.roots[i] + n
    requires forall k: nat :: k != i ==> roots[k] == o.roots[k]
    ensures Inv(SetCount(h, i, n), rank, segLen, o.(roots := roots))
    ensures Exact(h, o) ==> Exact(SetCount(h, i, n), o.(roots := roots))
  {
    hide Total, Linked, Filled, Covered, Exact, Counts, Refs, Heads, Prevs;
    var h', o' := SetCount(h, i, n), o.(roots := roots);
    SlotSums(h, i, h'.slots[i], o, o');
    Cancel(Heads(h', o'), Heads(h, o), SlotHeads(h.slots[i]) + o.heads);
    forall k: nat
      ensures Refs(h', o')[k] + Count(h.slots, k) == Refs(h, o)[k] + Count(h'.slots, k)
    {
      assert (Refs(h', o') + (SlotRefs(h.slots[i]) + o.roots))[k] == (Refs(h, o) + (SlotRefs(h.slots[i]) + roots))[k];
    }
    Transfer(h, h', rank, segLen, o, o');
  }

  lemma HoleAdded(h: Store, i: nat)
    requires HolesRight(h) && Count(h.slots, i) > 0
    ensures HolesRight(SetCount(h, i, 0).(holes := h.holes + [i]))
  {
  }

  lemma DeadSlot(s: Slot)
    requires s.refcnt > 0
    ensures SlotRefs(s) == ContentRefs(s.content)
    ensures SlotRefs(s.(refcnt := 0)) == SlotHeads(s.(refcnt := 0)) == multiset{}
  {
  }

  /** The last reference to a slot is dropped: the slot becomes a hole, and what it referred to or
      owned is handed to whoever dropped it. */
  lemma SlotDies(h: Store, rank: seq<nat>, segLen: nat, o: Owners, i: nat)
    requires Inv(h, rank, segLen, AddRoots(o, multiset{i})) && Count(h.slots, i) == 1
    ensures
      var h' := SetCount(h, i, 0).(holes := h.holes + [i]);
      var o' := AddRoots(o, ContentRefs(h.slots[i].content)).(heads := o.heads + SlotHeads(h.slots[i]));
      && Inv(h', rank, segLen, o')
      && (Exact(h, AddRoots(o, multiset{i})) ==> Exact(h', o'))
  {
    hide Total, Linked, Filled, Covered, Exact, Counts, Refs, Heads, Prevs, HolesRight;
    hide SlotRefs, SlotHeads, ContentRefs;
    var s := h.slots[i];
    var h1 := SetCount(h, i, 0);
    var h' := h1.(holes := h.holes + [i]);
    var o1, o' := AddRoots(o, multiset{i}), AddRoots(o, ContentRefs(s.content)).(heads := o.heads + SlotHeads(s));
    DeadSlot(s);
    SlotSums(h, i, h'.slots[i], o1, o');
    SameSums(h1, h', o');
    HoleAdded(h, i);
    assert multiset{} + o'.heads == SlotHeads(s) + o1.heads;
    Cancel(Heads(h', o'), Heads(h, o1), SlotHeads(s) + o1.heads);
    forall k: nat
      ensures Refs(h', o')[k] + Count(h.slots, k) == Refs(h, o1)[k] + Count(h'.slots, k)
    {
      assert (Refs(h', o') + (ContentRefs(s.content) + o1.roots))[k] == (Refs(h, o1) + (multiset{} + o'.roots))[k];
    }
    Transfer(h, h', rank, segLen, o1, o');
  }

  lemma SameSums(h: Store, h': Store, o: Owners)
    requires h'.slots == h.slots && h'.segs == h.segs
    ensures Refs(h', o) == Refs(h, o) && Heads(h', o) == Heads(h, o) && Prevs(h', o) == Prevs(h, o)
  {
  }

  function Alone(g: Option<Seg>): nat {
    if g.Some? && g.value.refcnt == 0 then 1 else 0
  }

  function Standing(g: Option<Seg>): nat {
    if g.Some? then g.value.refcnt else 0
  }

  /** What replacing segment `id` does to the sums. */
  lemma SegSums(h: Store, id: nat, g: Option<Seg>, o: Owners, o': Owners)
    requires id < |h.segs|
    ensures
      var h' := SetSeg(h, id, g);
      && Refs(h', o') + (SegRefs(h.segs[id]) + o.roots) == Refs(h, o) + (SegRefs(g) + o'.roots)
      && Prevs(h', o') + (SegPrev(h.segs[id]) + o.links) == Prevs(h, o) + (SegPrev(g) + o'.links)
  {
    hide Total, SegRefs, SegPrev;
    var h' := SetSeg(h, id, g);
    var slots := Total(h.slots, SlotRefs);
    TotalUpdate(h.segs, SegRefs, id, g);
    TotalUpdate(h.segs, SegPrev, id, g);
    Rebalance(Total(h.segs, SegRefs), SegRefs(h.segs[id]), Total(h'.segs, SegRefs), SegRefs(g), slots, o.roots,
        o'.roots);
    assert Refs(h', o') == Total(h'.segs, SegRefs) + slots + o'.roots;
    assert Refs(h, o) == Total(h.segs, SegRefs) + slots + o.roots;
    Rebalance(Total(h.segs, SegPrev), SegPrev(h.segs[id]), Total(h'.segs, SegPrev), SegPrev(g), multiset{}, o.links,
        o'.links);
    assert Total(h'.segs, SegPrev) + multiset{} == Total(h'.segs, SegPrev);
    assert Total(h.segs, SegPrev) + multiset{} == Total(h.segs, SegPrev);
  }

  lemma At(a: multiset<nat>, b: multiset<nat>, c: multiset<nat>, d: multiset<nat>, k: nat)
    requires a + b == c + d
    ensures a[k] + b[k] == c[k] + d[k]
  {
    assert (a + b)[k] == (c + d)[k];
  }

  /** One segment replaced: the invariant is kept if the references it held, the segment it stood on
      and its own standing are accounted for. */
  lemma SegReplace(h: Store, id: nat, g: Option<Seg>, rank: seq<nat>, segLen: nat, o: Owners, o': Owners)
    requires Inv(h, rank, segLen, o) && id < |h.segs|
    requires SegRefs(g) + o'.roots == SegRefs(h.segs[id]) + o.roots
    requires forall k: nat ::
      (SegPrev(g) + o'.links)[k] + (if k == id then Standing(h.segs[id]) else 0)
      == (SegPrev(h.segs[id]) + o.links)[k] + (if k == id then Standing(g) else 0)
    requires forall k: nat ::
      o'.heads[k] + (if k == id then Alone(h.segs[id]) else 0) == o.heads[k] + (if k == id then Alone(g) else 0)
    requires Linked(SetSeg(h, id, g).segs, rank) && Filled(SetSeg(h, id, g).segs, segLen)
    ensures Inv(SetSeg(h, id, g), rank, segLen, o')
    ensures Exact(h, o) ==> Exact(SetSeg(h, id, g), o')
  {
    hide Total, SegRefs, SegPrev, SlotRefs, SlotHeads, Filled, Linked, Refs, Prevs;
    var h' := SetSeg(h, id, g);
    SegSums(h, id, g, o, o');
    Cancel(Refs(h', o'), Refs(h, o), SegRefs(h.segs[id]) + o.roots);
    forall k: nat
      ensures Prevs(h', o')[k] == Children(h'.segs, k)
    {
      At(Prevs(h', o'), SegPrev(h.segs[id]) + o.links, Prevs(h, o), SegPrev(g) + o'.links, k);
      assert Prevs(h, o)[k] == Children(h.segs, k);
    }
    forall k: nat
      ensures Heads(h', o')[k] == if Live(h'.segs, k) && Children(h'.segs, k) == 0 then 1 else 0
    {
      assert Heads(h, o)[k] == if Live(h.segs, k) && Children(h.segs, k) == 0 then 1 else 0;
    }
    assert forall k: nat :: Count(h'.slots, k) == Count(h.slots, k);
  }

  function Recount(g: Option<Seg>, n: nat): Option<Seg>
    requires g.Some?
  {
    Some(g.value.(refcnt := n))
  }

  /** A stack head that anyone owns, in the pool or outside it. */
  lemma OwnedFacts(h: Store, rank: seq<nat>, segLen: nat, o: Owners, id: nat)
    requires Inv(h, rank, segLen, o) && id in Heads(h, o)
    ensures Live(h.segs, id) && h.segs[id].value.refcnt == 0 && Total(h.segs, SegPrev)[id] == 0
    ensures Heads(h, o)[id] == 1
  {
    assert Prevs(h, o)[id] == Children(h.segs, id);
  }

  lemma HeadFacts(h: Store, rank: seq<nat>, segLen: nat, o: Owners, id: nat)
    requires Inv(h, rank, segLen, o) && id in o.heads
    ensures Live(h.segs, id) && h.segs[id].value.refcnt == 0 && Total(h.segs, SegPrev)[id] == 0
    ensures o.heads[id] == 1
  {
    assert Heads(h, o)[id] >= o.heads[id] >= 1;
    OwnedFacts(h, rank, segLen, o, id);
  }

  lemma LinkFacts(h: Store, rank: seq<nat>, segLen: nat, o: Owners, id: nat)
    requires Inv(h, rank, segLen, o) && id in o.links
    ensures Live(h.segs, id) && h.segs[id].value.refcnt >= 1
    ensures h.segs[id].value.refcnt == 1 ==> Total(h.segs, SegPrev)[id] == 0
  {
    assert Prevs(h, o)[id] == Children(h.segs, id);
  }

  lemma PrevFacts(h: Store, rank: seq<nat>, segLen: nat, o: Owners, id: nat)
    requires Inv(h, rank, segLen, o) && Live(h.segs, id) && h.segs[id].value.prev.Some?
    ensures
      var p := h.segs[id].value.prev.value;
      && Live(h.segs, p) && h.segs[p].value.refcnt >= 1 && p != id && p !in Heads(h, o)
      && Total(h.segs, SegPrev)[p] >= 1
  {
    var p := h.segs[id].value.prev.value;
    TotalHas(h.segs, SegPrev, id);
    assert SegPrev(h.segs[id])[p] == 1;
    assert Prevs(h, o)[p] == Children(h.segs, p);
    assert Heads(h, o)[p] == 0;
  }

  /** Nothing stands on a segment that no segment names as its previous one. */
  lemma NoChild(segs: seq<Option<Seg>>, id: nat)
    requires Total(segs, SegPrev)[id] == 0
    ensures forall k :: 0 <= k < |segs| && segs[k].Some? ==> segs[k].value.prev != Some(id)
  {
    forall k | 0 <= k < |segs| && segs[k].Some?
      ensures segs[k].value.prev != Some(id)
    {
      TotalHas(segs, SegPrev, k);
      assert SegPrev(segs[k])[id] <= Total(segs, SegPrev)[id];
    }
  }

  /** The sum of predecessors after a segment is replaced. */
  lemma PrevTotal(segs: seq<Option<Seg>>, id: nat, g: Option<Seg>)
    requires id < |segs|
    ensures forall k: nat ::
              Total(segs[id := g], SegPrev)[k] + SegPrev(segs[id])[k] == Total(segs, SegPrev)[k] + SegPrev(g)[k]
  {
    TotalUpdate(segs, SegPrev, id, g);
    forall k: nat
      ensures Total(segs[id := g], SegPrev)[k] + SegPrev(segs[id])[k] == Total(segs, SegPrev)[k] + SegPrev(g)[k]
    {
      At(Total(segs[id := g], SegPrev), SegPrev(segs[id]), Total(segs, SegPrev), SegPrev(g), k);
    }
  }

  /** Changing only a segment's count leaves the links and the filling as they are. */
  lemma RecountShape(segs: seq<Option<Seg>>, id: nat, n: nat, rank: seq<nat>, segLen: nat)
    requires Live(segs, id) && Linked(segs, rank) && Filled(segs, segLen)
    ensures Linked(segs[id := Recount(segs[id], n)], rank) && Filled(segs[id := Recount(segs[id], n)], segLen)
    ensures SegPrev(Recount(segs[id], n)) == SegPrev(segs[id]) && SegRefs(Recount(segs[id], n)) == SegRefs(segs[id])
  {
    hide SegPrev, SegRefs, Total, Linked, Filled;
    RecountSums(segs[id], n);
    RelinkLinked(segs, id, Recount(segs[id], n), rank);
    RecountFilled(segs, id, n, segLen);
  }

  lemma RecountFilled(segs: seq<Option<Seg>>, id: nat, n: nat, segLen: nat)
    requires Live(segs, id) && Filled(segs, segLen)
    ensures Filled(segs[id := Recount(segs[id], n)], segLen)
  {
    hide SegPrev, Total;
    var segs' := segs[id := Recount(segs[id], n)];
    RecountSums(segs[id], n);
    SamePrevTotal(segs, id, Recount(segs[id], n));
    forall k | 0 <= k < |segs'| && segs'[k].Some?
      ensures |segs'[k].value.elems| <= segLen
      ensures Total(segs', SegPrev)[k] > 0 ==> |segs'[k].value.elems| + 3 >= segLen
    {
      assert segs[k].Some? && segs[k].value.elems == segs'[k].value.elems;
    }
  }

  /** A segment replaced by one whose predecessor is older too. */
  lemma RelinkLinked(segs: seq<Option<Seg>>, id: nat, g: Option<Seg>, rank: seq<nat>)
    requires Linked(segs, rank) && Live(segs, id) && g.Some?
    requires g.value.prev.Some? && g.value.prev != segs[id].value.prev ==>
      Live(segs, g.value.prev.value) && rank[g.value.prev.value] < rank[id]
    ensures Linked(segs[id := g], rank)
  {
    var segs' := segs[id := g];
    forall k | 0 <= k < |segs'| && segs'[k].Some? && segs'[k].value.prev.Some?
      ensures Live(segs', segs'[k].value.prev.value) && rank[segs'[k].value.prev.value] < rank[k]
    {
      assert segs[k].Some?;
    }
  }

  lemma RecountSums(g: Option<Seg>, n: nat)
    requires g.Some?
    ensures SegPrev(Recount(g, n)) == SegPrev(g) && SegRefs(Recount(g, n)) == SegRefs(g)
  {
  }

  lemma SamePrevTotal(segs: seq<Option<Seg>>, id: nat, g: Option<Seg>)
    requires id < |segs| && SegPrev(g) == SegPrev(segs[id])
    ensures Total(segs[id := g], SegPrev) == Total(segs, SegPrev)
  {
    hide Total, SegPrev;
    TotalUpdate(segs, SegPrev, id, g);
    Cancel(Total(segs[id := g], SegPrev), Total(segs, SegPrev), SegPrev(g));
  }

  /** `vs->refcnt = 1`: the owner of a head becomes a segment, or stands for one. */
  lemma Grab(h: Store, rank: seq<nat>, segLen: nat, o: Owners, id: nat)
    requires Inv(h, rank, segLen, AddHead(o, id))
    ensures Live(h.segs, id) && h.segs[id].value.refcnt == 0
    ensures Inv(SetSeg(h, id, Recount(h.segs[id], 1)), rank, segLen, AddLink(o, id))
    ensures Exact(h, AddHead(o, id)) ==> Exact(SetSeg(h, id, Recount(h.segs[id], 1)), AddLink(o, id))
  {
    hide Total, SegRefs, SegPrev, Linked, Filled;
    HeadFacts(h, rank, segLen, AddHead(o, id), id);
    RecountShape(h.segs, id, 1, rank, segLen);
    SegReplace(h, id, Recount(h.segs[id], 1), rank, segLen, AddHead(o, id), AddLink(o, id));
  }

  /** `++refcnt` of a segment that others stand on already. */
  lemma Bump(h: Store, rank: seq<nat>, segLen: nat, o: Owners, id: nat)
    requires Inv(h, rank, segLen, o) && Live(h.segs, id) && h.segs[id].value.refcnt > 0
    ensures Inv(SetSeg(h, id, Recount(h.segs[id], h.segs[id].value.refcnt + 1)), rank, segLen, AddLink(o, id))
    ensures Exact(h, o) ==> Exact(SetSeg(h, id, Recount(h.segs[id], h.segs[id].value.refcnt + 1)), AddLink(o, id))
  {
    hide Total, SegRefs, SegPrev, Linked, Filled;
    var n := h.segs[id].value.refcnt + 1;
    RecountShape(h.segs, id, n, rank, segLen);
    SegReplace(h, id, Recount(h.segs[id], n), rank, segLen, o, AddLink(o, id));
  }

  /** `--refcnt` of a segment that others stand on still, or that becomes a head again. */
  lemma Unlink(h: Store, rank: seq<nat>, segLen: nat, o: Owners, id: nat)
    requires Inv(h, rank, segLen, AddLink(o, id))
    ensures Live(h.segs, id) && h.segs[id].value.refcnt >= 1
    ensures
      var n := h.segs[id].value.refcnt - 1;
      var o' := if n == 0 then AddHead(o, id) else o;
      && Inv(SetSeg(h, id, Recount(h.segs[id], n)), rank, segLen, o')
      && (Exact(h, AddLink(o, id)) ==> Exact(SetSeg(h, id, Recount(h.segs[id], n)), o'))
  {
    hide Total, SegRefs, SegPrev, Linked, Filled;
    LinkFacts(h, rank, segLen, AddLink(o, id), id);
    var n := h.segs[id].value.refcnt - 1;
    RecountShape(h.segs, id, n, rank, segLen);
    SegReplace(h, id, Recount(h.segs[id], n), rank, segLen, AddLink(o, id), if n == 0 then AddHead(o, id) else o);
  }

  lemma FreeLinked(segs: seq<Option<Seg>>, id: nat, rank: seq<nat>)
    requires Live(segs, id) && Linked(segs, rank) && Total(segs, SegPrev)[id] == 0
    ensures Linked(segs[id := None], rank)
  {
    NoChild(segs, id);
  }

  lemma FreeFilled(segs: seq<Option<Seg>>, id: nat, segLen: nat)
    requires Live(segs, id) && Filled(segs, segLen)
    ensures Filled(segs[id := None], segLen)
  {
    PrevTotal(segs, id, None);
  }

  /** A head is freed: the references it held and the segment it stood on are left to whoever freed it. */
  lemma FreeHead(h: Store, rank: seq<nat>, segLen: nat, o: Owners, id: nat)
    requires Inv(h, rank, segLen, AddHead(o, id))
    ensures Live(h.segs, id)
    ensures
      var o' := AddRoots(o, SegRefs(h.segs[id])).(links := o.links + SegPrev(h.segs[id]));
      && Inv(SetSeg(h, id, None), rank, segLen, o')
      && (Exact(h, AddHead(o, id)) ==> Exact(SetSeg(h, id, None), o'))
  {
    hide Total, Linked, Filled;
    HeadFacts(h, rank, segLen, AddHead(o, id), id);
    FreeLinked(h.segs, id, rank);
    FreeFilled(h.segs, id, segLen);
    var o' := AddRoots(o, SegRefs(h.segs[id])).(links := o.links + SegPrev(h.segs[id]));
    SegReplace(h, id, None, rank, segLen, AddHead(o, id), o');
  }

  /** The elements of a segment are replaced; unless it is a head they stay as many. */
  lemma SetElems(h: Store, rank: seq<nat>, segLen: nat, o: Owners, id: nat, elems: seq<Var>, o': Owners)
    requires Inv(h, rank, segLen, o) && Live(h.segs, id) && |elems| <= segLen
    requires id in o.heads || |elems| == |h.segs[id].value.elems|
    requires VarsRefs(elems) + o'.roots == VarsRefs(h.segs[id].value.elems) + o.roots
    requires o'.heads == o.heads && o'.links == o.links
    ensures Inv(SetSeg(h, id, Some(h.segs[id].value.(elems := elems))), rank, segLen, o')
    ensures Exact(h, o) ==> Exact(SetSeg(h, id, Some(h.segs[id].value.(elems := elems))), o')
  {
    hide Total, Linked, Filled;
    var g := Some(h.segs[id].value.(elems := elems));
    if id in o.heads {
      HeadFacts(h, rank, segLen, o, id);
    }
    ElemsLinked(h.segs, id, elems, rank);
    ElemsFilled(h.segs, id, elems, segLen);
    SegReplace(h, id, g, rank, segLen, o, o');
  }

  lemma ElemsLinked(segs: seq<Option<Seg>>, id: nat, elems: seq<Var>, rank: seq<nat>)
    requires Live(segs, id) && Linked(segs, rank)
    ensures Linked(segs[id := Some(segs[id].value.(elems := elems))], rank)
  {
  }

  lemma ElemsFilled(segs: seq<Option<Seg>>, id: nat, elems: seq<Var>, segLen: nat)
    requires Live(segs, id) && Filled(segs, segLen) && |elems| <= segLen
    requires Total(segs, SegPrev)[id] == 0 || |elems| == |segs[id].value.elems|
    ensures Filled(segs[id := Some(segs[id].value.(elems := elems))], segLen)
  {
    var g := Some(segs[id].value.(elems := elems));
    PrevTotal(segs, id, g);
    SamePrev(segs[id].value, elems);
    hide SegPrev, Total;
    var segs' := segs[id := g];
    forall k | 0 <= k < |segs'| && segs'[k].Some?
      ensures |segs'[k].value.elems| <= segLen
      ensures Total(segs', SegPrev)[k] > 0 ==> |segs'[k].value.elems| + 3 >= segLen
    {
      assert Total(segs', SegPrev)[k] + SegPrev(segs[id])[k] == Total(segs, SegPrev)[k] + SegPrev(g)[k];
      assert segs[k].Some?;
    }
  }

  lemma SamePrev(g: Seg, elems: seq<Var>)
    ensures SegPrev(Some(g.(elems := elems))) == SegPrev(Some(g))
  {
  }

  /** A segment comes to stand on another one. */
  lemma Relink(h: Store, rank: seq<nat>, segLen: nat, o: Owners, id: nat, p: nat)
    requires Inv(h, rank, segLen, AddLink(o, p)) && Live(h.segs, id) && h.segs[id].value.prev.Some?
    requires Live(h.segs, p) && rank[p] < rank[id] && |h.segs[p].value.elems| + 3 >= segLen
    ensures
      var g := Some(h.segs[id].value.(prev := Some(p)));
      var o' := AddLink(o, h.segs[id].value.prev.value);
      && Inv(SetSeg(h, id, g), rank, segLen, o')
      && (Exact(h, AddLink(o, p)) ==> Exact(SetSeg(h, id, g), o'))
  {
    hide Total, SegRefs, Linked, Filled;
    var g := Some(h.segs[id].value.(prev := Some(p)));
    var o' := AddLink(o, h.segs[id].value.prev.value);
    RelinkShape(h.segs, id, p, rank, segLen);
    SameElems(h.segs[id].value, Some(p));
    SegReplace(h, id, g, rank, segLen, AddLink(o, p), o');
  }

  lemma RelinkShape(segs: seq<Option<Seg>>, id: nat, p: nat, rank: seq<nat>, segLen: nat)
    requires Linked(segs, rank) && Filled(segs, segLen) && Live(segs, id)
    requires Live(segs, p) && rank[p] < rank[id] && |segs[p].value.elems| + 3 >= segLen
    ensures
      var segs' := segs[id := Some(segs[id].value.(prev := Some(p)))];
      Linked(segs', rank) && Filled(segs', segLen)
  {
    hide Linked, Filled;
    RelinkLinked(segs, id, Some(segs[id].value.(prev := Some(p))), rank);
    RelinkFilled(segs, id, p, segLen);
  }

  lemma RelinkFilled(segs: seq<Option<Seg>>, id: nat, p: nat, segLen: nat)
    requires Filled(segs, segLen) && Live(segs, id)
    requires Live(segs, p) && |segs[p].value.elems| + 3 >= segLen
    ensures Filled(segs[id := Some(segs[id].value.(prev := Some(p)))], segLen)
  {
    var g := Some(segs[id].value.(prev := Some(p)));
    var segs' := segs[id := g];
    PrevTotal(segs, id, g);
    assert SegPrev(g) == multiset{p};
    hide SegPrev, Total;
    forall k | 0 <= k < |segs'| && segs'[k].Some?
      ensures |segs'[k].value.elems| <= segLen
      ensures Total(segs', SegPrev)[k] > 0 ==> |segs'[k].value.elems| + 3 >= segLen
    {
      assert Total(segs', SegPrev)[k] + SegPrev(segs[id])[k] == Total(segs, SegPrev)[k] + SegPrev(g)[k];
      assert segs[k].Some? && segs[k].value.elems == segs'[k].value.elems;
    }
  }

  lemma SameElems(g: Seg, p: Option<nat>)
    ensures SegRefs(Some(g.(prev := p))) == SegRefs(Some(g))
  {
  }

  /** A new head, made of references and a link that its maker holds. */
  lemma AddSeg(h: Store, g: Seg, rank: seq<nat>, r: nat, segLen: nat, o: Owners)
    requires Inv(h, rank, segLen, o.(roots := o.roots + VarsRefs(g.elems), links := o.links + SegPrev(Some(g))))
    requires g.refcnt == 0 && |g.elems| <= segLen
    requires g.prev.Some? ==> Live(h.segs, g.prev.value) && rank[g.prev.value] < r
                              && |h.segs[g.prev.value].value.elems| + 3 >= segLen
    ensures Inv(h.(segs := h.segs + [Some(g)]), rank + [r], segLen, AddHead(o, |h.segs|))
    ensures Exact(h, o.(roots := o.roots + VarsRefs(g.elems), links := o.links + SegPrev(Some(g))))
        ==> Exact(h.(segs := h.segs + [Some(g)]), AddHead(o, |h.segs|))
  {
    hide Total, SegPrev, VarsRefs, Linked, Filled, Covered;
    var o1 := o.(roots := o.roots + VarsRefs(g.elems), links := o.links + SegPrev(Some(g)));
    var h', o' := h.(segs := h.segs + [Some(g)]), AddHead(o, |h.segs|);
    TotalAppend(h.segs, SegRefs, Some(g));
    TotalAppend(h.segs, SegPrev, Some(g));
    assert Refs(h', o') == Refs(h, o1);
    assert Prevs(h', o') == Prevs(h, o1);
    forall k: nat
      ensures Prevs(h', o')[k] == Children(h'.segs, k)
    {
      assert Prevs(h, o1)[k] == Children(h.segs, k);
    }
    forall k: nat
      ensures Heads(h', o')[k] == if Live(h'.segs, k) && Children(h'.segs, k) == 0 then 1 else 0
    {
      assert Heads(h, o1)[k] == if Live(h.segs, k) && Children(h.segs, k) == 0 then 1 else 0;
    }
    assert Prevs(h, o1)[|h.segs|] == 0;
    AddLinked(h.segs, g, rank, r);
    AddFilled(h.segs, g, segLen);
    CoveredBy(h, h', o1, o');
  }

  lemma CoveredBy(h: Store, h': Store, o: Owners, o': Owners)
    requires Refs(h', o') == Refs(h, o) && h'.slots == h.slots && Covered(h, o)
    ensures Covered(h', o') && (Exact(h, o) ==> Exact(h', o'))
  {
  }

  lemma AddLinked(segs: seq<Option<Seg>>, g: Seg, rank: seq<nat>, r: nat)
    requires Linked(segs, rank)
    requires g.prev.Some? ==> Live(segs, g.prev.value) && rank[g.prev.value] < r
    ensures Linked(segs + [Some(g)], rank + [r])
  {
  }

  lemma AddFilled(segs: seq<Option<Seg>>, g: Seg, segLen: nat)
    requires Filled(segs, segLen) && |g.elems| <= segLen && Total(segs, SegPrev)[|segs|] == 0
    requires g.prev.Some? ==> Live(segs, g.prev.value) && |segs[g.prev.value].value.elems| + 3 >= segLen
    ensures Filled(segs + [Some(g)], segLen)
  {
    TotalAppend(segs, SegPrev, Some(g));
    hide Total;
    var segs' := segs + [Some(g)];
    forall k | 0 <= k < |segs'| && segs'[k].Some?
      ensures |segs'[k].value.elems| <= segLen
      ensures Total(segs', SegPrev)[k] > 0 ==> |segs'[k].value.elems| + 3 >= segLen
    {
      assert Total(segs', SegPrev)[k] == Total(segs, SegPrev)[k] + SegPrev(Some(g))[k];
    }
  }

  /** The slot that an allocation takes: the last hole, or the next slot never used. */
  function NextSlot(h: Store): nat
    requires HolesRight(h)
  {
    if h.holes == [] then |h.slots| else h.holes[|h.holes| - 1]
  }

  function Allocated(h: Store, c: Content): Store
    requires HolesRight(h)
  {
    if h.holes == [] then h.(slots := h.slots + [Slot(c, 1)])
    else h.(slots := h.slots[h.holes[|h.holes| - 1] := Slot(c, 1)], holes := h.holes[..|h.holes| - 1])
  }

  function ContentHeads(c: Content): multiset<nat> {
    if c.Cont? then multiset{c.stack} else multiset{}
  }

  lemma HoleTaken(h: Store, c: Content)
    requires HolesRight(h)
    ensures HolesRight(Allocated(h, c))
    ensures Count(h.slots, NextSlot(h)) == 0
    ensures forall k: nat :: Count(Allocated(h, c).slots, k) == if k == NextSlot(h) then 1 else Count(h.slots, k)
  {
    if h.holes != [] {
      var n := |h.holes| - 1;
      var h' := Allocated(h, c);
      forall i | 0 <= i < |h'.slots|
        ensures h'.slots[i].refcnt == 0 <==> i in h'.holes
      {
        if i in h.holes && i != h.holes[n] {
          var k :| 0 <= k < |h.holes| && h.holes[k] == i;
          assert h'.holes[k] == i;
        }
      }
    } else {
      var h' := Allocated(h, c);
      assert forall i :: 0 <= i < |h.slots| ==> h.slots[i].refcnt > 0;
    }
  }

  /** A slot of no references is filled: it takes over the references and the head that its content
      consists of, and comes back as one reference. */
  lemma Alloc(h: Store, rank: seq<nat>, segLen: nat, o: Owners, c: Content)
    requires Inv(h, rank, segLen, o.(roots := o.roots + ContentRefs(c), heads := o.heads + ContentHeads(c)))
    ensures Inv(Allocated(h, c), rank, segLen, AddRoots(o, multiset{NextSlot(h)}))
    ensures Exact(h, o.(roots := o.roots + ContentRefs(c), heads := o.heads + ContentHeads(c)))
        ==> Exact(Allocated(h, c), AddRoots(o, multiset{NextSlot(h)}))
  {
    hide Total, ContentRefs, ContentHeads, Covered, Exact, Counts, Linked, Filled, HolesRight, Count;
    var o1 := o.(roots := o.roots + ContentRefs(c), heads := o.heads + ContentHeads(c));
    var h', o' := Allocated(h, c), AddRoots(o, multiset{NextSlot(h)});
    HoleTaken(h, c);
    AllocSums(h, c);
    assert Heads(h', o') == Heads(h, o1);
    forall k: nat
      ensures Refs(h', o')[k] + Count(h.slots, k) == Refs(h, o1)[k] + Count(h'.slots, k)
    {
      assert Refs(h', o') == Refs(h, o1) + multiset{NextSlot(h)};
    }
    Transfer(h, h', rank, segLen, o1, o');
  }

  lemma AllocSums(h: Store, c: Content)
    requires HolesRight(h)
    ensures Total(Allocated(h, c).slots, SlotRefs) == Total(h.slots, SlotRefs) + ContentRefs(c)
    ensures Total(Allocated(h, c).slots, SlotHeads) == Total(h.slots, SlotHeads) + ContentHeads(c)
  {
    HoleTaken(h, c);
    hide Total, ContentRefs;
    if h.holes == [] {
      TotalAppend(h.slots, SlotRefs, Slot(c, 1));
      TotalAppend(h.slots, SlotHeads, Slot(c, 1));
    } else {
      var i := NextSlot(h);
      TotalUpdate(h.slots, SlotRefs, i, Slot(c, 1));
      TotalUpdate(h.slots, SlotHeads, i, Slot(c, 1));
      assert SlotRefs(h.slots[i]) == SlotHeads(h.slots[i]) == multiset{};
    }
  }

  /** The sum of all counts, which every release lowers. */
  function SumCounts(slots: seq<Slot>): nat {
    if slots == [] then 0 else SumCounts(slots[..|slots| - 1]) + slots[|slots| - 1].refcnt
  }

  lemma {:induction false} SumUpdate(slots: seq<Slot>, i: nat, s: Slot)
    requires i < |slots|
    ensures SumCounts(slots[i := s]) + slots[i].refcnt == SumCounts(slots) + s.refcnt
    decreases |slots|
  {
    var n := |slots| - 1;
    var t := slots[i := s];
    if i < n {
      assert t[..n] == slots[..n][i := s] && slots[..n][i] == slots[i];
      SumUpdate(slots[..n], i, s);
    } else {
      assert t[..n] == slots[..n];
    }
  }

  /** The flat stack under a head: what is below, then the segment's own elements. */
  function View(segs: seq<Option<Seg>>, rank: seq<nat>, id: nat): seq<Var>
    requires Linked(segs, rank) && Live(segs, id)
    decreases rank[id]
  {
    var g := segs[id].value;
    (if g.prev.None? then [] else View(segs, rank, g.prev.value)) + g.elems
  }

  /** From one heap to the next, segments may have been freed or have other counts, or be new. */
  predicate Kept(segs: seq<Option<Seg>>, segs': seq<Option<Seg>>) {
    && |segs| <= |segs'|
    && forall id :: 0 <= id < |segs| && segs'[id].Some? ==>
         segs[id].Some? && segs'[id].value.prev == segs[id].value.prev &&
             segs'[id].value.elems == segs[id].value.elems
  }

  /** What is still there has its old view. */
  lemma {:induction false} ViewKept(segs: seq<Option<Seg>>, rank: seq<nat>, segs': seq<Option<Seg>>, rank': seq<nat>,
      id: nat)
    requires Linked(segs, rank) && Linked(segs', rank') && Kept(segs, segs')
    requires id < |segs| && Live(segs', id)
    ensures Live(segs, id) && View(segs', rank', id) == View(segs, rank, id)
    decreases rank'[id]
  {
    var p := segs'[id].value.prev;
    if p.Some? {
      assert Live(segs, p.value);
      ViewKept(segs, rank, segs', rank', p.value);
    }
  }

  /** A referenced slot is in use. */
  lemma RootCount(h: Store, rank: seq<nat>, segLen: nat, o: Owners, i: nat)
    requires Inv(h, rank, segLen, o) && i in o.roots
    ensures i < |h.slots| && h.slots[i].refcnt > 0
  {
    assert Refs(h, o)[i] <= Count(h.slots, i);
  }

  /** Different numbers below `n` are at most `n`. */
  lemma {:induction false} Pigeonhole(s: seq<nat>, n: nat)
    requires forall k :: 0 <= k < |s| ==> s[k] < n
    requires forall k, l :: 0 <= k < l < |s| ==> s[k] != s[l]
    ensures |s| <= n
    decreases n
  {
    if s != [] {
      assert s[0] < n;
      if n - 1 in s {
        var k :| 0 <= k < |s| && s[k] == n - 1;
        var t := s[..k] + s[k + 1..];
        forall a | 0 <= a < |t|
          ensures t[a] < n - 1
        {
          assert t[a] == if a < k then s[a] else s[a + 1];
        }
        forall a, b | 0 <= a < b < |t|
          ensures t[a] != t[b]
        {
          assert t[a] == if a < k then s[a] else s[a + 1];
          assert t[b] == if b < k then s[b] else s[b + 1];
        }
        Pigeonhole(t, n - 1);
      } else {
        assert forall k :: 0 <= k < |s| ==> s[k] in s;
        Pigeonhole(s, n - 1);
      }
    }
  }

  /** There is always room for one hole more: a slot in use is not among them. */
  lemma HoleRoom(h: Store, rank: seq<nat>, segLen: nat, o: Owners, i: nat)
    requires Inv(h, rank, segLen, o) && Count(h.slots, i) > 0
    ensures |h.holes| < |h.slots|
  {
    Pigeonhole(h.holes + [i], |h.slots|);
  }

  /** The view of whatever `id` is; nothing if it is no segment. */
  function Flat(segs: seq<Option<Seg>>, rank: seq<nat>, id: nat): seq<Var> {
    if Linked(segs, rank) && Live(segs, id) then View(segs, rank, id) else []
  }

  /** The stacks under `heads` look the same before and after. */
  ghost predicate SameViews(segs: seq<Option<Seg>>, rank: seq<nat>, segs': seq<Option<Seg>>, rank': seq<nat>,
      heads: multiset<nat>) {
    forall h: nat :: h in heads ==> Flat(segs', rank', h) == Flat(segs, rank, h)
  }

  lemma SameViewsTrans(segs: seq<Option<Seg>>, rank: seq<nat>, segs': seq<Option<Seg>>, rank': seq<nat>,
                       segs'': seq<Option<Seg>>, rank'': seq<nat>, heads: multiset<nat>)
    requires SameViews(segs, rank, segs', rank', heads) && SameViews(segs', rank', segs'', rank'', heads)
    ensures SameViews(segs, rank, segs'', rank'', heads)
  {
    forall h: nat | h in heads
      ensures Flat(segs'', rank'', h) == Flat(segs, rank, h)
    {
      assert Flat(segs', rank', h) == Flat(segs, rank, h);
    }
  }

  /** Owned heads keep their views when segments are only freed, recounted or added. */
  lemma KeptViews(h: Store, rank: seq<nat>, h': Store, rank': seq<nat>, segLen: nat, o: Owners, o': Owners,
      heads: multiset<nat>)
    requires Inv(h, rank, segLen, o) && Inv(h', rank', segLen, o') && Kept(h.segs, h'.segs)
    requires forall id: nat :: id in heads ==> id in Heads(h, o) && id in Heads(h', o')
    ensures SameViews(h.segs, rank, h'.segs, rank', heads)
  {
    hide Heads, Covered, Filled, Counts, HolesRight;
    forall id: nat | id in heads
      ensures Flat(h'.segs, rank', id) == Flat(h.segs, rank, id)
    {
      OwnedFacts(h, rank, segLen, o, id);
      OwnedFacts(h', rank', segLen, o', id);
      ViewKept(h.segs, rank, h'.segs, rank', id);
    }
  }

  /** Nothing but segment `a` has changed, and nothing stands on `a`. */
  lemma {:induction false} ViewFrame(segs: seq<Option<Seg>>, rank: seq<nat>, a: nat, g: Option<Seg>, id: nat)
    requires Linked(segs, rank) && a < |segs| && Linked(segs[a := g], rank)
    requires Total(segs, SegPrev)[a] == 0 && Live(segs, id) && id != a
    ensures View(segs[a := g], rank, id) == View(segs, rank, id)
    decreases rank[id]
  {
    hide Total;
    NoChild(segs, a);
    if segs[id].value.prev.Some? {
      ViewFrame(segs, rank, a, g, segs[id].value.prev.value);
    }
  }

  /** What is written to one head is not seen under any other. */
  lemma WriteViews(h: Store, rank: seq<nat>, segLen: nat, o: Owners, o': Owners, a: nat, elems: seq<Var>)
    requires Inv(h, rank, segLen, AddHead(o, a)) && Live(h.segs, a)
    requires Inv(SetSeg(h, a, Some(h.segs[a].value.(elems := elems))), rank, segLen, AddHead(o', a)) &&
        o'.heads == o.heads
    ensures SameViews(h.segs, rank, SetSeg(h, a, Some(h.segs[a].value.(elems := elems))).segs, rank, Heads(h, o))
  {
    hide Total, Heads;
    var g := Some(h.segs[a].value.(elems := elems));
    HeadFacts(h, rank, segLen, AddHead(o, a), a);
    OtherHeads(h, rank, segLen, o, a);
    forall id: nat | id in Heads(h, o)
      ensures Flat(h.segs[a := g], rank, id) == Flat(h.segs, rank, id)
    {
      ViewFrame(h.segs, rank, a, g, id);
    }
  }

  /** The heads besides `a`, which is owned outside the pool: those of continuations among them. */
  lemma OtherHeads(h: Store, rank: seq<nat>, segLen: nat, o: Owners, a: nat)
    requires Inv(h, rank, segLen, AddHead(o, a))
    ensures Heads(h, AddHead(o, a)) == Heads(h, o) + multiset{a} && a !in Heads(h, o)
    ensures forall x: nat :: x in Heads(h, o) ==> Live(h.segs, x) && h.segs[x].value.refcnt == 0
  {
    hide Total;
    assert Heads(h, AddHead(o, a)) == Heads(h, o) + multiset{a};
    assert Heads(h, AddHead(o, a))[a] == Heads(h, o)[a] + 1;
    assert Heads(h, AddHead(o, a))[a] <= 1;
    forall x: nat | x in Heads(h, o)
      ensures Live(h.segs, x) && h.segs[x].value.refcnt == 0
    {
      assert Heads(h, AddHead(o, a))[x] >= 1;
    }
  }

  /** A head's own view, in terms of what is below it. */
  lemma ViewTop(segs: seq<Option<Seg>>, rank: seq<nat>, id: nat, elems: seq<Var>)
    requires Linked(segs, rank) && Live(segs, id) && Total(segs, SegPrev)[id] == 0
    requires Linked(segs[id := Some(segs[id].value.(elems := elems))], rank)
    ensures
      var p := segs[id].value.prev;
      var below := if p.None? then [] else View(segs, rank, p.value);
      && Flat(segs, rank, id) == below + segs[id].value.elems
      && Flat(segs[id := Some(segs[id].value.(elems := elems))], rank, id) == below + elems
  {
    hide Total;
    var g := Some(segs[id].value.(elems := elems));
    NoChild(segs, id);
    if segs[id].value.prev.Some? {
      ViewFrame(segs, rank, id, g, segs[id].value.prev.value);
    }
  }

  lemma {:induction false} TotalPrepend<T>(s: seq<T>, f: T -> multiset<nat>, x: T)
    ensures Total([x] + s, f) == f(x) + Total(s, f)
    decreases |s|
  {
    var t := [x] + s;
    if s == [] {
      assert t[..|t| - 1] == [];
    } else {
      assert t[..|t| - 1] == [x] + s[..|s| - 1] && t[|t| - 1] == s[|s| - 1];
      TotalPrepend(s[..|s| - 1], f, x);
    }
  }

  lemma {:induction false} TotalConcat<T>(s: seq<T>, t: seq<T>, f: T -> multiset<nat>)
    ensures Total(s + t, f) == Total(s, f) + Total(t, f)
    decreases |t|
  {
    if t == [] {
      assert s + t == s;
    } else {
      var n := |t| - 1;
      assert (s + t)[..|s + t| - 1] == s + t[..n];
      TotalConcat(s, t[..n], f);
    }
  }

  /** If `a` is the only one on `p`, no other segment than these two shows what is in `p`. */
  lemma OnlyChild(segs: seq<Option<Seg>>, a: nat, p: nat)
    requires Live(segs, a) && segs[a].value.prev == Some(p) && Total(segs, SegPrev)[p] == 1
    ensures forall k :: 0 <= k < |segs| && segs[k].Some? && segs[k].value.prev == Some(p) ==> k == a
  {
    PrevTotal(segs, a, None);
    NoChild(segs[a := None], p);
    forall k | 0 <= k < |segs| && segs[k].Some? && k != a
      ensures segs[k].value.prev != Some(p)
    {
      assert segs[a := None][k] == segs[k];
    }
  }

  lemma OneOn(h: Store, rank: seq<nat>, segLen: nat, o: Owners, p: nat)
    requires Inv(h, rank, segLen, o) && Live(h.segs, p)
    ensures Total(h.segs, SegPrev)[p] <= h.segs[p].value.refcnt
  {
    assert Prevs(h, o)[p] == Children(h.segs, p);
  }
}
