/** Steps of the memory as values: what each operation may change, and why the invariant, the counts
    and the views come through it. */
module Steps {
  import opened Syntax
  import opened Heap

  /** Slots that are in use after a release were in use before, with the same content. */
  predicate SlotsKept(before: seq<Slot>, after: seq<Slot>) {
    && |after| == |before|
    && forall i :: 0 <= i < |after| && after[i].refcnt > 0 ==>
        before[i].refcnt > 0 && after[i].content == before[i].content
  }

  /** What a release does besides lowering counts: nothing new, nothing moved. */
  predicate Shrunk(before: Store, after: Store) {
    SlotsKept(before.slots, after.slots) && Kept(before.segs, after.segs) && |after.segs| == |before.segs|
  }

  /** No slot has lost a reference or changed its content. */
  predicate Retained(before: seq<Slot>, after: seq<Slot>) {
    && |after| == |before|
    && forall i :: 0 <= i < |after| ==>
         && after[i].content == before[i].content && after[i].refcnt >= before[i].refcnt
         && (before[i].refcnt == 0 ==> after[i].refcnt == 0)
  }

  /** No continuation has died. */
  predicate ContsKept(before: seq<Slot>, after: seq<Slot>) {
    && |after| == |before|
    && forall i :: 0 <= i < |after| && before[i].refcnt > 0 && before[i].content.Cont? ==> after[i].refcnt > 0
  }

  /** The reference that a variable may be, as an entry of the release list. */
  function Entry(v: Var): seq<nat> {
    if Counted(v) then [v.ref] else []
  }

  /** Slot `i` has been filled, and no other one has lost a reference or changed its content. */
  predicate Grown(before: seq<Slot>, after: seq<Slot>, i: nat) {
    && |before| <= |after|
    && forall k :: 0 <= k < |before| && k != i ==>
         && after[k].content == before[k].content && after[k].refcnt >= before[k].refcnt
         && (before[k].refcnt == 0 ==> after[k].refcnt == 0)
  }

  /** The operations of the VM on its stack. */
  datatype StackOp = Put(vs: seq<Var>) | Take | Exchange(v: Var)

  /** What an operation does to a plain sequence; None if it is too short. */
  function OnOne(op: StackOp, s: seq<Var>): Option<seq<Var>> {
    match op
    case Put(vs) => Some(s + vs)
    case Take => if s == [] then None else Some(s[..|s| - 1])
    case Exchange(v) => if |s| < 2 then None else Some(s[|s| - 2 := v])
  }

  /** What a run of operations does to a plain sequence; None if it is too short at some point. */
  function OnSequence(ops: seq<StackOp>, s: seq<Var>): Option<seq<Var>> {
    if ops == [] then Some(s)
    else
      match OnOne(ops[0], s)
      case None => None
      case Some(t) => OnSequence(ops[1..], t)
  }

  /** The references that the values in an operation are. */
  function OpRefs(op: StackOp): multiset<nat> {
    match op
    case Put(vs) => VarsRefs(vs)
    case Take => multiset{}
    case Exchange(v) => VarRefs(v)
  }

  function OpsRefs(ops: seq<StackOp>): multiset<nat> {
    if ops == [] then multiset{} else OpRefs(ops[0]) + OpsRefs(ops[1..])
  }

  /** A segment with other elements. */
  function Replaced(segs: seq<Option<Seg>>, a: nat, elems: seq<Var>): seq<Option<Seg>>
    requires Live(segs, a)
  {
    segs[a := Some(segs[a].value.(elems := elems))]
  }

  /** Segment `a` with a new one on top of it. */
  function OnTop(segs: seq<Option<Seg>>, a: nat, vs: seq<Var>): seq<Option<Seg>>
    requires Live(segs, a)
  {
    segs[a := Recount(segs[a], 1)] + [Some(Seg(Some(a), vs, 0))]
  }

  /** The elements of the active segment `a` are replaced, references being handed over. */
  lemma ElemsSet(h: Store, rank: seq<nat>, segLen: nat, o: Owners, a: nat, vs: seq<Var>, roots: multiset<nat>)
    requires Inv(h, rank, segLen, AddHead(o, a)) && |vs| <= segLen && Live(h.segs, a)
    requires VarsRefs(vs) + roots == VarsRefs(h.segs[a].value.elems) + o.roots
    ensures
      var h' := h.(segs := Replaced(h.segs, a, vs));
      var s, n := Flat(h.segs, rank, a), |Flat(h.segs, rank, a)| - |h.segs[a].value.elems|;
      && Inv(h', rank, segLen, AddHead(o.(roots := roots), a))
      && (Exact(h, AddHead(o, a)) ==> Exact(h', AddHead(o.(roots := roots), a)))
      && SameViews(h.segs, rank, h'.segs, rank, Heads(h, o))
      && n >= 0 && Flat(h'.segs, rank, a) == s[..n] + vs && s == s[..n] + h.segs[a].value.elems
  {
    hide Inv, Exact, Total, SameViews, VarsRefs, Flat;
    var o' := o.(roots := roots);
    ActiveFacts(h, rank, segLen, o, a);
    SetElems(h, rank, segLen, AddHead(o, a), a, vs, AddHead(o', a));
    ShapeOf(h.(segs := Replaced(h.segs, a, vs)), rank, segLen, AddHead(o', a));
    ViewTop(h.segs, rank, a, vs);
    WriteViews(h, rank, segLen, o, o', a, vs);
  }

  /** The top of the segment below the head `a`, on which nothing else stands, is replaced. */
  lemma WriteBelow(h: Store, rank: seq<nat>, segLen: nat, o: Owners, a: nat, p: nat, v: Var)
    requires Inv(h, rank, segLen, AddHead(AddRoots(o, VarRefs(v)), a))
    requires Live(h.segs, a) && h.segs[a].value.prev == Some(p)
    requires Live(h.segs, p) && h.segs[p].value.refcnt == 1 && h.segs[p].value.elems != []
    ensures
      var e := h.segs[p].value.elems[|h.segs[p].value.elems| - 1];
      var s, k := Flat(h.segs, rank, a), |Flat(h.segs, rank, a)| - |h.segs[a].value.elems| - 1;
      && Inv(h.(segs := SetTop(h.segs, p, v)), rank, segLen, AddHead(AddRoots(o, VarRefs(e)), a))
      && (Exact(h, AddHead(AddRoots(o, VarRefs(v)), a)) ==>
            Exact(h.(segs := SetTop(h.segs, p, v)), AddHead(AddRoots(o, VarRefs(e)), a)))
      && SameViews(h.segs, rank, SetTop(h.segs, p, v), rank, Heads(h, o))
      && 0 <= k < |s| && e == s[k] && Flat(SetTop(h.segs, p, v), rank, a) == s[k := v]
  {
    hide Inv, Exact, SameViews, VarRefs, VarsRefs, Flat, Linked, Filled, Total;
    var es, o1 := h.segs[p].value.elems, AddRoots(o, VarRefs(v));
    var k := |es| - 1;
    var o2 := AddRoots(o, VarRefs(es[k]));
    SwapRefs(es, k, v, o.roots);
    SegFits(h, rank, segLen, AddHead(o1, a), p);
    SetElems(h, rank, segLen, AddHead(o1, a), p, es[k := v], AddHead(o2, a));
    ShapeOf(h, rank, segLen, AddHead(o1, a));
    ShapeOf(h.(segs := SetTop(h.segs, p, v)), rank, segLen, AddHead(o2, a));
    BelowViews(h, rank, segLen, o1, a, p, v);
  }

  const EMPTY: Store := Store([], [], [Some(Seg(None, [], 0))])

  const NOBODY: Owners := Owners(multiset{}, multiset{}, multiset{})

  lemma EmptyStore(segLen: nat)
    ensures Inv(EMPTY, [0], segLen, AddHead(NOBODY, 0)) && Exact(EMPTY, AddHead(NOBODY, 0))
  {
    hide Total, Prevs, Heads, Refs;
    EmptySums();
    assert forall id: nat :: multiset{0}[id] == if id == 0 then 1 else 0;
  }

  lemma EmptySums()
    ensures Prevs(EMPTY, AddHead(NOBODY, 0)) == multiset{}
    ensures Heads(EMPTY, AddHead(NOBODY, 0)) == multiset{0}
    ensures Refs(EMPTY, AddHead(NOBODY, 0)) == multiset{}
    ensures Total(EMPTY.segs, SegPrev) == multiset{}
  {
    assert EMPTY.segs[..0] == [];
    assert Total(EMPTY.segs, SegPrev) == Total([], SegPrev) + SegPrev(EMPTY.segs[0]);
    assert Total(EMPTY.segs, SegRefs) == Total([], SegRefs) + SegRefs(EMPTY.segs[0]);
  }

  lemma HolesOf(h: Store, rank: seq<nat>, segLen: nat, o: Owners)
    requires Inv(h, rank, segLen, o)
    ensures HolesRight(h)
  {
  }

  lemma ClosureOwners(o: Owners, v1: Var, v2: Var)
    ensures o.(roots := o.roots + ContentRefs(Closure(v1, v2)), heads := o.heads + ContentHeads(Closure(v1, v2)))
         == AddRoots(o, VarRefs(v1) + VarRefs(v2))
  {
    assert o.heads + multiset{} == o.heads;
  }

  lemma ContOwners(o: Owners, stack: nat, ins: nat)
    ensures o.(roots := o.roots + ContentRefs(Cont(stack, ins)), heads := o.heads + ContentHeads(Cont(stack, ins)))
         == AddHead(o, stack)
  {
    assert o.roots + multiset{} == o.roots;
  }

  lemma SwapHeads(o: Owners, a: nat, b: nat)
    ensures AddHead(AddHead(o, a), b) == AddHead(AddHead(o, b), a)
  {
    assert o.heads + multiset{a} + multiset{b} == o.heads + multiset{b} + multiset{a};
  }

  /** The stack of a continuation in use is a head of its own. */
  lemma ContLive(h: Store, rank: seq<nat>, segLen: nat, o: Owners, i: nat)
    requires Inv(h, rank, segLen, o) && Count(h.slots, i) > 0 && h.slots[i].content.Cont?
    ensures Live(h.segs, h.slots[i].content.stack)
  {
    var id := h.slots[i].content.stack;
    TotalHas(h.slots, SlotHeads, i);
    assert SlotHeads(h.slots[i])[id] == 1;
    assert Heads(h, o)[id] >= 1;
  }

  /** Whoever owns a head after a release owned it before. */
  lemma HeadsShrink(h: Store, h': Store, o: Owners)
    requires SlotsKept(h.slots, h'.slots)
    ensures forall id: nat :: id in Heads(h', o) ==> id in Heads(h, o)
  {
    hide Total;
    forall id: nat | id in Heads(h', o)
      ensures id in Heads(h, o)
    {
      if id !in o.heads {
        var i := TotalFrom(h'.slots, SlotHeads, id);
        TotalHas(h.slots, SlotHeads, i);
        assert id in SlotHeads(h.slots[i]);
      }
    }
  }

  lemma {:induction false} RetainedHeads(a: seq<Slot>, b: seq<Slot>)
    requires Retained(a, b)
    ensures Total(a, SlotHeads) == Total(b, SlotHeads)
    decreases |a|
  {
    if a != [] {
      RetainedHeads(a[..|a| - 1], b[..|b| - 1]);
    }
  }

  lemma StillOwned(h: Store, h': Store, o: Owners, o': Owners)
    requires Retained(h.slots, h'.slots) && o'.heads == o.heads
    ensures Heads(h', o') == Heads(h, o)
  {
    RetainedHeads(h.slots, h'.slots);
  }

  /** With the slots unchanged, whoever is added to the owners, the heads stay owned. */
  lemma HeadsWithin(h: Store, h': Store, o: Owners)
    requires h'.slots == h.slots
    ensures Heads(h', o) == Heads(h, o)
    ensures forall more: multiset<nat> :: Heads(h, AddRoots(o, more)) == Heads(h, o)
    ensures forall a: nat, x: nat :: x in Heads(h, o) ==> x in Heads(h', AddHead(o, a)) && x in Heads(h, AddHead(o, a))
  {
    hide Total;
    forall a: nat, x: nat | x in Heads(h, o)
      ensures x in Heads(h', AddHead(o, a))
    {
      assert Heads(h, AddHead(o, a))[x] >= Heads(h, o)[x];
    }
  }

  /** After a release, every stack that is still owned shows what it showed before. */
  lemma ViewsShrink(h: Store, h': Store, rank: seq<nat>, segLen: nat, o: Owners, o': Owners)
    requires Inv(h, rank, segLen, o) && Inv(h', rank, segLen, o') && Shrunk(h, h') && o'.heads <= o.heads
    ensures SameViews(h.segs, rank, h'.segs, rank, Heads(h', o'))
  {
    hide Inv, SameViews, Total;
    HeadsShrink(h, h', o');
    KeptViews(h, rank, h', rank, segLen, o, o', Heads(h', o'));
  }

  /** What reinstating the continuation in slot `i` comes to: `h1` is the memory after the copy, if
      one was made, `h'` the one after the old stack was discarded. */
  lemma Reinstated(h: Store, rank: seq<nat>, h1: Store, h': Store, rank': seq<nat>, segLen: nat, o: Owners,
      a: nat, vs: nat, i: nat)
    requires i < |h.slots| && h.slots[i].content.Cont? && h.slots[i].refcnt > 0
    requires Retained(h.slots, h1.slots) && Shrunk(h1, h')
    requires
      var o2 := AddRoots(o, multiset{i});
      Inv(h', rank', segLen, if h.slots[i].refcnt > 1 then AddHead(o2, vs) else o2)
    requires SameViews(h.segs, rank, h1.segs, rank', Heads(h, AddHead(AddRoots(o, multiset{i}), a)))
    requires
      var o2 := AddRoots(o, multiset{i});
      SameViews(h1.segs, rank', h'.segs, rank', Heads(h', if h.slots[i].refcnt > 1 then AddHead(o2, vs) else o2))
    requires h.slots[i].refcnt == 1 ==> vs == h.slots[i].content.stack
    ensures SlotsKept(h.slots, h'.slots)
    ensures h'.slots[i].content == h.slots[i].content && h'.slots[i].refcnt > o.roots[i]
    ensures SameViews(h.segs, rank, h'.segs, rank', Heads(h', o))
    ensures h'.slots[i].content.stack in Heads(h', o)
    ensures Flat(h'.segs, rank', vs) == Flat(h1.segs, rank', vs)
    ensures h.slots[i].refcnt == 1 ==> forall o': Owners, r: seq<nat> :: !Inv(h', r, segLen, AddHead(o', vs))
  {
    hide Inv, SameViews, Flat, Total, Retained, Shrunk;
    var o2 := AddRoots(o, multiset{i});
    var o3 := if h.slots[i].refcnt > 1 then AddHead(o2, vs) else o2;
    RetainedShrunk(h, h1, h');
    RootsHeld(h', rank', segLen, o3, i);
    ContOwned(h', o, i);
    if h.slots[i].refcnt > 1 {
      OtherHeads(h', rank', segLen, o2, vs);
      assert vs in Heads(h', o3);
      SameViewsOf(h1.segs, rank', h'.segs, rank', Heads(h', o3), vs);
    } else {
      SameViewsOf(h1.segs, rank', h'.segs, rank', Heads(h', o3), vs);
      forall o': Owners, r: seq<nat>
        ensures !Inv(h', r, segLen, AddHead(o', vs))
      {
        OneOwner(h', r, segLen, o', i);
      }
    }
    HeadsShrink(h, h', o);
    assert forall x: nat :: x in Heads(h, o) ==> x in Heads(h, AddHead(o2, a));
    SameViewsSub(h.segs, rank, h1.segs, rank', Heads(h, AddHead(o2, a)), Heads(h', o));
    SameViewsSub(h1.segs, rank', h'.segs, rank', Heads(h', o3), Heads(h', o));
    SameViewsTrans(h.segs, rank, h1.segs, rank', h'.segs, rank', Heads(h', o));
  }

  lemma SameViewsOf(segs: seq<Option<Seg>>, rank: seq<nat>, segs': seq<Option<Seg>>, rank': seq<nat>,
      heads: multiset<nat>, id: nat)
    requires SameViews(segs, rank, segs', rank', heads) && id in heads
    ensures Flat(segs', rank', id) == Flat(segs, rank, id)
  {
  }

  lemma SameViewsSub(segs: seq<Option<Seg>>, rank: seq<nat>, segs': seq<Option<Seg>>, rank': seq<nat>,
      heads: multiset<nat>, fewer: multiset<nat>)
    requires SameViews(segs, rank, segs', rank', heads) && forall x: nat :: x in fewer ==> x in heads
    ensures SameViews(segs, rank, segs', rank', fewer)
  {
  }

  /** A slot's count is at least the number of references held to it outside the pool. */
  lemma RootsHeld(h: Store, rank: seq<nat>, segLen: nat, o: Owners, i: nat)
    requires Inv(h, rank, segLen, o)
    ensures o.roots[i] <= Count(h.slots, i)
  {
    assert o.roots[i] <= Refs(h, o)[i] <= Count(h.slots, i);
  }

  /** A continuation in use owns its stack. */
  lemma ContOwned(h: Store, o: Owners, i: nat)
    requires i < |h.slots| && h.slots[i].refcnt > 0 && h.slots[i].content.Cont?
    ensures h.slots[i].content.stack in Heads(h, o)
  {
    hide Total;
    TotalHas(h.slots, SlotHeads, i);
    assert h.slots[i].content.stack in SlotHeads(h.slots[i]);
  }

  /** A stack that a continuation in use holds cannot be in force as well, whoever the other owners are. */
  lemma OneOwner(h: Store, rank: seq<nat>, segLen: nat, o: Owners, i: nat)
    requires i < |h.slots| && h.slots[i].refcnt > 0 && h.slots[i].content.Cont?
    ensures !Inv(h, rank, segLen, AddHead(o, h.slots[i].content.stack))
  {
    hide Total;
    var s := h.slots[i].content.stack;
    TotalHas(h.slots, SlotHeads, i);
    assert SlotHeads(h.slots[i])[s] == 1 <= Total(h.slots, SlotHeads)[s];
    assert Heads(h, AddHead(o, s))[s] >= 2;
  }

  lemma SwapRefs(es: seq<Var>, k: nat, v: Var, roots: multiset<nat>)
    requires k < |es|
    ensures VarsRefs(es[k := v]) + (roots + VarRefs(es[k])) == VarsRefs(es) + (roots + VarRefs(v))
  {
    hide VarRefs;
    TotalUpdate(es, VarRefs, k, v);
    assert VarsRefs(es[k := v]) + (roots + VarRefs(es[k])) == VarsRefs(es[k := v]) + VarRefs(es[k]) + roots;
    assert VarsRefs(es) + (roots + VarRefs(v)) == VarsRefs(es) + VarRefs(v) + roots;
  }

  lemma SwapInView(s: seq<Var>, es: seq<Var>, k: nat, v: Var)
    requires k < |es| <= |s| && s == s[..|s| - |es|] + es
    ensures s[|s| - |es| + k] == es[k] && s[..|s| - |es|] + es[k := v] == s[|s| - |es| + k := v]
  {
  }

  /** A view has fewer than two elements exactly if the segment has and is a bottom one. */
  lemma SmallView(h: Store, rank: seq<nat>, segLen: nat, o: Owners, a: nat)
    requires Inv(h, rank, segLen, o) && Live(h.segs, a) && segLen >= 64
    ensures |Flat(h.segs, rank, a)| < 2 <==> |h.segs[a].value.elems| < 2 && h.segs[a].value.prev.None?
  {
    SegFits(h, rank, segLen, o, a);
    var p := h.segs[a].value.prev;
    assert p.Some? ==> |View(h.segs, rank, p.value)| >= |h.segs[p.value].value.elems|;
  }

  lemma {:induction false} BelowFrame(segs: seq<Option<Seg>>, rank: seq<nat>, a: nat, p: nat, g: Option<Seg>, id: nat)
    requires Linked(segs, rank) && p < |segs| && Linked(segs[p := g], rank)
    requires forall k :: 0 <= k < |segs| && segs[k].Some? && segs[k].value.prev == Some(p) ==> k == a
    requires forall k :: 0 <= k < |segs| && segs[k].Some? ==> segs[k].value.prev != Some(a)
    requires Live(segs, id) && id != a && id != p
    ensures View(segs[p := g], rank, id) == View(segs, rank, id)
    decreases rank[id]
  {
    if segs[id].value.prev.Some? {
      BelowFrame(segs, rank, a, p, g, segs[id].value.prev.value);
    }
  }

  lemma BelowViews(h: Store, rank: seq<nat>, segLen: nat, o: Owners, a: nat, p: nat, v: Var)
    requires Inv(h, rank, segLen, AddHead(o, a)) && Live(h.segs, a) && h.segs[a].value.prev == Some(p)
    requires Live(h.segs, p) && h.segs[p].value.refcnt == 1 && h.segs[p].value.elems != []
    requires Linked(h.segs, rank) && Linked(SetTop(h.segs, p, v), rank)
    ensures
      var s, k := Flat(h.segs, rank, a), |Flat(h.segs, rank, a)| - |h.segs[a].value.elems| - 1;
      && SameViews(h.segs, rank, SetTop(h.segs, p, v), rank, Heads(h, o))
      && 0 <= k < |s| && s[k] == h.segs[p].value.elems[|h.segs[p].value.elems| - 1]
      && Flat(SetTop(h.segs, p, v), rank, a) == s[k := v]
  {
    hide Total, Inv, View, Linked, Heads;
    var es := h.segs[p].value.elems;
    var g := SetTop(h.segs, p, v)[p];
    var segs' := SetTop(h.segs, p, v);
    ActiveFacts(h, rank, segLen, o, a);
    PrevFacts(h, rank, segLen, AddHead(o, a), a);
    OneOn(h, rank, segLen, AddHead(o, a), p);
    OnlyChild(h.segs, a, p);
    NoChild(h.segs, a);
    OtherHeads(h, rank, segLen, o, a);
    forall x: nat | x in Heads(h, o)
      ensures Flat(h.segs[p := g], rank, x) == Flat(h.segs, rank, x)
    {
      BelowFrame(h.segs, rank, a, p, g, x);
    }
    var q := h.segs[p].value.prev;
    if q.Some? {
      BelowFrame(h.segs, rank, a, p, g, q.value);
    }
    var below := if q.None? then [] else View(h.segs, rank, q.value);
    ViewUnfolds(h.segs, rank, p);
    ViewUnfolds(h.segs, rank, a);
    ViewUnfolds(segs', rank, p);
    ViewUnfolds(segs', rank, a);
    BelowSeq(below, es, v, h.segs[a].value.elems);
  }

  lemma ViewUnfolds(segs: seq<Option<Seg>>, rank: seq<nat>, id: nat)
    requires Linked(segs, rank) && Live(segs, id)
    ensures
      var g := segs[id].value;
      && Flat(segs, rank, id) == View(segs, rank, id)
      && (g.prev.None? ==> View(segs, rank, id) == g.elems)
      && (g.prev.Some? ==>
            Live(segs, g.prev.value) && View(segs, rank, id) == View(segs, rank, g.prev.value) + g.elems)
  {
  }

  function SetTop(segs: seq<Option<Seg>>, p: nat, v: Var): seq<Option<Seg>>
    requires Live(segs, p) && segs[p].value.elems != []
  {
    var es := segs[p].value.elems;
    segs[p := Some(segs[p].value.(elems := es[|es| - 1 := v]))]
  }

  lemma BelowSeq(q: seq<Var>, es: seq<Var>, v: Var, top: seq<Var>)
    requires es != []
    ensures
      var s, k := q + es + top, |q| + |es| - 1;
      s[k] == es[|es| - 1] && q + es[|es| - 1 := v] + top == s[k := v]
  {
  }

  lemma GrownView(segs: seq<Option<Seg>>, rank: seq<nat>, segs': seq<Option<Seg>>, rank': seq<nat>, id: nat,
      p: Option<nat>)
    requires Linked(segs, rank) && Linked(segs', rank') && SegsGrown(segs, segs', p) && Live(segs, id)
    ensures Flat(segs', rank', id) == Flat(segs, rank, id)
  {
    ViewKept(segs, rank, segs', rank', id);
  }

  lemma SameViewsSelf(segs: seq<Option<Seg>>, rank: seq<nat>, heads: multiset<nat>)
    ensures SameViews(segs, rank, segs, rank, heads)
  {
  }

  lemma HeadsSplit(segs: seq<Option<Seg>>, rank: seq<nat>, segs': seq<Option<Seg>>, rank': seq<nat>,
      heads: multiset<nat>, a: nat)
    requires SameViews(segs, rank, segs', rank', heads + multiset{a})
    ensures SameViews(segs, rank, segs', rank', heads) && Flat(segs', rank', a) == Flat(segs, rank, a)
  {
    assert a in heads + multiset{a};
    assert forall x: nat :: x in heads ==> x in heads + multiset{a};
  }

  /** The head `a` comes to stand on `copy`, which shows the same as the segment it stood on: no view
      changes, neither its own nor that of another segment in `heads`. */
  lemma RelinkViews(segs: seq<Option<Seg>>, rank: seq<nat>, a: nat, copy: nat, heads: multiset<nat>)
    requires Linked(segs, rank) && Live(segs, a) && segs[a].value.prev.Some? && Live(segs, copy) && a != copy
    requires Linked(segs[a := Some(segs[a].value.(prev := Some(copy)))], rank)
    requires Total(segs, SegPrev)[a] == 0 && a !in heads && (forall h: nat :: h in heads ==> Live(segs, h))
    requires Flat(segs, rank, segs[a].value.prev.value) == Flat(segs, rank, copy)
    ensures
      var segs' := segs[a := Some(segs[a].value.(prev := Some(copy)))];
      SameViews(segs, rank, segs', rank, heads) && Flat(segs', rank, a) == Flat(segs, rank, a)
  {
    hide Total;
    var g := Some(segs[a].value.(prev := Some(copy)));
    forall h: nat | h in heads
      ensures Flat(segs[a := g], rank, h) == Flat(segs, rank, h)
    {
      ViewFrame(segs, rank, a, g, h);
    }
    ViewFrame(segs, rank, a, g, copy);
  }

  lemma RecountViews(segs: seq<Option<Seg>>, rank: seq<nat>, id: nat, n: nat, x: nat)
    requires Linked(segs, rank) && Live(segs, id)
    ensures Linked(segs[id := Recount(segs[id], n)], rank)
    ensures Flat(segs[id := Recount(segs[id], n)], rank, x) == Flat(segs, rank, x)
  {
    var segs' := segs[id := Recount(segs[id], n)];
    assert Linked(segs', rank);
    if Live(segs, x) {
      assert Live(segs', x);
      ViewKept(segs, rank, segs', rank, x);
    }
  }

  lemma RecountSame(segs: seq<Option<Seg>>, rank: seq<nat>, id: nat, n: nat, heads: multiset<nat>)
    requires Linked(segs, rank) && Live(segs, id)
    ensures SameViews(segs, rank, segs[id := Recount(segs[id], n)], rank, heads)
  {
    hide Linked, Flat;
    forall h: nat | h in heads
      ensures Flat(segs[id := Recount(segs[id], n)], rank, h) == Flat(segs, rank, h)
    {
      RecountViews(segs, rank, id, n, h);
    }
  }

  function Moved(segs: seq<Option<Seg>>, a: nat, copy: nat): seq<Option<Seg>>
    requires Live(segs, a) && Live(segs, copy) && a != copy
  {
    segs[copy := Recount(segs[copy], 1)][a := Some(segs[a].value.(prev := Some(copy)))]
  }

  /** The head `a` moves from the segment it stands on to a copy of that. */
  lemma MoveOver(h: Store, rank: seq<nat>, segLen: nat, o: Owners, a: nat, copy: nat)
    requires Inv(h, rank, segLen, AddHead(AddHead(o, a), copy))
    requires Live(h.segs, a) && h.segs[a].value.prev.Some? && Live(h.segs, copy) && a != copy
    requires copy < |rank| && a < |rank| && rank[copy] < rank[a] && |h.segs[copy].value.elems| + 3 >= segLen
    requires Flat(h.segs, rank, h.segs[a].value.prev.value) == Flat(h.segs, rank, copy)
    ensures
      var p, segs2 := h.segs[a].value.prev.value, Moved(h.segs, a, copy);
      && Live(segs2, p) && p != a && p != copy && segs2[p].value.refcnt == h.segs[p].value.refcnt >= 1
      && (h.segs[p].value.refcnt > 1 ==>
            var segs' := segs2[p := Recount(segs2[p], segs2[p].value.refcnt - 1)];
            && Inv(h.(segs := segs'), rank, segLen, AddHead(o, a))
            && (Exact(h, AddHead(AddHead(o, a), copy)) ==> Exact(h.(segs := segs'), AddHead(o, a)))
            && SameViews(h.segs, rank, segs', rank, Heads(h, o))
            && Flat(segs', rank, a) == Flat(h.segs, rank, a))
  {
    hide Inv, Exact, SameViews, Flat, Linked, Total, Heads;
    var p := h.segs[a].value.prev.value;
    var o0 := AddHead(o, a);
    HeadFacts(h, rank, segLen, AddHead(o0, copy), copy);
    PrevFacts(h, rank, segLen, AddHead(o0, copy), a);
    Grab(h, rank, segLen, o0, copy);
    var h1 := SetSeg(h, copy, Recount(h.segs[copy], 1));
    Relink(h1, rank, segLen, o0, a, copy);
    var h2 := SetSeg(h1, a, Some(h1.segs[a].value.(prev := Some(copy))));
    if h.segs[p].value.refcnt > 1 {
      var n := h.segs[p].value.refcnt - 1;
      Unlink(h2, rank, segLen, o0, p);
      ShapeOf(h2, rank, segLen, AddLink(o0, p));
      MoveViews(h, rank, segLen, o, a, copy, h1, h2);
      RecountSame(h2.segs, rank, p, n, Heads(h, o));
      RecountViews(h2.segs, rank, p, n, a);
      SameViewsTrans(h.segs, rank, h2.segs, rank, h2.segs[p := Recount(h2.segs[p], n)], rank, Heads(h, o));
    }
  }

  lemma MoveViews(h: Store, rank: seq<nat>, segLen: nat, o: Owners, a: nat, copy: nat, h1: Store, h2: Store)
    requires Inv(h, rank, segLen, AddHead(AddHead(o, a), copy)) && Inv(h1, rank, segLen, AddLink(AddHead(o, a), copy))
    requires Live(h.segs, a) && h.segs[a].value.prev.Some? && Live(h.segs, copy) && a != copy
    requires h1 == SetSeg(h, copy, Recount(h.segs[copy], 1)) &&
        h2 == SetSeg(h1, a, Some(h1.segs[a].value.(prev := Some(copy))))
    requires Linked(h2.segs, rank) && Flat(h.segs, rank, h.segs[a].value.prev.value) == Flat(h.segs, rank, copy)
    ensures Linked(h.segs, rank)
    ensures SameViews(h.segs, rank, h2.segs, rank, Heads(h, o)) && Flat(h2.segs, rank, a) == Flat(h.segs, rank, a)
  {
    hide Inv, SameViews, Flat, Linked, Total;
    var p := h.segs[a].value.prev.value;
    ShapeOf(h, rank, segLen, AddHead(AddHead(o, a), copy));
    ShapeOf(h1, rank, segLen, AddLink(AddHead(o, a), copy));
    RecountSame(h.segs, rank, copy, 1, Heads(h, o));
    RecountViews(h.segs, rank, copy, 1, a);
    RecountViews(h.segs, rank, copy, 1, p);
    RecountViews(h.segs, rank, copy, 1, copy);
    var o1 := AddLink(o, copy);
    assert AddLink(AddHead(o, a), copy) == AddHead(o1, a);
    ActiveFacts(h1, rank, segLen, o1, a);
    OtherHeads(h1, rank, segLen, o1, a);
    assert Heads(h1, o1) == Heads(h, o);
    RelinkViews(h1.segs, rank, a, copy, Heads(h, o));
    SameViewsTrans(h.segs, rank, h1.segs, rank, h2.segs, rank, Heads(h, o));
  }

  /** An empty head is freed and the segment below it loses one that stands on it. */
  lemma LeaveEmpty(h: Store, rank: seq<nat>, segLen: nat, o: Owners, a: nat)
    requires Inv(h, rank, segLen, AddHead(o, a)) && Live(h.segs, a)
    requires h.segs[a].value.elems == [] && h.segs[a].value.prev.Some?
    ensures
      var p := h.segs[a].value.prev.value;
      && p != a && Live(h.segs, p) && h.segs[p].value.refcnt >= 1
      && var n := h.segs[p].value.refcnt - 1;
         var h' := h.(segs := h.segs[a := None][p := Recount(h.segs[p], n)]);
         && Inv(h', rank, segLen, if n == 0 then AddHead(o, p) else o)
         && (Exact(h, AddHead(o, a)) ==> Exact(h', if n == 0 then AddHead(o, p) else o))
         && SameViews(h.segs, rank, h'.segs, rank, Heads(h, o))
         && Flat(h'.segs, rank, p) == Flat(h.segs, rank, a)
         && |h.segs[p].value.elems| + 3 >= segLen
  {
    hide Inv, Exact, SameViews, Total;
    var p := h.segs[a].value.prev.value;
    PrevFacts(h, rank, segLen, AddHead(o, a), a);
    SegFits(h, rank, segLen, AddHead(o, a), a);
    FreeHead(h, rank, segLen, o, a);
    NoRefs(h.segs[a], o);
    var h1 := SetSeg(h, a, None);
    Unlink(h1, rank, segLen, o, p);
    var n := h.segs[p].value.refcnt - 1;
    var h2 := SetSeg(h1, p, Recount(h.segs[p], n));
    var o2 := if n == 0 then AddHead(o, p) else o;
    ShapeOf(h, rank, segLen, AddHead(o, a));
    ShapeOf(h2, rank, segLen, o2);
    HeadsWithin(h, h2, o);
    KeptViews(h, rank, h2, rank, segLen, AddHead(o, a), o2, Heads(h, o));
    ViewKept(h.segs, rank, h2.segs, rank, p);
  }

  lemma NoRefs(g: Option<Seg>, o: Owners)
    requires g.Some? && g.value.elems == [] && g.value.prev.Some?
    ensures AddRoots(o, SegRefs(g)).(links := o.links + SegPrev(g)) == AddLink(o, g.value.prev.value)
  {
  }

  lemma SplitRefs(es: seq<Var>, v: Var, roots: multiset<nat>)
    ensures VarsRefs(es) + (roots + VarRefs(v)) == VarsRefs(es + [v]) + roots
  {
    TotalAppend(es, VarRefs, v);
  }

  /** The active segment's elements are the end of the view; only a bottom segment can be the end
      of an empty one. */
  lemma TopOfView(segs: seq<Option<Seg>>, rank: seq<nat>, a: nat)
    requires Linked(segs, rank) && Live(segs, a)
    ensures segs[a].value.elems != [] ==> Flat(segs, rank, a) != []
    ensures segs[a].value.elems == [] && segs[a].value.prev.None? ==> Flat(segs, rank, a) == []
  {
  }

  /** Segments that a copy leaves as they are, except for the count of the one it stands on. */
  predicate SegsGrown(before: seq<Option<Seg>>, after: seq<Option<Seg>>, p: Option<nat>) {
    && |after| == |before| + 1
    && forall k :: 0 <= k < |before| ==>
         after[k] == if p == Some(k) && before[k].Some? then Recount(before[k], before[k].value.refcnt + 1)
             else before[k]
  }

  /** A copy of segment `id` has come last. */
  predicate Copied(before: seq<Option<Seg>>, after: seq<Option<Seg>>, id: nat) {
    && Live(before, id) && SegsGrown(before, after, before[id].value.prev)
    && after[|before|] == Recount(before[id], 0)
  }

  /** Counting one reference for each that is held brings nothing to life. */
  lemma RetainedBy(before: seq<Slot>, after: seq<Slot>, vs: seq<Var>)
    requires |after| == |before|
    requires forall k :: 0 <= k < |vs| && Counted(vs[k]) ==> vs[k].ref < |before| && before[vs[k].ref].refcnt > 0
    requires forall k :: 0 <= k < |after| ==> after[k] == before[k].(refcnt := before[k].refcnt + VarsRefs(vs)[k])
    ensures Retained(before, after)
  {
    hide Total;
    forall k | 0 <= k < |after| && before[k].refcnt == 0
      ensures after[k].refcnt == 0
    {
      if k in VarsRefs(vs) {
        var j := TotalFrom(vs, VarRefs, k);
      }
    }
  }

  lemma NoneYet(vs: seq<Var>, o: Owners)
    ensures AddRoots(o, VarsRefs(vs[|vs|..])) == o && VarsRefs(vs[|vs|..]) == multiset{}
  {
  }

  lemma FirstVar(vs: seq<Var>, idx: nat, o: Owners)
    requires idx < |vs|
    ensures AddRoots(o, VarsRefs(vs[idx..])) == AddRoots(AddRoots(o, VarsRefs(vs[idx + 1..])), VarRefs(vs[idx]))
    ensures VarsRefs(vs[idx..]) == VarsRefs(vs[idx + 1..]) + VarRefs(vs[idx])
    ensures !Counted(vs[idx]) ==> VarRefs(vs[idx]) == multiset{}
    ensures !Counted(vs[idx]) ==> AddRoots(o, VarsRefs(vs[idx..])) == AddRoots(o, VarsRefs(vs[idx + 1..]))
    ensures Counted(vs[idx]) ==> VarRefs(vs[idx]) == multiset{vs[idx].ref}
  {
    assert vs[idx..] == [vs[idx]] + vs[idx + 1..];
    TotalPrepend(vs[idx + 1..], VarRefs, vs[idx]);
    assert VarRefs(vs[idx]) + VarsRefs(vs[idx + 1..]) == VarsRefs(vs[idx + 1..]) + VarRefs(vs[idx]);
    MoreRoots(o, VarsRefs(vs[idx + 1..]), VarRefs(vs[idx]));
  }

  /** What a live segment refers to is in use. */
  lemma SegRefsLive(h: Store, rank: seq<nat>, segLen: nat, o: Owners, id: nat)
    requires Inv(h, rank, segLen, o) && Live(h.segs, id)
    ensures id < |rank|
    ensures
      var vs := h.segs[id].value.elems;
      forall k :: 0 <= k < |vs| && Counted(vs[k]) ==> vs[k].ref < |h.slots| && h.slots[vs[k].ref].refcnt > 0
  {
    hide Total, Counted;
    var vs := h.segs[id].value.elems;
    forall k | 0 <= k < |vs| && Counted(vs[k])
      ensures vs[k].ref < |h.slots| && h.slots[vs[k].ref].refcnt > 0
    {
      TotalHas(vs, VarRefs, k);
      TotalHas(h.segs, SegRefs, id);
      assert VarRefs(vs[k])[vs[k].ref] == 1;
      assert Refs(h, o)[vs[k].ref] <= Count(h.slots, vs[k].ref);
    }
  }

  /** A copy of segment `id` is a new head with the same view, once its references are counted. */
  lemma CopySeg(h: Store, rank: seq<nat>, segLen: nat, o: Owners, id: nat)
    requires Live(h.segs, id) && Inv(h, rank, segLen, AddRoots(o, VarsRefs(h.segs[id].value.elems)))
    ensures id < |rank| && (h.segs[id].value.prev.Some? ==> Live(h.segs, h.segs[id].value.prev.value))
    ensures
      var vs := h.segs[id].value;
      var p := vs.prev;
      var bumped :=
        if p.Some? then h.segs[p.value := Recount(h.segs[p.value], h.segs[p.value].value.refcnt + 1)] else h.segs;
      var h' := h.(segs := bumped + [Some(vs.(refcnt := 0))]);
      && Inv(h', rank + [rank[id]], segLen, AddHead(o, |h.segs|))
      && (Exact(h, AddRoots(o, VarsRefs(vs.elems))) ==> Exact(h', AddHead(o, |h.segs|)))
      && SameViews(h.segs, rank, h'.segs, rank + [rank[id]], Heads(h, o))
      && Flat(h'.segs, rank + [rank[id]], |h.segs|) == Flat(h.segs, rank, id)
  {
    hide Inv, Exact, SameViews, VarsRefs, Total;
    var vs := h.segs[id].value;
    var top := vs.(refcnt := 0);
    var o1 := AddRoots(o, VarsRefs(vs.elems));
    ShapeOf(h, rank, segLen, o1);
    var h1, rank' := h, rank + [rank[id]];
    SegFits(h, rank, segLen, o1, id);
    if vs.prev.Some? {
      var p := vs.prev.value;
      PrevFacts(h, rank, segLen, o1, id);
      Bump(h, rank, segLen, o1, p);
      h1 := SetSeg(h, p, Recount(h.segs[p], h.segs[p].value.refcnt + 1));
      LinkRoots(o, top, p);
    } else {
      assert o.links + SegPrev(Some(top)) == o.links;
    }
    AddSeg(h1, top, rank, rank[id], segLen, o);
    var h' := h1.(segs := h1.segs + [Some(top)]);
    HeadsWithin(h, h', o);
    KeptViews(h, rank, h', rank', segLen, o1, AddHead(o, |h.segs|), Heads(h, o));
    ShapeOf(h', rank', segLen, AddHead(o, |h.segs|));
    if vs.prev.Some? {
      ViewKept(h.segs, rank, h'.segs, rank', vs.prev.value);
    }
  }

  /** A segment is not too long, and the one it stands on is nearly full. */
  lemma SegFits(h: Store, rank: seq<nat>, segLen: nat, o: Owners, id: nat)
    requires Inv(h, rank, segLen, o) && Live(h.segs, id)
    ensures |h.segs[id].value.elems| <= segLen
    ensures h.segs[id].value.prev.Some? ==>
      var p := h.segs[id].value.prev.value;
      Live(h.segs, p) && rank[p] < rank[id] && |h.segs[p].value.elems| + 3 >= segLen
  {
    if h.segs[id].value.prev.Some? {
      PrevFacts(h, rank, segLen, o, id);
    }
  }

  /** A head on which a new segment is put. */
  lemma OnNew(h: Store, rank: seq<nat>, segLen: nat, o: Owners, a: nat, vs: seq<Var>)
    requires Inv(h, rank, segLen, AddHead(AddRoots(o, VarsRefs(vs)), a)) && |vs| <= segLen
    requires Live(h.segs, a) && |h.segs[a].value.elems| + 3 >= segLen
    ensures a < |rank|
    ensures
      var h' := h.(segs := h.segs[a := Recount(h.segs[a], 1)] + [Some(Seg(Some(a), vs, 0))]);
      var rank' := rank + [rank[a] + 1];
      && Inv(h', rank', segLen, AddHead(o, |h.segs|))
      && (Exact(h, AddHead(AddRoots(o, VarsRefs(vs)), a)) ==> Exact(h', AddHead(o, |h.segs|)))
      && SameViews(h.segs, rank, h'.segs, rank', Heads(h, o))
      && Flat(h'.segs, rank', |h.segs|) == Flat(h.segs, rank, a) + vs
  {
    hide Inv, Exact, SameViews, VarsRefs, Flat, Total;
    var o1, top := AddRoots(o, VarsRefs(vs)), Seg(Some(a), vs, 0);
    Grab(h, rank, segLen, o1, a);
    var h1 := SetSeg(h, a, Recount(h.segs[a], 1));
    LinkRoots(o, top, a);
    ShapeOf(h1, rank, segLen, AddLink(o1, a));
    AddSeg(h1, top, rank, rank[a] + 1, segLen, o);
    var h' := h1.(segs := h1.segs + [Some(top)]);
    HeadsWithin(h, h', o);
    NewViews(h, rank, segLen, AddHead(o1, a), h', rank + [rank[a] + 1], AddHead(o, |h.segs|), Heads(h, o), a);
  }

  lemma ActiveFacts(h: Store, rank: seq<nat>, segLen: nat, o: Owners, id: nat)
    requires Inv(h, rank, segLen, AddHead(o, id))
    ensures Live(h.segs, id) && h.segs[id].value.refcnt == 0 && Total(h.segs, SegPrev)[id] == 0
    ensures Linked(h.segs, rank) && Filled(h.segs, segLen) && |h.segs[id].value.elems| <= segLen
    ensures id !in o.heads && id !in Heads(h, o)
  {
    OtherHeads(h, rank, segLen, o, id);
    HeadFacts(h, rank, segLen, AddHead(o, id), id);
    assert AddHead(o, id).heads[id] == o.heads[id] + 1;
  }

  lemma ShapeOf(h: Store, rank: seq<nat>, segLen: nat, o: Owners)
    requires Inv(h, rank, segLen, o)
    ensures Linked(h.segs, rank) && |rank| == |h.segs|
  {
  }

  lemma JoinRefs(a: seq<Var>, b: seq<Var>, roots: multiset<nat>)
    ensures VarsRefs(a + b) + roots == VarsRefs(a) + (roots + VarsRefs(b))
  {
    TotalConcat(a, b, VarRefs);
  }

  lemma LinkRoots(o: Owners, g: Seg, p: nat)
    requires g.prev == Some(p)
    ensures AddLink(AddRoots(o, VarsRefs(g.elems)), p)
        == o.(roots := o.roots + VarsRefs(g.elems), links := o.links + SegPrev(Some(g)))
  {
  }

  /** A new segment on top of the old head `a`. */
  lemma NewViews(h: Store, rank: seq<nat>, segLen: nat, o: Owners, h': Store, rank': seq<nat>, o': Owners,
      heads: multiset<nat>, a: nat)
    requires Inv(h, rank, segLen, o) && Inv(h', rank', segLen, o')
    requires Kept(h.segs, h'.segs)
    requires forall id: nat :: id in heads ==> id in Heads(h, o) && id in Heads(h', o')
    requires Live(h.segs, a) && Live(h'.segs, a)
    requires |h'.segs| == |h.segs| + 1 && h'.segs[|h.segs|].Some? && h'.segs[|h.segs|].value.prev == Some(a)
    ensures SameViews(h.segs, rank, h'.segs, rank', heads)
    ensures Flat(h'.segs, rank', |h.segs|) == Flat(h.segs, rank, a) + h'.segs[|h.segs|].value.elems
  {
    KeptViews(h, rank, h', rank', segLen, o, o', heads);
    ViewKept(h.segs, rank, h'.segs, rank', a);
  }

  lemma LiveRank(h: Store, rank: seq<nat>, segLen: nat, o: Owners, id: nat)
    requires Inv(h, rank, segLen, o) && Live(h.segs, id)
    ensures id < |rank|
  {
  }

  /** A link to a segment is given up: its count is lowered, or it is freed and what it held and the
      link to the next are left. */
  lemma FreeTurn(h: Store, rank: seq<nat>, segLen: nat, o: Owners, v: nat)
    requires Inv(h, rank, segLen, AddLink(o, v))
    ensures Live(h.segs, v) && h.segs[v].value.refcnt >= 1
    ensures
      var n := h.segs[v].value.refcnt - 1;
      var h' := SetSeg(h, v, Recount(h.segs[v], n));
      n > 0 ==>
        && Inv(h', rank, segLen, o) && Shrunk(h, h')
        && (Exact(h, AddLink(o, v)) ==> Exact(h', o))
    ensures
      var p, h' := h.segs[v].value.prev, SetSeg(h, v, None);
      var o' := AddRoots(if p.Some? then AddLink(o, p.value) else o, VarsRefs(h.segs[v].value.elems));
      h.segs[v].value.refcnt == 1 ==>
        && Inv(h', rank, segLen, o') && Shrunk(h, h')
        && (Exact(h, AddLink(o, v)) ==> Exact(h', o'))
        && (p.Some? ==> p.value < |rank| && v < |rank| && rank[p.value] < rank[v])
  {
    hide Inv, Exact, Shrunk, SegRefs, SegPrev, VarsRefs;
    Unlink(h, rank, segLen, o, v);
    var n := h.segs[v].value.refcnt - 1;
    RecountShrunk(h, v, n);
    if n == 0 {
      var lowered := SetSeg(h, v, Recount(h.segs[v], 0));
      FreeHead(lowered, rank, segLen, o, v);
      PrevRank(lowered, rank, segLen, AddHead(o, v), v);
      FreeShrunk(h, v);
      assert SetSeg(lowered, v, None) == SetSeg(h, v, None);
      NextLink(o, h.segs[v].value.prev);
    }
  }

  lemma NextLink(o: Owners, prev: Option<nat>)
    ensures o.(links := o.links + if prev.Some? then multiset{prev.value} else multiset{})
         == if prev.Some? then AddLink(o, prev.value) else o
  {
  }

  lemma OnPut(vs: seq<Var>, s: seq<Var>)
    ensures OnOne(Put(vs), s) == Some(s + vs)
  {
  }

  lemma OnTake(s: seq<Var>, t: seq<Var>, top: Option<Var>)
    requires if top.Some? then s == t + [top.value] else s == []
    ensures OnOne(Take, s) == if top.Some? then Some(t) else None
  {
  }

  lemma OnExchange(v: Var, s: seq<Var>)
    ensures OnOne(Exchange(v), s) == if |s| < 2 then None else Some(s[|s| - 2 := v])
  {
  }

  lemma NoRoots(o: Owners)
    ensures AddRoots(o, multiset{}) == o
  {
  }

  lemma MoreOps(o: Owners, ops: seq<StackOp>)
    requires ops != []
    ensures AddRoots(o, OpsRefs(ops)) == AddRoots(AddRoots(o, OpsRefs(ops[1..])), OpRefs(ops[0]))
  {
    assert o.roots + (OpRefs(ops[0]) + OpsRefs(ops[1..])) == o.roots + OpsRefs(ops[1..]) + OpRefs(ops[0]);
  }

  lemma CommuteRoots(o: Owners, a: multiset<nat>, b: multiset<nat>)
    ensures AddRoots(AddRoots(o, a), b) == AddRoots(AddRoots(o, b), a)
  {
    assert o.roots + a + b == o.roots + b + a;
  }

  lemma MoreRoots(o: Owners, a: multiset<nat>, b: multiset<nat>)
    ensures AddRoots(AddRoots(o, a), b) == AddRoots(o, a + b)
  {
    assert o.roots + a + b == o.roots + (a + b);
  }

  lemma LastVar(vs: seq<Var>, idx: nat)
    requires idx < |vs|
    ensures VarsRefs(vs[..idx + 1]) == VarsRefs(vs[..idx]) + VarRefs(vs[idx])
    ensures !Counted(vs[idx]) ==> VarsRefs(vs[..idx + 1]) == VarsRefs(vs[..idx])
    ensures VarsRefs(vs[..idx + 1]) == multiset{} ==> !Counted(vs[idx]) && VarsRefs(vs[..idx]) == multiset{}
  {
    assert vs[..idx + 1] == vs[..idx] + [vs[idx]];
    TotalAppend(vs[..idx], VarRefs, vs[idx]);
    var refs := VarsRefs(vs[..idx]);
    assert refs <= refs + VarRefs(vs[idx]);
    if Counted(vs[idx]) {
      assert (refs + VarRefs(vs[idx]))[vs[idx].ref] > 0;
    }
  }

  lemma NoVars(vs: seq<Var>, o: Owners)
    ensures AddRoots(o, VarsRefs(vs[..0])) == o && VarsRefs(vs[..0]) == multiset{}
  {
  }

  lemma DeadCont(o: Owners, c: Content)
    requires c.Cont?
    ensures AddRoots(o, ContentRefs(c)).(heads := o.heads + ContentHeads(c)) == AddHead(o, c.stack)
  {
  }

  lemma RetainedSame(a: seq<Slot>)
    ensures Retained(a, a)
  {
  }

  lemma GrownBy(a: seq<Slot>, b: seq<Slot>, c: seq<Slot>, i: nat)
    requires Retained(a, b) && |b| <= |c| && i < |c| && (i < |b| ==> b[i].refcnt == 0)
    requires forall k :: 0 <= k < |b| && k != i ==> c[k] == b[k]
    ensures Grown(a, c, i) && (i < |a| ==> a[i].refcnt == 0)
  {
  }

  lemma RetainedTrans(a: seq<Slot>, b: seq<Slot>, c: seq<Slot>)
    requires Retained(a, b) && Retained(b, c)
    ensures Retained(a, c)
  {
  }

  /** Copying a segment and then releasing brings nothing to life and moves nothing. */
  lemma RetainedShrunk(a: Store, b: Store, c: Store)
    requires Retained(a.slots, b.slots) && Shrunk(b, c)
    ensures SlotsKept(a.slots, c.slots)
  {
  }

  lemma ContsParts(a: Store, b: Store, c: Store)
    requires Shrunk(a, b) && Shrunk(b, c)
    ensures ContsKept(a.slots, c.slots) ==> ContsKept(a.slots, b.slots) && ContsKept(b.slots, c.slots)
  {
  }

  lemma StaysDead(h: Store, h': Store, i: nat)
    requires Shrunk(h, h') && i < |h.slots| && h.slots[i].refcnt == 0
    ensures i < |h'.slots| && h'.slots[i].refcnt == 0
  {
  }

  lemma DropLost(o: Owners, lost: multiset<nat>)
    ensures o.roots <= AddRoots(o, lost).roots && AddRoots(o, lost).(roots := o.roots) == o
  {
  }

  lemma Entries(o: Owners, todo: seq<nat>, c: Content)
    requires c.Closure?
    ensures AddRoots(o, multiset(todo) + ContentRefs(c)).(heads := o.heads + ContentHeads(c))
         == AddRoots(o, multiset(todo + Entry(c.v2) + Entry(c.v1)) + multiset{})
  {
    assert multiset(todo + Entry(c.v2) + Entry(c.v1)) + multiset{} == multiset(todo) + (VarRefs(c.v1) + VarRefs(c.v2));
    assert o.heads + multiset{} == o.heads;
  }

  /** Exact counts, but for what is lost, are exact only if nothing is. */
  lemma ExactLost(h: Store, o: Owners, lost: multiset<nat>)
    ensures Exact(h, AddRoots(o, lost)) ==> (Exact(h, o) <==> lost == multiset{})
  {
    hide Total;
    forall x: nat
      ensures Refs(h, AddRoots(o, lost))[x] == Refs(h, o)[x] + lost[x]
    {
    }
    if Exact(h, AddRoots(o, lost)) && Exact(h, o) {
      forall x: nat
        ensures lost[x] == 0
      {
        assert Refs(h, AddRoots(o, lost))[x] == Count(h.slots, x) == Refs(h, o)[x];
      }
      assert lost == multiset{};
    }
    NoRoots(o);
  }

  /** What is lost when a list `todo` is `fstack` after a nested release that lost `inner` itself. */
  ghost function Forgotten(todo: seq<nat>, fstack: seq<nat>, inner: multiset<nat>): multiset<nat> {
    if fstack == todo then inner else inner + multiset(todo)
  }

  lemma ForgottenRoots(o: Owners, todo: seq<nat>, fstack: seq<nat>, inner: multiset<nat>)
    requires fstack == todo || fstack == []
    ensures
      AddRoots(AddRoots(o, multiset(todo)), inner) == AddRoots(o, multiset(fstack) + Forgotten(todo, fstack, inner))
    ensures fstack == [] ==> Forgotten(todo, fstack, inner) >= multiset(todo)
  {
    if fstack == todo {
      assert o.roots + multiset(todo) + inner == o.roots + (multiset(todo) + inner);
    } else {
      assert o.roots + multiset(todo) + inner == o.roots + (multiset(fstack) + (inner + multiset(todo)));
    }
  }

  lemma TakeEntry(o: Owners, lost: multiset<nat>, todo: multiset<nat>, rest: multiset<nat>, cur: nat)
    requires todo == rest + multiset{cur}
    ensures AddRoots(o, todo + lost) == AddRoots(AddRoots(o, lost), rest + multiset{cur})
  {
    assert o.roots + (rest + multiset{cur} + lost) == o.roots + lost + (rest + multiset{cur});
  }

  /** The references of the first `idx + 1` variables and what is lost, before and after the last is
      released. */
  lemma LastRoots(o: Owners, vs: seq<Var>, idx: nat, lost: multiset<nat>, more: multiset<nat>)
    requires idx < |vs|
    ensures
      var o1 := AddRoots(o, VarsRefs(vs[..idx]) + lost);
      && AddRoots(o, VarsRefs(vs[..idx + 1]) + lost) == AddRoots(o1, VarRefs(vs[idx]))
      && AddRoots(o1, more) == AddRoots(o, VarsRefs(vs[..idx]) + (lost + more))
  {
    hide VarsRefs, VarRefs;
    LastVar(vs, idx);
    var rest, last := VarsRefs(vs[..idx]), VarRefs(vs[idx]);
    assert o.roots + (rest + last + lost) == o.roots + (rest + lost) + last;
    assert o.roots + (rest + lost) + more == o.roots + (rest + (lost + more));
  }

  lemma LinkRank(h: Store, rank: seq<nat>, segLen: nat, o: Owners, id: nat)
    requires Inv(h, rank, segLen, AddLink(o, id))
    ensures id < |rank|
  {
    LinkFacts(h, rank, segLen, AddLink(o, id), id);
  }

  lemma NextRoots(o: Owners, next: Option<nat>, lost: multiset<nat>, more: multiset<nat>)
    ensures
      var left := if next.Some? then AddLink(o, next.value) else o;
      AddRoots(if next.Some? then AddLink(AddRoots(o, lost), next.value) else AddRoots(o, lost), more)
      == AddRoots(left, lost + more)
  {
    assert o.roots + lost + more == o.roots + (lost + more);
  }

  lemma RootsUnder(o: Owners, lost: multiset<nat>, id: nat)
    ensures AddRoots(AddLink(o, id), lost) == AddLink(AddRoots(o, lost), id)
  {
  }

  lemma ShrunkSame(h: Store)
    ensures Shrunk(h, h)
  {
  }

  lemma ShrunkTrans(a: Store, b: Store, c: Store)
    requires Shrunk(a, b) && Shrunk(b, c)
    ensures Shrunk(a, c)
  {
  }

  lemma RecountShrunk(h: Store, id: nat, n: nat)
    requires Live(h.segs, id)
    ensures Shrunk(h, SetSeg(h, id, Recount(h.segs[id], n)))
  {
  }

  lemma FreeShrunk(h: Store, id: nat)
    requires Live(h.segs, id)
    ensures Shrunk(h, SetSeg(h, id, None))
  {
  }

  lemma PrevRank(h: Store, rank: seq<nat>, segLen: nat, o: Owners, id: nat)
    requires Inv(h, rank, segLen, o) && Live(h.segs, id)
    ensures id < |rank|
    ensures h.segs[id].value.prev.Some? ==>
        h.segs[id].value.prev.value < |rank| && rank[h.segs[id].value.prev.value] < rank[id]
    ensures SegPrev(h.segs[id]) == if h.segs[id].value.prev.Some? then multiset{h.segs[id].value.prev.value}
        else multiset{}
    ensures SegRefs(h.segs[id]) == VarsRefs(h.segs[id].value.elems)
  {
  }
}
