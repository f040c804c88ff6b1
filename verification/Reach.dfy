/** What the counts of the memory are for: nothing that can be reached is free, and nothing that
    cannot be reached stays. And what the shortcut in u6a_vm_stack_top does to that. */
module Reach {
  import opened Syntax
  import opened Heap
  import opened Steps

  /** Slot `i` is in use and refers to slot `j`. */
  predicate RefersTo(slots: seq<Slot>, i: nat, j: nat) {
    i < |slots| && slots[i].refcnt > 0 && j in ContentRefs(slots[i].content)
  }

  /** Closures refer to slots that were filled before them; `birth` witnesses that. */
  ghost predicate Ordered(slots: seq<Slot>, birth: seq<nat>) {
    && |birth| == |slots|
    && forall i: nat, j: nat :: RefersTo(slots, i, j) ==> j < |slots| && birth[j] < birth[i]
  }

  /** A chain of references from something outside the pool to slot `i`. */
  ghost predicate Path(slots: seq<Slot>, base: multiset<nat>, path: seq<nat>, i: nat) {
    && path != [] && path[0] in base && path[|path| - 1] == i
    && forall k :: 0 <= k < |path| - 1 ==>
         RefersTo(slots, path[k], path[k + 1])
  }

  ghost predicate Reachable(slots: seq<Slot>, base: multiset<nat>, i: nat) {
    exists path :: Path(slots, base, path, i)
  }

  /** References to the pool from outside it: the roots and the stack segments. */
  function Outside(h: Store, o: Owners): multiset<nat> {
    Total(h.segs, SegRefs) + o.roots
  }

  /** Whatever can be reached is in use. */
  lemma ReachableLive(h: Store, o: Owners, path: seq<nat>, i: nat)
    requires Covered(h, o) && Path(h.slots, Outside(h, o), path, i)
    ensures Count(h.slots, i) > 0
  {
    var n := |path| - 1;
    assert Refs(h, o)[i] <= Count(h.slots, i);
    if n > 0 {
      var j := path[n - 1];
      assert RefersTo(h.slots, path[n - 1], path[n - 1 + 1]);
      TotalHas(h.slots, SlotRefs, j);
      assert i in SlotRefs(h.slots[j]);
    }
  }

  function Bound(birth: seq<nat>): nat {
    if birth == [] then 0
    else
      var b := Bound(birth[..|birth| - 1]);
      if birth[|birth| - 1] >= b then birth[|birth| - 1] + 1 else b
  }

  lemma {:induction false} BoundAbove(birth: seq<nat>, i: nat)
    requires i < |birth|
    ensures birth[i] < Bound(birth)
    decreases |birth|
  {
    if i < |birth| - 1 {
      BoundAbove(birth[..|birth| - 1], i);
    }
  }

  lemma LonePath(slots: seq<Slot>, base: multiset<nat>, i: nat)
    requires i in base
    ensures Path(slots, base, [i], i)
  {
  }

  lemma PathExtend(slots: seq<Slot>, base: multiset<nat>, path: seq<nat>, j: nat, i: nat)
    requires Path(slots, base, path, j) && RefersTo(slots, j, i)
    ensures Path(slots, base, path + [i], i)
  {
    hide ContentRefs;
    var longer := path + [i];
    forall k | 0 <= k < |longer| - 1
      ensures RefersTo(slots, longer[k], longer[k + 1])
    {
      if k < |path| - 1 {
        assert path[k] == longer[k] && path[k + 1] == longer[k + 1];
      } else {
        assert longer[k] == j && longer[k + 1] == i;
      }
    }
  }

  /** Whatever is in use can be reached, where counts are exact. */
  lemma {:induction false} LiveReachable(h: Store, o: Owners, birth: seq<nat>, i: nat) returns (path: seq<nat>)
    requires Exact(h, o) && Ordered(h.slots, birth) && Count(h.slots, i) > 0
    ensures Path(h.slots, Outside(h, o), path, i)
    decreases Bound(birth) - birth[i]
  {
    hide Total, ContentRefs, Path, Bound;
    assert Refs(h, o)[i] == Count(h.slots, i);
    if i in Outside(h, o) {
      LonePath(h.slots, Outside(h, o), i);
      path := [i];
    } else {
      var j := TotalFrom(h.slots, SlotRefs, i);
      assert RefersTo(h.slots, j, i);
      BoundAbove(birth, j);
      BoundAbove(birth, i);
      path := LiveReachable(h, o, birth, j);
      PathExtend(h.slots, Outside(h, o), path, j, i);
      path := path + [i];
    }
  }

  /** With exact counts, the slots in use are exactly those that can be reached from outside the pool. */
  lemma LiveIffReachable(h: Store, o: Owners, birth: seq<nat>)
    requires Exact(h, o) && Ordered(h.slots, birth)
    ensures forall i: nat :: Count(h.slots, i) > 0 <==> Reachable(h.slots, Outside(h, o), i)
  {
    forall i: nat
      ensures Count(h.slots, i) > 0 <==> Reachable(h.slots, Outside(h, o), i)
    {
      if Count(h.slots, i) > 0 {
        var path := LiveReachable(h, o, birth, i);
      }
      if path :| Path(h.slots, Outside(h, o), path, i) {
        ReachableLive(h, o, path, i);
      }
    }
  }

  /** What a slot in use refers to is in use. */
  lemma RefersToLive(h: Store, o: Owners, i: nat, j: nat)
    requires Covered(h, o) && RefersTo(h.slots, i, j)
    ensures Count(h.slots, j) > 0
  {
    hide Total, ContentRefs;
    TotalHas(h.slots, SlotRefs, i);
    assert j in SlotRefs(h.slots[i]);
    assert SlotRefs(h.slots[i])[j] <= Total(h.slots, SlotRefs)[j];
    assert Refs(h, o)[j] <= Count(h.slots, j);
  }

  /** Every slot on a path through the heap before a release is in use after it. */
  lemma {:induction false} PathSurvives(h: Store, h': Store, o: Owners, path: seq<nat>, i: nat, n: nat)
    requires SlotsKept(h.slots, h'.slots) && Covered(h', o) && Path(h.slots, Outside(h', o), path, i) && n < |path|
    ensures Count(h'.slots, path[n]) > 0
    decreases n
  {
    hide ContentRefs, Total;
    if n == 0 {
      assert Outside(h', o)[path[0]] <= Refs(h', o)[path[0]] <= Count(h'.slots, path[0]);
    } else {
      PathSurvives(h, h', o, path, i, n - 1);
      assert RefersTo(h.slots, path[n - 1], path[n - 1 + 1]);
      assert RefersTo(h'.slots, path[n - 1], path[n]);
      RefersToLive(h', o, path[n - 1], path[n]);
    }
  }

  /** What a release leaves in use, where counts are exact for the owners `o` afterwards, forgotten
      references among them: the slots that could be reached in the heap before it from the references
      that are left. The order of births holds on. */
  lemma ReleasedExactly(h: Store, h': Store, o: Owners, birth: seq<nat>)
    requires SlotsKept(h.slots, h'.slots) && Exact(h', o) && Ordered(h.slots, birth)
    ensures Ordered(h'.slots, birth)
    ensures forall i: nat :: Count(h'.slots, i) > 0 <==> Reachable(h.slots, Outside(h', o), i)
  {
    hide ContentRefs, Total;
    assert Ordered(h'.slots, birth) by {
      assert forall i: nat, j: nat :: RefersTo(h'.slots, i, j) ==> RefersTo(h.slots, i, j);
    }
    forall i: nat
      ensures Count(h'.slots, i) > 0 <==> Reachable(h.slots, Outside(h', o), i)
    {
      if Count(h'.slots, i) > 0 {
        var path := LiveReachable(h', o, birth, i);
        assert Path(h.slots, Outside(h', o), path, i) by {
          assert forall k :: 0 <= k < |path| - 1 ==> RefersTo(h'.slots, path[k], path[k + 1]);
        }
      }
      if path :| Path(h.slots, Outside(h', o), path, i) {
        PathSurvives(h, h', o, path, i, |path| - 1);
      }
    }
  }

  /** A new closure is younger than all others, so the order goes on. */
  lemma AllocOrdered(h: Store, o: Owners, birth: seq<nat>, c: Content) returns (birth': seq<nat>)
    requires Covered(h, o.(roots := o.roots + ContentRefs(c))) && HolesRight(h) && Ordered(h.slots, birth)
    ensures Ordered(Allocated(h, c).slots, birth')
  {
    hide Total, ContentRefs, Bound, HolesRight, Covered;
    var o1 := o.(roots := o.roots + ContentRefs(c));
    var slots', n, top := Allocated(h, c).slots, NextSlot(h), Bound(birth);
    HoleTaken(h, c);
    AllocAt(h, c);
    birth' := if n < |birth| then birth[n := top] else birth + [top];
    forall i: nat, j: nat | RefersTo(slots', i, j)
      ensures j < |slots'| && birth'[j] < birth'[i]
    {
      if i == n {
        RootLive(h, o1, j);
        BoundAbove(birth, j);
      } else {
        assert RefersTo(h.slots, i, j);
        RefersToLive(h, o1, i, j);
      }
    }
  }

  lemma RootLive(h: Store, o: Owners, j: nat)
    requires Covered(h, o) && j in o.roots
    ensures Count(h.slots, j) > 0
  {
    assert o.roots[j] <= Refs(h, o)[j] <= Count(h.slots, j);
  }

  lemma AllocAt(h: Store, c: Content)
    requires HolesRight(h)
    ensures
      var n, slots' := NextSlot(h), Allocated(h, c).slots;
      && n <= |h.slots| && |slots'| == (if n < |h.slots| then |h.slots| else |h.slots| + 1)
      && slots'[n] == Slot(c, 1)
      && forall i :: 0 <= i < |slots'| && i != n ==> i < |h.slots| && slots'[i] == h.slots[i]
  {
  }

  /** No hole is referred to: not by a slot in use, not by a segment, not from outside. */
  lemma NoDangling(h: Store, rank: seq<nat>, segLen: nat, o: Owners, i: nat)
    requires Inv(h, rank, segLen, o) && i in h.holes
    ensures i !in Refs(h, o)
    ensures forall j :: 0 <= j < |h.slots| && h.slots[j].refcnt > 0 ==> i !in ContentRefs(h.slots[j].content)
    ensures forall id :: 0 <= id < |h.segs| && h.segs[id].Some? ==> i !in VarsRefs(h.segs[id].value.elems)
  {
    assert Refs(h, o)[i] <= Count(h.slots, i) == 0;
    forall j | 0 <= j < |h.slots| && h.slots[j].refcnt > 0
      ensures i !in ContentRefs(h.slots[j].content)
    {
      TotalHas(h.slots, SlotRefs, j);
      assert SlotRefs(h.slots[j])[i] <= Total(h.slots, SlotRefs)[i];
    }
    forall id | 0 <= id < |h.segs| && h.segs[id].Some?
      ensures i !in VarsRefs(h.segs[id].value.elems)
    {
      TotalHas(h.segs, SegRefs, id);
      assert SegRefs(h.segs[id])[i] <= Total(h.segs, SegRefs)[i];
    }
  }

  /** The segments that show in the view of `id`. */
  function Chain(segs: seq<Option<Seg>>, rank: seq<nat>, id: nat): set<nat>
    requires Linked(segs, rank) && Live(segs, id)
    decreases rank[id]
  {
    {id} + if segs[id].value.prev.None? then {} else Chain(segs, rank, segs[id].value.prev.value)
  }

  /** Every segment shows in the view of some head. */
  lemma {:induction false} UnderHead(h: Store, rank: seq<nat>, segLen: nat, o: Owners, id: nat) returns (head: nat)
    requires Inv(h, rank, segLen, o) && o.links == multiset{} && Live(h.segs, id)
    ensures head in Heads(h, o) && Live(h.segs, head) && id in Chain(h.segs, rank, head)
    decreases Bound(rank) - rank[id]
  {
    if h.segs[id].value.refcnt == 0 {
      head := id;
      assert Heads(h, o)[id] == 1;
    } else {
      assert Prevs(h, o)[id] == Children(h.segs, id);
      var k := TotalFrom(h.segs, SegPrev, id);
      BoundAbove(rank, k);
      BoundAbove(rank, id);
      head := UnderHead(h, rank, segLen, o, k);
      ChainDown(h.segs, rank, head, k);
    }
  }

  lemma {:induction false} ChainDown(segs: seq<Option<Seg>>, rank: seq<nat>, head: nat, k: nat)
    requires Linked(segs, rank) && Live(segs, head) && Live(segs, k) && k in Chain(segs, rank, head)
    ensures segs[k].value.prev.Some? ==> segs[k].value.prev.value in Chain(segs, rank, head)
    ensures rank[k] <= rank[head]
    decreases rank[head]
  {
    if k != head {
      ChainDown(segs, rank, segs[head].value.prev.value, k);
    }
  }

  /** The segments on the heap are exactly those that some head needs. */
  lemma SegmentsNeeded(h: Store, rank: seq<nat>, segLen: nat, o: Owners, id: nat)
    requires Inv(h, rank, segLen, o) && o.links == multiset{}
    ensures Live(h.segs, id)
       <==> exists head :: head in Heads(h, o) && Live(h.segs, head) && id in Chain(h.segs, rank, head)
  {
    if Live(h.segs, id) {
      var head := UnderHead(h, rank, segLen, o, id);
    }
    if head: nat :| head in Heads(h, o) && Live(h.segs, head) && id in Chain(h.segs, rank, head) {
      ChainLive(h.segs, rank, head, id);
    }
  }

  lemma {:induction false} ChainLive(segs: seq<Option<Seg>>, rank: seq<nat>, head: nat, id: nat)
    requires Linked(segs, rank) && Live(segs, head) && id in Chain(segs, rank, head)
    ensures Live(segs, id)
    decreases rank[head]
  {
    if id != head {
      ChainLive(segs, rank, segs[head].value.prev.value, id);
    }
  }

  /** `u6a_vm_stack_top` followed by `u6a_vm_stack_pop` as they are written (src/vm_stack.h:50-61,
      130-136): reading the top of a used-up active segment already makes the one below active, so
      the element is taken off that one in place, whoever else stands on it. */
  function PopInPlace(segs: seq<Option<Seg>>, a: nat): (r: (seq<Option<Seg>>, nat))
    requires Live(segs, a) && (segs[a].value.elems == [] ==> segs[a].value.prev.Some?)
    requires segs[a].value.elems == [] ==> Live(segs, segs[a].value.prev.value)
  {
    var b := if segs[a].value.elems == [] then segs[a].value.prev.value else a;
    var es := segs[b].value.elems;
    (segs[b := Some(segs[b].value.(elems := if es == [] then [] else es[..|es| - 1]))], b)
  }

  lemma ShorterLinked(segs: seq<Option<Seg>>, rank: seq<nat>, b: nat, es: seq<Var>)
    requires Linked(segs, rank) && Live(segs, b)
    ensures Linked(segs[b := Some(segs[b].value.(elems := es))], rank)
  {
  }

  /** A segment that does not show in a view can be written without changing it; one that does shows
      the change. */
  lemma {:induction false} WriteShows(segs: seq<Option<Seg>>, rank: seq<nat>, b: nat, es: seq<Var>, id: nat)
    requires Linked(segs, rank) && Live(segs, b) && Live(segs, id)
    requires Linked(segs[b := Some(segs[b].value.(elems := es))], rank)
    ensures
      var segs' := segs[b := Some(segs[b].value.(elems := es))];
      && (b !in Chain(segs, rank, id) ==> View(segs', rank, id) == View(segs, rank, id))
      && (b in Chain(segs, rank, id) ==>
            |View(segs', rank, id)| + |segs[b].value.elems| == |View(segs, rank, id)| + |es|)
    decreases rank[id]
  {
    var p := segs[id].value.prev;
    if p.Some? {
      WriteShows(segs, rank, b, es, p.value);
      if id == b {
        if b in Chain(segs, rank, p.value) {
          ChainDown(segs, rank, p.value, b);
        }
      }
    }
  }

  /** If `p` counts more than one segment on it, some head other than `a` shows it. */
  lemma OtherHead(h: Store, rank: seq<nat>, segLen: nat, o: Owners, a: nat, p: nat) returns (head: nat)
    requires Inv(h, rank, segLen, o) && o.links == multiset{} && Live(h.segs, a) && a in Heads(h, o)
    requires h.segs[a].value.prev == Some(p) && Live(h.segs, p) && h.segs[p].value.refcnt > 1
    ensures head in Heads(h, o) && head != a && Live(h.segs, head) && p in Chain(h.segs, rank, head)
  {
    hide Total;
    assert Prevs(h, o)[p] == Children(h.segs, p) > 1;
    PrevTotal(h.segs, a, None);
    var others := h.segs[a := None];
    assert SegPrev(h.segs[a])[p] == 1;
    assert Total(others, SegPrev)[p] >= 1;
    var k := TotalFrom(others, SegPrev, p);
    head := UnderHead(h, rank, segLen, o, k);
    ChainDown(h.segs, rank, head, k);
    if head == a {
      ChainDown(h.segs, rank, p, k);
    }
  }

  /** Below the head of a chain, every segment has the one above it standing on it. */
  lemma {:induction false} Above(segs: seq<Option<Seg>>, rank: seq<nat>, head: nat, k: nat) returns (c: nat)
    requires Linked(segs, rank) && Live(segs, head) && k in Chain(segs, rank, head) && k != head
    ensures Live(segs, c) && c in Chain(segs, rank, head) && segs[c].value.prev == Some(k)
    decreases rank[head]
  {
    var p := segs[head].value.prev.value;
    if k == p {
      c := head;
    } else {
      c := Above(segs, rank, p, k);
    }
  }

  /** What a segment's own view becomes when its elements are replaced. */
  lemma OwnWrite(segs: seq<Option<Seg>>, rank: seq<nat>, b: nat, es: seq<Var>)
    requires Linked(segs, rank) && Live(segs, b) && Linked(segs[b := Some(segs[b].value.(elems := es))], rank)
    ensures
      var s, n := View(segs, rank, b), |View(segs, rank, b)| - |segs[b].value.elems|;
      && n >= 0 && s == s[..n] + segs[b].value.elems
      && View(segs[b := Some(segs[b].value.(elems := es))], rank, b) == s[..n] + es
  {
    var p := segs[b].value.prev;
    if p.Some? {
      WriteShows(segs, rank, b, es, p.value);
      if b in Chain(segs, rank, p.value) {
        ChainDown(segs, rank, p.value, b);
      }
    }
  }

  lemma ShortcutFacts(h: Store, rank: seq<nat>, segLen: nat, o: Owners, a: nat)
    requires Inv(h, rank, segLen, AddHead(o, a)) && segLen >= 64 && Live(h.segs, a) && View(h.segs, rank, a) != []
    ensures Linked(h.segs, rank) && h.segs[a].value.refcnt == 0 && Total(h.segs, SegPrev)[a] == 0
    ensures a in Heads(h, AddHead(o, a)) && a !in Heads(h, o)
    ensures forall x: nat :: x in Heads(h, o) <==> x in Heads(h, AddHead(o, a)) && x != a
    ensures forall x: nat :: x in Heads(h, o) ==> Live(h.segs, x) && h.segs[x].value.refcnt == 0
    ensures h.segs[a].value.elems == [] ==> h.segs[a].value.prev.Some?
    ensures h.segs[a].value.prev.Some? ==>
      var p := h.segs[a].value.prev.value;
      Live(h.segs, p) && p != a && h.segs[p].value.refcnt >= 1 && h.segs[p].value.elems != []
      && Total(h.segs, SegPrev)[p] >= 1
  {
    hide Total;
    HeadFacts(h, rank, segLen, AddHead(o, a), a);
    assert Heads(h, AddHead(o, a)) == Heads(h, o) + multiset{a};
    assert Heads(h, AddHead(o, a))[a] == 1;
    forall x: nat
      ensures x in Heads(h, o) ==> Live(h.segs, x) && h.segs[x].value.refcnt == 0
    {
      assert Heads(h, AddHead(o, a))[x] == if Live(h.segs, x) && Children(h.segs, x) == 0 then 1 else 0;
    }
    if h.segs[a].value.prev.Some? {
      PrevFacts(h, rank, segLen, AddHead(o, a), a);
    }
  }

  /** Where nothing but possibly `a` stands on `b`, and nothing on `a`, no head other than `a` shows `b`. */
  lemma NotShown(segs: seq<Option<Seg>>, rank: seq<nat>, a: nat, b: nat, x: nat)
    requires Linked(segs, rank) && Live(segs, x) && x != a && x != b
    requires Total(segs, SegPrev)[a] == 0
    requires b == a || forall k :: 0 <= k < |segs| && segs[k].Some? && segs[k].value.prev == Some(b) ==> k == a
    ensures b !in Chain(segs, rank, x)
  {
    hide Total;
    NoChild(segs, a);
    if b in Chain(segs, rank, x) {
      var c := Above(segs, rank, x, b);
      if b != a {
        var d := Above(segs, rank, x, a);
      }
    }
  }

  /** The pair, where no saved stack is changed by it. */
  lemma PopInPlaceSafe(h: Store, rank: seq<nat>, segLen: nat, o: Owners, a: nat)
    requires Inv(h, rank, segLen, AddHead(o, a)) && o.links == multiset{} && segLen >= 64
    requires Live(h.segs, a) && View(h.segs, rank, a) != []
    requires h.segs[a].value.elems == [] ==>
      h.segs[a].value.prev.Some? && Live(h.segs, h.segs[a].value.prev.value) &&
          h.segs[h.segs[a].value.prev.value].value.refcnt == 1
    ensures SameViews(h.segs, rank, PopInPlace(h.segs, a).0, rank, Heads(h, o))
  {
    hide Inv, Total, Heads, View, Chain;
    ShortcutFacts(h, rank, segLen, o, a);
    var (segs', b) := PopInPlace(h.segs, a);
    if b != a {
      OneOn(h, rank, segLen, AddHead(o, a), b);
      OnlyChild(h.segs, a, b);
    }
    ShorterLinked(h.segs, rank, b, segs'[b].value.elems);
    forall x: nat | x in Heads(h, o)
      ensures Flat(segs', rank, x) == Flat(h.segs, rank, x)
    {
      NotShown(h.segs, rank, a, b, x);
      WriteShows(h.segs, rank, b, segs'[b].value.elems, x);
    }
  }

  /** The pair, where one is: some saved stack loses its element too. */
  lemma PopInPlaceShared(h: Store, rank: seq<nat>, segLen: nat, o: Owners, a: nat)
    requires Inv(h, rank, segLen, AddHead(o, a)) && o.links == multiset{} && segLen >= 64
    requires Live(h.segs, a) && View(h.segs, rank, a) != [] && h.segs[a].value.elems == []
    requires h.segs[a].value.prev.Some? && Live(h.segs, h.segs[a].value.prev.value) &&
        h.segs[h.segs[a].value.prev.value].value.refcnt > 1
    ensures !SameViews(h.segs, rank, PopInPlace(h.segs, a).0, rank, Heads(h, o))
  {
    hide Inv, Total, Heads, Chain;
    ShortcutFacts(h, rank, segLen, o, a);
    var (segs', p) := PopInPlace(h.segs, a);
    var x := OtherHead(h, rank, segLen, AddHead(o, a), a, p);
    ShorterLinked(h.segs, rank, p, segs'[p].value.elems);
    WriteShows(h.segs, rank, p, segs'[p].value.elems, x);
    assert Flat(segs', rank, x) != Flat(h.segs, rank, x);
  }

  lemma ButLast<T>(below: seq<T>, es: seq<T>)
    requires es != []
    ensures (below + es)[..|below + es| - 1] == below + es[..|es| - 1]
  {
  }

  /** The pair takes the top off the active stack. */
  lemma PopInPlaceView(segs: seq<Option<Seg>>, rank: seq<nat>, a: nat)
    requires Linked(segs, rank) && Live(segs, a)
    requires segs[a].value.elems == [] ==>
      var p := segs[a].value.prev;
      p.Some? && Live(segs, p.value) && segs[p.value].value.elems != []
    ensures
      var (segs', a') := PopInPlace(segs, a);
      var s := Flat(segs, rank, a);
      s != [] && Flat(segs', rank, a') == s[..|s| - 1]
  {
    hide Chain, View;
    var (segs', b) := PopInPlace(segs, a);
    var es := segs[b].value.elems;
    ShorterLinked(segs, rank, b, segs'[b].value.elems);
    OwnWrite(segs, rank, b, segs'[b].value.elems);
    ViewUnfolds(segs, rank, a);
    var s := View(segs, rank, b);
    ButLast(s[..|s| - |es|], es);
  }

  /** The pair, once: it takes the top off the active stack, and it leaves the other stacks as they
      were exactly if the active segment is not used up or nothing else stands on the one below. */
  lemma PopInPlaceExactly(h: Store, rank: seq<nat>, segLen: nat, o: Owners, a: nat)
    requires Inv(h, rank, segLen, AddHead(o, a)) && o.links == multiset{} && segLen >= 64
    requires Live(h.segs, a) && View(h.segs, rank, a) != []
    ensures h.segs[a].value.elems == [] ==> h.segs[a].value.prev.Some? && Live(h.segs, h.segs[a].value.prev.value)
    ensures
      var (segs', a') := PopInPlace(h.segs, a);
      var s := Flat(h.segs, rank, a);
      && Flat(segs', rank, a') == s[..|s| - 1]
      && (SameViews(h.segs, rank, segs', rank, Heads(h, o))
          <==> h.segs[a].value.elems != [] || h.segs[h.segs[a].value.prev.value].value.refcnt == 1)
  {
    hide Inv, Total, Heads, SameViews, View, Linked, Chain, Flat;
    ShortcutFacts(h, rank, segLen, o, a);
    PopInPlaceView(h.segs, rank, a);
    if h.segs[a].value.elems != [] || h.segs[h.segs[a].value.prev.value].value.refcnt == 1 {
      PopInPlaceSafe(h, rank, segLen, o, a);
    } else {
      PopInPlaceShared(h, rank, segLen, o, a);
    }
  }

  /** Whether the memory is in order after the pair: it is exactly if the active segment is not used
      up. Otherwise the used-up segment stays, on top of the segment that is active now, and nobody
      owns it; no owners whatsoever make that right. */
  lemma PopInPlaceInvariant(h: Store, rank: seq<nat>, segLen: nat, o: Owners, a: nat)
    requires Inv(h, rank, segLen, AddHead(o, a)) && segLen >= 64
    requires Live(h.segs, a) && View(h.segs, rank, a) != []
    ensures h.segs[a].value.elems == [] ==> h.segs[a].value.prev.Some? && Live(h.segs, h.segs[a].value.prev.value)
    ensures
      var (segs', a') := PopInPlace(h.segs, a);
      (exists o': Owners, r: seq<nat> :: Inv(h.(segs := segs'), r, segLen, AddHead(o', a')))
      <==> h.segs[a].value.elems != []
    ensures
      var es := h.segs[a].value.elems;
      es != [] ==>
        Inv(h.(segs := PopInPlace(h.segs, a).0), rank, segLen, AddHead(AddRoots(o, VarRefs(es[|es| - 1])), a))
  {
    hide Inv, Total, Heads, VarRefs, VarsRefs, View, Linked;
    ShortcutFacts(h, rank, segLen, o, a);
    if h.segs[a].value.elems != [] {
      PopInPlaceKeeps(h, rank, segLen, o, a);
    } else {
      PopInPlaceBreaks(h, a);
    }
  }

  lemma PopInPlaceKeeps(h: Store, rank: seq<nat>, segLen: nat, o: Owners, a: nat)
    requires Inv(h, rank, segLen, AddHead(o, a)) && Live(h.segs, a) && h.segs[a].value.elems != []
    ensures
      var es := h.segs[a].value.elems;
      Inv(h.(segs := PopInPlace(h.segs, a).0), rank, segLen, AddHead(AddRoots(o, VarRefs(es[|es| - 1])), a))
  {
    hide Inv, VarRefs, VarsRefs;
    var es := h.segs[a].value.elems;
    var top := es[|es| - 1];
    assert es == es[..|es| - 1] + [top];
    SplitRefs(es[..|es| - 1], top, o.roots);
    SegFits(h, rank, segLen, AddHead(o, a), a);
    SetElems(h, rank, segLen, AddHead(o, a), a, es[..|es| - 1], AddHead(AddRoots(o, VarRefs(top)), a));
  }

  lemma PopInPlaceBreaks(h: Store, a: nat)
    requires Live(h.segs, a) && h.segs[a].value.elems == [] && h.segs[a].value.prev.Some?
    requires Live(h.segs, h.segs[a].value.prev.value) && h.segs[a].value.prev.value != a
    ensures
      var (segs', b) := PopInPlace(h.segs, a);
      forall o': Owners, r: seq<nat>, segLen: nat :: !Inv(h.(segs := segs'), r, segLen, AddHead(o', b))
  {
    hide Inv, Total, Heads;
    var (segs', b) := PopInPlace(h.segs, a);
    var h' := h.(segs := segs');
    forall o': Owners, r: seq<nat>, segLen: nat
      ensures !Inv(h', r, segLen, AddHead(o', b))
    {
      if Inv(h', r, segLen, AddHead(o', b)) {
        PrevFacts(h', r, segLen, AddHead(o', b), a);
        HeadFacts(h', r, segLen, AddHead(o', b), b);
      }
    }
  }

  /** A stack of 64 plain values under two heads: the active one, all of whose own values have been
      popped, and a saved one that shows one value more. */
  function SharedStore(): Store {
    var full := seq(64, _ => Var(0, 0));
    Store([], [], [Some(Seg(None, full, 2)), Some(Seg(Some(0), [], 0)), Some(Seg(Some(0), [Var(0, 0)], 0))])
  }

  lemma {:induction false} PlainRefs(vs: seq<Var>)
    requires forall k :: 0 <= k < |vs| ==> vs[k] == Var(0, 0)
    ensures VarsRefs(vs) == multiset{}
    decreases |vs|
  {
    if vs != [] {
      PlainRefs(vs[..|vs| - 1]);
    }
  }

  lemma SharedSums()
    ensures
      var h := SharedStore();
      && Total(h.segs, SegPrev) == multiset{0, 0} && Total(h.segs, SegRefs) == multiset{}
      && Total(h.slots, SlotRefs) == multiset{} && Total(h.slots, SlotHeads) == multiset{}
  {
    hide Total;
    var g := SharedStore().segs;
    PlainRefs(g[0].value.elems);
    PlainRefs(g[1].value.elems);
    PlainRefs(g[2].value.elems);
    TotalThree(g, SegRefs);
    TotalThree(g, SegPrev);
    TotalNone(SharedStore().slots);
  }

  lemma SharedInv()
    ensures Inv(SharedStore(), [0, 1, 1], 64, Owners(multiset{}, multiset{1, 2}, multiset{}))
  {
    hide Total;
    var h, o := SharedStore(), Owners(multiset{}, multiset{1, 2}, multiset{});
    SharedSums();
    assert Prevs(h, o) == multiset{0, 0} && Heads(h, o) == multiset{1, 2} && Refs(h, o) == multiset{};
    SharedCounts(h, o);
    assert Filled(h.segs, 64);
  }

  lemma SharedCounts(h: Store, o: Owners)
    requires Prevs(h, o) == multiset{0, 0} && Heads(h, o) == multiset{1, 2} && Refs(h, o) == multiset{}
    requires |h.segs| == 3 && h.segs[0].Some? && h.segs[1].Some? && h.segs[2].Some?
    requires h.segs[0].value.refcnt == 2 && h.segs[1].value.refcnt == h.segs[2].value.refcnt == 0
    ensures Covered(h, o) && Counts(h, o)
  {
    hide Prevs, Heads, Refs;
    forall id: nat
      ensures multiset{0, 0}[id] == if id == 0 then 2 else 0
      ensures multiset{1, 2}[id] == if id == 1 || id == 2 then 1 else 0
    {
    }
  }

  lemma TotalNone(slots: seq<Slot>)
    requires slots == []
    ensures Total(slots, SlotRefs) == multiset{} && Total(slots, SlotHeads) == multiset{}
  {
  }

  lemma TotalThree<T>(s: seq<T>, f: T -> multiset<nat>)
    requires |s| == 3
    ensures Total(s, f) == f(s[0]) + f(s[1]) + f(s[2])
  {
    assert s[..2][..1] == [s[0]] && s[..2][1] == s[1];
    assert Total([s[0]], f) == Total([s[0]][..0], f) + f(s[0]);
    assert Total(s[..2], f) == Total(s[..2][..1], f) + f(s[..2][1]);
  }

  /** There is such a state, and in it the saved stack loses an element with the active one. */
  lemma PopInPlaceCounterexample()
    ensures
      var h, rank := SharedStore(), [0, 1, 1];
      && Inv(h, rank, 64, Owners(multiset{}, multiset{1, 2}, multiset{}))
      && Flat(PopInPlace(h.segs, 1).0, rank, 2) != Flat(h.segs, rank, 2)
  {
    SharedInv();
    var h, rank := SharedStore(), [0, 1, 1];
    var (segs', p) := PopInPlace(h.segs, 1);
    assert segs'[0].value.elems == h.segs[0].value.elems[..63];
    assert View(h.segs, rank, 0) == [] + h.segs[0].value.elems;
    assert View(segs', rank, 0) == [] + segs'[0].value.elems;
    assert |View(h.segs, rank, 2)| == 65;
    assert |View(segs', rank, 2)| == 64;
  }
}
