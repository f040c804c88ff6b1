/** What a release does, as a function of the memory (src/vm_pool.h:165-182, src/vm_stack.c:66-85): the
    loop over the list of slots to be lowered, the loop over the segments of a dead continuation's
    stack, and how each comes back to the other. And when references are forgotten in it. */
module Cascade {
  import opened Syntax
  import opened Heap
  import opened Steps

  /** The memory when a release is over, and the references it has forgotten. */
  datatype After = After(h: Store, lost: multiset<nat>)

  /** The memory after one turn of the release loop, what is on the list then, and what is forgotten. */
  datatype Turn = Turn(h: Store, todo: seq<nat>, lost: multiset<nat>)

  function LiveSegs(segs: seq<Option<Seg>>): nat {
    if segs == [] then 0 else LiveSegs(segs[..|segs| - 1]) + if segs[|segs| - 1].Some? then 1 else 0
  }

  lemma {:induction false} LiveUpdate(segs: seq<Option<Seg>>, id: nat, g: Option<Seg>)
    requires Live(segs, id)
    ensures LiveSegs(segs[id := g]) + 1 == LiveSegs(segs) + if g.Some? then 1 else 0
    decreases |segs|
  {
    var n := |segs| - 1;
    if id < n {
      assert segs[id := g][..n] == segs[..n][id := g] && segs[..n][id] == segs[id];
      LiveUpdate(segs[..n], id, g);
    } else {
      assert segs[id := g][..n] == segs[..n];
    }
  }

  /** An upper bound for the turns that are left. */
  function Work(h: Store): nat {
    SumCounts(h.slots) + LiveSegs(h.segs)
  }

  predicate InUse(h: Store, i: nat) {
    i < |h.slots| && h.slots[i].refcnt > 0
  }

  /** `--refcnt`; a slot that reaches zero becomes a hole. */
  function Lowered(h: Store, i: nat): (r: Store)
    requires InUse(h, i)
    ensures Work(r) < Work(h)
  {
    var n := h.slots[i].refcnt - 1;
    SumUpdate(h.slots, i, h.slots[i].(refcnt := n));
    if n == 0 then SetCount(h, i, 0).(holes := h.holes + [i]) else SetCount(h, i, n)
  }

  /** The references in the segments that go when a link to `id` is given up. */
  function FreedRefs(segs: seq<Option<Seg>>, id: nat): multiset<nat>
    decreases LiveSegs(segs)
  {
    if !Live(segs, id) || segs[id].value.refcnt != 1 then multiset{}
    else
      LiveUpdate(segs, id, None);
      VarsRefs(segs[id].value.elems) +
      if segs[id].value.prev.None? then multiset{} else FreedRefs(segs[id := None], segs[id].value.prev.value)
  }

  /** A head is discarded: it counts as having one link, which is given up. */
  function Headless(h: Store, id: nat): (r: Store)
    requires Live(h.segs, id)
    ensures Work(r) == Work(h)
  {
    LiveUpdate(h.segs, id, Recount(h.segs[id], 1));
    SetSeg(h, id, Recount(h.segs[id], 1))
  }

  function DiscardRefs(segs: seq<Option<Seg>>, id: nat): multiset<nat> {
    if !Live(segs, id) then multiset{} else FreedRefs(segs[id := Recount(segs[id], 1)], id)
  }

  /** One turn for slot `cur`, with `todo` on the list. */
  function Turned(h: Store, todo: seq<nat>, cur: nat): (r: Turn)
    requires InUse(h, cur)
    ensures Work(r.h) < Work(h)
    decreases Work(h), 3, 0
  {
    var low := Lowered(h, cur);
    if h.slots[cur].refcnt > 1 then Turn(low, todo, multiset{})
    else
      match h.slots[cur].content
      case Closure(v1, v2) => Turn(low, todo + Entry(v2) + Entry(v1), multiset{})
      case Cont(stack, _) => Emptied(low, todo, stack)
  }

  /** A stack is discarded; if that releases anything the list is forgotten. */
  function Emptied(h: Store, todo: seq<nat>, stack: nat): (r: Turn)
    ensures Work(r.h) <= Work(h)
    decreases Work(h), 9, 0
  {
    var d := Discarded(h, stack);
    if DiscardRefs(h.segs, stack) == multiset{} then Turn(d.h, todo, d.lost)
    else Turn(d.h, [], d.lost + multiset(todo))
  }

  /** The release loop from the list `todo` on, whose last entry is next. */
  function Drained(h: Store, todo: seq<nat>): (r: After)
    ensures Work(r.h) <= Work(h)
    decreases Work(h), 4, |todo|
  {
    if todo == [] || !InUse(h, todo[|todo| - 1]) then After(h, multiset{})
    else
      var t := Turned(h, todo[..|todo| - 1], todo[|todo| - 1]);
      var r := Drained(t.h, t.todo);
      After(r.h, t.lost + r.lost)
  }

  function DrainedVar(h: Store, v: Var): (r: After)
    ensures Work(r.h) <= Work(h)
    decreases Work(h), 5, 0
  {
    if Counted(v) then Drained(h, [v.ref]) else After(h, multiset{})
  }

  /** What a freed segment held is released, from the top down. */
  function DrainedAll(h: Store, vs: seq<Var>): (r: After)
    ensures Work(r.h) <= Work(h)
    decreases Work(h), 6, |vs|
  {
    if vs == [] then After(h, multiset{})
    else
      var t := DrainedVar(h, vs[|vs| - 1]);
      var r := DrainedAll(t.h, vs[..|vs| - 1]);
      After(r.h, t.lost + r.lost)
  }

  /** A link to segment `id` is given up. */
  function Unlinked(h: Store, id: nat): (r: After)
    ensures Work(r.h) <= Work(h)
    decreases Work(h), 7, 0
  {
    if !Live(h.segs, id) || h.segs[id].value.refcnt == 0 then After(h, multiset{})
    else
      var g := h.segs[id].value;
      LiveUpdate(h.segs, id, Recount(h.segs[id], g.refcnt - 1));
      LiveUpdate(h.segs, id, None);
      if g.refcnt > 1 then After(SetSeg(h, id, Recount(h.segs[id], g.refcnt - 1)), multiset{})
      else
        var t := DrainedAll(SetSeg(h, id, None), g.elems);
        if g.prev.None? then t
        else
          var r := Unlinked(t.h, g.prev.value);
          After(r.h, t.lost + r.lost)
  }

  function Discarded(h: Store, id: nat): (r: After)
    ensures Work(r.h) <= Work(h)
    decreases Work(h), 8, 0
  {
    if Live(h.segs, id) then Unlinked(Headless(h, id), id) else After(h, multiset{})
  }

  /** Nothing is forgotten in a turn: a continuation that dies while the list holds something has a
      stack whose discarding releases nothing, and discarding it is in order itself. */
  predicate OrderlyTurn(h: Store, todo: seq<nat>, cur: nat)
    requires InUse(h, cur)
    decreases Work(h), 3, 0
  {
    h.slots[cur].refcnt == 1 && h.slots[cur].content.Cont? ==>
      var low, stack := Lowered(h, cur), h.slots[cur].content.stack;
      && OrderlyDiscard(low, stack)
      && (todo == [] || DiscardRefs(low.segs, stack) == multiset{})
  }

  predicate Orderly(h: Store, todo: seq<nat>)
    decreases Work(h), 4, |todo|
  {
    todo == [] || !InUse(h, todo[|todo| - 1]) ||
    var t := Turned(h, todo[..|todo| - 1], todo[|todo| - 1]);
    OrderlyTurn(h, todo[..|todo| - 1], todo[|todo| - 1]) && Orderly(t.h, t.todo)
  }

  predicate OrderlyVar(h: Store, v: Var)
    decreases Work(h), 5, 0
  {
    Counted(v) ==> Orderly(h, [v.ref])
  }

  predicate OrderlyAll(h: Store, vs: seq<Var>)
    decreases Work(h), 6, |vs|
  {
    vs == [] || (OrderlyVar(h, vs[|vs| - 1]) && OrderlyAll(DrainedVar(h, vs[|vs| - 1]).h, vs[..|vs| - 1]))
  }

  predicate OrderlyUnlink(h: Store, id: nat)
    decreases Work(h), 7, 0
  {
    Live(h.segs, id) && h.segs[id].value.refcnt == 1 ==>
      var g, low := h.segs[id].value, SetSeg(h, id, None);
      LiveUpdate(h.segs, id, None);
      && OrderlyAll(low, g.elems)
      && (g.prev.Some? ==> OrderlyUnlink(DrainedAll(low, g.elems).h, g.prev.value))
  }

  predicate OrderlyDiscard(h: Store, id: nat)
    decreases Work(h), 8, 0
  {
    Live(h.segs, id) ==> OrderlyUnlink(Headless(h, id), id)
  }

  lemma NoneLost(a: multiset<nat>, b: multiset<nat>)
    ensures a + b == multiset{} <==> a == multiset{} && b == multiset{}
  {
    assert a <= a + b && b <= a + b;
  }

  /** A release forgets nothing exactly if it is in order: no continuation that dies with something on
      the list has a stack whose discarding releases something. */
  lemma {:induction false} DrainedLost(h: Store, todo: seq<nat>)
    ensures Drained(h, todo).lost == multiset{} <==> Orderly(h, todo)
    decreases Work(h), 4, |todo|
  {
    if todo != [] && InUse(h, todo[|todo| - 1]) {
      var t := Turned(h, todo[..|todo| - 1], todo[|todo| - 1]);
      TurnedLost(h, todo[..|todo| - 1], todo[|todo| - 1]);
      DrainedLost(t.h, t.todo);
      NoneLost(t.lost, Drained(t.h, t.todo).lost);
    }
  }

  lemma {:induction false} TurnedLost(h: Store, todo: seq<nat>, cur: nat)
    requires InUse(h, cur)
    ensures Turned(h, todo, cur).lost == multiset{} <==> OrderlyTurn(h, todo, cur)
    decreases Work(h), 3, 0
  {
    if h.slots[cur].refcnt == 1 && h.slots[cur].content.Cont? {
      var low, stack := Lowered(h, cur), h.slots[cur].content.stack;
      DiscardedLost(low, stack);
      NoneLost(Discarded(low, stack).lost, multiset(todo));
    }
  }

  lemma {:induction false} AllLost(h: Store, vs: seq<Var>)
    ensures DrainedAll(h, vs).lost == multiset{} <==> OrderlyAll(h, vs)
    decreases Work(h), 6, |vs|
  {
    if vs != [] {
      var t := DrainedVar(h, vs[|vs| - 1]);
      if Counted(vs[|vs| - 1]) {
        DrainedLost(h, [vs[|vs| - 1].ref]);
      }
      AllLost(t.h, vs[..|vs| - 1]);
      NoneLost(t.lost, DrainedAll(t.h, vs[..|vs| - 1]).lost);
    }
  }

  lemma {:induction false} UnlinkedLost(h: Store, id: nat)
    ensures Unlinked(h, id).lost == multiset{} <==> OrderlyUnlink(h, id)
    decreases Work(h), 7, 0
  {
    if Live(h.segs, id) && h.segs[id].value.refcnt == 1 {
      var g, low := h.segs[id].value, SetSeg(h, id, None);
      LiveUpdate(h.segs, id, None);
      AllLost(low, g.elems);
      if g.prev.Some? {
        var t := DrainedAll(low, g.elems);
        UnlinkedLost(t.h, g.prev.value);
        NoneLost(t.lost, Unlinked(t.h, g.prev.value).lost);
      }
    }
  }

  lemma {:induction false} DiscardedLost(h: Store, id: nat)
    ensures Discarded(h, id).lost == multiset{} <==> OrderlyDiscard(h, id)
    decreases Work(h), 8, 0
  {
    if Live(h.segs, id) {
      UnlinkedLost(Headless(h, id), id);
    }
  }

  /** With `lost` gone already, what is to come completes what was to come before. */
  predicate Meets(all: After, lost: multiset<nat>, rest: After, lost': multiset<nat>) {
    rest.h == all.h && lost + all.lost == lost' + rest.lost
  }

  lemma MeetsMore(all: After, lost: multiset<nat>, now: multiset<nat>, more: multiset<nat>, rest: After)
    ensures Meets(all, lost, After(rest.h, more + rest.lost), now) ==> Meets(all, lost, rest, now + more)
  {
    assert now + (more + rest.lost) == now + more + rest.lost;
  }

  lemma MeetsEnd(all: After, h: Store, lost: multiset<nat>)
    requires Meets(all, multiset{}, After(h, multiset{}), lost)
    ensures all == After(h, lost)
  {
    assert multiset{} + all.lost == all.lost && lost + multiset{} == lost;
  }

  lemma MeetsStart(all: After)
    ensures Meets(all, multiset{}, all, multiset{})
  {
  }

  lemma DrainedTurn(h: Store, todo: seq<nat>)
    requires todo != [] && InUse(h, todo[|todo| - 1])
    ensures
      var t := Turned(h, todo[..|todo| - 1], todo[|todo| - 1]);
      var r := Drained(t.h, t.todo);
      Drained(h, todo) == After(r.h, t.lost + r.lost)
  {
    hide Turned;
  }

  lemma DrainedOne(h: Store, i: nat)
    requires InUse(h, i)
    ensures
      var t := Turned(h, [], i);
      var r := Drained(t.h, t.todo);
      Drained(h, [i]) == After(r.h, t.lost + r.lost)
  {
    assert [i][..0] == [];
    DrainedTurn(h, [i]);
  }

  lemma DrainedNone(h: Store)
    ensures Drained(h, []) == After(h, multiset{})
  {
  }

  lemma DrainedLast(h: Store, vs: seq<Var>, idx: nat)
    requires idx < |vs|
    ensures
      var t := DrainedVar(h, vs[idx]);
      var r := DrainedAll(t.h, vs[..idx]);
      DrainedAll(h, vs[..idx + 1]) == After(r.h, t.lost + r.lost)
  {
    hide DrainedVar;
    assert vs[..idx + 1][..idx] == vs[..idx];
  }

  lemma DrainedNoVars(h: Store, vs: seq<Var>)
    ensures DrainedAll(h, vs[..0]) == After(h, multiset{})
  {
  }

  lemma {:induction false} DrainedPlain(h: Store, vs: seq<Var>)
    requires VarsRefs(vs) == multiset{}
    ensures DrainedAll(h, vs) == After(h, multiset{})
    decreases |vs|
  {
    if vs != [] {
      var n := |vs| - 1;
      assert vs[..n + 1] == vs;
      LastVar(vs, n);
      DrainedPlain(h, vs[..n]);
    }
  }

  lemma DiscardedHead(h: Store, id: nat)
    requires Live(h.segs, id)
    ensures Discarded(h, id) == Unlinked(SetSeg(h, id, Recount(h.segs[id], 1)), id)
    ensures DiscardRefs(h.segs, id) == FreedRefs(h.segs[id := Recount(h.segs[id], 1)], id)
  {
    hide Unlinked, FreedRefs;
  }

  function UnlinkedNext(h: Store, next: Option<nat>): After {
    if next.None? then After(h, multiset{}) else Unlinked(h, next.value)
  }

  lemma UnlinkedDef(h: Store, id: nat)
    requires Live(h.segs, id) && h.segs[id].value.refcnt >= 1
    ensures
      var g := h.segs[id].value;
      var t := DrainedAll(SetSeg(h, id, None), g.elems);
      Unlinked(h, id)
      == if g.refcnt > 1 then After(SetSeg(h, id, Recount(h.segs[id], g.refcnt - 1)), multiset{})
         else if g.prev.None? then t
         else After(Unlinked(t.h, g.prev.value).h, t.lost + Unlinked(t.h, g.prev.value).lost)
  {
    hide DrainedAll;
  }

  /** One turn of the discarding loop on segment `id`. */
  lemma UnlinkedTurn(h: Store, id: nat, h': Store, next: Option<nat>, lost: multiset<nat>)
    requires Live(h.segs, id) && h.segs[id].value.refcnt >= 1
    requires
      var g := h.segs[id].value;
      if g.refcnt == 1 then After(h', lost) == DrainedAll(SetSeg(h, id, None), g.elems) && next == g.prev
      else h' == SetSeg(h, id, Recount(Some(g), g.refcnt - 1)) && lost == multiset{} && next == None
    ensures
      var r := UnlinkedNext(h', next);
      Unlinked(h, id) == After(r.h, lost + r.lost)
  {
    hide DrainedAll, Unlinked;
    UnlinkedDef(h, id);
    assert lost + multiset{} == lost;
  }

  /** While nothing has been released, what is to come is all there is, and the list is as it was. */
  ghost predicate Listed(all: multiset<nat>, segs: seq<Option<Seg>>, next: Option<nat>, todo: seq<nat>, now: seq<nat>) {
    if all != multiset{} && now == [] then true
    else now == todo && (if next.None? then multiset{} else FreedRefs(segs, next.value)) == all
  }

  lemma ListedTurn(all: multiset<nat>, h: Store, id: nat, h': Store, next: Option<nat>,
      todo: seq<nat>, now: seq<nat>, after: seq<nat>)
    requires Live(h.segs, id) && h.segs[id].value.refcnt >= 1 && Listed(all, h.segs, Some(id), todo, now)
    requires
      var g := h.segs[id].value;
      if g.refcnt == 1 then
        && after == (if VarsRefs(g.elems) == multiset{} then now else [])
        && h' == DrainedAll(SetSeg(h, id, None), g.elems).h && next == g.prev
      else h' == SetSeg(h, id, Recount(Some(g), g.refcnt - 1)) && after == now && next == None
    ensures Listed(all, h'.segs, next, todo, after)
  {
    hide DrainedAll, VarsRefs;
    var g := h.segs[id].value;
    if !(all != multiset{} && now == []) && g.refcnt == 1 {
      var low := SetSeg(h, id, None);
      var below := if g.prev.None? then multiset{} else FreedRefs(low.segs, g.prev.value);
      assert all == VarsRefs(g.elems) + below;
      NoneLost(VarsRefs(g.elems), below);
      if VarsRefs(g.elems) == multiset{} {
        DrainedPlain(low, g.elems);
        assert all == below;
      }
    }
  }

  /** The slots in `s` that are in use are closures over slots in `s`. */
  predicate Closed(slots: seq<Slot>, s: set<nat>) {
    forall i :: 0 <= i < |slots| && i in s && slots[i].refcnt > 0 ==>
      && slots[i].content.Closure?
      && (Counted(slots[i].content.v1) ==> slots[i].content.v1.ref in s)
      && (Counted(slots[i].content.v2) ==> slots[i].content.v2.ref in s)
  }

  /** Nothing but counts in `s` has changed, and none of those has come back from zero. */
  predicate Within(before: seq<Slot>, after: seq<Slot>, s: set<nat>) {
    && |after| == |before|
    && forall i :: 0 <= i < |after| ==>
         && after[i].content == before[i].content && (i !in s ==> after[i] == before[i])
         && (before[i].refcnt == 0 ==> after[i].refcnt == 0)
  }

  lemma ClosedOn(a: seq<Slot>, b: seq<Slot>, c: seq<Slot>, s: set<nat>)
    requires Within(a, b, s) && Closed(a, s)
    ensures Closed(b, s)
    ensures Within(b, c, s) ==> Within(a, c, s)
  {
  }

  lemma WithinSame(a: seq<Slot>, s: set<nat>)
    ensures Within(a, a, s)
  {
  }

  /** Releasing slots of a closed set forgets nothing and reaches nothing else. */
  lemma {:induction false} ClosedDrained(h: Store, todo: seq<nat>, s: set<nat>)
    requires Closed(h.slots, s) && forall k :: 0 <= k < |todo| ==> todo[k] in s
    ensures Orderly(h, todo)
    ensures Drained(h, todo).h.segs == h.segs && Within(h.slots, Drained(h, todo).h.slots, s)
    decreases Work(h), |todo|
  {
    hide Work;
    WithinSame(h.slots, s);
    if todo != [] && InUse(h, todo[|todo| - 1]) {
      var cur := todo[|todo| - 1];
      var t := Turned(h, todo[..|todo| - 1], cur);
      assert t.h.segs == h.segs && Within(h.slots, t.h.slots, s);
      ClosedOn(h.slots, t.h.slots, Drained(t.h, t.todo).h.slots, s);
      ClosedDrained(t.h, t.todo, s);
    }
  }

  lemma {:induction false} ClosedAll(h: Store, vs: seq<Var>, s: set<nat>)
    requires Closed(h.slots, s) && forall x: nat :: x in VarsRefs(vs) ==> x in s
    ensures OrderlyAll(h, vs)
    ensures DrainedAll(h, vs).h.segs == h.segs && Within(h.slots, DrainedAll(h, vs).h.slots, s)
    decreases |vs|
  {
    hide Orderly, Drained;
    WithinSame(h.slots, s);
    if vs != [] {
      var v, rest := vs[|vs| - 1], vs[..|vs| - 1];
      var t := DrainedVar(h, v);
      assert forall x: nat :: x in VarsRefs(vs) <==> x in VarsRefs(rest) || x in VarRefs(v);
      if Counted(v) {
        assert v.ref in VarRefs(v);
        ClosedDrained(h, [v.ref], s);
      }
      ClosedOn(h.slots, t.h.slots, DrainedAll(t.h, rest).h.slots, s);
      ClosedAll(t.h, rest, s);
    }
  }

  lemma {:induction false} ClosedUnlink(h: Store, id: nat, s: set<nat>)
    requires Closed(h.slots, s) && forall x: nat :: x in FreedRefs(h.segs, id) ==> x in s
    ensures OrderlyUnlink(h, id) && Within(h.slots, Unlinked(h, id).h.slots, s)
    decreases LiveSegs(h.segs)
  {
    hide OrderlyAll, DrainedAll;
    WithinSame(h.slots, s);
    if Live(h.segs, id) && h.segs[id].value.refcnt == 1 {
      var g, low := h.segs[id].value, SetSeg(h, id, None);
      LiveUpdate(h.segs, id, None);
      var below := if g.prev.None? then multiset{} else FreedRefs(low.segs, g.prev.value);
      assert FreedRefs(h.segs, id) == VarsRefs(g.elems) + below;
      assert forall x: nat :: x in VarsRefs(g.elems) || x in below ==> x in FreedRefs(h.segs, id);
      ClosedAll(low, g.elems, s);
      if g.prev.Some? {
        var t := DrainedAll(low, g.elems);
        ClosedOn(h.slots, t.h.slots, Unlinked(t.h, g.prev.value).h.slots, s);
        ClosedUnlink(t.h, g.prev.value, s);
      }
    }
  }

  /** Discarding a stack forgets nothing if the references in the segments that go lead to closures
      over closures only. It forgets nothing, then, if there are none. */
  lemma ClosedDiscard(h: Store, id: nat, s: set<nat>)
    requires Closed(h.slots, s) && forall x: nat :: x in DiscardRefs(h.segs, id) ==> x in s
    ensures OrderlyDiscard(h, id) && Within(h.slots, Discarded(h, id).h.slots, s)
  {
    hide OrderlyUnlink, Unlinked, FreedRefs;
    WithinSame(h.slots, s);
    if Live(h.segs, id) {
      ClosedUnlink(Headless(h, id), id, s);
    }
  }

  /** Nor does releasing a continuation whose stack is such. */
  lemma ClosedCont(h: Store, i: nat, s: set<nat>)
    requires InUse(h, i) && h.slots[i].content.Cont? && Closed(h.slots, s)
    requires forall x: nat :: x in DiscardRefs(h.segs, h.slots[i].content.stack) ==> x in s
    ensures Orderly(h, [i])
  {
    hide OrderlyDiscard, Discarded, DiscardRefs;
    assert [i][..0] == [];
    assert Turned(h, [], i).todo == [];
    if h.slots[i].refcnt == 1 {
      ClosedDiscard(Lowered(h, i), h.slots[i].content.stack, s);
    }
  }

  /** In particular a continuation whose stack holds no reference where it goes. */
  lemma BareCont(h: Store, i: nat)
    requires InUse(h, i) && h.slots[i].content.Cont? && DiscardRefs(h.segs, h.slots[i].content.stack) == multiset{}
    ensures Orderly(h, [i])
  {
    hide Orderly, DiscardRefs;
    ClosedCont(h, i, {});
  }

  /** From slot `cur`, along closures held once and their first fields, as far as they are references,
      one comes to a continuation held once, with a reference in what goes of its stack. Something is
      on the list by then, from the start (`pending`) or because a closure on the way has a second
      reference. */
  predicate Doomed(h: Store, cur: nat, pending: bool)
    decreases Work(h)
  {
    InUse(h, cur) && h.slots[cur].refcnt == 1 &&
    match h.slots[cur].content
    case Cont(stack, _) => pending && DiscardRefs(h.segs, stack) != multiset{}
    case Closure(v1, v2) =>
      if Counted(v1) then Doomed(Lowered(h, cur), v1.ref, pending || Counted(v2))
      else Counted(v2) && Doomed(Lowered(h, cur), v2.ref, pending)
  }

  /** Then all that is on the list is forgotten. */
  lemma {:induction false} DoomedLoses(h: Store, rest: seq<nat>, cur: nat)
    requires Doomed(h, cur, rest != [])
    ensures Drained(h, rest + [cur]).lost != multiset{} && Drained(h, rest + [cur]).lost >= multiset(rest)
    decreases Work(h)
  {
    hide Work, DiscardRefs, Discarded;
    var todo := rest + [cur];
    assert todo[..|todo| - 1] == rest && todo[|todo| - 1] == cur;
    var t, low := Turned(h, rest, cur), Lowered(h, cur);
    match h.slots[cur].content {
      case Cont(stack, _) =>
        assert t == Emptied(low, rest, stack) && t.lost == Discarded(low, stack).lost + multiset(rest);
        assert t.lost >= multiset(rest) && multiset(rest) != multiset{} by {
          assert rest[0] in multiset(rest);
        }
      case Closure(v1, v2) =>
        if Counted(v1) {
          var more := rest + Entry(v2);
          assert t.todo == more + [v1.ref];
          DoomedLoses(low, more, v1.ref);
          assert multiset(rest) <= multiset(more);
        } else {
          assert t.todo == rest + [v2.ref];
          DoomedLoses(low, rest, v2.ref);
        }
    }
  }
}
