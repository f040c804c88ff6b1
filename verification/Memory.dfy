/** The object pool and the segmented stack in operation (src/vm_pool.h:72-182, src/vm_stack.c,
    src/vm_stack.h): allocation from holes, cascading release, and stacks that share segments. */
module Memory {
  import opened Syntax
  import opened Heap
  import opened Steps
  import opened Cascade

  class Memory {
    const elems: array<Slot>    // the pool; `used` of them have been handed out at some time
    const holes: array<nat>
    const segLen: nat
    var used: nat
    var holeCount: nat
    var fstack: seq<nat>        // slots whose count is still to be lowered
    var segs: seq<Option<Seg>>
    var active: nat
    ghost var rank: seq<nat>

    /** An empty pool and an empty stack (src/vm_pool.c:28-57, src/vm_stack.c:87-94). */
    constructor (poolLen: nat, segLen: nat)
      requires segLen >= 64
      ensures Ok(AddHead(NOBODY, active)) && Stack(active) == []
      ensures elems.Length == poolLen && used == 0 && holeCount == 0 && fresh(elems) && fresh(holes)
      ensures Exact(H(), AddHead(NOBODY, active))
      ensures this.segLen == segLen && segs == [Some(Seg(None, [], 0))] && active == 0 && rank == [0]
    {
      elems := new Slot[poolLen](_ => Slot(Closure(Var(0, 0), Var(0, 0)), 0));
      holes := new nat[poolLen](_ => 0);
      this.segLen := segLen;
      used, holeCount, fstack := 0, 0, [];
      segs, active, rank := [Some(Seg(None, [], 0))], 0, [0];
      new;
      EmptyStore(segLen);
      assert H() == EMPTY;
    }

    ghost function H(): Store
      requires used <= elems.Length && holeCount <= holes.Length
      reads this, elems, holes
    {
      Store(elems[..used], holes[..holeCount], segs)
    }

    ghost predicate Ok(o: Owners)
      reads this, elems, holes
    {
      && used <= elems.Length && holeCount <= holes.Length && holes.Length == elems.Length
      && segLen >= 64
      && Inv(H(), rank, segLen, o)
    }

    /** `--refcnt`; a slot that reaches zero becomes a hole. */
    method Lower(i: nat, ghost o: Owners) returns (died: bool)
      requires Ok(AddRoots(o, multiset{i}))
      modifies this`holeCount, elems, holes
      ensures used == old(used) && i < used && elems[i].content == old(elems[i].content)
      ensures died == (elems[i].refcnt == 0) && died == (old(elems[i].refcnt) == 1)
      ensures
        var c := elems[i].content;
        var after := if died then AddRoots(o, ContentRefs(c)).(heads := o.heads + ContentHeads(c)) else o;
        && Ok(after)
        && (old(Exact(H(), AddRoots(o, multiset{i}))) ==> Exact(H(), after))
      ensures InUse(old(H()), i) && H() == Lowered(old(H()), i)
      ensures SumCounts(H().slots) < old(SumCounts(H().slots))
      ensures Shrunk(old(H()), H())
    {
      hide Inv, Exact;
      ghost var h := H();
      RootCount(h, rank, segLen, AddRoots(o, multiset{i}), i);
      var n := elems[i].refcnt - 1;
      SumUpdate(h.slots, i, elems[i].(refcnt := n));
      elems[i] := elems[i].(refcnt := n);
      assert elems[..used] == h.slots[i := h.slots[i].(refcnt := n)];
      died := n == 0;
      if died {
        HoleRoom(h, rank, segLen, AddRoots(o, multiset{i}), i);
        holes[holeCount] := i;
        holeCount := holeCount + 1;
        SlotDies(h, rank, segLen, o, i);
        assert H() == SetCount(h, i, 0).(holes := h.holes + [i]);
      } else {
        CountChanges(h, rank, segLen, AddRoots(o, multiset{i}), i, n, o.roots);
        assert H() == SetCount(h, i, n);
      }
    }

    /** `u6a_free_stack_push_`. */
    method FreePush(v: Var)
      modifies this`fstack
      ensures fstack == old(fstack) + Entry(v)
    {
      if Counted(v) {
        fstack := fstack + [v.ref];
      }
    }

    /** What a dead slot owned: a stack is discarded, references go on the list. `lost` are the
        references that are dropped from the list without being released. */
    method Bury(c: Content, ghost o: Owners) returns (ghost lost: multiset<nat>)
      requires Ok(AddRoots(o, multiset(fstack) + ContentRefs(c)).(heads := o.heads + ContentHeads(c)))
      modifies this, elems, holes
      ensures Ok(AddRoots(o, multiset(fstack) + lost))
      ensures used == old(used) && active == old(active) && rank == old(rank)
      ensures SumCounts(H().slots) <= old(SumCounts(H().slots)) && Shrunk(old(H()), H())
      ensures old(Exact(H(), AddRoots(o, multiset(fstack) + ContentRefs(c)).(heads := o.heads + ContentHeads(c))))
          ==> Exact(H(), AddRoots(o, multiset(fstack) + lost))
      ensures c.Closure? ==>
        Turn(H(), fstack, lost) == Turn(old(H()), old(fstack) + Entry(c.v2) + Entry(c.v1), multiset{})
      ensures c.Cont? ==> Turn(H(), fstack, lost) == Emptied(old(H()), old(fstack), c.stack)
      decreases SumCounts(elems[..used]), 9
    {
      hide Inv, Exact, SumCounts, Shrunk, ContentRefs, ContentHeads, Counted, Entry, DiscardRefs, Discarded;
      ghost var o1, todo := AddRoots(o, multiset(fstack)), fstack;
      MoreRoots(o, multiset(fstack), ContentRefs(c));
      lost := multiset{};
      if c.Cont? {
        DeadCont(o1, c);
        ghost var inner := Discard(c.stack, o1);
        lost := Forgotten(todo, fstack, inner);
        ForgottenRoots(o, todo, fstack, inner);
        assert todo == [] ==> inner + multiset(todo) == inner;
      } else {
        ShrunkSame(H());
        FreePush(c.v2);
        FreePush(c.v1);
        Entries(o, todo, c);
      }
    }

    /** One turn of the release loop. */
    method Settle(cur: nat, ghost o: Owners) returns (ghost lost: multiset<nat>)
      requires Ok(AddRoots(o, multiset(fstack) + multiset{cur}))
      modifies this, elems, holes
      ensures Ok(AddRoots(o, multiset(fstack) + lost)) && cur < used
      ensures used == old(used) && active == old(active) && rank == old(rank)
      ensures SumCounts(H().slots) < old(SumCounts(H().slots)) && Shrunk(old(H()), H())
      ensures old(Exact(H(), AddRoots(o, multiset(fstack) + multiset{cur})))
          ==> Exact(H(), AddRoots(o, multiset(fstack) + lost))
      ensures ContsKept(old(H().slots), H().slots) ==> lost == multiset{}
      ensures InUse(old(H()), cur) && Turn(H(), fstack, lost) == Turned(old(H()), old(fstack), cur)
      decreases SumCounts(elems[..used]), 0
    {
      hide Inv, Exact, SumCounts, Shrunk, ContentRefs, ContentHeads, Counted, Entry, Emptied, Lowered;
      ghost var start := H();
      lost := multiset{};
      MoreRoots(o, multiset(fstack), multiset{cur});
      var died := Lower(cur, AddRoots(o, multiset(fstack)));
      if died {
        ghost var lowered := H();
        var content := elems[cur].content;
        MoreRoots(o, multiset(fstack), ContentRefs(content));
        lost := Bury(content, o);
        ShrunkTrans(start, lowered, H());
        StaysDead(lowered, H(), cur);
      } else {
        assert multiset(fstack) + lost == multiset(fstack);
      }
    }

    /** Takes the next slot from the release list; `lost` is what has been lost so far. */
    method SettleNext(ghost o: Owners, ghost lost: multiset<nat>) returns (ghost lost': multiset<nat>)
      requires fstack != [] && Ok(AddRoots(o, multiset(fstack) + lost))
      modifies this, elems, holes
      ensures Ok(AddRoots(o, multiset(fstack) + lost'))
      ensures used == old(used) && active == old(active) && rank == old(rank)
      ensures SumCounts(H().slots) < old(SumCounts(H().slots)) && Shrunk(old(H()), H())
      ensures
        old(Exact(H(), AddRoots(o, multiset(fstack) + lost))) ==> Exact(H(), AddRoots(o, multiset(fstack) + lost'))
      ensures ContsKept(old(H().slots), H().slots) ==> lost' == lost
      ensures InUse(old(H()), old(fstack)[|old(fstack)| - 1])
      ensures
        var n := |old(fstack)| - 1;
        var t := Turned(old(H()), old(fstack)[..n], old(fstack)[n]);
        H() == t.h && fstack == t.todo && lost' == lost + t.lost
      decreases SumCounts(elems[..used]), 1
    {
      hide Inv, Exact, SumCounts, Shrunk, ContsKept, Turned;
      ghost var todo := fstack;
      var cur := fstack[|fstack| - 1];
      fstack := fstack[..|fstack| - 1];
      assert todo == fstack + [cur];
      TakeEntry(o, lost, multiset(todo), multiset(fstack), cur);
      ghost var more := Settle(cur, AddRoots(o, lost));
      MoreRoots(o, lost, multiset(fstack) + more);
      lost' := lost + more;
      assert multiset(fstack) + lost' == lost + (multiset(fstack) + more);
    }

    /** The release loop behind its first turn. */
    method Drain(ghost o: Owners, ghost lost: multiset<nat>) returns (ghost lost': multiset<nat>)
      requires Ok(AddRoots(o, multiset(fstack) + lost))
      modifies this, elems, holes
      ensures Ok(AddRoots(o, lost')) && fstack == []
      ensures used == old(used) && active == old(active) && rank == old(rank)
      ensures SumCounts(H().slots) <= old(SumCounts(H().slots)) && Shrunk(old(H()), H())
      ensures old(Exact(H(), AddRoots(o, multiset(fstack) + lost))) ==> Exact(H(), AddRoots(o, lost'))
      ensures ContsKept(old(H().slots), H().slots) ==> lost' == lost
      ensures
        var r := Drained(old(H()), old(fstack));
        H() == r.h && lost' == lost + r.lost
      decreases SumCounts(elems[..used]), 2
    {
      hide Inv, Exact, SumCounts, Shrunk, ContsKept, Drained, Turned;
      lost' := lost;
      ShrunkSame(H());
      while fstack != []
        invariant Ok(AddRoots(o, multiset(fstack) + lost'))
        invariant used == old(used) && active == old(active) && rank == old(rank)
        invariant SumCounts(H().slots) <= old(SumCounts(H().slots)) && Shrunk(old(H()), H())
        invariant
          old(Exact(H(), AddRoots(o, multiset(fstack) + lost))) ==> Exact(H(), AddRoots(o, multiset(fstack) + lost'))
        invariant ContsKept(old(H().slots), H().slots) ==> lost' == lost
        invariant Meets(Drained(old(H()), old(fstack)), lost, Drained(H(), fstack), lost')
        decreases SumCounts(H().slots)
      {
        ghost var before, todo, so, n := H(), fstack, lost', |fstack| - 1;
        lost' := SettleNext(o, lost');
        ShrunkTrans(old(H()), before, H());
        ContsParts(old(H()), before, H());
        DrainedTurn(before, todo);
        ghost var more := Turned(before, todo[..n], todo[n]).lost;
        MeetsMore(Drained(old(H()), old(fstack)), lost, so, more, Drained(H(), fstack));
      }
      DrainedNone(H());
      assert multiset(fstack) + lost' == lost';
    }

    /** `u6a_vm_pool_free`: drops one reference to slot `i`, and in turn those of every slot that
        dies of it. A dead continuation's stack is discarded, which may come back here and reset
        the list of what is still to do. The counts then stay too high by just the references that
        were on it, `lost`; there are none exactly if the release is in order. */
    method Release(i: nat, ghost o: Owners) returns (ghost lost: multiset<nat>)
      requires Ok(AddRoots(o, multiset{i}))
      modifies this, elems, holes
      ensures Ok(o) && Ok(AddRoots(o, lost)) && fstack == []
      ensures used == old(used) && active == old(active) && rank == old(rank)
      ensures SumCounts(H().slots) < old(SumCounts(H().slots)) && Shrunk(old(H()), H())
      ensures old(Exact(H(), AddRoots(o, multiset{i}))) ==> Exact(H(), AddRoots(o, lost))
      ensures ContsKept(old(H().slots), H().slots) ==> lost == multiset{}
      ensures After(H(), lost) == Drained(old(H()), [i])
      ensures lost == multiset{} <==> Orderly(old(H()), [i])
      ensures old(Exact(H(), AddRoots(o, multiset{i}))) ==> (Exact(H(), o) <==> Orderly(old(H()), [i]))
      decreases SumCounts(elems[..used]), 3
    {
      hide Inv, Exact, SumCounts, Shrunk, ContsKept, Drained, Turned, Orderly;
      ghost var start := H();
      DrainedLost(start, [i]);
      fstack := [];
      assert multiset(fstack) + multiset{i} == multiset{i};
      lost := Settle(i, o);
      ghost var first, todo, none := H(), fstack, lost;
      DrainedOne(start, i);
      lost := Drain(o, lost);
      ShrunkTrans(start, first, H());
      ContsParts(start, first, H());
      DropLost(o, lost);
      FewerRoots(H(), rank, segLen, AddRoots(o, lost), o.roots);
      ExactLost(H(), o, lost);
    }

    /** Drops the reference that a variable may be (src/runtime.c:117-122). */
    method ReleaseVar(v: Var, ghost o: Owners) returns (ghost lost: multiset<nat>)
      requires Ok(AddRoots(o, VarRefs(v)))
      modifies this, elems, holes
      ensures Ok(AddRoots(o, lost)) && fstack == if Counted(v) then [] else old(fstack)
      ensures used == old(used) && active == old(active) && rank == old(rank)
      ensures SumCounts(H().slots) <= old(SumCounts(H().slots)) && Shrunk(old(H()), H())
      ensures old(Exact(H(), AddRoots(o, VarRefs(v)))) ==> Exact(H(), AddRoots(o, lost))
      ensures ContsKept(old(H().slots), H().slots) ==> lost == multiset{}
      ensures if Counted(v) then SumCounts(H().slots) < old(SumCounts(H().slots)) else H() == old(H())
      ensures After(H(), lost) == DrainedVar(old(H()), v)
      decreases SumCounts(elems[..used]), 4
    {
      hide Inv, Exact, SumCounts, Shrunk, Counted, ContsKept, Drained, Orderly;
      lost := multiset{};
      if Counted(v) {
        lost := Release(v.ref, o);
      } else {
        ShrunkSame(H());
      }
    }

    /** Releases what a freed segment held, from the top down. */
    method ReleaseAll(vs: seq<Var>, ghost o: Owners) returns (ghost lost: multiset<nat>)
      requires Ok(AddRoots(o, VarsRefs(vs)))
      modifies this, elems, holes
      ensures Ok(AddRoots(o, lost)) && fstack == if VarsRefs(vs) == multiset{} then old(fstack) else []
      ensures used == old(used) && active == old(active) && rank == old(rank)
      ensures SumCounts(H().slots) <= old(SumCounts(H().slots)) && Shrunk(old(H()), H())
      ensures old(Exact(H(), AddRoots(o, VarsRefs(vs)))) ==> Exact(H(), AddRoots(o, lost))
      ensures ContsKept(old(H().slots), H().slots) ==> lost == multiset{}
      ensures After(H(), lost) == DrainedAll(old(H()), vs)
      decreases SumCounts(elems[..used]), 5
    {
      hide Inv, Exact, SumCounts, Shrunk, VarRefs, VarsRefs, Counted, ContsKept, DrainedAll, DrainedVar, Meets;
      ghost var start := H();
      ShrunkSame(start);
      var idx: nat := |vs|;
      lost := multiset{};
      MeetsStart(DrainedAll(start, vs));
      assert vs[..idx] == vs && VarsRefs(vs) + lost == VarsRefs(vs);
      while idx > 0
        invariant idx <= |vs|
        invariant Ok(AddRoots(o, VarsRefs(vs[..idx]) + lost))
        invariant fstack == [] || (fstack == old(fstack) && VarsRefs(vs[..idx]) == VarsRefs(vs))
        invariant VarsRefs(vs) == multiset{} ==> fstack == old(fstack) && VarsRefs(vs[..idx]) == multiset{}
        invariant used == old(used) && active == old(active) && rank == old(rank)
        invariant SumCounts(H().slots) <= old(SumCounts(H().slots)) && Shrunk(start, H())
        invariant old(Exact(H(), AddRoots(o, VarsRefs(vs)))) ==> Exact(H(), AddRoots(o, VarsRefs(vs[..idx]) + lost))
        invariant ContsKept(start.slots, H().slots) ==> lost == multiset{}
        invariant Meets(DrainedAll(start, vs), multiset{}, DrainedAll(H(), vs[..idx]), lost)
        decreases idx
      {
        idx := idx - 1;
        ghost var before := H();
        LastVar(vs, idx);
        LastRoots(o, vs, idx, lost, multiset{});
        ghost var more := ReleaseVar(vs[idx], AddRoots(o, VarsRefs(vs[..idx]) + lost));
        LastRoots(o, vs, idx, lost, more);
        ShrunkTrans(start, before, H());
        ContsParts(start, before, H());
        DrainedLast(before, vs, idx);
        MeetsMore(DrainedAll(start, vs), multiset{}, lost, more, DrainedAll(H(), vs[..idx]));
        lost := lost + more;
      }
      NoVars(vs, o);
      DrainedNoVars(H(), vs);
      MeetsEnd(DrainedAll(start, vs), H(), lost);
      assert VarsRefs(vs[..0]) + lost == lost;
    }

    /** One turn of the discarding loop: `--refcnt`, and at zero the segment goes. It is taken off the
        heap before what it held is released. */
    method FreeSegment(v: nat, ghost o: Owners) returns (next: Option<nat>, ghost lost: multiset<nat>)
      requires Ok(AddLink(o, v))
      modifies this, elems, holes
      ensures Ok(AddRoots(if next.Some? then AddLink(o, next.value) else o, lost))
      ensures old(Live(segs, v)) && (fstack == old(fstack) || fstack == [])
      ensures
        var g := old(segs[v].value);
        if g.refcnt == 1 then
          && fstack == (if VarsRefs(g.elems) == multiset{} then old(fstack) else [])
          && After(H(), lost) == DrainedAll(SetSeg(old(H()), v, None), g.elems) && next == g.prev
        else
          && g.refcnt > 1 && fstack == old(fstack) && lost == multiset{} && next == None
          && H() == SetSeg(old(H()), v, Recount(Some(g), g.refcnt - 1))
      ensures used == old(used) && active == old(active) && rank == old(rank)
      ensures next.Some? ==> next.value < |rank| && v < |rank| && rank[next.value] < rank[v]
      ensures SumCounts(H().slots) <= old(SumCounts(H().slots)) && Shrunk(old(H()), H())
      ensures
        old(Exact(H(), AddLink(o, v))) ==>
          Exact(H(), AddRoots(if next.Some? then AddLink(o, next.value) else o, lost))
      ensures ContsKept(old(H().slots), H().slots) ==> lost == multiset{}
      decreases SumCounts(elems[..used]), 6
    {
      hide Inv, Exact, SumCounts, Shrunk, ContsKept, VarsRefs, DrainedAll;
      ghost var start := H();
      lost := multiset{};
      FreeTurn(start, rank, segLen, o, v);
      var prev, held := segs[v].value.prev, segs[v].value.elems;
      var n := segs[v].value.refcnt - 1;
      segs := segs[v := Recount(segs[v], n)];
      if n > 0 {
        assert AddRoots(o, lost) == o;
        return None, lost;
      }
      segs := segs[v := None];
      ghost var freed := H();
      assert freed == SetSeg(start, v, None);
      next := prev;
      lost := ReleaseAll(held, if prev.Some? then AddLink(o, prev.value) else o);
      ShrunkTrans(start, freed, H());
    }

    /** The discarding loop: gives up a link to `id` and, as long as segments go by that, the link each
        of them had. */
    method FreeChain(id: nat, ghost o: Owners) returns (ghost lost: multiset<nat>)
      requires Ok(AddLink(o, id))
      modifies this, elems, holes
      ensures Ok(AddRoots(o, lost))
      ensures fstack == if FreedRefs(old(segs), id) == multiset{} then old(fstack) else []
      ensures used == old(used) && active == old(active) && rank == old(rank)
      ensures SumCounts(H().slots) <= old(SumCounts(H().slots)) && Shrunk(old(H()), H())
      ensures old(Exact(H(), AddLink(o, id))) ==> Exact(H(), AddRoots(o, lost))
      ensures ContsKept(old(H().slots), H().slots) ==> lost == multiset{}
      ensures After(H(), lost) == Unlinked(old(H()), id)
      decreases SumCounts(elems[..used]), 7
    {
      hide Inv, Exact, SumCounts, Shrunk, ContsKept, VarsRefs, Unlinked, FreedRefs, Meets;
      ghost var start, all := H(), Unlinked(H(), id);
      LinkRank(start, rank, segLen, o, id);
      ShrunkSame(start);
      lost := multiset{};
      ghost var left := AddLink(o, id);
      var vs: Option<nat> := Some(id);
      NoRoots(left);
      MeetsStart(all);
      while vs.Some?
        invariant left == (if vs.Some? then AddLink(o, vs.value) else o) && Ok(AddRoots(left, lost))
        invariant used == old(used) && active == old(active) && rank == old(rank)
        invariant SumCounts(H().slots) <= old(SumCounts(H().slots)) && Shrunk(start, H())
        invariant old(Exact(H(), AddLink(o, id))) ==> Exact(H(), AddRoots(left, lost))
        invariant ContsKept(start.slots, H().slots) ==> lost == multiset{}
        invariant Listed(FreedRefs(start.segs, id), H().segs, vs, old(fstack), fstack)
        invariant Meets(all, multiset{}, UnlinkedNext(H(), vs), lost)
        invariant vs.Some? ==> vs.value < |rank|
        decreases if vs.Some? then rank[vs.value] + 1 else 0
      {
        ghost var before, from, more, listed := H(), vs.value, multiset{}, fstack;
        RootsUnder(o, lost, vs.value);
        vs, more := FreeSegment(vs.value, AddRoots(o, lost));
        ShrunkTrans(start, before, H());
        ContsParts(start, before, H());
        UnlinkedTurn(before, from, H(), vs, more);
        ListedTurn(FreedRefs(start.segs, id), before, from, H(), vs, old(fstack), listed, fstack);
        MeetsMore(all, multiset{}, lost, more, UnlinkedNext(H(), vs));
        left := if vs.Some? then AddLink(o, vs.value) else o;
        NextRoots(o, vs, lost, more);
        lost := lost + more;
      }
      MeetsEnd(all, H(), lost);
    }

    /** `vm_stack_free`: frees a head and every segment below it that nothing else stands on, each
        with the references it held. */
    method Discard(id: nat, ghost o: Owners) returns (ghost lost: multiset<nat>)
      requires Ok(AddHead(o, id))
      modifies this, elems, holes
      ensures Ok(o) && Ok(AddRoots(o, lost)) && old(Live(segs, id))
      ensures fstack == if DiscardRefs(old(segs), id) == multiset{} then old(fstack) else []
      ensures used == old(used) && active == old(active) && rank == old(rank)
      ensures SumCounts(H().slots) <= old(SumCounts(H().slots)) && Shrunk(old(H()), H())
      ensures old(Exact(H(), AddHead(o, id))) ==> Exact(H(), AddRoots(o, lost))
      ensures ContsKept(old(H().slots), H().slots) ==> lost == multiset{}
      ensures After(H(), lost) == Discarded(old(H()), id)
      ensures lost == multiset{} <==> OrderlyDiscard(old(H()), id)
      ensures old(Exact(H(), AddHead(o, id))) ==> (Exact(H(), o) <==> OrderlyDiscard(old(H()), id))
      decreases SumCounts(elems[..used]), 8
    {
      hide Inv, Exact, SumCounts, Shrunk, Unlinked, FreedRefs, OrderlyDiscard, Discarded, DiscardRefs;
      ghost var start := H();
      Grab(start, rank, segLen, o, id);
      RecountShrunk(start, id, 1);
      DiscardedLost(start, id);
      DiscardedHead(start, id);
      segs := segs[id := Recount(segs[id], 1)];
      ghost var linked := H();
      lost := FreeChain(id, o);
      ShrunkTrans(start, linked, H());
      DropLost(o, lost);
      FewerRoots(H(), rank, segLen, AddRoots(o, lost), o.roots);
      ExactLost(H(), o, lost);
    }

    /** The flat stack under `id`. */
    ghost function Stack(id: nat): seq<Var>
      reads this
    {
      Flat(segs, rank, id)
    }

    /** Puts `vs` in place of the active segment's elements. */
    method SetActive(vs: seq<Var>, ghost o: Owners, ghost roots: multiset<nat>)
      requires Ok(AddHead(o, active)) && |vs| <= segLen && Live(segs, active)
      requires VarsRefs(vs) + roots == VarsRefs(segs[active].value.elems) + o.roots
      modifies this`segs
      ensures Ok(AddHead(o.(roots := roots), active))
      ensures old(Exact(H(), AddHead(o, active))) ==> Exact(H(), AddHead(o.(roots := roots), active))
      ensures
        var n := |old(Stack(active))| - |old(segs[active].value.elems)|;
        && n >= 0 && Stack(active) == old(Stack(active))[..n] + vs
        && old(Stack(active)) == old(Stack(active))[..n] + old(segs[active].value.elems)
      ensures SameViews(old(segs), rank, segs, rank, old(Heads(H(), o)))
      ensures segs == Replaced(old(segs), active, vs)
    {
      hide Inv, Exact, Total, SameViews, VarsRefs, Flat;
      ElemsSet(H(), rank, segLen, o, active, vs, roots);
      segs := segs[active := Some(segs[active].value.(elems := vs))];
    }

    /** `push1_split_` to `push4_split_`: onto a new segment. */
    method PushSplit(vs: seq<Var>, ghost o: Owners)
      requires Ok(AddHead(AddRoots(o, VarsRefs(vs)), active)) && |vs| <= segLen
      requires Live(segs, active) && |segs[active].value.elems| + 3 >= segLen
      modifies this`segs, this`active, this`rank
      ensures Ok(AddHead(o, active))
      ensures old(Exact(H(), AddHead(AddRoots(o, VarsRefs(vs)), active))) ==> Exact(H(), AddHead(o, active))
      ensures segs == OnTop(old(segs), old(active), vs) && active == old(|segs|)
      ensures |old(rank)| == old(|segs|) && rank == old(rank) + [old(rank[active]) + 1]
      ensures Stack(active) == old(Stack(active)) + vs
      ensures SameViews(old(segs), old(rank), segs, rank, old(Heads(H(), o)))
    {
      hide Inv, Total, Exact, SameViews, VarsRefs, Flat;
      OnNew(H(), rank, segLen, o, active, vs);
      ShapeOf(H(), rank, segLen, AddHead(AddRoots(o, VarsRefs(vs)), active));
      segs := segs[active := Recount(segs[active], 1)] + [Some(Seg(Some(active), vs, 0))];
      rank := rank + [rank[active] + 1];
      active := |segs| - 1;
    }

    /** `push1` to `push4` where the active segment has room. */
    method Append(vs: seq<Var>)
      requires Live(segs, active)
      modifies this`segs
      ensures segs == Replaced(old(segs), active, old(segs[active].value.elems) + vs)
    {
      segs := segs[active := Some(segs[active].value.(elems := segs[active].value.elems + vs))];
    }

    /** `push1` to `push4`: onto the active segment, or onto a new one if it might not fit. */
    method Push(vs: seq<Var>, ghost o: Owners)
      requires 1 <= |vs| <= 4 && Ok(AddHead(AddRoots(o, VarsRefs(vs)), active))
      modifies this`segs, this`active, this`rank
      ensures Ok(AddHead(o, active))
      ensures old(Exact(H(), AddHead(AddRoots(o, VarsRefs(vs)), active))) ==> Exact(H(), AddHead(o, active))
      ensures Stack(active) == old(Stack(active)) + vs
      ensures SameViews(old(segs), old(rank), segs, rank, old(Heads(H(), o)))
      ensures old(Live(segs, active)) && |old(rank)| == old(|segs|)
      ensures
        if |old(segs[active].value.elems)| + |vs| <= segLen then
          && segs == Replaced(old(segs), old(active), old(segs[active].value.elems) + vs)
          && active == old(active) && rank == old(rank)
        else
          && segs == OnTop(old(segs), old(active), vs)
          && active == old(|segs|) && rank == old(rank) + [old(rank[active]) + 1]
    {
      hide Inv, Exact, Total, SameViews, VarsRefs, Flat;
      ghost var o1 := AddRoots(o, VarsRefs(vs));
      ActiveFacts(H(), rank, segLen, o1, active);
      ShapeOf(H(), rank, segLen, AddHead(o1, active));
      var es := segs[active].value.elems;
      if |es| - 1 + |vs| < segLen {
        JoinRefs(es, vs, o.roots);
        ElemsSet(H(), rank, segLen, o1, active, es + vs, o.roots);
        assert o1.(roots := o.roots) == o;
        ghost var below := Stack(active)[..|Stack(active)| - |es|];
        assert below + (es + vs) == below + es + vs;
        Append(vs);
      } else {
        PushSplit(vs, o);
      }
    }

    /** `u6a_vm_pool_addref`, on a slot that something refers to. */
    method AddRef(i: nat, ghost o: Owners)
      requires Ok(o) && i < used && elems[i].refcnt > 0
      modifies elems
      ensures Ok(AddRoots(o, multiset{i}))
      ensures forall k :: 0 <= k < used ==>
        elems[k] == old(elems[k]).(refcnt := old(elems[k]).refcnt + if k == i then 1 else 0)
      ensures old(Exact(H(), o)) ==> Exact(H(), AddRoots(o, multiset{i}))
    {
      hide Inv, Exact;
      var n := elems[i].refcnt + 1;
      CountChanges(H(), rank, segLen, o, i, n, o.roots + multiset{i});
      ghost var h := H();
      elems[i] := elems[i].(refcnt := n);
      assert H() == SetCount(h, i, n);
    }

    /** Counts the references in a copied segment, from the top down. */
    method RetainAll(vs: seq<Var>, ghost o: Owners)
      requires Ok(o) && forall k :: 0 <= k < |vs| && Counted(vs[k]) ==>
          vs[k].ref < used && elems[vs[k].ref].refcnt > 0
      modifies elems
      ensures Ok(AddRoots(o, VarsRefs(vs)))
      ensures old(Exact(H(), o)) ==> Exact(H(), AddRoots(o, VarsRefs(vs)))
      ensures forall k :: 0 <= k < used ==>
        elems[k] == old(elems[k]).(refcnt := old(elems[k]).refcnt + VarsRefs(vs)[k])
      ensures Retained(old(H().slots), H().slots)
    {
      hide Inv, Exact, Counted, VarsRefs;
      var idx: nat := |vs|;
      NoneYet(vs, o);
      while idx > 0
        invariant idx <= |vs| && Ok(AddRoots(o, VarsRefs(vs[idx..])))
        invariant forall k :: 0 <= k < used ==>
          elems[k] == old(elems[k]).(refcnt := old(elems[k]).refcnt + VarsRefs(vs[idx..])[k])
        invariant old(Exact(H(), o)) ==> Exact(H(), AddRoots(o, VarsRefs(vs[idx..])))
        decreases idx
      {
        idx := idx - 1;
        ghost var o1 := AddRoots(o, VarsRefs(vs[idx + 1..]));
        FirstVar(vs, idx, o);
        if Counted(vs[idx]) {
          assert old(elems[vs[idx].ref].refcnt) > 0;
          AddRef(vs[idx].ref, o1);
        }
      }
      assert vs[0..] == vs;
      RetainedBy(old(H().slots), H().slots, vs);
    }

    /** `vm_stack_dup`: a second segment with the same contents, on top of the same one. */
    method Dup(id: nat, ghost o: Owners) returns (copy: nat)
      requires Ok(o) && Live(segs, id)
      modifies this`segs, this`rank, elems
      ensures Ok(AddHead(o, copy)) && copy == old(|segs|) && Stack(copy) == old(Stack(id))
      ensures old(Exact(H(), o)) ==> Exact(H(), AddHead(o, copy))
      ensures SameViews(old(segs), old(rank), segs, rank, old(Heads(H(), o)))
      ensures forall k :: 0 <= k < used ==>
        elems[k] == old(elems[k]).(refcnt := old(elems[k]).refcnt + VarsRefs(old(segs[id].value.elems))[k])
      ensures Retained(old(H().slots), H().slots)
      ensures Copied(old(segs), segs, id)
      ensures id < |old(rank)| && rank == old(rank) + [old(rank)[id]]
    {
      hide Inv, Exact, Total, SameViews, VarsRefs, Flat, Counted;
      var vs := segs[id].value;
      SegRefsLive(H(), rank, segLen, o, id);
      assert forall k :: 0 <= k < |vs.elems| && Counted(vs.elems[k]) ==>
          elems[vs.elems[k].ref] == H().slots[vs.elems[k].ref];
      ghost var h := H();
      RetainAll(vs.elems, o);
      StillOwned(h, H(), o, o);
      CopySeg(H(), rank, segLen, o, id);
      copy := |segs|;
      if vs.prev.Some? {
        var p := vs.prev.value;
        segs := segs[p := Recount(segs[p], segs[p].value.refcnt + 1)];
      }
      segs := segs + [Some(vs.(refcnt := 0))];
      rank := rank + [rank[id]];
    }

    /** The active segment is used up: frees it and goes down to the one below, or to a copy of that
        if something else stands on it too. */
    method Descend(ghost o: Owners)
      requires Ok(AddHead(o, active)) && Live(segs, active)
      requires segs[active].value.elems == [] && segs[active].value.prev.Some?
      modifies this`segs, this`active, this`rank, elems
      ensures Ok(AddHead(o, active)) && Stack(active) == old(Stack(active))
      ensures old(Exact(H(), AddHead(o, active))) ==> Exact(H(), AddHead(o, active))
      ensures Retained(old(H().slots), H().slots)
      ensures SameViews(old(segs), old(rank), segs, rank, old(Heads(H(), o)))
      ensures Live(segs, active) && |segs[active].value.elems| + 3 >= segLen
    {
      hide Inv, Total, Exact, Retained, SameViews, Flat;
      ghost var h := H();
      RetainedSame(h.slots);
      ghost var others := Heads(h, o);
      LeaveEmpty(h, rank, segLen, o, active);
      var p := segs[active].value.prev.value;
      segs := segs[active := None];
      var n := segs[p].value.refcnt - 1;
      segs := segs[p := Recount(segs[p], n)];
      active := p;
      if n > 0 {
        ghost var h2 := H();
        active := Dup(p, o);
        SameViewsTrans(h.segs, old(rank), h2.segs, old(rank), segs, rank, others);
      }
    }

    /** Takes the top off an active segment that holds something. */
    method TakeTop(ghost o: Owners) returns (top: Var)
      requires Ok(AddHead(o, active)) && Live(segs, active) && segs[active].value.elems != []
      modifies this`segs
      ensures Ok(AddHead(AddRoots(o, VarRefs(top)), active))
      ensures old(Exact(H(), AddHead(o, active))) ==> Exact(H(), AddHead(AddRoots(o, VarRefs(top)), active))
      ensures old(Stack(active)) == Stack(active) + [top]
      ensures
        var es := old(segs[active].value.elems);
        top == es[|es| - 1] && segs == Replaced(old(segs), active, es[..|es| - 1])
      ensures SameViews(old(segs), rank, segs, rank, old(Heads(H(), o)))
    {
      hide Inv, Total, Exact, SameViews, Flat, VarRefs, VarsRefs;
      ActiveFacts(H(), rank, segLen, o, active);
      TopOfView(segs, rank, active);
      var es := segs[active].value.elems;
      var k := |es| - 1;
      top := es[k];
      assert es == es[..k] + [top];
      SplitRefs(es[..k], top, o.roots);
      SetActive(es[..k], o, o.roots + VarRefs(top));
      assert AddRoots(o, VarRefs(top)) == o.(roots := o.roots + VarRefs(top));
      ghost var below := old(Stack(active))[..|old(Stack(active))| - |es|];
      assert below + es == below + es[..k] + [top];
    }

    /** `u6a_vm_stack_top` and `u6a_vm_stack_pop`: takes the top off the stack; the reference it may
        be goes to the caller. None on an empty stack. */
    method Pop(ghost o: Owners) returns (top: Option<Var>)
      requires Ok(AddHead(o, active))
      modifies this`segs, this`active, this`rank, elems
      ensures top.None? <==> old(Stack(active)) == []
      ensures top.None? ==> segs == old(segs) && active == old(active) && elems[..] == old(elems[..])
      ensures top.None? ==> Ok(AddHead(o, active))
      ensures top.Some? ==>
        && Ok(AddHead(AddRoots(o, VarRefs(top.value)), active))
        && old(Stack(active)) == Stack(active) + [top.value]
        && SameViews(old(segs), old(rank), segs, rank, old(Heads(H(), o)))
        && (old(Exact(H(), AddHead(o, active))) ==> Exact(H(), AddHead(AddRoots(o, VarRefs(top.value)), active)))
      ensures Retained(old(H().slots), H().slots)
      ensures old(Live(segs, active))
      ensures
        var es := old(segs[active].value.elems);
        es != [] ==>
          && top == Some(es[|es| - 1]) && active == old(active) && rank == old(rank)
          && segs == Replaced(old(segs), active, es[..|es| - 1])
    {
      hide Inv, Total, Exact, Retained, SameViews, Flat, VarRefs, VarsRefs;
      ghost var h := H();
      ActiveFacts(h, rank, segLen, o, active);
      TopOfView(h.segs, rank, active);
      ghost var others := Heads(h, o);
      SameViewsSelf(segs, rank, others);
      RetainedSame(h.slots);
      if segs[active].value.elems == [] {
        if segs[active].value.prev.None? {
          return None;
        }
        Descend(o);
      }
      ghost var h1, r1 := H(), rank;
      var v := TakeTop(o);
      StillOwned(h, h1, o, o);
      SameViewsTrans(h.segs, old(rank), h1.segs, r1, segs, rank, others);
      top := Some(v);
    }

    /** Makes sure that nothing but the active segment stands on the segment below it. */
    method OwnBelow(ghost o: Owners) returns (p: nat)
      requires Ok(AddHead(o, active)) && Live(segs, active) && segs[active].value.prev.Some?
      modifies this`segs, this`rank, elems
      ensures Ok(AddHead(o, active)) && Stack(active) == old(Stack(active))
      ensures old(Exact(H(), AddHead(o, active))) ==> Exact(H(), AddHead(o, active))
      ensures Retained(old(H().slots), H().slots)
      ensures SameViews(old(segs), old(rank), segs, rank, old(Heads(H(), o)))
      ensures Live(segs, active) && segs[active].value.prev == Some(p) &&
          segs[active].value.elems == old(segs[active].value.elems)
      ensures Live(segs, p) && segs[p].value.refcnt == 1 && |segs[p].value.elems| + 3 >= segLen
    {
      hide Inv, Total, Exact, Retained, SameViews, Flat, Linked;
      p := segs[active].value.prev.value;
      PrevFacts(H(), rank, segLen, AddHead(o, active), active);
      SegFits(H(), rank, segLen, AddHead(o, active), active);
      ghost var h, others := H(), Heads(H(), o);
      OtherHeads(h, rank, segLen, o, active);
      if segs[p].value.refcnt > 1 {
        ShapeOf(H(), rank, segLen, AddHead(o, active));
        var copy := Dup(p, AddHead(o, active));
        ghost var h1 := H();
        HeadsSplit(old(segs), old(rank), segs, rank, others, active);
        StillOwned(h, h1, o, o);
        ShapeOf(h1, rank, segLen, AddHead(AddHead(o, active), copy));
        GrownView(old(segs), old(rank), segs, rank, p, segs[copy].value.prev);
        MoveOver(h1, rank, segLen, o, active, copy);
        segs := Moved(segs, active, copy);
        segs := segs[p := Recount(segs[p], segs[p].value.refcnt - 1)];
        SameViewsTrans(old(segs), old(rank), h1.segs, rank, segs, rank, others);
        p := copy;
      } else {
        SameViewsSelf(segs, rank, others);
        RetainedSame(H().slots);
      }
    }

    /** Replaces the top element of the segment below the active one, where nothing else stands on it. */
    method SetBelow(p: nat, v: Var, ghost o: Owners) returns (elem: Var)
      requires Ok(AddHead(AddRoots(o, VarRefs(v)), active))
      requires Live(segs, active) && segs[active].value.prev == Some(p)
      requires Live(segs, p) && segs[p].value.refcnt == 1 && segs[p].value.elems != []
      modifies this`segs
      ensures Ok(AddHead(AddRoots(o, VarRefs(elem)), active))
      ensures
        old(Exact(H(), AddHead(AddRoots(o, VarRefs(v)), active))) ==>
          Exact(H(), AddHead(AddRoots(o, VarRefs(elem)), active))
      ensures SameViews(old(segs), rank, segs, rank, old(Heads(H(), o)))
      ensures
        var s, k := old(Stack(active)), |old(Stack(active))| - |old(segs[active].value.elems)| - 1;
        0 <= k < |s| && elem == s[k] && Stack(active) == s[k := v]
    {
      hide Inv, Total, Exact, SameViews, VarRefs, VarsRefs, Flat;
      WriteBelow(H(), rank, segLen, o, active, p, v);
      elem := segs[p].value.elems[|segs[p].value.elems| - 1];
      segs := SetTop(segs, p, v);
    }

    /** Replaces the last but one element inside the active segment. */
    method SetSecond(v: Var, ghost o: Owners) returns (elem: Var)
      requires Ok(AddHead(AddRoots(o, VarRefs(v)), active)) && Live(segs, active) && |segs[active].value.elems| >= 2
      modifies this`segs
      ensures Ok(AddHead(AddRoots(o, VarRefs(elem)), active))
      ensures
        old(Exact(H(), AddHead(AddRoots(o, VarRefs(v)), active))) ==>
          Exact(H(), AddHead(AddRoots(o, VarRefs(elem)), active))
      ensures SameViews(old(segs), rank, segs, rank, old(Heads(H(), o)))
      ensures
        var s, k := old(Stack(active)), |old(Stack(active))| - 2;
        0 <= k && elem == s[k] && Stack(active) == s[k := v]
    {
      hide Inv, Total, Exact, SameViews, VarRefs, VarsRefs, Flat;
      ghost var o1 := AddRoots(o, VarRefs(v));
      ActiveFacts(H(), rank, segLen, o1, active);
      var es := segs[active].value.elems;
      var k := |es| - 2;
      elem := es[k];
      SwapRefs(es, k, v, o.roots);
      SetActive(es[k := v], o1, o.roots + VarRefs(elem));
      assert AddRoots(o, VarRefs(elem)) == o1.(roots := o.roots + VarRefs(elem));
      SwapInView(old(Stack(active)), es, k, v);
    }

    /** `u6a_vm_stack_xch`: replaces the element below the top and returns it; None on a stack of
        fewer than two. */
    method Xch(v: Var, ghost o: Owners) returns (elem: Option<Var>)
      requires Ok(AddHead(AddRoots(o, VarRefs(v)), active))
      modifies this`segs, this`active, this`rank, elems
      ensures elem.None? <==> |old(Stack(active))| < 2
      ensures elem.None? ==> segs == old(segs) && active == old(active) && elems[..] == old(elems[..])
      ensures elem.None? ==> Ok(AddHead(AddRoots(o, VarRefs(v)), active))
      ensures elem.Some? ==>
        var s, k := old(Stack(active)), |old(Stack(active))| - 2;
        && elem.value == s[k] && Stack(active) == s[k := v]
        && Ok(AddHead(AddRoots(o, VarRefs(elem.value)), active))
        && SameViews(old(segs), old(rank), segs, rank, old(Heads(H(), o)))
        && (old(Exact(H(), AddHead(AddRoots(o, VarRefs(v)), active))) ==>
              Exact(H(), AddHead(AddRoots(o, VarRefs(elem.value)), active)))
      ensures Retained(old(H().slots), H().slots)
    {
      hide Inv, Total, Exact, Retained, SameViews, VarRefs, VarsRefs, Flat;
      ghost var h, o1 := H(), AddRoots(o, VarRefs(v));
      ActiveFacts(h, rank, segLen, o1, active);
      SmallView(h, rank, segLen, AddHead(o1, active), active);
      ghost var others := Heads(h, o);
      SameViewsSelf(segs, rank, others);
      RetainedSame(h.slots);
      if |segs[active].value.elems| < 2 && segs[active].value.prev.None? {
        return None;
      }
      if |segs[active].value.elems| == 1 {
        var p := OwnBelow(o1);
        ghost var h1, r1 := H(), rank;
        var e := SetBelow(p, v, o);
        StillOwned(h, h1, o, o);
        SameViewsTrans(h.segs, old(rank), h1.segs, r1, segs, rank, others);
        return Some(e);
      }
      if segs[active].value.elems == [] {
        Descend(o1);
      }
      ghost var h1, r1 := H(), rank;
      var e := SetSecond(v, o);
      StillOwned(h, h1, o, o);
      SameViewsTrans(h.segs, old(rank), h1.segs, r1, segs, rank, others);
      elem := Some(e);
    }

    /** `u6a_vm_stack_save`: a copy of the active stack for a continuation to own. */
    method Save(ghost o: Owners) returns (saved: nat)
      requires Ok(AddHead(o, active))
      modifies this`segs, this`rank, elems
      ensures Ok(AddHead(AddHead(o, active), saved))
      ensures old(Exact(H(), AddHead(o, active))) ==> Exact(H(), AddHead(AddHead(o, active), saved))
      ensures Retained(old(H().slots), H().slots)
      ensures Copied(old(segs), segs, active) && saved == old(|segs|)
      ensures active < |old(rank)| && rank == old(rank) + [old(rank)[active]]
      ensures Stack(saved) == old(Stack(active)) && Stack(active) == old(Stack(active))
      ensures SameViews(old(segs), old(rank), segs, rank, old(Heads(H(), o)))
    {
      hide Inv, Total, Exact, Retained, SameViews, Flat;
      ActiveFacts(H(), rank, segLen, o, active);
      OtherHeads(H(), rank, segLen, o, active);
      saved := Dup(active, AddHead(o, active));
      HeadsSplit(old(segs), old(rank), segs, rank, old(Heads(H(), o)), active);
    }

    /** `u6a_vm_pool_elem_alloc_` and the three ways to fill the slot: takes a hole, or the next slot
        never used. The caller's references and stack head move into the slot; None if the pool is full. */
    method Allocate(c: Content, ghost o: Owners) returns (r: Option<nat>)
      requires Ok(o.(roots := o.roots + ContentRefs(c), heads := o.heads + ContentHeads(c)))
      modifies this`used, this`holeCount, elems
      ensures r.None? <==> old(holeCount) == 0 && old(used) == elems.Length
      ensures r.None? ==> used == old(used) && holeCount == old(holeCount) && elems[..] == old(elems[..])
      ensures r.Some? ==>
        && Ok(AddRoots(o, multiset{r.value}))
        && r.value < used && elems[r.value] == Slot(c, 1) && old(Count(H().slots, r.value)) == 0
        && HolesRight(old(H())) && H() == Allocated(old(H()), c)
        && r.value == NextSlot(old(H()))
        && used == old(used) + (if old(holeCount) == 0 then 1 else 0)
        && holeCount == (if old(holeCount) == 0 then 0 else old(holeCount) - 1)
        && (forall k :: 0 <= k < old(used) && k != r.value ==> elems[k] == old(elems[k]))
        && (old(Exact(H(), o.(roots := o.roots + ContentRefs(c), heads := o.heads + ContentHeads(c)))) ==>
              Exact(H(), AddRoots(o, multiset{r.value})))
    {
      hide Inv, Exact, ContentRefs, ContentHeads;
      ghost var h := H();
      HolesOf(h, rank, segLen, o.(roots := o.roots + ContentRefs(c), heads := o.heads + ContentHeads(c)));
      var i: nat;
      if holeCount == 0 {
        if used == elems.Length {
          return None;
        }
        i := used;
        used := used + 1;
      } else {
        i := holes[holeCount - 1];
        holeCount := holeCount - 1;
      }
      elems[i] := Slot(c, 1);
      HoleTaken(h, c);
      Alloc(h, rank, segLen, o, c);
      assert H() == Allocated(h, c);
      r := Some(i);
    }

    method Alloc1(v: Var, ghost o: Owners) returns (r: Option<nat>)
      requires Ok(AddRoots(o, VarRefs(v)))
      modifies this`used, this`holeCount, elems
      ensures r.None? <==> old(holeCount) == 0 && old(used) == elems.Length
      ensures r.None? ==> used == old(used) && holeCount == old(holeCount) && elems[..] == old(elems[..])
      ensures r.Some? ==>
        && Ok(AddRoots(o, multiset{r.value}))
        && r.value < used && elems[r.value] == Slot(Closure(v, Var(0, 0)), 1) && old(Count(H().slots, r.value)) == 0
        && HolesRight(old(H())) && H() == Allocated(old(H()), Closure(v, Var(0, 0)))
        && r.value == NextSlot(old(H()))
        && used == old(used) + (if old(holeCount) == 0 then 1 else 0)
        && holeCount == (if old(holeCount) == 0 then 0 else old(holeCount) - 1)
        && (forall k :: 0 <= k < old(used) && k != r.value ==> elems[k] == old(elems[k]))
        && (old(Exact(H(), AddRoots(o, VarRefs(v)))) ==> Exact(H(), AddRoots(o, multiset{r.value})))
    {
      hide Inv, Exact;
      ClosureOwners(o, v, Var(0, 0));
      assert VarRefs(v) + VarRefs(Var(0, 0)) == VarRefs(v);
      r := Allocate(Closure(v, Var(0, 0)), o);
    }

    method Alloc2(v1: Var, v2: Var, ghost o: Owners) returns (r: Option<nat>)
      requires Ok(AddRoots(o, VarRefs(v1) + VarRefs(v2)))
      modifies this`used, this`holeCount, elems
      ensures r.None? <==> old(holeCount) == 0 && old(used) == elems.Length
      ensures r.None? ==> used == old(used) && holeCount == old(holeCount) && elems[..] == old(elems[..])
      ensures r.Some? ==>
        && Ok(AddRoots(o, multiset{r.value}))
        && r.value < used && elems[r.value] == Slot(Closure(v1, v2), 1) && old(Count(H().slots, r.value)) == 0
        && HolesRight(old(H())) && H() == Allocated(old(H()), Closure(v1, v2))
        && r.value == NextSlot(old(H()))
        && used == old(used) + (if old(holeCount) == 0 then 1 else 0)
        && holeCount == (if old(holeCount) == 0 then 0 else old(holeCount) - 1)
        && (forall k :: 0 <= k < old(used) && k != r.value ==> elems[k] == old(elems[k]))
        && (old(Exact(H(), AddRoots(o, VarRefs(v1) + VarRefs(v2)))) ==> Exact(H(), AddRoots(o, multiset{r.value})))
    {
      hide Inv, Exact;
      ClosureOwners(o, v1, v2);
      r := Allocate(Closure(v1, v2), o);
    }

    method Alloc2Ptr(stack: nat, ins: nat, ghost o: Owners) returns (r: Option<nat>)
      requires Ok(AddHead(o, stack))
      modifies this`used, this`holeCount, elems
      ensures r.None? <==> old(holeCount) == 0 && old(used) == elems.Length
      ensures r.None? ==> used == old(used) && holeCount == old(holeCount) && elems[..] == old(elems[..])
      ensures r.Some? ==>
        && Ok(AddRoots(o, multiset{r.value}))
        && r.value < used && elems[r.value] == Slot(Cont(stack, ins), 1) && old(Count(H().slots, r.value)) == 0
        && HolesRight(old(H())) && H() == Allocated(old(H()), Cont(stack, ins))
        && r.value == NextSlot(old(H()))
        && used == old(used) + (if old(holeCount) == 0 then 1 else 0)
        && holeCount == (if old(holeCount) == 0 then 0 else old(holeCount) - 1)
        && (forall k :: 0 <= k < old(used) && k != r.value ==> elems[k] == old(elems[k]))
        && (old(Exact(H(), AddHead(o, stack))) ==> Exact(H(), AddRoots(o, multiset{r.value})))
    {
      hide Inv, Exact;
      ContOwners(o, stack, ins);
      r := Allocate(Cont(stack, ins), o);
    }

    /** What `c` does to the memory (src/runtime.c:273-275): saves the stack and allocates a
        continuation to own it. None if the pool is full. */
    method Capture(ins: nat, ghost o: Owners) returns (r: Option<nat>)
      requires Ok(AddHead(o, active))
      modifies this`segs, this`rank, this`used, this`holeCount, elems
      ensures r.None? <==> old(holeCount) == 0 && old(used) == elems.Length
      ensures r.None? ==> holeCount == 0 && used == elems.Length
      ensures r.Some? ==>
        && Ok(AddHead(AddRoots(o, multiset{r.value}), active)) && old(Count(H().slots, r.value)) == 0
        && r.value < used && elems[r.value].content.Cont? && elems[r.value].content.ins == ins
        && elems[r.value].refcnt == 1 && Stack(elems[r.value].content.stack) == old(Stack(active))
        && Stack(active) == old(Stack(active))
        && SameViews(old(segs), old(rank), segs, rank, old(Heads(H(), o)))
        && Grown(old(H().slots), H().slots, r.value)
        && (old(Exact(H(), AddHead(o, active))) ==> Exact(H(), AddHead(AddRoots(o, multiset{r.value}), active)))
    {
      hide Inv, Exact, SameViews, Flat, Total, Retained, Grown, Heads, Copied, HolesRight, Allocated, NextSlot;
      ghost var before := H();
      var saved := Save(o);
      ghost var h := H();
      r := Alloc2Ptr(saved, ins, AddHead(o, active));
      if r.Some? {
        GrownBy(before.slots, h.slots, H().slots, r.value);
        assert AddRoots(AddHead(o, active), multiset{r.value}) == AddHead(AddRoots(o, multiset{r.value}), active);
      }
    }

    /** `u6a_vm_pool_get2_separate`: the stack to put in force for the continuation in slot `i`, a copy
        of the saved one if something else refers to the slot too, and otherwise the saved one itself. */
    method Separate(i: nat, ghost o: Owners) returns (vs: nat, ins: nat)
      requires Ok(o) && i < used && elems[i].content.Cont? && elems[i].refcnt > 0
      modifies this`segs, this`rank, elems
      ensures ins == old(elems[i].content.ins) && Retained(old(H().slots), H().slots)
      ensures Stack(vs) == old(Stack(elems[i].content.stack))
      ensures SameViews(old(segs), old(rank), segs, rank, old(Heads(H(), o)))
      ensures old(elems[i].refcnt) > 1 ==> Ok(AddHead(o, vs)) && (old(Exact(H(), o)) ==> Exact(H(), AddHead(o, vs)))
      ensures old(elems[i].refcnt) == 1 ==> vs == elems[i].content.stack && H() == old(H()) && Ok(o)
    {
      hide Inv, Exact, Retained, SameViews, Flat, Total;
      vs, ins := elems[i].content.stack, elems[i].content.ins;
      ContLive(H(), rank, segLen, o, i);
      RetainedSame(H().slots);
      SameViewsSelf(segs, rank, Heads(H(), o));
      if elems[i].refcnt > 1 {
        vs := Dup(vs, o);
      }
    }

    /** `u6a_vm_stack_resume`: the stack in force is discarded and another one put in its place. */
    method Resume(vs: nat, ghost o: Owners) returns (ghost lost: multiset<nat>)
      requires Ok(AddHead(o, active))
      modifies this, elems, holes
      ensures Ok(o) && Ok(AddRoots(o, lost)) && active == vs && used == old(used) && rank == old(rank)
      ensures Shrunk(old(H()), H())
      ensures SameViews(old(segs), rank, segs, rank, Heads(H(), o))
      ensures old(Exact(H(), AddHead(o, active))) ==> Exact(H(), AddRoots(o, lost))
      ensures After(H(), lost) == Discarded(old(H()), old(active))
      ensures lost == multiset{} <==> OrderlyDiscard(old(H()), old(active))
    {
      hide Inv, Exact, SameViews, Flat, Total, Shrunk, Discarded, OrderlyDiscard;
      ghost var h := H();
      lost := Discard(active, o);
      ViewsShrink(h, H(), rank, segLen, AddHead(o, active), o);
      active := vs;
    }

    /** The continuation in slot `i` is reinstated (src/runtime.c:280-282): its view is in force, it
        shows the same view still, and so does every other stack that is still owned. But if nothing
        else referred to the slot, the stack in force is the saved one itself, which has two owners
        then: whatever is done to the one is done to the other, and the invariant is lost. */
    method Reinstate(i: nat, ghost o: Owners) returns (ins: nat, ghost lost: multiset<nat>)
      requires Ok(AddHead(AddRoots(o, multiset{i}), active)) && i < used && elems[i].content.Cont?
      modifies this, elems, holes
      ensures used == old(used) && i < used <= elems.Length && holeCount <= holes.Length
      ensures ins == old(elems[i].content.ins)
      ensures elems[i].content == old(elems[i].content) && elems[i].refcnt > o.roots[i]
      ensures SlotsKept(old(H().slots), H().slots)
      ensures Stack(active) == old(Stack(elems[i].content.stack))
      ensures SameViews(old(segs), old(rank), segs, rank, Heads(H(), o))
      ensures elems[i].content.stack in Heads(H(), o)
      ensures Ok(AddHead(AddRoots(o, multiset{i}), active)) <==> old(elems[i].refcnt) > 1
      ensures old(elems[i].refcnt) > 1 ==>
        var o' := AddHead(AddRoots(AddRoots(o, multiset{i}), lost), active);
        Ok(o') && (old(Exact(H(), AddHead(AddRoots(o, multiset{i}), active))) ==> Exact(H(), o'))
      ensures old(elems[i].refcnt) == 1 ==>
        && Ok(AddRoots(o, multiset{i})) && active == elems[i].content.stack
        && (old(Exact(H(), AddHead(AddRoots(o, multiset{i}), active))) ==>
              Exact(H(), AddRoots(AddRoots(o, multiset{i}), lost)))
        && forall o': Owners, r: seq<nat> :: !Inv(H(), r, segLen, AddHead(o', active))
    {
      hide Inv, Exact, Retained, SameViews, Flat, Total, Heads, Shrunk, SlotsKept, Discarded, OrderlyDiscard;
      ghost var h, o1 := H(), AddRoots(o, multiset{i});
      RootCount(h, rank, segLen, AddHead(o1, active), i);
      var vs;
      vs, ins := Separate(i, AddHead(o1, active));
      ghost var h1, r1 := H(), rank;
      ghost var o2 := if h.slots[i].refcnt > 1 then AddHead(o1, vs) else o1;
      SwapHeads(o1, active, vs);
      lost := Resume(vs, o2);
      Reinstated(h, old(rank), h1, H(), rank, segLen, o, old(active), vs, i);
    }

    /** One stack operation; `gained` are the references handed over with what it took off. */
    method Act(op: StackOp, ghost o: Owners) returns (done: bool, ghost gained: multiset<nat>)
      requires Ok(AddHead(AddRoots(o, OpRefs(op)), active)) && (op.Put? ==> 1 <= |op.vs| <= 4)
      modifies this`segs, this`active, this`rank, elems
      ensures done <==> OnOne(op, old(Stack(active))).Some?
      ensures done ==>
        && Some(Stack(active)) == OnOne(op, old(Stack(active)))
        && Ok(AddHead(AddRoots(o, gained), active))
        && SameViews(old(segs), old(rank), segs, rank, old(Heads(H(), o)))
        && (old(Exact(H(), AddHead(AddRoots(o, OpRefs(op)), active))) ==>
              Exact(H(), AddHead(AddRoots(o, gained), active)))
      ensures Retained(old(H().slots), H().slots)
    {
      hide Inv, Exact, Retained, SameViews, Flat, VarRefs, VarsRefs, Total, Heads, OnOne;
      done, gained := true, multiset{};
      ghost var s := Stack(active);
      NoRoots(o);
      RetainedSame(H().slots);
      match op {
        case Put(vs) =>
          OnPut(vs, s);
          Push(vs, o);
        case Take =>
          var top := Pop(o);
          done := top.Some?;
          OnTake(s, Stack(active), top);
          if done {
            gained := VarRefs(top.value);
          }
        case Exchange(v) =>
          var elem := Xch(v, o);
          done := elem.Some?;
          OnExchange(v, s);
          if done {
            gained := VarRefs(elem.value);
          }
      }
    }

    /** Any run of stack operations has the effect it has on a plain sequence, and leaves every saved
        stack as it was. It stops at the first operation that the stack is too small for. */
    method Operate(ops: seq<StackOp>, ghost o: Owners) returns (done: bool, ghost o': Owners)
      requires Ok(AddHead(AddRoots(o, OpsRefs(ops)), active))
      requires forall k :: 0 <= k < |ops| && ops[k].Put? ==> 1 <= |ops[k].vs| <= 4
      modifies this`segs, this`active, this`rank, elems
      ensures done <==> OnSequence(ops, old(Stack(active))).Some?
      ensures done ==>
        && Some(Stack(active)) == OnSequence(ops, old(Stack(active)))
        && Ok(AddHead(o', active)) && o'.heads == o.heads
        && SameViews(old(segs), old(rank), segs, rank, old(Heads(H(), o)))
        && (old(Exact(H(), AddHead(AddRoots(o, OpsRefs(ops)), active))) ==> Exact(H(), AddHead(o', active)))
      ensures Retained(old(H().slots), H().slots)
      decreases |ops|
    {
      hide Inv, Total, Exact, Retained, SameViews, Flat, OpRefs, OnOne;
      o' := o;
      ghost var h, others := H(), Heads(H(), o);
      SameViewsSelf(segs, rank, others);
      RetainedSame(H().slots);
      if ops == [] {
        assert AddRoots(o, OpsRefs(ops)) == o;
        return true, o;
      }
      ghost var rest := OpsRefs(ops[1..]);
      MoreOps(o, ops);
      ghost var gained;
      done, gained := Act(ops[0], AddRoots(o, rest));
      ghost var h1, rank1 := H(), rank;
      if done {
        CommuteRoots(o, rest, gained);
        done, o' := Operate(ops[1..], AddRoots(o, gained));
        RetainedTrans(h.slots, h1.slots, H().slots);
        if done {
          StillOwned(h, h1, o, AddRoots(o, gained));
          SameViewsTrans(h.segs, old(rank), h1.segs, rank1, segs, rank, others);
        }
      }
    }
  }
}
