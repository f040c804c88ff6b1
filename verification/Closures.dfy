/** Programs that only make, share and drop closures: through any run of them the counts stay exact and
    the slots in use are those that can be reached. */
module Closures {
  import opened Syntax
  import opened Heap
  import opened Steps
  import opened Cascade
  import opened Memory
  import opened Reach

  /** Operations on the references that the program holds: make a closure over nothing, over one or
      over two of them, which go into it; take another reference; drop one. */
  datatype HeapOp = MakeNone | Make1(k: nat) | Make2(k: nat, l: nat) | Share(k: nat) | Drop(k: nat)

  /** Counts are exact, there are closures only, and each is younger than what it refers to. */
  ghost predicate InOrder(h: Store, o: Owners, birth: seq<nat>) {
    && Exact(h, o) && Ordered(h.slots, birth)
    && forall i :: 0 <= i < |h.slots| && h.slots[i].refcnt > 0 ==> h.slots[i].content.Closure?
  }

  /** The reference at position `k` is taken out. */
  function Without(held: seq<nat>, k: nat): (rest: seq<nat>)
    requires k < |held|
    ensures multiset(held) == multiset(rest) + multiset{held[k]} && |rest| == |held| - 1
  {
    assert held == held[..k] + [held[k]] + held[k + 1..];
    held[..k] + held[k + 1..]
  }

  lemma HeldAgain(o: Owners, held: seq<nat>, i: nat)
    ensures AddRoots(AddRoots(o, multiset(held)), multiset{i}) == AddRoots(o, multiset(held + [i]))
  {
    assert o.roots + multiset(held) + multiset{i} == o.roots + (multiset(held) + multiset{i});
    assert multiset(held + [i]) == multiset(held) + multiset{i};
  }

  /** What goes into a closure, or is dropped. */
  lemma HeldOut(o: Owners, held: seq<nat>, k: nat)
    requires k < |held|
    ensures AddRoots(o, multiset(held)) == AddRoots(AddRoots(o, multiset(Without(held, k))), multiset{held[k]})
  {
    assert o.roots + (multiset(Without(held, k)) + multiset{held[k]})
        == o.roots + multiset(Without(held, k)) + multiset{held[k]};
  }

  /** Filling a slot with a closure keeps order. */
  lemma MadeInOrder(h: Store, rank: seq<nat>, segLen: nat, o: Owners, birth: seq<nat>, v1: Var, v2: Var)
      returns (birth': seq<nat>)
    requires InOrder(h, AddRoots(o, VarRefs(v1) + VarRefs(v2)), birth)
    requires Inv(h, rank, segLen, AddRoots(o, VarRefs(v1) + VarRefs(v2)))
    ensures HolesRight(h) && Ordered(Allocated(h, Closure(v1, v2)).slots, birth')
    ensures forall i :: 0 <= i < |Allocated(h, Closure(v1, v2)).slots| ==>
      var s := Allocated(h, Closure(v1, v2)).slots[i];
      s.refcnt > 0 ==> s.content.Closure?
  {
    hide Total, Linked, Filled, Counts, Exact, Ordered, Covered;
    var c := Closure(v1, v2);
    CoveredOnly(h, rank, segLen, AddRoots(o, VarRefs(v1) + VarRefs(v2)));
    birth' := AllocOrdered(h, o, birth, c);
  }

  lemma CoveredOnly(h: Store, rank: seq<nat>, segLen: nat, o: Owners)
    requires Inv(h, rank, segLen, o)
    ensures Covered(h, o.(roots := o.roots)) && HolesRight(h)
  {
  }

  /** Another reference to a closure keeps order. */
  lemma SharedInOrder(h: Store, h': Store, o: Owners, birth: seq<nat>)
    requires InOrder(h, o, birth) && |h'.slots| == |h.slots|
    requires forall k :: 0 <= k < |h.slots| ==>
      h'.slots[k].content == h.slots[k].content && (h'.slots[k].refcnt > 0 <==> h.slots[k].refcnt > 0)
    ensures Ordered(h'.slots, birth)
    ensures forall i :: 0 <= i < |h'.slots| && h'.slots[i].refcnt > 0 ==> h'.slots[i].content.Closure?
  {
    hide Total, ContentRefs;
    assert forall i: nat, j: nat :: RefersTo(h'.slots, i, j) ==> RefersTo(h.slots, i, j);
  }

  /** Dropping a reference to a closure keeps order, and nothing is forgotten. */
  lemma DroppedInOrder(h: Store, h': Store, o: Owners, birth: seq<nat>)
    requires InOrder(h, o, birth) && SlotsKept(h.slots, h'.slots)
    ensures Ordered(h'.slots, birth) && ContsKept(h.slots, h'.slots)
    ensures forall i :: 0 <= i < |h'.slots| && h'.slots[i].refcnt > 0 ==> h'.slots[i].content.Closure?
  {
    hide Total, ContentRefs;
    assert forall i: nat, j: nat :: RefersTo(h'.slots, i, j) ==> RefersTo(h.slots, i, j);
  }

  predicate Fits(op: HeapOp, n: nat) {
    match op
    case MakeNone => true
    case Make2(k, l) => k < n && l < n - 1
    case Make1(k) => k < n
    case Share(k) => k < n
    case Drop(k) => k < n
  }

  /** The last reference is to a slot filled with `c`. */
  predicate Made(held: seq<nat>, held': seq<nat>, c: Content, slots: seq<Slot>) {
    && |held'| == |held| + 1 && held'[..|held|] == held
    && held'[|held|] < |slots| && slots[held'[|held|]].content == c
  }

  /** For a closure to be made: what stays in hand, and what goes in. The second reference of Make2
      counts without the first. */
  function Parts(op: HeapOp, held: seq<nat>): (seq<nat>, Var, Var)
    requires Fits(op, |held|) && !op.Share? && !op.Drop?
  {
    match op
    case MakeNone => (held, Var(0, 0), Var(0, 0))
    case Make1(k) => (Without(held, k), Var(32, held[k]), Var(0, 0))
    case Make2(k, l) =>
      var rest := Without(held, k);
      (Without(rest, l), Var(32, held[k]), Var(32, rest[l]))
  }

  lemma PartsHeld(o: Owners, op: HeapOp, held: seq<nat>)
    requires Fits(op, |held|) && !op.Share? && !op.Drop?
    ensures
      var (rest, v1, v2) := Parts(op, held);
      AddRoots(o, multiset(held)) == AddRoots(AddRoots(o, multiset(rest)), VarRefs(v1) + VarRefs(v2))
  {
    hide VarRefs;
    PlainVars();
    match op {
      case MakeNone =>
        NoRoots(AddRoots(o, multiset(held)));
      case Make1(k) =>
        HeldOut(o, held, k);
        OneVar(held[k]);
      case Make2(k, l) =>
        var rest := Without(held, k);
        HeldOut(o, held, k);
        HeldOut(o, rest, l);
        TwoVars(AddRoots(o, multiset(Without(rest, l))), held[k], rest[l]);
    }
  }

  /** What an operation does to the references held. */
  predicate Carried(op: HeapOp, held: seq<nat>, held': seq<nat>, slots: seq<Slot>) {
    Fits(op, |held|) &&
    match op
    case Share(k) => held' == held + [held[k]]
    case Drop(k) => held' == Without(held, k)
    case _ =>
      var (rest, v1, v2) := Parts(op, held);
      Made(rest, held', Closure(v1, v2), slots)
  }

  /** A closure over what `v1` and `v2` refer to. */
  method Make(m: Memory, v1: Var, v2: Var, held: seq<nat>, ghost birth: seq<nat>, ghost o: Owners)
      returns (done: bool, held': seq<nat>, ghost birth': seq<nat>)
    requires
      var all := AddRoots(AddRoots(o, multiset(held)), VarRefs(v1) + VarRefs(v2));
      m.Ok(all) && InOrder(m.H(), all, birth)
    modifies m, m.elems
    ensures m.active == old(m.active)
    ensures !done ==>
      && held' == held
      && m.Ok(AddRoots(AddRoots(o, multiset(held)), VarRefs(v1) + VarRefs(v2)))
      && m.H() == old(m.H()) && m.holeCount == 0 && m.used == m.elems.Length
    ensures done ==>
      && m.Ok(AddRoots(o, multiset(held'))) && InOrder(m.H(), AddRoots(o, multiset(held')), birth')
      && Made(held, held', Closure(v1, v2), m.H().slots)
  {
    hide Inv, Exact, Ordered, HolesRight, Total;
    ghost var h, o1 := m.H(), AddRoots(o, multiset(held));
    birth' := MadeInOrder(h, m.rank, m.segLen, o1, birth, v1, v2);
    var r := m.Alloc2(v1, v2, o1);
    done, held' := r.Some?, held;
    if done {
      held' := held + [r.value];
      HeldAgain(o, held, r.value);
    } else {
      assert m.H().slots == h.slots && m.H().holes == h.holes;
    }
  }

  /** One operation. It is not carried out if it names a reference that is not held, or if the pool is
      full. */
  method Carry(m: Memory, op: HeapOp, held: seq<nat>, ghost birth: seq<nat>, ghost o: Owners)
      returns (done: bool, held': seq<nat>, ghost birth': seq<nat>)
    requires m.Ok(AddRoots(o, multiset(held))) && InOrder(m.H(), AddRoots(o, multiset(held)), birth)
    modifies m, m.elems, m.holes
    ensures m.Ok(AddRoots(o, multiset(held'))) && InOrder(m.H(), AddRoots(o, multiset(held')), birth')
    ensures m.active == old(m.active) && (!done ==> held' == held && m.H() == old(m.H()))
    ensures done ==> Carried(op, held, held', m.H().slots)
    ensures !done ==> !Fits(op, |held|) || (m.holeCount == 0 && m.used == m.elems.Length)
  {
    hide Inv, Exact, Ordered, HolesRight, Total, VarRefs, Parts, Made;
    done, held', birth' := false, held, birth;
    if !Fits(op, |held|) {
      return;
    }
    match op {
      case Share(k) =>
        ghost var h := m.H();
        HeldCount(h, m.rank, m.segLen, o, held, k);
        m.AddRef(held[k], AddRoots(o, multiset(held)));
        SharedInOrder(h, m.H(), AddRoots(o, multiset(held)), birth);
        HeldAgain(o, held, held[k]);
        done, held' := true, held + [held[k]];
      case Drop(k) =>
        ghost var h := m.H();
        HeldOut(o, held, k);
        ghost var lost := m.Release(held[k], AddRoots(o, multiset(Without(held, k))));
        ShrunkSlots(h, m.H());
        DroppedInOrder(h, m.H(), AddRoots(o, multiset(held)), birth);
        NoRoots(AddRoots(o, multiset(Without(held, k))));
        done, held' := true, Without(held, k);
      case _ =>
        PartsHeld(o, op, held);
        var (rest, v1, v2) := Parts(op, held);
        ghost var b;
        var now;
        done, now, b := Make(m, v1, v2, rest, birth, o);
        if done {
          held', birth' := now, b;
        }
    }
  }

  lemma PlainVars()
    ensures VarRefs(Var(0, 0)) == multiset{} && VarRefs(Var(0, 0)) + VarRefs(Var(0, 0)) == multiset{}
  {
  }

  lemma OneVar(i: nat)
    ensures VarRefs(Var(32, i)) + VarRefs(Var(0, 0)) == multiset{i}
  {
  }

  lemma TwoVars(o: Owners, i: nat, j: nat)
    ensures AddRoots(AddRoots(o, multiset{j}), multiset{i}) == AddRoots(o, VarRefs(Var(32, i)) + VarRefs(Var(32, j)))
  {
    assert o.roots + multiset{j} + multiset{i} == o.roots + (multiset{i} + multiset{j});
  }

  lemma HeldCount(h: Store, rank: seq<nat>, segLen: nat, o: Owners, held: seq<nat>, k: nat)
    requires Inv(h, rank, segLen, AddRoots(o, multiset(held))) && k < |held|
    ensures InUse(h, held[k])
  {
    assert held[k] in multiset(held);
    RootCount(h, rank, segLen, AddRoots(o, multiset(held)), held[k]);
  }

  lemma ShrunkSlots(h: Store, h': Store)
    requires Shrunk(h, h')
    ensures SlotsKept(h.slots, h'.slots)
  {
  }

  /** Any run of operations: afterwards counts are exact, and the slots in use are exactly those that
      can be reached from the references that are held and from the stacks. */
  method RunHeap(m: Memory, ops: seq<HeapOp>, start: seq<nat>, ghost birth: seq<nat>, ghost o: Owners)
      returns (n: nat, held: seq<nat>, ghost birth': seq<nat>)
    requires m.Ok(AddRoots(o, multiset(start))) && InOrder(m.H(), AddRoots(o, multiset(start)), birth)
    modifies m, m.elems, m.holes
    ensures n <= |ops| && m.active == old(m.active)
    ensures n < |ops| ==> !Fits(ops[n], |held|) || (m.holeCount == 0 && m.used == m.elems.Length)
    ensures m.Ok(AddRoots(o, multiset(held))) && InOrder(m.H(), AddRoots(o, multiset(held)), birth')
    ensures forall i: nat ::
      Count(m.H().slots, i) > 0 <==> Reachable(m.H().slots, Outside(m.H(), AddRoots(o, multiset(held))), i)
  {
    hide Inv, InOrder, Fits, Reachable;
    n, held, birth' := 0, start, birth;
    while n < |ops|
      invariant n <= |ops| && m.active == old(m.active)
      invariant m.Ok(AddRoots(o, multiset(held))) && InOrder(m.H(), AddRoots(o, multiset(held)), birth')
      decreases |ops| - n
    {
      var done;
      done, held, birth' := Carry(m, ops[n], held, birth', o);
      if !done {
        break;
      }
      n := n + 1;
    }
    OrderReaches(m.H(), AddRoots(o, multiset(held)), birth');
  }

  lemma OrderReaches(h: Store, o: Owners, birth: seq<nat>)
    requires InOrder(h, o, birth)
    ensures forall i: nat :: Count(h.slots, i) > 0 <==> Reachable(h.slots, Outside(h, o), i)
  {
    LiveIffReachable(h, o, birth);
  }

  lemma NoneHeld(o: Owners)
    ensures AddRoots(o, multiset([])) == o
  {
  }

  lemma EmptyInOrder(h: Store, o: Owners)
    requires Exact(h, o) && h.slots == []
    ensures InOrder(h, o, [])
  {
    hide Total;
  }

  /** Such a run from the start. */
  method FromStart(poolLen: nat, segLen: nat, ops: seq<HeapOp>)
      returns (m: Memory, n: nat, held: seq<nat>, ghost birth: seq<nat>)
    requires segLen >= 64
    ensures fresh(m) && n <= |ops| && m.elems.Length == poolLen
    ensures n < |ops| ==> !Fits(ops[n], |held|) || (m.holeCount == 0 && m.used == m.elems.Length)
    ensures
      var o := AddRoots(AddHead(NOBODY, m.active), multiset(held));
      && m.Ok(o) && InOrder(m.H(), o, birth)
      && forall i: nat :: Count(m.H().slots, i) > 0 <==> Reachable(m.H().slots, Outside(m.H(), o), i)
  {
    hide Inv, Exact, Reachable, InOrder;
    m := new Memory(poolLen, segLen);
    ghost var o := AddHead(NOBODY, m.active);
    NoneHeld(o);
    EmptyInOrder(m.H(), o);
    n, held, birth := RunHeap(m, ops, [], [], o);
  }
}
