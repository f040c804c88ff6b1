/** Programs that save and reinstate continuations at will, on the memory as it is: what they see is
    a plain sequence and a list of snapshots of it. And what becomes of that where the source does
    not keep its own rules. */
module Continuations {
  import opened Syntax
  import opened Heap
  import opened Steps
  import opened Cascade
  import opened Memory
  import opened Reach

  /** A step of such a program: a stack operation, a new continuation, a jump to the k-th one, or the
      k-th one pushed on the stack. */
  datatype Move = Plain(op: StackOp) | Save(ins: nat) | Jump(k: nat) | Recall(k: nat)

  /** The function code of a continuation (src/vm_defs.h:65). */
  const C1: byte := 35

  /** What a continuation stands for. */
  datatype Snapshot = Snapshot(stack: seq<Var>, ins: nat)

  datatype Outcome = Done | TooShort | PoolFull | LastReference

  /** A move on a plain sequence and a list of snapshots; None if there is not enough to move. The
      slots that continuations are put in are `names`. */
  function OnMove(move: Move, s: seq<Var>, saved: seq<Snapshot>, names: seq<nat>): Option<(seq<Var>, seq<Snapshot>)> {
    match move
    case Plain(op) => (match OnOne(op, s) case None => None case Some(t) => Some((t, saved)))
    case Save(ins) => Some((s, saved + [Snapshot(s, ins)]))
    case Jump(k) => if k < |saved| then Some((saved[k].stack, saved)) else None
    case Recall(k) => if k < |saved| && k < |names| then Some((s + [Var(C1, names[k])], saved)) else None
  }

  function OnMoves(moves: seq<Move>, s: seq<Var>, saved: seq<Snapshot>, names: seq<nat>)
      : Option<(seq<Var>, seq<Snapshot>)> {
    if moves == [] then Some((s, saved))
    else
      match OnMove(moves[0], s, saved, names)
      case None => None
      case Some((t, more)) => OnMoves(moves[1..], t, more, names)
  }

  function MoveRefs(move: Move): multiset<nat> {
    if move.Plain? then OpRefs(move.op) else multiset{}
  }

  /** The references that the values in the moves are. */
  function MovesRefs(moves: seq<Move>): multiset<nat> {
    if moves == [] then multiset{} else MoveRefs(moves[0]) + MovesRefs(moves[1..])
  }

  predicate Small(move: Move) {
    move.Plain? && move.op.Put? ==> 1 <= |move.op.vs| <= 4
  }

  /** The slots in `conts` are continuations that show the snapshots; `mine` has a reference to
      each of them. */
  ghost predicate Held(h: Store, rank: seq<nat>, mine: multiset<nat>, conts: seq<nat>, saved: seq<Snapshot>) {
    && |conts| == |saved|
    && forall k :: 0 <= k < |conts| ==> Shows(h, rank, conts[k], saved[k]) && mine[conts[k]] >= 1
  }

  ghost predicate Shows(h: Store, rank: seq<nat>, i: nat, snap: Snapshot) {
    && i < |h.slots| && h.slots[i].refcnt > 0 && h.slots[i].content.Cont?
    && h.slots[i].content.ins == snap.ins && Flat(h.segs, rank, h.slots[i].content.stack) == snap.stack
  }

  /** A continuation that is still there, with its stack among those that have not changed. */
  lemma StillShows(h: Store, rank: seq<nat>, h': Store, rank': seq<nat>, heads: multiset<nat>, i: nat, snap: Snapshot)
    requires Shows(h, rank, i, snap) && SameViews(h.segs, rank, h'.segs, rank', heads)
    requires i < |h'.slots| && h'.slots[i].refcnt > 0 && h'.slots[i].content == h.slots[i].content
    requires h.slots[i].content.stack in heads
    ensures Shows(h', rank', i, snap)
  {
    hide Flat;
  }

  /** Nothing has died, and no stack that is owned has changed. */
  lemma HeldOn(h: Store, rank: seq<nat>, h': Store, rank': seq<nat>, o: Owners, mine: multiset<nat>,
      mine': multiset<nat>, conts: seq<nat>, saved: seq<Snapshot>)
    requires Held(h, rank, mine, conts, saved) && SameViews(h.segs, rank, h'.segs, rank', Heads(h, o))
    requires forall k :: 0 <= k < |conts| ==>
      conts[k] < |h'.slots| && h'.slots[conts[k]].refcnt > 0 && h'.slots[conts[k]].content == h.slots[conts[k]].content
    requires mine <= mine'
    ensures Held(h', rank', mine', conts, saved)
  {
    hide SameViews, Flat, Heads, Shows;
    forall k | 0 <= k < |conts|
      ensures Shows(h', rank', conts[k], saved[k]) && mine'[conts[k]] >= 1
    {
      ShownOwned(h, rank, o, conts[k], saved[k]);
      StillShows(h, rank, h', rank', Heads(h, o), conts[k], saved[k]);
    }
  }

  lemma ShownOwned(h: Store, rank: seq<nat>, o: Owners, i: nat, snap: Snapshot)
    requires Shows(h, rank, i, snap)
    ensures i < |h.slots| && h.slots[i].refcnt > 0 && h.slots[i].content.Cont?
    ensures h.slots[i].content.stack in Heads(h, o)
  {
    ContOwned(h, o, i);
  }

  /** After a stack operation. */
  lemma HeldAct(h: Store, rank: seq<nat>, h': Store, rank': seq<nat>, o: Owners, mine: multiset<nat>,
      gained: multiset<nat>, conts: seq<nat>, saved: seq<Snapshot>)
    requires Held(h, rank, mine, conts, saved) && SameViews(h.segs, rank, h'.segs, rank', Heads(h, o))
    requires Retained(h.slots, h'.slots)
    ensures Held(h', rank', mine + gained, conts, saved)
  {
    hide SameViews, Flat, Heads;
    HeldOn(h, rank, h', rank', o, mine, mine + gained, conts, saved);
  }

  /** After a new continuation has been made, by way of `h1`, and its count raised. */
  lemma HeldSave(h: Store, rank: seq<nat>, h1: Store, h': Store, rank': seq<nat>, o: Owners, mine: multiset<nat>,
      conts: seq<nat>, saved: seq<Snapshot>, i: nat, snap: Snapshot)
    requires Held(h, rank, mine, conts, saved) && SameViews(h.segs, rank, h1.segs, rank', Heads(h, o))
    requires Grown(h.slots, h1.slots, i) && Count(h.slots, i) == 0 && Shows(h1, rank', i, snap)
    requires h'.segs == h1.segs && |h'.slots| == |h1.slots|
    requires forall k :: 0 <= k < |h1.slots| ==>
      h'.slots[k].content == h1.slots[k].content && h'.slots[k].refcnt >= h1.slots[k].refcnt
    ensures Held(h', rank', mine + multiset{i, i}, conts + [i], saved + [snap])
  {
    hide SameViews, Flat, Heads;
    HeldOn(h, rank, h', rank', o, mine, mine + multiset{i, i}, conts, saved);
    HeldMore(h', rank', mine + multiset{i, i}, conts, saved, i, snap);
  }

  lemma HeldMore(h: Store, rank: seq<nat>, mine: multiset<nat>, conts: seq<nat>, saved: seq<Snapshot>,
      i: nat, snap: Snapshot)
    requires Held(h, rank, mine, conts, saved) && Shows(h, rank, i, snap) && mine[i] >= 1
    ensures Held(h, rank, mine, conts + [i], saved + [snap])
  {
    hide Shows;
  }

  /** After a stack has been discarded for a copy of a saved one: what is held is still there. */
  lemma HeldBack(h: Store, rank: seq<nat>, h': Store, rank': seq<nat>, segLen: nat, o: Owners, a: nat,
      mine: multiset<nat>, conts: seq<nat>, saved: seq<Snapshot>)
    requires Held(h, rank, mine, conts, saved) && Inv(h', rank', segLen, AddHead(o, a)) && mine <= o.roots
    requires SlotsKept(h.slots, h'.slots) && SameViews(h.segs, rank, h'.segs, rank', Heads(h', o))
    ensures Held(h', rank', mine, conts, saved)
  {
    hide SameViews, Flat, Heads, Inv, Total;
    forall k | 0 <= k < |conts|
      ensures Shows(h', rank', conts[k], saved[k])
    {
      RootsHeld(h', rank', segLen, AddHead(o, a), conts[k]);
      ContOwned(h', o, conts[k]);
      StillShows(h, rank, h', rank', Heads(h', o), conts[k], saved[k]);
    }
  }

  lemma HeldAt(h: Store, rank: seq<nat>, segLen: nat, o: Owners, a: nat, mine: multiset<nat>,
      conts: seq<nat>, saved: seq<Snapshot>, k: nat)
    requires Held(h, rank, mine, conts, saved) && Inv(h, rank, segLen, AddHead(o, a)) && mine <= o.roots
    ensures |conts| == |saved|
    ensures k < |conts| ==>
      && Shows(h, rank, conts[k], saved[k]) && o.roots[conts[k]] >= 1
      && (h.slots[conts[k]].refcnt == 1 ==> mine[conts[k]] == 1)
  {
    if k < |conts| {
      RootsHeld(h, rank, segLen, AddHead(o, a), conts[k]);
    }
  }

  /** Makes a continuation and takes a second reference to it. */
  method GoSave(m: Memory, ins: nat, conts: seq<nat>, ghost saved: seq<Snapshot>, ghost mine: multiset<nat>,
      ghost o: Owners) returns (r: Option<nat>)
    requires m.Ok(AddHead(o, m.active)) && Held(m.H(), m.rank, mine, conts, saved) && mine <= o.roots
    modifies m, m.elems
    ensures r.None? ==> m.holeCount == 0 && m.used == m.elems.Length
    ensures r.Some? ==>
      var i, snap := r.value, Snapshot(old(m.Stack(m.active)), ins);
      && m.Stack(m.active) == snap.stack && m.Ok(AddHead(AddRoots(o, multiset{i, i}), m.active))
      && Held(m.H(), m.rank, mine + multiset{i, i}, conts + [i], saved + [snap])
    ensures r.Some? && old(Exact(m.H(), AddHead(o, m.active))) ==>
      Exact(m.H(), AddHead(AddRoots(o, multiset{r.value, r.value}), m.active))
  {
    hide Inv, Exact, SameViews, Flat, Total, Heads, Held, Grown;
    ghost var h, r0, snap := m.H(), m.rank, Snapshot(m.Stack(m.active), ins);
    r := m.Capture(ins, o);
    if r.Some? {
      ghost var i, h1, o1 := r.value, m.H(), AddHead(AddRoots(o, multiset{r.value}), m.active);
      m.AddRef(r.value, o1);
      assert o.roots + multiset{i} + multiset{i} == o.roots + multiset{i, i};
      assert AddRoots(o1, multiset{i}) == AddHead(AddRoots(o, multiset{i, i}), m.active);
      HeldSave(h, r0, h1, m.H(), m.rank, o, mine, conts, saved, i, snap);
    }
  }

  /** Puts a copy of the k-th saved stack in force. */
  method GoBack(m: Memory, k: nat, conts: seq<nat>, ghost saved: seq<Snapshot>, ghost mine: multiset<nat>,
      ghost o: Owners) returns (ins: nat, ghost lost: multiset<nat>)
    requires m.Ok(AddHead(o, m.active)) && Held(m.H(), m.rank, mine, conts, saved) && mine <= o.roots
    requires k < |conts| && conts[k] < m.used && m.elems[conts[k]].refcnt > 1
    modifies m, m.elems, m.holes
    ensures m.Ok(AddHead(AddRoots(o, lost), m.active))
    ensures old(Exact(m.H(), AddHead(o, m.active))) ==> Exact(m.H(), AddHead(AddRoots(o, lost), m.active))
    ensures m.Ok(AddHead(o, m.active)) && Held(m.H(), m.rank, mine, conts, saved)
    ensures k < |saved| && m.Stack(m.active) == saved[k].stack && ins == saved[k].ins
  {
    hide Inv, Exact, SameViews, Flat, Total, Heads, Held, SlotsKept;
    ghost var h, r := m.H(), m.rank;
    var i := conts[k];
    ghost var o1 := o.(roots := o.roots - multiset{i});
    HeldAt(h, r, m.segLen, o, m.active, mine, conts, saved, k);
    assert o1.roots + multiset{i} == o.roots;
    assert AddRoots(o1, multiset{i}) == o;
    ins, lost := m.Reinstate(i, o1);
    SameHeads(m.H(), o1, o);
    HeldBack(h, r, m.H(), m.rank, m.segLen, o, m.active, mine, conts, saved);
  }

  /** Pushes the k-th continuation, with a reference of its own. */
  method GoRecall(m: Memory, k: nat, conts: seq<nat>, ghost saved: seq<Snapshot>, ghost mine: multiset<nat>,
      ghost o: Owners)
    requires m.Ok(AddHead(o, m.active)) && Held(m.H(), m.rank, mine, conts, saved) && mine <= o.roots
    requires k < |conts|
    modifies m, m.elems
    ensures m.Ok(AddHead(o, m.active)) && Held(m.H(), m.rank, mine, conts, saved)
    ensures old(Exact(m.H(), AddHead(o, m.active))) ==> Exact(m.H(), AddHead(o, m.active))
    ensures m.Stack(m.active) == old(m.Stack(m.active)) + [Var(C1, conts[k])]
  {
    hide Inv, Exact, SameViews, Flat, Total, Heads, Held, VarsRefs;
    ghost var h, r := m.H(), m.rank;
    var i := conts[k];
    HeldAt(h, r, m.segLen, o, m.active, mine, conts, saved, k);
    m.AddRef(i, AddHead(o, m.active));
    LoneRef(Var(C1, i));
    assert AddRoots(AddHead(o, m.active), multiset{i}) == AddHead(AddRoots(o, VarsRefs([Var(C1, i)])), m.active);
    ghost var h1 := m.H();
    StillOwned(h, h1, o, o);
    m.Push([Var(C1, i)], o);
    HeldAct(h, r, m.H(), m.rank, o, mine, multiset{}, conts, saved);
    assert mine + multiset{} == mine;
  }

  lemma SameHeads(h: Store, o: Owners, o': Owners)
    requires o.heads == o'.heads
    ensures Heads(h, o) == Heads(h, o')
  {
  }

  /** One move; it is not made where it would be a jump to a continuation with one reference.
      `gained` are the references handed over with what came off the stack, or those to the
      new continuation. */
  method Go(m: Memory, move: Move, conts: seq<nat>, ghost saved: seq<Snapshot>, ghost mine: multiset<nat>,
      ghost o: Owners)
      returns (outcome: Outcome, conts': seq<nat>, ghost saved': seq<Snapshot>, ghost gained: multiset<nat>,
               ghost lost: multiset<nat>)
    requires m.Ok(AddHead(AddRoots(o, MoveRefs(move)), m.active)) && Small(move)
    requires Held(m.H(), m.rank, mine, conts, saved) && mine <= o.roots
    modifies m, m.elems, m.holes
    ensures outcome.TooShort? <==> OnMove(move, old(m.Stack(m.active)), saved, conts).None?
    ensures outcome.PoolFull? ==> m.holeCount == 0 && m.used == m.elems.Length
    ensures outcome.LastReference? ==> exists k :: 0 <= k < |conts| && mine[conts[k]] == 1
    ensures !outcome.Done? ==> conts' == conts
    ensures outcome.Done? ==>
      && (conts' == conts || exists i: nat :: conts' == conts + [i] && gained == multiset{i, i})
      && OnMove(move, old(m.Stack(m.active)), saved, conts) == Some((m.Stack(m.active), saved'))
      && m.Ok(AddHead(AddRoots(o, gained + lost), m.active)) && (!move.Jump? ==> lost == multiset{})
      && (old(Exact(m.H(), AddHead(AddRoots(o, MoveRefs(move)), m.active))) ==>
            Exact(m.H(), AddHead(AddRoots(o, gained + lost), m.active)))
      && Held(m.H(), m.rank, mine + gained, conts', saved')
  {
    hide Inv, Exact, SameViews, Flat, Total, Heads, Held, OnOne, OpRefs, Retained;
    outcome, conts', saved', gained, lost := Done, conts, saved, multiset{}, multiset{};
    NoRoots(o);
    assert mine + multiset{} == mine;
    ghost var h, r := m.H(), m.rank;
    match move {
      case Plain(op) =>
        var done;
        done, gained := m.Act(op, o);
        if done {
          HeldAct(h, r, m.H(), m.rank, o, mine, gained, conts, saved);
          assert gained + lost == gained;
        } else {
          outcome := TooShort;
        }
      case Save(ins) =>
        saved' := saved + [Snapshot(m.Stack(m.active), ins)];
        var c := GoSave(m, ins, conts, saved, mine, o);
        if c.Some? {
          conts', gained := conts + [c.value], multiset{c.value, c.value};
          assert gained + lost == gained;
        } else {
          outcome := PoolFull;
        }
      case Jump(k) =>
        HeldAt(h, r, m.segLen, o, m.active, mine, conts, saved, k);
        if k >= |conts| {
          outcome := TooShort;
        } else if m.elems[conts[k]].refcnt == 1 {
          outcome := LastReference;
        } else {
          var ins;
          ins, lost := GoBack(m, k, conts, saved, mine, o);
          assert gained + lost == lost;
        }
      case Recall(k) =>
        HeldAt(h, r, m.segLen, o, m.active, mine, conts, saved, k);
        if k >= |conts| {
          outcome := TooShort;
        } else {
          GoRecall(m, k, conts, saved, mine, o);
          assert gained + lost == multiset{};
        }
    }
  }

  /** What is held once after a move was held once before it. */
  lemma HeldOnce(mine: multiset<nat>, gained: multiset<nat>, conts: seq<nat>, now: seq<nat>)
    requires forall k :: 0 <= k < |conts| ==> mine[conts[k]] >= 1
    requires now == conts || exists i: nat :: now == conts + [i] && gained == multiset{i, i}
    ensures (exists k :: 0 <= k < |now| && (mine + gained)[now[k]] == 1)
        ==> (exists k :: 0 <= k < |conts| && mine[conts[k]] == 1)
  {
    if k :| 0 <= k < |now| && (mine + gained)[now[k]] == 1 {
      assert k < |conts| && mine[conts[k]] == 1;
    }
  }

  lemma MoreNames(move: Move, s: seq<Var>, saved: seq<Snapshot>, names: seq<nat>, more: seq<nat>)
    requires |names| == |saved| && names <= more
    ensures OnMove(move, s, saved, more) == OnMove(move, s, saved, names)
  {
  }

  lemma HeldRoots(h: Store, rank: seq<nat>, mine: multiset<nat>, conts: seq<nat>, saved: seq<Snapshot>)
    requires Held(h, rank, mine, conts, saved)
    ensures |conts| == |saved| && forall k :: 0 <= k < |conts| ==> mine[conts[k]] >= 1
  {
  }

  /** Any run of pushes, of continuations too, pops, exchanges, captures and jumps does to the stack
      in force what it does to a plain sequence with snapshots: each jump, the first as the last, puts
      in force what the stack was when the continuation was made, and no run changes what a
      continuation shows that somebody holds. It stops short of a jump only to a continuation held
      once from the start. `lost` are the references that jumps have made be forgotten so far; exact
      counts are exact but for them. */
  method Roam(m: Memory, moves: seq<Move>, conts: seq<nat>, ghost saved: seq<Snapshot>, ghost o: Owners,
      ghost lost: multiset<nat>)
      returns (outcome: Outcome, conts': seq<nat>, ghost saved': seq<Snapshot>, ghost o': Owners,
               ghost lost': multiset<nat>)
    requires m.Ok(AddHead(AddRoots(AddRoots(o, lost), MovesRefs(moves)), m.active))
    requires forall k :: 0 <= k < |moves| ==> Small(moves[k])
    requires Held(m.H(), m.rank, o.roots, conts, saved)
    modifies m, m.elems, m.holes
    ensures conts <= conts'
    ensures outcome.TooShort? ==> OnMoves(moves, old(m.Stack(m.active)), saved, conts').None?
    ensures outcome.PoolFull? ==> m.holeCount == 0 && m.used == m.elems.Length
    ensures outcome.LastReference? ==> exists k :: 0 <= k < |conts| && o.roots[conts[k]] == 1
    ensures outcome.Done? ==>
      && OnMoves(moves, old(m.Stack(m.active)), saved, conts') == Some((m.Stack(m.active), saved'))
      && m.Ok(AddHead(AddRoots(o', lost'), m.active)) && o.roots <= o'.roots && o'.heads == o.heads
      && Held(m.H(), m.rank, o'.roots, conts', saved')
      && lost <= lost' && ((forall k :: 0 <= k < |moves| ==> !moves[k].Jump?) ==> lost' == lost)
      && (old(Exact(m.H(), AddHead(AddRoots(AddRoots(o, lost), MovesRefs(moves)), m.active))) ==>
            Exact(m.H(), AddHead(AddRoots(o', lost'), m.active)))
    decreases |moves|
  {
    hide Inv, Exact, Flat, Total, Heads, Held, MoveRefs, OnMove;
    lost' := lost;
    if moves == [] {
      NoRoots(AddRoots(o, lost));
      return Done, conts, saved, o, lost;
    }
    ghost var rest := MovesRefs(moves[1..]);
    ghost var o1 := AddRoots(AddRoots(o, lost), rest);
    FirstRefs(o, lost, moves);
    ghost var more, gained, forgotten;
    ghost var start := m.Stack(m.active);
    HeldRoots(m.H(), m.rank, o.roots, conts, saved);
    outcome, conts', more, gained, forgotten := Go(m, moves[0], conts, saved, o.roots, o1);
    saved', o' := more, o;
    assert conts <= conts';
    if outcome.Done? {
      RunRoots(o, lost, rest, gained, forgotten);
      ghost var now := conts';
      outcome, conts', saved', o', lost' := Roam(m, moves[1..], conts', more, AddRoots(o, gained), lost + forgotten);
      HeldOnce(o.roots, gained, conts, now);
    }
    MoreNames(moves[0], start, saved, conts, conts');
  }

  lemma FirstRefs(o: Owners, lost: multiset<nat>, moves: seq<Move>)
    requires moves != []
    ensures AddRoots(AddRoots(o, lost), MovesRefs(moves))
         == AddRoots(AddRoots(AddRoots(o, lost), MovesRefs(moves[1..])), MoveRefs(moves[0]))
    ensures o.roots <= AddRoots(AddRoots(o, lost), MovesRefs(moves[1..])).roots
  {
    var rest := MovesRefs(moves[1..]);
    assert o.roots + lost + (MoveRefs(moves[0]) + rest) == o.roots + lost + rest + MoveRefs(moves[0]);
  }

  lemma RunRoots(o: Owners, lost: multiset<nat>, rest: multiset<nat>, gained: multiset<nat>, forgotten: multiset<nat>)
    ensures AddRoots(AddRoots(AddRoots(o, lost), rest), gained + forgotten)
         == AddRoots(AddRoots(AddRoots(o, gained), lost + forgotten), rest)
  {
    assert o.roots + lost + rest + (gained + forgotten) == o.roots + gained + (lost + forgotten) + rest;
  }

  /** Whatever is pushed on the active stack where there is room shows in it. */
  lemma PushShows(segs: seq<Option<Seg>>, rank: seq<nat>, a: nat, vs: seq<Var>)
    requires Linked(segs, rank) && Live(segs, a)
    ensures Flat(Replaced(segs, a, segs[a].value.elems + vs), rank, a) == Flat(segs, rank, a) + vs
  {
    var es := segs[a].value.elems;
    ShorterLinked(segs, rank, a, es + vs);
    OwnWrite(segs, rank, a, es + vs);
    var s := View(segs, rank, a);
    assert s[..|s| - |es|] + (es + vs) == s[..|s| - |es|] + es + vs;
  }

  /** A continuation with one reference, made of an empty stack, is reinstated, and a value is
      pushed: now the continuation shows it too. */
  method OneReferenceCounterexample() returns (m: Memory, i: nat, ghost before: seq<Var>)
    ensures i < m.used <= m.elems.Length && m.elems[i].refcnt > 0 && m.elems[i].content.Cont?
    ensures before == [] && m.Stack(m.elems[i].content.stack) == before + [Var(0, 0)]
  {
    hide Inv, Exact, SameViews, Flat, Total, Heads;
    m := new Memory(1, 64);
    var r := m.Capture(0, NOBODY);
    i := r.value;
    before := m.Stack(m.elems[i].content.stack);
    var ins, lost := m.Reinstate(i, NOBODY);
    ghost var h, rank, o := m.H(), m.rank, AddRoots(NOBODY, multiset{i});
    ShapeOf(h, rank, m.segLen, o);
    ContLive(h, rank, m.segLen, o, i);
    PushShows(h.segs, rank, m.active, [Var(0, 0)]);
    m.Append([Var(0, 0)]);
  }

  /** Slot 0 holds a closure with two references from outside, the stack is empty. */
  method TwiceHeld() returns (m: Memory)
    ensures fresh(m) && fresh(m.elems) && fresh(m.holes) && m.elems.Length == 3 && m.holeCount == 0 && m.used == 1
    ensures m.segLen == 64 && m.active == 0 && m.segs == [Some(Seg(None, [], 0))] && m.rank == [0]
    ensures
      var o := AddHead(AddRoots(AddRoots(NOBODY, multiset{0}), VarsRefs([Var(32, 0)])), 0);
      m.Ok(o) && Exact(m.H(), o)
  {
    hide Inv, Exact, Total, VarsRefs;
    m := new Memory(3, 64);
    TwiceOwned();
    var r := m.Alloc1(Var(0, 0), AddHead(NOBODY, 0));
    m.AddRef(0, AddRoots(AddHead(NOBODY, 0), multiset{0}));
  }

  lemma TwiceOwned()
    ensures AddRoots(AddHead(NOBODY, 0), VarRefs(Var(0, 0))) == AddHead(NOBODY, 0)
    ensures AddRoots(AddRoots(AddHead(NOBODY, 0), multiset{0}), multiset{0})
        == AddHead(AddRoots(AddRoots(NOBODY, multiset{0}), VarsRefs([Var(32, 0)])), 0)
  {
    LoneRef(Var(32, 0));
  }

  /** One of them is pushed, and a copy of the stack saved. */
  method SharedSlot() returns (m: Memory)
    ensures fresh(m) && fresh(m.elems) && fresh(m.holes) && m.elems.Length == 3 && m.holeCount == 0 && m.used == 1
    ensures m.active == 0 && Live(m.segs, 1) && m.segs[1].value.elems == [Var(32, 0)]
    ensures
      var o := AddHead(AddHead(AddRoots(NOBODY, multiset{0}), 0), 1);
      m.Ok(o) && Exact(m.H(), o)
  {
    hide Inv, Exact, SameViews, Flat, Total, Heads, VarsRefs, Retained;
    m := TwiceHeld();
    m.Push([Var(32, 0)], AddRoots(NOBODY, multiset{0}));
    var saved := m.Save(AddRoots(NOBODY, multiset{0}));
  }

  /** Slot 1 is made a continuation that owns the saved stack, slot 2 a closure over both. */
  method MadeForgetful() returns (m: Memory)
    ensures fresh(m) && fresh(m.elems) && fresh(m.holes) && m.active == 0
    ensures
      var o := AddRoots(AddHead(NOBODY, 0), multiset{2});
      m.Ok(o) && Exact(m.H(), o)
    ensures InUse(m.H(), 2) && m.H().slots[2] == Slot(Closure(Var(C1, 1), Var(32, 0)), 1)
    ensures Doomed(Lowered(m.H(), 2), 1, true)
  {
    hide Inv, Exact, SameViews, Flat, Total, Heads, VarsRefs, Retained;
    m := SharedSlot();
    ghost var o := AddHead(AddRoots(NOBODY, multiset{0}), 0);
    var r := m.Alloc2Ptr(1, 0, o);
    BothOwned(1);
    r := m.Alloc2(Var(35, 1), Var(32, 0), AddHead(NOBODY, 0));
    LoneRef(Var(32, 0));
    assert 0 in VarRefs(Var(32, 0));
    TopRefs(m.segs, 1);
  }

  lemma TopRefs(segs: seq<Option<Seg>>, id: nat)
    requires Live(segs, id)
    ensures VarsRefs(segs[id].value.elems) <= DiscardRefs(segs, id)
  {
  }

  /** With nothing else on the list, the second reference of slot 2 is forgotten. */
  lemma SecondLost(h: Store)
    requires InUse(h, 2) && h.slots[2] == Slot(Closure(Var(C1, 1), Var(32, 0)), 1)
    requires Doomed(Lowered(h, 2), 1, true)
    ensures 0 in Drained(h, [2]).lost
  {
    hide Doomed, Drained, Lowered;
    DrainedOne(h, 2);
    assert Turned(h, [], 2) == Turn(Lowered(h, 2), [] + [0] + [1], multiset{});
    DoomedLoses(Lowered(h, 2), [0], 1);
    assert [] + [0] + [1] == [0] + [1] && 0 in multiset([0]);
  }

  lemma BothOwned(k: nat)
    ensures AddRoots(AddHead(AddRoots(NOBODY, multiset{0}), 0), multiset{k})
        == AddRoots(AddHead(NOBODY, 0), VarRefs(Var(35, k)) + VarRefs(Var(32, 0)))
  {
  }

  /** The closure is released, and with it the continuation, whose stack refers to slot 0 too:
      releasing the stack makes the closure's own reference to that slot be forgotten, and its count
      is too high from then on. */
  method ForgetfulCounterexample() returns (m: Memory)
    ensures m.Ok(AddHead(NOBODY, m.active))
    ensures Count(m.H().slots, 0) > Refs(m.H(), AddHead(NOBODY, m.active))[0]
  {
    hide Inv, Exact, Total, Refs, Doomed, Lowered, Drained, Orderly;
    m := MadeForgetful();
    ghost var o := AddHead(NOBODY, 0);
    SecondLost(m.H());
    ghost var lost := m.Release(2, o);
    LostCount(m.H(), m.rank, m.segLen, o, lost, 0);
  }

  lemma LoneRef(x: Var)
    ensures VarsRefs([x]) == VarRefs(x)
  {
    assert [x][..0] == [] && Total([x], VarRefs) == Total([x][..0], VarRefs) + VarRefs([x][0]);
  }

  lemma LostCount(h: Store, rank: seq<nat>, segLen: nat, o: Owners, lost: multiset<nat>, i: nat)
    requires Inv(h, rank, segLen, AddRoots(o, lost)) && i in lost
    ensures Count(h.slots, i) > Refs(h, o)[i]
  {
    hide Total;
    assert Refs(h, AddRoots(o, lost))[i] == Refs(h, o)[i] + lost[i];
  }

  /** Sixteen pushes of four plain values fill the first segment. */
  method FullSegment() returns (m: Memory)
    ensures fresh(m) && fresh(m.elems) && m.segLen == 64 && m.Ok(AddHead(NOBODY, 0)) && m.active == 0 && m.rank == [0]
    ensures m.used == 0 && m.holeCount == 0
    ensures m.segs == [Some(Seg(None, seq(64, _ => Var(0, 0)), 0))]
  {
    hide Inv, Exact, SameViews, Flat, Total, Heads, VarsRefs;
    m := new Memory(0, 64);
    var four := [Var(0, 0), Var(0, 0), Var(0, 0), Var(0, 0)];
    PlainRefs(four);
    assert AddRoots(NOBODY, multiset{}) == NOBODY;
    var n := 0;
    assert seq(4 * n, _ => Var(0, 0)) == [];
    while n < 16
      invariant n <= 16 && m.Ok(AddHead(NOBODY, 0)) && fresh(m) && fresh(m.elems) && m.segLen == 64
      invariant m.used == 0 && m.holeCount == 0 && m.active == 0 && m.rank == [0]
      invariant |m.segs| == 1 && m.segs[0] == Some(Seg(None, seq(4 * n, _ => Var(0, 0)), 0))
    {
      m.Push(four, NOBODY);
      assert seq(4 * n, _ => Var(0, 0)) + four == seq(4 * (n + 1), _ => Var(0, 0));
      n := n + 1;
    }
  }

  /** One push more and a save: two stacks on that segment. */
  method TwoStacks() returns (m: Memory)
    ensures fresh(m) && fresh(m.elems) && m.Ok(AddHead(AddHead(NOBODY, 2), 1))
    ensures m.used == 0 && m.holeCount == 0 && m.active == 1 && m.rank == [0, 1, 1]
    ensures m.segs == SharedStore().segs[1 := Some(Seg(Some(0), [Var(0, 0)], 0))]
  {
    hide Inv, Exact, SameViews, Flat, Total, Heads, VarsRefs, Retained;
    m := FullSegment();
    PlainRefs([Var(0, 0)]);
    assert AddRoots(NOBODY, multiset{}) == NOBODY;
    m.Push([Var(0, 0)], NOBODY);
    var saved := m.Save(NOBODY);
    SwapHeads(NOBODY, 1, 2);
  }

  /** With a pop, these operations lead to the memory in which the literal pair changes a saved stack. */
  method SharedReached() returns (m: Memory)
    ensures m.Ok(Owners(multiset{}, multiset{1, 2}, multiset{}))
    ensures m.H() == SharedStore() && m.active == 1 && m.rank == [0, 1, 1]
  {
    hide Inv, Exact, SameViews, Flat, Total, Heads, VarsRefs, Retained;
    m := TwoStacks();
    SharedPopped();
    hide SharedStore;
    var top := m.Pop(AddHead(NOBODY, 2));
    assert m.H().slots == [] && m.H().holes == [];
  }

  lemma SharedPopped()
    ensures
      var segs := SharedStore().segs[1 := Some(Seg(Some(0), [Var(0, 0)], 0))];
      && Live(segs, 1) && segs[1].value.elems == [Var(0, 0)] && segs[1].value.prev == Some(0)
      && Replaced(segs, 1, [Var(0, 0)][..0]) == SharedStore().segs
    ensures SharedStore().slots == [] && SharedStore().holes == []
    ensures
      AddHead(AddRoots(AddHead(NOBODY, 2), VarRefs(Var(0, 0))), 1) == Owners(multiset{}, multiset{1, 2}, multiset{})
  {
  }
}
