/** The numbers behind the names (src/defs.h:30-41, src/vm_defs.h:28-72): which values are references to
    pool slots, which instructions carry an offset, and that tokens are function codes. */
module Codes {
  import opened Syntax
  import opened Ast
  import opened Heap
  import opened Steps
  import opened Memory
  import M = Machine
  import Loader

  /** The code of a token. */
  function TokenCode(tok: Token): byte {
    match tok
    case TApp => 32
    case TFn(K) => 1 case TFn(S) => 2 case TFn(I) => 3 case TFn(V) => 4
    case TFn(C) => 5 case TFn(D) => 6 case TFn(E) => 7
    case TFn(In) => 8 case TFn(Pipe) => 9
    case TFn(Out(_)) => 16 case TFn(Cmp(_)) => 17
  }

  /** The function code of a VM value. */
  function Code(v: M.Value): byte {
    match v
    case Empty => 0
    case Fn(K) => 1 case Fn(S) => 2 case Fn(I) => 3 case Fn(V) => 4
    case Fn(C) => 5 case Fn(D) => 6 case Fn(E) => 7
    case Fn(In) => 8 case Fn(Pipe) => 9
    case Fn(Out(_)) => 16 case Fn(Cmp(_)) => 17
    case K1(_) => 32 case S1(_) => 33 case S2(_, _) => 34 case C1(_, _) => 35
    case D1d(_) => 64
    case D1s(_, _) => 96 case D1c(_) => 97
    case J(_) => 128 case F(_) => 129 case P(_) => 130
  }

  function Opcode(ins: M.Ins): byte {
    match ins
    case Apply(_, _) => 16
    case La => 17
    case Sa(_) => 32
    case Del(_) => 33
    case Lc(_) => 96
    case Xch => 128
  }

  /** Tokens can be copied into operands as they are: a primitive's token code is its function code, and
      never zero, which stands for the accumulator. */
  lemma TokensAreCodes(p: Prim)
    ensures TokenCode(TFn(p)) == Code(M.Fn(p)) != 0
  {
  }

  /** A variable is counted exactly if it stands for a closure or a continuation in the pool: a partly
      applied `k` or `s`, a continuation, or a promise of values. */
  lemma CountedValues(v: M.Value, ref: nat)
    ensures Counted(Var(Code(v), ref)) <==> v.K1? || v.S1? || v.S2? || v.C1? || v.D1s? || v.D1c?
  {
  }

  /** The bit that says so, for every byte. */
  lemma CountedBit(fn: byte, ref: nat)
    ensures Counted(Var(fn, ref)) <==> 32 <= fn % 64
    ensures VarRefs(Var(fn, ref)) == if 32 <= fn % 64 then multiset{ref} else multiset{}
  {
  }

  /** The bit that says that an instruction has an offset. */
  lemma OffsetBit(ins: M.Ins)
    ensures Loader.HasOffset(ins) <==> Opcode(ins) in {32, 33, 96}
    ensures Loader.HasOffset(ins) <==> 32 <= Opcode(ins) % 64
  {
  }

  /** The codes of references. */
  predicate Refers(fn: byte) {
    fn in {32, 33, 34, 35, 96, 97}
  }

  /** How many of the variables refer to slot `i`. */
  function Mentions(vs: seq<Var>, i: nat): nat {
    if vs == [] then 0
    else
      var v := vs[|vs| - 1];
      Mentions(vs[..|vs| - 1], i) + if Refers(v.fn) && v.ref == i then 1 else 0
  }

  /** The variable holds the code of some value. */
  predicate Meant(v: Var) {
    v.fn in {0, 1, 2, 3, 4, 5, 6, 7, 8, 9, 16, 17, 32, 33, 34, 35, 64, 96, 97, 128, 129, 130}
  }

  lemma {:induction false} RefsMentioned(vs: seq<Var>, i: nat)
    requires forall k :: 0 <= k < |vs| ==> Meant(vs[k])
    ensures VarsRefs(vs)[i] == Mentions(vs, i)
    decreases |vs|
  {
    if vs != [] {
      var v := vs[|vs| - 1];
      MeantRefers(v);
      hide VarRefs, Meant, Refers;
      RefsMentioned(vs[..|vs| - 1], i);
      assert VarsRefs(vs) == VarsRefs(vs[..|vs| - 1]) + VarRefs(v);
    }
  }

  lemma MeantRefers(v: Var)
    requires Meant(v)
    ensures VarRefs(v) == if Refers(v.fn) then multiset{v.ref} else multiset{}
    ensures Counted(v) <==> Refers(v.fn)
  {
  }

  lemma CodesMeant(v: M.Value, ref: nat)
    ensures Meant(Var(Code(v), ref))
  {
  }

  /** Copying a segment raises the count of each slot by the number of values in it that refer to the
      slot, promises among them (src/vm_stack.c:54-59). */
  method CopyCounts(m: Memory, id: nat, i: nat, ghost o: Owners) returns (copy: nat)
    requires m.Ok(o) && Live(m.segs, id) && i < m.used
    requires forall k :: 0 <= k < |m.segs[id].value.elems| ==> Meant(m.segs[id].value.elems[k])
    modifies m, m.elems
    ensures i < m.used && m.elems[i].refcnt == old(m.elems[i].refcnt) + Mentions(old(m.segs[id].value.elems), i)
    ensures m.Ok(AddHead(o, copy)) && m.Stack(copy) == old(m.Stack(id))
  {
    hide Inv, VarsRefs, Flat;
    RefsMentioned(m.segs[id].value.elems, i);
    copy := m.Dup(id, o);
  }

  /** The reference of a variable is dropped exactly if its code is one of the six: then the sum of
      counts falls, and otherwise nothing happens (src/runtime.c:117-122). */
  method DropValue(m: Memory, v: Var, ghost o: Owners) returns (ghost lost: multiset<nat>)
    requires m.Ok(AddRoots(o, if Refers(v.fn) then multiset{v.ref} else multiset{})) && Meant(v)
    modifies m, m.elems, m.holes
    ensures m.Ok(AddRoots(o, lost))
    ensures if Refers(v.fn) then SumCounts(m.H().slots) < old(SumCounts(m.H().slots)) else m.H() == old(m.H())
  {
    MeantRefers(v);
    hide Inv, SumCounts, VarRefs, Counted, Refers, Meant;
    lost := m.ReleaseVar(v, o);
  }
}
