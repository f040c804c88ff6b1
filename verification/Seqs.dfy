/** Facts about sequences stored inside longer ones. */
module Seqs {

  /** `t` stands in `s` from index `p` on. */
  predicate Has<T(==)>(s: seq<T>, p: nat, t: seq<T>) {
    p + |t| <= |s| && s[p..p + |t|] == t
  }

  lemma HasSplit<T>(s: seq<T>, p: nat, a: seq<T>, b: seq<T>)
    requires Has(s, p, a + b)
    ensures Has(s, p, a) && Has(s, p + |a|, b)
  {
    assert s[p..p + |a|] == s[p..p + |a + b|][..|a|];
    assert s[p + |a|..p + |a| + |b|] == s[p..p + |a + b|][|a|..];
  }

  lemma HasFour<T>(s: seq<T>, p: nat, a: seq<T>, b: seq<T>, c: seq<T>, d: seq<T>)
    requires Has(s, p, a + b + c + d)
    ensures Has(s, p, a) && Has(s, p + |a|, b) && Has(s, p + |a| + |b|, c) && Has(s, p + |a| + |b| + |c|, d)
  {
    hide Has;
    HasSplit(s, p, a + b + c, d);
    HasSplit(s, p, a + b, c);
    HasSplit(s, p, a, b);
  }

  lemma LoneHas<T>(s: seq<T>, p: nat, x: T)
    requires Has(s, p, [x])
    ensures p < |s| && s[p] == x
  {
    assert s[p] == s[p..p + 1][0];
  }

  /** Replacing one element and adding another, seen from the parts. */
  lemma PatchParts<T>(g: seq<T>, l: seq<T>, x: T, y: T, r: seq<T>, z: T)
    ensures (g + l + [x] + r)[|g| + |l| := y] + [z] == g + (l + [y] + r + [z])
  {
  }

  lemma PushPop<T>(s: seq<T>, x: T)
    ensures (s + [x])[..|s + [x]| - 1] == s && (s + [x])[|s + [x]| - 1] == x
  {
  }
}
