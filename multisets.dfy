/** Removing one element from two sequences that are permutations of each other. */
module Multisets {
  /** The last element of `a` sits somewhere in any permutation `b` of `a`; without them the rest are permutations too. */
  lemma RemoveLast<T>(a: seq<T>, b: seq<T>) returns (j: nat)
    requires a != [] && multiset(a) == multiset(b)
    ensures j < |b| && b[j] == a[|a| - 1]
    ensures a == a[..|a| - 1] + [b[j]] && b == b[..j] + [b[j]] + b[j + 1..]
    ensures multiset(a[..|a| - 1]) == multiset(b[..j] + b[j + 1..])
  {
    var x := a[|a| - 1];
    var front := a[..|a| - 1];
    assert a == front + [x];
    assert x in multiset(b);
    j :| 0 <= j < |b| && b[j] == x;
    var rest := b[..j] + b[j + 1..];
    assert b == b[..j] + [x] + b[j + 1..];
    assert multiset(a) == multiset(front) + multiset{x};
    assert multiset(b) == multiset(b[..j]) + multiset{x} + multiset(b[j + 1..]);
    assert multiset(rest) == multiset(b[..j]) + multiset(b[j + 1..]);
    forall y ensures multiset(front)[y] == multiset(rest)[y] {
      assert multiset(a)[y] == multiset(front)[y] + multiset{x}[y];
      assert multiset(b)[y] == multiset(rest)[y] + multiset{x}[y];
    }
  }
}
