/** Facts about sequences that are permutations of one another. */
module Sequences {
  import opened Results

  /** `v` holds, index by index, the successful results of `f` on `l`. */
  ghost predicate Aligned<A, B, E>(f: A -> Result<B, E>, l: seq<A>, v: seq<B>) {
    |v| == |l| && forall i :: 0 <= i < |l| ==> f(l[i]) == Ok(v[i])
  }

  /** Removing index `k` from a sequence removes one occurrence of `s[k]` from its multiset. */
  lemma MultisetRemoveAt<T>(s: seq<T>, k: int)
    requires 0 <= k < |s|
    ensures multiset(s) == multiset(s[..k] + s[k + 1..]) + multiset{s[k]}
  {
    assert s == s[..k] + [s[k]] + s[k + 1..];
  }

  /** One shared occurrence can be cancelled from both sides of a multiset equation. */
  lemma MultisetCancel<T>(m1: multiset<T>, m2: multiset<T>, x: T)
    requires m1 + multiset{x} == m2 + multiset{x}
    ensures m1 == m2
  {
    forall y
      ensures m1[y] == m2[y]
    {
      assert (m1 + multiset{x})[y] == (m2 + multiset{x})[y];
    }
  }

  /** Removing the same index from both sides keeps a pair aligned. */
  lemma AlignedRemoveAt<A, B, E>(f: A -> Result<B, E>, l: seq<A>, v: seq<B>, k: int)
    requires Aligned(f, l, v) && 0 <= k < |l|
    ensures Aligned(f, l[..k] + l[k + 1..], v[..k] + v[k + 1..])
  {
    var l' := l[..k] + l[k + 1..];
    var v' := v[..k] + v[k + 1..];
    forall i | 0 <= i < |l'|
      ensures f(l'[i]) == Ok(v'[i])
    {
      if i < k {
        assert l'[i] == l[i] && v'[i] == v[i];
      } else {
        assert l'[i] == l[i + 1] && v'[i] == v[i + 1];
      }
    }
  }

  /** Removing one occurrence of the same element from two permutations leaves permutations. */
  lemma PermutationRemoveAt<T>(l1: seq<T>, l2: seq<T>, k: int)
    requires multiset(l1) == multiset(l2) && |l1| > 0
    requires 0 <= k < |l2| && l2[k] == l1[0]
    ensures multiset(l1[1..]) == multiset(l2[..k] + l2[k + 1..])
  {
    MultisetRemoveAt(l1, 0);
    MultisetRemoveAt(l2, k);
    assert l1[..0] + l1[1..] == l1[1..];
    MultisetCancel(multiset(l1[1..]), multiset(l2[..k] + l2[k + 1..]), l1[0]);
  }

  /** Putting the same element back into two permutations gives permutations. */
  lemma PermutationInsertAt<T>(v1: seq<T>, v2: seq<T>, k: int)
    requires |v1| > 0 && 0 <= k < |v2| && v2[k] == v1[0]
    requires multiset(v1[1..]) == multiset(v2[..k] + v2[k + 1..])
    ensures multiset(v1) == multiset(v2)
  {
    MultisetRemoveAt(v1, 0);
    MultisetRemoveAt(v2, k);
    assert v1[..0] + v1[1..] == v1[1..];
  }

  /**
   When `v1` and `v2` are the successful images of `l1` and `l2` under the same
   partial function, and `l1`, `l2` hold the same elements, then so do `v1`, `v2`.
   */
  lemma {:induction false} AlignedPermutation<A, B, E>(
    f: A -> Result<B, E>, l1: seq<A>, v1: seq<B>, l2: seq<A>, v2: seq<B>)
    requires multiset(l1) == multiset(l2)
    requires Aligned(f, l1, v1) && Aligned(f, l2, v2)
    ensures multiset(v1) == multiset(v2)
    decreases |l1|
  {
    if |l1| == 0 {
      assert |multiset(l2)| == 0;
    } else {
      assert l1[0] in multiset(l2);
      var k :| 0 <= k < |l2| && l2[k] == l1[0];
      PermutationRemoveAt(l1, l2, k);
      AlignedRemoveAt(f, l1, v1, 0);
      AlignedRemoveAt(f, l2, v2, k);
      assert l1[..0] + l1[1..] == l1[1..] && v1[..0] + v1[1..] == v1[1..];
      AlignedPermutation(f, l1[1..], v1[1..], l2[..k] + l2[k + 1..], v2[..k] + v2[k + 1..]);
      assert f(l1[0]) == Ok(v1[0]) && f(l2[k]) == Ok(v2[k]);
      PermutationInsertAt(v1, v2, k);
    }
  }
}
