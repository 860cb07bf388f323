/** Small facts about sequences shared by the node discovery and the numbering. */
module Seqs {

  /** No element occurs twice. */
  predicate Distinct<T(==)>(s: seq<T>) {
    forall i, j :: 0 <= i < j < |s| ==> s[i] != s[j]
  }

  /** The position of the first occurrence of `x` in `s`. */
  function IndexOf<T(==)>(s: seq<T>, x: T): (r: nat)
    requires x in s
    ensures r < |s| && s[r] == x && x !in s[..r]
    decreases |s|
  {
    if x in s[..|s| - 1] then IndexOf(s[..|s| - 1], x) else |s| - 1
  }

  /** In a sequence without repetitions, the first occurrence of `s[k]` is at `k`. */
  lemma IndexOfDistinct<T>(s: seq<T>, k: nat)
    requires Distinct(s) && k < |s|
    ensures IndexOf(s, s[k]) == k
  {
  }

  /** Appending at the end does not move the first occurrence of an element already present. */
  lemma IndexOfAppend<T>(s: seq<T>, y: T, x: T)
    requires x in s
    ensures IndexOf(s + [y], x) == IndexOf(s, x)
  {
    assert (s + [y])[..|s|] == s;
  }

  /** Two repetition-free sequences with no element in common concatenate to one. */
  lemma DistinctAppend<T>(a: seq<T>, b: seq<T>)
    requires Distinct(a) && Distinct(b)
    requires forall i, k :: 0 <= i < |a| && 0 <= k < |b| ==> a[i] != b[k]
    ensures Distinct(a + b)
  {
    var d := a + b;
    forall i, k | 0 <= i < k < |d|
      ensures d[i] != d[k]
    {
      if k < |a| {
        assert d[i] == a[i] && d[k] == a[k];
      } else if i < |a| {
        assert d[i] == a[i] && d[k] == b[k - |a|];
      } else {
        assert d[i] == b[i - |a|] && d[k] == b[k - |a|];
      }
    }
  }
}
