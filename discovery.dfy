/**
 * The node collection of the analysis (TStiffAnalysis.py, find_nodes): every
 * node met while walking the elements is appended to the node list unless
 * that very node (by identity) is already there. For class references `==`
 * and `in` compare identities, so the generic definition below is the same
 * rule when instantiated with nodes.
 */
module NodeDiscovery {
  import opened Seqs

  /** `acc` extended, in order, by every element of `s` not yet present. */
  function AppendNew<T(==)>(acc: seq<T>, s: seq<T>): (r: seq<T>)
    ensures |acc| <= |r| <= |acc| + |s|
    decreases |s|
  {
    if |s| == 0 then acc
    else
      var r := AppendNew(acc, s[..|s| - 1]);
      if s[|s| - 1] in r then r else r + [s[|s| - 1]]
  }

  /** The first-appearance list of the distinct elements of `s`. */
  function Dedup<T(==)>(s: seq<T>): (r: seq<T>)
    ensures |r| <= |s|
  {
    AppendNew([], s)
  }

  /** Appending one element is one more step of the collection. */
  lemma AppendNewStep<T>(acc: seq<T>, s: seq<T>, x: T)
    ensures AppendNew(acc, s + [x]) ==
            (if x in AppendNew(acc, s) then AppendNew(acc, s) else AppendNew(acc, s) + [x])
  {
    assert (s + [x])[..|s|] == s;
  }

  /** Collecting from `s` and then from `t` is collecting from `s + t`. */
  lemma {:induction false} AppendNewConcat<T>(acc: seq<T>, s: seq<T>, t: seq<T>)
    ensures AppendNew(acc, s + t) == AppendNew(AppendNew(acc, s), t)
    decreases |t|
  {
    if |t| == 0 {
      assert s + t == s;
    } else {
      var n := |t| - 1;
      AppendNewConcat(acc, s, t[..n]);
      assert s + t == (s + t[..n]) + [t[n]];
      assert t == t[..n] + [t[n]];
      AppendNewStep(acc, s + t[..n], t[n]);
      AppendNewStep(AppendNew(acc, s), t[..n], t[n]);
    }
  }

  /** Nothing is lost and nothing is invented: the result holds exactly `acc` and `s`. */
  lemma {:induction false} AppendNewMembers<T>(acc: seq<T>, s: seq<T>, x: T)
    ensures x in AppendNew(acc, s) <==> x in acc || x in s
    decreases |s|
  {
    if |s| > 0 {
      var n := |s| - 1;
      AppendNewMembers(acc, s[..n], x);
      assert s == s[..n] + [s[n]];
    }
  }

  /** The collection only appends: the starting list is a prefix of the result. */
  lemma {:induction false} AppendNewPrefix<T>(acc: seq<T>, s: seq<T>)
    ensures |acc| <= |AppendNew(acc, s)| && AppendNew(acc, s)[..|acc|] == acc
    decreases |s|
  {
    if |s| > 0 {
      AppendNewPrefix(acc, s[..|s| - 1]);
    }
  }

  /** Starting from a list without repetitions, the result has none either. */
  lemma {:induction false} AppendNewDistinct<T>(acc: seq<T>, s: seq<T>)
    requires Distinct(acc)
    ensures Distinct(AppendNew(acc, s))
    decreases |s|
  {
    if |s| > 0 {
      AppendNewDistinct(acc, s[..|s| - 1]);
    }
  }

  /** Every element of `s` is in the deduplicated list, it holds nothing else, and no element twice. */
  lemma DedupMembers<T>(s: seq<T>)
    ensures forall x :: x in Dedup(s) <==> x in s
    ensures Distinct(Dedup(s))
  {
    forall x
      ensures x in Dedup(s) <==> x in s
    {
      AppendNewMembers([], s, x);
    }
    AppendNewDistinct([], s);
  }

  /**
   * The deduplicated list is in order of first appearance: an element listed
   * before another first occurs in `s` before it.
   */
  lemma {:induction false} DedupOrder<T>(s: seq<T>, i: nat, j: nat)
    requires i < j < |Dedup(s)|
    ensures Dedup(s)[i] in s && Dedup(s)[j] in s
    ensures IndexOf(s, Dedup(s)[i]) < IndexOf(s, Dedup(s)[j])
    decreases |s|
  {
    var d := Dedup(s);
    DedupMembers(s);
    assert d[i] in d && d[j] in d;
    var n := |s| - 1;
    var p := s[..n];
    var dp := Dedup(p);
    assert s == p + [s[n]];
    DedupMembers(p);
    if s[n] in dp {
      assert d == dp;
      DedupOrder(p, i, j);
      IndexOfAppend(p, s[n], d[i]);
      IndexOfAppend(p, s[n], d[j]);
    } else {
      assert d == dp + [s[n]];
      assert d[i] == dp[i] && dp[i] in dp;
      AppendNewMembers([], p, dp[i]);
      IndexOfAppend(p, s[n], d[i]);
      if j < |dp| {
        AppendNewMembers([], p, dp[j]);
        assert d[j] == dp[j] && dp[j] in dp;
        DedupOrder(p, i, j);
        IndexOfAppend(p, s[n], d[j]);
      } else {
        assert d[j] == s[n] && s[n] !in p;
        assert IndexOf(s, d[j]) == n;
      }
    }
  }
}
