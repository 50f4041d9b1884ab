/** Counting finite sets. */
module Counting {
  import opened Automata

  ghost function Indices(n: nat): (r: set<int>)
    ensures forall i :: i in r <==> 0 <= i < n
  {
    if n == 0 then {} else Indices(n - 1) + {n - 1}
  }

  lemma {:induction false} IndicesSize(n: nat)
    ensures |Indices(n)| == n
  {
    if n != 0 {
      IndicesSize(n - 1);
    }
  }

  lemma SubsetSize<T>(a: set<T>, b: set<T>)
    requires a <= b
    ensures |a| <= |b|
  {
    assert b == a + (b - a);
  }

  /** Two different sets differ in some element. */
  lemma SomeDifference(s: set<int>, t: set<int>) returns (q: int)
    ensures s == t || ((q in s) != (q in t))
  {
    if x :| x in s && x !in t {
      q := x;
    } else if x :| x in t && x !in s {
      q := x;
    } else {
      q := 0;
      forall x ensures x in s <==> x in t {
      }
    }
  }

  lemma SameMembers(s: seq<int>, t: seq<int>)
    requires Distinct(s) && Distinct(t) && forall k :: k in s <==> k in t
    ensures multiset(s) == multiset(t)
  {
    forall x ensures multiset(s)[x] == multiset(t)[x] {
      DistinctCount(s, x);
      DistinctCount(t, x);
    }
  }

  lemma {:induction false} DistinctCount(s: seq<int>, x: int)
    requires Distinct(s)
    ensures multiset(s)[x] == if x in s then 1 else 0
    decreases |s|
  {
    if s != [] {
      DistinctCount(s[1..], x);
      assert s == [s[0]] + s[1..];
      assert multiset(s) == multiset{s[0]} + multiset(s[1..]);
    }
  }

  /** Distinct numbers below `m` are at most `m` many. */
  lemma {:induction false} Pigeonhole(s: seq<int>, m: nat)
    requires forall i :: 0 <= i < |s| ==> 0 <= s[i] < m
    requires forall i, j :: 0 <= i < j < |s| ==> s[i] != s[j]
    ensures |s| <= m
    decreases m
  {
    assert |s| > 0 ==> 0 <= s[0] < m;
    if m == 0 {
      return;
    }
    if i :| 0 <= i < |s| && s[i] == m - 1 {
      var s' := s[..i] + s[i + 1..];
      assert forall j :: 0 <= j < |s'| ==> s'[j] == if j < i then s[j] else s[j + 1];
      Pigeonhole(s', m - 1);
    } else {
      Pigeonhole(s, m - 1);
    }
  }
}
