/**
 The input of subset construction: symbol pairs numbered in order of appearance, and for each
 state its visible arcs sorted by that number.
 */
module TransitionLists {
  import opened Automata
  import opened NetReading

  datatype Trans = Trans(inout: int, target: int)

  // ----- Numbering symbol pairs -----

  /** Entry of the pair table: the number of the pair, or -1. */
  ghost predicate CodeOk(code: int, single: seq<Label>, x: int, y: int) {
    if code == -1 then Label(x, y) !in single
    else 0 <= code < |single| && single[code] == Label(x, y)
  }

  ghost predicate CodesOk(double: array2<int>, single: seq<Label>)
    reads double
  {
    forall x, y :: 0 <= x < double.Length0 && 0 <= y < double.Length1 ==> CodeOk(double[x, y], single, x, y)
  }

  /** The pairs on the first `i` lines are numbered, and no others. */
  ghost predicate PairsOf(single: seq<Label>, lines: seq<Line>, i: int)
    requires 0 <= i <= |lines|
  {
    && Distinct(single)
    && (forall k :: 0 <= k < i && lines[k].target != -1 ==> lines[k].ToLabel() in single)
  }

  method NumberPairs(lines: seq<Line>, n: nat, maxsigma: nat)
    returns (single: seq<Label>, double: array2<int>, epsilon: int)
    requires WellFormed(lines, n) && SymbolsUpTo(lines, maxsigma - 1)
    ensures fresh(double) && double.Length0 == double.Length1 == maxsigma
    ensures CodesOk(double, single) && PairsOf(single, lines, |lines|)
    ensures if EPSILON_PAIR in single then 0 <= epsilon < |single| && single[epsilon] == EPSILON_PAIR else epsilon == -1
    ensures forall k :: 0 <= k < |single| ==> 0 <= single[k].upper < maxsigma && 0 <= single[k].lower < maxsigma
    ensures |single| <= |lines|
  {
    hide CodeOk, WellFormed;
    single, epsilon := [], -1;
    double := new int[maxsigma, maxsigma]((_, _) => -1);
    NoCodes();
    var i := 0;
    while i < |lines|
      invariant |single| <= i <= |lines|
      invariant CodesOk(double, single) && PairsOf(single, lines, i)
      invariant if EPSILON_PAIR in single then 0 <= epsilon < |single|
                && single[epsilon] == EPSILON_PAIR else epsilon == -1
      invariant forall k :: 0 <= k < |single| ==> 0 <= single[k].upper < maxsigma && 0 <= single[k].lower < maxsigma
    {
      var y, z := lines[i].upper, lines[i].lower;
      LineSymbols(lines, n, maxsigma, i);
      if y != -1 && z != -1 {
        CodeKnown(double[y, z], single, y, z);
        if double[y, z] == -1 {
          AddCode(double, single, y, z);
          if y == EPSILON && z == EPSILON {
            epsilon := |single|;
          }
          single := single + [Label(y, z)];
        }
      }
      i := i + 1;
    }
  }

  lemma NoCodes()
    ensures forall x, y :: CodeOk(-1, [], x, y)
  {
  }

  lemma LineSymbols(lines: seq<Line>, n: nat, maxsigma: nat, i: int)
    requires WellFormed(lines, n) && SymbolsUpTo(lines, maxsigma - 1) && 0 <= i < |lines|
    ensures if lines[i].target == -1 then lines[i].upper == -1 && lines[i].lower == -1
            else 0 <= lines[i].upper < maxsigma && 0 <= lines[i].lower < maxsigma && 0 <= lines[i].target < n
    ensures 0 <= lines[i].state < n
  {
    assert LineOk(lines[i], n) && lines[i] in lines;
  }

  lemma CodeKnown(code: int, single: seq<Label>, x: int, y: int)
    requires CodeOk(code, single, x, y)
    ensures code == -1 <==> Label(x, y) !in single
    ensures code != -1 ==> 0 <= code < |single| && single[code] == Label(x, y)
  {
  }

  method AddCode(double: array2<int>, single: seq<Label>, x: int, y: int)
    requires CodesOk(double, single) && 0 <= x < double.Length0 && 0 <= y < double.Length1 && Label(x, y) !in single
    modifies double
    ensures CodesOk(double, single + [Label(x, y)])
  {
    hide CodeOk;
    double[x, y] := |single|;
    forall u, v | 0 <= u < double.Length0 && 0 <= v < double.Length1
      ensures CodeOk(double[u, v], single + [Label(x, y)], u, v)
    {
      assert CodeOk(old(double[u, v]), single, u, v);
      CodeKept(old(double[u, v]), single, u, v, x, y);
    }
  }

  lemma CodeKept(code: int, single: seq<Label>, u: int, v: int, x: int, y: int)
    requires CodeOk(code, single, u, v)
    ensures CodeOk(if u == x && v == y then |single| else code, single + [Label(x, y)], u, v)
  {
  }

  // ----- Sorting -----

  predicate Sorted(s: seq<Trans>) {
    forall i, j :: 0 <= i < j < |s| ==> s[i].inout <= s[j].inout
  }

  function Place(s: seq<Trans>, t: Trans): (r: seq<Trans>)
    ensures multiset(r) == multiset(s) + multiset{t}
  {
    if s == [] || t.inout <= s[0].inout then [t] + s
    else
      assert s == [s[0]] + s[1..];
      [s[0]] + Place(s[1..], t)
  }

  lemma {:induction false} PlaceSorted(s: seq<Trans>, t: Trans)
    requires Sorted(s)
    ensures Sorted(Place(s, t))
    decreases |s|
  {
    if s != [] && t.inout > s[0].inout {
      PlaceSorted(s[1..], t);
      var rest := Place(s[1..], t);
      forall x | x in rest ensures s[0].inout <= x.inout {
        assert x in multiset(rest);
        assert x in s[1..] || x == t;
      }
      HeadSmallest(s[0], rest);
    }
  }

  lemma HeadSmallest(t: Trans, rest: seq<Trans>)
    requires Sorted(rest) && forall x :: x in rest ==> t.inout <= x.inout
    ensures Sorted([t] + rest)
  {
    assert forall i :: 0 <= i < |rest| ==> rest[i] in rest;
  }

  /** The library sort: some sorted rearrangement. */
  function Sort(s: seq<Trans>): (r: seq<Trans>)
    ensures Sorted(r) && multiset(r) == multiset(s)
  {
    if s == [] then []
    else
      assert s == [s[0]] + s[1..];
      PlaceSorted(Sort(s[1..]), s[0]);
      Place(Sort(s[1..]), s[0])
  }

  lemma SortKeeps(s: seq<Trans>)
    ensures |Sort(s)| == |s| && forall t :: t in Sort(s) <==> t in s
  {
    assert |Sort(s)| == |multiset(Sort(s))| == |multiset(s)| == |s|;
    forall t ensures t in Sort(s) <==> t in s {
      assert t in s <==> t in multiset(s);
      assert t in Sort(s) <==> t in multiset(Sort(s));
    }
  }

  // ----- The transition lists -----

  /** The visible arcs of `s` on the first `i` lines. */
  ghost predicate Lists(list: seq<Trans>, lines: seq<Line>, i: int, s: int, single: seq<Label>)
    requires 0 <= i <= |lines|
  {
    forall t :: t in list <==> exists k :: 0 <= k < i && VisibleAt(lines[k], s, single, t)
  }

  ghost predicate VisibleAt(l: Line, s: int, single: seq<Label>, t: Trans) {
    && l.state == s && l.target == t.target != -1 && l.ToLabel() != EPSILON_PAIR
    && 0 <= t.inout < |single| && single[t.inout] == l.ToLabel()
  }

  /** No two entries of the list have the same symbol number. */
  predicate Strict(s: seq<Trans>) {
    forall i, j :: 0 <= i < j < |s| ==> s[i].inout < s[j].inout
  }

  /** The list holds exactly the visible arcs of `s`, sorted. */
  ghost predicate ArcsListed(list: seq<Trans>, m: Machine<int>, s: int, single: seq<Label>) {
    && Sorted(list)
    && (forall t :: t in list ==> 0 <= t.inout < |single| && single[t.inout] != EPSILON_PAIR
                                  && Arc(s, single[t.inout], t.target) in m.arcs)
    && (forall x, q :: 0 <= x < |single| && single[x] != EPSILON_PAIR && Arc(s, single[x], q) in m.arcs ==>
                       Trans(x, q) in list)
  }

  ghost predicate AllListed(trans: seq<seq<Trans>>, m: Machine<int>, n: nat, single: seq<Label>) {
    |trans| == n && forall s :: 0 <= s < n ==> ArcsListed(trans[s], m, s, single)
  }

  lemma NothingListed(lines: seq<Line>, single: seq<Label>)
    ensures forall s :: Lists([], lines, 0, s, single)
  {
  }

  lemma NotListed(list: seq<Trans>, lines: seq<Line>, i: int, s: int, single: seq<Label>)
    requires 0 <= i < |lines| && Lists(list, lines, i, s, single)
    requires lines[i].state != s || lines[i].target == -1 || lines[i].ToLabel() == EPSILON_PAIR
    ensures Lists(list, lines, i + 1, s, single)
  {
    forall t | t in list ensures exists k :: 0 <= k < i + 1 && VisibleAt(lines[k], s, single, t) {
      var k :| 0 <= k < i && VisibleAt(lines[k], s, single, t);
      assert 0 <= k < i + 1;
    }
  }

  lemma OneListed(list: seq<Trans>, lines: seq<Line>, i: int, s: int, single: seq<Label>, t: Trans)
    requires 0 <= i < |lines| && Lists(list, lines, i, s, single) && VisibleAt(lines[i], s, single, t)
             && Distinct(single)
    ensures Lists(list + [t], lines, i + 1, s, single)
  {
    forall u ensures u in list + [t] <==> exists k :: 0 <= k < i + 1 && VisibleAt(lines[k], s, single, u) {
      if u in list {
        var k :| 0 <= k < i && VisibleAt(lines[k], s, single, u);
        assert 0 <= k < i + 1;
      }
      if k :| 0 <= k < i + 1 && VisibleAt(lines[k], s, single, u) {
        if k == i {
          assert u == t;
        }
      }
    }
  }

  lemma ListIsArcs(list: seq<Trans>, lines: seq<Line>, n: nat, s: int, single: seq<Label>)
    requires WellFormed(lines, n) && Lists(list, lines, |lines|, s, single)
    ensures ArcsListed(Sort(list), MachineOf(lines), s, single)
  {
    var m := MachineOf(lines);
    SortKeeps(list);
    forall t | t in Sort(list)
      ensures 0 <= t.inout < |single| && single[t.inout] != EPSILON_PAIR && Arc(s, single[t.inout], t.target) in m.arcs
    {
      var k :| 0 <= k < |lines| && VisibleAt(lines[k], s, single, t);
      assert LineOk(lines[k], n);
      LineIsArc(lines, k);
    }
    forall x, q | 0 <= x < |single| && single[x] != EPSILON_PAIR && Arc(s, single[x], q) in m.arcs
      ensures Trans(x, q) in Sort(list)
    {
      var k := ArcLine(lines, Arc(s, single[x], q));
      assert VisibleAt(lines[k], s, single, Trans(x, q));
    }
  }

  /** Adds the arc on one line to the list of its state. */
  method ListLine(lists: array<seq<Trans>>, l: Line, single: seq<Label>, double: array2<int>, epsilon: int,
                  ghost lines: seq<Line>, ghost n: nat, ghost i: int)
    requires WellFormed(lines, n) && 0 <= i < |lines| && l == lines[i] && lists.Length == n
    requires SymbolsUpTo(lines, double.Length0 - 1) && double.Length0 == double.Length1
    requires CodesOk(double, single) && PairsOf(single, lines, |lines|)
    requires if EPSILON_PAIR in single then 0 <= epsilon < |single|
             && single[epsilon] == EPSILON_PAIR else epsilon == -1
    requires forall s :: 0 <= s < n ==> Lists(lists[s], lines, i, s, single)
    modifies lists
    ensures forall s :: 0 <= s < n ==> Lists(lists[s], lines, i + 1, s, single)
  {
    hide Lists, WellFormed;
    LineSymbols(lines, n, double.Length0, i);
    var inout := -1;
    if l.target != -1 {
      assert CodeOk(double[l.upper, l.lower], single, l.upper, l.lower);
      inout := double[l.upper, l.lower];
      assert l.ToLabel() in single && single[inout] == l.ToLabel();
    }
    forall s | 0 <= s < n && (s != l.state || l.target == -1 || inout == epsilon)
      ensures Lists(lists[s], lines, i + 1, s, single)
    {
      NotListed(lists[s], lines, i, s, single);
    }
    if l.target != -1 && inout != epsilon {
      if EPSILON_PAIR in single {
        assert single[inout] != single[epsilon];
      }
      OneListed(lists[l.state], lines, i, l.state, single, Trans(inout, l.target));
      lists[l.state] := lists[l.state] + [Trans(inout, l.target)];
    }
  }

  /** Sorts one list and looks for two equal symbols next to each other. */
  method SortAndCheck(list: seq<Trans>) returns (sorted: seq<Trans>, unique: bool)
    ensures sorted == Sort(list)
    ensures unique ==> Strict(sorted)
  {
    hide Sort, Sorted;
    sorted, unique := Sort(list), true;
    SortKeeps(list);
    if |list| > 1 {
      var lastsym := -1;
      var j := 0;
      while j < |sorted|
        invariant 0 <= j <= |sorted|
        invariant lastsym == if j == 0 then -1 else sorted[j - 1].inout
        invariant unique ==> Strict(sorted[..j])
      {
        StrictMore(sorted, j);
        if sorted[j].inout == lastsym {
          unique := false;
        }
        lastsym := sorted[j].inout;
        j := j + 1;
      }
      assert sorted[..j] == sorted;
    }
  }

  lemma StrictMore(sorted: seq<Trans>, j: int)
    requires Sorted(sorted) && 0 <= j < |sorted|
    ensures Strict(sorted[..j]) && (j == 0 || sorted[j].inout != sorted[j - 1].inout) ==> Strict(sorted[..j + 1])
  {
  }

  /** The sorted transition lists, and whether no state has two arcs on the same visible pair. */
  method InitTransitions(lines: seq<Line>, n: nat, single: seq<Label>, double: array2<int>, epsilon: int)
    returns (trans: seq<seq<Trans>>, deterministic: bool)
    requires WellFormed(lines, n) && SymbolsUpTo(lines, double.Length0 - 1) && double.Length0 == double.Length1
    requires CodesOk(double, single) && PairsOf(single, lines, |lines|)
    requires if EPSILON_PAIR in single then 0 <= epsilon < |single|
             && single[epsilon] == EPSILON_PAIR else epsilon == -1
    ensures AllListed(trans, MachineOf(lines), n, single)
    ensures deterministic ==> forall s :: 0 <= s < n ==> Strict(trans[s])
  {
    hide Lists, WellFormed, PairsOf, CodeOk, ArcsListed, Strict;
    var lists := ListArcs(lines, n, single, double, epsilon);
    trans, deterministic := SortLists(lists, lines, n, single);
  }

  method ListArcs(lines: seq<Line>, n: nat, single: seq<Label>, double: array2<int>, epsilon: int)
    returns (lists: array<seq<Trans>>)
    requires WellFormed(lines, n) && SymbolsUpTo(lines, double.Length0 - 1) && double.Length0 == double.Length1
    requires CodesOk(double, single) && PairsOf(single, lines, |lines|)
    requires if EPSILON_PAIR in single then 0 <= epsilon < |single|
             && single[epsilon] == EPSILON_PAIR else epsilon == -1
    ensures fresh(lists) && lists.Length == n
    ensures forall s :: 0 <= s < n ==> Lists(lists[s], lines, |lines|, s, single)
  {
    hide Lists, WellFormed, PairsOf, CodeOk;
    lists := new seq<Trans>[n](_ => []);
    NothingListed(lines, single);
    var i := 0;
    while i < |lines|
      invariant 0 <= i <= |lines|
      invariant forall s :: 0 <= s < n ==> Lists(lists[s], lines, i, s, single)
    {
      ListLine(lists, lines[i], single, double, epsilon, lines, n, i);
      i := i + 1;
    }
  }

  lemma NoneListed(m: Machine<int>, single: seq<Label>)
    ensures AllListed([], m, 0, single)
  {
  }

  lemma ListedMore(trans: seq<seq<Trans>>, list: seq<Trans>, m: Machine<int>, single: seq<Label>)
    requires AllListed(trans, m, |trans|, single) && ArcsListed(list, m, |trans|, single)
    ensures AllListed(trans + [list], m, |trans| + 1, single)
  {
    hide ArcsListed;
  }

  method SortLists(lists: array<seq<Trans>>, ghost lines: seq<Line>, n: nat, ghost single: seq<Label>)
    returns (trans: seq<seq<Trans>>, deterministic: bool)
    requires WellFormed(lines, n) && lists.Length == n
    requires forall s :: 0 <= s < n ==> Lists(lists[s], lines, |lines|, s, single)
    ensures AllListed(trans, MachineOf(lines), n, single)
    ensures deterministic ==> forall s :: 0 <= s < n ==> Strict(trans[s])
  {
    hide Lists, WellFormed, AllListed, Strict, MachineOf, Sort;
    deterministic := true;
    trans := [];
    NoneListed(MachineOf(lines), single);
    var i := 0;
    while i < n
      invariant 0 <= i <= n && |trans| == i && AllListed(trans, MachineOf(lines), i, single)
      invariant deterministic ==> forall s :: 0 <= s < i ==> Strict(trans[s])
    {
      var sorted, unique := SortAndCheck(lists[i]);
      if !unique {
        deterministic := false;
      }
      ListIsArcs(lists[i], lines, n, i, single);
      ListedMore(trans, sorted, MachineOf(lines), single);
      trans := trans + [sorted];
      i := i + 1;
    }
  }

  /** Why the early return is right: strict lists, no 0:0 pair and one start state. */
  lemma StrictMeansDeterministic(lines: seq<Line>, n: nat, single: seq<Label>, trans: seq<seq<Trans>>)
    requires WellFormed(lines, n) && PairsOf(single, lines, |lines|) && EPSILON_PAIR !in single
    requires AllListed(trans, MachineOf(lines), n, single) && forall s :: 0 <= s < n ==> Strict(trans[s])
    requires MachineOf(lines).starts == iset{0}
    ensures Deterministic(MachineOf(lines))
  {
    hide ArcsListed, Strict, WellFormed;
    var m := MachineOf(lines);
    forall a | a in m.arcs ensures a.lab in single && 0 <= a.src < n {
      var k := ArcLine(lines, a);
      ArcInRange(lines, n, a);
    }
    forall a, b | a in m.arcs && b in m.arcs && a.src == b.src && a.lab == b.lab ensures a.tgt == b.tgt {
      var x :| 0 <= x < |single| && single[x] == a.lab;
      SameEntry(trans[a.src], m, a.src, single, x, a.tgt, b.tgt);
    }
  }

  lemma SameEntry(list: seq<Trans>, m: Machine<int>, s: int, single: seq<Label>, x: int, q: int, r: int)
    requires ArcsListed(list, m, s, single) && Strict(list) && 0 <= x < |single| && single[x] != EPSILON_PAIR
    requires Arc(s, single[x], q) in m.arcs && Arc(s, single[x], r) in m.arcs
    ensures q == r
  {
    assert Trans(x, q) in list && Trans(x, r) in list;
    var i :| 0 <= i < |list| && list[i] == Trans(x, q);
    var j :| 0 <= j < |list| && list[j] == Trans(x, r);
  }
}
