/**
 Aligning the two sides of a lexicon entry: a dynamic program whose optimum is a longest common
 subsequence, filled and traced back in fixed buffers.
 */
module Alignment {
  import opened Automata

  // ----- Longest common subsequences -----

  function Max(a: nat, b: nat): nat {
    if a >= b then a else b
  }

  function Front(s: seq<int>): seq<int>
    requires s != []
  {
    s[..|s| - 1]
  }

  function Last(s: seq<int>): int
    requires s != []
  {
    s[|s| - 1]
  }

  function Lcs(u: seq<int>, v: seq<int>): nat
    decreases |u| + |v|
  {
    if u == [] || v == [] then 0
    else if Last(u) == Last(v) then Lcs(Front(u), Front(v)) + 1
    else Max(Lcs(Front(u), v), Lcs(u, Front(v)))
  }

  ghost predicate Subsequence(s: seq<int>, u: seq<int>)
    decreases |u|
  {
    if s == [] then true
    else if u == [] then false
    else (Last(s) == Last(u) && Subsequence(Front(s), Front(u))) || Subsequence(s, Front(u))
  }

  /** Dropping the last element of either side costs at most one. */
  lemma {:induction false} LcsStep(u: seq<int>, v: seq<int>)
    ensures u != [] ==> Lcs(Front(u), v) <= Lcs(u, v) <= Lcs(Front(u), v) + 1
    ensures v != [] ==> Lcs(u, Front(v)) <= Lcs(u, v) <= Lcs(u, Front(v)) + 1
    decreases |u| + |v|
  {
    if u != [] && v != [] {
      LcsStep(Front(u), v);
      LcsStep(u, Front(v));
      LcsStep(Front(u), Front(v));
    }
  }

  lemma {:induction false} ShorterSubsequence(s: seq<int>, u: seq<int>)
    requires Subsequence(s, u) && s != []
    ensures Subsequence(Front(s), u)
    decreases |u|
  {
    if Subsequence(s, Front(u)) {
      ShorterSubsequence(s, Front(u));
    }
  }

  /** No common subsequence is longer. */
  lemma {:induction false} LcsBounds(s: seq<int>, u: seq<int>, v: seq<int>)
    requires Subsequence(s, u) && Subsequence(s, v)
    ensures |s| <= Lcs(u, v)
    decreases |u| + |v|
  {
    if s != [] {
      if Last(u) == Last(v) {
        BothFronts(s, u, v);
        LcsBounds(Front(s), Front(u), Front(v));
      } else if Last(s) == Last(u) {
        assert Subsequence(s, Front(v));
        LcsBounds(s, u, Front(v));
      } else {
        assert Subsequence(s, Front(u));
        LcsBounds(s, Front(u), v);
      }
    }
  }

  lemma BothFronts(s: seq<int>, u: seq<int>, v: seq<int>)
    requires s != [] && Subsequence(s, u) && Subsequence(s, v)
    ensures Subsequence(Front(s), Front(u)) && Subsequence(Front(s), Front(v))
  {
    if Subsequence(s, Front(u)) {
      ShorterSubsequence(s, Front(u));
    }
    if Subsequence(s, Front(v)) {
      ShorterSubsequence(s, Front(v));
    }
  }

  // ----- Alignments -----

  /** A pair of an alignment: X:X, X:0 or 0:X. */
  predicate AlignedPair(l: Label) {
    l.upper != l.lower ==> l.upper == EPSILON || l.lower == EPSILON
  }

  predicate SelfPaired(l: Label) {
    l.upper == l.lower
  }

  predicate Aligned(w: seq<Label>, u: seq<int>, v: seq<int>) {
    Upper(w) == u && Lower(w) == v && forall i :: 0 <= i < |w| ==> AlignedPair(w[i]) && w[i] != EPSILON_PAIR
  }

  /** The symbols that are paired with themselves. */
  function Matches(w: seq<Label>): seq<int> {
    if w == [] then []
    else Matches(w[..|w| - 1]) + (if SelfPaired(w[|w| - 1]) then [w[|w| - 1].upper] else [])
  }

  const LEV_DOWN: int := 0
  const LEV_LEFT: int := 1
  const LEV_DIAG: int := 2

  /** Total length less twice the matches: the number of unmatched symbols. */
  ghost function Cost(u: seq<int>, v: seq<int>): int {
    |u| + |v| - 2 * Lcs(u, v)
  }

  /** The step the table records for two prefixes. */
  function Direction(u: seq<int>, v: seq<int>): int {
    if u == [] then LEV_DOWN
    else if v == [] then LEV_LEFT
    else if Last(u) == Last(v) then LEV_DIAG
    else if Lcs(Front(u), v) >= Lcs(u, Front(v)) then LEV_LEFT
    else LEV_DOWN
  }

  /** The alignment traced back through the table. */
  function Align(u: seq<int>, v: seq<int>): seq<Label>
    decreases |u| + |v|
  {
    if u == [] && v == [] then []
    else if Direction(u, v) == LEV_DIAG then Align(Front(u), Front(v)) + [Label(Last(u), Last(v))]
    else if Direction(u, v) == LEV_DOWN then Align(u, Front(v)) + [Label(EPSILON, Last(v))]
    else Align(Front(u), v) + [Label(Last(u), EPSILON)]
  }

  lemma {:induction false} UpperAppend(w: seq<Label>, x: seq<Label>)
    ensures Upper(w + x) == Upper(w) + Upper(x)
  {
    if w == [] {
      assert w + x == x;
    } else {
      var head := if w[0].upper == EPSILON then [] else [w[0].upper];
      calc {
        Upper(w + x);
      == { assert (w + x)[0] == w[0] && (w + x)[1..] == w[1..] + x; }
        head + Upper(w[1..] + x);
      == { UpperAppend(w[1..], x); }
        head + (Upper(w[1..]) + Upper(x));
      ==
        (head + Upper(w[1..])) + Upper(x);
      ==
        Upper(w) + Upper(x);
      }
    }
  }

  lemma {:induction false} LowerAppend(w: seq<Label>, x: seq<Label>)
    ensures Lower(w + x) == Lower(w) + Lower(x)
  {
    if w == [] {
      assert w + x == x;
    } else {
      var head := if w[0].lower == EPSILON then [] else [w[0].lower];
      calc {
        Lower(w + x);
      == { assert (w + x)[0] == w[0] && (w + x)[1..] == w[1..] + x; }
        head + Lower(w[1..] + x);
      == { LowerAppend(w[1..], x); }
        head + (Lower(w[1..]) + Lower(x));
      ==
        (head + Lower(w[1..])) + Lower(x);
      ==
        Lower(w) + Lower(x);
      }
    }
  }

  lemma TapesAppend(w: seq<Label>, x: seq<Label>)
    ensures Upper(w + x) == Upper(w) + Upper(x) && Lower(w + x) == Lower(w) + Lower(x)
  {
    UpperAppend(w, x);
    LowerAppend(w, x);
  }

  lemma TapesOne(l: Label)
    ensures Upper([l]) == if l.upper == EPSILON then [] else [l.upper]
    ensures Lower([l]) == if l.lower == EPSILON then [] else [l.lower]
  {
    assert [l][1..] == [];
  }

  ghost predicate EpsilonFree(s: seq<int>) {
    EPSILON !in s
  }

  /** One more pair at the end of an alignment. */
  lemma AlignedMore(w: seq<Label>, u: seq<int>, v: seq<int>, l: Label)
    requires Aligned(w, u, v) && AlignedPair(l) && l != EPSILON_PAIR
    ensures Aligned(w + [l], u + Upper([l]), v + Lower([l]))
    ensures Matches(w + [l]) == Matches(w) + (if SelfPaired(l) then [l.upper] else [])
  {
    TapesAppend(w, [l]);
    assert (w + [l])[..|w|] == w;
  }

  lemma AlignNothing()
    ensures Align([], []) == [] && Aligned([], [], []) && Matches([]) == [] && Lcs([], []) == 0
  {
  }

  /** The last step of an alignment, and what it does to the optimum. */
  lemma AlignUnfold(u: seq<int>, v: seq<int>)
    requires u != [] || v != []
    ensures Direction(u, v) == LEV_DIAG ==>
              && u != [] && v != [] && u == Front(u) + [Last(u)] && v == Front(v) + [Last(v)] && Last(u) == Last(v)
              && Align(u, v) == Align(Front(u), Front(v)) + [Label(Last(u), Last(v))]
                 && Lcs(u, v) == Lcs(Front(u), Front(v)) + 1
    ensures Direction(u, v) == LEV_DOWN ==>
              && v != [] && v == Front(v) + [Last(v)]
              && Align(u, v) == Align(u, Front(v)) + [Label(EPSILON, Last(v))] && Lcs(u, v) == Lcs(u, Front(v))
    ensures Direction(u, v) != LEV_DIAG && Direction(u, v) != LEV_DOWN ==>
              && u != [] && u == Front(u) + [Last(u)]
              && Align(u, v) == Align(Front(u), v) + [Label(Last(u), EPSILON)] && Lcs(u, v) == Lcs(Front(u), v)
  {
  }

  /** What the trace yields: both words kept, no mismatch, and as many matches as the optimum. */
  lemma {:induction false} AlignCorrect(u: seq<int>, v: seq<int>)
    requires EpsilonFree(u) && EpsilonFree(v)
    ensures Aligned(Align(u, v), u, v)
    ensures |Matches(Align(u, v))| == Lcs(u, v)
    ensures |Align(u, v)| <= |u| + |v|
    decreases |u| + |v|
  {
    hide Align, Lcs, Direction, Aligned, Matches, Upper, Lower;
    if u == [] && v == [] {
      AlignNothing();
    } else {
      AlignUnfold(u, v);
      if Direction(u, v) == LEV_DIAG {
        AlignCorrect(Front(u), Front(v));
        AlignedMore(Align(Front(u), Front(v)), Front(u), Front(v), Label(Last(u), Last(v)));
        TapesOne(Label(Last(u), Last(v)));
      } else if Direction(u, v) == LEV_DOWN {
        AlignCorrect(u, Front(v));
        AlignedMore(Align(u, Front(v)), u, Front(v), Label(EPSILON, Last(v)));
        TapesOne(Label(EPSILON, Last(v)));
        assert u + [] == u;
      } else {
        AlignCorrect(Front(u), v);
        AlignedMore(Align(Front(u), v), Front(u), v, Label(Last(u), EPSILON));
        TapesOne(Label(Last(u), EPSILON));
        assert v + [] == v;
      }
    }
  }

  lemma {:induction false} SubsequenceAppend(s: seq<int>, u: seq<int>, x: int)
    requires Subsequence(s, u)
    ensures Subsequence(s + [x], u + [x]) && Subsequence(s, u + [x])
  {
    assert Front(s + [x]) == s && Front(u + [x]) == u;
  }

  /** The matched symbols of any alignment are a common subsequence. */
  lemma {:induction false} MatchesCommon(w: seq<Label>, u: seq<int>, v: seq<int>)
    requires Aligned(w, u, v)
    ensures Subsequence(Matches(w), u) && Subsequence(Matches(w), v)
    decreases |w|
  {
    if w != [] {
      var w', l := w[..|w| - 1], w[|w| - 1];
      assert w == w' + [l];
      TapesAppend(w', [l]);
      TapesOne(l);
      MatchesCommon(w', Upper(w'), Lower(w'));
      MatchesExtend(Matches(w'), Upper(w'), Lower(w'), l);
    }
  }

  lemma MatchesExtend(s: seq<int>, u: seq<int>, v: seq<int>, l: Label)
    requires Subsequence(s, u) && Subsequence(s, v) && AlignedPair(l) && l != EPSILON_PAIR
    ensures var s' := s + (if SelfPaired(l) then [l.upper] else []);
            Subsequence(s', u + Upper([l])) && Subsequence(s', v + Lower([l]))
  {
    hide Subsequence, Upper, Lower;
    TapesOne(l);
    SubsequenceAppend(s, u, l.upper);
    SubsequenceAppend(s, v, l.lower);
    assert s + [] == s && u + [] == u && v + [] == v;
  }

  /** No alignment of the two words matches more symbols than the one that is traced. */
  lemma AlignOptimal(w: seq<Label>, u: seq<int>, v: seq<int>)
    requires EpsilonFree(u) && EpsilonFree(v) && Aligned(w, u, v)
    ensures |Matches(w)| <= |Matches(Align(u, v))|
  {
    MatchesCommon(w, u, v);
    LcsBounds(Matches(w), u, v);
    AlignCorrect(u, v);
  }

  // ----- The word buffers -----

  const BUFFER: int := 1000

  /** The buffer holds the word, ended by -1. */
  ghost predicate Holds(a: array<int>, w: seq<int>)
    reads a
  {
    |w| < a.Length && a[..|w|] == w && a[|w|] == -1 && forall i :: 0 <= i < |w| ==> w[i] >= 0
  }

  function Strip(w: seq<int>): (r: seq<int>)
    ensures |r| <= |w|
  {
    if w == [] then [] else Strip(Front(w)) + (if Last(w) == EPSILON then [] else [Last(w)])
  }

  lemma {:induction false} StripFree(w: seq<int>)
    ensures EpsilonFree(Strip(w))
    ensures (forall i :: 0 <= i < |w| ==> w[i] >= 0) ==> forall i :: 0 <= i < |Strip(w)| ==> Strip(w)[i] >= 0
  {
    if w != [] {
      StripFree(Front(w));
    }
  }

  lemma StripMore(w: seq<int>, i: int)
    requires 0 <= i < |w|
    ensures Strip(w[..i + 1]) == Strip(w[..i]) + (if w[i] == EPSILON then [] else [w[i]])
  {
    assert Front(w[..i + 1]) == w[..i];
  }

  /** Removes EPSILON in place, the write index following the read index. */
  method StripInPlace(a: array<int>, ghost w: seq<int>)
    requires Holds(a, w)
    modifies a
    ensures Holds(a, Strip(w))
  {
    hide Strip;
    var i, j := 0, 0;
    while a[i] != -1
      invariant 0 <= j <= i <= |w| < a.Length && j == |Strip(w[..i])|
      invariant a[..j] == Strip(w[..i]) && a[i..|w| + 1] == w[i..] + [-1]
      invariant forall k :: 0 <= k < |w| ==> w[k] >= 0
      decreases |w| - i
    {
      assert a[i] == a[i..|w| + 1][0];
      StripMore(w, i);
      if a[i] != EPSILON {
        ghost var rest := a[i + 1..|w| + 1];
        a[j] := a[i];
        j := j + 1;
        assert a[i + 1..|w| + 1] == rest;
        assert a[..j] == a[..j - 1] + [a[j - 1]];
      }
      assert w[i..][1..] == w[i + 1..] && a[i + 1..|w| + 1] == (w[i..] + [-1])[1..];
      i := i + 1;
    }
    assert a[i] == a[i..|w| + 1][0];
    assert w[..i] == w;
    StripFree(w);
    a[j] := -1;
  }

  method Length(a: array<int>, ghost w: seq<int>) returns (n: nat)
    requires Holds(a, w)
    ensures n == |w|
  {
    n := 0;
    while a[n] != -1
      invariant 0 <= n <= |w|
      decreases |w| - n
    {
      assert a[..|w|][n] == w[n];
      n := n + 1;
    }
    WordEnd(a, w, n);
  }

  lemma WordEnd(a: array<int>, w: seq<int>, n: int)
    requires Holds(a, w) && 0 <= n <= |w| && a[n] == -1
    ensures n == |w|
  {
    assert forall i :: 0 <= i < |w| ==> a[i] == a[..|w|][i] == w[i];
  }

  // ----- The dynamic program -----

  ghost predicate CellOk(cost: int, dir: int, u: seq<int>, v: seq<int>, x: int, y: int)
    requires 0 <= x <= |u| && 0 <= y <= |v|
  {
    cost == Cost(u[..x], v[..y]) && (x + y > 0 ==> dir == Direction(u[..x], v[..y]))
  }

  /** The rows before `x` are filled, and the cells before `y` of row `x`. */
  ghost predicate Filled(matrix: array2<int>, dirs: array2<int>, u: seq<int>, v: seq<int>, x: int, y: int)
    requires matrix.Length0 == dirs.Length0 > |u| && matrix.Length1 == dirs.Length1 > |v|
    reads matrix, dirs
  {
    forall p, q :: 0 <= p <= |u| && 0 <= q <= |v| && (p < x || (p == x && q < y)) ==>
                   CellOk(matrix[p, q], dirs[p, q], u, v, p, q)
  }

  lemma CostStep(u: seq<int>, v: seq<int>, x: int, y: int)
    requires 0 < x <= |u| && 0 < y <= |v|
    ensures var diag := Cost(u[..x - 1], v[..y - 1]) + (if u[x - 1] == v[y - 1] then 0 else 100);
            var down := Cost(u[..x], v[..y - 1]) + 1;
            var left := Cost(u[..x - 1], v[..y]) + 1;
            if diag <= left && diag <= down then CellOk(diag, LEV_DIAG, u, v, x, y) && u[x - 1] == v[y - 1]
            else if left <= diag && left <= down then CellOk(left, LEV_LEFT, u, v, x, y)
            else CellOk(down, LEV_DOWN, u, v, x, y)
  {
    assert Front(u[..x]) == u[..x - 1] && Front(v[..y]) == v[..y - 1];
    LcsStep(u[..x], v[..y]);
    LcsStep(u[..x - 1], v[..y]);
    LcsStep(u[..x], v[..y - 1]);
  }

  lemma EdgeCells(u: seq<int>, v: seq<int>)
    ensures CellOk(0, 0, u, v, 0, 0)
    ensures forall x :: 0 < x <= |u| ==> CellOk(x, LEV_LEFT, u, v, x, 0)
    ensures forall y :: 0 < y <= |v| ==> CellOk(y, LEV_DOWN, u, v, 0, y)
  {
  }

  /** The first row and column. */
  method FillEdges(matrix: array2<int>, dirs: array2<int>, ghost u: seq<int>, ghost v: seq<int>, m: nat, n: nat)
    requires matrix != dirs && m == |u| && n == |v|
    requires matrix.Length0 == dirs.Length0 == m + 2 && matrix.Length1 == dirs.Length1 == n + 2
    modifies matrix, dirs
    ensures forall x :: 0 <= x <= m ==> matrix[x, 0] == x && (x > 0 ==> dirs[x, 0] == LEV_LEFT)
    ensures forall y :: 0 <= y <= n ==> matrix[0, y] == y && (y > 0 ==> dirs[0, y] == LEV_DOWN)
    ensures dirs[0, 0] == 0
  {
    matrix[0, 0] := 0;
    dirs[0, 0] := 0;
    var x := 1;
    while x <= m
      invariant 1 <= x <= m + 1 && dirs[0, 0] == 0
      invariant forall p :: 0 <= p < x ==> matrix[p, 0] == p && (p > 0 ==> dirs[p, 0] == LEV_LEFT)
    {
      matrix[x, 0] := matrix[x - 1, 0] + 1;
      dirs[x, 0] := LEV_LEFT;
      x := x + 1;
    }
    var y := 1;
    while y <= n
      invariant 1 <= y <= n + 1 && dirs[0, 0] == 0
      invariant forall p :: 0 <= p <= m ==> matrix[p, 0] == p && (p > 0 ==> dirs[p, 0] == LEV_LEFT)
      invariant forall q :: 0 <= q < y ==> matrix[0, q] == q && (q > 0 ==> dirs[0, q] == LEV_DOWN)
    {
      matrix[0, y] := matrix[0, y - 1] + 1;
      dirs[0, y] := LEV_DOWN;
      y := y + 1;
    }
  }

  /** One inner cell. */
  method FillCell(matrix: array2<int>, dirs: array2<int>, cin: array<int>, cout: array<int>, ghost u: seq<int>,
                  ghost v: seq<int>, x: int, y: int)
    requires matrix != dirs && Holds(cin, u) && Holds(cout, v) && 0 < x <= |u| && 0 < y <= |v|
    requires matrix.Length0 == dirs.Length0 == |u| + 2 && matrix.Length1 == dirs.Length1 == |v| + 2
    requires Filled(matrix, dirs, u, v, x, y)
    modifies matrix, dirs
    ensures Filled(matrix, dirs, u, v, x, y + 1)
    ensures forall p, q :: 0 <= p < matrix.Length0 && 0 <= q < matrix.Length1 && !(p == x && q == y) ==>
                             matrix[p, q] == old(matrix[p, q]) && dirs[p, q] == old(dirs[p, q])
  {
    hide Direction, Cost, CellOk;
    CostStep(u, v, x, y);
    CellCost(matrix[x - 1, y - 1], dirs[x - 1, y - 1], u, v, x - 1, y - 1);
    CellCost(matrix[x, y - 1], dirs[x, y - 1], u, v, x, y - 1);
    CellCost(matrix[x - 1, y], dirs[x - 1, y], u, v, x - 1, y);
    assert cin[x - 1] == cin[..|u|][x - 1] && cout[y - 1] == cout[..|v|][y - 1];
    var diag := matrix[x - 1, y - 1] + (if cin[x - 1] == cout[y - 1] then 0 else 100);
    var down := matrix[x, y - 1] + 1;
    var left := matrix[x - 1, y] + 1;
    if diag <= left && diag <= down {
      matrix[x, y] := diag;
      dirs[x, y] := LEV_DIAG;
    } else if left <= diag && left <= down {
      matrix[x, y] := left;
      dirs[x, y] := LEV_LEFT;
    } else {
      matrix[x, y] := down;
      dirs[x, y] := LEV_DOWN;
    }
  }

  lemma CellCost(cost: int, dir: int, u: seq<int>, v: seq<int>, x: int, y: int)
    requires 0 <= x <= |u| && 0 <= y <= |v| && CellOk(cost, dir, u, v, x, y)
    ensures cost == Cost(u[..x], v[..y])
  {
  }

  method FillMatrix(matrix: array2<int>, dirs: array2<int>, cin: array<int>, cout: array<int>, ghost u: seq<int>,
                    ghost v: seq<int>, m: nat, n: nat)
    requires matrix != dirs && Holds(cin, u) && Holds(cout, v) && m == |u| && n == |v|
    requires matrix.Length0 == dirs.Length0 == m + 2 && matrix.Length1 == dirs.Length1 == n + 2
    modifies matrix, dirs
    ensures Filled(matrix, dirs, u, v, m + 1, 0)
  {
    hide CellOk;
    FillEdges(matrix, dirs, u, v, m, n);
    EdgeCells(u, v);
    var x := 1;
    while x <= m
      invariant 1 <= x <= m + 1 && Filled(matrix, dirs, u, v, x, 0)
      invariant forall p :: 0 <= p <= m ==> CellOk(matrix[p, 0], dirs[p, 0], u, v, p, 0)
      invariant Holds(cin, u) && Holds(cout, v)
    {
      var y := 1;
      while y <= n
        invariant 1 <= y <= n + 1 && Filled(matrix, dirs, u, v, x, y)
        invariant forall p :: 0 <= p <= m ==> CellOk(matrix[p, 0], dirs[p, 0], u, v, p, 0)
        invariant Holds(cin, u) && Holds(cout, v)
      {
        FillCell(matrix, dirs, cin, cout, u, v, x, y);
        y := y + 1;
      }
      x := x + 1;
    }
  }

  // ----- Tracing back -----

  function Uppers(w: seq<Label>): (r: seq<int>)
    ensures |r| == |w| && forall i :: 0 <= i < |w| ==> r[i] == w[i].upper
  {
    seq(|w|, i requires 0 <= i < |w| => w[i].upper)
  }

  function Lowers(w: seq<Label>): (r: seq<int>)
    ensures |r| == |w| && forall i :: 0 <= i < |w| ==> r[i] == w[i].lower
  {
    seq(|w|, i requires 0 <= i < |w| => w[i].lower)
  }

  /** The first `i` cells of the trace buffers are the end of the alignment, backward; its beginning is `rest`. */
  ghost predicate Traced(medin: seq<int>, medout: seq<int>, i: int, w: seq<Label>, rest: seq<Label>) {
    && 0 <= i <= |medin| && i <= |medout| && |w| == |rest| + i && rest == w[..|rest|]
    && forall k :: 0 <= k < i ==> medin[k] == w[|w| - 1 - k].upper && medout[k] == w[|w| - 1 - k].lower
  }

  lemma TraceStep(medin: seq<int>, medout: seq<int>, i: int, w: seq<Label>, rest: seq<Label>, l: Label)
    requires Traced(medin, medout, i, w, rest + [l]) && i < |medin| && i < |medout|
    ensures Traced(medin[i := l.upper], medout[i := l.lower], i + 1, w, rest)
  {
    assert (rest + [l])[|rest|] == l;
    assert w[|rest|] == l;
    assert rest == (rest + [l])[..|rest|] == w[..|rest|];
  }

  /** Walks the table from its far corner, writing the alignment backward. */
  method Trace(dirs: array2<int>, cin: array<int>, cout: array<int>, medin: array<int>, medout: array<int>, m: nat,
               n: nat,
               ghost matrix: array2<int>, ghost u: seq<int>, ghost v: seq<int>) returns (i: nat)
    requires Holds(cin, u) && Holds(cout, v) && m == |u| && n == |v| && m + n < BUFFER
    requires medin.Length == medout.Length == 2 * BUFFER
    requires medin != medout && medin != cin && medin != cout && medout != cin && medout != cout
    requires matrix.Length0 == dirs.Length0 > m && matrix.Length1 == dirs.Length1 > n
             && Filled(matrix, dirs, u, v, m + 1, 0)
    requires EpsilonFree(u) && EpsilonFree(v)
    modifies medin, medout
    ensures Traced(medin[..], medout[..], i, Align(u, v), []) && i == |Align(u, v)| <= m + n
  {
    hide Direction, Cost, Align, Aligned, Matches, Traced, Filled, CellOk;
    var x, y := m, n;
    i := 0;
    ghost var w := Align(u, v);
    AlignCorrect(u, v);
    assert u[..m] == u && v[..n] == v;
    NothingTraced(medin[..], medout[..], w);
    while x > 0 || y > 0
      invariant 0 <= x <= m && 0 <= y <= n && 0 <= i <= m + n
      invariant Traced(medin[..], medout[..], i, w, Align(u[..x], v[..y]))
      invariant Holds(cin, u) && Holds(cout, v) && Filled(matrix, dirs, u, v, m + 1, 0)
      decreases x + y
    {
      ghost var din, dout := medin[..], medout[..];
      var dir := dirs[x, y];
      DirectionAt(matrix, dirs, u, v, x, y);
      AlignAt(u, v, x, y);
      RoomLeft(din, dout, i, u, v, x, y);
      assert x > 0 ==> cin[x - 1] == cin[..m][x - 1];
      assert y > 0 ==> cout[y - 1] == cout[..n][y - 1];
      if dir == LEV_DIAG {
        TraceStep(din, dout, i, w, Align(u[..x - 1], v[..y - 1]), Label(u[x - 1], v[y - 1]));
        medin[i] := cin[x - 1];
        medout[i] := cout[y - 1];
        x, y := x - 1, y - 1;
      } else if dir == LEV_DOWN {
        TraceStep(din, dout, i, w, Align(u[..x], v[..y - 1]), Label(EPSILON, v[y - 1]));
        medin[i] := EPSILON;
        medout[i] := cout[y - 1];
        y := y - 1;
      } else {
        TraceStep(din, dout, i, w, Align(u[..x - 1], v[..y]), Label(u[x - 1], EPSILON));
        medin[i] := cin[x - 1];
        medout[i] := EPSILON;
        x := x - 1;
      }
      i := i + 1;
      assert medin[..] == din[i - 1 := medin[i - 1]] && medout[..] == dout[i - 1 := medout[i - 1]];
    }
    AllTraced(medin[..], medout[..], i, u, v);
  }

  lemma NothingTraced(medin: seq<int>, medout: seq<int>, w: seq<Label>)
    ensures Traced(medin, medout, 0, w, w)
  {
    assert w[..|w|] == w;
  }

  lemma DirectionAt(matrix: array2<int>, dirs: array2<int>, u: seq<int>, v: seq<int>, x: nat, y: nat)
    requires matrix.Length0 == dirs.Length0 > |u| && matrix.Length1 == dirs.Length1 > |v|
    requires Filled(matrix, dirs, u, v, |u| + 1, 0) && x <= |u| && y <= |v| && x + y > 0
    ensures dirs[x, y] == Direction(u[..x], v[..y])
  {
    assert CellOk(matrix[x, y], dirs[x, y], u, v, x, y);
  }

  lemma RoomLeft(medin: seq<int>, medout: seq<int>, i: int, u: seq<int>, v: seq<int>, x: nat, y: nat)
    requires x <= |u| && y <= |v| && x + y > 0 && |Align(u, v)| <= |u| + |v|
    requires Traced(medin, medout, i, Align(u, v), Align(u[..x], v[..y]))
    ensures 0 <= i < |u| + |v|
  {
  }

  lemma AllTraced(medin: seq<int>, medout: seq<int>, i: int, u: seq<int>, v: seq<int>)
    requires Traced(medin, medout, i, Align(u, v), Align(u[..0], v[..0]))
    ensures Traced(medin, medout, i, Align(u, v), []) && i == |Align(u, v)|
  {
  }

  lemma AlignAt(u: seq<int>, v: seq<int>, x: int, y: int)
    requires 0 <= x <= |u| && 0 <= y <= |v| && x + y > 0
    ensures var d := Direction(u[..x], v[..y]);
            if d == LEV_DIAG then x > 0 && y > 0 && Align(u[..x], v[..y]) == Align(u[..x - 1], v[..y - 1])
               + [Label(u[x - 1], v[y - 1])]
            else if d == LEV_DOWN then y > 0 && Align(u[..x], v[..y]) == Align(u[..x], v[..y - 1])
                 + [Label(EPSILON, v[y - 1])]
            else x > 0 && Align(u[..x], v[..y]) == Align(u[..x - 1], v[..y]) + [Label(u[x - 1], EPSILON)]
  {
    assert x > 0 ==> Front(u[..x]) == u[..x - 1];
    assert y > 0 ==> Front(v[..y]) == v[..y - 1];
  }

  /** Copies the backward trace into the word buffers. */
  method CopyBack(cin: array<int>, cout: array<int>, medin: array<int>, medout: array<int>, count: nat,
                  ghost w: seq<Label>)
    requires Traced(medin[..], medout[..], count, w, []) && count == |w| < BUFFER <= cin.Length && BUFFER <= cout.Length
    requires cin != cout && medin != cin && medin != cout && medout != cin && medout != cout
    requires forall k :: 0 <= k < |w| ==> w[k].upper >= 0 && w[k].lower >= 0
    modifies cin, cout
    ensures Holds(cin, Uppers(w)) && Holds(cout, Lowers(w))
  {
    var j, i := 0, count - 1;
    while i >= 0
      invariant 0 <= j <= count && i == count - 1 - j
      invariant Traced(medin[..], medout[..], count, w, [])
      invariant forall k :: 0 <= k < j ==> cin[k] == w[k].upper && cout[k] == w[k].lower
    {
      assert medin[i] == medin[..][i] && medout[i] == medout[..][i];
      cin[j] := medin[i];
      cout[j] := medout[i];
      j, i := j + 1, i - 1;
    }
    cin[j] := -1;
    cout[j] := -1;
  }

  /** The buffers of the lexicon compiler. */
  class WordBuffers {
    const cwordin: array<int>
    const cwordout: array<int>
    const medcwordin: array<int>
    const medcwordout: array<int>

    ghost predicate Valid() {
      && cwordin.Length == cwordout.Length == BUFFER && medcwordin.Length == medcwordout.Length == 2 * BUFFER
      && cwordin != cwordout && medcwordin != medcwordout
      && medcwordin != cwordin && medcwordin != cwordout && medcwordout != cwordin && medcwordout != cwordout
    }

    constructor ()
      ensures Valid() && fresh(cwordin) && fresh(cwordout) && fresh(medcwordin) && fresh(medcwordout)
    {
      cwordin := new int[BUFFER];
      cwordout := new int[BUFFER];
      medcwordin := new int[2 * BUFFER];
      medcwordout := new int[2 * BUFFER];
    }

    /** Aligns the two sides of the current entry; an entry empty on both sides becomes one 0:0 pair. */
    method MedPad(ghost up: seq<int>, ghost lo: seq<int>)
      requires Valid() && Holds(cwordin, up) && Holds(cwordout, lo)
      requires |Strip(up)| + |Strip(lo)| < BUFFER
      modifies cwordin, cwordout, medcwordin, medcwordout
      ensures var w := if up == [] && lo == [] then [EPSILON_PAIR] else Align(Strip(up), Strip(lo));
              Holds(cwordin, Uppers(w)) && Holds(cwordout, Lowers(w))
    {
      hide Align, Strip, Direction, Cost, EpsilonFree;
      if cwordin[0] == -1 && cwordout[0] == -1 {
        WordEnd(cwordin, up, 0);
        WordEnd(cwordout, lo, 0);
        cwordin[0] := EPSILON;
        cwordout[0] := EPSILON;
        cwordin[1] := -1;
        cwordout[1] := -1;
        return;
      }
      assert up != [] || lo != [];
      StripInPlace(cwordin, up);
      StripInPlace(cwordout, lo);
      ghost var u, v := Strip(up), Strip(lo);
      StripFree(up);
      StripFree(lo);
      var s1len := Length(cwordin, u);
      var s2len := Length(cwordout, v);
      var matrix := new int[s1len + 2, s2len + 2];
      var dirmatrix := new int[s1len + 2, s2len + 2];
      FillMatrix(matrix, dirmatrix, cwordin, cwordout, u, v, s1len, s2len);
      var i := Trace(dirmatrix, cwordin, cwordout, medcwordin, medcwordout, s1len, s2len, matrix, u, v);
      AlignNatural(u, v);
      CopyBack(cwordin, cwordout, medcwordin, medcwordout, i, Align(u, v));
    }
  }

  lemma {:induction false} AlignNatural(u: seq<int>, v: seq<int>)
    requires (forall i :: 0 <= i < |u| ==> u[i] >= 0) && (forall i :: 0 <= i < |v| ==> v[i] >= 0)
    ensures forall k :: 0 <= k < |Align(u, v)| ==> Align(u, v)[k].upper >= 0 && Align(u, v)[k].lower >= 0
    decreases |u| + |v|
  {
    if u == [] && v == [] {
    } else if Direction(u, v) == LEV_DIAG {
      AlignNatural(Front(u), Front(v));
    } else if Direction(u, v) == LEV_DOWN {
      AlignNatural(u, Front(v));
    } else {
      AlignNatural(Front(u), v);
    }
  }

  lemma {:induction false} StripEmpty(w: seq<int>)
    ensures Strip(w) == [] <==> forall i :: 0 <= i < |w| ==> w[i] == EPSILON
    decreases |w|
  {
    if w != [] {
      StripEmpty(Front(w));
      assert forall i :: 0 <= i < |w| ==> w[i] == if i < |w| - 1 then Front(w)[i] else Last(w);
    }
  }

  /**
   An entry is aligned to the empty word exactly when it holds nothing but EPSILON. The entry
   empty on both sides is spared by the early return, but one written with explicit EPSILON is not.
   */
  lemma AlignedToNothing(up: seq<int>, lo: seq<int>)
    ensures Align(Strip(up), Strip(lo)) == [] <==>
            (forall i :: 0 <= i < |up| ==> up[i] == EPSILON) && (forall i :: 0 <= i < |lo| ==> lo[i] == EPSILON)
  {
    StripEmpty(up);
    StripEmpty(lo);
    StripFree(up);
    StripFree(lo);
    AlignCorrect(Strip(up), Strip(lo));
  }
}
