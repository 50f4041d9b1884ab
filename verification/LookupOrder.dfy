/**
 The order in which a depth-first search comes to the paths of a net, and why it comes to an end: the paths
 before any point of the search, and how much of the search is still ahead.
 */
module LookupOrder {
  import opened Automata
  import opened Counting
  import opened LookupPaths
  import opened NetReading

  /** Line by line in the order of their numbers, a path before those that go on from it. */
  predicate Before(a: seq<int>, b: seq<int>)
    decreases |a|
  {
    b != [] && (a == [] || a[0] < b[0] || (a[0] == b[0] && Before(a[1..], b[1..])))
  }

  ghost predicate InOrder(paths: seq<seq<int>>) {
    forall i, j :: 0 <= i < j < |paths| ==> Before(paths[i], paths[j])
  }

  /** After `i` and after `j` arcs the path is in the same state, at the same position of the input. */
  predicate SamePlace(q: Query, p: seq<int>, i: nat, j: nat) {
    i <= |p| && j <= |p| && StateAfter(q, p[..i]) == StateAfter(q, p[..j]) && PosAfter(q, p[..i]) == PosAfter(q, p[..j])
  }

  /** The path never comes back to a state without having read on. */
  ghost predicate Simple(q: Query, p: seq<int>) {
    forall i, j :: 0 <= i < j <= |p| ==> !SamePlace(q, p, i, j)
  }

  /** Answering paths in order and each once, all from before `b` and among them all simple ones from there. */
  ghost predicate Listed(q: Query, answered: seq<seq<int>>, b: seq<int>) {
    && InOrder(answered) && (forall p :: p in answered ==> Answering(q, p) && Before(p, b))
    && (forall p :: Answering(q, p) && Simple(q, p) && Before(p, b) ==> p in answered)
  }

  /** Answering paths in order and each once, among them all simple ones. */
  ghost predicate Covered(q: Query, answered: seq<seq<int>>) {
    && InOrder(answered) && (forall p :: p in answered ==> Answering(q, p))
    && (forall p :: Answering(q, p) && Simple(q, p) ==> p in answered)
  }

  /** Exactly the answering paths, in order and each once. */
  ghost predicate Complete(q: Query, answered: seq<seq<int>>) {
    InOrder(answered) && forall p :: p in answered <==> Answering(q, p)
  }

  // ----- The order -----

  lemma {:induction false} BeforeSplit(a: seq<int>, p: seq<int>, t: seq<int>)
    requires p <= a
    ensures Before(a, p + t) <==> Before(a[|p|..], t)
    decreases |p|
  {
    if p == [] {
      assert p + t == t && a[0..] == a;
    } else {
      assert (p + t)[0] == p[0] == a[0] && (p + t)[1..] == p[1..] + t && a[1..][|p[1..]|..] == a[|p|..];
      BeforeSplit(a[1..], p[1..], t);
    }
  }

  /** A path that does not go on from `p` is before all of its continuations or after them. */
  lemma {:induction false} BeforeOutside(a: seq<int>, p: seq<int>, t: seq<int>)
    requires !(p <= a)
    ensures Before(a, p + t) <==> Before(a, p)
    decreases |p|
  {
    if p != [] {
      assert (p + t)[0] == p[0] && (p + t)[1..] == p[1..] + t;
      if a != [] && a[0] == p[0] {
        assert p == [p[0]] + p[1..] && a == [a[0]] + a[1..];
        BeforeOutside(a[1..], p[1..], t);
      }
    }
  }

  lemma BeforeOne(a: seq<int>, k: int)
    ensures Before(a, [k]) <==> a == [] || a[0] < k
  {
    if a != [] {
      assert !Before(a[1..], [k][1..]);
    }
  }

  /** What comes before the `k`-th line taken after `p`. */
  lemma BeforeNext(a: seq<int>, p: seq<int>, k: int)
    ensures Before(a, p + [k]) <==> Before(a, p) || a == p || (p < a && a[|p|] < k)
    ensures Before(a, p) ==> !(p <= a)
  {
    if p <= a {
      BeforeSplit(a, p, [k]);
      BeforeSplit(a, p, []);
      assert p + [] == p;
      BeforeOne(a[|p|..], k);
      assert a[|p|..] == [] <==> a == p;
    } else {
      BeforeOutside(a, p, [k]);
    }
  }

  // ----- Sound paths, cut and continued -----

  lemma {:induction false} SoundCut(q: Query, p: seq<int>, i: nat)
    requires Sound(q, p) && i < |p|
    ensures Sound(q, p[..i]) && MayFollow(q, p[..i], p[i])
    decreases |p|
  {
    hide MayFollow;
    var m := |p| - 1;
    if i < m {
      SoundCut(q, p[..m], i);
      assert p[..m][..i] == p[..i] && p[..m][i] == p[i];
    }
  }

  /** A sound path that goes on from `p` goes on with an arc that may follow. */
  lemma GoesOn(q: Query, p: seq<int>, a: seq<int>)
    requires Sound(q, a) && p < a
    ensures MayFollow(q, p, a[|p|]) && 0 <= a[|p|] < |q.lines|
    ensures Simple(q, a) ==> Simple(q, p + [a[|p|]])
  {
    hide Sound, StateAfter, PosAfter;
    SoundCut(q, a, |p|);
    assert a[..|p|] == p;
    SimpleCut(q, a, |p| + 1);
    assert a[..|p| + 1] == p + [a[|p|]];
  }

  lemma SimpleCut(q: Query, a: seq<int>, m: nat)
    requires m <= |a|
    ensures Simple(q, a) ==> Simple(q, a[..m])
  {
    hide StateAfter, PosAfter;
    if Simple(q, a) {
      forall i, j | 0 <= i < j <= m ensures !SamePlace(q, a[..m], i, j) {
        assert a[..m][..i] == a[..i] && a[..m][..j] == a[..j];
        assert !SamePlace(q, a, i, j);
      }
    }
  }

  // ----- The list of answered paths, from one point of the search to the next -----

  lemma NothingListed(q: Query)
    ensures Listed(q, [], [])
  {
  }

  /** Arriving at a path: it is answered now, or it is no answer. */
  lemma ListedHere(q: Query, answered: seq<seq<int>>, p: seq<int>)
    requires Listed(q, answered, p)
    ensures Listed(q, if Answering(q, p) then answered + [p] else answered, p + [0])
  {
    hide Answering, Simple;
    var more := if Answering(q, p) then answered + [p] else answered;
    forall a | a in more || (Answering(q, a) && Simple(q, a) && Before(a, p + [0]))
      ensures a in more && Answering(q, a) && Before(a, p + [0])
    {
      BeforeNext(a, p, 0);
      if Answering(q, a) && p < a {
        AnsweringSound(q, a);
        GoesOn(q, p, a);
      }
    }
    forall i, j | 0 <= i < j < |more| ensures Before(more[i], more[j]) {
      assert more[i] in answered;
    }
  }

  lemma AnsweringSound(q: Query, p: seq<int>)
    requires Answering(q, p)
    ensures Sound(q, p)
  {
  }

  /** Lines can be skipped if no simple path goes on with them. */
  lemma ListedSkip(q: Query, answered: seq<seq<int>>, p: seq<int>, i: int, k: int)
    requires Listed(q, answered, p + [i]) && i <= k
    requires forall h :: i <= h < k ==> !(MayFollow(q, p, h) && Simple(q, p + [h]))
    ensures Listed(q, answered, p + [k])
  {
    hide Answering, MayFollow, Simple;
    forall a | a in answered || (Answering(q, a) && Simple(q, a) && Before(a, p + [k]))
      ensures a in answered && Answering(q, a) && Before(a, p + [k])
    {
      BeforeNext(a, p, i);
      BeforeNext(a, p, k);
      if Answering(q, a) && p < a {
        AnsweringSound(q, a);
        GoesOn(q, p, a);
      }
    }
  }

  /** When all lines have been tried after `p + [k]`, the search is at the next line after `p`. */
  lemma ListedBack(q: Query, answered: seq<seq<int>>, p: seq<int>, k: int)
    requires Listed(q, answered, p + [k] + [|q.lines|])
    ensures Listed(q, answered, p + [k + 1])
  {
    hide Answering, Simple;
    var b := p + [k];
    forall a | a in answered || (Answering(q, a) && Simple(q, a) && Before(a, p + [k + 1]))
      ensures a in answered && Answering(q, a) && Before(a, p + [k + 1])
    {
      BeforeNext(a, b, |q.lines|);
      BeforeNext(a, p, k);
      BeforeNext(a, p, k + 1);
      assert b <= a <==> p < a && a[|p|] == k by {
        assert b[..|p|] == p && b[|p|] == k;
        if p < a && a[|p|] == k {
          assert a[..|p| + 1] == b;
        }
      }
      if Answering(q, a) && b < a {
        AnsweringSound(q, a);
        GoesOn(q, b, a);
      }
    }
  }

  /** When all lines have been tried from the start, every simple answering path has been answered. */
  lemma ListedAll(q: Query, answered: seq<seq<int>>)
    requires Listed(q, answered, [|q.lines|])
    ensures Covered(q, answered)
  {
    hide Answering, Simple;
    forall p | Answering(q, p) && Simple(q, p) ensures p in answered {
      BeforeOne(p, |q.lines|);
      if p != [] {
        AnsweringSound(q, p);
        GoesOn(q, [], p);
      }
    }
  }

  // ----- Loops that consume nothing -----

  /** The arc takes nothing of the input: EPSILON or a flag. */
  predicate ConsumesNothing(q: Query, l: Line) {
    l.upper == EPSILON || l.upper in q.flagOf
  }

  /** The lines numbered `c` are arcs that consume nothing and lead around in a circle. */
  ghost predicate SilentCycle(q: Query, c: seq<int>) {
    c != [] && forall h :: 0 <= h < |c| ==> SilentAfter(q, c[if h == 0 then |c| - 1 else h - 1], c[h])
  }

  predicate SilentAfter(q: Query, before: int, k: int) {
    0 <= before < |q.lines| && 0 <= k < |q.lines| && q.lines[k].state == q.lines[before].target
    && ConsumesNothing(q, q.lines[k])
  }

  /** A symbol that the match array holds takes something of the input. */
  predicate NoEmptyMatch(q: Query) {
    forall i :: 0 <= i < |q.sigmatch| ==> q.sigmatch[i].consumes > 0 || q.sigmatch[i].signumber == EPSILON
  }

  /** Nothing can be gone around without reading on: no circle of arcs that consume nothing, and no empty match. */
  ghost predicate Calm(q: Query) {
    && (forall c :: !SilentCycle(q, c)) && NoEmptyMatch(q) && ArclessAlone(q.lines)
  }

  /** Nothing can be gone around without reading on but an arc from a state to itself. */
  ghost predicate Tame(q: Query) {
    && (forall c, h :: SilentCycle(q, c) && 0 <= h < |c| ==> OwnLoop(q, c[h]))
    && NoEmptyMatch(q) && ArclessAlone(q.lines)
  }

  predicate OwnLoop(q: Query, k: int) {
    0 <= k < |q.lines| && q.lines[k].target == q.lines[k].state
  }

  lemma CalmIsTame(q: Query)
    ensures Calm(q) ==> Tame(q) && ArclessAlone(q.lines)
  {
  }

  /** The path's arc `i` leads nowhere: to the same state, with nothing read. */
  predicate Stutters(q: Query, p: seq<int>, i: int) {
    0 <= i < |p| && SamePlace(q, p, i, i + 1)
  }

  /** Never two such arcs in a row. */
  ghost predicate Steady(q: Query, p: seq<int>) {
    forall i :: 0 < i < |p| ==> !(Stutters(q, p, i - 1) && Stutters(q, p, i))
  }

  lemma StuttersFront(q: Query, p: seq<int>, k: int, i: int)
    requires i < |p|
    ensures Stutters(q, p + [k], i) <==> Stutters(q, p, i)
  {
    if 0 <= i {
      assert (p + [k])[..i] == p[..i] && (p + [k])[..i + 1] == p[..i + 1];
    }
  }

  lemma SteadyOne(q: Query, p: seq<int>, k: int)
    ensures Steady(q, p + [k]) <==> Steady(q, p) && !(Stutters(q, p, |p| - 1) && Stutters(q, p + [k], |p|))
  {
    hide Stutters;
    forall i | i < |p| ensures Stutters(q, p + [k], i) <==> Stutters(q, p, i) {
      StuttersFront(q, p, k, i);
    }
    if Steady(q, p + [k]) {
      forall i | 0 < i < |p| ensures !(Stutters(q, p, i - 1) && Stutters(q, p, i)) {
        assert !(Stutters(q, p + [k], i - 1) && Stutters(q, p + [k], i));
      }
      assert |p| > 0 ==> !(Stutters(q, p + [k], |p| - 1) && Stutters(q, p + [k], |p|));
      NoStutterBefore(q, p);
    }
  }

  lemma NoStutterBefore(q: Query, p: seq<int>)
    ensures !Stutters(q, p, -1)
  {
  }

  lemma PosGrows(q: Query, p: seq<int>, i: nat)
    requires i < |p|
    ensures PosAfter(q, p[..i]) <= PosAfter(q, p[..i + 1])
  {
    assert p[..i + 1][..i] == p[..i];
  }

  lemma {:induction false} PosMonotone(q: Query, p: seq<int>, i: nat, j: nat)
    requires i <= j <= |p|
    ensures PosAfter(q, p[..i]) <= PosAfter(q, p[..j])
    decreases j - i
  {
    hide PosAfter;
    if i < j {
      PosMonotone(q, p, i, j - 1);
      PosGrows(q, p, j - 1);
    }
  }

  /** Where the position does not move, the arc consumes nothing. */
  lemma StandsStill(q: Query, p: seq<int>, i: nat)
    requires Sound(q, p) && i < |p| && PosAfter(q, p[..i]) == PosAfter(q, p[..i + 1])
    requires NoEmptyMatch(q)
    ensures 0 <= p[i] < |q.lines| && ConsumesNothing(q, q.lines[p[i]])
    ensures q.lines[p[i]].state == StateAfter(q, p[..i]) && StateAfter(q, p[..i + 1]) == q.lines[p[i]].target
  {
    SoundCut(q, p, i);
    assert p[..i + 1][..i] == p[..i];
  }

  lemma StillMeansCycle(q: Query, p: seq<int>, i: nat, j: nat)
    requires Sound(q, p) && i < j <= |p|
    requires NoEmptyMatch(q)
    requires StateAfter(q, p[..i]) == StateAfter(q, p[..j]) && PosAfter(q, p[..i]) == PosAfter(q, p[..j])
    ensures SilentCycle(q, p[i..j])
  {
    hide PosAfter, StateAfter, Sound, ConsumesNothing;
    var c := p[i..j];
    forall h | i <= h < j
      ensures 0 <= p[h] < |q.lines| && ConsumesNothing(q, q.lines[p[h]])
              && q.lines[p[h]].state == StateAfter(q, p[..h]) && StateAfter(q, p[..h + 1]) == q.lines[p[h]].target
    {
      PosMonotone(q, p, i, h);
      PosMonotone(q, p, h, h + 1);
      PosMonotone(q, p, h + 1, j);
      StandsStill(q, p, h);
    }
    forall h | 0 <= h < |c| ensures SilentAfter(q, c[if h == 0 then |c| - 1 else h - 1], c[h]) {
      assert c[h] == p[i + h];
      if h > 0 {
        assert c[h - 1] == p[i + h - 1];
      } else {
        assert c[|c| - 1] == p[j - 1];
      }
    }
  }

  /** A calm search never comes back to a state at the same position. */
  lemma NoRevisit(q: Query, p: seq<int>, i: nat, j: nat)
    requires Calm(q) && Sound(q, p) && i < j <= |p|
    requires StateAfter(q, p[..i]) == StateAfter(q, p[..j])
    ensures PosAfter(q, p[..i]) != PosAfter(q, p[..j])
  {
    hide PosAfter, StateAfter, Sound, SilentCycle;
    if PosAfter(q, p[..i]) == PosAfter(q, p[..j]) {
      StillMeansCycle(q, p, i, j);
    }
  }

  /** In a calm net all paths are simple, so that covering them is listing them all. */
  lemma CalmCovers(q: Query, answered: seq<seq<int>>)
    requires Calm(q)
    ensures forall p :: Sound(q, p) ==> Simple(q, p)
    ensures Covered(q, answered) <==> Complete(q, answered)
  {
    hide StateAfter, PosAfter, Sound, Calm;
    forall p | Sound(q, p) ensures Simple(q, p) {
      forall i, j | 0 <= i < j <= |p| ensures !SamePlace(q, p, i, j) {
        if StateAfter(q, p[..i]) == StateAfter(q, p[..j]) {
          NoRevisit(q, p, i, j);
        }
      }
    }
  }

  lemma {:induction false} StateAndPosRange(q: Query, n: nat, p: seq<int>)
    requires q.Valid(n) && Sound(q, p)
    ensures 0 <= StateAfter(q, p) < n && PosAfter(q, p) <= |q.input|
    decreases |p|
  {
    if p == [] {
      assert LineOk(q.lines[0], n);
    } else {
      var m := |p| - 1;
      StateAndPosRange(q, n, p[..m]);
      assert LineOk(q.lines[p[m]], n);
    }
  }

  /** `n` rows of `width`. */
  function Rows(n: nat, width: nat): nat {
    if n == 0 then 0 else Rows(n - 1, width) + width
  }

  lemma {:induction false} RowsGrow(c: nat, d: nat, width: nat)
    requires c < d
    ensures Rows(c, width) + width <= Rows(d, width)
    decreases d
  {
    if c < d - 1 {
      RowsGrow(c, d - 1, width);
    }
  }

  /** A state and a position as one number. */
  lemma PlaceCodes(s: nat, x: nat, t: nat, y: nat, n: nat, width: nat)
    requires s < n && t < n && x < width && y < width
    ensures Rows(s, width) + x < Rows(n, width)
    ensures Rows(s, width) + x == Rows(t, width) + y ==> s == t && x == y
  {
    RowsGrow(s, n, width);
    if s < t {
      RowsGrow(s, t, width);
    } else if t < s {
      RowsGrow(t, s, width);
    }
  }

  /** The longest a path of the search can be in a tame net, and one more. */
  function Depth(q: Query, n: nat): nat {
    Rows(n, 2 * (|q.input| + 1))
  }

  lemma {:induction false} PlaceOnPath(q: Query, n: nat, p: seq<int>, i: nat)
    requires q.Valid(n) && Sound(q, p) && i <= |p|
    ensures 0 <= StateAfter(q, p[..i]) < n && PosAfter(q, p[..i]) <= |q.input|
  {
    hide PosAfter, StateAfter;
    if i < |p| {
      SoundCut(q, p, i);
    } else {
      assert p[..i] == p;
    }
    StateAndPosRange(q, n, p[..i]);
  }

  /** A tame path that is back where it was has gone nowhere in between. */
  lemma RevisitStutters(q: Query, p: seq<int>, i: nat, j: nat, h: nat)
    requires Tame(q) && Sound(q, p) && i <= h < j <= |p| && SamePlace(q, p, i, j)
    ensures Stutters(q, p, h)
  {
    hide PosAfter, StateAfter, Sound, SilentCycle, ConsumesNothing;
    var c := p[i..j];
    StillMeansCycle(q, p, i, j);
    assert c[h - i] == p[h] && OwnLoop(q, c[h - i]);
    PosMonotone(q, p, i, h);
    PosMonotone(q, p, h, h + 1);
    PosMonotone(q, p, h + 1, j);
    StandsStill(q, p, h);
  }

  lemma SteadyAt(q: Query, p: seq<int>, i: nat)
    requires Steady(q, p) && i < |p|
    ensures !(Stutters(q, p, i - 1) && Stutters(q, p, i))
  {
  }

  /** A steady path is back at a place at most with the very next arc. */
  lemma RevisitIsNext(q: Query, p: seq<int>, i: nat, j: nat)
    requires Tame(q) && Sound(q, p) && Steady(q, p) && i < j <= |p| && SamePlace(q, p, i, j)
    ensures j == i + 1 && Stutters(q, p, i) && !Stutters(q, p, i - 1)
  {
    hide Tame, Sound, SamePlace, Stutters;
    SteadyAt(q, p, i);
    RevisitStutters(q, p, i, j, i);
    if j > i + 1 {
      SteadyAt(q, p, i + 1);
      RevisitStutters(q, p, i, j, i + 1);
    }
  }

  /** A number for the place after `i` arcs, another one if the path was there before. */
  function PlaceCode(q: Query, p: seq<int>, i: nat, width: nat): int
    requires i <= |p|
  {
    (if StateAfter(q, p[..i]) >= 0 then Rows(StateAfter(q, p[..i]), 2 * width) else 0) + 2 * PosAfter(q, p[..i])
    + if Stutters(q, p, i - 1) then 1 else 0
  }

  lemma PlaceCodesDiffer(q: Query, n: nat, p: seq<int>, i: nat, j: nat)
    requires q.Valid(n) && Tame(q) && Sound(q, p) && Steady(q, p) && i <= j <= |p|
    ensures var width := |q.input| + 1;
            && 0 <= PlaceCode(q, p, i, width) < Rows(n, 2 * width)
            && (i < j ==> PlaceCode(q, p, i, width) != PlaceCode(q, p, j, width))
  {
    hide Tame, Sound, Steady, PosAfter, StateAfter, Rows, Stutters;
    var width := |q.input| + 1;
    PlaceOnPath(q, n, p, i);
    PlaceOnPath(q, n, p, j);
    var x := 2 * PosAfter(q, p[..i]) + if Stutters(q, p, i - 1) then 1 else 0;
    var y := 2 * PosAfter(q, p[..j]) + if Stutters(q, p, j - 1) then 1 else 0;
    PlaceCodes(StateAfter(q, p[..i]), x, StateAfter(q, p[..j]), y, n, 2 * width);
    if i < j && SamePlace(q, p, i, j) {
      RevisitIsNext(q, p, i, j);
    }
  }

  /** A path's places have different numbers, so there are not too many of them. */
  lemma PathsAreShort(q: Query, n: nat, p: seq<int>)
    requires q.Valid(n) && Tame(q) && Sound(q, p) && Steady(q, p)
    ensures |p| < Depth(q, n)
  {
    hide Tame, Sound, Steady, PlaceCode, Rows;
    var width := |q.input| + 1;
    var codes := seq(|p| + 1, i requires 0 <= i <= |p| => PlaceCode(q, p, i, width));
    forall i, j | 0 <= i <= j < |codes|
      ensures 0 <= codes[i] < Rows(n, 2 * width) && (i < j ==> codes[i] != codes[j])
    {
      PlaceCodesDiffer(q, n, p, i, j);
    }
    Pigeonhole(codes, Rows(n, 2 * width));
  }

  // ----- How much is ahead -----

  /** An upper bound on a search through everything below a point of height `e`. */
  function Whole(size: nat, e: nat): (r: nat)
    ensures r > 0
  {
    if e == 0 then 1 else Rows(size + 1, 2 * Whole(size, e - 1))
  }

  /** What is ahead of the point `b` of a search of depth `e` over `size` lines. */
  function Ahead(b: seq<int>, size: nat, e: nat): nat
    decreases |b|
  {
    if b == [] then Whole(size, e)
    else if e == 0 then 0
    else (if 0 <= b[0] < size then Rows(size - b[0], 2 * Whole(size, e - 1)) else 0) + Ahead(b[1..], size, e - 1)
  }

  /** Behind a common front, what is ahead differs by what the rests have ahead. */
  lemma {:induction false} AheadFront(p: seq<int>, t: seq<int>, u: seq<int>, size: nat, e: nat)
    requires |p| <= e
    ensures Ahead(p + t, size, e) - Ahead(p + u, size, e) == Ahead(t, size, e - |p|) - Ahead(u, size, e - |p|)
    decreases |p|
  {
    hide Rows, Whole;
    if p == [] {
      assert p + t == t && p + u == u;
    } else {
      assert (p + t)[0] == p[0] && (p + t)[1..] == p[1..] + t;
      assert (p + u)[0] == p[0] && (p + u)[1..] == p[1..] + u;
      AheadFront(p[1..], t, u, size, e - 1);
    }
  }

  lemma AheadOfOne(k: nat, size: nat, e: nat)
    requires e > 0 && k <= size
    ensures Ahead([k], size, e) == Rows(size - k, 2 * Whole(size, e - 1)) + Whole(size, e - 1)
  {
    assert [k][1..] == [];
  }

  /** Trying the lines after `p` is less than all of `p`. */
  lemma AheadInside(p: seq<int>, size: nat, e: nat)
    requires |p| < e
    ensures Ahead(p + [0], size, e) < Ahead(p, size, e)
  {
    AheadFront(p, [0], [], size, e);
    AheadOfOne(0, size, e - |p|);
    assert p + [] == p;
  }

  /** Later lines have less ahead. */
  lemma AheadOnward(p: seq<int>, i: nat, k: nat, size: nat, e: nat)
    requires |p| < e && i <= k <= size
    ensures Ahead(p + [k], size, e) <= Ahead(p + [i], size, e)
    ensures i < k ==> Ahead(p + [k], size, e) < Ahead(p + [i], size, e)
  {
    AheadFront(p, [k], [i], size, e);
    AheadOfOne(i, size, e - |p|);
    AheadOfOne(k, size, e - |p|);
    if i < k {
      RowsGrow(size - k, size - i, 2 * Whole(size, e - |p| - 1));
    }
  }

  /** Going back from `p + [k]` leaves less ahead. */
  lemma AheadBack(p: seq<int>, k: nat, size: nat, e: nat)
    requires |p| + 1 < e && k < size
    ensures Ahead(p + [k + 1], size, e) < Ahead(p + [k] + [size], size, e)
    ensures Ahead(p + [size], size, e) < Ahead(p + [k] + [size], size, e)
  {
    hide Whole, Rows;
    var d := e - |p|;
    var below := Whole(size, d - 1);
    assert p + [k] + [size] == p + [k, size];
    AheadFront(p, [k + 1], [k, size], size, e);
    AheadFront(p, [size], [k, size], size, e);
    AheadOfOne(k + 1, size, d);
    AheadOfOne(size, size, d);
    assert [k, size][1..] == [size];
    AheadOfOne(size, size, d - 1);
    assert Ahead([k, size], size, d) == Rows(size - k, 2 * below) + Whole(size, d - 2);
    RowsGrow(size - (k + 1), size - k, 2 * below);
  }

  /** Whatever point the search has got to, less is ahead than at the start. */
  lemma {:induction false} AheadLess(b: seq<int>, size: nat, e: nat)
    ensures Ahead(b, size, e) <= Whole(size, e) && (b != [] ==> Ahead(b, size, e) < Whole(size, e))
    decreases |b|
  {
    if b != [] && e > 0 {
      AheadLess(b[1..], size, e - 1);
      if 0 < b[0] < size {
        RowsGrow(size - b[0], size, 2 * Whole(size, e - 1));
      }
    }
  }
}
