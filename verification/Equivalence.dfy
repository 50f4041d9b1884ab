/**
 The equivalence test: both nets are walked in parallel, and every discovered pair of
 states is checked for equal finality and equal sets of outgoing symbol pairs.
 */
module Equivalence {
  import opened Automata
  import opened TripletHashing
  import opened NetReading

  ghost predicate SameLanguage(m1: Machine<int>, m2: Machine<int>) {
    forall w :: Accepts(m1, w) <==> Accepts(m2, w)
  }

  /** Every arc leads somewhere: its target has an accepting continuation. */
  ghost predicate NoDeadEnds(m: Machine<int>) {
    forall a :: a in m.arcs ==> Coaccessible(m, a.tgt)
  }

  /**
   A pair passes: same finality, and each arc of one side has a partner on the other, leading to a discovered
   pair.
   */
  ghost predicate Passes(m1: Machine<int>, m2: Machine<int>, keys: seq<Triple>, t: Triple) {
    && (t.a in m1.finals <==> t.b in m2.finals)
    && (forall l, p :: Arc(t.a, l, p) in m1.arcs ==> exists q :: Arc(t.b, l, q) in m2.arcs && Triple(p, q, 0) in keys)
    && (forall l, q :: Arc(t.b, l, q) in m2.arcs ==> HasMove(m1, t.a, l))
  }

  /** Some word leads both nets to the pair. */
  ghost predicate Together(m1: Machine<int>, m2: Machine<int>, t: Triple) {
    t.c == 0 && exists u :: Reads(m1, 0, u, t.a) && Reads(m2, 0, u, t.b)
  }

  // ----- The answer "equivalent": the discovered pairs are a bisimulation -----

  lemma {:induction false} BisimilarAccept(m1: Machine<int>, m2: Machine<int>, keys: seq<Triple>, p: int, q: int,
                                           w: seq<Label>)
    requires Deterministic(m1) && Deterministic(m2)
    requires forall t :: t in keys ==> Passes(m1, m2, keys, t)
    requires Triple(p, q, 0) in keys
    ensures AcceptsFrom(m1, p, w) <==> AcceptsFrom(m2, q, w)
    decreases |w|
  {
    assert Passes(m1, m2, keys, Triple(p, q, 0));
    if w == [] {
      EmptyWord(m1, p);
      EmptyWord(m2, q);
    } else if HasMove(m1, p, w[0]) {
      var p' :| Arc(p, w[0], p') in m1.arcs;
      var q' :| Arc(q, w[0], q') in m2.arcs && Triple(p', q', 0) in keys;
      BisimilarAccept(m1, m2, keys, p', q', w[1..]);
      AfterMove(m1, p, p', w);
      AfterMove(m2, q, q', w);
    } else {
      NoMove(m1, p, w);
      assert !HasMove(m2, q, w[0]);
      NoMove(m2, q, w);
    }
  }

  lemma PassedMeansEqual(m1: Machine<int>, m2: Machine<int>, keys: seq<Triple>)
    requires Deterministic(m1) && Deterministic(m2) && m1.starts == iset{0} && m2.starts == iset{0}
    requires Triple(0, 0, 0) in keys && (forall t :: t in keys ==> Passes(m1, m2, keys, t))
    ensures SameLanguage(m1, m2)
  {
    forall w ensures Accepts(m1, w) <==> Accepts(m2, w) {
      AcceptsFromStart(m1, w);
      AcceptsFromStart(m2, w);
      BisimilarAccept(m1, m2, keys, 0, 0, w);
    }
  }

  // ----- The answer "not equivalent": a mismatch yields a separating word -----

  /** After a common word, the residual languages agree if the languages do. */
  lemma SameAfter(m1: Machine<int>, m2: Machine<int>, u: seq<Label>, p: int, q: int, v: seq<Label>)
    requires Deterministic(m1) && Deterministic(m2) && m1.starts == iset{0} && m2.starts == iset{0}
    requires SameLanguage(m1, m2) && Reads(m1, 0, u, p) && Reads(m2, 0, u, q)
    requires AcceptsFrom(m1, p, v)
    ensures AcceptsFrom(m2, q, v)
  {
    var f := AcceptingEnd(m1, p, v);
    ReadsAppend(m1, 0, u, p, v, f);
    assert Accepts(m1, u + v);
    var s, g := AcceptingPath(m2, u + v);
    var r := ReadsSplit(m2, 0, u, v, g);
    ReadsFunctional(m2, 0, u, q, r);
  }

  lemma FinalMismatch(m1: Machine<int>, m2: Machine<int>, t: Triple)
    requires Deterministic(m1) && Deterministic(m2) && m1.starts == iset{0} && m2.starts == iset{0}
    requires Together(m1, m2, t) && !(t.a in m1.finals <==> t.b in m2.finals)
    ensures !SameLanguage(m1, m2)
  {
    var u :| Reads(m1, 0, u, t.a) && Reads(m2, 0, u, t.b);
    EmptyWord(m1, t.a);
    EmptyWord(m2, t.b);
    if SameLanguage(m1, m2) {
      if t.a in m1.finals {
        SameAfter(m1, m2, u, t.a, t.b, []);
      } else {
        SameAfter(m2, m1, u, t.b, t.a, []);
      }
    }
  }

  lemma ArcMismatch(m1: Machine<int>, m2: Machine<int>, p: int, q: int, u: seq<Label>, l: Label, r: int)
    requires Deterministic(m1) && Deterministic(m2) && m1.starts == iset{0} && m2.starts == iset{0}
    requires NoDeadEnds(m1) && Reads(m1, 0, u, p) && Reads(m2, 0, u, q)
    requires Arc(p, l, r) in m1.arcs && !HasMove(m2, q, l)
    ensures !SameLanguage(m1, m2)
  {
    var a := Arc(p, l, r);
    assert a in m1.arcs && Coaccessible(m1, a.tgt);
    var v :| AcceptsFrom(m1, r, v);
    var f := AcceptingEnd(m1, r, v);
    ReadsCons(m1, p, l, r, v, f);
    var x := [l] + v;
    assert AcceptsFrom(m1, p, x) && x[0] == l;
    NoMove(m2, q, x);
    if SameLanguage(m1, m2) {
      SameAfter(m1, m2, u, p, q, x);
    }
  }

  // ----- The algorithm -----

  ghost predicate StackOk(stack: seq<Triple>, keys: seq<Triple>, done: set<Triple>) {
    && (forall t :: t in stack ==> t in keys && t !in done)
    && (forall i, j :: 0 <= i < j < |stack| ==> stack[i] != stack[j])
    && (forall t :: t in keys ==> t in stack || t in done)
    && (forall t :: t in done ==> t in keys)
  }

  /** Arcs of the pair's left state on lines `lo..i` have partners leading to discovered pairs. */
  ghost predicate LeftMatched(m2: Machine<int>, keys: seq<Triple>, q: int, a: seq<Line>, lo: int, i: int)
    requires 0 <= lo <= i <= |a|
  {
    forall k :: lo <= k < i && a[k].target >= 0 ==>
                  exists r :: Arc(q, a[k].ToLabel(), r) in m2.arcs && Triple(a[k].target, r, 0) in keys
  }

  /** The situation while the pair `cur` is examined; all pairs in `done` but `cur` have passed. */
  ghost predicate Examining(m1: Machine<int>, m2: Machine<int>, stack: seq<Triple>, keys: seq<Triple>,
                            done: set<Triple>, cur: Triple) {
    && StackOk(stack, keys, done)
    && (forall t :: t in keys ==> Together(m1, m2, t))
    && (forall t :: t in done && t != cur ==> Passes(m1, m2, keys, t))
  }

  lemma PassesKept(m1: Machine<int>, m2: Machine<int>, keys: seq<Triple>, t: Triple, x: Triple)
    requires Passes(m1, m2, keys, t)
    ensures Passes(m1, m2, keys + [x], t)
  {
    forall l, p | Arc(t.a, l, p) in m1.arcs
      ensures exists q :: Arc(t.b, l, q) in m2.arcs && Triple(p, q, 0) in keys + [x]
    {
      var q :| Arc(t.b, l, q) in m2.arcs && Triple(p, q, 0) in keys;
    }
  }

  lemma Discovered(m1: Machine<int>, m2: Machine<int>, stack: seq<Triple>, keys: seq<Triple>, done: set<Triple>,
                   cur: Triple, x: Triple)
    requires Examining(m1, m2, stack, keys, done, cur) && x !in keys && Together(m1, m2, x)
    ensures Examining(m1, m2, stack + [x], keys + [x], done, cur)
  {
    forall t | t in done && t != cur ensures Passes(m1, m2, keys + [x], t) {
      PassesKept(m1, m2, keys, t, x);
    }
    assert forall t :: t in stack + [x] <==> t in stack || t == x;
  }

  lemma TogetherNext(m1: Machine<int>, m2: Machine<int>, t: Triple, l: Label, p: int, q: int)
    requires Together(m1, m2, t) && Arc(t.a, l, p) in m1.arcs && Arc(t.b, l, q) in m2.arcs
    ensures Together(m1, m2, Triple(p, q, 0))
  {
    var u :| Reads(m1, 0, u, t.a) && Reads(m2, 0, u, t.b);
    ReadsOne(m1, t.a, l, p);
    ReadsOne(m2, t.b, l, q);
    ReadsAppend(m1, 0, u, t.a, [l], p);
    ReadsAppend(m2, 0, u, t.b, [l], q);
  }

  class Walk {
    const th: TripletHash
    var stack: seq<Triple>
    ghost var done: set<Triple>

    constructor ()
      ensures th.Valid() && fresh(th) && fresh(th.triplets)
      ensures th.keys == [Triple(0, 0, 0)] && stack == [Triple(0, 0, 0)] && done == {}
    {
      th := new TripletHash();
      stack := [Triple(0, 0, 0)];
      done := {};
      new;
      var key := th.Insert(Triple(0, 0, 0));
    }

    /** Pushes the pair unless it has been discovered before. */
    method Visit(t: Triple, ghost m1: Machine<int>, ghost m2: Machine<int>, ghost cur: Triple)
      requires th.Valid() && Examining(m1, m2, stack, th.keys, done, cur) && Together(m1, m2, t)
      modifies this`stack, th, th.triplets
      ensures th.Valid() && (th.triplets == old(th.triplets) || fresh(th.triplets))
      ensures Examining(m1, m2, stack, th.keys, done, cur)
      ensures old(th.keys) <= th.keys && t in th.keys
    {
      hide Examining, Together, TripletHash.Valid;
      var key := th.Find(t);
      if key == -1 {
        Discovered(m1, m2, stack, th.keys, done, cur, t);
        stack := stack + [t];
        key := th.Insert(t);
      }
    }
  }

  /** Every arc of the left state must have a partner; the pairs of targets are discovered. */
  method MatchLeft(walk: Walk, a: seq<Line>, na: nat, pointA: StatePointer, b: seq<Line>, nb: nat, pointB: StatePointer,
                   cur: Triple)
    returns (matched: bool)
    requires WellFormed(a, na) && PointsAt(pointA, a, cur.a) && ArclessAlone(a)
    requires WellFormed(b, nb) && PointsAt(pointB, b, cur.b)
    requires walk.th.Valid() && Examining(MachineOf(a), MachineOf(b), walk.stack, walk.th.keys, walk.done, cur)
    requires Together(MachineOf(a), MachineOf(b), cur)
    modifies walk`stack, walk.th, walk.th.triplets
    ensures walk.th.Valid() && (walk.th.triplets == old(walk.th.triplets) || fresh(walk.th.triplets))
    ensures Examining(MachineOf(a), MachineOf(b), walk.stack, walk.th.keys, walk.done, cur)
    ensures old(walk.th.keys) <= walk.th.keys
    ensures matched ==> forall l, p :: Arc(cur.a, l, p) in ArcsOf(a) ==>
                                       exists q :: Arc(cur.b, l, q) in ArcsOf(b) && Triple(p, q, 0) in walk.th.keys
    ensures !matched ==> exists l, p :: Arc(cur.a, l, p) in ArcsOf(a) && !HasMove(MachineOf(b), cur.b, l)
  {
    hide Examining, Together, TripletHash.Valid, LeftMatched, WellFormed, ArclessAlone;
    ghost var m1, m2 := MachineOf(a), MachineOf(b);
    ghost var lo := pointA.transitions;
    var i := pointA.transitions;
    NoneMatched(m2, walk.th.keys, cur.b, a, lo);
    while i < |a| && a[i].state == cur.a
      invariant lo <= i <= |a| && (forall k :: lo <= k < i ==> a[k].state == cur.a)
      invariant walk.th.Valid() && (walk.th.triplets == old(walk.th.triplets) || fresh(walk.th.triplets))
      invariant Examining(m1, m2, walk.stack, walk.th.keys, walk.done, cur)
      invariant old(walk.th.keys) <= walk.th.keys
      invariant LeftMatched(m2, walk.th.keys, cur.b, a, lo, i)
    {
      if a[i].target == -1 {
        break;
      }
      ArcLineTarget(a, na, i);
      LineIsArc(a, i);
      var btarget := FindTarget(b, nb, cur.b, pointB, a[i].upper, a[i].lower);
      if btarget == -1 {
        assert Arc(cur.a, a[i].ToLabel(), a[i].target) in ArcsOf(a) && !HasMove(m2, cur.b, a[i].ToLabel());
        return false;
      }
      TogetherNext(m1, m2, cur, a[i].ToLabel(), a[i].target, btarget);
      ghost var keys := walk.th.keys;
      walk.Visit(Triple(a[i].target, btarget, 0), m1, m2, cur);
      OneMoreMatched(m2, keys, walk.th.keys, cur.b, a, lo, i, btarget);
      i := i + 1;
    }
    LeftDone(m2, walk.th.keys, cur, a, na, pointA, i);
    matched := true;
  }

  lemma NoneMatched(m2: Machine<int>, keys: seq<Triple>, q: int, a: seq<Line>, lo: int)
    requires 0 <= lo <= |a|
    ensures LeftMatched(m2, keys, q, a, lo, lo)
  {
  }

  lemma OneMoreMatched(m2: Machine<int>, keys: seq<Triple>, keys': seq<Triple>, q: int, a: seq<Line>, lo: int, i: int,
                       r: int)
    requires 0 <= lo <= i < |a| && LeftMatched(m2, keys, q, a, lo, i) && keys <= keys'
    requires Arc(q, a[i].ToLabel(), r) in m2.arcs && Triple(a[i].target, r, 0) in keys'
    ensures LeftMatched(m2, keys', q, a, lo, i + 1)
  {
    forall k | lo <= k < i && a[k].target >= 0
      ensures exists s :: Arc(q, a[k].ToLabel(), s) in m2.arcs && Triple(a[k].target, s, 0) in keys'
    {
      var s :| Arc(q, a[k].ToLabel(), s) in m2.arcs && Triple(a[k].target, s, 0) in keys;
      assert Triple(a[k].target, s, 0) in keys';
    }
  }

  lemma LeftDone(m2: Machine<int>, keys: seq<Triple>, cur: Triple, a: seq<Line>, na: nat, pointA: StatePointer, i: int)
    requires WellFormed(a, na) && PointsAt(pointA, a, cur.a) && ArclessAlone(a)
    requires pointA.transitions <= i <= |a| && (forall k :: pointA.transitions <= k < i ==> a[k].state == cur.a)
    requires i == |a| || a[i].state != cur.a || a[i].target == -1
    requires LeftMatched(m2, keys, cur.b, a, pointA.transitions, i)
    ensures forall l, p :: Arc(cur.a, l, p) in ArcsOf(a) ==>
                           exists q :: Arc(cur.b, l, q) in m2.arcs && Triple(p, q, 0) in keys
  {
    forall l, p | Arc(cur.a, l, p) in ArcsOf(a)
      ensures exists q :: Arc(cur.b, l, q) in m2.arcs && Triple(p, q, 0) in keys
    {
      var k := ArcLine(a, Arc(cur.a, l, p));
      assert pointA.transitions <= k < i;
    }
  }

  /** Every arc of the right state must have a partner on the left. */
  method MatchRight(a: seq<Line>, na: nat, pointA: StatePointer, p: int, b: seq<Line>, nb: nat, pointB: StatePointer,
                    q: int)
    returns (matched: bool)
    requires WellFormed(a, na) && PointsAt(pointA, a, p)
    requires WellFormed(b, nb) && PointsAt(pointB, b, q) && ArclessAlone(b)
    ensures matched ==> forall l, r :: Arc(q, l, r) in ArcsOf(b) ==> HasMove(MachineOf(a), p, l)
    ensures !matched ==> exists l, r :: Arc(q, l, r) in ArcsOf(b) && !HasMove(MachineOf(a), p, l)
  {
    hide HasMove;
    ghost var m1 := MachineOf(a);
    var i := pointB.transitions;
    while i < |b| && b[i].state == q
      invariant pointB.transitions <= i <= |b|
      invariant forall k :: pointB.transitions <= k < i ==> b[k].state == q && HasMove(m1, p, b[k].ToLabel())
    {
      if b[i].target == -1 {
        break;
      }
      ArcLineTarget(b, nb, i);
      LineIsArc(b, i);
      var atarget := FindTarget(a, na, p, pointA, b[i].upper, b[i].lower);
      if atarget == -1 {
        assert Arc(q, b[i].ToLabel(), b[i].target) in ArcsOf(b) && !HasMove(m1, p, b[i].ToLabel());
        return false;
      }
      MoveFound(m1, p, b[i].ToLabel(), atarget);
      i := i + 1;
    }
    forall l, r | Arc(q, l, r) in ArcsOf(b) ensures HasMove(m1, p, l) {
      var k := ArcLine(b, Arc(q, l, r));
      assert pointB.transitions <= k < i;
    }
    matched := true;
  }

  /** Examines the pair on top of the stack. */
  method ExaminePair(walk: Walk, a: seq<Line>, na: nat, pointA: seq<StatePointer>, b: seq<Line>, nb: nat,
                     pointB: seq<StatePointer>)
    returns (ok: bool)
    requires WellFormed(a, na) && PointsInto(pointA, a, na) && ArclessAlone(a)
    requires WellFormed(b, nb) && PointsInto(pointB, b, nb) && ArclessAlone(b)
    requires walk.th.Valid() && Examining(MachineOf(a), MachineOf(b), walk.stack, walk.th.keys, walk.done, NO_PAIR)
             && walk.stack != []
    modifies walk, walk.th, walk.th.triplets
    ensures walk.th.Valid() && (walk.th.triplets == old(walk.th.triplets) || fresh(walk.th.triplets))
    ensures old(walk.th.keys) <= walk.th.keys
    ensures ok ==> Examining(MachineOf(a), MachineOf(b), walk.stack, walk.th.keys, walk.done, NO_PAIR)
    ensures ok ==> old(walk.done) < walk.done <= Pairs(na, nb)
    ensures !ok ==> exists t :: Mismatch(MachineOf(a), MachineOf(b), t)
  {
    hide Examining, Together, TripletHash.Valid, WellFormed, ArclessAlone, PointsAt, Mismatch;
    ghost var m1, m2 := MachineOf(a), MachineOf(b);
    var t := walk.stack[|walk.stack| - 1];
    Popped(m1, m2, walk.stack, walk.th.keys, walk.done);
    walk.stack := walk.stack[..|walk.stack| - 1];
    walk.done := walk.done + {t};
    PairInRange(a, na, b, nb, walk.stack, walk.th.keys, walk.done, t);
    PointerFlags(a, na, t.a, pointA[t.a]);
    PointerFlags(b, nb, t.b, pointB[t.b]);
    if pointA[t.a].final != pointB[t.b].final {
      FinalsDiffer(m1, m2, t);
      return false;
    }
    var left := MatchLeft(walk, a, na, pointA[t.a], b, nb, pointB[t.b], t);
    if !left {
      LeftDiffers(m1, m2, t);
      return false;
    }
    var right := MatchRight(a, na, pointA[t.a], t.a, b, nb, pointB[t.b], t.b);
    if !right {
      RightDiffers(m1, m2, t);
      return false;
    }
    AllPassed(m1, m2, walk.stack, walk.th.keys, walk.done, t);
    PairInRange(a, na, b, nb, walk.stack, walk.th.keys, walk.done, t);
    ok := true;
  }

  /** Stands for "no pair under examination": no reachable pair has this mode. */
  const NO_PAIR := Triple(0, 0, 1)

  ghost function Pairs(na: nat, nb: nat): set<Triple> {
    set p, q | 0 <= p < na && 0 <= q < nb :: Triple(p, q, 0)
  }

  /** A pair that some word leads to and that does not pass. */
  ghost predicate Mismatch(m1: Machine<int>, m2: Machine<int>, t: Triple) {
    && Together(m1, m2, t)
    && (|| !(t.a in m1.finals <==> t.b in m2.finals)
        || (exists l, p :: Arc(t.a, l, p) in m1.arcs && !HasMove(m2, t.b, l))
        || (exists l, q :: Arc(t.b, l, q) in m2.arcs && !HasMove(m1, t.a, l)))
  }

  lemma FinalsDiffer(m1: Machine<int>, m2: Machine<int>, t: Triple)
    requires Together(m1, m2, t) && !(t.a in m1.finals <==> t.b in m2.finals)
    ensures Mismatch(m1, m2, t)
  {
  }

  lemma LeftDiffers(m1: Machine<int>, m2: Machine<int>, t: Triple)
    requires Together(m1, m2, t) && exists l, p :: Arc(t.a, l, p) in m1.arcs && !HasMove(m2, t.b, l)
    ensures Mismatch(m1, m2, t)
  {
  }

  lemma RightDiffers(m1: Machine<int>, m2: Machine<int>, t: Triple)
    requires Together(m1, m2, t) && exists l, q :: Arc(t.b, l, q) in m2.arcs && !HasMove(m1, t.a, l)
    ensures Mismatch(m1, m2, t)
  {
  }

  lemma Popped(m1: Machine<int>, m2: Machine<int>, stack: seq<Triple>, keys: seq<Triple>, done: set<Triple>)
    requires Examining(m1, m2, stack, keys, done, NO_PAIR) && stack != []
    ensures var t := stack[|stack| - 1];
            && Examining(m1, m2, stack[..|stack| - 1], keys, done + {t}, t) && Together(m1, m2, t) && t !in done
  {
    var t := stack[|stack| - 1];
    assert t in stack;
    assert forall s :: s in stack <==> s in stack[..|stack| - 1] || s == t;
  }

  lemma AllPassed(m1: Machine<int>, m2: Machine<int>, stack: seq<Triple>, keys: seq<Triple>, done: set<Triple>,
                  t: Triple)
    requires Examining(m1, m2, stack, keys, done, t) && Passes(m1, m2, keys, t)
    ensures Examining(m1, m2, stack, keys, done, NO_PAIR)
  {
  }

  lemma PairInRange(a: seq<Line>, na: nat, b: seq<Line>, nb: nat, stack: seq<Triple>, keys: seq<Triple>,
                    done: set<Triple>, cur: Triple)
    requires WellFormed(a, na) && WellFormed(b, nb)
    requires Examining(MachineOf(a), MachineOf(b), stack, keys, done, cur)
    ensures done <= Pairs(na, nb)
    ensures cur in done ==> 0 <= cur.a < na && 0 <= cur.b < nb
  {
    forall t | t in done ensures t in Pairs(na, nb) {
      assert Together(MachineOf(a), MachineOf(b), t);
      var u :| Reads(MachineOf(a), 0, u, t.a) && Reads(MachineOf(b), 0, u, t.b);
      ReadsInRange(a, na, 0, u, t.a);
      ReadsInRange(b, nb, 0, u, t.b);
    }
  }

  lemma {:induction false} ReadsInRange(a: seq<Line>, na: nat, p: int, w: seq<Label>, q: int)
    requires WellFormed(a, na) && 0 <= p < na && Reads(MachineOf(a), p, w, q)
    ensures 0 <= q < na
    decreases |w|
  {
    if w != [] {
      var r := ReadsHead(MachineOf(a), p, w, q);
      ArcInRange(a, na, Arc(p, w[0], r));
      ReadsInRange(a, na, r, w[1..], q);
    }
  }

  /** A mismatch separates the languages of nets without dead ends. */
  lemma MismatchSeparates(m1: Machine<int>, m2: Machine<int>, t: Triple)
    requires Deterministic(m1) && Deterministic(m2) && m1.starts == iset{0} && m2.starts == iset{0}
    requires NoDeadEnds(m1) && NoDeadEnds(m2) && Mismatch(m1, m2, t)
    ensures !SameLanguage(m1, m2)
  {
    hide Deterministic, NoDeadEnds, SameLanguage, HasMove;
    if !(t.a in m1.finals <==> t.b in m2.finals) {
      FinalMismatch(m1, m2, t);
    } else {
      var u :| Reads(m1, 0, u, t.a) && Reads(m2, 0, u, t.b);
      if exists l, p :: Arc(t.a, l, p) in m1.arcs && !HasMove(m2, t.b, l) {
        var l, p :| Arc(t.a, l, p) in m1.arcs && !HasMove(m2, t.b, l);
        ArcMismatch(m1, m2, t.a, t.b, u, l, p);
      } else {
        var l, q :| Arc(t.b, l, q) in m2.arcs && !HasMove(m1, t.a, l);
        ArcMismatch(m2, m1, t.b, t.a, u, l, q);
        Symmetric(m1, m2);
      }
    }
  }

  lemma Symmetric(m1: Machine<int>, m2: Machine<int>)
    ensures SameLanguage(m1, m2) <==> SameLanguage(m2, m1)
  {
  }

  // ----- The exact answer -----

  /** A path from the start spells the word, wherever it ends. */
  ghost predicate Walks(m: Machine<int>, w: seq<Label>) {
    exists q :: Reads(m, 0, w, q)
  }

  ghost predicate SamePaths(m1: Machine<int>, m2: Machine<int>) {
    forall w :: Walks(m1, w) <==> Walks(m2, w)
  }

  predicate AnyState(q: int) {
    true
  }

  /** The machine with all its states final: it accepts what the original can walk. */
  ghost function AllFinal(m: Machine<int>): Machine<int> {
    Machine(m.arcs, m.starts, iset q: int | AnyState(q))
  }

  lemma {:induction false} ReadsByArcs(m: Machine<int>, n: Machine<int>, p: int, w: seq<Label>, q: int)
    requires m.arcs == n.arcs && Reads(m, p, w, q)
    ensures Reads(n, p, w, q)
    decreases |w|
  {
    if w != [] {
      var r := ReadsHead(m, p, w, q);
      ReadsByArcs(m, n, r, w[1..], q);
    }
  }

  lemma AllFinalAccepts(m: Machine<int>, w: seq<Label>)
    requires m.starts == iset{0}
    ensures Accepts(AllFinal(m), w) <==> Walks(m, w)
  {
    if Accepts(AllFinal(m), w) {
      var p, q := AcceptingPath(AllFinal(m), w);
      ReadsByArcs(AllFinal(m), m, p, w, q);
    }
    if Walks(m, w) {
      var q :| Reads(m, 0, w, q);
      ReadsByArcs(m, AllFinal(m), 0, w, q);
    }
  }

  lemma PathsAreLanguage(m1: Machine<int>, m2: Machine<int>)
    requires m1.starts == iset{0} && m2.starts == iset{0}
    ensures SameLanguage(AllFinal(m1), AllFinal(m2)) <==> SamePaths(m1, m2)
  {
    hide Walks;
    forall w ensures Accepts(AllFinal(m1), w) <==> Walks(m1, w) {
      AllFinalAccepts(m1, w);
    }
    forall w ensures Accepts(AllFinal(m2), w) <==> Walks(m2, w) {
      AllFinalAccepts(m2, w);
    }
  }

  lemma PassedMeansSamePaths(m1: Machine<int>, m2: Machine<int>, keys: seq<Triple>)
    requires Deterministic(m1) && Deterministic(m2) && m1.starts == iset{0} && m2.starts == iset{0}
    requires Triple(0, 0, 0) in keys && (forall t :: t in keys ==> Passes(m1, m2, keys, t))
    ensures SamePaths(m1, m2)
  {
    forall t | t in keys ensures Passes(AllFinal(m1), AllFinal(m2), keys, t) {
      assert Passes(m1, m2, keys, t);
      MovesByArcs(m1, t.a);
    }
    PassedMeansEqual(AllFinal(m1), AllFinal(m2), keys);
    PathsAreLanguage(m1, m2);
  }

  lemma MovesByArcs(m: Machine<int>, p: int)
    ensures forall l :: HasMove(m, p, l) <==> HasMove(AllFinal(m), p, l)
  {
  }

  /** A mismatch always shows: in the language, or in what the nets can walk. */
  lemma MismatchShows(m1: Machine<int>, m2: Machine<int>, t: Triple)
    requires Deterministic(m1) && Deterministic(m2) && m1.starts == iset{0} && m2.starts == iset{0}
             && Mismatch(m1, m2, t)
    ensures !SameLanguage(m1, m2) || !SamePaths(m1, m2)
  {
    hide Deterministic, SameLanguage, SamePaths, Together, HasMove;
    if !(t.a in m1.finals <==> t.b in m2.finals) {
      FinalMismatch(m1, m2, t);
    } else {
      var n1, n2 := AllFinal(m1), AllFinal(m2);
      MovesByArcs(m1, t.a);
      MovesByArcs(m2, t.b);
      TogetherByArcs(m1, m2, t);
      StillDeterministic(m1);
      StillDeterministic(m2);
      AllFinalLive(m1);
      AllFinalLive(m2);
      MismatchSeparates(n1, n2, t);
      PathsAreLanguage(m1, m2);
    }
  }

  lemma TogetherByArcs(m1: Machine<int>, m2: Machine<int>, t: Triple)
    requires Together(m1, m2, t)
    ensures Together(AllFinal(m1), AllFinal(m2), t)
  {
    var u :| Reads(m1, 0, u, t.a) && Reads(m2, 0, u, t.b);
    ReadsByArcs(m1, AllFinal(m1), 0, u, t.a);
    ReadsByArcs(m2, AllFinal(m2), 0, u, t.b);
  }

  lemma StillDeterministic(m: Machine<int>)
    requires Deterministic(m)
    ensures Deterministic(AllFinal(m))
  {
  }

  lemma AllFinalLive(m: Machine<int>)
    ensures NoDeadEnds(AllFinal(m))
  {
    var n := AllFinal(m);
    forall a | a in n.arcs ensures Coaccessible(n, a.tgt) {
      EmptyWord(n, a.tgt);
      assert AcceptsFrom(n, a.tgt, []);
    }
  }

  /** Without dead ends, equal languages mean equal paths. */
  lemma {:induction false} LiveWalks(m1: Machine<int>, m2: Machine<int>, w: seq<Label>)
    requires m1.starts == iset{0} && m2.starts == iset{0} && NoDeadEnds(m1) && SameLanguage(m1, m2) && Walks(m1, w)
    ensures Walks(m2, w)
  {
    if w == [] {
      assert Reads(m2, 0, [], 0);
    } else {
      var n := |w| - 1;
      var q :| Reads(m1, 0, w, q);
      assert w == w[..n] + [w[n]];
      var p := ReadsSplit(m1, 0, w[..n], [w[n]], q);
      ReadsOne(m1, p, w[n], q);
      var a := Arc(p, w[n], q);
      assert a in m1.arcs && Coaccessible(m1, a.tgt);
      var v :| AcceptsFrom(m1, q, v);
      var f := AcceptingEnd(m1, q, v);
      ReadsAppend(m1, 0, w, q, v, f);
      assert Accepts(m1, w + v);
      var s, g := AcceptingPath(m2, w + v);
      var r := ReadsSplit(m2, 0, w, v, g);
    }
  }

  lemma LiveSamePaths(m1: Machine<int>, m2: Machine<int>)
    requires m1.starts == iset{0} && m2.starts == iset{0} && NoDeadEnds(m1) && NoDeadEnds(m2) && SameLanguage(m1, m2)
    ensures SamePaths(m1, m2)
  {
    hide NoDeadEnds, Walks;
    forall w ensures Walks(m1, w) <==> Walks(m2, w) {
      if Walks(m1, w) {
        LiveWalks(m1, m2, w);
      }
      if Walks(m2, w) {
        Symmetric(m1, m2);
        LiveWalks(m2, m1, w);
      }
    }
  }

  /** A net that `Equivalent` takes. */
  ghost predicate Comparable(a: seq<Line>, n: nat) {
    WellFormed(a, n) && ArclessAlone(a) && Deterministic(MachineOf(a)) && MachineOf(a).starts == iset{0}
  }

  /** One state, no arc, nothing final. */
  const BARE_NET := [Line(0, -1, -1, -1, false, true)]

  /** An arc to a state from which nothing is accepted. */
  const DEAD_END_NET := [Line(0, 3, 3, 1, false, true), Line(1, -1, -1, -1, false, false)]

  lemma BareMachine()
    ensures MachineOf(BARE_NET) == Machine(iset{}, iset{0}, iset{})
  {
    var a := BARE_NET;
    assert a[0] in a && forall l :: l in a ==> l == a[0];
    assert ArcsOf(a) == iset{};
    assert (iset l | l in a && l.start :: l.state) == iset{0};
    assert (iset l | l in a && l.final :: l.state) == iset{};
  }

  /** A net with one line for each state. */
  lemma OneLineEach(b: seq<Line>)
    requires b != [] && forall i :: 0 <= i < |b| ==> b[i].state == i && LineOk(b[i], |b|)
    ensures WellFormed(b, |b|) && ArclessAlone(b)
  {
    hide LineOk;
    forall p | 0 <= p < |b| ensures HasState(b, p) {
      assert b[p].state == p;
    }
  }

  lemma BareShape()
    ensures WellFormed(BARE_NET, 1) && ArclessAlone(BARE_NET)
  {
    OneLineEach(BARE_NET);
  }

  lemma DeadEndMachine()
    ensures MachineOf(DEAD_END_NET) == Machine(iset{Arc(0, Label(3, 3), 1)}, iset{0}, iset{})
  {
    var b := DEAD_END_NET;
    assert b[0] in b && b[1] in b && forall l :: l in b ==> l == b[0] || l == b[1];
    assert b[0].ToArc() == Arc(0, Label(3, 3), 1);
    assert ArcsOf(b) == iset{Arc(0, Label(3, 3), 1)};
    assert (iset l | l in b && l.start :: l.state) == iset{0};
    assert (iset l | l in b && l.final :: l.state) == iset{};
  }

  lemma DeadEndShape()
    ensures WellFormed(DEAD_END_NET, 2) && ArclessAlone(DEAD_END_NET)
  {
    OneLineEach(DEAD_END_NET);
  }

  /** Both nets accept nothing, but only one has an arc, so the test tells them apart. */
  lemma DeadEndsTellApart()
    ensures Comparable(BARE_NET, 1) && Comparable(DEAD_END_NET, 2)
    ensures SameLanguage(MachineOf(BARE_NET), MachineOf(DEAD_END_NET))
    ensures !SamePaths(MachineOf(BARE_NET), MachineOf(DEAD_END_NET))
  {
    hide WellFormed, ArclessAlone, MachineOf, Reads;
    BareMachine();
    BareShape();
    DeadEndMachine();
    DeadEndShape();
    var m1, m2 := MachineOf(BARE_NET), MachineOf(DEAD_END_NET);
    ReadsOne(m2, 0, Label(3, 3), 1);
    assert Walks(m2, [Label(3, 3)]);
    forall q ensures !Reads(m1, 0, [Label(3, 3)], q) {
      ReadsOne(m1, 0, Label(3, 3), q);
    }
    assert !Walks(m1, [Label(3, 3)]);
  }

  /**
   Compares deterministic nets. They are found equivalent exactly when they accept the same words
   and can walk the same words; if no arc of either leads to a dead end, the first says it all.
   */
  method Equivalent(a: seq<Line>, na: nat, b: seq<Line>, nb: nat) returns (equivalent: bool)
    requires WellFormed(a, na) && ArclessAlone(a) && WellFormed(b, nb) && ArclessAlone(b)
    requires Deterministic(MachineOf(a)) && Deterministic(MachineOf(b))
    requires MachineOf(a).starts == iset{0} && MachineOf(b).starts == iset{0}
    ensures equivalent <==> SameLanguage(MachineOf(a), MachineOf(b)) && SamePaths(MachineOf(a), MachineOf(b))
    ensures NoDeadEnds(MachineOf(a)) && NoDeadEnds(MachineOf(b)) ==>
              (equivalent <==> SameLanguage(MachineOf(a), MachineOf(b)))
  {
    hide Examining, TripletHash.Valid, WellFormed, ArclessAlone, PointsInto, Mismatch, Deterministic, NoDeadEnds,
         SameLanguage,
      SamePaths, Together;
    ghost var m1, m2 := MachineOf(a), MachineOf(b);
    if NoDeadEnds(m1) && NoDeadEnds(m2) && SameLanguage(m1, m2) {
      LiveSamePaths(m1, m2);
    }
    var walk := new Walk();
    FirstPair(m1, m2);
    var pointA := InitStatePointers(a, na);
    var pointB := InitStatePointers(b, nb);
    while walk.stack != []
      invariant fresh(walk) && fresh(walk.th) && fresh(walk.th.triplets)
      invariant walk.th.Valid() && Examining(m1, m2, walk.stack, walk.th.keys, walk.done, NO_PAIR)
      invariant [Triple(0, 0, 0)] <= walk.th.keys
      decreases Pairs(na, nb) - walk.done
    {
      var ok := ExaminePair(walk, a, na, pointA, b, nb, pointB);
      if !ok {
        ghost var t :| Mismatch(m1, m2, t);
        MismatchShows(m1, m2, t);
        return false;
      }
    }
    assert walk.th.keys[0] == Triple(0, 0, 0);
    EverythingPassed(m1, m2, walk.th.keys, walk.done);
    PassedMeansEqual(m1, m2, walk.th.keys);
    PassedMeansSamePaths(m1, m2, walk.th.keys);
    equivalent := true;
  }

  lemma FirstPair(m1: Machine<int>, m2: Machine<int>)
    ensures Examining(m1, m2, [Triple(0, 0, 0)], [Triple(0, 0, 0)], {}, NO_PAIR)
  {
    assert Reads(m1, 0, [], 0) && Reads(m2, 0, [], 0);
  }

  lemma EverythingPassed(m1: Machine<int>, m2: Machine<int>, keys: seq<Triple>, done: set<Triple>)
    requires Examining(m1, m2, [], keys, done, NO_PAIR)
    ensures forall t :: t in keys ==> Passes(m1, m2, keys, t)
  {
    forall t | t in keys ensures Passes(m1, m2, keys, t) {
      assert t in done && Together(m1, m2, t);
    }
  }
}
