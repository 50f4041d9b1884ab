/**
 Determinization by subset construction. The arcs of a set of states are walked in one merge
 over the sorted transition lists of its states, symbol by symbol; timestamps keep each target
 set free of duplicates, and are what the set table compares sets by.
 */
module Determinization {
  import opened Automata
  import opened Counting
  import opened NetBuilding
  import opened NetReading
  import opened SetNumbering
  import opened Subsets
  import opened TransitionLists
  import opened EpsilonClosures
  import opened SubsetBuilding
  import opened Worklist

  const INT_MAX: int := 0x7fff_ffff

  // ----- Collecting a target set -----

  /** The tables that targets are collected and closed in, and the clock they are stamped with. */
  class Collector {
    const eTable: array<int>
    const tempMove: array<int>
    const marks: array<int>
    const markTable: array<int>
    const memo: seq<seq<int>>
    /** Number of the 0:0 pair, or -1 if the net has none. */
    const epsilon: int
    var mainloop: int
    ghost const m: Machine<int>
    ghost const n: nat

    ghost predicate Wired() {
      && Apart(marks, markTable, eTable, tempMove, n) && InRange(m, n)
      && (if epsilon == -1 then forall a :: a in m.arcs ==> a.lab != EPSILON_PAIR else MemoOk(memo, m, n))
    }

    /** Nothing carries the current time yet. */
    ghost predicate Ready()
      reads this, eTable, marks, markTable
    {
      Wired() && NotYet(eTable[..], mainloop) && NotYet(marks[..], mainloop) && NotYet(markTable[..], mainloop)
    }

    /** The first `j` cells hold the targets found so far, which are what carries the current time. */
    ghost predicate Collecting(j: nat)
      reads this, eTable, tempMove, marks, markTable
    {
      && Wired() && j <= n && NotYet(marks[..], mainloop) && NotYet(markTable[..], mainloop)
         && AtMost(eTable[..], mainloop)
      && Distinct(tempMove[..j]) && StampedAs(eTable[..], mainloop, tempMove[..j])
    }

    constructor (memo: seq<seq<int>>, epsilon: int, ghost m: Machine<int>, ghost n: nat, eTable: array<int>,
                 tempMove: array<int>, mainloop: int)
      requires InRange(m, n) && eTable != tempMove && eTable.Length == n && tempMove.Length == n + 1 && 0 < mainloop
      requires if epsilon == -1 then forall a :: a in m.arcs ==> a.lab != EPSILON_PAIR else MemoOk(memo, m, n)
      ensures Wired() && this.m == m && this.n == n && this.eTable == eTable && this.tempMove == tempMove
      ensures this.mainloop == mainloop && this.epsilon == epsilon
      ensures fresh(marks) && fresh(markTable) && NotYet(marks[..], mainloop) && NotYet(markTable[..], mainloop)
    {
      this.memo, this.epsilon, this.m, this.n := memo, epsilon, m, n;
      this.eTable, this.tempMove, this.mainloop := eTable, tempMove, mainloop;
      marks := new int[eTable.Length](_ => 0);
      markTable := new int[eTable.Length](_ => 0);
    }

    /** Collects one target, unless it is there already. */
    method Add(j: nat, t: int) returns (j': nat)
      requires Collecting(j) && 0 <= t < n
      modifies eTable, tempMove
      ensures Collecting(j') && (forall x :: x in tempMove[..j'] <==> x in old(tempMove[..j]) || x == t)
    {
      hide MemoOk;
      j' := j;
      ghost var list := tempMove[..j];
      if eTable[t] != mainloop {
        StampFree(eTable[..], mainloop, list, t, n);
        StampMore(eTable[..], mainloop, list, t);
        ghost var before := eTable[..];
        eTable[t] := mainloop;
        tempMove[j] := t;
        assert eTable[..] == before[t := mainloop];
        j' := j + 1;
        assert tempMove[..j'] == list + [t];
      } else {
        assert eTable[..][t] == mainloop;
      }
    }

    /** Ends collecting: time moves on, and the targets are closed over 0:0 arcs. */
    method Finish(j: nat) returns (size: nat)
      requires Collecting(j)
      modifies this, eTable, tempMove, marks, markTable
      ensures Ready() && mainloop == old(mainloop) + 1
      ensures size <= n && Distinct(tempMove[..size]) && StampedAs(eTable[..], mainloop - 1, tempMove[..size])
      ensures Elements(tempMove[..size]) == Closure(m, n, Elements(old(tempMove[..j])))
    {
      hide MemoOk, Elements, Closure, StampedAs;
      mainloop := mainloop + 1;
      if epsilon == -1 {
        size := j;
        ClosedAlready(m, n, eTable[..], mainloop - 1, tempMove[..j]);
      } else {
        size := EClosure(memo, marks, markTable, eTable, tempMove, j, mainloop - 1, m, n);
      }
    }
  }

  lemma StampFree(stamps: seq<int>, stamp: int, list: seq<int>, t: int, n: nat)
    requires StampedAs(stamps, stamp, list) && Distinct(list) && |stamps| == n && 0 <= t < n && stamps[t] != stamp
    ensures |list| < n
  {
    StampMore(stamps, stamp, list, t);
    DistinctBound(list + [t], n);
  }

  lemma ClosedAlready(m: Machine<int>, n: nat, stamps: seq<int>, stamp: int, list: seq<int>)
    requires InRange(m, n) && (forall a :: a in m.arcs ==> a.lab != EPSILON_PAIR) && |stamps| == n
    requires StampedAs(stamps, stamp, list)
    ensures Closure(m, n, Elements(list)) == Elements(list)
  {
    forall p | p in Elements(list) ensures 0 <= p < n {
      var i :| 0 <= i < |list| && list[i] == p;
    }
    NoEpsilonClosure(m, n, Elements(list));
  }

  // ----- The merge sweep -----

  /** The entries before `tail` are those with smaller symbols than `sym`. */
  ghost predicate Cut(list: seq<Trans>, tail: int, sym: int) {
    && 0 <= tail <= |list|
    && (forall k :: 0 <= k < tail ==> list[k].inout < sym)
    && (forall k :: tail <= k < |list| ==> list[k].inout >= sym)
  }

  ghost predicate TargetAmong(list: seq<Trans>, lo: int, hi: int, sym: int, x: int)
    requires 0 <= lo <= hi <= |list|
  {
    exists i :: lo <= i < hi && list[i] == Trans(sym, x)
  }

  ghost predicate TargetsWithin(list: seq<Trans>, n: nat) {
    forall i :: 0 <= i < |list| ==> 0 <= list[i].target < n
  }

  lemma TargetNext(list: seq<Trans>, lo: int, k: int, sym: int)
    requires 0 <= lo <= k < |list| && list[k].inout == sym
    ensures forall x :: TargetAmong(list, lo, k + 1, sym, x) <==> TargetAmong(list, lo, k, sym, x)
                                                                  || x == list[k].target
  {
    assert list[k] == Trans(sym, list[k].target);
  }

  lemma TargetsFound(list: seq<Trans>, tail: int, k: int, sym: int)
    requires Cut(list, tail, sym) && Sorted(list) && tail <= k <= |list|
    requires (forall i :: tail <= i < k ==> list[i].inout == sym) && (k == |list| || list[k].inout != sym)
    ensures Cut(list, k, sym + 1)
    ensures forall x :: TargetAmong(list, tail, k, sym, x) <==> Trans(sym, x) in list
  {
    forall x | Trans(sym, x) in list ensures TargetAmong(list, tail, k, sym, x) {
      var i :| 0 <= i < |list| && list[i] == Trans(sym, x);
    }
  }

  /** The arcs of one state on the current symbol. */
  method SweepState(list: seq<Trans>, tail: int, minsym: int, c: Collector, j: nat) returns (tail': int, j': nat)
    requires Sorted(list) && Cut(list, tail, minsym) && c.Collecting(j) && TargetsWithin(list, c.n)
    modifies c.eTable, c.tempMove
    ensures Cut(list, tail', minsym + 1) && c.Collecting(j')
    ensures forall x :: x in c.tempMove[..j'] <==> x in old(c.tempMove[..j]) || Trans(minsym, x) in list
  {
    hide TargetAmong, StampedAs, MemoOk, Sorted, Cut;
    tail', j' := tail, j;
    CutRange(list, tail, minsym);
    assert forall x :: !TargetAmong(list, tail, tail, minsym, x) by {
      NoTarget(list, tail, minsym);
    }
    while tail' < |list| && list[tail'].inout == minsym
      invariant tail <= tail' <= |list| && c.Collecting(j')
      invariant forall i :: tail <= i < tail' ==> list[i].inout == minsym
      invariant forall x :: x in c.tempMove[..j'] <==> x in old(c.tempMove[..j])
                                                       || TargetAmong(list, tail, tail', minsym, x)
    {
      TargetNext(list, tail, tail', minsym);
      j' := c.Add(j', list[tail'].target);
      tail' := tail' + 1;
    }
    TargetsFound(list, tail, tail', minsym);
  }

  lemma CutRange(list: seq<Trans>, tail: int, sym: int)
    requires Cut(list, tail, sym)
    ensures 0 <= tail <= |list|
  {
  }

  lemma NoTarget(list: seq<Trans>, lo: int, sym: int)
    requires 0 <= lo <= |list|
    ensures forall x :: !TargetAmong(list, lo, lo, sym, x)
  {
  }

  /** The tails of the states with index `i` up to `j` in the set are at `sym`. */
  ghost predicate CutAll(trans: seq<seq<Trans>>, tails: seq<int>, set_: seq<int>, i: int, j: int, sym: int) {
    && |trans| == |tails| && Within(set_, |trans|)
    && forall k :: 0 <= i <= k < j && k < |set_| ==> Cut(trans[set_[k]], tails[set_[k]], sym)
  }

  ghost predicate AtFront(list: seq<Trans>, tail: int, sym: int) {
    0 <= tail < |list| && list[tail].inout == sym
  }

  /** `v` is the smallest symbol at a tail of the first `i` states, or INT_MAX if all are exhausted. */
  ghost predicate Front(trans: seq<seq<Trans>>, tails: seq<int>, set_: seq<int>, i: int, v: int) {
    && |trans| == |tails| && Within(set_, |trans|)
    && (v == INT_MAX || exists k :: 0 <= k < i && k < |set_| && AtFront(trans[set_[k]], tails[set_[k]], v))
    && (forall k :: 0 <= k < i && k < |set_| && 0 <= tails[set_[k]] < |trans[set_[k]]| ==>
                    v <= trans[set_[k]][tails[set_[k]]].inout)
  }

  /** Some state of the first `i` has an arc to `x` on `sym`. */
  ghost predicate Hit(trans: seq<seq<Trans>>, set_: seq<int>, i: int, sym: int, x: int) {
    exists k :: 0 <= k < i && k < |set_| && HitBy(trans, set_[k], sym, x)
  }

  ghost predicate HitBy(trans: seq<seq<Trans>>, s: int, sym: int, x: int) {
    0 <= s < |trans| && Trans(sym, x) in trans[s]
  }

  /** The list holds what the first `i` states move to on `sym`. */
  ghost predicate Collected(list: seq<int>, trans: seq<seq<Trans>>, set_: seq<int>, i: int, sym: int) {
    forall x :: x in list <==> Hit(trans, set_, i, sym, x)
  }

  lemma CollectedNext(list: seq<int>, list': seq<int>, trans: seq<seq<Trans>>, set_: seq<int>, i: int, sym: int)
    requires 0 <= i < |set_| && 0 <= set_[i] < |trans| && Collected(list, trans, set_, i, sym)
    requires forall x :: x in list' <==> x in list || Trans(sym, x) in trans[set_[i]]
    ensures Collected(list', trans, set_, i + 1, sym)
  {
    forall x ensures x in list' <==> Hit(trans, set_, i + 1, sym, x) {
      if x in list' {
        assert x in list || HitBy(trans, set_[i], sym, x);
      }
      if Hit(trans, set_, i + 1, sym, x) {
        var k :| 0 <= k < i + 1 && HitBy(trans, set_[k], sym, x);
        assert k < i ==> Hit(trans, set_, i, sym, x);
      }
    }
  }

  /** Moving the tail of the `i`th state leaves the others alone. */
  lemma TailMoved(trans: seq<seq<Trans>>, tails: seq<int>, set_: seq<int>, i: int, tail: int, minsym: int, next: int,
                  next': int)
    requires 0 <= i < |set_| && Distinct(set_)
    requires CutAll(trans, tails, set_, 0, i, minsym + 1) && CutAll(trans, tails, set_, i, |set_|, minsym)
             && Front(trans, tails, set_, i, next)
    requires Cut(trans[set_[i]], tail, minsym + 1)
    requires var list := trans[set_[i]];
             next' == if tail < |list| && list[tail].inout < next then list[tail].inout else next
    ensures var tails' := tails[set_[i] := tail];
            CutAll(trans, tails', set_, 0, i + 1, minsym + 1) && CutAll(trans, tails', set_, i + 1, |set_|, minsym)
            && Front(trans, tails', set_, i + 1, next')
  {
    hide Cut;
    CutRange(trans[set_[i]], tail, minsym + 1);
    var tails' := tails[set_[i] := tail];
    assert forall k :: 0 <= k < |set_| && k != i ==> tails'[set_[k]] == tails[set_[k]];
    if next' != next {
      assert AtFront(trans[set_[i]], tails'[set_[i]], next');
    } else if next != INT_MAX {
      var k :| 0 <= k < i && AtFront(trans[set_[k]], tails[set_[k]], next);
      assert AtFront(trans[set_[k]], tails'[set_[k]], next);
    }
  }

  /** What the sweep needs of the transition lists. */
  ghost predicate ListsOk(trans: seq<seq<Trans>>, m: Machine<int>, n: nat, single: seq<Label>) {
    AllListed(trans, m, n, single) && InRange(m, n) && |single| <= INT_MAX
  }

  lemma ListOk(trans: seq<seq<Trans>>, m: Machine<int>, n: nat, single: seq<Label>, s: int)
    requires ListsOk(trans, m, n, single) && 0 <= s < n
    ensures |trans| == n && Sorted(trans[s]) && TargetsWithin(trans[s], n)
    ensures forall i :: 0 <= i < |trans[s]| ==> 0 <= trans[s][i].inout < INT_MAX
  {
    assert ArcsListed(trans[s], m, s, single);
    forall i | 0 <= i < |trans[s]| ensures 0 <= trans[s][i].target < n && 0 <= trans[s][i].inout < INT_MAX {
      assert trans[s][i] in trans[s];
      assert 0 <= Arc(s, single[trans[s][i].inout], trans[s][i].target).tgt < n;
    }
  }

  /** Collects the targets of the whole set on `minsym`, and finds the next symbol. */
  method Sweep(trans: seq<seq<Trans>>, tails: array<int>, set_: seq<int>, minsym: int, c: Collector,
               ghost single: seq<Label>)
    returns (j: nat, next: int)
    requires c.Ready() && ListsOk(trans, c.m, c.n, single) && tails.Length == c.n && Within(set_, c.n) && Distinct(set_)
    requires tails != c.eTable && tails != c.tempMove && tails != c.marks && tails != c.markTable
    requires CutAll(trans, tails[..], set_, 0, |set_|, minsym)
    modifies tails, c.eTable, c.tempMove
    ensures c.Collecting(j)
    ensures CutAll(trans, tails[..], set_, 0, |set_|, minsym + 1) && Front(trans, tails[..], set_, |set_|, next)
    ensures Collected(c.tempMove[..j], trans, set_, |set_|, minsym)
  {
    hide CutAll, Front, Collected, ListsOk, Cut, MemoOk, Sorted, TargetsWithin, StampedAs;
    j, next := 0, INT_MAX;
    NothingCollected(c.eTable[..], c.mainloop, c.tempMove[..j]);
    NothingSwept(trans, tails[..], set_, minsym);
    assert c.tempMove[..j] == [];
    var i := 0;
    while i < |set_|
      invariant 0 <= i <= |set_| && c.Collecting(j)
      invariant CutAll(trans, tails[..], set_, 0, i, minsym + 1) && CutAll(trans, tails[..], set_, i, |set_|, minsym)
      invariant Front(trans, tails[..], set_, i, next)
      invariant Collected(c.tempMove[..j], trans, set_, i, minsym)
    {
      var s := set_[i];
      ListOk(trans, c.m, c.n, single, s);
      CutHere(trans, tails[..], set_, i, minsym);
      ghost var before, next0, list := tails[..], next, c.tempMove[..j];
      var tail;
      tail, j := SweepState(trans[s], tails[s], minsym, c, j);
      tails[s] := tail;
      assert tails[..] == before[s := tail];
      CutRange(trans[s], tail, minsym + 1);
      if tail != |trans[s]| && trans[s][tail].inout < next {
        next := trans[s][tail].inout;
      }
      CollectedNext(list, c.tempMove[..j], trans, set_, i, minsym);
      TailMoved(trans, before, set_, i, tail, minsym, next0, next);
      i := i + 1;
    }
  }

  lemma NothingCollected(stamps: seq<int>, stamp: int, list: seq<int>)
    requires NotYet(stamps, stamp) && list == []
    ensures StampedAs(stamps, stamp, list) && AtMost(stamps, stamp)
  {
  }

  lemma NothingSwept(trans: seq<seq<Trans>>, tails: seq<int>, set_: seq<int>, minsym: int)
    requires CutAll(trans, tails, set_, 0, |set_|, minsym)
    ensures CutAll(trans, tails, set_, 0, 0, minsym + 1) && Front(trans, tails, set_, 0, INT_MAX)
    ensures Collected([], trans, set_, 0, minsym)
  {
  }

  lemma CutHere(trans: seq<seq<Trans>>, tails: seq<int>, set_: seq<int>, i: int, minsym: int)
    requires 0 <= i < |set_| && CutAll(trans, tails, set_, i, |set_|, minsym)
    ensures 0 <= set_[i] < |trans| == |tails| && Cut(trans[set_[i]], tails[set_[i]], minsym)
  {
  }

  /** Puts all tails of the set at the start and finds the first symbol. */
  method Prepare(trans: seq<seq<Trans>>, tails: array<int>, set_: seq<int>, ghost m: Machine<int>, ghost n: nat,
                 ghost single: seq<Label>)
    returns (minsym: int)
    requires ListsOk(trans, m, n, single) && tails.Length == n && Within(set_, n) && Distinct(set_)
    modifies tails
    ensures CutAll(trans, tails[..], set_, 0, |set_|, 0) && Front(trans, tails[..], set_, |set_|, minsym)
  {
    hide CutAll, Front, ListsOk, Cut, Sorted, TargetsWithin;
    minsym := INT_MAX;
    ListsSize(trans, m, n, single);
    NothingPrepared(trans, tails[..], set_);
    var i := 0;
    while i < |set_|
      invariant 0 <= i <= |set_|
      invariant CutAll(trans, tails[..], set_, 0, i, 0) && Front(trans, tails[..], set_, i, minsym)
    {
      var s := set_[i];
      ListOk(trans, m, n, single, s);
      ghost var before, min0 := tails[..], minsym;
      tails[s] := 0;
      assert tails[..] == before[s := 0];
      if |trans[s]| != 0 && trans[s][0].inout < minsym {
        minsym := trans[s][0].inout;
      }
      TailReset(trans, before, set_, i, min0, minsym);
      i := i + 1;
    }
  }

  lemma ListsSize(trans: seq<seq<Trans>>, m: Machine<int>, n: nat, single: seq<Label>)
    requires ListsOk(trans, m, n, single)
    ensures |trans| == n
  {
  }

  lemma NothingPrepared(trans: seq<seq<Trans>>, tails: seq<int>, set_: seq<int>)
    requires |trans| == |tails| && Within(set_, |trans|)
    ensures CutAll(trans, tails, set_, 0, 0, 0) && Front(trans, tails, set_, 0, INT_MAX)
  {
  }

  lemma TailReset(trans: seq<seq<Trans>>, tails: seq<int>, set_: seq<int>, i: int, min0: int, minsym: int)
    requires 0 <= i < |set_| && Distinct(set_) && CutAll(trans, tails, set_, 0, i, 0)
             && Front(trans, tails, set_, i, min0)
    requires forall k :: 0 <= k < |trans[set_[i]]| ==> trans[set_[i]][k].inout >= 0
    requires var list := trans[set_[i]]; minsym == if |list| != 0 && list[0].inout < min0 then list[0].inout else min0
    ensures CutAll(trans, tails[set_[i] := 0], set_, 0, i + 1, 0)
            && Front(trans, tails[set_[i] := 0], set_, i + 1, minsym)
  {
    var tails' := tails[set_[i] := 0];
    assert forall k :: 0 <= k < |set_| && k != i ==> tails'[set_[k]] == tails[set_[k]];
    if minsym != min0 {
      assert AtFront(trans[set_[i]], tails'[set_[i]], minsym);
    } else if minsym != INT_MAX {
      var k :| 0 <= k < i && AtFront(trans[set_[k]], tails[set_[k]], minsym);
      assert AtFront(trans[set_[k]], tails'[set_[k]], minsym);
    }
  }

  // ----- What the sweep finds, in terms of the machine -----

  /** At the front symbol every tail is exactly there or beyond. */
  lemma CutAtFront(trans: seq<seq<Trans>>, m: Machine<int>, n: nat, single: seq<Label>, tails: seq<int>, set_: seq<int>,
                   sym: int, next: int)
    requires ListsOk(trans, m, n, single) && CutAll(trans, tails, set_, 0, |set_|, sym)
             && Front(trans, tails, set_, |set_|, next)
    ensures next >= sym || next == INT_MAX
    ensures CutAll(trans, tails, set_, 0, |set_|, next)
    ensures next != INT_MAX ==> next < |single| && exists x :: Hit(trans, set_, |set_|, next, x)
  {
    forall k | 0 <= k < |set_| ensures Cut(trans[set_[k]], tails[set_[k]], next) {
      ListOk(trans, m, n, single, set_[k]);
      assert Cut(trans[set_[k]], tails[set_[k]], sym);
      if next != INT_MAX {
        var h :| 0 <= h < |set_| && AtFront(trans[set_[h]], tails[set_[h]], next);
        assert Cut(trans[set_[h]], tails[set_[h]], sym);
      }
      CutFurther(trans[set_[k]], tails[set_[k]], sym, next);
    }
    if next != INT_MAX {
      var k :| 0 <= k < |set_| && AtFront(trans[set_[k]], tails[set_[k]], next);
      FrontHit(trans, m, n, single, tails, set_, k, next);
      assert Cut(trans[set_[k]], tails[set_[k]], sym);
    }
  }

  lemma CutFurther(list: seq<Trans>, tail: int, sym: int, next: int)
    requires Sorted(list) && Cut(list, tail, sym) && (next >= sym || next == INT_MAX)
    requires forall i :: 0 <= i < |list| ==> 0 <= list[i].inout < INT_MAX
    requires tail < |list| ==> next <= list[tail].inout
    ensures Cut(list, tail, next)
  {
  }

  lemma FrontHit(trans: seq<seq<Trans>>, m: Machine<int>, n: nat, single: seq<Label>, tails: seq<int>, set_: seq<int>,
                 k: int, sym: int)
    requires ListsOk(trans, m, n, single) && Within(set_, n) && |tails| == n && 0 <= k < |set_|
    requires |trans| == n && AtFront(trans[set_[k]], tails[set_[k]], sym)
    ensures sym < |single| && exists x :: Hit(trans, set_, |set_|, sym, x)
  {
    var list, tail := trans[set_[k]], tails[set_[k]];
    assert list[tail] in list && ArcsListed(list, m, set_[k], single);
    assert HitBy(trans, set_[k], sym, list[tail].target);
    assert Hit(trans, set_, |set_|, sym, list[tail].target);
  }

  /** The collected targets are the moves of the set. */
  lemma HitsAreMoves(trans: seq<seq<Trans>>, m: Machine<int>, n: nat, single: seq<Label>, set_: seq<int>, sym: int,
                     x: int)
    requires ListsOk(trans, m, n, single) && Within(set_, n) && 0 <= sym < |single|
    ensures Hit(trans, set_, |set_|, sym, x) ==> x in Moves(m, n, Elements(set_), single[sym])
                                                 && single[sym] != EPSILON_PAIR
    ensures single[sym] != EPSILON_PAIR && x in Moves(m, n, Elements(set_), single[sym]) ==>
              Hit(trans, set_, |set_|, sym, x)
  {
    if Hit(trans, set_, |set_|, sym, x) {
      var k :| 0 <= k < |set_| && HitBy(trans, set_[k], sym, x);
      assert ArcsListed(trans[set_[k]], m, set_[k], single);
      var a := Arc(set_[k], single[sym], x);
      assert a in m.arcs && 0 <= a.tgt < n;
      assert set_[k] in Elements(set_);
    }
    if single[sym] != EPSILON_PAIR && x in Moves(m, n, Elements(set_), single[sym]) {
      var p :| p in Elements(set_) && Arc(p, single[sym], x) in m.arcs;
      var k :| 0 <= k < |set_| && set_[k] == p;
      assert ArcsListed(trans[p], m, p, single);
      assert HitBy(trans, set_[k], sym, x);
    }
  }

  lemma CollectedMoves(trans: seq<seq<Trans>>, m: Machine<int>, n: nat, single: seq<Label>, set_: seq<int>, sym: int,
                       list: seq<int>)
    requires ListsOk(trans, m, n, single) && Within(set_, n) && 0 <= sym < |single|
    requires Collected(list, trans, set_, |set_|, sym)
    requires exists x :: Hit(trans, set_, |set_|, sym, x)
    ensures Elements(list) == Moves(m, n, Elements(set_), single[sym]) != {} && single[sym] != EPSILON_PAIR
  {
    hide Hit, ListsOk;
    var y :| Hit(trans, set_, |set_|, sym, y);
    HitsAreMoves(trans, m, n, single, set_, sym, y);
    forall x ensures x in Elements(list) <==> x in Moves(m, n, Elements(set_), single[sym]) {
      HitsAreMoves(trans, m, n, single, set_, sym, x);
    }
  }

  /** Between one front and the next there is nothing to emit. */
  lemma NoMovesBetween(trans: seq<seq<Trans>>, m: Machine<int>, n: nat, single: seq<Label>, tails: seq<int>,
                       set_: seq<int>, a: int, b: int, x: int)
    requires ListsOk(trans, m, n, single) && CutAll(trans, tails, set_, 0, |set_|, a)
             && CutAll(trans, tails, set_, 0, |set_|, b)
    requires a <= x < b && 0 <= x < |single| && single[x] != EPSILON_PAIR
    ensures Moves(m, n, Elements(set_), single[x]) == {}
  {
    ListsSize(trans, m, n, single);
    if q :| q in Moves(m, n, Elements(set_), single[x]) {
      HitsAreMoves(trans, m, n, single, set_, x, q);
      var k :| 0 <= k < |set_| && HitBy(trans, set_[k], x, q);
      NoneBetween(trans[set_[k]], tails[set_[k]], a, b, x, q);
    }
  }

  lemma NoneBetween(list: seq<Trans>, tail: int, a: int, b: int, x: int, q: int)
    requires Cut(list, tail, a) && Cut(list, tail, b) && a <= x < b
    ensures Trans(x, q) !in list
  {
  }

  // ----- Building one set -----

  ghost predicate FinalsOk(finals: seq<bool>, m: Machine<int>, n: nat) {
    |finals| == n && forall s :: 0 <= s < n ==> (finals[s] <==> s in m.finals)
  }

  lemma FinalSet(list: seq<int>, finals: seq<bool>, m: Machine<int>, n: nat)
    requires Within(list, n) && FinalsOk(finals, m, n)
    ensures HoldsFinal(list, finals) <==> Elements(list) in SubsetMachine(m, n).finals
  {
    if HoldsFinal(list, finals) {
      var i :| 0 <= i < |list| && finals[list[i]];
      assert list[i] in Elements(list);
      assert AnyFinal(m, Elements(list));
    }
    if AnyFinal(m, Elements(list)) {
      var q :| q in Elements(list) && q in m.finals;
      var i :| 0 <= i < |list| && list[i] == q;
    }
  }

  lemma ClosureHoldsMoves(m: Machine<int>, n: nat, s: set<int>, l: Label, list: seq<int>)
    requires InRange(m, n) && Moves(m, n, s, l) != {} && Elements(list) == Closure(m, n, Moves(m, n, s, l))
             && l != EPSILON_PAIR
    ensures list != [] && Arc(s, l, Elements(list)) in SubsetMachine(m, n).arcs
  {
    MovesWithin(m, n, s, l);
    assert SubsetArc(m, n, Arc(s, l, Elements(list)));
  }

  /** Closes the collected targets and adds the arc to the set they form. */
  method EmitSymbol(sb: SubsetBuilder, c: Collector, j: nat, l: Label, finals: seq<bool>, ghost s: set<int>)
    requires sb.Building() && c.Collecting(j) && sb.prod == SubsetMachine(c.m, c.n) && sb.n == c.n
             && FinalsOk(finals, c.m, c.n)
    requires sb.table.keys[sb.cur] == s && Elements(c.tempMove[..j]) == Moves(c.m, c.n, s, l) != {} && l != EPSILON_PAIR
    requires 0 <= l.upper < sb.builder.slookup.Length0 && 0 <= l.lower < sb.builder.slookup.Length0
    modifies c, c.eTable, c.tempMove, c.marks, c.markTable
    modifies sb`stack, sb`waiting, sb`pending, sb.table, sb.table.buckets, sb.builder, sb.builder.slookup
    ensures sb.Building() && c.Ready() && (sb.table.buckets == old(sb.table.buckets) || fresh(sb.table.buckets))
    ensures old(sb.table.keys) <= sb.table.keys && old(sb.builder.lines) <= sb.builder.lines
    ensures Emitted(sb.builder.lines, sb.table.keys, sb.cur, l, Closure(c.m, c.n, Moves(c.m, c.n, s, l)))
  {
    hide SetTable.Valid, NetBuilder.Valid, StackOk, Follows, Finished, Numbered, FlagsRight, MemoOk, Elements, Closure,
         Moves,
      SubsetMachine, StampedAs, Emitted, InRange, HoldsFinal;
    var size := c.Finish(j);
    var list := c.tempMove[..size];
    StampedWithin(c.eTable[..], c.mainloop - 1, list);
    FinalSet(list, finals, c.m, c.n);
    ClosureHoldsMoves(c.m, c.n, s, l, list);
    var u := sb.Visit(list, c.eTable, c.mainloop, finals);
    sb.AddArcTo(l, u);
  }

  /** The arcs of set `s` on all visible symbols before `upto` have been added. */
  ghost predicate SymbolsEmitted(lines: seq<Line>, keys: seq<set<int>>, cur: int, m: Machine<int>, n: nat,
                                 single: seq<Label>, s: set<int>, upto: int) {
    forall x :: 0 <= x < |single| && x < upto && single[x] != EPSILON_PAIR && Moves(m, n, s, single[x]) != {} ==>
                  Emitted(lines, keys, cur, single[x], Closure(m, n, Moves(m, n, s, single[x])))
  }

  lemma SymbolsKept(lines: seq<Line>, keys: seq<set<int>>, cur: int, m: Machine<int>, n: nat, single: seq<Label>,
                    s: set<int>, upto: int,
                    lines': seq<Line>, keys': seq<set<int>>)
    requires SymbolsEmitted(lines, keys, cur, m, n, single, s, upto) && lines <= lines' && keys <= keys'
    ensures SymbolsEmitted(lines', keys', cur, m, n, single, s, upto)
  {
    hide Emitted, Moves, Closure;
    forall x | 0 <= x < |single| && x < upto && single[x] != EPSILON_PAIR && Moves(m, n, s, single[x]) != {}
      ensures Emitted(lines', keys', cur, single[x], Closure(m, n, Moves(m, n, s, single[x])))
    {
      EmittedKept(lines, keys, cur, single[x], Closure(m, n, Moves(m, n, s, single[x])), lines', keys');
    }
  }

  /** The symbols from `a` on are skipped up to the next front. */
  lemma SymbolsSkipped(lines: seq<Line>, keys: seq<set<int>>, cur: int, trans: seq<seq<Trans>>, m: Machine<int>, n: nat,
                       single: seq<Label>,
                       tails: seq<int>, set_: seq<int>, a: int, next: int)
    requires ListsOk(trans, m, n, single) && CutAll(trans, tails, set_, 0, |set_|, a)
             && CutAll(trans, tails, set_, 0, |set_|, next)
    requires SymbolsEmitted(lines, keys, cur, m, n, single, Elements(set_), a)
    ensures SymbolsEmitted(lines, keys, cur, m, n, single, Elements(set_), next)
  {
    hide Emitted, Moves, Closure, ListsOk, CutAll, Elements;
    forall x | 0 <= x < |single| && a <= x < next && single[x] != EPSILON_PAIR
      ensures Moves(m, n, Elements(set_), single[x]) == {}
    {
      NoMovesBetween(trans, m, n, single, tails, set_, a, next, x);
    }
  }

  lemma SymbolDone(lines: seq<Line>, keys: seq<set<int>>, cur: int, m: Machine<int>, n: nat, single: seq<Label>,
                   s: set<int>, sym: int)
    requires SymbolsEmitted(lines, keys, cur, m, n, single, s, sym) && 0 <= sym < |single|
    requires Emitted(lines, keys, cur, single[sym], Closure(m, n, Moves(m, n, s, single[sym])))
    ensures SymbolsEmitted(lines, keys, cur, m, n, single, s, sym + 1)
  {
  }

  /** Every label of the net has a number. */
  ghost predicate LabelsKnown(m: Machine<int>, single: seq<Label>) {
    forall a :: a in m.arcs ==> a.lab in single
  }

  lemma AllSymbolsDone(lines: seq<Line>, keys: seq<set<int>>, cur: int, m: Machine<int>, n: nat, single: seq<Label>,
                       s: set<int>)
    requires SymbolsEmitted(lines, keys, cur, m, n, single, s, INT_MAX) && |single| <= INT_MAX && LabelsKnown(m, single)
    requires 0 <= cur < |keys| && keys[cur] == s
    ensures AllEmitted(lines, keys, SubsetMachine(m, n), cur)
  {
    hide Emitted, Closure;
    forall l, t | Arc(keys[cur], l, t) in SubsetMachine(m, n).arcs ensures Emitted(lines, keys, cur, l, t) {
      assert SubsetArc(m, n, Arc(s, l, t));
      MoveHasLabel(m, n, s, l, single);
      var x :| 0 <= x < |single| && single[x] == l;
    }
  }

  lemma MoveHasLabel(m: Machine<int>, n: nat, s: set<int>, l: Label, single: seq<Label>)
    requires Moves(m, n, s, l) != {} && LabelsKnown(m, single)
    ensures l in single
  {
    var q :| q in Moves(m, n, s, l);
    var p :| p in s && Arc(p, l, q) in m.arcs;
    assert Arc(p, l, q).lab in single;
  }

  /** The symbols of the alphabet fit the builder's table. */
  ghost predicate LabelsFit(single: seq<Label>, size: int) {
    forall x :: 0 <= x < |single| ==> 0 <= single[x].upper < size && 0 <= single[x].lower < size
  }

  /** One round of the main loop: all arcs of set number `t`, in symbol order. */
  method BuildSubset(sb: SubsetBuilder, c: Collector, tails: array<int>, trans: seq<seq<Trans>>, single: seq<Label>,
                     finals: seq<bool>, t: int)
    requires sb.Popped() && t == sb.cur && c.Ready() && sb.prod == SubsetMachine(c.m, c.n) && sb.n == c.n
             && FinalsOk(finals, c.m, c.n)
    requires ListsOk(trans, c.m, c.n, single) && LabelsKnown(c.m, single)
             && LabelsFit(single, sb.builder.slookup.Length0)
    requires tails.Length == c.n && tails != c.eTable && tails != c.tempMove && tails != c.marks && tails != c.markTable
    modifies c, c.eTable, c.tempMove, c.marks, c.markTable, tails
    modifies sb, sb.table, sb.table.buckets, sb.builder, sb.builder.slookup
    ensures sb.Idle() && c.Ready() && (sb.table.buckets == old(sb.table.buckets) || fresh(sb.table.buckets))
    ensures sb.done == old(sb.done) && old(sb.table.keys) <= sb.table.keys
  {
    hide SetTable.Valid, NetBuilder.Valid, StackOk, Follows, Finished, Numbered, FlagsRight, MemoOk, Elements, Closure,
         Moves, SubsetMachine,
      ListsOk, CutAll, Front, Collected, SymbolsEmitted, Emitted, AllEmitted, StampedAs, Distinct, LabelsKnown,
      HoldsFinal, Hit;
    TableDistinct(sb.table);
    sb.Begin(t, sb.table.finalStart[t], t == 0);
    var set_ := sb.table.sets[t];
    ListedSet(sb.table, t, sb.n);
    var minsym := Prepare(trans, tails, set_, c.m, c.n, single);
    ghost var s := sb.table.keys[t];
    SinglesCounted(trans, c.m, c.n, single);
    CutAtFront(trans, c.m, c.n, single, tails[..], set_, 0, minsym);
    NoSymbolsYet(sb.builder.lines, sb.table.keys, sb.cur, c.m, c.n, single, s);
    SymbolsSkipped(sb.builder.lines, sb.table.keys, sb.cur, trans, c.m, c.n, single, tails[..], set_, 0, minsym);
    while minsym != INT_MAX
      invariant sb.Building() && c.Ready() && (sb.table.buckets == old(sb.table.buckets) || fresh(sb.table.buckets))
      invariant sb.cur == t && sb.table.keys[t] == s == Elements(set_) && sb.done == old(sb.done)
                && old(sb.table.keys) <= sb.table.keys
      invariant CutAll(trans, tails[..], set_, 0, |set_|, minsym) && 0 <= minsym <= INT_MAX
      invariant minsym != INT_MAX ==> minsym < |single| && exists x :: Hit(trans, set_, |set_|, minsym, x)
      invariant SymbolsEmitted(sb.builder.lines, sb.table.keys, sb.cur, c.m, c.n, single, s, minsym)
      decreases INT_MAX - minsym
    {
      minsym := BuildSymbol(sb, c, tails, trans, single, finals, set_, minsym);
    }
    AllSymbolsDone(sb.builder.lines, sb.table.keys, sb.cur, c.m, c.n, single, s);
    sb.End();
  }

  /** One symbol: sweep, close, number, add the arc. Returns the next symbol. */
  method BuildSymbol(sb: SubsetBuilder, c: Collector, tails: array<int>, trans: seq<seq<Trans>>, single: seq<Label>,
                     finals: seq<bool>,
                     set_: seq<int>, minsym: int) returns (next: int)
    requires sb.Building() && c.Ready() && sb.prod == SubsetMachine(c.m, c.n) && sb.n == c.n
             && FinalsOk(finals, c.m, c.n)
    requires ListsOk(trans, c.m, c.n, single) && LabelsFit(single, sb.builder.slookup.Length0)
    requires tails.Length == c.n && tails != c.eTable && tails != c.tempMove && tails != c.marks && tails != c.markTable
    requires Within(set_, c.n) && Distinct(set_) && sb.table.keys[sb.cur] == Elements(set_)
    requires CutAll(trans, tails[..], set_, 0, |set_|, minsym) && 0 <= minsym < |single|
    requires exists x :: Hit(trans, set_, |set_|, minsym, x)
    requires SymbolsEmitted(sb.builder.lines, sb.table.keys, sb.cur, c.m, c.n, single, Elements(set_), minsym)
    modifies c, c.eTable, c.tempMove, c.marks, c.markTable, tails
    modifies sb`stack, sb`waiting, sb`pending, sb.table, sb.table.buckets, sb.builder, sb.builder.slookup
    ensures sb.Building() && c.Ready() && (sb.table.buckets == old(sb.table.buckets) || fresh(sb.table.buckets))
    ensures old(sb.table.keys) <= sb.table.keys
    ensures minsym < next <= INT_MAX && CutAll(trans, tails[..], set_, 0, |set_|, next)
    ensures next != INT_MAX ==> next < |single| && exists x :: Hit(trans, set_, |set_|, next, x)
    ensures SymbolsEmitted(sb.builder.lines, sb.table.keys, sb.cur, c.m, c.n, single, Elements(set_), next)
  {
    hide SetTable.Valid, NetBuilder.Valid, StackOk, Follows, Finished, Numbered, FlagsRight, MemoOk, Elements, Closure,
         Moves, SubsetMachine,
      ListsOk, CutAll, Front, Collected, SymbolsEmitted, Emitted, StampedAs, Distinct, HoldsFinal, Hit;
    ghost var s, lines, keys := Elements(set_), sb.builder.lines, sb.table.keys;
    var j;
    j, next := Sweep(trans, tails, set_, minsym, c, single);
    CollectedMoves(trans, c.m, c.n, single, set_, minsym, c.tempMove[..j]);
    EmitSymbol(sb, c, j, single[minsym], finals, s);
    SymbolsKept(lines, keys, sb.cur, c.m, c.n, single, s, minsym, sb.builder.lines, sb.table.keys);
    SymbolDone(sb.builder.lines, sb.table.keys, sb.cur, c.m, c.n, single, s, minsym);
    SinglesCounted(trans, c.m, c.n, single);
    CutAtFront(trans, c.m, c.n, single, tails[..], set_, minsym + 1, next);
    SymbolsSkipped(sb.builder.lines, sb.table.keys, sb.cur, trans, c.m, c.n, single, tails[..], set_, minsym + 1, next);
  }

  lemma SinglesCounted(trans: seq<seq<Trans>>, m: Machine<int>, n: nat, single: seq<Label>)
    requires ListsOk(trans, m, n, single)
    ensures |single| <= INT_MAX
  {
  }

  lemma NoSymbolsYet(lines: seq<Line>, keys: seq<set<int>>, cur: int, m: Machine<int>, n: nat, single: seq<Label>,
                     s: set<int>)
    ensures SymbolsEmitted(lines, keys, cur, m, n, single, s, 0)
  {
  }

  lemma ListedSet(table: SetTable, t: int, n: nat)
    requires table.Valid() && AllWithin(table.sets, n) && 0 <= t < |table.keys|
    ensures Within(table.sets[t], n) && Distinct(table.sets[t]) && table.keys[t] == Elements(table.sets[t])
  {
  }

  // ----- The initial set -----

  /** Notes the final states and collects the start states; `num` of them, `last` the one found last. */
  method InitialStates(lines: seq<Line>, n: nat, eTable: array<int>, tempMove: array<int>, mainloop: int)
    returns (finals: seq<bool>, num: nat, last: int)
    requires WellFormed(lines, n) && eTable != tempMove && eTable.Length == n && tempMove.Length == n + 1
    requires NotYet(eTable[..], mainloop)
    modifies eTable, tempMove
    ensures FinalsOk(finals, MachineOf(lines), n)
    ensures num <= n && Distinct(tempMove[..num]) && StampedAs(eTable[..], mainloop, tempMove[..num])
            && AtMost(eTable[..], mainloop)
    ensures Elements(tempMove[..num]) == Starts(MachineOf(lines), n)
    ensures num == 1 ==> last == tempMove[0]
  {
    hide WellFormed, StampedAs, Elements;
    var fin := new bool[n](_ => false);
    num, last := 0, -1;
    NothingCollected(eTable[..], mainloop, tempMove[..num]);
    NoStarts(lines);
    var i := 0;
    while i < |lines|
      invariant 0 <= i <= |lines| && num <= n && Distinct(tempMove[..num])
                && StampedAs(eTable[..], mainloop, tempMove[..num])
      invariant AtMost(eTable[..], mainloop)
      invariant forall s :: 0 <= s < n ==> (fin[s] <==> FinalBefore(lines, i, s))
      invariant forall x :: x in tempMove[..num] <==> StartBefore(lines, i, x)
      invariant num == 1 ==> last == tempMove[0]
    {
      var s := lines[i].state;
      LineRange(lines, n, i);
      MoreBefore(lines, i);
      if lines[i].final {
        fin[s] := true;
      }
      if lines[i].start {
        ghost var list := tempMove[..num];
        var num' := CollectStart(eTable, tempMove, num, s, mainloop, n);
        if num' > num {
          last := s;
        }
        num := num';
      }
      i := i + 1;
    }
    finals := fin[..];
    FlagsCollected(lines, n, finals, tempMove[..num]);
  }

  method CollectStart(eTable: array<int>, tempMove: array<int>, num: nat, s: int, mainloop: int, ghost n: nat)
    returns (num': nat)
    requires eTable != tempMove && eTable.Length == n && tempMove.Length == n + 1 && num <= n && 0 <= s < n
    requires Distinct(tempMove[..num]) && StampedAs(eTable[..], mainloop, tempMove[..num])
             && AtMost(eTable[..], mainloop)
    modifies eTable, tempMove
    ensures num <= num' <= n && Distinct(tempMove[..num']) && StampedAs(eTable[..], mainloop, tempMove[..num'])
            && AtMost(eTable[..], mainloop)
    ensures forall x :: x in tempMove[..num'] <==> x in old(tempMove[..num]) || x == s
    ensures num' == num ==> tempMove[..num] == old(tempMove[..num])
    ensures num' > num ==> num' == num + 1 && tempMove[num] == s
  {
    num' := num;
    ghost var list := tempMove[..num];
    if eTable[s] != mainloop {
      StampFree(eTable[..], mainloop, list, s, n);
      StampMore(eTable[..], mainloop, list, s);
      ghost var before := eTable[..];
      eTable[s] := mainloop;
      tempMove[num] := s;
      assert eTable[..] == before[s := mainloop];
      num' := num + 1;
      assert tempMove[..num'] == list + [s];
    } else {
      assert eTable[..][s] == mainloop;
    }
  }

  lemma FlagsCollected(lines: seq<Line>, n: nat, finals: seq<bool>, list: seq<int>)
    requires WellFormed(lines, n) && |finals| == n
    requires forall s :: 0 <= s < n ==> (finals[s] <==> FinalBefore(lines, |lines|, s))
    requires forall x :: x in list <==> StartBefore(lines, |lines|, x)
    ensures FinalsOk(finals, MachineOf(lines), n)
    ensures Elements(list) == Starts(MachineOf(lines), n)
  {
    var m := MachineOf(lines);
    FlagsBefore(lines);
    LinesInRange(lines, n);
    forall s ensures s in Starts(m, n) <==> StartBefore(lines, |lines|, s) {
      assert s in m.starts <==> IsStart(m, s);
    }
  }

  // ----- The whole operation -----

  ghost function AllSubsets(n: nat): (r: set<set<int>>)
    ensures forall s :: s in r <==> s <= Indices(n)
  {
    set s | s <= Indices(n)
  }

  lemma ClosureInRange(m: Machine<int>, n: nat, seeds: set<int>)
    ensures Closure(m, n, seeds) in AllSubsets(n)
  {
  }

  /** Only subsets of the states are ever built. */
  lemma SubsetsOnly(sb: SubsetBuilder, m: Machine<int>, n: nat)
    requires sb.Popped() && sb.prod == SubsetMachine(m, n)
    ensures sb.done <= AllSubsets(n)
  {
    hide AllSubsets, Closure, Moves, Elements;
    var keys := sb.table.keys;
    assert keys[0] in sb.prod.starts;
    ClosureInRange(m, n, Starts(m, n));
    forall a | a in sb.prod.arcs ensures a.tgt in AllSubsets(n) {
      assert SubsetArc(m, n, a);
      ClosureInRange(m, n, Moves(m, n, a.src, a.lab));
    }
    KeysWithin(sb.builder.lines, keys, sb.prod, sb.done, AllSubsets(n));
  }

  lemma PairsKnown(lines: seq<Line>, n: nat, single: seq<Label>)
    requires WellFormed(lines, n) && PairsOf(single, lines, |lines|)
    ensures LabelsKnown(MachineOf(lines), single)
  {
    forall a | a in MachineOf(lines).arcs ensures a.lab in single {
      var k := ArcLine(lines, a);
    }
  }

  lemma LinesInRange(lines: seq<Line>, n: nat)
    requires WellFormed(lines, n)
    ensures InRange(MachineOf(lines), n)
  {
    forall a | a in ArcsOf(lines) ensures 0 <= a.src < n && 0 <= a.tgt < n {
      ArcInRange(lines, n, a);
    }
    forall l | l in lines ensures 0 <= l.state < n {
      var k :| 0 <= k < |lines| && lines[k] == l;
      assert LineOk(lines[k], n);
    }
  }

  /** A deterministic machine accepts the same words with and without erasing. */
  lemma DeterministicErases(m: Machine<int>)
    requires Deterministic(m)
    ensures forall w :: Accepts(m, w) <==> AcceptsErased(m, w)
  {
    forall w | Accepts(m, w) ensures Erase(w) == w {
      var p, q := AcceptingPath(m, w);
      ReadsNoEpsilon(m, p, w, q);
      ErasesAll(w);
    }
  }

  lemma SubsetsRenamed(m: Machine<int>, n: nat, net: seq<Line>, keys: seq<set<int>>)
    requires InRange(m, n) && Renames(SubsetMachine(m, n), MachineOf(net), keys)
    ensures forall w :: Accepts(MachineOf(net), w) <==> AcceptsErased(m, w)
    ensures Deterministic(MachineOf(net))
  {
    var d, r := SubsetMachine(m, n), MachineOf(net);
    SubsetLanguage(m, n);
    RenamingKeepsLanguage(d, r, keys);
    SubsetDeterministic(m, n);
    forall w ensures Accepts(r, w) <==> AcceptsErased(m, w) {
      if AcceptsErased(m, w) {
        var x :| Erase(x) == w && Accepts(m, x);
        ErasedIsVisible(x);
      }
    }
    RenamedDeterministic(d, r, keys);
  }

  lemma RenamedDeterministic(d: Machine<set<int>>, r: Machine<int>, keys: seq<set<int>>)
    requires Renames(d, r, keys) && Deterministic(d)
    ensures Deterministic(r)
  {
    forall a, b | a in r.arcs && b in r.arcs && a.src == b.src && a.lab == b.lab ensures a.tgt == b.tgt {
      assert Arc(keys[a.src], a.lab, keys[a.tgt]).tgt == Arc(keys[b.src], b.lab, keys[b.tgt]).tgt;
    }
    forall a | a in r.arcs ensures a.lab != EPSILON_PAIR {
      assert Arc(keys[a.src], a.lab, keys[a.tgt]) in d.arcs;
    }
    forall p, q | p in r.starts && q in r.starts ensures p == q {
      assert keys[p] in d.starts && keys[q] in d.starts;
    }
  }

  ghost predicate HasStart(lines: seq<Line>) {
    exists l :: l in lines && l.start
  }

  /** Without a start state nothing can be closed over 0:0 arcs: the source then has no initial set number. */
  ghost predicate Startable(lines: seq<Line>) {
    HasStart(lines) || forall l :: l in lines ==> l.ToLabel() != EPSILON_PAIR
  }

  /** The tables of the collector before the initial set is closed. */
  method MakeCollector(lines: seq<Line>, n: nat, epsilon: int, eTable: array<int>, tempMove: array<int>)
    returns (c: Collector)
    requires WellFormed(lines, n) && eTable != tempMove && eTable.Length == n && tempMove.Length == n + 1
    requires epsilon == -1 ==> forall a :: a in ArcsOf(lines) ==> a.lab != EPSILON_PAIR
    ensures fresh(c) && fresh(c.marks) && fresh(c.markTable) && c.Wired() && c.m == MachineOf(lines) && c.n == n
    ensures c.eTable == eTable && c.tempMove == tempMove && c.mainloop == 1
    ensures NotYet(c.marks[..], 1) && NotYet(c.markTable[..], 1)
  {
    hide WellFormed, MemoOk;
    LinesInRange(lines, n);
    var memo := [];
    if epsilon != -1 {
      var deterministic;
      memo, deterministic := MemoizeClosure(lines, n);
    }
    c := new Collector(memo, epsilon, MachineOf(lines), n, eTable, tempMove, 1);
  }

  /** Numbers the initial set, the closure of the start states. */
  method FirstSet(c: Collector, num: nat, n: nat, finals: seq<bool>) returns (table: SetTable)
    requires c.Collecting(num) && c.n == n && FinalsOk(finals, c.m, n) && n <= INT_MAX
    requires Elements(c.tempMove[..num]) == Starts(c.m, n)
    modifies c, c.eTable, c.tempMove, c.marks, c.markTable
    ensures c.Ready() && fresh(table) && fresh(table.buckets) && table.Valid() && AllWithin(table.sets, n)
    ensures table.keys == [Closure(c.m, n, Starts(c.m, n))]
    ensures FlagsRight(table.finalStart, table.keys, SubsetMachine(c.m, n))
  {
    hide MemoOk, Elements, Closure, StampedAs, SubsetMachine, SetTable.Valid, InRange, Distinct, HoldsFinal, Starts;
    table := new SetTable(if n < 12 then 6 else n / 2);
    var size := c.Finish(num);
    var list := c.tempMove[..size];
    StampedWithin(c.eTable[..], c.mainloop - 1, list);
    StartsRange(c.m, n);
    FinalSet(list, finals, c.m, n);
    NoLists(table);
    var t := table.FindInsert(list, c.eTable, c.mainloop, finals);
  }

  lemma NoLists(table: SetTable)
    requires table.Valid() && table.sets == []
    ensures table.finalStart == [] && table.keys == []
  {
  }

  lemma StartsRange(m: Machine<int>, n: nat)
    ensures forall p :: p in Starts(m, n) ==> 0 <= p < n
  {
  }

  /** The net is the subset machine, each of its states but the first entered by an arc. */
  ghost predicate BuiltFrom(m: Machine<int>, n: nat, net: seq<Line>, count: nat) {
    exists keys :: |keys| == count > 0 && keys[0] == Closure(m, n, Starts(m, n))
                   && Renames(SubsetMachine(m, n), MachineOf(net), keys)
                   && forall j :: 0 < j < count ==> Introduced(net, j)
  }

  /** The main loop: set after set until none waits. */
  method BuildAll(sigmaMax: int, table: SetTable, c: Collector, trans: seq<seq<Trans>>, single: seq<Label>,
                  finals: seq<bool>, n: nat)
    returns (net: seq<Line>, count: nat, deterministic: bool)
    requires -1 <= sigmaMax && c.Ready() && c.n == n && FinalsOk(finals, c.m, n)
    requires table.Valid() && AllWithin(table.sets, n) && table.keys == [Closure(c.m, n, Starts(c.m, n))]
    requires FlagsRight(table.finalStart, table.keys, SubsetMachine(c.m, n))
    requires ListsOk(trans, c.m, n, single) && LabelsKnown(c.m, single) && LabelsFit(single, sigmaMax + 1)
    modifies c, c.eTable, c.tempMove, c.marks, c.markTable, table, table.buckets
    ensures BuiltFrom(c.m, n, net, count) && WellFormed(net, count)
  {
    hide SetTable.Valid, NetBuilder.Valid, StackOk, Follows, Finished, Numbered, FlagsRight, MemoOk, Closure, Moves,
      ListsOk, StampedAs, LabelsKnown, InRange, AllSubsets, AllWithin, Below, NoLineOf, FinalsOk, LabelsFit,
      Collector.Ready;
    var tails := new int[n];
    var sb := new SubsetBuilder(sigmaMax, table, SubsetMachine(c.m, n), n);
    var t := sb.Pop();
    while true
      invariant sb.Popped() && t == sb.cur && c.Ready() && fresh(sb) && fresh(sb.builder) && fresh(sb.builder.slookup)
      invariant sb.table == table && (table.buckets == old(table.buckets) || fresh(table.buckets))
      invariant sb.prod == SubsetMachine(c.m, n) && sb.n == n && sb.builder.slookup.Length0 == sigmaMax + 1
      decreases AllSubsets(n) - sb.done
    {
      SubsetsOnly(sb, c.m, n);
      BuildSubset(sb, c, tails, trans, single, finals, t);
      if sb.stack == [] {
        break;
      }
      t := sb.Pop();
      SubsetsOnly(sb, c.m, n);
    }
    assert sb.table.keys[0] in SubsetMachine(c.m, n).starts;
    net, count, deterministic := sb.Close();
    assert |sb.table.keys| == count;
  }

  /**
   Determinization. `known` is the net's own determinism flag, as the builder sets it. The
   result accepts a word iff the net accepts it with some 0:0 pairs mixed in.
   */
  method Determinize(lines: seq<Line>, n: nat, sigmaMax: int, known: bool) returns (net: seq<Line>, count: nat)
    requires WellFormed(lines, n) && Startable(lines) && SymbolsUpTo(lines, sigmaMax) && -1 <= sigmaMax
    requires |lines| <= INT_MAX && n <= INT_MAX
    requires known ==> Deterministic(MachineOf(lines))
    ensures WellFormed(net, count) && Deterministic(MachineOf(net))
    ensures forall w :: Accepts(MachineOf(net), w) <==> AcceptsErased(MachineOf(lines), w)
    ensures known ==> net == lines
    ensures net != lines || count != n ==> BuiltFrom(MachineOf(lines), n, net, count)
  {
    hide WellFormed, MemoOk, Closure, StampedAs, SetTable.Valid, InRange, AllListed, Strict, PairsOf, CodesOk,
         LabelsKnown, Renames, Startable,
      Elements, Starts, FinalsOk, FlagsRight;
    if known {
      DeterministicErases(MachineOf(lines));
      return lines, n;
    }
    var single, double, epsilon := NumberPairs(lines, n, sigmaMax + 1);
    var trans, deterministic := InitTransitions(lines, n, single, double, epsilon);
    PairsKnown(lines, n, single);
    LinesInRange(lines, n);
    NoEpsilonLabels(MachineOf(lines), single);
    var eTable := new int[n](_ => 0);
    var tempMove := new int[n + 1];
    var finals, num, numss := InitialStates(lines, n, eTable, tempMove, 1);
    ghost var starts := tempMove[..num];
    var c := MakeCollector(lines, n, epsilon, eTable, tempMove);
    var table := FirstSet(c, num, n, finals);
    if deterministic && epsilon == -1 && num == 1 && numss == 0 {
      OneStart(MachineOf(lines), n, starts);
      StrictMeansDeterministic(lines, n, single, trans);
      DeterministicErases(MachineOf(lines));
      return lines, n;
    }
    var flag;
    net, count, flag := BuildAll(sigmaMax, table, c, trans, single, finals, n);
    ghost var keys :| |keys| == count > 0 && keys[0] == Closure(MachineOf(lines), n, Starts(MachineOf(lines), n))
                      && Renames(SubsetMachine(MachineOf(lines), n), MachineOf(net), keys);
    SubsetsRenamed(MachineOf(lines), n, net, keys);
  }

  lemma OneStart(m: Machine<int>, n: nat, list: seq<int>)
    requires InRange(m, n) && list == [0] && Elements(list) == Starts(m, n)
    ensures m.starts == iset{0}
  {
    assert 0 in Elements(list);
    forall p | p in m.starts ensures p == 0 {
      assert p in Starts(m, n);
    }
  }

  lemma NoEpsilonLabels(m: Machine<int>, single: seq<Label>)
    requires LabelsKnown(m, single)
    ensures EPSILON_PAIR !in single ==> forall a :: a in m.arcs ==> a.lab != EPSILON_PAIR
  {
  }
}
