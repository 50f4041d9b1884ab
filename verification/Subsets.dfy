/**
 The meaning of subset construction: states are sets of states closed under 0:0 arcs, and the
 machine they form is deterministic and accepts a word iff the original accepts it with some
 0:0 pairs mixed in.
 */
module Subsets {
  import opened Automata

  /** There is a path from `p` to `q` that spells `v` once 0:0 pairs are erased. */
  ghost predicate ErasedReads(m: Machine<int>, p: int, v: seq<Label>, q: int) {
    exists w :: Erase(w) == v && Reads(m, p, w, q)
  }

  /** All states reachable over 0:0 arcs alone. */
  ghost function Closure(m: Machine<int>, n: nat, seeds: set<int>): set<int> {
    set q | 0 <= q < n && AnyReads(m, seeds, [], q)
  }

  ghost function Moves(m: Machine<int>, n: nat, from: set<int>, l: Label): set<int> {
    set q | 0 <= q < n && MovesTo(m, from, l, q)
  }

  ghost predicate MovesTo(m: Machine<int>, from: set<int>, l: Label, q: int) {
    exists p :: p in from && Arc(p, l, q) in m.arcs
  }

  /** Some state of `s` reaches `q` over `v`. */
  ghost predicate AnyReads(m: Machine<int>, s: set<int>, v: seq<Label>, q: int) {
    exists p :: p in s && ErasedReads(m, p, v, q)
  }

  ghost predicate ClosedUnderEpsilon(m: Machine<int>, c: set<int>) {
    forall p, q :: p in c && Arc(p, EPSILON_PAIR, q) in m.arcs ==> q in c
  }

  ghost predicate InRange(m: Machine<int>, n: nat) {
    && (forall a :: a in m.arcs ==> 0 <= a.src < n && 0 <= a.tgt < n)
    && (forall s :: s in m.starts ==> 0 <= s < n)
  }

  ghost predicate IsStart(m: Machine<int>, p: int) {
    p in m.starts
  }

  ghost function Starts(m: Machine<int>, n: nat): set<int> {
    set p | 0 <= p < n && IsStart(m, p)
  }

  ghost function SubsetMachine(m: Machine<int>, n: nat): Machine<set<int>> {
    Machine(iset a: Arc<set<int>> | SubsetArc(m, n, a) :: a,
            iset{Closure(m, n, Starts(m, n))},
            iset s: set<int> | AnyFinal(m, s) :: s)
  }

  ghost predicate SubsetArc(m: Machine<int>, n: nat, a: Arc<set<int>>) {
    a.lab != EPSILON_PAIR && Moves(m, n, a.src, a.lab) != {} && a.tgt == Closure(m, n, Moves(m, n, a.src, a.lab))
  }

  ghost predicate AnyFinal(m: Machine<int>, s: set<int>) {
    exists q :: q in s && q in m.finals
  }

  /** Closed under 0:0 arcs. */
  ghost predicate Saturated(m: Machine<int>, s: set<int>) {
    forall p, q :: p in s && ErasedReads(m, p, [], q) ==> q in s
  }

  // ----- Paths up to 0:0 -----

  lemma ErasedReadsAppend(m: Machine<int>, p: int, u: seq<Label>, q: int, v: seq<Label>, r: int)
    requires ErasedReads(m, p, u, q) && ErasedReads(m, q, v, r)
    ensures ErasedReads(m, p, u + v, r)
  {
    var x :| Erase(x) == u && Reads(m, p, x, q);
    var y :| Erase(y) == v && Reads(m, q, y, r);
    ReadsAppend(m, p, x, q, y, r);
    EraseAppend(x, y);
  }

  lemma SilentThen(m: Machine<int>, p: int, q: int, v: seq<Label>, r: int)
    requires ErasedReads(m, p, [], q) && ErasedReads(m, q, v, r)
    ensures ErasedReads(m, p, v, r)
  {
    ErasedReadsAppend(m, p, [], q, v, r);
    assert [] + v == v;
  }

  lemma Stay(m: Machine<int>, p: int)
    ensures ErasedReads(m, p, [], p)
  {
    assert Erase([]) == [] && Reads(m, p, [], p);
  }

  lemma OneArc(m: Machine<int>, p: int, l: Label, q: int)
    requires Arc(p, l, q) in m.arcs
    ensures ErasedReads(m, p, if l == EPSILON_PAIR then [] else [l], q)
  {
    ReadsOne(m, p, l, q);
    assert [l][1..] == [];
    assert Erase([l]) == if l == EPSILON_PAIR then [] else [l];
  }

  /** The first visible pair on a path, with the 0:0 pairs before it. */
  lemma {:induction false} FirstVisible(m: Machine<int>, p: int, w: seq<Label>, q: int) returns (s: int, r: int)
    requires Reads(m, p, w, q) && Erase(w) != []
    ensures ErasedReads(m, p, [], s) && Arc(s, Erase(w)[0], r) in m.arcs && Erase(w)[0] != EPSILON_PAIR
    ensures ErasedReads(m, r, Erase(w)[1..], q)
    decreases |w|
  {
    var t := ReadsHead(m, p, w, q);
    if w[0] == EPSILON_PAIR {
      s, r := FirstVisible(m, t, w[1..], q);
      OneArc(m, p, w[0], t);
      SilentThen(m, p, t, [], s);
    } else {
      Stay(m, p);
      s, r := p, t;
      assert Erase(w)[1..] == Erase(w[1..]);
    }
  }

  lemma {:induction false} ErasedInRange(m: Machine<int>, n: nat, p: int, w: seq<Label>, q: int)
    requires InRange(m, n) && 0 <= p < n && Reads(m, p, w, q)
    ensures 0 <= q < n
    decreases |w|
  {
    if w != [] {
      var r := ReadsHead(m, p, w, q);
      assert 0 <= Arc(p, w[0], r).tgt < n;
      ErasedInRange(m, n, r, w[1..], q);
    }
  }

  lemma {:induction false} ErasesAll(w: seq<Label>)
    requires EPSILON_PAIR !in w
    ensures Erase(w) == w
  {
    if w != [] {
      ErasesAll(w[1..]);
      assert w == [w[0]] + w[1..];
    }
  }

  lemma {:induction false} ErasedIsVisible(w: seq<Label>)
    ensures EPSILON_PAIR !in Erase(w)
  {
    if w != [] {
      ErasedIsVisible(w[1..]);
    }
  }

  // ----- Closures -----

  lemma ClosureSaturated(m: Machine<int>, n: nat, seeds: set<int>)
    requires InRange(m, n) && forall p :: p in seeds ==> 0 <= p < n
    ensures Saturated(m, Closure(m, n, seeds))
    ensures seeds <= Closure(m, n, seeds)
  {
    var c := Closure(m, n, seeds);
    forall p, q | p in c && ErasedReads(m, p, [], q) ensures q in c {
      var s :| s in seeds && ErasedReads(m, s, [], p);
      SilentThen(m, s, p, [], q);
      var w :| Erase(w) == [] && Reads(m, p, w, q);
      ErasedInRange(m, n, p, w, q);
    }
    forall p | p in seeds ensures p in c {
      Stay(m, p);
    }
  }

  /** What a worklist computes: the least set that holds the seeds and is closed under single 0:0 arcs. */
  lemma ClosureLeast(m: Machine<int>, n: nat, seeds: set<int>, c: set<int>)
    requires InRange(m, n) && seeds <= c && forall p :: p in c ==> 0 <= p < n
    requires forall q :: q in c ==> AnyReads(m, seeds, [], q)
    requires ClosedUnderEpsilon(m, c)
    ensures c == Closure(m, n, seeds)
  {
    hide AnyReads, ClosedUnderEpsilon, InRange;
    forall q ensures q in Closure(m, n, seeds) <==> q in c {
      if q in Closure(m, n, seeds) {
        ReachedStays(m, seeds, c, q);
      }
    }
  }

  lemma ReachedStays(m: Machine<int>, seeds: set<int>, c: set<int>, q: int)
    requires ClosedUnderEpsilon(m, c) && seeds <= c && AnyReads(m, seeds, [], q)
    ensures q in c
  {
    var p :| p in seeds && ErasedReads(m, p, [], q);
    var w :| Erase(w) == [] && Reads(m, p, w, q);
    StaysIn(m, c, p, w, q);
  }

  lemma {:induction false} StaysIn(m: Machine<int>, c: set<int>, p: int, w: seq<Label>, q: int)
    requires ClosedUnderEpsilon(m, c)
    requires p in c && Erase(w) == [] && Reads(m, p, w, q)
    ensures q in c
    decreases |w|
  {
    if w != [] {
      var r := ReadsHead(m, p, w, q);
      StaysIn(m, c, r, w[1..], q);
    }
  }

  /** Without 0:0 arcs every set is its own closure. */
  lemma NoEpsilonClosure(m: Machine<int>, n: nat, seeds: set<int>)
    requires InRange(m, n) && (forall p :: p in seeds ==> 0 <= p < n)
    requires forall a :: a in m.arcs ==> a.lab != EPSILON_PAIR
    ensures Closure(m, n, seeds) == seeds
  {
    forall q | q in seeds ensures AnyReads(m, seeds, [], q) {
      Stay(m, q);
    }
    ClosureLeast(m, n, seeds, seeds);
  }

  // ----- The subset machine accepts the same words up to 0:0 -----

  /** One move of the subset machine covers exactly the paths with one visible pair. */
  lemma SubsetStep(m: Machine<int>, n: nat, s: set<int>, l: Label, q: int)
    requires InRange(m, n) && Saturated(m, s) && l != EPSILON_PAIR
    ensures q in Closure(m, n, Moves(m, n, s, l)) <==> exists p :: p in s && ErasedReads(m, p, [l], q)
  {
    if q in Closure(m, n, Moves(m, n, s, l)) {
      var r :| r in Moves(m, n, s, l) && ErasedReads(m, r, [], q);
      var p :| p in s && Arc(p, l, r) in m.arcs;
      OneArc(m, p, l, r);
      ErasedReadsAppend(m, p, [l], r, [], q);
      assert [l] + [] == [l];
    }
    if p :| p in s && ErasedReads(m, p, [l], q) {
      var w :| Erase(w) == [l] && Reads(m, p, w, q);
      var t, r := FirstVisible(m, p, w, q);
      assert Erase(w)[1..] == [];
      assert t in s;
      var a := Arc(t, l, r);
      assert a in m.arcs;
      assert 0 <= a.tgt < n && r in Moves(m, n, s, l);
      var y :| Erase(y) == [] && Reads(m, r, y, q);
      ErasedInRange(m, n, r, y, q);
    }
  }

  lemma MovesWithin(m: Machine<int>, n: nat, s: set<int>, l: Label)
    requires InRange(m, n)
    ensures Saturated(m, Closure(m, n, Moves(m, n, s, l)))
    ensures forall q :: q in Closure(m, n, Moves(m, n, s, l)) ==> 0 <= q < n
    ensures Moves(m, n, s, l) != {} <==> Closure(m, n, Moves(m, n, s, l)) != {}
  {
    ClosureSaturated(m, n, Moves(m, n, s, l));
    if Moves(m, n, s, l) == {} {
      assert Closure(m, n, {}) == {};
    }
  }

  /** Splitting a path of the original after its first visible pair. */
  lemma AnyReadsHead(m: Machine<int>, n: nat, s: set<int>, v: seq<Label>, q: int)
    requires InRange(m, n) && Saturated(m, s) && v != [] && v[0] != EPSILON_PAIR
    ensures AnyReads(m, s, v, q) <==> AnyReads(m, Closure(m, n, Moves(m, n, s, v[0])), v[1..], q)
  {
    hide Closure, Moves, InRange;
    var next := Closure(m, n, Moves(m, n, s, v[0]));
    if AnyReads(m, s, v, q) {
      var p :| p in s && ErasedReads(m, p, v, q);
      var w :| Erase(w) == v && Reads(m, p, w, q);
      var t, r := FirstVisible(m, p, w, q);
      OneArc(m, t, v[0], r);
      assert t in s;
      SubsetStep(m, n, s, v[0], r);
    }
    if AnyReads(m, next, v[1..], q) {
      var r :| r in next && ErasedReads(m, r, v[1..], q);
      SubsetStep(m, n, s, v[0], r);
      var p :| p in s && ErasedReads(m, p, [v[0]], r);
      ErasedReadsAppend(m, p, [v[0]], r, v[1..], q);
      assert [v[0]] + v[1..] == v;
    }
  }

  /** A subset reached over `v` holds exactly the states that the original reaches over `v`. */
  lemma {:induction false} SubsetReads(m: Machine<int>, n: nat, s: set<int>, v: seq<Label>, t: set<int>, q: int)
    requires InRange(m, n) && Saturated(m, s) && Reads(SubsetMachine(m, n), s, v, t)
    ensures q in t <==> AnyReads(m, s, v, q)
    decreases |v|
  {
    if v == [] {
      if q in t {
        Stay(m, q);
      }
    } else {
      var next := ReadsHead(SubsetMachine(m, n), s, v, t);
      assert SubsetArc(m, n, Arc(s, v[0], next));
      MovesWithin(m, n, s, v[0]);
      AnyReadsHead(m, n, s, v, q);
      SubsetReads(m, n, next, v[1..], t, q);
    }
  }

  /** Whatever the original reaches, some subset path reaches. */
  lemma {:induction false} SubsetFollows(m: Machine<int>, n: nat, s: set<int>, v: seq<Label>, q: int)
    returns (t: set<int>)
    requires InRange(m, n) && Saturated(m, s) && AnyReads(m, s, v, q) && EPSILON_PAIR !in v
    ensures Reads(SubsetMachine(m, n), s, v, t) && q in t
    decreases |v|
  {
    if v == [] {
      t := s;
    } else {
      var next := Closure(m, n, Moves(m, n, s, v[0]));
      MovesWithin(m, n, s, v[0]);
      AnyReadsHead(m, n, s, v, q);
      t := SubsetFollows(m, n, next, v[1..], q);
      assert SubsetArc(m, n, Arc(s, v[0], next));
      ReadsCons(SubsetMachine(m, n), s, v[0], next, v[1..], t);
      assert v == [v[0]] + v[1..];
    }
  }

  lemma SubsetDeterministic(m: Machine<int>, n: nat)
    ensures Deterministic(SubsetMachine(m, n))
  {
  }

  lemma StartsRead(m: Machine<int>, n: nat, v: seq<Label>, q: int)
    requires InRange(m, n)
    ensures AnyReads(m, Closure(m, n, Starts(m, n)), v, q) <==> exists p :: p in m.starts && ErasedReads(m, p, v, q)
  {
    hide ErasedReads;
    ClosureSaturated(m, n, Starts(m, n));
    if AnyReads(m, Closure(m, n, Starts(m, n)), v, q) {
      var r :| r in Closure(m, n, Starts(m, n)) && ErasedReads(m, r, v, q);
      var p :| p in Starts(m, n) && ErasedReads(m, p, [], r);
      SilentThen(m, p, r, v, q);
    }
    if p :| p in m.starts && ErasedReads(m, p, v, q) {
      assert p in Starts(m, n);
    }
  }

  /** Subset construction keeps the words up to 0:0 pairs and accepts them without any. */
  lemma SubsetLanguage(m: Machine<int>, n: nat)
    requires InRange(m, n)
    ensures forall v :: Accepts(SubsetMachine(m, n), v) <==> AcceptsErased(m, v)
  {
    var d, start := SubsetMachine(m, n), Closure(m, n, Starts(m, n));
    ClosureSaturated(m, n, Starts(m, n));
    forall v ensures Accepts(d, v) <==> AcceptsErased(m, v) {
      if Accepts(d, v) {
        var s, t := AcceptingPath(d, v);
        var q :| q in t && q in m.finals;
        SubsetReads(m, n, start, v, t, q);
        StartsRead(m, n, v, q);
        var p :| p in m.starts && ErasedReads(m, p, v, q);
        var w :| Erase(w) == v && Reads(m, p, w, q);
        assert Accepts(m, w);
      }
      if AcceptsErased(m, v) {
        var w :| Erase(w) == v && Accepts(m, w);
        var p, q := AcceptingPath(m, w);
        ErasedIsVisible(w);
        StartsRead(m, n, v, q);
        var t := SubsetFollows(m, n, start, v, q);
        assert AnyFinal(m, t);
      }
    }
  }
}
