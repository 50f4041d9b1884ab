/**
 Reading words backward: the reversed machine, and why determinizing the reversal of a
 deterministic machine is nearly minimal.
 */
module Reversal {
  import opened Automata
  import opened Subsets

  function Rev(w: seq<Label>): (r: seq<Label>)
    ensures |r| == |w|
  {
    if w == [] then [] else Rev(w[1..]) + [w[0]]
  }

  lemma {:induction false} RevAppend(u: seq<Label>, v: seq<Label>)
    ensures Rev(u + v) == Rev(v) + Rev(u)
  {
    if u == [] {
      assert u + v == v && Rev(v) + [] == Rev(v);
    } else {
      RevAppend(u[1..], v);
      assert (u + v)[0] == u[0] && (u + v)[1..] == u[1..] + v;
    }
  }

  lemma {:induction false} RevTwice(w: seq<Label>)
    ensures Rev(Rev(w)) == w
  {
    if w != [] {
      RevTwice(w[1..]);
      RevAppend(Rev(w[1..]), [w[0]]);
      RevOne(w[0]);
      assert w == [w[0]] + w[1..];
    }
  }

  lemma RevOne(l: Label)
    ensures Rev([l]) == [l]
  {
    assert [l][1..] == [];
  }

  lemma {:induction false} RevErase(w: seq<Label>)
    ensures Erase(Rev(w)) == Rev(Erase(w))
  {
    if w != [] {
      RevErase(w[1..]);
      EraseAppend(Rev(w[1..]), [w[0]]);
      assert [w[0]][1..] == [];
      if w[0] == EPSILON_PAIR {
        assert Erase([w[0]]) == [];
        assert Rev(Erase(w[1..])) + [] == Rev(Erase(w[1..]));
        assert Erase(w) == Erase(w[1..]);
      } else {
        assert Erase([w[0]]) == [w[0]];
        assert Erase(w)[0] == w[0] && Erase(w)[1..] == Erase(w[1..]);
      }
    }
  }

  /** All arcs turned around, states moved up by one to make room for a fresh start state 0. */
  ghost predicate ReversedArc(m: Machine<int>, a: Arc<int>) {
    || (a.src >= 1 && a.tgt >= 1 && Arc(a.tgt - 1, a.lab, a.src - 1) in m.arcs)
    || (a.src == 0 && a.lab == EPSILON_PAIR && a.tgt >= 1 && (a.tgt - 1) in m.finals)
  }

  ghost predicate MovedStart(m: Machine<int>, s: int) {
    s >= 1 && (s - 1) in m.starts
  }

  ghost function ReversedMachine(m: Machine<int>): Machine<int> {
    Machine(iset a: Arc<int> | ReversedArc(m, a) :: a, iset{0}, iset s: int | MovedStart(m, s) :: s)
  }

  ghost predicate NonNegative(m: Machine<int>) {
    && (forall a :: a in m.arcs ==> a.src >= 0 && a.tgt >= 0)
    && (forall s :: s in m.starts || s in m.finals ==> s >= 0)
  }

  lemma {:induction false} ReversedReads(m: Machine<int>, p: int, w: seq<Label>, q: int)
    requires NonNegative(m) && p >= 0 && Reads(m, p, w, q)
    ensures q >= 0 && Reads(ReversedMachine(m), q + 1, Rev(w), p + 1)
    decreases |w|
  {
    if w != [] {
      var s := ReadsHead(m, p, w, q);
      assert Arc(p, w[0], s).tgt >= 0;
      ReversedReads(m, s, w[1..], q);
      ReadsOne(ReversedMachine(m), s + 1, w[0], p + 1);
      assert ReversedArc(m, Arc(s + 1, w[0], p + 1));
      ReadsAppend(ReversedMachine(m), q + 1, Rev(w[1..]), s + 1, [w[0]], p + 1);
    }
  }

  lemma {:induction false} ReversedBack(m: Machine<int>, q: int, w: seq<Label>, p: int)
    requires q >= 1 && Reads(ReversedMachine(m), q, w, p)
    ensures p >= 1 && Reads(m, p - 1, Rev(w), q - 1)
    decreases |w|
  {
    if w != [] {
      var s := ReadsHead(ReversedMachine(m), q, w, p);
      assert ReversedArc(m, Arc(q, w[0], s));
      ReversedBack(m, s, w[1..], p);
      ReadsOne(m, s - 1, w[0], q - 1);
      ReadsAppend(m, p - 1, Rev(w[1..]), s - 1, [w[0]], q - 1);
    }
  }

  /** The reversed machine accepts the reversed words, up to 0:0 pairs. */
  lemma ReversedLanguage(m: Machine<int>)
    requires NonNegative(m)
    ensures forall v :: AcceptsErased(ReversedMachine(m), v) <==> AcceptsErased(m, Rev(v))
  {
    forall v ensures AcceptsErased(ReversedMachine(m), v) <==> AcceptsErased(m, Rev(v)) {
      if AcceptsErased(ReversedMachine(m), v) {
        ReversedGives(m, v);
      }
      if AcceptsErased(m, Rev(v)) {
        GivesReversed(m, v);
      }
    }
  }

  lemma ReversedGives(m: Machine<int>, v: seq<Label>)
    requires NonNegative(m) && AcceptsErased(ReversedMachine(m), v)
    ensures AcceptsErased(m, Rev(v))
  {
    var w :| Erase(w) == v && Accepts(ReversedMachine(m), w);
    var z, p := AcceptingPath(ReversedMachine(m), w);
    ReversedAccepts(m, w, p);
    RevErase(w[1..]);
    assert Erase(Rev(w[1..])) == Rev(v);
  }

  lemma GivesReversed(m: Machine<int>, v: seq<Label>)
    requires NonNegative(m) && AcceptsErased(m, Rev(v))
    ensures AcceptsErased(ReversedMachine(m), v)
  {
    hide Reads, Rev;
    var w :| Erase(w) == Rev(v) && Accepts(m, w);
    var p, q := AcceptingPath(m, w);
    ReversedReads(m, p, w, q);
    assert ReversedArc(m, Arc(0, EPSILON_PAIR, q + 1));
    ReadsCons(ReversedMachine(m), 0, EPSILON_PAIR, q + 1, Rev(w), p + 1);
    var x := [EPSILON_PAIR] + Rev(w);
    assert Erase(x) == Erase(x[1..]) && x[1..] == Rev(w);
    RevErase(w);
    RevTwice(v);
    assert MovedStart(m, p + 1);
    assert Accepts(ReversedMachine(m), x);
  }

  lemma ReversedAccepts(m: Machine<int>, w: seq<Label>, p: int)
    requires Reads(ReversedMachine(m), 0, w, p) && p in ReversedMachine(m).finals
    ensures w != [] && w[0] == EPSILON_PAIR && Erase(w) == Erase(w[1..]) && Accepts(m, Rev(w[1..]))
  {
    assert w == [] ==> p == 0;
    var s := ReadsHead(ReversedMachine(m), 0, w, p);
    assert ReversedArc(m, Arc(0, w[0], s));
    ReversedBack(m, s, w[1..], p);
  }

  // ----- Near-minimality -----

  /** Two states with different residual languages. */
  ghost predicate Separated<S(!new)>(m: Machine<S>, s: S, t: S) {
    exists w :: EPSILON_PAIR !in w && (AcceptsFrom(m, s, w) != AcceptsFrom(m, t, w))
  }

  ghost predicate AllReachable(m: Machine<int>, n: nat) {
    forall q :: 0 <= q < n ==> Reachable(m, q)
  }

  /** In the reversal of a deterministic machine with start state 0, a word leads to 1 from at most one state. */
  lemma ReadsBackFrom(m: Machine<int>, w: seq<Label>, q: int)
    requires Deterministic(m) && NonNegative(m) && q >= 1 && EPSILON_PAIR !in w
    ensures ErasedReads(ReversedMachine(m), q, w, 1) <==> Reads(m, 0, Rev(w), q - 1)
  {
    if ErasedReads(ReversedMachine(m), q, w, 1) {
      var x :| Erase(x) == w && Reads(ReversedMachine(m), q, x, 1);
      ReversedBack(m, q, x, 1);
      ReadsNoEpsilon(m, 0, Rev(x), q - 1);
      ErasesAll(Rev(x));
      RevErase(x);
      RevTwice(x);
      RevTwice(w);
      assert Rev(w) == Rev(x);
    }
    if Reads(m, 0, Rev(w), q - 1) {
      ReversedReads(m, 0, Rev(w), q - 1);
      RevTwice(w);
      ErasesAll(w);
    }
  }

  /** The original leads into the set over the reversed word. */
  ghost predicate LedInto(m: Machine<int>, s: set<int>, w: seq<Label>) {
    exists q :: q in s && ErasedReads(ReversedMachine(m), q, w, 1)
  }

  /** A set of states accepts the words that lead to 1, the old start state. */
  lemma SetAccepts(m: Machine<int>, n: nat, s: set<int>, w: seq<Label>)
    requires InRange(ReversedMachine(m), n) && m.starts == iset{0} && Saturated(ReversedMachine(m), s)
             && EPSILON_PAIR !in w
    ensures AcceptsFrom(SubsetMachine(ReversedMachine(m), n), s, w) <==> LedInto(m, s, w)
  {
    hide ReversedMachine;
    var r := ReversedMachine(m);
    var d := SubsetMachine(r, n);
    OnlyFinal(m);
    if AcceptsFrom(d, s, w) {
      var t := AcceptingEnd(d, s, w);
      var f :| f in t && f in r.finals;
      SubsetReads(r, n, s, w, t, 1);
    }
    if LedInto(m, s, w) {
      assert AnyReads(r, s, w, 1);
      var t := SubsetFollows(r, n, s, w, 1);
      assert AnyFinal(r, t);
    }
  }

  lemma OnlyFinal(m: Machine<int>)
    requires m.starts == iset{0}
    ensures forall f :: f in ReversedMachine(m).finals <==> f == 1
  {
    forall f ensures f in ReversedMachine(m).finals <==> f == 1 {
      assert f in ReversedMachine(m).finals <==> MovedStart(m, f);
      assert MovedStart(m, f) <==> f >= 1 && f - 1 == 0;
    }
  }

  /** Two different sets have different residual languages. */
  lemma DifferentSetsSeparated(m: Machine<int>, n: nat, s: set<int>, t: set<int>, q: int)
    requires Deterministic(m) && NonNegative(m) && InRange(ReversedMachine(m), n) && m.starts == iset{0}
    requires Saturated(ReversedMachine(m), s) && 0 !in s && (forall x :: x in s ==> x >= 0)
    requires Saturated(ReversedMachine(m), t) && 0 !in t && (forall x :: x in t ==> x >= 0)
    requires q in s && q !in t && Reachable(m, q - 1)
    ensures Separated(SubsetMachine(ReversedMachine(m), n), s, t)
  {
    hide ReversedMachine, SubsetMachine, Saturated;
    var p, u :| p in m.starts && Reads(m, p, u, q - 1);
    ReadsNoEpsilon(m, 0, u, q - 1);
    var w := Rev(u);
    RevTwice(u);
    RevVisible(u);
    SetAccepts(m, n, s, w);
    SetAccepts(m, n, t, w);
    ReadsBackFrom(m, w, q);
    forall x | x in t ensures !ErasedReads(ReversedMachine(m), x, w, 1) {
      ReadsBackFrom(m, w, x);
      if Reads(m, 0, u, x - 1) {
        ReadsFunctional(m, 0, u, q - 1, x - 1);
      }
    }
    assert LedInto(m, s, w) && !LedInto(m, t, w);
    Told(SubsetMachine(ReversedMachine(m), n), s, t, w);
  }

  lemma Told<S(!new)>(m: Machine<S>, s: S, t: S, w: seq<Label>)
    requires EPSILON_PAIR !in w && AcceptsFrom(m, s, w) != AcceptsFrom(m, t, w)
    ensures Separated(m, s, t)
  {
  }

  lemma {:induction false} RevVisible(w: seq<Label>)
    requires EPSILON_PAIR !in w
    ensures EPSILON_PAIR !in Rev(w)
  {
    if w != [] {
      RevVisible(w[1..]);
      assert w == [w[0]] + w[1..];
    }
  }
}
