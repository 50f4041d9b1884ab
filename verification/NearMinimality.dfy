/**
 Reversal followed by determinization: what the result accepts, and that all its states but the
 start state have different residual languages.
 */
module NearMinimality {
  import opened Automata
  import opened Coaccessibility
  import opened Counting
  import opened Determinization
  import opened NetReading
  import opened Reversal
  import opened Reversing
  import opened SetNumbering
  import opened Subsets
  import opened Worklist

  /** Without 0:0 self loops the construction handle yields exactly what was entered. */
  lemma ExactlyEntered(m: Machine<int>, net: seq<Line>, count: nat)
    requires Renames(m, MachineOf(net), UpTo(count)) && Whole(m, count)
    requires forall a :: a in m.arcs && a.lab == EPSILON_PAIR ==> a.src != a.tgt
    ensures MachineOf(net) == m
  {
    hide Renames, ArcsOf;
    var r := MachineOf(net);
    forall a ensures a in r.arcs <==> a in m.arcs {
      ArcEnteredBack(m, r, count, a);
    }
    forall s ensures (s in r.starts <==> s in m.starts) && (s in r.finals <==> s in m.finals) {
      FlagsEntered(m, r, count, s);
    }
    assert r.arcs == m.arcs;
    assert r.starts == m.starts;
    assert r.finals == m.finals;
  }

  lemma ArcEnteredBack(m: Machine<int>, r: Machine<int>, count: nat, a: Arc<int>)
    requires Renames(m, r, UpTo(count)) && Whole(m, count)
    requires forall a :: a in m.arcs && a.lab == EPSILON_PAIR ==> a.src != a.tgt
    ensures a in r.arcs <==> a in m.arcs
  {
    if a in r.arcs {
      assert Arc(UpTo(count)[a.src], a.lab, UpTo(count)[a.tgt]) == a;
    }
    if a in m.arcs {
      assert Arc(UpTo(count)[a.src], a.lab, UpTo(count)[a.tgt]) == a;
    }
  }

  lemma FlagsEntered(m: Machine<int>, r: Machine<int>, count: nat, s: int)
    requires Renames(m, r, UpTo(count)) && Whole(m, count)
    ensures (s in r.starts <==> s in m.starts) && (s in r.finals <==> s in m.finals)
  {
    assert 0 <= s < count ==> UpTo(count)[s] == s;
  }

  /** Nothing leads back to the fresh start state. */
  lemma {:induction false} NeverBack(m: Machine<int>, p: int, w: seq<Label>, q: int)
    requires p != 0 && Reads(ReversedMachine(m), p, w, q)
    ensures q != 0
    decreases |w|
  {
    if w != [] {
      var r := ReadsHead(ReversedMachine(m), p, w, q);
      assert ReversedArc(m, Arc(p, w[0], r));
      NeverBack(m, r, w[1..], q);
    }
  }

  /** A set that an arc leads to is saturated and does not hold the fresh start state. */
  lemma EnteredSet(m: Machine<int>, n: nat, a: Arc<set<int>>)
    requires InRange(ReversedMachine(m), n) && a in SubsetMachine(ReversedMachine(m), n).arcs
    ensures Saturated(ReversedMachine(m), a.tgt) && 0 !in a.tgt && forall q :: q in a.tgt ==> 0 <= q < n
  {
    var r := ReversedMachine(m);
    assert SubsetArc(r, n, a);
    MovesWithin(r, n, a.src, a.lab);
    if 0 in a.tgt {
      var p :| p in Moves(r, n, a.src, a.lab) && ErasedReads(r, p, [], 0);
      var s :| s in a.src && Arc(s, a.lab, p) in r.arcs;
      assert ReversedArc(m, Arc(s, a.lab, p));
      var w :| Erase(w) == [] && Reads(r, p, w, 0);
      NeverBack(m, p, w, 0);
    }
  }

  /** Renaming keeps residual languages. */
  lemma ResidualRenamed<S(!new)>(d: Machine<S>, r: Machine<int>, keys: seq<S>, i: int, w: seq<Label>)
    requires Renames(d, r, keys) && 0 <= i < |keys| && EPSILON_PAIR !in w
    ensures AcceptsFrom(r, i, w) <==> AcceptsFrom(d, keys[i], w)
  {
    if AcceptsFrom(r, i, w) {
      var q := AcceptingEnd(r, i, w);
      RenamedBack(d, r, keys, i, w, q);
    }
    if AcceptsFrom(d, keys[i], w) {
      var q := AcceptingEnd(d, keys[i], w);
      var w', j := RenamedForth(d, r, keys, i, w, q);
    }
  }

  lemma SeparatedRenamed<S(!new)>(d: Machine<S>, r: Machine<int>, keys: seq<S>, i: int, j: int)
    requires Renames(d, r, keys) && 0 <= i < |keys| && 0 <= j < |keys|
             && (Separated(d, keys[i], keys[j]) || Separated(d, keys[j], keys[i]))
    ensures Separated(r, i, j)
  {
    var w :| EPSILON_PAIR !in w && AcceptsFrom(d, keys[i], w) != AcceptsFrom(d, keys[j], w);
    ResidualRenamed(d, r, keys, i, w);
    ResidualRenamed(d, r, keys, j, w);
  }

  /** Every state but the first is the set that some arc leads to. */
  lemma EnteredKey(d: Machine<set<int>>, net: seq<Line>, keys: seq<set<int>>, j: int) returns (a: Arc<set<int>>)
    requires Renames(d, MachineOf(net), keys) && 0 < j < |keys| && Introduced(net, j)
    ensures a in d.arcs && a.tgt == keys[j]
  {
    var l :| l in net && l.target == j && 0 <= l.state < j;
    assert l.ToArc() in MachineOf(net).arcs;
    a := Arc(keys[l.state], l.ToLabel(), keys[j]);
  }

  /** The residual languages of any two states other than the start state differ. */
  ghost predicate NearlyMinimal(net: seq<Line>, count: nat) {
    forall i, j :: 0 < i < j < count ==> Separated(MachineOf(net), i, j)
  }

  lemma StatesSeparated(m: Machine<int>, states: nat, n: nat, net: seq<Line>, keys: seq<set<int>>, i: int, j: int)
    requires Deterministic(m) && NonNegative(m) && m.starts == iset{0} && InRange(ReversedMachine(m), n)
    requires AllReachable(m, states) && n <= states + 1
    requires Renames(SubsetMachine(ReversedMachine(m), n), MachineOf(net), keys)
    requires 0 < i < |keys| && 0 < j < |keys| && i != j && Introduced(net, i) && Introduced(net, j)
    ensures Separated(MachineOf(net), i, j)
  {
    hide SubsetMachine, ReversedMachine, Saturated, Separated, Introduced;
    var r := ReversedMachine(m);
    var d := SubsetMachine(r, n);
    var a := EnteredKey(d, net, keys, i);
    var b := EnteredKey(d, net, keys, j);
    EnteredSet(m, n, a);
    EnteredSet(m, n, b);
    KeysDiffer(keys, i, j);
    var q := SomeDifference(keys[i], keys[j]);
    assert Reachable(m, q - 1);
    if q in keys[i] {
      DifferentSetsSeparated(m, n, keys[i], keys[j], q);
    } else {
      DifferentSetsSeparated(m, n, keys[j], keys[i], q);
    }
    SeparatedRenamed(d, MachineOf(net), keys, i, j);
  }

  lemma KeysDiffer(keys: seq<set<int>>, i: int, j: int)
    requires Distinct(keys) && 0 <= i < |keys| && 0 <= j < |keys| && i != j
    ensures keys[i] != keys[j]
  {
  }

  /** The reversal of a deterministic machine has no 0:0 self loops, and 0:0 arcs leave its start state. */
  lemma ReversalEpsilons(m: Machine<int>)
    requires Deterministic(m)
    ensures forall a :: a in ReversedMachine(m).arcs && a.lab == EPSILON_PAIR ==> a.src == 0 && a.tgt >= 1
    ensures forall l :: HasMove(ReversedMachine(m), 0, l) ==> l == EPSILON_PAIR
  {
    forall a | a in ReversedMachine(m).arcs && a.lab == EPSILON_PAIR ensures a.src == 0 && a.tgt >= 1 {
      assert ReversedArc(m, a);
      assert a.src >= 1 ==> Arc(a.tgt - 1, a.lab, a.src - 1).lab != EPSILON_PAIR;
    }
    forall l | HasMove(ReversedMachine(m), 0, l) ensures l == EPSILON_PAIR {
      var r :| Arc(0, l, r) in ReversedMachine(m).arcs;
      assert ReversedArc(m, Arc(0, l, r));
    }
  }

  /** A reversal that is not empty is never deterministic, so determinization does not return early. */
  lemma ReversalNotDeterministic(m: Machine<int>)
    requires Deterministic(m) && StartLeads(ReversedMachine(m))
    ensures !Deterministic(ReversedMachine(m))
  {
    ReversalEpsilons(m);
    var r := ReversedMachine(m);
    assert 0 !in r.finals by {
      assert 0 in r.finals <==> MovedStart(m, 0);
    }
    assert Leads(r, 0);
    var l :| HasMove(r, 0, l);
    var q :| Arc(0, l, q) in r.arcs;
    assert Arc(0, l, q).lab == EPSILON_PAIR;
  }

  /** What determinizing a constructed reversal of a deterministic, fully reachable net gives. */
  lemma ReversalNearlyMinimal(lines: seq<Line>, n: nat, rev: seq<Line>, states: nat, net: seq<Line>, count: nat)
    requires WellFormed(lines, n) && Deterministic(MachineOf(lines)) && MachineOf(lines).starts == iset{0}
    requires AllReachable(MachineOf(lines), n)
    requires Constructs(ReversedMachine(MachineOf(lines)), rev, states) && states <= n + 1
    requires (net == rev && count == states && Deterministic(MachineOf(net)))
             || BuiltFrom(MachineOf(rev), states, net, count)
    ensures NearlyMinimal(net, count)
  {
    hide WellFormed, Deterministic, AllReachable, Renames, Closure, Starts, SubsetMachine, ReversedMachine, Introduced;
    var m := MachineOf(lines);
    LinesNonNegative(lines, n);
    if Renames(ReversedMachine(m), MachineOf(rev), UpTo(states)) && Whole(ReversedMachine(m), states)
       && StartLeads(ReversedMachine(m)) {
      ReversalEpsilons(m);
      ExactlyEntered(ReversedMachine(m), rev, states);
      ReversalNotDeterministic(m);
      BuiltNearlyMinimal(m, n, states, net, count);
    } else if net != rev || count != states {
      EmptyBuilt(rev, states, net, count);
    }
  }

  lemma BuiltNearlyMinimal(m: Machine<int>, states: nat, n: nat, net: seq<Line>, count: nat)
    requires Deterministic(m) && NonNegative(m) && m.starts == iset{0} && Whole(ReversedMachine(m), n)
    requires AllReachable(m, states) && n <= states + 1 && BuiltFrom(ReversedMachine(m), n, net, count)
    ensures NearlyMinimal(net, count)
  {
    hide SubsetMachine, ReversedMachine, Deterministic, Renames, Closure, Starts, Separated, Introduced, AllReachable;
    ghost var keys :| |keys| == count > 0 && keys[0] == Closure(ReversedMachine(m), n, Starts(ReversedMachine(m), n))
                      && Renames(SubsetMachine(ReversedMachine(m), n), MachineOf(net), keys)
                         && forall j :: 0 < j < count ==> Introduced(net, j);
    forall i, j | 0 < i < j < count ensures Separated(MachineOf(net), i, j) {
      StatesSeparated(m, states, n, net, keys, i, j);
    }
  }

  /** The empty net has one state, and so has its determinization. */
  lemma EmptyBuilt(rev: seq<Line>, states: nat, net: seq<Line>, count: nat)
    requires rev == EMPTY_NET && states == 1 && BuiltFrom(MachineOf(rev), states, net, count)
    ensures count == 1
  {
    var m := MachineOf(rev);
    var keys :| |keys| == count > 0 && Renames(SubsetMachine(m, states), MachineOf(net), keys)
    && forall j :: 0 < j < count ==> Introduced(net, j);
    if count > 1 {
      assert Introduced(net, 1);
      var a := EnteredKey(SubsetMachine(m, states), net, keys, 1);
      assert SubsetArc(m, states, a);
      NoArcs();
    }
  }

  lemma NoArcs()
    ensures MachineOf(EMPTY_NET).arcs == iset{}
  {
  }

  lemma ConstructedStart(m: Machine<int>, rev: seq<Line>, states: nat)
    requires Constructs(m, rev, states) && m.starts == iset{0}
    ensures HasStart(rev)
  {
    if rev == EMPTY_NET {
      assert rev[0] in rev && rev[0].start;
    } else {
      assert 0 in m.starts && 0 in UpTo(states);
      assert UpTo(states)[0] == 0;
      assert 0 in MachineOf(rev).starts;
      var l :| l in rev && l.start && l.state == 0;
    }
  }

  /**
   Determinizes what `Reverse` made of a deterministic net all of whose states are reachable: the
   result accepts exactly the reversed words, and only its start state may be redundant.
   */
  method DeterminizeReversal(ghost lines: seq<Line>, ghost n: nat, rev: seq<Line>, states: nat, sigmaMax: int)
    returns (net: seq<Line>, count: nat)
    requires WellFormed(lines, n) && Deterministic(MachineOf(lines)) && MachineOf(lines).starts == iset{0}
    requires AllReachable(MachineOf(lines), n)
    requires Constructs(ReversedMachine(MachineOf(lines)), rev, states) && states <= n + 1
    requires forall v :: AcceptsErased(MachineOf(rev), v) <==> AcceptsErased(MachineOf(lines), Rev(v))
    requires SymbolsUpTo(rev, sigmaMax) && -1 <= sigmaMax && |rev| <= INT_MAX && states <= INT_MAX
    ensures WellFormed(net, count) && Deterministic(MachineOf(net))
    ensures forall w :: Accepts(MachineOf(net), w) <==> Accepts(MachineOf(lines), Rev(w))
    ensures NearlyMinimal(net, count)
  {
    ConstructedStart(ReversedMachine(MachineOf(lines)), rev, states);
    net, count := Determinize(rev, states, sigmaMax, false);
    ReversalNearlyMinimal(lines, n, rev, states, net, count);
    DeterministicErases(MachineOf(lines));
  }

  /** Reversal of a deterministic net all of whose states are reachable, and determinization of the result. */
  method ReverseAndDeterminize(lines: seq<Line>, n: nat, maxsigma: int) returns (net: seq<Line>, count: nat)
    requires WellFormed(lines, n) && Deterministic(MachineOf(lines)) && MachineOf(lines).starts == iset{0}
    requires AllReachable(MachineOf(lines), n)
    requires SymbolsUpTo(lines, maxsigma) && -1 <= maxsigma && |lines| + 2 * n + 1 <= INT_MAX
    ensures WellFormed(net, count) && Deterministic(MachineOf(net))
    ensures forall w :: Accepts(MachineOf(net), w) <==> Accepts(MachineOf(lines), Rev(w))
    ensures NearlyMinimal(net, count)
  {
    hide WellFormed, Deterministic, AllReachable, Constructs, NearlyMinimal;
    var rev, states := Reverse(lines, n, maxsigma);
    net, count := DeterminizeReversal(lines, n, rev, states, LargestSymbol(maxsigma));
  }
}
