/**
 Composition from two nets with alphabets of their own: the alphabets are merged, which expands the
 wildcards, the nets composed, and the result trimmed.
 */
module NetComposition {
  import opened AlphabetMerging
  import opened Automata
  import opened Coaccessibility
  import opened Composing
  import opened Composition
  import opened MergedNets
  import opened NetBuilding
  import opened NetReading
  import opened OpenAlphabet
  import opened OpenComposition
  import opened OpenLanguages
  import opened OpenMachines
  import opened SigmaExpansion
  import opened SigmaMerging
  import Products

  /** Some string lies between `x` and `z`, each net under its own alphabet. */
  ghost predicate Links(s1: seq<Symbol>, lines1: seq<Line>, s2: seq<Symbol>, lines2: seq<Line>, x: seq<string>,
                        z: seq<string>) {
    exists y :: OpenRelates(lines1, s1, x, y) && OpenRelates(lines2, s2, y, z)
  }

  lemma MergedLinks(s1: seq<Symbol>, lines1: seq<Line>, s2: seq<Symbol>, lines2: seq<Line>, s: seq<Symbol>,
                    a: seq<Line>, b: seq<Line>,
                    x: seq<string>, z: seq<string>)
    requires SameRelation(lines1, s1, a, s) && SameRelation(lines2, s2, b, s)
    ensures OpenLinks(s, a, b, x, z) <==> Links(s1, lines1, s2, lines2, x, z)
  {
    hide OpenRelates, OpenAccepts;
    if OpenLinks(s, a, b, x, z) {
      var y :| OpenRelates(a, s, x, y) && OpenRelates(b, s, y, z);
      assert OpenRelates(lines1, s1, x, y) && OpenRelates(lines2, s2, y, z);
    }
    if Links(s1, lines1, s2, lines2, x, z) {
      var y :| OpenRelates(lines1, s1, x, y) && OpenRelates(lines2, s2, y, z);
      assert OpenRelates(a, s, x, y) && OpenRelates(b, s, y, z);
    }
  }

  // ----- The condition, said of the nets as they were -----

  /** Arcs ?:n and k:? of nets with alphabets of their own, whose middles can be the same: nothing, or some symbol. */
  ghost predicate MayMeet(tri: bool, s1: seq<Symbol>, s2: seq<Symbol>, x: Label, y: Label, t: Cell) {
    && x.upper == UNKNOWN && y.lower == UNKNOWN
    && MeansSide(s1, x.lower, t) && MeansSide(s2, y.upper, t) && (t.Silent? ==> tri)
  }

  /** Wherever such arcs may meet, both nets have an arc @:@ beside them. */
  ghost predicate KeepsBetween(tri: bool, s1: seq<Symbol>, m1: Machine<int>, s2: seq<Symbol>, m2: Machine<int>) {
    forall a, b, t :: a in m1.arcs && b in m2.arcs && MayMeet(tri, s1, s2, a.lab, b.lab, t) ==>
                      IdentityBeside(m1, m2, a, b)
  }

  /** Under a shared alphabet, this is what composition asks for. */
  lemma KeepsShared(tri: bool, s: seq<Symbol>, m1: Machine<int>, m2: Machine<int>)
    requires LegalMachine(s, m1) && LegalMachine(s, m2)
    ensures KeepsBetween(tri, s, m1, s, m2) <==> KeepsDiagonal(tri, m1, m2)
  {
    hide MeansSide, IdentityBeside;
    if KeepsBetween(tri, s, m1, s, m2) {
      forall a, b | a in m1.arcs && b in m2.arcs && LosesDiagonal(a.lab, b.lab) && AllowsBoth(tri, 0, a.lab.lower)
        ensures IdentityBeside(m1, m2, a, b)
      {
        var t := SideHasMeaning(s, a.lab.lower);
        SideIsSilent(s, a.lab.lower, t);
        assert MayMeet(tri, s, s, a.lab, b.lab, t);
      }
    }
    if KeepsDiagonal(tri, m1, m2) {
      forall a, b, t | a in m1.arcs && b in m2.arcs && MayMeet(tri, s, s, a.lab, b.lab, t)
        ensures IdentityBeside(m1, m2, a, b)
      {
        OneSide(s, a.lab.lower, b.lab.upper, t);
        SideIsSilent(s, a.lab.lower, t);
      }
    }
  }

  lemma SideIsSilent(s: seq<Symbol>, n: int, t: Cell)
    requires MeansSide(s, n, t)
    ensures t.Silent? <==> n == EPSILON
  {
  }

  /** The same condition, told by moves: with a symbol `u` that neither alphabet lists. */
  ghost predicate MovesKeep(tri: bool, s1: seq<Symbol>, lines1: seq<Line>, s2: seq<Symbol>, lines2: seq<Line>) {
    forall p, p', q, q', t, u: Cell ::
      Fresh(s1, s2, u) && u != t && (t.Silent? ==> tri) && Moves(lines1, s1, p, Cells(u, t), p')
      && Moves(lines2, s2, q, Cells(t, u), q') ==>
        Moves(lines1, s1, p, Cells(u, u), p') && Moves(lines2, s2, q, Cells(u, u), q')
  }

  ghost predicate Fresh(s1: seq<Symbol>, s2: seq<Symbol>, u: Cell) {
    u.Spoken? && Outside(s1, u.name) && Outside(s2, u.name)
  }

  /** There always is a symbol that neither alphabet lists. */
  lemma FreshBoth(s1: seq<Symbol>, s2: seq<Symbol>, t: Cell) returns (u: Cell)
    ensures Fresh(s1, s2, u) && u != t
  {
    u := FreshName(s1 + s2, t, t);
    forall a | 0 <= a < |s1| && s1[a].number > IDENTITY ensures s1[a].name != u.name {
      assert (s1 + s2)[a] == s1[a];
    }
    forall a | 0 <= a < |s2| && s2[a].number > IDENTITY ensures s2[a].name != u.name {
      assert (s1 + s2)[|s1| + a] == s2[a];
    }
  }

  /** A move from an unlisted symbol to another cell is made by an arc ?:n, and conversely. */
  lemma UnknownMove(s: seq<Symbol>, lines: seq<Line>, p: int, u: Cell, t: Cell, q: int) returns (x: Label)
    requires LegalMachine(s, MachineOf(lines)) && u.Spoken? && Outside(s, u.name) && u != t
             && Moves(lines, s, p, Cells(u, t), q)
    ensures Arc(p, x, q) in MachineOf(lines).arcs && x.upper == UNKNOWN && MeansSide(s, x.lower, t)
  {
    hide Outside;
    var k :| 0 <= k < |lines| && MovesOn(s, lines[k], p, Cells(u, t), q);
    x := lines[k].ToLabel();
    LineIsArc(lines, k);
    assert Arc(p, x, q).lab == x;
    NotOrdinary(s, x.upper, u);
  }

  lemma MoveUnknown(s: seq<Symbol>, lines: seq<Line>, p: int, t: Cell, u: Cell, q: int) returns (y: Label)
    requires LegalMachine(s, MachineOf(lines)) && u.Spoken? && Outside(s, u.name) && u != t
             && Moves(lines, s, p, Cells(t, u), q)
    ensures Arc(p, y, q) in MachineOf(lines).arcs && y.lower == UNKNOWN && MeansSide(s, y.upper, t)
  {
    hide Outside;
    var k :| 0 <= k < |lines| && MovesOn(s, lines[k], p, Cells(t, u), q);
    y := lines[k].ToLabel();
    LineIsArc(lines, k);
    assert Arc(p, y, q).lab == y;
    NotOrdinary(s, y.lower, u);
  }

  lemma NotOrdinary(s: seq<Symbol>, n: int, u: Cell)
    requires u.Spoken? && Outside(s, u.name)
    ensures !Ordinary(s, n, u.name)
  {
  }

  lemma ArcMoves(s: seq<Symbol>, lines: seq<Line>, a: Arc<int>, c: Cells)
    requires a in MachineOf(lines).arcs && Means(s, a.lab, c)
    ensures Moves(lines, s, a.src, c, a.tgt)
  {
    var k := ArcLine(lines, a);
    assert MovesOn(s, lines[k], a.src, c, a.tgt);
  }

  /** An unlisted symbol is carried through by an arc @:@ and by no other. */
  lemma IdentityMove(s: seq<Symbol>, lines: seq<Line>, p: int, u: Cell, q: int)
    requires u.Spoken? && Outside(s, u.name)
    ensures Moves(lines, s, p, Cells(u, u), q) <==> Arc(p, Label(IDENTITY, IDENTITY), q) in MachineOf(lines).arcs
  {
    hide Outside;
    var id := Label(IDENTITY, IDENTITY);
    if Moves(lines, s, p, Cells(u, u), q) {
      var k :| 0 <= k < |lines| && MovesOn(s, lines[k], p, Cells(u, u), q);
      DiagonalLabel(s, lines[k].ToLabel(), Cells(u, u));
      LineIsArc(lines, k);
    }
    if Arc(p, id, q) in MachineOf(lines).arcs {
      assert Arc(p, id, q).lab == id;
      ArcMoves(s, lines, Arc(p, id, q), Cells(u, u));
    }
  }

  lemma KeepsMoves(tri: bool, s1: seq<Symbol>, lines1: seq<Line>, s2: seq<Symbol>, lines2: seq<Line>)
    requires LegalMachine(s1, MachineOf(lines1)) && LegalMachine(s2, MachineOf(lines2))
    ensures KeepsBetween(tri, s1, MachineOf(lines1), s2, MachineOf(lines2)) <==> MovesKeep(tri, s1, lines1, s2, lines2)
  {
    hide LegalMachine, Moves, MachineOf, MeansSide, Outside;
    var m1, m2 := MachineOf(lines1), MachineOf(lines2);
    if KeepsBetween(tri, s1, m1, s2, m2) {
      forall p, p', q, q', t, u: Cell |
        Fresh(s1, s2, u) && u != t && (t.Silent? ==> tri) && Moves(lines1, s1, p, Cells(u, t), p')
        && Moves(lines2, s2, q, Cells(t, u), q')
        ensures Moves(lines1, s1, p, Cells(u, u), p') && Moves(lines2, s2, q, Cells(u, u), q')
      {
        var x := UnknownMove(s1, lines1, p, u, t, p');
        var y := MoveUnknown(s2, lines2, q, t, u, q');
        var a, b := Arc(p, x, p'), Arc(q, y, q');
        assert MayMeet(tri, s1, s2, a.lab, b.lab, t);
        IdentityMove(s1, lines1, p, u, p');
        IdentityMove(s2, lines2, q, u, q');
      }
    }
    if MovesKeep(tri, s1, lines1, s2, lines2) {
      forall a, b, t | a in m1.arcs && b in m2.arcs && MayMeet(tri, s1, s2, a.lab, b.lab, t)
        ensures IdentityBeside(m1, m2, a, b)
      {
        var u := FreshBoth(s1, s2, t);
        UnknownMeans(s1, a.lab, b.lab, s2, u, t);
        ArcMoves(s1, lines1, a, Cells(u, t));
        ArcMoves(s2, lines2, b, Cells(t, u));
        IdentityMove(s1, lines1, a.src, u, a.tgt);
        IdentityMove(s2, lines2, b.src, u, b.tgt);
      }
    }
  }

  lemma UnknownMeans(s1: seq<Symbol>, x: Label, y: Label, s2: seq<Symbol>, u: Cell, t: Cell)
    requires x.upper == UNKNOWN && MeansSide(s1, x.lower, t) && y.lower == UNKNOWN && MeansSide(s2, y.upper, t)
    requires Fresh(s1, s2, u) && u != t
    ensures Means(s1, x, Cells(u, t)) && Means(s2, y, Cells(t, u))
  {
    hide Outside, Ordinary;
  }

  /** Merging the alphabets does not change the condition. */
  lemma KeepsMerged(tri: bool, s1: seq<Symbol>, lines1: seq<Line>, n1: nat, s2: seq<Symbol>, lines2: seq<Line>, n2: nat,
                    s: seq<Symbol>, a: seq<Line>, b: seq<Line>)
    requires NetMerged(s1, lines1, n1, s, a) && NetMerged(s2, lines2, n2, s, b) && Union(s, s1, s2)
    requires LegalMachine(s1, MachineOf(lines1)) && LegalMachine(s2, MachineOf(lines2))
    ensures KeepsDiagonal(tri, MachineOf(a), MachineOf(b)) <==>
              KeepsBetween(tri, s1, MachineOf(lines1), s2, MachineOf(lines2))
  {
    hide LegalMachine, KeepsDiagonal, KeepsBetween, MovesKeep, SameRelation, MachineOf, WellFormed, NetKnown, SigmaOk;
    KnownLegal(s, a);
    KnownLegal(s, b);
    KeepsShared(tri, s, MachineOf(a), MachineOf(b));
    KeepsMoves(tri, s, a, s, b);
    KeepsMoves(tri, s1, lines1, s2, lines2);
    SameMovesKeep(tri, s1, lines1, s2, lines2, s, a, b);
  }

  lemma SameMovesKeep(tri: bool, s1: seq<Symbol>, lines1: seq<Line>, s2: seq<Symbol>, lines2: seq<Line>,
                      s: seq<Symbol>, a: seq<Line>, b: seq<Line>)
    requires SameMoves(lines1, s1, a, s) && SameMoves(lines2, s2, b, s) && Union(s, s1, s2)
    ensures MovesKeep(tri, s, a, s, b) <==> MovesKeep(tri, s1, lines1, s2, lines2)
  {
    hide Moves, Outside, Starts, Finals, ListsSpecial;
    assert forall u :: Fresh(s, s, u) <==> Fresh(s1, s2, u);
  }

  /**
   Composition of two minimized nets over the open alphabet: the result relates, under the merged alphabet,
   only what the nets link under their own, and all of it if wherever arcs ?:n and k:? of the two may meet
   both nets have an arc @:@ beside them.
   */
  method ComposeNets(net1: Net, net2: Net, ghost lines1: seq<Line>, n1: nat, ghost lines2: seq<Line>, n2: nat,
                     tristate: bool)
    returns (fsm: Fsm, ghost merged1: seq<Line>, ghost merged2: seq<Line>, ghost result: seq<Line>)
    requires net1 != net2 && net1.states != net2.states
    requires NetOk(net1.sigma, lines1, n1) && Encodes(net1.states, lines1) && MachineOf(lines1).starts == iset{0}
    requires NetOk(net2.sigma, lines2, n2) && Encodes(net2.states, lines2) && MachineOf(lines2).starts == iset{0}
    requires OneArcPerLabel(lines1) && OneArcPerLabel(lines2)
    modifies net1, net2, net1.states, net2.states
    ensures fresh(fsm) && Encodes(fsm.states, result)
    ensures NetMerged(old(net1.sigma), lines1, n1, net1.sigma, merged1)
            && NetMerged(old(net2.sigma), lines2, n2, net1.sigma, merged2)
    ensures Union(net1.sigma, old(net1.sigma), old(net2.sigma))
    ensures forall x, z :: OpenRelates(result, net1.sigma, x, z) ==>
                           Links(old(net1.sigma), lines1, old(net2.sigma), lines2, x, z)
    ensures KeepsBetween(tristate, old(net1.sigma), MachineOf(lines1), old(net2.sigma), MachineOf(lines2)) ==>
              forall x, z :: OpenRelates(result, net1.sigma, x, z) <==>
                             Links(old(net1.sigma), lines1, old(net2.sigma), lines2, x, z)
  {
    hide NetMerged, NetOk, WellFormed, SigmaOk, NetKnown, Union, Consecutive, KeepsDiagonal, KeepsBetween, LegalMachine,
         Links, OpenRelates, OneArcPerLabel, MachineOf,
         SymbolsUpTo, IdentityPaired, SharedAlphabet, Composes;
    ghost var s1, s2 := net1.sigma, net2.sigma;
    merged1, merged2 := FsmMergeSigma(net1, net2, lines1, n1, lines2, n2);
    SortedAlphabet(s1, lines1, n1, net1.sigma, merged1);
    var sigmaMax := SigmaMax(net1.sigma);
    ReadyToCompose(s1, lines1, n1, net1.sigma, merged1, sigmaMax);
    ReadyToCompose(s2, lines2, n2, net1.sigma, merged2, sigmaMax);
    var a := ReadLines(net1.states, n1, merged1);
    var b := ReadLines(net2.states, n2, merged2);
    fsm, result := Products.FsmCompose(a, n1, b, n2, sigmaMax, tristate);
    LegalNet(s1, lines1, n1);
    LegalNet(s2, lines2, n2);
    KeepsMerged(tristate, s1, lines1, n1, s2, lines2, n2, net1.sigma, a, b);
    ResultLinks(tristate, s1, lines1, n1, s2, lines2, n2, net1.sigma, a, b, result);
  }

  lemma ResultLinks(tri: bool, s1: seq<Symbol>, lines1: seq<Line>, n1: nat, s2: seq<Symbol>, lines2: seq<Line>, n2: nat,
                    s: seq<Symbol>, a: seq<Line>, b: seq<Line>, result: seq<Line>)
    requires NetMerged(s1, lines1, n1, s, a) && NetMerged(s2, lines2, n2, s, b)
    requires SharedAlphabet(s, a, b) ==> Composes(tri, s, a, b, result)
    ensures forall x, z :: OpenRelates(result, s, x, z) ==> Links(s1, lines1, s2, lines2, x, z)
    ensures KeepsDiagonal(tri, MachineOf(a), MachineOf(b)) ==>
              forall x, z :: OpenRelates(result, s, x, z) <==> Links(s1, lines1, s2, lines2, x, z)
  {
    hide WellFormed, SigmaOk, NetKnown, SameRelation, OpenRelates, Links, OpenLinks, KeepsDiagonal, MachineOf;
    forall x, z ensures OpenLinks(s, a, b, x, z) <==> Links(s1, lines1, s2, lines2, x, z) {
      MergedLinks(s1, lines1, s2, lines2, s, a, b, x, z);
    }
  }
}
