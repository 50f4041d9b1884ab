/**
 Intersection, subtraction, the equivalence test and complement over the open alphabet. Two nets come
 with alphabets of their own, which are merged first.
 */
module BooleanNets {
  import opened AlphabetMerging
  import opened Automata
  import opened Coaccessibility
  import opened MergedNets
  import opened NetBuilding
  import opened NetReading
  import opened OpenAlphabet
  import opened OpenComposition
  import opened OpenLanguages
  import opened OpenMachines
  import opened SigmaExpansion
  import opened SigmaMerging
  import Completion
  import Equivalence
  import Products
  import Subtraction

  /** A net as minimization leaves it. */
  ghost predicate Minimal(net: Net, lines: seq<Line>, n: nat)
    reads net, net.states
  {
    && NetOk(net.sigma, lines, n) && Encodes(net.states, lines) && MachineOf(lines).starts == iset{0}
    && OneArcPerLabel(lines) && ArclessAlone(lines)
  }

  lemma MergedLanguage(s: seq<Symbol>, lines: seq<Line>, n: nat, s': seq<Symbol>, merged: seq<Line>)
    requires NetMerged(s, lines, n, s', merged)
    ensures forall u :: OpenAccepts(lines, s, u) <==> OpenAccepts(merged, s', u)
    ensures ArclessAlone(lines) ==> ArclessAlone(merged)
  {
    hide SameMoves, OpenAccepts, ArclessAlone, NetOk, OneArcPerLabel;
  }

  // ----- Intersection and subtraction -----

  /** The words of cells that both nets accept, each under its own alphabet. */
  method IntersectNets(net1: Net, net2: Net, ghost lines1: seq<Line>, n1: nat, ghost lines2: seq<Line>, n2: nat)
    returns (fsm: Fsm, ghost result: seq<Line>)
    requires net1 != net2 && net1.states != net2.states && Minimal(net1, lines1, n1) && Minimal(net2, lines2, n2)
    modifies net1, net2, net1.states, net2.states
    ensures fresh(fsm) && Encodes(fsm.states, result)
    ensures Union(net1.sigma, old(net1.sigma), old(net2.sigma))
    ensures forall u :: OpenAccepts(result, net1.sigma, u) <==>
                        OpenAccepts(lines1, old(net1.sigma), u) && OpenAccepts(lines2, old(net2.sigma), u)
  {
    hide NetMerged, NetOk, WellFormed, SigmaOk, NetKnown, Union, Consecutive, OneArcPerLabel, ArclessAlone, MachineOf,
         SymbolsUpTo,
         LegalMachine, Deterministic, OpenAccepts, Accepts, Coaccessible;
    ghost var s1, s2 := net1.sigma, net2.sigma;
    ghost var merged1, merged2 := FsmMergeSigma(net1, net2, lines1, n1, lines2, n2);
    SortedAlphabet(s1, lines1, n1, net1.sigma, merged1);
    var sigmaMax := SigmaMax(net1.sigma);
    ReadyToCompose(s1, lines1, n1, net1.sigma, merged1, sigmaMax);
    ReadyToCompose(s2, lines2, n2, net1.sigma, merged2, sigmaMax);
    var a := ReadLines(net1.states, n1, merged1);
    var b := ReadLines(net2.states, n2, merged2);
    fsm, result := Products.FsmIntersect(a, n1, b, n2, sigmaMax);
    MergedLanguage(s1, lines1, n1, net1.sigma, merged1);
    MergedLanguage(s2, lines2, n2, net1.sigma, merged2);
    forall u
      ensures OpenAccepts(result, net1.sigma, u) <==> OpenAccepts(a, net1.sigma, u) && OpenAccepts(b, net1.sigma, u)
    {
      OpenCommon(net1.sigma, a, b, result, u);
    }
  }

  /** The words of cells that the first net accepts and the second does not. */
  method SubtractNets(net1: Net, net2: Net, ghost lines1: seq<Line>, n1: nat, ghost lines2: seq<Line>, n2: nat)
    returns (net: seq<Line>, count: nat, deterministic: bool)
    requires net1 != net2 && net1.states != net2.states && Minimal(net1, lines1, n1) && Minimal(net2, lines2, n2)
    modifies net1, net2, net1.states, net2.states
    ensures WellFormed(net, count) && (deterministic ==> Deterministic(MachineOf(net)))
    ensures Union(net1.sigma, old(net1.sigma), old(net2.sigma))
    ensures forall u :: OpenAccepts(net, net1.sigma, u) <==>
                        OpenAccepts(lines1, old(net1.sigma), u) && !OpenAccepts(lines2, old(net2.sigma), u)
  {
    hide NetMerged, NetOk, WellFormed, SigmaOk, NetKnown, Union, Consecutive, OneArcPerLabel, ArclessAlone, MachineOf,
         SymbolsUpTo,
         LegalMachine, Deterministic, OpenAccepts, Accepts;
    ghost var s1, s2 := net1.sigma, net2.sigma;
    ghost var merged1, merged2 := FsmMergeSigma(net1, net2, lines1, n1, lines2, n2);
    SortedAlphabet(s1, lines1, n1, net1.sigma, merged1);
    var sigmaMax := SigmaMax(net1.sigma);
    ReadyToCompose(s1, lines1, n1, net1.sigma, merged1, sigmaMax);
    ReadyToCompose(s2, lines2, n2, net1.sigma, merged2, sigmaMax);
    MergedLanguage(s1, lines1, n1, net1.sigma, merged1);
    MergedLanguage(s2, lines2, n2, net1.sigma, merged2);
    var a := ReadLines(net1.states, n1, merged1);
    var b := ReadLines(net2.states, n2, merged2);
    net, count, deterministic := Subtraction.Subtract(a, n1, b, n2, sigmaMax);
    forall u
      ensures OpenAccepts(net, net1.sigma, u) <==> OpenAccepts(a, net1.sigma, u) && !OpenAccepts(b, net1.sigma, u)
    {
      OpenDifference(net1.sigma, a, b, net, u);
    }
  }

  // ----- The equivalence test -----

  /** There is a path over `u` from state 0, accepted or not. */
  ghost predicate OpenWalks(lines: seq<Line>, s: seq<Symbol>, u: seq<Cells>) {
    exists q :: Spells(lines, s, 0, u, q)
  }

  lemma SameMovesWalk(lines: seq<Line>, s: seq<Symbol>, lines': seq<Line>, s': seq<Symbol>, u: seq<Cells>)
    requires SameMoves(lines, s, lines', s') && OpenWalks(lines, s, u)
    ensures OpenWalks(lines', s', u)
  {
    hide SameMoves, Spells;
    var q :| Spells(lines, s, 0, u, q);
    SameSpells(lines, s, lines', s', 0, u, q);
  }

  lemma MergedWalks(s: seq<Symbol>, lines: seq<Line>, n: nat, s': seq<Symbol>, merged: seq<Line>, u: seq<Cells>)
    requires NetMerged(s, lines, n, s', merged)
    ensures OpenWalks(lines, s, u) <==> OpenWalks(merged, s', u)
  {
    hide OpenWalks, Moves, Starts, Finals, NetOk, SameRelation, OneArcPerLabel, ArclessAlone;
    if OpenWalks(lines, s, u) {
      SameMovesWalk(lines, s, merged, s', u);
    }
    if OpenWalks(merged, s', u) {
      SameMovesWalk(merged, s', lines, s, u);
    }
  }

  /** If a legal word means `u`, a net can walk `u` just if it can walk the word. */
  lemma WalksMeaning(s: seq<Symbol>, lines: seq<Line>, w: seq<Label>, u: seq<Cells>)
    requires LegalMachine(s, MachineOf(lines)) && LegalWord(s, w) && WordMeans(s, w, u)
    ensures OpenWalks(lines, s, u) <==> Equivalence.Walks(MachineOf(lines), w)
  {
    hide MachineOf, LegalWord, WordMeans, Distinguishes, Spells, Reads, Opened, CellLabels, LegalLabel;
    var m := MachineOf(lines);
    if OpenWalks(lines, s, u) {
      var q :| Spells(lines, s, 0, u, q);
      OpenSpells(lines, s, 0, u, q);
      var v := WordBehind(s, m, 0, u, q);
      ReadsLegal(s, m, 0, v, q);
      OneWord(s, w, v, u);
    }
    if Equivalence.Walks(m, w) {
      var q :| Reads(m, 0, w, q);
      WordOpened(s, m, 0, w, q, u);
      OpenSpells(lines, s, 0, u, q);
    }
  }

  /** What a word of cells that can be walked is the meaning of. */
  lemma WalkedWord(s: seq<Symbol>, lines: seq<Line>, u: seq<Cells>) returns (w: seq<Label>)
    requires LegalMachine(s, MachineOf(lines)) && OpenWalks(lines, s, u)
    ensures LegalWord(s, w) && WordMeans(s, w, u)
  {
    hide MachineOf, LegalWord, WordMeans, LegalMachine, Spells, Reads, Opened, CellLabels;
    var q :| Spells(lines, s, 0, u, q);
    OpenSpells(lines, s, 0, u, q);
    w := WordBehind(s, MachineOf(lines), 0, u, q);
    ReadsLegal(s, MachineOf(lines), 0, w, q);
  }

  lemma WalksWithin(s: seq<Symbol>, a: seq<Line>, b: seq<Line>)
    requires LegalMachine(s, MachineOf(a)) && LegalMachine(s, MachineOf(b))
    ensures (forall w :: Equivalence.Walks(MachineOf(a), w) ==> Equivalence.Walks(MachineOf(b), w)) <==>
            (forall u :: OpenWalks(a, s, u) ==> OpenWalks(b, s, u))
  {
    hide MachineOf, LegalMachine, LegalWord, WordMeans, OpenWalks, Reads;
    if forall w :: Equivalence.Walks(MachineOf(a), w) ==> Equivalence.Walks(MachineOf(b), w) {
      forall u | OpenWalks(a, s, u) ensures OpenWalks(b, s, u) {
        var w := WalkedWord(s, a, u);
        WalksMeaning(s, a, w, u);
        WalksMeaning(s, b, w, u);
      }
    }
    if forall u :: OpenWalks(a, s, u) ==> OpenWalks(b, s, u) {
      forall w | Equivalence.Walks(MachineOf(a), w) ensures Equivalence.Walks(MachineOf(b), w) {
        var q :| Reads(MachineOf(a), 0, w, q);
        ReadsLegal(s, MachineOf(a), 0, w, q);
        var u := WordHasMeaning(s, w);
        WalksMeaning(s, a, w, u);
        WalksMeaning(s, b, w, u);
      }
    }
  }

  lemma WalksSame(s: seq<Symbol>, a: seq<Line>, b: seq<Line>)
    requires LegalMachine(s, MachineOf(a)) && LegalMachine(s, MachineOf(b))
    ensures Equivalence.SamePaths(MachineOf(a), MachineOf(b)) <==>
              forall u :: OpenWalks(a, s, u) <==> OpenWalks(b, s, u)
  {
    hide MachineOf, LegalMachine, OpenWalks, Equivalence.Walks;
    WalksWithin(s, a, b);
    WalksWithin(s, b, a);
  }

  /** Decides whether the nets accept, and can walk, the same words of cells, each under its own alphabet. */
  method EquivalentNets(net1: Net, net2: Net, ghost lines1: seq<Line>, n1: nat, ghost lines2: seq<Line>, n2: nat)
    returns (equivalent: bool)
    requires net1 != net2 && net1.states != net2.states && Minimal(net1, lines1, n1) && Minimal(net2, lines2, n2)
    modifies net1, net2, net1.states, net2.states
    ensures equivalent <==>
              && (forall u :: OpenAccepts(lines1, old(net1.sigma), u) <==> OpenAccepts(lines2, old(net2.sigma), u))
              && (forall u :: OpenWalks(lines1, old(net1.sigma), u) <==> OpenWalks(lines2, old(net2.sigma), u))
  {
    hide NetMerged, NetOk, WellFormed, SigmaOk, NetKnown, Union, Consecutive, OneArcPerLabel, ArclessAlone, MachineOf,
         SymbolsUpTo,
         LegalMachine, Deterministic, OpenAccepts, Accepts, OpenWalks, Equivalence.Walks, Equivalence.SamePaths,
         Equivalence.NoDeadEnds;
    ghost var s1, s2 := net1.sigma, net2.sigma;
    ghost var merged1, merged2 := FsmMergeSigma(net1, net2, lines1, n1, lines2, n2);
    SortedAlphabet(s1, lines1, n1, net1.sigma, merged1);
    var sigmaMax := SigmaMax(net1.sigma);
    ReadyToCompose(s1, lines1, n1, net1.sigma, merged1, sigmaMax);
    ReadyToCompose(s2, lines2, n2, net1.sigma, merged2, sigmaMax);
    MergedLanguage(s1, lines1, n1, net1.sigma, merged1);
    MergedLanguage(s2, lines2, n2, net1.sigma, merged2);
    var a := ReadLines(net1.states, n1, merged1);
    var b := ReadLines(net2.states, n2, merged2);
    equivalent := Equivalence.Equivalent(a, n1, b, n2);
    OpenSame(net1.sigma, a, b);
    WalksSame(net1.sigma, a, b);
    forall u ensures OpenWalks(lines1, s1, u) <==> OpenWalks(a, net1.sigma, u) {
      MergedWalks(s1, lines1, n1, net1.sigma, a, u);
    }
    forall u ensures OpenWalks(lines2, s2, u) <==> OpenWalks(b, net1.sigma, u) {
      MergedWalks(s2, lines2, n2, net1.sigma, b, u);
    }
  }

  // ----- Complement -----

  /** Every symbol is read as itself. */
  ghost predicate SpeaksItself(u: seq<Cells>) {
    forall i :: 0 <= i < |u| ==> u[i].upper.Spoken? && u[i].lower == u[i].upper
  }

  /** IDENTITY and the ordinary symbols up to `last` are listed, and no others. */
  ghost predicate GapFree(s: seq<Symbol>, last: int) {
    && (forall n :: IDENTITY <= n <= last ==> Knows(s, n))
    && (forall a :: 0 <= a < |s| ==> s[a].number <= last)
  }

  lemma PairMeans(s: seq<Symbol>, n: int, c: Cells)
    requires Distinguishes(s) && n >= IDENTITY && Means(s, Label(n, n), c)
    ensures c.upper.Spoken? && c.lower == c.upper
  {
    if n > IDENTITY {
      var a :| 0 <= a < |s| && s[a].number == n && s[a].name == c.upper.name;
      var b :| 0 <= b < |s| && s[b].number == n && s[b].name == c.lower.name;
    }
  }

  /** The number that stands for a symbol read as itself. */
  lemma PairFor(s: seq<Symbol>, last: int, t: Cell) returns (n: int)
    requires GapFree(s, last) && t.Spoken? && last >= IDENTITY
    ensures IDENTITY <= n <= last && Means(s, Label(n, n), Cells(t, t))
  {
    if Outside(s, t.name) {
      n := IDENTITY;
    } else {
      var a :| 0 <= a < |s| && s[a].number > IDENTITY && s[a].name == t.name;
      n := s[a].number;
      assert Ordinary(s, n, t.name);
    }
  }

  lemma {:induction false} WordFor(s: seq<Symbol>, last: int, u: seq<Cells>) returns (w: seq<Label>)
    requires GapFree(s, last) && SpeaksItself(u) && last >= IDENTITY
    ensures Completion.Over(w, last) && WordMeans(s, w, u)
  {
    hide GapFree, Means;
    if u == [] {
      w := [];
    } else {
      assert SpeaksItself(u[1..]);
      var rest := WordFor(s, last, u[1..]);
      var n := PairFor(s, last, u[0].upper);
      w := [Label(n, n)] + rest;
    }
  }

  lemma OverIsLegal(s: seq<Symbol>, last: int, w: seq<Label>)
    requires GapFree(s, last) && Completion.Over(w, last)
    ensures LegalWord(s, w)
  {
    hide Knows;
  }

  lemma OverSpeaksItself(s: seq<Symbol>, last: int, w: seq<Label>, u: seq<Cells>)
    requires Distinguishes(s) && Completion.Over(w, last) && WordMeans(s, w, u)
    ensures SpeaksItself(u)
  {
    hide Means, Distinguishes;
    forall i | 0 <= i < |u| ensures u[i].upper.Spoken? && u[i].lower == u[i].upper {
      assert w[i] == Label(w[i].upper, w[i].upper);
      PairMeans(s, w[i].upper, u[i]);
    }
  }

  lemma AcceptorLegal(s: seq<Symbol>, lines: seq<Line>, n: nat, last: int)
    requires SigmaOk(s) && GapFree(s, last) && Completion.Ready(lines, n, last)
    ensures LegalMachine(s, MachineOf(lines))
  {
    hide Knows, SigmaOk, MachineOf;
    SortedDistinguishes(s);
    Completion.ReadyMachine(lines, n, last);
    forall a | a in MachineOf(lines).arcs ensures LegalLabel(s, a.lab) {
      ArcListed(lines, a);
    }
  }

  lemma ArcListed(lines: seq<Line>, a: Arc<int>)
    ensures a in MachineOf(lines).arcs <==> a in ArcsOf(lines)
  {
  }

  /**
   Over the open alphabet, completion changes nothing, and complement accepts just the words that read every
   symbol as itself and that the net rejects.
   */
  lemma CompletedOpenly(s: seq<Symbol>, net: seq<Line>, count: nat, lines: seq<Line>, n: nat, last: int,
                        complement: bool, u: seq<Cells>)
    requires SigmaOk(s) && GapFree(s, last) && Completion.Ready(lines, n, last)
    requires Completion.Completed(net, count, lines, last, complement)
    ensures OpenAccepts(net, s, u) <==>
            if complement then SpeaksItself(u) && !OpenAccepts(lines, s, u) else OpenAccepts(lines, s, u)
  {
    hide MachineOf, SigmaOk, GapFree, LegalWord, WordMeans, OpenAccepts, Accepts, WellFormed, OneArcPerLabel,
         Completion.CompleteOver,
         Completion.Over, Completion.AcceptorLines, SpeaksItself, LegalMachine;
    AcceptorLegal(s, lines, n, last);
    SortedDistinguishes(s);
    if complement {
      if OpenAccepts(net, s, u) {
        var w := WordOf(s, net, u);
        OverIsLegal(s, last, w);
        OverSpeaksItself(s, last, w, u);
        AcceptsMeaning(s, lines, w, u);
      }
      if SpeaksItself(u) && !OpenAccepts(lines, s, u) {
        var w := WordFor(s, last, u);
        OverIsLegal(s, last, w);
        AcceptsMeaning(s, lines, w, u);
        WordAccepted(s, net, w, u);
      }
    } else {
      OpenWithin(s, net, lines, u);
      OpenWithin(s, lines, net, u);
    }
  }
}
