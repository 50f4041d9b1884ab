/**
 Languages over the open alphabet. Different labels mean different things, so a word of cells is the
 meaning of one word of labels at most; what holds of the words of labels that nets accept, such as
 that a net accepts just the common ones, then holds of words of cells.
 */
module OpenLanguages {
  import opened Automata
  import opened OpenAlphabet
  import opened OpenComposition
  import opened OpenMachines
  import opened SigmaExpansion
  import opened SigmaMerging

  lemma OneSide(s: seq<Symbol>, n: int, k: int, t: Cell)
    requires Distinguishes(s) && MeansSide(s, n, t) && MeansSide(s, k, t)
    ensures n == k
  {
    hide Outside, Ordinary;
    if n != EPSILON && n != UNKNOWN {
      OneMeaning(s, n, k, t.name);
    } else if k != EPSILON && k != UNKNOWN {
      OneMeaning(s, k, n, t.name);
    }
  }

  lemma OneLabel(s: seq<Symbol>, l: Label, k: Label, c: Cells)
    requires Distinguishes(s) && LegalLabel(s, l) && LegalLabel(s, k) && Means(s, l, c) && Means(s, k, c)
    ensures l == k
  {
    hide Ordinary, Outside, Knows;
    var id, any := Label(IDENTITY, IDENTITY), Label(UNKNOWN, UNKNOWN);
    if l != id && k != id {
      OneSide(s, l.upper, k.upper, c.upper);
      OneSide(s, l.lower, k.lower, c.lower);
    } else if c.upper.Spoken? {
      if l != id {
        SidesOf(s, l, c);
        OneSide(s, l.upper, UNKNOWN, c.upper);
        OneSide(s, l.lower, UNKNOWN, c.lower);
      }
      if k != id {
        SidesOf(s, k, c);
        OneSide(s, k.upper, UNKNOWN, c.upper);
        OneSide(s, k.lower, UNKNOWN, c.lower);
      }
    }
  }

  lemma SidesOf(s: seq<Symbol>, l: Label, c: Cells)
    requires Means(s, l, c) && l != Label(IDENTITY, IDENTITY)
    ensures MeansSide(s, l.upper, c.upper) && MeansSide(s, l.lower, c.lower)
  {
  }

  ghost predicate LegalWord(s: seq<Symbol>, w: seq<Label>) {
    forall i :: 0 <= i < |w| ==> LegalLabel(s, w[i])
  }

  lemma OneWord(s: seq<Symbol>, w: seq<Label>, v: seq<Label>, u: seq<Cells>)
    requires Distinguishes(s) && LegalWord(s, w) && LegalWord(s, v) && WordMeans(s, w, u) && WordMeans(s, v, u)
    ensures w == v
  {
    hide Distinguishes, LegalLabel, Means;
    forall i | 0 <= i < |w| ensures w[i] == v[i] {
      OneLabel(s, w[i], v[i], u[i]);
    }
  }

  lemma {:induction false} ReadsLegal(s: seq<Symbol>, m: Machine<int>, p: int, w: seq<Label>, q: int)
    requires LegalMachine(s, m) && Reads(m, p, w, q)
    ensures LegalWord(s, w)
    decreases |w|
  {
    hide LegalLabel;
    if w != [] {
      var r := ReadsHead(m, p, w, q);
      ReadsLegal(s, m, r, w[1..], q);
      assert LegalLabel(s, Arc(p, w[0], r).lab);
      forall i | 0 <= i < |w| ensures LegalLabel(s, w[i]) {
        if i > 0 {
          assert w[1..][i - 1] == w[i];
        }
      }
    }
  }

  /** The accepted word of labels that means `u`. */
  lemma WordOf(s: seq<Symbol>, lines: seq<Line>, u: seq<Cells>) returns (w: seq<Label>)
    requires OpenAccepts(lines, s, u)
    ensures Accepts(MachineOf(lines), w) && WordMeans(s, w, u)
    ensures LegalMachine(s, MachineOf(lines)) ==> LegalWord(s, w)
  {
    hide Reads, LegalMachine, LegalWord, Opened, MachineOf, WordMeans, CellLabels;
    var m := MachineOf(lines);
    SameAcceptance(lines, s, u);
    var p, q := AcceptingPath(Opened(s, m), CellLabels(u));
    OpenedFlags(s, m, p, q);
    w := WordBehind(s, m, p, u, q);
    if LegalMachine(s, m) {
      ReadsLegal(s, m, p, w, q);
    }
  }

  /** Accepting a word of labels is accepting whatever it means. */
  lemma WordAccepted(s: seq<Symbol>, lines: seq<Line>, w: seq<Label>, u: seq<Cells>)
    requires Accepts(MachineOf(lines), w) && WordMeans(s, w, u)
    ensures OpenAccepts(lines, s, u)
  {
    hide Reads, Opened, MachineOf, WordMeans, CellLabels;
    var m := MachineOf(lines);
    var p, q := AcceptingPath(m, w);
    OpenedFlags(s, m, p, q);
    WordOpened(s, m, p, w, q, u);
    SameAcceptance(lines, s, u);
  }

  /** If a legal word means `u`, a net accepts `u` just if it accepts the word. */
  lemma AcceptsMeaning(s: seq<Symbol>, lines: seq<Line>, w: seq<Label>, u: seq<Cells>)
    requires LegalMachine(s, MachineOf(lines)) && LegalWord(s, w) && WordMeans(s, w, u)
    ensures OpenAccepts(lines, s, u) <==> Accepts(MachineOf(lines), w)
  {
    hide MachineOf, LegalWord, WordMeans, Distinguishes, OpenAccepts, Accepts;
    if OpenAccepts(lines, s, u) {
      var v := WordOf(s, lines, u);
      OneWord(s, w, v, u);
    }
    if Accepts(MachineOf(lines), w) {
      WordAccepted(s, lines, w, u);
    }
  }

  // ----- Intersection, subtraction and equality -----

  lemma OpenCommon(s: seq<Symbol>, a: seq<Line>, b: seq<Line>, net: seq<Line>, u: seq<Cells>)
    requires LegalMachine(s, MachineOf(a)) && LegalMachine(s, MachineOf(b))
    requires forall w :: Accepts(MachineOf(net), w) <==> Accepts(MachineOf(a), w) && Accepts(MachineOf(b), w)
    ensures OpenAccepts(net, s, u) <==> OpenAccepts(a, s, u) && OpenAccepts(b, s, u)
  {
    hide MachineOf, LegalMachine, LegalWord, WordMeans, OpenAccepts, Accepts;
    if OpenAccepts(net, s, u) {
      var w := WordOf(s, net, u);
      WordAccepted(s, a, w, u);
      WordAccepted(s, b, w, u);
    }
    if OpenAccepts(a, s, u) && OpenAccepts(b, s, u) {
      var w := WordOf(s, a, u);
      AcceptsMeaning(s, b, w, u);
      WordAccepted(s, net, w, u);
    }
  }

  lemma OpenDifference(s: seq<Symbol>, a: seq<Line>, b: seq<Line>, net: seq<Line>, u: seq<Cells>)
    requires LegalMachine(s, MachineOf(a)) && LegalMachine(s, MachineOf(b))
    requires forall w :: Accepts(MachineOf(net), w) <==> Accepts(MachineOf(a), w) && !Accepts(MachineOf(b), w)
    ensures OpenAccepts(net, s, u) <==> OpenAccepts(a, s, u) && !OpenAccepts(b, s, u)
  {
    hide MachineOf, LegalMachine, LegalWord, WordMeans, OpenAccepts, Accepts;
    if OpenAccepts(net, s, u) {
      var w := WordOf(s, net, u);
      WordAccepted(s, a, w, u);
      var v := WordOf(s, a, u);
      AcceptsMeaning(s, b, v, u);
      AcceptsMeaning(s, a, v, u);
      SameWord(s, a, w, v, u);
    }
    if OpenAccepts(a, s, u) && !OpenAccepts(b, s, u) {
      var w := WordOf(s, a, u);
      AcceptsMeaning(s, b, w, u);
      WordAccepted(s, net, w, u);
    }
  }

  lemma SameWord(s: seq<Symbol>, lines: seq<Line>, w: seq<Label>, v: seq<Label>, u: seq<Cells>)
    requires LegalMachine(s, MachineOf(lines)) && Accepts(MachineOf(lines), w) && LegalWord(s, v)
    requires WordMeans(s, w, u) && WordMeans(s, v, u)
    ensures w == v
  {
    hide MachineOf, LegalWord, WordMeans, Distinguishes, Reads, LegalLabel;
    var p, q := AcceptingPath(MachineOf(lines), w);
    ReadsLegal(s, MachineOf(lines), p, w, q);
    OneWord(s, w, v, u);
  }

  /** Every legal label means something. */
  lemma LabelMeans(s: seq<Symbol>, l: Label) returns (c: Cells)
    requires LegalLabel(s, l)
    ensures Means(s, l, c)
  {
    hide Outside, Ordinary, Knows;
    if l == Label(IDENTITY, IDENTITY) {
      var t := FreshName(s, Silent, Silent);
      c := Cells(t, t);
    } else if l == Label(UNKNOWN, UNKNOWN) {
      var t := FreshName(s, Silent, Silent);
      var v := FreshName(s, t, t);
      c := Cells(t, v);
    } else {
      var t := SideHasMeaning(s, l.upper);
      var v := SideHasMeaning(s, l.lower);
      c := Cells(t, v);
    }
  }

  lemma {:induction false} WordHasMeaning(s: seq<Symbol>, w: seq<Label>) returns (u: seq<Cells>)
    requires LegalWord(s, w)
    ensures WordMeans(s, w, u)
  {
    hide LegalLabel, Means;
    if w == [] {
      u := [];
    } else {
      assert LegalWord(s, w[1..]);
      var rest := WordHasMeaning(s, w[1..]);
      var c := LabelMeans(s, w[0]);
      u := [c] + rest;
    }
  }

  /** Nets over one alphabet accept the same words of labels just if they accept the same words of cells. */
  lemma OpenSame(s: seq<Symbol>, a: seq<Line>, b: seq<Line>)
    requires LegalMachine(s, MachineOf(a)) && LegalMachine(s, MachineOf(b))
    ensures (forall w :: Accepts(MachineOf(a), w) <==> Accepts(MachineOf(b), w)) <==>
            (forall u :: OpenAccepts(a, s, u) <==> OpenAccepts(b, s, u))
  {
    hide MachineOf, LegalMachine, OpenAccepts, Accepts;
    if forall w :: Accepts(MachineOf(a), w) <==> Accepts(MachineOf(b), w) {
      forall u ensures OpenAccepts(a, s, u) <==> OpenAccepts(b, s, u) {
        OpenWithin(s, a, b, u);
        OpenWithin(s, b, a, u);
      }
    }
    if forall u :: OpenAccepts(a, s, u) <==> OpenAccepts(b, s, u) {
      forall w ensures Accepts(MachineOf(a), w) <==> Accepts(MachineOf(b), w) {
        WordWithin(s, a, b, w);
        WordWithin(s, b, a, w);
      }
    }
  }

  lemma OpenWithin(s: seq<Symbol>, a: seq<Line>, b: seq<Line>, u: seq<Cells>)
    requires forall w :: Accepts(MachineOf(a), w) ==> Accepts(MachineOf(b), w)
    ensures OpenAccepts(a, s, u) ==> OpenAccepts(b, s, u)
  {
    hide MachineOf, WordMeans, OpenAccepts, Accepts;
    if OpenAccepts(a, s, u) {
      var w := WordOf(s, a, u);
      WordAccepted(s, b, w, u);
    }
  }

  lemma WordWithin(s: seq<Symbol>, a: seq<Line>, b: seq<Line>, w: seq<Label>)
    requires LegalMachine(s, MachineOf(a)) && LegalMachine(s, MachineOf(b))
    requires forall u :: OpenAccepts(a, s, u) ==> OpenAccepts(b, s, u)
    ensures Accepts(MachineOf(a), w) ==> Accepts(MachineOf(b), w)
  {
    hide MachineOf, WordMeans, OpenAccepts, LegalMachine, LegalWord, Reads;
    if Accepts(MachineOf(a), w) {
      var p, q := AcceptingPath(MachineOf(a), w);
      ReadsLegal(s, MachineOf(a), p, w, q);
      var u := WordHasMeaning(s, w);
      WordAccepted(s, a, w, u);
      AcceptsMeaning(s, b, w, u);
    }
  }
}
