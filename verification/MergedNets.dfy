/**
 Two nets after their alphabets have been merged: what the product constructions ask of them, and
 reading their lines off the arrays.
 */
module MergedNets {
  import opened AlphabetMerging
  import opened Automata
  import opened Coaccessibility
  import opened Composing
  import opened NetBuilding
  import opened OpenAlphabet
  import opened OpenComposition
  import opened SigmaExpansion
  import opened SigmaMerging

  /** The largest symbol number in the list. */
  method SigmaMax(s: seq<Symbol>) returns (max: int)
    requires SigmaOk(s)
    ensures -1 <= max && forall i :: 0 <= i < |s| ==> s[i].number <= max
    ensures max == -1 || exists i :: 0 <= i < |s| && s[i].number == max
  {
    max := -1;
    for i := 0 to |s|
      invariant -1 <= max && forall k :: 0 <= k < i ==> s[k].number <= max
      invariant max == -1 || exists k :: 0 <= k < i && s[k].number == max
    {
      max := if s[i].number > max then s[i].number else max;
    }
  }

  /** The lines of a net, up to its sentinel. */
  method ReadLines(states: array<Line>, n: nat, ghost lines: seq<Line>) returns (read: seq<Line>)
    requires WellFormed(lines, n) && Encodes(states, lines)
    ensures read == lines
  {
    hide WellFormed;
    var i := 0;
    while states[i].state != -1
      invariant 0 <= i <= |lines|
      decreases |lines| - i
    {
      i := i + 1;
    }
    EndReached(states, n, lines, i);
    read := states[..i];
  }

  lemma KnownUpTo(s: seq<Symbol>, lines: seq<Line>, max: int)
    requires NetKnown(s, lines) && OneArcPerLabel(lines) && -1 <= max && forall i :: 0 <= i < |s| ==> s[i].number <= max
    ensures SymbolsUpTo(lines, max)
  {
    forall l | l in lines ensures l.upper <= max && l.lower <= max {
      var i :| 0 <= i < |lines| && lines[i] == l;
      assert LineKnown(s, lines[i]) && l.ToLabel() != EPSILON_PAIR;
      NumberUpTo(s, l.upper, max);
      NumberUpTo(s, l.lower, max);
    }
  }

  lemma NumberUpTo(s: seq<Symbol>, n: int, max: int)
    requires Knows(s, n) && forall i :: 0 <= i < |s| ==> s[i].number <= max
    ensures n > EPSILON ==> n <= max
  {
  }

  lemma KnownPaired(s: seq<Symbol>, lines: seq<Line>)
    requires NetKnown(s, lines)
    ensures IdentityPaired(lines)
  {
    forall l | l in lines && l.upper == IDENTITY ensures l.lower == IDENTITY {
      var i :| 0 <= i < |lines| && lines[i] == l;
      assert LineKnown(s, lines[i]);
    }
  }

  lemma StartsKept(s: seq<Symbol>, lines: seq<Line>, s': seq<Symbol>, lines': seq<Line>)
    requires MachineOf(lines).starts == iset{0} && SameMoves(lines, s, lines', s')
    ensures MachineOf(lines').starts == iset{0}
  {
    forall p ensures p in MachineOf(lines').starts <==> p == 0 {
      StartsOf(lines, p);
      StartsOf(lines', p);
    }
  }

  lemma StartsOf(lines: seq<Line>, p: int)
    ensures Starts(lines, p) <==> p in MachineOf(lines).starts
  {
    if p in MachineOf(lines).starts {
      var l :| l in lines && l.start && l.state == p;
    }
  }

  /** What the product constructions ask of a merged net. */
  lemma ReadyToCompose(s: seq<Symbol>, lines: seq<Line>, n: nat, s': seq<Symbol>, merged: seq<Line>, max: int)
    requires NetMerged(s, lines, n, s', merged) && MachineOf(lines).starts == iset{0}
    requires OneArcPerLabel(lines) && -1 <= max && forall i :: 0 <= i < |s'| ==> s'[i].number <= max
    ensures WellFormed(merged, n) && MachineOf(merged).starts == iset{0} && SymbolsUpTo(merged, max)
            && IdentityPaired(merged)
    ensures OneArcPerLabel(merged) && Deterministic(MachineOf(merged))
    ensures SigmaOk(s') && NetKnown(s', merged) && LegalMachine(s', MachineOf(merged))
  {
    hide WellFormed, SigmaOk, NetKnown, SameMoves, SameRelation, OneArcPerLabel, SymbolsUpTo, IdentityPaired,
         MachineOf, Deterministic, LegalMachine;
    KnownUpTo(s', merged, max);
    KnownPaired(s', merged);
    StartsKept(s, lines, s', merged);
    OneStart(merged);
    KnownLegal(s', merged);
  }

  lemma OneStart(lines: seq<Line>)
    requires OneArcPerLabel(lines) && MachineOf(lines).starts == iset{0}
    ensures Deterministic(MachineOf(lines))
  {
    forall k, l | k in lines && l in lines && k.start && l.start ensures k.state == l.state {
      assert k.state in MachineOf(lines).starts && l.state in MachineOf(lines).starts;
    }
    KnownDeterministic(lines);
  }

  lemma LegalNet(s: seq<Symbol>, lines: seq<Line>, n: nat)
    requires NetOk(s, lines, n)
    ensures LegalMachine(s, MachineOf(lines))
  {
    KnownLegal(s, lines);
  }

  lemma SortedAlphabet(s: seq<Symbol>, lines: seq<Line>, n: nat, s': seq<Symbol>, merged: seq<Line>)
    requires NetMerged(s, lines, n, s', merged)
    ensures SigmaOk(s')
  {
  }
}
