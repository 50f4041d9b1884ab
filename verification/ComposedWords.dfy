/**
 The pair strings that composition accepts. Both epsilon filters denote one relation, but they
 spell it differently: an upper x:0 beside a lower 0:y is one pair x:y under the tristate filter and
 the two pairs x:0 0:y under the bistate one.
 */
module ComposedWords {
  import opened Automata
  import opened Composition
  import opened TripletHashing
  import opened Wrappers

  /**
   The pair string of an upper and a lower path. Pairs x:0 and 0:y are taken as soon as one path has them, first the
   upper path's; the tristate filter takes two of them at once. Other pairs combine.
   */
  function Woven(tri: bool, wa: seq<Label>, wb: seq<Label>): seq<Label>
    decreases |wa| + |wb|
  {
    if tri && UpperWaits(wa) && LowerWaits(wb) then
      [Label(wa[0].upper, wb[0].lower)] + Woven(tri, wa[1..], wb[1..])
    else if UpperWaits(wa) then [wa[0]] + Woven(tri, wa[1..], wb)
    else if LowerWaits(wb) then [wb[0]] + Woven(tri, wa, wb[1..])
    else if wa != [] && wb != [] then
      var l := Matched(wa[0], wb[0]);
      (if l.Some? then [l.value] else []) + Woven(tri, wa[1..], wb[1..])
    else []
  }

  /** Two accepted paths that match in the middle are woven to `w`. */
  ghost predicate WovenFrom(tri: bool, m1: Machine<int>, m2: Machine<int>, wa: seq<Label>, wb: seq<Label>,
                            w: seq<Label>) {
    Accepts(m1, wa) && Accepts(m2, wb) && AllMatch(Outputs(wa), Inputs(wb)) && Woven(tri, wa, wb) == w
  }

  /** Up to 0:0 pairs, `v` is woven from two accepted paths. */
  ghost predicate Weaves(tri: bool, m1: Machine<int>, m2: Machine<int>, v: seq<Label>) {
    exists wa, wb, w :: WovenFrom(tri, m1, m2, wa, wb, w) && Erase(w) == v
  }

  /** The canonical interleaving of two paths that agree in the middle spells the woven string. */
  lemma {:induction false} CanonicalSpellsWoven(tri: bool, mode: int, wa: seq<Label>, wb: seq<Label>)
    requires LegalSteps(tri, mode, wa, wb, Canonical(tri, wa, wb))
    ensures Spelled(tri, mode, wa, wb, Canonical(tri, wa, wb)) == Woven(tri, wa, wb)
    decreases |wa| + |wb|
  {
    var steps := Canonical(tri, wa, wb);
    if steps != [] {
      var c := NextMode(tri, steps[0]);
      match steps[0]
      case Both =>
        assert steps[1..] == Canonical(tri, wa[1..], wb[1..]);
        CanonicalSpellsWoven(tri, c, wa[1..], wb[1..]);
      case UpperOnly =>
        assert steps[1..] == Canonical(tri, wa[1..], wb);
        CanonicalSpellsWoven(tri, c, wa[1..], wb);
      case LowerOnly =>
        assert steps[1..] == Canonical(tri, wa, wb[1..]);
        CanonicalSpellsWoven(tri, c, wa, wb[1..]);
    }
  }

  /** Without a wildcard clash, a word of the product is woven from two paths that agree in the middle. */
  lemma WovenBack(tri: bool, m1: Machine<int>, m2: Machine<int>, w: seq<Label>)
    returns (wa: seq<Label>, wb: seq<Label>)
    requires NoWildcardClash(m1, m2) && Accepts(Composed(tri, m1, m2), w)
    ensures Accepts(m1, wa) && Accepts(m2, wb) && Lower(wa) == Upper(wb) && Woven(tri, wa, wb) == w
  {
    hide NoWildcardClash, Reads, LegalSteps, Spelled, Canonical, Woven;
    var s, t := AcceptingPath(Composed(tri, m1, m2), w);
    ComposedFlags(tri, m1, m2, s);
    ComposedFlags(tri, m1, m2, t);
    var steps;
    wa, wb, steps := RunIsInterleaving(tri, m1, m2, s, w, t);
    UniqueInterleaving(tri, wa, wb, steps);
    CanonicalSpellsWoven(tri, 0, wa, wb);
  }

  lemma WovenForth(tri: bool, m1: Machine<int>, m2: Machine<int>, wa: seq<Label>, wb: seq<Label>)
    requires NoWildcardClash(m1, m2) && Accepts(m1, wa) && Accepts(m2, wb) && Lower(wa) == Upper(wb)
    ensures Accepts(Composed(tri, m1, m2), Woven(tri, wa, wb))
  {
    hide NoWildcardClash, Reads, LegalSteps, Spelled, Canonical, Woven, EndMode;
    var p, p' := AcceptingPath(m1, wa);
    var q, q' := AcceptingPath(m2, wb);
    var steps := Canonical(tri, wa, wb);
    UniqueInterleaving(tri, wa, wb, steps);
    var s, t := Triple(p, q, 0), Triple(p', q', EndMode(tri, 0, steps));
    InterleavingIsRun(tri, m1, m2, s, wa, wb, steps, t);
    CanonicalSpellsWoven(tri, 0, wa, wb);
    ComposedFlags(tri, m1, m2, s);
    ComposedFlags(tri, m1, m2, t);
  }

  /** Two arcs that carry a token for what they combine to still combine to it. */
  lemma TokensMatched(x: Label, y: Label)
    requires Matched(x, y).Some?
    ensures Matched(TokenAbove(x, y), TokenBelow(x, y)) == Matched(x, y)
    ensures TokenAbove(x, y).lower > IDENTITY && TokenBelow(x, y).upper > IDENTITY
  {
    hide Token;
  }

  lemma TokensWait(wa: seq<Label>, wb: seq<Label>)
    requires AllMatch(Outputs(wa), Inputs(wb))
    ensures |Outputs(wa)| == |Inputs(wb)|
    ensures var u, v := UpperTokens(wa, Inputs(wb)), LowerTokens(wb, Outputs(wa));
            && (UpperWaits(u) <==> UpperWaits(wa)) && (LowerWaits(v) <==> LowerWaits(wb))
            && (u == [] <==> wa == []) && (v == [] <==> wb == [])
  {
    hide AllMatch, Matched;
    var xs, ys := Outputs(wa), Inputs(wb);
    MatchLengths(xs, ys);
    if wa != [] && wa[0].lower != EPSILON {
      assert xs[0] == wa[0];
      MatchTail(xs, ys);
      TokensMatched(xs[0], ys[0]);
    }
    if wb != [] && wb[0].upper != EPSILON {
      assert ys[0] == wb[0];
      MatchTail(xs, ys);
      TokensMatched(xs[0], ys[0]);
    }
  }

  lemma UpperTokensTail(w: seq<Label>, ys: seq<Label>)
    requires |ys| == |Outputs(w)| && w != []
    ensures if w[0].lower == EPSILON then Outputs(w[1..]) == Outputs(w) && UpperTokens(w, ys)[0] == w[0]
                                          && UpperTokens(w, ys)[1..] == UpperTokens(w[1..], ys)
            else Outputs(w) != [] && Outputs(w)[0] == w[0] && Outputs(w)[1..] == Outputs(w[1..])
                 && UpperTokens(w, ys)[0] == TokenAbove(w[0], ys[0])
                 && UpperTokens(w, ys)[1..] == UpperTokens(w[1..], ys[1..])
  {
    hide TokenAbove;
  }

  lemma LowerTokensTail(w: seq<Label>, xs: seq<Label>)
    requires |xs| == |Inputs(w)| && w != []
    ensures if w[0].upper == EPSILON then Inputs(w[1..]) == Inputs(w) && LowerTokens(w, xs)[0] == w[0]
                                          && LowerTokens(w, xs)[1..] == LowerTokens(w[1..], xs)
            else Inputs(w) != [] && Inputs(w)[0] == w[0] && Inputs(w)[1..] == Inputs(w[1..])
                 && LowerTokens(w, xs)[0] == TokenBelow(xs[0], w[0])
                 && LowerTokens(w, xs)[1..] == LowerTokens(w[1..], xs[1..])
  {
    hide TokenBelow;
  }

  /** Tokens in the middle leave the woven string as it is. */
  lemma {:induction false} TokensWoven(tri: bool, wa: seq<Label>, wb: seq<Label>)
    requires AllMatch(Outputs(wa), Inputs(wb))
    ensures |Outputs(wa)| == |Inputs(wb)|
    ensures Woven(tri, UpperTokens(wa, Inputs(wb)), LowerTokens(wb, Outputs(wa))) == Woven(tri, wa, wb)
    decreases |wa| + |wb|
  {
    hide AllMatch, Matched, Outputs, Inputs, UpperTokens, LowerTokens, UpperWaits, LowerWaits, TokenAbove, TokenBelow;
    var xs, ys := Outputs(wa), Inputs(wb);
    TokensWait(wa, wb);
    if wa != [] {
      UpperTokensTail(wa, ys);
    }
    if wb != [] {
      LowerTokensTail(wb, xs);
    }
    Waiting(wa, wb);
    if tri && UpperWaits(wa) && LowerWaits(wb) {
      TokensWoven(tri, wa[1..], wb[1..]);
    } else if UpperWaits(wa) {
      TokensWoven(tri, wa[1..], wb);
    } else if LowerWaits(wb) {
      TokensWoven(tri, wa, wb[1..]);
    } else if wa != [] && wb != [] {
      MatchTail(xs, ys);
      TokensWoven(tri, wa[1..], wb[1..]);
      TokensMatched(wa[0], wb[0]);
    }
  }

  lemma Waiting(wa: seq<Label>, wb: seq<Label>)
    ensures UpperWaits(wa) <==> wa != [] && wa[0].lower == EPSILON
    ensures LowerWaits(wb) <==> wb != [] && wb[0].upper == EPSILON
  {
  }

  /** Paths of the two sides that agree on their tokens are paths of the two machines that match. */
  lemma SidesToPaths(m1: Machine<int>, m2: Machine<int>, u: seq<Label>, v: seq<Label>)
    returns (wa: seq<Label>, wb: seq<Label>)
    requires Accepts(UpperSide(m1, m1, Letters()), u) && Accepts(LowerSide(m2, m2, Letters()), v)
             && Lower(u) == Upper(v)
    ensures Accepts(m1, wa) && Accepts(m2, wb) && AllMatch(Outputs(wa), Inputs(wb)) && |Outputs(wa)| == |Inputs(wb)|
    ensures u == UpperTokens(wa, Inputs(wb)) && v == LowerTokens(wb, Outputs(wa))
  {
    hide Reads, AllMatch, Token, TokenAbove, TokenBelow;
    var p, p' := AcceptingPath(UpperSide(m1, m1, Letters()), u);
    var q, q' := AcceptingPath(LowerSide(m2, m2, Letters()), v);
    var ys, xs;
    wa, ys := UpperBehind(m1, p, u, p');
    wb, xs := LowerBehind(m2, q, v, q');
    MatchLengths(Outputs(wa), ys);
    MatchLengths(xs, Inputs(wb));
    UpperTapes(wa, ys);
    LowerTapes(wb, xs);
    TokensInjective(Outputs(wa), ys, xs, Inputs(wb));
  }

  lemma PathsToSides(m1: Machine<int>, m2: Machine<int>, wa: seq<Label>, wb: seq<Label>)
    requires Accepts(m1, wa) && Accepts(m2, wb) && AllMatch(Outputs(wa), Inputs(wb))
    ensures |Outputs(wa)| == |Inputs(wb)|
    ensures var u, v := UpperTokens(wa, Inputs(wb)), LowerTokens(wb, Outputs(wa));
            Accepts(UpperSide(m1, m1, Letters()), u) && Accepts(LowerSide(m2, m2, Letters()), v) && Lower(u) == Upper(v)
  {
    hide Reads, AllMatch, Token, TokenAbove, TokenBelow;
    var xs, ys := Outputs(wa), Inputs(wb);
    MatchLengths(xs, ys);
    var p, p' := AcceptingPath(m1, wa);
    var q, q' := AcceptingPath(m2, wb);
    OutputsSpeak(wa);
    UpperReads(m1, p, wa, p', ys);
    LowerReads(m2, q, wb, q', xs);
    UpperTapes(wa, ys);
    LowerTapes(wb, xs);
  }

  /** For any two machines, the product accepts exactly the strings woven from accepted paths that match. */
  lemma ComposedAccepts(tri: bool, m1: Machine<int>, m2: Machine<int>, w: seq<Label>)
    ensures Accepts(Composed(tri, m1, m2), w) <==> exists wa, wb :: WovenFrom(tri, m1, m2, wa, wb, w)
  {
    hide Accepts, Composed, UpperSide, LowerSide, NoWildcardClash, AllMatch, Outputs, Inputs, Woven, UpperTokens,
         LowerTokens;
    var u, v := UpperSide(m1, m1, Letters()), LowerSide(m2, m2, Letters());
    SidesNeverClash(m1, m1, m2, m2, Letters());
    TokensCompose(tri, m1, m2);
    if Accepts(Composed(tri, m1, m2), w) {
      var ua, vb := WovenBack(tri, u, v, w);
      var wa, wb := SidesToPaths(m1, m2, ua, vb);
      TokensWoven(tri, wa, wb);
      assert WovenFrom(tri, m1, m2, wa, wb, w);
    }
    if wa, wb :| WovenFrom(tri, m1, m2, wa, wb, w) {
      PathsToSides(m1, m2, wa, wb);
      TokensWoven(tri, wa, wb);
      WovenForth(tri, u, v, UpperTokens(wa, Inputs(wb)), LowerTokens(wb, Outputs(wa)));
    }
  }

  /** The symbol pairs along the canonical interleaving, without 0:0 pairs, are `v`. */
  ghost predicate SpelledAs(tri: bool, wa: seq<Label>, wb: seq<Label>, v: seq<Label>) {
    LegalSteps(tri, 0, wa, wb, Canonical(tri, wa, wb))
    && Erase(Spelled(tri, 0, wa, wb, Canonical(tri, wa, wb))) == v
  }

  /** Two accepted paths, the lower one reading what the upper one writes, interleave to `v`. */
  ghost predicate Interleaves(tri: bool, m1: Machine<int>, m2: Machine<int>, v: seq<Label>) {
    exists wa, wb :: Accepts(m1, wa) && Accepts(m2, wb) && Lower(wa) == Upper(wb) && SpelledAs(tri, wa, wb, v)
  }

  lemma CanonicalWoven(tri: bool, wa: seq<Label>, wb: seq<Label>, v: seq<Label>)
    requires Lower(wa) == Upper(wb)
    ensures SpelledAs(tri, wa, wb, v) <==> Erase(Woven(tri, wa, wb)) == v
  {
    hide LegalSteps, Spelled, Canonical, Woven, Erase;
    UniqueInterleaving(tri, wa, wb, Canonical(tri, wa, wb));
    CanonicalSpellsWoven(tri, 0, wa, wb);
  }

  /** Where no `?` meets `@`, the woven strings are the canonical interleavings of paths that agree in the middle. */
  lemma WeavesCanonically(tri: bool, m1: Machine<int>, m2: Machine<int>, v: seq<Label>)
    requires NoWildcardClash(m1, m2)
    ensures Weaves(tri, m1, m2, v) <==> Interleaves(tri, m1, m2, v)
  {
    hide NoWildcardClash, Accepts, Composed, Woven, Erase, WovenFrom, SpelledAs;
    if Weaves(tri, m1, m2, v) {
      var wa, wb, w :| WovenFrom(tri, m1, m2, wa, wb, w) && Erase(w) == v;
      ComposedAccepts(tri, m1, m2, w);
      var ua, ub := WovenBack(tri, m1, m2, w);
      CanonicalWoven(tri, ua, ub, v);
    }
    if Interleaves(tri, m1, m2, v) {
      var wa, wb :| Accepts(m1, wa) && Accepts(m2, wb) && Lower(wa) == Upper(wb) && SpelledAs(tri, wa, wb, v);
      CanonicalWoven(tri, wa, wb, v);
      WovenForth(tri, m1, m2, wa, wb);
      ComposedAccepts(tri, m1, m2, Woven(tri, wa, wb));
    }
  }

  /** A net that numbers the product's states accepts the woven strings, up to 0:0 pairs. */
  lemma RenamedWeaves(tri: bool, m1: Machine<int>, m2: Machine<int>, n: Machine<int>, keys: seq<Triple>)
    requires Renames(Composed(tri, m1, m2), n, keys)
    ensures forall v :: AcceptsErased(n, v) <==> Weaves(tri, m1, m2, v)
    ensures NoWildcardClash(m1, m2) ==> forall v :: AcceptsErased(n, v) <==> Interleaves(tri, m1, m2, v)
  {
    hide Renames, Composed, Accepts, WovenFrom, Erase, NoWildcardClash, Interleaves;
    RenamingKeepsLanguage(Composed(tri, m1, m2), n, keys);
    forall v ensures AcceptsErased(n, v) <==> Weaves(tri, m1, m2, v) {
      if AcceptsErased(Composed(tri, m1, m2), v) {
        var w :| Erase(w) == v && Accepts(Composed(tri, m1, m2), w);
        ComposedAccepts(tri, m1, m2, w);
      }
      if Weaves(tri, m1, m2, v) {
        var wa, wb, w :| WovenFrom(tri, m1, m2, wa, wb, w) && Erase(w) == v;
        ComposedAccepts(tri, m1, m2, w);
      }
    }
    if NoWildcardClash(m1, m2) {
      forall v ensures AcceptsErased(n, v) <==> Interleaves(tri, m1, m2, v) {
        WeavesCanonically(tri, m1, m2, v);
      }
    }
  }

  /** The filters accept different strings: a:0 beside 0:b is a:b under one and a:0 0:b under the other. */
  lemma FiltersSpell(a: int, b: int)
    ensures Woven(true, [Label(a, EPSILON)], [Label(EPSILON, b)]) == [Label(a, b)]
    ensures Woven(false, [Label(a, EPSILON)], [Label(EPSILON, b)]) == [Label(a, EPSILON), Label(EPSILON, b)]
  {
    assert [Label(a, EPSILON)][1..] == [] && [Label(EPSILON, b)][1..] == [];
    assert Woven(true, [], []) == [] && Woven(false, [], []) == [];
    assert Woven(false, [], [Label(EPSILON, b)]) == [Label(EPSILON, b)] + Woven(false, [], []);
  }
}
