/**
 The two epsilon filters over the open alphabet. The tristate filter takes x:0 and 0:y at once, as one
 arc x:y, where the bistate one takes them in turn; the single arc means less if it is ?:?.
 */
module OpenFilters {
  import opened Automata
  import opened Composition
  import opened OpenAlphabet
  import opened OpenComposition
  import opened OpenMachines
  import opened SigmaMerging
  import opened TripletHashing
  import opened Wrappers

  /** Beside arcs ?:0 and 0:? both nets have an arc @:@. */
  ghost predicate KeepsSilentDiagonal(m1: Machine<int>, m2: Machine<int>) {
    forall a, b :: a in m1.arcs && b in m2.arcs && a.lab == ANY_TO_NONE && b.lab == NONE_TO_ANY ==>
                   IdentityBeside(m1, m2, a, b)
  }

  // ----- The products as tokens see them -----

  ghost predicate MeetingMeans(s: seq<Symbol>, x: Label, y: Label, l: Label, c: Cells) {
    Matched(x, y).Some? && Means(s, Matched(x, y).value, c) && l == CellLabel(c)
  }

  /** Arcs that meet with something in the middle combine to every meaning of the combined arc. */
  ghost function Meanings(s: seq<Symbol>): Meeting {
    (x: Label, y: Label, l: Label) => x.lower != EPSILON && exists c :: MeetingMeans(s, x, y, l, c)
  }

  lemma SilentCells(c: Cells, n: int)
    ensures CellLabel(c) == Label(n, EPSILON) <==> CellCode(c.upper) == n && c.lower == Silent
    ensures CellLabel(c) == Label(EPSILON, n) <==> c.upper == Silent && CellCode(c.lower) == n
  {
  }

  lemma OpenedIsJoint(tri: bool, s: seq<Symbol>, m1: Machine<int>, m2: Machine<int>, e: Arc<Triple>)
    requires LegalMachine(s, m1) && LegalMachine(s, m2) && OpenArc(s, Composed(tri, m1, m2), e)
    ensures Joint(tri, m1, Opened(s, m1), m2, Opened(s, m2), Meanings(s), e)
  {
    hide Means, Matched, LegalLabel, Distinguishes, CellCode;
    var l, c :| OpenArcBy(s, Composed(tri, m1, m2), e, l, c);
    assert ComposedArc(tri, m1, m2, Arc(e.src, l, e.tgt));
    if x, y :| BothMoveOn(tri, m1, m2, e.src, l, e.tgt, x, y) {
      BothIsJoint(tri, s, m1, m2, e, l, c, x, y);
    } else if UpperMove(tri, m1, e.src, l, e.tgt) {
      assert Arc(e.src.a, l, e.tgt.a).lab == l;
      SilentSide(s, l, c);
      assert OpenArcBy(s, m1, Arc(e.src.a, e.lab, e.tgt.a), l, c);
    } else {
      assert Arc(e.src.b, l, e.tgt.b).lab == l;
      SilentSide(s, l, c);
      assert OpenArcBy(s, m2, Arc(e.src.b, e.lab, e.tgt.b), l, c);
    }
  }

  lemma BothIsJoint(tri: bool, s: seq<Symbol>, m1: Machine<int>, m2: Machine<int>, e: Arc<Triple>, l: Label, c: Cells,
                    x: Label, y: Label)
    requires LegalMachine(s, m1) && LegalMachine(s, m2) && Means(s, l, c) && e.lab == CellLabel(c)
    requires BothMoveOn(tri, m1, m2, e.src, l, e.tgt, x, y)
    ensures Joint(tri, m1, Opened(s, m1), m2, Opened(s, m2), Meanings(s), e)
  {
    hide Means, Matched, LegalLabel, Distinguishes, CellCode, UpperMove, LowerMove;
    assert Arc(e.src.a, x, e.tgt.a).lab == x && Arc(e.src.b, y, e.tgt.b).lab == y;
    if x.lower != EPSILON {
      assert MeetingMeans(s, x, y, e.lab, c);
      assert MeetsAt(m1, m2, Meanings(s), e, x, y);
    } else {
      var t := MatchOpens(s, x, y, c);
      SilentCells(Cells(c.upper, Silent), e.lab.upper);
      SilentCells(Cells(Silent, c.lower), e.lab.lower);
      assert OpenArcBy(s, m1, Arc(e.src.a, Label(e.lab.upper, EPSILON), e.tgt.a), x, Cells(c.upper, Silent));
      assert OpenArcBy(s, m2, Arc(e.src.b, Label(EPSILON, e.lab.lower), e.tgt.b), y, Cells(Silent, c.lower));
    }
  }

  lemma JointIsOpened(tri: bool, s: seq<Symbol>, m1: Machine<int>, m2: Machine<int>, e: Arc<Triple>)
    requires LegalMachine(s, m1) && LegalMachine(s, m2) && (tri ==> KeepsSilentDiagonal(m1, m2))
    requires Joint(tri, m1, Opened(s, m1), m2, Opened(s, m2), Meanings(s), e)
    ensures OpenArc(s, Composed(tri, m1, m2), e)
  {
    hide Means, Matched, LegalLabel, Distinguishes, CellCode, KeepsSilentDiagonal;
    if x, y :| MeetsAt(m1, m2, Meanings(s), e, x, y) {
      var c :| MeetingMeans(s, x, y, e.lab, c);
      MeetingIsOpened(tri, s, m1, m2, e, x, y, c);
    } else if tri && SilentPair(Opened(s, m1), Opened(s, m2), e) {
      SilentPairIsOpened(s, m1, m2, e);
    } else if UpperMove(tri, Opened(s, m1), e.src, e.lab, e.tgt) {
      var l, c :| OpenArcBy(s, m1, Arc(e.src.a, e.lab, e.tgt.a), l, c);
      UpperClosed(tri, s, m1, m2, e, l, c);
    } else {
      var l, c :| OpenArcBy(s, m2, Arc(e.src.b, e.lab, e.tgt.b), l, c);
      LowerClosed(tri, s, m1, m2, e, l, c);
    }
  }

  lemma MeetingIsOpened(tri: bool, s: seq<Symbol>, m1: Machine<int>, m2: Machine<int>, e: Arc<Triple>, x: Label,
                        y: Label, c: Cells)
    requires MeetsAt(m1, m2, Meanings(s), e, x, y) && MeetingMeans(s, x, y, e.lab, c)
    ensures OpenArc(s, Composed(tri, m1, m2), e)
  {
    hide Means, CellLabel;
    assert BothMoveOn(tri, m1, m2, e.src, Matched(x, y).value, e.tgt, x, y);
    assert OpenArcBy(s, Composed(tri, m1, m2), e, Matched(x, y).value, c);
  }

  lemma SilentPairIsOpened(s: seq<Symbol>, m1: Machine<int>, m2: Machine<int>, e: Arc<Triple>)
    requires LegalMachine(s, m1) && LegalMachine(s, m2) && KeepsSilentDiagonal(m1, m2)
    requires SilentPair(Opened(s, m1), Opened(s, m2), e)
    ensures OpenArc(s, Composed(true, m1, m2), e)
  {
    hide Means, Matched, LegalLabel, Distinguishes, CellLabel, Composed, OpenArc;
    var a, b := Arc(e.src.a, Label(e.lab.upper, EPSILON), e.tgt.a), Arc(e.src.b, Label(EPSILON, e.lab.lower), e.tgt.b);
    OpenArcIn(s, m1, a);
    OpenArcIn(s, m2, b);
    var x, c :| OpenArcBy(s, m1, a, x, c);
    var y, d :| OpenArcBy(s, m2, b, y, d);
    SilentCells(c, e.lab.upper);
    SilentCells(d, e.lab.lower);
    var f, g := Arc(a.src, x, a.tgt), Arc(b.src, y, b.tgt);
    assert f.lab == x && g.lab == y;
    SilentSide(s, x, c);
    SilentSide(s, y, d);
    assert LosesDiagonal(x, y) ==> IdentityBeside(m1, m2, f, g);
    BothCells(e, c, d);
    BothClosed(true, s, m1, m2, e, x, y, Cells(c.upper, d.lower), Silent);
  }

  lemma OpenArcIn(s: seq<Symbol>, m: Machine<int>, a: Arc<int>)
    ensures a in Opened(s, m).arcs <==> exists l, c :: OpenArcBy(s, m, a, l, c)
  {
  }

  lemma BothCells(e: Arc<Triple>, c: Cells, d: Cells)
    requires CellCode(c.upper) == e.lab.upper && CellCode(d.lower) == e.lab.lower
    ensures e.lab == CellLabel(Cells(c.upper, d.lower))
  {
  }

  // ----- When the filters agree -----

  /** What an arc x:0 and then an arc 0:y mean is meant by some one arc of the tristate product. */
  ghost predicate SilentPairsCovered(s: seq<Symbol>, m1: Machine<int>, m2: Machine<int>) {
    forall e: Arc<Triple> :: SilentPair(Opened(s, m1), Opened(s, m2), e) ==> OpenArc(s, Composed(true, m1, m2), e)
  }

  /** The arc that replaces ?:0 and 0:? loses nothing exactly if there are arcs @:@ beside them. */
  lemma SilentPairsExactly(s: seq<Symbol>, m1: Machine<int>, m2: Machine<int>)
    requires LegalMachine(s, m1) && LegalMachine(s, m2)
    ensures SilentPairsCovered(s, m1, m2) <==> KeepsSilentDiagonal(m1, m2)
  {
    hide LegalMachine, OpenArc, SilentPair, Composed, Opened;
    if KeepsSilentDiagonal(m1, m2) {
      forall e: Arc<Triple> | SilentPair(Opened(s, m1), Opened(s, m2), e)
        ensures OpenArc(s, Composed(true, m1, m2), e)
      {
        SilentPairIsOpened(s, m1, m2, e);
      }
    }
    if SilentPairsCovered(s, m1, m2) {
      forall a, b | a in m1.arcs && b in m2.arcs && a.lab == ANY_TO_NONE && b.lab == NONE_TO_ANY
        ensures IdentityBeside(m1, m2, a, b)
      {
        var e, c := SilentDiagonal(s, m1, m2, a, b);
        OnlyIdentity(true, s, m1, m2, e, c);
      }
    }
  }

  /** An unlisted symbol beside itself, through ?:0 and 0:?. */
  lemma SilentDiagonal(s: seq<Symbol>, m1: Machine<int>, m2: Machine<int>, a: Arc<int>, b: Arc<int>)
    returns (e: Arc<Triple>, c: Cells)
    requires a in m1.arcs && b in m2.arcs && a.lab == ANY_TO_NONE && b.lab == NONE_TO_ANY
    ensures SilentPair(Opened(s, m1), Opened(s, m2), e) && e.src == Triple(a.src, b.src, 0)
            && e.tgt == Triple(a.tgt, b.tgt, 0)
    ensures e.lab == CellLabel(c) && c.upper.Spoken? && c.lower == c.upper && Outside(s, c.upper.name)
  {
    hide Outside, NameCode;
    var u := FreshName(s, Silent, Silent);
    c := Cells(u, u);
    e := Arc(Triple(a.src, b.src, 0), CellLabel(c), Triple(a.tgt, b.tgt, 0));
    assert a == Arc(a.src, a.lab, a.tgt) && b == Arc(b.src, b.lab, b.tgt);
    assert OpenArcBy(s, m1, Arc(a.src, Label(CellCode(u), EPSILON), a.tgt), ANY_TO_NONE, Cells(u, Silent));
    assert OpenArcBy(s, m2, Arc(b.src, Label(EPSILON, CellCode(u)), b.tgt), NONE_TO_ANY, Cells(Silent, u));
  }

  /**
   Whatever the tristate product relates over the open alphabet, the bistate one does; conversely if no silent
   diagonal is lost.
   */
  lemma FiltersOpenly(s: seq<Symbol>, m1: Machine<int>, m2: Machine<int>, x: seq<string>, z: seq<string>)
    requires LegalMachine(s, m1) && LegalMachine(s, m2)
    ensures OpenlyRelates(s, Composed(true, m1, m2), x, z) ==> OpenlyRelates(s, Composed(false, m1, m2), x, z)
    ensures KeepsSilentDiagonal(m1, m2) ==>
              (OpenlyRelates(s, Composed(true, m1, m2), x, z) <==> OpenlyRelates(s, Composed(false, m1, m2), x, z))
  {
    hide LegalMachine, Composed, Opened, Relates, OpenlyRelates, NameCodes, KeepsSilentDiagonal, UpperSide, LowerSide;
    var u, v := UpperSide(m1, Opened(s, m1), Meanings(s)), LowerSide(m2, Opened(s, m2), Meanings(s));
    OpenlyRelatesCodes(s, Composed(true, m1, m2), x, z);
    OpenlyRelatesCodes(s, Composed(false, m1, m2), x, z);
    FiltersAgree(u, v);
    TokensAbove(true, s, m1, m2, NameCodes(x), NameCodes(z));
    TokensAbove(false, s, m1, m2, NameCodes(x), NameCodes(z));
  }

  lemma TokensAbove(tri: bool, s: seq<Symbol>, m1: Machine<int>, m2: Machine<int>, x: seq<int>, z: seq<int>)
    requires LegalMachine(s, m1) && LegalMachine(s, m2)
    ensures var o := Composed(tri, UpperSide(m1, Opened(s, m1), Meanings(s)),
                              LowerSide(m2, Opened(s, m2), Meanings(s)));
            && (Relates(Opened(s, Composed(tri, m1, m2)), x, z) ==> Relates(o, x, z))
            && ((tri ==> KeepsSilentDiagonal(m1, m2)) ==>
                  (Relates(o, x, z) ==> Relates(Opened(s, Composed(tri, m1, m2)), x, z)))
  {
    hide LegalMachine, Relates, KeepsSilentDiagonal, ComposedArc, Joint, OpenArc;
    var u, v := UpperSide(m1, Opened(s, m1), Meanings(s)), LowerSide(m2, Opened(s, m2), Meanings(s));
    var m, o := Opened(s, Composed(tri, m1, m2)), Composed(tri, u, v);
    forall e | e in m.arcs ensures e in o.arcs {
      OpenedIsJoint(tri, s, m1, m2, e);
      SidesCompose(tri, m1, Opened(s, m1), m2, Opened(s, m2), Meanings(s), e);
    }
    if Relates(m, x, z) {
      MoreArcsRelate(m, o, x, z);
    }
    if (tri ==> KeepsSilentDiagonal(m1, m2)) && Relates(o, x, z) {
      forall e | e in o.arcs ensures e in m.arcs {
        SidesCompose(tri, m1, Opened(s, m1), m2, Opened(s, m2), Meanings(s), e);
        JointIsOpened(tri, s, m1, m2, e);
      }
      MoreArcsRelate(o, m, x, z);
    }
  }
}
