/**
 What composition means over the open alphabet. Composing machines letter by letter and opening them
 can be exchanged, except where two arcs combine to ?:?, which leaves out that both ends are equal.
 */
module OpenComposition {
  import opened Automata
  import opened Composition
  import opened OpenAlphabet
  import opened OpenMachines
  import opened SigmaExpansion
  import opened SigmaMerging
  import opened TripletHashing
  import opened Wrappers

  // ----- Matching two arcs, and what they mean -----

  ghost predicate LegalLabel(s: seq<Symbol>, l: Label) {
    LabelOk(l) && 0 <= l.upper && 0 <= l.lower && Knows(s, l.upper) && Knows(s, l.lower)
  }

  ghost predicate LegalMachine<S(!new)>(s: seq<Symbol>, m: Machine<S>) {
    Distinguishes(s) && forall a :: a in m.arcs ==> LegalLabel(s, a.lab)
  }

  /** Longer than any of the names. */
  function Beyond(s: seq<Symbol>): (n: nat)
    ensures forall i :: 0 <= i < |s| ==> |s[i].name| < n
  {
    if s == [] then 0
    else
      var n, k := Beyond(s[..|s| - 1]), |s[|s| - 1].name|;
      if k < n then n else k + 1
  }

  /** There always is another symbol outside the alphabet. */
  lemma FreshName(s: seq<Symbol>, t: Cell, u: Cell) returns (x: Cell)
    ensures x.Spoken? && Outside(s, x.name) && x != t && x != u
  {
    var n := Beyond(s) + (if t.Spoken? then |t.name| + 1 else 0) + (if u.Spoken? then |u.name| + 1 else 0);
    x := Spoken(seq(n, i => 'a'));
  }

  /** What a symbol other than IDENTITY stands for. */
  lemma SideHasMeaning(s: seq<Symbol>, n: int) returns (t: Cell)
    requires 0 <= n && n != IDENTITY && Knows(s, n)
    ensures MeansSide(s, n, t)
  {
    if n == EPSILON {
      t := Silent;
    } else if n == UNKNOWN {
      t := FreshName(s, Silent, Silent);
    } else {
      var a :| 0 <= a < |s| && s[a].number == n;
      t := Spoken(s[a].name);
      assert Ordinary(s, n, t.name);
    }
  }

  /** A meaning of the combined arc comes from meanings of the two arcs with a common middle. */
  lemma MatchOpens(s: seq<Symbol>, x: Label, y: Label, c: Cells) returns (t: Cell)
    requires LegalLabel(s, x) && LegalLabel(s, y) && Matched(x, y).Some? && Means(s, Matched(x, y).value, c)
    ensures Means(s, x, Cells(c.upper, t)) && Means(s, y, Cells(t, c.lower))
    ensures t.Silent? <==> x.lower == EPSILON
  {
    hide Outside, Ordinary, Knows;
    if x.lower == IDENTITY {
      t := c.upper;
    } else if y.upper == IDENTITY {
      t := c.lower;
    } else if x.lower == UNKNOWN {
      t := FreshName(s, c.upper, c.lower);
    } else {
      t := SideHasMeaning(s, x.lower);
    }
  }

  /** The two arcs combine to ?:? although neither carries a symbol through: the meanings u:u are lost. */
  predicate LosesDiagonal(x: Label, y: Label) {
    x.upper == UNKNOWN && y.lower == UNKNOWN && x.lower == y.upper
  }

  /**
   Two arcs whose meanings have a common middle match, and all they mean together is meant by the combined arc,
   but for the diagonal.
   */
  lemma OpensMatch(s: seq<Symbol>, x: Label, y: Label, c: Cells, t: Cell)
    requires Distinguishes(s) && LegalLabel(s, x) && LegalLabel(s, y)
    requires Means(s, x, Cells(c.upper, t)) && Means(s, y, Cells(t, c.lower))
    ensures Matched(x, y).Some? && (t.Silent? <==> x.lower == EPSILON)
    ensures !Means(s, Matched(x, y).value, c) ==>
              LosesDiagonal(x, y) && c.upper.Spoken? && c.lower == c.upper && Outside(s, c.upper.name)
  {
    hide Outside, Ordinary, Knows;
    if x.lower > IDENTITY {
      OneMeaning(s, x.lower, y.upper, t.name);
    } else if y.upper > IDENTITY {
      OneMeaning(s, y.upper, x.lower, t.name);
    }
  }

  // ----- Composing and opening -----

  /** Both nets have an arc @:@ beside these arcs. */
  ghost predicate IdentityBeside(m1: Machine<int>, m2: Machine<int>, a: Arc<int>, b: Arc<int>) {
    && Arc(a.src, Label(IDENTITY, IDENTITY), a.tgt) in m1.arcs
    && Arc(b.src, Label(IDENTITY, IDENTITY), b.tgt) in m2.arcs
  }

  /** Whenever the diagonal is lost, both nets have an arc @:@ beside the arc. */
  ghost predicate KeepsDiagonal(tri: bool, m1: Machine<int>, m2: Machine<int>) {
    forall a, b :: a in m1.arcs && b in m2.arcs && LosesDiagonal(a.lab, b.lab) && AllowsBoth(tri, 0, a.lab.lower) ==>
                     IdentityBeside(m1, m2, a, b)
  }

  /** What the product's arc means is composed of what the nets' arcs mean. */
  lemma OpenedIsComposed(tri: bool, s: seq<Symbol>, m1: Machine<int>, m2: Machine<int>, a: Arc<Triple>)
    requires LegalMachine(s, m1) && LegalMachine(s, m2) && OpenArc(s, Composed(tri, m1, m2), a)
    ensures ComposedArc(tri, Opened(s, m1), Opened(s, m2), a)
  {
    hide Means, Matched, LegalLabel, Distinguishes, CellCode;
    var l, c :| OpenArcBy(s, Composed(tri, m1, m2), a, l, c);
    assert ComposedArc(tri, m1, m2, Arc(a.src, l, a.tgt));
    if BothMove(tri, m1, m2, a.src, l, a.tgt) {
      var x, y :| BothMoveOn(tri, m1, m2, a.src, l, a.tgt, x, y);
      assert Arc(a.src.a, x, a.tgt.a).lab == x && Arc(a.src.b, y, a.tgt.b).lab == y;
      var t := MatchOpens(s, x, y, c);
      BothOpen(tri, s, m1, m2, a, x, y, c, t);
    } else if UpperMove(tri, m1, a.src, l, a.tgt) {
      assert Arc(a.src.a, l, a.tgt.a).lab == l;
      SilentSide(s, l, c);
      assert OpenArcBy(s, m1, Arc(a.src.a, a.lab, a.tgt.a), l, c);
    } else {
      assert Arc(a.src.b, l, a.tgt.b).lab == l;
      SilentSide(s, l, c);
      assert OpenArcBy(s, m2, Arc(a.src.b, a.lab, a.tgt.b), l, c);
    }
  }

  /** EPSILON, and only EPSILON, means nothing. */
  lemma SilentSide(s: seq<Symbol>, l: Label, c: Cells)
    requires LegalLabel(s, l) && Means(s, l, c)
    ensures l.upper == EPSILON <==> CellCode(c.upper) == EPSILON
    ensures l.lower == EPSILON <==> CellCode(c.lower) == EPSILON
  {
  }

  lemma BothOpen(tri: bool, s: seq<Symbol>, m1: Machine<int>, m2: Machine<int>, a: Arc<Triple>, x: Label, y: Label,
                 c: Cells, t: Cell)
    requires Arc(a.src.a, x, a.tgt.a) in m1.arcs && Arc(a.src.b, y, a.tgt.b) in m2.arcs && a.lab == CellLabel(c)
    requires Means(s, x, Cells(c.upper, t)) && Means(s, y, Cells(t, c.lower)) && (t.Silent? <==> x.lower == EPSILON)
    requires AllowsBoth(tri, a.src.c, x.lower) && a.tgt.c == 0
    ensures ComposedArc(tri, Opened(s, m1), Opened(s, m2), a)
  {
    hide Means, Matched;
    var u, v := CellLabel(Cells(c.upper, t)), CellLabel(Cells(t, c.lower));
    assert OpenArcBy(s, m1, Arc(a.src.a, u, a.tgt.a), x, Cells(c.upper, t));
    assert OpenArcBy(s, m2, Arc(a.src.b, v, a.tgt.b), y, Cells(t, c.lower));
    CodesMatch(c, t);
    assert BothMoveOn(tri, Opened(s, m1), Opened(s, m2), a.src, a.lab, a.tgt, u, v);
  }

  /** Numbered cells match exactly if they are the same. */
  lemma CodesMatch(c: Cells, t: Cell)
    ensures Matched(CellLabel(Cells(c.upper, t)), CellLabel(Cells(t, c.lower))) == Some(CellLabel(c))
    ensures CellCode(t) == EPSILON <==> t.Silent?
  {
  }

  lemma MatchedCodes(c: Cells, d: Cells)
    requires Matched(CellLabel(c), CellLabel(d)).Some?
    ensures c.lower == d.upper && Matched(CellLabel(c), CellLabel(d)).value == CellLabel(Cells(c.upper, d.lower))
  {
    CellCodeInjective(c.lower, d.upper);
  }

  /** Conversely, if the diagonal is kept, the composed meanings are meanings of the product's arcs. */
  lemma ComposedIsOpened(tri: bool, s: seq<Symbol>, m1: Machine<int>, m2: Machine<int>, a: Arc<Triple>)
    requires LegalMachine(s, m1) && LegalMachine(s, m2) && KeepsDiagonal(tri, m1, m2)
    requires ComposedArc(tri, Opened(s, m1), Opened(s, m2), a)
    ensures OpenArc(s, Composed(tri, m1, m2), a)
  {
    hide Means, Matched, LegalLabel, Distinguishes, CellCode, KeepsDiagonal, Composed, CellLabel;
    var o1, o2 := Opened(s, m1), Opened(s, m2);
    if BothMove(tri, o1, o2, a.src, a.lab, a.tgt) {
      var u, v :| BothMoveOn(tri, o1, o2, a.src, a.lab, a.tgt, u, v);
      var x, c :| OpenArcBy(s, m1, Arc(a.src.a, u, a.tgt.a), x, c);
      var y, d :| OpenArcBy(s, m2, Arc(a.src.b, v, a.tgt.b), y, d);
      MatchedCodes(c, d);
      CodesMatch(Cells(c.upper, d.lower), c.lower);
      MiddleCode(c, d);
      KeptBeside(tri, s, m1, m2, Arc(a.src.a, x, a.tgt.a), Arc(a.src.b, y, a.tgt.b), c, a.src.c);
      BothClosed(tri, s, m1, m2, a, x, y, Cells(c.upper, d.lower), c.lower);
    } else if UpperMove(tri, o1, a.src, a.lab, a.tgt) {
      var l, c :| OpenArcBy(s, m1, Arc(a.src.a, a.lab, a.tgt.a), l, c);
      UpperClosed(tri, s, m1, m2, a, l, c);
    } else {
      var l, c :| OpenArcBy(s, m2, Arc(a.src.b, a.lab, a.tgt.b), l, c);
      LowerClosed(tri, s, m1, m2, a, l, c);
    }
  }

  lemma KeptBeside(tri: bool, s: seq<Symbol>, m1: Machine<int>, m2: Machine<int>, a: Arc<int>, b: Arc<int>, c: Cells,
                   mode: int)
    requires KeepsDiagonal(tri, m1, m2) && LegalMachine(s, m1) && a in m1.arcs && b in m2.arcs
    requires Means(s, a.lab, c) && AllowsBoth(tri, mode, CellCode(c.lower))
    ensures LosesDiagonal(a.lab, b.lab) ==> IdentityBeside(m1, m2, a, b)
  {
    hide Means, CellCode;
    SilentSide(s, a.lab, c);
  }

  lemma MiddleCode(c: Cells, d: Cells)
    ensures CellLabel(c).lower == CellCode(c.lower) && CellLabel(d).upper == CellCode(d.upper)
  {
  }

  lemma UpperClosed(tri: bool, s: seq<Symbol>, m1: Machine<int>, m2: Machine<int>, a: Arc<Triple>, l: Label, c: Cells)
    requires LegalMachine(s, m1) && UpperMove(tri, Opened(s, m1), a.src, a.lab, a.tgt)
    requires OpenArcBy(s, m1, Arc(a.src.a, a.lab, a.tgt.a), l, c)
    ensures OpenArc(s, Composed(tri, m1, m2), a)
  {
    hide Means, LegalLabel, Distinguishes, CellCode;
    assert Arc(a.src.a, l, a.tgt.a).lab == l;
    SilentSide(s, l, c);
    assert UpperMove(tri, m1, a.src, l, a.tgt);
    assert OpenArcBy(s, Composed(tri, m1, m2), a, l, c);
  }

  lemma LowerClosed(tri: bool, s: seq<Symbol>, m1: Machine<int>, m2: Machine<int>, a: Arc<Triple>, l: Label, c: Cells)
    requires LegalMachine(s, m2) && LowerMove(tri, Opened(s, m2), a.src, a.lab, a.tgt)
    requires OpenArcBy(s, m2, Arc(a.src.b, a.lab, a.tgt.b), l, c)
    ensures OpenArc(s, Composed(tri, m1, m2), a)
  {
    hide Means, LegalLabel, Distinguishes, CellCode;
    assert Arc(a.src.b, l, a.tgt.b).lab == l;
    SilentSide(s, l, c);
    assert LowerMove(tri, m2, a.src, l, a.tgt);
    assert OpenArcBy(s, Composed(tri, m1, m2), a, l, c);
  }

  lemma BothClosed(tri: bool, s: seq<Symbol>, m1: Machine<int>, m2: Machine<int>, a: Arc<Triple>, x: Label, y: Label,
                   c: Cells, t: Cell)
    requires LegalMachine(s, m1) && LegalMachine(s, m2)
    requires LosesDiagonal(x, y) ==> IdentityBeside(m1, m2, Arc(a.src.a, x, a.tgt.a), Arc(a.src.b, y, a.tgt.b))
    requires Arc(a.src.a, x, a.tgt.a) in m1.arcs && Arc(a.src.b, y, a.tgt.b) in m2.arcs && a.lab == CellLabel(c)
    requires Means(s, x, Cells(c.upper, t)) && Means(s, y, Cells(t, c.lower))
    requires AllowsBoth(tri, a.src.c, CellCode(t)) && a.tgt.c == 0
    ensures OpenArc(s, Composed(tri, m1, m2), a)
  {
    hide Matched, LegalLabel, Distinguishes, Means;
    var e, f := Arc(a.src.a, x, a.tgt.a), Arc(a.src.b, y, a.tgt.b);
    assert e.lab == x && f.lab == y;
    OpensMatch(s, x, y, c, t);
    if Means(s, Matched(x, y).value, c) {
      assert BothMoveOn(tri, m1, m2, a.src, Matched(x, y).value, a.tgt, x, y);
      assert OpenArcBy(s, Composed(tri, m1, m2), a, Matched(x, y).value, c);
    } else {
      var id := Label(IDENTITY, IDENTITY);
      IdentityMatches(s, c);
      assert BothMoveOn(tri, m1, m2, a.src, id, a.tgt, id, id);
      assert OpenArcBy(s, Composed(tri, m1, m2), a, id, c);
    }
  }

  lemma IdentityMatches(s: seq<Symbol>, c: Cells)
    requires c.upper.Spoken? && c.lower == c.upper && Outside(s, c.upper.name)
    ensures Matched(Label(IDENTITY, IDENTITY), Label(IDENTITY, IDENTITY)) == Some(Label(IDENTITY, IDENTITY))
    ensures Means(s, Label(IDENTITY, IDENTITY), c)
  {
  }

  /** A lost diagonal is missing from the product's meanings, unless both nets have the arc @:@. */
  lemma DiagonalLost(tri: bool, s: seq<Symbol>, m1: Machine<int>, m2: Machine<int>, a: Arc<int>, b: Arc<int>)
    returns (e: Arc<Triple>)
    requires LegalMachine(s, m1) && LegalMachine(s, m2) && a in m1.arcs && b in m2.arcs
    requires LosesDiagonal(a.lab, b.lab) && AllowsBoth(tri, 0, a.lab.lower)
    ensures ComposedArc(tri, Opened(s, m1), Opened(s, m2), e)
    ensures OpenArc(s, Composed(tri, m1, m2), e) ==>
              IdentityBeside(m1, m2, a, b)
  {
    hide Composed, Opened, ComposedArc;
    var u := FreshName(s, Silent, Silent);
    var t := DiagonalMiddle(s, a.lab, b.lab, u);
    var c := Cells(u, u);
    e := Arc(Triple(a.src, b.src, 0), CellLabel(c), Triple(a.tgt, b.tgt, 0));
    assert a == Arc(a.src, a.lab, a.tgt) && b == Arc(b.src, b.lab, b.tgt);
    BothOpen(tri, s, m1, m2, e, a.lab, b.lab, c, t);
    if OpenArc(s, Composed(tri, m1, m2), e) {
      OnlyIdentity(tri, s, m1, m2, e, c);
    }
  }

  lemma DiagonalMiddle(s: seq<Symbol>, x: Label, y: Label, u: Cell) returns (t: Cell)
    requires LegalLabel(s, x) && LegalLabel(s, y) && LosesDiagonal(x, y) && u.Spoken? && Outside(s, u.name)
    ensures Means(s, x, Cells(u, t)) && Means(s, y, Cells(t, u)) && (t.Silent? <==> x.lower == EPSILON)
  {
    if x.lower == UNKNOWN {
      t := FreshName(s, u, u);
    } else {
      t := SideHasMeaning(s, x.lower);
    }
  }

  lemma OnlyIdentity(tri: bool, s: seq<Symbol>, m1: Machine<int>, m2: Machine<int>, e: Arc<Triple>, c: Cells)
    requires LegalMachine(s, m1) && LegalMachine(s, m2) && OpenArc(s, Composed(tri, m1, m2), e) && e.lab == CellLabel(c)
    requires c.upper.Spoken? && c.lower == c.upper && Outside(s, c.upper.name)
    ensures Arc(e.src.a, Label(IDENTITY, IDENTITY), e.tgt.a) in m1.arcs
            && Arc(e.src.b, Label(IDENTITY, IDENTITY), e.tgt.b) in m2.arcs
  {
    hide CellCode, Distinguishes, Knows, CellLabel;
    var l, d :| OpenArcBy(s, Composed(tri, m1, m2), e, l, d);
    CellLabelInjective(c, d);
    assert ComposedArc(tri, m1, m2, Arc(e.src, l, e.tgt));
    DiagonalLabel(s, l, c);
    if x, y :| BothMoveOn(tri, m1, m2, e.src, l, e.tgt, x, y) {
      assert Arc(e.src.a, x, e.tgt.a).lab == x && Arc(e.src.b, y, e.tgt.b).lab == y;
    }
  }

  lemma DiagonalLabel(s: seq<Symbol>, l: Label, c: Cells)
    requires Means(s, l, c) && c.upper.Spoken? && c.lower == c.upper && Outside(s, c.upper.name)
    ensures l == Label(IDENTITY, IDENTITY)
  {
  }

  /**
   Composing and opening can be exchanged, arc for arc, exactly when no diagonal is lost: whenever two arcs
   combine to ?:? although neither is @:@, both nets also have an arc @:@ between the same states.
   */
  lemma OpeningCommutes(tri: bool, s: seq<Symbol>, m1: Machine<int>, m2: Machine<int>)
    requires LegalMachine(s, m1) && LegalMachine(s, m2)
    ensures Opened(s, Composed(tri, m1, m2)) == Composed(tri, Opened(s, m1), Opened(s, m2)) <==>
              KeepsDiagonal(tri, m1, m2)
  {
    hide LegalMachine, ComposedArc, OpenArc, KeepsDiagonal;
    var m, o := Opened(s, Composed(tri, m1, m2)), Composed(tri, Opened(s, m1), Opened(s, m2));
    forall a | a in m.arcs ensures a in o.arcs {
      OpenedIsComposed(tri, s, m1, m2, a);
    }
    if KeepsDiagonal(tri, m1, m2) {
      forall a | a in o.arcs ensures a in m.arcs {
        ComposedIsOpened(tri, s, m1, m2, a);
      }
      assert m.arcs == o.arcs;
    }
    if m == o {
      NoneLost(tri, s, m1, m2);
    }
  }

  lemma NoneLost(tri: bool, s: seq<Symbol>, m1: Machine<int>, m2: Machine<int>)
    requires LegalMachine(s, m1) && LegalMachine(s, m2)
    requires Opened(s, Composed(tri, m1, m2)) == Composed(tri, Opened(s, m1), Opened(s, m2))
    ensures KeepsDiagonal(tri, m1, m2)
  {
    hide LegalMachine, ComposedArc, OpenArc;
    forall a, b | a in m1.arcs && b in m2.arcs && LosesDiagonal(a.lab, b.lab) && AllowsBoth(tri, 0, a.lab.lower)
      ensures IdentityBeside(m1, m2, a, b)
    {
      var e := DiagonalLost(tri, s, m1, m2, a, b);
      assert e in Composed(tri, Opened(s, m1), Opened(s, m2)).arcs;
      assert e in Opened(s, Composed(tri, m1, m2)).arcs;
    }
  }

  // ----- The relation of the product -----

  /** Some string lies between `x` and `z`. */
  ghost predicate OpenlyLinked(s: seq<Symbol>, m1: Machine<int>, m2: Machine<int>, x: seq<string>, z: seq<string>) {
    exists y :: OpenlyRelates(s, m1, x, y) && OpenlyRelates(s, m2, y, z)
  }

  lemma CodesLinked(s: seq<Symbol>, m1: Machine<int>, m2: Machine<int>, x: seq<string>, z: seq<string>)
    ensures OpenlyLinked(s, m1, m2, x, z) <==>
            exists v :: Relates(Opened(s, m1), NameCodes(x), v) && Relates(Opened(s, m2), v, NameCodes(z))
  {
    hide OpenlyRelates, Relates, NameCodes, Opened;
    if OpenlyLinked(s, m1, m2, x, z) {
      var y :| OpenlyRelates(s, m1, x, y) && OpenlyRelates(s, m2, y, z);
      OpenlyRelatesCodes(s, m1, x, y);
      OpenlyRelatesCodes(s, m2, y, z);
    }
    if v :| Relates(Opened(s, m1), NameCodes(x), v) && Relates(Opened(s, m2), v, NameCodes(z)) {
      var x', y := CodesOfNames(s, m1, NameCodes(x), v);
      OpenlyRelatesCodes(s, m1, x, y);
      OpenlyRelatesCodes(s, m2, y, z);
      assert OpenlyRelates(s, m1, x, y) && OpenlyRelates(s, m2, y, z);
    }
  }

  lemma OpenedNeverClash(s: seq<Symbol>, m1: Machine<int>, m2: Machine<int>)
    ensures NoWildcardClash(Opened(s, m1), Opened(s, m2))
  {
    forall a, b | a in Opened(s, m1).arcs && b in Opened(s, m2).arcs
      ensures !(a.lab.lower == IDENTITY && b.lab.upper == UNKNOWN)
              && !(a.lab.lower == UNKNOWN && b.lab.upper == IDENTITY)
    {
      var l, c :| OpenArcBy(s, m1, a, l, c);
      var k, d :| OpenArcBy(s, m2, b, k, d);
    }
  }

  /** The product relates only what the two nets link, and all of it if no diagonal is lost. */
  lemma ComposedOpenly(tri: bool, s: seq<Symbol>, m1: Machine<int>, m2: Machine<int>, x: seq<string>, z: seq<string>)
    requires LegalMachine(s, m1) && LegalMachine(s, m2)
    ensures OpenlyRelates(s, Composed(tri, m1, m2), x, z) ==> OpenlyLinked(s, m1, m2, x, z)
    ensures KeepsDiagonal(tri, m1, m2) ==> (OpenlyRelates(s, Composed(tri, m1, m2), x, z) <==>
                                              OpenlyLinked(s, m1, m2, x, z))
  {
    hide LegalMachine, ComposedArc, OpenArc, KeepsDiagonal, Relates, OpenlyRelates, OpenlyLinked, NameCodes,
         NoWildcardClash;
    var m, o := Opened(s, Composed(tri, m1, m2)), Composed(tri, Opened(s, m1), Opened(s, m2));
    OpenlyRelatesCodes(s, Composed(tri, m1, m2), x, z);
    CodesLinked(s, m1, m2, x, z);
    OpenedNeverClash(s, m1, m2);
    ClashFreeRelation(tri, Opened(s, m1), Opened(s, m2), NameCodes(x), NameCodes(z));
    OpeningCommutes(tri, s, m1, m2);
    if Relates(m, NameCodes(x), NameCodes(z)) {
      forall a | a in m.arcs ensures a in o.arcs {
        OpenedIsComposed(tri, s, m1, m2, a);
      }
      MoreArcsRelate(m, o, NameCodes(x), NameCodes(z));
    }
  }

  // ----- Nets -----

  lemma KnownLegal(s: seq<Symbol>, lines: seq<Line>)
    requires SigmaOk(s) && NetKnown(s, lines)
    ensures LegalMachine(s, MachineOf(lines))
  {
    hide LabelOk, Knows;
    SortedDistinguishes(s);
    forall a | a in MachineOf(lines).arcs ensures LegalLabel(s, a.lab) {
      var k := ArcLine(lines, a);
      assert LineKnown(s, lines[k]);
      LowerNatural(lines[k].ToLabel());
    }
  }

  lemma LowerNatural(l: Label)
    requires LabelOk(l) && 0 <= l.upper
    ensures 0 <= l.lower
  {
  }

  /** A sorted alphabet that lists the symbols of both nets. */
  ghost predicate SharedAlphabet(s: seq<Symbol>, a: seq<Line>, b: seq<Line>) {
    SigmaOk(s) && NetKnown(s, a) && NetKnown(s, b)
  }

  /** Some string lies between `x` and `z`. */
  ghost predicate OpenLinks(s: seq<Symbol>, a: seq<Line>, b: seq<Line>, x: seq<string>, z: seq<string>) {
    exists y :: OpenRelates(a, s, x, y) && OpenRelates(b, s, y, z)
  }

  /**
   The net relates only what `a` and `b` link under the alphabet `s`, and if no diagonal is lost, all of it:
   it denotes the composition of their relations.
   */
  ghost predicate Composes(tri: bool, s: seq<Symbol>, a: seq<Line>, b: seq<Line>, net: seq<Line>) {
    && (forall x, z :: OpenRelates(net, s, x, z) ==> OpenLinks(s, a, b, x, z))
    && (KeepsDiagonal(tri, MachineOf(a), MachineOf(b)) ==>
          forall x, z :: OpenLinks(s, a, b, x, z) ==> OpenRelates(net, s, x, z))
  }

  lemma LinksOpenly(s: seq<Symbol>, a: seq<Line>, b: seq<Line>, x: seq<string>, z: seq<string>)
    ensures OpenLinks(s, a, b, x, z) <==> OpenlyLinked(s, MachineOf(a), MachineOf(b), x, z)
  {
    hide OpenRelates, OpenlyRelates, MachineOf;
    if OpenLinks(s, a, b, x, z) {
      var y :| OpenRelates(a, s, x, y) && OpenRelates(b, s, y, z);
      OpenRelationOf(a, s, x, y);
      OpenRelationOf(b, s, y, z);
    }
    if OpenlyLinked(s, MachineOf(a), MachineOf(b), x, z) {
      var y :| OpenlyRelates(s, MachineOf(a), x, y) && OpenlyRelates(s, MachineOf(b), y, z);
      OpenRelationOf(a, s, x, y);
      OpenRelationOf(b, s, y, z);
    }
  }

  /** What a net that renumbers the product machine denotes. */
  lemma ProductComposes(tri: bool, s: seq<Symbol>, a: seq<Line>, b: seq<Line>, net: seq<Line>, keys: seq<Triple>)
    requires SharedAlphabet(s, a, b)
    requires Renames(Composed(tri, MachineOf(a), MachineOf(b)), MachineOf(net), keys)
    ensures Composes(tri, s, a, b, net)
  {
    hide SigmaOk, NetKnown, Renames, OpenRelates, OpenlyRelates, OpenLinks, OpenlyLinked, MachineOf, LegalMachine,
         KeepsDiagonal, Composed;
    var m1, m2 := MachineOf(a), MachineOf(b);
    KnownLegal(s, a);
    KnownLegal(s, b);
    forall x, z
      ensures OpenRelates(net, s, x, z) ==> OpenLinks(s, a, b, x, z)
      ensures KeepsDiagonal(tri, m1, m2) && OpenLinks(s, a, b, x, z) ==> OpenRelates(net, s, x, z)
    {
      OpenRelationOf(net, s, x, z);
      RenamedOpenly(s, Composed(tri, m1, m2), MachineOf(net), keys, x, z);
      ComposedOpenly(tri, s, m1, m2, x, z);
      LinksOpenly(s, a, b, x, z);
    }
  }

  /** A net with the same words denotes the same. */
  lemma SameWordsCompose(tri: bool, s: seq<Symbol>, a: seq<Line>, b: seq<Line>, net: seq<Line>, other: seq<Line>)
    requires Composes(tri, s, a, b, net)
    requires forall w :: Accepts(MachineOf(net), w) <==> Accepts(MachineOf(other), w)
    ensures Composes(tri, s, a, b, other)
  {
    hide OpenRelates, OpenlyRelates, OpenLinks, MachineOf, KeepsDiagonal, Accepts;
    forall x, z ensures OpenRelates(net, s, x, z) <==> OpenRelates(other, s, x, z) {
      OpenRelationOf(net, s, x, z);
      OpenRelationOf(other, s, x, z);
      SameWordsOpenly(s, MachineOf(net), MachineOf(other), x, z);
      SameWordsOpenly(s, MachineOf(other), MachineOf(net), x, z);
    }
  }

  // ----- Lost diagonals -----

  const UNKNOWN_AND_A := [Symbol(UNKNOWN, "@_UNKNOWN_SYMBOL_@"), Symbol(3, "a")]

  /** A net with a single arc. */
  function ArcNet(l: Label): seq<Line> {
    [Line(0, l.upper, l.lower, 1, false, true), Line(1, -1, -1, -1, true, false)]
  }

  const ANY_TO_A := Label(UNKNOWN, 3)
  const A_TO_ANY := Label(3, UNKNOWN)
  const ANY_TO_NONE := Label(UNKNOWN, EPSILON)
  const NONE_TO_ANY := Label(EPSILON, UNKNOWN)

  lemma AcceptsOneArc(s: seq<Symbol>, l: Label, c: Cells)
    requires Means(s, l, c)
    ensures OpenAccepts(ArcNet(l), s, [c])
    ensures UpperNames([c]) == if c.upper.Silent? then [] else [c.upper.name]
    ensures LowerNames([c]) == if c.lower.Silent? then [] else [c.lower.name]
  {
    var lines := ArcNet(l);
    assert [c][1..] == [];
    assert lines[0].ToLabel() == l && lines[0].start && lines[1].final;
    assert Starts(lines, 0) && Finals(lines, 1);
    assert MovesOn(s, lines[0], 0, c, 1);
    assert Spells(lines, s, 1, [c][1..], 1);
    assert Moves(lines, s, 0, [c][0], 1);
  }

  lemma ArcNetLinks(s: seq<Symbol>, l: Label, k: Label, c: Cells, d: Cells)
    requires Means(s, l, c) && Means(s, k, d) && c.lower == d.upper && c.upper.Spoken? && d.lower.Spoken?
    ensures OpenLinks(s, ArcNet(l), ArcNet(k), [c.upper.name], [d.lower.name])
  {
    hide Means, OpenAccepts, ArcNet;
    AcceptsOneArc(s, l, c);
    AcceptsOneArc(s, k, d);
    assert OpenRelates(ArcNet(l), s, [c.upper.name], LowerNames([c]));
    assert OpenRelates(ArcNet(k), s, UpperNames([d]), [d.lower.name]);
  }

  lemma ArcNetKnown(s: seq<Symbol>, l: Label)
    requires LabelOk(l) && 0 <= l.upper && Knows(s, l.upper) && Knows(s, l.lower)
    ensures NetKnown(s, ArcNet(l))
  {
    assert ArcNet(l)[0].ToLabel() == l;
  }

  lemma ArcNetMoves(l: Label, p: int, k: Label, q: int)
    ensures Arc(p, k, q) in MachineOf(ArcNet(l)).arcs ==> p == 0 && k == l && q == 1
    ensures p in MachineOf(ArcNet(l)).starts ==> p == 0
    ensures p in MachineOf(ArcNet(l)).finals ==> p == 1
  {
    if Arc(p, k, q) in MachineOf(ArcNet(l)).arcs {
      var i := ArcLine(ArcNet(l), Arc(p, k, q));
    }
  }

  lemma NamesApart(s: seq<Symbol>, w: seq<Label>, u: seq<Cells>)
    requires WordMeans(s, w, u) && w != [] && w[0] == Label(UNKNOWN, UNKNOWN)
    ensures UpperNames(u) != [] && LowerNames(u) != [] && UpperNames(u)[0] != LowerNames(u)[0]
  {
    assert Means(s, w[0], u[0]);
  }

  /** If every accepting path of a machine starts with ?:?, then it relates no symbol to itself. */
  lemma StartsApart(s: seq<Symbol>, m: Machine<Triple>, x: string)
    requires forall p, w, q :: p in m.starts && q in m.finals && Reads(m, p, w, q) ==>
                               w != [] && w[0] == Label(UNKNOWN, UNKNOWN)
    ensures !OpenlyRelates(s, m, [x], [x])
  {
    hide Opened, Accepts, UpperNames, LowerNames, WordMeans;
    if OpenlyRelates(s, m, [x], [x]) {
      var u: seq<Cells> :| Accepts(Opened(s, m), CellLabels(u)) && UpperNames(u) == [x] && LowerNames(u) == [x];
      var p, q := AcceptingPath(Opened(s, m), CellLabels(u));
      var w := WordBehind(s, m, p, u, q);
      OpenedFlags(s, m, p, q);
      NamesApart(s, w, u);
    }
  }

  lemma AlphabetExample()
    ensures SigmaOk(UNKNOWN_AND_A) && Knows(UNKNOWN_AND_A, UNKNOWN) && Knows(UNKNOWN_AND_A, 3)
    ensures Ordinary(UNKNOWN_AND_A, 3, "a") && Outside(UNKNOWN_AND_A, "b")
  {
    var s := UNKNOWN_AND_A;
    assert s[0].number == UNKNOWN && s[1].number == 3 && s[1].name == "a";
  }

  /** The product of one-arc nets: a path that ends in both final states, in terms of its first move. */
  lemma FirstMove(tri: bool, l: Label, k: Label, p: Triple, w: seq<Label>, q: Triple)
    requires var m := Composed(tri, MachineOf(ArcNet(l)), MachineOf(ArcNet(k)));
             p in m.starts && q in m.finals && Reads(m, p, w, q)
    requires l.lower == k.upper && (l.lower != EPSILON || tri)
    ensures w != [] && w[0] == Label(l.upper, k.lower)
  {
    hide MachineOf, ArcNet, Composed;
    var m1, m2 := MachineOf(ArcNet(l)), MachineOf(ArcNet(k));
    var m := Composed(tri, m1, m2);
    ComposedFlags(tri, m1, m2, p);
    ComposedFlags(tri, m1, m2, q);
    ArcNetMoves(l, p.a, l, 1);
    ArcNetMoves(k, p.b, k, 1);
    ArcNetMoves(l, q.a, l, 1);
    ArcNetMoves(k, q.b, k, 1);
    assert w != [];
    var rest := w[1..];
    var r := ReadsHead(m, p, w, q);
    ComposedMove(tri, m1, m2, p, w[0], r);
    if x, y :| BothMoveOn(tri, m1, m2, p, w[0], r, x, y) {
      ArcNetMoves(l, p.a, x, r.a);
      ArcNetMoves(k, p.b, y, r.b);
    } else if UpperMove(tri, m1, p, w[0], r) {
      ArcNetMoves(l, p.a, w[0], r.a);
      StaysThere(l, k, r, rest, q);
    } else {
      ArcNetMoves(k, p.b, w[0], r.b);
      StaysThere(l, k, r, rest, q);
    }
  }

  /** Once one net has moved alone on its only arc, the tristate filter holds back the other one. */
  lemma Stuck(l: Label, k: Label, r: Triple)
    requires r == Triple(1, 0, 1) || r == Triple(0, 1, 2)
    ensures forall j, t :: Arc(r, j, t) !in Composed(true, MachineOf(ArcNet(l)), MachineOf(ArcNet(k))).arcs
  {
    hide MachineOf, ArcNet;
    var m1, m2 := MachineOf(ArcNet(l)), MachineOf(ArcNet(k));
    forall j: Label, t: Triple ensures !ComposedArc(true, m1, m2, Arc(r, j, t)) {
      forall x: Label, y: Label ensures !BothMoveOn(true, m1, m2, r, j, t, x, y) {
        ArcNetMoves(l, r.a, x, t.a);
        ArcNetMoves(k, r.b, y, t.b);
      }
      ArcNetMoves(l, r.a, j, t.a);
      ArcNetMoves(k, r.b, j, t.b);
    }
  }

  lemma ComposedMove(tri: bool, m1: Machine<int>, m2: Machine<int>, p: Triple, l: Label, q: Triple)
    ensures Arc(p, l, q) in Composed(tri, m1, m2).arcs <==> ComposedArc(tri, m1, m2, Arc(p, l, q))
  {
  }

  lemma StaysThere(l: Label, k: Label, r: Triple, v: seq<Label>, q: Triple)
    requires r == Triple(1, 0, 1) || r == Triple(0, 1, 2)
    requires Reads(Composed(true, MachineOf(ArcNet(l)), MachineOf(ArcNet(k))), r, v, q)
    ensures q == r
  {
    Stuck(l, k, r);
  }

  /** `b` goes to `a` and on to `b`, yet the product of ?:a and a:? relates no symbol to itself. */
  lemma DiagonalCounts(tri: bool)
    ensures SigmaOk(UNKNOWN_AND_A) && NetKnown(UNKNOWN_AND_A, ArcNet(ANY_TO_A))
            && NetKnown(UNKNOWN_AND_A, ArcNet(A_TO_ANY))
    ensures OpenLinks(UNKNOWN_AND_A, ArcNet(ANY_TO_A), ArcNet(A_TO_ANY), ["b"], ["b"])
    ensures !OpenlyRelates(UNKNOWN_AND_A, Composed(tri, MachineOf(ArcNet(ANY_TO_A)), MachineOf(ArcNet(A_TO_ANY))),
                           ["b"], ["b"])
  {
    hide ArcNet, Composed, MachineOf, SigmaOk, Knows, Ordinary, Outside;
    var s := UNKNOWN_AND_A;
    AlphabetExample();
    ArcNetKnown(s, ANY_TO_A);
    ArcNetKnown(s, A_TO_ANY);
    ArcNetLinks(s, ANY_TO_A, A_TO_ANY, Cells(Spoken("b"), Spoken("a")), Cells(Spoken("a"), Spoken("b")));
    var m := Composed(tri, MachineOf(ArcNet(ANY_TO_A)), MachineOf(ArcNet(A_TO_ANY)));
    forall p: Triple, w, q: Triple | p in m.starts && q in m.finals && Reads(m, p, w, q)
      ensures w != [] && w[0] == Label(UNKNOWN, UNKNOWN)
    {
      FirstMove(tri, ANY_TO_A, A_TO_ANY, p, w, q);
    }
    StartsApart(s, m, "b");
  }

  /**
   The two filters part over the open alphabet: the product of ?:0 and 0:? relates `b` to itself under one of
   them only.
   */
  lemma FiltersPart()
    ensures SigmaOk(UNKNOWN_AND_A) && NetKnown(UNKNOWN_AND_A, ArcNet(ANY_TO_NONE))
            && NetKnown(UNKNOWN_AND_A, ArcNet(NONE_TO_ANY))
    ensures OpenlyRelates(UNKNOWN_AND_A, Composed(false, MachineOf(ArcNet(ANY_TO_NONE)),
                                                  MachineOf(ArcNet(NONE_TO_ANY))), ["b"], ["b"])
    ensures !OpenlyRelates(UNKNOWN_AND_A, Composed(true, MachineOf(ArcNet(ANY_TO_NONE)),
                                                   MachineOf(ArcNet(NONE_TO_ANY))), ["b"], ["b"])
  {
    hide ArcNet, Composed, MachineOf, SigmaOk, Ordinary, Outside, OpenlyRelates, OpenlyLinked, LegalMachine;
    var s := UNKNOWN_AND_A;
    var m1, m2 := MachineOf(ArcNet(ANY_TO_NONE)), MachineOf(ArcNet(NONE_TO_ANY));
    AlphabetExample();
    ArcNetKnown(s, ANY_TO_NONE);
    ArcNetKnown(s, NONE_TO_ANY);
    KnownLegal(s, ArcNet(ANY_TO_NONE));
    KnownLegal(s, ArcNet(NONE_TO_ANY));
    ArcNetLinks(s, ANY_TO_NONE, NONE_TO_ANY, Cells(Spoken("b"), Silent), Cells(Silent, Spoken("b")));
    LinksOpenly(s, ArcNet(ANY_TO_NONE), ArcNet(NONE_TO_ANY), ["b"], ["b"]);
    BistateKeeps(m1, m2);
    ComposedOpenly(false, s, m1, m2, ["b"], ["b"]);
    var m := Composed(true, m1, m2);
    forall p: Triple, w, q: Triple | p in m.starts && q in m.finals && Reads(m, p, w, q)
      ensures w != [] && w[0] == Label(UNKNOWN, UNKNOWN)
    {
      FirstMove(true, ANY_TO_NONE, NONE_TO_ANY, p, w, q);
    }
    StartsApart(s, m, "b");
  }

  lemma BistateKeeps(m1: Machine<int>, m2: Machine<int>)
    requires m1 == MachineOf(ArcNet(ANY_TO_NONE))
    ensures KeepsDiagonal(false, m1, m2)
  {
    forall a: Arc<int> | a in m1.arcs ensures a.lab == ANY_TO_NONE {
      ArcNetMoves(ANY_TO_NONE, a.src, a.lab, a.tgt);
    }
  }
}
