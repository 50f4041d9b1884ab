/**
 Expansion keeps arcs apart: if no state had two arcs with the same symbol pair before the alphabets
 were merged, none has afterwards. Composition counts on it when it sizes the rows of its index.
 */
module WidenedArcs {
  import opened Automata
  import opened NetBuilding
  import NetReading
  import opened OpenAlphabet
  import opened SigmaExpansion
  import opened SigmaMerging

  ghost predicate Rising(m: seq<Entry>) {
    forall k, h :: 0 <= k < h < |m| ==> m[k].number < m[h].number
  }

  lemma ExtendsRises(m: seq<Entry>, s: seq<Symbol>, bit: int, mapping: seq<int>)
    requires Extends(m, s, bit, mapping)
    ensures Rising(m)
  {
    forall k, h | 0 <= k < h < |m| ensures m[k].number < m[h].number {
      NumbersRise(m, k, h);
    }
  }

  // ----- The labels written for one label are distinct -----

  lemma DistinctAppend(a: seq<Label>, b: seq<Label>)
    requires Distinct(a) && Distinct(b) && forall r :: r in a ==> r !in b
    ensures Distinct(a + b)
  {
    forall i, j | 0 <= i < j < |a + b| ensures (a + b)[i] != (a + b)[j] {
      if i < |a| <= j {
        assert a[i] in a && b[j - |a|] in b;
      }
    }
  }

  /** Labels written by one loop differ in the symbol that the loop runs over. */
  lemma EmittedLabelApart(shape: Shape, e: Entry, f: Entry)
    requires EmittedLabel(shape, e) == EmittedLabel(shape, f)
    ensures e.number == f.number
  {
  }

  lemma {:induction false} LabelsDistinct(m: seq<Entry>, shape: Shape, want: int)
    requires Rising(m)
    ensures Distinct(Labels(m, shape, want))
  {
    hide Emits, EmittedLabel;
    if m != [] {
      var rest, last := m[..|m| - 1], m[|m| - 1];
      LabelsDistinct(rest, shape, want);
      if Emits(shape, last, want) {
        InLabels(rest, shape, want, EmittedLabel(shape, last));
        var written := EmittedLabel(shape, last);
        if k :| 0 <= k < |rest| && Emits(shape, rest[k], want) && EmittedLabel(shape, rest[k]) == written {
          EmittedLabelApart(shape, rest[k], last);
        }
        DistinctAppend(Labels(rest, shape, want), [EmittedLabel(shape, last)]);
      } else {
        assert Labels(rest, shape, want) + [] == Labels(rest, shape, want);
      }
    }
  }

  lemma AgainstLower(m: seq<Entry>, f: Entry, want: int, r: Label)
    requires r in Labels(m, Against(f), want)
    ensures r.lower == f.number && r.upper != r.lower
  {
    InLabels(m, Against(f), want, r);
  }

  lemma {:induction false} PairLabelsDistinct(m: seq<Entry>, k: nat, want: int)
    requires Rising(m) && k <= |m|
    ensures Distinct(PairLabels(m, k, want))
    decreases k
  {
    hide Labels;
    if k > 0 {
      PairLabelsDistinct(m, k - 1, want);
      LabelsDistinct(m, Against(m[k - 1]), want);
      var before, now := PairLabels(m, k - 1, want), Labels(m, Against(m[k - 1]), want);
      forall r | r in before ensures r !in now {
        InPairLabels(m, k - 1, want, r);
        var h :| 0 <= h < k - 1 && r in Labels(m, Against(m[h]), want);
        AgainstLower(m, m[h], want, r);
        if r in now {
          AgainstLower(m, m[k - 1], want, r);
        }
      }
      DistinctAppend(before, now);
    }
  }

  /** The loops never write the wildcard label itself again. */
  lemma NotAgain(m: seq<Entry>, shape: Shape, want: int, l: Label)
    requires match shape case Diagonal => l.upper == IDENTITY case NewUpper(_) => l.upper == UNKNOWN
                         case NewLower(_) => l.lower == UNKNOWN case Against(_) => l.upper == l.lower
    ensures l !in Labels(m, shape, want)
  {
    InLabels(m, shape, want, l);
  }

  lemma NotPairedAgain(m: seq<Entry>, want: int)
    ensures Label(UNKNOWN, UNKNOWN) !in PairLabels(m, |m|, want)
  {
    hide Labels;
    var l := Label(UNKNOWN, UNKNOWN);
    InPairLabels(m, |m|, want, l);
    forall h | 0 <= h < |m| ensures l !in Labels(m, Against(m[h]), want) {
      NotAgain(m, Against(m[h]), want, l);
    }
  }

  lemma WideningDistinct(l: Label, m: seq<Entry>, want: int)
    requires Rising(m) && LabelOk(l)
    ensures Distinct(Widening(l, m, want))
  {
    hide Labels, PairLabels, Widening;
    WideningCases(l, m, want);
    if l.upper == IDENTITY {
      LabelsDistinct(m, Diagonal, want);
      NotAgain(m, Diagonal, want, l);
      DistinctAppend([l], Labels(m, Diagonal, want));
    } else if l.upper == UNKNOWN && l.lower != UNKNOWN {
      LabelsDistinct(m, NewUpper(l.lower), want);
      NotAgain(m, NewUpper(l.lower), want, l);
      DistinctAppend([l], Labels(m, NewUpper(l.lower), want));
    } else if l.upper != UNKNOWN && l.lower == UNKNOWN {
      LabelsDistinct(m, NewLower(l.upper), want);
      NotAgain(m, NewLower(l.upper), want, l);
      DistinctAppend([l], Labels(m, NewLower(l.upper), want));
    } else if l == Label(UNKNOWN, UNKNOWN) {
      PairLabelsDistinct(m, |m|, want);
      NotPairedAgain(m, want);
      DistinctAppend([l], PairLabels(m, |m|, want));
    }
  }

  // ----- Different labels are replaced by different labels -----

  /** The symbols on the label are not among those that expansion brings in. */
  ghost predicate Old(l: Label, m: seq<Entry>, want: int) {
    !HasNew(m, want, l.upper) && !HasNew(m, want, l.lower)
  }

  lemma ReplacesApart(l: Label, k: Label, m: seq<Entry>, want: int, r: Label)
    requires LabelOk(l) && LabelOk(k) && Old(l, m, want) && Old(k, m, want)
    requires Replaces(l, m, want, r) && Replaces(k, m, want, r)
    ensures l == k
  {
    hide HasNew;
    NewIsOrdinaryNumber(m, want, r.upper);
    NewIsOrdinaryNumber(m, want, r.lower);
  }

  lemma NewIsOrdinaryNumber(m: seq<Entry>, want: int, n: int)
    ensures HasNew(m, want, n) ==> n > IDENTITY
  {
  }

  /** A symbol of the old alphabet is not new, and no other one has its new number. */
  lemma MappedIsOld(m: seq<Entry>, s: seq<Symbol>, bit: int, mapping: seq<int>, n: int)
    requires Extends(m, s, bit, mapping) && Knows(s, n) && n < |mapping|
    ensures !HasNew(m, 3 - bit, Mapped(n, mapping))
  {
    hide MapsTo, Numbered, InOrder, Marks, Covers, Ordinary, Knows;
    if k :| 0 <= k < |m| && m[k].number == Mapped(n, mapping) && IsNew(m[k], 3 - bit) {
      if n > IDENTITY {
        KnownMapped(m, s, bit, mapping, n);
        OldEntry(m, s, bit, n, mapping[n], k);
      }
    }
  }

  lemma OldEntry(m: seq<Entry>, s: seq<Symbol>, bit: int, n: int, n': int, k: int)
    requires Marks(m, s, bit) && 1 <= bit <= 2 && 0 <= k < |m| && m[k].number == n' > IDENTITY
             && 1 <= m[k].presence <= 3
    requires forall x :: Ordinary(s, n, x) <==> Ordinary(SymbolsOf(m), n', x)
    ensures !IsNew(m[k], 3 - bit)
  {
    var x := m[k].name;
    assert SymbolsOf(m)[k].number == n' && SymbolsOf(m)[k].name == x;
    assert Ordinary(SymbolsOf(m), n', x);
    var a :| 0 <= a < |s| && s[a].number == n > IDENTITY && s[a].name == x;
    EntryNew(m, s, bit, k);
  }

  lemma MappedApart(m: seq<Entry>, s: seq<Symbol>, bit: int, mapping: seq<int>, n: int, k: int)
    requires Extends(m, s, bit, mapping) && SigmaOk(s) && Knows(s, n) && Knows(s, k) && n < |mapping| && k < |mapping|
    requires Mapped(n, mapping) == Mapped(k, mapping)
    ensures n == k
  {
    hide MapsTo, Numbered, InOrder, Marks, Covers, Ordinary, Outside, Knows, SigmaOk, Distinguishes;
    if n >= 0 {
      KnownMapped(m, s, bit, mapping, n);
    }
    if k >= 0 {
      KnownMapped(m, s, bit, mapping, k);
    }
    if n > IDENTITY && k > IDENTITY {
      var x := NameOf(s, n);
      SortedDistinguishes(s);
      OneMeaning(s, n, k, x);
    }
  }

  // ----- The expanded net -----

  /** Lines written for one line differ in their labels. */
  lemma {:induction false} BlocksDistinct(lines: seq<Line>, m: seq<Entry>, want: int, k: int, h: int)
    requires Rising(m) && (forall i :: 0 <= i < |lines| ==> LabelOk(lines[i].ToLabel()))
    requires var o := Origins(lines, m, want); 0 <= k < h < |o| && o[k] == o[h]
    ensures WidenLines(lines, m, want)[k].ToLabel() != WidenLines(lines, m, want)[h].ToLabel()
  {
    hide Widening;
    var n := |lines| - 1;
    var before := WidenLines(lines[..n], m, want);
    OriginsBelow(lines[..n], m, want);
    if h < |before| {
      BlocksDistinct(lines[..n], m, want, k, h);
    } else {
      WideningDistinct(lines[n].ToLabel(), m, want);
      LabelsOfBlock(lines[n], Widening(lines[n].ToLabel(), m, want), k - |before|, h - |before|);
    }
  }

  lemma LabelsOfBlock(l: Line, labels: seq<Label>, k: int, h: int)
    requires Distinct(labels) && 0 <= k < h < |labels|
    ensures WithLabels(l, labels)[k].ToLabel() != WithLabels(l, labels)[h].ToLabel()
  {
    assert Relabel(l, labels[k]).ToLabel() == labels[k] && Relabel(l, labels[h]).ToLabel() == labels[h];
  }

  lemma {:induction false} OriginsBelow(lines: seq<Line>, m: seq<Entry>, want: int)
    ensures forall k :: 0 <= k < |Origins(lines, m, want)| ==> 0 <= Origins(lines, m, want)[k] < |lines|
  {
    hide Widening;
    if lines != [] {
      OriginsBelow(lines[..|lines| - 1], m, want);
    }
  }

  /** If no state had two arcs with one symbol pair, none has after renumbering and expanding. */
  lemma ExpansionKeepsApart(m: seq<Entry>, s: seq<Symbol>, bit: int, mapping: seq<int>, lines: seq<Line>)
    requires Extends(m, s, bit, mapping) && SigmaOk(s) && NetKnown(s, lines) && InRange(lines, mapping)
             && OneArcPerLabel(lines)
    ensures OneArcPerLabel(WidenLines(Renumbered(lines, mapping), m, 3 - bit))
  {
    hide Extends, SigmaOk, LineKnown, WidenLines, Widening, LabelOk, Written;
    var lines' := Renumbered(lines, mapping);
    var wide, o := WidenLines(lines', m, 3 - bit), Origins(lines', m, 3 - bit);
    ExtendsRises(m, s, bit, mapping);
    WidenComesFrom(lines', m, 3 - bit);
    forall i | 0 <= i < |lines'| ensures LabelOk(lines'[i].ToLabel()) {
      RenumberedOk(m, s, bit, mapping, lines[i]);
    }
    forall k, h | 0 <= k < h < |wide| && wide[k].state == wide[h].state ensures wide[k].ToLabel() != wide[h].ToLabel() {
      if o[k] == o[h] {
        BlocksDistinct(lines', m, 3 - bit, k, h);
      } else {
        OriginsApart(m, s, bit, mapping, lines, wide, o, k, h);
      }
    }
    forall l | l in wide ensures l.ToLabel() != EPSILON_PAIR {
      var k :| 0 <= k < |wide| && wide[k] == l;
      NeverEpsilon(m, s, bit, mapping, lines, wide, o, k);
    }
  }

  /** What is known of a line of the expanded net. */
  lemma OriginOf(m: seq<Entry>, s: seq<Symbol>, bit: int, mapping: seq<int>, lines: seq<Line>, wide: seq<Line>,
                 o: seq<int>, k: int)
    returns (l: Label, l': Label)
    requires Extends(m, s, bit, mapping) && NetKnown(s, lines) && InRange(lines, mapping)
    requires 0 <= k < |wide| == |o| && Written(wide, o, Renumbered(lines, mapping), m, 3 - bit, k)
    ensures 0 <= o[k] < |lines| && l == lines[o[k]].ToLabel() && wide[k].state == lines[o[k]].state
    ensures Knows(s, l.upper) && Knows(s, l.lower) && LabelOk(l') && Old(l', m, 3 - bit)
    ensures l.upper < |mapping| && l.lower < |mapping|
            && l' == Label(Mapped(l.upper, mapping), Mapped(l.lower, mapping))
    ensures Replaces(l', m, 3 - bit, wide[k].ToLabel())
  {
    hide Extends, Widening, Knows, LabelOk, Replaces, ListsNumber, HasNew;
    var line := lines[o[k]];
    assert LineKnown(s, line);
    l, l' := line.ToLabel(), RenumberLine(line, mapping).ToLabel();
    RenumberedOk(m, s, bit, mapping, line);
    InWidening(l', m, 3 - bit, wide[k].ToLabel());
    MappedIsOld(m, s, bit, mapping, l.upper);
    MappedIsOld(m, s, bit, mapping, l.lower);
  }

  lemma OriginsApart(m: seq<Entry>, s: seq<Symbol>, bit: int, mapping: seq<int>, lines: seq<Line>, wide: seq<Line>,
                     o: seq<int>, k: int, h: int)
    requires Extends(m, s, bit, mapping) && SigmaOk(s) && NetKnown(s, lines) && InRange(lines, mapping)
             && OneArcPerLabel(lines)
    requires 0 <= k < |wide| == |o| && 0 <= h < |wide| && o[k] != o[h] && wide[k].state == wide[h].state
    requires Written(wide, o, Renumbered(lines, mapping), m, 3 - bit, k)
             && Written(wide, o, Renumbered(lines, mapping), m, 3 - bit, h)
    ensures wide[k].ToLabel() != wide[h].ToLabel()
  {
    hide Extends, SigmaOk, NetKnown, Written, Knows, LabelOk, Replaces, Old;
    var l, l' := OriginOf(m, s, bit, mapping, lines, wide, o, k);
    var r, r' := OriginOf(m, s, bit, mapping, lines, wide, o, h);
    assert l != r;
    if l' == r' {
      MappedApart(m, s, bit, mapping, l.upper, r.upper);
      MappedApart(m, s, bit, mapping, l.lower, r.lower);
    } else if wide[k].ToLabel() == wide[h].ToLabel() {
      ReplacesApart(l', r', m, 3 - bit, wide[k].ToLabel());
    }
  }

  lemma NeverEpsilon(m: seq<Entry>, s: seq<Symbol>, bit: int, mapping: seq<int>, lines: seq<Line>, wide: seq<Line>,
                     o: seq<int>, k: int)
    requires Extends(m, s, bit, mapping) && NetKnown(s, lines) && InRange(lines, mapping) && OneArcPerLabel(lines)
    requires 0 <= k < |wide| == |o| && Written(wide, o, Renumbered(lines, mapping), m, 3 - bit, k)
    ensures wide[k].ToLabel() != EPSILON_PAIR
  {
    hide Extends, NetKnown, Written, HasNew;
    var l, l' := OriginOf(m, s, bit, mapping, lines, wide, o, k);
    assert lines[o[k]] in lines && l != EPSILON_PAIR;
    NewIsOrdinaryNumber(m, 3 - bit, EPSILON);
    MappedZero(m, s, bit, mapping, l.upper);
    MappedZero(m, s, bit, mapping, l.lower);
  }

  lemma MappedZero(m: seq<Entry>, s: seq<Symbol>, bit: int, mapping: seq<int>, n: int)
    requires Extends(m, s, bit, mapping) && Knows(s, n) && n < |mapping|
    ensures Mapped(n, mapping) == EPSILON ==> n == EPSILON
  {
    if n > IDENTITY {
      KnownMapped(m, s, bit, mapping, n);
    }
  }

  /** A line without an arc stays the only line of its state. */
  lemma ExpansionKeepsAlone(m: seq<Entry>, s: seq<Symbol>, bit: int, mapping: seq<int>, lines: seq<Line>, n: nat)
    requires Extends(m, s, bit, mapping) && WellFormed(lines, n) && NetKnown(s, lines) && InRange(lines, mapping)
    requires NetReading.ArclessAlone(lines)
    ensures NetReading.ArclessAlone(WidenLines(Renumbered(lines, mapping), m, 3 - bit))
  {
    hide Extends, LineKnown, WidenLines, Widening, LabelOk, Written, WellFormed;
    var lines' := Renumbered(lines, mapping);
    var wide, o := WidenLines(lines', m, 3 - bit), Origins(lines', m, 3 - bit);
    ExtendsRises(m, s, bit, mapping);
    WidenComesFrom(lines', m, 3 - bit);
    forall i | 0 <= i < |lines'| ensures LabelOk(lines'[i].ToLabel()) {
      RenumberedOk(m, s, bit, mapping, lines[i]);
    }
    forall k, h | 0 <= k < |wide| && 0 <= h < |wide| && wide[k].state == wide[h].state && wide[k].target == -1
      ensures k == h
    {
      BareOrigin(m, mapping, lines, n, wide, o, 3 - bit, k);
      WrittenFrom(mapping, lines, wide, o, m, 3 - bit, h);
      assert o[k] == o[h];
      BareOrigin(m, mapping, lines, n, wide, o, 3 - bit, h);
      if k < h {
        BlocksDistinct(lines', m, 3 - bit, k, h);
      } else if h < k {
        BlocksDistinct(lines', m, 3 - bit, h, k);
      }
    }
  }

  lemma WrittenFrom(mapping: seq<int>, lines: seq<Line>, wide: seq<Line>, o: seq<int>, m: seq<Entry>, want: int, k: int)
    requires InRange(lines, mapping) && 0 <= k < |wide| == |o|
             && Written(wide, o, Renumbered(lines, mapping), m, want, k)
    ensures 0 <= o[k] < |lines| && wide[k].state == lines[o[k]].state && wide[k].target == lines[o[k]].target
  {
    hide Widening;
  }

  /** The line that a line without an arc was written for has none either, and is replaced by itself alone. */
  lemma BareOrigin(m: seq<Entry>, mapping: seq<int>, lines: seq<Line>, n: nat, wide: seq<Line>, o: seq<int>, want: int,
                   k: int)
    requires InRange(lines, mapping) && WellFormed(lines, n)
    requires 0 <= k < |wide| == |o| && Written(wide, o, Renumbered(lines, mapping), m, want, k) && wide[k].target == -1
    ensures 0 <= o[k] < |lines| && wide[k].state == lines[o[k]].state && lines[o[k]].target == -1
            && wide[k].ToLabel() == Label(-1, -1)
  {
    hide Widening, WellFormed;
    WrittenFrom(mapping, lines, wide, o, m, want, k);
    LineAt(lines, n, o[k]);
    WideningCases(Label(-1, -1), m, want);
  }
}
