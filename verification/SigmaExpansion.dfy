/**
 Expanding wildcards: once the alphabets are merged, an arc that stood for every symbol a net
 did not list must also be written out for the symbols that only the other net listed.
 */
module SigmaExpansion {
  import opened Automata
  import opened OpenAlphabet
  import opened SigmaMerging

  // ----- The arcs that replace a wildcard arc -----

  /** The loops over the merged list: what they write for one cell, against a fixed other side. */
  datatype Shape = Diagonal | NewUpper(lower: int) | NewLower(upper: int) | Against(lowerEntry: Entry)

  predicate IsNew(e: Entry, want: int) {
    e.presence == want && e.number > IDENTITY
  }

  predicate Emits(shape: Shape, e: Entry, want: int) {
    match shape
    case Against(f) =>
      (  (IsNew(e, want) && IsNew(f, want))
      || (e.number == UNKNOWN && IsNew(f, want))
      || (f.number == UNKNOWN && IsNew(e, want))) && e.number != f.number
    case _ => IsNew(e, want)
  }

  function EmittedLabel(shape: Shape, e: Entry): Label {
    match shape
    case Diagonal => Label(e.number, e.number)
    case NewUpper(lower) => Label(e.number, lower)
    case NewLower(upper) => Label(upper, e.number)
    case Against(f) => Label(e.number, f.number)
  }

  function Labels(m: seq<Entry>, shape: Shape, want: int): seq<Label> {
    if m == [] then []
    else
      var last := m[|m| - 1];
      Labels(m[..|m| - 1], shape, want) + if Emits(shape, last, want) then [EmittedLabel(shape, last)] else []
  }

  /** The pairs written for ?:?, the outer loop over the first `k` cells giving the lower side. */
  function PairLabels(m: seq<Entry>, k: nat, want: int): seq<Label>
    requires k <= |m|
  {
    if k == 0 then [] else PairLabels(m, k - 1, want) + Labels(m, Against(m[k - 1]), want)
  }

  predicate Plain(n: int) {
    n > IDENTITY || n == EPSILON
  }

  /** All arcs written for an arc labelled `l`. */
  function Widening(l: Label, m: seq<Entry>, want: int): seq<Label> {
    (if l.upper == IDENTITY then [l] + Labels(m, Diagonal, want) else [])
    + (if l.upper == UNKNOWN && l.lower != UNKNOWN then [l] + Labels(m, NewUpper(l.lower), want) else [])
    + (if l.upper != UNKNOWN && l.lower == UNKNOWN then [l] + Labels(m, NewLower(l.upper), want) else [])
    + (if l.upper == UNKNOWN && l.lower == UNKNOWN then [l] + PairLabels(m, |m|, want) else [])
    + (if Plain(l.upper) && Plain(l.lower) then [l] else [])
    + (if l.upper == -1 then [l] else [])
  }

  ghost predicate HasNew(m: seq<Entry>, want: int, n: int) {
    exists k :: 0 <= k < |m| && m[k].number == n && IsNew(m[k], want)
  }

  lemma {:induction false} InLabels(m: seq<Entry>, shape: Shape, want: int, l: Label)
    ensures l in Labels(m, shape, want) <==>
            exists k :: 0 <= k < |m| && Emits(shape, m[k], want) && EmittedLabel(shape, m[k]) == l
  {
    hide Emits, EmittedLabel;
    if m != [] {
      var rest := m[..|m| - 1];
      InLabels(rest, shape, want, l);
      if l in Labels(rest, shape, want) {
        var k :| 0 <= k < |rest| && Emits(shape, rest[k], want) && EmittedLabel(shape, rest[k]) == l;
        assert m[k] == rest[k];
      }
      if k :| 0 <= k < |m| && Emits(shape, m[k], want) && EmittedLabel(shape, m[k]) == l {
        assert k < |rest| ==> rest[k] == m[k];
      }
    }
  }

  lemma {:induction false} InPairLabels(m: seq<Entry>, k: nat, want: int, l: Label)
    requires k <= |m|
    ensures l in PairLabels(m, k, want) <==> exists h :: 0 <= h < k && l in Labels(m, Against(m[h]), want)
  {
    hide Labels;
    if k > 0 {
      InPairLabels(m, k - 1, want, l);
    }
  }

  /** Which labels replace `l`, said without the loops. */
  ghost predicate Replaces(l: Label, m: seq<Entry>, want: int, r: Label) {
    || r == l
    || (l == Label(IDENTITY, IDENTITY) && r.upper == r.lower && HasNew(m, want, r.upper))
    || (l.upper == UNKNOWN && l.lower != UNKNOWN && r.lower == l.lower && HasNew(m, want, r.upper))
    || (l.upper != UNKNOWN && l.lower == UNKNOWN && r.upper == l.upper && HasNew(m, want, r.lower))
    || (l == Label(UNKNOWN, UNKNOWN) && r.upper != r.lower
        && (r.upper == UNKNOWN || HasNew(m, want, r.upper)) && (r.lower == UNKNOWN || HasNew(m, want, r.lower)))
  }

  ghost predicate ListsNumber(m: seq<Entry>, n: int) {
    exists k :: 0 <= k < |m| && m[k].number == n
  }

  /** Labels that arcs may carry: IDENTITY only against itself, wildcards listed in the alphabet. */
  predicate LabelOk(l: Label) {
    && (l == Label(-1, -1) || (0 <= l.upper && 0 <= l.lower))
    && (l.upper == IDENTITY <==> l.lower == IDENTITY)
  }

  /** Exactly one of the cases applies to a legal label. */
  lemma WideningCases(l: Label, m: seq<Entry>, want: int)
    requires LabelOk(l)
    ensures l.upper == IDENTITY ==> Widening(l, m, want) == [l] + Labels(m, Diagonal, want)
    ensures l.upper == UNKNOWN && l.lower != UNKNOWN ==>
              Widening(l, m, want) == [l] + Labels(m, NewUpper(l.lower), want)
    ensures l.upper != UNKNOWN && l.lower == UNKNOWN ==>
              Widening(l, m, want) == [l] + Labels(m, NewLower(l.upper), want)
    ensures l.upper == UNKNOWN && l.lower == UNKNOWN ==> Widening(l, m, want) == [l] + PairLabels(m, |m|, want)
    ensures (Plain(l.upper) && Plain(l.lower)) || l.upper == -1 ==> Widening(l, m, want) == [l]
  {
    hide Labels, PairLabels;
  }

  lemma InWidening(l: Label, m: seq<Entry>, want: int, r: Label)
    requires LabelOk(l) && (l.upper == UNKNOWN ==> ListsNumber(m, UNKNOWN))
    ensures r in Widening(l, m, want) <==> Replaces(l, m, want, r)
  {
    InLabels(m, Diagonal, want, r);
    InLabels(m, NewUpper(l.lower), want, r);
    InLabels(m, NewLower(l.upper), want, r);
    if l == Label(UNKNOWN, UNKNOWN) {
      InPairs(m, want, r);
    }
  }

  lemma InPairs(m: seq<Entry>, want: int, r: Label)
    requires ListsNumber(m, UNKNOWN)
    ensures r == Label(UNKNOWN, UNKNOWN) || r in PairLabels(m, |m|, want) <==>
              Replaces(Label(UNKNOWN, UNKNOWN), m, want, r)
  {
    InPairLabels(m, |m|, want, r);
    if r in PairLabels(m, |m|, want) {
      var h :| 0 <= h < |m| && r in Labels(m, Against(m[h]), want);
      InLabels(m, Against(m[h]), want, r);
    }
    if r != Label(UNKNOWN, UNKNOWN) && Replaces(Label(UNKNOWN, UNKNOWN), m, want, r) {
      var h := EntryFor(m, want, r.lower);
      var k := EntryFor(m, want, r.upper);
      assert Emits(Against(m[h]), m[k], want) && EmittedLabel(Against(m[h]), m[k]) == r;
      InLabels(m, Against(m[h]), want, r);
    }
  }

  lemma EntryFor(m: seq<Entry>, want: int, n: int) returns (k: int)
    requires ListsNumber(m, UNKNOWN) && (n == UNKNOWN || HasNew(m, want, n))
    ensures 0 <= k < |m| && m[k].number == n && (n == UNKNOWN || IsNew(m[k], want))
  {
    if n == UNKNOWN {
      k :| 0 <= k < |m| && m[k].number == n;
    } else {
      k :| 0 <= k < |m| && m[k].number == n && IsNew(m[k], want);
    }
  }

  // ----- Expansion keeps an arc's meaning -----

  function Mapped(n: int, mapping: seq<int>): int
    requires n < |mapping|
  {
    if n > 2 then mapping[n] else n
  }

  /** The symbols on an arc are in the net's alphabet, so the mapping knows them. */
  ghost predicate Knows(s: seq<Symbol>, n: int) {
    n > EPSILON ==> exists a :: 0 <= a < |s| && s[a].number == n
  }

  /** `m` extends the alphabet `s`, whose bit is `bit`, and `mapping` renumbers `s` into `m`. */
  ghost predicate Extends(m: seq<Entry>, s: seq<Symbol>, bit: int, mapping: seq<int>) {
    && m != [] && Numbered(m) && InOrder(m) && 1 <= bit <= 2
    && Marks(m, s, bit) && Covers(m, s, |s|) && MapsTo(mapping, s, |s|, m)
    && (forall k :: 0 <= k < |m| && m[k].number >= 0 ==> 1 <= m[k].presence <= 3)
  }

  ghost predicate NewName(m: seq<Entry>, want: int, x: string) {
    exists k :: 0 <= k < |m| && IsNew(m[k], want) && m[k].name == x
  }

  lemma NumberNames(m: seq<Entry>, k: int, h: int)
    requires Numbered(m) && InOrder(m) && 0 <= k < |m| && 0 <= h < |m| && m[k].number == m[h].number
    ensures k == h
  {
    if k < h {
      NumbersRise(m, k, h);
    } else if h < k {
      NumbersRise(m, h, k);
    }
  }

  /** A name of the old alphabet keeps its symbol. */
  lemma NameForth(m: seq<Entry>, s: seq<Symbol>, mapping: seq<int>, n: int, x: string)
    requires MapsTo(mapping, s, |s|, m) && Ordinary(s, n, x)
    ensures n < |mapping| && mapping[n] > IDENTITY && Ordinary(SymbolsOf(m), mapping[n], x)
  {
    var a :| 0 <= a < |s| && s[a].number == n > IDENTITY && s[a].name == x;
    assert MapsSymbol(mapping[n], s[a], m);
    var k :| 0 <= k < |m| && m[k].number == mapping[n] > IDENTITY && m[k].name == x;
    var s' := SymbolsOf(m);
    assert s'[k].number == mapping[n] && s'[k].name == x;
  }

  lemma NameOf(s: seq<Symbol>, n: int) returns (x: string)
    requires Knows(s, n) && n > IDENTITY
    ensures Ordinary(s, n, x)
  {
    var a :| 0 <= a < |s| && s[a].number == n;
    x := s[a].name;
  }

  lemma OneName(m: seq<Entry>, n: int, x: string, y: string)
    requires Numbered(m) && InOrder(m) && Ordinary(SymbolsOf(m), n, x) && Ordinary(SymbolsOf(m), n, y)
    ensures x == y
  {
    var s' := SymbolsOf(m);
    var k :| 0 <= k < |s'| && s'[k].number == n > IDENTITY && s'[k].name == x;
    var h :| 0 <= h < |s'| && s'[h].number == n > IDENTITY && s'[h].name == y;
    NumberNames(m, k, h);
  }

  lemma KnownMapped(m: seq<Entry>, s: seq<Symbol>, bit: int, mapping: seq<int>, n: int)
    requires Extends(m, s, bit, mapping) && Knows(s, n) && n >= 0
    ensures n > IDENTITY ==> n < |mapping| && mapping[n] > IDENTITY
    ensures forall x :: n > IDENTITY ==> (Ordinary(s, n, x) <==> Ordinary(SymbolsOf(m), mapping[n], x))
  {
    hide Ordinary, SymbolsOf, MapsTo, Numbered, InOrder, Marks, Covers, Knows;
    if n > IDENTITY {
      var y := NameOf(s, n);
      NameForth(m, s, mapping, n, y);
      forall x ensures Ordinary(s, n, x) <==> Ordinary(SymbolsOf(m), mapping[n], x) {
        if Ordinary(s, n, x) {
          NameForth(m, s, mapping, n, x);
        }
        if Ordinary(SymbolsOf(m), mapping[n], x) {
          OneName(m, mapping[n], x, y);
        }
      }
    }
  }

  /** An ordinary entry is new exactly when its name is outside the old alphabet. */
  lemma EntryNew(m: seq<Entry>, s: seq<Symbol>, bit: int, k: int)
    requires Marks(m, s, bit) && 0 <= k < |m| && m[k].number > IDENTITY && 1 <= m[k].presence <= 3 && 1 <= bit <= 2
    ensures IsNew(m[k], 3 - bit) <==> Outside(s, m[k].name)
  {
    var x := m[k].ToSymbol();
    assert HasBit(m[k].presence, bit) <==> Has(s, x);
    if Has(s, x) {
      var a :| 0 <= a < |s| && Same(s[a], x);
      assert s[a].number > IDENTITY && s[a].name == x.name;
    }
    if !Outside(s, x.name) {
      var a :| 0 <= a < |s| && s[a].number > IDENTITY && s[a].name == x.name;
      assert Same(s[a], x);
    }
  }

  /** The names of the merged alphabet, read off the entries. */
  lemma OutsideMerged(m: seq<Entry>, x: string)
    ensures Outside(SymbolsOf(m), x) <==> forall k :: 0 <= k < |m| && m[k].number > IDENTITY ==> m[k].name != x
  {
    var s' := SymbolsOf(m);
    forall k | 0 <= k < |m| ensures s'[k].number == m[k].number && s'[k].name == m[k].name {
    }
  }

  /** A name outside the old alphabet is outside the merged one or new to this net, never both. */
  lemma OutsideSplits(m: seq<Entry>, s: seq<Symbol>, bit: int, mapping: seq<int>, x: string)
    requires Extends(m, s, bit, mapping)
    ensures Outside(s, x) <==> Outside(SymbolsOf(m), x) || NewName(m, 3 - bit, x)
    ensures !(Outside(SymbolsOf(m), x) && NewName(m, 3 - bit, x))
  {
    hide Outside, Numbered, InOrder, MapsTo, SymbolsOf, Has, Lists;
    OutsideMerged(m, x);
    if k :| 0 <= k < |m| && m[k].number > IDENTITY && m[k].name == x {
      EntryNew(m, s, bit, k);
      if NewName(m, 3 - bit, x) {
        NewNames(m, s, bit, mapping, x);
      }
    } else if !Outside(s, x) {
      NotOutside(m, s, x);
    }
  }

  lemma NewNames(m: seq<Entry>, s: seq<Symbol>, bit: int, mapping: seq<int>, x: string)
    requires Extends(m, s, bit, mapping) && NewName(m, 3 - bit, x)
    ensures Outside(s, x)
  {
    var k :| 0 <= k < |m| && IsNew(m[k], 3 - bit) && m[k].name == x;
    EntryNew(m, s, bit, k);
  }

  lemma NotOutside(m: seq<Entry>, s: seq<Symbol>, x: string)
    requires Covers(m, s, |s|) && !Outside(s, x)
    ensures exists k :: 0 <= k < |m| && m[k].number > IDENTITY && m[k].name == x
  {
    var a :| 0 <= a < |s| && s[a].number > IDENTITY && s[a].name == x;
    assert Lists(m, s[a]);
    var k :| 0 <= k < |m| && Same(m[k].ToSymbol(), s[a]);
    assert m[k].number > IDENTITY && m[k].name == x;
  }

  /** The numbers of the new names are the new numbers. */
  lemma NewNumber(m: seq<Entry>, want: int, x: string) returns (n: int)
    requires NewName(m, want, x)
    ensures n > IDENTITY && HasNew(m, want, n) && Ordinary(SymbolsOf(m), n, x)
  {
    var k :| 0 <= k < |m| && IsNew(m[k], want) && m[k].name == x;
    n := m[k].number;
    assert SymbolsOf(m)[k].number == n && SymbolsOf(m)[k].name == x;
  }

  lemma NewNumberNames(m: seq<Entry>, want: int, n: int, x: string)
    requires Numbered(m) && InOrder(m) && HasNew(m, want, n) && Ordinary(SymbolsOf(m), n, x)
    ensures NewName(m, want, x)
  {
    var k :| 0 <= k < |m| && m[k].number == n && IsNew(m[k], want);
    var s' := SymbolsOf(m);
    var h :| 0 <= h < |s'| && s'[h].number == n > IDENTITY && s'[h].name == x;
    NumberNames(m, k, h);
  }

  /** The two labels before and after renumbering. */
  ghost predicate Renumbers(s: seq<Symbol>, l: Label, mapping: seq<int>, r: Label) {
    && LabelOk(l) && 0 <= l.upper && Knows(s, l.upper) && Knows(s, l.lower)
    && l.upper < |mapping| && l.lower < |mapping|
    && r == Label(Mapped(l.upper, mapping), Mapped(l.lower, mapping))
  }

  /** One side of an arc: a wildcard may become a new symbol. */
  ghost predicate SideReplaces(n: int, m: seq<Entry>, want: int, n': int) {
    n' == n || (n == UNKNOWN && HasNew(m, want, n'))
  }

  lemma SideForth(m: seq<Entry>, s: seq<Symbol>, bit: int, mapping: seq<int>, n: int, t: Cell) returns (n': int)
    requires Extends(m, s, bit, mapping) && Knows(s, n) && 0 <= n < |mapping| && MeansSide(s, n, t)
    ensures SideReplaces(Mapped(n, mapping), m, 3 - bit, n') && MeansSide(SymbolsOf(m), n', t)
    ensures n' == UNKNOWN ==> n == UNKNOWN
  {
    hide Extends;
    n' := Mapped(n, mapping);
    KnownMapped(m, s, bit, mapping, n);
    if n == UNKNOWN {
      OutsideSplits(m, s, bit, mapping, t.name);
      if NewName(m, 3 - bit, t.name) {
        n' := NewNumber(m, 3 - bit, t.name);
      }
    }
  }

  lemma SideBack(m: seq<Entry>, s: seq<Symbol>, bit: int, mapping: seq<int>, n: int, t: Cell, n': int)
    requires Extends(m, s, bit, mapping) && Knows(s, n) && 0 <= n < |mapping|
    requires SideReplaces(Mapped(n, mapping), m, 3 - bit, n') && MeansSide(SymbolsOf(m), n', t)
    ensures MeansSide(s, n, t)
  {
    KnownMapped(m, s, bit, mapping, n);
    if n == UNKNOWN {
      if HasNew(m, 3 - bit, n') {
        NewNumberNames(m, 3 - bit, n', t.name);
      }
      OutsideSplits(m, s, bit, mapping, t.name);
    }
  }

  /** In the merged alphabet numbers and names determine each other. */
  lemma NumberIsName(m: seq<Entry>, n: int, x: string, n': int, x': string)
    requires Numbered(m) && InOrder(m) && Ordinary(SymbolsOf(m), n, x) && Ordinary(SymbolsOf(m), n', x')
    ensures n == n' <==> x == x'
  {
    var s' := SymbolsOf(m);
    var k :| 0 <= k < |s'| && s'[k].number == n > IDENTITY && s'[k].name == x;
    var h :| 0 <= h < |s'| && s'[h].number == n' > IDENTITY && s'[h].name == x';
    if n == n' {
      NumberNames(m, k, h);
    }
    BeforeTotal(m[k].name, m[h].name);
    assert k < h ==> Precedes(m[k].ToSymbol(), m[h].ToSymbol());
    assert h < k ==> Precedes(m[h].ToSymbol(), m[k].ToSymbol());
  }

  /** Every meaning of the old arc is a meaning of an arc that replaces it. */
  lemma WidenForth(m: seq<Entry>, s: seq<Symbol>, bit: int, mapping: seq<int>, l: Label, l': Label, c: Cells)
    returns (r: Label)
    requires Extends(m, s, bit, mapping) && Renumbers(s, l, mapping, l') && Means(s, l, c)
    ensures Replaces(l', m, 3 - bit, r) && Means(SymbolsOf(m), r, c)
  {
    hide Extends, Knows, Ordinary, Outside, HasNew, NewName;
    var want := 3 - bit;
    if l == Label(IDENTITY, IDENTITY) {
      OutsideSplits(m, s, bit, mapping, c.upper.name);
      if NewName(m, want, c.upper.name) {
        var n := NewNumber(m, want, c.upper.name);
        r := Label(n, n);
      } else {
        r := l';
      }
    } else {
      KnownMapped(m, s, bit, mapping, l.upper);
      KnownMapped(m, s, bit, mapping, l.lower);
      var u := SideForth(m, s, bit, mapping, l.upper, c.upper);
      var v := SideForth(m, s, bit, mapping, l.lower, c.lower);
      r := Label(u, v);
      if l == Label(UNKNOWN, UNKNOWN) && u == v && u != UNKNOWN {
        DistinctNew(m, s, bit, mapping, u, c);
      }
    }
  }

  lemma DistinctNew(m: seq<Entry>, s: seq<Symbol>, bit: int, mapping: seq<int>, u: int, c: Cells)
    requires Extends(m, s, bit, mapping) && c.upper.Spoken? && c.lower.Spoken?
    requires Ordinary(SymbolsOf(m), u, c.upper.name) && Ordinary(SymbolsOf(m), u, c.lower.name)
    ensures c.upper == c.lower
  {
    NumberIsName(m, u, c.upper.name, u, c.lower.name);
  }

  /** An arc that replaces the old one means nothing that the old one did not. */
  lemma WidenBack(m: seq<Entry>, s: seq<Symbol>, bit: int, mapping: seq<int>, l: Label, l': Label, r: Label, c: Cells)
    requires Extends(m, s, bit, mapping) && Renumbers(s, l, mapping, l')
    requires Replaces(l', m, 3 - bit, r) && Means(SymbolsOf(m), r, c)
    ensures Means(s, l, c)
  {
    hide Extends, Knows, Ordinary, Outside, HasNew, NewName;
    KnownMapped(m, s, bit, mapping, l.upper);
    KnownMapped(m, s, bit, mapping, l.lower);
    if l == Label(IDENTITY, IDENTITY) {
      DiagonalBack(m, s, bit, mapping, r, c);
    } else if l == Label(UNKNOWN, UNKNOWN) {
      UnknownsBack(m, s, bit, mapping, r, c);
    } else {
      SideBack(m, s, bit, mapping, l.upper, c.upper, r.upper);
      SideBack(m, s, bit, mapping, l.lower, c.lower, r.lower);
    }
  }

  lemma NewIsOrdinary(m: seq<Entry>, want: int, n: int)
    requires HasNew(m, want, n)
    ensures n > IDENTITY
  {
  }

  lemma DiagonalBack(m: seq<Entry>, s: seq<Symbol>, bit: int, mapping: seq<int>, r: Label, c: Cells)
    requires Extends(m, s, bit, mapping)
    requires Replaces(Label(IDENTITY, IDENTITY), m, 3 - bit, r) && Means(SymbolsOf(m), r, c)
    ensures Means(s, Label(IDENTITY, IDENTITY), c)
  {
    hide Numbered, InOrder, MapsTo, Marks, Covers, Ordinary, Outside, HasNew, NewName;
    if r != Label(IDENTITY, IDENTITY) {
      NewIsOrdinary(m, 3 - bit, r.upper);
      NumberIsName(m, r.upper, c.upper.name, r.upper, c.lower.name);
      NewNumberNames(m, 3 - bit, r.upper, c.upper.name);
    }
    OutsideSplits(m, s, bit, mapping, c.upper.name);
  }

  lemma UnknownsBack(m: seq<Entry>, s: seq<Symbol>, bit: int, mapping: seq<int>, r: Label, c: Cells)
    requires Extends(m, s, bit, mapping)
    requires Replaces(Label(UNKNOWN, UNKNOWN), m, 3 - bit, r) && Means(SymbolsOf(m), r, c)
    ensures Means(s, Label(UNKNOWN, UNKNOWN), c)
  {
    hide Numbered, InOrder, MapsTo, Marks, Covers, Ordinary, Outside, HasNew, NewName;
    var want := 3 - bit;
    if r.upper != UNKNOWN {
      NewIsOrdinary(m, want, r.upper);
      NewNumberNames(m, want, r.upper, c.upper.name);
    }
    if r.lower != UNKNOWN {
      NewIsOrdinary(m, want, r.lower);
      NewNumberNames(m, want, r.lower, c.lower.name);
    }
    OutsideSplits(m, s, bit, mapping, c.upper.name);
    OutsideSplits(m, s, bit, mapping, c.lower.name);
    if r.upper != UNKNOWN && r.lower != UNKNOWN {
      NumberIsName(m, r.upper, c.upper.name, r.lower, c.lower.name);
    }
  }

  // ----- The expanded net -----

  function Relabel(l: Line, lab: Label): Line {
    l.(upper := lab.upper, lower := lab.lower)
  }

  function WithLabels(l: Line, labels: seq<Label>): (r: seq<Line>)
    ensures |r| == |labels|
  {
    seq(|labels|, i requires 0 <= i < |labels| => Relabel(l, labels[i]))
  }

  function WidenLine(l: Line, m: seq<Entry>, want: int): seq<Line> {
    WithLabels(l, Widening(l.ToLabel(), m, want))
  }

  function WidenLines(lines: seq<Line>, m: seq<Entry>, want: int): seq<Line> {
    if lines == [] then []
    else WidenLines(lines[..|lines| - 1], m, want) + WidenLine(lines[|lines| - 1], m, want)
  }

  /** For each line of the expanded net, the line it was written for. */
  function Origins(lines: seq<Line>, m: seq<Entry>, want: int): (r: seq<int>)
    ensures |r| == |WidenLines(lines, m, want)|
  {
    if lines == [] then []
    else
      var n := |lines| - 1;
      Origins(lines[..n], m, want) + seq(|WidenLine(lines[n], m, want)|, _ => n)
  }

  /** `o` tells where each line of `wide` comes from, in order. */
  ghost predicate ComesFrom(wide: seq<Line>, o: seq<int>, lines: seq<Line>, m: seq<Entry>, want: int) {
    && |o| == |wide|
    && (forall k :: 0 <= k < |wide| ==> Written(wide, o, lines, m, want, k))
    && (forall k, h :: 0 <= k < h < |o| ==> o[k] <= o[h])
    && (forall i, r :: 0 <= i < |lines| && r in Widening(lines[i].ToLabel(), m, want) ==>
                       WrittenFor(wide, o, lines, i, r))
  }

  ghost predicate Written(wide: seq<Line>, o: seq<int>, lines: seq<Line>, m: seq<Entry>, want: int, k: int)
    requires 0 <= k < |wide| == |o|
  {
    && 0 <= o[k] < |lines|
    && wide[k] == Relabel(lines[o[k]], wide[k].ToLabel())
    && wide[k].ToLabel() in Widening(lines[o[k]].ToLabel(), m, want)
  }

  ghost predicate WrittenFor(wide: seq<Line>, o: seq<int>, lines: seq<Line>, i: int, r: Label)
    requires |wide| == |o| && 0 <= i < |lines|
  {
    exists k :: 0 <= k < |wide| && o[k] == i && wide[k] == Relabel(lines[i], r)
  }

  lemma {:induction false} WidenComesFrom(lines: seq<Line>, m: seq<Entry>, want: int)
    ensures ComesFrom(WidenLines(lines, m, want), Origins(lines, m, want), lines, m, want)
  {
    if lines != [] {
      var n := |lines| - 1;
      WidenComesFrom(lines[..n], m, want);
      OneMoreOrigin(WidenLines(lines[..n], m, want), Origins(lines[..n], m, want), lines, m, want);
    }
  }

  lemma OneMoreOrigin(wide: seq<Line>, o: seq<int>, lines: seq<Line>, m: seq<Entry>, want: int)
    requires lines != [] && ComesFrom(wide, o, lines[..|lines| - 1], m, want)
    ensures var n := |lines| - 1; var more := WidenLine(lines[n], m, want);
            ComesFrom(wide + more, o + seq(|more|, _ => n), lines, m, want)
  {
    hide Widening;
    var n := |lines| - 1;
    var more := WidenLine(lines[n], m, want);
    var wide', o' := wide + more, o + seq(|more|, _ => n);
    forall k | 0 <= k < |wide'| ensures Written(wide', o', lines, m, want, k) {
      if k < |wide| {
        assert Written(wide, o, lines[..n], m, want, k);
      } else {
        OneWritten(lines[n], m, want, k - |wide|);
      }
    }
    forall k, h | 0 <= k < h < |o'| ensures o'[k] <= o'[h] {
      if k < |wide| {
        assert Written(wide, o, lines[..n], m, want, k);
      }
    }
    forall i, r | 0 <= i < |lines| && r in Widening(lines[i].ToLabel(), m, want)
      ensures WrittenFor(wide', o', lines, i, r)
    {
      if i < n {
        assert WrittenFor(wide, o, lines[..n], i, r);
        var k :| 0 <= k < |wide| && o[k] == i && wide[k] == Relabel(lines[i], r);
        assert wide'[k] == wide[k] && o'[k] == o[k];
      } else {
        var labels := Widening(lines[n].ToLabel(), m, want);
        var k :| 0 <= k < |labels| && labels[k] == r;
        assert wide'[|wide| + k] == more[k] && o'[|wide| + k] == n;
      }
    }
  }

  lemma OneWritten(l: Line, m: seq<Entry>, want: int, k: int)
    requires 0 <= k < |WidenLine(l, m, want)|
    ensures var r := WidenLine(l, m, want)[k];
            r == Relabel(l, r.ToLabel()) && r.ToLabel() in Widening(l.ToLabel(), m, want)
  {
    hide Widening;
    var labels := Widening(l.ToLabel(), m, want);
    assert WidenLine(l, m, want)[k] == Relabel(l, labels[k]);
    assert Relabel(l, labels[k]).ToLabel() == labels[k];
  }

  // ----- Expansion keeps the net's meaning -----

  /** A line whose symbols are listed in the net's alphabet. */
  ghost predicate LineKnown(s: seq<Symbol>, l: Line) {
    && LabelOk(l.ToLabel()) && Knows(s, l.upper) && Knows(s, l.lower)
    && (l.target >= 0 ==> 0 <= l.upper)
  }

  ghost predicate NetKnown(s: seq<Symbol>, lines: seq<Line>) {
    forall i :: 0 <= i < |lines| ==> LineKnown(s, lines[i])
  }

  ghost predicate InRange(lines: seq<Line>, mapping: seq<int>) {
    forall i :: 0 <= i < |lines| ==> lines[i].upper < |mapping| && lines[i].lower < |mapping|
  }

  function RenumberLine(l: Line, mapping: seq<int>): Line
    requires l.upper < |mapping| && l.lower < |mapping|
  {
    l.(upper := Mapped(l.upper, mapping), lower := Mapped(l.lower, mapping))
  }

  ghost function Renumbered(lines: seq<Line>, mapping: seq<int>): (r: seq<Line>)
    requires InRange(lines, mapping)
    ensures |r| == |lines|
  {
    seq(|lines|, i requires 0 <= i < |lines| => RenumberLine(lines[i], mapping))
  }

  /** The renumbered arc is one that expansion handles. */
  lemma RenumberedOk(m: seq<Entry>, s: seq<Symbol>, bit: int, mapping: seq<int>, l: Line)
    requires Extends(m, s, bit, mapping) && LineKnown(s, l) && l.upper < |mapping| && l.lower < |mapping|
    ensures var l' := RenumberLine(l, mapping).ToLabel();
            LabelOk(l') && (l'.upper == UNKNOWN ==> ListsNumber(m, UNKNOWN))
    ensures l.target >= 0 ==> Renumbers(s, l.ToLabel(), mapping, RenumberLine(l, mapping).ToLabel())
  {
    if l.upper >= 0 {
      KnownMapped(m, s, bit, mapping, l.upper);
      KnownMapped(m, s, bit, mapping, l.lower);
      if l.upper == UNKNOWN {
        UnknownListed(m, s);
      }
    }
  }

  lemma UnknownListed(m: seq<Entry>, s: seq<Symbol>)
    requires Covers(m, s, |s|) && Knows(s, UNKNOWN)
    ensures ListsNumber(m, UNKNOWN)
  {
    var a :| 0 <= a < |s| && s[a].number == UNKNOWN;
    assert Lists(m, s[a]);
    var k :| 0 <= k < |m| && Same(m[k].ToSymbol(), s[a]);
    assert m[k].number == UNKNOWN;
  }

  lemma MoveForth(m: seq<Entry>, s: seq<Symbol>, bit: int, mapping: seq<int>, l: Line, p: int, c: Cells, q: int)
    returns (r: Label)
    requires Extends(m, s, bit, mapping) && LineKnown(s, l) && l.upper < |mapping| && l.lower < |mapping|
    requires MovesOn(s, l, p, c, q)
    ensures var l' := RenumberLine(l, mapping);
            r in Widening(l'.ToLabel(), m, 3 - bit) && MovesOn(SymbolsOf(m), Relabel(l', r), p, c, q)
  {
    hide Extends, Means, LineKnown, Replaces, Widening, ListsNumber, Renumbers;
    var l' := RenumberLine(l, mapping);
    RenumberedOk(m, s, bit, mapping, l);
    r := WidenForth(m, s, bit, mapping, l.ToLabel(), l'.ToLabel(), c);
    InWidening(l'.ToLabel(), m, 3 - bit, r);
    assert Relabel(l', r).ToLabel() == r;
  }

  lemma MoveBack(m: seq<Entry>, s: seq<Symbol>, bit: int, mapping: seq<int>, l: Line, r: Label, p: int, c: Cells,
                 q: int)
    requires Extends(m, s, bit, mapping) && LineKnown(s, l) && l.upper < |mapping| && l.lower < |mapping|
    requires var l' := RenumberLine(l, mapping);
             r in Widening(l'.ToLabel(), m, 3 - bit) && MovesOn(SymbolsOf(m), Relabel(l', r), p, c, q)
    ensures MovesOn(s, l, p, c, q)
  {
    hide Extends, Means, LineKnown, Replaces, Widening, ListsNumber, Renumbers;
    var l' := RenumberLine(l, mapping);
    RenumberedOk(m, s, bit, mapping, l);
    InWidening(l'.ToLabel(), m, 3 - bit, r);
    assert Relabel(l', r).ToLabel() == r;
    WidenBack(m, s, bit, mapping, l.ToLabel(), l'.ToLabel(), r, c);
  }

  /** Every line is among the lines written for it. */
  lemma KeepsItself(m: seq<Entry>, s: seq<Symbol>, bit: int, mapping: seq<int>, l: Line)
    requires Extends(m, s, bit, mapping) && LineKnown(s, l) && l.upper < |mapping| && l.lower < |mapping|
    ensures var l' := RenumberLine(l, mapping).ToLabel(); l' in Widening(l', m, 3 - bit)
  {
    var l' := RenumberLine(l, mapping).ToLabel();
    RenumberedOk(m, s, bit, mapping, l);
    InWidening(l', m, 3 - bit, l');
  }

  lemma ExpansionKeepsMeaning(m: seq<Entry>, s: seq<Symbol>, bit: int, mapping: seq<int>, lines: seq<Line>)
    requires Extends(m, s, bit, mapping) && NetKnown(s, lines) && InRange(lines, mapping)
    ensures SameMoves(lines, s, WidenLines(Renumbered(lines, mapping), m, 3 - bit), SymbolsOf(m))
    ensures SameRelation(lines, s, WidenLines(Renumbered(lines, mapping), m, 3 - bit), SymbolsOf(m))
  {
    var lines' := Renumbered(lines, mapping);
    WidenComesFrom(lines', m, 3 - bit);
    ExpandedMoves(m, s, bit, mapping, lines, WidenLines(lines', m, 3 - bit), Origins(lines', m, 3 - bit));
    SameMovesSameRelation(lines, s, WidenLines(lines', m, 3 - bit), SymbolsOf(m));
  }

  lemma ExpandedMoves(m: seq<Entry>, s: seq<Symbol>, bit: int, mapping: seq<int>, lines: seq<Line>, wide: seq<Line>,
                      o: seq<int>)
    requires Extends(m, s, bit, mapping) && NetKnown(s, lines) && InRange(lines, mapping)
    requires ComesFrom(wide, o, Renumbered(lines, mapping), m, 3 - bit)
    ensures SameMoves(lines, s, wide, SymbolsOf(m))
  {
    hide Extends, Widening, WidenLines, Means, LineKnown, MovesOn;
    var lines', s' := Renumbered(lines, mapping), SymbolsOf(m);
    forall p, c, q | Moves(lines, s, p, c, q) ensures Moves(wide, s', p, c, q) {
      var k :| 0 <= k < |lines| && MovesOn(s, lines[k], p, c, q);
      var r := MoveForth(m, s, bit, mapping, lines[k], p, c, q);
      assert WrittenFor(wide, o, lines', k, r);
      var h :| 0 <= h < |wide| && o[h] == k && wide[h] == Relabel(lines'[k], r);
      assert MovesOn(s', wide[h], p, c, q);
    }
    forall p, c, q | Moves(wide, s', p, c, q) ensures Moves(lines, s, p, c, q) {
      var h :| 0 <= h < |wide| && MovesOn(s', wide[h], p, c, q);
      assert Written(wide, o, lines', m, 3 - bit, h);
      MoveBack(m, s, bit, mapping, lines[o[h]], wide[h].ToLabel(), p, c, q);
    }
    ExpandedFlags(m, s, bit, mapping, lines, wide, o);
  }

  lemma ExpandedFlags(m: seq<Entry>, s: seq<Symbol>, bit: int, mapping: seq<int>, lines: seq<Line>, wide: seq<Line>,
                      o: seq<int>)
    requires Extends(m, s, bit, mapping) && NetKnown(s, lines) && InRange(lines, mapping)
    requires ComesFrom(wide, o, Renumbered(lines, mapping), m, 3 - bit)
    ensures forall p :: Starts(lines, p) <==> Starts(wide, p)
    ensures forall p :: Finals(lines, p) <==> Finals(wide, p)
  {
    hide Extends, Widening, LineKnown;
    var lines' := Renumbered(lines, mapping);
    forall k | 0 <= k < |lines|
      ensures exists h :: 0 <= h < |wide| && wide[h].state == lines[k].state && wide[h].start == lines[k].start
                          && wide[h].final == lines[k].final
    {
      KeepsItself(m, s, bit, mapping, lines[k]);
      var r := lines'[k].ToLabel();
      assert WrittenFor(wide, o, lines', k, r);
      var h :| 0 <= h < |wide| && o[h] == k && wide[h] == Relabel(lines'[k], r);
    }
    forall h | 0 <= h < |wide|
      ensures 0 <= o[h] < |lines| && wide[h].state == lines[o[h]].state && wide[h].start == lines[o[h]].start
              && wide[h].final == lines[o[h]].final
    {
      assert Written(wide, o, lines', m, 3 - bit, h);
    }
  }

  /** The expanded net is laid out as foma expects: states contiguous, flags agreeing, arcs numbered. */
  lemma ExpandedWellFormed(m: seq<Entry>, s: seq<Symbol>, bit: int, mapping: seq<int>, lines: seq<Line>, n: nat)
    requires Extends(m, s, bit, mapping) && NetKnown(s, lines) && InRange(lines, mapping) && WellFormed(lines, n)
    ensures WellFormed(WidenLines(Renumbered(lines, mapping), m, 3 - bit), n)
  {
    hide Extends, Widening, LineKnown, WidenLines, LineOk, Written;
    var lines' := Renumbered(lines, mapping);
    var wide, o := WidenLines(lines', m, 3 - bit), Origins(lines', m, 3 - bit);
    WidenComesFrom(lines', m, 3 - bit);
    forall k | 0 <= k < |wide|
      ensures LineOk(wide[k], n) && 0 <= o[k] < |lines| && wide[k].state == lines[o[k]].state
              && wide[k].start == lines[o[k]].start && wide[k].final == lines[o[k]].final
    {
      assert Written(wide, o, lines', m, 3 - bit, k);
      WrittenOk(m, s, bit, mapping, lines, n, wide, o, k);
    }
    forall p | 0 <= p < n ensures HasState(wide, p) {
      assert HasState(lines, p);
      var k :| 0 <= k < |lines| && lines[k].state == p;
      KeepsItself(m, s, bit, mapping, lines[k]);
      assert WrittenFor(wide, o, lines', k, lines'[k].ToLabel());
    }
  }

  lemma WrittenOk(m: seq<Entry>, s: seq<Symbol>, bit: int, mapping: seq<int>, lines: seq<Line>, n: nat, wide: seq<Line>,
                  o: seq<int>, k: int)
    requires Extends(m, s, bit, mapping) && NetKnown(s, lines) && InRange(lines, mapping)
    requires forall i :: 0 <= i < |lines| ==> LineOk(lines[i], n)
    requires 0 <= k < |wide| == |o| && Written(wide, o, Renumbered(lines, mapping), m, 3 - bit, k)
    ensures LineOk(wide[k], n) && 0 <= o[k] < |lines| && wide[k].state == lines[o[k]].state
    ensures wide[k].start == lines[o[k]].start && wide[k].final == lines[o[k]].final
  {
    hide Extends, Widening;
    var l := lines[o[k]];
    assert LineOk(l, n) && LineKnown(s, l);
    RenumberedOk(m, s, bit, mapping, l);
    InWidening(RenumberLine(l, mapping).ToLabel(), m, 3 - bit, wide[k].ToLabel());
    if l.target >= 0 {
      KnownMapped(m, s, bit, mapping, l.upper);
      KnownMapped(m, s, bit, mapping, l.lower);
    }
  }

  // ----- When nothing is new -----

  ghost predicate NothingNew(m: seq<Entry>, want: int) {
    forall k :: 0 <= k < |m| ==> !IsNew(m[k], want)
  }

  lemma {:induction false} NoLabels(m: seq<Entry>, shape: Shape, want: int)
    requires NothingNew(m, want) && (shape.Against? ==> !IsNew(shape.lowerEntry, want))
    ensures Labels(m, shape, want) == []
  {
    if m != [] {
      NoLabels(m[..|m| - 1], shape, want);
      assert !IsNew(m[|m| - 1], want);
    }
  }

  lemma {:induction false} NoPairs(m: seq<Entry>, k: nat, want: int)
    requires NothingNew(m, want) && k <= |m|
    ensures PairLabels(m, k, want) == []
  {
    if k > 0 {
      NoPairs(m, k - 1, want);
      NoLabels(m, Against(m[k - 1]), want);
    }
  }

  predicate NoWildcard(l: Label) {
    l.upper != UNKNOWN && l.upper != IDENTITY && l.lower != UNKNOWN && l.lower != IDENTITY
  }

  /** An arc without wildcards, or whose wildcards gain no symbol, is only copied. */
  lemma OneLabel(l: Label, m: seq<Entry>, want: int)
    requires LabelOk(l) && (NothingNew(m, want) || NoWildcard(l))
    ensures Widening(l, m, want) == [l]
  {
    hide Labels, PairLabels;
    if NothingNew(m, want) {
      NoLabels(m, Diagonal, want);
      NoLabels(m, NewUpper(l.lower), want);
      NoLabels(m, NewLower(l.upper), want);
      NoPairs(m, |m|, want);
    }
  }

  lemma {:induction false} NothingToWiden(lines: seq<Line>, m: seq<Entry>, want: int)
    requires forall i :: 0 <= i < |lines| ==> LabelOk(lines[i].ToLabel())
                                              && (NothingNew(m, want) || NoWildcard(lines[i].ToLabel()))
    ensures WidenLines(lines, m, want) == lines
  {
    hide Widening, NothingNew, NoWildcard;
    if lines != [] {
      var n := |lines| - 1;
      NothingToWiden(lines[..n], m, want);
      OneLabel(lines[n].ToLabel(), m, want);
      assert lines == lines[..n] + [lines[n]];
    }
  }
}
