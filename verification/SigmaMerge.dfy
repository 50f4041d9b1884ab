/**
 Merging the alphabets of two nets: a two-pointer merge of sorted symbol lists that gives both
 nets one consecutive numbering and records, for each old number, the new one.
 */
module SigmaMerging {
  import opened Automata

  /** One cell of a net's symbol list. A list without symbols holds one cell numbered -1. */
  datatype Symbol = Symbol(number: int, name: string)

  /** One cell of the merged list; `presence` is 1, 2 or 3: in the first net, the second, or both. */
  datatype Entry = Entry(number: int, name: string, presence: int) {
    function ToSymbol(): Symbol {
      Symbol(number, name)
    }
  }

  // ----- The order of symbols -----

  /** Lexicographic order, as strcmp compares. */
  predicate Before(x: string, y: string) {
    y != [] && (x == [] || x[0] < y[0] || (x[0] == y[0] && Before(x[1..], y[1..])))
  }

  lemma {:induction false} BeforeTotal(x: string, y: string)
    ensures Before(x, y) || x == y || Before(y, x)
    ensures !(Before(x, y) && Before(y, x)) && (x == y ==> !Before(x, y))
  {
    if x != [] && y != [] && x[0] == y[0] {
      BeforeTotal(x[1..], y[1..]);
      assert x == [x[0]] + x[1..] && y == [y[0]] + y[1..];
    }
  }

  lemma {:induction false} BeforeTransitive(x: string, y: string, z: string)
    requires Before(x, y) && Before(y, z)
    ensures Before(x, z)
  {
    if x != [] && x[0] == y[0] && y[0] == z[0] {
      BeforeTransitive(x[1..], y[1..], z[1..]);
    }
  }

  /** Special symbols come first, by number; ordinary ones follow, by name. */
  predicate Precedes(a: Symbol, b: Symbol) {
    if a.number <= IDENTITY || b.number <= IDENTITY then a.number < b.number else Before(a.name, b.name)
  }

  predicate Same(a: Symbol, b: Symbol) {
    if a.number <= IDENTITY || b.number <= IDENTITY then a.number == b.number else a.name == b.name
  }

  lemma PrecedesTotal(a: Symbol, b: Symbol)
    ensures Precedes(a, b) || Same(a, b) || Precedes(b, a)
    ensures !(Precedes(a, b) && Precedes(b, a)) && (Same(a, b) ==> !Precedes(a, b))
  {
    BeforeTotal(a.name, b.name);
  }

  lemma PrecedesTransitive(a: Symbol, b: Symbol, c: Symbol)
    requires Precedes(a, b) && Precedes(b, c)
    ensures Precedes(a, c)
  {
    if a.number > IDENTITY && b.number > IDENTITY && c.number > IDENTITY {
      BeforeTransitive(a.name, b.name, c.name);
    }
  }

  // ----- Symbol lists -----

  /** A symbol list as sorting leaves it: specials first, the others by name and numbered upwards. */
  predicate SigmaOk(s: seq<Symbol>) {
    && s != []
    && (forall i, j :: 0 <= i < j < |s| ==> Precedes(s[i], s[j]) && s[i].number < s[j].number)
    && (forall i :: 0 <= i < |s| ==> s[i].number < |s| + 3)
    && (s[0].number >= 0 || (|s| == 1 && s[0].number == -1))
  }

  ghost predicate Has(s: seq<Symbol>, x: Symbol) {
    exists i :: 0 <= i < |s| && Same(s[i], x)
  }

  /** Bit 1 is the first net, bit 2 the second. */
  predicate HasBit(presence: int, bit: int) {
    presence == bit || presence == 3
  }

  /** Numbers rise by one from 3, after the specials, which keep theirs. */
  ghost predicate Numbered(m: seq<Entry>) {
    forall k :: 0 <= k < |m| ==> NumberOk(m, k)
  }

  predicate NumberOk(m: seq<Entry>, k: int)
    requires 0 <= k < |m|
  {
    && (m[k].number > IDENTITY ==> m[k].number == if k == 0
                                   || m[k - 1].number <= IDENTITY then 3 else m[k - 1].number + 1)
    && (m[k].number < 0 ==> m[k].number == -1 && |m| == 1)
  }

  ghost predicate InOrder(m: seq<Entry>) {
    forall k, h :: 0 <= k < h < |m| ==> Precedes(m[k].ToSymbol(), m[h].ToSymbol())
  }

  /** `bit` is set on exactly the entries that `s` has. */
  ghost predicate Marks(m: seq<Entry>, s: seq<Symbol>, bit: int) {
    forall k :: 0 <= k < |m| && m[k].number >= 0 ==> (HasBit(m[k].presence, bit) <==> Has(s, m[k].ToSymbol()))
  }

  ghost predicate Lists(m: seq<Entry>, x: Symbol) {
    exists k :: 0 <= k < |m| && Same(m[k].ToSymbol(), x)
  }

  /** The first `i` symbols of `s` are in `m`. */
  ghost predicate Covers(m: seq<Entry>, s: seq<Symbol>, i: int)
    requires i <= |s|
  {
    forall a :: 0 <= a < i && s[a].number >= 0 ==> Lists(m, s[a])
  }

  /** What `m` holds comes before the symbols of `s` from `i` on. */
  ghost predicate Ahead(m: seq<Entry>, s: seq<Symbol>, i: int)
    requires 0 <= i
  {
    forall k, a :: 0 <= k < |m| && m[k].number >= 0 && i <= a < |s| ==> Precedes(m[k].ToSymbol(), s[a])
  }

  ghost predicate MapsTo(mapping: seq<int>, s: seq<Symbol>, i: int, m: seq<Entry>)
    requires i <= |s|
  {
    forall a :: 0 <= a < i && s[a].number > IDENTITY ==> s[a].number < |mapping|
                                                         && MapsSymbol(mapping[s[a].number], s[a], m)
  }

  ghost predicate MapsSymbol(number: int, x: Symbol, m: seq<Entry>) {
    exists k :: 0 <= k < |m| && m[k].number == number > IDENTITY && m[k].name == x.name
  }

  ghost predicate Wildcard(s: seq<Symbol>, i: int)
    requires i <= |s|
  {
    exists a :: 0 <= a < i && UNKNOWN <= s[a].number <= IDENTITY
  }

  predicate NoOrdinary(s: seq<Symbol>) {
    forall a :: 0 <= a < |s| ==> s[a].number <= IDENTITY
  }

  // ----- One more entry -----

  /** Appends a cell, or fills the initial empty one, and numbers it. */
  function AddToMerged(m: seq<Entry>, x: Symbol, presence: int): (m': seq<Entry>)
    requires m != []
    ensures m' != []
  {
    var last := m[|m| - 1].number;
    var number := if x.number < 3 then x.number else if last == -1 || last < 3 then 3 else last + 1;
    (if last == -1 then m[..|m| - 1] else m) + [Entry(number, x.name, presence)]
  }

  /** The state of the merge: the first `i` symbols of `s` are in, with the `bit` of `s` right. */
  ghost predicate Halfway(m: seq<Entry>, s: seq<Symbol>, i: int, bit: int) {
    && 0 <= i <= |s|
    && Marks(m, s, bit)
    && Covers(m, s, i)
    && Ahead(m, s, i)
  }

  /** The next symbol of a merge, from a list or before its next symbol. */
  ghost predicate Next(s: seq<Symbol>, i: int, x: Symbol, taken: bool) {
    && 0 <= i <= |s|
    && (taken ==> i < |s| && Same(s[i], x))
    && (!taken && i < |s| ==> Precedes(x, s[i]))
  }

  lemma AddedPlace(m: seq<Entry>, x: Symbol, presence: int, k: int)
    requires m != [] && Numbered(m) && x.number >= -1 && 0 <= k < |AddToMerged(m, x, presence)|
    ensures var m' := AddToMerged(m, x, presence);
            var e := m'[|m'| - 1];
            && e.presence == presence && e.name == x.name && Same(e.ToSymbol(), x) && e.number >= -1
            && (e.number > IDENTITY <==> x.number > IDENTITY) && (x.number <= IDENTITY ==> e.number == x.number)
            && (k < |m'| - 1 ==> k < |m| && m'[k] == m[k] && m[k].number >= 0)
    ensures var m' := AddToMerged(m, x, presence);
            forall h :: 0 <= h < |m| && m[h].number >= 0 ==> h < |m'| - 1 && m'[h] == m[h]
  {
    assert NumberOk(m, |m| - 1) && (k < |m| ==> NumberOk(m, k));
  }

  lemma AddedHalfway(m: seq<Entry>, s: seq<Symbol>, i: int, bit: int, x: Symbol, presence: int, taken: bool)
    requires m != [] && Numbered(m) && x.number >= -1 && SigmaOk(s)
    requires Halfway(m, s, i, bit) && Next(s, i, x, taken) && (HasBit(presence, bit) <==> taken)
    requires forall k :: 0 <= k < |m| && m[k].number >= 0 ==> Precedes(m[k].ToSymbol(), x)
    ensures Halfway(AddToMerged(m, x, presence), s, if taken then i + 1 else i, bit)
  {
    hide Numbered;
    var m', i' := AddToMerged(m, x, presence), if taken then i + 1 else i;
    var last := |m'| - 1;
    AddedPlace(m, x, presence, last);
    if !taken {
      AddedIsNew(m, s, i, bit, x);
      SameHas(s, x, m'[last].ToSymbol());
    } else {
      SameSame(s[i], x, m'[last].ToSymbol());
    }
    forall k | 0 <= k < |m'| && m'[k].number >= 0 ensures HasBit(m'[k].presence, bit) <==> Has(s, m'[k].ToSymbol()) {
      AddedPlace(m, x, presence, k);
    }
    AddedCovers(m, s, i, x, presence, taken);
    forall k, a | 0 <= k < |m'| && m'[k].number >= 0 && i' <= a < |s| ensures Precedes(m'[k].ToSymbol(), s[a]) {
      AddedPlace(m, x, presence, k);
      if k == last {
        AddedAhead(s, i, x, taken, m'[k].ToSymbol(), a);
      }
    }
  }

  lemma AddedCovers(m: seq<Entry>, s: seq<Symbol>, i: int, x: Symbol, presence: int, taken: bool)
    requires m != [] && Numbered(m) && x.number >= -1 && Next(s, i, x, taken) && Covers(m, s, i)
    ensures Covers(AddToMerged(m, x, presence), s, if taken then i + 1 else i)
  {
    var m', i' := AddToMerged(m, x, presence), if taken then i + 1 else i;
    var last := |m'| - 1;
    AddedPlace(m, x, presence, last);
    forall a | 0 <= a < i' && s[a].number >= 0 ensures Lists(m', s[a]) {
      if a == i {
        SameSame(x, s[i], m'[last].ToSymbol());
        assert Same(m'[last].ToSymbol(), s[a]);
      } else {
        assert Lists(m, s[a]);
        var k :| 0 <= k < |m| && Same(m[k].ToSymbol(), s[a]);
        assert m'[k] == m[k];
      }
    }
  }

  lemma AddedAhead(s: seq<Symbol>, i: int, x: Symbol, taken: bool, y: Symbol, a: int)
    requires SigmaOk(s) && Next(s, i, x, taken) && Same(y, x) && (y.number > IDENTITY <==> x.number > IDENTITY)
    requires (if taken then i + 1 else i) <= a < |s|
    ensures Precedes(y, s[a])
  {
    if taken {
      assert Precedes(s[i], s[a]);
    } else if i < a {
      PrecedesTransitive(x, s[i], s[a]);
    }
  }

  lemma SameSame(a: Symbol, b: Symbol, c: Symbol)
    requires Same(a, b) && Same(c, b)
    requires b.number <= IDENTITY ==> c.number == b.number && a.number == b.number
    requires b.number > IDENTITY ==> c.number > IDENTITY
    ensures Same(a, c) && Same(c, a)
  {
  }

  lemma SameHas(s: seq<Symbol>, x: Symbol, y: Symbol)
    requires Same(y, x) && (y.number > IDENTITY <==> x.number > IDENTITY)
    ensures Has(s, x) <==> Has(s, y)
  {
    if Has(s, x) {
      var i :| 0 <= i < |s| && Same(s[i], x);
      assert Same(s[i], y);
    }
    if Has(s, y) {
      var i :| 0 <= i < |s| && Same(s[i], y);
      assert Same(s[i], x);
    }
  }

  /** A symbol that is not taken from `s` is not in `s`. */
  lemma AddedIsNew(m: seq<Entry>, s: seq<Symbol>, i: int, bit: int, x: Symbol)
    requires SigmaOk(s) && Halfway(m, s, i, bit) && Next(s, i, x, false) && x.number >= -1
    requires forall k :: 0 <= k < |m| && m[k].number >= 0 ==> Precedes(m[k].ToSymbol(), x)
    ensures x.number >= 0 ==> !Has(s, x)
  {
    if x.number >= 0 {
      forall a | 0 <= a < |s| ensures !Same(s[a], x) {
        if a < i && s[a].number >= 0 {
          assert Lists(m, s[a]);
          var k :| 0 <= k < |m| && Same(m[k].ToSymbol(), s[a]);
          assert Precedes(m[k].ToSymbol(), x);
          BeforeTotal(s[a].name, x.name);
        } else if i <= a {
          if i < a {
            PrecedesTransitive(x, s[i], s[a]);
          }
          PrecedesTotal(x, s[a]);
        }
      }
    }
  }

  lemma AddedInOrder(m: seq<Entry>, x: Symbol, presence: int)
    requires m != [] && Numbered(m) && InOrder(m) && x.number >= -1
    requires forall k :: 0 <= k < |m| && m[k].number >= 0 ==> Precedes(m[k].ToSymbol(), x) && x.number >= 0
    ensures var m' := AddToMerged(m, x, presence); Numbered(m') && InOrder(m')
  {
    var m' := AddToMerged(m, x, presence);
    var last := |m'| - 1;
    forall k, h | 0 <= k < h < |m'| ensures Precedes(m'[k].ToSymbol(), m'[h].ToSymbol()) {
      AddedPlace(m, x, presence, k);
      AddedPlace(m, x, presence, h);
    }
    forall k | 0 <= k < |m'| ensures NumberOk(m', k) {
      assert k < |m| ==> NumberOk(m, k);
      AddedPlace(m, x, presence, k);
      if k > 0 {
        AddedPlace(m, x, presence, k - 1);
      }
    }
  }

  /** The mapping so far survives a new entry, and gains the new entry's number. */
  lemma AddedMapsTo(mapping: seq<int>, s: seq<Symbol>, i: int, m: seq<Entry>, x: Symbol, presence: int)
    requires 0 <= i <= |s| && m != [] && Numbered(m) && MapsTo(mapping, s, i, m) && x.number >= -1
    ensures MapsTo(mapping, s, i, AddToMerged(m, x, presence))
  {
    var m' := AddToMerged(m, x, presence);
    AddedPlace(m, x, presence, |m'| - 1);
    forall a | 0 <= a < i && s[a].number > IDENTITY ensures MapsSymbol(mapping[s[a].number], s[a], m') {
      assert MapsSymbol(mapping[s[a].number], s[a], m);
      var k :| 0 <= k < |m| && m[k].number == mapping[s[a].number] > IDENTITY && m[k].name == s[a].name;
      assert m'[k] == m[k];
    }
  }

  // ----- The merge -----

  ghost predicate Merging(m: seq<Entry>, s1: seq<Symbol>, i: int, s2: seq<Symbol>, j: int) {
    && m != [] && Numbered(m) && InOrder(m)
    && Halfway(m, s1, i, 1) && Halfway(m, s2, j, 2)
    && (i == 0 && 0 < j && s1 != [] ==> s1[0].number >= 0)
    && (j == 0 && 0 < i && s2 != [] ==> s2[0].number >= 0)
  }

  /** What the merged list is: exactly the symbols of the two lists, marked, in order, numbered from 3. */
  ghost predicate MergeOf(m: seq<Entry>, s1: seq<Symbol>, s2: seq<Symbol>) {
    && m != [] && Numbered(m) && InOrder(m)
    && Marks(m, s1, 1) && Marks(m, s2, 2)
    && Covers(m, s1, |s1|) && Covers(m, s2, |s2|)
    && (forall k :: 0 <= k < |m| && m[k].number >= 0 ==> m[k].presence == 1 || m[k].presence == 2 || m[k].presence == 3)
  }

  lemma StartMerging(s1: seq<Symbol>, s2: seq<Symbol>)
    ensures Merging([Entry(-1, "", 0)], s1, 0, s2, 0)
  {
  }

  lemma Reached(m: seq<Entry>, s: seq<Symbol>, i: int, bit: int)
    requires Halfway(m, s, i, bit) && i < |s|
    ensures forall k :: 0 <= k < |m| && m[k].number >= 0 ==> Precedes(m[k].ToSymbol(), s[i])
  {
  }

  lemma StepFirst(m: seq<Entry>, s1: seq<Symbol>, i: int, s2: seq<Symbol>, j: int)
    requires SigmaOk(s1) && SigmaOk(s2) && Merging(m, s1, i, s2, j)
    requires i < |s1| && (j < |s2| ==> Precedes(s1[i], s2[j]))
    ensures Merging(AddToMerged(m, s1[i], 1), s1, i + 1, s2, j)
  {
    hide Numbered, InOrder, Marks, Covers, Ahead, Precedes, AddToMerged;
    Reached(m, s1, i, 1);
    RealNumbers(m, s1, i);
    FirstNumber(s1, i, s2, j);
    AddedHalfway(m, s1, i, 1, s1[i], 1, true);
    AddedHalfway(m, s2, j, 2, s1[i], 1, false);
    AddedInOrder(m, s1[i], 1);
  }

  lemma StepSecond(m: seq<Entry>, s1: seq<Symbol>, i: int, s2: seq<Symbol>, j: int)
    requires SigmaOk(s1) && SigmaOk(s2) && Merging(m, s1, i, s2, j)
    requires j < |s2| && (i < |s1| ==> Precedes(s2[j], s1[i]))
    ensures Merging(AddToMerged(m, s2[j], 2), s1, i, s2, j + 1)
  {
    hide Numbered, InOrder, Marks, Covers, Ahead, Precedes, AddToMerged;
    Reached(m, s2, j, 2);
    RealNumbers(m, s2, j);
    FirstNumber(s2, j, s1, i);
    AddedHalfway(m, s1, i, 1, s2[j], 2, false);
    AddedHalfway(m, s2, j, 2, s2[j], 2, true);
    AddedInOrder(m, s2[j], 2);
  }

  lemma StepBoth(m: seq<Entry>, s1: seq<Symbol>, i: int, s2: seq<Symbol>, j: int)
    requires SigmaOk(s1) && SigmaOk(s2) && Merging(m, s1, i, s2, j)
    requires i < |s1| && j < |s2| && Same(s1[i], s2[j])
    ensures Merging(AddToMerged(m, s1[i], 3), s1, i + 1, s2, j + 1)
  {
    hide Numbered, InOrder, Marks, Covers, Ahead, Precedes, AddToMerged;
    Reached(m, s1, i, 1);
    RealNumbers(m, s1, i);
    AddedHalfway(m, s1, i, 1, s1[i], 3, true);
    AddedHalfway(m, s2, j, 2, s1[i], 3, true);
    AddedInOrder(m, s1[i], 3);
  }

  /** Only the empty list's placeholder is numbered below 0, and nothing real precedes it. */
  lemma RealNumbers(m: seq<Entry>, s: seq<Symbol>, i: int)
    requires SigmaOk(s) && 0 <= i < |s|
    requires forall k :: 0 <= k < |m| && m[k].number >= 0 ==> Precedes(m[k].ToSymbol(), s[i])
    ensures s[i].number >= -1
    ensures forall k :: 0 <= k < |m| && m[k].number >= 0 ==> s[i].number >= 0
  {
    if i > 0 {
      assert s[0].number < s[i].number;
    }
  }

  /** The list that is not advanced does not start with a placeholder. */
  lemma FirstNumber(s: seq<Symbol>, i: int, t: seq<Symbol>, j: int)
    requires SigmaOk(s) && SigmaOk(t) && 0 <= i < |s| && 0 <= j <= |t| && (j < |t| ==> Precedes(s[i], t[j]))
    ensures j == 0 ==> t[0].number >= 0
  {
    if i > 0 {
      assert s[0].number < s[i].number;
    }
  }

  /** A list's mapping after its next symbol got the last number of `m`. */
  lemma MappedNext(mapping: seq<int>, s: seq<Symbol>, i: int, m: seq<Entry>, x: Symbol, presence: int,
                   mapping': seq<int>)
    requires SigmaOk(s) && 0 <= i < |s| && m != [] && Numbered(m) && MapsTo(mapping, s, i, m) && x.number >= -1
    requires s[i].number > IDENTITY ==> x.number > IDENTITY && x.name == s[i].name
    requires 0 <= s[i].number < |mapping| || (s[i].number <= IDENTITY && mapping' == mapping)
    requires var m' := AddToMerged(m, x, presence);
             mapping' == (if s[i].number <= IDENTITY && mapping' == mapping then mapping
                          else mapping[s[i].number := m'[|m'| - 1].number])
    ensures MapsTo(mapping', s, i + 1, AddToMerged(m, x, presence))
  {
    var m' := AddToMerged(m, x, presence);
    AddedPlace(m, x, presence, |m'| - 1);
    AddedMapsTo(mapping, s, i, m, x, presence);
    forall a | 0 <= a < i + 1 && s[a].number > IDENTITY
      ensures s[a].number < |mapping'| && MapsSymbol(mapping'[s[a].number], s[a], m')
    {
      if a == i {
        assert m'[|m'| - 1].number == mapping'[s[a].number];
      } else {
        assert s[a].number < s[i].number;
        assert MapsSymbol(mapping[s[a].number], s[a], m');
      }
    }
  }

  /** A wildcard taken when the other list is exhausted meets no ordinary symbol there. */
  ghost predicate Flagged(unknown: bool, s: seq<Symbol>, i: int, t: seq<Symbol>)
    requires i <= |s|
  {
    Wildcard(s, i) ==> unknown || NoOrdinary(t)
  }

  lemma FlagTaken(unknown: bool, s: seq<Symbol>, i: int, t: seq<Symbol>, j: int, m: seq<Entry>)
    requires SigmaOk(s) && 0 <= i < |s| && 0 <= j <= |t| && Covers(m, t, j) && Ahead(m, s, i)
    requires Flagged(unknown, s, i, t)
    requires UNKNOWN <= s[i].number <= IDENTITY && !unknown ==> j == |t|
    ensures Flagged(unknown, s, i + 1, t)
  {
    if Wildcard(s, i + 1) && !Wildcard(s, i) && !unknown {
      var a :| 0 <= a < i + 1 && UNKNOWN <= s[a].number <= IDENTITY;
      assert a == i && j == |t|;
      forall b | 0 <= b < |t| ensures t[b].number <= IDENTITY {
        assert t[b].number < 0 || Lists(m, t[b]);
      }
    }
  }

  ghost predicate Presences(m: seq<Entry>, equal: bool) {
    forall k :: 0 <= k < |m| && m[k].number >= 0 ==> 1 <= m[k].presence <= 3 && (equal ==> m[k].presence == 3)
  }

  lemma AddedPresences(m: seq<Entry>, equal: bool, x: Symbol, presence: int)
    requires m != [] && Numbered(m) && Presences(m, equal) && x.number >= -1 && 1 <= presence <= 3
    ensures Presences(AddToMerged(m, x, presence), equal && presence == 3)
  {
    var m' := AddToMerged(m, x, presence);
    forall k | 0 <= k < |m'| && m'[k].number >= 0
      ensures 1 <= m'[k].presence <= 3 && (equal && presence == 3 ==> m'[k].presence == 3)
    {
      AddedPlace(m, x, presence, k);
    }
  }

  /** One list's mapping and wildcard flag after its first `i` symbols. */
  ghost predicate Side(mapping: seq<int>, unknown: bool, m: seq<Entry>, s: seq<Symbol>, i: int, t: seq<Symbol>) {
    && 0 <= i <= |s| && |mapping| == |s| + |t| + 3
    && MapsTo(mapping, s, i, m) && Flagged(unknown, s, i, t)
  }

  /** The number written for a symbol; specials are mapped only once the other list has ended. */
  ghost predicate Wrote(mapping: seq<int>, x: Symbol, number: int, mapping': seq<int>) {
    if 0 <= x.number < |mapping| && (x.number > IDENTITY || mapping' != mapping)
    then mapping' == mapping[x.number := number]
    else mapping' == mapping
  }

  lemma SideTaken(mapping: seq<int>, unknown: bool, m: seq<Entry>, s: seq<Symbol>, i: int, t: seq<Symbol>, j: int,
                  x: Symbol, presence: int, mapping': seq<int>)
    requires SigmaOk(s) && Side(mapping, unknown, m, s, i, t) && i < |s|
    requires m != [] && Numbered(m) && 0 <= j <= |t| && Covers(m, t, j) && Ahead(m, s, i)
    requires x.number >= -1 && (s[i].number > IDENTITY ==> x.number > IDENTITY && x.name == s[i].name)
    requires UNKNOWN <= s[i].number <= IDENTITY && !unknown ==> j == |t|
    requires var m' := AddToMerged(m, x, presence); Wrote(mapping, s[i], m'[|m'| - 1].number, mapping')
    ensures Side(mapping', unknown, AddToMerged(m, x, presence), s, i + 1, t)
  {
    hide AddToMerged, Numbered, Wildcard, Covers, Ahead;
    FlagTaken(unknown, s, i, t, j, m);
    MappedNext(mapping, s, i, m, x, presence, mapping');
  }

  lemma SideKept(mapping: seq<int>, unknown: bool, m: seq<Entry>, s: seq<Symbol>, i: int, t: seq<Symbol>, x: Symbol,
                 presence: int)
    requires Side(mapping, unknown, m, s, i, t) && m != [] && Numbered(m) && x.number >= -1
    ensures Side(mapping, unknown, AddToMerged(m, x, presence), s, i, t)
  {
    AddedMapsTo(mapping, s, i, m, x, presence);
  }

  /** The whole state of the merge loop. */
  ghost predicate State(m: seq<Entry>, equal: bool, p1: seq<int>, u1: bool, p2: seq<int>, u2: bool,
                        s1: seq<Symbol>, i: int, s2: seq<Symbol>, j: int)
  {
    && Merging(m, s1, i, s2, j)
    && Presences(m, equal)
    && Side(p1, u1, m, s1, i, s2)
    && Side(p2, u2, m, s2, j, s1)
  }

  lemma FirstTaken(m: seq<Entry>, equal: bool, p1: seq<int>, u1: bool, p2: seq<int>, u2: bool,
                   s1: seq<Symbol>, i: int, s2: seq<Symbol>, j: int, p1': seq<int>)
    requires SigmaOk(s1) && SigmaOk(s2) && State(m, equal, p1, u1, p2, u2, s1, i, s2, j)
    requires i < |s1| && (j < |s2| ==> Precedes(s1[i], s2[j]))
    requires UNKNOWN <= s1[i].number <= IDENTITY && !u1 ==> j == |s2|
    requires var m' := AddToMerged(m, s1[i], 1); Wrote(p1, s1[i], m'[|m'| - 1].number, p1')
    ensures State(AddToMerged(m, s1[i], 1), false, p1', u1, p2, u2, s1, i + 1, s2, j)
  {
    hide AddToMerged, Numbered, InOrder, Marks, Covers, Ahead, Precedes, MapsTo, Flagged, Presences, Side, Wrote;
    StepFirst(m, s1, i, s2, j);
    RealNumbers(m, s1, i) by { Reached(m, s1, i, 1); }
    AddedPresences(m, equal, s1[i], 1);
    SideTaken(p1, u1, m, s1, i, s2, j, s1[i], 1, p1') by { assert Side(p1, u1, m, s1, i, s2); }
    SideKept(p2, u2, m, s2, j, s1, s1[i], 1);
  }

  lemma SecondTaken(m: seq<Entry>, equal: bool, p1: seq<int>, u1: bool, p2: seq<int>, u2: bool,
                    s1: seq<Symbol>, i: int, s2: seq<Symbol>, j: int, p2': seq<int>)
    requires SigmaOk(s1) && SigmaOk(s2) && State(m, equal, p1, u1, p2, u2, s1, i, s2, j)
    requires j < |s2| && (i < |s1| ==> Precedes(s2[j], s1[i]))
    requires UNKNOWN <= s2[j].number <= IDENTITY && !u2 ==> i == |s1|
    requires var m' := AddToMerged(m, s2[j], 2); Wrote(p2, s2[j], m'[|m'| - 1].number, p2')
    ensures State(AddToMerged(m, s2[j], 2), false, p1, u1, p2', u2, s1, i, s2, j + 1)
  {
    hide AddToMerged, Numbered, InOrder, Marks, Covers, Ahead, Precedes, MapsTo, Flagged, Presences, Side, Wrote;
    StepSecond(m, s1, i, s2, j);
    RealNumbers(m, s2, j) by { Reached(m, s2, j, 2); }
    AddedPresences(m, equal, s2[j], 2);
    SideTaken(p2, u2, m, s2, j, s1, i, s2[j], 2, p2') by { assert Side(p2, u2, m, s2, j, s1); }
    SideKept(p1, u1, m, s1, i, s2, s2[j], 2);
  }

  lemma BothTaken(m: seq<Entry>, equal: bool, p1: seq<int>, u1: bool, p2: seq<int>, u2: bool,
                  s1: seq<Symbol>, i: int, s2: seq<Symbol>, j: int, p1': seq<int>, p2': seq<int>)
    requires SigmaOk(s1) && SigmaOk(s2) && State(m, equal, p1, u1, p2, u2, s1, i, s2, j)
    requires i < |s1| && j < |s2| && Same(s1[i], s2[j])
    requires UNKNOWN <= s1[i].number <= IDENTITY ==> u1 && u2
    requires var m' := AddToMerged(m, s1[i], 3);
             Wrote(p1, s1[i], m'[|m'| - 1].number, p1') && Wrote(p2, s2[j], m'[|m'| - 1].number, p2')
    ensures State(AddToMerged(m, s1[i], 3), equal, p1', u1, p2', u2, s1, i + 1, s2, j + 1)
  {
    hide AddToMerged, Numbered, InOrder, Marks, Covers, Ahead, MapsTo, Flagged, Presences, Side, Wrote;
    StepBoth(m, s1, i, s2, j);
    RealNumbers(m, s1, i) by { Reached(m, s1, i, 1); }
    AddedPresences(m, equal, s1[i], 3);
    SideTaken(p1, u1, m, s1, i, s2, j, s1[i], 3, p1') by { assert Side(p1, u1, m, s1, i, s2); }
    SideTaken(p2, u2, m, s2, j, s1, i, s1[i], 3, p2') by { assert Side(p2, u2, m, s2, j, s1); }
  }

  lemma RaiseFlags(m: seq<Entry>, equal: bool, p1: seq<int>, u1: bool, p2: seq<int>, u2: bool,
                   s1: seq<Symbol>, i: int, s2: seq<Symbol>, j: int, u1': bool, u2': bool)
    requires State(m, equal, p1, u1, p2, u2, s1, i, s2, j) && (u1 ==> u1') && (u2 ==> u2')
    ensures State(m, equal, p1, u1', p2, u2', s1, i, s2, j)
  {
  }

  /** Where a lone symbol may be taken from, its number indexes the mapping. */
  lemma MappedInRange(m: seq<Entry>, equal: bool, p1: seq<int>, u1: bool, p2: seq<int>, u2: bool,
                      s1: seq<Symbol>, i: int, s2: seq<Symbol>, j: int)
    requires SigmaOk(s1) && SigmaOk(s2) && State(m, equal, p1, u1, p2, u2, s1, i, s2, j)
    ensures i < |s1| && (j == |s2| || s1[i].number >= 0) ==> 0 <= s1[i].number < |p1|
    ensures j < |s2| && (i == |s1| || s2[j].number >= 0) ==> 0 <= s2[j].number < |p2|
  {
    if 0 < i < |s1| {
      assert s1[0].number < s1[i].number;
    }
    if 0 < j < |s2| {
      assert s2[0].number < s2[j].number;
    }
  }

  lemma StartState(p1: seq<int>, p2: seq<int>, s1: seq<Symbol>, s2: seq<Symbol>)
    requires |p1| == |p2| == |s1| + |s2| + 3
    ensures State([Entry(-1, "", 0)], true, p1, false, p2, false, s1, 0, s2, 0)
  {
    StartMerging(s1, s2);
  }

  lemma Finished(m: seq<Entry>, equal: bool, p1: seq<int>, u1: bool, p2: seq<int>, u2: bool, s1: seq<Symbol>,
                 s2: seq<Symbol>)
    requires State(m, equal, p1, u1, p2, u2, s1, |s1|, s2, |s2|)
    ensures MergeOf(m, s1, s2)
    ensures MapsTo(p1, s1, |s1|, m) && MapsTo(p2, s2, |s2|, m)
    ensures equal ==> forall k :: 0 <= k < |m| && m[k].number >= 0 ==> m[k].presence == 3
    ensures Flagged(u1, s1, |s1|, s2) && Flagged(u2, s2, |s2|, s1)
  {
  }

  /**
   The merged list, the two number mappings, whether the alphabets were found equal, and
   whether each net's wildcards were noticed.
   */
  method MergeLists(sigma1: seq<Symbol>, sigma2: seq<Symbol>)
    returns (m: seq<Entry>, mapping1: array<int>, mapping2: array<int>, equal: bool, unknown1: bool, unknown2: bool)
    requires SigmaOk(sigma1) && SigmaOk(sigma2)
    ensures MergeOf(m, sigma1, sigma2)
    ensures MapsTo(mapping1[..], sigma1, |sigma1|, m) && MapsTo(mapping2[..], sigma2, |sigma2|, m)
    ensures equal ==> forall k :: 0 <= k < |m| && m[k].number >= 0 ==> m[k].presence == 3
    ensures Flagged(unknown1, sigma1, |sigma1|, sigma2) && Flagged(unknown2, sigma2, |sigma2|, sigma1)
    ensures fresh(mapping1) && fresh(mapping2) && mapping1 != mapping2
    ensures mapping1.Length == mapping2.Length == |sigma1| + |sigma2| + 3
  {
    hide State, AddToMerged, MergeOf, SigmaOk, Before, MapsTo, Flagged;
    var sizes := |sigma1| + |sigma2|;
    mapping1, mapping2 := new int[sizes + 3], new int[sizes + 3];
    m, equal, unknown1, unknown2 := [Entry(-1, "", 0)], true, false, false;
    StartState(mapping1[..], mapping2[..], sigma1, sigma2);
    var i, j := 0, 0;
    while i < |sigma1| || j < |sigma2|
      invariant 0 <= i <= |sigma1| && 0 <= j <= |sigma2| && m != []
      invariant mapping1.Length == mapping2.Length == sizes + 3
      invariant State(m, equal, mapping1[..], unknown1, mapping2[..], unknown2, sigma1, i, sigma2, j)
      decreases |sigma1| - i + |sigma2| - j
    {
      ghost var was, e, p1, p2, u1, u2 := m, equal, mapping1[..], mapping2[..], unknown1, unknown2;
      MappedInRange(m, equal, p1, unknown1, p2, unknown2, sigma1, i, sigma2, j);
      if j == |sigma2| {
        var x := sigma1[i];
        m := AddToMerged(m, x, 1);
        mapping1[x.number] := m[|m| - 1].number;
        equal := false;
        FirstTaken(was, e, p1, unknown1, p2, unknown2, sigma1, i, sigma2, j, mapping1[..]);
        i := i + 1;
      } else if i == |sigma1| {
        var x := sigma2[j];
        m := AddToMerged(m, x, 2);
        mapping2[x.number] := m[|m| - 1].number;
        equal := false;
        SecondTaken(was, e, p1, unknown1, p2, unknown2, sigma1, i, sigma2, j, mapping2[..]);
        j := j + 1;
      } else {
        var x, y := sigma1[i], sigma2[j];
        if x.number <= IDENTITY || y.number <= IDENTITY {
          if x.number == UNKNOWN || x.number == IDENTITY {
            unknown1 := true;
          }
          if y.number == UNKNOWN || y.number == IDENTITY {
            unknown2 := true;
          }
          RaiseFlags(was, e, p1, u1, p2, u2, sigma1, i, sigma2, j, unknown1, unknown2);
          if x.number == y.number {
            m := AddToMerged(m, x, 3);
            BothTaken(was, e, p1, unknown1, p2, unknown2, sigma1, i, sigma2, j, p1, p2);
            i, j := i + 1, j + 1;
          } else if x.number < y.number {
            m := AddToMerged(m, x, 1);
            equal := false;
            FirstTaken(was, e, p1, unknown1, p2, unknown2, sigma1, i, sigma2, j, p1);
            i := i + 1;
          } else {
            m := AddToMerged(m, y, 2);
            equal := false;
            SecondTaken(was, e, p1, unknown1, p2, unknown2, sigma1, i, sigma2, j, p2);
            j := j + 1;
          }
        } else if x.name == y.name {
          m := AddToMerged(m, x, 3);
          mapping1[x.number] := m[|m| - 1].number;
          mapping2[y.number] := m[|m| - 1].number;
          BothTaken(was, e, p1, unknown1, p2, unknown2, sigma1, i, sigma2, j, mapping1[..], mapping2[..]);
          i, j := i + 1, j + 1;
        } else if Before(x.name, y.name) {
          m := AddToMerged(m, x, 1);
          mapping1[x.number] := m[|m| - 1].number;
          equal := false;
          FirstTaken(was, e, p1, unknown1, p2, unknown2, sigma1, i, sigma2, j, mapping1[..]);
          i := i + 1;
        } else {
          BeforeTotal(x.name, y.name);
          m := AddToMerged(m, y, 2);
          mapping2[y.number] := m[|m| - 1].number;
          equal := false;
          SecondTaken(was, e, p1, unknown1, p2, unknown2, sigma1, i, sigma2, j, mapping2[..]);
          j := j + 1;
        }
      }
    }
    Finished(m, equal, mapping1[..], unknown1, mapping2[..], unknown2, sigma1, sigma2);
  }

  // ----- The merged list as an alphabet -----

  function SymbolsOf(m: seq<Entry>): (s: seq<Symbol>) {
    seq(|m|, k requires 0 <= k < |m| => m[k].ToSymbol())
  }

  method CopyMergesigma(m: seq<Entry>) returns (s: seq<Symbol>)
    ensures s == SymbolsOf(m)
  {
    s := [];
    for k := 0 to |m|
      invariant s == SymbolsOf(m[..k])
    {
      s := s + [m[k].ToSymbol()];
    }
    assert m[..|m|] == m;
  }

  lemma {:induction false} NumbersRise(m: seq<Entry>, k: int, h: int)
    requires Numbered(m) && InOrder(m) && 0 <= k < h < |m|
    ensures m[k].number < m[h].number && m[h].number <= (if m[k].number <= IDENTITY then IDENTITY else m[k].number)
            + (h - k)
    decreases h
  {
    assert Precedes(m[h - 1].ToSymbol(), m[h].ToSymbol()) && NumberOk(m, h);
    if k < h - 1 {
      NumbersRise(m, k, h - 1);
    }
  }

  /** The merged list is again a sorted symbol list, so a merged net can be merged once more. */
  lemma MergedSigmaOk(m: seq<Entry>)
    requires m != [] && Numbered(m) && InOrder(m)
    ensures SigmaOk(SymbolsOf(m))
  {
    var s := SymbolsOf(m);
    forall i, j | 0 <= i < j < |s| ensures Precedes(s[i], s[j]) && s[i].number < s[j].number {
      NumbersRise(m, i, j);
    }
    assert NumberOk(m, 0);
    forall i | 0 <= i < |s| ensures s[i].number < |s| + 3 {
      assert s[i].number == m[i].number;
      if 0 < i {
        NumbersRise(m, 0, i);
      }
    }
  }
}
