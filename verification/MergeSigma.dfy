/**
 Giving two nets one alphabet: the symbol lists are merged, arcs renumbered in place, and the
 wildcard arcs of each net expanded into a new line array of precomputed size.
 */
module AlphabetMerging {
  import opened Automata
  import Coaccessibility
  import NetBuilding
  import NetReading
  import opened OpenAlphabet
  import opened SigmaExpansion
  import opened SigmaMerging
  import opened WidenedArcs

  // ----- How many lines expansion needs -----

  function NewCount(m: seq<Entry>, want: int): nat {
    if m == [] then 0 else NewCount(m[..|m| - 1], want) + if IsNew(m[|m| - 1], want) then 1 else 0
  }

  /** The count the source takes, which includes special symbols. */
  function PresentCount(m: seq<Entry>, want: int): nat {
    if m == [] then 0 else PresentCount(m[..|m| - 1], want) + if m[|m| - 1].presence == want then 1 else 0
  }

  function NumberCount(m: seq<Entry>, n: int): nat {
    if m == [] then 0 else NumberCount(m[..|m| - 1], n) + if m[|m| - 1].number == n then 1 else 0
  }

  lemma {:induction false} NewAtMostPresent(m: seq<Entry>, want: int)
    ensures NewCount(m, want) <= PresentCount(m, want)
  {
    if m != [] {
      NewAtMostPresent(m[..|m| - 1], want);
    }
  }

  lemma {:induction false} LabelsSize(m: seq<Entry>, shape: Shape, want: int)
    requires !shape.Against?
    ensures |Labels(m, shape, want)| == NewCount(m, want)
  {
    if m != [] {
      LabelsSize(m[..|m| - 1], shape, want);
    }
  }

  /** Against a new lower symbol: the other new ones, and UNKNOWN; against UNKNOWN: the new ones. */
  lemma {:induction false} AgainstSize(m: seq<Entry>, f: Entry, want: int)
    ensures IsNew(f, want) ==> |Labels(m, Against(f), want)| + NumberCount(m, f.number) <= NewCount(m, want)
                               + NumberCount(m, UNKNOWN) + OldCount(m, f.number, want)
    ensures f.number == UNKNOWN ==> |Labels(m, Against(f), want)| == NewCount(m, want)
    ensures !IsNew(f, want) && f.number != UNKNOWN ==> Labels(m, Against(f), want) == []
  {
    if m != [] {
      AgainstSize(m[..|m| - 1], f, want);
    }
  }

  /** Cells numbered `n` that are not new. */
  function OldCount(m: seq<Entry>, n: int, want: int): nat {
    if m == [] then 0
    else OldCount(m[..|m| - 1], n, want) + if m[|m| - 1].number == n && !IsNew(m[|m| - 1], want) then 1 else 0
  }

  lemma {:induction false} CountOnce(m: seq<Entry>, n: int)
    requires forall k, h :: 0 <= k < h < |m| ==> m[k].number < m[h].number
    ensures NumberCount(m, n) <= 1
    ensures NumberCount(m, n) == 1 ==> exists k :: 0 <= k < |m| && m[k].number == n
    ensures forall k :: 0 <= k < |m| && m[k].number == n ==> NumberCount(m, n) == 1
  {
    if m != [] {
      var rest := m[..|m| - 1];
      CountOnce(rest, n);
      forall k | 0 <= k < |m| && m[k].number == n ensures NumberCount(m, n) == 1 {
        assert k < |rest| ==> rest[k].number == n;
      }
      if NumberCount(rest, n) == 1 {
        var k :| 0 <= k < |rest| && rest[k].number == n;
        assert m[k].number == n;
      }
    }
  }

  lemma {:induction false} NoOld(m: seq<Entry>, n: int, want: int)
    requires forall k :: 0 <= k < |m| && m[k].number == n ==> IsNew(m[k], want)
    ensures OldCount(m, n, want) == 0
  {
    if m != [] {
      NoOld(m[..|m| - 1], n, want);
    }
  }

  /** One round of the outer loop writes at most as many arcs as there are new symbols. */
  lemma RoundSize(m: seq<Entry>, h: int, want: int)
    requires Rising(m) && 0 <= h < |m|
    ensures |Labels(m, Against(m[h]), want)| <= if IsNew(m[h], want)
            || m[h].number == UNKNOWN then NewCount(m, want) else 0
  {
    hide Labels;
    AgainstSize(m, m[h], want);
    if IsNew(m[h], want) {
      CountOnce(m, m[h].number);
      CountOnce(m, UNKNOWN);
      NoOld(m, m[h].number, want);
    }
  }

  /** The rounds of the outer loop that write anything, among the first `k`. */
  function Rounds(m: seq<Entry>, k: nat, want: int): nat
    requires k <= |m|
  {
    NewCount(m[..k], want) + NumberCount(m[..k], UNKNOWN)
  }

  lemma RoundsStep(m: seq<Entry>, k: nat, want: int)
    requires 0 < k <= |m|
    ensures Rounds(m, k, want) == Rounds(m, k - 1, want) + if IsNew(m[k - 1], want)
            || m[k - 1].number == UNKNOWN then 1 else 0
  {
    assert m[..k][..k - 1] == m[..k - 1];
  }

  lemma OneMoreRound(a: nat, b: nat, n: nat, x: nat, y: nat)
    requires x <= a * n && ((b == a + 1 && y <= n) || (b == a && y == 0))
    ensures x + y <= b * n
  {
    assert (a + 1) * n == a * n + n;
  }

  lemma {:induction false} PairsSize(m: seq<Entry>, k: nat, want: int)
    requires Rising(m) && k <= |m|
    ensures |PairLabels(m, k, want)| <= Rounds(m, k, want) * NewCount(m, want)
    decreases k
  {
    hide Labels, Rounds, Rising, NewCount;
    if k > 0 {
      PairsSize(m, k - 1, want);
      RoundSize(m, k - 1, want);
      RoundsStep(m, k, want);
      OneMoreRound(Rounds(m, k - 1, want), Rounds(m, k, want), NewCount(m, want),
                   |PairLabels(m, k - 1, want)|, |Labels(m, Against(m[k - 1]), want)|);
    }
  }

  /** The lines added for an arc, as the source counts them ahead. */
  function AddsFor(l: Label, u: nat): nat {
    (if l.upper == IDENTITY then u else 0)
    + (if l.upper == UNKNOWN && l.lower != UNKNOWN then u else 0)
    + (if l.lower == UNKNOWN && l.upper != UNKNOWN then u else 0)
    + (if l.upper == UNKNOWN && l.lower == UNKNOWN then SquareAdds(u) else 0)
  }

  function SquareAdds(u: nat): nat {
    assert u == 0 || u * u >= u;
    u * u - u + 2 * u
  }

  lemma SquareBound(n: nat, u: nat)
    requires n <= u
    ensures (n + 1) * n <= SquareAdds(u)
  {
    assert n * n <= u * u;
  }

  lemma WideningFits(l: Label, m: seq<Entry>, want: int)
    requires Rising(m) && LabelOk(l)
    ensures |Widening(l, m, want)| <= AddsFor(l, PresentCount(m, want)) + 1
  {
    hide Labels, PairLabels, Widening, SquareAdds;
    WideningCases(l, m, want);
    NewAtMostPresent(m, want);
    LabelsSize(m, Diagonal, want);
    LabelsSize(m, NewUpper(l.lower), want);
    LabelsSize(m, NewLower(l.upper), want);
    PairsFit(m, want);
  }

  lemma PairsFit(m: seq<Entry>, want: int)
    requires Rising(m)
    ensures |PairLabels(m, |m|, want)| <= SquareAdds(PresentCount(m, want))
  {
    hide PairLabels, NewCount, PresentCount;
    var n, u := NewCount(m, want), PresentCount(m, want);
    PairsSize(m, |m|, want);
    assert m[..|m|] == m;
    CountOnce(m, UNKNOWN);
    NewAtMostPresent(m, want);
    SquareBound(n, u);
    assert (n + NumberCount(m, UNKNOWN)) * n <= (n + 1) * n;
  }

  function TotalAdds(lines: seq<Line>, u: nat): nat {
    if lines == [] then 0 else TotalAdds(lines[..|lines| - 1], u) + AddsFor(lines[|lines| - 1].ToLabel(), u)
  }

  lemma {:induction false} WideLinesFit(lines: seq<Line>, m: seq<Entry>, want: int)
    requires Rising(m) && forall i :: 0 <= i < |lines| ==> LabelOk(lines[i].ToLabel())
    ensures |WidenLines(lines, m, want)| <= TotalAdds(lines, PresentCount(m, want)) + |lines|
  {
    if lines != [] {
      var n := |lines| - 1;
      WideLinesFit(lines[..n], m, want);
      WideningFits(lines[n].ToLabel(), m, want);
    }
  }

  lemma {:induction false} PrefixFits(lines: seq<Line>, i: nat, m: seq<Entry>, want: int)
    requires i < |lines|
    ensures |WidenLines(lines[..i], m, want)| + |WidenLine(lines[i], m, want)| == |WidenLines(lines[..i + 1], m, want)|
    ensures |WidenLines(lines[..i + 1], m, want)| <= |WidenLines(lines, m, want)|
    ensures WidenLines(lines[..i + 1], m, want) == WidenLines(lines[..i], m, want) + WidenLine(lines[i], m, want)
    decreases |lines|
  {
    hide Widening;
    var n := |lines| - 1;
    assert lines[..i + 1][..i] == lines[..i];
    if i < n {
      PrefixFits(lines[..n], i, m, want);
      assert lines[..n][..i + 1] == lines[..i + 1] && lines[..n][..i] == lines[..i];
    } else {
      assert lines[..i + 1] == lines;
    }
  }

  method CountPresent(m: seq<Entry>, want: int) returns (netUnk: nat)
    ensures netUnk == PresentCount(m, want)
  {
    netUnk := 0;
    for k := 0 to |m|
      invariant netUnk == PresentCount(m[..k], want)
    {
      assert m[..k + 1][..k] == m[..k];
      if m[k].presence == want {
        netUnk := netUnk + 1;
      }
    }
    assert m[..|m|] == m;
  }

  method CountAdds(states: array<Line>, netUnk: nat, ghost lines: seq<Line>) returns (netAdds: nat, netLines: nat)
    requires Coaccessibility.Encodes(states, lines) && forall i :: 0 <= i < |lines| ==> lines[i].state >= 0
    ensures netAdds == TotalAdds(lines, netUnk) && netLines == |lines|
  {
    netAdds := 0;
    var i := 0;
    while states[i].state != -1
      invariant 0 <= i <= |lines| && netAdds == TotalAdds(lines[..i], netUnk)
      decreases |lines| - i
    {
      AtLine(states[..], lines, i);
      assert lines[..i + 1][..i] == lines[..i];
      var l := states[i];
      if l.upper == IDENTITY {
        netAdds := netAdds + netUnk;
      }
      if l.upper == UNKNOWN && l.lower != UNKNOWN {
        netAdds := netAdds + netUnk;
      }
      if l.lower == UNKNOWN && l.upper != UNKNOWN {
        netAdds := netAdds + netUnk;
      }
      if l.upper == UNKNOWN && l.lower == UNKNOWN {
        netAdds := netAdds + SquareAdds(netUnk);
      }
      i := i + 1;
    }
    AtLine(states[..], lines, i);
    netLines := i;
    assert lines[..i] == lines;
  }

  lemma AtLine(states: seq<Line>, lines: seq<Line>, i: int)
    requires |lines| < |states| && states[..|lines|] == lines && states[|lines|].state == -1
    requires 0 <= i <= |lines| && forall k :: 0 <= k < |lines| ==> lines[k].state >= 0
    ensures i < |lines| <==> states[i].state != -1
    ensures i < |lines| ==> states[i] == lines[i]
  {
    assert i < |lines| ==> states[..|lines|][i] == states[i];
  }

  // ----- Writing the expanded array -----

  method AddFsmArc(out: array<Line>, j: nat, l: Line, lab: Label) returns (j': nat)
    requires j < out.Length
    modifies out
    ensures j' == j + 1 && out[..j'] == old(out[..j]) + [Relabel(l, lab)]
  {
    out[j] := Relabel(l, lab);
    j' := j + 1;
  }

  lemma {:induction false} LabelsPrefix(m: seq<Entry>, k: nat, shape: Shape, want: int)
    requires k < |m|
    ensures Labels(m[..k + 1], shape, want)
            == Labels(m[..k], shape, want) + if Emits(shape, m[k], want) then [EmittedLabel(shape, m[k])] else []
    ensures |Labels(m[..k + 1], shape, want)| <= |Labels(m, shape, want)|
    decreases |m|
  {
    var n := |m| - 1;
    assert m[..k + 1][..k] == m[..k];
    if k < n {
      LabelsPrefix(m[..n], k, shape, want);
      assert m[..n][..k + 1] == m[..k + 1] && m[..n][..k] == m[..k];
    } else {
      assert m[..k + 1] == m;
    }
  }

  /** One loop over the merged list. */
  method PutLabels(out: array<Line>, j: nat, l: Line, m: seq<Entry>, shape: Shape, want: int) returns (j': nat)
    requires j + |Labels(m, shape, want)| <= out.Length
    modifies out
    ensures j' == j + |Labels(m, shape, want)|
    ensures out[..j'] == old(out[..j]) + WithLabels(l, Labels(m, shape, want))
  {
    hide Labels;
    j' := j;
    NoneYet(m, shape, want);
    for k := 0 to |m|
      invariant j' == j + |Labels(m[..k], shape, want)| <= out.Length
      invariant out[..j'] == old(out[..j]) + WithLabels(l, Labels(m[..k], shape, want))
    {
      LabelsPrefix(m, k, shape, want);
      if Emits(shape, m[k], want) {
        j' := AddFsmArc(out, j', l, EmittedLabel(shape, m[k]));
        AppendLabel(l, Labels(m[..k], shape, want), EmittedLabel(shape, m[k]));
      }
    }
    assert m[..|m|] == m;
  }

  lemma NoneYet(m: seq<Entry>, shape: Shape, want: int)
    ensures Labels(m[..0], shape, want) == [] && PairLabels(m, 0, want) == []
  {
  }

  lemma AppendLabel(l: Line, labels: seq<Label>, lab: Label)
    ensures WithLabels(l, labels + [lab]) == WithLabels(l, labels) + [Relabel(l, lab)]
  {
  }

  lemma AppendLabels(l: Line, labels: seq<Label>, more: seq<Label>)
    ensures WithLabels(l, labels + more) == WithLabels(l, labels) + WithLabels(l, more)
  {
  }

  lemma {:induction false} PairsPrefix(m: seq<Entry>, k: nat, h: nat, want: int)
    requires k < h <= |m|
    ensures |PairLabels(m, k, want)| + |Labels(m, Against(m[k]), want)| <= |PairLabels(m, h, want)|
  {
    hide Labels;
    if k + 1 < h {
      PairsPrefix(m, k, h - 1, want);
    }
  }

  /** The two nested loops over the merged list. */
  method PutPairs(out: array<Line>, j: nat, l: Line, m: seq<Entry>, want: int) returns (j': nat)
    requires j + |PairLabels(m, |m|, want)| <= out.Length
    modifies out
    ensures j' == j + |PairLabels(m, |m|, want)|
    ensures out[..j'] == old(out[..j]) + WithLabels(l, PairLabels(m, |m|, want))
  {
    hide Labels;
    j' := j;
    for h := 0 to |m|
      invariant j' == j + |PairLabels(m, h, want)| <= out.Length
      invariant out[..j'] == old(out[..j]) + WithLabels(l, PairLabels(m, h, want))
    {
      PairsPrefix(m, h, |m|, want);
      j' := PutLabels(out, j', l, m, Against(m[h]), want);
      AppendLabels(l, PairLabels(m, h, want), Labels(m, Against(m[h]), want));
    }
  }

  lemma HeadLabel(l: Line, lab: Label, labels: seq<Label>)
    ensures WithLabels(l, [lab] + labels) == [Relabel(l, lab)] + WithLabels(l, labels)
    ensures WithLabels(l, [lab]) == [Relabel(l, lab)]
  {
  }

  /** All lines written for one line of the net. */
  method PutLine(out: array<Line>, j: nat, l: Line, m: seq<Entry>, want: int) returns (j': nat)
    requires LabelOk(l.ToLabel()) && j + |WidenLine(l, m, want)| <= out.Length
    modifies out
    ensures j' == j + |WidenLine(l, m, want)| && out[..j'] == old(out[..j]) + WidenLine(l, m, want)
  {
    hide Labels, PairLabels, Widening, WithLabels;
    j' := j;
    var lab := l.ToLabel();
    WideningCases(lab, m, want);
    HeadLabel(l, lab, Widening(lab, m, want)[1..]);
    assert Widening(lab, m, want) == [lab] + Widening(lab, m, want)[1..];
    if lab.upper == IDENTITY {
      j' := AddFsmArc(out, j', l, lab);
      j' := PutLabels(out, j', l, m, Diagonal, want);
    }
    if lab.upper == UNKNOWN && lab.lower != UNKNOWN {
      j' := AddFsmArc(out, j', l, lab);
      j' := PutLabels(out, j', l, m, NewUpper(lab.lower), want);
    }
    if lab.upper != UNKNOWN && lab.lower == UNKNOWN {
      j' := AddFsmArc(out, j', l, lab);
      j' := PutLabels(out, j', l, m, NewLower(lab.upper), want);
    }
    if lab.upper == UNKNOWN && lab.lower == UNKNOWN {
      j' := AddFsmArc(out, j', l, lab);
      j' := PutPairs(out, j', l, m, want);
    }
    if Plain(lab.upper) && Plain(lab.lower) {
      j' := AddFsmArc(out, j', l, lab);
    }
    if lab.upper == -1 {
      j' := AddFsmArc(out, j', l, lab);
    }
  }

  /** Expands a net's wildcards into an array sized ahead; writing never passes its end. */
  method Expand(states: array<Line>, m: seq<Entry>, want: int, ghost lines: seq<Line>) returns (wider: array<Line>)
    requires Rising(m) && Coaccessibility.Encodes(states, lines)
    requires forall i :: 0 <= i < |lines| ==> lines[i].state >= 0 && LabelOk(lines[i].ToLabel())
    ensures fresh(wider) && Coaccessibility.Encodes(wider, WidenLines(lines, m, want))
  {
    hide Rising, LabelOk, Widening, WidenLine;
    var netUnk := CountPresent(m, want);
    var netAdds, netLines := CountAdds(states, netUnk, lines);
    wider := new Line[netAdds + netLines + 1](_ => Line(-1, -1, -1, -1, false, false));
    WideLinesFit(lines, m, want);
    var i, j := 0, 0;
    while states[i].state != -1
      invariant 0 <= i <= |lines| && j == |WidenLines(lines[..i], m, want)| <= |WidenLines(lines, m, want)|
      invariant states[..] == old(states[..])
      invariant wider[..j] == WidenLines(lines[..i], m, want)
      decreases |lines| - i
    {
      AtLine(states[..], lines, i);
      PrefixFits(lines, i, m, want);
      j := PutLine(wider, j, states[i], m, want);
      i := i + 1;
    }
    AtLine(states[..], lines, i);
    assert lines[..i] == lines;
    wider[j] := Line(-1, -1, -1, -1, false, false);
  }

  method Renumber(states: array<Line>, mapping: array<int>, ghost lines: seq<Line>)
    requires Coaccessibility.Encodes(states, lines) && InRange(lines, mapping[..])
             && forall i :: 0 <= i < |lines| ==> lines[i].state >= 0
    modifies states
    ensures Coaccessibility.Encodes(states, Renumbered(lines, mapping[..]))
  {
    var i := 0;
    ghost var was, p := states[..], mapping[..];
    ghost var mapped := Renumbered(lines, p);
    while states[i].state != -1
      invariant 0 <= i <= |lines|
      invariant forall k :: 0 <= k < i ==> states[k] == mapped[k]
      invariant forall k :: i <= k < states.Length ==> states[k] == was[k]
      invariant mapping[..] == p
      decreases |lines| - i
    {
      AtLine(was, lines, i);
      if states[i].upper > 2 {
        states[i] := states[i].(upper := mapping[states[i].upper]);
      }
      if states[i].lower > 2 {
        states[i] := states[i].(lower := mapping[states[i].lower]);
      }
      i := i + 1;
    }
    AtLine(was, lines, i);
    assert states[..|lines|] == mapped;
  }

  // ----- Both nets -----

  /** What the merge reads and updates of foma's net record. */
  class Net {
    var sigma: seq<Symbol>
    var states: array<Line>

    constructor (symbols: seq<Symbol>, lines: array<Line>)
      ensures sigma == symbols && states == lines
    {
      sigma, states := symbols, lines;
    }
  }

  ghost predicate NetOk(s: seq<Symbol>, lines: seq<Line>, n: nat) {
    SigmaOk(s) && WellFormed(lines, n) && NetKnown(s, lines)
  }

  /** Ordinary symbols are numbered consecutively from 3. */
  ghost predicate Consecutive(s: seq<Symbol>) {
    forall k :: 0 <= k < |s| && s[k].number > IDENTITY ==> FollowsNumber(s, k)
  }

  predicate FollowsNumber(s: seq<Symbol>, k: int)
    requires 0 <= k < |s|
  {
    s[k].number == if k == 0 || s[k - 1].number <= IDENTITY then 3 else s[k - 1].number + 1
  }

  /** Every symbol of the merged list is one of either list, and conversely. */
  ghost predicate Union(s: seq<Symbol>, s1: seq<Symbol>, s2: seq<Symbol>) {
    && (forall x :: Outside(s, x) <==> Outside(s1, x) && Outside(s2, x))
    && (forall n :: 0 <= n <= IDENTITY ==> (ListsSpecial(s, n) <==> ListsSpecial(s1, n) || ListsSpecial(s2, n)))
  }

  ghost predicate ListsSpecial(s: seq<Symbol>, n: int) {
    exists a :: 0 <= a < |s| && s[a].number == n
  }

  lemma MergedAlphabet(m: seq<Entry>, s1: seq<Symbol>, s2: seq<Symbol>)
    requires MergeOf(m, s1, s2)
    ensures SigmaOk(SymbolsOf(m)) && Consecutive(SymbolsOf(m)) && Union(SymbolsOf(m), s1, s2) && Rising(m)
  {
    MergedSigmaOk(m);
    MergedConsecutive(m);
    MergedUnion(m, s1, s2);
    forall k, h | 0 <= k < h < |m| ensures m[k].number < m[h].number {
      NumbersRise(m, k, h);
    }
  }

  lemma MergedConsecutive(m: seq<Entry>)
    requires Numbered(m)
    ensures Consecutive(SymbolsOf(m))
  {
    forall k | 0 <= k < |m| && m[k].number > IDENTITY ensures FollowsNumber(SymbolsOf(m), k) {
      assert NumberOk(m, k);
    }
  }

  lemma MergedUnion(m: seq<Entry>, s1: seq<Symbol>, s2: seq<Symbol>)
    requires MergeOf(m, s1, s2)
    ensures Union(SymbolsOf(m), s1, s2)
  {
    hide Union;
    forall x ensures Outside(SymbolsOf(m), x) <==> Outside(s1, x) && Outside(s2, x) {
      OutsideBoth(m, s1, s2, x);
    }
    forall n | 0 <= n <= IDENTITY
      ensures ListsSpecial(SymbolsOf(m), n) <==> ListsSpecial(s1, n) || ListsSpecial(s2, n)
    {
      SpecialOfBoth(m, s1, s2, n);
    }
    UnionSays(SymbolsOf(m), s1, s2);
  }

  lemma UnionSays(s: seq<Symbol>, s1: seq<Symbol>, s2: seq<Symbol>)
    requires forall x :: Outside(s, x) <==> Outside(s1, x) && Outside(s2, x)
    requires forall n :: 0 <= n <= IDENTITY ==> (ListsSpecial(s, n) <==> ListsSpecial(s1, n) || ListsSpecial(s2, n))
    ensures Union(s, s1, s2)
  {
  }

  lemma OutsideBoth(m: seq<Entry>, s1: seq<Symbol>, s2: seq<Symbol>, x: string)
    requires MergeOf(m, s1, s2)
    ensures Outside(SymbolsOf(m), x) <==> Outside(s1, x) && Outside(s2, x)
  {
    hide Outside, Numbered, InOrder, Has, SymbolsOf;
    OutsideMerged(m, x);
    if k :| 0 <= k < |m| && m[k].number > IDENTITY && m[k].name == x {
      EntryNew(m, s1, 1, k);
      EntryNew(m, s2, 2, k);
    } else {
      if !Outside(s1, x) {
        NotOutside(m, s1, x);
      }
      if !Outside(s2, x) {
        NotOutside(m, s2, x);
      }
    }
  }

  lemma SpecialOfBoth(m: seq<Entry>, s1: seq<Symbol>, s2: seq<Symbol>, n: int)
    requires MergeOf(m, s1, s2) && 0 <= n <= IDENTITY
    ensures ListsSpecial(SymbolsOf(m), n) <==> ListsSpecial(s1, n) || ListsSpecial(s2, n)
  {
    var s' := SymbolsOf(m);
    if k :| 0 <= k < |m| && m[k].number == n {
      assert s'[k].number == n;
      SpecialMarked(m, s1, 1, k);
      SpecialMarked(m, s2, 2, k);
    } else {
      if ListsSpecial(s1, n) {
        SpecialCovered(m, s1, n);
      }
      if ListsSpecial(s2, n) {
        SpecialCovered(m, s2, n);
      }
    }
  }

  lemma SpecialMarked(m: seq<Entry>, s: seq<Symbol>, bit: int, k: int)
    requires Marks(m, s, bit) && 0 <= k < |m| && 0 <= m[k].number <= IDENTITY
    ensures HasBit(m[k].presence, bit) <==> ListsSpecial(s, m[k].number)
  {
    assert HasBit(m[k].presence, bit) <==> Has(s, m[k].ToSymbol());
  }

  lemma SpecialCovered(m: seq<Entry>, s: seq<Symbol>, n: int)
    requires Covers(m, s, |s|) && 0 <= n <= IDENTITY && ListsSpecial(s, n)
    ensures ListsNumber(m, n)
  {
    var a :| 0 <= a < |s| && s[a].number == n;
    assert Lists(m, s[a]);
    var k :| 0 <= k < |m| && Same(m[k].ToSymbol(), s[a]);
    assert m[k].number == n;
  }

  /**
   What merging achieves for one net: same moves and relation, same layout, arcs over the new alphabet that
   stay apart.
   */
  ghost predicate NetMerged(s: seq<Symbol>, lines: seq<Line>, n: nat, s': seq<Symbol>, lines': seq<Line>) {
    && NetOk(s', lines', n) && SameMoves(lines, s, lines', s') && SameRelation(lines, s, lines', s')
    && (NetBuilding.OneArcPerLabel(lines) ==> NetBuilding.OneArcPerLabel(lines'))
    && (NetReading.ArclessAlone(lines) ==> NetReading.ArclessAlone(lines'))
  }

  lemma ExtendsBoth(m: seq<Entry>, s1: seq<Symbol>, s2: seq<Symbol>, p1: seq<int>, p2: seq<int>)
    requires MergeOf(m, s1, s2) && MapsTo(p1, s1, |s1|, m) && MapsTo(p2, s2, |s2|, m)
    ensures Extends(m, s1, 1, p1) && Extends(m, s2, 2, p2)
  {
  }

  lemma MappingCovers(m: seq<Entry>, s: seq<Symbol>, bit: int, mapping: seq<int>, lines: seq<Line>)
    requires Extends(m, s, bit, mapping) && NetKnown(s, lines) && |mapping| >= 3
    ensures InRange(lines, mapping)
  {
    forall i | 0 <= i < |lines| ensures lines[i].upper < |mapping| && lines[i].lower < |mapping| {
      assert LineKnown(s, lines[i]);
      if lines[i].upper >= 0 {
        KnownMapped(m, s, bit, mapping, lines[i].upper);
        KnownMapped(m, s, bit, mapping, lines[i].lower);
      }
    }
  }

  lemma MergedKnown(m: seq<Entry>, s: seq<Symbol>, bit: int, mapping: seq<int>, lines: seq<Line>)
    requires Extends(m, s, bit, mapping) && NetKnown(s, lines) && InRange(lines, mapping)
    ensures NetKnown(SymbolsOf(m), WidenLines(Renumbered(lines, mapping), m, 3 - bit))
  {
    hide Extends, Widening, WidenLines, LineKnown, Written;
    var lines' := Renumbered(lines, mapping);
    var wide, o := WidenLines(lines', m, 3 - bit), Origins(lines', m, 3 - bit);
    WidenComesFrom(lines', m, 3 - bit);
    forall k | 0 <= k < |wide| ensures LineKnown(SymbolsOf(m), wide[k]) {
      assert Written(wide, o, lines', m, 3 - bit, k);
      OneKnown(m, s, bit, mapping, lines, wide, o, k);
    }
  }

  lemma OneKnown(m: seq<Entry>, s: seq<Symbol>, bit: int, mapping: seq<int>, lines: seq<Line>, wide: seq<Line>,
                 o: seq<int>, k: int)
    requires Extends(m, s, bit, mapping) && NetKnown(s, lines) && InRange(lines, mapping)
    requires 0 <= k < |wide| == |o| && Written(wide, o, Renumbered(lines, mapping), m, 3 - bit, k)
    ensures LineKnown(SymbolsOf(m), wide[k])
  {
    hide Extends, Widening, Knows, HasNew;
    var l := lines[o[k]];
    assert LineKnown(s, l);
    var l' := RenumberLine(l, mapping);
    RenumberedOk(m, s, bit, mapping, l);
    InWidening(l'.ToLabel(), m, 3 - bit, wide[k].ToLabel());
    SideKnown(m, s, bit, mapping, l.upper, wide[k].upper);
    SideKnown(m, s, bit, mapping, l.lower, wide[k].lower);
    NewBeyond(m, 3 - bit, wide[k].upper);
    NewBeyond(m, 3 - bit, wide[k].lower);
  }

  lemma NewBeyond(m: seq<Entry>, want: int, n: int)
    ensures HasNew(m, want, n) ==> n > IDENTITY && Knows(SymbolsOf(m), n)
  {
    if k :| 0 <= k < |m| && m[k].number == n && IsNew(m[k], want) {
      assert SymbolsOf(m)[k].number == n;
    }
  }

  lemma SideKnown(m: seq<Entry>, s: seq<Symbol>, bit: int, mapping: seq<int>, n: int, n': int)
    requires Extends(m, s, bit, mapping) && Knows(s, n) && n < |mapping|
    ensures n' == Mapped(n, mapping) ==> Knows(SymbolsOf(m), n')
    ensures n > IDENTITY ==> Mapped(n, mapping) > IDENTITY
  {
    if n > EPSILON {
      var a :| 0 <= a < |s| && s[a].number == n;
      if n > IDENTITY {
        assert MapsSymbol(mapping[n], s[a], m);
        var k :| 0 <= k < |m| && m[k].number == mapping[n] > IDENTITY && m[k].name == s[a].name;
        assert SymbolsOf(m)[k].number == mapping[n];
      } else {
        assert ListsSpecial(s, n);
        SpecialCovered(m, s, n);
        var k :| 0 <= k < |m| && m[k].number == n;
        assert SymbolsOf(m)[k].number == n;
      }
    }
  }

  /** Whatever was decided about expansion, the net holds the expanded lines. */
  lemma NotExpanded(m: seq<Entry>, s: seq<Symbol>, bit: int, mapping: seq<int>, lines: seq<Line>, t: seq<Symbol>,
                    unknown: bool, equal: bool)
    requires Extends(m, s, bit, mapping) && NetKnown(s, lines) && InRange(lines, mapping) && Marks(m, t, 3 - bit)
    requires 1 <= bit <= 2 && Flagged(unknown, s, |s|, t)
             && (equal ==> forall k :: 0 <= k < |m| && m[k].number >= 0 ==> m[k].presence == 3)
    ensures !unknown || equal ==> WidenLines(Renumbered(lines, mapping), m, 3 - bit) == Renumbered(lines, mapping)
  {
    hide Extends, LineKnown, WidenLines, Marks, Flagged;
    var lines' := Renumbered(lines, mapping);
    if !unknown || equal {
      NoneNew(m, s, bit, t, unknown, equal);
      forall i | 0 <= i < |lines'|
        ensures LabelOk(lines'[i].ToLabel()) && (NothingNew(m, 3 - bit) || NoWildcard(lines'[i].ToLabel()))
      {
        RenumberedOk(m, s, bit, mapping, lines[i]);
        if !Wildcard(s, |s|) {
          StaysPlain(m, s, bit, mapping, lines[i]);
        }
      }
      NothingToWiden(lines', m, 3 - bit);
    }
  }

  lemma NoneNew(m: seq<Entry>, s: seq<Symbol>, bit: int, t: seq<Symbol>, unknown: bool, equal: bool)
    requires 1 <= bit <= 2 && Marks(m, t, 3 - bit) && Flagged(unknown, s, |s|, t) && (!unknown || equal)
    requires equal ==> forall k :: 0 <= k < |m| && m[k].number >= 0 ==> m[k].presence == 3
    ensures NothingNew(m, 3 - bit) || !Wildcard(s, |s|)
  {
    if Wildcard(s, |s|) && !equal {
      forall k | 0 <= k < |m| ensures !IsNew(m[k], 3 - bit) {
        if m[k].number > IDENTITY {
          assert HasBit(m[k].presence, 3 - bit) <==> Has(t, m[k].ToSymbol());
        }
      }
    }
  }

  lemma StaysPlain(m: seq<Entry>, s: seq<Symbol>, bit: int, mapping: seq<int>, l: Line)
    requires Extends(m, s, bit, mapping) && LineKnown(s, l) && l.upper < |mapping| && l.lower < |mapping|
    requires !Wildcard(s, |s|)
    ensures NoWildcard(RenumberLine(l, mapping).ToLabel())
  {
    hide Extends;
    SideKnown(m, s, bit, mapping, l.upper, l.upper);
    SideKnown(m, s, bit, mapping, l.lower, l.lower);
  }

  lemma ExtensionSorted(m: seq<Entry>, s: seq<Symbol>, bit: int, mapping: seq<int>)
    requires Extends(m, s, bit, mapping)
    ensures SigmaOk(SymbolsOf(m))
  {
    MergedSigmaOk(m);
  }

  lemma NetDone(m: seq<Entry>, s: seq<Symbol>, bit: int, mapping: seq<int>, lines: seq<Line>, n: nat)
    requires Extends(m, s, bit, mapping) && NetOk(s, lines, n) && InRange(lines, mapping)
    ensures NetMerged(s, lines, n, SymbolsOf(m), WidenLines(Renumbered(lines, mapping), m, 3 - bit))
  {
    hide SameMoves, SameRelation, WellFormed, LineKnown, WidenLines, SigmaOk, NetBuilding.OneArcPerLabel,
         NetReading.ArclessAlone, Extends;
    ExtensionSorted(m, s, bit, mapping);
    if NetBuilding.OneArcPerLabel(lines) {
      ExpansionKeepsApart(m, s, bit, mapping, lines);
    }
    if NetReading.ArclessAlone(lines) {
      ExpansionKeepsAlone(m, s, bit, mapping, lines, n);
    }
    ExpandedWellFormed(m, s, bit, mapping, lines, n);
    MergedKnown(m, s, bit, mapping, lines);
    ExpansionKeepsMeaning(m, s, bit, mapping, lines);
  }

  /** What the array writers need of a net's lines. */
  lemma Scannable(m: seq<Entry>, s: seq<Symbol>, bit: int, mapping: seq<int>, lines: seq<Line>, n: nat)
    requires Extends(m, s, bit, mapping) && NetOk(s, lines, n) && InRange(lines, mapping)
    ensures forall i :: 0 <= i < |lines| ==> lines[i].state >= 0
    ensures forall i :: 0 <= i < |lines| ==>
              Renumbered(lines, mapping)[i].state >= 0 && LabelOk(Renumbered(lines, mapping)[i].ToLabel())
  {
    hide Extends, LabelOk;
    forall i | 0 <= i < |lines| ensures lines[i].state >= 0 && LabelOk(RenumberLine(lines[i], mapping).ToLabel()) {
      assert LineOk(lines[i], n);
      RenumberedOk(m, s, bit, mapping, lines[i]);
    }
  }

  /** Everything about one net, before it is touched: what renumbering and expanding it will give. */
  lemma NetPlan(m: seq<Entry>, s: seq<Symbol>, bit: int, mapping: seq<int>, lines: seq<Line>, n: nat, t: seq<Symbol>,
                unknown: bool, equal: bool)
    requires Extends(m, s, bit, mapping) && NetOk(s, lines, n) && |mapping| >= 3 && Marks(m, t, 3 - bit)
    requires 1 <= bit <= 2 && Flagged(unknown, s, |s|, t)
             && (equal ==> forall k :: 0 <= k < |m| && m[k].number >= 0 ==> m[k].presence == 3)
    ensures InRange(lines, mapping)
    ensures var lines' := Renumbered(lines, mapping);
            && (!unknown || equal ==> WidenLines(lines', m, 3 - bit) == lines')
            && NetMerged(s, lines, n, SymbolsOf(m), WidenLines(lines', m, 3 - bit))
            && (forall i :: 0 <= i < |lines| ==> lines[i].state >= 0 && lines'[i].state >= 0
                                                 && LabelOk(lines'[i].ToLabel()))
  {
    hide Extends, Marks, Flagged, NetMerged, LabelOk, WidenLines;
    MappingCovers(m, s, bit, mapping, lines);
    NotExpanded(m, s, bit, mapping, lines, t, unknown, equal);
    NetDone(m, s, bit, mapping, lines, n);
    Scannable(m, s, bit, mapping, lines, n);
  }

  /**
   Merges the alphabets of the two nets. Each keeps its relation over the open alphabet, and both
   end with the union of the two alphabets, consecutively numbered from 3.
   */
  method FsmMergeSigma(net1: Net, net2: Net, ghost lines1: seq<Line>, ghost n1: nat, ghost lines2: seq<Line>,
                       ghost n2: nat)
    returns (ghost merged1: seq<Line>, ghost merged2: seq<Line>)
    requires net1 != net2 && net1.states != net2.states
    requires NetOk(net1.sigma, lines1, n1) && Coaccessibility.Encodes(net1.states, lines1)
    requires NetOk(net2.sigma, lines2, n2) && Coaccessibility.Encodes(net2.states, lines2)
    modifies net1, net2, net1.states, net2.states
    ensures Coaccessibility.Encodes(net1.states, merged1) && NetMerged(old(net1.sigma), lines1, n1, net1.sigma, merged1)
    ensures Coaccessibility.Encodes(net2.states, merged2) && NetMerged(old(net2.sigma), lines2, n2, net2.sigma, merged2)
    ensures net1.sigma == net2.sigma && Consecutive(net1.sigma)
    ensures Union(net1.sigma, old(net1.sigma), old(net2.sigma))
  {
    hide NetMerged, Extends, Marks, Numbered, InOrder, Covers, Flagged, WidenLines, MapsTo, Union, Consecutive, Rising,
         LabelOk, SymbolsOf, InRange,
      WellFormed, NetKnown, SigmaOk;
    ghost var s1, s2 := net1.sigma, net2.sigma;
    var m, mapping1, mapping2, equal, unknown1, unknown2 := MergeLists(net1.sigma, net2.sigma);
    ghost var p1, p2 := mapping1[..], mapping2[..];
    ExtendsBoth(m, s1, s2, p1, p2);
    MergedAlphabet(m, s1, s2);
    NetPlan(m, s1, 1, p1, lines1, n1, s2, unknown1, equal);
    NetPlan(m, s2, 2, p2, lines2, n2, s1, unknown2, equal);
    Renumber(net1.states, mapping1, lines1);
    Renumber(net2.states, mapping2, lines2);
    var sigma1 := CopyMergesigma(m);
    var sigma2 := CopyMergesigma(m);
    net1.sigma := sigma1;
    net2.sigma := sigma2;
    merged1, merged2 := WidenLines(Renumbered(lines1, p1), m, 2), WidenLines(Renumbered(lines2, p2), m, 1);
    if unknown1 && !equal {
      var wider := Expand(net1.states, m, 2, Renumbered(lines1, p1));
      net1.states := wider;
    }
    if unknown2 && !equal {
      var wider := Expand(net2.states, m, 1, Renumbered(lines2, p2));
      net2.states := wider;
    }
  }
}
