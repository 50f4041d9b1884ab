/**
 The composition algorithm: product states (p, q, mode) on a worklist, with the arcs of the
 lower net's current state kept in stamped rows, one row for each input symbol.
 */
module Composing {
  import opened Automata
  import Counting
  import opened TripletHashing
  import opened NetBuilding
  import opened NetReading
  import opened ProductBuilding
  import opened Worklist
  import opened ComposedWords
  import opened Composition
  import OpenComposition
  import opened Wrappers

  // ----- The stamped rows over the lower net -----

  /** A lower arc as stored in a row; current if stamped with the current round. */
  datatype OutEntry = OutEntry(symin: int, symout: int, target: int, mainloop: nat)

  /** UNKNOWN and IDENTITY share a row. */
  function RowOf(symbol: int): int {
    if symbol == IDENTITY then UNKNOWN else symbol
  }

  predicate InRow(l: Line, r: int) {
    l.target >= 0 && RowOf(l.upper) == r
  }

  /** The lines among `lo..i` that belong in row `r`. */
  ghost function RowLines(b: seq<Line>, lo: int, i: int, r: int): (ks: seq<int>)
    requires 0 <= lo <= i <= |b|
    ensures forall c :: 0 <= c < |ks| ==> lo <= ks[c] < i && InRow(b[ks[c]], r)
    decreases i
  {
    if i == lo then []
    else RowLines(b, lo, i - 1, r) + (if InRow(b[i - 1], r) then [i - 1] else [])
  }

  lemma {:induction false} RowLinesComplete(b: seq<Line>, lo: int, i: int, r: int, k: int) returns (c: int)
    requires 0 <= lo <= k < i <= |b| && InRow(b[k], r)
    ensures 0 <= c < |RowLines(b, lo, i, r)| && RowLines(b, lo, i, r)[c] == k
    decreases i
  {
    if k == i - 1 {
      c := |RowLines(b, lo, i - 1, r)|;
    } else {
      c := RowLinesComplete(b, lo, i - 1, r, k);
    }
  }

  lemma {:induction false} RowLinesIncrease(b: seq<Line>, lo: int, i: int, r: int)
    requires 0 <= lo <= i <= |b|
    ensures forall c, d :: 0 <= c < d < |RowLines(b, lo, i, r)| ==> RowLines(b, lo, i, r)[c] < RowLines(b, lo, i, r)[d]
    decreases i
  {
    if i != lo {
      RowLinesIncrease(b, lo, i - 1, r);
    }
  }

  /** IDENTITY only ever occurs as @:@. */
  ghost predicate IdentityPaired(b: seq<Line>) {
    forall l :: l in b && l.upper == IDENTITY ==> l.lower == IDENTITY
  }

  /** Within one state, a row holds at most one arc for each output, and @:@ besides. */
  lemma RowFits(b: seq<Line>, n: nat, lo: int, i: int, r: int, max: int)
    requires -1 <= max
    requires WellFormed(b, n) && OneArcPerLabel(b) && IdentityPaired(b) && SymbolsUpTo(b, max)
    requires 0 <= lo <= i <= |b| && forall k :: lo <= k < i ==> b[k].state == b[lo].state
    ensures |RowLines(b, lo, i, r)| <= max + 2
  {
    hide RowLines, Code, WellFormed, OneArcPerLabel, IdentityPaired, SymbolsUpTo;
    var ks := RowLines(b, lo, i, r);
    RowLinesIncrease(b, lo, i, r);
    var codes := seq(|ks|, c requires 0 <= c < |ks| => Code(b[ks[c]], max));
    forall c | 0 <= c < |ks| ensures 0 <= codes[c] < max + 2 {
      CodeInRange(b, n, ks[c], max);
    }
    forall c, d | 0 <= c < d < |ks| ensures codes[c] != codes[d] {
      CodesDiffer(b, n, ks[c], ks[d], max);
    }
    Counting.Pigeonhole(codes, max + 2);
  }

  lemma CodeInRange(b: seq<Line>, n: nat, i: int, max: int)
    requires -1 <= max
    requires WellFormed(b, n) && SymbolsUpTo(b, max) && 0 <= i < |b| && b[i].target >= 0
    ensures 0 <= Code(b[i], max) < max + 2
  {
    LineInRange(b, n, max, i);
  }

  lemma CodesDiffer(b: seq<Line>, n: nat, i: int, j: int, max: int)
    requires -1 <= max
    requires WellFormed(b, n) && OneArcPerLabel(b) && IdentityPaired(b) && SymbolsUpTo(b, max)
    requires 0 <= i < j < |b| && b[i].state == b[j].state && InRow(b[i], RowOf(b[j].upper)) && b[j].target >= 0
    ensures Code(b[i], max) != Code(b[j], max)
  {
    assert b[i] in b && b[j] in b && b[i].ToLabel() != b[j].ToLabel();
  }

  function Code(l: Line, max: int): int {
    if l.upper == IDENTITY then max + 1 else l.lower
  }

  /** Row `r` of the table. */
  ghost function Row(out: array2<OutEntry>, r: int): (row: seq<OutEntry>)
    requires 0 <= r < out.Length0
    reads out
    ensures |row| == out.Length1 && forall c :: 0 <= c < |row| ==> row[c] == out[r, c]
  {
    seq(out.Length1, c requires 0 <= c < out.Length1 reads out => out[r, c])
  }

  /** A row lists the lines `ks`, in order, from its first cell on; later cells are stale. */
  ghost predicate RowOk(row: seq<OutEntry>, tail: int, round: nat, b: seq<Line>, ks: seq<int>) {
    && 0 <= tail < |row| && |ks| <= |row|
    && (ks != [] ==> tail == |ks| - 1)
    && (forall c :: 0 <= c < |ks| ==> 0 <= ks[c] < |b|
                                      && row[c] == OutEntry(b[ks[c]].upper, b[ks[c]].lower, b[ks[c]].target, round))
    && (forall c :: |ks| <= c < |row| ==> row[c].mainloop < round)
  }

  ghost predicate Indexed(out: array2<OutEntry>, tails: array<int>, round: nat, b: seq<Line>, lo: int, i: int)
    requires 0 <= lo <= i <= |b|
    reads out, tails
  {
    && tails.Length == out.Length0
    && forall r :: 0 <= r < out.Length0 ==> RowOk(Row(out, r), tails[r], round, b, RowLines(b, lo, i, r))
  }

  /** Between rounds: every cell is stale. */
  ghost predicate Stale(out: array2<OutEntry>, tails: array<int>, round: nat)
    reads out, tails
  {
    && tails.Length == out.Length0
    && forall r :: 0 <= r < out.Length0 ==> RowStale(Row(out, r), tails[r], round)
  }

  predicate RowStale(row: seq<OutEntry>, tail: int, round: nat) {
    0 <= tail < |row| && forall c :: 0 <= c < |row| ==> row[c].mainloop <= round
  }

  lemma IndexedIsStale(out: array2<OutEntry>, tails: array<int>, round: nat, b: seq<Line>, lo: int, i: int)
    requires 0 <= lo <= i <= |b| && Indexed(out, tails, round, b, lo, i)
    ensures Stale(out, tails, round)
  {
    forall r | 0 <= r < out.Length0 ensures RowStale(Row(out, r), tails[r], round) {
      assert RowOk(Row(out, r), tails[r], round, b, RowLines(b, lo, i, r));
    }
  }

  lemma StaleIsIndexed(out: array2<OutEntry>, tails: array<int>, round: nat, b: seq<Line>, lo: int)
    requires 0 <= lo <= |b| && 0 < round && Stale(out, tails, round - 1)
    ensures Indexed(out, tails, round, b, lo, lo)
  {
    forall r | 0 <= r < out.Length0 ensures RowOk(Row(out, r), tails[r], round, b, RowLines(b, lo, lo, r)) {
      assert RowStale(Row(out, r), tails[r], round - 1);
    }
  }

  /** Appends line `i` to its row; the row has room for it. */
  method AppendToRow(out: array2<OutEntry>, tails: array<int>, round: nat, b: seq<Line>, i: int, r: int,
                     ghost ks: seq<int>)
    requires 0 <= r < out.Length0 && tails.Length == out.Length0 && 0 <= i < |b|
    requires RowOk(Row(out, r), tails[r], round, b, ks) && |ks| < out.Length1
    modifies out, tails
    ensures RowOk(Row(out, r), tails[r], round, b, ks + [i])
    ensures forall s :: 0 <= s < out.Length0 && s != r ==> Row(out, s) == old(Row(out, s)) && tails[s] == old(tails[s])
  {
    var iptr := tails[r];
    if out[r, iptr].mainloop != round {
      iptr := 0;
    } else {
      iptr := iptr + 1;
    }
    assert iptr == |ks|;
    ghost var row := Row(out, r);
    out[r, iptr] := OutEntry(b[i].upper, b[i].lower, b[i].target, round);
    tails[r] := iptr;
    assert Row(out, r) == row[iptr := out[r, iptr]];
  }

  lemma RowLinesStep(b: seq<Line>, lo: int, i: int, r: int)
    requires 0 <= lo <= i < |b|
    ensures RowLines(b, lo, i + 1, r) == if InRow(b[i], r) then RowLines(b, lo, i, r) + [i] else RowLines(b, lo, i, r)
  {
  }

  method IndexLine(out: array2<OutEntry>, tails: array<int>, round: nat, b: seq<Line>, ghost n: nat, ghost lo: int,
                   i: int, ghost max: int)
    requires -1 <= max
    requires WellFormed(b, n) && OneArcPerLabel(b) && IdentityPaired(b) && SymbolsUpTo(b, max)
    requires out.Length0 == max + 1 && out.Length1 == max + 2
    requires 0 <= lo <= i < |b| && (forall k :: lo <= k <= i ==> b[k].state == b[lo].state)
    requires Indexed(out, tails, round, b, lo, i)
    modifies out, tails
    ensures Indexed(out, tails, round, b, lo, i + 1)
  {
    hide RowOk, RowLines, WellFormed, OneArcPerLabel, IdentityPaired;
    var bindex := RowOf(b[i].upper);
    forall r | 0 <= r < out.Length0
      ensures RowLines(b, lo, i + 1, r) == if InRow(b[i], r) then RowLines(b, lo, i, r) + [i] else RowLines(b, lo, i, r)
    {
      RowLinesStep(b, lo, i, r);
    }
    if bindex < 0 || b[i].target < 0 {
      NoArc(b, n, i);
      return;
    }
    assert b[i] in b;
    RowFits(b, n, lo, i + 1, bindex, max);
    AppendToRow(out, tails, round, b, i, bindex, RowLines(b, lo, i, bindex));
  }

  lemma NoArc(b: seq<Line>, n: nat, i: int)
    requires WellFormed(b, n) && 0 <= i < |b| && (RowOf(b[i].upper) < 0 || b[i].target < 0)
    ensures b[i].target == -1
  {
    assert LineOk(b[i], n);
  }

  /** Fills the rows with the arcs of the lower net's state `q`. */
  method IndexState(out: array2<OutEntry>, tails: array<int>, round: nat, b: seq<Line>, n: nat, q: int,
                    pointer: StatePointer, ghost max: int)
    returns (ghost hi: int)
    requires -1 <= max
    requires WellFormed(b, n) && OneArcPerLabel(b) && IdentityPaired(b) && SymbolsUpTo(b, max)
    requires out.Length0 == max + 1 && out.Length1 == max + 2
    requires PointsAt(pointer, b, q) && 0 < round && Stale(out, tails, round - 1)
    modifies out, tails
    ensures Block(b, q, pointer.transitions, hi)
    ensures Indexed(out, tails, round, b, pointer.transitions, hi)
  {
    hide Indexed, Stale, WellFormed, OneArcPerLabel, IdentityPaired;
    var i := pointer.transitions;
    StaleIsIndexed(out, tails, round, b, i);
    while i < |b| && b[i].state == q
      invariant pointer.transitions <= i <= |b|
      invariant forall k :: pointer.transitions <= k < i ==> b[k].state == q
      invariant Indexed(out, tails, round, b, pointer.transitions, i)
    {
      IndexLine(out, tails, round, b, n, pointer.transitions, i, max);
      i := i + 1;
    }
    ScannedBlock(b, n, q, pointer, i);
    hi := i;
  }

  // ----- Which product arcs have been emitted -----

  /** The arc that the lines `x` and `y` combine to, if they do, has been emitted. */
  ghost predicate PairCovered(lines: seq<Line>, keys: seq<Triple>, cur: int, tri: bool, mode: int, x: Line, y: Line) {
    y.target >= 0 && AllowsBoth(tri, mode, x.lower) && Matched(x.ToLabel(), y.ToLabel()).Some? ==>
      Emitted(lines, keys, cur, Matched(x.ToLabel(), y.ToLabel()).value, Triple(x.target, y.target, 0))
  }

  /** All pairs of `x` with one of the lines listed. */
  ghost predicate ListCovered(lines: seq<Line>, keys: seq<Triple>, cur: int, tri: bool, mode: int, x: Line,
                              b: seq<Line>, ks: seq<int>) {
    forall c :: 0 <= c < |ks| && 0 <= ks[c] < |b| ==> PairCovered(lines, keys, cur, tri, mode, x, b[ks[c]])
  }

  /** All pairs of one of the lines `alo..i` of `a` with one of the lines `blo..bhi` of `b`. */
  ghost predicate BothCovered(lines: seq<Line>, keys: seq<Triple>, cur: int, tri: bool, mode: int, a: seq<Line>,
                              alo: int, i: int, b: seq<Line>, blo: int, bhi: int)
    requires 0 <= alo <= i <= |a| && 0 <= blo <= bhi <= |b|
  {
    forall h, k :: alo <= h < i && blo <= k < bhi && a[h].target >= 0 ==>
                   PairCovered(lines, keys, cur, tri, mode, a[h], b[k])
  }

  ghost predicate UpperCovered(lines: seq<Line>, keys: seq<Triple>, cur: int, tri: bool, mode: int, a: seq<Line>,
                               alo: int, i: int, q: int)
    requires 0 <= alo <= i <= |a|
  {
    AllowsUpper(tri, mode) ==>
      forall h :: alo <= h < i && a[h].target >= 0 && a[h].lower == EPSILON ==>
                    Emitted(lines, keys, cur, a[h].ToLabel(), Triple(a[h].target, q, UpperMode(tri)))
  }

  ghost predicate LowerCovered(lines: seq<Line>, keys: seq<Triple>, cur: int, tri: bool, mode: int, p: int,
                               b: seq<Line>, blo: int, i: int)
    requires 0 <= blo <= i <= |b|
  {
    AllowsLower(tri, mode) ==>
      forall k :: blo <= k < i && b[k].target >= 0 && b[k].upper == EPSILON ==>
                    Emitted(lines, keys, cur, b[k].ToLabel(), Triple(p, b[k].target, LowerMode(tri)))
  }

  lemma PairKept(lines: seq<Line>, keys: seq<Triple>, cur: int, tri: bool, mode: int, x: Line, y: Line,
                 lines': seq<Line>, keys': seq<Triple>)
    requires PairCovered(lines, keys, cur, tri, mode, x, y) && lines <= lines' && keys <= keys'
    ensures PairCovered(lines', keys', cur, tri, mode, x, y)
  {
    if y.target >= 0 && AllowsBoth(tri, mode, x.lower) && Matched(x.ToLabel(), y.ToLabel()).Some? {
      EmittedKept(lines, keys, cur, Matched(x.ToLabel(), y.ToLabel()).value, Triple(x.target, y.target, 0), lines',
                  keys');
    }
  }

  lemma ListKept(lines: seq<Line>, keys: seq<Triple>, cur: int, tri: bool, mode: int, x: Line, b: seq<Line>,
                 ks: seq<int>, lines': seq<Line>, keys': seq<Triple>)
    requires ListCovered(lines, keys, cur, tri, mode, x, b, ks) && lines <= lines' && keys <= keys'
    ensures ListCovered(lines', keys', cur, tri, mode, x, b, ks)
  {
    forall c | 0 <= c < |ks| && 0 <= ks[c] < |b| ensures PairCovered(lines', keys', cur, tri, mode, x, b[ks[c]]) {
      PairKept(lines, keys, cur, tri, mode, x, b[ks[c]], lines', keys');
    }
  }

  lemma BothKept(lines: seq<Line>, keys: seq<Triple>, cur: int, tri: bool, mode: int, a: seq<Line>, alo: int, i: int,
                 b: seq<Line>, blo: int, bhi: int,
                 lines': seq<Line>, keys': seq<Triple>)
    requires 0 <= alo <= i <= |a| && 0 <= blo <= bhi <= |b| && lines <= lines' && keys <= keys'
    requires BothCovered(lines, keys, cur, tri, mode, a, alo, i, b, blo, bhi)
    ensures BothCovered(lines', keys', cur, tri, mode, a, alo, i, b, blo, bhi)
  {
    forall h, k | alo <= h < i && blo <= k < bhi && a[h].target >= 0
      ensures PairCovered(lines', keys', cur, tri, mode, a[h], b[k])
    {
      PairKept(lines, keys, cur, tri, mode, a[h], b[k], lines', keys');
    }
  }

  lemma UpperKept(lines: seq<Line>, keys: seq<Triple>, cur: int, tri: bool, mode: int, a: seq<Line>, alo: int, i: int,
                  q: int,
                  lines': seq<Line>, keys': seq<Triple>)
    requires 0 <= alo <= i <= |a| && lines <= lines' && keys <= keys'
    requires UpperCovered(lines, keys, cur, tri, mode, a, alo, i, q)
    ensures UpperCovered(lines', keys', cur, tri, mode, a, alo, i, q)
  {
    forall h | AllowsUpper(tri, mode) && alo <= h < i && a[h].target >= 0 && a[h].lower == EPSILON
      ensures Emitted(lines', keys', cur, a[h].ToLabel(), Triple(a[h].target, q, UpperMode(tri)))
    {
      EmittedKept(lines, keys, cur, a[h].ToLabel(), Triple(a[h].target, q, UpperMode(tri)), lines', keys');
    }
  }

  lemma LowerKept(lines: seq<Line>, keys: seq<Triple>, cur: int, tri: bool, mode: int, p: int, b: seq<Line>, blo: int,
                  i: int,
                  lines': seq<Line>, keys': seq<Triple>)
    requires 0 <= blo <= i <= |b| && lines <= lines' && keys <= keys'
    requires LowerCovered(lines, keys, cur, tri, mode, p, b, blo, i)
    ensures LowerCovered(lines', keys', cur, tri, mode, p, b, blo, i)
  {
    forall k | AllowsLower(tri, mode) && blo <= k < i && b[k].target >= 0 && b[k].upper == EPSILON
      ensures Emitted(lines', keys', cur, b[k].ToLabel(), Triple(p, b[k].target, LowerMode(tri)))
    {
      EmittedKept(lines, keys, cur, b[k].ToLabel(), Triple(p, b[k].target, LowerMode(tri)), lines', keys');
    }
  }

  /** A line outside the row of `x` does not match it. */
  lemma OtherRowsDontMatch(x: Label, y: Label)
    requires RowOf(x.lower) != RowOf(y.upper)
    ensures Matched(x, y) == None
  {
  }

  /** Scanning the row of `x` considers all lines of the state. */
  lemma RowCovers(lines: seq<Line>, keys: seq<Triple>, cur: int, tri: bool, mode: int, a: seq<Line>, i: int,
                  b: seq<Line>, blo: int, bhi: int)
    requires 0 <= i < |a| && 0 <= blo <= bhi <= |b|
    requires ListCovered(lines, keys, cur, tri, mode, a[i], b, RowLines(b, blo, bhi, RowOf(a[i].lower)))
    ensures BothCovered(lines, keys, cur, tri, mode, a, i, i + 1, b, blo, bhi)
  {
    forall k | blo <= k < bhi ensures PairCovered(lines, keys, cur, tri, mode, a[i], b[k]) {
      if b[k].target >= 0 {
        if RowOf(a[i].lower) == RowOf(b[k].upper) {
          var c := RowLinesComplete(b, blo, bhi, RowOf(a[i].lower), k);
        } else {
          OtherRowsDontMatch(a[i].ToLabel(), b[k].ToLabel());
        }
      }
    }
  }

  /** The three kinds of moves together are all product arcs of the current state. */
  lemma AllMovesCovered(lines: seq<Line>, keys: seq<Triple>, cur: int, tri: bool, mode: int, a: seq<Line>, p: int,
                        alo: int, ahi: int,
                        b: seq<Line>, q: int, blo: int, bhi: int)
    requires 0 <= cur < |keys| && keys[cur] == Triple(p, q, mode)
    requires Block(a, p, alo, ahi) && Block(b, q, blo, bhi)
    requires BothCovered(lines, keys, cur, tri, mode, a, alo, ahi, b, blo, bhi)
    requires UpperCovered(lines, keys, cur, tri, mode, a, alo, ahi, q)
    requires LowerCovered(lines, keys, cur, tri, mode, p, b, blo, bhi)
    ensures AllEmitted(lines, keys, Composed(tri, MachineOf(a), MachineOf(b)), cur)
  {
    hide Emitted, Matched;
    var m1, m2 := MachineOf(a), MachineOf(b);
    forall l, t | Arc(keys[cur], l, t) in Composed(tri, m1, m2).arcs ensures Emitted(lines, keys, cur, l, t) {
      assert ComposedArc(tri, m1, m2, Arc(keys[cur], l, t));
      if BothMove(tri, m1, m2, keys[cur], l, t) {
        var x, y :| BothMoveOn(tri, m1, m2, keys[cur], l, t, x, y);
        var h := ArcInBlock(a, p, alo, ahi, x, t.a);
        var k := ArcInBlock(b, q, blo, bhi, y, t.b);
        assert PairCovered(lines, keys, cur, tri, mode, a[h], b[k]);
      } else if UpperMove(tri, m1, keys[cur], l, t) {
        var h := ArcInBlock(a, p, alo, ahi, l, t.a);
      } else {
        var k := ArcInBlock(b, q, blo, bhi, l, t.b);
      }
    }
  }

  // ----- Emitting the arcs of one product state -----

  lemma BothMoveArc(tri: bool, a: seq<Line>, i: int, b: seq<Line>, k: int, s: Triple, l: Label, t: Triple)
    requires 0 <= i < |a| && 0 <= k < |b| && a[i].target >= 0 && b[k].target >= 0
    requires s.a == a[i].state && s.b == b[k].state && t == Triple(a[i].target, b[k].target, 0)
    requires AllowsBoth(tri, s.c, a[i].lower) && Matched(a[i].ToLabel(), b[k].ToLabel()) == Some(l)
    ensures Arc(s, l, t) in Composed(tri, MachineOf(a), MachineOf(b)).arcs
  {
    LineIsArc(a, i);
    LineIsArc(b, k);
    assert BothMoveOn(tri, MachineOf(a), MachineOf(b), s, l, t, a[i].ToLabel(), b[k].ToLabel());
    assert ComposedArc(tri, MachineOf(a), MachineOf(b), Arc(s, l, t));
  }

  /** Combines an upper arc with one entry of its row. */
  method MatchEntry(pb: ProductBuilder, tri: bool, mode: int, a: seq<Line>, na: nat, i: int, entry: OutEntry,
                    ghost b: seq<Line>, ghost nb: nat, ghost k: int)
    requires pb.Building() && pb.prod == Composed(tri, MachineOf(a), MachineOf(b))
    requires WellFormed(a, na) && 0 <= i < |a| && WellFormed(b, nb) && 0 <= k < |b|
    requires SymbolsUpTo(a, pb.builder.slookup.Length0 - 1) && SymbolsUpTo(b, pb.builder.slookup.Length0 - 1)
    requires pb.th.keys[pb.cur] == Triple(a[i].state, b[k].state, mode)
    requires a[i].target >= 0 && b[k].target >= 0
    requires entry.symin == b[k].upper && entry.symout == b[k].lower && entry.target == b[k].target
    modifies pb`stack, pb`nums, pb`pending, pb.th, pb.th.triplets, pb.builder, pb.builder.slookup
    ensures pb.Building() && (pb.th.triplets == old(pb.th.triplets) || fresh(pb.th.triplets))
    ensures old(pb.th.keys) <= pb.th.keys && old(pb.builder.lines) <= pb.builder.lines
    ensures PairCovered(pb.builder.lines, pb.th.keys, pb.cur, tri, mode, a[i], b[k])
  {
    hide Emitted, StackOk, Follows, Finished, Numbered, TripletHash.Valid, NetBuilder.Valid, Composed;
    assert LineOk(a[i], na) && LineOk(b[k], nb) && a[i] in a && b[k] in b;
    var ain, aout, bin, bout := a[i].upper, a[i].lower, entry.symin, entry.symout;
    if aout == IDENTITY && bin == UNKNOWN {
      ain, aout := UNKNOWN, UNKNOWN;
    } else if aout == UNKNOWN && bin == IDENTITY {
      bin, bout := UNKNOWN, UNKNOWN;
    }
    var t := Triple(a[i].target, entry.target, 0);
    if !tri {
      if bin == aout && bin != -1 && bin != EPSILON {
        BothMoveArc(tri, a, i, b, k, pb.th.keys[pb.cur], Label(ain, bout), t);
        pb.Emit(ain, bout, t);
      }
    } else {
      if bin == aout && bin != -1 && (bin != EPSILON || mode == 0) {
        BothMoveArc(tri, a, i, b, k, pb.th.keys[pb.cur], Label(ain, bout), t);
        pb.Emit(ain, bout, t);
      }
    }
  }

  /** Combines an upper arc with every lower arc of its row. */
  method ScanRow(pb: ProductBuilder, out: array2<OutEntry>, tails: array<int>, round: nat, tri: bool, mode: int,
                 a: seq<Line>, na: nat, i: int, ghost b: seq<Line>, ghost nb: nat, ghost q: int, ghost blo: int,
                 ghost bhi: int)
    requires pb.Building() && pb.prod == Composed(tri, MachineOf(a), MachineOf(b))
    requires WellFormed(a, na) && 0 <= i < |a| && WellFormed(b, nb) && Block(b, q, blo, bhi)
    requires SymbolsUpTo(a, pb.builder.slookup.Length0 - 1) && SymbolsUpTo(b, pb.builder.slookup.Length0 - 1)
    requires out.Length0 == pb.builder.slookup.Length0 && Indexed(out, tails, round, b, blo, bhi)
    requires pb.th.keys[pb.cur] == Triple(a[i].state, q, mode) && a[i].target >= 0
    modifies pb`stack, pb`nums, pb`pending, pb.th, pb.th.triplets, pb.builder, pb.builder.slookup
    ensures pb.Building() && (pb.th.triplets == old(pb.th.triplets) || fresh(pb.th.triplets))
    ensures old(pb.th.keys) <= pb.th.keys && old(pb.builder.lines) <= pb.builder.lines
    ensures BothCovered(pb.builder.lines, pb.th.keys, pb.cur, tri, mode, a, i, i + 1, b, blo, bhi)
  {
    hide Emitted, StackOk, Follows, Finished, Numbered, TripletHash.Valid, NetBuilder.Valid, Composed, PairCovered,
         ListCovered, RowLines,
         BothCovered, Indexed, WellFormed, SymbolsUpTo, Below;
    LineInRange(a, na, pb.builder.slookup.Length0 - 1, i);
    var asearch := if a[i].lower == IDENTITY then UNKNOWN else a[i].lower;
    ghost var ks := RowLines(b, blo, bhi, asearch);
    RowAt(out, tails, round, b, blo, bhi, asearch);
    var iptr := 0;
    var currtail := tails[asearch] + 1;
    NothingListed(pb.builder.lines, pb.th.keys, pb.cur, tri, mode, a[i], b, ks);
    while iptr != currtail && out[asearch, iptr].mainloop == round
      invariant 0 <= iptr <= |ks|
      invariant pb.Building() && (pb.th.triplets == old(pb.th.triplets) || fresh(pb.th.triplets))
      invariant old(pb.th.keys) <= pb.th.keys && old(pb.builder.lines) <= pb.builder.lines
      invariant RowOk(Row(out, asearch), tails[asearch], round, b, ks) && currtail == tails[asearch] + 1
      invariant ListCovered(pb.builder.lines, pb.th.keys, pb.cur, tri, mode, a[i], b, ks[..iptr])
      decreases |ks| - iptr
    {
      ghost var lines, keys := pb.builder.lines, pb.th.keys;
      assert Row(out, asearch)[iptr] == out[asearch, iptr];
      assert InRow(b[ks[iptr]], asearch);
      MatchEntry(pb, tri, mode, a, na, i, out[asearch, iptr], b, nb, ks[iptr]);
      ListKept(lines, keys, pb.cur, tri, mode, a[i], b, ks[..iptr], pb.builder.lines, pb.th.keys);
      OneMoreListed(pb.builder.lines, pb.th.keys, pb.cur, tri, mode, a[i], b, ks, iptr);
      iptr := iptr + 1;
    }
    assert iptr == |ks|;
    assert ks[..iptr] == ks;
    RowCovers(pb.builder.lines, pb.th.keys, pb.cur, tri, mode, a, i, b, blo, bhi);
  }

  lemma RowAt(out: array2<OutEntry>, tails: array<int>, round: nat, b: seq<Line>, lo: int, hi: int, r: int)
    requires 0 <= lo <= hi <= |b| && Indexed(out, tails, round, b, lo, hi) && 0 <= r < out.Length0
    ensures tails.Length == out.Length0 && RowOk(Row(out, r), tails[r], round, b, RowLines(b, lo, hi, r))
  {
  }

  lemma NothingListed(lines: seq<Line>, keys: seq<Triple>, cur: int, tri: bool, mode: int, x: Line, b: seq<Line>,
                      ks: seq<int>)
    ensures ListCovered(lines, keys, cur, tri, mode, x, b, ks[..0])
  {
  }

  lemma OneMoreListed(lines: seq<Line>, keys: seq<Triple>, cur: int, tri: bool, mode: int, x: Line, b: seq<Line>,
                      ks: seq<int>, c: int)
    requires 0 <= c < |ks| && 0 <= ks[c] < |b|
    requires ListCovered(lines, keys, cur, tri, mode, x, b, ks[..c])
             && PairCovered(lines, keys, cur, tri, mode, x, b[ks[c]])
    ensures ListCovered(lines, keys, cur, tri, mode, x, b, ks[..c + 1])
  {
    forall d | 0 <= d < c && 0 <= ks[d] < |b| ensures PairCovered(lines, keys, cur, tri, mode, x, b[ks[d]]) {
      assert ks[..c][d] == ks[d];
    }
  }

  /** First pass over the upper net's lines: both nets move. */
  method FollowBoth(pb: ProductBuilder, out: array2<OutEntry>, tails: array<int>, round: nat, tri: bool, mode: int,
                    a: seq<Line>, na: nat, p: int, pointer: StatePointer,
                    ghost b: seq<Line>, ghost nb: nat, ghost q: int, ghost blo: int, ghost bhi: int)
                      returns (ghost ahi: int)
    requires pb.Building() && pb.prod == Composed(tri, MachineOf(a), MachineOf(b))
    requires WellFormed(a, na) && PointsAt(pointer, a, p) && WellFormed(b, nb) && Block(b, q, blo, bhi)
    requires SymbolsUpTo(a, pb.builder.slookup.Length0 - 1) && SymbolsUpTo(b, pb.builder.slookup.Length0 - 1)
    requires out.Length0 == pb.builder.slookup.Length0 && Indexed(out, tails, round, b, blo, bhi)
    requires pb.th.keys[pb.cur] == Triple(p, q, mode)
    modifies pb`stack, pb`nums, pb`pending, pb.th, pb.th.triplets, pb.builder, pb.builder.slookup
    ensures pb.Building() && (pb.th.triplets == old(pb.th.triplets) || fresh(pb.th.triplets))
    ensures old(pb.th.keys) <= pb.th.keys && old(pb.builder.lines) <= pb.builder.lines
    ensures Block(a, p, pointer.transitions, ahi)
    ensures BothCovered(pb.builder.lines, pb.th.keys, pb.cur, tri, mode, a, pointer.transitions, ahi, b, blo, bhi)
  {
    hide Emitted, StackOk, Follows, Finished, Numbered, TripletHash.Valid, NetBuilder.Valid, Composed, WellFormed,
         SymbolsUpTo, Indexed, BothCovered;
    var i := pointer.transitions;
    BothNone(pb.builder.lines, pb.th.keys, pb.cur, tri, mode, a, i, b, blo, bhi);
    while i < |a| && a[i].state == p
      invariant pointer.transitions <= i <= |a|
      invariant forall k :: pointer.transitions <= k < i ==> a[k].state == p
      invariant pb.Building() && (pb.th.triplets == old(pb.th.triplets) || fresh(pb.th.triplets))
      invariant old(pb.th.keys) <= pb.th.keys && old(pb.builder.lines) <= pb.builder.lines
      invariant pb.th.keys[pb.cur] == Triple(p, q, mode) && Indexed(out, tails, round, b, blo, bhi)
      invariant BothCovered(pb.builder.lines, pb.th.keys, pb.cur, tri, mode, a, pointer.transitions, i, b, blo, bhi)
    {
      ghost var lines, keys := pb.builder.lines, pb.th.keys;
      if a[i].lower >= 0 {
        HasArc(a, na, i);
        ScanRow(pb, out, tails, round, tri, mode, a, na, i, b, nb, q, blo, bhi);
      } else {
        BothArcless(lines, keys, pb.cur, tri, mode, a, na, i, b, blo, bhi);
      }
      BothKept(lines, keys, pb.cur, tri, mode, a, pointer.transitions, i, b, blo, bhi, pb.builder.lines, pb.th.keys);
      BothStep(pb.builder.lines, pb.th.keys, pb.cur, tri, mode, a, pointer.transitions, i, b, blo, bhi);
      i := i + 1;
    }
    ScannedBlock(a, na, p, pointer, i);
    ahi := i;
  }

  lemma BothNone(lines: seq<Line>, keys: seq<Triple>, cur: int, tri: bool, mode: int, a: seq<Line>, i: int,
                 b: seq<Line>, blo: int, bhi: int)
    requires 0 <= i <= |a| && 0 <= blo <= bhi <= |b|
    ensures BothCovered(lines, keys, cur, tri, mode, a, i, i, b, blo, bhi)
  {
  }

  lemma HasArc(a: seq<Line>, na: nat, i: int)
    requires WellFormed(a, na) && 0 <= i < |a|
    ensures a[i].lower >= 0 <==> a[i].target >= 0
    ensures a[i].upper >= 0 <==> a[i].target >= 0
  {
    assert LineOk(a[i], na);
  }

  lemma BothArcless(lines: seq<Line>, keys: seq<Triple>, cur: int, tri: bool, mode: int, a: seq<Line>, na: nat, i: int,
                    b: seq<Line>, blo: int, bhi: int)
    requires WellFormed(a, na) && 0 <= i < |a| && 0 <= blo <= bhi <= |b| && a[i].lower < 0
    ensures BothCovered(lines, keys, cur, tri, mode, a, i, i + 1, b, blo, bhi)
  {
    assert LineOk(a[i], na);
  }

  lemma BothStep(lines: seq<Line>, keys: seq<Triple>, cur: int, tri: bool, mode: int, a: seq<Line>, alo: int, i: int,
                 b: seq<Line>, blo: int, bhi: int)
    requires 0 <= alo <= i < |a| && 0 <= blo <= bhi <= |b|
    requires BothCovered(lines, keys, cur, tri, mode, a, alo, i, b, blo, bhi)
    requires BothCovered(lines, keys, cur, tri, mode, a, i, i + 1, b, blo, bhi)
    ensures BothCovered(lines, keys, cur, tri, mode, a, alo, i + 1, b, blo, bhi)
  {
  }

  lemma UpperMoveArc(tri: bool, a: seq<Line>, i: int, m2: Machine<int>, s: Triple)
    requires 0 <= i < |a| && a[i].target >= 0 && a[i].lower == EPSILON && s.a == a[i].state && AllowsUpper(tri, s.c)
    ensures Arc(s, a[i].ToLabel(), Triple(a[i].target, s.b, UpperMode(tri))) in Composed(tri, MachineOf(a), m2).arcs
  {
    LineIsArc(a, i);
    assert UpperMove(tri, MachineOf(a), s, a[i].ToLabel(), Triple(a[i].target, s.b, UpperMode(tri)));
  }

  lemma LowerMoveArc(tri: bool, m1: Machine<int>, b: seq<Line>, k: int, s: Triple)
    requires 0 <= k < |b| && b[k].target >= 0 && b[k].upper == EPSILON && s.b == b[k].state && AllowsLower(tri, s.c)
    ensures Arc(s, b[k].ToLabel(), Triple(s.a, b[k].target, LowerMode(tri))) in Composed(tri, m1, MachineOf(b)).arcs
  {
    LineIsArc(b, k);
    assert LowerMove(tri, MachineOf(b), s, b[k].ToLabel(), Triple(s.a, b[k].target, LowerMode(tri)));
  }

  /** Second pass: arcs of the upper net whose output is EPSILON. */
  method FollowUpper(pb: ProductBuilder, tri: bool, mode: int, a: seq<Line>, na: nat, p: int, pointer: StatePointer,
                     ghost b: seq<Line>, q: int) returns (ghost ahi: int)
    requires pb.Building() && pb.prod == Composed(tri, MachineOf(a), MachineOf(b))
    requires WellFormed(a, na) && PointsAt(pointer, a, p)
    requires SymbolsUpTo(a, pb.builder.slookup.Length0 - 1)
    requires pb.th.keys[pb.cur] == Triple(p, q, mode)
    modifies pb`stack, pb`nums, pb`pending, pb.th, pb.th.triplets, pb.builder, pb.builder.slookup
    ensures pb.Building() && (pb.th.triplets == old(pb.th.triplets) || fresh(pb.th.triplets))
    ensures old(pb.th.keys) <= pb.th.keys && old(pb.builder.lines) <= pb.builder.lines
    ensures Block(a, p, pointer.transitions, ahi)
    ensures UpperCovered(pb.builder.lines, pb.th.keys, pb.cur, tri, mode, a, pointer.transitions, ahi, q)
  {
    hide Emitted, StackOk, Follows, Finished, Numbered, TripletHash.Valid, NetBuilder.Valid, Composed, WellFormed,
         SymbolsUpTo, Indexed, UpperCovered;
    var i := pointer.transitions;
    UpperNone(pb.builder.lines, pb.th.keys, pb.cur, tri, mode, a, i, q);
    while i < |a| && a[i].state == p
      invariant pointer.transitions <= i <= |a|
      invariant forall k :: pointer.transitions <= k < i ==> a[k].state == p
      invariant pb.Building() && (pb.th.triplets == old(pb.th.triplets) || fresh(pb.th.triplets))
      invariant old(pb.th.keys) <= pb.th.keys && old(pb.builder.lines) <= pb.builder.lines
      invariant pb.th.keys[pb.cur] == Triple(p, q, mode)
      invariant UpperCovered(pb.builder.lines, pb.th.keys, pb.cur, tri, mode, a, pointer.transitions, i, q)
    {
      ghost var lines, keys := pb.builder.lines, pb.th.keys;
      if a[i].lower == EPSILON && (if tri then mode != 2 else mode == 0) {
        HasArc(a, na, i);
        UpperMoveArc(tri, a, i, MachineOf(b), pb.th.keys[pb.cur]);
        LineInRange(a, na, pb.builder.slookup.Length0 - 1, i);
        pb.Emit(a[i].upper, EPSILON, Triple(a[i].target, q, if tri then 1 else 0));
      }
      UpperKept(lines, keys, pb.cur, tri, mode, a, pointer.transitions, i, q, pb.builder.lines, pb.th.keys);
      UpperStep(pb.builder.lines, pb.th.keys, pb.cur, tri, mode, a, pointer.transitions, i, q);
      i := i + 1;
    }
    ScannedBlock(a, na, p, pointer, i);
    ahi := i;
  }

  lemma UpperNone(lines: seq<Line>, keys: seq<Triple>, cur: int, tri: bool, mode: int, a: seq<Line>, i: int, q: int)
    requires 0 <= i <= |a|
    ensures UpperCovered(lines, keys, cur, tri, mode, a, i, i, q)
  {
  }

  lemma UpperStep(lines: seq<Line>, keys: seq<Triple>, cur: int, tri: bool, mode: int, a: seq<Line>, alo: int, i: int,
                  q: int)
    requires 0 <= alo <= i < |a|
    requires UpperCovered(lines, keys, cur, tri, mode, a, alo, i, q)
    requires a[i].target >= 0 && a[i].lower == EPSILON && AllowsUpper(tri, mode) ==>
               Emitted(lines, keys, cur, Label(a[i].upper, EPSILON), Triple(a[i].target, q, UpperMode(tri)))
    ensures UpperCovered(lines, keys, cur, tri, mode, a, alo, i + 1, q)
  {
  }

  /** Third pass: arcs of the lower net whose input is EPSILON. */
  method FollowLower(pb: ProductBuilder, tri: bool, mode: int, ghost a: seq<Line>, p: int,
                     b: seq<Line>, nb: nat, q: int, pointer: StatePointer) returns (ghost bhi: int)
    requires pb.Building() && pb.prod == Composed(tri, MachineOf(a), MachineOf(b))
    requires WellFormed(b, nb) && PointsAt(pointer, b, q)
    requires SymbolsUpTo(b, pb.builder.slookup.Length0 - 1)
    requires pb.th.keys[pb.cur] == Triple(p, q, mode)
    modifies pb`stack, pb`nums, pb`pending, pb.th, pb.th.triplets, pb.builder, pb.builder.slookup
    ensures pb.Building() && (pb.th.triplets == old(pb.th.triplets) || fresh(pb.th.triplets))
    ensures old(pb.th.keys) <= pb.th.keys && old(pb.builder.lines) <= pb.builder.lines
    ensures Block(b, q, pointer.transitions, bhi)
    ensures LowerCovered(pb.builder.lines, pb.th.keys, pb.cur, tri, mode, p, b, pointer.transitions, bhi)
  {
    hide Emitted, StackOk, Follows, Finished, Numbered, TripletHash.Valid, NetBuilder.Valid, Composed, WellFormed,
         SymbolsUpTo, Indexed, LowerCovered;
    var i := pointer.transitions;
    LowerNone(pb.builder.lines, pb.th.keys, pb.cur, tri, mode, p, b, i);
    while i < |b| && b[i].state == q
      invariant pointer.transitions <= i <= |b|
      invariant forall k :: pointer.transitions <= k < i ==> b[k].state == q
      invariant pb.Building() && (pb.th.triplets == old(pb.th.triplets) || fresh(pb.th.triplets))
      invariant old(pb.th.keys) <= pb.th.keys && old(pb.builder.lines) <= pb.builder.lines
      invariant pb.th.keys[pb.cur] == Triple(p, q, mode)
      invariant LowerCovered(pb.builder.lines, pb.th.keys, pb.cur, tri, mode, p, b, pointer.transitions, i)
    {
      ghost var lines, keys := pb.builder.lines, pb.th.keys;
      if b[i].upper == EPSILON && (!tri || mode != 1) {
        HasArc(b, nb, i);
        LowerMoveArc(tri, MachineOf(a), b, i, pb.th.keys[pb.cur]);
        LineInRange(b, nb, pb.builder.slookup.Length0 - 1, i);
        pb.Emit(EPSILON, b[i].lower, Triple(p, b[i].target, if tri then 2 else 1));
      }
      LowerKept(lines, keys, pb.cur, tri, mode, p, b, pointer.transitions, i, pb.builder.lines, pb.th.keys);
      LowerStep(pb.builder.lines, pb.th.keys, pb.cur, tri, mode, p, b, pointer.transitions, i);
      i := i + 1;
    }
    ScannedBlock(b, nb, q, pointer, i);
    bhi := i;
  }

  lemma LowerNone(lines: seq<Line>, keys: seq<Triple>, cur: int, tri: bool, mode: int, p: int, b: seq<Line>, i: int)
    requires 0 <= i <= |b|
    ensures LowerCovered(lines, keys, cur, tri, mode, p, b, i, i)
  {
  }

  lemma LowerStep(lines: seq<Line>, keys: seq<Triple>, cur: int, tri: bool, mode: int, p: int, b: seq<Line>, blo: int,
                  i: int)
    requires 0 <= blo <= i < |b|
    requires LowerCovered(lines, keys, cur, tri, mode, p, b, blo, i)
    requires b[i].target >= 0 && b[i].upper == EPSILON && AllowsLower(tri, mode) ==>
               Emitted(lines, keys, cur, Label(EPSILON, b[i].lower), Triple(p, b[i].target, LowerMode(tri)))
    ensures LowerCovered(lines, keys, cur, tri, mode, p, b, blo, i + 1)
  {
  }

  /** The three passes over one product state. */
  method FollowState(pb: ProductBuilder, out: array2<OutEntry>, tails: array<int>, round: nat, tri: bool, t: Triple,
                     a: seq<Line>, na: nat, pointerA: StatePointer, b: seq<Line>, nb: nat, pointerB: StatePointer,
                     ghost bhi: int)
    requires pb.Building() && pb.prod == Composed(tri, MachineOf(a), MachineOf(b))
    requires WellFormed(a, na) && PointsAt(pointerA, a, t.a) && WellFormed(b, nb) && PointsAt(pointerB, b, t.b)
    requires SymbolsUpTo(a, pb.builder.slookup.Length0 - 1) && SymbolsUpTo(b, pb.builder.slookup.Length0 - 1)
    requires Block(b, t.b, pointerB.transitions, bhi)
    requires out.Length0 == pb.builder.slookup.Length0 && Indexed(out, tails, round, b, pointerB.transitions, bhi)
    requires pb.th.keys[pb.cur] == t
    modifies pb`stack, pb`nums, pb`pending, pb.th, pb.th.triplets, pb.builder, pb.builder.slookup
    ensures pb.Building() && (pb.th.triplets == old(pb.th.triplets) || fresh(pb.th.triplets))
    ensures old(pb.th.keys) <= pb.th.keys && old(pb.builder.lines) <= pb.builder.lines
    ensures AllEmitted(pb.builder.lines, pb.th.keys, pb.prod, pb.cur)
  {
    hide Emitted, StackOk, Follows, Finished, Numbered, TripletHash.Valid, NetBuilder.Valid, Composed, WellFormed,
         SymbolsUpTo, Indexed, BothCovered, UpperCovered, LowerCovered, AllEmitted, Block;
    ghost var alo, blo := pointerA.transitions, pointerB.transitions;
    ghost var ahi := FollowBoth(pb, out, tails, round, tri, t.c, a, na, t.a, pointerA, b, nb, t.b, blo, bhi);
    ghost var lines1, keys1 := pb.builder.lines, pb.th.keys;
    ghost var ahi2 := FollowUpper(pb, tri, t.c, a, na, t.a, pointerA, b, t.b);
    ghost var lines2, keys2 := pb.builder.lines, pb.th.keys;
    ghost var bhi2 := FollowLower(pb, tri, t.c, a, t.a, b, nb, t.b, pointerB);
    BlockEnds(a, t.a, alo, ahi, ahi2);
    BlockEnds(b, t.b, blo, bhi, bhi2);
    BothKept(lines1, keys1, pb.cur, tri, t.c, a, alo, ahi, b, blo, bhi, pb.builder.lines, pb.th.keys);
    UpperKept(lines2, keys2, pb.cur, tri, t.c, a, alo, ahi, t.b, pb.builder.lines, pb.th.keys);
    AllMovesCovered(pb.builder.lines, pb.th.keys, pb.cur, tri, t.c, a, t.a, alo, ahi, b, t.b, blo, bhi);
  }

  lemma BlockEnds(lines: seq<Line>, p: int, lo: int, hi: int, hi': int)
    requires Block(lines, p, lo, hi) && Block(lines, p, lo, hi')
    ensures hi == hi' && 0 <= lo <= hi <= |lines|
  {
    assert hi < |lines| ==> (lines[hi].state == p <==> lo <= hi < hi');
    assert hi' < |lines| ==> (lines[hi'].state == p <==> lo <= hi' < hi);
  }

  // ----- The whole construction -----

  lemma ComposedInRange(tri: bool, a: seq<Line>, na: nat, b: seq<Line>, nb: nat, e: Arc<Triple>)
    requires WellFormed(a, na) && WellFormed(b, nb)
    requires e in Composed(tri, MachineOf(a), MachineOf(b)).arcs && e.src in Universe(na, nb)
    ensures e.tgt in Universe(na, nb)
  {
    var m1, m2 := MachineOf(a), MachineOf(b);
    assert ComposedArc(tri, m1, m2, e);
    if BothMove(tri, m1, m2, e.src, e.lab, e.tgt) {
      var x, y :| BothMoveOn(tri, m1, m2, e.src, e.lab, e.tgt, x, y);
      ArcInRange(a, na, Arc(e.src.a, x, e.tgt.a));
      ArcInRange(b, nb, Arc(e.src.b, y, e.tgt.b));
    } else if UpperMove(tri, m1, e.src, e.lab, e.tgt) {
      ArcInRange(a, na, Arc(e.src.a, e.lab, e.tgt.a));
    } else {
      ArcInRange(b, nb, Arc(e.src.b, e.lab, e.tgt.b));
    }
  }

  lemma StateInRange(pb: ProductBuilder, tri: bool, a: seq<Line>, na: nat, b: seq<Line>, nb: nat)
    requires pb.Popped() && WellFormed(a, na) && WellFormed(b, nb) && pb.th.keys[0] == Triple(0, 0, 0)
    requires pb.prod == Composed(tri, MachineOf(a), MachineOf(b))
    ensures pb.done <= Universe(na, nb)
    ensures var t := pb.th.keys[pb.cur]; 0 <= t.a < na && 0 <= t.b < nb
  {
    hide TripletHash.Valid, NetBuilder.Valid, Follows, Finished, Composed, WellFormed;
    SomeState(a, na);
    SomeState(b, nb);
    assert Triple(0, 0, 0) in Universe(na, nb);
    forall e | e in pb.prod.arcs && e.src in Universe(na, nb) ensures e.tgt in Universe(na, nb) {
      ComposedInRange(tri, a, na, b, nb, e);
    }
    KeysWithin(pb.builder.lines, pb.th.keys, pb.prod, pb.done, Universe(na, nb));
    assert pb.th.keys[pb.cur] in Universe(na, nb);
  }

  lemma SomeState(a: seq<Line>, na: nat)
    requires WellFormed(a, na)
    ensures 0 < na
  {
  }

  /** One round of the main loop: a product state is taken off the stack and built. */
  method BuildState(pb: ProductBuilder, out: array2<OutEntry>, tails: array<int>, round: nat, tri: bool,
                    a: seq<Line>, na: nat, pointA: seq<StatePointer>, b: seq<Line>, nb: nat, pointB: seq<StatePointer>)
    requires pb.Idle() && pb.stack != [] && pb.th.keys[0] == Triple(0, 0, 0)
    requires pb.prod == Composed(tri, MachineOf(a), MachineOf(b))
    requires WellFormed(a, na) && PointsInto(pointA, a, na) && WellFormed(b, nb) && PointsInto(pointB, b, nb)
    requires SymbolsUpTo(a, pb.builder.slookup.Length0 - 1) && SymbolsUpTo(b, pb.builder.slookup.Length0 - 1)
    requires OneArcPerLabel(b) && IdentityPaired(b)
    requires out.Length0 == pb.builder.slookup.Length0 && out.Length1 == out.Length0 + 1
    requires 0 < round && Stale(out, tails, round - 1)
    modifies pb, pb.th, pb.th.triplets, pb.builder, pb.builder.slookup, out, tails
    ensures pb.Idle() && (pb.th.triplets == old(pb.th.triplets) || fresh(pb.th.triplets))
    ensures old(pb.th.keys) <= pb.th.keys
    ensures old(pb.done) < pb.done <= Universe(na, nb)
    ensures Stale(out, tails, round)
  {
    hide StackOk, Follows, Finished, Numbered, TripletHash.Valid, NetBuilder.Valid, WellFormed, SymbolsUpTo, Indexed,
         Stale, AllEmitted, OneArcPerLabel, IdentityPaired, PointsAt,
         Below, NoLineOf, Composed;
    var t, n := pb.Pop();
    StateInRange(pb, tri, a, na, b, nb);
    PointerFlags(a, na, t.a, pointA[t.a]);
    PointerFlags(b, nb, t.b, pointB[t.b]);
    ComposedFlags(tri, MachineOf(a), MachineOf(b), t);
    pb.Begin(n, pointA[t.a].final && pointB[t.b].final, pointA[t.a].start && pointB[t.b].start && t.c == 0);
    ghost var bhi := IndexState(out, tails, round, b, nb, t.b, pointB[t.b], out.Length0 - 1);
    FollowState(pb, out, tails, round, tri, t, a, na, pointA[t.a], b, nb, pointB[t.b], bhi);
    pb.End();
    IndexedIsStale(out, tails, round, b, pointB[t.b].transitions, bhi);
  }

  /**
   Composition, bistate or tristate. The nets are minimized and share one alphabet: both
   start in state 0, and no state of the lower net has two arcs with the same symbol pair.
   The pair strings accepted are those woven from two accepted paths that match in the middle, and
   how they are woven is what the two filters differ in. Over the open alphabet the result relates
   only what the two nets link, and all of it if no diagonal is lost. Taken letter by letter, it
   relates exactly what two such paths make; unless an output `?` meets an input `@` (or the other
   way round), that is the composition of the two relations.
   */
  method Compose(a: seq<Line>, na: nat, b: seq<Line>, nb: nat, sigmaMax: int, tristate: bool)
    returns (net: seq<Line>, count: nat, deterministic: bool)
    requires WellFormed(a, na) && WellFormed(b, nb)
    requires OneArcPerLabel(b) && IdentityPaired(b)
    requires MachineOf(a).starts == iset{0} && MachineOf(b).starts == iset{0}
    requires -1 <= sigmaMax && SymbolsUpTo(a, sigmaMax) && SymbolsUpTo(b, sigmaMax)
    ensures forall v :: AcceptsErased(MachineOf(net), v) <==> Weaves(tristate, MachineOf(a), MachineOf(b), v)
    ensures NoWildcardClash(MachineOf(a), MachineOf(b)) ==>
              forall v :: AcceptsErased(MachineOf(net), v) <==> Interleaves(tristate, MachineOf(a), MachineOf(b), v)
    ensures forall x, z :: Relates(MachineOf(net), x, z) <==> PathsMeet(MachineOf(a), MachineOf(b), x, z)
    ensures NoWildcardClash(MachineOf(a), MachineOf(b)) ==>
              forall x, z :: Relates(MachineOf(net), x, z) <==>
                               exists y :: Relates(MachineOf(a), x, y) && Relates(MachineOf(b), y, z)
    ensures forall s :: OpenComposition.SharedAlphabet(s, a, b) ==> OpenComposition.Composes(tristate, s, a, b, net)
    ensures deterministic ==> Deterministic(MachineOf(net))
    ensures WellFormed(net, count) && Orderly(net) && (forall j :: 0 < j < count ==> Introduced(net, j))
  {
    hide StackOk, Follows, Finished, Numbered, TripletHash.Valid, NetBuilder.Valid, WellFormed, SymbolsUpTo,
         OneArcPerLabel, IdentityPaired, PointsInto, RowOk, Relates, Renames, NoWildcardClash, PathsMeet, Weaves,
         Interleaves, AcceptsErased, OpenComposition.SharedAlphabet, OpenComposition.Composes;
    var max2sigma := sigmaMax;
    var index := new int[max2sigma + 1](_ => 0);
    var outarray := new OutEntry[max2sigma + 1, max2sigma + 2]((_, _) => OutEntry(0, 0, 0, 0));
    var pb := new ProductBuilder(sigmaMax, Composed(tristate, MachineOf(a), MachineOf(b)), Triple(0, 0, 0));
    var pointA := InitStatePointers(a, na);
    var pointB := InitStatePointers(b, nb);
    var mainloop := 0;
    while pb.stack != []
      invariant pb.Idle() && fresh(pb) && fresh(pb.th) && fresh(pb.th.triplets) && fresh(pb.builder)
                && fresh(pb.builder.slookup)
      invariant pb.prod == Composed(tristate, MachineOf(a), MachineOf(b)) && pb.th.keys[0] == Triple(0, 0, 0)
      invariant Stale(outarray, index, mainloop)
      decreases Universe(na, nb) - pb.done
    {
      mainloop := mainloop + 1;
      BuildState(pb, outarray, index, mainloop, tristate, a, na, pointA, b, nb, pointB);
    }
    net, count, deterministic := pb.Close();
    RenamedWeaves(tristate, MachineOf(a), MachineOf(b), MachineOf(net), pb.th.keys);
    CompositionRelation(tristate, a, b, net, pb.th.keys);
    forall s | OpenComposition.SharedAlphabet(s, a, b) ensures OpenComposition.Composes(tristate, s, a, b, net) {
      OpenComposition.ProductComposes(tristate, s, a, b, net, pb.th.keys);
    }
  }

  lemma CompositionRelation(tri: bool, a: seq<Line>, b: seq<Line>, net: seq<Line>, keys: seq<Triple>)
    requires Renames(Composed(tri, MachineOf(a), MachineOf(b)), MachineOf(net), keys)
    ensures forall x, z :: Relates(MachineOf(net), x, z) <==> PathsMeet(MachineOf(a), MachineOf(b), x, z)
    ensures NoWildcardClash(MachineOf(a), MachineOf(b)) ==>
              forall x, z :: Relates(MachineOf(net), x, z) <==>
                               exists y :: Relates(MachineOf(a), x, y) && Relates(MachineOf(b), y, z)
  {
    hide Relates, Renames, NoWildcardClash, PathsMeet;
    var m1, m2 := MachineOf(a), MachineOf(b);
    RenamingKeepsLanguage(Composed(tri, m1, m2), MachineOf(net), keys);
    forall x, z ensures Relates(MachineOf(net), x, z) <==> PathsMeet(m1, m2, x, z) {
      ComposedRelation(tri, m1, m2, x, z);
    }
    if NoWildcardClash(m1, m2) {
      forall x, z ensures Relates(MachineOf(net), x, z) <==> exists y :: Relates(m1, x, y) && Relates(m2, y, z) {
        ClashFreeRelation(tri, m1, m2, x, z);
      }
    }
  }
}
