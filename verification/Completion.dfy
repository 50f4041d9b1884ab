/**
 Completion and complement of a deterministic acceptor over a gap-free alphabet: every state
 gets an arc on every symbol, missing ones leading to a sink; complement also swaps finality.
 */
module Completion {
  import opened Automata
  import opened Trimming
  import opened Coaccessibility
  import opened NetBuilding
  import opened NetReading

  function Pair(x: int): Label {
    Label(x, x)
  }

  /** A word over the symbols from IDENTITY up to `last`. */
  predicate Over(w: seq<Label>, last: int) {
    forall i :: 0 <= i < |w| ==> w[i].upper == w[i].lower && IDENTITY <= w[i].upper <= last
  }

  ghost predicate AcceptorArc(a: Arc<int>, last: int) {
    a.lab.upper == a.lab.lower && IDENTITY <= a.lab.upper <= last
  }

  // ----- What completion means -----

  /** Exactly one arc on every symbol, for every state below `n`. */
  ghost predicate CompleteOver(m: Machine<int>, n: nat, last: int) {
    && (forall p, x :: 0 <= p < n && IDENTITY <= x <= last ==> HasMove(m, p, Pair(x)))
    && Deterministic(m)
  }

  /** A state that nothing is accepted from because all its arcs are loops. */
  ghost predicate Trap(m: Machine<int>, s: int) {
    s !in m.finals && forall a :: a in m.arcs && a.src == s ==> a.tgt == s
  }

  /** `r` is `m` with all missing arcs led to `sink`, and finality swapped if `complement`. */
  ghost predicate Completes(m: Machine<int>, r: Machine<int>, n: nat, last: int, sink: int, complement: bool) {
    && (forall a :: a in r.arcs ==> (0 <= a.src < n || a.src == sink) && AcceptorArc(a, last))
    && (forall a :: a in r.arcs && a.src < n ==> a in m.arcs || (!HasMove(m, a.src, a.lab) && a.tgt == sink))
    && (forall a :: a in r.arcs && a.src == sink ==> a.tgt == sink)
    && (forall p, x :: (0 <= p < n || p == sink) && IDENTITY <= x <= last ==> HasMove(r, p, Pair(x)))
    && (forall p :: 0 <= p < n ==> (p in r.finals <==> ((p in m.finals) != complement)))
    && (sink in r.finals <==> complement)
    && r.starts == m.starts
    && 0 <= sink <= n && (sink < n ==> Trap(m, sink))
  }

  lemma {:induction false} TrapRejects(m: Machine<int>, s: int, w: seq<Label>)
    requires Trap(m, s)
    ensures !AcceptsFrom(m, s, w)
    decreases |w|
  {
    if AcceptsFrom(m, s, w) {
      var q := AcceptingEnd(m, s, w);
      if w != [] {
        var r := ReadsHead(m, s, w, q);
        assert Arc(s, w[0], r).tgt == s;
        assert AcceptsFrom(m, s, w[1..]);
        TrapRejects(m, s, w[1..]);
      }
    }
  }

  lemma {:induction false} SinkStays(m: Machine<int>, r: Machine<int>, n: nat, last: int, sink: int, complement: bool,
                                     w: seq<Label>)
    requires Completes(m, r, n, last, sink, complement)
    ensures AcceptsFrom(r, sink, w) ==> complement
    ensures Over(w, last) && complement ==> AcceptsFrom(r, sink, w)
    decreases |w|
  {
    if w == [] {
      assert Reads(r, sink, [], sink);
      if AcceptsFrom(r, sink, []) {
        var q := AcceptingEnd(r, sink, []);
      }
    } else {
      SinkStays(m, r, n, last, sink, complement, w[1..]);
      if AcceptsFrom(r, sink, w) {
        var q := AcceptingEnd(r, sink, w);
        var s := ReadsHead(r, sink, w, q);
        assert Arc(sink, w[0], s).tgt == sink;
        assert AcceptsFrom(r, sink, w[1..]);
      }
      if Over(w, last) && complement {
        assert w[0] == Pair(w[0].upper) && HasMove(r, sink, Pair(w[0].upper));
        var s :| Arc(sink, w[0], s) in r.arcs;
        assert Arc(sink, w[0], s).tgt == sink;
        assert Over(w[1..], last);
        var q := AcceptingEnd(r, sink, w[1..]);
        ReadsCons(r, sink, w[0], sink, w[1..], q);
        assert w == [w[0]] + w[1..];
      }
    }
  }

  /** From every old state: completion keeps what is accepted, complement swaps it over the alphabet. */
  lemma {:induction false} CompletedAccepts(m: Machine<int>, r: Machine<int>, n: nat, last: int, sink: int,
                                            complement: bool, p: int, w: seq<Label>)
    requires Completes(m, r, n, last, sink, complement) && Deterministic(m) && 0 <= p < n
    requires forall a :: a in m.arcs ==> 0 <= a.tgt < n && AcceptorArc(a, last)
    requires Over(w, last)
    ensures AcceptsFrom(r, p, w) <==> (AcceptsFrom(m, p, w) != complement)
    decreases |w|
  {
    DeterministicToo(m, r, n, last, sink, complement);
    if w == [] {
      EmptyWord(m, p);
      EmptyWord(r, p);
      return;
    }
    assert w[0] == Pair(w[0].upper) && HasMove(r, p, Pair(w[0].upper));
    var t :| Arc(p, w[0], t) in r.arcs;
    var a := Arc(p, w[0], t);
    assert Over(w[1..], last);
    AfterMove(r, p, t, w);
    if p == sink {
      TrapRejects(m, p, w);
      SinkStays(m, r, n, last, sink, complement, w);
    } else if HasMove(m, p, w[0]) {
      assert a in m.arcs && a.tgt < n;
      CompletedAccepts(m, r, n, last, sink, complement, t, w[1..]);
      AfterMove(m, p, t, w);
    } else {
      assert a.tgt == sink;
      NoMove(m, p, w);
      SinkStays(m, r, n, last, sink, complement, w[1..]);
    }
  }

  lemma DeterministicToo(m: Machine<int>, r: Machine<int>, n: nat, last: int, sink: int, complement: bool)
    requires Completes(m, r, n, last, sink, complement) && Deterministic(m)
    ensures Deterministic(r)
  {
    forall a, b | a in r.arcs && b in r.arcs && a.src == b.src && a.lab == b.lab ensures a.tgt == b.tgt {
      if a.src != sink && a in m.arcs {
        assert a == Arc(b.src, b.lab, a.tgt) && Arc(b.src, b.lab, a.tgt) in m.arcs;
        MoveFound(m, b.src, b.lab, a.tgt);
      } else if a.src != sink && b in m.arcs {
        assert b == Arc(a.src, a.lab, b.tgt) && Arc(a.src, a.lab, b.tgt) in m.arcs;
        MoveFound(m, a.src, a.lab, b.tgt);
      }
    }
  }

  /** A completed net only accepts words over the alphabet. */
  lemma {:induction false} CompletedOver(m: Machine<int>, r: Machine<int>, n: nat, last: int, sink: int,
                                         complement: bool, p: int, w: seq<Label>, q: int)
    requires Completes(m, r, n, last, sink, complement) && Reads(r, p, w, q)
    ensures Over(w, last)
    decreases |w|
  {
    if w != [] {
      var s := ReadsHead(r, p, w, q);
      CompletedOver(m, r, n, last, sink, complement, s, w[1..], q);
      assert AcceptorArc(Arc(p, w[0], s), last);
      assert forall i :: 0 < i < |w| ==> w[i] == w[1..][i - 1];
    }
  }

  /** Completion keeps the language; complement is the complement over the alphabet. */
  lemma CompletionLanguage(m: Machine<int>, r: Machine<int>, n: nat, last: int, sink: int, complement: bool,
                           w: seq<Label>)
    requires Completes(m, r, n, last, sink, complement) && Deterministic(m) && m.starts == iset{0} && 0 < n
    requires forall a :: a in m.arcs ==> 0 <= a.tgt < n && AcceptorArc(a, last)
    ensures if complement then Accepts(r, w) <==> Over(w, last) && !Accepts(m, w)
            else Accepts(r, w) <==> Accepts(m, w)
  {
    AcceptsFromStart(m, w);
    AcceptsFromStart(r, w);
    if Over(w, last) {
      CompletedAccepts(m, r, n, last, sink, complement, 0, w);
    }
    if AcceptsFrom(r, 0, w) {
      var q := AcceptingEnd(r, 0, w);
      CompletedOver(m, r, n, last, sink, complement, 0, w, q);
    }
    if AcceptsFrom(m, 0, w) {
      var q := AcceptingEnd(m, 0, w);
      OriginalOver(m, last, 0, w, q);
    }
  }

  lemma {:induction false} OriginalOver(m: Machine<int>, last: int, p: int, w: seq<Label>, q: int)
    requires (forall a :: a in m.arcs ==> AcceptorArc(a, last)) && Reads(m, p, w, q)
    ensures Over(w, last)
    decreases |w|
  {
    if w != [] {
      var s := ReadsHead(m, p, w, q);
      OriginalOver(m, last, s, w[1..], q);
      assert AcceptorArc(Arc(p, w[0], s), last);
      assert forall i :: 0 < i < |w| ==> w[i] == w[1..][i - 1];
    }
  }

  // ----- Reading the net -----

  /** The original lines with finality swapped if asked for. */
  function Swapped(l: Line, complement: bool): Line {
    l.(final := l.final != complement)
  }

  /** What the scanning loop knows about state `s` after `i` lines. */
  ghost predicate StateSeen(lines: seq<Line>, i: int, s: int, complement: bool, start: bool, final: bool, sink: bool)
    requires 0 <= i <= |lines|
  {
    && (forall k :: 0 <= k < i && lines[k].state == s ==> start == lines[k].start
                                                          && final == (lines[k].final != complement))
    && (sink <==> forall k :: 0 <= k < i && lines[k].state == s ==> !lines[k].final
                                                                    && (lines[k].target == -1 || lines[k].target == s))
  }

  ghost predicate SwappedUpTo(states: seq<Line>, lines: seq<Line>, i: int, complement: bool) {
    && 0 <= i <= |lines| < |states| && states[|lines|].state == -1
    && (forall k :: 0 <= k < i ==> states[k] == Swapped(lines[k], complement))
    && (forall k :: i <= k < |lines| ==> states[k] == lines[k])
  }

  /** First loop: flags, sink candidates and arc count, swapping finality in place for complement. */
  method ScanLines(states: array<Line>, n: nat, complement: bool, ghost lines: seq<Line>)
    returns (starts: array<bool>, finals: array<bool>, sinks: array<bool>, arccount: int)
    requires WellFormed(lines, n) && SwappedUpTo(states[..], lines, 0, complement)
    modifies states
    ensures SwappedUpTo(states[..], lines, |lines|, complement)
    ensures fresh(starts) && fresh(finals) && fresh(sinks) && starts.Length == finals.Length == sinks.Length == n + 1
    ensures starts != finals && finals != sinks && starts != sinks
    ensures forall s :: 0 <= s < n ==> StateSeen(lines, |lines|, s, complement, starts[s], finals[s], sinks[s])
    ensures arccount == ArcCount(lines)
  {
    hide StateSeen, SwappedUpTo, WellFormed;
    starts := new bool[n + 1](_ => false);
    finals := new bool[n + 1](_ => false);
    sinks := new bool[n + 1](_ => true);
    arccount := 0;
    var i := 0;
    assert lines[..0] == [];
    NothingSeen(lines, complement);
    InRange(states[..], lines, 0, complement);
    while states[i].state != -1
      invariant 0 <= i <= |lines| < states.Length && SwappedUpTo(states[..], lines, i, complement)
      invariant forall s :: 0 <= s < n ==> StateSeen(lines, i, s, complement, starts[s], finals[s], sinks[s])
      invariant arccount == ArcCount(lines[..i])
      decreases |lines| - i
    {
      StillLine(states[..], lines, n, i, complement);
      ghost var before := states[..];
      if complement {
        states[i] := states[i].(final := !states[i].final);
      }
      assert states[..] == before[i := Swapped(before[i], complement)];
      SwappedMore(before, states[..], lines, i, complement);
      if states[i].target != -1 {
        arccount := arccount + 1;
      }
      assert lines[..i + 1][..i] == lines[..i];
      NoteLine(starts, finals, sinks, states[i], n, i, complement, lines);
      i := i + 1;
    }
    AllSwapped(states[..], lines, n, i, complement);
    assert lines[..i] == lines;
  }

  method NoteLine(starts: array<bool>, finals: array<bool>, sinks: array<bool>, l: Line, n: nat, ghost i: int,
                  complement: bool, ghost lines: seq<Line>)
    requires WellFormed(lines, n) && 0 <= i < |lines| && l == Swapped(lines[i], complement)
    requires starts.Length == finals.Length == sinks.Length == n + 1
    requires starts != finals && finals != sinks && starts != sinks
    requires forall s :: 0 <= s < n ==> StateSeen(lines, i, s, complement, starts[s], finals[s], sinks[s])
    modifies starts, finals, sinks
    ensures forall s :: 0 <= s < n ==> StateSeen(lines, i + 1, s, complement, starts[s], finals[s], sinks[s])
  {
    hide StateSeen, WellFormed;
    LineAt(lines, n, i);
    ghost var was := (starts[..], finals[..], sinks[..]);
    starts[l.state] := l.start;
    finals[l.state] := l.final;
    if l.final && !complement {
      sinks[l.state] := false;
    }
    if !l.final && complement {
      sinks[l.state] := false;
    }
    if l.target != -1 && l.state != l.target {
      sinks[l.state] := false;
    }
    LineSeen(lines, n, i, complement, was.0, was.1, was.2, starts[..], finals[..], sinks[..]);
  }

  lemma LineSeen(lines: seq<Line>, n: nat, i: int, complement: bool, starts: seq<bool>, finals: seq<bool>,
                 sinks: seq<bool>,
                 starts': seq<bool>, finals': seq<bool>, sinks': seq<bool>)
    requires WellFormed(lines, n) && 0 <= i < |lines| && |starts| == |finals| == |sinks| == n + 1
             && 0 <= lines[i].state < n
    requires forall s :: 0 <= s < n ==> StateSeen(lines, i, s, complement, starts[s], finals[s], sinks[s])
    requires var l := lines[i];
             && starts' == starts[l.state := l.start] && finals' == finals[l.state := l.final != complement]
             && sinks' == sinks[l.state := sinks[l.state] && !l.final && (l.target == -1 || l.target == l.state)]
    ensures forall s :: 0 <= s < n ==> StateSeen(lines, i + 1, s, complement, starts'[s], finals'[s], sinks'[s])
  {
    hide StateSeen, WellFormed;
    var p := lines[i].state;
    SameFlags(lines, n);
    SeenMore(lines, i, p, complement, starts[p], finals[p], sinks[p]);
    forall s | 0 <= s < n && s != p ensures StateSeen(lines, i + 1, s, complement, starts'[s], finals'[s], sinks'[s]) {
      OtherSeen(lines, i, s, complement, starts[s], finals[s], sinks[s]);
    }
  }

  lemma NothingSeen(lines: seq<Line>, complement: bool)
    ensures forall s :: StateSeen(lines, 0, s, complement, false, false, true)
  {
  }

  lemma InRange(states: seq<Line>, lines: seq<Line>, i: int, complement: bool)
    requires SwappedUpTo(states, lines, i, complement)
    ensures |lines| < |states|
  {
  }

  lemma StillLine(states: seq<Line>, lines: seq<Line>, n: nat, i: int, complement: bool)
    requires WellFormed(lines, n) && SwappedUpTo(states, lines, i, complement) && states[i].state != -1
    ensures i < |lines| && states[i] == lines[i] && LineOk(lines[i], n)
  {
  }

  lemma SwappedMore(before: seq<Line>, states: seq<Line>, lines: seq<Line>, i: int, complement: bool)
    requires SwappedUpTo(before, lines, i, complement) && i < |lines|
    requires states == before[i := Swapped(before[i], complement)]
    ensures SwappedUpTo(states, lines, i + 1, complement)
  {
  }

  lemma AllSwapped(states: seq<Line>, lines: seq<Line>, n: nat, i: int, complement: bool)
    requires WellFormed(lines, n) && SwappedUpTo(states, lines, i, complement) && states[i].state == -1
    ensures i == |lines|
  {
    assert i < |lines| ==> LineOk(lines[i], n);
  }

  lemma SameFlags(lines: seq<Line>, n: nat)
    requires WellFormed(lines, n)
    ensures forall j, k :: 0 <= j < k < |lines| && lines[j].state == lines[k].state ==>
                           lines[j].final == lines[k].final && lines[j].start == lines[k].start
  {
  }

  lemma SeenMore(lines: seq<Line>, i: int, s: int, complement: bool, start: bool, final: bool, sink: bool)
    requires 0 <= i < |lines| && lines[i].state == s && StateSeen(lines, i, s, complement, start, final, sink)
    requires forall j, k :: 0 <= j < k < |lines| && lines[j].state == lines[k].state ==>
                            lines[j].final == lines[k].final && lines[j].start == lines[k].start
    ensures StateSeen(lines, i + 1, s, complement, lines[i].start, lines[i].final != complement,
                      sink && !lines[i].final && (lines[i].target == -1 || lines[i].target == s))
  {
  }

  lemma OtherSeen(lines: seq<Line>, i: int, s: int, complement: bool, start: bool, final: bool, sink: bool)
    requires 0 <= i < |lines| && lines[i].state != s && StateSeen(lines, i, s, complement, start, final, sink)
    ensures StateSeen(lines, i + 1, s, complement, start, final, sink)
  {
  }

  // ----- The already-complete shortcut: counting arcs is enough -----

  ghost predicate AcceptorLines(lines: seq<Line>, last: int) {
    forall l :: l in lines && l.target >= 0 ==> l.upper == l.lower && IDENTITY <= l.upper <= last
  }

  ghost function Used(lines: seq<Line>, i: int): set<(int, int)>
    requires 0 <= i <= |lines|
  {
    if i == 0 then {}
    else Used(lines, i - 1) + (if lines[i - 1].target != -1 then {(lines[i - 1].state, lines[i - 1].upper)} else {})
  }

  lemma {:induction false} UsedElement(lines: seq<Line>, i: int, p: int, x: int)
    requires 0 <= i <= |lines|
    ensures (p, x) in Used(lines, i) <==> exists k :: 0 <= k < i && lines[k].target != -1 && lines[k].state == p
                                                      && lines[k].upper == x
    decreases i
  {
    if i != 0 {
      UsedElement(lines, i - 1, p, x);
    }
  }

  lemma ArcLineBounds(lines: seq<Line>, n: nat, last: int, k: int)
    requires WellFormed(lines, n) && AcceptorLines(lines, last) && 0 <= k < |lines| && lines[k].target != -1
    ensures 0 <= lines[k].state < n && 0 <= lines[k].target && lines[k].upper == lines[k].lower
            && IDENTITY <= lines[k].upper <= last
  {
    assert LineOk(lines[k], n) && lines[k] in lines;
  }

  /** The arc on line `i` uses a cell that no line before it does. */
  lemma FreshCell(lines: seq<Line>, n: nat, last: int, i: int)
    requires WellFormed(lines, n) && OneArcPerLabel(lines) && AcceptorLines(lines, last) && 0 <= i < |lines|
             && lines[i].target != -1
    ensures (lines[i].state, lines[i].upper) !in Used(lines, i)
  {
    hide WellFormed, AcceptorLines;
    UsedElement(lines, i, lines[i].state, lines[i].upper);
    ArcLineBounds(lines, n, last, i);
    forall k | 0 <= k < i && lines[k].target != -1 && lines[k].state == lines[i].state
      ensures lines[k].upper != lines[i].upper
    {
      ArcLineBounds(lines, n, last, k);
      assert lines[k].ToLabel() != lines[i].ToLabel();
    }
  }

  lemma {:induction false} UsedCount(lines: seq<Line>, n: nat, last: int, i: int)
    requires WellFormed(lines, n) && OneArcPerLabel(lines) && AcceptorLines(lines, last) && 0 <= i <= |lines|
    ensures |Used(lines, i)| == ArcCount(lines[..i])
    decreases i
  {
    hide WellFormed, AcceptorLines, OneArcPerLabel;
    if i != 0 {
      UsedCount(lines, n, last, i - 1);
      assert lines[..i][..i - 1] == lines[..i - 1];
      if lines[i - 1].target != -1 {
        FreshCell(lines, n, last, i - 1);
      }
    }
  }

  ghost function RowCells(p: int, last: int): (r: set<(int, int)>)
    ensures forall q, x :: (q, x) in r <==> q == p && IDENTITY <= x <= last
  {
    set x | IDENTITY <= x <= last :: (p, x)
  }

  lemma {:induction false} RowSize(p: int, last: int)
    requires last >= 1
    ensures |RowCells(p, last)| == last - 1
    decreases last
  {
    if last == 1 {
      assert RowCells(p, 1) == {};
    } else {
      RowSize(p, last - 1);
      assert RowCells(p, last) == RowCells(p, last - 1) + {(p, last)};
    }
  }

  ghost function AllCells(n: nat, last: int): (r: set<(int, int)>)
    ensures forall p, x :: (p, x) in r <==> 0 <= p < n && IDENTITY <= x <= last
  {
    if n == 0 then {} else AllCells(n - 1, last) + RowCells(n - 1, last)
  }

  lemma {:induction false} AllSize(n: nat, last: int)
    requires last >= 1
    ensures |AllCells(n, last)| == (last - 1) * n
  {
    if n != 0 {
      AllSize(n - 1, last);
      RowSize(n - 1, last);
      assert AllCells(n - 1, last) !! RowCells(n - 1, last);
      assert (last - 1) * n == (last - 1) * (n - 1) + (last - 1);
    }
  }

  lemma EqualSizeEqualSet(a: set<(int, int)>, b: set<(int, int)>)
    requires a <= b && |a| == |b|
    ensures a == b
  {
    assert b == a + (b - a);
    assert |b - a| == 0;
  }

  lemma UsedInGrid(lines: seq<Line>, n: nat, last: int)
    requires WellFormed(lines, n) && AcceptorLines(lines, last)
    ensures Used(lines, |lines|) <= AllCells(n, last)
  {
    hide WellFormed, AcceptorLines;
    forall c | c in Used(lines, |lines|) ensures c in AllCells(n, last) {
      assert c == (c.0, c.1);
      UsedElement(lines, |lines|, c.0, c.1);
      var k :| 0 <= k < |lines| && lines[k].target != -1 && lines[k].state == c.0 && lines[k].upper == c.1;
      ArcLineBounds(lines, n, last, k);
    }
  }

  lemma UsedMoves(lines: seq<Line>, n: nat, last: int, p: int, x: int)
    requires WellFormed(lines, n) && AcceptorLines(lines, last) && (p, x) in Used(lines, |lines|)
    ensures HasMove(MachineOf(lines), p, Pair(x))
  {
    hide WellFormed, AcceptorLines;
    UsedElement(lines, |lines|, p, x);
    var k :| 0 <= k < |lines| && lines[k].target != -1 && lines[k].state == p && lines[k].upper == x;
    ArcLineBounds(lines, n, last, k);
    LineIsArc(lines, k);
    MoveFound(MachineOf(lines), p, Pair(x), lines[k].target);
  }

  /** As many arcs as states times symbols: nothing is missing. */
  lemma CountMeansComplete(lines: seq<Line>, n: nat, last: int)
    requires WellFormed(lines, n) && OneArcPerLabel(lines) && AcceptorLines(lines, last) && last >= 1
    requires ArcCount(lines) == (last - 1) * n
    ensures forall p, x :: 0 <= p < n && IDENTITY <= x <= last ==> HasMove(MachineOf(lines), p, Pair(x))
  {
    hide WellFormed, AcceptorLines, OneArcPerLabel, HasMove;
    UsedCount(lines, n, last, |lines|);
    assert lines[..|lines|] == lines;
    AllSize(n, last);
    UsedInGrid(lines, n, last);
    EqualSizeEqualSet(Used(lines, |lines|), AllCells(n, last));
    forall p, x | 0 <= p < n && IDENTITY <= x <= last ensures HasMove(MachineOf(lines), p, Pair(x)) {
      assert (p, x) in AllCells(n, last);
      UsedMoves(lines, n, last, p, x);
    }
  }

  /** Finality swapped if asked for, everything else as it was. */
  ghost predicate Toggles(m: Machine<int>, r: Machine<int>, n: nat, complement: bool) {
    && r.arcs == m.arcs && r.starts == m.starts
    && forall p :: 0 <= p < n ==> (p in r.finals <==> ((p in m.finals) != complement))
  }

  lemma {:induction false} ToggledAccepts(m: Machine<int>, r: Machine<int>, n: nat, last: int, complement: bool, p: int,
                                          w: seq<Label>)
    requires Toggles(m, r, n, complement) && Deterministic(m) && 0 <= p < n
    requires forall a :: a in m.arcs ==> 0 <= a.tgt < n
    requires forall q, x :: 0 <= q < n && IDENTITY <= x <= last ==> HasMove(m, q, Pair(x))
    requires Over(w, last)
    ensures AcceptsFrom(r, p, w) <==> (AcceptsFrom(m, p, w) != complement)
    decreases |w|
  {
    if w == [] {
      EmptyWord(m, p);
      EmptyWord(r, p);
    } else {
      assert w[0] == Pair(w[0].upper) && HasMove(m, p, Pair(w[0].upper));
      var t :| Arc(p, w[0], t) in m.arcs;
      assert Arc(p, w[0], t).tgt < n && Over(w[1..], last);
      assert Deterministic(r);
      AfterMove(m, p, t, w);
      AfterMove(r, p, t, w);
      ToggledAccepts(m, r, n, last, complement, t, w[1..]);
    }
  }

  /** What the caller of completion or complement gets, for every word. */
  ghost predicate RightLanguage(m: Machine<int>, r: Machine<int>, last: int, complement: bool) {
    forall w :: if complement then Accepts(r, w) <==> Over(w, last) && !Accepts(m, w)
                else Accepts(r, w) <==> Accepts(m, w)
  }

  lemma ToggledLanguage(m: Machine<int>, r: Machine<int>, n: nat, last: int, complement: bool)
    requires Toggles(m, r, n, complement) && Deterministic(m) && m.starts == iset{0} && 0 < n
    requires forall a :: a in m.arcs ==> 0 <= a.tgt < n && AcceptorArc(a, last)
    requires forall q, x :: 0 <= q < n && IDENTITY <= x <= last ==> HasMove(m, q, Pair(x))
    ensures RightLanguage(m, r, last, complement)
  {
    forall w ensures if complement then Accepts(r, w) <==> Over(w, last) && !Accepts(m, w)
                     else Accepts(r, w) <==> Accepts(m, w)
    {
      AcceptsFromStart(m, w);
      AcceptsFromStart(r, w);
      if Over(w, last) {
        ToggledAccepts(m, r, n, last, complement, 0, w);
      }
      if AcceptsFrom(r, 0, w) {
        var q := AcceptingEnd(r, 0, w);
        OriginalOver(r, last, 0, w, q);
      }
      if AcceptsFrom(m, 0, w) {
        var q := AcceptingEnd(m, 0, w);
        OriginalOver(m, last, 0, w, q);
      }
    }
  }

  // ----- The state table -----

  /** Line `k` carries an arc of state `p` on symbol `x`. */
  predicate CarriesArc(l: Line, p: int, x: int) {
    l.state == p && l.upper == x && l.target != -1
  }

  /** What the table holds for (p, x) after the first `i` lines: -1 or the target of the arc there. */
  ghost predicate Copied(lines: seq<Line>, i: int, p: int, x: int, v: int)
    requires 0 <= i <= |lines|
  {
    if v == -1 then forall k :: 0 <= k < i ==> !CarriesArc(lines[k], p, x)
    else exists k :: 0 <= k < i && CarriesArc(lines[k], p, x) && lines[k].target == v
  }

  /** What it holds in the end: loops on the sink, the net's own arcs, and the sink for missing ones. */
  ghost predicate Cell(lines: seq<Line>, sink: int, p: int, x: int, v: int) {
    if p == sink then v == sink
    else (v != -1 && Copied(lines, |lines|, p, x, v)) || (v == sink && Copied(lines, |lines|, p, x, -1))
  }

  lemma CopiedMore(lines: seq<Line>, i: int, p: int, x: int, v: int)
    requires 0 <= i < |lines| && Copied(lines, i, p, x, v)
    ensures !CarriesArc(lines[i], p, x) ==> Copied(lines, i + 1, p, x, v)
    ensures CarriesArc(lines[i], p, x) ==> Copied(lines, i + 1, p, x, lines[i].target)
  {
    if v != -1 {
      var k :| 0 <= k < i && CarriesArc(lines[k], p, x) && lines[k].target == v;
      assert 0 <= k < i + 1;
    }
  }

  method CopyArcs(states: array<Line>, table: array2<int>, n: nat, last: int, complement: bool, ghost lines: seq<Line>)
    requires WellFormed(lines, n) && AcceptorLines(lines, last) && SwappedUpTo(states[..], lines, |lines|, complement)
    requires table.Length0 >= n && table.Length1 == last + 1
    requires forall p, x :: 0 <= p < table.Length0 && 0 <= x <= last ==> table[p, x] == -1
    modifies table
    ensures forall p, x :: 0 <= p < table.Length0 && 0 <= x <= last ==> Copied(lines, |lines|, p, x, table[p, x])
  {
    hide Copied, WellFormed, SwappedUpTo, AcceptorLines;
    NothingCopied(lines);
    InRange(states[..], lines, |lines|, complement);
    var i := 0;
    while states[i].state != -1
      invariant 0 <= i <= |lines| < states.Length
      invariant forall p, x :: 0 <= p < table.Length0 && 0 <= x <= last ==> Copied(lines, i, p, x, table[p, x])
      decreases |lines| - i
    {
      SwappedLine(states[..], lines, n, last, i, complement);
      StoreArc(table, states[i].state, states[i].upper, states[i].target, last, lines, i);
      i := i + 1;
    }
    SwappedEnd(states[..], lines, n, i, complement);
  }

  method StoreArc(table: array2<int>, s: int, x: int, target: int, last: int, ghost lines: seq<Line>, ghost i: int)
    requires 0 <= i < |lines| && s == lines[i].state && x == lines[i].upper && target == lines[i].target
    requires table.Length1 == last + 1 && (target != -1 ==> 0 <= s < table.Length0 && 0 <= x <= last)
    requires forall p, y :: 0 <= p < table.Length0 && 0 <= y <= last ==> Copied(lines, i, p, y, table[p, y])
    modifies table
    ensures forall p, y :: 0 <= p < table.Length0 && 0 <= y <= last ==> Copied(lines, i + 1, p, y, table[p, y])
  {
    hide Copied;
    if target != -1 {
      table[s, x] := target;
    }
    forall p, y | 0 <= p < table.Length0 && 0 <= y <= last ensures Copied(lines, i + 1, p, y, table[p, y]) {
      assert Copied(lines, i, p, y, old(table[p, y]));
      CopiedMore(lines, i, p, y, old(table[p, y]));
    }
  }

  lemma NothingCopied(lines: seq<Line>)
    ensures forall p, x :: Copied(lines, 0, p, x, -1)
  {
  }

  lemma SwappedLine(states: seq<Line>, lines: seq<Line>, n: nat, last: int, i: int, complement: bool)
    requires WellFormed(lines, n) && AcceptorLines(lines, last) && SwappedUpTo(states, lines, |lines|, complement)
    requires 0 <= i <= |lines| && states[i].state != -1
    ensures i < |lines| && states[i].state == lines[i].state && states[i].upper == lines[i].upper
            && states[i].target == lines[i].target
    ensures lines[i].target != -1 ==> 0 <= lines[i].state < n && 0 <= lines[i].upper <= last
  {
    if lines[i].target != -1 {
      ArcLineBounds(lines, n, last, i);
    }
  }

  lemma SwappedEnd(states: seq<Line>, lines: seq<Line>, n: nat, i: int, complement: bool)
    requires WellFormed(lines, n) && SwappedUpTo(states, lines, |lines|, complement)
    requires 0 <= i <= |lines| && states[i].state == -1
    ensures i == |lines|
  {
    assert i < |lines| ==> LineOk(lines[i], n);
  }

  /** Loops on the sink, and arcs to it wherever the net has none. */
  method LeadToSink(table: array2<int>, last: int, sink: int, ghost lines: seq<Line>)
    requires 0 <= sink < table.Length0 && table.Length1 == last + 1 && last >= IDENTITY
    requires forall p, x :: 0 <= p < table.Length0 && 0 <= x <= last ==> Copied(lines, |lines|, p, x, table[p, x])
    modifies table
    ensures forall p, x :: 0 <= p < table.Length0 && IDENTITY <= x <= last ==> Cell(lines, sink, p, x, table[p, x])
  {
    hide Copied;
    var j := 2;
    while j <= last
      invariant 2 <= j <= last + 1
      invariant forall p, x :: 0 <= p < table.Length0 && 0 <= x <= last && p != sink ==>
                               Copied(lines, |lines|, p, x, table[p, x])
      invariant forall x :: 2 <= x < j ==> table[sink, x] == sink
    {
      table[sink, j] := sink;
      j := j + 1;
    }
    var i := 0;
    while i < table.Length0
      invariant 0 <= i <= table.Length0
      invariant forall p, x :: i <= p < table.Length0 && 0 <= x <= last && p != sink ==>
                               Copied(lines, |lines|, p, x, table[p, x])
      invariant forall x :: 2 <= x <= last ==> table[sink, x] == sink
      invariant forall p, x :: 0 <= p < i && 2 <= x <= last ==> Cell(lines, sink, p, x, table[p, x])
    {
      j := 2;
      while j <= last
        invariant 2 <= j <= last + 1
        invariant forall p, x :: i < p < table.Length0 && 0 <= x <= last && p != sink ==>
                                 Copied(lines, |lines|, p, x, table[p, x])
        invariant forall x :: j <= x <= last && i != sink ==> Copied(lines, |lines|, i, x, table[i, x])
        invariant forall x :: 2 <= x <= last ==> table[sink, x] == sink
        invariant forall p, x :: 0 <= p < i && 2 <= x <= last ==> Cell(lines, sink, p, x, table[p, x])
        invariant forall x :: 2 <= x < j ==> Cell(lines, sink, i, x, table[i, x])
      {
        if table[i, j] == -1 {
          table[i, j] := sink;
        }
        j := j + 1;
      }
      i := i + 1;
    }
  }

  // ----- Writing the completed net -----

  /** Flags of a state of the result; the invented sink is `n`. */
  ghost predicate Flags(lines: seq<Line>, n: nat, complement: bool, s: int, final: bool, start: bool) {
    && (s < n ==> forall k :: 0 <= k < |lines| && lines[k].state == s ==>
                              start == lines[k].start && final == (lines[k].final != complement))
    && (s == n ==> final == complement && !start)
  }

  ghost predicate Before(k: Line, l: Line) {
    k.state < l.state || (k.state == l.state && k.upper < l.upper)
  }

  ghost predicate WrittenLine(l: Line, lines: seq<Line>, n: nat, count: nat, last: int, sink: int, complement: bool) {
    && 0 <= l.state < count && l.upper == l.lower && IDENTITY <= l.upper <= last
    && Cell(lines, sink, l.state, l.upper, l.target)
    && Flags(lines, n, complement, l.state, l.final, l.start)
  }

  ghost predicate HasLine(net: seq<Line>, p: int, x: int) {
    exists k :: 0 <= k < |net| && net[k].state == p && net[k].upper == x
  }

  /** The lines of all states before `i`, and those of `i` on symbols before `j`. */
  ghost predicate Written(net: seq<Line>, lines: seq<Line>, n: nat, count: nat, last: int, sink: int, complement: bool,
                          i: int, j: int) {
    && (forall k :: 0 <= k < |net| ==> WrittenLine(net[k], lines, n, count, last, sink, complement))
    && (forall k :: 0 <= k < |net| ==> net[k].state < i || (net[k].state == i && net[k].upper < j))
    && (forall h, k :: 0 <= h < k < |net| ==> Before(net[h], net[k]))
    && (forall p, x :: IDENTITY <= x <= last && 0 <= p && (p < i || (p == i && x < j)) ==> HasLine(net, p, x))
  }

  lemma WrittenMore(net: seq<Line>, l: Line, lines: seq<Line>, n: nat, count: nat, last: int, sink: int,
                    complement: bool, i: int, j: int)
    requires Written(net, lines, n, count, last, sink, complement, i, j) && l.state == i && l.upper == j
    requires WrittenLine(l, lines, n, count, last, sink, complement)
    ensures Written(net + [l], lines, n, count, last, sink, complement, i, j + 1)
  {
    hide WrittenLine;
    forall p, x | IDENTITY <= x <= last && 0 <= p && (p < i || (p == i && x < j + 1)) ensures HasLine(net + [l], p, x) {
      if p == i && x == j {
        assert (net + [l])[|net|] == l;
      } else {
        assert HasLine(net, p, x);
        var k :| 0 <= k < |net| && net[k].state == p && net[k].upper == x;
        assert (net + [l])[k] == net[k];
      }
    }
  }

  lemma RowWritten(net: seq<Line>, lines: seq<Line>, n: nat, count: nat, last: int, sink: int, complement: bool, i: int)
    requires Written(net, lines, n, count, last, sink, complement, i, last + 1)
    ensures Written(net, lines, n, count, last, sink, complement, i + 1, IDENTITY)
  {
    hide WrittenLine, HasLine;
  }

  method WriteLines(table: array2<int>, finals: array<bool>, starts: array<bool>, count: nat, last: int, sink: int,
                    ghost lines: seq<Line>, ghost n: nat, ghost complement: bool) returns (net: seq<Line>)
    requires table.Length0 == count && table.Length1 == last + 1 && last >= IDENTITY
    requires finals.Length >= count && starts.Length >= count
    requires forall p, x :: 0 <= p < count && IDENTITY <= x <= last ==> Cell(lines, sink, p, x, table[p, x])
    requires forall p :: 0 <= p < count ==> Flags(lines, n, complement, p, finals[p], starts[p])
    ensures Written(net, lines, n, count, last, sink, complement, count, IDENTITY)
  {
    hide Cell, Flags, Written;
    net := [];
    NothingWritten(lines, n, count, last, sink, complement);
    var i := 0;
    while i < count
      invariant 0 <= i <= count
      invariant Written(net, lines, n, count, last, sink, complement, i, IDENTITY)
    {
      var j := 2;
      while j <= last
        invariant 2 <= j <= last + 1
        invariant Written(net, lines, n, count, last, sink, complement, i, j)
      {
        var target := if table[i, j] == -1 then sink else table[i, j];
        var l := Line(i, j, j, target, finals[i], starts[i]);
        SinkForNone(lines, sink, i, j, table[i, j]);
        WrittenMore(net, l, lines, n, count, last, sink, complement, i, j);
        net := net + [l];
        j := j + 1;
      }
      RowWritten(net, lines, n, count, last, sink, complement, i);
      i := i + 1;
    }
  }

  lemma NothingWritten(lines: seq<Line>, n: nat, count: nat, last: int, sink: int, complement: bool)
    ensures Written([], lines, n, count, last, sink, complement, 0, IDENTITY)
  {
  }

  lemma SinkForNone(lines: seq<Line>, sink: int, p: int, x: int, v: int)
    requires Cell(lines, sink, p, x, v)
    ensures Cell(lines, sink, p, x, if v == -1 then sink else v)
  {
  }

  // ----- From the written lines to the completed machine -----

  /** The sink is either new or an old state that accepts nothing. */
  ghost predicate SinkOk(lines: seq<Line>, n: nat, count: nat, sink: int) {
    if sink == n then count == n + 1
    else count == n && 0 <= sink < n && Trap(MachineOf(lines), sink)
  }

  lemma CellArc(lines: seq<Line>, n: nat, last: int, sink: int, count: nat, p: int, x: int, v: int)
    requires WellFormed(lines, n) && AcceptorLines(lines, last) && SinkOk(lines, n, count, sink)
             && Cell(lines, sink, p, x, v)
    ensures 0 <= v < count
    ensures p == sink ==> v == sink
    ensures p != sink ==> Arc(p, Pair(x), v) in ArcsOf(lines) || (v == sink && !HasMove(MachineOf(lines), p, Pair(x)))
  {
    hide WellFormed, AcceptorLines, Trap;
    if p != sink {
      if v != -1 && Copied(lines, |lines|, p, x, v) {
        var k :| 0 <= k < |lines| && CarriesArc(lines[k], p, x) && lines[k].target == v;
        ArcLineBounds(lines, n, last, k);
        LineIsArc(lines, k);
        ArcInRange(lines, n, Arc(p, Pair(x), v));
      } else {
        forall r ensures Arc(p, Pair(x), r) !in ArcsOf(lines) {
          if Arc(p, Pair(x), r) in ArcsOf(lines) {
            var k := ArcLine(lines, Arc(p, Pair(x), r));
          }
        }
      }
    }
  }

  lemma ArcWritten(net: seq<Line>, lines: seq<Line>, n: nat, count: nat, last: int, sink: int, complement: bool,
                   a: Arc<int>)
    requires WellFormed(lines, n) && AcceptorLines(lines, last) && SinkOk(lines, n, count, sink)
    requires Written(net, lines, n, count, last, sink, complement, count, IDENTITY) && a in ArcsOf(net)
    ensures 0 <= a.src < count && 0 <= a.tgt < count && AcceptorArc(a, last)
    ensures a.src == sink ==> a.tgt == sink
    ensures a.src != sink ==> a in ArcsOf(lines) || (a.tgt == sink && !HasMove(MachineOf(lines), a.src, a.lab))
  {
    hide WellFormed, AcceptorLines, SinkOk, Flags, HasMove;
    var k := ArcLine(net, a);
    assert WrittenLine(net[k], lines, n, count, last, sink, complement);
    CellArc(lines, n, last, sink, count, a.src, net[k].upper, a.tgt);
    assert a.lab == Pair(net[k].upper) && a == Arc(a.src, a.lab, a.tgt);
  }

  lemma MoveWritten(net: seq<Line>, lines: seq<Line>, n: nat, count: nat, last: int, sink: int, complement: bool,
                    p: int, x: int)
    requires WellFormed(lines, n) && AcceptorLines(lines, last) && SinkOk(lines, n, count, sink)
    requires Written(net, lines, n, count, last, sink, complement, count, IDENTITY)
    requires 0 <= p < count && IDENTITY <= x <= last
    ensures HasMove(MachineOf(net), p, Pair(x))
  {
    hide WellFormed, AcceptorLines, SinkOk, Flags, HasMove;
    assert HasLine(net, p, x);
    var k :| 0 <= k < |net| && net[k].state == p && net[k].upper == x;
    assert WrittenLine(net[k], lines, n, count, last, sink, complement);
    CellArc(lines, n, last, sink, count, p, x, net[k].target);
    LineIsArc(net, k);
    MoveFound(MachineOf(net), p, Pair(x), net[k].target);
  }

  lemma FlagsWritten(net: seq<Line>, lines: seq<Line>, n: nat, count: nat, last: int, sink: int, complement: bool,
                     p: int)
    requires WellFormed(lines, n) && (count == n || count == n + 1) && last >= IDENTITY
    requires Written(net, lines, n, count, last, sink, complement, count, IDENTITY) && 0 <= p < count
    ensures p < n ==> (p in MachineOf(net).finals <==> ((p in MachineOf(lines).finals) != complement))
    ensures p < n ==> (p in MachineOf(net).starts <==> p in MachineOf(lines).starts)
    ensures p == n ==> (p in MachineOf(net).finals <==> complement) && p !in MachineOf(net).starts
  {
    hide WellFormed, Cell;
    assert HasLine(net, p, IDENTITY);
    var h :| 0 <= h < |net| && net[h].state == p && net[h].upper == IDENTITY;
    forall k | 0 <= k < |net| && net[k].state == p
      ensures Flags(lines, n, complement, p, net[k].final, net[k].start)
    {
      assert WrittenLine(net[k], lines, n, count, last, sink, complement);
    }
    assert net[h] in net;
    if p < n {
      var g := OneOf(lines, n, p);
      FlagsOfState(lines, n, g);
      assert lines[g] in lines;
    }
  }

  lemma OneOf(lines: seq<Line>, n: nat, p: int) returns (g: int)
    requires WellFormed(lines, n) && 0 <= p < n
    ensures 0 <= g < |lines| && lines[g].state == p
  {
    assert HasState(lines, p);
    g :| 0 <= g < |lines| && lines[g].state == p;
  }

  lemma WrittenWellFormed(net: seq<Line>, lines: seq<Line>, n: nat, count: nat, last: int, sink: int, complement: bool)
    requires WellFormed(lines, n) && AcceptorLines(lines, last) && SinkOk(lines, n, count, sink) && last >= IDENTITY
    requires Written(net, lines, n, count, last, sink, complement, count, IDENTITY)
    ensures WellFormed(net, count)
  {
    WrittenLinesOk(net, lines, n, count, last, sink, complement);
    forall p | 0 <= p < count ensures HasState(net, p) {
      assert HasLine(net, p, IDENTITY);
    }
    WrittenFlagsAgree(net, lines, n, count, last, sink, complement);
    WrittenContiguous(net, lines, n, count, last, sink, complement);
  }

  lemma WrittenLinesOk(net: seq<Line>, lines: seq<Line>, n: nat, count: nat, last: int, sink: int, complement: bool)
    requires WellFormed(lines, n) && AcceptorLines(lines, last) && SinkOk(lines, n, count, sink) && last >= IDENTITY
    requires Written(net, lines, n, count, last, sink, complement, count, IDENTITY)
    ensures forall k :: 0 <= k < |net| ==> LineOk(net[k], count)
  {
    hide WellFormed, AcceptorLines, SinkOk, Flags, HasLine;
    forall k | 0 <= k < |net| ensures LineOk(net[k], count) {
      assert WrittenLine(net[k], lines, n, count, last, sink, complement);
      CellArc(lines, n, last, sink, count, net[k].state, net[k].upper, net[k].target);
    }
  }

  lemma WrittenContiguous(net: seq<Line>, lines: seq<Line>, n: nat, count: nat, last: int, sink: int, complement: bool)
    requires Written(net, lines, n, count, last, sink, complement, count, IDENTITY)
    ensures forall i, j, k :: 0 <= i < j < k < |net| && net[i].state == net[k].state ==> net[j].state == net[i].state
  {
    hide WrittenLine, HasLine;
    forall i, j, k | 0 <= i < j < k < |net| && net[i].state == net[k].state ensures net[j].state == net[i].state {
      assert Before(net[i], net[j]) && Before(net[j], net[k]);
    }
  }

  lemma WrittenFlagsAgree(net: seq<Line>, lines: seq<Line>, n: nat, count: nat, last: int, sink: int, complement: bool)
    requires WellFormed(lines, n) && (count == n || count == n + 1)
    requires Written(net, lines, n, count, last, sink, complement, count, IDENTITY)
    ensures forall i, j :: 0 <= i < j < |net| && net[i].state == net[j].state ==>
                           net[i].final == net[j].final && net[i].start == net[j].start
  {
    hide WellFormed, Cell, HasLine;
    forall i, j | 0 <= i < j < |net| && net[i].state == net[j].state
      ensures net[i].final == net[j].final && net[i].start == net[j].start
    {
      assert WrittenLine(net[i], lines, n, count, last, sink, complement);
      assert WrittenLine(net[j], lines, n, count, last, sink, complement);
      if net[i].state < n {
        var g := OneOf(lines, n, net[i].state);
      }
    }
  }

  /** The lines written from the table are the completed net. */
  lemma WrittenCompletes(net: seq<Line>, lines: seq<Line>, n: nat, count: nat, last: int, sink: int, complement: bool)
    requires WellFormed(lines, n) && AcceptorLines(lines, last) && SinkOk(lines, n, count, sink) && last >= IDENTITY
    requires Written(net, lines, n, count, last, sink, complement, count, IDENTITY)
    requires MachineOf(lines).starts == iset{0} && 0 < n
    ensures Completes(MachineOf(lines), MachineOf(net), n, last, sink, complement)
  {
    hide WellFormed, AcceptorLines, Written, ArcsOf, HasMove, AcceptorArc, Trap;
    var m, r := MachineOf(lines), MachineOf(net);
    forall a | a in r.arcs
      ensures (0 <= a.src < n || a.src == sink) && AcceptorArc(a, last)
      ensures a.src < n ==> a in m.arcs || (!HasMove(m, a.src, a.lab) && a.tgt == sink)
      ensures a.src == sink ==> a.tgt == sink
    {
      ArcWritten(net, lines, n, count, last, sink, complement, a);
      if a.src == sink < n {
        TrapLoops(m, sink, a.lab);
        assert a == Arc(sink, a.lab, sink);
      }
    }
    forall p, x | (0 <= p < n || p == sink) && IDENTITY <= x <= last ensures HasMove(r, p, Pair(x)) {
      MoveWritten(net, lines, n, count, last, sink, complement, p, x);
    }
    forall p | 0 <= p < count
      ensures p < n ==> (p in r.finals <==> ((p in m.finals) != complement))
      ensures p < n ==> (p in r.starts <==> p in m.starts)
      ensures p == n ==> (p in r.finals <==> complement) && p !in r.starts
    {
      FlagsWritten(net, lines, n, count, last, sink, complement, p);
    }
    StartsInRange(net, lines, n, count, last, sink, complement);
    forall p ensures p in r.starts <==> p in m.starts {
      if p in r.starts || p in m.starts {
        assert 0 <= p < count;
      }
    }
    assert r.starts == m.starts;
    if sink < n {
      TrapLoops(m, sink, Pair(IDENTITY));
    }
  }

  lemma TrapLoops(m: Machine<int>, s: int, l: Label)
    requires Trap(m, s)
    ensures HasMove(m, s, l) ==> Arc(s, l, s) in m.arcs
    ensures s !in m.finals
  {
    if HasMove(m, s, l) {
      var r :| Arc(s, l, r) in m.arcs;
      assert Arc(s, l, r).tgt == s;
    }
  }

  lemma StartsInRange(net: seq<Line>, lines: seq<Line>, n: nat, count: nat, last: int, sink: int, complement: bool)
    requires Written(net, lines, n, count, last, sink, complement, count, IDENTITY)
    ensures forall p :: p in MachineOf(net).starts ==> 0 <= p < count
  {
    hide Cell, Flags, HasLine;
    forall l | l in net ensures 0 <= l.state < count {
      var k :| 0 <= k < |net| && net[k] == l;
      assert WrittenLine(net[k], lines, n, count, last, sink, complement);
    }
  }

  // ----- The shortcut result -----

  lemma ToggledLines(net: seq<Line>, lines: seq<Line>, n: nat, complement: bool)
    requires WellFormed(lines, n) && |net| == |lines| && forall k :: 0 <= k < |lines| ==>
                                                                     net[k] == Swapped(lines[k], complement)
    ensures Toggles(MachineOf(lines), MachineOf(net), n, complement)
    ensures WellFormed(net, n)
  {
    ToggledWellFormed(net, lines, n, complement);
    ToggledArcs(net, lines, complement);
    forall p | 0 <= p < n
      ensures p in MachineOf(net).finals <==> ((p in MachineOf(lines).finals) != complement)
    {
      var g := OneOf(lines, n, p);
      FlagsOfState(lines, n, g);
      FlagsOfState(net, n, g);
    }
  }

  lemma ToggledWellFormed(net: seq<Line>, lines: seq<Line>, n: nat, complement: bool)
    requires WellFormed(lines, n) && |net| == |lines| && forall k :: 0 <= k < |lines| ==>
                                                                     net[k] == Swapped(lines[k], complement)
    ensures WellFormed(net, n)
  {
    forall i | 0 <= i < |net| ensures LineOk(net[i], n) {
      assert LineOk(lines[i], n);
    }
    forall p | 0 <= p < n ensures HasState(net, p) {
      var g := OneOf(lines, n, p);
      assert net[g].state == p;
    }
  }

  lemma ToggledArcs(net: seq<Line>, lines: seq<Line>, complement: bool)
    requires |net| == |lines| && forall k :: 0 <= k < |lines| ==> net[k] == Swapped(lines[k], complement)
    ensures MachineOf(net).arcs == MachineOf(lines).arcs && MachineOf(net).starts == MachineOf(lines).starts
  {
    forall a ensures a in ArcsOf(net) <==> a in ArcsOf(lines) {
      if a in ArcsOf(net) {
        var k := ArcLine(net, a);
        LineIsArc(lines, k);
        assert a == Arc(a.src, a.lab, a.tgt);
      }
      if a in ArcsOf(lines) {
        var k := ArcLine(lines, a);
        LineIsArc(net, k);
        assert a == Arc(a.src, a.lab, a.tgt);
      }
    }
    forall p ensures p in MachineOf(net).starts <==> p in MachineOf(lines).starts {
      if p in MachineOf(net).starts {
        var l :| l in net && l.start && l.state == p;
        var k :| 0 <= k < |net| && net[k] == l;
        assert lines[k] in lines && lines[k].start && lines[k].state == p;
      }
      if p in MachineOf(lines).starts {
        var l :| l in lines && l.start && l.state == p;
        var k :| 0 <= k < |lines| && lines[k] == l;
        assert net[k] in net && net[k].start && net[k].state == p;
      }
    }
    assert MachineOf(net).starts == MachineOf(lines).starts;
  }

  // ----- The whole operation -----

  /** The net that completion accepts: one start state 0, deterministic, an acceptor over IDENTITY..last. */
  ghost predicate Ready(lines: seq<Line>, n: nat, last: int) {
    && WellFormed(lines, n) && OneArcPerLabel(lines) && AcceptorLines(lines, last) && last >= IDENTITY
    && MachineOf(lines).starts == iset{0}
  }

  lemma ReadyMachine(lines: seq<Line>, n: nat, last: int)
    requires Ready(lines, n, last)
    ensures Deterministic(MachineOf(lines)) && 0 < n
    ensures forall a :: a in ArcsOf(lines) ==> 0 <= a.src < n && 0 <= a.tgt < n && AcceptorArc(a, last)
  {
    forall k, l | k in lines && l in lines && k.start && l.start ensures k.state == l.state {
      assert k.state in MachineOf(lines).starts && l.state in MachineOf(lines).starts;
    }
    KnownDeterministic(lines);
    forall a | a in ArcsOf(lines) ensures 0 <= a.src < n && 0 <= a.tgt < n && AcceptorArc(a, last) {
      var k := ArcLine(lines, a);
      ArcLineBounds(lines, n, last, k);
      ArcInRange(lines, n, a);
    }
  }

  /** What holds of the result of completing `lines`. */
  ghost predicate Completed(net: seq<Line>, count: nat, lines: seq<Line>, last: int, complement: bool) {
    && WellFormed(net, count)
    && CompleteOver(MachineOf(net), count, last)
    && RightLanguage(MachineOf(lines), MachineOf(net), last, complement)
  }

  lemma ShortcutCompletes(net: seq<Line>, lines: seq<Line>, n: nat, last: int, complement: bool)
    requires Ready(lines, n, last) && ArcCount(lines) == (last - 1) * n
    requires |net| == |lines| && forall k :: 0 <= k < |lines| ==> net[k] == Swapped(lines[k], complement)
    ensures Completed(net, n, lines, last, complement)
  {
    hide HasMove, WellFormed, AcceptorLines, OneArcPerLabel, ArcsOf, RightLanguage, Swapped;
    ReadyMachine(lines, n, last);
    CountMeansComplete(lines, n, last);
    ToggledLines(net, lines, n, complement);
    ToggledLanguage(MachineOf(lines), MachineOf(net), n, last, complement);
    SameMoves(MachineOf(lines), MachineOf(net));
  }

  lemma SameMoves(m: Machine<int>, r: Machine<int>)
    requires r.arcs == m.arcs && r.starts == m.starts
    ensures forall p, l :: HasMove(m, p, l) ==> HasMove(r, p, l)
    ensures Deterministic(m) ==> Deterministic(r)
  {
  }

  lemma TableCompletes(net: seq<Line>, lines: seq<Line>, n: nat, count: nat, last: int, sink: int, complement: bool)
    requires Ready(lines, n, last) && SinkOk(lines, n, count, sink)
    requires Written(net, lines, n, count, last, sink, complement, count, IDENTITY)
    ensures Completed(net, count, lines, last, complement)
  {
    hide HasMove, WellFormed, AcceptorLines, OneArcPerLabel, ArcsOf, Written;
    ReadyMachine(lines, n, last);
    WrittenWellFormed(net, lines, n, count, last, sink, complement);
    WrittenCompletes(net, lines, n, count, last, sink, complement);
    DeterministicToo(MachineOf(lines), MachineOf(net), n, last, sink, complement);
    forall w ensures if complement then Accepts(MachineOf(net), w) <==> Over(w, last) && !Accepts(MachineOf(lines), w)
                     else Accepts(MachineOf(net), w) <==> Accepts(MachineOf(lines), w)
    {
      CompletionLanguage(MachineOf(lines), MachineOf(net), n, last, sink, complement, w);
    }
  }

  /** The candidates left over are traps. */
  lemma CandidateIsTrap(lines: seq<Line>, n: nat, s: int, complement: bool, start: bool, final: bool, sink: bool)
    requires WellFormed(lines, n) && 0 <= s < n && StateSeen(lines, |lines|, s, complement, start, final, sink) && sink
    ensures Trap(MachineOf(lines), s)
  {
    var m := MachineOf(lines);
    forall a | a in m.arcs && a.src == s ensures a.tgt == s {
      var k := ArcLine(lines, a);
    }
    if s in m.finals {
      FinalLine(lines, s);
    }
  }

  lemma FinalLine(lines: seq<Line>, s: int)
    requires s in MachineOf(lines).finals
    ensures exists k :: 0 <= k < |lines| && lines[k].state == s && lines[k].final
  {
    var l :| l in lines && l.final && l.state == s;
    var k :| 0 <= k < |lines| && lines[k] == l;
  }

  lemma SeenFlags(lines: seq<Line>, n: nat, s: int, complement: bool, start: bool, final: bool, sink: bool)
    requires 0 <= s < n && StateSeen(lines, |lines|, s, complement, start, final, sink)
    ensures Flags(lines, n, complement, s, final, start)
  {
  }

  /** Uses the first sink candidate, or invents a sink. */
  method ChooseSink(starts: array<bool>, finals: array<bool>, sinks: array<bool>, n: nat, complement: bool,
                    ghost lines: seq<Line>)
    returns (sink: int, count: nat)
    requires WellFormed(lines, n) && starts != finals
    requires starts.Length == finals.Length == sinks.Length == n + 1
    requires forall s :: 0 <= s < n ==> StateSeen(lines, |lines|, s, complement, starts[s], finals[s], sinks[s])
    modifies starts, finals
    ensures SinkOk(lines, n, count, sink)
    ensures forall s :: 0 <= s < count ==> Flags(lines, n, complement, s, finals[s], starts[s])
  {
    hide StateSeen, WellFormed, Trap, Flags;
    sink := -1;
    count := n;
    var i := 0;
    while i < n && sink == -1
      invariant 0 <= i <= n
      invariant sink == -1 || (0 <= sink < n && sinks[sink])
    {
      if sinks[i] {
        sink := i;
      }
      i := i + 1;
    }
    forall s | 0 <= s < n ensures Flags(lines, n, complement, s, finals[s], starts[s]) {
      SeenFlags(lines, n, s, complement, starts[s], finals[s], sinks[s]);
    }
    if sink == -1 {
      sink := n;
      starts[sink] := false;
      finals[sink] := complement;
      SinkFlags(lines, n, complement);
      count := n + 1;
    } else {
      CandidateIsTrap(lines, n, sink, complement, starts[sink], finals[sink], true);
    }
  }

  lemma SinkFlags(lines: seq<Line>, n: nat, complement: bool)
    ensures Flags(lines, n, complement, n, complement, false)
  {
  }

  /**
   Completion (`complement` false) or complement of the net in `states`. `sigsize` is the
   number of symbols other than EPSILON, which for a gap-free alphabet is `last - 1`;
   `incomplete` says that IDENTITY had to be added to the alphabet first.
   */
  method CompleteNet(states: array<Line>, n: nat, last: int, sigsize: int, incomplete: bool, complement: bool,
                     ghost lines: seq<Line>)
    returns (net: seq<Line>, count: nat)
    requires Ready(lines, n, last) && Encodes(states, lines) && sigsize == last - 1
    modifies states
    ensures Completed(net, count, lines, last, complement)
    ensures count == n || count == n + 1
  {
    hide Ready, Completed, WellFormed, AcceptorLines, OneArcPerLabel, MachineOf, Swapped, StateSeen, Flags, Cell,
         Copied, Written, SinkOk;
    ReadyParts(lines, n, last);
    NothingSwapped(states, lines, complement);
    var starts, finals, sinks, arccount := ScanLines(states, n, complement, lines);
    if !incomplete && arccount == sigsize * n {
      count := n;
      net := NetLines(states, lines, n, complement);
      ShortcutCompletes(net, lines, n, last, complement);
      return;
    }
    var sink;
    sink, count := ChooseSink(starts, finals, sinks, n, complement, lines);
    SinkRange(lines, n, count, sink);
    var table := new int[count, sigsize + 2]((_, _) => -1);
    CopyArcs(states, table, n, last, complement, lines);
    LeadToSink(table, last, sink, lines);
    net := WriteLines(table, finals, starts, count, last, sink, lines, n, complement);
    TableCompletes(net, lines, n, count, last, sink, complement);
  }

  lemma ReadyParts(lines: seq<Line>, n: nat, last: int)
    requires Ready(lines, n, last)
    ensures WellFormed(lines, n) && AcceptorLines(lines, last) && last >= IDENTITY
  {
  }

  lemma SinkRange(lines: seq<Line>, n: nat, count: nat, sink: int)
    requires SinkOk(lines, n, count, sink)
    ensures n <= count <= n + 1 && 0 <= sink < count
  {
  }

  lemma NothingSwapped(states: array<Line>, lines: seq<Line>, complement: bool)
    requires Encodes(states, lines)
    ensures SwappedUpTo(states[..], lines, 0, complement)
  {
    forall k | 0 <= k < |lines| ensures states[..][k] == lines[k] {
      assert states[..|lines|][k] == lines[k];
    }
  }

  /** The lines before the sentinel, as they are now. */
  method NetLines(states: array<Line>, ghost lines: seq<Line>, ghost n: nat, ghost complement: bool)
    returns (net: seq<Line>)
    requires WellFormed(lines, n) && SwappedUpTo(states[..], lines, |lines|, complement)
    ensures |net| == |lines| && forall k :: 0 <= k < |lines| ==> net[k] == Swapped(lines[k], complement)
  {
    var i := 0;
    while states[i].state != -1
      invariant 0 <= i <= |lines|
      decreases |lines| - i
    {
      i := i + 1;
    }
    SwappedEnd(states[..], lines, n, i, complement);
    net := states[..i];
    forall k | 0 <= k < |lines| ensures net[k] == Swapped(lines[k], complement) {
      assert net[k] == states[..][k];
    }
  }
}
