/** Reading a net state by state: the pointer array that every product construction builds first. */
module NetReading {
  import opened Automata

  /** Flags of a state and the index of its first line. */
  datatype StatePointer = StatePointer(final: bool, start: bool, transitions: nat)

  ghost predicate PointsAt(pointer: StatePointer, lines: seq<Line>, p: int) {
    && pointer.transitions < |lines| && lines[pointer.transitions].state == p
    && (forall k :: 0 <= k < pointer.transitions ==> lines[k].state != p)
    && (pointer.final <==> lines[pointer.transitions].final)
    && (pointer.start <==> lines[pointer.transitions].start)
  }

  ghost predicate PointsInto(points: seq<StatePointer>, lines: seq<Line>, n: nat) {
    |points| == n && forall p :: 0 <= p < n ==> PointsAt(points[p], lines, p)
  }

  /** The lines of state `p` are exactly those from `lo` up to `hi`. */
  ghost predicate Block(lines: seq<Line>, p: int, lo: int, hi: int) {
    0 <= lo <= hi <= |lines| && forall k :: 0 <= k < |lines| ==> (lines[k].state == p <==> lo <= k < hi)
  }

  /** The numbers on a line are a net's: an arc has a target and symbols within the alphabet. */
  lemma LineInRange(lines: seq<Line>, n: nat, max: int, i: int)
    requires WellFormed(lines, n) && SymbolsUpTo(lines, max) && 0 <= i < |lines|
    ensures LineOk(lines[i], n) && lines[i].upper <= max && lines[i].lower <= max
  {
    assert lines[i] in lines;
  }

  method InitStatePointers(lines: seq<Line>, n: nat) returns (points: seq<StatePointer>)
    requires WellFormed(lines, n)
    ensures PointsInto(points, lines, n)
  {
    hide PointsAt, Seen, HasState, PointsInto;
    var arr := new StatePointer[n](_ => StatePointer(false, false, 0));
    NoneSeen(lines);
    var sold := -1;
    var i := 0;
    while i < |lines|
      invariant 0 <= i <= |lines|
      invariant i == 0 ==> sold == -1
      invariant i > 0 ==> sold == lines[i - 1].state
      invariant forall p :: 0 <= p < n ==> Seen(arr[p], lines, p, i)
    {
      var l := lines[i];
      var s := l.state;
      ghost var was := arr[s];
      assert LineOk(l, n);
      if l.final {
        arr[s] := arr[s].(final := true);
      }
      if l.start {
        arr[s] := arr[s].(start := true);
      }
      if s != sold {
        arr[s] := arr[s].(transitions := i);
        sold := s;
      }
      SeenStep(was, lines, n, i);
      forall p | 0 <= p < n && p != s ensures Seen(arr[p], lines, p, i + 1) {
        SeenOther(arr[p], lines, p, i);
      }
      i := i + 1;
    }
    points := arr[..];
    AllSeen(points, lines, n);
  }

  lemma NoneSeen(lines: seq<Line>)
    ensures forall p :: Seen(StatePointer(false, false, 0), lines, p, 0)
  {
  }

  lemma AllSeen(points: seq<StatePointer>, lines: seq<Line>, n: nat)
    requires WellFormed(lines, n) && |points| == n
    requires forall p :: 0 <= p < n ==> Seen(points[p], lines, p, |lines|)
    ensures PointsInto(points, lines, n)
  {
    forall p | 0 <= p < n ensures PointsAt(points[p], lines, p) {
      assert HasState(lines, p);
      assert Seen(points[p], lines, p, |lines|);
    }
  }

  /** The pointer of `p` is right as far as the first `i` lines go. */
  ghost predicate Seen(pointer: StatePointer, lines: seq<Line>, p: int, i: int)
    requires 0 <= i <= |lines|
  {
    if exists k :: 0 <= k < i && lines[k].state == p
    then pointer.transitions < i && PointsAt(pointer, lines, p)
    else pointer == StatePointer(false, false, 0)
  }

  lemma SeenStep(was: StatePointer, lines: seq<Line>, n: nat, i: int)
    requires WellFormed(lines, n) && 0 <= i < |lines| && Seen(was, lines, lines[i].state, i)
    ensures var l := lines[i];
            var next := StatePointer(was.final || l.final, was.start || l.start,
                                     if i > 0 && lines[i - 1].state == l.state then was.transitions else i);
            Seen(next, lines, l.state, i + 1)
  {
    var l := lines[i];
    if k :| 0 <= k < i && lines[k].state == l.state {
      assert lines[i - 1].state == l.state;
    }
  }

  lemma SeenOther(pointer: StatePointer, lines: seq<Line>, p: int, i: int)
    requires 0 <= i < |lines| && p != lines[i].state && Seen(pointer, lines, p, i)
    ensures Seen(pointer, lines, p, i + 1)
  {
    if k :| 0 <= k < i && lines[k].state == p {
      assert 0 <= k < i + 1 && lines[k].state == p;
    }
  }

  /** Scanning from a state's first line as long as the state number stays the same visits its whole block. */
  lemma ScannedBlock(lines: seq<Line>, n: nat, p: int, pointer: StatePointer, i: int)
    requires WellFormed(lines, n) && PointsAt(pointer, lines, p)
    requires pointer.transitions <= i <= |lines|
    requires forall k :: pointer.transitions <= k < i ==> lines[k].state == p
    requires i == |lines| || lines[i].state != p
    ensures Block(lines, p, pointer.transitions, i)
  {
  }

  /** The arcs of a state are those on the lines of its block. */
  lemma ArcInBlock(lines: seq<Line>, p: int, lo: int, hi: int, l: Label, q: int) returns (k: int)
    requires Block(lines, p, lo, hi) && Arc(p, l, q) in ArcsOf(lines)
    ensures lo <= k < hi && lines[k].state == p && lines[k].ToLabel() == l && lines[k].target == q >= 0
  {
    k := ArcLine(lines, Arc(p, l, q));
  }

  lemma LineIsArc(lines: seq<Line>, k: int)
    requires 0 <= k < |lines| && lines[k].target >= 0
    ensures Arc(lines[k].state, lines[k].ToLabel(), lines[k].target) in ArcsOf(lines)
  {
    assert lines[k] in lines && lines[k].ToArc() == Arc(lines[k].state, lines[k].ToLabel(), lines[k].target);
  }

  /** The flags in the pointer array are membership in the machine's state sets. */
  lemma PointerFlags(lines: seq<Line>, n: nat, p: int, pointer: StatePointer)
    requires WellFormed(lines, n) && PointsAt(pointer, lines, p)
    ensures pointer.final <==> p in MachineOf(lines).finals
    ensures pointer.start <==> p in MachineOf(lines).starts
  {
    var first := lines[pointer.transitions];
    assert first in lines;
    forall l | l in lines && l.state == p ensures l.final == first.final && l.start == first.start {
      var k :| 0 <= k < |lines| && lines[k] == l;
    }
  }

  lemma ArcInRange(lines: seq<Line>, n: nat, a: Arc<int>)
    requires WellFormed(lines, n) && a in ArcsOf(lines)
    ensures 0 <= a.src < n && 0 <= a.tgt < n && 0 <= a.lab.upper && 0 <= a.lab.lower
  {
    var k := ArcLine(lines, a);
    assert LineOk(lines[k], n);
  }

  ghost predicate HasMove(m: Machine<int>, p: int, l: Label) {
    exists r :: Arc(p, l, r) in m.arcs
  }

  /** The target of the first arc of state `q` with the given symbols, or -1. */
  method FindTarget(b: seq<Line>, nb: nat, q: int, pointer: StatePointer, up: int, lo: int) returns (btarget: int)
    requires WellFormed(b, nb) && PointsAt(pointer, b, q) && up >= 0
    ensures btarget >= -1
    ensures btarget >= 0 ==> Arc(q, Label(up, lo), btarget) in ArcsOf(b)
    ensures btarget == -1 ==> !HasMove(MachineOf(b), q, Label(up, lo))
  {
    var i := pointer.transitions;
    while i < |b| && b[i].state == q
      invariant pointer.transitions <= i <= |b|
      invariant forall k :: pointer.transitions <= k < i ==> b[k].state == q && b[k].ToLabel() != Label(up, lo)
    {
      if b[i].upper == up && b[i].lower == lo {
        assert LineOk(b[i], nb);
        LineIsArc(b, i);
        return b[i].target;
      }
      i := i + 1;
    }
    ScannedBlock(b, nb, q, pointer, i);
    forall r ensures Arc(q, Label(up, lo), r) !in ArcsOf(b) {
      if Arc(q, Label(up, lo), r) in ArcsOf(b) {
        var k := ArcInBlock(b, q, pointer.transitions, i, Label(up, lo), r);
      }
    }
    btarget := -1;
  }

  /** An arcless line is the only line of its state. */
  ghost predicate ArclessAlone(a: seq<Line>) {
    forall i, j :: 0 <= i < |a| && 0 <= j < |a| && a[i].state == a[j].state && a[i].target == -1 ==> i == j
  }

  lemma ArcLineTarget(a: seq<Line>, na: nat, i: int)
    requires WellFormed(a, na) && 0 <= i < |a| && a[i].target != -1
    ensures a[i].target >= 0 && a[i].upper >= 0 && a[i].lower >= 0
  {
    assert LineOk(a[i], na);
  }

  lemma MoveFound(m: Machine<int>, p: int, l: Label, r: int)
    requires Arc(p, l, r) in m.arcs
    ensures HasMove(m, p, l)
  {
  }

  // ----- Residual languages, one move at a time -----

  lemma EmptyWord(m: Machine<int>, p: int)
    ensures AcceptsFrom(m, p, []) <==> p in m.finals
  {
    if p in m.finals {
      assert Reads(m, p, [], p);
    }
    if AcceptsFrom(m, p, []) {
      var q := AcceptingEnd(m, p, []);
    }
  }

  lemma AfterMove(m: Machine<int>, p: int, r: int, w: seq<Label>)
    requires Deterministic(m) && w != [] && Arc(p, w[0], r) in m.arcs
    ensures AcceptsFrom(m, p, w) <==> AcceptsFrom(m, r, w[1..])
  {
    if AcceptsFrom(m, p, w) {
      var q := AcceptingEnd(m, p, w);
      var s := ReadsHead(m, p, w, q);
      assert Arc(p, w[0], s).tgt == Arc(p, w[0], r).tgt;
    }
    if AcceptsFrom(m, r, w[1..]) {
      var q := AcceptingEnd(m, r, w[1..]);
      ReadsCons(m, p, w[0], r, w[1..], q);
      assert w == [w[0]] + w[1..];
    }
  }

  lemma NoMove(m: Machine<int>, p: int, w: seq<Label>)
    requires w != [] && !HasMove(m, p, w[0])
    ensures !AcceptsFrom(m, p, w)
  {
    if AcceptsFrom(m, p, w) {
      var q := AcceptingEnd(m, p, w);
      var s := ReadsHead(m, p, w, q);
    }
  }

  // ----- Flags, line by line -----

  ghost predicate FinalBefore(lines: seq<Line>, i: int, s: int)
    requires 0 <= i <= |lines|
  {
    exists k :: 0 <= k < i && lines[k].state == s && lines[k].final
  }

  ghost predicate StartBefore(lines: seq<Line>, i: int, s: int)
    requires 0 <= i <= |lines|
  {
    exists k :: 0 <= k < i && lines[k].state == s && lines[k].start
  }

  lemma NoStarts(lines: seq<Line>)
    ensures forall s :: !FinalBefore(lines, 0, s) && !StartBefore(lines, 0, s)
  {
  }

  lemma MoreBefore(lines: seq<Line>, i: int)
    requires 0 <= i < |lines|
    ensures forall s :: FinalBefore(lines, i + 1, s) <==> FinalBefore(lines, i, s)
                                                          || (lines[i].state == s && lines[i].final)
    ensures forall s :: StartBefore(lines, i + 1, s) <==> StartBefore(lines, i, s)
                                                          || (lines[i].state == s && lines[i].start)
  {
    forall s
      ensures FinalBefore(lines, i + 1, s) <==> FinalBefore(lines, i, s) || (lines[i].state == s && lines[i].final)
      ensures StartBefore(lines, i + 1, s) <==> StartBefore(lines, i, s) || (lines[i].state == s && lines[i].start)
    {
      MoreBeforeOne(lines, i, s);
    }
  }

  lemma MoreBeforeOne(lines: seq<Line>, i: int, s: int)
    requires 0 <= i < |lines|
    ensures FinalBefore(lines, i + 1, s) <==> FinalBefore(lines, i, s) || (lines[i].state == s && lines[i].final)
    ensures StartBefore(lines, i + 1, s) <==> StartBefore(lines, i, s) || (lines[i].state == s && lines[i].start)
  {
    if FinalBefore(lines, i, s) {
      var k :| 0 <= k < i && lines[k].state == s && lines[k].final;
      assert 0 <= k < i + 1;
    }
    if StartBefore(lines, i, s) {
      var k :| 0 <= k < i && lines[k].state == s && lines[k].start;
      assert 0 <= k < i + 1;
    }
  }

  lemma FlagsBefore(lines: seq<Line>)
    ensures forall s :: s in MachineOf(lines).finals <==> FinalBefore(lines, |lines|, s)
    ensures forall s :: s in MachineOf(lines).starts <==> StartBefore(lines, |lines|, s)
  {
    forall s ensures s in MachineOf(lines).finals <==> FinalBefore(lines, |lines|, s) {
      if s in MachineOf(lines).finals {
        var l :| l in lines && l.final && l.state == s;
        var k :| 0 <= k < |lines| && lines[k] == l;
      }
      if FinalBefore(lines, |lines|, s) {
        var k :| 0 <= k < |lines| && lines[k].state == s && lines[k].final;
        assert lines[k] in lines;
      }
    }
    forall s ensures s in MachineOf(lines).starts <==> StartBefore(lines, |lines|, s) {
      if s in MachineOf(lines).starts {
        var l :| l in lines && l.start && l.state == s;
        var k :| 0 <= k < |lines| && lines[k] == l;
      }
      if StartBefore(lines, |lines|, s) {
        var k :| 0 <= k < |lines| && lines[k].state == s && lines[k].start;
        assert lines[k] in lines;
      }
    }
  }
}
