/**
 The builder that product constructions and determinization emit their result with:
 state by state, arc by arc, skipping repeated arcs and 0:0 self loops, and noticing
 on the way whether the result can still be deterministic.
 */
module NetBuilding {
  import opened Automata

  /** Table entry for one symbol pair: the target last used with it, and when. */
  datatype Stamp = Stamp(target: int, mainloop: nat)

  ghost predicate Contiguous(lines: seq<Line>) {
    forall i, j, k :: 0 <= i < j < k < |lines| && lines[i].state == lines[k].state ==> lines[j].state == lines[i].state
  }

  ghost predicate FlagsAgree(lines: seq<Line>) {
    forall i, j :: 0 <= i < j < |lines| && lines[i].state == lines[j].state ==>
                     lines[i].final == lines[j].final && lines[i].start == lines[j].start
  }

  /** No state has two lines with the same symbol pair, and no line is 0:0. */
  ghost predicate OneArcPerLabel(lines: seq<Line>) {
    && (forall i, j :: 0 <= i < j < |lines| && lines[i].state == lines[j].state ==>
                       lines[i].ToLabel() != lines[j].ToLabel())
    && (forall l :: l in lines ==> l.ToLabel() != EPSILON_PAIR)
  }

  ghost predicate NoLineOf(lines: seq<Line>, p: int) {
    forall l :: l in lines ==> l.state != p
  }

  /** The lines from `first` on are those of the state `p` under construction, if one is. */
  ghost predicate LinesOk(lines: seq<Line>, first: nat, open: bool, p: int, final: bool, start: bool) {
    && first <= |lines|
    && Contiguous(lines) && FlagsAgree(lines)
    && (open ==> NoLineOf(lines[..first], p))
    && (open ==> forall l :: l in lines[first..] ==> l.state == p && l.final == final && l.start == start
                                                     && l.target >= 0)
  }

  ghost predicate InitialsOk(lines: seq<Line>, open: bool, p: int, start: bool, initials: set<int>, count: nat) {
    && count == |initials|
    && (forall l :: l in lines && l.start ==> l.state in initials)
    && (forall q :: q in initials ==> (open && q == p) || !NoLineOf(lines, q))
    && (open && start ==> p in initials)
  }

  predicate Carries(l: Line, x: int, y: int) {
    l.upper == x && l.lower == y
  }

  /** Line `i` is the last one with these symbols. */
  ghost predicate Newest(lines: seq<Line>, x: int, y: int, i: int) {
    0 <= i < |lines| && Carries(lines[i], x, y) && forall j :: i < j < |lines| ==> !Carries(lines[j], x, y)
  }

  /** The newest arc of state `p` with these symbols leads to `target`. */
  ghost predicate RepeatsNewest(lines: seq<Line>, p: int, x: int, y: int, target: int) {
    exists i :: Newest(lines, x, y, i) && lines[i].state == p && lines[i].target == target
  }

  /** A current stamp names the newest line of the current state; without one there is no such line. */
  ghost predicate StampOk(current: seq<Line>, x: int, y: int, s: Stamp, mainloop: nat) {
    && s.mainloop <= mainloop
    && (s.mainloop == mainloop ==> exists i :: Newest(current, x, y, i) && current[i].target == s.target)
    && (s.mainloop != mainloop ==> forall l :: l in current ==> !Carries(l, x, y))
  }

  // ----- Appending one line -----

  lemma LineAppended(lines: seq<Line>, first: nat, l: Line)
    requires LinesOk(lines, first, true, l.state, l.final, l.start) && l.target >= 0
    ensures LinesOk(lines + [l], first, true, l.state, l.final, l.start)
  {
    var lines' := lines + [l];
    assert lines'[..first] == lines[..first] && lines'[first..] == lines[first..] + [l];
    OldLinesDiffer(lines, first, l.state);
    forall i | first <= i < |lines|
      ensures lines[i].state == l.state && lines[i].final == l.final && lines[i].start == l.start
    {
      assert lines[i] in lines[first..];
    }
  }

  lemma OldLinesDiffer(lines: seq<Line>, first: nat, p: int)
    requires first <= |lines| && NoLineOf(lines[..first], p)
    ensures forall i :: 0 <= i < first ==> lines[i].state != p
  {
    forall i | 0 <= i < first ensures lines[i].state != p {
      assert lines[i] in lines[..first];
    }
  }

  /** A state closed without arcs. */
  lemma ArclessAppended(lines: seq<Line>, l: Line)
    requires LinesOk(lines, |lines|, true, l.state, l.final, l.start)
    ensures LinesOk(lines + [l], |lines| + 1, false, l.state, l.final, l.start)
  {
    OldLinesDiffer(lines, |lines|, l.state);
    assert (lines + [l])[|lines| + 1..] == [];
  }

  lemma DetAppended(lines: seq<Line>, first: nat, l: Line)
    requires OneArcPerLabel(lines) && LinesOk(lines, first, true, l.state, l.final, l.start)
    requires l.ToLabel() != EPSILON_PAIR
    requires forall k :: k in lines[first..] ==> !Carries(k, l.upper, l.lower)
    ensures OneArcPerLabel(lines + [l])
  {
    OldLinesDiffer(lines, first, l.state);
    forall i | first <= i < |lines| ensures lines[i].ToLabel() != l.ToLabel() {
      assert lines[i] in lines[first..];
    }
  }

  lemma InitialsAppended(lines: seq<Line>, open: bool, l: Line, initials: set<int>, count: nat)
    requires InitialsOk(lines, true, l.state, l.start, initials, count)
    ensures InitialsOk(lines + [l], open, l.state, l.start, initials, count)
  {
    forall q | q in initials ensures !NoLineOf(lines + [l], q) {
      if q == l.state {
        assert l in lines + [l];
      } else {
        var k :| k in lines && k.state == q;
        assert k in lines + [l];
      }
    }
  }

  /** Starting a state that has no lines yet. */
  lemma StateOpened(lines: seq<Line>, q: int, qFinal: bool, qStart: bool, p: int, final: bool, start: bool,
                    initials: set<int>, count: nat)
    requires LinesOk(lines, |lines|, false, q, qFinal, qStart) && InitialsOk(lines, false, q, qStart, initials, count)
    requires NoLineOf(lines, p)
    ensures LinesOk(lines, |lines|, true, p, final, start)
    ensures InitialsOk(lines, true, p, start, if start then initials + {p} else initials,
                       if start then count + 1 else count)
  {
    assert lines[..|lines|] == lines && lines[|lines|..] == [];
  }

  /** Finishing a state that has a line. */
  lemma StateClosed(lines: seq<Line>, first: nat, p: int, final: bool, start: bool, initials: set<int>, count: nat)
    requires LinesOk(lines, first, true, p, final, start) && InitialsOk(lines, true, p, start, initials, count)
    requires first < |lines|
    ensures LinesOk(lines, |lines|, false, p, final, start)
    ensures InitialsOk(lines, false, p, start, initials, count)
    ensures HasState(lines, p)
  {
    assert lines[first] in lines[first..];
    assert lines[first].state == p;
  }

  lemma StampKept(current: seq<Line>, l: Line, x: int, y: int, s: Stamp, mainloop: nat)
    requires StampOk(current, x, y, s, mainloop) && !Carries(l, x, y)
    ensures StampOk(current + [l], x, y, s, mainloop)
  {
    if s.mainloop == mainloop {
      var i :| Newest(current, x, y, i) && current[i].target == s.target;
      assert Newest(current + [l], x, y, i);
    }
  }

  lemma FreshPair(current: seq<Line>, x: int, y: int, s: Stamp, mainloop: nat)
    requires StampOk(current, x, y, s, mainloop) && s.mainloop != mainloop
    ensures forall k :: k in current ==> !Carries(k, x, y)
  {
  }

  lemma StampNew(current: seq<Line>, l: Line, mainloop: nat)
    ensures StampOk(current + [l], l.upper, l.lower, Stamp(l.target, mainloop), mainloop)
  {
    assert Newest(current + [l], l.upper, l.lower, |current|);
  }

  /** A current stamp stands for the newest arc of the current state with its symbols. */
  lemma RepeatedArc(lines: seq<Line>, first: nat, p: int, final: bool, start: bool, up: int, lo: int, s: Stamp,
                    mainloop: nat)
    requires LinesOk(lines, first, true, p, final, start)
    requires StampOk(lines[first..], up, lo, s, mainloop) && s.mainloop == mainloop
    ensures Arc(p, Label(up, lo), s.target) in ArcsOf(lines)
    ensures forall target :: RepeatsNewest(lines, p, up, lo, target) <==> target == s.target
  {
    var i :| Newest(lines[first..], up, lo, i) && lines[first..][i].target == s.target;
    var l := lines[first..][i];
    assert l in lines[first..] && l in lines && l.ToArc() == Arc(p, Label(up, lo), s.target);
    NewestShifted(lines, first, up, lo, i);
    forall k | Newest(lines, up, lo, k) ensures k == first + i {
      assert !(k < first + i) && !(first + i < k);
    }
  }

  lemma NewestShifted(lines: seq<Line>, first: nat, x: int, y: int, i: int)
    requires first <= |lines| && Newest(lines[first..], x, y, i)
    ensures Newest(lines, x, y, first + i)
  {
    forall j | first + i < j < |lines| ensures !Carries(lines[j], x, y) {
      assert lines[j] == lines[first..][j - first];
    }
  }

  /** Without a current stamp, no arc of the current state has the symbols. */
  lemma NewArc(lines: seq<Line>, first: nat, p: int, final: bool, start: bool, up: int, lo: int)
    requires LinesOk(lines, first, true, p, final, start)
    requires forall k :: k in lines[first..] ==> !Carries(k, up, lo)
    ensures forall target :: !RepeatsNewest(lines, p, up, lo, target)
  {
    OldLinesDiffer(lines, first, p);
    forall i | first <= i < |lines| ensures !Carries(lines[i], up, lo) {
      assert lines[i] in lines[first..];
    }
  }

  lemma ArcAppended(lines: seq<Line>, l: Line)
    ensures l.target >= 0 ==> l.ToArc() in ArcsOf(lines + [l])
    ensures l.target >= 0 ==> ArcsOf(lines + [l]) == ArcsOf(lines) + iset{l.ToArc()}
    ensures l.target < 0 ==> ArcsOf(lines + [l]) == ArcsOf(lines)
  {
    assert forall k :: k in lines + [l] <==> k in lines || k == l;
  }

  /** All that the builder keeps about its lines survives one more arc. */
  lemma StillOk(lines: seq<Line>, first: nat, l: Line, deterministic: bool, initials: set<int>, count: nat)
    requires LinesOk(lines, first, true, l.state, l.final, l.start)
             && InitialsOk(lines, true, l.state, l.start, initials, count)
    requires l.target >= 0
    requires deterministic ==> OneArcPerLabel(lines) && l.ToLabel() != EPSILON_PAIR
                               && forall k :: k in lines[first..] ==> !Carries(k, l.upper, l.lower)
    ensures LinesOk(lines + [l], first, true, l.state, l.final, l.start)
    ensures InitialsOk(lines + [l], true, l.state, l.start, initials, count)
    ensures deterministic ==> OneArcPerLabel(lines + [l])
    ensures l.ToArc() in ArcsOf(lines + [l])
    ensures first <= |lines| && (lines + [l])[first..] == lines[first..] + [l]
  {
    hide InitialsOk, OneArcPerLabel;
    LineAppended(lines, first, l);
    InitialsAppended(lines, true, l, initials, count);
    ArcAppended(lines, l);
    if deterministic {
      DetAppended(lines, first, l);
    }
  }

  /** The same for the arcless line of a state that has no arc. */
  lemma ArclessEnd(lines: seq<Line>, l: Line, deterministic: bool, initials: set<int>, count: nat)
    requires LinesOk(lines, |lines|, true, l.state, l.final, l.start)
             && InitialsOk(lines, true, l.state, l.start, initials, count)
    requires l.target == -1 && l.upper == -1 && l.lower == -1 && (deterministic ==> OneArcPerLabel(lines))
    ensures LinesOk(lines + [l], |lines| + 1, false, l.state, l.final, l.start)
    ensures InitialsOk(lines + [l], false, l.state, l.start, initials, count)
    ensures deterministic ==> OneArcPerLabel(lines + [l])
    ensures HasState(lines + [l], l.state) && ArcsOf(lines + [l]) == ArcsOf(lines)
  {
    hide LinesOk, InitialsOk, OneArcPerLabel;
    ArclessAppended(lines, l);
    InitialsAppended(lines, false, l, initials, count);
    ArcAppended(lines, l);
    assert (lines + [l])[|lines|].state == l.state;
    if deterministic {
      DetAppended(lines, |lines|, l);
    }
  }

  /** The stamp table lists the symbol pairs of the current state, each with its newest target. */
  ghost predicate Stamped(table: array2<Stamp>, mainloop: nat, current: seq<Line>)
    reads table
  {
    forall x, y :: 0 <= x < table.Length0 && 0 <= y < table.Length1 ==> StampOk(current, x, y, table[x, y], mainloop)
  }

  /** In the next round no stamp is current. */
  lemma StampsExpire(table: array2<Stamp>, mainloop: nat, current: seq<Line>)
    requires Stamped(table, mainloop, current)
    ensures Stamped(table, mainloop + 1, [])
  {
    forall x, y | 0 <= x < table.Length0 && 0 <= y < table.Length1
      ensures StampOk([], x, y, table[x, y], mainloop + 1)
    {
      assert StampOk(current, x, y, table[x, y], mainloop);
    }
  }

  lemma StampAt(table: array2<Stamp>, mainloop: nat, current: seq<Line>, x: int, y: int)
    requires Stamped(table, mainloop, current) && 0 <= x < table.Length0 && 0 <= y < table.Length1
    ensures StampOk(current, x, y, table[x, y], mainloop)
  {
  }

  method StampPair(table: array2<Stamp>, mainloop: nat, ghost current: seq<Line>, l: Line)
    requires table.Length0 == table.Length1 && 0 <= l.upper < table.Length0 && 0 <= l.lower < table.Length0
    requires Stamped(table, mainloop, current)
    modifies table
    ensures Stamped(table, mainloop, current + [l])
  {
    hide StampOk;
    table[l.upper, l.lower] := Stamp(l.target, mainloop);
    StampNew(current, l, mainloop);
    forall x, y | 0 <= x < table.Length0 && 0 <= y < table.Length1 && (x != l.upper || y != l.lower)
      ensures StampOk(current + [l], x, y, table[x, y], mainloop)
    {
      assert old(StampOk(current, x, y, table[x, y], mainloop));
      StampKept(current, l, x, y, table[x, y], mainloop);
    }
  }

  class NetBuilder {
    var lines: seq<Line>
    var stateNo: int
    var final: bool
    var start: bool
    var hasTrans: bool
    var numFinals: nat
    var numInitials: nat
    var stateCount: nat
    var arcCount: nat
    var arity: int
    var isDeterministic: bool
    var isEpsilonFree: bool
    var mainloop: nat
    const slookup: array2<Stamp>
    /** Where the lines of the current state begin. */
    ghost var first: nat
    /** A state is being built. */
    ghost var open: bool
    ghost var initials: set<int>

    ghost predicate Valid()
      reads this, slookup
    {
      && slookup.Length0 == slookup.Length1
      && first <= |lines| && (!open ==> first == |lines|) && LinesOk(lines, first, open, stateNo, final, start)
      && 0 < mainloop
      && (open ==> hasTrans == (first < |lines|))
      && (isDeterministic ==> OneArcPerLabel(lines))
      && InitialsOk(lines, open, stateNo, start, initials, numInitials)
      && Stamped(slookup, mainloop, lines[first..])
    }

    constructor (sigmaMax: int)
      requires -1 <= sigmaMax
      ensures Valid() && fresh(slookup)
      ensures slookup.Length0 == sigmaMax + 1
      ensures lines == [] && !open && isDeterministic && stateCount == 0
    {
      lines := [];
      stateNo, final, start, hasTrans := -1, false, false, true;
      numFinals, numInitials, stateCount, arcCount, arity := 0, 0, 0, 0, 1;
      isDeterministic, isEpsilonFree := true, true;
      mainloop := 1;
      slookup := new Stamp[sigmaMax + 1, sigmaMax + 1]((_, _) => Stamp(0, 0));
      first, open, initials := 0, false, {};
    }

    method SetCurrentState(p: int, isFinal: bool, isStart: bool)
      requires Valid() && !open && NoLineOf(lines, p)
      modifies this
      ensures Valid() && open && stateNo == p && final == isFinal && start == isStart
      ensures lines == old(lines) && first == |lines| && stateCount == old(stateCount)
    {
      hide LinesOk, InitialsOk, OneArcPerLabel, Stamped, NoLineOf;
      StateOpened(lines, stateNo, final, start, p, isFinal, isStart, initials, numInitials);
      stateNo, final, start, hasTrans := p, isFinal, isStart, false;
      open := true;
      CountFlags();
    }

    /** The part of starting a state that counts its flags. */
    method CountFlags()
      modifies this`numFinals, this`numInitials, this`initials
      ensures initials == old(if start then initials + {stateNo} else initials)
      ensures numInitials == old(if start then numInitials + 1 else numInitials)
    {
      if final {
        numFinals := numFinals + 1;
      }
      if start {
        numInitials := numInitials + 1;
        initials := initials + {stateNo};
      }
    }

    /** Adds an arc of the current state, unless it is a 0:0 self loop or repeats the newest arc with its symbols. */
    method AddArc(up: int, lo: int, target: int)
      requires Valid() && open && 0 <= up < slookup.Length0 && 0 <= lo < slookup.Length0 && 0 <= target
      modifies this, slookup
      ensures Valid() && open && stateNo == old(stateNo) && final == old(final) && start == old(start)
      ensures stateCount == old(stateCount)
      ensures lines == if (Label(up, lo) == EPSILON_PAIR && target == stateNo)
              || RepeatsNewest(old(lines), stateNo, up, lo, target)
                       then old(lines) else old(lines) + [Line(stateNo, up, lo, target, final, start)]
      ensures Arc(stateNo, Label(up, lo), target) in ArcsOf(lines)
              || (Label(up, lo) == EPSILON_PAIR && target == stateNo)
    {
      hide LinesOk, InitialsOk, StampOk, OneArcPerLabel, Stamped, ArcsOf, RepeatsNewest;
      NoteLabel(up, lo, target);
      if up == EPSILON && lo == EPSILON && stateNo == target {
        return;
      }
      StampAt(slookup, mainloop, lines[first..], up, lo);
      if slookup[up, lo].mainloop == mainloop {
        RepeatedArc(lines, first, stateNo, final, start, up, lo, slookup[up, lo], mainloop);
        if slookup[up, lo].target == target {
          return;
        }
        isDeterministic := false;
      } else {
        FreshPair(lines[first..], up, lo, slookup[up, lo], mainloop);
        NewArc(lines, first, stateNo, final, start, up, lo);
      }
      arcCount := arcCount + 1;
      Append(up, lo, target);
    }

    /** The part of adding an arc that notes what its symbols say about the whole net. */
    method NoteLabel(up: int, lo: int, target: int)
      requires Valid()
      modifies this`arity, this`isDeterministic, this`isEpsilonFree
      ensures Valid()
      ensures up == EPSILON && lo == EPSILON && target != stateNo ==> !isDeterministic
    {
      hide LinesOk, InitialsOk, StampOk, OneArcPerLabel, Stamped, ArcsOf;
      if up != lo {
        arity := 2;
      }
      if up == EPSILON && lo == EPSILON && stateNo != target {
        isDeterministic, isEpsilonFree := false, false;
      }
    }

    /** The part of adding an arc that stamps its symbol pair and stores the line. */
    method Append(up: int, lo: int, target: int)
      requires Valid() && open && 0 <= up < slookup.Length0 && 0 <= lo < slookup.Length0 && 0 <= target
      requires isDeterministic ==> slookup[up, lo].mainloop != mainloop && Label(up, lo) != EPSILON_PAIR
      modifies this`lines, this`hasTrans, slookup
      ensures Valid()
      ensures lines == old(lines) + [Line(stateNo, up, lo, target, final, start)]
      ensures Arc(stateNo, Label(up, lo), target) in ArcsOf(lines)
    {
      hide LinesOk, InitialsOk, OneArcPerLabel, ArcsOf, StampOk, Stamped;
      var l := Line(stateNo, up, lo, target, final, start);
      if isDeterministic {
        StampAt(slookup, mainloop, lines[first..], up, lo);
        FreshPair(lines[first..], up, lo, slookup[up, lo], mainloop);
      }
      StillOk(lines, first, l, isDeterministic, initials, numInitials);
      StampPair(slookup, mainloop, lines[first..], l);
      hasTrans := true;
      lines := lines + [l];
    }

    /** Closes the current state; a state without arcs gets its one arcless line. */
    method EndState()
      requires Valid() && open
      modifies this
      ensures Valid() && !open
      ensures lines == old(lines) || lines == old(lines) + [Line(old(stateNo), -1, -1, -1, old(final), old(start))]
      ensures HasState(lines, old(stateNo))
      ensures ArcsOf(lines) == old(ArcsOf(lines))
      ensures stateCount == old(stateCount) + 1
    {
      hide LinesOk, InitialsOk, OneArcPerLabel, Stamped, StampOk, HasState, ArcsOf;
      StampsExpire(slookup, mainloop, lines[first..]);
      ghost var l := Line(stateNo, -1, -1, -1, final, start);
      if !hasTrans {
        ArclessEnd(lines, l, isDeterministic, initials, numInitials);
        lines := lines + [Line(stateNo, -1, -1, -1, final, start)];
      } else {
        StateClosed(lines, first, stateNo, final, start, initials, numInitials);
      }
      stateCount := stateCount + 1;
      mainloop := mainloop + 1;
      first := |lines|;
      open := false;
      assert lines[first..] == [];
    }

    /** Ends the construction: the finished net, and whether it is known to be deterministic. */
    method Close() returns (net: seq<Line>, deterministic: bool)
      requires Valid() && !open
      modifies this`isDeterministic
      ensures net == lines && Contiguous(net) && FlagsAgree(net)
      ensures deterministic ==> Deterministic(MachineOf(net))
    {
      if numInitials > 1 {
        isDeterministic := false;
      }
      net, deterministic := lines, isDeterministic;
      if isDeterministic {
        UniqueInitial(lines, stateNo, start, initials, numInitials);
        KnownDeterministic(lines);
      }
    }
  }

  lemma UniqueInitial(lines: seq<Line>, p: int, start: bool, initials: set<int>, count: nat)
    requires InitialsOk(lines, false, p, start, initials, count) && count <= 1
    ensures forall k, l :: k in lines && l in lines && k.start && l.start ==> k.state == l.state
  {
    forall k, l | k in lines && l in lines && k.start && l.start ensures k.state == l.state {
      var others := initials - {k.state};
      assert |others| == |initials| - 1;
      assert l.state !in others;
    }
  }

  /** What the builder's flag stands for. */
  lemma KnownDeterministic(lines: seq<Line>)
    requires OneArcPerLabel(lines)
    requires forall k, l :: k in lines && l in lines && k.start && l.start ==> k.state == l.state
    ensures Deterministic(MachineOf(lines))
  {
    var m := MachineOf(lines);
    forall a, b | a in m.arcs && b in m.arcs && a.src == b.src && a.lab == b.lab ensures a.tgt == b.tgt {
      var k :| k in lines && k.target >= 0 && k.ToArc() == a;
      var l :| l in lines && l.target >= 0 && l.ToArc() == b;
      var i :| 0 <= i < |lines| && lines[i] == k;
      var j :| 0 <= j < |lines| && lines[j] == l;
    }
  }
}
