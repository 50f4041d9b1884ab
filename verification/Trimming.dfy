/**
 What trimming does to a net, as functions on values: which states survive, how they are
 renumbered, which lines come out, and why an in-place compaction can produce them.
 */
module Trimming {
  import opened Automata

  // ----- The machine restricted to its coaccessible states -----

  /** `t` is `m` restricted to the states `keep`, renumbered by `mapping`. */
  ghost predicate Restricts(m: Machine<int>, t: Machine<int>, keep: set<int>, mapping: seq<int>) {
    && (forall s :: s in keep ==> 0 <= s < |mapping|)
    && (forall s, r :: s in keep && r in keep && mapping[s] == mapping[r] ==> s == r)
    && (forall a :: a in m.arcs && a.src in keep && a.tgt in keep ==>
                    Arc(mapping[a.src], a.lab, mapping[a.tgt]) in t.arcs)
    && (forall a :: a in t.arcs ==> exists s, r :: s in keep && r in keep && mapping[s] == a.src && mapping[r] == a.tgt
                                                   && Arc(s, a.lab, r) in m.arcs)
    && (forall s :: s in keep ==> (s in m.finals <==> mapping[s] in t.finals)
                                  && (s in m.starts <==> mapping[s] in t.starts))
    && (forall x :: x in t.finals || x in t.starts ==> exists s :: s in keep && mapping[s] == x)
  }

  lemma {:induction false} RestrictedForth(m: Machine<int>, t: Machine<int>, keep: set<int>, mapping: seq<int>, p: int,
                                           w: seq<Label>, q: int)
    requires Restricts(m, t, keep, mapping) && Reads(m, p, w, q) && q in m.finals
    requires forall s, v :: AcceptsFrom(m, s, v) ==> s in keep
    ensures p in keep && q in keep && Reads(t, mapping[p], w, mapping[q])
    decreases |w|
  {
    assert AcceptsFrom(m, p, w) && AcceptsFrom(m, q, []);
    if w != [] {
      var r := ReadsHead(m, p, w, q);
      RestrictedForth(m, t, keep, mapping, r, w[1..], q);
      var a := Arc(p, w[0], r);
      assert a in m.arcs && a.src in keep && a.tgt in keep;
      assert Arc(mapping[p], w[0], mapping[r]) in t.arcs;
    }
  }

  lemma {:induction false} RestrictedBack(m: Machine<int>, t: Machine<int>, keep: set<int>, mapping: seq<int>, p: int,
                                          w: seq<Label>, y: int)
    returns (q: int)
    requires Restricts(m, t, keep, mapping) && p in keep && Reads(t, mapping[p], w, y)
    ensures q in keep && mapping[q] == y && Reads(m, p, w, q)
    decreases |w|
  {
    if w == [] {
      return p;
    }
    var x := ReadsHead(t, mapping[p], w, y);
    var a := Arc(mapping[p], w[0], x);
    assert a in t.arcs;
    var s, r :| s in keep && r in keep && mapping[s] == a.src && mapping[r] == a.tgt && Arc(s, a.lab, r) in m.arcs;
    q := RestrictedBack(m, t, keep, mapping, r, w[1..], y);
  }

  /** Cutting everything that no accepting path visits keeps the language. */
  lemma RestrictionKeepsLanguage(m: Machine<int>, t: Machine<int>, keep: set<int>, mapping: seq<int>)
    requires Restricts(m, t, keep, mapping)
    requires forall s, v :: AcceptsFrom(m, s, v) ==> s in keep
    ensures forall w :: Accepts(m, w) <==> Accepts(t, w)
    ensures forall s, w :: s in keep ==> (AcceptsFrom(m, s, w) <==> AcceptsFrom(t, mapping[s], w))
  {
    forall s, w | s in keep ensures AcceptsFrom(m, s, w) <==> AcceptsFrom(t, mapping[s], w) {
      if AcceptsFrom(m, s, w) {
        var q := AcceptingEnd(m, s, w);
        RestrictedForth(m, t, keep, mapping, s, w, q);
      }
      if AcceptsFrom(t, mapping[s], w) {
        var y := AcceptingEnd(t, mapping[s], w);
        var q := RestrictedBack(m, t, keep, mapping, s, w, y);
      }
    }
    forall w ensures Accepts(m, w) <==> Accepts(t, w) {
      if Accepts(m, w) {
        var p, q := AcceptingPath(m, w);
        RestrictedForth(m, t, keep, mapping, p, w, q);
      }
      if Accepts(t, w) {
        var x, y := AcceptingPath(t, w);
        var p :| p in keep && mapping[p] == x;
        var q := RestrictedBack(m, t, keep, mapping, p, w, y);
      }
    }
  }

  // ----- Dense, order-preserving renumbering -----

  /** How many of the states below `i` survive. */
  ghost function Rank(keep: set<int>, i: nat): nat {
    if i == 0 then 0 else Rank(keep, i - 1) + (if i - 1 in keep then 1 else 0)
  }

  lemma {:induction false} RankMonotone(keep: set<int>, i: nat, j: nat)
    requires i <= j
    ensures Rank(keep, i) <= Rank(keep, j) <= Rank(keep, i) + j - i
    ensures i < j && i in keep ==> Rank(keep, i) < Rank(keep, j)
    decreases j
  {
    if i < j {
      RankMonotone(keep, i, j - 1);
    }
  }

  /** A state keeps its number exactly if no smaller state is cut. */
  lemma {:induction false} RankShifts(keep: set<int>, i: nat)
    ensures Rank(keep, i) <= i
    ensures Rank(keep, i) == i || exists d :: 0 <= d < i && d !in keep
  {
    if i != 0 {
      RankShifts(keep, i - 1);
    }
  }

  lemma {:induction false} RankOnto(keep: set<int>, n: nat, x: nat) returns (s: nat)
    requires x < Rank(keep, n)
    ensures s < n && s in keep && Rank(keep, s) == x
  {
    if n - 1 in keep && x == Rank(keep, n - 1) {
      s := n - 1;
    } else {
      s := RankOnto(keep, n - 1, x);
    }
  }

  // ----- The lines that come out -----

  predicate Kept(l: Line, keep: set<int>) {
    l.state in keep && (l.target == -1 || l.target in keep)
  }

  /** States and targets of the lines are numbers that `mapping` knows. */
  ghost predicate InMap(lines: seq<Line>, mapping: seq<int>) {
    forall i :: 0 <= i < |lines| ==> 0 <= lines[i].state < |mapping| && -1 <= lines[i].target < |mapping|
  }

  function Renumbered(l: Line, mapping: seq<int>): Line
    requires 0 <= l.state < |mapping| && -1 <= l.target < |mapping|
  {
    l.(state := mapping[l.state], target := if l.target == -1 then -1 else mapping[l.target])
  }

  /** The line of a final state that has lost all its arcs. */
  function Bare(l: Line, mapping: seq<int>): Line
    requires 0 <= l.state < |mapping|
  {
    Line(mapping[l.state], -1, -1, -1, true, l.start)
  }

  ghost predicate AnyKept(lines: seq<Line>, keep: set<int>, i: int, s: int)
    requires 0 <= i <= |lines|
  {
    exists h :: 0 <= h < i && lines[h].state == s && Kept(lines[h], keep)
  }

  /** The state of the line before `i` is final and none of its lines so far has been kept. */
  ghost predicate Owed(lines: seq<Line>, keep: set<int>, i: int)
    requires 0 <= i <= |lines|
  {
    0 < i && lines[i - 1].final && !AnyKept(lines, keep, i, lines[i - 1].state)
  }

  /** A bare line is due before line `i`. */
  ghost predicate Due(lines: seq<Line>, keep: set<int>, i: int)
    requires 0 <= i < |lines|
  {
    0 < i && lines[i].state != lines[i - 1].state && Owed(lines, keep, i)
  }

  /** What the first `i` lines turn into. */
  ghost function Output(lines: seq<Line>, keep: set<int>, mapping: seq<int>, i: int): seq<Line>
    requires 0 <= i <= |lines| && InMap(lines, mapping)
    decreases i
  {
    if i == 0 then []
    else
      Output(lines, keep, mapping, i - 1)
      + (if Due(lines, keep, i - 1) then [Bare(lines[i - 2], mapping)] else [])
      + (if Kept(lines[i - 1], keep) then [Renumbered(lines[i - 1], mapping)] else [])
  }

  /** The whole result. */
  ghost function Trim(lines: seq<Line>, keep: set<int>, mapping: seq<int>): seq<Line>
    requires InMap(lines, mapping)
  {
    Output(lines, keep, mapping, |lines|) + (if Owed(lines, keep,
                                                     |lines|) then [Bare(lines[|lines| - 1], mapping)] else [])
  }

  // ----- The write index stays behind the read index -----

  ghost predicate ContiguousStates(lines: seq<Line>) {
    forall i, j, k :: 0 <= i < j < k < |lines| && lines[i].state == lines[k].state ==> lines[j].state == lines[i].state
  }

  ghost predicate FinalsKept(lines: seq<Line>, keep: set<int>) {
    forall i :: 0 <= i < |lines| && lines[i].final ==> lines[i].state in keep
  }

  /** A line has been lost for good: one of a non-final state, or one of two lines of the same state. */
  ghost predicate Lost(lines: seq<Line>, keep: set<int>, i: int)
    requires 0 <= i <= |lines|
  {
    || (exists h :: 0 <= h < i && !lines[h].final && !Kept(lines[h], keep))
    || (exists k, h :: 0 <= k < i && 0 <= h < i && k != h && lines[k].state == lines[h].state && !Kept(lines[k], keep))
  }

  ghost predicate FlagsSame(lines: seq<Line>) {
    forall i, j :: 0 <= i < j < |lines| && lines[i].state == lines[j].state ==>
                     lines[i].final == lines[j].final && lines[i].start == lines[j].start
  }

  lemma {:induction false} OutputBound(lines: seq<Line>, keep: set<int>, mapping: seq<int>, i: int)
    requires 0 <= i <= |lines| && InMap(lines, mapping)
    requires ContiguousStates(lines) && FinalsKept(lines, keep) && FlagsSame(lines)
    ensures |Output(lines, keep, mapping, i)| + (if Owed(lines, keep, i) then 1 else 0)
            + (if Lost(lines, keep, i) then 1 else 0) <= i
    decreases i
  {
    if i == 0 {
      return;
    }
    OutputBound(lines, keep, mapping, i - 1);
    var l := lines[i - 1];
    if i > 1 && lines[i - 2].state == l.state {
      OutputBoundSame(lines, keep, i);
    } else {
      OutputBoundNew(lines, keep, i);
    }
  }

  /** The line continues the state of the line before it. */
  lemma OutputBoundSame(lines: seq<Line>, keep: set<int>, i: int)
    requires 1 < i <= |lines| && ContiguousStates(lines) && FinalsKept(lines, keep) && FlagsSame(lines)
    requires lines[i - 2].state == lines[i - 1].state
    ensures !Due(lines, keep, i - 1)
    ensures Kept(lines[i - 1], keep) ==> !Owed(lines, keep, i)
    ensures !Kept(lines[i - 1], keep) ==> (Owed(lines, keep, i) <==> Owed(lines, keep, i - 1))
    ensures Kept(lines[i - 1], keep) && Lost(lines, keep, i) ==> Owed(lines, keep, i - 1) || Lost(lines, keep, i - 1)
    ensures !lines[i - 1].final ==> !Owed(lines, keep, i)
  {
    var l := lines[i - 1];
    assert lines[i - 2].final == l.final;
    if Kept(l, keep) && Lost(lines, keep, i) && !Lost(lines, keep, i - 1) {
      var k, h :| 0 <= k < i && 0 <= h < i && k != h && lines[k].state == lines[h].state && !Kept(lines[k], keep);
      assert k < i - 1 == h && lines[k].state == l.state && lines[k].final == l.final;
      assert !AnyKept(lines, keep, i - 1, l.state);
    }
    assert Owed(lines, keep, i - 1) ==> !AnyKept(lines, keep, i - 1, l.state);
    assert Kept(l, keep) ==> AnyKept(lines, keep, i, l.state);
  }

  /** The line opens a new state. */
  lemma OutputBoundNew(lines: seq<Line>, keep: set<int>, i: int)
    requires 0 < i <= |lines| && ContiguousStates(lines) && FinalsKept(lines, keep)
    requires i > 1 ==> lines[i - 2].state != lines[i - 1].state
    ensures Due(lines, keep, i - 1) ==> Owed(lines, keep, i - 1)
    ensures Kept(lines[i - 1], keep) ==> !Owed(lines, keep, i)
    ensures !lines[i - 1].final ==> !Owed(lines, keep, i)
    ensures Lost(lines, keep, i) && (lines[i - 1].final || Kept(lines[i - 1], keep)) ==> Lost(lines, keep, i - 1)
  {
    var l := lines[i - 1];
    assert Kept(l, keep) ==> AnyKept(lines, keep, i, l.state);
    assert forall h :: 0 <= h < i - 2 ==> lines[h].state != l.state;
  }

  /** Surviving states are numbered by how many survivors come before them. */
  ghost predicate MapOk(mapping: seq<int>, keep: set<int>) {
    forall s :: s in keep ==> 0 <= s < |mapping| && mapping[s] == Rank(keep, s)
  }

  /**
   Whenever the write index has caught up with the read index, nothing has been lost so far, no
   number has shifted, and the line just overwritten still has its old state number and flags.
   */
  lemma Coincide(lines: seq<Line>, keep: set<int>, mapping: seq<int>, i: int)
    requires 0 < i <= |lines| && InMap(lines, mapping) && MapOk(mapping, keep)
    requires ContiguousStates(lines) && FinalsKept(lines, keep) && FlagsSame(lines) && Orderly(lines)
    requires |Output(lines, keep, mapping, i)| == i
    ensures var l := Output(lines, keep, mapping, i)[i - 1];
            l.state == lines[i - 1].state && l.final == lines[i - 1].final && l.start == lines[i - 1].start
  {
    OutputBound(lines, keep, mapping, i);
    assert !Owed(lines, keep, i) && !Lost(lines, keep, i);
    var l := lines[i - 1];
    LastIsKept(lines, keep, i);
    RankShifts(keep, l.state);
    if d :| 0 <= d < l.state && d !in keep {
      ShiftMeansLoss(lines, keep, i, d);
    }
  }

  lemma LastIsKept(lines: seq<Line>, keep: set<int>, i: int)
    requires 0 < i <= |lines|
    ensures Kept(lines[i - 1], keep) || Owed(lines, keep, i) || Lost(lines, keep, i)
  {
    if !Kept(lines[i - 1], keep) && AnyKept(lines, keep, i, lines[i - 1].state) {
      var h :| 0 <= h < i && lines[h].state == lines[i - 1].state && Kept(lines[h], keep);
      assert h != i - 1;
    }
  }

  lemma ShiftMeansLoss(lines: seq<Line>, keep: set<int>, i: int, d: int)
    requires 0 < i <= |lines| && Orderly(lines) && FinalsKept(lines, keep)
    requires 0 <= d < lines[i - 1].state && d !in keep
    requires forall h :: 0 <= h < |lines| ==> lines[h].target >= -1
    ensures Lost(lines, keep, i)
  {
    if BuiltBefore(lines, i - 1, d) {
      var h :| 0 <= h < i - 1 && lines[h].state == d;
      assert !lines[h].final && !Kept(lines[h], keep);
    } else {
      var k, h :| 0 <= k < i - 1 && 0 <= h < i - 1 && k != h && lines[k].state == lines[h].state
      && lines[k].target == d;
      assert !Kept(lines[k], keep);
    }
  }

  // ----- The result as a machine -----

  /** The index of the line that each output line stems from. */
  ghost function Sources(lines: seq<Line>, keep: set<int>, i: int): (src: seq<int>)
    requires 0 <= i <= |lines|
    ensures forall x :: 0 <= x < |src| ==> 0 <= src[x] < i
    decreases i
  {
    if i == 0 then []
    else
      Sources(lines, keep, i - 1)
      + (if Due(lines, keep, i - 1) then [i - 2] else [])
      + (if Kept(lines[i - 1], keep) then [i - 1] else [])
  }

  /** An output line: a kept line, renumbered, or the bare line of a final state. */
  ghost predicate StemsFrom(l: Line, source: Line, keep: set<int>, mapping: seq<int>)
    requires 0 <= source.state < |mapping| && -1 <= source.target < |mapping|
  {
    || (Kept(source, keep) && l == Renumbered(source, mapping))
    || (source.final && l == Bare(source, mapping))
  }

  lemma {:induction false} OutputStems(lines: seq<Line>, keep: set<int>, mapping: seq<int>, i: int)
    requires 0 <= i <= |lines| && InMap(lines, mapping)
    ensures |Sources(lines, keep, i)| == |Output(lines, keep, mapping, i)|
    ensures forall x :: 0 <= x < |Sources(lines, keep, i)| ==>
                          StemsFrom(Output(lines, keep, mapping, i)[x], lines[Sources(lines, keep, i)[x]], keep,
                                    mapping)
    decreases i
  {
    if i != 0 {
      OutputStems(lines, keep, mapping, i - 1);
    }
  }

  /** The sources increase; a bare line is due only while its state has no line in the output. */
  lemma {:induction false} SourcesIncrease(lines: seq<Line>, keep: set<int>, i: int)
    requires 0 <= i <= |lines|
    ensures forall x, y :: 0 <= x < y < |Sources(lines, keep, i)| ==>
                           Sources(lines, keep, i)[x] <= Sources(lines, keep, i)[y]
    decreases i
  {
    if i != 0 {
      SourcesIncrease(lines, keep, i - 1);
    }
  }

  ghost function TrimSources(lines: seq<Line>, keep: set<int>): seq<int> {
    Sources(lines, keep, |lines|) + (if Owed(lines, keep, |lines|) then [|lines| - 1] else [])
  }

  /** Every line of the result stems from a line of the original, in the original order. */
  lemma TrimStems(lines: seq<Line>, keep: set<int>, mapping: seq<int>)
    requires InMap(lines, mapping)
    ensures var src, out := TrimSources(lines, keep), Trim(lines, keep, mapping);
            && |src| == |out|
            && (forall x :: 0 <= x < |src| ==> 0 <= src[x] < |lines| && StemsFrom(out[x], lines[src[x]], keep, mapping))
            && (forall x, y :: 0 <= x < y < |src| ==> src[x] <= src[y])
  {
    OutputStems(lines, keep, mapping, |lines|);
    SourcesIncrease(lines, keep, |lines|);
  }

  lemma {:induction false} OutputKeeps(lines: seq<Line>, keep: set<int>, mapping: seq<int>, i: int, h: int)
    requires 0 <= h < i <= |lines| && InMap(lines, mapping) && Kept(lines[h], keep)
    ensures Renumbered(lines[h], mapping) in Output(lines, keep, mapping, i)
    decreases i
  {
    if h != i - 1 {
      OutputKeeps(lines, keep, mapping, i - 1, h);
    }
  }

  lemma {:induction false} OutputBares(lines: seq<Line>, keep: set<int>, mapping: seq<int>, i: int, h: int)
    requires 0 < h < i <= |lines| && InMap(lines, mapping) && Due(lines, keep, h)
    ensures Bare(lines[h - 1], mapping) in Output(lines, keep, mapping, i)
    decreases i
  {
    if h != i - 1 {
      OutputBares(lines, keep, mapping, i - 1, h);
    }
  }

  /** A surviving state has a line in the result that carries its flags. */
  lemma SurvivorHasLine(lines: seq<Line>, keep: set<int>, mapping: seq<int>, i: int)
    requires 0 <= i < |lines| && InMap(lines, mapping) && ContiguousStates(lines) && FlagsSame(lines)
    requires lines[i].final || AnyKept(lines, keep, |lines|, lines[i].state)
    ensures exists l :: l in Trim(lines, keep, mapping)
                        && l.state == mapping[lines[i].state] && l.final == lines[i].final && l.start == lines[i].start
    decreases |lines| - i
  {
    hide Output;
    var s := lines[i].state;
    if AnyKept(lines, keep, |lines|, s) {
      var h :| 0 <= h < |lines| && lines[h].state == s && Kept(lines[h], keep);
      OutputKeeps(lines, keep, mapping, |lines|, h);
      assert Renumbered(lines[h], mapping) in Trim(lines, keep, mapping);
    } else if i == |lines| - 1 {
      assert Bare(lines[i], mapping) in Trim(lines, keep, mapping);
    } else if lines[i + 1].state == s {
      SurvivorHasLine(lines, keep, mapping, i + 1);
    } else {
      assert !AnyKept(lines, keep, i + 1, s);
      OutputBares(lines, keep, mapping, |lines|, i + 1);
      assert Bare(lines[i], mapping) in Trim(lines, keep, mapping);
    }
  }

  /** What trimming needs to know: who survives, and that survivors are final or lead on to survivors. */
  ghost predicate TrimReady(lines: seq<Line>, n: nat, keep: set<int>, mapping: seq<int>) {
    && WellFormed(lines, n) && |mapping| == n && InMap(lines, mapping) && MapOk(mapping, keep)
    && FinalsKept(lines, keep)
    && (forall i :: 0 <= i < |lines| && lines[i].state in keep ==> lines[i].final
                                                                   || AnyKept(lines, keep, |lines|, lines[i].state))
  }

  lemma MappingInjective(mapping: seq<int>, keep: set<int>, s: int, r: int)
    requires MapOk(mapping, keep) && s in keep && r in keep && mapping[s] == mapping[r]
    ensures s == r
  {
    if s < r {
      RankMonotone(keep, s, r);
    } else {
      RankMonotone(keep, r, s);
    }
  }

  /** Where a line of the result comes from. */
  lemma SourceOf(lines: seq<Line>, keep: set<int>, mapping: seq<int>, l: Line) returns (h: int)
    requires InMap(lines, mapping) && l in Trim(lines, keep, mapping)
    ensures 0 <= h < |lines| && StemsFrom(l, lines[h], keep, mapping)
  {
    TrimStems(lines, keep, mapping);
    var x :| 0 <= x < |Trim(lines, keep, mapping)| && Trim(lines, keep, mapping)[x] == l;
    h := TrimSources(lines, keep)[x];
  }

  lemma StemState(l: Line, lines: seq<Line>, h: int, n: nat, keep: set<int>, mapping: seq<int>)
    requires TrimReady(lines, n, keep, mapping) && 0 <= h < |lines| && StemsFrom(l, lines[h], keep, mapping)
    ensures lines[h].state in keep && l.state == mapping[lines[h].state] && l.final == lines[h].final
            && l.start == lines[h].start
    ensures l.target >= 0 ==> lines[h].target in keep && lines[h].target >= 0 && l.target == mapping[lines[h].target]
                              && l.ToLabel() == lines[h].ToLabel()
  {
    assert LineOk(lines[h], n);
  }

  lemma FlagsOfState(lines: seq<Line>, n: nat, h: int)
    requires WellFormed(lines, n) && 0 <= h < |lines|
    ensures lines[h].state in MachineOf(lines).finals <==> lines[h].final
    ensures lines[h].state in MachineOf(lines).starts <==> lines[h].start
  {
    assert lines[h] in lines;
    forall l | l in lines && l.state == lines[h].state ensures l.final == lines[h].final && l.start == lines[h].start {
      var k :| 0 <= k < |lines| && lines[k] == l;
    }
  }

  /** Machine level, arcs: the result's arcs are those between survivors. */
  lemma TrimArcs(lines: seq<Line>, n: nat, keep: set<int>, mapping: seq<int>)
    requires TrimReady(lines, n, keep, mapping)
    ensures var m, t := MachineOf(lines), MachineOf(Trim(lines, keep, mapping));
            && (forall a :: a in m.arcs && a.src in keep && a.tgt in keep ==>
                            Arc(mapping[a.src], a.lab, mapping[a.tgt]) in t.arcs)
            && (forall a :: a in t.arcs ==> exists s, r :: s in keep && r in keep && mapping[s] == a.src
                                                           && mapping[r] == a.tgt && Arc(s, a.lab, r) in m.arcs)
  {
    hide Trim, Renumbered;
    var out := Trim(lines, keep, mapping);
    var m, t := MachineOf(lines), MachineOf(out);
    forall a | a in m.arcs && a.src in keep && a.tgt in keep
      ensures Arc(mapping[a.src], a.lab, mapping[a.tgt]) in t.arcs
    {
      KeptArc(lines, n, keep, mapping, a);
    }
    forall a | a in t.arcs
      ensures exists s, r :: s in keep && r in keep && mapping[s] == a.src && mapping[r] == a.tgt
                             && Arc(s, a.lab, r) in m.arcs
    {
      var s, r := ArcSource(lines, n, keep, mapping, a);
    }
  }

  lemma KeptArc(lines: seq<Line>, n: nat, keep: set<int>, mapping: seq<int>, a: Arc<int>)
    requires TrimReady(lines, n, keep, mapping)
    requires a in ArcsOf(lines) && a.src in keep && a.tgt in keep
    ensures Arc(mapping[a.src], a.lab, mapping[a.tgt]) in ArcsOf(Trim(lines, keep, mapping))
  {
    hide Output;
    var h := ArcLine(lines, a);
    OutputKeeps(lines, keep, mapping, |lines|, h);
    var r := Renumbered(lines[h], mapping);
    assert r in Trim(lines, keep, mapping) && r.ToArc() == Arc(mapping[a.src], a.lab, mapping[a.tgt]);
    assert r.target >= 0;
  }

  lemma ArcSource(lines: seq<Line>, n: nat, keep: set<int>, mapping: seq<int>, a: Arc<int>) returns (s: int, r: int)
    requires TrimReady(lines, n, keep, mapping) && a in ArcsOf(Trim(lines, keep, mapping))
    ensures s in keep && r in keep && mapping[s] == a.src && mapping[r] == a.tgt && Arc(s, a.lab, r) in ArcsOf(lines)
  {
    hide Trim, Output;
    var l :| l in Trim(lines, keep, mapping) && l.target >= 0 && l.ToArc() == a;
    assert l.ToArc().src == l.state && l.ToArc().tgt == l.target && l.ToArc().lab == l.ToLabel();
    var h := SourceOf(lines, keep, mapping, l);
    StemState(l, lines, h, n, keep, mapping);
    s, r := lines[h].state, lines[h].target;
    assert lines[h] in lines && lines[h].ToArc() == Arc(s, a.lab, r);
  }

  /** Machine level: the result is the original restricted to the survivors. */
  lemma TrimRestricts(lines: seq<Line>, n: nat, keep: set<int>, mapping: seq<int>)
    requires TrimReady(lines, n, keep, mapping) && (forall s :: s in keep ==> 0 <= s < n)
    ensures Restricts(MachineOf(lines), MachineOf(Trim(lines, keep, mapping)), keep, mapping)
  {
    var m, out := MachineOf(lines), Trim(lines, keep, mapping);
    var t := MachineOf(out);
    hide Trim, StemsFrom;
    TrimArcs(lines, n, keep, mapping);
    forall s, r | s in keep && r in keep && mapping[s] == mapping[r] ensures s == r {
      MappingInjective(mapping, keep, s, r);
    }
    forall l | l in out ensures SurvivorFlags(l, m, keep, mapping) {
      LineFlags(lines, n, keep, mapping, l);
    }
    forall s | s in keep
      ensures (s in m.finals <==> mapping[s] in t.finals) && (s in m.starts <==> mapping[s] in t.starts)
    {
      KeptFlags(lines, n, keep, mapping, s);
    }
  }

  ghost predicate SurvivorFlags(l: Line, m: Machine<int>, keep: set<int>, mapping: seq<int>)
    requires forall s :: s in keep ==> 0 <= s < |mapping|
  {
    exists s :: s in keep && mapping[s] == l.state && (l.final <==> s in m.finals) && (l.start <==> s in m.starts)
  }

  lemma LineFlags(lines: seq<Line>, n: nat, keep: set<int>, mapping: seq<int>, l: Line)
    requires TrimReady(lines, n, keep, mapping) && l in Trim(lines, keep, mapping)
    ensures SurvivorFlags(l, MachineOf(lines), keep, mapping)
  {
    hide Trim, StemsFrom;
    var h := SourceOf(lines, keep, mapping, l);
    StemState(l, lines, h, n, keep, mapping);
    FlagsOfState(lines, n, h);
    assert lines[h].state in keep && mapping[lines[h].state] == l.state;
  }

  lemma KeptFlags(lines: seq<Line>, n: nat, keep: set<int>, mapping: seq<int>, s: int)
    requires TrimReady(lines, n, keep, mapping) && s in keep && 0 <= s < n
    ensures s in MachineOf(lines).finals <==> mapping[s] in MachineOf(Trim(lines, keep, mapping)).finals
    ensures s in MachineOf(lines).starts <==> mapping[s] in MachineOf(Trim(lines, keep, mapping)).starts
  {
    hide Trim, StemsFrom, AnyKept, InMap, FinalsKept;
    var m, out := MachineOf(lines), Trim(lines, keep, mapping);
    assert HasState(lines, s);
    var i :| 0 <= i < |lines| && lines[i].state == s;
    FlagsOfState(lines, n, i);
    SurvivorHasLine(lines, keep, mapping, i);
    forall l | l in out && l.state == mapping[s] ensures (l.final <==> s in m.finals) && (l.start <==> s in m.starts) {
      LineFlags(lines, n, keep, mapping, l);
      var r :| r in keep && mapping[r] == l.state && (l.final <==> r in m.finals) && (l.start <==> r in m.starts);
      MappingInjective(mapping, keep, s, r);
    }
  }

  /** The result is a well-formed net again, its states numbered without gaps. */
  lemma TrimWellFormed(lines: seq<Line>, n: nat, keep: set<int>, mapping: seq<int>)
    requires TrimReady(lines, n, keep, mapping) && 0 in keep && (forall s :: s in keep ==> 0 <= s < n)
    ensures WellFormed(Trim(lines, keep, mapping), Rank(keep, n))
  {
    hide Trim, TrimSources, StemsFrom, AnyKept, LineOk, HasState, Rank, MapOk, InMap, FinalsKept;
    var out, src := Trim(lines, keep, mapping), TrimSources(lines, keep);
    TrimStems(lines, keep, mapping);
    forall x | 0 <= x < |out| ensures LineOk(out[x], Rank(keep, n)) {
      StemInRange(lines, n, keep, mapping, out[x], src[x]);
    }
    forall x | 0 <= x < Rank(keep, n) ensures HasState(out, x) {
      SurvivorHasState(lines, n, keep, mapping, x);
    }
    forall x, y, z | 0 <= x < y < z < |out| && out[x].state == out[z].state ensures out[y].state == out[x].state {
      TrimContiguous(lines, n, keep, mapping, out, src, x, y, z);
    }
    forall x, y | 0 <= x < y < |out| && out[x].state == out[y].state
      ensures out[x].final == out[y].final && out[x].start == out[y].start
    {
      TrimFlags(lines, n, keep, mapping, out, src, x, y);
    }
    RankPositive(keep, n);
  }

  lemma RankPositive(keep: set<int>, n: nat)
    requires 0 in keep && 0 < n
    ensures 0 < Rank(keep, n)
  {
    RankMonotone(keep, 0, n);
  }

  lemma SurvivorHasState(lines: seq<Line>, n: nat, keep: set<int>, mapping: seq<int>, x: int)
    requires TrimReady(lines, n, keep, mapping) && (forall s :: s in keep ==> 0 <= s < n) && 0 <= x < Rank(keep, n)
    ensures HasState(Trim(lines, keep, mapping), x)
  {
    hide Trim, AnyKept;
    var out := Trim(lines, keep, mapping);
    var s := RankOnto(keep, n, x);
    assert HasState(lines, s);
    var i :| 0 <= i < |lines| && lines[i].state == s;
    SurvivorHasLine(lines, keep, mapping, i);
    var l :| l in out && l.state == mapping[s];
    var k :| 0 <= k < |out| && out[k] == l;
    assert out[k].state == x;
  }

  lemma StemInRange(lines: seq<Line>, n: nat, keep: set<int>, mapping: seq<int>, l: Line, h: int)
    requires TrimReady(lines, n, keep, mapping) && (forall s :: s in keep ==> 0 <= s < n)
    requires 0 <= h < |lines| && StemsFrom(l, lines[h], keep, mapping)
    ensures LineOk(l, Rank(keep, n))
  {
    var source := lines[h];
    assert LineOk(source, n);
    RankMonotone(keep, source.state, n);
    if source.target >= 0 {
      RankMonotone(keep, source.target, n);
    }
  }

  lemma TrimContiguous(lines: seq<Line>, n: nat, keep: set<int>, mapping: seq<int>, out: seq<Line>, src: seq<int>,
                       x: int, y: int, z: int)
    requires TrimReady(lines, n, keep, mapping) && |src| == |out| && 0 <= x < y < z < |out|
    requires forall i :: 0 <= i < |src| ==> 0 <= src[i] < |lines| && StemsFrom(out[i], lines[src[i]], keep, mapping)
    requires src[x] <= src[y] <= src[z] && out[x].state == out[z].state
    ensures out[y].state == out[x].state
  {
    StemState(out[x], lines, src[x], n, keep, mapping);
    StemState(out[y], lines, src[y], n, keep, mapping);
    StemState(out[z], lines, src[z], n, keep, mapping);
    MappingInjective(mapping, keep, lines[src[x]].state, lines[src[z]].state);
  }

  lemma TrimFlags(lines: seq<Line>, n: nat, keep: set<int>, mapping: seq<int>, out: seq<Line>, src: seq<int>, x: int,
                  y: int)
    requires TrimReady(lines, n, keep, mapping) && |src| == |out| && 0 <= x < y < |out|
    requires forall i :: 0 <= i < |src| ==> 0 <= src[i] < |lines| && StemsFrom(out[i], lines[src[i]], keep, mapping)
    requires src[x] <= src[y] && out[x].state == out[y].state
    ensures out[x].final == out[y].final && out[x].start == out[y].start
  {
    StemState(out[x], lines, src[x], n, keep, mapping);
    StemState(out[y], lines, src[y], n, keep, mapping);
    MappingInjective(mapping, keep, lines[src[x]].state, lines[src[y]].state);
  }
}
