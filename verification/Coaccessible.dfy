/**
 Trimming in place: mark the states from which a final state can be reached by walking arcs
 backward, then compact the line array with a write index that follows the read index.
 */
module Coaccessibility {
  import opened Automata
  import Counting
  import opened Chains
  import opened Trimming

  /** The array holds `lines`, followed by the sentinel line with state number -1. */
  ghost predicate Encodes(states: array<Line>, lines: seq<Line>)
    reads states
  {
    |lines| < states.Length && states[..|lines|] == lines && states[|lines|].state == -1
  }

  // ----- Backward arcs -----

  ghost predicate ArcBefore(lines: seq<Line>, i: int, s: int, t: int)
    requires 0 <= i <= |lines|
  {
    exists k :: 0 <= k < i && lines[k].state == s && lines[k].target == t
  }

  /** `sources` lists the other states with an arc to `t` on the first `i` lines. */
  ghost predicate ListsSources(sources: seq<int>, lines: seq<Line>, i: int, t: int)
    requires 0 <= i <= |lines|
  {
    && (forall x :: 0 <= x < |sources| ==> ArcBefore(lines, i, sources[x], t))
    && (forall k :: 0 <= k < i && lines[k].target == t && lines[k].state != t ==> lines[k].state in sources)
  }

  /** Only the sentinel has no state number. */
  lemma EndReached(states: array<Line>, n: nat, lines: seq<Line>, i: int)
    requires WellFormed(lines, n) && Encodes(states, lines) && 0 <= i <= |lines| && states[i].state == -1
    ensures i == |lines|
  {
    forall k | 0 <= k < |lines| ensures states[k].state != -1 {
      assert states[..|lines|][k] == states[k];
      LineAt(lines, n, k);
    }
  }

  lemma NoSources(lines: seq<Line>)
    ensures forall t :: ListsSources([], lines, 0, t)
  {
  }

  lemma SourceAdded(sources: seq<int>, lines: seq<Line>, i: int, t: int, sources': seq<int>)
    requires 0 <= i < |lines| && ListsSources(sources, lines, i, t)
    requires if lines[i].target == t && lines[i].state != t
             then |sources'| == |sources| + 1 && (forall s :: s in sources' <==> s in sources || s == lines[i].state)
             else sources' == sources
    ensures ListsSources(sources', lines, i + 1, t)
  {
    forall x | 0 <= x < |sources'| ensures ArcBefore(lines, i + 1, sources'[x], t) {
      var s := sources'[x];
      assert s in sources';
      if s in sources {
        var y :| 0 <= y < |sources| && sources[y] == s;
        assert ArcBefore(lines, i, sources[y], t);
        var k :| 0 <= k < i && lines[k].state == s && lines[k].target == t;
      }
    }
  }

  method BuildInverses(states: array<Line>, n: nat, ghost lines: seq<Line>) returns (inverses: array<seq<int>>)
    requires WellFormed(lines, n) && Encodes(states, lines)
    ensures fresh(inverses) && inverses.Length == n
    ensures forall t :: 0 <= t < n ==> ListsSources(inverses[t], lines, |lines|, t)
  {
    hide WellFormed, ListsSources;
    inverses := new seq<int>[n](_ => []);
    NoSources(lines);
    var i := 0;
    while states[i].state != -1
      invariant 0 <= i <= |lines| && Encodes(states, lines)
      invariant forall t :: 0 <= t < n ==> ListsSources(inverses[t], lines, i, t)
      decreases |lines| - i
    {
      assert states[..|lines|][i] == states[i];
      LineAt(lines, n, i);
      var s, t := states[i].state, states[i].target;
      forall u | 0 <= u < n
        ensures ListsSources(if u == t && s != t then Chained(inverses[u], s) else inverses[u], lines, i + 1, u)
      {
        SourceAdded(inverses[u], lines, i, u, if u == t && s != t then Chained(inverses[u], s) else inverses[u]);
      }
      if t != -1 && s != t {
        inverses[t] := Chained(inverses[t], s);
      }
      i := i + 1;
    }
    EndReached(states, n, lines, i);
  }

  // ----- Marking -----

  ghost function Marked(coacc: seq<bool>): (r: set<int>)
    ensures forall s :: s in r <==> 0 <= s < |coacc| && coacc[s]
  {
    set s | 0 <= s < |coacc| && coacc[s]
  }

  lemma MarkOne(coacc: seq<bool>, s: int)
    requires 0 <= s < |coacc| && !coacc[s]
    ensures Marked(coacc[s := true]) == Marked(coacc) + {s} && |Marked(coacc[s := true])| == |Marked(coacc)| + 1
  {
  }

  lemma {:induction false} MarkedAtMost(coacc: seq<bool>)
    ensures |Marked(coacc)| <= |coacc|
    ensures |Marked(coacc)| == |coacc| ==> forall s :: 0 <= s < |coacc| ==> coacc[s]
  {
    if coacc != [] {
      var last := |coacc| - 1;
      MarkedAtMost(coacc[..last]);
      assert Marked(coacc) == Marked(coacc[..last]) + (if coacc[last] then {last} else {});
    } else {
      assert Marked(coacc) == {};
    }
  }

  /** Everything marked is coaccessible, and so are the final states, which are marked. */
  ghost predicate Sound(lines: seq<Line>, coacc: seq<bool>) {
    forall s :: 0 <= s < |coacc| && coacc[s] ==> Coaccessible(MachineOf(lines), s)
  }

  ghost predicate FinalsMarked(lines: seq<Line>, coacc: seq<bool>, i: int)
    requires 0 <= i <= |lines|
  {
    forall k :: 0 <= k < i && lines[k].final ==> 0 <= lines[k].state < |coacc| && coacc[lines[k].state]
  }

  /** Every arc into a marked state that is not waiting on the stack comes from a marked state;
      for the state `cur` in progress, only arcs from `seen` count. */
  ghost predicate Closed(lines: seq<Line>, coacc: seq<bool>, stack: seq<int>, cur: int, seen: seq<int>) {
    forall k :: 0 <= k < |lines| && 0 <= lines[k].target < |coacc| && 0 <= lines[k].state < |coacc|
                && coacc[lines[k].target]
                && lines[k].target !in stack && (lines[k].target == cur ==>
                                                   lines[k].state in seen || lines[k].state == cur)
                ==> coacc[lines[k].state]
  }

  ghost predicate StackMarked(stack: seq<int>, coacc: seq<bool>) {
    forall x :: 0 <= x < |stack| ==> 0 <= stack[x] < |coacc| && coacc[stack[x]]
  }

  /** The state of the marking phase. */
  ghost predicate Marking(lines: seq<Line>, coacc: seq<bool>, stack: seq<int>, markcount: int) {
    Sound(lines, coacc) && StackMarked(stack, coacc) && markcount == |Marked(coacc)|
  }

  lemma MarkFinal(lines: seq<Line>, coacc: seq<bool>, stack: seq<int>, markcount: int, i: int)
    requires Marking(lines, coacc, stack, markcount) && 0 <= i < |lines| && 0 <= lines[i].state < |coacc|
    requires lines[i].final && !coacc[lines[i].state]
    ensures Marking(lines, coacc[lines[i].state := true], stack + [lines[i].state], markcount + 1)
  {
    var s := lines[i].state;
    assert lines[i] in lines;
    assert s in MachineOf(lines).finals;
    assert AcceptsFrom(MachineOf(lines), s, []);
    MarkOne(coacc, s);
  }

  lemma MarkSource(lines: seq<Line>, coacc: seq<bool>, stack: seq<int>, markcount: int, s: int, t: int)
    requires Marking(lines, coacc, stack, markcount) && 0 <= s < |coacc| && !coacc[s]
    requires 0 <= t < |coacc| && coacc[t] && ArcBefore(lines, |lines|, s, t)
    ensures Marking(lines, coacc[s := true], stack + [s], markcount + 1)
  {
    var m := MachineOf(lines);
    var k :| 0 <= k < |lines| && lines[k].state == s && lines[k].target == t;
    assert lines[k] in lines && lines[k].ToArc() == Arc(s, lines[k].ToLabel(), t);
    var w :| AcceptsFrom(m, t, w);
    var q := AcceptingEnd(m, t, w);
    ReadsCons(m, s, lines[k].ToLabel(), t, w, q);
    assert AcceptsFrom(m, s, [lines[k].ToLabel()] + w);
    MarkOne(coacc, s);
  }

  /** With nothing left on the stack, every coaccessible state is marked. */
  lemma {:induction false} ClosedIsComplete(lines: seq<Line>, n: nat, coacc: seq<bool>, s: int, w: seq<Label>)
    requires WellFormed(lines, n) && |coacc| == n && 0 <= s < n
    requires FinalsMarked(lines, coacc, |lines|) && Closed(lines, coacc, [], -1, [])
    requires AcceptsFrom(MachineOf(lines), s, w)
    ensures coacc[s]
    decreases |w|
  {
    var m := MachineOf(lines);
    var q := AcceptingEnd(m, s, w);
    if w == [] {
      var l :| l in lines && l.final && l.state == s;
      var k :| 0 <= k < |lines| && lines[k] == l;
    } else {
      var r := ReadsHead(m, s, w, q);
      var k := ArcLine(lines, Arc(s, w[0], r));
      assert LineOk(lines[k], n);
      assert AcceptsFrom(m, r, w[1..]);
      ClosedIsComplete(lines, n, coacc, r, w[1..]);
    }
  }

  /** Marks and pushes the final states. */
  method PushFinals(states: array<Line>, n: nat, coacc: array<bool>, ghost lines: seq<Line>)
    returns (stack: seq<int>, markcount: int)
    requires WellFormed(lines, n) && Encodes(states, lines) && coacc.Length == n
    requires forall s :: 0 <= s < n ==> !coacc[s]
    modifies coacc
    ensures Marking(lines, coacc[..], stack, markcount) && FinalsMarked(lines, coacc[..], |lines|)
    ensures Closed(lines, coacc[..], stack, -1, []) && markcount == |stack|
  {
    hide Marking;
    stack, markcount := [], 0;
    NothingMarked(lines, coacc[..]);
    var i := 0;
    while states[i].state != -1
      invariant 0 <= i <= |lines| && Encodes(states, lines)
      invariant Marking(lines, coacc[..], stack, markcount) && FinalsMarked(lines, coacc[..], i)
      invariant forall s :: 0 <= s < n && coacc[s] ==> s in stack
      invariant markcount == |stack|
      decreases |lines| - i
    {
      assert states[..|lines|][i] == states[i];
      assert LineOk(lines[i], n);
      var s := states[i].state;
      if states[i].final && !coacc[s] {
        MarkFinal(lines, coacc[..], stack, markcount, i);
        ghost var before := coacc[..];
        coacc[s] := true;
        assert coacc[..] == before[s := true];
        stack := stack + [s];
        markcount := markcount + 1;
      }
      i := i + 1;
    }
  }

  lemma NothingMarked(lines: seq<Line>, coacc: seq<bool>)
    requires forall s :: 0 <= s < |coacc| ==> !coacc[s]
    ensures Marking(lines, coacc, [], 0)
  {
    assert Marked(coacc) == {};
  }

  lemma PopClosed(lines: seq<Line>, coacc: seq<bool>, stack: seq<int>)
    requires Closed(lines, coacc, stack, -1, []) && stack != [] && StackMarked(stack, coacc)
    ensures Closed(lines, coacc, stack[..|stack| - 1], stack[|stack| - 1], [])
  {
    var cur := stack[|stack| - 1];
    forall t | t in stack ensures t in stack[..|stack| - 1] || t == cur {
      var x :| 0 <= x < |stack| && stack[x] == t;
      assert x < |stack| - 1 ==> stack[..|stack| - 1][x] == t;
    }
  }

  lemma PushClosed(lines: seq<Line>, coacc: seq<bool>, stack: seq<int>, cur: int, seen: seq<int>, s: int)
    requires Closed(lines, coacc, stack, cur, seen) && 0 <= s < |coacc|
    ensures Closed(lines, coacc[s := true], if coacc[s] then stack else stack + [s], cur, seen + [s])
  {
    if coacc[s] {
      assert coacc[s := true] == coacc;
    }
    assert forall t :: t in stack ==> t in stack + [s];
    assert s in stack + [s];
  }

  lemma ChainDone(lines: seq<Line>, coacc: seq<bool>, stack: seq<int>, cur: int, chain: seq<int>)
    requires Closed(lines, coacc, stack, cur, chain) && ListsSources(chain, lines, |lines|, cur)
    ensures Closed(lines, coacc, stack, -1, [])
  {
  }

  /** Marks and pushes the sources of one state. */
  method MarkChain(coacc: array<bool>, chain: seq<int>, cur: int, stack0: seq<int>, markcount0: int,
                   ghost lines: seq<Line>, ghost n: nat)
    returns (stack: seq<int>, markcount: int)
    requires WellFormed(lines, n) && coacc.Length == n && 0 <= cur < n && coacc[cur]
    requires ListsSources(chain, lines, |lines|, cur)
    requires Marking(lines, coacc[..], stack0, markcount0) && FinalsMarked(lines, coacc[..], |lines|)
    requires Closed(lines, coacc[..], stack0, cur, [])
    modifies coacc
    ensures Marking(lines, coacc[..], stack, markcount) && FinalsMarked(lines, coacc[..], |lines|)
    ensures Closed(lines, coacc[..], stack, -1, [])
    ensures markcount >= markcount0 && (markcount == markcount0 ==> stack == stack0)
  {
    hide Marking, Closed;
    stack, markcount := stack0, markcount0;
    var x := 0;
    while x < |chain|
      invariant 0 <= x <= |chain| && coacc[cur]
      invariant Marking(lines, coacc[..], stack, markcount) && FinalsMarked(lines, coacc[..], |lines|)
      invariant Closed(lines, coacc[..], stack, cur, chain[..x])
      invariant markcount >= markcount0 && (markcount == markcount0 ==> stack == stack0)
    {
      var s := chain[x];
      assert ArcBefore(lines, |lines|, s, cur);
      StateKnown(lines, n, s, cur);
      PushClosed(lines, coacc[..], stack, cur, chain[..x], s);
      assert chain[..x] + [s] == chain[..x + 1];
      ghost var before := coacc[..];
      if !coacc[s] {
        MarkSource(lines, coacc[..], stack, markcount, s, cur);
        coacc[s] := true;
        stack := stack + [s];
        markcount := markcount + 1;
      }
      assert coacc[..] == before[s := true];
      x := x + 1;
    }
    assert chain[..x] == chain;
    ChainDone(lines, coacc[..], stack, cur, chain);
  }

  lemma StateKnown(lines: seq<Line>, n: nat, s: int, t: int)
    requires WellFormed(lines, n) && ArcBefore(lines, |lines|, s, t)
    ensures 0 <= s < n
  {
    var k :| 0 <= k < |lines| && lines[k].state == s && lines[k].target == t;
    assert LineOk(lines[k], n);
  }

  /** Marks exactly the coaccessible states; stops early once every state is marked. */
  method Mark(states: array<Line>, n: nat, inverses: array<seq<int>>, ghost lines: seq<Line>)
    returns (coacc: array<bool>, markcount: int, terminate: bool)
    requires WellFormed(lines, n) && Encodes(states, lines) && inverses.Length == n
    requires forall t :: 0 <= t < n ==> ListsSources(inverses[t], lines, |lines|, t)
    ensures fresh(coacc) && coacc.Length == n
    ensures forall s :: 0 <= s < n ==> (coacc[s] <==> Coaccessible(MachineOf(lines), s))
    ensures markcount == |Marked(coacc[..])|
    ensures terminate <==> markcount == n
  {
    hide Sound, Closed, FinalsMarked, ListsSources, Marked;
    coacc := new bool[n](_ => false);
    var stack;
    stack, markcount := PushFinals(states, n, coacc, lines);
    MarkedAtMost(coacc[..]);
    terminate := false;
    while stack != []
      invariant fresh(coacc) && coacc.Length == n
      invariant Marking(lines, coacc[..], stack, markcount) && FinalsMarked(lines, coacc[..], |lines|)
      invariant Closed(lines, coacc[..], stack, -1, []) && !terminate && markcount <= n
      invariant stack == [] ==> markcount < n
      invariant forall t :: 0 <= t < n ==> ListsSources(inverses[t], lines, |lines|, t)
      decreases n - markcount, |stack|
    {
      PopClosed(lines, coacc[..], stack);
      assert StackMarked(stack, coacc[..]);
      var current := stack[|stack| - 1];
      stack := stack[..|stack| - 1];
      stack, markcount := MarkChain(coacc, inverses[current], current, stack, markcount, lines, n);
      MarkedAtMost(coacc[..]);
      if markcount >= n {
        terminate := true;
        break;
      }
    }
    MarkedAtMost(coacc[..]);
    forall s | 0 <= s < n ensures coacc[s] <==> Coaccessible(MachineOf(lines), s) {
      MarkedExactly(lines, n, coacc[..], terminate, s);
    }
  }

  lemma MarkedExactly(lines: seq<Line>, n: nat, coacc: seq<bool>, all: bool, s: int)
    requires WellFormed(lines, n) && |coacc| == n && 0 <= s < n
    requires Sound(lines, coacc) && FinalsMarked(lines, coacc, |lines|)
    requires if all then forall r :: 0 <= r < n ==> coacc[r] else Closed(lines, coacc, [], -1, [])
    ensures coacc[s] <==> Coaccessible(MachineOf(lines), s)
  {
    if !all && Coaccessible(MachineOf(lines), s) {
      var w :| AcceptsFrom(MachineOf(lines), s, w);
      ClosedIsComplete(lines, n, coacc, s, w);
    }
  }

  // ----- Compaction -----

  /** Numbers the surviving states in their old order; state 0 keeps its number. */
  method BuildMapping(coacc: seq<bool>) returns (mapping: seq<int>)
    requires coacc != [] && (coacc[0] || Marked(coacc) == {})
    ensures |mapping| == |coacc| && MapOk(mapping, Marked(coacc))
  {
    var arr := new int[|coacc|](_ => 0);
    ghost var keep := Marked(coacc);
    arr[0] := 0;
    var i, j := 1, 0;
    assert Rank(keep, 0) == 0;
    while i < |coacc|
      invariant 1 <= i <= |coacc|
      invariant coacc[0] ==> j + 1 == Rank(keep, i)
      invariant forall s :: 0 <= s < i && s in keep ==> arr[s] == Rank(keep, s)
    {
      if coacc[i] {
        j := j + 1;
        arr[i] := j;
      }
      i := i + 1;
    }
    mapping := arr[..];
  }

  /** Which states have a line in the output, as far as the state before line `i` is concerned. */
  ghost predicate AddedOk(added: seq<bool>, lines: seq<Line>, keep: set<int>, i: int)
    requires 0 <= i <= |lines|
  {
    && (0 < i && 0 <= lines[i - 1].state < |added| ==> (added[lines[i - 1].state] <==>
                                                          AnyKept(lines, keep, i, lines[i - 1].state)))
    && (forall s :: 0 <= s < |added| && (forall k :: 0 <= k < i ==> lines[k].state != s) ==> !added[s])
  }

  lemma AddedNext(added: seq<bool>, lines: seq<Line>, keep: set<int>, i: int, extra: int, added': seq<bool>)
    requires 0 <= i < |lines| && ContiguousStates(lines) && AddedOk(added, lines, keep, i)
    requires 0 <= lines[i].state < |added|
    requires extra == -1 || (0 < i && extra == lines[i - 1].state != lines[i].state && 0 <= extra < |added|)
    requires |added'| == |added|
    requires forall s :: 0 <= s < |added| ==> added'[s] ==
                                              (added[s] || s == extra || (s == lines[i].state && Kept(lines[i], keep)))
    ensures AddedOk(added', lines, keep, i + 1)
  {
    var s := lines[i].state;
    assert AnyKept(lines, keep, i + 1, s) <==> AnyKept(lines, keep, i, s) || Kept(lines[i], keep);
    if 0 < i && lines[i - 1].state != s {
      assert forall k :: 0 <= k < i ==> lines[k].state != s;
    }
  }

  /** The situation before line `i` is read: `j` lines have been written, the rest is untouched. */
  ghost predicate Compacting(states: seq<Line>, lines: seq<Line>, keep: set<int>, mapping: seq<int>, i: int, j: int)
    requires 0 <= i <= |lines| && InMap(lines, mapping)
  {
    && |lines| < |states| && 0 <= j <= i && states[|lines|].state == -1
    && states[..j] == Output(lines, keep, mapping, i)
    && (forall k :: j <= k < |lines| ==> states[k] == lines[k])
  }

  ghost predicate Compactable(lines: seq<Line>, keep: set<int>, mapping: seq<int>) {
    && InMap(lines, mapping) && MapOk(mapping, keep)
    && ContiguousStates(lines) && FinalsKept(lines, keep) && FlagsSame(lines) && Orderly(lines)
  }

  /** Line `i-1` is still good for comparison even if it has been overwritten. */
  lemma PreviousLine(states: seq<Line>, lines: seq<Line>, keep: set<int>, mapping: seq<int>, i: int, j: int)
    requires 0 < i <= |lines| && Compactable(lines, keep, mapping) && Compacting(states, lines, keep, mapping, i, j)
    ensures states[i - 1].state == lines[i - 1].state && states[i - 1].final == lines[i - 1].final
            && states[i - 1].start == lines[i - 1].start
  {
    if j == i {
      Coincide(lines, keep, mapping, i);
      assert states[..j][i - 1] == states[i - 1];
    }
  }

  /** Room for the bare line that may be due. */
  lemma RoomForBare(lines: seq<Line>, keep: set<int>, mapping: seq<int>, i: int)
    requires 0 < i <= |lines| && Compactable(lines, keep, mapping) && Owed(lines, keep, i)
    ensures |Output(lines, keep, mapping, i)| < i
  {
    OutputBound(lines, keep, mapping, i);
  }

  lemma Written(states: seq<Line>, lines: seq<Line>, keep: set<int>, mapping: seq<int>, i: int, j: int,
                states': seq<Line>, j': int)
    requires 0 <= i < |lines| && Compactable(lines, keep, mapping) && Compacting(states, lines, keep, mapping, i, j)
    requires |states'| == |states| && j <= j' <= i + 1
    requires states'[..j'] == states[..j] + (if Due(lines, keep, i) then [Bare(lines[i - 1], mapping)] else [])
                                          + (if Kept(lines[i], keep) then [Renumbered(lines[i], mapping)] else [])
    requires forall k :: j' <= k < |states| ==> states'[k] == states[k]
    ensures Compacting(states', lines, keep, mapping, i + 1, j')
  {
  }

  /** One line of the compaction loop; `j` is the write index. */
  method CompactLine(states: array<Line>, i: int, j0: int, coacc: seq<bool>, mapping: seq<int>, added: array<bool>,
                     ghost lines: seq<Line>)
    returns (j: int, arcs: int)
    requires |coacc| == |mapping| == added.Length && Compactable(lines, Marked(coacc), mapping)
    requires 0 <= i < |lines| && Compacting(states[..], lines, Marked(coacc), mapping, i, j0)
    requires AddedOk(added[..], lines, Marked(coacc), i)
    modifies states, added
    ensures Compacting(states[..], lines, Marked(coacc), mapping, i + 1, j)
    ensures AddedOk(added[..], lines, Marked(coacc), i + 1)
    ensures arcs == if Kept(lines[i], Marked(coacc)) && lines[i].target != -1 then 1 else 0
  {
    hide Output, Compactable, AddedOk, AnyKept, MapOk, Orderly, FinalsKept, FlagsSame, ContiguousStates;
    ghost var keep := Marked(coacc);
    ghost var before, beforeAdded := states[..], added[..];
    LineInMap(lines, keep, mapping, i);
    j, arcs := j0, 0;
    ghost var extra := -1;
    if i > 0 {
      PreviousLine(states[..], lines, keep, mapping, i, j0);
      LineInMap(lines, keep, mapping, i - 1);
      AddedSays(added[..], lines, keep, i);
      var prev := states[i - 1];
      if states[i].state != prev.state && prev.final && !added[prev.state] {
        RoomForBare(lines, keep, mapping, i);
        states[j] := Line(mapping[prev.state], -1, -1, -1, true, prev.start);
        j := j + 1;
        added[prev.state] := true;
        extra := prev.state;
      }
    }
    var l := states[i];
    if coacc[l.state] && (l.target == -1 || coacc[l.target]) {
      states[j] := Line(mapping[l.state], l.upper, l.lower, if l.target == -1 then -1 else mapping[l.target], l.final,
                        l.start);
      j := j + 1;
      added[l.state] := true;
      if l.target != -1 {
        arcs := 1;
      }
    }
    Written(before, lines, keep, mapping, i, j0, states[..], j);
    AddedNext(beforeAdded, lines, keep, i, extra, added[..]);
  }

  /** The arcs counted so far are those of the lines written so far. */
  lemma ArcsWritten(lines: seq<Line>, keep: set<int>, mapping: seq<int>, i: int)
    requires 0 <= i < |lines| && Compactable(lines, keep, mapping)
    ensures ArcCount(Output(lines, keep, mapping, i + 1)) ==
            ArcCount(Output(lines, keep, mapping, i)) + if Kept(lines[i], keep) && lines[i].target != -1 then 1 else 0
  {
    hide Owed, AnyKept, ContiguousStates, FinalsKept, FlagsSame, Orderly, ArcCount;
    var out := Output(lines, keep, mapping, i);
    var bare := if Due(lines, keep, i) then out + [Bare(lines[i - 1], mapping)] else out;
    if Due(lines, keep, i) {
      OneMoreLine(out, Bare(lines[i - 1], mapping));
    }
    if Kept(lines[i], keep) {
      OneMoreLine(bare, Renumbered(lines[i], mapping));
      assert Output(lines, keep, mapping, i + 1) == bare + [Renumbered(lines[i], mapping)];
    } else {
      assert Output(lines, keep, mapping, i + 1) == bare;
    }
  }

  lemma OneMoreLine(lines: seq<Line>, l: Line)
    ensures ArcCount(lines + [l]) == ArcCount(lines) + if l.target != -1 then 1 else 0
  {
    assert (lines + [l])[..|lines|] == lines;
  }

  /** A bare line at the end has no arc. */
  lemma ArcsTrimmed(lines: seq<Line>, keep: set<int>, mapping: seq<int>)
    requires Compactable(lines, keep, mapping)
    ensures ArcCount(Trim(lines, keep, mapping)) == ArcCount(Output(lines, keep, mapping, |lines|))
  {
    hide Output, ArcCount, AnyKept, ContiguousStates, FinalsKept, FlagsSame, Orderly;
    var out := Output(lines, keep, mapping, |lines|);
    if Owed(lines, keep, |lines|) {
      OneMoreLine(out, Bare(lines[|lines| - 1], mapping));
    } else {
      assert Trim(lines, keep, mapping) == out;
    }
  }

  lemma LineInMap(lines: seq<Line>, keep: set<int>, mapping: seq<int>, i: int)
    requires Compactable(lines, keep, mapping) && 0 <= i < |lines|
    ensures 0 <= lines[i].state < |mapping| && -1 <= lines[i].target < |mapping|
    ensures ContiguousStates(lines)
  {
  }

  lemma MapKnowsLines(lines: seq<Line>, keep: set<int>, mapping: seq<int>)
    requires Compactable(lines, keep, mapping)
    ensures InMap(lines, mapping)
  {
  }

  lemma AddedSays(added: seq<bool>, lines: seq<Line>, keep: set<int>, i: int)
    requires 0 < i <= |lines| && AddedOk(added, lines, keep, i) && 0 <= lines[i - 1].state < |added|
    ensures added[lines[i - 1].state] <==> AnyKept(lines, keep, i, lines[i - 1].state)
  {
  }

  /** The in-place compaction: the array ends up holding the trimmed net. */
  method Compact(states: array<Line>, coacc: seq<bool>, mapping: seq<int>, ghost lines: seq<Line>)
    returns (newLinecount: int, newArccount: int)
    requires |coacc| == |mapping| && Compactable(lines, Marked(coacc), mapping)
    requires Encodes(states, lines) && 0 < |lines| && (|lines| == 1 ==> !lines[0].final)
    modifies states
    ensures newLinecount == |Trim(lines, Marked(coacc), mapping)|
    ensures newArccount == ArcCount(Trim(lines, Marked(coacc), mapping))
    ensures newLinecount > 0 ==> Encodes(states, Trim(lines, Marked(coacc), mapping))
  {
    hide Output, Compactable, AddedOk, ArcCount;
    ghost var keep := Marked(coacc);
    MapKnowsLines(lines, keep, mapping);
    var added := new bool[|coacc|](_ => false);
    newArccount := 0;
    CompactionStarts(states[..], added[..], lines, keep, mapping);
    var i, j := 0, 0;
    while states[i].state != -1
      invariant 0 <= i <= |lines| && |coacc| == added.Length
      invariant Compacting(states[..], lines, keep, mapping, i, j)
      invariant AddedOk(added[..], lines, keep, i)
      invariant newArccount == ArcCount(Output(lines, keep, mapping, i))
      decreases |lines| - i
    {
      NotSentinel(states[..], lines, keep, mapping, i, j);
      ArcsWritten(lines, keep, mapping, i);
      var arcs;
      j, arcs := CompactLine(states, i, j, coacc, mapping, added, lines);
      newArccount := newArccount + arcs;
      i := i + 1;
    }
    AtSentinel(states[..], lines, keep, mapping, i, j);
    ArcsTrimmed(lines, keep, mapping);
    PreviousLine(states[..], lines, keep, mapping, i, j);
    LineInMap(lines, keep, mapping, i - 1);
    AddedSays(added[..], lines, keep, i);
    var last := states[i - 1];
    ghost var before := states[..j];
    if i > 1 && last.final && !added[last.state] {
      RoomForBare(lines, keep, mapping, i);
      states[j] := Line(mapping[last.state], -1, -1, -1, true, last.start);
      j := j + 1;
    }
    assert states[..j] == Trim(lines, keep, mapping);
    newLinecount := j;
    if newLinecount == 0 {
      states[j] := Line(0, -1, -1, -1, false, false);
      j := j + 1;
    }
    states[j] := Line(-1, -1, -1, -1, false, false);
    assert newLinecount > 0 ==> states[..newLinecount] == Trim(lines, keep, mapping);
  }

  lemma CompactionStarts(states: seq<Line>, added: seq<bool>, lines: seq<Line>, keep: set<int>, mapping: seq<int>)
    requires Compactable(lines, keep, mapping) && |lines| < |states| && states[..|lines|] == lines
             && states[|lines|].state == -1
    requires forall s :: 0 <= s < |added| ==> !added[s]
    ensures Compacting(states, lines, keep, mapping, 0, 0) && AddedOk(added, lines, keep, 0)
    ensures ArcCount(Output(lines, keep, mapping, 0)) == 0
  {
    forall k | 0 <= k < |lines| ensures states[k] == lines[k] {
      assert states[..|lines|][k] == states[k];
    }
  }

  lemma NotSentinel(states: seq<Line>, lines: seq<Line>, keep: set<int>, mapping: seq<int>, i: int, j: int)
    requires 0 <= i <= |lines| && Compactable(lines, keep, mapping) && Compacting(states, lines, keep, mapping, i, j)
    ensures i < |lines| <==> states[i].state != -1
  {
  }

  lemma AtSentinel(states: seq<Line>, lines: seq<Line>, keep: set<int>, mapping: seq<int>, i: int, j: int)
    requires 0 <= i <= |lines| && Compactable(lines, keep, mapping) && Compacting(states, lines, keep, mapping, i, j)
    requires states[i].state == -1
    ensures i == |lines|
  {
  }

  // ----- The whole operation -----

  /** foma's net record, as far as trimming updates it. */
  class Fsm {
    var states: array<Line>
    var linecount: int
    var arccount: int
    var statecount: nat

    constructor (lines: array<Line>, count: nat)
      ensures states == lines && statecount == count
    {
      states, linecount, arccount, statecount := lines, 0, 0, count;
    }
  }

  /** The one-state net of the empty language. */
  const EMPTY_NET := [Line(0, -1, -1, -1, false, true)]

  lemma EmptyNet()
    ensures WellFormed(EMPTY_NET, 1) && forall w :: !Accepts(MachineOf(EMPTY_NET), w)
  {
    assert EMPTY_NET[0].state == 0;
    assert forall q :: q !in MachineOf(EMPTY_NET).finals;
  }

  /** What trimming achieves, from the `n`-state net `lines` to the net `trimmed`. */
  ghost predicate Trimmed(lines: seq<Line>, n: nat, trimmed: seq<Line>, count: nat) {
    && (forall w :: Accepts(MachineOf(lines), w) <==> Accepts(MachineOf(trimmed), w))
    && (if Coaccessible(MachineOf(lines), 0)
        then WellFormed(trimmed, count) && (forall s :: 0 <= s < count ==> Coaccessible(MachineOf(trimmed), s))
             && exists mapping :: Survivors(MachineOf(lines), n, MachineOf(trimmed), mapping)
        else trimmed == EMPTY_NET)
  }

  ghost function LiveStates(m: Machine<int>, n: nat): set<int> {
    set s | 0 <= s < n && Coaccessible(m, s)
  }

  /** `t` is `m` restricted to its coaccessible states, which `mapping` renumbers in their old order. */
  ghost predicate Survivors(m: Machine<int>, n: nat, t: Machine<int>, mapping: seq<int>) {
    var keep := LiveStates(m, n);
    && |mapping| == n && Restricts(m, t, keep, mapping)
    && (forall s, r :: s in keep && r in keep && s < r ==> mapping[s] < mapping[r])
  }

  ghost predicate FromZero(m: Machine<int>, q: int) {
    exists w :: Reads(m, 0, w, q)
  }

  /** If any state survives, so does state 0, from which all are reachable. */
  lemma FirstSurvives(lines: seq<Line>, n: nat, s: int)
    requires forall q :: 0 <= q < n ==> FromZero(MachineOf(lines), q)
    requires 0 <= s < n && Coaccessible(MachineOf(lines), s)
    ensures Coaccessible(MachineOf(lines), 0)
  {
    var m := MachineOf(lines);
    assert FromZero(m, s);
    var u :| Reads(m, 0, u, s);
    var v :| AcceptsFrom(m, s, v);
    var q := AcceptingEnd(m, s, v);
    ReadsAppend(m, 0, u, s, v, q);
    assert AcceptsFrom(m, 0, u + v);
  }

  lemma ShapeOfNet(lines: seq<Line>, n: nat)
    requires WellFormed(lines, n)
    ensures ContiguousStates(lines) && FlagsSame(lines)
  {
  }

  lemma FinalCoaccessible(lines: seq<Line>, n: nat, i: int)
    requires WellFormed(lines, n) && 0 <= i < |lines| && lines[i].final
    ensures Coaccessible(MachineOf(lines), lines[i].state)
  {
    FlagsOfState(lines, n, i);
    assert AcceptsFrom(MachineOf(lines), lines[i].state, []);
  }

  lemma ReadyToTrim(lines: seq<Line>, n: nat, coacc: seq<bool>, mapping: seq<int>)
    requires WellFormed(lines, n) && Orderly(lines) && |coacc| == |mapping| == n && MapOk(mapping, Marked(coacc))
    requires forall s :: 0 <= s < n ==> (coacc[s] <==> Coaccessible(MachineOf(lines), s))
    ensures TrimReady(lines, n, Marked(coacc), mapping) && Compactable(lines, Marked(coacc), mapping)
    ensures forall s, v :: AcceptsFrom(MachineOf(lines), s, v) ==> s in Marked(coacc)
  {
    hide WellFormed, Orderly, MapOk, AnyKept, AcceptsFrom, MachineOf;
    ShapeOfNet(lines, n);
    var m, keep := MachineOf(lines), Marked(coacc);
    forall i | 0 <= i < |lines| ensures 0 <= lines[i].state < n && -1 <= lines[i].target < n {
      LineAt(lines, n, i);
    }
    forall i | 0 <= i < |lines| && lines[i].final ensures lines[i].state in keep {
      LineAt(lines, n, i);
      FinalCoaccessible(lines, n, i);
    }
    forall s, v | AcceptsFrom(m, s, v) ensures s in keep {
      StateOfPath(lines, n, s, v);
      assert Coaccessible(m, s);
    }
    forall i | 0 <= i < |lines| && lines[i].state in keep
      ensures lines[i].final || AnyKept(lines, keep, |lines|, lines[i].state)
    {
      Productive(lines, n, keep, i);
    }
  }

  lemma StateOfPath(lines: seq<Line>, n: nat, s: int, v: seq<Label>)
    requires WellFormed(lines, n) && AcceptsFrom(MachineOf(lines), s, v)
    ensures 0 <= s < n
  {
    var q := AcceptingEnd(MachineOf(lines), s, v);
    if v == [] {
      var l :| l in lines && l.final && l.state == s;
      var k :| 0 <= k < |lines| && lines[k] == l;
      assert LineOk(lines[k], n);
    } else {
      var r := ReadsHead(MachineOf(lines), s, v, q);
      var k := ArcLine(lines, Arc(s, v[0], r));
      assert LineOk(lines[k], n);
    }
  }

  lemma Productive(lines: seq<Line>, n: nat, keep: set<int>, i: int)
    requires WellFormed(lines, n) && 0 <= i < |lines| && lines[i].state in keep
    requires forall s :: s in keep ==> Coaccessible(MachineOf(lines), s)
    requires forall s, v :: AcceptsFrom(MachineOf(lines), s, v) ==> s in keep
    ensures lines[i].final || AnyKept(lines, keep, |lines|, lines[i].state)
  {
    var m, s := MachineOf(lines), lines[i].state;
    var w :| AcceptsFrom(m, s, w);
    var q := AcceptingEnd(m, s, w);
    FlagsOfState(lines, n, i);
    if w != [] {
      var r := ReadsHead(m, s, w, q);
      assert AcceptsFrom(m, r, w[1..]);
      var k := ArcLine(lines, Arc(s, w[0], r));
      assert Kept(lines[k], keep);
    }
  }

  /** The survivors of the trimmed net are coaccessible there. */
  lemma TrimAchieved(lines: seq<Line>, n: nat, coacc: seq<bool>, mapping: seq<int>)
    requires WellFormed(lines, n) && Orderly(lines) && |coacc| == |mapping| == n && MapOk(mapping, Marked(coacc))
    requires forall s :: 0 <= s < n ==> (coacc[s] <==> Coaccessible(MachineOf(lines), s))
    requires coacc[0]
    ensures Trimmed(lines, n, Trim(lines, Marked(coacc), mapping), Rank(Marked(coacc), n))
  {
    hide Trim, TrimReady, Compactable, Restricts;
    var keep := Marked(coacc);
    var m, t := MachineOf(lines), MachineOf(Trim(lines, keep, mapping));
    ReadyToTrim(lines, n, coacc, mapping);
    TrimRestricts(lines, n, keep, mapping);
    TrimWellFormed(lines, n, keep, mapping);
    RestrictionKeepsLanguage(m, t, keep, mapping);
    MarkedSurvive(m, n, t, coacc, mapping);
    forall x | 0 <= x < Rank(keep, n) ensures Coaccessible(t, x) {
      var s := RankOnto(keep, n, x);
      var w :| AcceptsFrom(m, s, w);
      assert AcceptsFrom(t, mapping[s], w);
    }
  }

  lemma MarkedSurvive(m: Machine<int>, n: nat, t: Machine<int>, coacc: seq<bool>, mapping: seq<int>)
    requires |coacc| == |mapping| == n && MapOk(mapping, Marked(coacc))
    requires forall s :: 0 <= s < n ==> (coacc[s] <==> Coaccessible(m, s))
    requires Restricts(m, t, Marked(coacc), mapping)
    ensures Survivors(m, n, t, mapping)
  {
    hide Restricts, Coaccessible, Rank;
    var keep := Marked(coacc);
    assert keep == LiveStates(m, n);
    forall s, r | s in keep && r in keep && s < r ensures mapping[s] < mapping[r] {
      RankMonotone(keep, s, r);
    }
  }

  lemma {:induction false} RankIsCount(coacc: seq<bool>, n: nat)
    requires n <= |coacc|
    ensures Rank(Marked(coacc), n) == |Marked(coacc[..n])|
  {
    if n == 0 {
      assert Marked(coacc[..0]) == {};
    } else {
      RankIsCount(coacc, n - 1);
      assert Marked(coacc[..n]) == Marked(coacc[..n - 1]) + (if coacc[n - 1] then {n - 1} else {});
    }
  }

  lemma NothingSurvives(lines: seq<Line>, n: nat, coacc: seq<bool>)
    requires WellFormed(lines, n) && |coacc| == n && Marked(coacc) == {}
    requires forall s :: 0 <= s < n ==> (coacc[s] <==> Coaccessible(MachineOf(lines), s))
    ensures Trimmed(lines, n, EMPTY_NET, 0)
    ensures forall i :: 0 <= i < |lines| ==> !lines[i].final
  {
    EmptyNet();
    var m := MachineOf(lines);
    forall s, w ensures !AcceptsFrom(m, s, w) {
      NotFrom(lines, n, coacc, s, w);
    }
    forall w ensures !Accepts(m, w) {
      if Accepts(m, w) {
        var p, q := AcceptingPath(m, w);
        assert AcceptsFrom(m, p, w);
      }
    }
    assert HasState(lines, 0);
    forall i | 0 <= i < |lines| ensures !lines[i].final {
      FlagsOfState(lines, n, i);
      assert lines[i].final ==> AcceptsFrom(m, lines[i].state, []);
    }
  }

  lemma NotFrom(lines: seq<Line>, n: nat, coacc: seq<bool>, s: int, w: seq<Label>)
    requires WellFormed(lines, n) && |coacc| == n && Marked(coacc) == {}
    requires forall s :: 0 <= s < n ==> (coacc[s] <==> Coaccessible(MachineOf(lines), s))
    ensures !AcceptsFrom(MachineOf(lines), s, w)
  {
    forall t | 0 <= t < n ensures !coacc[t] {
      assert t !in Marked(coacc);
    }
    if AcceptsFrom(MachineOf(lines), s, w) {
      StateOfPath(lines, n, s, w);
      Witnessed(MachineOf(lines), s, w);
    }
  }

  lemma Witnessed(m: Machine<int>, s: int, w: seq<Label>)
    requires AcceptsFrom(m, s, w)
    ensures Coaccessible(m, s)
  {
  }

  lemma AllSurvive(lines: seq<Line>, n: nat, coacc: seq<bool>)
    requires WellFormed(lines, n) && |coacc| == n == |Marked(coacc)|
    requires forall s :: 0 <= s < n ==> (coacc[s] <==> Coaccessible(MachineOf(lines), s))
    ensures Trimmed(lines, n, lines, n)
  {
    hide Survivors, Coaccessible, Accepts, Identity, LineOk, HasState;
    MarkedAtMost(coacc);
    AllInOrder(lines, n);
  }

  lemma AllInOrder(lines: seq<Line>, n: nat)
    requires WellFormed(lines, n) && forall s :: 0 <= s < n ==> Coaccessible(MachineOf(lines), s)
    ensures Survivors(MachineOf(lines), n, MachineOf(lines), Identity(n))
  {
    hide Survivors, Coaccessible;
    var m := MachineOf(lines);
    forall a | a in m.arcs ensures 0 <= a.src < n && 0 <= a.tgt < n {
      var k := ArcLine(lines, a);
      assert LineOk(lines[k], n);
    }
    forall x | x in m.finals || x in m.starts ensures 0 <= x < n {
      var l :| l in lines && l.state == x;
      var k :| 0 <= k < |lines| && lines[k] == l;
      assert LineOk(lines[k], n);
    }
    IdentityKeeps(m, n);
  }

  function Identity(n: nat): (r: seq<int>)
    ensures |r| == n && forall s :: 0 <= s < n ==> r[s] == s
  {
    seq(n, s => s)
  }

  lemma IdentityKeeps(m: Machine<int>, n: nat)
    requires forall s :: 0 <= s < n ==> Coaccessible(m, s)
    requires (forall a :: a in m.arcs ==> 0 <= a.src < n && 0 <= a.tgt < n)
    requires forall x :: x in m.finals || x in m.starts ==> 0 <= x < n
    ensures Survivors(m, n, m, Identity(n))
  {
    hide Coaccessible, Identity;
    var keep, mapping := LiveStates(m, n), Identity(n);
    assert forall s :: 0 <= s < n ==> s in keep;
    hide LiveStates;
    forall a | a in m.arcs
      ensures exists s, r :: s in keep && r in keep && mapping[s] == a.src && mapping[r] == a.tgt
                             && Arc(s, a.lab, r) in m.arcs
    {
      assert mapping[a.src] == a.src && mapping[a.tgt] == a.tgt && Arc(a.src, a.lab, a.tgt) in m.arcs;
    }
    forall x | x in m.finals || x in m.starts ensures exists s :: s in keep && mapping[s] == x {
      assert x in keep && mapping[x] == x;
    }
  }

  lemma MarksOfFirst(lines: seq<Line>, n: nat, coacc: seq<bool>)
    requires forall q :: 0 <= q < n ==> FromZero(MachineOf(lines), q)
    requires |coacc| == n > 0
    requires forall s :: 0 <= s < n ==> (coacc[s] <==> Coaccessible(MachineOf(lines), s))
    ensures coacc[0] || Marked(coacc) == {}
    ensures coacc[0] ==> Marked(coacc) != {} && |Marked(coacc)| > 0
  {
    forall s | s in Marked(coacc) ensures coacc[0] {
      FirstSurvives(lines, n, s);
    }
    if coacc[0] {
      assert 0 in Marked(coacc);
    }
  }

  lemma NonEmptyNet(lines: seq<Line>, n: nat, coacc: seq<bool>)
    requires WellFormed(lines, n) && |coacc| == n && |Marked(coacc)| < n
    requires forall s :: 0 <= s < n ==> (coacc[s] <==> Coaccessible(MachineOf(lines), s))
    ensures 0 < |lines| && (|lines| == 1 ==> !lines[0].final)
  {
    assert HasState(lines, 0) && HasState(lines, n - 1);
    if lines[0].final {
      FinalMarked(lines, n, coacc);
    }
  }

  lemma FinalMarked(lines: seq<Line>, n: nat, coacc: seq<bool>)
    requires WellFormed(lines, n) && |coacc| == n && lines != [] && lines[0].final
    requires forall s :: 0 <= s < n ==> (coacc[s] <==> Coaccessible(MachineOf(lines), s))
    ensures |Marked(coacc)| > 0
  {
    var s := lines[0].state;
    assert LineOk(lines[0], n);
    FlagsOfState(lines, n, 0);
    assert AcceptsFrom(MachineOf(lines), s, []);
    assert coacc[s];
    assert s in Marked(coacc);
  }

  lemma NotEmpty(lines: seq<Line>, n: nat, trimmed: seq<Line>, count: nat)
    requires Trimmed(lines, n, trimmed, count) && Coaccessible(MachineOf(lines), 0)
    ensures 0 < |trimmed|
  {
    assert HasState(trimmed, 0);
  }

  lemma MarkedAreLive(lines: seq<Line>, n: nat, coacc: seq<bool>)
    requires |coacc| == n && forall s :: 0 <= s < n ==> (coacc[s] <==> Coaccessible(MachineOf(lines), s))
    ensures Marked(coacc) == LiveStates(MachineOf(lines), n)
    ensures |Marked(coacc)| == n <==> forall s :: 0 <= s < n ==> Coaccessible(MachineOf(lines), s)
  {
    hide Coaccessible;
    MarkedAtMost(coacc);
    if forall s :: 0 <= s < n ==> Coaccessible(MachineOf(lines), s) {
      Counting.IndicesSize(n);
      assert Marked(coacc) == Counting.Indices(n);
    }
  }

  /** Without a marked state no line is kept, and no final line asks for one. */
  lemma NothingWritten(lines: seq<Line>, n: nat, coacc: seq<bool>, mapping: seq<int>)
    requires Compactable(lines, Marked(coacc), mapping) && Marked(coacc) == {}
    requires forall i :: 0 <= i < |lines| ==> !lines[i].final
    ensures Trim(lines, Marked(coacc), mapping) == [] && ArcCount(EMPTY_NET) == 0
    ensures ArcCount(Trim(lines, Marked(coacc), mapping)) == 0
  {
    hide FinalsKept, FlagsSame, Orderly, ContiguousStates;
    NoOutput(lines, mapping, |lines|);
  }

  lemma {:induction false} NoOutput(lines: seq<Line>, mapping: seq<int>, i: int)
    requires 0 <= i <= |lines| && InMap(lines, mapping) && forall k :: 0 <= k < |lines| ==> !lines[k].final
    ensures Output(lines, {}, mapping, i) == []
    decreases i
  {
    if i > 0 {
      NoOutput(lines, mapping, i - 1);
    }
  }

  lemma MayCompact(lines: seq<Line>, n: nat, coacc: seq<bool>, mapping: seq<int>)
    requires WellFormed(lines, n) && Orderly(lines) && |coacc| == |mapping| == n && MapOk(mapping, Marked(coacc))
    requires forall s :: 0 <= s < n ==> (coacc[s] <==> Coaccessible(MachineOf(lines), s))
    requires |Marked(coacc)| < n
    ensures Compactable(lines, Marked(coacc), mapping) && InMap(lines, mapping)
    ensures 0 < |lines| && (|lines| == 1 ==> !lines[0].final)
  {
    hide MapOk, Orderly, WellFormed, Coaccessible, TrimReady, MachineOf, Marked;
    ReadyToTrim(lines, n, coacc, mapping);
    NonEmptyNet(lines, n, coacc);
  }

  /** What the compacted array holds is the trimmed net. */
  lemma CompactedIsTrimmed(lines: seq<Line>, n: nat, coacc: seq<bool>, mapping: seq<int>)
    requires WellFormed(lines, n) && Orderly(lines) && |coacc| == |mapping| == n && MapOk(mapping, Marked(coacc))
    requires forall s :: 0 <= s < n ==> (coacc[s] <==> Coaccessible(MachineOf(lines), s))
    requires 0 < n && forall q :: 0 <= q < n ==> FromZero(MachineOf(lines), q)
    requires Compactable(lines, Marked(coacc), mapping) && InMap(lines, mapping)
    ensures var out := Trim(lines, Marked(coacc), mapping);
            if |Marked(coacc)| == 0
            then Trimmed(lines, n, EMPTY_NET, 0) && out == [] && ArcCount(out) == ArcCount(EMPTY_NET)
            else Trimmed(lines, n, out, |Marked(coacc)|) && |out| > 0
  {
    hide MapOk, Orderly, WellFormed, FromZero, Coaccessible, TrimReady, MachineOf, Trim, Trimmed, Compactable, InMap,
         Rank, ArcCount;
    MarksOfFirst(lines, n, coacc);
    if Marked(coacc) == {} {
      NothingSurvives(lines, n, coacc);
      NothingWritten(lines, n, coacc, mapping);
    } else {
      TrimAchieved(lines, n, coacc, mapping);
      RankIsCount(coacc, n);
      assert coacc[..n] == coacc;
      NotEmpty(lines, n, Trim(lines, Marked(coacc), mapping), Rank(Marked(coacc), n));
    }
  }

  /**
   Removes every state from which no final state can be reached, renumbering the others
   densely in their old order. All states are reachable from state 0.
   */
  method CoaccessibleInPlace(net: Fsm, ghost lines: seq<Line>) returns (ghost trimmed: seq<Line>)
    requires WellFormed(lines, net.statecount) && Orderly(lines) && Encodes(net.states, lines)
    requires forall q :: 0 <= q < net.statecount ==> FromZero(MachineOf(lines), q)
    modifies net, net.states
    ensures Encodes(net.states, trimmed)
    ensures Trimmed(lines, old(net.statecount), trimmed, net.statecount)
    ensures if forall s :: 0 <= s < old(net.statecount) ==> Coaccessible(MachineOf(lines), s)
            then trimmed == lines && net.linecount == old(net.linecount) && net.arccount == old(net.arccount)
            else net.linecount == (if net.statecount == 0 then 0 else |trimmed|) && net.arccount == ArcCount(trimmed)
    ensures net.statecount == |LiveStates(MachineOf(lines), old(net.statecount))|
  {
    hide Trim, Trimmed, Compactable, Marked, MapOk, Orderly, WellFormed, FromZero, Coaccessible, TrimReady, Rank,
         ArcCount, LiveStates, InMap, Counting.Indices, MachineOf, ListsSources;
    var n := net.statecount;
    var inverses := BuildInverses(net.states, n, lines);
    var coacc, markcount, terminate := Mark(net.states, n, inverses, lines);
    ghost var marks := coacc[..];
    MarkedAtMost(marks);
    MarkedAreLive(lines, n, marks);
    if terminate {
      trimmed := lines;
      AllSurvive(lines, n, marks);
      return;
    }
    MarksOfFirst(lines, n, marks);
    var mapping := BuildMapping(coacc[..]);
    MayCompact(lines, n, marks, mapping);
    var newLinecount, newArccount := Compact(net.states, coacc[..], mapping, lines);
    CompactedIsTrimmed(lines, n, marks, mapping);
    if markcount == 0 {
      net.states := new Line[2](i => if i == 0 then EMPTY_NET[0] else Line(-1, -1, -1, -1, false, false));
      trimmed := EMPTY_NET;
      assert net.states[..1] == EMPTY_NET;
    } else {
      trimmed := Trim(lines, Marked(coacc[..]), mapping);
    }
    net.linecount := newLinecount;
    net.arccount := newArccount;
    net.statecount := markcount;
  }
}
