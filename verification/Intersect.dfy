/**
 Intersection by running two nets in parallel: each product state looks the arcs of the
 first net up in a stamped table of the second net's arcs.
 */
module Intersection {
  import opened Automata
  import opened TripletHashing
  import opened NetBuilding
  import opened NetReading
  import opened ProductBuilding
  import opened Worklist

  /** The parallel product: a state pair moves on a symbol pair that both sides have. */
  ghost function Parallel(m1: Machine<int>, m2: Machine<int>): Machine<Triple> {
    Machine(iset a: Arc<Triple> | ParallelArc(m1, m2, a),
            iset t: Triple | t.a in m1.starts && t.b in m2.starts && t.c == 0,
            iset t: Triple | t.a in m1.finals && t.b in m2.finals && t.c == 0)
  }

  ghost predicate ParallelArc(m1: Machine<int>, m2: Machine<int>, a: Arc<Triple>) {
    && Arc(a.src.a, a.lab, a.tgt.a) in m1.arcs
    && Arc(a.src.b, a.lab, a.tgt.b) in m2.arcs
    && a.src.c == 0 && a.tgt.c == 0
  }

  lemma {:induction false} ParallelReads(m1: Machine<int>, m2: Machine<int>, p: int, q: int, w: seq<Label>, t: Triple)
    requires Reads(Parallel(m1, m2), Triple(p, q, 0), w, t)
    ensures Reads(m1, p, w, t.a) && Reads(m2, q, w, t.b) && t.c == 0
    decreases |w|
  {
    if w != [] {
      var s :| Arc(Triple(p, q, 0), w[0], s) in Parallel(m1, m2).arcs && Reads(Parallel(m1, m2), s, w[1..], t);
      assert ParallelArc(m1, m2, Arc(Triple(p, q, 0), w[0], s));
      ParallelReads(m1, m2, s.a, s.b, w[1..], t);
    }
  }

  lemma {:induction false} ReadsParallel(m1: Machine<int>, m2: Machine<int>, p: int, q: int, w: seq<Label>, p': int,
                                         q': int)
    requires Reads(m1, p, w, p') && Reads(m2, q, w, q')
    ensures Reads(Parallel(m1, m2), Triple(p, q, 0), w, Triple(p', q', 0))
    decreases |w|
  {
    if w != [] {
      var r :| Arc(p, w[0], r) in m1.arcs && Reads(m1, r, w[1..], p');
      var s :| Arc(q, w[0], s) in m2.arcs && Reads(m2, s, w[1..], q');
      ReadsParallel(m1, m2, r, s, w[1..], p', q');
      assert Arc(Triple(p, q, 0), w[0], Triple(r, s, 0)) in Parallel(m1, m2).arcs;
    }
  }

  /** The product accepts exactly the common words. */
  lemma ParallelLanguage(m1: Machine<int>, m2: Machine<int>)
    ensures forall w :: Accepts(Parallel(m1, m2), w) <==> Accepts(m1, w) && Accepts(m2, w)
  {
    forall w ensures Accepts(Parallel(m1, m2), w) <==> Accepts(m1, w) && Accepts(m2, w) {
      if Accepts(Parallel(m1, m2), w) {
        var s, t := AcceptingPath(Parallel(m1, m2), w);
        ParallelReads(m1, m2, s.a, s.b, w, t);
      }
      if Accepts(m1, w) && Accepts(m2, w) {
        var p, p' := AcceptingPath(m1, w);
        var q, q' := AcceptingPath(m2, w);
        ReadsParallel(m1, m2, p, q, w, p', q');
        assert Triple(p, q, 0) in Parallel(m1, m2).starts && Triple(p', q', 0) in Parallel(m1, m2).finals;
      }
    }
  }

  /** One cell of the table over the second net's arcs: fresh when stamped with the current round. */
  datatype Lookup = Lookup(mainloop: nat, target: int)

  /** The cell for `x:y` is fresh exactly if lines `lo..i` have an arc on it, and then holds one. */
  ghost predicate CellOk(cell: Lookup, round: nat, lines: seq<Line>, lo: int, i: int, x: int, y: int)
    requires 0 <= lo <= i <= |lines|
  {
    && cell.mainloop <= round
    && (cell.mainloop == round ==> exists k :: lo <= k < i && lines[k].ToLabel() == Label(x, y)
                                               && lines[k].target == cell.target >= 0)
    && (cell.mainloop != round ==> forall k :: lo <= k < i ==> lines[k].ToLabel() != Label(x, y))
  }

  ghost predicate Indexed(table: array2<Lookup>, round: nat, lines: seq<Line>, lo: int, i: int)
    requires 0 <= lo <= i <= |lines|
    reads table
  {
    forall x, y :: 0 <= x < table.Length0 && 0 <= y < table.Length1 ==> CellOk(table[x, y], round, lines, lo, i, x, y)
  }

  /** No cell is fresh yet in a round after `round`. */
  ghost predicate Stale(table: array2<Lookup>, round: nat)
    reads table
  {
    forall x, y :: 0 <= x < table.Length0 && 0 <= y < table.Length1 ==> table[x, y].mainloop <= round
  }

  lemma CellsStale(table: array2<Lookup>, round: nat, lines: seq<Line>, lo: int, i: int)
    requires 0 <= lo <= i <= |lines| && Indexed(table, round, lines, lo, i)
    ensures Stale(table, round)
  {
    forall x, y | 0 <= x < table.Length0 && 0 <= y < table.Length1 ensures table[x, y].mainloop <= round {
      assert CellOk(table[x, y], round, lines, lo, i, x, y);
    }
  }

  /** Fills the table with the arcs of state `q` of the second net. */
  method IndexState(table: array2<Lookup>, round: nat, lines: seq<Line>, n: nat, q: int, pointer: StatePointer)
    returns (ghost hi: int)
    requires WellFormed(lines, n) && PointsAt(pointer, lines, q)
    requires table.Length0 == table.Length1 && SymbolsUpTo(lines, table.Length0 - 1)
    requires 0 < round && Stale(table, round - 1)
    modifies table
    ensures Block(lines, q, pointer.transitions, hi)
    ensures Indexed(table, round, lines, pointer.transitions, hi)
  {
    hide CellOk;
    var lo := pointer.transitions;
    var i := lo;
    NothingIndexed(table, round, lines, lo);
    while i < |lines| && lines[i].state == q
      invariant lo <= i <= |lines|
      invariant forall k :: lo <= k < i ==> lines[k].state == q
      invariant Indexed(table, round, lines, lo, i)
    {
      IndexLine(table, round, lines, n, lo, i);
      i := i + 1;
    }
    ScannedBlock(lines, n, q, pointer, i);
    hi := i;
  }

  lemma NothingIndexed(table: array2<Lookup>, round: nat, lines: seq<Line>, lo: int)
    requires 0 <= lo <= |lines| && 0 < round && Stale(table, round - 1)
    ensures Indexed(table, round, lines, lo, lo)
  {
  }

  method IndexLine(table: array2<Lookup>, round: nat, lines: seq<Line>, ghost n: nat, ghost lo: int, i: int)
    requires WellFormed(lines, n) && 0 <= lo <= i < |lines|
    requires table.Length0 == table.Length1 && SymbolsUpTo(lines, table.Length0 - 1)
    requires Indexed(table, round, lines, lo, i)
    modifies table
    ensures Indexed(table, round, lines, lo, i + 1)
  {
    hide CellOk;
    var l := lines[i];
    assert LineOk(l, n) && l in lines;
    if l.upper >= 0 {
      table[l.upper, l.lower] := Lookup(round, l.target);
      CellSet(round, lines, lo, i);
    }
    forall x, y | 0 <= x < table.Length0 && 0 <= y < table.Length1 && Label(x, y) != l.ToLabel()
      ensures CellOk(table[x, y], round, lines, lo, i + 1, x, y)
    {
      assert old(CellOk(table[x, y], round, lines, lo, i, x, y));
      CellKept(table[x, y], round, lines, lo, i, x, y);
    }
  }

  lemma CellSet(round: nat, lines: seq<Line>, lo: int, i: int)
    requires 0 <= lo <= i < |lines| && lines[i].target >= 0
    ensures CellOk(Lookup(round, lines[i].target), round, lines, lo, i + 1, lines[i].upper, lines[i].lower)
  {
    assert lo <= i < i + 1 && lines[i].ToLabel() == Label(lines[i].upper, lines[i].lower);
  }

  lemma CellKept(cell: Lookup, round: nat, lines: seq<Line>, lo: int, i: int, x: int, y: int)
    requires 0 <= lo <= i < |lines| && CellOk(cell, round, lines, lo, i, x, y)
    requires lines[i].ToLabel() != Label(x, y)
    ensures CellOk(cell, round, lines, lo, i + 1, x, y)
  {
  }

  /** The product arcs that lines `lo..i` of the first net give rise to have been emitted. */
  ghost predicate EmittedUpTo(lines: seq<Line>, keys: seq<Triple>, cur: int, m2: Machine<int>, a: seq<Line>, lo: int,
                              i: int, q: int)
    requires 0 <= lo <= i <= |a|
  {
    forall k, r :: lo <= k < i && a[k].target >= 0 && Arc(q, a[k].ToLabel(), r) in m2.arcs ==>
                     Emitted(lines, keys, cur, a[k].ToLabel(), Triple(a[k].target, r, 0))
  }

  lemma EmittedUpToKept(lines: seq<Line>, keys: seq<Triple>, cur: int, m2: Machine<int>, a: seq<Line>, lo: int, i: int,
                        q: int,
                        lines': seq<Line>, keys': seq<Triple>)
    requires 0 <= lo <= i <= |a| && lines <= lines' && keys <= keys'
    requires EmittedUpTo(lines, keys, cur, m2, a, lo, i, q)
    ensures EmittedUpTo(lines', keys', cur, m2, a, lo, i, q)
  {
    forall k, r | lo <= k < i && a[k].target >= 0 && Arc(q, a[k].ToLabel(), r) in m2.arcs
      ensures Emitted(lines', keys', cur, a[k].ToLabel(), Triple(a[k].target, r, 0))
    {
      EmittedKept(lines, keys, cur, a[k].ToLabel(), Triple(a[k].target, r, 0), lines', keys');
    }
  }

  /** What a table lookup tells about the second net. */
  lemma LookedUp(cell: Lookup, round: nat, b: seq<Line>, q: int, lo: int, hi: int, x: int, y: int)
    requires Block(b, q, lo, hi) && CellOk(cell, round, b, lo, hi, x, y)
    ensures cell.mainloop == round ==> cell.target >= 0 && Arc(q, Label(x, y), cell.target) in ArcsOf(b)
    ensures cell.mainloop != round ==> forall r :: Arc(q, Label(x, y), r) !in ArcsOf(b)
  {
    if cell.mainloop == round {
      var k :| lo <= k < hi && b[k].ToLabel() == Label(x, y) && b[k].target == cell.target >= 0;
      LineIsArc(b, k);
    } else {
      forall r ensures Arc(q, Label(x, y), r) !in ArcsOf(b) {
        if Arc(q, Label(x, y), r) in ArcsOf(b) {
          var k := ArcInBlock(b, q, lo, hi, Label(x, y), r);
        }
      }
    }
  }

  /** One line of the first net: consult the table, visit the target pair, emit the arc. */
  method FollowLine(pb: ProductBuilder, table: array2<Lookup>, round: nat, a: seq<Line>, ghost na: nat, b: seq<Line>,
                    ghost q: int, ghost blo: int, ghost bhi: int, i: int)
    requires pb.Building() && pb.prod == Parallel(MachineOf(a), MachineOf(b)) && Deterministic(MachineOf(b))
    requires WellFormed(a, na) && 0 <= i < |a| && pb.th.keys[pb.cur] == Triple(a[i].state, q, 0)
    requires Block(b, q, blo, bhi) && Indexed(table, round, b, blo, bhi)
    requires table.Length0 == table.Length1 == pb.builder.slookup.Length0 && SymbolsUpTo(a, table.Length0 - 1)
    modifies pb`stack, pb`nums, pb`pending, pb.th, pb.th.triplets, pb.builder, pb.builder.slookup
    ensures pb.Building() && (pb.th.triplets == old(pb.th.triplets) || fresh(pb.th.triplets))
    ensures old(pb.th.keys) <= pb.th.keys && old(pb.builder.lines) <= pb.builder.lines
    ensures EmittedUpTo(pb.builder.lines, pb.th.keys, pb.cur, MachineOf(b), a, i, i + 1, q)
  {
    hide CellOk, Indexed, Emitted, StackOk, Follows, Finished, Numbered, Below, TripletHash.Valid, NetBuilder.Valid,
         WellFormed,
         SymbolsUpTo, Deterministic, ParallelArc;
    var l := a[i];
    LineInRange(a, na, table.Length0 - 1, i);
    if l.upper < 0 || l.lower < 0 {
      return;
    }
    var cell := table[l.upper, l.lower];
    CellAt(table, round, b, blo, bhi, l.upper, l.lower);
    LookedUp(cell, round, b, q, blo, bhi, l.upper, l.lower);
    if cell.mainloop != round {
      return;
    }
    LineIsArc(a, i);
    var t := Triple(l.target, cell.target, 0);
    BothMove(MachineOf(a), MachineOf(b), l.state, q, l.ToLabel(), l.target, cell.target);
    pb.Emit(l.upper, l.lower, t);
    OnlyTarget(MachineOf(b), q, l.ToLabel(), cell.target);
  }

  lemma CellAt(table: array2<Lookup>, round: nat, lines: seq<Line>, lo: int, hi: int, x: int, y: int)
    requires 0 <= lo <= hi <= |lines| && Indexed(table, round, lines, lo, hi)
    requires 0 <= x < table.Length0 && 0 <= y < table.Length1
    ensures CellOk(table[x, y], round, lines, lo, hi, x, y)
  {
  }

  lemma BothMove(m1: Machine<int>, m2: Machine<int>, p: int, q: int, l: Label, p': int, q': int)
    requires Arc(p, l, p') in m1.arcs && Arc(q, l, q') in m2.arcs
    ensures Arc(Triple(p, q, 0), l, Triple(p', q', 0)) in Parallel(m1, m2).arcs
  {
    assert ParallelArc(m1, m2, Arc(Triple(p, q, 0), l, Triple(p', q', 0)));
  }

  lemma OnlyTarget(m: Machine<int>, q: int, l: Label, r: int)
    requires Deterministic(m) && Arc(q, l, r) in m.arcs
    ensures forall s :: Arc(q, l, s) in m.arcs ==> s == r
  {
    forall s | Arc(q, l, s) in m.arcs ensures s == r {
      assert Arc(q, l, s).tgt == Arc(q, l, r).tgt;
    }
  }

  /** The arcs of the first net's state `p`, run in parallel. */
  method FollowState(pb: ProductBuilder, table: array2<Lookup>, round: nat, a: seq<Line>, na: nat,
                     pointer: StatePointer,
                     p: int, b: seq<Line>, ghost q: int, ghost blo: int, ghost bhi: int)
    requires pb.Building() && pb.prod == Parallel(MachineOf(a), MachineOf(b)) && Deterministic(MachineOf(b))
    requires WellFormed(a, na) && PointsAt(pointer, a, p) && pb.th.keys[pb.cur] == Triple(p, q, 0)
    requires Block(b, q, blo, bhi) && Indexed(table, round, b, blo, bhi)
    requires table.Length0 == table.Length1 == pb.builder.slookup.Length0 && SymbolsUpTo(a, table.Length0 - 1)
    modifies pb`stack, pb`nums, pb`pending, pb.th, pb.th.triplets, pb.builder, pb.builder.slookup
    ensures pb.Building() && (pb.th.triplets == old(pb.th.triplets) || fresh(pb.th.triplets))
    ensures old(pb.th.keys) <= pb.th.keys
    ensures AllEmitted(pb.builder.lines, pb.th.keys, pb.prod, pb.cur)
  {
    hide EmittedUpTo, Indexed, AllEmitted, ParallelArc, StackOk, Follows, Finished, Numbered, Below, WellFormed,
         SymbolsUpTo, Deterministic,
         TripletHash.Valid, NetBuilder.Valid;
    var i := pointer.transitions;
    NoneEmitted(pb.builder.lines, pb.th.keys, pb.cur, MachineOf(b), a, i, q);
    while i < |a| && a[i].state == p
      invariant pointer.transitions <= i <= |a|
      invariant pb.Building() && (pb.th.triplets == old(pb.th.triplets) || fresh(pb.th.triplets))
      invariant forall k :: pointer.transitions <= k < i ==> a[k].state == p
      invariant pb.th.keys[pb.cur] == Triple(p, q, 0) && old(pb.th.keys) <= pb.th.keys
      invariant Indexed(table, round, b, blo, bhi)
      invariant EmittedUpTo(pb.builder.lines, pb.th.keys, pb.cur, MachineOf(b), a, pointer.transitions, i, q)
    {
      ghost var lines, keys := pb.builder.lines, pb.th.keys;
      FollowLine(pb, table, round, a, na, b, q, blo, bhi, i);
      EmittedUpToKept(lines, keys, pb.cur, MachineOf(b), a, pointer.transitions, i, q, pb.builder.lines, pb.th.keys);
      EmittedUpToStep(pb.builder.lines, pb.th.keys, pb.cur, MachineOf(b), a, pointer.transitions, i, q);
      i := i + 1;
    }
    ScannedBlock(a, na, p, pointer, i);
    BlockEmitted(pb.builder.lines, pb.th.keys, pb.cur, a, b, p, q, pointer.transitions, i);
  }

  lemma NoneEmitted(lines: seq<Line>, keys: seq<Triple>, cur: int, m2: Machine<int>, a: seq<Line>, lo: int, q: int)
    requires 0 <= lo <= |a|
    ensures EmittedUpTo(lines, keys, cur, m2, a, lo, lo, q)
  {
  }

  lemma EmittedUpToStep(lines: seq<Line>, keys: seq<Triple>, cur: int, m2: Machine<int>, a: seq<Line>, lo: int, i: int,
                        q: int)
    requires 0 <= lo <= i < |a|
    requires EmittedUpTo(lines, keys, cur, m2, a, lo, i, q) && EmittedUpTo(lines, keys, cur, m2, a, i, i + 1, q)
    ensures EmittedUpTo(lines, keys, cur, m2, a, lo, i + 1, q)
  {
  }

  lemma BlockEmitted(lines: seq<Line>, keys: seq<Triple>, cur: int, a: seq<Line>, b: seq<Line>, p: int, q: int, lo: int,
                     hi: int)
    requires 0 <= cur < |keys| && keys[cur] == Triple(p, q, 0) && Block(a, p, lo, hi)
    requires EmittedUpTo(lines, keys, cur, MachineOf(b), a, lo, hi, q)
    ensures AllEmitted(lines, keys, Parallel(MachineOf(a), MachineOf(b)), cur)
  {
    forall l, t | Arc(keys[cur], l, t) in Parallel(MachineOf(a), MachineOf(b)).arcs
      ensures Emitted(lines, keys, cur, l, t)
    {
      assert ParallelArc(MachineOf(a), MachineOf(b), Arc(keys[cur], l, t));
      var k := ArcInBlock(a, p, lo, hi, l, t.a);
      assert Emitted(lines, keys, cur, a[k].ToLabel(), Triple(a[k].target, t.b, 0));
    }
  }

  /** One round of the main loop: a pair of states is taken off the stack and built. */
  method BuildPair(pb: ProductBuilder, table: array2<Lookup>, round: nat,
                   a: seq<Line>, na: nat, pointA: seq<StatePointer>, b: seq<Line>, nb: nat, pointB: seq<StatePointer>)
    requires pb.Idle() && pb.stack != [] && pb.prod == Parallel(MachineOf(a), MachineOf(b))
             && Deterministic(MachineOf(b))
    requires WellFormed(a, na) && PointsInto(pointA, a, na) && WellFormed(b, nb) && PointsInto(pointB, b, nb)
    requires table.Length0 == table.Length1 == pb.builder.slookup.Length0
    requires SymbolsUpTo(a, table.Length0 - 1) && SymbolsUpTo(b, table.Length0 - 1)
    requires 0 < round && Stale(table, round - 1) && pb.th.keys[0] == Triple(0, 0, 0)
    modifies pb, pb.th, pb.th.triplets, pb.builder, pb.builder.slookup, table
    ensures pb.Idle() && (pb.th.triplets == old(pb.th.triplets) || fresh(pb.th.triplets))
    ensures old(pb.th.keys) <= pb.th.keys
    ensures old(pb.done) < pb.done <= Universe(na, nb)
    ensures Stale(table, round)
  {
    hide StackOk, Follows, Finished, Numbered, Below, TripletHash.Valid, NetBuilder.Valid, Indexed, Stale, AllEmitted,
         WellFormed, SymbolsUpTo,
         Deterministic;
    var t, n := pb.Pop();
    PairInRange(pb, a, na, b, nb);
    var p, q := t.a, t.b;
    PointerFlags(a, na, p, pointA[p]);
    PointerFlags(b, nb, q, pointB[q]);
    pb.Begin(n, pointA[p].final && pointB[q].final, pointA[p].start && pointB[q].start);
    ghost var bhi := IndexState(table, round, b, nb, q, pointB[q]);
    FollowState(pb, table, round, a, na, pointA[p], p, b, q, pointB[q].transitions, bhi);
    pb.End();
    CellsStale(table, round, b, pointB[q].transitions, bhi);
  }

  lemma PairInRange(pb: ProductBuilder, a: seq<Line>, na: nat, b: seq<Line>, nb: nat)
    requires pb.Popped() && pb.prod == Parallel(MachineOf(a), MachineOf(b))
    requires WellFormed(a, na) && WellFormed(b, nb) && pb.th.keys[0] == Triple(0, 0, 0)
    ensures pb.done <= Universe(na, nb)
    ensures var t := pb.th.keys[pb.cur]; 0 <= t.a < na && 0 <= t.b < nb && t.c == 0
  {
    var u := set t | t in Universe(na, nb) && t.c == 0;
    assert Triple(0, 0, 0) in Universe(na, nb);
    forall e | e in pb.prod.arcs ensures e.tgt in u {
      assert ParallelArc(MachineOf(a), MachineOf(b), e);
      ArcInRange(a, na, Arc(e.src.a, e.lab, e.tgt.a));
      ArcInRange(b, nb, Arc(e.src.b, e.lab, e.tgt.b));
    }
    KeysWithin(pb.builder.lines, pb.th.keys, pb.prod, pb.done, u);
    assert pb.th.keys[pb.cur] in u;
  }

  /**
   The words that both nets accept. The nets are minimized and share one alphabet, so the
   second is deterministic and both start in state 0.
   */
  method Intersect(a: seq<Line>, na: nat, b: seq<Line>, nb: nat, sigmaMax: int)
    returns (net: seq<Line>, count: nat, deterministic: bool)
    requires WellFormed(a, na) && WellFormed(b, nb) && Deterministic(MachineOf(b))
    requires MachineOf(a).starts == iset{0} && MachineOf(b).starts == iset{0}
    requires -1 <= sigmaMax && SymbolsUpTo(a, sigmaMax) && SymbolsUpTo(b, sigmaMax)
    ensures forall w :: Accepts(MachineOf(net), w) <==> Accepts(MachineOf(a), w) && Accepts(MachineOf(b), w)
    ensures deterministic ==> Deterministic(MachineOf(net))
    ensures WellFormed(net, count) && Orderly(net) && (forall j :: 0 < j < count ==> Introduced(net, j))
  {
    hide StackOk, Follows, Finished, Numbered, TripletHash.Valid, NetBuilder.Valid, Indexed, AllEmitted;
    var pointA := InitStatePointers(a, na);
    var pointB := InitStatePointers(b, nb);
    var table := new Lookup[sigmaMax + 1, sigmaMax + 1]((_, _) => Lookup(0, 0));
    var mainloop := 0;
    var pb := new ProductBuilder(sigmaMax, Parallel(MachineOf(a), MachineOf(b)), Triple(0, 0, 0));
    while pb.stack != []
      invariant pb.Idle() && fresh(pb) && fresh(pb.th) && fresh(pb.th.triplets) && fresh(pb.builder)
                && fresh(pb.builder.slookup)
      invariant pb.prod == Parallel(MachineOf(a), MachineOf(b)) && pb.th.keys[0] == Triple(0, 0, 0)
      invariant Stale(table, mainloop)
      decreases Universe(na, nb) - pb.done
    {
      mainloop := mainloop + 1;
      BuildPair(pb, table, mainloop, a, na, pointA, b, nb, pointB);
    }
    net, count, deterministic := pb.Close();
    IntersectionLanguage(a, b, net, pb.th.keys);
  }

  lemma IntersectionLanguage(a: seq<Line>, b: seq<Line>, net: seq<Line>, keys: seq<Triple>)
    requires Renames(Parallel(MachineOf(a), MachineOf(b)), MachineOf(net), keys) && Deterministic(MachineOf(b))
    ensures forall w :: Accepts(MachineOf(net), w) <==> Accepts(MachineOf(a), w) && Accepts(MachineOf(b), w)
  {
    RenamingKeepsLanguage(Parallel(MachineOf(a), MachineOf(b)), MachineOf(net), keys);
    ParallelLanguage(MachineOf(a), MachineOf(b));
    forall w | Accepts(MachineOf(b), w) ensures EPSILON_PAIR !in w {
      var p, q := AcceptingPath(MachineOf(b), w);
      ReadsNoEpsilon(MachineOf(b), p, w, q);
    }
  }
}
