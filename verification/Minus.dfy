/**
 Subtraction: the first net runs as long as it can, the second alongside until it dies.
 State numbers are shifted by one so that 0 can stand for the dead second net.
 */
module Subtraction {
  import opened Automata
  import opened TripletHashing
  import opened NetBuilding
  import opened NetReading
  import opened ProductBuilding
  import opened Worklist

  ghost predicate HasPath(m: Machine<int>, p: int, w: seq<Label>) {
    exists r :: Reads(m, p, w, r)
  }

  /** From the code `c` of the second net's state, the label `l` leads to the code `d`. */
  ghost predicate Follows2(m2: Machine<int>, c: int, l: Label, d: int) {
    if c == 0 then d == 0
    else c > 0 && ((d > 0 && Arc(c - 1, l, d - 1) in m2.arcs) || (d == 0 && !HasMove(m2, c - 1, l)))
  }

  ghost predicate MinusArc(m1: Machine<int>, m2: Machine<int>, a: Arc<Triple>) {
    && Arc(a.src.a - 1, a.lab, a.tgt.a - 1) in m1.arcs
    && Follows2(m2, a.src.b, a.lab, a.tgt.b)
    && a.src.c == 0 && a.tgt.c == 0
  }

  ghost predicate MinusFinal(m1: Machine<int>, m2: Machine<int>, t: Triple) {
    t.a - 1 in m1.finals && t.b >= 0 && (t.b == 0 || t.b - 1 !in m2.finals) && t.c == 0
  }

  ghost function Minus(m1: Machine<int>, m2: Machine<int>): Machine<Triple> {
    Machine(iset a: Arc<Triple> | MinusArc(m1, m2, a),
            iset{Triple(1, 1, 0)},
            iset t: Triple | MinusFinal(m1, m2, t))
  }

  /** `d` codes what the word `w` makes of the second net's state coded `c`. */
  ghost predicate After(m2: Machine<int>, c: int, w: seq<Label>, d: int) {
    if c == 0 then d == 0
    else c > 0 && ((d > 0 && Reads(m2, c - 1, w, d - 1)) || (d == 0 && !HasPath(m2, c - 1, w)))
  }

  /** A deterministic net dies on a word exactly where it dies on the rest after one move. */
  lemma PathStep(m: Machine<int>, p: int, l: Label, r: int, w: seq<Label>)
    requires Deterministic(m) && Arc(p, l, r) in m.arcs
    ensures HasPath(m, p, [l] + w) <==> HasPath(m, r, w)
  {
    if q :| Reads(m, p, [l] + w, q) {
      var s := ReadsHead(m, p, [l] + w, q);
      assert Arc(p, l, s).tgt == Arc(p, l, r).tgt;
      assert ([l] + w)[1..] == w;
    }
    if q :| Reads(m, r, w, q) {
      ReadsCons(m, p, l, r, w, q);
    }
  }

  lemma NoPath(m: Machine<int>, p: int, l: Label, w: seq<Label>)
    requires !HasMove(m, p, l)
    ensures !HasPath(m, p, [l] + w)
  {
    if q :| Reads(m, p, [l] + w, q) {
      var s := ReadsHead(m, p, [l] + w, q);
    }
  }

  lemma AfterStep(m2: Machine<int>, c: int, l: Label, d: int, w: seq<Label>, e: int)
    requires Deterministic(m2) && c >= 0 && Follows2(m2, c, l, d) && After(m2, d, w, e)
    ensures After(m2, c, [l] + w, e)
  {
    if c > 0 {
      if d > 0 {
        PathStep(m2, c - 1, l, d - 1, w);
        if e > 0 {
          ReadsCons(m2, c - 1, l, d - 1, w, e - 1);
        }
      } else {
        NoPath(m2, c - 1, l, w);
      }
    }
  }

  lemma {:induction false} MinusReads(m1: Machine<int>, m2: Machine<int>, s: Triple, w: seq<Label>, t: Triple)
    requires Deterministic(m2) && Reads(Minus(m1, m2), s, w, t) && s.b >= 0
    ensures Reads(m1, s.a - 1, w, t.a - 1) && After(m2, s.b, w, t.b) && (s.c == 0 ==> t.c == 0)
    decreases |w|
  {
    hide After, Follows2, Deterministic, Minus;
    if w == [] {
      NothingRead(m1, m2, s, t);
    } else {
      var r := ReadsHead(Minus(m1, m2), s, w, t);
      MinusMove(m1, m2, s, w[0], r);
      MinusReads(m1, m2, r, w[1..], t);
      assert w == [w[0]] + w[1..];
      ReadsCons(m1, s.a - 1, w[0], r.a - 1, w[1..], t.a - 1);
      AfterStep(m2, s.b, w[0], r.b, w[1..], t.b);
    }
  }

  lemma NothingRead(m1: Machine<int>, m2: Machine<int>, s: Triple, t: Triple)
    requires Reads(Minus(m1, m2), s, [], t) && s.b >= 0
    ensures s == t && Reads(m1, s.a - 1, [], t.a - 1) && After(m2, s.b, [], t.b)
  {
    if s.b > 0 {
      assert Reads(m2, s.b - 1, [], s.b - 1);
    }
  }

  lemma MinusMove(m1: Machine<int>, m2: Machine<int>, s: Triple, l: Label, r: Triple)
    requires Arc(s, l, r) in Minus(m1, m2).arcs && s.b >= 0
    ensures Arc(s.a - 1, l, r.a - 1) in m1.arcs && Follows2(m2, s.b, l, r.b) && r.b >= 0 && r.c == 0
  {
    assert MinusArc(m1, m2, Arc(s, l, r));
  }

  lemma {:induction false} ReadsMinus(m1: Machine<int>, m2: Machine<int>, p: int, c: int, w: seq<Label>, p': int)
    returns (d: int)
    requires Reads(m1, p, w, p') && c >= 0 && NonNegative(m2)
    ensures d >= 0 && Reads(Minus(m1, m2), Triple(p + 1, c, 0), w, Triple(p' + 1, d, 0))
    decreases |w|
  {
    if w == [] {
      return c;
    }
    var r := ReadsHead(m1, p, w, p');
    var e := NextCode(m2, c, w[0]);
    d := ReadsMinus(m1, m2, r, e, w[1..], p');
    assert MinusArc(m1, m2, Arc(Triple(p + 1, c, 0), w[0], Triple(r + 1, e, 0)));
    ReadsCons(Minus(m1, m2), Triple(p + 1, c, 0), w[0], Triple(r + 1, e, 0), w[1..], Triple(p' + 1, d, 0));
    assert w == [w[0]] + w[1..];
  }

  ghost predicate NonNegative(m: Machine<int>) {
    forall a :: a in m.arcs ==> a.tgt >= 0
  }

  lemma NextCode(m2: Machine<int>, c: int, l: Label) returns (d: int)
    requires c >= 0 && NonNegative(m2)
    ensures d >= 0 && Follows2(m2, c, l, d)
  {
    if c > 0 && HasMove(m2, c - 1, l) {
      var r :| Arc(c - 1, l, r) in m2.arcs;
      assert Arc(c - 1, l, r).tgt >= 0;
      d := r + 1;
    } else {
      d := 0;
    }
  }

  /** The product accepts exactly the words of the first net that the second rejects. */
  lemma MinusLanguage(m1: Machine<int>, m2: Machine<int>, w: seq<Label>)
    requires m1.starts == iset{0} && m2.starts == iset{0} && Deterministic(m2) && NonNegative(m2)
    ensures Accepts(Minus(m1, m2), w) <==> Accepts(m1, w) && !Accepts(m2, w)
  {
    if Accepts(Minus(m1, m2), w) {
      MinusIsSound(m1, m2, w);
    }
    if Accepts(m1, w) && !Accepts(m2, w) {
      MinusIsComplete(m1, m2, w);
    }
  }

  lemma MinusIsSound(m1: Machine<int>, m2: Machine<int>, w: seq<Label>)
    requires m1.starts == iset{0} && m2.starts == iset{0} && Deterministic(m2)
    requires Accepts(Minus(m1, m2), w)
    ensures Accepts(m1, w) && !Accepts(m2, w)
  {
    hide Reads, Deterministic;
    var s, t := AcceptingPath(Minus(m1, m2), w);
    MinusReads(m1, m2, s, w, t);
    if Accepts(m2, w) {
      var p, q := AcceptingPath(m2, w);
      assert HasPath(m2, 0, w);
      ReadsFunctional(m2, 0, w, q, t.b - 1);
    }
  }

  lemma MinusIsComplete(m1: Machine<int>, m2: Machine<int>, w: seq<Label>)
    requires m1.starts == iset{0} && m2.starts == iset{0} && Deterministic(m2) && NonNegative(m2)
    requires Accepts(m1, w) && !Accepts(m2, w)
    ensures Accepts(Minus(m1, m2), w)
  {
    hide Reads, Deterministic, NonNegative;
    var p, p' := AcceptingPath(m1, w);
    var d := ReadsMinus(m1, m2, p, 1, w, p');
    var t := Triple(p' + 1, d, 0);
    MinusReads(m1, m2, Triple(1, 1, 0), w, t);
    assert t in Minus(m1, m2).finals;
  }

  // ----- The algorithm -----

  /** The product arcs that lines `lo..i` of the first net give rise to have been emitted. */
  ghost predicate EmittedUpTo(lines: seq<Line>, keys: seq<Triple>, cur: int, m2: Machine<int>, a: seq<Line>, lo: int,
                              i: int, c: int)
    requires 0 <= lo <= i <= |a|
  {
    forall k, d :: lo <= k < i && a[k].target >= 0 && Follows2(m2, c, a[k].ToLabel(), d) ==>
                     Emitted(lines, keys, cur, a[k].ToLabel(), Triple(a[k].target + 1, d, 0))
  }

  lemma EmittedUpToKept(lines: seq<Line>, keys: seq<Triple>, cur: int, m2: Machine<int>, a: seq<Line>, lo: int, i: int,
                        c: int,
                        lines': seq<Line>, keys': seq<Triple>)
    requires 0 <= lo <= i <= |a| && lines <= lines' && keys <= keys'
    requires EmittedUpTo(lines, keys, cur, m2, a, lo, i, c)
    ensures EmittedUpTo(lines', keys', cur, m2, a, lo, i, c)
  {
    forall k, d | lo <= k < i && a[k].target >= 0 && Follows2(m2, c, a[k].ToLabel(), d)
      ensures Emitted(lines', keys', cur, a[k].ToLabel(), Triple(a[k].target + 1, d, 0))
    {
      EmittedKept(lines, keys, cur, a[k].ToLabel(), Triple(a[k].target + 1, d, 0), lines', keys');
    }
  }

  lemma EmittedUpToStep(lines: seq<Line>, keys: seq<Triple>, cur: int, m2: Machine<int>, a: seq<Line>, lo: int, i: int,
                        c: int, d: int)
    requires 0 <= lo <= i < |a| && a[i].target >= 0 && Deterministic(m2)
    requires EmittedUpTo(lines, keys, cur, m2, a, lo, i, c)
    requires Follows2(m2, c, a[i].ToLabel(), d) && Emitted(lines, keys, cur, a[i].ToLabel(),
                                                           Triple(a[i].target + 1, d, 0))
    ensures EmittedUpTo(lines, keys, cur, m2, a, lo, i + 1, c)
  {
    forall e | Follows2(m2, c, a[i].ToLabel(), e) ensures e == d {
      if c > 0 && d > 0 && e > 0 {
        assert Arc(c - 1, a[i].ToLabel(), e - 1).tgt == Arc(c - 1, a[i].ToLabel(), d - 1).tgt;
      }
    }
  }

  /** One line of the first net; `q == -1` if the second net is dead. */
  method FollowLine(pb: ProductBuilder, a: seq<Line>, na: nat, i: int, b: seq<Line>, nb: nat, pointB: seq<StatePointer>,
                    q: int)
    returns (ghost d: int)
    requires pb.Building() && pb.prod == Minus(MachineOf(a), MachineOf(b))
    requires WellFormed(a, na) && 0 <= i < |a| && a[i].target >= 0
             && pb.th.keys[pb.cur] == Triple(a[i].state + 1, q + 1, 0)
    requires WellFormed(b, nb) && PointsInto(pointB, b, nb) && -1 <= q < nb
    requires SymbolsUpTo(a, pb.builder.slookup.Length0 - 1)
    modifies pb`stack, pb`nums, pb`pending, pb.th, pb.th.triplets, pb.builder, pb.builder.slookup
    ensures pb.Building() && (pb.th.triplets == old(pb.th.triplets) || fresh(pb.th.triplets))
    ensures old(pb.th.keys) <= pb.th.keys && old(pb.builder.lines) <= pb.builder.lines
    ensures Follows2(MachineOf(b), q + 1, a[i].ToLabel(), d)
    ensures Emitted(pb.builder.lines, pb.th.keys, pb.cur, a[i].ToLabel(), Triple(a[i].target + 1, d, 0))
  {
    hide Emitted, StackOk, Follows, Finished, Numbered, TripletHash.Valid, NetBuilder.Valid;
    assert LineOk(a[i], na) && a[i] in a;
    LineIsArc(a, i);
    var code := 0;
    if q != -1 {
      var btarget := FindTarget(b, nb, q, pointB[q], a[i].upper, a[i].lower);
      code := btarget + 1;
    }
    d := code;
    assert MinusArc(MachineOf(a), MachineOf(b), Arc(pb.th.keys[pb.cur], a[i].ToLabel(),
                                                    Triple(a[i].target + 1, code, 0)));
    pb.Emit(a[i].upper, a[i].lower, Triple(a[i].target + 1, code, 0));
  }

  /** All arcs of the first net's state `p`. */
  method FollowState(pb: ProductBuilder, a: seq<Line>, na: nat, p: int, pointer: StatePointer, b: seq<Line>, nb: nat,
                     pointB: seq<StatePointer>, q: int)
    requires pb.Building() && pb.prod == Minus(MachineOf(a), MachineOf(b)) && Deterministic(MachineOf(b))
    requires WellFormed(a, na) && PointsAt(pointer, a, p) && pb.th.keys[pb.cur] == Triple(p + 1, q + 1, 0)
    requires ArclessAlone(a)
    requires WellFormed(b, nb) && PointsInto(pointB, b, nb) && -1 <= q < nb
    requires SymbolsUpTo(a, pb.builder.slookup.Length0 - 1)
    modifies pb`stack, pb`nums, pb`pending, pb.th, pb.th.triplets, pb.builder, pb.builder.slookup
    ensures pb.Building() && (pb.th.triplets == old(pb.th.triplets) || fresh(pb.th.triplets))
    ensures old(pb.th.keys) <= pb.th.keys
    ensures AllEmitted(pb.builder.lines, pb.th.keys, pb.prod, pb.cur)
  {
    hide Emitted, EmittedUpTo, AllEmitted, Follows2, StackOk, Follows, Finished, Numbered, TripletHash.Valid,
         NetBuilder.Valid, Deterministic, WellFormed;
    ghost var m2 := MachineOf(b);
    var i := pointer.transitions;
    NoneEmitted(pb.builder.lines, pb.th.keys, pb.cur, m2, a, i, q + 1);
    while i < |a| && a[i].state == p
      invariant pointer.transitions <= i <= |a|
      invariant pb.Building() && (pb.th.triplets == old(pb.th.triplets) || fresh(pb.th.triplets))
      invariant forall k :: pointer.transitions <= k < i ==> a[k].state == p
      invariant pb.th.keys[pb.cur] == Triple(p + 1, q + 1, 0) && old(pb.th.keys) <= pb.th.keys
      invariant EmittedUpTo(pb.builder.lines, pb.th.keys, pb.cur, m2, a, pointer.transitions, i, q + 1)
    {
      if a[i].target == -1 {
        break;
      }
      ghost var lines, keys := pb.builder.lines, pb.th.keys;
      ArcLineTarget(a, na, i);
      ghost var d := FollowLine(pb, a, na, i, b, nb, pointB, q);
      EmittedUpToKept(lines, keys, pb.cur, m2, a, pointer.transitions, i, q + 1, pb.builder.lines, pb.th.keys);
      EmittedUpToStep(pb.builder.lines, pb.th.keys, pb.cur, m2, a, pointer.transitions, i, q + 1, d);
      i := i + 1;
    }
    BlockEmitted(pb.builder.lines, pb.th.keys, pb.cur, a, na, b, p, q + 1, pointer, i);
  }

  lemma NoneEmitted(lines: seq<Line>, keys: seq<Triple>, cur: int, m2: Machine<int>, a: seq<Line>, lo: int, c: int)
    requires 0 <= lo <= |a|
    ensures EmittedUpTo(lines, keys, cur, m2, a, lo, lo, c)
  {
  }

  lemma BlockEmitted(lines: seq<Line>, keys: seq<Triple>, cur: int, a: seq<Line>, na: nat, b: seq<Line>, p: int, c: int,
                     pointer: StatePointer, i: int)
    requires 0 <= cur < |keys| && keys[cur] == Triple(p + 1, c, 0) && WellFormed(a, na) && ArclessAlone(a)
             && PointsAt(pointer, a, p)
    requires pointer.transitions <= i <= |a| && (forall k :: pointer.transitions <= k < i ==> a[k].state == p)
    requires i == |a| || a[i].state != p || a[i].target == -1
    requires EmittedUpTo(lines, keys, cur, MachineOf(b), a, pointer.transitions, i, c)
    ensures AllEmitted(lines, keys, Minus(MachineOf(a), MachineOf(b)), cur)
  {
    forall l, t | Arc(keys[cur], l, t) in Minus(MachineOf(a), MachineOf(b)).arcs
      ensures Emitted(lines, keys, cur, l, t)
    {
      assert MinusArc(MachineOf(a), MachineOf(b), Arc(keys[cur], l, t));
      var k := ArcLine(a, Arc(p, l, t.a - 1));
      assert pointer.transitions <= k < i;
      assert Emitted(lines, keys, cur, a[k].ToLabel(), Triple(a[k].target + 1, t.b, 0));
    }
  }

  lemma StateInRange(pb: ProductBuilder, a: seq<Line>, na: nat, b: seq<Line>, nb: nat)
    requires pb.Popped() && pb.prod == Minus(MachineOf(a), MachineOf(b))
    requires WellFormed(a, na) && WellFormed(b, nb) && pb.th.keys[0] == Triple(1, 1, 0)
    ensures pb.done <= Universe(na + 1, nb + 1)
    ensures var t := pb.th.keys[pb.cur]; 1 <= t.a <= na && 0 <= t.b <= nb && t.c == 0
  {
    hide TripletHash.Valid, NetBuilder.Valid, Follows, Finished;
    var u := set t | t in Universe(na + 1, nb + 1) && t.c == 0 && t.a >= 1;
    assert Triple(1, 1, 0) in Universe(na + 1, nb + 1);
    forall e | e in pb.prod.arcs && e.src in u ensures e.tgt in u {
      assert MinusArc(MachineOf(a), MachineOf(b), e);
      ArcInRange(a, na, Arc(e.src.a - 1, e.lab, e.tgt.a - 1));
      if e.tgt.b != 0 {
        ArcInRange(b, nb, Arc(e.src.b - 1, e.lab, e.tgt.b - 1));
      }
    }
    KeysWithin(pb.builder.lines, pb.th.keys, pb.prod, pb.done, u);
    assert pb.th.keys[pb.cur] in u;
  }

  method BuildState(pb: ProductBuilder, a: seq<Line>, na: nat, pointA: seq<StatePointer>, b: seq<Line>, nb: nat,
                    pointB: seq<StatePointer>)
    requires pb.Idle() && pb.stack != [] && pb.prod == Minus(MachineOf(a), MachineOf(b)) && Deterministic(MachineOf(b))
    requires WellFormed(a, na) && ArclessAlone(a) && PointsInto(pointA, a, na) && WellFormed(b, nb)
             && PointsInto(pointB, b, nb)
    requires SymbolsUpTo(a, pb.builder.slookup.Length0 - 1) && pb.th.keys[0] == Triple(1, 1, 0)
    modifies pb, pb.th, pb.th.triplets, pb.builder, pb.builder.slookup
    ensures pb.Idle() && (pb.th.triplets == old(pb.th.triplets) || fresh(pb.th.triplets))
    ensures old(pb.th.keys) <= pb.th.keys
    ensures old(pb.done) < pb.done <= Universe(na + 1, nb + 1)
  {
    hide StackOk, Follows, Finished, Numbered, TripletHash.Valid, NetBuilder.Valid, AllEmitted, WellFormed,
         Deterministic, SymbolsUpTo, ArclessAlone, PointsAt;
    var t, n := pb.Pop();
    StateInRange(pb, a, na, b, nb);
    var p, q := t.a - 1, t.b - 1;
    PointerFlags(a, na, p, pointA[p]);
    var start, final;
    if q == -1 {
      start, final := false, pointA[p].final;
    } else {
      PointerFlags(b, nb, q, pointB[q]);
      start, final := p == 0 && q == 0, pointA[p].final && !pointB[q].final;
    }
    pb.Begin(n, final, start);
    FollowState(pb, a, na, p, pointA[p], b, nb, pointB, q);
    pb.End();
  }

  /** The words of the first net that the second does not accept; both are minimized and share one alphabet. */
  method Subtract(a: seq<Line>, na: nat, b: seq<Line>, nb: nat, sigmaMax: int)
    returns (net: seq<Line>, count: nat, deterministic: bool)
    requires WellFormed(a, na) && ArclessAlone(a) && WellFormed(b, nb) && Deterministic(MachineOf(a))
             && Deterministic(MachineOf(b))
    requires MachineOf(a).starts == iset{0} && MachineOf(b).starts == iset{0}
    requires -1 <= sigmaMax && SymbolsUpTo(a, sigmaMax)
    ensures forall w :: Accepts(MachineOf(net), w) <==> Accepts(MachineOf(a), w) && !Accepts(MachineOf(b), w)
    ensures deterministic ==> Deterministic(MachineOf(net))
    ensures WellFormed(net, count) && Orderly(net) && (forall j :: 0 < j < count ==> Introduced(net, j))
  {
    hide StackOk, Follows, Finished, Numbered, TripletHash.Valid, NetBuilder.Valid, WellFormed, Deterministic,
         SymbolsUpTo, ArclessAlone, Renames;
    var pb := new ProductBuilder(sigmaMax, Minus(MachineOf(a), MachineOf(b)), Triple(1, 1, 0));
    var pointA := InitStatePointers(a, na);
    var pointB := InitStatePointers(b, nb);
    while pb.stack != []
      invariant pb.Idle() && fresh(pb) && fresh(pb.th) && fresh(pb.th.triplets) && fresh(pb.builder)
                && fresh(pb.builder.slookup)
      invariant pb.prod == Minus(MachineOf(a), MachineOf(b)) && pb.th.keys[0] == Triple(1, 1, 0)
      decreases Universe(na + 1, nb + 1) - pb.done
    {
      BuildState(pb, a, na, pointA, b, nb, pointB);
    }
    net, count, deterministic := pb.Close();
    SubtractionLanguage(a, na, b, nb, net, pb.th.keys);
  }

  lemma SubtractionLanguage(a: seq<Line>, na: nat, b: seq<Line>, nb: nat, net: seq<Line>, keys: seq<Triple>)
    requires WellFormed(b, nb) && Deterministic(MachineOf(a)) && Deterministic(MachineOf(b))
    requires MachineOf(a).starts == iset{0} && MachineOf(b).starts == iset{0}
    requires Renames(Minus(MachineOf(a), MachineOf(b)), MachineOf(net), keys)
    ensures forall w :: Accepts(MachineOf(net), w) <==> Accepts(MachineOf(a), w) && !Accepts(MachineOf(b), w)
  {
    hide Accepts, Renames;
    var m1, m2 := MachineOf(a), MachineOf(b);
    forall e | e in m2.arcs ensures e.tgt >= 0 {
      ArcInRange(b, nb, e);
    }
    RenamingKeepsLanguage(Minus(m1, m2), MachineOf(net), keys);
    forall w ensures Accepts(MachineOf(net), w) <==> Accepts(m1, w) && !Accepts(m2, w) {
      MinusLanguage(m1, m2, w);
      if Accepts(m1, w) {
        var p, q := AcceptingPath(m1, w);
        ReadsNoEpsilon(m1, p, w, q);
      }
    }
  }
}
