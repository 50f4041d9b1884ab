/**
 The relation that composition computes, independent of how it is computed: the two product
 machines with epsilon filters (bistate and tristate), the canonical interleaving of two
 paths, and the proof that both machines denote exactly the composed relation. Where a middle
 `?` meets `@` the middle symbols differ; tokens for each pair of arcs that match replace them.
 */
module Composition {
  import opened Automata
  import opened TripletHashing
  import opened Wrappers

  /** The symbol pair that an arc `x` of the upper net and an arc `y` of the lower net combine to. */
  function Matched(x: Label, y: Label): Option<Label> {
    if x.lower == IDENTITY && y.upper == UNKNOWN then Some(Label(UNKNOWN, y.lower))
    else if x.lower == UNKNOWN && y.upper == IDENTITY then Some(Label(x.upper, UNKNOWN))
    else if x.lower == y.upper then Some(Label(x.upper, y.lower))
    else None
  }

  // ----- The two epsilon filters: which moves a mode allows, and the mode each leads to -----

  /** Both nets move. The bistate filter never pairs x:0 with 0:y, the tristate one only in mode 0. */
  predicate AllowsBoth(tri: bool, mode: int, middle: int) {
    middle != EPSILON || (tri && mode == 0)
  }

  /** The upper net moves alone on x:0. */
  predicate AllowsUpper(tri: bool, mode: int) {
    if tri then mode != 2 else mode == 0
  }

  /** The lower net moves alone on 0:y. */
  predicate AllowsLower(tri: bool, mode: int) {
    tri ==> mode != 1
  }

  function UpperMode(tri: bool): int {
    if tri then 1 else 0
  }

  function LowerMode(tri: bool): int {
    if tri then 2 else 1
  }

  // ----- The product machine -----

  ghost predicate BothMove(tri: bool, m1: Machine<int>, m2: Machine<int>, s: Triple, l: Label, t: Triple) {
    exists x, y :: BothMoveOn(tri, m1, m2, s, l, t, x, y)
  }

  ghost predicate BothMoveOn(tri: bool, m1: Machine<int>, m2: Machine<int>, s: Triple, l: Label, t: Triple, x: Label,
                             y: Label) {
    && Arc(s.a, x, t.a) in m1.arcs && Arc(s.b, y, t.b) in m2.arcs
    && Matched(x, y) == Some(l) && AllowsBoth(tri, s.c, x.lower) && t.c == 0
  }

  ghost predicate UpperMove(tri: bool, m1: Machine<int>, s: Triple, l: Label, t: Triple) {
    && Arc(s.a, l, t.a) in m1.arcs && l.lower == EPSILON
    && t.b == s.b && AllowsUpper(tri, s.c) && t.c == UpperMode(tri)
  }

  ghost predicate LowerMove(tri: bool, m2: Machine<int>, s: Triple, l: Label, t: Triple) {
    && Arc(s.b, l, t.b) in m2.arcs && l.upper == EPSILON
    && t.a == s.a && AllowsLower(tri, s.c) && t.c == LowerMode(tri)
  }

  ghost predicate ComposedArc(tri: bool, m1: Machine<int>, m2: Machine<int>, a: Arc<Triple>) {
    || BothMove(tri, m1, m2, a.src, a.lab, a.tgt)
    || UpperMove(tri, m1, a.src, a.lab, a.tgt)
    || LowerMove(tri, m2, a.src, a.lab, a.tgt)
  }

  ghost function Composed(tri: bool, m1: Machine<int>, m2: Machine<int>): Machine<Triple> {
    Machine(iset a: Arc<Triple> | ComposedArc(tri, m1, m2, a),
            iset t: Triple | t.a in m1.starts && t.b in m2.starts && t.c == 0,
            iset t: Triple | t.a in m1.finals && t.b in m2.finals)
  }

  lemma ComposedFlags(tri: bool, m1: Machine<int>, m2: Machine<int>, t: Triple)
    ensures t in Composed(tri, m1, m2).finals <==> t.a in m1.finals && t.b in m2.finals
    ensures t in Composed(tri, m1, m2).starts <==> t.a in m1.starts && t.b in m2.starts && t.c == 0
  {
  }

  /** No arc pair meets as `?` against `@`, so that matching is equality of the middle symbols. */
  ghost predicate NoWildcardClash(m1: Machine<int>, m2: Machine<int>) {
    forall a, b :: a in m1.arcs && b in m2.arcs ==>
                     !(a.lab.lower == IDENTITY && b.lab.upper == UNKNOWN)
                     && !(a.lab.lower == UNKNOWN && b.lab.upper == IDENTITY)
  }

  // ----- Interleavings of an upper and a lower path -----

  datatype Step = Both | UpperOnly | LowerOnly

  function NextMode(tri: bool, step: Step): int {
    match step
    case Both => 0
    case UpperOnly => UpperMode(tri)
    case LowerOnly => LowerMode(tri)
  }

  function EndMode(tri: bool, mode: int, steps: seq<Step>): int
    decreases |steps|
  {
    if steps == [] then mode else EndMode(tri, NextMode(tri, steps[0]), steps[1..])
  }

  /** `steps` is a way the filter allows, from `mode`, of working through all of `wa` and `wb`. */
  predicate LegalSteps(tri: bool, mode: int, wa: seq<Label>, wb: seq<Label>, steps: seq<Step>)
    decreases |steps|
  {
    if steps == [] then wa == [] && wb == []
    else
      var c := NextMode(tri, steps[0]);
      match steps[0]
      case Both =>
        && wa != [] && wb != [] && wa[0].lower == wb[0].upper && AllowsBoth(tri, mode, wa[0].lower)
        && LegalSteps(tri, c, wa[1..], wb[1..], steps[1..])
      case UpperOnly =>
        && wa != [] && wa[0].lower == EPSILON && AllowsUpper(tri, mode) && LegalSteps(tri, c, wa[1..], wb, steps[1..])
      case LowerOnly =>
        && wb != [] && wb[0].upper == EPSILON && AllowsLower(tri, mode) && LegalSteps(tri, c, wa, wb[1..], steps[1..])
  }

  /** The symbol pairs that the composed machine spells along an interleaving. */
  function Spelled(tri: bool, mode: int, wa: seq<Label>, wb: seq<Label>, steps: seq<Step>): (w: seq<Label>)
    requires LegalSteps(tri, mode, wa, wb, steps)
    decreases |steps|
  {
    if steps == [] then []
    else
      var c := NextMode(tri, steps[0]);
      match steps[0]
      case Both => [Label(wa[0].upper, wb[0].lower)] + Spelled(tri, c, wa[1..], wb[1..], steps[1..])
      case UpperOnly => [wa[0]] + Spelled(tri, c, wa[1..], wb, steps[1..])
      case LowerOnly => [wb[0]] + Spelled(tri, c, wa, wb[1..], steps[1..])
  }

  predicate UpperWaits(wa: seq<Label>) {
    wa != [] && wa[0].lower == EPSILON
  }

  predicate LowerWaits(wb: seq<Label>) {
    wb != [] && wb[0].upper == EPSILON
  }

  /** The one interleaving that can succeed. */
  function Canonical(tri: bool, wa: seq<Label>, wb: seq<Label>): seq<Step>
    decreases |wa| + |wb|
  {
    if tri && UpperWaits(wa) && LowerWaits(wb) then [Both] + Canonical(tri, wa[1..], wb[1..])
    else if UpperWaits(wa) then [UpperOnly] + Canonical(tri, wa[1..], wb)
    else if LowerWaits(wb) then [LowerOnly] + Canonical(tri, wa, wb[1..])
    else if wa != [] && wb != [] then [Both] + Canonical(tri, wa[1..], wb[1..])
    else []
  }

  /** The modes from which the rest of both paths can still be worked through. */
  predicate ModeOk(tri: bool, mode: int, wa: seq<Label>, wb: seq<Label>) {
    || mode == 0
    || (mode == 1 && !tri && !UpperWaits(wa))
    || (mode == 1 && tri && !LowerWaits(wb))
    || (mode == 2 && tri && !UpperWaits(wa))
  }

  predicate IsMode(tri: bool, mode: int) {
    0 <= mode <= (if tri then 2 else 1)
  }

  /** A wrong turn is never recovered from. */
  lemma {:induction false} LegalIsOk(tri: bool, mode: int, wa: seq<Label>, wb: seq<Label>, steps: seq<Step>)
    requires IsMode(tri, mode) && LegalSteps(tri, mode, wa, wb, steps)
    ensures ModeOk(tri, mode, wa, wb)
    decreases |steps|
  {
    if steps != [] && steps[0] == UpperOnly {
      LegalIsOk(tri, NextMode(tri, steps[0]), wa[1..], wb, steps[1..]);
    } else if steps != [] && steps[0] == LowerOnly {
      LegalIsOk(tri, NextMode(tri, steps[0]), wa, wb[1..], steps[1..]);
    }
  }

  lemma {:induction false} LegalIsCanonical(tri: bool, mode: int, wa: seq<Label>, wb: seq<Label>, steps: seq<Step>)
    requires IsMode(tri, mode) && LegalSteps(tri, mode, wa, wb, steps)
    ensures steps == Canonical(tri, wa, wb) && Lower(wa) == Upper(wb)
    decreases |steps|
  {
    if steps != [] {
      var c, rest := NextMode(tri, steps[0]), steps[1..];
      LegalIsOk(tri, mode, wa, wb, steps);
      match steps[0]
      case Both =>
        LegalIsCanonical(tri, c, wa[1..], wb[1..], rest);
      case UpperOnly =>
        LegalIsOk(tri, c, wa[1..], wb, rest);
        LegalIsCanonical(tri, c, wa[1..], wb, rest);
      case LowerOnly =>
        LegalIsOk(tri, c, wa, wb[1..], rest);
        LegalIsCanonical(tri, c, wa, wb[1..], rest);
    }
  }

  lemma TapesUnfold(w: seq<Label>)
    requires w != []
    ensures if w[0].lower == EPSILON then Lower(w) == Lower(w[1..])
            else Lower(w) != [] && Lower(w)[0] == w[0].lower && Lower(w)[1..] == Lower(w[1..])
    ensures if w[0].upper == EPSILON then Upper(w) == Upper(w[1..])
            else Upper(w) != [] && Upper(w)[0] == w[0].upper && Upper(w)[1..] == Upper(w[1..])
  {
  }

  lemma {:induction false} CanonicalIsLegal(tri: bool, mode: int, wa: seq<Label>, wb: seq<Label>)
    requires ModeOk(tri, mode, wa, wb) && Lower(wa) == Upper(wb)
    ensures LegalSteps(tri, mode, wa, wb, Canonical(tri, wa, wb))
    decreases |wa| + |wb|
  {
    var steps := Canonical(tri, wa, wb);
    if steps == [] {
      return;
    }
    var c := NextMode(tri, steps[0]);
    if wa != [] {
      TapesUnfold(wa);
    }
    if wb != [] {
      TapesUnfold(wb);
    }
    match steps[0]
    case Both =>
      CanonicalIsLegal(tri, c, wa[1..], wb[1..]);
      assert steps[1..] == Canonical(tri, wa[1..], wb[1..]);
    case UpperOnly =>
      CanonicalIsLegal(tri, c, wa[1..], wb);
      assert steps[1..] == Canonical(tri, wa[1..], wb);
    case LowerOnly =>
      CanonicalIsLegal(tri, c, wa, wb[1..]);
      assert steps[1..] == Canonical(tri, wa, wb[1..]);
  }

  /**
   Two paths that agree on the middle tape have exactly one interleaving from mode 0;
   two that do not agree have none.
   */
  lemma UniqueInterleaving(tri: bool, wa: seq<Label>, wb: seq<Label>, steps: seq<Step>)
    ensures LegalSteps(tri, 0, wa, wb, steps) <==> Lower(wa) == Upper(wb) && steps == Canonical(tri, wa, wb)
  {
    if LegalSteps(tri, 0, wa, wb, steps) {
      LegalIsCanonical(tri, 0, wa, wb, steps);
    }
    if Lower(wa) == Upper(wb) {
      CanonicalIsLegal(tri, 0, wa, wb);
    }
  }

  /** An interleaving keeps the outer tapes of its two paths. */
  lemma {:induction false} SpelledTapes(tri: bool, mode: int, wa: seq<Label>, wb: seq<Label>, steps: seq<Step>)
    requires LegalSteps(tri, mode, wa, wb, steps)
    ensures Upper(Spelled(tri, mode, wa, wb, steps)) == Upper(wa)
    ensures Lower(Spelled(tri, mode, wa, wb, steps)) == Lower(wb)
    decreases |steps|
  {
    if steps != [] {
      var c, rest := NextMode(tri, steps[0]), steps[1..];
      var w := Spelled(tri, mode, wa, wb, steps);
      match steps[0]
      case Both =>
        SpelledTapes(tri, c, wa[1..], wb[1..], rest);
        assert w[0] == Label(wa[0].upper, wb[0].lower) && w[1..] == Spelled(tri, c, wa[1..], wb[1..], rest);
      case UpperOnly =>
        SpelledTapes(tri, c, wa[1..], wb, rest);
        assert w[0] == wa[0] && w[1..] == Spelled(tri, c, wa[1..], wb, rest);
      case LowerOnly =>
        SpelledTapes(tri, c, wa, wb[1..], rest);
        assert w[0] == wb[0] && w[1..] == Spelled(tri, c, wa, wb[1..], rest);
    }
  }

  // ----- Runs of the product machine are interleavings of a path of each net -----

  lemma {:induction false} RunIsInterleaving(tri: bool, m1: Machine<int>, m2: Machine<int>, s: Triple, w: seq<Label>,
                                             t: Triple)
    returns (wa: seq<Label>, wb: seq<Label>, steps: seq<Step>)
    requires NoWildcardClash(m1, m2) && Reads(Composed(tri, m1, m2), s, w, t)
    ensures Reads(m1, s.a, wa, t.a) && Reads(m2, s.b, wb, t.b)
    ensures LegalSteps(tri, s.c, wa, wb, steps) && Spelled(tri, s.c, wa, wb, steps) == w
    ensures t.c == EndMode(tri, s.c, steps)
    decreases |w|
  {
    hide LegalSteps, Spelled, EndMode, NoWildcardClash, ComposedArc, Reads, StepTakes;
    if w == [] {
      EmptyRun(tri, m1, m2, s, t);
      return [], [], [];
    }
    var r := ReadsHead(Composed(tri, m1, m2), s, w, t);
    var ua, ub, rest := RunIsInterleaving(tri, m1, m2, r, w[1..], t);
    var step, xa, xb := MoveIsStep(tri, m1, m2, s, w[0], r);
    wa, wb, steps := xa + ua, xb + ub, [step] + rest;
    ReadsAppend(m1, s.a, xa, r.a, ua, t.a);
    ReadsAppend(m2, s.b, xb, r.b, ub, t.b);
    StepPrepended(tri, s.c, step, w[0], xa, xb, ua, ub, rest);
    assert w == [w[0]] + w[1..];
  }

  /** A product move is one step of an interleaving, consuming at most one arc of each net. */
  lemma MoveIsStep(tri: bool, m1: Machine<int>, m2: Machine<int>, s: Triple, l: Label, r: Triple)
    returns (step: Step, xa: seq<Label>, xb: seq<Label>)
    requires NoWildcardClash(m1, m2) && ComposedArc(tri, m1, m2, Arc(s, l, r))
    ensures Reads(m1, s.a, xa, r.a) && Reads(m2, s.b, xb, r.b) && r.c == NextMode(tri, step)
    ensures StepTakes(tri, s.c, step, l, xa, xb)
  {
    if BothMove(tri, m1, m2, s, l, r) {
      var x, y :| BothMoveOn(tri, m1, m2, s, l, r, x, y);
      NoClash(m1, m2, Arc(s.a, x, r.a), Arc(s.b, y, r.b));
      step, xa, xb := Both, [x], [y];
      ReadsOne(m1, s.a, x, r.a);
      ReadsOne(m2, s.b, y, r.b);
    } else if UpperMove(tri, m1, s, l, r) {
      step, xa, xb := UpperOnly, [l], [];
      ReadsOne(m1, s.a, l, r.a);
    } else {
      step, xa, xb := LowerOnly, [], [l];
      ReadsOne(m2, s.b, l, r.b);
    }
  }

  lemma EmptyRun(tri: bool, m1: Machine<int>, m2: Machine<int>, s: Triple, t: Triple)
    requires Reads(Composed(tri, m1, m2), s, [], t)
    ensures Reads(m1, s.a, [], t.a) && Reads(m2, s.b, [], t.b)
    ensures LegalSteps(tri, s.c, [], [], []) && Spelled(tri, s.c, [], [], []) == [] && t.c == EndMode(tri, s.c, [])
  {
  }

  lemma NoClash(m1: Machine<int>, m2: Machine<int>, a: Arc<int>, b: Arc<int>)
    requires NoWildcardClash(m1, m2) && a in m1.arcs && b in m2.arcs
    ensures Matched(a.lab, b.lab) == if a.lab.lower == b.lab.upper then Some(Label(a.lab.upper, b.lab.lower)) else None
  {
  }

  /** One step, allowed in `mode`, takes `xa` from the upper and `xb` from the lower path and spells `l`. */
  predicate StepTakes(tri: bool, mode: int, step: Step, l: Label, xa: seq<Label>, xb: seq<Label>) {
    match step
    case Both => |xa| == |xb| == 1 && xa[0].lower == xb[0].upper && AllowsBoth(tri, mode, xa[0].lower)
                 && l == Label(xa[0].upper, xb[0].lower)
    case UpperOnly => xa == [l] && xb == [] && l.lower == EPSILON && AllowsUpper(tri, mode)
    case LowerOnly => xa == [] && xb == [l] && l.upper == EPSILON && AllowsLower(tri, mode)
  }

  /** An interleaving grows at the front by one allowed step. */
  lemma StepPrepended(tri: bool, mode: int, step: Step, l: Label, xa: seq<Label>, xb: seq<Label>,
                      ua: seq<Label>, ub: seq<Label>, rest: seq<Step>)
    requires StepTakes(tri, mode, step, l, xa, xb) && LegalSteps(tri, NextMode(tri, step), ua, ub, rest)
    ensures var steps := [step] + rest;
            && LegalSteps(tri, mode, xa + ua, xb + ub, steps)
            && Spelled(tri, mode, xa + ua, xb + ub, steps) == [l] + Spelled(tri, NextMode(tri, step), ua, ub, rest)
            && EndMode(tri, mode, steps) == EndMode(tri, NextMode(tri, step), rest)
  {
    assert ([step] + rest)[1..] == rest;
    if xa != [] {
      assert (xa + ua)[1..] == ua;
    } else {
      assert xa + ua == ua;
    }
    if xb != [] {
      assert (xb + ub)[1..] == ub;
    } else {
      assert xb + ub == ub;
    }
  }

  lemma BothArc(tri: bool, m1: Machine<int>, m2: Machine<int>, s: Triple, x: Label, y: Label, t: Triple)
    requires NoWildcardClash(m1, m2) && Arc(s.a, x, t.a) in m1.arcs && Arc(s.b, y, t.b) in m2.arcs
    requires x.lower == y.upper && AllowsBoth(tri, s.c, x.lower) && t.c == 0
    ensures Arc(s, Label(x.upper, y.lower), t) in Composed(tri, m1, m2).arcs
  {
    NoClash(m1, m2, Arc(s.a, x, t.a), Arc(s.b, y, t.b));
    assert BothMoveOn(tri, m1, m2, s, Label(x.upper, y.lower), t, x, y);
  }

  lemma UpperArc(tri: bool, m1: Machine<int>, m2: Machine<int>, s: Triple, l: Label, t: Triple)
    requires Arc(s.a, l, t.a) in m1.arcs && l.lower == EPSILON && t.b == s.b && AllowsUpper(tri, s.c)
             && t.c == UpperMode(tri)
    ensures Arc(s, l, t) in Composed(tri, m1, m2).arcs
  {
    assert UpperMove(tri, m1, s, l, t);
  }

  lemma LowerArc(tri: bool, m1: Machine<int>, m2: Machine<int>, s: Triple, l: Label, t: Triple)
    requires Arc(s.b, l, t.b) in m2.arcs && l.upper == EPSILON && t.a == s.a && AllowsLower(tri, s.c)
             && t.c == LowerMode(tri)
    ensures Arc(s, l, t) in Composed(tri, m1, m2).arcs
  {
    assert LowerMove(tri, m2, s, l, t);
  }

  lemma {:induction false} InterleavingIsRun(tri: bool, m1: Machine<int>, m2: Machine<int>, s: Triple,
                                             wa: seq<Label>, wb: seq<Label>, steps: seq<Step>, t: Triple)
    requires NoWildcardClash(m1, m2)
    requires Reads(m1, s.a, wa, t.a) && Reads(m2, s.b, wb, t.b)
    requires LegalSteps(tri, s.c, wa, wb, steps) && t.c == EndMode(tri, s.c, steps)
    ensures Reads(Composed(tri, m1, m2), s, Spelled(tri, s.c, wa, wb, steps), t)
    decreases |steps|
  {
    hide Composed, BothMoveOn, UpperMove, LowerMove, Matched, NoWildcardClash;
    if steps == [] {
      return;
    }
    var m := Composed(tri, m1, m2);
    var c, rest := NextMode(tri, steps[0]), steps[1..];
    match steps[0]
    case Both =>
      var p := ReadsHead(m1, s.a, wa, t.a);
      var q := ReadsHead(m2, s.b, wb, t.b);
      var r := Triple(p, q, c);
      BothArc(tri, m1, m2, s, wa[0], wb[0], r);
      InterleavingIsRun(tri, m1, m2, r, wa[1..], wb[1..], rest, t);
      ReadsCons(m, s, Label(wa[0].upper, wb[0].lower), r, Spelled(tri, c, wa[1..], wb[1..], rest), t);
    case UpperOnly =>
      var p := ReadsHead(m1, s.a, wa, t.a);
      var r := Triple(p, s.b, c);
      UpperArc(tri, m1, m2, s, wa[0], r);
      InterleavingIsRun(tri, m1, m2, r, wa[1..], wb, rest, t);
      ReadsCons(m, s, wa[0], r, Spelled(tri, c, wa[1..], wb, rest), t);
    case LowerOnly =>
      var q := ReadsHead(m2, s.b, wb, t.b);
      var r := Triple(s.a, q, c);
      LowerArc(tri, m1, m2, s, wb[0], r);
      InterleavingIsRun(tri, m1, m2, r, wa, wb[1..], rest, t);
      ReadsCons(m, s, wb[0], r, Spelled(tri, c, wa, wb[1..], rest), t);
  }

  lemma ComposedIsSound(tri: bool, m1: Machine<int>, m2: Machine<int>, w: seq<Label>)
    returns (wa: seq<Label>, wb: seq<Label>)
    requires NoWildcardClash(m1, m2) && Accepts(Composed(tri, m1, m2), w)
    ensures Accepts(m1, wa) && Accepts(m2, wb)
    ensures Upper(wa) == Upper(w) && Lower(wa) == Upper(wb) && Lower(wb) == Lower(w)
  {
    var s, t := AcceptingPath(Composed(tri, m1, m2), w);
    var steps;
    wa, wb, steps := RunIsInterleaving(tri, m1, m2, s, w, t);
    LegalIsCanonical(tri, 0, wa, wb, steps);
    SpelledTapes(tri, 0, wa, wb, steps);
  }

  lemma ComposedIsComplete(tri: bool, m1: Machine<int>, m2: Machine<int>, wa: seq<Label>, wb: seq<Label>)
    returns (w: seq<Label>)
    requires NoWildcardClash(m1, m2) && Accepts(m1, wa) && Accepts(m2, wb) && Lower(wa) == Upper(wb)
    ensures Accepts(Composed(tri, m1, m2), w) && Upper(w) == Upper(wa) && Lower(w) == Lower(wb)
  {
    var p, p' := AcceptingPath(m1, wa);
    var q, q' := AcceptingPath(m2, wb);
    var steps := Canonical(tri, wa, wb);
    CanonicalIsLegal(tri, 0, wa, wb);
    var s, t := Triple(p, q, 0), Triple(p', q', EndMode(tri, 0, steps));
    InterleavingIsRun(tri, m1, m2, s, wa, wb, steps, t);
    SpelledTapes(tri, 0, wa, wb, steps);
    w := Spelled(tri, 0, wa, wb, steps);
    assert s in Composed(tri, m1, m2).starts && t in Composed(tri, m1, m2).finals;
  }

  /** Without such a meeting, both product machines denote the composition of the two relations. */
  lemma ClashFreeRelation(tri: bool, m1: Machine<int>, m2: Machine<int>, x: seq<int>, z: seq<int>)
    requires NoWildcardClash(m1, m2)
    ensures Relates(Composed(tri, m1, m2), x, z) <==> exists y :: Relates(m1, x, y) && Relates(m2, y, z)
  {
    if Relates(Composed(tri, m1, m2), x, z) {
      var w :| Accepts(Composed(tri, m1, m2), w) && Upper(w) == x && Lower(w) == z;
      var wa, wb := ComposedIsSound(tri, m1, m2, w);
      assert Relates(m1, x, Lower(wa)) && Relates(m2, Lower(wa), z);
    }
    if y :| Relates(m1, x, y) && Relates(m2, y, z) {
      var wa :| Accepts(m1, wa) && Upper(wa) == x && Lower(wa) == y;
      var wb :| Accepts(m2, wb) && Upper(wb) == y && Lower(wb) == z;
      var w := ComposedIsComplete(tri, m1, m2, wa, wb);
    }
  }

  // ----- Tokens for what meets in the middle -----

  /** A numbering of pairs of numbers. */
  function Pair(a: nat, b: nat): (r: nat)
    ensures r > 0
  {
    if a == 0 then 2 * b + 1 else 2 * Pair(a - 1, b)
  }

  lemma {:induction false} PairInjective(a: nat, b: nat, c: nat, d: nat)
    requires Pair(a, b) == Pair(c, d)
    ensures a == c && b == d
    decreases a
  {
    if a > 0 && c > 0 {
      PairInjective(a - 1, b, c - 1, d);
    }
  }

  function Natural(n: int): nat {
    if n >= 0 then 2 * n else -2 * n - 1
  }

  function LabelCode(l: Label): nat {
    Pair(Natural(l.upper), Natural(l.lower))
  }

  lemma LabelCodeInjective(l: Label, k: Label)
    requires LabelCode(l) == LabelCode(k)
    ensures l == k
  {
    PairInjective(Natural(l.upper), Natural(l.lower), Natural(k.upper), Natural(k.lower));
  }

  /** A symbol of its own for an upper arc `x` and a lower arc `y` that combine to `l`. */
  function Token(x: Label, y: Label, l: Label): (t: int)
    ensures t > IDENTITY
  {
    3 + Pair(LabelCode(x), Pair(LabelCode(y), LabelCode(l)))
  }

  lemma TokenInjective(x: Label, y: Label, l: Label, x': Label, y': Label, l': Label)
    requires Token(x, y, l) == Token(x', y', l')
    ensures x == x' && y == y' && l == l'
  {
    PairInjective(LabelCode(x), Pair(LabelCode(y), LabelCode(l)), LabelCode(x'), Pair(LabelCode(y'), LabelCode(l')));
    PairInjective(LabelCode(y), LabelCode(l), LabelCode(y'), LabelCode(l'));
    LabelCodeInjective(x, x');
    LabelCodeInjective(y, y');
    LabelCodeInjective(l, l');
  }

  /** Which arcs combine in the middle, and to what. */
  type Meeting = (Label, Label, Label) -> bool

  ghost predicate UpperTokenBy(m: Machine<int>, meet: Meeting, a: Arc<int>, x: Label, y: Label, l: Label) {
    Arc(a.src, x, a.tgt) in m.arcs && meet(x, y, l) && a.lab == Label(l.upper, Token(x, y, l))
  }

  ghost predicate LowerTokenBy(m: Machine<int>, meet: Meeting, a: Arc<int>, x: Label, y: Label, l: Label) {
    Arc(a.src, y, a.tgt) in m.arcs && meet(x, y, l) && a.lab == Label(Token(x, y, l), l.lower)
  }

  ghost predicate UpperToken(m: Machine<int>, meet: Meeting, a: Arc<int>) {
    exists x, y, l :: UpperTokenBy(m, meet, a, x, y, l)
  }

  ghost predicate LowerToken(m: Machine<int>, meet: Meeting, a: Arc<int>) {
    exists x, y, l :: LowerTokenBy(m, meet, a, x, y, l)
  }

  /** The upper machine with tokens in the middle; `silent` has its arcs with nothing there. */
  ghost function UpperSide(m: Machine<int>, silent: Machine<int>, meet: Meeting): Machine<int> {
    Machine((iset a: Arc<int> | UpperToken(m, meet, a) || (a in silent.arcs && a.lab.lower == EPSILON)), m.starts,
            m.finals)
  }

  ghost function LowerSide(m: Machine<int>, silent: Machine<int>, meet: Meeting): Machine<int> {
    Machine((iset a: Arc<int> | LowerToken(m, meet, a) || (a in silent.arcs && a.lab.upper == EPSILON)), m.starts,
            m.finals)
  }

  lemma SidesNeverClash(m1: Machine<int>, s1: Machine<int>, m2: Machine<int>, s2: Machine<int>, meet: Meeting)
    ensures NoWildcardClash(UpperSide(m1, s1, meet), LowerSide(m2, s2, meet))
  {
  }

  ghost predicate MeetsAt(m1: Machine<int>, m2: Machine<int>, meet: Meeting, e: Arc<Triple>, x: Label, y: Label) {
    Arc(e.src.a, x, e.tgt.a) in m1.arcs && Arc(e.src.b, y, e.tgt.b) in m2.arcs && meet(x, y, e.lab) && e.tgt.c == 0
  }

  /** Two arcs with nothing in the middle, taken at once. */
  ghost predicate SilentPair(s1: Machine<int>, s2: Machine<int>, e: Arc<Triple>) {
    && Arc(e.src.a, Label(e.lab.upper, EPSILON), e.tgt.a) in s1.arcs
    && Arc(e.src.b, Label(EPSILON, e.lab.lower), e.tgt.b) in s2.arcs
    && e.src.c == 0 && e.tgt.c == 0
  }

  /** The arcs of the product machine, told without tokens. */
  ghost predicate Joint(tri: bool, m1: Machine<int>, s1: Machine<int>, m2: Machine<int>, s2: Machine<int>,
                        meet: Meeting, e: Arc<Triple>) {
    || (exists x, y :: MeetsAt(m1, m2, meet, e, x, y))
    || (tri && SilentPair(s1, s2, e))
    || UpperMove(tri, s1, e.src, e.lab, e.tgt)
    || LowerMove(tri, s2, e.src, e.lab, e.tgt)
  }

  lemma SidesMeet(tri: bool, m1: Machine<int>, s1: Machine<int>, m2: Machine<int>, s2: Machine<int>, meet: Meeting,
                  e: Arc<Triple>,
                  u: Label, v: Label)
    requires BothMoveOn(tri, UpperSide(m1, s1, meet), LowerSide(m2, s2, meet), e.src, e.lab, e.tgt, u, v)
    ensures Joint(tri, m1, s1, m2, s2, meet, e)
  {
    var a, b := Arc(e.src.a, u, e.tgt.a), Arc(e.src.b, v, e.tgt.b);
    if x, y, l :| UpperTokenBy(m1, meet, a, x, y, l) {
      assert u.lower > IDENTITY && v.upper == u.lower;
      var x', y', l' :| LowerTokenBy(m2, meet, b, x', y', l');
      TokenInjective(x, y, l, x', y', l');
      assert MeetsAt(m1, m2, meet, e, x, y);
    } else {
      assert v.upper == u.lower == EPSILON;
      assert u == Label(e.lab.upper, EPSILON) && v == Label(EPSILON, e.lab.lower);
    }
  }

  lemma MeetingInSides(tri: bool, m1: Machine<int>, s1: Machine<int>, m2: Machine<int>, s2: Machine<int>, meet: Meeting,
                       e: Arc<Triple>)
    requires Joint(tri, m1, s1, m2, s2, meet, e)
    ensures ComposedArc(tri, UpperSide(m1, s1, meet), LowerSide(m2, s2, meet), e)
  {
    var m, n := UpperSide(m1, s1, meet), LowerSide(m2, s2, meet);
    if x, y :| MeetsAt(m1, m2, meet, e, x, y) {
      var t := Token(x, y, e.lab);
      var u, v := Label(e.lab.upper, t), Label(t, e.lab.lower);
      assert UpperTokenBy(m1, meet, Arc(e.src.a, u, e.tgt.a), x, y, e.lab);
      assert LowerTokenBy(m2, meet, Arc(e.src.b, v, e.tgt.b), x, y, e.lab);
      assert BothMoveOn(tri, m, n, e.src, e.lab, e.tgt, u, v);
    } else if tri && SilentPair(s1, s2, e) {
      var u, v := Label(e.lab.upper, EPSILON), Label(EPSILON, e.lab.lower);
      assert BothMoveOn(tri, m, n, e.src, e.lab, e.tgt, u, v);
    }
  }

  /** Composing the two sides gives just these arcs. */
  lemma SidesCompose(tri: bool, m1: Machine<int>, s1: Machine<int>, m2: Machine<int>, s2: Machine<int>, meet: Meeting,
                     e: Arc<Triple>)
    ensures ComposedArc(tri, UpperSide(m1, s1, meet), LowerSide(m2, s2, meet), e) <==>
              Joint(tri, m1, s1, m2, s2, meet, e)
  {
    hide UpperSide, LowerSide;
    var m, n := UpperSide(m1, s1, meet), LowerSide(m2, s2, meet);
    if BothMove(tri, m, n, e.src, e.lab, e.tgt) {
      var u, v :| BothMoveOn(tri, m, n, e.src, e.lab, e.tgt, u, v);
      SidesMeet(tri, m1, s1, m2, s2, meet, e, u, v);
    }
    SilentArcs(m1, s1, m2, s2, meet);
    if Joint(tri, m1, s1, m2, s2, meet, e) {
      MeetingInSides(tri, m1, s1, m2, s2, meet, e);
    }
  }

  lemma SilentArcs(m1: Machine<int>, s1: Machine<int>, m2: Machine<int>, s2: Machine<int>, meet: Meeting)
    ensures forall a: Arc<int> :: a.lab.lower == EPSILON ==> (a in UpperSide(m1, s1, meet).arcs <==> a in s1.arcs)
    ensures forall a: Arc<int> :: a.lab.upper == EPSILON ==> (a in LowerSide(m2, s2, meet).arcs <==> a in s2.arcs)
  {
  }

  /** Letters combine as `Matched` says. */
  ghost function Letters(): Meeting {
    (x: Label, y: Label, l: Label) => x.lower != EPSILON && Matched(x, y) == Some(l)
  }

  lemma LettersJoin(tri: bool, m1: Machine<int>, m2: Machine<int>, e: Arc<Triple>)
    ensures ComposedArc(tri, m1, m2, e) <==> Joint(tri, m1, m1, m2, m2, Letters(), e)
  {
    if x, y :| BothMoveOn(tri, m1, m2, e.src, e.lab, e.tgt, x, y) {
      assert x.lower != EPSILON ==> MeetsAt(m1, m2, Letters(), e, x, y);
    }
    if x, y :| MeetsAt(m1, m2, Letters(), e, x, y) {
      assert BothMoveOn(tri, m1, m2, e.src, e.lab, e.tgt, x, y);
    }
    if tri && SilentPair(m1, m2, e) {
      assert BothMoveOn(tri, m1, m2, e.src, e.lab, e.tgt, Label(e.lab.upper, EPSILON), Label(EPSILON, e.lab.lower));
    }
  }

  /** The product machine does not change when the middle is replaced by tokens. */
  lemma TokensCompose(tri: bool, m1: Machine<int>, m2: Machine<int>)
    ensures Composed(tri, UpperSide(m1, m1, Letters()), LowerSide(m2, m2, Letters())) == Composed(tri, m1, m2)
  {
    hide ComposedArc, Joint, Letters;
    var m, n := Composed(tri, UpperSide(m1, m1, Letters()), LowerSide(m2, m2, Letters())), Composed(tri, m1, m2);
    forall e ensures e in m.arcs <==> e in n.arcs {
      SidesCompose(tri, m1, m1, m2, m2, Letters(), e);
      LettersJoin(tri, m1, m2, e);
    }
    assert m.arcs == n.arcs;
  }

  /** The two epsilon filters are interchangeable, letter by letter, for any two machines. */
  lemma FiltersAgree(m1: Machine<int>, m2: Machine<int>)
    ensures forall x, z :: Relates(Composed(false, m1, m2), x, z) <==> Relates(Composed(true, m1, m2), x, z)
  {
    hide Composed, UpperSide, LowerSide, NoWildcardClash, Relates;
    var u, v := UpperSide(m1, m1, Letters()), LowerSide(m2, m2, Letters());
    SidesNeverClash(m1, m1, m2, m2, Letters());
    TokensCompose(false, m1, m2);
    TokensCompose(true, m1, m2);
    forall x, z ensures Relates(Composed(false, m1, m2), x, z) <==> Relates(Composed(true, m1, m2), x, z) {
      ClashFreeRelation(false, u, v, x, z);
      ClashFreeRelation(true, u, v, x, z);
    }
  }

  // ----- The relation, told by paths that meet -----

  /** The pairs of an upper path that put something on the middle tape. */
  function Outputs(w: seq<Label>): seq<Label> {
    if w == [] then [] else (if w[0].lower == EPSILON then [] else [w[0]]) + Outputs(w[1..])
  }

  /** The pairs of a lower path that read something off the middle tape. */
  function Inputs(w: seq<Label>): seq<Label> {
    if w == [] then [] else (if w[0].upper == EPSILON then [] else [w[0]]) + Inputs(w[1..])
  }

  ghost predicate AllMatch(xs: seq<Label>, ys: seq<Label>) {
    |xs| == |ys| && forall i :: 0 <= i < |xs| ==> Matched(xs[i], ys[i]).Some?
  }

  /** What the upper path writes when its outputs meet `ys`: `@` that meets `?` turns into `?`. */
  function UpperMet(w: seq<Label>, ys: seq<Label>): seq<int>
    requires |ys| == |Outputs(w)|
  {
    if w == [] then []
    else if w[0].lower == EPSILON then Said(w[0].upper) + UpperMet(w[1..], ys)
    else Said(if w[0].lower == IDENTITY && ys[0].upper == UNKNOWN then UNKNOWN else w[0].upper)
         + UpperMet(w[1..], ys[1..])
  }

  function LowerMet(w: seq<Label>, xs: seq<Label>): seq<int>
    requires |xs| == |Inputs(w)|
  {
    if w == [] then []
    else if w[0].upper == EPSILON then Said(w[0].lower) + LowerMet(w[1..], xs)
    else Said(if w[0].upper == IDENTITY && xs[0].lower == UNKNOWN then UNKNOWN else w[0].lower)
         + LowerMet(w[1..], xs[1..])
  }

  function Said(n: int): seq<int> {
    if n == EPSILON then [] else [n]
  }

  function Tokens(xs: seq<Label>, ys: seq<Label>): seq<int>
    requires |xs| == |ys|
  {
    if xs == [] then []
    else [if Matched(xs[0], ys[0]).Some? then Token(xs[0], ys[0], Matched(xs[0], ys[0]).value) else 0]
         + Tokens(xs[1..], ys[1..])
  }

  lemma {:induction false} TokensInjective(xs: seq<Label>, ys: seq<Label>, xs': seq<Label>, ys': seq<Label>)
    requires AllMatch(xs, ys) && AllMatch(xs', ys') && Tokens(xs, ys) == Tokens(xs', ys')
    ensures xs == xs' && ys == ys'
    decreases |xs|
  {
    if xs == [] || xs' == [] {
      assert xs == [] && xs' == [];
    } else {
      assert Tokens(xs, ys)[0] == Tokens(xs', ys')[0] && Tokens(xs, ys)[1..] == Tokens(xs', ys')[1..];
      TokenInjective(xs[0], ys[0], Matched(xs[0], ys[0]).value, xs'[0], ys'[0], Matched(xs'[0], ys'[0]).value);
      TokensInjective(xs[1..], ys[1..], xs'[1..], ys'[1..]);
      assert xs == [xs[0]] + xs[1..] && ys == [ys[0]] + ys[1..] && xs' == [xs'[0]] + xs'[1..]
             && ys' == [ys'[0]] + ys'[1..];
    }
  }

  /** The label that carries the token of `x` and `y` on the upper side. */
  function TokenAbove(x: Label, y: Label): Label {
    if Matched(x, y).Some? then Label(Matched(x, y).value.upper, Token(x, y, Matched(x, y).value)) else x
  }

  function TokenBelow(x: Label, y: Label): Label {
    if Matched(x, y).Some? then Label(Token(x, y, Matched(x, y).value), Matched(x, y).value.lower) else y
  }

  /** The upper path `w` with tokens for its outputs, which meet `ys`. */
  function UpperTokens(w: seq<Label>, ys: seq<Label>): seq<Label>
    requires |ys| == |Outputs(w)|
  {
    if w == [] then []
    else if w[0].lower == EPSILON then [w[0]] + UpperTokens(w[1..], ys)
    else [TokenAbove(w[0], ys[0])] + UpperTokens(w[1..], ys[1..])
  }

  function LowerTokens(w: seq<Label>, xs: seq<Label>): seq<Label>
    requires |xs| == |Inputs(w)|
  {
    if w == [] then []
    else if w[0].upper == EPSILON then [w[0]] + LowerTokens(w[1..], xs)
    else [TokenBelow(xs[0], w[0])] + LowerTokens(w[1..], xs[1..])
  }

  lemma MatchTail(xs: seq<Label>, ys: seq<Label>)
    requires AllMatch(xs, ys) && xs != []
    ensures Matched(xs[0], ys[0]).Some? && AllMatch(xs[1..], ys[1..])
  {
  }

  lemma MatchMore(x: Label, y: Label, xs: seq<Label>, ys: seq<Label>)
    requires AllMatch(xs, ys) && Matched(x, y).Some?
    ensures AllMatch([x] + xs, [y] + ys) && ([x] + xs)[1..] == xs && ([y] + ys)[1..] == ys
  {
  }

  lemma {:induction false} UpperTapes(w: seq<Label>, ys: seq<Label>)
    requires AllMatch(Outputs(w), ys)
    ensures Upper(UpperTokens(w, ys)) == UpperMet(w, ys) && Lower(UpperTokens(w, ys)) == Tokens(Outputs(w), ys)
    decreases |w|
  {
    hide AllMatch, Token;
    MatchLengths(Outputs(w), ys);
    if w == [] {
    } else if w[0].lower == EPSILON {
      assert Outputs(w) == Outputs(w[1..]);
      UpperTapes(w[1..], ys);
      ConsTapes(w[0], UpperTokens(w[1..], ys));
    } else {
      assert Outputs(w) == [w[0]] + Outputs(w[1..]) && Outputs(w)[1..] == Outputs(w[1..]);
      MatchTail(Outputs(w), ys);
      UpperTapes(w[1..], ys[1..]);
      ConsTapes(TokenAbove(w[0], ys[0]), UpperTokens(w[1..], ys[1..]));
    }
  }

  lemma MatchLengths(xs: seq<Label>, ys: seq<Label>)
    requires AllMatch(xs, ys)
    ensures |xs| == |ys|
  {
  }

  lemma ConsTapes(l: Label, w: seq<Label>)
    ensures Upper([l] + w) == Said(l.upper) + Upper(w) && Lower([l] + w) == Said(l.lower) + Lower(w)
  {
    assert ([l] + w)[0] == l && ([l] + w)[1..] == w;
  }

  lemma {:induction false} LowerTapes(w: seq<Label>, xs: seq<Label>)
    requires AllMatch(xs, Inputs(w))
    ensures Lower(LowerTokens(w, xs)) == LowerMet(w, xs) && Upper(LowerTokens(w, xs)) == Tokens(xs, Inputs(w))
    decreases |w|
  {
    hide AllMatch, Token;
    MatchLengths(xs, Inputs(w));
    if w == [] {
    } else if w[0].upper == EPSILON {
      assert Inputs(w) == Inputs(w[1..]);
      LowerTapes(w[1..], xs);
      ConsTapes(w[0], LowerTokens(w[1..], xs));
    } else {
      assert Inputs(w) == [w[0]] + Inputs(w[1..]) && Inputs(w)[1..] == Inputs(w[1..]);
      MatchTail(xs, Inputs(w));
      LowerTapes(w[1..], xs[1..]);
      ConsTapes(TokenBelow(xs[0], w[0]), LowerTokens(w[1..], xs[1..]));
    }
  }

  lemma TokenArcs(m: Machine<int>, x: Label, y: Label, p: int, q: int)
    requires Matched(x, y).Some? && x.lower != EPSILON
    ensures Arc(p, x, q) in m.arcs ==> Arc(p, TokenAbove(x, y), q) in UpperSide(m, m, Letters()).arcs
    ensures Arc(p, y, q) in m.arcs ==> Arc(p, TokenBelow(x, y), q) in LowerSide(m, m, Letters()).arcs
  {
    var l := Matched(x, y).value;
    if Arc(p, x, q) in m.arcs {
      assert UpperTokenBy(m, Letters(), Arc(p, TokenAbove(x, y), q), x, y, l);
    }
    if Arc(p, y, q) in m.arcs {
      assert LowerTokenBy(m, Letters(), Arc(p, TokenBelow(x, y), q), x, y, l);
    }
  }

  lemma {:induction false} UpperReads(m: Machine<int>, p: int, w: seq<Label>, q: int, ys: seq<Label>)
    requires Reads(m, p, w, q) && AllMatch(Outputs(w), ys)
    ensures |ys| == |Outputs(w)| && Reads(UpperSide(m, m, Letters()), p, UpperTokens(w, ys), q)
    decreases |w|
  {
    hide AllMatch, UpperSide, TokenAbove, Matched;
    MatchLengths(Outputs(w), ys);
    if w != [] {
      var n := UpperSide(m, m, Letters());
      var r := ReadsHead(m, p, w, q);
      if w[0].lower == EPSILON {
        assert Outputs(w) == Outputs(w[1..]);
        UpperReads(m, r, w[1..], q, ys);
        SilentArcs(m, m, m, m, Letters());
        assert Arc(p, w[0], r).lab.lower == EPSILON;
        ReadsCons(n, p, w[0], r, UpperTokens(w[1..], ys), q);
      } else {
        assert Outputs(w)[1..] == Outputs(w[1..]);
        MatchTail(Outputs(w), ys);
        UpperReads(m, r, w[1..], q, ys[1..]);
        TokenArcs(m, w[0], ys[0], p, r);
        ReadsCons(n, p, TokenAbove(w[0], ys[0]), r, UpperTokens(w[1..], ys[1..]), q);
      }
    }
  }

  lemma {:induction false} LowerReads(m: Machine<int>, p: int, w: seq<Label>, q: int, xs: seq<Label>)
    requires Reads(m, p, w, q) && AllMatch(xs, Inputs(w)) && forall x :: x in xs ==> x.lower != EPSILON
    ensures |xs| == |Inputs(w)| && Reads(LowerSide(m, m, Letters()), p, LowerTokens(w, xs), q)
    decreases |w|
  {
    hide AllMatch, LowerSide, TokenBelow, Matched;
    MatchLengths(xs, Inputs(w));
    if w != [] {
      var n := LowerSide(m, m, Letters());
      var r := ReadsHead(m, p, w, q);
      if w[0].upper == EPSILON {
        assert Inputs(w) == Inputs(w[1..]);
        LowerReads(m, r, w[1..], q, xs);
        SilentArcs(m, m, m, m, Letters());
        assert Arc(p, w[0], r).lab.upper == EPSILON;
        ReadsCons(n, p, w[0], r, LowerTokens(w[1..], xs), q);
      } else {
        assert Inputs(w)[1..] == Inputs(w[1..]);
        MatchTail(xs, Inputs(w));
        LowerReads(m, r, w[1..], q, xs[1..]);
        TokenArcs(m, xs[0], w[0], p, r);
        ReadsCons(n, p, TokenBelow(xs[0], w[0]), r, LowerTokens(w[1..], xs[1..]), q);
      }
    }
  }

  lemma {:induction false} OutputsSpeak(w: seq<Label>)
    ensures forall x :: x in Outputs(w) ==> x.lower != EPSILON
  {
    if w != [] {
      OutputsSpeak(w[1..]);
    }
  }

  /** The arc behind an arc of the upper side. */
  lemma UpperArcBehind(m: Machine<int>, a: Arc<int>) returns (x: Label, y: Label)
    requires a in UpperSide(m, m, Letters()).arcs
    ensures Arc(a.src, x, a.tgt) in m.arcs
    ensures if x.lower == EPSILON then a.lab == x else Matched(x, y).Some? && a.lab == TokenAbove(x, y)
  {
    if UpperToken(m, Letters(), a) {
      var l;
      x, y, l :| UpperTokenBy(m, Letters(), a, x, y, l);
    } else {
      x, y := a.lab, a.lab;
    }
  }

  lemma LowerArcBehind(m: Machine<int>, a: Arc<int>) returns (x: Label, y: Label)
    requires a in LowerSide(m, m, Letters()).arcs
    ensures Arc(a.src, y, a.tgt) in m.arcs
    ensures if y.upper == EPSILON then a.lab == y else Matched(x, y).Some? && a.lab == TokenBelow(x, y)
  {
    if LowerToken(m, Letters(), a) {
      var l;
      x, y, l :| LowerTokenBy(m, Letters(), a, x, y, l);
    } else {
      x, y := a.lab, a.lab;
    }
  }

  lemma {:induction false} UpperBehind(m: Machine<int>, p: int, v: seq<Label>, q: int)
    returns (w: seq<Label>, ys: seq<Label>)
    requires Reads(UpperSide(m, m, Letters()), p, v, q)
    ensures Reads(m, p, w, q) && AllMatch(Outputs(w), ys) && v == UpperTokens(w, ys)
    decreases |v|
  {
    hide UpperSide, Matched, TokenAbove, Letters;
    if v == [] {
      return [], [];
    }
    var r := ReadsHead(UpperSide(m, m, Letters()), p, v, q);
    var x, y := UpperArcBehind(m, Arc(p, v[0], r));
    var rest, more := UpperBehind(m, r, v[1..], q);
    ReadsCons(m, p, x, r, rest, q);
    w := [x] + rest;
    assert w[1..] == rest && v == [v[0]] + v[1..];
    if x.lower == EPSILON {
      ys := more;
      assert Outputs(w) == Outputs(rest);
    } else {
      ys := [y] + more;
      assert Outputs(w) == [x] + Outputs(rest);
      MatchMore(x, y, Outputs(rest), more);
    }
  }

  lemma {:induction false} LowerBehind(m: Machine<int>, p: int, v: seq<Label>, q: int)
    returns (w: seq<Label>, xs: seq<Label>)
    requires Reads(LowerSide(m, m, Letters()), p, v, q)
    ensures Reads(m, p, w, q) && AllMatch(xs, Inputs(w)) && v == LowerTokens(w, xs)
    decreases |v|
  {
    hide LowerSide, Matched, TokenBelow, Letters;
    if v == [] {
      return [], [];
    }
    var r := ReadsHead(LowerSide(m, m, Letters()), p, v, q);
    var x, y := LowerArcBehind(m, Arc(p, v[0], r));
    var rest, more := LowerBehind(m, r, v[1..], q);
    ReadsCons(m, p, y, r, rest, q);
    w := [y] + rest;
    assert w[1..] == rest && v == [v[0]] + v[1..];
    if y.upper == EPSILON {
      xs := more;
      assert Inputs(w) == Inputs(rest);
    } else {
      xs := [x] + more;
      assert Inputs(w) == [y] + Inputs(rest);
      MatchMore(x, y, more, Inputs(rest));
    }
  }

  /** The upper path `wa` and the lower path `wb` match in the middle and give `x` above and `z` below. */
  ghost predicate MeetAs(wa: seq<Label>, wb: seq<Label>, x: seq<int>, z: seq<int>) {
    AllMatch(Outputs(wa), Inputs(wb)) && UpperMet(wa, Inputs(wb)) == x && LowerMet(wb, Outputs(wa)) == z
  }

  ghost predicate PathsMeet(m1: Machine<int>, m2: Machine<int>, x: seq<int>, z: seq<int>) {
    exists wa, wb :: Accepts(m1, wa) && Accepts(m2, wb) && MeetAs(wa, wb, x, z)
  }

  lemma MeetingTokens(m1: Machine<int>, m2: Machine<int>, wa: seq<Label>, wb: seq<Label>, x: seq<int>, z: seq<int>)
    requires Accepts(m1, wa) && Accepts(m2, wb) && MeetAs(wa, wb, x, z)
    ensures exists y :: Relates(UpperSide(m1, m1, Letters()), x, y) && Relates(LowerSide(m2, m2, Letters()), y, z)
  {
    hide Reads, AllMatch, Token, TokenAbove, TokenBelow;
    var xs, ys := Outputs(wa), Inputs(wb);
    MatchLengths(xs, ys);
    var p, p' := AcceptingPath(m1, wa);
    var q, q' := AcceptingPath(m2, wb);
    OutputsSpeak(wa);
    UpperReads(m1, p, wa, p', ys);
    LowerReads(m2, q, wb, q', xs);
    UpperTapes(wa, ys);
    LowerTapes(wb, xs);
    assert Accepts(UpperSide(m1, m1, Letters()), UpperTokens(wa, ys));
    assert Accepts(LowerSide(m2, m2, Letters()), LowerTokens(wb, xs));
    assert Relates(UpperSide(m1, m1, Letters()), x, Tokens(xs, ys));
  }

  lemma TokensMeeting(m1: Machine<int>, m2: Machine<int>, x: seq<int>, y: seq<int>, z: seq<int>)
    requires Relates(UpperSide(m1, m1, Letters()), x, y) && Relates(LowerSide(m2, m2, Letters()), y, z)
    ensures PathsMeet(m1, m2, x, z)
  {
    hide Reads, AllMatch, Token, TokenAbove, TokenBelow;
    var u :| Accepts(UpperSide(m1, m1, Letters()), u) && Upper(u) == x && Lower(u) == y;
    var v :| Accepts(LowerSide(m2, m2, Letters()), v) && Upper(v) == y && Lower(v) == z;
    var p, p' := AcceptingPath(UpperSide(m1, m1, Letters()), u);
    var q, q' := AcceptingPath(LowerSide(m2, m2, Letters()), v);
    var wa, ys := UpperBehind(m1, p, u, p');
    var wb, xs := LowerBehind(m2, q, v, q');
    UpperTapes(wa, ys);
    LowerTapes(wb, xs);
    TokensInjective(Outputs(wa), ys, xs, Inputs(wb));
    assert Accepts(m1, wa) && Accepts(m2, wb) && MeetAs(wa, wb, x, z);
  }

  /**
   Both product machines relate exactly what two accepted paths make that match in the middle, whatever symbols
   meet there.
   */
  lemma ComposedRelation(tri: bool, m1: Machine<int>, m2: Machine<int>, x: seq<int>, z: seq<int>)
    ensures Relates(Composed(tri, m1, m2), x, z) <==> PathsMeet(m1, m2, x, z)
  {
    hide Composed, UpperSide, LowerSide, NoWildcardClash, Relates, Accepts, MeetAs;
    var u, v := UpperSide(m1, m1, Letters()), LowerSide(m2, m2, Letters());
    SidesNeverClash(m1, m1, m2, m2, Letters());
    TokensCompose(tri, m1, m2);
    ClashFreeRelation(tri, u, v, x, z);
    if y :| Relates(u, x, y) && Relates(v, y, z) {
      TokensMeeting(m1, m2, x, y, z);
    }
    if PathsMeet(m1, m2, x, z) {
      var wa, wb :| Accepts(m1, wa) && Accepts(m2, wb) && MeetAs(wa, wb, x, z);
      MeetingTokens(m1, m2, wa, wb, x, z);
    }
  }
}
