/**
 The product constructions as their callers see them: the worklist result is trimmed in
 place before it is handed back.
 */
module Products {
  import opened Automata
  import opened NetBuilding
  import opened ProductBuilding
  import opened Worklist
  import opened Trimming
  import opened Coaccessibility
  import Intersection
  import opened ComposedWords
  import opened Composition
  import Composing
  import OpenComposition

  /** Every state of a worklist net is reached from state 0. */
  lemma {:induction false} IntroducedFromZero(net: seq<Line>, count: nat, j: int)
    requires WellFormed(net, count) && (forall i :: 0 < i < count ==> Introduced(net, i)) && 0 <= j < count
    ensures FromZero(MachineOf(net), j)
    decreases j
  {
    hide WellFormed, FromZero, MachineOf;
    if j == 0 {
      ZeroFromZero(MachineOf(net));
    } else {
      assert Introduced(net, j);
      var l :| l in net && l.target == j && 0 <= l.state < j;
      IntroducedFromZero(net, count, l.state);
      LineFromZero(net, l);
    }
  }

  lemma ZeroFromZero(m: Machine<int>)
    ensures FromZero(m, 0)
  {
    assert Reads(m, 0, [], 0);
  }

  lemma LineFromZero(net: seq<Line>, l: Line)
    requires l in net && 0 <= l.target && FromZero(MachineOf(net), l.state)
    ensures FromZero(MachineOf(net), l.target)
  {
    hide Reads;
    var m := MachineOf(net);
    var w :| Reads(m, 0, w, l.state);
    assert l.ToArc() in m.arcs;
    ReadsOne(m, l.state, l.ToLabel(), l.target);
    ReadsAppend(m, 0, w, l.state, [l.ToLabel()], l.target);
  }

  /** Stores a finished worklist net in an array with its sentinel, and trims it. */
  method TrimResult(net: seq<Line>, count: nat) returns (fsm: Fsm, ghost trimmed: seq<Line>)
    requires WellFormed(net, count) && Orderly(net) && (forall j :: 0 < j < count ==> Introduced(net, j))
    ensures fresh(fsm) && Encodes(fsm.states, trimmed) && Trimmed(net, count, trimmed, fsm.statecount)
  {
    var states := new Line[|net| + 1](i => if 0 <= i < |net| then net[i] else Line(-1, -1, -1, -1, false, false));
    assert states[..|net|] == net;
    fsm := new Fsm(states, count);
    forall q | 0 <= q < count ensures FromZero(MachineOf(net), q) {
      IntroducedFromZero(net, count, q);
    }
    trimmed := CoaccessibleInPlace(fsm, net);
  }

  /** Intersection of two minimized nets over one alphabet: exactly the common words, trimmed. */
  method FsmIntersect(a: seq<Line>, na: nat, b: seq<Line>, nb: nat, sigmaMax: int)
    returns (fsm: Fsm, ghost result: seq<Line>)
    requires WellFormed(a, na) && WellFormed(b, nb) && Deterministic(MachineOf(b))
    requires MachineOf(a).starts == iset{0} && MachineOf(b).starts == iset{0}
    requires -1 <= sigmaMax && SymbolsUpTo(a, sigmaMax) && SymbolsUpTo(b, sigmaMax)
    ensures fresh(fsm) && Encodes(fsm.states, result)
    ensures forall w :: Accepts(MachineOf(result), w) <==> Accepts(MachineOf(a), w) && Accepts(MachineOf(b), w)
    ensures result == EMPTY_NET || (WellFormed(result, fsm.statecount)
                                    && forall s :: 0 <= s < fsm.statecount ==> Coaccessible(MachineOf(result), s))
  {
    var net, count, deterministic := Intersection.Intersect(a, na, b, nb, sigmaMax);
    fsm, result := TrimResult(net, count);
  }

  /** Composition of two minimized nets over one alphabet: exactly the composed relation, trimmed. */
  method FsmCompose(a: seq<Line>, na: nat, b: seq<Line>, nb: nat, sigmaMax: int, tristate: bool)
    returns (fsm: Fsm, ghost result: seq<Line>)
    requires WellFormed(a, na) && WellFormed(b, nb)
    requires OneArcPerLabel(b) && Composing.IdentityPaired(b)
    requires MachineOf(a).starts == iset{0} && MachineOf(b).starts == iset{0}
    requires -1 <= sigmaMax && SymbolsUpTo(a, sigmaMax) && SymbolsUpTo(b, sigmaMax)
    ensures fresh(fsm) && Encodes(fsm.states, result)
    ensures forall v :: AcceptsErased(MachineOf(result), v) <==> Weaves(tristate, MachineOf(a), MachineOf(b), v)
    ensures NoWildcardClash(MachineOf(a), MachineOf(b)) ==>
              forall v :: AcceptsErased(MachineOf(result), v) <==> Interleaves(tristate, MachineOf(a), MachineOf(b), v)
    ensures forall x, z :: Relates(MachineOf(result), x, z) <==> PathsMeet(MachineOf(a), MachineOf(b), x, z)
    ensures NoWildcardClash(MachineOf(a), MachineOf(b)) ==>
              forall x, z :: Relates(MachineOf(result), x, z) <==>
                               exists y :: Relates(MachineOf(a), x, y) && Relates(MachineOf(b), y, z)
    ensures forall s :: OpenComposition.SharedAlphabet(s, a, b) ==> OpenComposition.Composes(tristate, s, a, b, result)
    ensures result == EMPTY_NET || (WellFormed(result, fsm.statecount)
                                    && forall s :: 0 <= s < fsm.statecount ==> Coaccessible(MachineOf(result), s))
  {
    hide NoWildcardClash, PathsMeet, Weaves, Interleaves, Accepts, Erase, OpenComposition.SharedAlphabet,
         OpenComposition.Composes;
    var net, count, deterministic := Composing.Compose(a, na, b, nb, sigmaMax, tristate);
    fsm, result := TrimResult(net, count);
    SameWordsSameRelation(MachineOf(net), MachineOf(result));
    forall s | OpenComposition.SharedAlphabet(s, a, b) ensures OpenComposition.Composes(tristate, s, a, b, result) {
      OpenComposition.SameWordsCompose(tristate, s, a, b, net, result);
    }
  }

  lemma SameWordsSameRelation(m: Machine<int>, n: Machine<int>)
    requires forall w :: Accepts(m, w) <==> Accepts(n, w)
    ensures forall x, z :: Relates(m, x, z) <==> Relates(n, x, z)
    ensures forall v :: AcceptsErased(m, v) <==> AcceptsErased(n, v)
  {
  }
}
