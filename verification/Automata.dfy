/**
 Finite-state machines over symbol pairs, and the languages and relations they denote.

 Every transformation in this project is stated against the definitions of this module:
 a `Machine` is an abstract transition system over any type of states, a `Line` is one
 row of foma's array-of-lines encoding, and `MachineOf` reads the first off the second.
 */
module Automata {

  /** Reserved symbol numbers. Ordinary symbols are numbered from 3. */
  const EPSILON: int := 0
  const UNKNOWN: int := 1
  const IDENTITY: int := 2

  /** One `upper:lower` symbol pair. */
  datatype Label = Label(upper: int, lower: int)

  const EPSILON_PAIR := Label(EPSILON, EPSILON)

  datatype Arc<S> = Arc(src: S, lab: Label, tgt: S)

  datatype Machine<!S> = Machine(arcs: iset<Arc<S>>, starts: iset<S>, finals: iset<S>)

  /** There is a path from `p` to `q` spelling exactly the pair string `w`. */
  ghost predicate Reads<S(!new)>(m: Machine<S>, p: S, w: seq<Label>, q: S)
    decreases |w|
  {
    if w == [] then p == q
    else exists r :: Arc(p, w[0], r) in m.arcs && Reads(m, r, w[1..], q)
  }

  ghost predicate Accepts<S(!new)>(m: Machine<S>, w: seq<Label>) {
    exists p, q :: p in m.starts && q in m.finals && Reads(m, p, w, q)
  }

  /** Acceptance from a given state: its residual language. */
  ghost predicate AcceptsFrom<S(!new)>(m: Machine<S>, p: S, w: seq<Label>) {
    exists q :: q in m.finals && Reads(m, p, w, q)
  }

  /** The pair string without its 0:0 pairs. */
  function Erase(w: seq<Label>): seq<Label> {
    if w == [] then []
    else (if w[0] == EPSILON_PAIR then [] else [w[0]]) + Erase(w[1..])
  }

  /** Acceptance up to 0:0 pairs. */
  ghost predicate AcceptsErased<S(!new)>(m: Machine<S>, v: seq<Label>) {
    exists w :: Erase(w) == v && Accepts(m, w)
  }

  /** The upper tape, without EPSILON. */
  function Upper(w: seq<Label>): seq<int> {
    if w == [] then []
    else (if w[0].upper == EPSILON then [] else [w[0].upper]) + Upper(w[1..])
  }

  /** The lower tape, without EPSILON. */
  function Lower(w: seq<Label>): seq<int> {
    if w == [] then []
    else (if w[0].lower == EPSILON then [] else [w[0].lower]) + Lower(w[1..])
  }

  /** The relation on strings that a machine denotes. */
  ghost predicate Relates<S(!new)>(m: Machine<S>, x: seq<int>, z: seq<int>) {
    exists w :: Accepts(m, w) && Upper(w) == x && Lower(w) == z
  }

  ghost predicate Deterministic<S(!new)>(m: Machine<S>) {
    && (forall a, b :: a in m.arcs && b in m.arcs && a.src == b.src && a.lab == b.lab ==> a.tgt == b.tgt)
    && (forall a :: a in m.arcs ==> a.lab != EPSILON_PAIR)
    && (forall p, q :: p in m.starts && q in m.starts ==> p == q)
  }

  ghost predicate Reachable<S(!new)>(m: Machine<S>, q: S) {
    exists p, w :: p in m.starts && Reads(m, p, w, q)
  }

  ghost predicate Coaccessible<S(!new)>(m: Machine<S>, p: S) {
    exists w :: AcceptsFrom(m, p, w)
  }

  // ----- Paths compose and split -----

  lemma AcceptingPath<S(!new)>(m: Machine<S>, w: seq<Label>) returns (p: S, q: S)
    requires Accepts(m, w)
    ensures p in m.starts && q in m.finals && Reads(m, p, w, q)
  {
    p, q :| p in m.starts && q in m.finals && Reads(m, p, w, q);
  }

  lemma AcceptingEnd<S(!new)>(m: Machine<S>, p: S, w: seq<Label>) returns (q: S)
    requires AcceptsFrom(m, p, w)
    ensures q in m.finals && Reads(m, p, w, q)
  {
    q :| q in m.finals && Reads(m, p, w, q);
  }

  lemma AcceptsFromStart(m: Machine<int>, w: seq<Label>)
    requires m.starts == iset{0}
    ensures Accepts(m, w) <==> AcceptsFrom(m, 0, w)
  {
    if Accepts(m, w) {
      var p, q := AcceptingPath(m, w);
    }
    if AcceptsFrom(m, 0, w) {
      var q := AcceptingEnd(m, 0, w);
    }
  }

  lemma {:induction false} ReadsAppend<S(!new)>(m: Machine<S>, p: S, u: seq<Label>, q: S, v: seq<Label>, r: S)
    requires Reads(m, p, u, q) && Reads(m, q, v, r)
    ensures Reads(m, p, u + v, r)
    decreases |u|
  {
    if u == [] {
      assert u + v == v;
    } else {
      var s :| Arc(p, u[0], s) in m.arcs && Reads(m, s, u[1..], q);
      ReadsAppend(m, s, u[1..], q, v, r);
      assert (u + v)[0] == u[0] && (u + v)[1..] == u[1..] + v;
    }
  }

  lemma {:induction false} ReadsSplit<S(!new)>(m: Machine<S>, p: S, u: seq<Label>, v: seq<Label>, r: S) returns (q: S)
    requires Reads(m, p, u + v, r)
    ensures Reads(m, p, u, q) && Reads(m, q, v, r)
    decreases |u|
  {
    if u == [] {
      assert u + v == v;
      q := p;
    } else {
      assert (u + v)[0] == u[0] && (u + v)[1..] == u[1..] + v;
      var s :| Arc(p, u[0], s) in m.arcs && Reads(m, s, u[1..] + v, r);
      q := ReadsSplit(m, s, u[1..], v, r);
    }
  }

  lemma ReadsOne<S(!new)>(m: Machine<S>, p: S, l: Label, q: S)
    ensures Reads(m, p, [l], q) <==> Arc(p, l, q) in m.arcs
  {
    assert [l][1..] == [];
    if Reads(m, p, [l], q) {
      var r :| Arc(p, [l][0], r) in m.arcs && Reads(m, r, [l][1..], q);
    } else if Arc(p, l, q) in m.arcs {
      assert Arc(p, [l][0], q) in m.arcs && Reads(m, q, [l][1..], q);
    }
  }

  lemma ReadsCons<S(!new)>(m: Machine<S>, p: S, l: Label, q: S, w: seq<Label>, r: S)
    requires Arc(p, l, q) in m.arcs && Reads(m, q, w, r)
    ensures Reads(m, p, [l] + w, r)
  {
    assert ([l] + w)[0] == l && ([l] + w)[1..] == w;
  }

  lemma ReadsHead<S(!new)>(m: Machine<S>, p: S, w: seq<Label>, r: S) returns (q: S)
    requires w != [] && Reads(m, p, w, r)
    ensures Arc(p, w[0], q) in m.arcs && Reads(m, q, w[1..], r)
  {
    q :| Arc(p, w[0], q) in m.arcs && Reads(m, q, w[1..], r);
  }

  /** A path of a deterministic machine is determined by its start and its word. */
  lemma {:induction false} ReadsFunctional<S(!new)>(m: Machine<S>, p: S, w: seq<Label>, q: S, r: S)
    requires Deterministic(m)
    requires Reads(m, p, w, q) && Reads(m, p, w, r)
    ensures q == r
    decreases |w|
  {
    if w != [] {
      var s :| Arc(p, w[0], s) in m.arcs && Reads(m, s, w[1..], q);
      var t :| Arc(p, w[0], t) in m.arcs && Reads(m, t, w[1..], r);
      assert Arc(p, w[0], s).tgt == Arc(p, w[0], t).tgt;
      ReadsFunctional(m, s, w[1..], q, r);
    }
  }

  lemma {:induction false} ReadsNoEpsilon<S(!new)>(m: Machine<S>, p: S, w: seq<Label>, q: S)
    requires Deterministic(m) && Reads(m, p, w, q)
    ensures EPSILON_PAIR !in w
    decreases |w|
  {
    if w != [] {
      var s :| Arc(p, w[0], s) in m.arcs && Reads(m, s, w[1..], q);
      assert Arc(p, w[0], s).lab != EPSILON_PAIR;
      ReadsNoEpsilon(m, s, w[1..], q);
      assert w == [w[0]] + w[1..];
    }
  }

  // ----- Erasing 0:0 pairs does not change either tape -----

  lemma {:induction false} EraseAppend(u: seq<Label>, v: seq<Label>)
    ensures Erase(u + v) == Erase(u) + Erase(v)
  {
    if u == [] {
      assert u + v == v;
    } else {
      var head := if u[0] == EPSILON_PAIR then [] else [u[0]];
      calc {
        Erase(u + v);
      == { assert (u + v)[0] == u[0] && (u + v)[1..] == u[1..] + v; }
        head + Erase(u[1..] + v);
      == { EraseAppend(u[1..], v); }
        head + (Erase(u[1..]) + Erase(v));
      ==
        (head + Erase(u[1..])) + Erase(v);
      ==
        Erase(u) + Erase(v);
      }
    }
  }

  lemma {:induction false} EraseKeepsTapes(w: seq<Label>)
    ensures Upper(Erase(w)) == Upper(w)
    ensures Lower(Erase(w)) == Lower(w)
  {
    if w != [] {
      EraseKeepsTapes(w[1..]);
      if w[0] != EPSILON_PAIR {
        assert Erase(w)[0] == w[0] && Erase(w)[1..] == Erase(w[1..]);
      } else {
        assert Erase(w) == Erase(w[1..]);
      }
    }
  }

  /** Machines with the same words up to 0:0 pairs denote the same relation. */
  lemma SameErasedSameRelation<S(!new), T(!new)>(m: Machine<S>, n: Machine<T>)
    requires forall v :: AcceptsErased(m, v) ==> AcceptsErased(n, v)
    ensures forall x, z :: Relates(m, x, z) ==> Relates(n, x, z)
  {
    forall x, z | Relates(m, x, z) ensures Relates(n, x, z) {
      var w :| Accepts(m, w) && Upper(w) == x && Lower(w) == z;
      assert AcceptsErased(m, Erase(w));
      var w' :| Erase(w') == Erase(w) && Accepts(n, w');
      EraseKeepsTapes(w);
      EraseKeepsTapes(w');
    }
  }

  // ----- Renaming: a worklist construction numbers the states it discovers -----

  ghost predicate Distinct<S>(keys: seq<S>) {
    forall i, j :: 0 <= i < j < |keys| ==> keys[i] != keys[j]
  }

  /**
   `n` is the part of `m` that the states `keys` span, state `keys[i]` renamed to `i`.
   Self loops on 0:0 may be missing, as foma's state builder never emits them.
   */
  ghost predicate Renames<S(!new)>(m: Machine<S>, n: Machine<int>, keys: seq<S>) {
    && Distinct(keys)
    && (forall s :: s in m.starts ==> s in keys)
    && (forall i :: 0 <= i < |keys| ==> (keys[i] in m.starts <==> i in n.starts))
    && (forall i :: 0 <= i < |keys| ==> (keys[i] in m.finals <==> i in n.finals))
    && (forall i :: i in n.starts || i in n.finals ==> 0 <= i < |keys|)
    && (forall a :: a in n.arcs ==> 0 <= a.src < |keys| && 0 <= a.tgt < |keys|
                                    && Arc(keys[a.src], a.lab, keys[a.tgt]) in m.arcs)
    && (forall a :: a in m.arcs && a.src in keys ==> a.tgt in keys)
    && (forall i, j, l :: 0 <= i < |keys| && 0 <= j < |keys| && Arc(keys[i], l, keys[j]) in m.arcs
                          ==> Arc(i, l, j) in n.arcs || (i == j && l == EPSILON_PAIR))
  }

  lemma {:induction false} RenamedBack<S(!new)>(m: Machine<S>, n: Machine<int>, keys: seq<S>, i: int, w: seq<Label>,
                                                j: int)
    requires Renames(m, n, keys) && 0 <= i < |keys| && Reads(n, i, w, j)
    ensures 0 <= j < |keys| && Reads(m, keys[i], w, keys[j])
    decreases |w|
  {
    if w != [] {
      var k :| Arc(i, w[0], k) in n.arcs && Reads(n, k, w[1..], j);
      var a := Arc(i, w[0], k);
      assert a in n.arcs;
      RenamedBack(m, n, keys, k, w[1..], j);
      assert Arc(keys[i], w[0], keys[k]) in m.arcs;
    }
  }

  lemma {:induction false} RenamedForth<S(!new)>(m: Machine<S>, n: Machine<int>, keys: seq<S>, i: int, w: seq<Label>,
                                                 q: S)
    returns (w': seq<Label>, j: int)
    requires Renames(m, n, keys) && 0 <= i < |keys| && Reads(m, keys[i], w, q)
    ensures 0 <= j < |keys| && keys[j] == q && Reads(n, i, w', j) && Erase(w') == Erase(w)
    ensures EPSILON_PAIR !in w ==> w' == w
    decreases |w|
  {
    hide Renames, Erase;
    if w == [] {
      return [], i;
    }
    var r := ReadsHead(m, keys[i], w, q);
    var k := RenamedStep(m, n, keys, i, w[0], r);
    var v;
    v, j := RenamedForth(m, n, keys, k, w[1..], q);
    ErasedHead(w);
    if Arc(i, w[0], k) in n.arcs {
      w' := [w[0]] + v;
      ReadsCons(n, i, w[0], k, v, j);
      ErasedHead(w');
      assert w == [w[0]] + w[1..];
    } else {
      w' := v;
      assert w[0] in w;
    }
  }

  /** One arc of the original is an arc of the renamed machine, unless it is a 0:0 self loop. */
  lemma RenamedStep<S(!new)>(m: Machine<S>, n: Machine<int>, keys: seq<S>, i: int, l: Label, r: S) returns (k: int)
    requires Renames(m, n, keys) && 0 <= i < |keys| && Arc(keys[i], l, r) in m.arcs
    ensures 0 <= k < |keys| && keys[k] == r
    ensures Arc(i, l, k) in n.arcs || (k == i && l == EPSILON_PAIR)
  {
    var a := Arc(keys[i], l, r);
    assert a in m.arcs && a.src in keys;
    k :| 0 <= k < |keys| && keys[k] == r;
  }

  lemma ErasedHead(w: seq<Label>)
    ensures w != [] ==> Erase(w) == (if w[0] == EPSILON_PAIR then [] else [w[0]]) + Erase(w[1..])
    ensures w != [] && w[0] == EPSILON_PAIR ==> Erase(w) == Erase(w[1..])
  {
  }

  lemma RenamedAcceptsBack<S(!new)>(m: Machine<S>, n: Machine<int>, keys: seq<S>, w: seq<Label>)
    requires Renames(m, n, keys) && Accepts(n, w)
    ensures Accepts(m, w)
  {
    hide Reads;
    var p, q := AcceptingPath(n, w);
    RenamedBack(m, n, keys, p, w, q);
  }

  lemma RenamedAcceptsForth<S(!new)>(m: Machine<S>, n: Machine<int>, keys: seq<S>, w: seq<Label>)
    returns (w': seq<Label>)
    requires Renames(m, n, keys) && Accepts(m, w)
    ensures Accepts(n, w') && Erase(w') == Erase(w) && (EPSILON_PAIR !in w ==> w' == w)
  {
    hide Reads, Erase;
    var p, q := AcceptingPath(m, w);
    var i :| 0 <= i < |keys| && keys[i] == p;
    var j;
    w', j := RenamedForth(m, n, keys, i, w, q);
  }

  /** A renaming keeps the words up to 0:0 pairs, and every word free of them literally. */
  lemma RenamingKeepsLanguage<S(!new)>(m: Machine<S>, n: Machine<int>, keys: seq<S>)
    requires Renames(m, n, keys)
    ensures forall v :: AcceptsErased(m, v) <==> AcceptsErased(n, v)
    ensures forall w :: Accepts(n, w) ==> Accepts(m, w)
    ensures forall w :: EPSILON_PAIR !in w ==> (Accepts(m, w) <==> Accepts(n, w))
    ensures forall x, z :: Relates(m, x, z) <==> Relates(n, x, z)
  {
    hide Renames, Accepts, AcceptsErased, Relates, Erase;
    forall w | Accepts(n, w) ensures Accepts(m, w) {
      RenamedAcceptsBack(m, n, keys, w);
    }
    forall w | EPSILON_PAIR !in w && Accepts(m, w) ensures Accepts(n, w) {
      var w' := RenamedAcceptsForth(m, n, keys, w);
    }
    forall v ensures AcceptsErased(m, v) <==> AcceptsErased(n, v) {
      RenamingKeepsErased(m, n, keys, v);
    }
    SameErasedSameRelation(m, n);
    SameErasedSameRelation(n, m);
  }

  lemma RenamingKeepsErased<S(!new)>(m: Machine<S>, n: Machine<int>, keys: seq<S>, v: seq<Label>)
    requires Renames(m, n, keys)
    ensures AcceptsErased(m, v) <==> AcceptsErased(n, v)
  {
    hide Renames, Accepts, Erase;
    if AcceptsErased(m, v) {
      var w :| Erase(w) == v && Accepts(m, w);
      var w' := RenamedAcceptsForth(m, n, keys, w);
    }
    if AcceptsErased(n, v) {
      var w :| Erase(w) == v && Accepts(n, w);
      RenamedAcceptsBack(m, n, keys, w);
    }
  }

  // ----- The array-of-lines encoding -----

  /**
   One line of a net. Lines of the same state are contiguous; a state without arcs has one
   line whose symbols and target are -1. The sentinel line that ends the array in memory
   is the end of the sequence here.
   */
  datatype Line = Line(state: int, upper: int, lower: int, target: int, final: bool, start: bool) {
    function ToLabel(): Label {
      Label(upper, lower)
    }

    function ToArc(): Arc<int> {
      Arc(state, ToLabel(), target)
    }
  }

  ghost function ArcsOf(lines: seq<Line>): iset<Arc<int>> {
    iset l | l in lines && l.target >= 0 :: l.ToArc()
  }

  ghost function MachineOf(lines: seq<Line>): Machine<int> {
    Machine(ArcsOf(lines),
            iset l | l in lines && l.start :: l.state,
            iset l | l in lines && l.final :: l.state)
  }

  /** The line that an arc comes from. */
  lemma ArcLine(lines: seq<Line>, a: Arc<int>) returns (k: int)
    requires a in ArcsOf(lines)
    ensures 0 <= k < |lines| && lines[k].state == a.src && lines[k].ToLabel() == a.lab && lines[k].target == a.tgt >= 0
  {
    var l :| l in lines && l.target >= 0 && l.ToArc() == a;
    assert l.ToArc().src == l.state && l.ToArc().lab == l.ToLabel() && l.ToArc().tgt == l.target;
    k :| 0 <= k < |lines| && lines[k] == l;
  }

  /** What foma's algorithms assume of the `n`-state array they read. */
  ghost predicate WellFormed(lines: seq<Line>, n: nat) {
    && 0 < n
    && (forall i :: 0 <= i < |lines| ==> LineOk(lines[i], n))
    && (forall p :: 0 <= p < n ==> HasState(lines, p))
    && (forall i, j, k :: 0 <= i < j < k < |lines| && lines[i].state == lines[k].state ==>
                          lines[j].state == lines[i].state)
    && (forall i, j :: 0 <= i < j < |lines| && lines[i].state == lines[j].state ==>
                         lines[i].final == lines[j].final && lines[i].start == lines[j].start)
  }

  predicate LineOk(l: Line, n: int) {
    && 0 <= l.state < n
    && (if l.target == -1 then l.upper == -1 && l.lower == -1
        else 0 <= l.target < n && 0 <= l.upper && 0 <= l.lower)
  }

  lemma LineAt(lines: seq<Line>, n: nat, i: int)
    requires WellFormed(lines, n) && 0 <= i < |lines|
    ensures LineOk(lines[i], n)
  {
  }

  ghost predicate HasState(lines: seq<Line>, p: int) {
    exists i :: 0 <= i < |lines| && lines[i].state == p
  }

  /** How many lines have an arc. */
  ghost function ArcCount(lines: seq<Line>): nat {
    if lines == [] then 0
    else ArcCount(lines[..|lines| - 1]) + (if lines[|lines| - 1].target != -1 then 1 else 0)
  }

  /** Every symbol on an arc is at most `max`. */
  ghost predicate SymbolsUpTo(lines: seq<Line>, max: int) {
    forall l :: l in lines ==> l.upper <= max && l.lower <= max
  }

  /** Two lines of one state, one of them with an arc to `d`, are among the first `i`. */
  ghost predicate Forked(lines: seq<Line>, i: int, d: int)
    requires 0 <= i <= |lines|
  {
    exists k, h :: 0 <= k < i && 0 <= h < i && k != h && lines[k].state == lines[h].state && lines[k].target == d
  }

  ghost predicate BuiltBefore(lines: seq<Line>, i: int, d: int)
    requires 0 <= i <= |lines|
  {
    exists k :: 0 <= k < i && lines[k].state == d
  }

  /**
   The order in which foma lays out lines: when a state's line comes, every smaller state
   either has had its own lines or was reached from a state with at least two lines. Nets
   in ascending state order are orderly, and so are nets built by a last-in-first-out worklist.
   */
  ghost predicate Orderly(lines: seq<Line>) {
    forall i, d :: 0 <= i < |lines| && 0 <= d < lines[i].state ==> BuiltBefore(lines, i, d) || Forked(lines, i, d)
  }
}
