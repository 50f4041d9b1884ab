/**
 Merging equal suffixes of the lexicon: states that start the same private chain are replaced by
 one of them, longest chains first, and the others are freed. No entry is gained or lost, and no
 arc of a surviving state leads to a freed one.
 */
module LexiconMerging {
  import opened Automata
  import opened Chains
  import opened PrimeSizes
  import opened Lexicon

  ghost predicate WasMergeable(orig: seq<State>, k: int) {
    0 <= k < |orig| && orig[k].mergeable == MERGEABLE
  }

  /** What the chain of `k` ends in. */
  ghost function ChainEnd(orig: seq<State>, k: int): int {
    var last := k + (if 0 <= k < |orig| then orig[k].distance else 0) - 1;
    if 0 <= last < |orig| && orig[last].trans != [] then orig[last].trans[0].target else -1
  }

  /** The same symbols to the same lexicon state. */
  ghost predicate SameChain(orig: seq<State>, a: int, b: int) {
    && WasMergeable(orig, a) && WasMergeable(orig, b) && orig[a].distance == orig[b].distance
    && ChainWord(orig, a, orig[a].distance) == ChainWord(orig, b, orig[b].distance)
    && ChainEnd(orig, a) == ChainEnd(orig, b)
  }

  /** The `m`th state of a chain. */
  lemma {:induction false} ChainAt(orig: seq<State>, k: int, m: nat)
    requires MarksOk(orig) && WasMergeable(orig, k) && m < orig[k].distance
    ensures WasMergeable(orig, k + m) && orig[k + m].distance == orig[k].distance - m && Link(orig, k + m)
    decreases m
  {
    hide MarksOk, Link;
    if m > 0 {
      ChainAt(orig, k, m - 1);
      NextInChain(orig, k + m - 1);
    } else {
      LinkOfMark(orig, k);
    }
  }

  lemma LinkOfMark(orig: seq<State>, k: int)
    requires MarksOk(orig) && WasMergeable(orig, k)
    ensures Link(orig, k) && 1 <= orig[k].distance
  {
    assert MarkOk(orig, k);
  }

  lemma NextInChain(orig: seq<State>, k: int)
    requires MarksOk(orig) && WasMergeable(orig, k) && 1 < orig[k].distance
    ensures WasMergeable(orig, k + 1) && orig[k + 1].distance == orig[k].distance - 1 && Link(orig, k + 1)
  {
    assert MarkOk(orig, k);
    LinkOfMark(orig, k + 1);
  }

  lemma {:induction false} ChainLabel(orig: seq<State>, k: int, m: nat)
    requires MarksOk(orig) && WasMergeable(orig, k) && m < orig[k].distance
    ensures |ChainWord(orig, k, orig[k].distance)| == orig[k].distance
    ensures 0 <= k + m < |orig| && orig[k + m].trans != []
    ensures ChainWord(orig, k, orig[k].distance)[m] == orig[k + m].trans[0].lab
    decreases orig[k].distance
  {
    assert MarkOk(orig, k);
    ChainAt(orig, k, m);
    if orig[k].distance > 1 {
      ChainLabel(orig, k + 1, if m > 0 then m - 1 else 0);
    } else {
      assert ChainWord(orig, k + 1, 0) == [];
    }
  }

  lemma OneArcEntry(orig: seq<State>, k: int, t: Trans, w: seq<Label>, q: int)
    requires 0 <= k < |orig| && orig[k].trans == [t]
    ensures Entry(orig, k, w, q) <==> w != [] && Continues(orig, t, w, q)
  {
  }

  /** A chain has one entry: its word, to its end. */
  lemma {:induction false} ChainEntry(orig: seq<State>, k: int, w: seq<Label>, q: int)
    requires MarksOk(orig) && WasMergeable(orig, k)
    ensures Entry(orig, k, w, q) <==> w == ChainWord(orig, k, orig[k].distance) && q == ChainEnd(orig, k)
    decreases orig[k].distance
  {
    hide HashOk, Entry;
    assert MarkOk(orig, k);
    var t := orig[k].trans[0];
    OneArcEntry(orig, k, t, w, q);
    if orig[k].distance == 1 {
      assert ChainWord(orig, k + 1, 0) == [];
    } else {
      assert MarkOk(orig, k + 1);
      if w != [] {
        ChainEntry(orig, k + 1, w[1..], q);
        assert w == [w[0]] + w[1..];
      }
    }
  }

  /** A lexicon state is named by itself. */
  ghost predicate LexiconsNamed(orig: seq<State>) {
    forall k :: 0 <= k < |orig| ==> orig[k].lexstate == -1 || orig[k].lexstate == k
  }

  /** `one` and `two` are `m` steps along the two chains, or at their ends. */
  ghost predicate AtStep(orig: seq<State>, a: int, b: int, m: nat, one: int, two: int) {
    && WasMergeable(orig, a) && WasMergeable(orig, b) && m <= orig[a].distance == orig[b].distance
    && 0 <= one < |orig| && 0 <= two < |orig|
    && (m < orig[a].distance ==> one == a + m && two == b + m)
    && (m == orig[a].distance ==> one == ChainEnd(orig, a) && two == ChainEnd(orig, b) && IsLexicon(orig, one)
                                  && IsLexicon(orig, two))
  }

  lemma StepOn(orig: seq<State>, a: int, b: int, m: nat, one: int, two: int)
    requires MarksOk(orig) && AtStep(orig, a, b, m, one, two) && m < orig[a].distance
    ensures orig[one].lexstate == -1 && orig[two].lexstate == -1 && orig[one].trans != [] && orig[two].trans != []
    ensures AtStep(orig, a, b, m + 1, orig[one].trans[0].target, orig[two].trans[0].target)
    ensures |ChainWord(orig, a, orig[a].distance)| == |ChainWord(orig, b, orig[b].distance)| == orig[a].distance
    ensures ChainWord(orig, a, orig[a].distance)[m] == orig[one].trans[0].lab
    ensures ChainWord(orig, b, orig[b].distance)[m] == orig[two].trans[0].lab
  {
    hide MarksOk, ChainWord;
    ChainAt(orig, a, m);
    ChainAt(orig, b, m);
    ChainLabel(orig, a, m);
    ChainLabel(orig, b, m);
  }

  /** Compares two chains symbol by symbol. */
  method EqPaths(states: seq<State>, a: int, b: int, ghost orig: seq<State>) returns (equal: bool)
    requires MarksOk(orig) && LexiconsNamed(orig) && MarksChanged(orig, states) && WasMergeable(orig, a)
             && WasMergeable(orig, b)
    requires orig[a].distance == orig[b].distance
    ensures equal <==> SameChain(orig, a, b)
  {
    hide MarksOk, ChainWord, SuffixHash, ChainEnd, Link;
    var one, two := a, b;
    ghost var m, d := 0, orig[a].distance;
    DistancePositive(orig, a);
    StepOn(orig, a, b, 0, a, b);
    while states[one].lexstate == -1 && states[two].lexstate == -1
      invariant AtStep(orig, a, b, m, one, two)
      invariant forall j :: 0 <= j < m ==> ChainWord(orig, a, d)[j] == ChainWord(orig, b, d)[j]
      decreases d - m
    {
      assert MarkChanged(orig[one], states[one]) && MarkChanged(orig[two], states[two]);
      StepOn(orig, a, b, m, one, two);
      if states[one].trans[0].lab != states[two].trans[0].lab {
        return false;
      }
      one := states[one].trans[0].target;
      two := states[two].trans[0].target;
      m := m + 1;
    }
    assert MarkChanged(orig[one], states[one]) && MarkChanged(orig[two], states[two]);
    if m < d {
      StepOn(orig, a, b, m, one, two);
    }
    equal := states[one].lexstate == states[two].lexstate;
  }

  lemma DistancePositive(orig: seq<State>, k: int)
    requires MarksOk(orig) && WasMergeable(orig, k)
    ensures orig[k].distance >= 1 && k + orig[k].distance <= |orig|
  {
    assert MarkOk(orig, k);
    LinkedFits(orig, k);
  }

  // ----- Marks while merging -----

  /** Everything but the merge marks is as it was, and marks only go from mergeable to merged. */
  ghost predicate MarksChanged(orig: seq<State>, states: seq<State>) {
    && |states| == |orig|
    && forall k :: 0 <= k < |orig| ==> MarkChanged(orig[k], states[k])
  }

  ghost predicate MarkChanged(s: State, s': State) {
    && s' == s.(mergeable := s'.mergeable, mergeWith := s'.mergeWith)
    && (s'.mergeable == s.mergeable || (s.mergeable == MERGEABLE && s'.mergeable == MERGED))
  }

  predicate Live(states: seq<State>, k: int) {
    0 <= k < |states| && states[k].mergeable != MERGED
  }

  ghost predicate StillMergeable(states: seq<State>, k: int) {
    0 <= k < |states| && states[k].mergeable == MERGEABLE
  }

  /** A merged state knows the survivor with the same chain; a purged one was inside a merged chain. */
  ghost predicate MergeOk(orig: seq<State>, states: seq<State>, k: int, level: int, settled: set<int>)
    requires 0 <= k < |orig| == |states|
  {
    var r := states[k].mergeWith;
    if r != k then
      states[k].mergeable == MERGED && SameChain(orig, k, r) && StillMergeable(states, r)
      && Done(orig, level, settled, r)
    else
      states[k].mergeable == MERGED ==> InMergedChain(orig, states, k)
  }

  ghost predicate InMergedChain(orig: seq<State>, states: seq<State>, k: int)
    requires 0 <= k < |orig| == |states|
  {
    k > 0 && WasMergeable(orig, k - 1) && orig[k - 1].distance == orig[k].distance + 1
    && states[k - 1].mergeable == MERGED
  }

  /** Of equal chains longer than `level`, or settled at it, at most one is left. */
  ghost predicate Unique(orig: seq<State>, states: seq<State>, level: int, settled: set<int>) {
    forall a, b :: StillMergeable(states, a) && StillMergeable(states, b) && SameChain(orig, a, b)
                   && Done(orig, level, settled, a) ==>
                     a == b
  }

  ghost predicate Done(orig: seq<State>, level: int, settled: set<int>, a: int) {
    0 <= a < |orig| && (orig[a].distance > level || (orig[a].distance == level && a in settled))
  }

  /** The chain that the newest state is part of is untouched. */
  ghost predicate FrontLive(orig: seq<State>, states: seq<State>) {
    forall k :: WasMergeable(orig, k) && k + orig[k].distance == |orig| ==> Live(states, k)
  }

  ghost predicate AllMergeOk(orig: seq<State>, states: seq<State>, level: int, settled: set<int>) {
    |states| == |orig| && forall k :: 0 <= k < |orig| ==> MergeOk(orig, states, k, level, settled)
  }

  /**
   What merging keeps between two states that it works on; those of length `level` in `settled` have been
   worked on.
   */
  ghost predicate Merging(orig: seq<State>, states: seq<State>, level: int, settled: set<int>) {
    && MarksChanged(orig, states) && AllMergeOk(orig, states, level, settled)
    && Unique(orig, states, level, settled) && FrontLive(orig, states)
  }

  /** The same while it works on `r`: others may have been sent to `r`, but equal chains may be left. */
  ghost predicate Working(orig: seq<State>, states: seq<State>, level: int, settled: set<int>, r: int) {
    && MarksChanged(orig, states) && AllMergeOk(orig, states, level, settled + {r})
    && Unique(orig, states, level, settled) && FrontLive(orig, states)
    && StillMergeable(states, r) && WasMergeable(orig, r) && orig[r].distance == level
  }

  /** The states after the chain of `c` has been purged and `c` sent to `r`. */
  ghost function Purged(states: seq<State>, c: int, d: int, r: int): seq<State>
    requires 0 <= c && 0 < d && c + d <= |states|
  {
    seq(|states|, k requires 0 <= k < |states| =>
      if k == c then states[k].(mergeWith := r, mergeable := MERGED)
      else if c <= k < c + d then states[k].(mergeable := MERGED) else states[k])
  }

  lemma PurgedMarks(orig: seq<State>, states: seq<State>, c: int, r: int)
    requires MarksOk(orig) && MarksChanged(orig, states) && WasMergeable(orig, c)
    ensures 0 < orig[c].distance && c + orig[c].distance <= |orig|
    ensures MarksChanged(orig, Purged(states, c, orig[c].distance, r))
  {
    hide MarksOk;
    DistancePositive(orig, c);
    var states' := Purged(states, c, orig[c].distance, r);
    forall k | 0 <= k < |orig| ensures MarkChanged(orig[k], states'[k]) {
      assert MarkChanged(orig[k], states[k]);
      if c <= k < c + orig[c].distance {
        ChainAt(orig, c, k - c);
      }
    }
  }

  /** What merging `c` into `r` on this level starts from. */
  ghost predicate CanMerge(orig: seq<State>, states: seq<State>, level: int, settled: set<int>, c: int, r: int) {
    && StillMergeable(states, c) && StillMergeable(states, r) && c != r && SameChain(orig, c, r)
       && orig[r].distance == level
  }

  /** Merging `c` into `r`, the state at work, keeps everything. */
  lemma MergedOk(orig: seq<State>, states: seq<State>, level: int, settled: set<int>, c: int, r: int)
    requires MarksOk(orig) && Working(orig, states, level, settled, r) && CanMerge(orig, states, level, settled, c, r)
    ensures 0 < level && c + level <= |orig| && AllMergeOk(orig, Purged(states, c, level, r), level, settled + {r})
  {
    hide MarksOk, SameChain, Link, MergeOk, Purged;
    SameLength(orig, c, r);
    PurgedMarks(orig, states, c, r);
    forall k | 0 <= k < |orig| ensures MergeOk(orig, Purged(states, c, level, r), k, level, settled + {r}) {
      if c <= k < c + level {
        MergedInside(orig, states, level, settled, c, r, k);
      } else {
        MergedOutside(orig, states, level, settled, c, r, k);
      }
    }
  }

  lemma MergedOutside(orig: seq<State>, states: seq<State>, level: int, settled: set<int>, c: int, r: int, k: int)
    requires MarksOk(orig) && Working(orig, states, level, settled, r) && CanMerge(orig, states, level, settled, c, r)
    requires 0 <= k < |orig| && !(c <= k < c + level) && 0 <= c && 0 < level && c + level <= |orig|
    ensures MergeOk(orig, Purged(states, c, level, r), k, level, settled + {r})
  {
    hide MarksOk, SameChain, Link;
    SameLength(orig, c, r);
    TargetOutside(orig, states, level, settled, c, r, k);
    assert MergeOk(orig, states, k, level, settled + {r});
  }

  lemma MergedInside(orig: seq<State>, states: seq<State>, level: int, settled: set<int>, c: int, r: int, k: int)
    requires MarksOk(orig) && Working(orig, states, level, settled, r) && CanMerge(orig, states, level, settled, c, r)
    requires 0 <= c <= k < c + level <= |orig| && 0 < level
    ensures MergeOk(orig, Purged(states, c, level, r), k, level, settled + {r})
  {
    hide MarksOk, SameChain, Link;
    SameLength(orig, c, r);
    DistancePositive(orig, c);
    ChainAt(orig, c, k - c);
    assert MergeOk(orig, states, k, level, settled + {r});
    if k > c {
      ChainAt(orig, c, k - c - 1);
      if states[k].mergeWith != k {
        SameLength(orig, k, states[k].mergeWith);
      }
    } else if c <= r < c + level {
      ChainAt(orig, c, r - c);
    }
  }

  lemma SameLength(orig: seq<State>, a: int, b: int)
    requires SameChain(orig, a, b)
    ensures WasMergeable(orig, a) && WasMergeable(orig, b) && orig[a].distance == orig[b].distance
  {
  }

  /** The survivor that an earlier merge chose is not purged now. */
  lemma TargetOutside(orig: seq<State>, states: seq<State>, level: int, settled: set<int>, c: int, r: int, k: int)
    requires MarksOk(orig) && Working(orig, states, level, settled, r) && CanMerge(orig, states, level, settled, c, r)
             && 0 <= k < |orig|
    ensures var t := states[k].mergeWith; t != k ==> !(c <= t < c + level)
  {
    hide MarksOk, SameChain, Link;
    SameLength(orig, c, r);
    assert MergeOk(orig, states, k, level, settled + {r});
    var t := states[k].mergeWith;
    if t != k && c <= t < c + level {
      SameLength(orig, k, t);
      ChainAt(orig, c, t - c);
    }
  }

  /** The front chain of this length, if there is one, has had its turn. */
  ghost predicate FrontFirst(orig: seq<State>, level: int, settled: set<int>, r: int) {
    forall f :: WasMergeable(orig, f) && orig[f].distance == level && f + level == |orig| ==> f in settled || f == r
  }

  lemma FrontKept(orig: seq<State>, states: seq<State>, level: int, settled: set<int>, c: int, r: int)
    requires MarksOk(orig) && Working(orig, states, level, settled, r) && CanMerge(orig, states, level, settled, c, r)
    requires FrontFirst(orig, level, settled, r) && 0 <= c && 0 < level && c + level <= |orig|
    ensures FrontLive(orig, Purged(states, c, level, r))
  {
    hide MarksOk, SameChain, Link;
    SameLength(orig, c, r);
    forall k | WasMergeable(orig, k) && k + orig[k].distance == |orig| ensures Live(Purged(states, c, level, r), k) {
      assert Live(states, k);
      if c <= k < c + level {
        ChainAt(orig, c, k - c);
        NotSettled(orig, states, level, settled, c, r);
      }
    }
  }

  lemma NotSettled(orig: seq<State>, states: seq<State>, level: int, settled: set<int>, c: int, r: int)
    requires Unique(orig, states, level, settled) && CanMerge(orig, states, level, settled, c, r)
    ensures c !in settled
  {
    SameLength(orig, c, r);
  }

  lemma UniqueKept(orig: seq<State>, states: seq<State>, level: int, settled: set<int>, c: int, r: int)
    requires Unique(orig, states, level, settled) && 0 <= c && 0 < level && c + level <= |states|
    ensures Unique(orig, Purged(states, c, level, r), level, settled)
  {
    hide SameChain, Done;
    var states' := Purged(states, c, level, r);
    assert forall a :: StillMergeable(states', a) ==> StillMergeable(states, a);
  }

  /** The whole step. */
  lemma MergeStep(orig: seq<State>, states: seq<State>, level: int, settled: set<int>, c: int, r: int)
    requires MarksOk(orig) && Working(orig, states, level, settled, r) && CanMerge(orig, states, level, settled, c, r)
    requires FrontFirst(orig, level, settled, r)
    ensures 0 <= c && 0 < level && c + level <= |orig| == |states|
    ensures Working(orig, Purged(states, c, level, r), level, settled, r)
  {
    hide MarksOk, SameChain, MergeOk, Purged, FrontLive, Unique;
    SameLength(orig, c, r);
    MergedOk(orig, states, level, settled, c, r);
    PurgedMarks(orig, states, c, r);
    FrontKept(orig, states, level, settled, c, r);
    UniqueKept(orig, states, level, settled, c, r);
    WorkerStays(orig, states, level, c, r);
  }

  lemma WorkerStays(orig: seq<State>, states: seq<State>, level: int, c: int, r: int)
    requires MarksOk(orig) && MarksChanged(orig, states) && StillMergeable(states, r) && WasMergeable(orig, r)
             && orig[r].distance == level
    requires WasMergeable(orig, c) && orig[c].distance == level && c != r && 0 < level && c + level <= |orig|
    ensures StillMergeable(Purged(states, c, level, r), r)
  {
    hide MarksOk, Link;
    if c <= r < c + level {
      ChainAt(orig, c, r - c);
    }
  }

  // ----- The lists by length and by hash -----

  function HashSlot(s: State, tableSize: int): (h: int)
    requires 0 < tableSize
    ensures 0 <= h < tableSize
  {
    (s.hashval as int) % tableSize
  }

  /** The mergeable states of one length from `from` on: the newest first, none forgotten, none twice. */
  ghost predicate LengthList(list: seq<int>, orig: seq<State>, d: nat, from: int) {
    && Distinct(list)
    && (forall i :: 0 <= i < |list| ==> WasMergeable(orig, list[i]) && orig[list[i]].distance == d
                                        && from <= list[i] <= list[0])
    && (forall k :: from <= k && WasMergeable(orig, k) && orig[k].distance == d ==> k in list)
  }

  /** The mergeable states of one hash from `from` on: none forgotten, none twice. */
  ghost predicate HashList(list: seq<int>, orig: seq<State>, tableSize: int, h: int, from: int)
    requires 0 < tableSize
  {
    && Distinct(list)
    && (forall i :: 0 <= i < |list| ==> WasMergeable(orig, list[i]) && from <= list[i]
                                        && HashSlot(orig[list[i]], tableSize) == h)
    && (forall k :: from <= k && WasMergeable(orig, k) && HashSlot(orig[k], tableSize) == h ==> k in list)
  }

  lemma ChainedOnce(list: seq<int>, k: int)
    requires Distinct(list) && forall i :: 0 <= i < |list| ==> k < list[i]
    ensures Distinct(Chained(list, k))
  {
  }

  lemma LengthMore(list: seq<int>, orig: seq<State>, d: nat, k: int)
    requires LengthList(list, orig, d, k + 1) && 0 <= k < |orig|
    ensures WasMergeable(orig, k) && orig[k].distance == d ==> LengthList(Chained(list, k), orig, d, k)
    ensures !(WasMergeable(orig, k) && orig[k].distance == d) ==> LengthList(list, orig, d, k)
  {
    if WasMergeable(orig, k) && orig[k].distance == d {
      var list' := Chained(list, k);
      ChainedOnce(list, k);
      forall i | 0 <= i < |list'|
        ensures WasMergeable(orig, list'[i]) && orig[list'[i]].distance == d && k <= list'[i] <= list'[0]
      {
        assert list'[i] in list';
        if list'[i] != k {
          var j :| 0 <= j < |list| && list[j] == list'[i];
        }
      }
    }
  }

  lemma HashMore(list: seq<int>, orig: seq<State>, tableSize: int, h: int, k: int)
    requires 0 < tableSize && HashList(list, orig, tableSize, h, k + 1) && 0 <= k < |orig|
    ensures WasMergeable(orig, k) && HashSlot(orig[k], tableSize) == h ==>
              HashList(Chained(list, k), orig, tableSize, h, k)
    ensures !(WasMergeable(orig, k) && HashSlot(orig[k], tableSize) == h) ==> HashList(list, orig, tableSize, h, k)
  {
    hide HashSlot;
    if WasMergeable(orig, k) && HashSlot(orig[k], tableSize) == h {
      var list' := Chained(list, k);
      ChainedOnce(list, k);
      forall i | 0 <= i < |list'|
        ensures WasMergeable(orig, list'[i]) && k <= list'[i] && HashSlot(orig[list'[i]], tableSize) == h
      {
        assert list'[i] in list';
        if list'[i] != k {
          var j :| 0 <= j < |list| && list[j] == list'[i];
        }
      }
    }
  }

  lemma EmptyLists(orig: seq<State>, tableSize: int)
    requires 0 < tableSize
    ensures forall d: nat :: LengthList([], orig, d, |orig|)
    ensures forall h :: HashList([], orig, tableSize, h, |orig|)
  {
  }

  /** The smallest table size that is at least a quarter of the number of mergeable states. */
  method TableSize(states: seq<State>) returns (size: int)
    requires |states| <= 0x7fff_ffff
    ensures 0 < size
  {
    hide Primes;
    var numstates := 0;
    var k := |states|;
    while k > 0
      invariant 0 <= k <= |states| && 0 <= numstates <= |states| - k
    {
      k := k - 1;
      if states[k].mergeable != FIXED {
        numstates := numstates + 1;
      }
    }
    BelowLastPrime(numstates / 4);
    var i := 0;
    while Primes()[i] < numstates / 4
      invariant 0 <= i <= 25
      decreases 25 - i
    {
      i := i + 1;
    }
    PrimesPositive(i);
    size := Primes()[i];
  }

  /** Goes through the states from the newest to the oldest and lists the mergeable ones by length and by hash. */
  method BuildLists(states: seq<State>, maxlen: nat, tableSize: int)
    returns (lengths: array<seq<int>>, hashes: array<seq<int>>)
    requires MarksOk(states) && Bounded(states, maxlen) && 0 < tableSize
    ensures fresh(lengths) && fresh(hashes) && lengths.Length == maxlen + 1 && hashes.Length == tableSize
    ensures forall d :: 0 <= d <= maxlen ==> LengthList(lengths[d], states, d, 0)
    ensures forall h :: 0 <= h < tableSize ==> HashList(hashes[h], states, tableSize, h, 0)
  {
    hide MarksOk, LengthList, HashList, HashSlot, Chained;
    lengths := new seq<int>[maxlen + 1](_ => []);
    hashes := new seq<int>[tableSize](_ => []);
    EmptyLists(states, tableSize);
    var k := |states|;
    while k > 0
      invariant 0 <= k <= |states| && lengths != hashes
      invariant forall d :: 0 <= d <= maxlen ==> LengthList(lengths[d], states, d, k)
      invariant forall h :: 0 <= h < tableSize ==> HashList(hashes[h], states, tableSize, h, k)
    {
      k := k - 1;
      forall d | 0 <= d <= maxlen
        ensures WasMergeable(states, k) && states[k].distance == d ==> LengthList(Chained(lengths[d], k), states, d, k)
        ensures !(WasMergeable(states, k) && states[k].distance == d) ==> LengthList(lengths[d], states, d, k)
      {
        LengthMore(lengths[d], states, d, k);
      }
      forall h | 0 <= h < tableSize
        ensures WasMergeable(states, k) && HashSlot(states[k], tableSize) == h ==>
                  HashList(Chained(hashes[h], k), states, tableSize, h, k)
        ensures !(WasMergeable(states, k) && HashSlot(states[k], tableSize) == h) ==>
                  HashList(hashes[h], states, tableSize, h, k)
      {
        HashMore(hashes[h], states, tableSize, h, k);
      }
      MarkKinds(states, k);
      if states[k].mergeable != FIXED {
        var d, h := states[k].distance, HashSlot(states[k], tableSize);
        lengths[d] := Chained(lengths[d], k);
        hashes[h] := Chained(hashes[h], k);
      }
    }
  }

  lemma MarkKinds(states: seq<State>, k: int)
    requires MarksOk(states) && 0 <= k < |states|
    ensures states[k].mergeable == FIXED || states[k].mergeable == MERGEABLE
  {
    assert MarkOk(states, k);
  }

  // ----- Merging -----

  /** Purges the chain of `c` after sending it to `r`. */
  method PurgeChain(states: seq<State>, c: int, r: int, ghost orig: seq<State>) returns (states': seq<State>)
    requires MarksOk(orig) && MarksChanged(orig, states) && WasMergeable(orig, c)
    ensures 0 <= c && 0 < orig[c].distance && c + orig[c].distance <= |states|
    ensures states' == Purged(states, c, orig[c].distance, r)
  {
    hide MarksOk, Link, MarksChanged;
    ghost var d, m := orig[c].distance, 0;
    DistancePositive(orig, c);
    SameCount(orig, states);
    states' := states[c := states[c].(mergeWith := r)];
    var p := c;
    ChainAt(orig, c, 0);
    SameState(orig, states, c);
    while states'[p].lexstate == -1
      invariant 0 <= m <= d && |states'| == |states| && 0 <= p < |states|
      invariant m < d ==> p == c + m
      invariant m == d ==> IsLexicon(orig, p)
      invariant forall k :: 0 <= k < |states| ==>
                  states'[k] == (if k == c then states[k].(mergeWith := r,
                                                           mergeable := if m > 0 then MERGED else states[k].mergeable)
                                 else if c <= k < c + m then states[k].(mergeable := MERGED) else states[k])
      decreases d - m
    {
      SameState(orig, states, p);
      ChainAt(orig, c, m);
      LinkTarget(orig, c + m);
      states' := states'[p := states'[p].(mergeable := MERGED)];
      p := states'[p].trans[0].target;
      m := m + 1;
      LinkTarget(orig, c + m - 1);
      if m < d {
        ChainAt(orig, c, m);
      }
    }
    SameState(orig, states, p);
    if m < d {
      ChainAt(orig, c, m);
      LinkTarget(orig, c + m);
    }
    assert states' == Purged(states, c, d, r);
  }

  lemma SameCount(orig: seq<State>, states: seq<State>)
    requires MarksChanged(orig, states)
    ensures |states| == |orig|
  {
  }

  lemma SameState(orig: seq<State>, states: seq<State>, k: int)
    requires MarksChanged(orig, states) && 0 <= k < |orig|
    ensures states[k].trans == orig[k].trans && states[k].lexstate == orig[k].lexstate
            && states[k].distance == orig[k].distance
    ensures states[k].mergeable == MERGEABLE ==> orig[k].mergeable == MERGEABLE
    ensures states[k].hashval == orig[k].hashval
  {
    assert MarkChanged(orig[k], states[k]);
  }

  lemma LinkTarget(orig: seq<State>, k: int)
    requires 0 <= k < |orig| && Link(orig, k)
    ensures orig[k].lexstate == -1 && orig[k].trans != []
    ensures if orig[k].distance == 1 then IsLexicon(orig, orig[k].trans[0].target) else orig[k].trans[0].target == k + 1
  {
  }

  lemma SettledMore(orig: seq<State>, states: seq<State>, level: int, settled: set<int>, more: set<int>)
    requires AllMergeOk(orig, states, level, settled) && settled <= more
    ensures AllMergeOk(orig, states, level, more)
  {
    hide SameChain;
    forall k | 0 <= k < |orig| ensures MergeOk(orig, states, k, level, more) {
      assert MergeOk(orig, states, k, level, settled);
    }
  }

  lemma StartWorking(orig: seq<State>, states: seq<State>, level: int, settled: set<int>, r: int)
    requires Merging(orig, states, level, settled) && StillMergeable(states, r) && WasMergeable(orig, r)
             && orig[r].distance == level
    ensures Working(orig, states, level, settled, r)
  {
    hide MergeOk, Unique, FrontLive, MarksChanged;
    SettledMore(orig, states, level, settled, settled + {r});
  }

  /** A state that has been merged already needs no work. */
  lemma SkipMerged(orig: seq<State>, states: seq<State>, level: int, settled: set<int>, r: int)
    requires Merging(orig, states, level, settled) && !StillMergeable(states, r)
    ensures Merging(orig, states, level, settled + {r})
  {
    hide MergeOk, FrontLive, MarksChanged, SameChain;
    SettledMore(orig, states, level, settled, settled + {r});
  }

  /** Nothing in the bucket can be merged into `r` any more. */
  ghost predicate NothingToMerge(orig: seq<State>, states: seq<State>, bucket: seq<int>, j: int, level: int,
                                 settled: set<int>, r: int) {
    forall i :: 0 <= i < j && i < |bucket| ==> !CanMerge(orig, states, level, settled, bucket[i], r)
  }

  lemma StillNothing(orig: seq<State>, states: seq<State>, bucket: seq<int>, j: int, level: int, settled: set<int>,
                     c: int, r: int)
    requires NothingToMerge(orig, states, bucket, j, level, settled, r) && 0 <= j < |bucket| && bucket[j] == c
    requires 0 <= c && 0 < level && c + level <= |states|
    ensures NothingToMerge(orig, Purged(states, c, level, r), bucket, j + 1, level, settled, r)
  {
    hide SameChain;
    var states' := Purged(states, c, level, r);
    assert forall a :: StillMergeable(states', a) ==> StillMergeable(states, a);
    assert !StillMergeable(states', c);
  }

  /** Merges into `r` whatever in the bucket starts the same chain. */
  method MergeBucket(states0: seq<State>, bucket: seq<int>, r: int, ghost orig: seq<State>, ghost level: int,
                     ghost settled: set<int>)
    returns (states: seq<State>)
    requires MarksOk(orig) && LexiconsNamed(orig) && Working(orig, states0, level, settled, r)
             && FrontFirst(orig, level, settled, r)
    requires forall i :: 0 <= i < |bucket| ==> WasMergeable(orig, bucket[i])
    ensures Working(orig, states, level, settled, r)
    ensures NothingToMerge(orig, states, bucket, |bucket|, level, settled, r)
  {
    hide MarksOk, SameChain, AllMergeOk, Unique, FrontLive, FrontFirst, LexiconsNamed, Purged, NothingToMerge;
    states := states0;
    NothingYet(orig, states, bucket, level, settled, r);
    var j := 0;
    while j < |bucket|
      invariant 0 <= j <= |bucket| && Working(orig, states, level, settled, r)
      invariant NothingToMerge(orig, states, bucket, j, level, settled, r)
    {
      var c := bucket[j];
      SameCount(orig, states);
      SameState(orig, states, c);
      SameState(orig, states, r);
      var same := false;
      if c != r && states[c].mergeable == MERGEABLE && states[c].distance == states[r].distance {
        same := EqPaths(states, c, r, orig);
      }
      if same {
        MergeStep(orig, states, level, settled, c, r);
        StillNothing(orig, states, bucket, j, level, settled, c, r);
        states := PurgeChain(states, c, r, orig);
      } else {
        NoMergeHere(orig, states, bucket, j, level, settled, r);
      }
      j := j + 1;
    }
  }

  lemma NothingYet(orig: seq<State>, states: seq<State>, bucket: seq<int>, level: int, settled: set<int>, r: int)
    ensures NothingToMerge(orig, states, bucket, 0, level, settled, r)
  {
  }

  lemma NoMergeHere(orig: seq<State>, states: seq<State>, bucket: seq<int>, j: int, level: int, settled: set<int>,
                    r: int)
    requires NothingToMerge(orig, states, bucket, j, level, settled, r) && 0 <= j < |bucket|
    requires MarksChanged(orig, states) && WasMergeable(orig, bucket[j]) && WasMergeable(orig, r)
    requires bucket[j] == r || states[bucket[j]].mergeable != MERGEABLE
             || states[bucket[j]].distance != states[r].distance
             || !SameChain(orig, bucket[j], r)
    ensures NothingToMerge(orig, states, bucket, j + 1, level, settled, r)
  {
    hide ChainWord, ChainEnd;
    SameState(orig, states, bucket[j]);
    SameState(orig, states, r);
  }

  /** Equal chains have equal hashes. */
  lemma SameHash(orig: seq<State>, a: int, b: int, tableSize: int)
    requires MarksOk(orig) && SameChain(orig, a, b) && 0 < tableSize
    ensures HashSlot(orig[a], tableSize) == HashSlot(orig[b], tableSize) && SameChain(orig, b, a)
  {
    hide SuffixHash, ChainWord, ChainEnd, MarkOk;
    assert HashOk(orig, a) && HashOk(orig, b);
  }

  /** When the bucket has been searched, `r` is settled. */
  lemma Settled(orig: seq<State>, states: seq<State>, bucket: seq<int>, tableSize: int, level: int, settled: set<int>,
                r: int)
    requires MarksOk(orig) && Working(orig, states, level, settled, r) && 0 < tableSize
    requires HashList(bucket, orig, tableSize, HashSlot(orig[r], tableSize), 0)
    requires NothingToMerge(orig, states, bucket, |bucket|, level, settled, r)
    ensures Merging(orig, states, level, settled + {r})
  {
    hide MarksOk, SameChain, MergeOk, HashSlot, FrontLive, MarksChanged;
    forall a, b | StillMergeable(states, a) && StillMergeable(states, b) && SameChain(orig, a, b)
    && Done(orig, level, settled + {r}, a)
      ensures a == b
    {
      if a == r {
        SameHash(orig, a, b, tableSize);
        SameLength(orig, a, b);
        assert b in bucket;
        var i :| 0 <= i < |bucket| && bucket[i] == b;
        assert !CanMerge(orig, states, level, settled, bucket[i], r);
      } else {
        assert Done(orig, level, settled, a);
      }
    }
  }

  ghost function FirstOf(list: seq<int>, i: int): (r: set<int>)
    requires 0 <= i <= |list|
    ensures forall x :: x in r <==> x in list[..i]
  {
    set x | x in list[..i]
  }

  lemma FrontIsFirst(orig: seq<State>, list: seq<int>, level: nat, i: int)
    requires MarksOk(orig) && LengthList(list, orig, level, 0) && 0 <= i < |list|
    ensures FrontFirst(orig, level, FirstOf(list, i), list[i])
  {
    hide MarksOk;
    forall f | WasMergeable(orig, f) && orig[f].distance == level && f + level == |orig|
      ensures f in FirstOf(list, i) || f == list[i]
    {
      var j :| 0 <= j < |list| && list[j] == f;
      DistancePositive(orig, list[0]);
      assert list[0] == f;
      assert i > 0 ==> list[..i][0] == f;
    }
  }

  /** All chains of one length. */
  method MergeLevel(states0: seq<State>, list: seq<int>, hashes: array<seq<int>>, level: nat, ghost orig: seq<State>)
    returns (states: seq<State>)
    requires MarksOk(orig) && LexiconsNamed(orig) && Merging(orig, states0, level, {})
             && LengthList(list, orig, level, 0)
    requires 0 < hashes.Length && forall h :: 0 <= h < hashes.Length ==> HashList(hashes[h], orig, hashes.Length, h, 0)
    ensures Merging(orig, states, level - 1, {})
  {
    hide MarksOk, Merging, LexiconsNamed, LengthList, HashList, HashSlot, NothingToMerge, FrontFirst, WasMergeable,
         Working;
    states := states0;
    assert FirstOf(list, 0) == {};
    var i := 0;
    while i < |list|
      invariant 0 <= i <= |list| && Merging(orig, states, level, FirstOf(list, i))
    {
      states := SettleState(states, list, i, hashes, level, orig);
      i := i + 1;
    }
    LevelDone(orig, states, list, level);
  }

  method SettleState(states0: seq<State>, list: seq<int>, i: int, hashes: array<seq<int>>, level: nat,
                     ghost orig: seq<State>) returns (states: seq<State>)
    requires MarksOk(orig) && LexiconsNamed(orig) && LengthList(list, orig, level, 0) && 0 <= i < |list|
    requires Merging(orig, states0, level, FirstOf(list, i))
    requires 0 < hashes.Length && forall h :: 0 <= h < hashes.Length ==> HashList(hashes[h], orig, hashes.Length, h, 0)
    ensures Merging(orig, states, level, FirstOf(list, i + 1))
  {
    hide MarksOk, LexiconsNamed, NothingToMerge, FrontFirst, Working, AllMergeOk, Unique, FrontLive;
    var r := list[i];
    ghost var settled := FirstOf(list, i);
    states := states0;
    SameCount(orig, states);
    SameState(orig, states, r);
    NextFirst(list, i);
    if states[r].mergeable != MERGEABLE {
      SkipMerged(orig, states, level, settled, r);
      return;
    }
    StartWorking(orig, states, level, settled, r);
    FrontIsFirst(orig, list, level, i);
    var bucket := hashes[HashSlot(states[r], hashes.Length)];
    states := MergeBucket(states, bucket, r, orig, level, settled);
    Settled(orig, states, bucket, hashes.Length, level, settled, r);
  }

  lemma NextFirst(list: seq<int>, i: int)
    requires 0 <= i < |list|
    ensures FirstOf(list, i + 1) == FirstOf(list, i) + {list[i]}
  {
    assert list[..i + 1] == list[..i] + [list[i]];
  }

  lemma LevelDone(orig: seq<State>, states: seq<State>, list: seq<int>, level: nat)
    requires Merging(orig, states, level, FirstOf(list, |list|)) && LengthList(list, orig, level, 0)
    ensures Merging(orig, states, level - 1, {})
  {
    hide SameChain, MarksChanged, FrontLive;
    var settled, lower := FirstOf(list, |list|), level - 1;
    assert list[..|list|] == list;
    forall k | 0 <= k < |orig| ensures MergeOk(orig, states, k, lower, {}) {
      assert MergeOk(orig, states, k, level, settled);
    }
    forall a, b | StillMergeable(states, a) && StillMergeable(states, b) && SameChain(orig, a, b)
    && Done(orig, lower, {}, a)
      ensures a == b
    {
      SameLength(orig, a, b);
      assert Done(orig, level, settled, a);
    }
  }

  // ----- Pointing arcs at the survivors -----

  function Redirect(t: Trans, states: seq<State>): Trans {
    if 0 <= t.target < |states| then t.(target := states[t.target].mergeWith) else t
  }

  /** Every arc leads to what its target was merged with. */
  ghost predicate Redirected(states: seq<State>, states': seq<State>) {
    && |states'| == |states|
    && forall k :: 0 <= k < |states| ==> ArcsRedirected(states, states[k], states'[k])
  }

  ghost predicate ArcsRedirected(states: seq<State>, s: State, s': State) {
    && s' == s.(trans := s'.trans) && |s'.trans| == |s.trans|
    && forall i :: 0 <= i < |s.trans| ==> s'.trans[i] == Redirect(s.trans[i], states)
  }

  method RedirectArcs(states: seq<State>, trans: seq<Trans>) returns (trans': seq<Trans>)
    ensures |trans'| == |trans| && forall i :: 0 <= i < |trans| ==> trans'[i] == Redirect(trans[i], states)
  {
    trans' := [];
    var i := 0;
    while i < |trans|
      invariant 0 <= i <= |trans| == |trans'| + |trans| - i
      invariant forall j :: 0 <= j < i ==> trans'[j] == Redirect(trans[j], states)
    {
      trans' := trans' + [Redirect(trans[i], states)];
      i := i + 1;
    }
  }

  method RedirectAll(states: seq<State>) returns (states': seq<State>)
    ensures Redirected(states, states')
  {
    states' := states;
    var k := |states|;
    while k > 0
      invariant 0 <= k <= |states| == |states'|
      invariant forall j :: k <= j < |states| ==> ArcsRedirected(states, states[j], states'[j])
      invariant forall j :: 0 <= j < k ==> states'[j] == states[j]
    {
      k := k - 1;
      var trans := RedirectArcs(states, states[k].trans);
      states' := states'[k := states[k].(trans := trans)];
    }
  }

  // ----- What merging keeps -----

  /** A live state's arcs lead, after redirection, to live states with the same entries. */
  lemma RedirectedTarget(orig: seq<State>, addr: seq<Address>, states: seq<State>, y: int, t: Trans)
    requires TrieOk(orig, addr) && MarksOk(orig) && Merging(orig, states, 0, {}) && Live(states, y)
             && t in orig[y].trans
    ensures 0 <= t.target < |orig| && Live(states, states[t.target].mergeWith)
    ensures IsLexicon(orig, t.target) ==> states[t.target].mergeWith == t.target
    ensures !IsLexicon(orig, t.target) ==> !IsLexicon(orig, states[t.target].mergeWith)
    ensures forall w, q :: !IsLexicon(orig, t.target) ==>
                           (Entry(orig, states[t.target].mergeWith, w, q) <==> Entry(orig, t.target, w, q))
  {
    hide MarksOk, Link, HashOk, SameChain, TrieOk, Unique, FrontLive, Entry;
    ArcTarget(orig, addr, y, t);
    var z := t.target;
    assert MergeOk(orig, states, z, 0, {});
    var r := states[z].mergeWith;
    if r == z {
      if states[z].mergeable == MERGED {
        MarkKinds(orig, z);
        assert MarkChanged(orig[z], states[z]);
        PurgedParent(orig, addr, states, y, t);
      }
    } else {
      SameLength(orig, z, r);
      MergeableNotLexicon(orig, z);
      MergeableNotLexicon(orig, r);
      forall w, q ensures Entry(orig, r, w, q) <==> Entry(orig, z, w, q) {
        EqualChainsEntries(orig, z, r, w, q);
      }
    }
  }

  lemma ArcTarget(orig: seq<State>, addr: seq<Address>, y: int, t: Trans)
    requires TrieOk(orig, addr) && 0 <= y < |orig| && t in orig[y].trans
    ensures 0 <= t.target < |orig| && StateOk(orig, addr, y) && TransOk(orig, addr, y, t)
  {
    assert StateOk(orig, addr, y) && TransOk(orig, addr, y, t);
  }

  lemma MergeableNotLexicon(orig: seq<State>, k: int)
    requires MarksOk(orig) && WasMergeable(orig, k)
    ensures !IsLexicon(orig, k)
  {
    assert MarkOk(orig, k);
  }

  lemma EqualChainsEntries(orig: seq<State>, a: int, b: int, w: seq<Label>, q: int)
    requires MarksOk(orig) && SameChain(orig, a, b)
    ensures Entry(orig, a, w, q) <==> Entry(orig, b, w, q)
  {
    hide MarksOk, Entry;
    ChainEntry(orig, a, w, q);
    ChainEntry(orig, b, w, q);
  }

  /** A state purged inside a merged chain has its only parent in that chain. */
  lemma PurgedParent(orig: seq<State>, addr: seq<Address>, states: seq<State>, y: int, t: Trans)
    requires TrieOk(orig, addr) && MarksOk(orig) && MarksChanged(orig, states) && 0 <= y < |orig| && t in orig[y].trans
    requires WasMergeable(orig, t.target) && InMergedChain(orig, states, t.target)
    ensures !Live(states, y)
  {
    hide TrieOk, HashOk;
    var z := t.target;
    assert MarkOk(orig, z - 1);
    DistancePositive(orig, z);
    MergeableNotLexicon(orig, z);
    OnlyParent(orig, addr, y, t, z - 1);
  }

  /** Survivors keep exactly their entries. */
  lemma {:induction false} SurvivorEntry(orig: seq<State>, addr: seq<Address>, states: seq<State>, states': seq<State>,
                                         y: int, w: seq<Label>, q: int)
    requires TrieOk(orig, addr) && MarksOk(orig) && Merging(orig, states, 0, {}) && Redirected(states, states')
             && Live(states, y)
    ensures Entry(states', y, w, q) <==> Entry(orig, y, w, q)
    decreases |w|
  {
    hide TrieOk, MarksOk, AllMergeOk, Unique, FrontLive, MarksChanged;
    SameCount(orig, states);
    if w != [] {
      forall t, t' | t in orig[y].trans && t' == Redirect(t, states)
        ensures Continues(states', t', w, q) <==> Continues(orig, t, w, q)
      {
        SurvivorArc(orig, addr, states, states', y, t, w, q);
      }
      ArcsMatch(orig, states, states', y);
    }
  }

  lemma ArcsMatch(orig: seq<State>, states: seq<State>, states': seq<State>, y: int)
    requires MarksChanged(orig, states) && Redirected(states, states') && 0 <= y < |orig|
    ensures |states'| == |orig|
    ensures forall t :: t in orig[y].trans ==> Redirect(t, states) in states'[y].trans
    ensures forall t' :: t' in states'[y].trans ==> exists t :: t in orig[y].trans && t' == Redirect(t, states)
  {
    SameState(orig, states, y);
    assert ArcsRedirected(states, states[y], states'[y]);
    forall t | t in orig[y].trans ensures Redirect(t, states) in states'[y].trans {
      var i :| 0 <= i < |states[y].trans| && states[y].trans[i] == t;
      assert states'[y].trans[i] == Redirect(t, states);
    }
    forall t' | t' in states'[y].trans ensures exists t :: t in orig[y].trans && t' == Redirect(t, states) {
      var i :| 0 <= i < |states'[y].trans| && states'[y].trans[i] == t';
      assert states[y].trans[i] in orig[y].trans;
    }
  }

  lemma {:induction false} SurvivorArc(orig: seq<State>, addr: seq<Address>, states: seq<State>, states': seq<State>,
                                       y: int, t: Trans, w: seq<Label>, q: int)
    requires TrieOk(orig, addr) && MarksOk(orig) && Merging(orig, states, 0, {}) && Redirected(states, states')
             && Live(states, y)
    requires 0 <= y < |orig| && t in orig[y].trans && w != []
    ensures Continues(states', Redirect(t, states), w, q) <==> Continues(orig, t, w, q)
    decreases |w|, 0
  {
    hide TrieOk, MarksOk, AllMergeOk, Unique, FrontLive, Entry;
    RedirectedTarget(orig, addr, states, y, t);
    var r := states[t.target].mergeWith;
    assert IsLexicon(states', r) <==> IsLexicon(orig, r) by {
      SameState(orig, states, r);
      assert ArcsRedirected(states, states[r], states'[r]);
    }
    if !IsLexicon(orig, t.target) {
      SurvivorEntry(orig, addr, states, states', r, w[1..], q);
    }
  }

  // ----- The whole operation -----

  /** The state list without the merged states, the newest first. */
  ghost predicate Survivors(kept: seq<int>, states: seq<State>, from: int) {
    && (forall i :: 0 <= i < |kept| ==> from <= kept[i] && Live(states, kept[i]))
    && (forall k :: from <= k && Live(states, k) ==> k in kept)
    && (forall i, j :: 0 <= i < j < |kept| ==> kept[i] > kept[j])
  }

  /** Unlinks the merged states. The list's head is never one of them, so the branch for that is never taken. */
  method RemoveMerged(states: seq<State>) returns (kept: seq<int>)
    requires states != [] ==> Live(states, |states| - 1)
    ensures Survivors(kept, states, 0)
  {
    kept := [];
    var s, sprev := |states|, -1;
    while s > 0
      invariant 0 <= s <= |states| && Survivors(kept, states, s)
      invariant s < |states| ==> sprev != -1
    {
      s := s - 1;
      if states[s].mergeable == MERGED {
        assert sprev != -1;
      } else {
        sprev := s;
        kept := kept + [s];
      }
    }
  }

  lemma NewestLive(orig: seq<State>, states: seq<State>)
    requires MarksOk(orig) && MarksChanged(orig, states) && FrontLive(orig, states) && orig != []
    ensures Live(states, |states| - 1)
  {
    hide MarksOk;
    var h := |orig| - 1;
    MarkKinds(orig, h);
    assert MarkChanged(orig[h], states[h]);
    if WasMergeable(orig, h) {
      DistancePositive(orig, h);
    }
  }

  lemma NothingMerged(orig: seq<State>, maxlen: nat)
    requires MarksOk(orig) && Bounded(orig, maxlen)
    ensures Merging(orig, orig, maxlen, {})
  {
    hide HashOk, Link, ChainWord, ChainEnd;
    forall k | 0 <= k < |orig| ensures MergeOk(orig, orig, k, maxlen, {}) {
      assert MarkOk(orig, k);
    }
    assert forall a :: WasMergeable(orig, a) ==> !Done(orig, maxlen, {}, a);
  }

  lemma NamedLexicons(orig: seq<State>, addr: seq<Address>)
    requires TrieOk(orig, addr)
    ensures LexiconsNamed(orig)
  {
    forall k | 0 <= k < |orig| ensures orig[k].lexstate == -1 || orig[k].lexstate == k {
      assert StateOk(orig, addr, k);
    }
  }

  /** What merging guarantees to its caller. */
  ghost predicate Merged(orig: seq<State>, states': seq<State>, kept: seq<int>) {
    && |states'| == |orig|
    && (forall p :: IsLexicon(orig, p) ==> p in kept && IsLexicon(states', p))
    && (forall k :: k in kept ==> 0 <= k < |orig| && forall t :: t in states'[k].trans ==> t.target in kept)
    && (forall p, w, q :: p in kept ==> (Entry(states', p, w, q) <==> Entry(orig, p, w, q)))
    && (forall a, b :: a in kept && b in kept && SameChain(orig, a, b) ==> a == b)
  }

  lemma MergingDone(orig: seq<State>, addr: seq<Address>, states: seq<State>, states': seq<State>, kept: seq<int>)
    requires TrieOk(orig, addr) && MarksOk(orig) && Merging(orig, states, 0, {}) && Redirected(states, states')
             && Survivors(kept, states, 0)
    ensures Merged(orig, states', kept)
  {
    hide TrieOk, MarksOk, AllMergeOk, Unique, FrontLive, MarksChanged, Entry, SameChain;
    SameCount(orig, states);
    forall p | IsLexicon(orig, p) ensures p in kept && IsLexicon(states', p) {
      LexiconLive(orig, states, p);
      SameState(orig, states, p);
      assert ArcsRedirected(states, states[p], states'[p]);
    }
    forall k, t | k in kept && t in states'[k].trans ensures t.target in kept {
      SurvivorsLive(kept, states, k);
      ArcsMatch(orig, states, states', k);
      var u :| u in orig[k].trans && t == Redirect(u, states);
      RedirectedTarget(orig, addr, states, k, u);
    }
    forall p, w, q | p in kept ensures Entry(states', p, w, q) <==> Entry(orig, p, w, q) {
      SurvivorsLive(kept, states, p);
      SurvivorEntry(orig, addr, states, states', p, w, q);
    }
    forall a, b | a in kept && b in kept && SameChain(orig, a, b) ensures a == b {
      SurvivorsLive(kept, states, a);
      SurvivorsLive(kept, states, b);
      DistinctChains(orig, states, a, b);
    }
    forall k | k in kept ensures 0 <= k < |orig| {
      SurvivorsLive(kept, states, k);
    }
  }

  lemma SurvivorsLive(kept: seq<int>, states: seq<State>, k: int)
    requires Survivors(kept, states, 0) && k in kept
    ensures Live(states, k)
  {
    var i :| 0 <= i < |kept| && kept[i] == k;
  }

  lemma LexiconLive(orig: seq<State>, states: seq<State>, p: int)
    requires MarksOk(orig) && MarksChanged(orig, states) && IsLexicon(orig, p)
    ensures Live(states, p)
  {
    assert MarkOk(orig, p) && MarkChanged(orig[p], states[p]);
  }

  lemma DistinctChains(orig: seq<State>, states: seq<State>, a: int, b: int)
    requires MarksOk(orig) && Merging(orig, states, 0, {}) && Live(states, a) && Live(states, b)
             && SameChain(orig, a, b)
    ensures a == b
  {
    hide MarksOk, AllMergeOk, FrontLive;
    SameLength(orig, a, b);
    DistancePositive(orig, a);
    assert MarkChanged(orig[a], states[a]) && MarkChanged(orig[b], states[b]);
  }

  /**
   Merges equal suffixes, longest first, and frees the merged states. The survivors keep exactly
   their entries, their arcs lead to survivors, and no two of them start equal chains.
   */
  method MergeStates(b: LexiconBuilder) returns (kept: seq<int>)
    requires b.Valid() && |b.states| <= 0x7fff_ffff
    modifies b`states
    ensures Merged(old(b.states), b.states, kept)
    ensures forall i, j :: 0 <= i < j < |kept| ==> kept[i] > kept[j]
  {
    hide TrieOk, MarksOk, Merging, LengthList, HashList, Redirected, Merged, Bounded, LexiconsNamed;
    ghost var orig, addr := b.states, b.addr;
    NamedLexicons(orig, addr);
    NothingMerged(orig, b.maxlen);
    var states := b.states;
    var tableSize := TableSize(states);
    var lengths, hashes := BuildLists(states, b.maxlen, tableSize);
    var i := b.maxlen;
    while i >= 1
      invariant 0 <= i <= b.maxlen && Merging(orig, states, i, {})
      invariant b.maxlen == old(b.maxlen) && b.states == orig
      invariant forall d :: 0 <= d <= b.maxlen ==> LengthList(lengths[d], orig, d, 0)
      invariant forall h :: 0 <= h < tableSize ==> HashList(hashes[h], orig, tableSize, h, 0)
    {
      states := MergeLevel(states, lengths[i], hashes, i, orig);
      i := i - 1;
    }
    MergingParts(orig, states);
    var states' := RedirectAll(states);
    kept := RemoveMerged(states);
    MergingDone(orig, addr, states, states', kept);
    b.states := states';
  }

  lemma MergingParts(orig: seq<State>, states: seq<State>)
    requires MarksOk(orig) && Merging(orig, states, 0, {})
    ensures |states| == |orig| && (states != [] ==> Live(states, |states| - 1))
  {
    hide MarksOk;
    if orig != [] {
      NewestLive(orig, states);
    }
  }
}
