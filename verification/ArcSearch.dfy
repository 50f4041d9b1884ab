/**
 The three ways in which lookup finds the arcs to follow from a state: arc by arc, by binary
 search over sorted arcs, and by an index of arc lists that share the list of EPSILON arcs.
 All three propose the same arcs, each once.
 */
module ArcSearch {
  import opened Automata
  import opened Chains
  import opened Counting
  import opened NetReading

  /** The symbol at the input position; None at the end of the input. */
  datatype Seek = AtEnd | Symbol(number: int)

  const APPLY_BINSEARCH_THRESHOLD: int := 10

  /** An arc symbol that can be followed here: EPSILON, a flag, or the symbol sought. */
  predicate Matches(sym: int, seek: Seek, flags: set<int>) {
    || sym == EPSILON || sym in flags
    || (seek.Symbol? && (sym == seek.number || ((sym == IDENTITY || sym == UNKNOWN) && seek.number == IDENTITY)))
  }

  predicate Proposes(l: Line, seek: Seek, flags: set<int>) {
    l.target != -1 && Matches(l.upper, seek, flags)
  }

  /** The lines from `lo` up to `hi` whose arcs match, in order. */
  function Candidates(lines: seq<Line>, lo: int, hi: int, seek: Seek, flags: set<int>): seq<int>
    requires 0 <= lo <= hi <= |lines|
    decreases hi - lo
  {
    if lo == hi then []
    else (if Proposes(lines[lo], seek, flags) then [lo] else []) + Candidates(lines, lo + 1, hi, seek, flags)
  }

  lemma {:induction false} CandidatesAre(lines: seq<Line>, lo: int, hi: int, seek: Seek, flags: set<int>)
    requires 0 <= lo <= hi <= |lines|
    ensures forall k :: k in Candidates(lines, lo, hi, seek, flags) <==> lo <= k < hi && Proposes(lines[k], seek, flags)
    ensures Distinct(Candidates(lines, lo, hi, seek, flags))
    decreases hi - lo
  {
    if lo < hi {
      CandidatesAre(lines, lo + 1, hi, seek, flags);
    }
  }

  /** Nothing matches before `mid`. */
  lemma {:induction false} CandidatesSkip(lines: seq<Line>, lo: int, mid: int, hi: int, seek: Seek, flags: set<int>)
    requires 0 <= lo <= mid <= hi <= |lines| && forall k :: lo <= k < mid ==> !Proposes(lines[k], seek, flags)
    ensures Candidates(lines, lo, hi, seek, flags) == Candidates(lines, mid, hi, seek, flags)
    decreases mid - lo
  {
    if lo < mid {
      CandidatesSkip(lines, lo + 1, mid, hi, seek, flags);
    }
  }

  // ----- Arc by arc -----

  /** The arc lines of state `p`; a state without arcs has one line that is none. */
  ghost predicate StateBlock(lines: seq<Line>, n: nat, p: int, lo: int, hi: int) {
    WellFormed(lines, n) && ArclessAlone(lines) && Block(lines, p, lo, hi) && lo < hi
  }

  lemma BlockLine(lines: seq<Line>, n: nat, p: int, lo: int, hi: int, k: int)
    requires StateBlock(lines, n, p, lo, hi) && lo <= k <= |lines|
    ensures k < hi ==> lines[k].state == p && (lines[k].target == -1 <==> lines[k].upper == -1) && lines[k].upper >= -1
    ensures k < hi && lines[k].upper == -1 ==> k + 1 == hi
    ensures k >= hi ==> k == |lines| || lines[k].state != p
  {
    assert k < hi ==> LineOk(lines[k], n);
    if k < hi && lines[k].upper == -1 {
      NextAlone(lines, k);
      assert k + 1 < |lines| ==> (lines[k + 1].state == p <==> k + 1 < hi);
    }
  }

  lemma NextAlone(lines: seq<Line>, k: int)
    requires ArclessAlone(lines) && 0 <= k < |lines| && lines[k].target == -1
    ensures k + 1 < |lines| ==> lines[k + 1].state != lines[k].state
  {
  }

  method LinearCandidates(lines: seq<Line>, ghost n: nat, ghost p: int, first: int, ghost hi: int, seek: Seek,
                          flags: set<int>) returns (found: seq<int>)
    requires StateBlock(lines, n, p, first, hi)
    ensures found == Candidates(lines, first, hi, seek, flags)
  {
    hide StateBlock, Matches;
    BlockRange(lines, n, p, first, hi);
    found := [];
    var k := first;
    BlockLine(lines, n, p, first, hi, k);
    while k < |lines| && lines[k].state == lines[first].state && lines[k].upper != -1
      invariant first <= k <= hi
      invariant found + Candidates(lines, k, hi, seek, flags) == Candidates(lines, first, hi, seek, flags)
    {
      BlockLine(lines, n, p, first, hi, k);
      OneCandidate(lines, k, hi, seek, flags, found);
      if Matches(lines[k].upper, seek, flags) {
        found := found + [k];
      }
      k := k + 1;
    }
    BlockLine(lines, n, p, first, hi, k);
    ArclessEnd(lines, k, hi, seek, flags);
  }

  lemma BlockRange(lines: seq<Line>, n: nat, p: int, lo: int, hi: int)
    requires StateBlock(lines, n, p, lo, hi)
    ensures 0 <= lo < hi <= |lines| && lines[lo].state == p
  {
  }

  lemma OneCandidate(lines: seq<Line>, k: int, hi: int, seek: Seek, flags: set<int>, found: seq<int>)
    requires 0 <= k < hi <= |lines|
    ensures Proposes(lines[k], seek, flags) ==>
              found + Candidates(lines, k, hi, seek, flags) == (found + [k]) + Candidates(lines, k + 1, hi, seek, flags)
    ensures !Proposes(lines[k], seek, flags) ==> Candidates(lines, k, hi, seek, flags) ==
                                                 Candidates(lines, k + 1, hi, seek, flags)
  {
  }

  lemma ArclessEnd(lines: seq<Line>, k: int, hi: int, seek: Seek, flags: set<int>)
    requires 0 <= k <= hi <= |lines| && (k < hi ==> k + 1 == hi && lines[k].target == -1)
    ensures Candidates(lines, k, hi, seek, flags) == []
  {
    if k < hi {
      assert Candidates(lines, k + 1, hi, seek, flags) == [];
    }
  }

  // ----- Binary search -----

  /** The input symbols of the lines never decrease. */
  ghost predicate SortedBlock(lines: seq<Line>, lo: int, hi: int) {
    0 <= lo <= hi <= |lines| && forall j, k :: lo <= j < k < hi ==> lines[j].upper <= lines[k].upper
  }

  /** Nothing from `lo` up to `k` matches, and `k` does. */
  ghost predicate FirstMatch(lines: seq<Line>, lo: int, k: int, hi: int, seek: Seek) {
    0 <= lo <= k < hi <= |lines| && Proposes(lines[k], seek, {})
    && forall j :: lo <= j < k ==> !Proposes(lines[j], seek, {})
  }

  ghost predicate NoMatch(lines: seq<Line>, lo: int, hi: int, seek: Seek) {
    0 <= lo <= hi <= |lines| && forall j :: lo <= j < hi ==> !Proposes(lines[j], seek, {})
  }

  /** In a flag-free state, sorted and with arcs only: the symbols sought are IDENTITY or an ordinary one. */
  ghost predicate Searchable(lines: seq<Line>, lo: int, hi: int, seek: Seek) {
    && SortedBlock(lines, lo, hi) && (seek.Symbol? ==> seek.number >= IDENTITY)
    && forall k :: lo <= k < hi ==> lines[k].upper >= 0 && lines[k].target != -1
  }

  /** The first line from `start` on whose arc matches. */
  method BinarySearch(lines: seq<Line>, start: int, lo: int, hi: int, seek: Seek) returns (found: bool, cur: int)
    requires lo <= start < hi && (Searchable(lines, lo, hi, seek)
                                  || (hi == lo + 1 <= |lines| && 0 <= lo && lines[lo].upper == -1
                                      && lines[lo].target == -1))
    requires seek.Symbol? ==> seek.number >= IDENTITY
    ensures found ==> FirstMatch(lines, start, cur, hi, seek)
    ensures !found ==> NoMatch(lines, start, hi, seek)
  {
    cur := start;
    var nextsym := lines[cur].upper;
    if nextsym == EPSILON {
      return true, cur;
    }
    if nextsym == -1 {
      return false, cur;
    }
    if seek.AtEnd? {
      return false, cur;
    }
    var seeksym := seek.number;
    if seeksym == nextsym || (nextsym == UNKNOWN && seeksym == IDENTITY) {
      return true, cur;
    }
    if seeksym == IDENTITY || hi - 1 - (start + 1) < APPLY_BINSEARCH_THRESHOLD {
      found, cur := ScanOn(lines, start, lo, hi, seeksym);
    } else {
      found, cur := Bisect(lines, start, lo, hi, seeksym);
    }
  }

  /** The rest of a short or wildcard search: line by line until the symbols get too large. */
  method ScanOn(lines: seq<Line>, start: int, lo: int, hi: int, seeksym: int) returns (found: bool, cur: int)
    requires lo <= start < hi && Searchable(lines, lo, hi, Symbol(seeksym))
             && !Proposes(lines[start], Symbol(seeksym), {})
    ensures found ==> FirstMatch(lines, start, cur, hi, Symbol(seeksym))
    ensures !found ==> NoMatch(lines, start, hi, Symbol(seeksym))
  {
    cur := start;
    var thisptr := start + 1;
    while thisptr <= hi - 1
      invariant start < thisptr <= hi
      invariant forall j :: start <= j < thisptr ==> !Proposes(lines[j], Symbol(seeksym), {})
    {
      var nextsym := lines[thisptr].upper;
      if nextsym == seeksym || (nextsym == UNKNOWN && seeksym == IDENTITY) {
        return true, thisptr;
      }
      if nextsym > seeksym || nextsym == -1 {
        return false, cur;
      }
      thisptr := thisptr + 1;
    }
    found := false;
  }

  /** Bisection, then back to the first of equal symbols; the walk back stops after the starting line. */
  method Bisect(lines: seq<Line>, start: int, lo: int, hi: int, seeksym: int) returns (found: bool, cur: int)
    requires lo <= start < hi && Searchable(lines, lo, hi, Symbol(seeksym))
             && !Proposes(lines[start], Symbol(seeksym), {}) && seeksym > IDENTITY
    ensures found ==> FirstMatch(lines, start, cur, hi, Symbol(seeksym))
    ensures !found ==> NoMatch(lines, start, hi, Symbol(seeksym))
  {
    var thisptr, lastptr := start + 1, hi - 1;
    while thisptr <= lastptr
      invariant start < thisptr <= hi && start <= lastptr < hi
      invariant forall j :: start <= j < thisptr ==> lines[j].upper != seeksym
      invariant forall j :: lastptr < j < hi ==> lines[j].upper != seeksym
      decreases lastptr - thisptr
    {
      var midptr := (thisptr + lastptr) / 2;
      var nextsym := lines[midptr].upper;
      if seeksym < nextsym {
        lastptr := midptr - 1;
      } else if seeksym > nextsym {
        thisptr := midptr + 1;
      } else {
        while lines[midptr - 1].upper == seeksym
          invariant start < midptr < hi && lines[midptr].upper == seeksym
          decreases midptr
        {
          midptr := midptr - 1;
        }
        return true, midptr;
      }
    }
    return false, start;
  }

  /** All arcs that repeated binary searching proposes. */
  method BinaryCandidates(lines: seq<Line>, ghost n: nat, ghost p: int, first: int, hi: int, seek: Seek)
    returns (found: seq<int>)
    requires StateBlock(lines, n, p, first, hi) && SortedBlock(lines, first, hi)
             && (seek.Symbol? ==> seek.number >= IDENTITY)
    ensures found == Candidates(lines, first, hi, seek, {})
  {
    hide StateBlock, Matches, SortedBlock, Candidates, Searchable;
    BlockRange(lines, n, p, first, hi);
    SearchableBlock(lines, n, p, first, hi, seek);
    found := [];
    var ptr := first;
    while true
      invariant first <= ptr < hi
      invariant found + Candidates(lines, ptr, hi, seek, {}) == Candidates(lines, first, hi, seek, {})
      decreases hi - ptr
    {
      var ok, cur := BinarySearch(lines, ptr, first, hi, seek);
      if !ok {
        CandidatesSkip(lines, ptr, hi, hi, seek, {});
        ArclessEnd(lines, hi, hi, seek, {});
        return;
      }
      CandidatesSkip(lines, ptr, cur, hi, seek, {});
      OneCandidate(lines, cur, hi, seek, {}, found);
      found := found + [cur];
      if cur + 1 < hi {
        ptr := cur + 1;
        continue;
      }
      ArclessEnd(lines, hi, hi, seek, {});
      return;
    }
  }

  lemma SearchableBlock(lines: seq<Line>, n: nat, p: int, lo: int, hi: int, seek: Seek)
    requires StateBlock(lines, n, p, lo, hi) && SortedBlock(lines, lo, hi) && (seek.Symbol? ==> seek.number >= IDENTITY)
    ensures Searchable(lines, lo, hi, seek) || (hi == lo + 1 && lines[lo].upper == -1 && lines[lo].target == -1)
  {
    BlockLine(lines, n, p, lo, hi, lo);
    if lines[lo].upper != -1 {
      forall k | lo <= k < hi ensures lines[k].upper >= 0 && lines[k].target != -1 {
        BlockLine(lines, n, p, lo, hi, k);
      }
    }
  }

  // ----- Index lists -----

  /** The list an arc goes to: flags with EPSILON, UNKNOWN with IDENTITY. */
  function Slot(sym: int, flags: set<int>): int {
    if sym in flags then EPSILON else if sym == UNKNOWN then IDENTITY else sym
  }

  /** The list of `sym` holds the arcs of state `p` in that slot on the first `i` lines, each once. */
  ghost predicate SlotList(list: seq<int>, lines: seq<Line>, p: int, i: int, sym: int, flags: set<int>)
    requires 0 <= i <= |lines|
  {
    && Distinct(list)
    && forall k :: k in list <==> 0 <= k < i && lines[k].state == p && lines[k].target != -1
                                  && Slot(lines[k].upper, flags) == sym
  }

  lemma SlotMore(list: seq<int>, lines: seq<Line>, p: int, i: int, sym: int, flags: set<int>)
    requires 0 <= i < |lines| && SlotList(list, lines, p, i, sym, flags)
    ensures if lines[i].state == p && lines[i].target != -1 && Slot(lines[i].upper, flags) == sym
            then SlotList(Chained(list, i), lines, p, i + 1, sym, flags)
            else SlotList(list, lines, p, i + 1, sym, flags)
  {
    assert i !in list;
    if lines[i].state == p && lines[i].target != -1 && Slot(lines[i].upper, flags) == sym {
      assert Distinct(Chained(list, i));
    }
  }

  /** The index of one state: its arcs by input symbol. */
  method IndexState(lines: seq<Line>, n: nat, p: int, sigmaSize: nat, flags: set<int>) returns (index: array<seq<int>>)
    requires WellFormed(lines, n) && SymbolsUpTo(lines, sigmaSize - 1) && IDENTITY < sigmaSize
    ensures fresh(index) && index.Length == sigmaSize
    ensures forall sym :: 0 <= sym < sigmaSize ==> SlotList(index[sym], lines, p, |lines|, sym, flags)
  {
    hide SlotList, WellFormed, Chained, Slot;
    index := new seq<int>[sigmaSize](_ => []);
    NoSlots(lines, p, flags);
    var i := 0;
    while i < |lines|
      invariant 0 <= i <= |lines|
      invariant forall sym :: 0 <= sym < sigmaSize ==> SlotList(index[sym], lines, p, i, sym, flags)
    {
      forall sym | 0 <= sym < sigmaSize
        ensures if lines[i].state == p && lines[i].target != -1 && Slot(lines[i].upper, flags) == sym
                then SlotList(Chained(index[sym], i), lines, p, i + 1, sym, flags)
                else SlotList(index[sym], lines, p, i + 1, sym, flags)
      {
        SlotMore(index[sym], lines, p, i, sym, flags);
      }
      SlotRange(lines, n, i, sigmaSize, flags);
      if lines[i].state == p && lines[i].target != -1 {
        var sym := Slot(lines[i].upper, flags);
        index[sym] := Chained(index[sym], i);
      }
      i := i + 1;
    }
  }

  lemma NoSlots(lines: seq<Line>, p: int, flags: set<int>)
    ensures forall sym :: SlotList([], lines, p, 0, sym, flags)
  {
  }

  lemma SlotRange(lines: seq<Line>, n: nat, i: int, sigmaSize: nat, flags: set<int>)
    requires WellFormed(lines, n) && SymbolsUpTo(lines, sigmaSize - 1) && IDENTITY < sigmaSize && 0 <= i < |lines|
    ensures lines[i].target != -1 ==> 0 <= Slot(lines[i].upper, flags) < sigmaSize
  {
    assert LineOk(lines[i], n) && lines[i] in lines;
  }

  /** What walking the list of a symbol visits: its own arcs, then those of the shared EPSILON tail. */
  method IndexCandidates(index: array<seq<int>>, seeksym: int) returns (found: seq<int>)
    requires 0 <= seeksym < index.Length
    ensures found == index[seeksym] + (if seeksym == EPSILON then [] else index[EPSILON])
  {
    found := [];
    var chain := index[seeksym];
    var i := 0;
    while i < |chain|
      invariant 0 <= i <= |chain| && found == chain[..i]
    {
      found := found + [chain[i]];
      i := i + 1;
    }
    assert chain[..i] == chain;
    if seeksym != EPSILON {
      chain, i := index[EPSILON], 0;
      while i < |chain|
        invariant 0 <= i <= |chain| && found == index[seeksym] + chain[..i]
      {
        assert chain[..i + 1] == chain[..i] + [chain[i]];
        found := found + [chain[i]];
        i := i + 1;
      }
      assert chain[..i] == chain;
    }
  }

  /** The index proposes exactly the matching arcs of the state, each once. */
  lemma IndexAgrees(own: seq<int>, tail: seq<int>, lines: seq<Line>, n: nat, p: int, lo: int, hi: int, seeksym: int,
                    flags: set<int>)
    requires StateBlock(lines, n, p, lo, hi) && seeksym >= IDENTITY
    requires SlotList(own, lines, p, |lines|, seeksym, flags) && SlotList(tail, lines, p, |lines|, EPSILON, flags)
    ensures Distinct(own + tail)
    ensures forall k :: k in own + tail <==> k in Candidates(lines, lo, hi, Symbol(seeksym), flags)
  {
    hide StateBlock;
    BlockRange(lines, n, p, lo, hi);
    CandidatesAre(lines, lo, hi, Symbol(seeksym), flags);
    forall k ensures k in own + tail <==> k in Candidates(lines, lo, hi, Symbol(seeksym), flags) {
      assert k in own + tail <==> k in own || k in tail;
      if 0 <= k < |lines| {
        LineOfState(lines, n, p, lo, hi, k);
      }
    }
    forall i, j | 0 <= i < |own| && 0 <= j < |tail| ensures own[i] != tail[j] {
      assert own[i] in own && tail[j] in tail;
    }
  }

  lemma LineOfState(lines: seq<Line>, n: nat, p: int, lo: int, hi: int, k: int)
    requires StateBlock(lines, n, p, lo, hi) && 0 <= k < |lines|
    ensures lines[k].state == p <==> lo <= k < hi
  {
  }

  /**
   The three strategies agree: on a sorted state without flags, before the end of the input, arc by
   arc and binary search propose the same list, and the index the same arcs, each once.
   */
  method AllStrategies(lines: seq<Line>, n: nat, p: int, first: int, hi: int, sigmaSize: nat, seeksym: int)
    returns (linear: seq<int>, binary: seq<int>, indexed: seq<int>)
    requires StateBlock(lines, n, p, first, hi) && SortedBlock(lines, first, hi)
    requires SymbolsUpTo(lines, sigmaSize - 1) && IDENTITY <= seeksym < sigmaSize
    ensures linear == binary && Distinct(indexed) && Distinct(linear) && multiset(indexed) == multiset(linear)
    ensures forall k :: k in linear <==> first <= k < hi && Proposes(lines[k], Symbol(seeksym), {})
  {
    hide SortedBlock, Matches, Candidates, SlotList;
    BlockRange(lines, n, p, first, hi);
    linear := LinearCandidates(lines, n, p, first, hi, Symbol(seeksym), {});
    binary := BinaryCandidates(lines, n, p, first, hi, Symbol(seeksym));
    var index := IndexState(lines, n, p, sigmaSize, {});
    indexed := IndexCandidates(index, seeksym);
    IndexAgrees(index[seeksym], index[EPSILON], lines, n, p, first, hi, seeksym, {});
    CandidatesAre(lines, first, hi, Symbol(seeksym), {});
    SameMembers(indexed, linear);
  }
}
