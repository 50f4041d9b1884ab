/** The arc searches propose what lookup may follow: flags checked at run time aside, just the arcs that match. */
module LookupSearch {
  import opened ArcSearch
  import opened Automata
  import opened Counting
  import Flags
  import opened Lookup
  import opened LookupPaths
  import opened NetReading

  /** What the searches seek at an input position. */
  function SeekAt(q: Query, ipos: nat): Seek {
    if ipos < |q.sigmatch| then Symbol(q.sigmatch[ipos].signumber) else AtEnd
  }

  /** The searches propose an arc exactly when lookup finds that it matches. */
  lemma ProposesMatching(q: Query, ipos: nat, l: Line)
    ensures Proposes(l, SeekAt(q, ipos), q.flagOf.Keys) <==> l.target != -1 && q.MatchLength(l.upper, ipos) != -1
  {
  }

  /** A path may go on with just those proposed arcs whose flags pass. */
  lemma MayFollowProposed(q: Query, n: nat, p: seq<int>, lo: int, hi: int)
    requires StateBlock(q.lines, n, StateAfter(q, p), lo, hi)
    ensures 0 <= lo < hi <= |q.lines|
    ensures forall k :: MayFollow(q, p, k) <==>
                        lo <= k < hi && k in Candidates(q.lines, lo, hi, SeekAt(q, PosAfter(q, p)), q.flagOf.Keys)
                        && FlagPasses(q, SettingsAfter(q, p), q.lines[k].upper)
  {
    hide StateBlock, PosAfter, SettingsAfter, FlagPasses, Proposes, Candidates;
    BlockRange(q.lines, n, StateAfter(q, p), lo, hi);
    var seek := SeekAt(q, PosAfter(q, p));
    CandidatesAre(q.lines, lo, hi, seek, q.flagOf.Keys);
    forall k | 0 <= k < |q.lines|
      ensures MayFollow(q, p, k) <==> k in Candidates(q.lines, lo, hi, seek, q.flagOf.Keys)
                                      && FlagPasses(q, SettingsAfter(q, p), q.lines[k].upper)
    {
      LineOfState(q.lines, n, StateAfter(q, p), lo, hi, k);
      ProposesMatching(q, PosAfter(q, p), q.lines[k]);
      if lo <= k < hi {
        BlockLine(q.lines, n, StateAfter(q, p), lo, hi, k);
        TargetRange(q.lines, n, StateAfter(q, p), lo, hi, k);
      }
    }
  }

  lemma TargetRange(lines: seq<Line>, n: nat, p: int, lo: int, hi: int, k: int)
    requires StateBlock(lines, n, p, lo, hi) && lo <= k < hi
    ensures -1 <= lines[k].target < n
  {
    assert LineOk(lines[k], n);
  }

  /** A step of the search follows a proposed arc whose flag passes and whose target's mark does not forbid it. */
  lemma FollowsProposed(q: Query, n: nat, marks: seq<int>, ipos: nat, settings: map<string, Flags.Setting>, p: int,
                        lo: int, hi: int, k: int)
    requires StateBlock(q.lines, n, p, lo, hi) && |marks| == n && lo <= k < hi
    ensures 0 <= lo < hi <= |q.lines|
    ensures Follows(q, marks, ipos, settings, k) <==>
              && k in Candidates(q.lines, lo, hi, SeekAt(q, ipos), q.flagOf.Keys)
              && FlagPasses(q, settings, q.lines[k].upper) && q.lines[k].target >= 0
              && -1 - ipos - q.MatchLength(q.lines[k].upper, ipos) != marks[q.lines[k].target]
  {
    hide StateBlock, FlagPasses, Proposes, Candidates;
    BlockRange(q.lines, n, p, lo, hi);
    CandidatesAre(q.lines, lo, hi, SeekAt(q, ipos), q.flagOf.Keys);
    ProposesMatching(q, ipos, q.lines[k]);
    TargetRange(q.lines, n, p, lo, hi, k);
  }

  /**
   The scan and the index of a state with flags: before the end of the input, both propose just the arcs that
   match, each once, and the scan does so at the end of the input too.
   */
  method ProposedArcs(q: Query, n: nat, ipos: nat, p: int, first: int, hi: int, sigmaSize: nat)
    returns (linear: seq<int>, indexed: seq<int>)
    requires StateBlock(q.lines, n, p, first, hi) && SymbolsUpTo(q.lines, sigmaSize - 1) && IDENTITY < sigmaSize
    requires ipos < |q.sigmatch| ==> IDENTITY <= q.sigmatch[ipos].signumber < sigmaSize
    ensures forall k :: k in linear <==> first <= k < hi && q.lines[k].target != -1
                                         && q.MatchLength(q.lines[k].upper, ipos) != -1
    ensures Distinct(linear)
    ensures ipos < |q.sigmatch| ==> Distinct(indexed) && multiset(indexed) == multiset(linear)
  {
    hide Matches, Candidates, SlotList, StateBlock, Slot;
    BlockRange(q.lines, n, p, first, hi);
    BlockWellFormed(q.lines, n, p, first, hi);
    var seek := SeekAt(q, ipos);
    linear := LinearCandidates(q.lines, n, p, first, hi, seek, q.flagOf.Keys);
    CandidatesAre(q.lines, first, hi, seek, q.flagOf.Keys);
    forall k | 0 <= k < |q.lines|
      ensures Proposes(q.lines[k], seek, q.flagOf.Keys) <==>
                q.lines[k].target != -1 && q.MatchLength(q.lines[k].upper, ipos) != -1
    {
      ProposesMatching(q, ipos, q.lines[k]);
    }
    indexed := [];
    if ipos < |q.sigmatch| {
      var seeksym := q.sigmatch[ipos].signumber;
      var index := IndexState(q.lines, n, p, sigmaSize, q.flagOf.Keys);
      indexed := IndexCandidates(index, seeksym);
      IndexAgrees(index[seeksym], index[EPSILON], q.lines, n, p, first, hi, seeksym, q.flagOf.Keys);
      SameMembers(indexed, linear);
    }
  }

  lemma BlockWellFormed(lines: seq<Line>, n: nat, p: int, lo: int, hi: int)
    requires StateBlock(lines, n, p, lo, hi)
    ensures WellFormed(lines, n)
  {
  }
}
