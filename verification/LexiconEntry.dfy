/**
 One word entry of a lexicon: its two sides are aligned in the word buffers, and the aligned pairs
 are added to the trie.
 */
module LexiconEntries {
  import opened Automata
  import opened Alignment
  import opened Lexicon

  /** The pairs that alignment leaves in the buffers for an entry. */
  function AlignedWord(up: seq<int>, lo: seq<int>): seq<Label> {
    if up == [] && lo == [] then [EPSILON_PAIR] else Align(Strip(up), Strip(lo))
  }

  predicate OnlyEpsilon(w: seq<int>) {
    forall i :: 0 <= i < |w| ==> w[i] == EPSILON
  }

  /** An entry written with EPSILON and nothing else; the entry with two empty sides is not one. */
  predicate ExplicitEpsilon(up: seq<int>, lo: seq<int>) {
    (up != [] || lo != []) && OnlyEpsilon(up) && OnlyEpsilon(lo)
  }

  /** Exactly the entries written with EPSILON only are left without a pair. */
  lemma LeftWithoutPairs(up: seq<int>, lo: seq<int>)
    ensures AlignedWord(up, lo) == [] <==> ExplicitEpsilon(up, lo)
  {
    AlignedToNothing(up, lo);
  }

  /** The pairs that the two buffers hold. */
  method BufferedWord(buffers: WordBuffers, ghost w: seq<Label>) returns (v: seq<Label>)
    requires buffers.Valid() && Holds(buffers.cwordin, Uppers(w)) && Holds(buffers.cwordout, Lowers(w))
    ensures v == w
  {
    v := [];
    var i := 0;
    while buffers.cwordin[i] != -1
      invariant 0 <= i <= |w| && v == w[..i]
      decreases |w| - i
    {
      assert buffers.cwordin[..|w|][i] == w[i].upper && buffers.cwordout[..|w|][i] == w[i].lower;
      v := v + [Label(buffers.cwordin[i], buffers.cwordout[i])];
      i := i + 1;
    }
    WordEnd(buffers.cwordin, Uppers(w), i);
  }

  /**
   Aligns the current entry and adds it. The lexicon gains the aligned word, unless the entry is
   written with EPSILON only: then it gains nothing.
   */
  method AddEntry(builder: LexiconBuilder, buffers: WordBuffers, source: int, dest: int, ghost up: seq<int>,
                  ghost lo: seq<int>)
    requires builder.Valid() && IsLexicon(builder.states, source) && IsLexicon(builder.states, dest)
    requires buffers.Valid() && Holds(buffers.cwordin, up) && Holds(buffers.cwordout, lo)
    requires |Strip(up)| + |Strip(lo)| < BUFFER
    modifies builder, buffers.cwordin, buffers.cwordout, buffers.medcwordin, buffers.medcwordout
    ensures builder.Valid() && forall k :: IsLexicon(old(builder.states), k) ==> IsLexicon(builder.states, k)
    ensures forall p, u, q :: IsLexicon(old(builder.states), p) ==>
              (Entry(builder.states, p, u, q) <==>
               Entry(old(builder.states), p, u, q)
               || (!ExplicitEpsilon(up, lo) && p == source && u == AlignedWord(up, lo) && q == dest))
  {
    hide Align, Strip, Entry, TrieOk, MarksOk, Listed, OnlyEpsilon;
    buffers.MedPad(up, lo);
    var w := BufferedWord(buffers, AlignedWord(up, lo));
    LeftWithoutPairs(up, lo);
    builder.AddWord(source, dest, w);
  }
}
