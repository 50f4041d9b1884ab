/** Looking a word up, from its bytes to the strings printed: alphabet, match array, search and what they mean. */
module WordLookup {
  import opened Automata
  import Flags
  import opened Lookup
  import opened LookupMeaning
  import opened LookupOrder
  import opened LookupPaths
  import opened NetReading
  import opened OpenAlphabet
  import opened SigmaExpansion
  import opened SigmaMerging
  import opened SymbolMatching

  /** What lookup takes for granted of a net, its alphabet and its flags; it has no `?` on the output side. */
  ghost predicate Lookable(lines: seq<Line>, n: nat, s: seq<Symbol>, flagOf: map<int, Flags.Flag>) {
    && WellFormed(lines, n) && lines != [] && Distinguishes(s) && NamesOk(s) && NetKnown(s, lines)
    && (forall k :: k in flagOf ==> k > IDENTITY && Flags.WellWritten(flagOf[k]))
    && (forall l :: l in lines ==> l.lower != UNKNOWN)
  }

  lemma QueryOk(q: Query, n: nat, s: seq<Symbol>, listed: map<string, int>, x: seq<string>)
    requires Lookable(q.lines, n, s, q.flagOf) && TextsOf(q.text, s) && ListsAlphabet(listed, s)
    requires |q.sigmatch| == |q.input| && EntriesOk(q.input, q.sigmatch)
             && Cut(listed, q.input, q.sigmatch, x, |q.input|)
    ensures q.Valid(n) && LooksUp(q, s) && ReadsAs(q, s, x) && NoEmptyMatch(q)
  {
    hide Cut, ListsAlphabet, ReadsAs, WellFormed, NetKnown, Distinguishes;
    CutReads(q, s, listed, x);
  }

  /**
   Looks a word up and prints the first answer and at most `limit` more. What is printed is, joined, what an
   accepting path with legal flags makes of the word, cut into symbols. In a net without circles that consume
   nothing, all such strings are printed if fewer than the limit allows have been; without flags, these are
   the strings that the net relates the word to over the open alphabet.
   */
  method ApplyDownWord(lines: seq<Line>, n: nat, s: seq<Symbol>, flagOf: map<int, Flags.Flag>, word: string, limit: nat)
    returns (printed: seq<string>, ghost q: Query, ghost listed: map<string, int>, ghost x: seq<string>)
    requires Lookable(lines, n, s, flagOf) && Encoded(word, 0)
    ensures q.lines == lines && q.flagOf == flagOf && q.input == word
    ensures ListsAlphabet(listed, s) && Cut(listed, word, q.sigmatch, x, |word|) && ReadsAs(q, s, x)
    ensures forall out :: out in printed ==> Denoted(q, s, x, out)
    ensures ArclessAlone(lines) && (forall c :: !SilentCycle(q, c)) ==>
              |printed| <= limit + 1
              && (|printed| <= limit ==> forall out :: out in printed <==> Denoted(q, s, x, out))
              && (|printed| <= limit && flagOf == map[] && (forall a :: Starts(lines, a) <==> a == lines[0].state) ==>
                    forall out :: out in printed <==> exists z :: OpenRelates(lines, s, x, z) && Joined(z) == out)
  {
    hide Lookable, TextsOf, ListsAlphabet, EntriesOk, Cut, SilentCycle, Complete, Answer, Denoted, OpenRelates, Starts,
         Calm, ReadsAs, LooksUp, Joined, TextsOk, Encoded, ApplyHandle.Ready, Listed, WellFormed;
    AlphabetKnown(lines, n, s, flagOf);
    var trie, sigs := CreateSigarray(s);
    var sigmatch;
    sigmatch, x := CreateSigmatch(trie, sigs, word);
    var query := Query(lines, flagOf, sigs, word, sigmatch[..]);
    q, listed := query, trie.listed;
    QueryOk(q, n, s, listed, x);
    var ah := new ApplyHandle(query, n);
    printed := IfaceApplyDown(ah, limit, Enough(query, n) + 1);
    PrintedDenoted(q, n, s, x, printed, limit, ah.answered);
  }

  lemma AlphabetKnown(lines: seq<Line>, n: nat, s: seq<Symbol>, flagOf: map<int, Flags.Flag>)
    requires Lookable(lines, n, s, flagOf)
    ensures Distinguishes(s) && NamesOk(s)
  {
  }

  lemma PrintedDenoted(q: Query, n: nat, s: seq<Symbol>, x: seq<string>, printed: seq<string>, limit: nat,
                       answered: seq<seq<int>>)
    requires q.Valid(n) && LooksUp(q, s) && ReadsAs(q, s, x) && NoEmptyMatch(q)
    requires forall out :: out in printed ==> Answer(q, out)
    requires Calm(q) ==> printed == Outputs(q, answered) && |printed| <= limit + 1
                         && (|printed| <= limit ==> Complete(q, answered))
    ensures forall out :: out in printed ==> Denoted(q, s, x, out)
    ensures ArclessAlone(q.lines) && (forall c :: !SilentCycle(q, c)) ==>
              |printed| <= limit + 1
              && (|printed| <= limit ==> forall out :: out in printed <==> Denoted(q, s, x, out))
              && (|printed| <= limit && q.flagOf == map[]
                  && (forall a :: Starts(q.lines, a) <==> a == q.lines[0].state) ==>
                    forall out :: out in printed <==> exists z :: OpenRelates(q.lines, s, x, z) && Joined(z) == out)
  {
    hide LooksUp, ReadsAs, NoEmptyMatch, Answer, Denoted, SilentCycle, Complete, OpenRelates, Starts, Joined,
         ArclessAlone;
    forall out ensures Answer(q, out) <==> Denoted(q, s, x, out) {
      AnswerMeans(q, n, s, x, out);
    }
    if Calm(q) && |printed| <= limit {
      CompleteAnswers(q, answered);
      if q.flagOf == map[] && forall a :: Starts(q.lines, a) <==> a == q.lines[0].state {
        CompleteMeans(q, n, s, x, answered);
      }
    }
  }
}
