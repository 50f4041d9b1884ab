/**
 Cutting the input of a lookup into symbols: the trie of the alphabet's symbols, the longest match at each
 position, and combining marks, which turn what they follow into one unlisted symbol. Characters are bytes.
 */
module SymbolMatching {
  import opened Automata
  import opened LookupMeaning
  import opened LookupPaths
  import opened OpenAlphabet
  import opened SigmaMerging

  // ----- The trie -----

  /** The cell that the letters of a prefix lead to; `next` says that an array hangs from it. */
  datatype TrieCell = TrieCell(signum: int, next: bool)

  function CellAt(cells: map<string, TrieCell>, w: string): TrieCell {
    if w in cells then cells[w] else TrieCell(0, false)
  }

  ghost predicate Extended(listed: map<string, int>, w: string) {
    exists v :: v in listed && w < v
  }

  ghost predicate CellOk(cells: map<string, TrieCell>, listed: map<string, int>, w: string) {
    && CellAt(cells, w).signum == (if w in listed then listed[w] else 0)
    && (CellAt(cells, w).next <==> Extended(listed, w))
  }

  /** The trie holds exactly the listed symbols, none of them empty, with their numbers. */
  ghost predicate TrieOk(cells: map<string, TrieCell>, listed: map<string, int>) {
    && (forall w :: w in listed ==> w != "" && listed[w] > IDENTITY)
    && (forall w :: w != "" ==> CellOk(cells, listed, w))
  }

  class SigmaTrie {
    var cells: map<string, TrieCell>
    ghost var listed: map<string, int>

    ghost predicate Valid()
      reads this
    {
      TrieOk(cells, listed)
    }

    constructor ()
      ensures Valid() && listed == map[]
    {
      cells, listed := map[], map[];
    }

    /** Enters a symbol letter by letter. */
    method AddSymbol(number: int, symbol: string)
      requires Valid() && symbol != "" && number > IDENTITY
      modifies this
      ensures Valid() && listed == old(listed)[symbol := number]
    {
      ghost var before := cells;
      var i := 0;
      while i < |symbol|
        invariant 0 <= i <= |symbol| && listed == old(listed)
        invariant forall w :: CellAt(cells, w) == Entered(before, symbol, number, i, w)
      {
        var prefix := symbol[..i + 1];
        var cell := CellAt(cells, prefix);
        ghost var was := cells;
        if i == |symbol| - 1 {
          cells := cells[prefix := cell.(signum := number)];
        } else if !cell.next {
          cells := cells[prefix := cell.(next := true)];
        }
        forall w ensures CellAt(cells, w) == Entered(before, symbol, number, i + 1, w) {
          PrefixGrows(symbol, w, i);
          assert CellAt(was, w) == Entered(before, symbol, number, i, w);
        }
        i := i + 1;
      }
      AllEntered(before, listed, cells, symbol, number);
      listed := listed[symbol := number];
    }
  }

  /** The cell for `w` once the first `i` letters of the symbol have been entered. */
  function Entered(before: map<string, TrieCell>, symbol: string, number: int, i: nat, w: string): TrieCell {
    var cell := CellAt(before, w);
    if w != "" && |w| <= i && w <= symbol then
      if w == symbol then cell.(signum := number) else cell.(next := true)
    else cell
  }

  lemma PrefixGrows(symbol: string, w: string, i: nat)
    requires i < |symbol|
    ensures w != "" && |w| <= i + 1 && w <= symbol <==> w == symbol[..i + 1] || (w != "" && |w| <= i && w <= symbol)
    ensures !(symbol[..i + 1] != "" && |symbol[..i + 1]| <= i)
    ensures symbol[..i + 1] == symbol <==> i == |symbol| - 1
  {
    if |w| == i + 1 && w <= symbol {
      assert w == symbol[..i + 1];
    }
  }

  lemma AllEntered(before: map<string, TrieCell>, listed: map<string, int>, cells: map<string, TrieCell>,
                   symbol: string, number: int)
    requires TrieOk(before, listed) && symbol != "" && number > IDENTITY
    requires forall w :: CellAt(cells, w) == Entered(before, symbol, number, |symbol|, w)
    ensures TrieOk(cells, listed[symbol := number])
  {
    var now := listed[symbol := number];
    forall w | w != "" ensures CellOk(cells, now, w) {
      assert CellOk(before, listed, w);
      assert w < symbol ==> symbol in now;
      if Extended(listed, w) {
        var v :| v in listed && w < v;
        assert v in now;
      }
      if Extended(now, w) {
        var v :| v in now && w < v;
        assert v == symbol || v in listed;
      }
    }
  }

  // ----- The longest match -----

  /** The next `m` letters from position `i` on are a listed symbol. */
  predicate ListedAt(listed: map<string, int>, input: string, i: nat, m: nat) {
    0 < m && i + m <= |input| && input[i..i + m] in listed
  }

  /** The longest listed symbol at position `i` has `len` letters; 0 if there is none. */
  ghost predicate Longest(listed: map<string, int>, input: string, i: nat, len: nat) {
    (len > 0 ==> ListedAt(listed, input, i, len)) && forall m :: len < m ==> !ListedAt(listed, input, i, m)
  }

  /** Goes down the trie as long as it can, and remembers the last symbol it came by. */
  method LongestMatch(trie: SigmaTrie, input: string, i: nat) returns (lastmatch: int, ghost len: nat)
    requires trie.Valid() && i < |input|
    ensures Longest(trie.listed, input, i, len)
    ensures lastmatch == if len == 0 then 0 else trie.listed[input[i..i + len]]
  {
    lastmatch, len := 0, 0;
    var j := 0;
    while i + j < |input|
      invariant 0 <= j && i + j <= |input|
      invariant len > 0 ==> ListedAt(trie.listed, input, i, len)
      invariant lastmatch == if len == 0 then 0 else trie.listed[input[i..i + len]]
      invariant forall m :: len < m <= j ==> !ListedAt(trie.listed, input, i, m)
      decreases |input| - i - j
    {
      var cell := CellAt(trie.cells, input[i..i + j + 1]);
      assert CellOk(trie.cells, trie.listed, input[i..i + j + 1]);
      ghost var stop := !cell.next;
      if stop {
        NoneLonger(trie.listed, input, i, j + 1);
      }
      assert ListedAt(trie.listed, input, i, j + 1) <==> cell.signum != 0;
      if cell.signum != 0 {
        lastmatch, len := cell.signum, j + 1;
        if !cell.next {
          return;
        }
      } else if !cell.next {
        return;
      }
      j := j + 1;
    }
  }

  lemma NoneLonger(listed: map<string, int>, input: string, i: nat, j: nat)
    requires i + j <= |input| && !Extended(listed, input[i..i + j])
    ensures forall m :: j < m ==> !ListedAt(listed, input, i, m)
  {
    forall m | j < m ensures !ListedAt(listed, input, i, m) {
      if i + m <= |input| {
        assert input[i..i + m][..j] == input[i..i + j];
        assert input[i..i + j] < input[i..i + m];
      }
    }
  }

  // ----- Bytes -----

  /** The byte at a position; the string ends in 0. */
  function ByteAt(s: string, i: nat): int {
    if i < |s| then s[i] as int else 0
  }

  /** How many bytes follow the first one of an encoded character; -1 if it is no first byte. */
  function Utf8Skip(c: int): (r: int)
    ensures -1 <= r <= 3
  {
    if c < 0x80 then 0
    else if 0xc0 <= c < 0xe0 then 1
    else if 0xe0 <= c < 0xf0 then 2
    else if 0xf0 <= c < 0xf8 then 3
    else -1
  }

  /** The length of the combining mark that stands here, or 0. */
  function Utf8IsCombining(s: string, i: nat): (r: nat)
    ensures r > 0 ==> i + r <= |s| && r == Utf8Skip(ByteAt(s, i)) + 1
  {
    var a, b, c := ByteAt(s, i), ByteAt(s, i + 1), ByteAt(s, i + 2);
    if a == 0 || b == 0 then 0
    else if a == 0xcc && 0x80 <= b <= 0xbf then 2
    else if a == 0xcd && 0x80 <= b <= 0xaf then 2
    else if c == 0 then 0
    else if a == 0xe1 && b == 0xaa && 0xb0 <= c <= 0xbe then 3
    else if a == 0xe1 && b == 0xb7 && 0x80 <= c <= 0xbf then 3
    else if a == 0xe2 && b == 0x83 && 0x90 <= c <= 0xb0 then 3
    else if a == 0xef && b == 0xb8 && 0xa0 <= c <= 0xad then 3
    else 0
  }

  /** The string can be cut into characters from position `i` on, as far as first bytes tell. */
  predicate Encoded(s: string, i: nat)
    decreases |s| - i
  {
    if i >= |s| then i == |s|
    else
      var skip := Utf8Skip(s[i] as int);
      skip >= 0 && Encoded(s, i + skip + 1)
  }

  /** Behind an encoded part, an encoded string goes on encoded. */
  lemma {:induction false} EncodedRest(s: string, i: nat, t: string, j: nat)
    requires Encoded(s, i) && Encoded(t, j) && i + |t| - j <= |s| && j <= |t| && s[i..i + |t| - j] == t[j..]
    ensures Encoded(s, i + |t| - j)
    decreases |t| - j
  {
    if j < |t| {
      var skip := Utf8Skip(t[j] as int);
      assert s[i] == s[i..i + |t| - j][0] == t[j];
      EncodedBound(t, j + skip + 1);
      assert s[i + skip + 1..i + |t| - j] == s[i..i + |t| - j][skip + 1..] == t[j + skip + 1..];
      EncodedRest(s, i + skip + 1, t, j + skip + 1);
    }
  }

  lemma {:induction false} EncodedBound(s: string, i: nat)
    requires Encoded(s, i)
    ensures i <= |s|
  {
  }

  // ----- Cutting the input -----

  /** From `a` to `e` there are combining marks, and at `e` there is none. */
  predicate Marks(input: string, a: nat, e: nat)
    decreases e - a
  {
    if a >= e then a == e && Utf8IsCombining(input, e) == 0
    else Utf8IsCombining(input, a) > 0 && Marks(input, a + Utf8IsCombining(input, a), e)
  }

  /** The longest listed symbol, or else one character, then all combining marks that follow. */
  ghost predicate Token(listed: map<string, int>, input: string, pos: nat, len: nat, base: nat) {
    && pos + len <= |input| && Marks(input, pos + base, pos + len)
    && (Longest(listed, input, pos, base)
        || (Longest(listed, input, pos, 0) && pos < |input| && base == Utf8Skip(input[pos] as int) + 1 > 0))
  }

  ghost predicate IsToken(listed: map<string, int>, input: string, pos: nat, len: nat) {
    exists base :: 0 < base <= len && Token(listed, input, pos, len, base)
  }

  /** A token has the number of a listed symbol, or IDENTITY if it is none. */
  function NumberOf(listed: map<string, int>, w: string): int {
    if w in listed then listed[w] else IDENTITY
  }

  /** The match array has an entry for the token at `pos`, with its number and length. */
  ghost predicate TokenEntry(listed: map<string, int>, input: string, sigmatch: seq<Match>, pos: nat, len: nat) {
    && IsToken(listed, input, pos, len) && 0 < len && pos + len <= |input| && pos < |sigmatch|
    && sigmatch[pos] == Match(NumberOf(listed, input[pos..pos + len]), len)
  }

  /** The names cut off up to position `i`, each at its place in the match array. */
  ghost predicate Cut(listed: map<string, int>, input: string, sigmatch: seq<Match>, x: seq<string>, i: nat) {
    && i <= |input| && Joined(x) == input[..i]
    && forall k :: 0 <= k < |x| ==> TokenEntry(listed, input, sigmatch, StartOf(x, k), |x[k]|)
  }

  /** The number of letters that the base of a token has: the last match's, or those of a character. */
  lemma BaseIsToken(listed: map<string, int>, input: string, pos: nat, base: nat, len: nat)
    requires pos < |input| && Marks(input, pos + base, pos + len) && 0 < base <= len && pos + len <= |input|
    requires Longest(listed, input, pos, base)
             || (Longest(listed, input, pos, 0) && base == Utf8Skip(input[pos] as int) + 1)
    ensures IsToken(listed, input, pos, len)
    ensures input[pos..pos + len] in listed <==> ListedAt(listed, input, pos, base) && len == base
  {
    assert Token(listed, input, pos, len, base);
    assert input[pos..pos + len] in listed <==> ListedAt(listed, input, pos, len);
  }

  /** Unused entries are empty; the others stay within the input and take something of it. */
  predicate EntriesOk(input: string, sigmatch: seq<Match>) {
    forall i :: 0 <= i < |sigmatch| ==>
                  sigmatch[i] == Match(EPSILON, 0) || (sigmatch[i].consumes > 0 && i + sigmatch[i].consumes <= |input|)
  }

  /** One more token is cut off. */
  lemma CutMore(listed: map<string, int>, input: string, sigmatch: seq<Match>, x: seq<string>, i: nat, len: nat)
    requires Cut(listed, input, sigmatch, x, i) && i < |sigmatch| && IsToken(listed, input, i, len)
             && 0 < len && i + len <= |input|
    ensures var w := input[i..i + len];
            Cut(listed, input, sigmatch[i := Match(NumberOf(listed, w), len)], x + [w], i + len)
  {
    hide IsToken, Joined;
    var w := input[i..i + len];
    var after, more := sigmatch[i := Match(NumberOf(listed, w), len)], x + [w];
    JoinedOne(x, w);
    assert input[..i] + w == input[..i + len];
    assert more[..|x|] == x;
    forall k | 0 <= k < |more| ensures TokenEntry(listed, input, after, StartOf(more, k), |more[k]|) {
      if k < |x| {
        assert more[..k] == x[..k];
        StartsBefore(listed, input, sigmatch, x, i, k);
      }
    }
  }

  lemma StartsBefore(listed: map<string, int>, input: string, sigmatch: seq<Match>, x: seq<string>, i: nat, k: nat)
    requires Cut(listed, input, sigmatch, x, i) && k < |x|
    ensures StartOf(x, k) + |x[k]| <= i && 0 < |x[k]| && TokenEntry(listed, input, sigmatch, StartOf(x, k), |x[k]|)
  {
    JoinedPrefix(x, k);
  }

  /** The texts by number belong to the listed symbols, which are whole characters. */
  ghost predicate TextsOk(sigs: map<int, string>, listed: map<string, int>) {
    forall w :: w in listed ==> listed[w] in sigs && sigs[listed[w]] == w && Encoded(w, 0)
  }

  /** Past the combining marks that follow a symbol. */
  method SkipMarks(input: string, a: nat) returns (e: nat)
    requires a <= |input| && Encoded(input, a)
    ensures a <= e <= |input| && Marks(input, a, e) && Encoded(input, e)
    ensures e == a <==> Utf8IsCombining(input, a) == 0
  {
    e := a;
    var cons := Utf8IsCombining(input, e);
    while cons != 0
      invariant a <= e <= |input| && Encoded(input, e) && cons == Utf8IsCombining(input, e)
      invariant forall f :: Marks(input, e, f) ==> Marks(input, a, f)
      invariant e == a || Utf8IsCombining(input, a) != 0
      decreases |input| - e
    {
      e := e + cons;
      EncodedBound(input, e);
      cons := Utf8IsCombining(input, e);
    }
    assert Marks(input, e, e);
  }

  /** Where the base of the next token ends. */
  lemma BaseEnds(listed: map<string, int>, sigs: map<int, string>, input: string, i: nat, len: nat)
    requires TextsOk(sigs, listed) && Encoded(input, i) && i < |input| && Longest(listed, input, i, len)
    ensures len > 0 ==> i + len <= |input| && Encoded(input, i + len)
    ensures len == 0 ==> var skip := Utf8Skip(input[i] as int);
                         skip >= 0 && i + skip + 1 <= |input| && Encoded(input, i + skip + 1)
  {
    if len > 0 {
      var w := input[i..i + len];
      EncodedRest(input, i, w, 0);
    } else {
      EncodedBound(input, i + Utf8Skip(input[i] as int) + 1);
    }
  }

  /**
   Fills the match array: at the start of each token its number and length. A token is the longest listed
   symbol, or one character, with the combining marks that follow; with marks it counts as unlisted, which
   is right, since a listed symbol that includes them would have been longer.
   */
  method CreateSigmatch(trie: SigmaTrie, sigs: map<int, string>, input: string)
    returns (sigmatch: array<Match>, ghost x: seq<string>)
    requires trie.Valid() && TextsOk(sigs, trie.listed) && Encoded(input, 0)
    ensures fresh(sigmatch) && sigmatch.Length == |input| && Cut(trie.listed, input, sigmatch[..], x, |input|)
    ensures EntriesOk(input, sigmatch[..])
  {
    hide TextsOk, Encoded, Cut, Longest, Marks, IsToken, ListedAt, TrieOk, EntriesOk, Utf8IsCombining;
    sigmatch := new Match[|input|](_ => Match(EPSILON, 0));
    x := [];
    NothingCut(trie.listed, input, sigmatch[..]);
    var i := 0;
    while i < |input|
      invariant 0 <= i <= |input| && Encoded(input, i) && Cut(trie.listed, input, sigmatch[..], x, i)
      invariant EntriesOk(input, sigmatch[..])
    {
      ghost var was := sigmatch[..];
      var lastmatch, len := LongestMatch(trie, input, i);
      BaseEnds(trie.listed, sigs, input, i, len);
      NumbersAreTexts(trie.cells, trie.listed, sigs, input, i, len);
      var signumber, consumes := IDENTITY, Utf8Skip(input[i] as int) + 1;
      if lastmatch != 0 {
        signumber, consumes := lastmatch, |sigs[lastmatch]|;
      }
      var e := SkipMarks(input, i + consumes);
      BaseIsToken(trie.listed, input, i, consumes, e - i);
      if e != i + consumes {
        signumber := IDENTITY;
      }
      NumberedAs(trie.listed, input, i, len, consumes, e - i, signumber, lastmatch);
      sigmatch[i] := Match(signumber, e - i);
      assert sigmatch[..] == was[i := Match(signumber, e - i)];
      CutMore(trie.listed, input, was, x, i, e - i);
      EntryWritten(input, was, i, Match(signumber, e - i));
      x := x + [input[i..e]];
      i := e;
    }
    EncodedBound(input, i);
  }

  lemma EntryWritten(input: string, sigmatch: seq<Match>, i: nat, m: Match)
    requires i < |sigmatch| && m.consumes > 0 && i + m.consumes <= |input| && EntriesOk(input, sigmatch)
    ensures EntriesOk(input, sigmatch[i := m])
  {
  }

  lemma NothingCut(listed: map<string, int>, input: string, sigmatch: seq<Match>)
    ensures Cut(listed, input, sigmatch, [], 0)
    ensures (forall i :: 0 <= i < |sigmatch| ==> sigmatch[i] == Match(EPSILON, 0)) ==> EntriesOk(input, sigmatch)
  {
  }

  lemma NumbersAreTexts(cells: map<string, TrieCell>, listed: map<string, int>, sigs: map<int, string>, input: string,
                        i: nat, len: nat)
    requires TrieOk(cells, listed) && TextsOk(sigs, listed) && Longest(listed, input, i, len)
    ensures len > 0 ==> ListedAt(listed, input, i, len) && i + len <= |input|
                        && listed[input[i..i + len]] > IDENTITY && listed[input[i..i + len]] in sigs
                        && |sigs[listed[input[i..i + len]]]| == len
  {
  }

  /** The number written is that of the whole token. */
  lemma NumberedAs(listed: map<string, int>, input: string, i: nat, len: nat, base: nat, all: nat, signumber: int,
                   lastmatch: int)
    requires i + all <= |input| && base <= all && Longest(listed, input, i, len)
    requires if len > 0 then base == len && ListedAt(listed, input, i, len) && lastmatch == listed[input[i..i + len]]
             else lastmatch == 0
    requires input[i..i + all] in listed <==> ListedAt(listed, input, i, base) && all == base
    requires signumber == if len > 0 && all == base then lastmatch else IDENTITY
    ensures signumber == NumberOf(listed, input[i..i + all])
  {
  }

  // ----- The alphabet -----

  predicate ListedAs(listed: map<string, int>, w: string, n: int) {
    w in listed && listed[w] == n
  }

  /** The trie lists the ordinary symbols of the alphabet. */
  ghost predicate ListsAlphabet(listed: map<string, int>, s: seq<Symbol>) {
    forall w, n :: ListedAs(listed, w, n) <==> Ordinary(s, n, w)
  }

  /** The symbols of an alphabet: none empty, all whole characters. */
  ghost predicate NamesOk(s: seq<Symbol>) {
    forall a :: 0 <= a < |s| && s[a].number > IDENTITY ==> s[a].name != "" && Encoded(s[a].name, 0)
  }

  /** The texts of the alphabet's ordinary symbols. */
  ghost predicate TextsOf(sigs: map<int, string>, s: seq<Symbol>) {
    forall a :: 0 <= a < |s| && s[a].number > IDENTITY ==> s[a].number in sigs && sigs[s[a].number] == s[a].name
  }

  lemma OneMoreSymbol(listed: map<string, int>, sigs: map<int, string>, s: seq<Symbol>, a: nat)
    requires a < |s| && Distinguishes(s) && ListsAlphabet(listed, s[..a]) && TextsOf(sigs, s[..a])
    ensures ListsAlphabet(if s[a].number > IDENTITY then listed[s[a].name := s[a].number] else listed, s[..a + 1])
    ensures TextsOf(sigs[s[a].number := s[a].name], s[..a + 1])
  {
    hide NamesOk;
    var more := if s[a].number > IDENTITY then listed[s[a].name := s[a].number] else listed;
    forall w, n ensures ListedAs(more, w, n) <==> Ordinary(s[..a + 1], n, w) {
      OrdinaryGrows(s, a, n, w);
      assert ListedAs(listed, w, n) <==> Ordinary(s[..a], n, w);
      if s[a].number > IDENTITY && Ordinary(s[..a], n, w) {
        OneNumber(s, a, n, w);
      }
    }
  }

  /** A symbol not seen before has a name not seen before. */
  lemma OneNumber(s: seq<Symbol>, a: nat, n: int, w: string)
    requires a < |s| && Distinguishes(s) && s[a].number > IDENTITY && Ordinary(s[..a], n, w)
    ensures s[a].name != w
  {
    var i :| 0 <= i < a && s[..a][i].number == n > IDENTITY && s[..a][i].name == w;
  }

  lemma OrdinaryGrows(s: seq<Symbol>, a: nat, n: int, w: string)
    requires a < |s|
    ensures Ordinary(s[..a + 1], n, w) <==> Ordinary(s[..a], n, w) || (s[a].number == n > IDENTITY && s[a].name == w)
  {
    if s[a].number == n > IDENTITY && s[a].name == w {
      assert s[..a + 1][a] == s[a];
    }
    if Ordinary(s[..a], n, w) {
      var i :| 0 <= i < a && s[..a][i].number == n > IDENTITY && s[..a][i].name == w;
      assert s[..a + 1][i] == s[..a][i];
    }
  }

  /** Enters the ordinary symbols in the trie, and all symbols' texts in an array. */
  method CreateSigarray(s: seq<Symbol>) returns (trie: SigmaTrie, sigs: map<int, string>)
    requires Distinguishes(s) && NamesOk(s)
    ensures fresh(trie) && trie.Valid() && ListsAlphabet(trie.listed, s) && TextsOf(sigs, s)
    ensures TextsOk(sigs, trie.listed)
  {
    hide TrieOk, ListsAlphabet, TextsOf, TextsOk, Encoded, Distinguishes;
    trie := new SigmaTrie();
    sigs := map[];
    NoSymbols();
    assert s[..0] == [];
    var a := 0;
    while a < |s|
      invariant 0 <= a <= |s| && fresh(trie) && trie.Valid()
      invariant ListsAlphabet(trie.listed, s[..a]) && TextsOf(sigs, s[..a])
    {
      OneMoreSymbol(trie.listed, sigs, s, a);
      sigs := sigs[s[a].number := s[a].name];
      if s[a].number > IDENTITY {
        trie.AddSymbol(s[a].number, s[a].name);
      }
      a := a + 1;
    }
    assert s[..a] == s;
    TextsAgree(trie.listed, sigs, s);
  }

  lemma NoSymbols()
    ensures ListsAlphabet(map[], []) && TextsOf(map[], [])
  {
  }

  lemma TextsAgree(listed: map<string, int>, sigs: map<int, string>, s: seq<Symbol>)
    requires ListsAlphabet(listed, s) && TextsOf(sigs, s) && NamesOk(s)
    ensures TextsOk(sigs, listed)
  {
    forall w | w in listed ensures listed[w] in sigs && sigs[listed[w]] == w && Encoded(w, 0) {
      assert ListedAs(listed, w, listed[w]) && Ordinary(s, listed[w], w);
    }
  }

  /** A match array filled this way reads the input as the names it was cut into. */
  lemma CutReads(q: Query, s: seq<Symbol>, listed: map<string, int>, x: seq<string>)
    requires ListsAlphabet(listed, s) && Cut(listed, q.input, q.sigmatch, x, |q.input|)
    ensures ReadsAs(q, s, x)
  {
    hide ListsAlphabet, IsToken, NameAt, Joined;
    assert q.input[..|q.input|] == q.input;
    forall k | 0 <= k < |x| ensures NameAt(q, s, x, k) {
      PieceIsName(q, listed, x, k);
      NameListed(q, s, listed, x, k);
    }
  }

  lemma PieceIsName(q: Query, listed: map<string, int>, x: seq<string>, k: nat)
    requires Cut(listed, q.input, q.sigmatch, x, |q.input|) && k < |x|
    ensures var pos := StartOf(x, k);
            && x[k] != "" && pos + |x[k]| <= |q.input| && pos < |q.sigmatch|
            && q.sigmatch[pos] == Match(NumberOf(listed, x[k]), |x[k]|)
  {
    hide IsToken, Joined;
    JoinedPrefix(x, k);
    var pos := StartOf(x, k);
    assert q.input[..|q.input|] == q.input;
    PieceOf(q.input, Joined(x[..k]), x[k]);
    assert TokenEntry(listed, q.input, q.sigmatch, pos, |x[k]|);
  }

  lemma PieceOf(input: string, front: string, w: string)
    requires front + w <= input
    ensures input[|front|..|front| + |w|] == w
  {
    assert input[..|front| + |w|] == front + w;
  }

  lemma NameListed(q: Query, s: seq<Symbol>, listed: map<string, int>, x: seq<string>, k: nat)
    requires ListsAlphabet(listed, s) && k < |x| && x[k] != "" && StartOf(x, k) < |q.sigmatch|
    requires q.sigmatch[StartOf(x, k)] == Match(NumberOf(listed, x[k]), |x[k]|)
    ensures NameAt(q, s, x, k)
  {
    hide StartOf;
    if x[k] in listed {
      assert ListedAs(listed, x[k], listed[x[k]]);
      OrdinaryInside(s, listed[x[k]], x[k]);
    } else {
      NotListedOutside(listed, s, x[k]);
    }
  }

  lemma NotListedOutside(listed: map<string, int>, s: seq<Symbol>, w: string)
    requires ListsAlphabet(listed, s) && w !in listed
    ensures Outside(s, w)
  {
    forall a | 0 <= a < |s| && s[a].number > IDENTITY ensures s[a].name != w {
      assert Ordinary(s, s[a].number, s[a].name);
      assert ListedAs(listed, s[a].name, s[a].number);
    }
  }

  lemma OrdinaryInside(s: seq<Symbol>, n: int, w: string)
    requires Ordinary(s, n, w)
    ensures !Outside(s, w)
  {
  }
}
