/**
 What a net denotes over an open alphabet: UNKNOWN and IDENTITY stand for symbols outside the
 net's own symbol list, so the same lines mean different relations under different lists.
 */
module OpenAlphabet {
  import opened Automata
  import opened SigmaMerging

  /** One cell of a tape: nothing (EPSILON), or any symbol, listed in an alphabet or not. */
  datatype Cell = Silent | Spoken(name: string)

  datatype Cells = Cells(upper: Cell, lower: Cell)

  /** The ordinary symbol numbered `n` is `x`. */
  ghost predicate Ordinary(s: seq<Symbol>, n: int, x: string) {
    exists a :: 0 <= a < |s| && s[a].number == n > IDENTITY && s[a].name == x
  }

  /** `x` is not among the ordinary symbols of `s`. */
  ghost predicate Outside(s: seq<Symbol>, x: string) {
    forall a :: 0 <= a < |s| && s[a].number > IDENTITY ==> s[a].name != x
  }

  /** An alphabet whose ordinary symbols have different names and numbers. */
  ghost predicate Distinguishes(s: seq<Symbol>) {
    forall i, j :: 0 <= i < j < |s| && s[i].number > IDENTITY && s[j].number > IDENTITY ==>
                     s[i].name != s[j].name && s[i].number != s[j].number
  }

  lemma SortedDistinguishes(s: seq<Symbol>)
    requires SigmaOk(s)
    ensures Distinguishes(s)
  {
    forall i, j | 0 <= i < j < |s| && s[i].number > IDENTITY && s[j].number > IDENTITY
      ensures s[i].name != s[j].name && s[i].number != s[j].number
    {
      assert Precedes(s[i], s[j]);
      BeforeTotal(s[i].name, s[j].name);
    }
  }

  /** An ordinary symbol is not outside, and has one number. */
  lemma OneMeaning(s: seq<Symbol>, n: int, k: int, x: string)
    requires Distinguishes(s) && Ordinary(s, n, x)
    ensures n > IDENTITY && !Outside(s, x) && (Ordinary(s, k, x) ==> k == n)
  {
  }

  ghost predicate MeansSide(s: seq<Symbol>, n: int, t: Cell) {
    if n == EPSILON then t.Silent?
    else t.Spoken? && (if n == UNKNOWN then Outside(s, t.name) else Ordinary(s, n, t.name))
  }

  /**
   An arc's meaning: @:@ is u:u and ?:? is u:v with u and v distinct, ?:x and x:? leave u free,
   where u and v are symbols outside the alphabet.
   */
  ghost predicate Means(s: seq<Symbol>, l: Label, c: Cells) {
    if l == Label(IDENTITY, IDENTITY) then
      c.upper.Spoken? && c.lower == c.upper && Outside(s, c.upper.name)
    else if l == Label(UNKNOWN, UNKNOWN) then
      c.upper.Spoken? && c.lower.Spoken? && c.upper != c.lower && Outside(s, c.upper.name) && Outside(s, c.lower.name)
    else
      MeansSide(s, l.upper, c.upper) && MeansSide(s, l.lower, c.lower)
  }

  ghost predicate MovesOn(s: seq<Symbol>, l: Line, p: int, c: Cells, q: int) {
    l.state == p && l.target == q >= 0 && Means(s, l.ToLabel(), c)
  }

  ghost predicate Moves(lines: seq<Line>, s: seq<Symbol>, p: int, c: Cells, q: int) {
    exists k :: 0 <= k < |lines| && MovesOn(s, lines[k], p, c, q)
  }

  ghost predicate Spells(lines: seq<Line>, s: seq<Symbol>, p: int, w: seq<Cells>, q: int)
    decreases |w|
  {
    if w == [] then p == q
    else exists r :: Moves(lines, s, p, w[0], r) && Spells(lines, s, r, w[1..], q)
  }

  ghost predicate Starts(lines: seq<Line>, p: int) {
    exists k :: 0 <= k < |lines| && lines[k].start && lines[k].state == p
  }

  ghost predicate Finals(lines: seq<Line>, p: int) {
    exists k :: 0 <= k < |lines| && lines[k].final && lines[k].state == p
  }

  ghost predicate OpenAccepts(lines: seq<Line>, s: seq<Symbol>, w: seq<Cells>) {
    exists p, q :: Starts(lines, p) && Finals(lines, q) && Spells(lines, s, p, w, q)
  }

  function UpperNames(w: seq<Cells>): seq<string> {
    if w == [] then [] else (if w[0].upper.Silent? then [] else [w[0].upper.name]) + UpperNames(w[1..])
  }

  function LowerNames(w: seq<Cells>): seq<string> {
    if w == [] then [] else (if w[0].lower.Silent? then [] else [w[0].lower.name]) + LowerNames(w[1..])
  }

  /** The relation on strings over the open alphabet. */
  ghost predicate OpenRelates(lines: seq<Line>, s: seq<Symbol>, x: seq<string>, z: seq<string>) {
    exists w :: OpenAccepts(lines, s, w) && UpperNames(w) == x && LowerNames(w) == z
  }

  /** The two nets, each under its own alphabet, make the same moves between the same states. */
  ghost predicate SameMoves(lines: seq<Line>, s: seq<Symbol>, lines': seq<Line>, s': seq<Symbol>) {
    && (forall p, c, q :: Moves(lines, s, p, c, q) <==> Moves(lines', s', p, c, q))
    && (forall p :: Starts(lines, p) <==> Starts(lines', p))
    && (forall p :: Finals(lines, p) <==> Finals(lines', p))
  }

  lemma {:induction false} SameSpells(lines: seq<Line>, s: seq<Symbol>, lines': seq<Line>, s': seq<Symbol>, p: int,
                                      w: seq<Cells>, q: int)
    requires SameMoves(lines, s, lines', s') && Spells(lines, s, p, w, q)
    ensures Spells(lines', s', p, w, q)
    decreases |w|
  {
    if w != [] {
      var r :| Moves(lines, s, p, w[0], r) && Spells(lines, s, r, w[1..], q);
      SameSpells(lines, s, lines', s', r, w[1..], q);
      assert Moves(lines', s', p, w[0], r);
    }
  }

  /** The two nets accept the same cell strings, and denote the same relation. */
  ghost predicate SameRelation(lines: seq<Line>, s: seq<Symbol>, lines': seq<Line>, s': seq<Symbol>) {
    && (forall w :: OpenAccepts(lines, s, w) <==> OpenAccepts(lines', s', w))
    && (forall x, z :: OpenRelates(lines, s, x, z) <==> OpenRelates(lines', s', x, z))
  }

  lemma SameMovesSameRelation(lines: seq<Line>, s: seq<Symbol>, lines': seq<Line>, s': seq<Symbol>)
    requires SameMoves(lines, s, lines', s')
    ensures SameRelation(lines, s, lines', s')
  {
    hide Moves, Starts, Finals;
    forall w ensures OpenAccepts(lines, s, w) <==> OpenAccepts(lines', s', w) {
      if OpenAccepts(lines, s, w) {
        var p, q :| Starts(lines, p) && Finals(lines, q) && Spells(lines, s, p, w, q);
        SameSpells(lines, s, lines', s', p, w, q);
        assert Starts(lines', p) && Finals(lines', q);
      }
      if OpenAccepts(lines', s', w) {
        var p, q :| Starts(lines', p) && Finals(lines', q) && Spells(lines', s', p, w, q);
        SameSpells(lines', s', lines, s, p, w, q);
        assert Starts(lines, p) && Finals(lines, q);
      }
    }
    forall x, z ensures OpenRelates(lines, s, x, z) <==> OpenRelates(lines', s', x, z) {
      if OpenRelates(lines, s, x, z) {
        var w :| OpenAccepts(lines, s, w) && UpperNames(w) == x && LowerNames(w) == z;
        assert OpenAccepts(lines', s', w);
      }
      if OpenRelates(lines', s', x, z) {
        var w :| OpenAccepts(lines', s', w) && UpperNames(w) == x && LowerNames(w) == z;
        assert OpenAccepts(lines, s, w);
      }
    }
  }
}
