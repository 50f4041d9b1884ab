/**
 What looking a string up means: the answers are the strings that the net relates the input to over the
 open alphabet, along paths whose flags are legal.
 */
module LookupMeaning {
  import opened Automata
  import Flags
  import LookupOrder
  import opened LookupPaths
  import opened NetReading
  import opened OpenAlphabet
  import opened SigmaExpansion
  import opened SigmaMerging

  function Joined(x: seq<string>): string {
    if x == [] then "" else Joined(x[..|x| - 1]) + x[|x| - 1]
  }

  /** Where in the joined string the `k`-th name starts. */
  function StartOf(x: seq<string>, k: nat): nat
    requires k <= |x|
  {
    |Joined(x[..k])|
  }

  /**
   The query looks up in a net over the alphabet `s`: its symbols are listed, with these texts, among them its
   well-written flags, and it outputs no `?`.
   */
  ghost predicate LooksUp(q: Query, s: seq<Symbol>) {
    && Distinguishes(s) && NetKnown(s, q.lines)
    && (forall a :: 0 <= a < |s| && s[a].number > IDENTITY ==>
                      s[a].number in q.text && q.text[s[a].number] == s[a].name)
    && (forall n :: n in q.flagOf ==> n > IDENTITY && Flags.WellWritten(q.flagOf[n]))
    && (forall l :: l in q.lines ==> l.lower != UNKNOWN)
  }

  /** At the `k`-th name the match array holds its length, and its number or else IDENTITY. */
  ghost predicate NameAt(q: Query, s: seq<Symbol>, x: seq<string>, k: nat)
    requires k < |x|
  {
    var pos := StartOf(x, k);
    && x[k] != "" && pos < |q.sigmatch| && q.sigmatch[pos].consumes == |x[k]|
    && (if Outside(s, x[k]) then q.sigmatch[pos].signumber ==
        IDENTITY else Ordinary(s, q.sigmatch[pos].signumber, x[k]))
  }

  /** The match array reads the input as these names. */
  ghost predicate ReadsAs(q: Query, s: seq<Symbol>, x: seq<string>) {
    Joined(x) == q.input && forall k :: 0 <= k < |x| ==> NameAt(q, s, x, k)
  }

  // ----- Paths and what they tell -----

  /** The lines numbered `p` are a path of arcs from state `a`. */
  ghost predicate PathFrom(lines: seq<Line>, a: int, p: seq<int>) {
    forall i :: 0 <= i < |p| ==> ArcFrom(lines, a, p, i)
  }

  /** The path's arc `i` leaves the state that the arc before it leads to. */
  predicate ArcFrom(lines: seq<Line>, a: int, p: seq<int>, i: nat)
    requires i < |p|
  {
    && 0 <= p[i] < |lines| && lines[p[i]].target >= 0
    && (if i == 0 then lines[p[i]].state == a
        else 0 <= p[i - 1] < |lines| && lines[p[i]].state == lines[p[i - 1]].target)
  }

  function EndOf(lines: seq<Line>, a: int, p: seq<int>): int
  {
    if p != [] && 0 <= p[|p| - 1] < |lines| then lines[p[|p| - 1]].target else a
  }

  /** The symbol pair of an arc, a flag taken for EPSILON. */
  function Unflagged(q: Query, l: Line): Label {
    Label(if l.upper in q.flagOf then EPSILON else l.upper, if l.lower in q.flagOf then EPSILON else l.lower)
  }

  /** The cells `w` are a meaning of the path, arc by arc. */
  ghost predicate Tells(q: Query, s: seq<Symbol>, p: seq<int>, w: seq<Cells>) {
    |w| == |p| && forall i :: 0 <= i < |p| ==> 0 <= p[i] < |q.lines| && Means(s, Unflagged(q, q.lines[p[i]]), w[i])
  }

  function InputSymbol(q: Query, k: int): Flags.Symbol {
    if 0 <= k < |q.lines| && q.lines[k].upper in q.flagOf then Flags.FlagSymbol(q.flagOf[q.lines[k].upper])
    else Flags.Plain(if 0 <= k < |q.lines| then q.lines[k].upper else EPSILON)
  }

  /** The input symbols along a path, flags told from others. */
  function FlagWord(q: Query, p: seq<int>): (w: seq<Flags.Symbol>)
    ensures |w| == |p| && forall i :: 0 <= i < |p| ==> w[i] == InputSymbol(q, p[i])
  {
    seq(|p|, i requires 0 <= i < |p| => InputSymbol(q, p[i]))
  }

  /** An accepting path, legal in its flags, means that `x` becomes `z`. */
  ghost predicate Becomes(q: Query, s: seq<Symbol>, x: seq<string>, z: seq<string>, p: seq<int>, w: seq<Cells>) {
    && q.lines != [] && PathFrom(q.lines, q.lines[0].state, p) && Finals(q.lines, EndOf(q.lines, q.lines[0].state, p))
    && Flags.LegalWord(FlagWord(q, p)) && Tells(q, s, p, w) && UpperNames(w) == x && LowerNames(w) == z
  }

  /** The string is, joined, what such a path makes of `x`. */
  ghost predicate Denoted(q: Query, s: seq<Symbol>, x: seq<string>, out: string) {
    exists z, p, w :: Becomes(q, s, x, z, p, w) && Joined(z) == out
  }

  // ----- Names, joined and cut -----

  lemma JoinedOne(x: seq<string>, t: string)
    ensures Joined(x + [t]) == Joined(x) + t
  {
    assert (x + [t])[..|x|] == x;
  }

  lemma {:induction false} JoinedPrefix(x: seq<string>, k: nat)
    requires k <= |x|
    ensures Joined(x[..k]) <= Joined(x)
    ensures k < |x| ==> Joined(x[..k]) + x[k] <= Joined(x)
    decreases |x|
  {
    if k == |x| {
      assert x[..k] == x;
    } else {
      var front := x[..|x| - 1];
      JoinedPrefix(front, k);
      assert front[..k] == x[..k];
      assert k < |front| ==> front[k] == x[k];
    }
  }

  lemma {:induction false} UpperNamesOne(u: seq<Cells>, c: Cells)
    ensures UpperNames(u + [c]) == UpperNames(u) + if c.upper.Silent? then [] else [c.upper.name]
    decreases |u|
  {
    if u == [] {
      assert (u + [c])[1..] == [];
    } else {
      UpperNamesOne(u[1..], c);
      assert (u + [c])[1..] == u[1..] + [c] && (u + [c])[0] == u[0];
    }
  }

  lemma {:induction false} LowerNamesOne(u: seq<Cells>, c: Cells)
    ensures LowerNames(u + [c]) == LowerNames(u) + if c.lower.Silent? then [] else [c.lower.name]
    decreases |u|
  {
    if u == [] {
      assert (u + [c])[1..] == [];
    } else {
      LowerNamesOne(u[1..], c);
      assert (u + [c])[1..] == u[1..] + [c] && (u + [c])[0] == u[0];
    }
  }

  // ----- One arc -----

  /** What an arc takes from the input and adds to the answer is what a meaning of it says. */
  ghost predicate DoesAs(q: Query, x: seq<string>, k: nat, l: Line, c: Cells)
    requires k <= |x|
  {
    && (c.upper.Spoken? ==> k < |x| && c.upper.name == x[k])
    && q.MatchLength(l.upper, StartOf(x, k)) == (if c.upper.Spoken? then |c.upper.name| else 0)
    && q.Output(l.upper, l.lower, StartOf(x, k)) == (if c.lower.Spoken? then c.lower.name else "")
  }

  lemma InputPiece(q: Query, s: seq<Symbol>, x: seq<string>, k: nat)
    requires ReadsAs(q, s, x) && k < |x|
    ensures var pos := StartOf(x, k);
            NameAt(q, s, x, k) && pos + |x[k]| <= |q.input| && q.input[pos..pos + |x[k]|] == x[k]
    ensures StartOf(x, k + 1) == StartOf(x, k) + |x[k]|
  {
    JoinedPrefix(x, k);
    JoinedOne(x[..k], x[k]);
    assert x[..k + 1] == x[..k] + [x[k]];
    assert NameAt(q, s, x, k);
  }

  lemma InputEnd(q: Query, s: seq<Symbol>, x: seq<string>, n: nat, k: nat)
    requires ReadsAs(q, s, x) && q.Valid(n) && k <= |x|
    ensures StartOf(x, k) == |q.input| <==> k == |x|
    ensures StartOf(x, k) >= |q.sigmatch| <==> k == |x|
  {
    if k == |x| {
      assert x[..k] == x;
    } else {
      InputPiece(q, s, x, k);
    }
  }

  /** An output symbol's text is its name. */
  lemma TextIsName(q: Query, s: seq<Symbol>, l: Line)
    requires LooksUp(q, s) && l in q.lines && l.target >= 0 && l.lower > IDENTITY
    ensures l.lower in q.text && Ordinary(s, l.lower, q.text[l.lower]) && q.Text(l.lower) == q.text[l.lower]
  {
    LineOfNet(q, s, l);
    var a :| 0 <= a < |s| && s[a].number == l.lower;
    assert Ordinary(s, l.lower, s[a].name);
  }

  lemma LineOfNet(q: Query, s: seq<Symbol>, l: Line)
    requires LooksUp(q, s) && l in q.lines
    ensures LineKnown(s, l) && l.lower != UNKNOWN
  {
    var i :| 0 <= i < |q.lines| && q.lines[i] == l;
  }

  /** A meaning of what the arc puts out, when it is no copy of the input. */
  lemma OutputMeans(q: Query, s: seq<Symbol>, l: Line, pos: nat) returns (t: Cell)
    requires LooksUp(q, s) && l in q.lines && l.target >= 0 && l.lower != IDENTITY
    ensures MeansSide(s, Unflagged(q, l).lower, t)
    ensures q.Output(l.upper, l.lower, pos) == if t.Spoken? then t.name else ""
  {
    LineOfNet(q, s, l);
    if l.lower == EPSILON || l.lower in q.flagOf {
      t := Silent;
    } else {
      TextIsName(q, s, l);
      t := Spoken(q.text[l.lower]);
    }
  }

  lemma OutputMeant(q: Query, s: seq<Symbol>, l: Line, pos: nat, t: Cell)
    requires LooksUp(q, s) && l in q.lines && l.target >= 0 && l.lower != IDENTITY
    requires MeansSide(s, Unflagged(q, l).lower, t)
    ensures q.Output(l.upper, l.lower, pos) == if t.Spoken? then t.name else ""
  {
    LineOfNet(q, s, l);
    if l.lower != EPSILON && l.lower !in q.flagOf {
      TextIsName(q, s, l);
      var a :| 0 <= a < |s| && s[a].number == l.lower > IDENTITY && s[a].name == t.name;
    }
  }

  /** An arc that matches has a meaning that reads what it reads and says what it writes. */
  lemma StepMeans(q: Query, s: seq<Symbol>, x: seq<string>, n: nat, k: nat, l: Line) returns (c: Cells)
    requires q.Valid(n) && LooksUp(q, s) && ReadsAs(q, s, x) && k <= |x| && l in q.lines && l.target >= 0
    requires q.MatchLength(l.upper, StartOf(x, k)) >= 0
    ensures Means(s, Unflagged(q, l), c) && DoesAs(q, x, k, l, c)
  {
    hide ReadsAs, LooksUp, StartOf;
    LineOfNet(q, s, l);
    FlagsAreOrdinary(q, s);
    InputEnd(q, s, x, n, k);
    if l.upper == EPSILON || l.upper in q.flagOf {
      var t := OutputMeans(q, s, l, StartOf(x, k));
      c := Cells(Silent, t);
    } else {
      InputPiece(q, s, x, k);
      if l.upper == IDENTITY {
        c := Cells(Spoken(x[k]), Spoken(x[k]));
      } else {
        var t := OutputMeans(q, s, l, StartOf(x, k));
        c := Cells(Spoken(x[k]), t);
      }
    }
  }

  lemma FlagsAreOrdinary(q: Query, s: seq<Symbol>)
    requires LooksUp(q, s)
    ensures EPSILON !in q.flagOf && UNKNOWN !in q.flagOf && IDENTITY !in q.flagOf
  {
  }

  /** An arc with a meaning that reads on in the input matches, and writes what the meaning says. */
  lemma MeansStep(q: Query, s: seq<Symbol>, x: seq<string>, n: nat, k: nat, l: Line, c: Cells)
    requires q.Valid(n) && LooksUp(q, s) && ReadsAs(q, s, x) && k <= |x| && l in q.lines && l.target >= 0
    requires Means(s, Unflagged(q, l), c) && (c.upper.Spoken? ==> k < |x| && c.upper.name == x[k])
    ensures DoesAs(q, x, k, l, c)
  {
    hide ReadsAs, LooksUp, StartOf;
    LineOfNet(q, s, l);
    FlagsAreOrdinary(q, s);
    InputEnd(q, s, x, n, k);
    if l.upper != IDENTITY {
      OutputMeant(q, s, l, StartOf(x, k), c.lower);
    }
    if c.upper.Spoken? {
      InputPiece(q, s, x, k);
      NumberedOnce(q, s, x, k, l.upper);
    }
  }

  /** An ordinary symbol that is the next name is the one that the match array holds. */
  lemma NumberedOnce(q: Query, s: seq<Symbol>, x: seq<string>, k: nat, number: int)
    requires LooksUp(q, s) && k < |x| && NameAt(q, s, x, k)
    ensures Ordinary(s, number, x[k]) ==> q.sigmatch[StartOf(x, k)].signumber == number
  {
    hide NetKnown;
    if Ordinary(s, number, x[k]) {
      OneMeaning(s, number, q.sigmatch[StartOf(x, k)].signumber, x[k]);
    }
  }

  // ----- Flags along a path -----

  lemma FlagWordFront(q: Query, p: seq<int>)
    requires p != []
    ensures var w, m := FlagWord(q, p), |p| - 1;
            w[..m] == FlagWord(q, p[..m]) && w[m] == InputSymbol(q, p[m]) && w[..m + 1] == w
  {
  }

  lemma FlagWordWellWritten(q: Query, s: seq<Symbol>, p: seq<int>)
    requires LooksUp(q, s)
    ensures Flags.AllWellWritten(FlagWord(q, p))
  {
    var w := FlagWord(q, p);
    forall i | 0 <= i < |w| ensures Flags.Proper(w[i]) {
      assert w[i] == InputSymbol(q, p[i]);
    }
  }

  /** The settings that lookup keeps are those after the path's flags. */
  lemma {:induction false} SettingsTrack(q: Query, s: seq<Symbol>, p: seq<int>)
    requires LooksUp(q, s)
    ensures Flags.Tracks(SettingsAfter(q, p), FlagWord(q, p))
    decreases |p|
  {
    hide LooksUp, Flags.CheckOne, Flags.StepOne, Flags.After, Flags.EqualHolds, Flags.Proper;
    if p == [] {
      NothingSet(q);
    } else {
      var m := |p| - 1;
      var w, was := FlagWord(q, p), SettingsAfter(q, p[..m]);
      SettingsTrack(q, s, p[..m]);
      FlagWordFront(q, p);
      FlagWordWellWritten(q, s, p);
      forall name ensures Flags.SettingOf(SettingsAfter(q, p), name) == Flags.After(w, name) {
        assert Flags.SettingOf(was, name) == Flags.After(w[..m], name);
        Flags.OneMore(w, m, name);
        if w[m].FlagSymbol? {
          Flags.CheckedStep(w, m, was);
        }
      }
    }
  }

  lemma NothingSet(q: Query)
    ensures Flags.Tracks(Cleared(q), FlagWord(q, []))
  {
  }

  /** A path's flags are legal if those before the last arc are, and the last arc's passes. */
  lemma FlagsPass(q: Query, s: seq<Symbol>, p: seq<int>)
    requires LooksUp(q, s) && p != [] && 0 <= p[|p| - 1] < |q.lines|
    ensures Flags.LegalWord(FlagWord(q, p)) <==>
              Flags.LegalWord(FlagWord(q, p[..|p| - 1]))
              && FlagPasses(q, SettingsAfter(q, p[..|p| - 1]), q.lines[p[|p| - 1]].upper)
  {
    hide LooksUp, Flags.CheckOne, Flags.StepOne, Flags.After, Flags.EqualHolds, Flags.Proper, Flags.Legal,
         SettingsAfter, Flags.Tracks;
    var m := |p| - 1;
    var w, u, was := FlagWord(q, p), FlagWord(q, p[..m]), SettingsAfter(q, p[..m]);
    FlagWordFront(q, p);
    FlagWordWellWritten(q, s, p);
    SettingsTrack(q, s, p[..m]);
    EqualsGrow(w, m);
    if w[m].FlagSymbol? {
      Flags.CheckedStep(w, m, was);
      var f := w[m].flag;
      Flags.OneMore(w, m, f.name);
      LegalGrows(w, m, Flags.StepOne(f, Flags.After(u, f.name)).0);
    } else {
      LegalGrows(w, m, true);
    }
  }

  lemma EqualsGrow(w: seq<Flags.Symbol>, m: nat)
    requires |w| == m + 1
    ensures Flags.EqualsHold(w, |w|) <==> Flags.EqualsHold(w[..m], m) && Flags.EqualHolds(w, m)
    ensures !w[m].FlagSymbol? ==> Flags.EqualHolds(w, m)
  {
    hide Flags.After;
    forall i | 0 <= i < m ensures Flags.EqualHolds(w, i) <==> Flags.EqualHolds(w[..m], i) {
      assert w[..m][..i] == w[..i];
    }
    assert Flags.EqualsHold(w, |w|) <==> Flags.EqualsHold(w, m) && Flags.EqualHolds(w, m);
  }

  lemma LegalGrows(w: seq<Flags.Symbol>, m: nat, ok: bool)
    requires |w| == m + 1
    requires ok == (w[m].FlagSymbol? ==> Flags.StepOne(w[m].flag, Flags.After(w[..m], w[m].flag.name)).0)
    ensures Flags.AllLegal(w) <==> Flags.AllLegal(w[..m]) && ok
  {
    hide Flags.StepOne, Flags.After, Flags.Legal;
    forall name
      ensures Flags.Legal(w, name) <==> Flags.Legal(w[..m], name) && (Flags.Named(w[m], name) ==> ok)
    {
      Flags.OneMore(w, m, name);
      assert w[..m + 1] == w;
    }
    if w[m].FlagSymbol? && Flags.AllLegal(w) {
      assert Flags.Legal(w, w[m].flag.name) && Flags.Named(w[m], w[m].flag.name);
    }
  }

  // ----- Paths and their meanings -----

  /** The path is sound up to here, and what it has read and written is what the cells say. */
  ghost predicate Follows(q: Query, x: seq<string>, p: seq<int>, w: seq<Cells>, k: nat) {
    && k <= |x| && Sound(q, p) && UpperNames(w) == x[..k]
    && PosAfter(q, p) == StartOf(x, k) && OutAfter(q, p) == Joined(LowerNames(w))
  }

  lemma PathFront(lines: seq<Line>, a: int, p: seq<int>)
    requires p != []
    ensures PathFrom(lines, a, p) <==>
              PathFrom(lines, a, p[..|p| - 1]) && 0 <= p[|p| - 1] < |lines| && lines[p[|p| - 1]].target >= 0
              && lines[p[|p| - 1]].state == EndOf(lines, a, p[..|p| - 1])
  {
    var m := |p| - 1;
    forall i | 0 <= i < m ensures ArcFrom(lines, a, p, i) <==> ArcFrom(lines, a, p[..m], i) {
    }
    if PathFrom(lines, a, p) {
      assert ArcFrom(lines, a, p, m);
    }
    if PathFrom(lines, a, p[..m]) && m > 0 {
      assert ArcFrom(lines, a, p[..m], m - 1);
    }
  }

  lemma EndIsState(q: Query, p: seq<int>)
    requires q.lines != [] && PathFrom(q.lines, q.lines[0].state, p)
    ensures EndOf(q.lines, q.lines[0].state, p) == StateAfter(q, p)
  {
    if p != [] {
      assert ArcFrom(q.lines, q.lines[0].state, p, |p| - 1);
    }
  }

  lemma FollowsOne(q: Query, x: seq<string>, p: seq<int>, w: seq<Cells>, k: nat, h: int, c: Cells)
    requires Follows(q, x, p, w, k) && MayFollow(q, p, h) && DoesAs(q, x, k, q.lines[h], c)
    requires c.upper.Spoken? ==> StartOf(x, k + 1) == StartOf(x, k) + |x[k]|
    ensures Follows(q, x, p + [h], w + [c], if c.upper.Spoken? then k + 1 else k)
  {
    hide StartOf, MayFollow, Sound, PosAfter, OutAfter, Joined, UpperNames, LowerNames, FlagPasses;
    OneMoreArc(q, p, h);
    UpperNamesOne(w, c);
    LowerNamesOne(w, c);
    LineNumbered(q, p, h);
    if c.upper.Spoken? {
      assert x[..k + 1] == x[..k] + [x[k]];
    }
    if c.lower.Spoken? {
      JoinedOne(LowerNames(w), c.lower.name);
    } else {
      assert LowerNames(w) + [] == LowerNames(w);
    }
    assert UpperNames(w) + [] == UpperNames(w);
  }

  lemma LineNumbered(q: Query, p: seq<int>, h: int)
    requires MayFollow(q, p, h)
    ensures 0 <= h < |q.lines| && q.lines[h].target >= 0 && q.lines[h].state == StateAfter(q, p)
    ensures q.MatchLength(q.lines[h].upper, PosAfter(q, p)) >= 0
    ensures FlagPasses(q, SettingsAfter(q, p), q.lines[h].upper)
  {
  }

  lemma TellsOne(q: Query, s: seq<Symbol>, p: seq<int>, w: seq<Cells>, h: int, c: Cells)
    requires Tells(q, s, p, w) && 0 <= h < |q.lines| && Means(s, Unflagged(q, q.lines[h]), c)
    ensures Tells(q, s, p + [h], w + [c])
  {
    hide Means, Unflagged;
  }

  /** A sound path is a path of the net with legal flags, and has a meaning that reads what it has read. */
  lemma {:induction false} SoundTells(q: Query, s: seq<Symbol>, x: seq<string>, n: nat, p: seq<int>)
    returns (w: seq<Cells>, k: nat)
    requires q.Valid(n) && LooksUp(q, s) && ReadsAs(q, s, x) && Sound(q, p)
    ensures PathFrom(q.lines, q.lines[0].state, p) && Flags.LegalWord(FlagWord(q, p))
    ensures Tells(q, s, p, w) && Follows(q, x, p, w, k)
    decreases |p|
  {
    hide ReadsAs, LooksUp, StartOf, DoesAs, Flags.LegalWord, PosAfter, OutAfter, SettingsAfter, Means, Unflagged,
         Tells, MayFollow, PathFrom, FlagPasses;
    if p == [] {
      w, k := [], 0;
      NothingTold(q, s, x);
    } else {
      var m := |p| - 1;
      var front, h := p[..m], p[m];
      var u, j := SoundTells(q, s, x, n, front);
      LineNumbered(q, front, h);
      EndIsState(q, front);
      PathFront(q.lines, q.lines[0].state, p);
      FlagsPass(q, s, p);
      var c := StepMeans(q, s, x, n, j, q.lines[h]);
      Advances(q, s, x, j, q.lines[h], c);
      FollowsOne(q, x, front, u, j, h, c);
      TellsOne(q, s, front, u, h, c);
      assert front + [h] == p;
      w, k := u + [c], if c.upper.Spoken? then j + 1 else j;
    }
  }

  lemma NothingTold(q: Query, s: seq<Symbol>, x: seq<string>)
    requires q.lines != []
    ensures PathFrom(q.lines, q.lines[0].state, []) && Flags.LegalWord(FlagWord(q, []))
    ensures Tells(q, s, [], []) && Follows(q, x, [], [], 0)
  {
    assert x[..0] == [];
  }

  lemma Advances(q: Query, s: seq<Symbol>, x: seq<string>, k: nat, l: Line, c: Cells)
    requires ReadsAs(q, s, x) && k <= |x| && DoesAs(q, x, k, l, c)
    ensures c.upper.Spoken? ==> k < |x| && StartOf(x, k + 1) == StartOf(x, k) + |x[k]|
  {
    if c.upper.Spoken? {
      InputPiece(q, s, x, k);
    }
  }

  /** A path of the net with legal flags and a meaning that reads the input up to here is sound. */
  lemma {:induction false} TellsSound(q: Query, s: seq<Symbol>, x: seq<string>, n: nat, p: seq<int>, w: seq<Cells>,
                                      k: nat)
    requires q.Valid(n) && LooksUp(q, s) && ReadsAs(q, s, x) && k <= |x|
    requires PathFrom(q.lines, q.lines[0].state, p) && Flags.LegalWord(FlagWord(q, p))
    requires Tells(q, s, p, w) && UpperNames(w) == x[..k]
    ensures Follows(q, x, p, w, k)
    decreases |p|
  {
    hide ReadsAs, LooksUp, StartOf, DoesAs, Flags.LegalWord, PosAfter, OutAfter, SettingsAfter, Means, Unflagged,
         MayFollow, PathFrom, FlagPasses, Tells, UpperNames, Follows, EndOf, StateAfter;
    if p == [] {
      NothingTold(q, s, x);
      NothingRead(q, s, w, x, k);
    } else {
      var m := |p| - 1;
      TellsLast(q, s, p, w, x, k);
      var front, h, u, c := p[..m], p[m], w[..m], w[m];
      PathFront(q.lines, q.lines[0].state, p);
      FlagsPass(q, s, p);
      var j := if c.upper.Spoken? then k - 1 else k;
      TellsSound(q, s, x, n, front, u, j);
      EndIsState(q, front);
      MeansStep(q, s, x, n, j, q.lines[h], c);
      Advances(q, s, x, j, q.lines[h], c);
      ArcMayFollow(q, x, front, u, j, h, c);
      FollowsOne(q, x, front, u, j, h, c);
    }
  }

  lemma NothingRead(q: Query, s: seq<Symbol>, w: seq<Cells>, x: seq<string>, k: nat)
    requires Tells(q, s, [], w) && k <= |x| && UpperNames(w) == x[..k]
    ensures w == [] && k == 0
  {
  }

  /** The last arc of a path reads the last of the names read, or nothing. */
  lemma TellsLast(q: Query, s: seq<Symbol>, p: seq<int>, w: seq<Cells>, x: seq<string>, k: nat)
    requires Tells(q, s, p, w) && p != [] && k <= |x| && UpperNames(w) == x[..k]
    ensures |w| == |p|
    ensures var m := |p| - 1; var c := w[m];
            && p[..m] + [p[m]] == p && w[..m] + [c] == w && Tells(q, s, p[..m], w[..m])
            && 0 <= p[m] < |q.lines| && Means(s, Unflagged(q, q.lines[p[m]]), c)
            && (if c.upper.Spoken? then 0 < k && c.upper.name == x[k - 1] && UpperNames(w[..m]) == x[..k - 1]
                else UpperNames(w[..m]) == x[..k])
  {
    hide Means, Unflagged, UpperNames;
    var m := |p| - 1;
    UpperNamesOne(w[..m], w[m]);
    assert w[..m] + [w[m]] == w;
    if w[m].upper.Spoken? {
      assert x[..k][..k - 1] == x[..k - 1];
    }
  }

  lemma ArcMayFollow(q: Query, x: seq<string>, p: seq<int>, w: seq<Cells>, k: nat, h: int, c: Cells)
    requires Follows(q, x, p, w, k) && 0 <= h < |q.lines| && DoesAs(q, x, k, q.lines[h], c)
    requires q.lines[h].state == StateAfter(q, p) && q.lines[h].target >= 0
    requires FlagPasses(q, SettingsAfter(q, p), q.lines[h].upper)
    ensures MayFollow(q, p, h)
  {
    hide StartOf, PosAfter, SettingsAfter, FlagPasses;
  }

  lemma FinalState(lines: seq<Line>, a: int)
    ensures a in MachineOf(lines).finals <==> Finals(lines, a)
  {
    if Finals(lines, a) {
      var k :| 0 <= k < |lines| && lines[k].final && lines[k].state == a;
      assert lines[k] in lines;
    }
  }

  /**
   Lookup against the net's meaning: a string is an answer exactly when, joined, it is what an accepting path
   with legal flags makes of the input.
   */
  lemma AnswerMeans(q: Query, n: nat, s: seq<Symbol>, x: seq<string>, out: string)
    requires q.Valid(n) && LooksUp(q, s) && ReadsAs(q, s, x)
    ensures Answer(q, out) <==> Denoted(q, s, x, out)
  {
    hide LooksUp, ReadsAs, StartOf, Flags.LegalWord, PosAfter, OutAfter, SettingsAfter, Tells, PathFrom, Joined, Sound,
         Finals;
    if Answer(q, out) {
      var p :| Answering(q, p) && OutAfter(q, p) == out;
      var w, k := SoundTells(q, s, x, n, p);
      InputEnd(q, s, x, n, k);
      assert x[..k] == x;
      EndIsState(q, p);
      FinalState(q.lines, StateAfter(q, p));
      assert Becomes(q, s, x, LowerNames(w), p, w);
    }
    if z, p, w :| Becomes(q, s, x, z, p, w) && Joined(z) == out {
      assert x[..|x|] == x;
      TellsSound(q, s, x, n, p, w, |x|);
      InputEnd(q, s, x, n, |x|);
      EndIsState(q, p);
      FinalState(q.lines, StateAfter(q, p));
      assert Answering(q, p);
    }
  }

  // ----- Without flags: the relation over the open alphabet -----

  lemma {:induction false} SpellsPath(q: Query, s: seq<Symbol>, a: int, w: seq<Cells>, b: int) returns (p: seq<int>)
    requires q.flagOf == map[] && Spells(q.lines, s, a, w, b)
    ensures PathFrom(q.lines, a, p) && Tells(q, s, p, w) && EndOf(q.lines, a, p) == b
    decreases |w|
  {
    hide Means;
    if w == [] {
      p := [];
    } else {
      var r :| Moves(q.lines, s, a, w[0], r) && Spells(q.lines, s, r, w[1..], b);
      var k :| 0 <= k < |q.lines| && MovesOn(s, q.lines[k], a, w[0], r);
      var rest := SpellsPath(q, s, r, w[1..], b);
      p := [k] + rest;
      PathCons(q.lines, a, k, rest);
      TellsCons(q, s, k, rest, w);
    }
  }

  lemma PathCons(lines: seq<Line>, a: int, k: int, p: seq<int>)
    requires 0 <= k < |lines| && lines[k].state == a && lines[k].target >= 0
    ensures PathFrom(lines, a, [k] + p) <==> PathFrom(lines, lines[k].target, p)
    ensures PathFrom(lines, lines[k].target, p) ==> EndOf(lines, a, [k] + p) == EndOf(lines, lines[k].target, p)
  {
    var all := [k] + p;
    assert ArcFrom(lines, a, all, 0);
    forall i | 0 <= i < |p| ensures ArcFrom(lines, a, all, i + 1) <==> ArcFrom(lines, lines[k].target, p, i) {
    }
    if PathFrom(lines, a, all) {
      forall i | 0 <= i < |p| ensures ArcFrom(lines, lines[k].target, p, i) {
        assert ArcFrom(lines, a, all, i + 1);
      }
    }
    if PathFrom(lines, lines[k].target, p) {
      forall i | 0 <= i < |all| ensures ArcFrom(lines, a, all, i) {
        assert i > 0 ==> ArcFrom(lines, lines[k].target, p, i - 1);
      }
      if p != [] {
        assert ArcFrom(lines, lines[k].target, p, |p| - 1);
      }
    }
  }

  lemma TellsCons(q: Query, s: seq<Symbol>, k: int, p: seq<int>, w: seq<Cells>)
    requires q.flagOf == map[] && w != [] && Tells(q, s, p, w[1..]) && 0 <= k < |q.lines|
    requires Means(s, q.lines[k].ToLabel(), w[0])
    ensures Tells(q, s, [k] + p, w)
  {
    hide Means;
    assert Unflagged(q, q.lines[k]) == q.lines[k].ToLabel();
    forall i | 1 <= i < |w|
      ensures 0 <= ([k] + p)[i] < |q.lines| && Means(s, Unflagged(q, q.lines[([k] + p)[i]]), w[i])
    {
      assert w[i] == w[1..][i - 1] && ([k] + p)[i] == p[i - 1];
    }
  }

  lemma {:induction false} PathSpells(q: Query, s: seq<Symbol>, a: int, p: seq<int>, w: seq<Cells>)
    requires q.flagOf == map[] && PathFrom(q.lines, a, p) && Tells(q, s, p, w)
    ensures Spells(q.lines, s, a, w, EndOf(q.lines, a, p))
    decreases |p|
  {
    hide Means;
    if p != [] {
      var k := p[0];
      assert ArcFrom(q.lines, a, p, 0) && p == [k] + p[1..];
      PathCons(q.lines, a, k, p[1..]);
      TellsTail(q, s, p, w);
      PathSpells(q, s, q.lines[k].target, p[1..], w[1..]);
      assert MovesOn(s, q.lines[k], a, w[0], q.lines[k].target);
      assert Moves(q.lines, s, a, w[0], q.lines[k].target);
    }
  }

  lemma TellsTail(q: Query, s: seq<Symbol>, p: seq<int>, w: seq<Cells>)
    requires q.flagOf == map[] && p != [] && Tells(q, s, p, w)
    ensures Tells(q, s, p[1..], w[1..]) && 0 <= p[0] < |q.lines| && Means(s, q.lines[p[0]].ToLabel(), w[0])
  {
    hide Means;
    assert Unflagged(q, q.lines[p[0]]) == q.lines[p[0]].ToLabel();
  }

  /** A word without flags is legal. */
  lemma {:induction false} PlainIsLegal(w: seq<Flags.Symbol>)
    requires forall i :: 0 <= i < |w| ==> !w[i].FlagSymbol?
    ensures Flags.LegalWord(w)
  {
    forall name ensures Flags.Legal(w, name) {
      PlainLegal(w, name);
    }
  }

  lemma {:induction false} PlainLegal(w: seq<Flags.Symbol>, name: string)
    requires forall i :: 0 <= i < |w| ==> !w[i].FlagSymbol?
    ensures Flags.Legal(w, name)
    decreases |w|
  {
    if w != [] {
      PlainLegal(w[..|w| - 1], name);
    }
  }

  /** Without flags, accepting paths make of `x` what the net relates it to. */
  lemma BecomesRelates(q: Query, n: nat, s: seq<Symbol>, x: seq<string>, z: seq<string>)
    requires q.Valid(n) && q.flagOf == map[] && forall a :: Starts(q.lines, a) <==> a == q.lines[0].state
    ensures OpenRelates(q.lines, s, x, z) <==> exists p, w :: Becomes(q, s, x, z, p, w)
  {
    hide Starts, Finals, Tells, PathFrom, Spells, EndOf;
    var a := q.lines[0].state;
    if OpenRelates(q.lines, s, x, z) {
      var w :| OpenAccepts(q.lines, s, w) && UpperNames(w) == x && LowerNames(w) == z;
      var b, e :| Starts(q.lines, b) && Finals(q.lines, e) && Spells(q.lines, s, b, w, e);
      var p := SpellsPath(q, s, a, w, e);
      PlainIsLegal(FlagWord(q, p));
      assert Becomes(q, s, x, z, p, w);
    }
    if p, w :| Becomes(q, s, x, z, p, w) {
      PathSpells(q, s, a, p, w);
      assert Starts(q.lines, a) && OpenAccepts(q.lines, s, w);
    }
  }

  /** Without flags, the answers are what the net relates the input to over the open alphabet. */
  lemma AnswerRelates(q: Query, n: nat, s: seq<Symbol>, x: seq<string>, out: string)
    requires q.Valid(n) && LooksUp(q, s) && ReadsAs(q, s, x) && q.flagOf == map[]
    requires forall a :: Starts(q.lines, a) <==> a == q.lines[0].state
    ensures Answer(q, out) <==> exists z :: OpenRelates(q.lines, s, x, z) && Joined(z) == out
  {
    hide LooksUp, ReadsAs, Starts, Becomes, Joined, Answer, OpenRelates;
    AnswerMeans(q, n, s, x, out);
    if z, p, w :| Becomes(q, s, x, z, p, w) && Joined(z) == out {
      BecomesRelates(q, n, s, x, z);
    }
    if z :| OpenRelates(q.lines, s, x, z) && Joined(z) == out {
      BecomesRelates(q, n, s, x, z);
    }
  }

  /** Once every answering path has been answered, the strings given out are all the answers. */
  lemma CompleteAnswers(q: Query, answered: seq<seq<int>>)
    requires LookupOrder.Complete(q, answered)
    ensures forall out :: out in Outputs(q, answered) <==> Answer(q, out)
  {
    hide Answering, OutAfter, LookupOrder.InOrder;
    forall out ensures out in Outputs(q, answered) <==> Answer(q, out) {
      if out in Outputs(q, answered) {
        var i :| 0 <= i < |answered| && Outputs(q, answered)[i] == out;
        assert answered[i] in answered;
      }
      if Answer(q, out) {
        var p :| Answering(q, p) && OutAfter(q, p) == out;
        var i :| 0 <= i < |answered| && answered[i] == p;
        assert Outputs(q, answered)[i] == out;
      }
    }
  }

  /** Without flags, they are then all that the net relates the input to. */
  lemma CompleteMeans(q: Query, n: nat, s: seq<Symbol>, x: seq<string>, answered: seq<seq<int>>)
    requires q.Valid(n) && LooksUp(q, s) && ReadsAs(q, s, x) && q.flagOf == map[]
    requires forall a :: Starts(q.lines, a) <==> a == q.lines[0].state
    requires LookupOrder.Complete(q, answered)
    ensures forall out :: out in Outputs(q, answered) <==> exists z :: OpenRelates(q.lines, s, x, z) && Joined(z) == out
  {
    hide LooksUp, ReadsAs, Starts, Joined, OpenRelates, Answer, LookupOrder.Complete;
    CompleteAnswers(q, answered);
    forall out
      ensures out in Outputs(q, answered) <==> exists z :: OpenRelates(q.lines, s, x, z) && Joined(z) == out
    {
      AnswerRelates(q, n, s, x, out);
    }
  }
}
