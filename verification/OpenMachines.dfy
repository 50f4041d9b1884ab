/**
 Machines over the open alphabet. Opening a machine replaces each of its arcs by everything the arc
 means, cells numbered one to one; what a net denotes over the open alphabet then is what its opened
 machine denotes, so that the theorems about machines apply.
 */
module OpenMachines {
  import opened Automata
  import opened OpenAlphabet
  import opened SigmaMerging

  // ----- Numbering cells -----

  const CHARS: int := 0x11_0000

  /** A numbering of all strings. */
  function NameCode(x: string): nat {
    if x == [] then 0 else NameCode(x[..|x| - 1]) * CHARS + x[|x| - 1] as int + 1
  }

  lemma {:induction false} NameCodeInjective(x: string, y: string)
    requires NameCode(x) == NameCode(y)
    ensures x == y
    decreases |x|
  {
    if x != [] && y != [] {
      assert x[|x| - 1] as int < CHARS && y[|y| - 1] as int < CHARS;
      NameCodeInjective(x[..|x| - 1], y[..|y| - 1]);
      assert x == x[..|x| - 1] + [x[|x| - 1]] && y == y[..|y| - 1] + [y[|y| - 1]];
    }
  }

  /** Ordinary symbols are numbered from 3, clear of the wildcards. */
  function CellCode(t: Cell): int {
    if t.Silent? then EPSILON else 3 + NameCode(t.name)
  }

  lemma CellCodeInjective(t: Cell, u: Cell)
    ensures CellCode(t) == CellCode(u) <==> t == u
  {
    if CellCode(t) == CellCode(u) && t.Spoken? && u.Spoken? {
      NameCodeInjective(t.name, u.name);
    }
  }

  function CellLabel(c: Cells): Label {
    Label(CellCode(c.upper), CellCode(c.lower))
  }

  lemma CellLabelInjective(c: Cells, d: Cells)
    ensures CellLabel(c) == CellLabel(d) <==> c == d
  {
    CellCodeInjective(c.upper, d.upper);
    CellCodeInjective(c.lower, d.lower);
  }

  function CellLabels(w: seq<Cells>): seq<Label> {
    if w == [] then [] else [CellLabel(w[0])] + CellLabels(w[1..])
  }

  function NameCodes(x: seq<string>): seq<int> {
    if x == [] then [] else [3 + NameCode(x[0])] + NameCodes(x[1..])
  }

  lemma {:induction false} NameCodesInjective(x: seq<string>, y: seq<string>)
    requires NameCodes(x) == NameCodes(y)
    ensures x == y
  {
    if x == [] || y == [] {
      assert x == [] && y == [];
    } else {
      assert NameCodes(x)[0] == NameCodes(y)[0] && NameCodes(x)[1..] == NameCodes(y)[1..];
      NameCodeInjective(x[0], y[0]);
      NameCodesInjective(x[1..], y[1..]);
      assert x == [x[0]] + x[1..] && y == [y[0]] + y[1..];
    }
  }

  lemma {:induction false} TapeCodes(w: seq<Cells>)
    ensures Upper(CellLabels(w)) == NameCodes(UpperNames(w)) && Lower(CellLabels(w)) == NameCodes(LowerNames(w))
  {
    if w != [] {
      TapeCodes(w[1..]);
      var v := CellLabels(w);
      assert v[0] == CellLabel(w[0]) && v[1..] == CellLabels(w[1..]);
      OneMoreName(w[0].upper, UpperNames(w[1..]));
      OneMoreName(w[0].lower, LowerNames(w[1..]));
    }
  }

  lemma OneMoreName(t: Cell, x: seq<string>)
    ensures NameCodes((if t.Silent? then [] else [t.name]) + x) ==
            (if CellCode(t) == EPSILON then [] else [CellCode(t)]) + NameCodes(x)
  {
    if t.Silent? {
      assert [] + x == x;
    } else {
      assert ([t.name] + x)[0] == t.name && ([t.name] + x)[1..] == x;
    }
  }

  // ----- Opening a machine -----

  ghost predicate OpenArcBy<S(!new)>(s: seq<Symbol>, m: Machine<S>, a: Arc<S>, l: Label, c: Cells) {
    Arc(a.src, l, a.tgt) in m.arcs && Means(s, l, c) && a.lab == CellLabel(c)
  }

  ghost predicate OpenArc<S(!new)>(s: seq<Symbol>, m: Machine<S>, a: Arc<S>) {
    exists l, c :: OpenArcBy(s, m, a, l, c)
  }

  /** Each arc replaced by everything it means under the alphabet `s`. */
  ghost function Opened<S(!new)>(s: seq<Symbol>, m: Machine<S>): Machine<S> {
    Machine((iset a: Arc<S> | OpenArc(s, m, a)), m.starts, m.finals)
  }

  /** The relation on strings over the open alphabet that `m` denotes under `s`. */
  ghost predicate OpenlyRelates<S(!new)>(s: seq<Symbol>, m: Machine<S>, x: seq<string>, z: seq<string>) {
    exists w :: Accepts(Opened(s, m), CellLabels(w)) && UpperNames(w) == x && LowerNames(w) == z
  }

  /** An opened machine reads nothing but numbered cells. */
  lemma {:induction false} ReadsCells<S(!new)>(s: seq<Symbol>, m: Machine<S>, p: S, v: seq<Label>, q: S)
    returns (w: seq<Cells>)
    requires Reads(Opened(s, m), p, v, q)
    ensures v == CellLabels(w)
    decreases |v|
  {
    if v == [] {
      return [];
    }
    var r := ReadsHead(Opened(s, m), p, v, q);
    var l, c :| OpenArcBy(s, m, Arc(p, v[0], r), l, c);
    var rest := ReadsCells(s, m, r, v[1..], q);
    w := [c] + rest;
    assert w[1..] == rest && v == [v[0]] + v[1..];
  }

  lemma OpenlyRelatesCodes<S(!new)>(s: seq<Symbol>, m: Machine<S>, x: seq<string>, z: seq<string>)
    ensures OpenlyRelates(s, m, x, z) <==> Relates(Opened(s, m), NameCodes(x), NameCodes(z))
  {
    hide Opened, CellLabels, UpperNames, LowerNames, NameCodes, Upper, Lower, Accepts;
    if OpenlyRelates(s, m, x, z) {
      var w :| Accepts(Opened(s, m), CellLabels(w)) && UpperNames(w) == x && LowerNames(w) == z;
      TapeCodes(w);
    }
    if Relates(Opened(s, m), NameCodes(x), NameCodes(z)) {
      var v :| Accepts(Opened(s, m), v) && Upper(v) == NameCodes(x) && Lower(v) == NameCodes(z);
      var p, q := AcceptingPath(Opened(s, m), v);
      var w := ReadsCells(s, m, p, v, q);
      TapeCodes(w);
      NameCodesInjective(UpperNames(w), x);
      NameCodesInjective(LowerNames(w), z);
    }
  }

  /** A string that an opened machine relates to anything is the numbering of names. */
  lemma CodesOfNames<S(!new)>(s: seq<Symbol>, m: Machine<S>, u: seq<int>, v: seq<int>)
    returns (x: seq<string>, z: seq<string>)
    requires Relates(Opened(s, m), u, v)
    ensures u == NameCodes(x) && v == NameCodes(z)
  {
    hide Opened, CellLabels, UpperNames, LowerNames, NameCodes, Upper, Lower, Accepts;
    var t :| Accepts(Opened(s, m), t) && Upper(t) == u && Lower(t) == v;
    var p, q := AcceptingPath(Opened(s, m), t);
    var w := ReadsCells(s, m, p, t, q);
    TapeCodes(w);
    x, z := UpperNames(w), LowerNames(w);
  }

  // ----- The same relation as that of the lines -----

  lemma OpenMove(lines: seq<Line>, s: seq<Symbol>, p: int, c: Cells, q: int)
    ensures Moves(lines, s, p, c, q) <==> Arc(p, CellLabel(c), q) in Opened(s, MachineOf(lines)).arcs
  {
    var m, a := MachineOf(lines), Arc(p, CellLabel(c), q);
    if Moves(lines, s, p, c, q) {
      var k :| 0 <= k < |lines| && MovesOn(s, lines[k], p, c, q);
      assert lines[k].ToArc() in m.arcs && lines[k].ToArc() == Arc(p, lines[k].ToLabel(), q);
      assert OpenArcBy(s, m, a, lines[k].ToLabel(), c);
    }
    if OpenArc(s, m, a) {
      var l, d :| OpenArcBy(s, m, a, l, d);
      CellLabelInjective(c, d);
      var k := ArcLine(lines, Arc(p, l, q));
      assert MovesOn(s, lines[k], p, c, q);
    }
  }

  lemma {:induction false} OpenSpells(lines: seq<Line>, s: seq<Symbol>, p: int, w: seq<Cells>, q: int)
    ensures Spells(lines, s, p, w, q) <==> Reads(Opened(s, MachineOf(lines)), p, CellLabels(w), q)
    decreases |w|
  {
    hide Opened, MachineOf, Moves;
    if w != [] {
      var m, v := Opened(s, MachineOf(lines)), CellLabels(w);
      assert v[0] == CellLabel(w[0]) && v[1..] == CellLabels(w[1..]);
      if Spells(lines, s, p, w, q) {
        var r :| Moves(lines, s, p, w[0], r) && Spells(lines, s, r, w[1..], q);
        OpenMove(lines, s, p, w[0], r);
        OpenSpells(lines, s, r, w[1..], q);
        assert Arc(p, v[0], r) in m.arcs && Reads(m, r, v[1..], q);
      }
      if Reads(m, p, v, q) {
        var r := ReadsHead(m, p, v, q);
        OpenMove(lines, s, p, w[0], r);
        OpenSpells(lines, s, r, w[1..], q);
      }
    }
  }

  lemma StartsAndFinals(lines: seq<Line>, s: seq<Symbol>, p: int)
    ensures Starts(lines, p) <==> p in Opened(s, MachineOf(lines)).starts
    ensures Finals(lines, p) <==> p in Opened(s, MachineOf(lines)).finals
  {
    var m := Opened(s, MachineOf(lines));
    if p in m.starts {
      var l :| l in lines && l.start && l.state == p;
    }
    if p in m.finals {
      var l :| l in lines && l.final && l.state == p;
    }
  }

  lemma SameAcceptance(lines: seq<Line>, s: seq<Symbol>, w: seq<Cells>)
    ensures OpenAccepts(lines, s, w) <==> Accepts(Opened(s, MachineOf(lines)), CellLabels(w))
  {
    hide Opened, MachineOf, Spells, Starts, Finals, Reads, CellLabels;
    var m := Opened(s, MachineOf(lines));
    if OpenAccepts(lines, s, w) {
      var p, q :| Starts(lines, p) && Finals(lines, q) && Spells(lines, s, p, w, q);
      StartsAndFinals(lines, s, p);
      StartsAndFinals(lines, s, q);
      OpenSpells(lines, s, p, w, q);
    }
    if Accepts(m, CellLabels(w)) {
      var p, q := AcceptingPath(m, CellLabels(w));
      StartsAndFinals(lines, s, p);
      StartsAndFinals(lines, s, q);
      OpenSpells(lines, s, p, w, q);
    }
  }

  /** A net's lines and its machine denote the same relation over the open alphabet. */
  lemma OpenRelationOf(lines: seq<Line>, s: seq<Symbol>, x: seq<string>, z: seq<string>)
    ensures OpenRelates(lines, s, x, z) <==> OpenlyRelates(s, MachineOf(lines), x, z)
  {
    hide OpenAccepts, Accepts, CellLabels, UpperNames, LowerNames, Opened, MachineOf;
    if OpenRelates(lines, s, x, z) {
      var w :| OpenAccepts(lines, s, w) && UpperNames(w) == x && LowerNames(w) == z;
      SameAcceptance(lines, s, w);
    }
    if OpenlyRelates(s, MachineOf(lines), x, z) {
      var w :| Accepts(Opened(s, MachineOf(lines)), CellLabels(w)) && UpperNames(w) == x && LowerNames(w) == z;
      SameAcceptance(lines, s, w);
    }
  }

  // ----- Renumbering and trimming keep the relation -----

  lemma SilentMeaning(s: seq<Symbol>, l: Label, c: Cells)
    requires Means(s, l, c)
    ensures CellLabel(c) == EPSILON_PAIR <==> l == EPSILON_PAIR
  {
  }

  lemma OpenedRenames<S(!new)>(s: seq<Symbol>, m: Machine<S>, n: Machine<int>, keys: seq<S>)
    requires Renames(m, n, keys)
    ensures Renames(Opened(s, m), Opened(s, n), keys)
  {
    hide Means, CellLabel;
    var om, on := Opened(s, m), Opened(s, n);
    forall a | a in on.arcs
      ensures 0 <= a.src < |keys| && 0 <= a.tgt < |keys| && Arc(keys[a.src], a.lab, keys[a.tgt]) in om.arcs
    {
      var l, c :| OpenArcBy(s, n, a, l, c);
      var b := Arc(a.src, l, a.tgt);
      assert b in n.arcs;
      assert Arc(keys[b.src], b.lab, keys[b.tgt]) in m.arcs;
      assert OpenArcBy(s, m, Arc(keys[a.src], a.lab, keys[a.tgt]), l, c);
    }
    forall a | a in om.arcs && a.src in keys ensures a.tgt in keys {
      var l, c :| OpenArcBy(s, m, a, l, c);
      assert Arc(a.src, l, a.tgt).src in keys;
    }
    forall i, j, l | 0 <= i < |keys| && 0 <= j < |keys| && Arc(keys[i], l, keys[j]) in om.arcs
      ensures Arc(i, l, j) in on.arcs || (i == j && l == EPSILON_PAIR)
    {
      var k, c :| OpenArcBy(s, m, Arc(keys[i], l, keys[j]), k, c);
      SilentMeaning(s, k, c);
      if Arc(i, k, j) in n.arcs {
        assert OpenArcBy(s, n, Arc(i, l, j), k, c);
      }
    }
  }

  lemma RenamedOpenly<S(!new)>(s: seq<Symbol>, m: Machine<S>, n: Machine<int>, keys: seq<S>, x: seq<string>,
                               z: seq<string>)
    requires Renames(m, n, keys)
    ensures OpenlyRelates(s, m, x, z) <==> OpenlyRelates(s, n, x, z)
  {
    hide Renames, OpenlyRelates, Relates, Opened, NameCodes, Accepts, AcceptsErased;
    OpenedRenames(s, m, n, keys);
    RenamingKeepsLanguage(Opened(s, m), Opened(s, n), keys);
    OpenlyRelatesCodes(s, m, x, z);
    OpenlyRelatesCodes(s, n, x, z);
  }

  /** A word of arc labels, each standing for the cells at its place. */
  ghost predicate WordMeans(s: seq<Symbol>, w: seq<Label>, u: seq<Cells>) {
    |w| == |u| && forall i :: 0 <= i < |w| ==> Means(s, w[i], u[i])
  }

  lemma {:induction false} WordBehind<S(!new)>(s: seq<Symbol>, m: Machine<S>, p: S, u: seq<Cells>, q: S)
    returns (w: seq<Label>)
    requires Reads(Opened(s, m), p, CellLabels(u), q)
    ensures Reads(m, p, w, q) && WordMeans(s, w, u)
    decreases |u|
  {
    hide Means, CellLabel;
    if u == [] {
      return [];
    }
    var v := CellLabels(u);
    assert v[0] == CellLabel(u[0]) && v[1..] == CellLabels(u[1..]);
    var r := ReadsHead(Opened(s, m), p, v, q);
    var l, c :| OpenArcBy(s, m, Arc(p, v[0], r), l, c);
    CellLabelInjective(c, u[0]);
    var rest := WordBehind(s, m, r, u[1..], q);
    w := [l] + rest;
    ReadsCons(m, p, l, r, rest, q);
  }

  lemma {:induction false} WordOpened<S(!new)>(s: seq<Symbol>, m: Machine<S>, p: S, w: seq<Label>, q: S, u: seq<Cells>)
    requires Reads(m, p, w, q) && WordMeans(s, w, u)
    ensures Reads(Opened(s, m), p, CellLabels(u), q)
    decreases |w|
  {
    hide Means, CellLabel;
    if w != [] {
      var r := ReadsHead(m, p, w, q);
      WordOpened(s, m, r, w[1..], q, u[1..]);
      assert OpenArcBy(s, m, Arc(p, CellLabel(u[0]), r), w[0], u[0]);
      ReadsCons(Opened(s, m), p, CellLabel(u[0]), r, CellLabels(u[1..]), q);
    }
  }

  /** The relation over the open alphabet depends on the accepted words alone. */
  lemma SameWordsOpenly(s: seq<Symbol>, m: Machine<int>, n: Machine<int>, x: seq<string>, z: seq<string>)
    requires forall w :: Accepts(m, w) ==> Accepts(n, w)
    ensures OpenlyRelates(s, m, x, z) ==> OpenlyRelates(s, n, x, z)
  {
    hide Reads, Opened, WordMeans, CellLabels, UpperNames, LowerNames;
    if OpenlyRelates(s, m, x, z) {
      var u :| Accepts(Opened(s, m), CellLabels(u)) && UpperNames(u) == x && LowerNames(u) == z;
      var p, q := AcceptingPath(Opened(s, m), CellLabels(u));
      OpenedFlags(s, m, p, q);
      var w := WordBehind(s, m, p, u, q);
      assert Accepts(m, w);
      var p', q' := AcceptingPath(n, w);
      WordOpened(s, n, p', w, q', u);
      OpenedFlags(s, n, p', q');
    }
  }

  lemma OpenedFlags<S(!new)>(s: seq<Symbol>, m: Machine<S>, p: S, q: S)
    ensures p in Opened(s, m).starts <==> p in m.starts
    ensures q in Opened(s, m).finals <==> q in m.finals
  {
  }

  lemma {:induction false} MoreArcsRead<S(!new)>(m: Machine<S>, n: Machine<S>, p: S, w: seq<Label>, q: S)
    requires m.arcs <= n.arcs && Reads(m, p, w, q)
    ensures Reads(n, p, w, q)
    decreases |w|
  {
    if w != [] {
      var r := ReadsHead(m, p, w, q);
      MoreArcsRead(m, n, r, w[1..], q);
    }
  }

  lemma MoreArcsRelate<S(!new)>(m: Machine<S>, n: Machine<S>, x: seq<int>, z: seq<int>)
    requires m.arcs <= n.arcs && m.starts == n.starts && m.finals == n.finals && Relates(m, x, z)
    ensures Relates(n, x, z)
  {
    hide Reads;
    var w :| Accepts(m, w) && Upper(w) == x && Lower(w) == z;
    var p, q := AcceptingPath(m, w);
    MoreArcsRead(m, n, p, w, q);
  }
}
