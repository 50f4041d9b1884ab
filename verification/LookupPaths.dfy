/** Looking a string up, told by paths: what a path of arcs reads, writes and does to the flags. */
module LookupPaths {
  import opened Automata
  import opened Flags
  import opened NetReading

  /** Which symbol the input has at a position, and how much of it that takes up. */
  datatype Match = Match(signumber: int, consumes: nat)

  /** What a lookup reads: the net, the symbols and the input; it looks down, from input to output side. */
  datatype Query = Query(lines: seq<Line>, flagOf: map<int, Flag>, text: map<int, string>, input: string,
                         sigmatch: seq<Match>) {

    ghost predicate Valid(n: nat) {
      && WellFormed(lines, n) && lines != [] && |sigmatch| == |input| && EPSILON !in flagOf
      && forall i :: 0 <= i < |sigmatch| ==> i + sigmatch[i].consumes <= |input|
    }

    function Text(symbol: int): string {
      if symbol in text then text[symbol] else ""
    }

    /** How much of the input a symbol takes at a position, or -1 if it does not match there. */
    function MatchLength(symbol: int, ipos: nat): (r: int)
      ensures r >= -1
    {
      if symbol == EPSILON || symbol in flagOf then 0
      else if ipos >= |sigmatch| then -1
      else if sigmatch[ipos].signumber == symbol then sigmatch[ipos].consumes
      else if (symbol == IDENTITY || symbol == UNKNOWN)
           && sigmatch[ipos].signumber == IDENTITY then sigmatch[ipos].consumes
      else -1
    }

    /** What an output symbol adds to the answer. */
    function Output(symin: int, symout: int, ipos: nat): string {
      if symout == IDENTITY && ipos < |sigmatch| && ipos + sigmatch[ipos].consumes <=
         |input| then input[ipos..ipos + sigmatch[ipos].consumes]
      else if symout == EPSILON || symout in flagOf then ""
      else Text(symout)
    }
  }

  // ----- What a path gives -----

  function StateAfter(q: Query, p: seq<int>): int {
    if p == [] then (if q.lines == [] then -1 else q.lines[0].state)
    else
      var k := p[|p| - 1];
      if 0 <= k < |q.lines| then q.lines[k].target else -1
  }

  function PosAfter(q: Query, p: seq<int>): nat {
    if p == [] then 0
    else
      var pos, k := PosAfter(q, p[..|p| - 1]), p[|p| - 1];
      if 0 <= k < |q.lines| && q.MatchLength(q.lines[k].upper, pos) >= 0 then pos
         + q.MatchLength(q.lines[k].upper, pos) else pos
  }

  function OutAfter(q: Query, p: seq<int>): string {
    if p == [] then ""
    else
      var front, k := p[..|p| - 1], p[|p| - 1];
      OutAfter(q, front) + (if 0 <= k < |q.lines| then q.Output(q.lines[k].upper, q.lines[k].lower,
                                                                PosAfter(q, front)) else "")
  }

  function Cleared(q: Query): map<string, Setting> {
    map f | f in q.flagOf.Values :: f.name := CLEARED
  }

  /** The flag settings after a path, starting with all features cleared. */
  function SettingsAfter(q: Query, p: seq<int>): map<string, Setting> {
    if p == [] then Cleared(q)
    else
      var s, k := SettingsAfter(q, p[..|p| - 1]), p[|p| - 1];
      if 0 <= k < |q.lines| then PassSymbol(q, s, q.lines[k].upper) else s
  }

  /** The settings after a symbol; only flags change any. */
  function PassSymbol(q: Query, s: map<string, Setting>, symbol: int): map<string, Setting> {
    if symbol in q.flagOf then
      var f := q.flagOf[symbol];
      s[f.name := CheckOne(f, SettingOf(s, f.name), s).1]
    else s
  }

  predicate FlagPasses(q: Query, s: map<string, Setting>, symbol: int) {
    symbol in q.flagOf ==> CheckOne(q.flagOf[symbol], SettingOf(s, q.flagOf[symbol].name), s).0
  }

  /** An arc may follow a path: it leaves the state reached, and its input side matches or its flag succeeds. */
  predicate MayFollow(q: Query, p: seq<int>, k: int) {
    && 0 <= k < |q.lines| && q.lines[k].state == StateAfter(q, p) && q.lines[k].target >= 0
    && q.MatchLength(q.lines[k].upper, PosAfter(q, p)) >= 0
    && FlagPasses(q, SettingsAfter(q, p), q.lines[k].upper)
  }

  /** Every arc of the path, given as line numbers, may follow what is before it. */
  predicate Sound(q: Query, p: seq<int>) {
    p == [] || (Sound(q, p[..|p| - 1]) && MayFollow(q, p[..|p| - 1], p[|p| - 1]))
  }

  function Outputs(q: Query, paths: seq<seq<int>>): (r: seq<string>)
    ensures |r| == |paths| && forall i :: 0 <= i < |paths| ==> r[i] == OutAfter(q, paths[i])
  {
    seq(|paths|, i requires 0 <= i < |paths| => OutAfter(q, paths[i]))
  }

  /** What a path gives, one arc further. */
  lemma OneMoreArc(q: Query, p: seq<int>, k: int)
    ensures Sound(q, p + [k]) <==> Sound(q, p) && MayFollow(q, p, k)
    ensures 0 <= k < |q.lines| ==> StateAfter(q, p + [k]) == q.lines[k].target
    ensures 0 <= k < |q.lines| && q.MatchLength(q.lines[k].upper, PosAfter(q, p)) >= 0 ==>
              && PosAfter(q, p + [k]) == PosAfter(q, p) + q.MatchLength(q.lines[k].upper, PosAfter(q, p))
              && OutAfter(q, p + [k]) == OutAfter(q, p)
                                         + q.Output(q.lines[k].upper, q.lines[k].lower, PosAfter(q, p))
    ensures 0 <= k < |q.lines| ==>
              SettingsAfter(q, p + [k]) == PassSymbol(q, SettingsAfter(q, p), q.lines[k].upper)
  {
    hide MayFollow, PassSymbol;
    assert (p + [k])[..|p|] == p;
  }

  /** A flag-legal accepting path that reads the whole input. */
  ghost predicate Answering(q: Query, p: seq<int>) {
    Sound(q, p) && StateAfter(q, p) in MachineOf(q.lines).finals && PosAfter(q, p) == |q.input|
  }

  /** The string is the output of such a path. */
  ghost predicate Answer(q: Query, s: string) {
    exists p :: Answering(q, p) && OutAfter(q, p) == s
  }

  /** A sound path is a path of the net. */
  lemma {:induction false} SoundIsPath(q: Query, p: seq<int>) returns (w: seq<Label>)
    requires Sound(q, p) && q.lines != []
    ensures |w| == |p| && Reads(MachineOf(q.lines), q.lines[0].state, w, StateAfter(q, p))
    decreases |p|
  {
    if p == [] {
      w := [];
    } else {
      var front, k := p[..|p| - 1], p[|p| - 1];
      var v := SoundIsPath(q, front);
      LineIsArc(q.lines, k);
      ReadsOne(MachineOf(q.lines), q.lines[k].state, q.lines[k].ToLabel(), q.lines[k].target);
      w := v + [q.lines[k].ToLabel()];
      ReadsAppend(MachineOf(q.lines), q.lines[0].state, v, q.lines[k].state, [q.lines[k].ToLabel()], q.lines[k].target);
    }
  }
}
