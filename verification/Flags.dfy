/**
 Flag diacritics: the runtime automaton that checks them one by one, and the declarative filter
 that elimination builds from them.
 */
module Flags {
  import opened Wrappers

  datatype FlagType = Unify | Clear | Disallow | Negative | Positive | Require | Equal

  /** A flag symbol such as @U.name.value@; the value is missing in @C.name@, @R.name@ and @D.name@. */
  datatype Flag = Flag(kind: FlagType, name: string, value: Option<string>)

  datatype Symbol = FlagSymbol(flag: Flag) | Plain(number: int)

  /** What the flag syntax allows. */
  predicate WellWritten(f: Flag) {
    match f.kind
    case Clear => f.value.None?
    case Require => true
    case Disallow => true
    case _ => f.value.Some?
  }

  // ----- Checking at run time -----

  /** State of one feature. */
  datatype Setting = Setting(value: Option<string>, neg: bool)

  const CLEARED := Setting(None, false)

  function SettingOf(settings: map<string, Setting>, name: string): Setting {
    if name in settings then settings[name] else CLEARED
  }

  /** Whether a flag succeeds, and its feature's setting afterward. */
  function CheckOne(f: Flag, s: Setting, settings: map<string, Setting>): (bool, Setting) {
    match f.kind
    case Unify =>
      if s.value.None? then (true, Setting(f.value, s.neg))
      else if f.value == s.value && !s.neg then (true, s)
      else if f.value != s.value && s.neg then (true, Setting(f.value, false))
      else (false, s)
    case Clear => (true, CLEARED)
    case Disallow =>
      if s.value.None? then (true, s)
      else if f.value.None? then (false, s)
      else if f.value != s.value then (!s.neg, s)
      else (s.neg, s)
    case Negative => (true, Setting(f.value, true))
    case Positive => (true, Setting(f.value, false))
    case Require =>
      if f.value.None? then (s.value.Some?, s)
      else (s.value.Some? && f.value == s.value && !s.neg, s)
    case Equal =>
      if f.value.None? || f.value.value !in settings then (s.value.None?, s)
      else
        var other := settings[f.value.value];
        ((if other.value.None? || s.value.None? then other.value.None? && s.value.None? && s.neg == other.neg
          else other.value == s.value && s.neg == other.neg), s)
  }

  /** The flag list of a lookup, with the setting that the last check replaced. */
  class FlagList {
    var settings: map<string, Setting>
    var oldSetting: Setting

    constructor (names: set<string>)
      ensures settings.Keys == names
      ensures forall name :: name in names ==> settings[name] == CLEARED
    {
      settings, oldSetting := map name | name in names :: CLEARED, CLEARED;
    }

    /** Checks a flag and updates its feature; the old setting is kept for undoing the step. */
    method Check(f: Flag) returns (ok: bool)
      requires f.name in settings
      modifies this
      ensures f.name in settings && (ok, settings[f.name]) == CheckOne(f, old(settings)[f.name], old(settings))
      ensures settings == old(settings)[f.name := settings[f.name]]
      ensures oldSetting == old(settings)[f.name]
    {
      var s := settings[f.name];
      oldSetting := s;
      match f.kind
      case Unify =>
        if s.value.None? {
          settings := settings[f.name := s.(value := f.value)];
          return true;
        } else if f.value == s.value && !s.neg {
          return true;
        } else if f.value != s.value && s.neg {
          settings := settings[f.name := Setting(f.value, false)];
          return true;
        }
        return false;
      case Clear =>
        settings := settings[f.name := CLEARED];
        return true;
      case Disallow =>
        if s.value.None? {
          return true;
        }
        if f.value.None? {
          return false;
        }
        if f.value != s.value {
          if s.neg {
            return false;
          }
          return true;
        }
        if s.neg {
          return true;
        }
        return false;
      case Negative =>
        settings := settings[f.name := Setting(f.value, true)];
        return true;
      case Positive =>
        settings := settings[f.name := Setting(f.value, false)];
        return true;
      case Require =>
        if f.value.None? {
          return s.value.Some?;
        }
        if s.value.None? || f.value != s.value || s.neg {
          return false;
        }
        return true;
      case Equal =>
        if f.value.None? || f.value.value !in settings {
          return s.value.None?;
        }
        var other := settings[f.value.value];
        if other.value.None? || s.value.None? {
          return other.value.None? && s.value.None? && s.neg == other.neg;
        }
        return other.value == s.value && s.neg == other.neg;
    }
  }

  // ----- A whole run, feature by feature -----

  predicate Named(s: Symbol, name: string) {
    s.FlagSymbol? && s.flag.name == name
  }

  predicate Proper(s: Symbol) {
    s.FlagSymbol? ==> WellWritten(s.flag)
  }

  /** What a flag does to its own feature. An E flag compares two features and changes neither. */
  function StepOne(f: Flag, s: Setting): (bool, Setting) {
    if f.kind == Equal then (true, s) else CheckOne(f, s, map[])
  }

  /** The setting of a feature after a word, starting cleared. */
  function After(w: seq<Symbol>, name: string): Setting {
    if w == [] then CLEARED
    else
      var s, last := After(w[..|w| - 1], name), w[|w| - 1];
      if Named(last, name) then StepOne(last.flag, s).1 else s
  }

  /** Every flag of the feature, E flags aside, succeeds when it comes. */
  predicate Legal(w: seq<Symbol>, name: string) {
    w == [] || (Legal(w[..|w| - 1], name)
                && (Named(w[|w| - 1], name) ==> StepOne(w[|w| - 1].flag, After(w[..|w| - 1], name)).0))
  }

  /** A run of checks over all features at once. */
  predicate Runs(w: seq<Symbol>, settings: map<string, Setting>) {
    if w == [] then true
    else if w[0].FlagSymbol? then
      var f := w[0].flag;
      var (ok, s) := CheckOne(f, SettingOf(settings, f.name), settings);
      ok && Runs(w[1..], settings[f.name := s])
    else Runs(w[1..], settings)
  }

  // ----- The filters -----

  datatype Status = FAIL | SUCCEED | NONE

  /** What an earlier flag `ff` means for a later flag `f`. */
  function FlagBuild(f: Flag, ff: Flag): Status {
    if f.name != ff.name then NONE
    else
      var selfnull := f.value.None?;
      var fvalue := if f.value.None? then "" else f.value.value;
      var ffvalue := if ff.value.None? then "" else ff.value.value;
      var valeq := fvalue == ffvalue;
      match (f.kind, ff.kind)
      case (Unify, Positive) => if valeq then SUCCEED else FAIL
      case (Unify, Clear) => SUCCEED
      case (Unify, Unify) => if valeq then NONE else FAIL
      case (Unify, Negative) => if valeq then FAIL else NONE
      case (Require, Unify) => if selfnull || valeq then SUCCEED else FAIL
      case (Require, Positive) => if selfnull || valeq then SUCCEED else FAIL
      case (Require, Negative) => if selfnull then SUCCEED else FAIL
      case (Require, Clear) => FAIL
      case (Disallow, Clear) => SUCCEED
      case (Disallow, Positive) => if selfnull || valeq then FAIL else SUCCEED
      case (Disallow, Unify) => if selfnull || valeq then FAIL else NONE
      case (Disallow, Negative) => if selfnull || !valeq then FAIL else SUCCEED
      case _ => NONE
  }

  /** The network operations that filters are built with. */
  datatype Net =
    | EmptySet
    | Universal
    | Single(symbol: Symbol)
    | Union(left: Net, right: Net)
    | Concat(left: Net, right: Net)
    | Intersect(left: Net, right: Net)
    | Complement(net: Net)
    | Contains(net: Net)
    | Optional(net: Net)

  ghost predicate In(w: seq<Symbol>, n: Net)
    decreases n
  {
    match n
    case EmptySet => false
    case Universal => true
    case Single(s) => w == [s]
    case Union(a, b) => In(w, a) || In(w, b)
    case Concat(a, b) => exists i :: 0 <= i <= |w| && In(w[..i], a) && In(w[i..], b)
    case Intersect(a, b) => In(w, a) && In(w, b)
    case Complement(a) => !In(w, a)
    case Contains(a) => exists i, j :: 0 <= i <= j <= |w| && In(w[i..j], a)
    case Optional(a) => w == [] || In(w, a)
  }

  predicate Partner(f: Flag, flags: seq<Flag>) {
    exists k :: 0 <= k < |flags| && FlagBuild(f, flags[k]) != NONE
  }

  /** A net that accepts single symbols only, those of the flags with the given status for `f`. */
  ghost predicate Collects(n: Net, f: Flag, flags: seq<Flag>, status: Status) {
    forall w: seq<Symbol> :: In(w, n) <==> |w| == 1 && w[0].FlagSymbol? && w[0].flag in flags
                                           && FlagBuild(f, w[0].flag) == status
  }

  /** The filter for flag `f`, from the unions of what fails and what saves it. */
  function FilterFor(f: Flag, fail: Net, succeed: Net): Net {
    var self := Single(FlagSymbol(f));
    if f.kind == Require then
      Complement(Concat(Optional(Concat(Universal, fail)),
                        Concat(Complement(Contains(succeed)), Concat(self, Universal))))
    else
      Complement(Contains(Concat(fail, Concat(Complement(Contains(succeed)), self))))
  }

  // ----- The filter nets as positions in a word -----

  ghost predicate Saves(f: Flag, s: Symbol, flags: seq<Flag>, status: Status) {
    s.FlagSymbol? && s.flag in flags && FlagBuild(f, s.flag) == status
  }

  /** No symbol from `j` up to `i` saves `f`. */
  ghost predicate Unsaved(w: seq<Symbol>, f: Flag, flags: seq<Flag>, j: int, i: int) {
    forall k :: 0 <= j <= k < i && k < |w| ==> !Saves(f, w[k], flags, SUCCEED)
  }

  /** Position `i` holds `f`, and what precedes it fails it. */
  ghost predicate RejectedAt(w: seq<Symbol>, f: Flag, flags: seq<Flag>, i: int) {
    && 0 <= i < |w| && w[i] == FlagSymbol(f)
    && (FailedBefore(w, f, flags, i) || (f.kind == Require && Unsaved(w, f, flags, 0, i)))
  }

  ghost predicate FailedBefore(w: seq<Symbol>, f: Flag, flags: seq<Flag>, i: int) {
    exists j :: 0 <= j < i && j < |w| && Saves(f, w[j], flags, FAIL) && Unsaved(w, f, flags, j + 1, i)
  }

  ghost predicate Rejected(w: seq<Symbol>, f: Flag, flags: seq<Flag>) {
    exists i :: RejectedAt(w, f, flags, i)
  }

  /** A stretch of the word is in the language of a net. */
  ghost predicate Part(w: seq<Symbol>, i: int, j: int, n: Net) {
    0 <= i <= j <= |w| && In(w[i..j], n)
  }

  ghost predicate PartBoth(w: seq<Symbol>, i: int, m: int, j: int, a: Net, b: Net) {
    Part(w, i, m, a) && Part(w, m, j, b)
  }

  lemma PartConcat(w: seq<Symbol>, i: int, j: int, a: Net, b: Net)
    requires 0 <= i <= j <= |w|
    ensures Part(w, i, j, Concat(a, b)) <==> exists m :: PartBoth(w, i, m, j, a, b)
  {
    if Part(w, i, j, Concat(a, b)) {
      var x :| 0 <= x <= j - i && In(w[i..j][..x], a) && In(w[i..j][x..], b);
      assert w[i..j][..x] == w[i..i + x] && w[i..j][x..] == w[i + x..j];
      assert PartBoth(w, i, i + x, j, a, b);
    }
    if m :| PartBoth(w, i, m, j, a, b) {
      assert w[i..j][..m - i] == w[i..m] && w[i..j][m - i..] == w[m..j];
      assert 0 <= m - i <= |w[i..j]|;
    }
  }

  ghost predicate PartWithin(w: seq<Symbol>, i: int, p: int, q: int, j: int, a: Net) {
    i <= p && q <= j && Part(w, p, q, a)
  }

  lemma Slice(w: seq<Symbol>, i: int, j: int, x: int, y: int)
    requires 0 <= i <= j <= |w| && 0 <= x <= y <= j - i
    ensures w[i..j][x..y] == w[i + x..i + y]
  {
    forall k | 0 <= k < y - x ensures w[i..j][x..y][k] == w[i + x..i + y][k] {
    }
  }

  lemma PartContains(w: seq<Symbol>, i: int, j: int, a: Net)
    requires 0 <= i <= j <= |w|
    ensures Part(w, i, j, Contains(a)) <==> exists p, q :: PartWithin(w, i, p, q, j, a)
  {
    if Part(w, i, j, Contains(a)) {
      var x, y :| 0 <= x <= y <= j - i && In(w[i..j][x..y], a);
      Slice(w, i, j, x, y);
      assert PartWithin(w, i, i + x, i + y, j, a);
    }
    if p, q :| PartWithin(w, i, p, q, j, a) {
      Slice(w, i, j, p - i, q - i);
      assert 0 <= p - i <= q - i <= |w[i..j]|;
    }
  }

  lemma PartOne(w: seq<Symbol>, i: int, j: int, n: Net, f: Flag, flags: seq<Flag>, status: Status)
    requires Collects(n, f, flags, status)
    ensures Part(w, i, j, n) <==> 0 <= i < |w| && j == i + 1 && Saves(f, w[i], flags, status)
  {
  }

  lemma PartSelf(w: seq<Symbol>, i: int, j: int, f: Flag)
    ensures Part(w, i, j, Single(FlagSymbol(f))) <==> 0 <= i < |w| && j == i + 1 && w[i] == FlagSymbol(f)
  {
  }

  lemma PartUnsaved(w: seq<Symbol>, i: int, j: int, succeed: Net, f: Flag, flags: seq<Flag>)
    requires Collects(succeed, f, flags, SUCCEED)
    ensures Part(w, i, j, Complement(Contains(succeed))) <==> 0 <= i <= j <= |w| && Unsaved(w, f, flags, i, j)
  {
    hide Collects, Saves;
    if 0 <= i <= j <= |w| {
      PartContains(w, i, j, succeed);
      forall p, q ensures Part(w, p, q, succeed) <==> 0 <= p < |w| && q == p + 1 && Saves(f, w[p], flags, SUCCEED) {
        PartOne(w, p, q, succeed, f, flags, SUCCEED);
      }
      if k :| i <= k < j && Saves(f, w[k], flags, SUCCEED) {
        assert PartWithin(w, i, k, k + 1, j, succeed);
      }
    }
  }

  /** Nothing that saves, then `f`. */
  ghost predicate ThenSelf(w: seq<Symbol>, i: int, j: int, f: Flag, flags: seq<Flag>) {
    0 <= i < j <= |w| && w[j - 1] == FlagSymbol(f) && Unsaved(w, f, flags, i, j - 1)
  }

  lemma PartThenSelf(w: seq<Symbol>, i: int, j: int, succeed: Net, f: Flag, flags: seq<Flag>)
    requires Collects(succeed, f, flags, SUCCEED)
    ensures Part(w, i, j, Concat(Complement(Contains(succeed)), Single(FlagSymbol(f)))) <==> ThenSelf(w, i, j, f, flags)
  {
    hide Collects, Unsaved;
    if 0 <= i <= j <= |w| {
      var quiet, self := Complement(Contains(succeed)), Single(FlagSymbol(f));
      PartConcat(w, i, j, quiet, self);
      forall m ensures PartBoth(w, i, m, j, quiet, self) <==> m == j - 1 && ThenSelf(w, i, j, f, flags) {
        PartUnsaved(w, i, m, succeed, f, flags);
        PartSelf(w, m, j, f);
      }
      assert ThenSelf(w, i, j, f, flags) ==> PartBoth(w, i, j - 1, j, quiet, self);
    }
  }

  /** A failing symbol, nothing that saves, then `f`. */
  ghost predicate BadStretch(w: seq<Symbol>, f: Flag, flags: seq<Flag>, i: int, j: int) {
    0 <= i < |w| && Saves(f, w[i], flags, FAIL) && ThenSelf(w, i + 1, j, f, flags)
  }

  lemma PartBad(w: seq<Symbol>, i: int, j: int, fail: Net, succeed: Net, f: Flag, flags: seq<Flag>)
    requires Collects(fail, f, flags, FAIL) && Collects(succeed, f, flags, SUCCEED)
    ensures Part(w, i, j, Concat(fail, Concat(Complement(Contains(succeed)), Single(FlagSymbol(f))))) <==>
              BadStretch(w, f, flags, i, j)
  {
    hide Collects, Saves;
    if 0 <= i <= j <= |w| {
      var rest := Concat(Complement(Contains(succeed)), Single(FlagSymbol(f)));
      PartConcat(w, i, j, fail, rest);
      forall m ensures PartBoth(w, i, m, j, fail, rest) <==> m == i + 1 && BadStretch(w, f, flags, i, j) {
        PartOne(w, i, m, fail, f, flags, FAIL);
        PartThenSelf(w, m, j, succeed, f, flags);
      }
      assert BadStretch(w, f, flags, i, j) ==> PartBoth(w, i, i + 1, j, fail, rest);
    }
  }

  lemma StretchRejects(w: seq<Symbol>, f: Flag, flags: seq<Flag>, i: int, j: int)
    requires BadStretch(w, f, flags, i, j)
    ensures 0 < j <= |w| && w[j - 1] == FlagSymbol(f) && FailedBefore(w, f, flags, j - 1)
  {
    hide Saves;
  }

  lemma RejectedStretch(w: seq<Symbol>, f: Flag, flags: seq<Flag>, j: int)
    requires 0 < j <= |w| && w[j - 1] == FlagSymbol(f) && FailedBefore(w, f, flags, j - 1)
    ensures exists k :: BadStretch(w, f, flags, k, j)
  {
    hide Saves;
    var k :| 0 <= k < j - 1 && Saves(f, w[k], flags, FAIL) && Unsaved(w, f, flags, k + 1, j - 1);
    assert BadStretch(w, f, flags, k, j);
  }

  /** The filter for a flag other than R. */
  lemma FilterMeans(w: seq<Symbol>, fail: Net, succeed: Net, f: Flag, flags: seq<Flag>)
    requires Collects(fail, f, flags, FAIL) && Collects(succeed, f, flags, SUCCEED) && f.kind != Require
    ensures In(w, FilterFor(f, fail, succeed)) <==> !Rejected(w, f, flags)
  {
    hide Collects, BadStretch, FailedBefore;
    var bad := Concat(fail, Concat(Complement(Contains(succeed)), Single(FlagSymbol(f))));
    PartContains(w, 0, |w|, bad);
    assert w[0..|w|] == w;
    if p, q :| PartWithin(w, 0, p, q, |w|, bad) {
      PartBad(w, p, q, fail, succeed, f, flags);
      StretchRejects(w, f, flags, p, q);
      assert RejectedAt(w, f, flags, q - 1);
    }
    if Rejected(w, f, flags) {
      var i :| RejectedAt(w, f, flags, i);
      RejectedStretch(w, f, flags, i + 1);
      var k :| BadStretch(w, f, flags, k, i + 1);
      PartBad(w, k, i + 1, fail, succeed, f, flags);
      StretchStart(w, f, flags, k, i + 1);
      assert PartWithin(w, 0, k, i + 1, |w|, bad);
    }
  }

  lemma StretchStart(w: seq<Symbol>, f: Flag, flags: seq<Flag>, i: int, j: int)
    requires BadStretch(w, f, flags, i, j)
    ensures 0 <= i <= j <= |w|
  {
  }

  // ----- The R filter -----

  lemma PartStart(w: seq<Symbol>, i: int, fail: Net, f: Flag, flags: seq<Flag>)
    requires Collects(fail, f, flags, FAIL) && 0 <= i <= |w|
    ensures Part(w, 0, i, Optional(Concat(Universal, fail))) <==> i == 0 || Saves(f, w[i - 1], flags, FAIL)
  {
    hide Collects, Saves;
    PartConcat(w, 0, i, Universal, fail);
    assert Part(w, 0, i, Optional(Concat(Universal, fail))) <==> i == 0 || Part(w, 0, i, Concat(Universal, fail)) by {
      assert w[0..i] == [] <==> i == 0;
    }
    forall m ensures PartBoth(w, 0, m, i, Universal, fail) <==> m == i - 1 && i > 0 && Saves(f, w[i - 1], flags, FAIL) {
      PartOne(w, m, i, fail, f, flags, FAIL);
    }
    assert i > 0 && Saves(f, w[i - 1], flags, FAIL) ==> PartBoth(w, 0, i - 1, i, Universal, fail);
  }

  lemma PartRest(w: seq<Symbol>, i: int, f: Flag)
    requires 0 <= i <= |w|
    ensures Part(w, i, |w|, Concat(Single(FlagSymbol(f)), Universal)) <==> i < |w| && w[i] == FlagSymbol(f)
  {
    PartConcat(w, i, |w|, Single(FlagSymbol(f)), Universal);
    forall m
      ensures PartBoth(w, i, m, |w|, Single(FlagSymbol(f)), Universal) <==>
                m == i + 1 && i < |w| && w[i] == FlagSymbol(f)
    {
      PartSelf(w, i, m, f);
    }
    assert i < |w| && w[i] == FlagSymbol(f) ==> PartBoth(w, i, i + 1, |w|, Single(FlagSymbol(f)), Universal);
  }

  ghost predicate QuietThen(w: seq<Symbol>, i: int, k: int, f: Flag, flags: seq<Flag>) {
    0 <= i <= k < |w| && w[k] == FlagSymbol(f) && Unsaved(w, f, flags, i, k)
  }

  lemma PartQuietThen(w: seq<Symbol>, i: int, succeed: Net, f: Flag, flags: seq<Flag>)
    requires Collects(succeed, f, flags, SUCCEED) && 0 <= i <= |w|
    ensures Part(w, i, |w|, Concat(Complement(Contains(succeed)), Concat(Single(FlagSymbol(f)), Universal))) <==>
            exists k :: QuietThen(w, i, k, f, flags)
  {
    hide Collects, Unsaved;
    var quiet, rest := Complement(Contains(succeed)), Concat(Single(FlagSymbol(f)), Universal);
    PartConcat(w, i, |w|, quiet, rest);
    forall m ensures PartBoth(w, i, m, |w|, quiet, rest) <==> QuietThen(w, i, m, f, flags) {
      PartUnsaved(w, i, m, succeed, f, flags);
      if 0 <= m <= |w| {
        PartRest(w, m, f);
      }
    }
  }

  ghost predicate BadAt(w: seq<Symbol>, i: int, k: int, f: Flag, flags: seq<Flag>) {
    0 <= i <= |w| && (i == 0 || Saves(f, w[i - 1], flags, FAIL)) && QuietThen(w, i, k, f, flags)
  }

  lemma BadAtRejects(w: seq<Symbol>, i: int, k: int, f: Flag, flags: seq<Flag>)
    requires f.kind == Require
    ensures BadAt(w, i, k, f, flags) ==> RejectedAt(w, f, flags, k)
    ensures RejectedAt(w, f, flags, k) ==> exists j :: BadAt(w, j, k, f, flags)
  {
    hide Saves;
    if RejectedAt(w, f, flags, k) {
      if Unsaved(w, f, flags, 0, k) {
        assert BadAt(w, 0, k, f, flags);
      } else {
        var j :| 0 <= j < k && Saves(f, w[j], flags, FAIL) && Unsaved(w, f, flags, j + 1, k);
        assert BadAt(w, j + 1, k, f, flags);
      }
    }
  }

  /** The filter for an R flag. */
  lemma RequireFilterMeans(w: seq<Symbol>, fail: Net, succeed: Net, f: Flag, flags: seq<Flag>)
    requires Collects(fail, f, flags, FAIL) && Collects(succeed, f, flags, SUCCEED) && f.kind == Require
    ensures In(w, FilterFor(f, fail, succeed)) <==> !Rejected(w, f, flags)
  {
    hide Collects, QuietThen, RejectedAt, BadAt;
    var start := Optional(Concat(Universal, fail));
    var rest := Concat(Complement(Contains(succeed)), Concat(Single(FlagSymbol(f)), Universal));
    PartConcat(w, 0, |w|, start, rest);
    assert w[0..|w|] == w;
    if i :| PartBoth(w, 0, i, |w|, start, rest) {
      RequirePart(w, i, fail, succeed, f, flags);
      var k :| BadAt(w, i, k, f, flags);
      BadAtExactly(w, k, f, flags);
    }
    if Rejected(w, f, flags) {
      var k :| RejectedAt(w, f, flags, k);
      BadAtExactly(w, k, f, flags);
      var i :| BadAt(w, i, k, f, flags);
      RequirePart(w, i, fail, succeed, f, flags);
    }
  }

  lemma BadAtExactly(w: seq<Symbol>, k: int, f: Flag, flags: seq<Flag>)
    requires f.kind == Require
    ensures RejectedAt(w, f, flags, k) <==> exists i :: BadAt(w, i, k, f, flags)
  {
    hide RejectedAt, BadAt;
    if i :| BadAt(w, i, k, f, flags) {
      BadAtRejects(w, i, k, f, flags);
    }
    BadAtRejects(w, 0, k, f, flags);
  }

  lemma RequirePart(w: seq<Symbol>, i: int, fail: Net, succeed: Net, f: Flag, flags: seq<Flag>)
    requires Collects(fail, f, flags, FAIL) && Collects(succeed, f, flags, SUCCEED)
    ensures PartBoth(w, 0, i, |w|, Optional(Concat(Universal, fail)),
                     Concat(Complement(Contains(succeed)), Concat(Single(FlagSymbol(f)), Universal)))
            <==> exists k :: BadAt(w, i, k, f, flags)
  {
    hide Collects, QuietThen, Saves;
    if 0 <= i <= |w| {
      PartStart(w, i, fail, f, flags);
      PartQuietThen(w, i, succeed, f, flags);
      if k :| QuietThen(w, i, k, f, flags) {
        assert BadAt(w, i, k, f, flags) <==> (i == 0 || Saves(f, w[i - 1], flags, FAIL));
      }
    }
  }

  // ----- Assembling the filters -----

  predicate Chosen(f: Flag, name: Option<string>) {
    name.None? || f.name == name.value
  }

  lemma FilterRight(w: seq<Symbol>, fail: Net, succeed: Net, f: Flag, flags: seq<Flag>)
    requires Collects(fail, f, flags, FAIL) && Collects(succeed, f, flags, SUCCEED)
    ensures In(w, FilterFor(f, fail, succeed)) <==> !Rejected(w, f, flags)
  {
    if f.kind == Require {
      RequireFilterMeans(w, fail, succeed, f, flags);
    } else {
      FilterMeans(w, fail, succeed, f, flags);
    }
  }

  lemma CollectMore(n: Net, f: Flag, flags: seq<Flag>, k: int, status: Status)
    requires 0 <= k < |flags| && Collects(n, f, flags[..k], status)
    ensures FlagBuild(f, flags[k]) == status ==> Collects(Union(n, Single(FlagSymbol(flags[k]))), f, flags[..k + 1],
                                                          status)
    ensures FlagBuild(f, flags[k]) != status ==> Collects(n, f, flags[..k + 1], status)
  {
    assert flags[..k + 1] == flags[..k] + [flags[k]];
  }

  /** The flags that fail `f` and those that save it, each as a union, and whether there are any. */
  method CollectPartners(f: Flag, flags: seq<Flag>) returns (fail: Net, succeed: Net, found: bool)
    ensures Collects(fail, f, flags, FAIL) && Collects(succeed, f, flags, SUCCEED)
    ensures found <==> Partner(f, flags)
  {
    hide Collects;
    fail, succeed, found := EmptySet, EmptySet, false;
    CollectNone(f);
    assert flags[..0] == [];
    var k := 0;
    while k < |flags|
      invariant 0 <= k <= |flags|
      invariant Collects(fail, f, flags[..k], FAIL) && Collects(succeed, f, flags[..k], SUCCEED)
      invariant found <==> exists j :: 0 <= j < k && FlagBuild(f, flags[j]) != NONE
    {
      CollectMore(fail, f, flags, k, FAIL);
      CollectMore(succeed, f, flags, k, SUCCEED);
      var status := FlagBuild(f, flags[k]);
      if status == FAIL {
        fail := Union(fail, Single(FlagSymbol(flags[k])));
        found := true;
      }
      if status == SUCCEED {
        succeed := Union(succeed, Single(FlagSymbol(flags[k])));
        found := true;
      }
      k := k + 1;
    }
    assert flags[..k] == flags;
  }

  lemma CollectNone(f: Flag)
    ensures Collects(EmptySet, f, [], FAIL) && Collects(EmptySet, f, [], SUCCEED)
  {
  }

  /** The word gets past the filters of the first `k` chosen flags. */
  ghost predicate PassesUpTo(w: seq<Symbol>, flags: seq<Flag>, name: Option<string>, k: int) {
    forall j :: 0 <= j < k && j < |flags| && Chosen(flags[j], name) && Partner(flags[j], flags) ==>
                !Rejected(w, flags[j], flags)
  }

  ghost predicate Passes(w: seq<Symbol>, flags: seq<Flag>, name: Option<string>) {
    PassesUpTo(w, flags, name, |flags|)
  }

  lemma NonePassed(flags: seq<Flag>, name: Option<string>)
    ensures forall w :: PassesUpTo(w, flags, name, 0)
  {
  }

  lemma PassMore(w: seq<Symbol>, flags: seq<Flag>, name: Option<string>, k: int)
    requires 0 <= k < |flags|
    ensures PassesUpTo(w, flags, name, k + 1) <==>
            PassesUpTo(w, flags, name, k) && (Chosen(flags[k], name) && Partner(flags[k], flags) ==>
                                                !Rejected(w, flags[k], flags))
  {
    hide Rejected, Partner;
  }

  ghost predicate LetThrough(w: seq<Symbol>, filter: Option<Net>) {
    filter.None? || In(w, filter.value)
  }

  /** Intersects one filter for every chosen flag that has a partner; None if there is no such flag. */
  method BuildFilter(flags: seq<Flag>, name: Option<string>) returns (filter: Option<Net>)
    ensures forall w :: Passes(w, flags, name) <==> LetThrough(w, filter)
  {
    hide Rejected, Partner, Collects, FilterFor, PassesUpTo;
    filter := None;
    assert forall w :: PassesUpTo(w, flags, name, 0) by {
      NonePassed(flags, name);
    }
    var k := 0;
    while k < |flags|
      invariant 0 <= k <= |flags|
      invariant forall w :: PassesUpTo(w, flags, name, k) <==> LetThrough(w, filter)
    {
      ghost var before := filter;
      if Chosen(flags[k], name) {
        var fail, succeed, found := CollectPartners(flags[k], flags);
        if found {
          var newFilter := FilterFor(flags[k], fail, succeed);
          filter := Some(if filter.None? then newFilter else Intersect(filter.value, newFilter));
          forall w ensures LetThrough(w, before) && !Rejected(w, flags[k], flags) <==> LetThrough(w, filter) {
            FilterRight(w, fail, succeed, flags[k], flags);
          }
        }
      }
      forall w ensures PassesUpTo(w, flags, name, k + 1) <==> LetThrough(w, filter) {
        PassMore(w, flags, name, k);
      }
      k := k + 1;
    }
  }

  // ----- Filters against run-time checking -----

  /** All flags of the word are among those of the net. */
  ghost predicate Over(w: seq<Symbol>, flags: seq<Flag>) {
    forall i :: 0 <= i < |w| && w[i].FlagSymbol? ==> w[i].flag in flags
  }

  ghost predicate AllProper(flags: seq<Flag>) {
    forall f :: f in flags ==> WellWritten(f)
  }

  /**
   A U flag, an N flag of another value and a flag that fails the U flag: after the last two the
   feature is only known not to have the N flag's value, so the U flag succeeds.
   */
  predicate UnifyClash(f: Flag, n: Flag, g: Flag) {
    && f.kind == Unify && n.kind == Negative && f.name == n.name == g.name && n.value != f.value
    && (if g.kind == Negative then g.value == f.value
        else (g.kind == Unify || g.kind == Positive) && g.value != f.value)
  }

  /**
   A D flag, an N flag and a U flag, all of different values: the U flag may follow the N flag,
   and makes the D flag succeed.
   */
  predicate DisallowClash(f: Flag, n: Flag, g: Flag) {
    && f.kind == Disallow && n.kind == Negative && g.kind == Unify && f.name == n.name == g.name
    && f.value.Some? && n.value != f.value && g.value != n.value && g.value != f.value
  }

  ghost predicate NoClash(flags: seq<Flag>) {
    forall f, n, g :: f in flags && n in flags && g in flags ==> !UnifyClash(f, n, g) && !DisallowClash(f, n, g)
  }

  predicate Fills(f: Flag) {
    f.kind == Unify || f.kind == Positive || f.kind == Negative
  }

  /** The E flag compares two features and one of them can be set. */
  predicate CanDiffer(e: Flag, g: Flag) {
    e.kind == Equal && e.value != Some(e.name) && Fills(g) && (g.name == e.name || e.value == Some(g.name))
  }

  ghost predicate EqualsQuiet(flags: seq<Flag>) {
    forall e, g :: e in flags && g in flags ==> !CanDiffer(e, g)
  }

  ghost predicate AllPartnered(flags: seq<Flag>) {
    forall f :: f in flags && f.kind == Require ==> Partner(f, flags)
  }

  /** Position `i` is a bad place for `f`. */
  ghost predicate Bad(w: seq<Symbol>, f: Flag, flags: seq<Flag>, i: int) {
    FailedBefore(w, f, flags, i) || (f.kind == Require && Unsaved(w, f, flags, 0, i))
  }

  lemma BadStep(w: seq<Symbol>, f: Flag, flags: seq<Flag>, i: int)
    requires 0 <= i < |w|
    ensures Bad(w, f, flags, i + 1) <==> Saves(f, w[i], flags, FAIL)
                                         || (Bad(w, f, flags, i) && !Saves(f, w[i], flags, SUCCEED))
  {
    hide Saves;
    NotBoth(f, w[i], flags);
    if FailedBefore(w, f, flags, i + 1) {
      var j :| 0 <= j < i + 1 && Saves(f, w[j], flags, FAIL) && Unsaved(w, f, flags, j + 1, i + 1);
      assert j < i ==> FailedBefore(w, f, flags, i);
    }
    if FailedBefore(w, f, flags, i) && !Saves(f, w[i], flags, SUCCEED) {
      var j :| 0 <= j < i && Saves(f, w[j], flags, FAIL) && Unsaved(w, f, flags, j + 1, i);
      assert Unsaved(w, f, flags, j + 1, i + 1);
    }
    if Saves(f, w[i], flags, FAIL) {
      assert Unsaved(w, f, flags, i + 1, i + 1);
    }
  }

  lemma NotBoth(f: Flag, s: Symbol, flags: seq<Flag>)
    ensures !(Saves(f, s, flags, FAIL) && Saves(f, s, flags, SUCCEED))
  {
  }

  predicate Tested(f: Flag) {
    f.kind == Unify || f.kind == Disallow || f.kind == Require
  }

  /** A flag of the word that gave the feature this setting. */
  ghost predicate Origin(flags: seq<Flag>, name: string, s: Setting) {
    s != CLEARED ==> exists g :: g in flags && Gives(g, name, s)
  }

  predicate Gives(g: Flag, name: string, s: Setting) {
    g.name == name && g.value == s.value && Fills(g) && (s.neg <==> g.kind == Negative)
  }

  /** A setting comes from a flag: a negative one from an N flag of its value, another from a U or P flag. */
  lemma {:induction false} SettingOrigin(w: seq<Symbol>, flags: seq<Flag>, name: string)
    requires AllProper(flags) && Over(w, flags) && Legal(w, name)
    ensures Origin(flags, name, After(w, name))
    decreases |w|
  {
    if w != [] {
      var u, last := w[..|w| - 1], w[|w| - 1];
      SettingOrigin(u, flags, name);
      if Named(last, name) && After(w, name) != After(u, name) && After(w, name) != CLEARED {
        assert Gives(last.flag, name, After(w, name));
      }
    }
  }

  /** After a legal word, what precedes a flag fails it exactly when the run-time check would. */
  lemma {:induction false} BadIsFailing(w: seq<Symbol>, f: Flag, flags: seq<Flag>, i: int)
    requires 0 <= i <= |w| && Over(w, flags) && AllProper(flags) && NoClash(flags) && f in flags && Tested(f)
    requires Legal(w[..i], f.name)
    ensures Bad(w, f, flags, i) <==> !CheckOne(f, After(w[..i], f.name), map[]).0
    decreases i
  {
    hide Bad;
    if i == 0 {
      NothingBefore(w, f, flags);
    } else {
      var u, last := w[..i - 1], w[i - 1];
      assert w[..i][..i - 1] == u;
      BadIsFailing(w, f, flags, i - 1);
      BadStep(w, f, flags, i - 1);
      PrefixProper(w, flags, i - 1);
      SettingOrigin(u, flags, f.name);
      if Named(last, f.name) {
        NamedStep(f, last.flag, flags, After(u, f.name));
      }
    }
  }

  lemma NothingBefore(w: seq<Symbol>, f: Flag, flags: seq<Flag>)
    ensures Bad(w, f, flags, 0) <==> f.kind == Require
  {
  }

  lemma PrefixProper(w: seq<Symbol>, flags: seq<Flag>, i: int)
    requires 0 <= i <= |w| && Over(w, flags) && AllProper(flags)
    ensures Over(w[..i], flags) && forall k :: 0 <= k < i ==> Proper(w[..i][k])
    ensures i < |w| ==> Proper(w[i]) && (w[i].FlagSymbol? ==> w[i].flag in flags)
  {
  }

  /** One successful flag `g` before `f`, starting from setting `s`. */
  lemma NamedStep(f: Flag, g: Flag, flags: seq<Flag>, s: Setting)
    requires f in flags && g in flags && AllProper(flags) && NoClash(flags) && Tested(f) && f.name == g.name
    requires StepOne(g, s).0 && Origin(flags, f.name, s)
    ensures var next := StepOne(g, s).1;
            match FlagBuild(f, g)
            case FAIL => !CheckOne(f, next, map[]).0
            case SUCCEED => CheckOne(f, next, map[]).0
            case NONE => CheckOne(f, next, map[]).0 == CheckOne(f, s, map[]).0
  {
    if s != CLEARED {
      var h :| h in flags && Gives(h, f.name, s);
      assert !UnifyClash(f, g, h) && !DisallowClash(f, h, g);
    }
  }

  /**
   One feature: its filters let a word through exactly when each of its flags, E flags aside,
   succeeds in turn.
   */
  lemma FeatureAgrees(w: seq<Symbol>, flags: seq<Flag>, name: string)
    requires Over(w, flags) && AllProper(flags) && NoClash(flags)
    requires forall f :: f in flags && f.name == name && f.kind == Require ==> Partner(f, flags)
    ensures Passes(w, flags, Some(name)) <==> Legal(w, name)
  {
    hide Partner, Rejected, Legal;
    assert w[..|w|] == w;
    if Passes(w, flags, Some(name)) {
      PassedLegal(w, flags, name, |w|);
    }
    if Legal(w, name) {
      forall j | 0 <= j < |flags| && flags[j].name == name && Partner(flags[j], flags)
        ensures !Rejected(w, flags[j], flags)
      {
        PartnersTested(flags[j], flags);
        LegalNotRejected(w, flags, flags[j]);
      }
    }
  }

  lemma {:induction false} PassedLegal(w: seq<Symbol>, flags: seq<Flag>, name: string, i: int)
    requires 0 <= i <= |w| && Over(w, flags) && AllProper(flags) && NoClash(flags) && Passes(w, flags, Some(name))
    requires forall f :: f in flags && f.name == name && f.kind == Require ==> Partner(f, flags)
    ensures Legal(w[..i], name)
    decreases i
  {
    hide Partner, Bad, After, NoClash;
    if i > 0 {
      PassedLegal(w, flags, name, i - 1);
      assert w[..i][..i - 1] == w[..i - 1];
      PrefixProper(w, flags, i - 1);
      if Named(w[i - 1], name) {
        var f := w[i - 1].flag;
        if Tested(f) {
          BadIsFailing(w, f, flags, i - 1);
          BadRejected(w, f, flags, i - 1);
          var j :| 0 <= j < |flags| && flags[j] == f;
        }
      }
    }
  }

  /** A bad flag is rejected by a filter that was built. */
  lemma BadRejected(w: seq<Symbol>, f: Flag, flags: seq<Flag>, i: int)
    requires 0 <= i < |w| && w[i] == FlagSymbol(f)
    ensures Bad(w, f, flags, i) ==> Rejected(w, f, flags) && (f.kind != Require ==> Partner(f, flags))
  {
    if Bad(w, f, flags, i) {
      assert RejectedAt(w, f, flags, i);
      if f.kind != Require {
        var j :| 0 <= j < i && Saves(f, w[j], flags, FAIL) && Unsaved(w, f, flags, j + 1, i);
        var k :| 0 <= k < |flags| && flags[k] == w[j].flag;
        assert FlagBuild(f, flags[k]) != NONE;
      }
    }
  }

  lemma {:induction false} LegalPrefix(w: seq<Symbol>, name: string, i: int)
    requires Legal(w, name) && 0 <= i <= |w|
    ensures Legal(w[..i], name)
    ensures i < |w| && Named(w[i], name) ==> StepOne(w[i].flag, After(w[..i], name)).0
    decreases |w|
  {
    if i == |w| {
      assert w[..i] == w;
    } else {
      assert w[..|w| - 1][..i] == w[..i];
      LegalPrefix(w[..|w| - 1], name, i);
    }
  }

  lemma PartnersTested(f: Flag, flags: seq<Flag>)
    ensures Partner(f, flags) ==> Tested(f)
  {
  }

  lemma LegalNotRejected(w: seq<Symbol>, flags: seq<Flag>, f: Flag)
    requires Over(w, flags) && AllProper(flags) && NoClash(flags) && f in flags && Legal(w, f.name)
    ensures !Rejected(w, f, flags) || !Tested(f)
  {
    hide After, CheckOne;
    if Tested(f) {
      forall i | 0 <= i < |w| && w[i] == FlagSymbol(f) ensures !Bad(w, f, flags, i) {
        LegalPrefix(w, f.name, i);
        BadIsFailing(w, f, flags, i);
      }
    }
  }

  // ----- All features together -----

  ghost predicate Tracks(settings: map<string, Setting>, w: seq<Symbol>) {
    forall name :: SettingOf(settings, name) == After(w, name)
  }

  ghost predicate AllLegal(w: seq<Symbol>) {
    forall name :: Legal(w, name)
  }

  /** An E flag at position `i` finds both features as they should be: with one setting, or both cleared. */
  ghost predicate EqualHolds(w: seq<Symbol>, i: int)
    requires 0 <= i < |w|
  {
    w[i].FlagSymbol? && w[i].flag.kind == Equal && w[i].flag.value.Some? ==>
      After(w[..i], w[i].flag.name) == After(w[..i], w[i].flag.value.value)
  }

  ghost predicate EqualsHold(w: seq<Symbol>, k: int)
    requires k <= |w|
  {
    forall i :: 0 <= i < k ==> EqualHolds(w, i)
  }

  /** The word is legal for every feature, and at every E flag the two features agree. */
  ghost predicate LegalWord(w: seq<Symbol>) {
    AllLegal(w) && EqualsHold(w, |w|)
  }

  ghost predicate AllWellWritten(w: seq<Symbol>) {
    forall i :: 0 <= i < |w| ==> Proper(w[i])
  }

  lemma OverIsWellWritten(w: seq<Symbol>, flags: seq<Flag>)
    requires Over(w, flags) && AllProper(flags)
    ensures AllWellWritten(w)
  {
  }

  /** Checking on from position `i` succeeds exactly when the whole word is legal. */
  lemma {:induction false} RunsFrom(w: seq<Symbol>, i: int, settings: map<string, Setting>)
    requires 0 <= i <= |w| && AllWellWritten(w)
    requires Tracks(settings, w[..i]) && AllLegal(w[..i]) && EqualsHold(w, i)
    ensures Runs(w[i..], settings) <==> LegalWord(w)
    decreases |w| - i
  {
    hide Legal, After, CheckOne, SettingOf, EqualHolds, Tracks;
    if i == |w| {
      assert w[..i] == w && w[i..] == [];
    } else {
      assert w[i..][0] == w[i] && w[i..][1..] == w[i + 1..];
      if !w[i].FlagSymbol? {
        PlainStep(w, i, settings);
        RunsFrom(w, i + 1, settings);
      } else {
        var f := w[i].flag;
        FlagStep(w, i, settings);
        if CheckOne(f, SettingOf(settings, f.name), settings).0 {
          RunsFrom(w, i + 1, settings[f.name := CheckOne(f, SettingOf(settings, f.name), settings).1]);
        } else if AllLegal(w) {
          LegalPrefix(w, f.name, i);
        }
      }
    }
  }

  lemma PlainStep(w: seq<Symbol>, i: int, settings: map<string, Setting>)
    requires 0 <= i < |w| && !w[i].FlagSymbol? && Tracks(settings, w[..i]) && AllLegal(w[..i])
    ensures Tracks(settings, w[..i + 1]) && AllLegal(w[..i + 1]) && EqualHolds(w, i)
  {
    var u := w[..i + 1];
    forall name ensures SettingOf(settings, name) == After(u, name) && Legal(u, name) {
      OneMore(w, i, name);
      assert SettingOf(settings, name) == After(w[..i], name) && Legal(w[..i], name);
    }
  }

  /** How a word's setting and legality grow by one symbol. */
  lemma OneMore(w: seq<Symbol>, i: int, name: string)
    requires 0 <= i < |w|
    ensures !Named(w[i], name) ==> After(w[..i + 1], name) == After(w[..i], name)
                                   && Legal(w[..i + 1], name) == Legal(w[..i], name)
    ensures Named(w[i], name) ==> After(w[..i + 1], name) == StepOne(w[i].flag, After(w[..i], name)).1
    ensures Named(w[i], name) ==> Legal(w[..i + 1], name) ==
                                  (Legal(w[..i], name) && StepOne(w[i].flag, After(w[..i], name)).0)
  {
    hide StepOne;
    var u := w[..i + 1];
    assert u[..|u| - 1] == w[..i] && u[|u| - 1] == w[i];
  }

  /** A feature without a value is cleared: no flag leaves it negated. */
  lemma {:induction false} NoValueIsCleared(w: seq<Symbol>, name: string)
    requires AllWellWritten(w)
    ensures After(w, name).value.None? ==> After(w, name) == CLEARED
    decreases |w|
  {
    if w != [] {
      var last := w[|w| - 1];
      NoValueIsCleared(w[..|w| - 1], name);
      assert Proper(last);
    }
  }

  /** A flag succeeds when its own feature allows it and, if it is an E flag, the two features agree. */
  lemma CheckedStep(w: seq<Symbol>, i: int, settings: map<string, Setting>)
    requires 0 <= i < |w| && w[i].FlagSymbol? && AllWellWritten(w) && Tracks(settings, w[..i])
    ensures var f := w[i].flag; var s := After(w[..i], f.name);
            && SettingOf(settings, f.name) == s && CheckOne(f, s, settings).1 == StepOne(f, s).1
            && (CheckOne(f, s, settings).0 <==> StepOne(f, s).0 && EqualHolds(w, i))
  {
    hide After;
    var f := w[i].flag;
    assert SettingOf(settings, f.name) == After(w[..i], f.name);
    if f.kind == Equal {
      assert Proper(w[i]);
      var other := f.value.value;
      assert SettingOf(settings, other) == After(w[..i], other);
      NoValueIsCleared(w[..i], f.name);
      NoValueIsCleared(w[..i], other);
    }
  }

  lemma FlagStep(w: seq<Symbol>, i: int, settings: map<string, Setting>)
    requires 0 <= i < |w| && w[i].FlagSymbol? && AllWellWritten(w)
    requires Tracks(settings, w[..i]) && AllLegal(w[..i])
    ensures var f := w[i].flag;
            var checked := CheckOne(f, SettingOf(settings, f.name), settings);
            && (checked.0 <==> StepOne(f, After(w[..i], f.name)).0 && EqualHolds(w, i))
            && (checked.0 ==> Tracks(settings[f.name := checked.1], w[..i + 1]) && AllLegal(w[..i + 1]))
  {
    hide Legal, After, CheckOne, EqualHolds, StepOne;
    var f := w[i].flag;
    CheckedStep(w, i, settings);
    var checked := CheckOne(f, SettingOf(settings, f.name), settings);
    if checked.0 {
      var next, u := settings[f.name := checked.1], w[..i + 1];
      forall name ensures SettingOf(next, name) == After(u, name) && Legal(u, name) {
        OneMore(w, i, name);
        assert SettingOf(settings, name) == After(w[..i], name) && Legal(w[..i], name);
      }
    }
  }

  /**
   Run-time checking of a whole word is legality for every feature, together with agreement of the two
   features wherever an E flag stands.
   */
  lemma RunsIsLegal(w: seq<Symbol>)
    requires AllWellWritten(w)
    ensures Runs(w, map[]) <==> LegalWord(w)
  {
    assert w[..0] == [] && w[0..] == w;
    RunsFrom(w, 0, map[]);
  }

  /** A quiet E flag compares a feature with itself, or two that no flag of the net sets, and holds. */
  lemma QuietHolds(w: seq<Symbol>, flags: seq<Flag>)
    requires Over(w, flags) && AllProper(flags) && EqualsQuiet(flags) && AllLegal(w)
    ensures LegalWord(w)
  {
    hide After, Legal;
    forall i | 0 <= i < |w| ensures EqualHolds(w, i) {
      if w[i].FlagSymbol? && w[i].flag.kind == Equal && w[i].flag.value.Some? {
        var f := w[i].flag;
        var other := f.value.value;
        PrefixProper(w, flags, i);
        LegalPrefix(w, f.name, i);
        LegalPrefix(w, other, i);
        SettingOrigin(w[..i], flags, f.name);
        SettingOrigin(w[..i], flags, other);
        if f.name != other {
          assert forall g :: g in flags ==> !CanDiffer(f, g);
        }
      }
    }
  }

  /** The filters of all flags agree with run-time checking on every word over the flags. */
  ghost predicate FiltersAgree(flags: seq<Flag>) {
    forall w :: Over(w, flags) ==> (Passes(w, flags, None) <==> Runs(w, map[]))
  }

  lemma PassesByFeature(w: seq<Symbol>, flags: seq<Flag>)
    ensures Passes(w, flags, None) <==> forall name :: Passes(w, flags, Some(name))
  {
    hide Rejected, Partner;
    if forall name :: Passes(w, flags, Some(name)) {
      forall j | 0 <= j < |flags| && Partner(flags[j], flags) ensures !Rejected(w, flags[j], flags) {
        assert Passes(w, flags, Some(flags[j].name));
      }
    }
  }

  lemma AgreementSuffices(flags: seq<Flag>)
    requires AllProper(flags) && NoClash(flags) && EqualsQuiet(flags) && AllPartnered(flags)
    ensures FiltersAgree(flags)
  {
    hide Partner, Passes, Legal, Runs, AllProper, NoClash, EqualsQuiet, EqualsHold, AllWellWritten, Over;
    forall w | Over(w, flags) ensures Passes(w, flags, None) <==> Runs(w, map[]) {
      OverIsWellWritten(w, flags);
      RunsIsLegal(w);
      PassesByFeature(w, flags);
      if AllLegal(w) {
        QuietHolds(w, flags);
      }
      forall name ensures Passes(w, flags, Some(name)) <==> Legal(w, name) {
        FeatureAgrees(w, flags, name);
      }
    }
  }

  /** An R flag without a partner gets no filter, yet always fails at run time. */
  lemma PartnerlessPasses(flags: seq<Flag>, f: Flag)
    requires f in flags && f.kind == Require && !Partner(f, flags)
    ensures !FiltersAgree(flags)
  {
    var w := [FlagSymbol(f)];
    assert Over(w, flags);
    forall j | 0 <= j < |flags| && Partner(flags[j], flags) ensures !Rejected(w, flags[j], flags) {
      assert flags[j] != f;
    }
    assert Passes(w, flags, None);
    assert !Runs(w, map[]);
  }

  function Three(a: Flag, b: Flag, c: Flag): seq<Symbol> {
    [FlagSymbol(a), FlagSymbol(b), FlagSymbol(c)]
  }

  /** Three flags of one feature, checked one after the other. */
  lemma RunsThree(a: Flag, b: Flag, c: Flag)
    requires a.name == b.name == c.name && a.kind != Equal && b.kind != Equal && c.kind != Equal
    ensures var s := StepOne(a, CLEARED); var t := StepOne(b, s.1);
            Runs(Three(a, b, c), map[]) <==> s.0 && t.0 && StepOne(c, t.1).0
  {
    hide CheckOne;
    CheckAlone(a, map[]);
    var w := Three(a, b, c);
    var s := StepOne(a, CLEARED).1;
    var one: map<string, Setting> := map[a.name := s];
    CheckAlone(b, one);
    var two := one[b.name := StepOne(b, s).1];
    CheckAlone(c, two);
    assert w[1..] == [FlagSymbol(b), FlagSymbol(c)] && w[1..][1..] == [FlagSymbol(c)] && w[1..][1..][1..] == [];
    assert Runs(w[1..][1..], two) <==> StepOne(c, StepOne(b, s).1).0;
  }

  /** Flags other than E look at their own feature only. */
  lemma CheckAlone(f: Flag, settings: map<string, Setting>)
    requires f.kind != Equal
    ensures CheckOne(f, SettingOf(settings, f.name), settings) == StepOne(f, SettingOf(settings, f.name))
  {
  }

  /** A word of three flags whose last the filters reject and run-time checking accepts. */
  lemma ThreeDisagree(flags: seq<Flag>, a: Flag, b: Flag, c: Flag)
    requires a in flags && b in flags && c in flags && FlagBuild(c, a) == FAIL && FlagBuild(c, b) != SUCCEED
    requires Runs(Three(a, b, c), map[])
    ensures !FiltersAgree(flags)
  {
    var w := Three(a, b, c);
    assert Over(w, flags);
    assert Saves(c, w[0], flags, FAIL) && !Saves(c, w[1], flags, SUCCEED);
    assert RejectedAt(w, c, flags, 2) by {
      assert Unsaved(w, c, flags, 1, 2);
    }
    assert FlagBuild(c, a) != NONE;
    var k :| 0 <= k < |flags| && flags[k] == a;
    assert Partner(c, flags);
    var j :| 0 <= j < |flags| && flags[j] == c;
    assert !Passes(w, flags, None);
  }

  /** The N flag lets the U flag succeed, but the filters still see what failed it before. */
  lemma UnifyClashDisagrees(flags: seq<Flag>, f: Flag, n: Flag, g: Flag)
    requires AllProper(flags) && f in flags && n in flags && g in flags && UnifyClash(f, n, g)
    ensures !FiltersAgree(flags)
  {
    RunsThree(g, n, f);
    ThreeDisagree(flags, g, n, f);
  }

  /** The U flag lets the D flag succeed, but the filters still see the N flag. */
  lemma DisallowClashDisagrees(flags: seq<Flag>, f: Flag, n: Flag, g: Flag)
    requires AllProper(flags) && f in flags && n in flags && g in flags && DisallowClash(f, n, g)
    ensures !FiltersAgree(flags)
  {
    RunsThree(n, g, f);
    ThreeDisagree(flags, n, g, f);
  }

  /** An E flag gets no filter, and fails at run time once one of its features is set and the other is not. */
  lemma EqualDisagrees(flags: seq<Flag>, e: Flag, g: Flag)
    requires AllProper(flags) && e in flags && g in flags && CanDiffer(e, g)
    ensures !FiltersAgree(flags)
  {
    var w := [FlagSymbol(g), FlagSymbol(e)];
    assert Over(w, flags);
    forall j | 0 <= j < |flags| && Partner(flags[j], flags) ensures !Rejected(w, flags[j], flags) {
      assert flags[j] != e;
      assert flags[j].kind == Require ==> flags[j] != g;
    }
    assert Passes(w, flags, None);
    assert w[1..] == [FlagSymbol(e)];
    assert !Runs(w, map[]);
  }

  /**
   Filters and run-time checking agree on all words exactly when every R flag has a partner, no
   feature has clashing flags, and no E flag can fail.
   */
  lemma FiltersAgreeExactly(flags: seq<Flag>)
    requires AllProper(flags)
    ensures FiltersAgree(flags) <==> AllPartnered(flags) && NoClash(flags) && EqualsQuiet(flags)
  {
    hide FiltersAgree, AllProper;
    if f :| f in flags && f.kind == Require && !Partner(f, flags) {
      PartnerlessPasses(flags, f);
    } else if f, n, g :| f in flags && n in flags && g in flags && UnifyClash(f, n, g) {
      UnifyClashDisagrees(flags, f, n, g);
    } else if f, n, g :| f in flags && n in flags && g in flags && DisallowClash(f, n, g) {
      DisallowClashDisagrees(flags, f, n, g);
    } else if e, g :| e in flags && g in flags && CanDiffer(e, g) {
      EqualDisagrees(flags, e, g);
    } else {
      AgreementSuffices(flags);
    }
  }
}
