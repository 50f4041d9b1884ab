/**
 Backtracking lookup: a depth-first search whose stack remembers what each step replaced, so that
 popping restores position, output and flags, and the search can be resumed after every answer.
 At every step the stack spells a path of the net, and the handle's fields are what that path gives;
 the answering paths before that point are the ones answered so far.
 */
module Lookup {
  import opened Automata
  import opened Flags
  import opened LookupOrder
  import opened LookupPaths
  import opened NetReading
  import opened Wrappers

  // ----- The search -----

  /** What a step saved: where it left from, and the flag setting it replaced, if any. */
  datatype Frame = Frame(offset: int, ipos: nat, opos: nat, visitmark: int, undo: Option<(string, Setting)>)

  function Offsets(stack: seq<Frame>): (p: seq<int>)
    ensures |p| == |stack| && forall i :: 0 <= i < |stack| ==> p[i] == stack[i].offset
  {
    seq(|stack|, i requires 0 <= i < |stack| => stack[i].offset)
  }

  function Restored(s: map<string, Setting>, undo: Option<(string, Setting)>): map<string, Setting> {
    if undo.Some? then s[undo.value.0 := undo.value.1] else s
  }

  /** A frame holds what the path before it gives, and undoes what its arc did to the flags. */
  ghost predicate FrameOk(q: Query, p: seq<int>, i: int, f: Frame) {
    && 0 <= i < |p|
    && f.ipos == PosAfter(q, p[..i]) && f.opos == |OutAfter(q, p[..i])|
    && Restored(SettingsAfter(q, p[..i + 1]), f.undo) == SettingsAfter(q, p[..i])
  }

  ghost predicate FramesOk(q: Query, stack: seq<Frame>) {
    forall i :: 0 <= i < |stack| ==> FrameOk(q, Offsets(stack), i, stack[i])
  }

  /** The handle's position, output and flags are what the stack's path gives. */
  ghost predicate Tracking(q: Query, stack: seq<Frame>, ipos: nat, opos: nat, outstring: string, settings: map<string,
                           Setting>) {
    var p := Offsets(stack);
    && Sound(q, p) && FramesOk(q, stack)
    && ipos == PosAfter(q, p) && opos <= |outstring| && outstring[..opos] == OutAfter(q, p)
    && settings == SettingsAfter(q, p)
  }

  lemma OffsetsPush(stack: seq<Frame>, f: Frame)
    ensures Offsets(stack + [f]) == Offsets(stack) + [f.offset]
  {
  }

  lemma OffsetsPop(stack: seq<Frame>)
    requires stack != []
    ensures Offsets(stack[..|stack| - 1]) == Offsets(stack)[..|stack| - 1]
  {
  }

  /** Writing after position `opos` leaves what is before it. */
  function Written(outstring: string, opos: nat, s: string): string
    requires opos <= |outstring|
  {
    outstring[..opos] + s + (if opos + |s| <= |outstring| then outstring[opos + |s|..] else [])
  }

  /** Following an arc keeps the handle in step with the path. */
  lemma Pushed(q: Query, stack: seq<Frame>, ipos: nat, opos: nat, outstring: string, settings: map<string, Setting>,
               f: Frame, settings': map<string, Setting>)
    requires Tracking(q, stack, ipos, opos, outstring, settings) && MayFollow(q, Offsets(stack), f.offset)
    requires f.ipos == ipos && f.opos == opos && Restored(settings', f.undo) == settings
    requires settings' == SettingsAfter(q, Offsets(stack) + [f.offset])
    ensures var l := q.lines[f.offset]; var s := q.Output(l.upper, l.lower, ipos);
            Tracking(q, stack + [f], ipos + q.MatchLength(l.upper, ipos), opos + |s|, Written(outstring, opos, s),
                     settings')
  {
    var p, l := Offsets(stack), q.lines[f.offset];
    var p' := p + [f.offset];
    OffsetsPush(stack, f);
    assert p'[..|p|] == p && p'[|p|] == f.offset;
    var s := q.Output(l.upper, l.lower, ipos);
    assert Written(outstring, opos, s)[..opos + |s|] == outstring[..opos] + s;
    forall i | 0 <= i < |stack + [f]| ensures FrameOk(q, p', i, (stack + [f])[i]) {
      if i < |stack| {
        assert p'[..i] == p[..i] && p'[..i + 1] == p[..i + 1];
        assert FrameOk(q, p, i, stack[i]);
      } else {
        assert p'[..i + 1] == p';
      }
    }
  }

  lemma FramesPopped(q: Query, stack: seq<Frame>)
    requires FramesOk(q, stack) && stack != []
    ensures FramesOk(q, stack[..|stack| - 1])
  {
    hide PosAfter, OutAfter, SettingsAfter, Restored;
    var p, n := Offsets(stack), |stack| - 1;
    OffsetsPop(stack);
    forall i | 0 <= i < n ensures FrameOk(q, p[..n], i, stack[..n][i]) {
      assert p[..n][..i] == p[..i] && p[..n][..i + 1] == p[..i + 1];
      assert FrameOk(q, p, i, stack[i]);
    }
  }

  lemma TopFrame(q: Query, stack: seq<Frame>)
    requires FramesOk(q, stack) && stack != []
    ensures FrameOk(q, Offsets(stack), |stack| - 1, stack[|stack| - 1])
  {
  }

  lemma SoundFront(q: Query, p: seq<int>)
    requires Sound(q, p) && p != []
    ensures Sound(q, p[..|p| - 1]) && 0 <= p[|p| - 1] < |q.lines|
            && q.lines[p[|p| - 1]].state == StateAfter(q, p[..|p| - 1])
  {
    hide PosAfter, SettingsAfter, StateAfter;
  }

  lemma OutputFront(q: Query, p: seq<int>, n: int, f: Frame, opos: nat, outstring: string)
    requires |p| == n + 1 && FrameOk(q, p, n, f) && opos <= |outstring| && outstring[..opos] == OutAfter(q, p)
    ensures f.ipos == PosAfter(q, p[..n]) && f.opos <= |outstring| && outstring[..f.opos] == OutAfter(q, p[..n])
  {
    hide PosAfter, SettingsAfter;
    var front := OutAfter(q, p[..n]);
    assert front <= OutAfter(q, p);
    assert outstring[..f.opos] == outstring[..opos][..f.opos];
  }

  lemma SettingsFront(q: Query, p: seq<int>, n: int, f: Frame)
    requires |p| == n + 1 && FrameOk(q, p, n, f)
    ensures Restored(SettingsAfter(q, p), f.undo) == SettingsAfter(q, p[..n])
  {
    hide PosAfter, OutAfter, SettingsAfter, Restored;
    assert p[..n + 1] == p;
  }

  /** Popping a frame restores the handle to the path before it. */
  lemma Popped(q: Query, stack: seq<Frame>, ipos: nat, opos: nat, outstring: string, settings: map<string, Setting>)
    requires Tracking(q, stack, ipos, opos, outstring, settings) && stack != []
    ensures var rest, f := stack[..|stack| - 1], stack[|stack| - 1];
            && Tracking(q, rest, f.ipos, f.opos, outstring, Restored(settings, f.undo))
            && 0 <= f.offset < |q.lines| && q.lines[f.offset].state == StateAfter(q, Offsets(rest))
  {
    hide Sound, FramesOk, PosAfter, OutAfter, SettingsAfter, Restored, FrameOk, StateAfter;
    var n, p, f := |stack| - 1, Offsets(stack), stack[|stack| - 1];
    OffsetsPop(stack);
    FramesPopped(q, stack);
    TopFrame(q, stack);
    SoundFront(q, p);
    OutputFront(q, p, n, f, opos, outstring);
    SettingsFront(q, p, n, f);
  }

  lemma Started(q: Query, outstring: string)
    ensures Tracking(q, [], 0, 0, outstring, Cleared(q))
  {
  }

  lemma {:induction false} FeaturesKnown(q: Query, p: seq<int>)
    ensures forall f :: f in q.flagOf.Values ==> f.name in SettingsAfter(q, p)
    decreases |p|
  {
    if p != [] {
      FeaturesKnown(q, p[..|p| - 1]);
    }
  }

  /** A failing check leaves the settings alone, and so does a flag that sets nothing. */
  lemma CheckKeeps(f: Flag, s: Setting, settings: map<string, Setting>)
    ensures !CheckOne(f, s, settings).0 || !Sets(f) ==> CheckOne(f, s, settings).1 == s
  {
  }

  /** The flags whose old setting is saved when they are passed. */
  predicate Sets(f: Flag) {
    f.kind == Unify || f.kind == Clear || f.kind == Positive || f.kind == Negative
  }

  /** The arc on line `k` matches here, its flag succeeds, and it is no loop that consumes nothing. */
  predicate Follows(q: Query, marks: seq<int>, ipos: nat, settings: map<string, Setting>, k: int) {
    && 0 <= k < |q.lines| && 0 <= q.lines[k].target < |marks|
    && q.MatchLength(q.lines[k].upper, ipos) != -1
    && -1 - ipos - q.MatchLength(q.lines[k].upper, ipos) != marks[q.lines[k].target]
    && FlagPasses(q, settings, q.lines[k].upper)
  }

  /** The lines from `first` to `k` are arcs of one state. */
  predicate SameState(q: Query, first: int, k: int) {
    0 <= first <= k < |q.lines| && forall h :: first <= h <= k ==> q.lines[h].state == q.lines[first].state
                                                                   && q.lines[h].upper != -1
  }

  datatype Outcome = Found(answer: string) | Exhausted | Unfinished

  datatype Stage = Arrive | Resume | Follow | PopNext

  // ----- Marks -----

  /** A mark made with so much input read, by a first visit or by a second one. */
  predicate Stamp(mark: int, pos: nat) {
    mark == pos + 1 || mark == -(pos + 1)
  }

  /** The mark of state `s` is from the path's visit after `i` arcs. */
  ghost predicate Visit(q: Query, p: seq<int>, i: nat, s: int, mark: int) {
    i <= |p| && StateAfter(q, p[..i]) == s && Stamp(mark, PosAfter(q, p[..i]))
  }

  /** Only states that the path has visited, among its first `m` visits, are marked. */
  ghost predicate MarksOk(q: Query, marks: seq<int>, p: seq<int>, m: nat) {
    forall s :: 0 <= s < |marks| && marks[s] != 0 ==> exists i :: 0 <= i < m && Visit(q, p, i, s, marks[s])
  }

  ghost predicate NoMarks(marks: seq<int>) {
    forall s :: 0 <= s < |marks| ==> marks[s] == 0
  }

  /** Every state on the way was marked with the input read when it was left, a second time after an arc to itself. */
  ghost predicate FramesMarked(q: Query, stack: seq<Frame>) {
    forall i :: 0 <= i < |stack| ==> FrameMarked(q, Offsets(stack), i, stack[i])
  }

  predicate FrameMarked(q: Query, p: seq<int>, i: nat, f: Frame) {
    Stamp(f.visitmark, f.ipos) && (Stutters(q, p, i - 1) ==> f.visitmark == -(f.ipos + 1))
  }

  lemma FramesMarkedOne(q: Query, stack: seq<Frame>, f: Frame)
    ensures FramesMarked(q, stack + [f]) <==>
              FramesMarked(q, stack) && FrameMarked(q, Offsets(stack), |stack|, f)
  {
    hide Stutters, Stamp;
    var p := Offsets(stack);
    OffsetsPush(stack, f);
    forall h | h < |stack| ensures Stutters(q, p + [f.offset], h) <==> Stutters(q, p, h) {
      StuttersFront(q, p, f.offset, h);
    }
    if FramesMarked(q, stack + [f]) {
      forall i | 0 <= i < |stack| ensures FrameMarked(q, p, i, stack[i]) {
        assert FrameMarked(q, p + [f.offset], i, (stack + [f])[i]);
      }
      assert FrameMarked(q, p + [f.offset], |stack|, (stack + [f])[|stack|]);
    }
  }

  lemma MarksArrived(q: Query, marks: seq<int>, p: seq<int>, mark: int)
    requires MarksOk(q, marks, p, |p|) && 0 <= StateAfter(q, p) < |marks| && Stamp(mark, PosAfter(q, p))
    ensures MarksOk(q, marks[StateAfter(q, p) := mark], p, |p| + 1)
  {
    hide StateAfter, PosAfter, Stamp;
    assert p[..|p|] == p;
    assert Visit(q, p, |p|, StateAfter(q, p), mark);
  }

  lemma MarksFollowed(q: Query, marks: seq<int>, p: seq<int>, k: int)
    requires MarksOk(q, marks, p, |p| + 1)
    ensures MarksOk(q, marks, p + [k], |p| + 1)
  {
    hide StateAfter, PosAfter, Stamp;
    forall s | 0 <= s < |marks| && marks[s] != 0
      ensures exists i :: 0 <= i < |p| + 1 && Visit(q, p + [k], i, s, marks[s])
    {
      var i :| 0 <= i < |p| + 1 && Visit(q, p, i, s, marks[s]);
      assert (p + [k])[..i] == p[..i];
      assert Visit(q, p + [k], i, s, marks[s]);
    }
  }

  /** Without the mark of the state reached, the marks are those of the visits before it. */
  lemma MarksLeft(q: Query, marks: seq<int>, p: seq<int>)
    requires MarksOk(q, marks, p, |p| + 1) && 0 <= StateAfter(q, p) < |marks|
    ensures MarksOk(q, marks[StateAfter(q, p) := 0], p, |p|)
  {
    hide StateAfter, PosAfter, Stamp;
    var left := marks[StateAfter(q, p) := 0];
    assert p[..|p|] == p;
    forall s | 0 <= s < |left| && left[s] != 0 ensures exists i :: 0 <= i < |p| && Visit(q, p, i, s, left[s]) {
      var i :| 0 <= i < |p| + 1 && Visit(q, p, i, s, marks[s]);
    }
  }

  /** Going back to `p`, its last state's old mark is put back. */
  lemma MarksPopped(q: Query, marks: seq<int>, p: seq<int>, k: int, mark: int)
    requires MarksOk(q, marks, p + [k], |p| + 1) && 0 <= StateAfter(q, p) < |marks| && Stamp(mark, PosAfter(q, p))
    ensures MarksOk(q, marks[StateAfter(q, p) := mark], p, |p| + 1)
  {
    hide StateAfter, PosAfter, Stamp;
    var back := marks[StateAfter(q, p) := mark];
    assert p[..|p|] == p;
    assert Visit(q, p, |p|, StateAfter(q, p), mark);
    forall s | 0 <= s < |back| && back[s] != 0 && s != StateAfter(q, p)
      ensures exists i :: 0 <= i < |p| + 1 && Visit(q, p, i, s, back[s])
    {
      var i :| 0 <= i < |p| + 1 && Visit(q, p + [k], i, s, marks[s]);
      assert (p + [k])[..i] == p[..i];
      assert Visit(q, p, i, s, back[s]);
    }
  }

  /** The marks forbid no arc with which the path stays simple. */
  lemma FollowsIfMay(q: Query, n: nat, marks: seq<int>, stack: seq<Frame>, ipos: nat, opos: nat, outstring: string,
                     settings: map<string, Setting>, k: int)
    requires q.Valid(n) && |marks| == n && MarksOk(q, marks, Offsets(stack), |stack| + 1)
    requires Tracking(q, stack, ipos, opos, outstring, settings)
    requires MayFollow(q, Offsets(stack), k) && Simple(q, Offsets(stack) + [k])
    ensures Follows(q, marks, ipos, settings, k)
  {
    hide Sound, SettingsAfter, PosAfter, OutAfter, FlagPasses, Simple, StateAfter;
    var p := Offsets(stack);
    TrackedParts(q, stack, ipos, opos, outstring, settings);
    ArcTarget(q, n, k);
    OneMoreArc(q, p, k);
    var t, pos := q.lines[k].target, ipos + q.MatchLength(q.lines[k].upper, ipos);
    if marks[t] != 0 {
      var i :| 0 <= i < |stack| + 1 && Visit(q, p, i, t, marks[t]);
      OtherPlace(q, p, k, i);
    }
  }

  /** The place that a simple path reaches is none it has been to. */
  lemma OtherPlace(q: Query, p: seq<int>, k: int, i: nat)
    requires Simple(q, p + [k]) && i <= |p|
    ensures StateAfter(q, p[..i]) == StateAfter(q, p + [k]) ==> PosAfter(q, p[..i]) != PosAfter(q, p + [k])
  {
    hide StateAfter, PosAfter;
    var a := p + [k];
    assert a[..i] == p[..i] && a[..|a|] == a;
    assert !SamePlace(q, a, i, |a|);
  }

  lemma ArcTarget(q: Query, n: nat, k: int)
    requires q.Valid(n) && 0 <= k < |q.lines| && q.lines[k].target >= 0
    ensures q.lines[k].target < n
  {
    assert LineOk(q.lines[k], n);
  }

  // ----- Where the search stands -----

  /** The line is the first one of its state. */
  ghost predicate FirstLine(q: Query, ptr: int) {
    0 <= ptr < |q.lines| && forall h :: 0 <= h < ptr ==> q.lines[h].state != q.lines[ptr].state
  }

  /** The point the search has got to: everything before it has been dealt with. */
  function Bound(q: Query, stage: Stage, p: seq<int>, ptr: int): seq<int> {
    match stage
    case Arrive => p
    case Resume => p + [0]
    case Follow => p + [ptr]
    case PopNext => p + [|q.lines|]
  }

  /** Marks and saved marks fit the path; the answering paths before this point are those answered. */
  ghost predicate Stands(q: Query, marks: seq<int>, stack: seq<Frame>, ptr: int, stage: Stage, tracked: bool,
                         answered: seq<seq<int>>) {
    && MarksOk(q, marks, Offsets(stack), if stage.Follow? then |stack| + 1 else |stack|)
    && FramesMarked(q, stack) && Steady(q, Offsets(stack)) && TopMarked(q, marks, Offsets(stack), ptr, stage)
    && (tracked ==> ArclessAlone(q.lines) && Listed(q, answered, Bound(q, stage, Offsets(stack), ptr)))
    && (tracked && (stage.Arrive? || stage.Resume?) ==> FirstLine(q, ptr))
  }

  /**
   A state reached by an arc to itself has its first mark on arrival, and its second when it has been marked
   again.
   */
  ghost predicate TopMarked(q: Query, marks: seq<int>, p: seq<int>, ptr: int, stage: Stage) {
    var pos := PosAfter(q, p);
    match stage
    case Follow => Stamped(q, marks, ptr, pos) && (Stutters(q, p, |p| - 1) ==> AtMark(q, marks, ptr, -(pos + 1)))
    case PopNext => true
    case _ => Stutters(q, p, |p| - 1) ==> AtMark(q, marks, ptr, pos + 1)
  }

  /** The current state is marked with so much input read. */
  ghost predicate Stamped(q: Query, marks: seq<int>, ptr: int, pos: nat) {
    0 <= ptr < |q.lines| && 0 <= q.lines[ptr].state < |marks| && Stamp(marks[q.lines[ptr].state], pos)
  }

  ghost predicate AtMark(q: Query, marks: seq<int>, ptr: int, mark: int) {
    0 <= ptr < |q.lines| && 0 <= q.lines[ptr].state < |marks| && marks[q.lines[ptr].state] == mark
  }

  /** The path stands at the state of line `ptr`. */
  ghost predicate OnState(q: Query, n: nat, marks: seq<int>, stack: seq<Frame>, ptr: int) {
    && q.Valid(n) && |marks| == n && Sound(q, Offsets(stack)) && 0 <= ptr < |q.lines|
    && q.lines[ptr].state == StateAfter(q, Offsets(stack))
  }

  lemma StateInMarks(q: Query, n: nat, marks: seq<int>, stack: seq<Frame>, ptr: int)
    requires OnState(q, n, marks, stack, ptr)
    ensures 0 <= ptr < |q.lines| && q.lines[ptr].state == StateAfter(q, Offsets(stack))
    ensures 0 <= StateAfter(q, Offsets(stack)) < |marks| && Sound(q, Offsets(stack))
  {
    StateRange(q, n, ptr);
  }

  /** How many rounds are left, if no path is longer than `Depth`. */
  function Left(q: Query, n: nat, stage: Stage, p: seq<int>, ptr: int): nat {
    3 * Ahead(Bound(q, stage, p, ptr), |q.lines|, Depth(q, n))
    + match stage { case Resume => 2 case Follow => 1 case _ => 0 }
  }

  /** Enough rounds for a whole search. */
  function Enough(q: Query, n: nat): nat {
    3 * Whole(|q.lines|, Depth(q, n))
  }

  lemma Begun(q: Query, n: nat, marks: seq<int>, tracked: bool)
    requires q.Valid(n) && NoMarks(marks) && (tracked ==> ArclessAlone(q.lines))
    ensures Stands(q, marks, [], 0, Arrive, tracked, []) && Stands(q, marks, [], 0, Resume, false, [])
    ensures Left(q, n, Arrive, [], 0) == Enough(q, n)
  {
    hide Depth, Whole, ArclessAlone, Listed;
    assert Offsets([]) == [];
    NothingListed(q);
    NoStutterBefore(q, []);
  }

  /** On arrival the path is answered if it is an answering one. */
  lemma Arrived(q: Query, n: nat, marks: seq<int>, stack: seq<Frame>, ptr: int, tracked: bool,
                answered: seq<seq<int>>, answers: bool)
    requires OnState(q, n, marks, stack, ptr) && Stands(q, marks, stack, ptr, Arrive, tracked, answered)
    requires answers == Answering(q, Offsets(stack))
    ensures Stands(q, marks, stack, ptr, Resume, tracked, if answers then answered + [Offsets(stack)] else answered)
    ensures Tame(q) ==> Left(q, n, Resume, Offsets(stack), ptr) < Left(q, n, Arrive, Offsets(stack), ptr)
  {
    hide Tame, Steady, Stutters, Answering, Sound, MarksOk, FramesMarked, Depth, Ahead, Listed, FirstLine, StateAfter,
         ArclessAlone, AtMark, PosAfter;
    var p := Offsets(stack);
    StateInMarks(q, n, marks, stack, ptr);
    if tracked {
      ListedHere(q, answered, p);
    }
    if Tame(q) {
      PathsAreShort(q, n, p);
      AheadInside(p, |q.lines|, Depth(q, n));
    }
  }

  /** Marking the state, the search turns to its lines. */
  lemma Resumed(q: Query, n: nat, marks: seq<int>, stack: seq<Frame>, ptr: int, tracked: bool,
                answered: seq<seq<int>>, marks': seq<int>)
    requires OnState(q, n, marks, stack, ptr) && Stands(q, marks, stack, ptr, Resume, tracked, answered)
    requires var s, pos := StateAfter(q, Offsets(stack)), PosAfter(q, Offsets(stack));
             0 <= s < n && marks' == marks[s := if marks[s] == pos + 1 then -(pos + 1) else pos + 1]
    ensures Stands(q, marks', stack, ptr, Follow, tracked, answered)
    ensures Tame(q) ==> Left(q, n, Follow, Offsets(stack), ptr) < Left(q, n, Resume, Offsets(stack), ptr)
  {
    hide Tame, Steady, Stutters, Sound, MarksOk, FramesMarked, Depth, Ahead, Listed, StateAfter, PosAfter, MayFollow,
         ArclessAlone, Simple;
    var p := Offsets(stack);
    StateInMarks(q, n, marks, stack, ptr);
    MarksArrived(q, marks, p, marks'[StateAfter(q, p)]);
    if tracked {
      forall h | 0 <= h < ptr ensures !MayFollow(q, p, h) {
        MayFollowState(q, p, h);
      }
      ListedSkip(q, answered, p, 0, ptr);
    }
    if Tame(q) {
      PathsAreShort(q, n, p);
      AheadOnward(p, 0, ptr, |q.lines|, Depth(q, n));
    }
  }

  lemma MayFollowState(q: Query, p: seq<int>, h: int)
    ensures MayFollow(q, p, h) ==> 0 <= h < |q.lines| && q.lines[h].state == StateAfter(q, p) && q.lines[h].target >= 0
  {
  }

  /** The arc leads to no state marked for the second time with the input read by then. */
  predicate NotTwice(q: Query, marks: seq<int>, p: seq<int>, k: int) {
    && 0 <= k < |q.lines| && 0 <= q.lines[k].target < |marks|
    && marks[q.lines[k].target] != -(PosAfter(q, p + [k]) + 1)
  }

  lemma FollowedNotTwice(q: Query, marks: seq<int>, p: seq<int>, settings: map<string, Setting>, k: int)
    requires Follows(q, marks, PosAfter(q, p), settings, k)
    ensures NotTwice(q, marks, p, k)
  {
    hide PosAfter, FlagPasses;
    OneMoreArc(q, p, k);
  }

  lemma SavedMark(q: Query, marks: seq<int>, p: seq<int>, ptr: int, f: Frame)
    requires TopMarked(q, marks, p, ptr, Follow) && f.ipos == PosAfter(q, p) && AtMark(q, marks, ptr, f.visitmark)
    ensures FrameMarked(q, p, |p|, f)
  {
    hide PosAfter, Stutters;
  }

  /** An arc to the same state finds its first mark, so there was no such arc just before. */
  lemma StutterMark(q: Query, marks: seq<int>, p: seq<int>, ptr: int, k: int, ptr': int)
    requires TopMarked(q, marks, p, ptr, Follow) && NotTwice(q, marks, p, k) && 0 <= ptr' < |q.lines|
             && q.lines[ptr'].state == q.lines[k].target && q.lines[ptr].state == StateAfter(q, p)
    ensures !(Stutters(q, p, |p| - 1) && Stutters(q, p + [k], |p|))
    ensures TopMarked(q, marks, p + [k], ptr', Arrive)
  {
    hide PosAfter, StateAfter;
    OneMoreArc(q, p, k);
    var a := p + [k];
    assert a[..|p|] == p && a[..|p| + 1] == a;
  }

  /** Following the first arc that can be followed leaves no simple answering path behind. */
  lemma Followed(q: Query, n: nat, marks: seq<int>, stack: seq<Frame>, ptr: int, tracked: bool,
                 answered: seq<seq<int>>, f: Frame, ptr': int)
    requires OnState(q, n, marks, stack, ptr) && Stands(q, marks, stack, ptr, Follow, tracked, answered)
    requires ptr <= f.offset < |q.lines| && f.ipos == PosAfter(q, Offsets(stack))
             && AtMark(q, marks, ptr, f.visitmark) && FirstLine(q, ptr')
    requires NotTwice(q, marks, Offsets(stack), f.offset) && 0 <= ptr' < |q.lines|
             && q.lines[f.offset].target == q.lines[ptr'].state
    requires tracked ==>
               forall h :: ptr <= h < f.offset ==> !(MayFollow(q, Offsets(stack), h)
                                                     && Simple(q, Offsets(stack) + [h]))
    ensures Stands(q, marks, stack + [f], ptr', Arrive, tracked, answered)
    ensures Tame(q) ==> Left(q, n, Arrive, Offsets(stack + [f]), ptr') < Left(q, n, Follow, Offsets(stack), ptr)
  {
    hide Tame, Steady, Stutters, Sound, MarksOk, Depth, Ahead, Listed, StateAfter, PosAfter, MayFollow, FirstLine,
         ArclessAlone, Simple, FramesMarked, NotTwice, AtMark, Stamped;
    var p := Offsets(stack);
    OffsetsPush(stack, f);
    StateInMarks(q, n, marks, stack, ptr);
    MarksFollowed(q, marks, p, f.offset);
    FramesMarkedOne(q, stack, f);
    SavedMark(q, marks, p, ptr, f);
    SteadyOne(q, p, f.offset);
    StutterMark(q, marks, p, ptr, f.offset, ptr');
    if tracked {
      ListedSkip(q, answered, p, ptr, f.offset);
    }
    if Tame(q) {
      PathsAreShort(q, n, p);
      AheadOnward(p, ptr, f.offset, |q.lines|, Depth(q, n));
    }
  }

  /** When no line can be followed, the state is unmarked and the search goes back. */
  lemma Failed(q: Query, n: nat, marks: seq<int>, stack: seq<Frame>, ptr: int, tracked: bool,
               answered: seq<seq<int>>)
    requires OnState(q, n, marks, stack, ptr) && Stands(q, marks, stack, ptr, Follow, tracked, answered)
    requires tracked ==>
               forall h :: ptr <= h < |q.lines| ==> !(MayFollow(q, Offsets(stack), h)
                                                      && Simple(q, Offsets(stack) + [h]))
    ensures 0 <= StateAfter(q, Offsets(stack)) < |marks|
    ensures Stands(q, marks[StateAfter(q, Offsets(stack)) := 0], stack, ptr, PopNext, tracked, answered)
    ensures Tame(q) ==> Left(q, n, PopNext, Offsets(stack), ptr) < Left(q, n, Follow, Offsets(stack), ptr)
  {
    hide Tame, Steady, Stutters, Sound, MarksOk, FramesMarked, Depth, Ahead, Listed, StateAfter, PosAfter, MayFollow,
         ArclessAlone, Simple, AtMark, Stamped;
    var p := Offsets(stack);
    StateInMarks(q, n, marks, stack, ptr);
    MarksLeft(q, marks, p);
    if tracked {
      ListedSkip(q, answered, p, ptr, |q.lines|);
    }
    if Tame(q) {
      PathsAreShort(q, n, p);
      AheadOnward(p, ptr, |q.lines|, |q.lines|, Depth(q, n));
    }
  }

  /** What popping does to marks and to the point the search has got to. */
  lemma WentBack(q: Query, n: nat, marks: seq<int>, rest: seq<Frame>, f: Frame, ptr: int, tracked: bool,
                 answered: seq<seq<int>>)
    requires OnState(q, n, marks, rest, f.offset) && Sound(q, Offsets(rest + [f]))
             && f.ipos == PosAfter(q, Offsets(rest))
    requires Stands(q, marks, rest + [f], ptr, PopNext, tracked, answered)
    ensures 0 <= StateAfter(q, Offsets(rest)) < |marks| && FramesMarked(q, rest)
    ensures MarksOk(q, marks[StateAfter(q, Offsets(rest)) := f.visitmark], Offsets(rest), |rest| + 1)
    ensures FrameMarked(q, Offsets(rest), |rest|, f) && Steady(q, Offsets(rest))
    ensures tracked ==> ArclessAlone(q.lines) && Listed(q, answered, Offsets(rest) + [f.offset + 1])
    ensures Tame(q) ==> Left(q, n, Follow, Offsets(rest), f.offset + 1) < Left(q, n, PopNext, Offsets(rest + [f]), ptr)
    ensures Tame(q) ==> Left(q, n, PopNext, Offsets(rest), ptr) < Left(q, n, PopNext, Offsets(rest + [f]), ptr)
  {
    hide Tame, Steady, Stutters, TopMarked, Sound, MarksOk, Depth, Ahead, Listed, StateAfter, PosAfter, ArclessAlone,
         Stamp, FramesMarked;
    var p, stack := Offsets(rest), rest + [f];
    OffsetsPush(rest, f);
    StateInMarks(q, n, marks, rest, f.offset);
    FramesMarkedOne(q, rest, f);
    SteadyOne(q, p, f.offset);
    MarksPopped(q, marks, p, f.offset, f.visitmark);
    if tracked {
      ListedBack(q, answered, p, f.offset);
    }
    if Tame(q) {
      PathsAreShort(q, n, p + [f.offset]);
      AheadBack(p, f.offset, |q.lines|, Depth(q, n));
    }
  }

  /** Back at a state with a further line, the search goes on with that line. */
  lemma BackToNext(q: Query, n: nat, marks: seq<int>, rest: seq<Frame>, f: Frame, ptr: int, tracked: bool,
                   answered: seq<seq<int>>)
    requires OnState(q, n, marks, rest, f.offset) && Sound(q, Offsets(rest + [f]))
             && f.ipos == PosAfter(q, Offsets(rest))
    requires Stands(q, marks, rest + [f], ptr, PopNext, tracked, answered)
    requires f.offset + 1 < |q.lines| && q.lines[f.offset + 1].state == q.lines[f.offset].state
    ensures 0 <= StateAfter(q, Offsets(rest)) < |marks|
    ensures Stands(q, marks[StateAfter(q, Offsets(rest)) := f.visitmark], rest, f.offset + 1, Follow, tracked, answered)
    ensures Tame(q) ==> Left(q, n, Follow, Offsets(rest), f.offset + 1) < Left(q, n, PopNext, Offsets(rest + [f]), ptr)
  {
    hide Tame, Steady, Stutters, Sound, MarksOk, FramesMarked, Depth, Ahead, Listed, StateAfter, PosAfter, ArclessAlone,
         Stamp;
    WentBack(q, n, marks, rest, f, ptr, tracked, answered);
    StateInMarks(q, n, marks, rest, f.offset);
  }

  /** Back at a state's last line, the state is unmarked and the search goes further back. */
  lemma BackAtLast(q: Query, n: nat, marks: seq<int>, rest: seq<Frame>, f: Frame, ptr: int, tracked: bool,
                   answered: seq<seq<int>>)
    requires OnState(q, n, marks, rest, f.offset) && Sound(q, Offsets(rest + [f]))
             && f.ipos == PosAfter(q, Offsets(rest))
    requires Stands(q, marks, rest + [f], ptr, PopNext, tracked, answered)
    requires f.offset + 1 >= |q.lines| || q.lines[f.offset + 1].state != q.lines[f.offset].state
    ensures 0 <= StateAfter(q, Offsets(rest)) < |marks|
    ensures Stands(q, marks[StateAfter(q, Offsets(rest)) := f.visitmark][StateAfter(q, Offsets(rest)) := 0], rest,
                   f.offset, PopNext, tracked, answered)
    ensures Tame(q) ==> Left(q, n, PopNext, Offsets(rest), f.offset) < Left(q, n, PopNext, Offsets(rest + [f]), ptr)
  {
    hide Tame, Steady, Stutters, Sound, MarksOk, FramesMarked, Depth, Ahead, Listed, StateAfter, PosAfter, MayFollow,
         ArclessAlone, Simple, Stamp, AtMark, Stamped;
    var p := Offsets(rest);
    WentBack(q, n, marks, rest, f, ptr, tracked, answered);
    StateInMarks(q, n, marks, rest, f.offset);
    MarksLeft(q, marks[StateAfter(q, p) := f.visitmark], p);
    if tracked {
      forall h | f.offset + 1 <= h < |q.lines| ensures !MayFollow(q, p, h) {
        MayFollowState(q, p, h);
        NoLaterLine(q, n, f.offset, h);
      }
      ListedSkip(q, answered, p, f.offset + 1, |q.lines|);
    }
  }

  /** A state's lines stand together. */
  lemma NoLaterLine(q: Query, n: nat, k: int, h: int)
    requires q.Valid(n) && 0 <= k < h < |q.lines| && q.lines[k + 1].state != q.lines[k].state
    ensures q.lines[h].state != q.lines[k].state
  {
  }

  class ApplyHandle {
    const q: Query
    const statemap: seq<StatePointer>
    const flags: FlagList
    const marks: array<int>
    var ptr: int
    var currPtr: int
    var ipos: nat
    var opos: nat
    var outstring: string
    var stack: seq<Frame>
    /** The paths answered since the search began; tracked as long as the search goes on from its start. */
    ghost var answered: seq<seq<int>>
    ghost var tracked: bool
    ghost const n: nat

    ghost predicate Wired()
      reads this
    {
      q.Valid(n) && PointsInto(statemap, q.lines, n) && marks.Length == n
    }

    ghost predicate Valid()
      reads this, flags
    {
      && Wired() && 0 <= ptr < |q.lines| && q.lines[ptr].state == StateAfter(q, Offsets(stack))
      && Tracking(q, stack, ipos, opos, outstring, flags.settings)
    }

    /** As a call of the lookup leaves the handle, and expects it. */
    ghost predicate Ready()
      reads this, flags, marks
    {
      Valid() && Stands(q, marks[..], stack, ptr, Resume, tracked, answered)
    }

    constructor (query: Query, states: nat)
      requires query.Valid(states)
      ensures Ready() && fresh(marks) && fresh(flags) && q == query && n == states && !tracked
    {
      hide WellFormed, PointsInto, Tracking, Tame, Listed;
      q, n := query, states;
      var points := InitStatePointers(query.lines, states);
      statemap := points;
      marks := new int[states](_ => 0);
      flags := new FlagList(set f | f in query.flagOf.Values :: f.name);
      ptr, currPtr, ipos, opos, outstring, stack := 0, 0, 0, 0, "", [];
      answered, tracked := [], false;
      new;
      Started(q, "");
      Begun(q, n, marks[..], false);
      ClearedSettings(q, flags.settings);
    }

    /** Back to the start of the net and of the input. */
    method Reset()
      requires Wired()
      modifies `ptr, `ipos, `opos, `stack, flags
      ensures Valid() && stack == [] && ptr == 0
    {
      hide WellFormed, PointsInto, Tracking;
      ptr, ipos, opos, stack := 0, 0, 0, [];
      flags.settings := Cleared(q);
      Started(q, outstring);
      NetNotEmpty(q, n);
    }

    /** Whether the symbol matches here; a flag is checked, and takes effect, on the way. */
    method MatchStr(symbol: int) returns (eat: int, undo: Option<(string, Setting)>)
      requires Wired() && (symbol in q.flagOf ==> q.flagOf[symbol].name in flags.settings)
      modifies flags
      ensures eat == -1 ==> flags.settings == old(flags.settings)
      ensures eat != -1 ==> eat == q.MatchLength(symbol, ipos) && FlagPasses(q, old(flags.settings), symbol)
                            && flags.settings == PassSymbol(q, old(flags.settings), symbol)
                            && Restored(flags.settings, undo) == old(flags.settings)
      ensures eat == -1 ==> q.MatchLength(symbol, ipos) == -1 || !FlagPasses(q, old(flags.settings), symbol)
    {
      hide WellFormed, PointsInto, CheckOne;
      undo := None;
      if symbol == EPSILON {
        return 0, None;
      }
      if symbol in q.flagOf {
        var f := q.flagOf[symbol];
        ghost var s := flags.settings;
        var ok := flags.Check(f);
        CheckKeeps(f, SettingOf(s, f.name), s);
        if ok && Sets(f) {
          undo := Some((f.name, flags.oldSetting));
        }
        eat := if ok then 0 else -1;
        return;
      }
      eat := q.MatchLength(symbol, ipos);
    }

    /** Tries the arc at `currPtr`; if it matches and is no repeated EPSILON loop, follows it. */
    method TryArc() returns (ok: bool)
      requires Valid() && 0 <= currPtr < |q.lines| && q.lines[currPtr].state == q.lines[ptr].state
               && q.lines[currPtr].upper != -1
      modifies this`ptr, this`ipos, this`opos, this`outstring, this`stack, flags
      ensures Valid() && (ok <==> Follows(q, marks[..], old(ipos), old(flags.settings), currPtr))
      ensures !ok ==> ptr == old(ptr) && stack == old(stack) && ipos == old(ipos) && opos == old(opos)
                      && flags.settings == old(flags.settings)
      ensures ok ==> |stack| == |old(stack)| + 1 && stack[..|stack| - 1] == old(stack) && FirstLine(q, ptr)
      ensures ok ==> var f := stack[|stack| - 1];
                     f.offset == currPtr && f.ipos == old(ipos) && AtMark(q, marks[..], old(ptr), f.visitmark)
    {
      hide WellFormed, PointsInto, Tracking, CheckOne, Sound, SettingsAfter, OutAfter, PosAfter, FirstLine;
      var l := q.lines[currPtr];
      LineRanges(q, n, currPtr);
      var marksource, marktarget := marks[l.state], marks[l.target];
      var eatupi := q.MatchLength(l.upper, ipos);
      if eatupi == -1 || -1 - ipos - eatupi == marktarget {
        return false;
      }
      ghost var s0 := flags.settings;
      TrackedParts(q, stack, ipos, opos, outstring, s0);
      FeaturesKnown(q, Offsets(stack));
      var undo;
      eatupi, undo := MatchStr(l.upper);
      if eatupi == -1 {
        return false;
      }
      TakeArc(eatupi, Frame(currPtr, ipos, opos, marksource, undo), s0);
      ok := true;
    }

    /** Appends the arc's output, pushes what is to be restored, and moves on. */
    method TakeArc(eatupi: nat, frame: Frame, ghost s0: map<string, Setting>)
      requires Wired() && 0 <= currPtr < |q.lines| && frame.offset == currPtr && frame.ipos == ipos
               && frame.opos == opos
      requires Tracking(q, stack, ipos, opos, outstring, s0) && q.lines[currPtr].state == StateAfter(q, Offsets(stack))
      requires 0 <= q.lines[currPtr].target < n && eatupi == q.MatchLength(q.lines[currPtr].upper, ipos)
      requires FlagPasses(q, s0, q.lines[currPtr].upper) && flags.settings == PassSymbol(q, s0, q.lines[currPtr].upper)
      requires Restored(flags.settings, frame.undo) == s0
      modifies this`ptr, this`ipos, this`opos, this`outstring, this`stack
      ensures Valid() && stack == old(stack) + [frame] && FirstLine(q, ptr)
    {
      hide WellFormed, PointsInto, Tracking, CheckOne, Sound, OutAfter, PosAfter, SettingsAfter, PassSymbol, Written,
           FirstLine;
      var l := q.lines[currPtr];
      TrackedParts(q, stack, ipos, opos, outstring, s0);
      var out := q.Output(l.upper, l.lower, ipos);
      OneMoreArc(q, Offsets(stack), currPtr);
      Pushed(q, stack, ipos, opos, outstring, s0, frame, flags.settings);
      OffsetsPush(stack, frame);
      TargetLine(q, n, statemap, l.target);
      outstring := Written(outstring, opos, out);
      stack := stack + [frame];
      ptr := statemap[l.target].transitions;
      ipos := ipos + eatupi;
      opos := opos + |out|;
    }

    /** Follows the first arc, from the current line on, that can be followed. */
    method FollowNextArc() returns (ok: bool)
      requires Valid()
      modifies `ptr, `currPtr, `ipos, `opos, `outstring, `stack, flags
      ensures Valid() && marks[..] == old(marks[..])
      ensures !ok ==> stack == old(stack) && ptr == old(ptr) && ipos == old(ipos)
      ensures !ok ==> forall k :: SameState(q, old(ptr), k) ==>
                                  !Follows(q, old(marks[..]), old(ipos), old(flags.settings), k)
      ensures ok ==> |stack| == |old(stack)| + 1 && stack[..|stack| - 1] == old(stack) && FirstLine(q, ptr)
      ensures ok ==> var f := stack[|stack| - 1];
                     f.ipos == old(ipos) && AtMark(q, marks[..], old(ptr), f.visitmark)
      ensures ok ==> var k := stack[|stack| - 1].offset;
                     SameState(q, old(ptr), k) && Follows(q, old(marks[..]), old(ipos), old(flags.settings), k)
                     && forall h :: old(ptr) <= h < k ==> !Follows(q, old(marks[..]), old(ipos), old(flags.settings), h)
    {
      hide WellFormed, PointsInto, Tracking, Follows, FirstLine;
      currPtr := ptr;
      while currPtr < |q.lines| && q.lines[currPtr].state == q.lines[ptr].state && q.lines[currPtr].upper != -1
        invariant Valid() && ptr == old(ptr) <= currPtr <= |q.lines| && stack == old(stack)
        invariant ipos == old(ipos) && flags.settings == old(flags.settings) && marks[..] == old(marks[..])
        invariant forall h :: ptr <= h < currPtr ==> q.lines[h].state == q.lines[ptr].state && q.lines[h].upper != -1
        invariant forall h :: ptr <= h < currPtr ==> !Follows(q, marks[..], ipos, flags.settings, h)
        decreases |q.lines| - currPtr
      {
        ok := TryArc();
        if ok {
          return true;
        }
        currPtr := currPtr + 1;
      }
      ok := false;
    }

    /** Goes back to where the last step left from. */
    method Pop()
      requires Valid() && stack != []
      modifies this`stack, this`ptr, this`ipos, this`opos, flags, marks
      ensures Valid() && stack == old(stack)[..|old(stack)| - 1]
      ensures var f := old(stack)[|stack|];
              && ptr == f.offset && ipos == f.ipos && opos == f.opos
              && flags.settings == Restored(old(flags.settings), f.undo)
              && marks[..] == old(marks[..])[q.lines[ptr].state := f.visitmark]
    {
      hide WellFormed, PointsInto, Tracking, Sound, OutAfter, PosAfter, SettingsAfter;
      Popped(q, stack, ipos, opos, outstring, flags.settings);
      var f := stack[|stack| - 1];
      stack := stack[..|stack| - 1];
      ptr, ipos, opos := f.offset, f.ipos, f.opos;
      StateRange(q, n, ptr);
      marks[q.lines[ptr].state] := f.visitmark;
      if f.undo.Some? {
        flags.settings := flags.settings[f.undo.value.0 := f.undo.value.1];
      }
    }

    /** No further line of the state. */
    method AtLastArc() returns (last: bool)
      requires Valid()
      ensures !last <==> ptr + 1 < |q.lines| && q.lines[ptr + 1].state == q.lines[ptr].state
    {
      last := ptr + 1 >= |q.lines| || q.lines[ptr + 1].state != q.lines[ptr].state;
    }

    method SetMark(mark: int)
      requires Valid()
      modifies marks
      ensures Valid() && 0 <= q.lines[ptr].state < n && marks[..] == old(marks[..])[q.lines[ptr].state := mark]
    {
      hide WellFormed, PointsInto, Tracking;
      StateRange(q, n, ptr);
      marks[q.lines[ptr].state] := mark;
    }

    /** Marks the state with the input consumed, negatively on a second visit without progress. */
    method MarkState()
      requires Valid()
      modifies marks
      ensures Valid() && 0 <= q.lines[ptr].state < n
      ensures var mark := old(marks[..])[q.lines[ptr].state];
              marks[..] == old(marks[..])[q.lines[ptr].state := if mark == ipos + 1 then -(ipos + 1) else ipos + 1]
    {
      hide WellFormed, PointsInto, Tracking;
      StateRange(q, n, ptr);
      SetMark(if marks[q.lines[ptr].state] == ipos + 1 then -(ipos + 1) else ipos + 1);
    }

    /** Goes back one step and unmarks the state. */
    method PopAndUnmark()
      requires Valid() && stack != [] && Stands(q, marks[..], stack, ptr, PopNext, false, answered)
      modifies `stack, `ptr, `ipos, `opos, flags, marks
      ensures Valid() && Stands(q, marks[..], stack, ptr, PopNext, false, answered)
      ensures stack == old(stack)[..|old(stack)| - 1]
    {
      hide WellFormed, PointsInto, Tracking, Tame, Left, OnState, Listed, MarksOk, FramesMarked, ArclessAlone, Stamp,
           Stamped;
      ghost var was, rest, f, ptr0 := marks[..], stack[..|stack| - 1], stack[|stack| - 1], ptr;
      assert stack == rest + [f];
      Standing(q, n, was, stack, ptr, ipos, opos, outstring, flags.settings);
      Pop();
      Standing(q, n, was, stack, ptr, ipos, opos, outstring, flags.settings);
      WentBack(q, n, was, rest, f, ptr0, false, answered);
      MarksLeft(q, marks[..], Offsets(stack));
      SetMark(0);
    }

    /** Empties the stack and unmarks every state on the way, before a new search. */
    method ForceClearStack()
      requires Ready()
      modifies `ptr, `ipos, `opos, `stack, `tracked, flags, marks
      ensures Ready() && stack == [] && !tracked && NoMarks(marks[..])
    {
      hide WellFormed, PointsInto, Tracking, Tame, Listed, MarksOk, FramesMarked, OnState, ArclessAlone;
      tracked := false;
      if stack != [] {
        Standing(q, n, marks[..], stack, ptr, ipos, opos, outstring, flags.settings);
        MarksMore(q, marks[..], Offsets(stack));
        MarksLeft(q, marks[..], Offsets(stack));
        SetMark(0);
        while stack != []
          invariant Valid() && Stands(q, marks[..], stack, ptr, PopNext, false, answered) && !tracked
          decreases |stack|
        {
          PopAndUnmark();
        }
      }
      NowhereMarked(q, marks[..]);
    }

    /** Follows the next arc, or unmarks the state so that the search goes back. */
    method FollowOrUnmark() returns (stage: Stage)
      requires Valid() && Stands(q, marks[..], stack, ptr, Follow, tracked, answered)
      modifies `ptr, `currPtr, `ipos, `opos, `outstring, `stack, flags, marks
      ensures Valid() && Stands(q, marks[..], stack, ptr, stage, tracked, answered)
      ensures Tame(q) ==> Left(q, n, stage, Offsets(stack), ptr) < old(Left(q, n, Follow, Offsets(stack), ptr))
    {
      hide WellFormed, PointsInto, Tracking, Stands, Tame, Left, OnState, Follows, FirstLine, MayFollow, AtMark,
           Stamped;
      ghost var was, stack0, ptr0, settings0 := marks[..], stack, ptr, flags.settings;
      Standing(q, n, was, stack, ptr, ipos, opos, outstring, flags.settings);
      NotFollowed(q, n, was, stack, ptr, ipos, opos, outstring, flags.settings, tracked, answered);
      var ok := FollowNextArc();
      if ok {
        ghost var f := stack[|stack| - 1];
        assert stack == stack0 + [f];
        FollowedNotTwice(q, was, Offsets(stack0), settings0, f.offset);
        PushedTo(q, stack0, f);
        Followed(q, n, was, stack0, ptr0, tracked, answered, f, ptr);
        stage := Arrive;
      } else {
        Failed(q, n, was, stack, ptr, tracked, answered);
        SetMark(0);
        stage := PopNext;
      }
    }

    /** Goes back one step: past the last line of a state its mark is removed, otherwise the next line is up. */
    method PopAndSkip() returns (stage: Stage)
      requires Valid() && stack != [] && Stands(q, marks[..], stack, ptr, PopNext, tracked, answered)
      modifies `stack, `ptr, `ipos, `opos, flags, marks
      ensures Valid() && Stands(q, marks[..], stack, ptr, stage, tracked, answered)
      ensures Tame(q) ==> Left(q, n, stage, Offsets(stack), ptr) < old(Left(q, n, PopNext, Offsets(stack), ptr))
    {
      hide WellFormed, PointsInto, Tracking, Stands, Tame, Left, OnState;
      ghost var was, rest, f, ptr0 := marks[..], stack[..|stack| - 1], stack[|stack| - 1], ptr;
      assert stack == rest + [f];
      Standing(q, n, was, stack, ptr, ipos, opos, outstring, flags.settings);
      Pop();
      Standing(q, n, was, stack, ptr, ipos, opos, outstring, flags.settings);
      var last := AtLastArc();
      if last {
        BackAtLast(q, n, was, rest, f, ptr0, tracked, answered);
        SetMark(0);
        stage := PopNext;
      } else {
        BackToNext(q, n, was, rest, f, ptr0, tracked, answered);
        ptr := ptr + 1;
        stage := Follow;
      }
    }

    /** If the state reached completes an answer, the string written so far. */
    method ReturnString() returns (answer: Option<string>)
      requires Valid() && Stands(q, marks[..], stack, ptr, Arrive, tracked, answered)
      modifies `answered
      ensures Valid() && Stands(q, marks[..], stack, ptr, Resume, tracked, answered)
      ensures Tame(q) ==> Left(q, n, Resume, Offsets(stack), ptr) < old(Left(q, n, Arrive, Offsets(stack), ptr))
      ensures answer.Some? <==> Answering(q, Offsets(stack))
      ensures answer.Some? ==> answer.value == OutAfter(q, Offsets(stack)) && Answer(q, answer.value)
                               && (tracked ==> Told(q, old(answered), Found(answer.value), answered))
      ensures answer.None? ==> answered == old(answered)
    {
      hide WellFormed, PointsInto, Tracking, Answer, Stands, Tame, Left, Told, OnState, Answering;
      Standing(q, n, marks[..], stack, ptr, ipos, opos, outstring, flags.settings);
      AnsweringHere(q, n, ptr, stack, ipos, opos, outstring, flags.settings);
      ghost var before, answers := answered, q.lines[ptr].final && ipos == |q.input|;
      Arrived(q, n, marks[..], stack, ptr, tracked, answered, answers);
      if q.lines[ptr].final && ipos == |q.input| {
        answered := answered + [Offsets(stack)];
        ToldFound(q, marks[..], stack, ptr, tracked, before, outstring[..opos]);
        return Some(outstring[..opos]);
      }
      answer := None;
    }

    /** Marks the state on arrival; the search turns to its lines. */
    method MarkArrival()
      requires Valid() && Stands(q, marks[..], stack, ptr, Resume, tracked, answered)
      modifies marks
      ensures Valid() && Stands(q, marks[..], stack, ptr, Follow, tracked, answered)
      ensures Tame(q) ==> Left(q, n, Follow, Offsets(stack), ptr) < old(Left(q, n, Resume, Offsets(stack), ptr))
    {
      hide WellFormed, PointsInto, Tracking, Stands, Tame, Left, OnState;
      ghost var was := marks[..];
      Standing(q, n, was, stack, ptr, ipos, opos, outstring, flags.settings);
      MarkState();
      Resumed(q, n, was, stack, ptr, tracked, answered, marks[..]);
    }

    /**
     The search itself: from the start, or resumed after an answer. Every answer is the output of a
     flag-legal accepting path that reads the whole input. No two answers are of one path, they come in
     the order of line numbers, and once the search is exhausted all such paths have been answered that
     never come back to a state without having read on; in a calm net these are all paths. `fuel` bounds
     the rounds of the search loop; in a tame net `Enough` of them are enough.
     */
    method ApplyNet(resume: bool, fuel: nat) returns (outcome: Outcome)
      requires Ready() && (!resume ==> NoMarks(marks[..]))
      modifies this, flags, marks
      ensures Valid() && (!outcome.Unfinished? ==> Ready())
      ensures outcome.Found? ==> Answer(q, outcome.answer)
      ensures ArclessAlone(q.lines) && (resume ==> old(tracked)) && !outcome.Unfinished? ==>
                Told(q, if resume then old(answered) else [], outcome, answered) && (outcome.Found? ==> tracked)
      ensures Tame(q) && fuel > Enough(q, n) ==> !outcome.Unfinished?
    {
      hide WellFormed, PointsInto, Tracking, Answer, Stands, Tame, Left, Enough, Told, NoMarks;
      var stage := Resume;
      if resume {
        LeftAtMost(q, n, Offsets(stack), ptr);
      } else {
        Reset();
        stage := Arrive;
        answered, tracked := [], ArclessAlone(q.lines);
        Begun(q, n, marks[..], tracked);
      }
      ghost var before, exact := answered, tracked;
      var rounds := fuel;
      while rounds > 0
        invariant Valid() && Stands(q, marks[..], stack, ptr, stage, tracked, answered)
        invariant answered == before && tracked == exact
        invariant Tame(q) && fuel > Enough(q, n) ==> rounds > Left(q, n, stage, Offsets(stack), ptr)
      {
        rounds := rounds - 1;
        match stage {
          case Arrive =>
            var answer := ReturnString();
            if answer.Some? {
              return Found(answer.value);
            }
            stage := Resume;
          case Resume =>
            MarkArrival();
            stage := Follow;
          case Follow =>
            stage := FollowOrUnmark();
          case PopNext =>
            if stack == [] {
              ToldExhausted(q, marks[..], ptr, tracked, before);
              tracked := false;
              return Exhausted;
            }
            stage := PopAndSkip();
        }
      }
      tracked := false;
      outcome := Unfinished;
    }

    /** One call of the lookup: a new search, on an empty stack and without marks, or the last one resumed. */
    method ApplyDown(resume: bool, fuel: nat) returns (outcome: Outcome)
      requires Ready()
      modifies this, flags, marks
      ensures Valid() && (!outcome.Unfinished? ==> Ready())
      ensures outcome.Found? ==> Answer(q, outcome.answer)
      ensures ArclessAlone(q.lines) && (resume ==> old(tracked)) && !outcome.Unfinished? ==>
                Told(q, if resume then old(answered) else [], outcome, answered) && (outcome.Found? ==> tracked)
      ensures Tame(q) && fuel > Enough(q, n) ==> !outcome.Unfinished?
    {
      hide WellFormed, PointsInto, Tracking, Answer, Stands, Tame, Enough, Told, NoMarks;
      if !(exists k :: 0 <= k < |q.lines| && q.lines[k].final) {
        ToldNothing(q, marks[..], stack, ptr, tracked, answered);
        answered, tracked := [], false;
        return Exhausted;
      }
      if !resume {
        ForceClearStack();
      }
      outcome := ApplyNet(resume, fuel);
    }
  }

  /** What the interface prints for a word: the first answer and at most `limit` more. */
  method IfaceApplyDown(ah: ApplyHandle, limit: nat, fuel: nat) returns (printed: seq<string>)
    requires ah.Ready()
    modifies ah, ah.flags, ah.marks
    ensures forall s :: s in printed ==> Answer(ah.q, s)
    ensures Calm(ah.q) && fuel > Enough(ah.q, ah.n) ==>
              && printed == Outputs(ah.q, ah.answered) && |printed| <= limit + 1
              && (if |printed| <= limit then Complete(ah.q, ah.answered)
                  else Listed(ah.q, ah.answered, ah.answered[limit] + [0]))
  {
    hide Answer, Calm, Tame, Enough, Told, Listed, Complete, Covered, ApplyHandle.Ready, ApplyHandle.Valid,
         ArclessAlone, PrintedSoFar;
    ghost var exact := Calm(ah.q) && fuel > Enough(ah.q, ah.n);
    CalmIsTame(ah.q);
    printed := [];
    var outcome := ah.ApplyDown(false, fuel);
    if exact {
      ToldMeans(ah.q, [], outcome, ah.answered);
    }
    if !outcome.Found? {
      return;
    }
    printed := [outcome.answer];
    assert Outputs(ah.q, []) + printed == printed;
    var i := limit;
    while i > 0
      invariant ah.Ready() && |printed| == limit - i + 1 && forall s :: s in printed ==> Answer(ah.q, s)
      invariant exact ==> ah.tracked && PrintedSoFar(ah.q, printed, ah.answered)
    {
      ghost var before := ah.answered;
      if exact {
        PrintedMeans(ah.q, printed, before);
      }
      outcome := ah.ApplyDown(true, fuel);
      if exact {
        ToldMeans(ah.q, before, outcome, ah.answered);
      }
      if !outcome.Found? {
        return;
      }
      printed := printed + [outcome.answer];
      i := i - 1;
    }
    if exact {
      PrintedMeans(ah.q, printed, ah.answered);
    }
  }

  /** What has been printed are the outputs of all answering paths up to the last one answered. */
  ghost predicate PrintedSoFar(q: Query, printed: seq<string>, answered: seq<seq<int>>) {
    printed == Outputs(q, answered) && answered != [] && Listed(q, answered, answered[|answered| - 1] + [0])
  }

  lemma ToldMeans(q: Query, before: seq<seq<int>>, outcome: Outcome, answered: seq<seq<int>>)
    requires Calm(q) && Told(q, before, outcome, answered)
    ensures outcome.Found? ==> PrintedSoFar(q, Outputs(q, before) + [outcome.answer], answered)
    ensures outcome.Exhausted? ==> answered == before && Complete(q, answered)
  {
    hide Listed, Complete, Covered, OutAfter, Calm;
    CalmCovers(q, answered);
    if outcome.Found? {
      assert forall i :: 0 <= i < |before| ==> answered[..|before|][i] == answered[i];
    }
  }

  lemma PrintedMeans(q: Query, printed: seq<string>, answered: seq<seq<int>>)
    requires PrintedSoFar(q, printed, answered)
    ensures printed == Outputs(q, answered) && |printed| == |answered| > 0
    ensures Listed(q, answered, answered[|printed| - 1] + [0])
  {
    hide Listed, OutAfter;
  }

  /** Without a final state there is no answering path. */
  lemma ToldNothing(q: Query, marks: seq<int>, stack: seq<Frame>, ptr: int, tracked: bool, answered: seq<seq<int>>)
    requires Stands(q, marks, stack, ptr, Resume, tracked, answered)
    requires forall k :: 0 <= k < |q.lines| ==> !q.lines[k].final
    ensures Told(q, [], Exhausted, []) && (tracked ==> answered == [])
    ensures Stands(q, marks, stack, ptr, Resume, false, [])
  {
    hide Sound, MarksOk, FramesMarked, ArclessAlone, FirstLine;
    forall p ensures !Answering(q, p) {
    }
    assert answered == [] || answered[0] in answered;
  }

  /** What a call tells: the next answer, after those `before`, or that there are no others. */
  ghost predicate Told(q: Query, before: seq<seq<int>>, outcome: Outcome, answered: seq<seq<int>>) {
    match outcome
    case Found(s) =>
      && |answered| == |before| + 1 && answered[..|before|] == before && OutAfter(q, answered[|before|]) == s
      && Listed(q, answered, answered[|before|] + [0])
    case Exhausted => answered == before && Covered(q, before)
    case Unfinished => false
  }

  lemma ToldFound(q: Query, marks: seq<int>, stack: seq<Frame>, ptr: int, tracked: bool, before: seq<seq<int>>,
                  s: string)
    requires Stands(q, marks, stack, ptr, Resume, tracked, before + [Offsets(stack)])
             && OutAfter(q, Offsets(stack)) == s
    ensures tracked ==> Told(q, before, Found(s), before + [Offsets(stack)])
  {
    hide MarksOk, FramesMarked, ArclessAlone, Listed, FirstLine;
    assert (before + [Offsets(stack)])[..|before|] == before;
  }

  lemma ToldExhausted(q: Query, marks: seq<int>, ptr: int, tracked: bool, before: seq<seq<int>>)
    requires Stands(q, marks, [], ptr, PopNext, tracked, before)
    ensures tracked ==> Told(q, before, Exhausted, before)
    ensures Stands(q, marks, [], ptr, Resume, false, before)
  {
    hide MarksOk, FramesMarked, ArclessAlone, Listed, FirstLine, Covered;
    if tracked {
      assert Offsets([]) + [|q.lines|] == [|q.lines|];
      ListedAll(q, before);
    }
  }

  /** The handle's fields are those of a sound path standing at the current line. */
  lemma Standing(q: Query, n: nat, marks: seq<int>, stack: seq<Frame>, ptr: int, ipos: nat, opos: nat,
                 outstring: string, settings: map<string, Setting>)
    requires q.Valid(n) && |marks| == n && Tracking(q, stack, ipos, opos, outstring, settings) && 0 <= ptr < |q.lines|
             && q.lines[ptr].state == StateAfter(q, Offsets(stack))
    ensures OnState(q, n, marks, stack, ptr) && ipos == PosAfter(q, Offsets(stack)) && Sound(q, Offsets(stack))
    ensures 0 <= StateAfter(q, Offsets(stack)) < n
  {
    hide WellFormed, StateAfter, PosAfter, OutAfter, SettingsAfter, Sound, FramesOk;
    StateRange(q, n, ptr);
  }

  lemma AnsweringHere(q: Query, n: nat, ptr: int, stack: seq<Frame>, ipos: nat, opos: nat, outstring: string,
                      settings: map<string, Setting>)
    requires q.Valid(n) && Tracking(q, stack, ipos, opos, outstring, settings) && 0 <= ptr < |q.lines|
             && q.lines[ptr].state == StateAfter(q, Offsets(stack))
    ensures Answering(q, Offsets(stack)) <==> q.lines[ptr].final && ipos == |q.input|
    ensures opos <= |outstring| && OutAfter(q, Offsets(stack)) == outstring[..opos]
    ensures q.lines[ptr].final && ipos == |q.input| ==> Answer(q, outstring[..opos])
  {
    hide StateAfter, PosAfter, OutAfter, SettingsAfter, Sound, FramesOk;
    var p := Offsets(stack);
    FinalLine(q, n, ptr);
    assert Answering(q, p) ==> Answer(q, OutAfter(q, p));
  }

  lemma FinalLine(q: Query, n: nat, ptr: int)
    requires q.Valid(n) && 0 <= ptr < |q.lines|
    ensures q.lines[ptr].final <==> q.lines[ptr].state in MachineOf(q.lines).finals
  {
    if q.lines[ptr].state in MachineOf(q.lines).finals {
      var l :| l in q.lines && l.final && l.state == q.lines[ptr].state;
      var k :| 0 <= k < |q.lines| && q.lines[k] == l;
      OneFlag(q, n, k, ptr);
    }
  }

  lemma OneFlag(q: Query, n: nat, k: int, h: int)
    requires q.Valid(n) && 0 <= k < |q.lines| && 0 <= h < |q.lines| && q.lines[k].state == q.lines[h].state
    ensures q.lines[k].final == q.lines[h].final
  {
  }

  /** No path stays simple with what `FollowNextArc` passes over. */
  lemma NotFollowed(q: Query, n: nat, marks: seq<int>, stack: seq<Frame>, ptr: int, ipos: nat, opos: nat,
                    outstring: string, settings: map<string, Setting>, tracked: bool, answered: seq<seq<int>>)
    requires q.Valid(n) && |marks| == n && Tracking(q, stack, ipos, opos, outstring, settings) && 0 <= ptr < |q.lines|
             && q.lines[ptr].state == StateAfter(q, Offsets(stack))
    requires Stands(q, marks, stack, ptr, Follow, tracked, answered)
    ensures tracked ==>
              forall k :: ptr <= k && MayFollow(q, Offsets(stack), k) && Simple(q, Offsets(stack) + [k]) ==>
                            SameState(q, ptr, k) && Follows(q, marks, ipos, settings, k)
  {
    hide Tracking, MayFollow, Listed, FramesMarked, MarksOk, Follows, Stamped, StateAfter, WellFormed, SameState,
         Simple, ArclessAlone;
    if tracked {
      forall k | ptr <= k && MayFollow(q, Offsets(stack), k) && Simple(q, Offsets(stack) + [k])
        ensures SameState(q, ptr, k) && Follows(q, marks, ipos, settings, k)
      {
        FollowsIfMay(q, n, marks, stack, ipos, opos, outstring, settings, k);
        MayFollowState(q, Offsets(stack), k);
        ArcsTogether(q, n, ptr, k);
      }
    }
  }

  /** The lines from one line of a state to an arc of it are all arcs of it. */
  lemma ArcsTogether(q: Query, n: nat, ptr: int, k: int)
    requires q.Valid(n) && ArclessAlone(q.lines) && 0 <= ptr <= k < |q.lines|
             && q.lines[ptr].state == q.lines[k].state && q.lines[k].target >= 0
    ensures SameState(q, ptr, k)
  {
    forall h | ptr <= h <= k ensures q.lines[h].state == q.lines[ptr].state && q.lines[h].upper != -1 {
      assert LineOk(q.lines[h], n);
    }
  }

  lemma PushedTo(q: Query, stack: seq<Frame>, f: Frame)
    requires 0 <= f.offset < |q.lines|
    ensures StateAfter(q, Offsets(stack + [f])) == q.lines[f.offset].target
  {
    OffsetsPush(stack, f);
    OneMoreArc(q, Offsets(stack), f.offset);
  }

  lemma MarksMore(q: Query, marks: seq<int>, p: seq<int>)
    requires MarksOk(q, marks, p, |p|)
    ensures MarksOk(q, marks, p, |p| + 1)
  {
    hide StateAfter, PosAfter, Stamp;
    forall s | 0 <= s < |marks| && marks[s] != 0 ensures exists i :: 0 <= i < |p| + 1 && Visit(q, p, i, s, marks[s]) {
      var i :| 0 <= i < |p| && Visit(q, p, i, s, marks[s]);
    }
  }

  lemma NowhereMarked(q: Query, marks: seq<int>)
    ensures MarksOk(q, marks, Offsets([]), 0) ==> NoMarks(marks)
  {
  }

  /** A search that goes on has less ahead than one that begins. */
  lemma LeftAtMost(q: Query, n: nat, p: seq<int>, ptr: int)
    ensures Left(q, n, Resume, p, ptr) <= Enough(q, n)
  {
    hide Depth, Whole;
    AheadLess(p + [0], |q.lines|, Depth(q, n));
  }
  lemma StateRange(q: Query, n: nat, k: int)
    requires q.Valid(n) && 0 <= k < |q.lines|
    ensures 0 <= q.lines[k].state < n
  {
    assert LineOk(q.lines[k], n);
  }


  lemma ClearedSettings(q: Query, settings: map<string, Setting>)
    requires settings.Keys == (set f | f in q.flagOf.Values :: f.name)
             && forall name :: name in settings ==> settings[name] == CLEARED
    ensures settings == Cleared(q)
  {
  }

  lemma NetNotEmpty(q: Query, n: nat)
    requires q.Valid(n)
    ensures |q.lines| > 0
  {
  }

  lemma LineRanges(q: Query, n: nat, k: int)
    requires q.Valid(n) && 0 <= k < |q.lines| && q.lines[k].upper != -1
    ensures 0 <= q.lines[k].state < n && 0 <= q.lines[k].target < n
  {
    assert LineOk(q.lines[k], n);
  }

  lemma TrackedParts(q: Query, stack: seq<Frame>, ipos: nat, opos: nat, outstring: string, settings: map<string,
                     Setting>)
    requires Tracking(q, stack, ipos, opos, outstring, settings)
    ensures settings == SettingsAfter(q, Offsets(stack)) && ipos == PosAfter(q, Offsets(stack)) && opos <= |outstring|
    ensures outstring[..opos] == OutAfter(q, Offsets(stack)) && Sound(q, Offsets(stack))
  {
  }

  lemma TargetLine(q: Query, n: nat, statemap: seq<StatePointer>, t: int)
    requires PointsInto(statemap, q.lines, n) && 0 <= t < n
    ensures |statemap| == n && 0 <= statemap[t].transitions < |q.lines| && q.lines[statemap[t].transitions].state == t
    ensures FirstLine(q, statemap[t].transitions)
  {
    assert PointsAt(statemap[t], q.lines, t);
  }
}
