/** Closures over 0:0 arcs: the arcs are gathered once per net, then each closure walks them with timestamps. */
module EpsilonClosures {
  import opened Automata
  import opened Counting
  import opened NetReading
  import opened SetNumbering
  import opened Subsets

  predicate EpsilonLine(l: Line, s: int, t: int) {
    l.state == s && l.target == t && t != -1 && t != s && l.upper == EPSILON && l.lower == EPSILON
  }

  /** `list` holds the targets of the 0:0 arcs of `s` on the first `i` lines, self loops aside. */
  ghost predicate ListsEpsilons(list: seq<int>, lines: seq<Line>, i: int, s: int)
    requires 0 <= i <= |lines|
  {
    && (forall x :: 0 <= x < |list| ==> EpsilonBefore(lines, i, s, list[x]))
    && (forall k :: 0 <= k < i && EpsilonLine(lines[k], s, lines[k].target) ==> lines[k].target in list)
  }

  ghost predicate EpsilonBefore(lines: seq<Line>, i: int, s: int, t: int)
    requires 0 <= i <= |lines|
  {
    exists k :: 0 <= k < i && EpsilonLine(lines[k], s, t)
  }

  ghost predicate NoLineFrom(lines: seq<Line>, i: int, s: int) {
    forall j :: 0 <= i <= j < |lines| ==> lines[j].state != s
  }

  /** What the gathering loop knows about state `s`: complete unless its targets are still on the stack. */
  ghost predicate Gathered(list: seq<int>, lines: seq<Line>, i: int, s: int, laststate: int, stack: seq<int>)
    requires 0 <= i <= |lines|
  {
    && (list != [] ==> NoLineFrom(lines, i, s))
    && (if s == laststate && stack != [] then list == [] && ListsEpsilons(stack, lines, i, s)
        else ListsEpsilons(list, lines, i, s))
  }

  lemma EpsilonsKept(list: seq<int>, lines: seq<Line>, i: int, s: int)
    requires 0 <= i < |lines| && ListsEpsilons(list, lines, i, s)
    requires EpsilonLine(lines[i], s, lines[i].target) ==> lines[i].target in list
    ensures ListsEpsilons(list, lines, i + 1, s)
  {
    forall x | 0 <= x < |list| ensures EpsilonBefore(lines, i + 1, s, list[x]) {
      assert EpsilonBefore(lines, i, s, list[x]);
      var k :| 0 <= k < i && EpsilonLine(lines[k], s, list[x]);
      assert 0 <= k < i + 1;
    }
  }

  lemma EpsilonAdded(list: seq<int>, lines: seq<Line>, i: int, s: int)
    requires 0 <= i < |lines| && ListsEpsilons(list, lines, i, s) && EpsilonLine(lines[i], s, lines[i].target)
    ensures ListsEpsilons(list + [lines[i].target], lines, i + 1, s)
  {
    var list' := list + [lines[i].target];
    forall x | 0 <= x < |list'| ensures EpsilonBefore(lines, i + 1, s, list'[x]) {
      if x < |list| {
        assert EpsilonBefore(lines, i, s, list[x]);
        var k :| 0 <= k < i && EpsilonLine(lines[k], s, list[x]);
        assert 0 <= k < i + 1;
      } else {
        assert EpsilonLine(lines[i], s, list'[x]);
      }
    }
  }

  /** Popping the stack yields its elements, top first. */
  function Reversed(s: seq<int>): (r: seq<int>)
    ensures |r| == |s| && forall i :: 0 <= i < |s| ==> r[i] == s[|s| - 1 - i]
  {
    if s == [] then [] else [s[|s| - 1]] + Reversed(s[..|s| - 1])
  }

  lemma ReversedLists(stack: seq<int>, lines: seq<Line>, i: int, s: int)
    requires 0 <= i <= |lines| && ListsEpsilons(stack, lines, i, s)
    ensures ListsEpsilons(Reversed(stack), lines, i, s)
  {
    var r := Reversed(stack);
    forall t | t in stack ensures t in r {
      var x :| 0 <= x < |stack| && stack[x] == t;
      assert r[|stack| - 1 - x] == t;
    }
  }

  /** Once another state's line comes, the gathered state is past. */
  lemma Past(lines: seq<Line>, n: nat, i: int, s: int, stack: seq<int>)
    requires WellFormed(lines, n) && 0 <= i <= |lines| && ListsEpsilons(stack, lines, i, s) && stack != []
    requires i < |lines| ==> lines[i].state != s
    ensures NoLineFrom(lines, i, s)
  {
    assert EpsilonBefore(lines, i, s, stack[0]);
    var k :| 0 <= k < i && EpsilonLine(lines[k], s, stack[0]);
    forall j | i <= j < |lines| ensures lines[j].state != s {
      assert lines[k].state == s;
    }
  }

  /** The stack is emptied into the memo when the state changes. */
  lemma Flushed(list: seq<int>, lines: seq<Line>, n: nat, i: int, s: int, laststate: int, stack: seq<int>)
    requires WellFormed(lines, n) && 0 <= i <= |lines| && Gathered(list, lines, i, s, laststate, stack)
    requires i < |lines| ==> lines[i].state != laststate
    ensures Gathered(if s == laststate && stack != [] then Reversed(stack) else list, lines, i, s, laststate, [])
  {
    if s == laststate && stack != [] {
      ReversedLists(stack, lines, i, s);
      Past(lines, n, i, s, stack);
    }
  }

  /** A line without a new 0:0 arc. */
  lemma GatheredSame(list: seq<int>, lines: seq<Line>, i: int, s: int, laststate: int, stack: seq<int>, last': int)
    requires 0 <= i < |lines| && Gathered(list, lines, i, s, laststate, stack)
    requires last' == laststate || (last' == lines[i].state && stack == [])
    requires EpsilonLine(lines[i], lines[i].state, lines[i].target) ==>
               EpsilonBefore(lines, i, lines[i].state, lines[i].target)
    ensures Gathered(list, lines, i + 1, s, last', stack)
  {
    var current := if s == laststate && stack != [] then stack else list;
    if EpsilonLine(lines[i], s, lines[i].target) {
      var k :| 0 <= k < i && EpsilonLine(lines[k], s, lines[i].target);
      assert lines[k].target in current;
    }
    EpsilonsKept(current, lines, i, s);
  }

  /** A line with a new 0:0 arc, pushed. */
  lemma GatheredPush(list: seq<int>, lines: seq<Line>, i: int, s: int, laststate: int, stack: seq<int>)
    requires 0 <= i < |lines| && Gathered(list, lines, i, s, laststate, stack)
    requires EpsilonLine(lines[i], lines[i].state, lines[i].target)
    requires lines[i].state != laststate ==> stack == []
    ensures Gathered(list, lines, i + 1, s, lines[i].state, stack + [lines[i].target])
  {
    if s == lines[i].state {
      assert list == [];
      if stack == [] {
        assert ListsEpsilons([], lines, i, s);
      }
      EpsilonAdded(stack, lines, i, s);
    } else {
      EpsilonsKept(list, lines, i, s);
    }
  }

  /** The targets of all 0:0 arcs that lead to another state, by state. */
  ghost predicate MemoOk(memo: seq<seq<int>>, m: Machine<int>, n: nat) {
    && |memo| == n
    && (forall s, x :: 0 <= s < n && 0 <= x < |memo[s]| ==> 0 <= memo[s][x] < n && memo[s][x] != s)
    && (forall s, x :: 0 <= s < n && 0 <= x < |memo[s]| ==> Arc(s, EPSILON_PAIR, memo[s][x]) in m.arcs)
    && (forall s, t :: 0 <= s < n && s != t && Arc(s, EPSILON_PAIR, t) in m.arcs ==> t in memo[s])
  }

  lemma GatheredAll(memo: seq<seq<int>>, lines: seq<Line>, n: nat, laststate: int)
    requires WellFormed(lines, n) && |memo| == n
    requires forall s :: 0 <= s < n ==> Gathered(memo[s], lines, |lines|, s, laststate, [])
    ensures MemoOk(memo, MachineOf(lines), n)
  {
    forall s, x | 0 <= s < n && 0 <= x < |memo[s]|
      ensures 0 <= memo[s][x] < n && memo[s][x] != s && Arc(s, EPSILON_PAIR, memo[s][x]) in MachineOf(lines).arcs
    {
      assert Gathered(memo[s], lines, |lines|, s, laststate, []);
      assert EpsilonBefore(lines, |lines|, s, memo[s][x]);
      var k :| 0 <= k < |lines| && EpsilonLine(lines[k], s, memo[s][x]);
      assert LineOk(lines[k], n);
      LineIsArc(lines, k);
    }
    forall s, t | 0 <= s < n && s != t && Arc(s, EPSILON_PAIR, t) in MachineOf(lines).arcs ensures t in memo[s] {
      assert Gathered(memo[s], lines, |lines|, s, laststate, []);
      var k := ArcLine(lines, Arc(s, EPSILON_PAIR, t));
      assert lines[k].ToLabel() == EPSILON_PAIR;
      assert EpsilonLine(lines[k], s, lines[k].target);
    }
  }

  /** What the table against redundant arcs records. */
  ghost predicate RedundantOk(redcheck: seq<int>, lines: seq<Line>, i: int)
    requires 0 <= i <= |lines|
  {
    forall t :: 0 <= t < |redcheck| && redcheck[t] != -1 ==> EpsilonBefore(lines, i, redcheck[t], t)
  }

  lemma RedundantKept(redcheck: seq<int>, lines: seq<Line>, i: int)
    requires 0 <= i < |lines| && RedundantOk(redcheck, lines, i)
    ensures RedundantOk(redcheck, lines, i + 1)
    ensures EpsilonLine(lines[i], lines[i].state, lines[i].target) && 0 <= lines[i].target < |redcheck| ==>
              RedundantOk(redcheck[lines[i].target := lines[i].state], lines, i + 1)
  {
    forall t | 0 <= t < |redcheck| && redcheck[t] != -1 ensures EpsilonBefore(lines, i + 1, redcheck[t], t) {
      assert EpsilonBefore(lines, i, redcheck[t], t);
      var k :| 0 <= k < i && EpsilonLine(lines[k], redcheck[t], t);
      assert 0 <= k < i + 1;
    }
  }

  ghost predicate AllGathered(memo: seq<seq<int>>, lines: seq<Line>, n: nat, i: int, laststate: int, stack: seq<int>)
    requires 0 <= i <= |lines|
  {
    && |memo| == n && (stack != [] ==> 0 <= laststate < n)
    && forall s :: 0 <= s < n ==> Gathered(memo[s], lines, i, s, laststate, stack)
  }

  lemma FlushAll(memo: seq<seq<int>>, lines: seq<Line>, n: nat, i: int, laststate: int, stack: seq<int>)
    requires WellFormed(lines, n) && 0 <= i <= |lines| && AllGathered(memo, lines, n, i, laststate, stack)
    requires i < |lines| ==> lines[i].state != laststate
    ensures AllGathered(if stack == [] then memo else memo[laststate := Reversed(stack)], lines, n, i, laststate, [])
  {
    hide Gathered, WellFormed, Reversed;
    var memo' := if stack == [] then memo else memo[laststate := Reversed(stack)];
    forall s | 0 <= s < n ensures Gathered(memo'[s], lines, i, s, laststate, []) {
      assert memo'[s] == if s == laststate && stack != [] then Reversed(stack) else memo[s];
      Flushed(memo[s], lines, n, i, s, laststate, stack);
    }
  }

  lemma SameAll(memo: seq<seq<int>>, lines: seq<Line>, n: nat, i: int, laststate: int, stack: seq<int>, last': int)
    requires 0 <= i < |lines| && AllGathered(memo, lines, n, i, laststate, stack)
    requires last' == laststate || (last' == lines[i].state && stack == [])
    requires EpsilonLine(lines[i], lines[i].state, lines[i].target) ==>
               EpsilonBefore(lines, i, lines[i].state, lines[i].target)
    ensures AllGathered(memo, lines, n, i + 1, last', stack)
  {
    hide Gathered;
    forall s | 0 <= s < n {
      GatheredSame(memo[s], lines, i, s, laststate, stack, last');
    }
  }

  lemma PushAll(memo: seq<seq<int>>, lines: seq<Line>, n: nat, i: int, laststate: int, stack: seq<int>)
    requires 0 <= i < |lines| && AllGathered(memo, lines, n, i, laststate, stack)
    requires EpsilonLine(lines[i], lines[i].state, lines[i].target) && 0 <= lines[i].state < n
    requires lines[i].state != laststate ==> stack == []
    ensures AllGathered(memo, lines, n, i + 1, lines[i].state, stack + [lines[i].target])
  {
    hide Gathered;
    forall s | 0 <= s < n {
      GatheredPush(memo[s], lines, i, s, laststate, stack);
    }
  }

  /** The 0:0 arcs of every state, and whether there are none that matter. */
  method MemoizeClosure(lines: seq<Line>, n: nat) returns (memo: seq<seq<int>>, deterministic: bool)
    requires WellFormed(lines, n)
    ensures MemoOk(memo, MachineOf(lines), n)
  {
    hide Gathered, WellFormed, AllGathered, MemoOk, RedundantOk;
    var redcheck := new int[n](_ => -1);
    memo := seq(n, _ => []);
    deterministic := true;
    var laststate, stack := -1, [];
    NoneGathered(lines, n);
    NoneRedundant(redcheck[..], lines);
    var i := 0;
    while true
      invariant 0 <= i <= |lines| && AllGathered(memo, lines, n, i, laststate, stack)
      invariant RedundantOk(redcheck[..], lines, i)
      decreases |lines| - i
    {
      var state := if i < |lines| then lines[i].state else -1;
      LineRange(lines, n, i);
      if state != laststate {
        FlushAll(memo, lines, n, i, laststate, stack);
        if stack != [] {
          StackOwner(memo, lines, n, i, laststate, stack);
          deterministic := false;
          memo := memo[laststate := Reversed(stack)];
          stack := [];
        }
      }
      if state == -1 {
        break;
      }
      RedundantKept(redcheck[..], lines, i);
      if lines[i].target != -1 && lines[i].upper == EPSILON && lines[i].lower == EPSILON {
        if redcheck[lines[i].target] != state && lines[i].target != state {
          PushAll(memo, lines, n, i, laststate, stack);
          stack := stack + [lines[i].target];
          redcheck[lines[i].target] := state;
        } else {
          RedundantMeans(redcheck[..], lines, n, i, lines[i].target);
          SameAll(memo, lines, n, i, laststate, stack, state);
        }
        laststate := state;
      } else {
        SameAll(memo, lines, n, i, laststate, stack, laststate);
      }
      i := i + 1;
    }
    GatheredMemo(memo, lines, n, i, laststate, stack);
  }

  lemma NoneGathered(lines: seq<Line>, n: nat)
    ensures AllGathered(seq(n, _ => []), lines, n, 0, -1, [])
  {
  }

  lemma NoneRedundant(redcheck: seq<int>, lines: seq<Line>)
    requires forall t :: 0 <= t < |redcheck| ==> redcheck[t] == -1
    ensures RedundantOk(redcheck, lines, 0)
  {
  }

  lemma LineRange(lines: seq<Line>, n: nat, i: int)
    requires WellFormed(lines, n) && 0 <= i
    ensures i < |lines| ==> 0 <= lines[i].state < n && -1 <= lines[i].target < n
  {
    assert i < |lines| ==> LineOk(lines[i], n);
  }

  lemma StackOwner(memo: seq<seq<int>>, lines: seq<Line>, n: nat, i: int, laststate: int, stack: seq<int>)
    requires 0 <= i <= |lines| && AllGathered(memo, lines, n, i, laststate, stack) && stack != []
    ensures 0 <= laststate < n == |memo|
  {
  }

  lemma RedundantMeans(redcheck: seq<int>, lines: seq<Line>, n: nat, i: int, t: int)
    requires 0 <= i < |lines| && RedundantOk(redcheck, lines, i) && 0 <= t < |redcheck| && 0 <= lines[i].state
             && lines[i].target == t
    ensures redcheck[t] == lines[i].state ==> EpsilonBefore(lines, i, lines[i].state, t)
  {
  }

  lemma GatheredMemo(memo: seq<seq<int>>, lines: seq<Line>, n: nat, i: int, laststate: int, stack: seq<int>)
    requires WellFormed(lines, n) && 0 <= i <= |lines| && AllGathered(memo, lines, n, i, laststate, stack)
    requires i == |lines| && (laststate != -1 ==> stack == [])
    ensures MemoOk(memo, MachineOf(lines), n)
  {
    assert stack == [];
    GatheredAll(memo, lines, n, laststate);
  }

  // ----- Walking the arcs -----

  /** The states that carry the stamp. */
  ghost function StampSet(stamps: seq<int>, stamp: int): (r: set<int>)
    ensures forall x :: x in r <==> 0 <= x < |stamps| && stamps[x] == stamp
  {
    set x | 0 <= x < |stamps| && stamps[x] == stamp
  }

  lemma StampOne(stamps: seq<int>, stamp: int, x: int)
    requires 0 <= x < |stamps|
    ensures StampSet(stamps[x := stamp], stamp) == StampSet(stamps, stamp) + {x}
    ensures StampSet(stamps, stamp) <= Indices(|stamps|)
  {
  }

  ghost predicate TargetsMarked(targets: seq<int>, j: int, marked: set<int>) {
    forall y :: 0 <= y < j && y < |targets| ==> targets[y] in marked
  }

  ghost predicate AllReached(m: Machine<int>, n: nat, seeds: set<int>, list: seq<int>) {
    forall x :: x in list ==> 0 <= x < n && AnyReads(m, seeds, [], x)
  }

  ghost predicate MarksKnown(marked: set<int>, processed: set<int>, stack: seq<int>) {
    forall x :: x in marked ==> x in processed || x in stack
  }

  ghost predicate Handled(memo: seq<seq<int>>, list: seq<int>, processed: set<int>, stack: seq<int>, todo: seq<int>) {
    forall x :: x in list ==> x in processed || (0 <= x < |memo| && memo[x] == []) || x in stack || x in todo
  }

  /** Every processed state is listed and its targets are marked; of `cur`, only those before index `j`. */
  ghost predicate FollowedAll(memo: seq<seq<int>>, list: seq<int>, processed: set<int>, marked: set<int>, cur: int,
                              j: int) {
    forall x :: x in processed ==> x in list && 0 <= x < |memo|
                                   && TargetsMarked(memo[x], if x == cur then j else |memo[x]|, marked)
  }

  /**
   A closure in progress. `list` is the set so far, `processed` its states whose arcs have been
   followed, `marked` those that need not be pushed again, and the seeds in `todo` are still to
   be looked at. The arcs of `cur` are being followed, or `cur` is -1.
   */
  ghost predicate Closing(memo: seq<seq<int>>, m: Machine<int>, n: nat, seeds: set<int>, list: seq<int>,
                          processed: set<int>,
                          marked: set<int>, stack: seq<int>, todo: seq<int>, cur: int, j: int) {
    && |memo| == n && Distinct(list) && AllReached(m, n, seeds, list) && AllReached(m, n, seeds, stack)
    && FollowedAll(memo, list, processed, marked, cur, j) && MarksKnown(marked, processed, stack)
    && Handled(memo, list, processed, stack, todo)
  }

  lemma Started(memo: seq<seq<int>>, m: Machine<int>, n: nat, list: seq<int>)
    requires |memo| == n && Distinct(list) && Within(list, n)
    ensures Closing(memo, m, n, Elements(list), list, {}, {}, [], list, -1, 0)
  {
    forall x | x in list ensures 0 <= x < n && AnyReads(m, Elements(list), [], x) {
      Stay(m, x);
      assert x in Elements(list);
      var i :| 0 <= i < |list| && list[i] == x;
    }
  }

  lemma SeedPushed(memo: seq<seq<int>>, m: Machine<int>, n: nat, seeds: set<int>, list: seq<int>, processed: set<int>,
                   marked: set<int>, todo: seq<int>)
    requires Closing(memo, m, n, seeds, list, processed, marked, [], todo, -1, 0) && todo != [] && todo[0] in list
    ensures 0 <= todo[0] < n
    ensures Closing(memo, m, n, seeds, list, processed, marked, if memo[todo[0]] == [] then [] else [todo[0]],
                    todo[1..], -1, 0)
  {
    assert todo == [todo[0]] + todo[1..];
  }

  lemma TopAndRest(stack: seq<int>)
    requires stack != []
    ensures stack[|stack| - 1] in stack
    ensures forall x :: x in stack ==> x in stack[..|stack| - 1] || x == stack[|stack| - 1]
    ensures forall x :: x in stack[..|stack| - 1] ==> x in stack
  {
    assert stack == stack[..|stack| - 1] + [stack[|stack| - 1]];
  }

  lemma PoppedAgain(memo: seq<seq<int>>, m: Machine<int>, n: nat, seeds: set<int>, list: seq<int>, processed: set<int>,
                    marked: set<int>, stack: seq<int>, todo: seq<int>)
    requires Closing(memo, m, n, seeds, list, processed, marked, stack, todo, -1, 0) && stack != []
    ensures 0 <= stack[|stack| - 1] < n
    ensures stack[|stack| - 1] in processed ==> Closing(memo, m, n, seeds, list, processed, marked,
                                                        stack[..|stack| - 1], todo, -1, 0)
  {
    TopAndRest(stack);
  }

  lemma PoppedFirst(memo: seq<seq<int>>, m: Machine<int>, n: nat, seeds: set<int>, list: seq<int>, processed: set<int>,
                    marked: set<int>,
                    stack: seq<int>, todo: seq<int>, list': seq<int>, cur: int)
    requires Closing(memo, m, n, seeds, list, processed, marked, stack, todo, -1, 0) && stack != []
    requires cur == stack[|stack| - 1] && cur !in processed && list' == if cur in list then list else list + [cur]
    ensures Closing(memo, m, n, seeds, list', processed + {cur}, marked + {cur}, stack[..|stack| - 1], todo, cur, 0)
  {
    TopAndRest(stack);
    RestReached(m, n, seeds, stack);
    PoppedFollowed(memo, m, n, seeds, list, processed, marked, stack, list', cur);
    PoppedHandled(memo, list, processed, marked, stack, todo, list', cur);
  }

  lemma RestReached(m: Machine<int>, n: nat, seeds: set<int>, stack: seq<int>)
    requires AllReached(m, n, seeds, stack) && stack != []
    ensures AllReached(m, n, seeds, stack[..|stack| - 1])
  {
    hide AnyReads;
    var rest := stack[..|stack| - 1];
    forall x | x in rest ensures 0 <= x < n && AnyReads(m, seeds, [], x) {
      var i :| 0 <= i < |rest| && rest[i] == x;
      assert x == stack[i] && stack[i] in stack;
    }
  }

  lemma PoppedFollowed(memo: seq<seq<int>>, m: Machine<int>, n: nat, seeds: set<int>, list: seq<int>,
                       processed: set<int>, marked: set<int>,
                       stack: seq<int>, list': seq<int>, cur: int)
    requires cur in stack && |memo| == n && Distinct(list) && AllReached(m, n, seeds, list)
             && AllReached(m, n, seeds, stack)
    requires FollowedAll(memo, list, processed, marked, -1, 0)
    requires cur !in processed && list' == if cur in list then list else list + [cur]
    ensures Distinct(list') && AllReached(m, n, seeds, list')
    ensures FollowedAll(memo, list', processed + {cur}, marked + {cur}, cur, 0)
  {
    hide AnyReads;
  }

  lemma PoppedHandled(memo: seq<seq<int>>, list: seq<int>, processed: set<int>, marked: set<int>, stack: seq<int>,
                      todo: seq<int>, list': seq<int>, cur: int)
    requires stack != [] && cur == stack[|stack| - 1] && list' == if cur in list then list else list + [cur]
    requires MarksKnown(marked, processed, stack) && Handled(memo, list, processed, stack, todo)
    ensures MarksKnown(marked + {cur}, processed + {cur}, stack[..|stack| - 1])
    ensures Handled(memo, list', processed + {cur}, stack[..|stack| - 1], todo)
  {
    TopAndRest(stack);
  }

  lemma TargetKnown(memo: seq<seq<int>>, m: Machine<int>, n: nat, seeds: set<int>, list: seq<int>, processed: set<int>,
                    marked: set<int>, stack: seq<int>, todo: seq<int>, cur: int, j: int)
    requires Closing(memo, m, n, seeds, list, processed, marked, stack, todo, cur, j) && cur in processed
    requires 0 <= cur < n && 0 <= j < |memo[cur]| && MemoOk(memo, m, n)
    ensures 0 <= memo[cur][j] < n
    ensures var t := memo[cur][j];
            if t in marked then Closing(memo, m, n, seeds, list, processed, marked, stack, todo, cur, j + 1)
            else Closing(memo, m, n, seeds, list, processed, marked + {t}, stack + [t], todo, cur, j + 1)
  {
    hide AnyReads;
    ReachTarget(m, seeds, cur, memo[cur][j]);
  }

  lemma ReachTarget(m: Machine<int>, seeds: set<int>, p: int, t: int)
    requires AnyReads(m, seeds, [], p) && Arc(p, EPSILON_PAIR, t) in m.arcs
    ensures AnyReads(m, seeds, [], t)
  {
    OneArc(m, p, EPSILON_PAIR, t);
    var s :| s in seeds && ErasedReads(m, s, [], p);
    SilentThen(m, s, p, [], t);
  }

  lemma Followed(memo: seq<seq<int>>, m: Machine<int>, n: nat, seeds: set<int>, list: seq<int>, processed: set<int>,
                 marked: set<int>, stack: seq<int>, todo: seq<int>, cur: int)
    requires 0 <= cur < |memo|
    requires Closing(memo, m, n, seeds, list, processed, marked, stack, todo, cur, |memo[cur]|)
    ensures Closing(memo, m, n, seeds, list, processed, marked, stack, todo, -1, 0)
  {
    hide AnyReads;
  }

  /** When nothing is left to do, the list is the closure. */
  lemma ClosingDone(memo: seq<seq<int>>, m: Machine<int>, n: nat, seeds: set<int>, list: seq<int>, processed: set<int>,
                    marked: set<int>)
    requires Closing(memo, m, n, seeds, list, processed, marked, [], [], -1, 0) && MemoOk(memo, m, n) && InRange(m, n)
    requires forall x :: x in seeds ==> x in list
    ensures Elements(list) == Closure(m, n, seeds) && Within(list, n)
  {
    hide AnyReads;
    forall i | 0 <= i < |list| ensures 0 <= list[i] < n {
      assert list[i] in list;
    }
    forall p, q | p in Elements(list) && Arc(p, EPSILON_PAIR, q) in m.arcs ensures q in Elements(list) {
      if p != q {
        assert p in list && q in memo[p];
        var y :| 0 <= y < |memo[p]| && memo[p][y] == q;
        assert memo[p][y] in marked;
      }
    }
    forall x | x in seeds ensures x in Elements(list) {
      assert x in list;
    }
    forall p | p in Elements(list) ensures 0 <= p < n && AnyReads(m, seeds, [], p) {
      assert p in list;
    }
    ClosureLeast(m, n, seeds, Elements(list));
  }

  /** What the timestamp tables say during a closure, as sets. */
  ghost predicate Tables(eTable: seq<int>, marks: seq<int>, markTable: seq<int>, n: nat, stamp: int, list: seq<int>,
                         processed: set<int>, marked: set<int>) {
    && |eTable| == |marks| == |markTable| == n
    && StampedAs(eTable, stamp, list)
    && processed == StampSet(markTable, stamp) && marked == StampSet(marks, stamp)
  }

  ghost predicate NotYet(stamps: seq<int>, stamp: int) {
    forall x :: 0 <= x < |stamps| ==> stamps[x] < stamp
  }

  ghost predicate AtMost(stamps: seq<int>, stamp: int) {
    forall x :: 0 <= x < |stamps| ==> stamps[x] <= stamp
  }

  lemma NoneStamped(stamps: seq<int>, stamp: int)
    requires NotYet(stamps, stamp)
    ensures StampSet(stamps, stamp) == {} && AtMost(stamps, stamp)
  {
  }

  /** Pushes the targets of `cur` that carry no mark yet. */
  method PushTargets(memo: seq<seq<int>>, marks: array<int>, stack: seq<int>, cur: int, stamp: int,
                     ghost m: Machine<int>, ghost n: nat,
                     ghost seeds: set<int>, ghost list: seq<int>, ghost processed: set<int>, ghost todo: seq<int>)
    returns (stack': seq<int>)
    requires marks.Length == n && 0 <= cur < n && cur in processed && MemoOk(memo, m, n) && AtMost(marks[..], stamp)
    requires Closing(memo, m, n, seeds, list, processed, StampSet(marks[..], stamp), stack, todo, cur, 0)
    modifies marks
    ensures Closing(memo, m, n, seeds, list, processed, StampSet(marks[..], stamp), stack', todo, -1, 0)
    ensures AtMost(marks[..], stamp)
  {
    hide Closing, MemoOk, StampSet;
    stack' := stack;
    MemoSize(memo, m, n);
    var j := 0;
    while j < |memo[cur]|
      invariant 0 <= j <= |memo[cur]| && AtMost(marks[..], stamp)
      invariant Closing(memo, m, n, seeds, list, processed, StampSet(marks[..], stamp), stack', todo, cur, j)
    {
      TargetKnown(memo, m, n, seeds, list, processed, StampSet(marks[..], stamp), stack', todo, cur, j);
      var t := memo[cur][j];
      if marks[t] != stamp {
        ghost var before := marks[..];
        StampOne(before, stamp, t);
        marks[t] := stamp;
        assert marks[..] == before[t := stamp];
        stack' := stack' + [t];
      }
      j := j + 1;
    }
    Followed(memo, m, n, seeds, list, processed, StampSet(marks[..], stamp), stack', todo, cur);
  }

  lemma MemoSize(memo: seq<seq<int>>, m: Machine<int>, n: nat)
    requires MemoOk(memo, m, n)
    ensures |memo| == n
  {
  }

  lemma DistinctBound(list: seq<int>, n: nat)
    requires Distinct(list) && Within(list, n)
    ensures |list| <= n
  {
    ElementsSize(list);
    IndicesSize(n);
    forall x | x in Elements(list) ensures x in Indices(n) {
      var i :| 0 <= i < |list| && list[i] == x;
    }
    SubsetSize(Elements(list), Indices(n));
  }

  /** A state that is not listed yet leaves room for itself. */
  lemma RoomFor(m: Machine<int>, n: nat, seeds: set<int>, list: seq<int>, cur: int)
    requires Distinct(list) && AllReached(m, n, seeds, list) && 0 <= cur < n && cur !in list
    ensures |list| < n
  {
    hide AnyReads;
    forall i | 0 <= i < |list + [cur]| ensures 0 <= (list + [cur])[i] < n {
      assert i < |list| ==> list[i] in list;
    }
    DistinctBound(list + [cur], n);
  }

  /** Lists `cur` unless it is listed already. */
  method ListState(eTable: array<int>, tempMove: array<int>, size: nat, cur: int, stamp: int, ghost m: Machine<int>,
                   ghost n: nat, ghost seeds: set<int>)
    returns (size': nat)
    requires eTable != tempMove && eTable.Length == n < tempMove.Length && size <= n && 0 <= cur < n
    requires StampedAs(eTable[..], stamp, tempMove[..size]) && Distinct(tempMove[..size])
             && AllReached(m, n, seeds, tempMove[..size])
    modifies eTable, tempMove
    ensures size <= size' <= n && StampedAs(eTable[..], stamp, tempMove[..size'])
    ensures tempMove[..size'] ==
            if cur in old(tempMove[..size]) then old(tempMove[..size]) else old(tempMove[..size]) + [cur]
    ensures forall x :: 0 <= x < n ==> eTable[x] == stamp || eTable[x] == old(eTable[x])
  {
    size' := size;
    ghost var list := tempMove[..size];
    if eTable[cur] != stamp {
      RoomFor(m, n, seeds, list, cur);
      ghost var before := eTable[..];
      tempMove[size] := cur;
      eTable[cur] := stamp;
      assert eTable[..] == before[cur := stamp];
      size' := size + 1;
      assert tempMove[..size'] == list + [cur];
      StampMore(before, stamp, list, cur);
    } else {
      assert eTable[..][cur] == stamp;
    }
  }

  lemma StampMore(stamps: seq<int>, stamp: int, list: seq<int>, cur: int)
    requires StampedAs(stamps, stamp, list) && 0 <= cur < |stamps| && stamps[cur] != stamp
    ensures StampedAs(stamps[cur := stamp], stamp, list + [cur])
    ensures cur !in list
  {
  }

  /** Pops one state off the pointer stack and follows its arcs, unless that has been done. */
  method PopState(memo: seq<seq<int>>, marks: array<int>, markTable: array<int>, eTable: array<int>,
                  tempMove: array<int>,
                  size: nat, stack: seq<int>, stamp: int, ghost m: Machine<int>, ghost n: nat, ghost seeds: set<int>,
                  ghost todo: seq<int>)
    returns (size': nat, stack': seq<int>)
    requires Apart(marks, markTable, eTable, tempMove, n) && size <= n && stack != [] && MemoOk(memo, m, n)
    requires Tables(eTable[..], marks[..], markTable[..], n, stamp, tempMove[..size], StampSet(markTable[..], stamp),
                    StampSet(marks[..], stamp))
    requires Closing(memo, m, n, seeds, tempMove[..size], StampSet(markTable[..], stamp), StampSet(marks[..], stamp),
                     stack, todo, -1, 0)
    requires AtMost(marks[..], stamp) && AtMost(markTable[..], stamp)
    modifies marks, markTable, eTable, tempMove
    ensures size <= size' <= n && old(tempMove[..size]) <= tempMove[..size']
    ensures Tables(eTable[..], marks[..], markTable[..], n, stamp, tempMove[..size'], StampSet(markTable[..], stamp),
                   StampSet(marks[..], stamp))
    ensures Closing(memo, m, n, seeds, tempMove[..size'], StampSet(markTable[..], stamp), StampSet(marks[..], stamp),
                    stack', todo, -1, 0)
    ensures AtMost(marks[..], stamp) && AtMost(markTable[..], stamp)
    ensures forall x :: 0 <= x < n ==> eTable[x] == stamp || eTable[x] == old(eTable[x])
    ensures old(StampSet(markTable[..], stamp)) < StampSet(markTable[..], stamp) <= Indices(n)
            || (StampSet(markTable[..], stamp) == old(StampSet(markTable[..], stamp)) && |stack'| < |stack|)
  {
    hide Closing, MemoOk, StampSet, StampedAs;
    var cur := stack[|stack| - 1];
    stack', size' := stack[..|stack| - 1], size;
    ghost var list, processed, marked := tempMove[..size], StampSet(markTable[..], stamp), StampSet(marks[..], stamp);
    PoppedAgain(memo, m, n, seeds, list, processed, marked, stack, todo);
    StampKnown(markTable[..], stamp, cur);
    if markTable[cur] == stamp {
      return;
    }
    ClosingParts(memo, m, n, seeds, list, processed, marked, stack, todo);
    MarkState(marks, cur, stamp);
    MarkState(markTable, cur, stamp);
    size' := ListState(eTable, tempMove, size, cur, stamp, m, n, seeds);
    PoppedFirst(memo, m, n, seeds, list, processed, marked, stack, todo, tempMove[..size'], cur);
    stack' := PushTargets(memo, marks, stack', cur, stamp, m, n, seeds, tempMove[..size'],
                          StampSet(markTable[..], stamp), todo);
  }

  ghost predicate Apart(marks: array<int>, markTable: array<int>, eTable: array<int>, tempMove: array<int>, n: nat) {
    && marks != markTable && marks != eTable && marks != tempMove && markTable != eTable && markTable != tempMove
       && eTable != tempMove
    && marks.Length == markTable.Length == eTable.Length == n && tempMove.Length == n + 1
  }

  lemma StampKnown(stamps: seq<int>, stamp: int, x: int)
    requires 0 <= x < |stamps|
    ensures stamps[x] == stamp <==> x in StampSet(stamps, stamp)
  {
  }

  lemma ClosingParts(memo: seq<seq<int>>, m: Machine<int>, n: nat, seeds: set<int>, list: seq<int>, processed: set<int>,
                     marked: set<int>, stack: seq<int>, todo: seq<int>)
    requires Closing(memo, m, n, seeds, list, processed, marked, stack, todo, -1, 0)
    ensures Distinct(list) && AllReached(m, n, seeds, list)
  {
  }

  method MarkState(marks: array<int>, x: int, stamp: int)
    requires 0 <= x < marks.Length && AtMost(marks[..], stamp)
    modifies marks
    ensures StampSet(marks[..], stamp) == old(StampSet(marks[..], stamp)) + {x} <= Indices(marks.Length)
            && AtMost(marks[..], stamp)
  {
    ghost var before := marks[..];
    StampOne(before, stamp, x);
    marks[x] := stamp;
    assert marks[..] == before[x := stamp];
    StampOne(marks[..], stamp, x);
  }

  /** The first `states` cells of `tempMove` are extended to their closure over 0:0 arcs. */
  method EClosure(memo: seq<seq<int>>, marks: array<int>, markTable: array<int>, eTable: array<int>,
                  tempMove: array<int>,
                  states: nat, stamp: int, ghost m: Machine<int>, ghost n: nat) returns (size: nat)
    requires Apart(marks, markTable, eTable, tempMove, n) && states <= n && MemoOk(memo, m, n) && InRange(m, n)
    requires StampedAs(eTable[..], stamp, tempMove[..states]) && Distinct(tempMove[..states])
    requires NotYet(marks[..], stamp) && NotYet(markTable[..], stamp)
    modifies marks, markTable, eTable, tempMove
    ensures states <= size <= n && Distinct(tempMove[..size]) && StampedAs(eTable[..], stamp, tempMove[..size])
    ensures Elements(tempMove[..size]) == Closure(m, n, Elements(old(tempMove[..states])))
    ensures AtMost(marks[..], stamp) && AtMost(markTable[..], stamp)
    ensures forall x :: 0 <= x < n ==> eTable[x] == stamp || eTable[x] == old(eTable[x])
  {
    hide Closing, MemoOk, StampSet, StampedAs, Elements;
    ghost var list := tempMove[..states];
    size := states;
    NoneStamped(marks[..], stamp);
    NoneStamped(markTable[..], stamp);
    MemoSize(memo, m, n);
    StampedWithin(eTable[..], stamp, list);
    Started(memo, m, n, list);
    var i := 0;
    while i < states
      invariant 0 <= i <= states <= size <= n && list <= tempMove[..size]
      invariant Tables(eTable[..], marks[..], markTable[..], n, stamp, tempMove[..size], StampSet(markTable[..], stamp),
                       StampSet(marks[..], stamp))
      invariant Closing(memo, m, n, Elements(list), tempMove[..size], StampSet(markTable[..], stamp),
                        StampSet(marks[..], stamp), [], list[i..], -1, 0)
      invariant AtMost(marks[..], stamp) && AtMost(markTable[..], stamp)
      invariant forall x :: 0 <= x < n ==> eTable[x] == stamp || eTable[x] == old(eTable[x])
    {
      var seed := tempMove[i];
      assert list[i..][0] == seed && list[i..][1..] == list[i + 1..] && tempMove[..size][i] == seed;
      SeedPushed(memo, m, n, Elements(list), tempMove[..size], StampSet(markTable[..], stamp),
                 StampSet(marks[..], stamp), list[i..]);
      var stack := if memo[seed] == [] then [] else [seed];
      while stack != []
        invariant states <= size <= n && list <= tempMove[..size]
        invariant Tables(eTable[..], marks[..], markTable[..], n, stamp, tempMove[..size],
                         StampSet(markTable[..], stamp), StampSet(marks[..], stamp))
        invariant Closing(memo, m, n, Elements(list), tempMove[..size], StampSet(markTable[..], stamp),
                          StampSet(marks[..], stamp), stack, list[i + 1..], -1, 0)
        invariant AtMost(marks[..], stamp) && AtMost(markTable[..], stamp)
        invariant forall x :: 0 <= x < n ==> eTable[x] == stamp || eTable[x] == old(eTable[x])
        decreases Indices(n) - StampSet(markTable[..], stamp), |stack|
      {
        size, stack := PopState(memo, marks, markTable, eTable, tempMove, size, stack, stamp, m, n, Elements(list),
                                list[i + 1..]);
      }
      i := i + 1;
    }
    assert list[i..] == [];
    ClosureDone(memo, m, n, list, tempMove[..size], StampSet(markTable[..], stamp), StampSet(marks[..], stamp));
  }

  lemma StampedWithin(stamps: seq<int>, stamp: int, list: seq<int>)
    requires StampedAs(stamps, stamp, list)
    ensures Within(list, |stamps|)
  {
  }

  lemma ClosureDone(memo: seq<seq<int>>, m: Machine<int>, n: nat, seeds: seq<int>, list: seq<int>, processed: set<int>,
                    marked: set<int>)
    requires Closing(memo, m, n, Elements(seeds), list, processed, marked, [], [], -1, 0) && MemoOk(memo, m, n)
             && InRange(m, n)
    requires seeds <= list
    ensures Elements(list) == Closure(m, n, Elements(seeds)) && Distinct(list)
  {
    forall x | x in Elements(seeds) ensures x in list {
      var i :| 0 <= i < |seeds| && seeds[i] == x;
      assert list[i] == x;
    }
    ClosingDone(memo, m, n, Elements(seeds), list, processed, marked);
  }
}
