/**
 Worklist constructions: states are numbered as they are discovered, wait on a stack, and are
 built once. What is kept along the way, and what the finished net then is, for any kind of state.
 */
module Worklist {
  import opened Automata
  import opened NetBuilding

  // ----- Invariants, as predicates over values -----

  /** The stack holds every discovered state that has not been taken off it, newest on top; `nums` are their numbers. */
  ghost predicate StackOk<S(!new)>(stack: seq<S>, nums: seq<int>, keys: seq<S>, done: set<S>) {
    && |nums| == |stack|
    && (forall x :: 0 <= x < |nums| ==> 0 <= nums[x] < |keys| && keys[nums[x]] == stack[x])
    && (forall x, y :: 0 <= x < y < |nums| ==> nums[x] < nums[y])
    && (forall i :: 0 <= i < |keys| ==> (keys[i] in done <==> i !in nums))
    && (forall t :: t in done ==> t in keys)
  }

  /** A line of the result agrees with the product: its arc, its target and its flags. */
  ghost predicate LineFollows<S(!new)>(l: Line, keys: seq<S>, prod: Machine<S>) {
    && 0 <= l.state < |keys|
    && (l.final <==> keys[l.state] in prod.finals)
    && (l.start <==> keys[l.state] in prod.starts)
    && (if l.target == -1 then l.upper == -1 && l.lower == -1
        else 0 <= l.target < |keys| && 0 <= l.upper && 0 <= l.lower
             && Arc(keys[l.state], l.ToLabel(), keys[l.target]) in prod.arcs)
  }

  ghost predicate Follows<S(!new)>(lines: seq<Line>, keys: seq<S>, prod: Machine<S>, done: set<S>) {
    forall l :: l in lines ==> LineFollows(l, keys, prod) && keys[l.state] in done
  }

  /** The arc from state number `i` on `l` to the product state `t` is in the result, or is a 0:0 self loop. */
  ghost predicate Emitted<S(!new)>(lines: seq<Line>, keys: seq<S>, i: int, l: Label, t: S) {
    exists j :: 0 <= j < |keys| && keys[j] == t && EmittedAt(lines, i, l, j)
  }

  ghost predicate EmittedAt(lines: seq<Line>, i: int, l: Label, j: int) {
    Arc(i, l, j) in ArcsOf(lines) || (i == j && l == EPSILON_PAIR)
  }

  ghost predicate AllEmitted<S(!new)>(lines: seq<Line>, keys: seq<S>, prod: Machine<S>, i: int)
    requires 0 <= i < |keys|
  {
    forall l, t :: Arc(keys[i], l, t) in prod.arcs ==> Emitted(lines, keys, i, l, t)
  }

  /** Every state taken off the stack, except the current one, is completely built. */
  ghost predicate Finished<S(!new)>(lines: seq<Line>, keys: seq<S>, prod: Machine<S>, done: set<S>, cur: int) {
    && (forall t :: t in done ==> t in keys)
    && (forall i :: 0 <= i < |keys| && keys[i] in done && i != cur ==> AllEmitted(lines, keys, prod, i)
                                                                       && HasState(lines, i))
  }

  /** Some lower-numbered state has an arc to `j`. */
  ghost predicate Introduced(lines: seq<Line>, j: int) {
    exists l :: l in lines && l.target == j && 0 <= l.state < j
  }

  ghost predicate Targets(lines: seq<Line>, p: int, d: int) {
    exists k :: 0 <= k < |lines| && lines[k].state == p && lines[k].target == d
  }

  /**
   A waiting state either was reached from a state with two lines, or is the newest one, reached
   from the current state; `pending` is the number handed out last, as long as it is on no line.
   */
  ghost predicate Waiting(lines: seq<Line>, nums: seq<int>, cur: int, pending: int, x: int)
    requires 0 <= x < |nums|
  {
    || Forked(lines, |lines|, nums[x])
    || (nums[x] > cur && x == |nums| - 1 && (cur == -1 || nums[x] == pending || Targets(lines, cur, nums[x])))
    || (nums[x] > cur && x == |nums| - 2 && pending != -1 && Targets(lines, cur, nums[x]))
  }

  /** All smaller states are settled before the lines of state `cur`. */
  ghost predicate Below(lines: seq<Line>, cur: int) {
    forall d :: 0 <= d < cur ==> HasState(lines, d) || Forked(lines, |lines|, d)
  }

  /** The numbers handed out and the lines emitted so far fit together. */
  ghost predicate Numbered(lines: seq<Line>, nums: seq<int>, count: int, cur: int, pending: int) {
    && Orderly(lines)
    && (forall x, y :: 0 <= x < y < |nums| ==> nums[x] < nums[y])
    && (forall x :: 0 <= x < |nums| ==> nums[x] < count)
    && (forall j :: 0 < j < count && j != pending ==> Introduced(lines, j))
    && (forall x :: 0 <= x < |nums| ==> Waiting(lines, nums, cur, pending, x))
  }

  // ----- How they are kept -----

  lemma ForkedKept(lines: seq<Line>, lines': seq<Line>, d: int)
    requires lines <= lines' && Forked(lines, |lines|, d)
    ensures Forked(lines', |lines'|, d)
  {
    var k, h :| 0 <= k < |lines| && 0 <= h < |lines| && k != h && lines[k].state == lines[h].state
    && lines[k].target == d;
    assert lines'[k] == lines[k] && lines'[h] == lines[h];
  }

  lemma BelowKept(lines: seq<Line>, lines': seq<Line>, cur: int)
    requires lines <= lines' && Below(lines, cur)
    ensures Below(lines', cur)
  {
    forall d | 0 <= d < cur ensures HasState(lines', d) || Forked(lines', |lines'|, d) {
      if HasState(lines, d) {
        var i :| 0 <= i < |lines| && lines[i].state == d;
        assert lines'[i].state == d;
      } else {
        ForkedKept(lines, lines', d);
      }
    }
  }

  lemma OrderlyLine(lines: seq<Line>, l: Line)
    requires Orderly(lines) && Below(lines, l.state)
    ensures Orderly(lines + [l])
  {
    var lines' := lines + [l];
    forall i, d | 0 <= i < |lines'| && 0 <= d < lines'[i].state
      ensures BuiltBefore(lines', i, d) || Forked(lines', i, d)
    {
      if i < |lines| {
        assert BuiltBefore(lines, i, d) || Forked(lines, i, d);
        if BuiltBefore(lines, i, d) {
          var k :| 0 <= k < i && lines[k].state == d;
          assert lines'[k].state == d;
        } else {
          var k, h :| 0 <= k < i && 0 <= h < i && k != h && lines[k].state == lines[h].state && lines[k].target == d;
          assert lines'[k] == lines[k] && lines'[h] == lines[h];
        }
      } else if HasState(lines, d) {
        var k :| 0 <= k < |lines| && lines[k].state == d;
        assert lines'[k].state == d;
      } else {
        var k, h :| 0 <= k < |lines| && 0 <= h < |lines| && k != h && lines[k].state == lines[h].state
        && lines[k].target == d;
        assert lines'[k] == lines[k] && lines'[h] == lines[h];
      }
    }
  }

  lemma IntroducedKept(lines: seq<Line>, lines': seq<Line>, j: int)
    requires lines <= lines' && Introduced(lines, j)
    ensures Introduced(lines', j)
  {
    var l :| l in lines && l.target == j && 0 <= l.state < j;
    assert l in lines';
  }

  /** A line of the current state that does not lead to a new number. */
  lemma NumberedLine(lines: seq<Line>, nums: seq<int>, count: int, l: Line, lines': seq<Line>)
    requires Numbered(lines, nums, count, l.state, -1) && 0 <= l.state && Below(lines, l.state)
    requires lines' == lines || lines' == lines + [l]
    ensures Numbered(lines', nums, count, l.state, -1)
  {
    OrderlyLine(lines, l);
    forall j | 0 < j < count ensures Introduced(lines', j) {
      IntroducedKept(lines, lines', j);
    }
    forall x | 0 <= x < |nums| ensures Waiting(lines', nums, l.state, -1, x) {
      assert Waiting(lines, nums, l.state, -1, x);
      if Forked(lines, |lines|, nums[x]) {
        ForkedKept(lines, lines', nums[x]);
      } else {
        var k :| 0 <= k < |lines| && lines[k].state == l.state && lines[k].target == nums[x];
        assert lines'[k] == lines[k];
      }
    }
  }

  /** The line that leads to the number just handed out, at index `at`. */
  lemma NumberedNew(lines: seq<Line>, nums: seq<int>, count: int, l: Line, lines': seq<Line>, at: int)
    requires Numbered(lines, nums, count, l.state, l.target) && 0 <= l.state < l.target && Below(lines, l.state)
    requires nums != [] && nums[|nums| - 1] == l.target
    requires lines' == lines || lines' == lines + [l]
    requires 0 <= at < |lines'| && lines'[at].state == l.state && lines'[at].target == l.target
    ensures Numbered(lines', nums, count, l.state, -1)
  {
    OrderlyLine(lines, l);
    assert lines'[at] in lines';
    forall j | 0 < j < count ensures Introduced(lines', j) {
      if j != l.target {
        IntroducedKept(lines, lines', j);
      }
    }
    forall x | 0 <= x < |nums| ensures Waiting(lines', nums, l.state, -1, x) {
      assert Waiting(lines, nums, l.state, l.target, x);
      if x == |nums| - 1 {
        assert Targets(lines', l.state, nums[x]);
      } else if Forked(lines, |lines|, nums[x]) {
        ForkedKept(lines, lines', nums[x]);
      } else {
        var k :| 0 <= k < |lines| && lines[k].state == l.state && lines[k].target == nums[x];
        assert nums[x] < nums[|nums| - 1];
        assert lines'[k] == lines[k] && k != at;
      }
    }
  }

  lemma EmittedKept<S(!new)>(lines: seq<Line>, keys: seq<S>, i: int, l: Label, t: S, lines': seq<Line>, keys': seq<S>)
    requires Emitted(lines, keys, i, l, t) && lines <= lines' && keys <= keys'
    ensures Emitted(lines', keys', i, l, t)
  {
    var j :| 0 <= j < |keys| && keys[j] == t && EmittedAt(lines, i, l, j);
    ArcsKept(lines, lines');
    assert EmittedAt(lines', i, l, j);
  }

  lemma ArcsKept(lines: seq<Line>, lines': seq<Line>)
    requires lines <= lines'
    ensures ArcsOf(lines) <= ArcsOf(lines')
  {
    forall a | a in ArcsOf(lines) ensures a in ArcsOf(lines') {
      var l :| l in lines && l.target >= 0 && l.ToArc() == a;
      assert l in lines';
    }
  }

  lemma FinishedKept<S(!new)>(lines: seq<Line>, keys: seq<S>, prod: Machine<S>, done: set<S>, cur: int,
                     lines': seq<Line>, keys': seq<S>)
    requires Finished(lines, keys, prod, done, cur) && lines <= lines' && keys <= keys'
    requires Distinct(keys')
    ensures Finished(lines', keys', prod, done, cur)
  {
    forall i | 0 <= i < |keys'| && keys'[i] in done && i != cur
      ensures AllEmitted(lines', keys', prod, i) && HasState(lines', i)
    {
      var k :| 0 <= k < |keys| && keys[k] == keys'[i];
      assert k == i;
      forall l, t | Arc(keys'[i], l, t) in prod.arcs ensures Emitted(lines', keys', i, l, t) {
        EmittedKept(lines, keys, i, l, t, lines', keys');
      }
      var h :| 0 <= h < |lines| && lines[h].state == i;
      assert lines'[h].state == i;
    }
  }

  lemma FollowsKept<S(!new)>(lines: seq<Line>, keys: seq<S>, prod: Machine<S>, done: set<S>, keys': seq<S>,
                             done': set<S>)
    requires Follows(lines, keys, prod, done) && keys <= keys' && done <= done'
    ensures Follows(lines, keys', prod, done')
  {
    forall l | l in lines ensures LineFollows(l, keys', prod) && keys'[l.state] in done' {
      assert LineFollows(l, keys, prod) && keys[l.state] in done;
    }
  }

  lemma LineAdded<S(!new)>(lines: seq<Line>, keys: seq<S>, prod: Machine<S>, done: set<S>, cur: int, l: Line,
                           lines': seq<Line>)
    requires Follows(lines, keys, prod, done) && Finished(lines, keys, prod, done, cur) && Distinct(keys)
    requires LineFollows(l, keys, prod) && keys[l.state] in done
    requires lines' == lines || lines' == lines + [l]
    ensures Follows(lines', keys, prod, done) && Finished(lines', keys, prod, done, cur) && lines <= lines'
  {
    FinishedKept(lines, keys, prod, done, cur, lines', keys);
  }

  /** Discovered states stay within any set that contains the first one and is closed under the product's arcs. */
  lemma {:induction false} KeyWithin<S(!new)>(lines: seq<Line>, keys: seq<S>, prod: Machine<S>, done: set<S>, u: set<S>,
                                              j: int)
    requires Follows(lines, keys, prod, done) && (forall i :: 0 < i < |keys| ==> Introduced(lines, i))
    requires 0 <= j < |keys| && keys[0] in u
    requires forall a :: a in prod.arcs && a.src in u ==> a.tgt in u
    ensures keys[j] in u
    decreases j
  {
    if j != 0 {
      assert Introduced(lines, j);
      var l :| l in lines && l.target == j && 0 <= l.state < j;
      assert LineFollows(l, keys, prod);
      KeyWithin(lines, keys, prod, done, u, l.state);
      var a := Arc(keys[l.state], l.ToLabel(), keys[j]);
      assert a in prod.arcs && a.src in u;
    }
  }

  lemma KeysWithin<S(!new)>(lines: seq<Line>, keys: seq<S>, prod: Machine<S>, done: set<S>, u: set<S>)
    requires Follows(lines, keys, prod, done) && (forall i :: 0 < i < |keys| ==> Introduced(lines, i))
    requires keys != [] && keys[0] in u && (forall t :: t in done ==> t in keys)
    requires forall a :: a in prod.arcs && a.src in u ==> a.tgt in u
    ensures done <= u
  {
    forall t | t in done ensures t in u {
      var j :| 0 <= j < |keys| && keys[j] == t;
      KeyWithin(lines, keys, prod, done, u, j);
    }
  }

  /** The finished result is the product machine, renamed. */
  lemma ProductRenamed<S(!new)>(lines: seq<Line>, keys: seq<S>, prod: Machine<S>, done: set<S>)
    requires StackOk([], [], keys, done) && Distinct(keys)
    requires Follows(lines, keys, prod, done) && Finished(lines, keys, prod, done, -1)
    requires forall s :: s in prod.starts ==> s in keys
    ensures Renames(prod, MachineOf(lines), keys)
  {
    var n := MachineOf(lines);
    forall i | 0 <= i < |keys|
      ensures (keys[i] in prod.starts <==> i in n.starts) && (keys[i] in prod.finals <==> i in n.finals)
    {
      assert HasState(lines, i);
      var h :| 0 <= h < |lines| && lines[h].state == i;
      assert lines[h] in lines;
    }
    forall a | a in n.arcs
      ensures 0 <= a.src < |keys| && 0 <= a.tgt < |keys| && Arc(keys[a.src], a.lab, keys[a.tgt]) in prod.arcs
    {
      var l :| l in lines && l.target >= 0 && l.ToArc() == a;
      assert LineFollows(l, keys, prod);
    }
    forall a | a in prod.arcs && a.src in keys ensures a.tgt in keys {
      var i :| 0 <= i < |keys| && keys[i] == a.src;
      assert a == Arc(keys[i], a.lab, a.tgt);
      assert Emitted(lines, keys, i, a.lab, a.tgt);
    }
    forall i, j, l | 0 <= i < |keys| && 0 <= j < |keys| && Arc(keys[i], l, keys[j]) in prod.arcs
      ensures Arc(i, l, j) in n.arcs || (i == j && l == EPSILON_PAIR)
    {
      assert Emitted(lines, keys, i, l, keys[j]);
      var k :| 0 <= k < |keys| && keys[k] == keys[j] && EmittedAt(lines, i, l, k);
      assert k == j;
    }
  }

  lemma StatePopped<S(!new)>(lines: seq<Line>, keys: seq<S>, prod: Machine<S>, done: set<S>, stack: seq<S>,
                             nums: seq<int>, n: int)
    requires StackOk(stack, nums, keys, done) && stack != [] && Distinct(keys)
    requires 0 <= n < |keys| && keys[n] == stack[|stack| - 1]
    requires Follows(lines, keys, prod, done) && Finished(lines, keys, prod, done, -1)
    requires Numbered(lines, nums, |keys|, -1, -1)
    ensures n == nums[|nums| - 1]
    ensures StackOk(stack[..|stack| - 1], nums[..|nums| - 1], keys, done + {keys[n]})
    ensures Follows(lines, keys, prod, done + {keys[n]}) && Finished(lines, keys, prod, done + {keys[n]}, n)
    ensures Numbered(lines, nums[..|nums| - 1], |keys|, n, -1) && Below(lines, n)
    ensures NoLineOf(lines, n) && keys[n] !in done
  {
    hide AllEmitted, Forked;
    var t, top := keys[n], |nums| - 1;
    TopIs(stack, nums, keys, done, n);
    TopRemoved(stack, nums, keys, done);
    FollowsKept(lines, keys, prod, done, keys, done + {t});
    PoppedBelow(lines, keys, done, stack, nums, n);
    forall l | l in lines ensures l.state != n {
      assert LineFollows(l, keys, prod) && keys[l.state] in done;
    }
  }

  lemma TopIs<S(!new)>(stack: seq<S>, nums: seq<int>, keys: seq<S>, done: set<S>, n: int)
    requires StackOk(stack, nums, keys, done) && stack != [] && Distinct(keys)
    requires 0 <= n < |keys| && keys[n] == stack[|stack| - 1]
    ensures n == nums[|nums| - 1] && keys[n] !in done
  {
    var top := nums[|nums| - 1];
    assert keys[top] == keys[n];
    assert top == n;
    assert n in nums;
  }

  lemma PoppedBelow<S(!new)>(lines: seq<Line>, keys: seq<S>, done: set<S>, stack: seq<S>, nums: seq<int>, n: int)
    requires StackOk(stack, nums, keys, done) && nums != [] && n == nums[|nums| - 1]
             && Numbered(lines, nums, |keys|, -1, -1)
    requires forall i :: 0 <= i < |keys| && keys[i] in done ==> HasState(lines, i)
    ensures Numbered(lines, nums[..|nums| - 1], |keys|, n, -1) && Below(lines, n)
  {
    hide Introduced, Orderly;
    var top := |nums| - 1;
    forall x | 0 <= x < top ensures Forked(lines, |lines|, nums[x]) {
      assert Waiting(lines, nums, -1, -1, x);
    }
    forall d | 0 <= d < n ensures HasState(lines, d) || Forked(lines, |lines|, d) {
      if keys[d] !in done {
        var x :| 0 <= x < |nums| && nums[x] == d;
      }
    }
  }

  lemma TopRemoved<S(!new)>(stack: seq<S>, nums: seq<int>, keys: seq<S>, done: set<S>)
    requires StackOk(stack, nums, keys, done) && stack != [] && Distinct(keys)
    ensures StackOk(stack[..|stack| - 1], nums[..|nums| - 1], keys, done + {stack[|stack| - 1]})
  {
    var top := |nums| - 1;
    forall i | 0 <= i < |keys| ensures keys[i] in done + {stack[top]} <==> i !in nums[..top] {
      if i in nums && i != nums[top] {
        var x :| 0 <= x < |nums| && nums[x] == i;
        assert nums[..top][x] == i;
      }
    }
  }

  lemma NothingWaits<S(!new)>(keys: seq<S>, done: set<S>)
    requires StackOk([], [], keys, done)
    ensures forall t :: t in done <==> t in keys
  {
  }

  /** Distinct numbered states are as many as their set. */
  lemma {:induction false} AllCounted<S(!new)>(keys: seq<S>, done: set<S>)
    requires Distinct(keys) && forall t :: t in done <==> t in keys
    ensures |done| == |keys|
    decreases |keys|
  {
    if keys == [] {
      assert done == {};
    } else {
      var last := keys[|keys| - 1];
      AllCounted(keys[..|keys| - 1], done - {last});
    }
  }

  lemma TopKnown<S(!new)>(stack: seq<S>, nums: seq<int>, keys: seq<S>, done: set<S>)
    requires StackOk(stack, nums, keys, done) && stack != []
    ensures stack[|stack| - 1] in keys
  {
    assert keys[nums[|nums| - 1]] == stack[|stack| - 1];
  }

  lemma NumberedMore(lines: seq<Line>, nums: seq<int>, count: int, cur: int)
    requires Numbered(lines, nums, count, cur, -1) && -1 < cur < count
    ensures Numbered(lines, nums + [count], count + 1, cur, count)
  {
    forall x | 0 <= x < |nums| + 1 ensures Waiting(lines, nums + [count], cur, count, x) {
      if x < |nums| {
        assert Waiting(lines, nums, cur, -1, x);
      }
    }
  }

  lemma NumberedIdle(lines: seq<Line>, nums: seq<int>, count: int, cur: int)
    requires Numbered(lines, nums, count, cur, -1) && cur >= 0
    ensures Numbered(lines, nums, count, -1, -1)
  {
    forall x | 0 <= x < |nums| ensures Waiting(lines, nums, -1, -1, x) {
      assert Waiting(lines, nums, cur, -1, x);
    }
  }

  lemma NumberedArc(lines: seq<Line>, nums: seq<int>, count: int, pending: int, l: Line, lines': seq<Line>)
    requires Numbered(lines, nums, count, l.state, pending) && 0 <= l.state < count && Below(lines, l.state)
    requires lines' == lines || lines' == lines + [l]
    requires Arc(l.state, l.ToLabel(), l.target) in ArcsOf(lines')
             || (l.ToLabel() == EPSILON_PAIR && l.target == l.state)
    requires pending != -1 ==> l.state < pending == l.target && nums != [] && nums[|nums| - 1] == pending
    ensures Numbered(lines', nums, count, l.state, -1)
  {
    if pending == -1 {
      NumberedLine(lines, nums, count, l, lines');
    } else {
      var a := Arc(l.state, l.ToLabel(), l.target);
      var k :| k in lines' && k.target >= 0 && k.ToArc() == a;
      assert k.ToArc().tgt == pending && k.ToArc().src == l.state;
      var at :| 0 <= at < |lines'| && lines'[at] == k;
      NumberedNew(lines, nums, count, l, lines', at);
    }
  }

  lemma StateDiscovered<S(!new)>(lines: seq<Line>, keys: seq<S>, prod: Machine<S>, done: set<S>, stack: seq<S>,
                                 nums: seq<int>, cur: int, t: S)
    requires StackOk(stack, nums, keys, done) && t !in keys && Distinct(keys)
    requires Follows(lines, keys, prod, done) && Finished(lines, keys, prod, done, cur)
    ensures StackOk(stack + [t], nums + [|keys|], keys + [t], done)
    ensures Follows(lines, keys + [t], prod, done) && Finished(lines, keys + [t], prod, done, cur)
  {
    assert Distinct(keys + [t]);
    FollowsKept(lines, keys, prod, done, keys + [t], done);
    FinishedKept(lines, keys, prod, done, cur, lines, keys + [t]);
    Pushed(stack, nums, keys, done, t);
  }

  lemma Pushed<S(!new)>(stack: seq<S>, nums: seq<int>, keys: seq<S>, done: set<S>, t: S)
    requires StackOk(stack, nums, keys, done) && t !in keys && Distinct(keys)
    ensures StackOk(stack + [t], nums + [|keys|], keys + [t], done)
  {
    forall i | 0 <= i < |keys + [t]| ensures (keys + [t])[i] in done <==> i !in nums + [|keys|] {
      assert i in nums + [|keys|] <==> i in nums || i == |keys|;
    }
  }

  lemma EmittedNow<S(!new)>(lines: seq<Line>, keys: seq<S>, i: int, l: Label, j: int)
    requires 0 <= j < |keys|
    requires Arc(i, l, j) in ArcsOf(lines) || (l == EPSILON_PAIR && j == i)
    ensures Emitted(lines, keys, i, l, keys[j])
  {
    assert EmittedAt(lines, i, l, j);
  }

  lemma StateFinished<S(!new)>(lines: seq<Line>, keys: seq<S>, prod: Machine<S>, done: set<S>, cur: int,
                               lines': seq<Line>)
    requires 0 <= cur < |keys| && AllEmitted(lines, keys, prod, cur) && lines <= lines'
    requires Finished(lines', keys, prod, done, cur) && HasState(lines', cur)
    ensures Finished(lines', keys, prod, done, -1)
  {
    forall l, t | Arc(keys[cur], l, t) in prod.arcs ensures Emitted(lines', keys, cur, l, t) {
      EmittedKept(lines, keys, cur, l, t, lines', keys);
    }
  }

  /** All that is kept when an arc of the current state is added, whether or not it makes a line. */
  lemma ArcAdded<S(!new)>(lines: seq<Line>, keys: seq<S>, prod: Machine<S>, done: set<S>, nums: seq<int>, pending: int,
                          l: Line, lines': seq<Line>)
    requires Follows(lines, keys, prod, done) && Finished(lines, keys, prod, done, l.state) && Distinct(keys)
    requires Numbered(lines, nums, |keys|, l.state, pending) && Below(lines, l.state)
    requires LineFollows(l, keys, prod) && keys[l.state] in done && 0 <= l.target
    requires lines' == lines || lines' == lines + [l]
    requires Arc(l.state, l.ToLabel(), l.target) in ArcsOf(lines')
             || (l.ToLabel() == EPSILON_PAIR && l.target == l.state)
    requires pending != -1 ==> l.state < pending == l.target && nums != [] && nums[|nums| - 1] == pending
    ensures Follows(lines', keys, prod, done) && Finished(lines', keys, prod, done, l.state) && lines <= lines'
    ensures Numbered(lines', nums, |keys|, l.state, -1) && Below(lines', l.state)
    ensures Emitted(lines', keys, l.state, l.ToLabel(), keys[l.target])
  {
    hide Follows, Finished, Numbered, Below, Emitted, ArcsOf, Distinct;
    LineAdded(lines, keys, prod, done, l.state, l, lines');
    NumberedArc(lines, nums, |keys|, pending, l, lines');
    BelowKept(lines, lines', l.state);
    EmittedNow(lines', keys, l.state, l.ToLabel(), l.target);
  }

  /** All that is kept when the current state ends, with or without an arcless line. */
  lemma StateEnded<S(!new)>(lines: seq<Line>, keys: seq<S>, prod: Machine<S>, done: set<S>, nums: seq<int>, l: Line,
                            lines': seq<Line>)
    requires Follows(lines, keys, prod, done) && Finished(lines, keys, prod, done, l.state) && Distinct(keys)
    requires Numbered(lines, nums, |keys|, l.state, -1) && Below(lines, l.state)
    requires LineFollows(l, keys, prod) && keys[l.state] in done && AllEmitted(lines, keys, prod, l.state)
    requires lines' == lines || lines' == lines + [l]
    requires HasState(lines', l.state)
    ensures Follows(lines', keys, prod, done) && Finished(lines', keys, prod, done, -1)
            && Numbered(lines', nums, |keys|, -1, -1)
  {
    hide Follows, Finished, Numbered, Below, AllEmitted, HasState, Distinct;
    LineAdded(lines, keys, prod, done, l.state, l, lines');
    NumberedLine(lines, nums, |keys|, l, lines');
    NumberedIdle(lines', nums, |keys|, l.state);
    StateFinished(lines, keys, prod, done, l.state, lines');
  }

  lemma ResultLinesOk<S(!new)>(lines: seq<Line>, keys: seq<S>, prod: Machine<S>, done: set<S>)
    requires StackOk([], [], keys, done) && keys != []
    requires Follows(lines, keys, prod, done) && Finished(lines, keys, prod, done, -1)
    requires Contiguous(lines) && FlagsAgree(lines)
    ensures WellFormed(lines, |keys|)
  {
    forall i | 0 <= i < |lines| ensures LineOk(lines[i], |keys|) {
      assert LineFollows(lines[i], keys, prod);
    }
    forall p | 0 <= p < |keys| ensures HasState(lines, p) {
      assert keys[p] in done;
    }
  }

  lemma ResultWellFormed<S(!new)>(lines: seq<Line>, keys: seq<S>, prod: Machine<S>, done: set<S>)
    requires StackOk([], [], keys, done) && keys != []
    requires Follows(lines, keys, prod, done) && Finished(lines, keys, prod, done, -1)
    requires Contiguous(lines) && FlagsAgree(lines)
    requires Numbered(lines, [], |keys|, -1, -1)
    ensures WellFormed(lines, |keys|) && Orderly(lines)
    ensures forall j :: 0 < j < |keys| ==> Introduced(lines, j)
  {
    ResultLinesOk(lines, keys, prod, done);
  }
}
