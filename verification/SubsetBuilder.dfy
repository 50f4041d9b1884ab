/**
 The worklist of subset construction: sets of states are numbered by the set table, wait on the
 integer stack by number, and are built once each.
 */
module SubsetBuilding {
  import opened Automata
  import opened NetBuilding
  import opened SetNumbering
  import opened Worklist

  /** The memo's flag of every set is its finality in the subset machine. */
  ghost predicate FlagsRight(flags: seq<bool>, keys: seq<set<int>>, prod: Machine<set<int>>) {
    |flags| == |keys| && forall k :: 0 <= k < |keys| ==> (flags[k] <==> keys[k] in prod.finals)
  }

  /** All that is kept when a set is stored and pushed. */
  lemma SetDiscovered(lines: seq<Line>, keys: seq<set<int>>, prod: Machine<set<int>>, done: set<set<int>>,
                      waiting: seq<set<int>>,
                      nums: seq<int>, cur: int, t: set<int>, flags: seq<bool>, final: bool)
    requires StackOk(waiting, nums, keys, done) && t !in keys && Distinct(keys)
    requires Follows(lines, keys, prod, done) && Finished(lines, keys, prod, done, cur)
    requires Numbered(lines, nums, |keys|, cur, -1) && -1 < cur < |keys|
    requires FlagsRight(flags, keys, prod) && (final <==> t in prod.finals)
    ensures StackOk(waiting + [t], nums + [|keys|], keys + [t], done)
    ensures Follows(lines, keys + [t], prod, done) && Finished(lines, keys + [t], prod, done, cur)
    ensures Numbered(lines, nums + [|keys|], |keys| + 1, cur, |keys|) && FlagsRight(flags + [final], keys + [t], prod)
  {
    hide StackOk, Follows, Finished, Numbered;
    NumberedMore(lines, nums, |keys|, cur);
    StateDiscovered(lines, keys, prod, done, waiting, nums, cur, t);
  }

  class SubsetBuilder {
    const table: SetTable
    const builder: NetBuilder
    /** The integer stack: numbers of sets that are to be built. */
    var stack: seq<int>
    /** The sets on the stack. */
    ghost var waiting: seq<set<int>>
    ghost const prod: Machine<set<int>>
    /** How many states the original has. */
    ghost const n: nat
    ghost var done: set<set<int>>
    ghost var cur: int
    ghost var pending: int

    ghost predicate Valid()
      reads this, table, table.buckets, builder, builder.slookup
    {
      && table.Valid() && builder.Valid() && AllWithin(table.sets, n)
      && |stack| == |waiting| && StackOk(waiting, stack, table.keys, done)
      && FlagsRight(table.finalStart, table.keys, prod)
      && Follows(builder.lines, table.keys, prod, done)
      && Finished(builder.lines, table.keys, prod, done, cur)
      && table.keys != [] && (forall s :: s in prod.starts <==> s == table.keys[0])
      && (cur != -1 ==> 0 <= cur < |table.keys| && table.keys[cur] in done)
      && builder.stateCount == |done| - (if cur == -1 then 0 else 1)
      && Numbered(builder.lines, stack, |table.keys|, cur, pending)
      && -1 <= pending < |table.keys|
      && (pending != -1 ==> cur < pending == |table.keys| - 1 && stack != [] && stack[|stack| - 1] == pending)
    }

    ghost predicate Idle()
      reads this, table, table.buckets, builder, builder.slookup
    {
      Valid() && cur == -1 && pending == -1 && !builder.open
    }

    ghost predicate Popped()
      reads this, table, table.buckets, builder, builder.slookup
    {
      Valid() && cur != -1 && pending == -1 && !builder.open && NoLineOf(builder.lines, cur)
      && Below(builder.lines, cur)
    }

    ghost predicate Building()
      reads this, table, table.buckets, builder, builder.slookup
    {
      pending == -1 && BuildingOr()
    }

    ghost predicate BuildingOr()
      reads this, table, table.buckets, builder, builder.slookup
    {
      && Valid() && cur != -1 && builder.open && builder.stateNo == cur
      && (builder.final <==> table.keys[cur] in prod.finals)
      && (builder.start <==> table.keys[cur] in prod.starts)
      && Below(builder.lines, cur)
    }

    /** Starts with one set, which becomes number 0. */
    constructor (sigmaMax: int, filled: SetTable, ghost m: Machine<set<int>>, ghost states: nat)
      requires -1 <= sigmaMax && filled.Valid() && AllWithin(filled.sets, states)
      requires |filled.keys| == 1 && m.starts == iset{filled.keys[0]} && FlagsRight(filled.finalStart, filled.keys, m)
      ensures Idle() && table == filled && fresh(builder) && fresh(builder.slookup)
      ensures builder.slookup.Length0 == sigmaMax + 1
      ensures prod == m && n == states && done == {} && stack == [0]
    {
      hide SetTable.Valid;
      table := filled;
      builder := new NetBuilder(sigmaMax);
      stack, waiting, n := [0], [filled.keys[0]], states;
      prod, done, cur, pending := m, {}, -1, -1;
    }

    /** Takes the next set off the stack. */
    method Pop() returns (t: int)
      requires Idle() && stack != []
      modifies this
      ensures Popped() && t == cur
      ensures table.keys[t] !in old(done) && done == old(done) + {table.keys[t]}
    {
      hide NetBuilder.Valid, SetTable.Valid, StackOk, Follows, Finished, Numbered, FlagsRight;
      TableDistinct(table);
      TopNumber(waiting, stack, table.keys, done);
      t := stack[|stack| - 1];
      StatePopped(builder.lines, table.keys, prod, done, waiting, stack, t);
      stack, waiting := stack[..|stack| - 1], waiting[..|waiting| - 1];
      done := done + {table.keys[t]};
      cur := t;
    }

    method Begin(t: int, final: bool, start: bool)
      requires Popped() && t == cur
      requires final == table.finalStart[t] && start == (t == 0)
      modifies builder
      ensures Building()
      ensures builder.lines == old(builder.lines)
    {
      hide NetBuilder.Valid, SetTable.Valid, StackOk, Follows, Finished, Numbered;
      TableDistinct(table);
      builder.SetCurrentState(t, final, start);
    }

    /** The number of the listed set, which is pushed if it is new. */
    method Visit(list: seq<int>, stamps: array<int>, mainloop: int, finals: seq<bool>) returns (u: int)
      requires Building() && Distinct(list) && list != [] && stamps.Length == n == |finals|
      requires StampedAs(stamps[..], mainloop - 1, list)
      requires HoldsFinal(list, finals) <==> Elements(list) in prod.finals
      modifies this`stack, this`waiting, this`pending, table, table.buckets
      ensures BuildingOr() && (table.buckets == old(table.buckets) || fresh(table.buckets))
      ensures old(table.keys) <= table.keys
      ensures 0 <= u < |table.keys| && table.keys[u] == Elements(list)
      ensures pending == -1 || pending == u
    {
      hide NetBuilder.Valid, SetTable.Valid, StackOk, Follows, Finished, Numbered, StampedAs, HoldsFinal,
           Below, FlagsRight, Elements, AllWithin, Distinct;
      TableDistinct(table);
      ghost var keys, flags := table.keys, table.finalStart;
      var stored := |table.sets|;
      u := table.FindInsert(list, stamps, mainloop, finals);
      if |table.sets| > stored {
        // The insertion of a set pushes its number.
        SetDiscovered(builder.lines, keys, prod, done, waiting, stack, cur, Elements(list), flags,
                      HoldsFinal(list, finals));
        stack, waiting := stack + [u], waiting + [Elements(list)];
        pending := u;
      }
    }

    /** Adds the arc to set number `u`. */
    method AddArcTo(l: Label, u: int)
      requires BuildingOr() && (pending == -1 || pending == u)
      requires 0 <= l.upper < builder.slookup.Length0 && 0 <= l.lower < builder.slookup.Length0
      requires 0 <= u < |table.keys|
      requires Arc(table.keys[cur], l, table.keys[u]) in prod.arcs
      modifies this`pending, builder, builder.slookup
      ensures Building()
      ensures old(builder.lines) <= builder.lines
      ensures Emitted(builder.lines, table.keys, cur, l, table.keys[u])
    {
      hide NetBuilder.Valid, SetTable.Valid, StackOk, Follows, Finished, Emitted, ArcsOf, Numbered, FlagsRight,
           RepeatsNewest, Below;
      TableDistinct(table);
      ghost var lines, line := builder.lines, Line(cur, l.upper, l.lower, u, builder.final, builder.start);
      builder.AddArc(l.upper, l.lower, u);
      ArcAdded(lines, table.keys, prod, done, stack, pending, line, builder.lines);
      pending := -1;
    }

    /** Closes the current set, all of whose arcs have been added. */
    method End()
      requires Building() && AllEmitted(builder.lines, table.keys, prod, cur)
      modifies this`cur, builder
      ensures Idle()
    {
      hide NetBuilder.Valid, SetTable.Valid, StackOk, Follows, Finished, AllEmitted, Numbered, FlagsRight, Below,
           HasState;
      TableDistinct(table);
      ghost var lines, line := builder.lines, Line(cur, -1, -1, -1, builder.final, builder.start);
      builder.EndState();
      StateEnded(lines, table.keys, prod, done, stack, line, builder.lines);
      cur := -1;
    }

    method Close() returns (net: seq<Line>, count: nat, deterministic: bool)
      requires Idle() && stack == []
      modifies builder
      ensures Renames(prod, MachineOf(net), table.keys)
      ensures count == |table.keys| && WellFormed(net, count) && Orderly(net)
      ensures forall j :: 0 < j < count ==> Introduced(net, j)
      ensures deterministic ==> Deterministic(MachineOf(net))
    {
      hide NetBuilder.Valid, SetTable.Valid, StackOk, Follows, Finished, Numbered, FlagsRight;
      TableDistinct(table);
      ProductRenamed(builder.lines, table.keys, prod, done);
      NothingWaits(table.keys, done);
      net, deterministic := builder.Close();
      count := builder.stateCount;
      AllCounted(table.keys, done);
      ResultWellFormed(net, table.keys, prod, done);
    }
  }

  lemma TableDistinct(table: SetTable)
    requires table.Valid()
    ensures Distinct(table.keys) && |table.keys| == |table.sets| == |table.finalStart|
  {
  }

  lemma TopNumber(waiting: seq<set<int>>, stack: seq<int>, keys: seq<set<int>>, done: set<set<int>>)
    requires StackOk(waiting, stack, keys, done) && stack != []
    ensures 0 <= stack[|stack| - 1] < |keys| && keys[stack[|stack| - 1]] == waiting[|waiting| - 1]
  {
  }
}
