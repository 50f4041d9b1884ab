/**
 The worklist skeleton that composition, intersection and subtraction share: product states
 are numbered by the triplet hash as they are discovered, pushed once, and built once.
 Whatever arcs the machine `prod` has from a state must be emitted before it is closed;
 the finished net then is `prod`, restricted to what is reachable and renamed.
 */
module ProductBuilding {
  import opened Automata
  import opened TripletHashing
  import opened NetBuilding
  import opened Worklist

  /** All states of a product of an `m`-state and an `n`-state net with three modes. */
  function Universe(m: nat, n: nat): set<Triple> {
    set p, q, c | 0 <= p < m && 0 <= q < n && 0 <= c <= 2 :: Triple(p, q, c)
  }

  class ProductBuilder {
    const th: TripletHash
    const builder: NetBuilder
    /** The global integer stack, three cells a state. */
    var stack: seq<Triple>
    /** The numbers of the states on the stack. */
    ghost var nums: seq<int>
    ghost const prod: Machine<Triple>
    /** The states taken off the stack, the current one included. */
    ghost var done: set<Triple>
    /** The number of the current state, or -1. */
    ghost var cur: int
    /** The number discovered last, as long as no arc leads to it, or -1. */
    ghost var pending: int

    ghost predicate Valid()
      reads this, th, th.triplets, builder, builder.slookup
    {
      && th.Valid() && builder.Valid()
      && |nums| == |stack| && StackOk(stack, nums, th.keys, done)
      && Follows(builder.lines, th.keys, prod, done)
      && Finished(builder.lines, th.keys, prod, done, cur)
      && th.keys != [] && (forall s :: s in prod.starts ==> s in th.keys)
      && (cur != -1 ==> 0 <= cur < |th.keys| && th.keys[cur] in done)
      && builder.stateCount == |done| - (if cur == -1 then 0 else 1)
      && Numbered(builder.lines, nums, |th.keys|, cur, pending)
      && -1 <= pending < |th.keys| && (pending != -1 ==> cur < pending == |th.keys| - 1 && nums != []
                                                         && nums[|nums| - 1] == pending)
    }

    /** Between two states. */
    ghost predicate Idle()
      reads this, th, th.triplets, builder, builder.slookup
    {
      Valid() && cur == -1 && pending == -1 && !builder.open
    }

    /** A state is off the stack but not announced to the builder yet. */
    ghost predicate Popped()
      reads this, th, th.triplets, builder, builder.slookup
    {
      Valid() && cur != -1 && pending == -1 && !builder.open && NoLineOf(builder.lines, cur)
      && Below(builder.lines, cur)
    }

    /** The arcs of state number `cur` are being emitted. */
    ghost predicate Building()
      reads this, th, th.triplets, builder, builder.slookup
    {
      pending == -1 && BuildingOr()
    }

    ghost predicate BuildingOr()
      reads this, th, th.triplets, builder, builder.slookup
    {
      && Valid() && cur != -1 && builder.open && builder.stateNo == cur
      && (builder.final <==> th.keys[cur] in prod.finals)
      && (builder.start <==> th.keys[cur] in prod.starts)
      && Below(builder.lines, cur)
    }

    constructor (sigmaMax: int, ghost m: Machine<Triple>, first: Triple)
      requires -1 <= sigmaMax
      requires forall s :: s in m.starts ==> s == first
      ensures Idle() && fresh(th) && fresh(th.triplets) && fresh(builder) && fresh(builder.slookup)
      ensures builder.slookup.Length0 == sigmaMax + 1
      ensures prod == m && done == {} && th.keys == [first] && stack == [first]
    {
      hide StackOk, Follows, Finished, Numbered, TripletHash.Valid, NetBuilder.Valid;
      th := new TripletHash();
      builder := new NetBuilder(sigmaMax);
      stack, nums := [first], [0];
      prod, done, cur, pending := m, {}, -1, -1;
      new;
      var key := th.Insert(first);
      assert th.keys == [first] && builder.lines == [];
      NothingBuilt(m, first);
    }

    /** Takes a state off the stack. */
    method Pop() returns (t: Triple, n: int)
      requires Idle() && stack != []
      modifies this
      ensures Popped()
      ensures n == cur && th.keys[n] == t
      ensures t !in old(done) && done == old(done) + {t}
    {
      hide NetBuilder.Valid, StackOk, Follows, Finished, Numbered;
      TopKnown(stack, nums, th.keys, done);
      t := stack[|stack| - 1];
      n := th.Find(t);
      StatePopped(builder.lines, th.keys, prod, done, stack, nums, n);
      stack, nums := stack[..|stack| - 1], nums[..|nums| - 1];
      done := done + {t};
      cur := n;
    }

    method Begin(n: int, final: bool, start: bool)
      requires Popped() && n == cur
      requires (final <==> th.keys[cur] in prod.finals) && (start <==> th.keys[cur] in prod.starts)
      modifies builder
      ensures Building()
    {
      hide NetBuilder.Valid, StackOk, Follows, Finished, Numbered;
      builder.SetCurrentState(n, final, start);
    }

    /** The number of a product state, which is discovered now if it was not before. */
    method Visit(t: Triple) returns (n: int)
      requires Building()
      modifies this`stack, this`nums, this`pending, th, th.triplets
      ensures BuildingOr() && (th.triplets == old(th.triplets) || fresh(th.triplets))
      ensures old(th.keys) <= th.keys
      ensures 0 <= n < |th.keys| && th.keys[n] == t
      ensures pending == -1 || pending == n
    {
      hide NetBuilder.Valid, TripletHash.Valid, StackOk, Follows, Finished, Numbered, Below;
      KeysDistinct(th);
      n := th.Find(t);
      if n == -1 {
        NumberedMore(builder.lines, nums, |th.keys|, cur);
        StateDiscovered(builder.lines, th.keys, prod, done, stack, nums, cur, t);
        stack, nums := stack + [t], nums + [|th.keys|];
        n := th.Insert(t);
        pending := n;
      }
    }

    /** Emits an arc of the current state. */
    method Emit(up: int, lo: int, t: Triple)
      requires Building()
      requires 0 <= up < builder.slookup.Length0 && 0 <= lo < builder.slookup.Length0
      requires Arc(th.keys[cur], Label(up, lo), t) in prod.arcs
      modifies this`stack, this`nums, this`pending, th, th.triplets, builder, builder.slookup
      ensures Building() && (th.triplets == old(th.triplets) || fresh(th.triplets))
      ensures old(th.keys) <= th.keys && old(builder.lines) <= builder.lines
      ensures Emitted(builder.lines, th.keys, cur, Label(up, lo), t)
    {
      var n := Visit(t);
      hide NetBuilder.Valid, StackOk, Follows, Finished, Emitted, Numbered;
      AddArcTo(up, lo, n, t);
    }

    method AddArcTo(up: int, lo: int, n: int, ghost t: Triple)
      requires BuildingOr() && (pending == -1 || pending == n)
      requires 0 <= up < builder.slookup.Length0 && 0 <= lo < builder.slookup.Length0
      requires 0 <= n < |th.keys| && th.keys[n] == t
      requires Arc(th.keys[cur], Label(up, lo), t) in prod.arcs
      modifies this`pending, builder, builder.slookup
      ensures Building()
      ensures old(builder.lines) <= builder.lines
      ensures Emitted(builder.lines, th.keys, cur, Label(up, lo), t)
    {
      hide NetBuilder.Valid, StackOk, Follows, Finished, Emitted, ArcsOf, Numbered, RepeatsNewest, Below;
      ghost var lines, l := builder.lines, Line(cur, up, lo, n, builder.final, builder.start);
      builder.AddArc(up, lo, n);
      ArcAdded(lines, th.keys, prod, done, nums, pending, l, builder.lines);
      pending := -1;
    }

    /** Closes the current state, all of whose arcs have been emitted. */
    method End()
      requires Building()
      requires AllEmitted(builder.lines, th.keys, prod, cur)
      modifies this`cur, builder
      ensures Idle()
    {
      hide NetBuilder.Valid, StackOk, Follows, Finished, AllEmitted, Numbered, Below, HasState;
      ghost var lines, l := builder.lines, Line(cur, -1, -1, -1, builder.final, builder.start);
      builder.EndState();
      StateEnded(lines, th.keys, prod, done, nums, l, builder.lines);
      cur := -1;
    }

    /** The result, once the stack is empty. */
    method Close() returns (net: seq<Line>, count: nat, deterministic: bool)
      requires Idle() && stack == []
      modifies builder
      ensures Renames(prod, MachineOf(net), th.keys)
      ensures count == |th.keys| && WellFormed(net, count) && Orderly(net)
      ensures forall j :: 0 < j < count ==> Introduced(net, j)
      ensures deterministic ==> Deterministic(MachineOf(net))
    {
      hide NetBuilder.Valid, StackOk, Follows, Finished, Numbered;
      ProductRenamed(builder.lines, th.keys, prod, done);
      NothingWaits(th.keys, done);
      net, deterministic := builder.Close();
      count := builder.stateCount;
      AllCounted(th.keys, done);
      ResultWellFormed(net, th.keys, prod, done);
    }
  }

  /** Before anything is built, the first state waits. */
  lemma NothingBuilt(m: Machine<Triple>, first: Triple)
    ensures StackOk([first], [0], [first], {}) && Follows([], [first], m, {}) && Finished([], [first], m, {}, -1)
    ensures Numbered([], [0], 1, -1, -1)
  {
    assert [first][0] == first;
  }

  lemma KeysDistinct(th: TripletHash)
    requires th.Valid()
    ensures Distinct(th.keys)
  {
  }
}
