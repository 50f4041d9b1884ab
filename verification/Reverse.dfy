/**
 Reversal through the reading and construction handles: the arcs, final states and start states
 of a net are read one at a time and fed to a construction handle, which lays out the result.
 */
module Reversing {
  import opened Automata
  import opened Coaccessibility
  import opened Counting
  import opened Determinization
  import opened NetBuilding
  import opened NetReading
  import opened Reversal
  import opened Subsets
  import opened Worklist

  // ----- The reading handle -----

  /** The states below `n` that have a property, in ascending order, then -1. */
  ghost predicate StateList(list: seq<int>, n: nat, chosen: iset<int>) {
    && 0 < |list| <= n + 1 && list[|list| - 1] == -1
    && (forall k :: 0 <= k < |list| - 1 ==> 0 <= list[k] < n && list[k] in chosen)
    && (forall s :: 0 <= s < n && s in chosen ==> s in list)
  }

  class ReadHandle {
    const lines: seq<Line>
    const finalsHead: seq<int>
    const initialsHead: seq<int>
    /** Cursors; -1 before the first use. */
    var arcsCursor: int
    var finalsCursor: int
    var initialsCursor: int
    ghost const n: nat

    ghost predicate Valid()
      reads this
    {
      && WellFormed(lines, n)
      && StateList(finalsHead, n, MachineOf(lines).finals) && StateList(initialsHead, n, MachineOf(lines).starts)
      && -1 <= arcsCursor <= |lines| && -1 <= finalsCursor < |finalsHead| && -1 <= initialsCursor < |initialsHead|
    }

    constructor (lines: seq<Line>, n: nat)
      requires WellFormed(lines, n)
      ensures Valid() && this.lines == lines && this.n == n
      ensures arcsCursor == finalsCursor == initialsCursor == -1
    {
      hide WellFormed;
      var finals := new bool[n](_ => false);
      var initials := new bool[n](_ => false);
      NoStarts(lines);
      var i := 0;
      while i < |lines|
        invariant 0 <= i <= |lines|
        invariant forall s :: 0 <= s < n ==> (finals[s] <==> FinalBefore(lines, i, s))
                                             && (initials[s] <==> StartBefore(lines, i, s))
      {
        StateInRange(lines, n, i);
        MoreBefore(lines, i);
        if lines[i].start {
          initials[lines[i].state] := true;
        }
        if lines[i].final {
          finals[lines[i].state] := true;
        }
        i := i + 1;
      }
      FlagsBefore(lines);
      this.lines, this.n := lines, n;
      arcsCursor, finalsCursor, initialsCursor := -1, -1, -1;
      finalsHead := Chosen(finals[..], 0);
      initialsHead := Chosen(initials[..], 0);
      ChosenStates(finals[..], n, MachineOf(lines).finals);
      ChosenStates(initials[..], n, MachineOf(lines).starts);
    }

    /** Moves to the next line that carries an arc. */
    method NextArc() returns (ok: bool)
      requires Valid()
      modifies this`arcsCursor
      ensures Valid() && old(arcsCursor) <= arcsCursor
      ensures ok <==> arcsCursor < |lines|
      ensures ok ==> old(arcsCursor) < arcsCursor && lines[arcsCursor].target != -1
      ensures forall k :: old(arcsCursor) < k < arcsCursor ==> lines[k].target == -1
    {
      hide WellFormed, StateList;
      if arcsCursor == |lines| {
        return false;
      }
      arcsCursor := arcsCursor + 1;
      while arcsCursor < |lines| && lines[arcsCursor].target == -1
        invariant Valid() && old(arcsCursor) < arcsCursor <= |lines|
        invariant forall k :: old(arcsCursor) < k < arcsCursor ==> lines[k].target == -1
        decreases |lines| - arcsCursor
      {
        arcsCursor := arcsCursor + 1;
      }
      ok := arcsCursor < |lines|;
    }

    method NextFinal() returns (s: int)
      requires Valid()
      modifies this`finalsCursor
      ensures Valid() && 0 <= finalsCursor && s == finalsHead[finalsCursor]
      ensures finalsCursor == if old(finalsCursor) == |finalsHead| - 1 then old(finalsCursor) else old(finalsCursor) + 1
    {
      hide WellFormed;
      if finalsCursor == -1 {
        finalsCursor := 0;
      } else {
        if finalsHead[finalsCursor] == -1 {
          return -1;
        }
        finalsCursor := finalsCursor + 1;
      }
      s := finalsHead[finalsCursor];
    }

    method NextInitial() returns (s: int)
      requires Valid()
      modifies this`initialsCursor
      ensures Valid() && 0 <= initialsCursor && s == initialsHead[initialsCursor]
      ensures initialsCursor == if old(initialsCursor) ==
              |initialsHead| - 1 then old(initialsCursor) else old(initialsCursor) + 1
    {
      hide WellFormed;
      if initialsCursor == -1 {
        initialsCursor := 0;
      } else {
        if initialsHead[initialsCursor] == -1 {
          return -1;
        }
        initialsCursor := initialsCursor + 1;
      }
      s := initialsHead[initialsCursor];
    }
  }

  function Chosen(flags: seq<bool>, s: int): (r: seq<int>)
    requires 0 <= s <= |flags|
    ensures 0 < |r| <= |flags| - s + 1 && r[|r| - 1] == -1
    decreases |flags| - s
  {
    if s == |flags| then [-1] else (if flags[s] then [s] else []) + Chosen(flags, s + 1)
  }

  lemma {:induction false} ChosenElements(flags: seq<bool>, s: int)
    requires 0 <= s <= |flags|
    ensures forall k :: 0 <= k < |Chosen(flags, s)| - 1 ==> s <= Chosen(flags, s)[k] < |flags|
                                                            && flags[Chosen(flags, s)[k]]
    ensures forall x :: s <= x < |flags| && flags[x] ==> x in Chosen(flags, s)
    decreases |flags| - s
  {
    if s < |flags| {
      ChosenElements(flags, s + 1);
    }
  }

  lemma ChosenStates(flags: seq<bool>, n: nat, chosen: iset<int>)
    requires |flags| == n && forall s :: 0 <= s < n ==> (flags[s] <==> s in chosen)
    ensures StateList(Chosen(flags, 0), n, chosen)
  {
    ChosenElements(flags, 0);
  }

  lemma StateInRange(lines: seq<Line>, n: nat, i: int)
    requires WellFormed(lines, n) && 0 <= i < |lines|
    ensures 0 <= lines[i].state < n
  {
    assert LineOk(lines[i], n);
  }

  // ----- The construction handle -----

  datatype Hop = Hop(lab: Label, target: int)

  datatype Entry = Entry(isFinal: bool, isInitial: bool, trans: seq<Hop>)

  const BLANK := Entry(false, false, [])

  function NextPowerOfTwo(v: nat): (r: nat)
    ensures r > v
  {
    if v == 0 then 1 else 2 * NextPowerOfTwo(v / 2)
  }

  ghost function EntryMachine(list: seq<Entry>): Machine<int> {
    Machine(iset a: Arc<int> | EntryArc(list, a) :: a,
            iset s: int | InitialEntry(list, s) :: s,
            iset s: int | FinalEntry(list, s) :: s)
  }

  ghost predicate InitialEntry(list: seq<Entry>, s: int) {
    0 <= s < |list| && list[s].isInitial
  }

  ghost predicate FinalEntry(list: seq<Entry>, s: int) {
    0 <= s < |list| && list[s].isFinal
  }

  ghost predicate EntryArc(list: seq<Entry>, a: Arc<int>) {
    0 <= a.src < |list| && Hop(a.lab, a.tgt) in list[a.src].trans
  }

  /** Nothing is mentioned beyond `maxstate`. */
  ghost predicate EntriesOk(list: seq<Entry>, maxstate: int) {
    && -1 <= maxstate < |list|
    && (forall s :: maxstate < s < |list| ==> list[s] == BLANK)
    && (forall s, h :: 0 <= s < |list| && h in list[s].trans ==> 0 <= h.target <= maxstate)
  }

  /** How many arcs have been entered. */
  ghost function Hops(list: seq<Entry>): nat {
    if list == [] then 0 else Hops(list[..|list| - 1]) + |list[|list| - 1].trans|
  }

  lemma {:induction false} HopsReplaced(list: seq<Entry>, s: int, e: Entry)
    requires 0 <= s < |list|
    ensures Hops(list[s := e]) == Hops(list) - |list[s].trans| + |e.trans|
    decreases |list|
  {
    var n := |list| - 1;
    if s < n {
      HopsReplaced(list[..n], s, e);
      assert list[s := e][..n] == list[..n][s := e];
    } else {
      assert list[s := e][..n] == list[..n];
    }
  }

  lemma {:induction false} HopsGrown(before: seq<Entry>, list: seq<Entry>)
    requires before <= list && forall s :: |before| <= s < |list| ==> list[s].trans == []
    ensures Hops(list) == Hops(before)
    decreases |list|
  {
    if |before| == |list| {
      assert list == before;
    } else {
      HopsGrown(before, list[..|list| - 1]);
    }
  }

  lemma {:induction false} HopsBelow(list: seq<Entry>, i: nat)
    requires i <= |list|
    ensures Hops(list[..i]) <= Hops(list)
    ensures 0 < i ==> Hops(list[..i]) == Hops(list[..i - 1]) + |list[i - 1].trans|
    decreases |list|
  {
    if 0 < i {
      assert list[..i][..i - 1] == list[..i - 1];
    }
    if i < |list| {
      var n := |list| - 1;
      HopsBelow(list[..n], i);
      assert list[..n][..i] == list[..i];
    } else {
      assert list[..i] == list;
    }
  }

  class ConstructHandle {
    var list: seq<Entry>
    var maxstate: int
    var numFinals: nat
    var hasInitial: bool
    const maxsigma: int

    ghost predicate Valid()
      reads this
    {
      && EntriesOk(list, maxstate) && -1 <= maxstate < |list|
      && (numFinals == 0 <==> forall s :: !FinalEntry(list, s))
      && (!hasInitial ==> forall s :: !InitialEntry(list, s))
    }

    constructor (maxsigma: int)
      ensures Valid() && maxstate == -1 && this.maxsigma == maxsigma && Hops(list) == 0
      ensures EntryMachine(list) == Machine(iset{}, iset{}, iset{})
    {
      list := seq(1024, _ => BLANK);
      maxstate, numFinals, hasInitial := -1, 0, false;
      this.maxsigma := maxsigma;
      new;
      HopsGrown([], list);
      assert EntryMachine(list) == Machine(iset{}, iset{}, iset{});
    }

    method CheckSize(s: nat)
      requires Valid()
      modifies this`list
      ensures Valid() && s < |list| && old(|list|) <= |list|
      ensures EntryMachine(list) == old(EntryMachine(list)) && Hops(list) == old(Hops(list))
    {
      if |list| <= s {
        ghost var before := list;
        var newSize := NextPowerOfTwo(s);
        list := list + seq(newSize - |list|, _ => BLANK);
        Grown(before, list);
        HopsGrown(before, list);
      }
    }

    /** Adds an arc in front of the others of its source. */
    method AddArcNums(source: nat, target: nat, up: int, lo: int)
      requires Valid()
      modifies this`list, this`maxstate
      ensures Valid() && maxstate >= source && maxstate >= target && maxstate >= old(maxstate)
      ensures maxstate == source || maxstate == target || maxstate == old(maxstate)
      ensures EntryMachine(list) == old(EntryMachine(list)).(arcs :=
          old(EntryMachine(list)).arcs + iset{Arc(source, Label(up, lo), target)})
      ensures Hops(list) == old(Hops(list)) + 1
    {
      hide Hops, EntryMachine, InitialEntry, FinalEntry, EntriesOk;
      CheckSize(source);
      CheckSize(target);
      maxstate := if source > maxstate then source else maxstate;
      maxstate := if target > maxstate then target else maxstate;
      ghost var before := list;
      list := list[source := list[source].(trans := [Hop(Label(up, lo), target)] + list[source].trans)];
      HopsReplaced(before, source, list[source]);
      HopAdded(before, list, source, Hop(Label(up, lo), target));
      EntriesHop(before, list, old(maxstate), maxstate, source, Hop(Label(up, lo), target));
    }

    method SetFinal(s: nat)
      requires Valid()
      modifies this`list, this`maxstate, this`numFinals
      ensures Valid() && maxstate >= s && (maxstate == s || maxstate == old(maxstate))
      ensures EntryMachine(list) == old(EntryMachine(list)).(finals := old(EntryMachine(list)).finals + iset{s})
      ensures Hops(list) == old(Hops(list))
    {
      hide Hops;
      CheckSize(s);
      maxstate := if s > maxstate then s else maxstate;
      ghost var before := list;
      if !list[s].isFinal {
        list := list[s := list[s].(isFinal := true)];
        HopsReplaced(before, s, list[s]);
        numFinals := numFinals + 1;
      }
      FlagSet(before, list, s);
    }

    method SetInitial(s: nat)
      requires Valid()
      modifies this`list, this`maxstate, this`hasInitial
      ensures Valid() && maxstate >= s && (maxstate == s || maxstate == old(maxstate)) && hasInitial
      ensures EntryMachine(list) == old(EntryMachine(list)).(starts := old(EntryMachine(list)).starts + iset{s})
      ensures Hops(list) == old(Hops(list))
    {
      hide Hops;
      CheckSize(s);
      maxstate := if s > maxstate then s else maxstate;
      ghost var before := list;
      list := list[s := list[s].(isInitial := true)];
      HopsReplaced(before, s, list[s]);
      hasInitial := true;
      StartSet(before, list, s);
    }
  }

  lemma Grown(before: seq<Entry>, list: seq<Entry>)
    requires before <= list && forall s :: |before| <= s < |list| ==> list[s] == BLANK
    ensures EntryMachine(list) == EntryMachine(before)
    ensures forall s :: InitialEntry(list, s) <==> InitialEntry(before, s)
    ensures forall s :: FinalEntry(list, s) <==> FinalEntry(before, s)
  {
    assert forall s :: 0 <= s < |before| ==> list[s] == before[s];
    forall a ensures EntryArc(list, a) <==> EntryArc(before, a) {
    }
    SameMachine(before, list, iset{}, iset{}, iset{});
  }

  /** The machine grows by what its entries grow by. */
  lemma SameMachine(before: seq<Entry>, list: seq<Entry>, arcs: iset<Arc<int>>, starts: iset<int>, finals: iset<int>)
    requires forall a :: EntryArc(list, a) <==> EntryArc(before, a) || a in arcs
    requires forall s :: InitialEntry(list, s) <==> InitialEntry(before, s) || s in starts
    requires forall s :: FinalEntry(list, s) <==> FinalEntry(before, s) || s in finals
    ensures var m := EntryMachine(before);
            EntryMachine(list) == Machine(m.arcs + arcs, m.starts + starts, m.finals + finals)
  {
    var m, r := EntryMachine(before), EntryMachine(list);
    assert r.arcs == m.arcs + arcs;
    forall s ensures (s in r.starts <==> s in m.starts + starts) && (s in r.finals <==> s in m.finals + finals) {
      assert (s in r.starts <==> InitialEntry(list, s)) && (s in m.starts <==> InitialEntry(before, s));
      assert (s in r.finals <==> FinalEntry(list, s)) && (s in m.finals <==> FinalEntry(before, s));
    }
    assert r.starts == m.starts + starts;
    assert r.finals == m.finals + finals;
  }

  lemma HopAdded(before: seq<Entry>, list: seq<Entry>, s: int, h: Hop)
    requires 0 <= s < |before| && list == before[s := before[s].(trans := [h] + before[s].trans)]
    ensures EntryMachine(list) == EntryMachine(before).(arcs :=
        EntryMachine(before).arcs + iset{Arc(s, h.lab, h.target)})
    ensures forall x :: InitialEntry(list, x) <==> InitialEntry(before, x)
    ensures forall x :: FinalEntry(list, x) <==> FinalEntry(before, x)
  {
    forall a ensures EntryArc(list, a) <==> EntryArc(before, a) || a in iset{Arc(s, h.lab, h.target)} {
      assert Hop(a.lab, a.tgt) == h <==> a.lab == h.lab && a.tgt == h.target;
    }
    SameMachine(before, list, iset{Arc(s, h.lab, h.target)}, iset{}, iset{});
  }

  lemma EntriesHop(before: seq<Entry>, list: seq<Entry>, maxstate: int, maxstate': int, s: int, h: Hop)
    requires 0 <= s <= maxstate' < |before| && list == before[s := before[s].(trans := [h] + before[s].trans)]
    requires EntriesOk(before, maxstate) && 0 <= h.target <= maxstate' && maxstate <= maxstate'
    ensures EntriesOk(list, maxstate')
  {
  }

  lemma FlagSet(before: seq<Entry>, list: seq<Entry>, s: int)
    requires 0 <= s < |before| && list == before[s := before[s].(isFinal := true)]
    ensures EntryMachine(list) == EntryMachine(before).(finals := EntryMachine(before).finals + iset{s})
    ensures forall x :: InitialEntry(list, x) <==> InitialEntry(before, x)
    ensures forall x :: FinalEntry(list, x) <==> FinalEntry(before, x) || x == s
  {
    SameMachine(before, list, iset{}, iset{}, iset{s});
  }

  lemma StartSet(before: seq<Entry>, list: seq<Entry>, s: int)
    requires 0 <= s < |before| && list == before[s := before[s].(isInitial := true)]
    ensures EntryMachine(list) == EntryMachine(before).(starts := EntryMachine(before).starts + iset{s})
    ensures forall x :: InitialEntry(list, x) <==> InitialEntry(before, x) || x == s
    ensures forall x :: FinalEntry(list, x) <==> FinalEntry(before, x)
  {
    SameMachine(before, list, iset{}, iset{s}, iset{});
  }

  // ----- Laying out the constructed net -----

  ghost function UpTo(n: nat): (r: seq<int>)
    ensures |r| == n && forall i :: 0 <= i < n ==> r[i] == i
  {
    seq(n, i => i)
  }

  /** The net so far is the machine on the states below `i`. */
  ghost predicate LaidOut(lines: seq<Line>, m: Machine<int>, count: nat, i: nat, cur: int) {
    && Follows(lines, UpTo(count), m, Indices(i))
    && Finished(lines, UpTo(count), m, Indices(i), cur)
  }

  /** The machine stays below `count`, with symbols below `size`. */
  ghost predicate MachineFits(m: Machine<int>, count: nat, size: int) {
    forall a :: a in m.arcs ==> 0 <= a.src < count && 0 <= a.tgt < count && 0 <= a.lab.upper < size
                                && 0 <= a.lab.lower < size
  }

  ghost predicate HopsEmitted(lines: seq<Line>, count: nat, i: int, trans: seq<Hop>, k: int) {
    forall j :: 0 <= j < k && j < |trans| ==> Emitted(lines, UpTo(count), i, trans[j].lab, trans[j].target)
  }

  lemma OpenState(lines: seq<Line>, m: Machine<int>, count: nat, i: nat)
    requires LaidOut(lines, m, count, i, -1) && i < count
    ensures LaidOut(lines, m, count, i + 1, i) && NoLineOf(lines, i)
  {
    hide AllEmitted;
    FollowsKept(lines, UpTo(count), m, Indices(i), UpTo(count), Indices(i + 1));
    forall t | t in Indices(i + 1) ensures t in UpTo(count) {
      assert UpTo(count)[t] == t;
    }
    forall l | l in lines ensures l.state != i {
      assert LineFollows(l, UpTo(count), m) && UpTo(count)[l.state] in Indices(i);
    }
  }

  lemma HopsKept(lines: seq<Line>, count: nat, i: int, trans: seq<Hop>, k: int, lines': seq<Line>)
    requires HopsEmitted(lines, count, i, trans, k) && lines <= lines'
    ensures HopsEmitted(lines', count, i, trans, k)
  {
    hide Emitted;
    forall j | 0 <= j < k && j < |trans| ensures Emitted(lines', UpTo(count), i, trans[j].lab, trans[j].target) {
      EmittedKept(lines, UpTo(count), i, trans[j].lab, trans[j].target, lines', UpTo(count));
    }
  }

  lemma LaidLine(lines: seq<Line>, m: Machine<int>, count: nat, i: nat, l: Line, lines': seq<Line>)
    requires LaidOut(lines, m, count, i + 1, i) && i < count && l.state == i
    requires (l.final <==> i in m.finals) && (l.start <==> i in m.starts)
    requires if l.target == -1 then l.upper == -1 && l.lower == -1
             else 0 <= l.target < count && 0 <= l.upper && 0 <= l.lower && Arc(i, l.ToLabel(), l.target) in m.arcs
    requires lines' == lines || lines' == lines + [l]
    ensures LaidOut(lines', m, count, i + 1, i)
  {
    hide Finished;
    LineAdded(lines, UpTo(count), m, Indices(i + 1), i, l, lines');
  }

  lemma HopsAreAll(list: seq<Entry>, lines: seq<Line>, count: nat, i: int)
    requires 0 <= i < count <= |list| && HopsEmitted(lines, count, i, list[i].trans, |list[i].trans|)
    ensures AllEmitted(lines, UpTo(count), EntryMachine(list), i)
  {
    hide Emitted;
    forall l, t | Arc(UpTo(count)[i], l, t) in EntryMachine(list).arcs ensures Emitted(lines, UpTo(count), i, l, t) {
      assert EntryArc(list, Arc(i, l, t));
      var j :| 0 <= j < |list[i].trans| && list[i].trans[j] == Hop(l, t);
    }
  }

  lemma EntryFlags(list: seq<Entry>, i: int)
    requires 0 <= i < |list|
    ensures list[i].isFinal <==> i in EntryMachine(list).finals
    ensures list[i].isInitial <==> i in EntryMachine(list).starts
  {
    assert (i in EntryMachine(list).finals <==> FinalEntry(list, i))
           && (i in EntryMachine(list).starts <==> InitialEntry(list, i));
  }

  /** All arcs of one state of the handle. */
  method LayOutState(builder: NetBuilder, list: seq<Entry>, i: nat, ghost count: nat)
    requires builder.Valid() && !builder.open && LaidOut(builder.lines, EntryMachine(list), count, i, -1)
    requires i < count <= |list| && MachineFits(EntryMachine(list), count, builder.slookup.Length0)
    modifies builder, builder.slookup
    ensures builder.Valid() && !builder.open && LaidOut(builder.lines, EntryMachine(list), count, i + 1, -1)
    ensures |builder.lines| <= |old(builder.lines)| + |list[i].trans| + 1
  {
    hide NetBuilder.Valid, LaidOut, HopsEmitted, MachineFits;
    EntryFlags(list, i);
    OpenState(builder.lines, EntryMachine(list), count, i);
    builder.SetCurrentState(i, list[i].isFinal, list[i].isInitial);
    NoHops(builder.lines, count, i, list[i].trans);
    var k := 0;
    while k < |list[i].trans|
      invariant 0 <= k <= |list[i].trans|
      invariant builder.Valid() && builder.open && builder.stateNo == i
      invariant builder.final == list[i].isFinal && builder.start == list[i].isInitial
      invariant LaidOut(builder.lines, EntryMachine(list), count, i + 1, i)
      invariant HopsEmitted(builder.lines, count, i, list[i].trans, k)
      invariant |builder.lines| <= |old(builder.lines)| + k
    {
      LayOutArc(builder, list, i, count, k);
      k := k + 1;
    }
    HopsAreAll(list, builder.lines, count, i);
    ghost var lines := builder.lines;
    builder.EndState();
    LaidLine(lines, EntryMachine(list), count, i, Line(i, -1, -1, -1, list[i].isFinal, list[i].isInitial),
             builder.lines);
    StateLaid(lines, EntryMachine(list), count, i, builder.lines);
  }

  lemma NoHops(lines: seq<Line>, count: nat, i: int, trans: seq<Hop>)
    ensures HopsEmitted(lines, count, i, trans, 0)
  {
  }

  lemma StateLaid(lines: seq<Line>, m: Machine<int>, count: nat, i: nat, lines': seq<Line>)
    requires i < count && AllEmitted(lines, UpTo(count), m, i) && lines <= lines'
    requires LaidOut(lines', m, count, i + 1, i) && HasState(lines', i)
    ensures LaidOut(lines', m, count, i + 1, -1)
  {
    hide AllEmitted, Follows;
    StateFinished(lines, UpTo(count), m, Indices(i + 1), i, lines');
  }

  method LayOutArc(builder: NetBuilder, list: seq<Entry>, i: nat, ghost count: nat, k: int)
    requires builder.Valid() && builder.open && builder.stateNo == i && i < count <= |list| && 0 <= k < |list[i].trans|
    requires builder.final == list[i].isFinal && builder.start == list[i].isInitial
    requires LaidOut(builder.lines, EntryMachine(list), count, i + 1, i)
             && HopsEmitted(builder.lines, count, i, list[i].trans, k)
    requires MachineFits(EntryMachine(list), count, builder.slookup.Length0)
    modifies builder, builder.slookup
    ensures builder.Valid() && builder.open && builder.stateNo == i
    ensures builder.final == list[i].isFinal && builder.start == list[i].isInitial
    ensures LaidOut(builder.lines, EntryMachine(list), count, i + 1, i)
    ensures HopsEmitted(builder.lines, count, i, list[i].trans, k + 1)
    ensures |builder.lines| <= |old(builder.lines)| + 1
  {
    hide NetBuilder.Valid, LaidOut, HopsEmitted, ArcsOf, Emitted;
    EntryFlags(list, i);
    var h := list[i].trans[k];
    assert EntryArc(list, Arc(i, h.lab, h.target));
    assert Arc(i, h.lab, h.target) in EntryMachine(list).arcs;
    ghost var lines := builder.lines;
    builder.AddArc(h.lab.upper, h.lab.lower, h.target);
    LaidLine(lines, EntryMachine(list), count, i, Line(i, h.lab.upper, h.lab.lower, h.target, list[i].isFinal,
                                                       list[i].isInitial), builder.lines);
    EmittedNow(builder.lines, UpTo(count), i, h.lab, h.target);
    HopsKept(lines, count, i, list[i].trans, k, builder.lines);
    HopDone(builder.lines, count, i, list[i].trans, k);
  }

  lemma HopDone(lines: seq<Line>, count: nat, i: int, trans: seq<Hop>, k: int)
    requires HopsEmitted(lines, count, i, trans, k) && 0 <= k < |trans|
             && Emitted(lines, UpTo(count), i, trans[k].lab, trans[k].target)
    ensures HopsEmitted(lines, count, i, trans, k + 1)
  {
  }

  // ----- The finished construction -----

  ghost predicate Whole(m: Machine<int>, count: nat) {
    && (forall a :: a in m.arcs ==> 0 <= a.src < count && 0 <= a.tgt < count)
    && (forall s :: s in m.starts || s in m.finals ==> 0 <= s < count)
  }

  /** A start state has an arc or is final. */
  ghost predicate StartLeads(m: Machine<int>) {
    exists s :: s in m.starts && Leads(m, s)
  }

  ghost predicate Leads(m: Machine<int>, s: int) {
    s in m.finals || exists l :: HasMove(m, s, l)
  }

  /** The result denotes the machine that was entered, up to 0:0 self loops; or nothing, if nothing leaves its start. */
  ghost predicate Constructs(m: Machine<int>, net: seq<Line>, count: nat) {
    && WellFormed(net, count)
    && ((Renames(m, MachineOf(net), UpTo(count)) && Whole(m, count) && StartLeads(m))
        || (net == EMPTY_NET && count == 1 && forall w :: !Accepts(m, w)))
  }

  method ConstructDone(handle: ConstructHandle) returns (net: seq<Line>, count: nat)
    requires handle.Valid() && -1 <= handle.maxsigma
    requires MachineFits(EntryMachine(handle.list), handle.maxstate + 1, handle.maxsigma + 2)
    ensures Constructs(EntryMachine(handle.list), net, count)
    ensures count == handle.maxstate + 1 || count == 1
    ensures |net| <= Hops(handle.list) + count
  {
    hide Hops, NetBuilder.Valid, LaidOut, MachineFits, Renames, StartLeads;
    var list := handle.list;
    EmptyNet();
    if handle.maxstate == -1 || handle.numFinals == 0 || !handle.hasInitial {
      NothingAccepted(list, handle.maxstate);
      return EMPTY_NET, 1;
    }
    count := handle.maxstate + 1;
    var builder := new NetBuilder(handle.maxsigma + 1);
    var emptyfsm := true;
    NothingLaid(EntryMachine(list), count);
    HopsBelow(list, count);
    var i := 0;
    while i <= handle.maxstate
      invariant 0 <= i <= count && fresh(builder) && fresh(builder.slookup) && builder.Valid() && !builder.open
      invariant builder.slookup.Length0 == handle.maxsigma + 2
      invariant LaidOut(builder.lines, EntryMachine(list), count, i, -1)
      invariant emptyfsm ==> forall s :: 0 <= s < i && list[s].isInitial ==> !list[s].isFinal && list[s].trans == []
      invariant !emptyfsm ==> StartLeads(EntryMachine(list))
      invariant |builder.lines| <= Hops(list[..i]) + i
    {
      HopsBelow(list, i + 1);
      LayOutState(builder, list, i, count);
      EntryLeads(list, i);
      if list[i].isInitial && list[i].isFinal {
        emptyfsm := false;
      }
      if list[i].trans != [] && list[i].isInitial {
        emptyfsm := false;
      }
      i := i + 1;
    }
    var flag;
    net, flag := builder.Close();
    if emptyfsm {
      StuckAtStart(list, handle.maxstate);
      return EMPTY_NET, 1;
    }
    AllLaid(list, net, count, handle.maxstate);
  }

  lemma EntryLeads(list: seq<Entry>, i: int)
    requires 0 <= i < |list|
    ensures list[i].isInitial && (list[i].isFinal || list[i].trans != []) ==> StartLeads(EntryMachine(list))
  {
    var m := EntryMachine(list);
    EntryFlags(list, i);
    if list[i].isInitial && list[i].trans != [] {
      var h := list[i].trans[0];
      assert EntryArc(list, Arc(i, h.lab, h.target));
      MoveFound(m, i, h.lab, h.target);
    }
    assert list[i].isInitial && (list[i].isFinal || list[i].trans != []) ==> i in m.starts && Leads(m, i);
  }

  lemma NothingLaid(m: Machine<int>, count: nat)
    ensures LaidOut([], m, count, 0, -1)
  {
  }

  lemma NothingAccepted(list: seq<Entry>, maxstate: int)
    requires EntriesOk(list, maxstate)
    requires maxstate == -1 || (forall s :: !FinalEntry(list, s)) || (forall s :: !InitialEntry(list, s))
    ensures forall w :: !Accepts(EntryMachine(list), w)
  {
    forall w ensures !Accepts(EntryMachine(list), w) {
      if Accepts(EntryMachine(list), w) {
        var p, q := AcceptingPath(EntryMachine(list), w);
        NoEntry(list, maxstate, p, q);
      }
    }
  }

  lemma NoEntry(list: seq<Entry>, maxstate: int, p: int, q: int)
    requires EntriesOk(list, maxstate)
    requires maxstate == -1 || (forall s :: !FinalEntry(list, s)) || (forall s :: !InitialEntry(list, s))
    ensures !(InitialEntry(list, p) && FinalEntry(list, q))
  {
  }

  lemma StuckAtStart(list: seq<Entry>, maxstate: int)
    requires EntriesOk(list, maxstate)
    requires forall s :: 0 <= s <= maxstate && list[s].isInitial ==> !list[s].isFinal && list[s].trans == []
    ensures forall w :: !Accepts(EntryMachine(list), w)
  {
    var m := EntryMachine(list);
    forall w, p | p in m.starts ensures !AcceptsFrom(m, p, w) {
      StuckEntry(list, maxstate, p);
      if w == [] {
        EmptyWord(m, p);
      } else {
        NoMove(m, p, w);
      }
    }
    forall w ensures !Accepts(m, w) {
      if Accepts(m, w) {
        var p, q := AcceptingPath(m, w);
      }
    }
  }

  lemma StuckEntry(list: seq<Entry>, maxstate: int, p: int)
    requires EntriesOk(list, maxstate) && p in EntryMachine(list).starts
    requires forall s :: 0 <= s <= maxstate && list[s].isInitial ==> !list[s].isFinal && list[s].trans == []
    ensures p !in EntryMachine(list).finals && forall l :: !HasMove(EntryMachine(list), p, l)
  {
    assert InitialEntry(list, p) && p <= maxstate;
    assert p in EntryMachine(list).finals <==> FinalEntry(list, p);
    forall l, r ensures Arc(p, l, r) !in EntryMachine(list).arcs {
      assert EntryArc(list, Arc(p, l, r)) <==> Hop(l, r) in list[p].trans;
    }
  }

  lemma AllLaid(list: seq<Entry>, net: seq<Line>, count: nat, maxstate: int)
    requires EntriesOk(list, maxstate) && count == maxstate + 1 > 0 && StartLeads(EntryMachine(list))
    requires LaidOut(net, EntryMachine(list), count, count, -1) && Contiguous(net) && FlagsAgree(net)
    ensures Constructs(EntryMachine(list), net, count)
  {
    hide EntryMachine, Follows, Finished, StartLeads;
    EntriesBounded(list, maxstate, count);
    assert StackOk([], [], UpTo(count), Indices(count));
    ProductRenamed(net, UpTo(count), EntryMachine(list), Indices(count));
    ResultLinesOk(net, UpTo(count), EntryMachine(list), Indices(count));
  }

  lemma EntriesBounded(list: seq<Entry>, maxstate: int, count: nat)
    requires EntriesOk(list, maxstate) && count == maxstate + 1
    ensures forall s :: s in EntryMachine(list).starts ==> s in UpTo(count)
    ensures forall t :: t in Indices(count) ==> t in UpTo(count)
    ensures Whole(EntryMachine(list), count)
  {
    forall a | a in EntryMachine(list).arcs ensures 0 <= a.src < count && 0 <= a.tgt < count {
      assert EntryArc(list, a);
    }
    forall s | s in EntryMachine(list).finals ensures 0 <= s < count {
      assert FinalEntry(list, s);
    }
    forall s | s in EntryMachine(list).starts ensures s in UpTo(count) {
      assert InitialEntry(list, s);
      assert UpTo(count)[s] == s;
    }
    forall t | t in Indices(count) ensures t in UpTo(count) {
      assert UpTo(count)[t] == t;
    }
  }

  // ----- Reversal -----

  ghost predicate TurnedBefore(lines: seq<Line>, i: int, a: Arc<int>) {
    exists k :: 0 <= k < i && k < |lines| && lines[k].target != -1
                && a == Arc(lines[k].target + 1, lines[k].ToLabel(), lines[k].state + 1)
  }

  ghost predicate FinalHop(fs: seq<int>, a: Arc<int>) {
    a.src == 0 && a.lab == EPSILON_PAIR && a.tgt >= 1 && (a.tgt - 1) in fs
  }

  ghost predicate MovedAny(ss: seq<int>, s: int) {
    s >= 1 && (s - 1) in ss
  }

  /** What has been entered after the arcs of `i` lines, the final states `fs` and the start states `ss`. */
  ghost function Entered(lines: seq<Line>, i: int, fs: seq<int>, ss: seq<int>): Machine<int> {
    Machine(iset a: Arc<int> | TurnedBefore(lines, i, a)
            || FinalHop(fs, a) :: a, iset{}, iset s: int | MovedAny(ss, s) :: s)
  }

  lemma ArcEntered(lines: seq<Line>, i: int, j: int)
    requires 0 <= i <= j < |lines| && lines[j].target != -1 && forall k :: i <= k < j ==> lines[k].target == -1
    ensures var m := Entered(lines, i, [], []);
            Entered(lines, j + 1, [], []) == m.(arcs :=
                m.arcs + iset{Arc(lines[j].target + 1, lines[j].ToLabel(), lines[j].state + 1)})
  {
    var m, m' := Entered(lines, i, [], []), Entered(lines, j + 1, [], []);
    var turned := Arc(lines[j].target + 1, lines[j].ToLabel(), lines[j].state + 1);
    forall a ensures a in m'.arcs <==> a in m.arcs || a == turned {
      assert TurnedBefore(lines, j + 1, a) <==> TurnedBefore(lines, i, a) || a == turned;
    }
    assert m'.arcs == m.arcs + iset{turned};
  }

  lemma NoMoreArcs(lines: seq<Line>, i: int)
    requires 0 <= i <= |lines| && forall k :: i <= k < |lines| ==> lines[k].target == -1
    ensures Entered(lines, |lines|, [], []) == Entered(lines, i, [], [])
  {
    forall a ensures TurnedBefore(lines, |lines|, a) <==> TurnedBefore(lines, i, a) {
    }
    assert Entered(lines, |lines|, [], []).arcs == Entered(lines, i, [], []).arcs;
  }

  lemma FinalEntered(lines: seq<Line>, list: seq<int>, k: int)
    requires 0 <= k < |list| && list[k] >= 0
    ensures var m := Entered(lines, |lines|, list[..k], []);
            Entered(lines, |lines|, list[..k + 1], []) == m.(arcs := m.arcs + iset{Arc(0, EPSILON_PAIR, list[k] + 1)})
  {
    var m, m' := Entered(lines, |lines|, list[..k], []), Entered(lines, |lines|, list[..k + 1], []);
    assert list[..k + 1] == list[..k] + [list[k]];
    forall a ensures a in m'.arcs <==> a in m.arcs || a == Arc(0, EPSILON_PAIR, list[k] + 1) {
      assert FinalHop(list[..k + 1], a) <==> FinalHop(list[..k], a) || a == Arc(0, EPSILON_PAIR, list[k] + 1);
    }
    assert m'.arcs == m.arcs + iset{Arc(0, EPSILON_PAIR, list[k] + 1)};
  }

  lemma StartEntered(lines: seq<Line>, fs: seq<int>, list: seq<int>, k: int)
    requires 0 <= k < |list| && list[k] >= 0
    ensures var m := Entered(lines, |lines|, fs, list[..k]);
            Entered(lines, |lines|, fs, list[..k + 1]) == m.(finals := m.finals + iset{list[k] + 1})
  {
    var m, m' := Entered(lines, |lines|, fs, list[..k]), Entered(lines, |lines|, fs, list[..k + 1]);
    assert list[..k + 1] == list[..k] + [list[k]];
    forall s ensures s in m'.finals <==> s in m.finals || s == list[k] + 1 {
      assert MovedAny(list[..k + 1], s) <==> MovedAny(list[..k], s) || s == list[k] + 1;
    }
    assert m'.finals == m.finals + iset{list[k] + 1};
  }

  method EnterArcs(h: ReadHandle, r: ConstructHandle)
    requires h.Valid() && r.Valid() && r.maxstate == -1 && h.arcsCursor == -1
             && EntryMachine(r.list) == Machine(iset{}, iset{}, iset{})
    requires Hops(r.list) == 0
    modifies h`arcsCursor, r`list, r`maxstate
    ensures h.Valid() && r.Valid() && r.maxstate <= h.n && EntryMachine(r.list) == Entered(h.lines, |h.lines|, [], [])
    ensures Hops(r.list) <= |h.lines|
  {
    hide Hops, WellFormed, StateList, EntryMachine, EntriesOk, Entered;
    NothingEntered(h.lines);
    ghost var before := h.arcsCursor;
    var more := h.NextArc();
    while more
      invariant h.Valid() && r.Valid() && r.maxstate <= h.n && -1 <= before <= h.arcsCursor
                && (more <==> h.arcsCursor < |h.lines|)
      invariant more ==> before < h.arcsCursor && h.lines[h.arcsCursor].target != -1
      invariant forall k :: before < k < h.arcsCursor ==> h.lines[k].target == -1
      invariant before < |h.lines| && EntryMachine(r.list) == Entered(h.lines, before + 1, [], [])
                && Hops(r.list) <= before + 1
      decreases |h.lines| - h.arcsCursor
    {
      LineNumbers(h.lines, h.n, h.arcsCursor);
      ArcEntered(h.lines, before + 1, h.arcsCursor);
      var l := h.lines[h.arcsCursor];
      r.AddArcNums(l.target + 1, l.state + 1, l.upper, l.lower);
      before := h.arcsCursor;
      more := h.NextArc();
    }
    NoMoreArcs(h.lines, before + 1);
  }

  lemma NothingEntered(lines: seq<Line>)
    ensures Entered(lines, 0, [], []) == Machine(iset{}, iset{}, iset{})
  {
    assert Entered(lines, 0, [], []).arcs == iset{};
    assert Entered(lines, 0, [], []).finals == iset{};
  }

  lemma LineNumbers(lines: seq<Line>, n: nat, i: int)
    requires WellFormed(lines, n) && 0 <= i < |lines| && lines[i].target != -1
    ensures 0 <= lines[i].state < n && 0 <= lines[i].target < n && 0 <= lines[i].upper && 0 <= lines[i].lower
  {
    assert LineOk(lines[i], n);
  }

  method EnterFinals(h: ReadHandle, r: ConstructHandle)
    requires h.Valid() && r.Valid() && r.maxstate <= h.n && h.finalsCursor == -1
             && EntryMachine(r.list) == Entered(h.lines, |h.lines|, [], [])
    modifies h`finalsCursor, r`list, r`maxstate
    ensures h.Valid() && r.Valid() && r.maxstate <= h.n
            && EntryMachine(r.list) == Entered(h.lines, |h.lines|, h.finalsHead[..|h.finalsHead| - 1], [])
    ensures Hops(r.list) <= old(Hops(r.list)) + h.n
  {
    hide Hops, WellFormed, EntryMachine, EntriesOk, Entered;
    var i := h.NextFinal();
    assert h.finalsHead[..0] == [];
    while i != -1
      invariant h.Valid() && r.Valid() && r.maxstate <= h.n && 0 <= h.finalsCursor && i == h.finalsHead[h.finalsCursor]
      invariant EntryMachine(r.list) == Entered(h.lines, |h.lines|, h.finalsHead[..h.finalsCursor], [])
      invariant Hops(r.list) <= old(Hops(r.list)) + h.finalsCursor
      decreases |h.finalsHead| - h.finalsCursor
    {
      FinalEntered(h.lines, h.finalsHead, h.finalsCursor);
      r.AddArcNums(0, i + 1, EPSILON, EPSILON);
      i := h.NextFinal();
    }
  }

  method EnterInitials(h: ReadHandle, r: ConstructHandle, ghost fs: seq<int>)
    requires h.Valid() && r.Valid() && r.maxstate <= h.n && h.initialsCursor == -1
             && EntryMachine(r.list) == Entered(h.lines, |h.lines|, fs, [])
    modifies h`initialsCursor, r`list, r`maxstate, r`numFinals
    ensures h.Valid() && r.Valid() && r.maxstate <= h.n
            && EntryMachine(r.list) == Entered(h.lines, |h.lines|, fs, h.initialsHead[..|h.initialsHead| - 1])
    ensures Hops(r.list) == old(Hops(r.list))
  {
    hide Hops, WellFormed, EntryMachine, EntriesOk, Entered;
    var i := h.NextInitial();
    assert h.initialsHead[..0] == [];
    while i != -1
      invariant h.Valid() && r.Valid() && r.maxstate <= h.n && 0 <= h.initialsCursor
                && i == h.initialsHead[h.initialsCursor]
      invariant EntryMachine(r.list) == Entered(h.lines, |h.lines|, fs, h.initialsHead[..h.initialsCursor])
      invariant Hops(r.list) == old(Hops(r.list))
      decreases |h.initialsHead| - h.initialsCursor
    {
      StartEntered(h.lines, fs, h.initialsHead, h.initialsCursor);
      r.SetFinal(i + 1);
      i := h.NextInitial();
    }
  }

  /** Everything entered is the reversed machine. */
  lemma AllEntered(lines: seq<Line>, n: nat, fs: seq<int>, ss: seq<int>)
    requires WellFormed(lines, n) && StateList(fs, n, MachineOf(lines).finals)
             && StateList(ss, n, MachineOf(lines).starts)
    ensures var m := Entered(lines, |lines|, fs[..|fs| - 1], ss[..|ss| - 1]);
            m.(starts := m.starts + iset{0}) == ReversedMachine(MachineOf(lines))
  {
    var m, r := Entered(lines, |lines|, fs[..|fs| - 1], ss[..|ss| - 1]), ReversedMachine(MachineOf(lines));
    LinesInRange(lines, n);
    FinalsInRange(lines, n);
    forall a ensures a in m.arcs <==> a in r.arcs {
      TurnedIsReversed(lines, n, a);
      ListedStates(fs, n, MachineOf(lines).finals, a.tgt - 1);
      assert a in r.arcs <==> ReversedArc(MachineOf(lines), a);
    }
    forall s ensures s in m.finals <==> s in r.finals {
      ListedStates(ss, n, MachineOf(lines).starts, s - 1);
      assert s in r.finals <==> MovedStart(MachineOf(lines), s);
      assert s in m.finals <==> MovedAny(ss[..|ss| - 1], s);
    }
    assert m.arcs == r.arcs;
    assert m.finals == r.finals;
  }

  lemma ListedStates(list: seq<int>, n: nat, chosen: iset<int>, s: int)
    requires StateList(list, n, chosen) && forall x :: x in chosen ==> 0 <= x < n
    ensures s in list[..|list| - 1] <==> s in chosen
  {
    if s in chosen {
      var k :| 0 <= k < |list| && list[k] == s;
      assert list[..|list| - 1][k] == s;
    }
  }

  lemma FinalsInRange(lines: seq<Line>, n: nat)
    requires WellFormed(lines, n)
    ensures forall s :: s in MachineOf(lines).finals ==> 0 <= s < n
  {
    forall l | l in lines ensures 0 <= l.state < n {
      var k :| 0 <= k < |lines| && lines[k] == l;
      assert LineOk(lines[k], n);
    }
  }

  lemma TurnedIsReversed(lines: seq<Line>, n: nat, a: Arc<int>)
    requires WellFormed(lines, n)
    ensures TurnedBefore(lines, |lines|, a) <==> a.src >= 1 && a.tgt >= 1
                                                 && Arc(a.tgt - 1, a.lab, a.src - 1) in ArcsOf(lines)
  {
    hide WellFormed;
    if TurnedBefore(lines, |lines|, a) {
      var k :| 0 <= k < |lines| && lines[k].target != -1
      && a == Arc(lines[k].target + 1, lines[k].ToLabel(), lines[k].state + 1);
      LineNumbers(lines, n, k);
      LineIsArc(lines, k);
    }
    if a.src >= 1 && a.tgt >= 1 && Arc(a.tgt - 1, a.lab, a.src - 1) in ArcsOf(lines) {
      var k := ArcLine(lines, Arc(a.tgt - 1, a.lab, a.src - 1));
      assert a == Arc(lines[k].target + 1, lines[k].ToLabel(), lines[k].state + 1);
    }
  }

  /** Turns the net around; a fresh state 0 leads to the old final states. */
  method Reverse(lines: seq<Line>, n: nat, maxsigma: int) returns (net: seq<Line>, count: nat)
    requires WellFormed(lines, n) && SymbolsUpTo(lines, maxsigma) && -1 <= maxsigma
    ensures Constructs(ReversedMachine(MachineOf(lines)), net, count)
    ensures forall v :: AcceptsErased(MachineOf(net), v) <==> AcceptsErased(MachineOf(lines), Rev(v))
    ensures count <= n + 1 && |net| <= |lines| + 2 * n + 1
    ensures SymbolsUpTo(net, LargestSymbol(maxsigma))
  {
    hide Hops, WellFormed, EntryMachine, EntriesOk, Entered, Renames, ReversedMachine, UpTo;
    var inh := new ReadHandle(lines, n);
    var revh := new ConstructHandle(maxsigma);
    EnterArcs(inh, revh);
    EnterFinals(inh, revh);
    EnterInitials(inh, revh, inh.finalsHead[..|inh.finalsHead| - 1]);
    revh.SetInitial(0);
    AllEntered(lines, n, inh.finalsHead, inh.initialsHead);
    ReversedFits(lines, n, maxsigma, revh.list, revh.maxstate);
    net, count := ConstructDone(revh);
    ConstructedLanguage(lines, n, net, count);
    ConstructedSymbols(lines, n, maxsigma, net, count);
  }

  /** The new arcs carry EPSILON, whatever the alphabet of the net. */
  function LargestSymbol(maxsigma: int): int {
    if maxsigma < EPSILON then EPSILON else maxsigma
  }

  lemma ConstructedSymbols(lines: seq<Line>, n: nat, maxsigma: int, net: seq<Line>, count: nat)
    requires WellFormed(lines, n) && SymbolsUpTo(lines, maxsigma)
             && Constructs(ReversedMachine(MachineOf(lines)), net, count)
    ensures SymbolsUpTo(net, LargestSymbol(maxsigma))
  {
    hide ReversedMachine, StartLeads, Whole;
    var m := ReversedMachine(MachineOf(lines));
    if net != EMPTY_NET {
      forall l | l in net ensures l.upper <= LargestSymbol(maxsigma) && l.lower <= LargestSymbol(maxsigma) {
        var k :| 0 <= k < |net| && net[k] == l;
        assert LineOk(net[k], count);
        if l.target >= 0 {
          var a := l.ToArc();
          assert a in MachineOf(net).arcs;
          var keys := UpTo(count);
          assert Arc(keys[a.src], a.lab, keys[a.tgt]) in m.arcs;
          ReversedSymbols(lines, n, maxsigma, a);
        }
      }
    }
  }

  lemma ReversedSymbols(lines: seq<Line>, n: nat, maxsigma: int, a: Arc<int>)
    requires WellFormed(lines, n) && SymbolsUpTo(lines, maxsigma) && a in ReversedMachine(MachineOf(lines)).arcs
    ensures a.lab.upper <= LargestSymbol(maxsigma) && a.lab.lower <= LargestSymbol(maxsigma)
  {
    assert ReversedArc(MachineOf(lines), a);
    if a.lab != EPSILON_PAIR {
      var k := ArcLine(lines, Arc(a.tgt - 1, a.lab, a.src - 1));
      assert lines[k] in lines;
    }
  }

  lemma ReversedFits(lines: seq<Line>, n: nat, maxsigma: int, list: seq<Entry>, maxstate: int)
    requires WellFormed(lines, n) && SymbolsUpTo(lines, maxsigma) && -1 <= maxsigma && EntriesOk(list, maxstate)
    requires EntryMachine(list) == ReversedMachine(MachineOf(lines))
    ensures MachineFits(EntryMachine(list), maxstate + 1, maxsigma + 2)
  {
    forall a | a in EntryMachine(list).arcs
      ensures 0 <= a.src <= maxstate && 0 <= a.tgt <= maxstate && 0 <= a.lab.upper < maxsigma + 2
              && 0 <= a.lab.lower < maxsigma + 2
    {
      assert EntryArc(list, a);
      assert a.src <= maxstate;
      assert ReversedArc(MachineOf(lines), a);
      if a.src >= 1 {
        var k := ArcLine(lines, Arc(a.tgt - 1, a.lab, a.src - 1));
        LineNumbers(lines, n, k);
        assert lines[k] in lines;
      }
    }
  }

  lemma ConstructedLanguage(lines: seq<Line>, n: nat, net: seq<Line>, count: nat)
    requires WellFormed(lines, n) && Constructs(ReversedMachine(MachineOf(lines)), net, count)
    ensures forall v :: AcceptsErased(MachineOf(net), v) <==> AcceptsErased(MachineOf(lines), Rev(v))
  {
    var m := MachineOf(lines);
    LinesNonNegative(lines, n);
    ReversedLanguage(m);
    if Renames(ReversedMachine(m), MachineOf(net), UpTo(count)) {
      RenamingKeepsLanguage(ReversedMachine(m), MachineOf(net), UpTo(count));
    } else {
      EmptyNet();
    }
  }

  lemma LinesNonNegative(lines: seq<Line>, n: nat)
    requires WellFormed(lines, n)
    ensures NonNegative(MachineOf(lines))
  {
    LinesInRange(lines, n);
    FinalsInRange(lines, n);
  }
}
