/**
 The lexicon compiler's states: lexicon states, and between them a prefix-shared trie of word
 entries. Adding a word adds exactly one entry.
 */
module Lexicon {
  import opened Automata

  datatype Trans = Trans(lab: Label, target: int)

  /** Merge marks: may be merged into another suffix or not, or has been. */
  const FIXED: int := 0
  const MERGEABLE: int := 1
  const MERGED: int := 2

  /**
   One state; states are named by creation order. `lexstate` is the state's own number if it is
   the state of a lexicon, and -1 otherwise.
   */
  datatype State = State(trans: seq<Trans>, lexstate: int, mergeable: int, distance: nat, hashval: bv32, mergeWith: int)

  /** Hash of the symbols that remain until the next lexicon. */
  function SuffixHash(w: seq<Label>, h: bv32): bv32 {
    if w == [] then h
    else
      var up, lo := (w[0].upper % 0x1_0000_0000) as bv32, (w[0].lower % 0x1_0000_0000) as bv32;
      var x := (h << 4) + (up | (lo << 8));
      var g := x & 0xf000_0000;
      SuffixHash(w[1..], if g != 0 then (x ^ (g >> 24)) ^ g else x)
  }

  // ----- Entries -----

  ghost predicate IsLexicon(states: seq<State>, k: int) {
    0 <= k < |states| && states[k].lexstate != -1
  }

  /** A path spelling `w` from `p` to the lexicon state `q` that crosses no other lexicon state. */
  ghost predicate Entry(states: seq<State>, p: int, w: seq<Label>, q: int)
    decreases |w|, 1
  {
    w != [] && 0 <= p < |states| && exists t :: t in states[p].trans && Continues(states, t, w, q)
  }

  ghost predicate Continues(states: seq<State>, t: Trans, w: seq<Label>, q: int)
    requires w != []
    decreases |w|, 0
  {
    && t.lab == w[0]
    && (if IsLexicon(states, t.target) then |w| == 1 && t.target == q else Entry(states, t.target, w[1..], q))
  }

  // ----- The trie -----

  /** Where a state hangs: the lexicon state it belongs to and the word that leads there. */
  datatype Address = Address(root: int, word: seq<Label>)

  ghost predicate ChildOf(states: seq<State>, p: int, k: int) {
    0 <= p < |states| && exists t :: t in states[p].trans && t.target == k
  }

  ghost predicate HasParent(states: seq<State>, k: int) {
    exists p :: ChildOf(states, p, k)
  }

  ghost predicate StateOk(states: seq<State>, addr: seq<Address>, k: int)
    requires 0 <= k < |states| == |addr|
  {
    && (states[k].lexstate == -1 || (states[k].lexstate == k && addr[k] == Address(k, [])))
    && (states[k].lexstate == -1 ==> addr[k].word != [] && IsLexicon(states, addr[k].root) && HasParent(states, k))
    && (forall t :: t in states[k].trans ==> TransOk(states, addr, k, t))
  }

  ghost predicate TransOk(states: seq<State>, addr: seq<Address>, k: int, t: Trans)
    requires 0 <= k < |states| == |addr|
  {
    && 0 <= t.target < |states|
    && (IsLexicon(states, t.target) || addr[t.target] == Address(addr[k].root, addr[k].word + [t.lab]))
  }

  /** Between lexicon states hangs a trie: every state has one address, and arcs extend addresses. */
  ghost predicate TrieOk(states: seq<State>, addr: seq<Address>) {
    && |addr| == |states| && Distinct(addr)
    && forall k :: 0 <= k < |states| ==> StateOk(states, addr, k)
  }

  /** An entry read off the addresses: its last arc leaves the state at the rest of its word. */
  ghost predicate EndsAt(states: seq<State>, addr: seq<Address>, x: int, t: Trans, p: int, w: seq<Label>, q: int) {
    && |addr| == |states| && 0 <= x < |states| && t in states[x].trans && t.target == q && IsLexicon(states, q)
    && addr[x].root == p && w == addr[x].word + [t.lab]
  }

  ghost predicate Listed(states: seq<State>, addr: seq<Address>, p: int, w: seq<Label>, q: int) {
    exists x, t :: EndsAt(states, addr, x, t, p, w, q)
  }

  lemma {:induction false} EntryListed(states: seq<State>, addr: seq<Address>, x: int, w: seq<Label>, q: int)
    requires TrieOk(states, addr) && Entry(states, x, w, q)
    ensures 0 <= x < |states| && Listed(states, addr, addr[x].root, addr[x].word + w, q)
    decreases |w|
  {
    var t :| t in states[x].trans && Continues(states, t, w, q);
    assert StateOk(states, addr, x) && TransOk(states, addr, x, t);
    if IsLexicon(states, t.target) {
      assert w == [t.lab];
      assert EndsAt(states, addr, x, t, addr[x].root, addr[x].word + w, q);
    } else {
      EntryListed(states, addr, t.target, w[1..], q);
      assert addr[x].word + [t.lab] + w[1..] == addr[x].word + w;
    }
  }

  /** Every state is reached from its lexicon state along its address. */
  lemma {:induction false} ListedEntry(states: seq<State>, addr: seq<Address>, x: int, w: seq<Label>, q: int)
    requires TrieOk(states, addr) && 0 <= x < |states| && Entry(states, x, w, q)
    ensures Entry(states, addr[x].root, addr[x].word + w, q)
    decreases |addr[x].word|
  {
    hide TrieOk, Entry, IsLexicon;
    AddressWords(states, addr, x);
    if states[x].lexstate != -1 {
      assert [] + w == w;
    } else {
      var p, longer := EntryAbove(states, addr, x, w, q);
      ListedEntry(states, addr, p, longer, q);
    }
  }

  lemma AddressWords(states: seq<State>, addr: seq<Address>, x: int)
    requires TrieOk(states, addr) && 0 <= x < |states|
    ensures |addr| == |states| && (states[x].lexstate != -1 ==> addr[x] == Address(x, []))
  {
    assert StateOk(states, addr, x);
  }

  /** One step up the trie. */
  lemma EntryAbove(states: seq<State>, addr: seq<Address>, x: int, w: seq<Label>, q: int)
    returns (p: int, longer: seq<Label>)
    requires TrieOk(states, addr) && 0 <= x < |states| && states[x].lexstate == -1 && Entry(states, x, w, q)
    ensures 0 <= p < |states| && Entry(states, p, longer, q) && |addr[p].word| < |addr[x].word|
    ensures addr[p].root == addr[x].root && addr[p].word + longer == addr[x].word + w
  {
    assert StateOk(states, addr, x);
    p :| ChildOf(states, p, x);
    var t :| t in states[p].trans && t.target == x;
    assert StateOk(states, addr, p) && TransOk(states, addr, p, t);
    longer := [t.lab] + w;
    assert longer[1..] == w;
    assert Continues(states, t, longer, q);
    assert addr[p].word + longer == addr[x].word + w;
  }

  /** Entries are exactly what the addresses list. */
  lemma EntryIsListed(states: seq<State>, addr: seq<Address>, p: int, w: seq<Label>, q: int)
    requires TrieOk(states, addr) && IsLexicon(states, p)
    ensures Entry(states, p, w, q) <==> Listed(states, addr, p, w, q)
  {
    assert StateOk(states, addr, p);
    if Entry(states, p, w, q) {
      EntryListed(states, addr, p, w, q);
      assert [] + w == w;
    }
    if Listed(states, addr, p, w, q) {
      var x, t :| EndsAt(states, addr, x, t, p, w, q);
      assert Continues(states, t, [t.lab], q);
      ListedEntry(states, addr, x, [t.lab], q);
    }
  }

  // ----- Suffix chains -----

  /** The word that a chain of `d` states spells. */
  ghost function ChainWord(states: seq<State>, k: int, d: nat): seq<Label>
    decreases d
  {
    if d == 0 || !(0 <= k < |states|) || states[k].trans == [] then []
    else [states[k].trans[0].lab] + ChainWord(states, k + 1, d - 1)
  }

  /** A single arc to the next state of the chain, or at its end to a lexicon state. */
  ghost predicate Link(states: seq<State>, k: int)
    requires 0 <= k < |states|
  {
    var s := states[k];
    && s.lexstate == -1 && s.distance >= 1 && |s.trans| == 1
    && (if s.distance == 1 then IsLexicon(states, s.trans[0].target)
        else s.trans[0].target == k + 1 < |states| && states[k + 1].mergeable == MERGEABLE
             && states[k + 1].distance == s.distance - 1)
  }

  /** What the marks promise: a mergeable state starts a private chain of known length to a lexicon state. */
  ghost predicate MarkOk(states: seq<State>, k: int)
    requires 0 <= k < |states|
  {
    && (states[k].mergeable == FIXED || states[k].mergeable == MERGEABLE) && states[k].mergeWith == k
    && (states[k].lexstate != -1 ==> states[k].mergeable == FIXED)
    && (states[k].mergeable == MERGEABLE ==> Link(states, k))
  }

  ghost predicate HashOk(states: seq<State>, k: int)
    requires 0 <= k < |states|
  {
    states[k].mergeable == MERGEABLE ==> states[k].hashval == SuffixHash(ChainWord(states, k, states[k].distance), 0)
  }

  ghost predicate MarksOk(states: seq<State>) {
    forall k :: 0 <= k < |states| ==> MarkOk(states, k) && HashOk(states, k)
  }

  ghost predicate Bounded(states: seq<State>, maxlen: nat) {
    forall k :: 0 <= k < |states| && states[k].mergeable == MERGEABLE ==> states[k].distance <= maxlen
  }

  // ----- Following a prefix -----

  /** Only merge marks differ. */
  ghost predicate SameShape(states: seq<State>, states': seq<State>) {
    && |states'| == |states|
    && forall k :: 0 <= k < |states| ==> states'[k] == states[k].(mergeable := states'[k].mergeable)
  }

  lemma ShapeKeeps(states: seq<State>, states': seq<State>, addr: seq<Address>)
    requires SameShape(states, states')
    ensures TrieOk(states, addr) ==> TrieOk(states', addr)
    ensures forall p, w, q :: Listed(states', addr, p, w, q) <==> Listed(states, addr, p, w, q)
    ensures forall k :: IsLexicon(states', k) <==> IsLexicon(states, k)
  {
    if TrieOk(states, addr) {
      forall k | 0 <= k < |states'| ensures StateOk(states', addr, k) {
        assert StateOk(states, addr, k);
        if HasParent(states, k) {
          ShapeParent(states, states', k);
        }
        forall t | t in states'[k].trans ensures TransOk(states', addr, k, t) {
          assert TransOk(states, addr, k, t);
        }
      }
    }
    forall p, w, q ensures Listed(states', addr, p, w, q) <==> Listed(states, addr, p, w, q) {
      if x, t :| EndsAt(states, addr, x, t, p, w, q) {
        assert EndsAt(states', addr, x, t, p, w, q);
      }
      if x, t :| EndsAt(states', addr, x, t, p, w, q) {
        assert EndsAt(states, addr, x, t, p, w, q);
      }
    }
  }

  lemma ShapeParent(states: seq<State>, states': seq<State>, k: int)
    requires SameShape(states, states') && HasParent(states, k)
    ensures HasParent(states', k)
  {
    var p :| ChildOf(states, p, k);
    assert ChildOf(states', p, k);
  }

  lemma {:induction false} ShapeWord(states: seq<State>, states': seq<State>, k: int, d: nat)
    requires SameShape(states, states')
    ensures ChainWord(states', k, d) == ChainWord(states, k, d)
    decreases d
  {
    if d > 0 {
      ShapeWord(states, states', k + 1, d - 1);
    }
  }

  /** A state whose parent is fixed may be fixed too: no chain runs through it any more. */
  lemma Fixed(states: seq<State>, addr: seq<Address>, p: int, t: Trans)
    requires TrieOk(states, addr) && MarksOk(states) && 0 <= p < |states| && states[p].mergeable == FIXED
    requires t in states[p].trans && !IsLexicon(states, t.target)
    ensures 0 <= t.target < |states|
    ensures MarksOk(states[t.target := states[t.target].(mergeable := FIXED)])
  {
    assert StateOk(states, addr, p) && TransOk(states, addr, p, t);
    var states' := states[t.target := states[t.target].(mergeable := FIXED)];
    forall k | 0 <= k < |states| ensures MarkOk(states', k) && HashOk(states', k) {
      assert MarkOk(states, k) && HashOk(states, k);
      ShapeWord(states, states', k, states[k].distance);
      if k != t.target && states[k].mergeable == MERGEABLE && states[k].distance > 1 {
        OnlyParent(states, addr, p, t, k);
      }
    }
  }

  /** A chain link into a state can only come from its one parent. */
  lemma OnlyParent(states: seq<State>, addr: seq<Address>, p: int, t: Trans, k: int)
    requires TrieOk(states, addr) && 0 <= p < |states| && t in states[p].trans && !IsLexicon(states, t.target)
    requires 0 <= k < |states| && |states[k].trans| == 1
    ensures states[k].trans[0].target == t.target ==> k == p
  {
    assert StateOk(states, addr, p) && TransOk(states, addr, p, t);
    assert StateOk(states, addr, k) && TransOk(states, addr, k, states[k].trans[0]);
    if states[k].trans[0].target == t.target {
      AddressEnds(addr[p], t.lab, addr[k], states[k].trans[0].lab);
    }
  }

  lemma AddressEnds(a: Address, l: Label, b: Address, m: Label)
    ensures Address(a.root, a.word + [l]) == Address(b.root, b.word + [m]) ==> a == b && l == m
  {
    if a.word + [l] == b.word + [m] {
      assert (a.word + [l])[..|a.word|] == a.word && (b.word + [m])[..|b.word|] == b.word;
    }
  }

  /** No arc on this symbol to another trie state. */
  ghost predicate NoBranch(states: seq<State>, cur: int, lab: Label) {
    0 <= cur < |states| && forall t :: t in states[cur].trans && t.lab == lab ==> IsLexicon(states, t.target)
  }

  class LexiconBuilder {
    var states: seq<State>
    var maxlen: nat
    ghost var addr: seq<Address>

    ghost predicate Valid()
      reads this
    {
      |addr| == |states| && TrieOk(states, addr) && MarksOk(states) && Bounded(states, maxlen)
    }

    constructor ()
      ensures Valid() && states == []
    {
      states, maxlen, addr := [], 0, [];
    }

    /** A new lexicon state. */
    method AddLexicon() returns (k: int)
      requires Valid()
      modifies this`states, this`addr
      ensures Valid() && k == |old(states)| && IsLexicon(states, k) && |states| == k + 1
      ensures forall p :: IsLexicon(old(states), p) ==> IsLexicon(states, p)
      ensures forall p, w, q :: IsLexicon(old(states), p) ==> (Entry(states, p, w, q) <==> Entry(old(states), p, w, q))
      ensures forall w, q :: !Entry(states, k, w, q)
    {
      hide TrieOk, MarksOk, Listed, Entry;
      k := |states|;
      LexiconAdded(states, addr, maxlen);
      states := states + [State([], |states|, FIXED, 0, 0, |states|)];
      addr := addr + [Address(k, [])];
      ghost var before, addr0 := old(states), old(addr);
      forall p, w, q | IsLexicon(before, p) ensures Entry(states, p, w, q) <==> Entry(before, p, w, q) {
        EntryIsListed(before, addr0, p, w, q);
        EntryIsListed(states, addr, p, w, q);
      }
      forall w, q ensures !Entry(states, k, w, q) {
        EntryIsListed(states, addr, k, w, q);
      }
    }

    /** The target of the first arc of `cur` that the word may follow at its `i`th symbol, or -1. */
    method FindBranch(cur: int, lab: Label, last: bool, dest: int) returns (target: int)
      requires Valid() && 0 <= cur < |states| && IsLexicon(states, dest)
      ensures target != -1 ==> !last && !IsLexicon(states, target) && Trans(lab, target) in states[cur].trans
      ensures target == -1 && !last ==> NoBranch(states, cur, lab)
    {
      hide MarksOk;
      var trans := states[cur].trans;
      var i := 0;
      while i < |trans|
        invariant 0 <= i <= |trans|
        invariant forall j :: 0 <= j < i && trans[j].lab == lab && !last ==> IsLexicon(states, trans[j].target)
      {
        assert StateOk(states, addr, cur) && TransOk(states, addr, cur, trans[i]);
        if trans[i].lab == lab && states[trans[i].target].lexstate == -1 {
          if !(last && trans[i].target != dest) {
            return trans[i].target;
          }
        }
        i := i + 1;
      }
      target := -1;
    }

    /** Follows the word along existing arcs as far as it goes; what is passed can no longer be merged. */
    method Follow(source: int, w: seq<Label>, dest: int) returns (cur: int, i: nat)
      requires Valid() && IsLexicon(states, source) && IsLexicon(states, dest) && w != []
      modifies this`states
      ensures Valid() && SameShape(old(states), states)
      ensures 0 <= cur < |states| && i < |w| && addr[cur] == Address(source, w[..i]) && states[cur].mergeable == FIXED
      ensures i + 1 < |w| ==> NoBranch(states, cur, w[i])
    {
      hide TrieOk, MarksOk, Bounded, NoBranch;
      cur, i := source, 0;
      LexiconFixed(states, addr, source);
      assert w[..0] == [];
      while true
        invariant Valid() && SameShape(old(states), states)
        invariant 0 <= cur < |states| && i < |w| && addr[cur] == Address(source, w[..i])
                  && states[cur].mergeable == FIXED
        invariant IsLexicon(states, dest)
        decreases |w| - i
      {
        var target := FindBranch(cur, w[i], i + 1 == |w|, dest);
        if target == -1 {
          break;
        }
        FollowedArc(states, addr, maxlen, cur, Trans(w[i], target));
        assert w[..i + 1] == w[..i] + [w[i]];
        ghost var before := states;
        states := states[target := states[target].(mergeable := FIXED)];
        ShapeKeeps(before, states, addr);
        cur := target;
        i := i + 1;
      }
    }

    /** Hangs the rest of the word below `cur`: new states for its inner symbols, and an arc to `dest` at the end. */
    method Append(cur0: int, i: nat, w: seq<Label>, dest: int, ghost source: int)
      requires Valid() && IsLexicon(states, dest) && |w| <= maxlen + 1
      requires 0 <= cur0 < |states| && i < |w| && addr[cur0] == Address(source, w[..i])
               && states[cur0].mergeable == FIXED
      requires i + 1 < |w| ==> NoBranch(states, cur0, w[i])
      modifies this`states, this`addr
      ensures Valid() && |old(states)| <= |states|
      ensures forall k :: IsLexicon(old(states), k) ==> IsLexicon(states, k)
      ensures forall p, u, q :: Listed(states, addr, p, u, q) <==> Listed(old(states), old(addr), p, u, q)
                                                                   || (p == source && u == w && q == dest)
    {
      hide TrieOk, MarksOk, Bounded, NoBranch, Listed, Open, MarksBelow, SuffixHash, WithState, WithArc;
      ghost var states0, addr0 := states, addr;
      ghost var base, tail := |states|, w[i + 1..];
      AllMarksBelow(states);
      AddressCount(states, addr);
      var cur, j := cur0, i;
      while j + 1 < |w|
        invariant i <= j < |w| && 0 <= cur < |states| && |states0| <= |states| && TrieOk(states, addr)
                  && |addr| == |states|
        invariant j == i ==> states == states0 && addr == addr0 && cur == cur0
        invariant j > i ==> Open(states, base, tail) && cur == |states| - 1 == base + j - i - 1
        invariant Bounded(states, maxlen) && MarksBelow(states, base) && addr[cur] == Address(source, w[..j])
        invariant j + 1 < |w| ==> NoBranch(states, cur, w[j])
        invariant forall k :: IsLexicon(states0, k) ==> IsLexicon(states, k)
        invariant forall p, u, q :: Listed(states, addr, p, u, q) <==> Listed(states0, addr0, p, u, q)
      {
        assert w[j + 1..] == tail[j - i..];
        assert w[..j + 1] == w[..j] + [w[j]];
        StateGrown(states, addr, base, tail, maxlen, cur, w[j], w[j + 1..], j == i);
        states, addr, cur := WithState(states, cur, w[j], w[j + 1..]),
        addr + [Address(addr[cur].root, addr[cur].word + [w[j]])], |states|;
        j := j + 1;
      }
      assert w[..j] + [w[j]] == w;
      ArcGrown(states, addr, base, tail, maxlen, cur, w[j], dest, j == i);
      forall p, u, q ensures Listed(WithArc(states, cur, Trans(w[j], dest)), addr, p, u, q) <==>
                             Listed(states0, addr0, p, u, q) || (p == source && u == w && q == dest)
      {
        ArcLists(states, addr, cur, Trans(w[j], dest), p, u, q);
      }
      states := WithArc(states, cur, Trans(w[j], dest));
    }

    /** Adds the pair string `w` as an entry of the lexicon `source` that continues in `dest`. */
    method AddWord(source: int, dest: int, w: seq<Label>)
      requires Valid() && IsLexicon(states, source) && IsLexicon(states, dest)
      modifies this
      ensures Valid() && |old(states)| <= |states| && forall k :: IsLexicon(old(states), k) ==> IsLexicon(states, k)
      ensures forall p, u, q :: IsLexicon(old(states), p) ==>
                (Entry(states, p, u, q) <==> Entry(old(states), p, u, q)
                                             || (w != [] && p == source && u == w && q == dest))
    {
      hide TrieOk, MarksOk, Listed, Entry;
      ghost var states0, addr0 := states, addr;
      maxlen := if |w| > maxlen then |w| else maxlen;
      MoreBounded(states, old(maxlen), maxlen);
      if w == [] {
        return;
      }
      var cur, i := Follow(source, w, dest);
      ShapeKeeps(states0, states, addr);
      Append(cur, i, w, dest, source);
      forall p, u, q | IsLexicon(states0, p)
        ensures Entry(states, p, u, q) <==> Entry(states0, p, u, q) || (p == source && u == w && q == dest)
      {
        EntryIsListed(states0, addr0, p, u, q);
        EntryIsListed(states, addr, p, u, q);
      }
    }
  }

  lemma MoreBounded(states: seq<State>, maxlen: nat, maxlen': nat)
    requires Bounded(states, maxlen) && maxlen <= maxlen'
    ensures Bounded(states, maxlen')
  {
  }

  lemma AddressCount(states: seq<State>, addr: seq<Address>)
    requires TrieOk(states, addr)
    ensures |addr| == |states|
  {
  }

  /** The chain may be continued: everything kept, and no entry added. */
  lemma StateGrown(states: seq<State>, addr: seq<Address>, base: int, tail: seq<Label>, maxlen: nat, cur: int,
                   lab: Label, rest: seq<Label>, first: bool)
    requires |addr| == |states| && Bounded(states, maxlen) && |rest| <= maxlen
    requires TrieOk(states, addr) && NoBranch(states, cur, lab) && MarksBelow(states, base) && rest != []
    requires first ==> base == |states| && tail == rest && states[cur].mergeable == FIXED
    requires !first ==> Open(states, base, tail) && cur == |states| - 1 && lab == tail[cur - base]
                        && rest == tail[cur - base + 1..]
    ensures var states', addr' := WithState(states, cur, lab, rest),
        addr + [Address(addr[cur].root, addr[cur].word + [lab])];
            && |states'| == |states| + 1 && Bounded(states', maxlen)
            && TrieOk(states', addr') && Open(states', base, tail) && MarksBelow(states', base)
            && (forall k :: IsLexicon(states, k) ==> IsLexicon(states', k))
            && (forall l :: NoBranch(states', |states|, l))
            && (forall p, u, q :: Listed(states', addr', p, u, q) <==> Listed(states, addr, p, u, q))
  {
    hide TrieOk, SuffixHash, Listed, Open;
    var states', addr' := WithState(states, cur, lab, rest), addr + [Address(addr[cur].root, addr[cur].word + [lab])];
    StateAdded(states, addr, cur, lab, rest);
    forall p, u, q ensures Listed(states', addr', p, u, q) <==> Listed(states, addr, p, u, q) {
      StateLists(states, addr, cur, lab, rest, p, u, q);
    }
    if first {
      OpenFirst(states, cur, lab, tail);
    } else {
      OpenLength(states, base, tail);
      OpenNext(states, base, tail);
    }
    MarksUntouched(states, states', base);
  }

  lemma OpenLength(states: seq<State>, base: int, tail: seq<Label>)
    requires Open(states, base, tail)
    ensures 0 <= base < |states| <= base + |tail|
    ensures states[|states| - 1] == ChainState(base, tail, |states| - 1 - base, false)
  {
  }

  /** The last arc closes the chain. */
  lemma ArcGrown(states: seq<State>, addr: seq<Address>, base: int, tail: seq<Label>, maxlen: nat, cur: int, lab: Label,
                 dest: int, first: bool)
    requires TrieOk(states, addr) && MarksBelow(states, base) && 0 <= cur < |states| && IsLexicon(states, dest)
             && Bounded(states, maxlen)
    requires first ==> base == |states| && states[cur].mergeable == FIXED
    requires !first ==> Open(states, base, tail) && cur == |states| - 1 == base + |tail| - 1 && lab == tail[|tail| - 1]
                        && dest < base
    ensures var states' := WithArc(states, cur, Trans(lab, dest));
            && |states'| == |states| && TrieOk(states', addr) && MarksOk(states') && Bounded(states', maxlen)
            && (forall k :: IsLexicon(states, k) ==> IsLexicon(states', k))
  {
    hide TrieOk, SuffixHash, MarksBelow, MarksOk, Open, ChainState;
    var states' := WithArc(states, cur, Trans(lab, dest));
    LexTrans(states, addr, cur, Trans(lab, dest));
    ArcAdded(states, addr, cur, Trans(lab, dest));
    if first {
      MarksUntouched(states, states', base);
      BelowIsAll(states');
    } else {
      OpenLength(states, base, tail);
      MarksUntouched(states, states', base);
      OpenClosed(states, base, tail, dest);
      ClosedMarks(states', base, tail, dest);
    }
  }

  lemma BelowIsAll(states: seq<State>)
    requires MarksBelow(states, |states|)
    ensures MarksOk(states)
  {
    forall k | 0 <= k < |states| ensures MarkOk(states, k) && HashOk(states, k) {
      assert MarkBelow(states, |states|, k);
    }
  }

  lemma OpenClosed(states: seq<State>, base: int, tail: seq<Label>, dest: int)
    requires Open(states, base, tail) && |states| == base + |tail|
    ensures var states' := WithArc(states, |states| - 1, Trans(tail[|tail| - 1], dest));
            && (forall k :: base <= k < |states'| - 1 ==> states'[k] == ChainState(base, tail, k - base, true))
            && states'[|states'| - 1] == ChainState(base, tail, |tail| - 1,
                                                    false).(trans := [Trans(tail[|tail| - 1], dest)])
  {
    hide SuffixHash;
  }

  lemma LexTrans(states: seq<State>, addr: seq<Address>, cur: int, t: Trans)
    requires TrieOk(states, addr) && 0 <= cur < |states| && IsLexicon(states, t.target)
    ensures TransOk(states, addr, cur, t)
  {
  }

  lemma LexiconAdded(states: seq<State>, addr: seq<Address>, maxlen: nat)
    requires TrieOk(states, addr) && MarksOk(states) && Bounded(states, maxlen)
    ensures var k := |states|; var states', addr' := states + [State([], k, FIXED, 0, 0, k)], addr + [Address(k, [])];
            && TrieOk(states', addr') && MarksOk(states') && Bounded(states', maxlen)
            && (forall p, w, q :: Listed(states', addr', p, w, q) <==> Listed(states, addr, p, w, q))
            && (forall w, q :: !Listed(states, addr, k, w, q))
  {
    var n := |states|;
    var states', addr' := states + [State([], n, FIXED, 0, 0, n)], addr + [Address(n, [])];
    MoreStates(states, states');
    forall k | 0 <= k < |states'| ensures StateOk(states', addr', k) {
      if k < n {
        assert StateOk(states, addr, k);
        forall t | t in states'[k].trans ensures TransOk(states', addr', k, t) {
          assert TransOk(states, addr, k, t);
        }
      }
    }
    forall k | 0 <= k < n ensures addr[k] != Address(n, []) {
      assert StateOk(states, addr, k);
    }
    MarksExtend(states, states');
    forall p, w, q ensures Listed(states', addr', p, w, q) <==> Listed(states, addr, p, w, q) {
      if x, t :| EndsAt(states', addr', x, t, p, w, q) {
        assert StateOk(states, addr, x) && TransOk(states, addr, x, t);
        assert EndsAt(states, addr, x, t, p, w, q);
      }
      if x, t :| EndsAt(states, addr, x, t, p, w, q) {
        assert EndsAt(states', addr', x, t, p, w, q);
      }
    }
    forall x | 0 <= x < n ensures addr[x].root != n {
      assert StateOk(states, addr, x);
    }
  }

  /** What new states at the end leave as it was. */
  lemma MoreStates(states: seq<State>, states': seq<State>)
    requires states <= states'
    ensures forall k :: IsLexicon(states, k) ==> IsLexicon(states', k)
    ensures forall k :: 0 <= k < |states| ==> (IsLexicon(states', k) <==> IsLexicon(states, k))
    ensures forall k :: HasParent(states, k) ==> HasParent(states', k)
  {
    forall k | HasParent(states, k) ensures HasParent(states', k) {
      var p :| ChildOf(states, p, k);
      assert ChildOf(states', p, k);
    }
  }

  lemma {:induction false} WordExtends(states: seq<State>, states': seq<State>, k: int, d: nat)
    requires states <= states' && ChainFits(states, k, d)
    ensures ChainWord(states', k, d) == ChainWord(states, k, d)
    decreases d
  {
    if d > 0 {
      WordExtends(states, states', k + 1, d - 1);
    }
  }

  ghost predicate ChainFits(states: seq<State>, k: int, d: nat) {
    0 <= k && k + d <= |states|
  }

  lemma {:induction false} LinkedFits(states: seq<State>, k: int)
    requires (forall j :: 0 <= j < |states| ==> MarkOk(states, j)) && 0 <= k < |states|
             && states[k].mergeable == MERGEABLE
    ensures ChainFits(states, k, states[k].distance)
    decreases states[k].distance
  {
    assert MarkOk(states, k);
    if states[k].distance > 1 {
      LinkedFits(states, k + 1);
    }
  }

  /** New fixed states do not disturb the chains. */
  lemma MarksExtend(states: seq<State>, states': seq<State>)
    requires MarksOk(states) && states <= states' && |states'| == |states| + 1
    requires states'[|states|].mergeable == FIXED && states'[|states|].mergeWith == |states|
    requires forall k :: 0 <= k < |states| ==> (IsLexicon(states', k) <==> IsLexicon(states, k))
    ensures MarksOk(states')
  {
    forall k | 0 <= k < |states'| ensures MarkOk(states', k) && HashOk(states', k) {
      if k < |states| {
        assert MarkOk(states, k) && HashOk(states, k);
        if states[k].mergeable == MERGEABLE {
          LinkedFits(states, k);
          WordExtends(states, states', k, states[k].distance);
        }
      }
    }
  }

  // ----- Adding a word -----

  /** `states` with an arc from `cur` put in front of its others. */
  function WithArc(states: seq<State>, cur: int, t: Trans): seq<State>
    requires 0 <= cur < |states|
  {
    states[cur := states[cur].(trans := [t] + states[cur].trans)]
  }

  lemma ArcAdded(states: seq<State>, addr: seq<Address>, cur: int, t: Trans)
    requires TrieOk(states, addr) && 0 <= cur < |states| && TransOk(states, addr, cur, t)
    ensures TrieOk(WithArc(states, cur, t), addr)
  {
    var states' := WithArc(states, cur, t);
    forall k | 0 <= k < |states'| ensures StateOk(states', addr, k) {
      assert StateOk(states, addr, k);
      if HasParent(states, k) {
        ParentKept(states, cur, t, k);
      }
      forall u | u in states'[k].trans ensures TransOk(states', addr, k, u) {
        assert u in states[k].trans ==> TransOk(states, addr, k, u);
      }
    }
  }

  lemma ParentKept(states: seq<State>, cur: int, t: Trans, k: int)
    requires 0 <= cur < |states| && HasParent(states, k)
    ensures HasParent(WithArc(states, cur, t), k)
  {
    var p :| ChildOf(states, p, k);
    assert ChildOf(WithArc(states, cur, t), p, k);
  }

  /** A new arc adds one entry if it leads to a lexicon state, and none otherwise. */
  lemma ArcLists(states: seq<State>, addr: seq<Address>, cur: int, t: Trans, p: int, w: seq<Label>, q: int)
    requires |addr| == |states| && 0 <= cur < |states|
    ensures Listed(WithArc(states, cur, t), addr, p, w, q) <==>
            Listed(states, addr, p, w, q)
            || (t.target == q && IsLexicon(states, q) && addr[cur].root == p && w == addr[cur].word + [t.lab])
  {
    var states' := WithArc(states, cur, t);
    if Listed(states', addr, p, w, q) {
      var x, u :| EndsAt(states', addr, x, u, p, w, q);
      if x != cur || u in states[cur].trans {
        assert EndsAt(states, addr, x, u, p, w, q);
      }
    }
    if Listed(states, addr, p, w, q) {
      var x, u :| EndsAt(states, addr, x, u, p, w, q);
      assert EndsAt(states', addr, x, u, p, w, q);
    }
    if t.target == q && IsLexicon(states, q) && addr[cur].root == p && w == addr[cur].word + [t.lab] {
      assert EndsAt(states', addr, cur, t, p, w, q);
    }
  }

  /** The state that continues a word after `cur`: open, with `rest` still to come. */
  function NewState(states: seq<State>, rest: seq<Label>): State {
    State([], -1, MERGEABLE, |rest|, SuffixHash(rest, 0), |states|)
  }

  /** `cur` gets an arc on `lab` to a new state that is to spell `rest`. */
  function WithState(states: seq<State>, cur: int, lab: Label, rest: seq<Label>): seq<State>
    requires 0 <= cur < |states|
  {
    WithArc(states, cur, Trans(lab, |states|)) + [NewState(states, rest)]
  }

  /** No trie state has the address that a new branch gets. */
  lemma FreshAddress(states: seq<State>, addr: seq<Address>, cur: int, lab: Label, k: int)
    requires TrieOk(states, addr) && NoBranch(states, cur, lab) && 0 <= k < |states|
    ensures addr[k] != Address(addr[cur].root, addr[cur].word + [lab])
  {
    assert StateOk(states, addr, k);
    if states[k].lexstate == -1 {
      var p :| ChildOf(states, p, k);
      var t :| t in states[p].trans && t.target == k;
      assert StateOk(states, addr, p) && TransOk(states, addr, p, t);
      AddressEnds(addr[p], t.lab, addr[cur], lab);
      SameAddress(addr, p, cur);
    }
  }

  lemma SameAddress(addr: seq<Address>, p: int, q: int)
    requires Distinct(addr) && 0 <= p < |addr| && 0 <= q < |addr|
    ensures addr[p] == addr[q] ==> p == q
  {
  }

  lemma StateAdded(states: seq<State>, addr: seq<Address>, cur: int, lab: Label, rest: seq<Label>)
    requires TrieOk(states, addr) && NoBranch(states, cur, lab)
    ensures TrieOk(WithState(states, cur, lab, rest), addr + [Address(addr[cur].root, addr[cur].word + [lab])])
  {
    var n := |states|;
    var states', addr' := WithState(states, cur, lab, rest), addr + [Address(addr[cur].root, addr[cur].word + [lab])];
    forall k | 0 <= k < n ensures addr[k] != addr'[n] {
      FreshAddress(states, addr, cur, lab, k);
    }
    assert Distinct(addr');
    forall k | 0 <= k <= n ensures StateOk(states', addr', k) {
      NewStateOk(states, addr, cur, lab, rest, k);
    }
  }

  lemma NewStateOk(states: seq<State>, addr: seq<Address>, cur: int, lab: Label, rest: seq<Label>, k: int)
    requires TrieOk(states, addr) && 0 <= cur < |states| && 0 <= k <= |states|
    ensures StateOk(WithState(states, cur, lab, rest), addr + [Address(addr[cur].root, addr[cur].word + [lab])], k)
  {
    var n := |states|;
    var states', addr' := WithState(states, cur, lab, rest), addr + [Address(addr[cur].root, addr[cur].word + [lab])];
    assert StateOk(states, addr, cur);
    if k < n {
      assert StateOk(states, addr, k);
      if HasParent(states, k) {
        var p :| ChildOf(states, p, k);
        assert ChildOf(states', p, k);
      }
      forall u | u in states'[k].trans ensures TransOk(states', addr', k, u) {
        assert u in states[k].trans ==> TransOk(states, addr, k, u);
      }
    } else {
      assert Trans(lab, n) in states'[cur].trans;
      assert ChildOf(states', cur, n);
    }
  }

  lemma StateLists(states: seq<State>, addr: seq<Address>, cur: int, lab: Label, rest: seq<Label>, p: int,
                   w: seq<Label>, q: int)
    requires TrieOk(states, addr) && 0 <= cur < |states|
    ensures Listed(WithState(states, cur, lab, rest), addr + [Address(addr[cur].root, addr[cur].word + [lab])], p, w,
                   q) <==>
            Listed(states, addr, p, w, q)
  {
    var n := |states|;
    var states', addr' := WithState(states, cur, lab, rest), addr + [Address(addr[cur].root, addr[cur].word + [lab])];
    if Listed(states', addr', p, w, q) {
      var x, u :| EndsAt(states', addr', x, u, p, w, q);
      assert u in states[x].trans || u == Trans(lab, n);
      assert EndsAt(states, addr, x, u, p, w, q);
    }
    if Listed(states, addr, p, w, q) {
      var x, u :| EndsAt(states, addr, x, u, p, w, q);
      assert EndsAt(states', addr', x, u, p, w, q);
    }
  }

  // ----- The chain under construction -----

  /** The marks of the first `base` states are right, and their chains stay among them. */
  ghost predicate MarksBelow(states: seq<State>, base: int) {
    0 <= base <= |states| && forall k :: 0 <= k < base ==> MarkBelow(states, base, k)
  }

  ghost predicate MarkBelow(states: seq<State>, base: int, k: int)
    requires 0 <= k < |states|
  {
    MarkOk(states, k) && HashOk(states, k) && (states[k].mergeable == MERGEABLE ==> k + states[k].distance <= base)
  }

  lemma AllMarksBelow(states: seq<State>)
    requires MarksOk(states)
    ensures MarksBelow(states, |states|)
  {
    forall k | 0 <= k < |states| ensures MarkBelow(states, |states|, k) {
      assert MarkOk(states, k) && HashOk(states, k);
      if states[k].mergeable == MERGEABLE {
        LinkedFits(states, k);
      }
    }
  }

  /** Below `base`, only the arcs of fixed states differ, and lexicon states stay what they are. */
  ghost predicate OnlyFixedArcs(states: seq<State>, states': seq<State>, base: int) {
    && base <= |states| && base <= |states'|
    && (forall k :: 0 <= k < base ==> states'[k] == states[k].(trans := states'[k].trans)
                                      && (states[k].mergeable == MERGEABLE ==> states'[k] == states[k]))
    && (forall k :: IsLexicon(states, k) ==> IsLexicon(states', k))
  }

  lemma {:induction false} ChainUntouched(states: seq<State>, states': seq<State>, base: int, k: int)
    requires OnlyFixedArcs(states, states', base) && MarksBelow(states, base) && 0 <= k < base
             && states[k].mergeable == MERGEABLE
    ensures ChainWord(states', k, states[k].distance) == ChainWord(states, k, states[k].distance)
    decreases states[k].distance
  {
    assert MarkBelow(states, base, k);
    if states[k].distance > 1 {
      ChainUntouched(states, states', base, k + 1);
    } else {
      assert ChainWord(states, k + 1, 0) == [] && ChainWord(states', k + 1, 0) == [];
    }
  }

  lemma MarksUntouched(states: seq<State>, states': seq<State>, base: int)
    requires OnlyFixedArcs(states, states', base) && MarksBelow(states, base)
    ensures MarksBelow(states', base)
  {
    forall k | 0 <= k < base ensures MarkBelow(states', base, k) {
      assert MarkBelow(states, base, k);
      if states[k].mergeable == MERGEABLE {
        ChainUntouched(states, states', base, k);
        if states[k].distance > 1 {
          assert MarkBelow(states, base, k + 1);
        }
      }
    }
  }

  /** The `m`th state of the chain that is to spell `tail`, with its arc or still without. */
  function ChainState(base: int, tail: seq<Label>, m: int, linked: bool): State
    requires 0 <= m < |tail|
  {
    State(if linked then [Trans(tail[m], base + m + 1)] else [], -1, MERGEABLE, |tail| - m, SuffixHash(tail[m..], 0),
          base + m)
  }

  /** From `base` on, the states are the beginning of a chain for `tail`; the last one has no arc yet. */
  ghost predicate Open(states: seq<State>, base: int, tail: seq<Label>) {
    && 0 <= base < |states| <= base + |tail|
    && forall k :: base <= k < |states| ==> states[k] == ChainState(base, tail, k - base, k < |states| - 1)
  }

  lemma OpenFirst(states: seq<State>, cur: int, lab: Label, tail: seq<Label>)
    requires 0 <= cur < |states| && tail != []
    ensures Open(WithState(states, cur, lab, tail), |states|, tail)
  {
    assert tail[0..] == tail;
  }

  lemma OpenNext(states: seq<State>, base: int, tail: seq<Label>)
    requires Open(states, base, tail) && |states| < base + |tail|
    ensures var m := |states| - 1 - base; Open(WithState(states, |states| - 1, tail[m], tail[m + 1..]), base, tail)
  {
    hide SuffixHash;
  }

  /** Once its last arc is in place, the chain spells its word from every state. */
  lemma {:induction false} ClosedWord(states: seq<State>, base: int, tail: seq<Label>, dest: int, m: int)
    requires 0 <= base && |states| == base + |tail| && 0 <= m < |tail| && 0 <= dest < base
    requires forall k :: base <= k < |states| - 1 ==> states[k] == ChainState(base, tail, k - base, true)
    requires states[|states| - 1] == ChainState(base, tail, |tail| - 1,
                                                false).(trans := [Trans(tail[|tail| - 1], dest)])
    ensures ChainWord(states, base + m, |tail| - m) == tail[m..]
    decreases |tail| - m
  {
    hide SuffixHash;
    if m + 1 < |tail| {
      ClosedWord(states, base, tail, dest, m + 1);
    } else {
      assert ChainWord(states, base + m + 1, 0) == [] && tail[m + 1..] == [];
    }
    assert tail[m..] == [tail[m]] + tail[m + 1..];
  }

  lemma ClosedMarks(states: seq<State>, base: int, tail: seq<Label>, dest: int)
    requires MarksBelow(states, base) && |states| == base + |tail| && IsLexicon(states, dest) && dest < base
             && tail != []
    requires forall k :: base <= k < |states| - 1 ==> states[k] == ChainState(base, tail, k - base, true)
    requires states[|states| - 1] == ChainState(base, tail, |tail| - 1,
                                                false).(trans := [Trans(tail[|tail| - 1], dest)])
    ensures MarksOk(states)
  {
    hide SuffixHash, MarkOk, ChainState;
    forall k | 0 <= k < |states| ensures MarkOk(states, k) && HashOk(states, k) {
      if k < base {
        assert MarkBelow(states, base, k);
      } else {
        ClosedWord(states, base, tail, dest, k - base);
        ClosedLink(states, base, tail, dest, k);
      }
    }
  }

  lemma ClosedLink(states: seq<State>, base: int, tail: seq<Label>, dest: int, k: int)
    requires 0 <= base <= k < |states| == base + |tail| && IsLexicon(states, dest) && tail != []
    requires forall k :: base <= k < |states| - 1 ==> states[k] == ChainState(base, tail, k - base, true)
    requires states[|states| - 1] == ChainState(base, tail, |tail| - 1,
                                                false).(trans := [Trans(tail[|tail| - 1], dest)])
    ensures MarkOk(states, k) && states[k].hashval == SuffixHash(tail[k - base..], 0)
            && states[k].distance == |tail| - (k - base)
  {
    hide SuffixHash;
    assert k < |states| - 1 ==> states[k + 1].mergeable == MERGEABLE
                                && states[k + 1].distance == states[k].distance - 1;
  }

  lemma LexiconFixed(states: seq<State>, addr: seq<Address>, k: int)
    requires TrieOk(states, addr) && MarksOk(states) && IsLexicon(states, k)
    ensures addr[k] == Address(k, []) && states[k].mergeable == FIXED
  {
    assert StateOk(states, addr, k) && MarkOk(states, k);
  }

  lemma FollowedArc(states: seq<State>, addr: seq<Address>, maxlen: nat, cur: int, t: Trans)
    requires TrieOk(states, addr) && MarksOk(states) && Bounded(states, maxlen) && 0 <= cur < |states|
             && states[cur].mergeable == FIXED
    requires t in states[cur].trans && !IsLexicon(states, t.target)
    ensures 0 <= t.target < |states| && addr[t.target] == Address(addr[cur].root, addr[cur].word + [t.lab])
    ensures var states' := states[t.target := states[t.target].(mergeable := FIXED)];
            MarksOk(states') && Bounded(states', maxlen) && SameShape(states, states')
  {
    assert StateOk(states, addr, cur) && TransOk(states, addr, cur, t);
    Fixed(states, addr, cur, t);
  }
}
