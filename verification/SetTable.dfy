/**
 The table that numbers sets of states: chained buckets, a hash that does not depend on the
 order in which a set is listed, and a comparison by timestamps instead of by elements.
 */
module SetNumbering {
  import opened Automata
  import opened Chains
  import opened Counting
  import opened PrimeSizes

  const WORD: int := 0x1_0000_0000

  const LOAD_LIMIT: int := 2

  // ----- The hash value -----

  function Factors(s: seq<int>, size: int): int {
    if s == [] then 1 else (s[0] + 1103 * size) * Factors(s[1..], size)
  }

  function Total(s: seq<int>): int {
    if s == [] then 0 else s[0] + Total(s[1..])
  }

  function Triangle(n: nat): int {
    if n == 0 then 0 else Triangle(n - 1) + n - 1
  }

  /** The hash of a listed set, on 32-bit unsigned arithmetic. */
  function HashOf(s: seq<int>, tableSize: int): (h: int)
    requires 0 < tableSize
    ensures 0 <= h < tableSize
  {
    ((6703271 * Factors(s, |s|) + (Total(s) + Triangle(|s|)) * 31) % WORD) % tableSize
  }

  lemma {:induction false} FactorsAt(s: seq<int>, size: int, j: int)
    requires 0 <= j < |s|
    ensures Factors(s, size) == (s[j] + 1103 * size) * Factors(s[..j] + s[j + 1..], size)
    ensures Total(s) == s[j] + Total(s[..j] + s[j + 1..])
    decreases |s|
  {
    var rest := s[..j] + s[j + 1..];
    if j == 0 {
      assert rest == s[1..];
    } else {
      FactorsAt(s[1..], size, j - 1);
      assert rest[0] == s[0] && rest[1..] == s[1..][..j - 1] + s[1..][j..];
      Swap(s[0] + 1103 * size, s[j] + 1103 * size, Factors(rest[1..], size));
    }
  }

  lemma Swap(a: int, b: int, c: int)
    ensures a * (b * c) == b * (a * c)
  {
  }

  /** Two lists of the same elements have the same factors and total. */
  lemma {:induction false} FactorsPermute(s: seq<int>, t: seq<int>, size: int)
    requires multiset(s) == multiset(t)
    ensures Factors(s, size) == Factors(t, size) && Total(s) == Total(t)
    decreases |s|
  {
    if s == [] {
      assert |t| == |multiset(t)| == 0;
    } else {
      assert s[0] in multiset(t);
      var j :| 0 <= j < |t| && t[j] == s[0];
      RemoveSame(s, t, j);
      FactorsPermute(s[1..], t[..j] + t[j + 1..], size);
      FactorsAt(t, size, j);
    }
  }

  lemma RemoveSame(s: seq<int>, t: seq<int>, j: int)
    requires s != [] && 0 <= j < |t| && t[j] == s[0] && multiset(s) == multiset(t)
    ensures multiset(s[1..]) == multiset(t[..j] + t[j + 1..])
  {
    assert s == [s[0]] + s[1..];
    assert t == t[..j] + ([t[j]] + t[j + 1..]);
    assert multiset(t) == multiset(t[..j]) + (multiset{t[j]} + multiset(t[j + 1..]));
    assert multiset(s) == multiset{s[0]} + multiset(s[1..]);
    assert multiset(t[..j] + t[j + 1..]) == multiset(t) - multiset{t[j]};
  }

  /** The hash does not depend on the order of the list. */
  lemma HashPermute(s: seq<int>, t: seq<int>, tableSize: int)
    requires 0 < tableSize && multiset(s) == multiset(t)
    ensures HashOf(s, tableSize) == HashOf(t, tableSize)
  {
    assert |s| == |multiset(s)| == |multiset(t)| == |t|;
    FactorsPermute(s, t, |s|);
  }

  ghost function Elements(s: seq<int>): (r: set<int>)
    ensures forall x :: x in r <==> x in s
  {
    set x | x in s
  }

  lemma SameElements(s: seq<int>, t: seq<int>)
    requires Distinct(s) && Distinct(t) && Elements(s) == Elements(t)
    ensures multiset(s) == multiset(t)
  {
    assert forall x :: x in s <==> x in Elements(s);
    assert forall x :: x in t <==> x in Elements(t);
    SameMembers(s, t);
  }

  lemma ElementsSize(s: seq<int>)
    requires Distinct(s)
    ensures |Elements(s)| == |s|
    decreases |s|
  {
    if s != [] {
      ElementsSize(s[1..]);
      assert s == [s[0]] + s[1..];
      assert Elements(s) == {s[0]} + Elements(s[1..]);
    }
  }

  /** Equal size and containment make the compared lists equal as sets. */
  lemma ContainedSameSize(s: seq<int>, t: seq<int>)
    requires Distinct(s) && Distinct(t) && |s| == |t| && forall x :: x in s ==> x in t
    ensures Elements(s) == Elements(t)
  {
    ElementsSize(s);
    ElementsSize(t);
    assert Elements(s) <= Elements(t);
    assert Elements(t) == Elements(s) + (Elements(t) - Elements(s));
  }

  lemma MulMod(a: int, b: int)
    ensures ((a % WORD) * (b % WORD)) % WORD == (a * b) % WORD
  {
    var x, y := a / WORD, b / WORD;
    var p, q := a % WORD, b % WORD;
    assert a == WORD * x + p && b == WORD * y + q;
    assert a * b == WORD * (x * b + p * y) + p * q by {
      assert a * b == WORD * x * b + p * b;
      assert p * b == p * (WORD * y) + p * q;
    }
    Shifted(p * q, x * b + p * y);
  }

  lemma Shifted(a: int, k: int)
    ensures (WORD * k + a) % WORD == a % WORD
  {
  }

  /** What the loop of the hash has computed after `i` elements. */
  ghost predicate HashedUpTo(s: seq<int>, i: int, value: int, sum: int) {
    && 0 <= i <= |s| && 0 <= value < WORD
    && (value * Factors(s[i..], |s|)) % WORD == (6703271 * Factors(s, |s|)) % WORD
    && (sum - (Total(s) - Total(s[i..]) + Triangle(i))) % WORD == 0
  }

  method Hash(s: seq<int>, tableSize: int) returns (h: int)
    requires 0 < tableSize <= 0x7fff_ffff
    ensures h == HashOf(s, tableSize)
  {
    hide HashedUpTo, HashOf;
    var value, sum := 6703271, 0;
    var i := 0;
    HashStart(s);
    while i < |s|
      invariant 0 <= i <= |s| && HashedUpTo(s, i, value, sum)
    {
      ghost var before, total := value, sum;
      value := (((s[i] + 1103 * |s|) % WORD) * value) % WORD;
      sum := (sum + s[i] + i) % WORD;
      HashStep(s, i, before, total, value, sum);
      i := i + 1;
    }
    HashFinish(s, value, sum, tableSize);
    value := (value + sum * 31) % WORD;
    h := value % tableSize;
  }

  lemma HashStart(s: seq<int>)
    ensures HashedUpTo(s, 0, 6703271, 0)
  {
    assert s[0..] == s;
  }

  lemma HashStep(s: seq<int>, i: int, value: int, sum: int, value': int, sum': int)
    requires 0 <= i < |s| && HashedUpTo(s, i, value, sum)
    requires value' == (((s[i] + 1103 * |s|) % WORD) * value) % WORD && sum' == (sum + s[i] + i) % WORD
    ensures HashedUpTo(s, i + 1, value', sum')
  {
    hide HashedUpTo, Factors, Total;
    FactorStep(s, i, value, sum, value');
    SumStep(s, i, value, sum, sum');
    StepHashed(s, i + 1, value', sum');
  }

  lemma StepHashed(s: seq<int>, i: int, value: int, sum: int)
    requires 0 <= i <= |s| && 0 <= value < WORD
    requires (value * Factors(s[i..], |s|)) % WORD == (6703271 * Factors(s, |s|)) % WORD
    requires (sum - (Total(s) - Total(s[i..]) + Triangle(i))) % WORD == 0
    ensures HashedUpTo(s, i, value, sum)
  {
  }

  lemma FactorStep(s: seq<int>, i: int, value: int, sum: int, value': int)
    requires 0 <= i < |s| && HashedUpTo(s, i, value, sum) && value' == (((s[i] + 1103 * |s|) % WORD) * value) % WORD
    ensures (value' * Factors(s[i + 1..], |s|)) % WORD == (6703271 * Factors(s, |s|)) % WORD
  {
    assert s[i..][0] == s[i] && s[i..][1..] == s[i + 1..];
    MulChain(s[i] + 1103 * |s|, value, value', Factors(s[i + 1..], |s|));
  }

  lemma SumStep(s: seq<int>, i: int, value: int, sum: int, sum': int)
    requires 0 <= i < |s| && HashedUpTo(s, i, value, sum) && sum' == (sum + s[i] + i) % WORD
    ensures (sum' - (Total(s) - Total(s[i + 1..]) + Triangle(i + 1))) % WORD == 0
  {
    hide Total, Triangle, Factors;
    TotalStep(s, i);
    var total := Total(s) - Total(s[i..]) + Triangle(i);
    SumModulo(sum, total, s[i] + i);
  }

  lemma TotalStep(s: seq<int>, i: int)
    requires 0 <= i < |s|
    ensures Total(s[i..]) == s[i] + Total(s[i + 1..]) && Triangle(i + 1) == Triangle(i) + i
  {
    assert s[i..][0] == s[i] && s[i..][1..] == s[i + 1..];
  }

  lemma SumModulo(sum: int, total: int, more: int)
    requires (sum - total) % WORD == 0
    ensures ((sum + more) % WORD - (total + more)) % WORD == 0
  {
    var k, j := (sum - total) / WORD, (sum + more) / WORD;
    assert sum - total == WORD * k && (sum + more) % WORD == sum + more - WORD * j;
    Shifted(0, k - j);
  }

  lemma HashFinish(s: seq<int>, value: int, sum: int, tableSize: int)
    requires 0 < tableSize && HashedUpTo(s, |s|, value, sum)
    ensures ((value + sum * 31) % WORD) % tableSize == HashOf(s, tableSize)
  {
    assert s[|s|..] == [];
    HashEnd(value, sum, 6703271 * Factors(s, |s|), Total(s) + Triangle(|s|));
  }

  lemma MulChain(f: int, value: int, next: int, rest: int)
    requires next == ((f % WORD) * value) % WORD && 0 <= value < WORD
    ensures (next * rest) % WORD == (value * (f * rest)) % WORD
  {
    MulMod(f, value);
    MulMod(f * value, rest);
    MulMod(next, rest);
    assert next % WORD == next;
    Reorder(f, value, rest);
  }

  lemma Reorder(f: int, v: int, r: int)
    ensures f * v * r == v * (f * r)
  {
  }

  lemma HashEnd(value: int, sum: int, product: int, total: int)
    requires value % WORD == product % WORD && (sum - total) % WORD == 0
    ensures (value + sum * 31) % WORD == (product + total * 31) % WORD
  {
    var k, j := (sum - total) / WORD, value / WORD - product / WORD;
    assert sum == total + WORD * k;
    assert value == product + WORD * j;
    Shifted(product + total * 31, k * 31 + j);
  }

  // ----- The buckets -----

  /** The chains store exactly the set numbers in `present`, each in the chain of its hash. */
  ghost predicate Holds(chains: seq<seq<int>>, sets: seq<seq<int>>, present: set<int>) {
    && 0 < |chains|
    && (forall k :: k in present ==> AtHome(chains, sets, k))
    && (forall b, x :: 0 <= b < |chains| && x in chains[b] ==> x in present && BelongsTo(chains, sets, b, x))
    && (forall b :: 0 <= b < |chains| ==> Distinct(chains[b]))
  }

  ghost predicate AtHome(chains: seq<seq<int>>, sets: seq<seq<int>>, k: int)
    requires 0 < |chains|
  {
    0 <= k < |sets| && k in chains[HashOf(sets[k], |chains|)]
  }

  ghost predicate BelongsTo(chains: seq<seq<int>>, sets: seq<seq<int>>, b: int, x: int)
    requires 0 < |chains|
  {
    0 <= x < |sets| && HashOf(sets[x], |chains|) == b
  }

  lemma ChainedDistinct(chain: seq<int>, x: int)
    requires Distinct(chain) && x !in chain
    ensures Distinct(Chained(chain, x))
  {
  }

  /** A set number goes into the chain of its hash. */
  lemma Stored(chains: seq<seq<int>>, sets: seq<seq<int>>, present: set<int>, k: int, h: int)
    requires Holds(chains, sets, present) && 0 <= k < |sets| && k !in present && h == HashOf(sets[k], |chains|)
    ensures Holds(chains[h := Chained(chains[h], k)], sets, present + {k})
  {
    hide HashOf, Distinct, Chained;
    ChainedDistinct(chains[h], k);
    var chains', present' := chains[h := Chained(chains[h], k)], present + {k};
    forall x | x in present' ensures AtHome(chains', sets, x) {
      assert x != k ==> AtHome(chains, sets, x);
      assert HashOf(sets[x], |chains|) == HashOf(sets[x], |chains'|);
    }
    forall b, x | 0 <= b < |chains'| && x in chains'[b] ensures x in present' && BelongsTo(chains', sets, b, x) {
      assert x in chains[b] || (b == h && x == k);
      assert x in chains[b] ==> x in present && BelongsTo(chains, sets, b, x);
    }
  }

  /**
   The numbers that a lookup can find. A cell of size 0 is what marks a free bucket, so storing the
   empty set leaves its bucket free.
   */
  ghost function Visible(sets: seq<seq<int>>): set<int> {
    set k | 0 <= k < |sets| && sets[k] != []
  }

  /** The table keeps the numbers of all listed sets but the empty one, and the lists are pairwise different sets. */
  ghost predicate Numbers(chains: seq<seq<int>>, sets: seq<seq<int>>, keys: seq<set<int>>) {
    && |keys| == |sets| && Distinct(keys)
    && (forall k :: 0 <= k < |sets| ==> keys[k] == Elements(sets[k]) && Distinct(sets[k]))
    && Holds(chains, sets, Visible(sets))
  }

  lemma StaysAtHome(chains: seq<seq<int>>, sets: seq<seq<int>>, s: seq<int>, k: int)
    requires 0 < |chains| && AtHome(chains, sets, k)
    ensures AtHome(chains, sets + [s], k)
  {
    hide HashOf;
    assert (sets + [s])[k] == sets[k];
  }

  lemma StillBelongs(chains: seq<seq<int>>, sets: seq<seq<int>>, s: seq<int>, b: int, x: int)
    requires 0 < |chains| && BelongsTo(chains, sets, b, x)
    ensures BelongsTo(chains, sets + [s], b, x)
  {
    hide HashOf;
    assert (sets + [s])[x] == sets[x];
  }

  lemma HoldsStill(chains: seq<seq<int>>, sets: seq<seq<int>>, s: seq<int>)
    requires Holds(chains, sets, Visible(sets))
    ensures Holds(chains, sets + [s], Visible(sets))
  {
    hide Visible, AtHome, BelongsTo, Distinct;
    forall k | k in Visible(sets) ensures AtHome(chains, sets + [s], k) {
      StaysAtHome(chains, sets, s, k);
    }
    forall b, x | 0 <= b < |chains| && x in chains[b] ensures BelongsTo(chains, sets + [s], b, x) {
      StillBelongs(chains, sets, s, b, x);
    }
  }

  lemma NewSet(chains: seq<seq<int>>, sets: seq<seq<int>>, keys: seq<set<int>>, s: seq<int>, h: int)
    requires Numbers(chains, sets, keys) && Distinct(s) && Elements(s) !in keys && h == HashOf(s, |chains|)
    ensures s == [] ==> Numbers(chains, sets + [s], keys + [Elements(s)])
    ensures s != [] ==> Numbers(chains[h := Chained(chains[h], |sets|)], sets + [s], keys + [Elements(s)])
  {
    hide HashOf, Elements, Holds;
    var sets' := sets + [s];
    HoldsStill(chains, sets, s);
    if s == [] {
      assert Visible(sets') == Visible(sets);
    } else {
      Stored(chains, sets', Visible(sets), |sets|, h);
      assert Visible(sets) + {|sets|} == Visible(sets');
    }
  }

  /** An equal set, however listed, is in the chain that is searched. */
  lemma InChain(chains: seq<seq<int>>, sets: seq<seq<int>>, keys: seq<set<int>>, s: seq<int>, k: int)
    requires Numbers(chains, sets, keys) && Distinct(s) && s != [] && 0 <= k < |sets| && keys[k] == Elements(s)
    ensures k in chains[HashOf(s, |chains|)] && |sets[k]| == |s|
  {
    SameElements(sets[k], s);
    HashPermute(sets[k], s, |chains|);
    ElementsSize(s);
    ElementsSize(sets[k]);
    assert k in Visible(sets);
  }

  /** Exactly the elements of `s` carry the stamp. */
  ghost predicate StampedAs(stamps: seq<int>, stamp: int, s: seq<int>) {
    && Within(s, |stamps|)
    && (forall x :: 0 <= x < |stamps| ==> (stamps[x] == stamp <==> x in s))
  }

  ghost predicate Within(list: seq<int>, n: int) {
    forall i :: 0 <= i < |list| ==> 0 <= list[i] < n
  }

  ghost predicate AllWithin(sets: seq<seq<int>>, n: int) {
    forall k :: 0 <= k < |sets| ==> Within(sets[k], n)
  }

  /** Whether all listed states carry the stamp. */
  method AllStamped(list: seq<int>, stamps: array<int>, stamp: int) returns (found: bool)
    requires Within(list, stamps.Length)
    ensures found <==> forall i :: 0 <= i < |list| ==> stamps[list[i]] == stamp
  {
    var j := 0;
    while j < |list|
      invariant 0 <= j <= |list|
      invariant forall i :: 0 <= i < j ==> stamps[list[i]] == stamp
    {
      if stamps[list[j]] != stamp {
        return false;
      }
      j := j + 1;
    }
    found := true;
  }

  /** Equal size and all stamped is equality as sets. */
  lemma StampedMeansEqual(list: seq<int>, s: seq<int>, stamps: seq<int>, stamp: int)
    requires Distinct(list) && Distinct(s) && StampedAs(stamps, stamp, s) && Within(list, |stamps|)
    ensures |list| == |s| && (forall i :: 0 <= i < |list| ==> stamps[list[i]] == stamp) <==>
              Elements(list) == Elements(s)
  {
    if |list| == |s| && (forall i :: 0 <= i < |list| ==> stamps[list[i]] == stamp) {
      forall x | x in list ensures x in s {
        var i :| 0 <= i < |list| && list[i] == x;
      }
      ContainedSameSize(list, s);
    }
    if Elements(list) == Elements(s) {
      ElementsSize(list);
      ElementsSize(s);
      forall i | 0 <= i < |list| ensures stamps[list[i]] == stamp {
        assert list[i] in Elements(list);
      }
    }
  }

  ghost predicate HoldsFinal(list: seq<int>, finals: seq<bool>) {
    exists i :: 0 <= i < |list| && 0 <= list[i] < |finals| && finals[list[i]]
  }

  lemma MoreFinals(list: seq<int>, finals: seq<bool>, i: int)
    requires 0 <= i < |list| && Within(list, |finals|)
    ensures HoldsFinal(list[..i + 1], finals) <==> HoldsFinal(list[..i], finals) || finals[list[i]]
  {
    if HoldsFinal(list[..i], finals) {
      var j :| 0 <= j < i && finals[list[j]];
      assert list[..i + 1][j] == list[j];
    }
    if finals[list[i]] {
      assert list[..i + 1][i] == list[i];
    }
  }

  method FinalAmong(list: seq<int>, finals: seq<bool>) returns (fs: bool)
    requires Within(list, |finals|)
    ensures fs <==> HoldsFinal(list, finals)
  {
    fs := false;
    var i := 0;
    while i < |list|
      invariant 0 <= i <= |list|
      invariant fs <==> HoldsFinal(list[..i], finals)
    {
      MoreFinals(list, finals, i);
      if finals[list[i]] {
        fs := true;
      }
      i := i + 1;
    }
    assert list[..i] == list;
  }

  class SetTable {
    var tableSize: int
    var load: int
    var buckets: array<seq<int>>
    /** Set table and memo in one: the list stored under each set number. */
    var sets: seq<seq<int>>
    /** Whether the set holds a final state. */
    var finalStart: seq<bool>
    /** The listed sets as sets. */
    ghost var keys: seq<set<int>>

    ghost predicate Valid()
      reads this, buckets
    {
      && tableSize in Primes() && buckets.Length == tableSize
      && 0 <= load <= |sets| && |finalStart| == |sets| == |keys|
      && Numbers(buckets[..], sets, keys)
    }

    constructor (initialSize: int)
      requires 0 <= initialSize <= 0x3fff_ffff
      ensures Valid() && fresh(buckets) && sets == [] && keys == []
    {
      hide Primes;
      var i := 0;
      BelowLastPrime(initialSize);
      while Primes()[i] < initialSize
        invariant 0 <= i <= 25
        decreases 25 - i
      {
        i := i + 1;
      }
      PrimesPositive(i);
      load, sets, keys, finalStart := 0, [], [], [];
      tableSize := Primes()[i];
      buckets := new seq<int>[Primes()[i]](_ => []);
    }

    /** Stores a new set; the caller pushes its number on the worklist. */
    method Insert(h: int, set_: seq<int>, finals: seq<bool>) returns (n: int)
      requires Valid() && Distinct(set_) && Elements(set_) !in keys && h == HashOf(set_, tableSize)
      requires Within(set_, |finals|) && (set_ == [] ==> buckets[h] == [])
      modifies this, buckets
      ensures Valid() && buckets == old(buckets) && n == |old(sets)|
      ensures sets == old(sets) + [set_] && keys == old(keys) + [Elements(set_)]
      ensures finalStart == old(finalStart) + [HoldsFinal(set_, finals)]
    {
      hide Numbers, Elements, HashOf;
      var fs := FinalAmong(set_, finals);
      n := |sets|;
      NewSet(buckets[..], sets, keys, set_, h);
      ghost var chains := buckets[..];
      load := load + 1;
      if set_ != [] {
        buckets[h] := Chained(buckets[h], n);
        assert buckets[..] == chains[h := Chained(chains[h], n)];
      }
      sets, keys, finalStart := sets + [set_], keys + [Elements(set_)], finalStart + [fs];
    }

    /** Moves all set numbers to a table of the next prime size; afterwards `load` counts chains, not sets. */
    method Rebuild()
      requires Valid() && load / LOAD_LIMIT > tableSize && tableSize < 0x7fff_ffff
      modifies this`tableSize, this`load, this`buckets
      ensures Valid() && fresh(buckets) && tableSize > old(tableSize)
    {
      hide Numbers, Holds, Primes;
      TableSizeRange(tableSize);
      var oldTable := buckets;
      tableSize := LargerPrime(tableSize);
      buckets := new seq<int>[tableSize](_ => []);
      load := Refill(oldTable, buckets, sets, keys);
    }

    /**
     The number of the listed set: a stored set of the same size whose elements all carry the
     stamp just spent is the same set; otherwise the set is new. The load is a 32-bit integer,
     so the table cannot be overloaded at the largest prime. The empty list is only ever looked up
     first, for a net without start states.
     */
    method FindInsert(set_: seq<int>, stamps: array<int>, mainloop: int, finals: seq<bool>) returns (n: int)
      requires Valid() && Distinct(set_) && (set_ == [] ==> sets == [])
      requires StampedAs(stamps[..], mainloop - 1, set_) && AllWithin(sets, stamps.Length) && |finals| == stamps.Length
      modifies this, buckets
      ensures Valid() && (buckets == old(buckets) || fresh(buckets))
      ensures Elements(set_) in old(keys) ==> 0 <= n < |keys| && sets == old(sets) && keys == old(keys)
                                              && finalStart == old(finalStart)
      ensures Elements(set_) !in old(keys) ==>
                n == |old(sets)| && sets == old(sets) + [set_] && keys == old(keys) + [Elements(set_)]
                && finalStart == old(finalStart) + [HoldsFinal(set_, finals)]
      ensures 0 <= n < |keys| && keys[n] == Elements(set_)
      ensures AllWithin(sets, stamps.Length)
    {
      hide Numbers, Elements, HashOf, HoldsFinal;
      TableSizeRange(tableSize);
      var h := Hash(set_, tableSize);
      if set_ == [] {
        NothingStored(buckets[..], sets, keys, h);
      }
      n := Search(buckets[h], sets, set_, stamps, mainloop, h, buckets[..], keys);
      if n != -1 {
        return;
      }
      if buckets[h] != [] && load / LOAD_LIMIT > tableSize && tableSize < 0x7fff_ffff {
        Rebuild();
        TableSizeRange(tableSize);
        h := Hash(set_, tableSize);
      }
      n := Insert(h, set_, finals);
    }
  }

  lemma NothingStored(chains: seq<seq<int>>, sets: seq<seq<int>>, keys: seq<set<int>>, h: int)
    requires Numbers(chains, sets, keys) && sets == [] && 0 <= h < |chains|
    ensures chains[h] == []
  {
    if chains[h] != [] {
      ChainEntry(chains, sets, keys, h, 0);
    }
  }

  method LargerPrime(size: int) returns (next: int)
    requires size in Primes() && size < 0x7fff_ffff
    ensures next in Primes() && size < next && 0 < next <= 0x7fff_ffff
  {
    hide Primes;
    var i := 0;
    BelowLastPrime(size);
    while Primes()[i] < size
      invariant 0 <= i <= 24 && forall j :: 0 <= j < i ==> Primes()[j] < size
      decreases 24 - i
    {
      i := i + 1;
    }
    NextPrime(i, size);
    PrimesPositive(i + 1);
    next := Primes()[i + 1];
  }

  /** There is a next prime whenever the table can be overloaded at all. */
  lemma NextPrime(i: int, size: int)
    requires 0 <= i <= 24 && Primes()[i] >= size && size in Primes() && forall j :: 0 <= j < i ==> Primes()[j] < size
    ensures Primes()[i + 1] > size
  {
  }

  /** Walks the chain of the set's hash. */
  method Search(chain: seq<int>, sets: seq<seq<int>>, s: seq<int>, stamps: array<int>, mainloop: int,
                ghost h: int, ghost chains: seq<seq<int>>, ghost keys: seq<set<int>>) returns (n: int)
    requires Numbers(chains, sets, keys) && Distinct(s) && h == HashOf(s, |chains|) && 0 <= h < |chains|
             && chain == chains[h]
    requires StampedAs(stamps[..], mainloop - 1, s) && AllWithin(sets, stamps.Length) && (s == [] ==> sets == [])
    ensures n != -1 ==> 0 <= n < |keys| && keys[n] == Elements(s)
    ensures n == -1 ==> Elements(s) !in keys
  {
    hide Elements, HashOf;
    var i := 0;
    while i < |chain|
      invariant 0 <= i <= |chain|
      invariant forall k :: 0 <= k < i ==> 0 <= chain[k] < |keys| && keys[chain[k]] != Elements(s)
    {
      var x := chain[i];
      ChainEntry(chains, sets, keys, h, i);
      StampedMeansEqual(sets[x], s, stamps[..], mainloop - 1);
      if |sets[x]| == |s| {
        var found := AllStamped(sets[x], stamps, mainloop - 1);
        if found {
          return x;
        }
      }
      i := i + 1;
    }
    n := -1;
    forall k | 0 <= k < |keys| ensures keys[k] != Elements(s) {
      if keys[k] == Elements(s) {
        InChain(chains, sets, keys, s, k);
      }
    }
  }

  method Refill(oldTable: array<seq<int>>, newTable: array<seq<int>>, sets: seq<seq<int>>, ghost keys: seq<set<int>>)
    returns (load: int)
    requires oldTable != newTable && 0 < newTable.Length <= 0x7fff_ffff
    requires Numbers(oldTable[..], sets, keys)
    requires forall b :: 0 <= b < newTable.Length ==> newTable[b] == []
    modifies newTable
    ensures Numbers(newTable[..], sets, keys) && 0 <= load <= |sets|
  {
    hide Numbers, Holds;
    load := 0;
    ghost var moved := {};
    EmptyTable(newTable[..], sets);
    var i := 0;
    while i < oldTable.Length
      invariant 0 <= i <= oldTable.Length
      invariant Holds(newTable[..], sets, moved) && MovedChains(oldTable[..], i, moved)
      invariant 0 <= load <= |moved|
    {
      var chain := oldTable[i];
      var j := 0;
      while j < |chain|
        invariant 0 <= j <= |chain|
        invariant Holds(newTable[..], sets, moved) && MovedPart(oldTable[..], i, j, moved)
        invariant 0 <= load <= |moved|
      {
        var x := chain[j];
        NotMovedYet(oldTable[..], sets, keys, i, j, moved);
        var h := Hash(sets[x], newTable.Length);
        ghost var chains := newTable[..];
        Stored(chains, sets, moved, x, h);
        if newTable[h] == [] {
          load := load + 1;
        }
        newTable[h] := Chained(newTable[h], x);
        assert newTable[..] == chains[h := Chained(chains[h], x)];
        moved := moved + {x};
        PartMoved(oldTable[..], i, j, moved - {x}, x);
        j := j + 1;
      }
      ChainMoved(oldTable[..], i, moved);
      i := i + 1;
    }
    AllMoved(oldTable[..], sets, keys, newTable[..], moved);
  }

  lemma EmptyTable(chains: seq<seq<int>>, sets: seq<seq<int>>)
    requires 0 < |chains| && forall b :: 0 <= b < |chains| ==> chains[b] == []
    ensures Holds(chains, sets, {})
  {
  }

  /** The numbers moved are those in the first `i` chains. */
  ghost predicate MovedChains(chains: seq<seq<int>>, i: int, moved: set<int>) {
    forall x :: x in moved <==> exists b :: 0 <= b < i && b < |chains| && x in chains[b]
  }

  ghost predicate MovedPart(chains: seq<seq<int>>, i: int, j: int, moved: set<int>)
    requires 0 <= i < |chains| && 0 <= j <= |chains[i]|
  {
    forall x :: x in moved <==> x in chains[i][..j] || exists b :: 0 <= b < i && x in chains[b]
  }

  lemma NotMovedYet(chains: seq<seq<int>>, sets: seq<seq<int>>, keys: seq<set<int>>, i: int, j: int, moved: set<int>)
    requires Numbers(chains, sets, keys) && 0 <= i < |chains| && 0 <= j < |chains[i]| && MovedPart(chains, i, j, moved)
    ensures 0 <= chains[i][j] < |sets| && chains[i][j] !in moved
  {
    hide HashOf, Elements;
    ChainEntry(chains, sets, keys, i, j);
    DistinctPrefix(chains[i], j);
    var x := chains[i][j];
    forall b | 0 <= b < i ensures x !in chains[b] {
      assert x in chains[b] ==> BelongsTo(chains, sets, b, x);
    }
  }

  lemma DistinctPrefix(s: seq<int>, j: int)
    requires Distinct(s) && 0 <= j < |s|
    ensures s[j] !in s[..j]
  {
  }

  lemma ChainEntry(chains: seq<seq<int>>, sets: seq<seq<int>>, keys: seq<set<int>>, b: int, j: int)
    requires Numbers(chains, sets, keys) && 0 <= b < |chains| && 0 <= j < |chains[b]|
    ensures 0 <= chains[b][j] < |sets| && chains[b][j] in chains[b] && HashOf(sets[chains[b][j]], |chains|) == b
    ensures Distinct(sets[chains[b][j]]) && keys[chains[b][j]] == Elements(sets[chains[b][j]])
  {
    assert chains[b][j] in chains[b];
    assert chains[b][j] in Visible(sets);
  }

  lemma PartMoved(chains: seq<seq<int>>, i: int, j: int, moved: set<int>, x: int)
    requires 0 <= i < |chains| && 0 <= j < |chains[i]| && x == chains[i][j] && MovedPart(chains, i, j, moved)
    ensures MovedPart(chains, i, j + 1, moved + {x})
  {
    assert chains[i][..j + 1] == chains[i][..j] + [x];
  }

  lemma ChainMoved(chains: seq<seq<int>>, i: int, moved: set<int>)
    requires 0 <= i < |chains| && MovedPart(chains, i, |chains[i]|, moved)
    ensures MovedChains(chains, i + 1, moved)
  {
    assert chains[i][..|chains[i]|] == chains[i];
  }

  lemma AllMoved(chains: seq<seq<int>>, sets: seq<seq<int>>, keys: seq<set<int>>, chains': seq<seq<int>>,
                 moved: set<int>)
    requires Numbers(chains, sets, keys) && MovedChains(chains, |chains|, moved) && Holds(chains', sets, moved)
    ensures Numbers(chains', sets, keys) && |moved| <= |sets|
  {
    forall k ensures k in moved <==> k in Visible(sets) {
      if k in Visible(sets) {
        assert k in chains[HashOf(sets[k], |chains|)];
      }
    }
    assert moved == Visible(sets);
    assert moved <= Indices(|sets|);
    SubsetSize(moved, Indices(|sets|));
    IndicesSize(|sets|);
  }
}
