/**
 The open-addressed hash of integer triples that numbers the states of every product
 construction: linear probing, an automatically increasing key, doubling at half load.
 */
module TripletHashing {
  import opened Automata
  import opened Counting

  datatype Triple = Triple(a: int, b: int, c: int)

  /** One table entry; `key == -1` marks it free. */
  datatype Slot = Slot(triple: Triple, key: int)

  /** 32-bit unsigned hash value. */
  function HashValue(t: Triple): (h: int)
    ensures 0 <= h < 0x1_0000_0000
  {
    (t.a * 7907 + t.b * 86028157 + t.c * 7919) % 0x1_0000_0000
  }

  function Home(t: Triple, size: int): (h: int)
    requires 0 < size
    ensures 0 <= h < size
  {
    HashValue(t) % size
  }

  /** The `i`th slot that linear probing inspects, `i` at most the table size. */
  function Probe(home: int, i: int, size: int): int {
    if home + i < size then home + i else home + i - size
  }

  /** Every slot that linear probing inspects from `h` before it comes to `p` is taken. */
  ghost predicate Run(t: seq<Slot>, h: int, p: int)
    requires 0 <= h < |t| && 0 <= p < |t|
  {
    if h <= p then forall x :: h <= x < p ==> t[x].key != -1
    else (forall x :: h <= x < |t| ==> t[x].key != -1) && (forall x :: 0 <= x < p ==> t[x].key != -1)
  }

  ghost predicate At(t: seq<Slot>, keys: seq<Triple>, k: int, p: int)
    requires 0 <= k < |keys|
  {
    && 0 <= p < |t|
    && t[p].key == k
    && Run(t, Home(keys[k], |t|), p)
  }

  /** The table `t` stores exactly the numbered triples `keys[k]` for `k` in `present`. */
  ghost predicate Holds(t: seq<Slot>, keys: seq<Triple>, present: set<int>) {
    && 0 < |t|
    && (forall k :: k in present ==> 0 <= k < |keys|)
    && (forall p :: 0 <= p < |t| && t[p].key != -1 ==> t[p].key in present && t[p].triple == keys[t[p].key])
    && (forall p, q :: 0 <= p < q < |t| && t[p].key != -1 ==> t[p].key != t[q].key)
    && (forall k :: k in present ==> exists p :: At(t, keys, k, p))
  }

  // ----- A table with fewer entries than slots has a free slot -----

  /** The keys found in the first `n` slots. */
  ghost function KeysUpTo(t: seq<Slot>, n: nat): set<int>
    requires n <= |t|
  {
    if n == 0 then {}
    else KeysUpTo(t, n - 1) + (if t[n - 1].key == -1 then {} else {t[n - 1].key})
  }

  lemma {:induction false} KeysUpToElement(t: seq<Slot>, n: nat, k: int)
    requires n <= |t|
    ensures k in KeysUpTo(t, n) <==> k != -1 && exists p :: 0 <= p < n && t[p].key == k
  {
    if n != 0 {
      KeysUpToElement(t, n - 1, k);
    }
  }

  lemma AllKeysFound(t: seq<Slot>, keys: seq<Triple>, present: set<int>)
    requires Holds(t, keys, present)
    ensures KeysUpTo(t, |t|) == present
  {
    forall k ensures k in KeysUpTo(t, |t|) <==> k in present {
      KeysUpToElement(t, |t|, k);
      if k in present {
        var p :| At(t, keys, k, p);
      }
    }
  }

  lemma {:induction false} FullPrefix(t: seq<Slot>, keys: seq<Triple>, present: set<int>, n: nat)
    requires Holds(t, keys, present) && n <= |t|
    requires forall p :: 0 <= p < n ==> t[p].key != -1
    ensures |KeysUpTo(t, n)| == n
  {
    if n != 0 {
      FullPrefix(t, keys, present, n - 1);
      KeysUpToElement(t, n - 1, t[n - 1].key);
      assert t[n - 1].key !in KeysUpTo(t, n - 1);
    }
  }

  lemma NeverFull(t: seq<Slot>, keys: seq<Triple>, present: set<int>)
    requires Holds(t, keys, present) && |present| < |t|
    ensures exists p :: 0 <= p < |t| && t[p].key == -1
  {
    if forall p :: 0 <= p < |t| ==> t[p].key != -1 {
      FullPrefix(t, keys, present, |t|);
      AllKeysFound(t, keys, present);
    }
  }

  lemma FreeTable(t: seq<Slot>, keys: seq<Triple>)
    requires 0 < |t| && forall p :: 0 <= p < |t| ==> t[p].key == -1
    ensures Holds(t, keys, {})
  {
  }

  /** Storing a new numbered triple in the free slot that probing found keeps the table right. */
  lemma Placed(t: seq<Slot>, keys: seq<Triple>, present: set<int>, k: int, p: int)
    requires Holds(t, keys, present)
    requires 0 <= k < |keys| && k !in present
    requires 0 <= p < |t| && t[p].key == -1 && Run(t, Home(keys[k], |t|), p)
    ensures Holds(t[p := Slot(keys[k], k)], keys, present + {k})
  {
    var t' := t[p := Slot(keys[k], k)];
    assert Run(t', Home(keys[k], |t|), p);
    assert At(t', keys, k, p);
    forall j | j in present ensures exists q :: At(t', keys, j, q) {
      var q :| At(t, keys, j, q);
      assert At(t', keys, j, q);
    }
  }

  /** Table contents only depend on the numbered triples that are present. */
  lemma KeysExtended(t: seq<Slot>, keys: seq<Triple>, present: set<int>, keys': seq<Triple>)
    requires Holds(t, keys, present) && keys <= keys'
    ensures Holds(t, keys', present)
  {
    forall k | k in present ensures exists p :: At(t, keys', k, p) {
      var p :| At(t, keys, k, p);
      assert At(t, keys', k, p);
    }
  }

  class TripletHash {
    var triplets: array<Slot>
    var occupancy: nat
    /** The stored triples in insertion order: the key of `keys[i]` is `i`. */
    ghost var keys: seq<Triple>

    ghost predicate Valid()
      reads this, triplets
    {
      && occupancy == |keys|
      && 2 * occupancy <= triplets.Length
      && Distinct(keys)
      && Holds(triplets[..], keys, Indices(|keys|))
    }

    constructor ()
      ensures Valid() && fresh(triplets)
      ensures keys == []
    {
      triplets := new Slot[128](_ => Slot(Triple(0, 0, 0), -1));
      occupancy := 0;
      keys := [];
    }

    /** The probe loop shared by both insertions: the first free slot for `t`. */
    method FreeSlot(t: Triple, ghost ks: seq<Triple>, ghost present: set<int>) returns (hash: int)
      requires Holds(triplets[..], ks, present) && |present| < triplets.Length
      ensures 0 <= hash < triplets.Length && triplets[hash].key == -1
      ensures Run(triplets[..], Home(t, triplets.Length), hash)
    {
      hide Holds;
      ghost var home := Home(t, triplets.Length);
      hash := HashValue(t) % triplets.Length;
      ghost var seen := 0;
      while triplets[hash].key != -1
        invariant 0 <= seen <= triplets.Length && 0 <= hash < triplets.Length
        invariant hash == if home + seen < triplets.Length then home + seen else home + seen - triplets.Length
        invariant forall x :: home <= x < home + seen && x < triplets.Length ==> triplets[x].key != -1
        invariant forall x :: 0 <= x < home + seen - triplets.Length ==> triplets[x].key != -1
        decreases triplets.Length - seen
      {
        if seen == triplets.Length {
          NeverFull(triplets[..], ks, present);
          assert false;
        }
        hash := hash + 1;
        if hash >= triplets.Length {
          hash := hash - triplets.Length;
        }
        seen := seen + 1;
      }
    }

    /** Stores a triple under the key it already has; used while rehashing. */
    method InsertWithKey(t: Triple, key: int, ghost present: set<int>)
      requires Holds(triplets[..], keys, present) && |present| < triplets.Length
      requires 0 <= key < |keys| && keys[key] == t && key !in present
      modifies triplets
      ensures Holds(triplets[..], keys, present + {key})
    {
      var hash := FreeSlot(t, keys, present);
      Placed(triplets[..], keys, present, key, hash);
      triplets[hash] := Slot(t, key);
      assert triplets[..] == old(triplets[..])[hash := Slot(t, key)];
    }

    /** One step of rehashing: reinserts the `i`th entry of the old table, if it is one. */
    method MoveEntry(entry: Slot, ghost before: seq<Slot>, ghost i: nat)
      requires Holds(before, keys, Indices(|keys|)) && i < |before| && entry == before[i]
      requires Holds(triplets[..], keys, KeysUpTo(before, i)) && |keys| < triplets.Length
      modifies triplets
      ensures Holds(triplets[..], keys, KeysUpTo(before, i + 1))
    {
      if entry.key != -1 {
        NotYetMoved(before, keys, i);
        InsertWithKey(entry.triple, entry.key, KeysUpTo(before, i));
      } else {
        assert KeysUpTo(before, i + 1) == KeysUpTo(before, i);
      }
    }

    /** The loop of rehashing: reinserts every entry of the old table. */
    method Refill(oldtriplets: array<Slot>)
      requires Holds(oldtriplets[..], keys, Indices(|keys|)) && oldtriplets != triplets
      requires Holds(triplets[..], keys, {}) && |keys| < triplets.Length
      modifies triplets
      ensures Holds(triplets[..], keys, Indices(|keys|))
    {
      hide Holds;
      ghost var before := oldtriplets[..];
      AllKeysFound(before, keys, Indices(|keys|));
      var i := 0;
      while i < oldtriplets.Length
        invariant 0 <= i <= oldtriplets.Length && oldtriplets[..] == before
        invariant Holds(triplets[..], keys, KeysUpTo(before, i))
      {
        assert oldtriplets[i] == before[i];
        MoveEntry(oldtriplets[i], before, i);
        i := i + 1;
      }
    }

    /** Doubles the table, keeping every entry under its key. */
    method Rehash()
      requires occupancy == |keys| <= triplets.Length
      requires Holds(triplets[..], keys, Indices(|keys|))
      modifies this`triplets
      ensures triplets.Length == 2 * old(triplets.Length) && fresh(triplets)
      ensures Holds(triplets[..], keys, Indices(|keys|))
    {
      assert 0 < triplets.Length;
      hide Holds;
      var oldtriplets := triplets;
      triplets := new Slot[2 * oldtriplets.Length](_ => Slot(Triple(0, 0, 0), -1));
      FreeTable(triplets[..], keys);
      Refill(oldtriplets);
    }

    /** Gives a triple that is not stored yet the next key. */
    method Insert(t: Triple) returns (key: int)
      requires Valid() && t !in keys
      modifies this, triplets
      ensures Valid() && (triplets == old(triplets) || fresh(triplets))
      ensures keys == old(keys) + [t]
      ensures key == |old(keys)|
    {
      IndicesSize(|keys|);
      var hash := FreeSlot(t, keys, Indices(|keys|));
      Stored(triplets[..], keys, t, hash);
      triplets[hash] := Slot(t, occupancy);
      assert triplets[..] == old(triplets[..])[hash := Slot(t, occupancy)];
      occupancy := occupancy + 1;
      keys := keys + [t];
      if occupancy > triplets.Length / 2 {
        Rehash();
      }
      key := occupancy - 1;
    }

    /** The key of a stored triple, or -1. */
    method Find(t: Triple) returns (key: int)
      requires Valid()
      ensures key == -1 ==> t !in keys
      ensures key != -1 ==> 0 <= key < |keys| && keys[key] == t
    {
      ghost var table := triplets[..];
      ghost var home := Home(t, |table|);
      var hash := HashValue(t) % triplets.Length;
      var j := 0;
      while j < triplets.Length
        invariant 0 <= j <= triplets.Length && 0 <= hash < triplets.Length
        invariant hash == Probe(home, j, |table|)
        invariant Missed(table, t, j)
      {
        assert triplets[hash] == table[hash];
        if triplets[hash].key == -1 {
          NotBeyondGap(table, keys, t, j);
          return -1;
        }
        if triplets[hash].triple == t {
          return triplets[hash].key;
        }
        hash := hash + 1;
        if hash >= triplets.Length {
          hash := hash - triplets.Length;
        }
        j := j + 1;
      }
      AllMissed(table, keys, t);
      return -1;
    }
  }

  /** While rehashing, the entry in slot `i` is one that no earlier slot held. */
  lemma NotYetMoved(t: seq<Slot>, keys: seq<Triple>, i: nat)
    requires Holds(t, keys, Indices(|keys|)) && i < |t| && t[i].key != -1
    ensures 0 <= t[i].key < |keys| && keys[t[i].key] == t[i].triple
    ensures t[i].key !in KeysUpTo(t, i)
    ensures |KeysUpTo(t, i)| <= |keys|
  {
    KeysUpToElement(t, i, t[i].key);
    assert forall k :: k in KeysUpTo(t, i) ==> k in Indices(|keys|) by {
      forall k | k in KeysUpTo(t, i) ensures k in Indices(|keys|) {
        KeysUpToElement(t, i, k);
      }
    }
    IndicesSize(|keys|);
    SubsetSize(KeysUpTo(t, i), Indices(|keys|));
  }

  lemma Stored(t: seq<Slot>, keys: seq<Triple>, x: Triple, p: int)
    requires Holds(t, keys, Indices(|keys|)) && Distinct(keys) && x !in keys
    requires 0 <= p < |t| && t[p].key == -1 && Run(t, Home(x, |t|), p)
    ensures Holds(t[p := Slot(x, |keys|)], keys + [x], Indices(|keys + [x]|)) && Distinct(keys + [x])
  {
    var grown := keys + [x];
    assert grown[|keys|] == x && Distinct(grown);
    KeysExtended(t, keys, Indices(|keys|), grown);
    Placed(t, grown, Indices(|keys|), |keys|, p);
    assert Indices(|grown|) == Indices(|keys|) + {|keys|};
  }

  /** The first `j` probes for `x` met other triples only. */
  ghost predicate Missed(t: seq<Slot>, x: Triple, j: int)
    requires 0 <= j <= |t|
  {
    forall i :: 0 <= i < j ==> t[Probe(Home(x, |t|), i, |t|)].triple != x
  }

  lemma NotInRun(t: seq<Slot>, x: Triple, j: int, p: int)
    requires 0 <= j < |t| && t[Probe(Home(x, |t|), j, |t|)].key == -1 && Missed(t, x, j)
    requires 0 <= p < |t| && Run(t, Home(x, |t|), p) && t[p].key != -1
    ensures t[p].triple != x
  {
    var home := Home(x, |t|);
    var i := if home <= p then p - home else p - home + |t|;
    assert Probe(home, i, |t|) == p;
  }

  /** No probe gap hides a key: what probing has not met before a free slot is not stored. */
  lemma NotBeyondGap(t: seq<Slot>, keys: seq<Triple>, x: Triple, j: int)
    requires Holds(t, keys, Indices(|keys|))
    requires 0 <= j < |t| && t[Probe(Home(x, |t|), j, |t|)].key == -1 && Missed(t, x, j)
    ensures x !in keys
  {
    forall k | 0 <= k < |keys| ensures keys[k] != x {
      assert k in Indices(|keys|);
      var p :| At(t, keys, k, p);
      if keys[k] == x {
        NotInRun(t, x, j, p);
      }
    }
  }

  lemma AllMissed(t: seq<Slot>, keys: seq<Triple>, x: Triple)
    requires Holds(t, keys, Indices(|keys|))
    requires Missed(t, x, |t|)
    ensures x !in keys
  {
    forall k | 0 <= k < |keys| ensures keys[k] != x {
      assert k in Indices(|keys|);
      var p :| At(t, keys, k, p);
      var home := Home(x, |t|);
      var i := if home <= p then p - home else p - home + |t|;
      assert p == Probe(home, i, |t|);
    }
  }
}
