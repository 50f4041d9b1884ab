/** Linked chains whose head is a table slot: a new link goes behind the head. */
module Chains {

  function Chained<T(!new)>(chain: seq<T>, x: T): (r: seq<T>)
    ensures |r| == |chain| + 1 && forall y :: y in r <==> y in chain || y == x
  {
    if chain == [] then [x]
    else
      assert chain == [chain[0]] + chain[1..];
      [chain[0], x] + chain[1..]
  }
}
