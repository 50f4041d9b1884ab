/** The table sizes of the hash tables. */
module PrimeSizes {

  function Primes(): (r: seq<int>)
    ensures |r| == 26
  {
    [61, 127, 251, 509, 1021, 2039, 4093, 8191, 16381, 32749, 65521, 131071, 262139, 524287, 1048573, 2097143, 4194301,
     8388593, 16777213, 33554393, 67108859, 134217689, 268435399, 536870909, 1073741789, 2147483647]
  }

  lemma PrimesPositive(i: int)
    requires 0 <= i < |Primes()|
    ensures 0 < Primes()[i] <= 0x7fff_ffff && Primes()[i] in Primes()
  {
  }

  lemma TableSizeRange(size: int)
    requires size in Primes()
    ensures 0 < size <= 0x7fff_ffff
  {
    var i :| 0 <= i < |Primes()| && Primes()[i] == size;
    PrimesPositive(i);
  }

  lemma BelowLastPrime(size: int)
    ensures size < 0x7fff_ffff && size in Primes() ==> size <= Primes()[24]
    ensures size <= 0x3fff_ffff ==> size <= Primes()[25]
  {
  }
}
