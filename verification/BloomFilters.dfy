/** The Bloom filter over a packed bit vector. */
module BloomFilters {
  import opened Words
  import opened BitVectors

  type Key = seq<u8>

  /** The bits that stand for a key, under the first n hash functions. */
  function Marks(hashes: seq<Key -> u32>, n: nat, size: nat, key: Key): set<nat>
    requires size > 0 && n <= |hashes|
  {
    if n == 0 then {} else Marks(hashes, n - 1, size, key) + {hashes[n - 1](key) % size}
  }

  function Positions(hashes: seq<Key -> u32>, size: nat, key: Key): set<nat>
    requires size > 0
  {
    Marks(hashes, |hashes|, size, key)
  }

  function Union(hashes: seq<Key -> u32>, size: nat, keys: seq<Key>): set<nat>
    requires size > 0
    decreases keys
  {
    if keys == [] then {}
    else Union(hashes, size, keys[..|keys| - 1]) + Positions(hashes, size, keys[|keys| - 1])
  }

  lemma {:induction false} MarksGrow(hashes: seq<Key -> u32>, m: nat, n: nat, size: nat, key: Key)
    requires size > 0 && m <= n <= |hashes|
    ensures Marks(hashes, m, size, key) <= Marks(hashes, n, size, key)
    decreases n
  {
    if m < n { MarksGrow(hashes, m, n - 1, size, key); }
  }

  /** Every hash function marks one bit, and nothing else does. */
  lemma {:induction false} MarksAre(hashes: seq<Key -> u32>, n: nat, size: nat, key: Key, x: nat)
    requires size > 0 && n <= |hashes|
    ensures x in Marks(hashes, n, size, key) <==> exists i :: 0 <= i < n && hashes[i](key) % size == x
    decreases n
  {
    if n > 0 {
      MarksAre(hashes, n - 1, size, key, x);
      if x == hashes[n - 1](key) % size { assert hashes[n - 1](key) % size == x; }
    }
  }

  lemma OneMorePut(hashes: seq<Key -> u32>, size: nat, keys: seq<Key>, key: Key)
    requires size > 0
    ensures Union(hashes, size, keys + [key]) == Union(hashes, size, keys) + Positions(hashes, size, key)
  {
    assert (keys + [key])[..|keys|] == keys;
  }

  /** No false negatives, whatever was put. */
  lemma {:induction false} PutIsFound(hashes: seq<Key -> u32>, size: nat, keys: seq<Key>, k: nat)
    requires size > 0 && k < |keys|
    ensures Positions(hashes, size, keys[k]) <= Union(hashes, size, keys)
    decreases keys
  {
    if k < |keys| - 1 { PutIsFound(hashes, size, keys[..|keys| - 1], k); }
  }

  class BloomFilter {
    const vect: BitVector
    const hashes: seq<Key -> u32>
    var numItems: nat
    ghost var puts: seq<Key>      // all keys that were put, in order

    ghost predicate Valid()
      reads this, vect, vect.mem
    {
      vect.Valid() && vect.size > 0 && vect.Bits() == Union(hashes, vect.size, puts)
    }

    constructor (size: nat, hashFunctions: seq<Key -> u32>)
      requires size > 0 && size % 32 == 0
      ensures Valid() && fresh(vect) && fresh(vect.mem) && vect.size == size && hashes == hashFunctions && puts == [] && numItems == 0
    {
      vect := new BitVector(size);
      hashes := hashFunctions;
      numItems := 0;
      puts := [];
    }

    method Put(key: Key)
      requires Valid()
      modifies this, vect.mem
      ensures Valid() && puts == old(puts) + [key]
      ensures vect.Bits() == old(vect.Bits()) + Positions(hashes, vect.size, key)
      ensures numItems == old(numItems) + |hashes|
    {
      hide Bit;
      for i := 0 to |hashes|
        invariant puts == old(puts)
        invariant vect.Bits() == old(vect.Bits()) + Marks(hashes, i, vect.size, key)
        invariant numItems == old(numItems) + i
      {
        var hash := hashes[i](key);
        vect.Set(hash % vect.size, true);
        numItems := numItems + 1;
      }
      puts := puts + [key];
      OneMorePut(hashes, vect.size, old(puts), key);
    }

    /** True exactly when the key's bits lie among those of all keys put so far. */
    method Test(key: Key) returns (b: bool)
      requires Valid()
      ensures b <==> Positions(hashes, vect.size, key) <= Union(hashes, vect.size, puts)
    {
      hide Bit;
      for i := 0 to |hashes|
        invariant Marks(hashes, i, vect.size, key) <= vect.Bits()
      {
        var hash := hashes[i](key);
        var present := vect.Get(hash % vect.size);
        if !present {
          MarksGrow(hashes, i + 1, |hashes|, vect.size, key);
          assert hash % vect.size in Positions(hashes, vect.size, key);
          return false;
        }
      }
      return true;
    }
  }
}
