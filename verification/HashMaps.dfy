/** khashmap: a chained hash table over a fixed pool of elements that are handed out
    in order and never reused.  It refines a finite map. */
module HashMaps {
  import opened Words
  import opened NullsLists

  // ---------------------------------------------------------------------------
  // The number of buckets

  /** roundup_pow_of_two: the bits of an unsigned long from the top but one. */
  method RoundupPow2(n: nat) returns (r: nat, ghost k: nat)
    requires n < Pow2(63)
    ensures r == Pow2(k) && k <= 63 && n <= r && (k == 0 || Pow2(k - 1) < n)
  {
    var i := 63;
    while i != 0
      invariant 0 <= i <= 63 && n <= Pow2(i)
    {
      i := i - 1;
      if Pow2(i) < n {
        return Pow2(i + 1), i + 1;
      }
    }
    return 1, 0;
  }

  lemma Below63(n: u32)
    ensures n < Pow2(63)
  {
    Pow2Of32();
    Pow2Monotone(32, 63);
  }

  /** Stored in 32 bits, the number of buckets is the least power of two that is not
      smaller than max_entries exactly up to 2^31, and 0 beyond. */
  lemma {:induction false} BucketsFit(maxEntries: u32, r: nat, k: nat)
    requires r == Pow2(k) && maxEntries <= r && (k == 0 || Pow2(k - 1) < maxEntries)
    ensures r % TWO32 == r <==> maxEntries <= 0x8000_0000
    ensures maxEntries > 0x8000_0000 ==> r % TWO32 == 0
  {
    Pow2Of32();
    if k <= 31 {
      Pow2Monotone(k, 31);
    } else {
      Pow2Monotone(31, k - 1);
      if k > 32 { Pow2Monotone(32, k - 1); }
    }
  }

  // ---------------------------------------------------------------------------
  // The table

  function Bucket(hash: u32, n: nat): (b: nat)
    requires n > 0
    ensures b < n
  {
    hash % n
  }

  /** The element of a bucket carries its key's hash and its value in the map. */
  ghost predicate EntryOk<V>(x: Elem<V>, hashOf: Key -> u32, n: nat, b: nat, model: map<Key, V>)
    requires n > 0
  {
    x.hash == hashOf(x.key) && Bucket(x.hash, n) == b && x.key in model && model[x.key] == x.value
  }

  ghost predicate BucketOk<V>(m: Heap<V>, used: nat, hashOf: Key -> u32, n: nat, b: nat, chain: seq<nat>, model: map<Key, V>)
    requires n > 0 && used <= |m.elems|
  {
    && Linked(m, b, chain)
    && (forall i :: 0 <= i < |chain| ==> chain[i] < used && EntryOk(m.elems[chain[i]], hashOf, n, b, model))
    && DistinctKeys(m.elems, chain)
  }

  ghost predicate DistinctKeys<V>(elems: seq<Elem<V>>, chain: seq<nat>) {
    forall i, j :: 0 <= i < j < |chain| && chain[i] < |elems| && chain[j] < |elems| ==> elems[chain[i]].key != elems[chain[j]].key
  }

  /** Only the keys matter, and they stay distinct when one is left out. */
  lemma DistinctWithout<V>(elems: seq<Elem<V>>, elems': seq<Elem<V>>, chain: seq<nat>, i: nat)
    requires DistinctKeys(elems, chain) && i < |chain| && |elems'| == |elems|
    requires forall e :: 0 <= e < |elems| ==> elems'[e].key == elems[e].key
    ensures DistinctKeys(elems', chain[..i] + chain[i + 1..])
  {
    var chain' := chain[..i] + chain[i + 1..];
    forall j, l | 0 <= j < l < |chain'| && chain'[j] < |elems'| && chain'[l] < |elems'|
      ensures elems'[chain'[j]].key != elems'[chain'[l]].key
    {
      var o, q := if j < i then j else j + 1, if l < i then l else l + 1;
      assert chain'[j] == chain[o] && chain'[l] == chain[q];
    }
  }

  lemma DistinctSame<V>(elems: seq<Elem<V>>, elems': seq<Elem<V>>, chain: seq<nat>)
    requires DistinctKeys(elems, chain) && |elems'| == |elems|
    requires forall i :: 0 <= i < |chain| ==> chain[i] < |elems| && elems'[chain[i]].key == elems[chain[i]].key
    ensures DistinctKeys(elems', chain)
  {
  }

  lemma DistinctWith<V>(elems: seq<Elem<V>>, elems': seq<Elem<V>>, chain: seq<nat>, e: nat)
    requires DistinctKeys(elems, chain) && |elems'| == |elems| && e < |elems|
    requires forall i :: 0 <= i < |chain| && chain[i] < |elems| ==> elems'[chain[i]].key == elems[chain[i]].key && elems[chain[i]].key != elems'[e].key
    ensures DistinctKeys(elems', [e] + chain)
  {
    var chain' := [e] + chain;
    forall j, l | 0 <= j < l < |chain'| && chain'[j] < |elems'| && chain'[l] < |elems'|
      ensures elems'[chain'[j]].key != elems'[chain'[l]].key
    {
      assert chain'[l] == chain[l - 1];
      if j > 0 { assert chain'[j] == chain[j - 1]; }
    }
  }

  ghost predicate Has<V>(m: Heap<V>, chain: seq<nat>, key: Key) {
    exists i :: 0 <= i < |chain| && chain[i] < |m.elems| && m.elems[chain[i]].key == key
  }

  ghost predicate TableOk<V>(m: Heap<V>, used: nat, hashOf: Key -> u32, n: nat, chains: seq<seq<nat>>, model: map<Key, V>) {
    && |chains| == |m.heads| == n && n > 0 && used <= |m.elems|
    && (forall b :: 0 <= b < n ==> BucketOk(m, used, hashOf, n, b, chains[b], model))
    && (forall k :: k in model ==> Has(m, chains[Bucket(hashOf(k), n)], k))
  }

  ghost predicate SameBut<V>(model: map<Key, V>, model': map<Key, V>, key: Key) {
    forall k :: k != key ==> (k in model' <==> k in model) && (k in model ==> model'[k] == model[k])
  }

  /** The keys of the map that belong to bucket b are in its chain. */
  ghost predicate AllThere<V>(m: Heap<V>, chain: seq<nat>, hashOf: Key -> u32, n: nat, b: nat, model: map<Key, V>)
    requires n > 0
  {
    forall k :: k in model && Bucket(hashOf(k), n) == b ==> Has(m, chain, k)
  }

  lemma TableParts<V>(m: Heap<V>, used: nat, hashOf: Key -> u32, n: nat, chains: seq<seq<nat>>, model: map<Key, V>, b: nat)
    requires TableOk(m, used, hashOf, n, chains, model) && b < n
    ensures |chains| == |m.heads| == n && n > 0 && used <= |m.elems|
    ensures BucketOk(m, used, hashOf, n, b, chains[b], model) && AllThere(m, chains[b], hashOf, n, b, model)
  {
    hide Has, BucketOk;
  }

  /** Elements of different buckets are different. */
  lemma Apart<V>(m: Heap<V>, used: nat, hashOf: Key -> u32, n: nat, chains: seq<seq<nat>>, model: map<Key, V>, b: nat, c: nat, e: nat)
    requires TableOk(m, used, hashOf, n, chains, model) && b < n && c < n && b != c && e in chains[b]
    ensures e !in chains[c]
  {
    hide Bucket;
    assert BucketOk(m, used, hashOf, n, b, chains[b], model) && BucketOk(m, used, hashOf, n, c, chains[c], model);
  }

  /** The one operation behind update, insert and delete: bucket b gets a new chain,
      and nothing changes outside its old one. */
  lemma Rebuild<V>(m: Heap<V>, m': Heap<V>, used: nat, used': nat, hashOf: Key -> u32, n: nat, chains: seq<seq<nat>>, model: map<Key, V>,
                   b: nat, chain': seq<nat>, model': map<Key, V>, key: Key)
    requires TableOk(m, used, hashOf, n, chains, model) && b < n && Bucket(hashOf(key), n) == b
    requires Outside(m, m', used, b, chains[b]) && used <= used' <= |m.elems|
    requires BucketOk(m', used', hashOf, n, b, chain', model')
    requires SameBut(model, model', key)
    requires AllThere(m', chain', hashOf, n, b, model')
    ensures TableOk(m', used', hashOf, n, chains[b := chain'], model')
  {
    hide Bucket, BucketOk, Has;
    var chains' := chains[b := chain'];
    forall c | 0 <= c < n ensures BucketOk(m', used', hashOf, n, c, chains'[c], model') {
      if c != b { OtherBucket(m, m', used, used', hashOf, n, chains, model, b, c, model', key); }
    }
    forall k | k in model' ensures Has(m', chains'[Bucket(hashOf(k), n)], k) {
      if Bucket(hashOf(k), n) != b {
        assert k in model && Has(m, chains[Bucket(hashOf(k), n)], k);
        OtherHas(m, m', used, hashOf, n, chains, model, b, Bucket(hashOf(k), n), k);
      }
    }
  }

  /** Only the head of b and elements of its chain or beyond `used` change. */
  ghost predicate Outside<V>(m: Heap<V>, m': Heap<V>, used: nat, b: nat, chain: seq<nat>) {
    && |m'.heads| == |m.heads| && |m'.elems| == |m.elems|
    && (forall c :: 0 <= c < |m.heads| && c != b ==> m'.heads[c] == m.heads[c])
    && (forall e :: 0 <= e < used && e < |m.elems| && e !in chain ==> m'.elems[e] == m.elems[e])
  }

  lemma OtherSame<V>(m: Heap<V>, m': Heap<V>, used: nat, hashOf: Key -> u32, n: nat, chains: seq<seq<nat>>, model: map<Key, V>, b: nat, c: nat, i: nat)
    requires TableOk(m, used, hashOf, n, chains, model) && b < n && c < n && b != c && Outside(m, m', used, b, chains[b]) && i < |chains[c]|
    ensures chains[c][i] < used && m'.elems[chains[c][i]] == m.elems[chains[c][i]]
  {
    hide Bucket;
    assert BucketOk(m, used, hashOf, n, c, chains[c], model);
    hide BucketOk;
    assert chains[c][i] in chains[c];
    if chains[c][i] in chains[b] { Apart(m, used, hashOf, n, chains, model, b, c, chains[c][i]); }
  }

  lemma OtherBucket<V>(m: Heap<V>, m': Heap<V>, used: nat, used': nat, hashOf: Key -> u32, n: nat, chains: seq<seq<nat>>, model: map<Key, V>,
                       b: nat, c: nat, model': map<Key, V>, key: Key)
    requires TableOk(m, used, hashOf, n, chains, model) && b < n && c < n && b != c && Bucket(hashOf(key), n) == b
    requires Outside(m, m', used, b, chains[b]) && used <= used' <= |m.elems|
    requires SameBut(model, model', key)
    ensures BucketOk(m', used', hashOf, n, c, chains[c], model')
  {
    hide Bucket;
    var chain := chains[c];
    forall i | 0 <= i < |chain| ensures chain[i] < used && m'.elems[chain[i]] == m.elems[chain[i]] {
      OtherSame(m, m', used, hashOf, n, chains, model, b, c, i);
    }
    assert BucketOk(m, used, hashOf, n, c, chain, model);
    hide TableOk;
    OtherLinked(m, m', c, chain);
    DistinctSame(m.elems, m'.elems, chain);
    hide Linked, DistinctKeys;
    forall i | 0 <= i < |chain| ensures EntryOk(m'.elems[chain[i]], hashOf, n, c, model') {
      assert EntryOk(m.elems[chain[i]], hashOf, n, c, model);
    }
  }

  lemma OtherHas<V>(m: Heap<V>, m': Heap<V>, used: nat, hashOf: Key -> u32, n: nat, chains: seq<seq<nat>>, model: map<Key, V>, b: nat, c: nat, k: Key)
    requires TableOk(m, used, hashOf, n, chains, model) && b < n && c < n && b != c && Outside(m, m', used, b, chains[b]) && Has(m, chains[c], k)
    ensures Has(m', chains[c], k)
  {
    hide Bucket;
    var i :| 0 <= i < |chains[c]| && chains[c][i] < |m.elems| && m.elems[chains[c][i]].key == k;
    OtherSame(m, m', used, hashOf, n, chains, model, b, c, i);
  }

  /** Replacing the value of a present key. */
  lemma {:induction false} ReplaceOk<V>(m: Heap<V>, used: nat, hashOf: Key -> u32, n: nat, chains: seq<seq<nat>>, model: map<Key, V>,
                     key: Key, value: V, i: nat)
    requires TableOk(m, used, hashOf, n, chains, model)
    requires var b := Bucket(hashOf(key), n); i < |chains[b]| && chains[b][i] < |m.elems| && m.elems[chains[b][i]].key == key
    ensures var e := chains[Bucket(hashOf(key), n)][i]; var m' := m.(elems := m.elems[e := m.elems[e].(hash := hashOf(key), key := key, value := value)]);
      key in model && TableOk(m', used, hashOf, n, chains, model[key := value])
  {
    hide Bucket, TableOk, BucketOk, AllThere;
    var b := Bucket(hashOf(key), n);
    TableParts(m, used, hashOf, n, chains, model, b);
    var chain := chains[b];
    var e := chain[i];
    var m' := m.(elems := m.elems[e := m.elems[e].(hash := hashOf(key), key := key, value := value)]);
    ReplaceBucket(m, used, hashOf, n, b, chain, model, key, value, i);
    ReplaceThere(m, m', hashOf, n, b, chain, model, key, value);
    assert Outside(m, m', used, b, chain) by { assert e in chain; }
    assert chains[b := chain] == chains;
    Rebuild(m, m', used, used, hashOf, n, chains, model, b, chain, model[key := value], key);
  }

  lemma ReplaceThere<V>(m: Heap<V>, m': Heap<V>, hashOf: Key -> u32, n: nat, b: nat, chain: seq<nat>, model: map<Key, V>, key: Key, value: V)
    requires n > 0 && AllThere(m, chain, hashOf, n, b, model) && key in model && |m'.elems| == |m.elems|
    requires forall e :: 0 <= e < |m.elems| ==> m'.elems[e].key == m.elems[e].key
    ensures AllThere(m', chain, hashOf, n, b, model[key := value])
  {
    hide Bucket, Has;
    forall k | k in model && Bucket(hashOf(k), n) == b ensures Has(m', chain, k) { HasStill(m, m', chain, k); }
  }

  lemma ReplaceBucket<V>(m: Heap<V>, used: nat, hashOf: Key -> u32, n: nat, b: nat, chain: seq<nat>, model: map<Key, V>,
                         key: Key, value: V, i: nat)
    requires n > 0 && used <= |m.elems| && BucketOk(m, used, hashOf, n, b, chain, model) && i < |chain|
    requires chain[i] < |m.elems| && m.elems[chain[i]].key == key
    ensures var e := chain[i]; var m' := m.(elems := m.elems[e := m.elems[e].(hash := hashOf(key), key := key, value := value)]);
      key in model && BucketOk(m', used, hashOf, n, b, chain, model[key := value])
  {
    hide Bucket;
    var e := chain[i];
    var m' := m.(elems := m.elems[e := m.elems[e].(hash := hashOf(key), key := key, value := value)]);
    assert EntryOk(m.elems[chain[i]], hashOf, n, b, model);
    OtherLinked(m, m', b, chain);
    hide Linked;
    forall j | 0 <= j < |chain| ensures chain[j] < used && EntryOk(m'.elems[chain[j]], hashOf, n, b, model[key := value]) {
      assert EntryOk(m.elems[chain[j]], hashOf, n, b, model);
      if j < i { assert m.elems[chain[j]].key != key; } else if i < j { assert m.elems[chain[i]].key != m.elems[chain[j]].key; }
    }
  }

  lemma HasStill<V>(m: Heap<V>, m': Heap<V>, chain: seq<nat>, k: Key)
    requires Has(m, chain, k) && |m'.elems| == |m.elems|
    requires forall e :: 0 <= e < |m.elems| ==> m'.elems[e].key == m.elems[e].key
    ensures Has(m', chain, k)
  {
    var j :| 0 <= j < |chain| && chain[j] < |m.elems| && m.elems[chain[j]].key == k;
    assert m'.elems[chain[j]].key == k;
  }

  /** The memory after linking in element e and filling it. */
  function Inserted<V>(m: Heap<V>, b: nat, e: nat, hash: u32, key: Key, value: V): Heap<V>
    requires b < |m.heads| && e < |m.elems| && (m.heads[b].To? ==> m.heads[b].elem < |m.elems|)
  {
    var m1 := AddHead(m, b, e);
    m1.(elems := m1.elems[e := m1.elems[e].(hash := hash, key := key, value := value)])
  }

  lemma InsertedLinked<V>(m: Heap<V>, b: nat, chain: seq<nat>, e: nat, hash: u32, key: Key, value: V)
    requires Linked(m, b, chain) && e < |m.elems| && e !in chain
    ensures m.heads[b].To? ==> m.heads[b].elem < |m.elems|
    ensures var m' := Inserted(m, b, e, hash, key, value);
      && Linked(m', b, [e] + chain) && Outside(m, m', e, b, chain)
      && m'.elems[e].hash == hash && m'.elems[e].key == key && m'.elems[e].value == value
      && (forall x :: 0 <= x < |m.elems| && x != e ==>
            m'.elems[x].hash == m.elems[x].hash && m'.elems[x].key == m.elems[x].key && m'.elems[x].value == m.elems[x].value)
  {
    AddHeadLinked(m, b, chain, e);
    AddHeadFrame(m, b, chain, e);
    var m1, m' := AddHead(m, b, e), Inserted(m, b, e, hash, key, value);
    hide AddHead;
    OtherLinked(m1, m', b, [e] + chain);
  }

  /** Adding an absent key in the next free element. */
  lemma {:induction false} InsertOk<V>(m: Heap<V>, used: nat, hashOf: Key -> u32, n: nat, chains: seq<seq<nat>>, model: map<Key, V>,
                    key: Key, value: V)
    requires n > 0 && TableOk(m, used, hashOf, n, chains, model) && used < |m.elems| && key !in model
    ensures var b := Bucket(hashOf(key), n); (m.heads[b].To? ==> m.heads[b].elem < |m.elems|)
    ensures var b := Bucket(hashOf(key), n);
      TableOk(Inserted(m, b, used, hashOf(key), key, value), used + 1, hashOf, n, chains[b := [used] + chains[b]], model[key := value])
  {
    hide Bucket, Inserted, TableOk, Linked, AllThere;
    var b := Bucket(hashOf(key), n);
    TableParts(m, used, hashOf, n, chains, model, b);
    var chain := chains[b];
    InsertedLinked(m, b, chain, used, hashOf(key), key, value);
    var m', chain', model' := Inserted(m, b, used, hashOf(key), key, value), [used] + chain, model[key := value];
    InsertBucket(m, m', used, hashOf, n, b, chain, model, key, value);
    InsertThere(m, m', used, hashOf, n, b, chain, model, value);
    Rebuild(m, m', used, used + 1, hashOf, n, chains, model, b, chain', model', key);
  }

  lemma InsertThere<V>(m: Heap<V>, m': Heap<V>, e: nat, hashOf: Key -> u32, n: nat, b: nat, chain: seq<nat>, model: map<Key, V>, value: V)
    requires n > 0 && AllThere(m, chain, hashOf, n, b, model) && |m'.elems| == |m.elems| && e < |m.elems| && e !in chain
    requires forall x :: 0 <= x < |m.elems| && x != e ==> m'.elems[x].key == m.elems[x].key
    ensures AllThere(m', [e] + chain, hashOf, n, b, model[m'.elems[e].key := value])
  {
    hide Bucket, Has;
    var key := m'.elems[e].key;
    forall k | k in model[key := value] && Bucket(hashOf(k), n) == b ensures Has(m', [e] + chain, k) {
      if k == key { HasFirst(m', e, chain); } else { HasMoved(m, m', chain, e, k); }
    }
  }

  lemma InsertBucket<V>(m: Heap<V>, m': Heap<V>, used: nat, hashOf: Key -> u32, n: nat, b: nat, chain: seq<nat>, model: map<Key, V>, key: Key, value: V)
    requires n > 0 && used < |m.elems| == |m'.elems| && Bucket(hashOf(key), n) == b && key !in model
    requires BucketOk(m, used, hashOf, n, b, chain, model) && Linked(m', b, [used] + chain)
    requires forall e :: 0 <= e < |m.elems| && e != used ==> m'.elems[e].hash == m.elems[e].hash && m'.elems[e].key == m.elems[e].key && m'.elems[e].value == m.elems[e].value
    requires m'.elems[used].hash == hashOf(key) && m'.elems[used].key == key && m'.elems[used].value == value
    ensures BucketOk(m', used + 1, hashOf, n, b, [used] + chain, model[key := value])
  {
    hide Bucket, Linked, DistinctKeys;
    var chain', model' := [used] + chain, model[key := value];
    DistinctWith(m.elems, m'.elems, chain, used);
    forall i | 0 <= i < |chain'| ensures chain'[i] < used + 1 && EntryOk(m'.elems[chain'[i]], hashOf, n, b, model') {
      if i > 0 { assert EntryOk(m.elems[chain[i - 1]], hashOf, n, b, model); }
    }
  }

  lemma HasFirst<V>(m: Heap<V>, e: nat, chain: seq<nat>)
    requires e < |m.elems|
    ensures Has(m, [e] + chain, m.elems[e].key)
  {
    assert ([e] + chain)[0] == e;
  }

  lemma HasMoved<V>(m: Heap<V>, m': Heap<V>, chain: seq<nat>, e: nat, k: Key)
    requires Has(m, chain, k) && |m'.elems| == |m.elems|
    requires e < |m.elems| && k != m'.elems[e].key && e !in chain
    requires forall x :: 0 <= x < |m.elems| && x != e ==> m'.elems[x].key == m.elems[x].key
    ensures Has(m', [e] + chain, k)
  {
    var i :| 0 <= i < |chain| && chain[i] < |m.elems| && m.elems[chain[i]].key == k;
    assert ([e] + chain)[i + 1] == chain[i];
  }

  /** Removing a present key. */
  lemma {:induction false} DeleteOk<V>(m: Heap<V>, used: nat, hashOf: Key -> u32, n: nat, chains: seq<seq<nat>>, model: map<Key, V>, key: Key, i: nat)
    requires TableOk(m, used, hashOf, n, chains, model)
    requires var b := Bucket(hashOf(key), n); i < |chains[b]| && chains[b][i] < |m.elems| && m.elems[chains[b][i]].key == key
    ensures var b := Bucket(hashOf(key), n); var chain := chains[b];
      && key in model && DelReady(m, chain[i])
      && TableOk(Del(m, chain[i]), used, hashOf, n, chains[b := chain[..i] + chain[i + 1..]], model - {key})
  {
    hide Bucket, TableOk, AllThere, Del, DelReady, Linked, DistinctKeys;
    var b := Bucket(hashOf(key), n);
    TableParts(m, used, hashOf, n, chains, model, b);
    var chain := chains[b];
    DelLinked(m, b, chain, i);
    var m', chain', model' := Del(m, chain[i]), chain[..i] + chain[i + 1..], model - {key};
    DeleteBucket(m, used, hashOf, n, b, chain, model, key, i);
    DelFrame(m, b, chain, i);
    assert Outside(m, m', used, b, chain);
    DeleteThere(m, m', hashOf, n, b, chain, model, i);
    Rebuild(m, m', used, used, hashOf, n, chains, model, b, chain', model', key);
  }

  lemma DeleteThere<V>(m: Heap<V>, m': Heap<V>, hashOf: Key -> u32, n: nat, b: nat, chain: seq<nat>, model: map<Key, V>, i: nat)
    requires n > 0 && AllThere(m, chain, hashOf, n, b, model) && SameContents(m, m') && i < |chain| && chain[i] < |m.elems|
    ensures AllThere(m', chain[..i] + chain[i + 1..], hashOf, n, b, model - {m.elems[chain[i]].key})
  {
    hide Bucket, Has;
    var model' := model - {m.elems[chain[i]].key};
    forall k | k in model' && Bucket(hashOf(k), n) == b ensures Has(m', chain[..i] + chain[i + 1..], k) {
      HasLeft(m, m', chain, i, k);
    }
  }

  lemma AddHeadFrame<V>(m: Heap<V>, b: nat, chain: seq<nat>, e: nat)
    requires Linked(m, b, chain) && e < |m.elems| && (m.heads[b].To? ==> m.heads[b].elem < |m.elems|)
    ensures var m' := AddHead(m, b, e);
      && SameContents(m, m')
      && (forall c :: 0 <= c < |m.heads| && c != b ==> m'.heads[c] == m.heads[c])
      && (forall x :: 0 <= x < |m.elems| && x !in chain && x != e ==> m'.elems[x] == m.elems[x])
  {
    if chain != [] { assert chain[0] in chain; }
  }

  /** Deleting touches one head and the elements of one chain. */
  lemma DelFrame<V>(m: Heap<V>, b: nat, chain: seq<nat>, i: nat)
    requires Linked(m, b, chain) && i < |chain| && DelReady(m, chain[i])
    ensures var m' := Del(m, chain[i]);
      && SameContents(m, m')
      && (forall c :: 0 <= c < |m.heads| && c != b ==> m'.heads[c] == m.heads[c])
      && (forall e :: 0 <= e < |m.elems| && e !in chain ==> m'.elems[e] == m.elems[e])
  {
    assert LinkOk(m, b, chain, i);
    assert chain[i] in chain;
    if i > 0 { assert chain[i - 1] in chain; }
    if i + 1 < |chain| { assert chain[i + 1] in chain; }
  }

  lemma DeleteBucket<V>(m: Heap<V>, used: nat, hashOf: Key -> u32, n: nat, b: nat, chain: seq<nat>, model: map<Key, V>, key: Key, i: nat)
    requires n > 0 && used <= |m.elems| && BucketOk(m, used, hashOf, n, b, chain, model) && i < |chain| && DelReady(m, chain[i])
    requires m.elems[chain[i]].key == key && Linked(Del(m, chain[i]), b, chain[..i] + chain[i + 1..])
    ensures BucketOk(Del(m, chain[i]), used, hashOf, n, b, chain[..i] + chain[i + 1..], model - {key})
  {
    hide Bucket;
    var m', chain', model' := Del(m, chain[i]), chain[..i] + chain[i + 1..], model - {key};
    DelFrame(m, b, chain, i);
    hide Linked, Del, DelReady;
    assert EntryOk(m.elems[chain[i]], hashOf, n, b, model);
    forall j | 0 <= j < |chain'| ensures chain'[j] < used && EntryOk(m'.elems[chain'[j]], hashOf, n, b, model') {
      var o := if j < i then j else j + 1;
      assert chain'[j] == chain[o] && EntryOk(m.elems[chain[o]], hashOf, n, b, model);
      assert m.elems[chain[o]].key != key;
    }
    DistinctWithout(m.elems, m'.elems, chain, i);
  }

  lemma HasLeft<V>(m: Heap<V>, m': Heap<V>, chain: seq<nat>, i: nat, k: Key)
    requires Has(m, chain, k) && SameContents(m, m') && i < |chain| && chain[i] < |m.elems| && m.elems[chain[i]].key != k
    ensures Has(m', chain[..i] + chain[i + 1..], k)
  {
    var j :| 0 <= j < |chain| && chain[j] < |m.elems| && m.elems[chain[j]].key == k;
    var chain' := chain[..i] + chain[i + 1..];
    assert chain'[if j < i then j else j - 1] == chain[j];
  }

  lemma KeyAbsent<V>(m: Heap<V>, chain: seq<nat>, hashOf: Key -> u32, n: nat, b: nat, model: map<Key, V>, key: Key)
    requires n > 0 && AllThere(m, chain, hashOf, n, b, model) && Bucket(hashOf(key), n) == b
    requires forall i :: 0 <= i < |chain| && chain[i] < |m.elems| ==> m.elems[chain[i]].key != key
    ensures key !in model
  {
    hide Bucket;
    assert !Has(m, chain, key);
  }

  // ---------------------------------------------------------------------------

  class KHashMap<V> {
    const maxEntries: nat
    const hashOf: Key -> u32      // jhash with the table's seed
    const nBuckets: nat
    const heads: array<Link>
    const elems: array<Elem<V>>
    var nextFree: nat
    var count: nat
    ghost const bits: nat
    ghost var chains: seq<seq<nat>>
    ghost var model: map<Key, V>

    ghost predicate Valid()
      reads this, heads, elems
    {
      && |chains| == nBuckets && nBuckets == Pow2(bits) && heads.Length == nBuckets && elems.Length == maxEntries && nextFree <= maxEntries
      && TableOk(Memory(), nextFree, hashOf, nBuckets, chains, model)
      && count == |model|
    }

    ghost function Memory(): Heap<V>
      reads heads, elems
    {
      Heap(heads[..], elems[..])
    }

    constructor (max: u32, hash: Key -> u32, blank: V)
      requires max <= 0x8000_0000
      ensures Valid() && fresh(heads) && fresh(elems) && model == map[] && nextFree == 0
      ensures maxEntries == max && hashOf == hash && nBuckets >= max
    {
      hide Pow2;
      Below63(max);
      var n, k := RoundupPow2(max);
      BucketsFit(max, n, k);
      maxEntries, hashOf, nBuckets, bits := max, hash, n % TWO32, k;
      heads := new Link[n](i requires 0 <= i => Nulls(i));
      elems := new Elem<V>[max](_ => Elem(Nulls(0), Poison, 0, [], blank));
      nextFree, count := 0, 0;
      chains, model := seq(n, _ => []), map[];
    }

    /** `hash & (n_buckets - 1)`. */
    method SelectBucket(hash: u32) returns (b: nat)
      requires Valid()
      ensures b == Bucket(hash, nBuckets)
    {
      hide And, Pow2, TableOk;
      AndMask(hash, bits);
      b := And(hash, nBuckets - 1);
    }

    /** Walks one chain: the element with the key, or the marker at the end. */
    method Walk(b: nat, hash: u32, key: Key) returns (l: Link, ghost i: nat)
      requires Valid() && hash == hashOf(key) && b == Bucket(hash, nBuckets)
      ensures i <= |chains[b]| && l == LinkAt(chains[b], i, b)
      ensures if key in model then l.To? && l.elem < maxEntries && elems[l.elem].key == key && model[key] == elems[l.elem].value
              else l == Nulls(b)
    {
      hide Bucket, TableOk, AllThere, DistinctKeys;
      TableParts(Memory(), nextFree, hashOf, nBuckets, chains, model, b);
      l, i := heads[b], 0;
      while l.To?
        invariant i <= |chains[b]| && l == LinkAt(chains[b], i, b)
        invariant forall j :: 0 <= j < i ==> Memory().elems[chains[b][j]].key != key
        decreases |chains[b]| - i
      {
        assert LinkOk(Memory(), b, chains[b], i);
        assert EntryOk(Memory().elems[chains[b][i]], hashOf, nBuckets, b, model);
        if elems[l.elem].hash == hash && elems[l.elem].key == key {
          return;
        }
        l, i := elems[l.elem].next, i + 1;
      }
      KeyAbsent(Memory(), chains[b], hashOf, nBuckets, b, model, key);
    }

    /** khashmap_lookup_elem.  `again` is the condition of the retry jump. */
    method Lookup(key: Key) returns (r: Option<V>, again: bool)
      requires Valid()
      ensures r == if key in model then Some(model[key]) else None
      ensures !again
    {
      hide Bucket;
      var hash := hashOf(key);
      var b := SelectBucket(hash);
      var l, _ := Walk(b, hash, key);
      if l.To? {
        return Some(elems[l.elem].value), false;
      }
      var mask := SelectBucket(hash);
      return None, l.value != mask;
    }

    /** khashmap_update_elem.  The caller leaves an element for a new key. */
    method Update(key: Key, value: V)
      requires Valid() && (key in model || nextFree < maxEntries)
      modifies this, heads, elems
      ensures Valid() && model == old(model)[key := value]
      ensures nextFree == old(nextFree) + if key in old(model) then 0 else 1
    {
      hide Bucket, TableOk;
      var hash := hashOf(key);
      var b := SelectBucket(hash);
      var l, i := Walk(b, hash, key);
      if l.To? {
        Overwrite(l.elem, hash, key, value, i);
      } else {
        Insert(b, hash, key, value);
      }
    }

    method Overwrite(e: nat, hash: u32, key: Key, value: V, ghost i: nat)
      requires Valid() && hash == hashOf(key) && key in model && e < maxEntries && elems[e].key == key
      requires var chain := chains[Bucket(hash, nBuckets)]; i < |chain| && chain[i] == e
      modifies this, elems
      ensures Valid() && model == old(model)[key := value] && nextFree == old(nextFree)
    {
      hide Bucket, TableOk;
      ghost var m := Memory();
      ReplaceOk(m, nextFree, hashOf, nBuckets, chains, model, key, value, i);
      elems[e] := elems[e].(hash := hash, key := key, value := value);
      assert Memory() == m.(elems := m.elems[e := m.elems[e].(hash := hash, key := key, value := value)]);
      assert model[key := value].Keys == model.Keys;
      model := model[key := value];
    }

    method Insert(b: nat, hash: u32, key: Key, value: V)
      requires Valid() && hash == hashOf(key) && b == Bucket(hash, nBuckets) && key !in model && nextFree < maxEntries
      modifies this, heads, elems
      ensures Valid() && model == old(model)[key := value] && nextFree == old(nextFree) + 1
    {
      hide Bucket, TableOk, AddHead;
      ghost var m := Memory();
      var e := nextFree;
      InsertOk(m, e, hashOf, nBuckets, chains, model, key, value);
      nextFree := nextFree + 1;
      PushFront(b, e);
      count := count + 1;
      elems[e] := elems[e].(hash := hash, key := key, value := value);
      assert Memory() == Inserted(m, b, e, hash, key, value);
      assert model[key := value].Keys == model.Keys + {key};
      chains := chains[b := [e] + chains[b]];
      model := model[key := value];
    }

    method PushFront(b: nat, e: nat)
      requires b < heads.Length && e < elems.Length && (heads[b].To? ==> heads[b].elem < elems.Length)
      modifies heads, elems
      ensures Memory() == AddHead(old(Memory()), b, e)
    {
      var first := heads[b];
      elems[e] := elems[e].(next := first, pprev := Head(b));
      heads[b] := To(e);
      if first.To? {
        elems[first.elem] := elems[first.elem].(pprev := NextOf(e));
      }
    }

    /** khashmap_delete_elem: 0, or 2 for an absent key. */
    method Delete(key: Key) returns (ret: int)
      requires Valid()
      modifies this, heads, elems
      ensures Valid() && model == old(model) - {key} && nextFree == old(nextFree)
      ensures ret == if key in old(model) then 0 else 2
    {
      hide Bucket, TableOk, Del, AddHead, DelReady;
      var hash := hashOf(key);
      var b := SelectBucket(hash);
      var l, i := Walk(b, hash, key);
      if l.To? {
        DeleteOk(Memory(), nextFree, hashOf, nBuckets, chains, model, key, i);
        Unlink(l.elem);
        count := count - 1;
        assert (model - {key}).Keys == model.Keys - {key};
        chains := chains[b := chains[b][..i] + chains[b][i + 1..]];
        model := model - {key};
        ret := 0;
      } else {
        assert model - {key} == model;
        ret := 2;
      }
    }

    method Unlink(e: nat)
      requires DelReady(Memory(), e)
      modifies heads, elems
      ensures Memory() == Del(old(Memory()), e)
    {
      var next, pprev := elems[e].next, elems[e].pprev;
      match pprev {
        case Head(b) => heads[b] := next;
        case NextOf(p) => elems[p] := elems[p].(next := next);
        case Poison =>
      }
      if next.To? {
        elems[next.elem] := elems[next.elem].(pprev := pprev);
      }
      elems[e] := elems[e].(pprev := Poison);
    }
  }
}
