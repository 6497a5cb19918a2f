/** Chains of elements that end in a marker with a value: each element
    knows the next link and the place of the link that leads to it. */
module NullsLists {
  import opened Words

  type Key = seq<u8>

  /** The value of a link: an element, or the marker of the end of a chain. */
  datatype Link = To(elem: nat) | Nulls(value: nat)

  /** Where a link is stored: what `pprev` points to. */
  datatype Place = Head(bucket: nat) | NextOf(elem: nat) | Poison

  datatype Elem<V> = Elem(next: Link, pprev: Place, hash: u32, key: Key, value: V)

  /** The heads of all chains and the elements, in memory. */
  datatype Heap<V> = Heap(heads: seq<Link>, elems: seq<Elem<V>>)

  // ---------------------------------------------------------------------------
  // The list operations

  /** hlist_nulls_add_head. */
  function AddHead<V>(m: Heap<V>, b: nat, e: nat): Heap<V>
    requires b < |m.heads| && e < |m.elems| && (m.heads[b].To? ==> m.heads[b].elem < |m.elems|)
  {
    var first := m.heads[b];
    var elems1 := m.elems[e := m.elems[e].(next := first, pprev := Head(b))];
    var elems2 := if first.To? then elems1[first.elem := elems1[first.elem].(pprev := NextOf(e))] else elems1;
    Heap(m.heads[b := To(e)], elems2)
  }

  /** hlist_nulls_del. */
  function Del<V>(m: Heap<V>, e: nat): Heap<V>
    requires e < |m.elems| && (m.elems[e].next.To? ==> m.elems[e].next.elem < |m.elems|)
    requires m.elems[e].pprev.Head? ==> m.elems[e].pprev.bucket < |m.heads|
    requires m.elems[e].pprev.NextOf? ==> m.elems[e].pprev.elem < |m.elems|
  {
    var next, pprev := m.elems[e].next, m.elems[e].pprev;
    var heads := if pprev.Head? then m.heads[pprev.bucket := next] else m.heads;
    var elems1 := if pprev.NextOf? then m.elems[pprev.elem := m.elems[pprev.elem].(next := next)] else m.elems;
    var elems2 := if next.To? then elems1[next.elem := elems1[next.elem].(pprev := pprev)] else elems1;
    Heap(heads, elems2[e := elems2[e].(pprev := Poison)])
  }

  // ---------------------------------------------------------------------------
  // Chains

  function LinkAt(chain: seq<nat>, i: nat, b: nat): Link { if i < |chain| then To(chain[i]) else Nulls(b) }

  function PlaceAt(chain: seq<nat>, i: nat, b: nat): Place
    requires i <= |chain|
  {
    if i == 0 then Head(b) else NextOf(chain[i - 1])
  }

  ghost predicate NoRepeats(chain: seq<nat>) { forall i, j :: 0 <= i < j < |chain| ==> chain[i] != chain[j] }

  /** Element number i of the chain of bucket b is linked both ways. */
  ghost predicate LinkOk<V>(m: Heap<V>, b: nat, chain: seq<nat>, i: nat)
    requires i < |chain|
  {
    chain[i] < |m.elems| && m.elems[chain[i]].next == LinkAt(chain, i + 1, b) && m.elems[chain[i]].pprev == PlaceAt(chain, i, b)
  }

  /** The chain is what one meets from the head, and the back-links are right. */
  ghost predicate Linked<V>(m: Heap<V>, b: nat, chain: seq<nat>) {
    && b < |m.heads| && m.heads[b] == LinkAt(chain, 0, b)
    && (forall i :: 0 <= i < |chain| ==> LinkOk(m, b, chain, i))
    && NoRepeats(chain)
  }

  /** Same key, value and hash: only links changed. */
  ghost predicate SameContents<V>(m: Heap<V>, m': Heap<V>) {
    |m'.elems| == |m.elems| && |m'.heads| == |m.heads|
    && forall e :: 0 <= e < |m.elems| ==>
         m'.elems[e].hash == m.elems[e].hash && m'.elems[e].key == m.elems[e].key && m'.elems[e].value == m.elems[e].value
  }

  /** Adding an element that is in no chain puts it in front of one chain. */
  lemma {:induction false} AddHeadLinked<V>(m: Heap<V>, b: nat, chain: seq<nat>, e: nat)
    requires Linked(m, b, chain) && e < |m.elems| && e !in chain
    ensures (m.heads[b].To? ==> m.heads[b].elem < |m.elems|) && Linked(AddHead(m, b, e), b, [e] + chain)
  {
    if chain != [] { assert LinkOk(m, b, chain, 0); }
    var m', chain' := AddHead(m, b, e), [e] + chain;
    forall i | 0 <= i < |chain'| ensures LinkOk(m', b, chain', i) {
      if i > 0 { assert LinkOk(m, b, chain, i - 1); }
    }
  }

  /** Deleting element number i of a chain takes it out of that chain. */
  lemma {:induction false} DelLinked<V>(m: Heap<V>, b: nat, chain: seq<nat>, i: nat)
    requires Linked(m, b, chain) && i < |chain|
    ensures DelReady(m, chain[i]) && Linked(Del(m, chain[i]), b, chain[..i] + chain[i + 1..])
  {
    var e := chain[i];
    assert LinkOk(m, b, chain, i);
    if i > 0 { assert LinkOk(m, b, chain, i - 1); }
    if i + 1 < |chain| { assert LinkOk(m, b, chain, i + 1); }
    var m', chain' := Del(m, e), chain[..i] + chain[i + 1..];
    forall j | 0 <= j < |chain'| ensures LinkOk(m', b, chain', j) {
      DelLinkOk(m, b, chain, i, j);
    }
  }

  ghost predicate DelReady<V>(m: Heap<V>, e: nat) {
    && e < |m.elems| && (m.elems[e].next.To? ==> m.elems[e].next.elem < |m.elems|)
    && (m.elems[e].pprev.Head? ==> m.elems[e].pprev.bucket < |m.heads|)
    && (m.elems[e].pprev.NextOf? ==> m.elems[e].pprev.elem < |m.elems|)
  }

  lemma DelLinkOk<V>(m: Heap<V>, b: nat, chain: seq<nat>, i: nat, j: nat)
    requires Linked(m, b, chain) && i < |chain| && j < |chain| - 1 && DelReady(m, chain[i])
    ensures LinkOk(Del(m, chain[i]), b, chain[..i] + chain[i + 1..], j)
  {
    assert LinkOk(m, b, chain, i);
    assert LinkOk(m, b, chain, if j < i then j else j + 1);
  }

  /** A chain is untouched by list operations on another one. */
  lemma OtherLinked<V>(m: Heap<V>, m': Heap<V>, c: nat, chain: seq<nat>)
    requires Linked(m, c, chain) && |m'.heads| == |m.heads| && |m'.elems| == |m.elems| && m'.heads[c] == m.heads[c]
    requires forall i :: 0 <= i < |chain| && chain[i] < |m.elems| ==>
      m'.elems[chain[i]].next == m.elems[chain[i]].next && m'.elems[chain[i]].pprev == m.elems[chain[i]].pprev
    ensures Linked(m', c, chain)
  {
    forall i | 0 <= i < |chain| ensures LinkOk(m', c, chain, i) { assert LinkOk(m, c, chain, i); }
  }
}
