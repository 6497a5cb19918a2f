/** The AF_XDP rings: power-of-two arrays indexed by u32 counters that wrap, with
    a shared producer and consumer word and a local, possibly stale, copy of the
    word owned by the other side.  Each operation is proved to be the operation
    of the same name on the bounded queue of module Fifo. */
module Rings {
  import opened Words
  import Fifo

  /** The array position of an unbounded index. */
  function Slot(i: nat, size: nat): (r: nat)
    requires size > 0
    ensures r < size
  {
    i % size
  }

  /** `idx & mask` is the slot of the unbounded index that wrapped to `idx`. */
  lemma {:induction false} MaskedSlot(i: nat, k: nat)
    requires k <= 31
    ensures And(i % TWO32, Pow2(k) - 1) == Slot(i, Pow2(k))
  {
    AndMask(i % TWO32, k);
    WrapThenMod(i, k);
  }

  lemma {:induction false} SizeBound(k: nat)
    requires k <= 31
    ensures 1 <= Pow2(k) <= 0x8000_0000
  {
    Pow2Monotone(k, 31);
    Pow2Of32();
    assert Pow2(32) == 2 * Pow2(31);
  }

  /** The difference of two wrapped counters is the true one while it fits. */
  lemma {:induction false} WrappedDifference(a: nat, b: nat)
    requires b <= a < b + TWO32
    ensures Sub32(a % TWO32, b % TWO32) == a - b
  {
    var d := a % TWO32 - b % TWO32;
    assert (a - b) % TWO32 == d % TWO32;
  }

  /** Advancing or rewinding a wrapped counter follows the true one. */
  lemma WrappedAdvance(a: nat, n: nat)
    ensures Add32(a % TWO32, n) == (a + n) % TWO32
    ensures n <= a ==> Sub32(a % TWO32, n) == (a - n) % TWO32
  {
    var q, r := a / TWO32, a % TWO32;
    assert a == TWO32 * q + r;
    SameModulo(r + n, q);
    SameModulo(r - n, q);
  }

  lemma SameModulo(x: int, q: int)
    ensures (TWO32 * q + x) % TWO32 == x % TWO32
  {
    DivModUnique(TWO32 * q + x, TWO32, q + x / TWO32, x % TWO32);
  }

  /** Fewer than `size` positions apart, two indices use different slots. */
  lemma {:induction false} SlotsApart(a: nat, b: nat, size: nat)
    requires size > 0 && a < b < a + size
    ensures Slot(a, size) != Slot(b, size)
  {
    if a % size == b % size {
      var q := b / size - a / size;
      assert b - a == size * q by { MulDistrib(size, a / size, q); }
      if q >= 1 { MulAtLeast(size, q); } else if q <= -1 { MulAtLeast(size, -q); }
      assert false;
    }
  }

  /** struct xsk_ring_prod, used for the fill and tx rings. */
  class XskRingProd<T> {
    var cachedProd: u32
    var cachedCons: u32
    const mask: nat
    const size: nat
    var producer: u32
    var consumer: u32
    const ring: array<T>

    ghost const shift: nat
    ghost var log: seq<T>     // everything ever submitted
    ghost var taken: nat      // how much of it the kernel consumed
    ghost var seen: nat       // the value of `taken` behind cachedCons
    ghost var held: nat       // slots reserved and not submitted

    ghost predicate Valid()
      reads this, ring
    {
      && shift <= 31 && size == Pow2(shift) == ring.Length && mask == size - 1
      && seen <= taken <= |log| && |log| + held <= seen + size
      && producer == |log| % TWO32
      && consumer == taken % TWO32
      && cachedProd == (|log| + held) % TWO32
      && cachedCons == (seen + size) % TWO32
      && forall i :: taken <= i < |log| ==> ring[Slot(i, size)] == log[i]
    }

    ghost function Queue(): Fifo.Prod<T>
      reads this, ring
      requires Valid()
    {
      Fifo.Prod(size, log[taken..], held)
    }

    /** What the reserved slots currently contain. */
    ghost function Staged(): (s: seq<T>)
      reads this, ring
      requires Valid()
      ensures |s| == held
    {
      seq(held, j requires 0 <= j < held reads this, ring requires Valid() => ring[Slot(|log| + j, size)])
    }

    constructor (ring: array<T>, k: nat)
      requires k <= 31 && ring.Length == Pow2(k)
      ensures Valid() && this.ring == ring
      ensures Queue() == Fifo.Prod(Pow2(k), [], 0)
    {
      hide Slot, And, Pow2;
      SizeBound(k);
      this.ring := ring;
      shift, size, mask := k, Pow2(k), Pow2(k) - 1;
      producer, consumer, cachedProd, cachedCons := 0, 0, 0, Pow2(k);
      log, taken, seen, held := [], 0, 0, 0;
    }

    /** xsk_prod_nb_free: exact whenever fewer than `nb` slots seem free. */
    method NbFree(nb: nat) returns (free: nat)
      requires Valid()
      modifies this`cachedCons, this`seen
      ensures Valid() && Queue() == old(Queue())
      ensures free == seen + size - |log| - held
      ensures free < nb ==> seen == taken
    {
      hide Slot, And, Pow2;
      SizeBound(shift);
      WrappedDifference(seen + size, |log| + held);
      free := Sub32(cachedCons, cachedProd);
      if free >= nb { return; }
      cachedCons := consumer;
      cachedCons := Add32(cachedCons, size);
      seen := taken;
      WrappedAdvance(taken, size);
      WrappedDifference(seen + size, |log| + held);
      free := Sub32(cachedCons, cachedProd);
    }

    /** xsk_ring_prod__reserve: a stale cachedCons never costs a reservation. */
    method Reserve(nb: nat) returns (n: nat, idx: u32)
      requires Valid()
      modifies this`cachedCons, this`cachedProd, this`seen, this`held
      ensures Valid()
      ensures (Queue(), n) == Fifo.Reserve(old(Queue()), nb)
      ensures idx == (|log| + old(held)) % TWO32
      ensures held == old(held) + n
    {
      hide Slot, And, Pow2;
      idx := cachedProd;
      var free := NbFree(nb);
      if free < nb { return 0, idx; }
      cachedProd := Add32(cachedProd, nb);
      held := held + nb;
      n := nb;
      WrappedAdvance(|log| + old(held), nb);
    }

    /** `*xsk_ring_prod__fill_addr(ring, idx) = v` on the j-th reserved slot. */
    method Store(idx: u32, v: T, ghost j: nat)
      requires Valid() && j < held && idx == (|log| + j) % TWO32
      modifies ring
      ensures Valid() && Queue() == old(Queue())
      ensures Staged() == old(Staged())[j := v]
    {
      hide Slot, And, Pow2;
      MaskedSlot(|log| + j, shift);
      var slot := And(idx, mask);
      assert slot == Slot(|log| + j, size);
      forall i | taken <= i < |log| + held && i != |log| + j ensures Slot(i, size) != slot {
        if i < |log| + j { SlotsApart(i, |log| + j, size); } else { SlotsApart(|log| + j, i, size); }
      }
      ring[slot] := v;
    }

    /** xsk_ring_prod__submit: the oldest reserved slots join the queue. */
    method Submit(nb: nat)
      requires Valid() && nb <= held
      modifies this`producer, this`log, this`held
      ensures Valid()
      ensures Queue() == Fifo.Submit(old(Queue()), old(Staged())[..nb])
      ensures old(log) <= log && taken == old(taken)
      ensures Staged() == old(Staged())[nb..]
    {
      hide Slot, And, Pow2;
      ghost var more := Staged()[..nb];
      WrappedAdvance(|log|, nb);
      producer := Add32(producer, nb);
      log, held := log + more, held - nb;
      assert forall i :: old(|log|) <= i < |log| ==> log[i] == ring[Slot(i, size)];
      assert log[taken..] == old(log[taken..]) + more;
    }

    /** The kernel consumes the next entry. */
    method KernelTake() returns (v: T)
      requires Valid() && taken < |log|
      modifies this`consumer, this`taken
      ensures Valid()
      ensures (Queue(), v) == Fifo.Take(old(Queue()))
      ensures taken == old(taken) + 1 && v == log[old(taken)]
      ensures Staged() == old(Staged())
    {
      hide Slot, And, Pow2;
      MaskedSlot(taken, shift);
      v := ring[And(consumer, mask)];
      WrappedAdvance(taken, 1);
      consumer := Add32(consumer, 1);
      taken := taken + 1;
    }
  }

  /** struct xsk_ring_cons, used for the rx and completion rings. */
  class XskRingCons<T> {
    var cachedProd: u32
    var cachedCons: u32
    const mask: nat
    const size: nat
    var producer: u32
    var consumer: u32
    const ring: array<T>

    ghost const shift: nat
    ghost var log: seq<T>     // everything the kernel ever produced
    ghost var released: nat   // how much of it was released
    ghost var out: nat        // entries peeked and not released
    ghost var seen: nat       // the value of |log| behind cachedProd

    ghost predicate Valid()
      reads this, ring
    {
      && shift <= 31 && size == Pow2(shift) == ring.Length && mask == size - 1
      && released + out <= seen <= |log| <= released + size
      && producer == |log| % TWO32
      && consumer == released % TWO32
      && cachedProd == seen % TWO32
      && cachedCons == (released + out) % TWO32
      && forall i :: released <= i < |log| ==> ring[Slot(i, size)] == log[i]
    }

    ghost function Queue(): Fifo.Cons<T>
      reads this, ring
      requires Valid()
    {
      Fifo.Cons(size, log[released..], out, seen - released - out)
    }

    constructor (ring: array<T>, k: nat)
      requires k <= 31 && ring.Length == Pow2(k)
      ensures Valid() && this.ring == ring
      ensures Queue() == Fifo.Cons(Pow2(k), [], 0, 0)
    {
      hide Slot, And, Pow2;
      SizeBound(k);
      this.ring := ring;
      shift, size, mask := k, Pow2(k), Pow2(k) - 1;
      producer, consumer, cachedProd, cachedCons := 0, 0, 0, 0;
      log, released, out, seen := [], 0, 0, 0;
    }

    /** xsk_cons_nb_avail. */
    method NbAvail(nb: nat) returns (n: nat)
      requires Valid()
      modifies this`cachedProd, this`seen
      ensures Valid() && seen >= old(seen)
      ensures seen == if old(seen) == released + out then |log| else old(seen)
      ensures n == Min(nb, seen - released - out)
    {
      hide Slot, And, Pow2;
      SizeBound(shift);
      WrappedDifference(seen, released + out);
      var entries := Sub32(cachedProd, cachedCons);
      if entries == 0 {
        cachedProd := producer;
        seen := |log|;
        WrappedDifference(seen, released + out);
        entries := Sub32(cachedProd, cachedCons);
      }
      n := if entries > nb then nb else entries;
    }

    /** xsk_ring_cons__peek. */
    method Peek(nb: nat) returns (n: nat, idx: u32)
      requires Valid()
      modifies this`cachedProd, this`cachedCons, this`seen, this`out
      ensures Valid()
      ensures (Queue(), n) == Fifo.Peek(old(Queue()), nb)
      ensures idx == (released + old(out)) % TWO32
      ensures out == old(out) + n
    {
      hide Slot, And, Pow2;
      n := NbAvail(nb);
      idx := cachedCons;
      if n > 0 {
        WrappedAdvance(released + out, n);
        cachedCons := Add32(cachedCons, n);
        out := out + n;
      }
    }

    /** `*xsk_ring_cons__comp_addr(ring, idx)` on the j-th peeked entry. */
    method Load(idx: u32, ghost j: nat) returns (v: T)
      requires Valid() && j < out && idx == (released + j) % TWO32
      ensures v == Queue().Peeked()[j]
    {
      hide Slot, And, Pow2;
      MaskedSlot(released + j, shift);
      v := ring[And(idx, mask)];
    }

    /** xsk_ring_cons__cancel. */
    method Cancel(nb: nat)
      requires Valid() && nb <= out
      modifies this`cachedCons, this`out
      ensures Valid() && Queue() == Fifo.Cancel(old(Queue()), nb)
    {
      hide Slot, And, Pow2;
      WrappedAdvance(released + out, nb);
      cachedCons := Sub32(cachedCons, nb);
      out := out - nb;
    }

    /** xsk_ring_cons__release. */
    method Release(nb: nat)
      requires Valid() && nb <= out
      modifies this`consumer, this`released, this`out
      ensures Valid() && Queue() == Fifo.Release(old(Queue()), nb)
      ensures log == old(log) && released == old(released) + nb
    {
      hide Slot, And, Pow2;
      WrappedAdvance(released, nb);
      consumer := Add32(consumer, nb);
      released, out := released + nb, out - nb;
      assert log[released..] == old(log[released..])[nb..];
    }

    /** The kernel produces one entry into a ring that has room. */
    method KernelPut(v: T)
      requires Valid() && |log| < released + size
      modifies ring, this`producer, this`log
      ensures Valid() && Queue() == Fifo.Put(old(Queue()), v)
      ensures log == old(log) + [v]
    {
      hide Slot, And, Pow2;
      MaskedSlot(|log|, shift);
      forall i | released <= i < |log| ensures Slot(i, size) != Slot(|log|, size) {
        SlotsApart(i, |log|, size);
      }
      ring[And(producer, mask)] := v;
      WrappedAdvance(|log|, 1);
      producer := Add32(producer, 1);
      log := log + [v];
      assert log[released..] == old(log[released..]) + [v];
    }
  }
}
