/** A bit vector packed into 32-bit words, updated in place. */
module BitVectors {
  import opened Words

  /** Digit j of x, from the least significant. */
  predicate Bit(x: nat, j: nat)
    decreases j
  {
    if j == 0 then x % 2 == 1 else Bit(x / 2, j - 1)
  }

  /** Bitwise `|`, one binary digit at a time. */
  function Or(x: nat, y: nat): nat
    decreases x + y
  {
    if x == 0 then y else if y == 0 then x
    else 2 * Or(x / 2, y / 2) + (if x % 2 + y % 2 > 0 then 1 else 0)
  }

  lemma {:induction false} BitZero(j: nat)
    ensures !Bit(0, j)
  {
    if j > 0 { BitZero(j - 1); }
  }

  lemma {:induction false} OrBit(x: nat, y: nat, j: nat)
    ensures Bit(Or(x, y), j) <==> Bit(x, j) || Bit(y, j)
    decreases j
  {
    BitZero(j);
    if x > 0 && y > 0 {
      var z, d := Or(x / 2, y / 2), if x % 2 + y % 2 > 0 then 1 else 0;
      assert (2 * z + d) / 2 == z && (2 * z + d) % 2 == d;
      if j > 0 { OrBit(x / 2, y / 2, j - 1); }
    }
  }

  lemma {:induction false} AndBit(x: nat, y: nat, j: nat)
    ensures Bit(And(x, y), j) <==> Bit(x, j) && Bit(y, j)
    decreases j
  {
    BitZero(j);
    if x > 0 && y > 0 {
      var z, d := And(x / 2, y / 2), (x % 2) * (y % 2);
      assert d == if x % 2 == 1 && y % 2 == 1 then 1 else 0;
      assert (2 * z + d) / 2 == z && (2 * z + d) % 2 == d;
      if j > 0 { AndBit(x / 2, y / 2, j - 1); }
    }
  }

  lemma {:induction false} OrBound(x: nat, y: nat, k: nat)
    requires x < Pow2(k) && y < Pow2(k)
    ensures Or(x, y) < Pow2(k)
    decreases k
  {
    if k > 0 && x > 0 && y > 0 { OrBound(x / 2, y / 2, k - 1); }
  }

  /** `1 << k` has the one digit k. */
  lemma {:induction false} Pow2Bit(k: nat, j: nat)
    ensures Bit(Pow2(k), j) <==> j == k
    decreases k
  {
    if k == 0 {
      if j > 0 { BitZero(j - 1); }
    } else {
      assert Pow2(k) / 2 == Pow2(k - 1) && Pow2(k) % 2 == 0;
      if j > 0 { Pow2Bit(k - 1, j - 1); }
    }
  }

  /** Subtracting from n ones flips the digits. */
  lemma {:induction false} NotBit(x: nat, n: nat, j: nat)
    requires x < Pow2(n) && j < n
    ensures Bit(Pow2(n) - 1 - x, j) <==> !Bit(x, j)
    decreases n
  {
    var m := Pow2(n - 1);
    assert Pow2(n) == 2 * m;
    assert (2 * m - 1 - x) / 2 == m - 1 - x / 2 && (2 * m - 1 - x) % 2 == 1 - x % 2;
    if j > 0 { NotBit(x / 2, n - 1, j - 1); }
  }

  /** `x >> j`. */
  function Shifted(x: nat, j: nat): nat
    decreases j
  {
    if j == 0 then x else Shifted(x / 2, j - 1)
  }

  lemma {:induction false} ShiftedBit(x: nat, j: nat)
    ensures And(Shifted(x, j), 1) == 1 <==> Bit(x, j)
    ensures And(Shifted(x, j), 1) <= 1
    decreases j
  {
    if j == 0 { AndMask(x, 1); } else { ShiftedBit(x / 2, j - 1); }
  }

  /** The words that bit_vect_new allocates: a spare one for exact multiples. */
  function MemWords(numBits: nat): nat {
    numBits / 32 + if numBits % 32 == 0 then 1 else 0
  }

  /** All bits lie inside the allocated words exactly when the number of bits is a
      multiple of 32. */
  lemma {:induction false} InBoundsIff(numBits: nat)
    ensures (forall i: nat :: i < numBits ==> i / 32 < MemWords(numBits)) <==> numBits % 32 == 0
  {
    if numBits % 32 != 0 {
      var last := numBits - 1;
      assert last / 32 == numBits / 32 == MemWords(numBits);
    }
  }

  class BitVector {
    const mem: array<u32>
    const size: nat

    ghost predicate Valid() {
      size % 32 == 0 && mem.Length == MemWords(size)
    }

    /** The indices of the bits that are set. */
    ghost function Bits(): set<nat>
      requires Valid()
      reads mem
    {
      set i: nat | i < size && Bit(mem[i / 32], i % 32)
    }

    constructor (numBits: nat)
      requires numBits % 32 == 0
      ensures Valid() && fresh(mem) && size == numBits && Bits() == {}
    {
      mem := new u32[MemWords(numBits)](_ => 0);
      size := numBits;
      new;
      forall i: nat | i < numBits ensures !Bit(mem[i / 32], i % 32) { BitZero(i % 32); }
    }

    method Get(i: nat) returns (b: bool)
      requires Valid() && i < size
      ensures b <==> i in Bits()
    {
      var w := mem[i / 32];
      ShiftedBit(w, i % 32);
      b := And(Shifted(w, i % 32), 1) == 1;
    }

    method Set(i: nat, val: bool)
      requires Valid() && i < size
      modifies mem
      ensures Valid()
      ensures Bits() == if val then old(Bits()) + {i} else old(Bits()) - {i}
    {
      var chunk, offset := i / 32, i % 32;
      var w, bit := mem[chunk], Pow2(offset);
      Pow2Of32();
      Pow2Below(offset);
      if val {
        OrBound(w, bit, 32);
        mem[chunk] := Or(w, bit);
      } else {
        mem[chunk] := And(w, TWO32 - 1 - bit);
      }
      forall k: nat | k < size
        ensures k in Bits() <==> (if k == i then val else k in old(Bits()))
      {
        if k / 32 == chunk { WordChange(w, offset, k % 32, val); }
      }
    }
  }

  lemma Pow2Below(offset: nat)
    requires offset < 32
    ensures Pow2(offset) < TWO32
  {
    Pow2Of32();
    Pow2Monotone(offset, 31);
    assert Pow2(32) == 2 * Pow2(31);
  }

  /** Setting or clearing one digit of a word leaves the others. */
  lemma WordChange(w: u32, offset: nat, j: nat, val: bool)
    requires offset < 32 && j < 32 && Pow2(offset) < TWO32
    ensures var w' := if val then Or(w, Pow2(offset)) else And(w, TWO32 - 1 - Pow2(offset));
      Bit(w', j) <==> if j == offset then val else Bit(w, j)
  {
    hide Bit, Or, And, Pow2;
    Pow2Of32();
    OrBit(w, Pow2(offset), j);
    AndBit(w, TWO32 - 1 - Pow2(offset), j);
    Pow2Bit(offset, j);
    NotBit(Pow2(offset), 32, j);
  }
}
