/** Jenkins' hash over bytes and over 32-bit words of a little-endian machine. */
module Jenkins {
  import opened Words
  import opened BitVectors

  datatype Triple = Triple(a: u32, b: u32, c: u32)

  const INITVAL: u32 := 0xdeadbeef

  function Xor32(x: u32, y: u32): u32 {
    Pow2Of32();
    XorBound(x, y, 32);
    Xor(x, y)
  }

  function Or32(x: u32, y: u32): u32 {
    Pow2Of32();
    OrBound(x, y, 32);
    Or(x, y)
  }

  function ShiftLeft(w: u32, s: nat): u32 { w * Pow2(s) % TWO32 }

  function Rol(w: u32, s: nat): u32
    requires 0 < s < 32
  {
    Or32(ShiftLeft(w, s), ShiftRight(w, 32 - s))
  }

  /** It is a rotation: the low 32 - s bits move up and the others come in below. */
  lemma {:induction false} RolRotates(w: u32, s: nat)
    requires 0 < s < 32
    ensures Rol(w, s) == (w % Pow2(32 - s)) * Pow2(s) + w / Pow2(32 - s)
  {
    hide Pow2, Or, Rol;
    RolIs(w, s);
    assert Pow2(32 - s) * Pow2(s) == TWO32 by {
      Pow2Of32();
      Pow2Add(32 - s, s);
    }
    Shifted(w, Pow2(32 - s), Pow2(s));
    var hi, lo := w / Pow2(32 - s), w % Pow2(32 - s);
    OrDisjoint(lo, hi, s);
  }

  lemma RolIs(w: u32, s: nat)
    requires 0 < s < 32
    ensures Rol(w, s) == Or(ShiftLeft(w, s), ShiftRight(w, 32 - s))
  {
    hide Pow2, Or, ShiftLeft, ShiftRight;
  }

  lemma Shifted(w: u32, d: nat, e: nat)
    requires d > 0 && e > 0 && d * e == TWO32
    ensures w / d < e && w * e % TWO32 == (w % d) * e
  {
    var hi, lo := w / d, w % d;
    assert w == d * hi + lo;
    HighPart(hi, d, e, w, lo);
    LowPart(hi, lo, d, e, w);
  }

  lemma HighPart(hi: nat, d: nat, e: nat, w: nat, lo: nat)
    requires d > 0 && w == d * hi + lo && w < d * e
    ensures hi < e
  {
    if hi >= e { MulGrows(d, e, hi); }
  }

  lemma MulGrows(d: nat, e: nat, x: nat)
    requires x >= e
    ensures d * x >= d * e
  {
    MulDistrib(d, e, x - e);
    assert d * (x - e) >= 0;
  }

  lemma LowPart(hi: nat, lo: nat, d: nat, e: nat, w: nat)
    requires d > 0 && e > 0 && w == d * hi + lo && lo < d && d * e > 0
    ensures w * e % (d * e) == lo * e
  {
    var de, we, le := d * e, w * e, lo * e;
    assert we == de * hi + le by { LowSum(hi, lo, d, e); }
    assert le < de by { LowLess(lo, d, e); }
    hide *;
    DivModUnique(we, de, hi, le);
  }

  lemma LowSum(hi: nat, lo: nat, d: nat, e: nat)
    ensures (d * hi + lo) * e == (d * e) * hi + lo * e
  {
    MulDistrib(e, d * hi, lo);
    MulAssoc(e, d, hi);
  }

  lemma LowLess(lo: nat, d: nat, e: nat)
    requires lo < d && e > 0
    ensures lo * e < d * e
  {
    MulDistrib(e, d - lo, lo);
    MulGrows(e, 1, d - lo);
  }

  lemma {:induction false} OrDisjoint(x: nat, y: nat, s: nat)
    requires y < Pow2(s)
    ensures Or(x * Pow2(s), y) == x * Pow2(s) + y
    decreases s
  {
    if s > 0 {
      OrDisjoint(x, y / 2, s - 1);
      var h := x * Pow2(s - 1);
      assert x * Pow2(s) == 2 * h by { MulAssoc(x, 2, Pow2(s - 1)); MulAssoc(2, x, Pow2(s - 1)); }
      OrDouble(h, y);
    } else {
      assert x * 1 == x;
    }
  }

  lemma OrDouble(h: nat, y: nat)
    requires Or(h, y / 2) == h + y / 2
    ensures Or(2 * h, y) == 2 * h + y
  {
  }

  // ---------------------------------------------------------------------------
  // Mixing

  /** `x -= z; x ^= rol32(z, s); z += y`. */
  function Stir(x: u32, y: u32, z: u32, s: nat): (u32, u32)
    requires 0 < s < 32
  {
    (Xor32(Sub32(x, z), Rol(z, s)), Add32(z, y))
  }

  /** What undoes it: `z -= y; x ^= rol32(z, s); x += z`. */
  function Unstir(x: u32, y: u32, z: u32, s: nat): (u32, u32)
    requires 0 < s < 32
  {
    var z' := Sub32(z, y);
    (Add32(Xor32(x, Rol(z', s)), z'), z')
  }

  lemma StirUnstir(x: u32, y: u32, z: u32, s: nat)
    requires 0 < s < 32
    ensures var (x', z') := Stir(x, y, z, s); Unstir(x', y, z', s) == (x, z)
    ensures var (x', z') := Unstir(x, y, z, s); Stir(x', y, z', s) == (x, z)
  {
    hide Rol, Add32, Sub32, Xor;
    XorCancel(Sub32(x, z), Rol(z, s));
    AddSub(z, y);
    AddSub(x, z);
    var z' := Sub32(z, y);
    XorCancel(x, Rol(z', s));
    AddSub(Xor32(x, Rol(z', s)), z');
  }

  lemma AddSub(x: u32, y: u32)
    ensures Sub32(Add32(x, y), y) == x && Add32(Sub32(x, y), y) == x
  {
  }

  /** __jhash_mix. */
  function Mix(t: Triple): Triple {
    var (a1, c1) := Stir(t.a, t.b, t.c, 4);
    var (b1, a2) := Stir(t.b, c1, a1, 6);
    var (c2, b2) := Stir(c1, a2, b1, 8);
    var (a3, c3) := Stir(a2, b2, c2, 16);
    var (b3, a4) := Stir(b2, c3, a3, 19);
    var (c4, b4) := Stir(c3, a4, b3, 4);
    Triple(a4, b4, c4)
  }

  function Unmix(t: Triple): Triple {
    var (c3, b3) := Unstir(t.c, t.a, t.b, 4);
    var (b2, a3) := Unstir(b3, c3, t.a, 19);
    var (a2, c2) := Unstir(a3, b2, c3, 16);
    var (c1, b1) := Unstir(c2, a2, b2, 8);
    var (b0, a1) := Unstir(b1, c1, a2, 6);
    var (a0, c0) := Unstir(a1, b0, c1, 4);
    Triple(a0, b0, c0)
  }

  /** Mixing is reversible: a bijection on triples. */
  lemma {:induction false} MixBijection(t: Triple)
    ensures Unmix(Mix(t)) == t && Mix(Unmix(t)) == t
  {
    UnmixMix(t);
    MixUnmix(t);
  }

  lemma UnmixMix(t: Triple)
    ensures Unmix(Mix(t)) == t
  {
    hide Stir, Unstir;
    var (a1, c1) := Stir(t.a, t.b, t.c, 4);
    StirUnstir(t.a, t.b, t.c, 4);
    var (b1, a2) := Stir(t.b, c1, a1, 6);
    StirUnstir(t.b, c1, a1, 6);
    var (c2, b2) := Stir(c1, a2, b1, 8);
    StirUnstir(c1, a2, b1, 8);
    var (a3, c3) := Stir(a2, b2, c2, 16);
    StirUnstir(a2, b2, c2, 16);
    var (b3, a4) := Stir(b2, c3, a3, 19);
    StirUnstir(b2, c3, a3, 19);
    StirUnstir(c3, a4, b3, 4);
  }

  lemma MixUnmix(t: Triple)
    ensures Mix(Unmix(t)) == t
  {
    hide Stir, Unstir;
    var (c3, b3) := Unstir(t.c, t.a, t.b, 4);
    StirUnstir(t.c, t.a, t.b, 4);
    var (b2, a3) := Unstir(b3, c3, t.a, 19);
    StirUnstir(b3, c3, t.a, 19);
    var (a2, c2) := Unstir(a3, b2, c3, 16);
    StirUnstir(a3, b2, c3, 16);
    var (c1, b1) := Unstir(c2, a2, b2, 8);
    StirUnstir(c2, a2, b2, 8);
    var (b0, a1) := Unstir(b1, c1, a2, 6);
    StirUnstir(b1, c1, a2, 6);
    StirUnstir(a1, b0, c1, 4);
  }

  /** `y ^= z; y -= rol32(z, s)`. */
  function Close(y: u32, z: u32, s: nat): u32
    requires 0 < s < 32
  {
    Sub32(Xor32(y, z), Rol(z, s))
  }

  /** __jhash_final. */
  function FinalAll(t: Triple): Triple {
    var c1 := Close(t.c, t.b, 14);
    var a1 := Close(t.a, c1, 11);
    var b1 := Close(t.b, a1, 25);
    var c2 := Close(c1, b1, 16);
    var a2 := Close(a1, c2, 4);
    var b2 := Close(b1, a2, 14);
    Triple(a2, b2, Close(c2, b2, 24))
  }

  /** Only c is used. */
  function Final(t: Triple): u32 { FinalAll(t).c }

  /** What undoes closing: `y += rol32(z, s); y ^= z`. */
  function Reopen(y: u32, z: u32, s: nat): u32
    requires 0 < s < 32
  {
    Xor32(Add32(y, Rol(z, s)), z)
  }

  lemma CloseReopen(y: u32, z: u32, s: nat)
    requires 0 < s < 32
    ensures Reopen(Close(y, z, s), z, s) == y && Close(Reopen(y, z, s), z, s) == y
  {
    hide Rol, Add32, Sub32, Xor;
    AddSub(Xor32(y, z), Rol(z, s));
    XorCancel(y, z);
    var w := Add32(y, Rol(z, s));
    XorCancel(w, z);
    AddSub(y, Rol(z, s));
  }

  function Unfinal(t: Triple): Triple {
    var c2 := Reopen(t.c, t.b, 24);
    var b1 := Reopen(t.b, t.a, 14);
    var a1 := Reopen(t.a, c2, 4);
    var c1 := Reopen(c2, b1, 16);
    var b0 := Reopen(b1, a1, 25);
    var a0 := Reopen(a1, c1, 11);
    Triple(a0, b0, Reopen(c1, b0, 14))
  }

  /** The final mix is reversible too, before two of its three words are dropped. */
  lemma {:induction false} FinalBijection(t: Triple)
    ensures Unfinal(FinalAll(t)) == t && FinalAll(Unfinal(t)) == t
  {
    UnfinalFinal(t);
    FinalUnfinal(t);
  }

  lemma UnfinalFinal(t: Triple)
    ensures Unfinal(FinalAll(t)) == t
  {
    hide Close, Reopen;
    var c1 := Close(t.c, t.b, 14);
    CloseReopen(t.c, t.b, 14);
    var a1 := Close(t.a, c1, 11);
    CloseReopen(t.a, c1, 11);
    var b1 := Close(t.b, a1, 25);
    CloseReopen(t.b, a1, 25);
    var c2 := Close(c1, b1, 16);
    CloseReopen(c1, b1, 16);
    var a2 := Close(a1, c2, 4);
    CloseReopen(a1, c2, 4);
    var b2 := Close(b1, a2, 14);
    CloseReopen(b1, a2, 14);
    CloseReopen(c2, b2, 24);
  }

  lemma FinalUnfinal(t: Triple)
    ensures FinalAll(Unfinal(t)) == t
  {
    hide Close, Reopen;
    var c2 := Reopen(t.c, t.b, 24);
    CloseReopen(t.c, t.b, 24);
    var b1 := Reopen(t.b, t.a, 14);
    CloseReopen(t.b, t.a, 14);
    var a1 := Reopen(t.a, c2, 4);
    CloseReopen(t.a, c2, 4);
    var c1 := Reopen(c2, b1, 16);
    CloseReopen(c2, b1, 16);
    var b0 := Reopen(b1, a1, 25);
    CloseReopen(b1, a1, 25);
    CloseReopen(a1, c1, 11);
    CloseReopen(c1, b0, 14);
  }

  // ---------------------------------------------------------------------------
  // Over words

  /** A length as a 32-bit number. */
  function Length32(n: nat): u32 { n % TWO32 }

  function Start(n: nat, initval: u32): Triple {
    var x := Add32(Add32(INITVAL, Length32(n)), initval);
    Triple(x, x, x)
  }

  function Absorb(t: Triple, x: u32, y: u32, z: u32): Triple { Triple(Add32(t.a, x), Add32(t.b, y), Add32(t.c, z)) }

  /** Word i of k, or zero beyond its end. */
  function WordOr0(k: seq<u32>, i: nat): u32 { if i < |k| then k[i] else 0 }

  /** The hash of words: blocks of three, and the rest padded with zeros. */
  function HashWords(t: Triple, k: seq<u32>): u32
    decreases |k|
  {
    if |k| > 3 then HashWords(Mix(Absorb(t, k[0], k[1], k[2])), k[3..])
    else if |k| == 0 then t.c
    else Final(Absorb(t, WordOr0(k, 0), WordOr0(k, 1), WordOr0(k, 2)))
  }

  /** jhash2. */
  method Jhash2(k: seq<u32>, initval: u32) returns (r: u32)
    ensures r == HashWords(Start(4 * |k|, initval), k)
  {
    hide Mix, Final, Length32, Add32;
    var x := Add32(Add32(INITVAL, Length32(4 * |k|)), initval);
    var a, b, c := x, x, x;
    var i := 0;
    while |k| - i > 3
      invariant 0 <= i <= |k|
      invariant HashWords(Triple(a, b, c), k[i..]) == HashWords(Start(4 * |k|, initval), k)
    {
      assert k[i..][3..] == k[i + 3..];
      a, b, c := Add32(a, k[i]), Add32(b, k[i + 1]), Add32(c, k[i + 2]);
      var t := Mix(Triple(a, b, c));
      a, b, c := t.a, t.b, t.c;
      i := i + 3;
    }
    var left := |k| - i;
    if left == 0 {
      return c;
    }
    ghost var before := Triple(a, b, c);
    if left >= 3 { c := Add32(c, k[i + 2]); }
    if left >= 2 { b := Add32(b, k[i + 1]); }
    a := Add32(a, k[i]);
    AddZero(before.b);
    AddZero(before.c);
    assert Triple(a, b, c) == Absorb(before, WordOr0(k[i..], 0), WordOr0(k[i..], 1), WordOr0(k[i..], 2));
    r := Final(Triple(a, b, c));
  }

  /** The hash of nothing is the constant that every hash starts from. */
  lemma EmptyHash(initval: u32)
    ensures HashWords(Start(0, initval), []) == (0xdead_beef + initval) % TWO32
    ensures HashBytes(Start(0, initval), []) == (0xdead_beef + initval) % TWO32
  {
  }

  lemma AddZero(x: u32)
    ensures Add32(x, 0) == x
  {
  }

  /** jhash_3words, jhash_2words and jhash_1word are jhash2 on that many words. */
  function NWords(a: u32, b: u32, c: u32, initval: u32): u32 {
    Final(Triple(Add32(a, initval), Add32(b, initval), Add32(c, initval)))
  }

  lemma {:induction false} FixedWords(a: u32, b: u32, c: u32, initval: u32)
    ensures NWords(a, b, c, Add32(Add32(initval, INITVAL), Length32(12))) == HashWords(Start(12, initval), [a, b, c])
    ensures NWords(a, b, 0, Add32(Add32(initval, INITVAL), Length32(8))) == HashWords(Start(8, initval), [a, b])
    ensures NWords(a, 0, 0, Add32(Add32(initval, INITVAL), Length32(4))) == HashWords(Start(4, initval), [a])
  {
    hide Final, Length32, Add32;
    Commute(a, initval, Length32(12)); Commute(b, initval, Length32(12)); Commute(c, initval, Length32(12));
    Commute(a, initval, Length32(8)); Commute(b, initval, Length32(8)); Commute(0, initval, Length32(8));
    Commute(a, initval, Length32(4)); Commute(0, initval, Length32(4));
  }

  lemma Commute(x: u32, v: u32, n: u32)
    ensures Add32(x, Add32(Add32(v, INITVAL), n)) == Add32(Add32(Add32(INITVAL, n), v), x)
  {
    var i: int := INITVAL;
    Grouped(v, i, n);
    Swapped(x, Add32(Add32(v, i), n));
    Grouped(v, i + n, x);
    Grouped(i, n, v);
    Grouped(i, n + v, x);
    Swapped(v, i + n + x);
    hide Add32;
    assert Add32(v, i + n + x) == Add32(i, n + v + x) by { Rotated(v, i, n + x); }
  }

  lemma Swapped(x: int, y: int)
    ensures Add32(x, y) == Add32(y, x)
  {
  }

  lemma Rotated(x: int, y: int, z: int)
    ensures Add32(x, y + z) == Add32(y, z + x)
  {
  }

  // ---------------------------------------------------------------------------
  // Over bytes

  /** Byte i of k in its place, or zero beyond the end. */
  function ByteAt(k: seq<u8>, i: nat, shift: nat): u32
    requires shift == 1 || shift == 0x100 || shift == 0x1_0000 || shift == 0x100_0000
  {
    if i < |k| then k[i] * shift else 0
  }

  /** The little-endian word at i. */
  function Load(k: seq<u8>, i: nat): u32 {
    ByteAt(k, i, 1) + ByteAt(k, i + 1, 0x100) + ByteAt(k, i + 2, 0x1_0000) + ByteAt(k, i + 3, 0x100_0000)
  }

  function HashBytes(t: Triple, k: seq<u8>): u32
    decreases |k|
  {
    if |k| > 12 then HashBytes(Mix(Absorb(t, Load(k, 0), Load(k, 4), Load(k, 8))), k[12..])
    else if |k| == 0 then t.c
    else Final(Absorb(t, Load(k, 0), Load(k, 4), Load(k, 8)))
  }

  /** One word of the last block, added byte by byte from the top one present. */
  method Tail(x: u32, k: seq<u8>, i: nat) returns (y: u32)
    ensures y == Add32(x, Load(k, i))
  {
    hide Add32;
    y := x;
    if i + 3 < |k| { y := Add32(y, ByteAt(k, i + 3, 0x100_0000)); }
    if i + 2 < |k| { y := Add32(y, ByteAt(k, i + 2, 0x1_0000)); }
    if i + 1 < |k| { y := Add32(y, ByteAt(k, i + 1, 0x100)); }
    if i < |k| { y := Add32(y, ByteAt(k, i, 1)); }
    var p, q, r, s := ByteAt(k, i, 1), ByteAt(k, i + 1, 0x100), ByteAt(k, i + 2, 0x1_0000), ByteAt(k, i + 3, 0x100_0000);
    AddZero(x); AddZero(Add32(x, s)); AddZero(Add32(Add32(x, s), r)); AddZero(Add32(Add32(Add32(x, s), r), q));
    assert y == Add32(Add32(Add32(Add32(x, s), r), q), p);
    Reordered(x, p, q, r, s);
  }

  lemma Reordered(x: u32, p: u32, q: u32, r: u32, s: u32)
    ensures Add32(Add32(Add32(Add32(x, s), r), q), p) == Add32(x, p + q + r + s)
  {
    Grouped(x, s, r);
    Grouped(x, s + r, q);
    Grouped(x, s + r + q, p);
  }

  lemma Grouped(x: int, p: int, q: int)
    ensures Add32(Add32(x, p), q) == Add32(x, p + q)
  {
  }

  /** jhash. */
  method Jhash(k: seq<u8>, initval: u32) returns (r: u32)
    ensures r == HashBytes(Start(|k|, initval), k)
  {
    hide Mix, Final, Length32, Load, Add32;
    var x := Add32(Add32(INITVAL, Length32(|k|)), initval);
    var a, b, c := x, x, x;
    var i := 0;
    while |k| - i > 12
      invariant 0 <= i <= |k|
      invariant HashBytes(Triple(a, b, c), k[i..]) == HashBytes(Start(|k|, initval), k)
    {
      assert k[i..][12..] == k[i + 12..];
      a, b, c := Add32(a, Load(k[i..], 0)), Add32(b, Load(k[i..], 4)), Add32(c, Load(k[i..], 8));
      var t := Mix(Triple(a, b, c));
      a, b, c := t.a, t.b, t.c;
      i := i + 12;
    }
    if i == |k| {
      return c;
    }
    c := Tail(c, k[i..], 8);
    b := Tail(b, k[i..], 4);
    a := Tail(a, k[i..], 0);
    r := Final(Triple(a, b, c));
  }

  // ---------------------------------------------------------------------------
  // Bytes against words

  function Bytes(w: u32): seq<u8> {
    var w1 := w / 0x100;
    var w2 := w1 / 0x100;
    [w % 0x100, w1 % 0x100, w2 % 0x100, w2 / 0x100]
  }

  function AllBytes(k: seq<u32>): (b: seq<u8>)
    ensures |b| == 4 * |k|
    decreases |k|
  {
    if k == [] then [] else Bytes(k[0]) + AllBytes(k[1..])
  }

  lemma LoadBytes(w: u32)
    ensures Load(Bytes(w), 0) == w
  {
    var b := Bytes(w);
    var b0: int, b1: int, b2: int, b3: int := b[0], b[1], b[2], b[3];
    assert w / 0x100 / 0x100 == 0x100 * b3 + b2;
    assert w / 0x100 == 0x100 * (0x100 * b3 + b2) + b1;
    assert w == 0x100 * (0x100 * (0x100 * b3 + b2) + b1) + b0;
    assert Load(b, 0) == b0 + 0x100 * b1 + 0x1_0000 * b2 + 0x100_0000 * b3;
  }

  lemma {:induction false} LoadWord(k: seq<u32>, i: nat)
    ensures Load(AllBytes(k), 4 * i) == WordOr0(k, i)
    decreases i
  {
    if i >= |k| {
    } else if i == 0 {
      LoadBytes(k[0]);
    } else {
      LoadWord(k[1..], i - 1);
    }
  }

  lemma {:induction false} DropWords(k: seq<u32>, n: nat)
    requires n <= |k|
    ensures AllBytes(k)[4 * n..] == AllBytes(k[n..])
    decreases n
  {
    if n > 0 {
      DropWords(k[1..], n - 1);
      assert k[1..][n - 1..] == k[n..];
      assert AllBytes(k)[4 * n..] == AllBytes(k[1..])[4 * (n - 1)..];
    }
  }

  /** The two hashes agree: the bytes of a sequence of words hash like the words. */
  lemma {:induction false} BytesHashLikeWords(t: Triple, k: seq<u32>)
    ensures HashBytes(t, AllBytes(k)) == HashWords(t, k)
    decreases |k|
  {
    hide Mix, Final, Load, Absorb;
    LoadWord(k, 0);
    LoadWord(k, 1);
    LoadWord(k, 2);
    if |k| > 3 {
      DropWords(k, 3);
      BytesHashLikeWords(Mix(Absorb(t, k[0], k[1], k[2])), k[3..]);
    }
  }

  lemma {:induction false} JhashIsJhash2(k: seq<u32>, initval: u32)
    ensures HashBytes(Start(|AllBytes(k)|, initval), AllBytes(k)) == HashWords(Start(4 * |k|, initval), k)
  {
    BytesHashLikeWords(Start(4 * |k|, initval), k);
  }
}
