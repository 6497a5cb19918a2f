/** Machine words over unbounded integers: wrap-around, powers of two and the
    bitwise operators that the C sources apply to them. */
module Words {

  const TWO8: nat := 0x100
  const TWO16: nat := 0x1_0000
  const TWO32: nat := 0x1_0000_0000

  type u8 = x: int | 0 <= x < 0x100
  type u16 = x: int | 0 <= x < 0x1_0000
  type u32 = x: int | 0 <= x < 0x1_0000_0000

  /** Unsigned 32-bit addition and subtraction. */
  function Add32(a: int, b: int): u32 { (a + b) % TWO32 }

  function Sub32(a: int, b: int): u32 { (a - b) % TWO32 }

  datatype Option<T> = None | Some(value: T)

  function Min(a: nat, b: nat): nat { if a <= b then a else b }

  function Pow2(k: nat): (p: nat)
    ensures p >= 1
  {
    if k == 0 then 1 else 2 * Pow2(k - 1)
  }

  lemma Pow2Add(a: nat, b: nat)
    ensures Pow2(a + b) == Pow2(a) * Pow2(b)
  {
    if a > 0 { Pow2Add(a - 1, b); }
  }

  lemma Pow2Monotone(a: nat, b: nat)
    requires a <= b
    ensures Pow2(a) <= Pow2(b)
    decreases b - a
  {
    if a < b { Pow2Monotone(a, b - 1); }
  }

  /** Bitwise `&` and `^`, one binary digit at a time. */
  function And(x: nat, y: nat): (r: nat)
    ensures r <= x && r <= y
  {
    if x == 0 || y == 0 then 0 else 2 * And(x / 2, y / 2) + (x % 2) * (y % 2)
  }

  function Xor(x: nat, y: nat): nat
    decreases x + y
  {
    if x == 0 then y else if y == 0 then x
    else 2 * Xor(x / 2, y / 2) + (x + y) % 2
  }

  /** `x & (2^k - 1)` keeps the low k bits. */
  lemma {:induction false} AndMask(x: nat, k: nat)
    ensures And(x, Pow2(k) - 1) == x % Pow2(k)
    decreases k
  {
    if k == 0 {
      AndZero(x);
    } else if x == 0 {
      ZeroMod(Pow2(k));
    } else {
      var m := Pow2(k - 1);
      assert Pow2(k) == 2 * m;
      AndMask(x / 2, k - 1);
      hide *;
      AndMaskStep(x, m);
    }
  }

  lemma AndZero(x: nat)
    ensures And(x, 0) == x % 1
  {
  }

  lemma ZeroMod(m: nat)
    requires m >= 1
    ensures And(0, m - 1) == 0 % m
  {
  }

  lemma AndMaskStep(x: nat, m: nat)
    requires x > 0 && m >= 1 && And(x / 2, m - 1) == (x / 2) % m
    ensures And(x, 2 * m - 1) == x % (2 * m)
  {
    AndOdd(x, m);
    hide And;
    ModDouble(x, m);
  }

  lemma AndOdd(x: nat, m: nat)
    requires x > 0 && m >= 1
    ensures And(x, 2 * m - 1) == 2 * And(x / 2, m - 1) + x % 2
  {
    assert (2 * m - 1) / 2 == m - 1 && (2 * m - 1) % 2 == 1;
  }

  lemma ModDouble(x: nat, m: nat)
    requires m >= 1
    ensures x % (2 * m) == 2 * ((x / 2) % m) + x % 2
  {
    var h := x / 2;
    var q, r := h / m, h % m;
    assert h == m * q + r;
    assert (2 * m) * q == 2 * (m * q) by { MulAssoc(2, m, q); }
    DivModUnique(x, 2 * m, q, 2 * r + x % 2);
  }

  lemma DivModUnique(x: int, d: int, q: int, r: int)
    requires d > 0 && 0 <= r < d && x == d * q + r
    ensures x / d == q && x % d == r
  {
    var e := q - x / d;
    assert d * e == x % d - r by { MulDistrib(d, x / d, e); }
    if e > 0 { MulAtLeast(d, e); } else if e < 0 { MulAtLeast(d, -e); }
  }

  lemma MulAtLeast(d: int, e: int)
    requires d > 0 && e >= 1
    ensures d * e >= d
    ensures d * -e <= -d
  {
    MulDistrib(d, e - 1, 1);
    assert d * (e - 1) >= 0;
  }

  /** `x >> k`. */
  function ShiftRight(x: nat, k: nat): (r: nat)
    ensures r <= x
  {
    NoLarger(x, Pow2(k));
    x / Pow2(k)
  }

  lemma NoLarger(w: nat, d: nat)
    requires d >= 1
    ensures 0 <= w / d <= w
  {
    var q := w / d;
    if q > 0 { MulAtLeast(q, d); }
  }

  lemma MulAssoc(a: int, b: int, c: int)
    ensures (a * b) * c == a * (b * c)
  {
  }

  lemma MulDistrib(a: int, b: int, c: int)
    ensures a * (b + c) == a * b + a * c
  {
  }

  lemma ModMod(x: nat, s: nat, t: nat)
    requires s > 0 && t > 0 && s * t > 0
    ensures (x % (s * t)) % s == x % s
  {
    var d := s * t;
    var q, y := x / d, x % d;
    var z, r := y / s, y % s;
    assert d * q == s * (t * q) by { MulAssoc(s, t, q); }
    assert s * (t * q + z) == s * (t * q) + s * z by { MulDistrib(s, t * q, z); }
    DivModUnique(x, s, t * q + z, r);
  }

  lemma Pow2Of32()
    ensures Pow2(8) == TWO8 && Pow2(16) == TWO16 && Pow2(32) == TWO32
  {
    assert Pow2(8) == 256;
    Pow2Add(8, 8);
    Pow2Add(16, 16);
  }

  /** An index keeps its slot in a ring of 2^k entries when it wraps at 2^32. */
  lemma {:induction false} WrapThenMod(x: nat, k: nat)
    requires k <= 32
    ensures (x % TWO32) % Pow2(k) == x % Pow2(k)
  {
    Pow2Of32();
    Pow2Add(k, 32 - k);
    ModMod(x, Pow2(k), Pow2(32 - k));
  }

  lemma {:induction false} XorSelf(x: nat)
    ensures Xor(x, x) == 0
    decreases x
  {
    if x > 0 { XorSelf(x / 2); }
  }

  lemma {:induction false} XorComm(x: nat, y: nat)
    ensures Xor(x, y) == Xor(y, x)
    decreases x
  {
    if x > 0 && y > 0 { XorComm(x / 2, y / 2); }
  }

  lemma XorBits(x: nat, y: nat)
    ensures Xor(x, y) / 2 == Xor(x / 2, y / 2) && Xor(x, y) % 2 == (x + y) % 2
  {
  }

  lemma SameBits(x: nat, y: nat, w: nat, v: nat)
    requires w % 2 == (x + y) % 2 && v % 2 == (w + y) % 2 && v / 2 == x / 2
    ensures v == x
  {
  }

  lemma {:induction false} XorCancel(x: nat, y: nat)
    ensures Xor(Xor(x, y), y) == x
    decreases x + y
  {
    if x == 0 {
      XorSelf(y);
    } else {
      hide Xor;
      XorBits(x, y);
      XorBits(Xor(x, y), y);
      XorCancel(x / 2, y / 2);
      SameBits(x, y, Xor(x, y), Xor(Xor(x, y), y));
    }
  }

  lemma {:induction false} XorBound(x: nat, y: nat, k: nat)
    requires x < Pow2(k) && y < Pow2(k)
    ensures Xor(x, y) < Pow2(k)
    decreases k
  {
    if k > 0 && x > 0 && y > 0 { XorBound(x / 2, y / 2, k - 1); }
  }

  /** `a ^= b; b ^= a; a ^= b` exchanges the two words. */
  function XorSwap(a: nat, b: nat): (r: (nat, nat))
    ensures r == (b, a)
  {
    var a1 := Xor(a, b);
    var b1 := Xor(b, a1);
    XorComm(b, a1);
    XorCancel(a, b);
    var a2 := Xor(a1, b1);
    XorComm(a, b); XorCancel(b, a);
    (a2, b1)
  }
}
