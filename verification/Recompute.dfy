/** Check fields computed from scratch: over all bytes in user space, and over the
    fixed first 36 bytes in the server's egress program. */
module Recompute {
  import opened Words
  import opened Checksum
  import opened Packets
  import opened Rewrites

  /** cksumTcp: the pseudo header and the segment are summed one after the other,
      with the check field cleared; the second fold relies on 16-bit truncation. */
  method CksumTcp(p: Pkt) returns (check: u16)
    requires FitsInIp(p)
    ensures check == FullCheck(p)
  {
    hide BeSum, Fold, Swap16;
    var q := p.(check := 0);
    assert |Encode(q)| == |Encode(p)|;
    TotalBound(q);
    var sum := CalSum(PseudoHeader(q));
    var body := CalSum(Encode(q));
    sum := sum + body;
    SecondFold(sum);
    sum := sum / TWO16 + sum % TWO16;
    sum := sum + sum / TWO16;
    check := Swap16(ONES16 - sum % TWO16);
  }

  lemma SecondFold(c: u32)
    ensures var d := c / TWO16 + c % TWO16; (d + d / TWO16) % TWO16 == Fold(c)
  {
    var d := c / TWO16 + c % TWO16;
    if d >= TWO16 { assert d / TWO16 == 1; }
  }

  // ---------------------------------------------------------------------------
  // Little-endian words

  /** The 32-bit words that the machine loads from the bytes. */
  function LoadWords(b: seq<u8>): seq<u32>
    requires |b| % 4 == 0
    decreases b
  {
    if b == [] then []
    else [LoadWord(b[0], b[1], b[2], b[3])] + LoadWords(b[4..])
  }

  function LoadWord(b0: int, b1: int, b2: int, b3: int): int { b0 + 0x100 * b1 + 0x1_0000 * b2 + 0x100_0000 * b3 }

  function WordSum(ws: seq<u32>): nat
    decreases ws
  {
    if ws == [] then 0 else ws[0] + WordSum(ws[1..])
  }

  /** Byte pairs and words agree modulo 65535, up to the byte order. */
  lemma {:induction false} LoadedSum(b: seq<u8>)
    requires |b| % 4 == 0
    ensures Cong(BeSum(b), 256 * WordSum(LoadWords(b)))
    decreases b
  {
    if b != [] {
      var b0: int, b1: int, b2: int, b3: int := b[0], b[1], b[2], b[3];
      var rest := b[4..];
      assert b[2..][2..] == rest;
      assert BeSum(b) == b0 * 256 + b1 + (b2 * 256 + b3 + BeSum(rest));
      LoadedSum(rest);
      var w := LoadWord(b0, b1, b2, b3);
      assert LoadWords(b)[0] == w && LoadWords(b)[1..] == LoadWords(rest);
      var x, y := BeSum(rest), WordSum(LoadWords(rest));
      assert BeSum(b) == b0 * 256 + b1 + b2 * 256 + b3 + x && WordSum(LoadWords(b)) == w + y;
      hide *;
      DivModUnique(b0 * 256 + b1 + b2 * 256 + b3 - 256 * w, ONES16, -(b1 + 256 * b2 + 65537 * b3), 0);
      CongAdd(b0 * 256 + b1 + b2 * 256 + b3, 256 * w, x, 256 * y);
    }
  }

  lemma {:induction false} AddAll(ws: seq<u32>, seed: u32)
    ensures seed != 0 ==> CsumDiff([], ws, seed) != 0
    ensures Cong(CsumDiff([], ws, seed), seed + WordSum(ws))
    decreases ws
  {
    if ws != [] {
      var c := CsumAdd(seed, ws[0]);
      CsumAddModulo(seed, ws[0]);
      AddAll(ws[1..], c);
      var r, s := CsumDiff([], ws[1..], c), WordSum(ws[1..]);
      ModSum3(r - (c + s), c - seed - ws[0], 0, 0);
    }
  }

  // ---------------------------------------------------------------------------
  // The fixed-length checksum

  /** The lengths used: 36 bytes, and 24 for SYN-ACKs without a timestamp. */
  predicate IsPrefix(p: Pkt, len: nat) { len % 4 == 0 && len < 256 && len <= |Encode(p)| }

  /** ipv4_l4_csum over the first `len` bytes, with `len` as the segment length. */
  function PrefixSum(p: Pkt, len: nat): u32
    requires IsPrefix(p, len)
  {
    var c1 := CsumDiff([], [p.saddr], 0);
    var c2 := CsumDiff([], [p.daddr], c1);
    var c3 := CsumDiff([], [Swap32(6)], c2);
    var c4 := CsumDiff([], [Swap32(len)], c3);
    CsumDiff([], LoadWords(Encode(p)[..len]), c4)
  }

  function PrefixCheck(p: Pkt, len: nat): u16
    requires IsPrefix(p, len)
  {
    ONES16 - Fold64(PrefixSum(p, len))
  }

  lemma AddOne(w: u32, seed: u32)
    ensures Cong(CsumDiff([], [w], seed), seed + w)
    ensures seed != 0 || w != 0 ==> CsumDiff([], [w], seed) != 0
  {
    assert CsumDiff([], [w], seed) == CsumDiff([], [], CsumAdd(seed, w));
    CsumAddModulo(seed, w);
  }

  lemma SwapSmall(n: nat)
    requires n < 256
    ensures Swap32(n) == n * 0x100_0000
  {
  }

  lemma PrefixSumModulo(p: Pkt, len: nat)
    requires IsPrefix(p, len)
    ensures PrefixSum(p, len) != 0
    ensures Cong(PrefixSum(p, len), p.saddr + p.daddr + (6 + len) * 0x100_0000 + WordSum(LoadWords(Encode(p)[..len])))
  {
    hide CsumDiff, WordSum, LoadWords, Encode, Swap32, Cong;
    SwapSmall(6);
    SwapSmall(len);
    var a: int, b: int, x: int, y: int := p.saddr, p.daddr, Swap32(6), Swap32(len);
    var ws := LoadWords(Encode(p)[..len]);
    var c1 := CsumDiff([], [a], 0);
    AddOne(a, 0);
    var c2 := CsumDiff([], [b], c1);
    AddOne(b, c1);
    var c3 := CsumDiff([], [x], c2);
    AddOne(x, c2);
    var c4 := CsumDiff([], [y], c3);
    AddOne(y, c3);
    AddAll(ws, c4);
    Accumulated(a, b, x, y, WordSum(ws), c1, c2, c3, c4, PrefixSum(p, len));
  }

  lemma Accumulated(a: int, b: int, x: int, y: int, w: int, c1: int, c2: int, c3: int, c4: int, c5: int)
    requires Cong(c1, 0 + a) && Cong(c2, c1 + b) && Cong(c3, c2 + x) && Cong(c4, c3 + y) && Cong(c5, c4 + w)
    ensures Cong(c5, a + b + (x + y) + w)
  {
    ModSum3(c1 - a, c2 - (c1 + b), c3 - (c2 + x), c4 - (c3 + y));
    ModSum3(c4 - (a + b + x + y), c5 - (c4 + w), 0, 0);
  }

  /** The fixed-length check field is the right one exactly when what lies beyond
      `len` bytes, together with its length, sums to zero; so for exactly `len` bytes. */
  lemma {:induction false} PrefixCheckIff(p: Pkt, len: nat)
    requires FitsInIp(p) && IsPrefix(p, len) && p.check == 0
    ensures PrefixCheck(p, len) == FullCheck(p) <==> (|Encode(p)| - len + BeSum(Encode(p)[len..])) % ONES16 == 0
    ensures |Encode(p)| == len ==> PrefixCheck(p, len) == FullCheck(p)
  {
    hide Encode, PrefixSum, Fold64, FullCheck, WordSum, LoadWords, BeSum, PseudoHeader, Cong;
    var b := Encode(p);
    var front, back := b[..len], b[len..];
    PrefixSumModulo(p, len);
    LoadedSum(front);
    Recomputed(p, len);
    var x, y, w, q := BeSum(front), BeSum(back), WordSum(LoadWords(front)), BeSum(PseudoHeader(p));
    var s, n, f: int, a := PrefixSum(p, len), |b|, FullCheck(p), p.saddr + p.daddr;
    var k: int := Fold64(s);
    FoldCong(s);
    PrefixArithmetic(len, a, w, x, y, q, n, s, k, ONES16 - k, f);
    if n == len { NoBytes(back); CongZero(); }
    assert Cong(n - len + y, 0) <==> (n - len + y) % ONES16 == 0 by { CongIs(n - len + y); }
  }

  lemma FoldCong(c: u32)
    ensures Cong(c, Fold64(c)) && (c != 0 ==> Fold64(c) != 0)
  {
  }

  lemma CongZero()
    ensures Cong(0, 0)
  {
  }

  lemma CongIs(x: int)
    ensures Cong(x, 0) <==> x % ONES16 == 0
  {
  }

  lemma NoBytes(b: seq<u8>)
    requires b == []
    ensures BeSum(b) == 0
  {
  }

  lemma Recomputed(p: Pkt, len: nat)
    requires FitsInIp(p) && IsPrefix(p, len) && p.check == 0
    ensures var q, x, y, f := BeSum(PseudoHeader(p)), BeSum(Encode(p)[..len]), BeSum(Encode(p)[len..]), FullCheck(p);
      && Cong(q, 6 + |Encode(p)| + 256 * (p.saddr + p.daddr))
      && Cong(q + (x + y) + 256 * f, 0) && f != ONES16
  {
    hide FullCheck, BeSum, Encode, PseudoHeader;
    var front, back := Encode(p)[..len], Encode(p)[len..];
    assert Encode(p) == front + back;
    BeSumEven(front, back);
    PseudoSum(p);
    FullCheckValid(p);
    ValidByCheck(p, FullCheck(p));
  }

  lemma PrefixArithmetic(len: nat, a: int, w: int, x: int, y: int, q: int, n: int, s: int, k: int, c: int, f: int)
    requires Cong(s, a + (6 + len) * 0x100_0000 + w) && Cong(x, 256 * w) && Cong(q, 6 + n + 256 * a) && Cong(q + (x + y) + 256 * f, 0)
    requires Cong(s, k) && c == ONES16 - k && 0 <= c < ONES16 && 0 <= f < ONES16
    ensures c == f <==> Cong(n - len + y, 0)
  {
    // 256 * c and 256 * f both negate the rest of their sums.
    var z := 256 * a + (6 + len) + 256 * w;
    PrefixSide(len, a, w, s, k, c);
    var e := n - len + y;
    var t := q - (6 + n + 256 * a);
    ModNeg(t);
    ModNeg(x - 256 * w);
    ModSum3(q + (x + y) + 256 * f, -t, -(x - 256 * w), 0);
    assert Cong(z + e + 256 * f, 0);
    if c == f {
      ModNeg(256 * c + z);
      ModSum3(z + e + 256 * f, -(256 * c + z), 0, 0);
    }
    if Cong(e, 0) {
      ModNeg(e);
      ModSum3(z + e + 256 * f, -e, 0, 0);
      SameCheck(c, f, z);
    }
  }

  lemma PrefixSide(len: nat, a: int, w: int, s: int, k: int, c: int)
    requires Cong(s, a + (6 + len) * 0x100_0000 + w) && Cong(s, k) && c == ONES16 - k
    ensures Cong(256 * c + (256 * a + (6 + len) + 256 * w), 0)
  {
    var m := a + (6 + len) * 0x100_0000 + w;
    ModNeg(s - m);
    ModSum3(s - k, -(s - m), 0, 0);
    CongScale(256, m, k);
    MultipleOf(256 * ONES16, 256);
    MultipleOf((6 + len) - 256 * ((6 + len) * 0x100_0000), -((6 + len) * 65537));
    ModSum3(256 * m - 256 * k, 256 * ONES16, (6 + len) - 256 * ((6 + len) * 0x100_0000), 0);
  }
}
