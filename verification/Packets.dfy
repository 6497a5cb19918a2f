/** TCP segments with a timestamp option, field by field, with every field as the
    little-endian machine loads it, and the bytes they stand for on the wire. */
module Packets {
  import opened Words
  import opened Checksum

  /** Bytes 12 and 13 of the TCP header. */
  datatype Flags = Flags(offset: u8, fin: bool, syn: bool, rst: bool, psh: bool, ack: bool, urg: bool, ece: bool, cwr: bool) {
    function Word(): u16 {
      offset + 256 * (Bit(fin) + 2 * Bit(syn) + 4 * Bit(rst) + 8 * Bit(psh) + 16 * Bit(ack) + 32 * Bit(urg) + 64 * Bit(ece) + 128 * Bit(cwr))
    }
  }

  function Bit(b: bool): (r: int)
    ensures 0 <= r <= 1
  {
    if b then 1 else 0
  }

  datatype Pkt = Pkt(
    saddr: u32, daddr: u32,
    sport: u16, dport: u16, seqNo: u32, ackNo: u32, flags: Flags, window: u16, check: u16, urgent: u16,
    pre: seq<u8>,             // option bytes before the timestamp option
    tsval: u32, tsecr: u32,
    post: seq<u8>)            // option bytes after it, then the payload

  function Le16(v: u16): seq<u8> { [v % 256, v / 256] }

  function Le32(v: u32): seq<u8> { Le16(v % TWO16) + Le16(v / TWO16) }

  /** bpf_htonl and bpf_ntohl: the four bytes in the other order. */
  function Swap32(v: u32): u32 {
    var v1 := v / 256;
    var v2 := v1 / 256;
    var v3 := v2 / 256;
    v % 256 * 0x100_0000 + v1 % 256 * 0x1_0000 + v2 % 256 * 0x100 + v3
  }

  lemma {:induction false} Swap32Twice(v: u32)
    ensures Swap32(Swap32(v)) == v
  {
    var v1 := v / 256;
    var v2 := v1 / 256;
    var v3 := v2 / 256;
    var b0, b1, b2 := v % 256, v1 % 256, v2 % 256;
    var w := Swap32(v);
    var w1 := b0 * 0x1_0000 + b1 * 0x100 + b2;
    assert w == 256 * w1 + v3;
    assert w / 256 == w1 && w % 256 == v3;
    var w2 := b0 * 0x100 + b1;
    assert w1 == 256 * w2 + b2;
    assert w1 / 256 == w2 && w1 % 256 == b2;
    assert w2 / 256 == b0 && w2 % 256 == b1;
  }

  function Header(p: Pkt): (b: seq<u8>)
    ensures |b| == 20
  {
    FrontHalf(p) + BackHalf(p)
  }

  function FrontHalf(p: Pkt): (b: seq<u8>)
    ensures |b| == 12
  {
    Le16(p.sport) + Le16(p.dport) + (Le32(p.seqNo) + Le32(p.ackNo))
  }

  function BackHalf(p: Pkt): (b: seq<u8>)
    ensures |b| == 8
  {
    Le16(p.flags.Word()) + Le16(p.window) + (Le16(p.check) + Le16(p.urgent))
  }

  function Timestamp(p: Pkt): (b: seq<u8>)
    ensures |b| == 10
  {
    [8, 10] + Le32(p.tsval) + Le32(p.tsecr)
  }

  /** The segment as bytes. */
  function Encode(p: Pkt): seq<u8> {
    Header(p) + (p.pre + (Timestamp(p) + p.post))
  }

  /** struct PseudoHead: protocol, segment length and addresses. */
  function PseudoHeader(p: Pkt): seq<u8>
    requires |Encode(p)| <= 65515
  {
    [0, 6, |Encode(p)| / 256, |Encode(p)| % 256] + Le32(p.saddr) + Le32(p.daddr)
  }

  predicate FitsInIp(p: Pkt) { |Encode(p)| <= 65515 }

  function TotalSum(p: Pkt): nat
    requires FitsInIp(p)
  {
    BeSum(PseudoHeader(p)) + BeSum(Encode(p))
  }

  /** What a receiver checks. */
  predicate Valid(p: Pkt)
    requires FitsInIp(p)
  {
    TotalSum(p) % ONES16 == 0
  }

  /** cksumTcp: the check field recomputed from all bytes. */
  function FullCheck(p: Pkt): u16
    requires FitsInIp(p)
  {
    TotalBound(p.(check := 0));
    CheckOf(TotalSum(p.(check := 0)))
  }

  lemma TotalBound(p: Pkt)
    requires FitsInIp(p)
    ensures 0 < TotalSum(p) < TWO32
  {
    BeSumBound(PseudoHeader(p));
    BeSumBound(Encode(p));
    assert PseudoHeader(p)[0] == 0 && PseudoHeader(p)[1] == 6;
  }

  // ---------------------------------------------------------------------------
  // Sums modulo 65535

  ghost predicate Cong(a: int, b: int) { (a - b) % ONES16 == 0 }

  lemma CongTrans(a: int, b: int, c: int)
    requires Cong(a, b) && Cong(b, c)
    ensures Cong(a, c) && Cong(c, a)
  {
    ModSum3(a - b, b - c, 0, 0);
    ModNeg(a - c);
  }

  lemma CongSym(a: int, b: int)
    requires Cong(a, b)
    ensures Cong(b, a)
  {
    ModNeg(a - b);
  }

  lemma CongAdd(a: int, b: int, c: int, d: int)
    requires Cong(a, b) && Cong(c, d)
    ensures Cong(a + c, b + d)
  {
    ModSum3(a - b, c - d, 0, 0);
  }

  lemma CongScale(k: int, a: int, b: int)
    requires Cong(a, b)
    ensures Cong(k * a, k * b)
  {
    var q := (a - b) / ONES16;
    assert a - b == ONES16 * q;
    assert k * a - k * b == k * (a - b) by { MulDistrib(k, a - b, b); }
    assert k * (ONES16 * q) == ONES16 * (k * q) by { MulAssoc(k, ONES16, q); MulAssoc(ONES16, k, q); }
    DivModUnique(k * a - k * b, ONES16, k * q, 0);
  }

  lemma {:induction false} BeSumEven(a: seq<u8>, b: seq<u8>)
    requires |a| % 2 == 0
    ensures BeSum(a + b) == BeSum(a) + BeSum(b)
    decreases a
  {
    if a == [] {
      assert a + b == b;
    } else {
      assert (a + b)[2..] == a[2..] + b;
      BeSumEven(a[2..], b);
    }
  }

  /** After an odd number of bytes the roles of high and low byte swap. */
  lemma {:induction false} BeSumOdd(a: seq<u8>, b: seq<u8>)
    requires |a| % 2 == 1
    ensures Cong(BeSum(a + b), BeSum(a) + 256 * BeSum(b))
    decreases |a|
  {
    if |a| == 1 {
      BeSumAfterOne(a[0], b);
      assert a == [a[0]];
    } else {
      assert (a + b)[2..] == a[2..] + b;
      BeSumOdd(a[2..], b);
      assert (a + b)[0] == a[0] && (a + b)[1] == a[1];
    }
  }

  lemma {:induction false} BeSumAfterOne(x: u8, b: seq<u8>)
    ensures Cong(BeSum([x] + b), 256 * x + 256 * BeSum(b))
    decreases b
  {
    if b == [] {
      assert [x] + b == [x];
    } else if |b| == 1 {
      var y: int := b[0];
      assert [x] + b == [x, b[0]];
      assert BeSum([x, b[0]]) == 256 * x + y + BeSum([]);
      DivModUnique(BeSum([x] + b) - (256 * x + 256 * BeSum(b)), ONES16, -y, 0);
    } else {
      assert ([x] + b)[2..] == [b[1]] + b[2..];
      BeSumAfterOne(b[1], b[2..]);
      var y: int, z: int := b[0], b[1];
      var t := BeSum([b[1]] + b[2..]) - 256 * z - 256 * BeSum(b[2..]);
      assert BeSum([x] + b) - (256 * x + 256 * BeSum(b)) == t - ONES16 * y;
      ModSum3(t, -(ONES16 * y), 0, 0);
    }
  }

  lemma Le16Sum(v: u16)
    ensures Cong(BeSum(Le16(v)), 256 * v)
  {
    assert BeSum(Le16(v)) == v % 256 * 256 + v / 256 + BeSum([]);
    DivModUnique(BeSum(Le16(v)) - 256 * v, ONES16, -(v / 256), 0);
  }

  lemma Le32Sum(v: u32)
    ensures Cong(BeSum(Le32(v)), 256 * v)
  {
    BeSumEven(Le16(v % TWO16), Le16(v / TWO16));
    Le16Sum(v % TWO16);
    Le16Sum(v / TWO16);
    CongAdd(BeSum(Le16(v % TWO16)), 256 * (v % TWO16), BeSum(Le16(v / TWO16)), 256 * (v / TWO16));
    DivModUnique(256 * (v % TWO16) + 256 * (v / TWO16) - 256 * v, ONES16, -256 * (v / TWO16), 0);
    CongTrans(BeSum(Le32(v)), 256 * (v % TWO16) + 256 * (v / TWO16), 256 * v);
  }

  /** All header words but the check field, as raw values. */
  function Fields(p: Pkt): int {
    p.saddr + p.daddr + p.sport + p.dport + p.seqNo + p.ackNo + p.flags.Word() + p.window + p.urgent
  }

  function Stamps(p: Pkt): int { p.tsval + p.tsecr }

  /** A timestamp option at an odd offset counts with its bytes swapped. */
  function Weight(p: Pkt): int { if |p.pre| % 2 == 0 then 1 else 256 }

  /** What the fields leave out. */
  function Rest(p: Pkt): int
    requires FitsInIp(p)
  {
    6 + |Encode(p)| + BeSum(p.pre) + Weight(p) * (0x080a + BeSum(p.post))
  }

  lemma CongAdd4(a: int, x: int, b: int, y: int, c: int, z: int, d: int, w: int)
    requires Cong(a, x) && Cong(b, y) && Cong(c, z) && Cong(d, w)
    ensures Cong(a + b + (c + d), x + y + (z + w))
  {
    ModSum3(a - x, b - y, c - z, d - w);
  }

  lemma FrontSum(p: Pkt)
    ensures Cong(BeSum(FrontHalf(p)), 256 * p.sport + 256 * p.dport + (256 * p.seqNo + 256 * p.ackNo))
  {
    var a, b, c, d := Le16(p.sport), Le16(p.dport), Le32(p.seqNo), Le32(p.ackNo);
    BeSumEven(a + b, c + d);
    BeSumEven(a, b);
    BeSumEven(c, d);
    Le16Sum(p.sport); Le16Sum(p.dport); Le32Sum(p.seqNo); Le32Sum(p.ackNo);
    CongAdd4(BeSum(a), 256 * p.sport, BeSum(b), 256 * p.dport, BeSum(c), 256 * p.seqNo, BeSum(d), 256 * p.ackNo);
  }

  lemma BackSum(p: Pkt)
    ensures Cong(BeSum(BackHalf(p)), 256 * p.flags.Word() + 256 * p.window + (256 * p.check + 256 * p.urgent))
  {
    var w: int := p.flags.Word();
    var a, b, c, d := Le16(w), Le16(p.window), Le16(p.check), Le16(p.urgent);
    BeSumEven(a + b, c + d);
    BeSumEven(a, b);
    BeSumEven(c, d);
    Le16Sum(w); Le16Sum(p.window); Le16Sum(p.check); Le16Sum(p.urgent);
    CongAdd4(BeSum(a), 256 * w, BeSum(b), 256 * p.window, BeSum(c), 256 * p.check, BeSum(d), 256 * p.urgent);
  }

  lemma TimestampSum(p: Pkt)
    ensures Cong(BeSum(Timestamp(p)), 0x080a + 256 * p.tsval + 256 * p.tsecr)
  {
    var a, b := Le32(p.tsval), Le32(p.tsecr);
    BeSumEven([8, 10] + a, b);
    BeSumEven([8, 10], a);
    assert BeSum([8, 10]) == 0x080a + BeSum([]);
    Le32Sum(p.tsval);
    Le32Sum(p.tsecr);
    CongAdd(BeSum(a), 256 * p.tsval, BeSum(b), 256 * p.tsecr);
    CongAdd(0x080a, 0x080a, BeSum(a) + BeSum(b), 256 * p.tsval + 256 * p.tsecr);
  }

  lemma OptionsSum(p: Pkt)
    ensures Cong(BeSum(p.pre + (Timestamp(p) + p.post)),
                 BeSum(p.pre) + Weight(p) * (0x080a + BeSum(p.post) + 256 * Stamps(p)))
  {
    var t := Timestamp(p) + p.post;
    BeSumEven(Timestamp(p), p.post);
    TimestampSum(p);
    var st, sp, v := BeSum(Timestamp(p)), BeSum(p.post), 0x080a + 256 * p.tsval + 256 * p.tsecr;
    CongAdd(st, v, sp, sp);
    if |p.pre| % 2 == 0 {
      BeSumEven(p.pre, t);
      CongAdd(BeSum(p.pre), BeSum(p.pre), BeSum(t), v + sp);
    } else {
      BeSumOdd(p.pre, t);
      CongScale(256, BeSum(t), v + sp);
      CongAdd(BeSum(p.pre), BeSum(p.pre), 256 * BeSum(t), 256 * (v + sp));
      CongTrans(BeSum(p.pre + t), BeSum(p.pre) + 256 * BeSum(t), BeSum(p.pre) + 256 * (v + sp));
    }
  }

  lemma PseudoSum(p: Pkt)
    requires FitsInIp(p)
    ensures Cong(BeSum(PseudoHeader(p)), 6 + |Encode(p)| + 256 * p.saddr + 256 * p.daddr)
  {
    hide Encode;
    var n := |Encode(p)|;
    var h: seq<u8> := [0, 6, n / 256, n % 256];
    var a, b := Le32(p.saddr), Le32(p.daddr);
    BeSumEven(h + a, b);
    BeSumEven(h, a);
    assert h[2..] == [n / 256, n % 256] && h[2..][2..] == [];
    assert BeSum(h) == 6 + n;
    Le32Sum(p.saddr);
    Le32Sum(p.daddr);
    CongAdd(BeSum(a), 256 * p.saddr, BeSum(b), 256 * p.daddr);
    CongAdd(6 + n, 6 + n, BeSum(a) + BeSum(b), 256 * p.saddr + 256 * p.daddr);
  }

  /** The checksum is linear in the raw fields. */
  lemma {:induction false} TotalModulo(p: Pkt)
    requires FitsInIp(p)
    ensures Cong(TotalSum(p), Rest(p) + 256 * (Fields(p) + p.check) + Weight(p) * (256 * Stamps(p)))
  {
    var opts := p.pre + (Timestamp(p) + p.post);
    BeSumEven(Header(p), opts);
    BeSumEven(FrontHalf(p), BackHalf(p));
    FrontSum(p); BackSum(p); OptionsSum(p); PseudoSum(p);
    var w, wt, n := p.flags.Word(), Weight(p), |Encode(p)|;
    var a, b, o, q := BeSum(FrontHalf(p)), BeSum(BackHalf(p)), BeSum(opts), BeSum(PseudoHeader(p));
    var av := 256 * p.sport + 256 * p.dport + (256 * p.seqNo + 256 * p.ackNo);
    var bv := 256 * w + 256 * p.window + (256 * p.check + 256 * p.urgent);
    var x, y := 0x080a + BeSum(p.post), 256 * Stamps(p);
    var ov := BeSum(p.pre) + wt * (x + y);
    var qv := 6 + n + 256 * p.saddr + 256 * p.daddr;
    assert TotalSum(p) == q + (a + b + o);
    assert Fields(p) == p.saddr + p.daddr + p.sport + p.dport + p.seqNo + p.ackNo + w + p.window + p.urgent;
    assert Rest(p) == 6 + n + BeSum(p.pre) + wt * x;
    hide *;
    CongAdd4(q, qv, a, av, b, bv, o, ov);
    MulDistrib(wt, x, y);
  }

  // ---------------------------------------------------------------------------
  // Incremental update against full recomputation

  lemma SameRest(p: Pkt, p': Pkt)
    requires p'.pre == p.pre && p'.post == p.post
    ensures FitsInIp(p') == FitsInIp(p) && Weight(p') == Weight(p)
    ensures FitsInIp(p) ==> Rest(p') == Rest(p)
  {
    hide BeSum;
    assert |Encode(p')| == |Encode(p)|;
  }

  /** One field decides validity, up to the two representations of zero. */
  lemma ValidByCheck(p: Pkt, c: u16)
    requires FitsInIp(p)
    ensures FitsInIp(p.(check := c))
    ensures Valid(p.(check := c)) <==> Cong(TotalSum(p) + 256 * (c - p.check), 0)
  {
    var q := p.(check := c);
    SameRest(p, q);
    TotalModulo(p);
    TotalModulo(q);
    assert Fields(q) == Fields(p);
    assert Valid(q) <==> Cong(TotalSum(q), 0);
    var s, t, x := TotalSum(p), TotalSum(q), 256 * (c - p.check);
    var u := Rest(p) + 256 * (Fields(p) + p.check) + Weight(p) * (256 * Stamps(p));
    assert Cong(s, u) && Cong(t, u + x);
    hide *;
    CheckArithmetic(s, t, u, x);
  }

  lemma CheckArithmetic(s: int, t: int, u: int, x: int)
    requires Cong(s, u) && Cong(t, u + x)
    ensures Cong(t, 0) <==> Cong(s + x, 0)
  {
    ModNeg(s - u);
    ModNeg(t - (u + x));
    if Cong(t, 0) { ModSum3(t, -(t - (u + x)), s - u, 0); }
    if Cong(s + x, 0) { ModSum3(s + x, -(s - u), t - (u + x), 0); }
  }

  /** The recomputed field makes the segment valid and is never 0xffff. */
  lemma {:induction false} FullCheckValid(p: Pkt)
    requires FitsInIp(p)
    ensures FullCheck(p) != ONES16
    ensures FitsInIp(p.(check := FullCheck(p))) && Valid(p.(check := FullCheck(p)))
  {
    var p0, f: int := p.(check := 0), FullCheck(p);
    TotalBound(p0);
    ValidByCheck(p0, f);
    var s := TotalSum(p0);
    var t: int := Fold(s);
    assert Cong(f, 256 * (ONES16 - t)) && Cong(s, t) && t != 0;
    assert p0.(check := f) == p.(check := f);
    hide *;
    CongScale(256, f, 256 * (ONES16 - t));
    CongAdd(s, t, 256 * f, 256 * (256 * (ONES16 - t)));
    MultipleOf(t + 256 * (256 * (ONES16 - t)), 65536 - t);
    CongTrans(s + 256 * f, t + 256 * (256 * (ONES16 - t)), 0);
  }

  lemma MultipleOf(x: int, q: int)
    requires x == ONES16 * q
    ensures Cong(x, 0)
  {
    DivModUnique(x, ONES16, q, 0);
  }

  /** The valid field other than 0xffff is unique. */
  lemma {:induction false} CheckUnique(p: Pkt, c: u16, d: u16)
    requires FitsInIp(p) && c != ONES16 && d != ONES16
    requires Valid(p.(check := c)) && Valid(p.(check := d))
    ensures c == d
  {
    ValidByCheck(p, c);
    ValidByCheck(p, d);
    var x, y := TotalSum(p) + 256 * (c - p.check), TotalSum(p) + 256 * (d - p.check);
    hide *;
    ModNeg(y);
    ModSum3(x, -y, 0, 0);
    var e: int := c - d;
    assert Cong(256 * e, 0);
    CongScale(256, 256 * e, 0);
    MultipleOf(256 * (256 * e) - e, e);
    ModNeg(256 * (256 * e) - e);
    ModSum3(256 * (256 * e), -(256 * (256 * e) - e), 0, 0);
    assert Cong(e, 0) && -ONES16 < e < ONES16;
  }

  lemma FullIffValid(p: Pkt)
    requires FitsInIp(p) && p.check != ONES16
    ensures p.check == FullCheck(p) <==> Valid(p)
  {
    FullCheckValid(p);
    hide FullCheck, Valid, Encode;
    assert p.(check := p.check) == p;
    if Valid(p) { CheckUnique(p, p.check, FullCheck(p)); }
  }

  lemma ValidCong(p: Pkt)
    requires FitsInIp(p)
    ensures Valid(p) <==> Cong(TotalSum(p), 0)
  {
  }

  /** Moving the field by -d gives the recomputed one exactly when d is, modulo
      65535, what happened to the segment. */
  lemma {:induction false} MovedIsFull(p: Pkt, p': Pkt, d: int)
    requires FitsInIp(p) && FitsInIp(p') && Valid(p) && p'.pre == p.pre && p'.post == p.post
    requires p'.check != ONES16 && Cong(p'.check - p.check + d, 0)
    ensures p'.check == FullCheck(p') <==>
      Cong(256 * (Fields(p') - Fields(p)) + Weight(p) * (256 * (Stamps(p') - Stamps(p))), 256 * d)
  {
    hide FullCheck, TotalSum, Encode, Cong, Rest, Fields, Stamps, Weight;
    FullIffValid(p');
    SameRest(p, p');
    TotalModulo(p);
    TotalModulo(p');
    ValidCong(p);
    ValidCong(p');
    var s, s' := TotalSum(p), TotalSum(p');
    hide *;
    IncrementalArithmetic(s, s', Rest(p), Fields(p), Fields(p'), Weight(p), Stamps(p), Stamps(p'), p.check, p'.check, d);
  }

  /** If the raw changes are all accounted for, the update is right exactly when
      the timestamp option is at an even offset or its change is a multiple of 257. */
  lemma {:induction false} AccountedIsFull(p: Pkt, p': Pkt, d: int)
    requires FitsInIp(p) && FitsInIp(p') && Valid(p) && p'.pre == p.pre && p'.post == p.post
    requires p'.check != ONES16 && Cong(p'.check - p.check + d, 0)
    requires Cong(d, Fields(p') - Fields(p) + Stamps(p') - Stamps(p))
    ensures p'.check == FullCheck(p') <==> |p.pre| % 2 == 0 || (Stamps(p') - Stamps(p)) % 257 == 0
  {
    MovedIsFull(p, p', d);
    var f, e, w := Fields(p') - Fields(p), Stamps(p') - Stamps(p), Weight(p);
    assert w == if |p.pre| % 2 == 0 then 1 else 256;
    hide *;
    if |p.pre| % 2 == 0 { EvenOffset(f, e, d); } else { OddOffset(f, e, d); }
  }

  lemma EvenOffset(f: int, e: int, d: int)
    requires Cong(d, f + e)
    ensures Cong(256 * f + 1 * (256 * e), 256 * d)
  {
    CongScale(256, d, f + e);
    CongTrans(256 * d, 256 * (f + e), 256 * (f + e));
  }

  lemma OddOffset(f: int, e: int, d: int)
    requires Cong(d, f + e)
    ensures Cong(256 * f + 256 * (256 * e), 256 * d) <==> e % 257 == 0
  {
    CongScale(256, d, f + e);
    var x, y := 256 * f + 256 * (256 * e) - 256 * d, 256 * d - 256 * (f + e);
    assert x + y == 65280 * e;
    if x % ONES16 == 0 { ModSum3(x, y, 0, 0); }
    ModNeg(y);
    if (65280 * e) % ONES16 == 0 { ModSum3(65280 * e, -y, 0, 0); }
    Multiples257(e);
  }

  lemma Multiples257(e: int)
    ensures (65280 * e) % ONES16 == 0 <==> e % 257 == 0
  {
    var q, r := e / 257, e % 257;
    assert e == 257 * q + r;
    assert 65280 * e == ONES16 * (256 * q) + 65280 * r;
    // 65280 = 255 * 256 and 65535 = 255 * 257
    assert 65280 * r == ONES16 * r - 255 * r;
    if r == 0 {
      DivModUnique(65280 * e, ONES16, 256 * q, 0);
    } else {
      DivModUnique(65280 * e, ONES16, 256 * q + r - 1, ONES16 - 255 * r);
    }
  }

  lemma {:induction false} IncrementalAccounted(p: Pkt, p': Pkt, u: Update)
    requires FitsInIp(p) && FitsInIp(p') && Valid(p) && p'.pre == p.pre && p'.post == p.post
    requires p'.check == Incremental(p.check, u)
    requires Cong(u.Sum(), Fields(p') - Fields(p) + Stamps(p') - Stamps(p))
    ensures p'.check == FullCheck(p') <==> |p.pre| % 2 == 0 || (Stamps(p') - Stamps(p)) % 257 == 0
  {
    IncrementalModulo(p.check, u);
    AccountedIsFull(p, p', u.Sum());
  }

  lemma IncrementalArithmetic(s: int, s': int, rest: int, f: int, f': int, w: int, t: int, t': int, c: int, c': int, d: int)
    requires Cong(s, rest + 256 * (f + c) + w * (256 * t)) && Cong(s', rest + 256 * (f' + c') + w * (256 * t'))
    requires Cong(s, 0) && Cong(c' - c + d, 0)
    ensures Cong(s', 0) <==> Cong(256 * (f' - f) + w * (256 * (t' - t)), 256 * d)
  {
    MulDistrib(w, 256 * t, 256 * (t' - t));
    CongScale(256, c' - c + d, 0);
    var a, a' := rest + 256 * (f + c) + w * (256 * t), rest + 256 * (f' + c') + w * (256 * t');
    CongTrans(a, s, 0);
    var g := 256 * (f' - f) + w * (256 * (t' - t)) - 256 * d;
    var e := 256 * (c' - c + d);
    assert a' == a + g + e;
    ModNeg(a); ModNeg(e);
    if Cong(s', 0) {
      CongTrans(a', s', 0);
      ModSum3(a', -a, -e, 0);
    }
    if Cong(g, 0) {
      ModSum3(a, g, e, 0);
      CongTrans(s', a', 0);
    }
  }
}
