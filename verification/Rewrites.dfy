/** The packet rewrites of the gateway and the server agent, with their checksum
    updates, and when those updates equal a full recomputation. */
module Rewrites {
  import opened Words
  import opened Checksum
  import opened Packets

  const TS_START: u32 := 0x101    // bpf_ntohl(0x01010000)

  /** `bpf_htonl(bpf_ntohl(x) + n)`. */
  function NetAdd(x: u32, n: int): u32 { Swap32(Add32(Swap32(x), n)) }

  function SwapEnds(p: Pkt): (q: Pkt)
    ensures q == p.(saddr := p.daddr, daddr := p.saddr, sport := p.dport, dport := p.sport)
  {
    var (s, d) := XorSwap(p.saddr, p.daddr);
    var (sp, dp) := XorSwap(p.sport, p.dport);
    p.(saddr := s, daddr := d, sport := sp, dport := dp)
  }

  // ---------------------------------------------------------------------------
  // Gateway

  /** A SYN becomes the cookie SYN-ACK, keeping the client's options. */
  function SynToSynAck(p: Pkt, cookie: u32): (q: Pkt)
    ensures q.pre == p.pre && q.post == p.post
  {
    var flags := p.flags.(syn := true, ack := true);
    var ack := NetAdd(p.seqNo, 1);
    var window := Swap16(502);
    SwapEnds(p).(tsecr := p.tsval, tsval := TS_START, seqNo := cookie, ackNo := ack, window := window, flags := flags,
                 check := Incremental(p.check, SynAckUpdate(p, cookie, ack, window, flags)))
  }

  function SynAckUpdate(p: Pkt, cookie: u32, ack: u32, window: u16, flags: Flags): (u: Update)
    ensures u.Sum() == 5 * ONES32 + TS_START - p.tsecr + cookie - p.seqNo + ack - p.ackNo
                         + window - p.window + flags.Word() - p.flags.Word()
  {
    START.Plus(TS_START).Minus(p.tsecr)
         .Minus(p.seqNo).Plus(cookie)
         .Minus(p.ackNo).Plus(ack)
         .Minus(p.window).Plus(window)
         .Minus(p.flags.Word()).Plus(flags.Word())
  }

  lemma SynAckNumbers(p: Pkt, cookie: u32)
    ensures var q := SynToSynAck(p, cookie); q.seqNo == cookie && Swap32(q.ackNo) == Add32(Swap32(p.seqNo), 1)
  {
    Swap32Twice(Add32(Swap32(p.seqNo), 1));
    hide Swap32, Incremental, SynAckUpdate, Swap16;
  }

  /** It acknowledges the byte after the SYN.  Its check field is the recomputed one
      exactly when the timestamp option is at an even offset, or by accident of the
      client's TSecr. */
  lemma {:induction false} SynAckChecksum(p: Pkt, cookie: u32)
    requires FitsInIp(p) && Valid(p)
    ensures var q := SynToSynAck(p, cookie); q.seqNo == cookie && Swap32(q.ackNo) == Add32(Swap32(p.seqNo), 1)
    ensures var q := SynToSynAck(p, cookie);
      FitsInIp(q) && (q.check == FullCheck(q) <==> |p.pre| % 2 == 0 || (TS_START - p.tsecr) % 257 == 0)
  {
    SynAckNumbers(p, cookie);
    hide Encode, Valid, FullCheck, Rest, Incremental, NetAdd, SynAckUpdate, Cong, Swap16, Swap32;
    var q := SynToSynAck(p, cookie);
    SameRest(p, q);
    var u := SynAckUpdate(p, cookie, q.ackNo, q.window, q.flags);
    var d := Fields(q) - Fields(p) + Stamps(q) - Stamps(p);
    assert u.Sum() == 5 * ONES32 + d;
    DropMultiple(u.Sum(), 5, d);
    IncrementalAccounted(p, q, u);
  }

  lemma DropMultiple(x: int, k: nat, d: int)
    requires x == k * ONES32 + d
    ensures Cong(x, d)
  {
    assert k * ONES32 == ONES16 * (k * 65537) by { MulAssoc(k, 65537, ONES16); }
    MultipleOf(x - d, k * 65537);
  }

  /** A validated ACK from a new address is turned around as a RST. */
  function AckToRst(p: Pkt): (q: Pkt)
    ensures q.pre == p.pre && q.post == p.post
  {
    var flags := p.flags.(rst := true, ack := false);
    var ack := Add32(p.ackNo, 1);
    SwapEnds(p.(flags := flags, window := 0, seqNo := p.ackNo, ackNo := ack, check := Incremental(p.check, RstUpdate(p, flags, ack))))
  }

  function RstUpdate(p: Pkt, flags: Flags, ack: u32): (u: Update)
    ensures u.Sum() == 4 * ONES32 + flags.Word() - p.flags.Word() - p.window + ack - p.seqNo
  {
    START.Minus(p.flags.Word()).Plus(flags.Word())
         .Minus(p.window).Plus(0)
         .Minus(p.ackNo).Plus(ack)
         .Minus(p.seqNo).Plus(p.ackNo)
  }

  lemma {:induction false} RstChecksum(p: Pkt)
    requires FitsInIp(p) && Valid(p)
    ensures var q := AckToRst(p); FitsInIp(q) && q.check == FullCheck(q)
  {
    hide Encode, Valid, FullCheck, Rest, Incremental, RstUpdate, Add32, Cong, Swap16;
    var q := AckToRst(p);
    SameRest(p, q);
    var u := RstUpdate(p, q.flags, q.ackNo);
    var d := Fields(q) - Fields(p) + Stamps(q) - Stamps(p);
    assert u.Sum() == 4 * ONES32 + d && Stamps(q) == Stamps(p);
    DropMultiple(u.Sum(), 4, d);
    IncrementalAccounted(p, q, u);
  }

  /** An IPv4 header around its total length and check fields. */
  datatype IpHeader = IpHeader(front: seq<u8>, totLen: u16, mid: seq<u8>, check: u16, tail: seq<u8>)

  /** Version and type of service come first; ihl counts 4-byte words. */
  predicate IpShape(h: IpHeader) {
    |h.front| == 2 && h.front[0] / 16 == 4 && |h.mid| == 6 && |h.tail| % 2 == 0 && |h.tail| <= 48
  }

  function IpBytes(h: IpHeader): seq<u8> {
    h.front + Le16(h.totLen) + h.mid + Le16(h.check) + h.tail
  }

  /** cksumIp. */
  function IpFullCheck(h: IpHeader): u16
    requires IpShape(h)
  {
    BeSumBound(IpBytes(h.(check := 0)));
    CheckOf(BeSum(IpBytes(h.(check := 0))))
  }

  predicate IpValid(h: IpHeader) { BeSum(IpBytes(h)) % ONES16 == 0 }

  /** The total length changes by `delta` bytes. */
  function IpResize(h: IpHeader, delta: int): IpHeader {
    var totLen := Swap16((Swap16(h.totLen) + delta) % TWO16);
    h.(totLen := totLen, check := Incremental(h.check, START.Minus(h.totLen).Plus(totLen)))
  }

  lemma IpSum(h: IpHeader)
    requires IpShape(h)
    ensures Cong(BeSum(IpBytes(h)), BeSum(h.front) + BeSum(h.mid) + BeSum(h.tail) + 256 * (h.totLen + h.check))
    ensures BeSum(IpBytes(h)) > 0
  {
    var a, b, c, d, e := h.front, Le16(h.totLen), h.mid, Le16(h.check), h.tail;
    BeSumEven(a + b + c + d, e);
    BeSumEven(a + b + c, d);
    BeSumEven(a + b, c);
    BeSumEven(a, b);
    Le16Sum(h.totLen);
    Le16Sum(h.check);
    var t: int, k: int := h.totLen, h.check;
    var x, y, z := BeSum(a) + BeSum(c) + BeSum(e), BeSum(b), BeSum(d);
    assert BeSum(IpBytes(h)) == x + y + z;
    assert BeSum(a) > 0;
    hide *;
    CongAdd4(y, 256 * t, z, 256 * k, x, x, 0, 0);
  }

  lemma IpResized(h: IpHeader, delta: int)
    ensures var g := IpResize(h, delta);
      g == h.(totLen := g.totLen, check := g.check) && Swap16(g.totLen) == (Swap16(h.totLen) + delta) % TWO16
  {
    hide Incremental;
    var x: u16 := (Swap16(h.totLen) + delta) % TWO16;
    assert Swap16(Swap16(x)) == x;
  }

  /** The gateway's update of the IP header: the length moves by delta, and the checksum
      equals a recomputation. */
  lemma {:induction false} IpResizeChecksum(h: IpHeader, delta: int)
    requires IpShape(h) && IpValid(h)
    ensures var g := IpResize(h, delta);
      && IpShape(g) && g.check == IpFullCheck(g) && g == h.(totLen := g.totLen, check := g.check)
      && Swap16(g.totLen) == (Swap16(h.totLen) + delta) % TWO16
  {
    IpResized(h, delta);
    hide Cong, BeSum, IpFullCheck, Incremental, Swap16;
    var g := IpResize(h, delta);
    var g0 := g.(check := 0);
    IpUpdated(h, delta);
    IpSum(h);
    IpSum(g0);
    IpRecomputed(g);
    var s, s0 := BeSum(IpBytes(h)), BeSum(IpBytes(g0));
    var r := BeSum(h.front) + BeSum(h.mid) + BeSum(h.tail);
    var f: int, c: int, c': int, t: int, t': int, k: int := IpFullCheck(g), h.check, g.check, h.totLen, g.totLen, Fold(s0);
    assert Cong(s, 0) by { IpValidCong(h); }
    hide *;
    IpArithmetic(s, s0, r, t, t', c, c', f, k);
  }

  lemma IpValidCong(h: IpHeader)
    requires IpValid(h)
    ensures Cong(BeSum(IpBytes(h)), 0)
  {
  }

  lemma IpUpdated(h: IpHeader, delta: int)
    ensures var g := IpResize(h, delta); g.check != ONES16 && Cong(g.check - h.check + (ONES32 - h.totLen + g.totLen), 0)
  {
    var g := IpResize(h, delta);
    IncrementalModulo(h.check, START.Minus(h.totLen).Plus(g.totLen));
  }

  lemma IpRecomputed(g: IpHeader)
    requires IpShape(g)
    ensures var s0 := BeSum(IpBytes(g.(check := 0))); var f := IpFullCheck(g);
      0 <= s0 < TWO32 && Cong(s0, Fold(s0)) && Cong(f, 256 * (ONES16 - Fold(s0))) && f != ONES16
  {
    hide BeSum, IpBytes;
    var g0 := g.(check := 0);
    IpSum(g0);
    IpFits(g0);
  }

  lemma IpFits(h: IpHeader)
    requires IpShape(h)
    ensures 0 <= BeSum(IpBytes(h)) < TWO32
  {
    BeSumBound(IpBytes(h));
  }

  lemma IpArithmetic(s: int, s0: int, r: int, t: int, t': int, c: int, c': int, f: int, k: int)
    requires Cong(s, 0) && Cong(s, r + 256 * (t + c)) && Cong(s0, r + 256 * t') && Cong(s0, k)
    requires Cong(f, 256 * (ONES16 - k)) && Cong(c' - c + (ONES32 - t + t'), 0)
    requires 0 <= f < ONES16 && 0 <= c' < ONES16
    ensures c' == f
  {
    // 256 * f and 256 * c' are both the negated sum of the other words.
    hide Cong;
    CongSym(s0, k);
    CongSym(s, r + 256 * (t + c));
    CongTrans(k, s0, r + 256 * t');
    RecomputedSide(f, k, r + 256 * t');
    CongTrans(r + 256 * (t + c), s, 0);
    UpdatedSide(r, t, t', c, c');
    SameCheck(f, c', r + 256 * t');
  }

  lemma RecomputedSide(f: int, k: int, x: int)
    requires Cong(f, 256 * (ONES16 - k)) && Cong(k, x)
    ensures Cong(256 * f + x, 0)
  {
    CongScale(256, f, 256 * (ONES16 - k));
    MultipleOf(256 * (256 * (ONES16 - k)) + k, 65536 - k);
    CongTrans(x, k, k);
    var y := 256 * (256 * (ONES16 - k));
    ModNeg(k - x);
    ModSum3(256 * f - y, y + k, -(k - x), 0);
  }

  lemma UpdatedSide(r: int, t: int, t': int, c: int, c': int)
    requires Cong(r + 256 * (t + c), 0) && Cong(c' - c + (ONES32 - t + t'), 0)
    ensures Cong(256 * c' + (r + 256 * t'), 0)
  {
    CongScale(256, c' - c + (ONES32 - t + t'), 0);
    MultipleOf(256 * ONES32, 256 * 65537);
    ModNeg(256 * ONES32);
    ModSum3(256 * (c' - c + (ONES32 - t + t')), -(256 * ONES32), r + 256 * (t + c), 0);
  }

  lemma SameCheck(c: int, d: int, x: int)
    requires Cong(256 * c + x, 0) && Cong(256 * d + x, 0) && 0 <= c < ONES16 && 0 <= d < ONES16
    ensures c == d
  {
    var e := c - d;
    ModNeg(256 * d + x);
    ModSum3(256 * c + x, -(256 * d + x), 0, 0);
    CongScale(256, 256 * e, 0);
    MultipleOf(256 * (256 * e) - e, e);
    ModNeg(256 * (256 * e) - e);
    ModSum3(256 * (256 * e), -(256 * (256 * e) - e), 0, 0);
  }

  // ---------------------------------------------------------------------------
  // Server agent

  /** The 32-bit word at offset 12 holds flags and window. */
  function FlagsAndWindow(f: Flags, window: u16): u32 { f.Word() + TWO16 * window }

  /** The five bpf_csum_diff calls: flags, sequence number, window,
      acknowledgement and timestamp echo. */
  function FiveDiffs(check: u16, f: u32, f': u32, s: u32, s': u32, w: u32, w': u32, a: u32, t: u32): u32 {
    var c1 := CsumDiff([f], [f'], Not32(check));
    var c2 := CsumDiff([s], [s'], c1);
    var c3 := CsumDiff([w], [w'], c2);
    var c4 := CsumDiff([a], [], c3);
    CsumDiff([t], [], c4)
  }

  /** The ACK that completes the client's handshake becomes the SYN that starts the
      server's.  The window is replaced before the word with the flags is read. */
  function AckToSyn(p: Pkt): (q: Pkt)
    ensures q.pre == p.pre && q.post == p.post
  {
    var window := Swap16(64240);
    var flags := p.flags.(ack := false, syn := true);
    var seqNo := NetAdd(p.seqNo, -1);
    var csum := FiveDiffs(p.check, FlagsAndWindow(p.flags, window), FlagsAndWindow(flags, window),
                          p.seqNo, seqNo, p.window, window, p.ackNo, p.tsecr);
    p.(window := window, flags := flags, seqNo := seqNo, ackNo := 0, tsecr := 0, check := ONES16 - Fold64(csum))
  }

  lemma DiffStep(c: u32, before: seq<u32>, after: seq<u32>, check: int, d: int)
    requires |before| <= 1 && |after| <= 1 && c != 0 && Cong(c, d - check)
    ensures CsumDiff(before, after, c) != 0
    ensures Cong(CsumDiff(before, after, c), d + Only(after) - Only(before) - check)
  {
    DiffModulo(before, after, c);
    var r, x, y := CsumDiff(before, after, c), Only(before), Only(after);
    hide *;
    ModSum3(r - c + x - y, c - (d - check), 0, 0);
  }

  /** Folding and complementing a nonzero accumulator moves the field by -d. */
  lemma FoldStep(c: u32, check: int, d: int)
    requires c != 0 && Cong(c, d - check)
    ensures ONES16 - Fold64(c) != ONES16 && Cong((ONES16 - Fold64(c)) - check + d, 0)
  {
    var f := Fold64(c);
    assert (c - f) % ONES16 == 0;
    hide *;
    ModNeg(c - (d - check));
    ModSum3(ONES16, c - f, -(c - (d - check)), 0);
  }

  lemma SeedStep(check: u16)
    ensures Not32(check) != 0 && Cong(Not32(check), 0 - check)
  {
    MultipleOf(ONES32, 65537);
  }

  lemma FiveDiffsModulo(check: u16, f: u32, f': u32, s: u32, s': u32, w: u32, w': u32, a: u32, t: u32)
    ensures var c := FiveDiffs(check, f, f', s, s', w, w', a, t);
      c != 0 && Cong(c, f' - f + s' - s + w' - w - a - t - check)
  {
    SeedStep(check);
    hide CsumDiff;
    var c0, c: int := Not32(check), check;
    DiffStep(c0, [f], [f'], c, 0);
    var c1 := CsumDiff([f], [f'], c0);
    DiffStep(c1, [s], [s'], c, f' - f);
    var c2 := CsumDiff([s], [s'], c1);
    DiffStep(c2, [w], [w'], c, f' - f + s' - s);
    var c3 := CsumDiff([w], [w'], c2);
    DiffStep(c3, [a], [], c, f' - f + s' - s + w' - w);
    var c4 := CsumDiff([a], [], c3);
    DiffStep(c4, [t], [], c, f' - f + s' - s + w' - w - a);
  }

  /** Every changed field is accounted for once, so the SYN is valid. */
  lemma {:induction false} AckToSynChecksum(p: Pkt)
    requires FitsInIp(p) && Valid(p) && p.tsecr == TS_START
    ensures var q := AckToSyn(p); FitsInIp(q) && q.check == FullCheck(q)
  {
    hide FiveDiffs, Encode, Valid, FullCheck, Rest, NetAdd, Fold64;
    var q := AckToSyn(p);
    SameRest(p, q);
    var f, f' := FlagsAndWindow(p.flags, q.window), FlagsAndWindow(q.flags, q.window);
    assert f' - f == q.flags.Word() - p.flags.Word();
    FiveDiffsModulo(p.check, f, f', p.seqNo, q.seqNo, p.window, q.window, p.ackNo, p.tsecr);
    var d := f' - f + q.seqNo - p.seqNo + q.window - p.window - p.ackNo - p.tsecr;
    FoldStep(FiveDiffs(p.check, f, f', p.seqNo, q.seqNo, p.window, q.window, p.ackNo, p.tsecr), p.check, d);
    assert d == Fields(q) - Fields(p) + Stamps(q) - Stamps(p);
    hide FlagsAndWindow;
    AccountedIsFull(p, q, d);
  }

  /** Ingress handover: acknowledgement and timestamp echo in the server's terms. */
  function Handover(p: Pkt, delta: u32, tsValS: u32): (q: Pkt)
    ensures q.pre == p.pre && q.post == p.post
  {
    var ack := NetAdd(p.ackNo, 0 - (delta as int));
    var c1 := CsumDiff([p.ackNo], [ack], Not32(p.check));
    var c2 := CsumDiff([p.tsecr], [tsValS], c1);
    p.(ackNo := ack, tsecr := tsValS, check := ONES16 - Fold64(c2))
  }

  lemma {:induction false} HandoverChecksum(p: Pkt, delta: u32, tsValS: u32)
    requires FitsInIp(p) && Valid(p)
    ensures var q := Handover(p, delta, tsValS);
      FitsInIp(q) && (q.check == FullCheck(q) <==> |p.pre| % 2 == 0 || (tsValS - p.tsecr) % 257 == 0)
  {
    var q := Handover(p, delta, tsValS);
    SameRest(p, q);
    var c0 := Not32(p.check);
    SeedStep(p.check);
    var c1 := CsumDiff([p.ackNo], [q.ackNo], c0);
    DiffStep(c0, [p.ackNo], [q.ackNo], p.check, 0);
    var c2 := CsumDiff([p.tsecr], [tsValS], c1);
    DiffStep(c1, [p.tsecr], [tsValS], p.check, q.ackNo - p.ackNo);
    var d := q.ackNo - p.ackNo + tsValS - p.tsecr;
    FoldStep(c2, p.check, d);
    assert d == Fields(q) - Fields(p) + Stamps(q) - Stamps(p);
    AccountedIsFull(p, q, d);
  }

  /** SYN-ACKs come back to ingress only in SKB mode. */
  function SynAckBack(p: Pkt): Pkt {
    var flags := p.flags.(syn := false);
    var c := CsumDiff([FlagsAndWindow(p.flags, p.window)], [FlagsAndWindow(flags, p.window)], Not32(p.check));
    p.(flags := flags, check := ONES16 - Fold64(c))
  }

  /** Its check field stays the recomputed one. */
  lemma {:induction false} SynAckBackChecksum(p: Pkt)
    requires FitsInIp(p) && Valid(p)
    ensures var q := SynAckBack(p); FitsInIp(q) && q.check == FullCheck(q)
  {
    hide Encode, Valid, FullCheck, Rest, Fold64, CsumDiff;
    var q := SynAckBack(p);
    SameRest(p, q);
    var c0, f: int, f': int := Not32(p.check), FlagsAndWindow(p.flags, p.window), FlagsAndWindow(q.flags, p.window);
    SeedStep(p.check);
    DiffStep(c0, [f], [f'], p.check, 0);
    var d := f' - f;
    FoldStep(CsumDiff([f], [f'], c0), p.check, d);
    assert d == Fields(q) - Fields(p) + Stamps(q) - Stamps(p) && Stamps(q) == Stamps(p);
    hide FlagsAndWindow;
    AccountedIsFull(p, q, d);
  }
}
