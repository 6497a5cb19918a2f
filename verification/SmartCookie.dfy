/** The smartcookie agents as functions of their state, for TCP packets with a
    timestamp option.  The gateway recognises connections by a Bloom filter and
    tags the first ACK of each with ECE; the server checks untagged ones itself. */
module SmartCookie {
  import opened Words
  import opened Checksum
  import opened Packets
  import opened Rewrites
  import opened Recompute
  import opened HtsCookie

  /** What the gateway puts into the filter: 12 bytes, where the source port also
      stands for the destination port. */
  datatype FlowKey = FlowKey(srcIp: u32, dstIp: u32, srcPort: u16)

  /** hsiphash of addresses and ports, and the Bloom positions of a flow and of the
      4-byte prefix that tagged packets from the server side enter. */
  datatype Keyed = Keyed(hash: (u32, u32, u16, u16) -> u32, bloom: FlowKey -> set<nat>, bloomPrefix: u32 -> set<nat>)

  function FlowOf(p: Pkt): FlowKey { FlowKey(p.saddr, p.daddr, p.sport) }

  function CookieOf(h: Keyed, p: Pkt): u32 { h.hash(p.saddr, p.daddr, p.sport, p.dport) }

  // ---------------------------------------------------------------------------
  // Gateway

  /** The cookie SYN-ACK with the client's options. */
  function SynAckKept(p: Pkt, cookie: u32): Pkt {
    var flags, ack, window := p.flags.(syn := true, ack := true), NetAdd(p.seqNo, 1), Swap16(502);
    SwapEnds(p).(tsval := 1, tsecr := p.tsval, seqNo := cookie, ackNo := ack, flags := flags, window := window,
                 check := Incremental(p.check, KeptUpdate(p, cookie, ack, flags, window)))
  }

  function KeptUpdate(p: Pkt, cookie: u32, ack: u32, flags: Flags, window: u16): (u: Update)
    ensures u.Sum() == 6 * ONES32 + 1 - p.tsecr + cookie - p.seqNo + ack - p.ackNo
                         + window - p.window + flags.Word() - p.flags.Word()
  {
    START.Minus(p.tsval).Plus(1).Minus(p.tsecr).Plus(p.tsval)
         .Minus(p.seqNo).Plus(cookie)
         .Minus(p.ackNo).Plus(ack)
         .Minus(p.window).Plus(window)
         .Minus(p.flags.Word()).Plus(flags.Word())
  }

  /** The cookie SYN-ACK with the gateway's own options. */
  function SynAckFresh(p: Pkt, cookie: u32): Pkt {
    Resummed(SwapEnds(p).(tsval := 1, tsecr := p.tsval, seqNo := cookie, ackNo := NetAdd(p.seqNo, 1), pre := [2, 4, 2, 24, 4, 2],
      post := Tail(p, 36), flags := p.flags.(syn := true, ack := true, offset := p.flags.offset % 16 + 0x90)))
  }

  predicate Present(h: Keyed, bloom: set<nat>, k: FlowKey) { h.bloom(k) <= bloom }

  /** A packet from the client side: the filter after it, and the verdict. */
  function FromClient(h: Keyed, ab: bool, bloom: set<nat>, p: Pkt): (set<nat>, Verdict) {
    if p.flags.syn && !p.flags.ack then
      (bloom, Pass(if ab then SynAckKept(p, CookieOf(h, p)) else SynAckFresh(p, CookieOf(h, p))))
    else if p.flags.ack && !p.flags.syn then
      if Present(h, bloom, FlowOf(p)) then (bloom, Pass(OpeningAck(ab, p)))
      else if NetAdd(p.ackNo, -1) != CookieOf(h, p) then (bloom, Drop)
      else (bloom + h.bloom(FlowOf(p)), Pass(OpeningAck(ab, Tag(p))))
    else (bloom, Pass(p))
  }

  /** The tag is not accounted for in the check field. */
  function Tag(p: Pkt): Pkt { p.(flags := p.flags.(ece := true)) }

  /** With `ab`, an ACK of the SYN-ACK gets the server-like options. */
  function OpeningAck(ab: bool, p: Pkt): Pkt {
    if ab && p.tsecr == 1 && !p.flags.psh then FreshAck(p) else p
  }

  /** Whether the gateway sets the tag on this packet. */
  predicate Tags(h: Keyed, bloom: set<nat>, p: Pkt) {
    p.flags.ack && !p.flags.syn && !Present(h, bloom, FlowOf(p)) && NetAdd(p.ackNo, -1) == CookieOf(h, p)
  }

  /** A packet from the server side. */
  function FromServer(h: Keyed, bloom: set<nat>, p: Pkt): (set<nat>, Verdict) {
    if p.flags.ece then (bloom + h.bloomPrefix(p.daddr), Drop)
    else if p.flags.ack then (bloom, Pass(Restamp(p)))
    else (bloom, Pass(p))
  }

  function Restamp(p: Pkt): Pkt {
    p.(tsval := 2, check := Incremental(p.check, START.Minus(p.tsval).Plus(2)))
  }

  // ---------------------------------------------------------------------------
  // Server

  /** struct map_val_t. */
  datatype SplicePoint = SplicePoint(delta: u32, tsValS: u32)

  type Table = map<Key, SplicePoint>

  /** The ACK of the cookie becomes a SYN; the tag goes uncounted, and so does the
      window, which stays. */
  function OpenConnection(p: Pkt): Pkt {
    var flags, seqNo := p.flags.(ack := false, syn := true), NetAdd(p.seqNo, -1);
    var tsecr := if HeaderLen(p) >= 32 then 0 else p.tsecr;
    var c1 := CsumDiff([FlagsAndWindow(p.flags, p.window)], [FlagsAndWindow(flags, p.window)], Not32(p.check));
    var c2 := CsumDiff([p.seqNo], [seqNo], c1);
    var c3 := CsumDiff([p.ackNo], [], c2);
    var c4 := if HeaderLen(p) >= 32 then CsumDiff([p.tsecr], [], c3) else c3;
    p.(flags := flags.(ece := false), seqNo := seqNo, ackNo := 0, tsecr := tsecr, check := ONES16 - Fold64(c4))
  }

  /** Short headers have no timestamp to translate. */
  function AckHandover(p: Pkt, delta: u32): Pkt {
    var ack := NetAdd(p.ackNo, 0 - (delta as int));
    p.(ackNo := ack, check := ONES16 - Fold64(CsumDiff([p.ackNo], [ack], Not32(p.check))))
  }

  /** The ingress program. */
  function Ingress(h: Keyed, t: Table, p: Pkt): (Table, Verdict) {
    var len, key := HeaderLen(p), InKey(p);
    if len < 20 || len > |Encode(p)| then (t, Drop)
    else if p.flags.ack && !p.flags.syn then
      if key in t && !p.flags.ece then
        (t, Pass(if len >= 32 then Handover(p, t[key].delta, t[key].tsValS) else AckHandover(p, t[key].delta)))
      else if !p.flags.ece && NetAdd(p.ackNo, -1) != CookieOf(h, p) then (t, Drop)
      else (t[key := SplicePoint(Swap32(p.ackNo), 0)], Pass(OpenConnection(p)))
    else if p.flags.ack && p.flags.syn then (t, Pass(SynAckBack(p)))
    else (t, Pass(p))
  }

  /** The server's SYN-ACK, answered on the client's behalf. */
  function Reply(p: Pkt): Pkt {
    var q := SwapEnds(p);
    var (seqNo, ackNo) := XorSwap(p.seqNo, p.ackNo);
    var (tsval, tsecr) := if HeaderLen(p) > 32 then XorSwap(p.tsval, p.tsecr) else (p.tsval as int, p.tsecr as int);
    q.(window := if HeaderLen(p) > 32 then Swap16(0x1f6) else p.window, seqNo := seqNo, ackNo := NetAdd(ackNo, 1),
       tsval := tsval, tsecr := tsecr, flags := p.flags.(syn := false), check := 0)
  }

  function ReplyLength(p: Pkt): nat { if HeaderLen(p) > 32 then 36 else 24 }

  /** The egress program; it looks for a timestamp only beyond 32 bytes. */
  function Egress(t: Table, p: Pkt): (Table, Verdict) {
    var len, key := HeaderLen(p), OutKey(p);
    if len < 20 || len > |Encode(p)| then (t, Drop)
    else if key !in t then (t, Drop)
    else
      var e := if len > 32 then t[key].(tsValS := p.tsval) else t[key];
      if p.flags.ack && p.flags.syn then
        var t' := t[key := e.(delta := Sub32(Sub32(e.delta, Swap32(p.seqNo)), 1))];
        if |Encode(p)| < ReplyLength(p) then (t', Drop)
        else
          var q := Reply(p);
          assert |Encode(q)| == |Encode(p)|;
          (t', Redirect(q.(check := PrefixCheck(q, ReplyLength(p)))))
      else (t[key := e], Pass(p.(seqNo := NetAdd(p.seqNo, e.delta))))
  }
}
