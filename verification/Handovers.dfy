/** What the htscookie agents promise a client and a server whose handshakes they
    splice together. */
module Handovers {
  import opened Words
  import opened Packets
  import opened Checksum
  import opened Rewrites
  import opened Recompute
  import opened HtsCookie
  import opened Ledgers
  import opened Protocol
  import Timestamps

  lemma SynAckCarriesCookie(p: Pkt, cookie: u32)
    ensures var q := SynToSynAck(p, cookie);
      q.seqNo == cookie && q.ackNo == NetAdd(p.seqNo, 1) && q.tsval == TS_START && q.tsecr == p.tsval && OutKey(q) == InKey(p)
    ensures var q := FreshSynAck(p, cookie);
      q.seqNo == cookie && q.ackNo == NetAdd(p.seqNo, 1) && q.tsval == TS_START && q.tsecr == p.tsval && OutKey(q) == InKey(p)
  {
    hide NetAdd, Tail, Incremental, SynAckUpdate, FullCheck;
  }

  lemma SynAckFlags(p: Pkt, cookie: u32)
    ensures var f := SynToSynAck(p, cookie).flags; f.syn && f.ack
    ensures var f := FreshSynAck(p, cookie).flags; f.syn && f.ack
  {
    hide NetAdd, Tail, Incremental, SynAckUpdate, FullCheck;
  }

  lemma PredecessorOfNext(x: u32)
    ensures NetAdd(NetAdd(x, 1), -1) == x
  {
    NetAddBack(x, 1);
  }

  /** The cookie round trip: whatever the SYN, a client that acknowledges the
      SYN-ACK and echoes its timestamp passes the stateless check; and the byte that it
      sends next, the one after its SYN, is the one that the SYN-ACK asked for. */
  lemma {:induction false} CookieRoundTrip(h: Hashes, ab: bool, always: bool, g: Gateway, g': Gateway, w: nat, syn: Pkt, ack: Pkt)
    requires syn.flags.syn && !syn.flags.ack && !Known(h, g, syn.saddr)
    requires var synAck := Inbound(h, ab, always, g, w, syn).1.p;
      InKey(ack) == OutKey(synAck) && ack.ackNo == NetAdd(synAck.seqNo, 1) && ack.tsecr == synAck.tsval
    requires ack.flags.ack && !ack.flags.syn
    ensures ack.tsecr == TS_START && InKey(ack) == InKey(syn)
    ensures Inbound(h, ab, always, g', w, ack).1.Pass?
    ensures var synAck := Inbound(h, ab, always, g, w, syn).1.p;
      Swap32(synAck.ackNo) == Add32(Swap32(syn.seqNo), 1) && synAck.flags.syn && synAck.flags.ack
  {
    NetAddHost(syn.seqNo, 1);
    SynAckFlags(syn, SynCookie(h, w, syn));
    hide Swap32, NetAdd, SynToSynAck, FreshSynAck, FreshAck, AckToRst, Encode;
    var cookie := SynCookie(h, w, syn);
    SynAckCarriesCookie(syn, cookie);
    PredecessorOfNext(cookie);
  }

  /** The gateway lets an ACK that opens a connection through to the server only
      with the SYN cookie of its addresses, so the server records that cookie. */
  lemma {:induction false} ForwardedAckHasCookie(h: Hashes, ab: bool, always: bool, g: Gateway, w: nat, p: Pkt)
    requires p.flags.ack && !p.flags.syn && p.tsecr == TS_START && Inbound(h, ab, always, g, w, p).1.Pass?
    ensures var q := Inbound(h, ab, always, g, w, p).1.p;
      q.flags.ack ==> Known(h, g, p.saddr) && InKey(q) == InKey(p) && AckEntry(q).hash == SynCookie(h, w, q)
  {
    hide FullCheck, Encode, NetAdd;
  }

  // ---------------------------------------------------------------------------
  // Sequence numbers and timestamps

  /** In every run, what the server sends reaches the client as bytes after the cookie
      it acknowledged, with the hybrid cookie as timestamp. */
  lemma {:induction false} EgressTranslates(h: Hashes, s: Sys, run: seq<Event>, p: Pkt)
    requires Reached(h, s, run) && Handled(s.srv, p)
    requires p.flags.syn && p.flags.ack ==> s.srv.conntrack[OutKey(p)].delta == 0
    ensures var v := Egress(s.srv, p).1;
      OutKey(p) in s.book.flows && v.Pass? && Sent(s.srv.conntrack[OutKey(p)], s.book.flows[OutKey(p)], p, v.p)
  {
    hide Reached, After, Legal, ServerOk, Handled, Sent, Egress;
    RunsKeepInv(h, s, run);
    EgressSent(h, s.srv, s.book, p);
  }

  /** In every run, what the client acknowledges reaches the server as bytes of its
      own, with the last timestamp value that the server sent. */
  lemma {:induction false} IngressTranslates(h: Hashes, s: Sys, run: seq<Event>, p: Pkt, newCookie: u16, newSeed: u32)
    requires Reached(h, s, run) && IsData(s.srv, p)
    ensures var v := Ingress(h, s.srv, p, newCookie, newSeed).1;
      InKey(p) in s.book.flows && v.Pass? && Delivered(s.book.flows[InKey(p)], p, v.p)
  {
    hide Reached, After, Legal, ServerOk, IsData, Delivered, Ingress;
    RunsKeepInv(h, s, run);
    DataDelivered(h, s.srv, s.book, p, newCookie, newSeed);
  }

  /** Ingress undoes egress, whatever the offset. */
  lemma {:induction false} TranslationInverse(x: u32, delta: u32)
    ensures NetAdd(NetAdd(x, delta), 0 - (delta as int)) == x
    ensures NetAdd(NetAdd(x, 0 - (delta as int)), delta) == x
  {
    var d: int := delta;
    NetAddBack(x, d);
    NetAddBack(x, -d);
  }

  lemma NetAddBack(x: u32, d: int)
    ensures NetAdd(NetAdd(x, d), -d) == x
  {
    hide Swap32, Add32;
    NetAddHost(x, d);
    Swap32Twice(x);
    AddBack(Swap32(x), d);
  }

  lemma AddBack(x: u32, d: int)
    ensures Add32(Add32(x, d), -d) == x
  {
    var y := Add32(x, d);
    assert (y - (x + d)) % TWO32 == 0;
    assert (y - d - x) % TWO32 == 0;
  }

  lemma CookieNext(ackNo: u32, cookie: u32)
    ensures NetAdd(ackNo, -1) == cookie <==> Swap32(ackNo) == Add32(Swap32(cookie), 1)
  {
    hide Swap32, Add32, NetAdd;
    NetAddHost(ackNo, -1);
    NetAddHost(cookie, 1);
    NetAddBack(ackNo, -1);
    NetAddBack(cookie, 1);
    Swap32Twice(ackNo);
    Swap32Twice(NetAdd(cookie, 1));
  }

  /** Connections opened by a SYN are not translated, in either direction. */
  lemma {:induction false} SynOpenedUntouched(h: Hashes, s: Sys, run: seq<Event>, p: Pkt, q: Pkt, newCookie: u16, newSeed: u32)
    requires Reached(h, s, run) && Handled(s.srv, p) && OutKey(p) in s.book.flows && s.book.flows[OutKey(p)].opening == 0
    requires IsData(s.srv, q) && InKey(q) == OutKey(p)
    ensures var v := Egress(s.srv, p).1; v.Pass? && v.p.seqNo == p.seqNo && v.p.ackNo == p.ackNo
    ensures var v := Ingress(h, s.srv, q, newCookie, newSeed).1; v.Pass? && v.p.seqNo == q.seqNo && v.p.ackNo == q.ackNo
  {
    hide Reached, After, Legal, Encode, Swap32, SeedOk, CountOk, Egress, Ingress;
    RunsKeepInv(h, s, run);
    var key := OutKey(p);
    assert FlowOk(h, s.book.history[KeySeed(key)], key, s.srv.conntrack[key], s.book.flows[key]);
    EgressTranslates(h, s, run, p);
    IngressTranslates(h, s, run, q, newCookie, newSeed);
  }

  /** The answer to the server's SYN-ACK completes a handshake with the client's
      addresses, numbers and timestamps.  Its check field is right exactly when
      what follows its first 36 bytes sums to zero, so for 36-byte SYN-ACKs. */
  lemma {:induction false} AnswerCompletesHandshake(p: Pkt)
    requires FitsInIp(p) && |Encode(p)| >= 36
    ensures var q := AnswerSynAck(p);
      && InKey(q) == OutKey(p) && q.seqNo == p.ackNo && Swap32(q.ackNo) == Add32(Swap32(p.seqNo), 1)
      && q.tsecr == p.tsval && q.tsval == p.tsecr && q.flags.ack == p.flags.ack && !q.flags.syn
      && |Encode(q)| == |Encode(p)|
      && (q.check == FullCheck(q) <==> (|Encode(q)| - 36 + BeSum(Encode(Answer(p))[36..])) % ONES16 == 0)
      && (|Encode(p)| == 36 ==> q.check == FullCheck(q))
  {
    hide PrefixCheck, Swap32, FullCheck;
    NetAddHost(p.seqNo, 1);
    var q0 := Answer(p);
    PrefixCheckIff(q0, 36);
    FullCheckOfCleared(AnswerSynAck(p));
    assert AnswerSynAck(p).(check := 0) == q0;
  }

  /** A server's own SYN leaves with its timestamp replaced and a right check field,
      if the option is at an even offset or the change a multiple of 257. */
  lemma {:induction false} StampedChecksum(p: Pkt, tsval: u32)
    requires FitsInIp(p) && Valid(p)
    ensures var q := Stamped(p, tsval);
      FitsInIp(q) && (q.check == FullCheck(q) <==> |p.pre| % 2 == 0 || (tsval - p.tsval) % 257 == 0)
  {
    hide Encode, Valid, FullCheck, Rest, Incremental, Cong;
    var q := Stamped(p, tsval);
    SameRest(p, q);
    var u := START.Minus(p.tsval).Plus(tsval);
    var d := Fields(q) - Fields(p) + Stamps(q) - Stamps(p);
    assert u.Sum() == 1 * ONES32 + d;
    DropMultiple(u.Sum(), 1, d);
    IncrementalAccounted(p, q, u);
  }

  lemma FullCheckOfCleared(p: Pkt)
    requires FitsInIp(p)
    ensures FitsInIp(p.(check := 0)) && FullCheck(p) == FullCheck(p.(check := 0))
  {
    assert |Encode(p.(check := 0))| == |Encode(p)|;
  }

  // ---------------------------------------------------------------------------
  // What the server's two programs promise, packet by packet

  /** The SYN that an opening ACK becomes. */
  ghost predicate OpensServer(p: Pkt, q: Pkt) {
    && q == p.(flags := p.flags.(ack := false, syn := true), seqNo := q.seqNo, ackNo := 0, tsecr := 0, window := q.window, check := q.check)
    && Swap32(q.seqNo) == Add32(Swap32(p.seqNo), -1) && Swap16(q.window) == 64240
    && (FitsInIp(p) && Valid(p) ==> FitsInIp(q) && q.check == FullCheck(q))
  }

  /** A connection is opened by a SYN that carries the SYN cookie: its hybrid cookie is
      there at once, under the current seed. */
  ghost predicate SynOpened(h: Hashes, s: Server, p: Pkt, e: Entry) {
    && e == Entry(e.hybrid, p.tsecr, s.seeds[p.saddr % 0x1_0000], 0, 0, 0)
    && CookieOk(h, InKey(p), e.hybrid, e.seed, p.tsecr) && Counter(Swap32(e.hybrid)) == 1
  }

  /** Data of a known connection. */
  ghost predicate DataTaken(s: Server, b: Ledger, p: Pkt, e': Entry, v: Verdict) {
    var key := InKey(p);
    && key in s.conntrack && key in b.flows && v.Pass? && Delivered(b.flows[key], p, v.p)
    && var e, seed := s.conntrack[key], s.seeds[p.saddr % 0x1_0000];
    && e' == (if e.seed == seed then e else e.(hybrid := e'.hybrid, seed := seed))
    && (FitsInIp(p) && Valid(p) ==>
          FitsInIp(v.p) && (v.p.check == FullCheck(v.p) <==> |p.pre| % 2 == 0 || (b.flows[key].lastTs - p.tsecr) % 257 == 0))
  }

  /** Data of an unknown connection never reaches the server.  It is counted, unless it
      comes with the timestamp of a handshake, and the count at the threshold brings on
      a new seed, which the packet itself is sent to announce. */
  ghost predicate StrayRefused(h: Hashes, s: Server, p: Pkt, newCookie: u16, newSeed: u32, s': Server, v: Verdict) {
    var k := p.saddr % 0x1_0000;
    if p.tsecr == TS_START then s' == s && v == Drop
    else if s.dropcnt + 1 < 5_000_000 then s' == s.(dropcnt := s.dropcnt + 1) && v == Drop
    else
      && s' == s.(seeds := s.seeds[k := newSeed], dropcnt := 0)
      && v == Notify(p.(saddr := p.daddr, daddr := p.saddr, sport := Fold32(h.sip(p.saddr, s.seeds[k])), dport := newCookie,
                        window := k, seqNo := newSeed, ackNo := s.rtt, flags := p.flags.(ece := true)))
  }

  /** Ingress, in every branch.  Apart from the entry of its own connection and from
      strays, a packet changes nothing at the server. */
  ghost predicate IngressPromise(h: Hashes, s: Server, b: Ledger, p: Pkt, newCookie: u16, newSeed: u32, s': Server, v: Verdict) {
    var key, len := InKey(p), HeaderLen(p);
    if len < 20 || len > |Encode(p)| then s' == s && v == Drop
    else if len < 32 then s' == s && v == Pass(p)
    else if p.flags.syn && !p.flags.ack then
      if p.tsecr == 0 then s' == s && v == Drop
      else OneEntry(s, s', key) && SynOpened(h, s, p, s'.conntrack[key]) && v == Pass(p.(tsecr := 0))
    else if p.flags.ack && !p.flags.syn then
      if p.tsecr == TS_START && len == |Encode(p)| && !p.flags.fin then
        && OneEntry(s, s', key) && AckOpened(p, s'.conntrack[key]) && v.Pass? && OpensServer(p, v.p)
      else if key in s.conntrack then OneEntry(s, s', key) && DataTaken(s, b, p, s'.conntrack[key], v)
      else StrayRefused(h, s, p, newCookie, newSeed, s', v)
    else if p.flags.ack then
      && s' == s && v.Pass? && v.p == p.(flags := p.flags.(syn := false), check := v.p.check)
      && (FitsInIp(p) && Valid(p) ==> FitsInIp(v.p) && v.p.check == FullCheck(v.p))
    else s' == s && v == Pass(p)
  }

  ghost predicate OneEntry(s: Server, s': Server, key: Key) {
    key in s'.conntrack && s' == s.(conntrack := s.conntrack[key := s'.conntrack[key]])
  }

  /** By an ACK of the SYN cookie: the hybrid cookie comes later. */
  ghost predicate AckOpened(p: Pkt, e: Entry) {
    e == Entry(0, e.hash, 0, 0, Swap32(p.ackNo), 0) && Swap32(e.hash) == Add32(Swap32(p.ackNo), -1)
  }

  lemma OpeningPromised(p: Pkt)
    requires Opens(p)
    ensures OpensServer(p, AckToSyn(p)) && AckOpened(p, AckEntry(p))
  {
    hide Encode, Valid, FullCheck, Swap32, FiveDiffs, Fold64;
    NetAddHost(p.seqNo, -1);
    NetAddHost(p.ackNo, -1);
    assert Swap16(Swap16(64240)) == 64240;
    if FitsInIp(p) && Valid(p) { AckToSynChecksum(p); }
  }

  lemma SynPromised(h: Hashes, s: Server, p: Pkt)
    ensures SynOpened(h, s, p, SynEntry(h, s, p))
  {
    hide Swap32, Fold32, Counter, HashPart, MapPart, FirstCookie;
    FirstLayout(h, s.seeds, p.tsecr, p.saddr);
    Swap32Twice(FirstCookie(h, s.seeds, p.tsecr, p.saddr));
  }

  lemma DataPromised(h: Hashes, s: Server, b: Ledger, p: Pkt, newCookie: u16, newSeed: u32)
    requires ServerOk(h, s, b) && IsData(s, p)
    ensures var (s', v) := Ingress(h, s, p, newCookie, newSeed);
      OneEntry(s, s', InKey(p)) && DataTaken(s, b, p, s'.conntrack[InKey(p)], v)
  {
    hide Encode, Valid, FullCheck, Swap32, Refresh, Handover, ServerOk, Delivered, Ingress, IsData;
    var e := DataVerdict(h, s, p, newCookie, newSeed);
    DataDelivered(h, s, b, p, newCookie, newSeed);
    LastTs(h, s, b, InKey(p));
    if FitsInIp(p) && Valid(p) { HandoverChecksum(p, e.delta, e.tsValS); }
  }

  lemma DataVerdict(h: Hashes, s: Server, p: Pkt, newCookie: u16, newSeed: u32) returns (e: Entry)
    requires IsData(s, p)
    ensures Ingress(h, s, p, newCookie, newSeed) ==
      (s.(conntrack := s.conntrack[InKey(p) := e]), Pass(Handover(p, e.delta, e.tsValS)))
    ensures InKey(p) in s.conntrack && var e0, seed := s.conntrack[InKey(p)], s.seeds[p.saddr % 0x1_0000];
      e == if e0.seed == seed then e0 else e0.(hybrid := e.hybrid, seed := seed)
  {
    hide Encode, Swap32, Handover, FirstCookie, NextCookie;
    e := Refresh(h, s.seeds, p.saddr, s.conntrack[InKey(p)]);
  }

  lemma LastTs(h: Hashes, s: Server, b: Ledger, key: Key)
    requires ServerOk(h, s, b) && key in s.conntrack
    ensures key in b.flows && s.conntrack[key].tsValS == b.flows[key].lastTs
  {
    assert FlowOk(h, b.history[KeySeed(key)], key, s.conntrack[key], b.flows[key]);
  }

  lemma StrayPromised(h: Hashes, s: Server, p: Pkt, newCookie: u16, newSeed: u32)
    requires InKey(p) !in s.conntrack
    ensures var (s', v) := IngressData(h, s, p, newCookie, newSeed); StrayRefused(h, s, p, newCookie, newSeed, s', v)
  {
    hide Fold32;
  }

  lemma BackPromised(p: Pkt)
    ensures var q := SynAckBack(p);
      && q == p.(flags := p.flags.(syn := false), check := q.check)
      && (FitsInIp(p) && Valid(p) ==> FitsInIp(q) && q.check == FullCheck(q))
  {
    hide Encode, Valid, FullCheck, CsumDiff, Fold64;
    if FitsInIp(p) && Valid(p) { SynAckBackChecksum(p); }
  }

  lemma {:induction false} IngressPromised(h: Hashes, s: Server, b: Ledger, p: Pkt, newCookie: u16, newSeed: u32)
    requires ServerOk(h, s, b)
    ensures var (s', v) := Ingress(h, s, p, newCookie, newSeed); IngressPromise(h, s, b, p, newCookie, newSeed, s', v)
  {
    hide Encode, Valid, FullCheck, Swap32, AckToSyn, AckEntry, SynEntry, SynAckBack, OpensServer, Handover, Refresh, IngressData,
         SynOpened, AckOpened, DataTaken, StrayRefused, ServerOk;
    SynPromised(h, s, p);
    BackPromised(p);
    if Opens(p) {
      OpeningPromised(p);
    } else if InKey(p) !in s.conntrack {
      StrayPromised(h, s, p, newCookie, newSeed);
    } else if IsData(s, p) {
      DataPromised(h, s, b, p, newCookie, newSeed);
    }
  }

  // Egress

  /** The ACK that the server gets for its SYN-ACK, on the client's behalf. */
  ghost predicate Answered(p: Pkt, q: Pkt) {
    && q == p.(saddr := p.daddr, daddr := p.saddr, sport := p.dport, dport := p.sport, seqNo := p.ackNo, ackNo := q.ackNo,
               tsval := p.tsecr, tsecr := p.tsval, flags := p.flags.(syn := false), window := q.window, check := q.check)
    && Swap32(q.ackNo) == Add32(Swap32(p.seqNo), 1) && Swap16(q.window) == 502
    && (FitsInIp(p) && |Encode(p)| >= 36 ==>
          && FitsInIp(q) && |Encode(q.(check := 0))| == |Encode(p)|
          && (q.check == FullCheck(q) <==> (|Encode(p)| - 36 + BeSum(Encode(q.(check := 0))[36..])) % ONES16 == 0))
  }

  /** Round-trip statistics: the longest time between two packets of one connection, as
      the server's timestamps tell it, since a cookie was last seen to have changed.
      The longest one stays on record when the search starts anew. */
  ghost predicate Timed(s: Server, e: Entry, lastTs: u32, p: Pkt, s': Server, e': Entry) {
    var changed := e.head != Swap32(e.hybrid) / 0x4000_0000;
    var elapsed, longest := Sub32(Swap32(p.tsval), Swap32(lastTs)), if changed then 0 else s.maxRtt;
    && e'.head == (if changed then (e.head + 1) % 4 else e.head)
    && s'.maxRtt == (if elapsed > longest then elapsed else longest)
    && s'.rtt == (if elapsed > longest then elapsed else s.rtt)
  }

  /** Egress, in every branch: packets leave in the client's terms; the SYN-ACK of a
      connection opened by an ACK is answered, which fixes the offset; packets of unknown
      connections are cut. */
  ghost predicate EgressPromise(s: Server, b: Ledger, p: Pkt, s': Server, v: Verdict) {
    var key, len := OutKey(p), HeaderLen(p);
    if len < 20 || len > |Encode(p)| then s' == s && v == Drop
    else if len < 32 then s' == s && v == Pass(p)
    else if key !in s.conntrack then s' == s && v == Drop
    else
      && key in b.flows && key in s'.conntrack
      && s' == s.(conntrack := s.conntrack[key := s'.conntrack[key]], rtt := s'.rtt, maxRtt := s'.maxRtt)
      && var e, e', f := s.conntrack[key], s'.conntrack[key], b.flows[key];
      && e' == e.(delta := e'.delta, tsValS := e'.tsValS, head := e'.head)
      && if p.flags.syn && p.flags.ack then
           && s'.rtt == s.rtt && s'.maxRtt == s.maxRtt && e'.head == e.head && e'.tsValS == p.tsval
           && if e.delta == 0 then e'.delta == 0 && v.Pass? && Sent(e, f, p, v.p)
              else
                && e'.delta == Shift(f.opening, f.isns + [Swap32(p.seqNo)])
                && if |Encode(p)| < 36 then v == Drop else v.Redirect? && Answered(p, v.p)
         else
           && e'.delta == e.delta && v.Pass? && Sent(e, f, p, v.p)
           && if p.flags.rst then s'.rtt == s.rtt && s'.maxRtt == s.maxRtt && e' == e
              else e'.tsValS == p.tsval && Timed(s, e, f.lastTs, p, s', e')
  }

  lemma AnswerPromised(p: Pkt)
    requires |Encode(p)| >= 36
    ensures Answered(p, AnswerSynAck(p))
  {
    hide PrefixCheck, Swap32, FullCheck, BeSum, Encode;
    NetAddHost(p.seqNo, 1);
    assert Swap16(Swap16(0x1f6)) == 502;
    var q := AnswerSynAck(p);
    assert q.(check := 0) == Answer(p);
    if FitsInIp(p) {
      AnswerCompletesHandshake(p);
      SameRest(p, q);
    }
  }

  lemma EgressParts(h: Hashes, s: Server, b: Ledger, p: Pkt)
    requires ServerOk(h, s, b) && OutKey(p) in s.conntrack
    ensures var e := s.conntrack[OutKey(p)];
      && OutKey(p) in b.flows
      && var f := b.flows[OutKey(p)];
      && e.tsValS == f.lastTs && e.delta == Shift(f.opening, f.isns)
      && EgressEntry(e, p).(delta := e.delta, tsValS := e.tsValS, head := e.head) == e
  {
    hide Swap32, Shift, SeedOk, CountOk;
    assert FlowOk(h, b.history[KeySeed(OutKey(p))], OutKey(p), s.conntrack[OutKey(p)], b.flows[OutKey(p)]);
  }

  lemma {:induction false} EgressPromised(h: Hashes, s: Server, b: Ledger, p: Pkt)
    requires ServerOk(h, s, b)
    ensures var (s', v) := Egress(s, p); EgressPromise(s, b, p, s', v)
  {
    hide Encode, Swap32, AnswerSynAck, Sent, ServerOk, FullCheck, NetAdd, Answered, Shift, Sub32;
    var key := OutKey(p);
    if Handled(s, p) {
      EgressParts(h, s, b, p);
      ShiftNext(b.flows[key].opening, b.flows[key].isns, Swap32(p.seqNo));
      if p.flags.syn && p.flags.ack && s.conntrack[key].delta != 0 {
        if |Encode(p)| >= 36 { AnswerPromised(p); }
      } else {
        EgressSent(h, s, b, p);
      }
    }
  }

  // ---------------------------------------------------------------------------
  // The seed zero

  /** Data on a connection leaves its cookie initialised exactly when the current
      seed is not zero. */
  lemma {:induction false} InitialisedIff(h: Hashes, s: Server, p: Pkt, newCookie: u16, newSeed: u32)
    requires InKey(p) in s.conntrack
    ensures var e := IngressData(h, s, p, newCookie, newSeed).0.conntrack[InKey(p)];
      e.seed != 0 <==> s.seeds[SeedKey(p.saddr)] != 0
  {
    hide Handover;
    RefreshedRest(h, s.seeds, p.saddr, s.conntrack[InKey(p)]);
  }

  /** With seed zero a connection keeps the cookie 0, which the gateway refuses
      outside the grace window unless the map cookie happens to be 0. */
  lemma {:induction false} ZeroSeedRefused(h: Hashes, g: Gateway, seeds: Seeds, ack: Pkt, w: nat, p: Pkt)
    requires seeds[SeedKey(ack.saddr)] == 0 && g.grace == 0
    requires p.saddr == ack.saddr && p.tsecr == Refresh(h, seeds, ack.saddr, AckEntry(ack)).hybrid
    ensures DataPasses(h, false, g, w, p) <==> MapCookie(h, g.seeds, p.saddr) == 0
  {
    hide NetAdd, FirstCookie, NextCookie, MapCookie;
    assert Swap32(0) == 0;
  }

  // ---------------------------------------------------------------------------
  // The gateway's option templates

  /** Both parsers find the timestamp of a SYN-ACK or ACK with the gateway's options
      where the model of packets has it. */
  lemma {:induction false} TemplatesParse(syn: bool, ack: bool, p: Pkt, front: seq<u8>)
    requires front == [2, 4, 2, 24, 4, 2] || front == [2, 4, 5, 180, 4, 2]
    requires p.pre == front && (syn || ack) && |Encode(p)| >= 36
    ensures Timestamps.Gateway(syn, ack, Encode(p)[20..], 16) == |p.pre|
    ensures Timestamps.Server(syn, ack, Encode(p)[20..], 16) == |p.pre|
  {
    var o := Encode(p)[20..];
    assert o == p.pre + (Timestamp(p) + p.post);
    assert o[..6] == front && o[6] == 8 && o[7] == 10;
    Timestamps.MssSack(syn, ack, o, 16, front[2], front[3]);
    assert front == [2, 4, front[2], front[3], 4, 2];
    ThreeTurns(o, front);
    Timestamps.ParsersAgree(syn, ack, o, 16);
  }

  lemma ThreeTurns(o: seq<u8>, front: seq<u8>)
    requires |o| >= 16 && |front| == 6 && o[..6] == front && front[0] == 2 && front[1] == 4 && front[4] == 4 && front[5] == 2 && o[6] == 8
    ensures Timestamps.Slow(o, 16, 0, 10) == 6
  {
    assert o[0] == front[0] && o[1] == front[1] && o[4] == front[4] && o[5] == front[5];
    assert Timestamps.Slow(o, 16, 6, 8) == 6;
    assert Timestamps.Slow(o, 16, 4, 9) == Timestamps.Slow(o, 16, 6, 8);
    assert Timestamps.Slow(o, 16, 0, 10) == Timestamps.Slow(o, 16, 4, 9);
  }
}
