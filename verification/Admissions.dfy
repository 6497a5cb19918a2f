/** What the htscookie gateway lets in, answers and refuses, packet by packet and in
    every branch, in terms of sequence numbers, addresses and the keyed hashes alone. */
module Admissions {
  import opened Words
  import opened Packets
  import opened Checksum
  import opened Rewrites
  import opened HtsCookie
  import opened Ledgers
  import opened Protocol
  import Handovers

  // ---------------------------------------------------------------------------
  // Answers

  /** q goes back where p came from. */
  predicate Reversed(p: Pkt, q: Pkt) {
    q.saddr == p.daddr && q.daddr == p.saddr && q.sport == p.dport && q.dport == p.sport
  }

  /** A connection is told by its four ends, from either side. */
  lemma SameConnection(p: Pkt, q: Pkt)
    ensures InKey(p) == InKey(q) <==> p.saddr == q.saddr && p.daddr == q.daddr && p.sport == q.sport && p.dport == q.dport
    ensures InKey(p) == OutKey(q) <==> Reversed(p, q)
  {
  }

  /** Options of another length were put in place of those of p, which leaves a header
      of n bytes: the payload keeps its length, and every byte beyond n its place. */
  ghost predicate Replaced(p: Pkt, q: Pkt, n: nat) {
    && HeaderLen(q) == n && q.flags.offset % 16 == p.flags.offset % 16
    && (HeaderLen(p) <= |Encode(p)| ==> |Encode(q)| == n + (|Encode(p)| - HeaderLen(p)))
    && (forall k :: n <= k < |Encode(p)| && k < |Encode(q)| ==> Encode(q)[k] == Encode(p)[k])
    && (FitsInIp(q) ==> q.check == FullCheck(q) && Valid(q))
  }

  /** The cookie SYN-ACK: it acknowledges the byte after the SYN. */
  ghost predicate Answers(ab: bool, p: Pkt, q: Pkt, cookie: u32) {
    && Reversed(p, q) && q.flags == p.flags.(syn := true, ack := true, offset := q.flags.offset)
    && q.seqNo == cookie && Swap32(q.ackNo) == Add32(Swap32(p.seqNo), 1) && Swap16(q.window) == 502
    && q.tsval == TS_START && q.tsecr == p.tsval && q.urgent == p.urgent
    && if ab then
         && q.pre == p.pre && q.post == p.post && q.flags.offset == p.flags.offset
         && (FitsInIp(p) && Valid(p) ==>
               FitsInIp(q) && (q.check == FullCheck(q) <==> |p.pre| % 2 == 0 || (TS_START - p.tsecr) % 257 == 0))
       else q.pre == [2, 4, 2, 24, 4, 2] && Replaced(p.(tsval := TS_START, tsecr := p.tsval), q, 36)
  }

  /** What the A/B option makes of an ACK without payload, and what passes otherwise. */
  ghost predicate Dressed(ab: bool, p: Pkt, q: Pkt) {
    if ab && |Encode(p)| == HeaderLen(p) then
      && q == p.(pre := [2, 4, 5, 180, 4, 2], post := [1, 3, 3, 7], flags := p.flags.(offset := q.flags.offset), check := q.check)
      && Replaced(p, q, 40)
    else q == p
  }

  /** The RST that makes a new client connect again.  Its acknowledgement number, which
      no ACK flag announces, counts in network order. */
  ghost predicate Resets(p: Pkt, q: Pkt) {
    && Reversed(p, q) && q.flags == p.flags.(rst := true, ack := false) && q.window == 0 && q.urgent == p.urgent
    && q.seqNo == p.ackNo && q.ackNo == Add32(p.ackNo, 1)
    && q.pre == p.pre && q.post == p.post && q.tsval == p.tsval && q.tsecr == p.tsecr
    && (FitsInIp(p) && Valid(p) ==> FitsInIp(q) && q.check == FullCheck(q))
  }

  // ---------------------------------------------------------------------------
  // Packets from clients

  /** The right cookie for a data packet: low half for its address under the seed in
      force or, in the grace window, 14 bits for its flow. */
  predicate Vouched(h: Hashes, always: bool, g: Gateway, w: nat, p: Pkt) {
    var c := Swap32(p.tsecr);
    || c % 0x1_0000 == Fold32(h.sip(p.saddr, g.seeds[p.saddr % 0x1_0000]))
    || ((g.grace != 0 || always) && c / 0x1_0000 % 0x4000 == Fold32(h.haraka(w, p.saddr, p.daddr, p.sport)) % 0x4000)
  }

  /** In every branch: what is let through, as what, and what the gateway remembers. */
  ghost predicate InboundPromise(h: Hashes, ab: bool, always: bool, g: Gateway, w: nat, p: Pkt, g': Gateway, v: Verdict) {
    var cookie := h.haraka(w, p.saddr, p.daddr, p.sport);
    var slot := h.sip(p.saddr, g.seeds[p.saddr % 0x1_0000]) % 10_000_000;
    var known := h.bloom(p.saddr) <= g.bloom;
    if p.flags.syn && !p.flags.ack then
      if known then
        && v == Pass(p.(tsecr := if slot in g.synCache then g.synCache[slot] else 0))
        && g' == g.(synCache := g.synCache[slot := 0])
      else g' == g && v.Pass? && Answers(ab, p, v.p, cookie)
    else if p.flags.ack && !p.flags.syn && p.tsecr == TS_START then
      if Swap32(p.ackNo) != Add32(Swap32(cookie), 1) then g' == g && v == Drop
      else if known then g' == g && v.Pass? && Dressed(ab, p, v.p)
      else
        && g' == g.(bloom := g.bloom + h.bloom(p.saddr), synCache := g.synCache[slot := cookie])
        && v.Pass? && exists q :: Resets(p, q) && Dressed(ab, q, v.p)
    else if p.flags.ack && !p.flags.syn then
      g' == g && v == if Vouched(h, always, g, w, p) then Pass(p) else Drop
    else g' == g && v == Pass(p)
  }

  lemma SynAckFields(p: Pkt, cookie: u32)
    ensures var q := SynToSynAck(p, cookie);
      && Reversed(p, q) && q.flags == p.flags.(syn := true, ack := true)
      && q.seqNo == cookie && Swap32(q.ackNo) == Add32(Swap32(p.seqNo), 1) && Swap16(q.window) == 502
      && q.tsval == TS_START && q.tsecr == p.tsval && q.urgent == p.urgent && q.pre == p.pre && q.post == p.post
  {
    hide Swap32, Incremental, SynAckUpdate;
    NetAddHost(p.seqNo, 1);
    assert Swap16(Swap16(502)) == 502;
  }

  lemma KeptAnswers(p: Pkt, cookie: u32)
    ensures Answers(true, p, SynToSynAck(p, cookie), cookie)
  {
    hide Encode, Valid, FullCheck, Swap32, Swap16, SynToSynAck, Replaced;
    SynAckFields(p, cookie);
    if FitsInIp(p) && Valid(p) { SynAckChecksum(p, cookie); }
  }

  lemma ResummedIs(q: Pkt)
    ensures var r := Resummed(q); r == q.(check := r.check) && FitsInIp(r) == FitsInIp(q) && (FitsInIp(r) ==> r.check == FullCheck(r) && Valid(r))
  {
    hide Encode, Valid, FullCheck;
    var r := Resummed(q);
    SameRest(q, r);
    if FitsInIp(q) {
      FullCheckValid(q);
      Handovers.FullCheckOfCleared(q);
      Handovers.FullCheckOfCleared(r);
      assert r.(check := 0) == q.(check := 0);
    }
  }

  /** Where the bytes of a segment are: 20 of the header, then options and payload. */
  lemma EncodeAt(p: Pkt, k: nat)
    requires 20 <= k < |Encode(p)|
    ensures Encode(p)[k] == (p.pre + (Timestamp(p) + p.post))[k - 20]
  {
    hide Header, Timestamp;
  }

  /** n bytes of header, options included, then the tail. */
  lemma TailInPlace(p: Pkt, q: Pkt, n: nat, opts: seq<u8>)
    requires q.post == opts + Tail(p, n) && n == 30 + |q.pre| + |opts|
    ensures |Encode(q)| == n + |Tail(p, n)|
    ensures forall k :: n <= k < |Encode(p)| && k < |Encode(q)| ==> Encode(q)[k] == Encode(p)[k]
  {
    hide Encode, Tail, Timestamp;
    EncodeSize(q);
    forall k | n <= k < |Encode(p)| && k < |Encode(q)| ensures Encode(q)[k] == Encode(p)[k] {
      EncodeAt(q, k);
      var front := q.pre + (Timestamp(q) + opts);
      assert q.pre + (Timestamp(q) + q.post) == front + Tail(p, n);
      assert (front + Tail(p, n))[k - 20] == Tail(p, n)[k - n];
    }
  }

  lemma EncodeSize(p: Pkt)
    ensures |Encode(p)| == 30 + |p.pre| + |p.post|
  {
  }

  lemma FreshAnswers(p: Pkt, cookie: u32)
    ensures Answers(false, p, FreshSynAck(p, cookie), cookie)
  {
    hide Swap32, Swap16, SynToSynAck, Valid, FullCheck, Encode, Tail, Resummed;
    SynAckFields(p, cookie);
    var k := SynToSynAck(p, cookie);
    var p' := p.(tsval := TS_START, tsecr := p.tsval);
    SameTail(p', k, 36);
    var q := k.(pre := [2, 4, 2, 24, 4, 2], post := Tail(k, 36), flags := k.flags.(offset := p.flags.offset % 16 + 0x90));
    ResummedIs(q);
    var r := Resummed(q);
    assert [] + Tail(p', 36) == Tail(p', 36);
    TailInPlace(p', r, 36, []);
    NewOffset(p.flags.offset);
    assert Replaced(p', r, 36);
    hide Replaced;
  }

  /** The tail is made of options and payload, so the 20 bytes before do not matter. */
  lemma SameTail(p: Pkt, q: Pkt, n: nat)
    requires n >= 20 && HeaderLen(q) == HeaderLen(p)
    requires q.pre == p.pre && q.post == p.post && q.tsval == p.tsval && q.tsecr == p.tsecr
    ensures |Encode(q)| == |Encode(p)| && Tail(q, n) == Tail(p, n)
  {
    hide Encode;
    EncodeSize(p);
    EncodeSize(q);
    forall k | 20 <= k < |Encode(p)| ensures Encode(p)[k] == Encode(q)[k] {
      EncodeAt(p, k);
      EncodeAt(q, k);
    }
  }

  lemma NewOffset(offset: u8)
    ensures var o := offset % 16 + 0x90; o / 16 == 9 && o % 16 == offset % 16
    ensures var o := offset % 16 + 0xa0; o / 16 == 10 && o % 16 == offset % 16
  {
  }

  /** The IP header that the gateway adjusts beside it has the length of the new segment. */
  lemma {:induction false} LengthsAgree(p: Pkt, q: Pkt, n: nat, ip: IpHeader, ihl: nat)
    requires Replaced(p, q, n) && HeaderLen(p) <= |Encode(p)|
    requires Swap16(ip.totLen) == ihl + |Encode(p)| && ihl + |Encode(q)| < TWO16
    ensures Swap16(IpResize(ip, n - HeaderLen(p)).totLen) == ihl + |Encode(q)|
  {
    hide Swap16, Encode, FullCheck, Valid, IpResize;
    IpResized(ip, n - HeaderLen(p));
  }

  lemma AckDressed(p: Pkt)
    requires |Encode(p)| == HeaderLen(p)
    ensures Dressed(true, p, FreshAck(p))
  {
    hide Valid, FullCheck, Encode, Tail, Resummed;
    var q := p.(pre := [2, 4, 5, 180, 4, 2], post := [1, 3, 3, 7] + Tail(p, 40), flags := p.flags.(offset := p.flags.offset % 16 + 0xa0));
    ResummedIs(q);
    TailInPlace(p, Resummed(q), 40, [1, 3, 3, 7]);
    assert [1, 3, 3, 7] + Tail(p, 40) == [1, 3, 3, 7];
  }

  lemma AckResets(p: Pkt)
    ensures Resets(p, AckToRst(p)) && |Encode(AckToRst(p))| == |Encode(p)|
  {
    if FitsInIp(p) && Valid(p) { RstChecksum(p); }
    EncodeSize(p);
    EncodeSize(AckToRst(p));
    hide Encode, Valid, FullCheck, Incremental, RstUpdate;
  }

  /** A data ACK gets through exactly when a cookie vouches for it, and untouched. */
  lemma {:induction false} DataAdmitted(h: Hashes, ab: bool, always: bool, g: Gateway, w: nat, p: Pkt)
    requires p.flags.ack && !p.flags.syn && p.tsecr != TS_START
    ensures Inbound(h, ab, always, g, w, p) == (g, if Vouched(h, always, g, w, p) then Pass(p) else Drop)
  {
    hide Swap32, Fold32;
  }

  lemma {:induction false} InboundPromised(h: Hashes, ab: bool, always: bool, g: Gateway, w: nat, p: Pkt)
    ensures var (g', v) := Inbound(h, ab, always, g, w, p); InboundPromise(h, ab, always, g, w, p, g', v)
  {
    var cookie := SynCookie(h, w, p);
    hide Swap32, NetAdd, SynToSynAck, FreshSynAck, FreshAck, AckToRst, Encode, Answers, Dressed, Resets, Vouched, DataPasses;
    if p.flags.syn && !p.flags.ack {
      KeptAnswers(p, cookie);
      FreshAnswers(p, cookie);
    } else if p.flags.ack && !p.flags.syn && p.tsecr != TS_START {
      DataAdmitted(h, ab, always, g, w, p);
    } else if p.flags.ack && !p.flags.syn {
      Handovers.CookieNext(p.ackNo, cookie);
      if NetAdd(p.ackNo, -1) == cookie { CookieAckPromised(h, ab, always, g, w, p); }
    }
  }

  lemma CookieAckPromised(h: Hashes, ab: bool, always: bool, g: Gateway, w: nat, p: Pkt)
    requires p.flags.ack && !p.flags.syn && p.tsecr == TS_START && NetAdd(p.ackNo, -1) == SynCookie(h, w, p)
    ensures var v := Inbound(h, ab, always, g, w, p).1;
      v.Pass? && if Known(h, g, p.saddr) then Dressed(ab, p, v.p) else exists q :: Resets(p, q) && Dressed(ab, q, v.p)
  {
    var q := if Known(h, g, p.saddr) then p else AckToRst(p);
    AckResets(p);
    if |Encode(q)| == HeaderLen(q) { AckDressed(q); }
    assert Dressed(ab, q, if ab && |Encode(q)| == HeaderLen(q) then FreshAck(q) else q);
    hide NetAdd, FreshAck, AckToRst, Encode, Dressed, Resets;
  }

  /** The two handshakes are one: the ACK of a client that got a cookie SYN-ACK, once
      its address is known, makes the server see a SYN with the number of the client's
      own SYN, and remember the cookie. */
  lemma {:induction false} HandshakeSpliced(h: Hashes, ab: bool, always: bool, g: Gateway, g': Gateway, w: nat, srv: Server,
                                            syn: Pkt, ack: Pkt, newCookie: u16, newSeed: u32)
    requires syn.flags.syn && !syn.flags.ack && !Known(h, g, syn.saddr) && Known(h, g', syn.saddr)
    requires var synAck := Inbound(h, ab, always, g, w, syn).1.p;
      && InKey(ack) == OutKey(synAck) && ack.ackNo == NetAdd(synAck.seqNo, 1) && ack.seqNo == synAck.ackNo
      && ack.tsecr == synAck.tsval
    requires ack.flags.ack && !ack.flags.syn && !ack.flags.fin && Seen(ack) && HeaderLen(ack) == |Encode(ack)|
    ensures Inbound(h, ab, always, g', w, ack).1.Pass?
    ensures var (srv', v) := Ingress(h, srv, Inbound(h, ab, always, g', w, ack).1.p, newCookie, newSeed);
      && v.Pass? && v.p.flags.syn && !v.p.flags.ack && v.p.seqNo == syn.seqNo && InKey(v.p) == InKey(syn)
      && InKey(syn) in srv'.conntrack && srv'.conntrack[InKey(syn)].hash == h.haraka(w, syn.saddr, syn.daddr, syn.sport)
  {
    hide Swap32, NetAdd, SynToSynAck, FreshSynAck, FreshAck, AckToRst, Encode, FiveDiffs, Fold64;
    var cookie := SynCookie(h, w, syn);
    Handovers.SynAckCarriesCookie(syn, cookie);
    Handovers.PredecessorOfNext(cookie);
    Handovers.PredecessorOfNext(syn.seqNo);
    FreshIs(ack);
    FreshSeq(ack);
  }

  lemma FreshSeq(p: Pkt)
    ensures FreshAck(p).seqNo == p.seqNo
  {
    hide FullCheck, Tail;
  }

  // ---------------------------------------------------------------------------
  // Old cookies

  /** In every run, the echo of a cookie that was let out passes exactly when its map
      part is also the one of the seed that the gateway has come to since, or the grace
      window is open and its 14 bits are those of the flow: once the window is closed,
      a rotated cookie passes by collision only. */
  lemma {:induction false} OldCookieIff(h: Hashes, s: Sys, run: seq<Event>, i: nat, ab: bool, always: bool, w: nat, p: Pkt)
    requires Reached(h, s, run) && i < |s.passed| && s.passed[i].live
    requires var c := s.passed[i]; InKey(p) == c.key && p.tsecr == c.raw && p.flags.ack && !p.flags.syn && p.tsecr != TS_START
    ensures Sized(s)
    ensures var c := s.passed[i]; var n, seeds := s.learnt[KeySeed(c.key)], s.book.history[KeySeed(c.key)];
      && c.seedNo <= n < |seeds|
      && (Inbound(h, ab, always, s.gw, w, p).1.Pass? <==>
            || Fold32(h.sip(p.saddr, seeds[c.seedNo])) == Fold32(h.sip(p.saddr, seeds[n]))
            || ((s.gw.grace != 0 || always) && Fold32(c.hash) % 0x4000 == Fold32(SynCookie(h, w, p)) % 0x4000))
  {
    hide Reached, After, Legal, LinkOk, ServerOk, Swap32, Fold32, Inbound;
    RunsKeepInv(h, s, run);
    InvSized(h, s);
    var c := s.passed[i];
    var k := KeySeed(c.key);
    assert KeyOk(h, s, k);
    assert SentOk(h, c, s.learnt[k], s.book.history[k]);
    DataAdmitted(h, ab, always, s.gw, w, p);
  }

  /** Folding loses nothing that the low half cannot give back. */
  lemma FoldUndone(x: u32)
    ensures Xor(Fold32(x), x % TWO16) == x / TWO16
  {
    XorCancel(x / TWO16, x % TWO16);
  }

  // ---------------------------------------------------------------------------
  // Packets from the server side

  ghost predicate OutboundPromise(h: Hashes, g: Gateway, flow: u32, p: Pkt, g': Gateway, v: Verdict) {
    if p.flags.ece then v == Drop && g' == g.(seeds := g.seeds[p.window := p.seqNo], grace := p.ackNo)
    else if p.flags.syn && !p.flags.ack then
      && g' == g && v.Pass? && v.p == p.(tsval := v.p.tsval, check := v.p.check)
      && Swap32(v.p.tsval) % 0x1_0000 == Fold32(h.sip(p.daddr, g.seeds[p.daddr % 0x1_0000]))
      && Swap32(v.p.tsval) / 0x1_0000 == Fold32(flow)
      && (FitsInIp(p) && Valid(p) ==>
            FitsInIp(v.p) && (v.p.check == FullCheck(v.p) <==> |p.pre| % 2 == 0 || (v.p.tsval - p.tsval) % 257 == 0))
    else g' == g && v == Pass(p)
  }

  lemma {:induction false} OutboundPromised(h: Hashes, g: Gateway, flow: u32, p: Pkt)
    ensures var (g', v) := Outbound(h, g, flow, p); OutboundPromise(h, g, flow, p, g', v)
  {
    hide Swap32, Fold32, Encode, Valid, FullCheck, Incremental;
    var c := HybridCookie(h, g.seeds, flow, p.daddr);
    Swap32Twice(c);
    Halves(Fold32(flow), MapCookie(h, g.seeds, p.daddr));
    if FitsInIp(p) && Valid(p) { Handovers.StampedChecksum(p, Swap32(c)); }
  }

  lemma Halves(hi: u16, lo: u16)
    ensures (hi * TWO16 + lo) / TWO16 == hi && (hi * TWO16 + lo) % TWO16 == lo
  {
  }
}
