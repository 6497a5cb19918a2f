/** What the smartcookie gateway lets in, tags, answers and refuses, packet by packet
    and in every branch. */
module SmartAdmissions {
  import opened Words
  import opened Packets
  import opened Checksum
  import opened Rewrites
  import opened SmartCookie
  import H = HtsCookie
  import Ledgers
  import Handovers
  import Admissions
  import SmartRuns

  /** The cookie SYN-ACK: it acknowledges the byte after the SYN.  Only the form that
      keeps the client's options sets a window of its own. */
  ghost predicate Answers(ab: bool, p: Pkt, q: Pkt, cookie: u32) {
    && Admissions.Reversed(p, q) && q.flags == p.flags.(syn := true, ack := true, offset := q.flags.offset)
    && q.seqNo == cookie && Swap32(q.ackNo) == Add32(Swap32(p.seqNo), 1)
    && q.tsval == 1 && q.tsecr == p.tsval && q.urgent == p.urgent
    && if ab then
         && q.pre == p.pre && q.post == p.post && q.flags.offset == p.flags.offset && Swap16(q.window) == 502
         && (FitsInIp(p) && Valid(p) ==>
               FitsInIp(q) && (q.check == FullCheck(q) <==> |p.pre| % 2 == 0 || (1 - p.tsecr) % 257 == 0))
       else q.pre == [2, 4, 2, 24, 4, 2] && q.window == p.window && Admissions.Replaced(p, q, 36)
  }

  /** What the A/B option makes of an ACK that echoes the cookie SYN-ACK and pushes
      nothing, and what passes otherwise. */
  ghost predicate Dressed(ab: bool, p: Pkt, q: Pkt) {
    if ab && p.tsecr == 1 && !p.flags.psh then
      && q == p.(pre := [2, 4, 5, 180, 4, 2], post := q.post, flags := p.flags.(offset := q.flags.offset), check := q.check)
      && [1, 3, 3, 7] <= q.post && Admissions.Replaced(p, q, 40)
    else q == p
  }

  /** A flow in the filter gets through as it is; a new one needs the cookie of its
      addresses and ports, and then gets the tag and a place in the filter. */
  ghost predicate FromClientPromise(h: Keyed, ab: bool, bloom: set<nat>, p: Pkt, bloom': set<nat>, v: H.Verdict) {
    var cookie := h.hash(p.saddr, p.daddr, p.sport, p.dport);
    var positions := h.bloom(FlowKey(p.saddr, p.daddr, p.sport));
    if p.flags.syn && !p.flags.ack then bloom' == bloom && v.Pass? && Answers(ab, p, v.p, cookie)
    else if p.flags.ack && !p.flags.syn then
      if positions <= bloom then bloom' == bloom && v.Pass? && Dressed(ab, p, v.p)
      else if Swap32(p.ackNo) != Add32(Swap32(cookie), 1) then bloom' == bloom && v == H.Drop
      else bloom' == bloom + positions && v.Pass? && Dressed(ab, p.(flags := p.flags.(ece := true)), v.p)
    else bloom' == bloom && v == H.Pass(p)
  }

  lemma KeptAnswers(p: Pkt, cookie: u32)
    ensures Answers(true, p, SynAckKept(p, cookie), cookie)
  {
    hide Encode, Valid, FullCheck, Swap32, Incremental, KeptUpdate, Admissions.Replaced;
    Ledgers.NetAddHost(p.seqNo, 1);
    assert Swap16(Swap16(502)) == 502;
    if FitsInIp(p) && Valid(p) { SmartRuns.KeptChecksum(p, cookie); }
  }

  lemma FreshAnswers(p: Pkt, cookie: u32)
    ensures Answers(false, p, SynAckFresh(p, cookie), cookie)
  {
    hide Swap32, Swap16, Valid, FullCheck, Encode, H.Tail, H.Resummed;
    Ledgers.NetAddHost(p.seqNo, 1);
    var q := SwapEnds(p).(tsval := 1, tsecr := p.tsval, seqNo := cookie, ackNo := NetAdd(p.seqNo, 1), pre := [2, 4, 2, 24, 4, 2],
      post := H.Tail(p, 36), flags := p.flags.(syn := true, ack := true, offset := p.flags.offset % 16 + 0x90));
    Admissions.ResummedIs(q);
    var r := H.Resummed(q);
    assert [] + H.Tail(p, 36) == H.Tail(p, 36);
    Admissions.TailInPlace(p, r, 36, []);
    Admissions.NewOffset(p.flags.offset);
    assert Admissions.Replaced(p, r, 36);
    hide Admissions.Replaced;
  }

  lemma AckDressed(ab: bool, p: Pkt)
    ensures Dressed(ab, p, OpeningAck(ab, p))
  {
    hide Valid, FullCheck, Encode, H.Tail, H.Resummed;
    var q := p.(pre := [2, 4, 5, 180, 4, 2], post := [1, 3, 3, 7] + H.Tail(p, 40), flags := p.flags.(offset := p.flags.offset % 16 + 0xa0));
    Admissions.ResummedIs(q);
    Admissions.TailInPlace(p, H.Resummed(q), 40, [1, 3, 3, 7]);
    Admissions.NewOffset(p.flags.offset);
  }

  lemma {:induction false} FromClientPromised(h: Keyed, ab: bool, bloom: set<nat>, p: Pkt)
    ensures var (bloom', v) := FromClient(h, ab, bloom, p); FromClientPromise(h, ab, bloom, p, bloom', v)
  {
    hide Swap32, NetAdd, SynAckKept, SynAckFresh, OpeningAck, Answers, Dressed;
    var cookie := CookieOf(h, p);
    KeptAnswers(p, cookie);
    FreshAnswers(p, cookie);
    AckDressed(ab, p);
    AckDressed(ab, Tag(p));
    Handovers.CookieNext(p.ackNo, cookie);
  }

  /** So an ACK is refused exactly when its flow is new and its cookie wrong; without
      the A/B option what passes is p, or p with nothing but the tag set. */
  lemma {:induction false} RefusedIff(h: Keyed, ab: bool, bloom: set<nat>, p: Pkt)
    requires p.flags.ack && !p.flags.syn
    ensures var (bloom', v) := FromClient(h, ab, bloom, p);
      var known, right := Present(h, bloom, FlowOf(p)), Swap32(p.ackNo) == Add32(Swap32(h.hash(p.saddr, p.daddr, p.sport, p.dport)), 1);
      && (v == H.Drop <==> !known && !right)
      && (bloom' == if !known && right then bloom + h.bloom(FlowOf(p)) else bloom)
      && (!ab && v.Pass? ==> v.p == if known then p else p.(flags := p.flags.(ece := true)))
  {
    hide Swap32, FromClient;
    FromClientPromised(h, ab, bloom, p);
  }

  /** The two handshakes are one: the ACK of a client that got a cookie SYN-ACK makes
      the server see a SYN with the number of the client's own SYN. */
  lemma {:induction false} HandshakeSpliced(h: Keyed, ab: bool, bloom: set<nat>, bloom': set<nat>, t: Table, syn: Pkt, ack: Pkt)
    requires syn.flags.syn && !syn.flags.ack && !Present(h, bloom', FlowOf(syn))
    requires var synAck := FromClient(h, ab, bloom, syn).1.p;
      H.InKey(ack) == H.OutKey(synAck) && ack.ackNo == NetAdd(synAck.seqNo, 1) && ack.seqNo == synAck.ackNo
    requires ack.flags.ack && !ack.flags.syn && SmartRuns.Seen(ack)
    ensures FromClient(h, ab, bloom', ack).1.Pass?
    ensures var (t', v) := Ingress(h, t, FromClient(h, ab, bloom', ack).1.p);
      && v.Pass? && v.p.flags.syn && !v.p.flags.ack && !v.p.flags.ece && v.p.seqNo == syn.seqNo && H.InKey(v.p) == H.InKey(syn)
      && t' == t[H.InKey(syn) := SplicePoint(Add32(Swap32(h.hash(syn.saddr, syn.daddr, syn.sport, syn.dport)), 1), 0)]
  {
    hide Swap32, NetAdd, SynAckKept, SynAckFresh, H.FreshAck, Encode, OpenConnection, Add32;
    var cookie := CookieOf(h, syn);
    SmartRuns.KeptCarries(h, ab, bloom, syn);
    Asks(h, ab, bloom, syn);
    Handovers.PredecessorOfNext(cookie);
    Handovers.PredecessorOfNext(syn.seqNo);
    Ledgers.NetAddHost(cookie, 1);
    SmartRuns.SameLength(ack);
    H.FreshIs(Tag(ack));
    Admissions.FreshSeq(Tag(ack));
    var q := OpeningAck(ab, Tag(ack));
    Begins(q);
  }

  lemma Begins(q: Pkt)
    ensures var r := OpenConnection(q);
      r.flags.syn && !r.flags.ack && !r.flags.ece && r.seqNo == NetAdd(q.seqNo, -1) && H.InKey(r) == H.InKey(q)
  {
    hide NetAdd, CsumDiff, Fold64;
  }

  lemma Asks(h: Keyed, ab: bool, bloom: set<nat>, p: Pkt)
    requires p.flags.syn && !p.flags.ack
    ensures FromClient(h, ab, bloom, p).1.p.ackNo == NetAdd(p.seqNo, 1)
  {
    hide NetAdd, Incremental, KeptUpdate, FullCheck, Swap16, H.Tail;
  }

  /** What counts as tagged: a packet that passes although its flow was not in the
      filter.  It leaves with ECE set. */
  lemma {:induction false} TagsIff(h: Keyed, ab: bool, bloom: set<nat>, p: Pkt)
    ensures var v := FromClient(h, ab, bloom, p).1;
      && (Tags(h, bloom, p) <==> p.flags.ack && !p.flags.syn && !Present(h, bloom, FlowOf(p)) && v.Pass?)
      && (Tags(h, bloom, p) ==> v.p.flags.ece)
  {
    hide NetAdd, SynAckKept, SynAckFresh, H.FreshAck;
    H.FreshIs(Tag(p));
  }

  /** Data of a connection that the gateway and the server know goes all the way, as
      what the server expects next. */
  lemma {:induction false} DataGetsThrough(h: Keyed, bloom: set<nat>, t: Table, m: SmartRuns.Splices, p: Pkt)
    requires SmartRuns.TableOk(t, m) && H.InKey(p) in t && Present(h, bloom, FlowOf(p))
    requires p.flags.ack && !p.flags.syn && !p.flags.ece && SmartRuns.Seen(p)
    ensures FromClient(h, false, bloom, p) == (bloom, H.Pass(p))
    ensures var v := Ingress(h, t, p).1; H.InKey(p) in m && v.Pass? && SmartRuns.Delivered(m[H.InKey(p)], p, v.p)
  {
    hide Ingress, SmartRuns.TableOk, SmartRuns.Delivered, SmartRuns.Seen;
    SmartRuns.AckDelivered(h, t, m, p);
  }

  // ---------------------------------------------------------------------------
  // Packets from the server side

  ghost predicate FromServerPromise(h: Keyed, bloom: set<nat>, p: Pkt, bloom': set<nat>, v: H.Verdict) {
    if p.flags.ece then bloom' == bloom + h.bloomPrefix(p.daddr) && v == H.Drop
    else if p.flags.ack then
      && bloom' == bloom && v.Pass? && v.p == p.(tsval := 2, check := v.p.check)
      && (FitsInIp(p) && Valid(p) ==>
            FitsInIp(v.p) && (v.p.check == FullCheck(v.p) <==> |p.pre| % 2 == 0 || (2 - p.tsval) % 257 == 0))
    else bloom' == bloom && v == H.Pass(p)
  }

  lemma {:induction false} FromServerPromised(h: Keyed, bloom: set<nat>, p: Pkt)
    ensures var (bloom', v) := FromServer(h, bloom, p); FromServerPromise(h, bloom, p, bloom', v)
  {
    hide Encode, Valid, FullCheck, Incremental;
    if FitsInIp(p) && Valid(p) { SmartRuns.RestampChecksum(p); }
  }
}
