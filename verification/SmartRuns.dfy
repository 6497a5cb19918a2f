/** What the smartcookie agents promise: cookies that pass both checks, checksums,
    tags and the splice of the two handshakes over whole runs. */
module SmartRuns {
  import opened Words
  import opened Checksum
  import opened Packets
  import opened Rewrites
  import opened Recompute
  import opened SmartCookie
  import HtsCookie
  import Handovers
  import Ledgers

  // ---------------------------------------------------------------------------
  // Cookies

  lemma KeptCarries(h: Keyed, ab: bool, bloom: set<nat>, p: Pkt)
    requires p.flags.syn && !p.flags.ack
    ensures var v := FromClient(h, ab, bloom, p).1;
      v.Pass? && v.p.seqNo == CookieOf(h, p) && HtsCookie.OutKey(v.p) == HtsCookie.InKey(p) && v.p.tsecr == p.tsval
  {
    hide NetAdd, Incremental, KeptUpdate, FullCheck, Swap16;
  }

  /** The cookie round trip: an ACK of the gateway's SYN-ACK passes the gateway,
      known or not, and the server's own check, tagged or not. */
  lemma {:induction false} CookieRoundTrip(h: Keyed, ab: bool, bloom: set<nat>, bloom': set<nat>, t: Table, syn: Pkt, ack: Pkt)
    requires syn.flags.syn && !syn.flags.ack && ack.flags.ack && !ack.flags.syn
    requires var synAck := FromClient(h, ab, bloom, syn).1.p;
      HtsCookie.InKey(ack) == HtsCookie.OutKey(synAck) && ack.ackNo == NetAdd(synAck.seqNo, 1)
    ensures FromClient(h, ab, bloom', ack).1.Pass?
    ensures 20 <= HtsCookie.HeaderLen(ack) <= |Encode(ack)| ==> Ingress(h, t, ack).1.Pass? && Ingress(h, t, Tag(ack)).1.Pass?
  {
    hide NetAdd, Handover, AckHandover, OpenConnection, HtsCookie.FreshAck, Encode, SynAckKept, SynAckFresh;
    KeptCarries(h, ab, bloom, syn);
    Handovers.PredecessorOfNext(CookieOf(h, syn));
    SameLength(ack);
  }

  lemma SameLength(p: Pkt)
    ensures |Encode(Tag(p))| == |Encode(p)|
  {
  }

  /** Whether ingress opens a connection for a packet. */
  predicate Opens(h: Keyed, t: Table, p: Pkt) {
    && Seen(p) && p.flags.ack && !p.flags.syn
    && (p.flags.ece || (HtsCookie.InKey(p) !in t && NetAdd(p.ackNo, -1) == CookieOf(h, p)))
  }

  predicate Seen(p: Pkt) { 20 <= HtsCookie.HeaderLen(p) <= |Encode(p)| }

  predicate RightCookie(h: Keyed, p: Pkt) { NetAdd(p.ackNo, -1) == CookieOf(h, p) }

  /** Which ACKs of clients open a connection, through gateway and server: with the
      right cookie, those of flows new to the filter or to the server; and, cookie or
      not, those of flows in the filter that come with ECE. */
  lemma {:induction false} OpensThrough(h: Keyed, ab: bool, bloom: set<nat>, t: Table, p: Pkt)
    requires p.flags.ack && !p.flags.syn && Seen(p)
    ensures var v := FromClient(h, ab, bloom, p).1;
      v.Pass? && Opens(h, t, v.p) <==>
        || (RightCookie(h, p) && (!Present(h, bloom, FlowOf(p)) || HtsCookie.InKey(p) !in t))
        || (Present(h, bloom, FlowOf(p)) && p.flags.ece)
  {
    hide NetAdd, Encode, HtsCookie.FreshAck;
    SameLength(p);
    HtsCookie.FreshIs(p);
    HtsCookie.FreshIs(Tag(p));
  }

  /** So a client that sets ECE itself opens one without any cookie, or starts one
      afresh that is in use. */
  lemma {:induction false} ClientTagOpens(h: Keyed, bloom: set<nat>, t: Table, p: Pkt)
    requires p.flags.ack && !p.flags.syn && p.flags.ece && Seen(p)
    requires Present(h, bloom, FlowOf(p)) && !RightCookie(h, p)
    ensures var v := FromClient(h, false, bloom, p).1;
      v == HtsCookie.Pass(p) && Ingress(h, t, p).0 == t[HtsCookie.InKey(p) := SplicePoint(Swap32(p.ackNo), 0)]
  {
    hide NetAdd, Encode, OpenConnection, Swap32;
  }

  // ---------------------------------------------------------------------------
  // Checksums

  lemma {:induction false} KeptChecksum(p: Pkt, cookie: u32)
    requires FitsInIp(p) && Valid(p)
    ensures var q := SynAckKept(p, cookie);
      FitsInIp(q) && (q.check == FullCheck(q) <==> |p.pre| % 2 == 0 || (1 - p.tsecr) % 257 == 0)
  {
    hide Encode, Valid, FullCheck, Rest, Incremental, NetAdd, KeptUpdate, Cong, Swap16;
    var q := SynAckKept(p, cookie);
    SameRest(p, q);
    var u := KeptUpdate(p, cookie, q.ackNo, q.flags, q.window);
    var d := Fields(q) - Fields(p) + Stamps(q) - Stamps(p);
    assert u.Sum() == 6 * ONES32 + d;
    DropMultiple(u.Sum(), 6, d);
    IncrementalAccounted(p, q, u);
  }

  lemma {:induction false} RestampChecksum(p: Pkt)
    requires FitsInIp(p) && Valid(p)
    ensures var q := Restamp(p);
      FitsInIp(q) && (q.check == FullCheck(q) <==> |p.pre| % 2 == 0 || (2 - p.tsval) % 257 == 0)
  {
    hide Valid, FullCheck, Incremental;
    Handovers.StampedChecksum(p, 2);
  }

  /** Flags, sequence number, acknowledgement and echo: what the server counts. */
  lemma OpenCounted(p: Pkt)
    ensures var q := OpenConnection(p);
      q.check != ONES16 && Cong(q.check - p.check + (Opened(p) - p.flags.Word() + q.seqNo - p.seqNo - p.ackNo + q.tsecr - p.tsecr), 0)
  {
    hide CsumDiff, Fold64, NetAdd;
    var q := OpenConnection(p);
    var f: int, f': int := FlagsAndWindow(p.flags, p.window), FlagsAndWindow(p.flags.(ack := false, syn := true), p.window);
    assert f' - f == Opened(p) - p.flags.Word();
    var c: int := p.check;
    SeedStep(p.check);
    var c0 := Not32(p.check);
    DiffStep(c0, [f], [f'], c, 0);
    var c1 := CsumDiff([f], [f'], c0);
    DiffStep(c1, [p.seqNo], [q.seqNo], c, f' - f);
    var c2 := CsumDiff([p.seqNo], [q.seqNo], c1);
    DiffStep(c2, [p.ackNo], [], c, f' - f + q.seqNo - p.seqNo);
    var c3 := CsumDiff([p.ackNo], [], c2);
    if HtsCookie.HeaderLen(p) >= 32 {
      DiffStep(c3, [p.tsecr], [], c, f' - f + q.seqNo - p.seqNo - p.ackNo);
      FoldStep(CsumDiff([p.tsecr], [], c3), c, f' - f + q.seqNo - p.seqNo - p.ackNo - p.tsecr);
    } else {
      FoldStep(c3, c, f' - f + q.seqNo - p.seqNo - p.ackNo);
    }
  }

  /** The flags of a packet with SYN in place of ACK. */
  function Opened(p: Pkt): int { p.flags.(ack := false, syn := true).Word() }

  /** A segment r opened at the server, where r is a valid segment p up to the tag: the
      SYN is valid exactly when the tag was not the client's own, and the timestamp echo
      stays, is at an even offset, or is a multiple of 257. */
  lemma OpenChecksum(p: Pkt, r: Pkt)
    requires FitsInIp(p) && Valid(p) && (r == p || r == Tag(p))
    ensures var q := OpenConnection(r); var own := p.flags.ece;
      FitsInIp(q) && (q.check == FullCheck(q) <==> !own && (HtsCookie.HeaderLen(p) < 32 || |p.pre| % 2 == 0 || p.tsecr % 257 == 0))
  {
    hide Encode, Valid, FullCheck, Rest, OpenConnection, Cong, Fields, Stamps;
    var q := OpenConnection(r);
    OpenedFields(r);
    OpenCounted(r);
    SameRest(p, q);
    var d := Opened(r) - r.flags.Word() + q.seqNo - p.seqNo - p.ackNo + q.tsecr - p.tsecr;
    var x := if p.flags.ece then 0x4000 else 0;
    OpenSums(p, r, q);
    var f, e := Fields(q) - Fields(p), Stamps(q) - Stamps(p);
    var t: int := p.tsecr - q.tsecr;
    var w := Weight(p);
    assert w == if |p.pre| % 2 == 0 then 1 else 256;
    hide Weight;
    MovedIsFull(p, q, d);
    hide Opened;
    if |p.pre| % 2 == 0 { TagArithmetic(f, e, d, x); } else { TagArithmeticOdd(f, e, d, x, t); }
  }

  lemma OpenSums(p: Pkt, r: Pkt, q: Pkt)
    requires r == p || r == Tag(p)
    requires q == p.(flags := p.flags.(ack := false, syn := true, ece := false), seqNo := q.seqNo, ackNo := 0, tsecr := q.tsecr, check := q.check)
    ensures Stamps(q) - Stamps(p) == q.tsecr - p.tsecr
    ensures Fields(q) - Fields(p) + Stamps(q) - Stamps(p) ==
      Opened(r) - r.flags.Word() + q.seqNo - p.seqNo - p.ackNo + q.tsecr - p.tsecr - if p.flags.ece then 0x4000 else 0
  {
    TagWords(p);
    PlainWords(p);
    hide Opened;
  }

  lemma PlainWords(p: Pkt)
    ensures Opened(p) - p.flags.Word() ==
      p.flags.(ack := false, syn := true, ece := false).Word() - p.flags.Word() + if p.flags.ece then 0x4000 else 0
  {
  }

  /** The tag cancels out: a valid ACK that the gateway tags reaches the server's
      stack as a valid SYN exactly when the client did not set ECE itself and the
      timestamp offset is even, or its echo a multiple of 257. */
  lemma {:induction false} TagCancels(p: Pkt)
    requires FitsInIp(p) && Valid(p) && HtsCookie.HeaderLen(p) >= 32
    ensures var q := OpenConnection(Tag(p));
      FitsInIp(q) && (q.check == FullCheck(q) <==> !p.flags.ece && (|p.pre| % 2 == 0 || p.tsecr % 257 == 0))
  {
    hide Encode, Valid, FullCheck, OpenConnection;
    OpenChecksum(p, Tag(p));
  }

  lemma TagArithmeticOdd(f: int, e: int, d: int, x: int, t: int)
    requires f + e == d - x && (x == 0 || x == 0x4000) && e == -t
    ensures Cong(256 * f + 256 * (256 * e), 256 * d) <==> x == 0 && t % 257 == 0
  {
    var y := 65280 * e - 256 * x;
    assert 256 * f + 256 * (256 * e) - 256 * d == y;
    assert y % ONES16 == 0 <==> x == 0 && t % 257 == 0 by {
      hide Cong;
      if x == 0 {
        assert y == 65280 * e;
        Multiples257(e);
        Neg257(t);
      } else {
        assert y == 65280 * e - 256 * 0x4000;
        NeverMultiple(e);
      }
    }
  }

  lemma Neg257(t: int)
    ensures (-t) % 257 == 0 <==> t % 257 == 0
  {
    var q, r := t / 257, t % 257;
    assert t == 257 * q + r;
    if r == 0 { DivModUnique(-t, 257, -q, 0); } else { DivModUnique(-t, 257, -q - 1, 257 - r); }
  }

  /** 65280, like 65535, is a multiple of 255; 256 * 0x4000 is not. */
  lemma NeverMultiple(e: int)
    ensures (65280 * e - 256 * 0x4000) % ONES16 != 0
  {
    var y := 65280 * e - 256 * 0x4000;
    var q, r := y / ONES16, y % ONES16;
    assert y == ONES16 * q + r;
    var k := 256 * e - 16449 - 257 * q;
    assert r == 255 * k + 191;
  }

  lemma OpenedFields(p: Pkt)
    ensures var q := OpenConnection(p);
      q == p.(flags := p.flags.(ack := false, syn := true, ece := false), seqNo := q.seqNo, ackNo := 0,
              tsecr := if HtsCookie.HeaderLen(p) >= 32 then 0 else p.tsecr, check := q.check)
  {
    hide NetAdd, CsumDiff, Fold64;
  }

  lemma TagWords(p: Pkt)
    ensures Opened(Tag(p)) == p.flags.(ack := false, syn := true, ece := true).Word()
    ensures p.flags.(ack := false, syn := true, ece := false).Word() == Opened(Tag(p)) - 0x4000
    ensures Tag(p).flags.Word() == p.flags.Word() + if p.flags.ece then 0 else 0x4000
  {
  }

  lemma TagArithmetic(f: int, s: int, d: int, x: int)
    requires f + s == d - x && (x == 0 || x == 0x4000)
    ensures Cong(256 * f + 1 * (256 * s), 256 * d) <==> x == 0
  {
    assert 256 * f + 1 * (256 * s) - 256 * d == -256 * x;
    assert (-256 * 0x4000) % ONES16 == ONES16 - 64;
  }

  /** With `ab` the gateway recomputes the check field after tagging, so the tag is
      counted once and taken off uncounted: the SYN is never valid. */
  lemma {:induction false} TagCountedByRecompute(p: Pkt)
    requires FitsInIp(HtsCookie.FreshAck(Tag(p)))
    ensures var q := OpenConnection(HtsCookie.FreshAck(Tag(p))); FitsInIp(q) && q.check != FullCheck(q)
  {
    hide Encode, Valid, FullCheck, Rest, NetAdd, FlagsAndWindow, OpenConnection, Cong;
    var r := HtsCookie.FreshAck(Tag(p));
    FreshIsValid(Tag(p));
    var q := OpenConnection(r);
    OpenedFields(r);
    OpenCounted(r);
    SameRest(r, q);
    var d := Opened(r) - r.flags.Word() + q.seqNo - r.seqNo - r.ackNo - r.tsecr;
    assert Tag(r) == r;
    TagWords(r);
    assert Fields(q) - Fields(r) + Stamps(q) - Stamps(r) == d - 0x4000;
    MovedIsFull(r, q, d);
    TagArithmetic(Fields(q) - Fields(r), Stamps(q) - Stamps(r), d, 0x4000);
  }

  lemma FreshIsValid(p: Pkt)
    requires FitsInIp(HtsCookie.FreshAck(p))
    ensures Valid(HtsCookie.FreshAck(p))
  {
    hide FullCheck, Valid, Encode, HtsCookie.Tail;
    var r := HtsCookie.FreshAck(p);
    var q := p.(pre := [2, 4, 5, 180, 4, 2], post := [1, 3, 3, 7] + HtsCookie.Tail(p, 40), flags := p.flags.(offset := p.flags.offset % 16 + 0xa0));
    SameRest(r, q);
    FullCheckValid(q);
    assert r == q.(check := FullCheck(q));
  }

  /** The reply to the server's SYN-ACK: numbers, addresses and check field. */
  lemma {:induction false} ReplyCompletesHandshake(t: Table, p: Pkt)
    requires FitsInIp(p) && HtsCookie.OutKey(p) in t && p.flags.syn && p.flags.ack
    requires 20 <= HtsCookie.HeaderLen(p) <= |Encode(p)| && |Encode(p)| >= ReplyLength(p)
    ensures var v := Egress(t, p).1;
      && v.Redirect?
      && HtsCookie.InKey(v.p) == HtsCookie.OutKey(p) && v.p.seqNo == p.ackNo && Swap32(v.p.ackNo) == Add32(Swap32(p.seqNo), 1)
      && FitsInIp(v.p) && |Encode(Reply(p))| == |Encode(p)|
      && (v.p.check == FullCheck(v.p) <==>
            (|Encode(p)| - ReplyLength(p) + BeSum(Encode(Reply(p))[ReplyLength(p)..])) % ONES16 == 0)
  {
    hide PrefixCheck, Swap32, FullCheck, Encode;
    Ledgers.NetAddHost(p.seqNo, 1);
    var q0 := Reply(p);
    SameRest(p, q0);
    ReplySize(p);
    PrefixCheckIff(q0, ReplyLength(p));
    var q := q0.(check := PrefixCheck(q0, ReplyLength(p)));
    SameRest(q0, q);
    Handovers.FullCheckOfCleared(q);
    assert q.(check := 0) == q0;
  }

  lemma ReplySize(p: Pkt)
    ensures |Encode(Reply(p))| == |Encode(p)|
  {
    hide NetAdd;
  }

  // ---------------------------------------------------------------------------
  // Tags

  datatype GatewayEvent = Client(p: Pkt) | FromBehind(p: Pkt)

  function GatewayStep(h: Keyed, ab: bool, bloom: set<nat>, e: GatewayEvent): set<nat> {
    match e
    case Client(p) => FromClient(h, ab, bloom, p).0
    case FromBehind(p) => FromServer(h, bloom, p).0
  }

  /** The flows that the gateway tags in a run, in order. */
  function TaggedIn(h: Keyed, ab: bool, bloom: set<nat>, es: seq<GatewayEvent>): seq<FlowKey>
    decreases es
  {
    if es == [] then []
    else
      (if es[0].Client? && Tags(h, bloom, es[0].p) then [FlowOf(es[0].p)] else [])
      + TaggedIn(h, ab, GatewayStep(h, ab, bloom, es[0]), es[1..])
  }

  predicate AllDifferent(ks: seq<FlowKey>) { forall i, j :: 0 <= i < j < |ks| ==> ks[i] != ks[j] }

  lemma NoneDiffer()
    ensures AllDifferent([])
  {
  }

  lemma Prepend(k: FlowKey, ks: seq<FlowKey>)
    requires AllDifferent(ks) && k !in ks
    ensures AllDifferent([k] + ks)
  {
  }

  lemma {:induction false} PresentStays(h: Keyed, ab: bool, bloom: set<nat>, es: seq<GatewayEvent>, k: FlowKey)
    requires Present(h, bloom, k)
    ensures k !in TaggedIn(h, ab, bloom, es)
    decreases es
  {
    hide NetAdd, SynAckKept, SynAckFresh, OpeningAck, Restamp;
    if es != [] {
      PresentStays(h, ab, GatewayStep(h, ab, bloom, es[0]), es[1..], k);
    }
  }

  /** In every run each flow is tagged at most once. */
  lemma {:induction false} TaggedAtMostOnce(h: Keyed, ab: bool, bloom: set<nat>, es: seq<GatewayEvent>)
    ensures AllDifferent(TaggedIn(h, ab, bloom, es))
    decreases es
  {
    hide NetAdd, SynAckKept, SynAckFresh, OpeningAck, Restamp, AllDifferent;
    NoneDiffer();
    if es != [] {
      var bloom' := GatewayStep(h, ab, bloom, es[0]);
      TaggedAtMostOnce(h, ab, bloom', es[1..]);
      var ks, rest := TaggedIn(h, ab, bloom, es), TaggedIn(h, ab, bloom', es[1..]);
      if es[0].Client? && Tags(h, bloom, es[0].p) {
        PresentStays(h, ab, bloom', es[1..], FlowOf(es[0].p));
        assert ks == [FlowOf(es[0].p)] + rest;
        Prepend(FlowOf(es[0].p), rest);
      } else {
        assert ks == [] + rest == rest;
      }
    }
  }

  // ---------------------------------------------------------------------------
  // Handover

  /** The acknowledgement that opened a connection, the sequence numbers of the
      server's SYN-ACKs, and the last timestamp that egress looked at. */
  datatype Splice = Splice(opening: u32, isns: seq<u32>, lastTs: u32)

  type Splices = map<HtsCookie.Key, Splice>

  function IngressSplices(h: Keyed, t: Table, m: Splices, p: Pkt): Splices {
    if Opens(h, t, p) then m[HtsCookie.InKey(p) := Splice(Swap32(p.ackNo), [], 0)] else m
  }

  function EgressSplices(t: Table, m: Splices, p: Pkt): Splices {
    var key := HtsCookie.OutKey(p);
    if Seen(p) && key in t && key in m then m[key := EgressSplice(m[key], p)] else m
  }

  function EgressSplice(f: Splice, p: Pkt): Splice {
    var isns := if p.flags.ack && p.flags.syn then f.isns + [Swap32(p.seqNo)] else f.isns;
    Splice(f.opening, isns, if HtsCookie.HeaderLen(p) > 32 then p.tsval else f.lastTs)
  }

  ghost predicate EntryOk(e: SplicePoint, f: Splice) { e == SplicePoint(Ledgers.Shift(f.opening, f.isns), f.lastTs) }

  ghost predicate TableOk(t: Table, m: Splices) {
    t.Keys == m.Keys && forall k :: k in t ==> EntryOk(t[k], m[k])
  }

  lemma {:induction false} IngressKeeps(h: Keyed, t: Table, m: Splices, p: Pkt)
    requires TableOk(t, m)
    ensures TableOk(Ingress(h, t, p).0, IngressSplices(h, t, m, p))
  {
    hide Encode, Swap32, NetAdd, Handover, AckHandover, OpenConnection, SynAckBack;
  }

  lemma {:induction false} EgressKeeps(t: Table, m: Splices, p: Pkt)
    requires TableOk(t, m)
    ensures TableOk(Egress(t, p).0, EgressSplices(t, m, p))
  {
    hide Encode, Swap32, NetAdd, Reply, PrefixCheck, EntryOk, Sub32;
    var key := HtsCookie.OutKey(p);
    if Seen(p) && key in t {
      assert EntryOk(t[key], m[key]);
      EgressEntry(t[key], m[key], p);
    }
  }

  lemma EgressEntry(e: SplicePoint, f: Splice, p: Pkt)
    requires EntryOk(e, f)
    ensures var e' := if HtsCookie.HeaderLen(p) > 32 then e.(tsValS := p.tsval) else e;
      EntryOk(if p.flags.ack && p.flags.syn then e'.(delta := Sub32(Sub32(e'.delta, Swap32(p.seqNo)), 1)) else e', EgressSplice(f, p))
  {
    hide Swap32, Sub32;
    var isns := f.isns + [Swap32(p.seqNo)];
    assert isns[..|isns| - 1] == f.isns;
  }

  datatype ServerEvent = AtIngress(p: Pkt) | AtEgress(p: Pkt)

  datatype Run = Run(t: Table, m: Splices)

  function Step(h: Keyed, s: Run, e: ServerEvent): Run {
    match e
    case AtIngress(p) => Run(Ingress(h, s.t, p).0, IngressSplices(h, s.t, s.m, p))
    case AtEgress(p) => Run(Egress(s.t, p).0, EgressSplices(s.t, s.m, p))
  }

  /** The state after a run. */
  function After(h: Keyed, es: seq<ServerEvent>): Run
    decreases es
  {
    if es == [] then Run(map[], map[]) else Step(h, After(h, es[..|es| - 1]), es[|es| - 1])
  }

  lemma {:induction false} RunsKeepTable(h: Keyed, es: seq<ServerEvent>)
    ensures TableOk(After(h, es).t, After(h, es).m)
    decreases es
  {
    hide Ingress, Egress, TableOk, IngressSplices, EgressSplices;
    EmptyOk();
    if es != [] {
      var s := After(h, es[..|es| - 1]);
      RunsKeepTable(h, es[..|es| - 1]);
      match es[|es| - 1]
      case AtIngress(p) => IngressKeeps(h, s.t, s.m, p);
      case AtEgress(p) => EgressKeeps(s.t, s.m, p);
    }
  }

  lemma EmptyOk()
    ensures TableOk(map[], map[])
  {
  }

  /** A client's packet as the server's stack gets it: after one SYN-ACK, an
      acknowledgement of byte j after the cookie becomes one of byte j of the server;
      the echo is the last timestamp that egress looked at. */
  ghost predicate Delivered(f: Splice, p: Pkt, q: Pkt) {
    && q == p.(ackNo := q.ackNo, tsecr := if HtsCookie.HeaderLen(p) >= 32 then f.lastTs else p.tsecr, check := q.check)
    && (FitsInIp(p) && Valid(p) ==>
          FitsInIp(q) && (q.check == FullCheck(q) <==> |p.pre| % 2 == 0 || (q.tsecr - p.tsecr) % 257 == 0))
    && Swap32(q.ackNo) == Add32(Swap32(p.ackNo), 0 - (Ledgers.Shift(f.opening, f.isns) as int))
    && (|f.isns| == 1 ==> forall j: nat :: Swap32(p.ackNo) == Add32(f.opening, j) ==> Swap32(q.ackNo) == Add32(f.isns[0], 1 + j))
  }

  /** A server's packet as it leaves: byte j becomes byte j after the cookie. */
  ghost predicate Sent(f: Splice, p: Pkt, q: Pkt) {
    && q == p.(seqNo := q.seqNo) && Swap32(q.seqNo) == Add32(Swap32(p.seqNo), Ledgers.Shift(f.opening, f.isns))
    && (|f.isns| == 1 ==> forall j: nat :: Swap32(p.seqNo) == Add32(f.isns[0], 1 + j) ==> Swap32(q.seqNo) == Add32(f.opening, j))
  }

  lemma OneShift(f: Splice)
    requires |f.isns| == 1
    ensures Ledgers.Shift(f.opening, f.isns) == Sub32(Sub32(f.opening, f.isns[0]), 1)
  {
    assert f.isns[..0] == [];
  }

  /** Without a timestamp to replace, the check field always stays right. */
  lemma {:induction false} AckHandoverChecksum(p: Pkt, delta: u32)
    requires FitsInIp(p) && Valid(p)
    ensures var q := AckHandover(p, delta); FitsInIp(q) && q.check == FullCheck(q)
  {
    hide Encode, Valid, FullCheck, Rest, Fold64, CsumDiff, NetAdd;
    var q := AckHandover(p, delta);
    SameRest(p, q);
    var c0 := Not32(p.check);
    SeedStep(p.check);
    DiffStep(c0, [p.ackNo], [q.ackNo], p.check, 0);
    var d := q.ackNo - p.ackNo;
    FoldStep(CsumDiff([p.ackNo], [q.ackNo], c0), p.check, d);
    assert d == Fields(q) - Fields(p) + Stamps(q) - Stamps(p) && Stamps(q) == Stamps(p);
    AccountedIsFull(p, q, d);
  }

  lemma {:induction false} AckDelivered(h: Keyed, t: Table, m: Splices, p: Pkt)
    requires TableOk(t, m) && Seen(p) && HtsCookie.InKey(p) in t && p.flags.ack && !p.flags.syn && !p.flags.ece
    ensures var v := Ingress(h, t, p).1; HtsCookie.InKey(p) in m && v.Pass? && Delivered(m[HtsCookie.InKey(p)], p, v.p)
  {
    hide Encode, Swap32, Add32, Sub32, CsumDiff, Fold64, Valid, FullCheck;
    var f, q := m[HtsCookie.InKey(p)], Ingress(h, t, p).1.p;
    var e := t[HtsCookie.InKey(p)];
    if FitsInIp(p) && Valid(p) {
      HandoverChecksum(p, e.delta, e.tsValS);
      AckHandoverChecksum(p, e.delta);
    }
    assert EntryOk(t[HtsCookie.InKey(p)], f);
    Ledgers.NetAddHost(p.ackNo, 0 - (Ledgers.Shift(f.opening, f.isns) as int));
    if |f.isns| == 1 {
      OneShift(f);
      forall j: nat | Swap32(p.ackNo) == Add32(f.opening, j) ensures Swap32(q.ackNo) == Add32(f.isns[0], 1 + j) {
        Ledgers.SpliceIn(f.opening, f.isns[0], j);
      }
    }
  }

  lemma {:induction false} EgressSent(t: Table, m: Splices, p: Pkt)
    requires TableOk(t, m) && Seen(p) && HtsCookie.OutKey(p) in t && !(p.flags.syn && p.flags.ack)
    ensures var v := Egress(t, p).1; HtsCookie.OutKey(p) in m && v.Pass? && Sent(m[HtsCookie.OutKey(p)], p, v.p)
  {
    hide Encode, Swap32, Add32, Sub32;
    var f, q := m[HtsCookie.OutKey(p)], Egress(t, p).1.p;
    assert EntryOk(t[HtsCookie.OutKey(p)], f);
    Ledgers.NetAddHost(p.seqNo, Ledgers.Shift(f.opening, f.isns));
    if |f.isns| == 1 {
      OneShift(f);
      forall j: nat | Swap32(p.seqNo) == Add32(f.isns[0], 1 + j) ensures Swap32(q.seqNo) == Add32(f.opening, j) {
        Ledgers.SpliceOut(f.opening, f.isns[0], j);
      }
    }
  }

  /** In every run, bytes of the server leave as bytes after the cookie ... */
  lemma {:induction false} EgressTranslates(h: Keyed, es: seq<ServerEvent>, s: Run, p: Pkt)
    requires s == After(h, es) && Seen(p) && HtsCookie.OutKey(p) in s.t && !(p.flags.syn && p.flags.ack)
    ensures var v := Egress(s.t, p).1; HtsCookie.OutKey(p) in s.m && v.Pass? && Sent(s.m[HtsCookie.OutKey(p)], p, v.p)
  {
    hide After, TableOk, Egress, Sent, Seen;
    RunsKeepTable(h, es);
    EgressSent(s.t, s.m, p);
  }

  /** ... and their acknowledgements come back as acknowledgements of them. */
  lemma {:induction false} IngressTranslates(h: Keyed, es: seq<ServerEvent>, s: Run, p: Pkt)
    requires s == After(h, es) && Seen(p) && HtsCookie.InKey(p) in s.t && p.flags.ack && !p.flags.syn && !p.flags.ece
    ensures var v := Ingress(h, s.t, p).1; HtsCookie.InKey(p) in s.m && v.Pass? && Delivered(s.m[HtsCookie.InKey(p)], p, v.p)
  {
    hide After, TableOk, Ingress, Delivered, Seen;
    RunsKeepTable(h, es);
    AckDelivered(h, s.t, s.m, p);
  }

  // ---------------------------------------------------------------------------
  // What the server's two programs promise, packet by packet

  /** The SYN that an opening ACK becomes; its check field is right unless the tag was
      the client's own, or the echo at an odd offset. */
  ghost predicate OpensServer(p: Pkt, q: Pkt) {
    && q == p.(flags := p.flags.(ack := false, syn := true, ece := false), seqNo := q.seqNo, ackNo := 0,
               tsecr := if HtsCookie.HeaderLen(p) >= 32 then 0 else p.tsecr, check := q.check)
    && Swap32(q.seqNo) == Add32(Swap32(p.seqNo), -1)
    && (FitsInIp(p) && Valid(p) ==>
          && FitsInIp(q)
          && (q.check == FullCheck(q) <==> !p.flags.ece && (HtsCookie.HeaderLen(p) < 32 || |p.pre| % 2 == 0 || p.tsecr % 257 == 0)))
  }

  lemma OpeningPromised(p: Pkt)
    ensures OpensServer(p, OpenConnection(p))
  {
    hide Encode, Valid, FullCheck, Swap32, CsumDiff, Fold64;
    OpenedFields(p);
    Ledgers.NetAddHost(p.seqNo, -1);
    if FitsInIp(p) && Valid(p) { OpenChecksum(p, p); }
  }

  /** Ingress, in every branch: an ACK with the tag, or one that acknowledges the cookie
      on a new connection, opens; others are delivered if their connection is known and
      dropped if not. */
  ghost predicate IngressPromise(h: Keyed, t: Table, m: Splices, p: Pkt, t': Table, v: HtsCookie.Verdict) {
    var key, len := HtsCookie.InKey(p), HtsCookie.HeaderLen(p);
    var cookie := h.hash(p.saddr, p.daddr, p.sport, p.dport);
    if len < 20 || len > |Encode(p)| then t' == t && v == HtsCookie.Drop
    else if p.flags.ack && !p.flags.syn then
      if p.flags.ece || (key !in t && Swap32(p.ackNo) == Add32(Swap32(cookie), 1)) then
        t' == t[key := SplicePoint(Swap32(p.ackNo), 0)] && v.Pass? && OpensServer(p, v.p)
      else if key in t then t' == t && key in m && v.Pass? && Delivered(m[key], p, v.p)
      else t' == t && v == HtsCookie.Drop
    else if p.flags.ack then
      && t' == t && v.Pass? && v.p == p.(flags := p.flags.(syn := false), check := v.p.check)
      && (FitsInIp(p) && Valid(p) ==> FitsInIp(v.p) && v.p.check == FullCheck(v.p))
    else t' == t && v == HtsCookie.Pass(p)
  }

  lemma {:induction false} IngressPromised(h: Keyed, t: Table, m: Splices, p: Pkt)
    requires TableOk(t, m)
    ensures var (t', v) := Ingress(h, t, p); IngressPromise(h, t, m, p, t', v)
  {
    hide Encode, NetAdd, Swap32, Valid, FullCheck, OpenConnection, OpensServer, Delivered, TableOk, Handover, AckHandover, SynAckBack;
    OpeningPromised(p);
    Handovers.BackPromised(p);
    Handovers.CookieNext(p.ackNo, CookieOf(h, p));
    if Seen(p) && p.flags.ack && !p.flags.syn && !p.flags.ece && HtsCookie.InKey(p) in t { AckDelivered(h, t, m, p); }
  }

  /** The ACK that the server gets for its SYN-ACK, on the client's behalf; without a
      timestamp beyond 32 bytes, window and timestamps stay. */
  ghost predicate Replied(p: Pkt, q: Pkt) {
    var stamped := HtsCookie.HeaderLen(p) > 32;
    && q == p.(saddr := p.daddr, daddr := p.saddr, sport := p.dport, dport := p.sport, seqNo := p.ackNo, ackNo := q.ackNo,
               tsval := if stamped then p.tsecr else p.tsval, tsecr := if stamped then p.tsval else p.tsecr,
               flags := p.flags.(syn := false), window := q.window, check := q.check)
    && Swap32(q.ackNo) == Add32(Swap32(p.seqNo), 1) && (if stamped then Swap16(q.window) == 502 else q.window == p.window)
    && (FitsInIp(p) && |Encode(p)| >= ReplyLength(p) ==>
          && FitsInIp(q) && |Encode(q.(check := 0))| == |Encode(p)|
          && (q.check == FullCheck(q) <==>
                (|Encode(p)| - ReplyLength(p) + BeSum(Encode(q.(check := 0))[ReplyLength(p)..])) % ONES16 == 0))
  }

  /** Egress, in every branch. */
  ghost predicate EgressPromise(t: Table, m: Splices, p: Pkt, t': Table, v: HtsCookie.Verdict) {
    var key, len := HtsCookie.OutKey(p), HtsCookie.HeaderLen(p);
    if len < 20 || len > |Encode(p)| then t' == t && v == HtsCookie.Drop
    else if key !in t then t' == t && v == HtsCookie.Drop
    else
      && key in m
      && var f, answered := m[key], p.flags.syn && p.flags.ack;
      && t' == t[key := SplicePoint(Ledgers.Shift(f.opening, if answered then f.isns + [Swap32(p.seqNo)] else f.isns),
                                    if len > 32 then p.tsval else f.lastTs)]
      && if !answered then v.Pass? && Sent(f, p, v.p)
         else if |Encode(p)| < (if len > 32 then 36 else 24) then v == HtsCookie.Drop
         else v.Redirect? && Replied(p, v.p)
  }

  lemma EntryPromised(t: Table, m: Splices, p: Pkt)
    requires TableOk(t, m) && Seen(p) && HtsCookie.OutKey(p) in t
    ensures var key := HtsCookie.OutKey(p); key in m && var f := m[key];
      Egress(t, p).0 == t[key := SplicePoint(Ledgers.Shift(f.opening, if p.flags.syn && p.flags.ack then f.isns + [Swap32(p.seqNo)] else f.isns),
                                             if HtsCookie.HeaderLen(p) > 32 then p.tsval else f.lastTs)]
  {
    hide Encode, Swap32, NetAdd, Reply, PrefixCheck, Sub32, Ledgers.Shift;
    var key := HtsCookie.OutKey(p);
    assert EntryOk(t[key], m[key]);
    Ledgers.ShiftNext(m[key].opening, m[key].isns, Swap32(p.seqNo));
  }

  lemma {:induction false} EgressPromised(t: Table, m: Splices, p: Pkt)
    requires TableOk(t, m)
    ensures var (t', v) := Egress(t, p); EgressPromise(t, m, p, t', v)
  {
    hide Encode, Swap32, Reply, PrefixCheck, Sent, TableOk, FullCheck, NetAdd, Replied, Ledgers.Shift;
    if Seen(p) && HtsCookie.OutKey(p) in t {
      EntryPromised(t, m, p);
      if p.flags.syn && p.flags.ack {
        if |Encode(p)| >= ReplyLength(p) { ReplyPromised(t, p); }
      } else {
        EgressSent(t, m, p);
      }
    }
  }

  lemma ReplyPromised(t: Table, p: Pkt)
    requires HtsCookie.OutKey(p) in t && p.flags.syn && p.flags.ack && Seen(p) && |Encode(p)| >= ReplyLength(p)
    ensures var v := Egress(t, p).1; v.Redirect? && Replied(p, v.p)
  {
    hide PrefixCheck, Swap32, FullCheck, Encode, BeSum;
    ReplySize(p);
    Ledgers.NetAddHost(p.seqNo, 1);
    assert Swap16(Swap16(0x1f6)) == 502;
    assert Egress(t, p).1.p.(check := 0) == Reply(p);
    if FitsInIp(p) { ReplyCompletesHandshake(t, p); }
  }
}
