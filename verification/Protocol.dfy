/** Runs of the htscookie server and gateway: arbitrary packets reach the server,
    its packets travel to the gateway over a FIFO link, and the gateway lets them
    out to clients or takes them for seed changes.  A run is any sequence of events. */
module Protocol {
  import opened Words
  import opened Packets
  import opened Rewrites
  import opened HtsCookie
  import opened Ledgers

  /** A hybrid cookie on its way out; `live` unless it was never initialised. */
  datatype Cookie = Cookie(key: Key, raw: u32, live: bool, seedNo: nat, hash: u32)

  /** A packet on the link, and the cookie in it, if any, for the record. */
  datatype Message = Message(p: Pkt, c: Option<Cookie>)

  datatype Sys = Sys(
    srv: Server, gw: Gateway, book: Ledger,
    learnt: seq<nat>,         // number of the seed the gateway uses, by seed key
    link: seq<Message>,       // server to gateway
    passed: seq<Cookie>)      // let out by the gateway

  datatype Event =
    | AtIngress(p: Pkt, newCookie: u16, newSeed: u32)
    | AtEgress(p: Pkt)
    | AtGateway(flow: u32)
    | GraceOver

  // ---------------------------------------------------------------------------
  // Steps

  predicate Sized(s: Sys) {
    |s.book.history| == |s.learnt| == 0x1_0000 && forall k :: 0 <= k < 0x1_0000 ==> |s.book.history[k]| > 0
  }

  function IngressStep(h: Hashes, s: Sys, p: Pkt, newCookie: u16, newSeed: u32): Sys
    requires Sized(s)
  {
    var (srv, v) := Ingress(h, s.srv, p, newCookie, newSeed);
    s.(srv := srv, book := IngressLedger(h, s.srv, s.book, p, newCookie, newSeed),
       link := if v.Notify? then s.link + [Message(v.p, None)] else s.link)
  }

  /** The cookie that an egress packet carries, if its timestamp was replaced. */
  function CookieOf(s: Sys, p: Pkt): Option<Cookie> {
    var key := OutKey(p);
    if Handled(s.srv, p) && key in s.book.flows && ReplacesTimestamp(s.srv.conntrack[key], p) then
      var e := s.srv.conntrack[key];
      Some(Cookie(key, e.hybrid, e.seed != 0, s.book.flows[key].seedNo, e.hash))
    else None
  }

  function EgressStep(s: Sys, p: Pkt): Sys {
    var (srv, v) := Egress(s.srv, p);
    s.(srv := srv, book := EgressLedger(s.srv, s.book, p),
       link := if v.Pass? then s.link + [Message(v.p, CookieOf(s, p))] else s.link)
  }

  function GatewayStep(h: Hashes, s: Sys, flow: u32): Sys
    requires |s.learnt| == 0x1_0000
  {
    if s.link == [] then s
    else
      var m := s.link[0];
      var (g, v) := Outbound(h, s.gw, flow, m.p);
      s.(gw := g, link := s.link[1..],
         learnt := if m.p.flags.ece then s.learnt[m.p.window := s.learnt[m.p.window] + 1] else s.learnt,
         passed := if v.Pass? && m.c.Some? && v.p.tsval == m.c.value.raw then s.passed + [m.c.value] else s.passed)
  }

  function Step(h: Hashes, s: Sys, e: Event): Sys
    requires Sized(s)
  {
    match e
    case AtIngress(p, newCookie, newSeed) => IngressStep(h, s, p, newCookie, newSeed)
    case AtEgress(p) => EgressStep(s, p)
    case AtGateway(flow) => GatewayStep(h, s, flow)
    case GraceOver => s.(gw := s.gw.(grace := 0))
  }

  /** The server's own packets do not use ECE, the mark of a seed change. */
  predicate Allowed(e: Event) { e.AtEgress? ==> !e.p.flags.ece }

  // ---------------------------------------------------------------------------
  // Invariant

  /** The link holds, in order, the seeds of key k that the gateway, now at number
      n, has yet to learn, and no cookie overtakes its seed. */
  ghost predicate LinkOk(h: Hashes, link: seq<Message>, n: nat, seeds: seq<u32>, k: u16)
    decreases link
  {
    if link == [] then n + 1 == |seeds|
    else
      var m := link[0];
      if m.p.flags.ece && m.p.window == k then
        n + 1 < |seeds| && seeds[n + 1] == m.p.seqNo && LinkOk(h, link[1..], n + 1, seeds, k)
      else
        (!m.p.flags.ece && m.c.Some? && KeySeed(m.c.value.key) == k ==> SentOk(h, m.c.value, n, seeds)) && LinkOk(h, link[1..], n, seeds, k)
  }

  ghost predicate SentOk(h: Hashes, c: Cookie, n: nat, seeds: seq<u32>) {
    c.live ==> c.seedNo <= n < |seeds| && CookieOk(h, c.key, c.raw, seeds[c.seedNo], c.hash)
  }

  ghost predicate KeyOk(h: Hashes, s: Sys, k: u16)
    requires |s.book.history| == |s.learnt| == 0x1_0000
  {
    && s.learnt[k] < |s.book.history[k]| && s.gw.seeds[k] == s.book.history[k][s.learnt[k]]
    && LinkOk(h, s.link, s.learnt[k], s.book.history[k], k)
  }

  ghost predicate PassedOk(h: Hashes, passed: seq<Cookie>, learnt: seq<nat>, history: seq<seq<u32>>)
    requires |history| == |learnt| == 0x1_0000
  {
    forall i :: 0 <= i < |passed| ==> SentOk(h, passed[i], learnt[KeySeed(passed[i].key)], history[KeySeed(passed[i].key)])
  }

  ghost predicate Inv(h: Hashes, s: Sys) {
    && |s.learnt| == 0x1_0000 && ServerOk(h, s.srv, s.book) && |s.book.history| == 0x1_0000
    && (forall k: u16 :: KeyOk(h, s, k))
    && PassedOk(h, s.passed, s.learnt, s.book.history)
  }

  // ---------------------------------------------------------------------------
  // The link

  lemma {:induction false} LinkSend(h: Hashes, link: seq<Message>, n: nat, seeds: seq<u32>, k: u16, m: Message)
    requires LinkOk(h, link, n, seeds, k) && n < |seeds| && !m.p.flags.ece
    requires m.c.Some? && KeySeed(m.c.value.key) == k ==> SentOk(h, m.c.value, |seeds| - 1, seeds)
    ensures LinkOk(h, link + [m], n, seeds, k)
    decreases link
  {
    var l := link + [m];
    if link == [] {
      assert l[1..] == [];
    } else {
      assert l[1..] == link[1..] + [m] && l[0] == link[0];
      LinkSend(h, link[1..], if link[0].p.flags.ece && link[0].p.window == k then n + 1 else n, seeds, k, m);
    }
  }

  lemma {:induction false} LinkNotify(h: Hashes, link: seq<Message>, n: nat, seeds: seq<u32>, k: u16, m: Message)
    requires LinkOk(h, link, n, seeds, k) && n < |seeds| && m.p.flags.ece
    ensures LinkOk(h, link + [m], n, if m.p.window == k then seeds + [m.p.seqNo] else seeds, k)
    decreases link
  {
    var l, seeds' := link + [m], if m.p.window == k then seeds + [m.p.seqNo] else seeds;
    if link == [] {
      assert l[1..] == [];
    } else {
      assert l[1..] == link[1..] + [m] && l[0] == link[0];
      LinkNotify(h, link[1..], if link[0].p.flags.ece && link[0].p.window == k then n + 1 else n, seeds, k, m);
    }
  }

  // ---------------------------------------------------------------------------
  // Every step keeps the invariant

  lemma GatewayKeyOk(h: Hashes, s: Sys, flow: u32, k: u16)
    requires |s.learnt| == |s.book.history| == 0x1_0000 && s.link != [] && KeyOk(h, s, k)
    ensures KeyOk(h, GatewayStep(h, s, flow), k)
  {
    hide Swap32, HybridCookie, SentOk;
  }

  lemma GatewayPassedOk(h: Hashes, s: Sys, flow: u32)
    requires Inv(h, s) && s.link != []
    ensures var s' := GatewayStep(h, s, flow); PassedOk(h, s'.passed, s'.learnt, s'.book.history)
  {
    hide Swap32, HybridCookie, ServerOk, CookieOk;
    var s' := GatewayStep(h, s, flow);
    var m := s.link[0];
    forall i | 0 <= i < |s'.passed|
      ensures SentOk(h, s'.passed[i], s'.learnt[KeySeed(s'.passed[i].key)], s'.book.history[KeySeed(s'.passed[i].key)])
    {
      var k := KeySeed(s'.passed[i].key);
      assert KeyOk(h, s, k);
      if i < |s.passed| {
        assert SentOk(h, s.passed[i], s.learnt[k], s.book.history[k]);
      }
    }
  }

  lemma GatewayKeeps(h: Hashes, s: Sys, flow: u32)
    requires Inv(h, s)
    ensures Inv(h, GatewayStep(h, s, flow))
  {
    if s.link != [] {
      GatewayPassedOk(h, s, flow);
      hide KeyOk, ServerOk, PassedOk, Outbound;
      forall k: u16 ensures KeyOk(h, GatewayStep(h, s, flow), k) {
        assert KeyOk(h, s, k);
        GatewayKeyOk(h, s, flow, k);
      }
    }
  }

  /** An egress packet keeps its flags and window on the way. */
  lemma EgressFlags(s: Server, p: Pkt)
    ensures var v := Egress(s, p).1; v.Pass? ==> v.p.flags == p.flags && v.p.window == p.window
  {
    hide Encode, NetAdd, Answer;
  }

  lemma CookieSent(h: Hashes, s: Sys, p: Pkt, k: u16)
    requires Inv(h, s) && CookieOf(s, p).Some? && KeySeed(CookieOf(s, p).value.key) == k
    ensures SentOk(h, CookieOf(s, p).value, |s.book.history[k]| - 1, s.book.history[k])
  {
    hide LinkOk, CookieOk, Encode, Swap32, PassedOk;
    var key := OutKey(p);
    assert FlowOk(h, s.book.history[KeySeed(key)], key, s.srv.conntrack[key], s.book.flows[key]);
  }

  lemma EgressStepKeeps(h: Hashes, s: Sys, p: Pkt)
    requires Inv(h, s) && !p.flags.ece
    ensures Inv(h, EgressStep(s, p))
  {
    EgressKeeps(h, s.srv, s.book, p);
    EgressFlags(s.srv, p);
    var s' := EgressStep(s, p);
    assert s'.book.history == s.book.history;
    hide ServerOk, LinkOk, SentOk, Encode, Egress, EgressLedger, PassedOk, CookieOf;
    forall k: u16 ensures KeyOk(h, s', k) {
      assert KeyOk(h, s, k);
      if Egress(s.srv, p).1.Pass? {
        var m := Message(Egress(s.srv, p).1.p, CookieOf(s, p));
        if m.c.Some? && KeySeed(m.c.value.key) == k { CookieSent(h, s, p, k); }
        LinkSend(h, s.link, s.learnt[k], s.book.history[k], k, m);
      }
    }
  }

  /** What a rotation sends is what the gateway reads. */
  lemma {:induction false} ChangeRoundTrip(h: Hashes, s: Server, p: Pkt, newCookie: u16, newSeed: u32)
    requires Ingress(h, s, p, newCookie, newSeed).1.Notify?
    ensures var q := Ingress(h, s, p, newCookie, newSeed).1.p;
      q.flags.ece && ReadChange(q) == SeedChange(MapCookie(h, s.seeds, p.saddr), newCookie, SeedKey(p.saddr), newSeed, s.rtt)
  {
    hide Encode, Handover, AckToSyn, Refresh, SynEntry, AckEntry, SynAckBack, MapCookie;
  }

  lemma IngressStepKeeps(h: Hashes, s: Sys, p: Pkt, newCookie: u16, newSeed: u32)
    requires Inv(h, s)
    ensures Sized(s) && Inv(h, IngressStep(h, s, p, newCookie, newSeed))
  {
    InvSized(h, s);
    IngressKeeps(h, s.srv, s.book, p, newCookie, newSeed);
    var s' := IngressStep(h, s, p, newCookie, newSeed);
    var v := Ingress(h, s.srv, p, newCookie, newSeed).1;
    var j := SeedKey(p.saddr);
    assert s'.book.history == if v.Notify? then s.book.history[j := s.book.history[j] + [newSeed]] else s.book.history;
    if v.Notify? { ChangeRoundTrip(h, s.srv, p, newCookie, newSeed); }
    hide ServerOk, LinkOk, SentOk, Ingress, IngressLedger, SeedKey;
    forall k: u16 ensures KeyOk(h, s', k) {
      assert KeyOk(h, s, k);
      if v.Notify? { LinkNotify(h, s.link, s.learnt[k], s.book.history[k], k, Message(v.p, None)); }
    }
    IngressPassedOk(h, s.passed, s.learnt, s.book.history, s'.book.history);
  }

  lemma IngressPassedOk(h: Hashes, passed: seq<Cookie>, learnt: seq<nat>, history: seq<seq<u32>>, history': seq<seq<u32>>)
    requires |history| == |history'| == |learnt| == 0x1_0000 && PassedOk(h, passed, learnt, history)
    requires forall k :: 0 <= k < 0x1_0000 ==> history[k] <= history'[k]
    ensures PassedOk(h, passed, learnt, history')
  {
    hide CookieOk;
    forall i | 0 <= i < |passed| ensures SentOk(h, passed[i], learnt[KeySeed(passed[i].key)], history'[KeySeed(passed[i].key)]) {
      var k := KeySeed(passed[i].key);
      assert SentOk(h, passed[i], learnt[k], history[k]);
      assert history[k] <= history'[k];
    }
  }

  lemma InvSized(h: Hashes, s: Sys)
    requires Inv(h, s)
    ensures Sized(s)
  {
  }

  lemma {:induction false} StepKeeps(h: Hashes, s: Sys, e: Event)
    requires Inv(h, s) && Allowed(e)
    ensures Sized(s) && Inv(h, Step(h, s, e))
  {
    InvSized(h, s);
    hide LinkOk, ServerOk, PassedOk, IngressStep, EgressStep, GatewayStep;
    match e
    case AtIngress(p, newCookie, newSeed) => IngressStepKeeps(h, s, p, newCookie, newSeed);
    case AtEgress(p) => EgressStepKeeps(h, s, p);
    case AtGateway(flow) => GatewayKeeps(h, s, flow);
    case GraceOver =>
      var s' := s.(gw := s.gw.(grace := 0));
      forall k: u16 ensures KeyOk(h, s', k) { assert KeyOk(h, s, k); }
  }

  // ---------------------------------------------------------------------------
  // Runs

  /** Both sides start from the same seeds, with nothing in flight. */
  function Init(): Sys {
    Sys(Server(map[], InitialSeeds(), 0, 0, 0), Gateway(InitialSeeds(), 0, {}, map[]), InitialLedger(),
        seq(0x1_0000, _ => 0), [], [])
  }

  lemma InitOk(h: Hashes)
    ensures Inv(h, Init())
  {
    InitialOk(h);
    hide ServerOk;
    forall k: u16 ensures KeyOk(h, Init(), k) {}
  }

  /** The state after a run. */
  function After(h: Hashes, run: seq<Event>): Sys
    decreases run
  {
    if run == [] then Init()
    else
      var s := After(h, run[..|run| - 1]);
      if Sized(s) then Step(h, s, run[|run| - 1]) else s
  }

  /** Every event of the run is allowed. */
  predicate Legal(run: seq<Event>) { forall i :: 0 <= i < |run| ==> Allowed(run[i]) }

  /** s is reached by the events of a run. */
  predicate Reached(h: Hashes, s: Sys, run: seq<Event>) { Legal(run) && s == After(h, run) }

  lemma {:induction false} RunsKeepInv(h: Hashes, s: Sys, run: seq<Event>)
    requires Reached(h, s, run)
    ensures Inv(h, s)
    decreases run
  {
    hide Step, Inv, Init, Sized;
    if run == [] {
      InitOk(h);
    } else {
      var s0 := After(h, run[..|run| - 1]);
      RunsKeepInv(h, s0, run[..|run| - 1]);
      StepKeeps(h, s0, run[|run| - 1]);
    }
  }

  // ---------------------------------------------------------------------------
  // The mark of a seed change

  /** A packet from the server side leaves the gateway's seeds alone exactly when it
      has no ECE, or what it would be taken for is known already. */
  lemma {:induction false} SeedsKeptIff(h: Hashes, g: Gateway, flow: u32, p: Pkt)
    ensures Outbound(h, g, flow, p).0.seeds == g.seeds <==> !p.flags.ece || g.seeds[p.window] == p.seqNo
    ensures Outbound(h, g, flow, p).1.Pass? <==> !p.flags.ece
  {
    hide Swap32, HybridCookie;
    if p.flags.ece { assert Outbound(h, g, flow, p).0.seeds[p.window] == p.seqNo; }
  }

  /** So, with nothing else in flight, an egress packet leaves both sides in step
      exactly then; one with ECE never reaches the client. */
  lemma {:induction false} InStepIff(h: Hashes, s: Sys, p: Pkt, flow: u32)
    requires Inv(h, s) && s.link == [] && Egress(s.srv, p).1.Pass?
    ensures s.gw.seeds == s.srv.seeds
    ensures var q, s' := Egress(s.srv, p).1.p, GatewayStep(h, EgressStep(s, p), flow);
      && (s'.gw.seeds == s'.srv.seeds <==> !p.flags.ece || s.srv.seeds[p.window] == q.seqNo)
      && (p.flags.ece ==> s'.passed == s.passed)
  {
    SameSeeds(h, s);
    EgressFlags(s.srv, p);
    EgressSeeds(s.srv, p);
    var q := Egress(s.srv, p).1.p;
    var m := Message(q, CookieOf(s, p));
    assert ([] + [m])[0] == m;
    hide Egress, Outbound, CookieOf, EgressLedger, Inv;
    SeedsKeptIff(h, s.gw, flow, q);
    EceDropped(h, s.gw, flow, q);
  }

  lemma EceDropped(h: Hashes, g: Gateway, flow: u32, p: Pkt)
    ensures p.flags.ece ==> Outbound(h, g, flow, p).1 == Drop
  {
    hide Swap32, HybridCookie;
  }

  lemma SameSeeds(h: Hashes, s: Sys)
    requires Inv(h, s) && s.link == []
    ensures s.gw.seeds == s.srv.seeds
  {
    forall k | 0 <= k < 0x1_0000 ensures s.gw.seeds[k] == s.srv.seeds[k] {
      var j: u16 := k;
      assert KeyOk(h, s, j);
    }
  }

  lemma EgressSeeds(s: Server, p: Pkt)
    ensures Egress(s, p).0.seeds == s.seeds
  {
    hide Encode, NetAdd, Answer;
  }

  /** A server that answers a SYN with an ECE SYN-ACK puts the two sides out of step:
      its sequence number becomes the gateway's seed for the key in its window. */
  lemma {:induction false} EceSynAckMisread(h: Hashes, syn: Pkt, synAck: Pkt, newCookie: u16, newSeed: u32, flow: u32)
    requires Seen(syn) && syn.flags.syn && !syn.flags.ack && syn.tsecr != 0
    requires Seen(synAck) && OutKey(synAck) == InKey(syn) && synAck.flags.syn && synAck.flags.ack && synAck.flags.ece
    requires synAck.seqNo != synAck.window
    ensures var s1 := Step(h, Init(), AtIngress(syn, newCookie, newSeed));
      var s2 := EgressStep(s1, synAck);
      var s3 := GatewayStep(h, s2, flow);
      && s3.gw.seeds[synAck.window] == synAck.seqNo && s3.srv.seeds[synAck.window] == synAck.window
      && s3.passed == [] && !Inv(h, s3)
  {
    hide Encode, Swap32, FirstCookie, SeedKey;
    var s1 := Step(h, Init(), AtIngress(syn, newCookie, newSeed));
    assert s1.link == [] && OutKey(synAck) in s1.srv.conntrack;
    var s2 := EgressStep(s1, synAck);
    assert s2.link == [Message(Egress(s1.srv, synAck).1.p, CookieOf(s1, synAck))];
    var s3 := GatewayStep(h, s2, flow);
    assert s3.link == [];
    hide Egress, Ingress;
    if Inv(h, s3) { SameSeeds(h, s3); }
  }

  // ---------------------------------------------------------------------------
  // Results

  /** Seed rotation: in every run, a cookie that was let out belongs to a seed no
      newer than the gateway's.  A client's ACK that echoes it gets through, while the
      gateway still uses that seed, or in the grace window whatever the seed if the
      connection has the SYN cookie of this worker -- exactly when it is not mistaken
      for the ACK of a SYN-ACK, or acknowledges the SYN cookie anyway. */
  lemma {:induction false} EchoPasses(h: Hashes, s: Sys, run: seq<Event>, i: nat, ab: bool, always: bool, w: nat, p: Pkt)
    requires Reached(h, s, run) && i < |s.passed| && s.passed[i].live
    requires var c := s.passed[i]; InKey(p) == c.key && p.tsecr == c.raw && p.flags.ack && !p.flags.syn
    ensures Sized(s)
    ensures var c := s.passed[i]; var n := s.learnt[KeySeed(c.key)];
      && c.seedNo <= n
      && (c.seedNo == n || ((s.gw.grace != 0 || always) && c.hash == SynCookie(h, w, p)) ==>
            (Inbound(h, ab, always, s.gw, w, p).1.Pass? <==> p.tsecr != TS_START || NetAdd(p.ackNo, -1) == SynCookie(h, w, p)))
  {
    hide Reached, After, Legal, LinkOk, ServerOk, Swap32, Fold32, HashPart, MapPart, NetAdd, FreshAck, AckToRst, Encode;
    RunsKeepInv(h, s, run);
    InvSized(h, s);
    var c := s.passed[i];
    var k := KeySeed(c.key);
    assert KeyOk(h, s, k);
    assert SentOk(h, c, s.learnt[k], s.book.history[k]);
  }

  /** Such a cookie exists: TS_START itself, by counter 0, hash part 0x101 and map
      cookie 0 -- for instance after the fourth computation. */
  lemma {:induction false} StartIsCookie(raw: u32)
    ensures raw == TS_START <==> Counter(Swap32(raw)) == 0 && HashPart(Swap32(raw)) == 0x101 && MapPart(Swap32(raw)) == 0
  {
    StartSwapped();
    hide Swap32;
    Swap32Twice(raw);
    Swap32Twice(TS_START);
    StartParts(Swap32(raw));
  }

  lemma StartSwapped()
    ensures Swap32(TS_START) == 0x0101_0000
  {
  }

  lemma StartParts(c: u32)
    ensures c == 0x0101_0000 <==> Counter(c) == 0 && HashPart(c) == 0x101 && MapPart(c) == 0
  {
    Parts(c);
  }

  lemma Parts(c: u32)
    ensures c == Counter(c) * 0x4000_0000 + HashPart(c) * TWO16 + MapPart(c)
  {
    var hi := c / TWO16;
    assert c == hi * TWO16 + c % TWO16 && hi / 0x4000 == c / 0x4000_0000;
  }

  lemma {:induction false} FourthCookieRefused(h: Hashes, ab: bool, always: bool, g: Gateway, w: nat, c: u32, p: Pkt)
    requires Counter(c) == 3 && HashPart(c) == 0x101 && MapCookie(h, g.seeds, p.saddr) == 0
    requires p.tsecr == Swap32(NextCookie(h, g.seeds, c, p.saddr)) && p.flags.ack && !p.flags.syn
    requires NetAdd(p.ackNo, -1) != SynCookie(h, w, p)
    ensures DataPasses(h, always, g, w, p) && Inbound(h, ab, always, g, w, p).1 == Drop
  {
    NextLayout(h, g.seeds, c, p.saddr);
    Swap32Twice(NextCookie(h, g.seeds, c, p.saddr));
    StartIsCookie(p.tsecr);
    hide Swap32, NextCookie, MapCookie, NetAdd, Counter, HashPart;
  }

  /** The layout of the hybrid cookie, for every connection in every run. */
  lemma {:induction false} CookieLayout(h: Hashes, s: Sys, run: seq<Event>, key: Key)
    requires Reached(h, s, run) && key in s.srv.conntrack && s.srv.conntrack[key].seed != 0
    ensures key in s.book.flows
    ensures var e, f, c := s.srv.conntrack[key], s.book.flows[key], Swap32(s.srv.conntrack[key].hybrid);
      && MapPart(c) == Fold32(h.sip(key.srcIp, e.seed))
      && HashPart(c) == Fold32(e.hash) % 0x4000
      && Counter(c) == f.refreshes % 4
  {
    hide Reached, After, Legal, LinkOk, Swap32, Fold32, HashPart, MapPart, Counter;
    RunsKeepInv(h, s, run);
    assert FlowOk(h, s.book.history[KeySeed(key)], key, s.srv.conntrack[key], s.book.flows[key]);
  }
}
