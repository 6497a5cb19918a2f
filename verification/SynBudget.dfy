/** SYNs that the gateway lets through to the server: each spends a cached SYN
    cookie, and each cached cookie was paid for by a validated ACK. */
module SynBudget {
  import opened Words
  import opened Packets
  import opened Rewrites
  import opened HtsCookie
  import Ledgers

  /** `validated` counts cookie ACKs from addresses new to the Bloom filter,
      `accepted` the connections that forwarded SYNs opened at the server. */
  datatype State = State(gw: Gateway, srv: Server, forwarded: seq<Pkt>, validated: nat, accepted: nat)

  datatype Event =
    | FromClient(ab: bool, always: bool, w: nat, p: Pkt)
    | Deliver(i: nat, newCookie: u16, newSeed: u32)   // a forwarded SYN reaches the server
    | Lose(i: nat)
    | FromServer(flow: u32, p: Pkt)
    | ServerWorks(srv: Server)                        // anything else at the server

  predicate IsSyn(p: Pkt) { p.flags.syn && !p.flags.ack }

  predicate Validates(h: Hashes, g: Gateway, w: nat, p: Pkt) {
    p.flags.ack && !p.flags.syn && p.tsecr == TS_START && NetAdd(p.ackNo, -1) == SynCookie(h, w, p) && !Known(h, g, p.saddr)
  }

  function Remove(ps: seq<Pkt>, i: nat): seq<Pkt>
    requires i < |ps|
  {
    ps[..i] + ps[i + 1..]
  }

  /** Whether server ingress opens a connection for this packet as a SYN. */
  predicate OpensBySyn(p: Pkt) {
    IsSyn(p) && 32 <= HeaderLen(p) <= |Encode(p)| && p.tsecr != 0
  }

  predicate OpensByAck(p: Pkt) { Ledgers.Seen(p) && p.flags.ack && !p.flags.syn && Ledgers.Opens(p) }

  /** Which SYNs of clients open a connection, through gateway and server: those of
      known addresses with a cached cookie, which the server then records. */
  lemma {:induction false} SynOpensThrough(h: Hashes, ab: bool, always: bool, g: Gateway, w: nat, srv: Server, p: Pkt, newCookie: u16, newSeed: u32)
    requires IsSyn(p) && Known(h, g, p.saddr)
    ensures var v, c := Inbound(h, ab, always, g, w, p).1, Cached(g, CacheSlot(h, g, p.saddr));
      && v.Pass?
      && (OpensBySyn(v.p) <==> Ledgers.Seen(p) && c != 0)
      && var (srv', _) := Ingress(h, srv, v.p, newCookie, newSeed);
         if OpensBySyn(v.p) then InKey(p) in srv'.conntrack && srv'.conntrack[InKey(p)].hash == c && srv'.conntrack[InKey(p)].delta == 0
         else srv' == srv
  {
    hide Swap32, FirstCookie;
    var q := p.(tsecr := Cached(g, CacheSlot(h, g, p.saddr)));
    assert |Encode(q)| == |Encode(p)|;
  }

  /** Which ACKs do: of known addresses, without payload or FIN, that acknowledge the
      worker's SYN cookie; the server records that cookie. */
  lemma {:induction false} AckOpensThrough(h: Hashes, ab: bool, always: bool, g: Gateway, w: nat, srv: Server, p: Pkt, newCookie: u16, newSeed: u32)
    requires p.flags.ack && !p.flags.syn
    ensures var v := Inbound(h, ab, always, g, w, p).1;
      && (v.Pass? && OpensByAck(v.p) <==>
            && p.tsecr == TS_START && NetAdd(p.ackNo, -1) == SynCookie(h, w, p) && Known(h, g, p.saddr)
            && HeaderLen(p) == |Encode(p)| && !p.flags.fin && (ab || Ledgers.Seen(p)))
      && (v.Pass? && OpensByAck(v.p) ==>
            var t := Ingress(h, srv, v.p, newCookie, newSeed).0.conntrack; InKey(p) in t && t[InKey(p)].hash == SynCookie(h, w, p))
  {
    FreshIs(p);
    RstIsNoAck(p);
    hide NetAdd, Swap32, AckToSyn, FreshAck, AckToRst, Encode, DataPasses;
    if p.tsecr != TS_START { assert !Ledgers.Opens(p); }
  }

  /** What counts as validated: exactly what enters the filter, and its SYN cookie the cache. */
  lemma {:induction false} ValidatesIff(h: Hashes, ab: bool, always: bool, g: Gateway, w: nat, p: Pkt)
    requires !Known(h, g, p.saddr)
    ensures var g' := Inbound(h, ab, always, g, w, p).0; var slot := CacheSlot(h, g, p.saddr);
      && (Validates(h, g, w, p) <==> g'.bloom != g.bloom)
      && (Validates(h, g, w, p) ==> Known(h, g', p.saddr) && Cached(g', slot) == h.haraka(w, p.saddr, p.daddr, p.sport))
      && (!Validates(h, g, w, p) ==> g' == g)
  {
    hide NetAdd, Swap32, SynToSynAck, FreshSynAck, FreshAck, AckToRst, Encode, DataPasses;
    var grown := g.bloom + h.bloom(p.saddr);
    assert h.bloom(p.saddr) <= grown;
    assert grown != g.bloom;
  }

  lemma RstIsNoAck(p: Pkt)
    ensures !AckToRst(p).flags.ack && !FreshAck(AckToRst(p)).flags.ack
  {
    hide FullCheck;
  }

  function Step(h: Hashes, s: State, e: Event): State {
    match e
    case FromClient(ab, always, w, p) =>
      var (g, v) := Inbound(h, ab, always, s.gw, w, p);
      s.(gw := g,
         forwarded := if IsSyn(p) && Known(h, s.gw, p.saddr) && v.Pass? then s.forwarded + [v.p] else s.forwarded,
         validated := if Validates(h, s.gw, w, p) then s.validated + 1 else s.validated)
    case Deliver(i, newCookie, newSeed) =>
      if i >= |s.forwarded| then s
      else
        var p := s.forwarded[i];
        s.(srv := Ingress(h, s.srv, p, newCookie, newSeed).0, forwarded := Remove(s.forwarded, i),
           accepted := if OpensBySyn(p) then s.accepted + 1 else s.accepted)
    case Lose(i) => if i < |s.forwarded| then s.(forwarded := Remove(s.forwarded, i)) else s
    case FromServer(flow, p) => s.(gw := Outbound(h, s.gw, flow, p).0)
    case ServerWorks(srv) => s.(srv := srv)
  }

  function Run(h: Hashes, s: State, es: seq<Event>): State
    decreases es
  {
    if es == [] then s else Run(h, Step(h, s, es[0]), es[1..])
  }

  /** Cache slots that hold a cookie. */
  function Loaded(g: Gateway): set<nat> { set slot | slot in g.synCache && g.synCache[slot] != 0 }

  function Spending(ps: seq<Pkt>): nat {
    if ps == [] then 0 else Spending(ps[..|ps| - 1]) + if ps[|ps| - 1].tsecr != 0 then 1 else 0
  }

  ghost predicate InBudget(s: State) {
    s.accepted + Spending(s.forwarded) + |Loaded(s.gw)| <= s.validated
  }

  lemma {:induction false} SpendingSplit(ps: seq<Pkt>, qs: seq<Pkt>)
    ensures Spending(ps + qs) == Spending(ps) + Spending(qs)
    decreases qs
  {
    if qs == [] {
      assert ps + qs == ps;
    } else {
      assert (ps + qs)[..|ps + qs| - 1] == ps + qs[..|qs| - 1];
      SpendingSplit(ps, qs[..|qs| - 1]);
    }
  }

  lemma SpendingRemove(ps: seq<Pkt>, i: nat)
    requires i < |ps|
    ensures Spending(ps) == Spending(Remove(ps, i)) + if ps[i].tsecr != 0 then 1 else 0
  {
    hide Spending;
    var front, back := ps[..i], ps[i + 1..];
    assert ps == (front + [ps[i]]) + back;
    SpendingSplit(front + [ps[i]], back);
    OneMore(front, ps[i]);
    SpendingSplit(front, back);
  }

  /** Forwarding a SYN spends what the cache held in its slot. */
  lemma SpendSlot(g: Gateway, slot: nat)
    ensures var g' := g.(synCache := g.synCache[slot := 0]);
      |Loaded(g')| + (if Cached(g, slot) != 0 then 1 else 0) == |Loaded(g)|
  {
    var g' := g.(synCache := g.synCache[slot := 0]);
    assert Loaded(g') == Loaded(g) - {slot};
  }

  lemma LoadSlot(g: Gateway, slot: nat, cookie: u32, bloom: set<nat>)
    ensures |Loaded(g.(bloom := bloom, synCache := g.synCache[slot := cookie]))| <= |Loaded(g)| + 1
  {
    var g' := g.(bloom := bloom, synCache := g.synCache[slot := cookie]);
    assert Loaded(g') <= Loaded(g) + {slot};
    SubsetSize(Loaded(g'), Loaded(g) + {slot});
  }

  lemma {:induction false} SubsetSize(a: set<nat>, b: set<nat>)
    requires a <= b
    ensures |a| <= |b|
    decreases a
  {
    if x :| x in a {
      SubsetSize(a - {x}, b - {x});
    }
  }

  lemma FromClientInBudget(h: Hashes, s: State, ab: bool, always: bool, w: nat, p: Pkt)
    requires InBudget(s)
    ensures InBudget(Step(h, s, FromClient(ab, always, w, p)))
  {
    hide SynToSynAck, FreshSynAck, FreshAck, AckToRst, NetAdd, Encode, DataPasses, Spending, Loaded;
    var slot := CacheSlot(h, s.gw, p.saddr);
    if IsSyn(p) && Known(h, s.gw, p.saddr) {
      SpendSlot(s.gw, slot);
      var q := p.(tsecr := Cached(s.gw, slot));
      OneMore(s.forwarded, q);
    } else if Validates(h, s.gw, w, p) {
      LoadSlot(s.gw, slot, SynCookie(h, w, p), s.gw.bloom + h.bloom(p.saddr));
    }
  }

  lemma OneMore(ps: seq<Pkt>, q: Pkt)
    ensures Spending(ps + [q]) == Spending(ps) + if q.tsecr != 0 then 1 else 0
  {
    assert (ps + [q])[..|ps|] == ps;
  }

  lemma StepInBudget(h: Hashes, s: State, e: Event)
    requires InBudget(s)
    ensures InBudget(Step(h, s, e))
  {
    hide Ingress, Inbound, Encode, Spending;
    match e
    case FromClient(ab, always, w, p) => FromClientInBudget(h, s, ab, always, w, p);
    case Deliver(i, _, _) => if i < |s.forwarded| { SpendingRemove(s.forwarded, i); }
    case Lose(i) => if i < |s.forwarded| { SpendingRemove(s.forwarded, i); }
    case FromServer(flow, p) => assert Loaded(Outbound(h, s.gw, flow, p).0) == Loaded(s.gw);
    case ServerWorks(_) =>
  }

  /** In every run from an empty cache, forwarded SYNs open at most as many
      connections as there were validated ACKs from new addresses. */
  lemma {:induction false} OpenedWithinBudget(h: Hashes, s: State, es: seq<Event>)
    requires InBudget(s)
    ensures InBudget(Run(h, s, es)) && Run(h, s, es).accepted <= Run(h, s, es).validated
    decreases es
  {
    if es != [] {
      StepInBudget(h, s, es[0]);
      OpenedWithinBudget(h, Step(h, s, es[0]), es[1..]);
    }
  }

  lemma EmptyInBudget(g: Gateway, srv: Server)
    requires forall slot :: slot in g.synCache ==> g.synCache[slot] == 0
    ensures InBudget(State(g, srv, [], 0, 0))
  {
    assert Loaded(g) == {};
  }

  /** A SYN whose TSecr was 0 reaches the server as the client sent it, so the
      check field that neither agent touches is still right. */
  lemma {:induction false} SynArrivesUnchanged(h: Hashes, ab: bool, always: bool, g: Gateway, w: nat, srv: Server, p: Pkt, newCookie: u16, newSeed: u32)
    requires IsSyn(p) && p.tsecr == 0 && Known(h, g, p.saddr) && 32 <= HeaderLen(p) <= |Encode(p)|
    ensures var q := Inbound(h, ab, always, g, w, p).1;
      && q.Pass?
      && var v := Ingress(h, srv, q.p, newCookie, newSeed).1;
         (if Cached(g, CacheSlot(h, g, p.saddr)) != 0 then v == Pass(p) else v == Drop)
  {
    var c := Cached(g, CacheSlot(h, g, p.saddr));
    var q := p.(tsecr := c);
    assert |Encode(q)| == |Encode(p)| && q.(tsecr := 0) == p;
  }
}
