/** What is remembered about the connections of the htscookie server beside their
    conntrack entries, and what the entries therefore mean, packet after packet. */
module Ledgers {
  import opened Words
  import opened Packets
  import opened Rewrites
  import opened HtsCookie

  /** The acknowledgement that opened a connection (0 for a SYN), the sequence numbers
      of the SYN-ACKs answered for it, the number of the seed behind its hybrid cookie,
      how often that cookie was computed since it was last initialised, and the last
      timestamp value the server sent. */
  datatype Flow = Flow(opening: u32, isns: seq<u32>, seedNo: nat, refreshes: nat, lastTs: u32)

  /** All connections, and all seeds the server used, by seed key. */
  datatype Ledger = Ledger(flows: map<Key, Flow>, history: seq<seq<u32>>)

  function KeySeed(key: Key): u16 { SeedKey(key.srcIp) }

  ghost predicate Kept(history: seq<seq<u32>>) {
    |history| == 0x1_0000 && forall k :: 0 <= k < 0x1_0000 ==> |history[k]| > 0
  }

  function Latest(history: seq<seq<u32>>, k: u16): int
    requires |history| == 0x1_0000
  {
    |history[k]| - 1
  }

  // ---------------------------------------------------------------------------
  // Keeping the ledger

  predicate Opens(p: Pkt) { p.tsecr == TS_START && HeaderLen(p) == |Encode(p)| && !p.flags.fin }

  predicate Seen(p: Pkt) { 32 <= HeaderLen(p) <= |Encode(p)| }

  /** An ACK that opens no connection, on a known one. */
  predicate IsData(s: Server, p: Pkt) {
    Seen(p) && p.flags.ack && !p.flags.syn && !Opens(p) && InKey(p) in s.conntrack
  }

  function Refreshed(f: Flow, e: Entry, latest: nat): Flow {
    f.(seedNo := latest, refreshes := if e.seed == 0 then 1 else f.refreshes + 1)
  }

  function IngressFlows(s: Server, b: Ledger, p: Pkt): map<Key, Flow>
    requires |b.history| == 0x1_0000 && |b.history[SeedKey(p.saddr)]| > 0
  {
    var key, k := InKey(p), SeedKey(p.saddr);
    if Seen(p) && p.flags.syn && !p.flags.ack && p.tsecr != 0 then
      b.flows[key := Flow(0, [], Latest(b.history, k), 1, 0)]
    else if Seen(p) && p.flags.ack && !p.flags.syn && Opens(p) then
      b.flows[key := Flow(Swap32(p.ackNo), [], 0, 0, 0)]
    else if IsData(s, p) && key in b.flows && s.conntrack[key].seed != s.seeds[k] then
      b.flows[key := Refreshed(b.flows[key], s.conntrack[key], Latest(b.history, k))]
    else b.flows
  }

  function IngressLedger(h: Hashes, s: Server, b: Ledger, p: Pkt, newCookie: u16, newSeed: u32): Ledger
    requires |b.history| == 0x1_0000 && |b.history[SeedKey(p.saddr)]| > 0
  {
    var k := SeedKey(p.saddr);
    Ledger(IngressFlows(s, b, p),
           if Ingress(h, s, p, newCookie, newSeed).1.Notify? then b.history[k := b.history[k] + [newSeed]] else b.history)
  }

  /** Egress acts on packets of known connections with a long enough header. */
  predicate Handled(s: Server, p: Pkt) { Seen(p) && OutKey(p) in s.conntrack }

  function EgressFlow(e: Entry, f: Flow, p: Pkt): Flow {
    if p.flags.ack && p.flags.syn then
      if e.delta == 0 then f.(lastTs := p.tsval) else f.(isns := f.isns + [Swap32(p.seqNo)], lastTs := p.tsval)
    else if p.flags.rst then f
    else f.(lastTs := p.tsval)
  }

  function EgressLedger(s: Server, b: Ledger, p: Pkt): Ledger {
    var key := OutKey(p);
    if Handled(s, p) && key in b.flows then b.(flows := b.flows[key := EgressFlow(s.conntrack[key], b.flows[key], p)]) else b
  }

  // ---------------------------------------------------------------------------
  // What the entries mean

  /** What ingress must subtract and egress add, mod 2^32. */
  function Shift(opening: u32, isns: seq<u32>): u32
    decreases |isns|
  {
    if isns == [] then opening
    else Sub32(Sub32(Shift(opening, isns[..|isns| - 1]), isns[|isns| - 1]), 1)
  }

  lemma ShiftNone(opening: u32)
    ensures Shift(opening, []) == opening
  {
  }

  lemma ShiftNext(opening: u32, isns: seq<u32>, isn: u32)
    ensures Shift(opening, isns + [isn]) == Sub32(Sub32(Shift(opening, isns), isn), 1)
  {
    hide Sub32;
    assert (isns + [isn])[..|isns + [isn]| - 1] == isns;
  }

  ghost predicate CookieOk(h: Hashes, key: Key, raw: u32, seed: u32, hash: u32) {
    && MapPart(Swap32(raw)) == Fold32(h.sip(key.srcIp, seed))
    && HashPart(Swap32(raw)) == Fold32(hash) % 0x4000
  }

  /** An initialised cookie belongs to the seed of its number. */
  ghost predicate SeedOk(h: Hashes, seeds: seq<u32>, key: Key, e: Entry, seedNo: nat) {
    seedNo < |seeds| && (e.seed != 0 ==> e.seed == seeds[seedNo] && CookieOk(h, key, e.hybrid, e.seed, e.hash))
  }

  /** Its top two bits count how often it was computed. */
  ghost predicate CountOk(e: Entry, refreshes: nat) {
    e.seed != 0 ==> Counter(Swap32(e.hybrid)) == refreshes % 4
  }

  ghost predicate SpliceOk(e: Entry, f: Flow) {
    && e.delta == Shift(f.opening, f.isns) && e.tsValS == f.lastTs
    && (f.opening == 0 ==> f.isns == [])
    && (f.opening != 0 ==> f.opening == Add32(Swap32(e.hash), 1))
  }

  ghost predicate FlowOk(h: Hashes, seeds: seq<u32>, key: Key, e: Entry, f: Flow) {
    SeedOk(h, seeds, key, e, f.seedNo) && CountOk(e, f.refreshes) && SpliceOk(e, f)
  }

  ghost predicate ServerOk(h: Hashes, s: Server, b: Ledger) {
    && Kept(b.history) && b.flows.Keys == s.conntrack.Keys
    && (forall k :: 0 <= k < 0x1_0000 ==> s.seeds[k] == b.history[k][|b.history[k]| - 1])
    && (forall key :: key in b.flows ==> FlowOk(h, b.history[KeySeed(key)], key, s.conntrack[key], b.flows[key]))
  }

  lemma InitialOk(h: Hashes)
    ensures ServerOk(h, Server(map[], InitialSeeds(), 0, 0, 0), InitialLedger())
  {
  }

  function InitialLedger(): Ledger { Ledger(map[], seq(0x1_0000, k requires 0 <= k < 0x1_0000 => [k])) }

  // ---------------------------------------------------------------------------
  // Cookie arithmetic

  /** A first cookie: counter 1, 14 bits of the folded SYN cookie, map cookie. */
  lemma {:induction false} FirstLayout(h: Hashes, seeds: Seeds, syncookie: u32, ip: u32)
    ensures var c := FirstCookie(h, seeds, syncookie, ip);
      Counter(c) == 1 && HashPart(c) == Fold32(syncookie) % 0x4000 && MapPart(c) == MapCookie(h, seeds, ip)
  {
    hide Fold32, MapCookie;
    var f, m := Fold32(syncookie), MapCookie(h, seeds, ip);
    var q, r := f / 0x4000, f % 0x4000;
    assert f * TWO16 + m == 0x4000_0000 * q + (r * TWO16 + m);
    assert (f * TWO16 + m) % 0x4000_0000 == r * TWO16 + m;
    var c := 0x4000_0000 + r * TWO16 + m;
    assert c / TWO16 == 0x4000 + r;
  }

  /** A refresh: next counter, same 14 bits, new map cookie. */
  lemma {:induction false} NextLayout(h: Hashes, seeds: Seeds, c: u32, ip: u32)
    ensures var c' := NextCookie(h, seeds, c, ip);
      Counter(c') == (Counter(c) + 1) % 4 && HashPart(c') == HashPart(c) && MapPart(c') == MapCookie(h, seeds, ip)
  {
    hide MapCookie;
    var m := MapCookie(h, seeds, ip);
    var hi := c / TWO16;
    var t, r := hi / 0x4000, hi % 0x4000;
    assert c / 0x4000_0000 == t && 0 <= t <= 3;
    var t' := if t == 3 then 0 else t + 1;
    var c' := t' * 0x4000_0000 + r * TWO16 + m;
    assert NextCookie(h, seeds, c, ip) == c';
    assert c' / TWO16 == t' * 0x4000 + r;
  }

  lemma RefreshedCookie(h: Hashes, gseeds: Seeds, ip: u32, e: Entry)
    requires e.seed != gseeds[SeedKey(ip)]
    ensures var c, c' := Swap32(e.hybrid), Swap32(Refresh(h, gseeds, ip, e).hybrid);
      && MapPart(c') == MapCookie(h, gseeds, ip)
      && HashPart(c') == (if e.seed == 0 then Fold32(e.hash) % 0x4000 else HashPart(c))
      && Counter(c') == (if e.seed == 0 then 1 else (Counter(c) + 1) % 4)
  {
    hide Swap32, Fold32, Counter, HashPart, MapPart, MapCookie, FirstCookie, NextCookie;
    if e.seed == 0 {
      FirstLayout(h, gseeds, e.hash, ip);
      Swap32Twice(FirstCookie(h, gseeds, e.hash, ip));
    } else {
      NextLayout(h, gseeds, Swap32(e.hybrid), ip);
      Swap32Twice(NextCookie(h, gseeds, Swap32(e.hybrid), ip));
    }
  }

  lemma RefreshedRest(h: Hashes, gseeds: Seeds, ip: u32, e: Entry)
    ensures var e' := Refresh(h, gseeds, ip, e);
      && e'.seed == gseeds[SeedKey(ip)]
      && e'.delta == e.delta && e'.tsValS == e.tsValS && e'.hash == e.hash
  {
    hide Swap32, FirstCookie, NextCookie;
  }

  lemma RefreshSeedOk(h: Hashes, gseeds: Seeds, seeds: seq<u32>, key: Key, e: Entry, seedNo: nat)
    requires SeedOk(h, seeds, key, e, seedNo) && gseeds[KeySeed(key)] == seeds[|seeds| - 1] && e.seed != gseeds[KeySeed(key)]
    ensures SeedOk(h, seeds, key, Refresh(h, gseeds, key.srcIp, e), |seeds| - 1)
  {
    RefreshedCookie(h, gseeds, key.srcIp, e);
    hide Swap32, Fold32, HashPart, MapPart, FirstCookie, NextCookie;
  }

  lemma RefreshCountOk(h: Hashes, gseeds: Seeds, ip: u32, e: Entry, refreshes: nat)
    requires CountOk(e, refreshes) && e.seed != gseeds[SeedKey(ip)]
    ensures CountOk(Refresh(h, gseeds, ip, e), if e.seed == 0 then 1 else refreshes + 1)
  {
    hide Swap32, Fold32, Counter, MapCookie, Refresh, Add32, HashPart, MapPart, SeedKey;
    RefreshedCookie(h, gseeds, ip, e);
    NextMod4(refreshes);
  }

  lemma NextMod4(n: nat)
    ensures (n % 4 + 1) % 4 == (n + 1) % 4
  {
  }

  // ---------------------------------------------------------------------------
  // Every packet keeps the ledger right

  /** Bringing a cookie up to date keeps the record straight. */
  lemma {:induction false} RefreshKeepsFlow(h: Hashes, gseeds: Seeds, seeds: seq<u32>, key: Key, e: Entry, f: Flow)
    requires FlowOk(h, seeds, key, e, f) && gseeds[KeySeed(key)] == seeds[|seeds| - 1] && e.seed != gseeds[KeySeed(key)]
    ensures FlowOk(h, seeds, key, Refresh(h, gseeds, key.srcIp, e), Refreshed(f, e, |seeds| - 1))
  {
    hide SeedOk, CountOk, Refresh, Swap32, Shift;
    assert |seeds| > 0 by { SeedsThere(h, seeds, key, e, f); }
    RefreshSeedOk(h, gseeds, seeds, key, e, f.seedNo);
    RefreshCountOk(h, gseeds, key.srcIp, e, f.refreshes);
    RefreshedRest(h, gseeds, key.srcIp, e);
  }

  lemma SeedsThere(h: Hashes, seeds: seq<u32>, key: Key, e: Entry, f: Flow)
    requires FlowOk(h, seeds, key, e, f)
    ensures |seeds| > 0
  {
  }

  lemma SynEntryFlow(h: Hashes, srv: Server, seeds: seq<u32>, p: Pkt)
    requires |seeds| > 0 && srv.seeds[SeedKey(p.saddr)] == seeds[|seeds| - 1]
    ensures FlowOk(h, seeds, InKey(p), SynEntry(h, srv, p), Flow(0, [], |seeds| - 1, 1, 0))
  {
    hide Swap32, Fold32, Counter, HashPart, MapPart, FirstCookie;
    FirstLayout(h, srv.seeds, p.tsecr, p.saddr);
    Swap32Twice(FirstCookie(h, srv.seeds, p.tsecr, p.saddr));
  }

  lemma AckEntryFlow(h: Hashes, seeds: seq<u32>, p: Pkt)
    requires |seeds| > 0
    ensures FlowOk(h, seeds, InKey(p), AckEntry(p), Flow(Swap32(p.ackNo), [], 0, 0, 0))
  {
    hide Swap32;
    Swap32Twice(Add32(Swap32(p.ackNo), -1));
  }

  /** A longer history changes nothing for existing connections. */
  lemma LongerHistory(h: Hashes, seeds: seq<u32>, more: u32, key: Key, e: Entry, f: Flow)
    requires FlowOk(h, seeds, key, e, f)
    ensures FlowOk(h, seeds + [more], key, e, f)
  {
    hide CountOk, SpliceOk, CookieOk;
  }

  /** Egress fixes the translation on the SYN-ACK and keeps it from then on. */
  lemma EgressEntryOk(h: Hashes, seeds: seq<u32>, key: Key, e: Entry, f: Flow, p: Pkt)
    requires FlowOk(h, seeds, key, e, f)
    ensures FlowOk(h, seeds, key, EgressEntry(e, p), EgressFlow(e, f, p))
  {
    hide Swap32, CookieOk, Counter, Sub32, Add32, Shift, HeadMoved;
    ShiftNone(f.opening);
    ShiftNext(f.opening, f.isns, Swap32(p.seqNo));
  }

  lemma SetFlow(h: Hashes, s: Server, b: Ledger, key: Key, e: Entry, f: Flow)
    requires ServerOk(h, s, b) && FlowOk(h, b.history[KeySeed(key)], key, e, f)
    ensures ServerOk(h, s.(conntrack := s.conntrack[key := e]), b.(flows := b.flows[key := f]))
  {
    hide FlowOk;
    var s', b' := s.(conntrack := s.conntrack[key := e]), b.(flows := b.flows[key := f]);
    assert b'.flows.Keys == b.flows.Keys + {key} == s'.conntrack.Keys;
  }

  lemma SameTable(h: Hashes, s: Server, s': Server, b: Ledger)
    requires ServerOk(h, s, b) && s'.conntrack == s.conntrack && s'.seeds == s.seeds
    ensures ServerOk(h, s', b)
  {
    hide FlowOk;
  }

  lemma RotateKeeps(h: Hashes, s: Server, b: Ledger, p: Pkt, newCookie: u16, newSeed: u32)
    requires ServerOk(h, s, b)
    ensures var k := SeedKey(p.saddr);
      ServerOk(h, Rotate(h, s, p, newCookie, newSeed).0, b.(history := b.history[k := b.history[k] + [newSeed]]))
  {
    hide FlowOk, MapCookie, SeedKey, ChangePacket;
    var k := SeedKey(p.saddr);
    var b' := b.(history := b.history[k := b.history[k] + [newSeed]]);
    forall key | key in b.flows ensures FlowOk(h, b'.history[KeySeed(key)], key, s.conntrack[key], b.flows[key]) {
      assert FlowOk(h, b.history[KeySeed(key)], key, s.conntrack[key], b.flows[key]);
      if KeySeed(key) == k { LongerHistory(h, b.history[k], newSeed, key, s.conntrack[key], b.flows[key]); }
    }
  }

  lemma DataKeeps(h: Hashes, s: Server, b: Ledger, p: Pkt)
    requires ServerOk(h, s, b) && IsData(s, p)
    ensures ServerOk(h, s.(conntrack := s.conntrack[InKey(p) := Refresh(h, s.seeds, p.saddr, s.conntrack[InKey(p)])]),
                     b.(flows := IngressFlows(s, b, p)))
  {
    hide FlowOk, Encode, Swap32, FirstCookie, NextCookie;
    var key, k := InKey(p), SeedKey(p.saddr);
    var e, f := s.conntrack[key], b.flows[key];
    assert FlowOk(h, b.history[KeySeed(key)], key, e, f);
    if e.seed != s.seeds[k] {
      RefreshKeepsFlow(h, s.seeds, b.history[k], key, e, f);
      SetFlow(h, s, b, key, Refresh(h, s.seeds, p.saddr, e), Refreshed(f, e, Latest(b.history, k)));
    } else {
      SetFlow(h, s, b, key, e, f);
      assert b.flows[key := f] == b.flows;
    }
  }

  lemma {:induction false} IngressKeeps(h: Hashes, s: Server, b: Ledger, p: Pkt, newCookie: u16, newSeed: u32)
    requires ServerOk(h, s, b)
    ensures ServerOk(h, Ingress(h, s, p, newCookie, newSeed).0, IngressLedger(h, s, b, p, newCookie, newSeed))
  {
    hide FlowOk, Encode, Swap32, Handover, AckToSyn, Refresh, SynEntry, AckEntry, SeedKey, SynAckBack, ChangePacket, ServerOk;
    HistoryThere(h, s, b, SeedKey(p.saddr));
    var key, k := InKey(p), SeedKey(p.saddr);
    if !Seen(p) {
    } else if p.flags.syn && !p.flags.ack {
      if p.tsecr != 0 {
        SynEntryFlow(h, s, b.history[k], p);
        SetFlow(h, s, b, key, SynEntry(h, s, p), Flow(0, [], Latest(b.history, k), 1, 0));
      }
    } else if p.flags.ack && !p.flags.syn {
      if Opens(p) {
        AckEntryFlow(h, b.history[k], p);
        SetFlow(h, s, b, key, AckEntry(p), Flow(Swap32(p.ackNo), [], 0, 0, 0));
      } else if key in s.conntrack {
        DataKeeps(h, s, b, p);
      } else if p.tsecr != TS_START {
        RotateKeeps(h, s, b, p, newCookie, newSeed);
        SameTable(h, s, s.(dropcnt := s.dropcnt + 1), b);
      }
    }
  }

  lemma HistoryThere(h: Hashes, s: Server, b: Ledger, k: u16)
    requires ServerOk(h, s, b)
    ensures Kept(b.history) && |b.history[k]| > 0 && s.seeds[k] == b.history[k][|b.history[k]| - 1]
  {
  }

  lemma {:induction false} EgressKeeps(h: Hashes, s: Server, b: Ledger, p: Pkt)
    requires ServerOk(h, s, b)
    ensures ServerOk(h, Egress(s, p).0, EgressLedger(s, b, p))
  {
    hide FlowOk, Encode, Swap32, EgressEntry, EgressFlow, EgressVerdict;
    if Handled(s, p) {
      var key := OutKey(p);
      var e, f := s.conntrack[key], b.flows[key];
      assert FlowOk(h, b.history[KeySeed(key)], key, e, f);
      EgressEntryOk(h, b.history[KeySeed(key)], key, e, f, p);
      SetFlow(h, s, b, key, EgressEntry(e, p), EgressFlow(e, f, p));
      SameTable(h, s.(conntrack := s.conntrack[key := EgressEntry(e, p)]), Egress(s, p).0, EgressLedger(s, b, p));
    }
  }

  // ---------------------------------------------------------------------------
  // What the packets therefore say

  lemma NetAddHost(x: u32, n: int)
    ensures Swap32(NetAdd(x, n)) == Add32(Swap32(x), n)
  {
    hide Swap32;
    Swap32Twice(Add32(Swap32(x), n));
  }

  lemma NetAddNothing(x: u32)
    ensures NetAdd(x, 0) == x
  {
    hide Swap32;
    Swap32Twice(x);
    assert Add32(Swap32(x), 0) == Swap32(x);
  }

  lemma Wrapped(x: int) returns (q: int)
    ensures x % TWO32 == x + TWO32 * q
  {
    q := -(x / TWO32);
  }

  lemma SameWrap(x: int, y: int, q: int)
    requires x == y + TWO32 * q
    ensures x % TWO32 == y % TWO32
  {
    DivModUnique(x, TWO32, y / TWO32 + q, y % TWO32);
  }

  lemma SpliceOut(a: u32, isn: u32, j: nat)
    ensures Add32(Add32(isn, 1 + j), Sub32(Sub32(a, isn), 1)) == Add32(a, j)
  {
    var q1 := Wrapped(a - isn);
    var d1: int := Sub32(a, isn);
    var q2 := Wrapped(d1 - 1);
    var q3 := Wrapped(isn + (1 + j));
    SameWrap(Add32(isn, 1 + j) + Sub32(d1, 1), a + j, q1 + q2 + q3);
  }

  lemma SpliceIn(a: u32, isn: u32, j: nat)
    ensures Add32(Add32(a, j), 0 - Sub32(Sub32(a, isn), 1)) == Add32(isn, 1 + j)
  {
    var q1 := Wrapped(a - isn);
    var d1: int := Sub32(a, isn);
    var q2 := Wrapped(d1 - 1);
    var q3 := Wrapped(a + j);
    SameWrap(Add32(a, j) + (0 - Sub32(d1, 1)), isn + (1 + j), q3 - q1 - q2);
  }

  /** A client's packet as the server's stack gets it: the timestamp echo is the last
      value that the server sent, whoever opened the connection; the acknowledgement
      stays for a connection opened by a SYN; after one answered SYN-ACK, one of byte j
      after the acknowledged cookie becomes one of byte j of the server. */
  ghost predicate Delivered(f: Flow, p: Pkt, q: Pkt) {
    && q == p.(ackNo := q.ackNo, tsecr := f.lastTs, check := q.check)
    && Swap32(q.ackNo) == Add32(Swap32(p.ackNo), 0 - (Shift(f.opening, f.isns) as int))
    && (f.opening == 0 ==> q.ackNo == p.ackNo)
    && (|f.isns| == 1 ==> forall j: nat :: Swap32(p.ackNo) == Add32(f.opening, j) ==> Swap32(q.ackNo) == Add32(f.isns[0], 1 + j))
  }

  /** A server's packet as it leaves: byte j of the server becomes byte j after the
      acknowledged cookie, and the timestamp value is the hybrid cookie. */
  ghost predicate Sent(e: Entry, f: Flow, p: Pkt, q: Pkt) {
    && q == p.(seqNo := q.seqNo, tsval := if p.flags.rst && !(p.flags.syn && p.flags.ack) then p.tsval else e.hybrid)
    && Swap32(q.seqNo) == Add32(Swap32(p.seqNo), Shift(f.opening, f.isns))
    && (f.opening == 0 ==> q.seqNo == p.seqNo)
    && (f.opening != 0 ==> f.opening == Add32(Swap32(e.hash), 1))
    && (|f.isns| == 1 ==> forall j: nat :: Swap32(p.seqNo) == Add32(f.isns[0], 1 + j) ==> Swap32(q.seqNo) == Add32(f.opening, j))
  }

  lemma OneShift(f: Flow)
    requires |f.isns| == 1
    ensures Shift(f.opening, f.isns) == Sub32(Sub32(f.opening, f.isns[0]), 1)
  {
    assert f.isns[..0] == [];
  }

  lemma {:induction false} DataDelivered(h: Hashes, s: Server, b: Ledger, p: Pkt, newCookie: u16, newSeed: u32)
    requires ServerOk(h, s, b) && IsData(s, p)
    ensures var v := Ingress(h, s, p, newCookie, newSeed).1;
      InKey(p) in b.flows && v.Pass? && Delivered(b.flows[InKey(p)], p, v.p)
  {
    hide Encode, Swap32, SeedOk, CountOk, FirstCookie, NextCookie, Add32, Sub32;
    var key := InKey(p);
    var e, f := s.conntrack[key], b.flows[key];
    assert FlowOk(h, b.history[KeySeed(key)], key, e, f);
    RefreshedRest(h, s.seeds, p.saddr, e);
    hide Refresh;
    var q := Ingress(h, s, p, newCookie, newSeed).1.p;
    NetAddHost(p.ackNo, 0 - (e.delta as int));
    NetAddNothing(p.ackNo);
    if |f.isns| == 1 {
      OneShift(f);
      forall j: nat | Swap32(p.ackNo) == Add32(f.opening, j) ensures Swap32(q.ackNo) == Add32(f.isns[0], 1 + j) {
        SpliceIn(f.opening, f.isns[0], j);
      }
    }
  }

  lemma {:induction false} EgressSent(h: Hashes, s: Server, b: Ledger, p: Pkt)
    requires ServerOk(h, s, b) && Handled(s, p)
    requires p.flags.syn && p.flags.ack ==> s.conntrack[OutKey(p)].delta == 0
    ensures var v := Egress(s, p).1;
      OutKey(p) in b.flows && v.Pass? && Sent(s.conntrack[OutKey(p)], b.flows[OutKey(p)], p, v.p)
  {
    hide Encode, Swap32, SeedOk, CountOk, Add32, Sub32;
    var key := OutKey(p);
    var e, f := s.conntrack[key], b.flows[key];
    assert FlowOk(h, b.history[KeySeed(key)], key, e, f);
    var q := Egress(s, p).1.p;
    NetAddHost(p.seqNo, e.delta);
    NetAddNothing(p.seqNo);
    if |f.isns| == 1 {
      OneShift(f);
      forall j: nat | Swap32(p.seqNo) == Add32(f.isns[0], 1 + j) ensures Swap32(q.seqNo) == Add32(f.opening, j) {
        SpliceOut(f.opening, f.isns[0], j);
      }
    }
  }
}
