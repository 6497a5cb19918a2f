/** The htscookie agents as functions of their state: what the server's ingress and
    egress programs and the gateway's packet processor do to a TCP packet whose
    timestamp option was found. */
module HtsCookie {
  import opened Words
  import opened Checksum
  import opened Packets
  import opened Rewrites
  import opened Recompute

  /** The keyed hashes, as pure functions: hsiphash of an address under a seed, and
      haraka of addresses and source port under the salt of a worker. */
  datatype Hashes = Hashes(sip: (u32, u32) -> u32, haraka: (nat, u32, u32, u16) -> u32, bloom: u32 -> set<nat>)

  // ---------------------------------------------------------------------------
  // Cookies

  /** `(h >> 16) ^ (h & 0xffff)`. */
  function Fold32(h: u32): u16 {
    Pow2Of32();
    XorBound(h / TWO16, h % TWO16, 16);
    Xor(h / TWO16, h % TWO16)
  }

  function SeedKey(ip: u32): u16 { ip % TWO16 }

  /** map_seeds: one seed per low half of an address, first the index itself. */
  type Seeds = s: seq<u32> | |s| == 0x1_0000 witness InitialSeeds()

  function InitialSeeds(): (s: seq<u32>)
    ensures |s| == 0x1_0000 && forall k :: 0 <= k < |s| ==> s[k] == k
  {
    seq(0x1_0000, k requires 0 <= k < 0x1_0000 => k)
  }

  /** get_map_cookie_sip at the gateway, get_map_cookie at the server. */
  function MapCookie(h: Hashes, seeds: Seeds, ip: u32): u16 {
    Fold32(h.sip(ip, seeds[SeedKey(ip)]))
  }

  /** get_hybrid_cookie: `(hash_cookie << 16) | map_cookie`. */
  function HybridCookie(h: Hashes, seeds: Seeds, syncookie: u32, ip: u32): u32 {
    Fold32(syncookie) * TWO16 + MapCookie(h, seeds, ip)
  }

  // The layout of a hybrid cookie: 2 bits, 14 bits, 16 bits.
  function Counter(c: u32): nat { c / 0x4000_0000 }
  function HashPart(c: u32): nat { c / TWO16 % 0x4000 }
  function MapPart(c: u32): u16 { c % TWO16 }

  /** The first hybrid cookie of a connection: the low 30 bits, counter 1. */
  function FirstCookie(h: Hashes, seeds: Seeds, syncookie: u32, ip: u32): u32 {
    Add32(HybridCookie(h, seeds, syncookie, ip) % 0x4000_0000, 0x4000_0000)
  }

  /** The next one, under a new seed: new map cookie, counter plus one. */
  function NextCookie(h: Hashes, seeds: Seeds, c: u32, ip: u32): u32 {
    Add32(c - c % TWO16 + MapCookie(h, seeds, ip), 0x4000_0000)
  }

  // ---------------------------------------------------------------------------
  // Server

  datatype Key = Key(srcIp: u32, dstIp: u32, srcPort: u16, dstPort: u16)

  /** struct map_val_t. */
  datatype Entry = Entry(hybrid: u32, hash: u32, seed: u32, tsValS: u32, delta: u32, head: u32)

  datatype Server = Server(conntrack: map<Key, Entry>, seeds: Seeds, dropcnt: nat, rtt: u32, maxRtt: u32)

  const DROP_THRESH: nat := 5000000

  /** What a seed-change packet says. */
  datatype SeedChange = SeedChange(cookieKey: u16, newCookie: u16, seedKey: u16, newSeed: u32, rtt: u32)

  /** `Notify` sends the packet back to the gateway (XDP_TX). */
  datatype Verdict = Pass(p: Pkt) | Drop | Redirect(p: Pkt) | Notify(p: Pkt)

  function HeaderLen(p: Pkt): nat { 4 * (p.flags.offset / 16) }

  function InKey(p: Pkt): Key { Key(p.saddr, p.daddr, p.sport, p.dport) }

  function OutKey(p: Pkt): Key { Key(p.daddr, p.saddr, p.dport, p.sport) }

  /** A new connection opened by a SYN that carries the SYN cookie in its TSecr. */
  function SynEntry(h: Hashes, s: Server, p: Pkt): Entry {
    Entry(Swap32(FirstCookie(h, s.seeds, p.tsecr, p.saddr)), p.tsecr, s.seeds[SeedKey(p.saddr)], 0, 0, 0)
  }

  /** A new connection opened by an ACK of the cookie; the hybrid cookie comes with
      the first request. */
  function AckEntry(p: Pkt): Entry {
    Entry(0, NetAdd(p.ackNo, -1), 0, 0, Swap32(p.ackNo), 0)
  }

  /** The hybrid cookie is initialised, or brought up to date with the seed. */
  function Refresh(h: Hashes, seeds: Seeds, ip: u32, e: Entry): Entry {
    var seed := seeds[SeedKey(ip)];
    if e.seed == seed then e
    else
      var c := if e.seed == 0 then FirstCookie(h, seeds, e.hash, ip) else NextCookie(h, seeds, Swap32(e.hybrid), ip);
      e.(hybrid := Swap32(c), seed := seed)
  }

  /** The offending packet turned around, with the change in header fields and the
      ECE flag as its mark. */
  function ChangePacket(p: Pkt, m: SeedChange): Pkt {
    var (saddr, daddr) := XorSwap(p.saddr, p.daddr);
    p.(saddr := saddr, daddr := daddr, sport := m.cookieKey, dport := m.newCookie, window := m.seedKey,
       seqNo := m.newSeed, ackNo := m.rtt, flags := p.flags.(ece := true))
  }

  /** Rotation of the seed that the offending packet was hashed with. */
  function Rotate(h: Hashes, s: Server, p: Pkt, newCookie: u16, newSeed: u32): (Server, Verdict) {
    var k := SeedKey(p.saddr);
    (s.(seeds := s.seeds[k := newSeed], dropcnt := 0),
     Notify(ChangePacket(p, SeedChange(MapCookie(h, s.seeds, p.saddr), newCookie, k, newSeed, s.rtt))))
  }

  /** An ACK that opens no connection. */
  function IngressData(h: Hashes, s: Server, p: Pkt, newCookie: u16, newSeed: u32): (Server, Verdict) {
    var key := InKey(p);
    if key !in s.conntrack then
      if p.tsecr == TS_START then (s, Drop)
      else if s.dropcnt + 1 >= DROP_THRESH then Rotate(h, s, p, newCookie, newSeed)
      else (s.(dropcnt := s.dropcnt + 1), Drop)
    else
      var e := Refresh(h, s.seeds, p.saddr, s.conntrack[key]);
      (s.(conntrack := s.conntrack[key := e]), Pass(Handover(p, e.delta, e.tsValS)))
  }

  /** The ingress program. */
  function Ingress(h: Hashes, s: Server, p: Pkt, newCookie: u16, newSeed: u32): (Server, Verdict) {
    var len := HeaderLen(p);
    if len < 20 || len > |Encode(p)| then (s, Drop)
    else if len < 32 then (s, Pass(p))
    else if p.flags.syn && !p.flags.ack then
      if p.tsecr == 0 then (s, Drop)
      else (s.(conntrack := s.conntrack[InKey(p) := SynEntry(h, s, p)]), Pass(p.(tsecr := 0)))
    else if p.flags.ack && !p.flags.syn then
      if p.tsecr == TS_START && len == |Encode(p)| && !p.flags.fin then
        (s.(conntrack := s.conntrack[InKey(p) := AckEntry(p)]), Pass(AckToSyn(p)))
      else IngressData(h, s, p, newCookie, newSeed)
    else if p.flags.ack && p.flags.syn then (s, Pass(SynAckBack(p)))
    else (s, Pass(p))
  }

  /** The server's SYN-ACK is answered on the client's behalf (XDP driver mode);
      the check field covers the first 36 bytes. */
  function AnswerSynAck(p: Pkt): Pkt
    requires |Encode(p)| >= 36
  {
    var q := Answer(p);
    q.(check := PrefixCheck(q, 36))
  }

  function Answer(p: Pkt): (q: Pkt)
    ensures |Encode(q)| == |Encode(p)|
  {
    var q := SwapEnds(p);
    var (seqNo, ackNo) := XorSwap(p.seqNo, p.ackNo);
    var (tsval, tsecr) := XorSwap(p.tsval, p.tsecr);
    q.(window := Swap16(0x1f6), seqNo := seqNo, ackNo := NetAdd(ackNo, 1), tsval := tsval, tsecr := tsecr,
       flags := p.flags.(syn := false), check := 0)
  }

  /** Whether the cookie changed since egress last looked, by its 2-bit counter. */
  predicate HeadMoved(e: Entry) { e.head != Counter(Swap32(e.hybrid)) }

  /** Round-trip statistics kept by egress. */
  function Observe(s: Server, e: Entry, tsval: u32): Server {
    var max := if HeadMoved(e) then 0 else s.maxRtt;
    var rtt := Sub32(Swap32(tsval), Swap32(e.tsValS));
    if rtt > max then s.(maxRtt := rtt, rtt := rtt) else s.(maxRtt := max)
  }

  /** What egress does to the entry of the connection ... */
  function EgressEntry(e: Entry, p: Pkt): Entry {
    if p.flags.ack && p.flags.syn then
      if e.delta == 0 then e.(tsValS := p.tsval)
      else e.(delta := Sub32(Sub32(e.delta, Swap32(p.seqNo)), 1), tsValS := p.tsval)
    else if p.flags.rst then e
    else (if HeadMoved(e) then e.(head := (e.head + 1) % 4) else e).(tsValS := p.tsval)
  }

  /** ... and to the packet; check fields are filled in after it. */
  function EgressVerdict(e: Entry, p: Pkt): Verdict {
    if p.flags.ack && p.flags.syn then
      if e.delta == 0 then Pass(p.(tsval := e.hybrid))
      else if |Encode(p)| < 36 then Drop
      else Redirect(AnswerSynAck(p))
    else if p.flags.rst then Pass(p.(seqNo := NetAdd(p.seqNo, e.delta)))
    else Pass(p.(tsval := e.hybrid, seqNo := NetAdd(p.seqNo, e.delta)))
  }

  predicate ReplacesTimestamp(e: Entry, p: Pkt) {
    if p.flags.ack && p.flags.syn then e.delta == 0 else !p.flags.rst
  }

  /** The egress program. */
  function Egress(s: Server, p: Pkt): (Server, Verdict) {
    var len, key := HeaderLen(p), OutKey(p);
    if len < 20 || len > |Encode(p)| then (s, Drop)
    else if len < 32 then (s, Pass(p))
    else if key !in s.conntrack then (s, Drop)
    else
      var e := s.conntrack[key];
      var s' := if (p.flags.ack && p.flags.syn) || p.flags.rst then s else Observe(s, e, p.tsval);
      (s'.(conntrack := s.conntrack[key := EgressEntry(e, p)]), EgressVerdict(e, p))
  }

  // ---------------------------------------------------------------------------
  // Gateway

  const CACHE_SIZE: nat := 10000000

  /** grace is change_key_duration; bloom is the set of positions that are set;
      slots missing from the cache hold zero. */
  datatype Gateway = Gateway(seeds: Seeds, grace: u32, bloom: set<nat>, synCache: map<nat, u32>)

  function Known(h: Hashes, g: Gateway, ip: u32): bool { h.bloom(ip) <= g.bloom }

  function CacheSlot(h: Hashes, g: Gateway, ip: u32): nat { h.sip(ip, g.seeds[SeedKey(ip)]) % CACHE_SIZE }

  function Cached(g: Gateway, slot: nat): u32 { if slot in g.synCache then g.synCache[slot] else 0 }

  function SynCookie(h: Hashes, w: nat, p: Pkt): u32 { h.haraka(w, p.saddr, p.daddr, p.sport) }

  /** New options are written over the old ones and the length is adjusted, but the
      bytes behind them stay where they are: what follows the first n bytes is as long
      as the payload was.  Bytes past the end of the segment are taken to be 0. */
  function Tail(p: Pkt, n: nat): (r: seq<u8>)
    ensures |r| == if HeaderLen(p) <= |Encode(p)| then |Encode(p)| - HeaderLen(p) else 0
    ensures forall i :: 0 <= i < |r| && n + i < |Encode(p)| ==> r[i] == Encode(p)[n + i]
  {
    var bytes, len := Encode(p), HeaderLen(p);
    if len > |bytes| then []
    else seq(|bytes| - len, i requires 0 <= i < |bytes| - len => if n + i < |bytes| then bytes[n + i] else 0)
  }

  /** cksumTcp, on any segment that an IP packet can hold. */
  function Resummed(q: Pkt): Pkt {
    if FitsInIp(q) then q.(check := FullCheck(q)) else q
  }

  /** The fixed options of a cookie SYN-ACK, and its recomputed check field. */
  function FreshSynAck(p: Pkt, cookie: u32): Pkt {
    var q := SynToSynAck(p, cookie);
    Resummed(q.(pre := [2, 4, 2, 24, 4, 2], post := Tail(q, 36), flags := q.flags.(offset := p.flags.offset % 16 + 0x90)))
  }

  /** The options of the ACK that opens a server connection, likewise. */
  function FreshAck(p: Pkt): Pkt {
    Resummed(p.(pre := [2, 4, 5, 180, 4, 2], post := [1, 3, 3, 7] + Tail(p, 40), flags := p.flags.(offset := p.flags.offset % 16 + 0xa0)))
  }

  lemma FreshIs(p: Pkt)
    ensures var f := FreshAck(p);
      && HeaderLen(f) == 40 && |Encode(f)| == 40 + |Tail(p, 40)| && InKey(f) == InKey(p) && f.tsecr == p.tsecr && f.ackNo == p.ackNo
      && f.flags == p.flags.(offset := f.flags.offset)
  {
    hide FullCheck, Tail;
  }

  /** A packet from the client side, handled by worker w.  `ab` keeps the client's
      options in SYN-ACKs; `always` validates both cookies at all times. */
  function Inbound(h: Hashes, ab: bool, always: bool, g: Gateway, w: nat, p: Pkt): (Gateway, Verdict) {
    if p.flags.syn && !p.flags.ack then
      var slot := CacheSlot(h, g, p.saddr);
      if Known(h, g, p.saddr) then
        (g.(synCache := g.synCache[slot := 0]), Pass(p.(tsecr := Cached(g, slot))))
      else
        (g, Pass(if ab then SynToSynAck(p, SynCookie(h, w, p)) else FreshSynAck(p, SynCookie(h, w, p))))
    else if p.flags.ack && !p.flags.syn then
      if p.tsecr == TS_START then
        if NetAdd(p.ackNo, -1) != SynCookie(h, w, p) then (g, Drop)
        else
          var first := !Known(h, g, p.saddr);
          var q := if first then AckToRst(p) else p;
          var g' := if first then
                      g.(bloom := g.bloom + h.bloom(p.saddr), synCache := g.synCache[CacheSlot(h, g, p.saddr) := SynCookie(h, w, p)])
                    else g;
          (g', Pass(if ab && |Encode(q)| == HeaderLen(q) then FreshAck(q) else q))
      else if DataPasses(h, always, g, w, p) then (g, Pass(p))
      else (g, Drop)
    else (g, Pass(p))
  }

  /** The check on data packets: the map cookie or, in the grace window, the SYN
      cookie. */
  predicate DataPasses(h: Hashes, always: bool, g: Gateway, w: nat, p: Pkt) {
    var c := Swap32(p.tsecr);
    || MapPart(c) == MapCookie(h, g.seeds, p.saddr)
    || ((g.grace != 0 || always) && HashPart(c) == Fold32(SynCookie(h, w, p)) % 0x4000)
  }

  function ReadChange(p: Pkt): SeedChange { SeedChange(p.sport, p.dport, p.window, p.seqNo, p.ackNo) }

  function Learn(g: Gateway, m: SeedChange): Gateway {
    g.(seeds := g.seeds[m.seedKey := m.newSeed], grace := m.rtt)
  }

  /** The timestamp of a server's own SYN is replaced. */
  function Stamped(p: Pkt, tsval: u32): Pkt {
    p.(tsval := tsval, check := Incremental(p.check, START.Minus(p.tsval).Plus(tsval)))
  }

  /** A packet from the server side.  Whatever has ECE set is taken for a seed change.
      `flow` is the SYN cookie of the flow that the worker saw last. */
  function Outbound(h: Hashes, g: Gateway, flow: u32, p: Pkt): (Gateway, Verdict) {
    if p.flags.ece then (Learn(g, ReadChange(p)), Drop)
    else if p.flags.syn && !p.flags.ack then
      (g, Pass(Stamped(p, Swap32(HybridCookie(h, g.seeds, flow, p.daddr)))))
    else (g, Pass(p))
  }
}
