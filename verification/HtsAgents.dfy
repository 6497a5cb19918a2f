/** The htscookie agents with their state in place: the server's two programs share
    the connection table, the seeds and the counters; the gateway keeps its own
    seeds, a Bloom filter and the cache of SYN cookies.  The server carries a ledger of
    its connections as a ghost; its invariant ties every entry to it, so every packet
    that goes in or out can be described in terms of what happened before. */
module HtsAgents {
  import opened Words
  import opened Checksum
  import opened Packets
  import opened Rewrites
  import opened Recompute
  import opened BloomFilters
  import H = HtsCookie
  import Ledgers
  import Handovers
  import Admissions

  class ServerAgent {
    const h: H.Hashes
    var conntrack: map<H.Key, H.Entry>
    const seeds: array<u32>
    var dropcnt: nat
    var rtt: u32
    var maxRtt: u32
    ghost var book: Ledgers.Ledger

    ghost predicate Valid()
      reads this, seeds
    {
      seeds.Length == 0x1_0000 && Ledgers.ServerOk(h, View(), book)
    }

    ghost function View(): H.Server
      requires seeds.Length == 0x1_0000
      reads this, seeds
    {
      H.Server(conntrack, seeds[..], dropcnt, rtt, maxRtt)
    }

    constructor (hashes: H.Hashes)
      ensures Valid() && fresh(seeds) && h == hashes
      ensures View() == H.Server(map[], H.InitialSeeds(), 0, 0, 0) && book == Ledgers.InitialLedger()
    {
      h := hashes;
      conntrack, book := map[], Ledgers.InitialLedger();
      seeds := new u32[0x1_0000](k requires 0 <= k < 0x1_0000 => k);
      dropcnt, rtt, maxRtt := 0, 0, 0;
      new;
      assert seeds[..] == H.InitialSeeds();
      Ledgers.InitialOk(h);
    }

    /** The ingress program. */
    method Ingress(packet: Pkt, newCookie: u16, newSeed: u32) returns (v: H.Verdict)
      requires Valid()
      modifies this, seeds
      ensures Valid() && (View(), v) == H.Ingress(h, old(View()), packet, newCookie, newSeed)
      ensures book == Ledgers.IngressLedger(h, old(View()), old(book), packet, newCookie, newSeed)
      ensures Handovers.IngressPromise(h, old(View()), old(book), packet, newCookie, newSeed, View(), v)
    {
      hide H.Ingress, Ledgers.IngressLedger, Handovers.IngressPromise, Ledgers.ServerOk;
      ghost var s, b := View(), book;
      Ledgers.HistoryThere(h, s, b, H.SeedKey(packet.saddr));
      Ledgers.IngressKeeps(h, s, b, packet, newCookie, newSeed);
      Handovers.IngressPromised(h, s, b, packet, newCookie, newSeed);
      v := Filter(packet, newCookie, newSeed);
      book := Ledgers.IngressLedger(h, s, b, packet, newCookie, newSeed);
    }

    method Filter(packet: Pkt, newCookie: u16, newSeed: u32) returns (v: H.Verdict)
      requires seeds.Length == 0x1_0000
      modifies this`conntrack, this`dropcnt, seeds
      ensures (View(), v) == H.Ingress(h, old(View()), packet, newCookie, newSeed)
    {
      hide Encode, Swap32, FiveDiffs, Fold64, CsumDiff, H.FirstCookie;
      var p, len := packet, H.HeaderLen(packet);
      if len < 20 || len > |Encode(p)| {
        return H.Drop;
      }
      if len >= 32 {
        if p.flags.syn && !p.flags.ack {
          if p.tsecr == 0 {
            return H.Drop;
          }
          var cookie := Swap32(H.FirstCookie(h, seeds[..], p.tsecr, p.saddr));
          conntrack := conntrack[H.InKey(p) := H.Entry(cookie, p.tsecr, seeds[H.SeedKey(p.saddr)], 0, 0, 0)];
          p := p.(tsecr := 0);
        } else if p.flags.ack && !p.flags.syn {
          if p.tsecr == TS_START && len == |Encode(p)| && !p.flags.fin {
            conntrack := conntrack[H.InKey(p) := H.Entry(0, NetAdd(p.ackNo, -1), 0, 0, Swap32(p.ackNo), 0)];
            p := ConvertToSyn(p);
          } else {
            v := IngressData(p, newCookie, newSeed);
            return;
          }
        } else if p.flags.ack && p.flags.syn {
          p := SynAckBack(p);
        }
      }
      return H.Pass(p);
    }

    /** Field by field, remembering the old values for the checksum. */
    method ConvertToSyn(packet: Pkt) returns (p: Pkt)
      ensures p == AckToSyn(packet)
      ensures Ledgers.Opens(packet) ==> Handovers.OpensServer(packet, p)
    {
      hide Swap32, CsumDiff, Fold64, Handovers.OpensServer, Encode;
      if Ledgers.Opens(packet) { Handovers.OpeningPromised(packet); }
      p := packet;
      var csum := Not32(p.check);
      p := p.(window := Swap16(64240));
      var oldFlags := FlagsAndWindow(p.flags, p.window);
      p := p.(flags := p.flags.(ack := false, syn := true));
      var newFlags := FlagsAndWindow(p.flags, p.window);
      p := p.(seqNo := NetAdd(p.seqNo, -1), ackNo := 0, tsecr := 0);
      csum := CsumDiff([oldFlags], [newFlags], csum);
      csum := CsumDiff([packet.seqNo], [p.seqNo], csum);
      csum := CsumDiff([packet.window], [p.window], csum);
      csum := CsumDiff([packet.ackNo], [], csum);
      csum := CsumDiff([packet.tsecr], [], csum);
      var check := FoldHelper64(csum);
      p := p.(check := check);
    }

    method IngressData(packet: Pkt, newCookie: u16, newSeed: u32) returns (v: H.Verdict)
      requires seeds.Length == 0x1_0000
      modifies this`conntrack, this`dropcnt, seeds
      ensures (View(), v) == H.IngressData(h, old(View()), packet, newCookie, newSeed)
    {
      hide Swap32, CsumDiff, Fold64, H.FirstCookie, H.NextCookie, H.Fold32;
      var p, key, seedKey := packet, H.InKey(packet), H.SeedKey(packet.saddr);
      if key !in conntrack {
        if p.tsecr != TS_START {
          dropcnt := dropcnt + 1;
          if dropcnt >= H.DROP_THRESH {
            var cookieKey := H.MapCookie(h, seeds[..], p.saddr);
            seeds[seedKey] := newSeed;
            dropcnt := 0;
            assert seeds[..] == old(seeds[..])[seedKey := newSeed];
            var (saddr, daddr) := XorSwap(p.saddr, p.daddr);
            p := p.(saddr := saddr, daddr := daddr);
            p := p.(sport := cookieKey, dport := newCookie, window := seedKey, seqNo := newSeed, ackNo := rtt,
                    flags := p.flags.(ece := true));
            return H.Notify(p);
          }
        }
        return H.Drop;
      }
      var val := conntrack[key];
      if val.seed != seeds[seedKey] {
        var cookie;
        if val.seed == 0 {
          cookie := H.FirstCookie(h, seeds[..], val.hash, p.saddr);
        } else {
          cookie := H.NextCookie(h, seeds[..], Swap32(val.hybrid), p.saddr);
        }
        val := val.(hybrid := Swap32(cookie), seed := seeds[seedKey]);
      }
      p := p.(ackNo := NetAdd(p.ackNo, 0 - (val.delta as int)), tsecr := val.tsValS);
      conntrack := conntrack[key := val];
      var csum := CsumDiff([packet.ackNo], [p.ackNo], Not32(packet.check));
      csum := CsumDiff([packet.tsecr], [p.tsecr], csum);
      var check := FoldHelper64(csum);
      return H.Pass(p.(check := check));
    }

    /** The egress program. */
    method Egress(packet: Pkt) returns (v: H.Verdict)
      requires Valid()
      modifies this
      ensures Valid() && (View(), v) == H.Egress(old(View()), packet)
      ensures book == Ledgers.EgressLedger(old(View()), old(book), packet)
      ensures Handovers.EgressPromise(old(View()), old(book), packet, View(), v)
    {
      hide H.Egress, Ledgers.EgressLedger, Handovers.EgressPromise, Ledgers.ServerOk;
      ghost var s, b := View(), book;
      Ledgers.EgressKeeps(h, s, b, packet);
      Handovers.EgressPromised(h, s, b, packet);
      v := Emit(packet);
      book := Ledgers.EgressLedger(s, b, packet);
    }

    method Emit(packet: Pkt) returns (v: H.Verdict)
      requires seeds.Length == 0x1_0000
      modifies this`conntrack, this`rtt, this`maxRtt
      ensures (View(), v) == H.Egress(old(View()), packet)
    {
      hide Encode, Swap32, PrefixCheck, Swap16;
      var p, len, key := packet, H.HeaderLen(packet), H.OutKey(packet);
      if len < 20 || len > |Encode(p)| {
        return H.Drop;
      }
      if len < 32 {
        return H.Pass(p);
      }
      if key !in conntrack {
        return H.Drop;
      }
      var val := conntrack[key];
      if p.flags.ack && p.flags.syn {
        if val.delta == 0 {
          conntrack := conntrack[key := val.(tsValS := p.tsval)];
          return H.Pass(p.(tsval := val.hybrid));
        }
        val := val.(delta := Sub32(Sub32(val.delta, Swap32(p.seqNo)), 1), tsValS := p.tsval);
        conntrack := conntrack[key := val];
        if |Encode(p)| < 36 {
          return H.Drop;
        }
        p := H.Answer(p);
        return H.Redirect(p.(check := PrefixCheck(p, 36)));
      } else if p.flags.rst {
        p := p.(seqNo := NetAdd(p.seqNo, val.delta));
        conntrack := conntrack[key := val];
      } else {
        var pktHead, curHead: int := H.Counter(Swap32(val.hybrid)), val.head;
        if curHead != pktHead {
          curHead := (curHead + 1) % 4;
          val := val.(head := curHead);
          maxRtt := 0;
        }
        var trip := Sub32(Swap32(p.tsval), Swap32(val.tsValS));
        if trip > maxRtt {
          maxRtt := trip;
          rtt := trip;
        }
        val := val.(tsValS := p.tsval);
        p := p.(tsval := val.hybrid);
        p := p.(seqNo := NetAdd(p.seqNo, val.delta));
        conntrack := conntrack[key := val];
      }
      return H.Pass(p);
    }
  }

  class GatewayAgent {
    const h: H.Hashes
    const ab: bool                // opt_ab_test
    const always: bool            // opt_change_key
    const seeds: array<u32>
    var grace: u32
    const bf: BloomFilter
    const synCache: array<u32>

    ghost predicate Valid()
      reads this, bf, bf.vect, bf.vect.mem
    {
      && seeds.Length == 0x1_0000 && synCache.Length == H.CACHE_SIZE && seeds != synCache
      && bf.vect.mem != seeds && bf.vect.mem != synCache
      && bf.Valid()
      && (forall ip: u32 :: h.bloom(ip) == Positions(bf.hashes, bf.vect.size, Le32(ip)))
    }

    ghost function View(): H.Gateway
      requires Valid()
      reads this, seeds, synCache, bf, bf.vect, bf.vect.mem
    {
      H.Gateway(seeds[..], grace, bf.vect.Bits(), Cache())
    }

    ghost function Cache(): map<nat, u32>
      requires synCache.Length == H.CACHE_SIZE
      reads synCache
    {
      map slot: nat | slot < H.CACHE_SIZE :: synCache[slot]
    }

    constructor (sip: (u32, u32) -> u32, haraka: (nat, u32, u32, u16) -> u32,
                 bits: nat, bloomHashes: seq<Key -> u32>, abTest: bool, changeKey: bool)
      requires bits > 0 && bits % 32 == 0
      ensures Valid() && fresh(seeds) && fresh(synCache) && fresh(bf) && fresh(bf.vect.mem)
      ensures View().seeds == H.InitialSeeds() && View().grace == 0 && View().bloom == {}
      ensures forall slot :: slot in View().synCache ==> View().synCache[slot] == 0
    {
      h := H.Hashes(sip, haraka, ip => Positions(bloomHashes, bits, Le32(ip)));
      ab, always := abTest, changeKey;
      seeds := new u32[0x1_0000](k requires 0 <= k < 0x1_0000 => k);
      grace := 0;
      bf := new BloomFilter(bits, bloomHashes);
      synCache := new u32[H.CACHE_SIZE](_ => 0);
      new;
      assert seeds[..] == H.InitialSeeds();
    }

    /** `bloom_filter_test(bf, &ip->saddr, 4)`. */
    method Known(ip: u32) returns (b: bool)
      requires Valid()
      ensures b == H.Known(h, View(), ip)
    {
      b := bf.Test(Le32(ip));
    }

    method Store(slot: nat, cookie: u32)
      requires Valid() && slot < H.CACHE_SIZE
      modifies synCache
      ensures Valid() && View() == old(View()).(synCache := old(View()).synCache[slot := cookie])
    {
      synCache[slot] := cookie;
      assert Cache() == old(Cache())[slot := cookie];
    }

    method Remember(ip: u32)
      requires Valid()
      modifies bf, bf.vect.mem
      ensures Valid() && View() == old(View()).(bloom := old(View()).bloom + h.bloom(ip))
    {
      bf.Put(Le32(ip));
      assert Cache() == old(Cache());
      assert seeds[..] == old(seeds[..]);
    }

    method Inbound(w: nat, packet: Pkt) returns (v: H.Verdict)
      requires Valid()
      modifies this, synCache, bf, bf.vect.mem
      ensures Valid() && (View(), v) == H.Inbound(h, ab, always, old(View()), w, packet)
      ensures Admissions.InboundPromise(h, ab, always, old(View()), w, packet, View(), v)
    {
      hide H.Inbound, Admissions.InboundPromise, Marks, Union;
      Admissions.InboundPromised(h, ab, always, View(), w, packet);
      v := Check(w, packet);
    }

    method Check(w: nat, packet: Pkt) returns (v: H.Verdict)
      requires Valid()
      modifies this, synCache, bf, bf.vect.mem
      ensures Valid() && (View(), v) == H.Inbound(h, ab, always, old(View()), w, packet)
    {
      hide SynToSynAck, AckToRst, H.FreshSynAck, H.FreshAck, Encode, H.Fold32, NetAdd, Marks, Union;
      var p := packet;
      if p.flags.syn && !p.flags.ack {
        var known := Known(p.saddr);
        if known {
          var slot := h.sip(p.saddr, seeds[H.SeedKey(p.saddr)]) % H.CACHE_SIZE;
          p := p.(tsecr := synCache[slot]);
          Store(slot, 0);
          return H.Pass(p);
        }
        var cookie := h.haraka(w, p.saddr, p.daddr, p.sport);
        if ab {
          return H.Pass(SynToSynAck(p, cookie));
        } else {
          return H.Pass(H.FreshSynAck(p, cookie));
        }
      } else if p.flags.ack && !p.flags.syn {
        if p.tsecr == TS_START {
          v := CheckCookie(w, p);
          return;
        }
        var hybrid := Swap32(p.tsecr);
        if hybrid % TWO16 != H.MapCookie(h, seeds[..], p.saddr) {
          if grace == 0 && !always {
            return H.Drop;
          }
          var cookie := H.Fold32(h.haraka(w, p.saddr, p.daddr, p.sport));
          if hybrid / TWO16 % 0x4000 != cookie % 0x4000 {
            return H.Drop;
          }
        }
      }
      return H.Pass(p);
    }

    /** An ACK that echoes TS_START must acknowledge the SYN cookie. */
    method CheckCookie(w: nat, packet: Pkt) returns (v: H.Verdict)
      requires Valid() && packet.flags.ack && !packet.flags.syn && packet.tsecr == TS_START
      modifies synCache, bf, bf.vect.mem
      ensures Valid() && (View(), v) == H.Inbound(h, ab, always, old(View()), w, packet)
    {
      hide SynToSynAck, AckToRst, H.FreshSynAck, H.FreshAck, Encode, H.Fold32, NetAdd, Marks, Union;
      var p := packet;
      var cookie := h.haraka(w, p.saddr, p.daddr, p.sport);
      if NetAdd(p.ackNo, -1) != cookie {
        return H.Drop;
      }
      var known := Known(p.saddr);
      if !known {
        Remember(p.saddr);
        var slot := h.sip(p.saddr, seeds[H.SeedKey(p.saddr)]) % H.CACHE_SIZE;
        Store(slot, cookie);
        p := AckToRst(p);
      }
      if ab && |Encode(p)| == H.HeaderLen(p) {
        p := H.FreshAck(p);
      }
      return H.Pass(p);
    }

    /** A packet from the server side: with ECE it is read as a seed change. */
    method Outbound(flow: u32, packet: Pkt) returns (v: H.Verdict)
      requires Valid()
      modifies this, seeds
      ensures Valid() && (View(), v) == H.Outbound(h, old(View()), flow, packet)
      ensures Admissions.OutboundPromise(h, old(View()), flow, packet, View(), v)
      ensures v.Pass? <==> !packet.flags.ece
      ensures View().seeds == old(View()).seeds <==> !packet.flags.ece || old(seeds[packet.window]) == packet.seqNo
    {
      hide Swap32, H.HybridCookie, Marks, Union, Admissions.OutboundPromise, Incremental;
      Admissions.OutboundPromised(h, View(), flow, packet);
      var p := packet;
      if p.flags.ece {
        seeds[p.window] := p.seqNo;
        grace := p.ackNo;
        assert seeds[..] == old(seeds[..])[p.window := p.seqNo];
        assert seeds[..][p.window] == p.seqNo;
        assert Cache() == old(Cache());
        return H.Drop;
      }
      if p.flags.syn && !p.flags.ack {
        var stamp := Swap32(H.HybridCookie(h, seeds[..], flow, p.daddr));
        p := p.(tsval := stamp, check := Incremental(p.check, START.Minus(p.tsval).Plus(stamp)));
      }
      return H.Pass(p);
    }
  }
}
