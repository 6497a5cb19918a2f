/** The smartcookie agents with their state in place.  The server carries a record of
    its splices as a ghost; its invariant ties every table entry to it, so every packet
    that goes in or out can be described in terms of what happened before. */
module SmartAgents {
  import opened Words
  import opened Checksum
  import opened Packets
  import opened Rewrites
  import opened Recompute
  import opened BloomFilters
  import H = HtsCookie
  import S = SmartCookie
  import SmartRuns
  import SmartAdmissions

  class ServerAgent {
    const h: S.Keyed
    var table: S.Table
    ghost var splices: SmartRuns.Splices

    ghost predicate Valid()
      reads this
    {
      SmartRuns.TableOk(table, splices)
    }

    constructor (keyed: S.Keyed)
      ensures Valid() && h == keyed && table == map[] && splices == map[]
    {
      h, table, splices := keyed, map[], map[];
    }

    /** The ingress program. */
    method Ingress(packet: Pkt) returns (v: H.Verdict)
      requires Valid()
      modifies this
      ensures Valid() && (table, v) == S.Ingress(h, old(table), packet)
      ensures splices == SmartRuns.IngressSplices(h, old(table), old(splices), packet)
      ensures SmartRuns.IngressPromise(h, old(table), old(splices), packet, table, v)
    {
      hide S.Ingress, SmartRuns.TableOk, SmartRuns.IngressSplices, SmartRuns.IngressPromise;
      SmartRuns.IngressKeeps(h, table, splices, packet);
      SmartRuns.IngressPromised(h, table, splices, packet);
      splices := SmartRuns.IngressSplices(h, table, splices, packet);
      v := Filter(packet);
    }

    method Filter(packet: Pkt) returns (v: H.Verdict)
      modifies this`table
      ensures (table, v) == S.Ingress(h, old(table), packet)
    {
      hide Encode, Swap32, CsumDiff, Fold64;
      var p, len, key := packet, H.HeaderLen(packet), H.InKey(packet);
      if len < 20 || len > |Encode(p)| {
        return H.Drop;
      }
      if p.flags.ack && !p.flags.syn {
        if key in table && !p.flags.ece {
          var val := table[key];
          p := p.(ackNo := NetAdd(p.ackNo, 0 - (val.delta as int)));
          var csum := CsumDiff([packet.ackNo], [p.ackNo], Not32(packet.check));
          if len >= 32 {
            p := p.(tsecr := val.tsValS);
            csum := CsumDiff([packet.tsecr], [p.tsecr], csum);
          }
          var check := FoldHelper64(csum);
          p := p.(check := check);
        } else {
          if !p.flags.ece {
            var cookie := h.hash(p.saddr, p.daddr, p.sport, p.dport);
            if NetAdd(p.ackNo, -1) != cookie {
              return H.Drop;
            }
          }
          table := table[key := S.SplicePoint(Swap32(p.ackNo), 0)];
          p := Open(p);
        }
      } else if p.flags.ack && p.flags.syn {
        p := SynAckBack(p);
      }
      return H.Pass(p);
    }

    method Open(packet: Pkt) returns (p: Pkt)
      ensures p == S.OpenConnection(packet) && SmartRuns.OpensServer(packet, p)
    {
      SmartRuns.OpeningPromised(packet);
      hide SmartRuns.OpensServer;
      hide Swap32, CsumDiff, Fold64, FlagsAndWindow;
      p := packet;
      var oldFlags := FlagsAndWindow(p.flags, p.window);
      p := p.(flags := p.flags.(ack := false, syn := true));
      var newFlags := FlagsAndWindow(p.flags, p.window);
      p := p.(flags := p.flags.(ece := false), seqNo := NetAdd(p.seqNo, -1), ackNo := 0);
      var csum := CsumDiff([oldFlags], [newFlags], Not32(packet.check));
      csum := CsumDiff([packet.seqNo], [p.seqNo], csum);
      csum := CsumDiff([packet.ackNo], [], csum);
      if H.HeaderLen(packet) >= 32 {
        p := p.(tsecr := 0);
        csum := CsumDiff([packet.tsecr], [], csum);
      }
      var check := FoldHelper64(csum);
      p := p.(check := check);
    }

    /** The egress program. */
    method Egress(packet: Pkt) returns (v: H.Verdict)
      requires Valid()
      modifies this
      ensures Valid() && (table, v) == S.Egress(old(table), packet)
      ensures splices == SmartRuns.EgressSplices(old(table), old(splices), packet)
      ensures SmartRuns.EgressPromise(old(table), old(splices), packet, table, v)
    {
      hide S.Egress, SmartRuns.TableOk, SmartRuns.EgressSplices, SmartRuns.EgressPromise;
      SmartRuns.EgressKeeps(table, splices, packet);
      SmartRuns.EgressPromised(table, splices, packet);
      splices := SmartRuns.EgressSplices(table, splices, packet);
      v := Emit(packet);
    }

    method Emit(packet: Pkt) returns (v: H.Verdict)
      modifies this`table
      ensures (table, v) == S.Egress(old(table), packet)
    {
      hide Encode, Swap32, PrefixCheck, Swap16;
      var p, len, key := packet, H.HeaderLen(packet), H.OutKey(packet);
      if len < 20 || len > |Encode(p)| {
        return H.Drop;
      }
      if key !in table {
        return H.Drop;
      }
      var val := table[key];
      if p.flags.ack && p.flags.syn {
        val := val.(delta := Sub32(Sub32(val.delta, Swap32(p.seqNo)), 1));
        if len > 32 {
          val := val.(tsValS := p.tsval);
          var (tsval, tsecr) := XorSwap(p.tsval, p.tsecr);
          p := p.(window := Swap16(0x1f6), tsval := tsval, tsecr := tsecr);
        }
        table := table[key := val];
        p := SwapEnds(p);
        var (seqNo, ackNo) := XorSwap(p.seqNo, p.ackNo);
        p := p.(seqNo := seqNo, ackNo := NetAdd(ackNo, 1), flags := p.flags.(syn := false), check := 0);
        var size := if len > 32 then 36 else 24;
        if |Encode(packet)| < size {
          return H.Drop;
        }
        assert p == S.Reply(packet);
        SameSize(packet);
        return H.Redirect(p.(check := PrefixCheck(p, size)));
      }
      if len > 32 {
        val := val.(tsValS := p.tsval);
      }
      table := table[key := val];
      return H.Pass(p.(seqNo := NetAdd(p.seqNo, val.delta)));
    }

    lemma SameSize(p: Pkt)
      ensures |Encode(S.Reply(p))| == |Encode(p)|
    {
      hide NetAdd;
    }
  }

  /** The 12 bytes of a flow record that the filter hashes. */
  function FlowBytes(k: S.FlowKey): Key {
    Le32(k.srcIp) + Le32(k.dstIp) + Le16(k.srcPort) + Le16(k.srcPort)
  }

  /** Different flows have different records. */
  lemma FlowBytesTell(k: S.FlowKey, l: S.FlowKey)
    ensures |FlowBytes(k)| == 12 && (FlowBytes(k) == FlowBytes(l) ==> k == l)
  {
    if FlowBytes(k) == FlowBytes(l) {
      hide Le32;
      assert Le32(k.srcIp) == FlowBytes(k)[..4] == FlowBytes(l)[..4] == Le32(l.srcIp) by { Le32Size(k.srcIp); Le32Size(l.srcIp); }
      assert Le32(k.dstIp) == FlowBytes(k)[4..8] == FlowBytes(l)[4..8] == Le32(l.dstIp) by { Sizes(k); Sizes(l); }
      assert Le16(k.srcPort) == FlowBytes(k)[8..10] == FlowBytes(l)[8..10] == Le16(l.srcPort) by { Sizes(k); Sizes(l); }
      Le32Tells(k.srcIp, l.srcIp);
      Le32Tells(k.dstIp, l.dstIp);
      Le16Tells(k.srcPort, l.srcPort);
    }
  }

  lemma Sizes(k: S.FlowKey)
    ensures |Le32(k.srcIp)| == |Le32(k.dstIp)| == 4 && |Le16(k.srcPort)| == 2
  {
  }

  lemma Le32Size(v: u32)
    ensures |Le32(v)| == 4
  {
  }

  lemma Le16Tells(v: u16, w: u16)
    requires Le16(v) == Le16(w)
    ensures v == w
  {
    assert Le16(v)[0] == Le16(w)[0] && Le16(v)[1] == Le16(w)[1];
  }

  lemma Le32Tells(v: u32, w: u32)
    requires Le32(v) == Le32(w)
    ensures v == w
  {
    assert Le16(v % TWO16) == Le32(v)[..2] == Le32(w)[..2] == Le16(w % TWO16);
    assert Le16(v / TWO16) == Le32(v)[2..] == Le32(w)[2..] == Le16(w / TWO16);
    Le16Tells(v % TWO16, w % TWO16);
    Le16Tells(v / TWO16, w / TWO16);
  }

  class GatewayAgent {
    const h: S.Keyed
    const ab: bool                // opt_ab_test
    const bf: BloomFilter

    ghost predicate Valid()
      reads bf, bf.vect, bf.vect.mem
    {
      && bf.Valid()
      && (forall k: S.FlowKey :: h.bloom(k) == Positions(bf.hashes, bf.vect.size, FlowBytes(k)))
      && (forall ip: u32 :: h.bloomPrefix(ip) == Positions(bf.hashes, bf.vect.size, Le32(ip)))
    }

    constructor (hash: (u32, u32, u16, u16) -> u32, bits: nat, bloomHashes: seq<Key -> u32>, abTest: bool)
      requires bits > 0 && bits % 32 == 0
      ensures Valid() && fresh(bf) && fresh(bf.vect.mem) && bf.vect.Bits() == {}
    {
      h := S.Keyed(hash, k => Positions(bloomHashes, bits, FlowBytes(k)), ip => Positions(bloomHashes, bits, Le32(ip)));
      ab := abTest;
      bf := new BloomFilter(bits, bloomHashes);
    }

    method FromClient(packet: Pkt) returns (v: H.Verdict)
      requires Valid()
      modifies bf, bf.vect.mem
      ensures Valid() && (bf.vect.Bits(), v) == S.FromClient(h, ab, old(bf.vect.Bits()), packet)
      ensures SmartAdmissions.FromClientPromise(h, ab, old(bf.vect.Bits()), packet, bf.vect.Bits(), v)
    {
      hide S.SynAckKept, S.SynAckFresh, H.FreshAck, NetAdd, Marks, Union, SmartAdmissions.FromClientPromise;
      SmartAdmissions.FromClientPromised(h, ab, bf.vect.Bits(), packet);
      var p := packet;
      if p.flags.syn && !p.flags.ack {
        var cookie := h.hash(p.saddr, p.daddr, p.sport, p.dport);
        if ab {
          p := S.SynAckKept(p, cookie);
        } else {
          p := S.SynAckFresh(p, cookie);
        }
      } else if p.flags.ack && !p.flags.syn {
        var known := bf.Test(FlowBytes(S.FlowOf(p)));
        if !known {
          var cookie := h.hash(p.saddr, p.daddr, p.sport, p.dport);
          if NetAdd(p.ackNo, -1) != cookie {
            return H.Drop;
          }
          bf.Put(FlowBytes(S.FlowOf(p)));
          p := p.(flags := p.flags.(ece := true));
        }
        if ab && p.tsecr == 1 && !p.flags.psh {
          p := H.FreshAck(p);
        }
      }
      return H.Pass(p);
    }

    method FromServer(packet: Pkt) returns (v: H.Verdict)
      requires Valid()
      modifies bf, bf.vect.mem
      ensures Valid() && (bf.vect.Bits(), v) == S.FromServer(h, old(bf.vect.Bits()), packet)
      ensures SmartAdmissions.FromServerPromise(h, old(bf.vect.Bits()), packet, bf.vect.Bits(), v)
    {
      hide Incremental, Marks, Union, SmartAdmissions.FromServerPromise;
      SmartAdmissions.FromServerPromised(h, bf.vect.Bits(), packet);
      var p := packet;
      if p.flags.ece {
        bf.Put(Le32(p.daddr));
        return H.Drop;
      } else if p.flags.ack {
        p := p.(tsval := 2, check := Incremental(p.check, START.Minus(p.tsval).Plus(2)));
      }
      return H.Pass(p);
    }
  }
}
