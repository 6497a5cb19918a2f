/** When seeds are rotated, over whole runs: strays are counted exactly. */
module Rotations {
  import opened Words
  import opened Packets
  import opened Rewrites
  import opened HtsCookie
  import opened Ledgers
  import opened Protocol

  /** Data of a connection that the server does not know. */
  predicate Stray(s: Server, p: Pkt) {
    Seen(p) && p.flags.ack && !p.flags.syn && p.tsecr != TS_START && InKey(p) !in s.conntrack
  }

  predicate StrayNow(s: Sys, e: Event) { Sized(s) && e.AtIngress? && Stray(s.srv, e.p) }

  predicate RotatesNow(h: Hashes, s: Sys, e: Event) {
    Sized(s) && e.AtIngress? && Ingress(h, s.srv, e.p, e.newCookie, e.newSeed).1.Notify?
  }

  /** How many strays a run brought, and how many rotations. */
  function Strays(h: Hashes, run: seq<Event>): nat
    decreases run
  {
    if run == [] then 0
    else
      var most := run[..|run| - 1];
      Strays(h, most) + if StrayNow(After(h, most), run[|run| - 1]) then 1 else 0
  }

  function Rotated(h: Hashes, run: seq<Event>): nat
    decreases run
  {
    if run == [] then 0
    else
      var most := run[..|run| - 1];
      Rotated(h, most) + if RotatesNow(h, After(h, most), run[|run| - 1]) then 1 else 0
  }

  /** The statistics of egress: the duration that a rotation announces is the longest
      one seen, unless the search for it has just started anew. */
  predicate TimesOk(s: Server) { s.maxRtt == 0 || s.rtt == s.maxRtt }

  lemma IngressCounts(h: Hashes, s: Server, p: Pkt, newCookie: u16, newSeed: u32)
    requires s.dropcnt < 5_000_000
    ensures var (s', v) := Ingress(h, s, p, newCookie, newSeed);
      && s'.dropcnt + (if v.Notify? then 5_000_000 else 0) == s.dropcnt + (if Stray(s, p) then 1 else 0)
      && s'.dropcnt < 5_000_000 && s'.rtt == s.rtt && s'.maxRtt == s.maxRtt
      && (v.Notify? ==> s'.dropcnt == 0)
  {
    hide Encode, Swap32, AckToSyn, AckEntry, SynEntry, SynAckBack, Handover, Refresh, ChangePacket, MapCookie;
  }

  lemma EgressTimes(s: Server, p: Pkt)
    ensures var s' := Egress(s, p).0; s'.dropcnt == s.dropcnt && (TimesOk(s) ==> TimesOk(s'))
  {
    hide Encode, Swap32, EgressEntry, EgressVerdict;
  }

  /** In every run the strays are five million for every rotation and the current count
      besides, which is below five million. */
  lemma {:induction false} StraysCounted(h: Hashes, run: seq<Event>)
    ensures var s := After(h, run).srv;
      Strays(h, run) == 5_000_000 * Rotated(h, run) + s.dropcnt && s.dropcnt < 5_000_000 && TimesOk(s)
    decreases run
  {
    hide Ingress, Egress, Stray, IngressLedger, EgressLedger, Sized, TimesOk;
    if run == [] {
      assert TimesOk(Server(map[], InitialSeeds(), 0, 0, 0)) by { AtStart(); }
    } else {
      var most, e := run[..|run| - 1], run[|run| - 1];
      var s := After(h, most);
      StraysCounted(h, most);
      if Sized(s) {
        match e
        case AtIngress(p, newCookie, newSeed) =>
          IngressCounts(h, s.srv, p, newCookie, newSeed);
          SameTimes(s.srv, Ingress(h, s.srv, p, newCookie, newSeed).0);
        case AtEgress(p) => EgressTimes(s.srv, p);
        case AtGateway(flow) =>
        case GraceOver =>
      }
    }
  }

  lemma AtStart()
    ensures TimesOk(Server(map[], InitialSeeds(), 0, 0, 0))
  {
  }

  lemma SameTimes(s: Server, s': Server)
    requires s'.rtt == s.rtt && s'.maxRtt == s.maxRtt
    ensures TimesOk(s') == TimesOk(s)
  {
  }

  /** So every rotation comes with the stray number 5,000,000 times its own number, and
      from one rotation to the next exactly five million strays arrive. */
  lemma {:induction false} RotationsSpaced(h: Hashes, run: seq<Event>, e: Event, more: seq<Event>, e': Event)
    requires RotatesNow(h, After(h, run), e) && RotatesNow(h, After(h, run + [e] + more), e')
    requires Rotated(h, run + [e] + more) == Rotated(h, run + [e])
    ensures Strays(h, run + [e]) == 5_000_000 * Rotated(h, run + [e])
    ensures Strays(h, run + [e] + more + [e']) - Strays(h, run + [e]) == 5_000_000
  {
    hide Ingress, Egress, Stray, Step, Sized, TimesOk;
    AtRotation(h, run, e);
    AtRotation(h, run + [e] + more, e');
  }

  lemma AtRotation(h: Hashes, run: seq<Event>, e: Event)
    requires RotatesNow(h, After(h, run), e)
    ensures Strays(h, run + [e]) == 5_000_000 * Rotated(h, run + [e]) && Rotated(h, run + [e]) == Rotated(h, run) + 1
  {
    var s := After(h, run);
    assert (run + [e])[..|run + [e]| - 1] == run;
    hide Ingress, Egress, Stray, IngressLedger, EgressLedger, Sized, TimesOk;
    StraysCounted(h, run);
    StraysCounted(h, run + [e]);
    IngressCounts(h, s.srv, e.p, e.newCookie, e.newSeed);
  }
}
