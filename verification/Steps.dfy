/** The worker's own steps on a State, one per ring operation or array update,
    each keeping the invariant. */
module Steps {
  import opened Words
  import opened Partition
  import opened Frames
  import Fifo

  // ---------------------------------------------------------------------------
  // Moving a run of frames from the front of one place to the end of another

  lemma RunMoves(s: State, s': State, p: Place, moved: seq<nat>, q: Place)
    requires Shape(s) && Shape(s') && p != q && s'.mem.frameSize == s.mem.frameSize
    requires Addrs(s, p) == moved + Addrs(s', p)
    requires Addrs(s', q) == Addrs(s, q) + moved
    requires forall r :: r != p && r != q ==> Addrs(s', r) == Addrs(s, r)
    ensures Moves(Holds(s), Holds(s'), p, [], FramesOf(moved, s.mem.frameSize), Holds(s')(p), q)
  {
    hide FrameOf, Addrs, Shape;
    var h, h' := Holds(s), Holds(s');
    var m := FramesOf(moved, s.mem.frameSize);
    assert h(p) == [] + m + h'(p);
    assert h'(p) == [] + h'(p);
    assert h'(q) == h(q) + m;
    forall r | r != p && r != q ensures h'(r) == h(r) {
      assert Addrs(s', r) == Addrs(s, r);
    }
  }

  lemma MoveRun(s: State, s': State, at: seq<Place>, p: Place, moved: seq<nat>, q: Place) returns (at': seq<Place>)
    requires Shape(s) && Shape(s') && PlacesOk(s, at) && OwnersOk(s, at)
    requires p != q && |s'.xs| == |s.xs| && s'.src == s.src && s'.mem.frameSize == s.mem.frameSize
    requires Addrs(s, p) == moved + Addrs(s', p)
    requires Addrs(s', q) == Addrs(s, q) + moved
    requires forall r :: r != p && r != q ==> Addrs(s', r) == Addrs(s, r)
    requires forall k :: 0 <= k < |moved| ==>
      var f := FrameOf(s.mem.frameSize, moved[k]); OwnerOk(p, f, s.src) ==> OwnerOk(q, f, s.src)
    ensures PlacesOk(s', at') && OwnersOk(s', at')
  {
    hide FrameOf, Addrs, Shape, OwnerOk, Moves, Placed, Holds;
    RunMoves(s, s', p, moved, q);
    var m := FramesOf(moved, s.mem.frameSize);
    MoveKeepsPlaced(Holds(s), Holds(s'), at, p, [], m, Holds(s')(p), q);
    at' := Reassign(at, m, q);
    forall f | 0 <= f < |at'| ensures OwnerOk(at'[f], f, s.src) {
      assert OwnerOk(at[f], f, s.src);
      if f in m {
        var k :| 0 <= k < |m| && m[k] == f;
        assert FrameOf(s.mem.frameSize, moved[k]) == f;
      }
    }
  }

  lemma MoveNothing(s: State, s': State, at: seq<Place>)
    requires Shape(s) && Shape(s') && PlacesOk(s, at)
    requires |s'.xs| == |s.xs| && s'.mem.frameSize == s.mem.frameSize
    requires forall r :: Addrs(s', r) == Addrs(s, r)
    ensures PlacesOk(s', at)
    ensures OwnersOk(s, at) && s'.src == s.src ==> OwnersOk(s', at)
  {
    hide FrameOf;
    forall r ensures Holds(s')(r) == Holds(s)(r) {
      assert Addrs(s', r) == Addrs(s, r);
    }
  }

  // ---------------------------------------------------------------------------
  // Completion

  /** xsk_ring_cons__peek on the completion ring of socket i. */
  function PeekComp(s: State, i: nat, nb: nat): (r: (State, nat))
    requires i < |s.xs| && s.xs[i].cq.Ok()
  {
    var x := s.xs[i];
    var (cq, n) := Fifo.Peek(x.cq, nb);
    (s.(xs := s.xs[i := x.(cq := cq)], comp := s.comp + x.cq.queue[x.cq.out..x.cq.out + n]), n)
  }

  lemma PeekCompAddrs(s: State, i: nat, nb: nat)
    requires Shape(s) && i < |s.xs|
    ensures Shape(PeekComp(s, i, nb).0)
    ensures var (s', n) := PeekComp(s, i, nb); var x := s.xs[i];
      var moved := x.cq.queue[x.cq.out..x.cq.out + n];
      && Addrs(s, Comp(i)) == moved + Addrs(s', Comp(i))
      && Addrs(s', Sorting) == Addrs(s, Sorting) + moved
      && forall r :: r != Comp(i) && r != Sorting ==> Addrs(s', r) == Addrs(s, r)
  {
    Fifo.PeekTakesOldest(s.xs[i].cq, nb);
  }

  lemma {:induction false} PeekCompKeepsInv(s: State, at: seq<Place>, i: nat, nb: nat) returns (at': seq<Place>)
    requires Inv(s, at) && i < |s.xs|
    ensures Inv(PeekComp(s, i, nb).0, at')
  {
    hide FrameOf, PlacesOk, OwnersOk;
    var x := s.xs[i];
    var (s', n) := PeekComp(s, i, nb);
    PeekCompAddrs(s, i, nb);
    assert ContentOk(s') by {
      hide Addrs, PlacesOk, OwnersOk, OrderOk, AccountsOk;
      assert ContentAt(s, i);
      LocalStepContent(s, s', i);
    }
    hide Addrs, ContentOk, PlacesOk, OwnersOk;
    at' := MoveRun(s, s', at, Comp(i), x.cq.queue[x.cq.out..x.cq.out + n], Sorting);
  }

  /** `to_fill[owner][nfill[owner]++] = addr` for the next completed address. */
  function SortOne(s: State): State
    requires s.comp != [] && Owner(FrameOf(s.mem.frameSize, s.comp[0])) < |s.toFill|
  {
    var o := Owner(FrameOf(s.mem.frameSize, s.comp[0]));
    s.(comp := s.comp[1..], toFill := s.toFill[o := s.toFill[o] + [s.comp[0]]])
  }

  lemma SortingOwner(s: State, at: seq<Place>, k: nat)
    requires Inv(s, at) && k < |s.comp|
    ensures Owner(FrameOf(s.mem.frameSize, s.comp[k])) < |s.xs|
  {
    hide FrameOf;
    PlaceOf(s, at, Sorting, k);
  }

  lemma {:induction false} SortOneKeepsInv(s: State, at: seq<Place>) returns (at': seq<Place>)
    requires Inv(s, at) && s.comp != []
    ensures Owner(FrameOf(s.mem.frameSize, s.comp[0])) < |s.xs| && Inv(SortOne(s), at')
  {
    hide FrameOf, PlacesOk, OwnersOk;
    SortingOwner(s, at, 0);
    var s' := SortOne(s);
    assert Shape(s');
    at' := MoveRun(s, s', at, Sorting, [s.comp[0]], ToFill(Owner(FrameOf(s.mem.frameSize, s.comp[0]))));
    assert ContentOk(s') by {
      hide Addrs, PlacesOk, OwnersOk, OrderOk, AccountsOk;
      assert ContentAt(s, s.src);
      LocalStepContent(s, s', s.src);
    }
  }

  /** xsk_ring_cons__release on the completion ring: `outstanding_tx` is adjusted
      later. */
  function ReleaseComp(s: State, i: nat, n: nat): State
    requires i < |s.xs| && s.xs[i].cq.Ok() && n <= s.xs[i].cq.out && i < |s.owed|
  {
    s.(xs := s.xs[i := s.xs[i].(cq := Fifo.Release(s.xs[i].cq, n))], owed := s.owed[i := s.owed[i] + n])
  }

  lemma {:induction false} ReleaseCompKeepsInv(s: State, at: seq<Place>, i: nat, n: nat)
    requires Inv(s, at) && i < |s.xs| && n <= s.xs[i].cq.out
    ensures Inv(ReleaseComp(s, i, n), at)
  {
    hide FrameOf, PlacesOk, OwnersOk;
    var s' := ReleaseComp(s, i, n);
    assert Shape(s');
    assert s'.xs[i].cq.Unread() == s.xs[i].cq.Unread();
    MoveNothing(s, s', at);
    assert ContentOk(s') by {
      hide Addrs, PlacesOk, OwnersOk, OrderOk, AccountsOk;
      assert ContentAt(s, i);
      LocalStepContent(s, s', i);
    }
  }

  /** xsk_ring_prod__reserve on a fill ring. */
  function ReserveFill(s: State, i: nat, nb: nat): (r: (State, nat))
    requires i < |s.xs| && s.xs[i].fq.Ok()
  {
    var (fq, n) := Fifo.Reserve(s.xs[i].fq, nb);
    (s.(xs := s.xs[i := s.xs[i].(fq := fq)]), n)
  }

  lemma {:induction false} ReserveFillKeepsInv(s: State, at: seq<Place>, i: nat, nb: nat)
    requires Inv(s, at) && i < |s.xs|
    ensures Inv(ReserveFill(s, i, nb).0, at)
  {
    hide FrameOf, PlacesOk, OwnersOk;
    var s' := ReserveFill(s, i, nb).0;
    assert Shape(s');
    MoveNothing(s, s', at);
    assert ContentOk(s') by {
      hide Addrs, PlacesOk, OwnersOk, OrderOk, AccountsOk;
      assert ContentAt(s, i);
      LocalStepContent(s, s', i);
    }
  }

  /** The addresses of to_fill[i] are written and submitted. */
  function SubmitFill(s: State, i: nat): State
    requires i < |s.xs| && i < |s.toFill| && s.xs[i].fq.Ok() && |s.toFill[i]| <= s.xs[i].fq.held
  {
    s.(xs := s.xs[i := s.xs[i].(fq := Fifo.Submit(s.xs[i].fq, s.toFill[i]))], toFill := s.toFill[i := []])
  }

  lemma {:induction false} SubmitFillKeepsInv(s: State, at: seq<Place>, i: nat) returns (at': seq<Place>)
    requires Inv(s, at) && i < |s.xs| && |s.toFill[i]| <= s.xs[i].fq.held
    ensures Inv(SubmitFill(s, i), at')
  {
    hide FrameOf, PlacesOk, OwnersOk;
    var s' := SubmitFill(s, i);
    assert Shape(s');
    at' := MoveRun(s, s', at, ToFill(i), s.toFill[i], Fill(i));
    assert ContentOk(s') by {
      hide Addrs, PlacesOk, OwnersOk, OrderOk, AccountsOk;
      assert ContentAt(s, i);
      LocalStepContent(s, s', i);
    }
  }

  /** Statistics and `outstanding_tx` catch up with the rings. */
  function Count(s: State, i: nat, sent: nat, rcvd: nat, outstanding: int): State
    requires i < |s.xs| && i < |s.owed|
  {
    var x := s.xs[i];
    s.(xs := s.xs[i := x.(txPkts := x.txPkts + sent, rxPkts := x.rxPkts + rcvd, outstanding := x.outstanding + outstanding)],
       owed := s.owed[i := s.owed[i] + outstanding])
  }

  lemma {:induction false} CountKeepsInv(s: State, at: seq<Place>, i: nat, sent: nat, rcvd: nat, outstanding: int)
    requires Inv(s, at) && i < |s.xs|
    ensures Inv(Count(s, i, sent, rcvd, outstanding), at)
  {
    hide FrameOf, PlacesOk, OwnersOk;
    var s' := Count(s, i, sent, rcvd, outstanding);
    assert Shape(s');
    MoveNothing(s, s', at);
    assert ContentOk(s') by {
      hide Addrs, PlacesOk, OwnersOk, OrderOk, AccountsOk;
      assert ContentAt(s, i);
      LocalStepContent(s, s', i);
    }
  }

  // ---------------------------------------------------------------------------
  // Reception

  ghost predicate Idle(s: State) {
    && s.batch == [] && s.comp == [] && s.toDrop == []
    && (forall i :: 0 <= i < |s.toTx| ==> s.toTx[i] == [])
    && (forall i :: 0 <= i < |s.toFill| ==> s.toFill[i] == [])
  }

  /** A new call of process_batch, on socket i. */
  lemma {:induction false} StartKeepsInv(s: State, at: seq<Place>, i: nat)
    requires Inv(s, at) && i < |s.xs| && Idle(s)
    ensures Inv(s.(src := i), at)
  {
    hide FrameOf;
    var s' := s.(src := i);
    assert Shape(s');
    MoveNothing(s, s', at);
    forall f | 0 <= f < |at| ensures OwnerOk(at[f], f, i) {
      assert OwnerOk(at[f], f, s.src);
      assert f in Holds(s)(at[f]);
    }
    forall j | 0 <= j < |s.xs| ensures ContentAt(s', j) {
      assert ContentAt(s, j);
      assert Reads(s.mem, i, []) == [];
    }
  }

  /** xsk_ring_cons__peek on the rx ring of the current socket. */
  function PeekRx(s: State, nb: nat): (r: (State, nat))
    requires s.src < |s.xs| && s.xs[s.src].rx.Ok()
  {
    var x := s.xs[s.src];
    var (rx, n) := Fifo.Peek(x.rx, nb);
    (s.(xs := s.xs[s.src := x.(rx := rx)], batch := s.batch + x.rx.queue[x.rx.out..x.rx.out + n]), n)
  }

  lemma ReadsSplit(m: Memory, b: nat, xs: seq<Desc>, ys: seq<Desc>)
    ensures Reads(m, b, xs + ys) == Reads(m, b, xs) + Reads(m, b, ys)
  {
  }

  lemma Assoc<T>(a: seq<T>, b: seq<T>, c: seq<T>)
    ensures (a + b) + c == a + (b + c)
  {
  }

  lemma PeekedContent(m: Memory, x: Socket, batch: seq<Desc>, arrived: seq<Packet>, done: nat, nb: nat)
    requires SocketOk(x) && RxContent(m, x, batch, arrived, done)
    ensures var (rx, n) := Fifo.Peek(x.rx, nb);
      SocketOk(x.(rx := rx)) && RxContent(m, x.(rx := rx), batch + x.rx.queue[x.rx.out..x.rx.out + n], arrived, done)
  {
    var (rx, n) := Fifo.Peek(x.rx, nb);
    var moved := x.rx.queue[x.rx.out..x.rx.out + n];
    assert SocketOk(x.(rx := rx));
    Fifo.PeekTakesOldest(x.rx, nb);
    hide Reads, Fifo.Peek, Read;
    ReadsSplit(m, x.buffer, moved, rx.Unread());
    ReadsSplit(m, x.buffer, batch, moved);
    Assoc(Reads(m, x.buffer, batch), Reads(m, x.buffer, moved), Reads(m, x.buffer, rx.Unread()));
  }

  lemma PeekRxContent(s: State, nb: nat)
    requires Shape(s) && ContentOk(s)
    ensures Shape(PeekRx(s, nb).0) && ContentOk(PeekRx(s, nb).0)
  {
    var i, s' := s.src, PeekRx(s, nb).0;
    assert Shape(s');
    assert ContentAt(s, i);
    PeekedContent(s.mem, s.xs[i], s.batch, s.arrived[i], s.done[i], nb);
    hide RxContent;
    LocalStepContent(s, s', i);
  }

  lemma PeekRxAddrs(s: State, nb: nat)
    requires Shape(s)
    ensures Shape(PeekRx(s, nb).0)
    ensures var (s', n) := PeekRx(s, nb); var x := s.xs[s.src];
      var moved := AddrsOf(x.rx.queue[x.rx.out..x.rx.out + n]);
      && Addrs(s, Rx(s.src)) == moved + Addrs(s', Rx(s.src))
      && Addrs(s', Batch) == Addrs(s, Batch) + moved
      && forall r :: r != Rx(s.src) && r != Batch ==> Addrs(s', r) == Addrs(s, r)
  {
    hide FrameOf;
    var x := s.xs[s.src];
    var (s', n) := PeekRx(s, nb);
    var moved := x.rx.queue[x.rx.out..x.rx.out + n];
    assert Shape(s');
    Fifo.PeekTakesOldest(x.rx, nb);
  }

  lemma {:induction false} PeekRxKeepsInv(s: State, at: seq<Place>, nb: nat) returns (at': seq<Place>)
    requires Inv(s, at)
    ensures Inv(PeekRx(s, nb).0, at')
  {
    hide FrameOf, PlacesOk, OwnersOk, ContentOk, Addrs;
    var x := s.xs[s.src];
    var (s', n) := PeekRx(s, nb);
    PeekRxAddrs(s, nb);
    PeekRxContent(s, nb);
    at' := MoveRun(s, s', at, Rx(s.src), AddrsOf(x.rx.queue[x.rx.out..x.rx.out + n]), Batch);
  }

  /** The processor rewrote the next packet of the batch to `pkt` and returned
      `verdict`: -1 to drop it, otherwise the interface to send it to. */
  function ProcessOne(s: State, verdict: int, pkt: Packet): State
    requires s.batch != [] && s.src < |s.xs| && s.src < |s.done|
    requires verdict == -1 || (0 <= verdict < |s.toTx| && verdict < |s.forwarded|)
  {
    var d := s.batch[0];
    var d' := Desc(d.addr, |pkt|);
    var s1 := s.(batch := s.batch[1..], done := s.done[s.src := s.done[s.src] + 1],
                 mem := Write(s.mem, s.xs[s.src].buffer, FrameOf(s.mem.frameSize, d.addr), pkt));
    if verdict == -1 then
      s1.(toDrop := s.toDrop + [d'], drops := s.drops + 1)
    else
      s1.(toTx := s.toTx[verdict := s.toTx[verdict] + [d']],
          forwarded := s.forwarded[verdict := s.forwarded[verdict] + [Out(s.src, s.done[s.src], pkt)]])
  }

  /** The packet about to be processed is the next arrival on its socket. */
  lemma NextArrival(s: State)
    requires Shape(s) && ContentOk(s) && s.batch != []
    ensures s.done[s.src] < |s.arrived[s.src]|
    ensures Read(s.mem, s.xs[s.src].buffer, s.batch[0]) == s.arrived[s.src][s.done[s.src]]
    ensures var x := s.xs[s.src];
      RxContent(s.mem, x, s.batch[1..], s.arrived[s.src], s.done[s.src] + 1)
  {
    hide FrameOf;
    var x, a, n := s.xs[s.src], s.arrived[s.src], s.done[s.src];
    assert ContentAt(s, s.src);
    var all := Reads(s.mem, x.buffer, s.batch) + Reads(s.mem, x.buffer, x.rx.Unread());
    assert a[n..][0] == all[0];
    assert a[n + 1..] == a[n..][1..];
    assert Reads(s.mem, x.buffer, s.batch[1..]) + Reads(s.mem, x.buffer, x.rx.Unread()) == all[1..];
  }

  /** The frame of the next packet leaves the batch ... */
  function SetAside(s: State): State
    requires s.batch != [] && s.src < |s.done|
  {
    s.(batch := s.batch[1..], done := s.done[s.src := s.done[s.src] + 1], toDrop := s.toDrop + [s.batch[0]])
  }

  lemma SetAsideContent(s: State)
    requires Shape(s) && ContentOk(s) && s.batch != []
    ensures Shape(SetAside(s)) && ContentOk(SetAside(s))
  {
    hide FrameOf;
    var s0 := SetAside(s);
    assert Shape(s0);
    NextArrival(s);
    forall j | 0 <= j < |s.xs| ensures ContentAt(s0, j) {
      assert ContentAt(s, j);
    }
  }

  /** ... and is rewritten. */
  lemma RewriteContent(s: State, at: seq<Place>, pkt: Packet)
    requires Inv(s, at) && s.batch != []
    ensures var s1 := SetAside(s).(mem := Write(s.mem, s.xs[s.src].buffer, FrameOf(s.mem.frameSize, s.batch[0].addr), pkt));
            Shape(s1) && ContentOk(s1)
  {
    hide FrameOf;
    var s0 := SetAside(s);
    SetAsideContent(s);
    var at0 := MoveRun(s, s0, at, Batch, [s.batch[0].addr], ToDrop);
    PlaceOf(s0, at0, ToDrop, |s.toDrop|);
    WriteKeepsContent(s0, at0, s.xs[s.src].buffer, FrameOf(s.mem.frameSize, s.batch[0].addr), pkt);
  }

  lemma ProcessContent(s: State, at: seq<Place>, verdict: int, pkt: Packet)
    requires Inv(s, at) && s.batch != [] && -1 <= verdict < |s.xs|
    ensures Shape(ProcessOne(s, verdict, pkt)) && ContentOk(ProcessOne(s, verdict, pkt))
  {
    hide FrameOf;
    RewriteContent(s, at, pkt);
    var s1 := SetAside(s).(mem := Write(s.mem, s.xs[s.src].buffer, FrameOf(s.mem.frameSize, s.batch[0].addr), pkt));
    var s' := ProcessOne(s, verdict, pkt);
    assert Shape(s');
    forall j | 0 <= j < |s.xs| ensures ContentAt(s', j) {
      assert ContentAt(s1, j);
      if j == verdict {
        var b, d', o := s.xs[s.src].buffer, Desc(s.batch[0].addr, |pkt|), Out(s.src, s.done[s.src], pkt);
        assert Read(s'.mem, b, d') == pkt;
        assert Reads(s'.mem, b, s.toTx[j] + [d']) == Reads(s'.mem, b, s.toTx[j]) + [pkt];
        assert Pkts((s.forwarded[j] + [o])[s.wire[j]..]) == Pkts(s.forwarded[j][s.wire[j]..]) + [pkt];
      }
    }
  }

  lemma ProcessOrder(s: State, verdict: int, pkt: Packet)
    requires Shape(s) && OrderOk(s) && s.batch != [] && -1 <= verdict < |s.xs|
    ensures Shape(ProcessOne(s, verdict, pkt)) && OrderOk(ProcessOne(s, verdict, pkt))
  {
    hide FrameOf;
    var s' := ProcessOne(s, verdict, pkt);
    assert Shape(s');
    forall j | 0 <= j < |s.xs| ensures InOrder(s'.forwarded[j], s'.done) {
      assert InOrder(s.forwarded[j], s.done);
    }
  }

  lemma {:induction false} ProcessOneKeepsInv(s: State, at: seq<Place>, verdict: int, pkt: Packet) returns (at': seq<Place>)
    requires Inv(s, at) && s.batch != [] && -1 <= verdict < |s.xs|
    ensures Inv(ProcessOne(s, verdict, pkt), at')
  {
    hide FrameOf, PlacesOk, OwnersOk;
    var s' := ProcessOne(s, verdict, pkt);
    ProcessContent(s, at, verdict, pkt);
    ProcessOrder(s, verdict, pkt);
    at' := MoveRun(s, s', at, Batch, [s.batch[0].addr], if verdict == -1 then ToDrop else ToTx(verdict));
  }

  /** xsk_ring_cons__release on the rx ring. */
  function ReleaseRx(s: State, n: nat): State
    requires s.src < |s.xs| && s.xs[s.src].rx.Ok() && n <= s.xs[s.src].rx.out
  {
    s.(xs := s.xs[s.src := s.xs[s.src].(rx := Fifo.Release(s.xs[s.src].rx, n))])
  }

  lemma {:induction false} ReleaseRxKeepsInv(s: State, at: seq<Place>, n: nat)
    requires Inv(s, at) && n <= s.xs[s.src].rx.out
    ensures Inv(ReleaseRx(s, n), at)
  {
    hide FrameOf, PlacesOk, OwnersOk;
    var s' := ReleaseRx(s, n);
    assert Shape(s');
    assert s'.xs[s.src].rx.Unread() == s.xs[s.src].rx.Unread();
    MoveNothing(s, s', at);
    assert ContentOk(s') by {
      hide Addrs, PlacesOk, OwnersOk, OrderOk, AccountsOk;
      assert ContentAt(s, s.src);
      LocalStepContent(s, s', s.src);
    }
  }

  /** Frames of dropped packets are written to the fill ring and submitted. */
  function SubmitDrop(s: State): State
    requires s.src < |s.xs| && s.xs[s.src].fq.Ok() && |s.toDrop| <= s.xs[s.src].fq.held
  {
    s.(xs := s.xs[s.src := s.xs[s.src].(fq := Fifo.Submit(s.xs[s.src].fq, AddrsOf(s.toDrop)))], toDrop := [])
  }

  lemma {:induction false} SubmitDropKeepsInv(s: State, at: seq<Place>) returns (at': seq<Place>)
    requires Inv(s, at) && |s.toDrop| <= s.xs[s.src].fq.held
    ensures Inv(SubmitDrop(s), at')
  {
    hide FrameOf, PlacesOk, OwnersOk;
    var s' := SubmitDrop(s);
    assert Shape(s');
    at' := MoveRun(s, s', at, ToDrop, AddrsOf(s.toDrop), Fill(s.src));
    assert ContentOk(s') by {
      hide Addrs, PlacesOk, OwnersOk, OrderOk, AccountsOk;
      assert ContentAt(s, s.src);
      LocalStepContent(s, s', s.src);
    }
  }

  // ---------------------------------------------------------------------------
  // Transmission

  /** xsk_ring_prod__reserve on a tx ring. */
  function ReserveTx(s: State, i: nat, nb: nat): (r: (State, nat))
    requires i < |s.xs| && s.xs[i].tx.Ok()
  {
    var (tx, n) := Fifo.Reserve(s.xs[i].tx, nb);
    (s.(xs := s.xs[i := s.xs[i].(tx := tx)]), n)
  }

  lemma {:induction false} ReserveTxKeepsInv(s: State, at: seq<Place>, i: nat, nb: nat)
    requires Inv(s, at) && i < |s.xs|
    ensures Inv(ReserveTx(s, i, nb).0, at)
  {
    hide FrameOf, PlacesOk, OwnersOk;
    var s' := ReserveTx(s, i, nb).0;
    assert Shape(s');
    MoveNothing(s, s', at);
    assert ContentOk(s') by {
      hide Addrs, PlacesOk, OwnersOk, OrderOk, AccountsOk;
      assert ContentAt(s, i);
      LocalStepContent(s, s', i);
    }
  }

  /** memcpy of the k-th packet for socket i into the buffer of that socket. */
  function CopyOne(s: State, i: nat, k: nat): State
    requires i < |s.xs| && s.src < |s.xs| && i < |s.toTx| && k < |s.toTx[i]|
  {
    var d := s.toTx[i][k];
    s.(mem := Write(s.mem, s.xs[i].buffer, FrameOf(s.mem.frameSize, d.addr), Read(s.mem, s.xs[s.src].buffer, d)))
  }

  lemma {:induction false} CopyOneKeepsInv(s: State, at: seq<Place>, i: nat, k: nat)
    requires Inv(s, at) && i < |s.xs| && k < |s.toTx[i]| && s.xs[i].buffer != s.xs[s.src].buffer
    ensures Inv(CopyOne(s, i, k), at)
  {
    hide FrameOf, PlacesOk, OwnersOk;
    var s' := CopyOne(s, i, k);
    assert Shape(s');
    PlaceOf(s, at, ToTx(i), k);
    WriteKeepsContent(s, at, s.xs[i].buffer, FrameOf(s.mem.frameSize, s.toTx[i][k].addr), Read(s.mem, s.xs[s.src].buffer, s.toTx[i][k]));
    MoveNothing(s, s', at);
  }

  /** What the copies achieve: descriptor by descriptor, the target buffer now
      holds the same bytes as the receiving one. */
  lemma CopyOneReads(s: State, at: seq<Place>, i: nat, k: nat)
    requires Inv(s, at) && i < |s.xs| && k < |s.toTx[i]| && s.xs[i].buffer != s.xs[s.src].buffer
    requires forall j :: 0 <= j < k ==> Read(s.mem, s.xs[i].buffer, s.toTx[i][j]) == Read(s.mem, s.xs[s.src].buffer, s.toTx[i][j])
    ensures var m := CopyOne(s, i, k).mem;
      && (forall j :: 0 <= j <= k ==> Read(m, s.xs[i].buffer, s.toTx[i][j]) == Read(m, s.xs[s.src].buffer, s.toTx[i][j]))
      && m.frameSize == s.mem.frameSize
  {
    hide FrameOf;
    var m := CopyOne(s, i, k).mem;
    var b, src, ds := s.xs[i].buffer, s.xs[s.src].buffer, s.toTx[i];
    assert NoDup(Holds(s)(ToTx(i)));
    forall j | 0 <= j <= k ensures Read(m, b, ds[j]) == Read(m, src, ds[j]) {
      if j < k {
        assert Holds(s)(ToTx(i))[j] != Holds(s)(ToTx(i))[k];
      }
    }
  }

  /** Descriptors for socket i are written and submitted. */
  function SubmitTx(s: State, i: nat): State
    requires i < |s.xs| && i < |s.toTx| && i < |s.owed| && s.xs[i].tx.Ok() && |s.toTx[i]| <= s.xs[i].tx.held
  {
    s.(xs := s.xs[i := s.xs[i].(tx := Fifo.Submit(s.xs[i].tx, s.toTx[i]))], toTx := s.toTx[i := []],
       owed := s.owed[i := s.owed[i] - |s.toTx[i]|])
  }

  lemma SubmitTxAddrs(s: State, i: nat)
    requires Shape(s) && i < |s.xs| && |s.toTx[i]| <= s.xs[i].tx.held
    ensures var s', moved := SubmitTx(s, i), AddrsOf(s.toTx[i]);
      && Shape(s')
      && Addrs(s, ToTx(i)) == moved + Addrs(s', ToTx(i))
      && Addrs(s', Tx(i)) == Addrs(s, Tx(i)) + moved
      && forall r :: r != ToTx(i) && r != Tx(i) ==> Addrs(s', r) == Addrs(s, r)
  {
    assert Shape(SubmitTx(s, i));
  }

  lemma SubmitTxContent(s: State, i: nat)
    requires Shape(s) && ContentOk(s) && i < |s.xs| && |s.toTx[i]| <= s.xs[i].tx.held
    requires Reads(s.mem, s.xs[i].buffer, s.toTx[i]) == Reads(s.mem, s.xs[s.src].buffer, s.toTx[i])
    ensures Shape(SubmitTx(s, i)) && ContentOk(SubmitTx(s, i))
  {
    hide FrameOf;
    var s' := SubmitTx(s, i);
    assert Shape(s');
    assert ContentAt(s, i);
    ReadsSplit(s.mem, s.xs[i].buffer, s.xs[i].tx.queue, s.toTx[i]);
    assert Reads(s.mem, s.xs[s.src].buffer, []) == [];
    LocalStepContent(s, s', i);
  }

  lemma {:induction false} SubmitTxKeepsInv(s: State, at: seq<Place>, i: nat) returns (at': seq<Place>)
    requires Inv(s, at) && i < |s.xs| && |s.toTx[i]| <= s.xs[i].tx.held
    requires Reads(s.mem, s.xs[i].buffer, s.toTx[i]) == Reads(s.mem, s.xs[s.src].buffer, s.toTx[i])
    ensures Inv(SubmitTx(s, i), at')
  {
    hide FrameOf, PlacesOk, OwnersOk, ContentOk, Addrs;
    var s' := SubmitTx(s, i);
    SubmitTxAddrs(s, i);
    SubmitTxContent(s, i);
    at' := MoveRun(s, s', at, ToTx(i), AddrsOf(s.toTx[i]), Tx(i));
  }

  // ---------------------------------------------------------------------------
  // A single interface

  /** complete_tx_1if copies completed addresses straight to the fill ring. */
  function SubmitComp(s: State): State
    requires |s.xs| == 1 && s.xs[0].fq.Ok() && |s.comp| <= s.xs[0].fq.held
  {
    s.(xs := [s.xs[0].(fq := Fifo.Submit(s.xs[0].fq, s.comp))], comp := [])
  }

  lemma {:induction false} SubmitCompKeepsInv(s: State, at: seq<Place>) returns (at': seq<Place>)
    requires Inv(s, at) && |s.xs| == 1 && |s.comp| <= s.xs[0].fq.held
    ensures Inv(SubmitComp(s), at')
  {
    hide FrameOf, PlacesOk, OwnersOk;
    var s' := SubmitComp(s);
    assert s'.xs == s.xs[0 := s'.xs[0]];
    assert Shape(s');
    forall k | 0 <= k < |s.comp| ensures Owner(FrameOf(s.mem.frameSize, s.comp[k])) == 0 {
      SortingOwner(s, at, k);
    }
    at' := MoveRun(s, s', at, Sorting, s.comp, Fill(0));
    assert ContentOk(s') by {
      hide Addrs, PlacesOk, OwnersOk, OrderOk, AccountsOk;
      assert ContentAt(s, 0);
      LocalStepContent(s, s', 0);
    }
  }

  /** With one socket, completed frames fit in its fill ring. */
  lemma {:induction false} FillNeverShortOne(s: State, at: seq<Place>)
    requires Inv(s, at) && |s.xs| == 1
    ensures |s.xs[0].fq.queue| + |s.comp| <= FILL_SIZE
  {
    hide FrameOf;
    var a, b := Holds(s)(Fill(0)), Holds(s)(Sorting);
    assert NoDup(a) && NoDup(b);
    forall j, k | 0 <= j < k < |a + b| ensures (a + b)[j] != (a + b)[k] {
      assert at[(a + b)[j]] == if j < |a| then Fill(0) else Sorting;
      assert at[(a + b)[k]] == if k < |a| then Fill(0) else Sorting;
    }
    DistinctInWindow(a + b, 0, FRAMES_PER_SOCKET);
  }

  // ---------------------------------------------------------------------------
  // Start

  /** xsk_configure_socket fills the ring of socket i with its own frames. */
  function InitialFill(i: nat, frameSize: nat): (r: seq<nat>)
    ensures |r| == FRAMES_PER_SOCKET
  {
    seq(FRAMES_PER_SOCKET, k requires 0 <= k < FRAMES_PER_SOCKET => (i * FRAMES_PER_SOCKET + k) * frameSize)
  }

  function InitialSocket(i: nat, buffer: nat, frameSize: nat): Socket {
    Socket(buffer, Fifo.Prod(FILL_SIZE, InitialFill(i, frameSize), 0), Fifo.Cons(RING_SIZE, [], 0, 0),
           Fifo.Prod(RING_SIZE, [], 0), Fifo.Cons(RING_SIZE, [], 0, 0), 0, 0, 0, [], [])
  }

  function Repeat<T>(n: nat, v: T): (r: seq<T>)
    ensures |r| == n && forall i :: 0 <= i < n ==> r[i] == v
  {
    seq(n, _ => v)
  }

  /** xsknf_init: every frame is in its owner's fill ring. */
  function InitialState(buffers: seq<nat>, mem: Memory): State {
    var n := |buffers|;
    State(seq(n, i requires 0 <= i < n => InitialSocket(i, buffers[i], mem.frameSize)), mem, 0, [], [],
          Repeat(n, []), [], Repeat(n, []), Repeat(n, 0), 0, Repeat(n, []), Repeat(n, 0), Repeat(n, []), Repeat(n, 0))
  }

  ghost function InitialPlaces(n: nat): (at: seq<Place>)
    ensures |at| == n * FRAMES_PER_SOCKET
    ensures forall f :: 0 <= f < |at| ==> at[f] == Fill(Owner(f))
  {
    seq(n * FRAMES_PER_SOCKET, f requires 0 <= f < n * FRAMES_PER_SOCKET => Fill(Owner(f)))
  }

  lemma InitialFrames(i: nat, frameSize: nat, k: nat)
    requires frameSize > 0 && k < FRAMES_PER_SOCKET
    ensures FrameOf(frameSize, InitialFill(i, frameSize)[k]) == i * FRAMES_PER_SOCKET + k
    ensures Owner(i * FRAMES_PER_SOCKET + k) == i
  {
    DivModUnique((i * FRAMES_PER_SOCKET + k) * frameSize, frameSize, i * FRAMES_PER_SOCKET + k, 0);
  }

  lemma InitialPlaced(buffers: seq<nat>, mem: Memory)
    requires buffers != []
    ensures Shape(InitialState(buffers, mem)) && PlacesOk(InitialState(buffers, mem), InitialPlaces(|buffers|))
  {
    var s, at := InitialState(buffers, mem), InitialPlaces(|buffers|);
    var h := Holds(s);
    forall p, k | 0 <= k < |h(p)| ensures h(p)[k] < |at| && at[h(p)[k]] == p && p.Fill? && h(p)[k] == p.i * FRAMES_PER_SOCKET + k {
      assert p.Fill? && p.i < |buffers|;
      InitialFrames(p.i, mem.frameSize, k);
    }
    forall f | 0 <= f < |at| ensures f in h(at[f]) {
      var i, k := f / FRAMES_PER_SOCKET, f % FRAMES_PER_SOCKET;
      InitialFrames(i, mem.frameSize, k);
      assert h(Fill(i))[k] == f;
    }
  }

  lemma {:induction false} InitialInv(buffers: seq<nat>, mem: Memory)
    requires buffers != []
    ensures Inv(InitialState(buffers, mem), InitialPlaces(|buffers|)) && Idle(InitialState(buffers, mem))
  {
    hide FrameOf;
    var s := InitialState(buffers, mem);
    InitialPlaced(buffers, mem);
    forall i | 0 <= i < |s.xs| ensures ContentAt(s, i) {
      assert Reads(s.mem, buffers[i], []) == [];
    }
  }
}
