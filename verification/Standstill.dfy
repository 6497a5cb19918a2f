/** A standstill of process_batch is real: a run of worker and kernel steps from the
    initial state of two sockets to one where the retry loop can never end.  Replies to
    packets of interface 1 fill its tx ring and the kernel's queue, none of them being
    reported yet; then a packet of interface 0 is to go out on interface 1. */
module Standstill {
  import opened Words
  import opened Frames
  import opened Steps
  import opened Engine
  import Fifo

  /** The operations of process_batch that the run needs, and kernel steps. */
  datatype Move =
    | Kernel(e: KernelStep)
    | Begin(i: nat)                                 // process_batch(i): nothing to complete
    | Receive
    | Process(verdict: nat, pkt: Packet)
    | Release
    | Received                                      // rx_npkts += rcvd
    | Reserve
    | Send
    | Queued                                        // outstanding_tx += ntx

  ghost predicate CanDo(s: State, m: Move) {
    && Shape(s)
    && var x := s.xs[s.src];
    && match m
       case Kernel(e) => Enabled(s, e) && Reserving(s, e)
       case Begin(i) => i < |s.xs| && Idle(s) && s.xs[i].cq.queue == []
       case Receive => true
       case Process(verdict, _) => s.batch != [] && verdict < |s.xs|
       case Release => 1 <= x.rx.out
       case Received => true
       case Reserve => |x.tx.queue| + x.tx.held + 1 <= x.tx.size
       case Send => |s.toTx[s.src]| <= x.tx.held
       case Queued => true
  }

  function Do(s: State, m: Move): State
    requires CanDo(s, m)
  {
    match m
    case Kernel(e) => Next(s, e)
    case Begin(i) => s.(src := i)
    case Receive => PeekRx(s, 1).0
    case Process(verdict, pkt) => ProcessOne(s, verdict, pkt)
    case Release => ReleaseRx(s, 1)
    case Received => Count(s, s.src, 0, 1, 0)
    case Reserve => ReserveTx(s, s.src, 1).0
    case Send => SubmitTx(s, s.src)
    case Queued => Count(s, s.src, 0, 0, 1)
  }

  lemma MoveKeepsInv(s: State, at: seq<Place>, m: Move) returns (at': seq<Place>)
    requires Inv(s, at) && CanDo(s, m)
    ensures Inv(Do(s, m), at')
  {
    hide Inv, PeekRx, ProcessOne, ReleaseRx, Count, ReserveTx, SubmitTx, Next;
    at' := at;
    match m {
      case Kernel(e) => at' := KernelKeepsInv(s, at, e);
      case Begin(i) => StartKeepsInv(s, at, i);
      case Receive => at' := PeekRxKeepsInv(s, at, 1);
      case Process(verdict, pkt) => at' := ProcessOneKeepsInv(s, at, verdict, pkt);
      case Release => ReleaseRxKeepsInv(s, at, 1);
      case Received => CountKeepsInv(s, at, s.src, 0, 1, 0);
      case Reserve => ReserveTxKeepsInv(s, at, s.src, 1);
      case Send => at' := SubmitTxKeepsInv(s, at, s.src);
      case Queued => CountKeepsInv(s, at, s.src, 0, 0, 1);
    }
  }

  // ---------------------------------------------------------------------------
  // Runs

  /** The state after a list of moves, None when one of them could not be made. */
  ghost function Then(s: State, ms: seq<Move>): Option<State>
    decreases |ms|
  {
    if ms == [] then Some(s)
    else
      var mid := Then(s, ms[..|ms| - 1]);
      var m := ms[|ms| - 1];
      if mid.Some? && CanDo(mid.value, m) then Some(Do(mid.value, m)) else None
  }

  lemma OneMove(s: State, ms: seq<Move>, mid: State, m: Move)
    requires Then(s, ms) == Some(mid) && CanDo(mid, m)
    ensures Then(s, ms + [m]) == Some(Do(mid, m))
  {
    hide CanDo, Do;
    assert (ms + [m])[..|ms + [m]| - 1] == ms;
  }

  lemma {:induction false} RunKeepsInv(s: State, at: seq<Place>, ms: seq<Move>) returns (at': seq<Place>)
    requires Inv(s, at) && Then(s, ms).Some?
    ensures Inv(Then(s, ms).value, at')
    decreases |ms|
  {
    hide Inv, Do, CanDo;
    at' := at;
    if ms != [] {
      at' := RunKeepsInv(s, at, ms[..|ms| - 1]);
      at' := MoveKeepsInv(Then(s, ms[..|ms| - 1]).value, at', ms[|ms| - 1]);
    }
  }

  // ---------------------------------------------------------------------------
  // Counting frames along a run

  /** How many entries the queues of a socket hold, and what the worker has out. */
  datatype Sizes = Sizes(fill: nat, kfill: nat, rx: nat, out: nat, tx: nat, held: nat, ktx: nat, cq: nat, outstanding: int)

  function SizesOf(x: Socket): Sizes {
    Sizes(|x.fq.queue|, |x.kfill|, |x.rx.queue|, x.rx.out, |x.tx.queue|, x.tx.held, |x.ktx|, |x.cq.queue|, x.outstanding)
  }

  /** Two sockets with these sizes; the worker is at socket i with `batch` packets
      to process, `queued` descriptors for socket 1 and `owed` still to be booked there. */
  ghost predicate At(s: State, i: nat, z: seq<Sizes>, batch: nat, queued: nat, owed: int) {
    && Shape(s) && s.src == i && |s.xs| == |z| == 2
    && Sized(s.xs[0], z[0]) && Sized(s.xs[1], z[1])
    && |s.batch| == batch && s.comp == [] && s.toDrop == [] && s.toFill[0] == s.toFill[1] == []
    && s.toTx[0] == [] && |s.toTx[1]| == queued && s.owed[0] == 0 && s.owed[1] == owed
  }

  ghost predicate Sized(x: Socket, z: Sizes) {
    SizesOf(x) == z && x.fq.held == 0 && x.rx.known == 0 && x.cq.out == 0
  }

  lemma TakeFillAt(s: State, i: nat, z: seq<Sizes>)
    requires At(s, i, z, 0, 0, 0) && i < 2 && z[i].fill > 0
    ensures CanDo(s, Kernel(TakeFill(i)))
    ensures At(Do(s, Kernel(TakeFill(i))), i, z[i := z[i].(fill := z[i].fill - 1, kfill := z[i].kfill + 1)], 0, 0, 0)
  {
    hide FrameOf, Reads;
    var s' := Do(s, Kernel(TakeFill(i)));
    assert Sized(s'.xs[i], z[i].(fill := z[i].fill - 1, kfill := z[i].kfill + 1));
  }

  function Arrives(s: State, i: nat, pkt: Packet): Move
    requires i < |s.xs| && s.xs[i].kfill != []
  {
    Kernel(PutRx(i, 0, s.xs[i].kfill[0], pkt))
  }

  lemma ArrivesAt(s: State, i: nat, z: seq<Sizes>, pkt: Packet)
    requires At(s, i, z, 0, 0, 0) && i < 2 && z[i].kfill == 1 && z[i].rx == z[i].out == 0
    ensures s.xs[i].kfill != [] && CanDo(s, Arrives(s, i, pkt))
    ensures At(Do(s, Arrives(s, i, pkt)), i, z[i := z[i].(kfill := 0, rx := 1)], 0, 0, 0)
  {
    hide FrameOf, Reads;
    var s' := Do(s, Arrives(s, i, pkt));
    assert Sized(s'.xs[i], z[i].(kfill := 0, rx := 1));
  }

  lemma ReceiveAt(s: State, i: nat, z: seq<Sizes>)
    requires At(s, i, z, 0, 0, 0) && i < 2 && z[i].rx == 1 && z[i].out == 0
    ensures CanDo(s, Receive) && At(Do(s, Receive), i, z[i := z[i].(out := 1)], 1, 0, 0)
  {
    hide FrameOf, Reads;
    assert Sized(Do(s, Receive).xs[i], z[i].(out := 1));
  }

  /** A packet arrives on socket i and the worker, at work there, peeks it. */
  lemma Arrival(s0: State, ms: seq<Move>, s: State, i: nat, z: seq<Sizes>, pkt: Packet)
    returns (ms': seq<Move>, s': State)
    requires Then(s0, ms) == Some(s) && At(s, i, z, 0, 0, 0) && i < 2 && |z| == 2
    requires z[i].fill > 0 && z[i].kfill == z[i].rx == z[i].out == 0
    ensures Then(s0, ms') == Some(s')
    ensures At(s', i, z[i := z[i].(fill := z[i].fill - 1, rx := 1, out := 1)], 1, 0, 0)
  {
    hide Then, FrameOf, At, Do, CanDo, Arrives;
    TakeFillAt(s, i, z);
    OneMove(s0, ms, s, Kernel(TakeFill(i)));
    var z1 := z[i := z[i].(fill := z[i].fill - 1, kfill := 1)];
    var s1 := Do(s, Kernel(TakeFill(i)));
    assert |s1.xs| == 2 by { AtSockets(s1, i, z1, 0, 0, 0); }
    ArrivesAt(s1, i, z1, pkt);
    var m := Arrives(s1, i, pkt);
    var ms1 := ms + [Kernel(TakeFill(i))];
    OneMove(s0, ms1, s1, m);
    var z2 := z1[i := z1[i].(kfill := 0, rx := 1)];
    var s2 := Do(s1, m);
    ReceiveAt(s2, i, z2);
    OneMove(s0, ms1 + [m], s2, Receive);
    ms', s' := ms1 + [m] + [Receive], Do(s2, Receive);
    assert z2[i := z2[i].(out := 1)] == z[i := z[i].(fill := z[i].fill - 1, rx := 1, out := 1)];
  }

  lemma AtSockets(s: State, i: nat, z: seq<Sizes>, batch: nat, queued: nat, owed: int)
    requires At(s, i, z, batch, queued, owed)
    ensures |s.xs| == |z| == 2 && s.src == i
  {
  }

  lemma ProcessAt(s: State, i: nat, z: seq<Sizes>, pkt: Packet)
    requires At(s, i, z, 1, 0, 0) && i < 2
    ensures CanDo(s, Process(1, pkt)) && At(Do(s, Process(1, pkt)), i, z, 0, 1, 0)
  {
    hide FrameOf, Reads;
  }

  lemma ReleaseAt(s: State, i: nat, z: seq<Sizes>)
    requires At(s, i, z, 0, 1, 0) && i < 2 && z[i].rx == z[i].out == 1
    ensures CanDo(s, Release) && At(Do(s, Release), i, z[i := z[i].(rx := 0, out := 0)], 0, 1, 0)
    ensures CanDo(Do(s, Release), Received) && At(Do(Do(s, Release), Received), i, z[i := z[i].(rx := 0, out := 0)], 0, 1, 0)
  {
    hide FrameOf, Reads;
    assert Sized(Do(s, Release).xs[i], z[i].(rx := 0, out := 0));
    assert Sized(Do(Do(s, Release), Received).xs[i], z[i].(rx := 0, out := 0));
  }

  /** It is forwarded to socket 1. */
  lemma Handling(s0: State, ms: seq<Move>, s: State, i: nat, z: seq<Sizes>, pkt: Packet)
    returns (ms': seq<Move>, s': State)
    requires Then(s0, ms) == Some(s) && At(s, i, z, 1, 0, 0) && i < 2 && |z| == 2 && z[i].rx == z[i].out == 1
    ensures Then(s0, ms') == Some(s')
    ensures At(s', i, z[i := z[i].(rx := 0, out := 0)], 0, 1, 0)
  {
    hide Then, FrameOf, At, Do, CanDo;
    ProcessAt(s, i, z, pkt);
    OneMove(s0, ms, s, Process(1, pkt));
    var ms1, s1 := ms + [Process(1, pkt)], Do(s, Process(1, pkt));
    ReleaseAt(s1, i, z);
    OneMove(s0, ms1, s1, Release);
    OneMove(s0, ms1 + [Release], Do(s1, Release), Received);
    ms', s' := ms1 + [Release] + [Received], Do(Do(s1, Release), Received);
  }

  /** At socket 1 it is put in the tx ring. */
  lemma Sending(s0: State, ms: seq<Move>, s: State, z: seq<Sizes>)
    returns (ms': seq<Move>, s': State)
    requires Then(s0, ms) == Some(s) && At(s, 1, z, 0, 1, 0) && z[1].tx < RING_SIZE && z[1].held == 0
    ensures Then(s0, ms') == Some(s')
    ensures At(s', 1, z[1 := z[1].(tx := z[1].tx + 1, outstanding := z[1].outstanding + 1)], 0, 0, 0)
  {
    hide Then, FrameOf;
    var s1 := Do(s, Reserve);
    OneMove(s0, ms, s, Reserve);
    assert At(s1, 1, z[1 := z[1].(held := 1)], 0, 1, 0);
    var s2 := Do(s1, Send);
    OneMove(s0, ms + [Reserve], s1, Send);
    assert At(s2, 1, z[1 := z[1].(tx := z[1].tx + 1)], 0, 0, -1);
    s' := Do(s2, Queued);
    ms' := ms + [Reserve] + [Send] + [Queued];
    OneMove(s0, ms + [Reserve] + [Send], s2, Queued);
  }

  // ---------------------------------------------------------------------------
  // The run

  /** Of the frames of socket 1, `t` are in its tx ring and `k` with the kernel. */
  function Flooded(t: nat, k: nat): seq<Sizes>
    requires t + k <= FRAMES_PER_SOCKET
  {
    [Sizes(FRAMES_PER_SOCKET, 0, 0, 0, 0, 0, 0, 0, 0), Sizes(FRAMES_PER_SOCKET - t - k, 0, 0, 0, t, 0, k, 0, t + k)]
  }

  /** process_batch(1) with one packet received and sent back out. */
  lemma Round(s0: State, ms: seq<Move>, s: State, t: nat, k: nat, pkt: Packet)
    returns (ms': seq<Move>, s': State)
    requires t < RING_SIZE && k <= RING_SIZE
    requires Then(s0, ms) == Some(s) && s.src < 2 && At(s, s.src, Flooded(t, k), 0, 0, 0)
    ensures Then(s0, ms') == Some(s') && s'.src == 1 && At(s', 1, Flooded(t + 1, k), 0, 0, 0)
  {
    hide Then, Do, FrameOf;
    var s1: State;
    ms', s1 := Begins(s0, ms, s, 1, Flooded(t, k));
    ms', s1 := Arrival(s0, ms', s1, 1, Flooded(t, k), pkt);
    var z := Flooded(t, k)[1 := Flooded(t, k)[1].(fill := FRAMES_PER_SOCKET - t - k - 1, rx := 1, out := 1)];
    ms', s1 := Handling(s0, ms', s1, 1, z, pkt);
    z := z[1 := z[1].(rx := 0, out := 0)];
    ms', s' := Sending(s0, ms', s1, z);
    assert z[1 := z[1].(tx := z[1].tx + 1, outstanding := z[1].outstanding + 1)] == Flooded(t + 1, k);
  }

  lemma Begins(s0: State, ms: seq<Move>, s: State, i: nat, z: seq<Sizes>)
    returns (ms': seq<Move>, s': State)
    requires Then(s0, ms) == Some(s) && s.src < 2 && i < 2 && At(s, s.src, z, 0, 0, 0) && z[i].cq == 0
    ensures Then(s0, ms') == Some(s') && At(s', i, z, 0, 0, 0)
  {
    hide Then, FrameOf;
    OneMove(s0, ms, s, Begin(i));
    ms', s' := ms + [Begin(i)], Do(s, Begin(i));
  }

  /** The kernel takes the packet from the tx ring, and reports nothing yet. */
  lemma Taking(s0: State, ms: seq<Move>, s: State, k: nat)
    returns (ms': seq<Move>, s': State)
    requires k < RING_SIZE && Then(s0, ms) == Some(s) && At(s, 1, Flooded(1, k), 0, 0, 0)
    ensures Then(s0, ms') == Some(s') && s'.src == 1 && At(s', 1, Flooded(0, k + 1), 0, 0, 0)
  {
    hide Then, FrameOf;
    var m := Kernel(TakeTx(1));
    OneMove(s0, ms, s, m);
    ms', s' := ms + [m], Do(s, m);
  }

  /** k packets in the kernel's queue. */
  lemma {:induction false} Queueing(s0: State, k: nat, pkt: Packet) returns (ms: seq<Move>, s: State)
    requires k <= RING_SIZE && s0.src == 0 && At(s0, 0, Flooded(0, 0), 0, 0, 0)
    ensures Then(s0, ms) == Some(s) && s.src < 2 && At(s, s.src, Flooded(0, k), 0, 0, 0)
    decreases k
  {
    hide At, Do;
    if k == 0 {
      ms, s := [], s0;
    } else {
      ms, s := Queueing(s0, k - 1, pkt);
      ms, s := Round(s0, ms, s, 0, k - 1, pkt);
      ms, s := Taking(s0, ms, s, k - 1);
    }
  }

  /** Then t packets in the tx ring. */
  lemma {:induction false} Filling(s0: State, t: nat, pkt: Packet) returns (ms: seq<Move>, s: State)
    requires t <= RING_SIZE && s0.src == 0 && At(s0, 0, Flooded(0, 0), 0, 0, 0)
    ensures Then(s0, ms) == Some(s) && s.src < 2 && At(s, s.src, Flooded(t, RING_SIZE), 0, 0, 0)
    decreases t
  {
    hide At, Do, Then;
    if t == 0 {
      ms, s := Queueing(s0, RING_SIZE, pkt);
    } else {
      ms, s := Filling(s0, t - 1, pkt);
      ms, s := Round(s0, ms, s, t - 1, RING_SIZE, pkt);
    }
  }

  /** What the retry loop on socket 1 can never get past, while socket 0 is served. */
  ghost predicate Stuck(s: State) {
    && |s.xs| == 2 && s.src == 0 && |s.toTx| == 2 && |s.toTx[1]| == 1
    && s.xs[1].outstanding + |s.toTx[1]| > 2 * RING_SIZE
  }

  /** Such a state is reached, whatever the packets and the memory: with every
      invariant of the worker, no ring operation half done, a kernel that sets
      completion slots aside, and one packet left to send. */
  lemma StandstillReached(b0: nat, b1: nat, mem: Memory, pkt: Packet) returns (ms: seq<Move>, s: State, at: seq<Place>)
    ensures Then(InitialState([b0, b1], mem), ms) == Some(s)
    ensures Inv(s, at) && RoomOk(s) && Quiet(s) && Stuck(s)
  {
    hide Then, Do, Inv, At;
    var s0 := InitialState([b0, b1], mem);
    StartSizes(b0, b1, mem);
    ms, s := Filling(s0, RING_SIZE, pkt);
    ms, s := Begins(s0, ms, s, 0, Flooded(RING_SIZE, RING_SIZE));
    ms, s := Arrival(s0, ms, s, 0, Flooded(RING_SIZE, RING_SIZE), pkt);
    var z := Flooded(RING_SIZE, RING_SIZE);
    z := z[0 := z[0].(fill := FRAMES_PER_SOCKET - 1, rx := 1, out := 1)];
    ms, s := Handling(s0, ms, s, 0, z, pkt);
    z := z[0 := z[0].(rx := 0, out := 0)];
    EndSizes(s, z);
    InitialInv([b0, b1], mem);
    at := RunKeepsInv(s0, InitialPlaces(2), ms);
  }

  lemma StartSizes(b0: nat, b1: nat, mem: Memory)
    ensures At(InitialState([b0, b1], mem), 0, Flooded(0, 0), 0, 0, 0)
  {
  }

  lemma EndSizes(s: State, z: seq<Sizes>)
    requires At(s, 0, z, 0, 1, 0) && z[0].held == z[1].held == z[0].out == z[1].out == 0
    requires z[0].ktx + z[0].cq <= RING_SIZE && z[1].ktx + z[1].cq <= RING_SIZE && z[1].outstanding == 2 * RING_SIZE
    ensures RoomOk(s) && Quiet(s) && Stuck(s)
  {
  }
}
