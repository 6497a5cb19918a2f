/** UMEM frames in circulation.  A State is one instant of a worker: its sockets
    with their four rings, the frames the kernel holds, the packet memory and the
    arrays of the batch being processed.  The invariant says where every frame is,
    who owns it and what every live frame contains. */
module Frames {
  import opened Words
  import opened Partition
  import Fifo

  const FRAMES_PER_SOCKET: nat := 4096
  const FILL_SIZE: nat := 4096    // XSK_RING_PROD__DEFAULT_NUM_DESCS * 2
  const RING_SIZE: nat := 2048    // rx, tx and completion rings

  type Packet = seq<u8>

  datatype Desc = Desc(addr: nat, len: nat)

  /** A descriptor taken from a tx ring, with the bytes to be put on the wire. */
  datatype Sending = Sending(desc: Desc, pkt: Packet)

  /** A packet handed to a tx queue: the `no`-th arrival on socket `src`. */
  datatype Out = Out(src: nat, no: nat, pkt: Packet)

  datatype Socket = Socket(
    buffer: nat,
    fq: Fifo.Prod<nat>, rx: Fifo.Cons<Desc>, tx: Fifo.Prod<Desc>, cq: Fifo.Cons<nat>,
    outstanding: int, rxPkts: nat, txPkts: nat,
    kfill: seq<nat>,          // taken from the fill ring, waiting for a packet
    ktx: seq<Sending>)        // taken from the tx ring, not completed

  /** Packet bytes by buffer and frame. */
  datatype MemoryRaw = Memory(frameSize: nat, bytes: map<(nat, nat), Packet>)
  type Memory = m: MemoryRaw | m.frameSize > 0 witness Memory(1, map[])

  function Write(m: Memory, buffer: nat, f: nat, pkt: Packet): Memory {
    m.(bytes := m.bytes[(buffer, f) := pkt])
  }

  datatype State = State(
    xs: seq<Socket>,
    mem: Memory,
    src: nat,                 // socket whose batch is being processed
    batch: seq<Desc>,         // peeked from its rx ring, not processed yet
    comp: seq<nat>,           // peeked from a completion ring, not sorted yet
    toFill: seq<seq<nat>>, toDrop: seq<Desc>, toTx: seq<seq<Desc>>,
    owed: seq<int>,           // tx bookkeeping still to be done, by socket
    drops: nat,
    arrived: seq<seq<Packet>>,   // everything received, by socket
    done: seq<nat>,              // how much of it was processed
    forwarded: seq<seq<Out>>,    // everything handed to a tx queue, by socket
    wire: seq<nat>)              // how much of it the kernel took

  /** The places a frame can be in. */
  datatype Place =
    | Fill(i: nat) | KernelRx(i: nat) | Rx(i: nat) | Tx(i: nat) | KernelTx(i: nat) | Comp(i: nat)
    | Batch | Sorting | ToFill(i: nat) | ToDrop | ToTx(i: nat)

  function AddrsOf(ds: seq<Desc>): (r: seq<nat>)
    ensures |r| == |ds| && forall k :: 0 <= k < |ds| ==> r[k] == ds[k].addr
  {
    seq(|ds|, k requires 0 <= k < |ds| => ds[k].addr)
  }

  function SendingAddrs(es: seq<Sending>): (r: seq<nat>)
    ensures |r| == |es| && forall k :: 0 <= k < |es| ==> r[k] == es[k].desc.addr
  {
    seq(|es|, k requires 0 <= k < |es| => es[k].desc.addr)
  }

  /** Ring sizes, and one array slot per interface. */
  ghost predicate Shape(s: State) {
    && s.src < |s.xs|
    && |s.toFill| == |s.toTx| == |s.owed| == |s.arrived| == |s.done| == |s.forwarded| == |s.wire| == |s.xs|
    && forall i :: 0 <= i < |s.xs| ==> SocketOk(s.xs[i])
  }

  ghost predicate SocketOk(x: Socket) {
    && x.fq.Ok() && x.rx.Ok() && x.tx.Ok() && x.cq.Ok()
    && x.fq.size == FILL_SIZE && x.rx.size == x.tx.size == x.cq.size == RING_SIZE
  }

  /** The addresses held in a place.  Entries that were peeked belong to the
      batch, not to their ring. */
  ghost function Addrs(s: State, p: Place): seq<nat>
    requires Shape(s)
  {
    match p
    case Fill(i) => if i < |s.xs| then s.xs[i].fq.queue else []
    case KernelRx(i) => if i < |s.xs| then s.xs[i].kfill else []
    case Rx(i) => if i < |s.xs| then AddrsOf(s.xs[i].rx.Unread()) else []
    case Tx(i) => if i < |s.xs| then AddrsOf(s.xs[i].tx.queue) else []
    case KernelTx(i) => if i < |s.xs| then SendingAddrs(s.xs[i].ktx) else []
    case Comp(i) => if i < |s.xs| then s.xs[i].cq.Unread() else []
    case Batch => AddrsOf(s.batch)
    case Sorting => s.comp
    case ToFill(i) => if i < |s.xs| then s.toFill[i] else []
    case ToDrop => AddrsOf(s.toDrop)
    case ToTx(i) => if i < |s.xs| then AddrsOf(s.toTx[i]) else []
  }

  /** The frame that contains an address. */
  function FrameOf(frameSize: nat, addr: nat): nat
    requires frameSize > 0
  {
    addr / frameSize
  }

  function FramesOf(addrs: seq<nat>, frameSize: nat): (r: seq<nat>)
    requires frameSize > 0
    ensures |r| == |addrs| && forall k :: 0 <= k < |addrs| ==> r[k] == FrameOf(frameSize, addrs[k])
  {
    seq(|addrs|, k requires 0 <= k < |addrs| => FrameOf(frameSize, addrs[k]))
  }

  /** The frames held in every place. */
  ghost function Holds(s: State): Place -> seq<nat>
    requires Shape(s)
  {
    p => FramesOf(Addrs(s, p), s.mem.frameSize)
  }

  /** `at` tells for every frame the one place that holds it. */
  ghost predicate PlacesOk(s: State, at: seq<Place>)
    requires Shape(s)
  {
    |at| == |s.xs| * FRAMES_PER_SOCKET && Placed(Holds(s), at)
  }

  function Owner(f: nat): nat { f / FRAMES_PER_SOCKET }

  /** Places that may only hold frames of one socket. */
  ghost predicate OwnerOk(p: Place, f: nat, src: nat) {
    match p
    case Fill(i) => Owner(f) == i
    case KernelRx(i) => Owner(f) == i
    case Rx(i) => Owner(f) == i
    case ToFill(i) => Owner(f) == i
    case Batch => Owner(f) == src
    case ToDrop => Owner(f) == src
    case _ => true
  }

  ghost predicate OwnersOk(s: State, at: seq<Place>) {
    forall f :: 0 <= f < |at| ==> OwnerOk(at[f], f, s.src)
  }

  /** The first `len` bytes at a descriptor, in the given buffer. */
  function Read(m: Memory, buffer: nat, d: Desc): Packet {
    var key := (buffer, FrameOf(m.frameSize, d.addr));
    var bytes := if key in m.bytes then m.bytes[key] else [];
    bytes[..Min(d.len, |bytes|)]
  }

  function Reads(m: Memory, buffer: nat, ds: seq<Desc>): (r: seq<Packet>)
    ensures |r| == |ds| && forall k :: 0 <= k < |ds| ==> r[k] == Read(m, buffer, ds[k])
  {
    seq(|ds|, k requires 0 <= k < |ds| => Read(m, buffer, ds[k]))
  }

  function Pkts(outs: seq<Out>): (r: seq<Packet>)
    ensures |r| == |outs| && forall k :: 0 <= k < |outs| ==> r[k] == outs[k].pkt
  {
    seq(|outs|, k requires 0 <= k < |outs| => outs[k].pkt)
  }

  /** Received and not processed: the rest of the batch, then the rx ring. */
  ghost predicate RxContent(m: Memory, x: Socket, batch: seq<Desc>, arrived: seq<Packet>, done: nat)
    requires SocketOk(x)
  {
    && done <= |arrived|
    && arrived[done..] == Reads(m, x.buffer, batch) + Reads(m, x.buffer, x.rx.Unread())
  }

  /** What was forwarded is on the wire, then in the tx ring, then in the batch,
      in this order and with these bytes; bytes being sent stay put. */
  ghost predicate TxContent(m: Memory, x: Socket, srcBuffer: nat, toTx: seq<Desc>, forwarded: seq<Out>, wire: nat) {
    && wire <= |forwarded|
    && Pkts(forwarded[wire..]) == Reads(m, x.buffer, x.tx.queue) + Reads(m, srcBuffer, toTx)
    && Stable(m, x.buffer, x.ktx)
  }

  ghost predicate Stable(m: Memory, buffer: nat, ktx: seq<Sending>) {
    forall k :: 0 <= k < |ktx| ==> Read(m, buffer, ktx[k].desc) == ktx[k].pkt
  }

  ghost function BatchOf(s: State, i: nat): seq<Desc> {
    if i == s.src then s.batch else []
  }

  ghost predicate ContentAt(s: State, i: nat)
    requires Shape(s) && i < |s.xs|
  {
    && RxContent(s.mem, s.xs[i], BatchOf(s, i), s.arrived[i], s.done[i])
    && TxContent(s.mem, s.xs[i], s.xs[s.src].buffer, s.toTx[i], s.forwarded[i], s.wire[i])
  }

  ghost predicate ContentOk(s: State)
    requires Shape(s)
  {
    forall i :: 0 <= i < |s.xs| ==> ContentAt(s, i)
  }

  /** Packets of one pair of sockets are forwarded in arrival order. */
  ghost predicate InOrder(outs: seq<Out>, done: seq<nat>) {
    && (forall a :: 0 <= a < |outs| ==> outs[a].src < |done| && outs[a].no < done[outs[a].src])
    && (forall a, b :: 0 <= a < b < |outs| && outs[a].src == outs[b].src ==> outs[a].no < outs[b].no)
  }

  ghost predicate OrderOk(s: State)
    requires Shape(s)
  {
    forall i :: 0 <= i < |s.xs| ==> InOrder(s.forwarded[i], s.done)
  }

  /** `outstanding_tx` counts the frames between tx submission and release. */
  ghost predicate AccountsOk(s: State)
    requires Shape(s)
  {
    forall i :: 0 <= i < |s.xs| ==>
      s.xs[i].outstanding == |s.xs[i].tx.queue| + |s.xs[i].ktx| + |s.xs[i].cq.queue| + s.owed[i]
  }

  ghost predicate Inv(s: State, at: seq<Place>) {
    && Shape(s) && PlacesOk(s, at) && OwnersOk(s, at) && ContentOk(s) && OrderOk(s) && AccountsOk(s)
  }

  // ---------------------------------------------------------------------------
  // Kernel steps

  /** The four things the kernel does to the rings: take a frame from a fill ring,
      put a received packet in a rx ring, take a packet from a tx ring, and report
      a sent frame.  Frames it holds may be used in any order. */
  datatype KernelStep =
    | TakeFill(i: nat)
    | PutRx(i: nat, k: nat, addr: nat, pkt: Packet)
    | TakeTx(i: nat)
    | PutComp(i: nat, k: nat)

  predicate Enabled(s: State, e: KernelStep)
  {
    && e.i < |s.xs|
    && var x := s.xs[e.i];
    && x.fq.Ok() && x.rx.Ok() && x.tx.Ok() && x.cq.Ok()
    && e.i < |s.arrived| && e.i < |s.wire|
    && match e
       case TakeFill(i) => x.fq.queue != []
       case PutRx(i, k, addr, pkt) =>
         k < |x.kfill| && FrameOf(s.mem.frameSize, addr) == FrameOf(s.mem.frameSize, x.kfill[k]) && |x.rx.queue| < x.rx.size
       case TakeTx(i) => x.tx.queue != []
       case PutComp(i, k) => k < |x.ktx| && |x.cq.queue| < x.cq.size
  }

  /** A kernel that takes a packet only with a completion slot set aside for it. */
  predicate Reserving(s: State, e: KernelStep) {
    e.TakeTx? && e.i < |s.xs| ==> |s.xs[e.i].ktx| + |s.xs[e.i].cq.queue| < RING_SIZE
  }

  ghost predicate RoomOk(s: State) {
    forall i :: 0 <= i < |s.xs| ==> |s.xs[i].ktx| + |s.xs[i].cq.queue| <= RING_SIZE
  }

  function Without<T>(xs: seq<T>, k: nat): seq<T>
    requires k < |xs|
  {
    xs[..k] + xs[k + 1..]
  }

  function Next(s: State, e: KernelStep): State
    requires Enabled(s, e)
  {
    var i := e.i;
    var x := s.xs[i];
    match e
    case TakeFill(_) =>
      var (fq, addr) := Fifo.Take(x.fq);
      s.(xs := s.xs[i := x.(fq := fq, kfill := x.kfill + [addr])])
    case PutRx(_, k, addr, pkt) =>
      s.(xs := s.xs[i := x.(kfill := Without(x.kfill, k), rx := Fifo.Put(x.rx, Desc(addr, |pkt|)))],
         mem := Write(s.mem, x.buffer, FrameOf(s.mem.frameSize, addr), pkt),
         arrived := s.arrived[i := s.arrived[i] + [pkt]])
    case TakeTx(_) =>
      var (tx, d) := Fifo.Take(x.tx);
      s.(xs := s.xs[i := x.(tx := tx, ktx := x.ktx + [Sending(d, Read(s.mem, x.buffer, d))])],
         wire := s.wire[i := s.wire[i] + 1])
    case PutComp(_, k) =>
      s.(xs := s.xs[i := x.(ktx := Without(x.ktx, k), cq := Fifo.Put(x.cq, x.ktx[k].desc.addr))])
  }

  /** Where the frame moved by a kernel step comes from and goes to. */
  ghost function From(e: KernelStep): Place {
    match e
    case TakeFill(i) => Fill(i)
    case PutRx(i, _, _, _) => KernelRx(i)
    case TakeTx(i) => Tx(i)
    case PutComp(i, _) => KernelTx(i)
  }

  ghost function To(e: KernelStep): Place {
    match e
    case TakeFill(i) => KernelRx(i)
    case PutRx(i, _, _, _) => Rx(i)
    case TakeTx(i) => KernelTx(i)
    case PutComp(i, _) => Comp(i)
  }

  ghost function Picked(e: KernelStep): nat {
    match e
    case PutRx(_, k, _, _) => k
    case PutComp(_, k) => k
    case _ => 0
  }

  /** Picking the k-th frame of a place. */
  ghost predicate MovesOne(s: State, s': State, p: Place, k: nat, q: Place) {
    && Shape(s) && Shape(s')
    && var all := Holds(s)(p);
    k < |all| && Moves(Holds(s), Holds(s'), p, all[..k], [all[k]], all[k + 1..], q)
  }

  lemma MovesByAddrs(s: State, s': State, p: Place, k: nat, q: Place, addr: nat)
    requires Shape(s) && Shape(s') && p != q && s'.mem.frameSize == s.mem.frameSize
    requires k < |Addrs(s, p)| && FrameOf(s.mem.frameSize, addr) == FrameOf(s.mem.frameSize, Addrs(s, p)[k])
    requires Addrs(s', p) == Without(Addrs(s, p), k)
    requires Addrs(s', q) == Addrs(s, q) + [addr]
    requires forall r :: r != p && r != q ==> Addrs(s', r) == Addrs(s, r)
    ensures MovesOne(s, s', p, k, q)
  {
    hide FrameOf, Addrs, Shape;
    var h, h' := Holds(s), Holds(s');
    assert h(p) == h(p)[..k] + [h(p)[k]] + h(p)[k + 1..];
    assert h'(p) == h(p)[..k] + h(p)[k + 1..];
    assert h'(q) == h(q) + [h(p)[k]];
    forall r | r != p && r != q ensures h'(r) == h(r) {
      assert Addrs(s', r) == Addrs(s, r);
    }
  }

  lemma KernelOtherAddrs(s: State, e: KernelStep, r: Place)
    requires Shape(s) && Enabled(s, e) && r != From(e) && r != To(e)
    ensures Shape(Next(s, e)) && Addrs(Next(s, e), r) == Addrs(s, r)
  {
    hide FrameOf, Read, Write;
  }

  ghost function MovedAddr(s: State, e: KernelStep): nat
    requires Enabled(s, e)
  {
    match e
    case TakeFill(i) => s.xs[i].fq.queue[0]
    case PutRx(i, k, addr, _) => addr
    case TakeTx(i) => s.xs[i].tx.queue[0].addr
    case PutComp(i, k) => s.xs[i].ktx[k].desc.addr
  }

  lemma KernelSource(s: State, e: KernelStep)
    requires Shape(s) && Enabled(s, e)
    ensures Shape(Next(s, e)) && Picked(e) < |Addrs(s, From(e))|
    ensures FrameOf(s.mem.frameSize, MovedAddr(s, e)) == FrameOf(s.mem.frameSize, Addrs(s, From(e))[Picked(e)])
    ensures Addrs(Next(s, e), From(e)) == Without(Addrs(s, From(e)), Picked(e))
  {
    hide FrameOf, Read, Write;
    assert Shape(Next(s, e));
  }

  lemma KernelTarget(s: State, e: KernelStep)
    requires Shape(s) && Enabled(s, e)
    ensures Shape(Next(s, e))
    ensures Addrs(Next(s, e), To(e)) == Addrs(s, To(e)) + [MovedAddr(s, e)]
  {
    hide FrameOf, Read, Write, Without;
    var s', i, x := Next(s, e), e.i, s.xs[e.i];
    assert Shape(s');
    match e {
      case TakeFill(_) =>
      case PutRx(_, k, a, pkt) => assert s'.xs[i].rx.Unread() == x.rx.Unread() + [Desc(a, |pkt|)];
      case TakeTx(_) =>
      case PutComp(_, k) => assert s'.xs[i].cq.Unread() == x.cq.Unread() + [MovedAddr(s, e)];
    }
  }

  lemma KernelMoves(s: State, e: KernelStep)
    requires Shape(s) && Enabled(s, e)
    ensures MovesOne(s, Next(s, e), From(e), Picked(e), To(e))
  {
    hide FrameOf, Addrs, Shape, MovesOne, MovedAddr;
    KernelSource(s, e);
    KernelTarget(s, e);
    forall r | r != From(e) && r != To(e) ensures Addrs(Next(s, e), r) == Addrs(s, r) {
      KernelOtherAddrs(s, e, r);
    }
    MovesByAddrs(s, Next(s, e), From(e), Picked(e), To(e), MovedAddr(s, e));
  }

  /** Frames whose bytes matter. */
  ghost predicate Live(p: Place) {
    p.Rx? || p.Batch? || p.Tx? || p.KernelTx? || p.ToTx?
  }

  lemma PlaceOf(s: State, at: seq<Place>, p: Place, k: nat)
    requires Shape(s) && PlacesOk(s, at) && k < |Addrs(s, p)|
    ensures FrameOf(s.mem.frameSize, Addrs(s, p)[k]) < |at| && at[FrameOf(s.mem.frameSize, Addrs(s, p)[k])] == p
  {
    hide FrameOf;
    assert Holds(s)(p)[k] == FrameOf(s.mem.frameSize, Addrs(s, p)[k]);
  }

  lemma ReadsElsewhere(m: Memory, buffer: nat, f: nat, pkt: Packet, b: nat, ds: seq<Desc>)
    requires b != buffer || forall k :: 0 <= k < |ds| ==> FrameOf(m.frameSize, ds[k].addr) != f
    ensures Reads(Write(m, buffer, f, pkt), b, ds) == Reads(m, b, ds)
  {
    hide FrameOf;
    var m' := Write(m, buffer, f, pkt);
    forall k | 0 <= k < |ds| ensures Read(m', b, ds[k]) == Read(m, b, ds[k]) {}
  }

  lemma NotThere(s: State, at: seq<Place>, p: Place, f: nat, ds: seq<Desc>)
    requires Shape(s) && PlacesOk(s, at) && Addrs(s, p) == AddrsOf(ds)
    requires f < |at| ==> at[f] != p
    ensures forall k :: 0 <= k < |ds| ==> FrameOf(s.mem.frameSize, ds[k].addr) != f
  {
    hide FrameOf;
    forall k | 0 <= k < |ds| ensures FrameOf(s.mem.frameSize, ds[k].addr) != f {
      PlaceOf(s, at, p, k);
    }
  }

  lemma StableElsewhere(s: State, at: seq<Place>, buffer: nat, f: nat, pkt: Packet, i: nat)
    requires Shape(s) && PlacesOk(s, at) && i < |s.xs| && Stable(s.mem, s.xs[i].buffer, s.xs[i].ktx)
    requires f < |at| ==> !at[f].KernelTx?
    ensures Stable(Write(s.mem, buffer, f, pkt), s.xs[i].buffer, s.xs[i].ktx)
  {
    hide FrameOf;
    var ktx := s.xs[i].ktx;
    forall k | 0 <= k < |ktx| ensures FrameOf(s.mem.frameSize, ktx[k].desc.addr) != f {
      PlaceOf(s, at, KernelTx(i), k);
    }
  }

  /** Writing to a frame that is not live disturbs nothing, in whichever buffer;
      nor does writing the twin, in another buffer, of a frame about to be sent. */
  lemma {:induction false} WriteKeepsContent(s: State, at: seq<Place>, buffer: nat, f: nat, pkt: Packet)
    requires Shape(s) && PlacesOk(s, at) && ContentOk(s)
    requires f < |at| ==> !Live(at[f]) || (at[f].ToTx? && buffer != s.xs[s.src].buffer)
    ensures ContentOk(s.(mem := Write(s.mem, buffer, f, pkt)))
  {
    hide FrameOf;
    var s' := s.(mem := Write(s.mem, buffer, f, pkt));
    forall i | 0 <= i < |s.xs| ensures ContentAt(s', i) {
      var x := s.xs[i];
      assert ContentAt(s, i);
      NotThere(s, at, Batch, f, s.batch);
      ReadsElsewhere(s.mem, buffer, f, pkt, x.buffer, BatchOf(s, i));
      NotThere(s, at, Rx(i), f, x.rx.Unread());
      ReadsElsewhere(s.mem, buffer, f, pkt, x.buffer, x.rx.Unread());
      NotThere(s, at, Tx(i), f, x.tx.queue);
      ReadsElsewhere(s.mem, buffer, f, pkt, x.buffer, x.tx.queue);
      if buffer == s.xs[s.src].buffer { NotThere(s, at, ToTx(i), f, s.toTx[i]); }
      ReadsElsewhere(s.mem, buffer, f, pkt, s.xs[s.src].buffer, s.toTx[i]);
      StableElsewhere(s, at, buffer, f, pkt, i);
    }
  }

  lemma MoveOneKeeps(s: State, s': State, at: seq<Place>, p: Place, k: nat, q: Place) returns (at': seq<Place>)
    requires Shape(s) && PlacesOk(s, at) && OwnersOk(s, at) && MovesOne(s, s', p, k, q)
    requires |s'.xs| == |s.xs| && s'.src == s.src
    requires forall f :: OwnerOk(p, f, s.src) ==> OwnerOk(q, f, s.src)
    ensures PlacesOk(s', at') && OwnersOk(s', at')
    ensures at' == Reassign(at, [Holds(s)(p)[k]], q)
  {
    hide FrameOf;
    var all := Holds(s)(p);
    MoveKeepsPlaced(Holds(s), Holds(s'), at, p, all[..k], [all[k]], all[k + 1..], q);
    at' := Reassign(at, [all[k]], q);
    assert all[k] in [all[k]];
  }

  /** Taking the oldest entry of a tx ring puts the oldest forwarded packet on
      the wire. */
  lemma TakeTxContent(m: Memory, x: Socket, srcBuffer: nat, toTx: seq<Desc>, forwarded: seq<Out>, wire: nat)
    requires TxContent(m, x, srcBuffer, toTx, forwarded, wire) && x.tx.Ok() && x.tx.queue != []
    ensures wire < |forwarded| && Read(m, x.buffer, x.tx.queue[0]) == forwarded[wire].pkt
    ensures var d := x.tx.queue[0];
      TxContent(m, x.(tx := Fifo.Take(x.tx).0, ktx := x.ktx + [Sending(d, Read(m, x.buffer, d))]), srcBuffer, toTx, forwarded, wire + 1)
  {
    var d := x.tx.queue[0];
    var all := Reads(m, x.buffer, x.tx.queue) + Reads(m, srcBuffer, toTx);
    assert Pkts(forwarded[wire..])[0] == all[0];
    assert Pkts(forwarded[wire + 1..]) == Pkts(forwarded[wire..])[1..];
    assert Reads(m, x.buffer, x.tx.queue[1..]) + Reads(m, srcBuffer, toTx) == all[1..];
  }

  lemma PutRxContent(m: Memory, x: Socket, batch: seq<Desc>, arrived: seq<Packet>, done: nat, d: Desc, pkt: Packet)
    requires SocketOk(x) && RxContent(m, x, batch, arrived, done)
    requires |x.rx.queue| < x.rx.size && Read(m, x.buffer, d) == pkt
    ensures RxContent(m, x.(rx := Fifo.Put(x.rx, d)), batch, arrived + [pkt], done)
  {
    hide FrameOf;
    var rx' := Fifo.Put(x.rx, d);
    assert rx'.Unread() == x.rx.Unread() + [d];
    assert Reads(m, x.buffer, rx'.Unread()) == Reads(m, x.buffer, x.rx.Unread()) + [pkt];
    assert (arrived + [pkt])[done..] == arrived[done..] + [pkt];
  }

  /** A step on socket i that leaves memory, logs and batch alone. */
  lemma LocalStepContent(s: State, s': State, i: nat)
    requires Shape(s) && Shape(s') && ContentOk(s) && i < |s.xs|
    requires |s'.xs| == |s.xs| && s'.src == s.src && s'.mem == s.mem && (s'.batch == s.batch || i == s.src)
    requires forall j :: 0 <= j < |s.xs| && j != i ==>
      s'.xs[j] == s.xs[j] && s'.toTx[j] == s.toTx[j] && s'.arrived[j] == s.arrived[j] && s'.done[j] == s.done[j] &&
      s'.forwarded[j] == s.forwarded[j] && s'.wire[j] == s.wire[j]
    requires s'.xs[i].buffer == s.xs[i].buffer
    requires ContentAt(s', i)
    ensures ContentOk(s')
  {
    forall j | 0 <= j < |s.xs| ensures ContentAt(s', j) {
      assert ContentAt(s, j);
    }
  }

  lemma KernelKeepsContent(s: State, at: seq<Place>, e: KernelStep)
    requires Shape(s) && PlacesOk(s, at) && ContentOk(s) && Enabled(s, e)
    ensures Shape(Next(s, e)) && ContentOk(Next(s, e))
  {
    hide FrameOf, PlacesOk;
    var s', i, x := Next(s, e), e.i, s.xs[e.i];
    assert Shape(s');
    assert ContentAt(s, i);
    match e {
      case TakeFill(_) =>
        LocalStepContent(s, s', i);
      case PutRx(_, k, addr, pkt) =>
        var f := FrameOf(s.mem.frameSize, addr);
        PlaceOf(s, at, KernelRx(i), k);
        WriteKeepsContent(s, at, x.buffer, f, pkt);
        var s1 := s.(mem := Write(s.mem, x.buffer, f, pkt));
        assert ContentAt(s1, i);
        PutRxContent(s1.mem, x, BatchOf(s, i), s.arrived[i], s.done[i], Desc(addr, |pkt|), pkt);
        LocalStepContent(s1, s', i);
      case TakeTx(_) =>
        TakeTxContent(s.mem, x, s.xs[s.src].buffer, s.toTx[i], s.forwarded[i], s.wire[i]);
        LocalStepContent(s, s', i);
      case PutComp(_, k) =>
        LocalStepContent(s, s', i);
    }
  }

  lemma KernelKeepsBooks(s: State, e: KernelStep)
    requires Shape(s) && OrderOk(s) && AccountsOk(s) && Enabled(s, e)
    ensures Shape(Next(s, e)) && OrderOk(Next(s, e)) && AccountsOk(Next(s, e))
  {
    hide FrameOf;
    var s' := Next(s, e);
    assert Shape(s');
  }

  lemma KernelSameShape(s: State, e: KernelStep)
    requires Enabled(s, e)
    ensures var s' := Next(s, e); |s'.xs| == |s.xs| && s'.src == s.src
    ensures forall f, src :: OwnerOk(From(e), f, src) ==> OwnerOk(To(e), f, src)
  {
    hide FrameOf;
  }

  /** Whatever the kernel does, and whenever it does it, the invariant holds. */
  lemma {:induction false} KernelKeepsInv(s: State, at: seq<Place>, e: KernelStep) returns (at': seq<Place>)
    requires Inv(s, at) && Enabled(s, e)
    ensures Inv(Next(s, e), at')
  {
    hide FrameOf, PlacesOk, OwnersOk, ContentOk, OrderOk, AccountsOk, MovesOne;
    KernelKeepsContent(s, at, e);
    KernelKeepsBooks(s, e);
    KernelMoves(s, e);
    KernelSameShape(s, e);
    hide Next, Enabled;
    at' := MoveOneKeeps(s, Next(s, e), at, From(e), Picked(e), To(e));
  }

  /** More packets arrived. */
  ghost predicate Longer(a: seq<seq<Packet>>, b: seq<seq<Packet>>) {
    |b| == |a| && forall i :: 0 <= i < |a| ==> a[i] <= b[i]
  }

  lemma LongerTrans(a: seq<seq<Packet>>, b: seq<seq<Packet>>, c: seq<seq<Packet>>)
    requires Longer(a, b) && Longer(b, c)
    ensures Longer(a, c)
  {
    forall i | 0 <= i < |a| ensures a[i] <= c[i] { assert a[i] <= b[i] <= c[i]; }
  }

  /** What a kernel step leaves alone: everything local to the worker, its side of
      the rings, and the bytes of the packets it is working on. */
  ghost predicate WorkerSame(s: State, s': State) {
    && |s'.xs| == |s.xs| && s'.src == s.src && s'.batch == s.batch && s'.comp == s.comp
    && s'.toFill == s.toFill && s'.toDrop == s.toDrop && s'.toTx == s.toTx
    && s'.owed == s.owed && s'.drops == s.drops && s'.done == s.done && s'.forwarded == s.forwarded
    && s'.mem.frameSize == s.mem.frameSize && Longer(s.arrived, s'.arrived)
    && (forall i :: 0 <= i < |s.xs| ==> SocketSame(s.xs[i], s'.xs[i]))
    && (forall b :: Reads(s'.mem, b, s.batch) == Reads(s.mem, b, s.batch))
    && (forall b, i :: 0 <= i < |s.toTx| ==> Reads(s'.mem, b, s.toTx[i]) == Reads(s.mem, b, s.toTx[i]))
  }

  /** Transmission work left: taking, reporting and releasing a packet each
      count for one. */
  function Work(x: Socket): nat { 3 * |x.tx.queue| + 2 * |x.ktx| + |x.cq.queue| }

  ghost predicate Progressed(x: Socket, x': Socket) {
    Work(x') < Work(x) ||
    (|x'.tx.queue| == |x.tx.queue| && |x'.ktx| == |x.ktx| && |x'.cq.queue| == |x.cq.queue|)
  }

  ghost predicate SocketSame(x: Socket, x': Socket) {
    && x'.buffer == x.buffer && x'.outstanding == x.outstanding && x'.rxPkts == x.rxPkts && x'.txPkts == x.txPkts
    && x'.fq.held == x.fq.held && x'.tx.held == x.tx.held
    && x'.rx.out == x.rx.out && x'.rx.known == x.rx.known && x.rx.queue <= x'.rx.queue
    && x'.cq.out == x.cq.out && x'.cq.known == x.cq.known && x.cq.queue <= x'.cq.queue
    && |x'.fq.queue| <= |x.fq.queue| && Progressed(x, x')
  }

  lemma KernelSpares(s: State, at: seq<Place>, e: KernelStep, p: Place, ds: seq<Desc>, b: nat)
    requires Shape(s) && PlacesOk(s, at) && Enabled(s, e) && (p.Batch? || p.ToTx?) && Addrs(s, p) == AddrsOf(ds)
    ensures Reads(Next(s, e).mem, b, ds) == Reads(s.mem, b, ds)
  {
    hide FrameOf;
    if e.PutRx? {
      var x, f := s.xs[e.i], FrameOf(s.mem.frameSize, e.addr);
      PlaceOf(s, at, KernelRx(e.i), e.k);
      NotThere(s, at, p, f, ds);
      ReadsElsewhere(s.mem, x.buffer, f, e.pkt, b, ds);
    }
  }

  lemma KernelLeavesWorker(s: State, at: seq<Place>, e: KernelStep)
    requires Inv(s, at) && Enabled(s, e)
    ensures WorkerSame(s, Next(s, e))
  {
    hide FrameOf;
    forall b ensures Reads(Next(s, e).mem, b, s.batch) == Reads(s.mem, b, s.batch) {
      KernelSpares(s, at, e, Batch, s.batch, b);
    }
    forall b, i | 0 <= i < |s.toTx| ensures Reads(Next(s, e).mem, b, s.toTx[i]) == Reads(s.mem, b, s.toTx[i]) {
      KernelSpares(s, at, e, ToTx(i), s.toTx[i], b);
    }
  }

  lemma WorkerSameTrans(a: State, b: State, c: State)
    requires WorkerSame(a, b) && WorkerSame(b, c)
    ensures WorkerSame(a, c)
  {
    LongerTrans(a.arrived, b.arrived, c.arrived);
    hide Longer;
  }

  // ---------------------------------------------------------------------------
  // Consequences of the invariant

  /** The fill ring has as many slots as its socket owns frames, so the frames
      that the worker returns to socket i always fit. */
  lemma {:induction false} FillNeverShort(s: State, at: seq<Place>, i: nat, p: Place)
    requires Inv(s, at) && i < |s.xs|
    requires p == ToFill(i) || (p == ToDrop && i == s.src)
    ensures |s.xs[i].fq.queue| + |Addrs(s, p)| <= FILL_SIZE
  {
    hide FrameOf;
    var a, b := Holds(s)(Fill(i)), Holds(s)(p);
    forall k | 0 <= k < |a + b| ensures Owner((a + b)[k]) == i {
      var f := (a + b)[k];
      assert at[f] == if k < |a| then Fill(i) else p;
      assert OwnerOk(at[f], f, s.src);
    }
    assert NoDup(a) && NoDup(b);
    forall j, k | 0 <= j < k < |a + b| ensures (a + b)[j] != (a + b)[k] {
      assert at[(a + b)[j]] == if j < |a| then Fill(i) else p;
      assert at[(a + b)[k]] == if k < |a| then Fill(i) else p;
    }
    DistinctInWindow(a + b, i * FRAMES_PER_SOCKET, FRAMES_PER_SOCKET);
  }

  /** Each frame has exactly one place and one position in it. */
  lemma {:induction false} ExactlyOnePlace(s: State, at: seq<Place>, f: nat)
    requires Inv(s, at) && f < |s.xs| * FRAMES_PER_SOCKET
    ensures exists p, k :: 0 <= k < |Holds(s)(p)| && Holds(s)(p)[k] == f
    ensures forall p, k, p', k' ::
      (0 <= k < |Holds(s)(p)| && 0 <= k' < |Holds(s)(p')| && Holds(s)(p)[k] == f == Holds(s)(p')[k']) ==>
      (p == p' && k == k')
  {
    hide FrameOf;
    assert f in Holds(s)(at[f]);
    forall p, k, p', k' | 0 <= k < |Holds(s)(p)| && 0 <= k' < |Holds(s)(p')| && Holds(s)(p)[k] == f == Holds(s)(p')[k']
      ensures p == p' && k == k'
    {
      assert at[f] == p == p' && NoDup(Holds(s)(p));
    }
  }

  /** Frames on the receive side of socket i are its own. */
  lemma {:induction false} ReceiveSideOwned(s: State, at: seq<Place>, i: nat, p: Place, k: nat)
    requires Inv(s, at) && i < |s.xs| && p in {Fill(i), KernelRx(i), Rx(i)} && k < |Addrs(s, p)|
    ensures Owner(FrameOf(s.mem.frameSize, Addrs(s, p)[k])) == i
  {
    hide FrameOf;
    PlaceOf(s, at, p, k);
    var f := FrameOf(s.mem.frameSize, Addrs(s, p)[k]);
    assert OwnerOk(at[f], f, s.src);
  }
}
