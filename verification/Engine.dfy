/** The AF_XDP worker: completion and batch processing over any number of sockets,
    with the kernel running between any two of its operations. */
module Engine {
  import opened Words
  import opened Frames
  import opened Steps
  import Fifo

  const FRAMES_PER_SOCKET_SHIFT: nat := 12

  /** `addr >> owner_shift` is the owner of the frame that contains addr. */
  lemma {:induction false} OwnerByShift(addr: nat, k: nat)
    ensures ShiftRight(addr, FRAMES_PER_SOCKET_SHIFT + k) == Owner(FrameOf(Pow2(k), addr))
  {
    var p, q := Pow2(k), addr / Pow2(k);
    var o, r := q / 4096, q % 4096;
    Pow2Add(12, k);
    assert Pow2(12) == 4096 by { Pow2Add(6, 6); assert Pow2(6) == 64; }
    assert addr == p * q + addr % p;
    assert p * q == p * (4096 * o) + p * r by { MulDistrib(p, 4096 * o, r); }
    assert p * (4096 * o) == (4096 * p) * o by { MulAssoc(p, 4096, o); }
    assert p * r + addr % p < 4096 * p by { MulUpTo(p, r, 4095); }
    DivModUnique(addr, 4096 * p, o, p * r + addr % p);
  }

  lemma MulUpTo(p: nat, r: nat, n: nat)
    requires r <= n
    ensures p * r <= n * p
  {
    MulDistrib(p, r, n - r);
    assert p * (n - r) >= 0;
  }

  /** A batch of n packets counted one by one in a uint8_t. */
  function Count8(n: nat): u8 { if n == 0 then 0 else (Count8(n - 1) + 1) % TWO8 }

  /** The counters of a batch are exact up to 255 packets and not beyond, whatever
      the comments beside them promise: 256 packets of one kind count as none. */
  lemma {:induction false} CountExact(n: nat)
    ensures Count8(n) == n % TWO8
    ensures Count8(n) == n <==> n <= 255
    decreases n
  {
    if n > 0 {
      CountExact(n - 1);
      assert Count8(n) == (Count8(n - 1) + 1) % TWO8;
      hide Count8;
      NextCount(n - 1);
    }
  }

  lemma NextCount(n: nat)
    ensures (n % TWO8 + 1) % TWO8 == (n + 1) % TWO8
    ensures n % TWO8 == n <==> n <= 255
    ensures (n + 1) % TWO8 == n + 1 <==> n + 1 <= 255
  {
  }

  // ---------------------------------------------------------------------------
  // Where the worker stands

  /** Slots reserved in the fill and tx rings, entries peeked in the rx and
      completion rings. */
  datatype Side = Side(fill: nat, tx: nat, rx: nat, comp: nat)
  const REST := Side(0, 0, 0, 0)

  ghost predicate SocketBusy(x: Socket, side: Side) {
    x.fq.held == side.fill && x.tx.held == side.tx && x.rx.out == side.rx && x.cq.out == side.comp
  }

  /** Only socket i has a ring operation under way. */
  ghost predicate Busy(s: State, i: nat, side: Side) {
    forall j :: 0 <= j < |s.xs| ==> SocketBusy(s.xs[j], if j == i then side else REST)
  }

  /** Only socket i has frames released but still counted as outstanding. */
  ghost predicate Owes(s: State, i: nat, d: int) {
    forall j :: 0 <= j < |s.owed| ==> s.owed[j] == if j == i then d else 0
  }

  ghost predicate Unsorted(s: State) {
    s.comp == [] && forall j :: 0 <= j < |s.toFill| ==> s.toFill[j] == []
  }

  /** No ring operation is half done. */
  ghost predicate Quiet(s: State) {
    Unsorted(s) && Busy(s, 0, REST) && Owes(s, 0, 0)
  }

  lemma AtRest(s: State, i: nat, j: nat)
    ensures Busy(s, i, REST) ==> Busy(s, j, REST)
    ensures Owes(s, i, 0) ==> Owes(s, j, 0)
  {
    if Busy(s, i, REST) {
      forall k | 0 <= k < |s.xs| ensures SocketBusy(s.xs[k], if k == j then REST else REST) {
        assert SocketBusy(s.xs[k], if k == i then REST else REST);
      }
    }
    if Owes(s, i, 0) {
      forall k | 0 <= k < |s.owed| ensures s.owed[k] == if k == j then 0 else 0 {
        assert s.owed[k] == if k == i then 0 else 0;
      }
    }
  }

  lemma BusyAt(s: State, i: nat, side: Side)
    requires Busy(s, i, side) && i < |s.xs|
    ensures SocketBusy(s.xs[i], side)
  {
    var j := i;
    assert SocketBusy(s.xs[j], if j == i then side else REST);
  }

  /** Between operations `outstanding_tx` is exactly the number of frames in the
      tx ring, held by the kernel for sending, or in the completion ring. */
  lemma {:induction false} OutstandingCounts(s: State, at: seq<Place>, i: nat)
    requires Inv(s, at) && Quiet(s) && i < |s.xs|
    ensures s.xs[i].outstanding == |Addrs(s, Tx(i))| + |Addrs(s, KernelTx(i))| + |Addrs(s, Comp(i))|
    ensures s.xs[i].outstanding == |s.xs[i].tx.queue| + |s.xs[i].ktx| + |s.xs[i].cq.queue|
  {
    AtRest(s, 0, i);
    BusyAt(s, i, REST);
    var j := i;
    assert s.owed[j] == if j == i then 0 else 0;
  }

  /** The books of every socket are as in `s`, except that on socket i the packets
      counted as sent or outstanding differ by d; no transmission work was added. */
  ghost predicate Books(s: State, s': State, i: nat, d: int) {
    && |s'.xs| == |s.xs| && s'.src == s.src && s'.mem.frameSize == s.mem.frameSize
    && forall j :: 0 <= j < |s.xs| ==> SocketBooks(s.xs[j], s'.xs[j], if j == i then d else 0, j == i)
  }

  ghost predicate SocketBooks(x: Socket, x': Socket, d: int, active: bool) {
    && x'.buffer == x.buffer && x'.rxPkts == x.rxPkts && Progressed(x, x')
    && x'.txPkts + x'.outstanding == x.txPkts + x.outstanding + d && x'.txPkts >= x.txPkts
    && (!active ==> x'.outstanding == x.outstanding)
  }

  /** Nothing was processed meanwhile. */
  ghost predicate Kept(s: State, s': State) {
    s'.done == s.done && s'.forwarded == s.forwarded && s'.drops == s.drops && Longer(s.arrived, s'.arrived)
  }

  lemma KeptTrans(a: State, b: State, c: State)
    requires Kept(a, b) && Kept(b, c)
    ensures Kept(a, c)
  {
    LongerTrans(a.arrived, b.arrived, c.arrived);
  }

  ghost predicate SameArrays(s: State, s': State) {
    s'.batch == s.batch && s'.toDrop == s.toDrop && s'.toTx == s.toTx && Kept(s, s')
  }

  lemma BooksTrans(a: State, b: State, c: State, i: nat, d: int, e: int)
    requires Books(a, b, i, d) && Books(b, c, i, e)
    ensures Books(a, c, i, d + e)
    ensures i < |a.xs| ==> Work(c.xs[i]) <= Work(b.xs[i])
  {
    forall j | 0 <= j < |a.xs| ensures SocketBooks(a.xs[j], c.xs[j], if j == i then d + e else 0, j == i) && Work(c.xs[j]) <= Work(b.xs[j]) {
      assert SocketBooks(a.xs[j], b.xs[j], if j == i then d else 0, j == i) && SocketBooks(b.xs[j], c.xs[j], if j == i then e else 0, j == i);
    }
  }

  lemma BooksThenKernel(a: State, b: State, c: State, i: nat, d: int)
    requires Books(a, b, i, d) && WorkerSame(b, c)
    ensures Books(a, c, i, d)
  {
    forall j | 0 <= j < |a.xs| ensures SocketBooks(a.xs[j], c.xs[j], if j == i then d else 0, j == i) {
      assert SocketBooks(a.xs[j], b.xs[j], if j == i then d else 0, j == i) && SocketSame(b.xs[j], c.xs[j]);
    }
  }

  lemma KernelKeepsBusy(a: State, b: State, i: nat, side: Side)
    requires WorkerSame(a, b) && Busy(a, i, side)
    ensures Busy(b, i, side)
  {
    forall j | 0 <= j < |b.xs| ensures SocketBusy(b.xs[j], if j == i then side else REST) {
      assert SocketBusy(a.xs[j], if j == i then side else REST) && SocketSame(a.xs[j], b.xs[j]);
    }
  }

  // ---------------------------------------------------------------------------
  // Totals over all sockets

  /** Packets received, minus those completed, minus those outstanding. */
  ghost function Balance(xs: seq<Socket>): int {
    if xs == [] then 0
    else Balance(xs[1..]) + xs[0].rxPkts - xs[0].txPkts - xs[0].outstanding
  }

  /** Packets waiting for a tx ring. */
  ghost function Pending(toTx: seq<seq<Desc>>): nat {
    if toTx == [] then 0 else |toTx[0]| + Pending(toTx[1..])
  }

  lemma {:induction false} BalanceShift(xs: seq<Socket>, ys: seq<Socket>, i: nat, d: int)
    requires |ys| == |xs|
    requires forall j :: 0 <= j < |xs| ==>
      ys[j].rxPkts - ys[j].txPkts - ys[j].outstanding == xs[j].rxPkts - xs[j].txPkts - xs[j].outstanding + if j == i then d else 0
    ensures Balance(ys) == Balance(xs) + if i < |xs| then d else 0
    decreases xs
  {
    if xs != [] {
      if i == 0 {
        BalanceShift(xs[1..], ys[1..], |xs|, d);
      } else {
        BalanceShift(xs[1..], ys[1..], i - 1, d);
      }
    }
  }

  lemma {:induction false} PendingUpdate(toTx: seq<seq<Desc>>, j: nat, ds: seq<Desc>)
    requires j < |toTx|
    ensures Pending(toTx[j := ds]) == Pending(toTx) - |toTx[j]| + |ds|
    decreases toTx
  {
    if j == 0 {
      assert toTx[j := ds][1..] == toTx[1..];
    } else {
      assert toTx[j := ds][1..] == toTx[1..][j - 1 := ds];
      PendingUpdate(toTx[1..], j - 1, ds);
    }
  }

  lemma {:induction false} PendingNone(toTx: seq<seq<Desc>>)
    requires forall j :: 0 <= j < |toTx| ==> toTx[j] == []
    ensures Pending(toTx) == 0
    decreases toTx
  {
    if toTx != [] { PendingNone(toTx[1..]); }
  }

  /** Every packet counted as received was dropped, is waiting for a tx ring, is
      outstanding, or was completed. */
  ghost predicate Balanced(s: State) {
    Balance(s.xs) == s.drops + Pending(s.toTx)
  }

  lemma BooksBalance(s: State, s': State, i: nat, d: int)
    requires Books(s, s', i, d) && i < |s.xs|
    ensures Balance(s'.xs) == Balance(s.xs) - d
  {
    forall j | 0 <= j < |s.xs| ensures SocketBooks(s.xs[j], s'.xs[j], if j == i then d else 0, j == i) {}
    BalanceShift(s.xs, s'.xs, i, -d);
  }

  /** The uint8_t counters of the batch are right, and at most k. */
  ghost predicate Tallied(s: State, ndrop: u8, ntx: seq<u8>, k: nat) {
    && ndrop == |s.toDrop| <= k && |ntx| == |s.toTx|
    && forall j :: 0 <= j < |ntx| ==> ntx[j] == |s.toTx[j]| <= k
  }

  /** The first k packets for socket j are also in its own buffer. */
  ghost predicate Copied(s: State, j: nat, k: nat) {
    && j < |s.xs| && j < |s.toTx| && s.src < |s.xs| && k <= |s.toTx[j]|
    && forall h :: 0 <= h < k ==>
         Read(s.mem, s.xs[j].buffer, s.toTx[j][h]) == Read(s.mem, s.xs[s.src].buffer, s.toTx[j][h])
  }

  lemma KernelKeepsCopied(a: State, b: State, j: nat, k: nat)
    requires WorkerSame(a, b) && Copied(a, j, k) && |b.toTx| == |b.xs|
    ensures Copied(b, j, k)
  {
    assert SocketSame(a.xs[j], b.xs[j]) && SocketSame(a.xs[a.src], b.xs[a.src]);
    forall h | 0 <= h < k ensures Read(b.mem, b.xs[j].buffer, b.toTx[j][h]) == Read(b.mem, b.xs[b.src].buffer, b.toTx[j][h]) {
      var ds := a.toTx[j];
      assert Reads(b.mem, a.xs[j].buffer, ds)[h] == Reads(a.mem, a.xs[j].buffer, ds)[h];
      assert Reads(b.mem, a.xs[a.src].buffer, ds)[h] == Reads(a.mem, a.xs[a.src].buffer, ds)[h];
    }
  }

  lemma SubmitEffects(s: State, j: nat, n: nat)
    requires Shape(s) && j < |s.xs| && n == |s.toTx[j]| && Copied(s, j, n)
    requires Busy(s, j, Side(0, n, 0, 0)) && Owes(s, j, 0) && s.xs[j].tx.held == n
    ensures Reads(s.mem, s.xs[j].buffer, s.toTx[j]) == Reads(s.mem, s.xs[s.src].buffer, s.toTx[j])
    ensures var s' := SubmitTx(s, j);
      && Balance(s'.xs) == Balance(s.xs) && Busy(s', j, REST) && Owes(s', j, 0 - n)
      && s' == s.(xs := s'.xs, toTx := s.toTx[j := []], owed := s'.owed) && LeftAlone(s, s', j, j)
      && (RoomOk(s) ==> RoomOk(s'))
  {
    var s' := SubmitTx(s, j);
    BalanceShift(s.xs, s'.xs, 0, 0);
    forall k | 0 <= k < |s'.xs| ensures SocketBusy(s'.xs[k], if k == j then REST else REST) {
      assert SocketBusy(s.xs[k], if k == j then Side(0, n, 0, 0) else REST);
    }
  }

  /** Packets outstanding on sockets other than i and j are untouched, and what was
      counted as sent stays counted. */
  ghost predicate LeftAlone(s: State, s': State, i: nat, j: nat) {
    |s'.xs| == |s.xs| && forall k :: 0 <= k < |s.xs| ==>
      s'.xs[k].txPkts >= s.xs[k].txPkts && (k != i && k != j ==> s'.xs[k].outstanding == s.xs[k].outstanding)
  }

  lemma LeftAloneTrans(a: State, b: State, c: State, i: nat, j: nat)
    requires LeftAlone(a, b, i, i) && LeftAlone(b, c, i, j)
    ensures LeftAlone(a, c, i, j)
  {
  }

  lemma BooksLeaveAlone(s: State, s': State, i: nat, d: int)
    requires Books(s, s', i, d)
    ensures LeftAlone(s, s', i, i)
  {
    forall k | 0 <= k < |s.xs| ensures s'.xs[k].txPkts >= s.xs[k].txPkts && (k != i ==> s'.xs[k].outstanding == s.xs[k].outstanding) {
      BooksAt(s, s', i, d, k);
    }
  }

  lemma BooksWork(s: State, s': State)
    requires Books(s, s', 0, 0) && |s.xs| > 0
    ensures Work(s'.xs[0]) <= Work(s.xs[0])
  {
    BooksAt(s, s', 0, 0, 0);
  }

  lemma BooksSelf(s: State, i: nat)
    ensures Books(s, s, i, 0)
  {
  }

  lemma CountEffects(s: State, j: nat, n: nat)
    requires j < |s.xs| == |s.owed| && Unsorted(s) && Busy(s, j, REST) && Owes(s, j, 0 - n)
    ensures var s' := Count(s, j, 0, 0, n);
      && Quiet(s') && Balance(s'.xs) == Balance(s.xs) - n && (RoomOk(s) ==> RoomOk(s'))
      && s' == s.(xs := s'.xs, owed := s'.owed) && LeftAlone(s, s', j, j)
  {
    var s' := Count(s, j, 0, 0, n);
    BalanceShift(s.xs, s'.xs, j, 0 - n);
    forall k | 0 <= k < |s'.xs| ensures SocketBusy(s'.xs[k], if k == 0 then REST else REST) {
      assert SocketBusy(s.xs[k], if k == j then REST else REST);
    }
  }

  // ---------------------------------------------------------------------------
  // Waiting for room in a tx ring

  /** The kernel may take a packet of socket j, or has one to report. */
  predicate CanSend(s: State, j: nat) {
    j < |s.xs| && (s.xs[j].ktx != [] || (Enabled(s, TakeTx(j)) && Reserving(s, TakeTx(j))))
  }

  /** Either way the work left on socket j shrinks. */
  lemma SendOrReport(s: State, j: nat, e: KernelStep)
    requires Shape(s) && RoomOk(s) && CanSend(s, j) && e == if s.xs[j].ktx == [] then TakeTx(j) else PutComp(j, 0)
    ensures Enabled(s, e) && Work(Next(s, e).xs[j]) < Work(s.xs[j]) && RoomOk(Next(s, e)) && |Next(s, e).xs| == |s.xs|
  {
    hide FrameOf, Read;
  }

  lemma BooksAt(s: State, s': State, i: nat, d: int, j: nat)
    requires Books(s, s', i, d) && j < |s.xs|
    ensures SocketBooks(s.xs[j], s'.xs[j], if j == i then d else 0, j == i)
  {
  }

  /** If the tx ring of socket j is too full, either the kernel can send on j or
      its completion ring is full, which needs more than 2 * RING_SIZE packets. */
  lemma RoomToSend(s: State, at: seq<Place>, j: nat, n: nat)
    requires Inv(s, at) && RoomOk(s) && Quiet(s) && j < |s.xs| && n <= 255
    requires |s.xs[j].tx.queue| + n > RING_SIZE
    ensures s.xs[j].outstanding + n <= 2 * RING_SIZE || s.xs[j].cq.queue == [] ==> CanSend(s, j)
    ensures |s.xs[j].tx.queue| > 0
  {
    OutstandingCounts(s, at, j);
  }

  lemma StillCanSend(s: State, s': State, at: seq<Place>, j: nat)
    requires Inv(s', at) && j < |s.xs| == |s'.xs| && Progressed(s.xs[j], s'.xs[j])
    ensures CanSend(s, j) ==> Work(s'.xs[j]) < Work(s.xs[j]) || CanSend(s', j)
  {
  }

  /** Packets wait for room in a tx ring. */
  ghost predicate Blocked(s: State) {
    |s.toTx| == |s.xs| && exists j :: 0 <= j < |s.xs| && s.toTx[j] != [] && |s.xs[j].tx.queue| + |s.toTx[j]| > RING_SIZE
  }

  /** The entries of a ring that a peek can count on, none if the ring is not in order. */
  ghost function Visible<T>(q: Fifo.Cons<T>): nat { if q.Ok() then Fifo.Visible(q) else 0 }

  /** What is to be sent on other sockets than the receiving one fits beside what is
      outstanding there. */
  ghost predicate RoomBeside(s: State, ntx: seq<u8>) {
    |ntx| == |s.xs| && forall j :: 0 <= j < |ntx| && j != s.src ==> s.xs[j].outstanding + ntx[j] <= 2 * RING_SIZE
  }

  /** Turns after which a kernel that keeps sending has nothing left to do. */
  const ENOUGH: nat := 5 * RING_SIZE + 1

  lemma WorkBound(s: State, at: seq<Place>, j: nat)
    requires Inv(s, at) && RoomOk(s) && j < |s.xs|
    ensures Work(s.xs[j]) < ENOUGH
  {
    hide PlacesOk, OwnersOk, ContentOk, OrderOk;
    assert SocketOk(s.xs[j]);
  }

  /** A reservation in the tx ring of socket j bounds what is outstanding there. */
  lemma {:induction false} ReservedFits(s: State, at: seq<Place>, j: nat, n: nat)
    requires Inv(s, at) && RoomOk(s) && Owes(s, 0, 0) && Busy(s, j, Side(0, n, 0, 0)) && j < |s.xs|
    ensures s.xs[j].outstanding + n <= 2 * RING_SIZE
  {
    BusyAt(s, j, Side(0, n, 0, 0));
    AtRest(s, 0, j);
  }

  /** xsk_configure_socket: the fill ring takes all frames of the socket at once. */
  method PopulateFill(umemOffset: nat, frameSize: nat) returns (fq: Fifo.Prod<nat>)
    ensures fq.size == FILL_SIZE && fq.held == 0 && |fq.queue| == FRAMES_PER_SOCKET
    ensures forall k :: 0 <= k < FRAMES_PER_SOCKET ==> fq.queue[k] == (umemOffset + k) * frameSize
  {
    var (reserved, ret) := Fifo.Reserve(Fifo.Prod(FILL_SIZE, [], 0), FRAMES_PER_SOCKET);
    var slots: seq<nat> := [];
    for i := 0 to FRAMES_PER_SOCKET
      invariant |slots| == i && forall k :: 0 <= k < i ==> slots[k] == (umemOffset + k) * frameSize
    {
      slots := slots + [(umemOffset + i) * frameSize];
    }
    fq := Fifo.Submit(reserved, slots);
  }

  lemma {:induction false} InitialBalance(xs: seq<Socket>)
    requires forall i :: 0 <= i < |xs| ==> xs[i].rxPkts == xs[i].txPkts == xs[i].outstanding == 0
    ensures Balance(xs) == 0
    decreases xs
  {
    if xs != [] { InitialBalance(xs[1..]); }
  }

  lemma InitialBooks(buffers: seq<nat>, mem: Memory)
    ensures var s := InitialState(buffers, mem); Quiet(s) && Balanced(s) && RoomOk(s)
  {
    var s := InitialState(buffers, mem);
    InitialBalance(s.xs);
    PendingNone(s.toTx);
  }

  // ---------------------------------------------------------------------------
  // What a batch should do

  /** The processor's own state, the packets handed to each tx queue, the drops. */
  datatype Outcome<P> = Outcome(memory: P, forwarded: seq<seq<Out>>, drops: nat)

  /** The processor is given packet number `no` of socket i. */
  function HandleOne<P>(processor: (P, Packet, nat) -> (P, Packet, int), i: nat, no: nat, pkt: Packet, o: Outcome<P>): Outcome<P> {
    var (m, pkt', verdict) := processor(o.memory, pkt, i);
    if 0 <= verdict < |o.forwarded| then
      Outcome(m, o.forwarded[verdict := o.forwarded[verdict] + [Out(i, no, pkt')]], o.drops)
    else Outcome(m, o.forwarded, o.drops + 1)
  }

  /** It is given packets from number `no` on, one after the other. */
  function HandleAll<P>(processor: (P, Packet, nat) -> (P, Packet, int), i: nat, no: nat, pkts: seq<Packet>, o: Outcome<P>): Outcome<P>
    decreases |pkts|
  {
    if pkts == [] then o
    else
      var last := |pkts| - 1;
      HandleOne(processor, i, no + last, pkts[last], HandleAll(processor, i, no, pkts[..last], o))
  }

  /** The verdict is obeyed: the rewritten packet joins the end of the queue it names,
      and -1 counts as one more drop; nothing else happens to any queue. */
  lemma {:induction false} VerdictObeyed<P>(processor: (P, Packet, nat) -> (P, Packet, int), i: nat, no: nat, pkt: Packet, o: Outcome<P>)
    requires -1 <= processor(o.memory, pkt, i).2 < |o.forwarded|
    ensures var (m, pkt', v) := processor(o.memory, pkt, i); var o' := HandleOne(processor, i, no, pkt, o);
      && o'.memory == m && |o'.forwarded| == |o.forwarded| && o'.drops == o.drops + (if v == -1 then 1 else 0)
      && forall j :: 0 <= j < |o.forwarded| ==> o'.forwarded[j] == if j == v then o.forwarded[j] + [Out(i, no, pkt')] else o.forwarded[j]
  {
  }

  ghost function Queued(forwarded: seq<seq<Out>>): nat {
    if forwarded == [] then 0 else |forwarded[0]| + Queued(forwarded[1..])
  }

  lemma {:induction false} QueuedOne(forwarded: seq<seq<Out>>, v: nat, x: Out)
    requires v < |forwarded|
    ensures Queued(forwarded[v := forwarded[v] + [x]]) == Queued(forwarded) + 1
    decreases |forwarded|
  {
    var f' := forwarded[v := forwarded[v] + [x]];
    if v == 0 {
      assert f'[1..] == forwarded[1..];
    } else {
      assert f'[1..] == forwarded[1..][v - 1 := forwarded[1..][v - 1] + [x]];
      QueuedOne(forwarded[1..], v - 1, x);
    }
  }

  /** No packet is lost or made up: each one given to the processor is queued once or
      dropped once. */
  lemma {:induction false} NoneLost<P>(processor: (P, Packet, nat) -> (P, Packet, int), i: nat, no: nat, pkts: seq<Packet>, o: Outcome<P>)
    ensures var o' := HandleAll(processor, i, no, pkts, o); Queued(o'.forwarded) + o'.drops == Queued(o.forwarded) + o.drops + |pkts|
    decreases |pkts|
  {
    if pkts != [] {
      var last := |pkts| - 1;
      NoneLost(processor, i, no, pkts[..last], o);
      var o1 := HandleAll(processor, i, no, pkts[..last], o);
      var (m, pkt', v) := processor(o1.memory, pkts[last], i);
      if 0 <= v < |o1.forwarded| { QueuedOne(o1.forwarded, v, Out(i, no + last, pkt')); }
    }
  }

  /** From s to s' exactly k further packets of the current socket were handled. */
  ghost predicate Handled<P>(processor: (P, Packet, nat) -> (P, Packet, int), s: State, memory: P, s': State, memory': P, k: nat) {
    && s.src < |s.done| == |s.arrived| && s'.src == s.src && Longer(s.arrived, s'.arrived)
    && s.done[s.src] + k <= |s'.arrived[s.src]|
    && var i, no := s.src, s.done[s.src];
    && s'.done == s.done[i := no + k]
    && Outcome(memory', s'.forwarded, s'.drops) ==
         HandleAll(processor, i, no, s'.arrived[i][no..no + k], Outcome(memory, s.forwarded, s.drops))
  }

  lemma HandleSingle<P>(processor: (P, Packet, nat) -> (P, Packet, int), i: nat, no: nat, pkt: Packet, o: Outcome<P>)
    ensures HandleAll(processor, i, no, [pkt], o) == HandleOne(processor, i, no, pkt, o)
  {
    assert [pkt][..0] == [];
  }

  lemma HandledNone<P>(processor: (P, Packet, nat) -> (P, Packet, int), s: State, memory: P, s': State)
    requires s.src < |s.done| == |s.arrived| && s'.src == s.src && Kept(s, s') && s.done[s.src] <= |s.arrived[s.src]|
    ensures Handled(processor, s, memory, s', memory, 0)
  {
    var i, no := s.src, s.done[s.src];
    assert s.arrived[i] <= s'.arrived[i];
    assert s'.arrived[i][no..no + 0] == [];
  }

  /** What stays put may stay put before or after. */
  lemma HandledThenKept<P>(processor: (P, Packet, nat) -> (P, Packet, int), s: State, memory: P, a: State, m: P, b: State, k: nat)
    requires Handled(processor, s, memory, a, m, k) && Kept(a, b) && b.src == a.src
    ensures Handled(processor, s, memory, b, m, k)
  {
    LongerTrans(s.arrived, a.arrived, b.arrived);
    var i, no := s.src, s.done[s.src];
    assert a.arrived[i] <= b.arrived[i];
    assert b.arrived[i][no..no + k] == a.arrived[i][no..no + k];
  }

  lemma KeptThenHandled<P>(processor: (P, Packet, nat) -> (P, Packet, int), s: State, memory: P, a: State, b: State, m: P, k: nat)
    requires Kept(s, a) && a.src == s.src && Handled(processor, a, memory, b, m, k)
    ensures Handled(processor, s, memory, b, m, k)
  {
    LongerTrans(s.arrived, a.arrived, b.arrived);
  }

  lemma HandledMore<P>(processor: (P, Packet, nat) -> (P, Packet, int), s: State, memory: P, a: State, m: P, b: State, m': P, k: nat)
    requires Handled(processor, s, memory, a, m, k) && Handled(processor, a, m, b, m', 1)
    ensures Handled(processor, s, memory, b, m', k + 1)
  {
    LongerTrans(s.arrived, a.arrived, b.arrived);
    var i, no := s.src, s.done[s.src];
    assert a.arrived[i] <= b.arrived[i];
    var pkts := b.arrived[i][no..no + k + 1];
    assert pkts[..k] == a.arrived[i][no..no + k];
    var one := b.arrived[i][no + k..no + k + 1];
    assert one == [pkts[k]];
    HandleSingle(processor, i, no + k, pkts[k], Outcome(m, a.forwarded, a.drops));
    assert s.done[i := no + k][i := no + k + 1] == s.done[i := no + k + 1];
  }

  lemma ProcessedOne<P>(s: State, memory: P, s': State, pkt: Packet, processor: (P, Packet, nat) -> (P, Packet, int))
    requires Shape(s) && s.batch != [] && s.done[s.src] < |s.arrived[s.src]| && pkt == s.arrived[s.src][s.done[s.src]]
    requires var r := processor(memory, pkt, s.src); -1 <= r.2 < |s.xs| && s' == ProcessOne(s, r.2, r.1)
    ensures Handled(processor, s, memory, s', processor(memory, pkt, s.src).0, 1)
  {
    hide FrameOf, Write;
    var i, no := s.src, s.done[s.src];
    assert s'.arrived[i][no..no + 1] == [pkt];
    HandleSingle(processor, i, no, pkt, Outcome(memory, s.forwarded, s.drops));
  }

  // ---------------------------------------------------------------------------
  // What a round over the sockets, and many rounds, should do

  /** How far every socket is after a round that served counts[i] packets of socket i. */
  ghost function Advanced(done: seq<nat>, counts: seq<nat>): (r: seq<nat>)
    requires |counts| <= |done|
    ensures |r| == |done|
  {
    seq(|done|, i requires 0 <= i < |done| => if i < |counts| then done[i] + counts[i] else done[i])
  }

  ghost predicate Available(arrived: seq<seq<Packet>>, done: seq<nat>, counts: seq<nat>) {
    |counts| <= |done| == |arrived| && forall i :: 0 <= i < |counts| ==> done[i] + counts[i] <= |arrived[i]|
  }

  /** The processor is given the next counts[i] packets of socket i, for i = 0, 1, ... */
  ghost function RoundOutcome<P>(processor: (P, Packet, nat) -> (P, Packet, int), arrived: seq<seq<Packet>>, done: seq<nat>, counts: seq<nat>, o: Outcome<P>): Outcome<P>
    requires Available(arrived, done, counts)
    decreases |counts|
  {
    if counts == [] then o
    else
      var i := |counts| - 1;
      HandleAll(processor, i, done[i], arrived[i][done[i]..done[i] + counts[i]], RoundOutcome(processor, arrived, done, counts[..i], o))
  }

  /** From s to s' the sockets were served in turn. */
  ghost predicate Rounded<P>(processor: (P, Packet, nat) -> (P, Packet, int), s: State, memory: P, s': State, memory': P, counts: seq<nat>) {
    && Longer(s.arrived, s'.arrived) && Available(s'.arrived, s.done, counts) && s'.done == Advanced(s.done, counts)
    && Outcome(memory', s'.forwarded, s'.drops) == RoundOutcome(processor, s'.arrived, s.done, counts, Outcome(memory, s.forwarded, s.drops))
  }

  lemma {:induction false} RoundLonger<P>(processor: (P, Packet, nat) -> (P, Packet, int), a: seq<seq<Packet>>, b: seq<seq<Packet>>, done: seq<nat>, counts: seq<nat>, o: Outcome<P>)
    requires Longer(a, b) && Available(a, done, counts)
    ensures Available(b, done, counts) && RoundOutcome(processor, b, done, counts, o) == RoundOutcome(processor, a, done, counts, o)
    decreases |counts|
  {
    forall i | 0 <= i < |counts| ensures done[i] + counts[i] <= |b[i]| { assert a[i] <= b[i]; }
    if counts != [] {
      var i := |counts| - 1;
      RoundLonger(processor, a, b, done, counts[..i], o);
      assert a[i] <= b[i];
      assert b[i][done[i]..done[i] + counts[i]] == a[i][done[i]..done[i] + counts[i]];
    }
  }

  lemma RoundedNone<P>(processor: (P, Packet, nat) -> (P, Packet, int), s: State, memory: P)
    requires |s.done| == |s.arrived|
    ensures Rounded(processor, s, memory, s, memory, [])
  {
  }

  lemma RoundedAt<P>(processor: (P, Packet, nat) -> (P, Packet, int), s: State, memory: P, s': State, memory': P, counts: seq<nat>, j: nat)
    requires Rounded(processor, s, memory, s', memory', counts) && j < |s.done|
    ensures |s'.done| == |s.done| == |s.arrived| == |s'.arrived| && |s'.arrived[j]| >= |s.arrived[j]|
    ensures s'.done[j] == s.done[j] + if j < |counts| then counts[j] else 0
  {
    assert s.arrived[j] <= s'.arrived[j];
  }

  lemma RoundedMore<P>(processor: (P, Packet, nat) -> (P, Packet, int), s: State, memory: P, a: State, m: P, b: State, m': P, counts: seq<nat>, n: nat)
    requires Rounded(processor, s, memory, a, m, counts) && |counts| < |s.done|
    requires Handled(processor, a.(src := |counts|), m, b, m', n)
    ensures Rounded(processor, s, memory, b, m', counts + [n])
  {
    hide HandleAll;
    var i := |counts|;
    LongerTrans(s.arrived, a.arrived, b.arrived);
    RoundLonger(processor, a.arrived, b.arrived, s.done, counts, Outcome(memory, s.forwarded, s.drops));
    var more := counts + [n];
    assert more[..i] == counts && a.done[i] == s.done[i];
    assert b.done == Advanced(s.done, more);
  }

  /** How many packets of socket j arrived and were not processed. */
  ghost function Backlog(s: State, j: nat): nat
    requires j < |s.done| == |s.arrived|
  {
    if s.done[j] < |s.arrived[j]| then |s.arrived[j]| - s.done[j] else 0
  }

  /** How far every socket is after several rounds. */
  ghost function Reached(done: seq<nat>, rounds: seq<seq<nat>>): (r: seq<nat>)
    requires forall k :: 0 <= k < |rounds| ==> |rounds[k]| <= |done|
    ensures |r| == |done|
    decreases |rounds|
  {
    if rounds == [] then done else Advanced(Reached(done, rounds[..|rounds| - 1]), rounds[|rounds| - 1])
  }

  ghost predicate AllAvailable(arrived: seq<seq<Packet>>, done: seq<nat>, rounds: seq<seq<nat>>)
    decreases |rounds|
  {
    && (forall k :: 0 <= k < |rounds| ==> |rounds[k]| <= |done|)
    && (rounds != [] ==>
          var most := rounds[..|rounds| - 1];
          AllAvailable(arrived, done, most) && Available(arrived, Reached(done, most), rounds[|rounds| - 1]))
  }

  ghost function RoundsOutcome<P>(processor: (P, Packet, nat) -> (P, Packet, int), arrived: seq<seq<Packet>>, done: seq<nat>, rounds: seq<seq<nat>>, o: Outcome<P>): Outcome<P>
    requires AllAvailable(arrived, done, rounds)
    decreases |rounds|
  {
    if rounds == [] then o
    else
      var most := rounds[..|rounds| - 1];
      RoundOutcome(processor, arrived, Reached(done, most), rounds[|rounds| - 1], RoundsOutcome(processor, arrived, done, most, o))
  }

  /** From s to s' the sockets were served in these rounds. */
  ghost predicate Worked<P>(processor: (P, Packet, nat) -> (P, Packet, int), s: State, memory: P, s': State, memory': P, rounds: seq<seq<nat>>) {
    && Longer(s.arrived, s'.arrived) && AllAvailable(s'.arrived, s.done, rounds) && s'.done == Reached(s.done, rounds)
    && Outcome(memory', s'.forwarded, s'.drops) == RoundsOutcome(processor, s'.arrived, s.done, rounds, Outcome(memory, s.forwarded, s.drops))
  }

  lemma {:induction false} RoundsLonger<P>(processor: (P, Packet, nat) -> (P, Packet, int), a: seq<seq<Packet>>, b: seq<seq<Packet>>, done: seq<nat>, rounds: seq<seq<nat>>, o: Outcome<P>)
    requires Longer(a, b) && AllAvailable(a, done, rounds)
    ensures AllAvailable(b, done, rounds) && RoundsOutcome(processor, b, done, rounds, o) == RoundsOutcome(processor, a, done, rounds, o)
    decreases |rounds|
  {
    hide RoundOutcome, Available, Longer;
    if rounds != [] {
      var most := rounds[..|rounds| - 1];
      RoundsLonger(processor, a, b, done, most, o);
      RoundLonger(processor, a, b, Reached(done, most), rounds[|rounds| - 1], RoundsOutcome(processor, a, done, most, o));
    }
  }

  lemma WorkedNone<P>(processor: (P, Packet, nat) -> (P, Packet, int), s: State, memory: P)
    ensures Worked(processor, s, memory, s, memory, [])
  {
  }

  lemma WorkedMore<P>(processor: (P, Packet, nat) -> (P, Packet, int), s: State, memory: P, a: State, m: P, b: State, m': P, rounds: seq<seq<nat>>, counts: seq<nat>)
    requires Worked(processor, s, memory, a, m, rounds) && Rounded(processor, a, m, b, m', counts)
    ensures Worked(processor, s, memory, b, m', rounds + [counts])
  {
    hide RoundOutcome;
    LongerTrans(s.arrived, a.arrived, b.arrived);
    RoundsLonger(processor, a.arrived, b.arrived, s.done, rounds, Outcome(memory, s.forwarded, s.drops));
    var more := rounds + [counts];
    assert more[..|rounds|] == rounds;
  }

  /** Packets wait in the rx ring exactly when some arrived and were not processed. */
  lemma UnreadIff(s: State, i: nat)
    requires Shape(s) && ContentOk(s) && i < |s.xs| && s.batch == []
    ensures s.xs[i].rx.Unread() != [] <==> s.done[i] < |s.arrived[i]|
  {
    hide FrameOf;
    assert ContentAt(s, i);
    assert |s.arrived[i][s.done[i]..]| == |s.xs[i].rx.Unread()|;
  }

  lemma StartQuiet(s: State, i: nat)
    requires Quiet(s) && Idle(s)
    ensures Quiet(s.(src := i)) && Idle(s.(src := i))
  {
    var s' := s.(src := i);
    forall j | 0 <= j < |s'.xs| ensures SocketBusy(s'.xs[j], if j == 0 then REST else REST) {
      assert SocketBusy(s.xs[j], if j == 0 then REST else REST);
    }
  }

  lemma DoneBound(s: State, i: nat)
    requires Shape(s) && ContentOk(s) && i < |s.xs|
    ensures s.done[i] <= |s.arrived[i]|
  {
    assert ContentAt(s, i);
  }

  class Worker<P(!new)> {
    const batchSize: nat
    const frameShift: nat
    const ownerShift: nat
    /** xsknf_packet_processor: state, packet and ingress interface give a new
        state, a rewritten packet and -1 or the egress interface. */
    const processor: (P, Packet, nat) -> (P, Packet, int)
    /** Whether the kernel sets completion slots aside before it sends. */
    const reserving: bool
    /** Whether it makes progress on a socket, if it can, each time it is woken up there. */
    const sending: bool
    var memory: P
    var st: State
    var exited: bool          // an exit_with_error branch was taken

    ghost var at: seq<Place>

    ghost predicate Valid()
      reads this
    {
      && 1 <= batchSize <= 255
      && ownerShift == FRAMES_PER_SOCKET_SHIFT + frameShift
      && st.mem.frameSize == Pow2(frameShift)
      && Inv(st, at) && st.src < |st.xs|
      && (reserving ==> RoomOk(st)) && (sending ==> reserving)
      && !exited
      && forall m, pkt, i :: -1 <= processor(m, pkt, i).2 < |st.xs|
    }

    /** xsknf_init: one socket per buffer, each with its own frames to fill. */
    constructor (batchSize: nat, frameShift: nat, processor: (P, Packet, nat) -> (P, Packet, int), memory: P,
                 buffers: seq<nat>, bytes: map<(nat, nat), Packet>, reserving: bool, sending: bool)
      requires 1 <= batchSize <= 255 && buffers != [] && (sending ==> reserving)
      requires forall m, pkt, i :: -1 <= processor(m, pkt, i).2 < |buffers|
      ensures Valid() && Idle(st) && Quiet(st) && Balanced(st)
      ensures |st.xs| == |buffers| && forall i :: 0 <= i < |buffers| ==> st.xs[i].buffer == buffers[i]
      ensures this.processor == processor && this.batchSize == batchSize && this.reserving == reserving && this.sending == sending
    {
      var mem: Memory := Memory(Pow2(frameShift), bytes);
      var xs := [];
      for i := 0 to |buffers|
        invariant |xs| == i && forall k :: 0 <= k < i ==> xs[k] == InitialSocket(k, buffers[k], mem.frameSize)
      {
        var fq := PopulateFill(i * FRAMES_PER_SOCKET, mem.frameSize);
        assert fq.queue == InitialFill(i, mem.frameSize);
        xs := xs + [InitialSocket(i, buffers[i], mem.frameSize).(fq := fq)];
      }
      assert xs == InitialState(buffers, mem).xs;
      InitialInv(buffers, mem);
      InitialBooks(buffers, mem);
      this.batchSize, this.frameShift, this.ownerShift := batchSize, frameShift, FRAMES_PER_SOCKET_SHIFT + frameShift;
      this.processor, this.memory, this.exited, this.reserving, this.sending := processor, memory, false, reserving, sending;
      this.st, this.at := InitialState(buffers, mem).(xs := xs), InitialPlaces(|buffers|);
    }

    /** Any number of kernel steps, in any order. */
    method KernelSteps()
      requires Valid()
      modifies this`st, this`at
      ensures Valid() && WorkerSame(old(st), st)
    {
      hide PlacesOk, OwnersOk, ContentOk, OrderOk, FrameOf, ShiftRight, Pow2;
      var n: nat := *;
      while n > 0
        invariant Valid() && WorkerSame(old(st), st)
      {
        var e: KernelStep := *;
        if Enabled(st, e) && (reserving ==> Reserving(st, e)) {
          KernelLeavesWorker(st, at, e);
          WorkerSameTrans(old(st), st, Next(st, e));
          at := KernelKeepsInv(st, at, e);
          st := Next(st, e);
        }
        n := n - 1;
      }
    }

    /** The kernel runs, and the worker is where it was. */
    method KernelRuns(ghost j: nat, ghost side: Side, ghost base: State, ghost i: nat, ghost d: int)
      requires Valid() && Busy(st, j, side) && Books(base, st, i, d)
      modifies this`st, this`at
      ensures Valid() && WorkerSame(old(st), st) && Busy(st, j, side) && Books(base, st, i, d)
    {
      hide PlacesOk, OwnersOk, ContentOk, OrderOk, FrameOf, ShiftRight, Pow2;
      KernelSteps();
      KernelKeepsBusy(old(st), st, j, side);
      BooksThenKernel(base, old(st), st, i, d);
    }

    // -------------------------------------------------------------------------
    // complete_tx

    /** xsk_ring_cons__peek on the completion ring. */
    method PeekComp(i: nat, nb: nat) returns (n: nat)
      requires Valid() && i < |st.xs| && Quiet(st)
      modifies this`st, this`at
      ensures Valid() && n <= nb && |st.comp| == n && st.toFill == old(st.toFill) && SameArrays(old(st), st)
      ensures n >= Min(nb, Visible(old(st.xs[i].cq)))
      ensures Busy(st, i, Side(0, 0, 0, n)) && Books(old(st), st, i, 0) && Owes(st, i, 0)
    {
      hide PlacesOk, OwnersOk, ContentOk, OrderOk, FrameOf, ShiftRight, Pow2;
      AtRest(st, 0, i);
      KernelRuns(i, REST, st, i, 0);
      BusyAt(st, i, REST);
      assert SocketSame(old(st).xs[i], st.xs[i]);
      at := PeekCompKeepsInv(st, at, i, nb);
      var r := Steps.PeekComp(st, i, nb);
      st, n := r.0, r.1;
    }

    /** `owner = addr >> owner_shift; to_fill[owner][nfill[owner]++] = addr`. */
    method SortNext(ghost base: State, ghost i: nat, ghost side: Side) returns (owner: nat)
      requires Valid() && st.comp != [] && Busy(st, i, side) && Books(base, st, i, 0)
      modifies this`st, this`at
      ensures Valid() && owner < |st.xs| && |st.comp| == |old(st.comp)| - 1 && SameArrays(old(st), st) && st.owed == old(st.owed)
      ensures |st.toFill| == |old(st.toFill)|
      ensures forall j :: 0 <= j < |st.toFill| ==> |st.toFill[j]| == |old(st.toFill[j])| + if j == owner then 1 else 0
      ensures Busy(st, i, side) && Books(base, st, i, 0)
    {
      hide PlacesOk, OwnersOk, ContentOk, OrderOk, FrameOf, ShiftRight, Pow2;
      KernelRuns(i, side, base, i, 0);
      owner := ShiftRight(st.comp[0], ownerShift);
      OwnerByShift(st.comp[0], frameShift);
      SortingOwner(st, at, 0);
      at := SortOneKeepsInv(st, at);
      st := st.(comp := st.comp[1..], toFill := st.toFill[owner := st.toFill[owner] + [st.comp[0]]]);
    }

    /** Map every completed frame to its owner.  The counters are uint8_t. */
    method SortAll(sent: nat, ghost base: State, ghost i: nat, ghost side: Side) returns (nfill: seq<u8>)
      requires Valid() && |st.comp| == sent <= 255 && Busy(st, i, side) && Books(base, st, i, 0)
      requires forall j :: 0 <= j < |st.toFill| ==> st.toFill[j] == []
      modifies this`st, this`at
      ensures Valid() && st.comp == [] && |nfill| == |st.toFill| && SameArrays(old(st), st) && st.owed == old(st.owed)
      ensures forall j :: 0 <= j < |nfill| ==> nfill[j] == |st.toFill[j]|
      ensures Busy(st, i, side) && Books(base, st, i, 0)
    {
      hide PlacesOk, OwnersOk, ContentOk, OrderOk, FrameOf, ShiftRight, Pow2;
      nfill := seq(|st.xs|, _ => 0);
      for k := 0 to sent
        invariant Valid() && |st.comp| == sent - k && |nfill| == |st.toFill| && SameArrays(old(st), st) && st.owed == old(st.owed)
        invariant forall j :: 0 <= j < |nfill| ==> nfill[j] == |st.toFill[j]| <= k
        invariant Busy(st, i, side) && Books(base, st, i, 0)
      {
        var owner := SortNext(base, i, side);
        nfill := nfill[owner := (nfill[owner] + 1) % TWO8];
      }
    }

    /** xsk_ring_cons__release on the completion ring. */
    method ReleaseComp(i: nat, nb: nat, ghost base: State, ghost d: int)
      requires Valid() && i < |st.xs| && Busy(st, i, Side(0, 0, 0, nb)) && Books(base, st, i, d) && Owes(st, i, 0)
      modifies this`st, this`at
      ensures Valid() && st.comp == old(st.comp) && st.toFill == old(st.toFill) && SameArrays(old(st), st)
      ensures Busy(st, i, REST) && Books(base, st, i, d) && Owes(st, i, nb)
      ensures Work(st.xs[i]) + nb <= Work(base.xs[i])
    {
      hide PlacesOk, OwnersOk, ContentOk, OrderOk, FrameOf, ShiftRight, Pow2;
      KernelRuns(i, Side(0, 0, 0, nb), base, i, d);
      BusyAt(st, i, Side(0, 0, 0, nb));
      ReleaseCompKeepsInv(st, at, i, nb);
      st := Steps.ReleaseComp(st, i, nb);
    }

    /** `tx_npkts += sent`, then `outstanding_tx -= sent`, on no shared word. */
    method CountSent(i: nat, sent: nat, outstanding: int, ghost base: State, ghost d: int, ghost owed: int, ghost side: Side)
      requires Valid() && i < |st.xs| && Busy(st, i, side) && Books(base, st, i, d) && Owes(st, i, owed)
      modifies this`st
      ensures Valid() && st.comp == old(st.comp) && st.toFill == old(st.toFill) && SameArrays(old(st), st)
      ensures Busy(st, i, side) && Books(base, st, i, d + sent + outstanding) && Owes(st, i, owed + outstanding)
      ensures Work(st.xs[i]) == Work(old(st.xs[i])) && st.xs[i].txPkts == old(st.xs[i].txPkts) + sent
    {
      hide PlacesOk, OwnersOk, ContentOk, OrderOk, FrameOf, ShiftRight, Pow2;
      CountKeepsInv(st, at, i, sent, 0, outstanding);
      st := Count(st, i, sent, 0, outstanding);
    }

    /** Reserving fill slots for the frames of to_fill[j] never comes up short. */
    method ReserveReturn(j: nat, nb: nat, ghost base: State, ghost i: nat, ghost d: int)
      requires Valid() && j < |st.xs| && nb == |st.toFill[j]| && Busy(st, j, REST) && Books(base, st, i, d)
      modifies this`st, this`at, this`exited
      ensures Valid() && st.comp == old(st.comp) && st.toFill == old(st.toFill) && st.owed == old(st.owed) && SameArrays(old(st), st)
      ensures Busy(st, j, Side(nb, 0, 0, 0)) && Books(base, st, i, d)
    {
      hide PlacesOk, OwnersOk, ContentOk, OrderOk, FrameOf, ShiftRight, Pow2;
      KernelRuns(j, REST, base, i, d);
      BusyAt(st, j, REST);
      FillNeverShort(st, at, j, ToFill(j));
      ReserveFillKeepsInv(st, at, j, nb);
      var r := ReserveFill(st, j, nb);
      st := r.0;
      exited := exited || r.1 != nb;
    }

    method SubmitReturn(j: nat, ghost base: State, ghost i: nat, ghost d: int)
      requires Valid() && j < |st.xs| && Busy(st, j, Side(|st.toFill[j]|, 0, 0, 0)) && Books(base, st, i, d)
      modifies this`st, this`at
      ensures Valid() && st.comp == old(st.comp) && st.toFill == old(st.toFill)[j := []] && st.owed == old(st.owed) && SameArrays(old(st), st)
      ensures Busy(st, j, REST) && Books(base, st, i, d)
    {
      hide PlacesOk, OwnersOk, ContentOk, OrderOk, FrameOf, ShiftRight, Pow2;
      KernelRuns(j, Side(|st.toFill[j]|, 0, 0, 0), base, i, d);
      BusyAt(st, j, Side(|st.toFill[j]|, 0, 0, 0));
      at := SubmitFillKeepsInv(st, at, j);
      st := SubmitFill(st, j);
    }

    /** Put frames in their owner's fill queue. */
    method ReturnAll(nfill: seq<u8>, ghost base: State, ghost i: nat, ghost d: int)
      requires Valid() && st.comp == [] && |nfill| == |st.toFill|
      requires forall j :: 0 <= j < |nfill| ==> nfill[j] == |st.toFill[j]|
      requires Busy(st, i, REST) && Books(base, st, i, d)
      modifies this`st, this`at, this`exited
      ensures Valid() && Unsorted(st) && st.owed == old(st.owed) && SameArrays(old(st), st)
      ensures Busy(st, i, REST) && Books(base, st, i, d)
    {
      hide PlacesOk, OwnersOk, ContentOk, OrderOk, FrameOf, ShiftRight, Pow2, Books, Busy, RoomOk;
      for j := 0 to |nfill|
        invariant Valid() && st.comp == [] && |nfill| == |st.toFill| && st.owed == old(st.owed) && SameArrays(old(st), st)
        invariant forall k :: 0 <= k < j ==> st.toFill[k] == []
        invariant forall k :: j <= k < |nfill| ==> nfill[k] == |st.toFill[k]|
        invariant Busy(st, i, REST) && Books(base, st, i, d)
      {
        if nfill[j] != 0 {
          AtRest(st, i, j);
          ReserveReturn(j, nfill[j], base, i, d);
          SubmitReturn(j, base, i, d);
          AtRest(st, j, i);
        }
      }
    }

    /** The frames of `sent` peeked completions go back to their owners. */
    method Recycle(i: nat, sent: nat, ghost base: State)
      requires Valid() && i < |st.xs| && |st.comp| == sent <= 255
      requires forall j :: 0 <= j < |st.toFill| ==> st.toFill[j] == []
      requires Busy(st, i, Side(0, 0, 0, sent)) && Books(base, st, i, 0) && Owes(st, i, 0)
      modifies this`st, this`at, this`exited
      ensures Valid() && Unsorted(st) && SameArrays(old(st), st)
      ensures Busy(st, i, REST) && Books(base, st, i, 0) && Owes(st, i, 0)
      ensures Work(st.xs[i]) + sent <= Work(base.xs[i]) && st.xs[i].txPkts >= base.xs[i].txPkts + sent
    {
      hide PlacesOk, OwnersOk, ContentOk, OrderOk, FrameOf, ShiftRight, Pow2;
      var nfill := SortAll(sent, base, i, Side(0, 0, 0, sent));
      ReleaseComp(i, sent, base, 0);
      BooksAt(base, st, i, 0, i);
      CountSent(i, sent, 0, base, 0, sent, REST);
      ghost var mid := st;
      ReturnAll(nfill, mid, i, 0);
      BooksAt(mid, st, i, 0, i);
      BooksTrans(base, mid, st, i, sent, 0);
      CountSent(i, 0, 0 - sent, base, sent, sent, REST);
    }

    /** complete_tx.  When there are completions to collect, some are collected. */
    method CompleteTx(i: nat)
      requires Valid() && i < |st.xs| && Quiet(st)
      modifies this`st, this`at, this`exited
      ensures Valid() && Quiet(st) && SameArrays(old(st), st) && Books(old(st), st, i, 0)
      ensures old(st.xs[i].cq.queue) != [] ==> Work(st.xs[i]) < Work(old(st.xs[i]))
      ensures st.xs[i].txPkts >= old(st.xs[i].txPkts) + Min(batchSize, Visible(old(st.xs[i].cq)))
    {
      hide PlacesOk, OwnersOk, ContentOk, OrderOk, FrameOf, ShiftRight, Pow2;
      OutstandingCounts(st, at, i);
      if st.xs[i].outstanding == 0 { return; }
      var ndescs := if st.xs[i].outstanding > batchSize then batchSize else st.xs[i].outstanding;
      var sent := PeekComp(i, ndescs);
      if sent > 0 {
        Recycle(i, sent, old(st));
      }
      AtRest(st, i, 0);
    }

    /** Reserving fill slots for completed frames never comes up short either. */
    method ReserveCompleted(nb: nat, ghost base: State, ghost d: int)
      requires Valid() && |st.xs| == 1 && nb == |st.comp| && Busy(st, 0, Side(0, 0, 0, nb)) && Books(base, st, 0, d)
      modifies this`st, this`at, this`exited
      ensures Valid() && st.comp == old(st.comp) && st.toFill == old(st.toFill) && st.owed == old(st.owed) && SameArrays(old(st), st)
      ensures Busy(st, 0, Side(nb, 0, 0, nb)) && Books(base, st, 0, d)
    {
      hide PlacesOk, OwnersOk, ContentOk, OrderOk, FrameOf, ShiftRight, Pow2;
      KernelRuns(0, Side(0, 0, 0, nb), base, 0, d);
      BusyAt(st, 0, Side(0, 0, 0, nb));
      FillNeverShortOne(st, at);
      ReserveFillKeepsInv(st, at, 0, nb);
      var r := ReserveFill(st, 0, nb);
      st := r.0;
      exited := exited || r.1 != nb;
    }

    method SubmitCompleted(nb: nat, ghost base: State, ghost d: int)
      requires Valid() && |st.xs| == 1 && nb == |st.comp| && Busy(st, 0, Side(nb, 0, 0, nb)) && Books(base, st, 0, d)
      modifies this`st, this`at
      ensures Valid() && st.comp == [] && st.toFill == old(st.toFill) && st.owed == old(st.owed) && SameArrays(old(st), st)
      ensures Busy(st, 0, Side(0, 0, 0, nb)) && Books(base, st, 0, d)
    {
      hide PlacesOk, OwnersOk, ContentOk, OrderOk, FrameOf, ShiftRight, Pow2;
      KernelRuns(0, Side(nb, 0, 0, nb), base, 0, d);
      BusyAt(st, 0, Side(nb, 0, 0, nb));
      at := SubmitCompKeepsInv(st, at);
      st := SubmitComp(st);
    }

    /** The addresses are copied from one ring to the other. */
    method RecycleOne(sent: nat, ghost base: State)
      requires Valid() && |st.xs| == 1 && |st.comp| == sent && Books(base, st, 0, 0) && Owes(st, 0, 0)
      requires Busy(st, 0, Side(0, 0, 0, sent)) && forall j :: 0 <= j < |st.toFill| ==> st.toFill[j] == []
      modifies this`st, this`at, this`exited
      ensures Valid() && Unsorted(st) && SameArrays(old(st), st)
      ensures Busy(st, 0, REST) && Books(base, st, 0, 0) && Owes(st, 0, 0)
      ensures Work(st.xs[0]) + sent <= Work(base.xs[0]) && st.xs[0].txPkts >= base.xs[0].txPkts + sent
    {
      hide PlacesOk, OwnersOk, ContentOk, OrderOk, AccountsOk, FrameOf, ShiftRight, Pow2, RoomOk, Busy, Work;
      BooksAt(base, st, 0, 0, 0);
      BooksWork(base, st);
      CountSent(0, sent, 0, base, 0, 0, Side(0, 0, 0, sent));
      ghost var mid := st;
      BooksSelf(st, 0);
      ReserveCompleted(sent, mid, 0);
      SubmitCompleted(sent, mid, 0);
      ReleaseComp(0, sent, mid, 0);
      BooksAt(mid, st, 0, 0, 0);
      BooksTrans(base, mid, st, 0, sent, 0);
      var less: int := 0 - (sent as int);
      CountSent(0, 0, less, base, sent, sent, REST);
    }

    /** complete_tx_1if. */
    method CompleteTxOne()
      requires Valid() && |st.xs| == 1 && Quiet(st)
      modifies this`st, this`at, this`exited
      ensures Valid() && Quiet(st) && SameArrays(old(st), st) && Books(old(st), st, 0, 0)
      ensures old(st.xs[0].cq.queue) != [] ==> Work(st.xs[0]) < Work(old(st.xs[0]))
      ensures st.xs[0].txPkts >= old(st.xs[0].txPkts) + Min(batchSize, Visible(old(st.xs[0].cq)))
    {
      hide PlacesOk, OwnersOk, ContentOk, OrderOk, FrameOf, ShiftRight, Pow2, RoomOk, Busy;
      OutstandingCounts(st, at, 0);
      if st.xs[0].outstanding == 0 { return; }
      var ndescs := if st.xs[0].outstanding > batchSize then batchSize else st.xs[0].outstanding;
      var sent := PeekComp(0, ndescs);
      if sent > 0 {
        RecycleOne(sent, old(st));
      }
    }

    /** The worker uses the single-interface form when there is one interface. */
    method Complete(i: nat)
      requires Valid() && i < |st.xs| && Quiet(st)
      modifies this`st, this`at, this`exited
      ensures Valid() && Quiet(st) && SameArrays(old(st), st) && Books(old(st), st, i, 0)
      ensures old(st.xs[i].cq.queue) != [] ==> Work(st.xs[i]) < Work(old(st.xs[i]))
      ensures st.xs[i].txPkts >= old(st.xs[i].txPkts) + Min(batchSize, Visible(old(st.xs[i].cq)))
    {
      if |st.xs| > 1 {
        CompleteTx(i);
      } else {
        CompleteTxOne();
      }
    }

    // -------------------------------------------------------------------------
    // process_batch

    /** xsk_ring_cons__peek on the rx ring. */
    method Receive() returns (rcvd: nat)
      requires Valid() && Idle(st) && Quiet(st)
      modifies this`st, this`at
      ensures Valid() && |st.batch| == rcvd <= batchSize && Unsorted(st) && Owes(st, 0, 0)
      ensures Books(old(st), st, st.src, 0) && Busy(st, st.src, Side(0, 0, rcvd, 0))
      ensures st.toDrop == [] && st.toTx == old(st.toTx) && Kept(old(st), st)
      ensures old(st.xs[st.src].rx.Unread()) != [] ==> rcvd > 0
      ensures rcvd >= Min(batchSize, Visible(old(st.xs[st.src].rx)))
    {
      hide PlacesOk, OwnersOk, ContentOk, OrderOk, FrameOf, ShiftRight, Pow2;
      AtRest(st, 0, st.src);
      KernelRuns(st.src, REST, st, st.src, 0);
      BusyAt(st, st.src, REST);
      at := PeekRxKeepsInv(st, at, batchSize);
      var r := PeekRx(st, batchSize);
      st, rcvd := r.0, r.1;
    }

    /** The processor sees the next arrival; its verdict decides the queue. */
    method ProcessNext(ghost base: State, ghost side: Side) returns (verdict: int)
      requires Valid() && st.batch != [] && Books(base, st, st.src, 0) && Busy(st, st.src, side)
      modifies this`st, this`at, this`memory
      ensures Valid() && Books(base, st, st.src, 0) && Busy(st, st.src, side) && -1 <= verdict < |st.xs|
      ensures st.batch == old(st.batch)[1..] && st.comp == old(st.comp) && st.toFill == old(st.toFill) && st.owed == old(st.owed)
      ensures |st.toDrop| == |old(st.toDrop)| + if verdict == -1 then 1 else 0
      ensures st.drops == old(st.drops) + if verdict == -1 then 1 else 0
      ensures |st.toTx| == |old(st.toTx)|
      ensures forall j :: 0 <= j < |st.toTx| ==> |st.toTx[j]| == |old(st.toTx)[j]| + if j == verdict then 1 else 0
      ensures Pending(st.toTx) == Pending(old(st.toTx)) + if verdict == -1 then 0 else 1
      ensures Handled(processor, old(st), old(memory), st, memory, 1)
    {
      hide PlacesOk, OwnersOk, ContentOk, OrderOk, FrameOf, ShiftRight, Pow2, Handled;
      KernelRuns(st.src, side, base, st.src, 0);
      NextArrival(st);
      var pkt := Read(st.mem, st.xs[st.src].buffer, st.batch[0]);
      var r := processor(memory, pkt, st.src);
      memory, verdict := r.0, r.2;
      at := ProcessOneKeepsInv(st, at, verdict, r.1);
      if verdict != -1 {
        PendingUpdate(st.toTx, verdict, st.toTx[verdict] + [Desc(st.batch[0].addr, |r.1|)]);
      }
      ghost var before := st;
      st := ProcessOne(st, verdict, r.1);
      ProcessedOne(before, old(memory), st, pkt, processor);
      KeptThenHandled(processor, old(st), old(memory), before, st, memory, 1);
    }

    /** One turn of the loop: process a packet and count it in its queue. */
    method ProcessCounted(ndrop: u8, ntx: seq<u8>, ghost k: nat, ghost base: State, ghost side: Side) returns (ndrop': u8, ntx': seq<u8>)
      requires Valid() && st.batch != [] && Books(base, st, st.src, 0) && Busy(st, st.src, side)
      requires k < 255 && Tallied(st, ndrop, ntx, k)
      modifies this`st, this`at, this`memory
      ensures Valid() && Books(base, st, st.src, 0) && Busy(st, st.src, side) && Tallied(st, ndrop', ntx', k + 1)
      ensures |st.batch| == |old(st.batch)| - 1 && st.comp == old(st.comp) && st.toFill == old(st.toFill) && st.owed == old(st.owed)
      ensures st.drops + Pending(st.toTx) == old(st.drops) + Pending(old(st.toTx)) + 1
      ensures Handled(processor, old(st), old(memory), st, memory, 1)
    {
      hide PlacesOk, OwnersOk, ContentOk, OrderOk, FrameOf, ShiftRight, Pow2, Handled;
      var ret := ProcessNext(base, side);
      ndrop', ntx' := ndrop, ntx;
      if ret == -1 {
        ndrop' := (ndrop + 1) % TWO8;
      } else {
        ntx' := ntx[ret := (ntx[ret] + 1) % TWO8];
      }
    }

    /** Process packets and store their destination queue. */
    method ProcessAll(rcvd: nat, ghost base: State, ghost side: Side) returns (ndrop: u8, ntx: seq<u8>)
      requires Valid() && |st.batch| == rcvd <= 255 && Books(base, st, st.src, 0) && Busy(st, st.src, side)
      requires st.toDrop == [] && forall j :: 0 <= j < |st.toTx| ==> st.toTx[j] == []
      modifies this`st, this`at, this`memory
      ensures Valid() && Books(base, st, st.src, 0) && Busy(st, st.src, side) && Tallied(st, ndrop, ntx, rcvd)
      ensures st.batch == [] && st.comp == old(st.comp) && st.toFill == old(st.toFill) && st.owed == old(st.owed)
      ensures st.drops + Pending(st.toTx) == old(st.drops) + rcvd
      ensures Handled(processor, old(st), old(memory), st, memory, rcvd)
    {
      hide PlacesOk, OwnersOk, ContentOk, OrderOk, FrameOf, ShiftRight, Pow2, Handled;
      PendingNone(st.toTx);
      DoneBound(st, st.src);
      HandledNone(processor, st, memory, st);
      ndrop, ntx := 0, seq(|st.toTx|, _ => 0);
      for k := 0 to rcvd
        invariant Valid() && Books(base, st, st.src, 0) && Busy(st, st.src, side) && Tallied(st, ndrop, ntx, k)
        invariant |st.batch| == rcvd - k && st.comp == old(st.comp) && st.toFill == old(st.toFill) && st.owed == old(st.owed)
        invariant st.drops + Pending(st.toTx) == old(st.drops) + k
        invariant Handled(processor, old(st), old(memory), st, memory, k)
      {
        ghost var before, m := st, memory;
        ndrop, ntx := ProcessCounted(ndrop, ntx, k, base, side);
        HandledMore(processor, old(st), old(memory), before, m, st, memory, k);
      }
    }

    /** xsk_ring_cons__release on the rx ring. */
    method ReleaseReceived(rcvd: nat, ghost base: State)
      requires Valid() && Books(base, st, st.src, 0) && Busy(st, st.src, Side(0, 0, rcvd, 0)) && Unsorted(st) && Owes(st, 0, 0)
      modifies this`st, this`at
      ensures Valid() && Quiet(st) && Books(base, st, st.src, 0) && SameArrays(old(st), st)
    {
      hide PlacesOk, OwnersOk, ContentOk, OrderOk, FrameOf, ShiftRight, Pow2;
      KernelRuns(st.src, Side(0, 0, rcvd, 0), base, st.src, 0);
      BusyAt(st, st.src, Side(0, 0, rcvd, 0));
      ReleaseRxKeepsInv(st, at, rcvd);
      st := ReleaseRx(st, rcvd);
      AtRest(st, st.src, 0);
    }

    /** `rx_npkts += rcvd` closes the books on the batch. */
    method CountReceived(rcvd: nat)
      requires Valid() && Quiet(st) && Balance(st.xs) + rcvd == st.drops + Pending(st.toTx)
      modifies this`st
      ensures Valid() && Quiet(st) && Balanced(st) && SameArrays(old(st), st) && st.src == old(st.src) && LeftAlone(old(st), st, st.src, st.src)
    {
      hide PlacesOk, OwnersOk, ContentOk, OrderOk, FrameOf, ShiftRight, Pow2;
      CountKeepsInv(st, at, st.src, 0, rcvd, 0);
      st := Count(st, st.src, 0, rcvd, 0);
      BalanceShift(old(st).xs, st.xs, st.src, rcvd);
      assert Busy(st, 0, REST) by {
        forall k | 0 <= k < |st.xs| ensures SocketBusy(st.xs[k], if k == 0 then REST else REST) {
          assert SocketBusy(old(st).xs[k], if k == 0 then REST else REST);
        }
      }
    }

    /** Reserving fill slots for the dropped packets never comes up short. */
    method ReserveDrops(ndrop: nat)
      requires Valid() && Quiet(st) && ndrop == |st.toDrop|
      modifies this`st, this`at, this`exited
      ensures Valid() && SameArrays(old(st), st) && Books(old(st), st, st.src, 0)
      ensures Unsorted(st) && Owes(st, 0, 0) && Busy(st, st.src, Side(ndrop, 0, 0, 0))
    {
      hide PlacesOk, OwnersOk, ContentOk, OrderOk, FrameOf, ShiftRight, Pow2;
      AtRest(st, 0, st.src);
      KernelRuns(st.src, REST, st, st.src, 0);
      BusyAt(st, st.src, REST);
      FillNeverShort(st, at, st.src, ToDrop);
      ReserveFillKeepsInv(st, at, st.src, ndrop);
      var r := ReserveFill(st, st.src, ndrop);
      st := r.0;
      exited := exited || r.1 != ndrop;
    }

    method SubmitDrops(ghost base: State)
      requires Valid() && Books(base, st, st.src, 0)
      requires Unsorted(st) && Owes(st, 0, 0) && Busy(st, st.src, Side(|st.toDrop|, 0, 0, 0))
      modifies this`st, this`at
      ensures Valid() && Quiet(st) && Books(base, st, st.src, 0)
      ensures st.batch == old(st.batch) && st.toDrop == [] && st.toTx == old(st.toTx) && Kept(old(st), st)
    {
      hide PlacesOk, OwnersOk, ContentOk, OrderOk, FrameOf, ShiftRight, Pow2;
      KernelRuns(st.src, Side(|st.toDrop|, 0, 0, 0), base, st.src, 0);
      BusyAt(st, st.src, Side(|st.toDrop|, 0, 0, 0));
      at := SubmitDropKeepsInv(st, at);
      st := SubmitDrop(st);
      AtRest(st, st.src, 0);
    }

    /** xsk_ring_prod__reserve on the tx ring of socket j. */
    method TryReserveTx(j: nat, nb: nat, ghost base: State, ghost i: nat) returns (n: nat)
      requires Valid() && Quiet(st) && j < |st.xs| && Books(base, st, i, 0) && nb > 0
      modifies this`st, this`at
      ensures Valid() && Books(base, st, i, 0) && SameArrays(old(st), st)
      ensures Unsorted(st) && Owes(st, 0, 0) && Busy(st, j, Side(0, n, 0, 0))
      ensures n == nb || (n == 0 && Quiet(st) && |st.xs[j].tx.queue| + nb > RING_SIZE)
    {
      hide PlacesOk, OwnersOk, ContentOk, OrderOk, FrameOf, ShiftRight, Pow2;
      AtRest(st, 0, j);
      KernelRuns(j, REST, base, i, 0);
      BusyAt(st, j, REST);
      ReserveTxKeepsInv(st, at, j, nb);
      var r := ReserveTx(st, j, nb);
      st, n := r.0, r.1;
      if n == 0 { AtRest(st, j, 0); }
    }

    /** memcpy of one packet for socket j, which lives in another buffer. */
    method CopyNext(j: nat, k: nat, ghost base: State, ghost i: nat, ghost side: Side)
      requires Valid() && j < |st.xs| && k < |st.toTx[j]| && Books(base, st, i, 0) && Busy(st, j, side)
      requires st.xs[st.src].buffer != st.xs[j].buffer && Copied(st, j, k)
      modifies this`st, this`at
      ensures Valid() && Books(base, st, i, 0) && Busy(st, j, side) && SameArrays(old(st), st)
      ensures st.comp == old(st.comp) && st.toFill == old(st.toFill) && st.owed == old(st.owed)
      ensures st.xs[st.src].buffer != st.xs[j].buffer && Copied(st, j, k + 1)
    {
      hide PlacesOk, OwnersOk, ContentOk, OrderOk, FrameOf, ShiftRight, Pow2;
      KernelRuns(j, side, base, i, 0);
      KernelKeepsCopied(old(st), st, j, k);
      assert SocketSame(old(st).xs[j], st.xs[j]) && SocketSame(old(st).xs[st.src], st.xs[st.src]);
      CopyOneKeepsInv(st, at, j, k);
      CopyOneReads(st, at, j, k);
      st := CopyOne(st, j, k);
    }

    method SubmitPackets(j: nat, n: nat, ghost base: State, ghost i: nat)
      requires Valid() && j < |st.xs| && n == |st.toTx[j]| && Books(base, st, i, 0) && Busy(st, j, Side(0, n, 0, 0))
      requires Unsorted(st) && Owes(st, 0, 0) && i < |st.xs| && Copied(st, j, n)
      modifies this`st, this`at
      ensures Valid() && Unsorted(st) && Busy(st, j, REST) && Owes(st, j, 0 - n)
      ensures LeftAlone(base, st, i, j) && st.src == base.src && Balance(st.xs) == Balance(base.xs)
      ensures st.batch == old(st.batch) && st.toDrop == old(st.toDrop) && st.toTx == old(st.toTx)[j := []] && Kept(old(st), st)
    {
      hide PlacesOk, OwnersOk, ContentOk, OrderOk, AccountsOk, FrameOf, ShiftRight, Pow2, SubmitTx, Busy, Balance, Copied, SocketBooks;
      AtRest(st, 0, j);
      KernelRuns(j, Side(0, n, 0, 0), base, i, 0);
      KernelKeepsCopied(old(st), st, j, n);
      BooksBalance(base, st, i, 0);
      BooksLeaveAlone(base, st, i, 0);
      BusyAt(st, j, Side(0, n, 0, 0));
      SubmitEffects(st, j, n);
      at := SubmitTxKeepsInv(st, at, j);
      st := SubmitTx(st, j);
    }

    /** `outstanding_tx += ntx`. */
    method CountQueued(j: nat, n: nat)
      requires Valid() && j < |st.xs| && Unsorted(st) && Busy(st, j, REST) && Owes(st, j, 0 - n)
      requires Balance(st.xs) == st.drops + Pending(st.toTx) + n
      modifies this`st, this`at
      ensures Valid() && Quiet(st) && Balanced(st) && SameArrays(old(st), st) && LeftAlone(old(st), st, j, j) && st.src == old(st.src)
    {
      hide PlacesOk, OwnersOk, ContentOk, OrderOk, AccountsOk, FrameOf, ShiftRight, Pow2, Count, Balance, Busy, Books;
      BooksSelf(st, j);
      KernelRuns(j, REST, st, j, 0);
      BooksBalance(old(st), st, j, 0);
      CountKeepsInv(st, at, j, 0, 0, n);
      CountEffects(st, j, n);
      st := Count(st, j, 0, 0, n);
    }

    /** Copy if needed, write the descriptors, submit, count. */
    method Transmit(j: nat, n: nat, ghost base: State, ghost i: nat)
      requires Valid() && j < |st.xs| && i < |st.xs| && n == |st.toTx[j]| && Books(base, st, i, 0) && Busy(st, j, Side(0, n, 0, 0))
      requires Unsorted(st) && Owes(st, 0, 0) && Balance(base.xs) == st.drops + Pending(st.toTx)
      modifies this`st, this`at
      ensures Valid() && Quiet(st) && Balanced(st) && LeftAlone(base, st, i, j) && st.src == base.src
      ensures st.batch == old(st.batch) && st.toDrop == old(st.toDrop) && st.toTx == old(st.toTx)[j := []] && Kept(old(st), st)
    {
      hide PlacesOk, OwnersOk, ContentOk, OrderOk, FrameOf, ShiftRight, Pow2, Busy, Balance, Pending, AccountsOk, RoomOk, Read;
      PendingUpdate(st.toTx, j, []);
      if st.xs[st.src].buffer != st.xs[j].buffer {
        for k := 0 to n
          invariant Valid() && Books(base, st, i, 0) && Busy(st, j, Side(0, n, 0, 0)) && SameArrays(old(st), st)
          invariant st.comp == old(st.comp) && st.toFill == old(st.toFill) && st.owed == old(st.owed)
          invariant st.xs[st.src].buffer != st.xs[j].buffer && Copied(st, j, k)
        {
          CopyNext(j, k, base, i, Side(0, n, 0, 0));
        }
      }
      assert Copied(st, j, n);
      SubmitPackets(j, n, base, i);
      CountQueued(j, n);
    }

    /** A turn of the retry loop: complete transmissions of the receiving socket,
        whichever socket the packets are for, wake the kernel up and try again. */
    method Retry(j: nat, n: nat, ghost base: State) returns (ret: nat)
      requires Valid() && Quiet(st) && j < |st.xs| && n > 0 && Books(base, st, st.src, 0) && |st.xs[j].tx.queue| + n > RING_SIZE
      modifies this`st, this`at, this`exited
      ensures Valid() && Books(base, st, st.src, 0) && SameArrays(old(st), st) && st.src == old(st.src)
      ensures Unsorted(st) && Owes(st, 0, 0) && Busy(st, j, Side(0, ret, 0, 0))
      ensures ret == n || (ret == 0 && Quiet(st) && |st.xs[j].tx.queue| + n > RING_SIZE)
      ensures st.xs[st.src].txPkts >= old(st.xs[st.src].txPkts) + Min(batchSize, Visible(old(st.xs[st.src].cq)))
      ensures sending && n <= 255 && (j == st.src || old(st.xs[j].outstanding) + n <= 2 * RING_SIZE) ==> Work(st.xs[j]) < Work(old(st.xs[j]))
    {
      hide PlacesOk, OwnersOk, ContentOk, OrderOk, FrameOf, ShiftRight, Pow2, Inv, Busy;
      ghost var first := st;
      if sending && n <= 255 { RoomToSend(st, at, j, n); }
      Complete(st.src);
      BooksAt(first, st, st.src, 0, j);
      ghost var mid := st;
      BooksSelf(st, st.src);
      if sending {
        StillCanSend(first, st, at, j);
        KernelProgress(j);
      }
      BooksAt(mid, st, st.src, 0, j);
      ghost var woken := st;
      BooksSelf(st, st.src);
      ret := TryReserveTx(j, n, st, st.src);
      BooksAt(woken, st, st.src, 0, j);
      BooksTrans(mid, woken, st, st.src, 0, 0);
      BooksAt(mid, st, st.src, 0, st.src);
      BooksTrans(first, mid, st, st.src, 0, 0);
      BooksTrans(base, first, st, st.src, 0, 0);
    }

    /** Put frames of redirected packets in the tx queue of socket j, giving up
        after `patience` retries; under a kernel that keeps sending, enough of them
        succeed if the packets are for the receiving socket or fit beside the
        outstanding ones. */
    method SendTo(j: nat, n: nat, patience: nat) returns (ok: bool)
      requires Valid() && Quiet(st) && Balanced(st) && j < |st.xs| && n == |st.toTx[j]| && 0 < n <= 255
      modifies this`st, this`at, this`exited
      ensures Valid() && Quiet(st) && Balanced(st) && st.src == old(st.src) && LeftAlone(old(st), st, st.src, j)
      ensures st.batch == old(st.batch) && st.toDrop == old(st.toDrop) && Kept(old(st), st)
      ensures st.toTx == if ok then old(st.toTx)[j := []] else old(st.toTx)
      ensures !ok ==> |st.xs[j].tx.queue| + n > RING_SIZE
      ensures sending && patience >= ENOUGH && (j == st.src || old(st.xs[j].outstanding) + n <= 2 * RING_SIZE) ==> ok
    {
      hide PlacesOk, OwnersOk, ContentOk, OrderOk, FrameOf, ShiftRight, Pow2, Work, Busy, Inv;
      BooksSelf(st, st.src);
      var ret := TryReserveTx(j, n, st, st.src);
      var tries := patience;
      if sending { WorkBound(st, at, j); }
      while ret != n && tries > 0
        invariant Valid() && Books(old(st), st, old(st.src), 0) && SameArrays(old(st), st) && st.src == old(st.src)
        invariant Unsorted(st) && Owes(st, 0, 0) && Busy(st, j, Side(0, ret, 0, 0))
        invariant ret == n || (ret == 0 && Quiet(st) && |st.xs[j].tx.queue| + n > RING_SIZE)
        invariant sending && patience >= ENOUGH && (j == st.src || old(st.xs[j].outstanding) + n <= 2 * RING_SIZE) ==> Work(st.xs[j]) < ENOUGH - (patience - tries)
        decreases tries
      {
        BooksAt(old(st), st, st.src, 0, j);
        ret := Retry(j, n, old(st));
        tries := tries - 1;
      }
      ok := ret == n;
      if ok {
        ghost var mid := st;
        Transmit(j, n, old(st), st.src);
        KeptTrans(old(st), mid, st);
      } else {
        BooksBalance(old(st), st, st.src, 0);
        BooksLeaveAlone(old(st), st, st.src, 0);
      }
    }

    /** process_batch: the next packets of socket i, at least one if any is waiting,
        are given to the processor in order and go where it says; it stops short
        only while waiting for room in a tx ring. */
    method ProcessBatch(i: nat, patience: nat) returns (finished: bool, ghost n: nat)
      requires Valid() && i < |st.xs| && Idle(st) && Quiet(st) && Balanced(st)
      modifies this`st, this`at, this`exited, this`memory
      ensures Valid() && Quiet(st) && Balanced(st) && |st.xs| == old(|st.xs|)
      ensures finished ==> Idle(st)
      ensures !finished ==> Blocked(st)
      ensures sending && patience >= ENOUGH && (forall j :: 0 <= j < old(|st.xs|) && j != i ==> old(st.xs[j].outstanding) + batchSize <= 2 * RING_SIZE) ==> finished
      ensures n <= batchSize && (old(st.done[i] < |st.arrived[i]|) ==> n > 0)
      ensures st.xs[i].txPkts >= old(st.xs[i].txPkts) + Min(batchSize, Visible(old(st.xs[i].cq)))
      ensures Handled(processor, old(st).(src := i), old(memory), st, memory, n)
    {
      hide PlacesOk, OwnersOk, ContentOk, OrderOk, FrameOf, ShiftRight, Pow2, Handled, Busy, Books, Blocked;
      StartKeepsInv(st, at, i);
      StartQuiet(st, i);
      st := st.(src := i);
      ghost var start := st;
      Complete(i);
      BooksBalance(start, st, i, 0);
      BooksLeaveAlone(start, st, i, 0);
      ghost var completed := st;
      assert start.arrived[i] <= st.arrived[i];
      var rcvd, ndrop, ntx := TakeBatch();
      n := rcvd;
      KeptThenHandled(processor, start, old(memory), completed, st, memory, rcvd);
      ghost var taken := st;
      if rcvd == 0 {
        return true, 0;
      }
      finished := Dispatch(ndrop, ntx, patience);
      HandledThenKept(processor, start, old(memory), taken, memory, st, rcvd);
    }

    /** Receive and process; release and count what was received. */
    method TakeBatch() returns (rcvd: nat, ndrop: u8, ntx: seq<u8>)
      requires Valid() && Idle(st) && Quiet(st) && Balanced(st)
      modifies this`st, this`at, this`memory
      ensures Valid() && Quiet(st) && Balanced(st) && |st.xs| == old(|st.xs|) && st.src == old(st.src)
      ensures Min(batchSize, Visible(old(st.xs[st.src].rx))) <= rcvd <= batchSize
      ensures old(st.done[st.src] < |st.arrived[st.src]|) ==> rcvd > 0
      ensures Handled(processor, old(st), old(memory), st, memory, rcvd)
      ensures rcvd == 0 ==> Idle(st)
      ensures LeftAlone(old(st), st, st.src, st.src) && forall j :: 0 <= j < |ntx| ==> ntx[j] <= rcvd
      ensures st.batch == [] && ndrop == |st.toDrop| && |ntx| == |st.xs| && forall j :: 0 <= j < |ntx| ==> ntx[j] == |st.toTx[j]|
    {
      hide PlacesOk, OwnersOk, ContentOk, OrderOk, FrameOf, ShiftRight, Pow2, Handled;
      UnreadIff(st, st.src);
      rcvd := Receive();
      PendingNone(st.toTx);
      if rcvd == 0 {
        AtRest(st, st.src, 0);
        BooksBalance(old(st), st, st.src, 0);
        DoneBound(old(st), st.src);
        HandledNone(processor, old(st), memory, st);
        return 0, 0, seq(|st.xs|, _ => 0);
      }
      ghost var peeked := st;
      ndrop, ntx := ProcessAll(rcvd, old(st), Side(0, 0, rcvd, 0));
      KeptThenHandled(processor, old(st), old(memory), peeked, st, memory, rcvd);
      ghost var processed := st;
      ReleaseReceived(rcvd, old(st));
      BooksBalance(old(st), st, st.src, 0);
      ghost var released := st;
      CountReceived(rcvd);
      KeptTrans(processed, released, st);
      HandledThenKept(processor, old(st), old(memory), processed, memory, st, rcvd);
    }

    /** Dropped frames go back to the fill ring, the others to the tx rings. */
    method Dispatch(ndrop: nat, ntx: seq<u8>, patience: nat) returns (finished: bool)
      requires Valid() && Quiet(st) && Balanced(st) && |ntx| == |st.xs| && st.batch == [] && ndrop == |st.toDrop|
      requires forall j :: 0 <= j < |ntx| ==> ntx[j] == |st.toTx[j]|
      modifies this`st, this`at, this`exited
      ensures Valid() && Quiet(st) && Balanced(st) && |st.xs| == old(|st.xs|) && st.src == old(st.src) && Kept(old(st), st)
      ensures forall k :: 0 <= k < |st.xs| ==> st.xs[k].txPkts >= old(st.xs[k].txPkts)
      ensures finished ==> Idle(st)
      ensures !finished ==> Blocked(st)
      ensures sending && patience >= ENOUGH && old(RoomBeside(st, ntx)) ==> finished
    {
      hide PlacesOk, OwnersOk, ContentOk, OrderOk, FrameOf, ShiftRight, Pow2, Blocked;
      if ndrop != 0 {
        ReturnDrops(ndrop);
      }
      ghost var mid := st;
      finished := SendAll(ntx, patience);
      KeptTrans(old(st), mid, st);
    }

    method ReturnDrops(ndrop: nat)
      requires Valid() && Quiet(st) && Balanced(st) && ndrop == |st.toDrop|
      modifies this`st, this`at, this`exited
      ensures Valid() && Quiet(st) && Balanced(st) && st.src == old(st.src) && LeftAlone(old(st), st, st.src, st.src)
      ensures st.batch == old(st.batch) && st.toDrop == [] && st.toTx == old(st.toTx) && Kept(old(st), st)
    {
      hide PlacesOk, OwnersOk, ContentOk, OrderOk, FrameOf, ShiftRight, Pow2;
      ReserveDrops(ndrop);
      SubmitDrops(old(st));
      BooksBalance(old(st), st, st.src, 0);
    }

    method SendAll(ntx: seq<u8>, patience: nat) returns (finished: bool)
      requires Valid() && Quiet(st) && Balanced(st) && |ntx| == |st.xs| && st.batch == [] && st.toDrop == []
      requires forall j :: 0 <= j < |ntx| ==> ntx[j] == |st.toTx[j]|
      modifies this`st, this`at, this`exited
      ensures Valid() && Quiet(st) && Balanced(st) && |st.xs| == old(|st.xs|) && st.src == old(st.src) && Kept(old(st), st)
      ensures forall k :: 0 <= k < |st.xs| ==> st.xs[k].txPkts >= old(st.xs[k].txPkts)
      ensures finished ==> Idle(st)
      ensures !finished ==> Blocked(st)
      ensures sending && patience >= ENOUGH && old(RoomBeside(st, ntx)) ==> finished
    {
      hide PlacesOk, OwnersOk, ContentOk, OrderOk, FrameOf, ShiftRight, Pow2, Busy, Balance, Pending;
      for j := 0 to |ntx|
        invariant Valid() && Quiet(st) && Balanced(st) && |ntx| == |st.xs| == old(|st.xs|) && st.batch == [] && st.toDrop == []
        invariant st.src == old(st.src) && Kept(old(st), st)
        invariant forall k :: 0 <= k < |st.xs| ==> st.xs[k].txPkts >= old(st.xs[k].txPkts)
        invariant forall k :: 0 <= k < j ==> st.toTx[k] == []
        invariant forall k :: j <= k < |ntx| ==> ntx[k] == |st.toTx[k]| && (k != st.src ==> st.xs[k].outstanding == old(st.xs[k].outstanding))
      {
        if ntx[j] != 0 {
          ghost var before := st;
          var ok := SendTo(j, ntx[j], patience);
          KeptTrans(old(st), before, st);
          if !ok { return false; }
        }
      }
      finished := true;
    }

    // -------------------------------------------------------------------------
    // The retry loop

    /** A kernel that got a chance to send on socket j: if it may take a packet
        there or has one to report, it does so at least once. */
    method KernelProgress(j: nat)
      requires Valid() && reserving && Quiet(st) && j < |st.xs|
      modifies this`st, this`at
      ensures Valid() && Quiet(st) && SameArrays(old(st), st) && Books(old(st), st, st.src, 0)
      ensures old(CanSend(st, j)) ==> Work(st.xs[j]) < Work(old(st.xs[j]))
    {
      hide PlacesOk, OwnersOk, ContentOk, OrderOk, AccountsOk, FrameOf, ShiftRight, Pow2, Next, Enabled, Books, Busy, CanSend, Reserving;
      ghost var base := st;
      BooksSelf(st, st.src);
      if CanSend(st, j) {
        var e := if st.xs[j].ktx == [] then TakeTx(j) else PutComp(j, 0);
        SendOrReport(st, j, e);
        KernelLeavesWorker(st, at, e);
        KernelKeepsBusy(st, Next(st, e), 0, REST);
        BooksThenKernel(st, st, Next(st, e), st.src, 0);
        at := KernelKeepsInv(st, at, e);
        st := Next(st, e);
      }
      ghost var mid := st;
      BooksSelf(st, st.src);
      KernelRuns(0, REST, mid, st.src, 0);
      BooksTrans(base, mid, st, st.src, 0, 0);
      assert SocketSame(mid.xs[j], st.xs[j]);
    }

    /** With a kernel that keeps sending, the retry loop ends, provided that the
        packets are for the receiving socket or fit beside its outstanding ones. */
    method RetryUntilRoom(j: nat, n: nat) returns (ret: nat)
      requires Valid() && sending && Quiet(st) && j < |st.xs| && 0 < n <= 255
      requires j == st.src || st.xs[j].outstanding + n <= 2 * RING_SIZE
      modifies this`st, this`at, this`exited
      ensures Valid() && SameArrays(old(st), st) && ret == n && Busy(st, j, Side(0, n, 0, 0))
      ensures Books(old(st), st, st.src, 0) && Unsorted(st) && Owes(st, 0, 0)
    {
      hide PlacesOk, OwnersOk, ContentOk, OrderOk, FrameOf, ShiftRight, Pow2, Inv, Busy, Work, Quiet;
      BooksSelf(st, st.src);
      ret := TryReserveTx(j, n, st, st.src);
      while ret != n
        invariant Valid() && SameArrays(old(st), st) && Books(old(st), st, old(st.src), 0) && st.src == old(st.src)
        invariant Busy(st, j, Side(0, ret, 0, 0)) && Unsorted(st) && Owes(st, 0, 0)
        invariant ret == n || (Quiet(st) && |st.xs[j].tx.queue| + n > RING_SIZE)
        decreases Work(st.xs[j])
      {
        BooksAt(old(st), st, st.src, 0, j);
        ret := Retry(j, n, old(st));
      }
    }

    /** process_batch under a kernel that keeps sending: the whole batch is done
        when the other sockets have few enough packets outstanding, and so always
        when there is one interface. */
    method FinishBatch(i: nat) returns (ghost n: nat)
      requires Valid() && sending && i < |st.xs| && Idle(st) && Quiet(st) && Balanced(st)
      requires forall j :: 0 <= j < |st.xs| && j != i ==> st.xs[j].outstanding + batchSize <= 2 * RING_SIZE
      modifies this`st, this`at, this`exited, this`memory
      ensures Valid() && Quiet(st) && Balanced(st) && Idle(st) && |st.xs| == old(|st.xs|)
      ensures n <= batchSize && (old(st.done[i] < |st.arrived[i]|) ==> n > 0)
      ensures Handled(processor, old(st).(src := i), old(memory), st, memory, n)
    {
      var finished;
      finished, n := ProcessBatch(i, ENOUGH);
    }

    /** Otherwise it never does: complete_tx is called for the receiving socket,
        so nothing empties the completion ring that blocks socket j. */
    method RetryNever(j: nat, n: nat, turns: nat) returns (ret: nat)
      requires Valid() && reserving && Quiet(st) && j < |st.xs| && n > 0
      requires j != st.src && st.xs[j].outstanding + n > 2 * RING_SIZE
      modifies this`st, this`at, this`exited
      ensures Valid() && SameArrays(old(st), st) && ret == 0
    {
      hide PlacesOk, OwnersOk, ContentOk, OrderOk, FrameOf, ShiftRight, Pow2, Inv;
      ret := TryReserveTx(j, n, st, st.src);
      BooksAt(old(st), st, st.src, 0, j);
      ReservedFits(st, at, j, ret);
      for k := 0 to turns
        invariant Valid() && SameArrays(old(st), st) && Books(old(st), st, old(st.src), 0) && Quiet(st) && ret == 0
        invariant |st.xs[j].tx.queue| + n > RING_SIZE
      {
        ret := Retry(j, n, old(st));
        BooksAt(old(st), st, st.src, 0, j);
        ReservedFits(st, at, j, ret);
      }
    }

    /** One round of worker_loop: every socket is served, in order, unless packets have
        to wait for room.  A socket with packets waiting gets at least one processed. */
    method Round(patience: nat) returns (waiting: bool, ghost counts: seq<nat>)
      requires Valid() && Idle(st) && Quiet(st) && Balanced(st)
      modifies this`st, this`at, this`exited, this`memory
      ensures Valid() && Quiet(st) && Balanced(st) && |st.xs| == old(|st.xs|)
      ensures Rounded(processor, old(st), old(memory), st, memory, counts)
      ensures if waiting then 0 < |counts| <= |st.xs| && Blocked(st) else |counts| == |st.xs| && Idle(st)
      ensures forall i :: 0 <= i < |counts| ==> counts[i] <= batchSize && (old(st.done[i] < |st.arrived[i]|) ==> counts[i] > 0)
      ensures sending && patience >= ENOUGH && |st.xs| == 1 ==> !waiting
    {
      hide PlacesOk, OwnersOk, ContentOk, OrderOk, FrameOf, ShiftRight, Pow2, Handled, Rounded, Balance, Busy, Blocked;
      counts := [];
      RoundedNone(processor, st, memory);
      for i := 0 to |st.xs|
        invariant Valid() && Idle(st) && Quiet(st) && Balanced(st) && |st.xs| == old(|st.xs|) && |counts| == i
        invariant Rounded(processor, old(st), old(memory), st, memory, counts)
        invariant forall k :: 0 <= k < i ==> counts[k] <= batchSize && (old(st.done[k] < |st.arrived[k]|) ==> counts[k] > 0)
      {
        ghost var before, m := st, memory;
        RoundedAt(processor, old(st), old(memory), st, memory, counts, i);
        var finished;
        ghost var n;
        finished, n := ProcessBatch(i, patience);
        RoundedMore(processor, old(st), old(memory), before, m, st, memory, counts, n);
        counts := counts + [n];
        if !finished { return true, counts; }
      }
      waiting := false;
    }

    /** worker_loop: any number of rounds over all sockets.  The processor's memory, what
        was forwarded and what was dropped are as when it is given the packets of each
        socket in order, socket after socket and round after round; no socket starves. */
    method WorkerLoop(rounds: nat, patience: nat) returns (waiting: bool, ghost served: seq<seq<nat>>)
      requires Valid() && Idle(st) && Quiet(st) && Balanced(st)
      modifies this`st, this`at, this`exited, this`memory
      ensures Valid() && Quiet(st) && Balanced(st) && |st.xs| == old(|st.xs|)
      ensures Worked(processor, old(st), old(memory), st, memory, served)
      ensures forall r :: 0 <= r < |served| && (r + 1 < |served| || !waiting) ==> |served[r]| == |st.xs|
      ensures if waiting then 0 < |served| <= rounds && Blocked(st) else |served| == rounds && Idle(st)
      ensures !waiting ==> forall j :: 0 <= j < |st.xs| ==> st.done[j] >= old(st.done[j]) + Min(rounds, old(Backlog(st, j)))
      ensures sending && patience >= ENOUGH && |st.xs| == 1 ==> !waiting
    {
      hide PlacesOk, OwnersOk, ContentOk, OrderOk, FrameOf, ShiftRight, Pow2, Rounded, Worked, Balance, Busy, Blocked;
      served := [];
      WorkedNone(processor, st, memory);
      for r := 0 to rounds
        invariant Valid() && Idle(st) && Quiet(st) && Balanced(st) && |st.xs| == old(|st.xs|) && |served| == r
        invariant Worked(processor, old(st), old(memory), st, memory, served)
        invariant forall k :: 0 <= k < r ==> |served[k]| == |st.xs|
        invariant forall j :: 0 <= j < |st.xs| ==> |st.arrived[j]| >= |old(st.arrived[j])|
        invariant forall j :: 0 <= j < |st.xs| ==> st.done[j] >= old(st.done[j]) + Min(r, old(Backlog(st, j)))
      {
        ghost var before, m, counts := st, memory, [];
        waiting, counts := Round(patience);
        WorkedMore(processor, old(st), old(memory), before, m, st, memory, served, counts);
        served := served + [counts];
        if waiting { return; }
        forall j | 0 <= j < |st.xs| ensures |st.arrived[j]| >= |before.arrived[j]| && st.done[j] == before.done[j] + counts[j] {
          RoundedAt(processor, before, m, st, memory, counts, j);
        }
      }
      waiting := false;
    }
  }
}
