/** complete_tx_1if submits to the fill ring before it releases the completion
    ring, and copies addresses without sorting them.  Every run of it, however the
    kernel steps fall between its operations, ends in a state that a run of
    complete_tx on one socket can also end in. */
module OneInterface {
  import opened Words
  import opened Frames
  import opened Steps
  import Fifo

  /** The kernel performs the steps of `es` in turn. */
  ghost predicate CanRun(s: State, es: seq<KernelStep>)
    decreases es
  {
    es == [] || (Enabled(s, es[0]) && CanRun(Next(s, es[0]), es[1..]))
  }

  ghost function Run(s: State, es: seq<KernelStep>): State
    requires CanRun(s, es)
    decreases es
  {
    if es == [] then s else Run(Next(s, es[0]), es[1..])
  }

  ghost predicate One(s: State) {
    |s.xs| == |s.toFill| == |s.owed| == 1 && SocketOk(s.xs[0])
  }

  /** The loop that sorts completed addresses by owner, run to its end. */
  ghost function SortMany(s: State): State
    requires |s.toFill| == 1 && forall k :: 0 <= k < |s.comp| ==> Owner(FrameOf(s.mem.frameSize, s.comp[k])) == 0
    decreases |s.comp|
  {
    if s.comp == [] then s else SortMany(SortOne(s))
  }

  /** complete_tx_1if from the reservation in the fill ring to its end. */
  ghost predicate FillsOne(s: State, n: nat, b: seq<KernelStep>, c: seq<KernelStep>, end: State) {
    && One(s)
    && ReserveFill(s, 0, n).1 == n && CanRun(ReserveFill(s, 0, n).0, b)
    && var s1 := Run(ReserveFill(s, 0, n).0, b);
    && One(s1) && |s1.comp| <= s1.xs[0].fq.held && CanRun(SubmitComp(s1), c)
    && var s2 := Run(SubmitComp(s1), c);
    && One(s2) && n <= s2.xs[0].cq.out
    && end == Count(Steps.ReleaseComp(s2, 0, n), 0, 0, 0, 0 - n)
  }

  /** complete_tx_1if, with the kernel running where a, b and c say. */
  ghost predicate CompletesOne(s: State, nb: nat, a: seq<KernelStep>, b: seq<KernelStep>, c: seq<KernelStep>, end: State) {
    && One(s)
    && var (s1, n) := PeekComp(s, 0, nb);
    && var s2 := Count(s1, 0, n, 0, 0);
    && CanRun(s2, a) && FillsOne(Run(s2, a), n, b, c, end)
  }

  ghost predicate FillsMany(s: State, n: nat, b: seq<KernelStep>, c: seq<KernelStep>, end: State) {
    && One(s) && |s.toFill[0]| == n
    && ReserveFill(s, 0, n).1 == n && CanRun(ReserveFill(s, 0, n).0, b)
    && var s1 := Run(ReserveFill(s, 0, n).0, b);
    && One(s1) && |s1.toFill[0]| <= s1.xs[0].fq.held && CanRun(SubmitFill(s1, 0), c)
    && var s2 := Run(SubmitFill(s1, 0), c);
    && One(s2)
    && end == Count(s2, 0, 0, 0, 0 - n)
  }

  /** complete_tx on one socket, likewise. */
  ghost predicate CompletesMany(s: State, nb: nat, a: seq<KernelStep>, b: seq<KernelStep>, c: seq<KernelStep>, end: State) {
    && One(s)
    && var (s1, n) := PeekComp(s, 0, nb);
    && (forall k :: 0 <= k < |s1.comp| ==> Owner(FrameOf(s1.mem.frameSize, s1.comp[k])) == 0)
    && var s2 := SortMany(s1);
    && One(s2) && n <= s2.xs[0].cq.out
    && var s3 := Count(Steps.ReleaseComp(s2, 0, n), 0, n, 0, 0);
    && CanRun(s3, a) && FillsMany(Run(s3, a), n, b, c, end)
  }

  // ---------------------------------------------------------------------------

  /** Sorting and releasing, done early. */
  ghost function Ahead(s: State, n: nat): State
    requires One(s) && n <= s.xs[0].cq.out
  {
    Steps.ReleaseComp(s.(comp := [], toFill := [s.toFill[0] + s.comp]), 0, n)
  }

  lemma {:induction false} SortedAtOnce(s: State)
    requires |s.toFill| == 1 && forall k :: 0 <= k < |s.comp| ==> Owner(FrameOf(s.mem.frameSize, s.comp[k])) == 0
    ensures SortMany(s) == s.(comp := [], toFill := [s.toFill[0] + s.comp])
    decreases |s.comp|
  {
    if s.comp == [] {
      assert s.toFill[0] + [] == s.toFill[0];
      assert s.toFill == [s.toFill[0] + []];
    } else {
      SortedAtOnce(SortOne(s));
      assert s.comp == [s.comp[0]] + s.comp[1..];
      assert s.toFill[0] + s.comp == s.toFill[0] + [s.comp[0]] + s.comp[1..];
      assert s.toFill[0 := s.toFill[0] + [s.comp[0]]] == [s.toFill[0] + [s.comp[0]]];
    }
  }

  /** A kernel step commutes with releasing completions. */
  lemma StepAhead(s: State, e: KernelStep, n: nat)
    requires One(s) && n <= s.xs[0].cq.out && Enabled(s, e)
    ensures Enabled(Ahead(s, n), e)
    ensures One(Next(s, e)) && Next(s, e).xs[0].cq.out == s.xs[0].cq.out
    ensures Next(Ahead(s, n), e) == Ahead(Next(s, e), n)
  {
    var x, x' := s.xs[0], Next(s, e).xs[0];
    if e.PutComp? {
      assert x'.cq.queue[n..] == x.cq.queue[n..] + [x.ktx[e.k].desc.addr];
    }
    assert Next(Ahead(s, n), e).xs == Ahead(Next(s, e), n).xs;
  }

  lemma {:induction false} RunAhead(s: State, es: seq<KernelStep>, n: nat)
    requires One(s) && n <= s.xs[0].cq.out && CanRun(s, es)
    ensures CanRun(Ahead(s, n), es)
    ensures One(Run(s, es)) && Run(s, es).xs[0].cq.out == s.xs[0].cq.out
    ensures Run(Ahead(s, n), es) == Ahead(Run(s, es), n)
    decreases es
  {
    if es != [] {
      StepAhead(s, es[0], n);
      RunAhead(Next(s, es[0]), es[1..], n);
    }
  }

  lemma {:induction false} RunKeepsArrays(s: State, es: seq<KernelStep>)
    requires CanRun(s, es)
    ensures Run(s, es).comp == s.comp && Run(s, es).toFill == s.toFill
    decreases es
  {
    if es != [] { RunKeepsArrays(Next(s, es[0]), es[1..]); }
  }

  lemma ReserveAhead(s: State, n: nat, nb: nat)
    requires One(s) && n <= s.xs[0].cq.out
    ensures ReserveFill(Ahead(s, n), 0, nb).1 == ReserveFill(s, 0, nb).1
    ensures var s' := ReserveFill(s, 0, nb).0; One(s') && s'.xs[0].cq == s.xs[0].cq && ReserveFill(Ahead(s, n), 0, nb).0 == Ahead(s', n)
  {
  }

  lemma CountAhead(s: State, n: nat, sent: nat)
    requires One(s) && n <= s.xs[0].cq.out
    ensures var s' := Count(s, 0, sent, 0, 0); One(s') && s'.xs[0].cq == s.xs[0].cq && Count(Ahead(s, n), 0, sent, 0, 0) == Ahead(s', n)
  {
    assert Count(Ahead(s, n), 0, sent, 0, 0).owed == Ahead(Count(s, 0, sent, 0, 0), n).owed;
  }

  /** Submitting the sorted addresses is submitting the completed ones. */
  lemma SubmitAhead(s: State, n: nat)
    requires One(s) && n <= s.xs[0].cq.out && s.toFill == [[]] && |s.comp| <= s.xs[0].fq.held
    ensures var s' := SubmitComp(s);
      One(s') && s'.xs[0].cq == s.xs[0].cq && SubmitFill(Ahead(s, n), 0) == Ahead(s', n)
  {
    var s' := SubmitComp(s);
    assert s.toFill[0] + s.comp == s.comp;
    assert s'.toFill[0] + s'.comp == [];
    assert SubmitFill(Ahead(s, n), 0).xs == Ahead(s', n).xs;
    assert SubmitFill(Ahead(s, n), 0).toFill == [[]];
  }

  lemma CompletedOwners(s: State, at: seq<Place>, nb: nat)
    requires Inv(s, at) && |s.xs| == 1
    ensures var s1 := PeekComp(s, 0, nb).0;
      forall k :: 0 <= k < |s1.comp| ==> Owner(FrameOf(s1.mem.frameSize, s1.comp[k])) == 0
  {
    hide FrameOf;
    var s1 := PeekComp(s, 0, nb).0;
    var at1 := PeekCompKeepsInv(s, at, 0, nb);
    forall k | 0 <= k < |s1.comp| ensures Owner(FrameOf(s1.mem.frameSize, s1.comp[k])) == 0 {
      PlaceOf(s1, at1, Sorting, k);
    }
  }

  lemma FillRefines(s: State, n: nat, b: seq<KernelStep>, c: seq<KernelStep>, end: State)
    requires FillsOne(s, n, b, c, end) && s.toFill == [[]] && |s.comp| == n <= s.xs[0].cq.out
    ensures FillsMany(Ahead(s, n), n, b, c, end)
  {
    hide Run, CanRun, PeekComp, SubmitComp, SubmitFill, ReserveFill, Next, Enabled;
    ReserveAhead(s, n, n);
    var s1 := ReserveFill(s, 0, n).0;
    assert s1.comp == s.comp && s1.toFill == s.toFill by { ReserveKeepsArrays(s, n); }
    RunAhead(s1, b, n);
    RunKeepsArrays(s1, b);
    var s2 := Run(s1, b);
    SubmitAhead(s2, n);
    var s3 := SubmitComp(s2);
    RunAhead(s3, c, n);
    RunKeepsArrays(s3, c);
    SubmitLeavesNone(s2);
    var s4 := Run(s3, c);
    assert s4.comp == [] && s4.toFill == [[]];
    assert s4.toFill[0] + s4.comp == [];
    assert Ahead(s4, n) == Steps.ReleaseComp(s4, 0, n);
  }

  lemma ReserveKeepsArrays(s: State, n: nat)
    requires One(s)
    ensures var s' := ReserveFill(s, 0, n).0; s'.comp == s.comp && s'.toFill == s.toFill
  {
  }

  lemma SubmitLeavesNone(s: State)
    requires One(s) && |s.comp| <= s.xs[0].fq.held
    ensures SubmitComp(s).comp == [] && SubmitComp(s).toFill == s.toFill
  {
  }

  /** The single-interface path refines the general one. */
  lemma {:induction false} OneRefinesMany(s: State, at: seq<Place>, nb: nat, a: seq<KernelStep>, b: seq<KernelStep>, c: seq<KernelStep>, end: State)
    requires Inv(s, at) && |s.xs| == 1 && s.comp == [] && s.toFill == [[]] && s.xs[0].cq.out == 0
    requires CompletesOne(s, nb, a, b, c, end)
    ensures CompletesMany(s, nb, a, b, c, end)
  {
    hide Inv, FrameOf, Run, CanRun, FillsOne, FillsMany, SortMany;
    var (s1, n) := PeekComp(s, 0, nb);
    CompletedOwners(s, at, nb);
    SortedAtOnce(s1);
    assert One(s1) && s1.xs[0].cq.out == n && |s1.comp| == n;
    CountAhead(s1, n, n);
    var s2 := Count(s1, 0, n, 0, 0);
    RunAhead(s2, a, n);
    RunKeepsArrays(s2, a);
    FillRefines(Run(s2, a), n, b, c, end);
  }
}
