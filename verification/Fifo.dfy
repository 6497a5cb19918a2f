/** The bounded queues that the AF_XDP rings stand for, as values.  A producer
    ring is seen from the side that reserves and submits, a consumer ring from
    the side that peeks and releases. */
module Fifo {
  import opened Words

  /** `queue` is submitted and not yet consumed, `held` slots are reserved. */
  datatype Prod<T> = Prod(size: nat, queue: seq<T>, held: nat) {
    predicate Ok() { |queue| + held <= size }
  }

  /** All or nothing: `nb` slots when they are free, otherwise none. */
  function Reserve<T>(q: Prod<T>, nb: nat): (r: (Prod<T>, nat))
    requires q.Ok()
    ensures r.0.Ok() && r.0.queue == q.queue
  {
    if |q.queue| + q.held + nb <= q.size then (q.(held := q.held + nb), nb) else (q, 0)
  }

  function Submit<T>(q: Prod<T>, vals: seq<T>): (r: Prod<T>)
    requires q.Ok() && |vals| <= q.held
    ensures r.Ok()
  {
    q.(queue := q.queue + vals, held := q.held - |vals|)
  }

  /** The other side consumes the oldest entry. */
  function Take<T>(q: Prod<T>): (r: (Prod<T>, T))
    requires q.Ok() && q.queue != []
    ensures r.0.Ok()
  {
    (q.(queue := q.queue[1..]), q.queue[0])
  }

  /** `queue` holds what was produced and not released; its first `out` entries
      are peeked, and `known` more are already visible locally. */
  datatype Cons<T> = Cons(size: nat, queue: seq<T>, out: nat, known: nat) {
    predicate Ok() { out + known <= |queue| <= size }

    function Peeked(): seq<T>
      requires Ok()
    {
      queue[..out]
    }

    function Unread(): seq<T>
      requires Ok()
    {
      queue[out..]
    }
  }

  /** The entries that a peek can count on, whatever else is produced meanwhile. */
  function Visible<T>(q: Cons<T>): (n: nat)
    requires q.Ok()
    ensures n <= |q.queue| - q.out && (n > 0 <==> |q.queue| > q.out)
  {
    if q.known == 0 then |q.queue| - q.out else q.known
  }

  /** The producer index is looked up again only when nothing is known. */
  function Peek<T>(q: Cons<T>, nb: nat): (r: (Cons<T>, nat))
    requires q.Ok()
    ensures r.0.Ok() && r.0.queue == q.queue && r.0.out == q.out + r.1
    ensures r.1 <= nb && r.1 <= |q.queue| - q.out
    ensures nb > 0 && |q.queue| > q.out ==> r.1 > 0
    ensures r.1 == Min(nb, Visible(q))
  {
    var known := if q.known == 0 then |q.queue| - q.out else q.known;
    var n := Min(nb, known);
    (q.(out := q.out + n, known := known - n), n)
  }

  /** The entries that a peek hands out are the oldest unread ones. */
  lemma PeekTakesOldest<T>(q: Cons<T>, nb: nat)
    requires q.Ok()
    ensures var (r, n) := Peek(q, nb); q.Unread() == q.queue[q.out..q.out + n] + r.Unread()
  {
  }

  function Cancel<T>(q: Cons<T>, nb: nat): (r: Cons<T>)
    requires q.Ok() && nb <= q.out
    ensures r.Ok() && r.queue == q.queue
  {
    q.(out := q.out - nb, known := q.known + nb)
  }

  function Release<T>(q: Cons<T>, nb: nat): (r: Cons<T>)
    requires q.Ok() && nb <= q.out
    ensures r.Ok()
  {
    q.(queue := q.queue[nb..], out := q.out - nb)
  }

  /** The other side produces one entry. */
  function Put<T>(q: Cons<T>, v: T): (r: Cons<T>)
    requires q.Ok() && |q.queue| < q.size
    ensures r.Ok()
  {
    q.(queue := q.queue + [v])
  }

  // ---------------------------------------------------------------------------
  // Runs

  datatype ProdEvent<T> = Reserves(nb: nat) | Submits(vals: seq<T>) | Taken

  /** The queue with everything submitted to it and everything taken from it. */
  datatype ProdRun<T> = ProdRun(q: Prod<T>, submitted: seq<T>, taken: seq<T>) {
    predicate Ok() { q.Ok() }

    /** Steps that are not enabled do nothing. */
    function Step(e: ProdEvent<T>): (r: ProdRun<T>)
      requires Ok()
      ensures r.Ok()
    {
      match e
      case Reserves(nb) => this.(q := Reserve(q, nb).0)
      case Submits(vals) =>
        if |vals| <= q.held then this.(q := Submit(q, vals), submitted := submitted + vals) else this
      case Taken =>
        if q.queue != [] then this.(q := Take(q).0, taken := taken + [Take(q).1]) else this
    }

    function Steps(es: seq<ProdEvent<T>>): (r: ProdRun<T>)
      requires Ok()
      ensures r.Ok()
      decreases |es|
    {
      if es == [] then this else Step(es[0]).Steps(es[1..])
    }
  }

  /** In every run the values consumed are a prefix of the values submitted, and
      what lies between is the queue. */
  lemma {:induction false} TakenArePrefix<T>(s: ProdRun<T>, es: seq<ProdEvent<T>>)
    requires s.Ok() && s.submitted == s.taken + s.q.queue
    ensures var r := s.Steps(es); r.submitted == r.taken + r.q.queue && r.taken <= r.submitted && |r.q.queue| <= r.q.size
    decreases |es|
  {
    if es != [] {
      var s1 := s.Step(es[0]);
      match es[0] {
        case Reserves(nb) =>
        case Submits(vals) => assert s.taken + (s.q.queue + vals) == (s.taken + s.q.queue) + vals;
        case Taken => if s.q.queue != [] { assert s.taken + s.q.queue == (s.taken + [s.q.queue[0]]) + s.q.queue[1..]; }
      }
      TakenArePrefix(s1, es[1..]);
    }
  }

  datatype ConsEvent<T> = Peeks(nb: nat) | Cancels(nb: nat) | Releases(nb: nat) | Produced(v: T)

  /** The queue with everything produced into it and everything released from it. */
  datatype ConsRun<T> = ConsRun(q: Cons<T>, produced: seq<T>, released: seq<T>) {
    predicate Ok() { q.Ok() }

    function Step(e: ConsEvent<T>): (r: ConsRun<T>)
      requires Ok()
      ensures r.Ok()
    {
      match e
      case Peeks(nb) => this.(q := Peek(q, nb).0)
      case Cancels(nb) => if nb <= q.out then this.(q := Cancel(q, nb)) else this
      case Releases(nb) => if nb <= q.out then this.(q := Release(q, nb), released := released + q.queue[..nb]) else this
      case Produced(v) => if |q.queue| < q.size then this.(q := Put(q, v), produced := produced + [v]) else this
    }

    function Steps(es: seq<ConsEvent<T>>): (r: ConsRun<T>)
      requires Ok()
      ensures r.Ok()
      decreases |es|
    {
      if es == [] then this else Step(es[0]).Steps(es[1..])
    }
  }

  /** In every run the values released, then those peeked, are a prefix of the values
      produced: nothing is read before it is produced, skipped or read twice. */
  lemma {:induction false} ReadsArePrefix<T>(s: ConsRun<T>, es: seq<ConsEvent<T>>)
    requires s.Ok() && s.produced == s.released + s.q.queue
    ensures var r := s.Steps(es);
      r.produced == r.released + r.q.queue && r.released + r.q.Peeked() <= r.produced
    decreases |es|
  {
    if es == [] {
      assert s.q.queue == s.q.Peeked() + s.q.Unread();
    } else {
      var s1 := s.Step(es[0]);
      match es[0] {
        case Peeks(nb) =>
        case Cancels(nb) =>
        case Releases(nb) =>
          if nb <= s.q.out {
            assert s.q.queue == s.q.queue[..nb] + s.q.queue[nb..];
            assert s.released + (s.q.queue[..nb] + s.q.queue[nb..]) == (s.released + s.q.queue[..nb]) + s.q.queue[nb..];
          }
        case Produced(v) => assert s.released + (s.q.queue + [v]) == (s.released + s.q.queue) + [v];
      }
      ReadsArePrefix(s1, es[1..]);
    }
  }
}
