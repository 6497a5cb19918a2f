/** Items 0..n distributed over places: each item is in exactly one place and
    occurs there once.  Independent of what the places are. */
module Partition {

  ghost predicate NoDup(xs: seq<nat>) {
    forall j, k :: 0 <= j < k < |xs| ==> xs[j] != xs[k]
  }

  /** `at` names for every item the one place whose list contains it. */
  ghost predicate Placed<P(!new)>(h: P -> seq<nat>, at: seq<P>) {
    && (forall p, k :: 0 <= k < |h(p)| ==> h(p)[k] < |at| && at[h(p)[k]] == p)
    && (forall p :: NoDup(h(p)))
    && (forall f :: 0 <= f < |at| ==> f in h(at[f]))
  }

  /** The items of `moved` are now in place q. */
  ghost function Reassign<P>(at: seq<P>, moved: seq<nat>, q: P): (r: seq<P>)
    ensures |r| == |at|
    ensures forall f :: 0 <= f < |at| ==> r[f] == if f in moved then q else at[f]
  {
    seq(|at|, f requires 0 <= f < |at| => if f in moved then q else at[f])
  }

  /** A run of items leaves the list of p and is appended to the list of q. */
  ghost predicate Moves<P(!new)>(h: P -> seq<nat>, h': P -> seq<nat>, p: P, pre: seq<nat>, moved: seq<nat>, post: seq<nat>, q: P) {
    && p != q
    && h(p) == pre + moved + post
    && h'(p) == pre + post
    && h'(q) == h(q) + moved
    && forall r :: r != p && r != q ==> h'(r) == h(r)
  }

  lemma MovedApart<P(!new)>(h: P -> seq<nat>, h': P -> seq<nat>, at: seq<P>, p: P, pre: seq<nat>, moved: seq<nat>, post: seq<nat>, q: P)
    requires Placed(h, at) && Moves(h, h', p, pre, moved, post, q)
    ensures forall f :: f in moved ==> f in h(p) && f < |at| && at[f] == p
    ensures forall f :: f in pre + post ==> f in h(p) && f !in moved && f < |at| && at[f] == p
    ensures NoDup(moved) && NoDup(pre + post)
  {
    var all := h(p);
    assert NoDup(all);
    forall k | 0 <= k < |moved| ensures moved[k] in all {
      assert all[|pre| + k] == moved[k];
    }
    forall k | 0 <= k < |pre + post| ensures (pre + post)[k] in all && (pre + post)[k] !in moved {
      assert all[if k < |pre| then k else k + |moved|] == (pre + post)[k];
      forall j | 0 <= j < |moved| ensures moved[j] != (pre + post)[k] {
        assert all[|pre| + j] == moved[j];
      }
    }
    forall j, k | 0 <= j < k < |moved| ensures moved[j] != moved[k] {
      assert all[|pre| + j] == moved[j] && all[|pre| + k] == moved[k];
    }
    forall j, k | 0 <= j < k < |pre + post| ensures (pre + post)[j] != (pre + post)[k] {
      assert all[if j < |pre| then j else j + |moved|] == (pre + post)[j];
      assert all[if k < |pre| then k else k + |moved|] == (pre + post)[k];
    }
  }

  lemma MoveKeepsPlaced<P(!new)>(h: P -> seq<nat>, h': P -> seq<nat>, at: seq<P>, p: P, pre: seq<nat>, moved: seq<nat>, post: seq<nat>, q: P)
    requires Placed(h, at) && Moves(h, h', p, pre, moved, post, q)
    ensures Placed(h', Reassign(at, moved, q))
    ensures forall f :: f in moved ==> f < |at| && at[f] == p
  {
    MovedApart(h, h', at, p, pre, moved, post, q);
    var at' := Reassign(at, moved, q);
    forall r, k | 0 <= k < |h'(r)| ensures h'(r)[k] < |at'| && at'[h'(r)[k]] == r {
      var f := h'(r)[k];
      assert f in h'(r);
      if r == p {
        assert f in pre + post;
      } else if r == q {
        assert f in h(q) || f in moved;
      } else {
        assert h(r)[k] == f;
      }
    }
    forall r ensures NoDup(h'(r)) {
      if r == q {
        forall j, k | 0 <= j < k < |h'(q)| ensures h'(q)[j] != h'(q)[k] {
          if j < |h(q)| <= k { assert h'(q)[k] in moved; }
        }
      } else if r != p {
        assert NoDup(h(r));
      }
    }
    forall f | 0 <= f < |at'| ensures f in h'(at'[f]) {
      if f in moved {
        assert f in h'(q);
      } else {
        assert f in h(at[f]);
        if at[f] == p { assert f in pre + moved + post; }
      }
    }
  }

  /** Distinct items in a window of n are at most n. */
  lemma {:induction false} DistinctInWindow(xs: seq<nat>, lo: nat, n: nat)
    requires forall k :: 0 <= k < |xs| ==> lo <= xs[k] < lo + n
    requires NoDup(xs)
    ensures |xs| <= n
    decreases n
  {
    if xs != [] {
      assert lo <= xs[0] < lo + n;
      var top := lo + n - 1;
      if k :| 0 <= k < |xs| && xs[k] == top {
        DistinctInWindow(xs[..k] + xs[k + 1..], lo, n - 1);
      } else {
        DistinctInWindow(xs, lo, n - 1);
      }
    }
  }
}
