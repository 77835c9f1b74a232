/** Keeping the elements of a sequence that satisfy a predicate, in order:
    the specification of a loop that removes the rejected elements of a
    vector. */
module Seqs {

  /** The elements of `xs` that satisfy `p`, in their original order. */
  function Filter<A>(xs: seq<A>, p: A -> bool): (r: seq<A>)
    ensures |r| <= |xs|
    ensures forall i :: 0 <= i < |r| ==> p(r[i])
    decreases |xs|
  {
    if |xs| == 0 then []
    else
      var last := xs[|xs| - 1];
      Filter(xs[..|xs| - 1], p) + (if p(last) then [last] else [])
  }

  lemma {:induction false} FilterAppend<A>(a: seq<A>, b: seq<A>, p: A -> bool)
    ensures Filter(a + b, p) == Filter(a, p) + Filter(b, p)
    decreases |b|
  {
    if |b| == 0 {
      assert a + b == a;
    } else {
      var b' := b[..|b| - 1];
      assert (a + b)[..|a + b| - 1] == a + b';
      FilterAppend(a, b', p);
    }
  }

  /** Nothing is dropped when every element is kept. */
  lemma {:induction false} FilterAll<A>(xs: seq<A>, p: A -> bool)
    requires forall i :: 0 <= i < |xs| ==> p(xs[i])
    ensures Filter(xs, p) == xs
    decreases |xs|
  {
    if |xs| > 0 {
      FilterAll(xs[..|xs| - 1], p);
    }
  }

  /** An element survives exactly when it was there and satisfies `p`. */
  lemma {:induction false} FilterMembers<A>(xs: seq<A>, p: A -> bool, x: A)
    ensures x in Filter(xs, p) <==> x in xs && p(x)
    decreases |xs|
  {
    if |xs| > 0 {
      var init := xs[..|xs| - 1];
      FilterMembers(init, p, x);
      assert xs == init + [xs[|xs| - 1]];
    }
  }

  lemma RemoveMiddle<A>(head: seq<A>, x: A, between: seq<A>, tail: seq<A>)
    ensures var s := head + [x] + between + tail;
      s[..|head|] + s[|head| + 1..] == head + (between + tail)
  {
    var s := head + [x] + between + tail;
    assert s[..|head|] == head;
    assert s[|head| + 1..] == between + tail;
  }

  /** Removing, from the filtered tail `xs[done..]` preceded by `xs[..done]`,
      a rejected element at `index` that is followed only by kept elements
      up to `done` leaves the filtered tail from `index` on. */
  lemma SkipRejected<A>(xs: seq<A>, p: A -> bool, index: nat, done: nat)
    requires index < done <= |xs|
    requires !p(xs[index])
    requires forall n :: index < n < done ==> p(xs[n])
    ensures var kept := xs[..done] + Filter(xs[done..], p);
      kept[..index] + kept[index + 1..] == xs[..index] + Filter(xs[index..], p)
  {
    var x, between, rest := xs[index], xs[index + 1..done], xs[done..];
    assert forall n :: 0 <= n < |between| ==> between[n] == xs[index + 1 + n];
    FilterAll(between, p);
    FilterAppend(between, rest, p);
    FilterAppend([x], between + rest, p);
    assert Filter([x], p) == [] by {
      assert [x][..0] == [];
    }
    assert xs[index..] == [x] + (between + rest);
    var tail := between + Filter(rest, p);
    assert Filter(xs[index..], p) == tail;
    var head := xs[..index];
    assert xs[..done] == head + [x] + between;
    RemoveMiddle(head, x, between, Filter(rest, p));
  }

  /** Between two consecutive indices of the rejected elements every
      element is kept. */
  lemma KeptBetween<A>(xs: seq<A>, indices: seq<nat>, p: A -> bool, k: nat, done: nat)
    requires k < |indices| && done <= |xs|
    requires forall m, m' :: 0 <= m < m' < |indices| ==> indices[m] < indices[m']
    requires forall n :: 0 <= n < |xs| && !p(xs[n]) ==> n in indices
    requires forall m :: k < m < |indices| ==> done <= indices[m]
    ensures forall n :: indices[k] < n < done ==> p(xs[n])
  {
    forall n | indices[k] < n < done
      ensures p(xs[n])
    {
      forall m | 0 <= m < |indices|
        ensures indices[m] != n
      {
        if m < k {
          assert indices[m] < indices[k];
        }
      }
      assert n !in indices;
    }
  }

  /** When every rejected element lies at or beyond `done`, every element
      before `done` is kept. */
  lemma KeptBefore<A>(xs: seq<A>, indices: seq<nat>, p: A -> bool, done: nat)
    requires done <= |xs|
    requires forall n :: 0 <= n < |xs| && !p(xs[n]) ==> n in indices
    requires forall m :: 0 <= m < |indices| ==> done <= indices[m]
    ensures forall n :: 0 <= n < done ==> p(xs[..done][n])
  {
    forall n | 0 <= n < done
      ensures p(xs[..done][n])
    {
      assert xs[..done][n] == xs[n];
      assert n !in indices;
    }
  }

  /** A prefix whose every element is kept passes through the filter whole. */
  lemma {:induction false} FilterKeptPrefix<A>(head: seq<A>, tail: seq<A>, p: A -> bool)
    requires forall n :: 0 <= n < |head| ==> p(head[n])
    ensures Filter(head + tail, p) == head + Filter(tail, p)
  {
    FilterAll(head, p);
    FilterAppend(head, tail, p);
  }

  /** Removes the elements at `indices`, from the last index to the first,
      so that no removal shifts an index still waiting to be removed (a
      `Vec::remove` in a reversed loop). When the indices are those of the
      elements `p` rejects, in increasing order, what remains is exactly the
      elements `p` accepts, in their original order. */
  method RemoveAtDescending<A>(xs: seq<A>, indices: seq<nat>, ghost p: A -> bool) returns (ys: seq<A>)
    requires forall k :: 0 <= k < |indices| ==> indices[k] < |xs| && !p(xs[indices[k]])
    requires forall k, m :: 0 <= k < m < |indices| ==> indices[k] < indices[m]
    requires forall n :: 0 <= n < |xs| && !p(xs[n]) ==> n in indices
    ensures ys == Filter(xs, p)
  {
    ys := xs;
    // Every index at or beyond `done` has been dealt with.
    ghost var done := |xs|;
    var k := |indices|;
    while k > 0
      invariant 0 <= k <= |indices|
      invariant done <= |xs|
      invariant k < |indices| ==> done == indices[k]
      invariant k == |indices| ==> done == |xs|
      invariant forall m :: 0 <= m < k ==> indices[m] < done
      invariant forall m :: k <= m < |indices| ==> done <= indices[m]
      invariant ys == xs[..done] + Filter(xs[done..], p)
    {
      k := k - 1;
      var index := indices[k];
      KeptBetween(xs, indices, p, k, done);
      SkipRejected(xs, p, index, done);
      ys := ys[..index] + ys[index + 1..];
      done := index;
    }
    KeptBefore(xs, indices, p, done);
    FilterKeptPrefix(xs[..done], xs[done..], p);
    assert xs[..done] + xs[done..] == xs;
  }
}
