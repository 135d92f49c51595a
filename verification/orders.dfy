/** Orders over positions: the arrival order of results on a channel is a permutation
    of load order, and reading a sequence along it keeps every element exactly once. */
module Orders {
  /** The indices `0, 1, ..., n - 1`: load order. */
  function Indices(n: nat): (s: seq<int>)
    ensures |s| == n
    ensures forall i :: 0 <= i < n ==> s[i] == i
  {
    if n == 0 then [] else Indices(n - 1) + [n - 1]
  }

  /** The order in which `n` results leave the channel: every index below `n`, once. */
  predicate IsArrivalOrder(arrival: seq<int>, n: nat)
  {
    && |arrival| == n
    && Within(arrival, n)
    && multiset(arrival) == multiset(Indices(n))
  }

  /** Every entry of `order` is a position below `n`. */
  predicate Within(order: seq<int>, n: nat)
  {
    forall k :: 0 <= k < |order| ==> 0 <= order[k] < n
  }

  /** The element of `xs` at position `p`, if there is one. */
  function Slot<T>(xs: seq<T>, p: int): seq<T>
  {
    if 0 <= p < |xs| then [xs[p]] else []
  }

  /** The elements of `xs` at the positions `order`, in that order; a position
      outside `xs` contributes nothing. */
  function Pick<T>(xs: seq<T>, order: seq<int>): seq<T>
  {
    if |order| == 0 then [] else Slot(xs, order[0]) + Pick(xs, order[1..])
  }

  /** Along an order of positions inside `xs`, the `k`-th picked element is the
      element at the `k`-th position. */
  lemma {:induction false} PickAt<T>(xs: seq<T>, order: seq<int>, k: nat)
    requires Within(order, |xs|)
    ensures |Pick(xs, order)| == |order|
    ensures k < |order| ==> Pick(xs, order)[k] == xs[order[k]]
    decreases |order|
  {
    if |order| > 0 {
      var tail := order[1..];
      assert Within(tail, |xs|) by {
        forall m | 0 <= m < |tail| ensures 0 <= tail[m] < |xs| {
          assert tail[m] == order[m + 1];
        }
      }
      PickAt(xs, tail, if k == 0 then 0 else k - 1);
    }
  }

  /** Picking along a non-empty order: the first position's element, then the rest. */
  lemma PickCons<T>(xs: seq<T>, c: seq<int>, head: int, rest: seq<int>)
    requires c == [head] + rest
    ensures multiset(Pick(xs, c)) == multiset(Slot(xs, head)) + multiset(Pick(xs, rest))
  {
    assert c[0] == head && c[1..] == rest;
  }

  /** Removing the entry at `j > 0` is keeping the head and removing entry `j - 1` of
      the tail. */
  lemma SliceShift(b: seq<int>, j: nat)
    requires 0 < j < |b|
    ensures b[..j] + b[j + 1..] == [b[0]] + (b[1..][..j - 1] + b[1..][j..])
    ensures b[1..][j - 1] == b[j]
  {
  }

  /** Taking the position at index `j` out of an order takes exactly its element out
      of the picked elements. */
  lemma {:induction false} PickRemove<T>(xs: seq<T>, b: seq<int>, j: nat)
    requires j < |b|
    ensures multiset(Pick(xs, b)) == multiset(Pick(xs, b[..j] + b[j + 1..])) + multiset(Slot(xs, b[j]))
    decreases j
  {
    var tail := b[1..];
    PickCons(xs, b, b[0], tail);
    if j == 0 {
      assert b[..0] + b[1..] == tail;
    } else {
      var rest := tail[..j - 1] + tail[j..];
      SliceShift(b, j);
      PickRemove(xs, tail, j - 1);
      PickCons(xs, b[..j] + b[j + 1..], b[0], rest);
      MultisetSwap(multiset(Pick(xs, b)), multiset(Slot(xs, b[0])) + multiset(Pick(xs, tail)),
        multiset(Pick(xs, b[..j] + b[j + 1..])) + multiset(Slot(xs, b[j])),
        multiset(Slot(xs, b[0])) + multiset(Pick(xs, rest)) + multiset(Slot(xs, b[j])), multiset{});
    }
  }

  /** Picking along two orders that list the same positions gives the same elements,
      counted with multiplicity. */
  lemma {:induction false} PickPermutation<T>(xs: seq<T>, a: seq<int>, b: seq<int>)
    requires multiset(a) == multiset(b)
    ensures multiset(Pick(xs, a)) == multiset(Pick(xs, b))
    decreases |a|
  {
    if |a| == 0 {
      assert |b| == |multiset(b)| == 0;
    } else {
      var x := a[0];
      var j := IndexOf(b, x);
      var b' := b[..j] + b[j + 1..];
      RemoveAt(b, j, x);
      RemoveHead(a, x);
      SameRemainder(multiset(a), multiset(b), multiset(a[1..]), multiset(b'), x);
      PickPermutation(xs, a[1..], b');
      PickRemove(xs, b, j);
      PickCons(xs, a, x, a[1..]);
      MultisetSwap(multiset(Pick(xs, a)), multiset(Pick(xs, a[1..])), multiset(Pick(xs, b)), multiset(Pick(xs, b')), multiset(Slot(xs, x)));
    }
  }

  /** A position at which a member of `s` occurs. */
  lemma IndexOf(s: seq<int>, x: int) returns (j: nat)
    requires x in multiset(s)
    ensures j < |s| && s[j] == x
  {
    j :| 0 <= j < |s| && s[j] == x;
  }

  /** Removing the entry at `j` removes one copy of it from the multiset. */
  lemma RemoveAt(s: seq<int>, j: nat, v: int)
    requires j < |s| && s[j] == v
    ensures multiset(s[..j] + s[j + 1..]) == multiset(s) - multiset{v}
  {
    assert s == s[..j] + [s[j]] + s[j + 1..];
  }

  /** Dropping the head removes one copy of it from the multiset. */
  lemma RemoveHead(s: seq<int>, v: int)
    requires |s| > 0 && s[0] == v
    ensures s == [v] + s[1..]
    ensures multiset(s[1..]) == multiset(s) - multiset{v}
  {
    assert s == [v] + s[1..];
  }

  lemma SameRemainder<T>(ma: multiset<T>, mb: multiset<T>, ra: multiset<T>, rb: multiset<T>, v: T)
    requires ma == mb
    requires ra == ma - multiset{v}
    requires rb == mb - multiset{v}
    ensures ra == rb
  {
  }

  lemma MultisetSwap<T>(pa: multiset<T>, ra: multiset<T>, pb: multiset<T>, rb: multiset<T>, v: multiset<T>)
    requires pa == ra + v
    requires pb == rb + v
    requires ra == rb
    ensures pa == pb
  {
  }

  /** A sequence holding, at each index, the element at that entry's position is the
      pick along the order. */
  lemma PickAlong<T>(xs: seq<T>, order: seq<int>, ys: seq<T>)
    requires Within(order, |xs|)
    requires |ys| == |order|
    requires forall k :: 0 <= k < |order| ==> ys[k] == xs[order[k]]
    ensures Pick(xs, order) == ys
  {
    PickAt(xs, order, 0);
    forall k | 0 <= k < |order|
      ensures Pick(xs, order)[k] == ys[k]
    {
      PickAt(xs, order, k);
    }
  }

  /** Reads `xs` along `arrival`, one element per step, as a receive loop does. */
  method Arrange<T>(xs: seq<T>, arrival: seq<int>) returns (ys: seq<T>)
    requires IsArrivalOrder(arrival, |xs|)
    ensures |ys| == |xs|
    ensures forall k :: 0 <= k < |xs| ==> ys[k] == xs[arrival[k]]
    ensures multiset(ys) == multiset(xs)
  {
    ys := [];
    var k := 0;
    while k < |arrival|
      invariant 0 <= k <= |arrival|
      invariant |ys| == k
      invariant forall m :: 0 <= m < k ==> ys[m] == xs[arrival[m]]
    {
      ys := ys + [xs[arrival[k]]];
      k := k + 1;
    }
    PickAlong(xs, arrival, ys);
    PickAlong(xs, Indices(|xs|), xs);
    PickPermutation(xs, arrival, Indices(|xs|));
  }
}
