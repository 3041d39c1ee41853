// Sorting by a total preorder, and what a permutation keeps.
module Ordering {
  ghost predicate TotalPreorder<T(!new)>(leq: (T, T) -> bool)
  {
    && (forall a, b :: leq(a, b) || leq(b, a))
    && (forall a, b, c :: leq(a, b) && leq(b, c) ==> leq(a, c))
  }

  predicate Ordered<T>(xs: seq<T>, leq: (T, T) -> bool)
  {
    forall i, j :: 0 <= i <= j < |xs| ==> leq(xs[i], xs[j])
  }

  // Where x goes: after everything that comes no later than it.
  function Position<T>(xs: seq<T>, leq: (T, T) -> bool, x: T): (j: nat)
    ensures j <= |xs|
  {
    if |xs| == 0 || !leq(xs[0], x) then 0 else 1 + Position(xs[1..], leq, x)
  }

  lemma {:induction false} PositionSplits<T(!new)>(xs: seq<T>, leq: (T, T) -> bool, x: T)
    requires TotalPreorder(leq) && Ordered(xs, leq)
    ensures forall i :: 0 <= i < Position(xs, leq, x) ==> leq(xs[i], x)
    ensures forall i :: Position(xs, leq, x) <= i < |xs| ==> leq(x, xs[i])
  {
    if |xs| > 0 {
      if leq(xs[0], x) {
        PositionSplits(xs[1..], leq, x);
        assert forall i :: 0 < i < |xs| ==> xs[i] == xs[1..][i - 1];
      } else {
        assert forall i :: 0 <= i < |xs| ==> leq(xs[0], xs[i]);
      }
    }
  }

  function Inserted<T>(xs: seq<T>, j: nat, x: T): seq<T>
    requires j <= |xs|
  {
    xs[..j] + [x] + xs[j..]
  }

  lemma InsertedBag<T(!new)>(xs: seq<T>, j: nat, x: T)
    requires j <= |xs|
    ensures multiset(Inserted(xs, j, x)) == multiset(xs) + multiset{x}
  {
    assert xs == xs[..j] + xs[j..];
  }

  lemma InsertKeeps<T(!new)>(xs: seq<T>, leq: (T, T) -> bool, x: T)
    requires TotalPreorder(leq) && Ordered(xs, leq)
    ensures Ordered(Inserted(xs, Position(xs, leq, x), x), leq)
  {
    var j := Position(xs, leq, x);
    var out := Inserted(xs, j, x);
    PositionSplits(xs, leq, x);
    assert leq(x, x);
    forall m, n | 0 <= m <= n < |out| ensures leq(out[m], out[n]) {
      assert out[m] == if m < j then xs[m] else if m == j then x else xs[m - 1];
      assert out[n] == if n < j then xs[n] else if n == j then x else xs[n - 1];
    }
  }

  // Insertion sort; callers rely on the order and on the elements alone.
  method Sort<T(!new)>(xs: seq<T>, leq: (T, T) -> bool) returns (sorted: seq<T>)
    requires TotalPreorder(leq)
    ensures Ordered(sorted, leq) && multiset(sorted) == multiset(xs)
  {
    hide TotalPreorder, Ordered, Inserted, Position;
    sorted := [];
    NothingOrdered(leq);
    for i := 0 to |xs|
      invariant Ordered(sorted, leq) && multiset(sorted) == multiset(xs[..i])
    {
      assert xs[..i + 1] == xs[..i] + [xs[i]];
      InsertKeeps(sorted, leq, xs[i]);
      InsertedBag(sorted, Position(sorted, leq, xs[i]), xs[i]);
      sorted := Inserted(sorted, Position(sorted, leq, xs[i]), xs[i]);
    }
    assert xs[..|xs|] == xs;
  }

  lemma NothingOrdered<T(!new)>(leq: (T, T) -> bool)
    ensures Ordered([], leq)
  {
  }

  // ---- Indices ------------------------------------------------------------------------------

  // Indices below n, from lower to higher.
  predicate Rising(at: seq<nat>, n: nat)
  {
    && (forall j, k :: 0 <= j < k < |at| ==> at[j] < at[k])
    && forall k :: 0 <= k < |at| ==> at[k] < n
  }

  lemma RisingMore(at: seq<nat>, n: nat)
    requires Rising(at, n)
    ensures Rising(at, n + 1) && Rising(at + [n], n + 1)
  {
  }

  // Exactly these elements of s, in the order of s.
  ghost predicate Picked<T>(s: seq<T>, keep: T -> bool, r: seq<T>)
  {
    exists at: seq<nat> :: PickedAt(s, keep, r, at)
  }

  ghost predicate PickedAt<T>(s: seq<T>, keep: T -> bool, r: seq<T>, at: seq<nat>)
  {
    && Rising(at, |s|)
    && |r| == |at| && (forall k :: 0 <= k < |at| ==> r[k] == s[at[k]])
    && forall i :: 0 <= i < |s| ==> (keep(s[i]) <==> i in at)
  }

  lemma PickedNone<T>(keep: T -> bool)
    ensures Picked([], keep, [])
  {
    assert PickedAt([], keep, [], []);
  }

  lemma PickedMore<T>(s: seq<T>, keep: T -> bool, r: seq<T>, x: T)
    requires Picked(s, keep, r)
    ensures Picked(s + [x], keep, if keep(x) then r + [x] else r)
  {
    var at: seq<nat> :| PickedAt(s, keep, r, at);
    RisingMore(at, |s|);
    assert |s| !in at;
    if keep(x) {
      assert PickedAt(s + [x], keep, r + [x], at + [|s|]);
    } else {
      assert PickedAt(s + [x], keep, r, at);
    }
  }

  // ---- Permutations ------------------------------------------------------------------------

  predicate DistinctBy<T, K(==)>(xs: seq<T>, key: T -> K)
  {
    forall i, j :: 0 <= i < j < |xs| ==> key(xs[i]) != key(xs[j])
  }

  lemma Permuted<T(!new)>(a: seq<T>, b: seq<T>)
    requires multiset(a) == multiset(b)
    ensures |a| == |b| && forall x :: x in a <==> x in b
  {
    assert |multiset(a)| == |multiset(b)|;
    forall x ensures x in a <==> x in b {
      assert x in a <==> x in multiset(a);
      assert x in b <==> x in multiset(b);
    }
  }

  lemma Twice<T(!new)>(xs: seq<T>, i: nat, j: nat)
    requires i < j < |xs| && xs[i] == xs[j]
    ensures multiset(xs)[xs[i]] >= 2
  {
    assert xs == xs[..j] + [xs[j]] + xs[j + 1..];
    assert xs[i] in xs[..j];
    assert xs[i] in multiset(xs[..j]);
  }

  lemma {:induction false} Once<T(!new), K>(xs: seq<T>, key: T -> K, x: T)
    requires DistinctBy(xs, key)
    ensures multiset(xs)[x] <= 1
    decreases |xs|
  {
    if |xs| > 0 {
      var n := |xs| - 1;
      assert xs == xs[..n] + [xs[n]];
      Once(xs[..n], key, x);
      if x == xs[n] {
        assert x !in xs[..n];
        assert x !in multiset(xs[..n]);
      }
    }
  }

  // A permutation repeats no key that the original does not repeat.
  lemma PermutedDistinct<T(!new), K>(a: seq<T>, b: seq<T>, key: T -> K)
    requires multiset(a) == multiset(b) && DistinctBy(a, key)
    ensures DistinctBy(b, key)
  {
    Permuted(a, b);
    forall i, j | 0 <= i < j < |b| ensures key(b[i]) != key(b[j]) {
      assert b[i] in a && b[j] in a;
      if b[i] == b[j] {
        Twice(b, i, j);
        Once(a, key, b[i]);
      }
    }
  }
}
