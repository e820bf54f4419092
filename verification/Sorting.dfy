/** `std::sort` as its callers may rely on it: some permutation of the input in
    which the keys do not decrease. Nothing is said about equal keys. */
module Sorting {

  ghost predicate SortedBy<T(!new)>(xs: seq<T>, keys: map<T, real>) {
    && (forall x :: x in xs ==> x in keys)
    && (forall i, j :: 0 <= i < j < |xs| ==> keys[xs[i]] <= keys[xs[j]])
  }

  lemma InsertedIsSorted<T(!new)>(xs: seq<T>, keys: map<T, real>, x: T, k: nat)
    requires SortedBy(xs, keys) && x in keys && k <= |xs|
    requires k > 0 ==> keys[xs[k - 1]] <= keys[x]
    requires k < |xs| ==> keys[x] <= keys[xs[k]]
    ensures SortedBy(xs[..k] + [x] + xs[k..], keys)
  {
    var ys := xs[..k] + [x] + xs[k..];
    forall i | 0 <= i < |ys| ensures ys[i] in keys && (i < k ==> ys[i] == xs[i]) && (i > k ==> ys[i] == xs[i - 1]) {
    }
    forall i, j | 0 <= i < j < |ys| ensures keys[ys[i]] <= keys[ys[j]] {
      if i < k {
        assert keys[xs[i]] <= keys[xs[k - 1]];
      }
    }
  }

  lemma InsertedIsPermutation<T>(xs: seq<T>, x: T, k: nat)
    requires k <= |xs|
    ensures multiset(xs[..k] + [x] + xs[k..]) == multiset(xs) + multiset{x}
  {
    assert xs == xs[..k] + xs[k..];
  }

  method InsertSorted<T(==, !new)>(xs: seq<T>, keys: map<T, real>, x: T) returns (ys: seq<T>)
    requires SortedBy(xs, keys) && x in keys
    ensures SortedBy(ys, keys)
    ensures multiset(ys) == multiset(xs) + multiset{x}
  {
    var k := |xs|;
    while k > 0 && keys[x] < keys[xs[k - 1]]
      invariant 0 <= k <= |xs|
      invariant k < |xs| ==> keys[x] < keys[xs[k]]
    {
      k := k - 1;
    }
    ys := xs[..k] + [x] + xs[k..];
    InsertedIsSorted(xs, keys, x, k);
    InsertedIsPermutation(xs, x, k);
  }

  method Sort<T(==, !new)>(xs: seq<T>, keys: map<T, real>) returns (ys: seq<T>)
    requires forall x :: x in xs ==> x in keys
    ensures SortedBy(ys, keys)
    ensures multiset(ys) == multiset(xs)
  {
    ys := [];
    for i := 0 to |xs|
      invariant SortedBy(ys, keys)
      invariant multiset(ys) == multiset(xs[..i])
    {
      ys := InsertSorted(ys, keys, xs[i]);
      assert xs[..i + 1] == xs[..i] + [xs[i]];
    }
    assert xs[..|xs|] == xs;
  }

  ghost predicate Distinct<T(!new)>(xs: seq<T>) {
    forall i, j :: 0 <= i < j < |xs| ==> xs[i] != xs[j]
  }

  lemma {:induction false} DistinctCount<T(!new)>(xs: seq<T>, x: T)
    requires Distinct(xs)
    ensures multiset(xs)[x] <= 1
  {
    if xs != [] {
      var init := xs[..|xs| - 1];
      DistinctCount(init, x);
      assert xs == init + [xs[|xs| - 1]];
    }
  }

  lemma RepeatCount<T>(xs: seq<T>, i: nat, j: nat)
    requires i < j < |xs| && xs[i] == xs[j]
    ensures multiset(xs)[xs[i]] >= 2
  {
    assert xs == xs[..j] + [xs[j]] + xs[j + 1..];
    assert xs[..j] == xs[..i] + [xs[i]] + xs[i + 1..j];
  }

  /** Sorting keeps distinct elements distinct. */
  lemma DistinctPermuted<T(!new)>(xs: seq<T>, ys: seq<T>)
    requires Distinct(xs) && multiset(ys) == multiset(xs)
    ensures Distinct(ys)
    ensures forall x :: x in ys <==> x in xs
  {
    forall i, j | 0 <= i < j < |ys| ensures ys[i] != ys[j] {
      if ys[i] == ys[j] {
        RepeatCount(ys, i, j);
        DistinctCount(xs, ys[i]);
      }
    }
    forall x ensures x in ys <==> x in xs {
      assert x in multiset(ys) <==> x in multiset(xs);
    }
  }
}
