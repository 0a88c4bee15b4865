/** `[...new Set(xs)]`: the distinct elements of a sequence in the order of
    their first appearance (a `Set` iterates in insertion order). */
module JsSet {

  ghost predicate Distinct<T>(xs: seq<T>)
  {
    forall i, j :: 0 <= i < j < |xs| ==> xs[i] != xs[j]
  }

  /** The index of the first occurrence of x. */
  function FirstIndex<T(==)>(xs: seq<T>, x: T): (r: nat)
    requires x in xs
    ensures r < |xs| && xs[r] == x
    ensures forall k :: 0 <= k < r ==> xs[k] != x
  {
    if xs[0] == x then 0 else 1 + FirstIndex(xs[1..], x)
  }

  /** Adding the elements one by one to a `Set`. */
  function Dedup<T(==)>(xs: seq<T>): (r: seq<T>)
    ensures Distinct(r)
    ensures forall i :: 0 <= i < |r| ==> r[i] in xs
    ensures forall i :: 0 <= i < |xs| ==> xs[i] in r
    ensures |r| <= |xs|
  {
    if xs == [] then []
    else
      var r := Dedup(xs[..|xs| - 1]);
      var last := xs[|xs| - 1];
      assert forall i :: 0 <= i < |xs| - 1 ==> xs[i] == xs[..|xs| - 1][i];
      if last in r then r else r + [last]
  }

  lemma FirstIndexPrefix<T>(xs: seq<T>, n: nat, x: T)
    requires n <= |xs| && x in xs[..n]
    ensures FirstIndex(xs, x) == FirstIndex(xs[..n], x)
  {
    var p := FirstIndex(xs[..n], x);
    assert xs[p] == x;
    assert forall k :: 0 <= k < p ==> xs[k] == xs[..n][k];
  }

  /** The elements appear in the order of their first occurrence. */
  lemma {:induction false} DedupOrder<T>(xs: seq<T>)
    ensures forall i, j :: 0 <= i < j < |Dedup(xs)| ==> FirstIndex(xs, Dedup(xs)[i]) < FirstIndex(xs, Dedup(xs)[j])
  {
    if xs != [] {
      var n := |xs| - 1;
      var init := xs[..n];
      var r := Dedup(init);
      DedupOrder(init);
      forall i | 0 <= i < |r| ensures FirstIndex(xs, r[i]) == FirstIndex(init, r[i]) < n {
        FirstIndexPrefix(xs, n, r[i]);
      }
      var last := xs[n];
      var r' := Dedup(xs);
      assert r' == if last in r then r else r + [last];
      if last !in r {
        assert forall k :: 0 <= k < n ==> xs[k] == init[k];
        assert last !in init;
        assert FirstIndex(xs, last) == n;
      }
      forall i, j | 0 <= i < j < |r'| ensures FirstIndex(xs, r'[i]) < FirstIndex(xs, r'[j]) {
        assert r'[i] == r[i];
        assert FirstIndex(xs, r[i]) == FirstIndex(init, r[i]) < n;
        if j < |r| {
          assert r'[j] == r[j];
          assert FirstIndex(xs, r[j]) == FirstIndex(init, r[j]);
          assert FirstIndex(init, r[i]) < FirstIndex(init, r[j]);
        } else {
          assert r'[j] == last && FirstIndex(xs, last) == n;
        }
      }
    }
  }

  /** Deduplicating a sequence without repeats leaves it as it is. */
  lemma {:induction false} DedupDistinct<T>(xs: seq<T>)
    requires Distinct(xs)
    ensures Dedup(xs) == xs
  {
    if xs != [] {
      var n := |xs| - 1;
      DedupDistinct(xs[..n]);
      assert xs[n] !in xs[..n];
      assert xs[..n] + [xs[n]] == xs;
    }
  }
}
