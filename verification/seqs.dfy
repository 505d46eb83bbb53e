/** Sequence operations shared by the store and the pages: first-match search
    (`findIndex`/`find`), order-preserving filtering (`filter`), and the
    insert-or-replace-by-id step every `save` performs. */
module Seqs {
  import opened Types

  /** Index of the first element satisfying `p`, if any. */
  function FindIndex<T>(xs: seq<T>, p: T -> bool): (r: Option<nat>)
    ensures r.Some? ==> r.value < |xs| && p(xs[r.value])
    ensures r.Some? ==> forall j :: 0 <= j < r.value ==> !p(xs[j])
    ensures r.None? ==> forall j :: 0 <= j < |xs| ==> !p(xs[j])
    decreases |xs|
  {
    if |xs| == 0 then None
    else if p(xs[0]) then Some(0)
    else match FindIndex(xs[1..], p)
         case None => None
         case Some(i) => Some(i + 1)
  }

  /** The first element satisfying `p`, if any. */
  function Find<T>(xs: seq<T>, p: T -> bool): (r: Option<T>)
    ensures r.None? <==> forall j :: 0 <= j < |xs| ==> !p(xs[j])
    ensures r.Some? ==> exists i :: 0 <= i < |xs| && xs[i] == r.value && p(xs[i]) &&
                                    forall j :: 0 <= j < i ==> !p(xs[j])
  {
    match FindIndex(xs, p)
    case None => None
    case Some(i) => Some(xs[i])
  }

  /** `a` is obtained from `b` by deleting elements, keeping the order. */
  predicate SubSeq<T(==)>(a: seq<T>, b: seq<T>)
    decreases |b|
  {
    |a| == 0 || (|b| > 0 && ((a[0] == b[0] && SubSeq(a[1..], b[1..])) || SubSeq(a, b[1..])))
  }

  /** The elements of `xs` satisfying `p`, in their original order. */
  function Filter<T(==,!new)>(xs: seq<T>, p: T -> bool): (r: seq<T>)
    ensures forall x :: x in r <==> x in xs && p(x)
    ensures forall x :: multiset(r)[x] == if p(x) then multiset(xs)[x] else 0
    ensures SubSeq(r, xs)
    decreases |xs|
  {
    if |xs| == 0 then []
    else
      var rest := Filter(xs[1..], p);
      assert xs == [xs[0]] + xs[1..];
      assert multiset(xs) == multiset([xs[0]]) + multiset(xs[1..]);
      if p(xs[0]) then
        assert ([xs[0]] + rest)[1..] == rest;
        [xs[0]] + rest
      else rest
  }

  /** Filtering distributes over concatenation, so the filtered elements keep
      the relative order of the two halves. */
  lemma {:induction false} FilterConcat<T(!new)>(a: seq<T>, b: seq<T>, p: T -> bool)
    ensures Filter(a + b, p) == Filter(a, p) + Filter(b, p)
    decreases |a|
  {
    if |a| == 0 {
      assert a + b == b;
    } else {
      assert (a + b)[1..] == a[1..] + b;
      FilterConcat(a[1..], b, p);
    }
  }

  /** No element occurs twice. */
  predicate NoDup<T(==)>(xs: seq<T>) {
    forall i, j :: 0 <= i < j < |xs| ==> xs[i] != xs[j]
  }

  /** Some element of `xs` has key `k`. */
  predicate HasKey<T>(xs: seq<T>, key: T -> Id, k: Id) {
    exists i :: 0 <= i < |xs| && key(xs[i]) == k
  }

  /** `i` is the first position of `xs` whose key is `k`. */
  predicate FirstWithKey<T>(xs: seq<T>, key: T -> Id, k: Id, i: int) {
    0 <= i < |xs| && key(xs[i]) == k && forall j :: 0 <= j < i ==> key(xs[j]) != k
  }

  /** A key that occurs has a first occurrence. */
  lemma {:induction false} FirstWithKeyExists<T>(xs: seq<T>, key: T -> Id, k: Id)
    requires HasKey(xs, key, k)
    ensures exists i :: FirstWithKey(xs, key, k, i)
    decreases |xs|
  {
    if key(xs[0]) == k {
      assert FirstWithKey(xs, key, k, 0);
    } else {
      var w :| 0 <= w < |xs| && key(xs[w]) == k;
      assert 0 <= w - 1 < |xs[1..]| && key(xs[1..][w - 1]) == k;
      FirstWithKeyExists(xs[1..], key, k);
      var i :| FirstWithKey(xs[1..], key, k, i);
      assert FirstWithKey(xs, key, k, i + 1);
    }
  }

  /** Insert-or-replace by key: the first element with `x`'s key is replaced
      in place, and when there is none `x` is appended. */
  function Upsert<T>(xs: seq<T>, x: T, key: T -> Id): (r: seq<T>)
    ensures HasKey(xs, key, key(x)) ==> |r| == |xs|
    ensures forall i :: FirstWithKey(xs, key, key(x), i) ==> r == xs[i := x]
    ensures !HasKey(xs, key, key(x)) ==> r == xs + [x]
  {
    match FindIndex(xs, y => key(y) == key(x))
    case Some(i) => xs[i := x]
    case None => xs + [x]
  }

  /** Upserting keeps every key that was present and adds `x`'s. */
  lemma {:induction false} UpsertKeys<T>(xs: seq<T>, x: T, key: T -> Id, k: Id)
    ensures HasKey(Upsert(xs, x, key), key, k) <==> HasKey(xs, key, k) || k == key(x)
  {
    var r := Upsert(xs, x, key);
    if HasKey(xs, key, key(x)) {
      FirstWithKeyExists(xs, key, key(x));
      var i :| FirstWithKey(xs, key, key(x), i);
      assert r == xs[i := x];
      assert key(r[i]) == key(x);
      if HasKey(xs, key, k) {
        var w :| 0 <= w < |xs| && key(xs[w]) == k;
        if w != i {
          assert key(r[w]) == k;
        }
      }
      if HasKey(r, key, k) {
        var w :| 0 <= w < |r| && key(r[w]) == k;
        if w != i {
          assert key(xs[w]) == k;
        }
      }
    } else {
      assert r == xs + [x];
      assert key(r[|xs|]) == key(x);
      if HasKey(xs, key, k) {
        var w :| 0 <= w < |xs| && key(xs[w]) == k;
        assert key(r[w]) == k;
      }
      if HasKey(r, key, k) {
        var w :| 0 <= w < |r| && key(r[w]) == k;
        if w < |xs| {
          assert key(xs[w]) == k;
        }
      }
    }
  }
}
