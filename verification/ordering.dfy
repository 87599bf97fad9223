/** `ORDER BY created_at DESC`, as the list endpoints ask the database for it:
    rows with a larger timestamp come first. Rows with equal timestamps may come
    in any order; this definition fixes one. */
module Ordering {

  predicate NewestFirst<T>(xs: seq<T>, key: T -> int) {
    forall i, j :: 0 <= i < j < |xs| ==> key(xs[i]) >= key(xs[j])
  }

  /** Insert `x` into a list that is already newest-first. */
  function Insert<T>(x: T, xs: seq<T>, key: T -> int): (r: seq<T>)
    ensures multiset(r) == multiset(xs) + multiset{x}
    ensures |r| == |xs| + 1
  {
    if xs == [] || key(x) >= key(xs[0]) then [x] + xs
    else
      assert xs == [xs[0]] + xs[1..];
      [xs[0]] + Insert(x, xs[1..], key)
  }

  function SortNewestFirst<T>(xs: seq<T>, key: T -> int): seq<T> {
    if xs == [] then [] else Insert(xs[0], SortNewestFirst(xs[1..], key), key)
  }

  lemma {:induction false} InsertKeepsOrder<T>(x: T, xs: seq<T>, key: T -> int)
    requires NewestFirst(xs, key)
    ensures NewestFirst(Insert(x, xs, key), key)
    ensures Insert(x, xs, key) != [] && (Insert(x, xs, key)[0] == x || Insert(x, xs, key)[0] == xs[0])
  {
    if xs != [] && key(x) < key(xs[0]) {
      InsertKeepsOrder(x, xs[1..], key);
      var r := Insert(x, xs, key);
      var t := Insert(x, xs[1..], key);
      assert r == [xs[0]] + t;
      forall i, j | 0 <= i < j < |r|
        ensures key(r[i]) >= key(r[j])
      {
        if i == 0 {
          assert r[j] in multiset(t);
          assert r[j] == x || r[j] in xs[1..];
        }
      }
    }
  }

  lemma {:induction false} SortNewestFirstSame<T>(xs: seq<T>, key: T -> int)
    ensures multiset(SortNewestFirst(xs, key)) == multiset(xs)
    ensures |SortNewestFirst(xs, key)| == |xs|
  {
    if xs != [] {
      SortNewestFirstSame(xs[1..], key);
      assert xs == [xs[0]] + xs[1..];
    }
  }

  /** The ordering the list endpoints promise: newest first, and exactly the rows
      that were there, each as often as before. */
  lemma {:induction false} SortNewestFirstCorrect<T>(xs: seq<T>, key: T -> int)
    ensures NewestFirst(SortNewestFirst(xs, key), key)
    ensures multiset(SortNewestFirst(xs, key)) == multiset(xs)
    ensures |SortNewestFirst(xs, key)| == |xs|
  {
    SortNewestFirstSame(xs, key);
    if xs != [] {
      SortNewestFirstCorrect(xs[1..], key);
      InsertKeepsOrder(xs[0], SortNewestFirst(xs[1..], key), key);
    }
  }
}
