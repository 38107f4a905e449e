/** The stable sort the screens apply to lists keyed by a date or month
    string (`Array.prototype.sort` with a date comparator, and the default
    sort of month keys). `newestFirst` selects descending order. The sort is
    meant to be stable (equal keys in input order); the lemmas below prove
    that it permutes its input and orders it by key, not that it is
    stable. */
module Sorting {
  import opened Order
  import opened Lists

  /** Key `a` sorts strictly before key `b`. */
  predicate Before(a: string, b: string, newestFirst: bool) {
    if newestFirst then Less(b, a) else Less(a, b)
  }

  /** No element is strictly before an element that precedes it. */
  predicate Sorted<T>(s: seq<T>, key: T -> string, newestFirst: bool) {
    forall i, j :: 0 <= i < j < |s| ==> !Before(key(s[j]), key(s[i]), newestFirst)
  }

  lemma BeforeAsymmetric(a: string, b: string, newestFirst: bool)
    ensures !(Before(a, b, newestFirst) && Before(b, a, newestFirst))
  {
    LessAsymmetric(a, b);
  }

  /** "Not strictly before" is transitive. */
  lemma NotBeforeTransitive(a: string, b: string, c: string, newestFirst: bool)
    requires !Before(a, b, newestFirst) && !Before(b, c, newestFirst)
    ensures !Before(a, c, newestFirst)
  {
    if newestFirst {
      LessEqTransitive(a, b, c);
    } else {
      LessEqTransitive(c, b, a);
    }
  }

  /** Puts `x` in front of the first element it is not strictly after. */
  function Insert<T>(x: T, ys: seq<T>, key: T -> string, newestFirst: bool): (r: seq<T>)
    ensures |r| == |ys| + 1
    decreases |ys|
  {
    if ys == [] then [x]
    else if Before(key(ys[0]), key(x), newestFirst) then [ys[0]] + Insert(x, ys[1..], key, newestFirst)
    else [x] + ys
  }

  /** Insertion sort; the head is inserted into the sorted tail, so equal
      keys keep their order. */
  function SortBy<T>(xs: seq<T>, key: T -> string, newestFirst: bool): (r: seq<T>)
    ensures |r| == |xs|
    decreases |xs|
  {
    if xs == [] then [] else Insert(xs[0], SortBy(xs[1..], key, newestFirst), key, newestFirst)
  }

  lemma {:induction false} InsertPermutes<T>(x: T, ys: seq<T>, key: T -> string, newestFirst: bool)
    ensures multiset(Insert(x, ys, key, newestFirst)) == multiset(ys) + multiset{x}
    decreases |ys|
  {
    if ys != [] && Before(key(ys[0]), key(x), newestFirst) {
      InsertPermutes(x, ys[1..], key, newestFirst);
      assert ys == [ys[0]] + ys[1..];
    }
  }

  lemma {:induction false} InsertSorted<T>(x: T, ys: seq<T>, key: T -> string, newestFirst: bool)
    requires Sorted(ys, key, newestFirst)
    ensures Sorted(Insert(x, ys, key, newestFirst), key, newestFirst)
    decreases |ys|
  {
    var r := Insert(x, ys, key, newestFirst);
    if ys == [] {
    } else if Before(key(ys[0]), key(x), newestFirst) {
      var rest := Insert(x, ys[1..], key, newestFirst);
      InsertSorted(x, ys[1..], key, newestFirst);
      InsertPermutes(x, ys[1..], key, newestFirst);
      forall j | 0 < j < |r|
        ensures !Before(key(r[j]), key(r[0]), newestFirst)
      {
        assert r[j] == rest[j - 1];
        assert r[j] in multiset(ys[1..]) + multiset{x};
        if r[j] == x {
          BeforeAsymmetric(key(ys[0]), key(x), newestFirst);
        } else {
          var k :| 0 <= k < |ys[1..]| && ys[1..][k] == r[j];
          assert ys[k + 1] == r[j];
        }
      }
    } else {
      forall j | 0 < j < |r|
        ensures !Before(key(r[j]), key(r[0]), newestFirst)
      {
        assert r[j] == ys[j - 1];
        if j > 1 {
          NotBeforeTransitive(key(ys[j - 1]), key(ys[0]), key(x), newestFirst);
        }
      }
    }
  }

  lemma {:induction false} SortPermutes<T>(xs: seq<T>, key: T -> string, newestFirst: bool)
    ensures multiset(SortBy(xs, key, newestFirst)) == multiset(xs)
    decreases |xs|
  {
    if xs != [] {
      SortPermutes(xs[1..], key, newestFirst);
      InsertPermutes(xs[0], SortBy(xs[1..], key, newestFirst), key, newestFirst);
      assert xs == [xs[0]] + xs[1..];
    }
  }

  lemma {:induction false} SortSorted<T>(xs: seq<T>, key: T -> string, newestFirst: bool)
    ensures Sorted(SortBy(xs, key, newestFirst), key, newestFirst)
    decreases |xs|
  {
    if xs != [] {
      SortSorted(xs[1..], key, newestFirst);
      InsertSorted(xs[0], SortBy(xs[1..], key, newestFirst), key, newestFirst);
    }
  }

  /** The sorted list holds the same elements, and its head is at least as
      far along as any of them. */
  lemma SortHead<T>(xs: seq<T>, key: T -> string, newestFirst: bool, x: T)
    requires x in xs
    ensures SortBy(xs, key, newestFirst)[0] in xs
    ensures !Before(key(x), key(SortBy(xs, key, newestFirst)[0]), newestFirst)
  {
    var s := SortBy(xs, key, newestFirst);
    SortPermutes(xs, key, newestFirst);
    SortSorted(xs, key, newestFirst);
    assert s[0] in multiset(xs);
    assert x in multiset(s);
    var j :| 0 <= j < |s| && s[j] == x;
    if j == 0 {
      LessIrreflexive(key(x));
    }
  }

  /** Filtering a sorted list keeps it sorted. */
  lemma {:induction false} FilterKeepsSorted<T(!new)>(s: seq<T>, key: T -> string, newestFirst: bool, p: T -> bool)
    requires Sorted(s, key, newestFirst)
    ensures Sorted(Filter(s, p), key, newestFirst)
    decreases |s|
  {
    if s != [] {
      FilterKeepsSorted(s[1..], key, newestFirst, p);
      FilterMembers(s[1..], p);
      var rest := Filter(s[1..], p);
      if p(s[0]) {
        var f := Filter(s, p);
        assert f == [s[0]] + rest;
        forall i, j | 0 <= i < j < |f|
          ensures !Before(key(f[j]), key(f[i]), newestFirst)
        {
          if i == 0 {
            assert f[j] in rest;
            var k :| 0 <= k < |s[1..]| && s[1..][k] == f[j];
            assert s[k + 1] == f[j];
          } else {
            assert f[i] == rest[i - 1] && f[j] == rest[j - 1];
          }
        }
      }
    }
  }
}
