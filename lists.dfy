/** Filtering a sequence (`Array.prototype.filter`) and the facts about it
    the screens and the scoring rely on. */
module Lists {

  /** `s.filter(p)`: the elements of `s` satisfying `p`, in order. */
  function Filter<T(!new)>(s: seq<T>, p: T -> bool): (r: seq<T>)
    ensures |r| <= |s|
    decreases |s|
  {
    if s == [] then [] else (if p(s[0]) then [s[0]] else []) + Filter(s[1..], p)
  }

  /** `s.map(f)`: `f` applied to every element, in order. */
  function Map<T, U>(s: seq<T>, f: T -> U): (r: seq<U>)
    ensures |r| == |s|
    ensures forall i :: 0 <= i < |s| ==> r[i] == f(s[i])
  {
    seq(|s|, i requires 0 <= i < |s| => f(s[i]))
  }

  /** What the filter keeps: exactly the elements that pass. */
  lemma {:induction false} FilterMembers<T(!new)>(s: seq<T>, p: T -> bool)
    ensures forall x :: x in Filter(s, p) <==> x in s && p(x)
    decreases |s|
  {
    if s != [] {
      FilterMembers(s[1..], p);
      assert s == [s[0]] + s[1..];
    }
  }

  lemma {:induction false} FilterAppend<T(!new)>(a: seq<T>, b: seq<T>, p: T -> bool)
    ensures Filter(a + b, p) == Filter(a, p) + Filter(b, p)
    decreases |a|
  {
    if a == [] {
      assert a + b == b;
    } else {
      assert (a + b)[0] == a[0] && (a + b)[1..] == a[1..] + b;
      FilterAppend(a[1..], b, p);
      var h := if p(a[0]) then [a[0]] else [];
      assert Filter(a + b, p) == h + (Filter(a[1..], p) + Filter(b, p));
      assert Filter(a, p) == h + Filter(a[1..], p);
    }
  }

  /** A filter keeps everything exactly when every element passes. */
  lemma {:induction false} FilterAll<T(!new)>(s: seq<T>, p: T -> bool)
    ensures Filter(s, p) == s <==> forall x :: x in s ==> p(x)
    decreases |s|
  {
    if s != [] {
      FilterAll(s[1..], p);
      FilterMembers(s[1..], p);
      if !p(s[0]) {
        assert |Filter(s, p)| < |s|;
      } else {
        assert s == [s[0]] + s[1..];
      }
    }
  }

  /** A filter drops everything exactly when no element passes. */
  lemma FilterNone<T(!new)>(s: seq<T>, p: T -> bool)
    ensures Filter(s, p) == [] <==> forall x :: x in s ==> !p(x)
  {
    FilterMembers(s, p);
    if Filter(s, p) != [] {
      assert Filter(s, p)[0] in Filter(s, p);
    }
  }

  /** Filtering by `p` and then by `q` is filtering by both at once. */
  lemma {:induction false} FilterTwice<T(!new)>(s: seq<T>, p: T -> bool, q: T -> bool, both: T -> bool)
    requires forall x :: both(x) == (p(x) && q(x))
    ensures Filter(Filter(s, p), q) == Filter(s, both)
    decreases |s|
  {
    if s != [] {
      FilterTwice(s[1..], p, q, both);
      var f := Filter(s, p);
      if p(s[0]) {
        assert f == [s[0]] + Filter(s[1..], p);
        assert f[0] == s[0] && f[1..] == Filter(s[1..], p);
        assert Filter(f, q) == (if q(s[0]) then [s[0]] else []) + Filter(Filter(s[1..], p), q);
      } else {
        assert f == Filter(s[1..], p);
      }
    }
  }

  /** Two tests that split a sequence between them split its length. */
  lemma {:induction false} FilterSplit<T(!new)>(s: seq<T>, p: T -> bool, q: T -> bool)
    requires forall x :: x in s ==> (p(x) <==> !q(x))
    ensures |Filter(s, p)| + |Filter(s, q)| == |s|
    decreases |s|
  {
    if s != [] {
      FilterSplit(s[1..], p, q);
    }
  }

  /** An element that fails the test makes the result shorter. */
  lemma {:induction false} FilterDrops<T(!new)>(s: seq<T>, p: T -> bool, x: T)
    requires x in s && !p(x)
    ensures |Filter(s, p)| < |s|
    decreases |s|
  {
    if s[0] != x {
      FilterDrops(s[1..], p, x);
    }
  }
}
