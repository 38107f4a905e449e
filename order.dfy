/** Lexicographic order on strings, the order JavaScript's `<` and the
    default `Array.prototype.sort` use. ISO `YYYY-MM-DD` dates and
    `YYYY-MM` months compare chronologically in this order. */
module Order {

  /** `a` sorts strictly before `b`. */
  predicate Less(a: string, b: string)
    decreases |a|
  {
    if |a| == 0 then |b| > 0
    else if |b| == 0 then false
    else if a[0] != b[0] then a[0] < b[0]
    else Less(a[1..], b[1..])
  }

  /** `a` sorts before `b` or equals it. */
  predicate LessEq(a: string, b: string) {
    !Less(b, a)
  }

  lemma {:induction false} LessIrreflexive(a: string)
    ensures !Less(a, a)
    decreases |a|
  {
    if |a| > 0 {
      LessIrreflexive(a[1..]);
    }
  }

  lemma {:induction false} LessAsymmetric(a: string, b: string)
    ensures !(Less(a, b) && Less(b, a))
    decreases |a|
  {
    if |a| > 0 && |b| > 0 && a[0] == b[0] {
      LessAsymmetric(a[1..], b[1..]);
    }
  }

  lemma {:induction false} LessTransitive(a: string, b: string, c: string)
    requires Less(a, b) && Less(b, c)
    ensures Less(a, c)
    decreases |a|
  {
    if |a| > 0 && a[0] == b[0] && b[0] == c[0] {
      LessTransitive(a[1..], b[1..], c[1..]);
    }
  }

  lemma {:induction false} LessTotal(a: string, b: string)
    ensures a == b || Less(a, b) || Less(b, a)
    decreases |a|
  {
    if |a| > 0 && |b| > 0 && a[0] == b[0] {
      LessTotal(a[1..], b[1..]);
      if a[1..] == b[1..] {
        assert a == [a[0]] + a[1..] && b == [b[0]] + b[1..];
      }
    }
  }

  /** `LessEq` is a total preorder: the facts every sort below relies on. */
  lemma LessEqTransitive(a: string, b: string, c: string)
    requires LessEq(a, b) && LessEq(b, c)
    ensures LessEq(a, c)
  {
    if Less(c, a) {
      LessTotal(a, b);
      LessTotal(b, c);
      if a == b {
      } else if b == c {
      } else if Less(a, b) {
        LessTransitive(c, a, b);
      } else {
        LessTransitive(b, c, a);
      }
    }
  }

  lemma LessEqTotal(a: string, b: string)
    ensures LessEq(a, b) || LessEq(b, a)
  {
    LessAsymmetric(a, b);
  }

  lemma LessImpliesLessEq(a: string, b: string)
    requires Less(a, b)
    ensures LessEq(a, b)
  {
    LessAsymmetric(a, b);
  }

  lemma LessLessEqTransitive(a: string, b: string, c: string)
    requires Less(a, b) && LessEq(b, c)
    ensures Less(a, c)
  {
    LessTotal(b, c);
    if b != c {
      LessTransitive(a, b, c);
    }
  }
}
