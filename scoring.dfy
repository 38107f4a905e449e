/** Scoring of a report against a checklist catalog (`calculateScores`).
    For each category, in catalog order, the results whose item belongs to
    the category are selected; those not marked NA are applicable (an
    unanswered item counts as applicable and not compliant); the category
    scores the percentage of compliant applicable results, rounded half up,
    or 100 when nothing is applicable. The overall score is the rounded mean
    of the category scores (100 for an empty catalog) and the evaluation is
    its band: ÓTIMO from 90, BOM from 70, REGULAR from 50, RUIM below. */
module Scoring {
  import opened Types
  import opened Checklist
  import opened Lists

  predicate IsApplicable(r: ItemResult) {
    r.status != Some(NA)
  }

  predicate IsCompliant(r: ItemResult) {
    r.status == Some(C)
  }

  /** The results whose item belongs to category `c`. */
  function CategoryResults(c: ChecklistCategory, results: seq<ItemResult>): seq<ItemResult> {
    Filter(results, (r: ItemResult) => r.itemId in CategoryItemIds(c))
  }

  function Applicable(c: ChecklistCategory, results: seq<ItemResult>): seq<ItemResult> {
    Filter(CategoryResults(c, results), IsApplicable)
  }

  function Compliant(c: ChecklistCategory, results: seq<ItemResult>): seq<ItemResult> {
    Filter(Applicable(c, results), IsCompliant)
  }

  /** Integer division brackets the quotient. */
  lemma DivBracket(x: int, d: int)
    requires d > 0
    ensures d * (x / d) <= x < d * (x / d + 1)
  {
  }

  lemma MulCancelLess(d: int, x: int, y: int)
    requires d > 0 && d * x < d * y
    ensures x < y
  {
  }

  /** `Math.round(compliant / applicable * 100)`, halves rounded up. */
  function RoundRatio(compliant: nat, applicable: nat): (r: nat)
    requires 0 < applicable && compliant <= applicable
    ensures r <= 100
    ensures compliant == 0 ==> r == 0
    ensures compliant == applicable ==> r == 100
  {
    var d := 2 * applicable;
    var x := 200 * compliant + applicable;
    DivBracket(x, d);
    MulCancelLess(d, x / d, 101);
    assert compliant == 0 ==> x / d == 0 by {
      if compliant == 0 {
        MulCancelLess(d, x / d, 1);
      }
    }
    assert compliant == applicable ==> x / d == 100 by {
      if compliant == applicable {
        MulCancelLess(d, 100, x / d + 1);
      }
    }
    x / d
  }

  /** The rounded percentage is the integer nearest to the exact one,
      halves going up. */
  lemma RoundRatioNearest(compliant: nat, applicable: nat)
    requires 0 < applicable && compliant <= applicable
    ensures var r := RoundRatio(compliant, applicable);
      2 * applicable * r <= 200 * compliant + applicable < 2 * applicable * (r + 1)
  {
    DivBracket(200 * compliant + applicable, 2 * applicable);
  }

  /** `Math.round(total / count)`, halves rounded up. */
  function RoundMean(total: int, count: nat): (r: int)
    requires count > 0
    ensures 0 <= total <= 100 * count ==> 0 <= r <= 100
  {
    var d := 2 * count;
    var x := 2 * total + count;
    assert 0 <= total <= 100 * count ==> 0 <= x / d <= 100 by {
      if 0 <= total <= 100 * count {
        DivBracket(x, d);
        MulCancelLess(d, -1, x / d);
        MulCancelLess(d, x / d, 101);
      }
    }
    x / d
  }

  /** The rounded mean is the integer nearest to the exact one, halves going
      up. */
  lemma RoundMeanNearest(total: int, count: nat)
    requires count > 0
    ensures var r := RoundMean(total, count);
      2 * count * r <= 2 * total + count < 2 * count * (r + 1)
  {
    DivBracket(2 * total + count, 2 * count);
  }

  /** The score of one category. */
  function CategoryScore(c: ChecklistCategory, results: seq<ItemResult>): (score: int)
    ensures 0 <= score <= 100
  {
    var applicable := Applicable(c, results);
    if |applicable| == 0 then 100
    else RoundRatio(|Filter(applicable, IsCompliant)|, |applicable|)
  }

  /** The category scores in catalog order. */
  function Scores(catalog: seq<ChecklistCategory>, results: seq<ItemResult>): (s: seq<int>)
    ensures |s| == |catalog|
    ensures forall i :: 0 <= i < |s| ==> s[i] == CategoryScore(catalog[i], results)
  {
    seq(|catalog|, i requires 0 <= i < |catalog| => CategoryScore(catalog[i], results))
  }

  /** The running total of the category scores. */
  function Sum(s: seq<int>): int
    decreases |s|
  {
    if s == [] then 0 else Sum(s[..|s| - 1]) + s[|s| - 1]
  }

  lemma {:induction false} SumBounds(s: seq<int>, lo: int, hi: int)
    requires forall i :: 0 <= i < |s| ==> lo <= s[i] <= hi
    ensures lo * |s| <= Sum(s) <= hi * |s|
    decreases |s|
  {
    if s != [] {
      var n := |s| - 1;
      SumBounds(s[..n], lo, hi);
      assert lo * |s| == lo * n + lo && hi * |s| == hi * n + hi;
    }
  }

  /** The overall score: the rounded mean of the category scores. */
  function OverallScore(catalog: seq<ChecklistCategory>, results: seq<ItemResult>): (score: int)
    ensures 0 <= score <= 100
  {
    if |catalog| > 0 then
      SumBounds(Scores(catalog, results), 0, 100);
      RoundMean(Sum(Scores(catalog, results)), |catalog|)
    else 100
  }

  /** No later category of the catalog has the id of category `i`. */
  predicate LastWithId(catalog: seq<ChecklistCategory>, i: nat)
    requires i < |catalog|
  {
    forall j :: i < j < |catalog| ==> catalog[j].id != catalog[i].id
  }

  /** `categoryScores`: each category id mapped to its score; when two
      categories share an id, the later one's score is kept. */
  function ScoreMap(catalog: seq<ChecklistCategory>, results: seq<ItemResult>): (m: map<string, int>)
    ensures m.Keys == set i | 0 <= i < |catalog| :: catalog[i].id
    ensures forall id :: id in m ==> 0 <= m[id] <= 100
    decreases |catalog|
  {
    if catalog == [] then map[]
    else
      var n := |catalog| - 1;
      var prefix := catalog[..n];
      assert forall i :: 0 <= i < n ==> prefix[i] == catalog[i];
      ScoreMap(prefix, results)[catalog[n].id := CategoryScore(catalog[n], results)]
  }

  /** A category's id maps to its own score unless a later category
      reuses the id. */
  lemma {:induction false} ScoreMapLookup(catalog: seq<ChecklistCategory>, results: seq<ItemResult>, i: nat)
    requires i < |catalog| && LastWithId(catalog, i)
    ensures ScoreMap(catalog, results)[catalog[i].id] == CategoryScore(catalog[i], results)
    decreases |catalog|
  {
    var n := |catalog| - 1;
    if i < n {
      var prefix := catalog[..n];
      assert prefix[i] == catalog[i];
      assert LastWithId(prefix, i);
      ScoreMapLookup(prefix, results, i);
    }
  }

  /** The four evaluation bands, best first. */
  datatype Band = Otimo | Bom | Regular | Ruim

  function BandOf(score: int): Band {
    if score >= 90 then Otimo
    else if score >= 70 then Bom
    else if score >= 50 then Regular
    else Ruim
  }

  function Label(b: Band): string {
    match b
    case Otimo => "ÓTIMO"
    case Bom => "BOM"
    case Regular => "REGULAR"
    case Ruim => "RUIM"
  }

  /** 0 for the best band, 3 for the worst. */
  function Rank(b: Band): nat {
    match b
    case Otimo => 0
    case Bom => 1
    case Regular => 2
    case Ruim => 3
  }

  /** The evaluation text stored with a report. */
  function Evaluation(score: int): (e: string)
    ensures e == "RUIM" <==> score < 50
    ensures e == "REGULAR" <==> 50 <= score < 70
    ensures e == "BOM" <==> 70 <= score < 90
  {
    Label(BandOf(score))
  }

  /** Extending the scored prefix of the catalog by one category. */
  lemma PrefixStep(catalog: seq<ChecklistCategory>, results: seq<ItemResult>, i: nat)
    requires i < |catalog|
    ensures Scores(catalog[..i + 1], results) == Scores(catalog[..i], results) + [CategoryScore(catalog[i], results)]
    ensures Sum(Scores(catalog[..i + 1], results)) == Sum(Scores(catalog[..i], results)) + CategoryScore(catalog[i], results)
    ensures ScoreMap(catalog[..i + 1], results) == ScoreMap(catalog[..i], results)[catalog[i].id := CategoryScore(catalog[i], results)]
  {
    assert catalog[..i + 1][..i] == catalog[..i];
    var s := Scores(catalog[..i + 1], results);
    assert s[..i] == Scores(catalog[..i], results);
  }

  /** The `forEach` of `calculateScores`: every category scored into the
      map and added to the running total. */
  method ScoreCategories(catalog: seq<ChecklistCategory>, results: seq<ItemResult>)
    returns (categoryScores: map<string, int>, totalScore: int, scoredCategories: nat)
    ensures categoryScores == ScoreMap(catalog, results)
    ensures totalScore == Sum(Scores(catalog, results))
    ensures scoredCategories == |catalog|
  {
    categoryScores := map[];
    totalScore := 0;
    scoredCategories := 0;
    var i := 0;
    while i < |catalog|
      invariant 0 <= i <= |catalog| && scoredCategories == i
      invariant categoryScores == ScoreMap(catalog[..i], results)
      invariant totalScore == Sum(Scores(catalog[..i], results))
    {
      var category := catalog[i];
      var applicableResults := Applicable(category, results);
      var compliantResults := Filter(applicableResults, IsCompliant);
      if |applicableResults| == 0 {
        categoryScores := categoryScores[category.id := 100];
      } else {
        categoryScores := categoryScores[category.id := RoundRatio(|compliantResults|, |applicableResults|)];
      }
      assert categoryScores[category.id] == CategoryScore(category, results);
      totalScore := totalScore + categoryScores[category.id];
      scoredCategories := scoredCategories + 1;
      assert categoryScores == ScoreMap(catalog[..i + 1], results)
        && totalScore == Sum(Scores(catalog[..i + 1], results)) by {
        PrefixStep(catalog, results, i);
      }
      i := i + 1;
    }
    assert catalog[..i] == catalog;
  }

  /** `calculateScores(results)` against `catalog`. */
  method CalculateScores(catalog: seq<ChecklistCategory>, results: seq<ItemResult>)
    returns (score: int, evaluation: string, categoryScores: map<string, int>)
    ensures score == OverallScore(catalog, results)
    ensures evaluation == Evaluation(score)
    ensures categoryScores == ScoreMap(catalog, results)
  {
    var totalScore, scoredCategories;
    categoryScores, totalScore, scoredCategories := ScoreCategories(catalog, results);
    score := if scoredCategories > 0 then RoundMean(totalScore, scoredCategories) else 100;
    evaluation := "RUIM";
    if score >= 90 {
      evaluation := "ÓTIMO";
      assert BandOf(score) == Otimo;
    } else if score >= 70 {
      evaluation := "BOM";
      assert BandOf(score) == Bom;
    } else if score >= 50 {
      evaluation := "REGULAR";
      assert BandOf(score) == Regular;
    } else {
      assert BandOf(score) == Ruim;
    }
  }

  // ---------------------------------------------------------------------
  // Properties of the scoring

  /** The scoring classes of a status: compliant, not applicable, or
      applicable and not compliant (which includes unanswered). */
  datatype Class = Ok | Skipped | Failed

  function ClassOf(status: Option<InspectionStatus>): Class {
    match status
    case Some(C) => Ok
    case Some(NA) => Skipped
    case _ => Failed
  }

  /** Two result lists the scoring cannot tell apart: same length, and at
      each position the same item and the same scoring class. */
  predicate SameKeys(rs: seq<ItemResult>, ts: seq<ItemResult>) {
    |rs| == |ts| && forall i :: 0 <= i < |rs| ==> rs[i].itemId == ts[i].itemId && ClassOf(rs[i].status) == ClassOf(ts[i].status)
  }

  lemma {:induction false} FilterSameKeys(rs: seq<ItemResult>, ts: seq<ItemResult>, p: ItemResult -> bool)
    requires SameKeys(rs, ts)
    requires forall x: ItemResult, y: ItemResult :: x.itemId == y.itemId && ClassOf(x.status) == ClassOf(y.status) ==> p(x) == p(y)
    ensures SameKeys(Filter(rs, p), Filter(ts, p))
    decreases |rs|
  {
    if rs != [] {
      FilterSameKeys(rs[1..], ts[1..], p);
    }
  }

  /** Scores depend on nothing but each result's item and scoring class:
      not on photos, comments, action plans, nor on whether a failed item
      was marked NC or left unanswered. */
  lemma CategoryScoreSameKeys(c: ChecklistCategory, rs: seq<ItemResult>, ts: seq<ItemResult>)
    requires SameKeys(rs, ts)
    ensures CategoryScore(c, rs) == CategoryScore(c, ts)
  {
    var inCat := (r: ItemResult) => r.itemId in CategoryItemIds(c);
    FilterSameKeys(rs, ts, inCat);
    FilterSameKeys(CategoryResults(c, rs), CategoryResults(c, ts), IsApplicable);
    FilterSameKeys(Applicable(c, rs), Applicable(c, ts), IsCompliant);
  }

  lemma ScoresSameKeys(catalog: seq<ChecklistCategory>, rs: seq<ItemResult>, ts: seq<ItemResult>)
    requires SameKeys(rs, ts)
    ensures Scores(catalog, rs) == Scores(catalog, ts)
    ensures OverallScore(catalog, rs) == OverallScore(catalog, ts)
    ensures ScoreMap(catalog, rs) == ScoreMap(catalog, ts)
  {
    forall i | 0 <= i < |catalog|
      ensures CategoryScore(catalog[i], rs) == CategoryScore(catalog[i], ts)
    {
      CategoryScoreSameKeys(catalog[i], rs, ts);
    }
    ScoreMapPointwise(catalog, rs, ts);
  }

  lemma {:induction false} ScoreMapPointwise(catalog: seq<ChecklistCategory>, rs: seq<ItemResult>, ts: seq<ItemResult>)
    requires forall i :: 0 <= i < |catalog| ==> CategoryScore(catalog[i], rs) == CategoryScore(catalog[i], ts)
    ensures ScoreMap(catalog, rs) == ScoreMap(catalog, ts)
    decreases |catalog|
  {
    if catalog != [] {
      var prefix := catalog[..|catalog| - 1];
      assert forall i :: 0 <= i < |prefix| ==> prefix[i] == catalog[i];
      ScoreMapPointwise(prefix, rs, ts);
    }
  }

  /** A category none of whose results is applicable (all NA, or no result
      for its items at all) scores 100. */
  lemma NothingApplicableScores100(c: ChecklistCategory, results: seq<ItemResult>)
    requires forall r :: r in results && r.itemId in CategoryItemIds(c) ==> r.status == Some(NA)
    ensures CategoryScore(c, results) == 100
  {
    FilterMembers(results, (r: ItemResult) => r.itemId in CategoryItemIds(c));
    FilterNone(CategoryResults(c, results), IsApplicable);
  }

  /** A category with applicable results of which none is compliant
      (each NC or unanswered) scores 0. */
  lemma NoneCompliantScores0(c: ChecklistCategory, results: seq<ItemResult>)
    requires exists r :: r in results && r.itemId in CategoryItemIds(c) && r.status != Some(NA)
    requires forall r :: r in results && r.itemId in CategoryItemIds(c) ==> r.status != Some(C)
    ensures CategoryScore(c, results) == 0
  {
    var r :| r in results && r.itemId in CategoryItemIds(c) && r.status != Some(NA);
    FilterMembers(results, (r: ItemResult) => r.itemId in CategoryItemIds(c));
    FilterMembers(CategoryResults(c, results), IsApplicable);
    assert r in Applicable(c, results);
    FilterNone(Applicable(c, results), IsCompliant);
  }

  /** A category whose results are all compliant, with at least one of
      them, scores 100. */
  lemma AllCompliantScores100(c: ChecklistCategory, results: seq<ItemResult>)
    requires exists r :: r in results && r.itemId in CategoryItemIds(c)
    requires forall r :: r in results && r.itemId in CategoryItemIds(c) ==> r.status == Some(C)
    ensures CategoryScore(c, results) == 100
  {
    var r :| r in results && r.itemId in CategoryItemIds(c);
    FilterMembers(results, (r: ItemResult) => r.itemId in CategoryItemIds(c));
    FilterMembers(CategoryResults(c, results), IsApplicable);
    assert r in Applicable(c, results);
    FilterAll(Applicable(c, results), IsCompliant);
  }

  /** When every category scores the same, so does the report. */
  lemma UniformScores(catalog: seq<ChecklistCategory>, results: seq<ItemResult>, s: int)
    requires |catalog| > 0
    requires forall i :: 0 <= i < |catalog| ==> CategoryScore(catalog[i], results) == s
    ensures OverallScore(catalog, results) == s
  {
    var n := |catalog|;
    SumBounds(Scores(catalog, results), s, s);
    RoundMeanExact(s, n);
  }

  /** The rounded mean of `n` copies of `s` is `s`. */
  lemma RoundMeanExact(s: int, n: nat)
    requires n > 0
    ensures RoundMean(s * n, n) == s
  {
    var r := RoundMean(s * n, n);
    RoundMeanNearest(s * n, n);
    var d := 2 * n;
    assert d * r <= d * s + n < d * (r + 1);
    assert d * s + n < d * (s + 1);
    MulCancelLess(d, r, s + 1);
    MulCancelLess(d, s, r + 1);
  }

  /** An id of a category's items is an id of the catalog's items. */
  lemma CategoryIdInCatalog(catalog: seq<ChecklistCategory>, k: nat, id: string)
    requires k < |catalog| && id in CategoryItemIds(catalog[k])
    ensures id in AllItemIds(catalog)
  {
    var items := CategoryItems(catalog[k]);
    var j :| 0 <= j < |items| && items[j].id == id;
    CategoryItemsInAllItems(catalog, k, items[j]);
    var t :| 0 <= t < |AllItems(catalog)| && AllItems(catalog)[t] == items[j];
    assert AllItemIds(catalog)[t] == id;
  }

  lemma ForeignResultIgnoredInCategory(c: ChecklistCategory, results: seq<ItemResult>, extra: ItemResult)
    requires extra.itemId !in CategoryItemIds(c)
    ensures CategoryResults(c, results + [extra]) == CategoryResults(c, results)
  {
    var inCat := (r: ItemResult) => r.itemId in CategoryItemIds(c);
    FilterAppend(results, [extra], inCat);
    assert Filter([extra], inCat) == [];
  }

  /** A result whose item is not in the catalog changes no score. */
  lemma ForeignResultIgnored(catalog: seq<ChecklistCategory>, results: seq<ItemResult>, extra: ItemResult)
    requires extra.itemId !in AllItemIds(catalog)
    ensures Scores(catalog, results + [extra]) == Scores(catalog, results)
    ensures OverallScore(catalog, results + [extra]) == OverallScore(catalog, results)
    ensures ScoreMap(catalog, results + [extra]) == ScoreMap(catalog, results)
  {
    forall k | 0 <= k < |catalog|
      ensures CategoryScore(catalog[k], results + [extra]) == CategoryScore(catalog[k], results)
    {
      if extra.itemId in CategoryItemIds(catalog[k]) {
        CategoryIdInCatalog(catalog, k, extra.itemId);
        assert false;
      }
      ForeignResultIgnoredInCategory(catalog[k], results, extra);
    }
    ScoreMapPointwise(catalog, results + [extra], results);
  }

  /** Better scores never fall in a worse band. */
  lemma BandMonotone(s: int, t: int)
    requires s <= t
    ensures Rank(BandOf(t)) <= Rank(BandOf(s))
  {
  }

  /** The evaluation reads ÓTIMO exactly from 90 up. */
  lemma EvaluationOtimo(score: int)
    ensures Evaluation(score) == "ÓTIMO" <==> score >= 90
  {
    if score < 90 {
      assert Evaluation(score)[0] != 'Ó';
    }
  }

  /** Two small categories, "a" with items a1 and a2, "b" with item b1. */
  function ExampleCatalog(): seq<ChecklistCategory> {
    [ChecklistCategory("a", "A", [ChecklistSubCategory("", [ChecklistItem("a1", ""), ChecklistItem("a2", "")])]),
     ChecklistCategory("b", "B", [ChecklistSubCategory("", [ChecklistItem("b1", "")])])]
  }

  /** a1 compliant, a2 non-compliant, b1 not applicable. */
  function ExampleResults(): seq<ItemResult> {
    [ItemResult("a1", Some(C), [], "", None), ItemResult("a2", Some(NC), [], "", None),
     ItemResult("b1", Some(NA), [], "", None)]
  }

  /** One compliant and one non-compliant item give 50. */
  lemma ExampleHalfCompliant()
    ensures CategoryScore(ExampleCatalog()[0], ExampleResults()) == 50
  {
    var a, rs := ExampleCatalog()[0], ExampleResults();
    assert CategoryItemIds(a) == ["a1", "a2"];
    assert CategoryResults(a, rs) == rs[..2];
    assert Applicable(a, rs) == rs[..2];
    assert Filter(Applicable(a, rs), IsCompliant) == rs[..1];
  }

  /** A category whose only result is NA scores 100. */
  lemma ExampleAllNA()
    ensures CategoryScore(ExampleCatalog()[1], ExampleResults()) == 100
  {
    var b, rs := ExampleCatalog()[1], ExampleResults();
    assert CategoryItemIds(b) == ["b1"];
    assert CategoryResults(b, rs) == rs[2..];
    assert Applicable(b, rs) == [];
  }

  /** With the two categories above, the report scores 75, which is BOM. */
  lemma ExampleScores()
    ensures Scores(ExampleCatalog(), ExampleResults()) == [50, 100]
    ensures OverallScore(ExampleCatalog(), ExampleResults()) == 75
    ensures Evaluation(OverallScore(ExampleCatalog(), ExampleResults())) == "BOM"
  {
    ExampleHalfCompliant();
    ExampleAllNA();
    var scores := Scores(ExampleCatalog(), ExampleResults());
    assert scores == [50, 100];
    assert Sum(scores) == 150 by {
      assert scores[..1] == [50] && scores[..1][..0] == [];
      assert Sum(scores[..1]) == 50;
    }
  }
}
