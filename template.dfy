/** The blank report both services hand to a new inspection: one result per
    catalog item, in catalog order, unanswered, with no photo, no comment
    and an empty action plan; dated with the day part of the current ISO
    timestamp; drafted by the mock inspector. The two services differ only
    in the manager signature they pre-fill. */
module Templates {
  import opened Types
  import opened Checklist
  import opened Scoring

  /** The inspector name both templates pre-fill. */
  const MockInspector := "Gediel da Silva"

  function EmptyPlan(): ActionPlan {
    ActionPlan("", "", "", Resources(false, false, false))
  }

  function BlankResult(item: ChecklistItem): ItemResult {
    ItemResult(item.id, None, [], "", Some(EmptyPlan()))
  }

  /** The item ids of a result list, in order. */
  function ResultIds(rs: seq<ItemResult>): (ids: seq<string>)
    ensures |ids| == |rs|
    ensures forall i :: 0 <= i < |rs| ==> ids[i] == rs[i].itemId
  {
    seq(|rs|, i requires 0 <= i < |rs| => rs[i].itemId)
  }

  /** A result nobody has touched yet. */
  predicate IsBlank(r: ItemResult) {
    r.status == None && r.photos == [] && r.comment == "" && r.actionPlan == Some(EmptyPlan())
  }

  /** `allItems.map(item => ({ itemId: item.id, status: null, ... }))`. */
  function BlankResults(catalog: seq<ChecklistCategory>): (rs: seq<ItemResult>)
    ensures ResultIds(rs) == AllItemIds(catalog)
    ensures forall r :: r in rs ==> IsBlank(r)
  {
    var items := AllItems(catalog);
    seq(|items|, i requires 0 <= i < |items| => BlankResult(items[i]))
  }

  /** `iso.split('T')[0]`: everything before the first 'T'. */
  function DatePart(iso: string): (d: string)
    ensures d <= iso
    ensures 'T' !in d
    ensures |d| < |iso| ==> iso[|d|] == 'T'
  {
    var i := IndexWhere(iso, (c: char) => c == 'T');
    if i < 0 then iso else iso[..i]
  }

  /** A timestamp `<day>T<time>` yields its day. */
  lemma DatePartOfTimestamp(day: string, time: string)
    requires 'T' !in day
    ensures DatePart(day + "T" + time) == day
  {
    var iso := day + "T" + time;
    var d := DatePart(iso);
    assert iso[|day|] == 'T';
    assert |d| <= |day|;
    assert d == iso[..|d|];
    assert day == iso[..|day|];
  }

  /** The fields a new report starts with, given the catalog, the project,
      the current ISO timestamp and the pre-filled manager signature. */
  function Template(catalog: seq<ChecklistCategory>, projectId: string, nowIso: string, manager: string): ReportDraft {
    ReportDraft(None, projectId, DatePart(nowIso), MockInspector, Draft,
      BlankResults(catalog), Signatures("", manager))
  }

  /** A blank result for every item of a non-empty category makes that
      category score 0: every result is applicable and none compliant. */
  lemma BlankCategoryScoresZero(catalog: seq<ChecklistCategory>, k: nat)
    requires k < |catalog| && |CategoryItems(catalog[k])| > 0
    ensures CategoryScore(catalog[k], BlankResults(catalog)) == 0
  {
    var rs := BlankResults(catalog);
    var x := CategoryItems(catalog[k])[0];
    assert CategoryItemIds(catalog[k])[0] == x.id;
    CategoryItemsInAllItems(catalog, k, x);
    var t :| 0 <= t < |AllItems(catalog)| && AllItems(catalog)[t] == x;
    assert AllItemIds(catalog)[t] == x.id;
    assert ResultIds(rs)[t] == x.id;
    assert rs[t] in rs && IsBlank(rs[t]);
    NoneCompliantScores0(catalog[k], rs);
  }

  /** A fresh template scores 0 and reads RUIM on any catalog whose
      categories all have items. */
  lemma TemplateScoresZero(catalog: seq<ChecklistCategory>)
    requires |catalog| > 0
    requires forall k :: 0 <= k < |catalog| ==> |CategoryItems(catalog[k])| > 0
    ensures OverallScore(catalog, BlankResults(catalog)) == 0
    ensures Evaluation(OverallScore(catalog, BlankResults(catalog))) == "RUIM"
  {
    forall k | 0 <= k < |catalog|
      ensures CategoryScore(catalog[k], BlankResults(catalog)) == 0
    {
      BlankCategoryScoresZero(catalog, k);
    }
    UniformScores(catalog, BlankResults(catalog), 0);
  }
}
