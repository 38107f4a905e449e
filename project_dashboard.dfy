/** One project's dashboard: its reports newest first, the latest of them
    with its score card and per-category tiles (complete when every item of
    the category has an answered result), the primary action (continue the
    latest draft, or start a new inspection) offered to the roles that may
    create or edit, and the history of the other reports. */
module ProjectDashboard {
  import opened Types
  import opened Order
  import opened Checklist
  import opened Lists
  import opened Scoring
  import opened Sorting
  import opened Templates
  import MockApi
  import ReportForm

  function ReportDate(r: Report): string {
    r.date
  }

  /** `reports.sort((a, b) => date(b) - date(a))`. */
  function SortedReports(reports: seq<Report>): seq<Report> {
    SortBy(reports, ReportDate, true)
  }

  /** `latestReport`: the head of the newest-first list. */
  function LatestReport(reports: seq<Report>): (latest: Option<Report>)
    ensures latest.None? <==> reports == []
    ensures latest.Some? ==> latest.value in reports
  {
    if reports == [] then None
    else
      SortHead(reports, ReportDate, true, reports[0]);
      Some(SortedReports(reports)[0])
  }

  /** `canCreateOrEdit`. */
  predicate CanCreateOrEdit(role: Option<Role>) {
    role == Some(Admin) || role == Some(Assistant) || role == Some(Manager)
  }

  /** The first result of the item exists and has an answer. */
  predicate Answered(results: seq<ItemResult>, itemId: string) {
    FindResult(results, itemId).Some? && FindResult(results, itemId).value.status.Some?
  }

  /** `getCategoryStatus(categoryId).isComplete`. */
  predicate CategoryComplete(catalog: seq<ChecklistCategory>, latest: Option<Report>, categoryId: string)
    ensures CategoryComplete(catalog, latest, categoryId) ==> latest.Some? && categoryId in CategoryIds(catalog)
  {
    var k := IndexWhere(catalog, (c: ChecklistCategory) => c.id == categoryId);
    latest.Some? && k >= 0
    && forall itemId :: itemId in CategoryItemIds(catalog[k]) ==> Answered(latest.value.results, itemId)
  }

  /** The header button: continue the latest report at the first category
      while it is a draft, otherwise start a new inspection. */
  datatype PrimaryAction = ContinueInspection(report: Report, categoryId: string) | NewInspection

  function PrimaryActionOf(latest: Option<Report>): PrimaryAction {
    if latest.Some? && latest.value.status != Completed then ContinueInspection(latest.value, "massa")
    else NewInspection
  }

  /** The header button as rendered: present only under `canCreateOrEdit`. */
  function OfferedAction(role: Option<Role>, reports: seq<Report>): (offered: Option<PrimaryAction>)
    ensures offered.Some? <==> CanCreateOrEdit(role)
    ensures offered.Some? && offered.value.ContinueInspection? ==>
      offered.value.report in reports && offered.value.report.status == Draft
  {
    if CanCreateOrEdit(role) then Some(PrimaryActionOf(LatestReport(reports))) else None
  }

  /** The colours a score or badge is drawn in. */
  datatype Tone = Green | Blue | Yellow | Red

  /** `getColor(score)` of the score ring. */
  function RingTone(score: int): Tone {
    if score >= 90 then Green
    else if score >= 70 then Blue
    else if score >= 50 then Yellow
    else Red
  }

  /** `latestReport.categoryScores[category.id] ?? 0`. */
  function DisplayedCategoryScore(latest: Report, categoryId: string): int {
    if categoryId in latest.categoryScores then latest.categoryScores[categoryId] else 0
  }

  /** The history is shown when the project has more than one report. */
  predicate ShowHistory(reports: seq<Report>) {
    |reports| > 1
  }

  /** The test `r => r.id !== id`. */
  function OtherThan(id: string): Report -> bool {
    (r: Report) => r.id != id
  }

  /** The history: the sorted reports other than those sharing the latest's
      id. */
  function History(reports: seq<Report>): (older: seq<Report>)
    ensures |older| <= |reports|
    ensures forall r :: r in older ==> r in reports
  {
    SortPermutes(reports, ReportDate, true);
    assert forall r :: r in SortedReports(reports) ==> r in multiset(SortedReports(reports));
    match LatestReport(reports)
    case None => SortedReports(reports)
    case Some(latest) =>
      FilterMembers(SortedReports(reports), OtherThan(latest.id));
      Filter(SortedReports(reports), OtherThan(latest.id))
  }

  /** A history entry's badge: green for ÓTIMO, yellow for anything else. */
  function BadgeTone(evaluation: string): Tone {
    if evaluation == "ÓTIMO" then Green else Yellow
  }

  // ---------------------------------------------------------------------
  // Properties of the dashboard

  /** There is a latest report exactly when there are reports; it is one of
      them, and none is dated later. */
  lemma LatestReportEffect(reports: seq<Report>)
    ensures LatestReport(reports).None? <==> reports == []
    ensures LatestReport(reports).Some? ==>
      LatestReport(reports).value in reports
      && forall r :: r in reports ==> LessEq(r.date, LatestReport(reports).value.date)
  {
    if reports != [] {
      forall r | r in reports
        ensures LessEq(r.date, LatestReport(reports).value.date)
      {
        SortHead(reports, ReportDate, true, r);
      }
      SortHead(reports, ReportDate, true, reports[0]);
    }
  }

  /** The ring colour is the evaluation band's colour. */
  lemma RingToneFollowsBand(score: int)
    ensures RingTone(score) == Green <==> BandOf(score) == Otimo
    ensures RingTone(score) == Blue <==> BandOf(score) == Bom
    ensures RingTone(score) == Yellow <==> BandOf(score) == Regular
    ensures RingTone(score) == Red <==> BandOf(score) == Ruim
  {
  }

  /** Only admins, assistants and managers are offered the header button;
      the button continues the latest report exactly when that report is a
      draft. */
  lemma OfferedActionRoles(role: Option<Role>, reports: seq<Report>)
    ensures OfferedAction(role, reports).Some? <==> role.Some? && role.value in {Admin, Assistant, Manager}
    ensures var a := OfferedAction(role, reports);
      a.Some? && a.value.ContinueInspection? <==>
        CanCreateOrEdit(role) && reports != [] && LatestReport(reports).value.status == Draft
  {
    PrimaryActionEffect(reports);
  }

  /** A latest draft is continued at 'massa'; a completed one, or none,
      leads to a new inspection. */
  lemma PrimaryActionEffect(reports: seq<Report>)
    ensures var a := PrimaryActionOf(LatestReport(reports));
      (a.ContinueInspection? <==> reports != [] && LatestReport(reports).value.status == Draft)
      && (a.ContinueInspection? ==> a.report in reports && a.categoryId == "massa")
  {
    LatestReportEffect(reports);
  }

  /** A category is incomplete without a latest report, and as long as one
      of its items has no answered result. */
  lemma CategoryIncomplete(catalog: seq<ChecklistCategory>, latest: Option<Report>, k: nat, itemId: string)
    requires k < |catalog| && (forall j :: 0 <= j < k ==> catalog[j].id != catalog[k].id)
    requires itemId in CategoryItemIds(catalog[k])
    requires latest.None? || !Answered(latest.value.results, itemId)
    ensures !CategoryComplete(catalog, latest, catalog[k].id)
  {
    var id := catalog[k].id;
    assert IndexWhere(catalog, (c: ChecklistCategory) => c.id == id) == k;
  }

  /** A fresh template leaves every non-empty category incomplete. */
  lemma TemplateCategoriesIncomplete(catalog: seq<ChecklistCategory>, r: Report, k: nat)
    requires r.results == BlankResults(catalog)
    requires k < |catalog| && (forall j :: 0 <= j < k ==> catalog[j].id != catalog[k].id)
    requires |CategoryItems(catalog[k])| > 0
    ensures !CategoryComplete(catalog, Some(r), catalog[k].id)
  {
    var x := CategoryItems(catalog[k])[0];
    assert CategoryItemIds(catalog[k])[0] == x.id;
    var found := FindResult(r.results, x.id);
    if found.Some? {
      assert found.value in r.results;
    }
    CategoryIncomplete(catalog, Some(r), k, x.id);
  }

  /** Answering every item of a category (first result each) completes it. */
  lemma CategoryCompleteWhenAnswered(catalog: seq<ChecklistCategory>, r: Report, k: nat)
    requires k < |catalog| && (forall j :: 0 <= j < k ==> catalog[j].id != catalog[k].id)
    requires forall itemId :: itemId in CategoryItemIds(catalog[k]) ==> Answered(r.results, itemId)
    ensures CategoryComplete(catalog, Some(r), catalog[k].id)
  {
    var id := catalog[k].id;
    assert IndexWhere(catalog, (c: ChecklistCategory) => c.id == id) == k;
  }

  /** On a report scored against the catalog, a tile shows its category's
      score; an id the scoring never saw shows 0. */
  lemma DisplayedScoreIsCategoryScore(catalog: seq<ChecklistCategory>, r: Report, i: nat)
    requires r.categoryScores == ScoreMap(catalog, r.results)
    requires i < |catalog| && LastWithId(catalog, i)
    ensures DisplayedCategoryScore(r, catalog[i].id) == CategoryScore(catalog[i], r.results)
  {
    ScoreMapLookup(catalog, r.results, i);
  }

  lemma DisplayedScoreUnknownCategory(catalog: seq<ChecklistCategory>, r: Report, id: string)
    requires r.categoryScores == ScoreMap(catalog, r.results)
    requires forall i :: 0 <= i < |catalog| ==> catalog[i].id != id
    ensures DisplayedCategoryScore(r, id) == 0
  {
  }

  /** The history holds, newest first, every report whose id differs from
      the latest's, and nothing else. */
  lemma HistoryEffect(reports: seq<Report>)
    requires reports != []
    ensures Sorted(History(reports), ReportDate, true)
    ensures forall r :: r in History(reports) <==> r in reports && r.id != LatestReport(reports).value.id
  {
    var latest := LatestReport(reports).value;
    var keep := OtherThan(latest.id);
    SortSorted(reports, ReportDate, true);
    SortPermutes(reports, ReportDate, true);
    FilterMembers(SortedReports(reports), keep);
    FilterKeepsSorted(SortedReports(reports), ReportDate, true, keep);
    forall r
      ensures r in SortedReports(reports) <==> r in reports
    {
      assert r in SortedReports(reports) <==> r in multiset(SortedReports(reports));
    }
  }

  /** The badge is green exactly for reports scoring 90 or more, as long as
      the evaluation is spelt as the scoring spells it. */
  lemma BadgeGreenIffOtimo(r: Report)
    requires r.evaluation == Evaluation(r.score)
    ensures BadgeTone(r.evaluation) == Green <==> r.score >= 90
  {
    EvaluationOtimo(r.score);
  }

  /** With the evaluation as the browser-only service's source spells it,
      no report ever gets a green badge. */
  lemma BadgeNeverGreenAsWritten(score: int)
    ensures BadgeTone(MockApi.EvaluationAsWritten(score)) == Yellow
  {
    MockApi.EvaluationAsWrittenMisspellsOtimo(score);
    if score < 90 {
      EvaluationOtimo(score);
    }
  }

  /** Every report the form saves reaches the history with a yellow badge,
      however high it scores: the form saves through the browser-only
      service, whose top label is not the one the badge looks for. */
  lemma FormSavedNeverGreen(readOnly: bool, d: ReportDraft, reports: seq<Report>, catalog: seq<ChecklistCategory>,
                            status: ReportStatus, nowIso: string, millis: nat)
    ensures var o := ReportForm.SubmitOutcomeOf(readOnly, d, reports, catalog, status, nowIso, millis);
      o.Saved? ==> BadgeTone(o.report.evaluation) == Yellow
  {
    var o := ReportForm.SubmitOutcomeOf(readOnly, d, reports, catalog, status, nowIso, millis);
    if o.Saved? {
      BadgeNeverGreenAsWritten(o.report.score);
    }
  }
}
