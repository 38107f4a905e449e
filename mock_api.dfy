/** The browser-only service the report form saves through: `saveReport`
    scores the draft against the catalog and stores it, replacing the
    report with the draft's id when there is one, otherwise appending it
    under a new `report-<milliseconds>` id; `getNewReportTemplate` builds a
    blank draft with the mock manager's signature pre-filled. The clock is
    a parameter. */
module MockApi {
  import opened Types
  import opened Checklist
  import opened Constants
  import opened Scoring
  import opened Storage
  import opened Templates

  /** The position `saveReport` overwrites: that of the first report with
      the draft's id when the id is given, non-empty and stored; -1 when the
      report is appended. */
  function SaveIndex(reports: seq<Report>, draft: ReportDraft): (i: int)
    ensures -1 <= i < |reports|
    ensures i >= 0 <==> draft.id.Some? && Truthy(draft.id.value) && HasId(reports, draft.id.value)
    ensures i >= 0 ==> reports[i].id == draft.id.value
  {
    if draft.id.Some? && Truthy(draft.id.value) then IndexOfId(reports, draft.id.value) else -1
  }

  /** The evaluation chain as this service's source spells it: the top
      band's label is the UTF-8 bytes of "ÓTIMO" decoded as Windows-1252,
      "Ã“TIMO". */
  function EvaluationAsWritten(score: int): (e: string)
    ensures score < 90 ==> e == Evaluation(score)
  {
    if score >= 90 then "\U{00C3}\U{201C}TIMO"
    else if score >= 70 then "BOM"
    else if score >= 50 then "REGULAR"
    else "RUIM"
  }

  /** This service's own `calculateScores`: the same category loop and
      overall mean as the shared scoring, with the evaluation spelled as
      this file spells it. */
  method CalculateScores(catalog: seq<ChecklistCategory>, results: seq<ItemResult>)
    returns (score: int, evaluation: string, categoryScores: map<string, int>)
    ensures score == OverallScore(catalog, results) && 0 <= score <= 100
    ensures evaluation == EvaluationAsWritten(score)
    ensures score < 90 ==> evaluation == Evaluation(score)
    ensures score >= 90 ==> evaluation != "ÓTIMO"
    ensures categoryScores == ScoreMap(catalog, results)
  {
    var totalScore, scoredCategories;
    categoryScores, totalScore, scoredCategories := ScoreCategories(catalog, results);
    score := if scoredCategories > 0 then RoundMean(totalScore, scoredCategories) else 100;
    evaluation := "RUIM";
    if score >= 90 {
      evaluation := "\U{00C3}\U{201C}TIMO";
    } else if score >= 70 {
      evaluation := "BOM";
    } else if score >= 50 {
      evaluation := "REGULAR";
    }
    EvaluationAsWrittenMisspellsOtimo(score);
  }

  /** The report `saveReport` returns. */
  function SavedReport(reports: seq<Report>, catalog: seq<ChecklistCategory>, draft: ReportDraft, millis: nat): (r: Report)
    ensures ToDraft(r) == draft.(id := Some(r.id)) && Truthy(r.id)
    ensures draft.id.Some? && Truthy(draft.id.value) && HasId(reports, draft.id.value) ==> r.id == draft.id.value
  {
    var id := if SaveIndex(reports, draft) >= 0 then draft.id.value else NewReportId(millis);
    var score := OverallScore(catalog, draft.results);
    Report(id, draft.projectId, draft.date, draft.inspector, draft.status, draft.results,
      draft.signatures, score, EvaluationAsWritten(score), ScoreMap(catalog, draft.results))
  }

  /** The stored list after `saveReport`. */
  function AfterSave(reports: seq<Report>, catalog: seq<ChecklistCategory>, draft: ReportDraft, millis: nat): seq<Report> {
    var i := SaveIndex(reports, draft);
    var r := SavedReport(reports, catalog, draft, millis);
    if i >= 0 then reports[i := r] else reports + [r]
  }

  /** `saveReport(reportData)`. */
  method SaveReport(store: ReportStore, catalog: seq<ChecklistCategory>, draft: ReportDraft, millis: nat)
    returns (newReport: Report)
    modifies store
    ensures newReport == SavedReport(old(store.reports), catalog, draft, millis)
    ensures store.reports == AfterSave(old(store.reports), catalog, draft, millis)
  {
    var reports := store.reports;
    var score, evaluation, categoryScores := CalculateScores(catalog, draft.results);
    if draft.id.Some? && Truthy(draft.id.value) {
      var index := IndexOfId(reports, draft.id.value);
      if index != -1 {
        newReport := Report(draft.id.value, draft.projectId, draft.date, draft.inspector, draft.status,
          draft.results, draft.signatures, score, evaluation, categoryScores);
        reports := reports[index := newReport];
      } else {
        newReport := Report(NewReportId(millis), draft.projectId, draft.date, draft.inspector, draft.status,
          draft.results, draft.signatures, score, evaluation, categoryScores);
        reports := reports + [newReport];
      }
    } else {
      newReport := Report(NewReportId(millis), draft.projectId, draft.date, draft.inspector, draft.status,
        draft.results, draft.signatures, score, evaluation, categoryScores);
      reports := reports + [newReport];
    }
    store.reports := reports;
  }

  /** `getNewReportTemplate(projectId)`, with the mock manager signed. */
  function GetNewReportTemplate(catalog: seq<ChecklistCategory>, projectId: string, nowIso: string): (t: ReportDraft)
    ensures t.id == None && t.projectId == projectId && t.status == Draft
    ensures t.signatures == Signatures("", "Albert Alvino")
    ensures ResultIds(t.results) == AllItemIds(catalog)
    ensures forall r :: r in t.results ==> IsBlank(r)
  {
    Template(catalog, projectId, nowIso, "Albert Alvino")
  }

  // ---------------------------------------------------------------------
  // Properties of saving

  /** The saved report carries the draft's fields unchanged, its derived
      fields are the scoring of its results, and its id is the draft's when
      that id was found, a fresh `report-` id otherwise. */
  lemma SavedReportContents(reports: seq<Report>, catalog: seq<ChecklistCategory>, draft: ReportDraft, millis: nat)
    ensures var r := SavedReport(reports, catalog, draft, millis);
      ToDraft(r) == draft.(id := Some(r.id))
      && 0 <= r.score <= 100
      && r.score == OverallScore(catalog, draft.results)
      && r.evaluation == EvaluationAsWritten(r.score)
      && (r.score < 90 ==> r.evaluation == Evaluation(r.score))
      && (r.score >= 90 ==> r.evaluation != "ÓTIMO")
      && r.categoryScores == ScoreMap(catalog, draft.results)
      && Truthy(r.id)
      && (SaveIndex(reports, draft) >= 0 ==> r.id == draft.id.value)
      && (SaveIndex(reports, draft) < 0 ==> r.id == NewReportId(millis))
  {
    EvaluationAsWrittenMisspellsOtimo(OverallScore(catalog, draft.results));
  }

  /** A found id overwrites exactly that report; anything else appends
      exactly one report. */
  lemma AfterSaveFrame(reports: seq<Report>, catalog: seq<ChecklistCategory>, draft: ReportDraft, millis: nat)
    ensures var rs := AfterSave(reports, catalog, draft, millis);
      var i := SaveIndex(reports, draft);
      var r := SavedReport(reports, catalog, draft, millis);
      (i >= 0 ==> (|rs| == |reports| && rs[i] == r
                   && forall j :: 0 <= j < |rs| && j != i ==> rs[j] == reports[j]))
      && (i < 0 ==> rs == reports + [r])
  {
  }

  /** Whenever the new id does not clash with a stored one, saving is the
      keyed replace-or-append of the stored list. */
  lemma SaveIsUpsert(reports: seq<Report>, catalog: seq<ChecklistCategory>, draft: ReportDraft, millis: nat)
    requires SaveIndex(reports, draft) >= 0 || NewReportId(millis) !in ReportIds(reports)
    ensures AfterSave(reports, catalog, draft, millis) == Upsert(reports, SavedReport(reports, catalog, draft, millis))
  {
    var r := SavedReport(reports, catalog, draft, millis);
    if SaveIndex(reports, draft) < 0 && IndexOfId(reports, r.id) >= 0 {
      assert false;
    }
  }

  /** Saving a stored report again, unchanged, leaves the store as it was
      and returns the same report. */
  lemma ResaveUnchanged(reports: seq<Report>, catalog: seq<ChecklistCategory>, draft: ReportDraft, millis: nat, later: nat)
    requires SaveIndex(reports, draft) >= 0 || NewReportId(millis) !in ReportIds(reports)
    ensures var saved := SavedReport(reports, catalog, draft, millis);
      var after := AfterSave(reports, catalog, draft, millis);
      SavedReport(after, catalog, ToDraft(saved), later) == saved
      && AfterSave(after, catalog, ToDraft(saved), later) == after
  {
    var saved := SavedReport(reports, catalog, draft, millis);
    var after := AfterSave(reports, catalog, draft, millis);
    SaveIsUpsert(reports, catalog, draft, millis);
    UpsertThenFind(reports, saved);
    SavedReportContents(reports, catalog, draft, millis);
    var i := IndexOfId(after, saved.id);
    assert SaveIndex(after, ToDraft(saved)) == i;
    assert after[i := saved] == after;
  }

  /** The template the form starts from scores 0 and reads RUIM against
      the shipped catalog. */
  lemma ShippedTemplateScoresZero(projectId: string, nowIso: string)
    ensures var t := GetNewReportTemplate(ChecklistDefinitions(), projectId, nowIso);
      OverallScore(ChecklistDefinitions(), t.results) == 0
      && Evaluation(OverallScore(ChecklistDefinitions(), t.results)) == "RUIM"
  {
    var catalog := ChecklistDefinitions();
    ShippedNoEmptyCategory();
    forall k | 0 <= k < |catalog|
      ensures |CategoryItems(catalog[k])| > 0
    {
      var c := catalog[k];
      assert c in catalog;
      assert CategoryItems(c) == c.subCategories[0].items + SubItems(c.subCategories[1..]);
    }
    TemplateScoresZero(catalog);
  }

  /** Every report scoring 90 or more is stored with a label that is not
      "ÓTIMO", so a screen comparing against "ÓTIMO" misses it; below 90
      the two spellings agree. */
  lemma EvaluationAsWrittenMisspellsOtimo(score: int)
    ensures score >= 90 ==> EvaluationAsWritten(score) != "ÓTIMO" && EvaluationAsWritten(score) != Evaluation(score)
    ensures score < 90 ==> EvaluationAsWritten(score) == Evaluation(score)
  {
    if score >= 90 {
      assert EvaluationAsWritten(score)[0] != "ÓTIMO"[0];
    }
  }
}
