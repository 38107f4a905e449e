/** The service with an optional remote backend. `upsertReport` first
    uploads every photo still held as a `data:image` URL and swaps in the
    public URL it gets back (keeping the data URL when the upload fails or
    yields nothing), then scores the processed results, keeps the draft's id
    when it has one and otherwise mints `report-<milliseconds>`, and stores
    the report locally when there is no backend or the remote write fails.
    The backend, its answers and the clock are parameters. */
module DbApi {
  import opened Types
  import opened Checklist
  import opened Scoring
  import opened Storage
  import opened Templates
  import MockApi

  /** No backend configured, or one whose photo storage answers a file
      name with its public URL (None: the upload raised an error) and whose
      report write succeeds or not. */
  datatype Backend =
    | Offline
    | Online(publicUrl: string -> Option<string>, writeSucceeds: bool)

  predicate StartsWith(s: string, prefix: string) {
    |prefix| <= |s| && s[..|prefix|] == prefix
  }

  /** `saveLocalReport(report)`: replace the report with the same id, or
      append. */
  method SaveLocalReport(store: ReportStore, report: Report)
    modifies store
    ensures store.reports == Upsert(old(store.reports), report)
  {
    var reports := store.reports;
    var index := IndexOfId(reports, report.id);
    if index >= 0 {
      reports := reports[index := report];
    } else {
      reports := reports + [report];
    }
    store.reports := reports;
  }

  /** `uploadPhoto(photoId, base64Data)`: the public URL of `<id>.jpg`, or
      the data itself without a backend or on error. */
  function UploadPhoto(backend: Backend, photoId: string, base64Data: string): string {
    match backend
    case Offline => base64Data
    case Online(publicUrl, _) =>
      match publicUrl(photoId + ".jpg")
      case Some(url) => url
      case None => base64Data
  }

  /** One photo after processing: a `data:image` URL is uploaded and
      replaced by a non-empty answer; anything else is left alone. */
  function ProcessPhoto(backend: Backend, photo: Photo): (p: Photo)
    ensures p.id == photo.id
    ensures !StartsWith(photo.dataUrl, "data:image") ==> p == photo
  {
    if StartsWith(photo.dataUrl, "data:image") then
      var url := UploadPhoto(backend, photo.id, photo.dataUrl);
      photo.(dataUrl := if Truthy(url) then url else photo.dataUrl)
    else photo
  }

  function ProcessPhotos(backend: Backend, photos: seq<Photo>): seq<Photo> {
    seq(|photos|, i requires 0 <= i < |photos| => ProcessPhoto(backend, photos[i]))
  }

  /** An item with photos gets its processed photos; others are unchanged. */
  function ProcessResult(backend: Backend, item: ItemResult): ItemResult {
    if |item.photos| > 0 then item.(photos := ProcessPhotos(backend, item.photos)) else item
  }

  function ProcessResults(backend: Backend, results: seq<ItemResult>): seq<ItemResult> {
    seq(|results|, i requires 0 <= i < |results| => ProcessResult(backend, results[i]))
  }

  /** `reportData.id || report-<milliseconds>`. */
  function ReportIdFor(draft: ReportDraft, millis: nat): string {
    if draft.id.Some? && Truthy(draft.id.value) then draft.id.value else NewReportId(millis)
  }

  /** The report `upsertReport` returns. */
  function UpsertedReport(backend: Backend, catalog: seq<ChecklistCategory>, draft: ReportDraft, millis: nat): (r: Report)
    ensures ToDraft(r).(results := draft.results) == draft.(id := Some(r.id)) && Truthy(r.id)
    ensures 0 <= r.score <= 100 && r.evaluation == Evaluation(r.score)
    ensures draft.id.Some? && Truthy(draft.id.value) ==> r.id == draft.id.value
  {
    var results := ProcessResults(backend, draft.results);
    var score := OverallScore(catalog, results);
    Report(ReportIdFor(draft, millis), draft.projectId, draft.date, draft.inspector, draft.status,
      results, draft.signatures, score, Evaluation(score), ScoreMap(catalog, results))
  }

  /** The local list after `upsertReport`: unchanged only when a remote
      write succeeded. */
  function AfterUpsert(backend: Backend, reports: seq<Report>, report: Report): seq<Report> {
    if backend.Online? && backend.writeSucceeds then reports else Upsert(reports, report)
  }

  /** `upsertReport(reportData)`. */
  method UpsertReport(store: ReportStore, backend: Backend, catalog: seq<ChecklistCategory>, draft: ReportDraft, millis: nat)
    returns (report: Report)
    modifies store
    ensures report == UpsertedReport(backend, catalog, draft, millis)
    ensures store.reports == AfterUpsert(backend, old(store.reports), report)
  {
    var processedResults := ProcessResults(backend, draft.results);
    var score, evaluation, categoryScores := CalculateScores(catalog, processedResults);
    var id := if draft.id.Some? && Truthy(draft.id.value) then draft.id.value else NewReportId(millis);
    report := Report(id, draft.projectId, draft.date, draft.inspector, draft.status,
      processedResults, draft.signatures, score, evaluation, categoryScores);
    if backend.Offline? {
      SaveLocalReport(store, report);
      return;
    }
    if !backend.writeSucceeds {
      SaveLocalReport(store, report);
    }
  }

  /** `getNewReportTemplate(projectId)`, with both signatures blank. */
  function GetNewReportTemplate(catalog: seq<ChecklistCategory>, projectId: string, nowIso: string): (t: ReportDraft)
    ensures t.id == None && t.projectId == projectId && t.status == Draft
    ensures t.signatures == Signatures("", "")
    ensures ResultIds(t.results) == AllItemIds(catalog)
    ensures forall r :: r in t.results ==> IsBlank(r)
  {
    Template(catalog, projectId, nowIso, "")
  }

  // ---------------------------------------------------------------------
  // Properties of the photo pass and of upserting

  /** A photo keeps its id; a photo that is not a `data:image` URL is left
      as it is; an uploaded one holds the non-empty URL the backend gave,
      or else its data URL. */
  lemma ProcessPhotoEffect(backend: Backend, photo: Photo)
    ensures var p := ProcessPhoto(backend, photo);
      p.id == photo.id
      && (!StartsWith(photo.dataUrl, "data:image") ==> p == photo)
      && (StartsWith(photo.dataUrl, "data:image") && backend.Online?
          && backend.publicUrl(photo.id + ".jpg").Some? && Truthy(backend.publicUrl(photo.id + ".jpg").value)
          ==> p.dataUrl == backend.publicUrl(photo.id + ".jpg").value)
      && (StartsWith(photo.dataUrl, "data:image") && backend.Online?
          && (backend.publicUrl(photo.id + ".jpg").None? || !Truthy(backend.publicUrl(photo.id + ".jpg").value))
          ==> p == photo)
      && (backend.Offline? ==> p == photo)
  {
  }

  /** Processing keeps every result's position, item, status, comment and
      action plan, and every photo's position and id. */
  lemma ProcessResultsShape(backend: Backend, results: seq<ItemResult>)
    ensures var ps := ProcessResults(backend, results);
      |ps| == |results|
      && forall i :: 0 <= i < |results| ==>
           ps[i].(photos := results[i].photos) == results[i]
           && |ps[i].photos| == |results[i].photos|
           && forall j :: 0 <= j < |results[i].photos| ==> ps[i].photos[j].id == results[i].photos[j].id
  {
  }

  /** Without a backend the photo pass is the identity. */
  lemma OfflineKeepsResults(results: seq<ItemResult>)
    ensures ProcessResults(Offline, results) == results
  {
    forall i | 0 <= i < |results|
      ensures ProcessResult(Offline, results[i]) == results[i]
    {
      var item := results[i];
      if |item.photos| > 0 {
        assert ProcessPhotos(Offline, item.photos) == item.photos;
      }
    }
  }

  /** Uploading photos never changes a score. */
  lemma UpsertScoresIgnorePhotos(backend: Backend, catalog: seq<ChecklistCategory>, draft: ReportDraft, millis: nat)
    ensures var r := UpsertedReport(backend, catalog, draft, millis);
      r.score == OverallScore(catalog, draft.results)
      && r.categoryScores == ScoreMap(catalog, draft.results)
      && r.evaluation == Evaluation(OverallScore(catalog, draft.results))
  {
    var ps := ProcessResults(backend, draft.results);
    ProcessResultsShape(backend, draft.results);
    assert SameKeys(draft.results, ps);
    ScoresSameKeys(catalog, draft.results, ps);
  }

  /** Whenever the report is kept locally, a lookup of its id finds it. */
  lemma UpsertThenFindLocal(backend: Backend, reports: seq<Report>, catalog: seq<ChecklistCategory>, draft: ReportDraft, millis: nat)
    requires !(backend.Online? && backend.writeSucceeds)
    ensures var r := UpsertedReport(backend, catalog, draft, millis);
      var rs := AfterUpsert(backend, reports, r);
      0 <= IndexOfId(rs, r.id) && rs[IndexOfId(rs, r.id)] == r
  {
    UpsertThenFind(reports, UpsertedReport(backend, catalog, draft, millis));
  }

  /** Without a backend the two services build the same report except in
      two fields: a non-empty id which is not stored is kept here and
      replaced by a fresh one by the browser-only service, and from 90 up
      this service labels the report "ÓTIMO" where the browser-only one
      stores its mis-encoded spelling. */
  lemma OfflineMatchesMockSave(reports: seq<Report>, catalog: seq<ChecklistCategory>, draft: ReportDraft, millis: nat)
    ensures var r := UpsertedReport(Offline, catalog, draft, millis);
      var m := MockApi.SavedReport(reports, catalog, draft, millis);
      r == m.(id := r.id, evaluation := r.evaluation)
      && (r.evaluation == m.evaluation <==> r.score < 90)
      && (draft.id.Some? && Truthy(draft.id.value) ==> r.id == draft.id.value)
      && (MockApi.SaveIndex(reports, draft) >= 0 || draft.id.None? || !Truthy(draft.id.value) ==> r.id == m.id)
  {
    OfflineKeepsResults(draft.results);
    MockApi.EvaluationAsWrittenMisspellsOtimo(OverallScore(catalog, draft.results));
  }

  /** ... and, when the minted id is new, leave the same stored list
      exactly when the report scores below 90. */
  lemma OfflineMatchesMockStore(reports: seq<Report>, catalog: seq<ChecklistCategory>, draft: ReportDraft, millis: nat)
    requires MockApi.SaveIndex(reports, draft) >= 0 || draft.id.None? || !Truthy(draft.id.value)
    requires NewReportId(millis) !in ReportIds(reports)
    ensures AfterUpsert(Offline, reports, UpsertedReport(Offline, catalog, draft, millis))
      == MockApi.AfterSave(reports, catalog, draft, millis)
      <==> OverallScore(catalog, draft.results) < 90
  {
    var r := UpsertedReport(Offline, catalog, draft, millis);
    var m := MockApi.SavedReport(reports, catalog, draft, millis);
    OfflineMatchesMockSave(reports, catalog, draft, millis);
    MockApi.SaveIsUpsert(reports, catalog, draft, millis);
    if OverallScore(catalog, draft.results) >= 90 {
      assert r != m;
      UpsertThenFind(reports, r);
      UpsertThenFind(reports, m);
      assert r.id == m.id;
    }
  }
}
