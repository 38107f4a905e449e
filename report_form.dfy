/** The report form's state and edits. The form holds a draft, opened
    from a stored report or from the browser-only service's template; it is
    read-only when the stored report it opened was completed. Every edit to
    a result goes through one handler that merges a partial result into
    every result with the item's id, and does nothing on a read-only form.
    Submitting dates the draft with today's day, refuses to complete it
    without both signatures, and saves it through the browser-only service. */
module ReportForm {
  import opened Types
  import opened Checklist
  import opened Lists
  import opened Scoring
  import opened Storage
  import opened Templates
  import MockApi

  /** A `Partial<InspectionItemResult>` as the form builds them: each field
      it sets, or None. A status is only ever set to one of the three
      answers. */
  datatype ResultPatch = ResultPatch(
    status: Option<InspectionStatus>,
    photos: Option<seq<Photo>>,
    comment: Option<string>,
    actionPlan: Option<ActionPlan>)

  /** A `Partial<ActionPlan>`. */
  datatype PlanPatch = PlanPatch(
    actions: Option<string>,
    responsible: Option<string>,
    deadline: Option<string>,
    resources: Option<Resources>)

  /** `{ ...res, ...newResult }`. */
  function ApplyPatch(r: ItemResult, patch: ResultPatch): ItemResult {
    ItemResult(
      r.itemId,
      if patch.status.Some? then Some(patch.status.value) else r.status,
      if patch.photos.Some? then patch.photos.value else r.photos,
      if patch.comment.Some? then patch.comment.value else r.comment,
      if patch.actionPlan.Some? then patch.actionPlan else r.actionPlan)
  }

  /** `results.map(res => res.itemId === itemId ? { ...res, ...newResult } : res)`. */
  function UpdateResults(results: seq<ItemResult>, itemId: string, patch: ResultPatch): (rs: seq<ItemResult>)
    ensures ResultIds(rs) == ResultIds(results)
  {
    seq(|results|, i requires 0 <= i < |results| =>
      if results[i].itemId == itemId then ApplyPatch(results[i], patch) else results[i])
  }

  /** `{ ...result.actionPlan!, ...newPlan }`; a result without a plan is
      merged into the empty plan. */
  function MergePlan(plan: Option<ActionPlan>, patch: PlanPatch): (merged: ActionPlan)
    ensures patch == PlanPatch(None, None, None, None) ==> merged == if plan.Some? then plan.value else EmptyPlan()
  {
    var base := if plan.Some? then plan.value else EmptyPlan();
    ActionPlan(
      if patch.actions.Some? then patch.actions.value else base.actions,
      if patch.responsible.Some? then patch.responsible.value else base.responsible,
      if patch.deadline.Some? then patch.deadline.value else base.deadline,
      if patch.resources.Some? then patch.resources.value else base.resources)
  }

  /** `photos.filter(p => p.id !== photoId)`. */
  function WithoutPhoto(photos: seq<Photo>, photoId: string): seq<Photo> {
    Filter(photos, (p: Photo) => p.id != photoId)
  }

  function PhotosPatch(photos: seq<Photo>): ResultPatch {
    ResultPatch(None, Some(photos), None, None)
  }

  function PlanPatchOf(plan: ActionPlan): ResultPatch {
    ResultPatch(None, None, None, Some(plan))
  }

  /** The draft after `handleResultChange` on an editable form. */
  function ResultChanged(d: ReportDraft, itemId: string, patch: ResultPatch): ReportDraft {
    d.(results := UpdateResults(d.results, itemId, patch))
  }

  /** The draft after `handleAddPhoto`: the first result of the item gives
      the photo list the new photo is appended to. */
  function PhotoAdded(d: ReportDraft, itemId: string, photo: Photo): (e: ReportDraft)
    ensures e.(results := d.results) == d && ResultIds(e.results) == ResultIds(d.results)
  {
    match FindResult(d.results, itemId)
    case None => d
    case Some(result) => ResultChanged(d, itemId, PhotosPatch(result.photos + [photo]))
  }

  /** The draft after `handleRemovePhoto`. */
  function PhotoRemoved(d: ReportDraft, itemId: string, photoId: string): (e: ReportDraft)
    ensures e.(results := d.results) == d && ResultIds(e.results) == ResultIds(d.results)
  {
    match FindResult(d.results, itemId)
    case None => d
    case Some(result) => ResultChanged(d, itemId, PhotosPatch(WithoutPhoto(result.photos, photoId)))
  }

  /** The draft after `handleActionPlanChange`. */
  function PlanChanged(d: ReportDraft, itemId: string, patch: PlanPatch): (e: ReportDraft)
    ensures e.(results := d.results) == d && ResultIds(e.results) == ResultIds(d.results)
  {
    match FindResult(d.results, itemId)
    case None => d
    case Some(result) => ResultChanged(d, itemId, PlanPatchOf(MergePlan(result.actionPlan, patch)))
  }

  /** `{ ...reportData, status, date: today }`. */
  function FinalData(d: ReportDraft, status: ReportStatus, nowIso: string): ReportDraft {
    d.(status := status, date := DatePart(nowIso))
  }

  /** A draft may be saved with this status: completing needs both
      signatures. */
  predicate MaySubmit(d: ReportDraft, status: ReportStatus) {
    status == Completed ==> Truthy(d.signatures.inspector) && Truthy(d.signatures.manager)
  }

  /** What a submission does: nothing on a read-only form, an alert for a
      completion without both signatures, otherwise the saved report. */
  datatype SubmitOutcome = Ignored | MissingSignatures | Saved(report: Report)

  function SubmitOutcomeOf(readOnly: bool, d: ReportDraft, reports: seq<Report>, catalog: seq<ChecklistCategory>,
                           status: ReportStatus, nowIso: string, millis: nat): (outcome: SubmitOutcome)
    ensures outcome.Ignored? <==> readOnly
    ensures outcome.Saved? ==> outcome.report.status == status && outcome.report.results == d.results
    ensures outcome.Saved? && status == Completed ==>
      Truthy(outcome.report.signatures.inspector) && Truthy(outcome.report.signatures.manager)
  {
    if readOnly then Ignored
    else if !MaySubmit(d, status) then MissingSignatures
    else Saved(MockApi.SavedReport(reports, catalog, FinalData(d, status, nowIso), millis))
  }

  class Form {
    var data: ReportDraft
    const readOnly: bool

    /** `existingReport ? {...existingReport} : getNewReportTemplate(project.id)`;
        read-only when the report opened was completed. */
    constructor(catalog: seq<ChecklistCategory>, projectId: string, existing: Option<Report>, nowIso: string)
      ensures data == (if existing.Some? then ToDraft(existing.value)
                       else MockApi.GetNewReportTemplate(catalog, projectId, nowIso))
      ensures readOnly <==> existing.Some? && existing.value.status == Completed
    {
      if existing.Some? {
        data := ToDraft(existing.value);
      } else {
        data := MockApi.GetNewReportTemplate(catalog, projectId, nowIso);
      }
      readOnly := existing.Some? && existing.value.status == Completed;
    }

    /** `handleResultChange(itemId, newResult)`. */
    method HandleResultChange(itemId: string, patch: ResultPatch)
      modifies this
      ensures data == (if readOnly then old(data) else ResultChanged(old(data), itemId, patch))
    {
      if readOnly {
        return;
      }
      data := data.(results := UpdateResults(data.results, itemId, patch));
    }

    /** `handleAddPhoto(itemId, photo)`. */
    method HandleAddPhoto(itemId: string, photo: Photo)
      modifies this
      ensures data == (if readOnly then old(data) else PhotoAdded(old(data), itemId, photo))
    {
      var result := FindResult(data.results, itemId);
      if result.Some? {
        HandleResultChange(itemId, PhotosPatch(result.value.photos + [photo]));
      }
    }

    /** `handleRemovePhoto(itemId, photoId)`. */
    method HandleRemovePhoto(itemId: string, photoId: string)
      modifies this
      ensures data == (if readOnly then old(data) else PhotoRemoved(old(data), itemId, photoId))
    {
      var result := FindResult(data.results, itemId);
      if result.Some? {
        HandleResultChange(itemId, PhotosPatch(WithoutPhoto(result.value.photos, photoId)));
      }
    }

    /** `handleActionPlanChange(itemId, newPlan)`. */
    method HandleActionPlanChange(itemId: string, patch: PlanPatch)
      modifies this
      ensures data == (if readOnly then old(data) else PlanChanged(old(data), itemId, patch))
    {
      var result := FindResult(data.results, itemId);
      if result.Some? {
        HandleResultChange(itemId, PlanPatchOf(MergePlan(result.value.actionPlan, patch)));
      }
    }

    /** The inspector's signature field; the input is disabled on a
        read-only form rather than checked here. */
    method SetInspectorSignature(name: string)
      modifies this
      ensures data == old(data).(signatures := old(data).signatures.(inspector := name))
    {
      data := data.(signatures := data.signatures.(inspector := name));
    }

    /** The manager's signature field. */
    method SetManagerSignature(name: string)
      modifies this
      ensures data == old(data).(signatures := old(data).signatures.(manager := name))
    {
      data := data.(signatures := data.signatures.(manager := name));
    }

    /** `handleSubmit(status)`: the draft itself is left as it is. */
    method HandleSubmit(store: ReportStore, catalog: seq<ChecklistCategory>, status: ReportStatus, nowIso: string, millis: nat)
      returns (outcome: SubmitOutcome)
      modifies store
      ensures outcome == SubmitOutcomeOf(readOnly, data, old(store.reports), catalog, status, nowIso, millis)
      ensures store.reports == (if outcome.Saved?
                                then MockApi.AfterSave(old(store.reports), catalog, FinalData(data, status, nowIso), millis)
                                else old(store.reports))
    {
      if readOnly {
        return Ignored;
      }
      var finalData := data.(status := status, date := DatePart(nowIso));
      if status == Completed && (!Truthy(data.signatures.inspector) || !Truthy(data.signatures.manager)) {
        return MissingSignatures;
      }
      var saved := MockApi.SaveReport(store, catalog, finalData, millis);
      return Saved(saved);
    }
  }

  // ---------------------------------------------------------------------
  // Properties of the edits

  /** A change patches exactly the results of that item and keeps every
      result's position and item. */
  lemma UpdateResultsEffect(results: seq<ItemResult>, itemId: string, patch: ResultPatch)
    ensures var rs := UpdateResults(results, itemId, patch);
      ResultIds(rs) == ResultIds(results)
      && forall i :: 0 <= i < |results| ==>
           (results[i].itemId != itemId ==> rs[i] == results[i])
           && (results[i].itemId == itemId ==>
                (patch.status.Some? ==> rs[i].status == Some(patch.status.value))
                && (patch.status.None? ==> rs[i].status == results[i].status)
                && (patch.photos.Some? ==> rs[i].photos == patch.photos.value)
                && (patch.photos.None? ==> rs[i].photos == results[i].photos)
                && (patch.comment.Some? ==> rs[i].comment == patch.comment.value)
                && (patch.comment.None? ==> rs[i].comment == results[i].comment)
                && (patch.actionPlan.Some? ==> rs[i].actionPlan == patch.actionPlan)
                && (patch.actionPlan.None? ==> rs[i].actionPlan == results[i].actionPlan))
  {
  }

  /** Editing photos, comments or action plans never changes a score. */
  lemma NonStatusEditKeepsScores(catalog: seq<ChecklistCategory>, d: ReportDraft, itemId: string, patch: ResultPatch)
    requires patch.status.None?
    ensures var e := ResultChanged(d, itemId, patch);
      Scores(catalog, e.results) == Scores(catalog, d.results)
      && OverallScore(catalog, e.results) == OverallScore(catalog, d.results)
      && ScoreMap(catalog, e.results) == ScoreMap(catalog, d.results)
  {
    var e := ResultChanged(d, itemId, patch);
    assert SameKeys(d.results, e.results);
    ScoresSameKeys(catalog, d.results, e.results);
  }

  /** The removed photo is gone and every other photo stays, in order. */
  lemma WithoutPhotoEffect(photos: seq<Photo>, photoId: string)
    ensures forall p :: p in WithoutPhoto(photos, photoId) <==> p in photos && p.id != photoId
    ensures (forall p :: p in photos ==> p.id != photoId) <==> WithoutPhoto(photos, photoId) == photos
    ensures (exists p :: p in photos && p.id == photoId) ==> |WithoutPhoto(photos, photoId)| < |photos|
  {
    var keep := (p: Photo) => p.id != photoId;
    FilterMembers(photos, keep);
    FilterAll(photos, keep);
    if p :| p in photos && p.id == photoId {
      FilterDrops(photos, keep, p);
    }
  }

  /** Removal works photo by photo: the kept photos stay in their order,
      each as often as it was there. */
  lemma WithoutPhotoAppend(front: seq<Photo>, back: seq<Photo>, photoId: string)
    ensures WithoutPhoto(front + back, photoId) == WithoutPhoto(front, photoId) + WithoutPhoto(back, photoId)
    ensures WithoutPhoto([], photoId) == []
    ensures forall p :: WithoutPhoto([p], photoId) == (if p.id == photoId then [] else [p])
  {
    FilterAppend(front, back, (p: Photo) => p.id != photoId);
  }

  /** After adding a photo, the item's first result ends with it. */
  lemma PhotoAddedEffect(d: ReportDraft, itemId: string, photo: Photo)
    ensures FindResult(d.results, itemId).None? ==> PhotoAdded(d, itemId, photo) == d
    ensures FindResult(d.results, itemId).Some? ==>
      FindResult(PhotoAdded(d, itemId, photo).results, itemId).Some?
      && FindResult(PhotoAdded(d, itemId, photo).results, itemId).value.photos
         == FindResult(d.results, itemId).value.photos + [photo]
  {
    var p := (r: ItemResult) => r.itemId == itemId;
    var k := IndexWhere(d.results, p);
    if k >= 0 {
      var e := PhotoAdded(d, itemId, photo).results;
      UpdateResultsEffect(d.results, itemId, PhotosPatch(d.results[k].photos + [photo]));
      assert ResultIds(e)[k] == itemId;
      var k2 := IndexWhere(e, p);
      assert k2 == k;
    }
  }

  /** Removing a photo from an item without a result changes nothing;
      otherwise the item's photos lose every photo with that id. */
  lemma PhotoRemovedEffect(d: ReportDraft, itemId: string, photoId: string)
    ensures FindResult(d.results, itemId).None? ==> PhotoRemoved(d, itemId, photoId) == d
    ensures FindResult(d.results, itemId).Some? ==>
      FindResult(PhotoRemoved(d, itemId, photoId).results, itemId).Some?
      && FindResult(PhotoRemoved(d, itemId, photoId).results, itemId).value.photos
         == WithoutPhoto(FindResult(d.results, itemId).value.photos, photoId)
  {
    var p := (r: ItemResult) => r.itemId == itemId;
    var k := IndexWhere(d.results, p);
    if k >= 0 {
      var e := PhotoRemoved(d, itemId, photoId).results;
      UpdateResultsEffect(d.results, itemId, PhotosPatch(WithoutPhoto(d.results[k].photos, photoId)));
      assert ResultIds(e)[k] == itemId;
      var k2 := IndexWhere(e, p);
      assert k2 == k;
    }
  }

  /** With one result per item, adding a photo whose id the item does not
      hold yet and removing it again restores the draft. */
  lemma AddThenRemovePhoto(d: ReportDraft, itemId: string, photo: Photo)
    requires Distinct(ResultIds(d.results))
    requires FindResult(d.results, itemId).Some? ==>
      (forall q :: q in FindResult(d.results, itemId).value.photos ==> q.id != photo.id)
    ensures PhotoRemoved(PhotoAdded(d, itemId, photo), itemId, photo.id) == d
  {
    var found := FindResult(d.results, itemId);
    if found.Some? {
      var old_ := found.value.photos;
      var added := PhotoAdded(d, itemId, photo);
      PhotoAddedEffect(d, itemId, photo);
      WithoutPhotoEffect(old_ + [photo], photo.id);
      var keep := (q: Photo) => q.id != photo.id;
      FilterAppend(old_, [photo], keep);
      assert Filter([photo], keep) == [];
      FilterAll(old_, keep);
      assert WithoutPhoto(old_ + [photo], photo.id) == old_;
      var back := PhotoRemoved(added, itemId, photo.id).results;
      forall i | 0 <= i < |d.results|
        ensures back[i] == d.results[i]
      {
        if d.results[i].itemId == itemId {
          var k := IndexWhere(d.results, (r: ItemResult) => r.itemId == itemId);
          assert ResultIds(d.results)[i] == ResultIds(d.results)[k];
          assert i == k;
        }
      }
    }
  }

  /** Changing one field of a plan sets that field of the item's first
      result's plan and keeps the rest of it. */
  lemma PlanChangedEffect(d: ReportDraft, itemId: string, patch: PlanPatch)
    ensures FindResult(d.results, itemId).None? ==> PlanChanged(d, itemId, patch) == d
    ensures FindResult(d.results, itemId).Some? ==>
      var before := FindResult(d.results, itemId).value;
      var after := FindResult(PlanChanged(d, itemId, patch).results, itemId);
      after.Some? && after.value.actionPlan == Some(MergePlan(before.actionPlan, patch))
  {
    var p := (r: ItemResult) => r.itemId == itemId;
    var k := IndexWhere(d.results, p);
    if k >= 0 {
      var e := PlanChanged(d, itemId, patch).results;
      UpdateResultsEffect(d.results, itemId, PlanPatchOf(MergePlan(d.results[k].actionPlan, patch)));
      assert ResultIds(e)[k] == itemId;
      var k2 := IndexWhere(e, p);
      assert k2 == k;
    }
  }

  /** A merge sets exactly the fields the patch names. */
  lemma MergePlanEffect(plan: ActionPlan, patch: PlanPatch)
    ensures var m := MergePlan(Some(plan), patch);
      (patch.actions.None? ==> m.actions == plan.actions)
      && (patch.actions.Some? ==> m.actions == patch.actions.value)
      && (patch.responsible.None? ==> m.responsible == plan.responsible)
      && (patch.responsible.Some? ==> m.responsible == patch.responsible.value)
      && (patch.deadline.None? ==> m.deadline == plan.deadline)
      && (patch.deadline.Some? ==> m.deadline == patch.deadline.value)
      && (patch.resources.None? ==> m.resources == plan.resources)
      && (patch.resources.Some? ==> m.resources == patch.resources.value)
      && MergePlan(Some(m), patch) == m
  {
  }

  /** A completed report is only ever saved with both signatures, and a
      saved report carries the draft's results, the chosen status and
      today's day, scored on those results and labelled as the browser-only
      service spells it; a read-only form saves nothing. */
  lemma SubmitOutcomeEffect(readOnly: bool, d: ReportDraft, reports: seq<Report>, catalog: seq<ChecklistCategory>,
                            status: ReportStatus, nowIso: string, millis: nat)
    ensures readOnly ==> SubmitOutcomeOf(readOnly, d, reports, catalog, status, nowIso, millis) == Ignored
    ensures var o := SubmitOutcomeOf(readOnly, d, reports, catalog, status, nowIso, millis);
      o.Saved? ==>
        o.report.status == status && o.report.date == DatePart(nowIso) && o.report.results == d.results
        && o.report.signatures == d.signatures
        && (status == Completed ==> Truthy(o.report.signatures.inspector) && Truthy(o.report.signatures.manager))
        && o.report.score == OverallScore(catalog, d.results)
        && o.report.evaluation == MockApi.EvaluationAsWritten(o.report.score)
    ensures !readOnly && status == Draft ==>
      SubmitOutcomeOf(readOnly, d, reports, catalog, status, nowIso, millis).Saved?
  {
  }
}
