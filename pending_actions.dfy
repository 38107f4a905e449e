/** The pending-actions list: for every report whose project exists, each
    result marked NC whose action plan is missing or has no actions text,
    with the item's catalog text (or a fallback) and the id of the first
    category holding the item; newest report first. A project filter keeps
    the entries of one project, or all of them. */
module PendingActions {
  import opened Types
  import opened Checklist
  import opened Lists
  import opened Scoring
  import opened Sorting

  datatype PendingItem = PendingItem(
    report: Report,
    project: Project,
    result: ItemResult,
    itemText: string,
    categoryId: string)

  /** The text shown when the catalog has no (or an empty) text for an item. */
  const MissingItemText := "Item não encontrado"

  /** Non-conforming, and no corrective action written down. */
  predicate IsPending(r: ItemResult) {
    r.status == Some(NC) && (r.actionPlan.None? || !Truthy(r.actionPlan.value.actions))
  }

  /** The first catalog item with this id. */
  function FindItem(catalog: seq<ChecklistCategory>, itemId: string): Option<ChecklistItem> {
    var items := AllItems(catalog);
    var i := IndexWhere(items, (x: ChecklistItem) => x.id == itemId);
    if i < 0 then None else Some(items[i])
  }

  /** The first category one of whose subcategories holds the item. */
  function FindCategory(catalog: seq<ChecklistCategory>, itemId: string): Option<ChecklistCategory> {
    var i := IndexWhere(catalog, (c: ChecklistCategory) => itemId in CategoryItemIds(c));
    if i < 0 then None else Some(catalog[i])
  }

  /** `itemDef?.text || 'Item não encontrado'`. */
  function ItemText(catalog: seq<ChecklistCategory>, itemId: string): string {
    match FindItem(catalog, itemId)
    case Some(item) => if Truthy(item.text) then item.text else MissingItemText
    case None => MissingItemText
  }

  /** `categoryDef?.id || ''`. */
  function CategoryIdOf(catalog: seq<ChecklistCategory>, itemId: string): string {
    match FindCategory(catalog, itemId)
    case Some(c) => c.id
    case None => ""
  }

  function Entry(catalog: seq<ChecklistCategory>, report: Report, project: Project, r: ItemResult): PendingItem {
    PendingItem(report, project, r, ItemText(catalog, r.itemId), CategoryIdOf(catalog, r.itemId))
  }

  /** The entries of one report: none when its project is unknown. */
  function EntriesOf(projects: seq<Project>, catalog: seq<ChecklistCategory>, report: Report): seq<PendingItem> {
    match FindProject(projects, report.projectId)
    case None => []
    case Some(project) =>
      var pending := Filter(report.results, IsPending);
      seq(|pending|, i requires 0 <= i < |pending| => Entry(catalog, report, project, pending[i]))
  }

  /** `reports.flatMap(...)`, before sorting. */
  function Unsorted(projects: seq<Project>, catalog: seq<ChecklistCategory>, reports: seq<Report>): seq<PendingItem>
    decreases |reports|
  {
    if reports == [] then []
    else EntriesOf(projects, catalog, reports[0]) + Unsorted(projects, catalog, reports[1..])
  }

  function ReportDate(e: PendingItem): string {
    e.report.date
  }

  /** `pendingItems`: the entries, newest report first. */
  function PendingItems(projects: seq<Project>, catalog: seq<ChecklistCategory>, reports: seq<Report>): (items: seq<PendingItem>)
    ensures Sorted(items, ReportDate, true)
    ensures multiset(items) == multiset(Unsorted(projects, catalog, reports))
  {
    SortSorted(Unsorted(projects, catalog, reports), ReportDate, true);
    SortPermutes(Unsorted(projects, catalog, reports), ReportDate, true);
    SortBy(Unsorted(projects, catalog, reports), ReportDate, true)
  }

  /** The test `item => item.project.id === filterProjectId`. */
  function ForProject(projectId: string): PendingItem -> bool {
    (e: PendingItem) => e.project.id == projectId
  }

  /** `filteredItems`: everything for 'all', else one project's entries. */
  function FilteredItems(items: seq<PendingItem>, filterProjectId: string): (shown: seq<PendingItem>)
    ensures |shown| <= |items|
    ensures forall e :: e in shown ==> e in items
  {
    if filterProjectId == "all" then items
    else
      FilterMembers(items, ForProject(filterProjectId));
      Filter(items, ForProject(filterProjectId))
  }

  // ---------------------------------------------------------------------
  // Properties of the list

  /** Every entry is a pending result of a listed report whose project
      exists, labelled from the catalog. */
  lemma {:induction false} UnsortedSound(projects: seq<Project>, catalog: seq<ChecklistCategory>, reports: seq<Report>, e: PendingItem)
    requires e in Unsorted(projects, catalog, reports)
    ensures e.report in reports
    ensures FindProject(projects, e.report.projectId) == Some(e.project)
    ensures e.result in e.report.results && IsPending(e.result)
    ensures e == Entry(catalog, e.report, e.project, e.result)
    decreases |reports|
  {
    if e !in EntriesOf(projects, catalog, reports[0]) {
      UnsortedSound(projects, catalog, reports[1..], e);
    } else {
      FilterMembers(reports[0].results, IsPending);
    }
  }

  /** Every pending result of a listed report whose project exists has
      its entry. */
  lemma {:induction false} UnsortedComplete(projects: seq<Project>, catalog: seq<ChecklistCategory>, reports: seq<Report>,
                                            report: Report, r: ItemResult)
    requires report in reports && r in report.results && IsPending(r)
    requires FindProject(projects, report.projectId).Some?
    ensures Entry(catalog, report, FindProject(projects, report.projectId).value, r) in Unsorted(projects, catalog, reports)
    decreases |reports|
  {
    if reports[0] == report {
      FilterMembers(report.results, IsPending);
      var pending := Filter(report.results, IsPending);
      var k :| 0 <= k < |pending| && pending[k] == r;
      assert EntriesOf(projects, catalog, report)[k] == Entry(catalog, report, FindProject(projects, report.projectId).value, r);
    } else {
      UnsortedComplete(projects, catalog, reports[1..], report, r);
    }
  }

  /** A report whose project is unknown contributes nothing. */
  lemma OrphanReportIgnored(projects: seq<Project>, catalog: seq<ChecklistCategory>, reports: seq<Report>, orphan: Report)
    requires FindProject(projects, orphan.projectId).None?
    ensures Unsorted(projects, catalog, reports + [orphan]) == Unsorted(projects, catalog, reports)
  {
    UnsortedAppend(projects, catalog, reports, [orphan]);
    assert [orphan][1..] == [];
  }

  lemma {:induction false} UnsortedAppend(projects: seq<Project>, catalog: seq<ChecklistCategory>, a: seq<Report>, b: seq<Report>)
    ensures Unsorted(projects, catalog, a + b) == Unsorted(projects, catalog, a) + Unsorted(projects, catalog, b)
    decreases |a|
  {
    if a == [] {
      assert a + b == b;
    } else {
      assert (a + b)[0] == a[0] && (a + b)[1..] == a[1..] + b;
      UnsortedAppend(projects, catalog, a[1..], b);
    }
  }

  /** The list is newest-first and holds exactly the entries, each as
      often as it arises. */
  lemma PendingItemsOrdered(projects: seq<Project>, catalog: seq<ChecklistCategory>, reports: seq<Report>)
    ensures Sorted(PendingItems(projects, catalog, reports), ReportDate, true)
    ensures multiset(PendingItems(projects, catalog, reports)) == multiset(Unsorted(projects, catalog, reports))
  {
    SortSorted(Unsorted(projects, catalog, reports), ReportDate, true);
    SortPermutes(Unsorted(projects, catalog, reports), ReportDate, true);
  }

  /** The project filter keeps exactly that project's entries, still
      newest-first; 'all' keeps everything. */
  lemma FilteredItemsEffect(items: seq<PendingItem>, filterProjectId: string)
    requires Sorted(items, ReportDate, true)
    ensures filterProjectId == "all" ==> FilteredItems(items, filterProjectId) == items
    ensures filterProjectId != "all" ==>
      forall e :: e in FilteredItems(items, filterProjectId) <==> e in items && e.project.id == filterProjectId
    ensures Sorted(FilteredItems(items, filterProjectId), ReportDate, true)
  {
    if filterProjectId != "all" {
      var p := ForProject(filterProjectId);
      FilterMembers(items, p);
      FilterKeepsSorted(items, ReportDate, true, p);
    }
  }

  /** An item is found in the catalog exactly when some category holds it;
      a found item has the id asked for. */
  lemma FindItemAndCategory(catalog: seq<ChecklistCategory>, itemId: string)
    ensures FindItem(catalog, itemId).Some? <==> itemId in AllItemIds(catalog)
    ensures FindCategory(catalog, itemId).Some? <==> itemId in AllItemIds(catalog)
    ensures FindItem(catalog, itemId).Some? ==>
      FindItem(catalog, itemId).value in AllItems(catalog) && FindItem(catalog, itemId).value.id == itemId
    ensures FindCategory(catalog, itemId).Some? ==>
      FindCategory(catalog, itemId).value in catalog && itemId in CategoryItemIds(FindCategory(catalog, itemId).value)
  {
    var items := AllItems(catalog);
    if itemId in AllItemIds(catalog) {
      var t :| 0 <= t < |items| && AllItemIds(catalog)[t] == itemId;
      assert items[t].id == itemId;
      AllItemsInSomeCategory(catalog, items[t]);
      var k :| 0 <= k < |catalog| && items[t] in CategoryItems(catalog[k]);
      var j :| 0 <= j < |CategoryItems(catalog[k])| && CategoryItems(catalog[k])[j] == items[t];
      assert CategoryItemIds(catalog[k])[j] == itemId;
    } else {
      var c := IndexWhere(catalog, (c: ChecklistCategory) => itemId in CategoryItemIds(c));
      if c >= 0 {
        CategoryIdInCatalog(catalog, c, itemId);
      }
    }
  }

  /** An entry whose item the catalog lacks shows the fallback text and an
      empty category id. */
  lemma UnknownItemLabels(catalog: seq<ChecklistCategory>, itemId: string)
    requires itemId !in AllItemIds(catalog)
    ensures ItemText(catalog, itemId) == MissingItemText
    ensures CategoryIdOf(catalog, itemId) == ""
  {
    FindItemAndCategory(catalog, itemId);
  }
}
