/** The data model of the inspection app: checklist catalog entries, item
    results, reports, projects and users. Optional JavaScript fields and
    `null` become `Option`; strings are `seq<char>`. */
module Types {

  datatype Option<+T> = None | Some(value: T)

  /** Conforme, Não Conforme, Não Aplicável. An unanswered item has status
      `None` in its result. */
  datatype InspectionStatus = C | NC | NA

  datatype Photo = Photo(id: string, dataUrl: string)

  /** The three resource flags of an action plan: financial, labour, administrative. */
  datatype Resources = Resources(fin: bool, mo: bool, adm: bool)

  datatype ActionPlan = ActionPlan(actions: string, responsible: string, deadline: string, resources: Resources)

  datatype ItemResult = ItemResult(
    itemId: string,
    status: Option<InspectionStatus>,
    photos: seq<Photo>,
    comment: string,
    actionPlan: Option<ActionPlan>)

  datatype ReportStatus = Draft | Completed

  /** Two plain strings; a slot is signed when its string is non-empty. */
  datatype Signatures = Signatures(inspector: string, manager: string)

  /** A stored report, with its three derived fields. */
  datatype Report = Report(
    id: string,
    projectId: string,
    date: string,
    inspector: string,
    status: ReportStatus,
    results: seq<ItemResult>,
    signatures: Signatures,
    score: int,
    evaluation: string,
    categoryScores: map<string, int>)

  /** What the form edits and hands to the save operations: a report without
      its derived fields and with an optional id. */
  datatype ReportDraft = ReportDraft(
    id: Option<string>,
    projectId: string,
    date: string,
    inspector: string,
    status: ReportStatus,
    results: seq<ItemResult>,
    signatures: Signatures)

  datatype Project = Project(id: string, name: string, location: string)

  datatype ChecklistItem = ChecklistItem(id: string, text: string)

  datatype ChecklistSubCategory = ChecklistSubCategory(title: string, items: seq<ChecklistItem>)

  datatype ChecklistCategory = ChecklistCategory(id: string, title: string, subCategories: seq<ChecklistSubCategory>)

  /** Both role vocabularies of the code base: 'Diretoria' | 'Engenheiro' of
      the user record and admin / assistant / manager / viewer of the
      profile records. */
  datatype Role = Diretoria | Engenheiro | Admin | Assistant | Manager | Viewer

  datatype User = User(id: string, name: string, role: Role, projectIds: seq<string>)

  /** The profile record the administration screen edits. */
  datatype Profile = Profile(
    id: string,
    email: string,
    fullName: string,
    role: Role,
    assignedProjectIds: Option<seq<string>>)

  /** A JavaScript string is truthy exactly when it is non-empty. */
  predicate Truthy(s: string) {
    s != ""
  }

  /** The draft a stored report opens as in the form (`{...existingReport}`). */
  function ToDraft(r: Report): ReportDraft {
    ReportDraft(Some(r.id), r.projectId, r.date, r.inspector, r.status, r.results, r.signatures)
  }

  /** The position of the first element satisfying `p`, or -1 (the shape of
      `findIndex`, and of `find` when the element is taken from there). */
  function IndexWhere<T>(s: seq<T>, p: T -> bool): (i: int)
    ensures -1 <= i < |s|
    ensures i == -1 <==> forall j :: 0 <= j < |s| ==> !p(s[j])
    ensures 0 <= i ==> p(s[i]) && forall j :: 0 <= j < i ==> !p(s[j])
    decreases |s|
  {
    if s == [] then -1
    else if p(s[0]) then 0
    else
      var k := IndexWhere(s[1..], p);
      if k == -1 then -1 else k + 1
  }

  /** `results.find(r => r.itemId === itemId)`. */
  function FindResult(results: seq<ItemResult>, itemId: string): Option<ItemResult> {
    var i := IndexWhere(results, (r: ItemResult) => r.itemId == itemId);
    if i < 0 then None else Some(results[i])
  }

  /** `projects.find(p => p.id === id)`. */
  function FindProject(projects: seq<Project>, id: string): Option<Project> {
    var i := IndexWhere(projects, (p: Project) => p.id == id);
    if i < 0 then None else Some(projects[i])
  }

  function Digit(d: nat): (c: char)
    requires d < 10
    ensures '0' <= c <= '9' && c as int - '0' as int == d
  {
    ('0' as int + d) as char
  }

  /** The decimal spelling of a number (`${n}`). */
  function Decimal(n: nat): (s: string)
    ensures |s| >= 1 && forall i :: 0 <= i < |s| ==> '0' <= s[i] <= '9'
    ensures n > 0 ==> s[0] != '0'
    decreases n
  {
    if n < 10 then [Digit(n)] else Decimal(n / 10) + [Digit(n % 10)]
  }

  /** Different numbers are written differently. */
  lemma {:induction false} DecimalInjective(m: nat, n: nat)
    ensures Decimal(m) == Decimal(n) ==> m == n
    decreases m
  {
    if Decimal(m) == Decimal(n) {
      var a := Decimal(m);
      if m >= 10 && n >= 10 {
        assert a[..|a| - 1] == Decimal(m / 10) && a[..|a| - 1] == Decimal(n / 10);
        DecimalInjective(m / 10, n / 10);
      }
    }
  }
}
