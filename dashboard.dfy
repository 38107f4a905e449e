/** The management dashboard: one row per project with the latest report's
    score (0 without reports) and the number of pending results across the
    project's reports; the total of those counts; the number of compliant
    and non-compliant answers over all reports; and the monthly trend, which
    groups report scores by month and project, then lists the months in
    order with each project's rounded mean score, keyed by project name. */
module Dashboard {
  import opened Types
  import opened Order
  import opened Lists
  import opened Scoring
  import opened Sorting
  import opened Checklist
  import PendingActions
  import ProjectDashboard

  // ---------------------------------------------------------------------
  // Project rows, pending counts and status counts

  datatype ProjectRow = ProjectRow(project: Project, score: int, pendingActions: nat)

  /** The test `r => r.projectId === projectId`. */
  function OfProject(projectId: string): Report -> bool {
    (r: Report) => r.projectId == projectId
  }

  function ProjectReports(reports: seq<Report>, projectId: string): seq<Report> {
    Filter(reports, OfProject(projectId))
  }

  /** `reports.flatMap(r => r.results)`. */
  function AllResults(reports: seq<Report>): seq<ItemResult>
    decreases |reports|
  {
    if reports == [] then [] else reports[0].results + AllResults(reports[1..])
  }

  /** The pending results across a list of reports. */
  function PendingCount(reports: seq<Report>): nat {
    |Filter(AllResults(reports), PendingActions.IsPending)|
  }

  /** One row of `data`. */
  function Row(project: Project, reports: seq<Report>): (row: ProjectRow)
    ensures row.project == project
    ensures (forall r :: r in reports ==> r.projectId != project.id) ==> row.score == 0 && row.pendingActions == 0
  {
    FilterNone(reports, OfProject(project.id));
    var own := ProjectReports(reports, project.id);
    var latest := ProjectDashboard.LatestReport(own);
    ProjectRow(project, if latest.Some? then latest.value.score else 0, PendingCount(own))
  }

  function Rows(projects: seq<Project>, reports: seq<Report>): seq<ProjectRow> {
    seq(|projects|, i requires 0 <= i < |projects| => Row(projects[i], reports))
  }

  /** `data.reduce((sum, item) => sum + item.pendingActions, 0)`. */
  function TotalPending(rows: seq<ProjectRow>): nat
    decreases |rows|
  {
    if rows == [] then 0 else TotalPending(rows[..|rows| - 1]) + rows[|rows| - 1].pendingActions
  }

  predicate IsAnswered(r: ItemResult) {
    r.status.Some? && r.status != Some(NA)
  }

  predicate IsNonCompliant(r: ItemResult) {
    r.status == Some(NC)
  }

  /** `overallStatus`: every answer other than NA. */
  function AnsweredResults(reports: seq<Report>): seq<ItemResult> {
    Filter(AllResults(reports), IsAnswered)
  }

  /** `statusCounts`: compliant and non-compliant answers. */
  function StatusCounts(reports: seq<Report>): (counts: (nat, nat))
    ensures counts.0 + counts.1 == |AnsweredResults(reports)|
  {
    var answered := AnsweredResults(reports);
    AnsweredSplit(AllResults(reports));
    (|Filter(answered, IsCompliant)|, |Filter(answered, IsNonCompliant)|)
  }

  // ---------------------------------------------------------------------
  // The monthly trend

  /** `new Date(date).toISOString().slice(0, 7)` of an ISO date: its
      `YYYY-MM` prefix. */
  function MonthOf(date: string): string {
    if |date| >= 7 then date[..7] else date
  }

  /** Scores grouped by month, then by project id, in report order. */
  type Grouping = map<string, map<string, seq<int>>>

  /** The body of the `forEach`: append the report's score under its month
      and project, creating either level when missing. */
  function AddScore(g: Grouping, r: Report): Grouping {
    var month := MonthOf(r.date);
    var inner := if month in g then g[month] else map[];
    var scores := if r.projectId in inner then inner[r.projectId] else [];
    g[month := inner[r.projectId := scores + [r.score]]]
  }

  /** `dataByMonth` after the `forEach` over `reports`. */
  function Group(reports: seq<Report>): Grouping
    decreases |reports|
  {
    if reports == [] then map[]
    else AddScore(Group(reports[..|reports| - 1]), reports[|reports| - 1])
  }

  /** The months in the order they were first seen (`Object.keys`). */
  function MonthsSeen(reports: seq<Report>): seq<string>
    decreases |reports|
  {
    if reports == [] then []
    else
      var prefix := reports[..|reports| - 1];
      var month := MonthOf(reports[|reports| - 1].date);
      if month in Group(prefix) then MonthsSeen(prefix) else MonthsSeen(prefix) + [month]
  }

  /** The scores of one month and project, in report order: the reference
      the grouping is checked against. */
  function ScoresFor(reports: seq<Report>, month: string, projectId: string): seq<int>
    decreases |reports|
  {
    if reports == [] then []
    else
      var last := reports[|reports| - 1];
      ScoresFor(reports[..|reports| - 1], month, projectId)
      + (if MonthOf(last.date) == month && last.projectId == projectId then [last.score] else [])
  }

  /** Extending the grouped prefix by one report. */
  lemma GroupStep(reports: seq<Report>, i: nat)
    requires i < |reports|
    ensures Group(reports[..i + 1]) == AddScore(Group(reports[..i]), reports[i])
    ensures MonthsSeen(reports[..i + 1]) == if MonthOf(reports[i].date) in Group(reports[..i])
      then MonthsSeen(reports[..i]) else MonthsSeen(reports[..i]) + [MonthOf(reports[i].date)]
  {
    assert reports[..i + 1][..i] == reports[..i];
  }

  /** The `forEach` that fills `dataByMonth`, returning its keys in
      insertion order too. */
  method BuildDataByMonth(reports: seq<Report>) returns (dataByMonth: Grouping, months: seq<string>)
    ensures dataByMonth == Group(reports)
    ensures months == MonthsSeen(reports)
  {
    dataByMonth := map[];
    months := [];
    var i := 0;
    while i < |reports|
      invariant 0 <= i <= |reports|
      invariant dataByMonth == Group(reports[..i])
      invariant months == MonthsSeen(reports[..i])
    {
      var report := reports[i];
      var month := MonthOf(report.date);
      GroupStep(reports, i);
      // Create the month's map and the project's list when missing, then
      // push the score.
      var inner := if month in dataByMonth then dataByMonth[month] else map[];
      if month !in dataByMonth {
        months := months + [month];
      }
      var scores := if report.projectId in inner then inner[report.projectId] else [];
      dataByMonth := dataByMonth[month := inner[report.projectId := scores + [report.score]]];
      i := i + 1;
    }
    assert reports[..i] == reports;
  }

  /** One point of the trend chart: the month and a rounded mean score per
      project name. */
  datatype MonthEntry = MonthEntry(month: string, values: map<string, int>)

  /** `projects.forEach(...)` for one month: a project with scores that
      month gets their rounded mean under its name; a later project with
      the same name overwrites an earlier one. */
  function ProjectValues(projects: seq<Project>, byProject: map<string, seq<int>>): map<string, int>
    decreases |projects|
  {
    if projects == [] then map[]
    else
      var prev := ProjectValues(projects[..|projects| - 1], byProject);
      var p := projects[|projects| - 1];
      if p.id in byProject && |byProject[p.id]| > 0 then
        prev[p.name := RoundMean(Sum(byProject[p.id]), |byProject[p.id]|)]
      else prev
  }

  function Identity(s: string): string {
    s
  }

  /** `Object.keys(dataByMonth).sort()`. */
  function SortedMonths(reports: seq<Report>): seq<string> {
    SortBy(MonthsSeen(reports), Identity, false)
  }

  /** `trendData`. */
  function TrendData(reports: seq<Report>, projects: seq<Project>): (points: seq<MonthEntry>)
    ensures |points| == |MonthsSeen(reports)|
  {
    var months := SortedMonths(reports);
    seq(|months|, i requires 0 <= i < |months| =>
      MonthEntry(months[i], ProjectValues(projects, MonthGroup(reports, months[i]))))
  }

  /** A field of the object the chart receives: the month label or a mean. */
  datatype Field = Text(text: string) | Number(number: int)

  /** `monthEntry` as the chart receives it: the object starts as
      `{ month }` and then gets one key per project name, so a project named
      "month" overwrites the month label with its mean. */
  function EntryObject(e: MonthEntry): (o: map<string, Field>)
    ensures "month" in o
    ensures forall name :: name in e.values ==> name in o && o[name] == Number(e.values[name])
  {
    map k | k in e.values.Keys + {"month"} :: if k in e.values then Number(e.values[k]) else Text(e.month)
  }

  /** `dataByMonth[month]`, empty for a month without reports. */
  function MonthGroup(reports: seq<Report>, month: string): map<string, seq<int>> {
    var g := Group(reports);
    if month in g then g[month] else map[]
  }

  /** The chart is drawn from two months on. */
  predicate ShowTrend(reports: seq<Report>, projects: seq<Project>) {
    |TrendData(reports, projects)| >= 2
  }

  // ---------------------------------------------------------------------
  // Properties of the rows and counts

  lemma {:induction false} AllResultsAppend(a: seq<Report>, b: seq<Report>)
    ensures AllResults(a + b) == AllResults(a) + AllResults(b)
    decreases |a|
  {
    if a == [] {
      assert a + b == b;
    } else {
      assert (a + b)[0] == a[0] && (a + b)[1..] == a[1..] + b;
      AllResultsAppend(a[1..], b);
    }
  }

  /** The flattened results are exactly the results of the reports. */
  lemma {:induction false} AllResultsMembers(reports: seq<Report>)
    ensures forall r :: r in AllResults(reports) <==> exists rep :: rep in reports && r in rep.results
    decreases |reports|
  {
    if reports != [] {
      AllResultsMembers(reports[1..]);
      assert forall rep :: rep in reports <==> rep == reports[0] || rep in reports[1..];
    }
  }

  /** A project's row shows 0 when it has no report, and otherwise the
      score of one of its reports dated no earlier than any other. */
  lemma RowScore(project: Project, reports: seq<Report>)
    ensures (forall r :: r in reports ==> r.projectId != project.id) ==> Row(project, reports).score == 0
    ensures (exists r :: r in reports && r.projectId == project.id) ==>
      exists latest :: latest in reports && latest.projectId == project.id
        && Row(project, reports).score == latest.score
        && forall q :: q in reports && q.projectId == project.id ==> LessEq(q.date, latest.date)
  {
    var own := ProjectReports(reports, project.id);
    FilterMembers(reports, OfProject(project.id));
    ProjectDashboard.LatestReportEffect(own);
    if own != [] {
      assert own[0] in own;
    }
  }

  /** The answered results split into compliant and non-compliant ones, and
      each count is the count over all results. */
  lemma StatusCountsEffect(reports: seq<Report>)
    ensures StatusCounts(reports).0 == |Filter(AllResults(reports), IsCompliant)|
    ensures StatusCounts(reports).1 == |Filter(AllResults(reports), IsNonCompliant)|
    ensures StatusCounts(reports).0 + StatusCounts(reports).1 == |AnsweredResults(reports)|
  {
    var all := AllResults(reports);
    FilterTwice(all, IsAnswered, IsCompliant, IsCompliant);
    FilterTwice(all, IsAnswered, IsNonCompliant, IsNonCompliant);
  }

  /** Every answered result is either compliant or non-compliant. */
  lemma AnsweredSplit(all: seq<ItemResult>)
    ensures |Filter(Filter(all, IsAnswered), IsCompliant)| + |Filter(Filter(all, IsAnswered), IsNonCompliant)|
      == |Filter(all, IsAnswered)|
  {
    var answered := Filter(all, IsAnswered);
    FilterMembers(all, IsAnswered);
    forall x | x in answered
      ensures IsCompliant(x) <==> !IsNonCompliant(x)
    {
      match x.status.value
      case C =>
      case NC =>
      case NA =>
    }
    FilterSplit(answered, IsCompliant, IsNonCompliant);
  }

  // ---------------------------------------------------------------------
  // The pending total against the pending-actions list

  /** The pending results of one report. */
  function PendingOf(r: Report): nat {
    |Filter(r.results, PendingActions.IsPending)|
  }

  function ProjectIds(projects: seq<Project>): seq<string> {
    seq(|projects|, i requires 0 <= i < |projects| => projects[i].id)
  }

  lemma PendingCountAppend(reports: seq<Report>, r: Report)
    ensures PendingCount(reports + [r]) == PendingCount(reports) + PendingOf(r)
  {
    AllResultsAppend(reports, [r]);
    assert AllResults([r]) == r.results + AllResults([]);
    assert AllResults([r]) == r.results;
    FilterAppend(AllResults(reports), r.results, PendingActions.IsPending);
  }

  lemma ProjectPendingAppend(reports: seq<Report>, r: Report, id: string)
    ensures PendingCount(ProjectReports(reports + [r], id))
      == PendingCount(ProjectReports(reports, id)) + (if r.projectId == id then PendingOf(r) else 0)
  {
    var own := OfProject(id);
    FilterAppend(reports, [r], own);
    assert Filter([r], own) == (if r.projectId == id then [r] else []) + Filter([r][1..], own);
    if r.projectId == id {
      assert [r][1..] == [];
      assert Filter([r], own) == [r];
      assert ProjectReports(reports + [r], id) == ProjectReports(reports, id) + [r];
      PendingCountAppend(ProjectReports(reports, id), r);
    } else {
      assert [r][1..] == [];
      assert Filter([r], own) == [];
      assert ProjectReports(reports + [r], id) == ProjectReports(reports, id) + [];
      assert ProjectReports(reports, id) + [] == ProjectReports(reports, id);
    }
  }

  /** The total over all rows is the total over all rows but the last,
      plus the last. */
  lemma TotalPendingSnoc(projects: seq<Project>, reports: seq<Report>)
    requires projects != []
    ensures TotalPending(Rows(projects, reports))
      == TotalPending(Rows(projects[..|projects| - 1], reports))
         + PendingCount(ProjectReports(reports, projects[|projects| - 1].id))
  {
    var n := |projects|;
    assert Rows(projects, reports)[..n - 1] == Rows(projects[..n - 1], reports);
  }

  /** A single report's pending results: the pending results of a report
      whose project is listed, counted once per row carrying that id. */
  lemma {:induction false} TotalPendingAppend(projects: seq<Project>, reports: seq<Report>, r: Report)
    ensures TotalPending(Rows(projects, reports + [r]))
      == TotalPending(Rows(projects, reports)) + TotalPending(Rows(projects, [r]))
    decreases |projects|
  {
    if projects != [] {
      var last := projects[|projects| - 1];
      TotalPendingAppend(projects[..|projects| - 1], reports, r);
      TotalPendingSnoc(projects, reports + [r]);
      TotalPendingSnoc(projects, reports);
      TotalPendingSnoc(projects, [r]);
      ProjectPendingAppend(reports, r, last.id);
      SingleReportPending(r, last.id);
    }
  }

  lemma SingleReportPending(r: Report, id: string)
    ensures PendingCount(ProjectReports([r], id)) == if r.projectId == id then PendingOf(r) else 0
  {
    ProjectPendingAppend([], r, id);
    assert [] + [r] == [r];
    assert ProjectReports([], id) == [];
    assert AllResults([]) == [];
  }

  /** Dropping the last project keeps the ids distinct, and no earlier
      project carries the last one's id. */
  lemma DistinctInit(projects: seq<Project>)
    requires projects != [] && Distinct(ProjectIds(projects))
    ensures Distinct(ProjectIds(projects[..|projects| - 1]))
    ensures forall i :: 0 <= i < |projects| - 1 ==> projects[i].id != projects[|projects| - 1].id
  {
    var n := |projects|;
    assert ProjectIds(projects[..n - 1]) == ProjectIds(projects)[..n - 1];
    forall i | 0 <= i < n - 1
      ensures projects[i].id != projects[n - 1].id
    {
      assert ProjectIds(projects)[i] == projects[i].id;
      assert ProjectIds(projects)[n - 1] == projects[n - 1].id;
    }
  }

  /** Some listed project carries the id. */
  predicate Listed(projects: seq<Project>, id: string) {
    exists i :: 0 <= i < |projects| && projects[i].id == id
  }

  lemma ListedSnoc(projects: seq<Project>, id: string)
    requires projects != []
    ensures Listed(projects, id) <==> Listed(projects[..|projects| - 1], id) || projects[|projects| - 1].id == id
  {
    var n := |projects|;
    if Listed(projects, id) && projects[n - 1].id != id {
      var i :| 0 <= i < n && projects[i].id == id;
      assert projects[..n - 1][i].id == id;
    }
    if Listed(projects[..n - 1], id) {
      var i :| 0 <= i < n - 1 && projects[..n - 1][i].id == id;
      assert projects[i].id == id;
    }
  }

  /** With distinct project ids, one report's pending results are counted
      once when its project is listed, and not at all otherwise. */
  lemma {:induction false} OneReportPending(projects: seq<Project>, r: Report)
    requires Distinct(ProjectIds(projects))
    ensures TotalPending(Rows(projects, [r])) == if Listed(projects, r.projectId) then PendingOf(r) else 0
    decreases |projects|
  {
    if projects != [] {
      var init := projects[..|projects| - 1];
      DistinctInit(projects);
      OneReportPending(init, r);
      TotalPendingSnoc(projects, [r]);
      SingleReportPending(r, projects[|projects| - 1].id);
      ListedSnoc(projects, r.projectId);
      if Listed(init, r.projectId) {
        var i :| 0 <= i < |init| && init[i].id == r.projectId;
      }
    }
  }

  /** The pending-actions list has one entry per pending result of a
      report whose project is found. */
  lemma UnsortedOne(projects: seq<Project>, catalog: seq<ChecklistCategory>, r: Report)
    ensures |PendingActions.Unsorted(projects, catalog, [r])| == if Listed(projects, r.projectId) then PendingOf(r) else 0
  {
    assert [r][1..] == [];
    assert PendingActions.Unsorted(projects, catalog, [r]) == PendingActions.EntriesOf(projects, catalog, r) + [];
    var i := IndexWhere(projects, (p: Project) => p.id == r.projectId);
    if Listed(projects, r.projectId) {
      var j :| 0 <= j < |projects| && projects[j].id == r.projectId;
      assert 0 <= i;
    }
  }

  /** With distinct project ids, the dashboard's pending total is the
      length of the pending-actions list. */
  lemma {:induction false} TotalPendingMatchesPendingList(projects: seq<Project>, catalog: seq<ChecklistCategory>,
                                                          reports: seq<Report>)
    requires Distinct(ProjectIds(projects))
    ensures TotalPending(Rows(projects, reports)) == |PendingActions.Unsorted(projects, catalog, reports)|
    decreases |reports|
  {
    if reports == [] {
      ZeroRows(projects);
    } else {
      var n := |reports|;
      var init := reports[..n - 1];
      var r := reports[n - 1];
      assert reports == init + [r];
      TotalPendingMatchesPendingList(projects, catalog, init);
      TotalPendingAppend(projects, init, r);
      OneReportPending(projects, r);
      UnsortedOne(projects, catalog, r);
      PendingActions.UnsortedAppend(projects, catalog, init, [r]);
    }
  }

  /** Without reports every row counts nothing. */
  lemma {:induction false} ZeroRows(projects: seq<Project>)
    ensures TotalPending(Rows(projects, [])) == 0
    decreases |projects|
  {
    if projects != [] {
      var n := |projects|;
      assert Rows(projects, [])[..n - 1] == Rows(projects[..n - 1], []);
      ZeroRows(projects[..n - 1]);
      assert ProjectReports([], projects[n - 1].id) == [];
      assert AllResults([]) == [];
    }
  }

  // ---------------------------------------------------------------------
  // Properties of the trend

  /** The scores kept for a month and project, none when either is absent. */
  function Lookup(g: Grouping, month: string, projectId: string): seq<int> {
    if month in g && projectId in g[month] then g[month][projectId] else []
  }

  /** A month occurs among the reports. */
  predicate HasMonth(reports: seq<Report>, month: string) {
    exists i :: 0 <= i < |reports| && MonthOf(reports[i].date) == month
  }

  /** One step of the grouping: the report's score is appended to its
      month and project and nothing else changes. */
  lemma AddScoreEffect(g: Grouping, r: Report)
    ensures forall m, p ::
      Lookup(AddScore(g, r), m, p) == Lookup(g, m, p) + (if MonthOf(r.date) == m && r.projectId == p then [r.score] else [])
    ensures forall m :: m in AddScore(g, r) <==> m in g || m == MonthOf(r.date)
    ensures (forall m, p :: m in g && p in g[m] ==> |g[m][p]| > 0) ==>
      forall m, p :: m in AddScore(g, r) && p in AddScore(g, r)[m] ==> |AddScore(g, r)[m][p]| > 0
  {
  }

  /** A month occurs among the reports exactly when it occurs before the
      last one or is the last one's. */
  lemma HasMonthSnoc(reports: seq<Report>)
    requires reports != []
    ensures forall m :: HasMonth(reports, m) <==>
      HasMonth(reports[..|reports| - 1], m) || m == MonthOf(reports[|reports| - 1].date)
  {
    var n := |reports|;
    var init := reports[..n - 1];
    forall m
      ensures HasMonth(reports, m) <==> HasMonth(init, m) || m == MonthOf(reports[n - 1].date)
    {
      if HasMonth(reports, m) && m != MonthOf(reports[n - 1].date) {
        var i :| 0 <= i < n && MonthOf(reports[i].date) == m;
        assert init[i] == reports[i];
      }
      if HasMonth(init, m) {
        var i :| 0 <= i < n - 1 && MonthOf(init[i].date) == m;
        assert reports[i] == init[i];
      }
    }
  }

  /** The grouping holds, for every month and project, exactly the scores
      of that month's reports of that project, in report order; its months
      are those of the reports, and no list in it is empty. */
  lemma {:induction false} GroupEffect(reports: seq<Report>)
    ensures forall m, p :: Lookup(Group(reports), m, p) == ScoresFor(reports, m, p)
    ensures forall m :: m in Group(reports) <==> HasMonth(reports, m)
    ensures forall m, p :: m in Group(reports) && p in Group(reports)[m] ==> |Group(reports)[m][p]| > 0
    decreases |reports|
  {
    if reports != [] {
      var init := reports[..|reports| - 1];
      GroupEffect(init);
      AddScoreEffect(Group(init), reports[|reports| - 1]);
      HasMonthSnoc(reports);
    }
  }

  /** The months are listed once each, in the order first seen, and are
      exactly the months of the reports. */
  lemma {:induction false} MonthsSeenEffect(reports: seq<Report>)
    ensures Distinct(MonthsSeen(reports))
    ensures forall m :: m in MonthsSeen(reports) <==> HasMonth(reports, m)
    decreases |reports|
  {
    if reports != [] {
      var n := |reports|;
      var init := reports[..n - 1];
      var month := MonthOf(reports[n - 1].date);
      MonthsSeenEffect(init);
      GroupEffect(init);
      HasMonthSnoc(reports);
    }
  }

  /** The trend's months rise strictly and are exactly the months of the
      reports. */
  lemma TrendMonths(reports: seq<Report>, projects: seq<Project>)
    ensures var t := TrendData(reports, projects);
      (forall i, j :: 0 <= i < j < |t| ==> Less(t[i].month, t[j].month))
      && forall m :: (exists i :: 0 <= i < |t| && t[i].month == m) <==> HasMonth(reports, m)
  {
    var seen := MonthsSeen(reports);
    var months := SortedMonths(reports);
    var t := TrendData(reports, projects);
    MonthsSeenEffect(reports);
    SortSorted(seen, Identity, false);
    SortPermutes(seen, Identity, false);
    forall m
      ensures m in months <==> m in seen
    {
      assert m in months <==> m in multiset(months);
    }
    forall i, j | 0 <= i < j < |t|
      ensures Less(t[i].month, t[j].month)
    {
      assert t[i].month == months[i] && t[j].month == months[j];
      DistinctSorted(seen, months, i, j);
    }
    forall m
      ensures (exists i :: 0 <= i < |t| && t[i].month == m) <==> m in months
    {
      if m in months {
        var i :| 0 <= i < |months| && months[i] == m;
        assert t[i].month == m;
      }
    }
  }

  /** Two positions of a sorted permutation of distinct months hold
      different months, in order. */
  lemma DistinctSorted(seen: seq<string>, months: seq<string>, i: nat, j: nat)
    requires Distinct(seen) && months == SortBy(seen, Identity, false)
    requires i < j < |months|
    ensures Less(months[i], months[j])
  {
    SortSorted(seen, Identity, false);
    SortPermutes(seen, Identity, false);
    assert !Before(Identity(months[j]), Identity(months[i]), false);
    if months[i] == months[j] {
      TwoOccurrences(months, i, j);
      DistinctOnce(seen, months[i]);
    }
    LessTotal(months[i], months[j]);
  }

  /** An element at two positions occurs at least twice. */
  lemma TwoOccurrences(s: seq<string>, i: nat, j: nat)
    requires i < j < |s| && s[i] == s[j]
    ensures multiset(s)[s[i]] >= 2
  {
    assert s == s[..j] + s[j..];
    assert s[i] in s[..j];
    assert s[j..][0] == s[j];
    assert multiset(s) == multiset(s[..j]) + multiset(s[j..]);
  }

  /** A distinct sequence holds each element at most once. */
  lemma {:induction false} DistinctOnce(s: seq<string>, x: string)
    requires Distinct(s)
    ensures multiset(s)[x] <= 1
    decreases |s|
  {
    if s != [] {
      DistinctOnce(s[1..], x);
      assert s == [s[0]] + s[1..];
      if s[0] == x {
        assert x !in s[1..] by {
          forall k | 0 <= k < |s[1..]|
            ensures s[1..][k] != x
          {
            assert s[k + 1] == s[1..][k];
          }
        }
      }
    }
  }

  /** The chart appears exactly when the reports span at least two months. */
  lemma ShowTrendIffTwoMonths(reports: seq<Report>, projects: seq<Project>)
    ensures ShowTrend(reports, projects) <==>
      exists i, j :: 0 <= i < |reports| && 0 <= j < |reports| && MonthOf(reports[i].date) != MonthOf(reports[j].date)
  {
    var t := TrendData(reports, projects);
    TrendMonths(reports, projects);
    if |t| >= 2 {
      assert Less(t[0].month, t[1].month);
      LessIrreflexive(t[0].month);
      assert HasMonth(reports, t[0].month) && HasMonth(reports, t[1].month);
      var i :| 0 <= i < |reports| && MonthOf(reports[i].date) == t[0].month;
      var j :| 0 <= j < |reports| && MonthOf(reports[j].date) == t[1].month;
    }
    if exists i, j :: 0 <= i < |reports| && 0 <= j < |reports| && MonthOf(reports[i].date) != MonthOf(reports[j].date) {
      var i, j :| 0 <= i < |reports| && 0 <= j < |reports| && MonthOf(reports[i].date) != MonthOf(reports[j].date);
      assert HasMonth(reports, MonthOf(reports[i].date)) && HasMonth(reports, MonthOf(reports[j].date));
      var a :| 0 <= a < |t| && t[a].month == MonthOf(reports[i].date);
      var b :| 0 <= b < |t| && t[b].month == MonthOf(reports[j].date);
      assert a != b;
    }
  }

  /** A project name gets a value exactly when some project of that name
      has scores; with scores in 0..100 so is the value; the last project
      of a name decides its value. */
  lemma {:induction false} ProjectValuesEffect(projects: seq<Project>, byProject: map<string, seq<int>>)
    requires forall id, k :: id in byProject && 0 <= k < |byProject[id]| ==> 0 <= byProject[id][k] <= 100
    ensures forall name :: name in ProjectValues(projects, byProject) <==>
      exists p :: p in projects && p.name == name && p.id in byProject && |byProject[p.id]| > 0
    ensures forall name :: name in ProjectValues(projects, byProject) ==> 0 <= ProjectValues(projects, byProject)[name] <= 100
    decreases |projects|
  {
    if projects != [] {
      var n := |projects|;
      var init := projects[..n - 1];
      var p := projects[n - 1];
      ProjectValuesEffect(init, byProject);
      assert projects == init + [p];
      if p.id in byProject && |byProject[p.id]| > 0 {
        var s := byProject[p.id];
        SumBounds(s, 0, 100);
      }
    }
  }

  lemma {:induction false} ProjectValuesLast(projects: seq<Project>, byProject: map<string, seq<int>>, k: nat)
    requires k < |projects| && projects[k].id in byProject && |byProject[projects[k].id]| > 0
    requires forall j :: k < j < |projects| ==> projects[j].name != projects[k].name
    ensures var s := byProject[projects[k].id];
      projects[k].name in ProjectValues(projects, byProject)
      && ProjectValues(projects, byProject)[projects[k].name] == RoundMean(Sum(s), |s|)
    decreases |projects|
  {
    var n := |projects|;
    if k < n - 1 {
      ProjectValuesLast(projects[..n - 1], byProject, k);
      assert projects[..n - 1][k] == projects[k];
    }
  }

  /** A month's map holds a project exactly when it has scores that month,
      and then holds those scores. */
  lemma MonthGroupEffect(reports: seq<Report>, month: string)
    ensures forall id :: id in MonthGroup(reports, month) ==>
      MonthGroup(reports, month)[id] == ScoresFor(reports, month, id) && |ScoresFor(reports, month, id)| > 0
    ensures forall id :: id !in MonthGroup(reports, month) ==> ScoresFor(reports, month, id) == []
  {
    GroupEffect(reports);
    var g := Group(reports);
    forall id
      ensures id !in MonthGroup(reports, month) ==> ScoresFor(reports, month, id) == []
      ensures id in MonthGroup(reports, month) ==> MonthGroup(reports, month)[id] == ScoresFor(reports, month, id)
    {
      assert Lookup(g, month, id) == ScoresFor(reports, month, id);
    }
  }

  /** Each trend point gives a project, the last of its name, the rounded
      mean of its scores that month, and gives no value to a name none of
      whose projects has a report that month. */
  lemma TrendEntryValues(reports: seq<Report>, projects: seq<Project>, i: nat, k: nat)
    requires i < |TrendData(reports, projects)| && k < |projects|
    requires forall j :: k < j < |projects| ==> projects[j].name != projects[k].name
    ensures var e := TrendData(reports, projects)[i];
      var s := ScoresFor(reports, e.month, projects[k].id);
      (|s| > 0 ==> projects[k].name in e.values && e.values[projects[k].name] == RoundMean(Sum(s), |s|))
      && ((forall q :: q in projects && q.name == projects[k].name ==> ScoresFor(reports, e.month, q.id) == [])
          ==> projects[k].name !in e.values)
  {
    var e := TrendData(reports, projects)[i];
    var byProject := MonthGroup(reports, e.month);
    assert e.values == ProjectValues(projects, byProject);
    MonthGroupEffect(reports, e.month);
    if |ScoresFor(reports, e.month, projects[k].id)| > 0 {
      ProjectValuesLast(projects, byProject, k);
    }
    if projects[k].name in e.values {
      ProjectValuesNames(projects, byProject, projects[k].name);
    }
  }

  /** A name gets a value only from a project of that name that has scores. */
  lemma {:induction false} ProjectValuesNames(projects: seq<Project>, byProject: map<string, seq<int>>, name: string)
    requires name in ProjectValues(projects, byProject)
    ensures exists p :: p in projects && p.name == name && p.id in byProject && |byProject[p.id]| > 0
    decreases |projects|
  {
    var n := |projects|;
    var p := projects[n - 1];
    if !(p.name == name && p.id in byProject && |byProject[p.id]| > 0) {
      ProjectValuesNames(projects[..n - 1], byProject, name);
      var q :| q in projects[..n - 1] && q.name == name && q.id in byProject && |byProject[q.id]| > 0;
      assert q in projects;
    }
  }

  /** The chart's object holds every project value under its name and the
      month under "month", unless a project named "month" has a value that
      month, which then replaces the label. */
  lemma EntryObjectFields(e: MonthEntry)
    ensures EntryObject(e).Keys == e.values.Keys + {"month"}
    ensures forall name :: name in e.values ==> EntryObject(e)[name] == Number(e.values[name])
    ensures EntryObject(e)["month"] == Text(e.month) <==> "month" !in e.values
  {
  }
}
