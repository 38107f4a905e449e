/** The application shell: what the current user may see (every project for
    'Diretoria', otherwise the projects assigned to them, and the reports of
    visible, existing projects), the site cards with their latest score and
    pending count, the colour of a card's border, the view shown after a
    save and the bottom navigation offered to each role. */
module App {
  import opened Types
  import opened Lists
  import opened Scoring
  import Order
  import ProjectDashboard
  import Dashboard

  /** The screens of the application. */
  datatype View = SitesList | ProjectDashboardView | ReportFormView | ReportViewView | ManagementDashboard | PendingActionsView

  /** The user may see the project. */
  predicate Visible(user: User, project: Project) {
    user.role == Diretoria || project.id in user.projectIds
  }

  function VisibleTo(user: User): Project -> bool {
    (p: Project) => Visible(user, p)
  }

  /** `filteredProjects`. */
  function FilteredProjects(user: User, projects: seq<Project>): (visible: seq<Project>)
    ensures |visible| <= |projects|
    ensures forall p :: p in visible <==> p in projects && Visible(user, p)
  {
    FilterMembers(projects, VisibleTo(user));
    Filter(projects, VisibleTo(user))
  }

  /** The report's project exists and the user may see it. */
  predicate ReportVisible(user: User, projects: seq<Project>, r: Report) {
    match FindProject(projects, r.projectId)
    case None => false
    case Some(project) => Visible(user, project)
  }

  function ReportVisibleTo(user: User, projects: seq<Project>): Report -> bool {
    (r: Report) => ReportVisible(user, projects, r)
  }

  /** `filteredReports`. */
  function FilteredReports(user: User, projects: seq<Project>, reports: seq<Report>): (visible: seq<Report>)
    ensures |visible| <= |reports|
    ensures forall r :: r in visible <==> r in reports && ReportVisible(user, projects, r)
  {
    FilterMembers(reports, ReportVisibleTo(user, projects));
    Filter(reports, ReportVisibleTo(user, projects))
  }

  /** A card of the sites list: no score while the site has no report. */
  datatype SiteCard = SiteCard(project: Project, score: Option<int>, pendingActions: nat)

  function Card(project: Project, visibleReports: seq<Report>): SiteCard {
    var own := Dashboard.ProjectReports(visibleReports, project.id);
    var latest := ProjectDashboard.LatestReport(own);
    SiteCard(project, if latest.Some? then Some(latest.value.score) else None, Dashboard.PendingCount(own))
  }

  /** The sites list's `data`. */
  function SiteCards(user: User, projects: seq<Project>, reports: seq<Report>): seq<SiteCard> {
    var visible := FilteredProjects(user, projects);
    var visibleReports := FilteredReports(user, projects, reports);
    seq(|visible|, i requires 0 <= i < |visible| => Card(visible[i], visibleReports))
  }

  /** The border of a site card. */
  datatype Border = Gray | Toned(tone: ProjectDashboard.Tone)

  /** `getScoreBorderColor(score)`. */
  function BorderColor(score: Option<int>): Border {
    if score.None? then Gray
    else if score.value >= 90 then Toned(ProjectDashboard.Green)
    else if score.value >= 70 then Toned(ProjectDashboard.Blue)
    else if score.value >= 50 then Toned(ProjectDashboard.Yellow)
    else Toned(ProjectDashboard.Red)
  }

  /** The view `handleSaveReport` moves to. */
  function ViewAfterSave(selectedProject: Option<Project>): View {
    if selectedProject.Some? then ProjectDashboardView else SitesList
  }

  /** The toast `handleSaveReport` shows. */
  function SaveToast(status: ReportStatus): string {
    if status == Draft then "Rascunho salvo com sucesso!" else "Relatório concluído e enviado!"
  }

  /** The header button of the site dashboard the shell renders: the shell
      passes the dashboard the selected site's visible reports and no
      `userRole`. */
  function ShellDashboardAction(user: User, projects: seq<Project>, reports: seq<Report>, selected: Project)
    : Option<ProjectDashboard.PrimaryAction>
  {
    ProjectDashboard.OfferedAction(None, DashboardReports(user, projects, reports, selected))
  }

  /** The reports the project dashboard of the selected project receives. */
  function DashboardReports(user: User, projects: seq<Project>, reports: seq<Report>, selected: Project): seq<Report> {
    Dashboard.ProjectReports(FilteredReports(user, projects, reports), selected.id)
  }

  /** An entry of the bottom navigation. */
  datatype NavItem = NavItem(view: View, text: string, roles: seq<Role>)

  const NavItems: seq<NavItem> := [
    NavItem(SitesList, "Obras", [Diretoria, Engenheiro]),
    NavItem(ManagementDashboard, "Gerencial", [Diretoria])
  ]

  function OfferedTo(role: Role): NavItem -> bool {
    (item: NavItem) => role in item.roles
  }

  /** `availableNavItems`. */
  function AvailableNavItems(role: Role): seq<NavItem> {
    Filter(NavItems, OfferedTo(role))
  }

  /** A navigation entry is highlighted on its own view, and 'Obras' also
      on the screens reached from a site. */
  predicate IsActive(current: View, item: NavItem) {
    current == item.view
    || (item.view == SitesList && current in {ProjectDashboardView, ReportFormView, ReportViewView})
  }

  function ActiveOn(current: View): NavItem -> bool {
    (item: NavItem) => IsActive(current, item)
  }

  /** The entries of the bottom bar a role sees highlighted. */
  function HighlightedItems(role: Role, current: View): seq<NavItem> {
    Filter(AvailableNavItems(role), ActiveOn(current))
  }

  // ---------------------------------------------------------------------
  // Properties of the shell

  /** 'Diretoria' sees every project; anyone else exactly the assigned
      ones, in their listed order. */
  lemma FilteredProjectsEffect(user: User, projects: seq<Project>)
    ensures user.role == Diretoria ==> FilteredProjects(user, projects) == projects
    ensures forall p :: p in FilteredProjects(user, projects) <==>
      p in projects && (user.role == Diretoria || p.id in user.projectIds)
  {
    FilterMembers(projects, VisibleTo(user));
    FilterAll(projects, VisibleTo(user));
  }

  /** A report is visible exactly when a project with its id exists and the
      user sees all projects or has that id assigned. */
  lemma FilteredReportsEffect(user: User, projects: seq<Project>, reports: seq<Report>)
    ensures forall r :: r in FilteredReports(user, projects, reports) <==>
      r in reports
      && (exists i :: 0 <= i < |projects| && projects[i].id == r.projectId)
      && (user.role == Diretoria || r.projectId in user.projectIds)
  {
    FilterMembers(reports, ReportVisibleTo(user, projects));
    forall r
      ensures ReportVisible(user, projects, r) <==>
        (exists i :: 0 <= i < |projects| && projects[i].id == r.projectId)
        && (user.role == Diretoria || r.projectId in user.projectIds)
    {
      var k := IndexWhere(projects, (p: Project) => p.id == r.projectId);
      if exists i :: 0 <= i < |projects| && projects[i].id == r.projectId {
        var i :| 0 <= i < |projects| && projects[i].id == r.projectId;
        assert 0 <= k;
      }
    }
  }

  /** A card shows no score exactly when its site has no visible report,
      and otherwise the score of a visible report of the site dated no
      earlier than any other; the management dashboard shows 0 for the
      former and the same score for the latter. */
  lemma CardScore(project: Project, visibleReports: seq<Report>)
    ensures Card(project, visibleReports).score.None? <==>
      forall r :: r in visibleReports ==> r.projectId != project.id
    ensures Card(project, visibleReports).score.None? ==> Dashboard.Row(project, visibleReports).score == 0
    ensures Card(project, visibleReports).score.Some? ==>
      Dashboard.Row(project, visibleReports).score == Card(project, visibleReports).score.value
      && (exists latest :: latest in visibleReports && latest.projectId == project.id
            && latest.score == Card(project, visibleReports).score.value
            && forall q :: q in visibleReports && q.projectId == project.id ==> Order.LessEq(q.date, latest.date))
    ensures Card(project, visibleReports).pendingActions == Dashboard.Row(project, visibleReports).pendingActions
  {
    var own := Dashboard.ProjectReports(visibleReports, project.id);
    FilterMembers(visibleReports, Dashboard.OfProject(project.id));
    ProjectDashboard.LatestReportEffect(own);
    if own != [] {
      assert own[0] in own;
    }
  }

  /** One card per visible project, in order. */
  lemma SiteCardsEffect(user: User, projects: seq<Project>, reports: seq<Report>)
    ensures var cards := SiteCards(user, projects, reports);
      |cards| == |FilteredProjects(user, projects)|
      && forall i :: 0 <= i < |cards| ==>
        cards[i].project == FilteredProjects(user, projects)[i] && cards[i].project in projects
        && Visible(user, cards[i].project)
  {
    FilterMembers(projects, VisibleTo(user));
    var visible := FilteredProjects(user, projects);
    forall i | 0 <= i < |visible|
      ensures visible[i] in projects && Visible(user, visible[i])
    {
      assert visible[i] in visible;
    }
  }

  /** No score draws a gray border; a score draws the colour of its ring
      and evaluation band. */
  lemma BorderFollowsRing(score: Option<int>)
    ensures score.None? <==> BorderColor(score) == Gray
    ensures score.Some? ==> BorderColor(score) == Toned(ProjectDashboard.RingTone(score.value))
    ensures score.Some? ==> (BorderColor(score) == Toned(ProjectDashboard.Green) <==> BandOf(score.value) == Otimo)
  {
  }

  /** The project dashboard receives exactly the visible reports of the
      selected project; the shell passes it no role, so it never offers
      the primary action, which an admin role would have been offered. */
  lemma DashboardReportsEffect(user: User, projects: seq<Project>, reports: seq<Report>, selected: Project)
    ensures forall r :: r in DashboardReports(user, projects, reports, selected) <==>
      r in FilteredReports(user, projects, reports) && r.projectId == selected.id
    ensures ShellDashboardAction(user, projects, reports, selected) == None
    ensures ProjectDashboard.OfferedAction(Some(Admin), DashboardReports(user, projects, reports, selected)).Some?
  {
    FilterMembers(FilteredReports(user, projects, reports), Dashboard.OfProject(selected.id));
  }

  /** 'Diretoria' gets both entries, 'Engenheiro' only 'Obras', every other
      role none. */
  lemma NavItemsByRole(role: Role)
    ensures role == Diretoria ==> AvailableNavItems(role) == NavItems
    ensures role == Engenheiro ==> AvailableNavItems(role) == [NavItems[0]]
    ensures role != Diretoria && role != Engenheiro ==> AvailableNavItems(role) == []
  {
    var p := OfferedTo(role);
    assert NavItems[1..][1..] == [];
    assert Filter(NavItems, p) == (if p(NavItems[0]) then [NavItems[0]] else []) + Filter(NavItems[1..], p);
    assert Filter(NavItems[1..], p) == (if p(NavItems[1]) then [NavItems[1]] else []) + Filter(NavItems[1..][1..], p);
  }

  /** A role's highlighted navigation entries never number more than one:
      'Obras' on the site screens for both roles that have it, 'Gerencial'
      on the management dashboard for 'Diretoria' only, and none on the
      pending-actions list. */
  lemma HighlightedByView(role: Role, current: View)
    ensures |HighlightedItems(role, current)| <= 1
    ensures role == Diretoria || role == Engenheiro ==>
      (HighlightedItems(role, current) == [NavItems[0]] <==>
       current in {SitesList, ProjectDashboardView, ReportFormView, ReportViewView})
    ensures HighlightedItems(role, current) == [NavItems[1]] <==> role == Diretoria && current == ManagementDashboard
    ensures current == PendingActionsView ==> HighlightedItems(role, current) == []
  {
    NavItemsByRole(role);
    var p := ActiveOn(current);
    var avail := AvailableNavItems(role);
    assert NavItems[1..][1..] == [];
    assert Filter(NavItems, p) == (if p(NavItems[0]) then [NavItems[0]] else []) + Filter(NavItems[1..], p);
    assert Filter(NavItems[1..], p) == (if p(NavItems[1]) then [NavItems[1]] else []) + Filter(NavItems[1..][1..], p);
    assert [NavItems[0]][1..] == [];
    assert Filter([NavItems[0]], p) == (if p(NavItems[0]) then [NavItems[0]] else []) + Filter([NavItems[0]][1..], p);
    assert NavItems[0] != NavItems[1];
  }

  /** After a save, 'Obras' is the highlighted entry, and the selected
      project's dashboard is shown exactly when a project is selected. */
  lemma SaveHighlightsObras(role: Role, selected: Option<Project>)
    requires role == Diretoria || role == Engenheiro
    ensures HighlightedItems(role, ViewAfterSave(selected)) == [NavItems[0]]
    ensures ViewAfterSave(selected) == ProjectDashboardView <==> selected.Some?
  {
    HighlightedByView(role, ViewAfterSave(selected));
  }
}
