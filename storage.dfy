/** The stored report list (the `env_inspection_reports` entry of the
    browser's local storage) and the keyed replace-or-append both services
    perform on it: the first report with the same id is replaced in place,
    otherwise the report is appended. */
module Storage {
  import opened Types

  /** `reports.findIndex(r => r.id === id)`. */
  function IndexOfId(reports: seq<Report>, id: string): int {
    IndexWhere(reports, (r: Report) => r.id == id)
  }

  predicate HasId(reports: seq<Report>, id: string) {
    exists j :: 0 <= j < |reports| && reports[j].id == id
  }

  /** `reports[index] = report` when the id is found, `reports.push(report)`
      otherwise. */
  function Upsert(reports: seq<Report>, report: Report): (rs: seq<Report>)
    ensures report in rs
    ensures |rs| == |reports| || rs == reports + [report]
  {
    var i := IndexOfId(reports, report.id);
    if i >= 0 then
      assert reports[i := report][i] == report;
      reports[i := report]
    else reports + [report]
  }

  /** The ids a report list holds. */
  function ReportIds(reports: seq<Report>): set<string> {
    set j | 0 <= j < |reports| :: reports[j].id
  }

  /** `report-<milliseconds>`, the id a new report gets. */
  function NewReportId(millis: nat): string {
    "report-" + Decimal(millis)
  }

  /** Reports created at different instants get different ids. */
  lemma NewReportIdDistinct(m1: nat, m2: nat)
    requires m1 != m2
    ensures NewReportId(m1) != NewReportId(m2)
  {
    DecimalInjective(m1, m2);
    assert NewReportId(m1)[7..] == Decimal(m1) && NewReportId(m2)[7..] == Decimal(m2);
  }

  /** A known id replaces exactly the first report with that id; an
      unknown id appends exactly one report. */
  lemma UpsertFrame(reports: seq<Report>, report: Report)
    ensures var rs := Upsert(reports, report);
      if HasId(reports, report.id) then
        var i := IndexOfId(reports, report.id);
        0 <= i < |reports| && reports[i].id == report.id && |rs| == |reports| && rs[i] == report
        && (forall j :: 0 <= j < i ==> reports[j].id != report.id)
        && (forall j :: 0 <= j < |rs| && j != i ==> rs[j] == reports[j])
      else
        rs == reports + [report]
  {
  }

  /** After the upsert the report is what a lookup of its id finds. */
  lemma UpsertThenFind(reports: seq<Report>, report: Report)
    ensures var rs := Upsert(reports, report);
      0 <= IndexOfId(rs, report.id) && rs[IndexOfId(rs, report.id)] == report
  {
    var rs := Upsert(reports, report);
    var i := IndexOfId(reports, report.id);
    if i >= 0 {
      assert rs[i].id == report.id;
    } else {
      assert rs[|reports|].id == report.id;
    }
  }

  /** Upserting the same report again changes nothing. */
  lemma UpsertIdempotent(reports: seq<Report>, report: Report)
    ensures Upsert(Upsert(reports, report), report) == Upsert(reports, report)
  {
    UpsertThenFind(reports, report);
  }

  /** Lookups of every other id are unaffected. */
  lemma UpsertOtherIds(reports: seq<Report>, report: Report, id: string)
    requires id != report.id
    ensures IndexOfId(Upsert(reports, report), id) == IndexOfId(reports, id)
  {
    var rs := Upsert(reports, report);
    var m := IndexOfId(reports, id);
    if 0 <= m {
      assert rs[m] == reports[m];
    }
  }

  /** The stored ids gain the report's id and lose none. */
  lemma UpsertIds(reports: seq<Report>, report: Report)
    ensures ReportIds(Upsert(reports, report)) == ReportIds(reports) + {report.id}
  {
    var rs := Upsert(reports, report);
    var i := IndexOfId(reports, report.id);
    if i >= 0 {
      forall id | id in ReportIds(reports) + {report.id}
        ensures id in ReportIds(rs)
      {
        if id != report.id {
          var j :| 0 <= j < |reports| && reports[j].id == id;
          assert rs[j] == reports[j];
        } else {
          assert rs[i].id == id;
        }
      }
      forall id | id in ReportIds(rs)
        ensures id in ReportIds(reports) + {report.id}
      {
        var j :| 0 <= j < |rs| && rs[j].id == id;
        if j != i {
          assert reports[j].id == id;
        }
      }
    } else {
      assert rs[|reports|].id == report.id;
      forall id | id in ReportIds(reports)
        ensures id in ReportIds(rs)
      {
        var j :| 0 <= j < |reports| && reports[j].id == id;
        assert rs[j] == reports[j];
      }
    }
  }

  /** The browser's stored report list. */
  class ReportStore {
    var reports: seq<Report>

    constructor(initial: seq<Report>)
      ensures reports == initial
    {
      reports := initial;
    }
  }
}
