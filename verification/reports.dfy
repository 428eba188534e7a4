/** The report routes (`/reports`): any caller may file a report about any
    user and task, and reads back the reports they filed. */
module Reports {
  import opened Base
  import opened Http
  import opened Scan

  type ReportId = string

  /** The payload fields the handler reads. */
  datatype ReportIn = ReportIn(taskId: string, toUserId: UserId, reason: string)

  datatype Report = Report(
    reportId: ReportId,
    taskId: string,
    fromUserId: UserId,
    toUserId: UserId,
    reason: string,
    createdAt: Time)

  type Store = map<ReportId, Report>

  /** `create_report`: no validation (reporting oneself is accepted); the
      caller becomes the author and the item is written under the fresh id. */
  function CreateReport(reports: Store, caller: UserId, p: ReportIn, freshId: ReportId, now: Time)
    : (r: Reply<Store, Report>)
    ensures r.store.Keys == reports.Keys + {freshId}
    ensures forall k :: k in reports && k != freshId ==> r.store[k] == reports[k]
    ensures r.store[freshId] == r.body
    ensures r.body.reportId == freshId && r.body.fromUserId == caller && r.body.createdAt == now
    ensures r.body.taskId == p.taskId && r.body.toUserId == p.toUserId && r.body.reason == p.reason
  {
    var rep := Report(freshId, p.taskId, caller, p.toUserId, p.reason, now);
    Reply(reports[freshId := rep], rep)
  }

  /** `get_my_reports`: the reports whose author is the caller, in scan order. */
  function GetMyReports(reports: Store, scan: seq<ReportId>, caller: UserId): (r: seq<Report>)
    requires IsScanOf(scan, reports)
    ensures forall rep :: rep in r <==> rep in reports.Values && rep.fromUserId == caller
    ensures |r| == |set k | k in reports && reports[k].fromUserId == caller|
    ensures forall rep :: multiset(r)[rep] ==
              if rep.fromUserId == caller then |KeysHolding(reports, rep)| else 0
  {
    RowsAreValues(scan, reports);
    var keep := (rep: Report) => rep.fromUserId == caller;
    FilterRowsCount(scan, reports, keep);
    FilterRowsMultiplicity(scan, reports, keep);
    KeysWhereIs(reports, keep, set k | k in reports && reports[k].fromUserId == caller);
    Filter(Rows(scan, reports), keep)
  }

  /** Filing a report makes it visible to its author and to no one else. */
  lemma FiledReportVisibleToAuthorOnly(reports: Store, caller: UserId, p: ReportIn, freshId: ReportId, now: Time,
                                       scan: seq<ReportId>, viewer: UserId)
    requires IsScanOf(scan, CreateReport(reports, caller, p, freshId, now).store)
    ensures
      var rep := CreateReport(reports, caller, p, freshId, now);
      rep.body in GetMyReports(rep.store, scan, viewer) <==> viewer == caller
  {
  }

  /** Nothing prevents repeats: the same report filed twice under two fresh
      ids is stored twice, and the author sees both. */
  lemma RepeatedReportsAreDistinct(reports: Store, caller: UserId, p: ReportIn, id1: ReportId, id2: ReportId,
                                   t1: Time, t2: Time, scan: seq<ReportId>)
    requires id1 != id2 && id1 !in reports && id2 !in reports
    requires IsScanOf(scan, CreateReport(CreateReport(reports, caller, p, id1, t1).store, caller, p, id2, t2).store)
    ensures
      var s := CreateReport(CreateReport(reports, caller, p, id1, t1).store, caller, p, id2, t2).store;
      && |s| == |reports| + 2
      && s[id1] != s[id2]
      && s[id1] in GetMyReports(s, scan, caller) && s[id2] in GetMyReports(s, scan, caller)
  {
    var s1 := CreateReport(reports, caller, p, id1, t1).store;
    var s := CreateReport(s1, caller, p, id2, t2).store;
    assert s1.Keys == reports.Keys + {id1};
    assert |s1| == |reports| + 1;
    assert s.Keys == s1.Keys + {id2};
  }
}
