/** What the calendar may rely on in the snapshot fetchData serves: every
    record it places carries the time stamp its group's kind is keyed on. */
module CalendarFeed {
  import opened Wrappers
  import opened Types
  import Server
  import WeeklyCalendar

  /** In the snapshot fetchData returns, a record of a Lead group has its
      `create`, one of a Patient Checkin group its `checkin` and one of an
      Event group its `start`, and that is the stamp the week filter reads:
      no record of the snapshot is dropped for a missing key. */
  lemma FetchedRecordsKeyed(t: Server.Tables, i: int, g: RecordGroup, r: AnyRecord)
    requires Server.Entries(t, |t.employees|).Success? && 0 <= i < |t.employees|
    requires g in Server.Entries(t, |t.employees|).value[i].groups && r in g.records
    ensures WeeklyCalendar.KeyTimestamp(g.kind, r).Some?
    ensures g.kind == Lead ==> r.LeadRecord? && WeeklyCalendar.KeyTimestamp(g.kind, r) == Some(r.create)
    ensures g.kind == PatientCheckin ==>
      r.PatientCheckinRecord? && WeeklyCalendar.KeyTimestamp(g.kind, r) == Some(r.checkin)
    ensures g.kind == Event ==> r.EventRecord? && WeeklyCalendar.KeyTimestamp(g.kind, r) == Some(r.start)
  {
    var n := |t.employees|;
    Server.EntriesShape(t, n);
    Server.EntryShape(t, t.employees[i]);
    WeeklyCalendar.WellFormedKeyTimestamp(g, r, 0);
  }
}
