/** fetchData of server.js (lines 94-117): the in-memory join that turns the
    five tables into the `EmployeeData[]` snapshot the calendar lays out.
    The five `SELECT * ... all()` reads are its inputs. */
module Server {
  import opened Wrappers
  import opened Types
  import opened Seqs

  datatype EmployeeRow = EmployeeRow(id: int, name: string)
  datatype LeadRow = LeadRow(id: int, employeeId: int, firstname: string, lastname: string, createTs: string)
  datatype EventRow = EventRow(id: int, title: string, createTs: string, startTs: string, endTs: string)
  datatype EventEmployeeRow = EventEmployeeRow(eventId: int, employeeId: int)
  datatype CheckinRow = CheckinRow(id: int, employeeId: int, patient: string, notes: string, checkinTs: string)

  /** The rows of the five tables, in table order. */
  datatype Tables = Tables(
    employees: seq<EmployeeRow>,
    leads: seq<LeadRow>,
    events: seq<EventRow>,
    eventEmployees: seq<EventEmployeeRow>,
    checkins: seq<CheckinRow>)

  /** The TypeError raised when a link row names an employee id with no row:
      `employees.find(...)` is `undefined` and `.name` of it throws. */
  datatype FetchError = UnknownEmployee(employeeId: int)

  function LeadProjection(l: LeadRow): AnyRecord
  {
    LeadRecord(l.firstname, l.lastname, l.createTs)
  }

  function CheckinProjection(c: CheckinRow): AnyRecord
  {
    PatientCheckinRecord(c.patient, c.notes, c.checkinTs, None)
  }

  /** `leads.filter(l => l.employee_id === emp.id).map(...)` (line 103). */
  function LeadRecords(leads: seq<LeadRow>, empId: int): seq<AnyRecord>
  {
    Map(Filter(leads, (l: LeadRow) => l.employeeId == empId), LeadProjection)
  }

  /** `checkins.filter(c => c.employee_id === emp.id).map(...)` (line 105). */
  function CheckinRecords(checkins: seq<CheckinRow>, empId: int): seq<AnyRecord>
  {
    Map(Filter(checkins, (c: CheckinRow) => c.employeeId == empId), CheckinProjection)
  }

  /** `evIds`: the event ids of the employee's link rows (line 107). */
  function LinkedEventIds(links: seq<EventEmployeeRow>, empId: int): seq<int>
  {
    Map(Filter(links, (ee: EventEmployeeRow) => ee.employeeId == empId), (ee: EventEmployeeRow) => ee.eventId)
  }

  /** `events.filter(ev => evIds.includes(ev.id))` (line 108). */
  function LinkedEvents(t: Tables, empId: int): (r: seq<EventRow>)
    ensures |r| <= |t.events|
    ensures forall ev :: ev in r ==> ev in t.events && ev.id in LinkedEventIds(t.eventEmployees, empId)
  {
    var ids := LinkedEventIds(t.eventEmployees, empId);
    var linked := (ev: EventRow) => ev.id in ids;
    FilterKeeps(t.events, linked);
    Filter(t.events, linked)
  }

  /** The link rows of one event, in link-table order. */
  function EventLinks(links: seq<EventEmployeeRow>, eventId: int): seq<EventEmployeeRow>
  {
    Filter(links, (ee: EventEmployeeRow) => ee.eventId == eventId)
  }

  /** `employees.find(e => e.id === id)`, then its name. */
  function EmployeeName(employees: seq<EmployeeRow>, id: int): (r: Option<string>)
    ensures r.None? <==> forall e :: e in employees ==> e.id != id
    ensures r.Some? ==> EmployeeRow(id, r.value) in employees
    decreases |employees|
  {
    if employees == [] then None
    else if employees[0].id == id then Some(employees[0].name)
    else EmployeeName(employees[1..], id)
  }

  /** The names of the employees of the given link rows, in order; the first
      link to a missing employee raises. */
  function Names(employees: seq<EmployeeRow>, links: seq<EventEmployeeRow>): (r: Result<seq<string>, FetchError>)
    ensures r.Success? ==> |r.value| == |links|
    decreases |links|
  {
    if links == [] then Success([])
    else match EmployeeName(employees, links[0].employeeId)
      case None => Failure(UnknownEmployee(links[0].employeeId))
      case Some(n) =>
        match Names(employees, links[1..])
        case Failure(e) => Failure(e)
        case Success(ns) => Success([n] + ns)
  }

  /** The `.map(ev => ({ ..., employees: ... }))` of lines 108-114: one
      record per event row, carrying the names of its linked employees. */
  function EventRecords(t: Tables, evs: seq<EventRow>): (r: Result<seq<AnyRecord>, FetchError>)
    ensures r.Success? ==> |r.value| == |evs|
    decreases |evs|
  {
    if evs == [] then Success([])
    else
      var ev := evs[0];
      match Names(t.employees, EventLinks(t.eventEmployees, ev.id))
      case Failure(e) => Failure(e)
      case Success(names) =>
        match EventRecords(t, evs[1..])
        case Failure(e) => Failure(e)
        case Success(rest) => Success([EventRecord(ev.title, ev.startTs, ev.endTs, names, ev.createTs)] + rest)
  }

  /** The entry the `employees.map` callback returns for `emp` (lines 101-116). */
  function EmployeeEntry(t: Tables, emp: EmployeeRow): (r: Result<EmployeeData, FetchError>)
    ensures r.Success? ==> r.value.employee == emp.name && |r.value.groups| <= 3
    ensures r.Failure?
        <==> exists ev :: ev in LinkedEvents(t, emp.id) && Names(t.employees, EventLinks(t.eventEmployees, ev.id)).Failure?
  {
    EventRecordsFail(t, LinkedEvents(t, emp.id));
    var ls, cs := LeadRecords(t.leads, emp.id), CheckinRecords(t.checkins, emp.id);
    match EventRecords(t, LinkedEvents(t, emp.id))
    case Failure(e) => Failure(e)
    case Success(evs) =>
      Success(EmployeeData(emp.name, Groups(ls, cs, evs)))
  }

  /** The groups array of one entry: a group per non-empty kind, Lead first,
      then Patient Checkin, then Event (lines 102-115). */
  function Groups(ls: seq<AnyRecord>, cs: seq<AnyRecord>, evs: seq<AnyRecord>): seq<RecordGroup>
  {
    (if |ls| > 0 then [RecordGroup(Lead, ls)] else [])
    + (if |cs| > 0 then [RecordGroup(PatientCheckin, cs)] else [])
    + (if |evs| > 0 then [RecordGroup(Event, evs)] else [])
  }

  /** The entries of the first `n` employees; the first failure raises. */
  function Entries(t: Tables, n: int): (r: Result<seq<EmployeeData>, FetchError>)
    requires 0 <= n <= |t.employees|
    ensures r.Success? ==> |r.value| == n
    ensures r.Success? ==> forall i :: 0 <= i < n ==> r.value[i].employee == t.employees[i].name
  {
    if n == 0 then Success([])
    else match Entries(t, n - 1)
      case Failure(e) => Failure(e)
      case Success(prev) =>
        match EmployeeEntry(t, t.employees[n - 1])
        case Failure(e) => Failure(e)
        case Success(entry) => Success(prev + [entry])
  }

  /** `fetchData()`: `employees.map(...)` over the employee rows. */
  method FetchData(t: Tables) returns (r: Result<seq<EmployeeData>, FetchError>)
    ensures r == Entries(t, |t.employees|)
  {
    var out: seq<EmployeeData> := [];
    for i := 0 to |t.employees|
      invariant Entries(t, i) == Success(out)
    {
      var next := NextEntries(t, i, out);
      if next.Failure? {
        FailureSticks(t, i + 1, |t.employees|);
        return next;
      }
      out := next.value;
    }
    r := Success(out);
  }

  /** One step of the `employees.map`: the next employee's entry is appended,
      or its error raises. */
  method NextEntries(t: Tables, i: int, out: seq<EmployeeData>) returns (r: Result<seq<EmployeeData>, FetchError>)
    requires 0 <= i < |t.employees| && Entries(t, i) == Success(out)
    ensures r == Entries(t, i + 1)
  {
    var entry := BuildEntry(t, t.employees[i]);
    EntriesStep(t, i, out, entry);
    if entry.Failure? {
      r := Failure(entry.error);
    } else {
      r := Success(out + [entry.value]);
    }
  }

  /** The callback for one employee row: the groups array built by
      conditional pushes, Lead first, then Patient Checkin, then Event. */
  method BuildEntry(t: Tables, emp: EmployeeRow) returns (r: Result<EmployeeData, FetchError>)
    ensures r == EmployeeEntry(t, emp)
  {
    var groups: seq<RecordGroup> := [];
    var ls := LeadRecords(t.leads, emp.id);
    if |ls| > 0 {
      groups := groups + [RecordGroup(Lead, ls)];
    }
    var cs := CheckinRecords(t.checkins, emp.id);
    if |cs| > 0 {
      groups := groups + [RecordGroup(PatientCheckin, cs)];
    }
    var evs := EventRecords(t, LinkedEvents(t, emp.id));
    if evs.Failure? {
      return Failure(evs.error);
    }
    if |evs.value| > 0 {
      groups := groups + [RecordGroup(Event, evs.value)];
    }
    assert groups == Groups(ls, cs, evs.value);
    r := Success(EmployeeData(emp.name, groups));
  }

  /** One step of the `employees.map`: the next entry is appended, or its
      error raises. */
  lemma EntriesStep(t: Tables, i: int, prev: seq<EmployeeData>, entry: Result<EmployeeData, FetchError>)
    requires 0 <= i < |t.employees| && Entries(t, i) == Success(prev)
    requires entry == EmployeeEntry(t, t.employees[i])
    ensures entry.Failure? ==> Entries(t, i + 1) == Failure(entry.error)
    ensures entry.Success? ==> Entries(t, i + 1) == Success(prev + [entry.value])
  {
  }

  /** Once an employee's entry raises, so does the whole call. */
  lemma {:induction false} FailureSticks(t: Tables, i: int, n: int)
    requires 0 <= i <= n <= |t.employees| && Entries(t, i).Failure?
    ensures Entries(t, n) == Entries(t, i)
    decreases n - i
  {
    if i < n {
      FailureSticks(t, i, n - 1);
    }
  }

  // ---------------------------------------------------------------------
  // Properties

  /** On success there is one entry per employee row, in table order: the
      entry of that row. */
  lemma {:induction false} EntriesShape(t: Tables, n: int)
    requires 0 <= n <= |t.employees| && Entries(t, n).Success?
    ensures |Entries(t, n).value| == n
    ensures forall i :: 0 <= i < n ==> EmployeeEntry(t, t.employees[i]) == Success(Entries(t, n).value[i])
    decreases n
  {
    if n > 0 {
      EntriesShape(t, n - 1);
      var prev := Entries(t, n - 1).value;
      var entry := EmployeeEntry(t, t.employees[n - 1]);
      EntriesStep(t, n - 1, prev, entry);
      var out := Entries(t, n).value;
      assert out == prev + [entry.value];
      forall i | 0 <= i < n ensures EmployeeEntry(t, t.employees[i]) == Success(out[i]) {
        if i < n - 1 {
          assert out[i] == prev[i];
        }
      }
    }
  }

  predicate HasEmployee(employees: seq<EmployeeRow>, id: int)
  {
    exists e :: e in employees && e.id == id
  }

  /** Some employee is linked to an event one of whose link rows names an
      employee id no row has. */
  ghost predicate DanglingLink(t: Tables)
  {
    exists i, ev, a, b ::
      && 0 <= i < |t.employees| && ev in t.events
      && a in t.eventEmployees && a.employeeId == t.employees[i].id && a.eventId == ev.id
      && b in t.eventEmployees && b.eventId == ev.id && !HasEmployee(t.employees, b.employeeId)
  }

  /** On success, the i-th name is that of the employee the i-th link row
      names: the event's `employees` follow link-table order. */
  lemma {:induction false} NamesSpec(employees: seq<EmployeeRow>, links: seq<EventEmployeeRow>, i: int)
    requires Names(employees, links).Success? && 0 <= i < |links|
    ensures EmployeeName(employees, links[i].employeeId) == Some(Names(employees, links).value[i])
    decreases |links|
  {
    if i > 0 {
      NamesSpec(employees, links[1..], i - 1);
    }
  }

  /** On success, the i-th event record carries the i-th event row's title and
      stamps and the names of its linked employees. */
  lemma {:induction false} EventRecordSpec(t: Tables, evs: seq<EventRow>, i: int)
    requires EventRecords(t, evs).Success? && 0 <= i < |evs|
    ensures Names(t.employees, EventLinks(t.eventEmployees, evs[i].id)).Success?
    ensures EventRecords(t, evs).value[i]
         == EventRecord(evs[i].title, evs[i].startTs, evs[i].endTs,
                        Names(t.employees, EventLinks(t.eventEmployees, evs[i].id)).value, evs[i].createTs)
    decreases |evs|
  {
    if i > 0 {
      EventRecordSpec(t, evs[1..], i - 1);
      assert evs[1..][i - 1] == evs[i];
    }
  }

  lemma {:induction false} NamesFail(employees: seq<EmployeeRow>, links: seq<EventEmployeeRow>)
    ensures Names(employees, links).Failure?
        <==> exists ee :: ee in links && !HasEmployee(employees, ee.employeeId)
    decreases |links|
  {
    if links != [] {
      NamesFail(employees, links[1..]);
      assert links == [links[0]] + links[1..];
    }
  }

  lemma {:induction false} EventRecordsFail(t: Tables, evs: seq<EventRow>)
    ensures EventRecords(t, evs).Failure?
        <==> exists ev :: ev in evs && Names(t.employees, EventLinks(t.eventEmployees, ev.id)).Failure?
    decreases |evs|
  {
    if evs != [] {
      EventRecordsFail(t, evs[1..]);
      var ev := evs[0];
      if Names(t.employees, EventLinks(t.eventEmployees, ev.id)).Failure? {
        assert ev in evs;
      } else {
        assert EventRecords(t, evs).Failure? <==> EventRecords(t, evs[1..]).Failure?;
        forall e ensures e in evs <==> e == ev || e in evs[1..] {
          assert evs == [ev] + evs[1..];
        }
      }
    }
  }

  lemma {:induction false} EntriesFail(t: Tables, n: int)
    requires 0 <= n <= |t.employees|
    ensures Entries(t, n).Failure? <==> exists i :: 0 <= i < n && EmployeeEntry(t, t.employees[i]).Failure?
    decreases n
  {
    if n > 0 {
      EntriesFail(t, n - 1);
      var last := EmployeeEntry(t, t.employees[n - 1]);
      if Entries(t, n - 1).Failure? {
        var i :| 0 <= i < n - 1 && EmployeeEntry(t, t.employees[i]).Failure?;
        assert 0 <= i < n;
      } else if last.Failure? {
        assert Entries(t, n).Failure?;
      } else {
        assert Entries(t, n).Success?;
        forall i | 0 <= i < n ensures EmployeeEntry(t, t.employees[i]).Success? {
          if i < n - 1 {
            assert !(0 <= i < n - 1 && EmployeeEntry(t, t.employees[i]).Failure?);
          }
        }
      }
    }
  }

  /** An event is in an employee's linked events exactly when some link row
      joins the two: so an event without link rows is in nobody's groups, and
      one linked to several employees is in each one's. */
  lemma LinkedEventsMembership(t: Tables, empId: int, ev: EventRow)
    ensures ev in LinkedEvents(t, empId)
        <==> ev in t.events
             && exists a :: a in t.eventEmployees && a.employeeId == empId && a.eventId == ev.id
  {
    var mine := Filter(t.eventEmployees, (ee: EventEmployeeRow) => ee.employeeId == empId);
    var ids := LinkedEventIds(t.eventEmployees, empId);
    FilterMembership(t.events, (e: EventRow) => e.id in ids, ev);
    MapMembership(mine, (ee: EventEmployeeRow) => ee.eventId, ev.id);
    forall a ensures a in mine <==> a in t.eventEmployees && a.employeeId == empId {
      FilterMembership(t.eventEmployees, (ee: EventEmployeeRow) => ee.employeeId == empId, a);
    }
  }

  /** fetchData raises exactly when some employee is linked to an event that
      has a link row naming a missing employee. */
  lemma FetchFailsIff(t: Tables)
    ensures Entries(t, |t.employees|).Failure? <==> DanglingLink(t)
  {
    EntriesFail(t, |t.employees|);
    if Entries(t, |t.employees|).Failure? {
      var i :| 0 <= i < |t.employees| && EmployeeEntry(t, t.employees[i]).Failure?;
      FailureIsDangling(t, i);
    }
    if DanglingLink(t) {
      var i := DanglingEmployee(t);
      assert 0 <= i < |t.employees| && EmployeeEntry(t, t.employees[i]).Failure?;
    }
  }

  /** The index of an employee whose entry raises because of a dangling link. */
  lemma DanglingEmployee(t: Tables) returns (i: int)
    requires DanglingLink(t)
    ensures 0 <= i < |t.employees| && EmployeeEntry(t, t.employees[i]).Failure?
  {
    var ev, a, b;
    i, ev, a, b :|
      && 0 <= i < |t.employees| && ev in t.events
      && a in t.eventEmployees && a.employeeId == t.employees[i].id && a.eventId == ev.id
      && b in t.eventEmployees && b.eventId == ev.id && !HasEmployee(t.employees, b.employeeId);
    DanglingIsFailure(t, i, ev, a, b);
  }

  lemma FailureIsDangling(t: Tables, i: int)
    requires 0 <= i < |t.employees| && EmployeeEntry(t, t.employees[i]).Failure?
    ensures DanglingLink(t)
  {
    var emp := t.employees[i];
    var evRows := LinkedEvents(t, emp.id);
    assert EventRecords(t, evRows).Failure?;
    EventRecordsFail(t, evRows);
    var ev :| ev in evRows && Names(t.employees, EventLinks(t.eventEmployees, ev.id)).Failure?;
    LinkedEventsMembership(t, emp.id, ev);
    var a :| a in t.eventEmployees && a.employeeId == emp.id && a.eventId == ev.id;
    var links := EventLinks(t.eventEmployees, ev.id);
    NamesFail(t.employees, links);
    var b :| b in links && !HasEmployee(t.employees, b.employeeId);
    FilterMembership(t.eventEmployees, (ee: EventEmployeeRow) => ee.eventId == ev.id, b);
  }

  lemma DanglingIsFailure(t: Tables, i: int, ev: EventRow, a: EventEmployeeRow, b: EventEmployeeRow)
    requires 0 <= i < |t.employees| && ev in t.events
    requires a in t.eventEmployees && a.employeeId == t.employees[i].id && a.eventId == ev.id
    requires b in t.eventEmployees && b.eventId == ev.id && !HasEmployee(t.employees, b.employeeId)
    ensures EmployeeEntry(t, t.employees[i]).Failure?
  {
    var emp := t.employees[i];
    var evRows := LinkedEvents(t, emp.id);
    LinkedEventsMembership(t, emp.id, ev);
    var links := EventLinks(t.eventEmployees, ev.id);
    FilterMembership(t.eventEmployees, (ee: EventEmployeeRow) => ee.eventId == ev.id, b);
    NamesFail(t.employees, links);
    EventRecordsFail(t, evRows);
    assert EventRecords(t, evRows).Failure?;
  }

  /** An employee's lead records are exactly the projections of the lead rows
      with that employee id, in table order. */
  lemma LeadRecordsSpec(leads: seq<LeadRow>, more: seq<LeadRow>, empId: int, x: AnyRecord)
    ensures x in LeadRecords(leads, empId)
        <==> exists l :: l in leads && l.employeeId == empId && x == LeadProjection(l)
    ensures LeadRecords(leads + more, empId) == LeadRecords(leads, empId) + LeadRecords(more, empId)
  {
    var p := (l: LeadRow) => l.employeeId == empId;
    MapMembership(Filter(leads, p), LeadProjection, x);
    forall l ensures l in Filter(leads, p) <==> l in leads && p(l) {
      FilterMembership(leads, p, l);
    }
    FilterAppend(leads, more, p);
    MapAppend(Filter(leads, p), Filter(more, p), LeadProjection);
  }

  /** An employee's check-in records are exactly the projections of the
      check-in rows with that employee id, in table order, none with a
      `create` stamp. */
  lemma CheckinRecordsSpec(checkins: seq<CheckinRow>, more: seq<CheckinRow>, empId: int, x: AnyRecord)
    ensures x in CheckinRecords(checkins, empId)
        <==> exists c :: c in checkins && c.employeeId == empId && x == CheckinProjection(c)
    ensures x in CheckinRecords(checkins, empId) ==> x.PatientCheckinRecord? && x.checkinCreate.None?
    ensures CheckinRecords(checkins + more, empId) == CheckinRecords(checkins, empId) + CheckinRecords(more, empId)
  {
    var p := (c: CheckinRow) => c.employeeId == empId;
    MapMembership(Filter(checkins, p), CheckinProjection, x);
    forall c ensures c in Filter(checkins, p) <==> c in checkins && p(c) {
      FilterMembership(checkins, p, c);
    }
    FilterAppend(checkins, more, p);
    MapAppend(Filter(checkins, p), Filter(more, p), CheckinProjection);
  }

  /** A repeated link row does not repeat the event: the employee's events are
      the same rows, each once, in events-table order. */
  lemma RepeatedLinkIgnored(t: Tables, a: EventEmployeeRow, empId: int)
    requires a in t.eventEmployees
    ensures LinkedEvents(t.(eventEmployees := t.eventEmployees + [a]), empId) == LinkedEvents(t, empId)
  {
    var t2 := t.(eventEmployees := t.eventEmployees + [a]);
    var ids1, ids2 := LinkedEventIds(t.eventEmployees, empId), LinkedEventIds(t2.eventEmployees, empId);
    forall ev | ev in t.events ensures (ev.id in ids2) == (ev.id in ids1) {
      LinkedEventsMembership(t, empId, ev);
      LinkedEventsMembership(t2, empId, ev);
      FilterMembership(t.events, (e: EventRow) => e.id in ids1, ev);
      FilterMembership(t2.events, (e: EventRow) => e.id in ids2, ev);
    }
    FilterCongruent(t.events, (e: EventRow) => e.id in ids2, (e: EventRow) => e.id in ids1);
  }

  function KindRank(k: RecordKind): int
  {
    match k
    case Lead => 0
    case PatientCheckin => 1
    case Event => 2
  }

  /** The groups of an entry come in the order Lead, Patient Checkin, Event,
      each kind at most once; there is a group of a kind exactly when that
      kind has records, and it holds exactly those records. */
  lemma GroupsFacts(ls: seq<AnyRecord>, cs: seq<AnyRecord>, evs: seq<AnyRecord>)
    ensures var gs := Groups(ls, cs, evs);
      forall j, k :: 0 <= j < k < |gs| ==> KindRank(gs[j].kind) < KindRank(gs[k].kind)
    ensures forall g :: g in Groups(ls, cs, evs) ==> |g.records| > 0
    ensures forall g :: g in Groups(ls, cs, evs) ==>
      g.records == (match g.kind case Lead => ls case PatientCheckin => cs case Event => evs)
    ensures (exists g :: g in Groups(ls, cs, evs) && g.kind == Lead) <==> |ls| > 0
    ensures (exists g :: g in Groups(ls, cs, evs) && g.kind == PatientCheckin) <==> |cs| > 0
    ensures (exists g :: g in Groups(ls, cs, evs) && g.kind == Event) <==> |evs| > 0
  {
    if |ls| > 0 {
      assert RecordGroup(Lead, ls) in Groups(ls, cs, evs);
    }
    if |cs| > 0 {
      assert RecordGroup(PatientCheckin, cs) in Groups(ls, cs, evs);
    }
    if |evs| > 0 {
      assert RecordGroup(Event, evs) in Groups(ls, cs, evs);
    }
  }

  /** An employee's entry is named after the row; its groups come in the
      order Lead, Patient Checkin, Event, each kind at most once, and every
      group is non-empty and holds only records of its kind. */
  lemma EntryShape(t: Tables, emp: EmployeeRow)
    requires EmployeeEntry(t, emp).Success?
    ensures EmployeeEntry(t, emp).value.employee == emp.name
    ensures forall g :: g in EmployeeEntry(t, emp).value.groups ==> |g.records| > 0 && WellFormedGroup(g)
    ensures var gs := EmployeeEntry(t, emp).value.groups;
      forall j, k :: 0 <= j < k < |gs| ==> KindRank(gs[j].kind) < KindRank(gs[k].kind)
  {
    var ls, cs := LeadRecords(t.leads, emp.id), CheckinRecords(t.checkins, emp.id);
    var evs := EventRecords(t, LinkedEvents(t, emp.id)).value;
    assert EmployeeEntry(t, emp) == Success(EmployeeData(emp.name, Groups(ls, cs, evs)));
    GroupsFacts(ls, cs, evs);
    RecordKinds(t, emp.id);
    GroupsWellFormed(ls, cs, evs);
  }

  /** Groups built from records of the right kinds hold only records of their kind. */
  lemma GroupsWellFormed(ls: seq<AnyRecord>, cs: seq<AnyRecord>, evs: seq<AnyRecord>)
    requires forall r :: r in ls ==> r.LeadRecord?
    requires forall r :: r in cs ==> r.PatientCheckinRecord?
    requires forall r :: r in evs ==> r.EventRecord?
    ensures forall g :: g in Groups(ls, cs, evs) ==> WellFormedGroup(g)
  {
    GroupsFacts(ls, cs, evs);
    forall g | g in Groups(ls, cs, evs) ensures WellFormedGroup(g) {
      assert g.records == (match g.kind case Lead => ls case PatientCheckin => cs case Event => evs);
    }
  }

  /** Lead projections are lead records, check-in projections check-in
      records, and an employee's event records event records. */
  lemma RecordKinds(t: Tables, empId: int)
    requires EventRecords(t, LinkedEvents(t, empId)).Success?
    ensures forall r :: r in LeadRecords(t.leads, empId) ==> r.LeadRecord?
    ensures forall r :: r in CheckinRecords(t.checkins, empId) ==> r.PatientCheckinRecord?
    ensures forall r :: r in EventRecords(t, LinkedEvents(t, empId)).value ==> r.EventRecord?
  {
    var evRows := LinkedEvents(t, empId);
    var evs := EventRecords(t, evRows).value;
    forall r | r in evs ensures r.EventRecord? {
      var i :| 0 <= i < |evs| && evs[i] == r;
      EventRecordSpec(t, evRows, i);
    }
    forall r | r in LeadRecords(t.leads, empId) ensures r.LeadRecord? {
      MapMembership(Filter(t.leads, (l: LeadRow) => l.employeeId == empId), LeadProjection, r);
    }
    forall r | r in CheckinRecords(t.checkins, empId) ensures r.PatientCheckinRecord? {
      MapMembership(Filter(t.checkins, (c: CheckinRow) => c.employeeId == empId), CheckinProjection, r);
    }
  }

  /** An employee's entry has a Lead group exactly when the employee has lead
      rows, a Patient Checkin group exactly when they have check-in rows, and
      an Event group exactly when a link row joins them to an event row. */
  lemma EntryPresence(t: Tables, emp: EmployeeRow)
    requires EmployeeEntry(t, emp).Success?
    ensures var gs := EmployeeEntry(t, emp).value.groups;
      (exists g :: g in gs && g.kind == Lead) <==> exists l :: l in t.leads && l.employeeId == emp.id
    ensures var gs := EmployeeEntry(t, emp).value.groups;
      (exists g :: g in gs && g.kind == PatientCheckin) <==> exists c :: c in t.checkins && c.employeeId == emp.id
    ensures var gs := EmployeeEntry(t, emp).value.groups;
      (exists g :: g in gs && g.kind == Event)
      <==> exists ev, a :: ev in t.events && a in t.eventEmployees && a.employeeId == emp.id && a.eventId == ev.id
  {
    var ls, cs := LeadRecords(t.leads, emp.id), CheckinRecords(t.checkins, emp.id);
    var evRows := LinkedEvents(t, emp.id);
    var evs := EventRecords(t, evRows).value;
    assert EmployeeEntry(t, emp) == Success(EmployeeData(emp.name, Groups(ls, cs, evs)));
    GroupsFacts(ls, cs, evs);
    FilterEmpty(t.leads, (l: LeadRow) => l.employeeId == emp.id);
    FilterEmpty(t.checkins, (c: CheckinRow) => c.employeeId == emp.id);
    LinkedEventsNonEmpty(t, emp.id);
  }

  /** An employee has linked events exactly when a link row joins them to an
      event row. */
  lemma LinkedEventsNonEmpty(t: Tables, empId: int)
    ensures |LinkedEvents(t, empId)| > 0
        <==> exists ev, a :: ev in t.events && a in t.eventEmployees && a.employeeId == empId && a.eventId == ev.id
  {
    var evRows := LinkedEvents(t, empId);
    if |evRows| > 0 {
      var ev := evRows[0];
      assert ev in evRows;
      LinkedEventsMembership(t, empId, ev);
    }
    if exists ev, a :: ev in t.events && a in t.eventEmployees && a.employeeId == empId && a.eventId == ev.id {
      var ev, a :| ev in t.events && a in t.eventEmployees && a.employeeId == empId && a.eventId == ev.id;
      LinkedEventsMembership(t, empId, ev);
    }
  }

  /** Each group of an entry holds exactly that employee's records of its
      kind: the lead projections, the check-in projections, or the linked
      events with their employee names. */
  lemma EntryContents(t: Tables, emp: EmployeeRow, g: RecordGroup)
    requires EmployeeEntry(t, emp).Success? && g in EmployeeEntry(t, emp).value.groups
    ensures g.kind == Lead ==> g.records == LeadRecords(t.leads, emp.id)
    ensures g.kind == PatientCheckin ==> g.records == CheckinRecords(t.checkins, emp.id)
    ensures g.kind == Event ==> g.records == EventRecords(t, LinkedEvents(t, emp.id)).value
  {
    var ls, cs := LeadRecords(t.leads, emp.id), CheckinRecords(t.checkins, emp.id);
    GroupsFacts(ls, cs, EventRecords(t, LinkedEvents(t, emp.id)).value);
  }
}
