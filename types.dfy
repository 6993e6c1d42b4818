/** The record shapes of src/types.ts.

    In the source a record is an untagged TypeScript union and the kind tag
    sits on the group that holds it; the layout reads a record's fields by
    casting it to the shape the group's tag names.  Here the shapes are a
    closed datatype, and the field reads the casts perform are the accessor
    functions below: a field the record does not have reads as `None`
    (JavaScript's `undefined`). */
module Types {
  import opened Wrappers

  /** `RecordKind`: exactly three kinds. */
  datatype RecordKind = Lead | Event | PatientCheckin

  /** The string tag a group carries on the wire. */
  function KindName(k: RecordKind): string
  {
    match k
    case Lead => "Lead"
    case Event => "Event"
    case PatientCheckin => "Patient Checkin"
  }

  /** Reading a tag back: the three names and nothing else. */
  function KindOfName(s: string): (r: Option<RecordKind>)
    ensures r.Some? ==> KindName(r.value) == s
    ensures r.None? <==> s !in {"Lead", "Event", "Patient Checkin"}
  {
    if s == "Lead" then Some(Lead)
    else if s == "Event" then Some(Event)
    else if s == "Patient Checkin" then Some(PatientCheckin)
    else None
  }

  /** Every kind has a tag among the three names, and reading it back gives the kind. */
  lemma KindNameRoundTrip(k: RecordKind)
    ensures KindName(k) in {"Lead", "Event", "Patient Checkin"}
    ensures KindOfName(KindName(k)) == Some(k)
  {
  }

  /** `AnyRecord = LeadRecord | EventRecord | PatientCheckinRecord`.
      `create` is declared on every shape; fetchData's check-in projection
      leaves it out, so on a check-in it is optional. */
  datatype AnyRecord =
    | LeadRecord(firstname: string, lastname: string, create: string)
    | EventRecord(title: string, start: string, end: string, employees: seq<string>, create: string)
    | PatientCheckinRecord(patient: string, notes: string, checkin: string, checkinCreate: Option<string>)

  /** The shape a kind tag promises. */
  predicate HasShape(k: RecordKind, r: AnyRecord)
  {
    match k
    case Lead => r.LeadRecord?
    case Event => r.EventRecord?
    case PatientCheckin => r.PatientCheckinRecord?
  }

  /** `r.create` */
  function CreateField(r: AnyRecord): (f: Option<string>)
    ensures r.LeadRecord? || r.EventRecord? ==> f == Some(r.create)
  {
    match r
    case LeadRecord(_, _, c) => Some(c)
    case EventRecord(_, _, _, _, c) => Some(c)
    case PatientCheckinRecord(_, _, _, c) => c
  }

  /** `r.start`: only an event has one. */
  function StartField(r: AnyRecord): (f: Option<string>)
    ensures f.Some? <==> r.EventRecord?
  {
    if r.EventRecord? then Some(r.start) else None
  }

  /** `r.checkin`: only a check-in has one. */
  function CheckinField(r: AnyRecord): (f: Option<string>)
    ensures f.Some? <==> r.PatientCheckinRecord?
  {
    if r.PatientCheckinRecord? then Some(r.checkin) else None
  }

  /** `RecordGroup`: a kind tag and the records under it. */
  datatype RecordGroup = RecordGroup(kind: RecordKind, records: seq<AnyRecord>)

  /** A group whose records all have the shape its tag names.  The layout
      does not require it; fetchData produces only such groups. */
  predicate WellFormedGroup(g: RecordGroup)
  {
    forall r :: r in g.records ==> HasShape(g.kind, r)
  }

  /** `EmployeeData`: one roster entry and that employee's groups. */
  datatype EmployeeData = EmployeeData(employee: string, groups: seq<RecordGroup>)

  /** `kind: "circle" | "pill"` of a calendar item. */
  datatype Shape = Circle | Pill

  /** `CalendarItem` (the layout's `Positioned`), without the palette colour.
      `col` is 1-based; `top` and `height` are pixels. */
  datatype CalendarItem = CalendarItem(
    day: int, col: int, top: real, height: real,
    shape: Shape, rec: AnyRecord, kind: RecordKind)
}
