/** The weekly calendar layout of src/components/WeeklyCalendar.tsx: every
    record of every employee's groups becomes zero or more positioned items
    of a grid of 7 days by one column per employee. */
module WeeklyCalendar {
  import opened Wrappers
  import opened Types
  import opened Dates
  import opened Seqs

  /** `HOUR_HEIGHT`: pixels per hour, so 2/3 of a pixel per minute. */
  const HourHeight: real := 40.0
  const PxPerMinute: real := HourHeight / 60.0

  /** A circle is 12 pixels high and centred on its instant. */
  const CircleHeight: real := 12.0
  const CircleOffset: real := 6.0

  /** A pill is never shorter than half an hour's height. */
  const MinPillHeight: real := HourHeight / 2.0

  function Max(a: real, b: real): real
  {
    if a < b then b else a
  }

  /** `data.findIndex(e => e.employee === name)`: the first employee with
      exactly that name, or -1. */
  function FindEmployee(data: seq<EmployeeData>, name: string): (idx: int)
    ensures -1 <= idx < |data|
    ensures idx == -1 <==> forall i :: 0 <= i < |data| ==> data[i].employee != name
    ensures idx != -1 ==> data[idx].employee == name
    ensures forall i :: 0 <= i < idx ==> data[i].employee != name
    decreases |data|
  {
    if data == [] then -1
    else
      var k := FindEmployee(data[..|data| - 1], name);
      if k != -1 then k
      else if data[|data| - 1].employee == name then |data| - 1
      else -1
  }

  /** The test of line 67: the roster has an employee of that name. */
  function Known(data: seq<EmployeeData>): string -> bool
  {
    (n: string) => FindEmployee(data, n) != -1
  }

  /** The participant names the roster knows, in list order. */
  function KnownNames(data: seq<EmployeeData>, names: seq<string>): seq<string>
  {
    Filter(names, Known(data))
  }

  /** The names kept are exactly the listed names some employee has. */
  lemma KnownNamesMembership(data: seq<EmployeeData>, names: seq<string>, n: string)
    ensures n in KnownNames(data, names) <==> n in names && FindEmployee(data, n) != -1
  {
    FilterMembership(names, Known(data), n);
  }

  /** Listing one more name keeps the known names so far and adds that name
      when the roster knows it. */
  lemma KnownNamesSnoc(data: seq<EmployeeData>, names: seq<string>, last: string)
    ensures KnownNames(data, names + [last])
         == KnownNames(data, names) + (if FindEmployee(data, last) == -1 then [] else [last])
  {
    FilterAppend(names, [last], Known(data));
    assert Filter([last], Known(data)) == (if FindEmployee(data, last) == -1 then [] else [last]) + Filter([], Known(data));
  }

  /** The time stamp a record is filed under, read as the layout reads it:
      `start` in an Event group, `checkin` in a Patient Checkin group, and
      `create` in any other. */
  function KeyTimestamp(kind: RecordKind, r: AnyRecord): Option<string>
  {
    match kind
    case Event => StartField(r)
    case PatientCheckin => CheckinField(r)
    case Lead => CreateField(r)
  }

  /** The week filter: the key time stamp exists and lies in the week. */
  predicate Selected(kind: RecordKind, r: AnyRecord, base: Instant)
  {
    KeyTimestamp(kind, r).Some? && InSameWeek(KeyTimestamp(kind, r).value, base)
  }

  /** In a group whose records have the shape its tag names, as every group
      fetchData builds does, the key time stamp is always present: an event's
      `start`, a check-in's `checkin`, a lead's `create`. */
  lemma WellFormedKeyTimestamp(g: RecordGroup, r: AnyRecord, base: Instant)
    requires WellFormedGroup(g) && r in g.records
    ensures KeyTimestamp(g.kind, r).Some?
    ensures g.kind == Event ==> r.EventRecord? && KeyTimestamp(g.kind, r) == Some(r.start)
    ensures g.kind == PatientCheckin ==> r.PatientCheckinRecord? && KeyTimestamp(g.kind, r) == Some(r.checkin)
    ensures g.kind == Lead ==> r.LeadRecord? && KeyTimestamp(g.kind, r) == Some(r.create)
    ensures Selected(g.kind, r, base) <==> InSameWeek(KeyTimestamp(g.kind, r).value, base)
  {
    assert HasShape(g.kind, r);
  }

  /** An event the filter selects has an `end` that parses. */
  predicate EndReadable(kind: RecordKind, r: AnyRecord, base: Instant)
  {
    kind == Event && Selected(kind, r, base) ==> ToDate(r.end).Some?
  }

  predicate GroupEndsReadable(g: RecordGroup, base: Instant)
  {
    forall r :: r in g.records ==> EndReadable(g.kind, r, base)
  }

  predicate GroupsEndsReadable(groups: seq<RecordGroup>, base: Instant)
  {
    forall g :: g in groups ==> GroupEndsReadable(g, base)
  }

  predicate EndsReadable(data: seq<EmployeeData>, base: Instant)
  {
    forall e :: e in data ==> GroupsEndsReadable(e.groups, base)
  }

  function PillTop(st: Instant): real
  {
    MinutesFromDayStart(st) as real * PxPerMinute
  }

  function PillHeight(st: Instant, en: Instant): real
  {
    Max(DifferenceInMinutes(en, st) as real * PxPerMinute, MinPillHeight)
  }

  function CircleTop(t: Instant): real
  {
    MinutesFromDayStart(t) as real * PxPerMinute - CircleOffset
  }

  /** One pill per listed name the roster knows, in the first column with
      that name (lines 65-80). */
  function Pills(data: seq<EmployeeData>, names: seq<string>, day: int, top: real, height: real, r: AnyRecord)
    : seq<CalendarItem>
    decreases |names|
  {
    if names == [] then []
    else
      var idx := FindEmployee(data, names[|names| - 1]);
      Pills(data, names[..|names| - 1], day, top, height, r)
        + (if idx == -1 then [] else [CalendarItem(day, idx + 1, top, height, Pill, r, Event)])
  }

  /** The items one record of employee `colIdx`'s group of kind `kind`
      yields.  The week filter: a record whose key time stamp is missing,
      unparseable or outside the week yields nothing; a selected lead or
      check-in yields one circle, a selected event one pill per participant
      the roster knows.  An event's `end` plays no part in the choice. */
  function RecordItems(data: seq<EmployeeData>, colIdx: int, kind: RecordKind, r: AnyRecord, base: Instant)
    : (items: seq<CalendarItem>)
    requires EndReadable(kind, r, base)
    ensures items != [] ==> Selected(kind, r, base)
    ensures kind != Event ==> (|items| == 1 <==> Selected(kind, r, base))
    ensures kind == Event ==> |items| == if Selected(kind, r, base) then |KnownNames(data, r.employees)| else 0
  {
    if !Selected(kind, r, base) then []
    else if kind == Event then
      var st, en := ToDate(r.start).value, ToDate(r.end).value;
      var day, top, height := DayIndexFromWeekStart(st, base), PillTop(st), PillHeight(st, en);
      PillsAreKnownNames(data, r.employees, day, top, height, r);
      Pills(data, r.employees, day, top, height, r)
    else
      var t := ToDate(KeyTimestamp(kind, r).value).value;
      [CalendarItem(DayIndexFromWeekStart(t, base), colIdx + 1, CircleTop(t), CircleHeight, Circle, r, kind)]
  }

  function GroupItems(data: seq<EmployeeData>, colIdx: int, kind: RecordKind, recs: seq<AnyRecord>, base: Instant)
    : seq<CalendarItem>
    requires forall r :: r in recs ==> EndReadable(kind, r, base)
    decreases |recs|
  {
    if recs == [] then []
    else
      GroupItems(data, colIdx, kind, recs[..|recs| - 1], base)
        + RecordItems(data, colIdx, kind, recs[|recs| - 1], base)
  }

  function EmployeeItems(data: seq<EmployeeData>, colIdx: int, groups: seq<RecordGroup>, base: Instant)
    : seq<CalendarItem>
    requires GroupsEndsReadable(groups, base)
    decreases |groups|
  {
    if groups == [] then []
    else
      var g, init := groups[|groups| - 1], groups[..|groups| - 1];
      assert g in groups && forall h :: h in init ==> h in groups;
      EmployeeItems(data, colIdx, init, base)
        + GroupItems(data, colIdx, g.kind, g.records, base)
  }

  /** The items of the first `n` employees. */
  function AllItems(data: seq<EmployeeData>, n: int, base: Instant): seq<CalendarItem>
    requires 0 <= n <= |data| && EndsReadable(data, base)
    decreases n
  {
    if n == 0 then []
    else AllItems(data, n - 1, base) + EmployeeItems(data, n - 1, data[n - 1].groups, base)
  }

  /** The layout: employees in order, their groups in order, the records of a
      group in order, and an event's participants in list order; nothing
      sorted, nothing removed. */
  function Items(data: seq<EmployeeData>, base: Instant): (items: seq<CalendarItem>)
    requires EndsReadable(data, base)
    ensures IsWeekStart(base) ==> forall it :: it in items ==> Placed(data, base, it)
  {
    AllPlacedIfWeekStart(data, base);
    AllItems(data, |data|, base)
  }

  /** The `items` computation (lines 47-109): the week start is normalised to
      its Sunday, then the loop over employees (line 54) pushes each
      employee's items; the nested `forEach` callbacks are the methods below. */
  method Layout(data: seq<EmployeeData>, weekStart: Instant) returns (out: seq<CalendarItem>)
    requires EndsReadable(data, NormalizeWeekStart(weekStart))
    ensures out == Items(data, NormalizeWeekStart(weekStart))
  {
    var base := NormalizeWeekStart(weekStart);
    out := [];
    var colIdx := 0;
    while colIdx < |data|
      invariant 0 <= colIdx <= |data|
      invariant out == AllItems(data, colIdx, base)
    {
      var items := EmployeeLayout(data, colIdx, base);
      out := out + items;
      colIdx := colIdx + 1;
    }
  }

  /** The callback for employee `colIdx` (lines 54-106): its groups in order. */
  method EmployeeLayout(data: seq<EmployeeData>, colIdx: int, base: Instant) returns (out: seq<CalendarItem>)
    requires 0 <= colIdx < |data| && EndsReadable(data, base)
    ensures out == EmployeeItems(data, colIdx, data[colIdx].groups, base)
  {
    var groups := data[colIdx].groups;
    assert data[colIdx] in data;
    out := [];
    var j := 0;
    while j < |groups|
      invariant 0 <= j <= |groups|
      invariant out == EmployeeItems(data, colIdx, groups[..j], base)
    {
      var grp := groups[j];
      assert grp in groups;
      var items := GroupLayout(data, colIdx, grp, base);
      EmployeeItemsSnoc(data, colIdx, groups, j, base);
      out := out + items;
      j := j + 1;
    }
    assert groups[..j] == groups;
  }

  /** The callback for one group (lines 55-105): its records in order. */
  method GroupLayout(data: seq<EmployeeData>, colIdx: int, grp: RecordGroup, base: Instant)
    returns (out: seq<CalendarItem>)
    requires GroupEndsReadable(grp, base)
    ensures out == GroupItems(data, colIdx, grp.kind, grp.records, base)
  {
    out := [];
    var k := 0;
    while k < |grp.records|
      invariant 0 <= k <= |grp.records|
      invariant out == GroupItems(data, colIdx, grp.kind, grp.records[..k], base)
    {
      assert grp.records[k] in grp.records;
      var items := RecordLayout(data, colIdx, grp.kind, grp.records[k], base);
      GroupItemsSnoc(data, colIdx, grp, k, base);
      out := out + items;
      k := k + 1;
    }
    assert grp.records[..k] == grp.records;
  }

  lemma EmployeeItemsSnoc(data: seq<EmployeeData>, colIdx: int, groups: seq<RecordGroup>, j: int, base: Instant)
    requires GroupsEndsReadable(groups, base) && 0 <= j < |groups|
    ensures GroupsEndsReadable(groups[..j + 1], base) && GroupEndsReadable(groups[j], base)
    ensures EmployeeItems(data, colIdx, groups[..j + 1], base)
         == EmployeeItems(data, colIdx, groups[..j], base)
            + GroupItems(data, colIdx, groups[j].kind, groups[j].records, base)
  {
    assert groups[j] in groups;
    assert forall g :: g in groups[..j + 1] ==> g in groups;
    assert groups[..j + 1][..j] == groups[..j];
  }

  lemma GroupItemsSnoc(data: seq<EmployeeData>, colIdx: int, grp: RecordGroup, k: int, base: Instant)
    requires GroupEndsReadable(grp, base) && 0 <= k < |grp.records|
    ensures GroupItems(data, colIdx, grp.kind, grp.records[..k + 1], base)
         == GroupItems(data, colIdx, grp.kind, grp.records[..k], base)
            + RecordItems(data, colIdx, grp.kind, grp.records[k], base)
  {
    assert grp.records[..k + 1][..k] == grp.records[..k];
  }

  /** The body of the innermost loop (lines 57-103) for one record `r` of
      employee `colIdx`'s group of kind `kind`: what it pushes. */
  method RecordLayout(data: seq<EmployeeData>, colIdx: int, kind: RecordKind, r: AnyRecord, base: Instant)
    returns (out: seq<CalendarItem>)
    requires EndReadable(kind, r, base)
    ensures out == RecordItems(data, colIdx, kind, r, base)
  {
    out := [];
    if kind == Event {
      if r.EventRecord? && InSameWeek(r.start, base) {
        var st := ToDate(r.start).value;
        var en := ToDate(r.end).value;
        var day, top, height := DayIndexFromWeekStart(st, base), PillTop(st), PillHeight(st, en);
        out := PillLayout(data, r.employees, day, top, height, r);
        assert Selected(kind, r, base);
      } else {
        assert !Selected(kind, r, base);
      }
    } else {
      var ts := if kind == PatientCheckin then CheckinField(r) else CreateField(r);
      if ts.Some? && InSameWeek(ts.value, base) {
        var d := ToDate(ts.value).value;
        var day := DayIndexFromWeekStart(d, base);
        out := [CalendarItem(day, colIdx + 1, CircleTop(d), CircleHeight, Circle, r, kind)];
        assert ts == KeyTimestamp(kind, r) && Selected(kind, r, base);
      } else {
        assert ts == KeyTimestamp(kind, r) && !Selected(kind, r, base);
      }
    }
  }

  /** The `ev.employees.forEach` of lines 65-81: a pill for each name the
      roster knows, skipping the others. */
  method PillLayout(data: seq<EmployeeData>, names: seq<string>, day: int, top: real, height: real, r: AnyRecord)
    returns (out: seq<CalendarItem>)
    ensures out == Pills(data, names, day, top, height, r)
  {
    out := [];
    var p := 0;
    while p < |names|
      invariant 0 <= p <= |names|
      invariant out == Pills(data, names[..p], day, top, height, r)
    {
      var idx := FindEmployee(data, names[p]);
      assert names[..p + 1][..p] == names[..p];
      if idx != -1 {
        out := out + [CalendarItem(day, idx + 1, top, height, Pill, r, Event)];
      }
      p := p + 1;
    }
    assert names[..p] == names;
  }

  // ---------------------------------------------------------------------
  // The grid cells (lines 146-160)

  /** What a cell hands to its column: the item without its address. */
  datatype ColumnItem = ColumnItem(top: real, height: real, shape: Shape, rec: AnyRecord, kind: RecordKind)

  predicate InCell(it: CalendarItem, di: int, ei: int)
  {
    it.day == di && it.col == ei + 1
  }

  /** `items.filter(it => it.day === di && it.col === ei + 1)`. */
  function CellFilter(items: seq<CalendarItem>, di: int, ei: int): seq<CalendarItem>
  {
    Filter(items, it => InCell(it, di, ei))
  }

  /** The `.map(({ top, height, kind, color, rec, type }) => ...)` of one item. */
  function ToColumnItem(it: CalendarItem): ColumnItem
  {
    ColumnItem(it.top, it.height, it.shape, it.rec, it.kind)
  }

  /** The items of day `di` in employee `ei`'s column, in layout order: exactly
      the items addressed to that cell, without their address. */
  function CellItems(items: seq<CalendarItem>, di: int, ei: int): (r: seq<ColumnItem>)
    ensures forall c :: c in r <==> exists it :: it in items && InCell(it, di, ei) && c == ToColumnItem(it)
  {
    CellMembership(items, di, ei);
    Map(CellFilter(items, di, ei), ToColumnItem)
  }

  lemma CellMembership(items: seq<CalendarItem>, di: int, ei: int)
    ensures forall c :: c in Map(CellFilter(items, di, ei), ToColumnItem)
                        <==> exists it :: it in items && InCell(it, di, ei) && c == ToColumnItem(it)
  {
    forall c ensures c in Map(CellFilter(items, di, ei), ToColumnItem)
                     <==> exists it :: it in items && InCell(it, di, ei) && c == ToColumnItem(it)
    {
      MapMembership(CellFilter(items, di, ei), ToColumnItem, c);
      forall it ensures it in CellFilter(items, di, ei) <==> it in items && InCell(it, di, ei) {
        FilterMembership(items, x => InCell(x, di, ei), it);
      }
    }
  }

  // ---------------------------------------------------------------------
  // Properties of the layout

  /** An event's pills are exactly one per known participant, in list order:
      the i-th pill goes to the first column named like the i-th known name,
      and all of them share the day, top and height. */
  lemma {:induction false} PillsAreKnownNames(
    data: seq<EmployeeData>, names: seq<string>, day: int, top: real, height: real, r: AnyRecord)
    ensures |Pills(data, names, day, top, height, r)| == |KnownNames(data, names)|
    ensures forall i :: 0 <= i < |KnownNames(data, names)| ==>
      Pills(data, names, day, top, height, r)[i]
        == CalendarItem(day, FindEmployee(data, KnownNames(data, names)[i]) + 1, top, height, Pill, r, Event)
    decreases |names|
  {
    if names != [] {
      var init, last := names[..|names| - 1], names[|names| - 1];
      PillsAreKnownNames(data, init, day, top, height, r);
      var idx := FindEmployee(data, last);
      assert Pills(data, names, day, top, height, r)
          == Pills(data, init, day, top, height, r)
             + (if idx == -1 then [] else [CalendarItem(day, idx + 1, top, height, Pill, r, Event)]);
      assert names == init + [last];
      KnownNamesSnoc(data, init, last);
    }
  }

  /** Every pill of a name list lies in a column whose employee is on the list. */
  lemma {:induction false} PillColumns(
    data: seq<EmployeeData>, names: seq<string>, day: int, top: real, height: real, r: AnyRecord)
    ensures forall it :: it in Pills(data, names, day, top, height, r) ==>
      it.shape == Pill && it.kind == Event && it.rec == r && it.day == day && it.top == top && it.height == height
      && 1 <= it.col <= |data| && data[it.col - 1].employee in names
    decreases |names|
  {
    if names != [] {
      var init, last := names[..|names| - 1], names[|names| - 1];
      PillColumns(data, init, day, top, height, r);
      assert last in names && forall n :: n in init ==> n in names;
    }
  }

  /** A selected Lead or Patient Checkin record yields one circle in its
      owner's column, 12 pixels high, its top 6 pixels above its instant at
      2/3 of a pixel per minute (so -6 at midnight: it is not clamped). */
  lemma CircleGeometry(data: seq<EmployeeData>, colIdx: int, kind: RecordKind, r: AnyRecord, base: Instant)
    requires kind != Event && Selected(kind, r, base)
    ensures var items := RecordItems(data, colIdx, kind, r, base);
      var t := ToDate(KeyTimestamp(kind, r).value).value;
      && |items| == 1
      && items[0].shape == Circle && items[0].kind == kind && items[0].rec == r
      && items[0].col == colIdx + 1
      && items[0].day == DayIndexFromWeekStart(t, base)
      && items[0].height == 12.0
      && items[0].top == MinutesFromDayStart(t) as real * 2.0 / 3.0 - 6.0
      && -6.0 <= items[0].top < 954.0
      && (items[0].top == -6.0 <==> MinutesFromDayStart(t) == 0)
  {
    CircleTopRange(ToDate(KeyTimestamp(kind, r).value).value);
  }

  lemma CircleTopRange(t: Instant)
    ensures CircleTop(t) == MinutesFromDayStart(t) as real * 2.0 / 3.0 - 6.0
    ensures -6.0 <= CircleTop(t) < 954.0
    ensures CircleTop(t) == -6.0 <==> MinutesFromDayStart(t) == 0
  {
    assert PxPerMinute == 2.0 / 3.0;
  }

  /** A selected event yields its pills with a shared geometry: the top at
      2/3 of a pixel per minute after midnight, the height 2/3 of a pixel per
      minute of duration but never below 20 pixels, which is the height
      whenever the event does not end after it starts. */
  lemma EventGeometry(data: seq<EmployeeData>, colIdx: int, r: AnyRecord, base: Instant)
    requires Selected(Event, r, base) && EndReadable(Event, r, base)
    ensures r.EventRecord?
    ensures var items := RecordItems(data, colIdx, Event, r, base);
      var st, en := ToDate(r.start).value, ToDate(r.end).value;
      forall it :: it in items ==>
        && it.shape == Pill && it.kind == Event && it.rec == r
        && it.day == DayIndexFromWeekStart(st, base)
        && it.top == MinutesFromDayStart(st) as real * 2.0 / 3.0
        && it.height >= 20.0
        && it.height >= (en - st) as real * 2.0 / 3.0
        && (it.height == 20.0 || it.height == (en - st) as real * 2.0 / 3.0)
        && (en <= st ==> it.height == 20.0)
        && 1 <= it.col <= |data| && data[it.col - 1].employee in r.employees
  {
    var st, en := ToDate(r.start).value, ToDate(r.end).value;
    var day, top, height := DayIndexFromWeekStart(st, base), PillTop(st), PillHeight(st, en);
    assert RecordItems(data, colIdx, Event, r, base) == Pills(data, r.employees, day, top, height, r);
    PillColumns(data, r.employees, day, top, height, r);
    PillGeometry(st, en);
  }

  lemma PillGeometry(st: Instant, en: Instant)
    ensures PillTop(st) == MinutesFromDayStart(st) as real * 2.0 / 3.0
    ensures var h, d := PillHeight(st, en), (en - st) as real * 2.0 / 3.0;
      h >= 20.0 && h >= d && (h == 20.0 || h == d) && (en <= st ==> h == 20.0)
  {
    assert PxPerMinute == 2.0 / 3.0 && MinPillHeight == 20.0;
  }

  /** Which employee's group lists an event does not matter to its pills. */
  lemma EventPillsIgnoreOwner(data: seq<EmployeeData>, c1: int, c2: int, r: AnyRecord, base: Instant)
    requires EndReadable(Event, r, base)
    ensures RecordItems(data, c1, Event, r, base) == RecordItems(data, c2, Event, r, base)
  {
  }

  // ---------------------------------------------------------------------
  // How often an event is drawn

  /** Is `it` a pill of record `r`? */
  function IsPillOf(r: AnyRecord): CalendarItem -> bool
  {
    (it: CalendarItem) => it.rec == r && it.shape == Pill
  }

  /** The pills of record `r` among `items`. */
  function PillsOf(items: seq<CalendarItem>, r: AnyRecord): seq<CalendarItem>
  {
    Filter(items, IsPillOf(r))
  }

  /** The pills one listing of event `r` yields: one per known participant
      when its start is in the week, none otherwise. */
  function PillsPerListing(data: seq<EmployeeData>, r: AnyRecord, base: Instant): nat
  {
    if Selected(Event, r, base) then |KnownNames(data, r.employees)| else 0
  }

  /** How many times `r` occurs in `recs`. */
  function Occurrences(recs: seq<AnyRecord>, r: AnyRecord): nat
    decreases |recs|
  {
    if recs == [] then 0
    else Occurrences(recs[..|recs| - 1], r) + (if recs[|recs| - 1] == r then 1 else 0)
  }

  /** How many times `r` is listed in the Event groups of `groups`. */
  function GroupListings(groups: seq<RecordGroup>, r: AnyRecord): nat
    decreases |groups|
  {
    if groups == [] then 0
    else
      var g := groups[|groups| - 1];
      GroupListings(groups[..|groups| - 1], r) + (if g.kind == Event then Occurrences(g.records, r) else 0)
  }

  /** How many times `r` is listed in the Event groups of the first `n` employees. */
  function Listings(data: seq<EmployeeData>, n: int, r: AnyRecord): nat
    requires 0 <= n <= |data|
    decreases n
  {
    if n == 0 then 0 else Listings(data, n - 1, r) + GroupListings(data[n - 1].groups, r)
  }

  /** `k` times `c`, as repeated addition: `c` pills for each of `k` listings. */
  function Repeat(k: nat, c: nat): nat
  {
    if k == 0 then 0 else Repeat(k - 1, c) + c
  }

  lemma {:induction false} RepeatAdd(a: nat, b: nat, c: nat)
    ensures Repeat(a + b, c) == Repeat(a, c) + Repeat(b, c)
    decreases b
  {
    if b > 0 {
      RepeatAdd(a, b - 1, c);
    }
  }

  lemma {:induction false} RepeatIsProduct(k: nat, c: nat)
    ensures Repeat(k, c) == k * c
    decreases k
  {
    if k > 0 {
      RepeatIsProduct(k - 1, c);
    }
  }

  /** Two counts of `c` per listing add up. */
  lemma RepeatSum(total: nat, a: nat, b: nat, k: nat, ka: nat, kb: nat, c: nat)
    requires total == a + b && k == ka + kb && a == Repeat(ka, c) && b == Repeat(kb, c)
    ensures total == Repeat(k, c)
  {
    RepeatAdd(ka, kb, c);
  }

  /** One record yields pills of `r` only when it is `r` listed in an Event group. */
  lemma RecordPillCount(data: seq<EmployeeData>, colIdx: int, kind: RecordKind, x: AnyRecord, r: AnyRecord, base: Instant)
    requires EndReadable(kind, x, base)
    ensures |PillsOf(RecordItems(data, colIdx, kind, x, base), r)|
         == if kind == Event && x == r then PillsPerListing(data, r, base) else 0
  {
    var items := RecordItems(data, colIdx, kind, x, base);
    if Selected(kind, x, base) {
      if kind == Event {
        var st, en := ToDate(x.start).value, ToDate(x.end).value;
        PillColumns(data, x.employees, DayIndexFromWeekStart(st, base), PillTop(st), PillHeight(st, en), x);
        if x == r {
          FilterAll(items, IsPillOf(r));
        } else {
          FilterEmpty(items, IsPillOf(r));
        }
      } else {
        assert forall it :: it in items ==> it.shape == Circle;
        FilterEmpty(items, IsPillOf(r));
      }
    }
  }

  /** Pills of `r` add up over concatenated items. */
  lemma PillsOfAppend(xs: seq<CalendarItem>, ys: seq<CalendarItem>, r: AnyRecord)
    ensures |PillsOf(xs + ys, r)| == |PillsOf(xs, r)| + |PillsOf(ys, r)|
  {
    FilterAppend(xs, ys, IsPillOf(r));
  }

  /** The last record of a group, split off: its pills add to those of the rest. */
  lemma GroupPillsLast(data: seq<EmployeeData>, colIdx: int, kind: RecordKind, recs: seq<AnyRecord>, r: AnyRecord, base: Instant)
    requires recs != [] && forall x :: x in recs ==> EndReadable(kind, x, base)
    ensures forall x :: x in recs[..|recs| - 1] ==> EndReadable(kind, x, base)
    ensures EndReadable(kind, recs[|recs| - 1], base)
    ensures |PillsOf(GroupItems(data, colIdx, kind, recs, base), r)|
         == |PillsOf(GroupItems(data, colIdx, kind, recs[..|recs| - 1], base), r)|
          + |PillsOf(RecordItems(data, colIdx, kind, recs[|recs| - 1], base), r)|
    ensures Occurrences(recs, r) == Occurrences(recs[..|recs| - 1], r) + (if recs[|recs| - 1] == r then 1 else 0)
  {
    assert recs[|recs| - 1] in recs;
    PillsOfAppend(GroupItems(data, colIdx, kind, recs[..|recs| - 1], base),
                  RecordItems(data, colIdx, kind, recs[|recs| - 1], base), r);
  }

  /** The last group of an employee, split off: its pills add to those of the rest. */
  lemma EmployeePillsLast(data: seq<EmployeeData>, colIdx: int, groups: seq<RecordGroup>, r: AnyRecord, base: Instant)
    requires groups != [] && GroupsEndsReadable(groups, base)
    ensures GroupsEndsReadable(groups[..|groups| - 1], base)
    ensures GroupEndsReadable(groups[|groups| - 1], base)
    ensures |PillsOf(EmployeeItems(data, colIdx, groups, base), r)|
         == |PillsOf(EmployeeItems(data, colIdx, groups[..|groups| - 1], base), r)|
          + |PillsOf(GroupItems(data, colIdx, groups[|groups| - 1].kind, groups[|groups| - 1].records, base), r)|
    ensures GroupListings(groups, r)
         == GroupListings(groups[..|groups| - 1], r)
          + (if groups[|groups| - 1].kind == Event then Occurrences(groups[|groups| - 1].records, r) else 0)
  {
    assert groups[|groups| - 1] in groups;
    PillsOfAppend(EmployeeItems(data, colIdx, groups[..|groups| - 1], base),
                  GroupItems(data, colIdx, groups[|groups| - 1].kind, groups[|groups| - 1].records, base), r);
  }

  /** The last employee, split off: their pills add to those of the rest. */
  lemma AllPillsLast(data: seq<EmployeeData>, n: int, r: AnyRecord, base: Instant)
    requires 0 < n <= |data| && EndsReadable(data, base)
    ensures GroupsEndsReadable(data[n - 1].groups, base)
    ensures |PillsOf(AllItems(data, n, base), r)|
         == |PillsOf(AllItems(data, n - 1, base), r)| + |PillsOf(EmployeeItems(data, n - 1, data[n - 1].groups, base), r)|
    ensures Listings(data, n, r) == Listings(data, n - 1, r) + GroupListings(data[n - 1].groups, r)
  {
    assert data[n - 1] in data;
    PillsOfAppend(AllItems(data, n - 1, base), EmployeeItems(data, n - 1, data[n - 1].groups, base), r);
  }

  /** `RecordPillCount` as a count of listings: one listing exactly when the
      record is `r` in an Event group. */
  lemma RecordPills(data: seq<EmployeeData>, colIdx: int, kind: RecordKind, x: AnyRecord, r: AnyRecord, base: Instant)
    requires EndReadable(kind, x, base)
    ensures |PillsOf(RecordItems(data, colIdx, kind, x, base), r)|
         == Repeat(if kind == Event && x == r then 1 else 0, PillsPerListing(data, r, base))
  {
    RecordPillCount(data, colIdx, kind, x, r, base);
    assert Repeat(1, PillsPerListing(data, r, base)) == PillsPerListing(data, r, base);
  }

  lemma {:induction false} GroupPillCount(
    data: seq<EmployeeData>, colIdx: int, kind: RecordKind, recs: seq<AnyRecord>, r: AnyRecord, base: Instant)
    requires forall x :: x in recs ==> EndReadable(kind, x, base)
    ensures |PillsOf(GroupItems(data, colIdx, kind, recs, base), r)|
         == Repeat(if kind == Event then Occurrences(recs, r) else 0, PillsPerListing(data, r, base))
    decreases |recs|
  {
    if recs == [] {
      assert |PillsOf(GroupItems(data, colIdx, kind, recs, base), r)| == 0 by {
        assert GroupItems(data, colIdx, kind, recs, base) == [];
        assert PillsOf([], r) == [];
      }
      assert Repeat(if kind == Event then Occurrences(recs, r) else 0, PillsPerListing(data, r, base)) == 0;
    } else {
      var init, last := recs[..|recs| - 1], recs[|recs| - 1];
      GroupPillsLast(data, colIdx, kind, recs, r, base);
      GroupPillCount(data, colIdx, kind, init, r, base);
      RecordPills(data, colIdx, kind, last, r, base);
      RepeatSum(|PillsOf(GroupItems(data, colIdx, kind, recs, base), r)|,
                |PillsOf(GroupItems(data, colIdx, kind, init, base), r)|,
                |PillsOf(RecordItems(data, colIdx, kind, last, base), r)|,
                if kind == Event then Occurrences(recs, r) else 0,
                if kind == Event then Occurrences(init, r) else 0, if kind == Event && last == r then 1 else 0,
                PillsPerListing(data, r, base));
    }
  }

  lemma {:induction false} EmployeePillCount(
    data: seq<EmployeeData>, colIdx: int, groups: seq<RecordGroup>, r: AnyRecord, base: Instant)
    requires GroupsEndsReadable(groups, base)
    ensures |PillsOf(EmployeeItems(data, colIdx, groups, base), r)|
         == Repeat(GroupListings(groups, r), PillsPerListing(data, r, base))
    decreases |groups|
  {
    if groups == [] {
      assert |PillsOf(EmployeeItems(data, colIdx, groups, base), r)| == 0 by {
        assert EmployeeItems(data, colIdx, groups, base) == [];
        assert PillsOf([], r) == [];
      }
      assert Repeat(GroupListings(groups, r), PillsPerListing(data, r, base)) == 0;
    } else {
      var g, init := groups[|groups| - 1], groups[..|groups| - 1];
      EmployeePillsLast(data, colIdx, groups, r, base);
      EmployeePillCount(data, colIdx, init, r, base);
      GroupPillCount(data, colIdx, g.kind, g.records, r, base);
      RepeatSum(|PillsOf(EmployeeItems(data, colIdx, groups, base), r)|,
                |PillsOf(EmployeeItems(data, colIdx, init, base), r)|,
                |PillsOf(GroupItems(data, colIdx, g.kind, g.records, base), r)|,
                GroupListings(groups, r), GroupListings(init, r),
                if g.kind == Event then Occurrences(g.records, r) else 0,
                PillsPerListing(data, r, base));
    }
  }

  lemma {:induction false} AllPillCount(data: seq<EmployeeData>, n: int, r: AnyRecord, base: Instant)
    requires 0 <= n <= |data| && EndsReadable(data, base)
    ensures |PillsOf(AllItems(data, n, base), r)| == Repeat(Listings(data, n, r), PillsPerListing(data, r, base))
    decreases n
  {
    if n == 0 {
      assert |PillsOf(AllItems(data, n, base), r)| == 0 by {
        assert AllItems(data, n, base) == [];
        assert PillsOf([], r) == [];
      }
      assert Repeat(Listings(data, n, r), PillsPerListing(data, r, base)) == 0;
    } else {
      AllPillCount(data, n - 1, r, base);
      AllPillStep(data, n, r, base);
    }
  }

  /** One more employee: the pill count grows by that employee's listings. */
  lemma AllPillStep(data: seq<EmployeeData>, n: int, r: AnyRecord, base: Instant)
    requires 0 < n <= |data| && EndsReadable(data, base)
    requires |PillsOf(AllItems(data, n - 1, base), r)| == Repeat(Listings(data, n - 1, r), PillsPerListing(data, r, base))
    ensures |PillsOf(AllItems(data, n, base), r)| == Repeat(Listings(data, n, r), PillsPerListing(data, r, base))
  {
    AllPillsLast(data, n, r, base);
    EmployeePillCount(data, n - 1, data[n - 1].groups, r, base);
    RepeatSum(|PillsOf(AllItems(data, n, base), r)|, |PillsOf(AllItems(data, n - 1, base), r)|,
              |PillsOf(EmployeeItems(data, n - 1, data[n - 1].groups, base), r)|,
              Listings(data, n, r), Listings(data, n - 1, r), GroupListings(data[n - 1].groups, r),
              PillsPerListing(data, r, base));
  }

  /** An event is drawn once per listing: listed k times in the Event groups
      of the employees, it yields k times as many pills as one listing does,
      that is k pills per participant the roster knows when its start is in
      the week, and none otherwise. */
  lemma EventPillCount(data: seq<EmployeeData>, weekStart: Instant, r: AnyRecord)
    requires EndsReadable(data, NormalizeWeekStart(weekStart))
    ensures var base := NormalizeWeekStart(weekStart);
      |PillsOf(Items(data, base), r)| == Listings(data, |data|, r) * PillsPerListing(data, r, base)
  {
    var base := NormalizeWeekStart(weekStart);
    AllPillCount(data, |data|, r, base);
    RepeatIsProduct(Listings(data, |data|, r), PillsPerListing(data, r, base));
  }

  /** Where a laid-out item may sit: a day of the week and an employee column;
      its day is that of its key time stamp, which is in the week; a pill is an
      event's and sits in a participant's column; a circle is a Lead or Patient
      Checkin record of that very column's employee. */
  ghost predicate Placed(data: seq<EmployeeData>, base: Instant, it: CalendarItem)
  {
    && 0 <= it.day <= 6
    && 1 <= it.col <= |data|
    && Selected(it.kind, it.rec, base)
    && it.day == DayIndexFromWeekStart(ToDate(KeyTimestamp(it.kind, it.rec).value).value, base)
    && (it.shape == Pill <==> it.kind == Event)
    && (it.shape == Pill ==> it.rec.EventRecord? && data[it.col - 1].employee in it.rec.employees)
    && (it.shape == Circle ==>
          exists g :: g in data[it.col - 1].groups && g.kind == it.kind && it.rec in g.records)
  }

  lemma RecordPlaced(data: seq<EmployeeData>, colIdx: int, g: RecordGroup, r: AnyRecord, base: Instant)
    requires IsWeekStart(base) && 0 <= colIdx < |data|
    requires g in data[colIdx].groups && r in g.records && EndReadable(g.kind, r, base)
    ensures forall it :: it in RecordItems(data, colIdx, g.kind, r, base) ==> Placed(data, base, it)
  {
    if Selected(g.kind, r, base) {
      DayIndexInWeek(KeyTimestamp(g.kind, r).value, base);
      if g.kind == Event {
        EventGeometry(data, colIdx, r, base);
      }
    }
  }

  lemma {:induction false} GroupPlaced(
    data: seq<EmployeeData>, colIdx: int, g: RecordGroup, recs: seq<AnyRecord>, base: Instant)
    requires IsWeekStart(base) && 0 <= colIdx < |data| && g in data[colIdx].groups
    requires forall r :: r in recs ==> r in g.records && EndReadable(g.kind, r, base)
    ensures forall it :: it in GroupItems(data, colIdx, g.kind, recs, base) ==> Placed(data, base, it)
    decreases |recs|
  {
    if recs != [] {
      var last := recs[|recs| - 1];
      assert last in recs;
      GroupPlaced(data, colIdx, g, recs[..|recs| - 1], base);
      RecordPlaced(data, colIdx, g, last, base);
    }
  }

  lemma {:induction false} EmployeePlaced(data: seq<EmployeeData>, colIdx: int, groups: seq<RecordGroup>, base: Instant)
    requires IsWeekStart(base) && 0 <= colIdx < |data| && GroupsEndsReadable(groups, base)
    requires forall g :: g in groups ==> g in data[colIdx].groups
    ensures forall it :: it in EmployeeItems(data, colIdx, groups, base) ==> Placed(data, base, it)
    decreases |groups|
  {
    if groups != [] {
      var g, init := groups[|groups| - 1], groups[..|groups| - 1];
      assert g in groups && forall h :: h in init ==> h in groups;
      EmployeePlaced(data, colIdx, init, base);
      GroupPlaced(data, colIdx, g, g.records, base);
    }
  }

  lemma {:induction false} AllPlaced(data: seq<EmployeeData>, n: int, base: Instant)
    requires IsWeekStart(base) && 0 <= n <= |data| && EndsReadable(data, base)
    ensures forall it :: it in AllItems(data, n, base) ==> Placed(data, base, it)
    decreases n
  {
    if n > 0 {
      AllPlaced(data, n - 1, base);
      assert data[n - 1] in data;
      EmployeePlaced(data, n - 1, data[n - 1].groups, base);
    }
  }

  lemma AllPlacedIfWeekStart(data: seq<EmployeeData>, base: Instant)
    requires EndsReadable(data, base)
    ensures IsWeekStart(base) ==> forall it :: it in AllItems(data, |data|, base) ==> Placed(data, base, it)
  {
    if IsWeekStart(base) {
      AllPlaced(data, |data|, base);
    }
  }

  /** Every item the layout emits is drawn in exactly one cell of the grid:
      that of its own day and column. */
  lemma ExactlyOneCell(data: seq<EmployeeData>, weekStart: Instant, it: CalendarItem)
    requires EndsReadable(data, NormalizeWeekStart(weekStart))
    requires it in Items(data, NormalizeWeekStart(weekStart))
    ensures 0 <= it.day < 7 && 0 <= it.col - 1 < |data|
    ensures forall di, ei :: it in CellFilter(Items(data, NormalizeWeekStart(weekStart)), di, ei)
                             <==> di == it.day && ei == it.col - 1
  {
    var items := Items(data, NormalizeWeekStart(weekStart));
    forall di, ei ensures it in CellFilter(items, di, ei) <==> di == it.day && ei == it.col - 1 {
      FilterMembership(items, x => InCell(x, di, ei), it);
    }
  }

  /** A cell keeps the layout order of its items: the cell of a
      concatenation is the concatenation of the cells. */
  lemma CellItemsAppend(items: seq<CalendarItem>, more: seq<CalendarItem>, di: int, ei: int)
    ensures CellItems(items + more, di, ei) == CellItems(items, di, ei) + CellItems(more, di, ei)
  {
    FilterAppend(items, more, it => InCell(it, di, ei));
    MapAppend(CellFilter(items, di, ei), CellFilter(more, di, ei), ToColumnItem);
  }

  // ---------------------------------------------------------------------
  // Column labels: `abbr` (lines 122-127)

  /** The characters JavaScript's `\s` matches. */
  predicate IsSpace(c: char)
  {
    c == ' ' || c == '\t' || c == '\n' || c == '\r' || c == '\U{000B}' || c == '\U{000C}'
    || c == '\U{00A0}' || c == '\U{1680}' || ('\U{2000}' <= c <= '\U{200A}')
    || c == '\U{2028}' || c == '\U{2029}' || c == '\U{202F}' || c == '\U{205F}' || c == '\U{3000}'
    || c == '\U{FEFF}'
  }

  /** `toUpperCase` on one character, for the ASCII letters. */
  function UpperChar(c: char): (u: char)
    ensures IsSpace(u) <==> IsSpace(c)
  {
    if 'a' <= c <= 'z' then (c as int - 'a' as int + 'A' as int) as char else c
  }

  function Upper(s: string): (r: string)
    ensures |r| == |s| && forall i :: 0 <= i < |s| ==> r[i] == UpperChar(s[i])
  {
    seq(|s|, i requires 0 <= i < |s| => UpperChar(s[i]))
  }

  /** `s` without its leading run of whitespace. */
  function SkipSpaces(s: string): (r: string)
    ensures |r| <= |s| && (r == [] || !IsSpace(r[0]))
    ensures s != [] && IsSpace(s[0]) ==> |r| < |s|
  {
    if s != [] && IsSpace(s[0]) then SkipSpaces(s[1..]) else s
  }

  /** `s.split(/\s+/)`, continuing a part that already holds `part`: every
      maximal run of whitespace ends a part, so leading or trailing
      whitespace gives an empty first or last part. */
  function SplitFrom(s: string, part: string): (parts: seq<string>)
    ensures |parts| >= 1
    decreases |s|
  {
    if s == [] then [part]
    else if IsSpace(s[0]) then [part] + SplitFrom(SkipSpaces(s), "")
    else SplitFrom(s[1..], part + [s[0]])
  }

  function Split(s: string): seq<string>
  {
    SplitFrom(s, "")
  }

  /** `.map(p => p[0]).join("")`: an empty part's `p[0]` is `undefined`,
      which `join` writes as nothing. */
  function FirstChars(parts: seq<string>): string
  {
    if parts == [] then []
    else (if parts[0] == [] then [] else [parts[0][0]]) + FirstChars(parts[1..])
  }

  /** The initials of the employee's name shown over their column: the
      upper-cased first character of each word of `name`, in order; empty
      parts from leading or trailing whitespace add nothing. */
  function Abbr(name: string): (r: string)
    ensures r == Upper(WordStarts(name, true))
    ensures |r| <= |name|
    ensures forall i :: 0 <= i < |r| ==> !IsSpace(r[i])
  {
    SplitWordStarts(name, "");
    Upper(FirstChars(Split(name)))
  }

  /** A reference reading of the initials: the characters that start a word,
      that is, that are not whitespace and follow whitespace or the start. */
  function WordStarts(s: string, atStart: bool): (r: string)
    ensures |r| <= |s| && forall i :: 0 <= i < |r| ==> !IsSpace(r[i])
  {
    if s == [] then []
    else if IsSpace(s[0]) then WordStarts(s[1..], true)
    else (if atStart then [s[0]] else []) + WordStarts(s[1..], false)
  }

  lemma {:induction false} WordStartsSkip(s: string, atStart: bool)
    requires s != [] && IsSpace(s[0])
    ensures WordStarts(s, atStart) == WordStarts(SkipSpaces(s), true)
    decreases |s|
  {
    if s[1..] != [] && IsSpace(s[1]) {
      WordStartsSkip(s[1..], true);
    }
  }

  lemma {:induction false} SplitWordStarts(s: string, part: string)
    ensures FirstChars(SplitFrom(s, part))
         == if part == [] then WordStarts(s, true) else [part[0]] + WordStarts(s, false)
    decreases |s|
  {
    if s == [] {
    } else if IsSpace(s[0]) {
      var rest := SplitFrom(SkipSpaces(s), "");
      assert ([part] + rest)[1..] == rest;
      SplitWordStarts(SkipSpaces(s), "");
      WordStartsSkip(s, true);
      WordStartsSkip(s, false);
    } else {
      SplitWordStarts(s[1..], part + [s[0]]);
    }
  }
}
