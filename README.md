# Weekly calendar layout, in Dafny

This project models the core of a small staff calendar.

- **Server side.** The server joins five tables into a snapshot. The tables are employees, leads, events, event–employee links and patient check-ins. The snapshot is one entry per employee, holding that employee's records grouped by kind: Lead, Patient Checkin or Event.
- **Browser side.** The weekly calendar lays the snapshot out as a grid of seven days by one column per employee.
  - An event becomes one *pill* in the column of each participant the roster knows.
  - A lead or a check-in becomes one *circle* in its owner's column.
  - Only records whose key time stamp falls in the displayed week, Sunday to Saturday, appear.

The model is split into one Dafny module per concern:

| file | module | what it holds |
|---|---|---|
| `wrappers.dfy` | `Wrappers` | `Option` and `Result` |
| `seqs.dfy` | `Seqs` | `Filter` and `Map` over sequences (JavaScript's `filter`/`map`) and their laws |
| `types.dfy` | `Types` | the record kinds, records, groups, employee entries and calendar items of `src/types.ts` |
| `datetime.dfy` | `DateTimes` | wall-clock date-times, the day number (days from civil), and the text form `MM/dd/yyyy h:mma` with its parser |
| `dates.dfy` | `Dates` | the helpers of `src/utils/date.ts` over naive instants: whole minutes since 0000-01-01 00:00 |
| `calendar.dfy` | `WeeklyCalendar` | the `items` layout, the grid-cell filter and `abbr` |
| `server.dfy` | `Server` | `fetchData`'s in-memory join |
| `feed.dfy` | `CalendarFeed` | what the layout can rely on in the snapshot the server builds |

Modelling choices:

- **Records.** The source's untagged record union becomes a closed datatype. The layout reads a record's fields by casting it to the shape its group's tag names. Here those reads are accessor functions that give `None` where JavaScript gives `undefined`, and a missing time stamp then fails the week test, as an Invalid Date does.
- **Loops.** The layout's nested `forEach` loops, and `fetchData`'s `employees.map` with its conditional `push`es, are methods with loops. Each method is proved equal to a recursive specification function, and the properties are proved about those functions.
- **Geometry.** The pixel geometry is exact, in `real`.
- **Time.** Time is naive wall-clock time: no time zone and no daylight saving. The week starts on Sunday.
- **Check-in `create`.** In the source's type declarations every record has `create`. `fetchData`'s check-in projection leaves it out, and the model follows the code: on a check-in record, `create` is optional (`checkinCreate`).
- **Field names.** `EmployeeData`'s list of groups is called `records` in the source and `groups` here. A group's tag is called `type` in the source and `kind` here. An item's `kind` ("circle" or "pill") is `shape` here.

## Model

| member | source | states |
|---|---|---|
| Types.KindOfName | src/types.ts:24 | a group tag reads back as a kind exactly when it is "Lead", "Event" or "Patient Checkin"; a kind found names that tag |
| Types.KindNameRoundTrip | src/types.ts:24 | every kind's tag is one of the three names and reads back as that kind; there is no fourth kind |
| DateTimes.DaysInMonth | src/utils/date.ts:11-13 | months have 28 to 31 days, and 29 exactly for February of a leap year |
| DateTimes.Format | src/utils/date.ts:11 | the written form of a date-time of years 1 to 9999 is 17 or 18 characters: `MM/dd/yyyy h:mma` with a one- or two-digit hour |
| DateTimes.Parse | src/utils/date.ts:11-13 | whatever the parser accepts is a real calendar date of years 1 to 9999 with a valid time of day: 02/30 and year 0000 read as nothing |
| DateTimes.DayNumberIncreasing | src/utils/date.ts:11-13 | the day number grows strictly with the calendar date |
| DateTimes.DayNumberInjective | src/utils/date.ts:11-13 | distinct valid dates have distinct day numbers |
| DateTimes.ClockRoundTrip | src/utils/date.ts:11-13 | reading the `h:mma` text of a time of day gives back hour and minute, 12AM being hour 0 and 12PM hour 12 |
| DateTimes.ParseFormat | src/utils/date.ts:11-13 | writing a date-time in `MM/dd/yyyy h:mma` and reading it back gives the same date-time |
| DateTimes.FormatParse | src/utils/date.ts:11-13 | every text the parser accepts is exactly the text the producers would write for what it read |
| Dates.ToDate | src/utils/date.ts:13 | `toDate` yields an instant exactly when the stamp parses, and that instant falls on the parsed day at 60 × hour + minute minutes after midnight |
| Dates.ToDateFormat | src/utils/date.ts:13 | `toDate` of a written stamp is the instant of its date-time, and no other text reads as that instant |
| Dates.StartOfDay | src/utils/date.ts:18-19 | `startOfDay` is the midnight at or before the instant, on the same calendar day |
| Dates.MinutesFromDayStart | src/utils/date.ts:18-19 | minutes since midnight lie in 0..1439 and take the instant back to its midnight |
| Dates.InstantParts | src/utils/date.ts:18-22 | a date-time's instant falls on its day number at 60 × hour + minute minutes after midnight |
| Dates.DayIndexCountsDates | src/utils/date.ts:21-22 | the day index is the difference of calendar day numbers; times of day do not matter |
| Dates.MinutesFromWeekStart | src/utils/date.ts:15-16 | from a week start, minutes into the week are 1440 × the day index + the minutes into the day |
| Dates.DayIndexFromWeekStart | src/utils/date.ts:21-22 | for an instant inside the week of a week start, the day index is in 0..6 and is the weekday, Sunday 0 |
| Dates.NormalizeWeekStart | src/utils/date.ts:24-25 | the week start is a Sunday midnight, at or before the instant and less than 7 days before it |
| Dates.WeekContainment | src/utils/date.ts:24-25 | an instant's week start is `w` exactly when it lies in `[w, w + 7 days)` |
| Dates.NormalizeIdempotent | src/utils/date.ts:24-25 | normalising twice equals normalising once, and exactly the Sunday midnights are fixed |
| Dates.InSameWeek | src/utils/date.ts:27-28 | against a week start, `inSameWeek` holds exactly for stamps that parse to an instant inside the seven-day window; an unparseable stamp is in no week |
| Dates.March10of2024IsSunday | src/utils/date.ts:24-25 | 03/10/2024 12:00AM parses, and it is a week start |
| Dates.FormatTime | src/utils/date.ts:30-31 | `formatTime` yields text exactly when the stamp parses |
| Dates.FormatTimeOfStamp | src/utils/date.ts:30-31 | the formatted time of a valid stamp is the stamp's own `h:mma` tail, lower-cased (e.g. `9:05am`) |
| Dates.FormatRange | src/utils/date.ts:33-34 | the range is both formatted times joined by "-", and exists exactly when both stamps parse |
| WeeklyCalendar.FindEmployee | src/components/WeeklyCalendar.tsx:66-67 | `findIndex` returns the first column whose employee has exactly the name, or -1 exactly when none has it |
| WeeklyCalendar.KnownNamesMembership | src/components/WeeklyCalendar.tsx:65-67 | the names kept are exactly the listed names the roster knows |
| WeeklyCalendar.KnownNamesSnoc | src/components/WeeklyCalendar.tsx:65-67 | one more listed name adds itself to the known names exactly when the roster has it |
| WeeklyCalendar.WellFormedKeyTimestamp | src/components/WeeklyCalendar.tsx:57-86 | in a group whose records have its tag's shape, the key stamp is always present: `start` for an event, `checkin` for a check-in, `create` for a lead; the week filter tests that stamp |
| WeeklyCalendar.RecordItems | src/components/WeeklyCalendar.tsx:56-104 | a record yields items only if its key stamp is in the week; a lead or check-in yields one circle exactly when it is, an event as many pills as known participant names; `end` plays no part |
| WeeklyCalendar.Items | src/components/WeeklyCalendar.tsx:51-109 | from a week start, every laid-out item has day 0..6 and column 1..n; its day is that of its in-week key stamp; pills are events in a participant's column; circles are Lead or Check-in records of that column's own employee |
| WeeklyCalendar.Layout | src/components/WeeklyCalendar.tsx:51-109 | the pushes into `out`, from a week start normalised to its Sunday, are the layout `Items`: employees, then groups, then records, then participants, in input order |
| WeeklyCalendar.EmployeeLayout | src/components/WeeklyCalendar.tsx:54-106 | one employee's callback pushes its groups' items in group order |
| WeeklyCalendar.GroupLayout | src/components/WeeklyCalendar.tsx:55-105 | one group's callback pushes its records' items in record order |
| WeeklyCalendar.RecordLayout | src/components/WeeklyCalendar.tsx:56-104 | one record's callback pushes that record's pills or its circle, or nothing |
| WeeklyCalendar.PillLayout | src/components/WeeklyCalendar.tsx:65-81 | the participant loop pushes one pill per known name, in list order |
| WeeklyCalendar.PillsAreKnownNames | src/components/WeeklyCalendar.tsx:65-81 | an event yields exactly one pill per known participant name, in list order; the i-th goes to the first column with the i-th known name, all sharing day, top and height |
| WeeklyCalendar.PillColumns | src/components/WeeklyCalendar.tsx:65-80 | every pill sits in a column 1..n whose employee is on the event's list |
| WeeklyCalendar.CircleGeometry | src/components/WeeklyCalendar.tsx:83-102 | a selected lead or check-in gives one circle in its owner's column at its day, 12 px high, top = minutes × 2/3 − 6, in [−6, 954), and −6 exactly at midnight |
| WeeklyCalendar.EventGeometry | src/components/WeeklyCalendar.tsx:57-80 | a selected event's pills all sit at its start day with top = minutes × 2/3; the height is max(duration × 2/3, 20), so it is 20 whenever the end is not after the start; each pill is in a participant's column |
| WeeklyCalendar.EventPillsIgnoreOwner | src/components/WeeklyCalendar.tsx:57-81 | the pills of one listing of an event do not depend on which employee's group lists it |
| WeeklyCalendar.RecordPillCount | src/components/WeeklyCalendar.tsx:57-81 | a record yields pills of event `r` only when it is `r` in an Event group, and then one per known participant if `r` starts in the week |
| WeeklyCalendar.GroupPillCount | src/components/WeeklyCalendar.tsx:56-104 | a group yields the pills of one listing of `r` once per occurrence of `r` in an Event group |
| WeeklyCalendar.EmployeePillCount | src/components/WeeklyCalendar.tsx:55-105 | an employee yields the pills of one listing of `r` once per listing of `r` in their Event groups |
| WeeklyCalendar.AllPillCount | src/components/WeeklyCalendar.tsx:54-106 | the first n employees yield the pills of one listing of `r` once per listing of `r` in their Event groups |
| WeeklyCalendar.EventPillCount | src/components/WeeklyCalendar.tsx:51-109 | an event listed k times in the Event groups of the roster yields k × (known participants) pills when it starts in the week, and none otherwise |
| WeeklyCalendar.ExactlyOneCell | src/components/WeeklyCalendar.tsx:151-152 | every emitted item passes the cell filter of exactly one (day, employee) cell: its own |
| WeeklyCalendar.CellItems | src/components/WeeklyCalendar.tsx:151-160 | a cell shows exactly the items addressed to its day and column, stripped of their address |
| WeeklyCalendar.CellItemsAppend | src/components/WeeklyCalendar.tsx:151-160 | a cell's items keep layout order: the cell of a concatenation is the concatenation of the cells |
| WeeklyCalendar.Abbr | src/components/WeeklyCalendar.tsx:122-127 | `abbr` is the upper-cased first characters of the whitespace-separated words, in order; empty parts add nothing; it is no longer than the name and no initial is whitespace |
| Server.FetchData | server.js:101-117 | `employees.map` returns the specification `Entries` of all employee rows, failing with the first unknown employee id |
| Server.Entries | server.js:101-117 | on success there is one entry per employee row, and the i-th entry is named after the i-th row |
| Server.BuildEntry | server.js:101-116 | the callback's conditional pushes build the entry `EmployeeEntry` of the employee row |
| Server.EmployeeEntry | server.js:101-116 | an entry is named after its row and has at most three groups; it raises exactly when one of the employee's linked events has a link row naming an unknown employee |
| Server.NextEntries | server.js:101-116 | one step of the map: the entries of one more employee row |
| Server.EntriesStep | server.js:101-116 | each step of the map appends the next employee's entry, or raises its error |
| Server.FailureSticks | server.js:101-117 | once an employee's entry raises, the whole call raises that error |
| Server.EntriesShape | server.js:101 | on success there is one entry per employee row, in table order, each that row's entry |
| Server.EntriesFail | server.js:101-117 | the call raises exactly when some employee's entry raises |
| Server.EntryShape | server.js:102-116 | an entry is named after its row; its groups come in the order Lead, Patient Checkin, Event, none empty, each holding only records of its kind |
| Server.GroupsWellFormed | server.js:102-115 | groups built from records of the right kinds hold only records of their tag's kind |
| Server.GroupsFacts | server.js:102-115 | groups are pushed in kind order, each only when non-empty, holding exactly that kind's records |
| Server.EntryPresence | server.js:103-115 | an entry has a Lead group exactly when the employee has lead rows, a Check-in group exactly when they have check-in rows, an Event group exactly when a link row joins them to an event row |
| Server.EntryContents | server.js:103-115 | each group holds exactly that employee's lead projections, check-in projections, or linked event records |
| Server.RecordKinds | server.js:103-114 | lead projections are lead records, check-in projections check-in records, event projections event records |
| Server.LeadRecordsSpec | server.js:103 | an employee's lead records are exactly the projections of the lead rows with their id, in table order |
| Server.CheckinRecordsSpec | server.js:105 | an employee's check-in records are exactly the projections of their check-in rows, in table order, none with `create` |
| Server.LinkedEventsMembership | server.js:107-108 | an event is in an employee's list exactly when a link row joins the two; an event with no link rows is in nobody's list |
| Server.LinkedEvents | server.js:107-108 | an employee's linked events are event rows, no more than the table has, each with an id among the employee's link rows |
| Server.LinkedEventsNonEmpty | server.js:107-108 | an employee has linked events exactly when some link row joins them to an event row |
| Server.RepeatedLinkIgnored | server.js:107-108 | repeating a link row does not repeat the event: the list keeps events-table order, each once |
| Server.EmployeeName | server.js:113 | `employees.find` gives a name exactly when a row has the id, and that row's name |
| Server.Names | server.js:113 | on success there is one name per link row |
| Server.NamesSpec | server.js:113 | on success, the i-th name is that of the employee the i-th link row names, so an event's `employees` follow link-table order |
| Server.NamesFail | server.js:113 | the names lookup raises exactly when some link row names an id no employee row has |
| Server.EventRecords | server.js:108-114 | on success there is one event record per linked event row |
| Server.EventRecordSpec | server.js:108-114 | on success, the i-th event record carries the i-th event row's title, `create`, `start` and `end` stamps and the names of its linked employees |
| Server.EventRecordsFail | server.js:108-114 | building the event records raises exactly when some event's names lookup raises |
| Server.FetchFailsIff | server.js:113 | `fetchData` raises exactly when some employee is linked to an event one of whose link rows names an unknown employee id |
| Server.DanglingEmployee | server.js:113 | a dangling link makes some employee's entry raise |
| Server.FailureIsDangling | server.js:108-114 | an employee's entry raises only because of a dangling link |
| Server.DanglingIsFailure | server.js:108-114 | an employee linked to an event that has a dangling link row gets a raising entry |
| CalendarFeed.FetchedRecordsKeyed | server.js:102-115 | every record of a successful snapshot carries the key stamp of its group's kind: `create` for a lead, `checkin` for a check-in, `start` for an event |

## Left out

- Dates.ToDate: the parser accepts only the exact form the producers write: two-digit month and day, four-digit year, an hour without a leading zero, two-digit minutes, an upper-case AM/PM and nothing after it. date-fns's `parse` is more lenient: it also accepts one-digit months and days, a lower-case meridiem, a leading-zero hour (`09:05AM`), a one-digit minute (`9:5AM`), one- to three-digit years and trailing whitespace. Those texts read as `None` here.
- Time zones and daylight saving: instants are naive wall-clock minutes, so every day has 1440 minutes.
- Times before year 1 and after year 9999 are outside the text form. Seconds and milliseconds do not arise, because every instant comes from a stamp written to the minute.
- The current clock: `new Date()` is the default week start and the `parse` reference date. The week start is a parameter of `Layout`.
- The palette colour of each item is cosmetic and dropped. So are the hour labels, the day headers and the React rendering of the grid.
- JavaScript double rounding: the geometry is exact in `real`.
- WeeklyCalendar.Layout: requires every event the week filter selects to have an `end` that parses (`EndsReadable`). In the source an unparseable `end` gives a NaN height, which is not modelled.
- A group tag other than "Lead", "Event" and "Patient Checkin" cannot be represented: kinds are a closed datatype. The source treats any other tag like a Lead: it keys on `create` and draws a circle tagged with the unknown type (src/components/WeeklyCalendar.tsx:57, 83-86, 99-101).
- Types.CreateField: a check-in record has no guaranteed `create`, unlike the type declaration in src/types.ts:1-3, because the check-in projection of server.js:105 leaves it out.
- WeeklyCalendar.Abbr: `toUpperCase` is modelled on ASCII letters only, and strings are sequences of code points, not UTF-16 code units.
- Server.FetchData: the five `SELECT * ... all()` reads are its input tables. SQL NULL columns and SQLite itself are not modelled. The thrown TypeError of a dangling link is the `UnknownEmployee` failure.
- The Express routes, the database schema, seeding and inserts, and the forms and modals of the front end are not part of this model.
