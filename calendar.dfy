/**
 * The shared calendar page: the Monday-first month grid, the events shown on
 * a day, the list kept up to date by realtime INSERT/UPDATE/DELETE messages,
 * month navigation and the three-event cap of a day cell.
 *
 * Months are numbered from 0 (January) to 11 as JavaScript's `Date` numbers
 * them. The weekday of the first of the month and each day's `YYYY-MM-DD`
 * text come from `Date` and are parameters here; so is the conversion of a
 * start date into milliseconds that the INSERT sort compares.
 */
module Calendar {
  import opened Wrappers
  import opened Lists

  // ---------------------------------------------------------------------------
  // The month grid
  // ---------------------------------------------------------------------------

  /** A day of the calendar, `new Date(year, month, day)`. */
  datatype Day = Day(year: int, month: int, day: int)

  predicate IsLeapYear(year: int) {
    year % 4 == 0 && (year % 100 != 0 || year % 400 == 0)
  }

  /** `new Date(year, month + 1, 0).getDate()`: the last day of the month in the Gregorian calendar. */
  function DaysInMonth(year: int, month: int): (n: int)
    requires 0 <= month < 12
    ensures 28 <= n <= 31
    ensures n == 28 <==> month == 1 && !IsLeapYear(year)
    ensures n == 29 <==> month == 1 && IsLeapYear(year)
    ensures n == 30 <==> month in {3, 5, 8, 10}
  {
    if month == 1 then (if IsLeapYear(year) then 29 else 28)
    else if month in {3, 5, 8, 10} then 30
    else 31
  }

  /** The days of the months `from` to 11 added up. */
  function DaysFrom(year: int, from: int): int
    requires 0 <= from <= 12
    decreases 12 - from
  {
    if from == 12 then 0 else DaysInMonth(year, from) + DaysFrom(year, from + 1)
  }

  /** The twelve months make up a year of 365 days, or 366 in a leap year. */
  lemma YearLength(year: int)
    ensures DaysFrom(year, 0) == if IsLeapYear(year) then 366 else 365
  {
  }

  /**
   * The Monday-first column of a weekday numbered as `getDay()` numbers it
   * (0 is Sunday): Monday is column 0 and Sunday, the last, column 6.
   */
  function MondayOffset(weekday: int): (col: int)
    requires 0 <= weekday < 7
    ensures 0 <= col < 7
    ensures (col + 1) % 7 == weekday
  {
    var start := weekday - 1;
    if start < 0 then 6 else start
  }

  /** Distinct weekdays land in distinct columns. */
  lemma MondayOffsetInjective(w1: int, w2: int)
    requires 0 <= w1 < 7 && 0 <= w2 < 7
    ensures MondayOffset(w1) == MondayOffset(w2) <==> w1 == w2
  {
  }

  /**
   * `getDaysInMonth`: an empty slot for each column before the first of the
   * month, then every day of the month in order. `firstWeekday` is the
   * `getDay()` of the first.
   */
  method GetDaysInMonth(year: int, month: int, firstWeekday: int) returns (days: seq<Option<Day>>)
    requires 0 <= month < 12 && 0 <= firstWeekday < 7
    ensures |days| == MondayOffset(firstWeekday) + DaysInMonth(year, month)
    ensures forall i | 0 <= i < MondayOffset(firstWeekday) :: days[i] == None
    ensures forall i | MondayOffset(firstWeekday) <= i < |days| ::
      days[i] == Some(Day(year, month, i - MondayOffset(firstWeekday) + 1))
  {
    var n := DaysInMonth(year, month);
    var startDayOfWeek := firstWeekday - 1;
    if startDayOfWeek < 0 {
      startDayOfWeek := 6;
    }
    days := [];
    var i := 0;
    while i < startDayOfWeek
      invariant 0 <= i <= startDayOfWeek
      invariant days == seq(i, _ => None)
    {
      days := days + [None];
      i := i + 1;
    }
    i := 1;
    while i <= n
      invariant 1 <= i <= n + 1
      invariant |days| == startDayOfWeek + i - 1
      invariant forall k | 0 <= k < startDayOfWeek :: days[k] == None
      invariant forall k | startDayOfWeek <= k < |days| :: days[k] == Some(Day(year, month, k - startDayOfWeek + 1))
    {
      days := days + [Some(Day(year, month, i))];
      i := i + 1;
    }
  }

  /** The grid shows every day of the month exactly once, and in the column of its weekday. */
  lemma GridShowsEachDayOnce(year: int, month: int, firstWeekday: int, days: seq<Option<Day>>, d: int)
    requires 0 <= month < 12 && 0 <= firstWeekday < 7
    requires |days| == MondayOffset(firstWeekday) + DaysInMonth(year, month)
    requires forall i | 0 <= i < MondayOffset(firstWeekday) :: days[i] == None
    requires forall i | MondayOffset(firstWeekday) <= i < |days| ::
      days[i] == Some(Day(year, month, i - MondayOffset(firstWeekday) + 1))
    requires 1 <= d <= DaysInMonth(year, month)
    ensures var at := MondayOffset(firstWeekday) + d - 1;
      0 <= at < |days| && days[at] == Some(Day(year, month, d)) &&
      (at % 7 + 1) % 7 == (firstWeekday + d - 1) % 7 &&
      forall i | 0 <= i < |days| && i != at :: days[i] != Some(Day(year, month, d))
  {
  }

  // ---------------------------------------------------------------------------
  // Events of a day
  // ---------------------------------------------------------------------------

  /** A row of the calendar's event table as the page reads it. */
  datatype Event = Event(
    id: string, title: string, description: Option<string>,
    startDate: string, endDate: Option<string>, allDay: bool, color: string)

  /** `s.split('T')[0]`: the text before the first `T`, or all of it. */
  function DatePart(s: string): (r: string)
    ensures r <= s && 'T' !in r
    ensures |r| < |s| ==> s[|r|] == 'T'
  {
    if s == [] || s[0] == 'T' then [] else [s[0]] + DatePart(s[1..])
  }

  /** JavaScript's `<=` on strings: the first difference decides, and a prefix comes first. */
  predicate TextAtMost(a: string, b: string) {
    a == [] || (b != [] && (a[0] < b[0] || (a[0] == b[0] && TextAtMost(a[1..], b[1..]))))
  }

  /** The comparison is a total order: reflexive, antisymmetric, transitive and total. */
  lemma {:induction false} TextAtMostReflexive(a: string)
    ensures TextAtMost(a, a)
  {
    if a != [] {
      TextAtMostReflexive(a[1..]);
    }
  }

  lemma {:induction false} TextAtMostAntisymmetric(a: string, b: string)
    requires TextAtMost(a, b) && TextAtMost(b, a)
    ensures a == b
  {
    if a != [] && b != [] {
      TextAtMostAntisymmetric(a[1..], b[1..]);
      assert a == [a[0]] + a[1..] && b == [b[0]] + b[1..];
    }
  }

  lemma {:induction false} TextAtMostTransitive(a: string, b: string, c: string)
    requires TextAtMost(a, b) && TextAtMost(b, c)
    ensures TextAtMost(a, c)
  {
    if a != [] && b != [] && c != [] && a[0] == b[0] == c[0] {
      TextAtMostTransitive(a[1..], b[1..], c[1..]);
    }
  }

  lemma {:induction false} TextAtMostTotal(a: string, b: string)
    ensures TextAtMost(a, b) || TextAtMost(b, a)
  {
    if a != [] && b != [] && a[0] == b[0] {
      TextAtMostTotal(a[1..], b[1..]);
    }
  }

  predicate IsDigit(c: char) {
    '0' <= c <= '9'
  }

  function DigitCount(s: string): (n: nat)
    ensures n <= |s|
  {
    if s == [] then 0 else (if IsDigit(s[0]) then 1 else 0) + DigitCount(s[1..])
  }

  function Pow10(n: nat): (p: int)
    ensures p >= 1
  {
    if n == 0 then 1 else 10 * Pow10(n - 1)
  }

  /** The digits of a text read as one decimal number, skipping the separators. */
  function Number(s: string): (v: int)
    ensures 0 <= v < Pow10(DigitCount(s))
  {
    if s == [] then 0
    else if IsDigit(s[0]) then
      var d := (s[0] as int) - ('0' as int);
      var p := Pow10(DigitCount(s[1..]));
      assert d * p + Number(s[1..]) < (d + 1) * p <= 10 * p by {
        assert (d + 1) * p == d * p + p;
        MultiplyMonotone(d + 1, 10, p);
      }
      d * p + Number(s[1..])
    else Number(s[1..])
  }

  lemma MultiplyMonotone(x: int, y: int, p: int)
    requires x <= y && 0 <= p
    ensures x * p <= y * p
  {
  }

  /** Two texts of the same shape: digits in the same places, the same separators elsewhere. */
  predicate SameShape(a: string, b: string) {
    |a| == |b| &&
    forall i | 0 <= i < |a| :: IsDigit(a[i]) == IsDigit(b[i]) && (!IsDigit(a[i]) ==> a[i] == b[i])
  }

  /** For texts of the same shape, string order is the order of the numbers their digits spell. */
  lemma {:induction false} TextOrderIsNumberOrder(a: string, b: string)
    requires SameShape(a, b)
    ensures TextAtMost(a, b) <==> Number(a) <= Number(b)
  {
    if a != [] {
      SameShapeTail(a, b);
      TextOrderIsNumberOrder(a[1..], b[1..]);
      SameShapeSameCount(a[1..], b[1..]);
      if IsDigit(a[0]) {
        LeadingDigitDecides((a[0] as int) - ('0' as int), (b[0] as int) - ('0' as int),
          Pow10(DigitCount(a[1..])), Number(a[1..]), Number(b[1..]));
      }
    }
  }

  lemma SameShapeTail(a: string, b: string)
    requires SameShape(a, b) && a != []
    ensures SameShape(a[1..], b[1..])
    ensures !IsDigit(a[0]) ==> a[0] == b[0]
    ensures IsDigit(a[0]) == IsDigit(b[0])
  {
    forall i | 0 <= i < |a[1..]|
      ensures IsDigit(a[1..][i]) == IsDigit(b[1..][i]) && (!IsDigit(a[1..][i]) ==> a[1..][i] == b[1..][i])
    {
      assert a[1..][i] == a[i + 1] && b[1..][i] == b[i + 1];
    }
  }

  /** A higher leading digit outweighs whatever digits follow it. */
  lemma LeadingDigitDecides(da: int, db: int, p: int, x: int, y: int)
    requires 0 <= x < p && 0 <= y < p
    ensures da * p + x <= db * p + y <==> da < db || (da == db && x <= y)
  {
    if da < db {
      MultiplyMonotone(da + 1, db, p);
      assert (da + 1) * p == da * p + p;
    } else if db < da {
      MultiplyMonotone(db + 1, da, p);
      assert (db + 1) * p == db * p + p;
    }
  }

  lemma {:induction false} SameShapeSameCount(a: string, b: string)
    requires SameShape(a, b)
    ensures DigitCount(a) == DigitCount(b)
  {
    if a != [] {
      SameShapeTail(a, b);
      SameShapeSameCount(a[1..], b[1..]);
    }
  }

  /** A day as `toISOString().split('T')[0]` writes it: `YYYY-MM-DD`. */
  predicate IsDayText(s: string) {
    |s| == 10 && s[4] == '-' && s[7] == '-' &&
    forall i | 0 <= i < 10 && i != 4 && i != 7 :: IsDigit(s[i])
  }

  /** Comparing two `YYYY-MM-DD` texts as strings compares the dates they name. */
  lemma DayTextOrder(a: string, b: string)
    requires IsDayText(a) && IsDayText(b)
    ensures TextAtMost(a, b) <==> Number(a) <= Number(b)
  {
    TextOrderIsNumberOrder(a, b);
  }

  /** The day an event starts. */
  function StartDay(e: Event): string {
    DatePart(e.startDate)
  }

  /** The day an event ends; a missing or empty end date means the day it starts. */
  function EndDay(e: Event): string {
    if e.endDate.None? || e.endDate.value == "" then StartDay(e) else DatePart(e.endDate.value)
  }

  /** The event covers the day `date`: it starts on or before it and ends on or after it. */
  predicate Covers(e: Event, date: string) {
    TextAtMost(StartDay(e), date) && TextAtMost(date, EndDay(e))
  }

  /** `getEventsForDate`: the events that cover the day, in list order. */
  function EventsForDate(events: seq<Event>, date: string): (r: seq<Event>)
    ensures forall e | e in r :: e in events && Covers(e, date)
  {
    Filter(events, (e: Event) => Covers(e, date))
  }

  /** Every event covering the day is listed as often as in the page's list; no other is. */
  lemma EventsForDateExact(events: seq<Event>, date: string, e: Event)
    ensures multiset(EventsForDate(events, date))[e] == if Covers(e, date) then multiset(events)[e] else 0
  {
    FilterCount(events, (e: Event) => Covers(e, date), e);
  }

  /** An event without an end date shows on its start day only. */
  lemma OneDayEvent(e: Event, date: string)
    requires e.endDate.None?
    ensures Covers(e, date) <==> date == StartDay(e)
  {
    if Covers(e, date) {
      TextAtMostAntisymmetric(StartDay(e), date);
    } else if date == StartDay(e) {
      TextAtMostReflexive(date);
    }
  }

  /** The days an event shows on have no gaps: a day between two of them shows it too. */
  lemma CoveredDaysAreContiguous(e: Event, first: string, day: string, last: string)
    requires Covers(e, first) && Covers(e, last)
    requires TextAtMost(first, day) && TextAtMost(day, last)
    ensures Covers(e, day)
  {
    TextAtMostTransitive(StartDay(e), first, day);
    TextAtMostTransitive(day, last, EndDay(e));
  }

  /** A day the event does not show on lies strictly before its start or strictly after its end. */
  lemma UncoveredDayOutside(e: Event, date: string)
    ensures !Covers(e, date) <==>
      (TextAtMost(date, StartDay(e)) && date != StartDay(e)) ||
      (TextAtMost(EndDay(e), date) && date != EndDay(e))
  {
    TextAtMostTotal(StartDay(e), date);
    TextAtMostTotal(date, EndDay(e));
    if !Covers(e, date) {
      if !TextAtMost(StartDay(e), date) {
        if date == StartDay(e) {
          TextAtMostReflexive(date);
        }
      } else {
        if date == EndDay(e) {
          TextAtMostReflexive(date);
        }
      }
    } else {
      if TextAtMost(date, StartDay(e)) {
        TextAtMostAntisymmetric(date, StartDay(e));
      }
      if TextAtMost(EndDay(e), date) {
        TextAtMostAntisymmetric(date, EndDay(e));
      }
    }
  }

  // ---------------------------------------------------------------------------
  // Realtime list updates
  // ---------------------------------------------------------------------------

  /** A realtime message: the kind of change and the row it carries. */
  datatype Change = Inserted(row: Event) | Updated(row: Event) | Deleted(row: Event)

  /** INSERT: append the row and sort by start time; `timeOf` is `new Date(…).getTime()`. */
  function InsertEvent(events: seq<Event>, row: Event, timeOf: string -> real): (r: seq<Event>)
    ensures multiset(r) == multiset(events) + multiset{row}
    ensures SortedBy(r, (e: Event) => timeOf(e.startDate))
  {
    SortBy(events + [row], (e: Event) => timeOf(e.startDate))
  }

  /** UPDATE: the row replaces every event with its id; the others stay where they are. */
  function UpdateEvent(events: seq<Event>, row: Event): (r: seq<Event>)
    ensures |r| == |events|
    ensures forall i | 0 <= i < |r| :: r[i] == if events[i].id == row.id then row else events[i]
  {
    seq(|events|, i requires 0 <= i < |events| => if events[i].id == row.id then row else events[i])
  }

  /** DELETE: every event with the row's id is gone; the others stay, in order. */
  function DeleteEvent(events: seq<Event>, row: Event): (r: seq<Event>)
    ensures forall e | e in r :: e in events && e.id != row.id
  {
    Filter(events, (e: Event) => e.id != row.id)
  }

  /**
   * The realtime reducer: every event afterwards was there before or is the
   * row the message carries; an INSERT adds the row once, an UPDATE keeps
   * the length, and after a DELETE no event has the row's id.
   */
  function Apply(events: seq<Event>, change: Change, timeOf: string -> real): (r: seq<Event>)
    ensures forall e | e in r :: e in events || e == change.row
    ensures change.Inserted? ==> multiset(r) == multiset(events) + multiset{change.row}
    ensures change.Updated? ==> |r| == |events|
    ensures change.Deleted? ==> forall e | e in r :: e.id != change.row.id
  {
    match change
    case Inserted(row) =>
      var r := InsertEvent(events, row, timeOf);
      assert forall e | e in r :: e in multiset(events) + multiset{row};
      r
    case Updated(row) => UpdateEvent(events, row)
    case Deleted(row) => DeleteEvent(events, row)
  }

  /** DELETE keeps every event with another id, as often as it was there. */
  lemma DeleteKeepsOthers(events: seq<Event>, row: Event, e: Event)
    ensures multiset(DeleteEvent(events, row))[e] == if e.id == row.id then 0 else multiset(events)[e]
  {
    FilterCount(events, (e: Event) => e.id != row.id, e);
  }

  /** An UPDATE for an id the list does not hold changes nothing. */
  lemma UpdateUnknownId(events: seq<Event>, row: Event)
    requires forall e | e in events :: e.id != row.id
    ensures UpdateEvent(events, row) == events
  {
  }

  /** Repeating an UPDATE changes nothing more. */
  lemma UpdateIdempotent(events: seq<Event>, row: Event)
    ensures UpdateEvent(UpdateEvent(events, row), row) == UpdateEvent(events, row)
  {
  }

  /** Deleting a row just inserted, under an id not yet listed, gives back the same events. */
  lemma {:induction false} InsertThenDelete(events: seq<Event>, row: Event, timeOf: string -> real)
    requires forall e | e in events :: e.id != row.id
    ensures multiset(DeleteEvent(InsertEvent(events, row, timeOf), row)) == multiset(events)
  {
    var after := DeleteEvent(InsertEvent(events, row, timeOf), row);
    forall e ensures multiset(after)[e] == multiset(events)[e] {
      DeleteKeepsOthers(InsertEvent(events, row, timeOf), row, e);
      if e.id == row.id {
        assert e !in events;
      }
    }
  }

  // ---------------------------------------------------------------------------
  // Month navigation
  // ---------------------------------------------------------------------------

  /**
   * `new Date(year, month, 1)`: the first of the month, with a month outside
   * 0..11 carried into the year as `Date` does.
   */
  function FirstOf(year: int, month: int): (d: Day)
    ensures 0 <= d.month < 12 && d.day == 1
    ensures d.year * 12 + d.month == year * 12 + month
  {
    Day(year + month / 12, month % 12, 1)
  }

  /** `nextMonth`. */
  function NextMonth(d: Day): (r: Day)
    ensures r.day == 1 && 0 <= r.month < 12
    ensures r.year * 12 + r.month == d.year * 12 + d.month + 1
  {
    FirstOf(d.year, d.month + 1)
  }

  /** `prevMonth`. */
  function PrevMonth(d: Day): (r: Day)
    ensures r.day == 1 && 0 <= r.month < 12
    ensures r.year * 12 + r.month == d.year * 12 + d.month - 1
  {
    FirstOf(d.year, d.month - 1)
  }

  /** Forward then back lands on the first of the month shown before. */
  lemma NextThenPrev(d: Day)
    requires 0 <= d.month < 12
    ensures PrevMonth(NextMonth(d)) == Day(d.year, d.month, 1)
    ensures NextMonth(PrevMonth(d)) == Day(d.year, d.month, 1)
  {
    SameMonthIndex(PrevMonth(NextMonth(d)), Day(d.year, d.month, 1));
    SameMonthIndex(NextMonth(PrevMonth(d)), Day(d.year, d.month, 1));
  }

  /** Two months in 0..11 with the same running month number are the same month. */
  lemma SameMonthIndex(a: Day, b: Day)
    requires 0 <= a.month < 12 && 0 <= b.month < 12
    requires a.year * 12 + a.month == b.year * 12 + b.month
    ensures a.year == b.year && a.month == b.month
  {
  }

  /** December goes on to January of the next year, and back. */
  lemma YearRollover(year: int)
    ensures NextMonth(Day(year, 11, 1)) == Day(year + 1, 0, 1)
    ensures PrevMonth(Day(year, 0, 1)) == Day(year - 1, 11, 1)
  {
  }

  // ---------------------------------------------------------------------------
  // A day cell
  // ---------------------------------------------------------------------------

  /** What a day cell shows: the first events, and how many more the "+N mer" line counts. */
  datatype Cell = Cell(shown: seq<Event>, more: Option<int>)

  const MaxShown: int := 3

  /** The cell for a day's events: at most three, then "+N mer" for the rest. */
  function CellFor(events: seq<Event>): (c: Cell)
    ensures c.shown <= events
    ensures |c.shown| == if |events| < MaxShown then |events| else MaxShown
    ensures c.more.Some? <==> |events| > MaxShown
    ensures c.more.Some? ==> c.more.value > 0 && |c.shown| + c.more.value == |events|
  {
    Cell(events[..if |events| < MaxShown then |events| else MaxShown],
         if |events| > MaxShown then Some(|events| - MaxShown) else None)
  }
}
