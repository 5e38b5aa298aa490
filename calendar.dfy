/** The calendar view (src/components/Calendar.js): bookings turned into
    events, the per-day event filter, the 42-cell month grid and month
    navigation. Dates are civil dates; the time zone is a fixed offset. */
module Calendar {
  import opened Common
  import opened Seqs
  import opened CivilDate
  import opened CalCom

  const DefaultTitle: string := "Meeting"
  const DefaultLocation: string := "Online"
  const GridSize: int := 42

  /** A valid civil date, used where the source holds a parsed timestamp of
      which only the UTC date is read. */
  type UtcDate = d: Date | d.Valid() witness Date(1970, 0, 1)

  /** The `start` of an event: either a JavaScript `Date` (what the booking
      mapping builds; it has no `date` or `dateTime` property), or a
      calendar-API style object with an all-day `date` string and/or a timed
      `dateTime` whose UTC date is given. */
  datatype EventStart =
    | DateObject(epochMs: int)
    | CalendarStart(date: Option<string>, dateTime: Option<UtcDate>)

  datatype Event = Event(
    id: int,
    title: string,
    start: EventStart,
    end: EventStart,
    location: string,
    description: string,
    attendees: seq<Attendee>,
    isAllDay: bool)

  /** `booking.eventType?.title`. */
  function EventTypeTitle(b: Booking): Option<string>
  {
    if b.eventType.Some? then b.eventType.value.title else None
  }

  /** The mapping applied to each booking in `loadEvents`. */
  function ToEvent(b: Booking): (e: Event)
    ensures e.id == b.id
    ensures e.title != "" && e.location != ""
    ensures Truthy(b.title) ==> e.title == b.title.value
    ensures !Truthy(b.title) && Truthy(EventTypeTitle(b)) ==> e.title == EventTypeTitle(b).value
    ensures !Truthy(b.title) && !Truthy(EventTypeTitle(b)) ==> e.title == DefaultTitle
    ensures e.location == (if Truthy(b.location) then b.location.value else DefaultLocation)
    ensures e.description == (if Truthy(b.description) then b.description.value else "")
    ensures e.attendees == (if b.attendees.Some? then b.attendees.value else [])
    ensures e.start == DateObject(b.startTime) && e.end == DateObject(b.endTime)
    ensures !e.isAllDay
  {
    Event(
      b.id,
      Or(b.title, Or(EventTypeTitle(b), DefaultTitle)),
      DateObject(b.startTime),
      DateObject(b.endTime),
      Or(b.location, DefaultLocation),
      Or(b.description, ""),
      if b.attendees.Some? then b.attendees.value else [],
      false)
  }

  /** `bookings.map(...)`: one event per booking, in the same order. */
  function ToEvents(bs: seq<Booking>): (r: seq<Event>)
    ensures |r| == |bs|
    ensures forall i :: 0 <= i < |bs| ==> r[i] == ToEvent(bs[i])
  {
    if bs == [] then [] else [ToEvent(bs[0])] + ToEvents(bs[1..])
  }

  /** The test inside `getEventsForDate`: an all-day `date` is compared with the
      key as a string; otherwise a timed `dateTime` is compared by its UTC date;
      anything else (a `Date` object in particular) never matches. */
  predicate StartsOn(e: Event, key: string)
  {
    match e.start
    case DateObject(_) => false
    case CalendarStart(date, dateTime) =>
      if Truthy(date) then date.value == key
      else if dateTime.Some? then DayKey(dateTime.value) == key
      else false
  }

  /** `getEventsForDate` for the cell whose UTC date key is `key`. */
  function EventsForDate(events: seq<Event>, key: string): (r: seq<Event>)
    ensures forall e :: e in r <==> e in events && StartsOn(e, key)
    ensures forall e :: multiset(r)[e] == if StartsOn(e, key) then multiset(events)[e] else 0
    ensures IsSubsequence(r, events)
  {
    Filter(events, e => StartsOn(e, key))
  }

  /** The events `loadEvents` builds all start with a `Date` object, so the
      per-day filter finds none of them on any day. */
  lemma {:induction false} BookingEventsNeverMatch(bs: seq<Booking>, key: string)
    ensures EventsForDate(ToEvents(bs), key) == []
  {
    var events := ToEvents(bs);
    forall e | e in events
      ensures !StartsOn(e, key)
    {
      var i :| 0 <= i < |events| && events[i] == e;
    }
  }

  /** `date.toISOString().split('T')[0]` for a grid cell: the cell is local
      midnight of `d`, in a zone `offset` minutes east of UTC. */
  function CellKey(d: Date, offset: int): string
    requires d.Valid() && -MinutesPerDay < offset < MinutesPerDay
  {
    DayKey(UtcDateOfLocalMidnight(d, offset))
  }

  /** The first cell of the grid for month `m` of year `y`: the 1st moved back
      by its weekday (`startDate.setDate(startDate.getDate() - firstDay.getDay())`). */
  function GridStart(y: int, m: int): (r: Date)
    requires 0 <= m < 12
    ensures r.Valid() && Weekday(r) == 0
    ensures DayNumber(r) == DayNumber(Date(y, m, 1)) - Weekday(Date(y, m, 1))
    ensures DayNumber(Date(y, m, 1)) - 6 <= DayNumber(r) <= DayNumber(Date(y, m, 1))
  {
    var first := Date(y, m, 1);
    var r := SetDate(first, first.day - Weekday(first));
    SundayOnOrBefore(DayNumber(first), Weekday(first));
    r
  }

  /** Stepping back from day `n` by its weekday `w` lands on a Sunday. */
  lemma SundayOnOrBefore(n: int, w: int)
    requires w == (n + 4) % 7
    ensures (n - w + 4) % 7 == 0
  {
    assert n + 4 - w == 7 * ((n + 4) / 7);
  }

  /** Adjacent months never share a month number. */
  lemma NeighbourMonth(a: int, b: int, y: int, m: int, k: int)
    requires 0 <= b < 12 && 0 <= m < 12 && (k == 1 || k == -1)
    requires a * 12 + b == y * 12 + m + k
    ensures b != m
  {
  }

  /** One cell of the grid. */
  datatype DayCell = DayCell(
    date: Date,
    day: int,
    isCurrentMonth: bool,
    isToday: bool,
    hasEvents: bool,
    isSelected: bool,
    events: seq<Event>)

  /** The cells hold 42 consecutive days starting at `GridStart(y, m)`. */
  predicate GridDates(days: seq<DayCell>, y: int, m: int)
    requires 0 <= m < 12
  {
    |days| == GridSize &&
    forall i :: 0 <= i < |days| ==>
      days[i].date.Valid() && DayNumber(days[i].date) == DayNumber(GridStart(y, m)) + i
  }

  /** What `generateCalendarGrid` records for one date: its day of the month,
      whether its month number is the displayed month's, whether it is today,
      whether it is the selected date, and the events `getEventsForDate` finds
      for it (computed twice in the source, with the same result). */
  predicate CellFits(c: DayCell, month: int, today: Date, selected: Option<Date>, events: seq<Event>, offset: int)
    requires -MinutesPerDay < offset < MinutesPerDay
  {
    c.date.Valid() &&
    c.day == c.date.day &&
    (c.isCurrentMonth <==> c.date.month == month) &&
    (c.isToday <==> c.date == today) &&
    (c.isSelected <==> selected.Some? && c.date == selected.value) &&
    c.events == EventsForDate(events, CellKey(c.date, offset)) &&
    (c.hasEvents <==> c.events != [])
  }

  /** The object `generateCalendarGrid` pushes for `date`. */
  function MakeCell(date: Date, month: int, today: Date, selected: Option<Date>, events: seq<Event>, offset: int): (c: DayCell)
    requires date.Valid() && -MinutesPerDay < offset < MinutesPerDay
    ensures c.date == date && CellFits(c, month, today, selected, events, offset)
  {
    var dayEvents := EventsForDate(events, CellKey(date, offset));
    DayCell(
      date,
      date.day,
      date.month == month,
      date == today,
      |dayEvents| > 0,
      selected.Some? && date == selected.value,
      dayEvents)
  }

  /** The first `|days|` cells of a grid starting at `start`. */
  predicate GridPrefix(days: seq<DayCell>, start: Date, month: int, today: Date, selected: Option<Date>, events: seq<Event>, offset: int)
    requires -MinutesPerDay < offset < MinutesPerDay
  {
    start.Valid() &&
    forall j :: 0 <= j < |days| ==>
      days[j].date.Valid() && DayNumber(days[j].date) == DayNumber(start) + j &&
      CellFits(days[j], month, today, selected, events, offset)
  }

  /** Pushing the cell for the next day extends a grid prefix. */
  lemma GridPrefixPush(days: seq<DayCell>, cell: DayCell, start: Date, month: int, today: Date, selected: Option<Date>, events: seq<Event>, offset: int)
    requires -MinutesPerDay < offset < MinutesPerDay
    requires GridPrefix(days, start, month, today, selected, events, offset)
    requires cell.date.Valid() && DayNumber(cell.date) == DayNumber(start) + |days|
    requires CellFits(cell, month, today, selected, events, offset)
    ensures GridPrefix(days + [cell], start, month, today, selected, events, offset)
  {
    var next := days + [cell];
    forall j | 0 <= j < |next|
      ensures next[j].date.Valid() && DayNumber(next[j].date) == DayNumber(start) + j
      ensures CellFits(next[j], month, today, selected, events, offset)
    {
      if j < |days| {
        assert next[j] == days[j];
      }
    }
  }

  /** `generateCalendarGrid`, reading the displayed date, today's date, the
      selected date and the loaded events; `offset` is the local zone's offset
      from UTC in minutes. */
  method GenerateCalendarGrid(current: Date, today: Date, selected: Option<Date>, events: seq<Event>, offset: int)
    returns (days: seq<DayCell>)
    requires current.Valid() && -MinutesPerDay < offset < MinutesPerDay
    ensures GridDates(days, current.year, current.month)
    ensures forall i :: 0 <= i < |days| ==> CellFits(days[i], current.month, today, selected, events, offset)
  {
    var startDate := GridStart(current.year, current.month);
    DayInMonth(startDate);
    days := [];
    for i := 0 to GridSize
      invariant |days| == i
      invariant GridPrefix(days, startDate, current.month, today, selected, events, offset)
    {
      var date := SetDate(startDate, startDate.day + i);
      var cell := MakeCell(date, current.month, today, selected, events, offset);
      GridPrefixPush(days, cell, startDate, current.month, today, selected, events, offset);
      days := days + [cell];
    }
  }

  /** The 1st of the month after month `m` of year `y` is `DaysInMonth` days after its 1st. */
  lemma MonthAfter(y: int, m: int)
    requires 0 <= m < 12
    ensures DayNumber(MonthStart(y, m + 1)) == DayNumber(Date(y, m, 1)) + DaysInMonth(y, m)
  {
    MonthTable(y, m);
    if m == 11 {
      assert MonthStart(y, m + 1) == Date(y + 1, 0, 1);
      YearStartStep(y);
    } else {
      assert MonthStart(y, m + 1) == Date(y, m + 1, 1);
    }
  }

  /** The month before month `m` of year `y` ends the day before its 1st. */
  lemma MonthBefore(y: int, m: int)
    requires 0 <= m < 12
    ensures var p := MonthStart(y, m - 1);
      DayNumber(p) + DaysInMonth(p.year, p.month) == DayNumber(Date(y, m, 1))
  {
    var p := MonthStart(y, m - 1);
    MonthAfter(p.year, p.month);
    assert MonthStart(p.year, p.month + 1) == Date(y, m, 1);
  }

  /** Where a grid cell falls: the first `Weekday(1st)` cells are the end of the
      previous month, then the displayed month day by day, then the start of
      the next month. */
  lemma {:induction false} CellPlacement(y: int, m: int, d: Date, i: int)
    requires 0 <= m < 12 && 0 <= i < GridSize
    requires d.Valid() && DayNumber(d) == DayNumber(GridStart(y, m)) + i
    ensures var off := Weekday(Date(y, m, 1));
      (off <= i < off + DaysInMonth(y, m) ==> d == Date(y, m, i - off + 1)) &&
      (i < off ==> d.year * 12 + d.month == y * 12 + m - 1) &&
      (off + DaysInMonth(y, m) <= i ==> d.year * 12 + d.month == y * 12 + m + 1)
  {
    var first := Date(y, m, 1);
    var off := Weekday(first);
    var dim := DaysInMonth(y, m);
    if i < off {
      var p := MonthStart(y, m - 1);
      MonthBefore(y, m);
      var c := Date(p.year, p.month, DaysInMonth(p.year, p.month) - (off - i) + 1);
      assert DayNumber(c) == DayNumber(d);
      DayNumberInjective(c, d);
    } else if i < off + dim {
      var c := Date(y, m, i - off + 1);
      assert DayNumber(c) == DayNumber(d);
      DayNumberInjective(c, d);
    } else {
      var n := MonthStart(y, m + 1);
      MonthAfter(y, m);
      var c := Date(n.year, n.month, i - off - dim + 1);
      assert DayNumber(c) == DayNumber(d);
      DayNumberInjective(c, d);
    }
  }

  /** A cell shows the displayed month exactly on the run of `DaysInMonth`
      cells starting at the 1st's weekday; comparing the month number alone, as
      `isCurrentMonth` does, already identifies that run. */
  lemma CurrentMonthRun(days: seq<DayCell>, y: int, m: int, i: int)
    requires 0 <= m < 12 && GridDates(days, y, m) && 0 <= i < GridSize
    ensures var off := Weekday(Date(y, m, 1));
      (days[i].date.month == m <==> off <= i < off + DaysInMonth(y, m)) &&
      (days[i].date.month == m <==> days[i].date.year == y && days[i].date.month == m)
  {
    var d := days[i].date;
    var off := Weekday(Date(y, m, 1));
    CellPlacement(y, m, d, i);
    if i < off {
      NeighbourMonth(d.year, d.month, y, m, -1);
    } else if off + DaysInMonth(y, m) <= i {
      NeighbourMonth(d.year, d.month, y, m, 1);
    }
  }

  /** Every day of the displayed month appears in the grid exactly once. */
  lemma EachDayOnce(days: seq<DayCell>, y: int, m: int, k: int)
    requires 0 <= m < 12 && GridDates(days, y, m) && 1 <= k <= DaysInMonth(y, m)
    ensures var at := Weekday(Date(y, m, 1)) + k - 1;
      0 <= at < GridSize && days[at].date == Date(y, m, k) &&
      forall i :: 0 <= i < |days| && days[i].date == Date(y, m, k) ==> i == at
  {
    var at := Weekday(Date(y, m, 1)) + k - 1;
    CellPlacement(y, m, days[at].date, at);
  }

  /** The cell dates strictly increase through the grid. */
  lemma GridIncreasing(days: seq<DayCell>, y: int, m: int, i: int, j: int)
    requires 0 <= m < 12 && GridDates(days, y, m) && 0 <= i < j < GridSize
    ensures Before(days[i].date, days[j].date)
  {
    var a, b := days[i].date, days[j].date;
    if Before(b, a) {
      DayNumberOrder(b, a);
      assert false;
    }
  }

  /** At most one cell is selected, and at most one is today. */
  lemma SingleSelection(days: seq<DayCell>, y: int, m: int, i: int, j: int)
    requires 0 <= m < 12 && GridDates(days, y, m) && 0 <= i < |days| && 0 <= j < |days|
    requires days[i].date == days[j].date
    ensures i == j
  {
  }

  /** The grid of July 2025 starts on Sunday 29 June: 1 July 2025 was a Tuesday. */
  lemma July2025()
    ensures Weekday(Date(2025, 6, 1)) == 2
    ensures GridStart(2025, 6) == Date(2025, 5, 29)
  {
    assert YearStart(2025) == 20089;
    assert DayNumber(Date(2025, 6, 1)) == 20270;
    assert Weekday(Date(2025, 6, 1)) == 2;
    assert DayNumber(GridStart(2025, 6)) == 20268;
    assert DayNumber(Date(2025, 5, 29)) == 20268;
    DayNumberInjective(GridStart(2025, 6), Date(2025, 5, 29));
  }

  /** `new Date(y, -1)` and `new Date(y, 12)` roll over into the neighbouring years. */
  lemma MonthRollover(y: int)
    ensures MonthStart(y, -1) == Date(y - 1, 11, 1)
    ensures MonthStart(y, 12) == Date(y + 1, 0, 1)
  {
  }

  /** Going forward a month and back again returns to the 1st of the starting month. */
  lemma NextThenPrevious(y: int, m: int)
    requires 0 <= m < 12
    ensures var n := MonthStart(y, m + 1);
      MonthStart(n.year, n.month - 1) == Date(y, m, 1) &&
      MonthStart(MonthStart(y, m - 1).year, MonthStart(y, m - 1).month + 1) == Date(y, m, 1)
  {
  }

  /** The state of the calendar view. */
  class CalendarView {
    var currentDate: Date
    var events: seq<Event>
    var selectedDate: Option<Date>
    var selectedEvents: seq<Event>
    var loading: bool
    var error: Option<string>

    predicate Valid()
      reads this
    {
      currentDate.Valid()
    }

    /** The initial state, displaying the current date `now`. */
    constructor(now: Date)
      requires now.Valid()
      ensures Valid() && currentDate == now
      ensures events == [] && selectedDate.None? && selectedEvents == []
      ensures !loading && error.None?
    {
      currentDate := now;
      events := [];
      selectedDate := None;
      selectedEvents := [];
      loading := false;
      error := None;
    }

    /** `loadEvents`: the upcoming bookings (or the mock list, when the request
        fails) mapped to events; `now` is the current time in milliseconds. */
    method LoadEvents(reply: ApiReply<BookingsBody>, now: int)
      modifies this
      ensures events == ToEvents(UpcomingBookings(reply, now))
      ensures reply.RequestFailed? ==> |events| == 3
      ensures !loading && error.None?
      ensures currentDate == old(currentDate) && selectedDate == old(selectedDate)
      ensures selectedEvents == old(selectedEvents)
    {
      loading := true;
      error := None;
      var bookings := UpcomingBookings(reply, now);
      events := ToEvents(bookings);
      loading := false;
    }

    /** `goToPreviousMonth`: the 1st of the month before the displayed one. */
    method GoToPreviousMonth()
      requires Valid()
      modifies this
      ensures Valid() && currentDate.day == 1
      ensures currentDate.year * 12 + currentDate.month == old(currentDate.year * 12 + currentDate.month) - 1
      ensures events == old(events) && selectedDate == old(selectedDate)
      ensures selectedEvents == old(selectedEvents) && loading == old(loading) && error == old(error)
    {
      currentDate := MonthStart(currentDate.year, currentDate.month - 1);
    }

    /** `goToNextMonth`: the 1st of the month after the displayed one. */
    method GoToNextMonth()
      requires Valid()
      modifies this
      ensures Valid() && currentDate.day == 1
      ensures currentDate.year * 12 + currentDate.month == old(currentDate.year * 12 + currentDate.month) + 1
      ensures events == old(events) && selectedDate == old(selectedDate)
      ensures selectedEvents == old(selectedEvents) && loading == old(loading) && error == old(error)
    {
      currentDate := MonthStart(currentDate.year, currentDate.month + 1);
    }

    /** `handleDateClick`: select the clicked cell's date and its events. */
    method HandleDateClick(date: Date, offset: int)
      requires date.Valid() && -MinutesPerDay < offset < MinutesPerDay
      modifies this
      ensures selectedDate == Some(date)
      ensures selectedEvents == EventsForDate(events, CellKey(date, offset))
      ensures forall e :: e in selectedEvents <==> e in events && StartsOn(e, CellKey(date, offset))
      ensures currentDate == old(currentDate) && events == old(events)
      ensures loading == old(loading) && error == old(error)
    {
      selectedDate := Some(date);
      selectedEvents := EventsForDate(events, CellKey(date, offset));
    }

    /** The grid the view renders (`generateCalendarGrid()` in the render):
        the 42 days around the displayed month, each cell marked against the
        view's own selected date and loaded events. */
    method CalendarGrid(today: Date, offset: int) returns (days: seq<DayCell>)
      requires Valid() && -MinutesPerDay < offset < MinutesPerDay
      ensures GridDates(days, currentDate.year, currentDate.month)
      ensures forall i :: 0 <= i < |days| ==> CellFits(days[i], currentDate.month, today, selectedDate, events, offset)
    {
      days := GenerateCalendarGrid(currentDate, today, selectedDate, events, offset);
    }

    /** The event modal's overlay and close button clear the selected date;
        the selected events are left as they were. */
    method CloseEventModal()
      modifies this`selectedDate
      ensures selectedDate.None?
    {
      selectedDate := None;
    }
  }
}
