# Dashboard core: calendar grid, customer store adapter, customer table, scheduling fallback

This project models, in Dafny, the logic inside a small React business dashboard:

- **Calendar view** (`src/components/Calendar.js`). Bookings are turned into events, and a 42-cell month grid is built that starts on the Sunday on or before the 1st. Each cell carries the current-month, today, selected and has-events flags. The view also has month navigation, the per-day event filter and the date-click selection.
- **Customer store adapter** (`src/services/airtable.js`). This covers:
  - the connection probe and its classification of HTTP statuses;
  - the mapping of stored records to customers, with its `||` alias fallbacks;
  - the field maps that create and update send, each with its own cleaning rules;
  - the error messages of every call;
  - the name/e-mail search.
- **Customer table** (`src/components/CustomerCRM.js`). A class holds the component's state: the customer list, loading flag, error banner, search term, add form and edited customer. Methods implement load, add, edit and delete, plus the table's search filter and the UI toggles.
- **Scheduling adapter** (`src/services/calcom.js`). Upcoming bookings fall back to a fixed three-item mock list on any failure, and today's bookings and event types fall back to an empty list. The public booking link is built from the username and slug.

Every remote exchange is an input value: a network failure, or a response with a status, status text, text body and parsed body. The scheduling service's replies are already reduced to a body or an error. Other inputs:

- the current time, as milliseconds since the epoch;
- the displayed, current and selected dates, as civil dates;
- the local zone, as a fixed offset in minutes;
- the delete confirmation, as a boolean.

Supporting modules:

- `Common`: `Option`, `Result`, and JavaScript's `a || b` on possibly-missing strings.
- `Text`: ASCII `trim`, `toLowerCase` and `includes`, and zero-padded decimal digits.
- `Seqs`: `filter` and the subsequence relation.
- `CivilDate`: proleptic Gregorian day numbers, `getDay`, `setDate` overflow, `new Date(y, m)` month carry, and the `YYYY-MM-DD` UTC key.

The model follows the code in these details:

- **Update with an empty date.** Update does not send an explicit clear for an empty appointment date. An empty `appointmentOn` is omitted, exactly as in create (`src/services/airtable.js:166`).
- **HTTP 401.** A 401 is not classified as access denied. The probe singles out only 403, 404 and 422 (`src/services/airtable.js:27-33`). The 401/404/422 branches in `getCustomers` test `error.response`, which a `fetch` error never has, so they are unreachable (`src/services/airtable.js:79-85`).
- **Create cleaning.** Create trims and blank-checks only the name and the e-mail. `Appointment For` and `Timing` are sent whenever they are non-empty, even if they are only whitespace (`src/services/airtable.js:113-118`).
- **Per-day event filter.** The filter compares UTC date keys (`toISOString`), not local dates (`src/components/Calendar.js:62`). It matches only events whose `start` has a `date` or `dateTime` property. The events built from bookings have a `Date` there, so the calendar shows no events on any day (`Calendar.BookingEventsNeverMatch`).
- **Doubled error prefix.** The table's error banner repeats the service's prefix, e.g. "Failed to create customer: Failed to create customer: HTTP 500: …". The contracts of the three handlers state this.

## Model

| member | source | states |
|---|---|---|
| CalCom.MockBookings | src/services/calcom.js:76-101 | exactly three bookings with ids 1, 2, 3, each titled. They start at now+2h, now+4h and now+24h and end at now+2.5h, now+5h and now+24.5h, so every booking starts after now and ends after it starts |
| CalCom.UpcomingBookings | src/services/calcom.js:33-43 | the response's bookings, or none when the field is missing. Any request error yields the mock list (three items) instead of an error |
| CalCom.TodayBookings | src/services/calcom.js:45-60 | the response's bookings, none when the field is missing, and none on any error |
| CalCom.EventTypes | src/services/calcom.js:62-70 | the response's event types, none when missing, none on any error |
| CalCom.BookingUrl | src/services/calcom.js:72-74 | the link is `https://cal.com/`, then the username, a slash, and the slug, at those exact positions |
| CalCom.BookingUrlInjective | src/services/calcom.js:72-74 | for one account, two slugs with the same link are the same slug |
| CalCom.FallbackIndistinguishable | src/services/calcom.js:37-42 | a failed request and a live reply containing the mock list give identical results |
| Calendar.ToEvent | src/components/Calendar.js:28-37 | id copied. Title is title, else event-type title, else "Meeting", taking the first that is not empty. Location is location, else "Online". Description defaults to "" and attendees to []. Start and end are `Date` objects of the booking times. Never all-day; title and location never empty |
| Calendar.ToEvents | src/components/Calendar.js:28-37 | one event per booking, same length and order |
| Calendar.EventsForDate | src/components/Calendar.js:61-74 | exactly the events whose `start.date`, or else `start.dateTime`'s UTC date, equals the cell's key, every copy of each, as an order-preserving subsequence |
| Calendar.BookingEventsNeverMatch | src/components/Calendar.js:61-74 | for events built from bookings, the per-day filter is empty for every key |
| Calendar.GridStart | src/components/Calendar.js:87-90 | the first cell is a Sunday, `getDay()` of the 1st days before it, so between 0 and 6 days before the 1st |
| Calendar.MakeCell | src/components/Calendar.js:100-113 | the pushed cell holds the day of the month and its events. Current-month iff its month number is the displayed month. Today iff it is today's date. Selected iff a date is selected and equal. Has-events iff its events are non-empty |
| Calendar.GenerateCalendarGrid | src/components/Calendar.js:84-117 | exactly 42 cells, cell i being i days after the grid start, each cell carrying the flags and events above |
| Calendar.CellPlacement | src/components/Calendar.js:96-100 | the first `getDay()` cells fall in the previous month, the next `DaysInMonth` cells are days 1, 2, … of the displayed month, and the rest fall in the next month |
| Calendar.CurrentMonthRun | src/components/Calendar.js:100 | a cell is current-month iff it lies in that contiguous run. Comparing the month number alone, without the year, picks out the same cells |
| Calendar.EachDayOnce | src/components/Calendar.js:96-114 | every day of the displayed month is in the grid exactly once, at position `getDay(1st) + day - 1` |
| Calendar.GridIncreasing | src/components/Calendar.js:96-98 | cell dates strictly increase through the grid |
| Calendar.SingleSelection | src/components/Calendar.js:101-103 | no two cells share a date, so at most one cell is today and at most one is selected |
| Calendar.July2025 | src/components/Calendar.js:87-90 | 1 July 2025 is a Tuesday, and its grid starts on Sunday 29 June 2025 |
| Calendar.MonthRollover | src/components/Calendar.js:51-58 | the month before January is December of the previous year, and the month after December is January of the next year, both on day 1 |
| Calendar.NextThenPrevious | src/components/Calendar.js:51-58 | next then previous month, and previous then next, both return to the 1st of the starting month |
| Calendar.CalendarView.constructor | src/components/Calendar.js:6-12 | the initial state displays now, with no events, no selection, not loading and no error |
| Calendar.CalendarView.LoadEvents | src/components/Calendar.js:21-46 | events become the mapped upcoming bookings, three of them when the request failed. Loading ends and no error is shown. Nothing else changes |
| Calendar.CalendarView.GoToPreviousMonth | src/components/Calendar.js:51-53 | the displayed date becomes the 1st of the previous (year, month), with year rollover. The rest is unchanged |
| Calendar.CalendarView.GoToNextMonth | src/components/Calendar.js:56-58 | the displayed date becomes the 1st of the next (year, month), with year rollover. The rest is unchanged |
| Calendar.CalendarView.HandleDateClick | src/components/Calendar.js:77-81 | the clicked date is selected and the selected events are exactly that day's events |
| Calendar.CalendarView.CalendarGrid | src/components/Calendar.js:161 | the rendered grid is the 42-cell grid of the displayed month, flagged against the view's selected date and events |
| Calendar.CalendarView.CloseEventModal | src/components/Calendar.js:189 | the selected date is cleared |
| CivilDate.SetDate | src/components/Calendar.js:97-98 | `setDate(n)` gives a valid date `n - 1` days after the 1st of the month, overflowing into the neighbouring months |
| CivilDate.MonthStart | src/components/Calendar.js:52 | `new Date(y, m)` is a valid 1st-of-month whose `year * 12 + month` equals `y * 12 + m` |
| CivilDate.UtcDateOfLocalMidnight | src/components/Calendar.js:62 | the UTC date whose day contains the instant of local midnight, for an offset under a day |
| CivilDate.DayNumberInjective | src/components/Calendar.js:101 | distinct valid dates have distinct day numbers |
| CivilDate.DayNumberOrder | src/components/Calendar.js:96-98 | day numbers follow calendar order |
| Airtable.Probe | src/services/airtable.js:20-41 | true iff the response is ok. Statuses 403, 404 and 422 each give their own error. Any other failure status gives the status line with that status and status text. A network failure propagates unchanged |
| Airtable.HttpMessageInjective | src/services/airtable.js:34 | `HTTP <status>: <detail>` determines both the status and the detail |
| Airtable.ProbeMessagesDistinct | src/services/airtable.js:27-32 | the 403, 404 and 422 messages are pairwise different |
| Airtable.ProbeMessageNamesStatus | src/services/airtable.js:34 | two generic probe failures with the same message had the same status and status text |
| Airtable.GetCustomers | src/services/airtable.js:44-89 | a probe failure, listing network failure or listing HTTP failure becomes "Airtable API error: " plus its message. Otherwise the records are mapped |
| Airtable.FirstTruthy | src/services/airtable.js:67-71 | the `||` chain returns the first alias whose cell is non-empty, or "" when every cell is missing or empty |
| Airtable.ListCustomer | src/services/airtable.js:65-74 | id and raw record copied. The name comes from `Name` then `name`, the e-mail from `Email` then `email`, and the timing from `Timing`, `timing`, then `Time`. The two appointment columns have no alias |
| Airtable.ListCustomers | src/services/airtable.js:65-74 | one customer per record, same length and order |
| Airtable.WrittenCustomer | src/services/airtable.js:138-146 | only the capitalised columns are read, each defaulting to "" |
| Airtable.ListAgreesWithWritten | src/services/airtable.js:200-208 | for a record holding only the service's own columns, the list mapping and the write mapping agree |
| Airtable.Fields | src/services/airtable.js:97-118 | the sent map has only keys among the five columns, and holds exactly the columns the cleaner accepts, with their values |
| Airtable.CleanCreateFields | src/services/airtable.js:97-118 | the key-by-key construction builds exactly the create field map |
| Airtable.CleanUpdateFields | src/services/airtable.js:159-180 | the key-by-key construction builds exactly the update field map |
| Airtable.CreateFieldRules | src/services/airtable.js:98-118 | name and e-mail are sent iff present and not blank, and then trimmed. The date is sent iff it has the `^\d{4}-\d{2}-\d{2}$` shape. Appointment-for and timing are sent iff present and non-empty. Date, appointment-for and timing are sent as given |
| Airtable.UpdateFieldRules | src/services/airtable.js:160-180 | name, e-mail, appointment-for and timing are sent iff present, even if empty, and each is sent as given, untrimmed. The date follows the same shape rule as create and is sent as given |
| Airtable.CreateSendsLessThanUpdate | src/services/airtable.js:159-180 | update sends every column create sends. Apart from name and e-mail, the values are equal |
| Airtable.PickedDateHasDateShape | src/components/CustomerCRM.js:202-207 | the `yyyy-mm-dd` value a date input gives for a day of years 0–9999 passes the date-shape check, so a picked date is always sent |
| Airtable.DateShapeAcceptsImpossibleDate | src/services/airtable.js:107 | the shape check accepts "2025-13-45" (no range check) |
| Airtable.CreateRoundTrip | src/services/airtable.js:122-146 | a record echoing the create fields reads back with a trimmed name and e-mail, the date only when it had the shape, and the rest as given |
| Airtable.UpdateRoundTrip | src/services/airtable.js:184-208 | a record echoing the update fields reads back every present value unchanged, except a date without the shape |
| Airtable.WriteOutcome | src/services/airtable.js:130-146 | an ok response maps the returned record. A failure status carries the response text, or the status text when the response text is empty. A network failure carries its message. All failures carry the call's prefix |
| Airtable.CreateCustomer | src/services/airtable.js:92-151 | sends the create field map. Returns the mapped record, or an error starting "Failed to create customer: " |
| Airtable.UpdateCustomer | src/services/airtable.js:154-213 | sends the update field map. Returns the mapped record, or an error starting "Failed to update customer: " |
| Airtable.DeleteCustomer | src/services/airtable.js:216-232 | true iff ok. Otherwise an error with the prefix and the status text; the response body is never used |
| Airtable.SearchCustomers | src/services/airtable.js:235-246 | succeeds iff the listing succeeds. Then it gives exactly the customers whose lowercased name or e-mail contains the lowercased query, every copy of each, as an order-preserving subsequence. A listing failure is returned unchanged |
| Airtable.SearchIgnoresQueryCase | src/services/airtable.js:238-241 | lowercasing the query does not change the result |
| Text.Trim | src/services/airtable.js:98-99 | `trim()` is empty iff the input is blank, and otherwise neither starts nor ends with whitespace |
| Text.TrimMargins | src/services/airtable.js:99 | `trim()` returns a piece of the input with only whitespace before and after it |
| Text.Lower | src/services/airtable.js:239 | `toLowerCase()` lowercases each character in place |
| Text.ContainsAt | src/services/airtable.js:239 | `includes(t)` holds iff `t` starts at some position |
| Seqs.Filter | src/components/CustomerCRM.js:54-58 | `filter` keeps exactly the passing elements, every copy of each, as an order-preserving subsequence |
| CustomerCrm.ReplaceById | src/components/CustomerCRM.js:92 | every entry with the id is replaced, the others untouched, same length |
| CustomerCrm.ReplaceAbsentId | src/components/CustomerCRM.js:92 | editing an id not in the list leaves it unchanged |
| CustomerCrm.RemoveById | src/components/CustomerCRM.js:111 | exactly the entries with another id remain, every copy of each, in order |
| CustomerCrm.AddThenRemove | src/components/CustomerCRM.js:111 | deleting a just-appended customer with a fresh id restores the list |
| CustomerCrm.FilterCustomers | src/components/CustomerCRM.js:54-58 | exactly the customers whose lowercased name, e-mail or appointment purpose contains the lowercased term, every copy of each, in order |
| CustomerCrm.EmptyTermShowsAll | src/components/CustomerCRM.js:54-58 | an empty search term shows every customer |
| CustomerCrm.FilterIgnoresTermCase | src/components/CustomerCRM.js:54-58 | the table filter ignores the case of the term |
| CustomerCrm.SearchWithinTableFilter | src/components/CustomerCRM.js:54-58 | every customer the service's search keeps is also shown by the table filter |
| CustomerCrm.DoublePrefix | src/components/CustomerCRM.js:81 | prefixing an already prefixed message writes the prefix twice |
| CustomerCrm.CustomerTable.constructor | src/components/CustomerCRM.js:18-30 | an empty list, not loading, no error, empty search, form closed and empty, nothing being edited |
| CustomerCrm.CustomerTable.FilteredCustomers | src/components/CustomerCRM.js:54-58 | the shown rows are exactly the customers matching the search term, every copy of each, in order |
| CustomerCrm.CustomerTable.LoadCustomers | src/components/CustomerCRM.js:38-51 | success replaces the list and clears the error. Failure keeps the list and shows the message. Loading ends false |
| CustomerCrm.CustomerTable.HandleAddCustomer | src/components/CustomerCRM.js:61-85 | with a blank name or e-mail, nothing is sent and nothing changes. Otherwise the create field map is sent. Success appends the created customer, resets the form and closes it. Failure keeps the list and form, and shows an error starting with the prefix twice |
| CustomerCrm.CustomerTable.HandleEditCustomer | src/components/CustomerCRM.js:88-100 | sends the update field map. Success replaces every entry with that id and ends editing. Failure keeps the list and shows an error starting with the prefix twice |
| CustomerCrm.CustomerTable.HandleDeleteCustomer | src/components/CustomerCRM.js:103-118 | unconfirmed: no call and no change. Confirmed and ok: exactly the entries with that id are removed. Failure keeps the list and shows an error starting with the prefix twice |
| CustomerCrm.CustomerTable.OpenAddForm | src/components/CustomerCRM.js:155 | the add form opens |
| CustomerCrm.CustomerTable.CancelAddForm | src/components/CustomerCRM.js:222 | the add form closes |
| CustomerCrm.CustomerTable.BeginEdit | src/components/CustomerCRM.js:349 | a copy of the row's customer is being edited |
| CustomerCrm.CustomerTable.CancelEdit | src/components/CustomerCRM.js:313 | editing ends without saving |
| CustomerCrm.CustomerTable.DismissError | src/components/CustomerCRM.js:169 | the error banner is cleared |
| CustomerCrm.CustomerTable.SetSearchTerm | src/components/CustomerCRM.js:180 | the search term becomes the typed text |

## Left out

- HTTP and configuration plumbing:
  - The `fetch`/`axios` calls, `response.json()`/`text()`, and the JSON encoding of request bodies.
  - The request URLs, headers, tokens and `process.env` configuration.
  - `console` logging.
  - Each call's outcome is an input, and the booking-link username is a parameter.
- Malformed responses: a listing without `records`, a record without `fields`, and cell values that are not strings. Parsed bodies are well-formed, and cells are strings.
- The scheduling request helper's error wrapping (`src/services/calcom.js:14-31`): every caller discards the error. The `take`/`startTime`/`endTime` query parameters are not modelled either.
- `window.confirm` and `alert`: the confirmation is a boolean, and the alert is the refused-add branch.
- Time zones beyond a fixed offset from UTC: daylight-saving changes inside a month are not modelled. The current time is an input.
- ISO timestamp strings are held as the instant or UTC date they denote. The parsing and formatting of `toISOString` are reduced to the `YYYY-MM-DD` key, and invalid dates are not modelled.
- Locale formatting of dates and times (`toLocaleDateString`, `toLocaleTimeString`, `formatDate`) and the month and weekday names.
- `new Date(y, m)` treats years 0–99 as 1900–1999. This quirk is not modelled: years are taken as given.
- `trim` and `toLowerCase` beyond ASCII: the whitespace set is space and tab through carriage return, and only `A`–`Z` are lowercased.
- Async overlap:
  - Refreshes running at the same time, and which response arrives last.
  - The re-load that `useEffect` triggers on every change of the displayed month.
  - The intermediate `loading = true` render between two awaits.
  - Each handler is modelled as one step from the state before to the state after.
- The `catch` of `loadEvents` (`src/components/Calendar.js:40-42`) is unreachable, because the upcoming-bookings call never throws. The model has no such path.
- The dead 401/404/422 branches of `getCustomers` (`src/services/airtable.js:79-85`) are not modelled, because they are unreachable.
- The input `onChange` handlers of the add and edit forms, which copy typed text into the form state.
- JSX rendering: CSS classes, the event preview truncation and the modal markup.
- `src/services/googleCalendar.js` and the presentational components (`CalendarFallback`, `RecentActivity`, `Sidebar`, `Chart`, `QuickActions`, `Dashboard`, `StatsCard`, `App`) are not part of this model.
