/** The scheduling-service adapter (src/services/calcom.js): upcoming and
    today's bookings with their fallbacks, event types, the fixed mock list
    and the public booking-page link. The HTTP request itself is an input. */
module CalCom {
  import opened Common

  datatype Attendee = Attendee(name: Option<string>, email: Option<string>)

  datatype EventType = EventType(title: Option<string>)

  /** A booking as the scheduling API returns it; `startTime` and `endTime`
      are ISO-8601 timestamps, held here as the milliseconds since
      1970-01-01T00:00:00Z that they denote. */
  datatype Booking = Booking(
    id: int,
    title: Option<string>,
    eventType: Option<EventType>,
    startTime: int,
    endTime: int,
    location: Option<string>,
    description: Option<string>,
    attendees: Option<seq<Attendee>>)

  /** The JSON body of a bookings response; `bookings` may be missing. */
  datatype BookingsBody = BookingsBody(bookings: Option<seq<Booking>>)

  /** The JSON body of an event-types response; `event_types` may be missing. */
  datatype EventTypesBody = EventTypesBody(eventTypes: Option<seq<EventType>>)

  /** What a request to the scheduling API produced: the response body, or an
      error (network failure or non-2xx status, already wrapped by the request helper). */
  datatype ApiReply<T> = Received(body: T) | RequestFailed(message: string)

  const MsPerHour: int := 3600000
  const BookingPageBase: string := "https://cal.com/"

  /** `getMockBookings`: three meetings at now+2h, now+4h and now+24h, lasting
      half an hour, one hour and half an hour; `now` is `Date.now()`. */
  function MockBookings(now: int): (r: seq<Booking>)
    ensures |r| == 3 && r[0].id == 1 && r[1].id == 2 && r[2].id == 3
    ensures forall i :: 0 <= i < |r| ==> now < r[i].startTime < r[i].endTime && Truthy(r[i].title)
    ensures r[0].startTime == now + 2 * MsPerHour && r[0].endTime == now + 5 * MsPerHour / 2
    ensures r[1].startTime == now + 4 * MsPerHour && r[1].endTime == now + 5 * MsPerHour
    ensures r[2].startTime == now + 24 * MsPerHour && r[2].endTime == now + 49 * MsPerHour / 2
  {
    [ Booking(1, Some("Team Standup"), None, now + 2 * MsPerHour, now + 5 * MsPerHour / 2,
              None, None, Some([Attendee(Some("Development Team"), None)])),
      Booking(2, Some("Client Call - Project Review"), None, now + 4 * MsPerHour, now + 5 * MsPerHour,
              None, None, Some([Attendee(Some("Client ABC"), None)])),
      Booking(3, Some("1-on-1 Meeting"), None, now + 24 * MsPerHour, now + 49 * MsPerHour / 2,
              None, None, Some([Attendee(Some("Team Lead"), None)])) ]
  }

  /** `getUpcomingBookings`: the response's `bookings` (none when the field is
      missing); on any request error, the mock list instead of an error. */
  function UpcomingBookings(reply: ApiReply<BookingsBody>, now: int): (r: seq<Booking>)
    ensures reply.Received? && reply.body.bookings.Some? ==> r == reply.body.bookings.value
    ensures reply.Received? && reply.body.bookings.None? ==> r == []
    ensures reply.RequestFailed? ==> r == MockBookings(now) && |r| == 3
  {
    match reply
    case Received(body) => if body.bookings.Some? then body.bookings.value else []
    case RequestFailed(_) => MockBookings(now)
  }

  /** `getTodayBookings`: the response's `bookings`, and no bookings at all on any error. */
  function TodayBookings(reply: ApiReply<BookingsBody>): (r: seq<Booking>)
    ensures reply.Received? && reply.body.bookings.Some? ==> r == reply.body.bookings.value
    ensures reply.Received? && reply.body.bookings.None? ==> r == []
    ensures reply.RequestFailed? ==> r == []
  {
    match reply
    case Received(body) => if body.bookings.Some? then body.bookings.value else []
    case RequestFailed(_) => []
  }

  /** `getEventTypes`: the response's `event_types`, and none on any error. */
  function EventTypes(reply: ApiReply<EventTypesBody>): (r: seq<EventType>)
    ensures reply.Received? && reply.body.eventTypes.Some? ==> r == reply.body.eventTypes.value
    ensures reply.Received? && reply.body.eventTypes.None? ==> r == []
    ensures reply.RequestFailed? ==> r == []
  {
    match reply
    case Received(body) => if body.eventTypes.Some? then body.eventTypes.value else []
    case RequestFailed(_) => []
  }

  /** `getBookingUrl`: the account's public page for one event type. */
  function BookingUrl(username: string, slug: string): (r: string)
    ensures |r| == |BookingPageBase| + |username| + 1 + |slug|
    ensures r[..|BookingPageBase|] == BookingPageBase
    ensures r[|BookingPageBase|..|BookingPageBase| + |username|] == username
    ensures r[|BookingPageBase| + |username|] == '/'
    ensures r[|BookingPageBase| + |username| + 1..] == slug
  {
    BookingPageBase + username + "/" + slug
  }

  /** For one account, different event types get different links. */
  lemma BookingUrlInjective(username: string, slug1: string, slug2: string)
    requires BookingUrl(username, slug1) == BookingUrl(username, slug2)
    ensures slug1 == slug2
  {
    var n := |BookingPageBase| + |username| + 1;
    assert slug1 == BookingUrl(username, slug1)[n..];
  }

  /** A failed request and a live response that happens to hold the mock list
      give the same result: callers cannot tell degraded mode from live data. */
  lemma FallbackIndistinguishable(now: int, message: string)
    ensures UpcomingBookings(RequestFailed(message), now)
         == UpcomingBookings(Received(BookingsBody(Some(MockBookings(now)))), now)
  {
  }
}
