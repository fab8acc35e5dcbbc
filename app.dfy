/**
 * RestaurantBookingApp: the timeslot catalog, the in-memory booking list,
 * the date query (filter, then stable sort by date-time) and the decision
 * logic of the POST and GET handlers, with the HTTP exchange reduced to
 * an input value and a Response value.
 */
module App {
  import opened Wrappers
  import opened Text
  import opened Calendar
  import opened Model
  import opened Validator

  const INVALID_REQUEST_BODY: string := "Invalid request body."
  const TIMESLOT_NOT_AVAILABLE: string := "Required timeslot is not available."
  const QUERY_DATE_REQUIRED: string := "Date is required."
  const QUERY_INVALID_DATE: string := "Invalid date format."

  /** AVAILABLE_TIMESLOTS. */
  const AVAILABLE_TIMESLOTS: seq<Time> :=
    [Time(10, 0, 0), Time(12, 0, 0), Time(14, 0, 0), Time(16, 0, 0), Time(18, 0, 0), Time(20, 0, 0)]

  /** getAvailableTimeslots(): six slots two hours apart, from 10:00 to 20:00, in increasing order. */
  function AvailableTimeslots(): (slots: seq<Time>)
    ensures |slots| == 6
    ensures forall i :: 0 <= i < |slots| ==> slots[i] == Time(10 + 2 * i, 0, 0) && ValidTime(slots[i])
    ensures forall i, j :: 0 <= i < j < |slots| ==> TimeBefore(slots[i], slots[j])
  {
    AVAILABLE_TIMESLOTS
  }

  // ---------------------------------------------------------------------
  // getBookings: filter by date, then Stream.sorted by dateTime (stable)
  // ---------------------------------------------------------------------

  /** The entries of `s` at exactly the date-time `k`, in their order in `s`. */
  function AtDateTime(s: seq<Booking>, k: DateTime): (r: seq<Booking>) {
    if s == [] then []
    else (if s[0].dateTime == k then [s[0]] else []) + AtDateTime(s[1..], k)
  }

  lemma {:induction false} AtDateTimeConcat(a: seq<Booking>, b: seq<Booking>, k: DateTime)
    ensures AtDateTime(a + b, k) == AtDateTime(a, k) + AtDateTime(b, k)
  {
    if a == [] {
      assert a + b == b;
    } else {
      assert (a + b)[1..] == a[1..] + b;
      AtDateTimeConcat(a[1..], b, k);
    }
  }

  /** The stream filter: the entries whose date is `date`. */
  function OnDate(s: seq<Booking>, date: Date): (r: seq<Booking>)
    ensures forall b :: multiset(r)[b] == if b.dateTime.date == date then multiset(s)[b] else 0
  {
    if s == [] then []
    else
      assert s == [s[0]] + s[1..];
      (if s[0].dateTime.date == date then [s[0]] else []) + OnDate(s[1..], date)
  }

  /** The filter keeps the entries at each date-time of `date` in their original order. */
  lemma {:induction false} OnDateKeepsOrder(s: seq<Booking>, date: Date, k: DateTime)
    requires k.date == date
    ensures AtDateTime(OnDate(s, date), k) == AtDateTime(s, k)
  {
    if s != [] {
      var head := if s[0].dateTime.date == date then [s[0]] else [];
      AtDateTimeConcat(head, OnDate(s[1..], date), k);
      OnDateKeepsOrder(s[1..], date, k);
    }
  }

  /** Ascending by date-time: no entry is before an earlier one. */
  predicate SortedByDateTime(s: seq<Booking>) {
    forall i, j :: 0 <= i < j < |s| ==> !DateTimeBefore(s[j].dateTime, s[i].dateTime)
  }

  /** Inserts `b` before the first entry that is not before it, so after every entry before it. */
  function Insert(b: Booking, s: seq<Booking>): (r: seq<Booking>)
    ensures multiset(r) == multiset(s) + multiset{b}
  {
    if s == [] || !DateTimeBefore(s[0].dateTime, b.dateTime) then
      [b] + s
    else
      assert s == [s[0]] + s[1..];
      [s[0]] + Insert(b, s[1..])
  }

  /** Inserting into a sorted sequence keeps it sorted. */
  lemma {:induction false} InsertKeepsSorted(b: Booking, s: seq<Booking>)
    requires SortedByDateTime(s)
    ensures SortedByDateTime(Insert(b, s))
  {
    if s == [] || !DateTimeBefore(s[0].dateTime, b.dateTime) {
      var r := [b] + s;
      forall i, j | 0 <= i < j < |r| ensures !DateTimeBefore(r[j].dateTime, r[i].dateTime) {
        if i == 0 {
          DateTimeOrderIsTotal(s[0].dateTime, s[j - 1].dateTime);
        }
      }
    } else {
      var rest := Insert(b, s[1..]);
      InsertKeepsSorted(b, s[1..]);
      var r := [s[0]] + rest;
      assert Insert(b, s) == r;
      forall j | 0 < j < |r| ensures !DateTimeBefore(r[j].dateTime, s[0].dateTime) {
        assert r[j] == rest[j - 1];
        assert r[j] in multiset(rest);
        if r[j] == b {
          DateTimeOrderIsTotal(s[0].dateTime, b.dateTime);
        } else {
          assert r[j] in multiset(s[1..]);
          var m :| 0 <= m < |s[1..]| && s[1..][m] == r[j];
          assert s[m + 1] == r[j];
        }
      }
    }
  }

  lemma AtDateTimeSingle(x: Booking, k: DateTime)
    ensures AtDateTime([x], k) == if x.dateTime == k then [x] else []
  {
    assert [x][1..] == [];
  }

  /** Inserting `b` puts it in front of the entries at its own date-time and leaves other date-times alone. */
  lemma {:induction false} InsertIsStable(b: Booking, s: seq<Booking>, k: DateTime)
    ensures AtDateTime(Insert(b, s), k) == (if b.dateTime == k then [b] else []) + AtDateTime(s, k)
  {
    var mine: seq<Booking> := if b.dateTime == k then [b] else [];
    if s == [] || !DateTimeBefore(s[0].dateTime, b.dateTime) {
      AtDateTimeConcat([b], s, k);
      AtDateTimeSingle(b, k);
    } else {
      var rest := Insert(b, s[1..]);
      var front: seq<Booking> := if s[0].dateTime == k then [s[0]] else [];
      assert AtDateTime(s, k) == front + AtDateTime(s[1..], k) by {
        AtDateTimeConcat([s[0]], s[1..], k);
        AtDateTimeSingle(s[0], k);
        assert s == [s[0]] + s[1..];
      }
      assert AtDateTime([s[0]] + rest, k) == front + (mine + AtDateTime(s[1..], k)) by {
        InsertIsStable(b, s[1..], k);
        AtDateTimeConcat([s[0]], rest, k);
        AtDateTimeSingle(s[0], k);
      }
      var after := AtDateTime(s[1..], k);
      if front == [] {
        assert front + (mine + after) == mine + after;
        assert front + after == after;
      } else {
        assert mine == [];
        assert mine + after == after;
        assert mine + (front + after) == front + after;
      }
    }
  }

  /** Stream.sorted(Comparator.comparing(Booking::dateTime)) as an insertion sort from the back. */
  function SortByDateTime(s: seq<Booking>): (r: seq<Booking>)
    ensures multiset(r) == multiset(s)
  {
    if s == [] then []
    else
      assert s == [s[0]] + s[1..];
      Insert(s[0], SortByDateTime(s[1..]))
  }

  /** The sort orders by date-time. */
  lemma {:induction false} SortIsSorted(s: seq<Booking>)
    ensures SortedByDateTime(SortByDateTime(s))
  {
    if s != [] {
      SortIsSorted(s[1..]);
      InsertKeepsSorted(s[0], SortByDateTime(s[1..]));
    }
  }

  /** The sort is stable: entries at equal date-times keep their order. */
  lemma {:induction false} SortIsStable(s: seq<Booking>, k: DateTime)
    ensures AtDateTime(SortByDateTime(s), k) == AtDateTime(s, k)
  {
    if s != [] {
      SortIsStable(s[1..], k);
      InsertIsStable(s[0], SortByDateTime(s[1..]), k);
      AtDateTimeConcat([s[0]], s[1..], k);
      assert s == [s[0]] + s[1..];
    }
  }

  // ---------------------------------------------------------------------
  // Handler outcomes
  // ---------------------------------------------------------------------

  /** What a handler writes back: the status and the body. */
  datatype Response =
    | Listed(bookings: seq<Booking>)   // 200, the bookings as JSON
    | Created                          // 201, no body
    | BadRequest(message: string)      // 400, a plain-text message
  {
    function Status(): (code: int) {
      match this
      case Listed(_) => 200
      case Created => 201
      case BadRequest(_) => 400
    }
  }

  /** The POST body: unreadable (IOException), or what Gson made of it (null for an empty body). */
  datatype RequestBody = Unreadable | Parsed(request: Option<BookingRequest>)

  /** What every booking made through the POST handler satisfies. */
  predicate WellFormedBooking(b: Booking) {
    && Present(Some(b.name))
    && TableSizeInRange(b.tableSize)
    && ValidDate(b.dateTime.date)
    && b.dateTime.time in AvailableTimeslots()
    && Present(Some(b.customerTel))
  }

  /** The booking a POST of an acceptable request records. */
  function BookingFor(r: BookingRequest, today: Date, id: Uuid): (b: Booking)
    requires Acceptable(r, today)
    ensures b.id == id && b.name == r.name.value && b.tableSize == r.tableSize && b.customerTel == r.customerTel.value
    ensures b.dateTime == DateTime(ParseDate(r.date.value).value, ParseTime(r.time.value).value)
    ensures DateBefore(today, b.dateTime.date)
  {
    Booking(id, r.name.value, r.tableSize,
            DateTime(ParseDate(r.date.value).value, ParseTime(r.time.value).value),
            r.customerTel.value)
  }

  class RestaurantBookingApp {
    /** BOOKINGS: every booking recorded, in the order recorded. */
    var bookings: seq<Booking>

    constructor ()
      ensures bookings == []
    {
      bookings := [];
    }

    /** createBooking: appends, never rejects. */
    method CreateBooking(booking: Booking)
      modifies this
      ensures bookings == old(bookings) + [booking]
      ensures |bookings| == |old(bookings)| + 1
      ensures forall i :: 0 <= i < |old(bookings)| ==> bookings[i] == old(bookings)[i]
    {
      bookings := bookings + [booking];
    }

    /**
     * getBookings(date): the bookings on `date`, each as often as it was
     * recorded, ascending by date-time, and at equal date-times in the
     * order recorded.
     */
    function GetBookings(date: Date): (r: seq<Booking>)
      reads this
      ensures forall b :: b in r ==> b.dateTime.date == date
      ensures forall b :: multiset(r)[b] == if b.dateTime.date == date then multiset(bookings)[b] else 0
      ensures SortedByDateTime(r)
      ensures forall k: DateTime :: k.date == date ==> AtDateTime(r, k) == AtDateTime(bookings, k)
    {
      var r := SortByDateTime(OnDate(bookings, date));
      SortIsSorted(OnDate(bookings, date));
      forall k: DateTime | k.date == date ensures AtDateTime(r, k) == AtDateTime(bookings, k) {
        SortIsStable(OnDate(bookings, date), k);
        OnDateKeepsOrder(bookings, date, k);
      }
      assert forall b :: b in r ==> b.dateTime.date == date by {
        forall b | b in r ensures b.dateTime.date == date {
          assert multiset(r)[b] > 0;
        }
      }
      r
    }

    /**
     * handleGetBookings: a missing date and an unreadable date are refused
     * before the store is consulted; otherwise 200 with getBookings(date).
     */
    method HandleGetBookings(dateParam: Option<string>) returns (response: Response)
      ensures dateParam.None? ==> response == BadRequest(QUERY_DATE_REQUIRED)
      ensures dateParam.Some? && ParseDate(dateParam.value).None? ==> response == BadRequest(QUERY_INVALID_DATE)
      ensures dateParam.Some? && ParseDate(dateParam.value).Some? ==>
                response == Listed(GetBookings(ParseDate(dateParam.value).value))
      ensures response.Status() == 200 <==> dateParam.Some? && ParseDate(dateParam.value).Some?
    {
      if dateParam.None? {
        return BadRequest(QUERY_DATE_REQUIRED);
      }
      var validatedDate := ParseDate(dateParam.value);
      if validatedDate.None? {
        return BadRequest(QUERY_INVALID_DATE);
      }
      var found := GetBookings(validatedDate.value);
      return Listed(found);
    }

    /**
     * handlePostBooking: validate, join date and time, check the timeslot
     * catalog, record a new booking under `freshId` (the UUID the source
     * draws at random). Only the last step changes the store; there is no
     * check against bookings already made.
     */
    method HandlePostBooking(body: RequestBody, today: Date, freshId: Uuid) returns (response: Response)
      requires ValidDate(today)
      modifies this
      ensures body.Unreadable? ==> response == BadRequest(INVALID_REQUEST_BODY) && bookings == old(bookings)
      ensures body.Parsed? && Violations(body.request, today) != [] ==>
                response == BadRequest(Join(Violations(body.request, today), "\n")) && bookings == old(bookings)
      ensures body.Parsed? && body.request.Some? && Acceptable(body.request.value, today) ==>
                var booking := BookingFor(body.request.value, today, freshId);
                if booking.dateTime.time in AvailableTimeslots() then
                  response == Created && bookings == old(bookings) + [booking]
                else
                  response == BadRequest(TIMESLOT_NOT_AVAILABLE) && bookings == old(bookings)
      ensures response.Status() == 201 || response.Status() == 400
      ensures response == Created <==> |bookings| == |old(bookings)| + 1
      ensures response != Created ==> bookings == old(bookings)
      ensures (forall b :: b in old(bookings) ==> WellFormedBooking(b)) ==> (forall b :: b in bookings ==> WellFormedBooking(b))
    {
      if body.Unreadable? {
        return BadRequest(INVALID_REQUEST_BODY);
      }
      var bookingRequest := body.request;
      if bookingRequest.Some? {
        AcceptedIff(bookingRequest.value, today);
      }
      var verdict := IsValid(bookingRequest, today);
      if verdict.Failed? {
        return BadRequest(verdict.Message());
      }
      var r := bookingRequest.value;
      ParseJoinedDateTime(r.date.value, r.time.value);
      var bookingDateTime := ParseDateTime(r.date.value + "T" + r.time.value).value;
      if bookingDateTime.time !in AvailableTimeslots() {
        return BadRequest(TIMESLOT_NOT_AVAILABLE);
      }
      var booking := Booking(freshId, r.name.value, r.tableSize, bookingDateTime, r.customerTel.value);
      assert booking == BookingFor(r, today, freshId);
      CreateBooking(booking);
      response := Created;
    }
  }
}
