/**
 * The cases of RestaurantBookingAppTest as client code of the model: what
 * each handler call answers, proved from the handlers' contracts.
 */
module Scenarios {
  import opened Wrappers
  import opened Text
  import opened Calendar
  import opened Model
  import opened Validator
  import opened App

  /** The request of testPostBooking_success: Bob, 2, the given day, the given time, 123-456-7890. */
  function BobsRequest(day: Date, time: Time): (request: BookingRequest)
    requires ValidDate(day) && FourDigitYear(day) && ValidTime(time)
  {
    BookingRequest(Some("Bob"), 2, Some(FormatDate(day)), Some(FormatTime(time)), Some("123-456-7890"))
  }

  /** Bob's request for tomorrow is acceptable and books the date and time it names. */
  lemma BobsRequestAcceptable(today: Date, time: Time, id: Uuid)
    requires ValidDate(today) && FourDigitYear(NextDay(today)) && ValidTime(time)
    ensures Acceptable(BobsRequest(NextDay(today), time), today)
    ensures BookingFor(BobsRequest(NextDay(today), time), today, id)
            == Booking(id, "Bob", 2, DateTime(NextDay(today), time), "123-456-7890")
  {
    ParseFormatDate(NextDay(today));
    ParseFormatTime(time);
    assert "Bob"[0] > ' ';
    assert "123-456-7890"[0] > ' ';
  }

  /** testPostBooking_success: Bob, 2, tomorrow at 12:00 is recorded and then listed for tomorrow. */
  method PostThenList(today: Date, id: Uuid) returns (post: Response, listed: Response)
    requires ValidDate(today) && FourDigitYear(NextDay(today))
    ensures post == Created
    ensures listed == Listed([Booking(id, "Bob", 2, DateTime(NextDay(today), Time(12, 0, 0)), "123-456-7890")])
  {
    var app := new RestaurantBookingApp();
    var tomorrow := NextDay(today);
    var noon := Time(12, 0, 0);
    var booking := Booking(id, "Bob", 2, DateTime(tomorrow, noon), "123-456-7890");
    BobsRequestAcceptable(today, noon, id);
    assert AvailableTimeslots()[1] == noon;
    post := app.HandlePostBooking(Parsed(Some(BobsRequest(tomorrow, noon))), today, id);
    assert app.bookings == [booking];
    assert OnDate([booking], tomorrow) == [booking];
    assert SortByDateTime([booking]) == [booking];
    ParseFormatDate(tomorrow);
    listed := app.HandleGetBookings(Some(FormatDate(tomorrow)));
  }

  /** testPostBooking_timeslotUnavailable: 13:00 is not a timeslot, so nothing is recorded. */
  method PostOutsideCatalog(today: Date, id: Uuid) returns (post: Response, stored: seq<Booking>)
    requires ValidDate(today) && FourDigitYear(NextDay(today))
    ensures post == BadRequest(TIMESLOT_NOT_AVAILABLE) && post.Status() == 400
    ensures stored == []
  {
    var app := new RestaurantBookingApp();
    var one := Time(13, 0, 0);
    BobsRequestAcceptable(today, one, id);
    assert one !in AvailableTimeslots();
    post := app.HandlePostBooking(Parsed(Some(BobsRequest(NextDay(today), one))), today, id);
    stored := app.bookings;
  }

  /** testPostBooking_invalidRequestFields: ("", -1, "", "", "") is refused and nothing is recorded. */
  method PostInvalidFields(today: Date, id: Uuid) returns (post: Response, stored: seq<Booking>)
    requires ValidDate(today)
    ensures post.BadRequest? && post.Status() == 400
    ensures stored == []
  {
    var app := new RestaurantBookingApp();
    var request := BookingRequest(Some(""), -1, Some(""), Some(""), Some(""));
    assert Violations(Some(request), today) != [];
    post := app.HandlePostBooking(Parsed(Some(request)), today, id);
    stored := app.bookings;
  }

  /** testPostBooking_invalidJson: an unreadable body is refused with "Invalid request body.". */
  method PostUnreadableBody(today: Date, id: Uuid) returns (post: Response, stored: seq<Booking>)
    requires ValidDate(today)
    ensures post == BadRequest("Invalid request body.")
    ensures stored == []
  {
    var app := new RestaurantBookingApp();
    post := app.HandlePostBooking(Unreadable, today, id);
    stored := app.bookings;
  }

  /** testGetBookings_missingDate and testGetBookings_invalidDate. */
  method GetWithoutUsableDate() returns (missing: Response, malformed: Response)
    ensures missing == BadRequest("Date is required.") && missing.Status() == 400
    ensures malformed == BadRequest("Invalid date format.") && malformed.Status() == 400
  {
    var app := new RestaurantBookingApp();
    missing := app.HandleGetBookings(None);
    var text := "not a date";
    assert !IsDigit(text[..4][0]);
    malformed := app.HandleGetBookings(Some(text));
  }

  /** Filtering [tammy, bob, alice] on tammy's and alice's day drops bob. */
  lemma TomorrowsFilter(day: Date, tammy: Booking, bob: Booking, alice: Booking)
    requires tammy.dateTime.date == day && alice.dateTime.date == day && bob.dateTime.date != day
    ensures OnDate([tammy, bob, alice], day) == [tammy, alice]
  {
    assert [tammy, bob, alice][1..] == [bob, alice];
    assert [bob, alice][1..] == [alice];
    assert OnDate([alice], day) == [alice] by {
      assert [alice][1..] == [];
    }
    assert OnDate([bob, alice], day) == OnDate([alice], day);
  }

  /** Sorting [tammy, alice] puts alice, the earlier one, first. */
  lemma TomorrowsSort(tammy: Booking, alice: Booking)
    requires DateTimeBefore(alice.dateTime, tammy.dateTime)
    ensures SortByDateTime([tammy, alice]) == [alice, tammy]
  {
    assert [tammy, alice][1..] == [alice];
    assert SortByDateTime([alice]) == [alice] by {
      assert [alice][1..] == [];
    }
    assert Insert(tammy, [alice]) == [alice] + Insert(tammy, []);
  }

  /** Two days after a valid date is another date. */
  lemma TwoDaysLaterDiffers(d: Date)
    requires ValidDate(d)
    ensures NextDay(NextDay(d)) != d
  {
    assert DateBefore(d, NextDay(d)) && DateBefore(NextDay(d), NextDay(NextDay(d)));
  }

  /** A fresh application into which each of `all` is created in turn holds exactly `all`. */
  method StoreAll(all: seq<Booking>) returns (app: RestaurantBookingApp)
    ensures fresh(app) && app.bookings == all
  {
    app := new RestaurantBookingApp();
    for i := 0 to |all|
      invariant app.bookings == all[..i]
    {
      app.CreateBooking(all[i]);
    }
    assert all[..|all|] == all;
  }

  /**
   * testGetBookings_validDate_success: of Tammy (tomorrow 14:00), Bob (in
   * three days, 12:00) and Alice (tomorrow 12:00), the query for tomorrow
   * lists Alice, then Tammy.
   */
  method ListTomorrow(today: Date, tammyId: Uuid, bobId: Uuid, aliceId: Uuid) returns (listed: Response)
    requires ValidDate(today) && FourDigitYear(NextDay(today))
    ensures var tomorrow := NextDay(today);
      listed == Listed([Booking(aliceId, "Alice", 2, DateTime(tomorrow, Time(12, 0, 0)), "123-456-7890"),
                        Booking(tammyId, "Tammy", 3, DateTime(tomorrow, Time(14, 0, 0)), "253-456-7890")])
  {
    var tomorrow := NextDay(today);
    var later := NextDay(NextDay(tomorrow));
    var tammy := Booking(tammyId, "Tammy", 3, DateTime(tomorrow, Time(14, 0, 0)), "253-456-7890");
    var bob := Booking(bobId, "Bob", 4, DateTime(later, Time(12, 0, 0)), "416-456-7890");
    var alice := Booking(aliceId, "Alice", 2, DateTime(tomorrow, Time(12, 0, 0)), "123-456-7890");
    var app := StoreAll([tammy, bob, alice]);
    TwoDaysLaterDiffers(tomorrow);
    TomorrowsFilter(tomorrow, tammy, bob, alice);
    TomorrowsSort(tammy, alice);
    ParseFormatDate(tomorrow);
    listed := app.HandleGetBookings(Some(FormatDate(tomorrow)));
  }

  /** Two identical acceptable requests are both recorded: there is no check for a slot already taken. */
  method BookSameSlotTwice(request: BookingRequest, today: Date, firstId: Uuid, secondId: Uuid)
    returns (first: Response, second: Response, stored: seq<Booking>)
    requires ValidDate(today) && Acceptable(request, today)
    requires ParseTime(request.time.value).value in AvailableTimeslots()
    ensures first == Created && second == Created
    ensures |stored| == 2 && stored[0].dateTime == stored[1].dateTime
  {
    var app := new RestaurantBookingApp();
    first := app.HandlePostBooking(Parsed(Some(request)), today, firstId);
    second := app.HandlePostBooking(Parsed(Some(request)), today, secondId);
    stored := app.bookings;
  }

  /** getBookings changes nothing: two queries in a row answer the same. */
  method QueryTwice(app: RestaurantBookingApp, dateParam: Option<string>) returns (first: Response, second: Response)
    ensures first == second
  {
    first := app.HandleGetBookings(dateParam);
    second := app.HandleGetBookings(dateParam);
  }
}
