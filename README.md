# Restaurant booking service: a Dafny model

This project models the booking core of a small Java restaurant booking
service with two parts.

- **The request validator**, `BookingRequestValidator.isValid`. It checks a
  booking request (name, table size, date text, time text, customer
  telephone). For each rule the request breaks it collects one message, in a
  fixed order. When it has collected anything, it rejects the request with
  the messages joined by line breaks.
- **The application**, `RestaurantBookingApp`. It holds:
  - the fixed catalog of six timeslots;
  - the append-only, in-memory booking list;
  - the date query, which filters the list by date and then stable-sorts it
    by date-time;
  - the decision logic of the POST handler (validate, join date and time,
    check the catalog, record the booking) and of the GET handler (require a
    readable date, then list).

The modules follow the program's structure:

| file | module | what it holds |
|---|---|---|
| `wrappers.dfy` | `Wrappers` | `Option`, standing for Java's nullable references |
| `text.dfy` | `Text` | `String.trim`, `String.join` and its inverse split, decimal digits |
| `calendar.dfy` | `Calendar` | the part of `java.time` the core uses: dates, times, their order, the next day, and strict ISO parsing and printing |
| `model.dfy` | `Model` | the `Booking` record and the incoming request |
| `validator.dfy` | `Validator` | `isValid` as a method that builds its message list step by step, the rules it implements, and their proofs |
| `app.dfy` | `App` | the catalog, the query, and a class `RestaurantBookingApp` whose field `bookings` the methods reassign |
| `scenarios.dfy` | `Scenarios` | the repository's unit tests, as client methods whose contracts state the expected outcomes |

Three things are parameters instead of being read from the environment:
`LocalDate.now()` becomes `today`, `UUID.randomUUID()` becomes `freshId`, and
the HTTP request and response become a `RequestBody` input and a `Response`
value.

Two details of the code are worth noting:

- The table-size message reads "greater than 0 and smaller than 10".
  However, the check `tableSize <= 0 || tableSize > 10` accepts 10.
  `Validator.TableSizeRule` proves that the accepted range is 1 to 10
  inclusive, and `Validator.TableSizeMessageNamesLimit` proves that the
  message is the one `String.format` builds from `MAX_TABLE_SIZE`.
- A malformed JSON payload does not get a 400 answer.
  - Only an `IOException` while reading the body leads to 400
    "Invalid request body." (RestaurantBookingApp.java:103-106).
  - Gson reports malformed JSON with `JsonSyntaxException`, a
    `RuntimeException` that is not an `IllegalArgumentException`. The
    catch-all turns it into 500.
  - The model follows the code: `RequestBody.Unreadable` stands for the
    `IOException`, and the 500 path is left out (see below).

Dates and times are read with the strict ISO forms: `YYYY-MM-DD` with a
four-digit year, and `HH:MM` or `HH:MM:SS`. `Calendar.ParseDate` and
`Calendar.ParseTime` are concrete parsers. `ParseDate` is proved inverse
to `FormatDate` in both directions. `ParseTime` inverts both `FormatTime`
(which omits zero seconds, as `LocalTime.toString` does) and
`HourMinuteSecond` (which always writes them), and every text it accepts is
one of those two renderings.

A `Booking`'s date-time has the type `Calendar.ValidDateTime`, so like a
`LocalDateTime` it always holds a valid date and a valid time of day.

## Model

Source paths are relative to the repository root.

| member | source | states |
|---|---|---|
| Validator.IsValid | src/main/java/com/example/validator/BookingRequestValidator.java:14-58 | A null request yields exactly `["Booking request is not found."]`. Otherwise the request passes exactly when no message was collected. A failure always carries the full list of collected messages, never an empty one. |
| Validator.NullRequestExample | src/main/java/com/example/validator/BookingRequestValidator.java:15-17 | A null request produces the single message "Booking request is not found.", and that message is the whole exception text. |
| Validator.AcceptedIff | src/main/java/com/example/validator/BookingRequestValidator.java:19-57 | A request yields no message if and only if all five hold: the name has a non-space character, the table size is in 1..10, the date parses and is after today, the time parses, and the telephone has a non-space character. |
| Validator.BlankIsAbsent | src/main/java/com/example/validator/BookingRequestValidator.java:20-53 | "null or `trim()` leaves nothing" is the same as "absent, or no character above U+0020". |
| Validator.NameRule | src/main/java/com/example/validator/BookingRequestValidator.java:20-22 | "Name is required." is reported if and only if the name is null or whitespace only. |
| Validator.TableSizeRule | src/main/java/com/example/validator/BookingRequestValidator.java:24-26 | The table-size message is reported if and only if the size is outside 1..10. Both 1 and 10 are accepted. |
| Validator.TableSizeMessageNamesLimit | src/main/java/com/example/validator/BookingRequestValidator.java:25 | The table-size message is the format text with `MAX_TABLE_SIZE` written in decimal. |
| Validator.DateRule | src/main/java/com/example/validator/BookingRequestValidator.java:28-39 | "Date is required." is reported iff the date is blank. "Invalid date format." is reported iff it is present but does not parse. "Date is invalid." is reported iff it parses to a day that is not after today. |
| Validator.TomorrowIsFirstBookableDay | src/main/java/com/example/validator/BookingRequestValidator.java:33-35 | Today's date text yields exactly "Date is invalid.". Tomorrow's yields no date message. |
| Validator.TimeRule | src/main/java/com/example/validator/BookingRequestValidator.java:41-49 | "Time is required." is reported iff the time is blank. "Invalid time format." is reported iff it is present but does not parse as `HH:MM[:SS]`. |
| Validator.TelRule | src/main/java/com/example/validator/BookingRequestValidator.java:51-53 | "Customer telephone is required." is reported iff the telephone is null or whitespace only. |
| Validator.MessagesFollowFields | src/main/java/com/example/validator/BookingRequestValidator.java:19-53 | The messages correspond one to one, in order, to the violated fields, taken in the order name, table size, date, time, telephone. So there are never more than five. |
| Validator.FiveViolationsExample | src/test/java/com/example/validator/BookingRequestValidatorTest.java:121-131 | ("", -1, yesterday, "13pm", null) yields exactly five messages. |
| Validator.FailureMessageLines | src/main/java/com/example/validator/BookingRequestValidator.java:55-57 | When isValid throws, splitting its message at the line breaks gives back the collected messages, in order. |
| Calendar.NextDay | src/main/java/com/example/validator/BookingRequestValidator.java:33 | `plusDays(1)` gives a valid date after the given one, and no valid date lies between the two. |
| Calendar.BeforeNextDay | src/main/java/com/example/validator/BookingRequestValidator.java:33 | `d.isBefore(today.plusDays(1))` holds exactly when `d` is not after today. |
| Calendar.ParseDate | src/main/java/com/example/validator/BookingRequestValidator.java:32 | A successful `LocalDate.parse` gives a valid calendar date with a four-digit year. |
| Calendar.ParsedDateIsCanonical | src/main/java/com/example/validator/BookingRequestValidator.java:32 | Only the canonical text of a date parses: printing the parsed date reproduces the input. |
| Calendar.ParseFormatDate | src/main/java/com/example/RestaurantBookingApp.java:62 | Parsing the printed form of a valid date gives that date back. |
| Calendar.ParseTime | src/main/java/com/example/validator/BookingRequestValidator.java:45 | A successful `LocalTime.parse` gives a valid time of day. |
| Calendar.ParsedTimeIsCanonical | src/main/java/com/example/validator/BookingRequestValidator.java:45 | A text that parses is exactly the `HH:MM` or the `HH:MM:SS` rendering of the time it parses to. |
| Calendar.ParseFormatTime | src/main/java/com/example/validator/BookingRequestValidator.java:45 | Parsing what `LocalTime.toString` prints (`HH:MM` when the seconds are zero), or the full `HH:MM:SS` form, gives the time back. |
| Calendar.ParseJoinedDateTime | src/main/java/com/example/RestaurantBookingApp.java:84 | `LocalDateTime.parse(date + "T" + time)` succeeds on texts that parse separately, and gives the pair of their values. |
| Calendar.DateTimeOrderIsTotal | src/main/java/com/example/RestaurantBookingApp.java:120 | The date-time order that `Comparator.comparing(Booking::dateTime)` uses is asymmetric and total: of two distinct date-times exactly one is before the other. |
| Calendar.DateTimeOrderIsTransitive | src/main/java/com/example/RestaurantBookingApp.java:120 | The same order is transitive, so together with the row above it is a strict total order. |
| Text.TrimEmptyIffAllSpace | src/main/java/com/example/validator/BookingRequestValidator.java:20 | `trim()` returns the empty string iff every character is at most U+0020. A non-empty result starts and ends with a character above U+0020. |
| Text.SplitJoin | src/main/java/com/example/validator/BookingRequestValidator.java:56 | `String.join` over pieces without the separator char is undone by splitting at that char. |
| Text.PadDecimalOfValue | src/main/java/com/example/validator/BookingRequestValidator.java:32 | Reading a digit string and padding its value back to the same width gives the string back. |
| App.AvailableTimeslots | src/main/java/com/example/RestaurantBookingApp.java:30-37 | The catalog is exactly 10:00, 12:00, 14:00, 16:00, 18:00 and 20:00, strictly increasing. |
| App.RestaurantBookingApp.constructor | src/main/java/com/example/RestaurantBookingApp.java:39 | A new application starts with no bookings. |
| App.RestaurantBookingApp.CreateBooking | src/main/java/com/example/RestaurantBookingApp.java:124-126 | Appends exactly one entry at the end and leaves every earlier entry as it was. |
| App.OnDate | src/main/java/com/example/RestaurantBookingApp.java:119 | The filter keeps each booking on the date as often as it occurs and drops every other booking. |
| App.OnDateKeepsOrder | src/main/java/com/example/RestaurantBookingApp.java:119 | At each date-time of the date, the filter keeps the entries in their recorded order. Order across different date-times is not stated, because the sort that follows decides it. |
| App.InsertKeepsSorted | src/main/java/com/example/RestaurantBookingApp.java:120 | Inserting into a list sorted by date-time keeps it sorted. |
| App.InsertIsStable | src/main/java/com/example/RestaurantBookingApp.java:120 | An insertion goes ahead of the entries at the same date-time and leaves the entries at other date-times in order. |
| App.SortByDateTime | src/main/java/com/example/RestaurantBookingApp.java:120 | The sort is a permutation of its input. |
| App.SortIsSorted | src/main/java/com/example/RestaurantBookingApp.java:120 | The sort's result is ascending by date-time. |
| App.SortIsStable | src/main/java/com/example/RestaurantBookingApp.java:120 | The sort is stable: entries at equal date-times keep their input order. |
| App.RestaurantBookingApp.GetBookings | src/main/java/com/example/RestaurantBookingApp.java:117-122 | The result is a permutation of the stored bookings on the date, so nothing from another date, nothing lost, nothing duplicated. It is ascending by date-time, and bookings at one date-time appear in the order they were recorded. |
| App.BookingFor | src/main/java/com/example/RestaurantBookingApp.java:92-98 | The booking built from an accepted request has the given id and the request's name, table size and telephone. Its date-time is the parsed date joined with the parsed time, and the day is after today. |
| App.RestaurantBookingApp.HandleGetBookings | src/main/java/com/example/RestaurantBookingApp.java:53-72 | No date gives 400 "Date is required.". A date that does not parse gives 400 "Invalid date format.". Otherwise the answer is 200 with getBookings of the parsed date. The status is 200 iff the date parses. |
| App.RestaurantBookingApp.HandlePostBooking | src/main/java/com/example/RestaurantBookingApp.java:79-110 | An unreadable body gives 400 "Invalid request body.". A validation failure gives 400 with the joined messages. For an accepted request whose time is outside the catalog the answer is 400 "Required timeslot is not available."; otherwise it is 201 and exactly `BookingFor(...)` is appended. The status is always 201 or 400. A booking is added iff the answer is 201, and the store is unchanged otherwise. Well-formedness of every stored booking is preserved. |
| Scenarios.PostThenList | src/test/java/com/example/RestaurantBookingAppTest.java:78-99 | Bob, 2, tomorrow at 12:00 gets 201, and the query for tomorrow then lists exactly that booking with the request's fields. |
| Scenarios.PostOutsideCatalog | src/test/java/com/example/RestaurantBookingAppTest.java:67-76 | The same request at 13:00 gets 400 "Required timeslot is not available." and records nothing. |
| Scenarios.PostInvalidFields | src/test/java/com/example/RestaurantBookingAppTest.java:56-65 | ("", -1, "", "", "") gets 400 and records nothing. |
| Scenarios.PostUnreadableBody | src/test/java/com/example/RestaurantBookingAppTest.java:47-54 | A body that cannot be read gets 400 "Invalid request body." and records nothing. |
| Scenarios.GetWithoutUsableDate | src/test/java/com/example/RestaurantBookingAppTest.java:101-119 | No date gives 400 "Date is required.". "not a date" gives 400 "Invalid date format.". |
| Scenarios.ListTomorrow | src/test/java/com/example/RestaurantBookingAppTest.java:121-140 | With Tammy (tomorrow 14:00), Bob (in three days) and Alice (tomorrow 12:00) stored, the query for tomorrow lists Alice and then Tammy. |
| Scenarios.BookSameSlotTwice | src/main/java/com/example/RestaurantBookingApp.java:86-101 | Two identical acceptable requests for a catalog slot both get 201 and both are stored at the same date-time: no uniqueness check is made. |
| Scenarios.QueryTwice | src/main/java/com/example/RestaurantBookingApp.java:117-122 | Two queries in a row answer the same, because a query changes nothing. |

## Left out

- `main`, MuServer routing, the port and the path prefix (RestaurantBookingApp.java:23-24,41-51): network set-up with no booking logic.
- Reading the request body and Gson deserialisation (RestaurantBookingApp.java:81) are left out as I/O. Their outcome is the `RequestBody` input: unreadable, or the request Gson produced, where null stands for an empty body.
- Gson serialisation of the listing and `LocalDateTimeAdapter`: JSON printing with no logic of its own. `Response.Listed` carries the list that would be serialised.
- Malformed JSON. It raises `JsonSyntaxException` and goes to 500. The 500 catch-all branches and their logging (RestaurantBookingApp.java:73-76,111-114) are left out, since nothing in the modelled core throws anything other than the exceptions the model handles.
- `System.out.println` logging of a created booking: output only.
- `CopyOnWriteArrayList`: thread safety is out of scope. The store is a sequential `seq`.
- `UUID.randomUUID()` and `LocalDate.now()` are taken as parameters. `Model.Uuid` is a number below 2^128, and nothing relies on ids being distinct.
- `response.contentType("application/json")` is not modelled: it is a header, not a decision.
- Calendar.ParseDate: accepts only the four-digit-year form `YYYY-MM-DD` (years 0000 to 9999). java.time also reads negative years with a `-` sign (such as `-0001-01-01`) and years beyond 9999 with a `+` sign.
- Calendar.ParseTime: accepts `HH:MM` and `HH:MM:SS` only. Fractional seconds, which java.time also reads, are not modelled.
- Calendar.ParseDateTime: is meaningful only on the joined texts that the POST handler builds from fields that already passed the validator.
- `Model.BookingRequest` mirrors the record's five components. A primitive `int` table size cannot be null, so it is not an `Option`. The record's source file is not part of this model.
- `Text.Trim` models `String.trim()` on UTF-16 code units as characters. Dafny strings carry no surrogate pairs, which makes no difference for characters at most U+0020.
