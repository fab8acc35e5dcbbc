/**
 * BookingRequestValidator.isValid: every rule that a request breaks adds
 * one message, in a fixed order; the request is rejected when any message
 * was collected, with the messages joined by newlines.
 */
module Validator {
  import opened Wrappers
  import opened Text
  import opened Calendar
  import opened Model

  const MAX_TABLE_SIZE: int := 10

  // The three longer messages are written as concatenations of short
  // literals: their text is unchanged, and the verifier can then see piece by
  // piece that no message holds a line break (FailureMessageLines), which it
  // cannot do for one literal of that length.
  const REQUEST_NOT_FOUND: string := "Booking request " + "is not found."
  const NAME_REQUIRED: string := "Name is required."
  const TABLE_SIZE_OUT_OF_RANGE: string := "Table size must be " + "greater than 0 and " + "smaller than " + "10" + "."
  const DATE_REQUIRED: string := "Date is required."
  const INVALID_DATE_FORMAT: string := "Invalid date format."
  const DATE_INVALID: string := "Date is invalid."
  const TIME_REQUIRED: string := "Time is required."
  const INVALID_TIME_FORMAT: string := "Invalid time format."
  const TEL_REQUIRED: string := "Customer telephone " + "is required."

  /** The outcome of isValid: it returns, or it throws IllegalArgumentException. */
  datatype Verdict = Passed | Failed(errors: seq<string>) {
    /** The exception's message: the collected messages joined with newlines. */
    function Message(): (text: string)
      requires Failed?
    {
      Join(errors, "\n")
    }
  }

  /** null, or a string that trim() leaves empty. */
  predicate IsBlank(s: Option<string>) {
    s.None? || Trim(s.value) == []
  }

  // ---------------------------------------------------------------------
  // The rules, field by field
  // ---------------------------------------------------------------------

  function NameErrors(r: BookingRequest): (errors: seq<string>) {
    if IsBlank(r.name) then [NAME_REQUIRED] else []
  }

  function TableSizeErrors(r: BookingRequest): (errors: seq<string>) {
    if r.tableSize <= 0 || r.tableSize > MAX_TABLE_SIZE then [TABLE_SIZE_OUT_OF_RANGE] else []
  }

  function DateErrors(r: BookingRequest, today: Date): (errors: seq<string>)
    requires ValidDate(today)
  {
    if IsBlank(r.date) then [DATE_REQUIRED]
    else match ParseDate(r.date.value)
      case None => [INVALID_DATE_FORMAT]
      case Some(d) => if DateBefore(d, NextDay(today)) then [DATE_INVALID] else []
  }

  function TimeErrors(r: BookingRequest): (errors: seq<string>) {
    if IsBlank(r.time) then [TIME_REQUIRED]
    else if ParseTime(r.time.value).None? then [INVALID_TIME_FORMAT]
    else []
  }

  function TelErrors(r: BookingRequest): (errors: seq<string>) {
    if IsBlank(r.customerTel) then [TEL_REQUIRED] else []
  }

  /** Every message isValid collects for `request`, in the order it collects them. */
  function Violations(request: Option<BookingRequest>, today: Date): (errors: seq<string>)
    requires ValidDate(today)
  {
    match request
    case None => [REQUEST_NOT_FOUND]
    case Some(r) => NameErrors(r) + TableSizeErrors(r) + DateErrors(r, today) + TimeErrors(r) + TelErrors(r)
  }

  /**
   * isValid itself: a chain of checks appending to a list of messages.
   * `today` stands for LocalDate.now().
   */
  method IsValid(request: Option<BookingRequest>, today: Date) returns (verdict: Verdict)
    requires ValidDate(today)
    ensures request.None? ==> verdict == Failed([REQUEST_NOT_FOUND])
    ensures verdict.Failed? ==> verdict.errors != []
    ensures verdict == if Violations(request, today) == [] then Passed else Failed(Violations(request, today))
  {
    if request.None? {
      return Failed([REQUEST_NOT_FOUND]);
    }
    var r := request.value;
    var errors: seq<string> := [];
    if IsBlank(r.name) {
      errors := errors + [NAME_REQUIRED];
    }
    assert errors == NameErrors(r);
    if r.tableSize <= 0 || r.tableSize > MAX_TABLE_SIZE {
      errors := errors + [TABLE_SIZE_OUT_OF_RANGE];
    }
    assert errors == NameErrors(r) + TableSizeErrors(r);
    ghost var beforeDate := errors;
    if IsBlank(r.date) {
      errors := errors + [DATE_REQUIRED];
    } else {
      var parsed := ParseDate(r.date.value);
      if parsed.None? {
        errors := errors + [INVALID_DATE_FORMAT];
      } else if DateBefore(parsed.value, NextDay(today)) {
        errors := errors + [DATE_INVALID];
      }
    }
    assert errors == beforeDate + DateErrors(r, today);
    ghost var beforeTime := errors;
    if IsBlank(r.time) {
      errors := errors + [TIME_REQUIRED];
    } else if ParseTime(r.time.value).None? {
      errors := errors + [INVALID_TIME_FORMAT];
    }
    assert errors == beforeTime + TimeErrors(r);
    ghost var beforeTel := errors;
    if IsBlank(r.customerTel) {
      errors := errors + [TEL_REQUIRED];
    }
    assert errors == beforeTel + TelErrors(r);
    if errors != [] {
      return Failed(errors);
    }
    return Passed;
  }

  // ---------------------------------------------------------------------
  // What the rules mean, stated without trim() or plusDays
  // ---------------------------------------------------------------------

  /** Present and holding a character above U+0020. */
  predicate Present(s: Option<string>) {
    s.Some? && exists k :: 0 <= k < |s.value| && s.value[k] > ' '
  }

  predicate TableSizeInRange(n: int) {
    1 <= n <= MAX_TABLE_SIZE
  }

  /** A date text naming a day strictly after today. */
  predicate DateAcceptable(date: Option<string>, today: Date) {
    date.Some? && ParseDate(date.value).Some? && DateBefore(today, ParseDate(date.value).value)
  }

  predicate TimeAcceptable(time: Option<string>) {
    time.Some? && ParseTime(time.value).Some?
  }

  predicate Acceptable(r: BookingRequest, today: Date) {
    && Present(r.name)
    && TableSizeInRange(r.tableSize)
    && DateAcceptable(r.date, today)
    && TimeAcceptable(r.time)
    && Present(r.customerTel)
  }

  /** Blank is the same as not present. */
  lemma BlankIsAbsent(s: Option<string>)
    ensures IsBlank(s) <==> !Present(s)
  {
    if s.Some? {
      TrimEmptyIffAllSpace(s.value);
    }
    if s.Some? && !IsBlank(s) {
      var t := s.value;
      var k :| 0 <= k < |t| && t[k] > ' ';
    }
  }

  /** Text that parses as a date or a time is not blank. */
  lemma ParsedIsPresent(s: string)
    requires ParseDate(s).Some? || ParseTime(s).Some?
    ensures Present(Some(s))
  {
    if ParseDate(s).Some? {
      ParsedDateIsCanonical(s);
    } else {
      ParsedTimeIsCanonical(s);
      assert IsDigit(HourMinute(ParseTime(s).value)[0]);
    }
    assert s[0] > ' ';
  }

  lemma NameErrorsEmpty(r: BookingRequest)
    ensures NameErrors(r) == [] <==> Present(r.name)
  {
    BlankIsAbsent(r.name);
  }

  lemma DateErrorsEmpty(r: BookingRequest, today: Date)
    requires ValidDate(today)
    ensures DateErrors(r, today) == [] <==> DateAcceptable(r.date, today)
  {
    BlankIsAbsent(r.date);
    if r.date.Some? && ParseDate(r.date.value).Some? {
      ParsedIsPresent(r.date.value);
      BeforeNextDay(ParseDate(r.date.value).value, today);
    }
  }

  lemma TimeErrorsEmpty(r: BookingRequest)
    ensures TimeErrors(r) == [] <==> TimeAcceptable(r.time)
  {
    BlankIsAbsent(r.time);
    if r.time.Some? && ParseTime(r.time.value).Some? {
      ParsedIsPresent(r.time.value);
    }
  }

  lemma TelErrorsEmpty(r: BookingRequest)
    ensures TelErrors(r) == [] <==> Present(r.customerTel)
  {
    BlankIsAbsent(r.customerTel);
  }

  /** A request passes exactly when every field is acceptable. */
  lemma AcceptedIff(r: BookingRequest, today: Date)
    requires ValidDate(today)
    ensures Violations(Some(r), today) == [] <==> Acceptable(r, today)
  {
    NameErrorsEmpty(r);
    DateErrorsEmpty(r, today);
    TimeErrorsEmpty(r);
    TelErrorsEmpty(r);
  }

  // ---------------------------------------------------------------------
  // Rule by rule: which message appears, and when
  // ---------------------------------------------------------------------

  /** A missing or whitespace-only name, and nothing else, yields "Name is required.". */
  lemma NameRule(r: BookingRequest, today: Date)
    requires ValidDate(today)
    ensures NAME_REQUIRED in Violations(Some(r), today) <==> !Present(r.name)
  {
    NameErrorsEmpty(r);
  }

  /** The table size is accepted from 1 to 10, both ends included. */
  lemma TableSizeRule(r: BookingRequest, today: Date)
    requires ValidDate(today)
    ensures TABLE_SIZE_OUT_OF_RANGE in Violations(Some(r), today) <==> !TableSizeInRange(r.tableSize)
  {
  }

  /**
   * The date yields one of three messages: blank, unreadable, or not after
   * today (today itself and past days are refused, tomorrow is accepted).
   */
  lemma DateRule(r: BookingRequest, today: Date)
    requires ValidDate(today)
    ensures var v := Violations(Some(r), today);
      && (DATE_REQUIRED in v <==> !Present(r.date))
      && (INVALID_DATE_FORMAT in v <==> Present(r.date) && ParseDate(r.date.value).None?)
      && (DATE_INVALID in v <==>
            r.date.Some? && ParseDate(r.date.value).Some? && !DateBefore(today, ParseDate(r.date.value).value))
  {
    BlankIsAbsent(r.date);
    if r.date.Some? && ParseDate(r.date.value).Some? {
      ParsedIsPresent(r.date.value);
      BeforeNextDay(ParseDate(r.date.value).value, today);
    }
  }

  /** The time yields "Time is required." when blank and "Invalid time format." when unreadable. */
  lemma TimeRule(r: BookingRequest, today: Date)
    requires ValidDate(today)
    ensures var v := Violations(Some(r), today);
      && (TIME_REQUIRED in v <==> !Present(r.time))
      && (INVALID_TIME_FORMAT in v <==> Present(r.time) && ParseTime(r.time.value).None?)
  {
    BlankIsAbsent(r.time);
  }

  /** A missing or whitespace-only telephone, and nothing else, yields its message. */
  lemma TelRule(r: BookingRequest, today: Date)
    requires ValidDate(today)
    ensures TEL_REQUIRED in Violations(Some(r), today) <==> !Present(r.customerTel)
  {
    BlankIsAbsent(r.customerTel);
  }

  // ---------------------------------------------------------------------
  // Order and count of the messages
  // ---------------------------------------------------------------------

  datatype Field = NameField | TableSizeField | DateField | TimeField | TelField

  /** The field an isValid message is about. */
  function FieldOf(message: string): (field: Field) {
    if message == NAME_REQUIRED then NameField
    else if message == TABLE_SIZE_OUT_OF_RANGE then TableSizeField
    else if message == DATE_REQUIRED || message == INVALID_DATE_FORMAT || message == DATE_INVALID then DateField
    else if message == TIME_REQUIRED || message == INVALID_TIME_FORMAT then TimeField
    else TelField
  }

  /** The fields of `r` that are not acceptable, in the order name, table size, date, time, telephone. */
  function ViolatedFields(r: BookingRequest, today: Date): (fields: seq<Field>)
    ensures |fields| <= 5
  {
    (if Present(r.name) then [] else [NameField])
    + (if TableSizeInRange(r.tableSize) then [] else [TableSizeField])
    + (if DateAcceptable(r.date, today) then [] else [DateField])
    + (if TimeAcceptable(r.time) then [] else [TimeField])
    + (if Present(r.customerTel) then [] else [TelField])
  }

  /** `messages` reports on `fields`, one message per field, in the same order. */
  ghost predicate Reports(messages: seq<string>, fields: seq<Field>) {
    |messages| == |fields| && forall i :: 0 <= i < |messages| ==> FieldOf(messages[i]) == fields[i]
  }

  lemma ReportsConcat(m1: seq<string>, f1: seq<Field>, m2: seq<string>, f2: seq<Field>)
    requires Reports(m1, f1) && Reports(m2, f2)
    ensures Reports(m1 + m2, f1 + f2)
  {
  }

  lemma NameReports(r: BookingRequest)
    ensures Reports(NameErrors(r), if Present(r.name) then [] else [NameField])
  {
    NameErrorsEmpty(r);
  }

  lemma TableSizeReports(r: BookingRequest)
    ensures Reports(TableSizeErrors(r), if TableSizeInRange(r.tableSize) then [] else [TableSizeField])
  {
  }

  lemma DateReports(r: BookingRequest, today: Date)
    requires ValidDate(today)
    ensures Reports(DateErrors(r, today), if DateAcceptable(r.date, today) then [] else [DateField])
  {
    DateErrorsEmpty(r, today);
  }

  lemma TimeReports(r: BookingRequest)
    ensures Reports(TimeErrors(r), if TimeAcceptable(r.time) then [] else [TimeField])
  {
    TimeErrorsEmpty(r);
  }

  lemma TelReports(r: BookingRequest)
    ensures Reports(TelErrors(r), if Present(r.customerTel) then [] else [TelField])
  {
    TelErrorsEmpty(r);
  }

  /**
   * A request yields exactly one message per violated field, in field
   * order, so never more than five.
   */
  lemma MessagesFollowFields(r: BookingRequest, today: Date)
    requires ValidDate(today)
    ensures Reports(Violations(Some(r), today), ViolatedFields(r, today))
    ensures |Violations(Some(r), today)| == |ViolatedFields(r, today)| <= 5
  {
    var fn := if Present(r.name) then [] else [NameField];
    var ft := if TableSizeInRange(r.tableSize) then [] else [TableSizeField];
    var fd := if DateAcceptable(r.date, today) then [] else [DateField];
    var fi := if TimeAcceptable(r.time) then [] else [TimeField];
    var fc := if Present(r.customerTel) then [] else [TelField];
    NameReports(r);
    TableSizeReports(r);
    DateReports(r, today);
    TimeReports(r);
    TelReports(r);
    ReportsConcat(NameErrors(r), fn, TableSizeErrors(r), ft);
    ReportsConcat(NameErrors(r) + TableSizeErrors(r), fn + ft, DateErrors(r, today), fd);
    ReportsConcat(NameErrors(r) + TableSizeErrors(r) + DateErrors(r, today), fn + ft + fd, TimeErrors(r), fi);
    ReportsConcat(NameErrors(r) + TableSizeErrors(r) + DateErrors(r, today) + TimeErrors(r), fn + ft + fd + fi,
                  TelErrors(r), fc);
  }

  // ---------------------------------------------------------------------
  // The exception message
  // ---------------------------------------------------------------------

  /** The text of the table-size message is the one String.format builds from MAX_TABLE_SIZE. */
  lemma TableSizeMessageNamesLimit()
    ensures TABLE_SIZE_OUT_OF_RANGE == "Table size must be " + "greater than 0 and " + "smaller than " + Decimal(MAX_TABLE_SIZE) + "."
  {
    assert Decimal(MAX_TABLE_SIZE) == Decimal(1) + "0";
  }

  /** No "... is required." message, nor the null-request one, contains a line break. */
  lemma RequiredMessagesAreOneLine()
    ensures '\n' !in REQUEST_NOT_FOUND && '\n' !in NAME_REQUIRED && '\n' !in DATE_REQUIRED
    ensures '\n' !in TIME_REQUIRED && '\n' !in TEL_REQUIRED
  {
  }

  /** The date and time format messages contain no line break. */
  lemma DateTimeMessagesAreOneLine()
    ensures '\n' !in INVALID_DATE_FORMAT && '\n' !in DATE_INVALID && '\n' !in INVALID_TIME_FORMAT
  {
  }

  /** The table-size message, the longest, contains no line break either. */
  lemma TableSizeMessageIsOneLine()
    ensures '\n' !in TABLE_SIZE_OUT_OF_RANGE
  {
  }

  ghost predicate AllOneLine(messages: seq<string>) {
    forall i :: 0 <= i < |messages| ==> '\n' !in messages[i]
  }

  lemma AllOneLineConcat(a: seq<string>, b: seq<string>)
    requires AllOneLine(a) && AllOneLine(b)
    ensures AllOneLine(a + b)
  {
    assert forall i :: 0 <= i < |a + b| ==> (a + b)[i] == if i < |a| then a[i] else b[i - |a|];
  }

  /**
   * The exception message keeps the messages apart: splitting it at the line
   * breaks gives back the collected messages, in order (isValid throws only
   * when it collected at least one).
   */
  lemma FailureMessageLines(request: Option<BookingRequest>, today: Date)
    requires ValidDate(today) && Violations(request, today) != []
    ensures Split(Failed(Violations(request, today)).Message(), '\n') == Violations(request, today)
  {
    RequiredMessagesAreOneLine();
    DateTimeMessagesAreOneLine();
    TableSizeMessageIsOneLine();
    var v := Violations(request, today);
    if request.Some? {
      var r := request.value;
      AllOneLineConcat(NameErrors(r), TableSizeErrors(r));
      AllOneLineConcat(NameErrors(r) + TableSizeErrors(r), DateErrors(r, today));
      AllOneLineConcat(NameErrors(r) + TableSizeErrors(r) + DateErrors(r, today), TimeErrors(r));
      AllOneLineConcat(NameErrors(r) + TableSizeErrors(r) + DateErrors(r, today) + TimeErrors(r), TelErrors(r));
    }
    assert AllOneLine(v);
    SplitJoin(v, '\n');
  }

  // ---------------------------------------------------------------------
  // The cases of BookingRequestValidatorTest
  // ---------------------------------------------------------------------

  /** A null request yields the single message "Booking request is not found.". */
  lemma NullRequestExample(today: Date)
    requires ValidDate(today)
    ensures Violations(None, today) == [REQUEST_NOT_FOUND]
    ensures Failed(Violations(None, today)).Message() == "Booking request is not found."
  {
  }

  /** ("", -1, yesterday, "13pm", null) breaks all five rules. */
  lemma FiveViolationsExample(yesterday: Date, today: Date)
    requires ValidDate(yesterday) && FourDigitYear(yesterday) && today == NextDay(yesterday)
    ensures |Violations(Some(BookingRequest(Some(""), -1, Some(FormatDate(yesterday)), Some("13pm"), None)), today)| == 5
  {
    var r := BookingRequest(Some(""), -1, Some(FormatDate(yesterday)), Some("13pm"), None);
    ParseFormatDate(yesterday);
    MessagesFollowFields(r, today);
    assert !Present(r.name);
    assert !DateBefore(today, yesterday);
  }

  /** Today is refused and tomorrow is accepted. */
  lemma TomorrowIsFirstBookableDay(today: Date)
    requires ValidDate(today) && FourDigitYear(today) && FourDigitYear(NextDay(today))
    ensures DateErrors(BookingRequest(None, 0, Some(FormatDate(today)), None, None), today) == [DATE_INVALID]
    ensures DateErrors(BookingRequest(None, 0, Some(FormatDate(NextDay(today))), None, None), today) == []
  {
    ParseFormatDate(today);
    ParseFormatDate(NextDay(today));
    ParsedIsPresent(FormatDate(today));
    ParsedIsPresent(FormatDate(NextDay(today)));
    BlankIsAbsent(Some(FormatDate(today)));
    BlankIsAbsent(Some(FormatDate(NextDay(today))));
  }
}
