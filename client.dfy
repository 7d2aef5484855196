/**
 * calgo's calendar client: checking the parameters of a new event, building the event the
 * calendar service is asked to insert, reading the event it returns, and turning the service's
 * failures into calgo's five error kinds. The service itself (the Events.Insert call over the
 * network) is a function parameter: it receives the calendar ID and the event and answers with the
 * created event or a failure.
 */
module CalendarClient {
  import opened Wrappers
  import opened Text
  import opened Civil
  import Rfc3339

  // ---------------------------------------------------------------------------
  // Data
  // ---------------------------------------------------------------------------

  /** The client: the service handle is abstract; the calendar ID events go to. */
  datatype Client = Client(calendarId: string)

  /** What the caller asks for; the duration is in nanoseconds. */
  datatype EventParams = EventParams(
    title: string, startTime: Time, duration: int, description: string, location: string)

  /** The created event, as calgo reports it. */
  datatype EventResult = EventResult(
    id: string, title: string, startTime: Time, endTime: Time,
    description: string, location: string, link: string)

  /** The service's EventDateTime: an RFC 3339 date-time, or a plain date for all-day events. */
  datatype EventDateTime = EventDateTime(dateTime: string, date: string, timeZone: string)

  /** The service's Event, both as sent (no ID, no link) and as returned. */
  datatype Event = Event(
    id: string, summary: string, description: string, location: string, htmlLink: string,
    start: EventDateTime, end: EventDateTime)

  /** One entry of a service error's list of reasons. */
  datatype ErrorItem = ErrorItem(reason: string, message: string)

  /** Why an insert failed: a service error with an HTTP code, or any other error (its text). */
  datatype InsertFailure =
    | ApiError(code: int, message: string, errors: seq<ErrorItem>)
    | OtherFailure(text: string)

  /** The answer of the calendar service to an insert. */
  datatype InsertOutcome = Inserted(event: Event) | InsertFailed(failure: InsertFailure)

  /** The calendar service: calendar ID and event in, outcome out. */
  type Service = (string, Event) -> InsertOutcome

  // ---------------------------------------------------------------------------
  // Errors
  // ---------------------------------------------------------------------------

  /** The five sentinel errors callers test for with errors.Is. */
  datatype Sentinel =
    | EventCreationFailed
    | InvalidEventTime
    | CalendarNotFound
    | PermissionDenied
    | QuotaExceeded

  function SentinelText(k: Sentinel): string
  {
    match k
    case EventCreationFailed => "failed to create event"
    case InvalidEventTime => "invalid event time"
    case CalendarNotFound => "calendar not found"
    case PermissionDenied => "permission denied"
    case QuotaExceeded => "API quota exceeded"
  }

  /** The three ways event parameters are refused, in the order they are checked. */
  datatype InvalidReason = TitleRequired | StartRequired | DurationNotPositive

  /** Every error the client returns. */
  datatype ClientError =
    | InvalidParams(reason: InvalidReason)
    | InvalidRequest(message: string)          // code 400, the service's message
    | AuthenticationExpired                    // code 401
    | QuotaRetryLater                          // code 403 with a quota reason
    | NoCalendarAccess                         // code 403 otherwise
    | CalendarIdWrong                          // code 404
    | TooManyRequests                          // code 429
    | OtherApiError(message: string, code: int) // any other code
    | CreateFailed(cause: string)              // a failure that is no service error
    | StartUnreadable(date: string)            // neither start text is a time
    | EndUnreadable(date: string)              // neither end text is a time
    | ServiceUnavailable(cause: string)        // the service could not be set up

  /** The sentinel an error wraps, if any: what errors.Is finds. */
  function Wrapped(e: ClientError): Option<Sentinel>
  {
    match e
    case InvalidParams(_) => Some(InvalidEventTime)
    case InvalidRequest(_) => Some(EventCreationFailed)
    case AuthenticationExpired => Some(PermissionDenied)
    case QuotaRetryLater => Some(QuotaExceeded)
    case NoCalendarAccess => Some(PermissionDenied)
    case CalendarIdWrong => Some(CalendarNotFound)
    case TooManyRequests => Some(QuotaExceeded)
    case OtherApiError(_, _) => Some(EventCreationFailed)
    case CreateFailed(_) => Some(EventCreationFailed)
    case _ => None
  }

  function ReasonText(r: InvalidReason): string
  {
    match r
    case TitleRequired => "title is required"
    case StartRequired => "start time is required"
    case DurationNotPositive => "duration must be positive"
  }

  /** The text after the sentinel's own text and ": ". */
  function Detail(e: ClientError): string
  {
    match e
    case InvalidParams(r) => ReasonText(r)
    case InvalidRequest(m) => "invalid request - " + m
    case AuthenticationExpired => "authentication expired, please re-authenticate"
    case QuotaRetryLater => "please try again later"
    case NoCalendarAccess => "you don't have permission to access this calendar"
    case CalendarIdWrong => "check that the calendar ID is correct"
    case TooManyRequests => "too many requests, please try again later"
    case OtherApiError(m, code) => m + (" (code: " + (FormatInt(code) + ")"))
    case CreateFailed(cause) => cause
    case StartUnreadable(_) => "failed to parse start time"
    case EndUnreadable(_) => "failed to parse end time"
    case ServiceUnavailable(cause) => "failed to create calendar service: " + cause
  }

  /**
   * Error(): an error that wraps a sentinel reads "<sentinel>: <detail>"; the others carry their
   * own text.
   */
  function Message(e: ClientError): (m: string)
    ensures Wrapped(e).Some? ==> HasPrefix(m, SentinelText(Wrapped(e).value) + ": ")
  {
    match Wrapped(e)
    case Some(k) => (SentinelText(k) + ": ") + Detail(e)
    case None => Detail(e)
  }

  /**
   * The text of any other service error ends with its code, which reads back as the code:
   * "... (code: 500)".
   */
  lemma OtherCodeReadsBack(m: string, code: int)
    requires InInt64(code)
    ensures var t := Message(OtherApiError(m, code)); var n := |FormatInt(code)|;
      |t| > n && t[|t| - 1] == ')' && Atoi(t[|t| - 1 - n..|t| - 1]) == Some(code)
  {
    var head := OtherMessageShape(m, code);
    EndsInParenthesised(Message(OtherApiError(m, code)), head, FormatInt(code));
    AtoiFormatInt(code);
  }

  lemma OtherMessageShape(m: string, code: int) returns (head: string)
    ensures Message(OtherApiError(m, code)) == head + (FormatInt(code) + ")")
  {
    var digits := FormatInt(code);
    head := ("failed to create event" + ": ") + (m + " (code: ");
    assert Detail(OtherApiError(m, code)) == m + (" (code: " + (digits + ")"));
  }

  lemma EndsInParenthesised(t: string, head: string, inner: string)
    requires t == head + (inner + ")")
    ensures |t| > |inner| && t[|t| - 1] == ')' && t[|t| - 1 - |inner|..|t| - 1] == inner
  {
    assert t[|head|..|head| + |inner|] == inner;
  }

  // ---------------------------------------------------------------------------
  // NewClient
  // ---------------------------------------------------------------------------

  /**
   * NewClient: the service is set up first (its failure, if any, is a parameter), then an empty
   * calendar ID stands for the user's primary calendar.
   */
  function NewClient(calendarId: string, serviceFailure: Option<string>): (r: Result<Client, ClientError>)
    ensures serviceFailure.Some? <==> r.Err?
    ensures r.Err? ==> r.error == ServiceUnavailable(serviceFailure.value)
    ensures r.Ok? ==> r.value.calendarId != []
    ensures r.Ok? && calendarId != [] ==> r.value.calendarId == calendarId
    ensures r.Ok? && calendarId == [] ==> r.value.calendarId == "primary"
  {
    match serviceFailure
    case Some(cause) => Err(ServiceUnavailable(cause))
    case None => Ok(Client(if calendarId == [] then "primary" else calendarId))
  }

  // ---------------------------------------------------------------------------
  // Validation and the event sent
  // ---------------------------------------------------------------------------

  /** validateEventParams: the first check that fails, or None. */
  function ValidateEventParams(p: EventParams): (r: Option<InvalidReason>)
    ensures r.None? <==> p.title != [] && !IsZero(p.startTime) && p.duration > 0
    ensures p.title == [] ==> r == Some(TitleRequired)
  {
    if p.title == [] then Some(TitleRequired)
    else if IsZero(p.startTime) then Some(StartRequired)
    else if p.duration <= 0 then Some(DurationNotPositive)
    else None
  }

  /**
   * The parameters pass exactly when there is a title, a start and a positive duration; when
   * several are missing the title is reported first, then the start.
   */
  lemma ValidationOrder(p: EventParams)
    ensures ValidateEventParams(p).None? <==> p.title != [] && !IsZero(p.startTime) && p.duration > 0
    ensures ValidateEventParams(p) == Some(TitleRequired) <==> p.title == []
    ensures ValidateEventParams(p) == Some(StartRequired) <==> p.title != [] && IsZero(p.startTime)
    ensures ValidateEventParams(p) == Some(DurationNotPositive) <==>
      p.title != [] && !IsZero(p.startTime) && p.duration <= 0
  {
    var v := ValidateEventParams(p);
    if p.title == [] {
      assert v == Some(TitleRequired);
    } else if IsZero(p.startTime) {
      assert v == Some(StartRequired);
    } else if p.duration <= 0 {
      assert v == Some(DurationNotPositive);
    } else {
      assert v == None;
    }
  }

  /** The end of the event: the start moved on by the duration, in the start's location. */
  function EndTime(p: EventParams): (t: Time)
    ensures t.zone == p.startTime.zone
    ensures p.duration > 0 ==> t.unixNanos > p.startTime.unixNanos
  {
    Add(p.startTime, p.duration)
  }

  /**
   * The event sent to the service. format is Time.Format(time.RFC3339), which needs the zone
   * database; the time zone field is the location's name.
   */
  function NewEvent(p: EventParams, format: Time -> string): (e: Event)
    ensures e.summary == p.title && e.description == p.description && e.location == p.location
    ensures e.start.dateTime == format(p.startTime) && e.end.dateTime == format(EndTime(p))
    ensures e.start.timeZone == e.end.timeZone == ZoneName(p.startTime.zone)
  {
    var end := EndTime(p);
    Event("", p.title, p.description, p.location, "",
          EventDateTime(format(p.startTime), "", ZoneName(p.startTime.zone)),
          EventDateTime(format(end), "", ZoneName(end.zone)))
  }

  /**
   * CreateEvent: parameters that fail validation are refused before the service is called;
   * otherwise the event goes to the client's calendar, a failure is translated and a created
   * event is read back.
   */
  function CreateEvent(c: Client, p: EventParams, format: Time -> string, service: Service)
    : (r: Result<EventResult, ClientError>)
    ensures ValidateEventParams(p).Some? ==> r == Err(InvalidParams(ValidateEventParams(p).value))
    ensures r.Ok? ==> service(c.calendarId, NewEvent(p, format)).Inserted?
  {
    match ValidateEventParams(p)
    case Some(reason) => Err(InvalidParams(reason))
    case None =>
      match service(c.calendarId, NewEvent(p, format))
      case InsertFailed(f) => Err(WrapApiError(f))
      case Inserted(created) => ParseEventResult(created)
  }

  /** Invalid parameters give the same error whatever the service would have answered. */
  lemma InvalidNeverSent(c: Client, p: EventParams, format: Time -> string, s1: Service, s2: Service)
    requires ValidateEventParams(p).Some?
    ensures CreateEvent(c, p, format, s1) == CreateEvent(c, p, format, s2)
    ensures Wrapped(CreateEvent(c, p, format, s1).error) == Some(InvalidEventTime)
  {
  }

  /** A failed insert is reported through wrapAPIError. */
  lemma FailureTranslated(c: Client, p: EventParams, format: Time -> string, service: Service)
    requires ValidateEventParams(p).None?
    requires service(c.calendarId, NewEvent(p, format)).InsertFailed?
    ensures CreateEvent(c, p, format, service) ==
      Err(WrapApiError(service(c.calendarId, NewEvent(p, format)).failure))
  {
  }

  /**
   * When the service echoes the start and end it was sent and Format wrote them as RFC 3339
   * stamps of the right instants, the reported event starts at the requested instant and lasts
   * the requested duration, and carries the ID and link the service gave it.
   */
  lemma EchoedEventKeepsTimes(
    c: Client, p: EventParams, format: Time -> string, service: Service,
    created: Event, st: Rfc3339.Stamp, en: Rfc3339.Stamp)
    requires ValidateEventParams(p).None?
    requires service(c.calendarId, NewEvent(p, format)) == Inserted(created)
    requires created.start == NewEvent(p, format).start && created.end == NewEvent(p, format).end
    requires Rfc3339.Canonical(st) && format(p.startTime) == Rfc3339.FormatDateTime(st)
    requires Rfc3339.StampTime(st).unixNanos == p.startTime.unixNanos
    requires Rfc3339.Canonical(en) && format(EndTime(p)) == Rfc3339.FormatDateTime(en)
    requires Rfc3339.StampTime(en).unixNanos == EndTime(p).unixNanos
    ensures var r := CreateEvent(c, p, format, service);
      && r.Ok?
      && r.value.startTime.unixNanos == p.startTime.unixNanos
      && r.value.endTime.unixNanos - r.value.startTime.unixNanos == p.duration
      && r.value.id == created.id && r.value.link == created.htmlLink
  {
    var sent := NewEvent(p, format);
    assert created.start.dateTime == Rfc3339.FormatDateTime(st);
    assert created.end.dateTime == Rfc3339.FormatDateTime(en);
    StampReadsBack(created.start, st);
    StampReadsBack(created.end, en);
    var r := ParseEventResult(created);
    assert r.Ok? && r.value.startTime == Rfc3339.StampTime(st) && r.value.endTime == Rfc3339.StampTime(en);
    assert CreateEvent(c, p, format, service) == r;
  }

  // ---------------------------------------------------------------------------
  // Reading the created event
  // ---------------------------------------------------------------------------

  /** The date-time if it reads as RFC 3339, else the date as "2006-01-02". */
  function ReadEventTime(edt: EventDateTime): (r: Option<Time>)
    ensures Rfc3339.ParseRfc3339(edt.dateTime).Some? ==> r == Rfc3339.ParseRfc3339(edt.dateTime)
    ensures Rfc3339.ParseRfc3339(edt.dateTime).None? ==> r == Rfc3339.ParseDateOnly(edt.date)
  {
    var t := Rfc3339.ParseRfc3339(edt.dateTime);
    if t.Some? then t else Rfc3339.ParseDateOnly(edt.date)
  }

  /**
   * parseEventResult: the start is read before the end; the identifying fields are copied
   * unchanged.
   */
  function ParseEventResult(e: Event): (r: Result<EventResult, ClientError>)
    ensures r.Ok? <==> ReadEventTime(e.start).Some? && ReadEventTime(e.end).Some?
    ensures ReadEventTime(e.start).None? ==> r == Err(StartUnreadable(e.start.date))
    ensures ReadEventTime(e.start).Some? && ReadEventTime(e.end).None? ==> r == Err(EndUnreadable(e.end.date))
    ensures r.Ok? ==>
      && r.value.startTime == ReadEventTime(e.start).value
      && r.value.endTime == ReadEventTime(e.end).value
      && r.value.id == e.id && r.value.title == e.summary && r.value.description == e.description
      && r.value.location == e.location && r.value.link == e.htmlLink
  {
    match ReadEventTime(e.start)
    case None => Err(StartUnreadable(e.start.date))
    case Some(start) =>
      match ReadEventTime(e.end)
      case None => Err(EndUnreadable(e.end.date))
      case Some(end) => Ok(EventResult(e.id, e.summary, start, end, e.description, e.location, e.htmlLink))
  }

  /** A date-time written by Format as RFC 3339 reads back as the instant of its stamp. */
  lemma StampReadsBack(edt: EventDateTime, st: Rfc3339.Stamp)
    requires Rfc3339.Canonical(st) && edt.dateTime == Rfc3339.FormatDateTime(st)
    ensures ReadEventTime(edt) == Some(Rfc3339.StampTime(st))
  {
    Rfc3339.ParseFormatDateTime(st);
  }

  /**
   * An all-day event (no readable date-time, a date written as "2006-01-02") starts at
   * midnight UTC of that date.
   */
  lemma AllDayReadsMidnight(edt: EventDateTime, d: CivilDate)
    requires Rfc3339.ParseRfc3339(edt.dateTime).None?
    requires 0 <= d.year <= 9999 && edt.date == Rfc3339.FormatDate(d)
    ensures ReadEventTime(edt) == Some(Time(UtcInstant(d, TimeOfDay(0, 0, 0), 0), Utc))
  {
    Rfc3339.ParseFormatDate(d);
  }

  // ---------------------------------------------------------------------------
  // Translating service failures
  // ---------------------------------------------------------------------------

  predicate IsQuotaReason(reason: string)
  {
    reason == "quotaExceeded" || reason == "rateLimitExceeded" || reason == "userRateLimitExceeded"
  }

  /** containsQuotaError: whether some listed reason is a quota reason. */
  function ContainsQuotaError(items: seq<ErrorItem>): (r: bool)
    ensures r <==> exists i :: 0 <= i < |items| && IsQuotaReason(items[i].reason)
  {
    if items == [] then false
    else
      var rest := ContainsQuotaError(items[1..]);
      assert forall i :: 0 < i < |items| ==> items[i] == items[1..][i - 1];
      IsQuotaReason(items[0].reason) || rest
  }

  /**
   * wrapAPIError: every failure is reported under a sentinel; only code 400 is an invalid
   * request, and an unlisted code keeps the service's message and code.
   */
  function WrapApiError(f: InsertFailure): (r: ClientError)
    ensures Wrapped(r).Some?
    ensures f.OtherFailure? ==> r == CreateFailed(f.text)
    ensures r.InvalidRequest? <==> f.ApiError? && f.code == 400
    ensures r.OtherApiError? <==> f.ApiError? && f.code !in {400, 401, 403, 404, 429}
    ensures r.OtherApiError? ==> r.message == f.message && r.code == f.code
  {
    match f
    case OtherFailure(text) => CreateFailed(text)
    case ApiError(code, message, errors) =>
      if code == 400 then InvalidRequest(message)
      else if code == 401 then AuthenticationExpired
      else if code == 403 then (if ContainsQuotaError(errors) then QuotaRetryLater else NoCalendarAccess)
      else if code == 404 then CalendarIdWrong
      else if code == 429 then TooManyRequests
      else OtherApiError(message, code)
  }

  /**
   * Which sentinel each failure is reported as: quota for 429 and for 403 with a quota reason,
   * permission for 401 and any other 403, not-found for 404, and creation-failed for the rest.
   */
  lemma SentinelOfFailure(f: InsertFailure)
    ensures Wrapped(WrapApiError(f)).Some?
    ensures Wrapped(WrapApiError(f)) == Some(QuotaExceeded) <==>
      f.ApiError? && (f.code == 429 || (f.code == 403 && exists i :: 0 <= i < |f.errors| && IsQuotaReason(f.errors[i].reason)))
    ensures Wrapped(WrapApiError(f)) == Some(PermissionDenied) <==>
      f.ApiError? && (f.code == 401 || (f.code == 403 && forall i :: 0 <= i < |f.errors| ==> !IsQuotaReason(f.errors[i].reason)))
    ensures Wrapped(WrapApiError(f)) == Some(CalendarNotFound) <==> f.ApiError? && f.code == 404
    ensures Wrapped(WrapApiError(f)) == Some(EventCreationFailed) <==>
      f.OtherFailure? || f.code !in {401, 403, 404, 429}
  {
  }

  /** The service's own message ends the text of a bad-request failure. */
  lemma BadRequestKeepsMessage(message: string, errors: seq<ErrorItem>)
    ensures var e := WrapApiError(ApiError(400, message, errors));
      e == InvalidRequest(message) && Message(e)[|Message(e)| - |message|..] == message
  {
    var m := Message(InvalidRequest(message));
    var head := ("failed to create event" + ": ") + "invalid request - ";
    assert m == head + message;
    assert m[|head|..] == message;
  }

  /** The service's own message follows the sentinel in the text of an unlisted code. */
  lemma OtherCodeKeepsMessage(code: int, message: string, errors: seq<ErrorItem>)
    requires code !in {400, 401, 403, 404, 429}
    ensures var e := WrapApiError(ApiError(code, message, errors));
      e == OtherApiError(message, code) && Message(e)[24..24 + |message|] == message
  {
    var tail := OtherMessageTail(message, code);
    InfixAt(Message(OtherApiError(message, code)), "failed to create event: ", message, tail);
  }

  lemma OtherMessageTail(m: string, code: int) returns (tail: string)
    ensures Message(OtherApiError(m, code)) == "failed to create event: " + (m + tail)
  {
    tail := " (code: " + (FormatInt(code) + ")");
    assert Detail(OtherApiError(m, code)) == m + tail;
    assert ("failed to create event" + ": ") == "failed to create event: ";
  }

  lemma InfixAt(t: string, a: string, b: string, c: string)
    requires t == a + (b + c)
    ensures t[|a|..|a| + |b|] == b
  {
    assert t[|a|..] == b + c;
  }

  /** The text of a failure that is no service error follows the creation-failed sentinel. */
  lemma OtherFailureKept(text: string)
    ensures Message(WrapApiError(OtherFailure(text)))[24..] == text
  {
    assert Message(CreateFailed(text)) == ("failed to create event" + ": ") + text;
  }
}
