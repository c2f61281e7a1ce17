/** The `/book-tour/` endpoint of both entry points: `createEvent` up to the
    calendar insert, the `book_tour` handler around it, and the OPTIONS
    handlers' replies. The insert itself is an effect the model only names: the
    event that would be sent and whether the call succeeds. */
module Booking {
  import opened Wrappers
  import opened Text
  import opened Civil
  import Strptime
  import Iso8601
  import Credentials

  /** The JSON body of a booking request. A field is `None` when its key is
      absent; every present value is taken to be a string, and `interests`
      a list of strings. */
  datatype Payload = Payload(
    date: Option<string>,
    time: Option<string>,
    tourType: Option<string>,
    tourId: Option<string>,
    firstName: Option<string>,
    lastName: Option<string>,
    organization: Option<string>,
    role: Option<string>,
    interests: Option<seq<string>>,
    notes: Option<string>,
    email: Option<string>)

  /** The keys `createEvent` reads with `data[...]`, which raise `KeyError`
      when absent. */
  datatype RequiredKey = DateKey | TimeKey | TourIdKey | FirstNameKey | LastNameKey
                       | OrganizationKey | RoleKey | EmailKey

  function KeyName(k: RequiredKey): (name: string)
    ensures name != []
  {
    match k
    case DateKey => "date"
    case TimeKey => "time"
    case TourIdKey => "tourId"
    case FirstNameKey => "firstName"
    case LastNameKey => "lastName"
    case OrganizationKey => "organization"
    case RoleKey => "role"
    case EmailKey => "email"
  }

  /** Distinct keys are spelled differently, so each stands for its own
      entry of the request body. */
  lemma KeyNamesDistinct(a: RequiredKey, b: RequiredKey)
    requires KeyName(a) == KeyName(b)
    ensures a == b
  {
  }

  function Lookup(p: Payload, k: RequiredKey): Option<string> {
    match k
    case DateKey => p.date
    case TimeKey => p.time
    case TourIdKey => p.tourId
    case FirstNameKey => p.firstName
    case LastNameKey => p.lastName
    case OrganizationKey => p.organization
    case RoleKey => p.role
    case EmailKey => p.email
  }

  /** Why `createEvent` raises before the insert: `KeyError`, the
      `ValueError` of `strptime`, or the `OverflowError` of adding an hour
      past the last representable date. */
  datatype Failure = MissingKey(key: RequiredKey) | BadDateTime | DateOverflow

  const DefaultSummary: string := "Event"
  const TimeZone: string := "America/Los_Angeles"

  datatype EventTime = EventTime(dateTime: string, timeZone: string)
  datatype Attendee = Attendee(email: string)

  /** The event body handed to `events().insert`. */
  datatype Event = Event(
    summary: string,
    description: string,
    start: EventTime,
    end: EventTime,
    attendees: seq<Attendee>)

  /** `data[key]`. */
  function Require(p: Payload, k: RequiredKey): (r: Result<string, Failure>)
    ensures r.Ok? <==> Lookup(p, k).Some?
    ensures r.Ok? ==> r.value == Lookup(p, k).value
    ensures r.Err? ==> r.error == MissingKey(k)
  {
    match Lookup(p, k)
    case Some(v) => Ok(v)
    case None => Err(MissingKey(k))
  }

  function Lift<T>(o: Option<T>, f: Failure): (r: Result<T, Failure>)
    ensures r.Ok? <==> o.Some?
    ensures r.Ok? ==> r.value == o.value
    ensures r.Err? ==> r.error == f
  {
    match o
    case Some(v) => Ok(v)
    case None => Err(f)
  }

  /** The six lines of the description, in order. */
  function DescriptionLines(tourId: string, firstName: string, lastName: string, organization: string,
                            role: string, interests: seq<string>, notes: string): (lines: seq<string>)
    ensures |lines| == 6
  {
    [ "Tour ID: " + tourId,
      "Name: " + firstName + " " + lastName,
      "Organization: " + organization,
      "Role: " + role,
      "Interests: " + Join(interests, ", "),
      "Notes: " + notes ]
  }

  /** All the keys `createEvent` requires are present. */
  predicate Complete(p: Payload) {
    && p.date.Some? && p.time.Some? && p.tourId.Some? && p.firstName.Some?
    && p.lastName.Some? && p.organization.Some? && p.role.Some? && p.email.Some?
  }

  /** The description `createEvent` writes: the six lines joined by line
      breaks, with absent interests and notes rendered empty. */
  function Description(p: Payload): (d: string)
    requires Complete(p)
    ensures "Tour ID: " + p.tourId.value + "\n" <= d
  {
    Join(DescriptionLines(p.tourId.value, p.firstName.value, p.lastName.value, p.organization.value,
                          p.role.value, p.interests.GetOr([]), p.notes.GetOr("")), "\n")
  }

  /** The text handed to `strptime`. */
  function DateTimeText(p: Payload): string
    requires p.date.Some? && p.time.Some?
  {
    p.date.value + " " + p.time.value
  }

  /** `strptime` followed by `+ timedelta(hours=1)`: the start and end of
      the tour. */
  function Schedule(text: string): (r: Result<(DateTime, DateTime), Failure>)
    ensures r.Ok? <==> Strptime.Parse12(text).Some? && AddOneHour(Strptime.Parse12(text).value).Some?
    ensures Strptime.Parse12(text).None? ==> r == Err(BadDateTime)
    ensures Strptime.Parse12(text).Some? && AddOneHour(Strptime.Parse12(text).value).None? ==> r == Err(DateOverflow)
    ensures r.Ok? ==> && Valid(r.value.0) && Valid(r.value.1)
                      && Strptime.Parse12(text) == Some(r.value.0)
                      && Stamp(r.value.1) == Stamp(r.value.0) + 3600
  {
    var start :- Lift(Strptime.Parse12(text), BadDateTime);
    var end :- Lift(AddOneHour(start), DateOverflow);
    Ok((start, end))
  }

  /** The 2:30 PM tour on 10 March 2025 runs from 14:30 to 15:30. */
  lemma AfternoonSchedule()
    ensures Schedule("2025-03-10 02:30 PM")
            == Ok((DateTime(Date(2025, 3, 10), 14, 30, 0), DateTime(Date(2025, 3, 10), 15, 30, 0)))
  {
    Strptime.AfternoonExample();
  }

  /** The rest of `createEvent` once the start and end are known: the
      remaining lookups and the event body. */
  function Assemble(p: Payload, start: DateTime, end: DateTime): (r: Result<Event, Failure>)
    requires Valid(start) && Valid(end)
    requires p.date.Some? && p.time.Some?
    ensures r.Ok? <==> Complete(p)
    ensures r.Err? ==> r.error.MissingKey? && Lookup(p, r.error.key).None?
    ensures r.Ok? ==>
              && r.value.summary == p.tourType.GetOr(DefaultSummary)
              && r.value.description == Description(p)
              && r.value.start == EventTime(Iso8601.IsoFormat(start), TimeZone)
              && r.value.end == EventTime(Iso8601.IsoFormat(end), TimeZone)
              && r.value.attendees == [Attendee(p.email.value)]
  {
    var tourId :- Require(p, TourIdKey);
    var firstName :- Require(p, FirstNameKey);
    var lastName :- Require(p, LastNameKey);
    var organization :- Require(p, OrganizationKey);
    var role :- Require(p, RoleKey);
    var email :- Require(p, EmailKey);
    Ok(Event(
      p.tourType.GetOr(DefaultSummary),
      Description(p),
      EventTime(Iso8601.IsoFormat(start), TimeZone),
      EventTime(Iso8601.IsoFormat(end), TimeZone),
      [Attendee(email)]))
  }

  /** `createEvent` up to the insert: the event it would send, or the
      exception it raises. The lookups and conversions happen in the order
      the source evaluates them. */
  function BuildEvent(p: Payload): (r: Result<Event, Failure>)
    ensures r.Ok? <==> Complete(p) && Schedule(DateTimeText(p)).Ok?
    ensures p.date.None? ==> r == Err(MissingKey(DateKey))
    ensures p.date.Some? && p.time.None? ==> r == Err(MissingKey(TimeKey))
    ensures p.date.Some? && p.time.Some? && Schedule(DateTimeText(p)).Err? ==> r == Err(Schedule(DateTimeText(p)).error)
    ensures r.Err? && r.error.MissingKey? ==> Lookup(p, r.error.key).None?
    ensures r.Ok? ==>
              && r.value.summary == p.tourType.GetOr(DefaultSummary)
              && r.value.description == Description(p)
              && r.value.start == EventTime(Iso8601.IsoFormat(Schedule(DateTimeText(p)).value.0), TimeZone)
              && r.value.end == EventTime(Iso8601.IsoFormat(Schedule(DateTimeText(p)).value.1), TimeZone)
              && r.value.attendees == [Attendee(p.email.value)]
  {
    var date :- Require(p, DateKey);
    var time :- Require(p, TimeKey);
    var span :- Schedule(date + " " + time);
    Assemble(p, span.0, span.1)
  }

  /** The keys `Complete` checks are exactly the required keys. */
  lemma CompleteMeansEveryKey(p: Payload)
    ensures Complete(p) <==> forall k :: Lookup(p, k).Some?
  {
    if !Complete(p) {
      var k :| k in {DateKey, TimeKey, TourIdKey, FirstNameKey, LastNameKey, OrganizationKey, RoleKey, EmailKey}
               && Lookup(p, k).None?;
    }
  }

  /** Any one required key missing: no event is built and the failure names
      a key that is in fact missing. */
  lemma MissingKeyFails(p: Payload, k: RequiredKey)
    requires Lookup(p, k).None?
    ensures BuildEvent(p).Err?
    ensures p.date.Some? && p.time.Some? && Schedule(DateTimeText(p)).Ok? ==> BuildEvent(p).error.MissingKey?
  {
    CompleteMeansEveryKey(p);
  }

  /** The event's timestamps read back, through the ISO 8601 reader, as the
      parsed start and a moment exactly one hour later. */
  lemma EventSpansOneHour(p: Payload)
    requires BuildEvent(p).Ok?
    ensures var e := BuildEvent(p).value;
            && Iso8601.ParseIso(e.start.dateTime) == Strptime.Parse12(DateTimeText(p))
            && Iso8601.ParseIso(e.end.dateTime).Some?
            && Stamp(Iso8601.ParseIso(e.end.dateTime).value)
               == Stamp(Iso8601.ParseIso(e.start.dateTime).value) + 3600
  {
    var span := Schedule(DateTimeText(p)).value;
    Iso8601.ParseIsoFormat(span.0);
    Iso8601.ParseIsoFormat(span.1);
  }

  /** No line break in any free-text field. */
  predicate SingleLineFields(p: Payload)
    requires Complete(p)
  {
    && '\n' !in p.tourId.value && '\n' !in p.firstName.value && '\n' !in p.lastName.value
    && '\n' !in p.organization.value && '\n' !in p.role.value && '\n' !in p.notes.GetOr("")
    && forall i :: 0 <= i < |p.interests.GetOr([])| ==> '\n' !in p.interests.GetOr([])[i]
  }

  /** With single-line fields, splitting the description at line breaks
      gives back the six labelled lines. */
  lemma DescriptionSplits(p: Payload)
    requires Complete(p) && SingleLineFields(p)
    ensures Split(Description(p), '\n') == DescriptionLines(p.tourId.value, p.firstName.value, p.lastName.value,
                                                            p.organization.value, p.role.value,
                                                            p.interests.GetOr([]), p.notes.GetOr(""))
  {
    var interests := p.interests.GetOr([]);
    JoinAvoids(interests, ", ", '\n');
    var lines := DescriptionLines(p.tourId.value, p.firstName.value, p.lastName.value,
                                  p.organization.value, p.role.value, interests, p.notes.GetOr(""));
    assert forall i :: 0 <= i < |lines| ==> '\n' !in lines[i];
    SplitJoin(lines, '\n');
  }

  /** An absent `interests` or `notes` leaves its line with the label alone. */
  lemma AbsentFieldsLines(p: Payload)
    requires Complete(p) && SingleLineFields(p)
    ensures |Split(Description(p), '\n')| == 6
    ensures p.interests.None? ==> Split(Description(p), '\n')[4] == "Interests: "
    ensures p.notes.None? ==> Split(Description(p), '\n')[5] == "Notes: "
  {
    DescriptionSplits(p);
  }

  // ------------------------------------------------------------ createEvent

  /** What `createEvent` does: attempt the insert of an event, raise before
      the insert, or (main.py, no calendar client) return at once. */
  datatype Outcome = Inserted(event: Event) | Raised(failure: Failure) | Skipped

  /** api/main.py's `createEvent`. */
  function CreateEvent(p: Payload): (r: Outcome)
    ensures !r.Skipped?
    ensures r.Inserted? <==> Complete(p) && Schedule(DateTimeText(p)).Ok?
    ensures r.Inserted? ==> r.event == BuildEvent(p).value
    ensures r.Raised? ==> r.failure == BuildEvent(p).error
  {
    match BuildEvent(p)
    case Ok(e) => Inserted(e)
    case Err(f) => Raised(f)
  }

  /** main.py's `createEvent`: without a calendar client nothing is read
      from the payload; with one it behaves like api/main.py's. */
  function CreateEventGuarded(service: Option<Credentials.CalendarService>, p: Payload): (r: Outcome)
    ensures r.Skipped? <==> service.None?
    ensures service.Some? ==> r == CreateEvent(p)
  {
    if service.None? then Skipped else CreateEvent(p)
  }

  /** Without a calendar client the guarded `createEvent` does the same for
      every payload, complete or not. */
  lemma GuardIgnoresPayload(p: Payload, q: Payload)
    ensures CreateEventGuarded(None, p) == CreateEventGuarded(None, q)
  {
  }

  // ------------------------------------------------------------- book_tour

  const CreatedMessage: string := "Tour created successfully"

  /** The handler's reply: the fixed message with the request body echoed,
      or an error response when `createEvent` raises. */
  datatype Response = Created(message: string, data: Payload) | ServerError

  /** `book_tour` around a `createEvent` outcome; `insertSucceeds` says
      whether `events().insert(...).execute()` returns. The inserted event is
      discarded. */
  function Reply(outcome: Outcome, p: Payload, insertSucceeds: bool): (r: Response)
    ensures r.Created? ==> r == Created(CreatedMessage, p)
    ensures r.Created? <==> outcome.Skipped? || (outcome.Inserted? && insertSucceeds)
  {
    match outcome
    case Skipped => Created(CreatedMessage, p)
    case Raised(_) => ServerError
    case Inserted(_) => if insertSucceeds then Created(CreatedMessage, p) else ServerError
  }

  /** api/main.py's `book_tour`. */
  function BookTour(p: Payload, insertSucceeds: bool): (r: Response)
    ensures r.Created? <==> BuildEvent(p).Ok? && insertSucceeds
    ensures r.Created? ==> r.message == CreatedMessage && r.data == p
  {
    Reply(CreateEvent(p), p, insertSucceeds)
  }

  /** main.py's `book_tour`. */
  function BookTourGuarded(service: Option<Credentials.CalendarService>, p: Payload, insertSucceeds: bool): (r: Response)
    ensures service.Some? ==> r == BookTour(p, insertSucceeds)
    ensures service.None? ==> r == Created(CreatedMessage, p)
  {
    Reply(CreateEventGuarded(service, p), p, insertSucceeds)
  }

  /** The silent success of main.py: without a calendar client, a request
      api/main.py rejects (a missing key, an unparseable date) is still
      answered with the success message. */
  lemma SilentSuccess(p: Payload, insertSucceeds: bool)
    requires BuildEvent(p).Err?
    ensures BookTour(p, insertSucceeds) == ServerError
    ensures BookTourGuarded(None, p, insertSucceeds) == Created(CreatedMessage, p)
  {
  }

  // -------------------------------------------------------------- preflight

  const Frontend: string := "https://besa-booking-git-backendv5-be-student-ambassadors-projects.vercel.app"
  const PreflightMessage: string := "preflight ok"
  const AllowedHeaders: string := "Content-Type, Authorization"

  datatype Preflight = Preflight(message: string, allowOrigin: string, allowMethods: string, allowHeaders: string)

  /** api/main.py's `OPTIONS /book-tour/`. */
  function BookTourOptions(): (r: Preflight)
    ensures r.allowOrigin == Frontend && r.allowMethods == "POST, OPTIONS"
    ensures r.message == PreflightMessage && r.allowHeaders == AllowedHeaders
  {
    Preflight(PreflightMessage, Frontend, "POST, OPTIONS", AllowedHeaders)
  }

  /** main.py's `OPTIONS /{path}`: the path is not consulted. */
  function GlobalOptions(path: string): (r: Preflight)
    ensures r.allowOrigin == Frontend && r.allowMethods == "GET, POST, OPTIONS"
    ensures r.message == PreflightMessage && r.allowHeaders == AllowedHeaders
  {
    Preflight(PreflightMessage, Frontend, "GET, POST, OPTIONS", AllowedHeaders)
  }

  lemma GlobalOptionsIgnoresPath(a: string, b: string)
    ensures GlobalOptions(a) == GlobalOptions(b)
  {
  }
}
