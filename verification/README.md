# Tour booking API — a Dafny model of its pure core

The system is a small Python web service for booking campus tours. A
`POST /book-tour/` carries a JSON payload with a date, a 12-hour time and the
visitor's details. The service turns the payload into a Google Calendar event
that lasts one hour and inserts it. Two near-duplicate entry points exist:

- `api/main.py` fails at start-up whenever a client cannot be built.
- `main.py` is defensive. A failure to build the calendar client leaves it
  as `None`, and `createEvent` then does nothing. A Firebase failure only
  leaves the Firestore client `db` as `None`; `createEvent` never reads it.

This project models the statable logic of both entry points:

- `Text`: Python's `str.strip`, `str.split`, `str.join` and
  `replace("\\n", "\n")`, with inverse or reference partners.
- `Decimal`: digit strings and their values.
- `Civil`: the proleptic Gregorian calendar of Python's `datetime`: validity,
  leap years, a seconds-since-0001-01-01 stamp, and `+ timedelta(hours=1)`
  with rollover across day, month and year ends.
- `Strptime`: `datetime.strptime(s, "%Y-%m-%d %I:%M %p")` on a precisely
  stated subset of inputs (see below). The text is split into fields (`Lex`)
  and the fields are interpreted (`Interpret`). A formatter (`Format12`,
  `Unlex`) is the inverse partner.
- `Iso8601`: the naive `isoformat()` rendering `YYYY-MM-DDTHH:MM:SS`. This is
  the extended complete calendar date and time representation of ISO
  8601:2004, section 4.3.2. Its reader `ParseIso` is the inverse partner.
- `Environment`, `Scopes`: the process environment, and
  `resolve_calendar_scopes`.
- `Credentials`: which credential source each loader chooses, the
  dictionaries it assembles, and the start-up sequence of each entry point.
  The SDK constructors are uninterpreted: an `Sdk` value says only whether
  each call returns or raises.
- `Booking`: `createEvent` up to the insert, the `book_tour` handler, the
  guarded `createEvent` of `main.py`, and the replies of the OPTIONS handlers.

The accepted `strptime` subset:

- `%Y` is exactly four ASCII digits.
- `%m`, `%d`, `%I` and `%M` are one or two ASCII digits.
- Each blank in the format is one or more characters Python counts as
  whitespace.
- `%p` is `AM` or `PM` in any letter case, and nothing may follow it.
- After the match, the ranges of the pattern's alternatives are checked
  (month 1–12, day 1–31, hour 1–12, minute 0–59), then `datetime`'s own check
  of the date (year at least 1, day within the month).
- 12 AM is hour 0, 12 PM is hour 12, and 1–11 PM add twelve.

## Model

| member | source | states |
|---|---|---|
| Text.Strip | api/main.py:72 | `strip()` yields a slice of the input with no whitespace at either end, only whitespace before and after it, and it is empty exactly when the input is all whitespace |
| Text.StripPadded | api/main.py:72 | stripping whitespace padding off a stripped core gives back exactly the core |
| Text.StripIdempotent | api/main.py:72 | stripping twice is stripping once |
| Text.Split | api/main.py:72 | `split(",")` yields at least one piece, no piece holds the separator, and joining the pieces with it gives the input back |
| Text.SplitJoin | api/main.py:72 | splitting undoes joining when no part holds the separator |
| Text.Join | api/main.py:127 | `", ".join(...)` of no items is the empty string, of one item is that item, and of two or more starts with the first item and the separator |
| Text.JoinAppend | api/main.py:127 | joining two non-empty lists end to end is joining each and putting one separator between them |
| Text.JoinAvoids | api/main.py:127 | a character in neither the parts nor the separator is not in the joined text |
| Text.UnescapeNewlines | api/main.py:27 | `replace("\\n", "\n")` never lengthens the text, leaves no backslash-`n` behind, and empties only the empty text |
| Text.UnescapeEscape | api/main.py:27 | unescaping undoes escaping for text without a literal backslash-`n` |
| Text.UnescapeIdentity | api/main.py:27 | text with no backslash-`n` is left unchanged |
| Text.UnescapeSplice | api/main.py:27 | the first backslash-`n` becomes a newline, the text before it is kept as is, and the scan resumes right after it; with `Text.UnescapeIdentity` this fixes the result of every input |
| Text.UnescapeIdempotent | api/main.py:27 | unescaping twice is unescaping once |
| Decimal.Pad | api/main.py:131 | zero-padding gives exactly `width` digits whose value is the number whenever it fits |
| Civil.NextDay | api/main.py:118 | the next calendar day is one ordinal day later, rolling over month and year ends; there is none after 9999-12-31 |
| Civil.AddOneHour | api/main.py:118 | `+ timedelta(hours=1)` is a valid date-time exactly 3600 seconds later, failing only in the last hour of 9999-12-31 |
| Civil.AddOneHourUnique | api/main.py:118 | the result of adding an hour is the one valid date-time exactly 3600 seconds later |
| Civil.OrdinalMonotone | api/main.py:118 | a date earlier in calendar order has a smaller day number |
| Civil.StampInjective | api/main.py:118 | distinct valid date-times have distinct seconds stamps |
| Civil.LeapDayRollover | api/main.py:118 | 2024-02-28 23:30 rolls into the leap day, and 2024-02-29 23:30 into 1 March |
| Civil.CommonYearRollover | api/main.py:118 | 2023-02-28 23:30 rolls into 1 March |
| Civil.CenturyRollover | api/main.py:118 | 1900 is not a leap year: 1900-02-28 23:00 rolls into 1 March |
| Civil.YearEndRollover | api/main.py:118 | 2025-12-31 23:15 rolls into 2026-01-01 00:15, and 9999-12-31 23:00 overflows |
| Strptime.Parse12 | api/main.py:115-117 | the text parses exactly when it matches the pattern and its fields are in range; the result is a valid date-time with second 0 carrying the text's date, minute, and hour modulo 12, before noon exactly for AM |
| Strptime.Lex | api/main.py:115-117 | the matched fields have the pattern's shape and concatenate back to the input |
| Strptime.LexUnlex | api/main.py:115-117 | every well-formed field tuple written out is matched back into the same fields |
| Strptime.Hour24 | api/main.py:115-117 | the 24-hour value is below 12 exactly for AM and agrees with the 12-hour value modulo 12 |
| Strptime.TwelveOClock | api/main.py:115-117 | 12 AM is hour 0 and 12 PM is hour 12 |
| Strptime.Hour24Injective | api/main.py:115-117 | distinct 12-hour readings give distinct 24-hour values |
| Strptime.To12 | api/main.py:115-117 | every hour 0–23 has a 12-hour reading that converts back to it |
| Strptime.Interpret | api/main.py:115-117 | matched fields give a date-time exactly when the month, day, hour and minute are in range and the date exists; it carries the parsed date and minute, second 0, and the meridiem and hour of the text |
| Strptime.ParseShaped | api/main.py:115-117 | text of the pattern's shape parses exactly when its fields are in range, to the interpreted value |
| Strptime.ParseFormat12 | api/main.py:115-117 | every valid date-time with second 0, written in the 12-hour format, parses back to itself |
| Strptime.AfternoonExample | api/main.py:115-117 | "2025-03-10 02:30 PM" is 14:30 on 10 March 2025 |
| Strptime.LeapDayExample | api/main.py:115-117 | 29 February parses in 2024 and fails in 2025 |
| Iso8601.IsoFormat | api/main.py:131 | `isoformat()` is 19 characters with `T` at position 10 |
| Iso8601.ParseIsoFormat | api/main.py:131-136 | the ISO 8601 reader gives back every valid date-time from its rendering |
| Iso8601.IsoFormatInjective | api/main.py:131-136 | distinct date-times render differently |
| Scopes.StripNonEmpty | api/main.py:72 | the comprehension keeps at most as many pieces as it is given, each non-empty, stripped and comma-free; a single piece is dropped exactly when it is all whitespace, and kept stripped otherwise |
| Scopes.StripNonEmptyAppend | api/main.py:72 | the comprehension works piece by piece: the scopes of two lists of pieces end to end are the scopes of each, in order |
| Scopes.DropEmpty | api/main.py:72 | the `if p.strip()` filter keeps only non-empty strings, never adds any, and keeps a list with no empty string whole |
| Scopes.StripThenDrop | api/main.py:72 | the comprehension is "strip every piece, then drop the pieces that became empty", for any comma-free pieces |
| Scopes.ResolveScopes | api/main.py:66-73 | an unset or empty `CALENDAR_SCOPES` gives exactly the default calendar scope; otherwise every scope is non-empty, stripped and comma-free |
| Scopes.NoScopesInBlank | api/main.py:70-73 | the listed scopes are empty exactly when the value holds only commas and whitespace |
| Scopes.BlankValueNamesNoScope | api/main.py:70-73 | a set value made only of commas and blanks gives the empty list, not the default |
| Scopes.StripEach | api/main.py:72 | when no piece is all whitespace, the comprehension strips every piece and keeps their order |
| Scopes.ResolveListed | api/main.py:69-72 | a value made by joining any comma-free pieces with commas resolves to those pieces stripped, in order, with the ones that strip to nothing dropped |
| Scopes.ResolveIdempotent | api/main.py:69-72 | re-joining the resolved scopes with commas resolves to the same list |
| Credentials.LoadFirebaseCredentials | api/main.py:18-38 | the dictionary is used exactly when the private key and the type are both non-empty; it has all eleven keys, the private key unescaped, the type as given and every other field read from its variable; otherwise `./serviceAccountKey.json` is used |
| Credentials.PrivateKeyRestored | api/main.py:27 | a PEM key stored with its line breaks written as backslash-`n` reaches the SDK with real line breaks |
| Credentials.FirebaseKeyNamesDistinct | api/main.py:23-35 | the eleven service-account dictionary keys are spelled differently, so no field overwrites another |
| Credentials.CalendarKeyNamesDistinct | api/main.py:84-95 | the nine authorized-user dictionary keys, `expiry` included, are spelled differently |
| Credentials.CalendarSourceOf | api/main.py:76-100 | the dictionary is used exactly when the five token variables are non-empty; `expiry` is present exactly when `CALENDAR_EXPIRY` is non-empty, `account` defaults to "", and the scopes are those passed in; otherwise `token.json` is used |
| Credentials.StartApi | api/main.py:41-107 | api/main.py starts exactly when every SDK call succeeds, with the resolved scopes and the chosen sources |
| Credentials.LoadCalendarCredentialsMain | main.py:68-94 | in main.py a failing environment-branch load raises, a failing `token.json` load gives no credentials, and the scopes are always the default |
| Credentials.StartMain | main.py:57-103 | main.py always starts; `db` is absent exactly when a Firebase step fails, and the calendar client exactly when loading or building fails |
| Credentials.ApiStartMeansMainStart | main.py:97-103 | without `CALENDAR_SCOPES`, whenever api/main.py starts, main.py starts with the same calendar client and a Firestore client |
| Booking.KeyNamesDistinct | api/main.py:115-139 | the eight keys `createEvent` reads with `data[...]` are spelled differently, so a `KeyError` names exactly one of them |
| Booking.Require | api/main.py:123 | `data[key]` yields the value when the key is present and a `KeyError` naming that key otherwise |
| Booking.Schedule | api/main.py:115-118 | the start is the parsed text and the end a valid date-time 3600 seconds later; unparseable text is a `ValueError`, and a start in the last hour of 9999-12-31 is an `OverflowError` |
| Booking.AfternoonSchedule | api/main.py:115-118 | the 2:30 PM tour on 10 March 2025 runs from 14:30 to 15:30 |
| Booking.Assemble | api/main.py:120-141 | the event is built exactly when every remaining required key is present; the summary defaults to "Event", both times are tagged "America/Los_Angeles", and there is exactly one attendee, the payload email |
| Booking.BuildEvent | api/main.py:114-141 | an event exists exactly when all eight required keys are present and the time parses and can be advanced; `date`, then `time`, then the parse fail first; a `KeyError` names a key that is absent; on success the summary, description, tagged ISO times and single attendee are as the source builds them |
| Booking.CompleteMeansEveryKey | api/main.py:115-139 | the completeness check covers exactly the required keys |
| Booking.MissingKeyFails | api/main.py:115-139 | any one missing required key prevents the insert, and once the time parses the failure is a missing key |
| Booking.EventSpansOneHour | api/main.py:115-137 | the event's start reads back, through the ISO 8601 reader, as the parsed time, and its end as a moment exactly one hour later |
| Booking.Description | api/main.py:122-129 | the description begins with the line "Tour ID: " and the tour id |
| Booking.DescriptionSplits | api/main.py:122-129 | with single-line fields, the description splits at line breaks into the six labelled lines in order: Tour ID, Name, Organization, Role, Interests joined by ", ", Notes |
| Booking.AbsentFieldsLines | api/main.py:127-128 | with single-line fields the description has six lines; absent interests leave the line "Interests: " and absent notes the line "Notes: " |
| Booking.CreateEvent | api/main.py:114-149 | api/main.py always attempts the insert or raises, and inserts exactly when the event can be built |
| Booking.CreateEventGuarded | main.py:106-140 | with no calendar client `createEvent` does nothing; with one it is api/main.py's |
| Booking.GuardIgnoresPayload | main.py:106-108 | with no calendar client, `createEvent` gives the same outcome for every payload: the guard never reads it |
| Booking.Reply | api/main.py:171-175 | the handler answers with the fixed message and the payload echoed unchanged exactly when `createEvent` returns |
| Booking.BookTour | api/main.py:171-175 | api/main.py answers with the fixed message and the unchanged payload exactly when the event is built and the insert returns |
| Booking.BookTourGuarded | main.py:160-164 | main.py answers like api/main.py when a calendar client exists, and with the success message and the echoed payload for every payload when none does |
| Booking.SilentSuccess | main.py:106-108 | without a calendar client, a payload api/main.py rejects is still answered with the success message |
| Booking.BookTourOptions | api/main.py:159-168 | the `OPTIONS /book-tour/` handler returns the body "preflight ok" with the front-end origin, the methods "POST, OPTIONS" and the headers "Content-Type, Authorization" |
| Booking.GlobalOptions | main.py:148-157 | the `OPTIONS /{path}` handler returns, for any path, the fixed body, the front-end origin, the methods "GET, POST, OPTIONS" and the fixed headers |
| Booking.GlobalOptionsIgnoresPath | main.py:148-157 | the `OPTIONS /{path}` handler's reply is identical for every path |

## Left out

- The calendar insert `events().insert(...).execute()` is not called. The model returns the event that would be sent, and a boolean parameter says whether the call returns. The created event it returns is discarded by both handlers, as in the source.
- The SDK constructors (`credentials.Certificate`, `Credentials.from_authorized_user_info`, `Credentials.from_authorized_user_file`, `build`, `firebase_admin.initialize_app`, `firestore.client`) are uninterpreted. `Sdk` records only whether each call returns.
- `build(credentials=None)` in main.py, after a failed `token.json` load, may still succeed with ambient default credentials. The model leaves this to `Sdk.serviceBuilds(None)`.
- FastAPI routing, JSON body parsing, Mangum, uvicorn and the `GET /` handler are framework plumbing with no logic of their own.
- The `CORSMiddleware` (api/main.py:57-63, main.py:25-31) is not modelled. It answers every real CORS preflight itself, meaning an OPTIONS request carrying `Origin` and `Access-Control-Request-Method`. It sends its own body and echoes an allowed origin, before routing. `Booking.BookTourOptions` and `Booking.GlobalOptions` therefore model only the handlers' replies to OPTIONS requests that reach them, not what a browser's preflight receives.
- authorize.py is an interactive OAuth consent flow and a file write. authorize.py is not part of this model.
- Booking.Reply: the echoed payload holds only the eleven keys `createEvent` reads. Any other key of the JSON body, which both handlers also echo, is not modelled; `Booking.BookTour` and `Booking.BookTourGuarded` answer through `Booking.Reply` and inherit this.
- Credentials.ApiStartMeansMainStart: one `Sdk.serviceBuilds` stands for both `build("calendar", "v3", credentials=creds)` (api/main.py:105) and `build(..., cache_discovery=False)` (main.py:99-101). The lemma assumes the discovery cache does not change whether the build succeeds.
- Payload values are strings, and `interests` is a list of strings. Numbers, `null` and other JSON kinds in the payload are not modelled. Neither is the `str()` rendering an f-string would give them.
- The `main.py` guard `if not calendar_service` is modelled as an absence check, because the client object is always truthy.
- Strptime.Parse12: `strptime` leniency outside the stated subset is not modelled. This covers a day written as a space and one digit, non-ASCII digits and locales other than C. The contract is stated for that subset only.
- Civil.AddOneHour: microseconds are not modelled; `strptime` with this format always gives zero seconds and microseconds.
- Time zones: "America/Los_Angeles" is only a label on the event. The arithmetic is naive wall-clock time, as in the source, and daylight-saving transitions are not modelled.
- The silent success of main.py without a calendar client is modelled as written (`Booking.SilentSuccess`), not corrected.
