# Event check-in backend: attendance ledger and card check-in

This project models the core of an Express backend that runs event
attendance with RFID cards:
- A card reader (an ESP32) calls the scan endpoint when a card is tapped.
  - A known card holder is checked in to the event: attendance status
    `present`, one history row, one welcome announcement.
  - An unknown card gets back the URL of the registration page.
- People can also register for an event, be checked in by hand, sign up, or
  link a card to an existing account.
- Organisers edit events. They work through three generations of
  controllers: Prisma-based, raw SQL, and the neon tagged-template
  controller.

The model replaces the database and the socket server with one store object:
- `Ledger.Store` has these fields:
  - `users` (uid to user record);
  - `cards` (the card index, cardId to uid);
  - `events`;
  - `attendance` (keyed by (eventId, uid), status `registered`, `present`
    or `absent`);
  - the append-only `history` of check-ins;
  - `announcements`, which stands in for `io.emit`;
  - `nextUid`, the users table's id sequence.
- Each HTTP handler is a method on that store. It returns the reply the
  handler sends, as a datatype:
  - `Kiosk.ScanReply` for the card reader's plain-text answers;
  - `Common.Reply` for the JSON replies: a status code, with the message
    for errors.
- Its `ensures` clauses state each branch of the handler: the reply, and the
  whole new state of every field it may change.

The files follow the source:

| file | models |
|---|---|
| `common.dfy` | JavaScript values that are undefined, null or a string; truthiness; template rendering; ASCII `toUpperCase` |
| `text.dfy` | `trim`, `split(/\s+/)`, `join`, `split('T')`, string order |
| `numerals.dfy` | decimal `parseInt`, the PostgreSQL integer cast, and how the two relate |
| `schedule.dfy` | event phases and the registration window of `index.js` as integer instants |
| `ledger.dfy` | the store, its seed data, and the primitive reads and writes the handlers use |
| `kiosk.dfy` | the card reader's replies and the registration URL |
| `index_app.dfy` | the handlers of `index.js` (scan, register-user, register, check-in, signup) |
| `card_app.dfy` | `scanCard` and `registerCard` of both card controllers |
| `attendees.dfy` | both attendee controllers, including the sorted, filtered attendee listing |
| `event_rows.dfy` | the neon event controller: `formatEventDates`, `createEvent`, `updateEvent` |
| `events_orm.dfy` | the Prisma event controller: whitelist update, create with null defaults, listing with distinct attendee counts |
| `events_sql.dfy` | the raw SQL event controller: `$n` placeholder queries for listing, update, create and remove |
| `auth_hook.dfy` | the authentication library's hook that splits a display name into first and last names |

Behaviour in the code that readers might not expect:
- The main server's scan handler rejects a missing event id with
  `MISSING_EVENT_ID`. The two card controllers instead welcome the card
  holder without touching the ledger.
- No handler retries on a conflict. Uniqueness of an (eventId, uid) pair is
  a check followed by a create. A concurrent duplicate fails the create,
  and the handler replies 500.
- Manual check-in (`index.js:501-556`) needs an attendance record in any
  status. It sets `present` and appends a history row every time, so two
  calls append two rows (`IndexApp.CheckInTwice`).
- Checking in without a record is answered 404 "Not registered for this
  event".

Modelling conventions:
- Request values are `Field = Undefined | Null | Str(s)`. `Truthy` is
  JavaScript truthiness for such a value.
- A numeric body id is an `Option<int>` whose `0` is falsy (`TruthyId`).
- `parseInt` is `Numerals.ParseInt`, which yields `None` for `NaN`. A `NaN`
  id reaching the database makes the query throw, and the handler replies
  500.
- The PostgreSQL cast of a text parameter to an integer is modelled by
  `Numerals.SqlInt` for plain decimal input (see "## Left out"). It is
  stricter than `parseInt` (`Numerals.ParseIntLaxerThanSql`).
- `new Date(s).toISOString()` is an abstract parameter
  `Clock = string -> Option<string>`. `None` stands for an invalid date. A
  clock's result always contains a `T` (`IsoShaped`).
- Times are integer milliseconds, and registration end is a day number.

## Model

| member | source | states |
|---|---|---|
| Common.Render | src/controllers/cardController.js:27 | A template literal renders a string as itself, undefined as "undefined" and null as "null" |
| Common.TextOf | index.js:181-190 | A string field is stored as itself; a missing or null one as the empty string |
| Common.OrNull | src/controllers/eventController.js:130-138 | `x \|\| null`: truthy values are kept and falsy ones become null |
| Common.Upper | index.js:118 | `toUpperCase` keeps the length and maps each character by its ASCII upper case |
| Text.DropSpaces | src/lib/auth.js:86 | The result is a suffix with no leading white space; exactly white space was dropped |
| Text.DropTrailingSpaces | src/lib/auth.js:86 | The result is a prefix with no trailing white space; exactly white space was dropped |
| Text.Trim | src/lib/auth.js:86 | `trim()` leaves no white space at either end, and is empty exactly when the input is all white space |
| Text.TrimIsPrefix | src/lib/auth.js:86 | After the leading white space is dropped, trimming removes only a white-space tail |
| Text.TrimUnspaced | src/lib/auth.js:86 | Text with no white space at either end is its own trim |
| Text.SplitWs | src/lib/auth.js:86 | `split(/\s+/)` gives at least one piece, and no piece contains white space |
| Text.SplitJoin | src/lib/auth.js:86-91 | Splitting words joined by single spaces gives back exactly those words |
| Text.SplitSpaced | src/lib/auth.js:86 | Splitting words separated by any non-empty runs of white space gives back exactly those words |
| Text.TrimJoinedWords | src/lib/auth.js:86-91 | Words joined by single spaces are already trimmed |
| Text.Before | src/controller/event.controller.js:9-10 | `split(c)[0]` is the longest prefix without `c`: it is all of `s` when `s` has no `c`, and is otherwise followed by `c` |
| Text.After | src/controller/event.controller.js:15-16 | The text after the first `c`; together with `split(c)[0]` and `c` it rebuilds the input |
| Text.CutTwice | src/controller/event.controller.js:168 | Cutting a text at the first of one set of characters and the result at the first of another set is cutting the text at the first of either set |
| Text.BeforeCuts | src/controller/event.controller.js:9-10 | `split(c)[0]` is the text cut at the first `c`: a prefix without `c`, followed by `c` unless it is the whole text |
| Text.SecondPiece | src/controller/event.controller.js:15-16 | `split(c)[1]` is the prefix of the text after the first `c` that ends at the next `c` or at the end of the text |
| Text.LexTotal | src/controllers/attendeeController.js:30-34 | Ascending string order relates any two names |
| Text.LexTrans | src/controllers/attendeeController.js:30-34 | Ascending string order is transitive |
| Numerals.NatStr | index.js:78 | The decimal numeral of a natural number is non-empty, all digits, and starts with 0 only for 0 |
| Numerals.NatStrValue | index.js:87 | A numeral's digits denote the number it was printed from |
| Numerals.ParseNatStr | index.js:87 | `parseInt` of a printed natural number gives that number back |
| Numerals.NatStrInjective | index.js:87 | Different numbers print differently |
| Numerals.TakeDigitsOf | index.js:87 | `parseInt` reads digits up to the first non-digit |
| Numerals.ParseAgrees | index.js:87 | `parseInt` of an optionally signed, space-padded numeral is its signed value |
| Numerals.ParseIntPrefix | index.js:87 | `parseInt` ignores whatever follows the leading numeral |
| Numerals.SqlInt | controllers/attendeeController.js:42 | Text the integer cast accepts, `parseInt` reads as the same number |
| Numerals.SqlIntNatStr | controllers/attendeeController.js:42 | The integer cast accepts a printed natural number and gives it back |
| Numerals.ParseIntReadsNumeral | index.js:87 | `parseInt` of a numeral followed by a non-digit is the numeral's value |
| Numerals.SqlIntRefuses | controllers/attendeeController.js:42 | The integer cast refuses a numeral followed by junk that is not trailing white space |
| Numerals.ParseIntLaxerThanSql | src/controllers/attendeeController.js:67-68 | An id such as "12abc" is 12 to `parseInt` and an error to the integer cast, so the two controllers treat it differently |
| Schedule.CutoffIsEndOfDay | index.js:457-459 | An instant is within the registration cutoff (23:59:59.999 of the end day) exactly when its day is no later than that day |
| Schedule.PhaseAt | index.js:289-294 | "ended" iff now > end, "ongoing" iff start <= now <= end, "upcoming" iff now < start; exactly one holds |
| Schedule.PhaseMonotone | index.js:289-294 | As time passes, an event's phase only moves forward |
| Schedule.CheckWindow | index.js:449-471 | The registration checks in their code order: ended iff now > end; closed iff not ended and past the end-day cutoff; not open iff neither and now < start; open otherwise |
| Schedule.RegistrationScenario | seed.js:61-76 | For the seeded Tech Conference: closed on 2026-02-01, not open on 2026-01-10, open on 2026-01-20 |
| Ledger.ParseStatus | src/controllers/attendeeController.js:140-142 | Exactly "absent", "present" and "registered" parse, each to the status of that name |
| Ledger.StatusNameRoundTrip | src/controllers/attendeeController.js:140-142 | Every status's name parses back to it |
| Ledger.Store.Seed | seed.js:19-143 | The seed: four users from uid 31 with their cards, two events, four attendance rows, two history rows |
| Ledger.Store.CreateAttendee | src/controllers/attendeeController.js:79-85 | Creating a record succeeds iff the pair is new and both the event and the user exist; only then is that one pair added |
| Ledger.Store.SetStatus | src/controllers/attendeeController.js:144-152 | Updating a record succeeds iff the pair exists, and changes only that pair's status |
| Ledger.Store.DeleteAttendee | src/controllers/attendeeController.js:169-176 | Deleting succeeds iff the pair exists, and removes only that pair |
| Ledger.Store.AppendHistory | index.js:122-124 | Appends exactly one history row |
| Ledger.Store.Publish | index.js:127 | Appends exactly one announcement |
| Ledger.Store.CheckInIfAbsent | src/controllers/cardController.js:127-151 | Only a pair with no record gets a `present` record and one history row; the create fails when the event does not exist; an existing record is left as is |
| Ledger.Store.MarkPresent | index.js:85-124 | Already present leaves everything unchanged; a missing record for a missing event fails; otherwise the pair becomes present (created when new) and one history row is appended |
| Ledger.Store.CreateUser | index.js:181-190 | Creating a user fails iff the card is already taken; otherwise the user gets the next uid and the card index maps the card to it |
| Ledger.Store.SetCard | src/controllers/cardController.js:113-117 | Linking a card: an unknown user or a card held by someone else fails with nothing changed; otherwise the user's old card is unlinked and the new one maps to the user |
| Kiosk.StatusCode | index.js:58-64 | The reader gets 400 exactly for an invalid card or a missing event id, and 500 exactly for a server error |
| Kiosk.BaseUrl | index.js:29 | The configured frontend URL when set, otherwise the development URL |
| Kiosk.FrontendUrl | src/controllers/cardController.js:3-6 | In production the configured URL, rendered even when unset; otherwise the development URL |
| Kiosk.RegistrationUrlCarriesIds | index.js:78 | The registration URL is the base URL followed by `/register?cardId=<cardId>&eventId=<eventId>`, both ids verbatim |
| IndexApp.ScanCard | index.js:54-133 | A short card gives INVALID_CARD_ID and a missing event gives MISSING_EVENT_ID, with no change. An unknown card gets the registration URL. A known holder is answered ALREADY_CHECKED_IN when present. Otherwise they are set present, with one history row and one "Welcome, <fname>!". A NaN id or a missing event gives SERVER_ERROR with no change |
| IndexApp.CheckInHolder | index.js:85-128 | The known-holder part of the scan, with each branch's reply and new state |
| IndexApp.ScanTwice | index.js:115-119 | A second identical scan after a welcome answers ALREADY_CHECKED_IN and adds no history; history grows by one across both |
| IndexApp.RegisterUser | index.js:161-225 | Missing card or email gives 400. A taken email gives 409. A taken card gives 500. Nothing changes in those cases. Otherwise the user is created; with an event id the user is also checked in (present, one history row), and a bad event id gives 500 with the user kept. Success announces registration_success and replies 201 |
| IndexApp.CheckInNewUser | index.js:195-215 | The new user's check-in and announcement, with 500 and no check-in when the event id is NaN or unknown |
| IndexApp.CheckInIfGiven | index.js:195-203 | With an event id, the new user gets a present record and one history row, failing iff the id is NaN or no such event exists |
| IndexApp.Register | index.js:405-498 | The rejections in code order, each with no change: 400 no uid, 500 NaN id, 404 no event, 403 own event, 400 ended / registration ended / not started, 409 already registered. Otherwise exactly one `registered` record is created |
| IndexApp.CheckIn | index.js:501-556 | 400 no uid, 404 no event, 403 own event, 404 not registered, each with no change; otherwise the pair becomes present and one history row is appended, whatever the status was |
| IndexApp.CheckInTwice | index.js:541-549 | Two successful manual check-ins leave the pair present and append two history rows |
| IndexApp.SignupUser | index.js:859-887 | An email filter that finds a user gives 409. An undefined email is no filter at all, so it finds any user. A missing email or a taken card gives 500. Nothing changes in those cases. Otherwise the user is created with the card when one is given |
| IndexApp.SignupAsWritten | index.js:889-898 | The signup handler as written: with both an event id and a card id, the attendee create always fails (500) after the user was created |
| IndexApp.Signup | index.js:859-905 | The corrected signup: with an event id and a card id, the new user is registered for that event, or 500 when the id is NaN or unknown |
| IndexApp.RegisterNewUser | index.js:889-898 | The corrected attendee create: a `registered` record for an existing event, 500 otherwise |
| IndexApp.SignupAsWrittenWitness | index.js:893 | A fresh email, a free card and an event id: the as-written signup replies 500 and leaves an orphaned user |
| IndexApp.SignupWitness | index.js:889-898 | The same request to the corrected signup replies 201 and registers the user |
| CardApp.WelcomeText | src/controllers/cardController.js:65-92 | "Welcome, <fname>" and "!"; when the scan created the record the text goes on with exactly "! (Auto-Registered)", otherwise it ends at the "!" |
| CardApp.WelcomeAutoExtends | src/controllers/cardController.js:65-92 | The on-the-spot announcement is the plain greeting followed by " (Auto-Registered)" |
| CardApp.ScanCard | src/controllers/cardController.js:10-98 | A short card gives INVALID_CARD_ID and an unknown card the registration URL, with no change. With no event id the holder is welcomed with no change. A NaN id or missing event gives SERVER_ERROR. If present, the reply is ALREADY_IN. Otherwise the holder is set present, with one history row and the welcome, auto-registered when new. The uid-keyed copy in controllers/cardController.js:10-98 is the same. |
| CardApp.CheckInHolder | src/controllers/cardController.js:36-93 | The event part of the scan, with each branch's reply and new state |
| CardApp.ScanTwice | src/controllers/cardController.js:70-72 | After a welcome for an event, the same scan answers ALREADY_IN and adds no history |
| CardApp.CheckInOnLink | src/controllers/cardController.js:120-152 | With an event id and no record, a present record and one history row are added; an existing record is left as is; a NaN or unknown event fails |
| CardApp.FinishLink | src/controllers/cardController.js:119-160 | After the card is linked: the check-in, then card_registered with 200, or 500 and no check-in or announcement |
| CardApp.RegisterCard | src/controllers/cardController.js:101-174 | 400 when the card or user id is missing, 404 for an unknown user, 500 for a card held by another user, each with no change. Otherwise the card is linked, the optional check-in happens, and card_registered is emitted. The uid-keyed copy in controllers/cardController.js:101-174 is the same, with `uid` in the 400 message. |
| Attendees.CastsAgree | src/controllers/attendeeController.js:67-68 | Where the SQL cast accepts an id, `parseInt` reads the same id |
| Attendees.AddStatus | src/controllers/attendeeController.js:98 | A missing status defaults to registered; a given one must parse; null fails |
| Attendees.Register | src/controllers/attendeeController.js:55-92 | 400 when uid is missing. 409 for an existing pair. 500 for a bad id or a missing event or user. Nothing changes in those cases. Otherwise exactly one `registered` record is added. The SQL copy in controllers/attendeeController.js:32-62 is the same, with the ids cast by the database. |
| Attendees.Add | src/controllers/attendeeController.js:95-132 | As register, with the status given or defaulted; an unknown status gives 500. The SQL copy in controllers/attendeeController.js:65-95 is the same. |
| Attendees.RequestedStatus | src/controllers/attendeeController.js:140-142 | Only the three status names pass the whitelist, each as its own status |
| Attendees.UpdateStatus | src/controllers/attendeeController.js:135-162 | 400 for a status outside the whitelist before any store access. 500 for a bad id. 404 for a missing record. Nothing changes in those cases. Otherwise only that pair's status changes. The SQL copy in controllers/attendeeController.js:98-123 is the same, with an empty RETURNING as 404. |
| Attendees.Remove | src/controllers/attendeeController.js:165-186 | A bad id gives 500 and a missing record 404, with no change; otherwise exactly that pair is removed. The SQL copy in controllers/attendeeController.js:126-145 is the same, with an empty RETURNING as 404. |
| Attendees.RemoveTwice | src/controllers/attendeeController.js:169-183 | A second remove of the same pair after a success answers 404 |
| Attendees.Uids | src/controllers/attendeeController.js:38-39 | The listed uids, in order |
| Attendees.Insert | src/controllers/attendeeController.js:30-34 | Inserting a row into a list sorted by first name keeps it sorted and adds exactly that row's uid |
| Attendees.SelectedMember | src/controllers/attendeeController.js:10-16 | Every selected uid has a record for the event, with the filtered status when a filter is given |
| Attendees.Collect | src/controllers/attendeeController.js:18-45 | The listing is sorted by first name, holds each selected uid exactly once, and every row carries that record's status and user fields |
| Attendees.GetByEventId | src/controllers/attendeeController.js:5-52 | Fails (500) iff the event id is NaN or the status filter names no status; otherwise the listing of that event's records, filtered and sorted |
| EventRows.FormatDate | src/controller/event.controller.js:7-12 | Falsy values and strings without `T` are unchanged; otherwise the result is the text before the first `T` |
| EventRows.FormatTime | src/controller/event.controller.js:13-18 | Falsy values and strings without `T` are unchanged; otherwise the text after the first `T` up to the next `T` or `.` |
| EventRows.FormatDateIdempotent | src/controller/event.controller.js:7-12 | Formatting a date twice equals formatting it once |
| EventRows.FormatTimeIdempotent | src/controller/event.controller.js:13-18 | Formatting a time twice equals formatting it once |
| EventRows.FormatEventDates | src/controller/event.controller.js:5-28 | No event stays no event. Otherwise only the six date and time columns change, each by its formatter, and every other column is copied |
| EventRows.FormatEventDatesIdempotent | src/controller/event.controller.js:5-28 | Formatting an event twice equals formatting it once |
| EventRows.NormalizeClock | src/controller/event.controller.js:161-162 | `HH:MM` gets ":00" appended and `HH:MM:SS` is kept verbatim; the result is eight characters long |
| EventRows.NormalizeClockIdempotent | src/controller/event.controller.js:161-162 | Normalised clock text is `HH:MM:SS` clock text with the hours and minutes given, and normalising it again changes nothing |
| EventRows.DayOfUnique | src/controller/event.controller.js:123 | The day a timestamp gives is determined by that timestamp: two values that are both its cut at `T` are equal |
| EventRows.ClockOfUnique | src/controller/event.controller.js:168 | The same for the clock piece of a timestamp |
| EventRows.IsoDayIsCut | src/controller/event.controller.js:123 | `IsoDay` of a timestamp is exactly its day, in the sense that `DayOf` states about stored columns |
| EventRows.IsoClockIsCut | src/controller/event.controller.js:168 | `IsoClock` of a timestamp with a `T` is exactly its clock piece, in the sense of `ClockOf` |
| EventRows.IsoDayExample | src/controller/event.controller.js:123 | The day of `2026-01-20T09:30:00.000Z` is `2026-01-20` |
| EventRows.IsoDay | src/controller/event.controller.js:123 | `toISOString().split('T')[0]` is the timestamp cut at its first `T`: the prefix before it, or all of it when there is none |
| EventRows.IsoClock | src/controller/event.controller.js:168 | `toISOString().split('T')[1].split('.')[0]` is the text after the first `T`, cut at the next `T` or `.` |
| EventRows.Keep | src/controller/event.controller.js:108-115 | A given value (even null) replaces the existing one; only undefined keeps it |
| EventRows.NewDate | src/controller/event.controller.js:118-126 | A falsy date keeps the existing value; a valid one becomes its timestamp's day, the ISO text cut at the first `T` |
| EventRows.NewTime | src/controller/event.controller.js:159-172 | A falsy time keeps the existing value; clock text is normalised; a valid date becomes its timestamp's clock piece, the ISO text after `T` cut at the next `T` or `.` |
| EventRows.FirstInvalid | src/controller/event.controller.js:118-187 | The first date or time column, in check order, whose given value is unusable: that column is unusable and every column before it in the order (start date, end date, registration start, registration end, start time, end time) is usable; none iff all are usable |
| EventRows.Merge | src/controller/event.controller.js:108-187 | The merged row keeps every column outside the twelve the update writes |
| EventRows.MergedAt | src/controller/event.controller.js:108-187 | Each column of a merged row: a given plain value replaces the old one, undefined keeps it, a falsy date or time keeps it, a given date is its timestamp's ISO day, a given time its ISO clock piece, and clock text is normalised |
| EventRows.MergeWrites | src/controller/event.controller.js:108-187 | The same facts for all columns at once |
| EventRows.MergeEmptyBody | src/controller/event.controller.js:108-187 | An update that gives nothing leaves the row as it was |
| EventRows.Stored | src/controller/event.controller.js:75-79 | A query parameter sends undefined as null and any other value unchanged |
| EventRows.CreatedAt | src/controller/event.controller.js:58-79 | Each column of a created row: plain values as given (undefined as null), each date its timestamp's ISO day, each time its ISO clock piece, clock text as `HH:MM:SS` |
| EventRows.CreatedTime | src/controller/event.controller.js:63-73 | A time column of a created row is the ISO clock piece of its timestamp, and clock text is normalised |
| EventRows.CreatedDate | src/controller/event.controller.js:58-61 | A date column of a created row is the ISO day of its timestamp |
| EventRows.CreatedPlain | src/controller/event.controller.js:75-79 | Every other column of a created row is the given value, undefined as null |
| EventRows.CreatedHolds | src/controller/event.controller.js:58-79 | The facts of `CreatedAt` for all columns at once |
| EventRows.CreatedIsFormatted | src/controller/event.controller.js:80 | The reply's `formatEventDates` of a created row changes nothing |
| EventRows.CreateTimeAsWritten | src/controller/event.controller.js:65-73 | As written, a create's time is accepted iff `new Date` accepts it, and is then stored as the ISO clock piece of that timestamp |
| EventRows.ClockTextOnCreate | src/controller/event.controller.js:63-73 | "10:00", which `new Date` refuses, fails the create as written, while the rule the update uses stores "10:00:00" |
| EventRows.EventTable.UpdateEvent | src/controller/event.controller.js:87-212 | 500 for an id the cast refuses, 404 for a missing event, 400 naming the first unusable date or time, and 500 when the merged owner is text the integer column refuses, each with no change; otherwise the row becomes the merge, and the reply is the formatted new row |
| EventRows.EventTable.CreateEvent | src/controller/event.controller.js:30-85 | Corrected (see "## Findings"): 400 when a date or time field is missing, 400 for an invalid date, 400 for an unusable time, and 500 for an owner the integer column refuses, each with no change; otherwise one row with the next id is inserted and returned. Clock text such as `10:00` is accepted here and stored as `HH:MM:SS`, where the code as written answers 400 "Invalid time format" |
| EventsOrm.UpdateValue | src/controllers/eventController.js:177-188 | Date keys become a date when truthy and null when falsy; other keys are copied unchanged |
| EventsOrm.UpdateData | src/controllers/eventController.js:171-191 | The update data holds exactly the body's keys that are on the whitelist |
| EventsOrm.UpdateIgnoresOwner | src/controllers/eventController.js:158-169 | eventOwner is never updated |
| EventsOrm.BuildUpdateData | src/controllers/eventController.js:171-191 | The loop builds exactly the update data, and its flag is set iff a whitelisted key was given |
| EventsOrm.CreateDefaultsNull | src/controllers/eventController.js:127-141 | Each optional field is in the created row; a falsy one is null and a truthy one as given |
| EventsOrm.Select | src/controllers/eventController.js:19-20 | The query returns exactly the events that match every filter given |
| EventsOrm.Distinct | src/controllers/eventController.js:29-34 | `distinct` keeps each attendee id once and no other |
| EventsOrm.UniqueCount | src/controllers/eventController.js:29-34 | A list without repeats is as long as its set of members |
| EventsOrm.AttendeeCount | src/controllers/eventController.js:44-46 | attendeeCount is the number of distinct attendee ids |
| EventsOrm.Summaries | src/controllers/eventController.js:44-52 | One summary per event, in order, with its id and distinct attendee count |
| EventsOrm.BuildWhereAsWritten | src/controllers/eventController.js:9-17 | As written: a date filter when a date is given, and an owner filter holding the ownerId text when an owner is given |
| EventsOrm.GetAllAsWritten | src/controllers/eventController.js:5-59 | As written, an ownerId filter always fails with 500, as does an invalid date |
| EventsOrm.BuildWhere | src/controllers/eventController.js:9-17 | Corrected: the owner filter holds the parsed id, and building fails iff the owner id is NaN |
| EventsOrm.GetAll | src/controllers/eventController.js:5-59 | Corrected: 500 iff the date is invalid or the owner id is NaN; otherwise the summaries of exactly the events matching both filters |
| EventsOrm.EventRecords.Update | src/controllers/eventController.js:152-210 | 400 with no whitelisted key, 500 for a NaN id, 404 for a missing event, each with no change; otherwise only the whitelisted data is merged into that row |
| EventsOrm.EventRecords.Create | src/controllers/eventController.js:107-149 | 400 without eventOwner, start and end date and regisURL; 500 for a NaN or unknown owner; otherwise one row with the next id is created and defaults to null |
| EventsSql.Numbers | controllers/eventController.js:16-27 | A query has no more placeholders than pieces |
| EventsSql.NumbersAppend | controllers/eventController.js:16-27 | The placeholders of appended query text are those of each part, in order |
| EventsSql.BuildGetAll | controllers/eventController.js:5-37 | Parameters are the given date then the given owner. The query is the select, " WHERE" for the first filter and " AND" for the second, then the grouping. Its placeholders are exactly $1..$n for the n parameters |
| EventsSql.Whitelisted | controllers/eventController.js:116-130 | The kept keys are exactly the body's keys on the whitelist |
| EventsSql.WhitelistedSnoc | controllers/eventController.js:116-130 | Adding one key to the body keeps it at the end iff it is on the whitelist |
| EventsSql.Assignments | controllers/eventController.js:131 | One assignment per kept key |
| EventsSql.ValuesOf | controllers/eventController.js:132 | One value per kept key |
| EventsSql.AssignmentsAt | controllers/eventController.js:131-132 | The j-th assignment is `key = $(j+1)` for the j-th kept key, and the j-th value is that key's value |
| EventsSql.AssignmentsSnoc | controllers/eventController.js:131-133 | Keeping one more key appends one assignment with the next placeholder and its value |
| EventsSql.BuildSet | controllers/eventController.js:112-135 | The loop builds exactly the assignments and values of the kept keys, in order, with a parameter count of one more than their number |
| EventsSql.Assigned | controllers/eventController.js:116-133 | The written columns are exactly the kept keys |
| EventsSql.EventTable.Update | controllers/eventController.js:107-160 | With no kept key: 400 and no query. Otherwise the query is the SET list with `WHERE eventId = $(n+1)`, and the parameters are the values then the id. Then 500 for an id the cast refuses, 404 for no row, or the kept columns written into that row |
| EventsSql.EventTable.Assign | controllers/eventController.js:150-153 | Running the update: 500 for a refused id, 404 for no row, otherwise that row takes the new columns |
| EventsSql.EventTable.Remove | controllers/eventController.js:163-181 | 500 for a refused id, 404 when no row was deleted, otherwise exactly that row is removed |
| EventsSql.EventTable.Create | controllers/eventController.js:65-104 | 400 without eventOwner, start and end date and regisURL; 500 for a refused or unknown owner; otherwise one row with the next id |
| EventsSql.EventTable.Insert | controllers/eventController.js:85-96 | The insert takes the next id, which was free |
| AuthHook.FirstName | src/lib/auth.js:86-89 | The first name has no white space, and is empty exactly when the display name is all white space |
| AuthHook.LastName | src/lib/auth.js:86-92 | A display name that is all white space gives the empty last name |
| AuthHook.SplitName | src/lib/auth.js:86-92 | A display name of words separated by any non-empty runs of white space, with any white space around it, splits into its first word and the other words joined by single spaces |
| AuthHook.NewUser.BeforeCreate | src/lib/auth.js:83-100 | A given first or last name is kept. A missing one comes from the display name when there is one, and is "" otherwise. Both end up as strings |

## Left out

- Express, the Prisma client, neon's query function and socket.io are not modelled.
  - Requests are sequential and atomic, and the database is the store's fields.
  - `io.emit` appends to `announcements`.
  - Response objects are reduced to the reply datatypes.
  - The check-then-create race between a lookup and the following create is not modelled, because requests do not interleave here.
  - Nor is the lack of a transaction around user, attendee and history writes.
- JavaScript `Date` is the abstract `Clock` parameter: `toISOString`, `setHours`, time zones and what `new Date` accepts. Event instants, the registration start instant and the registration end day are integers. `index.js:276` sets seconds where `index.js:359-362` does not; both become a given end instant.
- `Numerals.ParseInt` reads only decimal text. Hexadecimal prefixes, `Infinity` and integer width are not modelled, and ids are unbounded integers.
- White space is the ASCII set; Unicode white space, which `trim` and `\s` also match, is left out. `toUpperCase` is ASCII-only.
- The listing of events in `index.js` (230-324), single-event reads, the reporting endpoints (643-836), `/login`, user profile reads and updates, and the attendee listing route of `index.js` (559-585) are left out. They are read-only formatting over the store.
- The raw SQL attendee listing (`controllers/attendeeController.js:5-29`) is left out. It builds its text by string interpolation, so its behaviour depends on SQL parsing of user input. The Prisma listing is modelled in its place.
- Event `getById` in the Prisma and SQL controllers, `getEventById` and deleting an event in the neon controller, and the Prisma event `remove` are left out.
  - They are single lookups with a 404 branch.
  - `EventsSql.EventTable.Remove` models the SQL delete.
- The database's own checks go unmodelled in these places:
  - its refusal of an invalid date in a Prisma update or create;
  - its ordering of event listings by start date (listings are compared as sets);
  - the owner name flattening of the event listing.
- The whitespace layout of the SQL statements is not modelled. The model keeps the query's pieces and placeholders.
- `Ledger.Store.CreateUser`: stores a null or missing first or last name as the empty string, and does not model the password. The source stores null. A holder with a null first name who then scans a card at `index.js` gets the record and the history row written and "Welcome, null!" announced (`index.js:96-127`), but `user.fname.toUpperCase()` then throws (`index.js:128`, and `:118` when already present), so the reply is SERVER_ERROR rather than a welcome. The model greets such a holder by the empty name.
- CardApp.RegisterCard: the userId of the Prisma card controller is passed to the database unconverted. It is modelled as an integer, as the uid-keyed controller's `parseInt(uid)` gives. Two string cases are not modelled. A `uid` such as "abc" is truthy, `parseInt` makes it NaN, and Prisma's validation error becomes a 500 (`controllers/cardController.js:113-114`, `:167-172`). A `uid` of "0" is truthy and reaches the not-found error P2025, a 404, where the model answers 400.
- Attendees.Register, Attendees.Add, IndexApp.Register, IndexApp.CheckIn: the uid in the request body is modelled as an already converted integer, with 0 as the missing value. Two string cases are not modelled: text such as "abc" is truthy but `parseInt` makes it NaN, so the first query fails and the handler replies 500 (`index.js:474-476`); and "0" is truthy in JavaScript, where the model answers 400 for a missing uid.
- Attendees.GetByEventId, Attendees.Add: the status column is taken to be an enum of the three status names, so the ORM refuses any other name and the handler replies 500 (`src/controllers/attendeeController.js:14-15`, `:123`, caught at `:48-50` and `:128-130`). With a plain text column the source would instead store or filter by the unknown name; that case is not modelled.
- Attendees.Collect, Attendees.GetByEventId: the database's collation for ordering attendees by first name (`src/controllers/attendeeController.js:30`) is taken to be character-code order (`Text.LexLe`). A locale collation that orders names differently is not modelled.
- EventRows.FormatDate, EventRows.FormatTime: only the string branch is modelled. The `instanceof Date` branches (`src/controller/event.controller.js:9`, `:15`) are not, because column values are strings in this model.
- EventRows.EventTable.CreateEvent, EventRows.EventTable.UpdateEvent: whether the owner names an existing user is not modelled, because the source shows no constraint on it; only the integer cast of `eventowner` is.
- EventsSql.EventTable.Update, EventsSql.EventTable.Assign, EventsSql.EventTable.Create, EventRows.EventTable.CreateEvent, EventRows.EventTable.UpdateEvent: the database refusing a date or time text its column cannot cast is not modelled, and such text is stored as given. The source replies 500 through its catch (`controllers/eventController.js:100-103`, `:156-159`; `src/controller/event.controller.js:81-84`, `:208-211`).
- Rows of the neon `events` table carry only the twelve columns the controller writes. A created row's other columns (`rest`) are empty, and the generated id column is not part of the row.
- The unused mock card list and temporary card of `index.js:49-50`, and the commented-out handler of `index.js:136-159`, are not modelled.
- Card length checks beyond `length < 4` are not modelled.
- Numerals.SqlInt: models only the plain decimal integer input of PostgreSQL. Since PostgreSQL 16 the cast also accepts `0x`, `0o` and `0b` prefixes and `_` digit separators, which the model refuses. Every version refuses a value outside the 32-bit integer range with an error (a 500 in the handlers), where the model accepts it and then finds no row.

## Findings

| source | as written | input that shows it | evidently intended | confidence | as-written member | corrected member |
|---|---|---|---|---|---|---|
| index.js:889-898 | The signup's attendee create uses the field name `eventId`, while the attendee model's field is `eventid` (as everywhere else in `index.js` and in `seed.js`). Prisma refuses the unknown field, so the handler throws after the user was created and replies 500 | A signup with a fresh email, a free card id and any event id | Register the new user for that event and reply 201 | not executed | IndexApp.SignupAsWritten, IndexApp.SignupAsWrittenWitness | IndexApp.Signup, IndexApp.SignupWitness |
| src/controllers/eventController.js:15-16 | The owner filter passes the query's `ownerId` text to the integer `eventOwner` column. Prisma refuses a string for an Int field, so every owner-filtered listing replies 500 | `GET /events?ownerId=31` | Filter by the parsed owner id, as `create` does with `parseInt(eventOwner)` | not executed | EventsOrm.BuildWhereAsWritten, EventsOrm.GetAllAsWritten | EventsOrm.BuildWhere, EventsOrm.GetAll |
| src/controller/event.controller.js:63-73 | The comment says a create handles `HH:MM:SS` strings, but the times go through `new Date`, which refuses bare clock text. So a create with `10:00` replies 400 "Invalid time format" | A create whose start time is "10:00" | Accept clock text and store it as `HH:MM:SS`, as the update does at lines 161-162 | not executed | EventRows.CreateTimeAsWritten, EventRows.ClockTextOnCreate | EventRows.EventTable.CreateEvent |
