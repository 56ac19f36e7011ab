/**
 * The handlers of the main server script: the kiosk scan, the registration
 * form a scanned QR code leads to, explicit registration and manual check-in
 * from the web UI, and sign-up.
 */
module IndexApp {
  import opened Common
  import opened Numerals
  import opened Schedule
  import opened Ledger
  import opened Kiosk

  /** The message of a registration refused by the time window. */
  function WindowMessage(w: Window): string {
    match w
    case Open => "Registered successfully"
    case EventEnded => "Event has ended"
    case RegistrationClosed => "Registration period has ended"
    case RegistrationNotOpen => "Registration has not started yet"
  }

  /** `GET /api/v1/scan-card/:cardId?eventid=`. A known card checks its holder
      in: a missing attendance row is created as present, a registered or absent
      one becomes present, and either way one history row and one announcement
      are added. A holder already present is only acknowledged. An event id that
      is not a number, or a new row for an event that does not exist, fails the
      first store query that uses it. */
  method ScanCard(st: Store, baseUrl: string, cardId: string, eventId: Field) returns (r: ScanReply)
    requires st.Valid()
    modifies st`attendance, st`history, st`announcements
    ensures st.Valid()
    ensures !CardOk(cardId) ==> r == InvalidCardId && unchanged(st)
    ensures CardOk(cardId) && !Truthy(eventId) ==> r == MissingEventId && unchanged(st)
    ensures CardOk(cardId) && Truthy(eventId) && cardId !in old(st.cards) ==>
      r == RegUrl(RegistrationUrl(baseUrl, cardId, eventId)) && unchanged(st)
    ensures CardOk(cardId) && Truthy(eventId) && cardId in old(st.cards) && ParseInt(eventId.s).None? ==>
      r == ServerError && unchanged(st)
    ensures CardOk(cardId) && Truthy(eventId) && cardId in old(st.cards) && ParseInt(eventId.s).Some? ==>
      var uid := old(st.cards)[cardId];
      var fname := old(st.users)[uid].fname;
      var e := ParseInt(eventId.s).value;
      if (e, uid) in old(st.attendance) && old(st.attendance)[(e, uid)] == Present then
        r == AlreadyCheckedIn(fname) && unchanged(st)
      else if (e, uid) !in old(st.attendance) && e !in old(st.events) then
        r == ServerError && unchanged(st)
      else
        && r == Welcome(fname)
        && st.attendance == old(st.attendance)[(e, uid) := Present]
        && st.history == old(st.history) + [HistoryRow(uid, e)]
        && st.announcements == old(st.announcements) + [Announcement("Welcome, " + fname + "!")]
  {
    if !CardOk(cardId) {
      return InvalidCardId;
    }
    if !Truthy(eventId) {
      return MissingEventId;
    }
    if cardId !in st.cards {
      return RegUrl(RegistrationUrl(baseUrl, cardId, eventId));
    }
    var uid := st.cards[cardId];
    var parsed := ParseInt(eventId.s);
    if parsed.None? {
      return ServerError;
    }
    r := CheckInHolder(st, uid, parsed.value);
  }

  /** The check-in of a known holder at event `e`, with its announcement. */
  method CheckInHolder(st: Store, uid: int, e: int) returns (r: ScanReply)
    requires st.Valid() && uid in st.users
    modifies st`attendance, st`history, st`announcements
    ensures st.Valid()
    ensures var fname := st.users[uid].fname;
      if (e, uid) in old(st.attendance) && old(st.attendance)[(e, uid)] == Present then
        r == AlreadyCheckedIn(fname) && unchanged(st)
      else if (e, uid) !in old(st.attendance) && e !in old(st.events) then
        r == ServerError && unchanged(st)
      else
        && r == Welcome(fname)
        && st.attendance == old(st.attendance)[(e, uid) := Present]
        && st.history == old(st.history) + [HistoryRow(uid, e)]
        && st.announcements == old(st.announcements) + [Announcement("Welcome, " + fname + "!")]
  {
    var fname := st.users[uid].fname;
    var m := st.MarkPresent(e, uid);
    if m == WasPresent {
      return AlreadyCheckedIn(fname);
    }
    if m == NoEvent {
      return ServerError;
    }
    st.Publish(Announcement("Welcome, " + fname + "!"));
    r := Welcome(fname);
  }

  /** Tapping the same card twice: a welcome is followed by an acknowledgement,
      and the second tap writes nothing, so the pair adds exactly one history row. */
  method ScanTwice(st: Store, baseUrl: string, cardId: string, eventId: Field) returns (first: ScanReply, second: ScanReply)
    requires st.Valid()
    modifies st`attendance, st`history, st`announcements
    ensures st.Valid()
    ensures first.Welcome? ==> second == AlreadyCheckedIn(first.fname)
    ensures first.Welcome? ==> |st.history| == |old(st.history)| + 1
    ensures !first.Welcome? ==> second == first && unchanged(st)
  {
    first := ScanCard(st, baseUrl, cardId, eventId);
    second := ScanCard(st, baseUrl, cardId, eventId);
  }

  /** `POST /api/v1/register-user`: the form behind the registration QR code.
      The card id and the email are required and the email must be unused; the
      new user is created with the card, and when an event id is given it is
      checked in at once (present, one history row). The steps are separate
      writes: a failure after the user was created keeps the user. */
  method RegisterUser(st: Store, firstName: Field, lastName: Field, email: Field, cardId: Field, eventId: Field)
    returns (r: Reply)
    requires st.Valid()
    modifies st`users, st`cards, st`nextUid, st`attendance, st`history, st`announcements
    ensures st.Valid()
    ensures !Truthy(cardId) || !Truthy(email) ==> r == Fail(400, "Missing required fields.") && unchanged(st)
    ensures Truthy(cardId) && Truthy(email) && old(st.EmailTaken(email.s)) ==>
      r == Fail(409, "User already registered with this email.") && unchanged(st)
    ensures Truthy(cardId) && Truthy(email) && !old(st.EmailTaken(email.s)) && cardId.s in old(st.cards) ==>
      r == Fail(500, "Internal server error.") && unchanged(st)
    ensures Truthy(cardId) && Truthy(email) && !old(st.EmailTaken(email.s)) && cardId.s !in old(st.cards) ==>
      var uid := old(st.nextUid);
      var e := if Truthy(eventId) then ParseInt(eventId.s) else None;
      var checksIn := e.Some? && e.value in old(st.events);
      && st.users == old(st.users)[uid := UserRec(TextOf(firstName), TextOf(lastName), email.s, Some(cardId.s))]
      && st.cards == old(st.cards)[cardId.s := uid]
      && st.nextUid == uid + 1
      && (if Truthy(eventId) && !checksIn then
            && r == Fail(500, "Internal server error.")
            && st.attendance == old(st.attendance) && st.history == old(st.history)
            && st.announcements == old(st.announcements)
          else
            && r == Ok(201)
            && st.attendance == (if checksIn then old(st.attendance)[(e.value, uid) := Present] else old(st.attendance))
            && st.history == old(st.history) + (if checksIn then [HistoryRow(uid, e.value)] else [])
            && st.announcements == old(st.announcements) + [RegistrationSuccess(firstName)])
  {
    if !Truthy(cardId) || !Truthy(email) {
      return Fail(400, "Missing required fields.");
    }
    if st.EmailTaken(email.s) {
      return Fail(409, "User already registered with this email.");
    }
    var created := st.CreateUser(TextOf(firstName), TextOf(lastName), email.s, Some(cardId.s));
    if created.None? {
      return Fail(500, "Internal server error.");
    }
    r := CheckInNewUser(st, created.value, firstName, eventId);
  }

  /** The rest of a registration once the user exists: with an event id the
      new user is checked in (present, one history row), then the registration
      is announced. A non-numeric id or an unknown event is a server error that
      writes nothing more. */
  method CheckInNewUser(st: Store, uid: int, firstName: Field, eventId: Field) returns (r: Reply)
    requires st.Valid() && uid in st.users
    requires forall k :: k in st.attendance ==> k.1 != uid
    modifies st`attendance, st`history, st`announcements
    ensures st.Valid()
    ensures var e := if Truthy(eventId) then ParseInt(eventId.s) else None;
      var checksIn := e.Some? && e.value in old(st.events);
      if Truthy(eventId) && !checksIn then
        && r == Fail(500, "Internal server error.")
        && st.attendance == old(st.attendance) && st.history == old(st.history)
        && st.announcements == old(st.announcements)
      else
        && r == Ok(201)
        && st.attendance == (if checksIn then old(st.attendance)[(e.value, uid) := Present] else old(st.attendance))
        && st.history == old(st.history) + (if checksIn then [HistoryRow(uid, e.value)] else [])
        && st.announcements == old(st.announcements) + [RegistrationSuccess(firstName)]
  {
    var ok := CheckInIfGiven(st, uid, eventId);
    if !ok {
      return Fail(500, "Internal server error.");
    }
    st.Publish(RegistrationSuccess(firstName));
    r := Ok(201);
  }

  /** The check-in of a registration: with an event id, a user without
      attendance rows becomes present there with one history row; a
      non-numeric id or an unknown event fails (`ok` is false) and writes
      nothing. */
  method CheckInIfGiven(st: Store, uid: int, eventId: Field) returns (ok: bool)
    requires st.Valid() && uid in st.users
    requires forall k :: k in st.attendance ==> k.1 != uid
    modifies st`attendance, st`history
    ensures st.Valid()
    ensures var e := if Truthy(eventId) then ParseInt(eventId.s) else None;
      var checksIn := e.Some? && e.value in old(st.events);
      && ok == (!Truthy(eventId) || checksIn)
      && st.attendance == (if checksIn then old(st.attendance)[(e.value, uid) := Present] else old(st.attendance))
      && st.history == old(st.history) + (if checksIn then [HistoryRow(uid, e.value)] else [])
  {
    ok := true;
    if Truthy(eventId) {
      var parsed := ParseInt(eventId.s);
      if parsed.None? {
        return false;
      }
      assert (parsed.value, uid) !in st.attendance;
      ok := st.CheckInIfAbsent(parsed.value, uid);
    }
  }

  /** `POST /api/v1/events/:eventId/register`: a user other than the owner
      registers while the event has not ended and the registration window is
      open; a second registration is refused. The new row is `registered`. */
  method Register(st: Store, now: int, eventId: string, uid: Option<int>) returns (r: Reply)
    requires st.Valid()
    modifies st`attendance
    ensures st.Valid()
    ensures !TruthyId(uid) ==> r == Fail(400, "User ID required") && unchanged(st)
    ensures TruthyId(uid) && ParseInt(eventId).None? ==> r == Fail(500, "Server error") && unchanged(st)
    ensures TruthyId(uid) && ParseInt(eventId).Some? ==>
      var e := ParseInt(eventId).value;
      if e !in old(st.events) then r == Fail(404, "Event not found") && unchanged(st)
      else if old(st.events)[e].owner == uid.value then r == Fail(403, "Cannot register for your own event") && unchanged(st)
      else if CheckWindow(now, old(st.events)[e]) != Open then
        r == Fail(400, WindowMessage(CheckWindow(now, old(st.events)[e]))) && unchanged(st)
      else if (e, uid.value) in old(st.attendance) then r == Fail(409, "Already registered") && unchanged(st)
      else if uid.value !in old(st.users) then r == Fail(500, "Server error") && unchanged(st)
      else r == Ok(200) && st.attendance == old(st.attendance)[(e, uid.value) := Registered]
  {
    if !TruthyId(uid) {
      return Fail(400, "User ID required");
    }
    var parsed := ParseInt(eventId);
    if parsed.None? {
      return Fail(500, "Server error");
    }
    var e := parsed.value;
    if e !in st.events {
      return Fail(404, "Event not found");
    }
    var ev := st.events[e];
    if ev.owner == uid.value {
      return Fail(403, "Cannot register for your own event");
    }
    var w := CheckWindow(now, ev);
    if w != Open {
      return Fail(400, WindowMessage(w));
    }
    if (e, uid.value) in st.attendance {
      return Fail(409, "Already registered");
    }
    var ok := st.CreateAttendee(e, uid.value, Registered);
    if !ok {
      return Fail(500, "Server error");
    }
    r := Ok(200);
  }

  /** `POST /api/v1/events/:eventId/checkin`: someone other than the owner who
      has any attendance row for the event is marked present and a history row
      is added, every time. */
  method CheckIn(st: Store, eventId: string, uid: Option<int>) returns (r: Reply)
    requires st.Valid()
    modifies st`attendance, st`history
    ensures st.Valid()
    ensures !TruthyId(uid) ==> r == Fail(400, "User ID required") && unchanged(st)
    ensures TruthyId(uid) && ParseInt(eventId).None? ==> r == Fail(500, "Server error") && unchanged(st)
    ensures TruthyId(uid) && ParseInt(eventId).Some? ==>
      var e := ParseInt(eventId).value;
      if e !in old(st.events) then r == Fail(404, "Event not found") && unchanged(st)
      else if old(st.events)[e].owner == uid.value then r == Fail(403, "Cannot check in to your own event") && unchanged(st)
      else if (e, uid.value) !in old(st.attendance) then r == Fail(404, "Not registered for this event") && unchanged(st)
      else
        && r == Ok(200)
        && st.attendance == old(st.attendance)[(e, uid.value) := Present]
        && st.history == old(st.history) + [HistoryRow(uid.value, e)]
  {
    if !TruthyId(uid) {
      return Fail(400, "User ID required");
    }
    var parsed := ParseInt(eventId);
    if parsed.None? {
      return Fail(500, "Server error");
    }
    var e := parsed.value;
    if e !in st.events {
      return Fail(404, "Event not found");
    }
    if st.events[e].owner == uid.value {
      return Fail(403, "Cannot check in to your own event");
    }
    var found := st.SetStatus(e, uid.value, Present);
    if !found {
      return Fail(404, "Not registered for this event");
    }
    st.AppendHistory(uid.value, e);
    r := Ok(200);
  }

  /** Manual check-in is not idempotent in the history: repeating it leaves the
      status present and adds a second, identical history row. */
  method CheckInTwice(st: Store, eventId: string, uid: Option<int>) returns (first: Reply, second: Reply)
    requires st.Valid()
    modifies st`attendance, st`history
    ensures st.Valid()
    ensures first == Ok(200) ==> second == Ok(200) && uid.Some? && ParseInt(eventId).Some?
    ensures first == Ok(200) && uid.Some? && ParseInt(eventId).Some? ==>
      var e := ParseInt(eventId).value;
      && st.attendance == old(st.attendance)[(e, uid.value) := Present]
      && st.history == old(st.history) + [HistoryRow(uid.value, e), HistoryRow(uid.value, e)]
  {
    first := CheckIn(st, eventId, uid);
    if first != Ok(200) {
      second := CheckIn(st, eventId, uid);
      return;
    }
    assert TruthyId(uid) && ParseInt(eventId).Some?;
    var e := ParseInt(eventId).value;
    var k := (e, uid.value);
    assert e in st.events && st.events[e].owner != uid.value && k in st.attendance;
    ghost var a1, h1 := st.attendance, st.history;
    second := CheckIn(st, eventId, uid);
    assert st.attendance == a1[k := Present] == a1;
  }

  /** What `findFirst({ where: { email } })` finds: an absent filter value is
      no filter at all, so any user matches; no stored email is null. */
  predicate EmailFilterHits(st: Store, email: Field)
    reads st
  {
    match email
    case Undefined => st.users != map[]
    case Null => false
    case Str(s) => st.EmailTaken(s)
  }

  /** The user-creating part of `POST /signup`: an email a user already has is
      refused; the user is created, with the card only when one is given. On
      success `uid` is the new user's id and the reply is still to be decided. */
  method SignupUser(st: Store, firstName: Field, lastName: Field, email: Field, cardId: Field)
    returns (r: Reply, uid: Option<int>)
    requires st.Valid()
    modifies st`users, st`cards, st`nextUid
    ensures st.Valid()
    ensures old(EmailFilterHits(st, email)) ==> r == Fail(409, "Email already exists") && uid.None? && unchanged(st)
    ensures !old(EmailFilterHits(st, email)) && (!email.Str? || (Truthy(cardId) && cardId.s in old(st.cards))) ==>
      r == Fail(500, "Server error") && uid.None? && unchanged(st)
    ensures !old(EmailFilterHits(st, email)) && email.Str? && !(Truthy(cardId) && cardId.s in old(st.cards)) ==>
      && r == Ok(201) && uid == Some(old(st.nextUid))
      && st.users == old(st.users)[uid.value := UserRec(TextOf(firstName), TextOf(lastName), email.s,
           if Truthy(cardId) then Some(cardId.s) else None)]
      && st.cards == (if Truthy(cardId) then old(st.cards)[cardId.s := uid.value] else old(st.cards))
      && st.nextUid == old(st.nextUid) + 1
  {
    if EmailFilterHits(st, email) {
      return Fail(409, "Email already exists"), None;
    }
    if !email.Str? {
      return Fail(500, "Server error"), None;
    }
    var card := if Truthy(cardId) then Some(cardId.s) else None;
    uid := st.CreateUser(TextOf(firstName), TextOf(lastName), email.s, card);
    r := if uid.None? then Fail(500, "Server error") else Ok(201);
  }

  /** `POST /signup` as written: the attendee row is created with a field name
      (`eventId`) the attendee model does not have, so whenever an event id and
      a card id are both given the store rejects the write and the reply is a
      server error, after the user was created. */
  method SignupAsWritten(st: Store, firstName: Field, lastName: Field, email: Field, cardId: Field, eventId: Field)
    returns (r: Reply)
    requires st.Valid()
    modifies st`users, st`cards, st`nextUid
    ensures st.Valid()
    ensures old(EmailFilterHits(st, email)) ==> r == Fail(409, "Email already exists") && unchanged(st)
    ensures Truthy(eventId) && Truthy(cardId) ==> r.Fail?
    ensures !old(EmailFilterHits(st, email)) && email.Str? && !(Truthy(cardId) && cardId.s in old(st.cards)) ==>
      && st.users == old(st.users)[old(st.nextUid) := UserRec(TextOf(firstName), TextOf(lastName), email.s,
           if Truthy(cardId) then Some(cardId.s) else None)]
      && r == (if Truthy(eventId) && Truthy(cardId) then Fail(500, "Server error") else Ok(201))
  {
    var uid;
    r, uid := SignupUser(st, firstName, lastName, email, cardId);
    if uid.Some? && Truthy(eventId) && Truthy(cardId) {
      r := Fail(500, "Server error");
    }
  }

  /** `POST /signup` with the attendee row keyed by `eventid`, as everywhere
      else: a sign-up from a QR code registers the new user for that event. */
  method Signup(st: Store, firstName: Field, lastName: Field, email: Field, cardId: Field, eventId: Field)
    returns (r: Reply)
    requires st.Valid()
    modifies st`users, st`cards, st`nextUid, st`attendance
    ensures st.Valid()
    ensures old(EmailFilterHits(st, email)) ==> r == Fail(409, "Email already exists") && unchanged(st)
    ensures !old(EmailFilterHits(st, email)) && email.Str? && !(Truthy(cardId) && cardId.s in old(st.cards)) ==>
      var uid := old(st.nextUid);
      var e := if Truthy(eventId) && Truthy(cardId) then ParseInt(eventId.s) else None;
      && st.users == old(st.users)[uid := UserRec(TextOf(firstName), TextOf(lastName), email.s,
           if Truthy(cardId) then Some(cardId.s) else None)]
      && (if Truthy(eventId) && Truthy(cardId) && !(e.Some? && e.value in old(st.events)) then
            r == Fail(500, "Server error") && st.attendance == old(st.attendance)
          else
            && r == Ok(201)
            && st.attendance == (if e.Some? then old(st.attendance)[(e.value, uid) := Registered] else old(st.attendance)))
    ensures r == Ok(201) && Truthy(eventId) && Truthy(cardId) ==>
      && ParseInt(eventId.s).Some?
      && (ParseInt(eventId.s).value, old(st.nextUid)) in st.attendance
      && st.attendance[(ParseInt(eventId.s).value, old(st.nextUid))] == Registered
  {
    var uid;
    r, uid := SignupUser(st, firstName, lastName, email, cardId);
    if uid.Some? && Truthy(eventId) && Truthy(cardId) {
      assert forall k :: k in st.attendance ==> k.1 != uid.value;
      r := RegisterNewUser(st, uid.value, eventId.s);
    }
  }

  /** The attendee row of a sign-up: the new user, who has no row yet, is
      registered for the event; a non-numeric id or an unknown event is a
      server error. */
  method RegisterNewUser(st: Store, uid: int, eventId: string) returns (r: Reply)
    requires st.Valid() && uid in st.users
    requires forall k :: k in st.attendance ==> k.1 != uid
    modifies st`attendance
    ensures st.Valid()
    ensures var e := ParseInt(eventId);
      if e.Some? && e.value in old(st.events) then
        r == Ok(201) && st.attendance == old(st.attendance)[(e.value, uid) := Registered]
      else
        r == Fail(500, "Server error") && st.attendance == old(st.attendance)
  {
    var parsed := ParseInt(eventId);
    if parsed.None? {
      return Fail(500, "Server error");
    }
    assert (parsed.value, uid) !in st.attendance;
    var ok := st.CreateAttendee(parsed.value, uid, Registered);
    r := if ok then Ok(201) else Fail(500, "Server error");
  }

  /** Signing up a new card holder for an event as written: the reply is a
      server error although the user now exists. */
  method SignupAsWrittenWitness(st: Store, firstName: string, lastName: string, email: string, cardId: string, eventId: string)
    returns (r: Reply, orphaned: bool)
    requires st.Valid() && !st.EmailTaken(email)
    requires cardId != [] && cardId !in st.cards && eventId != []
    modifies st`users, st`cards, st`nextUid
    ensures r == Fail(500, "Server error") && orphaned
  {
    var uid := st.nextUid;
    r := SignupAsWritten(st, Str(firstName), Str(lastName), Str(email), Str(cardId), Str(eventId));
    orphaned := uid in st.users;
  }

  /** The same sign-up with the corrected field name: the user is created and
      registered for the event. */
  method SignupWitness(st: Store, firstName: string, lastName: string, email: string, cardId: string, eventId: nat)
    returns (r: Reply, registered: bool)
    requires st.Valid() && !st.EmailTaken(email)
    requires cardId != [] && cardId !in st.cards && eventId in st.events
    modifies st`users, st`cards, st`nextUid, st`attendance
    ensures r == Ok(201) && registered
  {
    var uid := st.nextUid;
    ParseNatStr(eventId);
    r := Signup(st, Str(firstName), Str(lastName), Str(email), Str(cardId), Str(NatStr(eventId)));
    registered := (eventId, uid) in st.attendance && st.attendance[(eventId, uid)] == Registered;
  }
}
