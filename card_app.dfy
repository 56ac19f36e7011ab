/**
 * The card controllers of the modular server: the kiosk scan and linking a
 * card to an existing (OAuth) account. The two copies of the controller differ
 * only in the name of the user id column and of the request field carrying it,
 * which here is the `idName` of `RegisterCard`.
 */
module CardApp {
  import opened Common
  import opened Numerals
  import opened Ledger
  import opened Kiosk

  /** The announcement of a check-in; a scan that registers the holder on the
      spot says so. */
  function WelcomeText(fname: string, autoRegistered: bool): (t: string)
    ensures |t| > 9 + |fname| && t[..9] == "Welcome, " && t[9..9 + |fname|] == fname && t[9 + |fname|] == '!'
    ensures autoRegistered <==> |t| > 10 + |fname|
    ensures autoRegistered ==> t[9 + |fname|..] == "! (Auto-Registered)"
    ensures !autoRegistered ==> |t| == 10 + |fname|
  {
    "Welcome, " + fname + (if autoRegistered then "! (Auto-Registered)" else "!")
  }

  /** The announcement of an on-the-spot registration is the plain greeting
      followed by the note " (Auto-Registered)". */
  lemma WelcomeAutoExtends(fname: string)
    ensures WelcomeText(fname, true) == WelcomeText(fname, false) + " (Auto-Registered)"
  {
    var w := WelcomeText(fname, false);
    assert w == "Welcome, " + fname + "!";
  }

  /** `GET /scan/:cardId?eventId=`. Unlike the main server's scan, no event id
      is not an error: the holder is only greeted. Otherwise a holder without an
      attendance row is registered on the spot as present, one already present is
      told so, and anyone else becomes present; each check-in adds one history
      row and one announcement. */
  method ScanCard(st: Store, frontendUrl: string, cardId: string, eventId: Field) returns (r: ScanReply)
    requires st.Valid()
    modifies st`attendance, st`history, st`announcements
    ensures st.Valid()
    ensures !CardOk(cardId) ==> r == InvalidCardId && unchanged(st)
    ensures CardOk(cardId) && cardId !in old(st.cards) ==>
      r == RegUrl(RegistrationUrl(frontendUrl, cardId, eventId)) && unchanged(st)
    ensures CardOk(cardId) && cardId in old(st.cards) && !Truthy(eventId) ==>
      r == Welcome(old(st.users)[old(st.cards)[cardId]].fname) && unchanged(st)
    ensures CardOk(cardId) && cardId in old(st.cards) && Truthy(eventId) && ParseInt(eventId.s).None? ==>
      r == ServerError && unchanged(st)
    ensures CardOk(cardId) && cardId in old(st.cards) && Truthy(eventId) && ParseInt(eventId.s).Some? ==>
      var uid := old(st.cards)[cardId];
      var fname := old(st.users)[uid].fname;
      var e := ParseInt(eventId.s).value;
      if (e, uid) !in old(st.attendance) && e !in old(st.events) then
        r == ServerError && unchanged(st)
      else if (e, uid) in old(st.attendance) && old(st.attendance)[(e, uid)] == Present then
        r == AlreadyIn(fname) && unchanged(st)
      else
        && r == Welcome(fname)
        && st.attendance == old(st.attendance)[(e, uid) := Present]
        && st.history == old(st.history) + [HistoryRow(uid, e)]
        && st.announcements == old(st.announcements) +
             [Announcement(WelcomeText(fname, (e, uid) !in old(st.attendance)))]
  {
    if !CardOk(cardId) {
      return InvalidCardId;
    }
    if cardId !in st.cards {
      return RegUrl(RegistrationUrl(frontendUrl, cardId, eventId));
    }
    var uid := st.cards[cardId];
    var fname := st.users[uid].fname;
    if !Truthy(eventId) {
      return Welcome(fname);
    }
    var parsed := ParseInt(eventId.s);
    if parsed.None? {
      return ServerError;
    }
    r := CheckInHolder(st, uid, parsed.value);
  }

  /** The check-in of a known holder at event `e`, with its announcement. */
  method CheckInHolder(st: Store, uid: int, e: int) returns (r: ScanReply)
    requires st.Valid() && uid in st.users
    modifies st`attendance, st`history, st`announcements
    ensures st.Valid()
    ensures var fname := st.users[uid].fname;
      if (e, uid) !in old(st.attendance) && e !in old(st.events) then
        r == ServerError && unchanged(st)
      else if (e, uid) in old(st.attendance) && old(st.attendance)[(e, uid)] == Present then
        r == AlreadyIn(fname) && unchanged(st)
      else
        && r == Welcome(fname)
        && st.attendance == old(st.attendance)[(e, uid) := Present]
        && st.history == old(st.history) + [HistoryRow(uid, e)]
        && st.announcements == old(st.announcements) +
             [Announcement(WelcomeText(fname, (e, uid) !in old(st.attendance)))]
  {
    var fname := st.users[uid].fname;
    var m := st.MarkPresent(e, uid);
    if m == NoEvent {
      return ServerError;
    }
    if m == WasPresent {
      return AlreadyIn(fname);
    }
    st.Publish(Announcement(WelcomeText(fname, m.created)));
    r := Welcome(fname);
  }

  /** A second tap right after a check-in is answered "already in" and
      writes nothing. */
  method ScanTwice(st: Store, frontendUrl: string, cardId: string, eventId: Field) returns (first: ScanReply, second: ScanReply)
    requires st.Valid()
    modifies st`attendance, st`history, st`announcements
    ensures st.Valid()
    ensures first.Welcome? && Truthy(eventId) ==> second == AlreadyIn(first.fname)
    ensures first.Welcome? && Truthy(eventId) ==> |st.history| == |old(st.history)| + 1
    ensures !first.Welcome? || !Truthy(eventId) ==> second == first && unchanged(st)
  {
    first := ScanCard(st, frontendUrl, cardId, eventId);
    second := ScanCard(st, frontendUrl, cardId, eventId);
  }

  /** The event part of linking a card: with an event id, a user without an
      attendance row for it gets a present row and one history row. A
      non-numeric id or an unknown event fails (`ok` is false) and writes nothing. */
  method CheckInOnLink(st: Store, uid: int, eventId: Field) returns (ok: bool)
    requires st.Valid() && uid in st.users
    modifies st`attendance, st`history
    ensures st.Valid()
    ensures var e := if Truthy(eventId) then ParseInt(eventId.s) else None;
      var creates := e.Some? && (e.value, uid) !in old(st.attendance);
      && ok == !(Truthy(eventId) && (e.None? || (creates && e.value !in old(st.events))))
      && st.attendance == (if ok && creates then old(st.attendance)[(e.value, uid) := Present] else old(st.attendance))
      && st.history == old(st.history) + (if ok && creates then [HistoryRow(uid, e.value)] else [])
  {
    ok := true;
    if Truthy(eventId) {
      var parsed := ParseInt(eventId.s);
      if parsed.None? {
        return false;
      }
      ok := st.CheckInIfAbsent(parsed.value, uid);
    }
  }

  /** What follows a successful link: the optional check-in, then the
      announcement naming the user. A failed check-in is a server error and
      nothing is announced. */
  method FinishLink(st: Store, uid: int, eventId: Field) returns (r: Reply)
    requires st.Valid() && uid in st.users
    modifies st`attendance, st`history, st`announcements
    ensures st.Valid()
    ensures var e := if Truthy(eventId) then ParseInt(eventId.s) else None;
      var creates := e.Some? && (e.value, uid) !in old(st.attendance);
      if Truthy(eventId) && (e.None? || (creates && e.value !in old(st.events))) then
        && r == Fail(500, "Internal server error")
        && st.attendance == old(st.attendance) && st.history == old(st.history)
        && st.announcements == old(st.announcements)
      else
        && r == Ok(200)
        && st.attendance == (if creates then old(st.attendance)[(e.value, uid) := Present] else old(st.attendance))
        && st.history == old(st.history) + (if creates then [HistoryRow(uid, e.value)] else [])
        && st.announcements == old(st.announcements) + [CardRegistered(st.users[uid].fname)]
  {
    var ok := CheckInOnLink(st, uid, eventId);
    if !ok {
      return Fail(500, "Internal server error");
    }
    st.Publish(CardRegistered(st.users[uid].fname));
    r := Ok(200);
  }

  /** `POST /register-card`: links the card to the user named by the body
      field `idName`, replacing any card the user had; with an event id the user
      is also checked in when no attendance row exists yet (an existing row is
      left as it is). The card stays linked when a later step fails. */
  method RegisterCard(st: Store, idName: string, cardId: Field, eventId: Field, userId: Option<int>) returns (r: Reply)
    requires st.Valid()
    modifies st`users, st`cards, st`attendance, st`history, st`announcements
    ensures st.Valid()
    ensures
      if !Truthy(cardId) || !TruthyId(userId) then
        r == Fail(400, "Missing required fields (cardId, " + idName + ")") && unchanged(st)
      else if userId.value !in old(st.users) then
        r == Fail(404, "User not found") && unchanged(st)
      else if cardId.s in old(st.cards) && old(st.cards)[cardId.s] != userId.value then
        r == Fail(500, "Internal server error") && unchanged(st)
      else
        var uid := userId.value;
        var prev := old(st.users)[uid];
        var e := if Truthy(eventId) then ParseInt(eventId.s) else None;
        var creates := e.Some? && (e.value, uid) !in old(st.attendance);
        && st.users == old(st.users)[uid := prev.(card := Some(cardId.s))]
        && cardId.s in st.cards && st.cards[cardId.s] == uid
        && (if Truthy(eventId) && (e.None? || (creates && e.value !in old(st.events))) then
              && r == Fail(500, "Internal server error")
              && st.attendance == old(st.attendance) && st.history == old(st.history)
              && st.announcements == old(st.announcements)
            else
              && r == Ok(200)
              && st.attendance == (if creates then old(st.attendance)[(e.value, uid) := Present] else old(st.attendance))
              && st.history == old(st.history) + (if creates then [HistoryRow(uid, e.value)] else [])
              && st.announcements == old(st.announcements) + [CardRegistered(prev.fname)])
  {
    if !Truthy(cardId) || !TruthyId(userId) {
      return Fail(400, "Missing required fields (cardId, " + idName + ")");
    }
    var uid := userId.value;
    var linked := st.SetCard(uid, cardId.s);
    if linked == UserNotFound {
      return Fail(404, "User not found");
    }
    if linked == CardTaken {
      return Fail(500, "Internal server error");
    }
    assert st.users[uid].fname == old(st.users)[uid].fname;
    r := FinishLink(st, uid, eventId);
  }
}
