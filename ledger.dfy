/**
 * The persistent store the check-in handlers share: users with their card
 * tokens, events, the attendance ledger keyed by (eventId, uid), the append-only
 * scan history, and the announcements broadcast to live viewers. Each store
 * operation below is one query of the handlers; its frame names the only
 * tables it writes.
 */
module Ledger {
  import opened Common
  import opened Schedule

  datatype Status = Registered | Present | Absent

  /** The text of a status as the handlers store and compare it. */
  function StatusName(s: Status): string {
    match s
    case Registered => "registered"
    case Present => "present"
    case Absent => "absent"
  }

  /** The whitelist `["absent", "present", "registered"].includes(name)`,
      returning the status the name stands for. */
  function ParseStatus(name: string): (r: Option<Status>)
    ensures r.Some? <==> (name == "absent" || name == "present" || name == "registered")
    ensures r.Some? ==> StatusName(r.value) == name
  {
    if name == "absent" then Some(Absent)
    else if name == "present" then Some(Present)
    else if name == "registered" then Some(Registered)
    else None
  }

  lemma StatusNameRoundTrip(s: Status)
    ensures ParseStatus(StatusName(s)) == Some(s)
  {
  }

  datatype UserRec = UserRec(fname: string, lname: string, email: string, card: Option<string>)

  /** One check-in recorded in the history table (its timestamp is the store's). */
  datatype HistoryRow = HistoryRow(uid: int, eventId: int)

  /** What `io.emit` publishes: the topic and its payload. */
  datatype Emit =
    | Announcement(text: string)          // "announcement"
    | RegistrationSuccess(given: Field)   // "registration_success", { name } as submitted
    | CardRegistered(name: string)        // "card_registered", { name }

  /** The outcome of a card check-in: the holder was already present, was
      marked present (`created` when the row is new), or has no row for an
      event that does not exist. */
  datatype Mark = WasPresent | Marked(created: bool) | NoEvent

  /** The outcome of linking a card token to a user. */
  datatype CardUpdate = CardSet | UserNotFound | CardTaken

  class Store {
    var users: map<int, UserRec>
    /** The card index: which user holds each linked card token. */
    var cards: map<string, int>
    var events: map<int, EventRec>
    /** The attendance ledger: one status per (eventId, uid). */
    var attendance: map<(int, int), Status>
    var history: seq<HistoryRow>
    var announcements: seq<Emit>
    /** The uid the next created user gets. */
    var nextUid: int

    /** The card index agrees with the users' card columns (so a card token
        names at most one user), every uid is below the next one handed out,
        and every attendance row refers to an existing event and user. */
    ghost predicate Valid()
      reads this
    {
      && (forall c :: c in cards ==> cards[c] in users && users[cards[c]].card == Some(c))
      && (forall u :: u in users && users[u].card.Some? ==>
            users[u].card.value in cards && cards[users[u].card.value] == u)
      && (forall u :: u in users ==> u < nextUid)
      && (forall k :: k in attendance ==> k.0 in events && k.1 in users)
    }

    /** The rows the seed script inserts. The two events get ids 1 and 2 only
        on a fresh database: the script empties the tables but does not restart
        the events' id sequence, so a second seeding numbers them on from there. */
    constructor Seed()
      ensures Valid()
      ensures users == map[
        31 := UserRec("Event", "Owner", "event.owner@example.com", Some("OWNER001")),
        32 := UserRec("John", "Doe", "john.doe@example.com", Some("CARD001")),
        33 := UserRec("Jane", "Smith", "jane.smith@example.com", Some("CARD002")),
        34 := UserRec("Alice", "Johnson", "alice.johnson@example.com", Some("CARD003"))]
      ensures cards == map["OWNER001" := 31, "CARD001" := 32, "CARD002" := 33, "CARD003" := 34]
      ensures events == map[1 := TechConference, 2 := ArtExhibition]
      ensures attendance == map[(1, 32) := Registered, (1, 33) := Present, (2, 34) := Registered, (2, 31) := Absent]
      ensures history == [HistoryRow(33, 1), HistoryRow(34, 2)]
      ensures announcements == [] && nextUid == 35
    {
      users := map[
        31 := UserRec("Event", "Owner", "event.owner@example.com", Some("OWNER001")),
        32 := UserRec("John", "Doe", "john.doe@example.com", Some("CARD001")),
        33 := UserRec("Jane", "Smith", "jane.smith@example.com", Some("CARD002")),
        34 := UserRec("Alice", "Johnson", "alice.johnson@example.com", Some("CARD003"))];
      cards := map["OWNER001" := 31, "CARD001" := 32, "CARD002" := 33, "CARD003" := 34];
      events := map[1 := TechConference, 2 := ArtExhibition];
      attendance := map[(1, 32) := Registered, (1, 33) := Present, (2, 34) := Registered, (2, 31) := Absent];
      history := [HistoryRow(33, 1), HistoryRow(34, 2)];
      announcements := [];
      nextUid := 35;
      new;
      SeedCardsValid(users, cards);
    }

    /** The seeded card index agrees with the seeded users. */
    static lemma SeedCardsValid(users: map<int, UserRec>, cards: map<string, int>)
      requires users == map[
        31 := UserRec("Event", "Owner", "event.owner@example.com", Some("OWNER001")),
        32 := UserRec("John", "Doe", "john.doe@example.com", Some("CARD001")),
        33 := UserRec("Jane", "Smith", "jane.smith@example.com", Some("CARD002")),
        34 := UserRec("Alice", "Johnson", "alice.johnson@example.com", Some("CARD003"))]
      requires cards == map["OWNER001" := 31, "CARD001" := 32, "CARD002" := 33, "CARD003" := 34]
      ensures forall c :: c in cards ==> cards[c] in users && users[cards[c]].card == Some(c)
      ensures forall u :: u in users && users[u].card.Some? ==>
        users[u].card.value in cards && cards[users[u].card.value] == u
    {
    }

    /** `findFirst({ where: { email } })` finds a user. */
    predicate EmailTaken(email: string)
      reads this
    {
      exists u :: u in users && users[u].email == email
    }

    /** `attendee.create`: the store refuses a second row for the same
        (eventId, uid) and a row for an unknown event or user. */
    method CreateAttendee(eventId: int, uid: int, status: Status) returns (ok: bool)
      requires Valid()
      modifies this`attendance
      ensures Valid()
      ensures ok == ((eventId, uid) !in old(attendance) && eventId in events && uid in users)
      ensures attendance == if ok then old(attendance)[(eventId, uid) := status] else old(attendance)
    {
      ok := (eventId, uid) !in attendance && eventId in events && uid in users;
      if ok {
        attendance := attendance[(eventId, uid) := status];
      }
    }

    /** `attendee.update` / `updateMany` / `UPDATE ... RETURNING` of one row's
        status; `found` says whether a row matched. */
    method SetStatus(eventId: int, uid: int, status: Status) returns (found: bool)
      requires Valid()
      modifies this`attendance
      ensures Valid()
      ensures found == ((eventId, uid) in old(attendance))
      ensures attendance == if found then old(attendance)[(eventId, uid) := status] else old(attendance)
    {
      found := (eventId, uid) in attendance;
      if found {
        attendance := attendance[(eventId, uid) := status];
      }
    }

    /** `attendee.delete` / `DELETE ... RETURNING`; `found` says whether a row matched. */
    method DeleteAttendee(eventId: int, uid: int) returns (found: bool)
      requires Valid()
      modifies this`attendance
      ensures Valid()
      ensures found == ((eventId, uid) in old(attendance))
      ensures attendance == if found then old(attendance) - {(eventId, uid)} else old(attendance)
    {
      found := (eventId, uid) in attendance;
      if found {
        attendance := attendance - {(eventId, uid)};
      }
    }

    /** `history.create`. */
    method AppendHistory(uid: int, eventId: int)
      requires Valid()
      modifies this`history
      ensures Valid()
      ensures history == old(history) + [HistoryRow(uid, eventId)]
    {
      history := history + [HistoryRow(uid, eventId)];
    }

    /** `io.emit`: broadcast to whoever listens, which may be no one. */
    method Publish(e: Emit)
      requires Valid()
      modifies this`announcements
      ensures Valid()
      ensures announcements == old(announcements) + [e]
    {
      announcements := announcements + [e];
    }

    /** A first check-in: when the user has no row for the event, a present
        row and one history row are written; an existing row is left alone.
        `ok` is false when the row is missing and the event does not exist. */
    method CheckInIfAbsent(eventId: int, uid: int) returns (ok: bool)
      requires Valid() && uid in users
      modifies this`attendance, this`history
      ensures Valid()
      ensures var creates := (eventId, uid) !in old(attendance);
        && ok == (!creates || eventId in events)
        && attendance == (if ok && creates then old(attendance)[(eventId, uid) := Present] else old(attendance))
        && history == old(history) + (if ok && creates then [HistoryRow(uid, eventId)] else [])
    {
      ok := true;
      if (eventId, uid) !in attendance {
        ok := CreateAttendee(eventId, uid, Present);
        if ok {
          AppendHistory(uid, eventId);
        }
      }
    }

    /** The check-in step of a card scan: a missing row is created as present,
        a registered or absent one becomes present, and either way one history
        row is added; a holder already present changes nothing. */
    method MarkPresent(eventId: int, uid: int) returns (m: Mark)
      requires Valid() && uid in users
      modifies this`attendance, this`history
      ensures Valid()
      ensures var k := (eventId, uid);
        && (m == WasPresent <==> k in old(attendance) && old(attendance)[k] == Present)
        && (m == NoEvent <==> k !in old(attendance) && eventId !in events)
        && (m.Marked? ==> m.created == (k !in old(attendance)))
        && attendance == (if m.Marked? then old(attendance)[k := Present] else old(attendance))
        && history == old(history) + (if m.Marked? then [HistoryRow(uid, eventId)] else [])
      ensures !m.Marked? ==> unchanged(this)
    {
      if (eventId, uid) !in attendance {
        var ok := CreateAttendee(eventId, uid, Present);
        if !ok {
          return NoEvent;
        }
        m := Marked(true);
      } else if attendance[(eventId, uid)] != Present {
        var found := SetStatus(eventId, uid, Present);
        m := Marked(false);
      } else {
        return WasPresent;
      }
      AppendHistory(uid, eventId);
    }

    /** `user.create`: the store refuses a card token another user already holds. */
    method CreateUser(fname: string, lname: string, email: string, card: Option<string>) returns (uid: Option<int>)
      requires Valid()
      modifies this`users, this`cards, this`nextUid
      ensures Valid()
      ensures uid.None? <==> (card.Some? && card.value in old(cards))
      ensures uid.None? ==> users == old(users) && cards == old(cards) && nextUid == old(nextUid)
      ensures uid.Some? ==>
        && uid.value == old(nextUid) && uid.value !in old(users)
        && users == old(users)[uid.value := UserRec(fname, lname, email, card)]
        && cards == (if card.Some? then old(cards)[card.value := uid.value] else old(cards))
        && nextUid == old(nextUid) + 1
    {
      if card.Some? && card.value in cards {
        return None;
      }
      uid := Some(nextUid);
      users := users[nextUid := UserRec(fname, lname, email, card)];
      if card.Some? {
        cards := cards[card.value := nextUid];
      }
      nextUid := nextUid + 1;
    }

    /** `user.update({ where: <uid>, data: { cardId } })`: a missing user is the
        store's not-found error, a card held by another user its uniqueness error.
        The user's previous card, if any, no longer resolves. */
    method SetCard(uid: int, card: string) returns (r: CardUpdate)
      requires Valid()
      modifies this`users, this`cards
      ensures Valid()
      ensures r == UserNotFound <==> uid !in old(users)
      ensures r == CardTaken <==> uid in old(users) && card in old(cards) && old(cards)[card] != uid
      ensures r != CardSet ==> users == old(users) && cards == old(cards)
      ensures r == CardSet ==>
        var prev := old(users)[uid];
        && users == old(users)[uid := prev.(card := Some(card))]
        && cards == (if prev.card.Some? then old(cards) - {prev.card.value} else old(cards))[card := uid]
    {
      if uid !in users {
        return UserNotFound;
      }
      if card in cards && cards[card] != uid {
        return CardTaken;
      }
      var prev := users[uid];
      var index := if prev.card.Some? then cards - {prev.card.value} else cards;
      users := users[uid := prev.(card := Some(card))];
      cards := index[card := uid];
      r := CardSet;
    }
  }
}
