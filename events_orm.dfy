/**
 * The event controller of the modular server, which talks to the database
 * through the ORM: the whitelist of an update, the required fields and null
 * defaults of a create, and the filter and attendee count of the listing.
 */
module EventsOrm {
  import opened Common
  import opened Numerals
  import EventRows

  /** A JSON request body: its keys in `Object.keys` order and their values. */
  datatype Body = Body(keys: seq<string>, values: map<string, Field>)

  /** Every key of a body has a value. */
  predicate WellFormed(b: Body) {
    forall k :: k in b.keys ==> k in b.values
  }

  /** Reading a property of the body: a missing one is undefined. */
  function Get(b: Body, k: string): Field {
    if k in b.values then b.values[k] else Undefined
  }

  /** The keys an update may write. */
  const Editable: set<string> := {
    "eventDetail", "eventIMG", "eventStartDate", "eventEndDate", "eventStartTime",
    "eventEndTime", "regisStart", "regisEnd", "contact", "regisURL"}

  /** The editable keys that hold dates. */
  const DateKeys: set<string> := {"eventStartDate", "eventEndDate", "regisStart", "regisEnd"}

  /** A value handed to the ORM: a request value as it is, the `Date` built
      from a text, or a whole number. */
  datatype Value = Plain(v: Field) | DateOf(text: string) | Whole(n: int)

  /** The value an update writes for an editable key: a date key gets the date
      of a truthy value and null otherwise; any other key its value unchanged. */
  function UpdateValue(key: string, v: Field): (x: Value)
    ensures key in DateKeys && Truthy(v) ==> x == DateOf(v.s)
    ensures key in DateKeys && !Truthy(v) ==> x == Plain(Null)
    ensures key !in DateKeys ==> x == Plain(v)
  {
    if key in DateKeys then (if Truthy(v) then DateOf(v.s) else Plain(Null)) else Plain(v)
  }

  /** The data of an update: exactly the editable keys the body holds. */
  function UpdateData(b: Body): (data: map<string, Value>)
    requires WellFormed(b)
    ensures forall k :: k in data <==> k in b.keys && k in Editable
  {
    map k | k in b.keys && k in Editable :: UpdateValue(k, b.values[k])
  }

  /** A key outside the whitelist, such as the owner, is never written. */
  lemma UpdateIgnoresOwner(b: Body)
    requires WellFormed(b)
    ensures "eventOwner" !in UpdateData(b)
  {
    assert "eventOwner"[5] == 'O';
  }

  /** The `forEach` over the body's keys that fills `data` and sets
      `hasUpdates` when some key is editable. */
  method BuildUpdateData(b: Body) returns (data: map<string, Value>, hasUpdates: bool)
    requires WellFormed(b)
    ensures data == UpdateData(b)
    ensures hasUpdates <==> exists k :: k in b.keys && k in Editable
  {
    data := map[];
    hasUpdates := false;
    for i := 0 to |b.keys|
      invariant data.Keys == set k | k in b.keys[..i] && k in Editable
      invariant forall k :: k in data ==> k in b.values && data[k] == UpdateValue(k, b.values[k])
      invariant hasUpdates <==> exists k :: k in b.keys[..i] && k in Editable
    {
      var key := b.keys[i];
      assert b.keys[..i + 1] == b.keys[..i] + [key];
      if key in Editable {
        if key in DateKeys {
          data := data[key := if Truthy(b.values[key]) then DateOf(b.values[key].s) else Plain(Null)];
        } else {
          data := data[key := Plain(b.values[key])];
        }
        hasUpdates := true;
      }
    }
    assert b.keys[..|b.keys|] == b.keys;
  }

  /** The fields of a create as the ORM receives them: the owner as a whole
      number, the two dates and the optional registration dates as dates, the
      URL as given, and every other field falsy as null. */
  function CreateData(b: Body, owner: int): map<string, Value> {
    map[
      "eventOwner" := Whole(owner),
      "eventDetail" := Plain(OrNull(Get(b, "eventDetail"))),
      "eventIMG" := Plain(OrNull(Get(b, "eventIMG"))),
      "eventStartDate" := DateOf(TextOf(Get(b, "eventStartDate"))),
      "eventEndDate" := DateOf(TextOf(Get(b, "eventEndDate"))),
      "eventStartTime" := Plain(OrNull(Get(b, "eventStartTime"))),
      "eventEndTime" := Plain(OrNull(Get(b, "eventEndTime"))),
      "regisStart" := if Truthy(Get(b, "regisStart")) then DateOf(Get(b, "regisStart").s) else Plain(Null),
      "regisEnd" := if Truthy(Get(b, "regisEnd")) then DateOf(Get(b, "regisEnd").s) else Plain(Null),
      "contact" := Plain(OrNull(Get(b, "contact"))),
      "regisURL" := Plain(Get(b, "regisURL"))]
  }

  /** The four required fields of a create. */
  predicate HasRequired(b: Body) {
    && Truthy(Get(b, "eventOwner")) && Truthy(Get(b, "eventStartDate"))
    && Truthy(Get(b, "eventEndDate")) && Truthy(Get(b, "regisURL"))
  }

  /** An optional text field of a create that is falsy is stored as null, and
      a truthy one as given. */
  lemma CreateDefaultsNull(b: Body, owner: int, k: string)
    requires k == "eventDetail" || k == "eventIMG" || k == "eventStartTime" || k == "eventEndTime" || k == "contact"
    ensures k in CreateData(b, owner)
    ensures !Truthy(Get(b, k)) ==> CreateData(b, owner)[k] == Plain(Null)
    ensures Truthy(Get(b, k)) ==> CreateData(b, owner)[k] == Plain(Get(b, k))
  {
  }

  /** A filter on the owner: the text of the query string, or a number. */
  datatype OwnerFilter = OwnerText(text: string) | OwnerId(id: int)

  /** The `where` of the listing: each filter present only when given. */
  datatype Where = Where(startDate: Option<string>, owner: Option<OwnerFilter>)

  /** An event of the listing: its id, owner, start instant (as ISO text)
      and the user ids of its attendee rows. */
  datatype Listed = Listed(id: int, owner: int, startIso: string, attendeeIds: seq<int>)

  /** One entry of the reply: the event and its number of distinct attendees. */
  datatype Summary = Summary(id: int, attendeeCount: nat)

  /** The ORM's validation of a `where`: the date must be a valid date and the
      owner, an integer column, must be given a number. */
  predicate Accepted(w: Where, toIso: EventRows.Clock) {
    (w.startDate.None? || toIso(w.startDate.value).Some?) && (w.owner.None? || w.owner.value.OwnerId?)
  }

  /** An accepted `where` selects an event when every filter it holds matches. */
  predicate Selects(w: Where, e: Listed, toIso: EventRows.Clock)
    requires Accepted(w, toIso)
  {
    (w.startDate.Some? ==> toIso(w.startDate.value) == Some(e.startIso)) && (w.owner.Some? ==> e.owner == w.owner.value.id)
  }

  /** The events a `where` selects, in the order the database returns them. */
  function Select(events: seq<Listed>, w: Where, toIso: EventRows.Clock): (r: seq<Listed>)
    requires Accepted(w, toIso)
    ensures |r| <= |events|
    ensures forall e :: e in r <==> e in events && Selects(w, e, toIso)
  {
    if events == [] then []
    else (if Selects(w, events[0], toIso) then [events[0]] else []) + Select(events[1..], w, toIso)
  }

  /** The attendee user ids with repeats dropped: each id once. */
  function Distinct(ids: seq<int>): (d: seq<int>)
    ensures forall u :: u in d <==> u in ids
    ensures forall i, j :: 0 <= i < j < |d| ==> d[i] != d[j]
  {
    if ids == [] then []
    else
      var rest := Distinct(ids[1..]);
      if ids[0] in ids[1..] then rest else [ids[0]] + rest
  }

  /** A sequence without repeats is as long as the set of its members. */
  lemma {:induction false} UniqueCount(d: seq<int>)
    requires forall i, j :: 0 <= i < j < |d| ==> d[i] != d[j]
    ensures |d| == |set u | u in d|
  {
    if d != [] {
      UniqueCount(d[1..]);
      assert (set u | u in d) == {d[0]} + (set u | u in d[1..]);
      assert d[0] !in d[1..];
    }
  }

  /** The attendee count of an event: the number of distinct user ids among its
      attendee rows. */
  function AttendeeCount(ids: seq<int>): (n: nat)
    ensures n == |set u | u in ids|
  {
    UniqueCount(Distinct(ids));
    assert (set u | u in Distinct(ids)) == (set u | u in ids);
    |Distinct(ids)|
  }

  function Summaries(events: seq<Listed>): (s: seq<Summary>)
    ensures |s| == |events|
    ensures forall i :: 0 <= i < |s| ==> s[i] == Summary(events[i].id, AttendeeCount(events[i].attendeeIds))
  {
    if events == [] then [] else [Summary(events[0].id, AttendeeCount(events[0].attendeeIds))] + Summaries(events[1..])
  }

  /** The `where` as the listing builds it: the owner filter is the text of
      the query string. */
  method BuildWhereAsWritten(date: Field, ownerId: Field) returns (w: Where)
    ensures Truthy(date) <==> w.startDate.Some?
    ensures Truthy(date) ==> w.startDate.value == date.s
    ensures Truthy(ownerId) <==> w.owner.Some?
    ensures Truthy(ownerId) ==> w.owner.value == OwnerText(ownerId.s)
  {
    w := Where(None, None);
    if Truthy(date) {
      w := w.(startDate := Some(date.s));
    }
    if Truthy(ownerId) {
      w := w.(owner := Some(OwnerText(ownerId.s)));
    }
  }

  /** `GET /events` as written: any owner filter makes the ORM refuse the
      query, so the listing fails whenever an owner is asked for. */
  method GetAllAsWritten(events: seq<Listed>, date: Field, ownerId: Field, toIso: EventRows.Clock)
    returns (r: Reply, items: seq<Summary>)
    ensures Truthy(ownerId) ==> r == Fail(500, "Failed to fetch events") && items == []
    ensures !Truthy(ownerId) && Truthy(date) && toIso(date.s).None? ==> r == Fail(500, "Failed to fetch events") && items == []
  {
    var w := BuildWhereAsWritten(date, ownerId);
    if !Accepted(w, toIso) {
      return Fail(500, "Failed to fetch events"), [];
    }
    r, items := Ok(200), Summaries(Select(events, w, toIso));
  }

  /** The `where` with the owner id parsed as the create does (`parseInt`);
      None when it is not a number. */
  method BuildWhere(date: Field, ownerId: Field) returns (w: Option<Where>)
    ensures (Truthy(ownerId) && ParseInt(ownerId.s).None?) <==> w.None?
    ensures w.Some? ==> (Truthy(date) <==> w.value.startDate.Some?)
    ensures w.Some? && Truthy(date) ==> w.value.startDate.value == date.s
    ensures w.Some? ==> (Truthy(ownerId) <==> w.value.owner.Some?)
    ensures w.Some? && Truthy(ownerId) ==> w.value.owner.value == OwnerId(ParseInt(ownerId.s).value)
  {
    var where := Where(None, None);
    if Truthy(date) {
      where := where.(startDate := Some(date.s));
    }
    if Truthy(ownerId) {
      var n := ParseInt(ownerId.s);
      if n.None? {
        return None;
      }
      where := where.(owner := Some(OwnerId(n.value)));
    }
    w := Some(where);
  }

  /** `GET /events`: the filters given are combined, each event is listed
      exactly when it matches all of them, with its distinct attendee count; a
      date or an owner id that is not one fails the listing. */
  method GetAll(events: seq<Listed>, date: Field, ownerId: Field, toIso: EventRows.Clock)
    returns (r: Reply, items: seq<Summary>)
    ensures ((Truthy(date) && toIso(date.s).None?) || (Truthy(ownerId) && ParseInt(ownerId.s).None?)) <==> r.Fail?
    ensures r.Fail? ==> r == Fail(500, "Failed to fetch events") && items == []
    ensures r.Ok? ==>
      && r == Ok(200)
      && exists sel: seq<Listed> ::
        && (forall e :: e in sel <==>
              && e in events
              && (Truthy(date) ==> toIso(date.s) == Some(e.startIso))
              && (Truthy(ownerId) ==> e.owner == ParseInt(ownerId.s).value))
        && items == Summaries(sel)
  {
    var w := BuildWhere(date, ownerId);
    if w.None? || !Accepted(w.value, toIso) {
      return Fail(500, "Failed to fetch events"), [];
    }
    var sel := Select(events, w.value, toIso);
    r, items := Ok(200), Summaries(sel);
  }

  /** The events of the ORM. */
  class EventRecords {
    var rows: map<int, map<string, Value>>
    /** The id the next created event gets. */
    var nextId: int

    ghost predicate Valid()
      reads this
    {
      forall id :: id in rows ==> id < nextId
    }

    /** `PUT /events/:id`: only editable keys are written, and a body with
        none is refused before the store is touched; an id that is not a
        number fails, and an unknown one is not found. */
    method Update(id: string, b: Body) returns (r: Reply)
      requires Valid() && WellFormed(b)
      modifies this`rows
      ensures Valid()
      ensures !(exists k :: k in b.keys && k in Editable) ==>
        r == Fail(400, "No valid fields to update") && rows == old(rows)
      ensures (exists k :: k in b.keys && k in Editable) && ParseInt(id).None? ==>
        r == Fail(500, "Failed to update event") && rows == old(rows)
      ensures (exists k :: k in b.keys && k in Editable) && ParseInt(id).Some? && ParseInt(id).value !in old(rows) ==>
        r == Fail(404, "Event not found") && rows == old(rows)
      ensures (exists k :: k in b.keys && k in Editable) && ParseInt(id).Some? && ParseInt(id).value in old(rows) ==>
        var n := ParseInt(id).value;
        r == Ok(200) && rows == old(rows)[n := old(rows)[n] + UpdateData(b)]
    {
      var data, hasUpdates := BuildUpdateData(b);
      if !hasUpdates {
        return Fail(400, "No valid fields to update");
      }
      var n := ParseInt(id);
      if n.None? {
        return Fail(500, "Failed to update event");
      }
      if n.value !in rows {
        return Fail(404, "Event not found");
      }
      rows := rows[n.value := rows[n.value] + data];
      r := Ok(200);
    }

    /** `POST /events`: the owner, both dates and the registration URL are
        required; the owner id is parsed, and one that is not a number or not
        a user fails the write. */
    method Create(b: Body, users: set<int>) returns (r: Reply)
      requires Valid()
      modifies this`rows, this`nextId
      ensures Valid()
      ensures !HasRequired(b) ==> r == Fail(400, "Missing required fields") && rows == old(rows) && nextId == old(nextId)
      ensures HasRequired(b) ==>
        var owner := ParseInt(Get(b, "eventOwner").s);
        if owner.None? || owner.value !in users then
          r == Fail(500, "Failed to create event") && rows == old(rows) && nextId == old(nextId)
        else
          && r == Ok(201) && old(nextId) !in old(rows) && nextId == old(nextId) + 1
          && rows == old(rows)[old(nextId) := CreateData(b, owner.value)]
    {
      if !Truthy(Get(b, "eventOwner")) || !Truthy(Get(b, "eventStartDate")) ||
         !Truthy(Get(b, "eventEndDate")) || !Truthy(Get(b, "regisURL")) {
        return Fail(400, "Missing required fields");
      }
      var owner := ParseInt(Get(b, "eventOwner").s);
      if owner.None? || owner.value !in users {
        return Fail(500, "Failed to create event");
      }
      rows := rows[nextId := CreateData(b, owner.value)];
      nextId := nextId + 1;
      r := Ok(201);
    }
  }
}
