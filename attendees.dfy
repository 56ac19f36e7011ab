/**
 * The attendee controllers: registering a user for an event, adding an
 * attendee with a chosen status, changing a status, removing a row, and the
 * attendee list of an event. There are two copies of the controller, one on
 * the ORM and one on hand-written SQL; they answer with the same statuses and
 * messages and differ in how an id taken from the request becomes an integer
 * (`parseInt` against a cast by the database), which is the `IdCast` below.
 */
module Attendees {
  import opened Common
  import opened Text
  import opened Numerals
  import opened Ledger

  /** How an id from the request path reaches the store. */
  datatype IdCast = JsParseInt | SqlCast

  function CastId(c: IdCast, s: string): Option<int> {
    match c
    case JsParseInt => ParseInt(s)
    case SqlCast => SqlInt(s)
  }

  /** Where both casts accept an id they agree on its value. */
  lemma CastsAgree(s: string)
    requires CastId(SqlCast, s).Some?
    ensures CastId(JsParseInt, s) == CastId(SqlCast, s)
  {
  }

  /** The status an attendee is added with: the body's, `registered` when the
      body has none; a value outside the three statuses is None. */
  function AddStatus(status: Field): (r: Option<Status>)
    ensures status.Undefined? ==> r == Some(Registered)
    ensures status.Str? ==> r == ParseStatus(status.s)
    ensures status.Null? ==> r.None?
  {
    match status
    case Undefined => Some(Registered)
    case Null => None
    case Str(s) => ParseStatus(s)
  }

  /** `POST /:eventId/register`: a user (uid from the body) registers once per
      event; the new row is `registered`. */
  method Register(st: Store, cast: IdCast, eventId: string, uid: Option<int>) returns (r: Reply)
    requires st.Valid()
    modifies st`attendance
    ensures st.Valid()
    ensures !TruthyId(uid) ==> r == Fail(400, "Missing uid") && unchanged(st)
    ensures TruthyId(uid) && CastId(cast, eventId).None? ==>
      r == Fail(500, "Failed to register for event") && unchanged(st)
    ensures TruthyId(uid) && CastId(cast, eventId).Some? ==>
      var k := (CastId(cast, eventId).value, uid.value);
      if k in old(st.attendance) then
        r == Fail(409, "User already registered for this event") && unchanged(st)
      else if k.0 !in old(st.events) || k.1 !in old(st.users) then
        r == Fail(500, "Failed to register for event") && unchanged(st)
      else
        r == Ok(201) && st.attendance == old(st.attendance)[k := Registered]
  {
    if !TruthyId(uid) {
      return Fail(400, "Missing uid");
    }
    var e := CastId(cast, eventId);
    if e.None? {
      return Fail(500, "Failed to register for event");
    }
    if (e.value, uid.value) in st.attendance {
      return Fail(409, "User already registered for this event");
    }
    var ok := st.CreateAttendee(e.value, uid.value, Registered);
    r := if ok then Ok(201) else Fail(500, "Failed to register for event");
  }

  /** `POST /:eventId` (administrators): like registering, with the status
      taken from the body and `registered` by default. */
  method Add(st: Store, cast: IdCast, eventId: string, uid: Option<int>, status: Field) returns (r: Reply)
    requires st.Valid()
    modifies st`attendance
    ensures st.Valid()
    ensures !TruthyId(uid) ==> r == Fail(400, "Missing uid") && unchanged(st)
    ensures TruthyId(uid) && CastId(cast, eventId).None? ==>
      r == Fail(500, "Failed to add attendee") && unchanged(st)
    ensures TruthyId(uid) && CastId(cast, eventId).Some? ==>
      var k := (CastId(cast, eventId).value, uid.value);
      if k in old(st.attendance) then
        r == Fail(409, "User already an attendee for this event") && unchanged(st)
      else if AddStatus(status).None? || k.0 !in old(st.events) || k.1 !in old(st.users) then
        r == Fail(500, "Failed to add attendee") && unchanged(st)
      else
        r == Ok(201) && st.attendance == old(st.attendance)[k := AddStatus(status).value]
  {
    if !TruthyId(uid) {
      return Fail(400, "Missing uid");
    }
    var e := CastId(cast, eventId);
    if e.None? {
      return Fail(500, "Failed to add attendee");
    }
    if (e.value, uid.value) in st.attendance {
      return Fail(409, "User already an attendee for this event");
    }
    var s := AddStatus(status);
    if s.None? {
      return Fail(500, "Failed to add attendee");
    }
    var ok := st.CreateAttendee(e.value, uid.value, s.value);
    r := if ok then Ok(201) else Fail(500, "Failed to add attendee");
  }

  /** The whitelist check of a status change: the body's status must be one
      of the three names. */
  function RequestedStatus(status: Field): (r: Option<Status>)
    ensures r.Some? <==> status.Str? && status.s in {"absent", "present", "registered"}
    ensures r.Some? ==> StatusName(r.value) == status.s
  {
    if status.Str? then ParseStatus(status.s) else None
  }

  /** `PUT /:eventId/:uid`: a whitelisted status replaces that one row's
      status; a status outside the whitelist is refused before the store is
      touched, and a missing row is not found. */
  method UpdateStatus(st: Store, cast: IdCast, eventId: string, uid: string, status: Field) returns (r: Reply)
    requires st.Valid()
    modifies st`attendance
    ensures st.Valid()
    ensures RequestedStatus(status).None? ==> r == Fail(400, "Invalid status") && unchanged(st)
    ensures RequestedStatus(status).Some? && (CastId(cast, eventId).None? || CastId(cast, uid).None?) ==>
      r == Fail(500, "Failed to update attendee status") && unchanged(st)
    ensures RequestedStatus(status).Some? && CastId(cast, eventId).Some? && CastId(cast, uid).Some? ==>
      var k := (CastId(cast, eventId).value, CastId(cast, uid).value);
      if k !in old(st.attendance) then r == Fail(404, "Attendee record not found") && unchanged(st)
      else r == Ok(200) && st.attendance == old(st.attendance)[k := RequestedStatus(status).value]
  {
    var s := RequestedStatus(status);
    if s.None? {
      return Fail(400, "Invalid status");
    }
    var e, u := CastId(cast, eventId), CastId(cast, uid);
    if e.None? || u.None? {
      return Fail(500, "Failed to update attendee status");
    }
    var found := st.SetStatus(e.value, u.value, s.value);
    r := if found then Ok(200) else Fail(404, "Attendee record not found");
  }

  /** `DELETE /:eventId/:uid`: exactly that row is removed; a missing row is
      not found and nothing changes. */
  method Remove(st: Store, cast: IdCast, eventId: string, uid: string) returns (r: Reply)
    requires st.Valid()
    modifies st`attendance
    ensures st.Valid()
    ensures CastId(cast, eventId).None? || CastId(cast, uid).None? ==>
      r == Fail(500, "Failed to remove attendee") && unchanged(st)
    ensures CastId(cast, eventId).Some? && CastId(cast, uid).Some? ==>
      var k := (CastId(cast, eventId).value, CastId(cast, uid).value);
      && (k !in old(st.attendance) ==> r == Fail(404, "Attendee record not found") && unchanged(st))
      && (k in old(st.attendance) ==> r == Ok(200) && st.attendance == old(st.attendance) - {k})
  {
    var e, u := CastId(cast, eventId), CastId(cast, uid);
    if e.None? || u.None? {
      return Fail(500, "Failed to remove attendee");
    }
    var found := st.DeleteAttendee(e.value, u.value);
    r := if found then Ok(200) else Fail(404, "Attendee record not found");
  }

  /** Removing twice: the second removal finds nothing. */
  method RemoveTwice(st: Store, cast: IdCast, eventId: string, uid: string) returns (first: Reply, second: Reply)
    requires st.Valid()
    modifies st`attendance
    ensures st.Valid()
    ensures first == Ok(200) ==> second == Fail(404, "Attendee record not found")
  {
    first := Remove(st, cast, eventId, uid);
    second := Remove(st, cast, eventId, uid);
  }

  /** One entry of an event's attendee list: the row joined with its user. */
  datatype AttendeeRow = AttendeeRow(uid: int, status: Status, fname: string, lname: string, email: string, card: Option<string>)

  function RowOf(uid: int, status: Status, u: UserRec): AttendeeRow {
    AttendeeRow(uid, status, u.fname, u.lname, u.email, u.card)
  }

  predicate SortedByName(rows: seq<AttendeeRow>) {
    forall i, j :: 0 <= i < j < |rows| ==> LexLe(rows[i].fname, rows[j].fname)
  }

  function Uids(rows: seq<AttendeeRow>): (us: seq<int>)
    ensures |us| == |rows| && forall i :: 0 <= i < |rows| ==> us[i] == rows[i].uid
  {
    if rows == [] then [] else [rows[0].uid] + Uids(rows[1..])
  }

  /** `row` placed into a list sorted by first name, before the first entry
      whose name is not smaller (so after entries with a smaller name). */
  function Insert(row: AttendeeRow, rows: seq<AttendeeRow>): (out: seq<AttendeeRow>)
    requires SortedByName(rows)
    ensures SortedByName(out)
    ensures forall x :: x in out ==> x == row || x in rows
    ensures multiset(Uids(out)) == multiset(Uids(rows)) + multiset{row.uid}
  {
    if rows == [] then [row]
    else if LexLe(row.fname, rows[0].fname) then
      InsertFront(row, rows);
      [row] + rows
    else
      var rest := Insert(row, rows[1..]);
      InsertAfter(row, rows, rest);
      [rows[0]] + rest
  }

  /** Putting a row in front keeps the order when its name is not larger than
      the first one. */
  lemma InsertFront(row: AttendeeRow, rows: seq<AttendeeRow>)
    requires SortedByName(rows) && rows != [] && LexLe(row.fname, rows[0].fname)
    ensures SortedByName([row] + rows)
    ensures multiset(Uids([row] + rows)) == multiset(Uids(rows)) + multiset{row.uid}
  {
    forall j | 0 < j < |rows| ensures LexLe(row.fname, rows[j].fname) {
      LexTrans(row.fname, rows[0].fname, rows[j].fname);
    }
    ConsSortedFront(row, rows);
    UidsCons(row, rows);
    assert multiset(Uids([row] + rows)) == multiset{row.uid} + multiset(Uids(rows));
  }

  /** The step of `Insert` that keeps the first entry in front of the rest. */
  lemma InsertAfter(row: AttendeeRow, rows: seq<AttendeeRow>, rest: seq<AttendeeRow>)
    requires SortedByName(rows) && rows != [] && !LexLe(row.fname, rows[0].fname)
    requires SortedByName(rest)
    requires forall x :: x in rest ==> x == row || x in rows[1..]
    requires multiset(Uids(rest)) == multiset(Uids(rows[1..])) + multiset{row.uid}
    ensures SortedByName([rows[0]] + rest)
    ensures multiset(Uids([rows[0]] + rest)) == multiset(Uids(rows)) + multiset{row.uid}
  {
    LeastBeforeRest(row, rows, rest);
    ConsSorted(rows[0], rest);
    UidsReplaceTail(rows, rest, row.uid);
  }

  lemma LeastBeforeRest(row: AttendeeRow, rows: seq<AttendeeRow>, rest: seq<AttendeeRow>)
    requires SortedByName(rows) && rows != [] && !LexLe(row.fname, rows[0].fname)
    requires forall x :: x in rest ==> x == row || x in rows[1..]
    ensures forall x :: x in rest ==> LexLe(rows[0].fname, x.fname)
  {
    LexTotal(row.fname, rows[0].fname);
    FirstIsLeast(rows);
  }

  lemma UidsReplaceTail(rows: seq<AttendeeRow>, rest: seq<AttendeeRow>, u: int)
    requires rows != []
    requires multiset(Uids(rest)) == multiset(Uids(rows[1..])) + multiset{u}
    ensures multiset(Uids([rows[0]] + rest)) == multiset(Uids(rows)) + multiset{u}
  {
    var a := rows[0];
    UidsCons(a, rest);
    assert multiset(Uids([a] + rest)) == multiset{a.uid} + multiset(Uids(rest));
    assert Uids(rows) == [a.uid] + Uids(rows[1..]);
    assert multiset(Uids(rows)) == multiset{a.uid} + multiset(Uids(rows[1..]));
  }

  /** The first name of a sorted list is not larger than any later one. */
  lemma FirstIsLeast(rows: seq<AttendeeRow>)
    requires SortedByName(rows) && rows != []
    ensures forall x :: x in rows[1..] ==> LexLe(rows[0].fname, x.fname)
  {
    forall x | x in rows[1..] ensures LexLe(rows[0].fname, x.fname) {
      var i :| 0 <= i < |rows[1..]| && rows[1..][i] == x;
      assert rows[i + 1] == x;
    }
  }

  lemma UidsCons(a: AttendeeRow, rows: seq<AttendeeRow>)
    ensures Uids([a] + rows) == [a.uid] + Uids(rows)
  {
    assert ([a] + rows)[1..] == rows;
  }

  lemma ConsSortedFront(first: AttendeeRow, rest: seq<AttendeeRow>)
    requires SortedByName(rest)
    requires forall j :: 0 <= j < |rest| ==> LexLe(first.fname, rest[j].fname)
    ensures SortedByName([first] + rest)
  {
    forall x | x in rest ensures LexLe(first.fname, x.fname) {
      var j :| 0 <= j < |rest| && rest[j] == x;
    }
    ConsSorted(first, rest);
  }

  lemma ConsSorted(first: AttendeeRow, rest: seq<AttendeeRow>)
    requires SortedByName(rest)
    requires forall x :: x in rest ==> LexLe(first.fname, x.fname)
    ensures SortedByName([first] + rest)
  {
    forall i, j | 0 <= i < j < |[first] + rest|
      ensures LexLe(([first] + rest)[i].fname, ([first] + rest)[j].fname)
    {
      assert rest[j - 1] in rest;
      if i > 0 {
        assert ([first] + rest)[i] == rest[i - 1];
      }
    }
  }

  /** The uids of the rows an attendee list contains: an event's rows,
      restricted to one status when a filter is given. */
  function Selected(attendance: map<(int, int), Status>, eventId: int, filter: Option<Status>): set<int> {
    set k | k in attendance && k.0 == eventId && (filter.None? || attendance[k] == filter.value) :: k.1
  }

  lemma SelectedMember(attendance: map<(int, int), Status>, eventId: int, filter: Option<Status>, u: int)
    requires u in Selected(attendance, eventId, filter)
    ensures (eventId, u) in attendance
    ensures filter.None? || attendance[(eventId, u)] == filter.value
  {
    var k :| k in attendance && k.0 == eventId && (filter.None? || attendance[k] == filter.value) && k.1 == u;
    assert k == (eventId, u);
  }

  /** Moving one uid from the to-do set to the done part of `all`. */
  lemma MoveOne(all: set<int>, todo: set<int>, u: int)
    requires todo <= all && u in todo
    ensures multiset(all - (todo - {u})) == multiset(all - todo) + multiset{u}
  {
    assert all - (todo - {u}) == (all - todo) + {u};
  }

  /** `x` is the row the list shows for its uid in event `e`. */
  predicate Listed(attendance: map<(int, int), Status>, users: map<int, UserRec>, e: int, x: AttendeeRow) {
    (e, x.uid) in attendance && x.uid in users && x == RowOf(x.uid, attendance[(e, x.uid)], users[x.uid])
  }

  /** Part way through building the list: `rows` holds, sorted, exactly the
      selected uids that are no longer `todo`. */
  predicate Progress(attendance: map<(int, int), Status>, users: map<int, UserRec>, e: int, filter: Option<Status>,
                     todo: set<int>, rows: seq<AttendeeRow>) {
    && todo <= Selected(attendance, e, filter)
    && SortedByName(rows)
    && multiset(Uids(rows)) == multiset(Selected(attendance, e, filter) - todo)
    && forall x :: x in rows ==> Listed(attendance, users, e, x)
  }

  lemma CollectStep(attendance: map<(int, int), Status>, users: map<int, UserRec>, e: int, filter: Option<Status>,
                    todo: set<int>, rows: seq<AttendeeRow>, u: int)
    requires forall k :: k in attendance ==> k.1 in users
    requires Progress(attendance, users, e, filter, todo, rows) && u in todo
    ensures (e, u) in attendance && u in users
    ensures Progress(attendance, users, e, filter, todo - {u}, Insert(RowOf(u, attendance[(e, u)], users[u]), rows))
  {
    var all := Selected(attendance, e, filter);
    SelectedMember(attendance, e, filter, u);
    var row := RowOf(u, attendance[(e, u)], users[u]);
    assert Listed(attendance, users, e, row);
    MoveOne(all, todo, u);
    var next := Insert(row, rows);
    assert multiset(Uids(next)) == multiset(all - (todo - {u}));
    assert forall x :: x in next ==> Listed(attendance, users, e, x);
  }

  /** The rows of one event that pass the filter, joined with their users
      and sorted by first name: the query and its `ORDER BY`. */
  method Collect(attendance: map<(int, int), Status>, users: map<int, UserRec>, e: int, filter: Option<Status>)
    returns (rows: seq<AttendeeRow>)
    requires forall k :: k in attendance ==> k.1 in users
    ensures SortedByName(rows)
    ensures multiset(Uids(rows)) == multiset(Selected(attendance, e, filter))
    ensures forall x :: x in rows ==> Listed(attendance, users, e, x)
  {
    var todo := Selected(attendance, e, filter);
    rows := [];
    while todo != {}
      invariant Progress(attendance, users, e, filter, todo, rows)
      decreases |todo|
    {
      HasMember(todo);
      var u :| u in todo;
      CollectStep(attendance, users, e, filter, todo, rows, u);
      rows := Insert(RowOf(u, attendance[(e, u)], users[u]), rows);
      todo := todo - {u};
    }
    assert Selected(attendance, e, filter) - todo == Selected(attendance, e, filter);
  }

  /** `GET /:eventId?status=`: the event's rows, only those with the given
      status when one is asked for, joined with their users and ordered by
      first name. A non-numeric event id or a status outside the three fails. */
  method GetByEventId(st: Store, eventId: string, status: Field) returns (r: Option<seq<AttendeeRow>>)
    requires st.Valid()
    ensures r.None? <==> ParseInt(eventId).None? || (Truthy(status) && ParseStatus(status.s).None?)
    ensures r.Some? ==>
      var e := ParseInt(eventId).value;
      var filter := if Truthy(status) then ParseStatus(status.s) else None;
      && SortedByName(r.value)
      && multiset(Uids(r.value)) == multiset(Selected(st.attendance, e, filter))
      && forall x :: x in r.value ==> Listed(st.attendance, st.users, e, x)
  {
    var parsed := ParseInt(eventId);
    if parsed.None? {
      return None;
    }
    var filter: Option<Status> := None;
    if Truthy(status) {
      filter := ParseStatus(status.s);
      if filter.None? {
        return None;
      }
    }
    var rows := Collect(st.attendance, st.users, parsed.value, filter);
    r := Some(rows);
  }
}
