/**
 * The event controller of the modular server's SQL variant: the text of the
 * listing query and of an update's SET clause, each with consecutive `$k`
 * placeholders and the matching parameter list, and the replies of create,
 * update and remove over an events table.
 */
module EventsSql {
  import opened Common
  import opened Text
  import opened Numerals
  import EventsOrm

  /** The `$k` placeholder of the k-th parameter. */
  function Placeholder(k: nat): string {
    "$" + NatStr(k)
  }

  /** A piece of query text: literal text, or the placeholder of a parameter. */
  datatype Piece = Text(t: string) | Param(k: nat)

  /** The text of a query. */
  function Sql(query: seq<Piece>): string {
    if query == [] then ""
    else (match query[0] case Text(t) => t case Param(k) => Placeholder(k)) + Sql(query[1..])
  }

  /** The parameter numbers of a query's placeholders, in order. */
  function Numbers(query: seq<Piece>): (ns: seq<nat>)
    ensures |ns| <= |query|
  {
    if query == [] then []
    else (if query[0].Param? then [query[0].k] else []) + Numbers(query[1..])
  }

  lemma {:induction false} NumbersAppend(a: seq<Piece>, b: seq<Piece>)
    ensures Numbers(a + b) == Numbers(a) + Numbers(b)
  {
    if a == [] {
      assert a + b == b;
    } else {
      assert (a + b)[0] == a[0];
      assert (a + b)[1..] == a[1..] + b;
      NumbersAppend(a[1..], b);
      var h := if a[0].Param? then [a[0].k] else [];
      assert Numbers(a + b) == h + Numbers(a[1..] + b);
      assert Numbers(a) == h + Numbers(a[1..]);
      SeqAssoc(h, Numbers(a[1..]), Numbers(b));
    }
  }

  lemma SeqAssoc(x: seq<nat>, y: seq<nat>, z: seq<nat>)
    ensures x + (y + z) == (x + y) + z
  {
  }

  /** The listing query up to its filters (its layout white space left out). */
  const SelectEvents: string :=
    "SELECT e.*, u.fname, u.lname, u.email, COUNT(DISTINCT a.uid) as attendeeCount FROM events e " +
    "LEFT JOIN users u ON e.eventOwner = u.uid LEFT JOIN attendees a ON e.eventId = a.eventId"

  /** The end of the listing query. */
  const GroupOrder: string := " GROUP BY e.eventId, u.uid ORDER BY e.eventStartDate DESC"

  /** The filters of the listing query: the first one opens with ` WHERE`, a
      second one with ` AND`, and each takes the next placeholder. */
  function Filters(dateGiven: bool, ownerGiven: bool): seq<Piece> {
    (if dateGiven then [Text(" WHERE e.eventStartDate = "), Param(1)] else []) +
    (if ownerGiven then [Text(if dateGiven then " AND" else " WHERE"), Text(" e.eventOwner = "), Param(if dateGiven then 2 else 1)]
     else [])
  }

  /** The query and parameters of `GET /events`: each filter given adds its
      clause and its parameter, in the same order, so the placeholders are
      numbered 1, 2, ... up to the number of parameters. */
  method BuildGetAll(date: Field, ownerId: Field) returns (query: seq<Piece>, params: seq<string>)
    ensures params == (if Truthy(date) then [date.s] else []) + (if Truthy(ownerId) then [ownerId.s] else [])
    ensures query == [Text(SelectEvents)] + Filters(Truthy(date), Truthy(ownerId)) + [Text(GroupOrder)]
    ensures |Numbers(query)| == |params| && forall j :: 0 <= j < |params| ==> Numbers(query)[j] == j + 1
  {
    query := [Text(SelectEvents)];
    params := [];
    if Truthy(date) {
      NumbersAppend(query, [Text(" WHERE e.eventStartDate = "), Param(|params| + 1)]);
      query := query + [Text(" WHERE e.eventStartDate = "), Param(|params| + 1)];
      params := params + [date.s];
    }
    if Truthy(ownerId) {
      NumbersAppend(query, [Text(if |params| > 0 then " AND" else " WHERE")]);
      query := query + [Text(if |params| > 0 then " AND" else " WHERE")];
      NumbersAppend(query, [Text(" e.eventOwner = "), Param(|params| + 1)]);
      query := query + [Text(" e.eventOwner = "), Param(|params| + 1)];
      params := params + [ownerId.s];
    }
    NumbersAppend(query, [Text(GroupOrder)]);
    query := query + [Text(GroupOrder)];
  }

  /** The editable keys among `keys`, in order. */
  function Whitelisted(keys: seq<string>): (w: seq<string>)
    ensures forall k :: k in w <==> k in keys && k in EventsOrm.Editable
  {
    if keys == [] then []
    else Whitelisted(keys[..|keys| - 1]) + (if keys[|keys| - 1] in EventsOrm.Editable then [keys[|keys| - 1]] else [])
  }

  /** One more key: the editable keys so far, and this one if it is editable. */
  lemma WhitelistedSnoc(keys: seq<string>, i: nat)
    requires i < |keys|
    ensures Whitelisted(keys[..i + 1]) == Whitelisted(keys[..i]) + (if keys[i] in EventsOrm.Editable then [keys[i]] else [])
  {
    assert keys[..i + 1][..i] == keys[..i];
    assert keys[..i + 1][i] == keys[i];
  }

  /** The assignment `key = $k` of a SET clause. */
  function Assignment(key: string, k: nat): string {
    key + " = " + Placeholder(k)
  }

  /** The assignments `k = $j` for the keys `w`, numbered from 1. */
  function Assignments(w: seq<string>): (f: seq<string>)
    ensures |f| == |w|
  {
    if w == [] then [] else Assignments(w[..|w| - 1]) + [Assignment(w[|w| - 1], |w|)]
  }

  /** The body's values for the keys `w`, in order. */
  function ValuesOf(w: seq<string>, values: map<string, Field>): (v: seq<Field>)
    requires forall k :: k in w ==> k in values
    ensures |v| == |w|
  {
    if w == [] then [] else ValuesOf(w[..|w| - 1], values) + [values[w[|w| - 1]]]
  }

  /** The j-th assignment names the j-th key and placeholder j + 1; the j-th
      value is the body's value for that key. */
  lemma {:induction false} AssignmentsAt(w: seq<string>, values: map<string, Field>, j: nat)
    requires forall k :: k in w ==> k in values
    requires j < |w|
    ensures Assignments(w)[j] == Assignment(w[j], j + 1)
    ensures ValuesOf(w, values)[j] == values[w[j]]
  {
    var p := w[..|w| - 1];
    if j < |w| - 1 {
      AssignmentsAt(p, values, j);
    }
  }

  /** One more editable key adds its assignment and its value at the end. */
  lemma AssignmentsSnoc(w: seq<string>, key: string, values: map<string, Field>)
    requires forall k :: k in w ==> k in values
    requires key in values
    ensures Assignments(w + [key]) == Assignments(w) + [Assignment(key, |w| + 1)]
    ensures ValuesOf(w + [key], values) == ValuesOf(w, values) + [values[key]]
  {
    assert (w + [key])[..|w|] == w;
  }

  /** The SET clause of an update: for the j-th editable key of the body, the
      assignment `key = $j` and the body's value as the j-th parameter; the
      next placeholder number is one past the assignments. */
  method BuildSet(b: EventsOrm.Body) returns (fields: seq<string>, values: seq<Field>, paramCount: nat)
    requires EventsOrm.WellFormed(b)
    ensures var w := Whitelisted(b.keys);
      fields == Assignments(w) && values == ValuesOf(w, b.values) && paramCount == |w| + 1
  {
    fields, values, paramCount := [], [], 1;
    ghost var w: seq<string> := [];
    for i := 0 to |b.keys|
      invariant w == Whitelisted(b.keys[..i])
      invariant forall k :: k in w ==> k in b.values
      invariant fields == Assignments(w) && values == ValuesOf(w, b.values) && paramCount == |w| + 1
    {
      var key := b.keys[i];
      WhitelistedSnoc(b.keys, i);
      if key in EventsOrm.Editable {
        AssignmentsSnoc(w, key, b.values);
        fields := fields + [Assignment(key, paramCount)];
        values := values + [b.values[key]];
        paramCount := paramCount + 1;
        w := w + [key];
      }
    }
    assert b.keys[..|b.keys|] == b.keys;
  }

  /** The UPDATE statement around a SET clause; the id takes the last
      placeholder. */
  function UpdateQuery(fields: seq<string>, paramCount: nat): string {
    "UPDATE events SET " + JoinWith(fields, ", ") + " WHERE eventId = " + Placeholder(paramCount) + " RETURNING *"
  }

  /** The columns an update writes: each editable key of the body with its value. */
  function Assigned(b: EventsOrm.Body): (a: map<string, Field>)
    requires EventsOrm.WellFormed(b)
    ensures forall k :: k in a <==> k in b.keys && k in EventsOrm.Editable
  {
    map k | k in b.keys && k in EventsOrm.Editable :: b.values[k]
  }

  /** The row a create inserts: the URL and the three required fields as given,
      every optional field falsy as null. */
  function Inserted(b: EventsOrm.Body): map<string, Field> {
    map[
      "eventOwner" := EventsOrm.Get(b, "eventOwner"),
      "eventDetail" := OrNull(EventsOrm.Get(b, "eventDetail")),
      "eventIMG" := OrNull(EventsOrm.Get(b, "eventIMG")),
      "eventStartDate" := EventsOrm.Get(b, "eventStartDate"),
      "eventEndDate" := EventsOrm.Get(b, "eventEndDate"),
      "eventStartTime" := OrNull(EventsOrm.Get(b, "eventStartTime")),
      "eventEndTime" := OrNull(EventsOrm.Get(b, "eventEndTime")),
      "regisStart" := OrNull(EventsOrm.Get(b, "regisStart")),
      "regisEnd" := OrNull(EventsOrm.Get(b, "regisEnd")),
      "contact" := OrNull(EventsOrm.Get(b, "contact")),
      "regisURL" := EventsOrm.Get(b, "regisURL")]
  }

  /** The events table of the SQL variant. */
  class EventTable {
    var rows: map<int, map<string, Field>>
    /** The id the next inserted event gets. */
    var nextId: int

    ghost predicate Valid()
      reads this
    {
      forall id :: id in rows ==> id < nextId
    }

    /** `PUT /events/:id`: a body without editable keys is refused before any
        query; otherwise the statement is sent with the id as its last
        parameter, and a statement that touches no row is not found. An id the
        database cannot read as an integer fails the statement. */
    method Update(id: string, b: EventsOrm.Body) returns (r: Reply, query: string, params: seq<Field>)
      requires Valid() && EventsOrm.WellFormed(b)
      modifies this`rows
      ensures Valid()
      ensures var w := Whitelisted(b.keys);
        if w == [] then
          r == Fail(400, "No valid fields to update") && rows == old(rows) && query == "" && params == []
        else
          && query == UpdateQuery(Assignments(w), |w| + 1)
          && params == ValuesOf(w, b.values) + [Str(id)]
          && (if SqlInt(id).None? then r == Fail(500, "Failed to update event") && rows == old(rows)
              else if SqlInt(id).value !in old(rows) then r == Fail(404, "Event not found") && rows == old(rows)
              else r == Ok(200) && rows == old(rows)[SqlInt(id).value := old(rows)[SqlInt(id).value] + Assigned(b)])
    {
      var fields, values, paramCount := BuildSet(b);
      if |fields| == 0 {
        return Fail(400, "No valid fields to update"), "", [];
      }
      params := values + [Str(id)];
      query := UpdateQuery(fields, paramCount);
      r := Assign(SqlInt(id), Assigned(b));
    }

    /** The statement's effect on the table: an id the database cannot read
        fails it, an id with no row touches nothing, and otherwise the row
        takes the assigned columns. */
    method Assign(n: Option<int>, a: map<string, Field>) returns (r: Reply)
      requires Valid()
      modifies this`rows
      ensures Valid()
      ensures n.None? ==> r == Fail(500, "Failed to update event") && rows == old(rows)
      ensures n.Some? && n.value !in old(rows) ==> r == Fail(404, "Event not found") && rows == old(rows)
      ensures n.Some? && n.value in old(rows) ==> r == Ok(200) && rows == old(rows)[n.value := old(rows)[n.value] + a]
    {
      if n.None? {
        return Fail(500, "Failed to update event");
      }
      if n.value !in rows {
        return Fail(404, "Event not found");
      }
      rows := rows[n.value := rows[n.value] + a];
      r := Ok(200);
    }

    /** `DELETE /events/:id`: the row goes, and a statement that deletes
        nothing is not found. */
    method Remove(id: string) returns (r: Reply)
      requires Valid()
      modifies this`rows
      ensures Valid()
      ensures SqlInt(id).None? ==> r == Fail(500, "Failed to delete event") && rows == old(rows)
      ensures SqlInt(id).Some? && SqlInt(id).value !in old(rows) ==> r == Fail(404, "Event not found") && rows == old(rows)
      ensures SqlInt(id).Some? && SqlInt(id).value in old(rows) ==>
        r == Ok(200) && rows == old(rows) - {SqlInt(id).value}
    {
      var n := SqlInt(id);
      if n.None? {
        return Fail(500, "Failed to delete event");
      }
      if n.value !in rows {
        return Fail(404, "Event not found");
      }
      rows := rows - {n.value};
      r := Ok(200);
    }

    /** `POST /events`: the owner, both dates and the registration URL are
        required; an owner the database cannot read as a user id, or that is no
        user, fails the insert. */
    method Create(b: EventsOrm.Body, users: set<int>) returns (r: Reply)
      requires Valid()
      modifies this`rows, this`nextId
      ensures Valid()
      ensures !EventsOrm.HasRequired(b) ==>
        r == Fail(400, "Missing required fields") && rows == old(rows) && nextId == old(nextId)
      ensures EventsOrm.HasRequired(b) ==>
        var owner := SqlInt(EventsOrm.Get(b, "eventOwner").s);
        if owner.None? || owner.value !in users then
          r == Fail(500, "Failed to create event") && rows == old(rows) && nextId == old(nextId)
        else
          && r == Ok(201) && old(nextId) !in old(rows) && nextId == old(nextId) + 1
          && rows == old(rows)[old(nextId) := Inserted(b)]
    {
      if !EventsOrm.HasRequired(b) {
        return Fail(400, "Missing required fields");
      }
      var owner := SqlInt(EventsOrm.Get(b, "eventOwner").s);
      if owner.None? || owner.value !in users {
        return Fail(500, "Failed to create event");
      }
      Insert(Inserted(b));
      r := Ok(201);
    }

    /** An insert: the row takes the next id, which no row had. */
    method Insert(row: map<string, Field>)
      requires Valid()
      modifies this`rows, this`nextId
      ensures Valid()
      ensures old(nextId) !in old(rows) && nextId == old(nextId) + 1 && rows == old(rows)[old(nextId) := row]
    {
      rows := rows[nextId := row];
      nextId := nextId + 1;
    }
  }
}
