/**
 * Values shared by every handler of the check-in backend: an Option type, the
 * shape of a JavaScript request value, JavaScript truthiness, and the JSON reply
 * of an HTTP handler.
 */
module Common {

  datatype Option<+T> = None | Some(value: T)

  /** A value read from a request body, a query string or a database row:
      absent (`undefined`), `null`, or a string. */
  datatype Field = Undefined | Null | Str(s: string)

  /** JavaScript truthiness of such a value: only a non-empty string is truthy. */
  predicate Truthy(f: Field) {
    f.Str? && f.s != ""
  }

  /** JavaScript truthiness of a numeric id from a JSON body: absent and 0 are falsy. */
  predicate TruthyId(id: Option<int>) {
    id.Some? && id.value != 0
  }

  /** The text a template literal `${f}` produces for the value. */
  function Render(f: Field): (t: string)
    ensures f.Str? ==> t == f.s
    ensures f.Undefined? ==> t == "undefined"
    ensures f.Null? ==> t == "null"
  {
    match f
    case Undefined => "undefined"
    case Null => "null"
    case Str(s) => s
  }

  /** The text a string column receives from the value; a missing name is
      stored as the empty string. */
  function TextOf(f: Field): (t: string)
    ensures f.Str? ==> t == f.s
    ensures !f.Str? ==> t == ""
  {
    if f.Str? then f.s else ""
  }

  /** `x || null`: a falsy value becomes null, a truthy one is kept. */
  function OrNull(f: Field): (g: Field)
    ensures Truthy(f) ==> g == f
    ensures !Truthy(f) ==> g == Null
  {
    if Truthy(f) then f else Null
  }

  /** The JSON reply of an HTTP handler: a success status, or an error status
      with the message the handler puts in its JSON body. */
  datatype Reply = Ok(code: int) | Fail(code: int, message: string)

  /** `toUpperCase`, restricted to ASCII letters. */
  function UpperChar(c: char): char {
    if 'a' <= c <= 'z' then (c as int - 32) as char else c
  }

  function Upper(s: string): (u: string)
    ensures |u| == |s|
    ensures forall i :: 0 <= i < |s| ==> u[i] == UpperChar(s[i])
  {
    if s == [] then [] else [UpperChar(s[0])] + Upper(s[1..])
  }

  /** A set of ids without members is the empty set. */
  lemma NoMemberEmpty(s: set<int>)
    requires forall x :: x !in s
    ensures s == {}
  {
    assert forall x :: x in s <==> x in {};
  }

  /** A non-empty set of ids has a member to pick. */
  lemma HasMember(s: set<int>)
    requires s != {}
    ensures exists x :: x in s
  {
    if !exists x :: x in s {
      NoMemberEmpty(s);
      assert false;
    }
  }
}
