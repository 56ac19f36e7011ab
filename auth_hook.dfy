/**
 * The hook the authentication library runs before it creates a user: a user
 * signing up with only a display name gets a first and a last name split
 * from it, and neither name is ever left undefined.
 */
module AuthHook {
  import opened Common
  import opened Text

  /** `name.trim().split(/\s+/)[0] || ""`: the first word of the name, or ""
      when the name is all white space. */
  function FirstName(name: string): (f: string)
    ensures NoSpace(f)
    ensures f == [] <==> forall i :: 0 <= i < |name| ==> IsSpace(name[i])
  {
    var t := Trim(name);
    var parts := SplitWs(t);
    FirstPieceEmpty(t);
    parts[0]
  }

  /** The first piece of trimmed text is empty only when the text is. */
  lemma FirstPieceEmpty(t: string)
    requires t == [] || !IsSpace(t[0])
    ensures SplitWs(t)[0] == [] <==> t == []
  {
    if t != [] {
      var rest := SplitWs(t[1..]);
      assert SplitWs(t) == [[t[0]] + rest[0]] + rest[1..];
    }
  }

  /** `name.trim().split(/\s+/).slice(1).join(" ") || ""`: the remaining words
      of the name joined by single spaces. */
  function LastName(name: string): (l: string)
    ensures (forall i :: 0 <= i < |name| ==> IsSpace(name[i])) ==> l == []
  {
    JoinWith(SplitWs(Trim(name))[1..], " ")
  }

  /** A name made of words separated by runs of white space and surrounded by
      any white space splits back into its first word and the others, the
      others then joined by single spaces. */
  lemma SplitName(ws: seq<string>, gaps: seq<string>, lead: string, trail: string)
    requires |ws| >= 1 && |gaps| == |ws| - 1
    requires forall i :: 0 <= i < |ws| ==> Word(ws[i])
    requires forall i :: 0 <= i < |gaps| ==> Gap(gaps[i])
    requires forall i :: 0 <= i < |lead| ==> IsSpace(lead[i])
    requires forall i :: 0 <= i < |trail| ==> IsSpace(trail[i])
    ensures FirstName(lead + Spaced(ws, gaps) + trail) == ws[0]
    ensures LastName(lead + Spaced(ws, gaps) + trail) == JoinWith(ws[1..], " ")
  {
    var j := Spaced(ws, gaps);
    SpacedWordsEnds(ws, gaps);
    TrimPadded(lead, j, trail);
    SplitSpaced(ws, gaps);
  }

  /** Trimming removes white space around text that has none at its ends. */
  lemma TrimPadded(lead: string, j: string, trail: string)
    requires j != [] && !IsSpace(j[0]) && !IsSpace(j[|j| - 1])
    requires forall i :: 0 <= i < |lead| ==> IsSpace(lead[i])
    requires forall i :: 0 <= i < |trail| ==> IsSpace(trail[i])
    ensures Trim(lead + j + trail) == j
  {
    DropLead(lead, j + trail);
    assert lead + j + trail == lead + (j + trail);
    DropTrail(j, trail);
  }

  /** The user record the hook receives and edits in place. */
  class NewUser {
    var fname: Field
    var lname: Field
    var name: Field

    constructor (fname: Field, lname: Field, name: Field)
      ensures this.fname == fname && this.lname == lname && this.name == name
    {
      this.fname := fname;
      this.lname := lname;
      this.name := name;
    }

    /** `hooks.user.create.before`: a missing first or last name is taken from
        the display name when there is one; a name already given is kept; and
        afterwards both names are strings, "" when nothing supplied them. */
    method BeforeCreate()
      modifies this`fname, this`lname
      ensures Truthy(old(fname)) ==> fname == old(fname)
      ensures Truthy(old(lname)) ==> lname == old(lname)
      ensures !Truthy(old(fname)) ==> fname == Str(if Truthy(name) then FirstName(name.s) else "")
      ensures !Truthy(old(lname)) ==> lname == Str(if Truthy(name) then LastName(name.s) else "")
      ensures fname.Str? && lname.Str?
    {
      if (!Truthy(fname) || !Truthy(lname)) && Truthy(name) {
        if !Truthy(fname) {
          fname := Str(FirstName(name.s));
        }
        if !Truthy(lname) {
          lname := Str(LastName(name.s));
        }
      }
      fname := if Truthy(fname) then fname else Str("");
      lname := if Truthy(lname) then lname else Str("");
    }
  }
}
