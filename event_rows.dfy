/**
 * The event controller of the main server, which talks to the database in SQL
 * and keeps dates as `YYYY-MM-DD` text and times as `HH:MM:SS` text. An event
 * is the row the database returns (or the request body): its twelve named
 * columns, an undefined one standing for a property the object lacks, and any
 * further columns the row carries. The generated event id is not one of them:
 * the table keys rows by it.
 */
module EventRows {
  import opened Common
  import opened Text
  import opened Numerals

  datatype Event = Event(
    owner: Field, detail: Field, img: Field,
    startDate: Field, endDate: Field, startTime: Field, endTime: Field,
    regisStart: Field, regisEnd: Field,
    contact: Field, title: Field, location: Field,
    rest: map<string, Field>)

  datatype Column =
    Owner | Detail | Img | StartDate | EndDate | StartTime | EndTime | RegisStart | RegisEnd | Contact | Title | Location

  function ColumnName(c: Column): string {
    match c
    case Owner => "eventowner"
    case Detail => "eventdetail"
    case Img => "eventimg"
    case StartDate => "eventstartdate"
    case EndDate => "eventenddate"
    case StartTime => "eventstarttime"
    case EndTime => "eventendtime"
    case RegisStart => "regisstart"
    case RegisEnd => "regisend"
    case Contact => "contact"
    case Title => "eventtitle"
    case Location => "eventlocation"
  }

  /** The value of one named column. */
  function At(e: Event, c: Column): Field {
    match c
    case Owner => e.owner
    case Detail => e.detail
    case Img => e.img
    case StartDate => e.startDate
    case EndDate => e.endDate
    case StartTime => e.startTime
    case EndTime => e.endTime
    case RegisStart => e.regisStart
    case RegisEnd => e.regisEnd
    case Contact => e.contact
    case Title => e.title
    case Location => e.location
  }

  predicate IsDateColumn(c: Column) {
    c == StartDate || c == EndDate || c == RegisStart || c == RegisEnd
  }

  predicate IsTimeColumn(c: Column) {
    c == StartTime || c == EndTime
  }

  /** A column that `formatEventDates` rewrites. */
  predicate IsFormatted(c: Column) {
    IsDateColumn(c) || IsTimeColumn(c)
  }

  /** `formatDate`: text holding a `T` is cut at the first `T`; anything else,
      falsy values included, is returned as it is. */
  function FormatDate(v: Field): (r: Field)
    ensures !Truthy(v) || 'T' !in v.s ==> r == v
    ensures Truthy(v) && 'T' in v.s ==>
      r.Str? && |r.s| < |v.s| && r.s == v.s[..|r.s|] && v.s[|r.s|] == 'T' && 'T' !in r.s
  {
    if Truthy(v) && 'T' in v.s then Str(Before(v.s, 'T')) else v
  }

  /** `formatTime`: text holding a `T` becomes the text after the first `T`,
      up to the next `T` or the first `.`; anything else is returned as it is. */
  function FormatTime(v: Field): (r: Field)
    ensures !Truthy(v) || 'T' !in v.s ==> r == v
    ensures Truthy(v) && 'T' in v.s ==>
      var q := After(v.s, 'T');
      && r.Str? && |r.s| <= |q| && r.s == q[..|r.s|] && 'T' !in r.s && '.' !in r.s
      && (|r.s| == |q| || q[|r.s|] == 'T' || q[|r.s|] == '.')
  {
    if Truthy(v) && 'T' in v.s then
      var q := After(v.s, 'T');
      var p := Before(q, 'T');
      PrefixLacks(p, Before(p, '.'), 'T');
      Str(Before(p, '.'))
    else v
  }

  lemma FormatDateIdempotent(v: Field)
    ensures FormatDate(FormatDate(v)) == FormatDate(v)
  {
  }

  lemma FormatTimeIdempotent(v: Field)
    ensures FormatTime(FormatTime(v)) == FormatTime(v)
  {
  }

  /** One column of a formatted event. */
  function Formatted(v: Field, c: Column): Field {
    if IsDateColumn(c) then FormatDate(v) else if IsTimeColumn(c) then FormatTime(v) else v
  }

  /** `formatEventDates`: a missing event (None) is returned as it is; otherwise
      the four date and two time columns are formatted, and every other column
      is copied. */
  function FormatEventDates(ev: Option<Event>): (r: Option<Event>)
    ensures ev.None? <==> r.None?
    ensures ev.Some? ==> r.value.rest == ev.value.rest
    ensures ev.Some? ==> forall c :: At(r.value, c) == Formatted(At(ev.value, c), c)
  {
    match ev
    case None => None
    case Some(e) =>
      Some(e.(
        startDate := FormatDate(e.startDate), endDate := FormatDate(e.endDate),
        regisStart := FormatDate(e.regisStart), regisEnd := FormatDate(e.regisEnd),
        startTime := FormatTime(e.startTime), endTime := FormatTime(e.endTime)))
  }

  /** Two events that agree on every column and on the further ones are the
      same event. */
  lemma EventEq(a: Event, b: Event)
    requires a.rest == b.rest && forall c :: At(a, c) == At(b, c)
    ensures a == b
  {
    assert At(a, Owner) == At(b, Owner) && At(a, Detail) == At(b, Detail) && At(a, Img) == At(b, Img);
    assert At(a, StartDate) == At(b, StartDate) && At(a, EndDate) == At(b, EndDate);
    assert At(a, StartTime) == At(b, StartTime) && At(a, EndTime) == At(b, EndTime);
    assert At(a, RegisStart) == At(b, RegisStart) && At(a, RegisEnd) == At(b, RegisEnd);
    assert At(a, Contact) == At(b, Contact) && At(a, Title) == At(b, Title) && At(a, Location) == At(b, Location);
  }

  /** Formatting an already formatted event changes nothing. */
  lemma FormatEventDatesIdempotent(ev: Option<Event>)
    ensures FormatEventDates(FormatEventDates(ev)) == FormatEventDates(ev)
  {
    if ev.Some? {
      var once := FormatEventDates(ev).value;
      var twice := FormatEventDates(Some(once)).value;
      forall c
        ensures At(twice, c) == At(once, c)
      {
        FormatDateIdempotent(At(ev.value, c));
        FormatTimeIdempotent(At(ev.value, c));
      }
      EventEq(twice, once);
    }
  }

  /** The pattern `^\d{2}:\d{2}(:\d{2})?$`: `HH:MM` or `HH:MM:SS` in ASCII digits. */
  predicate IsClock(s: string) {
    && (|s| == 5 || (|s| == 8 && s[5] == ':' && IsDigit(s[6]) && IsDigit(s[7])))
    && IsDigit(s[0]) && IsDigit(s[1]) && s[2] == ':' && IsDigit(s[3]) && IsDigit(s[4])
  }

  /** A clock text given as `HH:MM` gets zero seconds; `HH:MM:SS` is kept. */
  function NormalizeClock(s: string): (r: string)
    requires IsClock(s)
    ensures |r| == 8
    ensures |s| == 5 ==> r == s + ":00"
    ensures |s| == 8 ==> r == s
  {
    if |s| == 5 then s + ":00" else s
  }

  /** Normalised clock text is `HH:MM:SS` clock text with the hours and minutes
      given, and normalising it again changes nothing. */
  lemma NormalizeClockIdempotent(s: string)
    requires IsClock(s)
    ensures var r := NormalizeClock(s);
      IsClock(r) && r[..5] == s[..5] && NormalizeClock(r) == r
  {
    var r := NormalizeClock(s);
    if |s| == 5 {
      assert r[5] == ':' && r[6] == '0' && r[7] == '0';
    }
  }

  /** `new Date(text).toISOString()`, None for an Invalid Date. */
  type Clock = string -> Option<string>

  /** An ISO timestamp always has a `T` between its date and its time. */
  ghost predicate IsoShaped(toIso: Clock) {
    forall s :: toIso(s).Some? ==> 'T' in toIso(s).value
  }

  /** `toISOString().split('T')[0]`. */
  function IsoDay(iso: string): (d: string)
    ensures |d| <= |iso| && d == iso[..|d|] && 'T' !in d
    ensures CutAt(d, iso, {'T'})
  {
    BeforeCuts(iso, 'T');
    Before(iso, 'T')
  }

  /** `toISOString().split('T')[1].split('.')[0]`: the text after the first
      `T` up to the next `T` or `.`, or to the end. */
  function IsoClock(iso: string): (t: string)
    requires 'T' in iso
    ensures 'T' !in t && '.' !in t
    ensures CutAt(t, After(iso, 'T'), {'T', '.'})
  {
    var p := SecondPiece(iso, 'T');
    PrefixLacks(p, Before(p, '.'), 'T');
    BeforeCuts(p, '.');
    CutTwice(Before(p, '.'), p, After(iso, 'T'), {'T'}, {'.'});
    Before(p, '.')
  }

  /** `v` is the day text `toISOString().split('T')[0]` of the date given as `g`. */
  predicate DayOf(v: Field, g: Field, toIso: Clock) {
    g.Str? && toIso(g.s).Some? && v.Str? && CutAt(v.s, toIso(g.s).value, {'T'})
  }

  /** `v` is the clock text `toISOString().split('T')[1].split('.')[0]` of the
      time given as `g`. */
  predicate ClockOf(v: Field, g: Field, toIso: Clock) {
    && g.Str? && toIso(g.s).Some? && 'T' in toIso(g.s).value
    && v.Str? && CutAt(v.s, After(toIso(g.s).value, 'T'), {'T', '.'})
  }

  /** A given date has only one day text. */
  lemma DayOfUnique(v: Field, w: Field, g: Field, toIso: Clock)
    requires DayOf(v, g, toIso) && DayOf(w, g, toIso)
    ensures v == w
  {
    CutAtUnique(v.s, w.s, toIso(g.s).value, {'T'});
  }

  /** A given time has only one clock text. */
  lemma ClockOfUnique(v: Field, w: Field, g: Field, toIso: Clock)
    requires ClockOf(v, g, toIso) && ClockOf(w, g, toIso)
    ensures v == w
  {
    CutAtUnique(v.s, w.s, After(toIso(g.s).value, 'T'), {'T', '.'});
  }

  /** The day text of a timestamp is exactly its cut at the first `T`. */
  lemma IsoDayIsCut(iso: string, d: string)
    requires CutAt(d, iso, {'T'})
    ensures IsoDay(iso) == d
  {
    CutAtUnique(IsoDay(iso), d, iso, {'T'});
  }

  /** The clock text of a timestamp is exactly the cut, at the next `T` or
      `.`, of the text after its first `T`. */
  lemma IsoClockIsCut(iso: string, t: string)
    requires 'T' in iso && CutAt(t, After(iso, 'T'), {'T', '.'})
    ensures IsoClock(iso) == t
  {
    CutAtUnique(IsoClock(iso), t, After(iso, 'T'), {'T', '.'});
  }

  /** The day text of a timestamp as `toISOString` prints it. */
  lemma IsoDayExample()
    ensures IsoDay("2026-01-20T09:30:00.000Z") == "2026-01-20"
  {
    var iso := "2026-01-20T09:30:00.000Z";
    var d := "2026-01-20";
    assert iso[..10] == d && iso[10] == 'T';
    IsoDayIsCut(iso, d);
  }

  /** `x !== undefined ? x : existing.x`. */
  function Keep(given: Field, existing: Field): (v: Field)
    ensures given != Undefined ==> v == given
    ensures given == Undefined ==> v == existing
  {
    if given != Undefined then given else existing
  }

  /** A date given in an update is usable when it is falsy or a valid date. */
  predicate DateOk(given: Field, toIso: Clock) {
    !Truthy(given) || toIso(given.s).Some?
  }

  /** A time given in an update is usable when it is falsy, clock text or a
      valid date. */
  predicate TimeOk(given: Field, toIso: Clock) {
    !Truthy(given) || IsClock(given.s) || toIso(given.s).Some?
  }

  /** The value an update writes into a date column. */
  function NewDate(given: Field, existing: Field, toIso: Clock): (v: Field)
    requires DateOk(given, toIso)
    ensures !Truthy(given) ==> v == existing
    ensures Truthy(given) ==> v.Str? && 'T' !in v.s
    ensures Truthy(given) ==> DayOf(v, given, toIso)
  {
    if Truthy(given) then Str(IsoDay(toIso(given.s).value)) else existing
  }

  /** The value an update writes into a time column. */
  function NewTime(given: Field, existing: Field, toIso: Clock): (v: Field)
    requires IsoShaped(toIso) && TimeOk(given, toIso)
    ensures !Truthy(given) ==> v == existing
    ensures Truthy(given) && IsClock(given.s) ==> v == Str(NormalizeClock(given.s))
    ensures Truthy(given) && !IsClock(given.s) ==> ClockOf(v, given, toIso)
    ensures Truthy(given) ==> v.Str? && 'T' !in v.s
  {
    if !Truthy(given) then existing
    else if IsClock(given.s) then Str(NormalizeClock(given.s))
    else Str(IsoClock(toIso(given.s).value))
  }

  /** The position of a date or time column in the order the update checks
      them; every other column comes after those six. */
  function Rank(c: Column): nat {
    match c
    case StartDate => 0
    case EndDate => 1
    case RegisStart => 2
    case RegisEnd => 3
    case StartTime => 4
    case EndTime => 5
    case _ => 6
  }

  /** The first date or time column, in the order the update checks them,
      whose given value cannot be used. */
  function FirstInvalid(body: Event, toIso: Clock): (c: Option<Column>)
    ensures c.Some? ==> IsFormatted(c.value)
    ensures c.Some? ==> if IsDateColumn(c.value) then !DateOk(At(body, c.value), toIso) else !TimeOk(At(body, c.value), toIso)
    ensures c.Some? ==> forall d :: IsFormatted(d) && Rank(d) < Rank(c.value) ==>
      if IsDateColumn(d) then DateOk(At(body, d), toIso) else TimeOk(At(body, d), toIso)
    ensures c.None? <==> Usable(body, toIso)
  {
    if !DateOk(body.startDate, toIso) then Some(StartDate)
    else if !DateOk(body.endDate, toIso) then Some(EndDate)
    else if !DateOk(body.regisStart, toIso) then Some(RegisStart)
    else if !DateOk(body.regisEnd, toIso) then Some(RegisEnd)
    else if !TimeOk(body.startTime, toIso) then Some(StartTime)
    else if !TimeOk(body.endTime, toIso) then Some(EndTime)
    else None
  }

  /** Every date and time the body gives can be used. */
  predicate Usable(body: Event, toIso: Clock) {
    && DateOk(body.startDate, toIso) && DateOk(body.endDate, toIso)
    && DateOk(body.regisStart, toIso) && DateOk(body.regisEnd, toIso)
    && TimeOk(body.startTime, toIso) && TimeOk(body.endTime, toIso)
  }

  /** The row an update with usable dates and times writes. */
  function Merge(existing: Event, body: Event, toIso: Clock): (m: Event)
    requires IsoShaped(toIso) && Usable(body, toIso)
    ensures m.rest == existing.rest
  {
    existing.(
      owner := Keep(body.owner, existing.owner),
      detail := Keep(body.detail, existing.detail),
      img := Keep(body.img, existing.img),
      contact := Keep(body.contact, existing.contact),
      title := Keep(body.title, existing.title),
      location := Keep(body.location, existing.location),
      startDate := NewDate(body.startDate, existing.startDate, toIso),
      endDate := NewDate(body.endDate, existing.endDate, toIso),
      regisStart := NewDate(body.regisStart, existing.regisStart, toIso),
      regisEnd := NewDate(body.regisEnd, existing.regisEnd, toIso),
      startTime := NewTime(body.startTime, existing.startTime, toIso),
      endTime := NewTime(body.endTime, existing.endTime, toIso))
  }

  /** What one column of an update is. */
  lemma MergedAt(existing: Event, body: Event, toIso: Clock, c: Column)
    requires IsoShaped(toIso) && Usable(body, toIso)
    ensures var v := At(Merge(existing, body, toIso), c);
      && (!IsFormatted(c) && At(body, c) != Undefined ==> v == At(body, c))
      && (!IsFormatted(c) && At(body, c) == Undefined ==> v == At(existing, c))
      && (IsFormatted(c) && !Truthy(At(body, c)) ==> v == At(existing, c))
      && (IsFormatted(c) && Truthy(At(body, c)) ==> v.Str? && 'T' !in v.s)
      && (IsTimeColumn(c) && Truthy(At(body, c)) && IsClock(At(body, c).s) ==> v == Str(NormalizeClock(At(body, c).s)))
      && (IsDateColumn(c) && Truthy(At(body, c)) ==> DayOf(v, At(body, c), toIso))
      && (IsTimeColumn(c) && Truthy(At(body, c)) && !IsClock(At(body, c).s) ==> ClockOf(v, At(body, c), toIso))
  {
  }

  /** What an update writes: a column the body leaves undefined (a date or
      time column: falsy) keeps its stored value, a plain column given is
      written verbatim, a given date or time is written without its `T`, clock
      text as `HH:MM:SS`, and the further columns do not change. */
  lemma MergeWrites(existing: Event, body: Event, toIso: Clock)
    requires IsoShaped(toIso) && Usable(body, toIso)
    ensures var m := Merge(existing, body, toIso);
      && m.rest == existing.rest
      && (forall c :: !IsFormatted(c) && At(body, c) != Undefined ==> At(m, c) == At(body, c))
      && (forall c :: !IsFormatted(c) && At(body, c) == Undefined ==> At(m, c) == At(existing, c))
      && (forall c :: IsFormatted(c) && !Truthy(At(body, c)) ==> At(m, c) == At(existing, c))
      && (forall c :: IsFormatted(c) && Truthy(At(body, c)) ==> At(m, c).Str? && 'T' !in At(m, c).s)
      && (forall c :: IsTimeColumn(c) && Truthy(At(body, c)) && IsClock(At(body, c).s) ==>
            At(m, c) == Str(NormalizeClock(At(body, c).s)))
      && (forall c :: IsDateColumn(c) && Truthy(At(body, c)) ==> DayOf(At(m, c), At(body, c), toIso))
      && (forall c :: IsTimeColumn(c) && Truthy(At(body, c)) && !IsClock(At(body, c).s) ==>
            ClockOf(At(m, c), At(body, c), toIso))
  {
    forall c {
      MergedAt(existing, body, toIso, c);
    }
  }

  /** An update whose body gives nothing leaves the row as it is. */
  lemma MergeEmptyBody(existing: Event, toIso: Clock)
    requires IsoShaped(toIso)
    ensures Usable(Nothing(), toIso)
    ensures Merge(existing, Nothing(), toIso) == existing
  {
    var m := Merge(existing, Nothing(), toIso);
    forall c
      ensures At(m, c) == At(existing, c)
    {
      MergedAt(existing, Nothing(), toIso, c);
    }
    EventEq(m, existing);
  }

  /** A body that gives no column. */
  function Nothing(): (e: Event)
    ensures forall c :: At(e, c) == Undefined
  {
    Event(Undefined, Undefined, Undefined, Undefined, Undefined, Undefined, Undefined,
          Undefined, Undefined, Undefined, Undefined, Undefined, map[])
  }

  /** All six date and time fields of a create are given. */
  predicate AllGiven(body: Event) {
    && Truthy(body.startDate) && Truthy(body.endDate) && Truthy(body.startTime)
    && Truthy(body.endTime) && Truthy(body.regisStart) && Truthy(body.regisEnd)
  }

  /** All four dates of a create are valid. */
  predicate DatesValid(body: Event, toIso: Clock) {
    && DateOk(body.startDate, toIso) && DateOk(body.endDate, toIso)
    && DateOk(body.regisStart, toIso) && DateOk(body.regisEnd, toIso)
  }

  /** Both times of a create are usable. */
  predicate TimesValid(body: Event, toIso: Clock) {
    TimeOk(body.startTime, toIso) && TimeOk(body.endTime, toIso)
  }

  /** A value passed as a query parameter: undefined is sent as null. */
  function Stored(v: Field): (s: Field)
    ensures s != Undefined
    ensures v != Undefined ==> s == v
  {
    if v == Undefined then Null else v
  }

  /** The row a create with six usable date and time fields inserts. */
  function Created(body: Event, toIso: Clock): (row: Event)
    requires IsoShaped(toIso) && DatesValid(body, toIso) && TimesValid(body, toIso)
    ensures row.rest == map[]
  {
    Event(
      Stored(body.owner), Stored(body.detail), Stored(body.img),
      NewDate(body.startDate, Null, toIso), NewDate(body.endDate, Null, toIso),
      NewTime(body.startTime, Null, toIso), NewTime(body.endTime, Null, toIso),
      NewDate(body.regisStart, Null, toIso), NewDate(body.regisEnd, Null, toIso),
      Stored(body.contact), Stored(body.title), Stored(body.location),
      map[])
  }

  /** What one column of a create is. */
  lemma CreatedAt(body: Event, toIso: Clock, c: Column)
    requires IsoShaped(toIso) && AllGiven(body) && DatesValid(body, toIso) && TimesValid(body, toIso)
    ensures var v := At(Created(body, toIso), c);
      && (!IsFormatted(c) ==> v == Stored(At(body, c)))
      && (IsFormatted(c) ==> v.Str? && 'T' !in v.s)
      && (IsTimeColumn(c) && IsClock(At(body, c).s) ==> v == Str(NormalizeClock(At(body, c).s)))
      && (IsDateColumn(c) ==> DayOf(v, At(body, c), toIso))
      && (IsTimeColumn(c) && !IsClock(At(body, c).s) ==> ClockOf(v, At(body, c), toIso))
  {
    if IsTimeColumn(c) {
      CreatedTime(body, toIso, c);
    } else if IsDateColumn(c) {
      CreatedDate(body, toIso, c);
    } else {
      CreatedPlain(body, toIso, c);
    }
  }

  /** A time column of a create: time text without a `T`, and clock text as
      `HH:MM:SS`. */
  lemma CreatedTime(body: Event, toIso: Clock, c: Column)
    requires IsoShaped(toIso) && AllGiven(body) && DatesValid(body, toIso) && TimesValid(body, toIso)
    requires IsTimeColumn(c)
    ensures var v := At(Created(body, toIso), c);
      && v.Str? && 'T' !in v.s
      && (IsClock(At(body, c).s) ==> v == Str(NormalizeClock(At(body, c).s)))
      && (!IsClock(At(body, c).s) ==> ClockOf(v, At(body, c), toIso))
  {
    var row := Created(body, toIso);
    if c == StartTime {
      assert At(row, c) == NewTime(body.startTime, Null, toIso);
      CreatedTimeOf(body.startTime, toIso);
    } else {
      assert At(row, c) == NewTime(body.endTime, Null, toIso);
      CreatedTimeOf(body.endTime, toIso);
    }
  }

  /** The time a create stores for one given time text. */
  lemma CreatedTimeOf(g: Field, toIso: Clock)
    requires IsoShaped(toIso) && Truthy(g) && TimeOk(g, toIso)
    ensures var v := NewTime(g, Null, toIso);
      && v.Str? && 'T' !in v.s
      && (IsClock(g.s) ==> v == Str(NormalizeClock(g.s)))
      && (!IsClock(g.s) ==> ClockOf(v, g, toIso))
  {
  }

  /** A date column of a create: day text without a `T`. */
  lemma CreatedDate(body: Event, toIso: Clock, c: Column)
    requires IsoShaped(toIso) && AllGiven(body) && DatesValid(body, toIso) && TimesValid(body, toIso)
    requires IsDateColumn(c)
    ensures var v := At(Created(body, toIso), c); v.Str? && 'T' !in v.s && DayOf(v, At(body, c), toIso)
  {
  }

  /** Any other column of a create: the given value, undefined as null. */
  lemma CreatedPlain(body: Event, toIso: Clock, c: Column)
    requires IsoShaped(toIso) && DatesValid(body, toIso) && TimesValid(body, toIso)
    requires !IsFormatted(c)
    ensures At(Created(body, toIso), c) == Stored(At(body, c))
  {
  }

  /** What a create inserts: dates as day text and times as clock text, both
      without a `T`, clock text as `HH:MM:SS`, and every other column as given
      (undefined as null). */
  lemma CreatedHolds(body: Event, toIso: Clock)
    requires IsoShaped(toIso) && AllGiven(body) && DatesValid(body, toIso) && TimesValid(body, toIso)
    ensures var row := Created(body, toIso);
      && (forall c :: !IsFormatted(c) ==> At(row, c) == Stored(At(body, c)))
      && (forall c :: IsFormatted(c) ==> At(row, c).Str? && 'T' !in At(row, c).s)
      && (IsClock(body.startTime.s) ==> row.startTime == Str(NormalizeClock(body.startTime.s)))
      && (IsClock(body.endTime.s) ==> row.endTime == Str(NormalizeClock(body.endTime.s)))
      && (forall c :: IsDateColumn(c) ==> DayOf(At(row, c), At(body, c), toIso))
      && (!IsClock(body.startTime.s) ==> ClockOf(row.startTime, body.startTime, toIso))
      && (!IsClock(body.endTime.s) ==> ClockOf(row.endTime, body.endTime, toIso))
  {
    forall c {
      CreatedAt(body, toIso, c);
    }
    CreatedAt(body, toIso, StartTime);
    CreatedAt(body, toIso, EndTime);
  }

  /** A created row is already in the format the reply uses: formatting it
      changes nothing. */
  lemma CreatedIsFormatted(body: Event, toIso: Clock)
    requires IsoShaped(toIso) && AllGiven(body) && DatesValid(body, toIso) && TimesValid(body, toIso)
    ensures FormatEventDates(Some(Created(body, toIso))) == Some(Created(body, toIso))
  {
    var row := Created(body, toIso);
    CreatedHolds(body, toIso);
    var f := FormatEventDates(Some(row)).value;
    forall c
      ensures At(f, c) == At(row, c)
    {
    }
    EventEq(f, row);
  }

  /** The time a create stores, as written: whatever `new Date` makes of the
      given text, so clock text is refused although the create means to accept
      it as the update does. */
  function CreateTimeAsWritten(given: string, toIso: Clock): (t: Option<string>)
    requires IsoShaped(toIso)
    ensures t.Some? <==> toIso(given).Some?
    ensures t.Some? ==> 'T' !in t.value
    ensures t.Some? ==> ClockOf(Str(t.value), Str(given), toIso)
  {
    if toIso(given).Some? then Some(IsoClock(toIso(given).value)) else None
  }

  /** `10:00`, refused by `new Date`, fails the create as written, while the
      update's rule, which the create here follows, stores `10:00:00`. */
  lemma ClockTextOnCreate(toIso: Clock)
    requires IsoShaped(toIso) && toIso("10:00").None?
    ensures CreateTimeAsWritten("10:00", toIso).None?
    ensures TimeOk(Str("10:00"), toIso) && NewTime(Str("10:00"), Null, toIso) == Str("10:00:00")
  {
    assert IsClock("10:00") by {
      var s := "10:00";
      assert s[0] == '1' && s[1] == '0' && s[2] == ':' && s[3] == '0' && s[4] == '0';
    }
  }

  /** The integer `eventowner` column takes null, or text the database casts to
      an integer; any other text makes the statement fail. */
  predicate OwnerCasts(v: Field) {
    v.Str? ==> SqlInt(v.s).Some?
  }

  /** The main server's events table. */
  class EventTable {
    var rows: map<int, Event>
    /** The id the next created event gets. */
    var nextId: int

    ghost predicate Valid()
      reads this
    {
      forall id :: id in rows ==> id < nextId && OwnerCasts(rows[id].owner)
    }

    /** `PUT /events/:eventId`: the event must exist; the first unusable date
        or time, in the order start date, end date, registration start and end,
        start time, end time, is a 400 naming it and writes nothing; otherwise
        the merged row is written and returned, formatted. An id that is not an
        integer fails the first query, and an owner that is not one fails the
        update, both with a 500. */
    method UpdateEvent(eventId: string, body: Event, toIso: Clock) returns (r: Reply, event: Option<Event>)
      requires Valid() && IsoShaped(toIso)
      modifies this`rows
      ensures Valid()
      ensures SqlInt(eventId).None? ==> r == Fail(500, "Failed to update event") && event.None? && rows == old(rows)
      ensures SqlInt(eventId).Some? && SqlInt(eventId).value !in old(rows) ==>
        r == Fail(404, "Event not found") && event.None? && rows == old(rows)
      ensures SqlInt(eventId).Some? && SqlInt(eventId).value in old(rows) && FirstInvalid(body, toIso).Some? ==>
        && r == Fail(400, "Invalid " + ColumnName(FirstInvalid(body, toIso).value) + " format")
        && event.None? && rows == old(rows)
      ensures SqlInt(eventId).Some? && SqlInt(eventId).value in old(rows) && FirstInvalid(body, toIso).None? ==>
        var id := SqlInt(eventId).value;
        var row := Merge(old(rows)[id], body, toIso);
        if !OwnerCasts(row.owner) then
          r == Fail(500, "Failed to update event") && event.None? && rows == old(rows)
        else
          && rows == old(rows)[id := row]
          && r == Ok(200) && event == FormatEventDates(Some(row))
    {
      var id := SqlInt(eventId);
      if id.None? {
        return Fail(500, "Failed to update event"), None;
      }
      if id.value !in rows {
        return Fail(404, "Event not found"), None;
      }
      var existing := rows[id.value];
      if !DateOk(body.startDate, toIso) {
        return Fail(400, "Invalid " + ColumnName(StartDate) + " format"), None;
      }
      if !DateOk(body.endDate, toIso) {
        return Fail(400, "Invalid " + ColumnName(EndDate) + " format"), None;
      }
      if !DateOk(body.regisStart, toIso) {
        return Fail(400, "Invalid " + ColumnName(RegisStart) + " format"), None;
      }
      if !DateOk(body.regisEnd, toIso) {
        return Fail(400, "Invalid " + ColumnName(RegisEnd) + " format"), None;
      }
      if !TimeOk(body.startTime, toIso) {
        return Fail(400, "Invalid " + ColumnName(StartTime) + " format"), None;
      }
      if !TimeOk(body.endTime, toIso) {
        return Fail(400, "Invalid " + ColumnName(EndTime) + " format"), None;
      }
      var row := Merge(existing, body, toIso);
      if !OwnerCasts(row.owner) {
        return Fail(500, "Failed to update event"), None;
      }
      rows := rows[id.value := row];
      r, event := Ok(200), FormatEventDates(Some(row));
    }

    /** `POST /events`: all six date and time fields are required, the four
        dates must be valid and then the two times; an owner the integer column
        cannot take fails the insert with a 500; otherwise the new row gets the
        next id and is returned, already formatted. */
    method CreateEvent(body: Event, toIso: Clock) returns (r: Reply, event: Option<Event>)
      requires Valid() && IsoShaped(toIso)
      modifies this`rows, this`nextId
      ensures Valid()
      ensures !AllGiven(body) ==>
        r == Fail(400, "Missing required date/time fields") && event.None? && rows == old(rows) && nextId == old(nextId)
      ensures AllGiven(body) && !DatesValid(body, toIso) ==>
        r == Fail(400, "Invalid date format") && event.None? && rows == old(rows) && nextId == old(nextId)
      ensures AllGiven(body) && DatesValid(body, toIso) && !TimesValid(body, toIso) ==>
        r == Fail(400, "Invalid time format") && event.None? && rows == old(rows) && nextId == old(nextId)
      ensures AllGiven(body) && DatesValid(body, toIso) && TimesValid(body, toIso) && !OwnerCasts(body.owner) ==>
        r == Fail(500, "Failed to create event") && event.None? && rows == old(rows) && nextId == old(nextId)
      ensures AllGiven(body) && DatesValid(body, toIso) && TimesValid(body, toIso) && OwnerCasts(body.owner) ==>
        && r == Ok(201) && nextId == old(nextId) + 1 && old(nextId) !in old(rows)
        && rows == old(rows)[old(nextId) := Created(body, toIso)]
        && event == Some(Created(body, toIso))
    {
      if !Truthy(body.startDate) || !Truthy(body.endDate) || !Truthy(body.startTime) ||
         !Truthy(body.endTime) || !Truthy(body.regisStart) || !Truthy(body.regisEnd) {
        return Fail(400, "Missing required date/time fields"), None;
      }
      if toIso(body.startDate.s).None? || toIso(body.endDate.s).None? ||
         toIso(body.regisStart.s).None? || toIso(body.regisEnd.s).None? {
        return Fail(400, "Invalid date format"), None;
      }
      if !TimeOk(body.startTime, toIso) || !TimeOk(body.endTime, toIso) {
        return Fail(400, "Invalid time format"), None;
      }
      if !OwnerCasts(body.owner) {
        return Fail(500, "Failed to create event"), None;
      }
      var row := Created(body, toIso);
      rows := rows[nextId := row];
      nextId := nextId + 1;
      CreatedIsFormatted(body, toIso);
      r, event := Ok(201), FormatEventDates(Some(row));
    }
  }
}
