/**
 * Decimal numerals: the text a template literal gives a count (`$${n}`), and
 * `parseInt` applied to an id taken from a query string or a request body.
 */
module Numerals {
  import opened Common
  import opened Text

  predicate IsDigit(c: char) {
    '0' <= c <= '9'
  }

  predicate AllDigits(s: string) {
    forall i :: 0 <= i < |s| ==> IsDigit(s[i])
  }

  function DigitChar(d: nat): char
    requires d < 10
  {
    ('0' as int + d) as char
  }

  function DigitValue(c: char): nat
    requires IsDigit(c)
  {
    c as int - '0' as int
  }

  /** The decimal text of `n`: digits only, with no leading zero unless `n` is 0. */
  function NatStr(n: nat): (s: string)
    ensures s != [] && AllDigits(s)
    ensures (s[0] == '0') == (n == 0)
  {
    if n < 10 then [DigitChar(n)] else NatStr(n / 10) + [DigitChar(n % 10)]
  }

  /** The value of a run of decimal digits, most significant first. */
  function DigitsValue(s: string): nat
    requires AllDigits(s)
  {
    if s == [] then 0 else DigitsValue(s[..|s| - 1]) * 10 + DigitValue(s[|s| - 1])
  }

  /** The longest prefix of `s` made of digits. */
  function TakeDigits(s: string): (d: string)
    ensures AllDigits(d) && |d| <= |s| && d == s[..|d|]
    ensures |d| < |s| ==> !IsDigit(s[|d|])
  {
    if s != [] && IsDigit(s[0]) then [s[0]] + TakeDigits(s[1..]) else []
  }

  /** Whether numeric text after its leading white space carries a minus sign. */
  predicate Negative(t: string) {
    t != [] && t[0] == '-'
  }

  /** The text after one leading sign character, if there is one. */
  function Unsigned(t: string): (u: string)
    ensures u == t || (t != [] && (t[0] == '-' || t[0] == '+') && u == t[1..])
  {
    if t != [] && (t[0] == '-' || t[0] == '+') then t[1..] else t
  }

  function Signed(negative: bool, v: nat): int {
    if negative then -(v as int) else v
  }

  /** `parseInt(s)` on decimal text: leading white space, an optional sign, then
      the longest run of digits; text with no such digit is NaN (None). */
  function ParseInt(s: string): Option<int>
  {
    var t := DropSpaces(s);
    var d := TakeDigits(Unsigned(t));
    if d == [] then None else Some(Signed(Negative(t), DigitsValue(d)))
  }

  lemma {:induction false} NatStrValue(n: nat)
    ensures DigitsValue(NatStr(n)) == n
  {
    if n >= 10 {
      NatStrValue(n / 10);
      var s := NatStr(n);
      assert s[..|s| - 1] == NatStr(n / 10);
    }
  }

  lemma {:induction false} TakeAllDigits(s: string)
    requires AllDigits(s)
    ensures TakeDigits(s) == s
  {
    if s != [] {
      TakeAllDigits(s[1..]);
    }
  }

  /** `parseInt` reads back the numeral a template literal writes. */
  lemma ParseNatStr(n: nat)
    ensures ParseInt(NatStr(n)) == Some(n)
  {
    var s := NatStr(n);
    assert !IsSpace(s[0]);
    assert DropSpaces(s) == s;
    TakeAllDigits(s);
    NatStrValue(n);
  }

  /** Distinct counts give distinct placeholders. */
  lemma NatStrInjective(m: nat, n: nat)
    requires NatStr(m) == NatStr(n)
    ensures m == n
  {
    ParseNatStr(m);
    ParseNatStr(n);
  }

  /** A digit run followed by something that is not a digit is read up to its end. */
  lemma {:induction false} TakeDigitsOf(d: string, rest: string)
    requires AllDigits(d)
    requires rest == [] || !IsDigit(rest[0])
    ensures TakeDigits(d + rest) == d
  {
    if d == [] {
      assert d + rest == rest;
    } else {
      TakeDigitsOf(d[1..], rest);
      assert (d + rest)[1..] == d[1..] + rest;
      assert [d[0]] + d[1..] == d;
    }
  }

  /** What the database makes of text passed where an integer is expected:
      white space around an optionally signed, non-empty run of digits and
      nothing else; any other text is an error (None). */
  function SqlInt(s: string): (r: Option<int>)
    ensures r.Some? ==> ParseInt(s) == r
  {
    var t := Trim(s);
    var u := Unsigned(t);
    if u != [] && AllDigits(u) then
      ParseAgrees(s);
      Some(Signed(Negative(t), DigitsValue(u)))
    else None
  }

  /** Text the database reads as an integer is read the same way by `parseInt`. */
  lemma ParseAgrees(s: string)
    requires Unsigned(Trim(s)) != [] && AllDigits(Unsigned(Trim(s)))
    ensures ParseInt(s) == Some(Signed(Negative(Trim(s)), DigitsValue(Unsigned(Trim(s)))))
  {
    var l := DropSpaces(s);
    var t := Trim(s);
    TrimIsPrefix(s);
    ParseIntPrefix(s, t, l[|t|..]);
  }

  /** `parseInt` reads a numeral that ends where a non-digit follows. */
  lemma ParseIntPrefix(s: string, t: string, tail: string)
    requires DropSpaces(s) == t + tail && t != []
    requires Unsigned(t) != [] && AllDigits(Unsigned(t))
    requires tail == [] || !IsDigit(tail[0])
    ensures ParseInt(s) == Some(Signed(Negative(t), DigitsValue(Unsigned(t))))
  {
    SignOfAppend(t, tail);
    TakeDigitsOf(Unsigned(t), tail);
  }

  /** Text after a non-empty numeral does not change its sign. */
  lemma SignOfAppend(t: string, tail: string)
    requires t != []
    ensures Negative(t + tail) == Negative(t)
    ensures Unsigned(t + tail) == Unsigned(t) + tail
  {
    assert (t + tail)[0] == t[0];
    if t[0] == '-' || t[0] == '+' {
      assert (t + tail)[1..] == t[1..] + tail;
    }
  }

  /** The database reads back the numeral a template literal writes. */
  lemma SqlIntNatStr(n: nat)
    ensures SqlInt(NatStr(n)) == Some(n)
  {
    var s := NatStr(n);
    assert !IsSpace(s[0]) && !IsSpace(s[|s| - 1]);
    TrimUnspaced(s);
    assert Unsigned(s) == s;
    NatStrValue(n);
  }

  /** `parseInt` accepts a numeral followed by other text, reading the numeral;
      the database refuses the same text. */
  lemma ParseIntLaxerThanSql(n: nat, rest: string)
    requires rest != [] && !IsDigit(rest[0]) && !IsSpace(rest[|rest| - 1])
    ensures ParseInt(NatStr(n) + rest) == Some(n)
    ensures SqlInt(NatStr(n) + rest) == None
  {
    ParseIntReadsNumeral(n, rest);
    SqlIntRefuses(NatStr(n), rest);
  }

  /** `parseInt` reads a numeral followed by text that does not start with a digit. */
  lemma ParseIntReadsNumeral(n: nat, rest: string)
    requires rest == [] || !IsDigit(rest[0])
    ensures ParseInt(NatStr(n) + rest) == Some(n)
  {
    var d := NatStr(n);
    var s := d + rest;
    assert s[0] == d[0];
    assert DropSpaces(s) == s;
    assert Unsigned(d) == d;
    ParseIntPrefix(s, d, rest);
    NatStrValue(n);
  }

  /** The database refuses a numeral followed by a non-digit. */
  lemma SqlIntRefuses(d: string, rest: string)
    requires d != [] && IsDigit(d[0])
    requires rest != [] && !IsDigit(rest[0]) && !IsSpace(rest[|rest| - 1])
    ensures SqlInt(d + rest) == None
  {
    var s := d + rest;
    assert s[0] == d[0] && s[|s| - 1] == rest[|rest| - 1];
    assert s[|d|] == rest[0];
    assert !AllDigits(s);
    TrimUnspaced(s);
    assert Unsigned(s) == s;
  }
}
