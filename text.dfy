/**
 * The string operations the handlers use from JavaScript's standard library:
 * `trim`, `split(/\s+/)`, `join`, `split(c)[0]` / `split(c)[1]`, and the
 * ascending string order of an `ORDER BY ... ASC`.
 */
module Text {

  /** The ASCII characters that `trim` and the pattern `\s` treat as white space. */
  predicate IsSpace(c: char) {
    c == ' ' || c == '\t' || c == '\n' || c == '\r' || c == '\U{000B}' || c == '\U{000C}'
  }

  predicate NoSpace(s: string) {
    forall i :: 0 <= i < |s| ==> !IsSpace(s[i])
  }

  /** A word: a non-empty run of non-space characters. */
  predicate Word(w: string) {
    w != [] && NoSpace(w)
  }

  /** `s` without its leading white space. */
  function DropSpaces(s: string): (r: string)
    ensures |r| <= |s| && r == s[|s| - |r|..]
    ensures r == [] || !IsSpace(r[0])
    ensures forall i :: 0 <= i < |s| - |r| ==> IsSpace(s[i])
  {
    if s != [] && IsSpace(s[0]) then DropSpaces(s[1..]) else s
  }

  /** `s` without its trailing white space. */
  function DropTrailingSpaces(s: string): (r: string)
    ensures |r| <= |s| && r == s[..|r|]
    ensures r == [] || !IsSpace(r[|r| - 1])
    ensures forall i :: |r| <= i < |s| ==> IsSpace(s[i])
  {
    if s != [] && IsSpace(s[|s| - 1]) then DropTrailingSpaces(s[..|s| - 1]) else s
  }

  /** `s.trim()`: neither end of the result is white space, and only white space
      was removed. */
  function Trim(s: string): (t: string)
    ensures t == [] || (!IsSpace(t[0]) && !IsSpace(t[|t| - 1]))
    ensures t == [] <==> (forall i :: 0 <= i < |s| ==> IsSpace(s[i]))
  {
    var r := DropSpaces(s);
    assert r == [] ==> forall i :: 0 <= i < |s| ==> IsSpace(s[i]);
    assert r != [] ==> !IsSpace(s[|s| - |r|]);
    DropTrailingSpaces(r)
  }

  /** Trimming after dropping the leading white space only drops white space
      at the end. */
  lemma TrimIsPrefix(s: string)
    ensures var l := DropSpaces(s); var t := Trim(s);
      |t| <= |l| && l == t + l[|t|..] && (|t| == |l| || IsSpace(l[|t|]))
  {
    TrailingSplit(DropSpaces(s));
  }

  lemma TrailingSplit(l: string)
    ensures var t := DropTrailingSpaces(l);
      l == t + l[|t|..] && (|t| == |l| || IsSpace(l[|t|]))
  {
    var t := DropTrailingSpaces(l);
    assert l == l[..|t|] + l[|t|..];
  }

  /** Text with no white space at either end is its own trim. */
  lemma TrimUnspaced(s: string)
    requires s != [] && !IsSpace(s[0]) && !IsSpace(s[|s| - 1])
    ensures Trim(s) == s
  {
    assert DropSpaces(s) == s;
    assert DropTrailingSpaces(s) == s;
  }

  /** `s.split(/\s+/)`: the pieces between maximal runs of white space. A leading
      (trailing) run gives an empty first (last) piece, and "" gives [""]. */
  function SplitWs(s: string): (parts: seq<string>)
    ensures |parts| >= 1
    ensures forall i :: 0 <= i < |parts| ==> NoSpace(parts[i])
    decreases |s|
  {
    if s == [] then [""]
    else if IsSpace(s[0]) then [""] + SplitWs(DropSpaces(s[1..]))
    else
      var rest := SplitWs(s[1..]);
      [[s[0]] + rest[0]] + rest[1..]
  }

  /** `parts.join(sep)`. */
  function JoinWith(parts: seq<string>, sep: string): string
  {
    if parts == [] then ""
    else if |parts| == 1 then parts[0]
    else parts[0] + sep + JoinWith(parts[1..], sep)
  }

  /** A word in front of text that starts with white space stays one piece. */
  lemma {:induction false} SplitWordPrefix(w: string, t: string)
    requires NoSpace(w)
    requires t == [] || IsSpace(t[0])
    ensures SplitWs(w + t) == [w + SplitWs(t)[0]] + SplitWs(t)[1..]
  {
    if w == [] {
      assert w + t == t;
    } else {
      var s := w + t;
      assert s[0] == w[0] && !IsSpace(s[0]);
      assert s[1..] == w[1..] + t;
      SplitWordPrefix(w[1..], t);
      var rest := SplitWs(s[1..]);
      assert SplitWs(s) == [[s[0]] + rest[0]] + rest[1..];
      assert rest[0] == w[1..] + SplitWs(t)[0] && rest[1..] == SplitWs(t)[1..];
      assert [w[0]] + (w[1..] + SplitWs(t)[0]) == w + SplitWs(t)[0];
    }
  }

  lemma SplitAfterSpace(t: string)
    requires t == [] || !IsSpace(t[0])
    ensures SplitWs([' '] + t) == [""] + SplitWs(t)
  {
    assert ([' '] + t)[1..] == t;
  }

  /** Words joined by single spaces start and end with a non-space character. */
  lemma {:induction false} JoinedWordsEnds(ws: seq<string>)
    requires |ws| >= 1
    requires forall i :: 0 <= i < |ws| ==> Word(ws[i])
    ensures var j := JoinWith(ws, " "); j != [] && !IsSpace(j[0]) && !IsSpace(j[|j| - 1])
  {
    if |ws| > 1 {
      JoinedWordsEnds(ws[1..]);
      var rest := JoinWith(ws[1..], " ");
      assert JoinWith(ws, " ") == ws[0] + " " + rest;
      assert JoinWith(ws, " ")[0] == ws[0][0];
    }
  }

  /** Splitting on white space inverts joining words with single spaces. */
  lemma {:induction false} SplitJoin(ws: seq<string>)
    requires |ws| >= 1
    requires forall i :: 0 <= i < |ws| ==> Word(ws[i])
    ensures SplitWs(JoinWith(ws, " ")) == ws
  {
    if |ws| == 1 {
      SplitWordPrefix(ws[0], "");
      assert ws[0] + "" == ws[0];
    } else {
      var rest := JoinWith(ws[1..], " ");
      SplitJoin(ws[1..]);
      JoinedWordsEnds(ws[1..]);
      SplitAfterSpace(rest);
      SplitWordPrefix(ws[0], [' '] + rest);
      assert JoinWith(ws, " ") == ws[0] + ([' '] + rest);
      assert ws[0] + "" == ws[0];
      assert [ws[0]] + ws[1..] == ws;
    }
  }

  /** Dropping the leading white space of white space followed by text that
      starts with a non-space character leaves that text. */
  lemma {:induction false} DropLead(lead: string, s: string)
    requires s != [] && !IsSpace(s[0])
    requires forall i :: 0 <= i < |lead| ==> IsSpace(lead[i])
    ensures DropSpaces(lead + s) == s
  {
    if lead != [] {
      assert (lead + s)[1..] == lead[1..] + s;
      DropLead(lead[1..], s);
    } else {
      assert lead + s == s;
    }
  }

  /** Dropping the trailing white space of text that ends in a non-space
      character followed by white space leaves that text. */
  lemma {:induction false} DropTrail(j: string, trail: string)
    requires j != [] && !IsSpace(j[|j| - 1])
    requires forall i :: 0 <= i < |trail| ==> IsSpace(trail[i])
    ensures DropTrailingSpaces(j + trail) == j
  {
    if trail != [] {
      var s := j + trail;
      assert s[..|s| - 1] == j + trail[..|trail| - 1];
      DropTrail(j, trail[..|trail| - 1]);
    } else {
      assert j + trail == j;
    }
  }

  /** A gap between two words: a non-empty run of white space. */
  predicate Gap(g: string) {
    g != [] && forall i :: 0 <= i < |g| ==> IsSpace(g[i])
  }

  /** Words with the given gaps between them: `ws[0] + gaps[0] + ws[1] + ...`. */
  function Spaced(ws: seq<string>, gaps: seq<string>): string
    requires |ws| >= 1 && |gaps| == |ws| - 1
  {
    if |ws| == 1 then ws[0] else ws[0] + gaps[0] + Spaced(ws[1..], gaps[1..])
  }

  /** A gap in front of text that starts a word adds one empty piece. */
  lemma SplitAfterGap(g: string, t: string)
    requires Gap(g)
    requires t != [] && !IsSpace(t[0])
    ensures SplitWs(g + t) == [""] + SplitWs(t)
  {
    assert (g + t)[1..] == g[1..] + t;
    DropLead(g[1..], t);
  }

  /** Words with gaps between them start and end with a non-space character. */
  lemma {:induction false} SpacedWordsEnds(ws: seq<string>, gaps: seq<string>)
    requires |ws| >= 1 && |gaps| == |ws| - 1
    requires forall i :: 0 <= i < |ws| ==> Word(ws[i])
    requires forall i :: 0 <= i < |gaps| ==> Gap(gaps[i])
    ensures var j := Spaced(ws, gaps); j != [] && !IsSpace(j[0]) && !IsSpace(j[|j| - 1])
  {
    if |ws| > 1 {
      SpacedWordsEnds(ws[1..], gaps[1..]);
      var rest := Spaced(ws[1..], gaps[1..]);
      assert Spaced(ws, gaps) == ws[0] + gaps[0] + rest;
      assert Spaced(ws, gaps)[0] == ws[0][0];
    }
  }

  /** A word, a gap and text that starts a word split into that word followed
      by the pieces of the text. */
  lemma SplitWordGap(w: string, g: string, t: string)
    requires Word(w) && Gap(g)
    requires t != [] && !IsSpace(t[0])
    ensures SplitWs(w + (g + t)) == [w] + SplitWs(t)
  {
    SplitAfterGap(g, t);
    SplitWordPrefix(w, g + t);
    assert w + "" == w;
  }

  /** Splitting on white space recovers the words however wide the gaps
      between them are. */
  lemma {:induction false} SplitSpaced(ws: seq<string>, gaps: seq<string>)
    requires |ws| >= 1 && |gaps| == |ws| - 1
    requires forall i :: 0 <= i < |ws| ==> Word(ws[i])
    requires forall i :: 0 <= i < |gaps| ==> Gap(gaps[i])
    ensures SplitWs(Spaced(ws, gaps)) == ws
  {
    if |ws| == 1 {
      SplitWordPrefix(ws[0], "");
      assert ws[0] + "" == ws[0];
    } else {
      var rest := Spaced(ws[1..], gaps[1..]);
      SplitSpaced(ws[1..], gaps[1..]);
      SpacedWordsEnds(ws[1..], gaps[1..]);
      assert Spaced(ws, gaps) == ws[0] + (gaps[0] + rest);
      SplitWordGap(ws[0], gaps[0], rest);
      assert [ws[0]] + ws[1..] == ws;
    }
  }

  /** Words joined by single spaces are already trimmed. */
  lemma TrimJoinedWords(ws: seq<string>)
    requires |ws| >= 1
    requires forall i :: 0 <= i < |ws| ==> Word(ws[i])
    ensures Trim(JoinWith(ws, " ")) == JoinWith(ws, " ")
  {
    JoinedWordsEnds(ws);
  }

  /** `s.split(c)[0]`: the text before the first `c`, or all of `s` when it has none. */
  function Before(s: string, c: char): (p: string)
    ensures |p| <= |s| && p == s[..|p|]
    ensures c !in p
    ensures |p| < |s| ==> s[|p|] == c
    ensures c !in s ==> p == s
  {
    if s == [] || s[0] == c then [] else [s[0]] + Before(s[1..], c)
  }

  /** The text after the first `c`, which together with `Before` rebuilds `s`. */
  function After(s: string, c: char): (q: string)
    requires c in s
    ensures s == Before(s, c) + [c] + q
  {
    var p := Before(s, c);
    assert |p| < |s|;
    s[|p| + 1..]
  }

  /** `s.split(c)[1]` for text that contains `c`: the text between the first
      `c` and the next one, or the end. */
  function SecondPiece(s: string, c: char): (q: string)
    requires c in s
    ensures c !in q
    ensures CutAt(q, After(s, c), {c})
  {
    BeforeCuts(After(s, c), c);
    Before(After(s, c), c)
  }

  /** `p` is the text of `s` up to its first character from `stop`, or all of
      `s` when it has none: the first piece a `split` at those characters keeps. */
  predicate CutAt(p: string, s: string, stop: set<char>) {
    && |p| <= |s| && p == s[..|p|]
    && (forall i :: 0 <= i < |p| ==> p[i] !in stop)
    && (|p| < |s| ==> s[|p|] in stop)
  }

  /** Only one text is cut from `s` at the same stop characters. */
  lemma CutAtUnique(p: string, q: string, s: string, stop: set<char>)
    requires CutAt(p, s, stop) && CutAt(q, s, stop)
    ensures p == q
  {
  }

  /** Cutting the cut of `s` again cuts `s` at both kinds of stop characters. */
  lemma CutTwice(t: string, p: string, s: string, first: set<char>, second: set<char>)
    requires CutAt(p, s, first) && CutAt(t, p, second)
    ensures CutAt(t, s, first + second)
  {
    assert t == s[..|t|] by {
      assert s[..|t|] == p[..|t|];
    }
    if |t| < |p| {
      assert s[|t|] == p[|t|];
    }
  }

  /** `Before` cuts at the first `c`. */
  lemma BeforeCuts(s: string, c: char)
    ensures CutAt(Before(s, c), s, {c})
  {
    var p := Before(s, c);
    assert forall i :: 0 <= i < |p| ==> p[i] != c;
  }

  /** A prefix of text without `c` has no `c` either. */
  lemma PrefixLacks(s: string, p: string, c: char)
    requires |p| <= |s| && p == s[..|p|] && c !in s
    ensures c !in p
  {
  }

  /** Ascending order by character code. */
  predicate LexLe(a: string, b: string) {
    a == [] || (b != [] && (a[0] < b[0] || (a[0] == b[0] && LexLe(a[1..], b[1..]))))
  }

  lemma {:induction false} LexTotal(a: string, b: string)
    ensures LexLe(a, b) || LexLe(b, a)
  {
    if a != [] && b != [] && a[0] == b[0] {
      LexTotal(a[1..], b[1..]);
    }
  }

  lemma {:induction false} LexTrans(a: string, b: string, c: string)
    requires LexLe(a, b) && LexLe(b, c)
    ensures LexLe(a, c)
  {
    if a != [] && b != [] && c != [] && a[0] == b[0] && b[0] == c[0] {
      LexTrans(a[1..], b[1..], c[1..]);
    }
  }
}
