/**
 * Parsing one `svn log` entry into a revision (`parseLogEntry`) and loading
 * the svn-user to git-author table (`getUserLookup`).
 */
module LogEntry {
  import opened Wrappers
  import opened Text

  /** One replayed revision: number, mapped git author, svn date text, log message. */
  datatype Revision = Revision(number: int, user: string, date: string, log: string)

  /** The three groups the header pattern extracts. */
  datatype Header = Header(number: int, user: string, date: string)

  datatype LogError =
    | EmptyEntry                               // only dividers: `text[-1]` raises IndexError
    | MalformedHeader(line: string)            // RuntimeError "Not a valid log"
    | UnknownAuthor(user: string, line: string) // ValueError "No git user found"

  // ---------------------------------------------------------------------------
  // The header `^r([0-9]+) \| (.+) \| (.+) \(.+\).*`

  /** Length of the run of decimal digits that starts `s`. */
  function DigitRun(s: string): (n: nat)
    ensures n <= |s| && AllDigits(s[..n])
    ensures n < |s| ==> !IsDigit(s[n])
    decreases |s|
  {
    if s != [] && IsDigit(s[0]) then
      var n := 1 + DigitRun(s[1..]);
      assert s[..n] == [s[0]] + s[1..][..n - 1];
      n
    else 0
  }

  /** ` \(.+\).*` matches `t` from index `j` on (so group 3 is `t[..j]`). */
  predicate DateEndsAt(t: string, j: int) {
    1 <= j && j + 3 <= |t| && t[j..j + 2] == " (" && Contains(t[j + 3..], ")")
  }

  /**
   * `(.+) \| (.+) \(.+\).*` matches `rest` with group 2 `rest[..i]` and
   * group 3 the first `j` characters after the ` | ` at `i`.
   */
  predicate Groups(rest: string, i: int, j: int) {
    1 <= i && i + 3 <= |rest| && rest[i..i + 3] == " | " && DateEndsAt(rest[i + 3..], j)
  }

  /** The largest `j < n` at which group 3 can end. */
  function LastDateEnd(t: string, n: nat): (r: Option<nat>)
    ensures r.Some? ==> r.value < n && DateEndsAt(t, r.value)
    ensures r.Some? ==> forall j :: r.value < j < n ==> !DateEndsAt(t, j)
    ensures r.None? ==> forall j :: 0 <= j < n ==> !DateEndsAt(t, j)
    decreases n
  {
    if n == 0 then None
    else if DateEndsAt(t, n - 1) then Some(n - 1)
    else LastDateEnd(t, n - 1)
  }

  /** Greedy group 3: where it ends, if it can end anywhere. */
  function DateEnd(t: string): (r: Option<nat>)
    ensures r.Some? ==> DateEndsAt(t, r.value) && forall j :: r.value < j ==> !DateEndsAt(t, j)
    ensures r.None? ==> forall j :: !DateEndsAt(t, j)
  {
    LastDateEnd(t, |t|)
  }

  predicate UserEndsAt(rest: string, i: int) {
    1 <= i && i + 3 <= |rest| && rest[i..i + 3] == " | " && DateEnd(rest[i + 3..]).Some?
  }

  /** The largest `i < n` at which group 2 can end. */
  function LastUserEnd(rest: string, n: nat): (r: Option<nat>)
    ensures r.Some? ==> r.value < n && UserEndsAt(rest, r.value)
    ensures r.Some? ==> forall i :: r.value < i < n ==> !UserEndsAt(rest, i)
    ensures r.None? ==> forall i :: 0 <= i < n ==> !UserEndsAt(rest, i)
    decreases n
  {
    if n == 0 then None
    else if UserEndsAt(rest, n - 1) then Some(n - 1)
    else LastUserEnd(rest, n - 1)
  }

  lemma GroupsUserEnds(rest: string, i: int, j: int)
    requires Groups(rest, i, j)
    ensures UserEndsAt(rest, i)
  {
    assert DateEndsAt(rest[i + 3..], j);
  }

  /**
   * Groups 2 and 3 as Python's backtracking matcher picks them: the longest
   * group 2 that lets the rest match, then the longest group 3.
   */
  function UserAndDate(rest: string): Option<(string, string)> {
    match LastUserEnd(rest, |rest|)
    case None => None
    case Some(i) =>
      var t := rest[i + 3..];
      match DateEnd(t)
      case None => None
      case Some(j) => Some((rest[..i], t[..j]))
  }

  /** `UserAndDate` is the backtracking matcher's choice. */
  lemma UserAndDateMatches(rest: string)
    ensures UserAndDate(rest).None? <==> forall i, j :: !Groups(rest, i, j)
    ensures UserAndDate(rest).Some? ==> exists i, j ::
      Groups(rest, i, j) && UserAndDate(rest).value == (rest[..i], rest[i + 3..][..j]) &&
      (forall i', j' :: i < i' ==> !Groups(rest, i', j')) &&
      (forall j' :: j < j' ==> !Groups(rest, i, j'))
  {
    match LastUserEnd(rest, |rest|)
    case None =>
      forall i, j | Groups(rest, i, j) ensures UserEndsAt(rest, i) {
        GroupsUserEnds(rest, i, j);
      }
    case Some(i) =>
      var t := rest[i + 3..];
      var j := DateEnd(t).value;
      assert Groups(rest, i, j);
      forall i', j' | Groups(rest, i', j') ensures UserEndsAt(rest, i') {
        GroupsUserEnds(rest, i', j');
      }
  }

  /**
   * The whole header pattern matches `line` with a `d`-digit group 1 and
   * groups 2 and 3 ending at `i` and `j` of the text after `r<digits> | `.
   */
  predicate HeaderMatch(line: string, d: int, i: int, j: int) {
    1 <= d && 4 + d <= |line| && line[0] == 'r' && AllDigits(line[1..1 + d]) &&
    line[1 + d..4 + d] == " | " && Groups(line[4 + d..], i, j)
  }

  /** A digit run is determined by where the digits stop. */
  lemma {:induction false} DigitRunUnique(s: string, d: nat)
    requires d <= |s| && AllDigits(s[..d]) && (d < |s| ==> !IsDigit(s[d]))
    ensures d == DigitRun(s)
    decreases d
  {
    if d > 0 {
      assert s[1..][..d - 1] == s[..d][1..];
      assert d - 1 < |s[1..]| ==> s[1..][d - 1] == s[d];
      DigitRunUnique(s[1..], d - 1);
    }
  }

  /** Group 1 is forced: all the digits after `r`. */
  lemma HeaderDigitsForced(line: string, d: int, i: int, j: int)
    requires HeaderMatch(line, d, i, j)
    ensures d == DigitRun(line[1..])
  {
    assert line[1..][..d] == line[1..1 + d];
    assert line[1..][d] == line[1 + d..4 + d][0];
    DigitRunUnique(line[1..], d);
  }

  /**
   * `re.search(r'^r([0-9]+) \| (.+) \| (.+) \(.+\).*', line)` and its
   * groups, the first converted by `int`. The line comes from `splitlines`,
   * so it holds no `\n` and `.` matches each of its characters.
   */
  function ParseHeader(line: string): Option<Header>
    requires '\n' !in line
  {
    var d := if line != [] && line[0] == 'r' then DigitRun(line[1..]) else 0;
    if d == 0 || !StartsWith(line[1 + d..], " | ") then None
    else
      match UserAndDate(line[4 + d..])
      case None => None
      case Some((user, date)) => Some(Header(DigitsValue(line[1..][..d]), user, date))
  }

  /** Once group 1 is fixed, the header matches exactly where groups 2 and 3 do. */
  lemma HeaderMatchRest(line: string, d: nat)
    requires 1 <= d && 4 + d <= |line| && line[0] == 'r' && d == DigitRun(line[1..])
    requires line[1 + d..4 + d] == " | "
    ensures forall d', i, j :: HeaderMatch(line, d', i, j) <==> d' == d && Groups(line[4 + d..], i, j)
  {
    assert line[1..][..d] == line[1..1 + d];
    forall d', i, j | HeaderMatch(line, d', i, j) ensures d' == d {
      HeaderDigitsForced(line, d', i, j);
    }
  }

  /** The header pattern matches `line` nowhere. */
  ghost predicate NoHeaderMatch(line: string) {
    forall d, i, j :: !HeaderMatch(line, d, i, j)
  }

  /** `ParseHeader` finds nothing exactly when the pattern does not match. */
  lemma ParseHeaderNone(line: string)
    requires '\n' !in line
    ensures ParseHeader(line).None? <==> NoHeaderMatch(line)
  {
    var d := if line != [] && line[0] == 'r' then DigitRun(line[1..]) else 0;
    if d == 0 || !StartsWith(line[1 + d..], " | ") {
      forall d', i, j | HeaderMatch(line, d', i, j) ensures d' == d {
        HeaderDigitsForced(line, d', i, j);
      }
    } else {
      assert line[1 + d..][..3] == line[1 + d..4 + d];
      HeaderMatchRest(line, d);
      var rest := line[4 + d..];
      UserAndDateMatches(rest);
      if UserAndDate(rest).Some? {
        var i, j :| Groups(rest, i, j);
        assert HeaderMatch(line, d, i, j);
      }
    }
  }

  /**
   * A header that parses yields the groups of the match with the longest
   * group 2 and, for it, the longest group 3, group 1 read as a number.
   */
  lemma ParseHeaderSome(line: string)
    requires '\n' !in line && ParseHeader(line).Some?
    ensures exists d, i, j ::
      HeaderMatch(line, d, i, j) &&
      ParseHeader(line).value == Header(DigitsValue(line[1..1 + d]), line[4 + d..][..i], line[4 + d..][i + 3..][..j]) &&
      (forall i', j' :: i < i' ==> !HeaderMatch(line, d, i', j')) &&
      (forall j' :: j < j' ==> !HeaderMatch(line, d, i, j'))
  {
    var d := DigitRun(line[1..]);
    var rest := line[4 + d..];
    assert line[1..][..d] == line[1..1 + d];
    assert line[1 + d..][..3] == line[1 + d..4 + d];
    HeaderMatchRest(line, d);
    UserAndDateMatches(rest);
    var i, j :| Groups(rest, i, j) && UserAndDate(rest).value == (rest[..i], rest[i + 3..][..j]) &&
      (forall i', j' :: i < i' ==> !Groups(rest, i', j')) &&
      (forall j' :: j < j' ==> !Groups(rest, i, j'));
    assert HeaderMatch(line, d, i, j);
  }

  // ---------------------------------------------------------------------------
  // Headers as `svn log` writes them

  /** `r<N> | <user> | <date> (<day>)<tail>`, the first line of an entry. */
  function FormatHeader(n: nat, user: string, date: string, day: string, tail: string): string {
    "r" + NatToString(n) + " | " + user + " | " + date + " (" + day + ")" + tail
  }

  /** Group 3 cannot end where no `(` follows. */
  lemma NoOpenNoDate(t: string, m: int)
    requires forall k :: 0 <= k < |t| && m <= k ==> t[k] != '('
    ensures forall j :: m <= j + 1 ==> !DateEndsAt(t, j)
  {
    forall j | m <= j + 1 ensures !DateEndsAt(t, j) {
      if 1 <= j && j + 3 <= |t| {
        assert t[j..j + 2][1] == t[j + 1];
      }
    }
  }

  /** With no `(` after the date, group 3 is exactly the date. */
  lemma DateGroupOf(date: string, day: string, tail: string, t: string)
    requires date != [] && day != [] && '(' !in day && '(' !in tail
    requires t == date + " (" + day + ")" + tail
    ensures DateEndsAt(t, |date|)
    ensures forall j :: |date| < j ==> !DateEndsAt(t, j)
  {
    var D := |date|;
    assert t[D..D + 2] == " (";
    assert t[D + 3..] == day[1..] + ")" + tail;
    ContainsInfix(day[1..], ")", tail);
    forall k | 0 <= k < |t| && D + 2 <= k ensures t[k] != '(' {
      if k < D + 2 + |day| {
        assert t[k] == day[k - D - 2];
      } else if k > D + 2 + |day| {
        assert t[k] == tail[k - D - 3 - |day|];
      }
    }
    NoOpenNoDate(t, D + 2);
  }

  /** With no `|` in the date and no `(` after it, group 2 is exactly the user. */
  lemma UserGroupOf(user: string, date: string, day: string, tail: string, t: string, rest: string)
    requires user != [] && date != [] && '|' !in date
    requires day != [] && '(' !in day && '(' !in tail
    requires t == date + " (" + day + ")" + tail && rest == user + " | " + t
    ensures Groups(rest, |user|, |date|)
    ensures forall i, j :: |user| < i ==> !Groups(rest, i, j)
  {
    var U := |user|;
    var C := U + 3 + |date| + 2;
    assert rest[U..U + 3] == " | ";
    assert rest[U + 3..] == t;
    DateGroupOf(date, day, tail, t);
    forall i, j | U < i ensures !Groups(rest, i, j) {
      if i + 3 <= |rest| {
        assert rest[i..i + 3][1] == rest[i + 1];
        if i + 1 < C {
          if U + 3 <= i + 1 < U + 3 + |date| {
            assert rest[i + 1] == date[i + 1 - U - 3];
          }
          assert rest[i + 1] != '|';
        } else {
          var w := rest[i + 3..];
          forall k | 0 <= k < |w| ensures w[k] != '(' {
            assert w[k] == rest[i + 3 + k];
            if i + 3 + k < C + |day| {
              assert rest[i + 3 + k] == day[i + 3 + k - C];
            } else if i + 3 + k > C + |day| {
              assert rest[i + 3 + k] == tail[i + 3 + k - C - |day| - 1];
            }
          }
          NoOpenNoDate(w, 0);
        }
      }
    }
  }

  /** The greedy choice is the match that no longer group 2 or group 3 beats. */
  lemma UserAndDateGreatest(rest: string, u: int, d: int)
    requires Groups(rest, u, d)
    requires forall i, j :: u < i ==> !Groups(rest, i, j)
    requires forall j :: d < j ==> !Groups(rest, u, j)
    ensures UserAndDate(rest) == Some((rest[..u], rest[u + 3..][..d]))
  {
    UserAndDateMatches(rest);
    var i, j :| Groups(rest, i, j) && UserAndDate(rest).value == (rest[..i], rest[i + 3..][..j]) &&
      (forall i', j' :: i < i' ==> !Groups(rest, i', j')) &&
      (forall j' :: j < j' ==> !Groups(rest, i, j'));
    assert i == u;
    assert j == d;
  }

  /** Groups 2 and 3 of a header `svn log` writes are its user and date. */
  lemma UserAndDateOf(user: string, date: string, day: string, tail: string, t: string, rest: string)
    requires user != [] && date != [] && '|' !in date
    requires day != [] && '(' !in day && '(' !in tail
    requires t == date + " (" + day + ")" + tail && rest == user + " | " + t
    ensures UserAndDate(rest) == Some((user, date))
  {
    var U := |user|;
    UserGroupOf(user, date, day, tail, t, rest);
    DateGroupOf(date, day, tail, t);
    assert rest[U + 3..] == t;
    assert forall j :: |date| < j ==> !Groups(rest, U, j);
    UserAndDateGreatest(rest, U, |date|);
    assert rest[..U] == user;
    assert t[..|date|] == date;
  }

  /** Group 1 of `r<digits> | ...` is the digits. */
  lemma HeaderPrefixOf(ds: string, rest: string)
    requires ds != [] && AllDigits(ds) && '\n' !in rest
    ensures '\n' !in "r" + ds + " | " + rest
    ensures ParseHeader("r" + ds + " | " + rest) ==
      match UserAndDate(rest)
      case None => None
      case Some((user, date)) => Some(Header(DigitsValue(ds), user, date))
  {
    var line := "r" + ds + " | " + rest;
    var d := |ds|;
    assert '\n' !in ds by {
      forall k | 0 <= k < |ds| ensures ds[k] != '\n' {
        assert IsDigit(ds[k]);
      }
    }
    assert line[1..] == ds + " | " + rest;
    assert line[1..][..d] == ds;
    DigitRunUnique(line[1..], d);
    assert line[1 + d..][..3] == " | ";
    assert line[4 + d..] == rest;
  }

  /**
   * Round trip: the header `svn log` writes for revision `n` parses back
   * to `n`, the user and the date, whatever follows the day in brackets
   * (the `| N lines` count) as long as no `(` appears there.
   */
  lemma HeaderRoundTrip(n: nat, user: string, date: string, day: string, tail: string)
    requires user != [] && '\n' !in user
    requires date != [] && '|' !in date && '\n' !in date
    requires day != [] && '(' !in day && '\n' !in day
    requires '(' !in tail && '\n' !in tail
    ensures '\n' !in FormatHeader(n, user, date, day, tail)
    ensures ParseHeader(FormatHeader(n, user, date, day, tail)) == Some(Header(n, user, date))
  {
    var t := date + " (" + day + ")" + tail;
    var rest := user + " | " + t;
    assert FormatHeader(n, user, date, day, tail) == "r" + NatToString(n) + " | " + rest;
    assert '\n' !in rest;
    HeaderPrefixOf(NatToString(n), rest);
    DigitsValueNatToString(n);
    UserAndDateOf(user, date, day, tail, t, rest);
  }

  // ---------------------------------------------------------------------------
  // The entry between its dividers

  /** A `-------...` separator line or an empty line. */
  predicate IsDivider(line: string) {
    StartsWith(line, "--------") || line == []
  }

  predicate AllDividers(lines: seq<string>) {
    forall k :: 0 <= k < |lines| ==> IsDivider(lines[k])
  }

  /** The lines without the dividers at their end. */
  function DropTrailing(lines: seq<string>): (r: seq<string>)
    ensures |r| <= |lines| && r == lines[..|r|]
    ensures r != [] ==> !IsDivider(r[|r| - 1])
    ensures AllDividers(lines[|r|..])
    decreases |lines|
  {
    if lines != [] && IsDivider(lines[|lines| - 1]) then
      var r := DropTrailing(lines[..|lines| - 1]);
      assert lines[|r|..] == lines[..|lines| - 1][|r|..] + [lines[|lines| - 1]];
      r
    else lines
  }

  /** The lines without the dividers at their start. */
  function DropLeading(lines: seq<string>): (r: seq<string>)
    ensures |r| <= |lines| && r == lines[|lines| - |r|..]
    ensures r != [] ==> !IsDivider(r[0])
    ensures AllDividers(lines[..|lines| - |r|])
    decreases |lines|
  {
    if lines != [] && IsDivider(lines[0]) then
      var r := DropLeading(lines[1..]);
      assert lines[..|lines| - |r|] == [lines[0]] + lines[1..][..|lines| - 1 - |r|];
      r
    else lines
  }

  /**
   * The entry with its leading and trailing dividers removed, or `None`
   * when nothing else is left (where `text[-1]` raises IndexError).
   */
  function Content(lines: seq<string>): (r: Option<seq<string>>)
    ensures r.Some? ==> r.value != []
  {
    var t := DropTrailing(lines);
    if t == [] then None
    else
      assert t[..|t|] == t;
      Some(DropLeading(t))
  }

  /** Only an entry made of dividers alone has no content. */
  lemma ContentNoneIff(lines: seq<string>)
    ensures Content(lines).None? <==> AllDividers(lines)
  {
    var t := DropTrailing(lines);
    if t != [] {
      assert !IsDivider(lines[|t| - 1]);
    }
  }

  /** The content is whatever lies between the dividers, whichever they are. */
  lemma ContentOf(pre: seq<string>, body: seq<string>, post: seq<string>)
    requires AllDividers(pre) && AllDividers(post)
    requires body != [] && !IsDivider(body[0]) && !IsDivider(body[|body| - 1])
    ensures Content(pre + body + post) == Some(body)
  {
    var lines := pre + body + post;
    DropTrailingOf(pre + body, post);
    assert lines == (pre + body) + post;
    DropLeadingOf(pre, body);
  }

  lemma {:induction false} DropTrailingOf(lines: seq<string>, post: seq<string>)
    requires lines != [] && !IsDivider(lines[|lines| - 1]) && AllDividers(post)
    ensures DropTrailing(lines + post) == lines
    decreases |post|
  {
    if post == [] {
      assert lines + post == lines;
    } else {
      var shorter := post[..|post| - 1];
      assert (lines + post)[..|lines + post| - 1] == lines + shorter;
      DropTrailingOf(lines, shorter);
    }
  }

  lemma {:induction false} DropLeadingOf(pre: seq<string>, lines: seq<string>)
    requires lines != [] && !IsDivider(lines[0]) && AllDividers(pre)
    ensures DropLeading(pre + lines) == lines
    decreases |pre|
  {
    if pre == [] {
      assert pre + lines == lines;
    } else {
      assert (pre + lines)[1..] == pre[1..] + lines;
      DropLeadingOf(pre[1..], lines);
    }
  }

  /** The two `del` loops of `parseLogEntry`. */
  method StripDividers(lines: seq<string>) returns (r: Option<seq<string>>)
    ensures r == Content(lines)
  {
    var text := lines;
    while text == [] || IsDivider(text[|text| - 1])
      invariant |text| <= |lines| && text == lines[..|text|]
      invariant DropTrailing(text) == DropTrailing(lines)
      decreases |text|
    {
      if text == [] {
        return None;
      }
      text := text[..|text| - 1];
    }
    ghost var trimmed := text;
    while IsDivider(text[0])
      invariant text != [] && !IsDivider(text[|text| - 1])
      invariant DropLeading(text) == DropLeading(trimmed)
      decreases |text|
    {
      text := text[1..];
    }
    return Some(text);
  }

  // ---------------------------------------------------------------------------
  // `parseLogEntry`

  /** The revision an entry's lines describe, given the svn-user to git-author table. */
  function EntryOf(lines: seq<string>, users: map<string, string>): Result<Revision, LogError>
    requires LinesWithoutBreaks(lines)
  {
    match Content(lines)
    case None => Err(EmptyEntry)
    case Some(text) =>
      var first := text[0];
      assert NoLineBreak(first) by {
        ContentLines(lines);
      }
      match ParseHeader(first)
      case None => Err(MalformedHeader(first))
      case Some(h) =>
        if h.user !in users then Err(UnknownAuthor(h.user, first))
        else Ok(Revision(h.number, users[h.user], h.date, Join(text[1..], "\n")))
  }

  /** Content lines are lines of the entry. */
  lemma ContentLines(lines: seq<string>)
    requires Content(lines).Some?
    ensures forall k :: 0 <= k < |Content(lines).value| ==> Content(lines).value[k] in lines
  {
    var t := DropTrailing(lines);
    var c := DropLeading(t);
    var off := |t| - |c|;
    assert c == t[off..] && t == lines[..|t|];
    forall k | 0 <= k < |c| ensures c[k] in lines {
      var j := off + k;
      assert c[k] == t[j];
      assert t[j] == lines[j];
      assert lines[j] in lines;
    }
  }

  /** `parseLogEntry(intext)` as a value. */
  function ParseEntry(intext: string, users: map<string, string>): Result<Revision, LogError> {
    EntryOf(SplitLines(intext), users)
  }

  /** `parseLogEntry`: split into lines, strip the dividers, parse the header. */
  method ParseLogEntry(intext: string, users: map<string, string>) returns (r: Result<Revision, LogError>)
    ensures r == ParseEntry(intext, users)
  {
    var text := StripDividers(SplitLines(intext));
    if text.None? {
      return Err(EmptyEntry);
    }
    var lines := text.value;
    ContentLines(SplitLines(intext));
    var header := ParseHeader(lines[0]);
    if header.None? {
      return Err(MalformedHeader(lines[0]));
    }
    var h := header.value;
    if h.user !in users {
      return Err(UnknownAuthor(h.user, lines[0]));
    }
    r := Ok(Revision(h.number, users[h.user], h.date, Join(lines[1..], "\n")));
  }

  lemma NoLineBreakConcat(a: string, b: string)
    requires NoLineBreak(a) && NoLineBreak(b)
    ensures NoLineBreak(a + b)
  {
    forall k | 0 <= k < |a + b| ensures !IsLineBreak((a + b)[k]) {
      if k >= |a| {
        assert (a + b)[k] == b[k - |a|];
      }
    }
  }

  lemma FormatHeaderLine(n: nat, user: string, date: string, day: string, tail: string)
    requires NoLineBreak(user) && NoLineBreak(date) && NoLineBreak(day) && NoLineBreak(tail)
    ensures NoLineBreak(FormatHeader(n, user, date, day, tail))
  {
    var ds := NatToString(n);
    assert NoLineBreak(ds);
    NoLineBreakConcat("r", ds);
    NoLineBreakConcat("r" + ds, " | ");
    NoLineBreakConcat("r" + ds + " | ", user);
    NoLineBreakConcat("r" + ds + " | " + user, " | ");
    NoLineBreakConcat("r" + ds + " | " + user + " | ", date);
    NoLineBreakConcat("r" + ds + " | " + user + " | " + date, " (");
    NoLineBreakConcat("r" + ds + " | " + user + " | " + date + " (", day);
    NoLineBreakConcat("r" + ds + " | " + user + " | " + date + " (" + day, ")");
    NoLineBreakConcat("r" + ds + " | " + user + " | " + date + " (" + day + ")", tail);
  }

  lemma NoLineBreakNoNewline(s: string)
    requires NoLineBreak(s)
    ensures '\n' !in s
  {
  }

  /** Header formatting conditions under which the header parses back. */
  predicate HeaderFields(user: string, date: string, day: string, tail: string) {
    NoLineBreak(user) && NoLineBreak(date) && NoLineBreak(day) && NoLineBreak(tail) &&
    user != [] && date != [] && '|' !in date && day != [] && '(' !in day && '(' !in tail
  }

  lemma FormattedHeader(n: nat, user: string, date: string, day: string, tail: string)
    requires HeaderFields(user, date, day, tail)
    ensures var header := FormatHeader(n, user, date, day, tail);
      NoLineBreak(header) && !IsDivider(header) && ParseHeader(header) == Some(Header(n, user, date))
  {
    var header := FormatHeader(n, user, date, day, tail);
    FormatHeaderLine(n, user, date, day, tail);
    NoLineBreakNoNewline(user);
    NoLineBreakNoNewline(date);
    NoLineBreakNoNewline(day);
    NoLineBreakNoNewline(tail);
    HeaderRoundTrip(n, user, date, day, tail);
    assert header[0] == 'r';
  }

  predicate LinesWithoutBreaks(lines: seq<string>) {
    forall k :: 0 <= k < |lines| ==> NoLineBreak(lines[k])
  }

  lemma LinesWithoutBreaksConcat(a: seq<string>, b: seq<string>)
    requires LinesWithoutBreaks(a) && LinesWithoutBreaks(b)
    ensures LinesWithoutBreaks(a + b)
  {
    forall k | 0 <= k < |a + b| ensures NoLineBreak((a + b)[k]) {
      if k >= |a| {
        assert (a + b)[k] == b[k - |a|];
      } else {
        assert (a + b)[k] == a[k];
      }
    }
  }

  lemma EntryLinesBreakFree(pre: seq<string>, header: string, body: seq<string>, post: seq<string>)
    requires NoLineBreak(header)
    requires LinesWithoutBreaks(pre) && LinesWithoutBreaks(body) && LinesWithoutBreaks(post)
    ensures LinesWithoutBreaks(pre + [header] + body + post)
  {
    assert LinesWithoutBreaks([header]);
    LinesWithoutBreaksConcat(pre, [header]);
    LinesWithoutBreaksConcat(pre + [header], body);
    LinesWithoutBreaksConcat(pre + [header] + body, post);
  }

  lemma EntryLastLine(pre: seq<string>, header: string, body: seq<string>, post: seq<string>)
    requires header != []
    requires body != [] ==> body[|body| - 1] != []
    requires post != [] ==> post[|post| - 1] != []
    ensures (pre + [header] + body + post)[|pre + [header] + body + post| - 1] != []
  {
    var lines := pre + [header] + body + post;
    if post != [] {
      assert lines[|lines| - 1] == post[|post| - 1];
    } else if body != [] {
      assert lines[|lines| - 1] == body[|body| - 1];
    } else {
      assert lines[|lines| - 1] == header;
    }
  }

  /** The lines of `pre + [header] + body + post` survive the join and `splitlines`. */
  lemma EntryLines(pre: seq<string>, header: string, body: seq<string>, post: seq<string>, lines: seq<string>)
    requires NoLineBreak(header) && header != []
    requires LinesWithoutBreaks(pre) && LinesWithoutBreaks(body) && LinesWithoutBreaks(post)
    requires body != [] ==> body[|body| - 1] != []
    requires post != [] ==> post[|post| - 1] != []
    requires lines == pre + [header] + body + post
    ensures LinesWithoutBreaks(lines)
    ensures SplitLines(Join(lines, "\n")) == lines
  {
    EntryLinesBreakFree(pre, header, body, post);
    EntryLastLine(pre, header, body, post);
    SplitLinesJoin(lines);
  }

  /** With a parsable header between the dividers, the entry is decided by the header. */
  lemma EntryOfHeader(pre: seq<string>, header: string, body: seq<string>, post: seq<string>,
                      users: map<string, string>)
    requires AllDividers(pre) && AllDividers(post)
    requires NoLineBreak(header) && !IsDivider(header) && ParseHeader(header).Some?
    requires body != [] ==> !IsDivider(body[|body| - 1])
    requires LinesWithoutBreaks(pre + [header] + body + post)
    ensures var h := ParseHeader(header).value;
      EntryOf(pre + [header] + body + post, users) ==
        if h.user in users then Ok(Revision(h.number, users[h.user], h.date, Join(body, "\n")))
        else Err(UnknownAuthor(h.user, header))
  {
    var lines := pre + [header] + body + post;
    var middle := [header] + body;
    Regroup(pre, header, body, post);
    assert middle[|middle| - 1] == if body == [] then header else body[|body| - 1];
    ContentOf(pre, middle, post);
    assert middle[0] == header && middle[1..] == body;
    EntryOfContent(lines, users, middle);
  }

  lemma Regroup<T>(pre: seq<T>, x: T, body: seq<T>, post: seq<T>)
    ensures pre + [x] + body + post == pre + ([x] + body) + post
  {
  }

  /** The entry read off its content lines. */
  lemma EntryOfContent(lines: seq<string>, users: map<string, string>, text: seq<string>)
    requires LinesWithoutBreaks(lines) && Content(lines) == Some(text)
    ensures NoLineBreak(text[0])
    ensures EntryOf(lines, users) ==
      match ParseHeader(text[0])
      case None => Err(MalformedHeader(text[0]))
      case Some(h) =>
        if h.user !in users then Err(UnknownAuthor(h.user, text[0]))
        else Ok(Revision(h.number, users[h.user], h.date, Join(text[1..], "\n")))
  {
    ContentLines(lines);
  }

  /**
   * An entry as `svn log -r N` prints it parses to revision `N` by the
   * mapped author at its date, with the lines after the header as its log
   * (the empty line `svn log` puts between header and message included),
   * however many divider lines surround it.
   */
  lemma ParseEntryRoundTrip(pre: seq<string>, n: nat, user: string, date: string, day: string,
                            tail: string, body: seq<string>, post: seq<string>, users: map<string, string>)
    requires HeaderFields(user, date, day, tail) && user in users
    requires AllDividers(pre) && AllDividers(post)
    requires LinesWithoutBreaks(pre) && LinesWithoutBreaks(body) && LinesWithoutBreaks(post)
    requires body != [] ==> !IsDivider(body[|body| - 1])
    requires post != [] ==> post[|post| - 1] != []
    ensures ParseEntry(Join(pre + [FormatHeader(n, user, date, day, tail)] + body + post, "\n"), users)
      == Ok(Revision(n, users[user], date, Join(body, "\n")))
  {
    var header := FormatHeader(n, user, date, day, tail);
    FormattedHeader(n, user, date, day, tail);
    EntryLines(pre, header, body, post, pre + [header] + body + post);
    EntryOfHeader(pre, header, body, post, users);
  }

  /** An author missing from the table is reported with the header line. */
  lemma ParseEntryUnknownAuthor(pre: seq<string>, n: nat, user: string, date: string, day: string,
                                tail: string, body: seq<string>, post: seq<string>, users: map<string, string>)
    requires HeaderFields(user, date, day, tail) && user !in users
    requires AllDividers(pre) && AllDividers(post)
    requires LinesWithoutBreaks(pre) && LinesWithoutBreaks(body) && LinesWithoutBreaks(post)
    requires body != [] ==> !IsDivider(body[|body| - 1])
    requires post != [] ==> post[|post| - 1] != []
    ensures ParseEntry(Join(pre + [FormatHeader(n, user, date, day, tail)] + body + post, "\n"), users)
      == Err(UnknownAuthor(user, FormatHeader(n, user, date, day, tail)))
  {
    var header := FormatHeader(n, user, date, day, tail);
    FormattedHeader(n, user, date, day, tail);
    EntryLines(pre, header, body, post, pre + [header] + body + post);
    EntryOfHeader(pre, header, body, post, users);
  }

  /** Any text whose lines are all dividers is rejected as empty. */
  lemma ParseEntryEmpty(intext: string, users: map<string, string>)
    requires AllDividers(SplitLines(intext))
    ensures ParseEntry(intext, users) == Err(EmptyEntry)
  {
    ContentNoneIff(SplitLines(intext));
  }

  /** A first content line that does not match the header pattern is reported. */
  lemma ParseEntryMalformed(intext: string, users: map<string, string>)
    requires Content(SplitLines(intext)).Some?
    requires '\n' !in Content(SplitLines(intext)).value[0] && NoHeaderMatch(Content(SplitLines(intext)).value[0])
    ensures ParseEntry(intext, users) == Err(MalformedHeader(Content(SplitLines(intext)).value[0]))
  {
    ParseHeaderNone(Content(SplitLines(intext)).value[0]);
    UnparsedHeader(intext, users);
  }

  lemma UnparsedHeader(intext: string, users: map<string, string>)
    requires Content(SplitLines(intext)).Some?
    requires ParseHeader(Content(SplitLines(intext)).value[0]).None?
    ensures ParseEntry(intext, users) == Err(MalformedHeader(Content(SplitLines(intext)).value[0]))
  {
    var lines := SplitLines(intext);
    EntryOfContent(lines, users, Content(lines).value);
  }

  lemma ExampleHeader()
    ensures FormatHeader(42, "alice", "2020-01-01 10:00:00 -0700", "Wed, 01 Jan 2020", " | 1 line")
      == "r42 | alice | 2020-01-01 10:00:00 -0700 (Wed, 01 Jan 2020) | 1 line"
  {
    Numerals();
    ExampleHeaderStart();
    ExampleHeaderEnd();
  }

  lemma ExampleHeaderStart()
    ensures "r" + "42" + " | " + "alice" + " | " + "2020-01-01 10:00:00 -0700" == "r42 | alice | 2020-01-01 10:00:00 -0700"
  {
    assert "r" + "42" + " | " + "alice" + " | " == "r42 | alice | ";
  }

  lemma ExampleHeaderEnd()
    ensures "r42 | alice | 2020-01-01 10:00:00 -0700" + " (" + "Wed, 01 Jan 2020" + ")" + " | 1 line"
      == "r42 | alice | 2020-01-01 10:00:00 -0700 (Wed, 01 Jan 2020) | 1 line"
  {
    assert "r42 | alice | 2020-01-01 10:00:00 -0700" + " (" + "Wed, 01 Jan 2020"
      == "r42 | alice | 2020-01-01 10:00:00 -0700 (Wed, 01 Jan 2020";
  }

  lemma ExampleText()
    ensures Join(["r42 | alice | 2020-01-01 10:00:00 -0700 (Wed, 01 Jan 2020) | 1 line", "", "Fix bug"], "\n")
      == "r42 | alice | 2020-01-01 10:00:00 -0700 (Wed, 01 Jan 2020) | 1 line\n\nFix bug"
    ensures Join(["", "Fix bug"], "\n") == "\nFix bug"
  {
    var header := "r42 | alice | 2020-01-01 10:00:00 -0700 (Wed, 01 Jan 2020) | 1 line";
    assert Join([header, "", "Fix bug"], "\n") == header + "\n" + Join(["", "Fix bug"], "\n");
    assert Join(["", "Fix bug"], "\n") == "" + "\n" + "Fix bug";
  }

  /**
   * The entry `svn log` prints for a one-line commit: the log keeps the
   * empty line between header and message.
   */
  lemma ParseEntryExample()
    ensures ParseEntry("r42 | alice | 2020-01-01 10:00:00 -0700 (Wed, 01 Jan 2020) | 1 line\n\nFix bug",
                       map["alice" := "Alice A <a@x.com>"])
      == Ok(Revision(42, "Alice A <a@x.com>", "2020-01-01 10:00:00 -0700", "\nFix bug"))
  {
    var header := "r42 | alice | 2020-01-01 10:00:00 -0700 (Wed, 01 Jan 2020) | 1 line";
    var body := ["", "Fix bug"];
    ExampleHeader();
    ExampleText();
    assert HeaderFields("alice", "2020-01-01 10:00:00 -0700", "Wed, 01 Jan 2020", " | 1 line");
    assert [] + [header] + body + [] == [header, "", "Fix bug"];
    ParseEntryRoundTrip([], 42, "alice", "2020-01-01 10:00:00 -0700", "Wed, 01 Jan 2020", " | 1 line",
                        body, [], map["alice" := "Alice A <a@x.com>"]);
  }
}
