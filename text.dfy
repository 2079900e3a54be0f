/**
 * The handful of Python string operations the conversion scripts rely on,
 * written out over `string` (a `seq<char>`): `str.split()`, `str.split(c)`,
 * `str.splitlines()`, `str.strip()`, `sep.join(...)`, `str.find(...) != -1`,
 * `str.replace(pat, sub)`, `int(...)` and `"%d" % n`.
 */
module Text {
  import opened Wrappers

  /** The characters Python 2's `str.split()` and `str.strip()` treat as whitespace. */
  predicate IsSpace(c: char) {
    c == ' ' || c == '\t' || c == '\n' || c == '\r' || c == '\U{000B}' || c == '\U{000C}'
  }

  predicate NoSpace(s: string) {
    forall k :: 0 <= k < |s| ==> !IsSpace(s[k])
  }

  /** The characters `str.splitlines()` breaks at. */
  predicate IsLineBreak(c: char) {
    c == '\n' || c == '\r'
  }

  predicate NoLineBreak(s: string) {
    '\n' !in s && '\r' !in s
  }

  predicate IsDigit(c: char) {
    '0' <= c <= '9'
  }

  predicate AllDigits(s: string) {
    forall k :: 0 <= k < |s| ==> IsDigit(s[k])
  }

  predicate StartsWith(s: string, prefix: string) {
    |prefix| <= |s| && s[..|prefix|] == prefix
  }

  // ---------------------------------------------------------------------------
  // Substring search: `s.find(pat) != -1`

  /** `s.find(pat) != -1`: `pat` occurs in `s` (the empty pattern occurs everywhere). */
  predicate Contains(s: string, pat: string)
    decreases |s|
  {
    StartsWith(s, pat) || (s != [] && Contains(s[1..], pat))
  }

  predicate OccursAt(s: string, pat: string, i: int) {
    0 <= i && i + |pat| <= |s| && s[i..i + |pat|] == pat
  }

  lemma {:induction false} ContainsIff(s: string, pat: string)
    ensures Contains(s, pat) <==> exists i :: OccursAt(s, pat, i)
  {
    if Contains(s, pat) {
      ContainsWitness(s, pat);
    }
    if exists i :: OccursAt(s, pat, i) {
      var i :| OccursAt(s, pat, i);
      ContainsAt(s, pat, i);
    }
  }

  lemma {:induction false} ContainsWitness(s: string, pat: string)
    requires Contains(s, pat)
    ensures exists i :: OccursAt(s, pat, i)
    decreases |s|
  {
    if StartsWith(s, pat) {
      assert OccursAt(s, pat, 0);
    } else {
      ContainsWitness(s[1..], pat);
      var i :| OccursAt(s[1..], pat, i);
      assert s[i + 1..i + 1 + |pat|] == s[1..][i..i + |pat|];
      assert OccursAt(s, pat, i + 1);
    }
  }

  /** A pattern occurring at a known position is found. */
  lemma {:induction false} ContainsAt(s: string, pat: string, i: int)
    requires OccursAt(s, pat, i)
    ensures Contains(s, pat)
    decreases i
  {
    if i > 0 {
      assert s[1..][i - 1..i - 1 + |pat|] == s[i..i + |pat|];
      ContainsAt(s[1..], pat, i - 1);
    } else {
      assert s[..|pat|] == s[0..0 + |pat|];
    }
  }

  lemma ContainsInfix(a: string, pat: string, b: string)
    ensures Contains(a + pat + b, pat)
  {
    var s := a + pat + b;
    assert s[|a|..|a| + |pat|] == pat;
    ContainsAt(s, pat, |a|);
  }

  /** An occurrence in a part is an occurrence in the whole. */
  lemma ContainsWithin(a: string, s: string, b: string, pat: string)
    requires Contains(s, pat)
    ensures Contains(a + s + b, pat)
  {
    ContainsIff(s, pat);
    var i :| OccursAt(s, pat, i);
    var w := a + s + b;
    assert w[|a| + i..|a| + i + |pat|] == s[i..i + |pat|];
    ContainsAt(w, pat, |a| + i);
  }

  /** A non-empty pattern whose first character is absent does not occur. */
  lemma NotContainsChar(s: string, pat: string)
    requires pat != [] && pat[0] !in s
    ensures !Contains(s, pat)
  {
    ContainsIff(s, pat);
  }

  // ---------------------------------------------------------------------------
  // `str.strip()`

  /** Number of leading whitespace characters. */
  function LeadingSpace(s: string): (n: nat)
    ensures n <= |s|
    ensures forall k :: 0 <= k < n ==> IsSpace(s[k])
    ensures n < |s| ==> !IsSpace(s[n])
    decreases |s|
  {
    if s != [] && IsSpace(s[0]) then 1 + LeadingSpace(s[1..]) else 0
  }

  /** The leading whitespace ends where the first non-whitespace character is. */
  lemma NoSpaceHeadLeading(s: string, n: nat)
    requires n <= |s| && (forall k :: 0 <= k < n ==> IsSpace(s[k])) && (n < |s| ==> !IsSpace(s[n]))
    ensures LeadingSpace(s) == n
    decreases n
  {
    if n > 0 {
      NoSpaceHeadLeading(s[1..], n - 1);
    }
  }

  /** Length of `s` without its trailing whitespace. */
  function TrailingStart(s: string): (n: nat)
    ensures n <= |s|
    ensures forall k :: n <= k < |s| ==> IsSpace(s[k])
    ensures 0 < n ==> !IsSpace(s[n - 1])
    decreases |s|
  {
    if s != [] && IsSpace(s[|s| - 1]) then TrailingStart(s[..|s| - 1]) else |s|
  }

  /** `s.strip()`: `s` without leading and trailing whitespace. */
  function Strip(s: string): (r: string)
    ensures r == [] || (!IsSpace(r[0]) && !IsSpace(r[|r| - 1]))
    ensures |r| <= |s|
  {
    var t := s[LeadingSpace(s)..];
    t[..TrailingStart(t)]
  }

  /** `strip` removes exactly a whitespace prefix and a whitespace suffix. */
  lemma StripIsInfix(s: string)
    ensures exists i, j ::
      0 <= i <= j <= |s| && Strip(s) == s[i..j] &&
      (forall k :: 0 <= k < i ==> IsSpace(s[k])) &&
      (forall k :: j <= k < |s| ==> IsSpace(s[k]))
  {
    var i := LeadingSpace(s);
    var t := s[i..];
    var j := i + TrailingStart(t);
    assert Strip(s) == s[i..j];
    forall k | j <= k < |s| ensures IsSpace(s[k]) {
      assert s[k] == t[k - i];
    }
  }

  /** A string with no surrounding whitespace is its own strip. */
  lemma StripNoop(s: string)
    requires s == [] || (!IsSpace(s[0]) && !IsSpace(s[|s| - 1]))
    ensures Strip(s) == s
  {
  }

  /** After stripping, the empty string is exactly the all-whitespace string. */
  lemma StripEmptyIff(s: string)
    ensures Strip(s) == [] <==> forall k :: 0 <= k < |s| ==> IsSpace(s[k])
  {
    var i := LeadingSpace(s);
    var t := s[i..];
    if i < |s| {
      assert !IsSpace(t[0]);
      assert TrailingStart(t) > 0;
    }
  }

  // ---------------------------------------------------------------------------
  // `str.split()` (no argument): maximal runs of non-whitespace

  /** Length of the leading run of non-whitespace characters. */
  function WordLength(s: string): (n: nat)
    ensures n <= |s|
    ensures forall k :: 0 <= k < n ==> !IsSpace(s[k])
    ensures n < |s| ==> IsSpace(s[n])
    decreases |s|
  {
    if s != [] && !IsSpace(s[0]) then 1 + WordLength(s[1..]) else 0
  }

  /** `s.split()`. */
  function Tokens(s: string): (ts: seq<string>)
    ensures forall k :: 0 <= k < |ts| ==> ts[k] != [] && NoSpace(ts[k])
    decreases |s|
  {
    var t := s[LeadingSpace(s)..];
    if t == [] then []
    else
      var n := WordLength(t);
      [t[..n]] + Tokens(t[n..])
  }

  /** `sep.join(ts)`. */
  function Join(ts: seq<string>, sep: string): string
    decreases |ts|
  {
    if ts == [] then []
    else if |ts| == 1 then ts[0]
    else ts[0] + sep + Join(ts[1..], sep)
  }

  lemma JoinCons(t: string, ts: seq<string>, sep: string)
    requires ts != []
    ensures Join([t] + ts, sep) == t + sep + Join(ts, sep)
  {
    assert ([t] + ts)[1..] == ts;
  }

  /** Whitespace before a word does not change the split. */
  lemma TokensSkipSpace(w: string, s: string)
    requires forall k :: 0 <= k < |w| ==> IsSpace(w[k])
    ensures Tokens(w + s) == Tokens(s)
    decreases |w|
  {
    LeadingSpaceAppend(w, s);
    assert (w + s)[|w| + LeadingSpace(s)..] == s[LeadingSpace(s)..];
  }

  lemma {:induction false} LeadingSpaceAppend(w: string, s: string)
    requires forall k :: 0 <= k < |w| ==> IsSpace(w[k])
    ensures LeadingSpace(w + s) == |w| + LeadingSpace(s)
    decreases |w|
  {
    if w != [] {
      assert (w + s)[1..] == w[1..] + s;
      LeadingSpaceAppend(w[1..], s);
    } else {
      assert w + s == s;
    }
  }

  lemma WordLengthOf(t: string, rest: string)
    requires t != [] && NoSpace(t)
    requires rest == [] || IsSpace(rest[0])
    ensures WordLength(t + rest) == |t|
  {
    var s := t + rest;
    assert forall k :: 0 <= k < |t| ==> s[k] == t[k];
    assert |t| < |s| ==> s[|t|] == rest[0];
  }

  /** A word followed by the end or by whitespace is split off as one token. */
  lemma TokensWord(t: string, rest: string)
    requires t != [] && NoSpace(t)
    requires rest == [] || IsSpace(rest[0])
    ensures Tokens(t + rest) == [t] + Tokens(rest)
  {
    assert LeadingSpace(t + rest) == 0;
    WordLengthOf(t, rest);
    assert (t + rest)[..|t|] == t;
    assert (t + rest)[|t|..] == rest;
  }

  /** One more leading word adds one more leading token. */
  lemma TokensJoinCons(t: string, ts: seq<string>)
    requires t != [] && NoSpace(t) && ts != []
    ensures Tokens(Join([t] + ts, " ")) == [t] + Tokens(Join(ts, " "))
  {
    var rest := Join(ts, " ");
    JoinCons(t, ts, " ");
    assert t + " " + rest == t + (" " + rest);
    TokensWord(t, " " + rest);
    TokensSkipSpace(" ", rest);
  }

  /** `" ".join` of whitespace-free words is split back into the same words. */
  lemma {:induction false} TokensJoin(ts: seq<string>)
    requires forall k :: 0 <= k < |ts| ==> ts[k] != [] && NoSpace(ts[k])
    ensures Tokens(Join(ts, " ")) == ts
    decreases |ts|
  {
    if |ts| == 1 {
      assert ts[0] + [] == ts[0];
      TokensWord(ts[0], []);
    } else if |ts| > 1 {
      TokensJoin(ts[1..]);
      TokensJoinCons(ts[0], ts[1..]);
      assert ts == [ts[0]] + ts[1..];
    }
  }

  // ---------------------------------------------------------------------------
  // `str.split(c)` with a one-character separator

  /** Index of the first `c` in `s`, or `|s|`. */
  function IndexOf(s: string, c: char): (n: nat)
    ensures n <= |s|
    ensures forall k :: 0 <= k < n ==> s[k] != c
    ensures n < |s| ==> s[n] == c
    decreases |s|
  {
    if s == [] then 0 else if s[0] == c then 0 else 1 + IndexOf(s[1..], c)
  }

  /** `s.split(c)`. */
  function SplitOn(s: string, c: char): (parts: seq<string>)
    ensures |parts| >= 1
    ensures forall k :: 0 <= k < |parts| ==> c !in parts[k]
    decreases |s|
  {
    var i := IndexOf(s, c);
    if i == |s| then [s] else [s[..i]] + SplitOn(s[i + 1..], c)
  }

  /** Two separator-free parts around one separator split back into the two parts. */
  lemma SplitOnPair(a: string, b: string, c: char)
    requires c !in a && c !in b
    ensures SplitOn(a + [c] + b, c) == [a, b]
  {
    var s := a + [c] + b;
    assert forall k :: 0 <= k < |a| ==> s[k] == a[k];
    assert s[|a|] == c;
    assert s[..|a|] == a && s[|a| + 1..] == b;
  }

  function CountChar(s: string, c: char): nat
    decreases |s|
  {
    if s == [] then 0 else (if s[0] == c then 1 else 0) + CountChar(s[1..], c)
  }

  lemma {:induction false} CountCharSplit(s: string, c: char, i: nat)
    requires i <= |s|
    ensures CountChar(s, c) == CountChar(s[..i], c) + CountChar(s[i..], c)
    decreases |s|
  {
    if i == 0 {
      assert s[..0] == [];
      assert s[0..] == s;
    } else {
      CountCharSplit(s[1..], c, i - 1);
      assert s[1..][..i - 1] == s[..i][1..];
      assert s[1..][i - 1..] == s[i..];
    }
  }

  lemma {:induction false} CountCharAbsent(s: string, c: char)
    requires c !in s
    ensures CountChar(s, c) == 0
    decreases |s|
  {
    if s != [] {
      assert c !in s[1..] by {
        forall k | 0 <= k < |s[1..]| ensures s[1..][k] != c { assert s[1..][k] == s[k + 1]; }
      }
      CountCharAbsent(s[1..], c);
    }
  }

  /** `s.split(c)` has one more part than `s` has separators. */
  lemma {:induction false} SplitOnCount(s: string, c: char)
    ensures |SplitOn(s, c)| == CountChar(s, c) + 1
    decreases |s|
  {
    var i := IndexOf(s, c);
    assert c !in s[..i];
    CountCharAbsent(s[..i], c);
    CountCharSplit(s, c, i);
    if i < |s| {
      SplitOnCount(s[i + 1..], c);
      assert s[i..] == [c] + s[i + 1..];
      assert ([c] + s[i + 1..])[1..] == s[i + 1..];
    } else {
      assert s[i..] == [];
    }
  }

  /** Splitting and joining with the same separator is the identity. */
  lemma {:induction false} JoinSplitOn(s: string, c: char)
    ensures Join(SplitOn(s, c), [c]) == s
    decreases |s|
  {
    var i := IndexOf(s, c);
    if i < |s| {
      var rest := SplitOn(s[i + 1..], c);
      JoinSplitOn(s[i + 1..], c);
      JoinCons(s[..i], rest, [c]);
      assert s == s[..i] + [c] + s[i + 1..];
    }
  }

  // ---------------------------------------------------------------------------
  // `str.splitlines()`: breaks at "\n", "\r" and "\r\n"; no trailing empty line

  function LineLength(s: string): (n: nat)
    ensures n <= |s|
    ensures NoLineBreak(s[..n])
    ensures n < |s| ==> IsLineBreak(s[n])
    decreases |s|
  {
    if s == [] || IsLineBreak(s[0]) then 0
    else
      var n := 1 + LineLength(s[1..]);
      assert s[..n] == [s[0]] + s[1..][..n - 1];
      n
  }

  /** `s.splitlines()`. */
  function SplitLines(s: string): (lines: seq<string>)
    ensures forall k :: 0 <= k < |lines| ==> NoLineBreak(lines[k])
    decreases |s|
  {
    if s == [] then []
    else
      var n := LineLength(s);
      if n == |s| then [s]
      else
        var skip := if s[n] == '\r' && n + 1 < |s| && s[n + 1] == '\n' then 2 else 1;
        [s[..n]] + SplitLines(s[n + skip..])
  }

  lemma LineLengthOf(l: string, rest: string)
    requires NoLineBreak(l)
    requires rest == [] || IsLineBreak(rest[0])
    ensures LineLength(l + rest) == |l|
  {
    var s := l + rest;
    assert forall k :: 0 <= k < |l| ==> s[k] == l[k] && l[k] in l;
    assert |l| < |s| ==> s[|l|] == rest[0];
  }

  /**
   * `"\n".join(lines).splitlines() == lines` for lines without breaks whose
   * last line is not empty (a trailing empty line would vanish).
   */
  lemma {:induction false} SplitLinesJoin(lines: seq<string>)
    requires forall k :: 0 <= k < |lines| ==> NoLineBreak(lines[k])
    requires lines != [] ==> lines[|lines| - 1] != []
    ensures SplitLines(Join(lines, "\n")) == lines
    decreases |lines|
  {
    if lines == [] {
    } else if |lines| == 1 {
      LineLengthOf(lines[0], []);
      assert lines[0] + [] == lines[0];
    } else {
      var tail := lines[1..];
      assert lines == [lines[0]] + tail;
      JoinCons(lines[0], tail, "\n");
      SplitLinesCons(lines[0], Join(tail, "\n"));
      SplitLinesJoin(tail);
    }
  }

  /** A line without breaks followed by `\n` is split off as the first line. */
  lemma SplitLinesCons(l: string, rest: string)
    requires NoLineBreak(l)
    ensures SplitLines(l + "\n" + rest) == [l] + SplitLines(rest)
  {
    var s := l + "\n" + rest;
    assert s == l + ("\n" + rest);
    LineLengthOf(l, "\n" + rest);
    assert LineLength(s) == |l| && s[|l|] == '\n';
    assert SplitLines(s) == [s[..|l|]] + SplitLines(s[|l| + 1..]);
    assert s[..|l|] == l;
    assert s[|l| + 1..] == rest;
  }

  // ---------------------------------------------------------------------------
  // `s.replace(pat, sub)`: every non-overlapping occurrence, left to right

  /** `s.replace("", sub)`: `sub` before every character and at the end. */
  function Interleave(s: string, sub: string): string
    decreases |s|
  {
    if s == [] then sub else sub + [s[0]] + Interleave(s[1..], sub)
  }

  /** `s.replace(pat, sub)`. */
  function Replace(s: string, pat: string, sub: string): string
    decreases |s|
  {
    if pat == [] then Interleave(s, sub)
    else if StartsWith(s, pat) then sub + Replace(s[|pat|..], pat, sub)
    else if s == [] then []
    else [s[0]] + Replace(s[1..], pat, sub)
  }

  /** A string without an occurrence of `pat` is left untouched. */
  lemma {:induction false} ReplaceAbsent(s: string, pat: string, sub: string)
    requires pat != [] && !Contains(s, pat)
    ensures Replace(s, pat, sub) == s
    decreases |s|
  {
    if s != [] {
      ReplaceAbsent(s[1..], pat, sub);
      assert s == [s[0]] + s[1..];
    }
  }

  /** With `pat` leading and occurring nowhere else, it becomes `sub`. */
  lemma ReplacePrefix(pat: string, rest: string, sub: string)
    requires pat != [] && !Contains(rest, pat)
    ensures Replace(pat + rest, pat, sub) == sub + rest
  {
    assert (pat + rest)[..|pat|] == pat;
    assert (pat + rest)[|pat|..] == rest;
    ReplaceAbsent(rest, pat, sub);
  }

  /** Replacing a pattern sub itself changes nothing. */
  lemma {:induction false} ReplaceSelf(s: string, pat: string)
    requires pat != []
    ensures Replace(s, pat, pat) == s
    decreases |s|
  {
    if StartsWith(s, pat) {
      ReplaceSelf(s[|pat|..], pat);
      assert s == s[..|pat|] + s[|pat|..];
    } else if s != [] {
      ReplaceSelf(s[1..], pat);
      assert s == [s[0]] + s[1..];
    }
  }

  // ---------------------------------------------------------------------------
  // Decimal numbers: Python's `int(s)` and `"%d" % n`

  function DigitValue(c: char): nat
    requires IsDigit(c)
  {
    (c as int - '0' as int) as nat
  }

  function DigitChar(d: nat): (c: char)
    requires d < 10
    ensures IsDigit(c) && DigitValue(c) == d
  {
    ('0' as int + d) as char
  }

  /** The value of a string of decimal digits. */
  function DigitsValue(s: string): nat
    requires AllDigits(s)
    decreases |s|
  {
    if s == [] then 0 else DigitsValue(s[..|s| - 1]) * 10 + DigitValue(s[|s| - 1])
  }

  /** `"%d" % n` for a natural number. */
  function NatToString(n: nat): (s: string)
    ensures s != [] && AllDigits(s)
    decreases n
  {
    if n < 10 then [DigitChar(n)] else NatToString(n / 10) + [DigitChar(n % 10)]
  }

  /** `"%d" % i`. */
  function IntToString(i: int): (s: string)
    ensures s != []
  {
    if i < 0 then "-" + NatToString(-i) else NatToString(i)
  }

  /** The numerals the examples use. */
  lemma Numerals()
    ensures NatToString(3) == "3" && NatToString(5) == "5"
    ensures NatToString(10) == "10" && NatToString(42) == "42" && IntToString(42) == "42"
  {
    assert NatToString(10) == NatToString(1) + [DigitChar(0)];
    assert NatToString(42) == NatToString(4) + [DigitChar(2)];
  }

  lemma {:induction false} DigitsValueNatToString(n: nat)
    ensures DigitsValue(NatToString(n)) == n
    decreases n
  {
    if n >= 10 {
      DigitsValueNatToString(n / 10);
      var s := NatToString(n);
      assert s[..|s| - 1] == NatToString(n / 10);
    }
  }

  /**
   * Python 2's `int(s)` on a `str`: surrounding whitespace, an optional sign,
   * more whitespace after the sign (`PyOS_strtol` skips it again), then one
   * or more decimal digits; anything else is a `ValueError` (`None`).
   */
  function ParseInt(s: string): (r: Option<int>)
    ensures r.Some? ==> Strip(s) != []
  {
    var t := Strip(s);
    if t != [] && (t[0] == '-' || t[0] == '+') then
      match Unsigned(SkipSpace(t[1..]))
      case None => None
      case Some(v) => Some(if t[0] == '-' then -(v as int) else v)
    else
      match Unsigned(t)
      case None => None
      case Some(v) => Some(v)
  }

  /** One or more decimal digits and nothing else, read as a number. */
  function Unsigned(d: string): (r: Option<nat>)
    ensures r.Some? ==> d != []
  {
    if d != [] && AllDigits(d) then Some(DigitsValue(d)) else None
  }

  /** `s` without its leading whitespace. */
  function SkipSpace(u: string): string {
    u[LeadingSpace(u)..]
  }

  /** A sign, then text that reads as the number `v` once its leading whitespace is skipped. */
  lemma ParseIntSigned(sign: char, u: string, v: nat)
    requires sign == '-' || sign == '+'
    requires u != [] && !IsSpace(u[|u| - 1])
    requires Unsigned(SkipSpace(u)) == Some(v)
    ensures ParseInt([sign] + u) == Some(if sign == '-' then -(v as int) else v)
  {
    var s := [sign] + u;
    assert s[|s| - 1] == u[|u| - 1];
    StripNoop(s);
    assert s[1..] == u;
  }

  /** `int("%d" % n) == n`. */
  lemma ParseIntNatToString(n: nat)
    ensures ParseInt(NatToString(n)) == Some(n)
  {
    var s := NatToString(n);
    StripNoop(s);
    DigitsValueNatToString(n);
  }

  lemma ParseIntIntToString(i: int)
    ensures ParseInt(IntToString(i)) == Some(i)
  {
    if i < 0 {
      var d := NatToString(-i);
      assert IsDigit(d[0]) && IsDigit(d[|d| - 1]);
      NoSpaceHeadLeading(d, 0);
      assert SkipSpace(d) == d;
      DigitsValueNatToString(-i);
      ParseIntSigned('-', d, -i);
      assert "-" + d == ['-'] + d;
    } else {
      ParseIntNatToString(i);
    }
  }

  /** Whitespace before a non-whitespace character is skipped. */
  lemma SkipSpaceOf(w: string, d: string)
    requires forall k :: 0 <= k < |w| ==> IsSpace(w[k])
    requires d != [] && !IsSpace(d[0])
    ensures SkipSpace(w + d) == d
  {
    var u := w + d;
    assert u[|w|] == d[0];
    NoSpaceHeadLeading(u, |w|);
    assert u[|w|..] == d;
  }

  /** Whitespace between the sign and the digits is skipped: `int("- 5") == -5`. */
  lemma ParseIntSpaceAfterSign(sign: char, w: string, d: string, v: nat)
    requires sign == '-' || sign == '+'
    requires forall k :: 0 <= k < |w| ==> IsSpace(w[k])
    requires Unsigned(d) == Some(v)
    ensures ParseInt([sign] + (w + d)) == Some(if sign == '-' then -(v as int) else v)
  {
    assert IsDigit(d[0]) && IsDigit(d[|d| - 1]);
    SkipSpaceOf(w, d);
    assert (w + d)[|w + d| - 1] == d[|d| - 1];
    ParseIntSigned(sign, w + d, v);
  }

  lemma ParseIntSpacedExample()
    ensures ParseInt("- 5") == Some(-5)
  {
    SkipSpaceOf(" ", "5");
    assert DigitsValue("5") == 5;
    ParseIntSigned('-', " 5", 5);
    assert "- 5" == ['-'] + " 5";
  }

  lemma ParseIntSpacedPlusExample()
    ensures ParseInt("+ 7") == Some(7)
  {
    SkipSpaceOf(" ", "7");
    assert DigitsValue("7") == 7;
    ParseIntSigned('+', " 7", 7);
    assert "+ 7" == ['+'] + " 7";
  }

  /** A blank or all-whitespace text is not a number: `int` raises on it. */
  lemma ParseIntRejectsSpaceOnly(s: string)
    requires forall k :: 0 <= k < |s| ==> IsSpace(s[k])
    ensures ParseInt(s) == None
  {
    StripEmptyIff(s);
  }
}
