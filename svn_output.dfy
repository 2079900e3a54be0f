/**
 * What the scripts read back from `svn`: the outcome of one command run, and
 * the scanners over `svn info` and `svn log -v` output.
 */
module SvnOutput {
  import opened Wrappers
  import opened Text

  /**
   * One run of an external command: exit status 0 with its standard output,
   * or a non-zero exit (the scripts' `CalledProcessError`) with both streams.
   */
  datatype CmdResult = Completed(stdout: string) | Failed(stdout: string, stderr: string) {
    predicate Succeeded() { Completed? }
  }

  /** A command run under the SIGALRM timeout: it finished, or it was killed. */
  datatype Timed = Finished(result: CmdResult) | TimedOut

  /** Why a value could not be read from `svn info` output. */
  datatype InfoError =
    | NoField(name: string)        // no line carries the field (ValueError)
    | NotANumber(text: string)     // `int(...)` of the field failed (ValueError)

  /** Index of the first line starting with `prefix`, or `|lines|`. */
  function FirstMatch(lines: seq<string>, prefix: string): (i: nat)
    ensures i <= |lines|
    ensures forall k :: 0 <= k < i ==> !StartsWith(lines[k], prefix)
    ensures i < |lines| ==> StartsWith(lines[i], prefix)
    decreases |lines|
  {
    if lines == [] then 0
    else if StartsWith(lines[0], prefix) then 0
    else
      var j := FirstMatch(lines[1..], prefix);
      assert forall k :: 1 <= k < 1 + j ==> lines[k] == lines[1..][k - 1];
      1 + j
  }

  /**
   * The scanners' `re.search(r'^<prefix>(.*)$', line)` over the lines, first
   * match wins: the rest of the first line that starts with `prefix`. The
   * lines come from `splitlines`, so `.` matches each of their characters.
   */
  function FirstField(lines: seq<string>, prefix: string): (r: Option<string>)
    ensures r.None? <==> forall k :: 0 <= k < |lines| ==> !StartsWith(lines[k], prefix)
    ensures r.Some? ==> exists i ::
      0 <= i < |lines| && lines[i] == prefix + r.value &&
      forall k :: 0 <= k < i ==> !StartsWith(lines[k], prefix)
  {
    var i := FirstMatch(lines, prefix);
    if i == |lines| then None
    else
      assert lines[i] == prefix + lines[i][|prefix|..];
      Some(lines[i][|prefix|..])
  }

  /** `getRevisionInCwd`: the integer after `Revision: ` in `svn info` output. */
  function RevisionIn(info: string): (r: Result<int, InfoError>)
    ensures r.Err? && r.error.NoField? <==> FirstField(SplitLines(info), "Revision: ").None?
    ensures r.Ok? <==> (FirstField(SplitLines(info), "Revision: ").Some? &&
                        ParseInt(FirstField(SplitLines(info), "Revision: ").value).Some?)
  {
    match FirstField(SplitLines(info), "Revision: ")
    case None => Err(NoField("Revision"))
    case Some(v) =>
      match ParseInt(v)
      case None => Err(NotANumber(v))
      case Some(n) => Ok(n)
  }

  /** `getUrlInCwd`: the text after `URL: ` in `svn info` output. */
  function UrlIn(info: string): (r: Result<string, InfoError>)
    ensures r.Ok? <==> FirstField(SplitLines(info), "URL: ").Some?
    ensures r.Ok? ==> r.value == FirstField(SplitLines(info), "URL: ").value
  {
    match FirstField(SplitLines(info), "URL: ")
    case None => Err(NoField("URL"))
    case Some(v) => Ok(v)
  }

  /** `getNodeKindForUrl`'s scan: the text after `Node Kind: `. */
  function NodeKindIn(info: string): (r: Result<string, InfoError>)
    ensures r.Ok? <==> FirstField(SplitLines(info), "Node Kind: ").Some?
    ensures r.Ok? ==> r.value == FirstField(SplitLines(info), "Node Kind: ").value
  {
    match FirstField(SplitLines(info), "Node Kind: ")
    case None => Err(NoField("Node Kind"))
    case Some(v) => Ok(v)
  }

  /** Number of leading `' '` characters (the regex ` *`). */
  function LeadingBlanks(s: string): (n: nat)
    ensures n <= |s|
    ensures forall k :: 0 <= k < n ==> s[k] == ' '
    ensures n < |s| ==> s[n] != ' '
    decreases |s|
  {
    if s != [] && s[0] == ' ' then 1 + LeadingBlanks(s[1..]) else 0
  }

  /**
   * `re.search(r'^ *D(.*)', line)` followed by `.strip()` of the group: the
   * stripped rest of a line that is blanks, then `D`.
   */
  function DeletedItem(line: string): (r: Option<string>)
    ensures r.Some? <==> LeadingBlanks(line) < |line| && line[LeadingBlanks(line)] == 'D'
  {
    var n := LeadingBlanks(line);
    if n < |line| && line[n] == 'D' then Some(Strip(line[n + 1..])) else None
  }

  predicate DeletesUrl(line: string, url: string) {
    DeletedItem(line).Some? && Contains(url, DeletedItem(line).value)
  }

  /**
   * `isThisPathDeleted` over the lines of `svn log -v -r N ROOT`: some line of
   * the `D` form names a text that occurs in `url`.
   */
  function PathDeleted(url: string, lines: seq<string>): (r: bool)
    ensures r <==> exists k :: 0 <= k < |lines| && DeletesUrl(lines[k], url)
    decreases |lines|
  {
    if lines == [] then false
    else if DeletesUrl(lines[0], url) then true
    else
      var r := PathDeleted(url, lines[1..]);
      assert forall k :: 1 <= k < |lines| ==> lines[k] == lines[1..][k - 1];
      r
  }

  /** The first line carrying the prefix gives the field. */
  lemma FieldAt(lines: seq<string>, prefix: string, i: nat, value: string)
    requires i < |lines| && lines[i] == prefix + value
    requires forall k :: 0 <= k < i ==> !StartsWith(lines[k], prefix)
    ensures FirstField(lines, prefix) == Some(value)
  {
    assert lines[i][..|prefix|] == prefix;
    assert FirstMatch(lines, prefix) == i;
    assert lines[i][|prefix|..] == value;
  }

  /** Output text whose first line carrying `prefix` is `prefix + value` yields `value`. */
  lemma FieldInText(text: string, lines: seq<string>, pre: seq<string>, prefix: string, value: string, post: seq<string>)
    requires lines == pre + [prefix + value] + post && text == Join(lines, "\n")
    requires forall k :: 0 <= k < |lines| ==> NoLineBreak(lines[k])
    requires lines[|lines| - 1] != []
    requires forall k :: 0 <= k < |pre| ==> !StartsWith(pre[k], prefix)
    ensures FirstField(SplitLines(text), prefix) == Some(value)
  {
    SplitLinesJoin(lines);
    assert forall k :: 0 <= k < |pre| ==> lines[k] == pre[k];
    FieldAt(lines, prefix, |pre|, value);
  }

  /** A changed-path line `   D /trunk/lib` marks every URL ending in `/trunk/lib` deleted. */
  lemma DeletedPathLine(blanks: string, path: string, repoRoot: string)
    requires forall k :: 0 <= k < |blanks| ==> blanks[k] == ' '
    requires path != [] && !IsSpace(path[0]) && !IsSpace(path[|path| - 1])
    ensures PathDeleted(repoRoot + path, [blanks + "D " + path])
  {
    var line := blanks + "D " + path;
    DeletedItemOf(blanks, path);
    assert Contains(repoRoot + path, path) by {
      assert repoRoot + path == repoRoot + path + [];
      ContainsInfix(repoRoot, path, []);
    }
    assert DeletesUrl(line, repoRoot + path);
    assert [line][0] == line;
  }

  lemma DeletedItemOf(blanks: string, path: string)
    requires forall k :: 0 <= k < |blanks| ==> blanks[k] == ' '
    requires path != [] && !IsSpace(path[0]) && !IsSpace(path[|path| - 1])
    ensures DeletedItem(blanks + "D " + path) == Some(path)
  {
    var line := blanks + "D " + path;
    assert line == blanks + ("D " + path);
    LeadingBlanksOf(blanks, "D " + path);
    assert line[|blanks| + 1..] == " " + path;
    StripBlankPrefix(path);
  }

  lemma StripBlankPrefix(path: string)
    requires path != [] && !IsSpace(path[0]) && !IsSpace(path[|path| - 1])
    ensures Strip(" " + path) == path
  {
    var s := " " + path;
    NoSpaceHeadLeading(s, 1);
    assert s[1..] == path;
  }

  lemma {:induction false} LeadingBlanksOf(blanks: string, rest: string)
    requires forall k :: 0 <= k < |blanks| ==> blanks[k] == ' '
    requires rest != [] && rest[0] != ' '
    ensures LeadingBlanks(blanks + rest) == |blanks|
    decreases |blanks|
  {
    if blanks == [] {
      assert blanks + rest == rest;
    } else {
      assert (blanks + rest)[1..] == blanks[1..] + rest;
      LeadingBlanksOf(blanks[1..], rest);
    }
  }

  /**
   * A `D` line with only whitespace after it names the empty text, which
   * `find` locates in every URL: such a line marks any path deleted.
   */
  lemma BareDeleteMarksEverything(url: string, blanks: string, trailing: string)
    requires forall k :: 0 <= k < |blanks| ==> blanks[k] == ' '
    requires forall k :: 0 <= k < |trailing| ==> IsSpace(trailing[k])
    ensures PathDeleted(url, [blanks + "D" + trailing])
  {
    var line := blanks + "D" + trailing;
    assert line == blanks + ("D" + trailing);
    LeadingBlanksOf(blanks, "D" + trailing);
    assert line[|blanks| + 1..] == trailing;
    StripEmptyIff(trailing);
    assert StartsWith(url, []);
    assert DeletesUrl(line, url);
    assert [line][0] == line;
  }
}
