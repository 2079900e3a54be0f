/**
 * `getExternals` of the older script: only lines of two or four tokens
 * count; a four-token line whose second token is `-` names the parent
 * directory; a definition is a URL (recognised by `^https*://` only) and a
 * local name in either order; the node kind is queried at the top-level
 * revision.
 */
module LegacyExternals {
  import opened Wrappers
  import opened Text
  import opened SvnOutput
  import Externals

  /** `Extern(object, url, isdirectory)`. */
  datatype LegacyExtern = LegacyExtern(path: string, url: string, isDirectory: bool)

  /** What stops the older scan (each an exception in the script). */
  datatype LegacyExternalsError =
    | PropgetFailed(stderr: string)   // `svn propget` exited non-zero
    | OddTokenCount(line: string)     // RuntimeError "line with odd number of tokens"
    | CwdInfoFailed(stderr: string)   // `svn info -r N` for a URL header exited non-zero
    | NoCwdUrl(line: string)          // `getUrl` returned None: `replace(None, "")` raises TypeError
    | EmptyParent(line: string)       // `currentParentDir[0]` of an empty string raises IndexError
    | NoParent(line: string)          // `None + "/"` before any header raises TypeError
    | NoUrl(line: string)             // RuntimeError "Where's the URL?"
    | NodeKindFailed(stderr: string)  // `svn info -r N URL` exited non-zero

  /** `rootrepo`, `remoterepos`, the top-level revision and `svn info -r N URL`. */
  datatype LegacyEnv = LegacyEnv(rootrepo: string, remotes: seq<string>, revnum: int, nodeKind: (string, int) -> CmdResult)

  // ---------------------------------------------------------------------------
  // `^https*://`

  /** The end of the run of `s` starting at `i`. */
  function SRun(s: string, i: nat): (j: nat)
    requires i <= |s|
    ensures i <= j <= |s| && (j < |s| ==> s[j] != 's')
    ensures forall k :: i <= k < j ==> s[k] == 's'
    decreases |s| - i
  {
    if i < |s| && s[i] == 's' then SRun(s, i + 1) else i
  }

  /** `http`, any number of `s`, then `://`. */
  predicate IsHttpUrl(token: string) {
    StartsWith(token, "http") && StartsWith(token[SRun(token, 4)..], "://")
  }

  // ---------------------------------------------------------------------------
  // Lines

  /** The parent a header's first token names: a URL form loses the working copy's URL and one leading `/`. */
  function HeaderDir(first: string, cwdInfo: CmdResult, line: string): Result<string, LegacyExternalsError> {
    if !Contains(first, "://") then Ok(first)
    else
      match cwdInfo
      case Failed(_, err) => Err(CwdInfoFailed(err))
      case Completed(text) =>
        match UrlIn(text)
        case Err(_) => Err(NoCwdUrl(line))
        case Ok(url) =>
          var d := Replace(first, url, "");
          if d == [] then Err(EmptyParent(line))
          else Ok(if d[0] == '/' then d[1..] else d)
  }

  /** A definition pair: skipped when its second token is `-`, otherwise the URL and the local name in either order. */
  function DefinitionOf(pair: seq<string>, parent: Option<string>, line: string): Result<Option<(string, string)>, LegacyExternalsError>
    requires |pair| >= 2
  {
    if pair[1] == "-" then Ok(None)
    else
      var (url, name) := if IsHttpUrl(pair[0]) then (pair[0], pair[1]) else (pair[1], pair[0]);
      if !IsHttpUrl(pair[0]) && !IsHttpUrl(pair[1]) then Err(NoUrl(line))
      else if parent.None? then Err(NoParent(line))
      else Ok(Some((parent.value + "/" + name, url)))
  }

  /** One line: the parent afterwards, and the (child, URL) it defines if any. */
  function ParseLine(line: string, parent: Option<string>, cwdInfo: CmdResult): Result<(Option<string>, Option<(string, string)>), LegacyExternalsError> {
    var tokens := Tokens(line);
    if |tokens| == 2 || |tokens| == 4 then
      if tokens[1] == "-" && |tokens| == 4 then
        match HeaderDir(tokens[0], cwdInfo, line)
        case Err(e) => Err(e)
        case Ok(d) =>
          match DefinitionOf(tokens[2..], Some(d), line)
          case Err(e) => Err(e)
          case Ok(def) => Ok((Some(d), def))
      else
        match DefinitionOf(tokens, parent, line)
        case Err(e) => Err(e)
        case Ok(def) => Ok((parent, def))
    else if tokens != [] then Err(OddTokenCount(line))
    else Ok((parent, None))
  }

  /** The mirror rewrite, then `getNodeKindForUrl(url, revnum)`: a directory exactly when the first `Node Kind:` says so. */
  function LookupKind(child: string, url: string, env: LegacyEnv): Result<LegacyExtern, LegacyExternalsError> {
    var u := Externals.Mirror(url, env.remotes, env.rootrepo);
    match env.nodeKind(u, env.revnum)
    case Failed(_, err) => Err(NodeKindFailed(err))
    case Completed(text) => Ok(LegacyExtern(child, u, NodeKindIn(text) == Ok("directory")))
  }

  datatype LegacyScan = LegacyScan(externs: seq<LegacyExtern>, failure: Option<LegacyExternalsError>)

  function Prepend(exs: seq<LegacyExtern>, s: LegacyScan): LegacyScan {
    LegacyScan(exs + s.externs, s.failure)
  }

  lemma PrependAssoc(a: seq<LegacyExtern>, b: seq<LegacyExtern>, s: LegacyScan)
    ensures Prepend(a, Prepend(b, s)) == Prepend(a + b, s)
  {
    assert a + (b + s.externs) == (a + b) + s.externs;
  }

  function ScanLines(lines: seq<string>, parent: Option<string>, cwdInfo: CmdResult, env: LegacyEnv): LegacyScan
    decreases |lines|
  {
    if lines == [] then LegacyScan([], None)
    else
      match ParseLine(lines[0], parent, cwdInfo)
      case Err(e) => LegacyScan([], Some(e))
      case Ok((p, None)) => ScanLines(lines[1..], p, cwdInfo, env)
      case Ok((p, Some((child, url)))) =>
        match LookupKind(child, url, env)
        case Err(e) => LegacyScan([], Some(e))
        case Ok(ex) => Prepend([ex], ScanLines(lines[1..], p, cwdInfo, env))
  }

  /** `getExternals(revnum)` given `svn propget svn:externals -r N -R` and `svn info -r N` in the working copy. */
  function ExternalsOf(propget: CmdResult, cwdInfo: CmdResult, env: LegacyEnv): LegacyScan {
    match propget
    case Failed(_, err) => LegacyScan([], Some(PropgetFailed(err)))
    case Completed(text) => ScanLines(SplitLines(text), None, cwdInfo, env)
  }

  method GetExternals(propget: CmdResult, cwdInfo: CmdResult, env: LegacyEnv) returns (scan: LegacyScan)
    ensures scan == ExternalsOf(propget, cwdInfo, env)
  {
    if propget.Failed? {
      return LegacyScan([], Some(PropgetFailed(propget.stderr)));
    }
    var text := SplitLines(propget.stdout);
    var externs: seq<LegacyExtern> := [];
    var currentParentDir: Option<string> := None;
    var i := 0;
    while i < |text|
      invariant 0 <= i <= |text|
      invariant ExternalsOf(propget, cwdInfo, env) == Prepend(externs, ScanLines(text[i..], currentParentDir, cwdInfo, env))
    {
      var line := text[i];
      assert text[i..][0] == line && text[i..][1..] == text[i + 1..];
      var parsed := ParseLine(line, currentParentDir, cwdInfo);
      if parsed.Err? {
        return LegacyScan(externs, Some(parsed.error));
      }
      currentParentDir := parsed.value.0;
      if parsed.value.1.Some? {
        var ex := LookupKind(parsed.value.1.value.0, parsed.value.1.value.1, env);
        if ex.Err? {
          return LegacyScan(externs, Some(ex.error));
        }
        PrependAssoc(externs, [ex.value], ScanLines(text[i + 1..], currentParentDir, cwdInfo, env));
        externs := externs + [ex.value];
      }
      i := i + 1;
    }
    return LegacyScan(externs, None);
  }

  // ---------------------------------------------------------------------------
  // Properties

  /** Both schemes the older script knows are URLs. */
  lemma HttpSchemes(rest: string)
    ensures IsHttpUrl("http://" + rest) && IsHttpUrl("https://" + rest)
  {
    var a, b := "http://" + rest, "https://" + rest;
    assert a[..4] == "http" && b[..4] == "http";
    assert SRun(a, 4) == 4;
    assert SRun(b, 5) == 5;
    assert a[4..][..3] == "://" && b[5..][..3] == "://";
  }

  /** Any other scheme is not: `svn://` or `file://` definitions have no URL for the older script. */
  lemma OtherSchemesRejected(token: string)
    requires !StartsWith(token, "http")
    ensures !IsHttpUrl(token)
  {
  }

  /** A line of one, three, five or more tokens raises. */
  lemma OddLinesRaise(line: string, parent: Option<string>, cwdInfo: CmdResult)
    requires |Tokens(line)| != 0 && |Tokens(line)| != 2 && |Tokens(line)| != 4
    ensures ParseLine(line, parent, cwdInfo) == Err(OddTokenCount(line))
  {
  }

  /** A blank line changes nothing. */
  lemma BlankLineIgnored(line: string, parent: Option<string>, cwdInfo: CmdResult)
    requires Tokens(line) == []
    ensures ParseLine(line, parent, cwdInfo) == Ok((parent, None))
  {
  }

  /** The URL may come first or second; the other token is the local name under the parent; neither being a URL raises. */
  lemma DefinitionOrder(a: string, b: string, parent: string, line: string)
    requires b != "-"
    ensures IsHttpUrl(a) ==> DefinitionOf([a, b], Some(parent), line) == Ok(Some((parent + "/" + b, a)))
    ensures !IsHttpUrl(a) && IsHttpUrl(b) ==> DefinitionOf([a, b], Some(parent), line) == Ok(Some((parent + "/" + a, b)))
    ensures !IsHttpUrl(a) && !IsHttpUrl(b) ==> DefinitionOf([a, b], Some(parent), line) == Err(NoUrl(line))
  {
  }

  /** A definition whose second token is `-` (a removed extern) is skipped. */
  lemma RemovedDefinitionSkipped(a: string, parent: Option<string>, line: string)
    ensures DefinitionOf([a, "-"], parent, line) == Ok(None)
  {
  }

  /** Before any header there is no parent, and a definition raises. */
  lemma NoHeaderYet(a: string, b: string, line: string)
    requires b != "-" && (IsHttpUrl(a) || IsHttpUrl(b))
    ensures DefinitionOf([a, b], None, line) == Err(NoParent(line))
  {
  }

  /** A four-token header sets the parent to its first token and defines from the last two. */
  lemma HeaderLine(line: string, dir: string, a: string, b: string, parent: Option<string>, cwdInfo: CmdResult)
    requires Tokens(line) == [dir, "-", a, b] && !Contains(dir, "://")
    ensures ParseLine(line, parent, cwdInfo) ==
      match DefinitionOf([a, b], Some(dir), line)
      case Err(e) => Err(e)
      case Ok(def) => Ok((Some(dir), def))
  {
    assert Tokens(line)[2..] == [a, b];
  }

  /** A two-token line keeps the parent; so does a four-token line that is not a header. */
  lemma NonHeaderKeepsParent(line: string, parent: Option<string>, cwdInfo: CmdResult)
    requires |Tokens(line)| == 2 || (|Tokens(line)| == 4 && Tokens(line)[1] != "-")
    requires ParseLine(line, parent, cwdInfo).Ok?
    ensures ParseLine(line, parent, cwdInfo).value.0 == parent
  {
  }

  /** A URL header drops the working copy's URL and the `/` after it. */
  lemma UrlHeaderDir(url: string, rel: string, text: string, line: string)
    requires UrlIn(text) == Ok(url)
    requires Contains(url, "://") && !Contains("/" + rel, url) && rel != []
    ensures HeaderDir(url + "/" + rel, Completed(text), line) == Ok(rel)
  {
    assert url != [];
    ContainsWithin([], url, "/" + rel, "://");
    assert [] + url + ("/" + rel) == url + "/" + rel;
    ReplacePrefix(url, "/" + rel, "");
    assert "" + ("/" + rel) == "/" + rel;
  }

  /** A URL header that is exactly the working copy's URL leaves nothing, and indexing it raises. */
  lemma UrlHeaderEmpty(url: string, text: string, line: string)
    requires UrlIn(text) == Ok(url) && Contains(url, "://")
    ensures HeaderDir(url, Completed(text), line) == Err(EmptyParent(line))
  {
    assert url != [] && url + "" == url;
    ReplacePrefix(url, "", "");
  }

  /** The node kind decides `isdirectory`; no `Node Kind:` line at all means not a directory. */
  lemma KindDecidesDirectory(child: string, url: string, env: LegacyEnv, text: string)
    requires env.nodeKind(Externals.Mirror(url, env.remotes, env.rootrepo), env.revnum) == Completed(text)
    ensures LookupKind(child, url, env).Ok?
    ensures LookupKind(child, url, env).value.isDirectory <==> FirstField(SplitLines(text), "Node Kind: ") == Some("directory")
  {
  }

  /** A four-token line whose second token is `-` names the parent directory of what follows. */
  predicate IsHeader(line: string) {
    |Tokens(line)| == 4 && Tokens(line)[1] == "-"
  }

  /** A line that is not a header keeps the parent `p`, and what it defines lies in `p`. */
  lemma NonHeaderUnder(line: string, p: string, cwdInfo: CmdResult)
    requires !IsHeader(line) && ParseLine(line, Some(p), cwdInfo).Ok?
    ensures ParseLine(line, Some(p), cwdInfo).value.0 == Some(p)
    ensures ParseLine(line, Some(p), cwdInfo).value.1.Some? ==>
      StartsWith(ParseLine(line, Some(p), cwdInfo).value.1.value.0, p + "/")
  {
    var tokens := Tokens(line);
    if |tokens| == 2 || |tokens| == 4 {
      var d := DefinitionOf(tokens, Some(p), line);
      if d.Ok? && d.value.Some? {
        var name := if IsHttpUrl(tokens[0]) then tokens[1] else tokens[0];
        assert d.value.value.0 == p + "/" + name;
        assert (p + "/" + name)[..|p + "/"|] == p + "/";
      }
    }
  }

  /** Once a header has set the parent `p`, every extern yielded up to the next header lies in `p`. */
  lemma {:induction false} ParentPersists(lines: seq<string>, p: string, cwdInfo: CmdResult, env: LegacyEnv)
    requires forall k :: 0 <= k < |lines| ==> !IsHeader(lines[k])
    ensures forall k :: 0 <= k < |ScanLines(lines, Some(p), cwdInfo, env).externs| ==>
      StartsWith(ScanLines(lines, Some(p), cwdInfo, env).externs[k].path, p + "/")
    decreases |lines|
  {
    if lines != [] {
      var r := ParseLine(lines[0], Some(p), cwdInfo);
      if r.Ok? {
        NonHeaderUnder(lines[0], p, cwdInfo);
        ParentPersists(lines[1..], p, cwdInfo, env);
      }
    }
  }

  /**
   * While the lines parse, keep the parent and their lookups succeed, the
   * scan fails exactly as the rest of it does.
   */
  lemma {:induction false} ScanFailsAsRest(lines: seq<string>, parent: Option<string>, cwdInfo: CmdResult, env: LegacyEnv, k: nat)
    requires k < |lines|
    requires forall j :: 0 <= j < k ==> ParseLine(lines[j], parent, cwdInfo).Ok? && ParseLine(lines[j], parent, cwdInfo).value.0 == parent
    requires forall j :: 0 <= j < k ==> ParseLine(lines[j], parent, cwdInfo).value.1.Some? ==>
      var (child, url) := ParseLine(lines[j], parent, cwdInfo).value.1.value;
      LookupKind(child, url, env).Ok?
    ensures ScanLines(lines, parent, cwdInfo, env).failure == ScanLines(lines[k..], parent, cwdInfo, env).failure
    decreases k
  {
    if k > 0 {
      assert ParseLine(lines[0], parent, cwdInfo).Ok?;
      assert forall j :: 0 <= j < k - 1 ==> lines[1..][j] == lines[j + 1];
      ScanFailsAsRest(lines[1..], parent, cwdInfo, env, k - 1);
      assert lines[1..][k - 1..] == lines[k..];
    }
  }
}
