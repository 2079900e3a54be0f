/**
 * `getExternals` of the current script: the `svn:externals` definitions of
 * a working copy (Subversion 1.5+ syntax, `-rN` and `URL@PEG`), one extern
 * per definition line, read by a line loop that carries the parent
 * directory across lines and a token loop that pops one token at a time.
 */
module Externals {
  import opened Wrappers
  import opened Text
  import opened SvnOutput

  /** One extern as `getExternals` yields it. */
  datatype Extern = Extern(path: string, url: string, rev: int, pegrev: int, isDirectory: bool, broken: bool)

  /** Everything that stops the scan (each an exception in the script). */
  datatype ExternalsError =
    | InfoFailed(stderr: string)              // `svn info` in the working copy exits non-zero
    | NoCwdRevision(error: InfoError)         // `getRevisionInCwd` raises ValueError
    | PropgetFailed(stderr: string)           // `svn propget svn:externals` exits non-zero
    | NoCwdUrl(error: InfoError)              // `getUrlInCwd` raises ValueError
    | SingleToken(line: string)               // `tokens[1]` raises IndexError
    | BadPegRevision(text: string)            // `int` of the `@PEG` text raises ValueError
    | BadOperativeRevision(text: string)      // `int` of the `-r` argument raises ValueError
    | MissingRevisionArgument(line: string)   // `tokens.pop(0)` after a final `-r` raises IndexError
    | MissingUrlOrPath(line: string)          // the `assert` on URL and path fails
    | NodeKindFailed(stderr: string)          // the node-kind lookup fails for another reason
    | NoNodeKind(url: string)                 // no `Node Kind: ` line: ValueError

  /** The configuration the scan reads: `rootrepo`, `remoterepos`, the top-level revision, the node-kind lookup. */
  datatype Env = Env(rootrepo: string, remotes: seq<string>, toplevel: int,
                     nodeInfo: (string, int, int) -> CmdResult)

  /** What the tokens of one definition set; fields not set yet are `None`. */
  datatype Definition = Definition(path: Option<string>, url: Option<string>, rev: Option<int>, peg: Option<int>)

  const Unset := Definition(None, None, None, None)

  // ---------------------------------------------------------------------------
  // Tokens

  /** `re.search(r'^.+://', token)`: `://` somewhere after the first character. */
  predicate IsUrlToken(token: string) {
    token != [] && Contains(token[1..], "://")
  }

  /** `^(.+)@(.+)` can split `s` at `i`: an `@` with text on both sides. */
  predicate PegSplitAt(s: string, i: int) {
    1 <= i && i + 1 < |s| && s[i] == '@'
  }

  function LastPegSplitBelow(s: string, n: nat): (r: Option<nat>)
    requires n <= |s|
    ensures r.Some? ==> r.value < n && PegSplitAt(s, r.value)
    ensures r.Some? ==> forall i :: r.value < i < n ==> !PegSplitAt(s, i)
    ensures r.None? ==> forall i :: i < n ==> !PegSplitAt(s, i)
    decreases n
  {
    if n == 0 then None
    else if PegSplitAt(s, n - 1) then Some(n - 1)
    else LastPegSplitBelow(s, n - 1)
  }

  /** Where the greedy `^(.+)@(.+)` splits a URL token: at its last `@` that has text after it. */
  function PegSplit(token: string): (r: Option<nat>)
    ensures r.Some? ==> PegSplitAt(token, r.value) && forall i :: r.value < i ==> !PegSplitAt(token, i)
    ensures r.None? ==> forall i :: !PegSplitAt(token, i)
  {
    LastPegSplitBelow(token, |token|)
  }

  /** `re.search(r'^-r(.+)', token)`: `-r` with the revision attached. */
  predicate IsRevToken(token: string) {
    |token| >= 3 && token[..2] == "-r"
  }

  /** A local path token under the current parent directory (`None` and `""` both mean none). */
  function LocalPath(parent: string, token: string): string {
    if parent != [] then parent + "/" + token else token
  }

  /** What a single token says on its own. */
  datatype Meaning =
    | UrlMeaning(url: string, peg: Option<int>)   // `^.+://`, with `@PEG` split off when present
    | RevMeaning(rev: int)                        // `-rN`
    | RevFlagMeaning                              // `-r`: the revision is the next token
    | PathMeaning                                 // anything else: the local path
    | BadPeg(text: string)                        // `@PEG` that is not an integer
    | BadRev(text: string)                        // `-rN` whose `N` is not an integer

  function MeaningOf(token: string): Meaning {
    if IsUrlToken(token) then
      match PegSplit(token)
      case Some(i) =>
        (match ParseInt(token[i + 1..])
         case None => BadPeg(token[i + 1..])
         case Some(peg) => UrlMeaning(token[..i], Some(peg)))
      case None => UrlMeaning(token, None)
    else if IsRevToken(token) then
      match ParseInt(token[2..])
      case None => BadRev(token[2..])
      case Some(rev) => RevMeaning(rev)
    else if token == "-r" then RevFlagMeaning
    else PathMeaning
  }

  /**
   * One pass of the token loop: a URL token sets the URL (and the peg when
   * it has `@PEG`), `-rN` or `-r N` the operative revision, anything else
   * the local path. Gives the definition so far and the tokens left.
   */
  function Step(tokens: seq<string>, parent: string, def: Definition, line: string): (r: Result<(Definition, seq<string>), ExternalsError>)
    requires tokens != []
    ensures r.Ok? ==> r.value.1 == tokens[1..] || (|tokens| >= 2 && r.value.1 == tokens[2..])
  {
    match MeaningOf(tokens[0])
    case UrlMeaning(url, None) => Ok((def.(url := Some(url)), tokens[1..]))
    case UrlMeaning(url, Some(peg)) => Ok((def.(url := Some(url), peg := Some(peg)), tokens[1..]))
    case BadPeg(text) => Err(BadPegRevision(text))
    case RevMeaning(rev) => Ok((def.(rev := Some(rev)), tokens[1..]))
    case BadRev(text) => Err(BadOperativeRevision(text))
    case RevFlagMeaning =>
      if |tokens| < 2 then Err(MissingRevisionArgument(line))
      else
        (match ParseInt(tokens[1])
         case None => Err(BadOperativeRevision(tokens[1]))
         case Some(rev) => Ok((def.(rev := Some(rev)), tokens[2..])))
    case PathMeaning => Ok((def.(path := Some(LocalPath(parent, tokens[0]))), tokens[1..]))
  }

  /** The token loop from `def` on, until the tokens run out or one raises. */
  function Classify(tokens: seq<string>, parent: string, def: Definition, line: string): Result<Definition, ExternalsError>
    decreases |tokens|
  {
    if tokens == [] then Ok(def)
    else
      match Step(tokens, parent, def, line)
      case Err(e) => Err(e)
      case Ok((d, rest)) => Classify(rest, parent, d, line)
  }

  /**
   * The `while len(tokens)` loop, popping from the front; `MeaningOf` is the
   * chain of pattern tests each popped token goes through.
   */
  method ClassifyTokens(tokens0: seq<string>, parent: string, line: string) returns (r: Result<Definition, ExternalsError>)
    ensures r == Classify(tokens0, parent, Unset, line)
  {
    var tokens := tokens0;
    var def := Unset;
    while |tokens| > 0
      invariant Classify(tokens0, parent, Unset, line) == Classify(tokens, parent, def, line)
      decreases |tokens|
    {
      ghost var before, d0 := tokens, def;
      var token := tokens[0];
      tokens := tokens[1..];
      match MeaningOf(token)
      case UrlMeaning(url, None) =>
        def := def.(url := Some(url));
      case UrlMeaning(url, Some(peg)) =>
        def := def.(url := Some(url), peg := Some(peg));
      case BadPeg(text) =>
        return Err(BadPegRevision(text));
      case RevMeaning(rev) =>
        def := def.(rev := Some(rev));
      case BadRev(text) =>
        return Err(BadOperativeRevision(text));
      case RevFlagMeaning =>
        if tokens == [] {
          return Err(MissingRevisionArgument(line));
        }
        var next := tokens[0];
        tokens := tokens[1..];
        var rev := ParseInt(next);
        if rev.None? {
          return Err(BadOperativeRevision(next));
        }
        def := def.(rev := Some(rev.value));
        assert before[2..] == tokens;
      case PathMeaning =>
        def := def.(path := Some(LocalPath(parent, token)));
    }
    return Ok(def);
  }

  // ---------------------------------------------------------------------------
  // Mirrors and defaults

  /** Every occurrence of each remote mirror replaced by `rootrepo`, mirrors taken in order. */
  function Mirror(url: string, remotes: seq<string>, rootrepo: string): string
    decreases |remotes|
  {
    if remotes == [] then url else Mirror(Replace(url, remotes[0], rootrepo), remotes[1..], rootrepo)
  }

  /** The `for remoterepo in remoterepos` loop. */
  method MirrorUrl(url0: string, remotes: seq<string>, rootrepo: string) returns (url: string)
    ensures url == Mirror(url0, remotes, rootrepo)
  {
    url := url0;
    var i := 0;
    while i < |remotes|
      invariant 0 <= i <= |remotes|
      invariant Mirror(url0, remotes, rootrepo) == Mirror(url, remotes[i..], rootrepo)
    {
      assert remotes[i..][1..] == remotes[i + 1..];
      url := Replace(url, remotes[i], rootrepo);
      i := i + 1;
    }
  }

  /** An extern before its node kind is known. */
  datatype Target = Target(path: string, url: string, rev: int, pegrev: int)

  /**
   * The checks and rewrites after the token loop: URL and path must be set,
   * the URL is mirrored, the peg defaults to the top-level revision and the
   * operative revision to the peg.
   */
  function Resolve(def: Definition, line: string, env: Env): Result<Target, ExternalsError> {
    if def.url.None? || def.path.None? then Err(MissingUrlOrPath(line))
    else
      var peg := if def.peg.Some? then def.peg.value else env.toplevel;
      var rev := if def.rev.Some? then def.rev.value else peg;
      Ok(Target(def.path.value, Mirror(def.url.value, env.remotes, env.rootrepo), rev, peg))
  }

  /**
   * The node-kind lookup `svn info -r REV URL@PEG`: a directory exactly when
   * the kind is `directory`; a failure saying the path is "non-existent in
   * revision" makes the extern broken; any other failure stops the scan.
   */
  function Lookup(t: Target, nodeInfo: (string, int, int) -> CmdResult): Result<Extern, ExternalsError> {
    match nodeInfo(t.url, t.rev, t.pegrev)
    case Completed(out) =>
      (match NodeKindIn(out)
       case Err(_) => Err(NoNodeKind(t.url))
       case Ok(kind) => Ok(Extern(t.path, t.url, t.rev, t.pegrev, kind == "directory", false)))
    case Failed(_, err) =>
      if Contains(err, "non-existent in revision") then Ok(Extern(t.path, t.url, t.rev, t.pegrev, false, true))
      else Err(NodeKindFailed(err))
  }

  // ---------------------------------------------------------------------------
  // Lines

  /**
   * `currentParentDir` from a header's first token: one that contains `://`
   * has every occurrence of the working copy's URL removed and then one
   * leading `/` dropped.
   */
  function HeaderParent(first: string, cwdInfo: string): Result<string, ExternalsError> {
    if Contains(first, "://") then
      match UrlIn(cwdInfo)
      case Err(e) => Err(NoCwdUrl(e))
      case Ok(url) =>
        var p := Replace(first, url, "");
        Ok(if p != [] && p[0] == '/' then p[1..] else p)
    else Ok(first)
  }

  /** A line whose second token is `-` names the parent directory of what follows. */
  predicate IsHeader(line: string) {
    |Tokens(line)| >= 2 && Tokens(line)[1] == "-"
  }

  /** One line of `svn propget -R` output: the parent afterwards, and the definition it holds if any. */
  function ParseLine(line: string, parent: string, cwdInfo: string): Result<(string, Option<Definition>), ExternalsError> {
    var tokens := Tokens(line);
    if tokens == [] then Ok((parent, None))
    else if |tokens| == 1 then Err(SingleToken(line))
    else
      var head := if tokens[1] == "-" then HeaderParent(tokens[0], cwdInfo) else Ok(parent);
      match head
      case Err(e) => Err(e)
      case Ok(p) =>
        var rest := if tokens[1] == "-" then tokens[2..] else tokens;
        if rest == [] then Ok((p, None))
        else
          match Classify(rest, p, Unset, line)
          case Err(e) => Err(e)
          case Ok(d) => Ok((p, Some(d)))
  }

  /** The body of the line loop: tokenise, take a header's parent, classify what is left. */
  method ReadLine(line: string, parent: string, cwdInfo: string) returns (r: Result<(string, Option<Definition>), ExternalsError>)
    ensures r == ParseLine(line, parent, cwdInfo)
  {
    var tokens := Tokens(line);
    if tokens == [] {
      return Ok((parent, None));
    }
    if |tokens| == 1 {
      return Err(SingleToken(line));
    }
    var currentParentDir := parent;
    if tokens[1] == "-" {
      var p := HeaderParent(tokens[0], cwdInfo);
      if p.Err? {
        return Err(p.error);
      }
      currentParentDir := p.value;
      tokens := tokens[2..];
    }
    if |tokens| == 0 {
      return Ok((currentParentDir, None));
    }
    var def := ClassifyTokens(tokens, currentParentDir, line);
    if def.Err? {
      return Err(def.error);
    }
    return Ok((currentParentDir, Some(def.value)));
  }

  /** The externs the scan yields, in order, and the exception that stopped it, if any. */
  datatype Scan = Scan(externs: seq<Extern>, failure: Option<ExternalsError>)

  function Prepend(exs: seq<Extern>, s: Scan): Scan {
    Scan(exs + s.externs, s.failure)
  }

  lemma PrependAssoc(a: seq<Extern>, b: seq<Extern>, s: Scan)
    ensures Prepend(a, Prepend(b, s)) == Prepend(a + b, s)
  {
    assert a + (b + s.externs) == (a + b) + s.externs;
  }

  /** The line loop from `parent` on. */
  function ScanLines(lines: seq<string>, parent: string, cwdInfo: string, env: Env): Scan
    decreases |lines|
  {
    if lines == [] then Scan([], None)
    else
      match ParseLine(lines[0], parent, cwdInfo)
      case Err(e) => Scan([], Some(e))
      case Ok((p, None)) => ScanLines(lines[1..], p, cwdInfo, env)
      case Ok((p, Some(d))) =>
        match Resolve(d, lines[0], env)
        case Err(e) => Scan([], Some(e))
        case Ok(t) =>
          match Lookup(t, env.nodeInfo)
          case Err(e) => Scan([], Some(e))
          case Ok(ex) => Prepend([ex], ScanLines(lines[1..], p, cwdInfo, env))
  }

  /**
   * `getExternals(toplevel)` given the outcome of `svn info` in the working
   * copy and `svn propget svn:externals -r N -R` there for each `N`.
   */
  function ExternalsOf(info: CmdResult, propget: int -> CmdResult, env: Env): Scan {
    match info
    case Failed(_, err) => Scan([], Some(InfoFailed(err)))
    case Completed(cwdInfo) =>
      match RevisionIn(cwdInfo)
      case Err(e) => Scan([], Some(NoCwdRevision(e)))
      case Ok(revnum) =>
        match propget(revnum)
        case Failed(_, err) => Scan([], Some(PropgetFailed(err)))
        case Completed(text) => ScanLines(SplitLines(text), "", cwdInfo, env)
  }

  /** `getExternals`: the line loop, header handling and token loop. */
  method GetExternals(info: CmdResult, propget: int -> CmdResult, env: Env) returns (scan: Scan)
    ensures scan == ExternalsOf(info, propget, env)
  {
    if info.Failed? {
      return Scan([], Some(InfoFailed(info.stderr)));
    }
    var cwdInfo := info.stdout;
    var revnum := RevisionIn(cwdInfo);
    if revnum.Err? {
      return Scan([], Some(NoCwdRevision(revnum.error)));
    }
    var prop := propget(revnum.value);
    if prop.Failed? {
      return Scan([], Some(PropgetFailed(prop.stderr)));
    }
    var text := SplitLines(prop.stdout);
    var externs: seq<Extern> := [];
    var currentParentDir := "";
    var i := 0;
    while i < |text|
      invariant 0 <= i <= |text|
      invariant ExternalsOf(info, propget, env) == Prepend(externs, ScanLines(text[i..], currentParentDir, cwdInfo, env))
    {
      var line := text[i];
      assert text[i..][0] == line && text[i..][1..] == text[i + 1..];
      var parsed := ReadLine(line, currentParentDir, cwdInfo);
      if parsed.Err? {
        return Scan(externs, Some(parsed.error));
      }
      currentParentDir := parsed.value.0;
      if parsed.value.1.Some? {
        var d := parsed.value.1.value;
        if d.url.None? || d.path.None? {
          return Scan(externs, Some(MissingUrlOrPath(line)));
        }
        var externUrl := MirrorUrl(d.url.value, env.remotes, env.rootrepo);
        var externPegrev := if d.peg.Some? then d.peg.value else env.toplevel;
        var externRev := if d.rev.Some? then d.rev.value else externPegrev;
        var ex := Lookup(Target(d.path.value, externUrl, externRev, externPegrev), env.nodeInfo);
        if ex.Err? {
          return Scan(externs, Some(ex.error));
        }
        PrependAssoc(externs, [ex.value], ScanLines(text[i + 1..], currentParentDir, cwdInfo, env));
        externs := externs + [ex.value];
      }
      i := i + 1;
    }
    return Scan(externs, None);
  }

  // ---------------------------------------------------------------------------
  // Token classification

  /** A token the loop takes as the local path. */
  predicate IsPathToken(token: string) {
    !IsUrlToken(token) && !IsRevToken(token) && token != "-r"
  }

  lemma PathMeaningOf(token: string)
    requires IsPathToken(token)
    ensures MeaningOf(token) == PathMeaning
  {
  }

  /** `URL@PEG`. */
  function PegUrl(url: string, peg: nat): string {
    url + "@" + NatToString(peg)
  }

  /** `-rN`. */
  function RevFlag(n: nat): string {
    "-r" + NatToString(n)
  }

  /** A pass over a longer token list does the same and leaves the extra tokens. */
  lemma StepAppend(ts: seq<string>, more: seq<string>, parent: string, def: Definition, line: string)
    requires ts != [] && Step(ts, parent, def, line).Ok?
    ensures Step(ts + more, parent, def, line).Ok?
    ensures Step(ts + more, parent, def, line).value
         == (Step(ts, parent, def, line).value.0, Step(ts, parent, def, line).value.1 + more)
  {
    var all := ts + more;
    assert all[0] == ts[0];
    DropAppend(ts, more, 1);
    if |ts| >= 2 {
      assert all[1] == ts[1];
      DropAppend(ts, more, 2);
    }
  }

  lemma DropAppend<T>(ts: seq<T>, more: seq<T>, k: nat)
    requires k <= |ts|
    ensures (ts + more)[k..] == ts[k..] + more
  {
  }

  /** Classifying more tokens continues from where the first ones left off. */
  lemma {:induction false} ClassifyAppend(ts: seq<string>, more: seq<string>, parent: string, def: Definition, line: string, d: Definition)
    requires Classify(ts, parent, def, line) == Ok(d)
    ensures Classify(ts + more, parent, def, line) == Classify(more, parent, d, line)
    decreases |ts|
  {
    if ts == [] {
      assert ts + more == more;
    } else {
      StepAppend(ts, more, parent, def, line);
      var (d1, rest) := Step(ts, parent, def, line).value;
      ClassifyAppend(rest, more, parent, d1, line, d);
    }
  }

  lemma NoColonNoUrl(token: string)
    requires ':' !in token
    ensures !IsUrlToken(token)
  {
    if token != [] {
      NotContainsChar(token[1..], "://");
    }
  }

  /** `-rN` is an operative-revision token carrying `N`. */
  lemma RevFlagFacts(n: nat)
    ensures IsRevToken(RevFlag(n)) && !IsUrlToken(RevFlag(n))
    ensures ParseInt(RevFlag(n)[2..]) == Some(n)
    ensures MeaningOf(RevFlag(n)) == RevMeaning(n)
  {
    var s := NatToString(n);
    assert RevFlag(n)[2..] == s;
    assert forall k :: 0 <= k < |s| ==> IsDigit(s[k]);
    assert ':' !in RevFlag(n);
    NoColonNoUrl(RevFlag(n));
    ParseIntNatToString(n);
  }

  /** `URL@PEG` splits at the `@` before the digits, whatever `@`s the URL holds. */
  lemma PegUrlFacts(url: string, peg: nat)
    requires IsUrlToken(url)
    ensures IsUrlToken(PegUrl(url, peg))
    ensures PegSplit(PegUrl(url, peg)) == Some(|url|)
    ensures PegUrl(url, peg)[..|url|] == url
    ensures ParseInt(PegUrl(url, peg)[|url| + 1..]) == Some(peg)
    ensures MeaningOf(PegUrl(url, peg)) == UrlMeaning(url, Some(peg))
  {
    var s := PegUrl(url, peg);
    var digits := NatToString(peg);
    assert s[1..] == url[1..] + ("@" + digits);
    ContainsWithin([], url[1..], "@" + digits, "://");
    assert [] + url[1..] + ("@" + digits) == s[1..];
    assert PegSplitAt(s, |url|);
    assert s[|url| + 1..] == digits;
    forall i | |url| < i < |s|
      ensures !PegSplitAt(s, i)
    {
      assert s[i] == digits[i - |url| - 1];
      assert IsDigit(digits[i - |url| - 1]);
    }
    ParseIntNatToString(peg);
  }

  /** One pass over `URL@PEG` sets the URL and the peg. */
  lemma UrlStep(url: string, peg: nat, rest: seq<string>, parent: string, def: Definition, line: string)
    requires IsUrlToken(url)
    ensures Step([PegUrl(url, peg)] + rest, parent, def, line) == Ok((def.(url := Some(url), peg := Some(peg)), rest))
  {
    PegUrlFacts(url, peg);
    assert ([PegUrl(url, peg)] + rest)[0] == PegUrl(url, peg) && ([PegUrl(url, peg)] + rest)[1..] == rest;
  }

  /** One pass over `-rN` sets the operative revision. */
  lemma RevStep(n: nat, rest: seq<string>, parent: string, def: Definition, line: string)
    ensures Step([RevFlag(n)] + rest, parent, def, line) == Ok((def.(rev := Some(n)), rest))
  {
    RevFlagFacts(n);
    assert ([RevFlag(n)] + rest)[0] == RevFlag(n) && ([RevFlag(n)] + rest)[1..] == rest;
  }

  /** One pass over a path token sets the local path under the parent. */
  lemma PathStep(token: string, rest: seq<string>, parent: string, def: Definition, line: string)
    requires IsPathToken(token)
    ensures Step([token] + rest, parent, def, line) == Ok((def.(path := Some(LocalPath(parent, token))), rest))
  {
    PathMeaningOf(token);
    assert ([token] + rest)[0] == token && ([token] + rest)[1..] == rest;
  }

  /** A later local path overwrites an earlier one. */
  lemma LastPathWins(ts: seq<string>, token: string, parent: string, line: string, d: Definition)
    requires Classify(ts, parent, Unset, line) == Ok(d)
    requires IsPathToken(token)
    ensures Classify(ts + [token], parent, Unset, line) == Ok(d.(path := Some(LocalPath(parent, token))))
  {
    ClassifyAppend(ts, [token], parent, Unset, line, d);
    PathStep(token, [], parent, d, line);
    assert [token] + [] == [token];
  }

  /** A later `-rN` overwrites an earlier operative revision. */
  lemma LastRevWins(ts: seq<string>, n: nat, parent: string, line: string, d: Definition)
    requires Classify(ts, parent, Unset, line) == Ok(d)
    ensures Classify(ts + [RevFlag(n)], parent, Unset, line) == Ok(d.(rev := Some(n)))
  {
    ClassifyAppend(ts, [RevFlag(n)], parent, Unset, line, d);
    RevStep(n, [], parent, d, line);
    assert [RevFlag(n)] + [] == [RevFlag(n)];
  }

  /** `-r` followed by `N` as a separate token does the same as `-rN`. */
  lemma SplitRevFlag(ts: seq<string>, n: nat, parent: string, line: string, d: Definition)
    requires Classify(ts, parent, Unset, line) == Ok(d)
    ensures Classify(ts + ["-r", NatToString(n)], parent, Unset, line) == Ok(d.(rev := Some(n)))
  {
    ClassifyAppend(ts, ["-r", NatToString(n)], parent, Unset, line, d);
    ParseIntNatToString(n);
    NoColonNoUrl("-r");
    assert Step(["-r", NatToString(n)], parent, d, line) == Ok((d.(rev := Some(n)), []));
  }

  /** A later `URL@PEG` overwrites both the URL and the peg revision. */
  lemma LastUrlWins(ts: seq<string>, url: string, peg: nat, parent: string, line: string, d: Definition)
    requires Classify(ts, parent, Unset, line) == Ok(d)
    requires IsUrlToken(url)
    ensures Classify(ts + [PegUrl(url, peg)], parent, Unset, line) == Ok(d.(url := Some(url), peg := Some(peg)))
  {
    ClassifyAppend(ts, [PegUrl(url, peg)], parent, Unset, line, d);
    UrlStep(url, peg, [], parent, d, line);
    assert [PegUrl(url, peg)] + [] == [PegUrl(url, peg)];
  }

  /** A final `-r` with nothing after it raises. */
  lemma DanglingRevFlag(ts: seq<string>, parent: string, line: string, d: Definition)
    requires Classify(ts, parent, Unset, line) == Ok(d)
    ensures Classify(ts + ["-r"], parent, Unset, line) == Err(MissingRevisionArgument(line))
  {
    ClassifyAppend(ts, ["-r"], parent, Unset, line, d);
    NoColonNoUrl("-r");
  }

  /** Three passes that each succeed consume three tokens. */
  lemma ThreeSteps(x: string, y: string, z: string, parent: string, line: string, d1: Definition, d2: Definition, d3: Definition)
    requires Step([x, y, z], parent, Unset, line) == Ok((d1, [y, z]))
    requires Step([y, z], parent, d1, line) == Ok((d2, [z]))
    requires Step([z], parent, d2, line) == Ok((d3, []))
    ensures Classify([x, y, z], parent, Unset, line) == Ok(d3)
  {
    assert Classify([z], parent, d2, line) == Ok(d3);
    assert Classify([y, z], parent, d1, line) == Ok(d3);
  }

  /** URL, revision and path tokens may come in any order. */
  lemma AnyOrder(url: string, peg: nat, n: nat, token: string, parent: string, line: string, ts: seq<string>)
    requires IsUrlToken(url) && IsPathToken(token)
    requires ts in {[PegUrl(url, peg), RevFlag(n), token], [PegUrl(url, peg), token, RevFlag(n)],
                    [RevFlag(n), PegUrl(url, peg), token], [RevFlag(n), token, PegUrl(url, peg)],
                    [token, PegUrl(url, peg), RevFlag(n)], [token, RevFlag(n), PegUrl(url, peg)]}
    ensures Classify(ts, parent, Unset, line)
         == Ok(Definition(Some(LocalPath(parent, token)), Some(url), Some(n), Some(peg)))
  {
    if ts == [PegUrl(url, peg), RevFlag(n), token] {
      assert [PegUrl(url, peg)] + [RevFlag(n), token] == [PegUrl(url, peg), RevFlag(n), token] && [RevFlag(n)] + [token] == [RevFlag(n), token] && [token] + [] == [token];
      UrlStep(url, peg, [RevFlag(n), token], parent, Unset, line);
      RevStep(n, [token], parent, Unset.(url := Some(url), peg := Some(peg)), line);
      PathStep(token, [], parent, Unset.(url := Some(url), peg := Some(peg)).(rev := Some(n)), line);
      ThreeSteps(PegUrl(url, peg), RevFlag(n), token, parent, line, Unset.(url := Some(url), peg := Some(peg)), Unset.(url := Some(url), peg := Some(peg)).(rev := Some(n)), Unset.(url := Some(url), peg := Some(peg)).(rev := Some(n)).(path := Some(LocalPath(parent, token))));
    } else if ts == [PegUrl(url, peg), token, RevFlag(n)] {
      assert [PegUrl(url, peg)] + [token, RevFlag(n)] == [PegUrl(url, peg), token, RevFlag(n)] && [token] + [RevFlag(n)] == [token, RevFlag(n)] && [RevFlag(n)] + [] == [RevFlag(n)];
      UrlStep(url, peg, [token, RevFlag(n)], parent, Unset, line);
      PathStep(token, [RevFlag(n)], parent, Unset.(url := Some(url), peg := Some(peg)), line);
      RevStep(n, [], parent, Unset.(url := Some(url), peg := Some(peg)).(path := Some(LocalPath(parent, token))), line);
      ThreeSteps(PegUrl(url, peg), token, RevFlag(n), parent, line, Unset.(url := Some(url), peg := Some(peg)), Unset.(url := Some(url), peg := Some(peg)).(path := Some(LocalPath(parent, token))), Unset.(url := Some(url), peg := Some(peg)).(path := Some(LocalPath(parent, token))).(rev := Some(n)));
    } else if ts == [RevFlag(n), PegUrl(url, peg), token] {
      assert [RevFlag(n)] + [PegUrl(url, peg), token] == [RevFlag(n), PegUrl(url, peg), token] && [PegUrl(url, peg)] + [token] == [PegUrl(url, peg), token] && [token] + [] == [token];
      RevStep(n, [PegUrl(url, peg), token], parent, Unset, line);
      UrlStep(url, peg, [token], parent, Unset.(rev := Some(n)), line);
      PathStep(token, [], parent, Unset.(rev := Some(n)).(url := Some(url), peg := Some(peg)), line);
      ThreeSteps(RevFlag(n), PegUrl(url, peg), token, parent, line, Unset.(rev := Some(n)), Unset.(rev := Some(n)).(url := Some(url), peg := Some(peg)), Unset.(rev := Some(n)).(url := Some(url), peg := Some(peg)).(path := Some(LocalPath(parent, token))));
    } else if ts == [RevFlag(n), token, PegUrl(url, peg)] {
      assert [RevFlag(n)] + [token, PegUrl(url, peg)] == [RevFlag(n), token, PegUrl(url, peg)] && [token] + [PegUrl(url, peg)] == [token, PegUrl(url, peg)] && [PegUrl(url, peg)] + [] == [PegUrl(url, peg)];
      RevStep(n, [token, PegUrl(url, peg)], parent, Unset, line);
      PathStep(token, [PegUrl(url, peg)], parent, Unset.(rev := Some(n)), line);
      UrlStep(url, peg, [], parent, Unset.(rev := Some(n)).(path := Some(LocalPath(parent, token))), line);
      ThreeSteps(RevFlag(n), token, PegUrl(url, peg), parent, line, Unset.(rev := Some(n)), Unset.(rev := Some(n)).(path := Some(LocalPath(parent, token))), Unset.(rev := Some(n)).(path := Some(LocalPath(parent, token))).(url := Some(url), peg := Some(peg)));
    } else if ts == [token, PegUrl(url, peg), RevFlag(n)] {
      assert [token] + [PegUrl(url, peg), RevFlag(n)] == [token, PegUrl(url, peg), RevFlag(n)] && [PegUrl(url, peg)] + [RevFlag(n)] == [PegUrl(url, peg), RevFlag(n)] && [RevFlag(n)] + [] == [RevFlag(n)];
      PathStep(token, [PegUrl(url, peg), RevFlag(n)], parent, Unset, line);
      UrlStep(url, peg, [RevFlag(n)], parent, Unset.(path := Some(LocalPath(parent, token))), line);
      RevStep(n, [], parent, Unset.(path := Some(LocalPath(parent, token))).(url := Some(url), peg := Some(peg)), line);
      ThreeSteps(token, PegUrl(url, peg), RevFlag(n), parent, line, Unset.(path := Some(LocalPath(parent, token))), Unset.(path := Some(LocalPath(parent, token))).(url := Some(url), peg := Some(peg)), Unset.(path := Some(LocalPath(parent, token))).(url := Some(url), peg := Some(peg)).(rev := Some(n)));
    } else {
      assert [token] + [RevFlag(n), PegUrl(url, peg)] == [token, RevFlag(n), PegUrl(url, peg)] && [RevFlag(n)] + [PegUrl(url, peg)] == [RevFlag(n), PegUrl(url, peg)] && [PegUrl(url, peg)] + [] == [PegUrl(url, peg)];
      PathStep(token, [RevFlag(n), PegUrl(url, peg)], parent, Unset, line);
      RevStep(n, [PegUrl(url, peg)], parent, Unset.(path := Some(LocalPath(parent, token))), line);
      UrlStep(url, peg, [], parent, Unset.(path := Some(LocalPath(parent, token))).(rev := Some(n)), line);
      ThreeSteps(token, RevFlag(n), PegUrl(url, peg), parent, line, Unset.(path := Some(LocalPath(parent, token))), Unset.(path := Some(LocalPath(parent, token))).(rev := Some(n)), Unset.(path := Some(LocalPath(parent, token))).(rev := Some(n)).(url := Some(url), peg := Some(peg)));
    }
  }

  /** Starting from `parent`: a path is under `parent/` when a parent is set. */
  predicate Under(parent: string, path: string) {
    parent == [] || StartsWith(path, parent + "/")
  }

  /** A pass keeps the local path under the current parent. */
  lemma StepUnder(ts: seq<string>, parent: string, def: Definition, line: string)
    requires ts != [] && Step(ts, parent, def, line).Ok?
    requires def.path.Some? ==> Under(parent, def.path.value)
    ensures var d := Step(ts, parent, def, line).value.0; d.path.Some? ==> Under(parent, d.path.value)
  {
    if parent != [] {
      var p := LocalPath(parent, ts[0]);
      assert p[..|parent + "/"|] == parent + "/";
    }
  }

  /** Every local path the token loop sets lies under the current parent. */
  lemma {:induction false} ClassifyUnder(ts: seq<string>, parent: string, def: Definition, line: string)
    requires def.path.Some? ==> Under(parent, def.path.value)
    ensures Classify(ts, parent, def, line).Ok? && Classify(ts, parent, def, line).value.path.Some?
            ==> Under(parent, Classify(ts, parent, def, line).value.path.value)
    decreases |ts|
  {
    if ts != [] && Step(ts, parent, def, line).Ok? {
      StepUnder(ts, parent, def, line);
      var (d1, rest) := Step(ts, parent, def, line).value;
      ClassifyUnder(rest, parent, d1, line);
    }
  }

  /** The token loop, as written with `while`, pops from the front and never looks back. */
  lemma ClassifyTokensExample()
    ensures Classify(["a", "-r", "3", "b"], "", Unset, "a -r 3 b")
         == Ok(Definition(Some("b"), None, Some(3), None))
  {
    NoColonNoUrl("a");
    NoColonNoUrl("b");
    NoColonNoUrl("-r");
    ParseIntNatToString(3);
    Numerals();
  }

  // ---------------------------------------------------------------------------
  // Mirrors and defaults

  /** A URL under a listed mirror comes out under `rootrepo`. */
  lemma MirrorPrefix(mirror: string, rest: string, rootrepo: string)
    requires mirror != [] && !Contains(rest, mirror) && !Contains(rootrepo + rest, mirror)
    ensures Mirror(mirror + rest, [mirror], rootrepo) == rootrepo + rest
  {
    ReplacePrefix(mirror, rest, rootrepo);
  }

  /** A URL containing none of the mirrors is left alone. */
  lemma {:induction false} MirrorNoMatch(url: string, remotes: seq<string>, rootrepo: string)
    requires forall k :: 0 <= k < |remotes| ==> remotes[k] != [] && !Contains(url, remotes[k])
    ensures Mirror(url, remotes, rootrepo) == url
    decreases |remotes|
  {
    if remotes != [] {
      ReplaceAbsent(url, remotes[0], rootrepo);
      MirrorNoMatch(url, remotes[1..], rootrepo);
    }
  }

  /** With both revisions explicit the top-level revision plays no part. */
  lemma ExplicitRevisions(def: Definition, line: string, env: Env, toplevel: int)
    requires def.rev.Some? && def.peg.Some?
    ensures Resolve(def, line, env) == Resolve(def, line, env.(toplevel := toplevel))
    ensures Resolve(def, line, env).Ok? ==>
      Resolve(def, line, env).value.rev == def.rev.value && Resolve(def, line, env).value.pegrev == def.peg.value
  {
  }

  /** With neither given, both revisions are the top-level one. */
  lemma DefaultRevisions(def: Definition, line: string, env: Env)
    requires def.rev.None? && def.peg.None?
    ensures Resolve(def, line, env).Ok? ==>
      Resolve(def, line, env).value.rev == env.toplevel && Resolve(def, line, env).value.pegrev == env.toplevel
  {
  }

  /** With only `@PEG` given, the operative revision follows the peg. */
  lemma PegOnly(def: Definition, line: string, env: Env)
    requires def.rev.None? && def.peg.Some?
    ensures Resolve(def, line, env).Ok? ==>
      Resolve(def, line, env).value.rev == def.peg.value && Resolve(def, line, env).value.pegrev == def.peg.value
  {
  }

  /** Resolution fails exactly when the URL or the path is missing, and keeps the path. */
  lemma ResolveFails(def: Definition, line: string, env: Env)
    ensures Resolve(def, line, env).Err? <==> def.url.None? || def.path.None?
    ensures Resolve(def, line, env).Err? ==> Resolve(def, line, env).error == MissingUrlOrPath(line)
    ensures Resolve(def, line, env).Ok? ==> Resolve(def, line, env).value.path == def.path.value
  {
  }

  // ---------------------------------------------------------------------------
  // Node kinds

  /** The three outcomes of the lookup, each in terms of the `svn info` result. */
  lemma LookupOutcomes(t: Target, nodeInfo: (string, int, int) -> CmdResult)
    ensures Lookup(t, nodeInfo).Ok? ==>
      var ex := Lookup(t, nodeInfo).value;
      ex.path == t.path && ex.url == t.url && ex.rev == t.rev && ex.pegrev == t.pegrev && !(ex.broken && ex.isDirectory)
    ensures (Lookup(t, nodeInfo).Ok? && Lookup(t, nodeInfo).value.broken)
        <==> (nodeInfo(t.url, t.rev, t.pegrev).Failed? && Contains(nodeInfo(t.url, t.rev, t.pegrev).stderr, "non-existent in revision"))
    ensures (Lookup(t, nodeInfo).Ok? && Lookup(t, nodeInfo).value.isDirectory)
        <==> (nodeInfo(t.url, t.rev, t.pegrev).Completed? && NodeKindIn(nodeInfo(t.url, t.rev, t.pegrev).stdout) == Ok("directory"))
    ensures Lookup(t, nodeInfo).Err? <==>
      (nodeInfo(t.url, t.rev, t.pegrev).Failed? && !Contains(nodeInfo(t.url, t.rev, t.pegrev).stderr, "non-existent in revision")) ||
      (nodeInfo(t.url, t.rev, t.pegrev).Completed? && NodeKindIn(nodeInfo(t.url, t.rev, t.pegrev).stdout).Err?)
  {
  }

  /** A first `Node Kind: ` line decides whether the extern is a directory. */
  lemma LookupKindLine(t: Target, nodeInfo: (string, int, int) -> CmdResult, lines: seq<string>, pre: seq<string>, kind: string, post: seq<string>)
    requires lines == pre + ["Node Kind: " + kind] + post
    requires forall k :: 0 <= k < |lines| ==> NoLineBreak(lines[k])
    requires lines[|lines| - 1] != []
    requires forall k :: 0 <= k < |pre| ==> !StartsWith(pre[k], "Node Kind: ")
    requires nodeInfo(t.url, t.rev, t.pegrev) == Completed(Join(lines, "\n"))
    ensures Lookup(t, nodeInfo) == Ok(Extern(t.path, t.url, t.rev, t.pegrev, kind == "directory", false))
  {
    FieldInText(Join(lines, "\n"), lines, pre, "Node Kind: ", kind, post);
    assert NodeKindIn(Join(lines, "\n")) == Ok(kind);
  }

  // ---------------------------------------------------------------------------
  // Lines

  /** A URL-form header loses the working copy's URL and one `/`. */
  lemma UrlHeaderRelative(url: string, rel: string, cwdInfo: string)
    requires UrlIn(cwdInfo) == Ok(url)
    requires Contains(url, "://") && !Contains("/" + rel, url)
    ensures HeaderParent(url + "/" + rel, cwdInfo) == Ok(rel)
  {
    assert url != [];
    ContainsWithin([], url, "/" + rel, "://");
    assert [] + url + ("/" + rel) == url + "/" + rel;
    ReplacePrefix(url, "/" + rel, "");
    assert "" + ("/" + rel) == "/" + rel;
  }

  /** A header whose first token has no `://` names the parent directory as written. */
  lemma PlainHeaderParent(first: string, cwdInfo: string)
    requires ':' !in first
    ensures HeaderParent(first, cwdInfo) == Ok(first)
  {
    NotContainsChar(first, "://");
  }

  /** `dir -` on its own line sets the parent and defines nothing. */
  lemma BareHeader(dir: string, parent: string, cwdInfo: string)
    requires dir != [] && NoSpace(dir) && ':' !in dir
    ensures ParseLine(dir + " -", parent, cwdInfo) == Ok((dir, None))
  {
    assert Join([dir, "-"], " ") == dir + " -";
    TokensJoin([dir, "-"]);
    PlainHeaderParent(dir, cwdInfo);
  }

  /** A non-blank line of one token raises. */
  lemma SingleTokenStops(line: string, rest: seq<string>, parent: string, cwdInfo: string, env: Env)
    requires |Tokens(line)| == 1
    ensures ScanLines([line] + rest, parent, cwdInfo, env) == Scan([], Some(SingleToken(line)))
  {
    assert ([line] + rest)[0] == line;
  }

  /** After a line: the parent is the header's if the line is one, unchanged otherwise; any path lies under it. */
  lemma ParseLineParent(line: string, parent: string, cwdInfo: string)
    requires ParseLine(line, parent, cwdInfo).Ok?
    ensures var (p, d) := ParseLine(line, parent, cwdInfo).value;
      (IsHeader(line) ==> HeaderParent(Tokens(line)[0], cwdInfo) == Ok(p)) &&
      (!IsHeader(line) ==> p == parent) &&
      (d.Some? && d.value.path.Some? ==> Under(p, d.value.path.value))
  {
    var tokens := Tokens(line);
    if |tokens| >= 2 {
      var p := ParseLine(line, parent, cwdInfo).value.0;
      var rest := if tokens[1] == "-" then tokens[2..] else tokens;
      ClassifyUnder(rest, p, Unset, line);
    }
  }

  /** The parent before a header line has no bearing on what follows. */
  lemma HeaderResetsParent(line: string, rest: seq<string>, p1: string, p2: string, cwdInfo: string, env: Env)
    requires IsHeader(line)
    ensures ScanLines([line] + rest, p1, cwdInfo, env) == ScanLines([line] + rest, p2, cwdInfo, env)
  {
    assert ([line] + rest)[0] == line && ([line] + rest)[1..] == rest;
    assert ParseLine(line, p1, cwdInfo) == ParseLine(line, p2, cwdInfo);
  }

  /** Until the next header every extern lies under the current parent. */
  lemma {:induction false} ParentPersists(lines: seq<string>, parent: string, cwdInfo: string, env: Env)
    requires forall k :: 0 <= k < |lines| ==> !IsHeader(lines[k])
    ensures forall k :: 0 <= k < |ScanLines(lines, parent, cwdInfo, env).externs| ==>
      Under(parent, ScanLines(lines, parent, cwdInfo, env).externs[k].path)
    decreases |lines|
  {
    if lines != [] {
      var r := ParseLine(lines[0], parent, cwdInfo);
      if r.Ok? {
        ParseLineParent(lines[0], parent, cwdInfo);
        ParentPersists(lines[1..], parent, cwdInfo, env);
        var (p, d) := r.value;
        if d.Some? {
          var t := Resolve(d.value, lines[0], env);
          if t.Ok? {
            LookupOutcomes(t.value, env.nodeInfo);
          }
        }
      }
    }
  }

  /** The definitions the lines hold, in order, with the parent threaded through; the first line that does not parse ends them. */
  function Definitions(lines: seq<string>, parent: string, cwdInfo: string): seq<Definition>
    decreases |lines|
  {
    if lines == [] then []
    else
      match ParseLine(lines[0], parent, cwdInfo)
      case Err(_) => []
      case Ok((p, None)) => Definitions(lines[1..], p, cwdInfo)
      case Ok((p, Some(d))) => [d] + Definitions(lines[1..], p, cwdInfo)
  }

  /**
   * A scan that ends without an exception yields one extern per definition
   * line, in order, each with the definition's path and its (mirrored) URL.
   */
  lemma {:induction false} ExternPerDefinition(lines: seq<string>, parent: string, cwdInfo: string, env: Env)
    requires ScanLines(lines, parent, cwdInfo, env).failure.None?
    ensures |ScanLines(lines, parent, cwdInfo, env).externs| == |Definitions(lines, parent, cwdInfo)|
    ensures forall k :: 0 <= k < |Definitions(lines, parent, cwdInfo)| ==>
      var d := Definitions(lines, parent, cwdInfo)[k];
      var ex := ScanLines(lines, parent, cwdInfo, env).externs[k];
      d.path.Some? && d.url.Some? && ex.path == d.path.value && ex.url == Mirror(d.url.value, env.remotes, env.rootrepo)
    decreases |lines|
  {
    if lines != [] {
      var r := ParseLine(lines[0], parent, cwdInfo);
      assert r.Ok?;
      var (p, od) := r.value;
      ExternPerDefinition(lines[1..], p, cwdInfo, env);
      if od.Some? {
        var d := od.value;
        ResolveFails(d, lines[0], env);
        var t := Resolve(d, lines[0], env).value;
        LookupOutcomes(t, env.nodeInfo);
        var ex := Lookup(t, env.nodeInfo).value;
        var rest := ScanLines(lines[1..], p, cwdInfo, env);
        assert ScanLines(lines, parent, cwdInfo, env).externs == [ex] + rest.externs;
        assert Definitions(lines, parent, cwdInfo) == [d] + Definitions(lines[1..], p, cwdInfo);
      }
    }
  }

  /** A header line with a definition after `-`: the definition's path is under the new parent. */
  lemma HeaderWithDefinition(line: string, parent: string, cwdInfo: string, dir: string, rest: seq<string>, d: Definition)
    requires Tokens(line) == [dir, "-"] + rest && rest != [] && ':' !in dir
    requires Classify(rest, dir, Unset, line) == Ok(d)
    ensures ParseLine(line, parent, cwdInfo) == Ok((dir, Some(d)))
  {
    PlainHeaderParent(dir, cwdInfo);
    assert Tokens(line)[2..] == rest;
  }

  /** A definition line keeps the parent. */
  lemma PlainDefinition(line: string, parent: string, cwdInfo: string, d: Definition)
    requires |Tokens(line)| >= 2 && Tokens(line)[1] != "-"
    requires Classify(Tokens(line), parent, Unset, line) == Ok(d)
    ensures ParseLine(line, parent, cwdInfo) == Ok((parent, Some(d)))
  {
  }

  // ---------------------------------------------------------------------------
  // Examples

  lemma ExampleUrl()
    ensures IsUrlToken("http://svn/lib") && PegUrl("http://svn/lib", 10) == "http://svn/lib@10"
  {
    ContainsInfix("ttp", "://", "svn/lib");
    assert "ttp" + "://" + "svn/lib" == "http://svn/lib"[1..];
    Numerals();
  }

  lemma ExamplePath()
    ensures IsPathToken("libfoo") && RevFlag(5) == "-r5"
  {
    NoColonNoUrl("libfoo");
    assert "libfoo"[..2][0] != "-r"[0];
    Numerals();
  }

  lemma VendorTokens(line: string)
    requires line == "vendor - -r5 http://svn/lib@10 libfoo"
    ensures Tokens(line) == ["vendor", "-", "-r5", "http://svn/lib@10", "libfoo"]
  {
    VendorJoin();
    TokensJoin(["vendor", "-", "-r5", "http://svn/lib@10", "libfoo"]);
  }

  lemma VendorJoin()
    ensures Join(["vendor", "-", "-r5", "http://svn/lib@10", "libfoo"], " ") == "vendor - -r5 http://svn/lib@10 libfoo"
  {
    VendorJoinTail();
    JoinCons("vendor", ["-", "-r5", "http://svn/lib@10", "libfoo"], " ");
    assert ["vendor"] + ["-", "-r5", "http://svn/lib@10", "libfoo"] == ["vendor", "-", "-r5", "http://svn/lib@10", "libfoo"];
    VendorSpaced();
  }

  lemma VendorSpaced()
    ensures "vendor" + " " + "- -r5 http://svn/lib@10 libfoo" == "vendor - -r5 http://svn/lib@10 libfoo"
  {
  }

  lemma VendorJoinTail()
    ensures Join(["-", "-r5", "http://svn/lib@10", "libfoo"], " ") == "- -r5 http://svn/lib@10 libfoo"
  {
    VendorJoinDefinition();
    JoinCons("-", ["-r5", "http://svn/lib@10", "libfoo"], " ");
    assert ["-"] + ["-r5", "http://svn/lib@10", "libfoo"] == ["-", "-r5", "http://svn/lib@10", "libfoo"];
    assert "-" + " " + "-r5 http://svn/lib@10 libfoo" == "- -r5 http://svn/lib@10 libfoo";
  }

  lemma VendorJoinDefinition()
    ensures Join(["-r5", "http://svn/lib@10", "libfoo"], " ") == "-r5 http://svn/lib@10 libfoo"
  {
    VendorJoinUrl();
    JoinCons("-r5", ["http://svn/lib@10", "libfoo"], " ");
    assert ["-r5"] + ["http://svn/lib@10", "libfoo"] == ["-r5", "http://svn/lib@10", "libfoo"];
    assert "-r5" + " " + "http://svn/lib@10 libfoo" == "-r5 http://svn/lib@10 libfoo";
  }

  lemma VendorJoinUrl()
    ensures Join(["http://svn/lib@10", "libfoo"], " ") == "http://svn/lib@10 libfoo"
  {
    JoinCons("http://svn/lib@10", ["libfoo"], " ");
    assert ["http://svn/lib@10"] + ["libfoo"] == ["http://svn/lib@10", "libfoo"];
    assert "http://svn/lib@10" + " " + "libfoo" == "http://svn/lib@10 libfoo";
  }

  lemma VendorLocalPath()
    ensures LocalPath("vendor", "libfoo") == "vendor/libfoo"
  {
  }

  lemma VendorDefinition(line: string)
    ensures Classify(["-r5", "http://svn/lib@10", "libfoo"], "vendor", Unset, line)
         == Ok(Definition(Some("vendor/libfoo"), Some("http://svn/lib"), Some(5), Some(10)))
  {
    ExampleUrl();
    ExamplePath();
    VendorLocalPath();
    AnyOrder("http://svn/lib", 10, 5, "libfoo", "vendor", line, [RevFlag(5), PegUrl("http://svn/lib", 10), "libfoo"]);
  }

  lemma VendorParse(line: string, parent: string, cwdInfo: string)
    requires Tokens(line) == ["vendor", "-", "-r5", "http://svn/lib@10", "libfoo"]
    ensures ParseLine(line, parent, cwdInfo)
         == Ok(("vendor", Some(Definition(Some("vendor/libfoo"), Some("http://svn/lib"), Some(5), Some(10)))))
  {
    var rest := ["-r5", "http://svn/lib@10", "libfoo"];
    VendorDefinition(line);
    assert ["vendor", "-"] + rest == ["vendor", "-", "-r5", "http://svn/lib@10", "libfoo"];
    HeaderWithDefinition(line, parent, cwdInfo, "vendor", rest,
      Definition(Some("vendor/libfoo"), Some("http://svn/lib"), Some(5), Some(10)));
  }

  /** `vendor - -r5 http://svn/lib@10 libfoo`. */
  lemma VendorExample(line: string, parent: string, cwdInfo: string, env: Env)
    requires line == "vendor - -r5 http://svn/lib@10 libfoo" && env.remotes == []
    ensures ParseLine(line, parent, cwdInfo)
         == Ok(("vendor", Some(Definition(Some("vendor/libfoo"), Some("http://svn/lib"), Some(5), Some(10)))))
    ensures Resolve(Definition(Some("vendor/libfoo"), Some("http://svn/lib"), Some(5), Some(10)), line, env)
         == Ok(Target("vendor/libfoo", "http://svn/lib", 5, 10))
  {
    VendorTokens(line);
    VendorParse(line, parent, cwdInfo);
  }

  lemma TopLevelTokens(line: string)
    requires line == "http://svn/lib@10 libfoo"
    ensures Tokens(line) == ["http://svn/lib@10", "libfoo"]
  {
    var ts := ["http://svn/lib@10", "libfoo"];
    assert Join(ts[1..], " ") == "libfoo";
    JoinCons(ts[0], ts[1..], " ");
    assert ts == [ts[0]] + ts[1..];
    assert Join(ts, " ") == "http://svn/lib@10" + " " + "libfoo";
    assert "http://svn/lib@10" + " " + "libfoo" == line;
    TokensJoin(ts);
  }

  lemma TopLevelParse(line: string, cwdInfo: string)
    requires Tokens(line) == ["http://svn/lib@10", "libfoo"]
    ensures ParseLine(line, "", cwdInfo)
         == Ok(("", Some(Definition(Some("libfoo"), Some("http://svn/lib"), None, Some(10)))))
  {
    var ts := ["http://svn/lib@10", "libfoo"];
    ExampleUrl();
    ExamplePath();
    UrlStep("http://svn/lib", 10, ["libfoo"], "", Unset, line);
    PathStep("libfoo", [], "", Unset.(url := Some("http://svn/lib"), peg := Some(10)), line);
    assert ts == ["http://svn/lib@10"] + ["libfoo"] && ["libfoo"] == ["libfoo"] + [];
    assert Classify(["libfoo"], "", Unset.(url := Some("http://svn/lib"), peg := Some(10)), line)
        == Ok(Definition(Some("libfoo"), Some("http://svn/lib"), None, Some(10)));
    PlainDefinition(line, "", cwdInfo, Definition(Some("libfoo"), Some("http://svn/lib"), None, Some(10)));
  }

  /** `http://svn/lib@10 libfoo` before any header, at top-level revision 7. */
  lemma TopLevelExample(line: string, cwdInfo: string, env: Env)
    requires line == "http://svn/lib@10 libfoo" && env.remotes == [] && env.toplevel == 7
    ensures ParseLine(line, "", cwdInfo)
         == Ok(("", Some(Definition(Some("libfoo"), Some("http://svn/lib"), None, Some(10)))))
    ensures Resolve(Definition(Some("libfoo"), Some("http://svn/lib"), None, Some(10)), line, env)
         == Ok(Target("libfoo", "http://svn/lib", 10, 10))
  {
    TopLevelTokens(line);
    TopLevelParse(line, cwdInfo);
  }
}
