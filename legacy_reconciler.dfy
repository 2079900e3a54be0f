/**
 * `updateExternalsTo` of the older script: when `svn diff -c N` in the
 * current directory shows the externals property modified, every extern of
 * revision `N-1` is deleted first; then every extern of revision `N` is
 * checked out or switched and recursed into (directory) or exported (file),
 * at the revision after a `@` in its URL if there is one.
 */
module LegacyReconciler {
  import opened Wrappers
  import opened Text
  import opened SvnOutput
  import opened LegacyExternals
  import opened WorkingTree
  import Reconciler

  /** The outcomes of the `svn` commands, as functions of their arguments. */
  datatype LegacySvn = LegacySvn(
    info: (string, Option<Binding>, int) -> CmdResult,     // `svn info -r N` in a directory, given what its `.svn` records
    propget: (string, Option<Binding>, int) -> CmdResult,  // `svn propget svn:externals -r N -R` there
    diff: (string, Option<Binding>, int) -> CmdResult,     // `svn diff -c N` there
    nodeKind: (string, int) -> CmdResult,                  // `svn info -r N URL`
    checkout: (string, int, string) -> CmdResult,          // `svn co --ignore-externals -r REV URL@REV PATH`
    switch: (string, int, string) -> CmdResult,            // `svn switch --ignore-externals -r REV URL@REV PATH`
    exportTo: (string, int, string) -> CmdResult)          // `svn export -r REV URL@REV PATH`

  /** `rootrepo` and `remoterepos`. */
  datatype LegacyConfig = LegacyConfig(rootrepo: string, remotes: seq<string>)

  /** What stops the older reconciler (each an exception in the script, except the depth bound). */
  datatype LegacyReconcileError =
    | ScanFailed(failure: LegacyExternalsError)  // raised by `getExternals`
    | DiffFailed(stderr: string)                 // `svn diff -c N` exited non-zero
    | RemoveFailed(path: string)                 // `shutil.rmtree` or `os.remove` raised OSError
    | BadRevision(text: string)                  // `int()` of what follows the `@` raised ValueError
    | SvnError                                   // RuntimeError "svn error" after a checkout, switch or export
    | TooDeep                                    // nesting beyond the modelled depth

  datatype LegacyOutcome = LegacyOutcome(state: Snapshot, error: Option<LegacyReconcileError>)

  function EnvAt(cfg: LegacyConfig, revnum: int, svn: LegacySvn): LegacyEnv {
    LegacyEnv(cfg.rootrepo, cfg.remotes, revnum, svn.nodeKind)
  }

  /** `getExternals(revnum)` run in the current directory. */
  function ScanAt(s: Snapshot, revnum: int, svn: LegacySvn, cfg: LegacyConfig): LegacyScan {
    var b := Reconciler.BindingAt(s.tree, s.cwd);
    ExternalsOf(svn.propget(s.cwd, b, revnum), svn.info(s.cwd, b, revnum), EnvAt(cfg, revnum, svn))
  }

  /** `didExternalsChange(revnum)` in the current directory. */
  function ExternalsChanged(s: Snapshot, revnum: int, svn: LegacySvn): Result<bool, LegacyReconcileError> {
    match svn.diff(s.cwd, Reconciler.BindingAt(s.tree, s.cwd), revnum)
    case Failed(_, err) => Err(DiffFailed(err))
    case Completed(text) => Ok(Contains(text, "Modified: svn:externals"))
  }

  // ---------------------------------------------------------------------------
  // Clearing the previous externs

  /** `shutil.rmtree` of a directory extern, `os.remove` of a file extern; either raises when the path is not of that kind. */
  function ClearOne(s: Snapshot, ex: LegacyExtern): Result<Snapshot, LegacyReconcileError> {
    var p := JoinPath(s.cwd, ex.path);
    if ex.isDirectory then
      if IsDir(s.tree, p) then Ok(Snapshot(RmTree(s.tree, p), s.cwd, s.log + [RemoveTree(p)])) else Err(RemoveFailed(p))
    else if p in s.tree && !IsDir(s.tree, p) then Ok(Snapshot(s.tree - {p}, s.cwd, s.log + [RemoveFile(p)]))
    else Err(RemoveFailed(p))
  }

  /** `p` is on disk as the kind the extern was recorded as: a directory for a directory extern, a file otherwise. */
  predicate OnDiskAs(tree: Tree, p: string, isDirectory: bool) {
    if isDirectory then IsDir(tree, p) else p in tree && !IsDir(tree, p)
  }

  /** `shutil.rmtree` and `os.remove` raise exactly when the path is not on disk as the extern's kind. */
  lemma ClearOneFails(s: Snapshot, ex: LegacyExtern)
    ensures ClearOne(s, ex).Err? <==> !OnDiskAs(s.tree, JoinPath(s.cwd, ex.path), ex.isDirectory)
    ensures ClearOne(s, ex).Err? ==> ClearOne(s, ex).error == RemoveFailed(JoinPath(s.cwd, ex.path))
  {
  }

  /** The `for ex in getExternals(revnum-1)` removal loop, stopping at the first removal that raises. */
  function ClearAll(s: Snapshot, exs: seq<LegacyExtern>): LegacyOutcome
    decreases |exs|
  {
    if exs == [] then LegacyOutcome(s, None)
    else
      match ClearOne(s, exs[0])
      case Err(e) => LegacyOutcome(s, Some(e))
      case Ok(t) => ClearAll(t, exs[1..])
  }

  // ---------------------------------------------------------------------------
  // One extern

  /** The position of the last `c` in `s[..n]`, if any. */
  function LastIndex(s: string, c: char, n: nat): (r: Option<nat>)
    requires n <= |s|
    ensures r.Some? ==> r.value < n && s[r.value] == c && forall k :: r.value < k < n ==> s[k] != c
    ensures r.None? ==> forall k :: 0 <= k < n ==> s[k] != c
    decreases n
  {
    if n == 0 then None else if s[n - 1] == c then Some(n - 1) else LastIndex(s, c, n - 1)
  }

  /** `re.search(r'(.*)@(.*)', url)`: split at the last `@`, the rest read by `int()`; no `@` keeps the top-level revision. */
  function PinnedRevision(url: string, revnum: int): Result<(string, int), LegacyReconcileError> {
    match LastIndex(url, '@', |url|)
    case None => Ok((url, revnum))
    case Some(i) =>
      match ParseInt(url[i + 1..])
      case None => Err(BadRevision(url[i + 1..]))
      case Some(r) => Ok((url[..i], r))
  }

  /** A directory extern up to the recursion: created if absent, switched if it has a `.svn`, checked out otherwise. */
  function Attach(s: Snapshot, path: string, url: string, rev: int, svn: LegacySvn): LegacyOutcome {
    var p := JoinPath(s.cwd, path);
    var s1 := if p in s.tree then s else Snapshot(MakeDirsIn(s.tree, p), s.cwd, s.log + [MakeDirs(p)]);
    var a := if HasSvn(s1.tree, p) then Switch(url, rev, rev, p) else Checkout(url, rev, rev, p);
    var r := if HasSvn(s1.tree, p) then svn.switch(url, rev, p) else svn.checkout(url, rev, p);
    match r
    case Completed(_) => LegacyOutcome(Bound(s1, p, Binding(url, rev, Some(rev)), a), None)
    case Failed(_, _) => LegacyOutcome(Logged(s1, a), Some(SvnError))
  }

  /** A file extern: whatever exists at its path removed (a directory makes `os.remove` raise), then exported. */
  function ExportFile(s: Snapshot, path: string, url: string, rev: int, svn: LegacySvn): LegacyOutcome {
    var p := JoinPath(s.cwd, path);
    if IsDir(s.tree, p) then LegacyOutcome(s, Some(RemoveFailed(p)))
    else
      var s1 := if p in s.tree then Snapshot(s.tree - {p}, s.cwd, s.log + [RemoveFile(p)]) else s;
      var a := Export(url, rev, rev, p);
      match svn.exportTo(url, rev, p)
      case Completed(_) => LegacyOutcome(Placed(s1, p, a), None)
      case Failed(_, _) => LegacyOutcome(Logged(s1, a), Some(SvnError))
  }

  // ---------------------------------------------------------------------------
  // The recursion

  /** The opening block of `updateExternalsTo`: when the externals property changed, every extern of `revnum-1` removed. */
  function Cleared(s: Snapshot, revnum: int, svn: LegacySvn, cfg: LegacyConfig): LegacyOutcome {
    match ExternalsChanged(s, revnum, svn)
    case Err(e) => LegacyOutcome(s, Some(e))
    case Ok(changed) =>
      if !changed then LegacyOutcome(s, None)
      else
        var previous := ScanAt(s, revnum - 1, svn, cfg);
        var c := ClearAll(s, previous.externs);
        if c.error.None? && previous.failure.Some? then LegacyOutcome(c.state, Some(ScanFailed(previous.failure.value))) else c
  }

  /**
   * `updateExternalsTo(revnum)` in the current directory. `fuel` bounds the
   * nesting depth; the script itself recurses without bound.
   */
  function UpdateExternals(fuel: nat, s: Snapshot, revnum: int, svn: LegacySvn, cfg: LegacyConfig): LegacyOutcome
    decreases fuel, 1, 0
  {
    if fuel == 0 then LegacyOutcome(s, Some(TooDeep))
    else
      var c := Cleared(s, revnum, svn, cfg);
      if c.error.Some? then c
      else
        var scan := ScanAt(c.state, revnum, svn, cfg);
        ProcessAll(fuel, c.state, scan.externs, scan.failure, s.cwd, revnum, svn, cfg)
  }

  /** The `for ex in getExternals(revnum)` loop, `home` being the directory it started in. */
  function ProcessAll(fuel: nat, s: Snapshot, exs: seq<LegacyExtern>, failure: Option<LegacyExternalsError>, home: string,
                      revnum: int, svn: LegacySvn, cfg: LegacyConfig): LegacyOutcome
    requires fuel >= 1
    decreases fuel, 0, |exs|
  {
    if exs == [] then LegacyOutcome(s, if failure.Some? then Some(ScanFailed(failure.value)) else None)
    else
      var o := ProcessOne(fuel, s, exs[0], home, revnum, svn, cfg);
      if o.error.Some? then o else ProcessAll(fuel, o.state, exs[1..], failure, home, revnum, svn, cfg)
  }

  /** One extern; a directory extern recurses at the same top-level revision and restores `home` only on success. */
  function ProcessOne(fuel: nat, s: Snapshot, ex: LegacyExtern, home: string, revnum: int, svn: LegacySvn, cfg: LegacyConfig): LegacyOutcome
    requires fuel >= 1
    decreases fuel, 0, 0
  {
    match PinnedRevision(ex.url, revnum)
    case Err(e) => LegacyOutcome(s, Some(e))
    case Ok((url, rev)) =>
      if ex.isDirectory then
        var a := Attach(s, ex.path, url, rev, svn);
        if a.error.Some? then a
        else
          var inner := UpdateExternals(fuel - 1, a.state.(cwd := JoinPath(s.cwd, ex.path)), revnum, svn, cfg);
          if inner.error.Some? then inner else LegacyOutcome(inner.state.(cwd := home), None)
      else ExportFile(s, ex.path, url, rev, svn)
  }

  // ---------------------------------------------------------------------------
  // The methods

  /** One removal of the clearing loop. */
  method ClearExternalAt(wc: WorkingCopy, ex: LegacyExtern) returns (err: Option<LegacyReconcileError>)
    modifies wc
    ensures ClearOne(old(wc.State()), ex).Ok? ==> err.None? && wc.State() == ClearOne(old(wc.State()), ex).value
    ensures ClearOne(old(wc.State()), ex).Err? ==> err == Some(ClearOne(old(wc.State()), ex).error) && wc.State() == old(wc.State())
  {
    var p := JoinPath(wc.cwd, ex.path);
    if ex.isDirectory {
      if !IsDir(wc.tree, p) {
        return Some(RemoveFailed(p));
      }
      wc.RemoveTreeAt(p);
    } else {
      if p !in wc.tree || IsDir(wc.tree, p) {
        return Some(RemoveFailed(p));
      }
      wc.RemoveFileAt(p);
    }
    return None;
  }

  /** The clearing block at the head of `updateExternalsTo`. */
  method ClearPrevious(wc: WorkingCopy, revnum: int, svn: LegacySvn, cfg: LegacyConfig) returns (err: Option<LegacyReconcileError>)
    modifies wc
    ensures LegacyOutcome(wc.State(), err) == Cleared(old(wc.State()), revnum, svn, cfg)
  {
    ghost var s0 := wc.State();
    var b := Reconciler.BindingAt(wc.tree, wc.cwd);
    var diff := svn.diff(wc.cwd, b, revnum);
    if diff.Failed? {
      return Some(DiffFailed(diff.stderr));
    }
    if !Contains(diff.stdout, "Modified: svn:externals") {
      return None;
    }
    var previous := GetExternals(svn.propget(wc.cwd, b, revnum - 1), svn.info(wc.cwd, b, revnum - 1), EnvAt(cfg, revnum - 1, svn));
    var i := 0;
    while i < |previous.externs|
      invariant 0 <= i <= |previous.externs|
      invariant ClearAll(s0, previous.externs) == ClearAll(wc.State(), previous.externs[i..])
    {
      assert previous.externs[i..][0] == previous.externs[i] && previous.externs[i..][1..] == previous.externs[i + 1..];
      err := ClearExternalAt(wc, previous.externs[i]);
      if err.Some? {
        return;
      }
      i := i + 1;
    }
    if previous.failure.Some? {
      return Some(ScanFailed(previous.failure.value));
    }
    return None;
  }

  /** `updateExternalsTo(revnum)`. */
  method UpdateExternalsTo(wc: WorkingCopy, fuel: nat, revnum: int, svn: LegacySvn, cfg: LegacyConfig)
    returns (err: Option<LegacyReconcileError>)
    modifies wc
    ensures LegacyOutcome(wc.State(), err) == UpdateExternals(fuel, old(wc.State()), revnum, svn, cfg)
    decreases fuel, 1
  {
    if fuel == 0 {
      return Some(TooDeep);
    }
    ghost var s0 := wc.State();
    var home := wc.cwd;
    err := ClearPrevious(wc, revnum, svn, cfg);
    if err.Some? {
      return;
    }
    ClearedKeepsCwd(s0, revnum, svn, cfg);
    var b := Reconciler.BindingAt(wc.tree, home);
    var scan := GetExternals(svn.propget(home, b, revnum), svn.info(home, b, revnum), EnvAt(cfg, revnum, svn));
    assert scan == ScanAt(wc.State(), revnum, svn, cfg);
    var j := 0;
    while j < |scan.externs|
      invariant 0 <= j <= |scan.externs|
      invariant UpdateExternals(fuel, s0, revnum, svn, cfg)
             == ProcessAll(fuel, wc.State(), scan.externs[j..], scan.failure, home, revnum, svn, cfg)
    {
      assert scan.externs[j..][0] == scan.externs[j] && scan.externs[j..][1..] == scan.externs[j + 1..];
      err := ProcessExternal(wc, fuel, scan.externs[j], home, revnum, svn, cfg);
      if err.Some? {
        return;
      }
      j := j + 1;
    }
    if scan.failure.Some? {
      return Some(ScanFailed(scan.failure.value));
    }
    return None;
  }

  /** The loop body of `updateExternalsTo` for one extern. */
  method ProcessExternal(wc: WorkingCopy, fuel: nat, ex: LegacyExtern, home: string, revnum: int, svn: LegacySvn, cfg: LegacyConfig)
    returns (err: Option<LegacyReconcileError>)
    requires fuel >= 1
    modifies wc
    ensures LegacyOutcome(wc.State(), err) == ProcessOne(fuel, old(wc.State()), ex, home, revnum, svn, cfg)
    decreases fuel, 0
  {
    var pinned := PinnedRevision(ex.url, revnum);
    if pinned.Err? {
      return Some(pinned.error);
    }
    var (exurl, exrevnum) := pinned.value;
    var p := JoinPath(wc.cwd, ex.path);
    if ex.isDirectory {
      ghost var s0 := wc.State();
      if p !in wc.tree {
        wc.MakeDirsAt(p);
      }
      if HasSvn(wc.tree, p) {
        var sw := svn.switch(exurl, exrevnum, p);
        if sw.Failed? {
          wc.Record(Switch(exurl, exrevnum, exrevnum, p));
          return Some(SvnError);
        }
        wc.BindAt(p, Binding(exurl, exrevnum, Some(exrevnum)), Switch(exurl, exrevnum, exrevnum, p));
      } else {
        var co := svn.checkout(exurl, exrevnum, p);
        if co.Failed? {
          wc.Record(Checkout(exurl, exrevnum, exrevnum, p));
          return Some(SvnError);
        }
        wc.BindAt(p, Binding(exurl, exrevnum, Some(exrevnum)), Checkout(exurl, exrevnum, exrevnum, p));
      }
      assert wc.State() == Attach(s0, ex.path, exurl, exrevnum, svn).state;
      wc.Chdir(p);
      err := UpdateExternalsTo(wc, fuel - 1, revnum, svn, cfg);
      if err.Some? {
        return;
      }
      wc.Chdir(home);
      return None;
    }
    if p in wc.tree {
      if IsDir(wc.tree, p) {
        return Some(RemoveFailed(p));
      }
      wc.RemoveFileAt(p);
    }
    var out := svn.exportTo(exurl, exrevnum, p);
    if out.Failed? {
      wc.Record(Export(exurl, exrevnum, exrevnum, p));
      return Some(SvnError);
    }
    wc.PlaceFileAt(p, Export(exurl, exrevnum, exrevnum, p));
    return None;
  }

  // ---------------------------------------------------------------------------
  // Properties

  /** Clearing only removes: the directory stays, nothing is added, and what is left is unchanged. */
  lemma {:induction false} ClearAllShrinks(s: Snapshot, exs: seq<LegacyExtern>)
    ensures ClearAll(s, exs).state.cwd == s.cwd
    ensures forall q :: q in ClearAll(s, exs).state.tree ==> q in s.tree && ClearAll(s, exs).state.tree[q] == s.tree[q]
    decreases |exs|
  {
    if exs != [] {
      match ClearOne(s, exs[0])
      case Err(_) =>
      case Ok(t) => ClearAllShrinks(t, exs[1..]);
    }
  }

  lemma ClearedKeepsCwd(s: Snapshot, revnum: int, svn: LegacySvn, cfg: LegacyConfig)
    ensures Cleared(s, revnum, svn, cfg).state.cwd == s.cwd
  {
    ClearAllShrinks(s, ScanAt(s, revnum - 1, svn, cfg).externs);
  }

  /** Only a diff that shows the property modified triggers the clearing; one that only adds it does not. */
  lemma ModifiedTriggersClearing(s: Snapshot, revnum: int, svn: LegacySvn, before: string, after: string)
    requires svn.diff(s.cwd, Reconciler.BindingAt(s.tree, s.cwd), revnum) == Completed(before + "Modified: svn:externals" + after)
    ensures ExternalsChanged(s, revnum, svn) == Ok(true)
  {
    ContainsInfix(before, "Modified: svn:externals", after);
  }

  lemma AddedDoesNotTrigger(s: Snapshot, revnum: int, svn: LegacySvn)
    requires svn.diff(s.cwd, Reconciler.BindingAt(s.tree, s.cwd), revnum) == Completed("Added: svn:externals")
    ensures ExternalsChanged(s, revnum, svn) == Ok(false)
    ensures Cleared(s, revnum, svn, LegacyConfig([], [])) == LegacyOutcome(s, None)
  {
    ContainsIff("Added: svn:externals", "Modified: svn:externals");
  }

  /** After a clearing that succeeded, no extern of the previous revision is left on disk. */
  lemma {:induction false} ClearAllGone(s: Snapshot, exs: seq<LegacyExtern>)
    requires ClearAll(s, exs).error.None?
    ensures forall k :: 0 <= k < |exs| ==> JoinPath(s.cwd, exs[k].path) !in ClearAll(s, exs).state.tree
    decreases |exs|
  {
    if exs != [] {
      var t := ClearOne(s, exs[0]).value;
      ClearAllGone(t, exs[1..]);
      ClearAllShrinks(t, exs[1..]);
      forall k | 0 <= k < |exs|
        ensures JoinPath(s.cwd, exs[k].path) !in ClearAll(s, exs).state.tree
      {
        if k > 0 {
          assert exs[1..][k - 1] == exs[k];
        }
      }
    }
  }

  /** A clearing that fails names the path of one of the externs, and stopped at the first one it could not remove. */
  lemma {:induction false} ClearAllFailure(s: Snapshot, exs: seq<LegacyExtern>)
    requires ClearAll(s, exs).error.Some?
    ensures exists k :: 0 <= k < |exs| && ClearAll(s, exs).error == Some(RemoveFailed(JoinPath(s.cwd, exs[k].path)))
    decreases |exs|
  {
    match ClearOne(s, exs[0])
    case Err(_) =>
      assert ClearAll(s, exs).error == Some(RemoveFailed(JoinPath(s.cwd, exs[0].path)));
    case Ok(t) =>
      ClearAllFailure(t, exs[1..]);
      var k :| 0 <= k < |exs[1..]| && ClearAll(t, exs[1..]).error == Some(RemoveFailed(JoinPath(t.cwd, exs[1..][k].path)));
      assert exs[1..][k] == exs[k + 1];
  }

  /** An extern of the previous revision that is not on disk as the kind it was recorded as stops the update. */
  lemma MissingPreviousExternStops(s: Snapshot, ex: LegacyExtern, rest: seq<LegacyExtern>)
    requires !OnDiskAs(s.tree, JoinPath(s.cwd, ex.path), ex.isDirectory)
    ensures ClearAll(s, [ex] + rest) == LegacyOutcome(s, Some(RemoveFailed(JoinPath(s.cwd, ex.path))))
  {
    assert ([ex] + rest)[0] == ex;
  }

  /** A trailing `@N` pins the extern to revision `N`; the URL before it may itself contain `@`. */
  lemma PinnedSplit(base: string, n: nat, revnum: int)
    ensures PinnedRevision(base + "@" + NatToString(n), revnum) == Ok((base, n))
  {
    var digits := NatToString(n);
    var url := base + "@" + digits;
    assert url[|base|] == '@';
    assert forall k :: |base| < k < |url| ==> url[k] == digits[k - |base| - 1];
    assert forall k :: |base| < k < |url| ==> url[k] != '@';
    assert LastIndex(url, '@', |url|) == Some(|base|);
    assert url[|base| + 1..] == digits && url[..|base|] == base;
    ParseIntNatToString(n);
  }

  /** Without `@` the extern follows the top-level revision. */
  lemma UnpinnedFollowsRevision(url: string, revnum: int)
    requires '@' !in url
    ensures PinnedRevision(url, revnum) == Ok((url, revnum))
  {
    assert forall k :: 0 <= k < |url| ==> url[k] != '@';
  }

  /** A URL carrying a user name and no pinned revision makes `int()` raise. */
  lemma UserInfoRaises(revnum: int)
    ensures PinnedRevision("https://me@host/lib", revnum) == Err(BadRevision("host/lib"))
  {
    var url := "https://me@host/lib";
    assert url[10] == '@';
    assert forall k :: 10 < k < |url| ==> url[k] != '@';
    assert LastIndex(url, '@', |url|) == Some(10);
    assert url[11..] == "host/lib";
    StripNoop("host/lib");
  }

  /**
   * A directory extern is switched when it already has a `.svn`, checked out
   * otherwise, after `os.makedirs` when absent; on success it is bound to the
   * URL and revision, pegged at that revision, and nothing else in the tree
   * changes; a failure is the `svn error`.
   */
  lemma AttachOutcome(s: Snapshot, path: string, url: string, rev: int, svn: LegacySvn)
    ensures var o := Attach(s, path, url, rev, svn);
      var p := JoinPath(s.cwd, path);
      var a := if HasSvn(s.tree, p) then Switch(url, rev, rev, p) else Checkout(url, rev, rev, p);
      var r := if HasSvn(s.tree, p) then svn.switch(url, rev, p) else svn.checkout(url, rev, p);
      o.state.cwd == s.cwd &&
      o.state.log == s.log + (if p in s.tree then [] else [MakeDirs(p)]) + [a] &&
      (o.error.None? <==> r.Completed?) &&
      (o.error.Some? ==> o.error == Some(SvnError)) &&
      (o.error.None? ==> p in o.state.tree && o.state.tree[p] == Dir(Some(Binding(url, rev, Some(rev))))) &&
      (forall q :: q in s.tree && q != p ==> q in o.state.tree && o.state.tree[q] == s.tree[q])
  {
    var p := JoinPath(s.cwd, path);
    var s1 := if p in s.tree then s else Snapshot(MakeDirsIn(s.tree, p), s.cwd, s.log + [MakeDirs(p)]);
    assert HasSvn(s1.tree, p) == HasSvn(s.tree, p);
  }

  /**
   * A file extern: a directory at its path makes `os.remove` raise; a file
   * there is removed; then the export, whose success leaves a file at the
   * path. Unlike the current script, no parent directory is created.
   */
  lemma ExportOutcome(s: Snapshot, path: string, url: string, rev: int, svn: LegacySvn)
    ensures var o := ExportFile(s, path, url, rev, svn);
      var p := JoinPath(s.cwd, path);
      o.state.cwd == s.cwd &&
      (o.error == Some(RemoveFailed(p)) <==> IsDir(s.tree, p)) &&
      (o.error.None? <==> !IsDir(s.tree, p) && svn.exportTo(url, rev, p).Completed?) &&
      (o.error.Some? ==> o.error in {Some(RemoveFailed(p)), Some(SvnError)}) &&
      (!IsDir(s.tree, p) ==> o.state.log == s.log + (if p in s.tree then [RemoveFile(p)] else []) + [Export(url, rev, rev, p)]) &&
      (o.error.None? ==> p in o.state.tree && o.state.tree[p] == File) &&
      (forall q :: q in s.tree && q != p ==> q in o.state.tree && o.state.tree[q] == s.tree[q])
  {
  }

  /** The calls made so far stay in the log: every step only appends. */
  lemma {:induction false} UpdateLogGrows(fuel: nat, s: Snapshot, revnum: int, svn: LegacySvn, cfg: LegacyConfig)
    ensures s.log <= UpdateExternals(fuel, s, revnum, svn, cfg).state.log
    decreases fuel, 1, 0
  {
    if fuel > 0 {
      var c := Cleared(s, revnum, svn, cfg);
      ClearedLogGrows(s, revnum, svn, cfg);
      if c.error.None? {
        var scan := ScanAt(c.state, revnum, svn, cfg);
        ProcessAllLogGrows(fuel, c.state, scan.externs, scan.failure, s.cwd, revnum, svn, cfg);
        PrefixTrans(s.log, c.state.log, UpdateExternals(fuel, s, revnum, svn, cfg).state.log);
      }
    }
  }

  lemma {:induction false} ClearAllLogGrows(s: Snapshot, exs: seq<LegacyExtern>)
    ensures s.log <= ClearAll(s, exs).state.log
    decreases |exs|
  {
    if exs != [] {
      match ClearOne(s, exs[0])
      case Err(_) =>
      case Ok(t) =>
        ClearAllLogGrows(t, exs[1..]);
        PrefixTrans(s.log, t.log, ClearAll(t, exs[1..]).state.log);
    }
  }

  lemma ClearedLogGrows(s: Snapshot, revnum: int, svn: LegacySvn, cfg: LegacyConfig)
    ensures s.log <= Cleared(s, revnum, svn, cfg).state.log
  {
    ClearAllLogGrows(s, ScanAt(s, revnum - 1, svn, cfg).externs);
  }

  lemma {:induction false} ProcessAllLogGrows(fuel: nat, s: Snapshot, exs: seq<LegacyExtern>, failure: Option<LegacyExternalsError>,
                                              home: string, revnum: int, svn: LegacySvn, cfg: LegacyConfig)
    requires fuel >= 1
    ensures s.log <= ProcessAll(fuel, s, exs, failure, home, revnum, svn, cfg).state.log
    decreases fuel, 0, |exs| + 1
  {
    if exs != [] {
      var o := ProcessOne(fuel, s, exs[0], home, revnum, svn, cfg);
      ProcessOneLogGrows(fuel, s, exs[0], home, revnum, svn, cfg);
      if o.error.None? {
        ProcessAllLogGrows(fuel, o.state, exs[1..], failure, home, revnum, svn, cfg);
        PrefixTrans(s.log, o.state.log, ProcessAll(fuel, s, exs, failure, home, revnum, svn, cfg).state.log);
      }
    }
  }

  lemma {:induction false} ProcessOneLogGrows(fuel: nat, s: Snapshot, ex: LegacyExtern, home: string, revnum: int, svn: LegacySvn, cfg: LegacyConfig)
    requires fuel >= 1
    ensures s.log <= ProcessOne(fuel, s, ex, home, revnum, svn, cfg).state.log
    decreases fuel, 0, 1
  {
    match PinnedRevision(ex.url, revnum)
    case Err(_) =>
    case Ok((url, rev)) =>
      if ex.isDirectory {
        DirectoryLogGrows(fuel, s, ex.path, url, rev, revnum, svn, cfg);
      } else {
        ExportOutcome(s, ex.path, url, rev, svn);
      }
  }

  lemma {:induction false} DirectoryLogGrows(fuel: nat, s: Snapshot, path: string, url: string, rev: int,
                                             revnum: int, svn: LegacySvn, cfg: LegacyConfig)
    requires fuel >= 1
    ensures var a := Attach(s, path, url, rev, svn);
      s.log <= a.state.log &&
      (a.error.None? ==> s.log <= UpdateExternals(fuel - 1, a.state.(cwd := JoinPath(s.cwd, path)), revnum, svn, cfg).state.log)
    decreases fuel, 0, 0
  {
    var a := Attach(s, path, url, rev, svn);
    AttachOutcome(s, path, url, rev, svn);
    if a.error.None? {
      var inner := a.state.(cwd := JoinPath(s.cwd, path));
      UpdateLogGrows(fuel - 1, inner, revnum, svn, cfg);
      PrefixTrans(s.log, inner.log, UpdateExternals(fuel - 1, inner, revnum, svn, cfg).state.log);
    }
  }

  lemma PrefixTrans<T>(a: seq<T>, b: seq<T>, c: seq<T>)
    requires a <= b && b <= c
    ensures a <= c
  {
  }

  /** An update that succeeds ends in the directory it started in. */
  lemma UpdateRestoresCwd(fuel: nat, s: Snapshot, revnum: int, svn: LegacySvn, cfg: LegacyConfig)
    ensures UpdateExternals(fuel, s, revnum, svn, cfg).error.None? ==> UpdateExternals(fuel, s, revnum, svn, cfg).state.cwd == s.cwd
  {
    if fuel > 0 {
      var c := Cleared(s, revnum, svn, cfg);
      ClearedKeepsCwd(s, revnum, svn, cfg);
      if c.error.None? {
        var scan := ScanAt(c.state, revnum, svn, cfg);
        ProcessAllRestoresCwd(fuel, c.state, scan.externs, scan.failure, s.cwd, revnum, svn, cfg);
      }
    }
  }

  lemma {:induction false} ProcessAllRestoresCwd(fuel: nat, s: Snapshot, exs: seq<LegacyExtern>, failure: Option<LegacyExternalsError>,
                                                 home: string, revnum: int, svn: LegacySvn, cfg: LegacyConfig)
    requires fuel >= 1 && s.cwd == home
    ensures ProcessAll(fuel, s, exs, failure, home, revnum, svn, cfg).error.None? ==>
      ProcessAll(fuel, s, exs, failure, home, revnum, svn, cfg).state.cwd == home
    decreases |exs|
  {
    if exs != [] {
      var o := ProcessOne(fuel, s, exs[0], home, revnum, svn, cfg);
      match PinnedRevision(exs[0].url, revnum)
      case Err(_) =>
      case Ok((url, rev)) =>
        if !exs[0].isDirectory {
          ExportOutcome(s, exs[0].path, url, rev, svn);
        }
      if o.error.None? {
        ProcessAllRestoresCwd(fuel, o.state, exs[1..], failure, home, revnum, svn, cfg);
      }
    }
  }

  /** An exception of the previous revision's scan is raised only after every extern it yielded has been removed. */
  lemma ClearScanFailure(s: Snapshot, revnum: int, svn: LegacySvn, cfg: LegacyConfig, exs: seq<LegacyExtern>, e: LegacyExternalsError)
    requires ExternalsChanged(s, revnum, svn) == Ok(true)
    requires ScanAt(s, revnum - 1, svn, cfg) == LegacyScan(exs, Some(e))
    ensures Cleared(s, revnum, svn, cfg).error.Some?
    ensures Cleared(s, revnum, svn, cfg).error != Some(ScanFailed(e)) ==> ClearAll(s, exs).error.Some?
    ensures Cleared(s, revnum, svn, cfg).error == Some(ScanFailed(e)) ==>
      forall k :: 0 <= k < |exs| ==> JoinPath(s.cwd, exs[k].path) !in Cleared(s, revnum, svn, cfg).state.tree
  {
    if ClearAll(s, exs).error.None? {
      ClearAllGone(s, exs);
    } else {
      ClearAllFailure(s, exs);
    }
  }
}
