/**
 * The main loop of the current script: for every revision in range, wipe
 * the tree if the externals property changed, bring the root working copy
 * to the revision (switch or checkout, tolerating an ancestry gap and
 * retrying after a tree conflict), reconcile the externals, stage
 * everything, unstage the `.svn` directories, commit, and record the
 * revision as done.
 */
module Replay {
  import opened Wrappers
  import opened Text
  import opened SvnOutput
  import opened LogEntry
  import opened WorkingTree
  import opened Reconciler
  import opened SvnDirs

  /** The command line: `repo` (already prefixed by `rootrepo`), mirrors, the user table, `--exportexternals`. */
  datatype Setup = Setup(repo: string, rootrepo: string, remotes: seq<string>, users: map<string, string>, exportExternals: bool)

  /** The outcomes of the commands the loop runs, as functions of their arguments. */
  datatype Tools = Tools(
    firstLog: CmdResult,                         // `svn log -r0:HEAD --limit 1 REPO`
    lastLog: CmdResult,                          // `svn log --limit 1 ROOTREPO`
    entry: int -> CmdResult,                     // `svn log -r N --limit 1 ROOTREPO`
    diff: int -> Timed,                          // `svn diff -c N ROOTREPO`, ten-second timeout
    rootSwitch: int -> CmdResult,                // `svn switch --ignore-externals --accept theirs-full -r N REPO`
    rootCheckout: int -> CmdResult,              // `svn co --ignore-externals -r N REPO .`
    svn: Svn,                                    // the commands of `updateExternalsTo`
    addUpdate: int -> CmdResult,                 // `git add -f -u .` while replaying revision N
    addAll: int -> CmdResult,                    // `git add -f --all .`
    lsIgnored: int -> CmdResult,                 // `git ls-files -i --exclude '**/.svn/wc.db'`
    order: set<string> -> seq<string>,           // the order `list(svndirs)` lists a set in
    rmCached: seq<string> -> CmdResult,          // `git rm --cached -r "D1" ... "Dn"`
    commit: (string, string, string) -> CmdResult) // `git commit --author=A --date=D --file=M`

  /** What ends the conversion early (each an exception in the script, except the retry bound). */
  datatype ReplayError =
    | LogFailed(stderr: string)              // `svn log` failed
    | BadEntry(cause: LogError)              // `parseLogEntry` raised
    | BadProgress(text: string)              // `int()` of the progress file raised
    | DiffFailed(stderr: string)             // `svn diff` failed
    | RootFailed(stderr: string)             // root switch or checkout failed for another reason
    | ConflictLoop                           // tree conflicts beyond the modelled number of retries
    | ExternalsFailed(failure: ReconcileError) // `updateExternalsTo` raised
    | GitFailed(stderr: string)              // a `git add`, `git ls-files` or `git rm` failed
    | CommitFailed(stderr: string)           // `git commit` failed with something to commit

  datatype Run = Run(state: Snapshot, error: Option<ReplayError>)

  /** The state after `updateProjectRootTo`, and whether the revision is to be ignored. */
  datatype RootRun = RootRun(state: Snapshot, ignored: Result<bool, ReplayError>)

  // ---------------------------------------------------------------------------
  // History queries

  /** `getRevision`, `getFirstRevision`, `getLastRevision`: an `svn log` entry parsed. */
  function RevisionOf(r: CmdResult, users: map<string, string>): Result<Revision, ReplayError> {
    match r
    case Failed(_, err) => Err(LogFailed(err))
    case Completed(text) =>
      match ParseEntry(text, users)
      case Err(e) => Err(BadEntry(e))
      case Ok(rev) => Ok(rev)
  }

  method GetRevision(r: CmdResult, users: map<string, string>) returns (rev: Result<Revision, ReplayError>)
    ensures rev == RevisionOf(r, users)
  {
    if r.Failed? {
      return Err(LogFailed(r.stderr));
    }
    var e := ParseLogEntry(r.stdout, users);
    if e.Err? {
      return Err(BadEntry(e.error));
    }
    return Ok(e.value);
  }

  /** `didExternalsChange`: a timeout counts as a change; a failed diff raises. */
  function ExternalsChanged(d: Timed): Result<bool, ReplayError> {
    match d
    case TimedOut => Ok(true)
    case Finished(Failed(_, err)) => Err(DiffFailed(err))
    case Finished(Completed(text)) => Ok(Contains(text, ": svn:externals"))
  }

  /** The first and last revision to replay: from the progress file, inclusive, or from the first revision of `repo`. */
  function Range(progress: Option<string>, users: map<string, string>, firstLog: CmdResult, lastLog: CmdResult): Result<(int, int), ReplayError> {
    match progress
    case Some(text) =>
      (match ParseInt(text)
       case None => Err(BadProgress(text))
       case Some(start) =>
         match RevisionOf(lastLog, users)
         case Err(e) => Err(e)
         case Ok(last) => Ok((start, last.number)))
    case None =>
      match RevisionOf(firstLog, users)
      case Err(e) => Err(e)
      case Ok(first) =>
        match RevisionOf(lastLog, users)
        case Err(e) => Err(e)
        case Ok(last) => Ok((first.number, last.number))
  }

  // ---------------------------------------------------------------------------
  // `deleteAllSvnContentInCwd` and `updateProjectRootTo`

  /** Every top-level item except `.git` removed, at the root. */
  function Wiped(s: Snapshot): Snapshot {
    Snapshot(WipeRoot(s.tree, {".git"}), s.cwd, s.log + [Wipe])
  }

  const Unreachable := "Unable to find repository location"
  const TreeConflict := "Tree conflict can only be resolved"

  /**
   * `updateProjectRootTo(rev)`: switch when the root has a `.svn`, check
   * out otherwise; an ancestry gap marks the revision ignored, a tree
   * conflict wipes the root and retries (unbounded in the script, `fuel`
   * times here).
   */
  function RootUpdate(fuel: nat, s: Snapshot, n: int, repo: string, t: Tools): (r: RootRun)
    ensures |s.log| < |r.state.log| && r.state.log[..|s.log|] == s.log
    ensures r.state.log[|s.log|] == (if HasSvn(s.tree, []) then RootSwitch(n) else RootCheckout(n))
    ensures RootOnly(r.state.log, |s.log|, n)
    decreases fuel
  {
    var switching := HasSvn(s.tree, []);
    var a := if switching then RootSwitch(n) else RootCheckout(n);
    match (if switching then t.rootSwitch(n) else t.rootCheckout(n))
    case Completed(_) => RootRun(Bound(s, [], Binding(repo, n, None), a), Ok(false))
    case Failed(_, err) =>
      if Contains(err, Unreachable) then RootRun(Logged(s, a), Ok(true))
      else if Contains(err, TreeConflict) then
        var w := Wiped(Logged(s, a));
        var r := if fuel == 0 then RootRun(w, Err(ConflictLoop)) else RootUpdate(fuel - 1, w, n, repo, t);
        RetryLog(s.log, r.state.log, a, n);
        r
      else RootRun(Logged(s, a), Err(RootFailed(err)))
  }

  method UpdateProjectRootTo(wc: WorkingCopy, fuel: nat, n: int, repo: string, t: Tools) returns (ignored: Result<bool, ReplayError>)
    modifies wc
    ensures RootRun(wc.State(), ignored) == RootUpdate(fuel, old(wc.State()), n, repo, t)
    decreases fuel
  {
    var switching := HasSvn(wc.tree, []);
    var a := if switching then RootSwitch(n) else RootCheckout(n);
    var r := if switching then t.rootSwitch(n) else t.rootCheckout(n);
    if r.Completed? {
      wc.BindAt([], Binding(repo, n, None), a);
      return Ok(false);
    }
    wc.Record(a);
    if Contains(r.stderr, Unreachable) {
      return Ok(true);
    }
    if Contains(r.stderr, TreeConflict) {
      wc.WipeAt({".git"});
      if fuel == 0 {
        return Err(ConflictLoop);
      }
      ignored := UpdateProjectRootTo(wc, fuel - 1, n, repo, t);
      return;
    }
    return Err(RootFailed(r.stderr));
  }

  // ---------------------------------------------------------------------------
  // Staging and committing

  /** `git rm --cached -r` of each batch in turn; a failure raises. */
  function Unstage(s: Snapshot, batches: seq<seq<string>>, t: Tools): Run
    decreases |batches|
  {
    if batches == [] then Run(s, None)
    else
      var s1 := Logged(s, GitUnstage(batches[0]));
      match t.rmCached(batches[0])
      case Failed(_, err) => Run(s1, Some(GitFailed(err)))
      case Completed(_) => Unstage(s1, batches[1..], t)
  }

  /** The nested `while svndirs` loops: pop up to ten names into one command, run it, repeat. */
  method RemoveCachedSvnDirs(wc: WorkingCopy, dirs: seq<string>, t: Tools) returns (err: Option<ReplayError>)
    modifies wc
    ensures Run(wc.State(), err) == Unstage(old(wc.State()), Batches(dirs), t)
  {
    ghost var s0 := wc.State();
    var svndirs := dirs;
    while svndirs != []
      invariant Unstage(s0, Batches(dirs), t) == Unstage(wc.State(), Batches(svndirs), t)
      decreases |svndirs|
    {
      ghost var start := svndirs;
      ghost var top := wc.State();
      var batch: seq<string> := [];
      var dirsperline := 10;
      while svndirs != [] && dirsperline > 0
        invariant |svndirs| <= |start| && svndirs == start[..|svndirs|]
        invariant batch == Reverse(start[|svndirs|..])
        invariant 0 <= dirsperline && |batch| + dirsperline == 10
        invariant wc.State() == top
        decreases |svndirs|
      {
        var d := svndirs[|svndirs| - 1];
        ghost var rest := start[|svndirs|..];
        svndirs := svndirs[..|svndirs| - 1];
        assert start[|svndirs|..] == [d] + rest;
        ReverseAppend([d], rest);
        batch := batch + [d];
        dirsperline := dirsperline - 1;
      }
      assert start[..|start| - |batch|] == svndirs;
      ghost var bs := Batches(start);
      assert bs == [batch] + Batches(svndirs);
      assert bs != [] && bs[0] == batch && bs[1..] == Batches(svndirs);
      ghost var pre := wc.State();
      wc.Record(GitUnstage(batch));
      var r := t.rmCached(batch);
      if r.Failed? {
        assert Unstage(pre, bs, t) == Run(wc.State(), Some(GitFailed(r.stderr)));
        return Some(GitFailed(r.stderr));
      }
      assert Unstage(pre, bs, t) == Unstage(wc.State(), Batches(svndirs), t);
    }
    return None;
  }

  /** The message file: the log, a blank line, and where the revision came from. */
  function CommitMessage(log: string, n: int, repo: string): string {
    log + "\n\nExported from rev " + IntToString(n) + " " + repo
  }

  /** A failed commit is an error unless git said there was nothing to commit. */
  function CommitError(r: CmdResult): Option<ReplayError> {
    match r
    case Completed(_) => None
    case Failed(out, err) => if Contains(out, "nothing to commit") then None else Some(CommitFailed(err))
  }

  function CommitRun(s: Snapshot, rev: Revision, repo: string, t: Tools): Run {
    var m := CommitMessage(rev.log, rev.number, repo);
    Run(Logged(s, GitCommit(rev.user, rev.date, m)), CommitError(t.commit(rev.user, rev.date, m)))
  }

  /** `git add` twice, `git ls-files -i`, the `.svn` batches, the commit. */
  function Stage(s: Snapshot, rev: Revision, repo: string, t: Tools): Run {
    var n := rev.number;
    var s1 := Logged(s, GitAddUpdate);
    if t.addUpdate(n).Failed? then Run(s1, Some(GitFailed(t.addUpdate(n).stderr)))
    else
      var s2 := Logged(s1, GitAddAll);
      if t.addAll(n).Failed? then Run(s2, Some(GitFailed(t.addAll(n).stderr)))
      else
        var s3 := Logged(s2, GitListIgnored);
        match t.lsIgnored(n)
        case Failed(_, err) => Run(s3, Some(GitFailed(err)))
        case Completed(text) =>
          var u := Unstage(s3, Batches(t.order(SvnDirsOf(SplitLines(text)))), t);
          if u.error.Some? then u else CommitRun(u.state, rev, repo, t)
  }

  method StageAndCommit(wc: WorkingCopy, rev: Revision, repo: string, t: Tools) returns (err: Option<ReplayError>)
    modifies wc
    ensures Run(wc.State(), err) == Stage(old(wc.State()), rev, repo, t)
  {
    var n := rev.number;
    wc.Record(GitAddUpdate);
    var r := t.addUpdate(n);
    if r.Failed? {
      return Some(GitFailed(r.stderr));
    }
    wc.Record(GitAddAll);
    r := t.addAll(n);
    if r.Failed? {
      return Some(GitFailed(r.stderr));
    }
    wc.Record(GitListIgnored);
    r := t.lsIgnored(n);
    if r.Failed? {
      return Some(GitFailed(r.stderr));
    }
    var svndirs := CollectSvnDirs(r.stdout);
    err := RemoveCachedSvnDirs(wc, t.order(svndirs), t);
    if err.Some? {
      return;
    }
    var m := CommitMessage(rev.log, rev.number, repo);
    wc.Record(GitCommit(rev.user, rev.date, m));
    return CommitError(t.commit(rev.user, rev.date, m));
  }

  // ---------------------------------------------------------------------------
  // One revision

  /** `getRevision`, then the wipe when the externals changed. */
  function Prepared(s: Snapshot, n: int, st: Setup, t: Tools): Result<(Revision, Snapshot), ReplayError> {
    match RevisionOf(t.entry(n), st.users)
    case Err(e) => Err(e)
    case Ok(rev) =>
      match (if st.exportExternals then ExternalsChanged(t.diff(n)) else Ok(false))
      case Err(e) => Err(e)
      case Ok(changed) => Ok((rev, if changed then Wiped(s) else s))
  }

  /** Externals (when exported), then staging and the commit. */
  function Recorded(fuel: nat, s: Snapshot, rev: Revision, st: Setup, t: Tools): Run {
    var ext := if st.exportExternals then UpdateExternals(fuel, s, rev.number, t.svn, Config(st.rootrepo, st.remotes))
               else Outcome(s, None);
    match ext.error
    case Some(e) => Run(ext.state, Some(ExternalsFailed(e)))
    case None => Stage(ext.state, rev, st.repo, t)
  }

  /** From the root update on: an ignored revision skips externals and the commit; progress is written either way. */
  function Replayed(fuel: nat, s: Snapshot, rev: Revision, st: Setup, t: Tools): Run {
    var root := RootUpdate(fuel, s, rev.number, st.repo, t);
    match root.ignored
    case Err(e) => Run(root.state, Some(e))
    case Ok(ignored) =>
      var body := if ignored then Run(root.state, None) else Recorded(fuel, root.state, rev, st, t);
      if body.error.Some? then body
      else Run(Logged(body.state, WriteProgress(IntToString(rev.number))), None)
  }

  function ReplayOne(fuel: nat, s: Snapshot, n: int, st: Setup, t: Tools): Run {
    match Prepared(s, n, st, t)
    case Err(e) => Run(s, Some(e))
    case Ok((rev, s1)) => Replayed(fuel, s1, rev, st, t)
  }

  /** The body of `for revnum in revnumbers`. */
  method ReplayRevision(wc: WorkingCopy, fuel: nat, n: int, st: Setup, t: Tools) returns (err: Option<ReplayError>)
    modifies wc
    ensures Run(wc.State(), err) == ReplayOne(fuel, old(wc.State()), n, st, t)
  {
    var rv := GetRevision(t.entry(n), st.users);
    if rv.Err? {
      return Some(rv.error);
    }
    var rev := rv.value;
    if st.exportExternals {
      var changed := ExternalsChanged(t.diff(n));
      if changed.Err? {
        return Some(changed.error);
      }
      if changed.value {
        wc.WipeAt({".git"});
      }
    }
    ghost var s1 := wc.State();
    assert Prepared(old(wc.State()), n, st, t) == Ok((rev, s1));
    var ignored := UpdateProjectRootTo(wc, fuel, rev.number, st.repo, t);
    if ignored.Err? {
      return Some(ignored.error);
    }
    if !ignored.value {
      ghost var s2 := wc.State();
      if st.exportExternals {
        var e := UpdateExternalsTo(wc, fuel, rev.number, t.svn, Config(st.rootrepo, st.remotes));
        if e.Some? {
          return Some(ExternalsFailed(e.value));
        }
      }
      err := StageAndCommit(wc, rev, st.repo, t);
      assert Run(wc.State(), err) == Recorded(fuel, s2, rev, st, t);
      if err.Some? {
        return;
      }
    }
    wc.Record(WriteProgress(IntToString(rev.number)));
    return None;
  }

  // ---------------------------------------------------------------------------
  // The whole conversion

  function ReplayFrom(fuel: nat, s: Snapshot, n: int, last: int, st: Setup, t: Tools): Run
    decreases if n <= last then last - n + 1 else 0
  {
    if n > last then Run(s, None)
    else
      var r := ReplayOne(fuel, s, n, st, t);
      if r.error.Some? then r else ReplayFrom(fuel, r.state, n + 1, last, st, t)
  }

  /** One revision of the range: it either stops the run or hands its state to the next. */
  lemma ReplayFromStep(fuel: nat, s: Snapshot, n: int, last: int, st: Setup, t: Tools, r: Run)
    requires n <= last && r == ReplayOne(fuel, s, n, st, t)
    ensures r.error.Some? ==> ReplayFrom(fuel, s, n, last, st, t) == r
    ensures r.error.None? ==> ReplayFrom(fuel, s, n, last, st, t) == ReplayFrom(fuel, r.state, n + 1, last, st, t)
  {
  }

  /** The range, the initial wipe, every revision in turn. */
  function Conversion(fuel: nat, s: Snapshot, progress: Option<string>, st: Setup, t: Tools): Run {
    match Range(progress, st.users, t.firstLog, t.lastLog)
    case Err(e) => Run(s, Some(e))
    case Ok((first, last)) => ReplayFrom(fuel, Wiped(s), first, last, st, t)
  }

  method Convert(wc: WorkingCopy, fuel: nat, progress: Option<string>, st: Setup, t: Tools) returns (err: Option<ReplayError>)
    modifies wc
    ensures Run(wc.State(), err) == Conversion(fuel, old(wc.State()), progress, st, t)
  {
    ghost var s0 := wc.State();
    var range := Range(progress, st.users, t.firstLog, t.lastLog);
    if range.Err? {
      return Some(range.error);
    }
    var first, last := range.value.0, range.value.1;
    assert Conversion(fuel, s0, progress, st, t) == ReplayFrom(fuel, Wiped(s0), first, last, st, t);
    wc.WipeAt({".git"});
    var revnum := first;
    while revnum <= last
      invariant Conversion(fuel, s0, progress, st, t) == ReplayFrom(fuel, wc.State(), revnum, last, st, t)
      decreases last - revnum + 1
    {
      ghost var before := wc.State();
      err := ReplayRevision(wc, fuel, revnum, st, t);
      ReplayFromStep(fuel, before, revnum, last, st, t, Run(wc.State(), err));
      if err.Some? {
        return;
      }
      revnum := revnum + 1;
    }
    return None;
  }

  // ---------------------------------------------------------------------------
  // Properties: the externals diff

  /** A `Modified:` or `Added:` line for the property anywhere in the diff triggers the wipe. */
  lemma PropertyLineWipes(pre: string, kind: string, post: string)
    ensures ExternalsChanged(Finished(Completed(pre + kind + ": svn:externals" + post))) == Ok(true)
  {
    ContainsInfix(pre + kind, ": svn:externals", post);
  }

  /** A diff with no colon at all changes no externals. */
  lemma NoPropertyLineKeeps(text: string)
    requires ':' !in text
    ensures ExternalsChanged(Finished(Completed(text))) == Ok(false)
  {
    NotContainsChar(text, ": svn:externals");
  }

  // ---------------------------------------------------------------------------
  // Properties: the root update

  /** A root update that is neither ignored nor failed leaves the root bound to `repo` at `n`, by a switch or a checkout. */
  lemma {:induction false} RootSuccessBinds(fuel: nat, s: Snapshot, n: int, repo: string, t: Tools)
    requires RootUpdate(fuel, s, n, repo, t).ignored == Ok(false)
    ensures var r := RootUpdate(fuel, s, n, repo, t).state;
      HasSvn(r.tree, []) && r.tree[[]] == Dir(Some(Binding(repo, n, None))) &&
      r.log != [] && (r.log[|r.log| - 1] == RootSwitch(n) || r.log[|r.log| - 1] == RootCheckout(n))
    decreases fuel, 1
  {
    var res := if HasSvn(s.tree, []) then t.rootSwitch(n) else t.rootCheckout(n);
    if res.Completed? {
      var a := if HasSvn(s.tree, []) then RootSwitch(n) else RootCheckout(n);
      var r := RootUpdate(fuel, s, n, repo, t).state;
      assert r == Bound(s, [], Binding(repo, n, None), a);
      assert r.log == s.log + [a];
    } else {
      RetryBinds(fuel, s, n, repo, t);
    }
  }

  /** A failed attempt reaches a bound root only through a tree-conflict retry. */
  lemma {:induction false} RetryBinds(fuel: nat, s: Snapshot, n: int, repo: string, t: Tools)
    requires (if HasSvn(s.tree, []) then t.rootSwitch(n) else t.rootCheckout(n)).Failed?
    requires RootUpdate(fuel, s, n, repo, t).ignored == Ok(false)
    ensures var r := RootUpdate(fuel, s, n, repo, t).state;
      HasSvn(r.tree, []) && r.tree[[]] == Dir(Some(Binding(repo, n, None))) &&
      r.log != [] && (r.log[|r.log| - 1] == RootSwitch(n) || r.log[|r.log| - 1] == RootCheckout(n))
    decreases fuel, 0
  {
    var a := if HasSvn(s.tree, []) then RootSwitch(n) else RootCheckout(n);
    var w := Wiped(Logged(s, a));
    assert fuel > 0 && RootUpdate(fuel, s, n, repo, t) == RootUpdate(fuel - 1, w, n, repo, t);
    RootSuccessBinds(fuel - 1, w, n, repo, t);
  }

  /** From `from` on, `log` holds only root switches and checkouts to `n`, and wipes. */
  predicate RootOnly(log: seq<Action>, from: nat, n: int) {
    forall k :: from <= k < |log| ==> log[k] == RootSwitch(n) || log[k] == RootCheckout(n) || log[k] == Wipe
  }

  /** A retry after a tree conflict keeps the attempt and the wipe at the head of what it logs. */
  lemma RetryLog(log: seq<Action>, rest: seq<Action>, a: Action, n: int)
    requires a == RootSwitch(n) || a == RootCheckout(n)
    requires |log| + 2 <= |rest| && rest[..|log| + 2] == log + [a] + [Wipe]
    requires RootOnly(rest, |log| + 2, n)
    ensures |log| < |rest| && rest[..|log|] == log && rest[|log|] == a
    ensures RootOnly(rest, |log|, n)
  {
    var mid := rest[..|log| + 2];
    assert rest[..|log|] == mid[..|log|];
    assert rest[|log|] == mid[|log|] && rest[|log| + 1] == mid[|log| + 1];
  }

  /** Nothing under `.git` is touched by the root update, wipes included. */
  lemma {:induction false} RootKeepsGit(fuel: nat, s: Snapshot, n: int, repo: string, t: Tools, q: string)
    requires q in s.tree && q != [] && Head(q) == ".git"
    ensures var r := RootUpdate(fuel, s, n, repo, t).state;
      q in r.tree && r.tree[q] == s.tree[q]
    decreases fuel
  {
    var switching := HasSvn(s.tree, []);
    var a := if switching then RootSwitch(n) else RootCheckout(n);
    var res := if switching then t.rootSwitch(n) else t.rootCheckout(n);
    if res.Failed? && !Contains(res.stderr, Unreachable) && Contains(res.stderr, TreeConflict) {
      var w := Wiped(Logged(s, a));
      assert q in w.tree && w.tree[q] == s.tree[q];
      if fuel > 0 {
        RootKeepsGit(fuel - 1, w, n, repo, t, q);
      }
    }
  }

  /** After a tree conflict the retry is a checkout: the wipe took the root's `.svn`. */
  lemma ConflictRetriesCheckout(fuel: nat, s: Snapshot, n: int, repo: string, t: Tools)
    requires fuel >= 1 && HasSvn(s.tree, []) && t.rootSwitch(n).Failed?
    requires !Contains(t.rootSwitch(n).stderr, Unreachable) && Contains(t.rootSwitch(n).stderr, TreeConflict)
    ensures var w := Snapshot(WipeRoot(s.tree, {".git"}), s.cwd, s.log + [RootSwitch(n), Wipe]);
      !HasSvn(w.tree, []) && RootUpdate(fuel, s, n, repo, t) == RootUpdate(fuel - 1, w, n, repo, t)
  {
    assert Wiped(Logged(s, RootSwitch(n))).log == s.log + [RootSwitch(n), Wipe];
  }

  /** A checkout the conflict never spares: wipe and retry forever, which the model reports once its retries run out. */
  lemma {:induction false} PersistentConflict(fuel: nat, s: Snapshot, n: int, repo: string, t: Tools)
    requires t.rootCheckout(n).Failed?
    requires !Contains(t.rootCheckout(n).stderr, Unreachable) && Contains(t.rootCheckout(n).stderr, TreeConflict)
    requires HasSvn(s.tree, []) ==>
      t.rootSwitch(n).Failed? && !Contains(t.rootSwitch(n).stderr, Unreachable) && Contains(t.rootSwitch(n).stderr, TreeConflict)
    ensures RootUpdate(fuel, s, n, repo, t).ignored == Err(ConflictLoop)
    decreases fuel
  {
    var a := if HasSvn(s.tree, []) then RootSwitch(n) else RootCheckout(n);
    var w := Wiped(Logged(s, a));
    assert !HasSvn(w.tree, []);
    if fuel > 0 {
      PersistentConflict(fuel - 1, w, n, repo, t);
    }
  }

  /** Any other failure of the first attempt propagates. */
  lemma RootFailurePropagates(fuel: nat, s: Snapshot, n: int, repo: string, t: Tools, out: string, err: string)
    requires (if HasSvn(s.tree, []) then t.rootSwitch(n) else t.rootCheckout(n)) == Failed(out, err)
    requires !Contains(err, Unreachable) && !Contains(err, TreeConflict)
    ensures RootUpdate(fuel, s, n, repo, t).ignored == Err(RootFailed(err))
    ensures RootUpdate(fuel, s, n, repo, t).state.tree == s.tree
  {
  }

  // ---------------------------------------------------------------------------
  // Properties: staging and the commit

  function UnstageActions(bs: seq<seq<string>>): (r: seq<Action>)
    ensures |r| == |bs| && forall k :: 0 <= k < |bs| ==> r[k] == GitUnstage(bs[k])
  {
    seq(|bs|, k requires 0 <= k < |bs| => GitUnstage(bs[k]))
  }

  /** When every `git rm --cached` succeeds, one command per batch is logged, in order, and nothing else changes. */
  lemma {:induction false} UnstageAllSucceed(s: Snapshot, bs: seq<seq<string>>, t: Tools)
    requires forall k :: 0 <= k < |bs| ==> t.rmCached(bs[k]).Completed?
    ensures Unstage(s, bs, t) == Run(s.(log := s.log + UnstageActions(bs)), None)
    decreases |bs|
  {
    if bs != [] {
      var s1 := Logged(s, GitUnstage(bs[0]));
      assert forall k :: 0 <= k < |bs[1..]| ==> bs[1..][k] == bs[k + 1];
      UnstageAllSucceed(s1, bs[1..], t);
      ConsSplit(s.log, UnstageActions(bs), GitUnstage(bs[0]), UnstageActions(bs[1..]));
    }
  }

  /** `log + r` read as `log` with `r`'s head appended, then `r`'s tail. */
  lemma ConsSplit<T>(log: seq<T>, r: seq<T>, x: T, rest: seq<T>)
    requires |r| == |rest| + 1 && r[0] == x && forall k :: 0 <= k < |rest| ==> r[k + 1] == rest[k]
    ensures log + r == log + [x] + rest
  {
    assert r == [x] + rest;
  }

  /** The first failing batch stops the loop right after its command. */
  lemma {:induction false} UnstageStops(s: Snapshot, bs: seq<seq<string>>, t: Tools, j: nat)
    requires j < |bs| && t.rmCached(bs[j]).Failed?
    requires forall k :: 0 <= k < j ==> t.rmCached(bs[k]).Completed?
    ensures Unstage(s, bs, t) == Run(s.(log := s.log + UnstageActions(bs[..j + 1])), Some(GitFailed(t.rmCached(bs[j]).stderr)))
    decreases j
  {
    var s1 := Logged(s, GitUnstage(bs[0]));
    if j > 0 {
      assert forall k :: 0 <= k < |bs[1..]| ==> bs[1..][k] == bs[k + 1];
      UnstageStops(s1, bs[1..], t, j - 1);
      ConsSplit(s.log, UnstageActions(bs[..j + 1]), GitUnstage(bs[0]), UnstageActions(bs[1..][..j]));
    } else {
      assert UnstageActions(bs[..1]) == [GitUnstage(bs[0])];
    }
  }

  /** The batches `Stage` unstages for the output `text` of `git ls-files -i`. */
  function StagedBatches(t: Tools, text: string): seq<seq<string>> {
    Batches(t.order(SvnDirsOf(SplitLines(text))))
  }

  /**
   * When `list(svndirs)` lists the set (each member once), the batches hand
   * every `.svn` directory named in `git ls-files -i` to `git rm --cached`
   * exactly once, nothing else, at most ten names per command.
   */
  lemma StagedBatchesOnce(t: Tools, text: string, d: string)
    requires multiset(t.order(SvnDirsOf(SplitLines(text)))) == multiset(SvnDirsOf(SplitLines(text)))
    ensures multiset(Flatten(StagedBatches(t, text)))[d] ==
      if exists k :: 0 <= k < |SplitLines(text)| && SvnDir(SplitLines(text)[k]) == Some(d) then 1 else 0
    ensures forall j :: 0 <= j < |StagedBatches(t, text)| ==> 1 <= |StagedBatches(t, text)[j]| <= 10
  {
    BatchesOfSet(t.order(SvnDirsOf(SplitLines(text))), SvnDirsOf(SplitLines(text)), d);
    SvnDirsOfIff(SplitLines(text), d);
    BatchSizes(t.order(SvnDirsOf(SplitLines(text))));
  }

  lemma Append3<T>(log: seq<T>, a: T, b: T, c: T)
    ensures log + [a] + [b] + [c] == log + [a, b, c]
  {
  }

  /**
   * When both `git add`s, `git ls-files -i` and every `git rm --cached`
   * succeed, staging logs exactly those commands, one `git rm` per batch in
   * order, then the commit, and its outcome is the commit's.
   */
  lemma StageSucceeds(s: Snapshot, rev: Revision, repo: string, t: Tools, text: string)
    requires t.addUpdate(rev.number).Completed? && t.addAll(rev.number).Completed?
    requires t.lsIgnored(rev.number) == Completed(text)
    requires forall k :: 0 <= k < |StagedBatches(t, text)| ==> t.rmCached(StagedBatches(t, text)[k]).Completed?
    ensures Stage(s, rev, repo, t).state.log ==
      s.log + [GitAddUpdate, GitAddAll, GitListIgnored] + UnstageActions(StagedBatches(t, text)) +
      [GitCommit(rev.user, rev.date, CommitMessage(rev.log, rev.number, repo))]
    ensures Stage(s, rev, repo, t).state.tree == s.tree && Stage(s, rev, repo, t).state.cwd == s.cwd
    ensures Stage(s, rev, repo, t).error == CommitError(t.commit(rev.user, rev.date, CommitMessage(rev.log, rev.number, repo)))
  {
    var bs := StagedBatches(t, text);
    var s3 := Logged(Logged(Logged(s, GitAddUpdate), GitAddAll), GitListIgnored);
    Append3(s.log, GitAddUpdate, GitAddAll, GitListIgnored);
    UnstageAllSucceed(s3, bs, t);
  }

  /** A failed commit that reports nothing to commit is not an error; any other failure is. */
  lemma CommitErrorIff(r: CmdResult)
    ensures CommitError(r).None? <==> r.Completed? || Contains(r.stdout, "nothing to commit")
    ensures CommitError(r).Some? ==> CommitError(r) == Some(CommitFailed(r.stderr))
  {
  }

  lemma NothingToCommit(pre: string, post: string, err: string)
    ensures CommitError(Failed(pre + "nothing to commit" + post, err)) == None
  {
    ContainsInfix(pre, "nothing to commit", post);
  }

  /** For a given log and repository, the message determines the revision number. */
  lemma CommitMessageNumber(log: string, n: int, m: int, repo: string)
    requires CommitMessage(log, n, repo) == CommitMessage(log, m, repo)
    ensures n == m
  {
    var head := log + "\n\nExported from rev ";
    var x, y := IntToString(n), IntToString(m);
    SameInfix(head, x, y, " ", repo);
    ParseIntIntToString(n);
    ParseIntIntToString(m);
  }

  lemma SameInfix(h: string, x: string, y: string, c: string, r: string)
    requires h + x + c + r == h + y + c + r
    ensures x == y
  {
    var w := h + x + c + r;
    assert |x| == |y| by {
      assert |w| == |h| + |x| + |c| + |r| == |h| + |y| + |c| + |r|;
    }
    assert forall k :: 0 <= k < |x| ==> w[|h| + k] == x[k];
    assert forall k :: 0 <= k < |y| ==> (h + y + c + r)[|h| + k] == y[k];
  }

  /** The message keeps the log whole, blank line after the header included, before the trailer. */
  lemma CommitMessageExample(repo: string)
    ensures CommitMessage("\nFix bug", 42, repo) == "\nFix bug\n\nExported from rev 42 " + repo
  {
    Numerals();
    assert "\nFix bug" + "\n\nExported from rev " + "42" + " " == "\nFix bug\n\nExported from rev 42 ";
  }

  // ---------------------------------------------------------------------------
  // Properties: one revision

  /** An ignored revision gets no externals and no commit, only its progress record. */
  lemma IgnoredRevision(fuel: nat, s: Snapshot, rev: Revision, st: Setup, t: Tools)
    requires RootUpdate(fuel, s, rev.number, st.repo, t).ignored == Ok(true)
    ensures var r := Replayed(fuel, s, rev, st, t);
      r.error.None? && |s.log| < |r.state.log| && r.state.log[|r.state.log| - 1] == WriteProgress(IntToString(rev.number)) &&
      forall k :: |s.log| <= k < |r.state.log| - 1 ==>
        r.state.log[k] in {RootSwitch(rev.number), RootCheckout(rev.number), Wipe}
  {
    var root := RootUpdate(fuel, s, rev.number, st.repo, t);
    assert Replayed(fuel, s, rev, st, t).state.log == root.state.log + [WriteProgress(IntToString(rev.number))];
  }

  /** Every revision replayed without error ends with its number written to the progress file. */
  lemma ProgressWritten(fuel: nat, s: Snapshot, n: int, st: Setup, t: Tools)
    requires ReplayOne(fuel, s, n, st, t).error.None?
    ensures RevisionOf(t.entry(n), st.users).Ok?
    ensures var log := ReplayOne(fuel, s, n, st, t).state.log;
      log != [] && log[|log| - 1] == WriteProgress(IntToString(RevisionOf(t.entry(n), st.users).value.number))
  {
    var p := Prepared(s, n, st, t);
    if p.Ok? {
      var (rev, s1) := p.value;
      assert ReplayOne(fuel, s, n, st, t) == Replayed(fuel, s1, rev, st, t);
      ReplayedProgress(fuel, s1, rev, st, t);
    } else {
      assert false;
    }
  }

  lemma ReplayedProgress(fuel: nat, s: Snapshot, rev: Revision, st: Setup, t: Tools)
    requires Replayed(fuel, s, rev, st, t).error.None?
    ensures var log := Replayed(fuel, s, rev, st, t).state.log;
      log != [] && log[|log| - 1] == WriteProgress(IntToString(rev.number))
  {
  }

  /** A changed externals property wipes the tree first, so the root is then checked out afresh. */
  lemma ChangeWipesFirst(fuel: nat, s: Snapshot, n: int, st: Setup, t: Tools, rev: Revision)
    requires st.exportExternals && RevisionOf(t.entry(n), st.users) == Ok(rev)
    requires ExternalsChanged(t.diff(n)) == Ok(true)
    ensures var log := ReplayOne(fuel, s, n, st, t).state.log;
      |s.log| + 2 <= |log| && log[|s.log|] == Wipe && log[|s.log| + 1] == RootCheckout(rev.number)
  {
    var w := Wiped(s);
    ChangedReplaysWiped(fuel, s, n, st, t, rev);
    ReplayedStartsAtRoot(fuel, w, rev, st, t);
    var log := Replayed(fuel, w, rev, st, t).state.log;
    assert w.log == s.log + [Wipe];
    assert log[|s.log|] == log[..|w.log|][|s.log|];
  }

  lemma ChangedReplaysWiped(fuel: nat, s: Snapshot, n: int, st: Setup, t: Tools, rev: Revision)
    requires st.exportExternals && RevisionOf(t.entry(n), st.users) == Ok(rev)
    requires ExternalsChanged(t.diff(n)) == Ok(true)
    ensures ReplayOne(fuel, s, n, st, t) == Replayed(fuel, Wiped(s), rev, st, t)
  {
    assert Prepared(s, n, st, t) == Ok((rev, Wiped(s)));
  }

  /** With no `.svn` at the root, the first thing after the prior log is a root checkout. */
  lemma ReplayedStartsAtRoot(fuel: nat, w: Snapshot, rev: Revision, st: Setup, t: Tools)
    requires !HasSvn(w.tree, [])
    ensures var log := Replayed(fuel, w, rev, st, t).state.log;
      |w.log| < |log| && log[..|w.log|] == w.log && log[|w.log|] == RootCheckout(rev.number)
  {
    ReplayedLogGrows(fuel, w, rev, st, t);
    var root := RootUpdate(fuel, w, rev.number, st.repo, t).state.log;
    var log := Replayed(fuel, w, rev, st, t).state.log;
    assert log[|w.log|] == log[..|root|][|w.log|];
    PrefixTrans(w.log, root, log);
  }

  lemma PrefixTrans(a: seq<Action>, b: seq<Action>, c: seq<Action>)
    requires |a| <= |b| <= |c| && b[..|a|] == a && c[..|b|] == b
    ensures c[..|a|] == a
  {
    assert c[..|a|] == c[..|b|][..|a|];
  }

  lemma {:induction false} UnstageLogGrows(s: Snapshot, bs: seq<seq<string>>, t: Tools)
    ensures var l := Unstage(s, bs, t).state.log; |s.log| <= |l| && l[..|s.log|] == s.log
    decreases |bs|
  {
    if bs != [] {
      var s1 := Logged(s, GitUnstage(bs[0]));
      UnstageLogGrows(s1, bs[1..], t);
      PrefixTrans(s.log, s1.log, Unstage(s, bs, t).state.log);
    }
  }

  lemma StageLogGrows(s: Snapshot, rev: Revision, repo: string, t: Tools)
    ensures var l := Stage(s, rev, repo, t).state.log; |s.log| <= |l| && l[..|s.log|] == s.log
  {
    var n := rev.number;
    var s3 := s.(log := s.log + [GitAddUpdate, GitAddAll, GitListIgnored]);
    if t.addUpdate(n).Completed? && t.addAll(n).Completed? && t.lsIgnored(n).Completed? {
      var bs := Batches(t.order(SvnDirsOf(SplitLines(t.lsIgnored(n).stdout))));
      assert Logged(Logged(Logged(s, GitAddUpdate), GitAddAll), GitListIgnored) == s3;
      UnstageLogGrows(s3, bs, t);
      var u := Unstage(s3, bs, t);
      PrefixTrans(s.log, s3.log, u.state.log);
      if u.error.None? {
        PrefixTrans(s.log, u.state.log, CommitRun(u.state, rev, repo, t).state.log);
      }
    }
  }

  /** The root update's log is kept by everything after it. */
  lemma ReplayedLogGrows(fuel: nat, s: Snapshot, rev: Revision, st: Setup, t: Tools)
    ensures var root := RootUpdate(fuel, s, rev.number, st.repo, t).state.log;
      var l := Replayed(fuel, s, rev, st, t).state.log;
      |root| <= |l| && l[..|root|] == root
  {
    var root := RootUpdate(fuel, s, rev.number, st.repo, t);
    if root.ignored == Ok(false) {
      var cfg := Config(st.rootrepo, st.remotes);
      var ext := if st.exportExternals then UpdateExternals(fuel, root.state, rev.number, t.svn, cfg) else Outcome(root.state, None);
      assert |root.state.log| <= |ext.state.log| && ext.state.log[..|root.state.log|] == root.state.log;
      if ext.error.None? {
        StageLogGrows(ext.state, rev, st.repo, t);
        var b := Stage(ext.state, rev, st.repo, t);
        PrefixTrans(root.state.log, ext.state.log, b.state.log);
        if b.error.None? {
          PrefixTrans(root.state.log, b.state.log, b.state.log + [WriteProgress(IntToString(rev.number))]);
        }
      }
    }
  }

  // ---------------------------------------------------------------------------
  // Properties: the whole conversion

  /** Resuming starts again at the revision the progress file names, which is replayed once more. */
  lemma ResumeFromProgress(k: int, st: Setup, t: Tools)
    requires RevisionOf(t.lastLog, st.users).Ok?
    ensures Range(Some(IntToString(k)), st.users, t.firstLog, t.lastLog) == Ok((k, RevisionOf(t.lastLog, st.users).value.number))
  {
    ParseIntIntToString(k);
  }

  /** A progress file `int()` rejects stops the conversion before anything is touched. */
  lemma BadProgressStops(fuel: nat, s: Snapshot, text: string, st: Setup, t: Tools)
    requires ParseInt(text).None?
    ensures Conversion(fuel, s, Some(text), st, t) == Run(s, Some(BadProgress(text)))
  {
  }

  /** After a complete run the progress file names the last revision of the range. */
  lemma {:induction false} ReplayFromProgress(fuel: nat, s: Snapshot, n: int, last: int, st: Setup, t: Tools)
    requires n <= last && ReplayFrom(fuel, s, n, last, st, t).error.None?
    ensures RevisionOf(t.entry(last), st.users).Ok?
    ensures var log := ReplayFrom(fuel, s, n, last, st, t).state.log;
      log != [] && log[|log| - 1] == WriteProgress(IntToString(RevisionOf(t.entry(last), st.users).value.number))
    decreases last - n
  {
    var r := ReplayOne(fuel, s, n, st, t);
    if n == last {
      assert ReplayFrom(fuel, r.state, n + 1, last, st, t) == Run(r.state, None);
      ProgressWritten(fuel, s, n, st, t);
    } else {
      ReplayFromProgress(fuel, r.state, n + 1, last, st, t);
    }
  }
}
