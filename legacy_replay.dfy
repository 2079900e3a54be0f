/**
 * The main loop of the older script: for every revision in range, bring the
 * root working copy to it (switch or checkout, pegged at the revision), then
 * reconcile the externals; a root update that fails is tolerated only when
 * the log shows the path deleted, and then everything but `.git` and `.svn`
 * is removed. Staging, the commit and the progress file follow every
 * revision, whatever `git` reports.
 */
module LegacyReplay {
  import opened Wrappers
  import opened Text
  import opened SvnOutput
  import opened LogEntry
  import opened WorkingTree
  import opened LegacyReconciler
  import Replay

  /** `repo`, `rootrepo`, `remoterepos` and `userLookup`, all fixed in the script. */
  datatype LegacySetup = LegacySetup(repo: string, rootrepo: string, remotes: seq<string>, users: map<string, string>)

  /** The outcomes of the commands the loop runs, as functions of their arguments. */
  datatype LegacyTools = LegacyTools(
    firstLog: CmdResult,            // `svn log -r0:HEAD --limit 1 REPO`
    lastLog: CmdResult,             // `svn log --limit 1 REPO`
    entry: int -> CmdResult,        // `svn log --limit 1 ROOTREPO@N`
    rootSwitch: int -> CmdResult,   // `svn switch --ignore-externals -r N REPO@N`
    rootCheckout: int -> CmdResult, // `svn co --ignore-externals -r N REPO@N .`
    deletedLog: int -> CmdResult,   // `svn log -v -r N ROOTREPO`
    svn: LegacySvn)                 // the commands of `updateExternalsTo`

  /** What ends the older conversion early (each an exception in the script). */
  datatype LegacyReplayError =
    | History(cause: Replay.ReplayError)             // an `svn log` query, its parse, or the progress file
    | DeletedLogFailed(stderr: string)               // `svn log -v` of `isThisPathDeleted` failed
    | RootSvnError                                   // the root update failed and the path was not deleted
    | ExternalsFailed(failure: LegacyReconcileError) // `updateExternalsTo` raised

  datatype LegacyRun = LegacyRun(state: Snapshot, error: Option<LegacyReplayError>)

  function ConfigOf(st: LegacySetup): LegacyConfig {
    LegacyConfig(st.rootrepo, st.remotes)
  }

  /** The message written to `.commitmessage`. */
  function LegacyMessage(log: string, repo: string, n: int): string {
    log + "\n\nExported from " + repo + "@" + IntToString(n)
  }

  /** `git add -u`, `git add --all .`, `git commit`, then the progress file; no outcome of them is looked at. */
  function Committed(s: Snapshot, rev: Revision, repo: string): Snapshot {
    s.(log := s.log + [GitAddUpdate, GitAddAll, GitCommit(rev.user, rev.date, LegacyMessage(rev.log, repo, rev.number)),
                       WriteProgress(IntToString(rev.number))])
  }

  // ---------------------------------------------------------------------------
  // One revision

  /**
   * The root switched or checked out at `rev.number`; on success the
   * externals reconciled; on failure the path-deleted test, which either
   * wipes everything but `.git` and `.svn` or raises.
   */
  function RootUpdate(fuel: nat, s: Snapshot, rev: Revision, st: LegacySetup, t: LegacyTools): LegacyRun {
    var n := rev.number;
    var switching := HasSvn(s.tree, []);
    var a := if switching then RootSwitch(n) else RootCheckout(n);
    match (if switching then t.rootSwitch(n) else t.rootCheckout(n))
    case Completed(_) =>
      var o := UpdateExternals(fuel, Bound(s, [], Binding(st.repo, n, Some(n)), a), n, t.svn, ConfigOf(st));
      LegacyRun(o.state, if o.error.Some? then Some(ExternalsFailed(o.error.value)) else None)
    case Failed(_, _) =>
      var s1 := Logged(s, a);
      match t.deletedLog(n)
      case Failed(_, err) => LegacyRun(s1, Some(DeletedLogFailed(err)))
      case Completed(text) =>
        if PathDeleted(st.repo, SplitLines(text)) then LegacyRun(Snapshot(WipeRoot(s1.tree, {".git", ".svn"}), s1.cwd, s1.log + [Wipe]), None)
        else LegacyRun(s1, Some(RootSvnError))
  }

  /** The body of `for revnum in revnumbers`. */
  function ReplayOne(fuel: nat, s: Snapshot, n: int, st: LegacySetup, t: LegacyTools): LegacyRun {
    match Replay.RevisionOf(t.entry(n), st.users)
    case Err(e) => LegacyRun(s, Some(History(e)))
    case Ok(rev) =>
      var r := RootUpdate(fuel, s, rev, st, t);
      if r.error.Some? then r else LegacyRun(Committed(r.state, rev, st.repo), None)
  }

  method UpdateRoot(wc: WorkingCopy, fuel: nat, rev: Revision, st: LegacySetup, t: LegacyTools) returns (err: Option<LegacyReplayError>)
    modifies wc
    ensures LegacyRun(wc.State(), err) == RootUpdate(fuel, old(wc.State()), rev, st, t)
  {
    var n := rev.number;
    var switching := HasSvn(wc.tree, []);
    var a := if switching then RootSwitch(n) else RootCheckout(n);
    var retval := if switching then t.rootSwitch(n) else t.rootCheckout(n);
    if retval.Failed? {
      wc.Record(a);
      var text := t.deletedLog(n);
      if text.Failed? {
        return Some(DeletedLogFailed(text.stderr));
      }
      if PathDeleted(st.repo, SplitLines(text.stdout)) {
        wc.WipeAt({".git", ".svn"});
        return None;
      }
      return Some(RootSvnError);
    }
    wc.BindAt([], Binding(st.repo, n, Some(n)), a);
    var e := UpdateExternalsTo(wc, fuel, n, t.svn, ConfigOf(st));
    if e.Some? {
      return Some(ExternalsFailed(e.value));
    }
    return None;
  }

  method ReplayRevision(wc: WorkingCopy, fuel: nat, n: int, st: LegacySetup, t: LegacyTools) returns (err: Option<LegacyReplayError>)
    modifies wc
    ensures LegacyRun(wc.State(), err) == ReplayOne(fuel, old(wc.State()), n, st, t)
  {
    var rv := Replay.GetRevision(t.entry(n), st.users);
    if rv.Err? {
      return Some(History(rv.error));
    }
    var rev := rv.value;
    err := UpdateRoot(wc, fuel, rev, st, t);
    if err.Some? {
      return;
    }
    CommitRevision(wc, rev, st.repo);
    return None;
  }

  /** Staging, the commit and the progress file. */
  method CommitRevision(wc: WorkingCopy, rev: Revision, repo: string)
    modifies wc
    ensures wc.State() == Committed(old(wc.State()), rev, repo)
  {
    wc.Record(GitAddUpdate);
    wc.Record(GitAddAll);
    wc.Record(GitCommit(rev.user, rev.date, LegacyMessage(rev.log, repo, rev.number)));
    wc.Record(WriteProgress(IntToString(rev.number)));
  }

  // ---------------------------------------------------------------------------
  // The whole conversion

  function ReplayFrom(fuel: nat, s: Snapshot, n: int, last: int, st: LegacySetup, t: LegacyTools): LegacyRun
    decreases if n <= last then last - n + 1 else 0
  {
    if n > last then LegacyRun(s, None)
    else
      var r := ReplayOne(fuel, s, n, st, t);
      if r.error.Some? then r else ReplayFrom(fuel, r.state, n + 1, last, st, t)
  }

  /** One revision of the range: it either stops the run or hands its state to the next. */
  lemma ReplayFromStep(fuel: nat, s: Snapshot, n: int, last: int, st: LegacySetup, t: LegacyTools, r: LegacyRun)
    requires n <= last && r == ReplayOne(fuel, s, n, st, t)
    ensures r.error.Some? ==> ReplayFrom(fuel, s, n, last, st, t) == r
    ensures r.error.None? ==> ReplayFrom(fuel, s, n, last, st, t) == ReplayFrom(fuel, r.state, n + 1, last, st, t)
  {
  }

  /** The range, then every revision in turn; unlike the current script, nothing is wiped first. */
  function Conversion(fuel: nat, s: Snapshot, progress: Option<string>, st: LegacySetup, t: LegacyTools): LegacyRun {
    match Replay.Range(progress, st.users, t.firstLog, t.lastLog)
    case Err(e) => LegacyRun(s, Some(History(e)))
    case Ok((first, last)) => ReplayFrom(fuel, s, first, last, st, t)
  }

  /** The `for revnum in range(first, last + 1)` loop. */
  method ReplayRange(wc: WorkingCopy, fuel: nat, first: int, last: int, st: LegacySetup, t: LegacyTools) returns (err: Option<LegacyReplayError>)
    modifies wc
    ensures LegacyRun(wc.State(), err) == ReplayFrom(fuel, old(wc.State()), first, last, st, t)
  {
    ghost var s0 := wc.State();
    var revnum := first;
    while revnum <= last
      invariant ReplayFrom(fuel, s0, first, last, st, t) == ReplayFrom(fuel, wc.State(), revnum, last, st, t)
      decreases last - revnum + 1
    {
      ghost var before := wc.State();
      err := ReplayRevision(wc, fuel, revnum, st, t);
      ReplayFromStep(fuel, before, revnum, last, st, t, LegacyRun(wc.State(), err));
      if err.Some? {
        return;
      }
      revnum := revnum + 1;
    }
    return None;
  }

  method Convert(wc: WorkingCopy, fuel: nat, progress: Option<string>, st: LegacySetup, t: LegacyTools) returns (err: Option<LegacyReplayError>)
    modifies wc
    ensures LegacyRun(wc.State(), err) == Conversion(fuel, old(wc.State()), progress, st, t)
  {
    var range := Replay.Range(progress, st.users, t.firstLog, t.lastLog);
    if range.Err? {
      return Some(History(range.error));
    }
    err := ReplayRange(wc, fuel, range.value.0, range.value.1, st, t);
  }

  // ---------------------------------------------------------------------------
  // Properties

  /** The root is switched when it has a `.svn` and checked out otherwise, and that is the revision's first action. */
  lemma RootCommandFirst(fuel: nat, s: Snapshot, rev: Revision, st: LegacySetup, t: LegacyTools)
    ensures var log := RootUpdate(fuel, s, rev, st, t).state.log;
      |log| > |s.log| && log[..|s.log|] == s.log &&
      log[|s.log|] == (if HasSvn(s.tree, []) then RootSwitch(rev.number) else RootCheckout(rev.number))
  {
    var n := rev.number;
    var a := if HasSvn(s.tree, []) then RootSwitch(n) else RootCheckout(n);
    var b := Bound(s, [], Binding(st.repo, n, Some(n)), a);
    var log := RootUpdate(fuel, s, rev, st, t).state.log;
    if (if HasSvn(s.tree, []) then t.rootSwitch(n) else t.rootCheckout(n)).Completed? {
      UpdateLogGrows(fuel, b, n, t.svn, ConfigOf(st));
      assert b.log == s.log + [a];
      assert log[..|b.log|] == b.log;
      assert log[|s.log|] == b.log[|s.log|];
    } else {
      assert log[..|s.log| + 1] == s.log + [a];
      assert log[|s.log|] == (s.log + [a])[|s.log|];
    }
  }

  /**
   * A root update that fails where the log shows the path deleted is not an
   * error: the failed command, then the wipe of everything but `.git` and
   * `.svn`, and no externals are touched.
   */
  lemma DeletedPathTolerated(fuel: nat, s: Snapshot, rev: Revision, st: LegacySetup, t: LegacyTools, out: string, err: string, text: string)
    requires (if HasSvn(s.tree, []) then t.rootSwitch(rev.number) else t.rootCheckout(rev.number)) == Failed(out, err)
    requires t.deletedLog(rev.number) == Completed(text) && PathDeleted(st.repo, SplitLines(text))
    ensures var r := RootUpdate(fuel, s, rev, st, t);
      r.error.None? &&
      r.state.tree == WipeRoot(s.tree, {".git", ".svn"}) &&
      r.state.log == s.log + [if HasSvn(s.tree, []) then RootSwitch(rev.number) else RootCheckout(rev.number), Wipe] &&
      (forall q :: q in r.state.tree && q != [] ==> Head(q) in {".git", ".svn"})
  {
  }

  /** Otherwise a failed root update ends the conversion. */
  lemma UndeletedFailureRaises(fuel: nat, s: Snapshot, rev: Revision, st: LegacySetup, t: LegacyTools, out: string, err: string, text: string)
    requires (if HasSvn(s.tree, []) then t.rootSwitch(rev.number) else t.rootCheckout(rev.number)) == Failed(out, err)
    requires t.deletedLog(rev.number) == Completed(text) && !PathDeleted(st.repo, SplitLines(text))
    ensures RootUpdate(fuel, s, rev, st, t).error == Some(RootSvnError)
  {
  }

  /** The wipe keeps the root's own `.svn`: the root stays bound to what it was. */
  lemma WipeKeepsRootBinding(tree: Tree, b: Binding)
    requires [] in tree && tree[[]] == Dir(Some(b))
    ensures WipeRoot(tree, {".git", ".svn"})[[]] == Dir(Some(b))
  {
  }

  /**
   * Every revision that does not raise is committed, under the message that
   * names it, and the progress file then names it; nothing `git` reports can
   * stop the loop.
   */
  lemma EveryRevisionCommitted(fuel: nat, s: Snapshot, n: int, st: LegacySetup, t: LegacyTools)
    ensures var r := ReplayOne(fuel, s, n, st, t);
      r.error.None? <==> Replay.RevisionOf(t.entry(n), st.users).Ok? &&
                         RootUpdate(fuel, s, Replay.RevisionOf(t.entry(n), st.users).value, st, t).error.None?
    ensures var r := ReplayOne(fuel, s, n, st, t);
      r.error.None? ==>
        var rev := Replay.RevisionOf(t.entry(n), st.users).value;
        var log := r.state.log;
        |log| >= 4 &&
        log[|log| - 4..] == [GitAddUpdate, GitAddAll, GitCommit(rev.user, rev.date, LegacyMessage(rev.log, st.repo, rev.number)),
                             WriteProgress(IntToString(rev.number))]
  {
    var r := ReplayOne(fuel, s, n, st, t);
    if r.error.None? {
      var rev := Replay.RevisionOf(t.entry(n), st.users).value;
      var root := RootUpdate(fuel, s, rev, st, t);
      assert r.state == Committed(root.state, rev, st.repo);
    }
  }

  /** The message starts with the log entry's message and tells revisions apart. */
  lemma LegacyMessageFacts(log: string, repo: string, n: int, m: int)
    ensures StartsWith(LegacyMessage(log, repo, n), log)
    ensures LegacyMessage(log, repo, n) == LegacyMessage(log, repo, m) ==> n == m
  {
    var prefix := log + "\n\nExported from " + repo + "@";
    assert LegacyMessage(log, repo, n) == prefix + IntToString(n);
    assert LegacyMessage(log, repo, m) == prefix + IntToString(m);
    assert LegacyMessage(log, repo, n)[..|log|] == log;
    if LegacyMessage(log, repo, n) == LegacyMessage(log, repo, m) {
      assert IntToString(n) == LegacyMessage(log, repo, n)[|prefix|..];
      assert IntToString(m) == LegacyMessage(log, repo, m)[|prefix|..];
      ParseIntIntToString(n);
      ParseIntIntToString(m);
    }
  }

  /** Replaying one revision only appends to the log. */
  lemma ReplayOneLogGrows(fuel: nat, s: Snapshot, n: int, st: LegacySetup, t: LegacyTools)
    ensures s.log <= ReplayOne(fuel, s, n, st, t).state.log
  {
    match Replay.RevisionOf(t.entry(n), st.users)
    case Err(_) =>
    case Ok(rev) =>
      RootCommandFirst(fuel, s, rev, st, t);
      var root := RootUpdate(fuel, s, rev, st, t);
      PrefixOfAppend(s.log, root.state.log, Committed(root.state, rev, st.repo).log[|root.state.log|..]);
  }

  lemma PrefixOfAppend<T>(a: seq<T>, b: seq<T>, more: seq<T>)
    requires |a| <= |b| && b[..|a|] == a
    ensures a <= b && a <= b + more
  {
  }

  /** After a complete run the progress file names the last revision of the range. */
  lemma {:induction false} ReplayFromProgress(fuel: nat, s: Snapshot, n: int, last: int, st: LegacySetup, t: LegacyTools)
    requires n <= last && ReplayFrom(fuel, s, n, last, st, t).error.None?
    ensures Replay.RevisionOf(t.entry(last), st.users).Ok?
    ensures var log := ReplayFrom(fuel, s, n, last, st, t).state.log;
      log != [] && log[|log| - 1] == WriteProgress(IntToString(Replay.RevisionOf(t.entry(last), st.users).value.number))
    decreases last - n
  {
    var r := ReplayOne(fuel, s, n, st, t);
    if n == last {
      assert ReplayFrom(fuel, r.state, n + 1, last, st, t) == LegacyRun(r.state, None);
      EveryRevisionCommitted(fuel, s, n, st, t);
    } else {
      ReplayFromProgress(fuel, r.state, n + 1, last, st, t);
    }
  }
}
