/**
 * `updateExternalsTo` and `removeExternal` of the current script: for each
 * extern `getExternals` yields, in order, remove it (broken), check it out
 * or switch it and recurse into it (directory), or export it (file). The
 * filesystem is the abstract tree of `WorkingTree`; every `svn` command's
 * outcome is a parameter.
 */
module Reconciler {
  import opened Wrappers
  import opened Text
  import opened SvnOutput
  import opened Externals
  import opened WorkingTree

  /** The outcomes of the `svn` commands, as functions of their arguments. */
  datatype Svn = Svn(
    info: (string, Option<Binding>) -> CmdResult,          // `svn info` in a directory, given what its `.svn` records
    propget: (string, Option<Binding>, int) -> CmdResult,  // `svn propget svn:externals -r N -R` there
    nodeInfo: (string, int, int) -> CmdResult,            // `svn info -r REV URL@PEG`
    checkout: (string, int, int, string) -> CmdResult,    // `svn co --ignore-externals -r REV URL@PEG PATH`
    switch: (string, int, int, string) -> CmdResult,      // `svn switch --ignore-externals --ignore-ancestry ...`
    exportTo: (string, int, int, string) -> CmdResult)    // `svn export -r REV URL@PEG PATH`

  /** `rootrepo` and `remoterepos`. */
  datatype Config = Config(rootrepo: string, remotes: seq<string>)

  /** What stops the reconciler (each an exception in the script, except the depth bound). */
  datatype ReconcileError =
    | ScanFailed(error: ExternalsError)   // raised by `getExternals`
    | CheckoutFailed(stderr: string)      // `svn co` failed for a reason other than a URL conflict
    | SwitchFailed(stderr: string)        // `svn switch` failed
    | ExportFailed(stderr: string)        // `svn export` failed
    | TooDeep                             // nesting beyond the modelled depth

  datatype Outcome = Outcome(state: Snapshot, error: Option<ReconcileError>)

  /** What the `.svn` of directory `p` records, if it has one. */
  function BindingAt(tree: Tree, p: string): Option<Binding> {
    if HasSvn(tree, p) then tree[p].svn else None
  }

  function PropgetAt(svn: Svn, dir: string, b: Option<Binding>): int -> CmdResult {
    n => svn.propget(dir, b, n)
  }

  function EnvAt(cfg: Config, revnum: int, svn: Svn): Env {
    Env(cfg.rootrepo, cfg.remotes, revnum, svn.nodeInfo)
  }

  /** `getExternals(revnum)` run in the current directory. */
  function ScanAt(s: Snapshot, revnum: int, svn: Svn, cfg: Config): Scan {
    var b := BindingAt(s.tree, s.cwd);
    ExternalsOf(svn.info(s.cwd, b), PropgetAt(svn, s.cwd, b), EnvAt(cfg, revnum, svn))
  }

  function BindingOf(ex: Extern): Binding {
    Binding(ex.url, ex.rev, Some(ex.pegrev))
  }

  // ---------------------------------------------------------------------------
  // The three kinds of extern

  /** `removeExternal`: a tree delete for a directory extern or a directory, a file delete otherwise, nothing if absent. */
  function RemoveExternal(s: Snapshot, ex: Extern): Snapshot {
    var p := JoinPath(s.cwd, ex.path);
    if p !in s.tree then s
    else if ex.isDirectory || IsDir(s.tree, p) then Snapshot(RmTree(s.tree, p), s.cwd, s.log + [RemoveTree(p)])
    else Snapshot(s.tree - {p}, s.cwd, s.log + [RemoveFile(p)])
  }

  /** The switch of a directory extern, on its own or after a checkout hit a URL conflict. */
  function SwitchExtern(s: Snapshot, p: string, ex: Extern, svn: Svn): (o: Outcome)
    ensures s.log <= o.state.log && o.state.cwd == s.cwd
  {
    var a := Switch(ex.url, ex.rev, ex.pegrev, p);
    match svn.switch(ex.url, ex.rev, ex.pegrev, p)
    case Completed(_) => Outcome(Bound(s, p, BindingOf(ex), a), None)
    case Failed(_, err) => Outcome(Logged(s, a), Some(SwitchFailed(err)))
  }

  /**
   * A directory extern up to the recursion: created if absent, checked out
   * if it has no `.svn`, switched if it has one or the checkout reported a
   * working copy for a different URL.
   */
  function Attach(s: Snapshot, ex: Extern, svn: Svn): (o: Outcome)
    ensures s.log <= o.state.log && o.state.cwd == s.cwd
  {
    var p := JoinPath(s.cwd, ex.path);
    var s1 := if p in s.tree then s else Snapshot(MakeDirsIn(s.tree, p), s.cwd, s.log + [MakeDirs(p)]);
    if HasSvn(s1.tree, p) then SwitchExtern(s1, p, ex, svn)
    else
      var a := Checkout(ex.url, ex.rev, ex.pegrev, p);
      match svn.checkout(ex.url, ex.rev, ex.pegrev, p)
      case Completed(_) => Outcome(Bound(s1, p, BindingOf(ex), a), None)
      case Failed(_, err) =>
        if Contains(err, "is already a working copy for a different URL") then SwitchExtern(Logged(s1, a), p, ex, svn)
        else Outcome(Logged(s1, a), Some(CheckoutFailed(err)))
  }

  /** A file extern: an existing file removed, its directory created if missing, then exported. */
  function ExportFile(s: Snapshot, ex: Extern, svn: Svn): (o: Outcome)
    ensures s.log <= o.state.log && o.state.cwd == s.cwd
  {
    var p := JoinPath(s.cwd, ex.path);
    var s1 := if p in s.tree && !IsDir(s.tree, p) then Snapshot(s.tree - {p}, s.cwd, s.log + [RemoveFile(p)]) else s;
    var dir := Dirname(ex.path);
    var s2 := if dir != [] && JoinPath(s.cwd, dir) !in s1.tree
              then Snapshot(MakeDirsIn(s1.tree, JoinPath(s.cwd, dir)), s1.cwd, s1.log + [MakeDirs(JoinPath(s.cwd, dir))])
              else s1;
    var a := Export(ex.url, ex.rev, ex.pegrev, p);
    match svn.exportTo(ex.url, ex.rev, ex.pegrev, p)
    case Completed(_) => Outcome(Placed(s2, p, a), None)
    case Failed(_, err) => Outcome(Logged(s2, a), Some(ExportFailed(err)))
  }

  // ---------------------------------------------------------------------------
  // The recursion

  /**
   * `updateExternalsTo(revnum)` in the current directory. `fuel` bounds the
   * nesting depth; the script itself recurses without bound.
   */
  function UpdateExternals(fuel: nat, s: Snapshot, revnum: int, svn: Svn, cfg: Config): (o: Outcome)
    ensures s.log <= o.state.log
    ensures o.error.None? ==> o.state.cwd == s.cwd
    decreases fuel, 1, 0
  {
    if fuel == 0 then Outcome(s, Some(TooDeep))
    else
      var scan := ScanAt(s, revnum, svn, cfg);
      ProcessAll(fuel, s, scan.externs, scan.failure, s.cwd, revnum, svn, cfg)
  }

  /** The `for ex in getExternals(revnum)` loop, `home` being the directory it started in. */
  function ProcessAll(fuel: nat, s: Snapshot, exs: seq<Extern>, failure: Option<ExternalsError>, home: string,
                      revnum: int, svn: Svn, cfg: Config): (o: Outcome)
    requires fuel >= 1
    ensures s.log <= o.state.log
    ensures s.cwd == home && o.error.None? ==> o.state.cwd == home
    decreases fuel, 0, |exs|
  {
    if exs == [] then Outcome(s, if failure.Some? then Some(ScanFailed(failure.value)) else None)
    else
      var o := ProcessOne(fuel, s, exs[0], home, revnum, svn, cfg);
      if o.error.Some? then o else ProcessAll(fuel, o.state, exs[1..], failure, home, revnum, svn, cfg)
  }

  /** One extern; a directory extern recurses at the same top-level revision and restores `home` only on success. */
  function ProcessOne(fuel: nat, s: Snapshot, ex: Extern, home: string, revnum: int, svn: Svn, cfg: Config): (o: Outcome)
    requires fuel >= 1
    ensures s.log <= o.state.log
    ensures s.cwd == home && o.error.None? ==> o.state.cwd == home
    decreases fuel, 0, 0
  {
    if ex.broken then Outcome(RemoveExternal(s, ex), None)
    else if ex.isDirectory then
      var a := Attach(s, ex, svn);
      if a.error.Some? then a
      else
        var inner := UpdateExternals(fuel - 1, a.state.(cwd := JoinPath(s.cwd, ex.path)), revnum, svn, cfg);
        if inner.error.Some? then inner else Outcome(inner.state.(cwd := home), None)
    else ExportFile(s, ex, svn)
  }

  // ---------------------------------------------------------------------------
  // The methods

  /** `removeExternal(ex)`. */
  method RemoveExternalAt(wc: WorkingCopy, ex: Extern)
    modifies wc
    ensures wc.State() == RemoveExternal(old(wc.State()), ex)
  {
    var p := JoinPath(wc.cwd, ex.path);
    if p in wc.tree {
      if ex.isDirectory || IsDir(wc.tree, p) {
        wc.RemoveTreeAt(p);
      } else {
        wc.RemoveFileAt(p);
      }
    }
  }

  /** `updateExternalsTo(revnum)`. */
  method UpdateExternalsTo(wc: WorkingCopy, fuel: nat, revnum: int, svn: Svn, cfg: Config) returns (err: Option<ReconcileError>)
    modifies wc
    ensures Outcome(wc.State(), err) == UpdateExternals(fuel, old(wc.State()), revnum, svn, cfg)
    decreases fuel, 1
  {
    if fuel == 0 {
      return Some(TooDeep);
    }
    ghost var s0 := wc.State();
    var home := wc.cwd;
    var b := BindingAt(wc.tree, wc.cwd);
    var scan := GetExternals(svn.info(home, b), PropgetAt(svn, home, b), EnvAt(cfg, revnum, svn));
    var i := 0;
    while i < |scan.externs|
      invariant 0 <= i <= |scan.externs|
      invariant UpdateExternals(fuel, s0, revnum, svn, cfg)
             == ProcessAll(fuel, wc.State(), scan.externs[i..], scan.failure, home, revnum, svn, cfg)
    {
      assert scan.externs[i..][0] == scan.externs[i] && scan.externs[i..][1..] == scan.externs[i + 1..];
      err := ProcessExternal(wc, fuel, scan.externs[i], home, revnum, svn, cfg);
      if err.Some? {
        return;
      }
      i := i + 1;
    }
    if scan.failure.Some? {
      return Some(ScanFailed(scan.failure.value));
    }
    return None;
  }

  /** The loop body of `updateExternalsTo` for one extern. */
  method ProcessExternal(wc: WorkingCopy, fuel: nat, ex: Extern, home: string, revnum: int, svn: Svn, cfg: Config)
    returns (err: Option<ReconcileError>)
    requires fuel >= 1
    modifies wc
    ensures Outcome(wc.State(), err) == ProcessOne(fuel, old(wc.State()), ex, home, revnum, svn, cfg)
    decreases fuel, 0
  {
    var p := JoinPath(wc.cwd, ex.path);
    if ex.broken {
      RemoveExternalAt(wc, ex);
      return None;
    }
    if ex.isDirectory {
      err := AttachExtern(wc, ex, svn);
      if err.Some? {
        return;
      }
      wc.Chdir(p);
      err := UpdateExternalsTo(wc, fuel - 1, revnum, svn, cfg);
      if err.Some? {
        return;
      }
      wc.Chdir(home);
      return None;
    }
    err := ExportFileAt(wc, ex, svn);
  }

  /** A directory extern up to the recursion: `makedirs`, then `svn co` or `svn switch`. */
  method AttachExtern(wc: WorkingCopy, ex: Extern, svn: Svn) returns (err: Option<ReconcileError>)
    modifies wc
    ensures Outcome(wc.State(), err) == Attach(old(wc.State()), ex, svn)
  {
    var p := JoinPath(wc.cwd, ex.path);
    if p !in wc.tree {
      wc.MakeDirsAt(p);
    }
    var shouldSwitch := true;
    if !HasSvn(wc.tree, p) {
      var co := svn.checkout(ex.url, ex.rev, ex.pegrev, p);
      if co.Completed? {
        wc.BindAt(p, BindingOf(ex), Checkout(ex.url, ex.rev, ex.pegrev, p));
        shouldSwitch := false;
      } else if Contains(co.stderr, "is already a working copy for a different URL") {
        wc.Record(Checkout(ex.url, ex.rev, ex.pegrev, p));
      } else {
        wc.Record(Checkout(ex.url, ex.rev, ex.pegrev, p));
        return Some(CheckoutFailed(co.stderr));
      }
    }
    if shouldSwitch {
      var sw := svn.switch(ex.url, ex.rev, ex.pegrev, p);
      if sw.Failed? {
        wc.Record(Switch(ex.url, ex.rev, ex.pegrev, p));
        return Some(SwitchFailed(sw.stderr));
      }
      wc.BindAt(p, BindingOf(ex), Switch(ex.url, ex.rev, ex.pegrev, p));
    }
    return None;
  }

  /** A file extern: `os.remove` of an existing file, `makedirs` of its directory, `svn export`. */
  method ExportFileAt(wc: WorkingCopy, ex: Extern, svn: Svn) returns (err: Option<ReconcileError>)
    modifies wc
    ensures Outcome(wc.State(), err) == ExportFile(old(wc.State()), ex, svn)
  {
    var p := JoinPath(wc.cwd, ex.path);
    if p in wc.tree && !IsDir(wc.tree, p) {
      wc.RemoveFileAt(p);
    }
    var dir := Dirname(ex.path);
    if dir != [] && JoinPath(wc.cwd, dir) !in wc.tree {
      wc.MakeDirsAt(JoinPath(wc.cwd, dir));
    }
    var out := svn.exportTo(ex.url, ex.rev, ex.pegrev, p);
    if out.Failed? {
      wc.Record(Export(ex.url, ex.rev, ex.pegrev, p));
      return Some(ExportFailed(out.stderr));
    }
    wc.PlaceFileAt(p, Export(ex.url, ex.rev, ex.pegrev, p));
    return None;
  }

  // ---------------------------------------------------------------------------
  // Properties

  lemma PrefixTrans<T>(a: seq<T>, b: seq<T>, c: seq<T>)
    requires a <= b && b <= c
    ensures a <= c
  {
    assert c[..|a|] == b[..|a|];
  }

  /** An exception `getExternals` raises is never swallowed: the loop ends in an error. */
  lemma {:induction false} ScanFailureSurfaces(fuel: nat, s: Snapshot, exs: seq<Extern>, e: ExternalsError,
                                               home: string, revnum: int, svn: Svn, cfg: Config)
    requires fuel >= 1
    ensures ProcessAll(fuel, s, exs, Some(e), home, revnum, svn, cfg).error.Some?
    decreases |exs|
  {
    if exs != [] {
      var o := ProcessOne(fuel, s, exs[0], home, revnum, svn, cfg);
      if o.error.None? {
        ScanFailureSurfaces(fuel, o.state, exs[1..], e, home, revnum, svn, cfg);
      }
    }
  }

  /**
   * A broken extern is only removed: no error, the current directory kept,
   * only a removal of its path logged, and the tree only loses that path
   * (and, for a tree delete, what lies below it).
   */
  lemma BrokenOnlyRemoves(fuel: nat, s: Snapshot, ex: Extern, home: string, revnum: int, svn: Svn, cfg: Config)
    requires fuel >= 1 && ex.broken
    ensures var o := ProcessOne(fuel, s, ex, home, revnum, svn, cfg);
      var p := JoinPath(s.cwd, ex.path);
      o.error.None? && o.state.cwd == s.cwd &&
      |o.state.log| <= |s.log| + 1 && o.state.log[..|s.log|] == s.log &&
      (forall k :: |s.log| <= k < |o.state.log| ==> o.state.log[k] in {RemoveTree(p), RemoveFile(p)}) &&
      p !in o.state.tree &&
      (forall q :: q in o.state.tree ==> q in s.tree && o.state.tree[q] == s.tree[q]) &&
      (forall q :: q in s.tree && q !in o.state.tree ==> Within(q, p))
  {
  }

  /** A directory present before a broken extern's removal takes everything below it along. */
  lemma BrokenDirectoryGone(fuel: nat, s: Snapshot, ex: Extern, home: string, revnum: int, svn: Svn, cfg: Config)
    requires fuel >= 1 && ex.broken && JoinPath(s.cwd, ex.path) in s.tree
    requires ex.isDirectory || IsDir(s.tree, JoinPath(s.cwd, ex.path))
    ensures forall q :: q in ProcessOne(fuel, s, ex, home, revnum, svn, cfg).state.tree ==> !Within(q, JoinPath(s.cwd, ex.path))
  {
  }

  /** The calls a directory extern makes before the recursion: a missing directory is created, checkout without `.svn`, switch with one or after a URL conflict. */
  lemma AttachActions(s: Snapshot, ex: Extern, svn: Svn)
    requires JoinPath(s.cwd, ex.path) != []
    ensures var p := JoinPath(s.cwd, ex.path);
      var o := Attach(s, ex, svn);
      var delta := o.state.log[|s.log|..];
      var conflict := svn.checkout(ex.url, ex.rev, ex.pegrev, p).Failed? &&
                      Contains(svn.checkout(ex.url, ex.rev, ex.pegrev, p).stderr, "is already a working copy for a different URL");
      |s.log| <= |o.state.log| &&
      (MakeDirs(p) in delta <==> p !in s.tree) &&
      (Checkout(ex.url, ex.rev, ex.pegrev, p) in delta <==> !HasSvn(s.tree, p)) &&
      (Switch(ex.url, ex.rev, ex.pegrev, p) in delta <==> HasSvn(s.tree, p) || conflict) &&
      (forall a :: a in delta ==> a == MakeDirs(p) || a == Checkout(ex.url, ex.rev, ex.pegrev, p) || a == Switch(ex.url, ex.rev, ex.pegrev, p))
  {
    var p := JoinPath(s.cwd, ex.path);
    var co := svn.checkout(ex.url, ex.rev, ex.pegrev, p);
    var conflict := co.Failed? && Contains(co.stderr, "is already a working copy for a different URL");
    AttachDelta(s, ex, svn);
    var o := Attach(s, ex, svn);
    CallMembers(s.log, o.state.log, MakeDirs(p), Checkout(ex.url, ex.rev, ex.pegrev, p), Switch(ex.url, ex.rev, ex.pegrev, p),
                p !in s.tree, HasSvn(s.tree, p), co.Completed? || !conflict);
  }

  lemma CallMembers<T>(log: seq<T>, log': seq<T>, m: T, c: T, w: T, absent: bool, svnDir: bool, single: bool)
    requires m != c && m != w && c != w
    requires log' == log + (if absent then [m] else []) + (if svnDir then [w] else if single then [c] else [c, w])
    ensures |log| <= |log'|
    ensures var delta := log'[|log|..];
      (m in delta <==> absent) && (c in delta <==> !svnDir) && (w in delta <==> svnDir || !single) &&
      (forall a :: a in delta ==> a == m || a == c || a == w)
  {
    var d1: seq<T> := if absent then [m] else [];
    var d2: seq<T> := if svnDir then [w] else if single then [c] else [c, w];
    var delta := log'[|log|..];
    assert log' == log + (d1 + d2);
    Suffix(log, d1 + d2);
    forall a ensures a in delta <==> a in d1 || a in d2 {
      InConcat(d1, d2, a);
    }
  }

  lemma Suffix<T>(a: seq<T>, b: seq<T>)
    ensures (a + b)[|a|..] == b
  {
  }

  lemma InConcat<T>(a: seq<T>, b: seq<T>, x: T)
    ensures x in a + b <==> x in a || x in b
  {
    if x in a + b {
      var k :| 0 <= k < |a + b| && (a + b)[k] == x;
      if k >= |a| {
        assert b[k - |a|] == x;
      }
    }
    if x in b {
      var k :| 0 <= k < |b| && b[k] == x;
      assert (a + b)[|a| + k] == x;
    }
  }

  lemma AttachDelta(s: Snapshot, ex: Extern, svn: Svn)
    ensures var p := JoinPath(s.cwd, ex.path);
      var co := svn.checkout(ex.url, ex.rev, ex.pegrev, p);
      var c := Checkout(ex.url, ex.rev, ex.pegrev, p);
      var w := Switch(ex.url, ex.rev, ex.pegrev, p);
      var conflict := co.Failed? && Contains(co.stderr, "is already a working copy for a different URL");
      Attach(s, ex, svn).state.log ==
        s.log + (if p in s.tree then [] else [MakeDirs(p)]) +
        (if HasSvn(s.tree, p) then [w] else if co.Completed? || !conflict then [c] else [c, w])
  {
    var p := JoinPath(s.cwd, ex.path);
    var s1 := if p in s.tree then s else Snapshot(MakeDirsIn(s.tree, p), s.cwd, s.log + [MakeDirs(p)]);
    assert HasSvn(s1.tree, p) == HasSvn(s.tree, p);
  }

  /** Before the recursion a directory extern fails exactly when its checkout or switch does; otherwise it is bound to its URL. */
  lemma AttachResult(s: Snapshot, ex: Extern, svn: Svn)
    requires JoinPath(s.cwd, ex.path) != []
    ensures var p := JoinPath(s.cwd, ex.path);
      var o := Attach(s, ex, svn);
      var conflict := svn.checkout(ex.url, ex.rev, ex.pegrev, p).Failed? &&
                      Contains(svn.checkout(ex.url, ex.rev, ex.pegrev, p).stderr, "is already a working copy for a different URL");
      o.state.cwd == s.cwd &&
      (o.error.None? ==> p in o.state.tree && o.state.tree[p] == Dir(Some(BindingOf(ex))) &&
                         forall q :: q in s.tree && q != p ==> q in o.state.tree && o.state.tree[q] == s.tree[q]) &&
      (o.error.Some? <==>
        (!HasSvn(s.tree, p) && svn.checkout(ex.url, ex.rev, ex.pegrev, p).Failed? && !conflict) ||
        ((HasSvn(s.tree, p) || conflict) && svn.switch(ex.url, ex.rev, ex.pegrev, p).Failed?))
  {
    var p := JoinPath(s.cwd, ex.path);
    var s1 := if p in s.tree then s else Snapshot(MakeDirsIn(s.tree, p), s.cwd, s.log + [MakeDirs(p)]);
    assert HasSvn(s1.tree, p) == HasSvn(s.tree, p);
    assert forall q :: q in s.tree ==> q in s1.tree && s1.tree[q] == s.tree[q];
  }

  /** A file extern: only file removals, directory creation and a final export. */
  lemma FileActions(s: Snapshot, ex: Extern, svn: Svn)
    ensures var p := JoinPath(s.cwd, ex.path);
      var o := ExportFile(s, ex, svn);
      var delta := o.state.log[|s.log|..];
      |s.log| <= |o.state.log| && delta != [] &&
      delta[|delta| - 1] == Export(ex.url, ex.rev, ex.pegrev, p) &&
      (RemoveFile(p) in delta <==> p in s.tree && !IsDir(s.tree, p)) &&
      (forall a :: a in delta ==> a.RemoveFile? || a.MakeDirs? || a.Export?)
  {
    var p := JoinPath(s.cwd, ex.path);
    var s1 := if p in s.tree && !IsDir(s.tree, p) then Snapshot(s.tree - {p}, s.cwd, s.log + [RemoveFile(p)]) else s;
    var dir := Dirname(ex.path);
    var md := JoinPath(s.cwd, dir);
    var o := ExportFile(s, ex, svn);
    var rm: seq<Action> := if p in s.tree && !IsDir(s.tree, p) then [RemoveFile(p)] else [];
    var mk: seq<Action> := if dir != [] && md !in s1.tree then [MakeDirs(md)] else [];
    var e := Export(ex.url, ex.rev, ex.pegrev, p);
    assert s1.log == s.log + rm;
    var s2 := if dir != [] && md !in s1.tree then Snapshot(MakeDirsIn(s1.tree, md), s1.cwd, s1.log + [MakeDirs(md)]) else s1;
    assert s2.log == s1.log + mk;
    assert o.state.log == s2.log + [e];
    assert o.state.log == s.log + (rm + mk + [e]);
    Suffix(s.log, rm + mk + [e]);
    forall a | a in rm + mk + [e] ensures a.RemoveFile? || a.MakeDirs? || a.Export? {
      InConcat(rm + mk, [e], a);
      InConcat(rm, mk, a);
    }
    assert RemoveFile(p) in rm + mk + [e] <==> RemoveFile(p) in rm by {
      InConcat(rm + mk, [e], RemoveFile(p));
      InConcat(rm, mk, RemoveFile(p));
    }
  }

  /** A file extern fails exactly when its export does; afterwards its path and its directory exist. */
  lemma FileResult(s: Snapshot, ex: Extern, svn: Svn)
    ensures var p := JoinPath(s.cwd, ex.path);
      var o := ExportFile(s, ex, svn);
      (o.error.None? <==> svn.exportTo(ex.url, ex.rev, ex.pegrev, p).Completed?) &&
      (o.error.None? ==> p in o.state.tree) &&
      (Dirname(ex.path) != [] ==> JoinPath(s.cwd, Dirname(ex.path)) in o.state.tree)
  {
    var dir := Dirname(ex.path);
    if dir != [] {
      assert JoinPath(s.cwd, dir) != [];
    }
  }

  /** Broken, directory and file externs go to their own branches. */
  lemma ProcessOneBranches(fuel: nat, s: Snapshot, ex: Extern, home: string, revnum: int, svn: Svn, cfg: Config)
    requires fuel >= 1 && !ex.broken
    ensures !ex.isDirectory ==> ProcessOne(fuel, s, ex, home, revnum, svn, cfg) == ExportFile(s, ex, svn)
    ensures ex.isDirectory && Attach(s, ex, svn).error.Some? ==> ProcessOne(fuel, s, ex, home, revnum, svn, cfg) == Attach(s, ex, svn)
  {
  }

  /** No `finally`: when the recursion into a directory extern fails, the current directory stays inside it. */
  lemma NoFinally(fuel: nat, s: Snapshot, ex: Extern, home: string, revnum: int, svn: Svn, cfg: Config, stdout: string, stderr: string)
    requires fuel >= 2 && !ex.broken && ex.isDirectory
    requires Attach(s, ex, svn).error.None?
    requires svn.info(JoinPath(s.cwd, ex.path), Some(BindingOf(ex))) == Failed(stdout, stderr)
    requires JoinPath(s.cwd, ex.path) != []
    ensures ProcessOne(fuel, s, ex, home, revnum, svn, cfg)
         == Outcome(Attach(s, ex, svn).state.(cwd := JoinPath(s.cwd, ex.path)), Some(ScanFailed(InfoFailed(stderr))))
  {
    AttachResult(s, ex, svn);
    var p := JoinPath(s.cwd, ex.path);
    var inner := Attach(s, ex, svn).state.(cwd := p);
    assert BindingAt(inner.tree, p) == Some(BindingOf(ex));
    assert ScanAt(inner, revnum, svn, cfg) == Scan([], Some(InfoFailed(stderr)));
    assert UpdateExternals(fuel - 1, inner, revnum, svn, cfg) == Outcome(inner, Some(ScanFailed(InfoFailed(stderr))));
  }
}
