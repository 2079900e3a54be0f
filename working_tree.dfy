/**
 * The working copy the converter rewrites in place: an abstract directory
 * tree keyed by paths relative to the conversion root (`""` is the root),
 * the current directory, and the log, in order, of the calls that change
 * the working copy or git, the progress writes and `git ls-files`; the `svn`
 * queries and `os.chdir` are not logged.
 */
module WorkingTree {
  import opened Wrappers
  import opened Text

  /** What a `.svn` directory records: the URL and revisions it was checked out or switched to. */
  datatype Binding = Binding(url: string, rev: int, peg: Option<int>)

  /** A file, or a directory that holds a `.svn` (`svn` is `Some`) or not. */
  datatype Node = File | Dir(svn: Option<Binding>)

  type Tree = map<string, Node>

  /**
   * A logged call: one that changes the working copy or git, a progress
   * write, or the `git ls-files` listing of ignored files. The
   * comments give the current script's command line; the older one writes
   * the same calls with `URL@REV` for both revisions, switches without
   * `--ignore-ancestry` or `--accept theirs-full`, and stages with
   * `git add -u` and `git add --all .`.
   */
  datatype Action =
    | RemoveTree(path: string)                                  // `shutil.rmtree`
    | RemoveFile(path: string)                                  // `os.remove`
    | MakeDirs(path: string)                                    // `os.makedirs`
    | Checkout(url: string, rev: int, peg: int, path: string)   // `svn co --ignore-externals -r REV URL@PEG PATH`
    | Switch(url: string, rev: int, peg: int, path: string)     // `svn switch --ignore-externals --ignore-ancestry ...`
    | Export(url: string, rev: int, peg: int, path: string)     // `svn export -r REV URL@PEG PATH`
    | RootSwitch(rev: int)                                      // `svn switch ... -r N repo` at the root
    | RootCheckout(rev: int)                                    // `svn co ... -r N repo .` at the root
    | Wipe                                                      // `rm -fr` of every top-level item but the kept ones
    | GitAddUpdate                                              // `git add -f -u .`
    | GitAddAll                                                 // `git add -f --all .`
    | GitListIgnored                                            // `git ls-files -i --exclude '**/.svn/wc.db'`
    | GitUnstage(dirs: seq<string>)                             // `git rm --cached -r "D1" ... "Dn"`
    | GitCommit(author: string, date: string, message: string)  // `git commit --author=... --date=... --file=...`
    | WriteProgress(text: string)                               // `.git/info/progress` rewritten

  /** The whole observable state: the tree, the current directory and the call log. */
  datatype Snapshot = Snapshot(tree: Tree, cwd: string, log: seq<Action>)

  // ---------------------------------------------------------------------------
  // Paths

  /** `os.path.join(dir, p)` for a relative `p`, with the root written `""`. */
  function JoinPath(dir: string, p: string): string {
    if dir == [] then p else dir + "/" + p
  }

  /** `q` is `p` or lies below it. */
  predicate Within(q: string, p: string) {
    q == p || StartsWith(q, p + "/")
  }

  /** One past the last `/` of `s`, or 0. */
  function SlashEnd(s: string): (n: nat)
    ensures n <= |s|
    ensures n > 0 ==> s[n - 1] == '/'
    ensures forall k :: n <= k < |s| ==> s[k] != '/'
    decreases |s|
  {
    if s == [] then 0
    else if s[|s| - 1] == '/' then |s|
    else SlashEnd(s[..|s| - 1])
  }

  predicate AllSlashes(s: string) {
    forall k :: 0 <= k < |s| ==> s[k] == '/'
  }

  function TrimSlashes(s: string): (r: string)
    ensures r == [] || r[|r| - 1] != '/'
    ensures |r| <= |s| && r == s[..|r|]
    decreases |s|
  {
    if s != [] && s[|s| - 1] == '/' then TrimSlashes(s[..|s| - 1]) else s
  }

  /** `os.path.dirname`: up to the last `/`, trailing slashes dropped unless there is nothing else. */
  function Dirname(p: string): string {
    var head := p[..SlashEnd(p)];
    if head != [] && !AllSlashes(head) then TrimSlashes(head) else head
  }

  /** The directories `os.makedirs(p)` may create: every prefix of `p` that ends before a `/`, and `p`. */
  function Ancestors(p: string): set<string> {
    set i | 0 < i <= |p| && (i == |p| || p[i] == '/') :: p[..i]
  }

  // ---------------------------------------------------------------------------
  // The tree

  predicate IsDir(tree: Tree, p: string) {
    p in tree && tree[p].Dir?
  }

  /** `os.path.exists(os.path.join(p, '.svn'))`. */
  predicate HasSvn(tree: Tree, p: string) {
    p in tree && tree[p].Dir? && tree[p].svn.Some?
  }

  /** `shutil.rmtree(p)`: `p` and everything below it gone. */
  function RmTree(tree: Tree, p: string): (r: Tree)
    ensures forall q :: q in r <==> q in tree && !Within(q, p)
    ensures forall q :: q in r ==> r[q] == tree[q]
  {
    map q | q in tree && !Within(q, p) :: tree[q]
  }

  /** `os.makedirs(p)`: the missing directories on the way to `p` created empty. */
  function MakeDirsIn(tree: Tree, p: string): (r: Tree)
    ensures p != [] ==> p in r
    ensures forall q :: q in tree ==> q in r && r[q] == tree[q]
    ensures forall q :: q in r && q !in tree ==> q in Ancestors(p) && r[q] == Dir(None)
  {
    var added := Ancestors(p);
    assert p != [] ==> p in added by {
      if p != [] { assert p == p[..|p|]; }
    }
    map q | q in tree.Keys + added :: if q in tree then tree[q] else Dir(None)
  }

  /**
   * `rm -fr` of every item of the root except those in `keep`; a `.svn` not
   * kept takes the root's own binding with it.
   */
  function WipeRoot(tree: Tree, keep: set<string>): (r: Tree)
    ensures forall q :: q in r ==> q in tree || q == []
    ensures [] in r && r[[]].Dir?
    ensures forall q :: q in r && q != [] ==> Head(q) in keep && r[q] == tree[q]
    ensures forall q :: q in tree && q != [] && Head(q) in keep ==> q in r
  {
    var rootSvn := if ".svn" in keep && [] in tree && tree[[]].Dir? then tree[[]].svn else None;
    var kept := map q | q in tree && q != [] && Head(q) in keep :: tree[q];
    kept[[] := Dir(rootSvn)]
  }

  /** The first component of a relative path. */
  function Head(q: string): string {
    q[..IndexOf(q, '/')]
  }

  // ---------------------------------------------------------------------------
  // Effects on the whole state

  function Logged(s: Snapshot, a: Action): Snapshot {
    s.(log := s.log + [a])
  }

  /** `p` bound to `b` by a checkout or switch that succeeded. */
  function Bound(s: Snapshot, p: string, b: Binding, a: Action): Snapshot {
    Snapshot(s.tree[p := Dir(Some(b))], s.cwd, s.log + [a])
  }

  /** An export that succeeded: a file at `p` unless something is there already. */
  function Placed(s: Snapshot, p: string, a: Action): Snapshot {
    Snapshot(if p in s.tree then s.tree else s.tree[p := File], s.cwd, s.log + [a])
  }

  /**
   * The working copy as an object: the methods below are the filesystem
   * calls the converter makes, each changing the tree or the current
   * directory and logging itself.
   */
  class WorkingCopy {
    var tree: Tree
    var cwd: string
    var log: seq<Action>

    function State(): Snapshot
      reads this
    {
      Snapshot(tree, cwd, log)
    }

    constructor (tree0: Tree)
      ensures State() == Snapshot(tree0, [], [])
    {
      tree := tree0;
      cwd := [];
      log := [];
    }

    /** `shutil.rmtree(p)`. */
    method RemoveTreeAt(p: string)
      modifies this
      ensures State() == Snapshot(RmTree(old(tree), p), old(cwd), old(log) + [RemoveTree(p)])
    {
      tree := RmTree(tree, p);
      log := log + [RemoveTree(p)];
    }

    /** `os.remove(p)`. */
    method RemoveFileAt(p: string)
      modifies this
      ensures State() == Snapshot(old(tree) - {p}, old(cwd), old(log) + [RemoveFile(p)])
    {
      tree := tree - {p};
      log := log + [RemoveFile(p)];
    }

    /** `os.makedirs(p)`. */
    method MakeDirsAt(p: string)
      modifies this
      ensures State() == Snapshot(MakeDirsIn(old(tree), p), old(cwd), old(log) + [MakeDirs(p)])
    {
      tree := MakeDirsIn(tree, p);
      log := log + [MakeDirs(p)];
    }

    /** `os.chdir(p)`. */
    method Chdir(p: string)
      modifies this
      ensures State() == old(State()).(cwd := p)
    {
      cwd := p;
    }

    /** A command that changes nothing here, or one that failed. */
    method Record(a: Action)
      modifies this
      ensures State() == Logged(old(State()), a)
    {
      log := log + [a];
    }

    /** A checkout or switch of `p` that succeeded. */
    method BindAt(p: string, b: Binding, a: Action)
      modifies this
      ensures State() == Bound(old(State()), p, b, a)
    {
      tree := tree[p := Dir(Some(b))];
      log := log + [a];
    }

    /** An export of `p` that succeeded. */
    method PlaceFileAt(p: string, a: Action)
      modifies this
      ensures State() == Placed(old(State()), p, a)
    {
      if p !in tree {
        tree := tree[p := File];
      }
      log := log + [a];
    }

    /** `deleteAllSvnContentInCwd` at the root. */
    method WipeAt(keep: set<string>)
      modifies this
      ensures State() == Snapshot(WipeRoot(old(tree), keep), old(cwd), old(log) + [Wipe])
    {
      tree := WipeRoot(tree, keep);
      log := log + [Wipe];
    }
  }

  // ---------------------------------------------------------------------------
  // Properties

  /** `os.path.dirname(os.path.join(d, name))` is `d` for a plain name. */
  lemma DirnameJoin(d: string, name: string)
    requires d != [] && d[|d| - 1] != '/' && '/' !in name
    ensures Dirname(JoinPath(d, name)) == d
  {
    var p := d + "/" + name;
    assert JoinPath(d, name) == p;
    SlashEndAfter(d + "/", name);
    var head := p[..|d| + 1];
    assert head == d + "/";
    assert head[|d| - 1] == d[|d| - 1];
    assert !AllSlashes(head);
    assert head[..|head| - 1] == d;
    assert TrimSlashes(d) == d;
    assert TrimSlashes(head) == TrimSlashes(d);
  }

  lemma {:induction false} SlashEndAfter(a: string, name: string)
    requires a != [] && a[|a| - 1] == '/' && '/' !in name
    ensures SlashEnd(a + name) == |a|
    decreases |name|
  {
    if name == [] {
      assert a + name == a;
    } else {
      var s := a + name;
      assert s[|s| - 1] == name[|name| - 1];
      assert s[..|s| - 1] == a + name[..|name| - 1];
      SlashEndAfter(a, name[..|name| - 1]);
    }
  }

  /** A name without `/` has no directory part. */
  lemma DirnamePlain(name: string)
    requires '/' !in name
    ensures Dirname(name) == []
  {
    assert forall k :: 0 <= k < |name| ==> name[k] != '/';
  }

  /** After `os.makedirs(p)` every ancestor of `p` exists. */
  lemma MakeDirsCreatesAncestors(tree: Tree, p: string, a: string)
    requires a in Ancestors(p)
    ensures a in MakeDirsIn(tree, p)
  {
  }

  /** `shutil.rmtree` of a path and then of something below it is the same as the first alone. */
  lemma RmTreeAbsorbs(tree: Tree, p: string, q: string)
    requires Within(q, p) && p != []
    ensures RmTree(RmTree(tree, p), q) == RmTree(tree, p)
  {
    forall x | x in RmTree(tree, p) && Within(x, q)
      ensures false
    {
      WithinTrans(x, q, p);
    }
  }

  lemma WithinTrans(x: string, q: string, p: string)
    requires Within(x, q) && Within(q, p)
    ensures Within(x, p)
  {
    if x != q && q != p {
      assert x[..|q + "/"|] == q + "/";
      assert x[..|p + "/"|] == q[..|p + "/"|];
    }
  }

  /** A wipe keeping `.git` leaves no `.svn` binding at the root and nothing outside `.git`. */
  lemma WipeKeepsOnlyGit(tree: Tree)
    ensures var r := WipeRoot(tree, {".git"});
      r[[]] == Dir(None) && forall q :: q in r && q != [] ==> Head(q) == ".git" && q in tree
  {
  }
}
