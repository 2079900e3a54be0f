/**
 * The `.svn` directories git is told to forget after every `git add`: the
 * greedy prefix `^(.*\.svn)/` of each line `git ls-files -i` prints,
 * gathered into a set, then drained from the end of a list ten at a time.
 */
module SvnDirs {
  import opened Wrappers
  import opened Text

  // ---------------------------------------------------------------------------
  // `re.search(r'^(.*\.svn)/', line)`

  /** `line[..i]` ends in `.svn` and a `/` follows it. */
  predicate SvnEndAt(line: string, i: int) {
    4 <= i < |line| && line[i - 4..i] == ".svn" && line[i] == '/'
  }

  /** The largest `i < n` with `SvnEndAt(line, i)`. */
  function LastSvnEnd(line: string, n: nat): (r: Option<nat>)
    requires n <= |line|
    ensures r.Some? ==> r.value < n && SvnEndAt(line, r.value)
    ensures r.Some? ==> forall i :: r.value < i < n ==> !SvnEndAt(line, i)
    ensures r.None? ==> forall i :: 0 <= i < n ==> !SvnEndAt(line, i)
    decreases n
  {
    if n == 0 then None
    else if SvnEndAt(line, n - 1) then Some(n - 1)
    else LastSvnEnd(line, n - 1)
  }

  /** Group 1 of the match: `.*` is greedy, so the match ends at the last `.svn/`. */
  function SvnDir(line: string): Option<string> {
    match LastSvnEnd(line, |line|)
    case None => None
    case Some(i) => Some(line[..i])
  }

  /** `svndirs`: every group found, once. */
  function SvnDirsOf(lines: seq<string>): set<string>
    decreases |lines|
  {
    if lines == [] then {}
    else
      var rest := SvnDirsOf(lines[..|lines| - 1]);
      match SvnDir(lines[|lines| - 1])
      case None => rest
      case Some(d) => rest + {d}
  }

  /** The `for line in text.splitlines()` loop filling the set. */
  method CollectSvnDirs(text: string) returns (dirs: set<string>)
    ensures dirs == SvnDirsOf(SplitLines(text))
  {
    var lines := SplitLines(text);
    dirs := {};
    var i := 0;
    while i < |lines|
      invariant 0 <= i <= |lines|
      invariant dirs == SvnDirsOf(lines[..i])
    {
      assert lines[..i + 1][..i] == lines[..i];
      var m := SvnDir(lines[i]);
      if m.Some? {
        dirs := dirs + {m.value};
      }
      i := i + 1;
    }
    assert lines[..|lines|] == lines;
  }

  // ---------------------------------------------------------------------------
  // Draining the list

  /** The order `list.pop()` empties a list in. */
  function Reverse<T>(xs: seq<T>): (r: seq<T>)
    ensures |r| == |xs|
    decreases |xs|
  {
    if xs == [] then [] else [xs[|xs| - 1]] + Reverse(xs[..|xs| - 1])
  }

  /** The batches the nested `while` loops pop: at most ten names each, from the end. */
  function Batches<T>(xs: seq<T>): seq<seq<T>>
    decreases |xs|
  {
    if xs == [] then []
    else
      var k := if |xs| < 10 then |xs| else 10;
      [Reverse(xs[|xs| - k..])] + Batches(xs[..|xs| - k])
  }

  function Flatten<T>(bs: seq<seq<T>>): seq<T>
    decreases |bs|
  {
    if bs == [] then [] else bs[0] + Flatten(bs[1..])
  }

  // ---------------------------------------------------------------------------
  // Properties

  /** The group is the longest prefix that ends in `.svn` right before a `/`; there is none only when no such prefix exists. */
  lemma SvnDirGreedy(line: string)
    ensures SvnDir(line).None? <==> forall i :: 0 <= i < |line| ==> !SvnEndAt(line, i)
    ensures SvnDir(line).Some? ==>
      var d := SvnDir(line).value;
      StartsWith(line, d + "/") && |d| >= 4 && d[|d| - 4..] == ".svn" &&
      forall i :: |d| < i < |line| ==> !SvnEndAt(line, i)
  {
    match LastSvnEnd(line, |line|)
    case None =>
    case Some(i) =>
      var d := line[..i];
      assert d[|d| - 4..] == line[i - 4..i];
      assert (d + "/") == line[..i + 1];
  }

  /** `.svn` inside a `.svn` path: the longest prefix, up to the last `.svn/`, is taken. */
  lemma SvnDirExample(line: string)
    requires line == "lib/.svn/pristine/.svn/wc.db"
    ensures SvnDir(line) == Some("lib/.svn/pristine/.svn")
  {
    assert SvnEndAt(line, 22);
    assert forall i :: 22 < i < |line| ==> line[i] != '/';
    var r := LastSvnEnd(line, |line|);
    assert r.Some?;
    assert r.value == 22;
    assert line[..22] == "lib/.svn/pristine/.svn";
  }

  /** A line with no `.svn/` contributes nothing. */
  lemma SvnDirAbsent(line: string)
    requires '/' !in line
    ensures SvnDir(line) == None
  {
    assert forall i :: 0 <= i < |line| ==> line[i] != '/';
  }

  /** The set holds exactly the groups of the lines that match. */
  lemma {:induction false} SvnDirsOfIff(lines: seq<string>, d: string)
    ensures d in SvnDirsOf(lines) <==> exists k :: 0 <= k < |lines| && SvnDir(lines[k]) == Some(d)
    decreases |lines|
  {
    if lines != [] {
      var init := lines[..|lines| - 1];
      SvnDirsOfIff(init, d);
      assert forall k :: 0 <= k < |init| ==> init[k] == lines[k];
      if SvnDir(lines[|lines| - 1]) == Some(d) {
        assert d in SvnDirsOf(lines);
      } else if exists k :: 0 <= k < |lines| && SvnDir(lines[k]) == Some(d) {
        var k :| 0 <= k < |lines| && SvnDir(lines[k]) == Some(d);
        assert k < |init| && SvnDir(init[k]) == Some(d);
      }
    }
  }

  lemma {:induction false} ReverseAppend<T>(a: seq<T>, b: seq<T>)
    ensures Reverse(a + b) == Reverse(b) + Reverse(a)
    decreases |b|
  {
    if b == [] {
      assert a + b == a;
    } else {
      var ab := a + b;
      assert ab[..|ab| - 1] == a + b[..|b| - 1];
      assert ab[|ab| - 1] == b[|b| - 1];
      ReverseAppend(a, b[..|b| - 1]);
    }
  }

  /** Popping visits every element exactly as often as the list holds it. */
  lemma {:induction false} ReverseMultiset<T>(xs: seq<T>)
    ensures multiset(Reverse(xs)) == multiset(xs)
    decreases |xs|
  {
    if xs != [] {
      ReverseMultiset(xs[..|xs| - 1]);
      assert xs == xs[..|xs| - 1] + [xs[|xs| - 1]];
    }
  }

  /** Read one after another, the batches are the list popped to empty. */
  lemma {:induction false} BatchesFlatten<T>(xs: seq<T>)
    ensures Flatten(Batches(xs)) == Reverse(xs)
    decreases |xs|
  {
    if xs != [] {
      var k := if |xs| < 10 then |xs| else 10;
      var head, tail := xs[..|xs| - k], xs[|xs| - k..];
      assert xs == head + tail;
      ReverseAppend(head, tail);
      BatchesFlatten(head);
      var bs := Batches(xs);
      assert bs[0] == Reverse(tail) && bs[1..] == Batches(head);
    }
  }

  /** Every batch holds one to ten names, and only the last may hold fewer than ten. */
  lemma {:induction false} BatchSizes<T>(xs: seq<T>)
    ensures |Batches(xs)| == (|xs| + 9) / 10
    ensures forall j :: 0 <= j < |Batches(xs)| ==> 1 <= |Batches(xs)[j]| <= 10
    ensures forall j :: 0 <= j < |Batches(xs)| - 1 ==> |Batches(xs)[j]| == 10
    decreases |xs|
  {
    if xs != [] {
      var k := if |xs| < 10 then |xs| else 10;
      BatchSizes(xs[..|xs| - k]);
      var bs := Batches(xs);
      assert forall j :: 1 <= j < |bs| ==> bs[j] == Batches(xs[..|xs| - k])[j - 1];
    }
  }

  /** Each name goes to `git rm --cached` exactly as often as the list holds it. */
  lemma BatchesOnce<T>(xs: seq<T>, x: T)
    ensures multiset(Flatten(Batches(xs)))[x] == multiset(xs)[x]
  {
    BatchesFlatten(xs);
    ReverseMultiset(xs);
  }

  /**
   * A listing of the set `dirs` in any order: the batches hand each member of
   * the set to `git rm --cached` exactly once, and nothing else.
   */
  lemma BatchesOfSet<T>(xs: seq<T>, dirs: set<T>, x: T)
    requires multiset(xs) == multiset(dirs)
    ensures multiset(Flatten(Batches(xs))) == multiset(dirs)
    ensures multiset(Flatten(Batches(xs)))[x] == (if x in dirs then 1 else 0)
  {
    BatchesFlatten(xs);
    ReverseMultiset(xs);
  }

  lemma BatchesExample()
    ensures Batches([1, 2, 3]) == [[3, 2, 1]]
  {
    var xs := [1, 2, 3];
    assert xs[..0] == [];
    assert xs[0..] == xs;
    assert xs[..2] == [1, 2] && [1, 2][..1] == [1] && [1][..0] == [];
    assert Reverse([1]) == [1];
    assert Reverse([1, 2]) == [2, 1];
    assert Reverse(xs) == [3, 2, 1];
    assert Batches(xs) == [Reverse(xs[0..])] + Batches(xs[..0]);
  }
}
