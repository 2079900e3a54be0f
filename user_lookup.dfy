/**
 * The users file (`getUserLookup`): one `svn-user = Git Author <mail>` pair
 * per line, blank lines ignored, anything else an error.
 */
module UserLookup {
  import opened Wrappers
  import opened Text

  /** What one line of the users file contributes. */
  datatype UserLine = Blank | Entry(svnUser: string, gitUser: string) | Unparsable(line: string)

  /**
   * One line: stripped, split at `=`; exactly two parts make an entry of
   * the two parts stripped.
   */
  function ClassifyLine(raw: string): UserLine {
    var line := Strip(raw);
    if line == [] then Blank
    else
      var parts := SplitOn(line, '=');
      if |parts| == 2 then Entry(Strip(parts[0]), Strip(parts[1])) else Unparsable(line)
  }

  /**
   * A line is blank when only whitespace; an entry exactly when its stripped
   * text holds one `=`, the user being the text before it and the author
   * the text after it, each stripped; otherwise it is reported stripped.
   */
  lemma ClassifyLineSpec(raw: string)
    ensures ClassifyLine(raw).Blank? <==> forall k :: 0 <= k < |raw| ==> IsSpace(raw[k])
    ensures ClassifyLine(raw).Entry? <==> Strip(raw) != [] && CountChar(Strip(raw), '=') == 1
    ensures ClassifyLine(raw).Entry? ==>
      var line := Strip(raw);
      var i := IndexOf(line, '=');
      i < |line| && ClassifyLine(raw) == Entry(Strip(line[..i]), Strip(line[i + 1..]))
    ensures ClassifyLine(raw).Unparsable? ==> ClassifyLine(raw).line == Strip(raw)
  {
    StripEmptyIff(raw);
    var line := Strip(raw);
    SplitOnCount(line, '=');
    if line != [] && |SplitOn(line, '=')| == 2 {
      var i := IndexOf(line, '=');
      assert i < |line|;
      assert SplitOn(line, '=') == [line[..i]] + SplitOn(line[i + 1..], '=');
      assert SplitOn(line[i + 1..], '=') == [line[i + 1..]];
    }
  }

  /** `key = value` with no whitespace outside it is the entry of `key` and `value` stripped. */
  lemma ClassifyEntry(key: string, value: string)
    requires '=' !in key && '=' !in value
    requires key == [] || !IsSpace(key[0])
    requires value == [] || !IsSpace(value[|value| - 1])
    ensures ClassifyLine(key + "=" + value) == Entry(Strip(key), Strip(value))
  {
    var line := key + "=" + value;
    assert line[|key|] == '=';
    assert line[0] == if key == [] then '=' else key[0];
    assert line[|line| - 1] == if value == [] then '=' else value[|value| - 1];
    StripNoop(line);
    SplitOnPair(key, value, '=');
    var parts := SplitOn(line, '=');
    assert parts == [key, value];
    assert ClassifyLine(line) == Entry(Strip(parts[0]), Strip(parts[1]));
  }

  /** Each line of the file, classified. */
  function ClassifyAll(lines: seq<string>): (r: seq<UserLine>)
    ensures |r| == |lines|
    ensures forall k :: 0 <= k < |lines| ==> r[k] == ClassifyLine(lines[k])
  {
    seq(|lines|, k requires 0 <= k < |lines| => ClassifyLine(lines[k]))
  }

  /**
   * The table the classified lines build, read in order; the stripped
   * text of the first line that is neither blank nor an entry stops it.
   */
  function Table(entries: seq<UserLine>): Result<map<string, string>, string>
    decreases |entries|
  {
    if entries == [] then Ok(map[])
    else
      match Table(entries[..|entries| - 1])
      case Err(line) => Err(line)
      case Ok(m) =>
        match entries[|entries| - 1]
        case Blank => Ok(m)
        case Entry(svnUser, gitUser) => Ok(m[svnUser := gitUser])
        case Unparsable(line) => Err(line)
  }

  /** `getUserLookup(filename)` on the file's text. */
  function UsersOf(text: string): Result<map<string, string>, string> {
    Table(ClassifyAll(SplitOn(text, '\n')))
  }

  /**
   * `getUserLookup`: the loop over the file's lines. The error it would
   * raise (`RuntimeException`, a name Python does not define, so a
   * NameError in effect) is returned as the offending line.
   */
  method GetUserLookup(text: string) returns (r: Result<map<string, string>, string>)
    ensures r == UsersOf(text)
  {
    var lines := SplitOn(text, '\n');
    ghost var entries := ClassifyAll(lines);
    var userLookup: map<string, string> := map[];
    var i := 0;
    while i < |lines|
      invariant 0 <= i <= |lines|
      invariant Table(entries[..i]) == Ok(userLookup)
    {
      assert entries[..i + 1][..i] == entries[..i];
      var line := Strip(lines[i]);
      if line != [] {
        var tokens := SplitOn(line, '=');
        if |tokens| == 2 {
          userLookup := userLookup[Strip(tokens[0]) := Strip(tokens[1])];
        } else {
          assert Table(entries[..i + 1]) == Err(line);
          TableStops(entries, i + 1);
          return Err(line);
        }
      }
      i := i + 1;
    }
    assert entries[..i] == entries;
    return Ok(userLookup);
  }

  predicate Defines(entry: UserLine, svnUser: string) {
    entry.Entry? && entry.svnUser == svnUser
  }

  /** The table is built exactly when every line is blank or an entry. */
  lemma {:induction false} TableOkIff(entries: seq<UserLine>)
    ensures Table(entries).Ok? <==> forall k :: 0 <= k < |entries| ==> !entries[k].Unparsable?
    decreases |entries|
  {
    if entries != [] {
      var init := entries[..|entries| - 1];
      TableOkIff(init);
      assert forall k :: 0 <= k < |init| ==> init[k] == entries[k];
    }
  }

  /** The error names the first unparsable line. */
  lemma {:induction false} TableErrFirst(entries: seq<UserLine>)
    requires Table(entries).Err?
    ensures exists k ::
      0 <= k < |entries| && entries[k] == Unparsable(Table(entries).error) &&
      (forall k' :: 0 <= k' < k ==> !entries[k'].Unparsable?)
    decreases |entries|
  {
    var init := entries[..|entries| - 1];
    if Table(init).Err? {
      TableErrFirst(init);
      var k :| 0 <= k < |init| && init[k] == Unparsable(Table(init).error) &&
        forall k' :: 0 <= k' < k ==> !init[k'].Unparsable?;
      assert init[k] == entries[k];
      assert forall k' :: 0 <= k' < k ==> init[k'] == entries[k'];
    } else {
      TableOkIff(init);
      assert forall k' :: 0 <= k' < |init| ==> init[k'] == entries[k'];
    }
  }

  /** Once a prefix fails, the whole table fails the same way. */
  lemma {:induction false} TableStops(entries: seq<UserLine>, i: nat)
    requires i <= |entries| && Table(entries[..i]).Err?
    ensures Table(entries) == Table(entries[..i])
    decreases |entries| - i
  {
    if i < |entries| {
      assert entries[..i + 1][..i] == entries[..i];
      TableStops(entries, i + 1);
    } else {
      assert entries[..i] == entries;
    }
  }

  /** Every user the table knows was named by some line, and every named user is known. */
  lemma {:induction false} TableKeys(entries: seq<UserLine>, svnUser: string)
    requires Table(entries).Ok?
    ensures svnUser in Table(entries).value <==> exists k :: 0 <= k < |entries| && Defines(entries[k], svnUser)
    decreases |entries|
  {
    if entries != [] {
      var init := entries[..|entries| - 1];
      TableKeys(init, svnUser);
      assert forall k :: 0 <= k < |init| ==> init[k] == entries[k];
    }
  }

  /** A user named on several lines maps to the author of the last of them. */
  lemma {:induction false} TableLastWins(entries: seq<UserLine>, k: nat, svnUser: string)
    requires Table(entries).Ok?
    requires k < |entries| && Defines(entries[k], svnUser)
    requires forall k' :: k < k' < |entries| ==> !Defines(entries[k'], svnUser)
    ensures svnUser in Table(entries).value
    ensures Table(entries).value[svnUser] == entries[k].gitUser
    decreases |entries|
  {
    var init := entries[..|entries| - 1];
    if k < |init| {
      assert init[k] == entries[k];
      assert forall k' :: k < k' < |init| ==> init[k'] == entries[k'];
      TableLastWins(init, k, svnUser);
    }
  }
}
