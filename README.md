# svn-to-git converter, modelled in Dafny

`convert_to_git.py` replays a Subversion project into a git repository one
revision at a time:

- It checks out or switches the project root to the revision.
- It reconciles every `svn:externals` definition, recursively: directory
  externs are checked out or switched, file externs are exported, and
  broken externs are removed. URLs on a remote mirror are rewritten to the
  main repository.
- It stages the tree with `git add`, and unstages every `.svn` directory
  ten names at a time.
- It commits under the author mapped from a `user = Name <mail>` table,
  with the log message of the `svn log` entry.
- It records the revision in `.git/info/progress`, so an interrupted run
  can resume.

`convert-to-git.py` is the older version of the same loop. It has no ignore
list, no timeout and no retries. It clears all the externals of the previous
revision whenever the property changed, and it never looks at what git
reports.

The Dafny model follows both scripts function by function.

| file | what it holds |
|---|---|
| `text.dfy` | Python's `strip`, `split()`, `split(c)`, `splitlines`, `find`, `replace`, `int()` and `%d`, as used by the scripts |
| `svn_output.dfy` | the scanners of `svn info` and `svn log -v` output |
| `user_lookup.dfy` | `getUserLookup` |
| `log_entry.dfy` | `parseLogEntry` and its header regex |
| `externals.dfy` | `getExternals` |
| `svn_dirs.dfy` | the `.svn` paths gathered from `git ls-files -i` and their batching |
| `working_tree.dfy` | the working copy, a class whose methods change it in place and log each call |
| `reconciler.dfy` | `removeExternal` and `updateExternalsTo` |
| `replay.dfy` | `didExternalsChange`, `updateProjectRootTo`, the staging and commit, and the main loop |
| `legacy_*.dfy` | the same three layers for `convert-to-git.py` |

Nothing outside the scripts is part of the model: the `svn` and `git`
commands, how long they run, and what they print are all inputs.

- Each command is an input function from its arguments to a `CmdResult`.
  That is `Completed(stdout)`, or `Failed(stdout, stderr)` for a non-zero
  exit, i.e. the `CalledProcessError` that `readcall` raises.
- `svn diff` under its ten-second alarm is `Timed`: `Finished(result)` or
  `TimedOut`.
- The filesystem is a map from relative paths to files and directories.
  A directory may carry the binding its `.svn` records.
- Every call that changes the working copy or git, every write of the
  progress file, and the `git ls-files` listing of ignored files (as
  `GitListIgnored`) are appended in order to a log of `Action`s. The `svn`
  queries (`svn info`, `svn propget`, `svn log`, `svn diff`) and `os.chdir`
  are not logged: the queries' outcomes are inputs, and the current
  directory is a field of the state.

Each imperative routine is a `method` on `WorkingTree.WorkingCopy`. It is
proved equal to a function of the old state: its `ensures` states the new
tree, the new current directory, the new log and the error. The properties
are then proved about those functions.

## Model

| member | source | states |
|---|---|---|
| Text.ContainsIff | convert_to_git.py:264 | `find(p) != -1` holds exactly when `p` occurs at some index |
| Text.ContainsWithin | convert_to_git.py:379 | an occurrence inside a part of a string is an occurrence in the whole |
| Text.NotContainsChar | convert_to_git.py:409 | a pattern whose first character is absent is not found |
| Text.StripIsInfix | convert_to_git.py:80 | `strip()` removes exactly a whitespace prefix and a whitespace suffix and nothing else |
| Text.StripNoop | convert_to_git.py:84 | a string without surrounding whitespace is its own strip |
| Text.StripEmptyIff | convert_to_git.py:80-81 | the stripped line is empty exactly when the line is all whitespace |
| Text.Tokens | convert_to_git.py:282 | every token of `split()` is non-empty and free of whitespace |
| Text.TokensJoin | convert_to_git.py:282 | `" ".join` of non-empty whitespace-free words splits back into the same words |
| Text.TokensSkipSpace | convert_to_git.py:282 | leading whitespace does not change `split()` |
| Text.TokensWord | convert_to_git.py:282 | a word followed by the end or by whitespace becomes one token |
| Text.SplitOn | convert_to_git.py:82 | `split('=')` yields at least one part, and no part holds the separator |
| Text.SplitOnCount | convert_to_git.py:82-83 | `split(c)` has one more part than the string has separators |
| Text.JoinSplitOn | convert_to_git.py:82 | joining the parts of `split(c)` with `c` gives the string back |
| Text.SplitOnPair | convert_to_git.py:82-84 | two separator-free parts around one separator split back into those two parts |
| Text.SplitLines | convert_to_git.py:172 | `splitlines()` yields lines without line breaks |
| Text.SplitLinesJoin | convert_to_git.py:172 | `"\n".join(lines).splitlines() == lines` for break-free lines whose last line is not empty |
| Text.SplitLinesCons | convert_to_git.py:172 | a break-free line followed by `\n` is split off as the first line |
| Text.ReplaceAbsent | convert_to_git.py:334 | `replace` of an absent pattern leaves the string unchanged |
| Text.ReplacePrefix | convert_to_git.py:291 | a pattern that leads the string and occurs nowhere else becomes the substitute |
| Text.ReplaceSelf | convert_to_git.py:334 | replacing a pattern by itself changes nothing |
| Text.NatToString | convert_to_git.py:615 | `%d` of a natural number is a non-empty string of decimal digits |
| Text.ParseIntNatToString | convert_to_git.py:555 | `int("%d" % n) == n` |
| Text.ParseIntIntToString | convert_to_git.py:555 | `int("%d" % i) == i` for negative `i` too |
| Text.ParseIntRejectsSpaceOnly | convert_to_git.py:555 | an empty or whitespace-only text is not a number |
| Text.ParseIntSpaceAfterSign | convert_to_git.py:555 | as in Python 2, whitespace between the sign and the digits is skipped: a sign, any whitespace, then digits worth `v` read as `-v` or `v` |
| Text.ParseIntSpacedExample | convert_to_git.py:555 | `int("- 5") == -5` |
| Text.ParseIntSpacedPlusExample | convert_to_git.py:555 | `int("+ 7") == 7` |
| SvnOutput.FirstField | convert_to_git.py:214-221 | no field exactly when no line carries the prefix; otherwise the rest of the first line that does |
| SvnOutput.RevisionIn | convert_to_git.py:214-221 | the revision is `int` of the first `Revision: ` field; a missing field or a non-number is an error |
| SvnOutput.UrlIn | convert_to_git.py:223-230 | the URL is the first `URL: ` field, or an error when there is none |
| SvnOutput.NodeKindIn | convert_to_git.py:248-255 | the node kind is the first `Node Kind: ` field, or an error when there is none |
| SvnOutput.DeletedItem | convert_to_git.py:262-263 | a line yields an item exactly when it is blanks followed by `D` |
| SvnOutput.PathDeleted | convert_to_git.py:257-266 | the path is deleted exactly when some `D` line names a text found in the URL |
| SvnOutput.FieldAt | convert_to_git.py:216-221 | the first line carrying the prefix gives the field |
| SvnOutput.FieldInText | convert_to_git.py:214-221 | output whose first matching line is `prefix + value` yields `value` |
| SvnOutput.DeletedPathLine | convert_to_git.py:257-266 | a line `   D /trunk/lib` marks every URL that ends in `/trunk/lib` deleted |
| SvnOutput.BareDeleteMarksEverything | convert_to_git.py:262-264 | a `D` line with only whitespace after it marks every path deleted |
| UserLookup.ClassifyLineSpec | convert_to_git.py:79-86 | a line is blank when it is all whitespace; it is an entry exactly when its stripped text holds one `=`, with both sides stripped |
| UserLookup.ClassifyEntry | convert_to_git.py:82-84 | `key = value` is the entry for `key` and `value` |
| UserLookup.GetUserLookup | convert_to_git.py:76-87 | the loop computes `UsersOf`: the table of the file's entries, or the first unparsable line |
| UserLookup.TableOkIff | convert_to_git.py:78-87 | the table is built exactly when every line is blank or an entry |
| UserLookup.TableErrFirst | convert_to_git.py:85-86 | the error names the first unparsable line |
| UserLookup.TableStops | convert_to_git.py:85-86 | once a prefix of the file fails, the whole file fails in the same way |
| UserLookup.TableKeys | convert_to_git.py:84 | the table knows exactly the users that some entry names |
| UserLookup.TableLastWins | convert_to_git.py:84 | a user named on several lines maps to the author on the last of them |
| LogEntry.DigitRun | convert_to_git.py:181 | the digit run after `r` is all digits and is followed by a non-digit or the end |
| LogEntry.LastDateEnd | convert_to_git.py:181 | the largest end of group 3 below a bound, or none |
| LogEntry.DateEnd | convert_to_git.py:181 | greedy group 3 ends at the last place where ` (…)…` can follow |
| LogEntry.LastUserEnd | convert_to_git.py:181 | the largest end of group 2 below a bound, or none |
| LogEntry.UserAndDateMatches | convert_to_git.py:181-185 | groups 2 and 3 are the backtracking matcher's choice: longest group 2, then longest group 3; none when nothing matches |
| LogEntry.DigitRunUnique | convert_to_git.py:181 | a digit run is fixed by where the digits stop |
| LogEntry.HeaderDigitsForced | convert_to_git.py:181-183 | in any match, group 1 is all the digits after `r` |
| LogEntry.ParseHeaderNone | convert_to_git.py:181-182 | the header fails to parse exactly when the pattern matches nowhere |
| LogEntry.ParseHeaderSome | convert_to_git.py:181-185 | a parsed header holds the groups of the greedy match, with group 1 read as a number |
| LogEntry.HeaderRoundTrip | convert_to_git.py:181-185 | the header `svn log` writes for revision `n` parses back to `n`, the user and the date |
| LogEntry.DropTrailing | convert_to_git.py:175-176 | what is left is a prefix that does not end in a divider; only dividers were dropped |
| LogEntry.DropLeading | convert_to_git.py:177-178 | what is left is a suffix that does not start with a divider; only dividers were dropped |
| LogEntry.ContentNoneIff | convert_to_git.py:175-180 | only an entry made of dividers alone has no content |
| LogEntry.ContentOf | convert_to_git.py:175-178 | the content is whatever lies between the surrounding dividers |
| LogEntry.StripDividers | convert_to_git.py:175-178 | the two `del` loops leave the entry's content |
| LogEntry.ParseLogEntry | convert_to_git.py:171-192 | the method computes `ParseEntry`: split the text into lines, strip the dividers, parse the header, look up the author |
| LogEntry.EntryOfContent | convert_to_git.py:180-192 | a malformed header and an unknown author are errors; otherwise the revision with the lines after the header joined as its log |
| LogEntry.ParseEntryRoundTrip | convert_to_git.py:171-190 | an entry as `svn log` prints it parses to its number, mapped author, date and log, whatever dividers surround it |
| LogEntry.ParseEntryUnknownAuthor | convert_to_git.py:187-188 | an author missing from the table is reported together with the header line |
| LogEntry.ParseEntryEmpty | convert_to_git.py:172-180 | text made only of dividers is rejected as empty |
| LogEntry.ParseEntryMalformed | convert_to_git.py:190-192 | a first content line the pattern does not match is reported as not a valid log |
| LogEntry.ParseEntryExample | convert_to_git.py:171-190 | a one-line commit parses with the empty line after the header kept in its log |
| Externals.PegSplit | convert_to_git.py:307-310 | the greedy `^(.+)@(.+)` splits a URL token at its last `@` that has text on both sides |
| Externals.Step | convert_to_git.py:303-328 | one pass of the token loop consumes one token, or two for `-r N` |
| Externals.ClassifyTokens | convert_to_git.py:301-328 | the popping loop computes `Classify`, the token loop as a function |
| Externals.MirrorUrl | convert_to_git.py:333-334 | the loop replaces each remote mirror by `rootrepo`, in order |
| Externals.ReadLine | convert_to_git.py:282-328 | one line: tokenise it, take a header's parent, classify the rest |
| Externals.GetExternals | convert_to_git.py:275-372 | the scan computes `ExternalsOf`: the externs found and the exception that ended it, if any |
| Externals.PathMeaningOf | convert_to_git.py:325-328 | a token that is neither a URL nor a `-r` form is the local path |
| Externals.StepAppend | convert_to_git.py:303-328 | extra tokens do not change a pass; they are left over |
| Externals.ClassifyAppend | convert_to_git.py:303-328 | classifying more tokens continues from where the first ones left off |
| Externals.RevFlagFacts | convert_to_git.py:315-318 | `-rN` is an operative-revision token that carries `N` |
| Externals.PegUrlFacts | convert_to_git.py:306-313 | `URL@PEG` splits at the `@` before the digits, whatever `@`s the URL itself holds |
| Externals.UrlStep | convert_to_git.py:306-313 | a pass over `URL@PEG` sets the URL and the peg revision |
| Externals.RevStep | convert_to_git.py:315-318 | a pass over `-rN` sets the operative revision |
| Externals.PathStep | convert_to_git.py:325-328 | a pass over a path token sets the local path under the current parent |
| Externals.LastPathWins | convert_to_git.py:325-328 | a later local path overwrites an earlier one |
| Externals.LastRevWins | convert_to_git.py:315-323 | a later `-rN` overwrites an earlier operative revision |
| Externals.SplitRevFlag | convert_to_git.py:320-323 | `-r` followed by `N` as a separate token does the same as `-rN` |
| Externals.LastUrlWins | convert_to_git.py:306-313 | a later `URL@PEG` overwrites both the URL and the peg |
| Externals.DanglingRevFlag | convert_to_git.py:320-321 | a final `-r` with nothing after it raises |
| Externals.AnyOrder | convert_to_git.py:303-328 | URL, revision and path tokens may come in any order with the same result |
| Externals.ClassifyUnder | convert_to_git.py:325-328 | every local path the token loop sets lies under the current parent |
| Externals.ClassifyTokensExample | convert_to_git.py:301-328 | a worked token list, popped from the front |
| Externals.MirrorPrefix | convert_to_git.py:333-334 | a URL under a listed mirror comes out under `rootrepo` |
| Externals.MirrorNoMatch | convert_to_git.py:333-334 | a URL that contains none of the mirrors is left alone |
| Externals.ExplicitRevisions | convert_to_git.py:338-343 | case of the defaults: with both revisions given, the top-level revision plays no part |
| Externals.DefaultRevisions | convert_to_git.py:338-343 | case of the defaults: with neither given, both revisions are the top-level one |
| Externals.PegOnly | convert_to_git.py:338-343 | case of the defaults: with only `@PEG` given, the operative revision follows the peg |
| Externals.ResolveFails | convert_to_git.py:330 | resolution fails exactly when the URL or the path is missing |
| Externals.LookupOutcomes | convert_to_git.py:346-355 | the node-kind lookup gives a directory, a broken extern for "non-existent in revision", or an error |
| Externals.LookupKindLine | convert_to_git.py:248-255 | the first `Node Kind: ` line decides whether the extern is a directory |
| Externals.UrlHeaderRelative | convert_to_git.py:288-292 | a URL-form header loses the working copy's URL and one `/` |
| Externals.PlainHeaderParent | convert_to_git.py:286-295 | a header whose first token has no `://` names the parent as written |
| Externals.BareHeader | convert_to_git.py:286-297 | `dir -` alone on a line sets the parent and defines nothing |
| Externals.SingleTokenStops | convert_to_git.py:286 | a line of one token raises |
| Externals.ParseLineParent | convert_to_git.py:282-328 | after a line, the parent is the header's if the line is one and unchanged otherwise, and any path lies under it |
| Externals.HeaderResetsParent | convert_to_git.py:286-295 | the parent before a header has no bearing on what follows |
| Externals.ExternPerDefinition | convert_to_git.py:280-372 | a scan that raises nothing yields exactly one extern per line that carries a definition, in the lines' order, each with that definition's path and its URL after the mirror rewrite (`Externals.Definitions` lists the definitions, threading the parent) |
| Externals.ParentPersists | convert_to_git.py:280-328 | until the next header, every extern lies under the current parent |
| Externals.HeaderWithDefinition | convert_to_git.py:286-328 | a definition after `-` on a header line lies under the new parent |
| Externals.PlainDefinition | convert_to_git.py:282-328 | a definition line keeps the parent |
| Externals.VendorExample | convert_to_git.py:275-362 | `vendor - -r5 http://svn/lib@10 libfoo` yields `vendor/libfoo` at revision 5, peg 10 |
| Externals.TopLevelExample | convert_to_git.py:275-362 | `http://svn/lib@10 libfoo` before any header, at top-level revision 7, yields `libfoo` at revision 10, peg 10 |
| SvnDirs.LastSvnEnd | convert_to_git.py:600 | the last place below a bound where `.svn/` ends, or none |
| SvnDirs.CollectSvnDirs | convert_to_git.py:597-603 | the loop over `git ls-files -i` gathers `SvnDirsOf` of its lines |
| SvnDirs.SvnDirGreedy | convert_to_git.py:600-602 | the group is the longest prefix that ends in `.svn` before a `/`; there is none only when no such prefix exists |
| SvnDirs.SvnDirExample | convert_to_git.py:600-602 | nested `.svn` paths: the longest prefix, up to the last `.svn/`, is taken |
| SvnDirs.SvnDirAbsent | convert_to_git.py:600 | a line without `/` contributes nothing |
| SvnDirs.SvnDirsOfIff | convert_to_git.py:598-603 | the set holds exactly the groups of the lines that match |
| SvnDirs.BatchesFlatten | convert_to_git.py:604-611 | the batches, read one after another, are the list popped until empty |
| SvnDirs.BatchSizes | convert_to_git.py:604-611 | every batch holds one to ten names, and only the last may hold fewer than ten |
| SvnDirs.BatchesOnce | convert_to_git.py:604-611 | each name goes to `git rm --cached` exactly as often as the list holds it |
| SvnDirs.BatchesOfSet | convert_to_git.py:603-611 | for any listing of a set, each member is unstaged exactly once and nothing else is |
| SvnDirs.BatchesExample | convert_to_git.py:604-611 | `[1, 2, 3]` is popped into the single batch `[3, 2, 1]` |
| WorkingTree.RmTree | convert_to_git.py:388 | `rmtree` removes the path and everything below it, and nothing else |
| WorkingTree.MakeDirsIn | convert_to_git.py:401 | `makedirs` creates the missing ancestors as empty directories and keeps every existing entry |
| WorkingTree.WipeRoot | convert_to_git.py:446-449 | after `rm -fr` of every item not kept, the root remains a directory and exactly the kept items remain, unchanged |
| WorkingTree.WorkingCopy.RemoveTreeAt | convert_to_git.py:388 | the tree loses the path and what lies below it, and the call is logged |
| WorkingTree.WorkingCopy.RemoveFileAt | convert_to_git.py:390 | the tree loses the file, and the call is logged |
| WorkingTree.WorkingCopy.MakeDirsAt | convert_to_git.py:401 | the ancestors are created, and the call is logged |
| WorkingTree.WorkingCopy.Chdir | convert_to_git.py:422 | only the current directory changes |
| WorkingTree.WorkingCopy.BindAt | convert_to_git.py:403-420 | a successful checkout or switch binds the directory, and is logged |
| WorkingTree.WorkingCopy.PlaceFileAt | convert_to_git.py:437 | a successful export places a file where nothing was, and is logged |
| WorkingTree.WorkingCopy.WipeAt | convert_to_git.py:446-449 | the root is wiped except the kept items, and the wipe is logged |
| WorkingTree.DirnameJoin | convert_to_git.py:433 | `dirname(join(d, name))` is `d` for a plain name |
| WorkingTree.DirnamePlain | convert_to_git.py:433-434 | a name without `/` has no directory part, so nothing is created |
| WorkingTree.MakeDirsCreatesAncestors | convert_to_git.py:400-401 | case of the definition: after `makedirs(p)`, every ancestor of `p` exists |
| WorkingTree.RmTreeAbsorbs | convert_to_git.py:388 | removing a tree and then something below it is the same as the first removal alone |
| WorkingTree.WipeKeepsOnlyGit | convert_to_git.py:446-449 | case of the definition: a wipe that keeps `.git` leaves nothing outside `.git` and no binding at the root |
| Reconciler.SwitchExtern | convert_to_git.py:416-420 | a switch keeps the current directory and only appends to the log |
| Reconciler.Attach | convert_to_git.py:399-420 | a directory extern, up to the recursion, keeps the current directory and only appends to the log |
| Reconciler.ExportFile | convert_to_git.py:426-440 | a file extern keeps the current directory and only appends to the log |
| Reconciler.UpdateExternals | convert_to_git.py:392-424 | the update only appends to the log, and on success ends in the directory it started in |
| Reconciler.ProcessAll | convert_to_git.py:395-424 | the loop only appends to the log, and on success ends in `home` |
| Reconciler.ProcessOne | convert_to_git.py:396-440 | one extern only appends to the log, and on success ends in `home` |
| Reconciler.RemoveExternalAt | convert_to_git.py:385-390 | the method computes `RemoveExternal`: a tree delete, a file delete, or nothing when the path is absent |
| Reconciler.UpdateExternalsTo | convert_to_git.py:392-424 | the method computes `UpdateExternals` from the old state: new tree, directory, log and error |
| Reconciler.ProcessExternal | convert_to_git.py:396-440 | the loop body computes `ProcessOne` from the old state |
| Reconciler.AttachExtern | convert_to_git.py:399-420 | the method computes `Attach` from the old state |
| Reconciler.ExportFileAt | convert_to_git.py:426-440 | the method computes `ExportFile` from the old state |
| Reconciler.ScanFailureSurfaces | convert_to_git.py:363-372 | an exception that `getExternals` raises is never swallowed |
| Reconciler.BrokenOnlyRemoves | convert_to_git.py:396-397 | a broken extern is only removed: no error, same directory, at most one logged removal (none when the path is absent) |
| Reconciler.BrokenDirectoryGone | convert_to_git.py:385-390 | removing a broken directory extern takes everything below it too |
| Reconciler.AttachActions | convert_to_git.py:399-420 | a missing directory is created; checkout without `.svn`; switch with one, or after a URL conflict |
| Reconciler.AttachResult | convert_to_git.py:403-420 | a directory extern fails exactly when its checkout or switch does; otherwise it is bound to its URL |
| Reconciler.FileActions | convert_to_git.py:426-437 | a file extern logs only file removals, directory creation and a final export |
| Reconciler.FileResult | convert_to_git.py:426-440 | a file extern fails exactly when its export does; afterwards its path and its directory exist |
| Reconciler.ProcessOneBranches | convert_to_git.py:396-426 | broken, directory and file externs each go to their own branch |
| Reconciler.NoFinally | convert_to_git.py:422-424 | when the recursion into a directory extern fails, the current directory stays inside it |
| Replay.GetRevision | convert_to_git.py:194-207 | the method computes `RevisionOf`: a failed `svn log` or `parseLogEntry` error becomes the conversion's error |
| Replay.RootUpdate | convert_to_git.py:451-471 | the root update starts with a switch or checkout to `n`, and logs only root commands to `n` and wipes |
| Replay.UpdateProjectRootTo | convert_to_git.py:451-471 | the method computes `RootUpdate` from the old state |
| Replay.RemoveCachedSvnDirs | convert_to_git.py:604-611 | the nested `while` loops compute `Unstage` of the batches |
| Replay.StageAndCommit | convert_to_git.py:592-625 | the method computes `Stage` from the old state; what `Stage` logs and unstages is stated by Replay.StageSucceeds and Replay.StagedBatchesOnce |
| Replay.StagedBatchesOnce | convert_to_git.py:597-611 | when the set is listed with each member once, every `.svn` directory `git ls-files -i` names is unstaged exactly once, nothing else is, and each command takes one to ten names |
| Replay.StageSucceeds | convert_to_git.py:592-625 | when the `git add`s, `git ls-files` and every `git rm` succeed, staging logs exactly those calls, one `git rm` per batch in order, then the commit, leaves the tree alone, and ends as the commit does |
| Replay.ReplayRevision | convert_to_git.py:572-630 | one loop iteration computes `ReplayOne` from the old state |
| Replay.ReplayFromStep | convert_to_git.py:572 | each revision of the range either stops the run or hands its state to the next |
| Replay.Convert | convert_to_git.py:551-630 | the whole run computes `Conversion`: the range, the initial wipe, every revision in turn |
| Replay.PropertyLineWipes | convert_to_git.py:374-383 | a `Modified:` or `Added:` line for the property anywhere in the diff counts as a change |
| Replay.NoPropertyLineKeeps | convert_to_git.py:379-383 | a diff with no colon at all changes no externals |
| Replay.RootSuccessBinds | convert_to_git.py:451-460 | a root update that is neither ignored nor failed leaves the root bound to `repo` at `n` |
| Replay.RetryBinds | convert_to_git.py:465-468 | a failed attempt reaches a bound root only through a tree-conflict retry |
| Replay.RetryLog | convert_to_git.py:465-468 | a retry keeps the attempt and the wipe at the head of what it logs |
| Replay.RootKeepsGit | convert_to_git.py:446-471 | nothing under `.git` is touched by the root update, wipes included |
| Replay.ConflictRetriesCheckout | convert_to_git.py:465-468 | after a tree conflict the retry is a checkout, because the wipe took the root's `.svn` |
| Replay.PersistentConflict | convert_to_git.py:465-468 | a conflict that never clears makes the script wipe and retry without end |
| Replay.RootFailurePropagates | convert_to_git.py:469-470 | any other failure of the first attempt propagates |
| Replay.UnstageAllSucceed | convert_to_git.py:604-611 | when every `git rm --cached` succeeds, one command per batch is logged, in order, and nothing else changes |
| Replay.UnstageStops | convert_to_git.py:609-611 | the first failing batch stops the loop right after its command |
| Replay.CommitErrorIff | convert_to_git.py:617-625 | a failed commit that reports nothing to commit is not an error; any other failure is |
| Replay.NothingToCommit | convert_to_git.py:621-623 | "nothing to commit" anywhere in the output spares the run |
| Replay.CommitMessageNumber | convert_to_git.py:614-615 | for a given log and repository, the message determines the revision number |
| Replay.CommitMessageExample | convert_to_git.py:614-615 | the message keeps the whole log, the blank line after the header included, before the trailer |
| Replay.IgnoredRevision | convert_to_git.py:585-630 | an ignored revision gets no externals and no commit, only its progress record |
| Replay.ProgressWritten | convert_to_git.py:629-630 | every revision replayed without error ends with its number written to the progress file |
| Replay.ChangeWipesFirst | convert_to_git.py:581-585 | a changed externals property wipes the tree first, so the root is then checked out afresh |
| Replay.ReplayedStartsAtRoot | convert_to_git.py:458-460 | with no `.svn` at the root, the first call after the prior log is a root checkout |
| Replay.ReplayedLogGrows | convert_to_git.py:585-630 | everything after the root update keeps the root update's log |
| Replay.ResumeFromProgress | convert_to_git.py:551-558 | resuming starts at the revision the progress file names, which is replayed again |
| Replay.BadProgressStops | convert_to_git.py:555 | a progress file `int()` rejects stops the conversion before anything is touched |
| Replay.ReplayFromProgress | convert_to_git.py:572-630 | after a complete run the progress file names the last revision of the range |
| LegacyExternals.GetExternals | convert-to-git.py:132-177 | the scan computes `ExternalsOf` for the older getExternals |
| LegacyExternals.HttpSchemes | convert-to-git.py:153-163 | `http://` and `https://` both count as URLs |
| LegacyExternals.OtherSchemesRejected | convert-to-git.py:153-163 | case of the definition: `svn://` and `file://` definitions have no URL in the older script |
| LegacyExternals.OddLinesRaise | convert-to-git.py:139-177 | case of the definition: a line of one, three, five or more tokens raises |
| LegacyExternals.BlankLineIgnored | convert-to-git.py:139 | case of the definition: a blank line changes nothing |
| LegacyExternals.DefinitionOrder | convert-to-git.py:153-163 | case of the definition: the URL may come first or second, the other token is the local name, and neither being a URL raises |
| LegacyExternals.RemovedDefinitionSkipped | convert-to-git.py:152 | case of the definition: a definition whose second token is `-` is skipped |
| LegacyExternals.NoHeaderYet | convert-to-git.py:140-163 | case of the definition: before any header there is no parent, and a definition raises |
| LegacyExternals.HeaderLine | convert-to-git.py:140-163 | case of the definition: a four-token header sets the parent and defines from its last two tokens |
| LegacyExternals.NonHeaderKeepsParent | convert-to-git.py:139-163 | case of the definition: a two-token line, or a four-token line that is not a header, keeps the parent |
| LegacyExternals.UrlHeaderDir | convert-to-git.py:142-147 | a URL header drops the working copy's URL and the `/` after it |
| LegacyExternals.UrlHeaderEmpty | convert-to-git.py:142-147 | a header equal to the working copy's URL leaves nothing, and indexing it raises |
| LegacyExternals.KindDecidesDirectory | convert-to-git.py:169-173 | case of the definition: the node kind decides `isdirectory`; no `Node Kind:` line means not a directory |
| LegacyExternals.ParentPersists | convert-to-git.py:140-163 | once a header sets the parent `p`, every extern yielded up to the next four-token `X -` header has a path that starts with `p/` |
| LegacyExternals.NonHeaderUnder | convert-to-git.py:140-163 | a line that is not a header and parses keeps the parent `p`, and the child it defines starts with `p/` |
| LegacyExternals.ScanFailsAsRest | convert-to-git.py:140-163 | while the lines parse, keep the parent and their lookups succeed, the scan fails exactly as the rest of it does |
| LegacyReconciler.LastIndex | convert-to-git.py:205 | the position of the last `@` below a bound, or none |
| LegacyReconciler.ClearExternalAt | convert-to-git.py:192-196 | one removal of the clearing loop computes `ClearOne`, and leaves the state unchanged when it raises |
| LegacyReconciler.ClearPrevious | convert-to-git.py:190-196 | the clearing block computes `Cleared` from the old state |
| LegacyReconciler.UpdateExternalsTo | convert-to-git.py:186-227 | the method computes the older `UpdateExternals` from the old state |
| LegacyReconciler.ProcessExternal | convert-to-git.py:199-227 | the loop body computes the older `ProcessOne` from the old state |
| LegacyReconciler.ClearAllShrinks | convert-to-git.py:192-196 | clearing only removes: same directory, nothing added, the rest unchanged |
| LegacyReconciler.ModifiedTriggersClearing | convert-to-git.py:179-184 | a diff that shows the property modified triggers the clearing |
| LegacyReconciler.AddedDoesNotTrigger | convert-to-git.py:179-184 | a diff that only adds the property does not |
| LegacyReconciler.ClearAllGone | convert-to-git.py:192-196 | after a clearing that succeeds, no extern of the previous revision is left on disk |
| LegacyReconciler.ClearAllFailure | convert-to-git.py:192-196 | a failed clearing names one of the externs, and stopped at the first removal it could not make |
| LegacyReconciler.ClearOneFails | convert-to-git.py:193-196 | `rmtree` or `os.remove` raises exactly when the path is not on disk as the extern's kind (absent, or a file for a directory extern, or a directory for a file extern) |
| LegacyReconciler.MissingPreviousExternStops | convert-to-git.py:192-196 | an extern of the previous revision that is absent or on disk as the other kind stops the clearing at once, with nothing removed |
| LegacyReconciler.PinnedSplit | convert-to-git.py:203-209 | a trailing `@N` pins the extern to `N`; the URL before it may itself contain `@` |
| LegacyReconciler.UnpinnedFollowsRevision | convert-to-git.py:202-205 | without `@` the extern follows the top-level revision |
| LegacyReconciler.UserInfoRaises | convert-to-git.py:205-208 | a URL with a user name and no pinned revision makes `int()` raise |
| LegacyReconciler.AttachOutcome | convert-to-git.py:211-222 | created when absent, switched with a `.svn`, checked out otherwise; bound on success, an error on failure |
| LegacyReconciler.ExportOutcome | convert-to-git.py:223-227 | a directory at the path makes `os.remove` raise; a file is removed; a successful export leaves a file |
| LegacyReconciler.UpdateLogGrows | convert-to-git.py:186-227 | every step only appends to the log |
| LegacyReconciler.UpdateRestoresCwd | convert-to-git.py:187-222 | an update that succeeds ends in the directory it started in |
| LegacyReconciler.ClearScanFailure | convert-to-git.py:190-196 | an exception of the previous revision's scan comes only after every extern it yielded is removed |
| LegacyReplay.UpdateRoot | convert-to-git.py:294-305 | the method computes the older root update from the old state |
| LegacyReplay.ReplayRevision | convert-to-git.py:289-315 | one loop iteration computes the older `ReplayOne` |
| LegacyReplay.CommitRevision | convert-to-git.py:307-315 | staging, the commit and the progress file are logged unconditionally |
| LegacyReplay.ReplayFromStep | convert-to-git.py:289 | each revision either stops the run or hands its state to the next |
| LegacyReplay.ReplayRange | convert-to-git.py:289-315 | the loop over the range computes `ReplayFrom` |
| LegacyReplay.Convert | convert-to-git.py:256-315 | the whole run computes the older `Conversion`: the range, then every revision, with no initial wipe |
| LegacyReplay.RootCommandFirst | convert-to-git.py:294-297 | the root is switched when it has a `.svn` and checked out otherwise, and that is the revision's first call |
| LegacyReplay.DeletedPathTolerated | convert-to-git.py:298-301 | a failed root update is tolerated when the log shows the path deleted: everything except `.git` and `.svn` is wiped |
| LegacyReplay.UndeletedFailureRaises | convert-to-git.py:302-303 | any other failed root update ends the conversion |
| LegacyReplay.WipeKeepsRootBinding | convert-to-git.py:233-236 | the wipe keeps the root's own `.svn`, so the root stays bound to what it was |
| LegacyReplay.EveryRevisionCommitted | convert-to-git.py:307-315 | every revision that does not raise is committed under its message, then recorded as progress |
| LegacyReplay.LegacyMessageFacts | convert-to-git.py:309-310 | the message starts with the log and tells revisions apart |
| LegacyReplay.ReplayOneLogGrows | convert-to-git.py:289-315 | the loop only appends to the log |
| LegacyReplay.ReplayFromProgress | convert-to-git.py:314-315 | after a complete run the progress file names the last revision of the range |

## Left out

- The `svn` and `git` commands, their running time and their output are inputs to the model (`Tools`, `Svn`, `LegacyTools`). `call` and `readcall` are not modelled beyond turning a non-zero exit into a failure.
- The `SIGALRM` ten-second timeout of `svn diff` is the `Timed` input: `TimedOut` counts as a change, as the script's `except` does.
- `parseOptions`, the ancestry-listing mode, `git init`, the `.git/info/exclude` setup, `filter-branch` and `create_libraries.py` are outside the replay loop and are left out.
- Every `print` and the stdout and stderr echoing are left out. So is the check that a switch's output starts with `At revision`, because it only prints.
- The writes and removal of the commit-message file are left out; the message appears as an argument of the logged commit.
- `rm -fr %s` with an unquoted item name is modelled as removing that item; shell word-splitting of names with spaces is not modelled.
- `list(svndirs)` lists a set in an order Python leaves open; the model takes that order as the input `order`.
- Reconciler.UpdateExternals: recursion into nested externs is bounded by `fuel` and reports `TooDeep` past it; the script recurses without bound.
- Replay.RootUpdate: the tree-conflict retry is bounded by `fuel` and reports `ConflictLoop` past it; the script retries without bound.
- The generator `getExternals` is consumed lazily by the script. The model scans every line first and hands the loop the externs and the error that ended the scan. The two agree because the `svn` queries the scan makes are modelled as fixed functions of their arguments, which the reconciler's changes to the tree cannot affect; this agreement is not proved. What is proved (Reconciler.ScanFailureSurfaces) is only that an exception the scan raises is never swallowed.
- The filesystem is abstract: no permissions, links, contents or timestamps.
- An older-script run ignores the outcome of `git add` and `git commit` (`call` only returns the exit code); the model logs the calls and never fails on them.
- `getUserLookup` in the current script raises `RuntimeException`, a name that is not defined; in effect an unparsable line raises `NameError`. The model reports the line as an error either way.
- The log of a revision keeps the empty line `svn log` puts between the header and the message, because only divider lines are stripped; the message of a one-line commit `Fix bug` is `"\nFix bug"`.
- A successful checkout, switch or export records only the binding of the directory or the one exported file. Nothing that the command brings into the tree is added to the model's tree. So `os.path.exists` and `os.path.isfile` tests on paths inside an extern's content (convert_to_git.py:395-402, 427-428) see only what the model placed there.
- An `os.makedirs` or `os.chdir` that fails because an ancestor of the path is a file (convert_to_git.py:401, 422) is not modelled. `MakeDirsIn` creates the directories without an error.
- A resumed run is not claimed to reach the tree a single pass reaches. The script does not promise it either: a resumed run wipes everything but `.git` and replays from the recorded revision K (convert_to_git.py:551-570), while a single pass reaches K with the tree that revision K-1 left, externs and `.svn` directories included. Only the restart point is proved (Replay.ResumeFromProgress).
- The second `svn info` that a URL-form header makes through `getUrlInCwd()` (convert_to_git.py:290) is not a separate input. The model reads the URL from the output of the `svn info` that `getExternals` ran first (convert_to_git.py:276). Between the two calls the loop that consumes the generator may check out or switch externs, but each extern it handles successfully ends back in the directory it started in, and none of it switches that directory itself, so the URL the second call reports is the one the first reported. A failure of the second call alone is not modelled.
- `Tools.order`, the listing of the `.svn` set, is unconstrained in the model's entry points, so `Replay.Stage` alone would allow any names. The staging promise (every gathered directory unstaged exactly once, ten at most per command) is proved in Replay.StagedBatchesOnce for a listing that holds each member of the set once, as `list(svndirs)` does.
