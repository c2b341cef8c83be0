# Code line counter — a Dafny model

`code_counter.py` walks a directory tree and counts lines of code per
language. This project models the core of it, `count_lines_by_extension`:

- **Policy tables.** These are the extension→language map, the excluded
  directory names, extensions and file names, and the extension→single-line
  comment marker map (`PolicyTables`, bundled as `Policy.Source`). The Python
  dict literals repeat `'.pl'`, and the last entry wins: `'.pl'` is `Prolog`
  with marker `%`. The constant maps are written that way.
- **File decision.** `Policy.Decide` runs the source's chain of checks on a
  bare file name, in the source's order:
  1. the name is hidden (starts with `.`);
  2. the name is an excluded literal name;
  3. the extension is excluded;
  4. the lower-cased name contains `test` or `spec`;
  5. the extension is not a known language.

  The extension is `os.path.splitext(name)[1].lower()`. For a name that does
  not start with dots, that is the text from the last dot on (`Policy.SplitExt`).
- **Line classifier.** `Classifier` counts a line when its stripped form is
  non-empty and does not start with the extension's marker. This is a prefix
  test only, with no block-comment state.
- **Walk.** `Walk.CountLinesByExtension` is the `os.walk` loop. It keeps a
  stack of directories still to visit. It prunes each directory's children
  (hidden or excluded names) before descending. It decides every file, counts
  the lines of each accepted one, and adds the count to that language's entry
  of the accumulator (`LanguageCounts`). A file whose read fails at any point
  adds nothing. The method is proved against the fold `Walk.Contributions`.
- **Report.** `Report.Summarize` gives the ordered rows and the total:
  - the three WeChat labels come first, in declared order, only when their count is above 0;
  - then every other recorded label follows in ascending code-point order;
  - the total is the sum of all entries.

`Scenarios` applies the general lemmas to concrete names and a small example tree.

The model follows the code as written. Two behaviours follow from that:

- The multi-dot entries of the excluded-extension set (`.min.js`, `.d.ts`,
  `.pb.go`, `.generated.*`, …) can never match, because only the last dot
  segment is compared. So `app.min.js` is counted as JavaScript.
- `public/build` in the excluded-directory set can never match, because
  directory names are leaf names without separators.

Both are modelled as written and proved (`Policy.CompoundExclusionsNeverMatch`,
`Policy.PublicBuildNeverMatches`). The corrected, multi-segment suffix match
is not modelled.

## Model

| member | source | states |
|---|---|---|
| Policy.Marker | code_counter.py:385 | The marker for an extension exists exactly when the marker table has the key, and it is that entry |
| Policy.LastDot | code_counter.py:366 | `rfind('.')` inside `splitext`: the index of a dot with no dot after it, or -1 when the name has no dot |
| Policy.SplitExt | code_counter.py:366 | The extension is empty or a dot-led suffix of the name with no further dot in it |
| Policy.FileExt | code_counter.py:366 | The lower-cased extension has the same length as the raw one, starts with a dot when non-empty, and holds no other dot |
| Policy.LastDotAfter | code_counter.py:366 | `LastDot` is `rfind('.')`: the dot with no dot after it |
| Policy.SplitExtOfVisibleName | code_counter.py:366 | For a name not starting with a dot, the extension is exactly the text after the last dot; a name with no dot has none |
| Policy.Decide | code_counter.py:358-376 | The chain of per-file checks in source order, giving the first skip reason or the extension and its label |
| Policy.KeepDir | code_counter.py:354 | A child directory is kept unless its name starts with a dot or is an excluded name |
| Policy.DecideMatchesRules | code_counter.py:358-376 | A file is counted iff no skip rule applies to it; a skipped file is skipped for the first applicable rule in source order; a counted file gets its extension's label, so the order of the checks cannot change whether a file counts |
| Policy.DecideCounts | code_counter.py:358-376 | A visible, non-listed name whose lowered form lacks `test`/`spec` and whose extension is known and not excluded is counted under its extension's label |
| Policy.NotContainsMissingChar | code_counter.py:373-374 | A word with a letter the name lacks never occurs in the name |
| Policy.NotContainsLowerMissingChar | code_counter.py:373-374 | A word never occurs in the lowered name when the name lacks one of its letters in both cases |
| Policy.CompoundDots | code_counter.py:174-218 | Every multi-dot entry of the excluded-extension set has a dot after its first character |
| Policy.CompoundExclusionsNeverMatch | code_counter.py:174-218 | Each multi-dot entry is in the excluded-extension set, yet it is never the extension of any file name |
| Policy.PerlExtensionIsProlog | code_counter.py:13-349 | The first `.pl` entries say Perl and `#`, but the resulting tables map `.pl` to Prolog with marker `%` |
| Policy.PublicBuildNeverMatches | code_counter.py:122-171 | `public/build` is in the excluded-directory set, but for any directory name the filter behaves as if it were absent |
| Policy.SeparatorEntryInert | code_counter.py:354 | Any excluded-directory entry holding `/` never affects which directories are kept |
| Policy.ScriptLabel | code_counter.py:18 | `.js` is labelled JavaScript |
| Policy.PythonLabel | code_counter.py:17 | `.py` is labelled Python |
| Policy.ScriptNotExcluded | code_counter.py:174-218 | `.js` is not an excluded extension |
| Policy.PythonNotExcluded | code_counter.py:174-218 | `.py` is not an excluded extension |
| Policy.PrologNotExcluded | code_counter.py:174-218 | `.pl` is not an excluded extension |
| Policy.PythonMarker | code_counter.py:257 | The marker for `.py` is `#` |
| PolicyTables.ExtensionMap | code_counter.py:13-119 | The extension→label table, with `.pl` resolved last-wins to Prolog |
| PolicyTables.ExcludeDirs | code_counter.py:122-171 | The excluded directory names |
| PolicyTables.ExcludeExtensions | code_counter.py:174-218 | The excluded extensions, multi-dot entries included |
| PolicyTables.ExcludeFilenames | code_counter.py:221-250 | The excluded literal file names |
| PolicyTables.CommentMarkers | code_counter.py:256-349 | The extension→marker table, with `.pl` resolved last-wins to `%` |
| PolicyTables.CompoundEntries | code_counter.py:174-218 | The compound and glob-like suffixes are entries of the excluded-extension blocks |
| Classifier.CountFileLines | code_counter.py:378-387 | The line loop returns the number of code lines of a fully read file, and nothing for a file whose read fails |
| Classifier.FileLineCount | code_counter.py:377-391 | The outcome of the `try`: the file's code-line count when it is read in full, nothing when the read fails |
| Classifier.CountWhereIsPositions | code_counter.py:380-387 | The loop's counter is the number of positions whose line passes the test |
| Classifier.CodeLineCountIsPositionCount | code_counter.py:380-387 | A file's count is the number of its lines whose stripped form is non-empty and does not start with the marker |
| Classifier.IsCodeLine | code_counter.py:382-387 | A line is code when its stripped form is non-empty and, if the extension has a marker, does not start with it |
| Classifier.CountWhere | code_counter.py:380-387 | The number of elements passing a test, read front to back, is at most the number of elements |
| Classifier.CodeLineCount | code_counter.py:380-387 | A file's count is the number of its lines that are code, and at most its number of physical lines |
| Classifier.CodeLineCountAppend | code_counter.py:380-387 | Counting is additive over consecutive runs of lines |
| Classifier.MarkerOnlyLowersCount | code_counter.py:384-386 | With no marker every non-blank line counts, and a marker can only lower the count |
| Classifier.CommentsOnlyCountZero | code_counter.py:382-386 | A file of blank and marker-led lines counts 0 |
| Classifier.TrailingCommentCounts | code_counter.py:382-387 | A line of optional indentation, code, the marker and a comment counts as one line whenever the code does not begin with the marker; the code may end in whitespace (`x = 1  # note`) or share the marker's first characters, and the marker need only end in non-whitespace, as every table marker does |
| Classifier.IndentedCommentSkipped | code_counter.py:382-386 | An indented marker-led line is not counted, since the test runs on the stripped line |
| Text.IsSpace | code_counter.py:382 | The characters `str.isspace` accepts, which `strip()` removes |
| Text.TrimLeft | code_counter.py:382 | `lstrip()` gives a suffix of the line |
| Text.TrimRight | code_counter.py:382 | `rstrip()` gives a prefix of the line |
| Text.Strip | code_counter.py:382 | `strip()` is `lstrip()` then `rstrip()`, and is never longer than the line |
| Text.StartsWith | code_counter.py:385 | `str.startswith`: the prefix of that length equals the marker |
| Text.Contains | code_counter.py:373 | Substring `in`: the word occurs as a contiguous slice |
| Text.TrimLeftSpec | code_counter.py:382 | Stripping on the left removes only whitespace and stops at a non-space character |
| Text.TrimRightSpec | code_counter.py:382 | Stripping on the right removes only whitespace and stops at a non-space character |
| Text.StripEdges | code_counter.py:382 | A non-empty stripped line starts and ends with non-space characters |
| Text.StripEmptyIffAllSpace | code_counter.py:383 | A stripped line is empty exactly when the line is all whitespace |
| Text.StripKeepsCore | code_counter.py:382 | Stripping a line made of whitespace, then a stretch that begins and ends with non-whitespace, then anything, leaves that stretch at the front of the result |
| Text.Lower | code_counter.py:366 | Lowering keeps the length and maps each character on its own |
| Text.LowerChar | code_counter.py:373 | One character of `lower()`, as applied to the name here and to the extension at line 366: an ASCII capital becomes its small letter, anything else is kept |
| Text.LowerKeepsDots | code_counter.py:366 | Lowering never creates or removes a dot, so it does not move the extension |
| Text.LexLessTotal | code_counter.py:406 | `sorted` compares any two distinct labels one way or the other |
| Text.LexLessTransitive | code_counter.py:406 | The label order is transitive |
| Text.LexLessAsymmetric | code_counter.py:406 | The label order is asymmetric |
| Text.LexLess | code_counter.py:406 | Python's `<` on `str`, which `sorted` uses: the first differing code point decides, and a proper prefix comes first |
| LanguageCounts.Bump | code_counter.py:388 | `+=` on the defaultdict adds the key if missing, adds `n` to its old value (0 when missing), and leaves every other entry alone |
| LanguageCounts.Get | code_counter.py:402 | Reading the defaultdict, here and inside the `+=` of line 388: the entry when the key is present, 0 when it is missing |
| LanguageCounts.TallyKeys | code_counter.py:388 | The accumulator has an entry for exactly the languages some accepted, read file named, including those that added 0 lines |
| LanguageCounts.TallyValues | code_counter.py:388 | Each language's entry is the sum of the lines its files added |
| LanguageCounts.TallyTotal | code_counter.py:388 | The sum of all entries is the number of lines added in all |
| LanguageCounts.Tally | code_counter.py:253-388 | The accumulator after one `+=` per contribution in order, starting from the empty defaultdict |
| LanguageCounts.LanguagesPermutation | code_counter.py:388 | Which languages are named does not depend on the order of the contributions |
| LanguageCounts.LanguageSumPermutation | code_counter.py:388 | A language's sum does not depend on the order of the contributions |
| LanguageCounts.TallyPermutation | code_counter.py:352-388 | Any reordering of the contributions gives the same accumulator |
| LanguageCounts.BumpSum | code_counter.py:388 | One `+=` of `n` raises the sum of the entries by `n` |
| LanguageCounts.SumOverListing | code_counter.py:410 | Summing the values over any duplicate-free listing of the keys gives the sum of the map |
| Walk.KeptSubdirs | code_counter.py:354 | The kept children are exactly the listed children whose names pass the filter, and there are no more of them than listed |
| Walk.KeptSubdirsAppend | code_counter.py:354 | The filter distributes over concatenation, so the kept children stay in their listed order |
| Walk.KeptSubdirsOne | code_counter.py:354 | One child on its own is kept exactly when its name is neither hidden nor excluded |
| Walk.FileContribution | code_counter.py:358-391 | What one file adds: nothing when it is skipped or not read in full, else its label and code-line count |
| Walk.FilesContributions | code_counter.py:356-391 | What a directory's files add: each file's contribution, in listing order |
| Walk.DirsContributions | code_counter.py:352-354 | What a run of sibling trees adds: each tree's contributions, one tree after the other |
| Walk.Contributions | code_counter.py:352-391 | What a tree adds in walk order: the directory's own files, then each kept child's tree in turn |
| Walk.VisitFiles | code_counter.py:356-391 | The loop over a directory's files leaves the accumulator as after adding each file's contribution in order |
| Walk.CountLinesByExtension | code_counter.py:352-391 | The walk returns the accumulator after adding every contribution of the tree in `os.walk` order, with pruned subtrees skipped |
| Walk.WalkStep | code_counter.py:352-354 | Visiting the next directory takes its files' contributions and puts its kept children in front of the rest |
| Walk.CountsArePerLanguageSums | code_counter.py:388 | After the walk, the keys are the languages named, each entry is the sum of its files' counts, and the entries sum to all lines counted |
| Walk.FileContributionSpec | code_counter.py:358-391 | A file adds something iff no skip rule applies and it was read in full; then it adds its code-line count under its extension's label |
| Walk.UnreadableFileIgnored | code_counter.py:377-391 | A file whose read fails after any number of lines adds nothing, and the directory's result is as if that file added nothing |
| Walk.FilesContributionsAppend | code_counter.py:356 | The files' contributions split over consecutive runs of files |
| Walk.DirsContributionsAppend | code_counter.py:352 | The trees' contributions split over consecutive runs of directories |
| Walk.ReplaceChild | code_counter.py:354 | Replacing a pruned child, or a kept child with an equivalent one, leaves the directory's result unchanged |
| Walk.PrunedSubtreeIgnored | code_counter.py:352-354 | Whatever a pruned directory holds at any depth, replacing it changes nothing |
| Walk.KeptSubdirsPermutation | code_counter.py:354 | Listing the children in another order keeps the same children, in some order |
| Walk.FilesContributionsPermutation | code_counter.py:356-391 | Listing a directory's files in another order adds the same contributions, in some order |
| Walk.DirsContributionsPermutation | code_counter.py:352 | Visiting sibling trees in another order adds the same contributions, in some order |
| Walk.ReplaceChildPermuted | code_counter.py:352-354 | Replacing a child by a same-named one whose tree adds the same contributions in some order changes what the children add only in order |
| Walk.ReorderedAt | code_counter.py:352-391 | The same holds for a directory replaced at any depth of the tree |
| Walk.ListingOrderIrrelevant | code_counter.py:352-391 | Listing the files and the child directories of any directory, at any depth, in another order leaves the walk's accumulator unchanged |
| Walk.RootNeverPruned | code_counter.py:352-354 | The directory handed to the walk is visited whatever its name, and its own files always contribute |
| Report.IndexOf | code_counter.py:400-401 | The position of a label is where it first occurs |
| Report.LeastExists | code_counter.py:406 | Every non-empty set of labels has a least one |
| Report.LeastUnique | code_counter.py:406 | That least label is unique |
| Report.SortedLabels | code_counter.py:406 | `sorted` on the labels: repeatedly takes the least remaining label |
| Report.SortedLabelsSpec | code_counter.py:406 | The sorted labels are the set's elements, each once, in strictly ascending order |
| Report.CategoryRows | code_counter.py:400-404 | Every WeChat row names one of the WeChat labels |
| Report.CategoryRowsValues | code_counter.py:400-404 | A WeChat row carries that label's count |
| Report.CategoryRowsListed | code_counter.py:400-404 | A WeChat label has a row exactly when its count is above 0 |
| Report.CategoryRowsOrdered | code_counter.py:400-404 | WeChat rows come in the declared order of the labels |
| Report.LabelRowsValues | code_counter.py:406-408 | Each later row carries its label's count |
| Report.LabelRowsListed | code_counter.py:406-408 | The later rows list exactly the sorted labels that are not WeChat labels |
| Report.LabelRowsAscending | code_counter.py:406-408 | The later rows are in ascending label order |
| Report.WeChatLabelsDistinct | code_counter.py:400 | The three WeChat labels are distinct |
| Report.WeChatLabels | code_counter.py:400 | The three WeChat labels, in the order they are printed |
| Report.WeChatRows | code_counter.py:400-404 | The WeChat rows: each WeChat label whose count is above 0, in declared order |
| Report.LabelRows | code_counter.py:406-408 | The rows for a list of labels: each label that is not a WeChat label, with its count, in the list's order |
| Report.OtherRows | code_counter.py:406-408 | The later rows: the non-WeChat labels with their counts, in sorted order |
| Report.RowsValues | code_counter.py:400-408 | Every row names a recorded label with its count, and no label appears twice |
| Report.RowsListed | code_counter.py:400-408 | A label has a row iff it was recorded and, for a WeChat label, its count is above 0 |
| Report.RowsOrder | code_counter.py:400-408 | The WeChat rows form the prefix in declared order, and the remaining rows ascend |
| Report.RowsSumIsMapSum | code_counter.py:410 | Rows that list every non-zero entry once with its count sum to the map's total |
| Report.Rows | code_counter.py:400-408 | The printed rows: the WeChat rows, then the rows of the other labels in sorted order |
| Report.Total | code_counter.py:410 | `sum(language_counts.values())`, summed over the sorted keys |
| Report.Summarize | code_counter.py:399-410 | The report of an accumulator: its rows and its total |
| Report.TotalSpec | code_counter.py:410 | The total is the sum of all entries and equals the sum of the rows |
| Scenarios.PlainName | code_counter.py:358-366 | A visible `stem.tail` name has extension `.tail` |
| Scenarios.NoTestWord | code_counter.py:373-374 | A name without `e` or `E` passes the test/spec filter |
| Scenarios.PlainNameCounted | code_counter.py:358-376 | A plain `stem.tail` name with a known, non-excluded extension and no `e` is counted under that extension's label |
| Scenarios.WordInStem | code_counter.py:373-374 | A word present in the stem in any case is found in the lowered name |
| Scenarios.LookalikeSkipped | code_counter.py:358-374 | A name whose stem contains `test` or `spec` as a substring is skipped by that rule |
| Scenarios.SubstringTestFilter | code_counter.py:373-374 | `inspect.py` and `latest.py` are skipped by the test/spec rule |
| Scenarios.MinifiedScriptCounted | code_counter.py:178 | `.min.js` is excluded, yet `app.min.js` is counted as JavaScript |
| Scenarios.HashLineUnderPercent | code_counter.py:380-387 | With marker `%`, a `#` line is code |
| Scenarios.SpacedTrailingComment | code_counter.py:382-387 | `x = 1  # note` in a Python file counts as code |
| Scenarios.PerlHashLineCounts | code_counter.py:333 | `run.pl` is counted as Prolog, and its `#` lines count as code |
| Scenarios.ExampleLineCount | code_counter.py:380-387 | Of a comment line, a code line, a blank line and an indented comment, one line counts |
| Scenarios.MainScriptCounted | code_counter.py:358-376 | `main.py` is counted as Python with marker `#` |
| Scenarios.DependenciesPruned | code_counter.py:354 | `node_modules` is pruned |
| Scenarios.AllPruned | code_counter.py:354 | When every child is pruned, none is kept |
| Scenarios.OneFileTree | code_counter.py:352-391 | A directory with one file and only pruned children contributes just that file |
| Scenarios.ExampleFile | code_counter.py:376-388 | The example `main.py` adds 1 line to Python |
| Scenarios.ExampleCounts | code_counter.py:352-391 | The example tree yields `{Python: 1}`; the `node_modules` script is never reached |
| Scenarios.SortedSingleton | code_counter.py:406 | Sorting one label gives just that label |
| Scenarios.CategoryRowsNone | code_counter.py:400-404 | With no WeChat label recorded, there are no WeChat rows |
| Scenarios.NoWeChatRows | code_counter.py:400-404 | The WeChat section is empty when none of its labels were recorded |
| Scenarios.SingleLanguageReport | code_counter.py:400-410 | One non-WeChat language yields one row and a total equal to its count |
| Scenarios.ExampleReport | code_counter.py:400-410 | The example's report is the single row `Python 1` with total 1 |
| Scenarios.ZeroLineLanguageListed | code_counter.py:400-408 | A recorded language with 0 lines still gets a row, unless it is a WeChat label |

## Left out

- The real filesystem and `os.walk`: the tree is a value (`Walk.Dir`) whose lists are in listing order. Walk errors, symbolic links and the order in which the system lists entries are not modelled. Listing order does not change the counts (`Walk.ListingOrderIrrelevant`).
- `open` and UTF-8 decoding: a file is either read in full (`Read(lines)`) or fails after some lines (`ReadError(partial)`). Which files fail to open or decode is part of the tree. Lines are given without their line terminators, which `strip()` would remove anyway.
- `Walk.FileEntry`, `Walk.Dir`: names are Dafny strings, sequences of Unicode scalar values, so a name that `os.walk` returns with lone surrogates (undecodable bytes under `surrogateescape`, such as `caf\xe9.py`) cannot be represented. The source decides such names like any other; the model covers only names made of scalar values.
- `Text.Lower`, `Text.LowerChar`: `str.lower()` is modelled for ASCII letters only; other characters are left unchanged. This is exact for the `test`/`spec` rule, whose words are ASCII, but not for extensions: Python lowers U+212A KELVIN SIGN to `k`, so the source counts `a.\u212At` as Kotlin, while the model finds no known extension and skips it.
- Console output (headings, column widths, separators, lines 394-412): only the ordered rows and the total are modelled.
- `print_usage`, `get_directory_input` and the `__main__` block (lines 414-469): command-line and standard-input glue, exit codes and the exception handlers around the call.
- The defaultdict insertion at line 402: reading a missing WeChat label inserts a 0 entry. The model reads with a default instead. The inserted entries are never printed and add 0 to the total.
- `sorted(language_counts.items())` compares (label, count) pairs; since labels are unique keys, the count never decides the order, and the model sorts the labels.
- `LanguageCounts.MapSum`: the sum of a map's values is a ghost function (it picks keys in no particular order), so `Report.Total` is related to it by lemma.
