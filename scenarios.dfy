/**
 * Worked examples: the rules of the counter applied to concrete file names,
 * lines and a small project tree under the source's own tables.
 *
 * Each example is proved in three steps: a lemma over any tables and any
 * name of a given shape, a lemma that checks the concrete name has that
 * shape, and a lemma that puts the two together for the source's tables.
 */
module Scenarios {
  import opened Wrappers
  import opened Text
  import opened PolicyTables
  import opened Policy
  import opened Classifier
  import opened LanguageCounts
  import opened Walk
  import opened Report

  /** A visible name with a lower-case last segment: its extension is that segment. */
  lemma PlainName(stem: string, tail: string)
    requires stem != [] && stem[0] != '.'
    requires forall k :: 0 <= k < |tail| ==> 'a' <= tail[k] <= 'z'
    ensures !StartsWith(stem + "." + tail, ".")
    ensures FileExt(stem + "." + tail) == "." + tail
  {
    SplitExtOfVisibleName(stem, tail);
    LowerNoUpper("." + tail);
    assert (stem + "." + tail)[0] == stem[0];
  }

  /** Both "test" and "spec" hold an 'e', so a name without one in either case holds neither. */
  lemma NoTestWord(name: string)
    requires 'e' !in name && 'E' !in name
    ensures !Contains(Lower(name), "test") && !Contains(Lower(name), "spec")
  {
    NotContainsLowerMissingChar(name, "test", 1);
    NotContainsLowerMissingChar(name, "spec", 2);
  }

  /** A visible, unlisted name whose known extension is not excluded and which holds no 'e' is counted. */
  lemma PlainNameCounted(t: Tables, stem: string, tail: string)
    requires stem != [] && stem[0] != '.'
    requires forall k :: 0 <= k < |tail| ==> 'a' <= tail[k] <= 'z'
    requires 'e' !in stem + tail && 'E' !in stem + tail
    requires "." + tail in t.extensions && "." + tail !in t.excludeExtensions
    requires stem + "." + tail !in t.excludeFilenames
    ensures Decide(t, stem + "." + tail) == Counted("." + tail, t.extensions["." + tail])
  {
    var name := stem + "." + tail;
    PlainName(stem, tail);
    assert 'e' !in name && 'E' !in name;
    NoTestWord(name);
    DecideCounts(t, name, "." + tail);
  }

  /** A word at position `i` of the lowered stem occurs in the lowered name. */
  lemma WordInStem(stem: string, tail: string, i: nat, w: string)
    requires i + |w| <= |stem| && forall k :: 0 <= k < |w| ==> LowerChar(stem[i + k]) == w[k]
    ensures Contains(Lower(stem + "." + tail), w)
  {
    var name := stem + "." + tail;
    forall k | 0 <= k < |w| ensures Lower(name)[i + k] == w[k] {
      assert name[i + k] == stem[i + k];
    }
    assert Lower(name)[i..i + |w|] == w;
    ContainsAt(Lower(name), w, i);
  }

  /**
   * A visible file whose lowered stem holds "test" or "spec" is skipped by
   * the substring rule, whatever the word is part of.
   */
  lemma LookalikeSkipped(t: Tables, stem: string, tail: string, i: nat, w: string)
    requires w == "test" || w == "spec"
    requires stem != [] && stem[0] != '.'
    requires forall k :: 0 <= k < |tail| ==> 'a' <= tail[k] <= 'z'
    requires i + |w| <= |stem| && forall k :: 0 <= k < |w| ==> LowerChar(stem[i + k]) == w[k]
    requires "." + tail !in t.excludeExtensions && stem + "." + tail !in t.excludeFilenames
    ensures Decide(t, stem + "." + tail) == Skip(TestOrSpec)
  {
    PlainName(stem, tail);
    WordInStem(stem, tail, i, w);
  }

  /** `inspect.py` and `latest.py` are a visible stem, a dot and `py`; `spec` and `test` start at position 2 of their stems. */
  lemma LookalikeNamesSplit()
    ensures "inspect" + "." + "py" == "inspect.py" && "latest" + "." + "py" == "latest.py" && "." + "py" == ".py"
    ensures "inspect" != [] && "inspect"[0] != '.' && "latest" != [] && "latest"[0] != '.'
    ensures forall k :: 0 <= k < |"py"| ==> 'a' <= "py"[k] <= 'z'
    ensures forall k :: 0 <= k < |"spec"| ==> LowerChar("inspect"[2 + k]) == "spec"[k]
    ensures forall k :: 0 <= k < |"test"| ==> LowerChar("latest"[2 + k]) == "test"[k]
  {
  }

  /** Neither `inspect.py` nor `latest.py` is an excluded file name. */
  lemma LookalikeNamesNotExcludedFiles()
    ensures "inspect.py" !in ExcludeFilenames() && "latest.py" !in ExcludeFilenames()
  {
  }

  /**
   * The test filter is a substring test on the lowered name: "inspect.py"
   * and "latest.py" are skipped as tests, though neither is a test file.
   */
  lemma SubstringTestFilter()
    ensures Decide(Source, "inspect.py") == Skip(TestOrSpec)
    ensures Decide(Source, "latest.py") == Skip(TestOrSpec)
  {
    PythonNotExcluded();
    LookalikeNamesSplit();
    LookalikeNamesNotExcludedFiles();
    LookalikeSkipped(Source, "inspect", "py", 2, "spec");
    LookalikeSkipped(Source, "latest", "py", 2, "test");
  }

  /** `app.min.js` is the visible stem `app.min`, a dot and `js`, with no `e` in it. */
  lemma MinifiedNameSplit()
    ensures "app.min" + "." + "js" == "app.min.js" && "." + "js" == ".js"
    ensures "app.min" != [] && "app.min"[0] != '.'
    ensures forall k :: 0 <= k < |"js"| ==> 'a' <= "js"[k] <= 'z'
    ensures 'e' !in "app.min" + "js" && 'E' !in "app.min" + "js"
  {
  }

  /** `app.min.js` is not an excluded file name. */
  lemma MinifiedNameNotExcludedFile()
    ensures "app.min.js" !in ExcludeFilenames()
  {
  }

  /**
   * "app.min.js" is counted as JavaScript although ".min.js" is an excluded
   * extension: only the last dot segment is the extension.
   */
  lemma MinifiedScriptCounted()
    ensures ".min.js" in Source.excludeExtensions
    ensures Decide(Source, "app.min.js") == Counted(".js", "JavaScript")
  {
    CompoundEntries();
    ScriptNotExcluded();
    ScriptLabel();
    MinifiedNameSplit();
    MinifiedNameNotExcludedFile();
    PlainNameCounted(Source, "app.min", "js");
  }

  /** `run.pl` is the visible stem `run`, a dot and `pl`, with no `e` in it, and not an excluded file name. */
  lemma PrologNameSplit()
    ensures "run" + "." + "pl" == "run.pl" && "." + "pl" == ".pl"
    ensures "run" != [] && "run"[0] != '.'
    ensures forall k :: 0 <= k < |"pl"| ==> 'a' <= "pl"[k] <= 'z'
    ensures 'e' !in "run" + "pl" && 'E' !in "run" + "pl"
    ensures "run.pl" !in ExcludeFilenames()
  {
  }

  /** Under the marker "%", a line that starts with '#' is code. */
  lemma HashLineUnderPercent(comment: string)
    ensures IsCodeLine("#" + comment, Some("%"))
  {
    StripKeepsCore([], "#", comment);
    assert [] + "#" + comment == "#" + comment;
  }

  /** A Python line with a comment after two spaces counts as code. */
  lemma SpacedTrailingComment()
    ensures IsCodeLine("x = 1  # note", Some("#"))
  {
    TrailingCommentCounts("", "x = 1  ", "#", " note");
    assert "" + "x = 1  " + "#" + " note" == "x = 1  # note";
  }

  /**
   * A Perl file is counted under "Prolog", and its '#' lines count as code:
   * ".pl" takes the later marker "%", so '#' is not recognised as a comment.
   */
  lemma PerlHashLineCounts(comment: string)
    ensures Decide(Source, "run.pl") == Counted(".pl", "Prolog")
    ensures IsCodeLine("#" + comment, Marker(Source, ".pl"))
  {
    PerlExtensionIsProlog();
    PrologNotExcluded();
    PrologNameSplit();
    PlainNameCounted(Source, "run", "pl");
    HashLineUnderPercent(comment);
  }

  /** A small project: one Python file at the top, and a dependency folder. */
  function Example(): Dir
  {
    Dir("proj",
        [FileEntry("main.py", Read(ExampleLines()))],
        [Dir("node_modules", [FileEntry("lib.js", Read(["var a = 1;"]))], [])])
  }

  function ExampleLines(): seq<string>
  {
    ["# entry point", "x = 1", "", "    # done"]
  }

  /** Counting four elements of which only the second passes. */
  lemma CountSecondOfFour<T>(a: T, b: T, c: T, d: T, keep: T -> bool)
    requires !keep(a) && keep(b) && !keep(c) && !keep(d)
    ensures CountWhere([a, b, c, d], keep) == 1
  {
    assert [a, b, c, d][..3] == [a, b, c] && [a, b, c][..2] == [a, b] && [a, b][..1] == [a] && [a][..0] == [];
    assert CountWhere([a], keep) == 0;
    assert CountWhere([a, b], keep) == 1;
    assert CountWhere([a, b, c], keep) == 1;
  }

  /** A comment line is not code under its marker, indented or not. */
  lemma FirstLineComment()
    ensures !IsCodeLine("# entry point", Some("#"))
  {
    IndentedCommentSkipped([], "#", " entry point");
    assert [] + "#" + " entry point" == "# entry point";
  }

  lemma SecondLineCode()
    ensures IsCodeLine("x = 1", Some("#"))
  {
    StripKeepsCore([], "x", " = 1");
    assert [] + "x" + " = 1" == "x = 1";
  }

  lemma ThirdLineBlank()
    ensures !IsCodeLine("", Some("#"))
  {
  }

  lemma LastLineComment()
    ensures !IsCodeLine("    # done", Some("#"))
  {
    IndentedCommentSkipped("    ", "#", " done");
    assert "    " + "#" + " done" == "    # done";
  }

  lemma ExampleLineCount()
    ensures CodeLineCount(ExampleLines(), Some("#")) == 1
  {
    FirstLineComment();
    SecondLineCode();
    ThirdLineBlank();
    LastLineComment();
    CountSecondOfFour("# entry point", "x = 1", "", "    # done", CodeLineTest(Some("#")));
  }

  /** `main.py` is the visible stem `main`, a dot and `py`, with no `e` in it, and not an excluded file name. */
  lemma MainNameSplit()
    ensures "main" + "." + "py" == "main.py" && "." + "py" == ".py"
    ensures "main" != [] && "main"[0] != '.'
    ensures forall k :: 0 <= k < |"py"| ==> 'a' <= "py"[k] <= 'z'
    ensures 'e' !in "main" + "py" && 'E' !in "main" + "py"
    ensures "main.py" !in ExcludeFilenames()
  {
  }

  lemma MainScriptCounted()
    ensures Decide(Source, "main.py") == Counted(".py", "Python")
    ensures Marker(Source, ".py") == Some("#")
  {
    PythonNotExcluded();
    PythonLabel();
    PythonMarker();
    MainNameSplit();
    PlainNameCounted(Source, "main", "py");
  }

  lemma DependenciesPruned()
    ensures !KeepDir(Source, "node_modules")
  {
    EntriesOfExcludeDirs();
  }

  /** No child is kept when every child is pruned. */
  lemma {:induction false} AllPruned(t: Tables, ds: seq<Dir>)
    requires forall i :: 0 <= i < |ds| ==> !KeepDir(t, ds[i].name)
    ensures KeptSubdirs(t, ds) == []
  {
    if ds != [] {
      AllPruned(t, ds[1..]);
    }
  }

  /** A directory with one file and only pruned children contributes what that file does. */
  lemma OneFileTree(t: Tables, d: Dir)
    requires |d.files| == 1 && forall i :: 0 <= i < |d.subdirs| ==> !KeepDir(t, d.subdirs[i].name)
    ensures Contributions(t, d) == FileContribution(t, d.files[0])
  {
    AllPruned(t, d.subdirs);
    assert d.files[..0] == [];
    assert FilesContributions(t, d.files) == FilesContributions(t, d.files[..0]) + FileContribution(t, d.files[0]);
    assert DirsContributions(t, []) == [];
  }

  lemma ExampleFile()
    ensures FileContribution(Source, FileEntry("main.py", Read(ExampleLines()))) == [Contribution("Python", 1)]
  {
    MainScriptCounted();
    ExampleLineCount();
  }

  /** One contribution makes an accumulator with one entry. */
  lemma TallySingle(l: string, n: nat)
    ensures Tally([Contribution(l, n)]) == map[l := n]
  {
    assert [Contribution(l, n)][..0] == [];
  }

  /**
   * In the example only "x = 1" counts, and "node_modules" is never entered,
   * so the accumulator holds one line of Python.
   */
  lemma ExampleCounts()
    ensures Contributions(Source, Example()) == [Contribution("Python", 1)]
    ensures Tally(Contributions(Source, Example())) == map["Python" := 1]
  {
    var d := Example();
    DependenciesPruned();
    assert d.subdirs[0].name == "node_modules" && |d.subdirs| == 1;
    OneFileTree(Source, d);
    ExampleFile();
    assert d.files[0] == FileEntry("main.py", Read(ExampleLines()));
    TallySingle("Python", 1);
  }

  /** `sorted` of a single label. */
  lemma SortedSingleton(l: string)
    ensures SortedLabels({l}) == [l]
  {
    SortedLabelsSpec({l});
    var labels := SortedLabels({l});
    assert |labels| == 1 && labels[0] in labels;
  }

  /** No category has a row when the accumulator holds none of them. */
  lemma {:induction false} CategoryRowsNone(counts: map<string, nat>, cats: seq<string>)
    requires forall i :: 0 <= i < |cats| ==> cats[i] !in counts
    ensures CategoryRows(counts, cats) == []
  {
    if cats != [] {
      CategoryRowsNone(counts, cats[1..]);
    }
  }

  /** No WeChat category has a row when the accumulator holds none of them. */
  lemma NoWeChatRows(counts: map<string, nat>)
    requires forall i :: 0 <= i < |WeChatLabels()| ==> WeChatLabels()[i] !in counts
    ensures WeChatRows(counts) == []
  {
    CategoryRowsNone(counts, WeChatLabels());
  }

  /** An accumulator with one language that is not a WeChat category is reported as one row and its total. */
  lemma SingleLanguageReport(l: string, n: nat)
    requires l !in WeChatLabels()
    ensures Summarize(map[l := n]) == Summary([Row(l, n)], n)
  {
    var counts := map[l := n];
    assert counts.Keys == {l};
    SortedSingleton(l);
    NoWeChatRows(counts);
    assert OtherRows(counts) == LabelRows(counts, [l]);
    assert LabelRows(counts, [l][1..]) == [];
    assert SumOver(counts, [l][1..]) == 0;
  }

  /** The example's report: one row of Python, and its total. */
  lemma ExampleReport()
    ensures Summarize(map["Python" := 1]) == Summary([Row("Python", 1)], 1)
  {
    assert "Python" !in WeChatLabels();
    SingleLanguageReport("Python", 1);
  }

  /**
   * A language whose files hold only comments keeps its row with 0 lines,
   * while a WeChat category with 0 lines is left out.
   */
  lemma ZeroLineLanguageListed(counts: map<string, nat>, language: string)
    requires language in counts && counts[language] == 0
    ensures language in Listed(Rows(counts)) <==> language !in WeChatLabels()
  {
    RowsListed(counts);
  }
}
