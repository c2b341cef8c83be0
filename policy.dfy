/**
 * The per-file decision of `count_lines_by_extension` and the directory filter
 * of its walk: which directories are pruned, which files are skipped, and
 * which language label an accepted file is counted under.
 */
module Policy {
  import opened Wrappers
  import opened Text
  import opened PolicyTables

  /**
   * The five tables, as one configuration value. `Source` holds the literals
   * of `count_lines_by_extension`; the decision logic below works for any.
   */
  datatype Tables = Tables(
    extensions: map<string, string>,
    excludeDirs: set<string>,
    excludeExtensions: set<string>,
    excludeFilenames: set<string>,
    markers: map<string, string>)

  const Source: Tables :=
    Tables(ExtensionMap(), ExcludeDirs(), ExcludeExtensions(), ExcludeFilenames(), CommentMarkers())

  /** The marker for an extension, if the marker table has one. */
  function Marker(t: Tables, ext: string): (m: Option<string>)
    ensures m.Some? <==> ext in t.markers
    ensures m.Some? ==> m.value == t.markers[ext]
  {
    if ext in t.markers then Some(t.markers[ext]) else None
  }

  /** The walk keeps a child directory unless it is hidden or an excluded name. */
  predicate KeepDir(t: Tables, name: string)
  {
    !StartsWith(name, ".") && name !in t.excludeDirs
  }

  /** Index of the last '.' in `s`, or -1 when there is none. */
  function LastDot(s: string): (k: int)
    ensures -1 <= k < |s|
    ensures k >= 0 ==> s[k] == '.'
    ensures forall j :: k < j < |s| ==> s[j] != '.'
  {
    if s == [] then -1
    else if s[|s| - 1] == '.' then |s| - 1
    else LastDot(s[..|s| - 1])
  }

  predicate AllDots(s: string)
  {
    forall j :: 0 <= j < |s| ==> s[j] == '.'
  }

  /**
   * `os.path.splitext(name)[1]` for a bare file name: the suffix from the last
   * dot, unless only dots precede that dot (".bashrc", "..x"), when it is empty.
   */
  function SplitExt(name: string): (ext: string)
    ensures |ext| <= |name|
    ensures ext == [] || (ext[0] == '.' && ext == name[|name| - |ext|..])
    ensures forall j :: 0 < j < |ext| ==> ext[j] != '.'
  {
    var k := LastDot(name);
    if k > 0 && !AllDots(name[..k]) then name[k..] else []
  }

  /** `os.path.splitext(file)[1].lower()`: the extension the tables are keyed by. */
  function FileExt(name: string): (ext: string)
    ensures |ext| == |SplitExt(name)|
    ensures ext == [] || ext[0] == '.'
    ensures forall j :: 0 < j < |ext| ==> ext[j] != '.'
  {
    var e := SplitExt(name);
    assert forall j :: 0 <= j < |e| ==> (Lower(e)[j] == '.' <==> e[j] == '.');
    Lower(e)
  }

  /** The reasons the source skips a file, in the order its checks run. */
  datatype SkipReason = Hidden | ExcludedName | ExcludedExtension | TestOrSpec | UnknownExtension

  /** What happens to one file: skipped for a reason, or counted under a language label. */
  datatype Decision = Skip(reason: SkipReason) | Counted(ext: string, language: string)

  /** Whether skip rule `r` applies to the file named `name`, on its own. */
  predicate Trips(t: Tables, r: SkipReason, name: string)
  {
    match r
    case Hidden => StartsWith(name, ".")
    case ExcludedName => name in t.excludeFilenames
    case ExcludedExtension => FileExt(name) in t.excludeExtensions
    case TestOrSpec => Contains(Lower(name), "test") || Contains(Lower(name), "spec")
    case UnknownExtension => FileExt(name) !in t.extensions
  }

  /** Position of a rule in the source's chain of checks. */
  function Rank(r: SkipReason): nat
  {
    match r
    case Hidden => 0
    case ExcludedName => 1
    case ExcludedExtension => 2
    case TestOrSpec => 3
    case UnknownExtension => 4
  }

  /** The per-file checks, in the order the source runs them. */
  function Decide(t: Tables, name: string): (d: Decision)
  {
    if StartsWith(name, ".") then Skip(Hidden)
    else if name in t.excludeFilenames then Skip(ExcludedName)
    else
      var ext := FileExt(name);
      if ext in t.excludeExtensions then Skip(ExcludedExtension)
      else if Contains(Lower(name), "test") || Contains(Lower(name), "spec") then Skip(TestOrSpec)
      else if ext in t.extensions then Counted(ext, t.extensions[ext])
      else Skip(UnknownExtension)
  }

  /**
   * The chain of checks counts a file exactly when no rule trips, whatever the
   * order; when it skips, the reason it gives does trip and no earlier rule
   * does; when it counts, the label is the table's entry for the extension.
   */
  lemma DecideMatchesRules(t: Tables, name: string)
    ensures Decide(t, name).Counted? <==> forall r :: !Trips(t, r, name)
    ensures Decide(t, name).Skip? ==> Trips(t, Decide(t, name).reason, name)
    ensures Decide(t, name).Skip? ==>
              forall r :: Rank(r) < Rank(Decide(t, name).reason) ==> !Trips(t, r, name)
    ensures Decide(t, name).Counted? ==>
              Decide(t, name).ext == FileExt(name) && FileExt(name) in t.extensions &&
              Decide(t, name).language == t.extensions[FileExt(name)]
  {
    if Decide(t, name).Counted? {
      forall r ensures !Trips(t, r, name) {
        match r
        case Hidden =>
        case ExcludedName =>
        case ExcludedExtension =>
        case TestOrSpec =>
        case UnknownExtension =>
      }
    } else {
      assert Trips(t, Decide(t, name).reason, name);
    }
  }

  /**
   * A name that does not start with a dot has as its extension the part from
   * its last dot on, and none when it has no dot at all.
   */
  lemma SplitExtOfVisibleName(stem: string, tail: string)
    requires stem != [] && stem[0] != '.'
    requires forall j :: 0 <= j < |tail| ==> tail[j] != '.'
    ensures SplitExt(stem + "." + tail) == "." + tail
    ensures '.' !in stem + tail ==> SplitExt(stem + tail) == []
  {
    var name := stem + "." + tail;
    assert LastDot(name) == |stem| by {
      LastDotAfter(name, |stem|);
    }
    assert name[..|stem|][0] == stem[0];
    if '.' !in stem + tail {
      LastDotAfter(stem + tail, -1);
    }
  }

  /** `LastDot` finds a dot at `k` when no dot follows it. */
  lemma {:induction false} LastDotAfter(s: string, k: int)
    requires -1 <= k < |s|
    requires k >= 0 ==> s[k] == '.'
    requires forall j :: k < j < |s| ==> s[j] != '.'
    ensures LastDot(s) == k
  {
    if s != [] && s[|s| - 1] != '.' {
      LastDotAfter(s[..|s| - 1], k);
    }
  }

  /**
   * "public/build" holds a separator, so it never equals a directory's own
   * name: the walk prunes exactly as if the entry were absent.
   */
  lemma PublicBuildNeverMatches(name: string)
    requires '/' !in name
    ensures "public/build" in Source.excludeDirs
    ensures KeepDir(Source, name) <==> !StartsWith(name, ".") && name !in Source.excludeDirs - {"public/build"}
  {
    EntriesOfExcludeDirs();
    assert "public/build"[6] == '/';
    SeparatorEntryInert(Source, name, "public/build");
  }

  /** An excluded-directory entry holding '/' never affects the filter. */
  lemma SeparatorEntryInert(t: Tables, name: string, e: string)
    requires '/' !in name && '/' in e
    ensures KeepDir(t, name) <==> !StartsWith(name, ".") && name !in t.excludeDirs - {e}
  {
  }

  /** A string with a character that `s` lacks never occurs in `s`. */
  lemma {:induction false} NotContainsMissingChar(s: string, t: string, k: nat)
    requires k < |t| && t[k] !in s
    ensures !Contains(s, t)
  {
    if s != [] {
      NotContainsMissingChar(s[1..], t, k);
    }
  }

  /** The chain of checks counts a file that passes every one of them. */
  lemma DecideCounts(t: Tables, name: string, ext: string)
    requires !StartsWith(name, ".") && name !in t.excludeFilenames
    requires FileExt(name) == ext && ext !in t.excludeExtensions && ext in t.extensions
    requires !Contains(Lower(name), "test") && !Contains(Lower(name), "spec")
    ensures Decide(t, name) == Counted(ext, t.extensions[ext])
  {
  }

  /** `t` does not occur in the lowered `s` when `s` lacks some letter of `t` in either case. */
  lemma NotContainsLowerMissingChar(s: string, t: string, k: nat)
    requires k < |t| && 'a' <= t[k] <= 'z'
    requires t[k] !in s && (t[k] as int - 32) as char !in s
    ensures !Contains(Lower(s), t)
  {
    forall i | 0 <= i < |s| ensures Lower(s)[i] != t[k] {
      assert LowerChar(s[i]) == Lower(s)[i];
    }
    NotContainsMissingChar(Lower(s), t, k);
  }

  /** The multi-dot entries of the excluded-extension set (lines 178-179 and 208-217). */
  function CompoundExclusions(): set<string>
  {
    {".min.js", ".min.css", ".test.js", ".spec.js", ".d.ts", ".min.map",
     ".pb.go", ".generated.*", ".g.dart", ".freezed.dart", ".mock.ts", ".stub.php"}
  }

  lemma CompoundDots(e: string)
    requires e in CompoundExclusions()
    ensures exists j :: 0 < j < |e| && e[j] == '.'
  {
    if e == ".min.js" { assert e[4] == '.'; }
    else if e == ".min.css" { assert e[4] == '.'; }
    else if e == ".test.js" { assert e[5] == '.'; }
    else if e == ".spec.js" { assert e[5] == '.'; }
    else if e == ".d.ts" { assert e[2] == '.'; }
    else if e == ".min.map" { assert e[4] == '.'; }
    else if e == ".pb.go" { assert e[3] == '.'; }
    else if e == ".generated.*" { assert e[10] == '.'; }
    else if e == ".g.dart" { assert e[2] == '.'; }
    else if e == ".freezed.dart" { assert e[8] == '.'; }
    else if e == ".mock.ts" { assert e[5] == '.'; }
    else if e == ".stub.php" { assert e[5] == '.'; }
  }

  /**
   * Every multi-dot entry is in the excluded-extension set, yet no file name
   * ever yields it as its extension: those entries exclude nothing.
   */
  lemma CompoundExclusionsNeverMatch(name: string, e: string)
    requires e in CompoundExclusions()
    ensures e in Source.excludeExtensions
    ensures FileExt(name) != e
  {
    CompoundEntries();
    CompoundDots(e);
  }

  /**
   * ".pl" is listed twice in both dictionaries; the later entries win, so it
   * is labelled "Prolog" rather than "Perl" and its marker is "%" rather than "#".
   */
  lemma PerlExtensionIsProlog()
    ensures ExtensionsB()[".pl"] == "Perl" && MarkersA()[".pl"] == "#"
    ensures ".pl" in Source.extensions && Source.extensions[".pl"] == "Prolog" && Marker(Source, ".pl") == Some("%")
  {
    EntriesOfExtensionsB();
    EntriesOfExtensionsD();
    EntriesOfExtensionsE();
    EntriesOfMarkersA();
    EntriesOfMarkersD();
  }

  lemma ScriptLabel()
    ensures ".js" in Source.extensions && Source.extensions[".js"] == "JavaScript"
  {
    EntriesOfExtensionsA();
    EntriesOfExtensionsB();
    EntriesOfExtensionsC();
    EntriesOfExtensionsD();
    EntriesOfExtensionsE();
  }

  lemma PythonLabel()
    ensures ".py" in Source.extensions && Source.extensions[".py"] == "Python"
  {
    EntriesOfExtensionsA();
    EntriesOfExtensionsB();
    EntriesOfExtensionsC();
    EntriesOfExtensionsD();
    EntriesOfExtensionsE();
  }

  lemma ScriptNotExcluded()
    ensures ".js" !in Source.excludeExtensions
  {
    EntriesOfExcludeExtensionsA();
    EntriesOfExcludeExtensionsB();
    EntriesOfExcludeExtensionsC();
  }

  lemma PythonNotExcluded()
    ensures ".py" !in Source.excludeExtensions
  {
    EntriesOfExcludeExtensionsA();
    EntriesOfExcludeExtensionsB();
    EntriesOfExcludeExtensionsC();
  }

  lemma PrologNotExcluded()
    ensures ".pl" !in Source.excludeExtensions
  {
    EntriesOfExcludeExtensionsA();
    EntriesOfExcludeExtensionsB();
    EntriesOfExcludeExtensionsC();
  }

  lemma PythonMarker()
    ensures Marker(Source, ".py") == Some("#")
  {
    EntriesOfMarkersA();
    EntriesOfMarkersB();
    EntriesOfMarkersC();
    EntriesOfMarkersD();
  }
}
