/**
 * The walk of `count_lines_by_extension`: visit the tree top-down, prune the
 * child directories before descending into them, decide every file, count
 * the code lines of each accepted file and add them to its language's entry.
 * The tree is a value; which files a directory lists and what reading each
 * one yields are part of it.
 */
module Walk {
  import opened Wrappers
  import opened Text
  import opened Policy
  import opened Classifier
  import opened LanguageCounts

  /** One file as the walk finds it: its bare name and what reading it yields. */
  datatype FileEntry = FileEntry(name: string, content: FileContent)

  /** A directory: its own name, the files it lists and its child directories. */
  datatype Dir = Dir(name: string, files: seq<FileEntry>, subdirs: seq<Dir>)

  /** The number of directories in a tree. */
  function Size(d: Dir): nat
  {
    1 + SizeAll(d.subdirs)
  }

  function SizeAll(ds: seq<Dir>): nat
  {
    if ds == [] then 0 else Size(ds[0]) + SizeAll(ds[1..])
  }

  lemma {:induction false} SizeAllAppend(a: seq<Dir>, b: seq<Dir>)
    ensures SizeAll(a + b) == SizeAll(a) + SizeAll(b)
  {
    if a != [] {
      assert (a + b)[1..] == a[1..] + b;
      SizeAllAppend(a[1..], b);
    } else {
      assert a + b == b;
    }
  }

  /**
   * The pruning `dirs[:] = [...]`: the children that do not start with a dot
   * and are not excluded, in their listed order.
   */
  function KeptSubdirs(t: Tables, ds: seq<Dir>): (r: seq<Dir>)
    ensures forall d :: d in r <==> d in ds && KeepDir(t, d.name)
    ensures SizeAll(r) <= SizeAll(ds)
  {
    if ds == [] then []
    else if KeepDir(t, ds[0].name) then [ds[0]] + KeptSubdirs(t, ds[1..])
    else KeptSubdirs(t, ds[1..])
  }

  /** The filter keeps the listed order: it distributes over concatenation. */
  lemma {:induction false} KeptSubdirsAppend(t: Tables, a: seq<Dir>, b: seq<Dir>)
    ensures KeptSubdirs(t, a + b) == KeptSubdirs(t, a) + KeptSubdirs(t, b)
  {
    if a != [] {
      assert (a + b)[1..] == a[1..] + b;
      KeptSubdirsAppend(t, a[1..], b);
    } else {
      assert a + b == b;
    }
  }

  /** One child on its own is kept exactly when its name passes the filter. */
  lemma KeptSubdirsOne(t: Tables, d: Dir)
    ensures KeptSubdirs(t, [d]) == if KeepDir(t, d.name) then [d] else []
  {
    assert [d][1..] == [];
  }

  /** What one file adds: nothing when it is skipped or cannot be read in full. */
  function FileContribution(t: Tables, f: FileEntry): (r: seq<Contribution>)
  {
    match Decide(t, f.name)
    case Skip(_) => []
    case Counted(ext, language) =>
      match FileLineCount(f.content, Marker(t, ext))
      case None => []
      case Some(n) => [Contribution(language, n)]
  }

  /** What the files of one directory add, in their listed order. */
  function FilesContributions(t: Tables, fs: seq<FileEntry>): seq<Contribution>
  {
    if fs == [] then []
    else FilesContributions(t, fs[..|fs| - 1]) + FileContribution(t, fs[|fs| - 1])
  }

  /**
   * What a whole tree adds, in the order the walk meets the files: the
   * directory's own files, then each kept child's tree in turn. The name of
   * the directory itself is never tested.
   */
  function Contributions(t: Tables, d: Dir): seq<Contribution>
    decreases Size(d), 0
  {
    FilesContributions(t, d.files) + DirsContributions(t, KeptSubdirs(t, d.subdirs))
  }

  /** What the trees of `ds` add, one after the other. */
  function DirsContributions(t: Tables, ds: seq<Dir>): seq<Contribution>
    decreases SizeAll(ds), 1
  {
    if ds == [] then [] else Contributions(t, ds[0]) + DirsContributions(t, ds[1..])
  }

  lemma {:induction false} DirsContributionsAppend(t: Tables, a: seq<Dir>, b: seq<Dir>)
    ensures DirsContributions(t, a + b) == DirsContributions(t, a) + DirsContributions(t, b)
  {
    if a != [] {
      assert (a + b)[1..] == a[1..] + b;
      DirsContributionsAppend(t, a[1..], b);
    } else {
      assert a + b == b;
    }
  }

  /**
   * The file loop of one directory: decide each file, count the lines of the
   * accepted ones and add each count that was read in full. `done` stands for
   * the contributions that produced `counts0`.
   */
  method VisitFiles(t: Tables, files: seq<FileEntry>, counts0: map<string, nat>, ghost done: seq<Contribution>)
    returns (counts: map<string, nat>)
    requires counts0 == Tally(done)
    ensures counts == Tally(done + FilesContributions(t, files))
  {
    counts := counts0;
    var j := 0;
    assert files[..0] == [];
    assert done + FilesContributions(t, files[..0]) == done;
    while j < |files|
      invariant 0 <= j <= |files|
      invariant counts == Tally(done + FilesContributions(t, files[..j]))
    {
      ghost var sofar := done + FilesContributions(t, files[..j]);
      var f := files[j];
      var decision := Decide(t, f.name);
      if decision.Counted? {
        var n := CountFileLines(f.content, Marker(t, decision.ext));
        if n.Some? {
          counts := Bump(counts, decision.language, n.value);
          assert FileContribution(t, f) == [Contribution(decision.language, n.value)];
          assert (sofar + [Contribution(decision.language, n.value)])[..|sofar|] == sofar;
        } else {
          assert FileContribution(t, f) == [];
          assert sofar + [] == sofar;
        }
      } else {
        assert FileContribution(t, f) == [];
        assert sofar + [] == sofar;
      }
      assert counts == Tally(sofar + FileContribution(t, f));
      assert files[..j + 1][..j] == files[..j];
      assert FilesContributions(t, files[..j + 1]) == FilesContributions(t, files[..j]) + FileContribution(t, f);
      assert done + FilesContributions(t, files[..j + 1]) == sofar + FileContribution(t, f);
      j := j + 1;
    }
    assert files[..j] == files;
  }

  /**
   * `count_lines_by_extension`: the walk keeps the directories still to visit
   * in the order `os.walk` yields them (the next one first), prunes each
   * directory's children before looking at its files, and adds each accepted,
   * fully read file's count to its language's entry. The result is the
   * accumulator after all the tree's contributions, in walk order.
   */
  method CountLinesByExtension(t: Tables, top: Dir) returns (counts: map<string, nat>)
    ensures counts == Tally(Contributions(t, top))
  {
    counts := map[];
    var pending := [top];
    ghost var done: seq<Contribution> := [];
    assert DirsContributions(t, pending) == Contributions(t, top) + [];
    while pending != []
      invariant counts == Tally(done)
      invariant done + DirsContributions(t, pending) == Contributions(t, top)
      decreases SizeAll(pending)
    {
      var d := pending[0];
      var kept := KeptSubdirs(t, d.subdirs);
      counts := VisitFiles(t, d.files, counts, done);
      WalkStep(t, pending);
      Assoc(done, FilesContributions(t, d.files), DirsContributions(t, kept + pending[1..]));
      done := done + FilesContributions(t, d.files);
      pending := kept + pending[1..];
    }
    assert done + DirsContributions(t, pending) == done + [];
    assert done + [] == done;
  }

  /**
   * Visiting the next directory: its files' contributions are taken, and its
   * kept children take its place at the front of what is still to visit.
   */
  lemma WalkStep(t: Tables, pending: seq<Dir>)
    requires pending != []
    ensures var d := pending[0];
            var next := KeptSubdirs(t, d.subdirs) + pending[1..];
            DirsContributions(t, pending) == FilesContributions(t, d.files) + DirsContributions(t, next) &&
            SizeAll(next) < SizeAll(pending)
  {
    var d := pending[0];
    var kept := KeptSubdirs(t, d.subdirs);
    var rest := pending[1..];
    DirsContributionsAppend(t, kept, rest);
    SizeAllAppend(kept, rest);
    Assoc(FilesContributions(t, d.files), DirsContributions(t, kept), DirsContributions(t, rest));
  }

  /**
   * Regrouping a concatenation, proved on its own: asserted inline, in the
   * middle of the walk's facts, it costs the solver far more.
   */
  lemma Assoc<T>(a: seq<T>, b: seq<T>, c: seq<T>)
    ensures (a + b) + c == a + (b + c)
  {
  }

  /** The per-language totals: each entry is the lines its accepted, readable files add. */
  lemma CountsArePerLanguageSums(t: Tables, top: Dir, language: string)
    ensures Tally(Contributions(t, top)).Keys == Languages(Contributions(t, top))
    ensures Get(Tally(Contributions(t, top)), language) == LanguageSum(Contributions(t, top), language)
    ensures MapSum(Tally(Contributions(t, top))) == LinesSum(Contributions(t, top))
  {
    TallyKeys(Contributions(t, top));
    TallyValues(Contributions(t, top), language);
    TallyTotal(Contributions(t, top));
  }

  /**
   * A file adds exactly one entry when every acceptance rule passes and it was
   * read in full: its extension's label and its number of code lines under the
   * extension's marker. Otherwise it adds nothing.
   */
  lemma FileContributionSpec(t: Tables, f: FileEntry)
    ensures FileContribution(t, f) != [] <==> (forall r :: !Trips(t, r, f.name)) && f.content.Read?
    ensures FileContribution(t, f) != [] ==>
              var ext := FileExt(f.name);
              FileContribution(t, f) ==
                [Contribution(t.extensions[ext], CodeLineCount(f.content.lines, Marker(t, ext)))]
  {
    DecideMatchesRules(t, f.name);
  }

  /** A file whose read fails, at whatever line, adds nothing, as if it were not there. */
  lemma UnreadableFileIgnored(t: Tables, d: Dir, i: nat, name: string, partial: seq<string>)
    requires i < |d.files|
    ensures FileContribution(t, FileEntry(name, ReadError(partial))) == []
    ensures Contributions(t, d.(files := d.files[i := FileEntry(name, ReadError(partial))]))
         == Contributions(t, d.(files := d.files[..i] + d.files[i + 1..]))
  {
    var g := FileEntry(name, ReadError(partial));
    var before := d.files[..i];
    var after := d.files[i + 1..];
    assert FileContribution(t, g) == [];
    assert FilesContributions(t, before + [g]) == FilesContributions(t, before) by {
      assert (before + [g])[..|before|] == before;
    }
    FilesContributionsAppend(t, before + [g], after);
    FilesContributionsAppend(t, before, after);
    UpdateSplit(d.files, i, g);
    ghost var sub := DirsContributions(t, KeptSubdirs(t, d.subdirs));
    assert Contributions(t, d.(files := d.files[i := g])) == FilesContributions(t, before + [g] + after) + sub;
    assert Contributions(t, d.(files := before + after)) == FilesContributions(t, before + after) + sub;
  }

  lemma {:induction false} FilesContributionsAppend(t: Tables, a: seq<FileEntry>, b: seq<FileEntry>)
    ensures FilesContributions(t, a + b) == FilesContributions(t, a) + FilesContributions(t, b)
  {
    if b != [] {
      assert (a + b)[..|a + b| - 1] == a + b[..|b| - 1];
      FilesContributionsAppend(t, a, b[..|b| - 1]);
    } else {
      assert a + b == a;
    }
  }

  /**
   * Replacing one child by another of the same name changes nothing when the
   * child is pruned, and nothing either when the two add the same.
   */
  lemma {:induction false} ReplaceChild(t: Tables, ds: seq<Dir>, i: nat, e: Dir)
    requires i < |ds| && e.name == ds[i].name
    requires KeepDir(t, e.name) ==> Contributions(t, e) == Contributions(t, ds[i])
    ensures DirsContributions(t, KeptSubdirs(t, ds[i := e])) == DirsContributions(t, KeptSubdirs(t, ds))
  {
    var es := ds[i := e];
    assert es[1..] == if i == 0 then ds[1..] else ds[1..][i - 1 := e];
    if i > 0 {
      ReplaceChild(t, ds[1..], i - 1, e);
    }
    if KeepDir(t, ds[0].name) {
      assert KeptSubdirs(t, es) == [es[0]] + KeptSubdirs(t, es[1..]);
      assert KeptSubdirs(t, ds) == [ds[0]] + KeptSubdirs(t, ds[1..]);
      assert ([es[0]] + KeptSubdirs(t, es[1..]))[1..] == KeptSubdirs(t, es[1..]);
      assert ([ds[0]] + KeptSubdirs(t, ds[1..]))[1..] == KeptSubdirs(t, ds[1..]);
    }
  }

  /** A path of child positions from a directory down to one of its descendants. */
  predicate ValidPath(d: Dir, path: seq<nat>)
    decreases path
  {
    path == [] || (path[0] < |d.subdirs| && ValidPath(d.subdirs[path[0]], path[1..]))
  }

  /** The directory `path` leads to. */
  function At(d: Dir, path: seq<nat>): Dir
    requires ValidPath(d, path)
    decreases path
  {
    if path == [] then d else At(d.subdirs[path[0]], path[1..])
  }

  /** The tree with the directory at `path` replaced by `e`. */
  function ReplaceAt(d: Dir, path: seq<nat>, e: Dir): (r: Dir)
    requires ValidPath(d, path)
    ensures path != [] ==> r.name == d.name
    decreases path
  {
    if path == [] then e
    else d.(subdirs := d.subdirs[path[0] := ReplaceAt(d.subdirs[path[0]], path[1..], e)])
  }

  /**
   * Pruning reaches the whole subtree: whatever a pruned directory at any
   * depth holds, at any depth beneath it, the counts are the same.
   */
  lemma {:induction false} PrunedSubtreeIgnored(t: Tables, d: Dir, path: seq<nat>, e: Dir)
    requires path != [] && ValidPath(d, path)
    requires !KeepDir(t, At(d, path).name) && e.name == At(d, path).name
    ensures Contributions(t, ReplaceAt(d, path, e)) == Contributions(t, d)
    decreases path
  {
    var i := path[0];
    var child := d.subdirs[i];
    var newChild := ReplaceAt(child, path[1..], e);
    if path[1..] != [] {
      PrunedSubtreeIgnored(t, child, path[1..], e);
    }
    ReplaceChild(t, d.subdirs, i, newChild);
  }

  /** The directory handed to the walk is never itself pruned, whatever its name. */
  lemma RootNeverPruned(t: Tables, d: Dir, name: string)
    requires !KeepDir(t, name)
    ensures Contributions(t, d.(name := name)) == Contributions(t, d)
    ensures FilesContributions(t, d.files) <= Contributions(t, d.(name := name))
  {
  }

  /** Reordering the children gives the kept children in some other order. */
  lemma {:induction false} KeptSubdirsPermutation(t: Tables, a: seq<Dir>, b: seq<Dir>)
    requires multiset(a) == multiset(b)
    ensures multiset(KeptSubdirs(t, a)) == multiset(KeptSubdirs(t, b))
    decreases |a|
  {
    if a == [] {
      assert b == [];
    } else {
      var i := MatchLast(a, b);
      var front, x := a[..|a| - 1], a[|a| - 1];
      var before, after := b[..i], b[i + 1..];
      KeptSubdirsPermutation(t, front, before + after);
      assert a == front + [x];
      KeptSubdirsAppend(t, front, [x]);
      KeptSubdirsAppend(t, before + [x], after);
      KeptSubdirsAppend(t, before, [x]);
      KeptSubdirsAppend(t, before, after);
    }
  }

  /** Reordering a directory's files reorders what they add, and nothing more. */
  lemma {:induction false} FilesContributionsPermutation(t: Tables, a: seq<FileEntry>, b: seq<FileEntry>)
    requires multiset(a) == multiset(b)
    ensures multiset(FilesContributions(t, a)) == multiset(FilesContributions(t, b))
    decreases |a|
  {
    if a == [] {
      assert b == [];
    } else {
      var i := MatchLast(a, b);
      var front, x := a[..|a| - 1], a[|a| - 1];
      var before, after := b[..i], b[i + 1..];
      FilesContributionsPermutation(t, front, before + after);
      assert [x][..0] == [];
      FilesContributionsAppend(t, before + [x], after);
      FilesContributionsAppend(t, before, [x]);
      FilesContributionsAppend(t, before, after);
    }
  }

  /** Visiting sibling trees in another order reorders what they add, and nothing more. */
  lemma {:induction false} DirsContributionsPermutation(t: Tables, a: seq<Dir>, b: seq<Dir>)
    requires multiset(a) == multiset(b)
    ensures multiset(DirsContributions(t, a)) == multiset(DirsContributions(t, b))
    decreases |a|
  {
    if a == [] {
      assert b == [];
    } else {
      var i := MatchLast(a, b);
      var front, x := a[..|a| - 1], a[|a| - 1];
      var before, after := b[..i], b[i + 1..];
      DirsContributionsPermutation(t, front, before + after);
      assert a == front + [x];
      assert [x][1..] == [];
      DirsContributionsAppend(t, front, [x]);
      DirsContributionsAppend(t, before + [x], after);
      DirsContributionsAppend(t, before, [x]);
      DirsContributionsAppend(t, before, after);
    }
  }

  /**
   * Replacing one child by another of the same name whose tree adds the same
   * contributions in some order reorders what the children add, and nothing more.
   */
  lemma ReplaceChildPermuted(t: Tables, ds: seq<Dir>, i: nat, e: Dir)
    requires i < |ds| && e.name == ds[i].name
    requires multiset(Contributions(t, e)) == multiset(Contributions(t, ds[i]))
    ensures multiset(DirsContributions(t, KeptSubdirs(t, ds[i := e])))
         == multiset(DirsContributions(t, KeptSubdirs(t, ds)))
  {
    var before, after := ds[..i], ds[i + 1..];
    UpdateSplit(ds, i, e);
    KeptDirsAround(t, before, e, after);
    KeptDirsAround(t, before, ds[i], after);
    KeptSubdirsOne(t, e);
    KeptSubdirsOne(t, ds[i]);
    assert [e][1..] == [] && [ds[i]][1..] == [];
    SameMiddle(DirsContributions(t, KeptSubdirs(t, before)),
               DirsContributions(t, KeptSubdirs(t, [e])), DirsContributions(t, KeptSubdirs(t, [ds[i]])),
               DirsContributions(t, KeptSubdirs(t, after)));
  }

  /** An update at `i` splits into the part before, the new element and the part after. */
  lemma UpdateSplit<T>(s: seq<T>, i: nat, x: T)
    requires i < |s|
    ensures s[i := x] == s[..i] + [x] + s[i + 1..]
    ensures s == s[..i] + [s[i]] + s[i + 1..]
  {
  }

  lemma SameMiddle<T>(a: seq<T>, m: seq<T>, n: seq<T>, c: seq<T>)
    requires multiset(m) == multiset(n)
    ensures multiset(a + m + c) == multiset(a + n + c)
  {
  }

  /** What the kept children add, split around one child. */
  lemma KeptDirsAround(t: Tables, before: seq<Dir>, x: Dir, after: seq<Dir>)
    ensures DirsContributions(t, KeptSubdirs(t, before + [x] + after))
         == DirsContributions(t, KeptSubdirs(t, before)) + DirsContributions(t, KeptSubdirs(t, [x]))
            + DirsContributions(t, KeptSubdirs(t, after))
  {
    KeptSubdirsAppend(t, before + [x], after);
    KeptSubdirsAppend(t, before, [x]);
    DirsAround(t, KeptSubdirs(t, before), KeptSubdirs(t, [x]), KeptSubdirs(t, after));
  }

  /** What three runs of sibling trees add, one after the other. */
  lemma DirsAround(t: Tables, a: seq<Dir>, b: seq<Dir>, c: seq<Dir>)
    ensures DirsContributions(t, a + b + c) == DirsContributions(t, a) + DirsContributions(t, b) + DirsContributions(t, c)
  {
    DirsContributionsAppend(t, a + b, c);
    DirsContributionsAppend(t, a, b);
  }

  /**
   * A directory at any depth whose tree adds the same contributions in some
   * order can stand in for the original: the whole walk then adds the same
   * contributions in some order.
   */
  lemma {:induction false} ReorderedAt(t: Tables, d: Dir, path: seq<nat>, e: Dir)
    requires ValidPath(d, path) && e.name == At(d, path).name
    requires multiset(Contributions(t, e)) == multiset(Contributions(t, At(d, path)))
    ensures multiset(Contributions(t, ReplaceAt(d, path, e))) == multiset(Contributions(t, d))
    decreases path
  {
    if path != [] {
      var i := path[0];
      var child := d.subdirs[i];
      var newChild := ReplaceAt(child, path[1..], e);
      ReorderedAt(t, child, path[1..], e);
      ReplaceChildPermuted(t, d.subdirs, i, newChild);
    }
  }

  /**
   * The order in which the file system lists entries does not matter: listing
   * the files and the child directories of any directory in another order
   * leaves the walk's accumulator unchanged.
   */
  lemma ListingOrderIrrelevant(t: Tables, d: Dir, path: seq<nat>, files: seq<FileEntry>, subdirs: seq<Dir>)
    requires ValidPath(d, path)
    requires multiset(files) == multiset(At(d, path).files)
    requires multiset(subdirs) == multiset(At(d, path).subdirs)
    ensures Tally(Contributions(t, ReplaceAt(d, path, At(d, path).(files := files, subdirs := subdirs))))
         == Tally(Contributions(t, d))
  {
    var x := At(d, path);
    var e := x.(files := files, subdirs := subdirs);
    FilesContributionsPermutation(t, files, x.files);
    KeptSubdirsPermutation(t, subdirs, x.subdirs);
    DirsContributionsPermutation(t, KeptSubdirs(t, subdirs), KeptSubdirs(t, x.subdirs));
    assert multiset(Contributions(t, e)) == multiset(Contributions(t, x));
    ReorderedAt(t, d, path, e);
    TallyPermutation(Contributions(t, ReplaceAt(d, path, e)), Contributions(t, d));
  }
}
