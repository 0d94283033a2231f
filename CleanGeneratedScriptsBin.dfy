/**
 * The cleanup script that deletes generated sources: every candidate file
 * whose bytes contain the generated-file header anywhere is unlinked, and then
 * the folders of the internal candidates that are left empty are removed.
 */
module CleanGeneratedScriptsBin {
  import opened Strings
  import opened Utf8
  import opened Paths
  import opened OrderedMaps
  import opened Globs
  import opened FileSystems

  /** The extensions of the scripts the cleanup can detect. */
  const EXTENSIONS: seq<string> := ["cjs", "d.ts", "js", "jsonc", "json5", "mjs", "ts"]

  /**
   * What the first glob returns: files at any depth below "src" with one of the
   * extensions, outside test folders and not matched by the internal glob.
   */
  predicate ExternalSource(p: string) {
    UnderSrc(p, EXTENSIONS) && !InFolder(p, "__tests__") && !UnderSrcInternal(p, EXTENSIONS)
  }

  /** What the second glob returns: files with one of the extensions inside an internal folder, outside test folders. */
  predicate InternalSource(p: string) {
    UnderSrcInternal(p, EXTENSIONS) && !InFolder(p, "__tests__")
  }

  /** A file is generated when the header bytes occur somewhere in its contents. */
  predicate Generated(header: seq<byte>, contents: seq<byte>) {
    exists i :: 0 <= i <= |contents| && OccursAt(contents, header, i)
  }

  /** The test `Generated` as the function value deletion is specified with. */
  function Detector(header: seq<byte>): (isGenerated: seq<byte> -> bool)
    ensures forall c :: isGenerated(c) == Generated(header, c)
  {
    c => Generated(header, c)
  }

  /** `isGeneratedScript`: the size test, then a search for the header in the file. */
  method IsGeneratedScript(fs: FileSystem, header: seq<byte>, p: string) returns (generated: bool)
    requires p in fs.files
    ensures generated == Generated(header, fs.files[p])
  {
    var size := fs.Size(p);
    if size < |header| {
      ShortNeverGenerated(header, fs.files[p]);
      return false;
    }
    var buffer := fs.ReadFile(p);
    var headerIndex := IndexOf(buffer, header, 0);
    if headerIndex < 0 {
      return false;
    }
    return true;
  }

  /**
   * `deleteGeneratedScripts`: each listed file that is generated is unlinked.
   * The glob lists every file once, so each is still there when its turn comes.
   */
  method DeleteGeneratedScripts(fs: FileSystem, header: seq<byte>, paths: seq<string>)
    requires fs.Valid() && Distinct(paths)
    requires forall i :: 0 <= i < |paths| ==> paths[i] in fs.files
    modifies fs
    ensures fs.Valid() && fs.dirs == old(fs.dirs)
    ensures fs.files == Cleaned(old(fs.files), Detector(header), paths)
  {
    for i := 0 to |paths|
      invariant fs.Valid() && fs.dirs == old(fs.dirs)
      invariant fs.files == Cleaned(old(fs.files), Detector(header), paths[..i])
    {
      var p := paths[i];
      assert p !in paths[..i];
      CleanedSnoc(old(fs.files), Detector(header), paths[..i], p);
      var isGenerated := IsGeneratedScript(fs, header, p);
      if isGenerated {
        fs.Unlink(p);
      }
      assert paths[..i + 1] == paths[..i] + [p];
    }
    assert paths[..|paths|] == paths;
  }

  /** The folders of `paths` in the order a `Set` first meets them. */
  function Parents(paths: seq<string>): seq<string>
    decreases |paths|
  {
    if |paths| == 0 then []
    else
      var front := Parents(paths[..|paths| - 1]);
      var d := Dirname(paths[|paths| - 1]);
      if d in front then front else front + [d]
  }

  /** `deleteEmptyParentFolders`, first loop: the set of the paths' folders. */
  method CollectParents(paths: seq<string>) returns (dirPaths: seq<string>)
    ensures dirPaths == Parents(paths)
  {
    dirPaths := [];
    for i := 0 to |paths|
      invariant dirPaths == Parents(paths[..i])
    {
      var d := Dirname(paths[i]);
      assert paths[..i + 1][..i] == paths[..i];
      if d !in dirPaths {
        dirPaths := dirPaths + [d];
      }
    }
    assert paths[..|paths|] == paths;
  }

  /** The folders of `paths` that hold no entry in the given listing: the ones the cleanup removes. */
  function EmptyParents(files: map<string, seq<byte>>, dirs: set<string>, paths: seq<string>): set<string> {
    set p | p in paths && !HasEntriesIn(files, dirs, Dirname(p)) :: Dirname(p)
  }

  /**
   * `deleteEmptyParentFolders`: every folder is listed before any is removed
   * (each `readdir` is issued before the first `rmdir` can run), and the
   * folders found empty are removed. A folder that becomes empty only
   * because one of these was removed stays.
   */
  method DeleteEmptyParentFolders(fs: FileSystem, paths: seq<string>)
    requires fs.Valid()
    requires forall p :: p in paths ==> Dirname(p) in fs.dirs && Dirname(p) != "."
    modifies fs
    ensures fs.Valid() && fs.files == old(fs.files)
    ensures fs.dirs == old(fs.dirs) - EmptyParents(old(fs.files), old(fs.dirs), paths)
  {
    var dirPaths := CollectParents(paths);
    ParentsMembers(paths);
    ParentsDistinct(paths);
    var empty := ListEmptiness(fs, dirPaths);
    RemoveEmpty(fs, dirPaths, empty);
    RemovedEmptyParents(old(fs.files), old(fs.dirs), paths, dirPaths, empty);
  }

  /** The `readdir` of every folder, issued before any folder is removed. */
  method ListEmptiness(fs: FileSystem, dirPaths: seq<string>) returns (empty: seq<bool>)
    requires forall d :: d in dirPaths ==> d in fs.dirs
    ensures |empty| == |dirPaths|
    ensures forall j :: 0 <= j < |dirPaths| ==> empty[j] == !HasEntriesIn(fs.files, fs.dirs, dirPaths[j])
  {
    empty := [];
    for i := 0 to |dirPaths|
      invariant |empty| == i
      invariant forall j :: 0 <= j < i ==> empty[j] == !HasEntriesIn(fs.files, fs.dirs, dirPaths[j])
    {
      var e := fs.IsEmptyDir(dirPaths[i]);
      empty := empty + [e];
    }
  }

  /** The `rmdir` of every folder the listing found empty. */
  method RemoveEmpty(fs: FileSystem, dirPaths: seq<string>, empty: seq<bool>)
    requires fs.Valid() && Distinct(dirPaths) && |empty| == |dirPaths|
    requires forall d :: d in dirPaths ==> d in fs.dirs && d != "."
    requires forall j :: 0 <= j < |dirPaths| && empty[j] ==> !HasEntriesIn(fs.files, fs.dirs, dirPaths[j])
    modifies fs
    ensures fs.Valid() && fs.files == old(fs.files)
    ensures fs.dirs == old(fs.dirs) - Removed(dirPaths, empty, |dirPaths|)
  {
    for i := 0 to |dirPaths|
      invariant fs.Valid() && fs.files == old(fs.files)
      invariant fs.dirs == old(fs.dirs) - Removed(dirPaths, empty, i)
    {
      if empty[i] {
        var d := dirPaths[i];
        RemovedBefore(dirPaths, empty, i);
        EntriesOfFewerDirs(fs.files, fs.dirs, old(fs.dirs), d);
        fs.Rmdir(d);
      }
    }
  }

  /** The folders among the first `i` of `dirPaths` that were found empty. */
  function Removed(dirPaths: seq<string>, empty: seq<bool>, i: nat): set<string>
    requires i <= |dirPaths| == |empty|
  {
    if i == 0 then {}
    else Removed(dirPaths, empty, i - 1) + (if empty[i - 1] then {dirPaths[i - 1]} else {})
  }

  /**
   * The script: glob the external and the internal sources, delete the
   * generated ones, then remove the internal folders left empty. The script
   * passes `GENERATED_HEADER_BUFFER` as `header`.
   */
  method Run(fs: FileSystem, header: seq<byte>, external: seq<string>, internal: seq<string>)
    requires fs.Valid()
    requires GlobResult(fs.files.Keys, ExternalSource, external)
    requires GlobResult(fs.files.Keys, InternalSource, internal)
    modifies fs
    ensures fs.Valid()
    ensures fs.files == Cleaned(old(fs.files), Detector(header), external + internal)
    ensures fs.dirs == old(fs.dirs) - EmptyParents(fs.files, old(fs.dirs), internal)
  {
    CandidatesDistinct(fs.files.Keys, external, internal);
    InternalFoldersExist(fs.files, fs.dirs, internal);
    var sourceFilePaths := external + internal;
    DeleteGeneratedScripts(fs, header, sourceFilePaths);
    DeleteEmptyParentFolders(fs, internal);
  }

  // ---------------------------------------------------------------------------
  // Properties.

  /** A file shorter than the header is never generated. */
  lemma ShortNeverGenerated(header: seq<byte>, contents: seq<byte>)
    requires |contents| < |header|
    ensures !Generated(header, contents)
  {
  }

  /** The external glob ignores every internal path, so no candidate is listed twice. */
  lemma CandidatesDistinct(files: set<string>, external: seq<string>, internal: seq<string>)
    requires GlobResult(files, ExternalSource, external)
    requires GlobResult(files, InternalSource, internal)
    ensures Distinct(external + internal)
    ensures forall p :: p in external + internal <==> p in files && (ExternalSource(p) || InternalSource(p))
  {
    var all := external + internal;
    forall i, j | 0 <= i < j < |all|
      ensures all[i] != all[j]
    {
      if i < |external| && j >= |external| {
        assert all[i] in external && all[j] in internal;
      } else if j >= |external| {
        assert all[i] == internal[i - |external|] && all[j] == internal[j - |external|];
      }
    }
  }

  /** Each internal candidate's folder exists and is not the working directory. */
  lemma InternalFoldersExist(files: map<string, seq<byte>>, dirs: set<string>, internal: seq<string>)
    requires Tree(files, dirs)
    requires GlobResult(files.Keys, InternalSource, internal)
    ensures forall p :: p in internal ==> Dirname(p) in dirs && Dirname(p) != "."
  {
    forall p | p in internal
      ensures Dirname(p) in dirs && Dirname(p) != "."
    {
      SourceFolder(p, EXTENSIONS);
    }
  }

  /** The set of folders holds each folder of `paths` once, and nothing else. */
  lemma {:induction false} ParentsMembers(paths: seq<string>)
    ensures forall d :: d in Parents(paths) <==> exists p :: p in paths && Dirname(p) == d
    decreases |paths|
  {
    if |paths| > 0 {
      var front := paths[..|paths| - 1];
      ParentsMembers(front);
      assert paths == front + [paths[|paths| - 1]];
    }
  }

  /** A folder in the set is the folder of one of the paths. */
  lemma ParentWitness(paths: seq<string>, d: string) returns (p: string)
    requires d in Parents(paths)
    ensures p in paths && Dirname(p) == d
  {
    ParentsMembers(paths);
    p :| p in paths && Dirname(p) == d;
  }

  /** Only folders before index `i` have been removed, and they are all different from the one at `i`. */
  lemma {:induction false} RemovedBefore(dirPaths: seq<string>, empty: seq<bool>, i: nat)
    requires i < |dirPaths| == |empty| && Distinct(dirPaths)
    ensures dirPaths[i] !in Removed(dirPaths, empty, i)
  {
    RemovedBelow(dirPaths, empty, i, i);
  }

  /** No folder before index `k` repeats the one at `i`. */
  lemma {:induction false} RemovedBelow(dirPaths: seq<string>, empty: seq<bool>, i: nat, k: nat)
    requires k <= i < |dirPaths| == |empty| && Distinct(dirPaths)
    ensures dirPaths[i] !in Removed(dirPaths, empty, k)
    decreases k
  {
    if k > 0 {
      RemovedBelow(dirPaths, empty, i, k - 1);
    }
  }

  /** The folders found empty, over the whole set, are the empty parents. */
  lemma RemovedEmptyParents(files: map<string, seq<byte>>, dirs: set<string>, paths: seq<string>,
                            dirPaths: seq<string>, empty: seq<bool>)
    requires forall d :: d in dirPaths <==> exists p :: p in paths && Dirname(p) == d
    requires |empty| == |dirPaths|
    requires forall j :: 0 <= j < |dirPaths| ==> empty[j] == !HasEntriesIn(files, dirs, dirPaths[j])
    ensures Removed(dirPaths, empty, |dirPaths|) == EmptyParents(files, dirs, paths)
  {
    EmptyParentsRemoved(files, dirs, paths, dirPaths, empty);
    RemovedAreEmptyParents(files, dirs, paths, dirPaths, empty);
  }

  /** Every folder of `paths` found empty is removed. */
  lemma EmptyParentsRemoved(files: map<string, seq<byte>>, dirs: set<string>, paths: seq<string>,
                            dirPaths: seq<string>, empty: seq<bool>)
    requires forall d :: d in dirPaths <==> exists p :: p in paths && Dirname(p) == d
    requires |empty| == |dirPaths|
    requires forall j :: 0 <= j < |dirPaths| ==> empty[j] == !HasEntriesIn(files, dirs, dirPaths[j])
    ensures EmptyParents(files, dirs, paths) <= Removed(dirPaths, empty, |dirPaths|)
  {
    RemovedMembers(dirPaths, empty, |dirPaths|);
    forall d | d in EmptyParents(files, dirs, paths)
      ensures d in Removed(dirPaths, empty, |dirPaths|)
    {
      var p :| p in paths && !HasEntriesIn(files, dirs, Dirname(p)) && Dirname(p) == d;
      assert d in dirPaths;
      var j :| 0 <= j < |dirPaths| && dirPaths[j] == d;
      assert empty[j];
    }
  }

  /** Every removed folder is the folder of one of `paths` and was found empty. */
  lemma RemovedAreEmptyParents(files: map<string, seq<byte>>, dirs: set<string>, paths: seq<string>,
                               dirPaths: seq<string>, empty: seq<bool>)
    requires forall d :: d in dirPaths <==> exists p :: p in paths && Dirname(p) == d
    requires |empty| == |dirPaths|
    requires forall j :: 0 <= j < |dirPaths| ==> empty[j] == !HasEntriesIn(files, dirs, dirPaths[j])
    ensures Removed(dirPaths, empty, |dirPaths|) <= EmptyParents(files, dirs, paths)
  {
    RemovedMembers(dirPaths, empty, |dirPaths|);
    forall d | d in Removed(dirPaths, empty, |dirPaths|)
      ensures d in EmptyParents(files, dirs, paths)
    {
      var j :| 0 <= j < |dirPaths| && empty[j] && dirPaths[j] == d;
      assert d in dirPaths;
      var p :| p in paths && Dirname(p) == d;
    }
  }

  /** A folder is removed by step `i` exactly when it comes before `i` and was found empty. */
  lemma {:induction false} RemovedMembers(dirPaths: seq<string>, empty: seq<bool>, i: nat)
    requires i <= |dirPaths| == |empty|
    ensures forall d :: d in Removed(dirPaths, empty, i) <==> exists j :: 0 <= j < i && empty[j] && dirPaths[j] == d
  {
    if i > 0 {
      RemovedMembers(dirPaths, empty, i - 1);
    }
  }

  /** The set of folders has no repeats. */
  lemma {:induction false} ParentsDistinct(paths: seq<string>)
    ensures Distinct(Parents(paths))
    decreases |paths|
  {
    if |paths| > 0 {
      ParentsDistinct(paths[..|paths| - 1]);
    }
  }

  /** Removing folders can only empty a folder, never fill one. */
  lemma EntriesOfFewerDirs(files: map<string, seq<byte>>, dirs: set<string>, dirs0: set<string>, d: string)
    requires dirs <= dirs0 && !HasEntriesIn(files, dirs0, d)
    ensures !HasEntriesIn(files, dirs, d)
  {
  }
}
