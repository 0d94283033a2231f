/**
 * The part of the file system the cleanup scripts touch, in memory: files
 * with their bytes, and folders. `stat`, `readFile`, `readdir`, `unlink` and
 * `rmdir` become members; the paths are relative, `/`-separated and
 * normalised, and a file or folder lives in the folder `Dirname` names.
 */
module FileSystems {
  import opened Utf8
  import opened Paths

  /** The folder `d` is not empty: some file, or some other folder, lies directly inside it. */
  predicate HasEntriesIn(files: map<string, seq<byte>>, dirs: set<string>, d: string) {
    (exists p :: p in files && Dirname(p) == d) || (exists q :: q in dirs && q != d && Dirname(q) == d)
  }

  /** The working directory "." exists, and so does the folder of every file and folder. */
  predicate Tree(files: map<string, seq<byte>>, dirs: set<string>) {
    "." in dirs
    && (forall p :: p in files ==> Dirname(p) in dirs)
    && (forall q :: q in dirs ==> Dirname(q) in dirs)
  }

  /**
   * The files left after every path of `paths` whose contents `isGenerated`
   * accepts is unlinked: the other files keep their contents.
   */
  function Cleaned(files: map<string, seq<byte>>, isGenerated: seq<byte> -> bool, paths: seq<string>)
    : map<string, seq<byte>>
  {
    map p | p in files && !(p in paths && isGenerated(files[p])) :: files[p]
  }

  class FileSystem {
    var files: map<string, seq<byte>>
    var dirs: set<string>

    /** The files and folders form a tree. */
    ghost predicate Valid()
      reads this
    {
      Tree(files, dirs)
    }

    constructor (files: map<string, seq<byte>>, dirs: set<string>)
      ensures this.files == files && this.dirs == dirs
    {
      this.files := files;
      this.dirs := dirs;
    }

    /** `stat(p).size`. */
    method Size(p: string) returns (size: nat)
      requires p in files
      ensures size == |files[p]|
    {
      size := |files[p]|;
    }

    /** `readFile(p)`. */
    method ReadFile(p: string) returns (contents: seq<byte>)
      requires p in files
      ensures contents == files[p]
    {
      contents := files[p];
    }

    /** `readdir(d).length <= 0`: the folder has no entry. */
    method IsEmptyDir(d: string) returns (empty: bool)
      requires d in dirs
      ensures empty == !HasEntriesIn(files, dirs, d)
    {
      empty := !HasEntriesIn(files, dirs, d);
    }

    /** `unlink(p)`. */
    method Unlink(p: string)
      requires Valid() && p in files
      modifies this
      ensures Valid()
      ensures files == old(files) - {p} && dirs == old(dirs)
    {
      RemoveFileKeepsTree(files, dirs, p);
      files := files - {p};
    }

    /** `rmdir(d)` on an empty folder. */
    method Rmdir(d: string)
      requires Valid() && d in dirs && d != "." && !HasEntriesIn(files, dirs, d)
      modifies this
      ensures Valid()
      ensures dirs == old(dirs) - {d} && files == old(files)
    {
      RemoveEmptyDirKeepsTree(files, dirs, d);
      dirs := dirs - {d};
    }
  }

  // ---------------------------------------------------------------------------
  // Properties.

  /** Removing a file keeps the tree a tree. */
  lemma RemoveFileKeepsTree(files: map<string, seq<byte>>, dirs: set<string>, p: string)
    requires Tree(files, dirs)
    ensures Tree(files - {p}, dirs)
  {
  }

  /** Removing a folder keeps the tree a tree exactly when nothing lies inside it, or it is "." . */
  lemma RemoveEmptyDirKeepsTree(files: map<string, seq<byte>>, dirs: set<string>, d: string)
    requires Tree(files, dirs) && d in dirs && d != "."
    ensures Tree(files, dirs - {d}) <==> !HasEntriesIn(files, dirs, d)
  {
    if !HasEntriesIn(files, dirs, d) {
      forall q | q in dirs - {d}
        ensures Dirname(q) in dirs - {d}
      {
        assert Dirname(q) != d;
      }
    } else if p :| p in files && Dirname(p) == d {
      assert !Tree(files, dirs - {d});
    } else {
      var q :| q in dirs && q != d && Dirname(q) == d;
      assert q in dirs - {d};
    }
  }

  /** Cleaning unlinks exactly the listed paths whose contents are generated; nothing else changes. */
  lemma CleanedExactly(files: map<string, seq<byte>>, isGenerated: seq<byte> -> bool, paths: seq<string>)
    ensures forall p :: p in files && p !in Cleaned(files, isGenerated, paths) <==>
      p in files && p in paths && isGenerated(files[p])
    ensures forall p :: p in Cleaned(files, isGenerated, paths) ==>
      p in files && Cleaned(files, isGenerated, paths)[p] == files[p]
  {
  }

  /** Cleaning twice with the same paths is the same as cleaning once. */
  lemma CleanedIdempotent(files: map<string, seq<byte>>, isGenerated: seq<byte> -> bool, paths: seq<string>)
    ensures Cleaned(Cleaned(files, isGenerated, paths), isGenerated, paths) == Cleaned(files, isGenerated, paths)
  {
    var once := Cleaned(files, isGenerated, paths);
    var twice := Cleaned(once, isGenerated, paths);
    assert forall p :: p in twice <==> p in once;
  }

  /** Cleaning one more path extends the cleaning of the earlier ones. */
  lemma CleanedSnoc(files: map<string, seq<byte>>, isGenerated: seq<byte> -> bool, paths: seq<string>, p: string)
    requires p in files && p !in paths
    ensures var before := Cleaned(files, isGenerated, paths);
      p in before && before[p] == files[p]
      && Cleaned(files, isGenerated, paths + [p])
         == if isGenerated(files[p]) then before - {p} else before
  {
    var before := Cleaned(files, isGenerated, paths);
    var after := Cleaned(files, isGenerated, paths + [p]);
    if isGenerated(files[p]) {
      assert forall q :: q in after <==> q in before - {p};
    } else {
      assert forall q :: q in after <==> q in before;
    }
  }
}
