/**
 * The entry map of the library build (config/build/rollup.config.mjs): Rollup
 * is given a plain object that maps entry names to source files.
 * `setEntryValue` writes one entry into such an object, `loadInputs` fills a
 * new object from the source files a glob found, and `mergeInputs` combines
 * several objects, each later entry winning.
 *
 * The object is a plain `{}`, so reading a key it does not own falls through
 * to `Object.prototype`: a key such as "constructor" or "toString" reads as a
 * (truthy) inherited function, and assigning to "__proto__" on an object
 * that does not own that key goes to the inherited setter, which ignores a
 * string. Both are part of the model.
 */
module BuildRollupConfig {
  import opened Wrappers
  import opened Strings
  import opened OrderedMaps
  import opened Paths
  import opened Globs
  import Json

  /** An entry object: entry names to source file paths, in insertion order. */
  type Entries = OrderedMap<string, string>

  /** The inherited accessor whose setter ignores anything but an object. */
  const PROTO: string := "__proto__"

  /** What `input[key]` reads: an own value, an inherited member, or `undefined`. */
  datatype Lookup = Own(value: string) | Inherited | Undefined

  function LookUp(m: Entries, key: string): Lookup {
    if m.Has(key) then Own(m.values[key])
    else if key in Json.ObjectPrototypeMembers() then Inherited
    else Undefined
  }

  /** JavaScript truthiness of what was read: inherited members are functions or objects. */
  predicate Truthy(l: Lookup) {
    l.Inherited? || (l.Own? && l.value != "")
  }

  /** Whether `input[key] = value` stores anything. */
  predicate Settable(m: Entries, key: string) {
    key != PROTO || m.Has(key)
  }

  /**
   * `input[key] = value`: the key takes the value, in place if it is already
   * there and last otherwise, and every other key keeps its value.
   */
  function Store(m: Entries, key: string, value: string): (r: Entries)
    requires m.Valid()
    ensures r.Valid()
    ensures Settable(m, key) ==> r.Get(key) == Some(value)
    ensures Settable(m, key) ==> r.keys == if key in m.keys then m.keys else m.keys + [key]
    ensures !Settable(m, key) ==> r == m
    ensures forall k :: k != key ==> r.Get(k) == m.Get(k)
  {
    if Settable(m, key) then m.Set(key, value) else m
  }

  /** A `console.warn` of `setEntryValue`: the key, what it held and what replaces it. */
  datatype Warning = Warning(key: string, previous: Lookup, value: string)

  /** The warning `setEntryValue(input, key, value)` gives, if any. */
  function WarningOf(m: Entries, key: string, value: string): (w: Option<Warning>)
    ensures w.Some? <==> (m.Has(key) && m.Get(key) != Some("")) || (!m.Has(key) && key in Json.ObjectPrototypeMembers())
    ensures w.Some? ==> w.value == Warning(key, LookUp(m, key), value)
  {
    if Truthy(LookUp(m, key)) then Some(Warning(key, LookUp(m, key), value)) else None
  }

  function Listed(w: Option<Warning>): seq<Warning> {
    match w
    case Some(x) => [x]
    case None => []
  }

  /** An entry object that the scripts update in place. */
  class EntryMap {
    var entries: Entries

    /** `{}` */
    constructor ()
      ensures entries == Empty()
    {
      entries := Empty();
    }

    /** `{ ...source }`: a new object with the same own entries in the same order. */
    constructor Copy(source: Entries)
      ensures entries == source
    {
      entries := source;
    }

    /** `setEntryValue(this, key, value)`: warn when the key already reads as truthy, then store. */
    method SetEntryValue(key: string, value: string) returns (warning: Option<Warning>)
      requires entries.Valid()
      modifies this
      ensures entries == Store(old(entries), key, value)
      ensures warning == WarningOf(old(entries), key, value)
    {
      warning := WarningOf(entries, key, value);
      entries := Store(entries, key, value);
    }
  }

  // ---------------------------------------------------------------------------
  // A run of `setEntryValue` calls.

  /** The object after storing the pairs `ps` in order, starting from `m`. */
  function Fold(m: Entries, ps: seq<(string, string)>): (r: Entries)
    requires m.Valid()
    ensures r.Valid()
    decreases |ps|
  {
    if |ps| == 0 then m
    else Store(Fold(m, ps[..|ps| - 1]), ps[|ps| - 1].0, ps[|ps| - 1].1)
  }

  /** The warnings of the same run, in order. */
  function Warnings(m: Entries, ps: seq<(string, string)>): seq<Warning>
    requires m.Valid()
    decreases |ps|
  {
    if |ps| == 0 then []
    else
      var front := ps[..|ps| - 1];
      Warnings(m, front) + Listed(WarningOf(Fold(m, front), ps[|ps| - 1].0, ps[|ps| - 1].1))
  }

  /** One more `setEntryValue` call extends the run by one pair. */
  lemma FoldStep(m: Entries, ps: seq<(string, string)>, i: nat)
    requires m.Valid() && i < |ps|
    ensures Fold(m, ps[..i + 1]) == Store(Fold(m, ps[..i]), ps[i].0, ps[i].1)
    ensures Warnings(m, ps[..i + 1]) == Warnings(m, ps[..i]) + Listed(WarningOf(Fold(m, ps[..i]), ps[i].0, ps[i].1))
  {
    assert ps[..i + 1][..i] == ps[..i];
  }

  /** The value of the last pair with key `k`. */
  function LastOf(ps: seq<(string, string)>, k: string): Option<string>
    decreases |ps|
  {
    if |ps| == 0 then None
    else if ps[|ps| - 1].0 == k then Some(ps[|ps| - 1].1)
    else LastOf(ps[..|ps| - 1], k)
  }

  /** The value of `k` in the last object that owns it. */
  function LastGet(ms: seq<Entries>, k: string): Option<string>
    decreases |ms|
  {
    if |ms| == 0 then None
    else if ms[|ms| - 1].Has(k) then ms[|ms| - 1].Get(k)
    else LastGet(ms[..|ms| - 1], k)
  }

  /** Storing twice under one key is storing the second value: the last write wins. */
  lemma StoreLastWins(m: Entries, key: string, v: string, w: string)
    requires m.Valid()
    ensures Store(Store(m, key, v), key, w) == Store(m, key, w)
  {
    if Settable(m, key) {
      SetOverwrites(m, key, v, w);
    }
  }

  /** Replacing a non-empty value warns, and the warning names the value replaced. */
  lemma SecondWriteWarns(m: Entries, key: string, v: string, w: string)
    requires m.Valid() && Settable(m, key) && v != ""
    ensures WarningOf(Store(m, key, v), key, w) == Some(Warning(key, Own(v), w))
  {
  }

  /** Whether a key can be stored does not change along a run. */
  lemma {:induction false} FoldSettable(m: Entries, ps: seq<(string, string)>, k: string)
    requires m.Valid()
    ensures Settable(Fold(m, ps), k) == Settable(m, k)
    decreases |ps|
  {
    if |ps| > 0 {
      FoldSettable(m, ps[..|ps| - 1], k);
    }
  }

  /** After a run, a storable key holds the value of its last pair, and any other key is as before. */
  lemma {:induction false} FoldGet(m: Entries, ps: seq<(string, string)>, k: string)
    requires m.Valid()
    ensures Fold(m, ps).Get(k) == if Settable(m, k) && LastOf(ps, k).Some? then LastOf(ps, k) else m.Get(k)
    decreases |ps|
  {
    if |ps| > 0 {
      FoldGet(m, ps[..|ps| - 1], k);
      FoldSettable(m, ps[..|ps| - 1], k);
    }
  }

  /** `LastOf` finds a pair exactly when there is one, and what it finds is one of the pairs. */
  lemma {:induction false} LastOfSome(ps: seq<(string, string)>, k: string)
    ensures LastOf(ps, k).Some? <==> exists j :: 0 <= j < |ps| && ps[j].0 == k
    ensures LastOf(ps, k).Some? ==> exists j :: 0 <= j < |ps| && ps[j] == (k, LastOf(ps, k).value)
    decreases |ps|
  {
    if |ps| > 0 {
      var front := ps[..|ps| - 1];
      LastOfSome(front, k);
      assert forall j :: 0 <= j < |front| ==> front[j] == ps[j];
      if LastOf(front, k).Some? && ps[|ps| - 1].0 != k {
        var j :| 0 <= j < |front| && front[j] == (k, LastOf(front, k).value);
        assert ps[j] == (k, LastOf(ps, k).value);
      }
    }
  }

  /** The last pair with key `k` gives the value. */
  lemma {:induction false} LastOfAt(ps: seq<(string, string)>, k: string, i: nat)
    requires i < |ps| && ps[i].0 == k
    requires forall j :: i < j < |ps| ==> ps[j].0 != k
    ensures LastOf(ps, k) == Some(ps[i].1)
    decreases |ps|
  {
    if i < |ps| - 1 {
      LastOfAt(ps[..|ps| - 1], k, i);
    }
  }

  /** Iterating an object's entries and keeping the last value per key gives the object back. */
  lemma EntriesLastOf(m: Entries, k: string)
    requires m.Valid()
    ensures LastOf(m.Entries(), k) == m.Get(k)
  {
    var es := m.Entries();
    if k in m.keys {
      var i := IndexOfKey(m.keys, k);
      forall j | i < j < |es| ensures es[j].0 != k {
        assert es[j].0 == m.keys[j];
      }
      LastOfAt(es, k, i);
    } else {
      LastOfSome(es, k);
      assert forall j :: 0 <= j < |es| ==> es[j].0 == m.keys[j];
    }
  }

  /** A run whose keys are all different and all read as falsy beforehand warns nowhere. */
  lemma {:induction false} DistinctKeysNoWarnings(m: Entries, ps: seq<(string, string)>)
    requires m.Valid()
    requires forall i, j :: 0 <= i < j < |ps| ==> ps[i].0 != ps[j].0
    requires forall j :: 0 <= j < |ps| ==> !Truthy(LookUp(m, ps[j].0))
    ensures Warnings(m, ps) == []
    decreases |ps|
  {
    if |ps| > 0 {
      var front := ps[..|ps| - 1];
      var k := ps[|ps| - 1].0;
      DistinctKeysNoWarnings(m, front);
      LastOfSome(front, k);
      FoldGet(m, front, k);
      assert Fold(m, front).Get(k) == m.Get(k);
    }
  }

  /** The warnings of a run start with the warnings of any of its prefixes. */
  lemma {:induction false} WarningsPrefix(m: Entries, ps: seq<(string, string)>, n: nat)
    requires m.Valid() && n <= |ps|
    ensures |Warnings(m, ps[..n])| <= |Warnings(m, ps)|
    decreases |ps|
  {
    if n < |ps| {
      assert ps[..|ps| - 1][..n] == ps[..n];
      WarningsPrefix(m, ps[..|ps| - 1], n);
    } else {
      assert ps[..n] == ps;
    }
  }

  // ---------------------------------------------------------------------------
  // loadInputs

  /**
   * How `loadInputs(baseInputPath)` names the entry of a source file: the path
   * relative to the base, with the part `extname` reports cut off.
   */
  function EntryName(cwd: seq<string>, baseInputPath: string, sourceFilePath: string): string {
    Relative(cwd, baseInputPath, sourceFilePath[..|sourceFilePath| - |Extname(sourceFilePath)|])
  }

  /**
   * The absolute path `fileURLToPath(new URL("../../" + p, import.meta.url))`
   * gives: the configuration sits two folders below the project folder.
   */
  function FilePath(projectDir: string, sourceFilePath: string): (f: string)
    ensures |f| > 0
  {
    projectDir + "/" + sourceFilePath
  }

  /** `EntryName` for one base folder, as a function of the source file. */
  function Naming(cwd: seq<string>, baseInputPath: string): (naming: string -> string)
    ensures forall p :: naming(p) == EntryName(cwd, baseInputPath, p)
  {
    p => EntryName(cwd, baseInputPath, p)
  }

  /** `FilePath` for one project folder, as a function of the source file. */
  function Locating(projectDir: string): (locating: string -> string)
    ensures forall p :: locating(p) == FilePath(projectDir, p)
  {
    p => FilePath(projectDir, p)
  }

  /** The entries `loadInputs` stores, one per source file, in the glob's order. */
  function Pairs(naming: string -> string, locating: string -> string, sourceFilePaths: seq<string>): (ps: seq<(string, string)>)
    ensures |ps| == |sourceFilePaths|
    ensures forall i :: 0 <= i < |ps| ==> ps[i] == (naming(sourceFilePaths[i]), locating(sourceFilePaths[i]))
  {
    seq(|sourceFilePaths|, i requires 0 <= i < |sourceFilePaths| => (naming(sourceFilePaths[i]), locating(sourceFilePaths[i])))
  }

  /** `loadInputs(baseInputPath)` over the files its glob returned. */
  method LoadInputs(cwd: seq<string>, projectDir: string, baseInputPath: string, sourceFilePaths: seq<string>)
    returns (inputs: EntryMap, warnings: seq<Warning>)
    ensures fresh(inputs)
    ensures inputs.entries == Fold(Empty(), Pairs(Naming(cwd, baseInputPath), Locating(projectDir), sourceFilePaths))
    ensures warnings == Warnings(Empty(), Pairs(Naming(cwd, baseInputPath), Locating(projectDir), sourceFilePaths))
  {
    ghost var ps := Pairs(Naming(cwd, baseInputPath), Locating(projectDir), sourceFilePaths);
    inputs := new EntryMap();
    warnings := [];
    for i := 0 to |sourceFilePaths|
      invariant inputs.entries == Fold(Empty(), ps[..i])
      invariant warnings == Warnings(Empty(), ps[..i])
    {
      var entryName := EntryName(cwd, baseInputPath, sourceFilePaths[i]);
      var filePath := FilePath(projectDir, sourceFilePaths[i]);
      var warning := inputs.SetEntryValue(entryName, filePath);
      FoldStep(Empty(), ps, i);
      warnings := warnings + Listed(warning);
    }
    assert ps[..|sourceFilePaths|] == ps;
  }

  /**
   * The entries of a load: every entry name except "__proto__" is a key, its
   * value is the file path of the last source file with that name, and
   * nothing else is a key.
   */
  lemma LoadedGet(naming: string -> string, locating: string -> string, sourceFilePaths: seq<string>, k: string)
    ensures var ps := Pairs(naming, locating, sourceFilePaths);
      Fold(Empty(), ps).Get(k) == if k != PROTO then LastOf(ps, k) else None
  {
    FoldGet(Empty(), Pairs(naming, locating, sourceFilePaths), k);
  }

  /** Each value of a load is the file path of a source file whose entry name is its key. */
  lemma LoadedFromSources(naming: string -> string, locating: string -> string, sourceFilePaths: seq<string>, k: string)
    requires Fold(Empty(), Pairs(naming, locating, sourceFilePaths)).Has(k)
    ensures exists j :: (0 <= j < |sourceFilePaths| && k == naming(sourceFilePaths[j])
      && Fold(Empty(), Pairs(naming, locating, sourceFilePaths)).Get(k) == Some(locating(sourceFilePaths[j])))
  {
    var ps := Pairs(naming, locating, sourceFilePaths);
    LoadedGet(naming, locating, sourceFilePaths, k);
    LastOfSome(ps, k);
  }

  /** Every source file's entry name is a key of the load, unless it is "__proto__". */
  lemma LoadedNamesEverySource(naming: string -> string, locating: string -> string, sourceFilePaths: seq<string>, j: nat)
    requires j < |sourceFilePaths| && naming(sourceFilePaths[j]) != PROTO
    ensures Fold(Empty(), Pairs(naming, locating, sourceFilePaths)).Has(naming(sourceFilePaths[j]))
  {
    var ps := Pairs(naming, locating, sourceFilePaths);
    var k := naming(sourceFilePaths[j]);
    LoadedGet(naming, locating, sourceFilePaths, k);
    LastOfSome(ps, k);
    assert ps[j].0 == k;
  }

  /** A run warns when one of its keys reads as truthy at the moment it is stored. */
  lemma WarnsAt(m: Entries, ps: seq<(string, string)>, j: nat)
    requires m.Valid() && j < |ps|
    requires Truthy(LookUp(Fold(m, ps[..j]), ps[j].0))
    ensures Warnings(m, ps) != []
  {
    FoldStep(m, ps, j);
    WarningsPrefix(m, ps, j + 1);
  }

  /** A key stored with a non-empty value reads as truthy afterwards. */
  lemma StoredTruthy(ps: seq<(string, string)>, i: nat, k: string)
    requires i < |ps| && ps[i].0 == k && k != PROTO
    requires forall l :: 0 <= l < |ps| ==> ps[l].1 != ""
    ensures Truthy(LookUp(Fold(Empty(), ps), k))
  {
    LastOfSome(ps, k);
    FoldGet(Empty(), ps, k);
    var l :| 0 <= l < |ps| && ps[l] == (k, LastOf(ps, k).value);
  }

  /** A key stored again after a non-empty value: the later value stays and the run warns. */
  lemma RepeatedKeyWarns(ps: seq<(string, string)>, i: nat, j: nat)
    requires i < j < |ps| && ps[i].0 == ps[j].0 && ps[j].0 != PROTO
    requires forall l :: 0 <= l < j ==> ps[l].1 != ""
    requires forall l :: j < l < |ps| ==> ps[l].0 != ps[j].0
    ensures Fold(Empty(), ps).Get(ps[j].0) == Some(ps[j].1)
    ensures Warnings(Empty(), ps) != []
  {
    LaterValueStays(ps, j);
    RepeatWarns(ps, i, j);
  }

  lemma LaterValueStays(ps: seq<(string, string)>, j: nat)
    requires j < |ps| && ps[j].0 != PROTO
    requires forall l :: j < l < |ps| ==> ps[l].0 != ps[j].0
    ensures Fold(Empty(), ps).Get(ps[j].0) == Some(ps[j].1)
  {
    FoldGet(Empty(), ps, ps[j].0);
    LastOfAt(ps, ps[j].0, j);
  }

  lemma RepeatWarns(ps: seq<(string, string)>, i: nat, j: nat)
    requires i < j < |ps| && ps[i].0 == ps[j].0 && ps[j].0 != PROTO
    requires forall l :: 0 <= l < j ==> ps[l].1 != ""
    ensures Warnings(Empty(), ps) != []
  {
    var front := ps[..j];
    assert Truthy(LookUp(Fold(Empty(), front), ps[j].0)) by {
      assert front[i] == ps[i];
      assert forall l :: 0 <= l < |front| ==> front[l].1 != "";
      StoredTruthy(front, i, ps[j].0);
    }
    WarnsAt(Empty(), ps, j);
  }

  /** Two source files with one entry name: the later file is the entry's value and a warning is given. */
  lemma LoadedCollision(naming: string -> string, projectDir: string, sourceFilePaths: seq<string>, i: nat, j: nat)
    requires i < j < |sourceFilePaths|
    requires naming(sourceFilePaths[i]) == naming(sourceFilePaths[j]) != PROTO
    requires forall l :: j < l < |sourceFilePaths| ==> naming(sourceFilePaths[l]) != naming(sourceFilePaths[j])
    ensures var ps := Pairs(naming, Locating(projectDir), sourceFilePaths);
      Fold(Empty(), ps).Get(naming(sourceFilePaths[j])) == Some(FilePath(projectDir, sourceFilePaths[j]))
      && Warnings(Empty(), ps) != []
  {
    var ps := Pairs(naming, Locating(projectDir), sourceFilePaths);
    assert forall l :: j < l < |ps| ==> ps[l].0 != ps[j].0;
    assert forall l :: 0 <= l < j ==> ps[l].1 != "";
    RepeatedKeyWarns(ps, i, j);
  }

  // ---------------------------------------------------------------------------
  // The files `loadInputs("src")` is given.

  // The extensions of the build's glob: all of "src", files ending in .ts, .tsx, .js or .jsx.
  const BUILD_GLOB_EXTENSIONS: seq<string> := ["ts", "tsx", "js", "jsx"]

  /** What the build's glob returns: script files below "src", outside test folders, not declaration files. */
  predicate BuildSource(p: string) {
    UnderSrc(p, BUILD_GLOB_EXTENSIONS) && !InFolder(p, "__tests__") && !IsDeclarationFile(p)
  }

  /** A name ending in "." and a dot-free extension: its last dot starts that extension. */
  lemma LastDot(name: string, e: string)
    requires EndsWith(name, "." + e) && '.' !in e
    ensures LastIndexOf(name, '.') == |name| - |e| - 1
  {
    var q := |name| - |e| - 1;
    assert name[q] == '.';
    forall i | q < i < |name| ensures name[i] != '.' {
      assert name[i] == ("." + e)[i - q];
    }
  }

  /** A file below "src" is its folder's path, a separator and its name, all normal segments. */
  lemma SplitLast(p: string, exts: seq<string>) returns (front: seq<string>, name: string)
    requires UnderSrc(p, exts)
    ensures |front| >= 1 && front[0] == "src"
    ensures forall i :: 0 <= i < |front| ==> NormalSegment(front[i])
    ensures NormalSegment(name) && name[0] != '.' && MatchesExtensions(name, exts)
    ensures p == Join(front, "/") + "/" + name
  {
    var segs := SplitOn(p, '/');
    var n := |segs|;
    assert forall i :: 0 <= i < n ==> NormalSegment(segs[i]) by {
      forall i | 0 <= i < n ensures NormalSegment(segs[i]) {
        assert segs[i][0] != '.';
      }
    }
    name := segs[n - 1];
    front := segs[..n - 1];
    JoinSplitOn(p, '/');
    assert segs == front + [name];
    JoinAppend(front, name, "/");
  }

  /** The extension of `dir/name` when the name ends in "." and a dot-free extension. */
  lemma ExtnameOfChild(dir: string, name: string, e: string)
    requires NormalSegment(name) && name[0] != '.'
    requires EndsWith(name, "." + e) && '.' !in e
    ensures Extname(dir + "/" + name) == "." + e
  {
    var q := |name| - |e| - 1;
    assert Basename(dir + "/" + name) == name by {
      BasenameOfChild(dir, name);
    }
    assert LastIndexOf(name, '.') == q by {
      LastDot(name, e);
    }
    assert name[q] == '.' && q != 0;
    assert name != "..";
    assert name[q..] == "." + e;
  }

  /** A folder path starting with "src" followed by a normal segment is "src/" and a normal path. */
  lemma StemPath(front: seq<string>, stem: string) returns (rest: string)
    requires |front| >= 1 && front[0] == "src"
    requires forall i :: 0 <= i < |front| ==> NormalSegment(front[i])
    requires NormalSegment(stem)
    ensures NormalPath(rest) && Join(front, "/") + "/" + stem == "src/" + rest
  {
    var parts := front[1..] + [stem];
    rest := Join(parts, "/");
    assert forall i :: 0 <= i < |parts| ==> NormalSegment(parts[i]) by {
      forall i | 0 <= i < |parts| ensures NormalSegment(parts[i]) {
        if i < |parts| - 1 {
          assert parts[i] == front[i + 1];
        }
      }
    }
    SplitOnJoin(parts, '/');
    if |front| == 1 {
      assert rest == stem;
    } else {
      assert front == ["src"] + front[1..];
      JoinAppend(front[1..], stem, "/");
    }
  }

  /** The path of a file below "src" with its last extension cut off, as segments below "src". */
  lemma StemBelowSrc(p: string, exts: seq<string>) returns (rest: string, k: nat)
    requires UnderSrc(p, exts)
    requires forall i :: 0 <= i < |exts| ==> '.' !in exts[i]
    ensures k < |exts| && Extname(p) == "." + exts[k]
    ensures NormalPath(rest) && p[..|p| - |Extname(p)|] == "src/" + rest
  {
    var front, name := SplitLast(p, exts);
    k :| 0 <= k < |exts| && EndsWith(name, "." + exts[k]);
    var e := exts[k];
    assert Extname(p) == "." + e by {
      ExtnameOfChild(Join(front, "/"), name, e);
    }
    assert |p| - |Extname(p)| == |p| - |e| - 1;
    rest := StemOfName(front, name, e);
  }

  /** The same, for the folder segments, the file name and its last extension `e`. */
  lemma StemOfName(front: seq<string>, name: string, e: string) returns (rest: string)
    requires |front| >= 1 && front[0] == "src"
    requires forall i :: 0 <= i < |front| ==> NormalSegment(front[i])
    requires NormalSegment(name) && name[0] != '.' && EndsWith(name, "." + e)
    ensures var p := Join(front, "/") + "/" + name;
      NormalPath(rest) && p[..|p| - |e| - 1] == "src/" + rest
  {
    var q := |name| - |e| - 1;
    assert name[q..] == "." + e;
    assert name[q] == '.';
    var stem := StemSegment(name, q);
    CutSuffix(name, "." + e);
    CutTail(Join(front, "/") + "/", name, stem, "." + e);
    rest := StemPath(front, stem);
  }

  lemma CutSuffix(name: string, suffix: string)
    requires EndsWith(name, suffix)
    ensures name == name[..|name| - |suffix|] + suffix
  {
  }

  lemma CutTail(dir: string, name: string, stem: string, suffix: string)
    requires name == stem + suffix
    ensures var p := dir + name; p[..|p| - |suffix|] == dir + stem
  {
    var p := dir + name;
    assert p == (dir + stem) + suffix;
  }

  /** A name cut before its last extension is still a normal segment. */
  lemma StemSegment(name: string, q: int) returns (stem: string)
    requires NormalSegment(name) && name[0] != '.' && 1 <= q <= |name|
    ensures stem == name[..q] && NormalSegment(stem)
  {
    stem := name[..q];
    assert stem[0] == name[0];
    assert forall i :: 0 <= i < |stem| ==> stem[i] == name[i];
  }

  /**
   * The entry name of a file below "src": its path below "src" with the last
   * extension removed ("src/folder/A.schema.ts" is named "folder/A.schema"),
   * and that extension is one the glob asked for.
   */
  lemma EntryNameBelowSrc(cwd: seq<string>, p: string, exts: seq<string>)
    requires WorkingDirectory(cwd) && UnderSrc(p, exts)
    requires forall i :: 0 <= i < |exts| ==> '.' !in exts[i]
    ensures exists k :: 0 <= k < |exts| && Extname(p) == "." + exts[k]
    ensures 4 <= |p| - |Extname(p)| && EntryName(cwd, "src", p) == p[4..|p| - |Extname(p)|]
  {
    var rest, k := StemBelowSrc(p, exts);
    EntryNameOfStem(cwd, p, rest);
  }

  /** A file whose path without its extension is "src/" + `rest` is named `rest`. */
  lemma EntryNameOfStem(cwd: seq<string>, p: string, rest: string)
    requires WorkingDirectory(cwd) && NormalPath(rest)
    requires p[..|p| - |Extname(p)|] == "src/" + rest
    ensures 4 <= |p| - |Extname(p)| && EntryName(cwd, "src", p) == p[4..|p| - |Extname(p)|]
  {
    var n := |p| - |Extname(p)|;
    var stem := p[..n];
    assert EntryName(cwd, "src", p) == Relative(cwd, "src", stem);
    assert Relative(cwd, "src", stem) == rest by {
      SegmentPath("src");
      RelativeBelow(cwd, "src", rest);
      SrcPrefix(rest);
    }
    assert stem[4..] == rest;
    assert p[4..n] == stem[4..];
  }

  /** The entry name of a file below "src": its path below "src" without the extension. */
  function SourceEntryName(p: string): string
    requires 4 <= |p| - |Extname(p)|
  {
    p[4..|p| - |Extname(p)|]
  }

  lemma BuildExtensionsDotFree()
    ensures forall i :: 0 <= i < |BUILD_GLOB_EXTENSIONS| ==> '.' !in BUILD_GLOB_EXTENSIONS[i]
  {
    var e := BUILD_GLOB_EXTENSIONS;
    assert e[0] == "ts" && e[1] == "tsx" && e[2] == "js" && e[3] == "jsx";
  }

  /** A file the build's glob finds is named by its path below "src" without the extension. */
  lemma BuildEntryName(cwd: seq<string>, p: string)
    requires WorkingDirectory(cwd) && BuildSource(p)
    ensures 4 <= |p| - |Extname(p)| && EntryName(cwd, "src", p) == SourceEntryName(p)
  {
    BuildExtensionsDotFree();
    EntryNameBelowSrc(cwd, p, BUILD_GLOB_EXTENSIONS);
  }

  /**
   * `loadInputs("src")` of the build: each entry is a source file's path
   * below "src" without its extension, mapped to the file's absolute path.
   */
  method LoadSourceInputs(cwd: seq<string>, projectDir: string, sourceFilePaths: seq<string>)
    returns (inputs: EntryMap, warnings: seq<Warning>)
    requires WorkingDirectory(cwd)
    requires forall i :: 0 <= i < |sourceFilePaths| ==> BuildSource(sourceFilePaths[i])
    ensures fresh(inputs)
    ensures inputs.entries == Fold(Empty(), Pairs(Naming(cwd, "src"), Locating(projectDir), sourceFilePaths))
    ensures warnings == Warnings(Empty(), Pairs(Naming(cwd, "src"), Locating(projectDir), sourceFilePaths))
    ensures forall i :: 0 <= i < |sourceFilePaths| ==>
      4 <= |sourceFilePaths[i]| - |Extname(sourceFilePaths[i])|
      && Naming(cwd, "src")(sourceFilePaths[i]) == SourceEntryName(sourceFilePaths[i])
  {
    inputs, warnings := LoadInputs(cwd, projectDir, "src", sourceFilePaths);
    forall i | 0 <= i < |sourceFilePaths|
      ensures 4 <= |sourceFilePaths[i]| - |Extname(sourceFilePaths[i])|
      ensures Naming(cwd, "src")(sourceFilePaths[i]) == SourceEntryName(sourceFilePaths[i])
    {
      BuildEntryName(cwd, sourceFilePaths[i]);
    }
  }

  // ---------------------------------------------------------------------------
  // mergeInputs

  predicate AllValid(ms: seq<Entries>) {
    forall i :: 0 <= i < |ms| ==> ms[i].Valid()
  }

  /** What the objects passed to `mergeInputs` hold. */
  ghost function Contents(inputs: seq<EntryMap>): (ms: seq<Entries>)
    reads inputs
    ensures |ms| == |inputs| && forall i :: 0 <= i < |inputs| ==> ms[i] == inputs[i].entries
  {
    seq(|inputs|, i reads inputs requires 0 <= i < |inputs| => inputs[i].entries)
  }

  /** `mergeInputs(...ms)`: a copy of the first object, then every later object's entries stored in order. */
  function Merged(ms: seq<Entries>): (r: Entries)
    requires AllValid(ms)
    ensures r.Valid()
    decreases |ms|
  {
    if |ms| == 0 then Empty()
    else if |ms| == 1 then ms[0]
    else Fold(Merged(ms[..|ms| - 1]), ms[|ms| - 1].Entries())
  }

  /** The warnings of `mergeInputs(...ms)`, in order. */
  function MergeWarnings(ms: seq<Entries>): seq<Warning>
    requires AllValid(ms)
    decreases |ms|
  {
    if |ms| <= 1 then []
    else MergeWarnings(ms[..|ms| - 1]) + Warnings(Merged(ms[..|ms| - 1]), ms[|ms| - 1].Entries())
  }

  /** `mergeInputs(...inputs)`: the result is a new object and no input is changed. */
  method MergeInputs(inputs: seq<EntryMap>) returns (merged: EntryMap, warnings: seq<Warning>)
    requires forall i :: 0 <= i < |inputs| ==> inputs[i].entries.Valid()
    ensures fresh(merged)
    ensures forall i :: 0 <= i < |inputs| ==> unchanged(inputs[i])
    ensures AllValid(Contents(inputs))
    ensures merged.entries == Merged(Contents(inputs))
    ensures warnings == MergeWarnings(Contents(inputs))
  {
    ghost var ms := Contents(inputs);
    if |inputs| == 0 {
      merged := new EntryMap();
      warnings := [];
      return;
    }
    merged := new EntryMap.Copy(inputs[0].entries);
    warnings := [];
    for index := 1 to |inputs|
      invariant fresh(merged)
      invariant merged.entries == Merged(ms[..index])
      invariant warnings == MergeWarnings(ms[..index])
    {
      var more := MergeEntries(merged, inputs[index].entries);
      MergeStep(ms, index);
      MergeWarningsStep(ms, index);
      warnings := warnings + more;
    }
    assert ms[..|inputs|] == ms;
  }

  /** The inner loop of `mergeInputs`: every entry of the next input, stored in order. */
  method MergeEntries(merged: EntryMap, nextInput: Entries) returns (warnings: seq<Warning>)
    requires merged.entries.Valid() && nextInput.Valid()
    modifies merged
    ensures merged.entries == Fold(old(merged.entries), nextInput.Entries())
    ensures warnings == Warnings(old(merged.entries), nextInput.Entries())
  {
    var es := nextInput.Entries();
    ghost var base := merged.entries;
    warnings := [];
    for j := 0 to |es|
      invariant merged.entries == Fold(base, es[..j])
      invariant warnings == Warnings(base, es[..j])
    {
      var warning := merged.SetEntryValue(es[j].0, es[j].1);
      FoldStep(base, es, j);
      warnings := warnings + Listed(warning);
    }
    assert es[..|es|] == es;
  }

  lemma MergeStep(ms: seq<Entries>, index: nat)
    requires AllValid(ms) && 1 <= index < |ms|
    ensures Merged(ms[..index + 1]) == Fold(Merged(ms[..index]), ms[index].Entries())
  {
    var p := ms[..index + 1];
    assert p[..|p| - 1] == ms[..index];
    assert p[|p| - 1] == ms[index];
    assert AllValid(p);
  }

  lemma MergeWarningsStep(ms: seq<Entries>, index: nat)
    requires AllValid(ms) && 1 <= index < |ms|
    ensures MergeWarnings(ms[..index + 1]) == MergeWarnings(ms[..index]) + Warnings(Merged(ms[..index]), ms[index].Entries())
  {
    var p := ms[..index + 1];
    AllValidPrefix(ms, index + 1);
    AllValidPrefix(ms, index);
    var front, last := p[..|p| - 1], p[|p| - 1];
    assert front == ms[..index];
    assert last == ms[index];
    assert MergeWarnings(p) == MergeWarnings(front) + Warnings(Merged(front), last.Entries());
  }

  lemma AllValidPrefix(ms: seq<Entries>, n: nat)
    requires AllValid(ms) && n <= |ms|
    ensures AllValid(ms[..n])
  {
    forall i | 0 <= i < n
      ensures ms[..n][i].Valid()
    {
      assert ms[..n][i] == ms[i];
    }
  }

  /**
   * A merged key holds the value of the last input that owns it; "__proto__"
   * is a key only when the first input owns it.
   */
  lemma {:induction false} MergedGet(ms: seq<Entries>, k: string)
    requires AllValid(ms)
    ensures |ms| > 0 ==> Settable(Merged(ms), k) == Settable(ms[0], k)
    ensures Merged(ms).Get(k) == if |ms| > 0 && Settable(ms[0], k) then LastGet(ms, k) else None
    decreases |ms|
  {
    if |ms| > 1 {
      var front := ms[..|ms| - 1];
      MergedGet(front, k);
      var es := ms[|ms| - 1].Entries();
      FoldGet(Merged(front), es, k);
      FoldSettable(Merged(front), es, k);
      EntriesLastOf(ms[|ms| - 1], k);
    }
  }

  /** `LastGet` finds a value exactly when some input owns the key. */
  lemma {:induction false} LastGetSome(ms: seq<Entries>, k: string)
    ensures LastGet(ms, k).Some? <==> exists i :: 0 <= i < |ms| && ms[i].Has(k)
    decreases |ms|
  {
    if |ms| > 0 {
      var front := ms[..|ms| - 1];
      LastGetSome(front, k);
      assert forall i :: 0 <= i < |front| ==> front[i] == ms[i];
    }
  }

  /** The last input that owns the key gives its value. */
  lemma {:induction false} LastGetAt(ms: seq<Entries>, k: string, i: nat)
    requires i < |ms| && ms[i].Has(k)
    requires forall j :: i < j < |ms| ==> !ms[j].Has(k)
    ensures LastGet(ms, k) == ms[i].Get(k)
    decreases |ms|
  {
    if i < |ms| - 1 {
      LastGetAt(ms[..|ms| - 1], k, i);
    }
  }

  /** A key of any input is a key of the merge ("__proto__" only from the first input). */
  lemma MergedKeepsKeys(ms: seq<Entries>, k: string, i: nat)
    requires AllValid(ms) && i < |ms| && ms[i].Has(k)
    requires i == 0 || k != PROTO
    ensures Merged(ms).Has(k)
  {
    MergedGet(ms, k);
    LastGetSome(ms, k);
  }

  /** A key of the merge is a key of some input. */
  lemma MergedAddsNoKeys(ms: seq<Entries>, k: string)
    requires AllValid(ms) && Merged(ms).Has(k)
    ensures exists i :: 0 <= i < |ms| && ms[i].Has(k)
    ensures k == PROTO ==> ms[0].Has(k)
  {
    MergedGet(ms, k);
    LastGetSome(ms, k);
  }

  /** Each merged value comes from the last input that has the key. */
  lemma MergedLastWins(ms: seq<Entries>, k: string, i: nat)
    requires AllValid(ms) && i < |ms| && ms[i].Has(k)
    requires forall j :: i < j < |ms| ==> !ms[j].Has(k)
    requires k != PROTO || ms[0].Has(k)
    ensures Merged(ms).Get(k) == ms[i].Get(k)
  {
    MergedGet(ms, k);
    LastGetAt(ms, k, i);
  }
}
