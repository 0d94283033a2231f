/**
 * The script that rewrites the `exports` field of package.json: every
 * folder below "src" that is, or lies inside, a folder called "internal" is
 * blocked with a `null` entry, stale `null` entries for internal folders are
 * dropped, and every other entry is left alone.
 */
module UpdateExports {
  import opened Wrappers
  import opened Strings
  import opened OrderedMaps
  import opened Json
  import opened Paths
  import opened Globs
  import opened Sorting
  import ResetExports

  /** The extensions of the internal source glob. */
  const INTERNAL_EXTENSIONS: seq<string> := ["ts", "tsx", "js", "jsx"]

  /** What the glob returns: sources inside an internal folder below "src", outside test folders. */
  predicate InternalSource(p: string) {
    UnderSrcInternal(p, INTERNAL_EXTENSIONS) && !InFolder(p, "__tests__")
  }

  /** `path.relative("src", path.dirname(p))`: the file's folder, relative to "src". */
  function SourceFolder(cwd: seq<string>, p: string): string {
    Relative(cwd, "src", Dirname(p))
  }

  /** The folders of `paths` in the order a `Set` first meets them. */
  function FolderSet(cwd: seq<string>, paths: seq<string>): seq<string>
    decreases |paths|
  {
    if |paths| == 0 then []
    else
      var front := FolderSet(cwd, paths[..|paths| - 1]);
      var f := SourceFolder(cwd, paths[|paths| - 1]);
      if f in front then front else front + [f]
  }

  /** The first loop: the set of the internal sources' folders. */
  method CollectFolders(cwd: seq<string>, internalSourceFilePaths: seq<string>) returns (folders: seq<string>)
    ensures folders == FolderSet(cwd, internalSourceFilePaths)
  {
    folders := [];
    for i := 0 to |internalSourceFilePaths|
      invariant folders == FolderSet(cwd, internalSourceFilePaths[..i])
    {
      var folderPath := SourceFolder(cwd, internalSourceFilePaths[i]);
      assert internalSourceFilePaths[..i + 1][..i] == internalSourceFilePaths[..i];
      if folderPath !in folders {
        folders := folders + [folderPath];
      }
    }
    assert internalSourceFilePaths[..|internalSourceFilePaths|] == internalSourceFilePaths;
  }

  /** The export key of a folder. */
  function FolderKey(folder: string): string {
    "./" + folder
  }

  /** `k` is the export key of one of `folders`. */
  predicate IsFolderKey(folders: seq<string>, k: string) {
    |k| >= 2 && k[..2] == "./" && k[2..] in folders
  }

  /** An entry the first loop deletes: an internal key whose value is `null`. */
  predicate Blocking(o: JsonObject, k: string) {
    HasInternalSegment(k) && o.Get(k) == Some(JNull)
  }

  /** The exports after the first loop has visited `keys`, one at a time. */
  function Pruned(o: JsonObject, keys: seq<string>): (p: JsonObject)
    requires o.Valid()
    ensures p.Valid()
    decreases |keys|
  {
    if |keys| == 0 then o
    else
      var p := Pruned(o, keys[..|keys| - 1]);
      var k := keys[|keys| - 1];
      if HasInternalSegment(k) && p.Get(k) == Some(JNull) then p.Remove(k) else p
  }

  /** The exports after the second loop has visited `folders`, one at a time. */
  function Blocked(o: JsonObject, folders: seq<string>): (b: JsonObject)
    requires o.Valid()
    ensures b.Valid()
    decreases |folders|
  {
    if |folders| == 0 then o
    else
      var b := Blocked(o, folders[..|folders| - 1]);
      var key := FolderKey(folders[|folders| - 1]);
      if Truthy(b.Get(key)) then b else b.Set(key, JNull)
  }

  /** Both loops over an exports object. */
  function Rewritten(o: JsonObject, folders: seq<string>): (e: JsonObject)
    requires o.Valid()
    ensures e.Valid()
  {
    Blocked(Pruned(o, o.keys), folders)
  }

  /** The first loop: delete the internal keys set to `null`, skipping the others. */
  method DeleteBlockedInternals(exports: JsonObject) returns (r: JsonObject)
    requires exports.Valid()
    ensures r == Pruned(exports, exports.keys)
  {
    var oldExportKeys := exports.keys;
    r := exports;
    for i := 0 to |oldExportKeys|
      invariant r == Pruned(exports, oldExportKeys[..i])
    {
      var exportKey := oldExportKeys[i];
      assert oldExportKeys[..i + 1][..i] == oldExportKeys[..i];
      if !HasInternalSegment(exportKey) {
        continue;
      }
      if r.Get(exportKey) != Some(JNull) {
        continue;
      }
      r := r.Remove(exportKey);
    }
    assert oldExportKeys[..|oldExportKeys|] == oldExportKeys;
  }

  /** The second loop: block each folder's key unless it already holds a truthy value. */
  method BlockFolders(exports: JsonObject, folders: seq<string>) returns (r: JsonObject)
    requires exports.Valid()
    ensures r == Blocked(exports, folders)
  {
    r := exports;
    for i := 0 to |folders|
      invariant r == Blocked(exports, folders[..i])
    {
      var key := FolderKey(folders[i]);
      assert folders[..i + 1][..i] == folders[..i];
      if Truthy(r.Get(key)) {
        continue;
      }
      r := r.Set(key, JNull);
    }
    assert folders[..|folders|] == folders;
  }

  /** Line 107 assigns to the `const` binding `exports`. */
  const CONST_ASSIGNMENT: Exception := TypeError("Assignment to constant variable.")

  /** Strict-mode code cannot add a property to a string, number or boolean. */
  function CreatePropertyError(key: string, target: Json): Exception {
    TypeError("Cannot create property '" + key + "' on " + TypeOf(Some(target)) + " '" + JsonToDisplayString(target) + "'")
  }

  /** A parsed package whose `exports`, when it is an object, has well-formed keys. */
  predicate ExportsValid(npmPackage: JsonObject) {
    match npmPackage.Get("exports")
    case Some(JObj(o)) => o.Valid()
    case _ => true
  }

  /**
   * The package after `run`, given its sorted internal folders. Without a
   * truthy `exports` the script fails before touching anything. An array
   * takes the new keys as non-index properties, which `JSON.stringify`
   * drops; a string, number or `true` has no keys and rejects the first new
   * property.
   */
  function Updated(npmPackage: JsonObject, folders: seq<string>): (r: Result<JsonObject, Exception>)
    requires npmPackage.Valid() && ExportsValid(npmPackage)
    ensures !Truthy(npmPackage.Get("exports")) <==> r == Failure(CONST_ASSIGNMENT)
  {
    var exports := npmPackage.Get("exports");
    if !Truthy(exports) then Failure(CONST_ASSIGNMENT)
    else
      var value := exports.value;
      if value.JObj? then Success(npmPackage.Set("exports", JObj(Rewritten(value.obj, folders))))
      else if value.JArr? || |folders| == 0 then Success(npmPackage)
      else Failure(CreatePropertyError(FolderKey(folders[0]), value))
  }

  /**
   * `run`: collect and sort the internal folders, then rewrite the exports
   * in place. Reading and writing package.json and the log lines are not
   * modelled; the glob's result is the parameter.
   */
  method Run(cwd: seq<string>, npmPackage: JsonObject, internalSourceFilePaths: seq<string>)
    returns (r: Result<JsonObject, Exception>)
    requires npmPackage.Valid() && ExportsValid(npmPackage)
    ensures r == Updated(npmPackage, Sort(FolderSet(cwd, internalSourceFilePaths)))
  {
    var internalSourceFolderPaths := CollectFolders(cwd, internalSourceFilePaths);
    internalSourceFolderPaths := Sort(internalSourceFolderPaths);
    var exports := npmPackage.Get("exports");
    if !Truthy(exports) {
      return Failure(CONST_ASSIGNMENT);
    }
    var value := exports.value;
    if value.JObj? {
      var e := DeleteBlockedInternals(value.obj);
      e := BlockFolders(e, internalSourceFolderPaths);
      r := Success(npmPackage.Set("exports", JObj(e)));
    } else if value.JArr? || |internalSourceFolderPaths| == 0 {
      r := Success(npmPackage);
    } else {
      r := Failure(CreatePropertyError(FolderKey(internalSourceFolderPaths[0]), value));
    }
  }

  // ---------------------------------------------------------------------------
  // Properties.

  /** The first loop deletes exactly the visited internal keys set to `null`. */
  lemma {:induction false} PrunedGet(o: JsonObject, keys: seq<string>)
    requires o.Valid()
    ensures forall k :: Pruned(o, keys).Get(k) == if k in keys && Blocking(o, k) then None else o.Get(k)
    decreases |keys|
  {
    if |keys| > 0 {
      var front := keys[..|keys| - 1];
      PrunedGet(o, front);
      assert keys == front + [keys[|keys| - 1]];
    }
  }

  /** The keys the first loop keeps, in their order. */
  function Kept(o: JsonObject, keys: seq<string>): (kept: seq<string>)
    decreases |keys|
  {
    if |keys| == 0 then []
    else
      var front := Kept(o, keys[..|keys| - 1]);
      if Blocking(o, keys[|keys| - 1]) then front else front + [keys[|keys| - 1]]
  }

  /** After the first loop the surviving keys keep their order. */
  lemma PrunedKeys(o: JsonObject)
    requires o.Valid()
    ensures Pruned(o, o.keys).keys == Kept(o, o.keys)
  {
    PrunedKeysFrom(o, o.keys, []);
    assert o.keys + [] == o.keys;
  }

  /** Midway, the kept keys come first and the unvisited keys follow unchanged. */
  lemma {:induction false} PrunedKeysFrom(o: JsonObject, done: seq<string>, rest: seq<string>)
    requires o.Valid() && o.keys == done + rest
    ensures Pruned(o, done).keys == Kept(o, done) + rest
    decreases |done|
  {
    if |done| > 0 {
      var front := done[..|done| - 1];
      var k := done[|done| - 1];
      assert done == front + [k];
      assert o.keys == front + ([k] + rest);
      PrunedKeysFrom(o, front, [k] + rest);
      assert k !in front by {
        assert forall j :: 0 <= j < |front| ==> o.keys[j] == front[j];
        assert o.keys[|front|] == k;
      }
      PrunedLast(o, front, k);
      var p, kept := Pruned(o, front), Kept(o, front);
      assert p.keys == kept + [k] + rest;
      if Blocking(o, k) {
        RemoveBetween(p, kept, k, rest);
        assert Kept(o, done) == kept;
      } else {
        assert Kept(o, done) == kept + [k];
      }
    }
  }

  /** One more visited key: the first loop deletes it exactly when it is an internal key set to `null`. */
  lemma PrunedLast(o: JsonObject, front: seq<string>, k: string)
    requires o.Valid() && k !in front
    ensures Pruned(o, front + [k]) == if Blocking(o, k) then Pruned(o, front).Remove(k) else Pruned(o, front)
  {
    PrunedGet(o, front);
    assert (front + [k])[..|front|] == front;
  }

  /** Deleting a key keeps the keys before and after it in order. */
  lemma RemoveBetween(m: JsonObject, a: seq<string>, k: string, b: seq<string>)
    requires m.Valid() && m.keys == a + [k] + b
    ensures m.Remove(k).keys == a + b
  {
    IndexOfKeyAt(m.keys, |a|);
    assert RemoveAt(m.keys, |a|) == a + b;
  }

  /** In a list without repeats, the index of the element at `i` is `i`. */
  lemma IndexOfKeyAt(s: seq<string>, i: nat)
    requires i < |s| && Distinct(s)
    ensures IndexOfKey(s, s[i]) == i
  {
  }

  /** The second loop sets each folder key without a truthy value to `null`, and touches nothing else. */
  lemma {:induction false} BlockedGet(o: JsonObject, folders: seq<string>)
    requires o.Valid()
    ensures forall k :: (Blocked(o, folders).Get(k)
      == if IsFolderKey(folders, k) then (if Truthy(o.Get(k)) then o.Get(k) else Some(JNull)) else o.Get(k))
    decreases |folders|
  {
    if |folders| > 0 {
      var front := folders[..|folders| - 1];
      var f := folders[|folders| - 1];
      BlockedGet(o, front);
      assert folders == front + [f];
      var key := FolderKey(f);
      assert key[..2] == "./" && key[2..] == f;
      forall k | k != key
        ensures IsFolderKey(folders, k) <==> IsFolderKey(front, k)
      {
        if |k| >= 2 && k[..2] == "./" && k[2..] == f {
          assert false;
        }
      }
    }
  }

  /** The keys a folder list adds: each new folder key, in the folders' order. */
  function NewKeys(keys: seq<string>, folders: seq<string>): seq<string>
    decreases |folders|
  {
    if |folders| == 0 then []
    else
      var front := NewKeys(keys, folders[..|folders| - 1]);
      var key := FolderKey(folders[|folders| - 1]);
      if key in keys || key in front then front else front + [key]
  }

  /** The second loop appends the new folder keys after all existing keys. */
  lemma {:induction false} BlockedKeys(o: JsonObject, folders: seq<string>)
    requires o.Valid()
    ensures Blocked(o, folders).keys == o.keys + NewKeys(o.keys, folders)
    decreases |folders|
  {
    if |folders| > 0 {
      BlockedKeys(o, folders[..|folders| - 1]);
    }
  }

  /** The new keys are folder keys, and follow the folders' order. */
  lemma {:induction false} NewKeysSorted(keys: seq<string>, folders: seq<string>)
    requires StrictlySorted(folders)
    ensures forall x :: x in NewKeys(keys, folders) ==> IsFolderKey(folders, x)
    ensures StrictlySorted(NewKeys(keys, folders))
    decreases |folders|
  {
    if |folders| > 0 {
      var front := folders[..|folders| - 1];
      var f := folders[|folders| - 1];
      assert StrictlySorted(front);
      NewKeysSorted(keys, front);
      var n := NewKeys(keys, front);
      var key := FolderKey(f);
      assert key[2..] == f;
      forall x | x in n
        ensures LexLess(x, key) && IsFolderKey(folders, x)
      {
        var j :| 0 <= j < |front| && front[j] == x[2..];
        assert LexLess(x[2..], f);
        LexLessPrefix("./", x[2..], f);
        assert x == "./" + x[2..];
      }
    }
  }

  /** A shared prefix does not change the order of two strings. */
  lemma LexLessPrefix(p: string, a: string, b: string)
    ensures LexLess(p + a, p + b) == LexLess(a, b)
  {
    Utf16Append(p, a);
    Utf16Append(p, b);
    UnitsLessPrefix(Utf16(p), Utf16(a), Utf16(b));
  }

  /**
   * What the rewrite leaves under any key: `null` entries of internal keys
   * are dropped, folder keys without a truthy value become `null`, and the
   * rest is unchanged.
   */
  lemma RewrittenGet(o: JsonObject, folders: seq<string>, k: string)
    requires o.Valid()
    ensures var v := if Blocking(o, k) then None else o.Get(k);
      Rewritten(o, folders).Get(k) == if IsFolderKey(folders, k) then (if Truthy(v) then v else Some(JNull)) else v
  {
    PrunedGet(o, o.keys);
    BlockedGet(Pruned(o, o.keys), folders);
    assert o.Get(k).Some? ==> k in o.keys;
  }

  /** The rewrite keeps the surviving keys in their order and appends the new folder keys. */
  lemma RewrittenKeys(o: JsonObject, folders: seq<string>)
    requires o.Valid()
    ensures Rewritten(o, folders).keys == Kept(o, o.keys) + NewKeys(Kept(o, o.keys), folders)
  {
    PrunedKeys(o);
    BlockedKeys(Pruned(o, o.keys), folders);
  }

  /** The folder of an internal source, as an export key, has an "internal" segment. */
  lemma FolderKeyInternal(cwd: seq<string>, p: string)
    requires WorkingDirectory(cwd) && InternalSource(p)
    ensures HasInternalSegment(FolderKey(SourceFolder(cwd, p)))
  {
    var segs := SplitOn(p, '/');
    var k :| 1 <= k < |segs| - 1 && segs[k] == "internal";
    var rest := SourceFolderBelowSrc(cwd, p);
    assert SplitOn(rest, '/')[k - 1] == "internal";
    DotSlashInternal(rest);
  }

  /** Relative to "src", a source's folder is the segments between "src" and the file name. */
  lemma SourceFolderBelowSrc(cwd: seq<string>, p: string) returns (rest: string)
    requires WorkingDirectory(cwd) && UnderSrc(p, INTERNAL_EXTENSIONS) && |SplitOn(p, '/')| >= 3
    ensures SourceFolder(cwd, p) == rest
    ensures SplitOn(rest, '/') == SplitOn(p, '/')[1..|SplitOn(p, '/')| - 1]
  {
    var segs := SplitOn(p, '/');
    var n := |segs|;
    assert forall j :: 0 <= j < n ==> NormalSegment(segs[j]) by {
      forall j | 0 <= j < n ensures NormalSegment(segs[j]) {
        assert segs[j][0] != '.';
      }
    }
    Globs.SourceFolder(p, INTERNAL_EXTENSIONS);
    var middle := segs[1..n - 1];
    rest := Join(middle, "/");
    assert segs[..n - 1][1..] == middle;
    assert Dirname(p) == "src" + "/" + rest;
    SplitOnJoin(middle, '/');
    NoSeparatorSplit("src", '/');
    RelativeBelow(cwd, "src", rest);
  }

  /** Behind "./", a path with an "internal" segment still has one. */
  lemma DotSlashInternal(rest: string)
    requires "internal" in SplitOn(rest, '/')
    ensures HasInternalSegment(FolderKey(rest))
  {
    SplitOnConcat(".", rest, '/');
    NoSeparatorSplit(".", '/');
    assert FolderKey(rest) == "." + "/" + rest;
    var parts := SplitOn(rest, '/');
    var k :| 0 <= k < |parts| && parts[k] == "internal";
    assert (["."] + parts)[k + 1] == "internal";
    HasInternalSegmentIffSegment(FolderKey(rest));
  }

  /** Every folder collected from internal sources, as an export key, has an "internal" segment. */
  lemma FolderKeysInternal(cwd: seq<string>, paths: seq<string>)
    requires WorkingDirectory(cwd)
    requires forall p :: p in paths ==> InternalSource(p)
    ensures forall f :: f in FolderSet(cwd, paths) ==> HasInternalSegment(FolderKey(f))
  {
    FolderSetMembers(cwd, paths);
    forall f | f in FolderSet(cwd, paths) ensures HasInternalSegment(FolderKey(f)) {
      var p :| p in paths && SourceFolder(cwd, p) == f;
      FolderKeyInternal(cwd, p);
    }
  }

  /** A key without an "internal" segment is not the key of a folder whose key has one. */
  lemma {:induction false} UntouchedKey(o: JsonObject, folders: seq<string>, k: string)
    requires o.Valid()
    requires forall f :: f in folders ==> HasInternalSegment(FolderKey(f))
    requires !HasInternalSegment(k)
    ensures Rewritten(o, folders).Get(k) == o.Get(k)
  {
    RewrittenGet(o, folders, k);
    assert |k| >= 2 && k[..2] == "./" ==> FolderKey(k[2..]) == k;
  }

  /** Keys without an "internal" segment keep their values: the rewrite neither deletes nor blocks them. */
  lemma NonInternalKeysKept(cwd: seq<string>, o: JsonObject, paths: seq<string>, k: string)
    requires WorkingDirectory(cwd) && o.Valid()
    requires forall p :: p in paths ==> InternalSource(p)
    requires !HasInternalSegment(k)
    ensures Rewritten(o, Sort(FolderSet(cwd, paths))).Get(k) == o.Get(k)
  {
    var folders := FolderSet(cwd, paths);
    FolderKeysInternal(cwd, paths);
    FolderSetDistinct(cwd, paths);
    SortSorted(folders);
    UntouchedKey(o, Sort(folders), k);
  }

  /** After the rewrite, every internal folder has an export key. */
  lemma EveryFolderExported(o: JsonObject, folders: seq<string>, f: string)
    requires o.Valid() && f in folders
    ensures Rewritten(o, folders).Has(FolderKey(f))
  {
    var key := FolderKey(f);
    assert key[2..] == f;
    RewrittenGet(o, folders, key);
  }

  /** A folder key holding a falsy value other than `null` survives the first loop but becomes `null`. */
  lemma FalsyFolderKeyBlocked(o: JsonObject, folders: seq<string>, f: string)
    requires o.Valid() && f in folders
    requires o.Get(FolderKey(f)).Some? && o.Get(FolderKey(f)) != Some(JNull) && !Truthy(o.Get(FolderKey(f)))
    ensures Pruned(o, o.keys).Get(FolderKey(f)) == o.Get(FolderKey(f))
    ensures Rewritten(o, folders).Get(FolderKey(f)) == Some(JNull)
  {
    var key := FolderKey(f);
    assert key[2..] == f;
    PrunedGet(o, o.keys);
    RewrittenGet(o, folders, key);
  }

  /** The set of folders holds each folder once, and nothing else. */
  lemma {:induction false} FolderSetMembers(cwd: seq<string>, paths: seq<string>)
    ensures forall f :: f in FolderSet(cwd, paths) <==> exists p :: p in paths && SourceFolder(cwd, p) == f
    decreases |paths|
  {
    if |paths| > 0 {
      var front := paths[..|paths| - 1];
      FolderSetMembers(cwd, front);
      assert paths == front + [paths[|paths| - 1]];
    }
  }

  lemma {:induction false} FolderSetDistinct(cwd: seq<string>, paths: seq<string>)
    ensures Distinct(FolderSet(cwd, paths))
    decreases |paths|
  {
    if |paths| > 0 {
      FolderSetDistinct(cwd, paths[..|paths| - 1]);
    }
  }

  // ---------------------------------------------------------------------------
  // A package without `exports`.

  /** A package without `exports` is rejected by the assignment to the constant at line 107, before any change. */
  lemma MissingExportsThrows(folders: seq<string>)
    ensures Updated(Empty(), folders) == Failure(CONST_ASSIGNMENT)
  {
    assert !Truthy(Empty<string, Json>().Get("exports"));
  }

  /**
   * What lines 105-134 evidently intend: a package without a truthy
   * `exports` gets the default object, the one `ResetExports` writes, which
   * is then rewritten like any other.
   */
  function IntendedUpdated(npmPackage: JsonObject, folders: seq<string>): (r: Result<JsonObject, Exception>)
    requires npmPackage.Valid() && ExportsValid(npmPackage)
    ensures Truthy(npmPackage.Get("exports")) ==> r == Updated(npmPackage, folders)
    ensures r.Success?
      || (npmPackage.Get("exports").Some? && !npmPackage.Get("exports").value.JObj?
          && !npmPackage.Get("exports").value.JArr?)
  {
    if Truthy(npmPackage.Get("exports")) then Updated(npmPackage, folders)
    else Success(npmPackage.Set("exports", JObj(Rewritten(ResetExports.DefaultExports(), folders))))
  }

  /**
   * Corrected, a package without a truthy `exports` keeps every other field,
   * gets the two default entries and exports every internal folder.
   */
  lemma IntendedInstallsDefaults(npmPackage: JsonObject, folders: seq<string>)
    requires npmPackage.Valid() && ExportsValid(npmPackage) && !Truthy(npmPackage.Get("exports"))
    ensures var r := IntendedUpdated(npmPackage, folders);
      && r.Success? && r.value.Get("exports").Some? && r.value.Get("exports").value.JObj?
      && (forall k :: k != "exports" ==> r.value.Get(k) == npmPackage.Get(k))
      && var e := r.value.Get("exports").value.obj;
         && e.Get("./package.json") == Some(JStr("./package.json"))
         && e.Get("./*") == Some(JObj(ResetExports.DistTargets()))
         && (forall f :: f in folders ==> e.Has(FolderKey(f)))
  {
    var e := Rewritten(ResetExports.DefaultExports(), folders);
    DefaultsRewritten(folders);
    assert IntendedUpdated(npmPackage, folders) == Success(npmPackage.Set("exports", JObj(e)));
  }

  /** The rewrite of the default exports keeps both default entries and exports every internal folder. */
  lemma DefaultsRewritten(folders: seq<string>)
    ensures var e := Rewritten(ResetExports.DefaultExports(), folders);
      && e.Get("./package.json") == Some(JStr("./package.json"))
      && e.Get("./*") == Some(JObj(ResetExports.DistTargets()))
      && (forall f :: f in folders ==> e.Has(FolderKey(f)))
  {
    var d := ResetExports.DefaultExports();
    RewrittenGet(d, folders, "./package.json");
    RewrittenGet(d, folders, "./*");
    forall f | f in folders
      ensures Rewritten(d, folders).Has(FolderKey(f))
    {
      EveryFolderExported(d, folders, f);
    }
  }
}
