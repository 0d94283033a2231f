/**
 * The library's Rollup configuration (config/rollup/rollup.config.mjs): the
 * script extensions it compiles, the entry points `loadInputs("src")` finds
 * (never internal scripts, tests or declaration files), and the warning
 * filter that drops empty-bundle warnings.
 *
 * `setEntryValue`, the entry naming and the absolute file paths are the same
 * as in the build configuration and are taken from `BuildRollupConfig`.
 */
module RollupConfig {
  import opened Wrappers
  import opened Strings
  import opened OrderedMaps
  import opened Paths
  import opened Globs
  import opened BuildRollupConfig

  // ---------------------------------------------------------------------------
  // The extension lists.

  /** Every script file extension the library compiles. */
  const SUPPORTED_SCRIPT_FILE_EXTENSIONS: seq<string> := [".cjs", ".cts", ".js", ".jsx", ".mjs", ".mts", ".ts", ".tsx"]

  // The alternatives of the glob ".{cjs,cts,js,jsx,mjs,mts,ts,tsx}" the loader searches with.
  const SCRIPT_GLOB_ALTERNATIVES: seq<string> := ["cjs", "cts", "js", "jsx", "mjs", "mts", "ts", "tsx"]

  /** Every file extension an import may name: the scripts, then JSON, CSV and TSV data. */
  const IMPORTED_FILE_EXTENSIONS: seq<string> := SUPPORTED_SCRIPT_FILE_EXTENSIONS + [".json", ".csv", ".tsv"]

  /**
   * The hand-written glob alternatives and the hand-written list agree: each
   * listed extension is a dot and the alternative in the same place.
   */
  lemma GlobMatchesList()
    ensures |SUPPORTED_SCRIPT_FILE_EXTENSIONS| == |SCRIPT_GLOB_ALTERNATIVES|
    ensures forall i :: 0 <= i < |SCRIPT_GLOB_ALTERNATIVES| ==>
      SUPPORTED_SCRIPT_FILE_EXTENSIONS[i] == "." + SCRIPT_GLOB_ALTERNATIVES[i]
  {
    var a := SCRIPT_GLOB_ALTERNATIVES;
    var s := SUPPORTED_SCRIPT_FILE_EXTENSIONS;
    assert s[0] == "." + a[0] && s[1] == "." + a[1] && s[2] == "." + a[2] && s[3] == "." + a[3];
    assert s[4] == "." + a[4] && s[5] == "." + a[5] && s[6] == "." + a[6] && s[7] == "." + a[7];
  }

  /** The imported extensions are the script extensions and exactly three data formats, none twice. */
  lemma ImportedExtensions()
    ensures |IMPORTED_FILE_EXTENSIONS| == 11 && Distinct(IMPORTED_FILE_EXTENSIONS)
    ensures IMPORTED_FILE_EXTENSIONS[..8] == SUPPORTED_SCRIPT_FILE_EXTENSIONS
    ensures forall e :: e in IMPORTED_FILE_EXTENSIONS <==>
      e in SUPPORTED_SCRIPT_FILE_EXTENSIONS || e == ".json" || e == ".csv" || e == ".tsv"
  {
    var s := IMPORTED_FILE_EXTENSIONS;
    assert s[0] == ".cjs" && s[1] == ".cts" && s[2] == ".js" && s[3] == ".jsx";
    assert s[4] == ".mjs" && s[5] == ".mts" && s[6] == ".ts" && s[7] == ".tsx";
    assert s[8] == ".json" && s[9] == ".csv" && s[10] == ".tsv";
  }

  lemma AlternativesDotFree()
    ensures forall i :: 0 <= i < |SCRIPT_GLOB_ALTERNATIVES| ==> '.' !in SCRIPT_GLOB_ALTERNATIVES[i]
  {
    var a := SCRIPT_GLOB_ALTERNATIVES;
    assert a[0] == "cjs" && a[1] == "cts" && a[2] == "js" && a[3] == "jsx";
    assert a[4] == "mjs" && a[5] == "mts" && a[6] == "ts" && a[7] == "tsx";
  }

  // ---------------------------------------------------------------------------
  // loadInputs("src")

  // What the glob of all script files below "src" returns with its three
  // ignore patterns: a script file below "src", not inside an "internal" or a
  // "__tests__" folder, and not a declaration file.
  predicate RollupSource(p: string) {
    UnderSrc(p, SCRIPT_GLOB_ALTERNATIVES)
    && !InFolder(p, "internal") && !InFolder(p, "__tests__") && !IsDeclarationFile(p)
  }

  /** A file the glob finds is named by its path below "src" without its extension, a supported one. */
  lemma RollupEntryName(cwd: seq<string>, p: string)
    requires WorkingDirectory(cwd) && RollupSource(p)
    ensures Extname(p) in SUPPORTED_SCRIPT_FILE_EXTENSIONS
    ensures 4 <= |p| - |Extname(p)| && EntryName(cwd, "src", p) == SourceEntryName(p)
  {
    AlternativesDotFree();
    GlobMatchesList();
    EntryNameBelowSrc(cwd, p, SCRIPT_GLOB_ALTERNATIVES);
    var k :| 0 <= k < |SCRIPT_GLOB_ALTERNATIVES| && Extname(p) == "." + SCRIPT_GLOB_ALTERNATIVES[k];
    assert Extname(p) == SUPPORTED_SCRIPT_FILE_EXTENSIONS[k];
  }

  /**
   * `loadInputs("src")`: each source file the glob found, named by its path
   * below "src" without the extension, mapped to its absolute path.
   */
  method LoadSourceInputs(cwd: seq<string>, projectDir: string, sourceFilePaths: seq<string>)
    returns (inputs: EntryMap, warnings: seq<Warning>)
    requires WorkingDirectory(cwd)
    requires forall i :: 0 <= i < |sourceFilePaths| ==> RollupSource(sourceFilePaths[i])
    ensures fresh(inputs)
    ensures inputs.entries == Fold(Empty(), Pairs(Naming(cwd, "src"), Locating(projectDir), sourceFilePaths))
    ensures warnings == Warnings(Empty(), Pairs(Naming(cwd, "src"), Locating(projectDir), sourceFilePaths))
    ensures forall i :: 0 <= i < |sourceFilePaths| ==>
      4 <= |sourceFilePaths[i]| - |Extname(sourceFilePaths[i])|
      && Naming(cwd, "src")(sourceFilePaths[i]) == SourceEntryName(sourceFilePaths[i])
  {
    inputs, warnings := LoadInputs(cwd, projectDir, "src", sourceFilePaths);
    forall i | 0 <= i < |sourceFilePaths|
      ensures 4 <= |sourceFilePaths[i]| - |Extname(sourceFilePaths[i])|
      ensures Naming(cwd, "src")(sourceFilePaths[i]) == SourceEntryName(sourceFilePaths[i])
    {
      RollupEntryName(cwd, sourceFilePaths[i]);
    }
  }

  /** Two source files have the same absolute path only when they are the same file. */
  lemma FilePathInjective(projectDir: string, a: string, b: string)
    requires FilePath(projectDir, a) == FilePath(projectDir, b)
    ensures a == b
  {
    var n := |projectDir| + 1;
    assert a == FilePath(projectDir, a)[n..];
    assert b == FilePath(projectDir, b)[n..];
  }

  /**
   * Internal scripts, test files and declaration files are never entry
   * points: no entry of the load has such a file's path as its value.
   */
  lemma ExcludedNeverEntries(naming: string -> string, projectDir: string, sourceFilePaths: seq<string>,
                             excluded: string, k: string)
    requires forall i :: 0 <= i < |sourceFilePaths| ==> RollupSource(sourceFilePaths[i])
    requires InFolder(excluded, "internal") || InFolder(excluded, "__tests__") || IsDeclarationFile(excluded)
    ensures Fold(Empty(), Pairs(naming, Locating(projectDir), sourceFilePaths)).Get(k)
      != Some(FilePath(projectDir, excluded))
  {
    var loaded := Fold(Empty(), Pairs(naming, Locating(projectDir), sourceFilePaths));
    if loaded.Has(k) {
      LoadedFromSources(naming, Locating(projectDir), sourceFilePaths, k);
      var j :| 0 <= j < |sourceFilePaths| && k == naming(sourceFilePaths[j])
        && loaded.Get(k) == Some(FilePath(projectDir, sourceFilePaths[j]));
      if FilePath(projectDir, sourceFilePaths[j]) == FilePath(projectDir, excluded) {
        FilePathInjective(projectDir, sourceFilePaths[j], excluded);
        assert false;
      }
    }
  }

  // ---------------------------------------------------------------------------
  // onwarn

  /** A warning Rollup reports; only its code is looked at, and it may have none. */
  datatype RollupWarning = RollupWarning(code: Option<string>, message: string)

  const EMPTY_BUNDLE: string := "EMPTY_BUNDLE"

  /** `onwarn(warning, defaultHandler)`: empty-bundle warnings are dropped, the others go to the default handler unchanged. */
  function OnWarn(warning: RollupWarning): (forwarded: Option<RollupWarning>)
    ensures forwarded.None? <==> warning.code == Some(EMPTY_BUNDLE)
    ensures forwarded.Some? ==> forwarded.value == warning
  {
    if warning.code == Some(EMPTY_BUNDLE) then None else Some(warning)
  }

  /** What the default handler receives over a build, in the order Rollup reported the warnings. */
  function Forwarded(warnings: seq<RollupWarning>): seq<RollupWarning>
    decreases |warnings|
  {
    if |warnings| == 0 then []
    else
      (if OnWarn(warnings[0]).Some? then [warnings[0]] else []) + Forwarded(warnings[1..])
  }

  /** The default handler sees exactly the warnings that are not about empty bundles. */
  lemma {:induction false} ForwardedMembers(warnings: seq<RollupWarning>, w: RollupWarning)
    ensures w in Forwarded(warnings) <==> w in warnings && w.code != Some(EMPTY_BUNDLE)
    decreases |warnings|
  {
    if |warnings| > 0 {
      ForwardedMembers(warnings[1..], w);
      assert warnings == [warnings[0]] + warnings[1..];
    }
  }

  /** Filtering keeps order: the warnings of two stretches of a build are forwarded one after the other. */
  lemma {:induction false} ForwardedAppend(a: seq<RollupWarning>, b: seq<RollupWarning>)
    ensures Forwarded(a + b) == Forwarded(a) + Forwarded(b)
    decreases |a|
  {
    if |a| == 0 {
      assert a + b == b;
    } else {
      var head := if OnWarn(a[0]).Some? then [a[0]] else [];
      assert Forwarded(a + b) == head + Forwarded(a[1..] + b) by {
        assert (a + b)[0] == a[0];
        assert (a + b)[1..] == a[1..] + b;
      }
      ForwardedAppend(a[1..], b);
      AppendAssoc(head, Forwarded(a[1..]), Forwarded(b));
    }
  }

  /** A build without empty-bundle warnings forwards every warning as it came. */
  lemma {:induction false} ForwardedUnchanged(warnings: seq<RollupWarning>)
    requires forall i :: 0 <= i < |warnings| ==> warnings[i].code != Some(EMPTY_BUNDLE)
    ensures Forwarded(warnings) == warnings
    decreases |warnings|
  {
    if |warnings| > 0 {
      ForwardedUnchanged(warnings[1..]);
      assert warnings == [warnings[0]] + warnings[1..];
    }
  }
}
