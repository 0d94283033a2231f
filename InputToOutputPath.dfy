/**
 * Mapping a file below an input root to the matching place below an output
 * root, optionally changing its folder, base name or extension.
 */
module InputToOutputPath {
  import opened Wrappers
  import opened Strings
  import opened Paths

  /**
   * The full extension of a base name: from its first `.` to the end, or ""
   * when it has no `.`.
   */
  function GetFileExtension(basename: string): (ext: string)
    ensures ext == "" <==> '.' !in basename
    ensures ext != "" ==> ext[0] == '.' && EndsWith(basename, ext) && '.' !in basename[..|basename| - |ext|]
  {
    var periodIndex := IndexOf(basename, ".", 0);
    if periodIndex >= 0 then
      OccursAtChar(basename, '.', periodIndex);
      forall i | 0 <= i < periodIndex ensures basename[i] != '.' {
        OccursAtChar(basename, '.', i);
      }
      basename[periodIndex..]
    else
      forall i | 0 <= i < |basename| ensures basename[i] != '.' {
        OccursAtChar(basename, '.', i);
      }
      ""
  }

  /** The optional transforms; `None` is an omitted property. */
  datatype Options = Options(
    transformDir: Option<string -> string>,
    transformBaseName: Option<string -> string>,
    transformFileExtension: Option<string -> string>)

  /** Calls a transform when one is given; an omitted one leaves the text as it is. */
  function Apply(transform: Option<string -> string>, text: string): string {
    if transform.Some? then transform.value(text) else text
  }

  /** "." and the extension, or nothing for an empty extension. */
  function ExtensionSuffix(ext: string): string {
    if |ext| > 0 then "." + ext else ""
  }

  /** `inputToOutputPath(rootInputPath, rootOutputPath, inputPath, options)`. */
  function InputToOutputPath(cwd: seq<string>, rootInputPath: string, rootOutputPath: string,
                             inputPath: string, options: Option<Options>): string
  {
    var relativePath := Relative(cwd, rootInputPath, inputPath);
    var outputPathWithOldExtension := Join2(rootOutputPath, relativePath);
    if options.None? then outputPathWithOldExtension
    else Transformed(outputPathWithOldExtension, options.value)
  }

  /** The transforms applied to the rebased path, in the order the source applies them. */
  function Transformed(outputPathWithOldExtension: string, o: Options): string {
    var dir := Apply(o.transformDir, Dirname(outputPathWithOldExtension));
    var baseNameWithExtension := Basename(outputPathWithOldExtension);
    var oldFileExtension := GetFileExtension(baseNameWithExtension);
    var baseName := Apply(o.transformBaseName,
                          baseNameWithExtension[..|baseNameWithExtension| - |oldFileExtension|]);
    var newFileExtension := Apply(o.transformFileExtension, oldFileExtension);
    Join2(dir, baseName) + ExtensionSuffix(newFileExtension)
  }

  // ---------------------------------------------------------------------------
  // Properties.

  /** The folder `sub` of `root`, or `root` itself for "". */
  function Under(root: string, sub: string): string {
    if sub == "" then root else root + "/" + sub
  }

  lemma UnderNormal(root: string, sub: string)
    requires NormalPath(root) && (sub == "" || NormalPath(sub))
    ensures NormalPath(Under(root, sub))
  {
    if sub != "" {
      JoinNormal(root, sub);
    }
  }

  /** A file name split at its first dot: a stem without dots and an extension. */
  predicate SplitName(stem: string, ext: string) {
    stem != "" && '.' !in stem && NormalSegment(stem + ext) && (ext == "" || ext[0] == '.')
  }

  lemma ExtensionOfSplitName(stem: string, ext: string)
    requires SplitName(stem, ext)
    ensures GetFileExtension(stem + ext) == ext
  {
    var n := stem + ext;
    var e := GetFileExtension(n);
    assert n[..|stem|] == stem;
    if ext == "" {
      assert n == stem;
    } else {
      assert n[|stem|] == '.';
      assert '.' in n;
      // The first dot of the name is the first character of `ext`.
      assert forall i :: 0 <= i < |stem| ==> n[i] != '.';
      var k := |n| - |e|;
      assert '.' !in n[..k];
      assert k <= |stem|;
      assert e[0] == '.' && n[k] == '.';
      assert k == |stem|;
    }
  }

  /**
   * Without options, a file below the input root lands at the same relative
   * place below the output root.
   */
  lemma NoOptionsRebases(cwd: seq<string>, rootIn: string, rootOut: string, rel: string)
    requires WorkingDirectory(cwd) && NormalPath(rootIn) && NormalPath(rootOut) && NormalPath(rel)
    ensures InputToOutputPath(cwd, rootIn, rootOut, rootIn + "/" + rel, None) == rootOut + "/" + rel
  {
    RelativeBelow(cwd, rootIn, rel);
    JoinNormal(rootOut, rel);
  }

  /**
   * With options, for the file `stem + ext` in folder `sub` below the input
   * root: the folder transform receives the matching folder below the output
   * root, the base-name transform receives the stem (the text before the
   * first dot), the extension transform receives the extension with its dot,
   * and the new extension is added after one more dot unless it is empty.
   */
  lemma OptionsTransformParts(cwd: seq<string>, rootIn: string, rootOut: string, sub: string,
                              stem: string, ext: string, o: Options)
    requires WorkingDirectory(cwd) && NormalPath(rootIn) && NormalPath(rootOut)
    requires sub == "" || NormalPath(sub)
    requires SplitName(stem, ext)
    ensures InputToOutputPath(cwd, rootIn, rootOut, Under(rootIn, sub) + "/" + stem + ext, Some(o))
         == Join2(Apply(o.transformDir, Under(rootOut, sub)), Apply(o.transformBaseName, stem))
            + ExtensionSuffix(Apply(o.transformFileExtension, ext))
  {
    var name := stem + ext;
    NoSeparatorSplit(name, '/');
    RebasedChild(cwd, rootIn, rootOut, sub, name);
    assert Under(rootIn, sub) + "/" + stem + ext == Under(rootIn, sub) + "/" + name;
    assert Under(rootOut, sub) + "/" + stem + ext == Under(rootOut, sub) + "/" + name;
    UnderNormal(rootOut, sub);
    TransformedChild(Under(rootOut, sub), stem, ext, o);
  }

  /** The file `name` in folder `sub` of the input root is rebased to folder `sub` of the output root. */
  lemma RebasedChild(cwd: seq<string>, rootIn: string, rootOut: string, sub: string, name: string)
    requires WorkingDirectory(cwd) && NormalPath(rootIn) && NormalPath(rootOut)
    requires sub == "" || NormalPath(sub)
    requires NormalPath(name)
    ensures Join2(rootOut, Relative(cwd, rootIn, Under(rootIn, sub) + "/" + name)) == Under(rootOut, sub) + "/" + name
  {
    var rel := if sub == "" then name else sub + "/" + name;
    if sub != "" {
      JoinNormal(sub, name);
    }
    assert Under(rootIn, sub) + "/" + name == rootIn + "/" + rel;
    assert Under(rootOut, sub) + "/" + name == rootOut + "/" + rel;
    RelativeBelow(cwd, rootIn, rel);
    JoinNormal(rootOut, rel);
  }

  /** `Transformed` on the file `stem + ext` directly in the folder `dir`. */
  lemma TransformedChild(dir: string, stem: string, ext: string, o: Options)
    requires NormalPath(dir) && SplitName(stem, ext)
    ensures Transformed(dir + "/" + stem + ext, o)
         == Join2(Apply(o.transformDir, dir), Apply(o.transformBaseName, stem))
            + ExtensionSuffix(Apply(o.transformFileExtension, ext))
  {
    var name := stem + ext;
    assert dir + "/" + stem + ext == dir + "/" + name;
    DirnameOfChild(dir, name);
    BasenameOfChild(dir, name);
    ExtensionOfSplitName(stem, ext);
    assert name[..|name| - |ext|] == stem;
  }

  /**
   * With options but no extension transform, the kept extension already
   * starts with a dot and another is added: "A.schema.json" becomes
   * "A..schema.json".
   */
  lemma KeptExtensionDoublesDot(cwd: seq<string>, rootIn: string, rootOut: string, stem: string, ext: string)
    requires WorkingDirectory(cwd) && NormalPath(rootIn) && NormalPath(rootOut)
    requires SplitName(stem, ext) && ext != ""
    ensures InputToOutputPath(cwd, rootIn, rootOut, rootIn + "/" + stem + ext, Some(Options(None, None, None)))
         == rootOut + "/" + stem + "." + ext
  {
    OptionsTransformParts(cwd, rootIn, rootOut, "", stem, ext, Options(None, None, None));
    StemNormal(stem, ext);
    JoinNormal(rootOut, stem);
  }

  /** The stem of a split file name is a one-segment path. */
  lemma StemNormal(stem: string, ext: string)
    requires SplitName(stem, ext)
    ensures NormalPath(stem)
  {
    assert forall i :: 0 <= i < |stem| ==> stem[i] == (stem + ext)[i];
    assert '/' !in stem;
    assert '.' !in stem;
    NoSeparatorSplit(stem, '/');
  }

  /** An empty new extension adds nothing: the result is the folder joined with the base name. */
  lemma EmptyExtensionAddsNothing(cwd: seq<string>, rootIn: string, rootOut: string, sub: string,
                                  stem: string, ext: string, o: Options)
    requires WorkingDirectory(cwd) && NormalPath(rootIn) && NormalPath(rootOut)
    requires sub == "" || NormalPath(sub)
    requires SplitName(stem, ext)
    requires Apply(o.transformFileExtension, ext) == ""
    ensures InputToOutputPath(cwd, rootIn, rootOut, Under(rootIn, sub) + "/" + stem + ext, Some(o))
         == Join2(Apply(o.transformDir, Under(rootOut, sub)), Apply(o.transformBaseName, stem))
  {
    OptionsTransformParts(cwd, rootIn, rootOut, sub, stem, ext, o);
  }

  /**
   * With both roots written "./" + `root` (as in "./src"), the file `name` in
   * folder `sub` below the root is rebased onto the same place.
   */
  lemma DotSlashRebasedChild(cwd: seq<string>, root: string, sub: string, name: string)
    requires WorkingDirectory(cwd) && NormalPath(root) && |root| > 0 && root[0] != '.'
    requires sub == "" || NormalPath(sub)
    requires NormalSegment(name)
    ensures Join2("./" + root, Relative(cwd, "./" + root, Under(root, sub) + "/" + name)) == Under(root, sub) + "/" + name
  {
    var rel := if sub == "" then name else sub + "/" + name;
    assert NormalPath(rel) by {
      SegmentPath(name);
      if sub != "" {
        JoinNormal(sub, name);
      }
    }
    var p := Under(root, sub) + "/" + name;
    assert p == root + "/" + rel;
    assert Relative(cwd, root, p) == rel by {
      RelativeBelow(cwd, root, rel);
    }
    assert Relative(cwd, "./" + root, p) == rel by {
      assert p[0] == root[0] && |p| > |root|;
      RelativeFromDotSlash(cwd, root, p);
    }
    JoinOntoDotSlash(root, rel);
  }

  /** `OptionsTransformParts` for roots written "./" + `root`. */
  lemma DotSlashTransformParts(cwd: seq<string>, root: string, sub: string, stem: string, ext: string, o: Options)
    requires WorkingDirectory(cwd) && NormalPath(root) && |root| > 0 && root[0] != '.'
    requires sub == "" || NormalPath(sub)
    requires SplitName(stem, ext)
    ensures InputToOutputPath(cwd, "./" + root, "./" + root, Under(root, sub) + "/" + stem + ext, Some(o))
         == Join2(Apply(o.transformDir, Under(root, sub)), Apply(o.transformBaseName, stem))
            + ExtensionSuffix(Apply(o.transformFileExtension, ext))
  {
    var name := stem + ext;
    assert Under(root, sub) + "/" + stem + ext == Under(root, sub) + "/" + name;
    DotSlashRebasedChild(cwd, root, sub, name);
    UnderNormal(root, sub);
    TransformedChild(Under(root, sub), stem, ext, o);
  }

  /**
   * Two option sets that differ only in the extension transform give paths
   * that differ only in the extension: both transforms receive the same old
   * extension.
   */
  lemma ExtensionTransformOnly(cwd: seq<string>, rootIn: string, rootOut: string, inputPath: string,
                               o1: Options, o2: Options)
    requires o1.transformDir == o2.transformDir && o1.transformBaseName == o2.transformBaseName
    ensures exists prefix, oldExt ::
      InputToOutputPath(cwd, rootIn, rootOut, inputPath, Some(o1))
        == prefix + ExtensionSuffix(Apply(o1.transformFileExtension, oldExt)) &&
      InputToOutputPath(cwd, rootIn, rootOut, inputPath, Some(o2))
        == prefix + ExtensionSuffix(Apply(o2.transformFileExtension, oldExt))
  {
    var out := Join2(rootOut, Relative(cwd, rootIn, inputPath));
    var baseNameWithExtension := Basename(out);
    var oldExt := GetFileExtension(baseNameWithExtension);
    var prefix := Join2(Apply(o1.transformDir, Dirname(out)),
                        Apply(o1.transformBaseName,
                              baseNameWithExtension[..|baseNameWithExtension| - |oldExt|]));
    assert InputToOutputPath(cwd, rootIn, rootOut, inputPath, Some(o1)) == Transformed(out, o1);
    assert InputToOutputPath(cwd, rootIn, rootOut, inputPath, Some(o2)) == Transformed(out, o2);
    TransformedParts(out, o1);
    TransformedParts(out, o2);
  }

  /** What `Transformed` joins: the transformed folder and stem, then the transformed extension. */
  lemma TransformedParts(out: string, o: Options)
    ensures var b := Basename(out);
      var oldExt := GetFileExtension(b);
      Transformed(out, o)
        == Join2(Apply(o.transformDir, Dirname(out)), Apply(o.transformBaseName, b[..|b| - |oldExt|]))
           + ExtensionSuffix(Apply(o.transformFileExtension, oldExt))
  {
  }
}
