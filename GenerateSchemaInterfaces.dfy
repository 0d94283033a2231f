/**
 * The script that writes a TypeScript interface module next to every JSON
 * schema below "./src". The compiler `json-schema-to-typescript` and the
 * `ImportFactory` it reports imported types to are not part of this model:
 * the compiler is a parameter, and so is the factory's choice of alias and
 * the import code it renders after a compilation.
 */
module GenerateSchemaInterfaces {
  import opened Wrappers
  import opened Strings
  import opened OrderedMaps
  import opened Json
  import opened Paths
  import opened InputToOutputPath
  import FromTitleToTypeName
  import ToIdToSchemaMap
  import opened ImportFactories

  /** The folder the schemas are read from, relative to the project root. */
  const INPUT_ROOT := "./src"

  /** The folder the interface modules are written to. */
  const OUTPUT_ROOT := "./src"

  // ---------------------------------------------------------------------------
  // Import paths.

  /** Rebasing under "" with the extension dropped. */
  function ImportPathOptions(): Options {
    Options(None, None, Some(oldFileExtension => ""))
  }

  /** The module path used to import the interface of the schema at `absoluteFilePath`. */
  function ImportPath(cwd: seq<string>, absoluteFilePath: string): string {
    InputToOutputPath.InputToOutputPath(cwd, INPUT_ROOT, "", absoluteFilePath, Some(ImportPathOptions()))
  }

  /** `ImportPath` under a working directory, as a function value. */
  function ImportPaths(cwd: seq<string>): (importPath: string -> string)
    ensures forall p :: importPath(p) == ImportPath(cwd, p)
  {
    p => ImportPath(cwd, p)
  }

  /**
   * The id-to-import-path map for the first `n` entries: a schema whose `$id`
   * is not a string is skipped, and a later schema with the same id replaces
   * the path recorded for an earlier one.
   */
  function IdToImportPath(importPath: string -> string, entries: seq<(string, JsonObject)>, n: nat)
    : (m: OrderedMap<string, string>)
    requires n <= |entries|
    ensures m.Valid()
  {
    if n == 0 then Empty()
    else Record(importPath, IdToImportPath(importPath, entries, n - 1), entries[n - 1])
  }

  /** One iteration of the loop: a string id is (re)mapped to the entry's import path. */
  function Record(importPath: string -> string, m: OrderedMap<string, string>, entry: (string, JsonObject))
    : (r: OrderedMap<string, string>)
    requires m.Valid()
    ensures r.Valid()
  {
    match ToIdToSchemaMap.StringId(entry.1)
    case Some(id) => m.Set(id, importPath(entry.0))
    case None => m
  }

  /**
   * `createIdToImportPath(absoluteFilePathToSchema)`, where `importPath` is
   * the `inputToOutputPath` call of the loop body (`ImportPaths(cwd)`).
   */
  method CreateIdToImportPath(importPath: string -> string, absoluteFilePathToSchema: OrderedMap<string, JsonObject>)
    returns (idToImportPath: OrderedMap<string, string>)
    requires absoluteFilePathToSchema.Valid()
    ensures idToImportPath == IdToImportPath(importPath, absoluteFilePathToSchema.Entries(),
                                             |absoluteFilePathToSchema.Entries()|)
  {
    var entries := absoluteFilePathToSchema.Entries();
    idToImportPath := Empty();
    for i := 0 to |entries|
      invariant idToImportPath == IdToImportPath(importPath, entries, i)
    {
      var (absoluteFilePath, schema) := entries[i];
      RecordStep(importPath, idToImportPath, entries[i]);
      var id := Property(schema, "$id");
      if TypeOf(id) != "string" {
        continue;
      }
      var absoluteImportPath := importPath(absoluteFilePath);
      idToImportPath := idToImportPath.Set(id.value.s, absoluteImportPath);
    }
  }

  /** What one iteration records: nothing without a string id, else the id mapped to the import path. */
  lemma RecordStep(importPath: string -> string, m: OrderedMap<string, string>, entry: (string, JsonObject))
    requires m.Valid()
    ensures TypeOf(Property(entry.1, "$id")) != "string" ==> Record(importPath, m, entry) == m
    ensures TypeOf(Property(entry.1, "$id")) == "string" ==>
      Property(entry.1, "$id").Some? && Property(entry.1, "$id").value.JStr?
      && Record(importPath, m, entry) == m.Set(Property(entry.1, "$id").value.s, importPath(entry.0))
  {
  }

  /** Entry `k` carries the string id `id`, and no later entry of the first `n` does. */
  predicate LastCarrier(entries: seq<(string, JsonObject)>, n: nat, k: nat, id: string)
    requires n <= |entries|
  {
    k < n && ToIdToSchemaMap.StringId(entries[k].1) == Some(id)
    && forall j :: k < j < n ==> ToIdToSchemaMap.StringId(entries[j].1) != Some(id)
  }

  /**
   * `createOutputPath(schemaAbsoluteFilePath)`: same folder and base name below
   * the output root, extension "ts".
   */
  function CreateOutputPath(cwd: seq<string>, schemaAbsoluteFilePath: string): string {
    InputToOutputPath.InputToOutputPath(cwd, INPUT_ROOT, OUTPUT_ROOT, schemaAbsoluteFilePath,
                                        Some(Options(None, None, Some(oldFileExtension => "ts"))))
  }

  // ---------------------------------------------------------------------------
  // Naming referenced types.

  /** The request `customName` makes: the module path and the title, with both flags omitted. */
  function TitleRequest(modulePath: string, title: Json): Request {
    Request(modulePath, title, None, None)
  }

  /** The module path `customName` looks up for a schema: only a string `$id` can be a key. */
  function ModulePathOf(customSchema: JsonObject, idToImportPath: OrderedMap<string, string>): Option<string> {
    match Property(customSchema, "$id")
    case Some(JStr(id)) => idToImportPath.Get(id)
    case _ => None
  }

  /**
   * `customName(customSchema, keyNameFromDefinition)`: a non-empty key name
   * wins; otherwise a schema with a truthy title and a non-empty module path
   * gets an alias from the factory; otherwise no name.
   */
  method CustomName(importFactory: ImportFactory, aliasOf: (seq<Request>, Request) -> string,
                    idToImportPath: OrderedMap<string, string>,
                    customSchema: JsonObject, keyNameFromDefinition: Option<string>)
    returns (name: Option<string>)
    modifies importFactory
    ensures keyNameFromDefinition.Some? && keyNameFromDefinition.value != "" ==>
      name == keyNameFromDefinition && importFactory.requests == old(importFactory.requests)
    ensures !(keyNameFromDefinition.Some? && keyNameFromDefinition.value != "") ==>
      var modulePath := ModulePathOf(customSchema, idToImportPath);
      if Truthy(Property(customSchema, "title")) && modulePath.Some? && modulePath.value != "" then
        var title := Property(customSchema, "title").value;
        name == Some(aliasOf(old(importFactory.requests), TitleRequest(modulePath.value, title)))
        && importFactory.requests == old(importFactory.requests) + [TitleRequest(modulePath.value, title)]
      else
        name == None && importFactory.requests == old(importFactory.requests)
  {
    if keyNameFromDefinition.Some? && keyNameFromDefinition.value != "" {
      return keyNameFromDefinition;
    }
    var customTitle := Property(customSchema, "title");
    if Truthy(customTitle) {
      var modulePath := ModulePathOf(customSchema, idToImportPath);
      if modulePath.Some? && modulePath.value != "" {
        var aliasName := importFactory.Import(aliasOf, TitleRequest(modulePath.value, customTitle.value));
        return Some(aliasName);
      }
    }
    return None;
  }

  // ---------------------------------------------------------------------------
  // Interface code.

  /**
   * The foreign parts of `createInterfaceCode`: the compiled interface for a
   * schema under its type name, and the import code the schema's import
   * factory renders once compilation has registered its imports.
   */
  datatype Compiler = Compiler(
    compile: (JsonObject, string) -> string,
    importCode: (JsonObject, Option<string>) -> string)

  /** The import block: the factory's code, with a line break added when there is any. */
  function ImportBlock(importCode: string): string {
    if |importCode| > 0 then importCode + "\n" else importCode
  }

  /** The module: the full header, a line break, the import block, a line break, the interface. */
  function Assemble(fullHeader: string, importCode: string, interfaceCode: string): string {
    fullHeader + "\n" + ImportBlock(importCode) + "\n" + interfaceCode
  }

  /** The message of the `TypeError` for a non-string `$id`. */
  function IdTypeErrorMessage(id: Option<Json>): string {
    "Id has wrong type " + TypeOf(id)
  }

  /**
   * `createInterfaceCode(schema, idToSchema, idToImportPath)`: the title is
   * checked first; the `$id` is checked after compilation.
   */
  function CreateInterfaceCode(c: Compiler, fullHeader: string, schema: JsonObject,
                               idToImportPath: OrderedMap<string, string>): (r: Result<string, Exception>)
    ensures FromTitleToTypeName.FromTitleToTypeName(schema).Failure? ==>
      r == Failure(FromTitleToTypeName.FromTitleToTypeName(schema).error)
    ensures FromTitleToTypeName.FromTitleToTypeName(schema).Success? ==>
      (r.Failure? <==> TypeOf(Property(schema, "$id")) != "string")
    ensures FromTitleToTypeName.FromTitleToTypeName(schema).Success? && r.Failure? ==>
      r.error == TypeError(IdTypeErrorMessage(Property(schema, "$id")))
    ensures r.Success? ==>
      exists id :: (Property(schema, "$id") == Some(JStr(id)) &&
                    r.value == Assemble(fullHeader, c.importCode(schema, idToImportPath.Get(id)),
                                        c.compile(schema, FromTitleToTypeName.FromTitleToTypeName(schema).value)))
  {
    var typeName :- FromTitleToTypeName.FromTitleToTypeName(schema);
    var interfaceCode := c.compile(schema, typeName);
    var id := Property(schema, "$id");
    if TypeOf(id) != "string" then Failure(TypeError(IdTypeErrorMessage(id)))
    else
      TypeOfString(id);
      var modulePath := idToImportPath.Get(id.value.s);
      Success(Assemble(fullHeader, c.importCode(schema, modulePath), interfaceCode))
  }

  /** The parts of the per-schema work that do not depend on the schema. */
  datatype Script = Script(compiler: Compiler, fullHeader: string, outputPath: string -> string)

  /** `CreateOutputPath` under a working directory, as a function value. */
  function OutputPaths(cwd: seq<string>): (outputPath: string -> string)
    ensures forall p :: outputPath(p) == CreateOutputPath(cwd, p)
  {
    p => CreateOutputPath(cwd, p)
  }

  /** The header at the top of every module: the generated-file comment, a line break, the license. */
  function FullHeader(generatedHeader: string, licenseText: string): string {
    generatedHeader + "\n" + licenseText
  }

  // ---------------------------------------------------------------------------
  // The script.

  /** What `processSchema` does for one entry: the file it writes (none for empty code), or the error. */
  function Process(s: Script, idToImportPath: OrderedMap<string, string>,
                   entry: (string, JsonObject)): Result<Option<(string, string)>, Exception>
  {
    var code :- CreateInterfaceCode(s.compiler, s.fullHeader, entry.1, idToImportPath);
    if |code| <= 0 then Success(None)
    else Success(Some((s.outputPath(entry.0), code)))
  }

  /** `Process` for fixed script parts and import paths, as a function value. */
  function Processes(s: Script, idToImportPath: OrderedMap<string, string>)
    : (process: ((string, JsonObject)) -> Result<Option<(string, string)>, Exception>)
    ensures forall entry :: process(entry) == Process(s, idToImportPath, entry)
  {
    entry => Process(s, idToImportPath, entry)
  }

  /** The files written for the first `n` entries, in call order. */
  function Modules(process: ((string, JsonObject)) -> Result<Option<(string, string)>, Exception>,
                   entries: seq<(string, JsonObject)>, n: nat): seq<(string, string)>
    requires n <= |entries|
  {
    if n == 0 then []
    else
      var earlier := Modules(process, entries, n - 1);
      match process(entries[n - 1])
      case Success(Some(file)) => earlier + [file]
      case _ => earlier
  }

  /** The first error among the first `n` calls, in call order. */
  function FirstError(process: ((string, JsonObject)) -> Result<Option<(string, string)>, Exception>,
                      entries: seq<(string, JsonObject)>, n: nat): Option<Exception>
    requires n <= |entries|
  {
    if n == 0 then None
    else
      var earlier := FirstError(process, entries, n - 1);
      if earlier.Some? then earlier
      else
        match process(entries[n - 1])
        case Success(_) => None
        case Failure(e) => Some(e)
  }

  /**
   * The main block: the id-to-schema index (which throws on a duplicate id
   * before anything is written), the id-to-import-path map, then every
   * schema processed in iteration order. The writes and the error that is
   * logged.
   */
  method Run(c: Compiler, fullHeader: string, cwd: seq<string>,
             absoluteFilePathToSchema: OrderedMap<string, JsonObject>)
    returns (writes: seq<(string, string)>, error: Option<Exception>)
    requires absoluteFilePathToSchema.Valid()
    ensures var entries := absoluteFilePathToSchema.Entries();
      var index := ToIdToSchemaMap.Index(absoluteFilePathToSchema.Values());
      var process := Processes(Script(c, fullHeader, OutputPaths(cwd)),
                               IdToImportPath(ImportPaths(cwd), entries, |entries|));
      (index.Failure? ==> writes == [] && error == Some(index.error))
      && (index.Success? ==>
            writes == Modules(process, entries, |entries|)
            && error == FirstError(process, entries, |entries|))
  {
    var idToSchema := ToIdToSchemaMap.ToIdToSchemaMap(absoluteFilePathToSchema.Values());
    if idToSchema.Failure? {
      return [], Some(idToSchema.error);
    }
    var idToImportPath := CreateIdToImportPath(ImportPaths(cwd), absoluteFilePathToSchema);
    var process := Processes(Script(c, fullHeader, OutputPaths(cwd)), idToImportPath);
    writes, error := ProcessAll(process, absoluteFilePathToSchema.Entries());
  }

  /**
   * The loop of the main block: every entry processed in order; each file a
   * call writes is kept, and the first error is the one reported.
   */
  method ProcessAll(process: ((string, JsonObject)) -> Result<Option<(string, string)>, Exception>,
                    entries: seq<(string, JsonObject)>)
    returns (writes: seq<(string, string)>, error: Option<Exception>)
    ensures writes == Modules(process, entries, |entries|)
    ensures error == FirstError(process, entries, |entries|)
  {
    writes := [];
    error := None;
    for i := 0 to |entries|
      invariant writes == Modules(process, entries, i)
      invariant error == FirstError(process, entries, i)
    {
      var processed := process(entries[i]);
      if processed.Success? {
        if processed.value.Some? {
          writes := writes + [processed.value.value];
        }
      } else if error.None? {
        error := Some(processed.error);
      }
    }
  }

  // ---------------------------------------------------------------------------
  // Properties.

  /** Entry `k` carries the string id `id`. */
  predicate CarriesAt(entries: seq<(string, JsonObject)>, k: nat, id: string) {
    k < |entries| && ToIdToSchemaMap.StringId(entries[k].1) == Some(id)
  }

  /** One entry more adds its id, when it has one, and keeps every other key. */
  lemma IdToImportPathStep(importPath: string -> string, entries: seq<(string, JsonObject)>, n: nat, id: string)
    requires 0 < n <= |entries|
    ensures IdToImportPath(importPath, entries, n).Has(id) <==>
      IdToImportPath(importPath, entries, n - 1).Has(id) || CarriesAt(entries, n - 1, id)
  {
    RecordCases(importPath, IdToImportPath(importPath, entries, n - 1), entries[n - 1]);
  }

  lemma RecordCases(importPath: string -> string, m: OrderedMap<string, string>, entry: (string, JsonObject))
    requires m.Valid()
    ensures ToIdToSchemaMap.StringId(entry.1).None? ==> Record(importPath, m, entry) == m
    ensures ToIdToSchemaMap.StringId(entry.1).Some? ==>
      Record(importPath, m, entry) == m.Set(ToIdToSchemaMap.StringId(entry.1).value, importPath(entry.0))
  {
  }

  /** An id is a key exactly when some entry carries it as a string `$id`. */
  lemma {:induction false} IdToImportPathKeys(importPath: string -> string, entries: seq<(string, JsonObject)>, n: nat,
                                              id: string)
    requires n <= |entries|
    ensures IdToImportPath(importPath, entries, n).Has(id) <==> exists k: nat :: k < n && CarriesAt(entries, k, id)
  {
    if n > 0 {
      var before := IdToImportPath(importPath, entries, n - 1);
      assert before.Has(id) <==> exists k: nat :: k < n - 1 && CarriesAt(entries, k, id) by {
        IdToImportPathKeys(importPath, entries, n - 1, id);
      }
      assert IdToImportPath(importPath, entries, n).Has(id) <==> before.Has(id) || CarriesAt(entries, n - 1, id) by {
        IdToImportPathStep(importPath, entries, n, id);
      }
      CarriesBelowStep(entries, n, id);
    }
  }

  /** Some entry below `n` carries `id` exactly when one below `n - 1` does or entry `n - 1` does. */
  lemma CarriesBelowStep(entries: seq<(string, JsonObject)>, n: nat, id: string)
    requires n > 0
    ensures (exists k: nat :: k < n && CarriesAt(entries, k, id))
        <==> (exists k: nat :: k < n - 1 && CarriesAt(entries, k, id)) || CarriesAt(entries, n - 1, id)
  {
    if exists k: nat :: k < n && CarriesAt(entries, k, id) {
      var k: nat :| k < n && CarriesAt(entries, k, id);
      if k < n - 1 {
        assert exists k: nat :: k < n - 1 && CarriesAt(entries, k, id);
      }
    }
    if CarriesAt(entries, n - 1, id) {
      assert exists k: nat :: k < n && CarriesAt(entries, k, id);
    }
  }

  /** A recorded id maps to the import path of the last entry carrying it: the last one wins. */
  lemma {:induction false} IdToImportPathLastWins(importPath: string -> string, entries: seq<(string, JsonObject)>, n: nat,
                                                  k: nat, id: string)
    requires n <= |entries| && LastCarrier(entries, n, k, id)
    ensures IdToImportPath(importPath, entries, n).Get(id) == Some(importPath(entries[k].0))
  {
    var prev := IdToImportPath(importPath, entries, n - 1);
    assert IdToImportPath(importPath, entries, n) == Record(importPath, prev, entries[n - 1]);
    RecordCases(importPath, prev, entries[n - 1]);
    if k < n - 1 {
      assert ToIdToSchemaMap.StringId(entries[n - 1].1) != Some(id);
      assert LastCarrier(entries, n - 1, k, id);
      IdToImportPathLastWins(importPath, entries, n - 1, k, id);
    }
  }

  /** Two schemas with the same id raise nothing: the later path replaces the earlier. */
  lemma LaterDuplicateOverwrites(importPath: string -> string, path1: string, schema1: JsonObject,
                                 path2: string, schema2: JsonObject, id: string)
    requires ToIdToSchemaMap.StringId(schema1) == Some(id) && ToIdToSchemaMap.StringId(schema2) == Some(id)
    ensures IdToImportPath(importPath, [(path1, schema1), (path2, schema2)], 2).Get(id) == Some(importPath(path2))
    ensures IdToImportPath(importPath, [(path1, schema1), (path2, schema2)], 2).keys == [id]
  {
    var entries := [(path1, schema1), (path2, schema2)];
    IdToImportPathLastWins(importPath, entries, 2, 1, id);
    var m0 := IdToImportPath(importPath, entries, 0);
    var m1 := IdToImportPath(importPath, entries, 1);
    assert m1 == Record(importPath, m0, entries[0]);
    RecordCases(importPath, m0, entries[0]);
    assert m1.keys == [id];
    assert IdToImportPath(importPath, entries, 2) == Record(importPath, m1, entries[1]);
    RecordCases(importPath, m1, entries[1]);
  }

  /** A normal segment has no folder part. */
  lemma DirnameOfSegment(name: string)
    requires NormalSegment(name)
    ensures Dirname(name) == "."
  {
    if |name| > 1 {
      DirnameNoSlash(name, |name| - 1);
    }
  }

  lemma {:induction false} DirnameNoSlash(p: string, i: nat)
    requires i < |p| && '/' !in p
    ensures DirnameEnd(p, i, true) == -1 && DirnameEnd(p, i, false) == -1
    decreases i
  {
    if i >= 1 {
      DirnameNoSlash(p, i - 1);
    }
  }

  /** A file below "src" is rebased under "": the transforms see its path relative to "src". */
  lemma ImportPathRebased(cwd: seq<string>, rel: string)
    requires WorkingDirectory(cwd) && NormalPath(rel)
    ensures ImportPath(cwd, "src/" + rel) == Transformed(rel, ImportPathOptions())
  {
    SegmentPath("src");
    var p := "src/" + rel;
    assert p == "src" + "/" + rel;
    RelativeBelow(cwd, "src", rel);
    assert p[0] == 's';
    assert INPUT_ROOT == "./" + "src";
    RelativeFromDotSlash(cwd, "src", p);
    NormalizeNormal(rel);
    assert Join2("", rel) == rel;
  }

  /** Dropping the extension of "stem.ext" directly below the root leaves "stem". */
  lemma DroppedExtensionOfName(stem: string, ext: string)
    requires SplitName(stem, ext)
    ensures Transformed(stem + ext, ImportPathOptions()) == stem
  {
    var name := stem + ext;
    ExtensionOfSplitName(stem, ext);
    BasenameOfChild("", name);
    assert name[..|name| - |ext|] == stem;
    DirnameOfSegment(name);
    StemNormal(stem, ext);
    JoinOntoDot(stem);
  }

  /** Dropping the extension of "sub/stem.ext" leaves "sub/stem". */
  lemma DroppedExtensionInFolder(sub: string, stem: string, ext: string)
    requires NormalPath(sub) && SplitName(stem, ext)
    ensures Transformed(sub + "/" + stem + ext, ImportPathOptions()) == sub + "/" + stem
  {
    TransformedChild(sub, stem, ext, ImportPathOptions());
    StemNormal(stem, ext);
    JoinNormal(sub, stem);
  }

  lemma SlashAssoc(sub: string, stem: string, ext: string)
    ensures "src/" + (sub + "/" + (stem + ext)) == "src" + "/" + sub + "/" + stem + ext
    ensures sub + "/" + (stem + ext) == sub + "/" + stem + ext
  {
  }

  /**
   * The schema "src/sub/stem.ext" is imported as "sub/stem" (or "stem"
   * directly below "src"): rebased under "", extension dropped.
   */
  lemma ImportPathOfSchemaFile(cwd: seq<string>, sub: string, stem: string, ext: string)
    requires WorkingDirectory(cwd) && (sub == "" || NormalPath(sub)) && SplitName(stem, ext)
    ensures ImportPath(cwd, Under("src", sub) + "/" + stem + ext) == (if sub == "" then stem else sub + "/" + stem)
  {
    var name := stem + ext;
    SegmentPath(name);
    if sub == "" {
      assert Under("src", sub) + "/" + stem + ext == "src/" + name;
      ImportPathRebased(cwd, name);
      DroppedExtensionOfName(stem, ext);
    } else {
      JoinNormal(sub, name);
      var rel := sub + "/" + name;
      SlashAssoc(sub, stem, ext);
      assert Under("src", sub) + "/" + stem + ext == "src/" + rel;
      ImportPathRebased(cwd, rel);
      DroppedExtensionInFolder(sub, stem, ext);
    }
  }

  /** The interface of "src/sub/stem.ext" is written to "src/sub/stem.ts". */
  lemma OutputPathOfSchemaFile(cwd: seq<string>, sub: string, stem: string, ext: string)
    requires WorkingDirectory(cwd) && (sub == "" || NormalPath(sub)) && SplitName(stem, ext)
    ensures CreateOutputPath(cwd, Under("src", sub) + "/" + stem + ext) == Under("src", sub) + "/" + stem + ".ts"
  {
    assert INPUT_ROOT == "./" + "src" && OUTPUT_ROOT == "./" + "src";
    SegmentPath("src");
    DotSlashTransformParts(cwd, "src", sub, stem, ext, Options(None, None, Some(oldFileExtension => "ts")));
    UnderNormal("src", sub);
    StemNormal(stem, ext);
    JoinNormal(Under("src", sub), stem);
    TsSuffix();
  }

  lemma TsSuffix()
    ensures ExtensionSuffix("ts") == ".ts"
  {
  }

  /**
   * The module is the full header, then the factory's import code followed
   * by a blank line when there is any, else one line break, then the
   * interface.
   */
  lemma AssembleLayout(fullHeader: string, importCode: string, interfaceCode: string)
    ensures |importCode| == 0 ==> Assemble(fullHeader, importCode, interfaceCode) == fullHeader + "\n\n" + interfaceCode
    ensures |importCode| > 0 ==>
      Assemble(fullHeader, importCode, interfaceCode) == fullHeader + "\n" + importCode + "\n\n" + interfaceCode
    ensures StartsWith(Assemble(fullHeader, importCode, interfaceCode), fullHeader + "\n")
    ensures EndsWith(Assemble(fullHeader, importCode, interfaceCode), "\n" + interfaceCode)
  {
    var h := fullHeader + "\n";
    var block := ImportBlock(importCode);
    var tail := "\n" + interfaceCode;
    assert Assemble(fullHeader, importCode, interfaceCode) == (h + block) + tail by {
      AppendAssoc(h + block, "\n", interfaceCode);
    }
    AppendAssoc(h, block, tail);
    StartsWithAppend(h, h, block + tail);
    EndsWithPrepend(tail, tail, h + block);
    if |importCode| == 0 {
      assert h + block == h;
      DoubleBreak(fullHeader, interfaceCode);
    } else {
      assert h + block == (h + importCode) + "\n" by {
        AppendAssoc(h, importCode, "\n");
      }
      DoubleBreak(h + importCode, interfaceCode);
    }
  }

  lemma DoubleBreak(x: string, y: string)
    ensures (x + "\n") + ("\n" + y) == x + "\n\n" + y
  {
    AppendAssoc(x, "\n", "\n" + y);
    AppendAssoc("\n", "\n", y);
    assert "\n" + "\n" == "\n\n";
    AppendAssoc(x, "\n\n", y);
  }

  /** The early return of `processSchema` for empty code never happens: every module holds two line breaks. */
  lemma ProcessAlwaysWrites(s: Script,
                            idToImportPath: OrderedMap<string, string>, entry: (string, JsonObject))
    requires CreateInterfaceCode(s.compiler, s.fullHeader, entry.1, idToImportPath).Success?
    ensures Process(s, idToImportPath, entry)
         == Success(Some((s.outputPath(entry.0), CreateInterfaceCode(s.compiler, s.fullHeader, entry.1, idToImportPath).value)))
  {
    var code := CreateInterfaceCode(s.compiler, s.fullHeader, entry.1, idToImportPath).value;
    var id :| Property(entry.1, "$id") == Some(JStr(id)) &&
      code == Assemble(s.fullHeader, s.compiler.importCode(entry.1, idToImportPath.Get(id)),
                       s.compiler.compile(entry.1, FromTitleToTypeName.FromTitleToTypeName(entry.1).value));
    assert |code| > 0;
  }

  /** No call fails exactly when every call succeeds. */
  lemma {:induction false} NoErrorIff(process: ((string, JsonObject)) -> Result<Option<(string, string)>, Exception>,
                                      entries: seq<(string, JsonObject)>, n: nat)
    requires n <= |entries|
    ensures FirstError(process, entries, n).None? <==> forall k :: 0 <= k < n ==> process(entries[k]).Success?
  {
    if n > 0 {
      NoErrorIff(process, entries, n - 1);
    }
  }

  /** A schema is processed without error exactly when its title is valid and its `$id` is a string. */
  lemma ProcessSucceedsIff(s: Script, idToImportPath: OrderedMap<string, string>, entry: (string, JsonObject))
    ensures Process(s, idToImportPath, entry).Success? <==>
      FromTitleToTypeName.FromTitleToTypeName(entry.1).Success? && TypeOf(Property(entry.1, "$id")) == "string"
  {
  }

  /** With no error and a module for every call, one module per schema is written, in iteration order. */
  lemma ModulesWhenNoError(s: Script, idToImportPath: OrderedMap<string, string>,
                           entries: seq<(string, JsonObject)>, n: nat)
    requires n <= |entries|
    requires FirstError(Processes(s, idToImportPath), entries, n).None?
    ensures |Modules(Processes(s, idToImportPath), entries, n)| == n
    ensures forall k :: 0 <= k < n ==> Modules(Processes(s, idToImportPath), entries, n)[k].0 == s.outputPath(entries[k].0)
  {
    var process := Processes(s, idToImportPath);
    NoErrorIff(process, entries, n);
    forall k | 0 <= k < n
      ensures Writes(process, entries[k], s.outputPath)
    {
      var entry := entries[k];
      assert Process(s, idToImportPath, entry).Success?;
      ProcessAlwaysWrites(s, idToImportPath, entry);
    }
    ModulesAllWritten(process, entries, n, s.outputPath);
  }

  /** The call for `entry` writes a file, at the path `outputPath` gives. */
  predicate Writes(process: ((string, JsonObject)) -> Result<Option<(string, string)>, Exception>,
                   entry: (string, JsonObject), outputPath: string -> string) {
    var r := process(entry);
    r.Success? && r.value.Some? && r.value.value.0 == outputPath(entry.0)
  }

  /** When every call writes a file, the files are one per entry, in order. */
  lemma {:induction false} ModulesAllWritten(process: ((string, JsonObject)) -> Result<Option<(string, string)>, Exception>,
                                             entries: seq<(string, JsonObject)>, n: nat, outputPath: string -> string)
    requires n <= |entries|
    requires forall k :: 0 <= k < n ==> Writes(process, entries[k], outputPath)
    ensures |Modules(process, entries, n)| == n
    ensures forall k :: 0 <= k < n ==> Modules(process, entries, n)[k].0 == outputPath(entries[k].0)
  {
    if n > 0 {
      ModulesAllWritten(process, entries, n - 1, outputPath);
      var earlier := Modules(process, entries, n - 1);
      assert Writes(process, entries[n - 1], outputPath);
      var file := process(entries[n - 1]).value.value;
      assert Modules(process, entries, n) == earlier + [file];
    }
  }
}
