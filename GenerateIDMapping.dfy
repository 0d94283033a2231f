/**
 * The script that writes "./src/internal/IDToJSONSchema.ts": one constant
 * object mapping every schema id to the JSON schema imported from its file.
 */
module GenerateIDMapping {
  import opened Wrappers
  import opened Strings
  import opened OrderedMaps
  import opened Json
  import opened Paths
  import opened ImportFactories
  import InputToOutputPath
  import ToIdToPathMap

  /** The folder the schemas are read from, relative to the project root. */
  const INPUT_ROOT := "./src"

  /** The module path of the generated file, as `toCode` receives it. */
  const OUTPUT_IMPORT := "internal/IDToJSONSchema"

  /** The file the script writes. */
  const OUTPUT_FILE_PATH := "./src/internal/IDToJSONSchema.ts"

  /** The suffix cut off a schema file's base name to name its constant. */
  const SCHEMA_SUFFIX := ".schema.json"

  // ---------------------------------------------------------------------------
  // The imports.

  /** The module path a schema file is imported from: its path below the input root. */
  function ImportPath(cwd: seq<string>, absoluteFilePath: string): string {
    InputToOutputPath.InputToOutputPath(cwd, INPUT_ROOT, "", absoluteFilePath, None)
  }

  /** `ImportPath` under a working directory, as a function value. */
  function ImportPaths(cwd: seq<string>): (importPath: string -> string)
    ensures forall p :: importPath(p) == ImportPath(cwd, p)
  {
    p => ImportPath(cwd, p)
  }

  /** The constant's name: the import path's base name without ".schema.json". */
  function VarName(absoluteImportPath: string): string {
    BasenameWithout(absoluteImportPath, SCHEMA_SUFFIX)
  }

  /** The import of one schema file: its constant, not a type, as the default import. */
  function RequestFor(absoluteImportPath: string): Request {
    Request(absoluteImportPath, JStr(VarName(absoluteImportPath)), Some(false), Some(true))
  }

  /** The message of the `Error` for an indexed path the input map does not hold. */
  function MissingMessage(absoluteFilePath: string): string {
    "Could not locate schema at path " + absoluteFilePath
  }

  /** The state of the loop: the pairs so far, the factory's requests, and the error that ended it. */
  datatype Progress = Progress(pairs: seq<(JsonObject, string)>, requests: seq<Request>, error: Option<Exception>)

  /**
   * The loop of `createSchemaImportMapping` over the first `n` indexed paths,
   * starting from the factory's requests `before`: a path `schemaOf` does
   * not find stops it with an error; any other path is imported and paired
   * with its schema.
   */
  function Loop(aliasOf: (seq<Request>, Request) -> string, requestOf: string -> Request,
                schemaOf: string -> Option<JsonObject>, paths: seq<string>, before: seq<Request>, n: nat): Progress
    requires n <= |paths|
  {
    if n == 0 then Progress([], before, None)
    else
      var p := Loop(aliasOf, requestOf, schemaOf, paths, before, n - 1);
      if p.error.Some? then p
      else
        match schemaOf(paths[n - 1])
        case None => Progress(p.pairs, p.requests, Some(Error(MissingMessage(paths[n - 1]))))
        case Some(schema) =>
          var request := requestOf(paths[n - 1]);
          Progress(p.pairs + [(schema, aliasOf(p.requests, request))], p.requests + [request], None)
  }

  /** `Get` on the input map, as a function value. */
  function Lookups(absoluteFilePathToSchema: OrderedMap<string, JsonObject>): (schemaOf: string -> Option<JsonObject>)
    ensures forall p :: schemaOf(p) == absoluteFilePathToSchema.Get(p)
  {
    p => absoluteFilePathToSchema.Get(p)
  }

  /** `RequestFor` of the import path of a file, as a function value. */
  function RequestsOf(importPath: string -> string): (requestOf: string -> Request)
    ensures forall p :: requestOf(p) == RequestFor(importPath(p))
  {
    p => RequestFor(importPath(p))
  }

  /** The requests made for a run of paths, in order. */
  function RequestsFor(requestOf: string -> Request, paths: seq<string>): (rs: seq<Request>)
    ensures |rs| == |paths|
    ensures forall k :: 0 <= k < |paths| ==> rs[k] == requestOf(paths[k])
  {
    if |paths| == 0 then []
    else RequestsFor(requestOf, paths[..|paths| - 1]) + [requestOf(paths[|paths| - 1])]
  }

  /**
   * `createSchemaImportMapping(absoluteFilePathToSchema, importFactory)`:
   * the id-to-path index (whose errors propagate before any import), then
   * one import per indexed path, in index order.
   */
  method CreateSchemaImportMapping(aliasOf: (seq<Request>, Request) -> string, importPath: string -> string,
                                   absoluteFilePathToSchema: OrderedMap<string, JsonObject>,
                                   importFactory: ImportFactory)
    returns (r: Result<seq<(JsonObject, string)>, Exception>)
    requires absoluteFilePathToSchema.Valid()
    modifies importFactory
    ensures var index := ToIdToPathMap.Index(absoluteFilePathToSchema.Entries());
      (index.Failure? ==> r == Failure(index.error) && importFactory.requests == old(importFactory.requests))
      && (index.Success? ==>
            var p := Loop(aliasOf, RequestsOf(importPath), Lookups(absoluteFilePathToSchema), index.value.Values(),
                          old(importFactory.requests), |index.value.Values()|);
            importFactory.requests == p.requests
            && r == if p.error.Some? then Failure(p.error.value) else Success(p.pairs))
  {
    var idToAbsolutePath := ToIdToPathMap.ToIdToPathMap(absoluteFilePathToSchema);
    if idToAbsolutePath.Failure? {
      return Failure(idToAbsolutePath.error);
    }
    var paths := idToAbsolutePath.value.Values();
    var idToSchemaConstants := [];
    for i := 0 to |paths|
      invariant Loop(aliasOf, RequestsOf(importPath), Lookups(absoluteFilePathToSchema), paths, old(importFactory.requests), i)
             == Progress(idToSchemaConstants, importFactory.requests, None)
    {
      var absoluteFilePath := paths[i];
      var schema := absoluteFilePathToSchema.Get(absoluteFilePath);
      if schema.None? {
        r := Failure(Error(MissingMessage(absoluteFilePath)));
        LoopErrorPersists(aliasOf, RequestsOf(importPath), Lookups(absoluteFilePathToSchema), paths,
                          old(importFactory.requests), i + 1, |paths|);
        return;
      }
      var absoluteImportPath := importPath(absoluteFilePath);
      var request := RequestFor(absoluteImportPath);
      var aliasName := importFactory.Import(aliasOf, request);
      idToSchemaConstants := idToSchemaConstants + [(schema.value, aliasName)];
    }
    return Success(idToSchemaConstants);
  }

  // ---------------------------------------------------------------------------
  // The property code.

  /**
   * The fixed text of a property: the doc comment's first lines up to the
   * description, the end of the comment with the property's indentation, and
   * the cast after the value.
   */
  datatype Template = Template(open: string, afterDescription: string, close: string)

  /** The template the script writes. */
  const PROPERTY_TEMPLATE := Template(
    "    /**\n     * A JSON object containing the\n     * {@link https://json-schema.org/ JSON Schema}\n     * this id represents.\n     *\n     * ",
    "\n     */\n    ",
    " as Record<\n        string,\n        unknown\n    >,")

  /** The code of one property: the doc comment with the description, then `key: alias` and the cast. */
  function PropertyBlock(t: Template, schemaIdCode: string, schemaDescription: string, constVarName: string): string {
    t.open + schemaDescription + t.afterDescription + schemaIdCode + ": " + constVarName + t.close
  }

  /** The schema has a string `$id`. */
  predicate HasStringId(schema: JsonObject) {
    Property(schema, "$id").Some? && Property(schema, "$id").value.JStr?
  }

  /** Every schema of the pairs has a string `$id`. */
  predicate StringIds(schemaToImports: seq<(JsonObject, string)>) {
    forall i :: 0 <= i < |schemaToImports| ==> HasStringId(schemaToImports[i].0)
  }

  /** The property for one pair: the id quoted as `JSON.stringify` does, and the description as text. */
  function Block(t: Template, schemaToImport: (JsonObject, string)): string
    requires HasStringId(schemaToImport.0)
  {
    var schema := schemaToImport.0;
    PropertyBlock(t, Quote(Property(schema, "$id").value.s),
                  ToDisplayString(Property(schema, "description")),
                  schemaToImport.1)
  }

  /** The property of every pair, in order. */
  function Blocks(t: Template, schemaToImports: seq<(JsonObject, string)>): seq<string>
    requires StringIds(schemaToImports)
  {
    seq(|schemaToImports|, i requires 0 <= i < |schemaToImports| => Block(t, schemaToImports[i]))
  }

  /**
   * `createPropertyCode(schemaToImports)`: the blocks, each written to its
   * slot of an array as long as the input, joined by a blank line.
   */
  method CreatePropertyCode(t: Template, schemaToImports: seq<(JsonObject, string)>) returns (propertyCode: string)
    requires StringIds(schemaToImports)
    ensures propertyCode == Join(Blocks(t, schemaToImports), "\n\n")
  {
    var propertyCodes := new string[|schemaToImports|];
    for index := 0 to |schemaToImports|
      invariant forall k :: 0 <= k < index ==> propertyCodes[k] == Block(t, schemaToImports[k])
    {
      var schemaToImport := schemaToImports[index];
      var schema := schemaToImport.0;
      var schemaId := Property(schema, "$id").value.s;
      var schemaDescription := Property(schema, "description");
      var schemaIdCode := Quote(schemaId);
      var constVarName := schemaToImport.1;
      propertyCodes[index] := PropertyBlock(t, schemaIdCode, ToDisplayString(schemaDescription), constVarName);
    }
    assert propertyCodes[..] == Blocks(t, schemaToImports);
    propertyCode := Join(propertyCodes[..], "\n\n");
  }

  // ---------------------------------------------------------------------------
  // The script.

  /** The constant: `export const ID_TO_JSON_SCHEMA = {`, the properties, `} as const;`. */
  function MappingCode(propertyCode: string): string {
    "export const ID_TO_JSON_SCHEMA = {\n" + propertyCode + "\n} as const;"
  }

  /** The doc comment between the imports and the constant. */
  const MAPPING_DOC := "\n\n/**\n * A constant, mapping JSON Schema ids to the JSON Schema\n * as a JSON object.\n */\n"

  /** The file: the full header, the import code, the doc comment, the constant and a final line break. */
  function ModuleCode(fullHeader: string, importCode: string, propertyCode: string): string {
    fullHeader + "\n" + importCode + MAPPING_DOC + MappingCode(propertyCode) + "\n"
  }

  /** The whole mapping step with a fresh factory: its result and the requests it made. */
  function SchemaImportMapping(aliasOf: (seq<Request>, Request) -> string, importPath: string -> string,
                               absoluteFilePathToSchema: OrderedMap<string, JsonObject>)
    : (Result<seq<(JsonObject, string)>, Exception>, seq<Request>)
    requires absoluteFilePathToSchema.Valid()
  {
    var index := ToIdToPathMap.Index(absoluteFilePathToSchema.Entries());
    if index.Failure? then (Failure(index.error), [])
    else
      var p := Loop(aliasOf, RequestsOf(importPath), Lookups(absoluteFilePathToSchema), index.value.Values(), [], |index.value.Values()|);
      (if p.error.Some? then Failure(p.error.value) else Success(p.pairs), p.requests)
  }

  /**
   * The main block: with a fresh factory, the mapping, then the import code
   * for the output module and the properties; the file written, or the
   * error that is logged instead.
   */
  method Run(aliasOf: (seq<Request>, Request) -> string, toCode: (seq<Request>, string) -> string,
             importPath: string -> string, fullHeader: string,
             absoluteFilePathToSchema: OrderedMap<string, JsonObject>)
    returns (write: Option<(string, string)>, error: Option<Exception>)
    requires absoluteFilePathToSchema.Valid()
    ensures var (mapping, requests) := SchemaImportMapping(aliasOf, importPath, absoluteFilePathToSchema);
      (mapping.Failure? ==> write == None && error == Some(mapping.error))
      && (mapping.Success? ==>
            StringIds(mapping.value) && error == None
            && write == Some((OUTPUT_FILE_PATH,
                              ModuleCode(fullHeader, toCode(requests, OUTPUT_IMPORT),
                                         Join(Blocks(PROPERTY_TEMPLATE, mapping.value), "\n\n")))))
  {
    var importFactory := new ImportFactory();
    var schemaToImports := CreateSchemaImportMapping(aliasOf, importPath, absoluteFilePathToSchema, importFactory);
    if schemaToImports.Failure? {
      return None, Some(schemaToImports.error);
    }
    MappingHasStringIds(aliasOf, importPath, absoluteFilePathToSchema);
    var importCode := toCode(importFactory.requests, OUTPUT_IMPORT);
    var propertyCode := CreatePropertyCode(PROPERTY_TEMPLATE, schemaToImports.value);
    var code := ModuleCode(fullHeader, importCode, propertyCode);
    return Some((OUTPUT_FILE_PATH, code)), None;
  }

  // ---------------------------------------------------------------------------
  // Properties.

  /** The loop ends without error exactly when `schemaOf` finds every path. */
  lemma {:induction false} LoopNoErrorIff(aliasOf: (seq<Request>, Request) -> string, requestOf: string -> Request,
                                          schemaOf: string -> Option<JsonObject>, paths: seq<string>,
                                          before: seq<Request>, n: nat)
    requires n <= |paths|
    ensures Loop(aliasOf, requestOf, schemaOf, paths, before, n).error.None? <==>
      forall k :: 0 <= k < n ==> schemaOf(paths[k]).Some?
  {
    if n > 0 {
      LoopNoErrorIff(aliasOf, requestOf, schemaOf, paths, before, n - 1);
    }
  }

  /** Once the loop has stopped with an error, further paths change nothing. */
  lemma {:induction false} LoopErrorPersists(aliasOf: (seq<Request>, Request) -> string, requestOf: string -> Request,
                                             schemaOf: string -> Option<JsonObject>, paths: seq<string>,
                                             before: seq<Request>, k: nat, n: nat)
    requires k <= n <= |paths| && Loop(aliasOf, requestOf, schemaOf, paths, before, k).error.Some?
    ensures Loop(aliasOf, requestOf, schemaOf, paths, before, n) == Loop(aliasOf, requestOf, schemaOf, paths, before, k)
  {
    if n > k {
      LoopErrorPersists(aliasOf, requestOf, schemaOf, paths, before, k, n - 1);
    }
  }

  /** A loop stopped by a path pairs and imports only the paths before it, and names that path. */
  lemma {:induction false} LoopStopsAtMissing(aliasOf: (seq<Request>, Request) -> string, requestOf: string -> Request,
                                              schemaOf: string -> Option<JsonObject>, paths: seq<string>,
                                              before: seq<Request>, n: nat, j: nat)
    requires j < n <= |paths| && schemaOf(paths[j]).None?
    requires forall k :: 0 <= k < j ==> schemaOf(paths[k]).Some?
    ensures Loop(aliasOf, requestOf, schemaOf, paths, before, n)
         == Progress(Loop(aliasOf, requestOf, schemaOf, paths, before, j).pairs,
                     before + RequestsFor(requestOf, paths[..j]),
                     Some(Error(MissingMessage(paths[j]))))
  {
    if n - 1 > j {
      LoopStopsAtMissing(aliasOf, requestOf, schemaOf, paths, before, n - 1, j);
    } else {
      LoopRequests(aliasOf, requestOf, schemaOf, paths, before, j);
    }
  }

  /** Without a missing path, the first `n` iterations import one request per path, in order. */
  lemma {:induction false} LoopRequests(aliasOf: (seq<Request>, Request) -> string, requestOf: string -> Request,
                                        schemaOf: string -> Option<JsonObject>, paths: seq<string>,
                                        before: seq<Request>, n: nat)
    requires n <= |paths| && forall k :: 0 <= k < n ==> schemaOf(paths[k]).Some?
    ensures var p := Loop(aliasOf, requestOf, schemaOf, paths, before, n);
      p.error.None? && p.requests == before + RequestsFor(requestOf, paths[..n]) && |p.pairs| == n
  {
    if n > 0 {
      var prev := Loop(aliasOf, requestOf, schemaOf, paths, before, n - 1);
      LoopRequests(aliasOf, requestOf, schemaOf, paths, before, n - 1);
      var request := requestOf(paths[n - 1]);
      var p := Loop(aliasOf, requestOf, schemaOf, paths, before, n);
      assert p.error.None? && p.requests == prev.requests + [request] && |p.pairs| == |prev.pairs| + 1;
      assert RequestsFor(requestOf, paths[..n]) == RequestsFor(requestOf, paths[..n - 1]) + [request] by {
        assert paths[..n][..n - 1] == paths[..n - 1];
        assert paths[..n][n - 1] == paths[n - 1];
      }
      AppendAssoc(before, RequestsFor(requestOf, paths[..n - 1]), [request]);
    } else {
      assert paths[..0] == [];
    }
  }

  /**
   * Without a missing path, the `k`-th pair holds the `k`-th path's schema
   * and the alias the factory chose given the requests made before it.
   */
  lemma {:induction false} LoopPairs(aliasOf: (seq<Request>, Request) -> string, requestOf: string -> Request,
                                     schemaOf: string -> Option<JsonObject>, paths: seq<string>,
                                     before: seq<Request>, n: nat)
    requires n <= |paths| && forall k :: 0 <= k < n ==> schemaOf(paths[k]).Some?
    ensures var p := Loop(aliasOf, requestOf, schemaOf, paths, before, n);
      |p.pairs| == n
      && forall k :: 0 <= k < n ==>
           p.pairs[k] == (schemaOf(paths[k]).value, aliasOf(before + RequestsFor(requestOf, paths[..k]), requestOf(paths[k])))
  {
    LoopRequests(aliasOf, requestOf, schemaOf, paths, before, n);
    if n > 0 {
      var prev := Loop(aliasOf, requestOf, schemaOf, paths, before, n - 1);
      LoopPairs(aliasOf, requestOf, schemaOf, paths, before, n - 1);
      LoopRequests(aliasOf, requestOf, schemaOf, paths, before, n - 1);
      var request := requestOf(paths[n - 1]);
      var pair := (schemaOf(paths[n - 1]).value, aliasOf(prev.requests, request));
      assert Loop(aliasOf, requestOf, schemaOf, paths, before, n).pairs == prev.pairs + [pair];
    }
  }

  /** Every path `toIdToPathMap` indexes is a key of its input, so "Could not locate schema" never happens. */
  lemma IndexedPathsLocated(absoluteFilePathToSchema: OrderedMap<string, JsonObject>)
    requires absoluteFilePathToSchema.Valid()
    requires ToIdToPathMap.Index(absoluteFilePathToSchema.Entries()).Success?
    ensures var paths := ToIdToPathMap.Index(absoluteFilePathToSchema.Entries()).value.Values();
      forall k :: 0 <= k < |paths| ==> Lookups(absoluteFilePathToSchema)(paths[k]).Some?
  {
    IndexedSchemasHaveIds(absoluteFilePathToSchema);
  }

  /** The schema at every indexed path has the truthy string id it was indexed under. */
  lemma IndexedSchemasHaveIds(absoluteFilePathToSchema: OrderedMap<string, JsonObject>)
    requires absoluteFilePathToSchema.Valid()
    requires ToIdToPathMap.Index(absoluteFilePathToSchema.Entries()).Success?
    ensures var paths := ToIdToPathMap.Index(absoluteFilePathToSchema.Entries()).value.Values();
      forall k :: 0 <= k < |paths| ==>
        absoluteFilePathToSchema.Has(paths[k]) && ToIdToPathMap.IndexedId(absoluteFilePathToSchema.Get(paths[k]).value).Some?
  {
    var entries := absoluteFilePathToSchema.Entries();
    var index := ToIdToPathMap.Index(entries).value;
    var paths := index.Values();
    ToIdToPathMap.IndexLookup(entries);
    forall k | 0 <= k < |paths|
      ensures absoluteFilePathToSchema.Has(paths[k])
      ensures ToIdToPathMap.IndexedId(absoluteFilePathToSchema.Get(paths[k]).value).Some?
    {
      assert index.Get(index.keys[k]) == Some(paths[k]);
      assert ToIdToPathMap.Carries(entries, index.keys[k], paths[k]);
      var i :| 0 <= i < |entries| && ToIdToPathMap.IndexedId(entries[i].1) == Some(index.keys[k])
        && entries[i].0 == paths[k];
      assert absoluteFilePathToSchema.Get(absoluteFilePathToSchema.keys[i]) == Some(entries[i].1);
    }
  }

  /** On success, every pair's schema has a string `$id`, so the property code can quote it. */
  lemma MappingHasStringIds(aliasOf: (seq<Request>, Request) -> string, importPath: string -> string,
                            absoluteFilePathToSchema: OrderedMap<string, JsonObject>)
    requires absoluteFilePathToSchema.Valid()
    ensures var mapping := SchemaImportMapping(aliasOf, importPath, absoluteFilePathToSchema).0;
      mapping.Success? ==> StringIds(mapping.value)
  {
    var index := ToIdToPathMap.Index(absoluteFilePathToSchema.Entries());
    if index.Success? {
      var paths := index.value.Values();
      var schemaOf := Lookups(absoluteFilePathToSchema);
      var p := Loop(aliasOf, RequestsOf(importPath), schemaOf, paths, [], |paths|);
      assert SchemaImportMapping(aliasOf, importPath, absoluteFilePathToSchema).0
          == (if p.error.Some? then Failure(p.error.value) else Success(p.pairs));
      IndexedPathsLocated(absoluteFilePathToSchema);
      IndexedSchemasHaveIds(absoluteFilePathToSchema);
      LoopPairs(aliasOf, RequestsOf(importPath), schemaOf, paths, [], |paths|);
      forall i | 0 <= i < |p.pairs|
        ensures HasStringId(p.pairs[i].0)
      {
        assert schemaOf(paths[i]) == absoluteFilePathToSchema.Get(paths[i]);
        assert ToIdToPathMap.IndexedId(p.pairs[i].0).Some?;
      }
    }
  }

  /**
   * A successful mapping has one pair per indexed path, in index order, each
   * holding the schema read from that path.
   */
  lemma MappingPairs(aliasOf: (seq<Request>, Request) -> string, importPath: string -> string,
                     absoluteFilePathToSchema: OrderedMap<string, JsonObject>)
    requires absoluteFilePathToSchema.Valid()
    requires ToIdToPathMap.Index(absoluteFilePathToSchema.Entries()).Success?
    ensures var paths := ToIdToPathMap.Index(absoluteFilePathToSchema.Entries()).value.Values();
      var (mapping, requests) := SchemaImportMapping(aliasOf, importPath, absoluteFilePathToSchema);
      mapping.Success? && |mapping.value| == |paths|
      && forall k :: 0 <= k < |paths| ==> absoluteFilePathToSchema.Get(paths[k]) == Some(mapping.value[k].0)
  {
    var paths := ToIdToPathMap.Index(absoluteFilePathToSchema.Entries()).value.Values();
    var schemaOf := Lookups(absoluteFilePathToSchema);
    var requestOf := RequestsOf(importPath);
    var p := Loop(aliasOf, requestOf, schemaOf, paths, [], |paths|);
    assert SchemaImportMapping(aliasOf, importPath, absoluteFilePathToSchema)
        == (if p.error.Some? then Failure(p.error.value) else Success(p.pairs), p.requests);
    IndexedPathsLocated(absoluteFilePathToSchema);
    LoopPairs(aliasOf, requestOf, schemaOf, paths, [], |paths|);
    LoopRequests(aliasOf, requestOf, schemaOf, paths, [], |paths|);
    forall k | 0 <= k < |paths|
      ensures absoluteFilePathToSchema.Get(paths[k]) == Some(p.pairs[k].0)
    {
      assert schemaOf(paths[k]) == absoluteFilePathToSchema.Get(paths[k]);
    }
  }

  /** The fresh factory is asked for one import per indexed path, in index order. */
  lemma MappingRequests(aliasOf: (seq<Request>, Request) -> string, importPath: string -> string,
                        absoluteFilePathToSchema: OrderedMap<string, JsonObject>)
    requires absoluteFilePathToSchema.Valid()
    requires ToIdToPathMap.Index(absoluteFilePathToSchema.Entries()).Success?
    ensures var paths := ToIdToPathMap.Index(absoluteFilePathToSchema.Entries()).value.Values();
      var requests := SchemaImportMapping(aliasOf, importPath, absoluteFilePathToSchema).1;
      |requests| == |paths|
      && forall k :: 0 <= k < |paths| ==> requests[k] == RequestFor(importPath(paths[k]))
  {
    var paths := ToIdToPathMap.Index(absoluteFilePathToSchema.Entries()).value.Values();
    var schemaOf := Lookups(absoluteFilePathToSchema);
    var requestOf := RequestsOf(importPath);
    var p := Loop(aliasOf, requestOf, schemaOf, paths, [], |paths|);
    assert SchemaImportMapping(aliasOf, importPath, absoluteFilePathToSchema).1 == p.requests;
    IndexedPathsLocated(absoluteFilePathToSchema);
    LoopRequests(aliasOf, requestOf, schemaOf, paths, [], |paths|);
    assert paths[..|paths|] == paths;
    var rs := RequestsFor(requestOf, paths);
    assert RequestsFor(requestOf, paths[..|paths|]) == rs;
    EmptyPrefix(rs);
  }

  lemma EmptyPrefix<T>(s: seq<T>)
    ensures [] + s == s
  {
  }

  /** A schema file below "src" is imported from its path relative to "src". */
  lemma ImportPathOfSchemaFile(cwd: seq<string>, rel: string)
    requires WorkingDirectory(cwd) && NormalPath(rel)
    ensures ImportPath(cwd, "src/" + rel) == rel
  {
    SegmentPath("src");
    var p := "src/" + rel;
    assert p == "src" + "/" + rel;
    RelativeBelow(cwd, "src", rel);
    assert p[0] == 's';
    assert INPUT_ROOT == "./" + "src";
    RelativeFromDotSlash(cwd, "src", p);
    NormalizeNormal(rel);
    assert Join2("", rel) == rel;
  }

  /** The constant of "dir/Name.schema.json" is called "Name". */
  lemma VarNameOfSchemaFile(dir: string, stem: string)
    requires stem != "" && NormalSegment(stem + SCHEMA_SUFFIX)
    ensures VarName(dir + "/" + stem + SCHEMA_SUFFIX) == stem
    ensures VarName(stem + SCHEMA_SUFFIX) == stem
  {
    var name := stem + SCHEMA_SUFFIX;
    assert dir + "/" + stem + SCHEMA_SUFFIX == dir + "/" + name;
    BasenameOfChild(dir, name);
    assert EndsWith(name, SCHEMA_SUFFIX);
    assert name[..|name| - |SCHEMA_SUFFIX|] == stem;
  }

  /** A property ends with its key, the quoted id, followed by ": ", the alias and the cast. */
  lemma BlockKey(t: Template, schemaToImport: (JsonObject, string), id: string)
    requires Property(schemaToImport.0, "$id") == Some(JStr(id))
    ensures EndsWith(Block(t, schemaToImport), Quote(id) + ": " + schemaToImport.1 + t.close)
  {
    var description := ToDisplayString(Property(schemaToImport.0, "description"));
    var head := t.open + description + t.afterDescription;
    var key := Quote(id) + ": " + schemaToImport.1 + t.close;
    assert Block(t, schemaToImport) == head + key;
    EndsWithPrepend(key, key, head);
  }

  /** A schema without a description gets the text "undefined" in its doc comment. */
  lemma MissingDescriptionWritesUndefined(t: Template, schemaToImport: (JsonObject, string), id: string)
    requires Property(schemaToImport.0, "$id") == Some(JStr(id))
    requires Property(schemaToImport.0, "description") == None
    ensures StartsWith(Block(t, schemaToImport), t.open + "undefined" + t.afterDescription)
  {
    var start := t.open + "undefined" + t.afterDescription;
    StartsWithAppend(start, start, Quote(id) + ": " + schemaToImport.1 + t.close);
    assert Block(t, schemaToImport) == start + (Quote(id) + ": " + schemaToImport.1 + t.close);
  }

  /** Two properties are separated by exactly one blank line. */
  lemma TwoBlocksJoined(t: Template, a: (JsonObject, string), b: (JsonObject, string))
    requires HasStringId(a.0) && HasStringId(b.0)
    ensures StringIds([a, b]) && Join(Blocks(t, [a, b]), "\n\n") == Block(t, a) + "\n\n" + Block(t, b)
  {
    assert Blocks(t, [a, b])[1..] == [Block(t, b)];
  }

  /** The file starts with the header and the import code and ends with the constant and a line break. */
  lemma ModuleLayout(fullHeader: string, importCode: string, propertyCode: string)
    ensures StartsWith(ModuleCode(fullHeader, importCode, propertyCode), fullHeader + "\n" + importCode)
    ensures EndsWith(ModuleCode(fullHeader, importCode, propertyCode), MappingCode(propertyCode) + "\n")
  {
    var head := fullHeader + "\n" + importCode;
    var tail := MappingCode(propertyCode) + "\n";
    assert ModuleCode(fullHeader, importCode, propertyCode) == head + (MAPPING_DOC + tail);
    StartsWithAppend(head, head, MAPPING_DOC + tail);
    EndsWithPrepend(tail, tail, head + MAPPING_DOC);
    assert head + (MAPPING_DOC + tail) == head + MAPPING_DOC + tail;
  }
}
