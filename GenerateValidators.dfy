/**
 * The validator-generation script: for every schema it builds the validator
 * module and its declaration file, records which validators need the
 * "ajv-formats" package, and finally warns when that package is not a
 * runtime dependency. Reading the schemas, creating AJV, writing files and
 * logging are left out: the schemas and the parsed `package.json` are
 * parameters, the files to write and the warning to log are results.
 */
module GenerateValidators {
  import opened Wrappers
  import opened Strings
  import opened OrderedMaps
  import opened Json
  import opened Paths
  import opened InputToOutputPath
  import opened HasNPMPackage
  import FromTitleToTypeName
  import GenerateValidator
  import GenerateValidatorDefinition

  /** Where the schemas are read from and where the generated files go. */
  const INPUT_ROOT := "./src"
  const OUTPUT_ROOT := "./src"

  /** What a validator that loads "ajv-formats" contains. */
  const AJV_FORMATS_REQUIRE := " = require(\"ajv-formats"

  /** `usesAjvFormats(code)`: the generated code loads "ajv-formats" or one of its sub-paths. */
  predicate UsesAjvFormats(code: string) {
    Includes(code, AJV_FORMATS_REQUIRE)
  }

  /** The options both output paths use: base name "Validate" + type name and a fixed extension. */
  function SchemaOptions(typeName: string, fileExtension: string): Options {
    Options(None, Some(oldBaseName => "Validate" + typeName), Some(oldFileExtension => fileExtension))
  }

  /** The file for `absoluteFilePath` below the output root, named after the schema's title. */
  function OutputPath(cwd: seq<string>, absoluteFilePath: string, schema: JsonObject, fileExtension: string)
    : (r: Result<string, Exception>)
    ensures r.Failure? <==> FromTitleToTypeName.FromTitleToTypeName(schema).Failure?
    ensures r.Failure? ==> r.error == FromTitleToTypeName.FromTitleToTypeName(schema).error
  {
    var typeName :- FromTitleToTypeName.FromTitleToTypeName(schema);
    Success(InputToOutputPath.InputToOutputPath(cwd, INPUT_ROOT, OUTPUT_ROOT, absoluteFilePath,
                              Some(SchemaOptions(typeName, fileExtension))))
  }

  /** `toValidatorOutputPath(absoluteFilePath, schema)`: a CommonJS module. */
  function ToValidatorOutputPath(cwd: seq<string>, absoluteFilePath: string, schema: JsonObject)
    : Result<string, Exception>
  {
    OutputPath(cwd, absoluteFilePath, schema, "cjs")
  }

  /** `toDefinitionOutputPath(absoluteFilePath, schema)`: a declaration file. */
  function ToDefinitionOutputPath(cwd: seq<string>, absoluteFilePath: string, schema: JsonObject)
    : Result<string, Exception>
  {
    OutputPath(cwd, absoluteFilePath, schema, "d.ts")
  }

  /** The start of the warning, before the list of dependant schema ids. */
  const DEPENDANTS_PREFIX := "The following generated JSON Schema validators " +
                            "are dependant on NPM package \"ajv-formats\":\n\n"

  /** `createAjvDependantSchemasString()` for the recorded ids: the prefix, then one id per line. */
  function CreateAjvDependantSchemasString(dependants: seq<string>): (text: string)
    ensures StartsWith(text, DEPENDANTS_PREFIX)
  {
    Concatenated(DEPENDANTS_PREFIX, Join(dependants, "\n"));
    DEPENDANTS_PREFIX + Join(dependants, "\n")
  }

  /** What the warning adds when "ajv-formats" is not installed at all. */
  const INSTALL_HINT := "Install it by using the following console command:\n" + "npm install ajv-formats"

  /** What the warning adds when "ajv-formats" is only a development dependency. */
  const MOVE_HINT := "You will need to modify package.json and move " +
                     "ajv-format's entry from \"devDependencies\" to " + "\"dependencies\"."

  /**
   * `logAjvFormatWarning()`: the warning to log, if any. Nothing is looked up
   * when no validator needs "ajv-formats"; a lookup that throws is the
   * failure; only "none" and "devDependencies" give a warning.
   */
  function AjvFormatWarning(dependants: seq<string>, projectPackage: JsonObject)
    : (r: Result<Option<string>, Exception>)
    ensures |dependants| == 0 ==> r == Success(None)
    ensures |dependants| > 0 ==>
      (r.Failure? <==> GetNPMPackageDependencyType(projectPackage, "ajv-formats").Failure?)
    ensures |dependants| > 0 && GetNPMPackageDependencyType(projectPackage, "ajv-formats").Success? ==>
      (r.value.Some? <==> GetNPMPackageDependencyType(projectPackage, "ajv-formats").value
                            in {NoDependency, Listed(DevDependencies)})
    ensures r.Success? && r.value.Some? ==>
      StartsWith(r.value.value, CreateAjvDependantSchemasString(dependants) + "\n\n")
  {
    if |dependants| > 0 then
      var dependencyType :- GetNPMPackageDependencyType(projectPackage, "ajv-formats");
      var text := CreateAjvDependantSchemasString(dependants) + "\n\n";
      match dependencyType
      case NoDependency =>
        Concatenated(text, INSTALL_HINT);
        Success(Some(text + INSTALL_HINT))
      case Listed(DevDependencies) =>
        Concatenated(text, MOVE_HINT);
        Success(Some(text + MOVE_HINT))
      case _ => Success(None)
    else
      Success(None)
  }

  // ---------------------------------------------------------------------------
  // One schema.

  /** The validator module to write for one schema, as (path, code), or the error `writeValidator` throws. */
  function ValidatorFile(standaloneCode: OrderedMap<string, string> -> string, generatedHeader: string,
                         cwd: seq<string>, absoluteInputFilePath: string, schema: JsonObject)
    : Result<(string, string), Exception>
  {
    var code :- GenerateValidator.GenerateValidator(standaloneCode, generatedHeader, schema);
    // The title was checked while building the code, so the path is built without an error.
    Success((ToValidatorOutputPath(cwd, absoluteInputFilePath, schema).value, code))
  }

  /** The declaration file to write for one schema, as (path, code), or the error `writeDefinition` throws. */
  function DefinitionFile(texts: GenerateValidatorDefinition.Texts, generatedHeader: string, cwd: seq<string>,
                          absoluteInputFilePath: string, schema: JsonObject)
    : Result<(string, string), Exception>
  {
    var code :- GenerateValidatorDefinition.GenerateDefinitionWith(texts, generatedHeader, schema);
    // The title was checked while building the code, so the path is built without an error.
    Success((ToDefinitionOutputPath(cwd, absoluteInputFilePath, schema).value, code))
  }

  /** The id `writeValidator` records for a schema: its string id, when the validator needs "ajv-formats". */
  function Recorded(schema: JsonObject, file: Result<(string, string), Exception>): seq<string> {
    match Property(schema, "$id")
    case Some(JStr(id)) => if file.Success? && UsesAjvFormats(file.value.1) then [id] else []
    case _ => []
  }

  /** The files a call writes: the one it built, or none when it threw. */
  function Written(file: Result<(string, string), Exception>): seq<(string, string)> {
    if file.Success? then [file.value] else []
  }

  /** The error of a schema's two calls, the validator's first. */
  function ErrorOf(validator: Result<(string, string), Exception>, definition: Result<(string, string), Exception>)
    : Option<Exception>
  {
    if validator.Failure? then Some(validator.error)
    else if definition.Failure? then Some(definition.error)
    else None
  }

  /** The generators and headers a run uses, which are fixed for the whole run. */
  datatype Generators = Generators(standaloneCode: OrderedMap<string, string> -> string, validatorHeader: string,
                                   texts: GenerateValidatorDefinition.Texts, definitionHeader: string,
                                   cwd: seq<string>)

  /** The validator module `writeValidator` builds for one entry (path, schema) of the schema map. */
  function Validator(g: Generators, entry: (string, JsonObject)): Result<(string, string), Exception> {
    ValidatorFile(g.standaloneCode, g.validatorHeader, g.cwd, entry.0, entry.1)
  }

  /** The declaration file `writeDefinition` builds for one entry of the schema map. */
  function Definition(g: Generators, entry: (string, JsonObject)): Result<(string, string), Exception> {
    DefinitionFile(g.texts, g.definitionHeader, g.cwd, entry.0, entry.1)
  }

  /** What the two calls give for each entry of the schema map. */
  datatype Builds = Builds(validator: ((string, JsonObject)) -> Result<(string, string), Exception>,
                           definition: ((string, JsonObject)) -> Result<(string, string), Exception>)

  /** The calls of a run with the generators `g`. */
  function BuildsOf(g: Generators): (b: Builds)
    ensures forall entry :: b.validator(entry) == Validator(g, entry)
    ensures forall entry :: b.definition(entry) == Definition(g, entry)
  {
    Builds(entry => Validator(g, entry), entry => Definition(g, entry))
  }

  // ---------------------------------------------------------------------------
  // The whole run, as functions of the entries handled so far.

  /** The ids recorded for the first `n` entries, in order. */
  function Dependants(b: Builds, entries: seq<(string, JsonObject)>, n: nat): seq<string>
    requires n <= |entries|
  {
    if n == 0 then []
    else Dependants(b, entries, n - 1) + Recorded(entries[n - 1].1, b.validator(entries[n - 1]))
  }

  /** The files written for the first `n` entries: each schema's validator, then its declaration. */
  function Files(b: Builds, entries: seq<(string, JsonObject)>, n: nat): seq<(string, string)>
    requires n <= |entries|
  {
    if n == 0 then []
    else Files(b, entries, n - 1) + Written(b.validator(entries[n - 1])) + Written(b.definition(entries[n - 1]))
  }

  /**
   * The error the calls for the first `n` entries end with: `Promise.all`
   * rejects with the first rejected promise in the order the calls were made.
   */
  function FirstError(b: Builds, entries: seq<(string, JsonObject)>, n: nat): Option<Exception>
    requires n <= |entries|
  {
    if n == 0 then None
    else
      var earlier := FirstError(b, entries, n - 1);
      if earlier.Some? then earlier else ErrorOf(b.validator(entries[n - 1]), b.definition(entries[n - 1]))
  }

  /** The module-level state of the script: the ids of the validators that need "ajv-formats". */
  class ValidatorScript {
    var dependantOnAjvFormatsSchemas: seq<string>

    constructor()
      ensures dependantOnAjvFormatsSchemas == []
    {
      dependantOnAjvFormatsSchemas := [];
    }

    /**
     * `writeValidator(ajv, absoluteInputFilePath, schema)` up to its first
     * `await`: builds the module and its path, and records the schema's id
     * when the module loads "ajv-formats". Returns the file to write.
     */
    method WriteValidator(standaloneCode: OrderedMap<string, string> -> string, generatedHeader: string,
                          cwd: seq<string>, absoluteInputFilePath: string, schema: JsonObject)
      returns (file: Result<(string, string), Exception>)
      modifies this
      ensures file == ValidatorFile(standaloneCode, generatedHeader, cwd, absoluteInputFilePath, schema)
      ensures dependantOnAjvFormatsSchemas == old(dependantOnAjvFormatsSchemas) + Recorded(schema, file)
    {
      var code := GenerateValidator.GenerateValidator(standaloneCode, generatedHeader, schema);
      if code.Failure? {
        return Failure(code.error);
      }
      // The title was checked while building the code, so the path is built without an error.
      var outputFilePath := ToValidatorOutputPath(cwd, absoluteInputFilePath, schema).value;
      file := Success((outputFilePath, code.value));
      if UsesAjvFormats(code.value) {
        // The code was built, so the id is a string.
        var schemaId := Property(schema, "$id").value.s;
        dependantOnAjvFormatsSchemas := dependantOnAjvFormatsSchemas + [schemaId];
      }
    }

    /**
     * The two calls the main block makes for one schema: `writeValidator`,
     * then `writeDefinition`; both run before the first `await`.
     */
    method WriteBoth(g: Generators, entry: (string, JsonObject))
      returns (validator: Result<(string, string), Exception>, definition: Result<(string, string), Exception>)
      modifies this
      ensures validator == Validator(g, entry) && definition == Definition(g, entry)
      ensures dependantOnAjvFormatsSchemas == old(dependantOnAjvFormatsSchemas) + Recorded(entry.1, Validator(g, entry))
    {
      validator := WriteValidator(g.standaloneCode, g.validatorHeader, g.cwd, entry.0, entry.1);
      definition := DefinitionFile(g.texts, g.definitionHeader, g.cwd, entry.0, entry.1);
    }

    /**
     * The loop of the main block: both calls for every schema, in iteration
     * order. Returns the files to write and the error `Promise.all` rejects
     * with, if any.
     */
    method WriteAll(g: Generators, entries: seq<(string, JsonObject)>)
      returns (writes: seq<(string, string)>, error: Option<Exception>)
      modifies this
      ensures dependantOnAjvFormatsSchemas == old(dependantOnAjvFormatsSchemas) + Dependants(BuildsOf(g), entries, |entries|)
      ensures writes == Files(BuildsOf(g), entries, |entries|)
      ensures error == FirstError(BuildsOf(g), entries, |entries|)
    {
      writes := [];
      error := None;
      for i := 0 to |entries|
        invariant dependantOnAjvFormatsSchemas == old(dependantOnAjvFormatsSchemas) + Dependants(BuildsOf(g), entries, i)
        invariant writes == Files(BuildsOf(g), entries, i)
        invariant error == FirstError(BuildsOf(g), entries, i)
      {
        var validator, definition := WriteBoth(g, entries[i]);
        AppendAssoc(old(dependantOnAjvFormatsSchemas), Dependants(BuildsOf(g), entries, i), Recorded(entries[i].1, validator));
        writes := writes + Written(validator) + Written(definition);
        if error.None? {
          error := ErrorOf(validator, definition);
        }
      }
    }

    /**
     * The script's main block: both calls for every schema in iteration
     * order, then the warning, unless one of the calls threw.
     */
    method Run(g: Generators, absoluteFilePathToSchema: OrderedMap<string, JsonObject>, projectPackage: JsonObject)
      returns (writes: seq<(string, string)>, outcome: Result<Option<string>, Exception>)
      requires absoluteFilePathToSchema.Valid()
      modifies this
      ensures var entries := absoluteFilePathToSchema.Entries();
        && dependantOnAjvFormatsSchemas == old(dependantOnAjvFormatsSchemas) + Dependants(BuildsOf(g), entries, |entries|)
        && writes == Files(BuildsOf(g), entries, |entries|)
        && (FirstError(BuildsOf(g), entries, |entries|).Some? ==> outcome == Failure(FirstError(BuildsOf(g), entries, |entries|).value))
        && (FirstError(BuildsOf(g), entries, |entries|).None? ==>
              outcome == AjvFormatWarning(dependantOnAjvFormatsSchemas, projectPackage))
    {
      var error;
      writes, error := WriteAll(g, absoluteFilePathToSchema.Entries());
      if error.Some? {
        outcome := Failure(error.value);
      } else {
        outcome := AjvFormatWarning(dependantOnAjvFormatsSchemas, projectPackage);
      }
    }
  }

  // ---------------------------------------------------------------------------
  // Properties.

  /** A validator needs "ajv-formats" exactly when the `require` of it occurs somewhere in its code. */
  lemma UsesAjvFormatsIff(code: string)
    ensures UsesAjvFormats(code) <==> exists i :: OccursAt(code, AJV_FORMATS_REQUIRE, i)
  {
    IncludesIff(code, AJV_FORMATS_REQUIRE);
  }

  /** The recorded ids are, in order, the ids read back from the warning text. */
  lemma DependantsListed(dependants: seq<string>)
    requires |dependants| >= 1
    requires forall i :: 0 <= i < |dependants| ==> '\n' !in dependants[i]
    ensures SplitOn(CreateAjvDependantSchemasString(dependants)[|DEPENDANTS_PREFIX|..], '\n') == dependants
  {
    var text := CreateAjvDependantSchemasString(dependants);
    assert text[|DEPENDANTS_PREFIX|..] == Join(dependants, "\n");
    assert "\n" == ['\n'];
    SplitOnJoin(dependants, '\n');
  }

  /** The id recorded for entry `k`. */
  predicate RecordedAt(b: Builds, entries: seq<(string, JsonObject)>, k: nat, id: string)
    requires k < |entries|
  {
    id in Recorded(entries[k].1, b.validator(entries[k]))
  }

  /** An id is recorded exactly when it is recorded for one of the entries. */
  lemma {:induction false} DependantsIff(b: Builds, entries: seq<(string, JsonObject)>, n: nat, id: string)
    requires n <= |entries|
    ensures id in Dependants(b, entries, n) <==> exists k :: 0 <= k < n && RecordedAt(b, entries, k, id)
  {
    if n > 0 {
      DependantsIff(b, entries, n - 1, id);
      var earlier := Dependants(b, entries, n - 1);
      var last := Recorded(entries[n - 1].1, b.validator(entries[n - 1]));
      assert Dependants(b, entries, n) == earlier + last;
      if id in last {
        assert RecordedAt(b, entries, n - 1, id);
      }
      if exists k :: 0 <= k < n && RecordedAt(b, entries, k, id) {
        var k :| 0 <= k < n && RecordedAt(b, entries, k, id);
        if k == n - 1 {
          assert id in last;
        } else {
          assert id in earlier;
        }
      }
    }
  }

  /** The id recorded for one schema: its string id, exactly when its validator was built and loads "ajv-formats". */
  lemma RecordedIff(schema: JsonObject, file: Result<(string, string), Exception>, id: string)
    ensures id in Recorded(schema, file) <==>
      Property(schema, "$id") == Some(JStr(id)) && file.Success? && UsesAjvFormats(file.value.1)
  {
  }

  /** The run ends without an error exactly when every call for every schema succeeds. */
  lemma {:induction false} NoErrorIff(b: Builds, entries: seq<(string, JsonObject)>, n: nat)
    requires n <= |entries|
    ensures FirstError(b, entries, n).None? <==>
      forall k :: 0 <= k < n ==> b.validator(entries[k]).Success? && b.definition(entries[k]).Success?
  {
    if n > 0 {
      NoErrorIff(b, entries, n - 1);
    }
  }

  /** Without an error, two files are written per schema. */
  lemma {:induction false} FilesCount(b: Builds, entries: seq<(string, JsonObject)>, n: nat)
    requires n <= |entries| && FirstError(b, entries, n).None?
    ensures |Files(b, entries, n)| == 2 * n
  {
    if n > 0 {
      FilesCount(b, entries, n - 1);
    }
  }

  /** The two extensions after their dot. */
  lemma ExtensionSuffixes()
    ensures ExtensionSuffix("cjs") == ".cjs" && ExtensionSuffix("d.ts") == ".d.ts"
  {
  }

  /** Both files of a schema sit in the same folder under the same name and differ only in extension. */
  lemma OutputPathsPair(cwd: seq<string>, absoluteFilePath: string, schema: JsonObject)
    ensures ToValidatorOutputPath(cwd, absoluteFilePath, schema).Success? <==>
            ToDefinitionOutputPath(cwd, absoluteFilePath, schema).Success?
    ensures ToValidatorOutputPath(cwd, absoluteFilePath, schema).Success? ==>
      exists base :: ToValidatorOutputPath(cwd, absoluteFilePath, schema).value == base + ".cjs" &&
                     ToDefinitionOutputPath(cwd, absoluteFilePath, schema).value == base + ".d.ts"
  {
    var t := FromTitleToTypeName.FromTitleToTypeName(schema);
    if t.Success? {
      var o1 := SchemaOptions(t.value, "cjs");
      var o2 := SchemaOptions(t.value, "d.ts");
      ExtensionTransformOnly(cwd, INPUT_ROOT, OUTPUT_ROOT, absoluteFilePath, o1, o2);
      var base, oldExt :| InputToOutputPath.InputToOutputPath(cwd, INPUT_ROOT, OUTPUT_ROOT, absoluteFilePath, Some(o1))
                            == base + ExtensionSuffix(Apply(o1.transformFileExtension, oldExt)) &&
                          InputToOutputPath.InputToOutputPath(cwd, INPUT_ROOT, OUTPUT_ROOT, absoluteFilePath, Some(o2))
                            == base + ExtensionSuffix(Apply(o2.transformFileExtension, oldExt));
      assert Apply(o1.transformFileExtension, oldExt) == "cjs";
      assert Apply(o2.transformFileExtension, oldExt) == "d.ts";
      ExtensionSuffixes();
    }
  }

  /**
   * For the file `stem + ext` in folder `sub` below "src", the output keeps
   * the folder, takes "Validate" + title as its base name and gets the
   * given extension after one dot.
   */
  lemma OutputPathParts(cwd: seq<string>, sub: string, stem: string, ext: string, typeName: string,
                        fileExtension: string)
    requires WorkingDirectory(cwd) && (sub == "" || NormalPath(sub)) && SplitName(stem, ext)
    ensures InputToOutputPath.InputToOutputPath(cwd, INPUT_ROOT, OUTPUT_ROOT, Under("src", sub) + "/" + stem + ext,
                              Some(SchemaOptions(typeName, fileExtension)))
         == Join2(Under("src", sub), "Validate" + typeName) + ExtensionSuffix(fileExtension)
  {
    assert INPUT_ROOT == "./" + "src" && OUTPUT_ROOT == "./" + "src";
    SegmentPath("src");
    DotSlashTransformParts(cwd, "src", sub, stem, ext, SchemaOptions(typeName, fileExtension));
  }

  /** The validator of "src/sub/Name.schema.json" titled T is "src/sub/ValidateT.cjs". */
  lemma ValidatorPath(cwd: seq<string>, sub: string, stem: string, ext: string, schema: JsonObject,
                      typeName: string)
    requires WorkingDirectory(cwd) && (sub == "" || NormalPath(sub)) && SplitName(stem, ext)
    requires FromTitleToTypeName.FromTitleToTypeName(schema) == Success(typeName)
    ensures ToValidatorOutputPath(cwd, Under("src", sub) + "/" + stem + ext, schema)
         == Success(Join2(Under("src", sub), "Validate" + typeName) + ".cjs")
  {
    OutputPathParts(cwd, sub, stem, ext, typeName, "cjs");
    ExtensionSuffixes();
  }

  /** The declaration of "src/sub/Name.schema.json" titled T is "src/sub/ValidateT.d.ts". */
  lemma DefinitionPath(cwd: seq<string>, sub: string, stem: string, ext: string, schema: JsonObject,
                       typeName: string)
    requires WorkingDirectory(cwd) && (sub == "" || NormalPath(sub)) && SplitName(stem, ext)
    requires FromTitleToTypeName.FromTitleToTypeName(schema) == Success(typeName)
    ensures ToDefinitionOutputPath(cwd, Under("src", sub) + "/" + stem + ext, schema)
         == Success(Join2(Under("src", sub), "Validate" + typeName) + ".d.ts")
  {
    OutputPathParts(cwd, sub, stem, ext, typeName, "d.ts");
    ExtensionSuffixes();
  }
}
