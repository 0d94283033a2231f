/**
 * `generateValidator`: the CommonJS module of one standalone validation
 * function. AJV's `standaloneCode` is not part of this model: it is a
 * parameter from the name-to-schema-id mapping to the module source, with
 * the AJV instance folded into it. The generated header is a parameter too.
 */
module GenerateValidator {
  import opened Wrappers
  import opened Strings
  import opened OrderedMaps
  import opened Json
  import FromTitleToTypeName

  /** The first two lines: they switch off ESLint and TypeScript checking. */
  const DISABLE_CHECKS := "/* eslint-disable */\n// @ts-nocheck\n"

  /** The TypeDoc tags that hide the module, and the note on why checking is off. */
  const HIDE_AND_EXPLAIN :=
    "/**\n * @ignore\n * @module\n */\n" +
    "//The above comments are necessary to disable\n" +
    "//ESLint, TypeScript Type Checking, and TypeDoc, in that order,\n" +
    "//since this is a generated file where I cannot reliably fix what\n" +
    "//the 1st two tools are complaining about\n" +
    "//and the TypeDoc is already in a separate file.\n"

  /** The comment block at the top of the file, ending with a newline. */
  const DIRECTIVES := DISABLE_CHECKS + HIDE_AND_EXPLAIN

  /** The message of the `TypeError` for an `$id` that is not a string. */
  function IdTypeErrorMessage(id: Option<Json>): string {
    "Schema id " + ToDisplayString(id) + " was of type " + TypeOf(id) + " instead of string."
  }

  /** The argument of `standaloneCode`: the one export "validate" + type name, for the schema `id`. */
  function ValidatorMapping(typeName: string, id: string): (m: OrderedMap<string, string>)
    ensures m.Valid() && m.keys == ["validate" + typeName]
    ensures m.Get("validate" + typeName) == Some(id)
    ensures forall k :: k != "validate" + typeName ==> m.Get(k) == None
  {
    Empty().Set("validate" + typeName, id)
  }

  /** The file: the directives, a blank line, the header, a blank line, then the module source. */
  function Layout(generatedHeader: string, validationSourceCode: string): string {
    DIRECTIVES + "\n" + generatedHeader + "\n\n" + validationSourceCode
  }

  /**
   * `generateValidator(ajv, schema)`: an `$id` that is not a string throws a
   * `TypeError` before the title is read; an invalid title throws the error
   * of `fromTitleToTypeName`; otherwise the module for the validator
   * "validate" + title.
   */
  function GenerateValidator(standaloneCode: OrderedMap<string, string> -> string, generatedHeader: string,
                             schema: JsonObject): (r: Result<string, Exception>)
    ensures TypeOf(Property(schema, "$id")) != "string" ==>
      r == Failure(TypeError(IdTypeErrorMessage(Property(schema, "$id"))))
    ensures TypeOf(Property(schema, "$id")) == "string" ==>
      (r.Failure? <==> FromTitleToTypeName.FromTitleToTypeName(schema).Failure?)
    ensures TypeOf(Property(schema, "$id")) == "string" && r.Failure? ==>
      r.error == FromTitleToTypeName.FromTitleToTypeName(schema).error
    ensures r.Success? ==>
      exists id :: (Property(schema, "$id") == Some(JStr(id)) &&
                    r.value == Layout(generatedHeader,
                                      standaloneCode(ValidatorMapping(FromTitleToTypeName.FromTitleToTypeName(schema).value,
                                                                      id))))
  {
    var id := Property(schema, "$id");
    if TypeOf(id) != "string" then Failure(TypeError(IdTypeErrorMessage(id)))
    else
      TypeOfString(id);
      var typeName :- FromTitleToTypeName.FromTitleToTypeName(schema);
      Success(Layout(generatedHeader, standaloneCode(ValidatorMapping(typeName, id.value.s))))
  }

  // ---------------------------------------------------------------------------
  // Properties.

  /** The file starts with the two check-disabling lines and ends with the module source unchanged. */
  lemma LayoutFrame(generatedHeader: string, validationSourceCode: string)
    ensures StartsWith(Layout(generatedHeader, validationSourceCode), DISABLE_CHECKS)
    ensures EndsWith(Layout(generatedHeader, validationSourceCode), validationSourceCode)
    ensures Includes(Layout(generatedHeader, validationSourceCode), "\n" + generatedHeader + "\n\n")
  {
    Concatenated(DISABLE_CHECKS, HIDE_AND_EXPLAIN);
    var d1 := DIRECTIVES + "\n";
    var d2 := d1 + generatedHeader;
    var d3 := d2 + "\n\n";
    StartsWithAppend(DIRECTIVES, DISABLE_CHECKS, "\n");
    StartsWithAppend(d1, DISABLE_CHECKS, generatedHeader);
    StartsWithAppend(d2, DISABLE_CHECKS, "\n\n");
    StartsWithAppend(d3, DISABLE_CHECKS, validationSourceCode);
    Concatenated(d3, validationSourceCode);
    assert d3 == DIRECTIVES + ("\n" + generatedHeader + "\n\n");
    IncludesParts(DIRECTIVES, "\n" + generatedHeader + "\n\n");
    IncludesExtend(d3, "\n" + generatedHeader + "\n\n", validationSourceCode);
  }

  /** `standaloneCode` is asked for exactly one export, named after the title and bound to the schema's id. */
  lemma OneExportRequested(standaloneCode: OrderedMap<string, string> -> string, generatedHeader: string,
                           schema: JsonObject, typeName: string, id: string)
    requires Property(schema, "$id") == Some(JStr(id))
    requires FromTitleToTypeName.FromTitleToTypeName(schema) == Success(typeName)
    ensures GenerateValidator(standaloneCode, generatedHeader, schema) ==
      Success(Layout(generatedHeader, standaloneCode(ValidatorMapping(typeName, id))))
  {
  }

  /** A successful result starts with the check-disabling lines and ends with what `standaloneCode` returned. */
  lemma ValidatorFrame(standaloneCode: OrderedMap<string, string> -> string, generatedHeader: string,
                       schema: JsonObject)
    requires GenerateValidator(standaloneCode, generatedHeader, schema).Success?
    ensures StartsWith(GenerateValidator(standaloneCode, generatedHeader, schema).value, DISABLE_CHECKS)
    ensures exists id :: (Property(schema, "$id") == Some(JStr(id)) &&
                          EndsWith(GenerateValidator(standaloneCode, generatedHeader, schema).value,
                                   standaloneCode(ValidatorMapping(FromTitleToTypeName.FromTitleToTypeName(schema).value,
                                                                   id))))
  {
    var id :| Property(schema, "$id") == Some(JStr(id)) &&
      GenerateValidator(standaloneCode, generatedHeader, schema).value ==
        Layout(generatedHeader, standaloneCode(ValidatorMapping(FromTitleToTypeName.FromTitleToTypeName(schema).value, id)));
    LayoutFrame(generatedHeader, standaloneCode(ValidatorMapping(FromTitleToTypeName.FromTitleToTypeName(schema).value, id)));
  }
}
