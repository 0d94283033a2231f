/**
 * `generateDefinition`: the TypeScript declaration file (`.d.ts`) that types
 * and documents one generated validation function. The generated header is a
 * parameter, since the helper that writes it is not part of this model.
 * Multi-line texts are kept as their lines joined with "\n".
 */
module GenerateValidatorDefinition {
  import opened Wrappers
  import opened Strings
  import opened Json
  import FromTitleToTypeName

  const AJV_ERROR_OBJECT_LINK := "https://ajv.js.org/api.html#error-objects"

  /** The alias the validated interface is imported under. */
  const SCHEMA_INTERFACE_ALIAS := "SchemaInterface"

  /** Imports AJV's `ErrorObject` when the library is installed, ignoring the error when it is not. */
  const IMPORT_ERROR_OBJECT_LINES: seq<string> := [
    "//We need to temporarily disable es-lint right here,",
    "//because having an error here really is optional.",
    "// eslint-disable-next-line @typescript-eslint/ban-ts-comment",
    "// @ts-ignore -- Import the true ErrorObject interface if AJV is available and do nothing if it isn't.",
    "import type { ErrorObject as AjvErrorObject } from \"ajv\";"
  ]

  /** A self-contained copy of AJV's `ErrorObject` interface. */
  const STANDALONE_ERROR_OBJECT_LINES: seq<string> := [
    "/**",
    " * Reports one of the reasons JSON Schema validation failed.",
    " *",
    " * This interface is a self-contained equivalent to ajv's",
    " * {@link " + AJV_ERROR_OBJECT_LINK + " ErrorObject}",
    " * and is used if the AJV library isn't available.",
    " * @typeParam K",
    " * Type of the object identifying the error.",
    " * @typeParam P",
    " * Type of the params property, containing data about the error.",
    " * @typeParam S",
    " * Type of the schema property, which if set,",
    " * has a reference to the original schema object.",
    " */",
    "interface StandaloneErrorObject<",
    "    K extends string = string,",
    "    P = Record<string, unknown>,",
    "    S = unknown,",
    "> {",
    "    /**",
    "     * Validation keyword.",
    "     */",
    "    keyword: K;",
    "",
    "    /**",
    "     * JSON Pointer to the location in the data instance (e.g. \"/prop/1/subProp\").",
    "     */",
    "    instancePath: string;",
    "",
    "    /**",
    "     * JSON Pointer to the location of the failing keyword in the schema.",
    "     */",
    "    schemaPath: string;",
    "",
    "    /**",
    "     * Object with additional information about error.",
    "     * It can be used to generate custom error messages,",
    "     * for example, in conjunction with the ajv-i18n package.",
    "     *",
    "     * See {@link https://ajv.js.org/api.html#error-parameters error parameters}",
    "     * for more details.",
    "     */",
    "    params: P;",
    "",
    "    /**",
    "     * If error represented a \"propertyNames\" error,",
    "     * this is set to the propertyName that had the error.",
    "     */",
    "    propertyName?: string;",
    "",
    "    /**",
    "     * The error message.",
    "     */",
    "    message?: string;",
    "",
    "    /**",
    "     * The value of the failing keyword in the schema.",
    "     *",
    "     * Contains the original schema that triggered the error.",
    "     */",
    "    schema?: S;",
    "",
    "    /**",
    "     * The object containing the keyword.",
    "     */",
    "    parentSchema?: Record<string, unknown>;",
    "",
    "    /**",
    "     * The data validated by the keyword.",
    "     */",
    "    data?: unknown;",
    "}"
  ]

  /** Picks AJV's interface when it is available, the standalone one otherwise. */
  const ERROR_TYPE_LINES: seq<string> := [
    "/**",
    " * Defines the type of the objects used to report errors.",
    " * Uses the original AJV definition if available and a standalone definition if not.",
    " */",
    "type ErrorObject = unknown extends AjvErrorObject",
    "    ? StandaloneErrorObject",
    "    : AjvErrorObject;"
  ]

  /** The import of the validated interface, aliased. */
  function ImportStatement(typeName: string): string {
    "import { " + typeName + " as " + SCHEMA_INTERFACE_ALIAS + " } from \"./" + typeName + "\";"
  }

  /** The two comment lines above the type import. */
  const IMPORT_COMMENT := "//Import the type being validated.\n//Use an alias, " + SCHEMA_INTERFACE_ALIAS +
                          ", to make sure there is no name collision.\n"

  /** `generateInterfaceImport(typeName)`: two comment lines, then the aliased import of `typeName` from "./" + `typeName`. */
  function GenerateInterfaceImport(typeName: string): (code: string) {
    IMPORT_COMMENT + ImportStatement(typeName)
  }

  /** The call signature of the declared validator: a type guard for the aliased interface. */
  const CALL_SIGNATURE := "(data: unknown): data is " + SCHEMA_INTERFACE_ALIAS + ";"

  /** The `errors` property of the declared validator. */
  const ERRORS_PROPERTY := "errors?: null | ErrorObject[];"

  /** The lines of the documentation comment above the declaration. */
  function ValidateDocLines(typeName: string, validationFunctionName: string): seq<string> {
    [
      "/**",
      " * @function",
      " * Checks whether a given value is a valid instance of",
      " * {@link " + SCHEMA_INTERFACE_ALIAS + " " + typeName + "} and matches its",
      " * {@link https://json-schema.org/ JSON Schema}.",
      " * @param {any} data",
      " * Value we want to check to see if it matches {@link " + SCHEMA_INTERFACE_ALIAS + " " + typeName + "}.",
      " * @returns {data is " + SCHEMA_INTERFACE_ALIAS + "}",
      " * true if data is confirmed to be a valid instance of",
      " * type {@link " + SCHEMA_INTERFACE_ALIAS + " " + typeName + "}, false otherwise.",
      " *",
      " * If result is false, you may check property {@link " + validationFunctionName + "#errors}",
      " * for an array of {@link ErrorObject}s to figure out whatever went wrong.",
      " * @example",
      " * This example shows you how you can verify that a",
      " * value matches type " + typeName + ".",
      " * ```TypeScript",
      " * //A function that can only operate on " + typeName + ".",
      " * //Will print it to the console.",
      " * function printObject(obj: " + typeName + "): void {",
      " *     console.log(obj);",
      " * }",
      " *",
      " * //Some object we want to validate.",
      " * const obj: unknown = {",
      " *     someProperty: 25",
      " * };",
      " *",
      " * //If this object is a valid instance of " + typeName + ".",
      " * if (" + validationFunctionName + "(obj)) {",
      " *     //We can use it as the type.",
      " *     printObject(obj);",
      " * }",
      " * ```",
      " */"
    ]
  }

  /** The lines of the documentation comment of the `errors` property. */
  function ErrorsDocLines(typeName: string, validationFunctionName: string): seq<string> {
    [
      "    /**",
      "     * If the validation function returns false,",
      "     * this property will be set to an array of {@link ErrorObject}s,",
      "     * explaining why validation failed.",
      "     *",
      "     * If your project contains",
      "     * {@link https://www.npmjs.com/package/ajv package ajv},",
      "     * then",
      "     * this function will use",
      "     * {@link " + AJV_ERROR_OBJECT_LINK + " AJV's interface}",
      "     * for them.",
      "     * If not, it will use an internal and independant interface,",
      "     * {@link StandaloneErrorObject},",
      "     * to define them. Note that there is no runtime difference",
      "     * between the two types.",
      "     * @example",
      "     * This example shows you how to fetch the resulting",
      "     * {@link ErrorObject}",
      "     * array if something goes wrong during validation.",
      "     * ```TypeScript",
      "     * //Some object we want to validate.",
      "     * const obj: unknown = {",
      "     *     someProperty: 25",
      "     * };",
      "     *",
      "     * //If this object is NOT a valid instance of " + typeName + ".",
      "     * if (!" + validationFunctionName + "(obj)) {",
      "     *     //Tell user validation failed.",
      "     *     console.log(\"Obj is NOT an instance of " + typeName + "\");",
      "     *",
      "     *     //Fetch the list of errors.",
      "     *     const errors = " + validationFunctionName + ".errors;",
      "     * ",
      "     *     //By default, the error messages are in English.",
      "     *     //Use ajv-i18n to localize the error messages.",
      "     *     //This localize function was imported from \"ajv-i18n/localize/fr\"",
      "     *     //and will translate the error messages to French.",
      "     *     localize(errors);",
      "     *",
      "     *     //Iterate the errors.",
      "     *     for (const error of errors) {",
      "     *         //Print the error representing whatever went wrong.",
      "     *         console.log(error);",
      "     *     }",
      "     * }",
      "     * ```",
      "     */"
    ]
  }

  /** The start of the declaration: the validator is a constant whose type is callable. */
  function DeclarationHead(validationFunctionName: string): string {
    "declare const " + validationFunctionName + ": {\n    " + CALL_SIGNATURE + "\n"
  }

  /**
   * The fixed texts of the declaration file: the three sections that do not
   * depend on the schema, and the two documentation comments as functions of
   * the type name and the validator name.
   */
  datatype Texts = Texts(importErrorObject: string, standaloneErrorObject: string, errorType: string,
                         validateDoc: (string, string) -> string, errorsDoc: (string, string) -> string)

  /** The texts the generator writes. */
  const SOURCE_TEXTS := Texts(Join(IMPORT_ERROR_OBJECT_LINES, "\n"), Join(STANDALONE_ERROR_OBJECT_LINES, "\n"),
                              Join(ERROR_TYPE_LINES, "\n"),
                              (typeName, validationFunctionName) =>
                                Join(ValidateDocLines(typeName, validationFunctionName), "\n"),
                              (typeName, validationFunctionName) =>
                                Join(ErrorsDocLines(typeName, validationFunctionName), "\n"))

  /** The closing of the declaration: the `errors` property and the closing brace. */
  const DECLARATION_END := "\n    " + ERRORS_PROPERTY + "\n};"

  /**
   * `generateValidateFunction(typeName, validationFunctionName)`: the
   * documentation comment, the declaration of the validator as a type guard,
   * and its documented `errors` property.
   */
  function ValidateFunctionWith(texts: Texts, typeName: string, validationFunctionName: string): string {
    texts.validateDoc(typeName, validationFunctionName) + "\n" + DeclarationHead(validationFunctionName) +
    "\n" + texts.errorsDoc(typeName, validationFunctionName) + DECLARATION_END
  }

  function GenerateValidateFunction(typeName: string, validationFunctionName: string): string {
    ValidateFunctionWith(SOURCE_TEXTS, typeName, validationFunctionName)
  }

  /** The sections of the declaration file for the type `typeName`, in their fixed order, ending with a newline. */
  function DefinitionCode(texts: Texts, generatedHeader: string, typeName: string): string {
    generatedHeader + "\n" + GenerateInterfaceImport(typeName) + "\n" + texts.importErrorObject + "\n\n" +
    texts.standaloneErrorObject + "\n\n" + texts.errorType + "\n\n" +
    ValidateFunctionWith(texts, typeName, "validate" + typeName) + "\n"
  }

  /**
   * `generateDefinition(schema)` over the given texts: an invalid title
   * throws before any text is built; otherwise the declaration file for the
   * title.
   */
  function GenerateDefinitionWith(texts: Texts, generatedHeader: string, schema: JsonObject)
    : (r: Result<string, Exception>)
    ensures r.Failure? <==> FromTitleToTypeName.FromTitleToTypeName(schema).Failure?
    ensures r.Failure? ==> r.error == FromTitleToTypeName.FromTitleToTypeName(schema).error
    ensures r.Success? ==>
      r.value == DefinitionCode(texts, generatedHeader, FromTitleToTypeName.FromTitleToTypeName(schema).value)
  {
    var typeName :- FromTitleToTypeName.FromTitleToTypeName(schema);
    Success(DefinitionCode(texts, generatedHeader, typeName))
  }

  /** `generateDefinition(schema)`. */
  function GenerateDefinition(generatedHeader: string, schema: JsonObject): Result<string, Exception> {
    GenerateDefinitionWith(SOURCE_TEXTS, generatedHeader, schema)
  }

  // ---------------------------------------------------------------------------
  // Properties.

  /** Two schemas with the same title get the same declaration file, whatever else they hold. */
  lemma SameTitleSameDefinition(texts: Texts, generatedHeader: string, a: JsonObject, b: JsonObject)
    requires Property(a, "title") == Property(b, "title")
    ensures GenerateDefinitionWith(texts, generatedHeader, a) == GenerateDefinitionWith(texts, generatedHeader, b)
  {
    FromTitleToTypeName.OnlyTitleRead(a, b);
  }

  /** The declaration of the validator lies inside its text, which ends with the `errors` property. */
  lemma ValidateFunctionSections(texts: Texts, typeName: string, validationFunctionName: string)
    ensures Includes(ValidateFunctionWith(texts, typeName, validationFunctionName), DeclarationHead(validationFunctionName))
    ensures EndsWith(ValidateFunctionWith(texts, typeName, validationFunctionName), DECLARATION_END)
  {
    var doc := texts.validateDoc(typeName, validationFunctionName) + "\n";
    var decl := DeclarationHead(validationFunctionName);
    var errors := "\n" + texts.errorsDoc(typeName, validationFunctionName);
    IncludesParts(doc, decl);
    IncludesExtend(doc + decl, decl, "\n");
    IncludesExtend(doc + decl + "\n", decl, texts.errorsDoc(typeName, validationFunctionName));
    IncludesExtend(doc + decl + "\n" + texts.errorsDoc(typeName, validationFunctionName), decl, DECLARATION_END);
    Concatenated(doc + decl + "\n" + texts.errorsDoc(typeName, validationFunctionName), DECLARATION_END);
  }

  /**
   * The file starts with the header and the aliased type import, declares
   * "validate" + title as a type guard for the interface, and ends with the
   * `errors` property, the closing brace and a newline.
   */
  lemma DefinitionSections(texts: Texts, generatedHeader: string, typeName: string)
    ensures StartsWith(DefinitionCode(texts, generatedHeader, typeName),
                       generatedHeader + "\n" + GenerateInterfaceImport(typeName))
    ensures Includes(DefinitionCode(texts, generatedHeader, typeName), ImportStatement(typeName))
    ensures Includes(DefinitionCode(texts, generatedHeader, typeName), DeclarationHead("validate" + typeName))
    ensures EndsWith(DefinitionCode(texts, generatedHeader, typeName), DECLARATION_END + "\n")
  {
    var fn := "validate" + typeName;
    var s0 := generatedHeader + "\n" + GenerateInterfaceImport(typeName);
    var s1 := s0 + "\n" + texts.importErrorObject + "\n\n" + texts.standaloneErrorObject + "\n\n" +
              texts.errorType + "\n\n";
    var vf := ValidateFunctionWith(texts, typeName, fn);
    assert DefinitionCode(texts, generatedHeader, typeName) == s1 + vf + "\n";
    ValidateFunctionSections(texts, typeName, fn);
    // The start.
    var a1 := s0 + "\n";
    var a2 := a1 + texts.importErrorObject;
    var a3 := a2 + "\n\n";
    var a4 := a3 + texts.standaloneErrorObject;
    var a5 := a4 + "\n\n";
    var a6 := a5 + texts.errorType;
    assert s1 == a6 + "\n\n";
    Concatenated(s0, "\n");
    StartsWithAppend(a1, s0, texts.importErrorObject);
    StartsWithAppend(a2, s0, "\n\n");
    StartsWithAppend(a3, s0, texts.standaloneErrorObject);
    StartsWithAppend(a4, s0, "\n\n");
    StartsWithAppend(a5, s0, texts.errorType);
    StartsWithAppend(a6, s0, "\n\n");
    StartsWithAppend(s1, s0, vf);
    StartsWithAppend(s1 + vf, s0, "\n");
    // The type import.
    IncludesParts(IMPORT_COMMENT, ImportStatement(typeName));
    IncludesExtend(GenerateInterfaceImport(typeName), ImportStatement(typeName), generatedHeader + "\n");
    IncludesPrefix(s1 + vf + "\n", s0, ImportStatement(typeName));
    // The declaration.
    IncludesExtend(vf, DeclarationHead(fn), s1);
    IncludesExtend(s1 + vf, DeclarationHead(fn), "\n");
    // The end.
    EndsWithPrepend(vf, DECLARATION_END, s1);
    EndsWithAppend(s1 + vf, DECLARATION_END, "\n");
  }
}
