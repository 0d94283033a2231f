# ts-file-module-template core, modelled in Dafny

This project models the logic at the core of a TypeScript template library, mostly its build-time tooling. The modelled parts are:

- **Code generation** (`config/generate`). This covers:
  - the alias registry that names imports without clashes;
  - the path rebasing and extension rewriting;
  - the id indexes built from parsed JSON schemas and the title checks;
  - the JSDoc comment builder and the camel-case to snake-case converter;
  - the npm dependency classification;
  - the generators of schema interfaces, validators, validator declarations and the id-to-schema mapping;
  - the two cleaners that delete generated scripts.
- **package.json rewriting**: the `exports`-rewriting script and the `exports`-reset script.
- **TypeDoc plugins**: the three plugins that tag internal declarations and rename modules, over a small model of the TypeDoc host.
- **Rollup configurations**: the two configurations' entry-point maps and their warning filter.
- **Containers**: the `Vector4` and `Matrix4` classes.

Each source file is one Dafny module with the same name. These become classes with fields, methods with loops and loop invariants, and `modifies`/`reads` frames:

- the alias registry;
- the id indexes;
- the comment loop;
- the validator run;
- the in-memory file system;
- the plugins;
- the entry maps;
- the vector and the matrix.

Straight-line logic (paths, titles, text emitters, dependency lookup) is made of functions and lemmas.

Some helper modules stand in for the JavaScript runtime and libraries the code calls:

- `Wrappers`: `Option` and `Result`.
- `Strings`: searching, joining, decimal rendering and the UTF-16 code units of text.
- `Json`: parsed JSON values, JavaScript truthiness and `typeof`, and property reads that fall through to the prototype chain: the names every object inherits from `Object.prototype` (`Json.ObjectPrototypeMembers`), and for arrays `length` and the `Array.prototype` methods of ECMAScript 2023 (`Json.ArrayPrototypeMembers`).
- `OrderedMaps`: insertion-ordered dictionaries, for `Map` and object keys.
- `Paths`: `node:path` for normalised `/`-separated paths.
- `Utf8`: `Buffer.from` on text.
- `Globs`: what the glob patterns match.
- `Sorting`: `Array.prototype.sort` on strings, which compares their UTF-16 code units (`Strings.Utf16`), not their code points.
- `FileSystems`: a file system held as a map from path to bytes.
- `TypeDocHost`: reflections and the converter's event registry.
- `ImportFactories`: the import registry, whose own code is not part of this model.

Nothing here runs the original programs. The file system, the glob results, the clock and the foreign compilers become parameters.

## Model

| member | source | states |
|---|---|---|
| AliasNameFactory.ProbeNameInjective | config/generate/utils/AliasNameFactory.ts:82-94 | the probes name, name2, name3, ... are pairwise distinct, so the search never tries an alias twice |
| AliasNameFactory.AliasNameFactory.constructor | config/generate/utils/AliasNameFactory.ts:53-60 | a new factory has no aliases |
| AliasNameFactory.AliasNameFactory.PickAlias | config/generate/utils/AliasNameFactory.ts:70-97 | the result is the first probe (name, then name2, name3, ...; never name1) that is not an alias yet, every earlier probe is taken, and a free name is returned unchanged |
| AliasNameFactory.AliasNameFactory.CreateAnonymousAlias | config/generate/utils/AliasNameFactory.ts:104-119 | the alias is the first free probe of "Unnamed"; exactly one entry is added, at the end, with empty module path and declaration, and every existing entry is kept |
| AliasNameFactory.AliasNameFactory.CreateAlias | config/generate/utils/AliasNameFactory.ts:128-151 | a missing or empty name behaves as `createAnonymousAlias`; otherwise the alias is the first free probe of the name, and the one new entry, added last, records the module path and declaration |
| AliasNameFactory.AliasNameFactory.CreateImports | config/generate/utils/AliasNameFactory.ts:168-232 | the code is the concatenation, in insertion order, of each entry's import line |
| AliasNameFactory.ImportsCodeConcat | config/generate/utils/AliasNameFactory.ts:176-229 | the code of two runs of entries is the first run's code followed by the second's |
| AliasNameFactory.ImportLineSkips | config/generate/utils/AliasNameFactory.ts:177-189 | anonymous entries and entries of the main module itself contribute no code |
| AliasNameFactory.ImportLineShape | config/generate/utils/AliasNameFactory.ts:218-228 | any other entry is an import of its declaration, by its own name when the alias equals it and `as` the alias otherwise |
| AliasNameFactory.ImportEndings | config/generate/utils/AliasNameFactory.ts:221-227 | an unaliased import ends with a line break, an aliased one with ";" and no line break |
| AliasNameFactory.FromSpecifierSiblings | config/generate/utils/AliasNameFactory.ts:196-210 | a module in the main module's folder is imported as "./" and its name |
| AliasNameFactory.FromSpecifierChildFolder | config/generate/utils/AliasNameFactory.ts:196-210 | a module one folder below the main module's folder is imported by folder and name, without "./" |
| AliasNameFactory.AliasedImportsShareLine | config/generate/utils/AliasNameFactory.ts:219-228 | two aliased imports in a row run together: the first adds no line break |
| InputToOutputPath.GetFileExtension | config/generate/utils/InputToOutputPath.ts:34-47 | the extension is empty exactly when the name has no "."; otherwise it starts with ".", ends the name, and no "." comes before it |
| InputToOutputPath.ExtensionOfSplitName | config/generate/utils/InputToOutputPath.ts:34-47 | a dot-free stem followed by an extension starting with "." has exactly that extension |
| InputToOutputPath.NoOptionsRebases | config/generate/utils/InputToOutputPath.ts:98-111 | without options a file below the input root lands at the same relative place below the output root, unchanged |
| InputToOutputPath.OptionsTransformParts | config/generate/utils/InputToOutputPath.ts:113-162 | with options, the folder transform gets the rebased folder, the base-name transform the text before the first ".", the extension transform the old extension with its dot, and a non-empty new extension follows one added "." |
| InputToOutputPath.RebasedChild | config/generate/utils/InputToOutputPath.ts:98-105 | `join(rootOutput, relative(rootInput, input))` moves a file from a folder of the input root to the same folder of the output root |
| InputToOutputPath.TransformedChild | config/generate/utils/InputToOutputPath.ts:113-162 | the transform steps on one file of a folder: folder, stem and extension are transformed separately and reassembled |
| InputToOutputPath.KeptExtensionDoublesDot | config/generate/utils/InputToOutputPath.ts:148-160 | with options but no extension transform the kept extension already starts with "." and another is added ("A.schema.json" becomes "A..schema.json") |
| InputToOutputPath.EmptyExtensionAddsNothing | config/generate/utils/InputToOutputPath.ts:155-160 | an empty new extension appends nothing: the result is the folder joined with the base name |
| InputToOutputPath.DotSlashRebasedChild | config/generate/utils/InputToOutputPath.ts:98-105 | roots written "./src" rebase a file of "src" onto itself |
| InputToOutputPath.DotSlashTransformParts | config/generate/utils/InputToOutputPath.ts:98-162 | the transform decomposition for roots written "./" and a folder |
| InputToOutputPath.ExtensionTransformOnly | config/generate/utils/InputToOutputPath.ts:126-160 | two option sets that differ only in the extension transform give results that differ only after a common prefix, both transforms receiving the same old extension |
| ToIdToPathMap.IndexedId | config/generate/json-schema/json/ToIdToPathMap.ts:39-51 | a schema is indexed exactly when its `$id` is truthy and of type "string", under that non-empty string |
| ToIdToPathMap.ToIdToPathMap | config/generate/json-schema/json/ToIdToPathMap.ts:30-71 | the loop over the schemas returns the index of the entries in iteration order, or the first error it throws |
| ToIdToPathMap.StepCases | config/generate/json-schema/json/ToIdToPathMap.ts:39-67 | one iteration: a truthy non-string id throws a TypeError, a falsy id is skipped, a repeated id throws an Error, otherwise the id is recorded with its path |
| ToIdToPathMap.FailureStops | config/generate/json-schema/json/ToIdToPathMap.ts:50-63 | once an error is thrown the later schemas are never examined |
| ToIdToPathMap.CarriesSnoc | config/generate/json-schema/json/ToIdToPathMap.ts:37 | an id is carried by a longer run exactly when it was carried before or by the new last entry |
| ToIdToPathMap.IndexKeys | config/generate/json-schema/json/ToIdToPathMap.ts:37-67 | on success the keys are exactly the indexed ids, in input order |
| ToIdToPathMap.IndexLookup | config/generate/json-schema/json/ToIdToPathMap.ts:37-67 | on success an id maps to a path exactly when the schema at that path carries the id |
| ToIdToPathMap.IndexSucceedsIff | config/generate/json-schema/json/ToIdToPathMap.ts:37-70 | the index is built exactly when every `$id` is falsy or a string and no indexed id repeats |
| ToIdToPathMap.SuccessIndexable | config/generate/json-schema/json/ToIdToPathMap.ts:37-70 | a successful index had only acceptable ids, none repeated |
| ToIdToPathMap.IndexableSucceeds | config/generate/json-schema/json/ToIdToPathMap.ts:37-70 | acceptable ids, none repeated, always give an index |
| ToIdToPathMap.NonStringIdThrows | config/generate/json-schema/json/ToIdToPathMap.ts:48-51 | the first schema with a truthy non-string `$id` makes the result a TypeError naming its path and the id's type |
| ToIdToPathMap.DuplicateIdThrows | config/generate/json-schema/json/ToIdToPathMap.ts:54-64 | a repeated id makes the result an Error naming the id, then the earlier path, then the later path |
| ToIdToSchemaMap.StringId | config/generate/json-schema/json/ToIdToSchemaMap.ts:40-43 | a schema is indexed exactly when its `$id` is of type "string", the empty string included |
| ToIdToSchemaMap.ToIdToSchemaMap | config/generate/json-schema/json/ToIdToSchemaMap.ts:31-61 | the loop returns the index of the schemas in iteration order, or the first error it throws |
| ToIdToSchemaMap.StepCases | config/generate/json-schema/json/ToIdToSchemaMap.ts:40-57 | one iteration: a non-string id is skipped, a repeated id throws an Error, otherwise the schema is recorded |
| ToIdToSchemaMap.FailureStops | config/generate/json-schema/json/ToIdToSchemaMap.ts:50-52 | once an error is thrown the later schemas are never examined |
| ToIdToSchemaMap.CarriesSnoc | config/generate/json-schema/json/ToIdToSchemaMap.ts:38 | an id is carried by a longer run exactly when it was carried before or by the new last schema |
| ToIdToSchemaMap.IndexKeys | config/generate/json-schema/json/ToIdToSchemaMap.ts:38-56 | on success the keys are exactly the string ids, in input order |
| ToIdToSchemaMap.IndexLookup | config/generate/json-schema/json/ToIdToSchemaMap.ts:38-60 | on success an id maps to a schema exactly when that very schema carries the id |
| ToIdToSchemaMap.IndexSucceedsIff | config/generate/json-schema/json/ToIdToSchemaMap.ts:38-60 | the index is built exactly when no string id repeats; non-string ids never throw |
| ToIdToSchemaMap.SuccessUnique | config/generate/json-schema/json/ToIdToSchemaMap.ts:38-60 | a successful index had no repeated string id |
| ToIdToSchemaMap.UniqueSucceeds | config/generate/json-schema/json/ToIdToSchemaMap.ts:38-60 | distinct string ids always give an index |
| ToIdToSchemaMap.DuplicateIdThrows | config/generate/json-schema/json/ToIdToSchemaMap.ts:45-53 | a repeated id makes the result an Error naming only the id |
| ToIdToSchemaMap.EmptyIdIndexedUnlikePathMap | config/generate/json-schema/json/ToIdToSchemaMap.ts:43 | a schema with `$id` "" is indexed under "" here, while `toIdToPathMap` skips it as falsy |
| FromTitleToTypeName.FromTitleToTypeName | config/generate/json-schema/json/schema/FromTitleToTypeName.ts:36-55 | succeeds exactly when the title is a non-empty string, returning it unchanged; any other type gives a TypeError (checked first), the empty string a plain Error |
| FromTitleToTypeName.OnlyTitleRead | config/generate/json-schema/json/schema/FromTitleToTypeName.ts:39 | schemas that agree on "title" get the same result: no other property is read |
| ToComment.ToCommentBlock | config/generate/utils/ToComment.ts:37-102 | the while loop from newline to newline builds exactly `CommentOf(text)`: nothing from the first piece, one line per middle piece, then the rest of the text from the last newline on |
| ToComment.Advance | config/generate/utils/ToComment.ts:57-86 | one pass of the loop keeps the loop state: the next newline lies further on, the pieces after it are the rest of the split, and the comment line of the text between the two newlines extends the comment to the lines of one more piece |
| ToComment.AddLine | config/generate/utils/ToComment.ts:59-81 | the loop body appends the comment line of the text between the two newlines: " *" for an empty line, " * " and the line otherwise |
| ToComment.Finish | config/generate/utils/ToComment.ts:88-99 | when no newline follows, the rest of the text from the last newline on, closed as the code closes it, completes exactly `CommentOf(text)` |
| ToComment.CloseComment | config/generate/utils/ToComment.ts:92-99 | the closing append: " *" and the end of the comment for a lone newline, " * ", the rest of the text and the end of the comment otherwise |
| ToComment.NoNewline | config/generate/utils/ToComment.ts:39-47 | text without a newline gives exactly "/**\n * " + text + "\n */" |
| ToComment.CommentOfLines | config/generate/utils/ToComment.ts:50-99 | for lines `first`, `middle`, `last`, the comment lists only the middle lines and then the last line after its newline |
| ToComment.CommentFrame | config/generate/utils/ToComment.ts:44-99 | every comment starts with "/**\n" and ends with " */" |
| ToComment.FirstLineIgnored | config/generate/utils/ToComment.ts:39-59 | with a newline in the text, changing the text before the first newline does not change the comment |
| ToComment.TwoLinesAsWritten | config/generate/utils/ToComment.ts:25-99 | "x\ny" gives "/**\n * \ny\n */": the first line is lost and the second follows a raw newline |
| ToComment.IntendedListsEveryLine | config/generate/utils/ToComment.ts:25-33 | the comment the documentation describes lists every line of the text, in order, as " * line" |
| ToComment.IntendedTwoLines | config/generate/utils/ToComment.ts:25-33 | two lines of text give the comment opening, one comment line for each of them, first line included, and the closing |
| ToComment.IntendedDocumentedExample | config/generate/utils/ToComment.ts:25-33 | the documented example: "First Line\nSecond Line" gives "/**\n * First Line\n * Second Line\n */" |
| ToComment.IntendedAgreesOnOneLine | config/generate/utils/ToComment.ts:39-47 | on one non-empty line the documented comment is what the code builds |
| CamelCaseToSnakeCase.Pieces | config/generate/utils/CamelCaseToSnakeCase.ts:41 | the words `split(/(?=[A-Z])/)` gives: at least one, the first starting with the first character |
| CamelCaseToSnakeCase.FallbackUnreachable | config/generate/utils/CamelCaseToSnakeCase.ts:44-52 | the `if (words)` test always passes, so the result is always the words joined with "_" and the fallback return is dead |
| CamelCaseToSnakeCase.PiecesConcat | config/generate/utils/CamelCaseToSnakeCase.ts:41 | the words, put back together, are the input |
| CamelCaseToSnakeCase.PiecesCapitals | config/generate/utils/CamelCaseToSnakeCase.ts:41 | every word is non-empty, every word after the first starts with a capital, and no word has a capital after its first letter |
| CamelCaseToSnakeCase.PiecesJoin | config/generate/utils/CamelCaseToSnakeCase.ts:41-46 | joining the words with "_" inserts "_" before each later capital, character by character |
| CamelCaseToSnakeCase.InsertsUnderscores | config/generate/utils/CamelCaseToSnakeCase.ts:39-53 | the result is the input with "_" inserted before every A-Z at index 1 or later and nothing else changed |
| CamelCaseToSnakeCase.UnderscoreCapitalsLength | config/generate/utils/CamelCaseToSnakeCase.ts:41-46 | inserting underscores lengthens a text by its number of capitals |
| CamelCaseToSnakeCase.SnakeLength | config/generate/utils/CamelCaseToSnakeCase.ts:41-46 | "" stays ""; otherwise the output is longer than the input by the number of capitals after index 0 |
| CamelCaseToSnakeCase.NoCapitalsUnchanged | config/generate/utils/CamelCaseToSnakeCase.ts:41-46 | a text without capitals gets no underscores |
| CamelCaseToSnakeCase.NoLaterCapitalUnchanged | config/generate/utils/CamelCaseToSnakeCase.ts:39-53 | an input with no capital after index 0 is returned unchanged; a leading capital gets no underscore |
| CamelCaseToSnakeCase.SnakeUnchanged | config/generate/utils/CamelCaseToSnakeCase.ts:41-46 | the reference insertion leaves such an input unchanged |
| CamelCaseToSnakeCase.RemoveUnderscoresInverse | config/generate/utils/CamelCaseToSnakeCase.ts:41-46 | removing the inserted underscores undoes the insertion |
| CamelCaseToSnakeCase.SnakeRoundTrip | config/generate/utils/CamelCaseToSnakeCase.ts:29-46 | deleting the inserted underscores gives the input back, so no letter changes case |
| HasNPMPackage.FieldName | config/generate/utils/HasNPMPackage.ts:52 | the three dependency fields a package can be listed under |
| HasNPMPackage.ObjectHasNPMPackage | config/generate/utils/HasNPMPackage.ts:50-72 | false unless the field has typeof "object"; a null field passes that test and then throws a TypeError; for an object field, true exactly when the package's own entry is truthy or, with no own entry, when the name is inherited from `Object.prototype` ("constructor", "toString", ...) |
| HasNPMPackage.ArrayFieldLists | config/generate/utils/HasNPMPackage.ts:56-68 | an array-valued field (typeof "object" too) gives true exactly for a non-empty array's "length", the names arrays inherit, and an index whose element is truthy |
| HasNPMPackage.InheritedNameIsDevDependency | config/generate/utils/HasNPMPackage.ts:64-108 | with devDependencies an object lacking the name, an inherited name such as "constructor" is reported as "devDependencies" |
| Json.Member | config/generate/utils/HasNPMPackage.ts:64 | `dependencies[packageName]`: an own property first, then the prototype chain (`Object.prototype`, and `Array.prototype` and `length` for arrays), `undefined` otherwise, and a TypeError on null |
| HasNPMPackage.GetNPMPackageDependencyType | config/generate/utils/HasNPMPackage.ts:101-121 | devDependencies, then peerDependencies, then dependencies: the first whose field check is true is returned (inherited names included, as `objectHasNPMPackage` reads them), "none" when all three are false, and an error from a field checked earlier propagates |
| HasNPMPackage.EmptyVersionIsAbsent | config/generate/utils/HasNPMPackage.ts:64-71 | an empty version string counts as absent |
| HasNPMPackage.NoneIffUnlisted | config/generate/utils/HasNPMPackage.ts:119-120 | "none" is returned exactly when no field lists the package |
| HasNPMPackage.NullDevDependenciesThrows | config/generate/utils/HasNPMPackage.ts:59-109 | a null devDependencies throws even when another field lists the package |
| GenerateSchemaInterfaces.CreateIdToImportPath | config/generate/json-schema/bin/GenerateSchemaInterfaces.ts:91-128 | the loop over the schema files builds exactly the map of all entries: a non-string `$id` is skipped, a repeated id is remapped |
| GenerateSchemaInterfaces.IdToImportPathStep | config/generate/json-schema/bin/GenerateSchemaInterfaces.ts:98-125 | one more entry adds its string id, if any, and keeps every other key |
| GenerateSchemaInterfaces.RecordCases | config/generate/json-schema/bin/GenerateSchemaInterfaces.ts:100-124 | one iteration: a non-string id leaves the map as it is, a string id is set to the entry's import path |
| GenerateSchemaInterfaces.IdToImportPathKeys | config/generate/json-schema/bin/GenerateSchemaInterfaces.ts:98-125 | an id is a key exactly when some schema carries it as a string `$id` |
| GenerateSchemaInterfaces.IdToImportPathLastWins | config/generate/json-schema/bin/GenerateSchemaInterfaces.ts:124 | a key maps to the import path of the last schema carrying it |
| GenerateSchemaInterfaces.LaterDuplicateOverwrites | config/generate/json-schema/bin/GenerateSchemaInterfaces.ts:124 | two schemas with one id raise nothing: the later path replaces the earlier under a single key |
| GenerateSchemaInterfaces.CustomName | config/generate/json-schema/bin/GenerateSchemaInterfaces.ts:184-217 | a truthy key name wins and nothing is imported; otherwise a truthy title with a non-empty module path asks the factory for exactly one alias; otherwise no name and no request |
| GenerateSchemaInterfaces.CreateInterfaceCode | config/generate/json-schema/bin/GenerateSchemaInterfaces.ts:143-289 | an invalid title fails first with its error; then the result fails exactly when `$id` is not a string, with a TypeError; otherwise it is the assembled module of the compiled interface |
| GenerateSchemaInterfaces.Run | config/generate/json-schema/bin/GenerateSchemaInterfaces.ts:380-421 | a duplicate id in the index throws before anything is written; otherwise every schema is processed in iteration order, the written modules are kept and the first error is the one reported |
| GenerateSchemaInterfaces.ProcessAll | config/generate/json-schema/bin/GenerateSchemaInterfaces.ts:398-416 | the loop keeps each module a call writes, in order, and reports the first error |
| GenerateSchemaInterfaces.ImportPathRebased | config/generate/json-schema/bin/GenerateSchemaInterfaces.ts:111-121 | rebasing under "" hands the transforms the path relative to "src" |
| GenerateSchemaInterfaces.DroppedExtensionOfName | config/generate/json-schema/bin/GenerateSchemaInterfaces.ts:117-119 | dropping the extension of "stem.ext" leaves "stem" |
| GenerateSchemaInterfaces.DroppedExtensionInFolder | config/generate/json-schema/bin/GenerateSchemaInterfaces.ts:117-119 | dropping the extension of "sub/stem.ext" leaves "sub/stem" |
| GenerateSchemaInterfaces.ImportPathOfSchemaFile | config/generate/json-schema/bin/GenerateSchemaInterfaces.ts:108-121 | the schema "src/sub/stem.ext" is imported as "sub/stem", or "stem" directly below "src": rebased under "" with the whole extension removed |
| GenerateSchemaInterfaces.OutputPathOfSchemaFile | config/generate/json-schema/bin/GenerateSchemaInterfaces.ts:301-316 | the interface of "src/sub/stem.ext" is written to "src/sub/stem.ts": same folder and base name, extension "ts" |
| GenerateSchemaInterfaces.AssembleLayout | config/generate/json-schema/bin/GenerateSchemaInterfaces.ts:271-286 | the module is the full header and a line break, then the import code and a line break only when there is import code, then a line break and the interface |
| GenerateSchemaInterfaces.ProcessAlwaysWrites | config/generate/json-schema/bin/GenerateSchemaInterfaces.ts:368-376 | the early return for empty code never happens: a successful schema always writes its module to its output path |
| GenerateSchemaInterfaces.NoErrorIff | config/generate/json-schema/bin/GenerateSchemaInterfaces.ts:398-416 | no error is reported exactly when every call succeeds |
| GenerateSchemaInterfaces.ProcessSucceedsIff | config/generate/json-schema/bin/GenerateSchemaInterfaces.ts:149-264 | a schema is processed without error exactly when its title is valid and its `$id` is a string |
| GenerateSchemaInterfaces.ModulesWhenNoError | config/generate/json-schema/bin/GenerateSchemaInterfaces.ts:398-416 | with no error, one module per schema is written, in iteration order, each at its schema's output path |
| GenerateValidators.OutputPath | config/generate/json-schema/bin/GenerateValidators.ts:260-321 | the output path fails exactly when the schema's title gives no type name, with that error |
| GenerateValidators.CreateAjvDependantSchemasString | config/generate/json-schema/bin/GenerateValidators.ts:151-162 | the text starts with the fixed sentence about "ajv-formats" |
| GenerateValidators.AjvFormatWarning | config/generate/json-schema/bin/GenerateValidators.ts:193-228 | nothing is looked up or logged without dependants; otherwise a lookup failure is the failure, a warning is logged exactly for "none" and "devDependencies", and it starts with the dependants text and a blank line |
| GenerateValidators.ValidatorScript.constructor | config/generate/json-schema/bin/GenerateValidators.ts:71 | the script starts with no recorded dependants |
| GenerateValidators.ValidatorScript.WriteValidator | config/generate/json-schema/bin/GenerateValidators.ts:334-364 | returns the validator file (or the error) and appends the schema's id exactly when the code loads "ajv-formats" |
| GenerateValidators.ValidatorScript.WriteBoth | config/generate/json-schema/bin/GenerateValidators.ts:414-428 | one iteration: both files built and only the validator call records an id |
| GenerateValidators.ValidatorScript.WriteAll | config/generate/json-schema/bin/GenerateValidators.ts:412-431 | the loop records every entry's dependants in order, collects the files pairwise and reports the first rejection |
| GenerateValidators.ValidatorScript.Run | config/generate/json-schema/bin/GenerateValidators.ts:394-440 | a rejected call is the outcome and no warning is computed; otherwise the outcome is the warning for all recorded dependants |
| GenerateValidators.BuildsOf | config/generate/json-schema/bin/GenerateValidators.ts:414-426 | the calls of a run are the two builders applied to each entry |
| GenerateValidators.UsesAjvFormatsIff | config/generate/json-schema/bin/GenerateValidators.ts:171-180 | a validator needs "ajv-formats" exactly when the `require` text occurs at some position of its code |
| GenerateValidators.DependantsListed | config/generate/json-schema/bin/GenerateValidators.ts:151-162 | after the fixed sentence, splitting the text at line breaks gives back the recorded ids in order |
| GenerateValidators.DependantsIff | config/generate/json-schema/bin/GenerateValidators.ts:349-360 | an id is recorded exactly when some entry's validator records it |
| GenerateValidators.RecordedIff | config/generate/json-schema/bin/GenerateValidators.ts:349-360 | a schema records its id exactly when the `$id` is that string, its validator was built and the code loads "ajv-formats" |
| GenerateValidators.NoErrorIff | config/generate/json-schema/bin/GenerateValidators.ts:427-432 | the run ends without an error exactly when every call for every schema succeeds |
| GenerateValidators.FilesCount | config/generate/json-schema/bin/GenerateValidators.ts:427-432 | without an error, two files are written per schema |
| GenerateValidators.ExtensionSuffixes | config/generate/json-schema/bin/GenerateValidators.ts:278-316 | the extensions "cjs" and "d.ts" become ".cjs" and ".d.ts" |
| GenerateValidators.OutputPathsPair | config/generate/json-schema/bin/GenerateValidators.ts:260-321 | the two output paths fail together, and succeed as the same base with ".cjs" and ".d.ts" |
| GenerateValidators.OutputPathParts | config/generate/json-schema/bin/GenerateValidators.ts:268-282 | a file below "src" keeps its folder, takes "Validate" + type name as base name and the given extension after one dot |
| GenerateValidators.ValidatorPath | config/generate/json-schema/bin/GenerateValidators.ts:260-285 | the validator of "src/sub/stem.ext" titled T is "src/sub/ValidateT.cjs" |
| GenerateValidators.DefinitionPath | config/generate/json-schema/bin/GenerateValidators.ts:296-321 | the declaration of "src/sub/stem.ext" titled T is "src/sub/ValidateT.d.ts" |
| GenerateValidator.ValidatorMapping | config/generate/json-schema/validators/GenerateValidator.ts:60-72 | `standaloneCode` is given the single export "validate" + type name, bound to the schema id, and nothing else |
| GenerateValidator.GenerateValidator | config/generate/json-schema/validators/GenerateValidator.ts:39-93 | a non-string `$id` throws a TypeError before the title is read; then it fails exactly when the title gives no type name, with that error; otherwise it is the laid-out module of the standalone code for that one export |
| GenerateValidator.LayoutFrame | config/generate/json-schema/validators/GenerateValidator.ts:76-90 | the file starts with the two check-disabling lines, holds the header between line breaks and ends with the module source unchanged |
| GenerateValidator.OneExportRequested | config/generate/json-schema/validators/GenerateValidator.ts:45-92 | a string id and a valid title give exactly the module for the export "validate" + type name bound to that id |
| GenerateValidator.ValidatorFrame | config/generate/json-schema/validators/GenerateValidator.ts:63-92 | a successful result starts with the check-disabling lines and ends with what `standaloneCode` returned for the schema's id |
| GenerateValidatorDefinition.GenerateDefinitionWith | config/generate/json-schema/validators/GenerateValidatorDefinition.ts:271-302 | fails exactly when the title gives no type name, with that error; otherwise it is the declaration file for that type name |
| GenerateValidatorDefinition.SameTitleSameDefinition | config/generate/json-schema/validators/GenerateValidatorDefinition.ts:271-302 | only the title is read: two schemas with the same title get the same file |
| GenerateValidatorDefinition.ValidateFunctionSections | config/generate/json-schema/validators/GenerateValidatorDefinition.ts:169-263 | the validator text holds the declaration of the validator as a constant and ends with its `errors` property and the closing brace |
| GenerateValidatorDefinition.DefinitionSections | config/generate/json-schema/validators/GenerateValidatorDefinition.ts:290-299 | the file starts with the header and the aliased type import, holds the import of the interface and the declaration of "validate" + type name, and ends with the `errors` property, the closing brace and a newline |
| GenerateIDMapping.RequestsFor | config/generate/json-schema/GenerateIDMapping.ts:139-147 | one request per path, the `k`-th for the `k`-th path |
| GenerateIDMapping.CreateSchemaImportMapping | config/generate/json-schema/GenerateIDMapping.ts:98-154 | an index error propagates before any import is requested; otherwise the factory's requests and the result are those of the loop over the indexed paths, which stops at the first path the input map does not hold |
| GenerateIDMapping.CreatePropertyCode | config/generate/json-schema/GenerateIDMapping.ts:164-212 | the array filled slot by slot gives the properties of all pairs in order, joined by a blank line |
| GenerateIDMapping.Run | config/generate/json-schema/GenerateIDMapping.ts:215-268 | a mapping error is logged and nothing is written; otherwise the file "./src/internal/IDToJSONSchema.ts" is written with the header, the factory's import code for the output module and the joined properties |
| GenerateIDMapping.LoopNoErrorIff | config/generate/json-schema/GenerateIDMapping.ts:114-124 | the loop ends without error exactly when every indexed path is found in the input map |
| GenerateIDMapping.LoopErrorPersists | config/generate/json-schema/GenerateIDMapping.ts:120-124 | once the loop has thrown, later paths change nothing |
| GenerateIDMapping.LoopStopsAtMissing | config/generate/json-schema/GenerateIDMapping.ts:114-124 | the first missing path throws "Could not locate schema at path" for that path, after importing only the paths before it |
| GenerateIDMapping.LoopRequests | config/generate/json-schema/GenerateIDMapping.ts:114-151 | without a missing path, one import is requested per path, in order, and one pair kept per path |
| GenerateIDMapping.LoopPairs | config/generate/json-schema/GenerateIDMapping.ts:139-150 | the `k`-th pair is the `k`-th path's schema with the alias the factory chose after the requests before it |
| GenerateIDMapping.IndexedPathsLocated | config/generate/json-schema/GenerateIDMapping.ts:105-124 | every path the id index yields is a key of the input map, so the "Could not locate" error cannot happen |
| GenerateIDMapping.IndexedSchemasHaveIds | config/generate/json-schema/GenerateIDMapping.ts:105-117 | the schema at every indexed path has the id it was indexed under |
| GenerateIDMapping.MappingHasStringIds | config/generate/json-schema/GenerateIDMapping.ts:176-188 | on success every pair's schema has a string `$id`, so the property code can quote it |
| GenerateIDMapping.MappingPairs | config/generate/json-schema/GenerateIDMapping.ts:98-154 | on a valid index the mapping succeeds with one pair per indexed path, in index order, each holding the schema read from that path |
| GenerateIDMapping.MappingRequests | config/generate/json-schema/GenerateIDMapping.ts:127-147 | the fresh factory is asked for one import per indexed path, in index order |
| GenerateIDMapping.ImportPathOfSchemaFile | config/generate/json-schema/GenerateIDMapping.ts:127-131 | a schema file below "src" is imported from its path relative to "src", extension kept |
| GenerateIDMapping.VarNameOfSchemaFile | config/generate/json-schema/GenerateIDMapping.ts:136 | the constant of "dir/Name.schema.json" is called "Name" |
| GenerateIDMapping.BlockKey | config/generate/json-schema/GenerateIDMapping.ts:188-205 | a property ends with the id quoted as JSON, ": ", the alias and the cast |
| GenerateIDMapping.MissingDescriptionWritesUndefined | config/generate/json-schema/GenerateIDMapping.ts:182-201 | a schema without a description gets the text "undefined" in its doc comment |
| GenerateIDMapping.TwoBlocksJoined | config/generate/json-schema/GenerateIDMapping.ts:209 | two properties are separated by exactly one blank line |
| GenerateIDMapping.ModuleLayout | config/generate/json-schema/GenerateIDMapping.ts:235-252 | the file starts with the header and the import code and ends with the constant and a line break |
| CleanGeneratedScriptsBin.Detector | config/generate/bin/CleanGeneratedScripts.ts:60-83 | the detection function accepts exactly the contents that contain the header |
| CleanGeneratedScriptsBin.IsGeneratedScript | config/generate/bin/CleanGeneratedScripts.ts:60-83 | the size test and then the byte search answer exactly whether the header occurs somewhere in the file |
| CleanGeneratedScriptsBin.DeleteGeneratedScripts | config/generate/bin/CleanGeneratedScripts.ts:90-123 | exactly the listed files that contain the header are unlinked; every other file keeps its bytes and no folder changes |
| CleanGeneratedScriptsBin.CollectParents | config/generate/bin/CleanGeneratedScripts.ts:166-177 | the loop builds the folders of the paths in the order the `Set` first meets them |
| CleanGeneratedScriptsBin.ListEmptiness | config/generate/bin/CleanGeneratedScripts.ts:132-189 | each folder is listed, before any is removed, and marked empty exactly when nothing lies in it |
| CleanGeneratedScriptsBin.RemoveEmpty | config/generate/bin/CleanGeneratedScripts.ts:148-192 | exactly the folders marked empty are removed; files stay |
| CleanGeneratedScriptsBin.DeleteEmptyParentFolders | config/generate/bin/CleanGeneratedScripts.ts:166-193 | exactly the folders of the paths that were empty when listed are removed; files stay |
| CleanGeneratedScriptsBin.Run | config/generate/bin/CleanGeneratedScripts.ts:196-239 | every external or internal candidate containing the header is unlinked, nothing else; then exactly the internal candidates' folders left empty are removed |
| CleanGeneratedScriptsBin.ShortNeverGenerated | config/generate/bin/CleanGeneratedScripts.ts:65-67 | a file shorter than the header is never generated |
| CleanGeneratedScriptsBin.CandidatesDistinct | config/generate/bin/CleanGeneratedScripts.ts:198-228 | the external glob ignores the internal one, so the two lists together name each candidate file once |
| CleanGeneratedScriptsBin.InternalFoldersExist | config/generate/bin/CleanGeneratedScripts.ts:213-234 | each internal candidate's folder exists and is not the working directory |
| CleanGeneratedScriptsBin.ParentsMembers | config/generate/bin/CleanGeneratedScripts.ts:168-177 | the set holds exactly the folders of the paths |
| CleanGeneratedScriptsBin.ParentWitness | config/generate/bin/CleanGeneratedScripts.ts:168-177 | each folder in the set is the folder of some path |
| CleanGeneratedScriptsBin.ParentsDistinct | config/generate/bin/CleanGeneratedScripts.ts:168-177 | the set holds no folder twice |
| CleanGeneratedScriptsBin.RemovedBefore | config/generate/bin/CleanGeneratedScripts.ts:183-189 | a folder not yet reached has not been removed |
| CleanGeneratedScriptsBin.RemovedBelow | config/generate/bin/CleanGeneratedScripts.ts:183-189 | no folder before index `k` is the one at index `i` |
| CleanGeneratedScriptsBin.RemovedMembers | config/generate/bin/CleanGeneratedScripts.ts:183-189 | a folder is removed by step `i` exactly when it comes before `i` and was found empty |
| CleanGeneratedScriptsBin.RemovedEmptyParents | config/generate/bin/CleanGeneratedScripts.ts:166-193 | over the whole set, the folders found empty are exactly the empty parents |
| CleanGeneratedScriptsBin.EmptyParentsRemoved | config/generate/bin/CleanGeneratedScripts.ts:148-157 | every empty parent is removed |
| CleanGeneratedScriptsBin.RemovedAreEmptyParents | config/generate/bin/CleanGeneratedScripts.ts:148-157 | every removed folder is an empty parent |
| CleanGeneratedScriptsBin.EntriesOfFewerDirs | config/generate/bin/CleanGeneratedScripts.ts:148-157 | removing folders can only empty a folder, never fill one |
| CleanGeneratedScripts.Detector | config/generate/CleanGeneratedScripts.ts:94-112 | the detection function accepts exactly the contents that start with the header |
| CleanGeneratedScripts.ReadFirstBytes | config/generate/CleanGeneratedScripts.ts:51-85 | the stream over bytes 0 to `length - 1` gives the first `length` bytes, or the whole file when it is shorter |
| CleanGeneratedScripts.IsGeneratedScript | config/generate/CleanGeneratedScripts.ts:94-112 | the size test and then the comparison of the first bytes answer exactly whether the file starts with the header |
| CleanGeneratedScripts.Run | config/generate/CleanGeneratedScripts.ts:130-161 | exactly the listed sources that start with the header are unlinked; every other file keeps its bytes and no folder changes |
| CleanGeneratedScripts.PrefixImpliesSubstring | config/generate/CleanGeneratedScripts.ts:111 | a file the older script deletes, the newer one deletes too |
| CleanGeneratedScripts.SubstringNotPrefix | config/generate/CleanGeneratedScripts.ts:111 | not the other way round: a header after the first byte is generated only for the newer script |
| CleanGeneratedScripts.ShortNeverGenerated | config/generate/CleanGeneratedScripts.ts:99-101 | a file shorter than the header is never generated |
| CleanGeneratedScripts.ModuleScriptsNotSources | config/generate/CleanGeneratedScripts.ts:35 | ".cjs" and ".mjs" files are never candidates of the older script |
| FileSystems.FileSystem.constructor | config/generate/bin/CleanGeneratedScripts.ts:30 | the file system holds the given files and folders |
| FileSystems.FileSystem.Size | config/generate/bin/CleanGeneratedScripts.ts:62 | `stat(p).size` is the file's byte length |
| FileSystems.FileSystem.ReadFile | config/generate/bin/CleanGeneratedScripts.ts:70 | `readFile(p)` returns the file's bytes |
| FileSystems.FileSystem.IsEmptyDir | config/generate/bin/CleanGeneratedScripts.ts:132-153 | a folder counts zero entries exactly when no file or folder lies directly inside it |
| FileSystems.FileSystem.Unlink | config/generate/bin/CleanGeneratedScripts.ts:97 | `unlink(p)` removes that file and nothing else |
| FileSystems.FileSystem.Rmdir | config/generate/bin/CleanGeneratedScripts.ts:155 | `rmdir(d)` of an empty folder removes that folder and nothing else |
| FileSystems.RemoveFileKeepsTree | config/generate/bin/CleanGeneratedScripts.ts:97 | unlinking a file keeps the folders a tree |
| FileSystems.RemoveEmptyDirKeepsTree | config/generate/bin/CleanGeneratedScripts.ts:153-156 | removing a folder keeps the tree a tree exactly when nothing lies inside it |
| FileSystems.CleanedExactly | config/generate/bin/CleanGeneratedScripts.ts:90-99 | cleaning unlinks exactly the listed paths whose contents are generated, and every other file keeps its bytes |
| FileSystems.CleanedIdempotent | config/generate/bin/CleanGeneratedScripts.ts:90-123 | running the cleanup twice over the same paths is the same as running it once |
| FileSystems.CleanedSnoc | config/generate/bin/CleanGeneratedScripts.ts:113-119 | one more path extends the cleaning done for the earlier paths |
| GeneratedHeader.HeaderBufferNonEmpty | config/generate/utils/GeneratedHeader.ts:39-57 | the header's UTF-8 bytes are not empty, so an empty file is never taken for a generated one |
| UpdateExports.CollectFolders | config/UpdateExports.js:77-96 | the loop builds the internal sources' folders, relative to "src", in the order the `Set` first meets them |
| UpdateExports.DeleteBlockedInternals | config/UpdateExports.js:143-181 | the loop over the old keys leaves exactly the pruned object |
| UpdateExports.BlockFolders | config/UpdateExports.js:184-195 | the loop over the sorted folders leaves exactly the blocked object |
| UpdateExports.Updated | config/UpdateExports.js:102-134 | the script fails with the constant-assignment TypeError exactly when `exports` is missing or falsy |
| UpdateExports.Run | config/UpdateExports.js:55-214 | the package after the run is the update over the sorted set of internal folders |
| UpdateExports.PrunedGet | config/UpdateExports.js:146-181 | the first loop deletes exactly the visited keys with an "internal" segment whose value is `null` |
| UpdateExports.PrunedKeys | config/UpdateExports.js:143-181 | the surviving keys keep their order |
| UpdateExports.PrunedKeysFrom | config/UpdateExports.js:146-181 | midway, the kept keys come first and the unvisited keys follow unchanged |
| UpdateExports.PrunedLast | config/UpdateExports.js:146-181 | one more key is deleted exactly when it is internal and `null` |
| UpdateExports.RemoveBetween | config/UpdateExports.js:180 | `delete` keeps the keys before and after in order |
| UpdateExports.IndexOfKeyAt | config/UpdateExports.js:180 | in a list without repeats, the element at `i` is found at `i` |
| UpdateExports.BlockedGet | config/UpdateExports.js:184-195 | the second loop sets each folder key without a truthy value to `null` and changes nothing else |
| UpdateExports.BlockedKeys | config/UpdateExports.js:184-195 | the second loop appends the new folder keys after all existing keys |
| UpdateExports.NewKeysSorted | config/UpdateExports.js:96-195 | the new keys are folder keys and follow the sorted folders' order |
| UpdateExports.LexLessPrefix | config/UpdateExports.js:99-186 | the shared "./" prefix does not change the order of two folders |
| UpdateExports.RewrittenGet | config/UpdateExports.js:143-195 | under any key: internal `null` entries are dropped, folder keys without a truthy value become `null`, the rest is unchanged |
| UpdateExports.RewrittenKeys | config/UpdateExports.js:143-195 | the surviving keys keep their order and the new folder keys follow |
| UpdateExports.FolderKeyInternal | config/UpdateExports.js:63-186 | the folder of an internal source, as an export key, has an "internal" segment |
| UpdateExports.SourceFolderBelowSrc | config/UpdateExports.js:85-89 | relative to "src", a source's folder is the path segments between "src" and the file name |
| UpdateExports.DotSlashInternal | config/UpdateExports.js:140-186 | behind "./", a folder with an "internal" segment still matches the internal pattern |
| UpdateExports.FolderKeysInternal | config/UpdateExports.js:80-93 | every collected folder, as an export key, has an "internal" segment |
| UpdateExports.UntouchedKey | config/UpdateExports.js:148-159 | a key without an "internal" segment is neither deleted nor blocked |
| UpdateExports.NonInternalKeysKept | config/UpdateExports.js:140-195 | after the run, every key without an "internal" segment keeps its value |
| UpdateExports.EveryFolderExported | config/UpdateExports.js:184-195 | after the rewrite, every internal folder has an export key |
| UpdateExports.FalsyFolderKeyBlocked | config/UpdateExports.js:164-189 | a folder key holding a falsy non-`null` value survives the first loop but becomes `null` |
| UpdateExports.FolderSetMembers | config/UpdateExports.js:77-96 | the set holds exactly the folders of the internal sources |
| UpdateExports.FolderSetDistinct | config/UpdateExports.js:77-96 | the set holds no folder twice |
| UpdateExports.MissingExportsThrows | config/UpdateExports.js:102-107 | as written, a package without `exports` fails with the TypeError of assigning to a constant |
| UpdateExports.IntendedUpdated | config/UpdateExports.js:105-134 | corrected: with a truthy `exports` it is the update as written; it fails only when `exports` is a string, number or boolean |
| UpdateExports.IntendedInstallsDefaults | config/UpdateExports.js:105-134 | corrected: a package without `exports` keeps its other fields, gets the two default entries and exports every internal folder |
| ResetExports.DistTargets | config/ResetExports.js:65-80 | the wildcard's target names the declaration, CommonJS and ES module builds in "dist", in that key order |
| ResetExports.DefaultExports | config/ResetExports.js:58-81 | the default exports are "./package.json" and then "./*", with their fixed targets |
| ResetExports.Reset | config/ResetExports.js:55-81 | `exports` becomes the default object; every other field keeps its value and the key order is kept, a new `exports` going last |
| ResetExports.ResetExportKeys | config/ResetExports.js:58-81 | afterwards `exports` has exactly the two default keys |
| ResetExports.ResetIdempotent | config/ResetExports.js:55-81 | resetting a reset package changes nothing |
| ResetExports.ResetForgetsExports | config/ResetExports.js:58 | the result does not depend on the old `exports` value |
| Strings.LexLessTotal | config/UpdateExports.js:99 | the default sort order is total: two different strings always compare one way or the other, because different strings have different UTF-16 code units |
| Strings.AstralSortsBeforeHalfwidth | config/UpdateExports.js:99 | `sort()` compares UTF-16 code units, not code points: U+1F600, stored as a surrogate pair from 0xD83D, sorts before U+FF61 even though its code point is larger |
| TypeDocHost.Shape | config/TypeDocTagInternal.js:99-102 | the child lists of the arena, one per reflection, each what `stack.push(...children)` pushes |
| TypeDocHost.ReachBound | config/TypeDocTagInternal.js:91-103 | what the walk reaches does not depend on the bound that guards its termination |
| TypeDocHost.ReachAppend | config/TypeDocTagInternal.js:91-103 | walking from two stacks one after the other reaches the union and visits the sum |
| TypeDocHost.DescendantsStep | config/TypeDocTagInternal.js:93-102 | a reflection's descendants are itself and its children's descendants, and visiting it costs one more visit than its children |
| TypeDocHost.Without | config/TypeDocTagInternal.js:219-222 | `off` drops one registration of the listener, if there is one, and keeps the others |
| TypeDocHost.Converter.constructor | config/TypeDocTagInternal.js:190 | a new converter has no listeners |
| TypeDocHost.Converter.On | config/TypeDocTagInternal.js:193-196 | `on` appends the listener after the others |
| TypeDocHost.Converter.Off | config/TypeDocTagInternal.js:219-222 | `off` drops the first registration of the listener |
| TypeDocHost.Application.constructor | config/TypeDocTagInternal.js:179-190 | a new application has a new converter with no listeners |
| TypeDocHost.OnThenOff | config/TypeDocTagInternal.js:193-222 | registering and then unregistering a listener that was not there leaves the registry as it was |
| TypeDocHost.Project.constructor | config/TypeDocTagInternal.js:234 | the project holds the given reflections |
| TypeDocTagInternal.Mark | config/TypeDocTagInternal.js:47-78 | the reflection afterwards has a comment carrying "@internal" next to its old modifier tags; an existing comment keeps its summary and block tags, a missing one becomes empty; nothing else changes |
| TypeDocTagInternal.MarkAt | config/TypeDocTagInternal.js:84-104 | exactly the reflections of the set are marked |
| TypeDocTagInternal.MarkInternal | config/TypeDocTagInternal.js:47-78 | only the given reflection changes, to its marked form |
| TypeDocTagInternal.MarkAllChildrenInternal | config/TypeDocTagInternal.js:84-104 | the stack loop marks exactly the root and all its descendants and changes nothing else |
| TypeDocTagInternal.LastSlash | config/TypeDocTagInternal.js:135 | the position found is the last "/" in the range, or there is none |
| TypeDocTagInternal.GetFolder | config/TypeDocTagInternal.js:115-158 | the search loop gives the folder of the first source below "src", "" or the module name without sources, or the error |
| TypeDocTagInternal.TagInternalPlugin.constructor | config/TypeDocTagInternal.js:163-170 | a new plugin is not bound |
| TypeDocTagInternal.TagInternalPlugin.Bind | config/TypeDocTagInternal.js:179-197 | a bound plugin throws "Plugin is already bound." and changes nothing; otherwise it remembers the application and appends its handler |
| TypeDocTagInternal.TagInternalPlugin.Unbind | config/TypeDocTagInternal.js:202-223 | afterwards the plugin is unbound, and a bound plugin's handler is dropped from its converter |
| TypeDocTagInternal.TagInternalPlugin.OnCreateDeclaration | config/TypeDocTagInternal.js:234-246 | the folder's error propagates and changes nothing; otherwise the declaration is marked exactly when its folder has an "internal" segment |
| TypeDocTagInternal.Load | config/TypeDocTagInternal.js:253-259 | a new plugin bound to the application, its handler the converter's last listener |
| TypeDocTagInternal.MarkIdempotent | config/TypeDocTagInternal.js:58-66 | marking twice is marking once, the tags being a set |
| TypeDocTagInternal.MarkAtStep | config/TypeDocTagInternal.js:96 | marking one more reflection of a partly marked arena marks one more id |
| TypeDocTagInternal.ShapeMarkAt | config/TypeDocTagInternal.js:96-102 | marking leaves every reflection's children alone, so the walk sees the original tree |
| TypeDocTagInternal.WalkStep | config/TypeDocTagInternal.js:91-103 | one pass keeps "marked so far plus reachable from the stack is exactly the descendants" and shortens the remaining walk |
| TypeDocTagInternal.MatchFolderSkip | config/TypeDocTagInternal.js:135-140 | positions where "/src/" cannot start do not change the match |
| TypeDocTagInternal.MatchAfterPrefix | config/TypeDocTagInternal.js:135-145 | where "/src/" first occurs, the match captures the group of the text after it |
| TypeDocTagInternal.FolderBetweenSrcAndFile | config/TypeDocTagInternal.js:135-145 | ".../src/A/B/F.ts" gives the folder "A/B" |
| TypeDocTagInternal.LastSlashIs | config/TypeDocTagInternal.js:135 | the last "/" is the one after which none follows |
| TypeDocTagInternal.FileDirectlyInSrc | config/TypeDocTagInternal.js:135-147 | a file directly inside "src" belongs to the folder "" |
| TypeDocTagInternal.FolderOfFails | config/TypeDocTagInternal.js:115-158 | `#getFolder` throws exactly when there are source files and none lies below "src" |
| TypeDocTagInternal.FirstFolderNone | config/TypeDocTagInternal.js:138-150 | no folder is found exactly when no source file matches |
| TypeDocTagInternal.BindUnbindBind | config/TypeDocTagInternal.js:179-223 | bind succeeds, a second bind throws, and after unbind a third bind succeeds with one registration in place |
| TagInternal.IsInInternalFolder | config/doc/plugin/TagInternal.js:101-125 | the search answers exactly whether some source file has an "internal" segment; no sources means not internal |
| TagInternal.TagInternalPlugin.constructor | config/doc/plugin/TagInternal.js:130-137 | a new plugin is not bound |
| TagInternal.TagInternalPlugin.Bind | config/doc/plugin/TagInternal.js:146-164 | a bound plugin throws "Plugin is already bound." and changes nothing; otherwise it remembers the application and appends its handler |
| TagInternal.TagInternalPlugin.Unbind | config/doc/plugin/TagInternal.js:169-190 | afterwards the plugin is unbound, and a bound plugin's handler is dropped from its converter |
| TagInternal.TagInternalPlugin.OnCreateDeclaration | config/doc/plugin/TagInternal.js:201-210 | the declaration is marked exactly when it is in an internal folder; nothing else changes |
| TagInternal.Load | config/doc/plugin/TagInternal.js:217-223 | a new plugin bound to the application, its handler the converter's last listener |
| TypeDocRootModule.RootedName | config/TypeDocRootModule.js:125-139 | "index" becomes "." and any other name `n` becomes "./" + `n` |
| TypeDocRootModule.Renamed | config/TypeDocRootModule.js:121-144 | modules are renamed and every other declaration is left as it is |
| TypeDocRootModule.RootModulePlugin.constructor | config/TypeDocRootModule.js:52-59 | a new plugin is not bound |
| TypeDocRootModule.RootModulePlugin.Bind | config/TypeDocRootModule.js:68-86 | a bound plugin throws "Plugin is already bound." and changes nothing; otherwise it remembers the application and appends its handler |
| TypeDocRootModule.RootModulePlugin.Unbind | config/TypeDocRootModule.js:91-112 | afterwards the plugin is unbound, and a bound plugin's handler is dropped from its converter |
| TypeDocRootModule.RootModulePlugin.OnCreateDeclaration | config/TypeDocRootModule.js:121-144 | only the given declaration changes, to its renamed form |
| TypeDocRootModule.Load | config/TypeDocRootModule.js:152-158 | a new plugin bound to the application, its handler the converter's last listener |
| TypeDocRootModule.RootedNameUnderRoot | config/TypeDocRootModule.js:125-139 | every new name is the root or lies directly below it, keeping the old name |
| TypeDocRootModule.RootedNameInjective | config/TypeDocRootModule.js:125-139 | distinct modules keep distinct names |
| TypeDocRootModule.RenamingTwiceNests | config/TypeDocRootModule.js:131-133 | the renaming is not idempotent: a second pass nests the name one level deeper |
| BuildRollupConfig.Store | config/build/rollup.config.mjs:106 | `input[key] = value` sets the key (in place, or last when new) unless it is an unowned "__proto__", and leaves every other key alone |
| BuildRollupConfig.WarningOf | config/build/rollup.config.mjs:96-103 | a warning is given exactly when the key reads as truthy (an owned non-empty value or an inherited member), naming what it read and the new value |
| BuildRollupConfig.EntryMap.constructor | config/build/rollup.config.mjs:146-148 | a new entry object is empty |
| BuildRollupConfig.EntryMap.Copy | config/build/rollup.config.mjs:193-195 | the spread copy holds the same own entries in the same order |
| BuildRollupConfig.EntryMap.SetEntryValue | config/build/rollup.config.mjs:94-107 | the call warns as `WarningOf` says, judged before the store, and then stores |
| BuildRollupConfig.FoldStep | config/build/rollup.config.mjs:152-178 | one more call extends the run by one store and at most one warning |
| BuildRollupConfig.StoreLastWins | config/build/rollup.config.mjs:106 | storing twice under one key is storing the second value |
| BuildRollupConfig.SecondWriteWarns | config/build/rollup.config.mjs:96-103 | replacing a non-empty value warns, naming the value replaced |
| BuildRollupConfig.FoldSettable | config/build/rollup.config.mjs:106 | whether a key can be stored does not change along a run |
| BuildRollupConfig.FoldGet | config/build/rollup.config.mjs:152-178 | after a run, a storable key holds the value of its last pair and any other key is as before |
| BuildRollupConfig.LastOfSome | config/build/rollup.config.mjs:152-178 | a last value exists exactly when some pair has the key, and it is one of the pairs |
| BuildRollupConfig.LastOfAt | config/build/rollup.config.mjs:152-178 | the last pair with the key gives the value |
| BuildRollupConfig.EntriesLastOf | config/build/rollup.config.mjs:203 | iterating an object's entries and keeping the last value per key gives the object back |
| BuildRollupConfig.DistinctKeysNoWarnings | config/build/rollup.config.mjs:96-103 | a run of distinct keys that all read as falsy beforehand warns nowhere |
| BuildRollupConfig.WarningsPrefix | config/build/rollup.config.mjs:96-103 | a run warns at least as often as any prefix of it |
| BuildRollupConfig.Pairs | config/build/rollup.config.mjs:152-178 | one (entry name, absolute path) pair per source file, in glob order |
| BuildRollupConfig.LoadInputs | config/build/rollup.config.mjs:120-181 | the loop over the glob's files leaves exactly the run of their pairs from `{}`, with its warnings |
| BuildRollupConfig.LoadedGet | config/build/rollup.config.mjs:146-178 | every entry name except "__proto__" is a key holding the path of the last file so named, and nothing else is a key |
| BuildRollupConfig.LoadedFromSources | config/build/rollup.config.mjs:152-178 | each value is the absolute path of a source file whose entry name is its key |
| BuildRollupConfig.LoadedNamesEverySource | config/build/rollup.config.mjs:152-178 | every source file's entry name is a key, unless it is "__proto__" |
| BuildRollupConfig.WarnsAt | config/build/rollup.config.mjs:96-103 | a run warns when one of its keys reads as truthy at the moment it is stored |
| BuildRollupConfig.StoredTruthy | config/build/rollup.config.mjs:96-106 | a key stored with a non-empty value reads as truthy afterwards |
| BuildRollupConfig.RepeatedKeyWarns | config/build/rollup.config.mjs:94-107 | a key stored again after a non-empty value keeps the later value and the run warns |
| BuildRollupConfig.LoadedCollision | config/build/rollup.config.mjs:152-178 | two source files with one entry name: the later one's path is the value and a warning is given |
| BuildRollupConfig.LastDot | config/build/rollup.config.mjs:162 | the last dot of a name ending in "." and a dot-free extension starts that extension |
| BuildRollupConfig.SplitLast | config/build/rollup.config.mjs:122-133 | a file the glob finds is its folder below "src", a separator and a name with one of the extensions |
| BuildRollupConfig.ExtnameOfChild | config/build/rollup.config.mjs:162 | `extname` of such a file is the dot and its extension |
| BuildRollupConfig.StemPath | config/build/rollup.config.mjs:157-164 | the folder and the stem form "src/" and a normal relative path |
| BuildRollupConfig.StemBelowSrc | config/build/rollup.config.mjs:157-164 | cutting the extension leaves "src/" and a normal path, the extension being one the glob asked for |
| BuildRollupConfig.EntryNameBelowSrc | config/build/rollup.config.mjs:157-164 | the entry name is the path below "src" without the last extension: "src/folder/A.schema.ts" is named "folder/A.schema" |
| BuildRollupConfig.BuildExtensionsDotFree | config/build/rollup.config.mjs:122 | the glob's extensions contain no dot |
| BuildRollupConfig.BuildEntryName | config/build/rollup.config.mjs:122-164 | every file the build's glob finds is named by its path below "src" without the extension |
| BuildRollupConfig.LoadSourceInputs | config/build/rollup.config.mjs:223 | `loadInputs("src")` is the load of the glob's files, each named by its path below "src" without the extension |
| BuildRollupConfig.MergeInputs | config/build/rollup.config.mjs:190-220 | a new object holding the first input's copy with every later entry stored in order, the warnings in order, and no input changed |
| BuildRollupConfig.MergeEntries | config/build/rollup.config.mjs:203-216 | the inner loop stores the next input's entries in order and warns as `setEntryValue` does |
| BuildRollupConfig.MergeStep | config/build/rollup.config.mjs:198-217 | one more outer iteration stores one more input's entries |
| BuildRollupConfig.MergeWarningsStep | config/build/rollup.config.mjs:198-217 | one more outer iteration appends that input's warnings |
| BuildRollupConfig.MergedGet | config/build/rollup.config.mjs:190-220 | a merged key holds the value of the last input owning it; "__proto__" is a key only when the first input owns it |
| BuildRollupConfig.LastGetSome | config/build/rollup.config.mjs:198-217 | a last value exists exactly when some input owns the key |
| BuildRollupConfig.LastGetAt | config/build/rollup.config.mjs:198-217 | the last input owning the key gives its value |
| BuildRollupConfig.MergedKeepsKeys | config/build/rollup.config.mjs:190-220 | a key of any input is a key of the merge, "__proto__" only from the first input |
| BuildRollupConfig.MergedAddsNoKeys | config/build/rollup.config.mjs:190-220 | every key of the merge is a key of some input |
| BuildRollupConfig.MergedLastWins | config/build/rollup.config.mjs:215 | each merged value comes from the last input having the key |
| RollupConfig.GlobMatchesList | config/rollup/rollup.config.mjs:51-73 | the glob's alternatives and the extension list agree, place by place, up to the leading dot |
| RollupConfig.ImportedExtensions | config/rollup/rollup.config.mjs:76-84 | the imported extensions are the eight script extensions and then ".json", ".csv", ".tsv", none twice |
| RollupConfig.AlternativesDotFree | config/rollup/rollup.config.mjs:73 | the glob's alternatives contain no dot |
| RollupConfig.RollupEntryName | config/rollup/rollup.config.mjs:175-225 | every file the glob finds has a supported extension and is named by its path below "src" without it |
| RollupConfig.LoadSourceInputs | config/rollup/rollup.config.mjs:173-245 | `loadInputs("src")` is the load of the glob's files, with `setEntryValue` as in the build configuration, each named by its path below "src" without the extension |
| RollupConfig.FilePathInjective | config/rollup/rollup.config.mjs:230-235 | two source files have one absolute path only when they are the same file |
| RollupConfig.ExcludedNeverEntries | config/rollup/rollup.config.mjs:181-194 | internal scripts, tests and declaration files are never the value of an entry |
| RollupConfig.OnWarn | config/rollup/rollup.config.mjs:294-310 | a warning is dropped exactly when its code is "EMPTY_BUNDLE"; any other reaches the default handler unchanged |
| RollupConfig.ForwardedMembers | config/rollup/rollup.config.mjs:294-310 | the default handler sees exactly the warnings that are not about empty bundles |
| RollupConfig.ForwardedAppend | config/rollup/rollup.config.mjs:294-310 | filtering keeps order across stretches of a build |
| RollupConfig.ForwardedUnchanged | config/rollup/rollup.config.mjs:294-310 | a build without empty-bundle warnings forwards every warning as it came |
| Vector4.Vector4.constructor | src/math/linear-algebra/Vector4.ts:53-56 | a new backing array of four numbers holding x, y, z and w in that order |
| Vector4.Vector4.FromZero | src/math/linear-algebra/Vector4.ts:34-36 | a new vector whose four coordinates are all 0 |
| Vector4.Vector4.ToArray | src/math/linear-algebra/Vector4.ts:63-65 | a new array, not the backing one, with the same four numbers |
| Vector4.Vector4.Set | src/math/linear-algebra/Vector4.ts:87-90 | the coordinate at the index takes the value and the other three keep theirs |
| Vector4.Vector4.X | src/math/linear-algebra/Vector4.ts:96-98 | the getter `x` reads what `get(0)` reads |
| Vector4.Vector4.Y | src/math/linear-algebra/Vector4.ts:112-114 | the getter `y` reads what `get(1)` reads |
| Vector4.Vector4.Z | src/math/linear-algebra/Vector4.ts:128-130 | the getter `z` reads what `get(2)` reads |
| Vector4.Vector4.W | src/math/linear-algebra/Vector4.ts:144-146 | the getter `w` reads what `get(3)` reads |
| Vector4.Vector4.SetX | src/math/linear-algebra/Vector4.ts:104-106 | the setter `x` makes the change `set(0, x)` makes: `x` reads the new value, `y`, `z`, `w` are unchanged |
| Vector4.Vector4.SetY | src/math/linear-algebra/Vector4.ts:120-122 | the setter `y` makes the change `set(1, y)` makes |
| Vector4.Vector4.SetZ | src/math/linear-algebra/Vector4.ts:136-138 | the setter `z` makes the change `set(2, z)` makes |
| Vector4.Vector4.SetW | src/math/linear-algebra/Vector4.ts:152-154 | the setter `w` makes the change `set(3, w)` makes |
| Vector4.WriteToCopy | src/math/linear-algebra/Vector4.ts:63-65 | writing into the array `toArray` returned leaves the vector unchanged |
| Matrix4.CellIndices | src/math/linear-algebra/Matrix4.ts:94-96 | the sixteen cells fill indices 0 to 15, each index once |
| Matrix4.IndexCell | src/math/linear-algebra/Matrix4.ts:94-96 | every index below 16 is the cell of some column and row |
| Matrix4.IdentityDiagonal | src/math/linear-algebra/Matrix4.ts:36-38 | the identity literal has 1 on the diagonal and 0 elsewhere |
| Matrix4.Matrix4.constructor | src/math/linear-algebra/Matrix4.ts:80-83 | the matrix keeps the given array itself, not a copy |
| Matrix4.Matrix4.FromIdentity | src/math/linear-algebra/Matrix4.ts:34-41 | a new matrix over a new 16-number array in which cell (x, y) is 1 exactly when x equals y |
| Matrix4.Matrix4.FromIterable | src/math/linear-algebra/Matrix4.ts:52-67 | fewer than 16 numbers throw the RangeError that names the count; otherwise a new matrix over a new array holding every number, extras included |
| Matrix4.Matrix4.Set | src/math/linear-algebra/Matrix4.ts:107-109 | the cell takes the value and every other backing index keeps its number |
| Matrix4.Matrix4.CellsInside | src/math/linear-algebra/Matrix4.ts:94-125 | every cell within `columns` and `rows` is inside the backing array of a valid matrix |
| Matrix4.SetThenGet | src/math/linear-algebra/Matrix4.ts:94-109 | writing a cell and reading any cell gives the new value there and the old value everywhere else |

## Where the description and the code differ

Where the written description of the repository and its code disagree, the model follows the code:

- **Alias probing.** `pickAlias` (config/generate/utils/AliasNameFactory.ts:78-96) tries `name`, then `name2`, `name3` and so on. The suffix 1 is never tried, because the counter is bumped before it is read. The comment at line 78 and the description promise `name1` first.
- **Non-string ids.** `toIdToSchemaMap` (config/generate/json-schema/json/ToIdToSchemaMap.ts:40-43) skips every schema whose `$id` is not a string, silently. `toIdToPathMap` throws a TypeError for a truthy non-string id. The description gives both the same failure policy.
- **Imports without a main module.** `createImports` without a `mainModulePath` (config/generate/utils/AliasNameFactory.ts:213-216) writes the from-path `"undefined"`, not the entry's module path.

## Left out

- I/O is left out. File reads and writes, `mkdir`, `stat`, `readdir`, globbing and the top-level `try` blocks that only log are not modelled. The file system is a map from path to bytes. A glob's result, or a file read's result, is a parameter given as a sequence or a value.
- Foreign code becomes parameters: json-schema-to-typescript `compile`, Ajv and `standaloneCode`, `ajv-formats`, `createGeneratedHeaderComment`, `getLicenseComment`, `readJSONFile` and `readJSONGlob`. The model states only what the code does with their results. `ImportFactory` is not part of this model either: its alias choice is a parameter, and the model records the requests made to it.
- `Promise.all` is modelled in call order. Every generation runs to its first `await`. The batch rejects with the first rejection in call order. Interleavings of the writes are not modelled.
- `getNPMPackageDependencyType` reads package.json. Here the parsed package is a parameter, and the read and its failure are not modelled.
- Console output is modelled as `Warning` records or as the text passed to the logger. Its formatting by the console is not.
- JavaScript numbers in parsed JSON are integers. Floating point, NaN and non-integer numbers are not modelled.
- Object key order is insertion order. The rule that moves integer-like keys to the front of a JavaScript object is not modelled.
- Paths are normalised, `/`-separated paths. Windows separators, `..` segments that leave the root, and the percent-decoding of `fileURLToPath` are not modelled. The working directory is a parameter.
- A glob pattern with braces, such as `.{cjs,cts,js,jsx,mjs,mts,ts,tsx}`, is represented by its list of alternatives, not by its text.
- `Vector4` and `Matrix4` hold reals. Their numbers are not IEEE doubles, and neither class does arithmetic. The following are not modelled: reads and writes at indices outside the backing array, which give `undefined` or grow the array, and non-integer indices.
- `Matrix4.fromIterable` is given a finite sequence. Infinite iterables are not modelled.
- `Matrix4.Matrix4.Columns` and `Matrix4.Matrix4.Rows` are the constant getters `columns` and `rows`, and they carry no contract. They are used by `Matrix4.Matrix4.CellsInside`.
- The `setEntryValue` of config/rollup/rollup.config.mjs:147-160 is the same code as that of config/build/rollup.config.mjs:94-107. It is modelled once, in `BuildRollupConfig`. The same holds for the entry naming and the absolute file paths of the two configurations.
- `Json.ArrayPrototypeMembers` lists the string-named members of `Array.prototype` as of ECMAScript 2023. On a JavaScript engine with other array methods, other names read as inherited. Symbol-keyed members are not modelled, because property names here are strings.
- `markAllChildrenInternal` of config/doc/plugin/TagInternal.js:74-92 is the same code as that of config/TypeDocTagInternal.js:84-104. It is modelled once, as `TypeDocTagInternal.MarkAllChildrenInternal`, even though neither plugin's handler calls it. `mergeInputs` in config/build/rollup.config.mjs is modelled even though the configuration never calls it.
- `markInternal` of config/doc/plugin/TagInternal.js:41-68 is the same code as that of config/TypeDocTagInternal.js:47-78. It is modelled once, as `TypeDocTagInternal.Mark`.
- Rollup plugin options, output settings and the Babel, ESLint, Prettier, Knip and TypeDoc configuration objects are declarative data, so they are not modelled. config/rollup.config.mjs is not modelled either: its entry mapping is the derivation the two other configurations already cover.
- The following are not part of this model:
  - config/TestAllVersions.ts, which spawns processes;
  - the floating-point functions `SumVectors` and `CalculateCircleArea`;
  - `PrintCSV`, which is console output;
  - the declarations-only files `ArrayN.ts` and `TSV.d.ts`;
  - the tests of an Ajv validator whose source is not shown.
- A TypeDoc reflection is a record in a store keyed by id, and a child's id is larger than its parent's. Sharing one `Comment` object between two reflections is not modelled.

## Findings

| source | as written | input that shows it | evidently intended | confidence | as-written member | corrected member |
|---|---|---|---|---|---|---|
| config/generate/utils/ToComment.ts:54-59 | the loop starts after the first newline, so the first line of the text is never written into the comment | "First Line\nSecond Line" gives "/**\n * \nSecond Line\n */" | "/**\n * First Line\n * Second Line\n */", every line in order, as the documentation at lines 25-33 shows | not executed | ToComment.TwoLinesAsWritten | ToComment.IntendedListsEveryLine |
| config/UpdateExports.js:102-107 | `exports` is declared `const` and then reassigned when the package has no `exports` field, which throws "TypeError: Assignment to constant variable." | a package.json without an "exports" field | install the default exports ("./package.json" and "./*"), then rewrite them for the internal folders | not executed | UpdateExports.MissingExportsThrows | UpdateExports.IntendedInstallsDefaults |
