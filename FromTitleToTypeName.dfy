/** `fromTitleToTypeName`: the type name of a schema is its title, which must be a non-empty string. */
module FromTitleToTypeName {
  import opened Wrappers
  import opened OrderedMaps
  import opened Json

  function TypeErrorMessage(title: Option<Json>): string {
    "Schema title " + ToDisplayString(title) + " was of type " + TypeOf(title) + " instead of string."
  }

  const EMPTY_TITLE_MESSAGE := "Schema title is empty."

  /**
   * The title when it is a non-empty string; a `TypeError` for any other type
   * (checked first), a plain `Error` for the empty string.
   */
  function FromTitleToTypeName(schema: JsonObject): (r: Result<string, Exception>)
    ensures r.Success? <==> exists t :: Property(schema, "title") == Some(JStr(t)) && t != ""
    ensures r.Success? ==> Property(schema, "title") == Some(JStr(r.value))
    ensures TypeOf(Property(schema, "title")) != "string" ==>
      r == Failure(TypeError(TypeErrorMessage(Property(schema, "title"))))
    ensures Property(schema, "title") == Some(JStr("")) ==> r == Failure(Error(EMPTY_TITLE_MESSAGE))
  {
    var title := Property(schema, "title");
    if TypeOf(title) != "string" then Failure(TypeError(TypeErrorMessage(title)))
    else if |title.value.s| <= 0 then Failure(Error(EMPTY_TITLE_MESSAGE))
    else Success(title.value.s)
  }

  /** Only the "title" property is read: schemas that agree on it give the same result. */
  lemma OnlyTitleRead(a: JsonObject, b: JsonObject)
    requires Property(a, "title") == Property(b, "title")
    ensures FromTitleToTypeName(a) == FromTitleToTypeName(b)
  {
  }
}
