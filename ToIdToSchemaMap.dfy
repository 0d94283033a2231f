/**
 * `toIdToSchemaMap`: indexes schemas by their `$id`, skipping any schema
 * whose `$id` is not a string and rejecting an id used twice.
 */
module ToIdToSchemaMap {
  import opened Wrappers
  import opened OrderedMaps
  import opened Json
  import ToIdToPathMap

  /** The id a schema is indexed under: its `$id` when that is a string, even "". */
  function StringId(schema: JsonObject): (id: Option<string>)
    ensures id.Some? <==> TypeOf(Property(schema, "$id")) == "string"
    ensures id.Some? ==> Property(schema, "$id") == Some(JStr(id.value))
  {
    match Property(schema, "$id")
    case Some(JStr(s)) => Some(s)
    case _ => None
  }

  /** The message of the `Error` for a second schema using the same id. */
  function DuplicateMessage(id: string): string {
    "Multiple schema files are using the same id, \"" + id + "\""
  }

  /** One iteration of the loop: skip a non-string id, reject a repeated one, else record the schema. */
  function Step(idToSchema: OrderedMap<string, JsonObject>, schema: JsonObject)
    : (r: Result<OrderedMap<string, JsonObject>, Exception>)
    requires idToSchema.Valid()
    ensures r.Success? ==> r.value.Valid()
  {
    var id := Property(schema, "$id");
    if TypeOf(id) == "string" then
      var s := id.value.s;
      if idToSchema.Get(s).Some? then Failure(Error(DuplicateMessage(s)))
      else Success(idToSchema.Set(s, schema))
    else Success(idToSchema)
  }

  /** The index built from the schemas in order, or the first error thrown. */
  function Index(schemas: seq<JsonObject>): (r: Result<OrderedMap<string, JsonObject>, Exception>)
    ensures r.Success? ==> r.value.Valid()
  {
    if |schemas| == 0 then Success(Empty())
    else
      match Index(schemas[..|schemas| - 1])
      case Failure(e) => Failure(e)
      case Success(m) => Step(m, schemas[|schemas| - 1])
  }

  /** The string ids of the schemas, in order. */
  function IdsOf(schemas: seq<JsonObject>): seq<string> {
    if |schemas| == 0 then []
    else
      var init := IdsOf(schemas[..|schemas| - 1]);
      match StringId(schemas[|schemas| - 1])
      case Some(id) => init + [id]
      case None => init
  }

  /** Some schema has the string id `id` and is `schema`. */
  predicate Carries(schemas: seq<JsonObject>, id: string, schema: JsonObject) {
    exists i :: 0 <= i < |schemas| && StringId(schemas[i]) == Some(id) && schemas[i] == schema
  }

  /** No string id is carried by two schemas. */
  predicate UniqueIds(schemas: seq<JsonObject>) {
    forall i, j :: 0 <= i < j < |schemas| && StringId(schemas[i]).Some? ==>
      StringId(schemas[i]) != StringId(schemas[j])
  }

  /** The loop over `schemas`, returning the new map or the error it throws. */
  method ToIdToSchemaMap(schemas: seq<JsonObject>) returns (r: Result<OrderedMap<string, JsonObject>, Exception>)
    ensures r == Index(schemas)
  {
    var idToSchema: OrderedMap<string, JsonObject> := Empty();
    for i := 0 to |schemas|
      invariant Index(schemas[..i]) == Success(idToSchema)
    {
      var schema := schemas[i];
      assert schemas[..i + 1][..i] == schemas[..i];
      var id := Property(schema, "$id");
      if TypeOf(id) == "string" {
        var s := id.value.s;
        var oldSchema := idToSchema.Get(s);
        if oldSchema.Some? {
          r := Failure(Error(DuplicateMessage(s)));
          FailureStops(schemas, i + 1);
          return;
        }
        idToSchema := idToSchema.Set(s, schema);
      }
    }
    assert schemas[..|schemas|] == schemas;
    r := Success(idToSchema);
  }

  // ---------------------------------------------------------------------------
  // Properties.

  /** The loop step in terms of `StringId`. */
  lemma StepCases(idToSchema: OrderedMap<string, JsonObject>, schema: JsonObject)
    requires idToSchema.Valid()
    ensures StringId(schema).None? ==> Step(idToSchema, schema) == Success(idToSchema)
    ensures StringId(schema).Some? ==>
      var id := StringId(schema).value;
      Step(idToSchema, schema) ==
        if id in idToSchema.values then Failure(Error(DuplicateMessage(id)))
        else Success(idToSchema.Set(id, schema))
  {
  }

  /** Once an error is thrown, the later schemas are never looked at. */
  lemma {:induction false} FailureStops(schemas: seq<JsonObject>, k: nat)
    requires k <= |schemas| && Index(schemas[..k]).Failure?
    ensures Index(schemas) == Index(schemas[..k])
    decreases |schemas| - k
  {
    if k < |schemas| {
      var next := schemas[..k + 1];
      assert next[..k] == schemas[..k];
      assert Index(next) == Index(schemas[..k]);
      FailureStops(schemas, k + 1);
    } else {
      assert schemas[..k] == schemas;
    }
  }

  lemma CarriesSnoc(init: seq<JsonObject>, last: JsonObject, id: string, schema: JsonObject)
    ensures Carries(init + [last], id, schema) <==>
      Carries(init, id, schema) || (StringId(last) == Some(id) && last == schema)
  {
    var schemas := init + [last];
    if Carries(schemas, id, schema) {
      var i :| 0 <= i < |schemas| && StringId(schemas[i]) == Some(id) && schemas[i] == schema;
      if i < |init| {
        assert init[i] == schemas[i];
      }
    }
    if Carries(init, id, schema) {
      var i :| 0 <= i < |init| && StringId(init[i]) == Some(id) && init[i] == schema;
      assert schemas[i] == init[i];
    }
    assert schemas[|init|] == last;
  }

  /** On success the keys are the string ids, in input order. */
  lemma {:induction false} IndexKeys(schemas: seq<JsonObject>)
    requires Index(schemas).Success?
    ensures Index(schemas).value.keys == IdsOf(schemas)
  {
    if |schemas| > 0 {
      var init := schemas[..|schemas| - 1];
      IndexKeys(init);
      StepCases(Index(init).value, schemas[|schemas| - 1]);
    }
  }

  /**
   * On success each key maps to the very schema carrying that id, and every
   * schema with a string id is found under it.
   */
  lemma {:induction false} IndexLookup(schemas: seq<JsonObject>)
    requires Index(schemas).Success?
    ensures forall id, s :: Index(schemas).value.Get(id) == Some(s) <==> Carries(schemas, id, s)
  {
    if |schemas| > 0 {
      var init := schemas[..|schemas| - 1];
      var last := schemas[|schemas| - 1];
      assert schemas == init + [last];
      var m := Index(init).value;
      IndexLookup(init);
      StepCases(m, last);
      var r := Index(schemas).value;
      forall id, s ensures r.Get(id) == Some(s) <==> Carries(schemas, id, s) {
        CarriesSnoc(init, last, id, s);
        if StringId(last) == Some(id) {
          // The last schema was recorded, so no earlier schema carries its id.
          assert !Carries(init, id, s);
        }
      }
    }
  }

  /** The index is built exactly when no string id repeats; other `$id` values never throw. */
  lemma IndexSucceedsIff(schemas: seq<JsonObject>)
    ensures Index(schemas).Success? <==> UniqueIds(schemas)
  {
    if Index(schemas).Success? {
      SuccessUnique(schemas);
    }
    if UniqueIds(schemas) {
      UniqueSucceeds(schemas);
    }
  }

  lemma {:induction false} SuccessUnique(schemas: seq<JsonObject>)
    requires Index(schemas).Success?
    ensures UniqueIds(schemas)
  {
    if |schemas| > 0 {
      var init := schemas[..|schemas| - 1];
      var last := schemas[|schemas| - 1];
      assert Index(init).Success?;
      SuccessUnique(init);
      var m := Index(init).value;
      StepCases(m, last);
      IndexLookup(init);
      assert forall i :: 0 <= i < |init| ==> init[i] == schemas[i];
      forall i, j | 0 <= i < j < |schemas| && StringId(schemas[i]).Some?
        ensures StringId(schemas[i]) != StringId(schemas[j])
      {
        if j == |schemas| - 1 {
          var id := StringId(schemas[i]).value;
          // The last id was not yet a key, so no earlier schema carries it.
          assert StringId(init[i]) == Some(id) ==> Carries(init, id, init[i]);
        }
      }
    }
  }

  lemma {:induction false} UniqueSucceeds(schemas: seq<JsonObject>)
    requires UniqueIds(schemas)
    ensures Index(schemas).Success?
  {
    if |schemas| > 0 {
      var init := schemas[..|schemas| - 1];
      var last := schemas[|schemas| - 1];
      assert forall i :: 0 <= i < |init| ==> init[i] == schemas[i];
      assert UniqueIds(init);
      UniqueSucceeds(init);
      var m := Index(init).value;
      StepCases(m, last);
      IndexLookup(init);
      var id := StringId(last);
      if id.Some? {
        forall q ensures !Carries(init, id.value, q) {
          forall i | 0 <= i < |init| ensures StringId(init[i]) != id {
            assert StringId(schemas[i]) != StringId(schemas[|schemas| - 1]);
          }
        }
        assert m.Get(id.value).None?;
      }
    }
  }

  /** A repeated id throws an `Error` that names only the id. */
  lemma DuplicateIdThrows(schemas: seq<JsonObject>, j: nat, k: nat)
    requires j < k < |schemas| && Index(schemas[..k]).Success?
    requires StringId(schemas[j]).Some? && StringId(schemas[j]) == StringId(schemas[k])
    ensures Index(schemas) == Failure(Error(DuplicateMessage(StringId(schemas[k]).value)))
  {
    var init := schemas[..k];
    var id := StringId(schemas[k]).value;
    var m := Index(init).value;
    IndexLookup(init);
    assert init[j] == schemas[j];
    assert Carries(init, id, schemas[j]);
    assert m.Get(id).Some?;
    var next := schemas[..k + 1];
    assert next[..k] == init && next[k] == schemas[k];
    assert Index(next) == Step(m, schemas[k]);
    StepCases(m, schemas[k]);
    FailureStops(schemas, k + 1);
  }

  /**
   * An empty-string `$id` is indexed here, while `toIdToPathMap` skips the
   * same schema as falsy.
   */
  lemma EmptyIdIndexedUnlikePathMap(path: string, schema: JsonObject)
    requires Property(schema, "$id") == Some(JStr(""))
    ensures Index([schema]).Success? && Index([schema]).value.keys == [""]
    ensures ToIdToPathMap.Index([(path, schema)]).Success?
    ensures ToIdToPathMap.Index([(path, schema)]).value.keys == []
  {
    assert [schema][..0] == [];
    assert [(path, schema)][..0] == [];
  }
}
