/**
 * `toIdToPathMap`: indexes parsed schema files by their `$id`, rejecting
 * non-string ids and ids used by two files.
 */
module ToIdToPathMap {
  import opened Wrappers
  import opened OrderedMaps
  import opened Json

  /** The id a schema is indexed under: a truthy `$id` that is a string. */
  function IndexedId(schema: JsonObject): (id: Option<string>)
    ensures id.Some? <==> Truthy(Property(schema, "$id")) && TypeOf(Property(schema, "$id")) == "string"
    ensures id.Some? ==> id.value != "" && Property(schema, "$id") == Some(JStr(id.value))
  {
    match Property(schema, "$id")
    case Some(JStr(s)) => if s != "" then Some(s) else None
    case _ => None
  }

  /** A schema the index accepts: its `$id` is falsy or a string. */
  predicate Acceptable(schema: JsonObject) {
    var id := Property(schema, "$id");
    !Truthy(id) || TypeOf(id) == "string"
  }

  /** The message of the `TypeError` for a truthy `$id` that is not a string. */
  function UnexpectedTypeMessage(path: string, schema: JsonObject): string {
    path + " $id has unexpected type " + TypeOf(Property(schema, "$id"))
  }

  /** The message of the `Error` for a second file using the same id. */
  function DuplicateMessage(id: string, oldPath: string, path: string): string {
    "Multiple schema files are using the same id, \"" + id + "\":\n" + oldPath + "\n" + path
  }

  /** One iteration of the loop: skip a falsy id, reject a bad or repeated one, else record it. */
  function Step(idToPath: OrderedMap<string, string>, path: string, schema: JsonObject)
    : (r: Result<OrderedMap<string, string>, Exception>)
    requires idToPath.Valid()
    ensures r.Success? ==> r.value.Valid()
  {
    var id := Property(schema, "$id");
    if !Truthy(id) then Success(idToPath)
    else if TypeOf(id) != "string" then Failure(TypeError(UnexpectedTypeMessage(path, schema)))
    else
      var s := id.value.s;
      match idToPath.Get(s)
      case Some(oldPath) => Failure(Error(DuplicateMessage(s, oldPath, path)))
      case None => Success(idToPath.Set(s, path))
  }

  /** The index built from the entries in iteration order, or the first error thrown. */
  function Index(entries: seq<(string, JsonObject)>): (r: Result<OrderedMap<string, string>, Exception>)
    ensures r.Success? ==> r.value.Valid()
  {
    if |entries| == 0 then Success(Empty())
    else
      var last := entries[|entries| - 1];
      match Index(entries[..|entries| - 1])
      case Failure(e) => Failure(e)
      case Success(m) => Step(m, last.0, last.1)
  }

  /** The indexed ids of the entries, in order. */
  function IdsOf(entries: seq<(string, JsonObject)>): seq<string> {
    if |entries| == 0 then []
    else
      var init := IdsOf(entries[..|entries| - 1]);
      match IndexedId(entries[|entries| - 1].1)
      case Some(id) => init + [id]
      case None => init
  }

  /** No indexed id is carried by two entries. */
  predicate UniqueIds(entries: seq<(string, JsonObject)>) {
    forall i, j :: 0 <= i < j < |entries| && IndexedId(entries[i].1).Some? ==>
      IndexedId(entries[i].1) != IndexedId(entries[j].1)
  }

  /** The loop over `pathToSchema`, returning the new map or the error it throws. */
  method ToIdToPathMap(pathToSchema: OrderedMap<string, JsonObject>)
    returns (r: Result<OrderedMap<string, string>, Exception>)
    requires pathToSchema.Valid()
    ensures r == Index(pathToSchema.Entries())
  {
    var entries := pathToSchema.Entries();
    var idToPath: OrderedMap<string, string> := Empty();
    for i := 0 to |entries|
      invariant Index(entries[..i]) == Success(idToPath)
    {
      var (path, schema) := entries[i];
      IndexStep(entries, i, idToPath);
      var id := Property(schema, "$id");
      if !Truthy(id) {
        continue;
      }
      if TypeOf(id) != "string" {
        r := Failure(TypeError(UnexpectedTypeMessage(path, schema)));
        FailureStops(entries, i + 1);
        return;
      }
      var s := id.value.s;
      var oldPath := idToPath.Get(s);
      if oldPath.Some? {
        r := Failure(Error(DuplicateMessage(s, oldPath.value, path)));
        FailureStops(entries, i + 1);
        return;
      }
      idToPath := idToPath.Set(s, path);
    }
    assert entries[..|entries|] == entries;
    r := Success(idToPath);
  }

  /** One pass of the loop: the index of one entry more is the step from the index so far. */
  lemma IndexStep(entries: seq<(string, JsonObject)>, i: nat, idToPath: OrderedMap<string, string>)
    requires i < |entries| && Index(entries[..i]) == Success(idToPath)
    ensures idToPath.Valid() && Index(entries[..i + 1]) == Step(idToPath, entries[i].0, entries[i].1)
  {
    assert entries[..i + 1][..i] == entries[..i];
  }

  // ---------------------------------------------------------------------------
  // Properties.

  /** The loop step in terms of `Acceptable` and `IndexedId`. */
  lemma StepCases(idToPath: OrderedMap<string, string>, path: string, schema: JsonObject)
    requires idToPath.Valid()
    ensures !Acceptable(schema) ==> Step(idToPath, path, schema) == Failure(TypeError(UnexpectedTypeMessage(path, schema)))
    ensures Acceptable(schema) && IndexedId(schema).None? ==> Step(idToPath, path, schema) == Success(idToPath)
    ensures Acceptable(schema) && IndexedId(schema).Some? ==>
      var id := IndexedId(schema).value;
      Step(idToPath, path, schema) ==
        if id in idToPath.values then Failure(Error(DuplicateMessage(id, idToPath.values[id], path)))
        else Success(idToPath.Set(id, path))
  {
  }

  /** Once an error is thrown, the later entries are never looked at. */
  lemma {:induction false} FailureStops(entries: seq<(string, JsonObject)>, k: nat)
    requires k <= |entries| && Index(entries[..k]).Failure?
    ensures Index(entries) == Index(entries[..k])
    decreases |entries| - k
  {
    if k < |entries| {
      var next := entries[..k + 1];
      assert next[..k] == entries[..k];
      assert Index(next) == Index(entries[..k]);
      FailureStops(entries, k + 1);
    } else {
      assert entries[..k] == entries;
    }
  }

  /** Some entry carries the indexed id `id` and has the path `path`. */
  predicate Carries(entries: seq<(string, JsonObject)>, id: string, path: string) {
    exists i :: 0 <= i < |entries| && IndexedId(entries[i].1) == Some(id) && entries[i].0 == path
  }

  lemma CarriesSnoc(init: seq<(string, JsonObject)>, last: (string, JsonObject), id: string, path: string)
    ensures Carries(init + [last], id, path) <==>
      Carries(init, id, path) || (IndexedId(last.1) == Some(id) && last.0 == path)
  {
    var entries := init + [last];
    if Carries(entries, id, path) {
      var i :| 0 <= i < |entries| && IndexedId(entries[i].1) == Some(id) && entries[i].0 == path;
      if i < |init| {
        assert init[i] == entries[i];
      }
    }
    if Carries(init, id, path) {
      var i :| 0 <= i < |init| && IndexedId(init[i].1) == Some(id) && init[i].0 == path;
      assert entries[i] == init[i];
    }
    assert entries[|init|] == last;
  }

  /** On success the keys are the indexed ids, in input order. */
  lemma {:induction false} IndexKeys(entries: seq<(string, JsonObject)>)
    requires Index(entries).Success?
    ensures Index(entries).value.keys == IdsOf(entries)
  {
    if |entries| > 0 {
      var init := entries[..|entries| - 1];
      var last := entries[|entries| - 1];
      var m := Index(init).value;
      IndexKeys(init);
      StepCases(m, last.0, last.1);
    }
  }

  /**
   * On success each key maps to the path of an entry carrying that id, and
   * every entry carrying an indexed id is found under it: no other key is
   * present.
   */
  lemma {:induction false} IndexLookup(entries: seq<(string, JsonObject)>)
    requires Index(entries).Success?
    ensures forall id, p :: Index(entries).value.Get(id) == Some(p) <==> Carries(entries, id, p)
  {
    if |entries| > 0 {
      var init := entries[..|entries| - 1];
      var last := entries[|entries| - 1];
      assert entries == init + [last];
      var m := Index(init).value;
      IndexLookup(init);
      StepCases(m, last.0, last.1);
      var r := Index(entries).value;
      forall id, p ensures r.Get(id) == Some(p) <==> Carries(entries, id, p) {
        CarriesSnoc(init, last, id, p);
        if IndexedId(last.1) == Some(id) {
          // The last entry was recorded, so no earlier entry carries its id.
          assert !Carries(init, id, p);
        }
      }
    }
  }

  /** Every `$id` is falsy or a string, and no indexed id repeats. */
  predicate Indexable(entries: seq<(string, JsonObject)>) {
    (forall i :: 0 <= i < |entries| ==> Acceptable(entries[i].1)) && UniqueIds(entries)
  }

  /** The index is built exactly when the entries are `Indexable`. */
  lemma IndexSucceedsIff(entries: seq<(string, JsonObject)>)
    ensures Index(entries).Success? <==> Indexable(entries)
  {
    if Index(entries).Success? {
      SuccessIndexable(entries);
    }
    if Indexable(entries) {
      IndexableSucceeds(entries);
    }
  }

  lemma {:induction false} SuccessIndexable(entries: seq<(string, JsonObject)>)
    requires Index(entries).Success?
    ensures Indexable(entries)
  {
    if |entries| > 0 {
      var init := entries[..|entries| - 1];
      var last := entries[|entries| - 1];
      assert Index(init).Success?;
      SuccessIndexable(init);
      var m := Index(init).value;
      StepCases(m, last.0, last.1);
      IndexLookup(init);
      assert forall i :: 0 <= i < |init| ==> init[i] == entries[i];
      forall i, j | 0 <= i < j < |entries| && IndexedId(entries[i].1).Some?
        ensures IndexedId(entries[i].1) != IndexedId(entries[j].1)
      {
        if j == |entries| - 1 {
          var id := IndexedId(entries[i].1).value;
          // The last id was not yet a key, so no earlier entry carries it.
          assert IndexedId(init[i].1) == Some(id) ==> Carries(init, id, init[i].0);
        }
      }
    }
  }

  lemma {:induction false} IndexableSucceeds(entries: seq<(string, JsonObject)>)
    requires Indexable(entries)
    ensures Index(entries).Success?
  {
    if |entries| > 0 {
      var init := entries[..|entries| - 1];
      var last := entries[|entries| - 1];
      assert forall i :: 0 <= i < |init| ==> init[i] == entries[i];
      assert Indexable(init);
      IndexableSucceeds(init);
      var m := Index(init).value;
      StepCases(m, last.0, last.1);
      IndexLookup(init);
      var id := IndexedId(last.1);
      if id.Some? {
        forall q ensures !Carries(init, id.value, q) {
          forall i | 0 <= i < |init| ensures IndexedId(init[i].1) != id {
            assert IndexedId(entries[i].1) != IndexedId(entries[|entries| - 1].1);
          }
        }
        assert id.value !in m.values by {
          assert m.Get(id.value).None?;
        }
      }
    }
  }

  /**
   * The error for the first entry whose `$id` is truthy but not a string is a
   * `TypeError` naming that entry's path and the id's type.
   */
  lemma NonStringIdThrows(entries: seq<(string, JsonObject)>, k: nat)
    requires k < |entries| && Index(entries[..k]).Success?
    requires !Acceptable(entries[k].1)
    ensures Index(entries) == Failure(TypeError(UnexpectedTypeMessage(entries[k].0, entries[k].1)))
  {
    var next := entries[..k + 1];
    assert next[..k] == entries[..k] && next[k] == entries[k];
    var m := Index(entries[..k]).value;
    assert Index(next) == Step(m, entries[k].0, entries[k].1);
    StepCases(m, entries[k].0, entries[k].1);
    FailureStops(entries, k + 1);
  }

  /**
   * A repeated id throws an `Error` naming the id, then the earlier path,
   * then the later path.
   */
  lemma DuplicateIdThrows(entries: seq<(string, JsonObject)>, j: nat, k: nat)
    requires j < k < |entries| && Index(entries[..k]).Success?
    requires IndexedId(entries[j].1).Some? && IndexedId(entries[j].1) == IndexedId(entries[k].1)
    ensures Index(entries) ==
      Failure(Error(DuplicateMessage(IndexedId(entries[k].1).value, entries[j].0, entries[k].0)))
  {
    var init := entries[..k];
    var id := IndexedId(entries[k].1).value;
    var m := Index(init).value;
    IndexLookup(init);
    assert init[j] == entries[j];
    assert Carries(init, id, entries[j].0);
    assert m.Get(id) == Some(entries[j].0);
    var next := entries[..k + 1];
    assert next[..k] == init && next[k] == entries[k];
    assert Index(next) == Step(m, entries[k].0, entries[k].1);
    StepCases(m, entries[k].0, entries[k].1);
    FailureStops(entries, k + 1);
  }
}
