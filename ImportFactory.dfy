/**
 * The import registry the generators hand their imports to. Its alias
 * choice and the code it renders are not part of this model: both are
 * parameters, computed from the requests made so far. What the model keeps
 * is that every `import` call records one request and returns the alias
 * chosen for it.
 */
module ImportFactories {
  import opened Wrappers
  import opened Json

  /**
   * One `importFactory.import(modulePath, name, isType, isDefault)` call;
   * an omitted flag is `None`.
   */
  datatype Request = Request(modulePath: string, name: Json, isType: Option<bool>, isDefault: Option<bool>)

  class ImportFactory {
    /** The requests made so far, in call order. */
    var requests: seq<Request>

    constructor ()
      ensures requests == []
    {
      requests := [];
    }

    /** `importFactory.import(...).aliasName`, with the alias rule `aliasOf` applied to the earlier requests. */
    method Import(aliasOf: (seq<Request>, Request) -> string, request: Request) returns (aliasName: string)
      modifies this
      ensures aliasName == aliasOf(old(requests), request)
      ensures requests == old(requests) + [request]
    {
      aliasName := aliasOf(requests, request);
      requests := requests + [request];
    }
  }
}
