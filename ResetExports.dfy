/**
 * The script that puts the `exports` field of package.json back to its
 * default: package.json itself, and every other module path served from
 * the "dist" folder in its three builds.
 */
module ResetExports {
  import opened Wrappers
  import opened OrderedMaps
  import opened Json

  // The conditional export of the wildcard key: declaration file, CommonJS build, ES module build.
  function DistTargets(): (t: JsonObject)
    ensures t.Valid() && t.keys == ["types", "require", "import"]
    ensures t.Get("types") == Some(JStr("./dist/*.d.ts"))
    ensures t.Get("require") == Some(JStr("./dist/*.cjs"))
    ensures t.Get("import") == Some(JStr("./dist/*.mjs"))
  {
    OrderedMap(["types", "require", "import"],
      map["types" := JStr("./dist/*.d.ts"), "require" := JStr("./dist/*.cjs"), "import" := JStr("./dist/*.mjs")])
  }

  /** The default `exports` object, keys in the order the literal lists them. */
  function DefaultExports(): (e: JsonObject)
    ensures e.Valid() && e.keys == ["./package.json", "./*"]
    ensures e.Get("./package.json") == Some(JStr("./package.json"))
    ensures e.Get("./*") == Some(JObj(DistTargets()))
  {
    OrderedMap(["./package.json", "./*"], map["./package.json" := JStr("./package.json"), "./*" := JObj(DistTargets())])
  }

  /**
   * `npmPackage.exports = { ... }` on the parsed package. Assigning an
   * existing property keeps its place among the keys; a new one goes last.
   */
  function Reset(npmPackage: JsonObject): (r: JsonObject)
    requires npmPackage.Valid()
    ensures r.Valid()
    ensures r.Get("exports") == Some(JObj(DefaultExports()))
    ensures forall k :: k != "exports" ==> r.Get(k) == npmPackage.Get(k)
    ensures r.keys == if "exports" in npmPackage.keys then npmPackage.keys else npmPackage.keys + ["exports"]
  {
    npmPackage.Set("exports", JObj(DefaultExports()))
  }

  // ---------------------------------------------------------------------------
  // Properties.

  /** After the reset, `exports` has exactly the two default keys and nothing else. */
  lemma ResetExportKeys(npmPackage: JsonObject)
    requires npmPackage.Valid()
    ensures Reset(npmPackage).Get("exports").Some? && Reset(npmPackage).Get("exports").value.JObj?
    ensures var e := Reset(npmPackage).Get("exports").value.obj;
      forall k :: e.Has(k) <==> k == "./package.json" || k == "./*"
  {
    var e := DefaultExports();
    forall k ensures e.Has(k) <==> k == "./package.json" || k == "./*" {
      assert e.Has(k) <==> k in e.keys;
    }
  }

  /** Resetting a reset package changes nothing: the script is idempotent. */
  lemma ResetIdempotent(npmPackage: JsonObject)
    requires npmPackage.Valid()
    ensures Reset(Reset(npmPackage)) == Reset(npmPackage)
  {
    SetOverwrites(npmPackage, "exports", JObj(DefaultExports()), JObj(DefaultExports()));
  }

  /** The result depends on the old package only through its other fields and its key order. */
  lemma ResetForgetsExports(a: JsonObject, b: JsonObject)
    requires a.Valid() && b.Valid() && a.keys == b.keys
    requires forall k :: k != "exports" ==> a.Get(k) == b.Get(k)
    ensures Reset(a) == Reset(b)
  {
    SetAgreeing(a, b, "exports", JObj(DefaultExports()));
  }
}
