/**
 * `objectHasNPMPackage` and `getNPMPackageDependencyType`: whether a
 * `package.json` object lists a package under one of its dependency fields.
 * The file read of `loadProjectPackage` is left out: the parsed package is a
 * parameter.
 */
module HasNPMPackage {
  import opened Wrappers
  import opened Json
  import opened Strings

  datatype DependencyType = DevDependencies | PeerDependencies | Dependencies

  /** The answer of `getNPMPackageDependencyType`, where `NoDependency` is "none". */
  datatype DependencyKind = Listed(dependencyType: DependencyType) | NoDependency

  /** The `package.json` field of a dependency type. */
  function FieldName(dependencyType: DependencyType): (name: string)
    ensures name in {"devDependencies", "peerDependencies", "dependencies"}
  {
    match dependencyType
    case DevDependencies => "devDependencies"
    case PeerDependencies => "peerDependencies"
    case Dependencies => "dependencies"
  }

  /** The string `getNPMPackageDependencyType` returns. */
  function KindName(kind: DependencyKind): string {
    match kind
    case Listed(t) => FieldName(t)
    case NoDependency => "none"
  }

  /**
   * `objectHasNPMPackage(jsonObject, dependencyType, packageName)`: false
   * unless the field is of type "object"; then true exactly when reading the
   * package from it gives a truthy value. For an object that is its own
   * entry, or else an `Object.prototype` member such as "constructor", which
   * is a function and so truthy. A `null` field passes the type test and
   * reading the package from it throws.
   */
  function ObjectHasNPMPackage(jsonObject: JsonObject, dependencyType: DependencyType, packageName: string)
    : (r: Result<bool, Exception>)
    ensures TypeOf(Property(jsonObject, FieldName(dependencyType))) != "object" ==> r == Success(false)
    ensures r.Failure? <==> Property(jsonObject, FieldName(dependencyType)) == Some(JNull)
    ensures r.Failure? ==> r.error.TypeError?
    ensures forall d :: Property(jsonObject, FieldName(dependencyType)) == Some(JObj(d)) ==>
      r == Success(if Property(d, packageName).Some? then Truthy(Property(d, packageName))
                   else packageName in ObjectPrototypeMembers())
  {
    var dependencies := Property(jsonObject, FieldName(dependencyType));
    if TypeOf(dependencies) != "object" then Success(false)
    else
      var dependency :- Member(dependencies.value, packageName);
      if ReadTruthy(dependency) then Success(true) else Success(false)
  }

  /**
   * A dependency field holding an array (its `typeof` is "object" too)
   * "lists" its `length` when it is non-empty, every member its prototypes
   * give it, and each index whose element is truthy.
   */
  lemma ArrayFieldLists(jsonObject: JsonObject, dependencyType: DependencyType, packageName: string,
                        items: seq<Json>)
    requires Property(jsonObject, FieldName(dependencyType)) == Some(JArr(items))
    ensures ObjectHasNPMPackage(jsonObject, dependencyType, packageName) == Success(true) <==>
      (packageName == "length" && |items| > 0)
      || packageName in ArrayPrototypeMembers() || packageName in ObjectPrototypeMembers()
      || exists i :: 0 <= i < |items| && NatToString(i) == packageName && Truthy(Some(items[i]))
  {
    if exists i :: 0 <= i < |items| && NatToString(i) == packageName && Truthy(Some(items[i])) {
      var i :| 0 <= i < |items| && NatToString(i) == packageName && Truthy(Some(items[i]));
      if packageName != "length" && packageName !in ArrayPrototypeMembers() && packageName !in ObjectPrototypeMembers() {
        ArrayElementRead(items, packageName, i);
      }
    }
  }

  /** The package is listed as a dependency of this type. */
  predicate Lists(projectPackage: JsonObject, dependencyType: DependencyType, packageName: string) {
    ObjectHasNPMPackage(projectPackage, dependencyType, packageName) == Success(true)
  }

  /**
   * `getNPMPackageDependencyType(packageName)` on the parsed package: the
   * first of devDependencies, peerDependencies and dependencies that lists
   * the package, else "none".
   */
  function GetNPMPackageDependencyType(projectPackage: JsonObject, packageName: string)
    : (r: Result<DependencyKind, Exception>)
    ensures r == Success(Listed(DevDependencies)) <==> Lists(projectPackage, DevDependencies, packageName)
    ensures r == Success(Listed(PeerDependencies)) <==>
      ObjectHasNPMPackage(projectPackage, DevDependencies, packageName) == Success(false)
      && Lists(projectPackage, PeerDependencies, packageName)
    ensures r == Success(Listed(Dependencies)) <==>
      ObjectHasNPMPackage(projectPackage, DevDependencies, packageName) == Success(false)
      && ObjectHasNPMPackage(projectPackage, PeerDependencies, packageName) == Success(false)
      && Lists(projectPackage, Dependencies, packageName)
    ensures r.Failure? <==>
      ObjectHasNPMPackage(projectPackage, DevDependencies, packageName).Failure?
      || (ObjectHasNPMPackage(projectPackage, DevDependencies, packageName) == Success(false)
          && ObjectHasNPMPackage(projectPackage, PeerDependencies, packageName).Failure?)
      || (ObjectHasNPMPackage(projectPackage, DevDependencies, packageName) == Success(false)
          && ObjectHasNPMPackage(projectPackage, PeerDependencies, packageName) == Success(false)
          && ObjectHasNPMPackage(projectPackage, Dependencies, packageName).Failure?)
  {
    var dev :- ObjectHasNPMPackage(projectPackage, DevDependencies, packageName);
    if dev then Success(Listed(DevDependencies))
    else
      var peer :- ObjectHasNPMPackage(projectPackage, PeerDependencies, packageName);
      if peer then Success(Listed(PeerDependencies))
      else
        var deps :- ObjectHasNPMPackage(projectPackage, Dependencies, packageName);
        if deps then Success(Listed(Dependencies)) else Success(NoDependency)
  }

  // ---------------------------------------------------------------------------
  // Properties.

  /** An empty version string counts as absent. */
  lemma EmptyVersionIsAbsent(jsonObject: JsonObject, dependencyType: DependencyType, packageName: string,
                             dependencies: JsonObject)
    requires Property(jsonObject, FieldName(dependencyType)) == Some(JObj(dependencies))
    requires Property(dependencies, packageName) == Some(JStr(""))
    ensures ObjectHasNPMPackage(jsonObject, dependencyType, packageName) == Success(false)
  {
  }

  /** "none" is returned exactly when no field lists the package. */
  lemma NoneIffUnlisted(projectPackage: JsonObject, packageName: string)
    requires forall t :: ObjectHasNPMPackage(projectPackage, t, packageName).Success?
    ensures GetNPMPackageDependencyType(projectPackage, packageName) == Success(NoDependency) <==>
      forall t :: !Lists(projectPackage, t, packageName)
  {
    if GetNPMPackageDependencyType(projectPackage, packageName) != Success(NoDependency) {
      assert exists t :: Lists(projectPackage, t, packageName) by {
        if !Lists(projectPackage, DevDependencies, packageName) && !Lists(projectPackage, PeerDependencies, packageName) {
          assert Lists(projectPackage, Dependencies, packageName);
        }
      }
    }
  }

  /**
   * A name every object inherits counts as a devDependency whenever
   * devDependencies is an object without that entry: for `{"devDependencies":
   * {}}` the dependency type of "constructor" is "devDependencies".
   */
  lemma InheritedNameIsDevDependency(projectPackage: JsonObject, packageName: string, devDependencies: JsonObject)
    requires Property(projectPackage, "devDependencies") == Some(JObj(devDependencies))
    requires Property(devDependencies, packageName).None? && packageName in ObjectPrototypeMembers()
    ensures GetNPMPackageDependencyType(projectPackage, packageName) == Success(Listed(DevDependencies))
  {
    assert Lists(projectPackage, DevDependencies, packageName);
  }

  /**
   * A `null` field throws as soon as it is checked: a null devDependencies
   * throws even when another field lists the package.
   */
  lemma NullDevDependenciesThrows(projectPackage: JsonObject, packageName: string)
    requires Property(projectPackage, "devDependencies") == Some(JNull)
    ensures GetNPMPackageDependencyType(projectPackage, packageName).Failure?
  {
  }
}
