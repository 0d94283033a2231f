/**
 * The alias registry of the interface generator: it hands out import aliases
 * that no earlier import uses and renders the `import` lines for them.
 */
module AliasNameFactory {
  import opened Wrappers
  import opened Strings
  import opened OrderedMaps
  import opened Paths

  /** An imported declaration and the alias chosen for it. */
  datatype Import = Import(modulePath: string, declarationName: string, aliasName: string)

  /** The alias tried on the `n`-th probe: the name itself, then name2, name3, ... */
  function ProbeName(declarationName: string, n: nat): string
    requires n >= 1
  {
    if n == 1 then declarationName else declarationName + NatToString(n)
  }

  /** Distinct probes give distinct names, so the probe sequence never repeats itself. */
  lemma ProbeNameInjective(d: string, m: nat, n: nat)
    requires 1 <= m && 1 <= n && ProbeName(d, m) == ProbeName(d, n)
    ensures m == n
  {
    if m != 1 && n != 1 {
      assert NatToString(m) == ProbeName(d, m)[|d|..];
      assert NatToString(n) == ProbeName(d, n)[|d|..];
      NatToStringInjective(m, n);
    }
  }

  /**
   * `alias` is the first probe for `declarationName` that is not a key of
   * `used`; every earlier probe is a key.
   */
  ghost predicate FirstFreeProbe(used: map<string, Import>, declarationName: string, alias: string) {
    alias !in used
    && exists n :: n >= 1 && alias == ProbeName(declarationName, n)
                   && forall m :: 1 <= m < n ==> ProbeName(declarationName, m) in used
  }

  /** The length of the longest string of `s`. */
  function MaxLength(s: seq<string>): (r: nat)
    ensures forall i :: 0 <= i < |s| ==> |s[i]| <= r
  {
    if |s| == 0 then 0
    else
      var rest := MaxLength(s[1..]);
      assert forall i :: 1 <= i < |s| ==> s[i] == s[1..][i - 1];
      if |s[0]| > rest then |s[0]| else rest
  }

  class AliasNameFactory {
    /** Maps each alias to the import it stands for, in the order aliases were created. */
    var aliasNameToImport: OrderedMap<string, Import>

    /** Every entry is keyed by its own alias. */
    ghost predicate Valid()
      reads this
    {
      aliasNameToImport.Valid()
      && forall a | a in aliasNameToImport.values :: aliasNameToImport.values[a].aliasName == a
    }

    constructor ()
      ensures Valid() && aliasNameToImport.keys == []
    {
      aliasNameToImport := Empty();
    }

    /**
     * The first probe for `declarationName` that is not yet an alias. A name
     * that is still free is returned unchanged.
     */
    method PickAlias(declarationName: string) returns (aliasName: string)
      requires Valid()
      ensures FirstFreeProbe(aliasNameToImport.values, declarationName, aliasName)
      ensures declarationName !in aliasNameToImport.values ==> aliasName == declarationName
    {
      var used := aliasNameToImport;
      // Every alias is at most `bound` long, so any probe longer than that is free.
      ghost var bound := MaxLength(used.keys);
      aliasName := declarationName;
      var nextAliasNumber := 1;
      while aliasName in used.values
        invariant nextAliasNumber >= 1
        invariant aliasName == ProbeName(declarationName, nextAliasNumber)
        invariant forall m :: 1 <= m < nextAliasNumber ==> ProbeName(declarationName, m) in used.values
        decreases Pow10(bound) + 1 - nextAliasNumber
      {
        // The probe is an alias, so its number has at most `bound` digits.
        assert aliasName in used.keys;
        ghost var i :| 0 <= i < |used.keys| && used.keys[i] == aliasName;
        assert |aliasName| <= bound;
        NatToStringShort(nextAliasNumber, bound);
        nextAliasNumber := nextAliasNumber + 1;
        aliasName := declarationName + NatToString(nextAliasNumber);
      }
    }

    /** A fresh alias probed from "Unnamed", recorded with an empty module path and declaration. */
    method CreateAnonymousAlias() returns (aliasName: string)
      requires Valid()
      modifies this
      ensures Valid()
      ensures FirstFreeProbe(old(aliasNameToImport.values), "Unnamed", aliasName)
      ensures aliasNameToImport.keys == old(aliasNameToImport.keys) + [aliasName]
      ensures aliasNameToImport.values == old(aliasNameToImport.values)[aliasName := Import("", "", aliasName)]
    {
      aliasName := PickAlias("Unnamed");
      aliasNameToImport := aliasNameToImport.Set(aliasName, Import("", "", aliasName));
    }

    /**
     * A fresh alias for `declarationName` from `modulePath`. A missing (`null`
     * or `undefined`) or empty name makes an anonymous alias instead.
     */
    method CreateAlias(declarationName: Option<string>, modulePath: string) returns (aliasName: string)
      requires Valid()
      modifies this
      ensures Valid()
      ensures aliasNameToImport.keys == old(aliasNameToImport.keys) + [aliasName]
      ensures declarationName.None? || declarationName.value == "" ==>
        FirstFreeProbe(old(aliasNameToImport.values), "Unnamed", aliasName)
        && aliasNameToImport.values == old(aliasNameToImport.values)[aliasName := Import("", "", aliasName)]
      ensures declarationName.Some? && declarationName.value != "" ==>
        var d := declarationName.value;
        FirstFreeProbe(old(aliasNameToImport.values), d, aliasName)
        && aliasNameToImport.values == old(aliasNameToImport.values)[aliasName := Import(modulePath, d, aliasName)]
    {
      if declarationName.None? || |declarationName.value| <= 0 {
        aliasName := CreateAnonymousAlias();
        return;
      }
      aliasName := PickAlias(declarationName.value);
      aliasNameToImport := aliasNameToImport.Set(aliasName, Import(modulePath, declarationName.value, aliasName));
    }

    /**
     * The import code for every recorded alias, in the order the aliases were
     * created (see `ImportsCode`).
     */
    method CreateImports(mainModulePath: Option<string>, cwd: seq<string>) returns (importCode: string)
      requires Valid()
      ensures importCode == ImportsCode(aliasNameToImport.Entries(), mainModulePath, cwd)
    {
      importCode := "";
      var entries := aliasNameToImport.Entries();
      var i := 0;
      while i < |entries|
        invariant 0 <= i <= |entries|
        invariant importCode == ImportsCode(entries[..i], mainModulePath, cwd)
      {
        var (aliasName, aliasImport) := entries[i];
        var line := EntryImport(aliasName, aliasImport, mainModulePath, cwd);
        importCode := importCode + line;
        ImportsCodeStep(entries, i, mainModulePath, cwd);
        i := i + 1;
      }
      assert entries[..|entries|] == entries;
    }
  }

  /**
   * One pass of the `createImports` loop: nothing for an anonymous entry or
   * the main module's own, otherwise the entry's import statement.
   */
  method EntryImport(aliasName: string, aliasImport: Import, mainModulePath: Option<string>, cwd: seq<string>)
    returns (line: string)
    ensures line == ImportLine(aliasName, aliasImport, mainModulePath, cwd)
  {
    if |aliasImport.declarationName| <= 0 {
      return "";
    }
    var typeName := aliasImport.declarationName;
    var modulePath := aliasImport.modulePath;
    if Some(modulePath) == mainModulePath {
      return "";
    }
    var relativeModulePath;
    if mainModulePath.Some? && mainModulePath.value != "" {
      var mainModuleDir := Dirname(mainModulePath.value);
      var moduleDir := Dirname(modulePath);
      relativeModulePath := Relative(cwd, mainModuleDir, modulePath);
      if mainModuleDir == moduleDir {
        relativeModulePath := "./" + relativeModulePath;
      }
    } else {
      // The template literal writes `mainModulePath` itself: "undefined" or "".
      relativeModulePath := if mainModulePath.None? then "undefined" else "";
    }
    assert relativeModulePath == FromSpecifier(modulePath, mainModulePath, cwd);
    if aliasName == typeName {
      line := UnaliasedImport(aliasName, relativeModulePath);
    } else {
      line := AliasedImport(typeName, aliasName, relativeModulePath);
    }
  }

  // ---------------------------------------------------------------------------
  // The import code, entry by entry.

  /**
   * The `from` specifier of an import: relative to the main module's folder,
   * with "./" in front when both modules share a folder; without a (truthy)
   * main module, the main module path itself as a template literal shows it.
   */
  function FromSpecifier(modulePath: string, mainModulePath: Option<string>, cwd: seq<string>): string {
    if mainModulePath.Some? && mainModulePath.value != "" then
      var mainModuleDir := Dirname(mainModulePath.value);
      var rel := Relative(cwd, mainModuleDir, modulePath);
      if mainModuleDir == Dirname(modulePath) then "./" + rel else rel
    else if mainModulePath.None? then "undefined"
    else ""
  }

  /** `import { type X } from "p";` and a line break. */
  function UnaliasedImport(aliasName: string, from: string): string {
    "import { type " + aliasName + " } from \"" + from + "\";\n"
  }

  /** `import { type X as Y } from "p";` with no line break. */
  function AliasedImport(typeName: string, aliasName: string, from: string): string {
    "import { type " + typeName + " as " + aliasName + " } from \"" + from + "\";"
  }

  /** The code `createImports` emits for one entry. */
  function ImportLine(aliasName: string, imp: Import, mainModulePath: Option<string>, cwd: seq<string>): string {
    if |imp.declarationName| == 0 || Some(imp.modulePath) == mainModulePath then ""
    else
      var from := FromSpecifier(imp.modulePath, mainModulePath, cwd);
      if aliasName == imp.declarationName then UnaliasedImport(aliasName, from)
      else AliasedImport(imp.declarationName, aliasName, from)
  }

  /** The code for a run of entries: each entry's code, in order. */
  function ImportsCode(entries: seq<(string, Import)>, mainModulePath: Option<string>, cwd: seq<string>): string
    decreases |entries|
  {
    if |entries| == 0 then ""
    else
      var last := entries[|entries| - 1];
      ImportsCode(entries[..|entries| - 1], mainModulePath, cwd) + ImportLine(last.0, last.1, mainModulePath, cwd)
  }

  lemma ImportsCodeStep(entries: seq<(string, Import)>, i: nat, main: Option<string>, cwd: seq<string>)
    requires i < |entries|
    ensures ImportsCode(entries[..i + 1], main, cwd)
      == ImportsCode(entries[..i], main, cwd) + ImportLine(entries[i].0, entries[i].1, main, cwd)
  {
    assert entries[..i + 1][..i] == entries[..i];
  }

  /** The code for two runs of entries is the first run's code followed by the second's. */
  lemma {:induction false} ImportsCodeConcat(a: seq<(string, Import)>, b: seq<(string, Import)>, main: Option<string>, cwd: seq<string>)
    ensures ImportsCode(a + b, main, cwd) == ImportsCode(a, main, cwd) + ImportsCode(b, main, cwd)
    decreases |b|
  {
    if |b| > 0 {
      assert (a + b)[..|a + b| - 1] == a + b[..|b| - 1];
      ImportsCodeConcat(a, b[..|b| - 1], main, cwd);
    } else {
      assert a + b == a;
    }
  }

  /** Anonymous entries and the main module's own entries contribute nothing. */
  lemma ImportLineSkips(aliasName: string, imp: Import, main: Option<string>, cwd: seq<string>)
    ensures imp.declarationName == "" ==> ImportLine(aliasName, imp, main, cwd) == ""
    ensures main == Some(imp.modulePath) ==> ImportLine(aliasName, imp, main, cwd) == ""
  {
  }

  /**
   * Every other entry is an import of its declaration: under its own name
   * when the alias is the declaration name, under the alias otherwise.
   */
  lemma ImportLineShape(aliasName: string, imp: Import, main: Option<string>, cwd: seq<string>)
    requires imp.declarationName != "" && main != Some(imp.modulePath)
    ensures var line := ImportLine(aliasName, imp, main, cwd);
      var from := FromSpecifier(imp.modulePath, main, cwd);
      && (aliasName == imp.declarationName ==> line == UnaliasedImport(aliasName, from))
      && (aliasName != imp.declarationName ==> line == AliasedImport(imp.declarationName, aliasName, from))
  {
  }

  /** An unaliased import ends its line; an aliased one ends with `;` and no line break. */
  lemma ImportEndings(typeName: string, aliasName: string, from: string)
    ensures var u := UnaliasedImport(aliasName, from); u[|u| - 1] == '\n'
    ensures var a := AliasedImport(typeName, aliasName, from); a[|a| - 1] == ';'
  {
    var u := UnaliasedImport(aliasName, from);
    var a := AliasedImport(typeName, aliasName, from);
    var uHead := "import { type " + aliasName + " } from \"" + from;
    var aHead := "import { type " + typeName + " as " + aliasName + " } from \"" + from;
    assert u == uHead + "\";\n";
    assert a == aHead + "\";";
  }

  /**
   * Two modules in the same folder `dir` import each other as "./name"; a
   * module one folder below the main module's is reached by its folder and
   * name, without "./".
   */
  lemma FromSpecifierSiblings(cwd: seq<string>, dir: string, mainName: string, name: string)
    requires WorkingDirectory(cwd) && NormalPath(dir) && NormalSegment(mainName) && NormalSegment(name)
    ensures FromSpecifier(dir + "/" + name, Some(dir + "/" + mainName), cwd) == "./" + name
  {
    DirnameOfChild(dir, mainName);
    DirnameOfChild(dir, name);
    assert NormalPath(name) by {
      NoSeparatorSplit(name, '/');
    }
    RelativeBelow(cwd, dir, name);
  }

  lemma FromSpecifierChildFolder(cwd: seq<string>, dir: string, mainName: string, sub: string, name: string)
    requires WorkingDirectory(cwd) && NormalPath(dir)
    requires NormalSegment(mainName) && NormalSegment(sub) && NormalSegment(name)
    ensures FromSpecifier(dir + "/" + sub + "/" + name, Some(dir + "/" + mainName), cwd) == sub + "/" + name
  {
    var subDir := dir + "/" + sub;
    var rest := sub + "/" + name;
    assert NormalPath(sub) by {
      NoSeparatorSplit(sub, '/');
    }
    assert NormalPath(name) by {
      NoSeparatorSplit(name, '/');
    }
    JoinNormal(dir, sub);
    JoinNormal(sub, name);
    DirnameOfChild(dir, mainName);
    DirnameOfChild(subDir, name);
    assert dir + "/" + sub + "/" + name == dir + "/" + rest;
    DirnameDiffers(dir, sub);
    RelativeBelow(cwd, dir, rest);
  }

  lemma DirnameDiffers(dir: string, sub: string)
    ensures dir + "/" + sub != dir
  {
    assert |dir + "/" + sub| > |dir|;
  }

  /** Two aliased imports in a row run together on one line: no line break after the first. */
  lemma AliasedImportsShareLine(a1: string, i1: Import, a2: string, i2: Import, main: Option<string>, cwd: seq<string>)
    requires i1.declarationName != "" && a1 != i1.declarationName && main != Some(i1.modulePath)
    requires i2.declarationName != "" && a2 != i2.declarationName && main != Some(i2.modulePath)
    ensures var first := ImportLine(a1, i1, main, cwd);
      && ImportsCode([(a1, i1), (a2, i2)], main, cwd) == first + ImportLine(a2, i2, main, cwd)
      && first[|first| - 1] == ';'
  {
    var es := [(a1, i1), (a2, i2)];
    assert es[..1] == [(a1, i1)];
    assert es[..1][..0] == [];
    assert ImportsCode(es[..1], main, cwd) == ImportLine(a1, i1, main, cwd);
    ImportLineShape(a1, i1, main, cwd);
    ImportEndings(i1.declarationName, a1, FromSpecifier(i1.modulePath, main, cwd));
  }
}
