// The subset of glob patterns the cleanup scripts use, over `/`-separated
// relative paths: `src/**/*.{e1,e2,...}`, `src/**/internal/**/*.{...}`
// and the ignore patterns `**/__tests__/**` and `**/*.d.ts`. As in the
// glob library's default, `*` and `**` never match a name that starts
// with ".".
module Globs {
  import opened Strings
  import opened Paths
  import opened OrderedMaps

  // `*.{e1,e2,...}` on one name: not a dot-name, and ending in "." and one of the extensions.
  predicate MatchesExtensions(name: string, exts: seq<string>) {
    |name| > 0 && name[0] != '.' && exists k :: 0 <= k < |exts| && EndsWith(name, "." + exts[k])
  }

  // Every segment of the path is a name `**` can walk through.
  predicate Walkable(segs: seq<string>) {
    forall k :: 0 <= k < |segs| ==> segs[k] != "" && segs[k][0] != '.'
  }

  // `src/**/*.{exts}`: a file at any depth below "src" with one of the extensions.
  predicate UnderSrc(p: string, exts: seq<string>) {
    var segs := SplitOn(p, '/');
    |segs| >= 2 && segs[0] == "src" && Walkable(segs) && MatchesExtensions(segs[|segs| - 1], exts)
  }

  // `**/name/**`: some folder on the path is called `name`.
  predicate InFolder(p: string, name: string) {
    var segs := SplitOn(p, '/');
    exists k :: 0 <= k < |segs| - 1 && segs[k] == name
  }

  // `src/**/internal/**/*.{exts}`: below "src", inside a folder called "internal".
  predicate UnderSrcInternal(p: string, exts: seq<string>) {
    var segs := SplitOn(p, '/');
    UnderSrc(p, exts) && exists k :: 1 <= k < |segs| - 1 && segs[k] == "internal"
  }

  // `**/*.d.ts`: a declaration file.
  predicate IsDeclarationFile(p: string) {
    var segs := SplitOn(p, '/');
    |segs| > 0 && |segs[|segs| - 1]| > 0 && segs[|segs| - 1][0] != '.' && EndsWith(segs[|segs| - 1], ".d.ts")
  }

  // The file list a glob returns: each matching file once, and nothing else.
  ghost predicate GlobResult(files: set<string>, matches: string -> bool, result: seq<string>) {
    Distinct(result) && (forall p :: p in result <==> p in files && matches(p))
  }

  // A file below "src" lies in the folder its path names without the last
  // segment, which is never the working directory ".".
  lemma SourceFolder(p: string, exts: seq<string>)
    requires UnderSrc(p, exts)
    ensures var segs := SplitOn(p, '/');
      Dirname(p) == Join(segs[..|segs| - 1], "/") && Dirname(p) != "."
  {
    var segs := SplitOn(p, '/');
    var n := |segs|;
    assert forall k :: 0 <= k < n ==> NormalSegment(segs[k]) by {
      forall k | 0 <= k < n ensures NormalSegment(segs[k]) {
        assert segs[k][0] != '.';
      }
    }
    var front := segs[..n - 1];
    var dir := Join(front, "/");
    SplitOnJoin(front, '/');
    assert NormalPath(dir);
    JoinSplitOn(p, '/');
    assert segs == front + [segs[n - 1]];
    JoinAppend(front, segs[n - 1], "/");
    DirnameOfChild(dir, segs[n - 1]);
    assert SplitOn(dir, '/')[0] == "src";
  }
}
