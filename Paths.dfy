/**
 * The POSIX functions of Node's `node:path` module that the scripts call:
 * `normalize`, `join`, `resolve`, `relative`, `dirname`, `basename` and
 * `extname`. A process working directory is passed explicitly as the list of
 * its segments wherever Node would consult it.
 */
module Paths {
  import opened Strings

  // ---------------------------------------------------------------------------
  // Segments.

  /** A segment that names an entry: not empty, not `.` or `..`, no separator. */
  predicate NormalSegment(s: string) {
    s != "" && s != "." && s != ".." && '/' !in s
  }

  /** A relative path in normal form: one or more normal segments joined by `/`. */
  predicate NormalPath(p: string) {
    var parts := SplitOn(p, '/');
    forall i :: 0 <= i < |parts| ==> NormalSegment(parts[i])
  }

  /** The pieces between separators, without the empty and `.` ones. */
  function Segments(p: string): (segs: seq<string>)
    ensures forall i :: 0 <= i < |segs| ==> segs[i] != "" && segs[i] != "."
  {
    KeepNamed(SplitOn(p, '/'))
  }

  function KeepNamed(parts: seq<string>): (segs: seq<string>)
    ensures forall i :: 0 <= i < |segs| ==> segs[i] != "" && segs[i] != "."
    decreases |parts|
  {
    if |parts| == 0 then []
    else
      var init := KeepNamed(parts[..|parts| - 1]);
      var last := parts[|parts| - 1];
      if last == "" || last == "." then init else init + [last]
  }

  /**
   * Resolving `..` as `normalizeString` does: it removes the previous segment
   * unless that is itself `..`; with nothing to remove it is kept when
   * `aboveRoot` (relative paths) and dropped otherwise (absolute paths).
   */
  function ResolveDots(segs: seq<string>, aboveRoot: bool): seq<string>
    decreases |segs|
  {
    if |segs| == 0 then []
    else
      var init := ResolveDots(segs[..|segs| - 1], aboveRoot);
      var last := segs[|segs| - 1];
      if last != ".." then init + [last]
      else if |init| > 0 && init[|init| - 1] != ".." then init[..|init| - 1]
      else if aboveRoot then init + [".."]
      else init
  }

  /** `path.normalize(p)`. */
  function Normalize(p: string): string {
    if |p| == 0 then "."
    else
      var absolute := p[0] == '/';
      var trailing := p[|p| - 1] == '/';
      var body := Join(ResolveDots(Segments(p), !absolute), "/");
      if |body| == 0 then (if absolute then "/" else if trailing then "./" else ".")
      else (if absolute then "/" else "") + body + (if trailing then "/" else "")
  }

  /** `path.join(a, b)`: the non-empty arguments joined by `/`, then normalised. */
  function Join2(a: string, b: string): string {
    if |a| == 0 && |b| == 0 then "."
    else if |a| == 0 then Normalize(b)
    else if |b| == 0 then Normalize(a)
    else Normalize(a + "/" + b)
  }

  /** `path.resolve(p)` as segments of an absolute path, given the working directory's. */
  function Resolve(cwd: seq<string>, p: string): seq<string> {
    if |p| > 0 && p[0] == '/' then ResolveDots(Segments(p), false)
    else ResolveDots(cwd + Segments(p), false)
  }

  /** The number of leading segments two absolute paths share. */
  function CommonPrefixLength(a: seq<string>, b: seq<string>): (k: nat)
    ensures k <= |a| && k <= |b|
    ensures a[..k] == b[..k]
    ensures k < |a| && k < |b| ==> a[k] != b[k]
    decreases |a|
  {
    if |a| == 0 || |b| == 0 || a[0] != b[0] then 0
    else
      var k := 1 + CommonPrefixLength(a[1..], b[1..]);
      assert a[..k] == [a[0]] + a[1..][..k - 1];
      assert b[..k] == [b[0]] + b[1..][..k - 1];
      k
  }

  function Ups(n: nat): (r: seq<string>)
    ensures |r| == n && forall i :: 0 <= i < n ==> r[i] == ".."
  {
    if n == 0 then [] else Ups(n - 1) + [".."]
  }

  /**
   * `path.relative(from, to)`: leave the part of `from` that `to` does not
   * share with `..` segments, then descend into the rest of `to`.
   */
  function Relative(cwd: seq<string>, from: string, to: string): string {
    if from == to then "" else RelativeSegments(Resolve(cwd, from), Resolve(cwd, to))
  }

  /** The relative path between two resolved paths, given as their segments. */
  function RelativeSegments(f: seq<string>, t: seq<string>): string {
    if f == t then ""
    else
      var k := CommonPrefixLength(f, t);
      Join(Ups(|f| - k) + t[k..], "/")
  }

  // ---------------------------------------------------------------------------
  // dirname, basename, extname.

  /**
   * The scan `dirname` runs from the right over indices `i` down to 1: the
   * first separator met after a non-separator, or -1.
   */
  function DirnameEnd(p: string, i: int, matchedSlash: bool): (e: int)
    requires i < |p|
    ensures e == -1 || (1 <= e <= i && p[e] == '/')
    decreases i
  {
    if i < 1 then -1
    else if p[i] == '/' then (if !matchedSlash then i else DirnameEnd(p, i - 1, matchedSlash))
    else DirnameEnd(p, i - 1, false)
  }

  /** `path.dirname(p)`. */
  function Dirname(p: string): string {
    if |p| == 0 then "."
    else
      var end := DirnameEnd(p, |p| - 1, true);
      if end == -1 then (if p[0] == '/' then "/" else ".")
      else if p[0] == '/' && end == 1 then "//"
      else p[..end]
  }

  /** One past the last non-separator of `p`, or -1 when it holds none. */
  function LastNonSlashEnd(p: string): (e: int)
    ensures e == -1 || (1 <= e <= |p| && p[e - 1] != '/')
    ensures forall i :: (if e == -1 then 0 else e) <= i < |p| ==> p[i] == '/'
    decreases |p|
  {
    if |p| == 0 then -1
    else if p[|p| - 1] != '/' then |p|
    else LastNonSlashEnd(p[..|p| - 1])
  }

  /** `path.basename(p)`: the last run of non-separators. */
  function Basename(p: string): (b: string)
    ensures '/' !in b && |b| <= |p|
  {
    var end := LastNonSlashEnd(p);
    if end == -1 then ""
    else
      var start := LastIndexOf(p[..end], '/') + 1;
      assert forall i :: start <= i < end ==> p[..end][i] != '/';
      p[start..end]
  }

  /**
   * `path.basename(p, suffix)` for a non-empty suffix: the base name with the
   * suffix cut off, unless nothing would be left.
   */
  function BasenameWithout(p: string, suffix: string): string {
    var b := Basename(p);
    if |suffix| == 0 then b
    else if p == suffix then ""
    else if |b| > |suffix| && EndsWith(b, suffix) then b[..|b| - |suffix|]
    else b
  }

  /**
   * `path.extname(p)`: from the last `.` of the base name to its end, unless
   * that dot starts the base name or the base name is `..`.
   */
  function Extname(p: string): (e: string)
    ensures e == "" || (e[0] == '.' && EndsWith(Basename(p), e) && |e| < |Basename(p)|)
  {
    var b := Basename(p);
    var d := LastIndexOf(b, '.');
    if d <= 0 || b == ".." then "" else b[d..]
  }

  // ---------------------------------------------------------------------------
  // Normal paths.

  lemma NormalPathEnds(p: string)
    requires NormalPath(p)
    ensures |p| > 0 && p[0] != '/' && p[|p| - 1] != '/'
  {
    var parts := SplitOn(p, '/');
    assert NormalSegment(parts[0]);
    JoinSplitOn(p, '/');
    JoinLastChar(parts);
  }

  lemma {:induction false} JoinLastChar(parts: seq<string>)
    requires |parts| >= 1 && |parts[|parts| - 1]| > 0
    ensures var j := Join(parts, "/"); |j| > 0 && j[|j| - 1] == parts[|parts| - 1][|parts[|parts| - 1]| - 1]
    decreases |parts|
  {
    if |parts| > 1 {
      JoinLastChar(parts[1..]);
    }
  }

  lemma {:induction false} KeepNamedNormal(parts: seq<string>)
    requires forall i :: 0 <= i < |parts| ==> NormalSegment(parts[i])
    ensures KeepNamed(parts) == parts
    decreases |parts|
  {
    if |parts| > 0 {
      KeepNamedNormal(parts[..|parts| - 1]);
    }
  }

  /** Without `..` segments, resolving dots changes nothing. */
  lemma {:induction false} ResolveDotsPlain(segs: seq<string>, aboveRoot: bool)
    requires forall i :: 0 <= i < |segs| ==> segs[i] != ".."
    ensures ResolveDots(segs, aboveRoot) == segs
    decreases |segs|
  {
    if |segs| > 0 {
      ResolveDotsPlain(segs[..|segs| - 1], aboveRoot);
    }
  }

  /** The segments of a normal path are its `/`-separated pieces. */
  lemma NormalSegments(p: string)
    requires NormalPath(p)
    ensures Segments(p) == SplitOn(p, '/')
    ensures ResolveDots(Segments(p), true) == SplitOn(p, '/')
    ensures ResolveDots(Segments(p), false) == SplitOn(p, '/')
  {
    KeepNamedNormal(SplitOn(p, '/'));
    ResolveDotsPlain(SplitOn(p, '/'), true);
    ResolveDotsPlain(SplitOn(p, '/'), false);
  }

  /** A normal path is its own normal form. */
  lemma NormalizeNormal(p: string)
    requires NormalPath(p)
    ensures Normalize(p) == p
  {
    NormalPathEnds(p);
    NormalSegments(p);
    JoinSplitOn(p, '/');
    var body := Join(ResolveDots(Segments(p), true), "/");
    assert body == p;
    assert |body| != 0;
  }

  /** Joining two normal paths puts one separator between them. */
  lemma JoinNormal(a: string, b: string)
    requires NormalPath(a) && NormalPath(b)
    ensures NormalPath(a + "/" + b)
    ensures Join2(a, b) == a + "/" + b
  {
    NormalPathEnds(a);
    NormalPathEnds(b);
    SplitOnConcat(a, b, '/');
    var A, B := SplitOn(a, '/'), SplitOn(b, '/');
    assert forall i :: 0 <= i < |A + B| ==> NormalSegment((A + B)[i]) by {
      forall i | 0 <= i < |A + B| ensures NormalSegment((A + B)[i]) {
        if i >= |A| {
          assert (A + B)[i] == B[i - |A|];
        }
      }
    }
    NormalizeNormal(a + "/" + b);
  }

  /** The working directory of a process: an absolute path, so only normal segments. */
  predicate WorkingDirectory(cwd: seq<string>) {
    forall i :: 0 <= i < |cwd| ==> NormalSegment(cwd[i])
  }

  /** Relative normal paths resolve to the working directory followed by their segments. */
  lemma ResolveNormal(cwd: seq<string>, p: string)
    requires WorkingDirectory(cwd) && NormalPath(p)
    ensures Resolve(cwd, p) == cwd + SplitOn(p, '/')
  {
    NormalPathEnds(p);
    NormalSegments(p);
    var P := SplitOn(p, '/');
    assert forall i :: 0 <= i < |cwd + P| ==> (cwd + P)[i] != ".." by {
      forall i | 0 <= i < |cwd + P| ensures (cwd + P)[i] != ".." {
        if i >= |cwd| {
          assert (cwd + P)[i] == P[i - |cwd|];
        }
      }
    }
    ResolveDotsPlain(cwd + P, false);
  }

  /** A path below `root` is reached from `root` by the rest of its segments. */
  lemma RelativeBelow(cwd: seq<string>, root: string, rest: string)
    requires WorkingDirectory(cwd) && NormalPath(root) && NormalPath(rest)
    ensures Relative(cwd, root, root + "/" + rest) == rest
  {
    var p := root + "/" + rest;
    var X := SplitOn(rest, '/');
    assert Resolve(cwd, p) == Resolve(cwd, root) + X by {
      JoinNormal(root, rest);
      ResolveNormal(cwd, root);
      ResolveNormal(cwd, p);
      SplitOnConcat(root, rest, '/');
      AppendAssoc(cwd, SplitOn(root, '/'), X);
    }
    RelativeOfExtension(cwd, root, p, X);
    JoinSplitOn(rest, '/');
  }

  lemma CommonPrefixOfExtension(f: seq<string>, x: seq<string>)
    ensures CommonPrefixLength(f, f + x) == |f|
  {
    var k := CommonPrefixLength(f, f + x);
    assert forall i :: 0 <= i < |f| ==> (f + x)[i] == f[i];
  }

  lemma RelativeOfExtension(cwd: seq<string>, from: string, to: string, x: seq<string>)
    requires |x| >= 1
    requires Resolve(cwd, to) == Resolve(cwd, from) + x
    ensures Relative(cwd, from, to) == Join(x, "/")
  {
    var f, t := Resolve(cwd, from), Resolve(cwd, to);
    assert from != to by {
      assert |t| > |f|;
    }
    CommonPrefixOfExtension(f, x);
    assert t[|f|..] == x;
    assert Ups(0) + x == x;
  }

  /** `dirname` of `dir/name` is `dir` when `name` is a single segment. */
  lemma DirnameOfChild(dir: string, name: string)
    requires NormalPath(dir) && NormalSegment(name)
    ensures Dirname(dir + "/" + name) == dir
  {
    var p := dir + "/" + name;
    NormalPathEnds(dir);
    DirnameScansName(p, |dir|, |p| - 1);
  }

  /** The right-to-left scan crosses `name` and stops at the separator before it. */
  lemma {:induction false} DirnameScansName(p: string, sep: nat, i: nat)
    requires 1 <= sep < i < |p| && p[sep] == '/'
    requires forall j :: sep < j < |p| ==> p[j] != '/'
    ensures DirnameEnd(p, i, true) == sep
    ensures DirnameEnd(p, i, false) == sep
    decreases i
  {
    if i - 1 > sep {
      DirnameScansName(p, sep, i - 1);
    }
  }

  /** `basename` of `dir/name` is `name` when `name` is a single segment. */
  lemma BasenameOfChild(dir: string, name: string)
    requires NormalSegment(name)
    ensures Basename(dir + "/" + name) == name
    ensures Basename(name) == name
  {
    var p := dir + "/" + name;
    assert p[|p| - 1] == name[|name| - 1];
    assert p[..|p|] == p;
    var start := LastIndexOf(p, '/') + 1;
    assert p[|dir|] == '/';
    assert start == |dir| + 1 by {
      forall j | |dir| < j < |p| ensures p[j] != '/' {
        assert p[j] == name[j - |dir| - 1];
      }
    }
    assert p[start..] == name;
    assert name[..|name|] == name;
  }
  /** A leading `.` or empty piece is dropped. */
  lemma {:induction false} KeepNamedDot(d: string, parts: seq<string>)
    requires d == "" || d == "."
    ensures KeepNamed([d] + parts) == KeepNamed(parts)
    decreases |parts|
  {
    if |parts| > 0 {
      var all := [d] + parts;
      assert all[..|all| - 1] == [d] + parts[..|parts| - 1];
      assert all[|all| - 1] == parts[|parts| - 1];
      KeepNamedDot(d, parts[..|parts| - 1]);
    } else {
      assert ([d] + parts)[..0] == [];
    }
  }

  /** A leading "./" changes neither the segments nor the normal form of a normal path. */
  lemma DotSlash(cwd: seq<string>, p: string)
    requires NormalPath(p)
    ensures Segments("./" + p) == Segments(p)
    ensures Resolve(cwd, "./" + p) == Resolve(cwd, p)
    ensures Normalize("./" + p) == p
  {
    NormalPathEnds(p);
    assert "./" + p == "." + ['/'] + p;
    SplitOnConcat(".", p, '/');
    var dot := ".";
    var rest: seq<string> := [""];
    assert dot[0] == '.' && dot[1..] == "" && SplitOn(dot[1..], '/') == rest;
    assert [dot[0]] + rest[0] == dot && rest[1..] == [];
    assert SplitOn(dot, '/') == ["."];
    KeepNamedDot(".", SplitOn(p, '/'));
    var q := "./" + p;
    assert q[|q| - 1] == p[|p| - 1];
    NormalizeNormal(p);
  }

  /** `relative` from "./" + `root` is `relative` from `root`, for any other target. */
  lemma RelativeFromDotSlash(cwd: seq<string>, root: string, to: string)
    requires NormalPath(root) && to != root && to != "./" + root
    ensures Relative(cwd, "./" + root, to) == Relative(cwd, root, to)
  {
    DotSlash(cwd, root);
    RelativeFromSame(cwd, "./" + root, root, to);
  }

  /** `relative` depends on where `from` resolves to, not on how it is written. */
  lemma RelativeFromSame(cwd: seq<string>, a: string, b: string, to: string)
    requires Resolve(cwd, a) == Resolve(cwd, b) && to != a && to != b
    ensures Relative(cwd, a, to) == Relative(cwd, b, to)
  {
    var r := RelativeSegments(Resolve(cwd, a), Resolve(cwd, to));
    assert Relative(cwd, a, to) == r;
    assert Relative(cwd, b, to) == r;
  }
  /** "src/" + `rest` is the folder "src" joined with `rest` by a separator. */
  lemma SrcPrefix(rest: string)
    ensures "src/" + rest == "src" + "/" + rest
  {
    assert "src" + "/" == "src/";
  }

  /** A single normal segment is a normal path. */
  lemma SegmentPath(s: string)
    requires NormalSegment(s)
    ensures NormalPath(s)
  {
    NoSeparatorSplit(s, '/');
  }

  /** `join` onto "./" + `root` is `join` onto `root`. */
  lemma JoinOntoDotSlash(root: string, rest: string)
    requires NormalPath(root) && NormalPath(rest)
    ensures Join2("./" + root, rest) == root + "/" + rest
  {
    JoinNormal(root, rest);
    NormalPathEnds(rest);
    var x := root + "/" + rest;
    assert "./" + root + "/" + rest == "./" + x;
    DotSlash([], x);
    assert Join2("./" + root, rest) == Normalize("./" + x);
  }

  /** `join` onto "." is the identity on normal paths. */
  lemma JoinOntoDot(p: string)
    requires NormalPath(p)
    ensures Join2(".", p) == p
  {
    NormalPathEnds(p);
    assert "." + "/" + p == "./" + p;
    DotSlash([], p);
  }
}
