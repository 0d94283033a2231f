/**
 * The TypeDoc plugin that tags every module found in a folder called
 * "internal" with the `@internal` modifier. A module's folder is read off
 * the first of its source files that lies below a "src" folder.
 */
module TypeDocTagInternal {
  import opened Wrappers
  import opened Strings
  import opened TypeDocHost

  /** The modifier tag the plugin adds. */
  const INTERNAL_TAG: string := "@internal"

  /** The reflection after `markInternal`: its comment, created empty if missing, carries the tag. */
  function Mark(r: Reflection): (m: Reflection)
    ensures m.comment.Some? && INTERNAL_TAG in m.comment.value.modifierTags
    ensures m.comment.value.modifierTags == (if r.comment.Some? then r.comment.value.modifierTags else {}) + {INTERNAL_TAG}
    ensures r.comment.Some? ==> m.comment.value.summary == r.comment.value.summary
    ensures r.comment.Some? ==> m.comment.value.blockTags == r.comment.value.blockTags
    ensures r.comment.None? ==> m.comment.value.summary == [] && m.comment.value.blockTags == []
    ensures m.(comment := r.comment) == r
  {
    if r.comment.Some? then
      var c := r.comment.value;
      r.(comment := Some(c.(modifierTags := c.modifierTags + {INTERNAL_TAG})))
    else
      r.(comment := Some(Comment([], [], {INTERNAL_TAG})))
  }

  /** The arena with exactly the reflections of `ids` marked. */
  function MarkAt(rs: seq<Reflection>, ids: set<nat>): (r: seq<Reflection>)
    ensures |r| == |rs|
    ensures forall i :: 0 <= i < |rs| ==> r[i] == if i in ids then Mark(rs[i]) else rs[i]
  {
    seq(|rs|, i requires 0 <= i < |rs| => if i in ids then Mark(rs[i]) else rs[i])
  }

  /** `markInternal(reflection)`: adds the tag to the existing comment, or gives it a new comment. */
  method MarkInternal(project: Project, id: nat)
    requires id < |project.reflections|
    modifies project
    ensures project.reflections == old(project.reflections)[id := Mark(old(project.reflections)[id])]
  {
    var reflection := project.reflections[id];
    var comment := reflection.comment;
    if comment.Some? {
      var modifierTags := comment.value.modifierTags + {INTERNAL_TAG};
      comment := Some(comment.value.(modifierTags := modifierTags));
    } else {
      var modifierTags := {INTERNAL_TAG};
      comment := Some(Comment([], [], modifierTags));
    }
    project.reflections := project.reflections[id := reflection.(comment := comment)];
  }

  /**
   * `markAllChildrenInternal(root)`: pops reflections off a stack, marks
   * each and pushes its children, until the stack is empty. Every
   * descendant of the root ends up marked and nothing else changes.
   */
  method MarkAllChildrenInternal(project: Project, root: nat)
    requires project.Valid() && root < |project.reflections|
    modifies project
    ensures project.reflections == MarkAt(old(project.reflections), Descendants(Shape(old(project.reflections)), root))
    ensures project.Valid()
  {
    ghost var rs := project.reflections;
    ghost var shape := Shape(rs);
    ghost var done: set<nat> := {};
    var stack: seq<nat> := [root];
    while |stack| > 0
      invariant Within(shape, -1, stack)
      invariant project.reflections == MarkAt(rs, done)
      invariant done <= Descendants(shape, root)
      invariant Reach(shape, -1, stack) <= Descendants(shape, root)
      invariant Descendants(shape, root) <= done + Reach(shape, -1, stack)
      decreases Visits(shape, -1, stack)
    {
      WalkStep(shape, root, done, stack);
      var x := stack[|stack| - 1];
      stack := stack[..|stack| - 1];
      MarkInternal(project, x);
      MarkAtStep(rs, done, x);
      done := done + {x};
      var reflection := project.reflections[x];
      assert ChildrenOf(reflection) == shape[x];
      if reflection.children.Some? {
        stack := stack + reflection.children.value;
      } else {
        assert stack + shape[x] == stack;
      }
    }
    ShapeMarkAt(rs, done);
  }

  // ---------------------------------------------------------------------------
  // The folder of a declaration: `/\/src\/(.+)\/.+$|\/src\/().*$/`.

  /** What `.` matches: anything but a line terminator. */
  predicate LineChar(c: char) {
    c != '\n' && c != '\r' && c != '\U{2028}' && c != '\U{2029}'
  }

  /** Text that `.*` matches to the end. */
  predicate SingleLine(t: string) {
    forall j :: 0 <= j < |t| ==> LineChar(t[j])
  }

  /** The expression can match at `i`: "/src/" starts there and no line terminator follows. */
  predicate SrcAt(s: string, i: nat) {
    i + 5 <= |s| && s[i..i + 5] == "/src/" && SingleLine(s[i + 5..])
  }

  /** The last "/" at an index from `lo` to `hi`. */
  function LastSlash(s: string, lo: nat, hi: int): (r: Option<nat>)
    requires hi < |s|
    ensures r.Some? ==> lo <= r.value <= hi && s[r.value] == '/' && forall k :: r.value < k <= hi ==> s[k] != '/'
    ensures r.None? ==> forall k :: lo <= k <= hi ==> s[k] != '/'
    decreases hi - lo
  {
    if hi < lo then None
    else if s[hi] == '/' then Some(hi)
    else LastSlash(s, lo, hi - 1)
  }

  /**
   * The captured folder, given the text `t` after "/src/": the first
   * alternative, tried first, takes the longest non-empty text before a "/"
   * that still leaves a non-empty file name; failing that, the second
   * captures "".
   */
  function Group(t: string): string {
    if |t| < 3 then ""
    else
      match LastSlash(t, 1, |t| - 2)
      case Some(j) => t[..j]
      case None => ""
  }

  /** `regExp.exec(fileName)`, searching from `i`: the group of the leftmost match, or no match. */
  function MatchFolder(s: string, i: nat): Option<string>
    decreases |s| - i
  {
    if i + 5 > |s| then None
    else if SrcAt(s, i) then Some(Group(s[i + 5..]))
    else MatchFolder(s, i + 1)
  }

  /** The folder named by the first source file that matches. */
  function FirstFolder(sources: seq<SourceReference>): Option<string> {
    if |sources| == 0 then None
    else
      var m := MatchFolder(sources[0].fileName, 0);
      if m.Some? then m else FirstFolder(sources[1..])
  }

  /** What `#getFolder` throws when no source file lies below "src". */
  const NO_SOURCE_MATCHED: Exception :=
    Error("Source files are expected to be in path \"src/{ModuleName}/SomeFile.SomeFormat\". None matched.")

  /**
   * `#getFolder(declaration)`: without source files, "" for the root barrel
   * "index" and the module's own name otherwise; with source files, the
   * folder of the first one below "src".
   */
  function FolderOf(declaration: Reflection): Result<string, Exception> {
    if declaration.sources.None? || |declaration.sources.value| == 0 then
      Success(if declaration.name == "index" then "" else declaration.name)
    else
      match FirstFolder(declaration.sources.value)
      case Some(folder) => Success(folder)
      case None => Failure(NO_SOURCE_MATCHED)
  }

  /** The search loop of `#getFolder`. */
  method GetFolder(declaration: Reflection) returns (r: Result<string, Exception>)
    ensures r == FolderOf(declaration)
  {
    var sources := declaration.sources;
    if sources.None? || |sources.value| <= 0 {
      if declaration.name == "index" {
        return Success("");
      } else {
        return Success(declaration.name);
      }
    }
    var list := sources.value;
    for i := 0 to |list|
      invariant FirstFolder(list) == FirstFolder(list[i..])
    {
      assert list[i..][1..] == list[i + 1..];
      var matches := MatchFolder(list[i].fileName, 0);
      if matches.Some? {
        return Success(matches.value);
      }
    }
    return Failure(NO_SOURCE_MATCHED);
  }

  // ---------------------------------------------------------------------------
  // The plugin object.

  class TagInternalPlugin {
    /** The application the plugin is bound to, or `undefined`. */
    var application: Application?

    constructor ()
      ensures application == null
    {
      application := null;
    }

    /** `bind(application)`: fails when bound, otherwise remembers the application and registers the handler. */
    method Bind(app: Application) returns (r: Result<(), Exception>)
      modifies this, app.converter
      ensures old(application) != null ==> (
        r == Failure(ALREADY_BOUND) && application == old(application)
        && app.converter.listeners == old(app.converter.listeners))
      ensures old(application) == null ==> (
        r == Success(()) && application == app
        && app.converter.listeners == old(app.converter.listeners) + [Listener(EVENT_CREATE_DECLARATION, this)])
    {
      if application != null {
        return Failure(ALREADY_BOUND);
      }
      application := app;
      app.converter.On(EVENT_CREATE_DECLARATION, this);
      r := Success(());
    }

    /** `unbind()`: does nothing when unbound, otherwise forgets the application and unregisters the handler. */
    method Unbind()
      modifies this, if application != null then {application.converter} else {}
      ensures application == null
      ensures old(application) != null ==> (
        old(application).converter.listeners
        == Without(old(application.converter.listeners), Listener(EVENT_CREATE_DECLARATION, this)))
    {
      if application == null {
        return;
      }
      var app := application;
      application := null;
      app.converter.Off(EVENT_CREATE_DECLARATION, this);
    }

    /**
     * The `createDeclaration` handler: the declaration is marked when its
     * folder has a segment called "internal"; an error of `#getFolder`
     * propagates and leaves the reflections as they were.
     */
    method OnCreateDeclaration(project: Project, id: nat) returns (r: Result<(), Exception>)
      requires id < |project.reflections|
      modifies project
      ensures var folder := FolderOf(old(project.reflections[id]));
        && (folder.Failure? ==> r == Failure(folder.error) && project.reflections == old(project.reflections))
        && (folder.Success? ==> (
              r == Success(()) && project.reflections == (
                if HasInternalSegment(folder.value)
                then old(project.reflections)[id := Mark(old(project.reflections[id]))]
                else old(project.reflections))))
    {
      var declaration := project.reflections[id];
      var folder := GetFolder(declaration);
      if folder.Failure? {
        return Failure(folder.error);
      }
      if HasInternalSegment(folder.value) {
        MarkInternal(project, id);
      }
      r := Success(());
    }
  }

  // ---------------------------------------------------------------------------
  // Properties.

  /** Marking twice is marking once: the tags form a set. */
  lemma MarkIdempotent(r: Reflection)
    ensures Mark(Mark(r)) == Mark(r)
  {
  }

  /** Marking a reflection that a marked arena holds changes nothing more. */
  lemma MarkAtStep(rs: seq<Reflection>, done: set<nat>, x: nat)
    requires x < |rs|
    ensures MarkAt(rs, done)[x := Mark(MarkAt(rs, done)[x])] == MarkAt(rs, done + {x})
  {
    MarkIdempotent(rs[x]);
  }

  /** Marking leaves every reflection's children alone. */
  lemma ShapeMarkAt(rs: seq<Reflection>, ids: set<nat>)
    ensures Shape(MarkAt(rs, ids)) == Shape(rs)
  {
  }

  /** One pass of the loop keeps the walk's invariants and shortens what is left of it. */
  lemma WalkStep(shape: seq<seq<nat>>, root: nat, done: set<nat>, stack: seq<nat>)
    requires Ordered(shape) && root < |shape| && |stack| > 0 && Within(shape, -1, stack)
    requires done <= Descendants(shape, root)
    requires Reach(shape, -1, stack) <= Descendants(shape, root)
    requires Descendants(shape, root) <= done + Reach(shape, -1, stack)
    ensures var x := stack[|stack| - 1]; var next := stack[..|stack| - 1] + shape[x];
      && x < |shape|
      && Within(shape, -1, next)
      && done + {x} <= Descendants(shape, root)
      && Reach(shape, -1, next) <= Descendants(shape, root)
      && Descendants(shape, root) <= done + {x} + Reach(shape, -1, next)
      && Visits(shape, -1, next) < Visits(shape, -1, stack)
  {
    var front, x := stack[..|stack| - 1], stack[|stack| - 1];
    assert stack == front + [x];
    assert Within(shape, -1, front);
    ReachAppend(shape, -1, front, [x]);
    DescendantsStep(shape, x);
    ReachAppend(shape, -1, front, shape[x]);
  }

  /** Skipping positions where the expression cannot match. */
  lemma {:induction false} MatchFolderSkip(s: string, i: nat, k: nat)
    requires i <= k <= |s|
    requires forall j :: i <= j < k ==> !SrcAt(s, j)
    ensures MatchFolder(s, i) == MatchFolder(s, k)
    decreases k - i
  {
    if i < k {
      MatchFolderSkip(s, i + 1, k);
    }
  }

  /** Where "/src/" follows the prefix and nothing earlier can match, the match is there. */
  lemma MatchAfterPrefix(prefix: string, rest: string)
    requires SingleLine(rest)
    requires forall j :: 0 <= j < |prefix| ==> !SrcAt(prefix + "/src/" + rest, j)
    ensures MatchFolder(prefix + "/src/" + rest, 0) == Some(Group(rest))
  {
    var s := prefix + "/src/" + rest;
    var i := |prefix|;
    MatchFolderSkip(s, 0, i);
    assert s[i..i + 5] == "/src/" && s[i + 5..] == rest;
  }

  /**
   * Below "src", the folder is the text between "/src/" and the last "/":
   * ".../src/A/B/F.ts" gives "A/B".
   */
  lemma FolderBetweenSrcAndFile(prefix: string, folder: string, file: string)
    requires |folder| > 0 && |file| > 0 && '/' !in file
    requires SingleLine(folder + "/" + file)
    requires forall j :: 0 <= j < |prefix| ==> !SrcAt(prefix + "/src/" + (folder + "/" + file), j)
    ensures MatchFolder(prefix + "/src/" + (folder + "/" + file), 0) == Some(folder)
  {
    MatchAfterPrefix(prefix, folder + "/" + file);
    GroupOfFolderFile(folder, file);
  }

  /** The group of `folder/file` is the folder when the file name has no "/". */
  lemma GroupOfFolderFile(folder: string, file: string)
    requires |folder| > 0 && |file| > 0 && '/' !in file
    ensures Group(folder + "/" + file) == folder
  {
    var t := folder + "/" + file;
    assert LastSlash(t, 1, |t| - 2) == Some(|folder|) by {
      assert t[|folder|] == '/';
      forall k | |folder| < k <= |t| - 2 ensures t[k] != '/' {
        assert t[k] == file[k - |folder| - 1];
      }
      LastSlashIs(t, 1, |t| - 2, |folder|);
    }
    assert t[..|folder|] == folder;
  }

  /** The last "/" up to `hi` is the one after which none follows. */
  lemma {:induction false} LastSlashIs(s: string, lo: nat, hi: int, j: nat)
    requires lo <= j <= hi < |s| && s[j] == '/'
    requires forall k :: j < k <= hi ==> s[k] != '/'
    ensures LastSlash(s, lo, hi) == Some(j)
    decreases hi - j
  {
    if hi > j {
      LastSlashIs(s, lo, hi - 1, j);
    }
  }

  /** A file right inside "src" belongs to the root folder "". */
  lemma FileDirectlyInSrc(prefix: string, file: string)
    requires '/' !in file && SingleLine(file)
    requires forall j :: 0 <= j < |prefix| ==> !SrcAt(prefix + "/src/" + file, j)
    ensures MatchFolder(prefix + "/src/" + file, 0) == Some("")
  {
    MatchAfterPrefix(prefix, file);
    if |file| >= 3 {
      assert LastSlash(file, 1, |file| - 2) == None;
    }
  }

  /** `#getFolder` throws exactly when there are source files and none lies below "src". */
  lemma FolderOfFails(declaration: Reflection)
    ensures FolderOf(declaration).Failure? <==> (
      declaration.sources.Some? && |declaration.sources.value| > 0
      && forall k :: 0 <= k < |declaration.sources.value| ==> MatchFolder(declaration.sources.value[k].fileName, 0).None?)
  {
    if declaration.sources.Some? {
      FirstFolderNone(declaration.sources.value);
    }
  }

  lemma {:induction false} FirstFolderNone(sources: seq<SourceReference>)
    ensures FirstFolder(sources).None? <==> forall k :: 0 <= k < |sources| ==> MatchFolder(sources[k].fileName, 0).None?
  {
    if |sources| > 0 {
      FirstFolderNone(sources[1..]);
      assert forall k :: 1 <= k < |sources| ==> sources[k] == sources[1..][k - 1];
    }
  }

  /** Binding, rebinding, unbinding and binding again: the second `bind` throws, the third succeeds. */
  method BindUnbindBind(plugin: TagInternalPlugin, app: Application)
    returns (first: Result<(), Exception>, second: Result<(), Exception>, third: Result<(), Exception>)
    requires plugin.application == null
    requires Listener(EVENT_CREATE_DECLARATION, plugin) !in app.converter.listeners
    modifies plugin, app.converter
    ensures first == Success(()) && second == Failure(ALREADY_BOUND) && third == Success(())
    ensures plugin.application == app
    ensures app.converter.listeners == old(app.converter.listeners) + [Listener(EVENT_CREATE_DECLARATION, plugin)]
  {
    first := plugin.Bind(app);
    second := plugin.Bind(app);
    plugin.Unbind();
    OnThenOff(old(app.converter.listeners), Listener(EVENT_CREATE_DECLARATION, plugin));
    third := plugin.Bind(app);
  }

  /** `load(app)`: a new plugin, bound to `app`, whose handler is the last listener of the converter. */
  method Load(app: Application) returns (plugin: TagInternalPlugin)
    modifies app.converter
    ensures fresh(plugin) && plugin.application == app
    ensures app.converter.listeners == old(app.converter.listeners) + [Listener(EVENT_CREATE_DECLARATION, plugin)]
  {
    plugin := new TagInternalPlugin();
    var _ := plugin.Bind(app);
  }
}
