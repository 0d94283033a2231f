/**
 * The documentation build's copy of the internal-tagging plugin: a
 * declaration is tagged `@internal` when one of its source files lies in a
 * folder called "internal". Its `markInternal` and
 * `markAllChildrenInternal` are the same code as the other plugin's and are
 * modelled once, in `TypeDocTagInternal`.
 */
module TagInternal {
  import opened Wrappers
  import opened Strings
  import opened TypeDocHost
  import TypeDocTagInternal

  /** Some source file has a path segment "internal"; a declaration without sources is not internal. */
  predicate InInternalFolder(declaration: Reflection) {
    declaration.sources.Some?
    && exists k :: 0 <= k < |declaration.sources.value| && HasInternalSegment(declaration.sources.value[k].fileName)
  }

  /** `#isInInternalFolder(declaration)`: the search over the source files. */
  method IsInInternalFolder(declaration: Reflection) returns (internal: bool)
    ensures internal == InInternalFolder(declaration)
  {
    var sources := declaration.sources;
    if sources.None? || |sources.value| <= 0 {
      return false;
    }
    var list := sources.value;
    for i := 0 to |list|
      invariant forall k :: 0 <= k < i ==> !HasInternalSegment(list[k].fileName)
    {
      if HasInternalSegment(list[i].fileName) {
        return true;
      }
    }
    return false;
  }

  class TagInternalPlugin {
    /** The application the plugin is bound to, or `undefined`. */
    var application: Application?

    constructor ()
      ensures application == null
    {
      application := null;
    }

    /** `bind(application)`: fails when bound, otherwise remembers the application and registers the handler. */
    method Bind(app: Application) returns (r: Result<(), Exception>)
      modifies this, app.converter
      ensures old(application) != null ==> (
        r == Failure(ALREADY_BOUND) && application == old(application)
        && app.converter.listeners == old(app.converter.listeners))
      ensures old(application) == null ==> (
        r == Success(()) && application == app
        && app.converter.listeners == old(app.converter.listeners) + [Listener(EVENT_CREATE_DECLARATION, this)])
    {
      if application != null {
        return Failure(ALREADY_BOUND);
      }
      application := app;
      app.converter.On(EVENT_CREATE_DECLARATION, this);
      r := Success(());
    }

    /** `unbind()`: does nothing when unbound, otherwise forgets the application and unregisters the handler. */
    method Unbind()
      modifies this, if application != null then {application.converter} else {}
      ensures application == null
      ensures old(application) != null ==> (
        old(application).converter.listeners
        == Without(old(application.converter.listeners), Listener(EVENT_CREATE_DECLARATION, this)))
    {
      if application == null {
        return;
      }
      var app := application;
      application := null;
      app.converter.Off(EVENT_CREATE_DECLARATION, this);
    }

    /** The `createDeclaration` handler: marks the declaration exactly when it is in an internal folder. */
    method OnCreateDeclaration(project: Project, id: nat)
      requires id < |project.reflections|
      modifies project
      ensures project.reflections == (
        if InInternalFolder(old(project.reflections[id]))
        then old(project.reflections)[id := TypeDocTagInternal.Mark(old(project.reflections[id]))]
        else old(project.reflections))
    {
      var isInInternal := IsInInternalFolder(project.reflections[id]);
      if isInInternal {
        TypeDocTagInternal.MarkInternal(project, id);
      }
    }
  }

  /** `load(app)`: a new plugin, bound to `app`, whose handler is the last listener of the converter. */
  method Load(app: Application) returns (plugin: TagInternalPlugin)
    modifies app.converter
    ensures fresh(plugin) && plugin.application == app
    ensures app.converter.listeners == old(app.converter.listeners) + [Listener(EVENT_CREATE_DECLARATION, plugin)]
  {
    plugin := new TagInternalPlugin();
    var _ := plugin.Bind(app);
  }
}
