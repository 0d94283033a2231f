/**
 * The TypeDoc plugin that hangs every module under one root: the root
 * barrel "index" becomes "." and any other module "M" becomes "./M".
 */
module TypeDocRootModule {
  import opened Wrappers
  import opened TypeDocHost

  /** The name of the root module. */
  const ROOT_NAME: string := "."

  /** The new name of a module. */
  function RootedName(name: string): (r: string)
    ensures name == "index" ==> r == ROOT_NAME
    ensures name != "index" ==> r == ROOT_NAME + "/" + name
  {
    if name != "index" then ROOT_NAME + "/" + name else ROOT_NAME
  }

  /** A declaration after the handler: modules are renamed, nothing else changes. */
  function Renamed(declaration: Reflection): (r: Reflection)
    ensures declaration.kind != Module ==> r == declaration
    ensures declaration.kind == Module ==> r == declaration.(name := RootedName(declaration.name))
  {
    if declaration.kind == Module then declaration.(name := RootedName(declaration.name)) else declaration
  }

  class RootModulePlugin {
    /** The application the plugin is bound to, or `undefined`. */
    var application: Application?

    constructor ()
      ensures application == null
    {
      application := null;
    }

    /** `bind(application)`: fails when bound, otherwise remembers the application and registers the handler. */
    method Bind(app: Application) returns (r: Result<(), Exception>)
      modifies this, app.converter
      ensures old(application) != null ==> (
        r == Failure(ALREADY_BOUND) && application == old(application)
        && app.converter.listeners == old(app.converter.listeners))
      ensures old(application) == null ==> (
        r == Success(()) && application == app
        && app.converter.listeners == old(app.converter.listeners) + [Listener(EVENT_CREATE_DECLARATION, this)])
    {
      if application != null {
        return Failure(ALREADY_BOUND);
      }
      application := app;
      app.converter.On(EVENT_CREATE_DECLARATION, this);
      r := Success(());
    }

    /** `unbind()`: does nothing when unbound, otherwise forgets the application and unregisters the handler. */
    method Unbind()
      modifies this, if application != null then {application.converter} else {}
      ensures application == null
      ensures old(application) != null ==> (
        old(application).converter.listeners
        == Without(old(application.converter.listeners), Listener(EVENT_CREATE_DECLARATION, this)))
    {
      if application == null {
        return;
      }
      var app := application;
      application := null;
      app.converter.Off(EVENT_CREATE_DECLARATION, this);
    }

    /** The `createDeclaration` handler: `declaration.name = newName` for a module. */
    method OnCreateDeclaration(project: Project, id: nat)
      requires id < |project.reflections|
      modifies project
      ensures project.reflections == old(project.reflections)[id := Renamed(old(project.reflections[id]))]
    {
      var declaration := project.reflections[id];
      if declaration.kind == Module {
        var name := declaration.name;
        var newName;
        if name != "index" {
          newName := ROOT_NAME + "/" + name;
        } else {
          newName := ROOT_NAME;
        }
        project.reflections := project.reflections[id := declaration.(name := newName)];
      }
    }
  }

  // ---------------------------------------------------------------------------
  // Properties.

  /** Every renamed module is the root or lies directly below it. */
  lemma RootedNameUnderRoot(name: string)
    ensures var r := RootedName(name);
      r == ROOT_NAME || (|r| >= 2 && r[..2] == ROOT_NAME + "/" && r[2..] == name)
  {
    if name != "index" {
      var r := ROOT_NAME + "/" + name;
      assert r[..2] == ROOT_NAME + "/" && r[2..] == name;
    }
  }

  /** Renaming keeps distinct modules distinct: no module other than "index" becomes ".". */
  lemma {:induction false} RootedNameInjective(a: string, b: string)
    requires a != b
    ensures RootedName(a) != RootedName(b)
  {
    if a != "index" && b != "index" {
      assert RootedName(a)[2..] == a && RootedName(b)[2..] == b;
    } else if a != "index" {
      assert |RootedName(a)| > |ROOT_NAME|;
    } else {
      assert |RootedName(b)| > |ROOT_NAME|;
    }
  }

  /** Renaming is not a no-op on its own output: a second pass nests the name one level deeper. */
  lemma RenamingTwiceNests(name: string)
    requires name != "index"
    ensures RootedName(RootedName(name)) == "././" + name
  {
    var once := RootedName(name);
    assert once[0] == '.';
    assert ROOT_NAME + "/" + once == "././" + name;
  }

  /** `load(app)`: a new plugin, bound to `app`, whose handler is the last listener of the converter. */
  method Load(app: Application) returns (plugin: RootModulePlugin)
    modifies app.converter
    ensures fresh(plugin) && plugin.application == app
    ensures app.converter.listeners == old(app.converter.listeners) + [Listener(EVENT_CREATE_DECLARATION, plugin)]
  {
    plugin := new RootModulePlugin();
    var _ := plugin.Bind(app);
  }
}
