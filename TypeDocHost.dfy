/**
 * The part of TypeDoc the documentation plugins touch: declaration
 * reflections with their comments, children and source files, and the
 * converter's event registry that `bind` and `unbind` register with.
 *
 * Reflections live in an arena indexed by their id. TypeDoc numbers
 * reflections as it creates them, parents before children, so every child
 * id is larger than its parent's; this is what makes the child relation a
 * finite tree (or DAG) here.
 */
module TypeDocHost {
  import opened Wrappers

  /** The reflection kinds the plugins distinguish; only `Module` is tested for. */
  datatype ReflectionKind = Project | Module | Namespace | Class | Interface | Function | Variable | Other

  /** A doc comment: its summary and block tags are kept as they are, the modifier tags form a set. */
  datatype Comment = Comment(summary: seq<string>, blockTags: seq<string>, modifierTags: set<string>)

  /** Where a declaration comes from. */
  datatype SourceReference = SourceReference(fileName: string)

  /** A declaration reflection. `None` stands for an absent (undefined) property. */
  datatype Reflection = Reflection(
    name: string,
    kind: ReflectionKind,
    comment: Option<Comment>,
    children: Option<seq<nat>>,
    sources: Option<seq<SourceReference>>)

  /** What `stack.push(...reflection.children)` pushes: nothing when there are no children. */
  function ChildrenOf(r: Reflection): seq<nat> {
    if r.children.Some? then r.children.value else []
  }

  /** The child lists of an arena, by id. */
  function Shape(rs: seq<Reflection>): (shape: seq<seq<nat>>)
    ensures |shape| == |rs|
    ensures forall i :: 0 <= i < |rs| ==> shape[i] == ChildrenOf(rs[i])
  {
    seq(|rs|, i requires 0 <= i < |rs| => ChildrenOf(rs[i]))
  }

  /** Every child id is a later reflection of the arena. */
  predicate Ordered(shape: seq<seq<nat>>) {
    forall i :: 0 <= i < |shape| ==> Within(shape, i, shape[i])
  }

  /** Every id of `ids` is a reflection of the arena above `lo`. */
  predicate Within(shape: seq<seq<nat>>, lo: int, ids: seq<nat>) {
    forall j :: 0 <= j < |ids| ==> lo < ids[j] < |shape|
  }

  /** The ids listed in `ids`, all above `lo`, and everything reachable from them through children. */
  function Reach(shape: seq<seq<nat>>, lo: int, ids: seq<nat>): set<nat>
    requires Ordered(shape) && Within(shape, lo, ids)
    decreases |shape| - lo, |ids|
  {
    if |ids| == 0 then {}
    else
      var c := ids[0];
      {c} + Reach(shape, c, shape[c]) + Reach(shape, lo, ids[1..])
  }

  /** A reflection and all its descendants. */
  function Descendants(shape: seq<seq<nat>>, root: nat): set<nat>
    requires Ordered(shape) && root < |shape|
  {
    Reach(shape, -1, [root])
  }

  /** How many times a depth-first walk from `ids` visits a reflection, counting repeats in a DAG. */
  function Visits(shape: seq<seq<nat>>, lo: int, ids: seq<nat>): nat
    requires Ordered(shape) && Within(shape, lo, ids)
    decreases |shape| - lo, |ids|
  {
    if |ids| == 0 then 0
    else
      var c := ids[0];
      1 + Visits(shape, c, shape[c]) + Visits(shape, lo, ids[1..])
  }

  // ---------------------------------------------------------------------------
  // Properties of reachability.

  /** The lower bound only guards termination: it does not change what is reached. */
  lemma {:induction false} ReachBound(shape: seq<seq<nat>>, lo: int, lo': int, ids: seq<nat>)
    requires Ordered(shape)
    requires Within(shape, lo, ids) && Within(shape, lo', ids)
    ensures Reach(shape, lo, ids) == Reach(shape, lo', ids)
    ensures Visits(shape, lo, ids) == Visits(shape, lo', ids)
    decreases |ids|
  {
    if |ids| > 0 {
      ReachBound(shape, lo, lo', ids[1..]);
    }
  }

  /** Reaching from a concatenation reaches from each part. */
  lemma {:induction false} ReachAppend(shape: seq<seq<nat>>, lo: int, a: seq<nat>, b: seq<nat>)
    requires Ordered(shape)
    requires Within(shape, lo, a) && Within(shape, lo, b)
    ensures Reach(shape, lo, a + b) == Reach(shape, lo, a) + Reach(shape, lo, b)
    ensures Visits(shape, lo, a + b) == Visits(shape, lo, a) + Visits(shape, lo, b)
    decreases |a|
  {
    if |a| > 0 {
      assert (a + b)[0] == a[0];
      assert (a + b)[1..] == a[1..] + b;
      ReachAppend(shape, lo, a[1..], b);
    } else {
      assert a + b == b;
    }
  }

  /** One step of the walk: a reflection's descendants are itself and its children's descendants. */
  lemma DescendantsStep(shape: seq<seq<nat>>, x: nat)
    requires Ordered(shape) && x < |shape|
    ensures Within(shape, -1, shape[x])
    ensures Descendants(shape, x) == {x} + Reach(shape, -1, shape[x])
    ensures Visits(shape, -1, [x]) == 1 + Visits(shape, -1, shape[x])
  {
    assert Within(shape, x, shape[x]);
    assert [x][0] == x && [x][1..] == [];
    assert Reach(shape, -1, [x]) == {x} + Reach(shape, x, shape[x]) + Reach(shape, -1, []);
    ReachBound(shape, x, -1, shape[x]);
  }

  // ---------------------------------------------------------------------------
  // The converter's event registry.

  /** The event the plugins listen to: a declaration reflection was created. */
  const EVENT_CREATE_DECLARATION: string := "createDeclaration"

  /** What every plugin's `bind` throws when the plugin is bound already. */
  const ALREADY_BOUND: Exception := Error("Plugin is already bound.")

  /** A registered listener; `owner` is the plugin whose bound handler was passed to `on`. */
  datatype Listener = Listener(event: string, owner: object)

  /** `off`: the first registration equal to `l` is dropped, the others keep their order. */
  function Without(ls: seq<Listener>, l: Listener): (r: seq<Listener>)
    ensures l !in ls ==> r == ls
    ensures l in ls ==> |r| == |ls| - 1 && multiset(r) == multiset(ls) - multiset{l}
  {
    if |ls| == 0 then []
    else
      assert ls == [ls[0]] + ls[1..];
      if ls[0] == l then ls[1..] else [ls[0]] + Without(ls[1..], l)
  }

  /** The converter of an application: the listeners registered, in order (all at the default priority). */
  class Converter {
    var listeners: seq<Listener>

    constructor ()
      ensures listeners == []
    {
      listeners := [];
    }

    /** `converter.on(event, handler)`: a listener at the default priority goes after the others. */
    method On(event: string, owner: object)
      modifies this
      ensures listeners == old(listeners) + [Listener(event, owner)]
    {
      listeners := listeners + [Listener(event, owner)];
    }

    /** `converter.off(event, handler)`: unregisters the first matching listener, if any. */
    method Off(event: string, owner: object)
      modifies this
      ensures listeners == Without(old(listeners), Listener(event, owner))
    {
      listeners := Without(listeners, Listener(event, owner));
    }
  }

  /** A TypeDoc application; the plugins only use its converter. */
  class Application {
    const converter: Converter

    constructor ()
      ensures fresh(converter) && converter.listeners == []
    {
      converter := new Converter();
    }
  }

  /** Registering and then unregistering a listener that was not there leaves the registry as it was. */
  lemma {:induction false} OnThenOff(ls: seq<Listener>, l: Listener)
    requires l !in ls
    ensures Without(ls + [l], l) == ls
    decreases |ls|
  {
    if |ls| > 0 {
      assert (ls + [l])[0] == ls[0];
      assert (ls + [l])[1..] == ls[1..] + [l];
      OnThenOff(ls[1..], l);
      assert ls == [ls[0]] + ls[1..];
    }
  }

  // ---------------------------------------------------------------------------
  // The reflections of a conversion.

  /** The reflections TypeDoc has created so far, by id. */
  class Project {
    var reflections: seq<Reflection>

    constructor (reflections: seq<Reflection>)
      ensures this.reflections == reflections
    {
      this.reflections := reflections;
    }

    ghost predicate Valid()
      reads this
    {
      Ordered(Shape(reflections))
    }
  }
}
