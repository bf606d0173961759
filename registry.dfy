/**
 * The process-wide class table that Element fills and empties. In the
 * running system this is Ruby's table of top-level constants; here it is an
 * explicit map from class name to the class's shape, held by one object.
 */
module Registry {
  import opened Wrappers
  import opened Bindings

  /**
   * What a class bound in the table holds, as data: the attributes stored in
   * the JSON `data` column, the localised ones, the in-memory accessors, the
   * validation and callback declarations evaluated in its body, and the
   * default scope `element_id = scope` (absent for classes not generated by
   * an Element).
   */
  datatype Shape = Shape(
    persisted: seq<string>,
    stubs: seq<string>,
    i18n: seq<string>,
    // whether the class responds to `localize` (it includes the I18n mixin)
    localizable: bool,
    bindings: seq<Binding>,
    scope: Option<string>)

  /**
   * The class that the generated code defines for the element with this id:
   * an Atom subclass that includes the I18n mixin, scoped to the element, and
   * with no fields or bindings yet.
   */
  function AtomCode(id: string): Shape {
    Shape([], [], [], true, [], Some(id))
  }

  /**
   * Declaring `t` on a class that already declares `s`: the names of `t` not
   * yet declared are added after `s`, in `t`'s order.
   */
  function Union(s: seq<string>, t: seq<string>): seq<string>
    decreases |t|
  {
    if t == [] then s
    else if t[0] in s then Union(s, t[1..])
    else Union(s + [t[0]], t[1..])
  }

  /** Declaring more names keeps the earlier ones in front and loses none. */
  lemma {:induction false} UnionContents(s: seq<string>, t: seq<string>)
    ensures forall x :: x in Union(s, t) <==> x in s || x in t
    ensures |s| <= |Union(s, t)| && Union(s, t)[..|s|] == s
    decreases |t|
  {
    if t != [] {
      if t[0] in s {
        UnionContents(s, t[1..]);
      } else {
        UnionContents(s + [t[0]], t[1..]);
        assert Union(s, t)[..|s|] == Union(s + [t[0]], t[1..])[..|s + [t[0]]|][..|s|];
      }
      assert forall x :: x in t <==> x == t[0] || x in t[1..];
    }
  }

  /** Declaring names none of which is declared yet appends them all. */
  lemma {:induction false} UnionFresh(s: seq<string>, t: seq<string>)
    requires NoDuplicates(t)
    requires forall x :: x in t ==> x !in s
    ensures Union(s, t) == s + t
    decreases |t|
  {
    if t != [] {
      var rest := t[1..];
      assert NoDuplicates(rest) by {
        forall i, j | 0 <= i < j < |rest| ensures rest[i] != rest[j] {
          assert rest[i] == t[i + 1] && rest[j] == t[j + 1];
        }
      }
      forall x | x in rest ensures x !in s + [t[0]] {
        var i :| 0 <= i < |rest| && rest[i] == x;
        assert t[i + 1] == x;
      }
      UnionFresh(s + [t[0]], rest);
      assert s + [t[0]] + rest == s + t;
    }
  }

  /**
   * The class after `define!` has declared on it the persistent attributes,
   * the localised attributes (only when the class can localise), the stub
   * accessors and then the bindings.
   */
  function Attach(klass: Shape, persistent: seq<string>, i18n: seq<string>, stubs: seq<string>, bindings: seq<Binding>): Shape {
    klass.(persisted := Union(klass.persisted, persistent),
           i18n := if klass.localizable then Union(klass.i18n, i18n) else klass.i18n,
           stubs := Union(klass.stubs, stubs),
           bindings := klass.bindings + bindings)
  }

  /** Ruby's table of top-level constants, restricted to the classes in it. */
  class ClassTable {
    var classes: map<string, Shape>

    /** The table at process start, holding the classes the application defines statically. */
    constructor (predefined: map<string, Shape>)
      ensures classes == predefined
    {
      classes := predefined;
    }

    /** Is a constant of this name defined? */
    predicate Defined(name: string)
      reads this
    {
      name in classes
    }

    /** Look a class up by name, absent when no constant of that name is defined. */
    function Constantize(name: string): Option<Shape>
      reads this
    {
      if name in classes then Some(classes[name]) else None
    }

    /** Remove a constant; Ruby raises unless the constant is defined. */
    method RemoveConst(name: string)
      requires name in classes
      modifies this
      ensures classes == old(classes) - {name}
    {
      classes := classes - {name};
    }

    /** Evaluate a class definition for a name that is not yet bound: a fresh class. */
    method DefineClass(name: string, klass: Shape)
      requires name !in classes
      modifies this
      ensures classes == old(classes)[name := klass]
    {
      classes := classes[name := klass];
    }

    /** Change a bound class in place: every other binding stays as it was. */
    method Reopen(name: string, klass: Shape)
      requires name in classes
      modifies this
      ensures classes == old(classes)[name := klass]
    {
      classes := classes[name := klass];
    }
  }
}
