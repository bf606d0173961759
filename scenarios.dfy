/**
 * Client code driving the Element lifecycle end to end, with the
 * inflections left as parameters.
 */
module Scenarios {
  import opened Wrappers
  import opened Attributes
  import opened Registry
  import opened Translations
  import opened Elements

  /**
   * Create and save a `user` element with attributes `email` and `name`: its
   * class is bound under the classified name, the group is derived from the
   * name and the primary key is the first attribute.
   */
  method CreateUser(reg: ClassTable, store: Backend, locale: string,
                    tableize: string -> string, classify: string -> string) returns (e: Element)
    modifies reg, store
    ensures fresh(e) && e.Valid() && !e.destroyed && !e.IsStatic()
    ensures e.name == classify("user") && e.committed == Some(e.CurrentMeta())
    ensures e.group == Some(tableize("user")) && e.primaryKey == Some("email")
    ensures reg.classes == old(reg.classes)[classify("user") := e.Attached(AtomCode(e.id))]
    ensures e.attributes == [Attr("email", "String"), Attr("name", "String")] && e.HashShaped()
  {
    var attrs := [Attr("email", "String"), Attr("name", "String")];
    assert DistinctKeys(attrs);
    e := new Element("e1", Meta("user", None, None, attrs, None, None, None, None));
    assert Keys(attrs) == ["email", "name"];
    var created := e.Save(reg, store, locale, tableize, classify);
  }

  /** The `user` element's two attributes are both persisted. */
  lemma UserAttributes()
    ensures var attrs := [Attr("email", "String"), Attr("name", "String")];
            PersistentAttributes(attrs) == ["email", "name"] && StubAttributes(attrs) == []
  {
    var attrs := [Attr("email", "String"), Attr("name", "String")];
    assert attrs[1..] == [Attr("name", "String")] && attrs[1..][1..] == [];
  }

  /**
   * The class generated for the `user` element holds both attributes as
   * persisted fields and no stub accessors, and is scoped to the element's
   * rows.
   */
  method CreatedUserClass(reg: ClassTable, store: Backend, locale: string,
                          tableize: string -> string, classify: string -> string) returns (e: Element)
    modifies reg, store
    ensures fresh(e) && classify("user") in reg.classes
    ensures reg.classes[classify("user")].persisted == ["email", "name"]
    ensures reg.classes[classify("user")].stubs == []
    ensures reg.classes[classify("user")].scope == Some(e.id)
  {
    e := CreateUser(reg, store, locale, tableize, classify);
    ghost var attrs := e.attributes;
    ghost var klass := e.Attached(AtomCode(e.id));
    assert reg.classes[classify("user")] == klass;
    GeneratedClassShape(e.id, attrs, e.settings, e.validations, e.callbacks);
    assert klass.persisted == PersistentAttributes(attrs) && klass.stubs == StubAttributes(attrs);
    UserAttributes();
  }

  /**
   * Rename a saved, generated element and save it again: the class is bound
   * under the new classified name, the group and the primary key are kept,
   * and every other binding, the old name's included, stays as it was.
   */
  method Rename(e: Element, newName: string, reg: ClassTable, store: Backend, locale: string,
                tableize: string -> string, classify: string -> string)
    requires e.Valid() && !e.destroyed && !e.IsStatic()
    requires e.group.Some? && e.primaryKey.Some?
    requires e.committed == Some(e.CurrentMeta()) && classify(newName) != e.name
    modifies e`name, e`group, e`primaryKey, e`redefine, e`committed, reg, store
    ensures e.Valid() && !e.destroyed && e.name == classify(newName)
    ensures e.group == old(e.group) && e.primaryKey == old(e.primaryKey)
    ensures reg.classes == old(reg.classes)[classify(newName) := e.Attached(AtomCode(e.id))]
  {
    e.name := newName;
    var renamed := e.Save(reg, store, locale, tableize, classify);
  }

  /**
   * Create a `user` element, rename it to `member`, then destroy it. The
   * second save binds the new name and leaves the class under the first
   * classified name in place; destroying unbinds only the new name. The
   * group derived on the first save survives the rename.
   */
  method RenameThenDestroy(reg: ClassTable, store: Backend, locale: string,
                           tableize: string -> string, classify: string -> string) returns (e: Element)
    requires classify("user") != classify("member")
    modifies reg, store
    ensures fresh(e) && e.destroyed
    ensures classify("user") in reg.classes
    ensures reg.classes[classify("user")] == e.Attached(AtomCode(e.id))
    ensures classify("member") !in reg.classes
    ensures e.group == Some(tableize("user"))
    ensures e.primaryKey == Some("email")
  {
    e := CreateUser(reg, store, locale, tableize, classify);
    Rename(e, "member", reg, store, locale, tableize, classify);
    e.Destroy(reg);
  }

  /**
   * Save and then destroy a static element `foo` whose class was defined
   * elsewhere. Saving attaches the element's fields to that class; destroying
   * unbinds it, since `pop!` does not look at `static`, so the class that
   * existed before the element is gone too.
   */
  method DestroyStatic(reg: ClassTable, store: Backend, locale: string,
                       tableize: string -> string, classify: string -> string) returns (e: Element)
    requires classify("foo") in reg.classes
    modifies reg, store
    ensures fresh(e) && e.destroyed && e.IsStatic()
    ensures reg.classes == old(reg.classes) - {classify("foo")}
  {
    var attrs := [Attr(StaticKey, "String")];
    e := new Element("e2", Meta("foo", None, None, attrs, None, None, None, None));
    assert Keys(attrs) == [StaticKey];
    var saved := e.Save(reg, store, locale, tableize, classify);
    e.Destroy(reg);
  }

  /**
   * Saving a generated element a second time without changing it halts
   * before `gen!`: the save fails and keeps the class table and the
   * translation backend as the first save left them, provided that
   * classifying a classified name changes nothing.
   */
  method ResaveIsNoop(e: Element, reg: ClassTable, store: Backend, locale: string,
                      tableize: string -> string, classify: string -> string)
      returns (firstClasses: map<string, Shape>, secondClasses: map<string, Shape>,
               firstTable: map<Key, string>, secondTable: map<Key, string>, resaved: bool)
    requires e.Valid() && !e.destroyed && !e.IsStatic()
    requires forall x :: classify(classify(x)) == classify(x)
    modifies e, reg, store
    ensures firstClasses == secondClasses == reg.classes
    ensures firstTable == secondTable == store.table
    ensures !resaved && !e.redefine && e.committed == Some(e.CurrentMeta())
  {
    var ok := e.Save(reg, store, locale, tableize, classify);
    firstClasses, firstTable := reg.classes, store.table;
    ghost var meta := e.CurrentMeta();
    NormalizeIdempotent(old(e.CurrentMeta()), tableize, classify);
    resaved := e.Save(reg, store, locale, tableize, classify);
    assert e.CurrentMeta() == meta;
    secondClasses, secondTable := reg.classes, store.table;
  }

  /**
   * Once a saved element's class has been unbound, saving the element again
   * without a change does not rebind it: the unchanged meta halts the save
   * before `gen!` can see that the class is missing.
   */
  method UnchangedSaveHalts(reg: ClassTable, store: Backend, locale: string,
                            tableize: string -> string, classify: string -> string)
      returns (e: Element, saved: bool)
    requires forall x :: classify(classify(x)) == classify(x)
    modifies reg, store
    ensures fresh(e) && !saved && !e.redefine
    ensures e.name == classify("user") && e.name !in reg.classes
  {
    e := CreateUser(reg, store, locale, tableize, classify);
    reg.RemoveConst(e.name);
    NormalizeIdempotent(Meta("user", None, None, e.attributes, None, None, None, None), tableize, classify);
    saved := e.Save(reg, store, locale, tableize, classify);
  }

  /**
   * The csv projection is computed once: reassigning the settings or the
   * attributes afterwards does not change what it returns.
   */
  method CsvMemoSticks(e: Element, settings: Option<Settings>, attributes: seq<Attr>)
      returns (first: seq<string>, second: seq<string>)
    modifies e
    ensures first == second
    ensures e.settings == settings && e.attributes == attributes
  {
    first := e.CsvAttributes();
    e.settings := settings;
    e.attributes := attributes;
    second := e.CsvAttributes();
  }
}
