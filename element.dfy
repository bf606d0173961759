/**
 * The Element descriptor: a declaration of a record type that, once saved,
 * is compiled into a class bound in the class table under its classified
 * name, and that is retired again when the element is destroyed.
 */
module Elements {
  import opened Wrappers
  import opened Attributes
  import opened Bindings
  import opened Registry
  import opened Translations

  /** The `meta` JSON column: every stored property of an element. */
  datatype Meta = Meta(
    name: string,
    group: Option<string>,
    primaryKey: Option<string>,
    attributes: seq<Attr>,
    validations: Option<Declarations>,
    callbacks: Option<Declarations>,
    translations: Option<TranslationList>,
    settings: Option<Settings>)

  /** The first key of the attributes hash, absent when the hash is empty. */
  function FirstKey(attrs: seq<Attr>): Option<string> {
    if attrs == [] then None else Some(attrs[0].key)
  }

  /**
   * The meta after `check_naming`: the group defaults to the tableized name,
   * the primary key to the first attribute, and the name is classified.
   */
  function Normalize(m: Meta, tableize: string -> string, classify: string -> string): Meta {
    m.(group := if m.group.None? then Some(tableize(m.name)) else m.group,
       primaryKey := if m.primaryKey.None? then FirstKey(m.attributes) else m.primaryKey,
       name := classify(m.name))
  }

  /**
   * Normalisation only fills what is missing: a group is always set
   * afterwards, a primary key whenever there is one to take, a value already
   * set is never replaced, and a defaulted primary key is a declared attribute.
   */
  lemma NormalizeFillsDefaults(m: Meta, tableize: string -> string, classify: string -> string)
    ensures var r := Normalize(m, tableize, classify);
            && r.group.Some?
            && (m.group.Some? ==> r.group == m.group)
            && (r.primaryKey.Some? <==> m.primaryKey.Some? || m.attributes != [])
            && (m.primaryKey.Some? ==> r.primaryKey == m.primaryKey)
            && (m.primaryKey.None? && m.attributes != [] ==> r.primaryKey.value in Keys(m.attributes))
            && r.attributes == m.attributes && r.settings == m.settings
  {
    if m.attributes != [] {
      assert Keys(m.attributes)[0] == m.attributes[0].key;
    }
  }

  /** With an idempotent `classify`, normalising a normalised meta changes nothing. */
  lemma NormalizeIdempotent(m: Meta, tableize: string -> string, classify: string -> string)
    requires forall x :: classify(classify(x)) == classify(x)
    ensures Normalize(Normalize(m, tableize, classify), tableize, classify) == Normalize(m, tableize, classify)
  {
  }

  /**
   * The class compiled for a non-static element: exactly its persistent
   * attributes, its stub accessors and its localised attributes, its
   * validations then its callbacks, and the default scope on its id.
   */
  lemma GeneratedClassShape(id: string, attrs: seq<Attr>, settings: Option<Settings>,
                            validations: Option<Declarations>, callbacks: Option<Declarations>)
    requires DistinctKeys(attrs)
    ensures var s := Attach(AtomCode(id), PersistentAttributes(attrs), I18nAttributes(settings),
                            StubAttributes(attrs), DeclaredBindings(validations, callbacks));
            && s.persisted == PersistentAttributes(attrs)
            && s.stubs == StubAttributes(attrs)
            && (forall x :: x in s.i18n <==> x in I18nAttributes(settings))
            && (NoDuplicates(I18nAttributes(settings)) ==> s.i18n == I18nAttributes(settings))
            && s.bindings == DeclaredBindings(validations, callbacks)
            && s.scope == Some(id)
  {
    ProjectionsDistinct(attrs);
    UnionFresh([], PersistentAttributes(attrs));
    UnionFresh([], StubAttributes(attrs));
    UnionContents([], I18nAttributes(settings));
    if NoDuplicates(I18nAttributes(settings)) {
      UnionFresh([], I18nAttributes(settings));
    }
  }

  class Element {
    const id: string
    var name: string
    var group: Option<string>
    var primaryKey: Option<string>
    var attributes: seq<Attr>
    var validations: Option<Declarations>
    var callbacks: Option<Declarations>
    var translations: Option<TranslationList>
    var settings: Option<Settings>
    // the meta column as last saved, absent for a record never saved
    var committed: Option<Meta>
    var redefine: bool
    var destroyed: bool
    // the class name captured just before the record is destroyed
    var stashedClassName: Option<string>
    // the memoised csv and public projections
    var csvMemo: Option<seq<string>>
    var publicMemo: Option<seq<string>>

    /** A destroyed element has captured its class name. */
    ghost predicate Valid()
      reads this
    {
      destroyed ==> stashedClassName.Some?
    }

    /**
     * The attributes form a hash: no key twice. Nothing but an assignment to
     * `attributes` can break it, and no lifecycle step assigns it.
     */
    predicate HashShaped()
      reads this`attributes
    {
      DistinctKeys(attributes)
    }

    /** A new, unsaved element built from a meta hash. */
    constructor (id: string, m: Meta)
      requires DistinctKeys(m.attributes)
      ensures Valid() && HashShaped() && this.id == id && CurrentMeta() == m
      ensures committed.None? && !redefine && !destroyed
      ensures stashedClassName.None? && csvMemo.None? && publicMemo.None?
    {
      this.id := id;
      name, group, primaryKey := m.name, m.group, m.primaryKey;
      attributes, validations, callbacks := m.attributes, m.validations, m.callbacks;
      translations, settings := m.translations, m.settings;
      committed := None;
      redefine, destroyed := false, false;
      stashedClassName, csvMemo, publicMemo := None, None, None;
    }

    /** The meta column as it stands in memory. */
    function CurrentMeta(): Meta
      reads this
    {
      Meta(name, group, primaryKey, attributes, validations, callbacks, translations, settings)
    }

    /** The name of the element's class: the stashed one once the record is destroyed. */
    function ClassName(): string
      reads this
      requires Valid()
    {
      if destroyed then stashedClassName.value else name
    }

    /** The element binds to an existing class instead of generating one. */
    predicate IsStatic()
      reads this`attributes
    {
      StaticKey in Keys(attributes)
    }

    /** The translations to load, nothing when the hash is absent. */
    function TranslationEntries(): TranslationList
      reads this`translations
    {
      if translations.Some? then translations.value else []
    }

    /** A class after `define!` has attached this element's attributes and bindings to it. */
    function Attached(klass: Shape): Shape
      reads this`attributes, this`settings, this`validations, this`callbacks
    {
      Attach(klass, PersistentAttributes(attributes), I18nAttributes(settings),
             StubAttributes(attributes), DeclaredBindings(validations, callbacks))
    }

    /** The csv projection, computed on the first call and returned unchanged afterwards. */
    method CsvAttributes() returns (r: seq<string>)
      modifies this`csvMemo
      ensures r == if old(csvMemo).Some? then old(csvMemo).value
                   else ConfiguredOrPersistent(CsvEntry(settings), attributes)
      ensures csvMemo == Some(r)
    {
      if csvMemo.None? {
        csvMemo := Some(ConfiguredOrPersistent(CsvEntry(settings), attributes));
      }
      r := csvMemo.value;
    }

    /** The public projection, computed on the first call and returned unchanged afterwards. */
    method PublicAttributes() returns (r: seq<string>)
      modifies this`publicMemo
      ensures r == if old(publicMemo).Some? then old(publicMemo).value
                   else ConfiguredOrPersistent(PublicEntry(settings), attributes)
      ensures publicMemo == Some(r)
    {
      if publicMemo.None? {
        publicMemo := Some(ConfiguredOrPersistent(PublicEntry(settings), attributes));
      }
      r := publicMemo.value;
    }

    /**
     * Before save: default the group from the name as it was, default the
     * primary key, classify the name, and flag a recompile when the meta
     * differs from the one last saved.
     */
    method CheckNaming(tableize: string -> string, classify: string -> string)
      modifies this`group, this`primaryKey, this`name, this`redefine
      ensures CurrentMeta() == Normalize(old(CurrentMeta()), tableize, classify)
      ensures redefine == (committed != Some(CurrentMeta()))
    {
      if group.None? {
        group := Some(tableize(name));
      }
      if primaryKey.None? {
        primaryKey := FirstKey(attributes);
      }
      name := classify(name);
      redefine := committed != Some(CurrentMeta());
    }

    /** Before destroy: capture the class name while the record still has it. */
    method Stash()
      requires Valid()
      modifies this`stashedClassName
      ensures Valid()
      ensures stashedClassName == Some(old(ClassName()))
      ensures ClassName() == old(ClassName())
    {
      stashedClassName := Some(ClassName());
    }

    /** Unbind the element's class name if it is bound; every other binding stays. */
    method Pop(reg: ClassTable)
      requires Valid()
      modifies reg
      ensures reg.classes == old(reg.classes) - {ClassName()}
    {
      if reg.Defined(ClassName()) {
        reg.RemoveConst(ClassName());
      } else {
        assert reg.classes - {ClassName()} == reg.classes;
      }
    }

    /** Store every translation of the element in the backend under the current locale, in order. */
    method LoadTranslations(store: Backend, locale: string)
      modifies store
      ensures store.table == StoreAll(old(store.table), locale, TranslationEntries())
    {
      if translations.Some? && translations.value != [] {
        var ts := translations.value;
        var i := 0;
        while i < |ts|
          invariant 0 <= i <= |ts|
          invariant store.table == StoreAll(old(store.table), locale, ts[..i])
        {
          store.StoreTranslation(locale, ts[i].0, ts[i].1);
          i := i + 1;
          assert ts[..i][..i - 1] == ts[..i - 1];
        }
        assert ts[..|ts|] == ts;
      }
    }

    /**
     * Evaluate the validations and then the callbacks in the class body,
     * skipping an absent hash: the declarations evaluated are exactly the
     * declared bindings, in that order. `Define` appends them to the class.
     */
    method EvalBindings() returns (bindings: seq<Binding>)
      ensures bindings == DeclaredBindings(validations, callbacks)
    {
      bindings := [];
      var props := [validations, callbacks];
      var i := 0;
      while i < |props|
        invariant 0 <= i <= |props|
        invariant bindings == CompileAll(props[..i])
      {
        CompileAllSnoc(props, i);
        // an absent hash contributes no declarations
        bindings := bindings + CompileOptional(props[i]);
        i := i + 1;
      }
      assert props[..|props|] == props;
      CompileAllPair(validations, callbacks);
    }

    /**
     * Load the translations, then attach the fields and bindings to the class
     * bound under the class name. When no class is bound the lookup yields nil
     * and the first declaration on it raises: `ok` is false and the table is
     * untouched.
     */
    method Define(reg: ClassTable, store: Backend, locale: string) returns (ok: bool)
      requires Valid()
      modifies reg, store
      ensures store.table == StoreAll(old(store.table), locale, TranslationEntries())
      ensures ok == (ClassName() in old(reg.classes))
      ensures ok ==> reg.classes == old(reg.classes)[ClassName() := Attached(old(reg.classes)[ClassName()])]
      ensures !ok ==> reg.classes == old(reg.classes)
    {
      LoadTranslations(store, locale);
      var found := reg.Constantize(ClassName());
      if found.None? {
        ok := false;
        return;
      }
      var klass := found.value;
      ghost var base := klass;
      assert base == old(reg.classes)[ClassName()];
      klass := klass.(persisted := Union(klass.persisted, PersistentAttributes(attributes)));
      if klass.localizable {
        klass := klass.(i18n := Union(klass.i18n, I18nAttributes(settings)));
      }
      klass := klass.(stubs := Union(klass.stubs, StubAttributes(attributes)));
      var bindings := EvalBindings();
      klass := klass.(bindings := klass.bindings + bindings);
      assert klass == Attached(base);
      reg.Reopen(ClassName(), klass);
      ok := true;
    }

    /**
     * After save: unless nothing changed and the class is bound, clear the
     * flag; for a generated element replace whatever is bound under the class
     * name by a fresh class; then attach fields and bindings. On return `ok`
     * says whether the class name is bound.
     */
    method Gen(reg: ClassTable, store: Backend, locale: string) returns (ok: bool)
      requires Valid()
      modifies this`redefine, reg, store
      ensures ok <==> ClassName() in reg.classes
      ensures !old(redefine) && ClassName() in old(reg.classes) ==>
                && redefine == old(redefine)
                && reg.classes == old(reg.classes)
                && store.table == old(store.table)
      ensures old(redefine) || ClassName() !in old(reg.classes) ==>
                && !redefine
                && store.table == StoreAll(old(store.table), locale, TranslationEntries())
                && (!IsStatic() ==> reg.classes == old(reg.classes)[ClassName() := Attached(AtomCode(id))])
                && (IsStatic() && ClassName() in old(reg.classes) ==>
                      reg.classes == old(reg.classes)[ClassName() := Attached(old(reg.classes)[ClassName()])])
                && (IsStatic() && ClassName() !in old(reg.classes) ==> reg.classes == old(reg.classes))
    {
      if redefine || !reg.Defined(ClassName()) {
        redefine := false;
        if !IsStatic() {
          Pop(reg);
          reg.DefineClass(ClassName(), AtomCode(id));
        }
        ok := Define(reg, store, locale);
      } else {
        ok := true;
      }
    }

    /**
     * Saving the element: normalise it, then compile its class and record
     * the meta as saved unless compiling raised. `check_naming` returns the
     * new `redefine` flag, and a `before_save` callback returning false
     * halts the save: an unchanged meta fails the save before `gen!` runs,
     * whether or not the class is bound.
     */
    method Save(reg: ClassTable, store: Backend, locale: string,
                tableize: string -> string, classify: string -> string) returns (ok: bool)
      requires Valid() && !destroyed
      modifies this`group, this`primaryKey, this`name, this`redefine, this`committed, reg, store
      ensures Valid() && !redefine
      ensures CurrentMeta() == Normalize(old(CurrentMeta()), tableize, classify)
      ensures committed == if ok then Some(CurrentMeta()) else old(committed)
      ensures old(committed) == Some(CurrentMeta()) ==>
                !ok && reg.classes == old(reg.classes) && store.table == old(store.table)
      ensures old(committed) != Some(CurrentMeta()) ==>
                && (ok <==> name in reg.classes)
                && store.table == StoreAll(old(store.table), locale, TranslationEntries())
                && (!IsStatic() ==> reg.classes == old(reg.classes)[name := Attached(AtomCode(id))])
                && (IsStatic() && name in old(reg.classes) ==>
                      reg.classes == old(reg.classes)[name := Attached(old(reg.classes)[name])])
                && (IsStatic() && name !in old(reg.classes) ==> reg.classes == old(reg.classes))
    {
      CheckNaming(tableize, classify);
      if redefine {
        ok := Gen(reg, store, locale);
        if ok {
          committed := Some(CurrentMeta());
        }
      } else {
        // the before_save callback returned false: the save halts
        ok := false;
      }
    }

    /**
     * Destroying the element: capture the class name, let the record go, and
     * unbind that name. Every other binding stays.
     */
    method Destroy(reg: ClassTable)
      requires Valid()
      modifies this`stashedClassName, this`destroyed, reg
      ensures Valid() && destroyed
      ensures ClassName() == old(ClassName())
      ensures reg.classes == old(reg.classes) - {old(ClassName())}
    {
      Stash();
      destroyed := true;
      Pop(reg);
    }
  }
}
