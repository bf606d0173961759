# Element lifecycle model

This project models the `Element` descriptor of the atom repository. An
Element is a stored declaration of a record type: a name, an ordered hash of
attributes (name → type tag), and optional validations, callbacks,
translations and settings. Saving an element normalises its naming and then
compiles it into a live class. That class is an `Atom` subclass bound under
the element's classified name. Destroying the element unbinds that name
again.

The model has these parts:

- `Attributes` is the attribute classifier. It sorts the attributes into
  persistent ones (type tag other than `Stub`) and stub ones (tag `Stub`).
  It also gives the i18n, csv and public projections read from `settings`.
  Csv and public fall back to the persistent attributes.
- `Bindings` turns the `validations` and `callbacks` hashes into an ordered
  list of class-level declarations, kept as data: a kind and a target.
- `Registry` holds `Shape` and the class table. `Shape` is what a bound
  class holds: its persisted fields, stub accessors, localised fields,
  bindings and default scope `element_id = id`. The class table
  `ClassTable` is an explicit `map<string, Shape>` that stands for Ruby's
  table of top-level constants.
- `Translations` is the I18n backend that `load_translations` writes into.
  It is keyed by (locale, key), and a later value replaces an earlier one.
- `Elements` holds the `Element` class. Its fields are the meta
  properties, the `redefine` flag, the destroyed flag, the stashed class
  name, the csv and public memos, and the meta as last saved (`committed`).
  Its methods are the lifecycle steps: `check_naming`, `gen!`, `define!`,
  `pop!`, `stash`, `load_translations`, and the save and destroy callback
  chains.
- `RawJson` is the key filter of `raw_json`.
- `Scenarios` is client code that runs the lifecycle end to end.

`tableize` and `classify` (ActiveSupport inflections) are function-typed
parameters, so nothing is assumed about them. `meta_changed?` is modelled as
comparing the current meta with `committed`, which is absent for a record
never saved. The current locale is a parameter.

The model follows the code where a reader might expect something else:

- Renaming keeps the old class. By the time `gen!` runs, the name has
  already been classified to the new one, so `pop!` removes only the new
  name. The class under the old name stays bound
  (`Scenarios.RenameThenDestroy`). Destroying a renamed element likewise
  unbinds only its current name.
- The csv and public memos are never invalidated. Reassigning `settings` or
  `attributes` does not change what a later call returns
  (`Scenarios.CsvMemoSticks`).
- `stub_attributes` reads only the type tags; a `stub_attributes` entry in
  the settings is not used.
- The code has no error kinds for an unknown binding or a name that is
  already bound. It does not check that `primary_key` is an attribute.
- An unchanged save halts before `gen!`. `check_naming` returns the new
  `redefine` flag, and under the Rails 4 callback rules a `before_save`
  callback that returns false halts the save. So saving an unchanged
  element fails and does not rebind a class that has been unbound in the
  meantime (`Scenarios.UnchangedSaveHalts`). The `!class_defined?` half of
  the guard in `gen!` matters only when `gen!` is called directly. Rails 5
  and later would run `gen!` anyway. The framework version is not pinned
  in the code.
- Normalising is idempotent only when `classify` is. `redefine` is false on
  the second pass only once the first pass was saved
  (`Elements.NormalizeIdempotent`, `Scenarios.ResaveIsNoop`).
- Destroying a static element unbinds the class it was attached to, even
  though that class existed before the element: `pop!` does not check
  `static` (`Scenarios.DestroyStatic`).
- `gen!` on a static element whose class is not bound clears `redefine`
  and loads the translations first. Then `define!` raises, because the
  constant lookup returns nil. The model returns `ok == false` with the
  class table unchanged.

## Model

| member | source | states |
|---|---|---|
| `Attributes.PersistentAttributes` | app/objects/element.rb:79-81 | Defines the names of the attributes whose tag is not `Stub`, in declaration order. |
| `Attributes.StubAttributes` | app/objects/element.rb:83-85 | Defines the names of the attributes whose tag is `Stub`, in declaration order. |
| `Attributes.I18nAttributes` | app/objects/element.rb:75-77 | Defines the `i18n_attributes` list of the settings: empty when the settings or the entry are absent. |
| `Attributes.ConfiguredOrPersistent` | app/objects/element.rb:70 | Defines the csv/public projection as intended: the configured keys when the entry is present, the persistent attributes otherwise. |
| `Attributes.ProjectionAsWritten` | app/objects/element.rb:70 | Defines the csv/public projection as parsed: the persistent attributes when the entry is absent, a `NoMethodError` for `keys` on nil when it is present. |
| `Attributes.ClassifierPartition` | app/objects/element.rb:79-85 | The persistent and stub attributes together hold every declared key, as a multiset. A name is declared iff it is in one of them, and each keeps declaration order. |
| `Attributes.ClassifierInterleaves` | app/objects/element.rb:79-85 | The declared keys are an interleaving of the persistent and the stub attributes. |
| `Attributes.ClassifierMembership` | app/objects/element.rb:79-85 | A name is persistent iff some declared entry with that key has a tag other than `Stub`. It is a stub iff some entry with that key has tag `Stub`. |
| `Attributes.ClassifierDisjoint` | app/objects/element.rb:79-85 | With distinct keys (a hash), no name is both persistent and a stub. |
| `Attributes.ProjectionsDistinct` | app/objects/element.rb:79-85 | With distinct keys, neither projection repeats a name. |
| `Attributes.ProjectionFallback` | app/objects/element.rb:67-73 | A configured csv/public entry yields its keys. An absent one yields exactly the declared keys that are not stubs. |
| `Attributes.ProjectionAsWrittenDiverges` | app/objects/element.rb:70 | As written, the csv/public reader returns the intended projection iff the settings entry is absent. Otherwise it raises. |
| `Attributes.CsvSettingCounterexample` | app/objects/element.rb:70 | A `csv_attributes` setting `{email: …}` makes the reader raise instead of returning `[email]`. |
| `Bindings.Compile` | app/objects/element.rb:161 | Defines one binding per hash entry, in hash order. |
| `Bindings.DeclaredBindings` | app/objects/element.rb:156-162 | Defines the bindings of `define!`: those of the validations, then those of the callbacks, an absent hash giving none. |
| `Bindings.CompileEntries` | app/objects/element.rb:161 | One binding per hash entry, in hash order, carrying that entry's key and value. |
| `Bindings.CompileBoth` | app/objects/element.rb:156-162 | Compiling one hash after another gives the first hash's entries, in order, followed by the second's. |
| `Bindings.DeclaredBindingsOrder` | app/objects/element.rb:156-162 | The validations' bindings come first, one per entry in order, then the callbacks' bindings. An absent hash contributes nothing. |
| `Registry.AtomCode` | app/objects/element.rb:188-197 | Defines the class the generated code creates: no fields and no bindings yet, localisable, scoped to `element_id = id`. |
| `Registry.Attach` | app/objects/element.rb:150-162 | Defines what `define!` declares on a class: the persistent fields, the i18n names if the class localises, the stubs, then the bindings appended. |
| `Registry.ClassTable.Defined` | app/objects/element.rb:87-89 | Defines `class_defined?`: the name is bound in the class table. |
| `Registry.ClassTable.Constantize` | app/objects/element.rb:148 | Defines `safe_constantize`: the bound class, or nothing when the name is unbound. |
| `Registry.UnionContents` | app/objects/element.rb:150-154 | Declaring more field names on a class keeps the earlier ones, in front, and leaves only names from either list. |
| `Registry.UnionFresh` | app/objects/element.rb:150-154 | Declaring distinct names that the class does not have yet appends them in order. |
| `Registry.ClassTable.RemoveConst` | app/objects/element.rb:140 | Removing a bound constant unbinds exactly that name. |
| `Registry.ClassTable.DefineClass` | app/objects/element.rb:131 | Evaluating the class code for an unbound name binds the new class under it and changes nothing else. |
| `Registry.ClassTable.Reopen` | app/objects/element.rb:148-162 | Changing a bound class rebinds it under the same name and changes nothing else. |
| `Translations.StoreAll` | app/objects/element.rb:177-181 | Defines the backend table after storing every translation entry under the locale, in order. |
| `Translations.StoreAllOthersUnchanged` | app/objects/element.rb:177-181 | Loading translations leaves keys of other locales, and keys the element does not translate, as they were. |
| `Translations.StoreAllLastWins` | app/objects/element.rb:177-181 | After loading, a translated key holds the value of its last entry under the current locale. |
| `Translations.Backend.StoreTranslation` | app/objects/element.rb:179 | Storing one translation sets exactly that (locale, key). |
| `Elements.Normalize` | app/objects/element.rb:169-172 | Defines the meta after `check_naming`: group and primary key defaulted when nil, name classified. |
| `Elements.NormalizeFillsDefaults` | app/objects/element.rb:169-171 | After `check_naming` the group is set, and the primary key is set whenever a key exists. Values already set are kept. A defaulted primary key is a declared attribute. |
| `Elements.NormalizeIdempotent` | app/objects/element.rb:169-172 | With an idempotent `classify`, normalising twice gives the same meta as normalising once. |
| `Elements.GeneratedClassShape` | app/objects/element.rb:144-162 | The class generated for a non-static element holds exactly the persistent attributes and the stub attributes, and the i18n names. Its bindings are the validations then the callbacks. Its default scope is `element_id = id`, from the generated class code. |
| `Elements.Element.ClassName` | app/objects/element.rb:91-93 | Defines `class_name`: the stashed name once the record is destroyed, the current name before. |
| `Elements.Element.IsStatic` | app/objects/element.rb:125 | Defines the static test: the reserved key `static` is among the attribute keys. |
| `Elements.Element.HashShaped` | app/objects/element.rb:48-49 | Defines that the attributes hash holds no key twice; the constructor establishes it and no lifecycle step assigns the attributes. |
| `Elements.Element.Attached` | app/objects/element.rb:150-162 | Defines the class after `define!` declares this element's persistent fields, i18n names, stubs and bindings on it. |
| `Elements.Element.CsvAttributes` | app/objects/element.rb:67-73 | The first call computes the corrected csv projection (see Findings) and memoises it. Every later call returns the memo. |
| `Elements.Element.PublicAttributes` | app/objects/element.rb:67-73 | The first call computes the corrected public projection (see Findings) and memoises it. Every later call returns the memo. |
| `Elements.Element.CheckNaming` | app/objects/element.rb:169-174 | The group defaults to `tableize` of the name before classifying, only when it was nil. The primary key defaults to the first key, only when it was nil. The name becomes `classify(name)`. `redefine` says whether the meta differs from the last saved one. |
| `Elements.Element.Stash` | app/objects/element.rb:115-117 | Captures the current class name. `ClassName` returns that value from then on. |
| `Elements.Element.Pop` | app/objects/element.rb:138-142 | Unbinds the class name if it is bound, and does nothing otherwise. Every other binding is unchanged. |
| `Elements.Element.LoadTranslations` | app/objects/element.rb:177-181 | The backend ends up as the old one with every translation entry stored in order under the locale. |
| `Elements.Element.EvalBindings` | app/objects/element.rb:156-162 | The loop over validations then callbacks evaluates exactly their declared bindings, validations first, skipping an absent hash. |
| `Elements.Element.Define` | app/objects/element.rb:144-167 | Translations are loaded. If the class name is bound, its class gets the element's attributes and bindings attached and nothing else changes. Otherwise the call fails (`ok` false) and the table is untouched. |
| `Elements.Element.Gen` | app/objects/element.rb:119-136 | No-op when `redefine` is false and the name is bound; otherwise clears `redefine`. Non-static: the name is rebound to a fresh generated class with everything attached, and every other binding is unchanged. Static: the existing class gets the attachments, or the call fails if none is bound. `ok` iff the class name is bound afterwards. |
| `Elements.Element.Save` | app/objects/element.rb:57-59 | `check_naming`, then `gen!` only if the normalised meta differs from the last saved one; otherwise the save fails and nothing else changes. After a changed meta the class is recompiled, `ok` holds iff the class name is bound, and the meta is recorded as saved iff `ok`. |
| `Elements.Element.Destroy` | app/objects/element.rb:61-62 | Stash, destroy, pop: `ClassName` keeps its value, and exactly that name is unbound. |
| `RawJson.FilterKeys` | app/objects/element.rb:99-105 | Defines the column hash after the `except` filter and then the `only` filter, each applied only when given. |
| `RawJson.FiltersKeepOrder` | app/objects/element.rb:102-103 | An entry is kept by `Without` iff it is in the input and its key is not listed, kept by `Within` iff it is in the input and its key is listed, and both results are subsequences of the input. |
| `RawJson.FilterKeysSpec` | app/objects/element.rb:99-105 | An entry survives iff its key is not excepted and, when `only` is given, is listed there. Survivors keep column order. |
| `Scenarios.CreateUser` | app/objects/element.rb:57-59 | Saving a new `user` element binds its generated class under the classified name. The group comes from the name and the primary key is the first attribute. |
| `Scenarios.CreatedUserClass` | app/objects/element.rb:144-162 | The class generated for the new `user` element persists `email` and `name`, has no stubs, and is scoped to the element's id. |
| `Scenarios.Rename` | app/objects/element.rb:119-136 | Renaming a saved element and saving again binds the class under the new name. The group and primary key are kept, and every other binding stays, the old name's included. |
| `Scenarios.RenameThenDestroy` | app/objects/element.rb:119-142 | After create, rename and destroy, the class under the first classified name is still bound and the new name is not. The group from the first save survives the rename. |
| `Scenarios.DestroyStatic` | app/objects/element.rb:119-142 | Saving and destroying a static element over a class defined elsewhere leaves the table as before minus that class's name. |
| `Scenarios.ResaveIsNoop` | app/objects/element.rb:57-59 | A second unchanged save fails and leaves the class table and the translation backend as the first save left them. |
| `Scenarios.UnchangedSaveHalts` | app/objects/element.rb:57-59 | Saving an unchanged element whose class was unbound fails and leaves the name unbound. |
| `Scenarios.CsvMemoSticks` | app/objects/element.rb:70 | Reassigning settings and attributes between two calls does not change the csv projection. |

## Findings

| source | as written | input that shows it | evidently intended | confidence | as-written member | corrected member |
|---|---|---|---|---|---|---|
| app/objects/element.rb:70 | `attr_settings = cond ? attr_settings.keys.map(&:to_sym) : persistent_attributes`. Ruby parses this as `attr_settings = (cond ? … : …)`, so the true branch calls `keys` on the still-nil local and raises NoMethodError. | settings `{csv_attributes: {email: 1}}` (or `public_attributes`) with attributes `{email: "String"}` | `(attr_settings = settings[...]) ? attr_settings.keys : persistent_attributes`, which returns `[:email]` | high; not executed | `Attributes.ProjectionAsWritten` (`Attributes.CsvSettingCounterexample`, `Attributes.ProjectionAsWrittenDiverges`) | `Attributes.ConfiguredOrPersistent` (`Attributes.ProjectionFallback`), used by `Elements.Element.CsvAttributes` and `Elements.Element.PublicAttributes` |

## Left out

- Ruby metaprogramming. Generated class code and `class_eval` of binding
  lines are not evaluated. A class is a `Shape` value, and mutating a class
  object in place is rebinding its shape under the same name.
- Constant-name validity: `const_defined?` raises for names that are not
  valid constant names. The model accepts any string as a class name.
- Bindings are inert data. Evaluating one that names no known validator or
  callback raises in Ruby, partway through `define!`. That failure is not
  modelled.
- `klass.try :localize` is modelled by the `localizable` flag of a shape.
  Generated classes have it. The I18n mixin's own behaviour is not shown.
  Repeated `localize`, `store_accessor` and `attr_accessor` declarations are
  modelled as an order-preserving union of names.
- Translations.Backend.StoreTranslation: nested hashes are not
  deep-merged. A translation value is stored as one atomic string.
- ActiveRecord machinery: transactions, persistence and
  `validates_presence_of :name, :attributes`. `Elements.Element.Save`
  does not reject a blank name or empty attributes. Dirty tracking is
  reduced to comparing with the last saved meta. Loading an element from the
  database is not modelled. A raising `gen!` appears as `ok == false`,
  leaving the in-memory changes and the saved meta as they were.
- Elements.Element.Save requires a record that is not destroyed: saving a
  destroyed record is not modelled.
- `atoms` (a database query), `as_json` and the `to_json` serialisation in
  `raw_json` are library behaviour. `RawJson.FilterKeys` takes the column
  hash as input.
- Key access with symbols versus strings in the nested JSON hashes is not
  modelled. `settings` entries are given directly as optional lists, the
  keys of the csv and public hashes.
- An attribute `static` whose value is JSON null counts as non-static in
  Ruby. In the model every tag is a string, so the key alone decides.
- The Element's own `include Pubs::I18n` and its `localize` of the meta
  fields: Pubs::I18n is not part of this model. Name, attributes,
  validations, callbacks, translations and settings are single values that
  do not depend on the locale; only the translation backend is keyed by
  locale.
- The generated class's `self.element` finder and its `@@element` memo are
  not part of `Shape`; they are a database lookup.
- Concurrency, locking and atomic renames are not in the code.
- app/objects/program.rb is not part of this model. It evaluates arbitrary
  code and reads the wall clock.
