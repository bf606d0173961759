/**
 * The shared translation backend that `load_translations` writes into. Each
 * store overwrites the value under (locale, key); later entries win.
 */
module Translations {

  /** A translation key scoped by its locale. */
  type Key = (string, string)

  /** The `translations` hash of an element, in insertion order. */
  type TranslationList = seq<(string, string)>

  /** The backend's table after storing every entry of `ts` under `locale`, in order. */
  function StoreAll(table: map<Key, string>, locale: string, ts: TranslationList): map<Key, string>
    decreases |ts|
  {
    if ts == [] then table
    else StoreAll(table, locale, ts[..|ts| - 1])[(locale, ts[|ts| - 1].0) := ts[|ts| - 1].1]
  }

  /** A key of another locale, or one the element does not translate, keeps its value. */
  lemma {:induction false} StoreAllOthersUnchanged(table: map<Key, string>, locale: string, ts: TranslationList, key: Key)
    requires key.0 != locale || forall i :: 0 <= i < |ts| ==> ts[i].0 != key.1
    ensures key in StoreAll(table, locale, ts) <==> key in table
    ensures key in table ==> StoreAll(table, locale, ts)[key] == table[key]
    decreases |ts|
  {
    if ts != [] {
      var init := ts[..|ts| - 1];
      forall i | 0 <= i < |init| && key.0 == locale ensures init[i].0 != key.1 {
        assert init[i] == ts[i];
      }
      StoreAllOthersUnchanged(table, locale, init, key);
    }
  }

  /** A translated key holds the value of its last entry. */
  lemma {:induction false} StoreAllLastWins(table: map<Key, string>, locale: string, ts: TranslationList, i: nat)
    requires i < |ts|
    requires forall j :: i < j < |ts| ==> ts[j].0 != ts[i].0
    ensures (locale, ts[i].0) in StoreAll(table, locale, ts)
    ensures StoreAll(table, locale, ts)[(locale, ts[i].0)] == ts[i].1
    decreases |ts|
  {
    if i < |ts| - 1 {
      var init := ts[..|ts| - 1];
      assert init[i] == ts[i];
      forall j | i < j < |init| ensures init[j].0 != init[i].0 {
        assert init[j] == ts[j];
      }
      StoreAllLastWins(table, locale, init, i);
    }
  }

  /** The I18n backend shared by the whole process. */
  class Backend {
    var table: map<Key, string>

    constructor ()
      ensures table == map[]
    {
      table := map[];
    }

    /** Store one translation; any earlier value under the same key is replaced. */
    method StoreTranslation(locale: string, key: string, value: string)
      modifies this
      ensures table == old(table)[(locale, key) := value]
    {
      table := table[(locale, key) := value];
    }
  }
}
