/**
 * The key filter of `raw_json`: from the element's columns, in column order,
 * first drop the keys listed under `except`, then keep only the keys listed
 * under `only`. Either option may be absent.
 */
module RawJson {
  import opened Wrappers

  /** The entries of `json` whose key is not listed in `keys`, in order. */
  function Without<V>(json: seq<(string, V)>, keys: seq<string>): seq<(string, V)> {
    if json == [] then []
    else if json[0].0 in keys then Without(json[1..], keys)
    else [json[0]] + Without(json[1..], keys)
  }

  /** The entries of `json` whose key is listed in `keys`, in order. */
  function Within<V>(json: seq<(string, V)>, keys: seq<string>): seq<(string, V)> {
    if json == [] then []
    else if json[0].0 in keys then [json[0]] + Within(json[1..], keys)
    else Within(json[1..], keys)
  }

  /** The column hash after the `except` and then the `only` filter. */
  function FilterKeys<V>(json: seq<(string, V)>, except: Option<seq<string>>, only: Option<seq<string>>): seq<(string, V)> {
    var kept := if except.Some? then Without(json, except.value) else json;
    if only.Some? then Within(kept, only.value) else kept
  }

  /** Each filter keeps exactly the entries it should, in their order. */
  lemma {:induction false} FiltersKeepOrder<V>(json: seq<(string, V)>, keys: seq<string>)
    ensures forall e :: e in Without(json, keys) <==> e in json && e.0 !in keys
    ensures forall e :: e in Within(json, keys) <==> e in json && e.0 in keys
    ensures Subsequence(Without(json, keys), json) && Subsequence(Within(json, keys), json)
  {
    if json != [] {
      FiltersKeepOrder(json[1..], keys);
      assert forall e :: e in json <==> e == json[0] || e in json[1..];
      if json[0].0 in keys {
        assert Within(json, keys)[1..] == Within(json[1..], keys);
      } else {
        assert Without(json, keys)[1..] == Without(json[1..], keys);
      }
    }
  }

  /**
   * An entry survives exactly when its key is not excepted and, if `only` is
   * given, is listed there; survivors keep the column order.
   */
  lemma FilterKeysSpec<V>(json: seq<(string, V)>, except: Option<seq<string>>, only: Option<seq<string>>)
    ensures forall e :: e in FilterKeys(json, except, only) <==>
              && e in json
              && (except.Some? ==> e.0 !in except.value)
              && (only.Some? ==> e.0 in only.value)
    ensures Subsequence(FilterKeys(json, except, only), json)
  {
    var kept := if except.Some? then Without(json, except.value) else json;
    if except.Some? {
      FiltersKeepOrder(json, except.value);
    } else {
      SubsequenceReflexive(json);
    }
    if only.Some? {
      FiltersKeepOrder(kept, only.value);
      SubsequenceTransitive(FilterKeys(json, except, only), kept, json);
    }
  }
}
