/**
 * The attribute classifier of an Element: pure projections over the
 * insertion-ordered `attributes` hash (attribute name => type tag) and the
 * optional `settings` hash.
 */
module Attributes {
  import opened Wrappers

  /** The type tag that marks an attribute as transient (`Element::STUB`). */
  const Stub: string := "Stub"

  /** The reserved attribute key that marks an element as statically typed. */
  const StaticKey: string := "static"

  /** One entry of the `attributes` hash, in declaration order. */
  datatype Attr = Attr(key: string, tag: string)

  /** The keys of the `attributes` hash, in declaration order. */
  function Keys(attrs: seq<Attr>): seq<string> {
    if attrs == [] then [] else [attrs[0].key] + Keys(attrs[1..])
  }

  /** A Ruby hash never holds a key twice. */
  predicate DistinctKeys(attrs: seq<Attr>) {
    forall i, j :: 0 <= i < j < |attrs| ==> attrs[i].key != attrs[j].key
  }

  /** The names of the attributes whose type tag is not `Stub`, in declaration order. */
  function PersistentAttributes(attrs: seq<Attr>): seq<string> {
    if attrs == [] then []
    else if attrs[0].tag != Stub then [attrs[0].key] + PersistentAttributes(attrs[1..])
    else PersistentAttributes(attrs[1..])
  }

  /** The names of the attributes whose type tag is `Stub`, in declaration order. */
  function StubAttributes(attrs: seq<Attr>): seq<string> {
    if attrs == [] then []
    else if attrs[0].tag == Stub then [attrs[0].key] + StubAttributes(attrs[1..])
    else StubAttributes(attrs[1..])
  }

  /** `k` is a merge of `p` and `s`: each keeps its order, every element of `k` goes to exactly one. */
  ghost predicate Interleaves<T>(k: seq<T>, p: seq<T>, s: seq<T>)
    decreases |k|
  {
    if k == [] then p == [] && s == []
    else
      || (p != [] && p[0] == k[0] && Interleaves(k[1..], p[1..], s))
      || (s != [] && s[0] == k[0] && Interleaves(k[1..], p, s[1..]))
  }

  lemma {:induction false} ClassifierInterleaves(attrs: seq<Attr>)
    ensures Interleaves(Keys(attrs), PersistentAttributes(attrs), StubAttributes(attrs))
  {
    if attrs != [] {
      ClassifierInterleaves(attrs[1..]);
      assert Keys(attrs)[1..] == Keys(attrs[1..]);
      if attrs[0].tag != Stub {
        assert PersistentAttributes(attrs)[1..] == PersistentAttributes(attrs[1..]);
      } else {
        assert StubAttributes(attrs)[1..] == StubAttributes(attrs[1..]);
      }
    }
  }

  lemma {:induction false} InterleavesMultiset<T>(k: seq<T>, p: seq<T>, s: seq<T>)
    requires Interleaves(k, p, s)
    ensures multiset(k) == multiset(p) + multiset(s)
    ensures Subsequence(p, k) && Subsequence(s, k)
  {
    if k != [] {
      assert k == [k[0]] + k[1..];
      if p != [] && p[0] == k[0] && Interleaves(k[1..], p[1..], s) {
        InterleavesMultiset(k[1..], p[1..], s);
        assert p == [p[0]] + p[1..];
      } else {
        InterleavesMultiset(k[1..], p, s[1..]);
        assert s == [s[0]] + s[1..];
      }
    }
  }

  /**
   * The persistent and the stub attributes split the declared keys: together
   * they hold every key exactly as often as the hash does, and each keeps the
   * declaration order.
   */
  lemma ClassifierPartition(attrs: seq<Attr>)
    ensures multiset(Keys(attrs)) == multiset(PersistentAttributes(attrs)) + multiset(StubAttributes(attrs))
    ensures forall k :: k in Keys(attrs) <==> k in PersistentAttributes(attrs) || k in StubAttributes(attrs)
    ensures Subsequence(PersistentAttributes(attrs), Keys(attrs))
    ensures Subsequence(StubAttributes(attrs), Keys(attrs))
  {
    ClassifierInterleaves(attrs);
    InterleavesMultiset(Keys(attrs), PersistentAttributes(attrs), StubAttributes(attrs));
    forall k ensures k in Keys(attrs) <==> k in PersistentAttributes(attrs) || k in StubAttributes(attrs) {
      assert k in Keys(attrs) <==> k in multiset(Keys(attrs));
      assert k in PersistentAttributes(attrs) <==> k in multiset(PersistentAttributes(attrs));
      assert k in StubAttributes(attrs) <==> k in multiset(StubAttributes(attrs));
    }
  }

  /** Which declared entries each projection draws its keys from. */
  lemma {:induction false} ClassifierMembership(attrs: seq<Attr>, k: string)
    ensures k in PersistentAttributes(attrs) <==> exists i :: 0 <= i < |attrs| && attrs[i].key == k && attrs[i].tag != Stub
    ensures k in StubAttributes(attrs) <==> exists i :: 0 <= i < |attrs| && attrs[i].key == k && attrs[i].tag == Stub
  {
    if attrs != [] {
      ClassifierMembership(attrs[1..], k);
      if exists i :: 0 <= i < |attrs| && attrs[i].key == k && attrs[i].tag != Stub {
        var i :| 0 <= i < |attrs| && attrs[i].key == k && attrs[i].tag != Stub;
        if i > 0 { assert attrs[1..][i - 1] == attrs[i]; }
      }
      if exists i :: 0 <= i < |attrs| && attrs[i].key == k && attrs[i].tag == Stub {
        var i :| 0 <= i < |attrs| && attrs[i].key == k && attrs[i].tag == Stub;
        if i > 0 { assert attrs[1..][i - 1] == attrs[i]; }
      }
      if exists i :: 0 <= i < |attrs[1..]| && attrs[1..][i].key == k && attrs[1..][i].tag != Stub {
        var i :| 0 <= i < |attrs[1..]| && attrs[1..][i].key == k && attrs[1..][i].tag != Stub;
        assert attrs[i + 1] == attrs[1..][i];
      }
      if exists i :: 0 <= i < |attrs[1..]| && attrs[1..][i].key == k && attrs[1..][i].tag == Stub {
        var i :| 0 <= i < |attrs[1..]| && attrs[1..][i].key == k && attrs[1..][i].tag == Stub;
        assert attrs[i + 1] == attrs[1..][i];
      }
    }
  }

  /** No attribute name is both persisted and a stub. */
  lemma ClassifierDisjoint(attrs: seq<Attr>)
    requires DistinctKeys(attrs)
    ensures forall k :: k in PersistentAttributes(attrs) ==> k !in StubAttributes(attrs)
  {
    forall k | k in PersistentAttributes(attrs)
      ensures k !in StubAttributes(attrs)
    {
      ClassifierMembership(attrs, k);
    }
  }

  /** Neither projection repeats a name. */
  lemma {:induction false} ProjectionsDistinct(attrs: seq<Attr>)
    requires DistinctKeys(attrs)
    ensures NoDuplicates(PersistentAttributes(attrs))
    ensures NoDuplicates(StubAttributes(attrs))
  {
    if attrs != [] {
      var rest := attrs[1..];
      assert DistinctKeys(rest) by {
        forall i, j | 0 <= i < j < |rest| ensures rest[i].key != rest[j].key {
          assert rest[i] == attrs[i + 1] && rest[j] == attrs[j + 1];
        }
      }
      ProjectionsDistinct(rest);
      forall i | 0 <= i < |rest| ensures rest[i].key != attrs[0].key {
        assert rest[i] == attrs[i + 1];
      }
      ClassifierMembership(rest, attrs[0].key);
    }
  }

  /** The optional `settings` hash, reduced to the entries the classifier reads. */
  datatype Settings = Settings(
    i18nAttributes: Option<seq<string>>,
    // the keys, in order, of the `csv_attributes` hash
    csvAttributes: Option<seq<string>>,
    // the keys, in order, of the `public_attributes` hash
    publicAttributes: Option<seq<string>>)

  /** The `i18n_attributes` list of the settings; empty when settings or the entry are absent. */
  function I18nAttributes(settings: Option<Settings>): seq<string> {
    if settings.Some? && settings.value.i18nAttributes.Some? then settings.value.i18nAttributes.value else []
  }

  /** The `csv_attributes` entry of the settings, absent when the settings are. */
  function CsvEntry(settings: Option<Settings>): Option<seq<string>> {
    if settings.Some? then settings.value.csvAttributes else None
  }

  /** The `public_attributes` entry of the settings, absent when the settings are. */
  function PublicEntry(settings: Option<Settings>): Option<seq<string>> {
    if settings.Some? then settings.value.publicAttributes else None
  }

  /**
   * The csv or public projection as evidently intended: the keys of the
   * settings entry when it is present, the persistent attributes otherwise.
   */
  function ConfiguredOrPersistent(entry: Option<seq<string>>, attrs: seq<Attr>): seq<string> {
    if entry.Some? then entry.value else PersistentAttributes(attrs)
  }

  /**
   * A configured projection is the configured list; an unconfigured one holds
   * exactly the declared keys that are not stubs, so a stub never reaches a
   * csv or public projection unless the settings list it.
   */
  lemma ProjectionFallback(entry: Option<seq<string>>, attrs: seq<Attr>)
    requires DistinctKeys(attrs)
    ensures entry.Some? ==> ConfiguredOrPersistent(entry, attrs) == entry.value
    ensures entry.None? ==> forall k :: k in ConfiguredOrPersistent(entry, attrs) <==> k in Keys(attrs) && k !in StubAttributes(attrs)
  {
    ClassifierPartition(attrs);
    ClassifierDisjoint(attrs);
  }

  /** What the csv/public reader raises, as written. */
  datatype RubyError = NoMethodError(receiver: string, selector: string)

  /**
   * The csv/public reader as written. Ruby binds the conditional tighter than
   * the assignment to the local `attr_settings`, so the branch taken when the
   * entry is present calls `keys` on that local while it is still nil, which
   * raises NoMethodError.
   */
  function ProjectionAsWritten(entry: Option<seq<string>>, attrs: seq<Attr>): Result<seq<string>, RubyError> {
    if entry.Some? then Failure(NoMethodError("nil", "keys")) else Success(PersistentAttributes(attrs))
  }

  /** As written, the reader agrees with the intended one only when the entry is absent. */
  lemma ProjectionAsWrittenDiverges(entry: Option<seq<string>>, attrs: seq<Attr>)
    ensures ProjectionAsWritten(entry, attrs) == Success(ConfiguredOrPersistent(entry, attrs)) <==> entry.None?
  {
  }

  /** A concrete element whose csv setting makes the reader raise instead of returning `[email]`. */
  lemma CsvSettingCounterexample()
    ensures var settings := Some(Settings(None, Some(["email"]), None));
            var attrs := [Attr("email", "String")];
            ProjectionAsWritten(CsvEntry(settings), attrs) == Failure(NoMethodError("nil", "keys"))
            && ConfiguredOrPersistent(CsvEntry(settings), attrs) == ["email"]
  {
  }
}
