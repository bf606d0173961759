/**
 * The binding compiler of an Element: its `validations` and `callbacks`
 * hashes become an ordered list of class-level declarations attached to the
 * generated class. Each hash entry becomes one declaration: its key names the
 * validator or callback, its value gives the arguments.
 */
module Bindings {
  import opened Wrappers

  /** One declaration evaluated in the class body: a validator or callback name and its arguments. */
  datatype Binding = Binding(kind: string, target: string)

  /** A `validations` or `callbacks` hash, in insertion order. */
  type Declarations = seq<(string, string)>

  /** The declarations of one hash, one per entry. */
  function Compile(decls: Declarations): seq<Binding> {
    if decls == [] then []
    else [Binding(decls[0].0, decls[0].1)] + Compile(decls[1..])
  }

  /** One binding per hash entry, in the hash's order, carrying that entry's key and value. */
  lemma {:induction false} CompileEntries(decls: Declarations)
    ensures |Compile(decls)| == |decls|
    ensures forall i :: 0 <= i < |decls| ==> Compile(decls)[i] == Binding(decls[i].0, decls[i].1)
  {
    if decls != [] {
      CompileEntries(decls[1..]);
      forall i | 1 <= i < |decls| ensures Compile(decls)[i] == Binding(decls[i].0, decls[i].1) {
        assert Compile(decls)[i] == Compile(decls[1..])[i - 1];
        assert decls[1..][i - 1] == decls[i];
      }
    }
  }

  /** The entries of an optional hash: none when it is absent. */
  function Entries(decls: Option<Declarations>): Declarations {
    if decls.Some? then decls.value else []
  }

  /** The bindings of an optional hash. */
  function CompileOptional(decls: Option<Declarations>): seq<Binding> {
    Compile(Entries(decls))
  }

  /** The bindings of a list of optional hashes, taken in list order. */
  function CompileAll(props: seq<Option<Declarations>>): seq<Binding>
    decreases |props|
  {
    if props == [] then []
    else CompileAll(props[..|props| - 1]) + CompileOptional(props[|props| - 1])
  }

  /** Taking one more hash appends its bindings. */
  lemma CompileAllSnoc(props: seq<Option<Declarations>>, i: nat)
    requires i < |props|
    ensures CompileAll(props[..i + 1]) == CompileAll(props[..i]) + CompileOptional(props[i])
  {
    assert props[..i + 1][..i] == props[..i];
  }

  /** The bindings `define!` attaches: the validations first, then the callbacks. */
  function DeclaredBindings(validations: Option<Declarations>, callbacks: Option<Declarations>): seq<Binding> {
    CompileOptional(validations) + CompileOptional(callbacks)
  }

  /** Two optional hashes contribute their bindings one after the other. */
  lemma CompileAllPair(first: Option<Declarations>, second: Option<Declarations>)
    ensures CompileAll([first, second]) == CompileOptional(first) + CompileOptional(second)
  {
    var props := [first, second];
    assert props[..|props| - 1] == [first];
    assert props[|props| - 1] == second;
    assert [first][..|[first]| - 1] == [];
    assert [first][|[first]| - 1] == first;
    assert CompileAll([first]) == CompileOptional(first);
    assert CompileAll(props) == CompileAll([first]) + CompileOptional(second);
  }

  /** Two hashes compiled one after the other: the first one's entries, then the second one's. */
  lemma CompileBoth(first: Declarations, second: Declarations)
    ensures var bs := Compile(first) + Compile(second);
            && |bs| == |first| + |second|
            && (forall i :: 0 <= i < |first| ==> bs[i] == Binding(first[i].0, first[i].1))
            && (forall j :: 0 <= j < |second| ==> bs[|first| + j] == Binding(second[j].0, second[j].1))
  {
    var bf, bsd := Compile(first), Compile(second);
    CompileEntries(first);
    CompileEntries(second);
    forall i | 0 <= i < |first| ensures (bf + bsd)[i] == Binding(first[i].0, first[i].1) {
      assert (bf + bsd)[i] == bf[i];
    }
    forall j | 0 <= j < |second| ensures (bf + bsd)[|first| + j] == Binding(second[j].0, second[j].1) {
      assert (bf + bsd)[|first| + j] == bsd[j];
    }
  }

  /**
   * The validations' bindings come first, one per entry in order, then the
   * callbacks' bindings; an absent hash contributes nothing.
   */
  lemma DeclaredBindingsOrder(validations: Option<Declarations>, callbacks: Option<Declarations>)
    ensures var v, c := Entries(validations), Entries(callbacks);
            var bs := DeclaredBindings(validations, callbacks);
            && |bs| == |v| + |c|
            && (forall i :: 0 <= i < |v| ==> bs[i] == Binding(v[i].0, v[i].1))
            && (forall j :: 0 <= j < |c| ==> bs[|v| + j] == Binding(c[j].0, c[j].1))
  {
    CompileBoth(Entries(validations), Entries(callbacks));
  }
}
