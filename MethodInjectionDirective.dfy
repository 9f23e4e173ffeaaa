/** The key of a method injection directive: the method's name followed by
    the full names of its parameter types, in declaration order, with no
    separator between them. */
module Directives {
  import opened Wrappers
  import opened Activation

  /** The reflection view of an injected method: its name and its
      parameters' types in declaration order. */
  datatype MethodMember = MethodMember(name: string, parameterTypes: seq<TypeRef>)

  /** The text a type's full name contributes when appended to a string
      builder: appending a null string appends nothing. */
  function AppendedName(t: TypeRef): string
  {
    match t.fullName
    case None => ""
    case Some(s) => s
  }

  /** The concatenation of the parameter types' names, in order. */
  function ParameterNames(ps: seq<TypeRef>): string
  {
    if ps == [] then "" else ParameterNames(ps[..|ps| - 1]) + AppendedName(ps[|ps| - 1])
  }

  /** The directive key of a method. */
  function Key(m: MethodMember): string
  {
    m.name + ParameterNames(m.parameterTypes)
  }

  /** Total length of the parameter types' names. */
  function NamesLength(ps: seq<TypeRef>): nat
  {
    if ps == [] then 0 else NamesLength(ps[..|ps| - 1]) + |AppendedName(ps[|ps| - 1])|
  }

  /** Builds the key by appending to a buffer, one parameter at a time. */
  method BuildKey(m: MethodMember) returns (key: string)
    ensures key == Key(m)
    ensures m.name <= key
  {
    var sb := m.name;
    var parameters := m.parameterTypes;
    var i := 0;
    while i < |parameters|
      invariant 0 <= i <= |parameters|
      invariant sb == m.name + ParameterNames(parameters[..i])
    {
      assert parameters[..i + 1][..i] == parameters[..i];
      sb := sb + AppendedName(parameters[i]);
      i := i + 1;
    }
    assert parameters[..i] == parameters;
    key := sb;
  }

  /** A method without parameters has its own name as key. */
  lemma KeyWithoutParameters(m: MethodMember)
    requires m.parameterTypes == []
    ensures Key(m) == m.name
  {
  }

  /** Names of a concatenated parameter list are the concatenation of the
      names of its parts. */
  lemma {:induction false} ParameterNamesAppend(a: seq<TypeRef>, b: seq<TypeRef>)
    ensures ParameterNames(a + b) == ParameterNames(a) + ParameterNames(b)
    decreases |b|
  {
    if b != [] {
      var init := b[..|b| - 1];
      assert (a + b)[..|a + b| - 1] == a + init;
      ParameterNamesAppend(a, init);
    } else {
      assert a + b == a;
    }
  }

  /** Parameter k contributes its name right after the names of the
      parameters declared before it and right before those declared after
      it: the key lists the parameter types in declaration order. */
  lemma KeyAt(m: MethodMember, k: nat)
    requires k < |m.parameterTypes|
    ensures var ps := m.parameterTypes;
            Key(m) == m.name + ParameterNames(ps[..k]) + AppendedName(ps[k]) + ParameterNames(ps[k + 1..])
  {
    var ps := m.parameterTypes;
    assert ps == ps[..k] + [ps[k]] + ps[k + 1..];
    ParameterNamesAppend(ps[..k] + [ps[k]], ps[k + 1..]);
    ParameterNamesAppend(ps[..k], [ps[k]]);
    assert ParameterNames([ps[k]]) == AppendedName(ps[k]) by {
      assert [ps[k]][..0] == [];
    }
  }

  /** The key's length is the name's length plus the lengths of the
      parameter type names. */
  lemma {:induction false} KeyLength(m: MethodMember)
    ensures |Key(m)| == |m.name| + NamesLength(m.parameterTypes)
  {
    NamesLengthIsLength(m.parameterTypes);
  }

  lemma {:induction false} NamesLengthIsLength(ps: seq<TypeRef>)
    ensures |ParameterNames(ps)| == NamesLength(ps)
  {
    if ps != [] {
      NamesLengthIsLength(ps[..|ps| - 1]);
    }
  }

  /** Appending one parameter extends the key by exactly that parameter's
      name: the key of a longer signature extends the key of its prefix. */
  lemma {:induction false} KeyExtends(m: MethodMember, t: TypeRef)
    ensures Key(MethodMember(m.name, m.parameterTypes + [t])) == Key(m) + AppendedName(t)
  {
    assert (m.parameterTypes + [t])[..|m.parameterTypes|] == m.parameterTypes;
  }

  /** Name and parameter names are run together without a separator, so
      two different methods can share a key: Foo(BarX) and FooBar(X). */
  lemma KeyCollision()
    ensures var barX := TypeRef(1, Some("BarX"));
            var x := TypeRef(2, Some("X"));
            MethodMember("Foo", [barX]) != MethodMember("FooBar", [x])
            && Key(MethodMember("Foo", [barX])) == Key(MethodMember("FooBar", [x]))
  {
    var barX := TypeRef(1, Some("BarX"));
    var x := TypeRef(2, Some("X"));
    assert ParameterNames([barX]) == "BarX" by {
      assert [barX][..0] == [];
    }
    assert ParameterNames([x]) == "X" by {
      assert [x][..0] == [];
    }
  }
}
