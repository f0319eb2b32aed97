/** InterfaceGen/CodeWriters/ComparableWriter.cs: the `IComparable<T>` section writer. It writes the
  * four ordering operators and the `CompareTo` methods over the same key members as the
  * `IEquatable<T>` writer. The meaning of the code it writes is given by functions over the results
  * of the key comparisons that code would make. */
module ComparableWriters {
  import opened Wrappers
  import opened InterfaceFlags
  import opened Coding
  import Emit
  import Signatures
  import Generate
  import CodingBuilder
  import Naming
  import EquatableWriters

  type MemberSig = Signatures.MemberSig

  /** `typeof(IComparable<>).FullName[..^2]` followed by `<`. */
  const ComparableNameStart: string := "System.IComparable<"

  // ---------------------------------------------------------------- CanImplement

  /** `CanImplement`: the display string starts with `System.IComparable<` and ends with `>`. */
  predicate CanImplement(i: Generate.NamedType)
  {
    Generate.IsConstructedFrom(i, ComparableNameStart)
  }

  /** The writer accepts exactly the displays `System.IComparable<` + argument + `>`. */
  lemma CanImplementIff(i: Generate.NamedType)
    ensures CanImplement(i) <==>
      |ComparableNameStart| < |i.display| &&
      i.display == ComparableNameStart + i.display[|ComparableNameStart|..|i.display| - 1] + ">"
  {
    if CanImplement(i) {
      Generate.ConstructedFromHasArgument(i, ComparableNameStart);
    } else if |ComparableNameStart| < |i.display| &&
      i.display == ComparableNameStart + i.display[|ComparableNameStart|..|i.display| - 1] + ">" {
      Generate.ConstructedFromArgument(i, ComparableNameStart, i.display[|ComparableNameStart|..|i.display| - 1]);
    }
  }

  // ---------------------------------------------------------------- WriteOperators

  /** The operators of a class, end-of-line comments included; the eight `{{type}}` holes are `{0}`‥`{7}`. */
  const ClassOperatorLines: seq<string> := [
    "public static bool operator <({0}? left, {1}? right)",
    "{{",
    "    if (left is null)",
    "    {{",
    "        return right is not null;   // `null` is only less than non-`null`",
    "    }}",
    "    if (right is null)",
    "    {{",
    "        return false;   // nothing is smaller than `null`",
    "    }}",
    "    return left.CompareTo(right) < 0;",
    "}}",
    "public static bool operator <=({2}? left, {3}? right)",
    "{{",
    "    if (left is null)",
    "    {{",
    "        return true;    // `null` is less than or equal to everything, including another `null`",
    "    }}",
    "    if (right is null)",
    "    {{",
    "        return false;   // (left is null)",
    "    }}",
    "    return left.CompareTo(right) <= 0;",
    "}}",
    "public static bool operator >({4}? left, {5}? right)",
    "{{",
    "    if (left is null)",
    "    {{",
    "        return false;   // `null` is greater than nothing",
    "    }}",
    "    if (right is null)",
    "    {{",
    "        return true;    // (left is not null)",
    "    }}",
    "    return left.CompareTo(right) > 0;",
    "}}",
    "public static bool operator >=({6}? left, {7}? right)",
    "{{",
    "    if (left is null)",
    "    {{",
    "        return right is null;   // `null` is only greater than or equal to another `null`",
    "    }}",
    "    if (right is null)",
    "    {{",
    "        return true;   // everything is greater than or equal to `null`",
    "    }}",
    "    return left.CompareTo(right) >= 0;",
    "}}"]

  /** The operators of a struct. */
  const StructOperatorLines: seq<string> := [
    "public static bool operator <({0} left, {1} right)",
    "{{",
    "    return left.CompareTo(right) < 0;",
    "}}",
    "public static bool operator <=({2} left, {3} right)",
    "{{",
    "    return left.CompareTo(right) <= 0;",
    "}}",
    "public static bool operator >({4} left, {5} right)",
    "{{",
    "    return left.CompareTo(right) > 0;",
    "}}",
    "public static bool operator >=({6} left, {7} right)",
    "{{",
    "    return left.CompareTo(right) >= 0;",
    "}}"]

  /** `WriteOperators`: one code block, the class form when `ObjType` is exactly `Class`. */
  function OperatorsEmission(info: Generate.Info): Emit.Emission
  {
    var t := Str(info.implementationTypeName);
    Emit.Plain([CodeBlock(Generate.RawText(if info.objType == Class then ClassOperatorLines else StructOperatorLines),
      [t, t, t, t, t, t, t, t])])
  }

  /** What the class operators written above return, for operands that are null (None) or objects;
    * `compare` is the instance `CompareTo`. */
  function ClassLess<R>(left: Option<R>, right: Option<R>, compare: (R, R) -> int): bool
  {
    if left.None? then right.Some? else if right.None? then false else compare(left.value, right.value) < 0
  }

  function ClassLessOrEqual<R>(left: Option<R>, right: Option<R>, compare: (R, R) -> int): bool
  {
    if left.None? then true else if right.None? then false else compare(left.value, right.value) <= 0
  }

  function ClassGreater<R>(left: Option<R>, right: Option<R>, compare: (R, R) -> int): bool
  {
    if left.None? then false else if right.None? then true else compare(left.value, right.value) > 0
  }

  function ClassGreaterOrEqual<R>(left: Option<R>, right: Option<R>, compare: (R, R) -> int): bool
  {
    if left.None? then right.None? else if right.None? then true else compare(left.value, right.value) >= 0
  }

  /** The class operators order null below every object: `null < x` iff x is an object, `null <= x`
    * always, `null > x` never, `null >= x` iff x is null; and an object is above null. */
  lemma NullIsLeast<R>(x: Option<R>, y: R, compare: (R, R) -> int)
    ensures ClassLess(None, x, compare) <==> x.Some?
    ensures ClassLessOrEqual(None, x, compare)
    ensures !ClassGreater(None, x, compare)
    ensures ClassGreaterOrEqual(None, x, compare) <==> x.None?
    ensures ClassGreater(Some(y), None, compare) && !ClassLessOrEqual(Some(y), None, compare)
  {
  }

  /** `<` and `>=` are complements, as are `<=` and `>`, for classes (null included) and structs. */
  lemma OperatorsComplement<R>(left: Option<R>, right: Option<R>, l: R, r: R, compare: (R, R) -> int)
    ensures ClassLess(left, right, compare) == !ClassGreaterOrEqual(left, right, compare)
    ensures ClassLessOrEqual(left, right, compare) == !ClassGreater(left, right, compare)
    ensures (compare(l, r) < 0) == !(compare(l, r) >= 0) && (compare(l, r) <= 0) == !(compare(l, r) > 0)
  {
  }

  // ---------------------------------------------------------------- WriteMethods

  /** The per-key block of `compareProperties`; its holes are the type, the name, `varName` and the
    * name. */
  const KeyCompareLines: seq<string> := [
    "c = Comparer<{0}>.Default.Compare(this.{1}, {2}.{3});",
    "if (c != 0) return c;"]

  /** `compareProperties(code, v)`: one block and a line break per key, in order. */
  function CompareItems(keys: seq<MemberSig>, v: string): (r: seq<Applied>)
    ensures |r| == |keys|
  {
    if |keys| == 0 then []
    else
      var item := Applied([CodeBlock(Generate.RawText(KeyCompareLines),
        [Signatures.TypeObj(keys[0].returnType), Str(keys[0].name), Str(v), Str(keys[0].name)]), NewLine]);
      [item] + CompareItems(keys[1..], v)
  }

  function CompareProperties(keys: seq<MemberSig>, v: string): Obj
  {
    Callback([Enumerate(CompareItems(keys, v))])
  }

  /** The interface `CompareTo`; its holes are the interface name, its variable twice and the
    * comparisons. */
  const InterfaceCompareLines: seq<string> := [
    "public int CompareTo({0}? {1})",
    "{{",
    "    // We exist, so we're 'bigger' than null",
    "    if ({2} is null) return 1;",
    "    int c;",
    "    {3}",
    "    // we know c == 0",
    "    return 0;",
    "}}"]

  /** The direct `CompareTo` of a struct; its holes are the type name, its variable and the comparisons. */
  const DirectCompareLines: seq<string> := [
    "public int CompareTo({0} {1})",
    "{{",
    "    int c;",
    "    {2}",
    "    // we know c == 0",
    "    return 0;",
    "}}"]

  /** `WriteMethods`: the interface `CompareTo`, and for a struct (ObjType exactly `Struct`) the
    * direct one, each followed by two line breaks. Key selection may throw before anything is
    * written. */
  function MethodsEmission(info: Generate.Info, env: Generate.Env, ivar: string): Emit.Emission
  {
    match EquatableWriters.KeyMembers(info.members)
    case Err(e) => Emit.Emission([], Some(e))
    case Ok(keys) =>
      var iface := info.interfaceType.name;
      var typeName := info.implementationTypeName;
      var varName := Naming.VariableNameOf(env.syntax, typeName);
      Emit.Plain(
        [CodeBlock(Generate.RawText(InterfaceCompareLines), [Str(iface), Str(ivar), Str(ivar), CompareProperties(keys, ivar)]),
         NewLines(2)] +
        if info.objType == Struct then
          [CodeBlock(Generate.RawText(DirectCompareLines), [Str(typeName), Str(varName), CompareProperties(keys, varName)]),
           NewLines(2)]
        else [])
  }

  /** What the statements written for the keys compute on `this` = `x` and the argument `y`: the
    * first non-zero key comparison, or 0 (`return 0`) when every key compares equal. */
  function Lexicographic<R, K>(keys: seq<K>, x: R, y: R, compare: (K, R, R) -> int): int
  {
    if |keys| == 0 then 0
    else
      var c := compare(keys[0], x, y);
      if c != 0 then c else Lexicographic(keys[1..], x, y, compare)
  }

  /** What the interface `CompareTo` written above returns: 1 for null, else the lexicographic result. */
  function GeneratedCompareTo<R, K>(x: R, other: Option<R>, keys: seq<K>, compare: (K, R, R) -> int): int
  {
    if other.None? then 1 else Lexicographic(keys, x, other.value, compare)
  }

  /** The comparison is lexicographic: it is 0 iff every key compares equal, and otherwise it is the
    * result of the first key that does not. */
  lemma {:induction false} LexicographicMeaning<R, K>(keys: seq<K>, x: R, y: R, compare: (K, R, R) -> int)
    decreases |keys|
    ensures Lexicographic(keys, x, y, compare) == 0 <==> forall i :: 0 <= i < |keys| ==> compare(keys[i], x, y) == 0
    ensures Lexicographic(keys, x, y, compare) != 0 ==>
      exists i :: 0 <= i < |keys| && (forall j :: 0 <= j < i ==> compare(keys[j], x, y) == 0) &&
        Lexicographic(keys, x, y, compare) == compare(keys[i], x, y)
  {
    if |keys| > 0 {
      LexicographicMeaning(keys[1..], x, y, compare);
      assert forall i :: 1 <= i < |keys| ==> keys[i] == keys[1..][i - 1];
      if compare(keys[0], x, y) == 0 && Lexicographic(keys, x, y, compare) != 0 {
        var i :| 0 <= i < |keys[1..]| && (forall j :: 0 <= j < i ==> compare(keys[1..][j], x, y) == 0) &&
          Lexicographic(keys[1..], x, y, compare) == compare(keys[1..][i], x, y);
        assert forall j :: 0 <= j < i + 1 ==> compare(keys[j], x, y) == 0;
      }
    }
  }

  /** A key comparison whose sign flips when its operands are swapped. */
  ghost predicate Antisymmetric<R, K>(keys: seq<K>, x: R, y: R, compare: (K, R, R) -> int)
  {
    forall i :: 0 <= i < |keys| ==> Sign(compare(keys[i], x, y)) == -Sign(compare(keys[i], y, x))
  }

  function Sign(c: int): int
  {
    if c < 0 then -1 else if c > 0 then 1 else 0
  }

  /** When every key comparison is antisymmetric, so is the generated comparison. */
  lemma {:induction false} LexicographicAntisymmetric<R, K>(keys: seq<K>, x: R, y: R, compare: (K, R, R) -> int)
    requires Antisymmetric(keys, x, y, compare)
    decreases |keys|
    ensures Sign(Lexicographic(keys, x, y, compare)) == -Sign(Lexicographic(keys, y, x, compare))
  {
    if |keys| > 0 {
      assert Sign(compare(keys[0], x, y)) == -Sign(compare(keys[0], y, x));
      assert forall i :: 1 <= i < |keys| ==> keys[i] == keys[1..][i - 1];
      LexicographicAntisymmetric(keys[1..], x, y, compare);
    }
  }

  // ---------------------------------------------------------------- the section actions on a builder

  /** `WriteOperators(codeBuilder, generate)`. */
  method WriteOperators(builder: CodingBuilder.CodeBuilder, generate: Generate.GenerateInfo) returns (thrown: Option<Exception>)
    requires builder.Valid()
    modifies builder, builder.chars
    ensures builder.Valid() && (builder.chars == old(builder.chars) || fresh(builder.chars))
    ensures builder.Ending(thrown) == Emit.RunEmission(OperatorsEmission(generate.Snapshot()), old(builder.State()))
  {
    thrown := Emit.Perform(OperatorsEmission(generate.Snapshot()), builder);
  }

  /** `WriteMethods(codeBuilder, generate)`. */
  method WriteMethods(builder: CodingBuilder.CodeBuilder, generate: Generate.GenerateInfo, env: Generate.Env,
    naming: Naming.VariableNaming) returns (thrown: Option<Exception>)
    requires builder.Valid() && naming.syntax == env.syntax
    modifies builder, builder.chars, naming
    ensures builder.Valid() && (builder.chars == old(builder.chars) || fresh(builder.chars))
    ensures var v := Generate.VariableName(env.syntax, old(naming.counter), generate.interfaceTypeSymbol.name);
      naming.counter == v.1 &&
      builder.Ending(thrown) == Emit.RunEmission(MethodsEmission(generate.Snapshot(), env, v.0), old(builder.State()))
  {
    var typeName, varName := generate.GetLocals(env.syntax);
    var interfaceVarName := Generate.InterfaceVariableName(naming, generate.interfaceTypeSymbol.name);
    thrown := Emit.Perform(MethodsEmission(generate.Snapshot(), env, interfaceVarName), builder);
  }
}
