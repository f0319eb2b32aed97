/** InterfaceGen/CodeWriters/EquatableWriter.cs: the `IEquatable<T>` section writer. It writes the
  * `==`/`!=` operators and the `Equals`/`GetHashCode` methods over the key members. Each section
  * action is the list of builder calls it makes (`Emit.Emission`); the meaning of the code it
  * writes is given by functions over the values that code would see. */
module EquatableWriters {
  import opened Wrappers
  import opened Flags
  import opened InterfaceFlags
  import opened Coding
  import opened Numbers
  import Strings
  import Template
  import TextHelper
  import Emit
  import Signatures
  import Generate
  import Comparison
  import CodingBuilder
  import Naming

  type MemberSig = Signatures.MemberSig

  /** `typeof(IEquatable<>).FullName[..^2]` followed by `<`. */
  const EquatableNameStart: string := "System.IEquatable<"

  const HashSeed: Int32 := 486_187_739
  const HashMul: int := 31

  // ---------------------------------------------------------------- CanImplement

  /** `CanImplement`: the interface's display string starts with `System.IEquatable<` and ends with `>`. */
  predicate CanImplement(i: Generate.NamedType)
  {
    Generate.IsConstructedFrom(i, EquatableNameStart)
  }

  /** The writer accepts exactly the displays `System.IEquatable<` + argument + `>`. */
  lemma CanImplementIff(i: Generate.NamedType)
    ensures CanImplement(i) <==>
      |EquatableNameStart| < |i.display| &&
      i.display == EquatableNameStart + i.display[|EquatableNameStart|..|i.display| - 1] + ">"
  {
    if CanImplement(i) {
      Generate.ConstructedFromHasArgument(i, EquatableNameStart);
    } else if |EquatableNameStart| < |i.display| &&
      i.display == EquatableNameStart + i.display[|EquatableNameStart|..|i.display| - 1] + ">" {
      Generate.ConstructedFromArgument(i, EquatableNameStart, i.display[|EquatableNameStart|..|i.display| - 1]);
    }
  }

  // ---------------------------------------------------------------- the key members

  /** The key members `WriteMethods` compares and hashes: the members carrying `[Key]`, or, when there
    * are none, the property members; when there are neither, InvalidOperationException. Reading the
    * attributes of a member whose attribute array is the default throws first. */
  function KeyMembers(members: seq<MemberSig>): Result<seq<MemberSig>, Exception>
  {
    match Generate.WithAttribute(members, Generate.KeyAttributeFQN)
    case Err(e) => Err(e)
    case Ok(keyed) =>
      var keys := if |keyed| > 0 then keyed else Generate.OfKind(members, Property);
      if |keys| == 0 then Err(InvalidOperationException) else Ok(keys)
  }

  /** Every member's attribute array can be read. */
  predicate AttributesReadable(members: seq<MemberSig>)
  {
    forall i :: 0 <= i < |members| ==> members[i].attributes.ArrayOf?
  }

  /** Key selection in all four cases: an unreadable attribute array throws NullReferenceException;
    * otherwise the keys are exactly the `[Key]` members when there is one, else exactly the property
    * members when there is one, and else the selection throws InvalidOperationException. */
  lemma KeysChosen(members: seq<MemberSig>)
    ensures !AttributesReadable(members) ==> KeyMembers(members) == Err(NullReferenceException)
    ensures AttributesReadable(members) && (exists m :: m in members && Generate.Carries(m, Generate.KeyAttributeFQN)) ==>
      KeyMembers(members).Ok? && |KeyMembers(members).value| > 0 &&
      forall m :: m in KeyMembers(members).value <==> m in members && Generate.Carries(m, Generate.KeyAttributeFQN)
    ensures AttributesReadable(members) && (forall m :: m in members ==> !Generate.Carries(m, Generate.KeyAttributeFQN)) ==>
      if exists m :: m in members && m.memberType == Property then
        KeyMembers(members).Ok? && forall m :: m in KeyMembers(members).value <==> m in members && m.memberType == Property
      else KeyMembers(members) == Err(InvalidOperationException)
  {
    Generate.WithAttributeIsFilter(members, Generate.KeyAttributeFQN);
    var w := Generate.WithAttribute(members, Generate.KeyAttributeFQN);
    if w.Ok? {
      if |w.value| > 0 {
        assert w.value[0] in w.value;
      } else if exists m :: m in members && m.memberType == Property {
        var m :| m in members && m.memberType == Property;
        assert m in Generate.OfKind(members, Property);
      } else {
        var p := Generate.OfKind(members, Property);
        if |p| > 0 {
          assert p[0] in p;
        }
      }
    }
  }

  // ---------------------------------------------------------------- WriteOperators

  /** The operators of a class; the four `{{type}}` holes are `{0}`‥`{3}`. */
  const ClassOperatorLines: seq<string> := [
    "public static bool operator ==({0}? left, {1}? right)",
    "{{",
    "    if (ReferenceEquals(left, right)) return true;",
    "    if (left is null) return (right is null);",
    "    return left.Equals(right);",
    "}}",
    "public static bool operator !=({2}? left, {3}? right)",
    "{{",
    "    if (ReferenceEquals(left, right)) return false;",
    "    if (left is null) return (right is not null);",
    "    return !left.Equals(right);",
    "}}"]

  /** The operators of a struct. */
  const StructOperatorLines: seq<string> := [
    "public static bool operator ==({0} left, {1} right)",
    "{{",
    "    return left.Equals(right);",
    "}}",
    "public static bool operator !=({2} left, {3} right)",
    "{{",
    "    return !left.Equals(right);",
    "}}"]

  /** `WriteOperators`: one code block, the class form when `ObjType` is exactly `Class`. */
  function OperatorsEmission(info: Generate.Info): Emit.Emission
  {
    var t := Str(info.implementationTypeName);
    Emit.Plain([CodeBlock(Generate.RawText(if info.objType == Class then ClassOperatorLines else StructOperatorLines),
      [t, t, t, t])])
  }

  /** `ReferenceEquals` on two nullable references: both null, or the same object. */
  predicate ReferenceEquals<R>(left: Option<R>, right: Option<R>, same: (R, R) -> bool)
  {
    (left.None? && right.None?) || (left.Some? && right.Some? && same(left.value, right.value))
  }

  /** What the class `==` written above returns; `equals` is the instance `Equals(T?)`. */
  function ClassEquals<R>(left: Option<R>, right: Option<R>, same: (R, R) -> bool, equals: (R, Option<R>) -> bool): bool
  {
    if ReferenceEquals(left, right, same) then true
    else if left.None? then right.None?
    else equals(left.value, right)
  }

  /** What the class `!=` written above returns. */
  function ClassNotEquals<R>(left: Option<R>, right: Option<R>, same: (R, R) -> bool, equals: (R, Option<R>) -> bool): bool
  {
    if ReferenceEquals(left, right, same) then false
    else if left.None? then right.Some?
    else !equals(left.value, right)
  }

  /** What the struct `==` and `!=` return. */
  function StructEquals<R>(left: R, right: R, equals: (R, R) -> bool): bool
  {
    equals(left, right)
  }

  function StructNotEquals<R>(left: R, right: R, equals: (R, R) -> bool): bool
  {
    !equals(left, right)
  }

  /** The generated `!=` is the negation of the generated `==`, branch by branch, for classes and
    * structs alike. */
  lemma OperatorsNegate<R>(left: Option<R>, right: Option<R>, same: (R, R) -> bool, equals: (R, Option<R>) -> bool,
    l: R, r: R, structEquals: (R, R) -> bool)
    ensures ClassNotEquals(left, right, same, equals) == !ClassEquals(left, right, same, equals)
    ensures StructNotEquals(l, r, structEquals) == !StructEquals(l, r, structEquals)
  {
  }

  /** With the `Equals(T?)` written for a class (false on null, else every key equal), `==` holds
    * for two nulls, never between null and an object, and between two objects exactly when they
    * are the same object or agree on every key. */
  lemma ClassEqualsMeaning<R, K>(left: Option<R>, right: Option<R>, same: (R, R) -> bool, keys: seq<K>,
    keyEquals: (K, R, R) -> bool)
    ensures var equals := (x: R, y: Option<R>) => ClassInstanceEquals(x, y, keys, keyEquals);
      ClassEquals(left, right, same, equals) <==>
      if left.None? || right.None? then left.None? && right.None?
      else same(left.value, right.value) || KeysEqual(keys, left.value, right.value, keyEquals)
  {
  }

  // ---------------------------------------------------------------- WriteMethods: Equals

  /** `EqualityComparer<{p.ReturnType}>.Default.Equals(this.{p.Name}, {varName}.{p.Name})`, in three
    * groups of three pieces. */
  const ConditionPieces: seq<Template.Piece> :=
    [Template.Text("EqualityComparer<"), Template.Arg(0), Template.Text(">.Default.Equals(this.")] +
    [Template.Arg(1), Template.Text(", "), Template.Arg(2)] +
    [Template.Text("."), Template.Arg(3), Template.Text(")")]

  function ConditionArgs(k: MemberSig, v: string): seq<Obj>
  {
    [Signatures.TypeObj(k.returnType), Str(k.name), Str(v), Str(k.name)]
  }

  /** The comparison of one key between `this` and the variable `v`. */
  function Condition(k: MemberSig, v: string): string
  {
    ("EqualityComparer<" + TextHelper.AsSpan(k.returnType.fullName) + ">.Default.Equals(this.") +
    (k.name + ", " + v) + ("." + k.name + ")")
  }

  function Conditions(keys: seq<MemberSig>, v: string): (r: seq<string>)
    ensures |r| == |keys| && forall i :: 0 <= i < |keys| ==> r[i] == Condition(keys[i], v)
  {
    if |keys| == 0 then [] else [Condition(keys[0], v)] + Conditions(keys[1..], v)
  }

  /** One `Code` call per key. */
  function CheckItems(keys: seq<MemberSig>, v: string): (r: seq<Applied>)
    ensures |r| == |keys|
  {
    if |keys| == 0 then []
    else [Applied([CodeFormat(Template.Encode(ConditionPieces), ConditionArgs(keys[0], v))])] + CheckItems(keys[1..], v)
  }

  /** `checkProperties(methodBlock, v)`: `return `, the comparisons delimited by `AppendLine(" && ")`,
    * and `;` with a line break. */
  function CheckBody(keys: seq<MemberSig>, v: string): Body
  {
    [Append("return "), Delimit([AppendLine(" && ")], CheckItems(keys, v)), AppendLine(";")]
  }

  /** The body of the class's `Equals(I? v)`: a null guard, then the comparisons. */
  function ClassCheckBody(keys: seq<MemberSig>, v: string): Body
  {
    [AppendLine("if (" + v + " is null) return false;")] + CheckBody(keys, v)
  }

  /** The calls for the `Equals` methods of a class: `Equals(I? v)` and `Equals(object? obj)`. */
  function ClassEqualsCalls(iface: string, ivar: string, keys: seq<MemberSig>): Body
  {
    [CodeLine("public bool Equals(" + iface + "? " + ivar + ")"),
     BracketBlock(ClassCheckBody(keys, ivar), None), NewLines(2),
     CodeLine("public override bool Equals(object? obj)"),
     BracketBlock([CodeLine("return obj is " + iface + " " + ivar + " && Equals(" + ivar + ");")], None), NewLines(2)]
  }

  /** The `Equals(object? obj)` body of a struct; its holes are `typeName`, `varName` twice, `iface`
    * and `ivar` twice. */
  const StructObjectEqualsLines: seq<string> := [
    "if (obj is {0} {1}) return Equals({2});",
    "if (obj is {3} {4}) return Equals({5});"]

  /** The calls for the `Equals` methods of a struct: the interface, the concrete type and object. */
  function StructEqualsCalls(iface: string, ivar: string, typeName: string, varName: string, keys: seq<MemberSig>): Body
  {
    [AppendLine("public bool Equals(" + iface + " " + ivar + ")"),
     BracketBlock(CheckBody(keys, ivar), None), NewLines(2),
     AppendLine("public bool Equals(" + typeName + " " + varName + ")"),
     BracketBlock(CheckBody(keys, varName), None), NewLines(2),
     CodeLine("public override bool Equals(object? obj)"),
     BracketBlock([CodeBlock(Generate.RawText(StructObjectEqualsLines),
       [Str(typeName), Str(varName), Str(varName), Str(iface), Str(ivar), Str(ivar)])], None), NewLines(2)]
  }

  lemma ConditionFormat(k: MemberSig, v: string)
    ensures Emit.FlatFormat(Template.Encode(ConditionPieces), ConditionArgs(k, v)) == Some(Condition(k, v))
  {
    var args := ConditionArgs(k, v);
    ComparerTextFits();
    EqualsTextFits();
    PunctuationFits();
    Emit.FormatOfNine(Template.Text("EqualityComparer<"), Template.Arg(0), Template.Text(">.Default.Equals(this."),
      Template.Arg(1), Template.Text(", "), Template.Arg(2), Template.Text("."), Template.Arg(3), Template.Text(")"), args);
    var ts := Emit.TextsOf(args);
    assert ts[0] == TextHelper.AsSpan(k.returnType.fullName) && ts[1] == k.name && ts[2] == v && ts[3] == k.name;
  }

  lemma ComparerTextFits()
    ensures Emit.PieceOk(Template.Text("EqualityComparer<"), 4)
  {
    assert Template.BraceFree("EqualityComparer<");
  }

  lemma EqualsTextFits()
    ensures Emit.PieceOk(Template.Text(">.Default.Equals(this."), 4)
  {
    assert Template.BraceFree(">.Default.Equals(this.");
  }

  lemma PunctuationFits()
    ensures Emit.PieceOk(Template.Text(", "), 4) && Emit.PieceOk(Template.Text("."), 4) && Emit.PieceOk(Template.Text(")"), 4)
  {
    assert Template.BraceFree(", ") && Template.BraceFree(".") && Template.BraceFree(")");
  }

  lemma {:induction false} ChecksJoin(keys: seq<MemberSig>, v: string, sep: string, first: bool, indent: string)
    decreases |keys|
    ensures Emit.FlatJoin(sep, CheckItems(keys, v), first, indent) == Some(Strings.JoinFrom(Conditions(keys, v), sep, first))
  {
    if |keys| > 0 {
      ConditionFormat(keys[0], v);
      var calls := CheckItems(keys, v)[0].calls;
      Emit.FlatFirst(calls, indent);
      assert calls[..1] == calls;
      assert CheckItems(keys, v)[1..] == CheckItems(keys[1..], v);
      assert Conditions(keys, v)[1..] == Conditions(keys[1..], v);
      ChecksJoin(keys[1..], v, sep, false, indent);
      Strings.JoinFromStep(Conditions(keys, v), sep, first);
    }
  }

  /** The text of `checkProperties`: `return `, one `EqualityComparer<T>.Default.Equals(this.P, v.P)`
    * per key in order, joined by ` && ` and a line break, then `;` and a line break. */
  lemma CheckBodyIsFlat(keys: seq<MemberSig>, v: string, indent: string)
    ensures Emit.FlatBody(CheckBody(keys, v), indent) ==
      Some("return " + Strings.Join(Conditions(keys, v), " && " + indent) + ";" + indent)
  {
    var j := Strings.Join(Conditions(keys, v), " && " + indent);
    Emit.FlatSingle(AppendLine(" && "), indent);
    ChecksJoin(keys, v, " && " + indent, true, indent);
    Emit.FlatThree(Append("return "), Delimit([AppendLine(" && ")], CheckItems(keys, v)), AppendLine(";"), indent,
      "return ", j, ";" + indent);
    Strings.StringsOfTail("return " + j, ";", indent);
  }

  /** The class's `Equals(I? v)` body returns false for null before comparing the keys. */
  lemma ClassCheckIsFlat(keys: seq<MemberSig>, v: string, indent: string)
    ensures Emit.FlatBody(ClassCheckBody(keys, v), indent) ==
      Some("if (" + v + " is null) return false;" + indent +
        ("return " + Strings.Join(Conditions(keys, v), " && " + indent) + ";" + indent))
  {
    var guard := AppendLine("if (" + v + " is null) return false;");
    Emit.FlatSingle(guard, indent);
    CheckBodyIsFlat(keys, v, indent);
    Emit.FlatConcat([guard], CheckBody(keys, v), indent, "if (" + v + " is null) return false;" + indent,
      "return " + Strings.Join(Conditions(keys, v), " && " + indent) + ";" + indent);
  }

  /** What the class's `Equals(I? other)` returns: false for null, else whether every key agrees. */
  function ClassInstanceEquals<R, K>(x: R, other: Option<R>, keys: seq<K>, keyEquals: (K, R, R) -> bool): bool
  {
    other.Some? && KeysEqual(keys, x, other.value, keyEquals)
  }

  /** The `&&` chain of the key comparisons. */
  function KeysEqual<R, K>(keys: seq<K>, x: R, y: R, keyEquals: (K, R, R) -> bool): (r: bool)
    ensures r <==> forall i :: 0 <= i < |keys| ==> keyEquals(keys[i], x, y)
  {
    if |keys| == 0 then true else keyEquals(keys[0], x, y) && KeysEqual(keys[1..], x, y, keyEquals)
  }

  // ---------------------------------------------------------------- WriteMethods: GetHashCode

  /** How the code written for one key folds it into `hash`: an `int` key adds its value; a key whose
    * type can be null adds 0 when null (`hash *= 31`) and its hash code otherwise; any other key adds
    * its hash code. */
  datatype HashRule = AddInt | AddNullable | AddCode

  function RuleOf(k: MemberSig, env: Generate.Env): HashRule
  {
    if Generate.IsType(k.returnType, "System.Int32") then AddInt
    else if env.canBeNull(k.returnType) then AddNullable
    else AddCode
  }

  /** The nullable key's block; its holes are the name, 31, 31 and the name. */
  const NullableHashLines: seq<string> := [
    "if (this.{0} is null)",
    "{{",
    "    hash *= {1};",
    "}}",
    "else",
    "{{",
    "    hash = (hash * {2}) + this.{3}.GetHashCode();",
    "}}"]

  /** `HASH_MUL` as a format argument: an `int`, rendered in decimal. */
  const HashMulObj: Obj := Formattable(_ => Some(Naming.IntToString(HashMul)))

  /** The calls the `Enumerate` action makes for one key. */
  function HashItem(k: MemberSig, env: Generate.Env): Applied
  {
    match RuleOf(k, env)
    case AddInt => Applied([CodeLine("hash = (hash * " + Naming.IntToString(HashMul) + ") + this." + k.name + ";")])
    case AddNullable =>
      Applied([CodeBlock(Generate.RawText(NullableHashLines), [Str(k.name), HashMulObj, HashMulObj, Str(k.name)]), NewLine])
    case AddCode => Applied([CodeLine("hash = (hash * " + Naming.IntToString(HashMul) + ") + this." + k.name + ".GetHashCode();")])
  }

  function HashItems(keys: seq<MemberSig>, env: Generate.Env): (r: seq<Applied>)
    ensures |r| == |keys| && forall i :: 0 <= i < |keys| ==> r[i] == HashItem(keys[i], env)
  {
    if |keys| == 0 then [] else [HashItem(keys[0], env)] + HashItems(keys[1..], env)
  }

  /** The body of `GetHashCode()`: the seed, one item per key in order, and `return hash;`. */
  function HashBody(keys: seq<MemberSig>, env: Generate.Env): Body
  {
    [CodeLine("int hash = " + Naming.IntToString(HashSeed) + ";"), Enumerate(HashItems(keys, env)), AppendLine("return hash;")]
  }

  /** `WriteMethods`: the `Equals` methods for a class or a struct, then `GetHashCode`; `ivar` is
    * `InterfaceTypeSymbol.GetVariableName()`. Key selection may throw before anything is written. */
  function MethodsEmission(info: Generate.Info, env: Generate.Env, ivar: string): Emit.Emission
  {
    match KeyMembers(info.members)
    case Err(e) => Emit.Emission([], Some(e))
    case Ok(keys) =>
      var iface := info.interfaceType.name;
      var typeName := info.implementationTypeName;
      var varName := Naming.VariableNameOf(env.syntax, typeName);
      Emit.Plain(
        (if info.objType == Class then ClassEqualsCalls(iface, ivar, keys)
         else StructEqualsCalls(iface, ivar, typeName, varName, keys)) +
        [AppendLine("public override int GetHashCode()"), BracketBlock(HashBody(keys, env), None)])
  }

  /** A key's value as the generated code reads it: null (None), or its `int` value or hash code. An
    * `int` key or a key whose type cannot be null is never null. */
  predicate ValuesFit(rules: seq<HashRule>, values: seq<Option<Int32>>)
  {
    |rules| == |values| && forall i :: 0 <= i < |rules| ==> rules[i] != AddNullable ==> values[i].Some?
  }

  /** One key's statement of the generated `GetHashCode`, in unchecked `int` arithmetic. */
  function HashStep(rule: HashRule, hash: Int32, value: Option<Int32>): Int32
    requires rule != AddNullable ==> value.Some?
  {
    match rule
    case AddInt => Wrap32(hash * HashMul + value.value)
    case AddNullable => if value.None? then Wrap32(hash * HashMul) else Wrap32(hash * HashMul + value.value)
    case AddCode => Wrap32(hash * HashMul + value.value)
  }

  /** The generated statements from `hash` on, over the keys in order. */
  function GeneratedHash(hash: Int32, rules: seq<HashRule>, values: seq<Option<Int32>>): Int32
    requires ValuesFit(rules, values)
    decreases |rules|
  {
    if |rules| == 0 then hash
    else GeneratedHash(HashStep(rules[0], hash, values[0]), rules[1..], values[1..])
  }

  /** The code `GetHashCode` writes computes, from 486187739, the same wrapping multiply-by-31 fold as
    * `EnumerableEqualityComparer` over the keys' codes, a null key counting 0. */
  lemma GeneratedHashIsFold(rules: seq<HashRule>, values: seq<Option<Int32>>)
    requires ValuesFit(rules, values)
    ensures GeneratedHash(HashSeed, rules, values) == Comparison.FoldHash(values, (c: Int32) => c)
  {
    assert values[..0] == [];
    GeneratedHashFrom(rules, values, 0);
    assert rules[0..] == rules && values[0..] == values;
  }

  lemma {:induction false} GeneratedHashFrom(rules: seq<HashRule>, values: seq<Option<Int32>>, k: nat)
    requires ValuesFit(rules, values) && k <= |rules|
    decreases |rules| - k
    ensures ValuesFit(rules[k..], values[k..])
    ensures GeneratedHash(Comparison.FoldHash(values[..k], (c: Int32) => c), rules[k..], values[k..]) ==
      Comparison.FoldHash(values, (c: Int32) => c)
  {
    var id := (c: Int32) => c;
    assert forall i :: 0 <= i < |rules| - k ==> rules[k..][i] == rules[k + i] && values[k..][i] == values[k + i];
    if k == |rules| {
      assert values[..k] == values;
    } else {
      var h := Comparison.FoldHash(values[..k], id);
      assert values[..k + 1][..k] == values[..k];
      assert Comparison.FoldHash(values[..k + 1], id) == Wrap32(h * HashMul + Comparison.ElementCode(values[k], id));
      assert HashStep(rules[k], h, values[k]) == Comparison.FoldHash(values[..k + 1], id);
      assert rules[k..][1..] == rules[k + 1..] && values[k..][1..] == values[k + 1..];
      GeneratedHashFrom(rules, values, k + 1);
    }
  }

  // ---------------------------------------------------------------- the section actions on a builder

  /** `WriteOperators(codeBuilder, generate)`. */
  method WriteOperators(builder: CodingBuilder.CodeBuilder, generate: Generate.GenerateInfo) returns (thrown: Option<Exception>)
    requires builder.Valid()
    modifies builder, builder.chars
    ensures builder.Valid() && (builder.chars == old(builder.chars) || fresh(builder.chars))
    ensures builder.Ending(thrown) == Emit.RunEmission(OperatorsEmission(generate.Snapshot()), old(builder.State()))
  {
    thrown := Emit.Perform(OperatorsEmission(generate.Snapshot()), builder);
  }

  /** `WriteMethods(codeBuilder, generate)`: `GetLocals`, then the interface's variable name from the
    * shared naming state, then the writes. */
  method WriteMethods(builder: CodingBuilder.CodeBuilder, generate: Generate.GenerateInfo, env: Generate.Env,
    naming: Naming.VariableNaming) returns (thrown: Option<Exception>)
    requires builder.Valid() && naming.syntax == env.syntax
    modifies builder, builder.chars, naming
    ensures builder.Valid() && (builder.chars == old(builder.chars) || fresh(builder.chars))
    ensures var v := Generate.VariableName(env.syntax, old(naming.counter), generate.interfaceTypeSymbol.name);
      naming.counter == v.1 &&
      builder.Ending(thrown) == Emit.RunEmission(MethodsEmission(generate.Snapshot(), env, v.0), old(builder.State()))
  {
    var typeName, varName := generate.GetLocals(env.syntax);
    var interfaceVarName := Generate.InterfaceVariableName(naming, generate.interfaceTypeSymbol.name);
    thrown := Emit.Perform(MethodsEmission(generate.Snapshot(), env, interfaceVarName), builder);
  }
}
