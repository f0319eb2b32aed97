/** InterfaceGen/GenerateInfo.cs: what the generator knows about one interface it implements — the
  * settings the `[Implement]` attribute chose, the interfaces to implement and the set of member
  * signatures — and the searches the writers run over it. */
module Generate {
  import opened Wrappers
  import opened Flags
  import opened InterfaceFlags
  import Comparison
  import Naming
  import Strings
  import Signatures
  import Numbers

  type MemberSig = Signatures.MemberSig
  type TypeSig = Signatures.TypeSig
  type ParameterSig = Signatures.ParameterSig
  type ImmutableArray<T> = Comparison.ImmutableArray<T>

  /** An `INamedTypeSymbol` as the generator reads it: its simple `Name`, `GetFQN()`, its display
    * string (`ToString()`) and the `ToString()` of its containing namespace. */
  datatype NamedType = NamedType(name: string, fqn: string, display: string, containingNamespace: string)

  /** The state of a `GenerateInfo` at one moment, for the writers to read. */
  datatype Info = Info(
    interfaceType: NamedType,
    implementationTypeName: string,
    visibility: Bits,
    objType: Bits,
    memberKeywords: Bits,
    interfaces: ImmutableArray<NamedType>,
    members: seq<MemberSig>)

  // ---------------------------------------------------------------- the Members set

  /** `Members` holds a member structurally equal to `m`. */
  predicate ContainsEqual(members: seq<MemberSig>, m: MemberSig)
  {
    exists i :: 0 <= i < |members| && Signatures.MemberEquals(members[i], Some(m))
  }

  /** No two entries of `Members` are equal, as a `HashSet` keeps them. */
  predicate Distinct(members: seq<MemberSig>)
  {
    forall i, j :: 0 <= i < |members| && 0 <= j < |members| && i != j ==>
      !Signatures.MemberEquals(members[i], Some(members[j]))
  }

  /** Every entry could be hashed: hashing a signature with default parameters throws. */
  predicate Hashable(members: seq<MemberSig>)
  {
    forall i :: 0 <= i < |members| ==> members[i].paramTypes.ArrayOf?
  }

  /** `Members.Add(m)`: the hash code is computed first, which throws for default parameters; then
    * `m` joins the set (in insertion order) unless an equal member is already there. */
  function Insert(members: seq<MemberSig>, m: MemberSig): (r: (Result<bool, Exception>, seq<MemberSig>))
    ensures m.paramTypes.DefaultArray? ==> r == (Err(InvalidOperationException), members)
    ensures m.paramTypes.ArrayOf? ==> r.0 == Ok(!ContainsEqual(members, m))
    ensures r.1 == (if r.0 == Ok(true) then members + [m] else members)
  {
    if m.paramTypes.DefaultArray? then (Err(InvalidOperationException), members)
    else if ContainsEqual(members, m) then (Ok(false), members)
    else (Ok(true), members + [m])
  }

  /** Adding keeps the set a set whose entries can all be hashed. */
  lemma InsertKeepsSet(members: seq<MemberSig>, m: MemberSig)
    requires Distinct(members) && Hashable(members)
    ensures Distinct(Insert(members, m).1) && Hashable(Insert(members, m).1)
  {
    var r := Insert(members, m);
    if r.0 == Ok(true) {
      var ms := members + [m];
      forall i, j | 0 <= i < |ms| && 0 <= j < |ms| && i != j
        ensures !Signatures.MemberEquals(ms[i], Some(ms[j]))
      {
        if i == |members| {
          Signatures.MemberEqualsIsEquivalence(m, ms[j], m);
        } else if j == |members| {
          assert !Signatures.MemberEquals(members[i], Some(m));
        }
      }
    }
  }

  /** Adding a member equal to one already added returns false and changes nothing. */
  lemma AddingAgainIsRefused(members: seq<MemberSig>, m: MemberSig, n: MemberSig)
    requires m.paramTypes.ArrayOf? && n.paramTypes.ArrayOf? && Signatures.MemberEquals(m, Some(n))
    ensures var ms := Insert(members, m).1; Insert(ms, n) == (Ok(false), ms)
  {
    var ms := Insert(members, m).1;
    if Insert(members, m).0 == Ok(true) {
      assert ms[|members|] == m;
    } else {
      var i :| 0 <= i < |members| && Signatures.MemberEquals(members[i], Some(m));
      Signatures.MemberEqualsIsEquivalence(members[i], m, n);
    }
  }

  /** After `Add(m)` the set holds a member equal to `m`, and still every member it held. */
  lemma InsertContains(members: seq<MemberSig>, m: MemberSig, n: MemberSig)
    requires m.paramTypes.ArrayOf?
    ensures ContainsEqual(Insert(members, m).1, m)
    ensures ContainsEqual(members, n) ==> ContainsEqual(Insert(members, m).1, n)
  {
    var ms := Insert(members, m).1;
    if !ContainsEqual(members, m) {
      Signatures.MemberEqualsIsEquivalence(m, m, m);
      assert ms[|members|] == m;
    }
    if ContainsEqual(members, n) {
      var i :| 0 <= i < |members| && Signatures.MemberEquals(members[i], Some(n));
      assert ms[i] == members[i];
    }
  }

  // ---------------------------------------------------------------- HasMember

  /** The arguments of one `HasMember` call; a missing predicate is a null delegate. */
  datatype Query = Query(
    instic: Bits,
    visibility: Bits,
    memberType: Bits,
    name: Option<string>,
    returnType: Option<TypeSig -> bool>,
    paramTypes: Option<ImmutableArray<ParameterSig> -> bool>)

  /** `string.IsNullOrWhiteSpace(name)`. */
  predicate IsNullOrWhiteSpace(name: Option<string>)
  {
    name.None? || Strings.IsBlank(name.value)
  }

  /** One member passes every `continue` of the `HasMember` loop. */
  predicate Matches(m: MemberSig, q: Query)
  {
    HasFlag(m.instic, q.instic) && HasFlag(m.visibility, q.visibility) && HasFlag(m.memberType, q.memberType) &&
    (IsNullOrWhiteSpace(q.name) || q.name.value == m.name) &&
    (q.returnType.None? || q.returnType.value(m.returnType)) &&
    (q.paramTypes.None? || q.paramTypes.value(m.paramTypes))
  }

  /** What `HasMember` answers: some member matches the query. */
  predicate AnyMatches(members: seq<MemberSig>, q: Query)
  {
    exists i :: 0 <= i < |members| && Matches(members[i], q)
  }

  /** A blank name and null predicates constrain nothing: such a query is about the flags alone. */
  lemma OpenQueryIsFlagsOnly(members: seq<MemberSig>, q: Query)
    requires IsNullOrWhiteSpace(q.name) && q.returnType.None? && q.paramTypes.None?
    ensures AnyMatches(members, q) <==>
      (exists i :: 0 <= i < |members| && HasFlag(members[i].instic, q.instic) &&
        HasFlag(members[i].visibility, q.visibility) && HasFlag(members[i].memberType, q.memberType))
  {
  }

  /** Flag containment makes a `Method` query also find constructors and operators, whose flags
    * include the `Method` bit; a `Property` query finds neither. */
  lemma MethodQueryFindsConstructors(m: MemberSig, q: Query)
    requires q.memberType == Method && (m.memberType == Constructor || m.memberType == Operator)
    requires HasFlag(m.instic, q.instic) && HasFlag(m.visibility, q.visibility)
    requires IsNullOrWhiteSpace(q.name) && q.returnType.None? && q.paramTypes.None?
    ensures Matches(m, q)
    ensures !Matches(m, q.(memberType := Property))
  {
    assert 3 in m.memberType;
    assert 1 !in m.memberType;
  }

  /** A non-blank name is compared ordinally: a member with any other name never matches. */
  lemma NamedQueryNeedsTheName(members: seq<MemberSig>, q: Query)
    requires !IsNullOrWhiteSpace(q.name)
    requires forall i :: 0 <= i < |members| ==> members[i].name != q.name.value
    ensures !AnyMatches(members, q)
  {
  }

  // ---------------------------------------------------------------- MembersWithAttribute

  /** `MembersWithAttribute(fqn)` once enumerated, as every caller does: the members, in order, carrying
    * an attribute whose class has that FQN. Enumerating a member whose attributes are the default
    * array throws. */
  function WithAttribute(members: seq<MemberSig>, fqn: string): (r: Result<seq<MemberSig>, Exception>)
    decreases |members|
  {
    if |members| == 0 then Ok([])
    else
      match Signatures.HasAttribute(members[0], fqn)
      case Err(e) => Err(e)
      case Ok(b) =>
        match WithAttribute(members[1..], fqn)
        case Err(e) => Err(e)
        case Ok(rest) => Ok(if b then [members[0]] + rest else rest)
  }

  /** A member carries an attribute with that FQN. */
  predicate Carries(m: MemberSig, fqn: string)
  {
    Signatures.HasAttribute(m, fqn) == Ok(true)
  }

  /** The enumeration throws a NullReferenceException exactly when some member has default attributes;
    * otherwise it yields exactly the members carrying the attribute, in their order. */
  lemma {:induction false} WithAttributeIsFilter(members: seq<MemberSig>, fqn: string)
    decreases |members|
    ensures WithAttribute(members, fqn).Err? <==> exists i :: 0 <= i < |members| && members[i].attributes.DefaultArray?
    ensures WithAttribute(members, fqn).Err? ==> WithAttribute(members, fqn).error == NullReferenceException
    ensures WithAttribute(members, fqn).Ok? ==> var r := WithAttribute(members, fqn).value;
      (forall m :: m in r <==> m in members && Carries(m, fqn)) && |r| <= |members|
  {
    if |members| > 0 {
      WithAttributeIsFilter(members[1..], fqn);
      assert forall i :: 1 <= i < |members| ==> members[i] == members[1..][i - 1];
      assert forall m :: m in members <==> m == members[0] || m in members[1..];
    }
  }

  // ---------------------------------------------------------------- HasInterface

  /** `HasInterface<T>()` for the interface whose full name is `fqn`: some interface's FQN equals it.
    * `Any` on the default immutable array throws. */
  function HasInterface(interfaces: ImmutableArray<NamedType>, fqn: string): (r: Result<bool, Exception>)
    ensures interfaces.DefaultArray? <==> r == Err(NullReferenceException)
    ensures interfaces.ArrayOf? ==>
      (r == Ok(true) <==> (exists i :: 0 <= i < |interfaces.items| && interfaces.items[i].fqn == fqn))
  {
    match interfaces
    case DefaultArray => Err(NullReferenceException)
    case ArrayOf(items) => Ok(exists i :: 0 <= i < |items| && items[i].fqn == fqn)
  }

  /** The display string of the interface names a construction of the generic type whose name up to
    * and including `<` is `start`: it starts with `start` and ends with `>`
    * (`ifqn.StartsWith(start) && ifqn.EndsWith(">")`). */
  predicate IsConstructedFrom(i: NamedType, start: string)
  {
    Strings.StartsWith(i.display, start) && Strings.EndsWith(i.display, ">")
  }

  /** Every `start` + argument + `>` passes the test. */
  lemma ConstructedFromArgument(i: NamedType, start: string, arg: string)
    requires i.display == start + arg + ">"
    ensures IsConstructedFrom(i, start)
  {
    assert i.display[..|start|] == start;
    assert i.display[|i.display| - 1..] == ">";
  }

  /** When `start` does not itself end with `>`, only such displays pass: the argument is what lies
    * between the two. */
  lemma ConstructedFromHasArgument(i: NamedType, start: string)
    requires |start| > 0 && start[|start| - 1] != '>'
    requires IsConstructedFrom(i, start)
    ensures |start| < |i.display| && i.display == start + i.display[|start|..|i.display| - 1] + ">"
  {
    var d := i.display;
    assert d[|d| - 1] == d[|d| - 1..][0] == '>';
    assert d[|start| - 1] == d[..|start|][|start| - 1] == start[|start| - 1];
    assert d == d[..|start|] + d[|start|..|d| - 1] + d[|d| - 1..];
  }

  /** `Members.Where(m => m.MemberType == kind)`: the members whose kind is exactly
    * `kind`, in order. */
  function OfKind(members: seq<MemberSig>, kind: Bits): (r: seq<MemberSig>)
    ensures |r| <= |members|
    ensures forall m :: m in r <==> m in members && m.memberType == kind
  {
    if |members| == 0 then []
    else (if members[0].memberType == kind then [members[0]] else []) + OfKind(members[1..], kind)
  }

  // ---------------------------------------------------------------- what the writers need

  /** The FQNs of the generator's own attributes (`Code.KeyAttributeFQN` and its siblings). */
  const KeyAttributeFQN: string := "Jay.SourceGen.InterfaceGen.Attributes.KeyAttribute"
  const DisplayAttributeFQN: string := "Jay.SourceGen.InterfaceGen.Attributes.DisplayAttribute"
  const ImplementAttributeFQN: string := "Jay.SourceGen.InterfaceGen.Attributes.ImplementAttribute"

  /** The line break inside the writers' multi-line raw string literals. */
  const SourceNewLine: string := "\r\n"

  /** A multi-line raw string literal, given by its lines (the common indentation already removed). */
  function RawText(lines: seq<string>): string
  {
    Strings.Join(lines, SourceNewLine)
  }

  /** What the writers take from the host compiler: the C# keyword table behind `ToVariableName`,
    * `CanBeNull()` of a type (not a value type), and the `DeclareTo` texts of the flag enums. */
  datatype Env = Env(syntax: Naming.CSharpSyntax, canBeNull: TypeSig -> bool, declarers: Signatures.Declarers)

  /** `IsType<T>()` of a type: its full name is `typeof(T).FullName`. */
  predicate IsType(t: TypeSig, fullName: string)
  {
    t.fullName == Some(fullName)
  }

  /** `GetVariableName()` of a type named `typeName` when the shared counter stands at `counter`:
    * the name and the counter afterwards. Only a nameless type moves the counter. */
  function VariableName(syntax: Naming.CSharpSyntax, counter: Numbers.Int32, typeName: string): (r: (string, Numbers.Int32))
    ensures |typeName| > 0 ==> r.1 == counter
  {
    if |typeName| == 0 then
      var next := Numbers.Wrap32(counter + 1);
      ("__" + Naming.IntToString(next), next)
    else (Naming.Escaped(syntax, Naming.TypeVariableName(typeName)), counter)
  }

  /** `InterfaceTypeSymbol.GetVariableName()` on the shared naming state. */
  method InterfaceVariableName(naming: Naming.VariableNaming, typeName: string) returns (r: string)
    modifies naming
    ensures (r, naming.counter) == VariableName(naming.syntax, old(naming.counter), typeName)
  {
    r := naming.GetVariableName(typeName);
  }

  // ---------------------------------------------------------------- the class

  /** `GenerateInfo`. `Members` is a `seq` in insertion order with no two equal entries. */
  class GenerateInfo {
    const interfaceTypeSymbol: NamedType
    const implementationTypeName: string
    var visibility: Bits
    var objType: Bits
    var memberKeywords: Bits
    var interfaces: ImmutableArray<NamedType>
    var members: seq<MemberSig>

    /** `Members` is a set of hashable signatures. */
    predicate Valid()
      reads this
    {
      Distinct(members) && Hashable(members)
    }

    /** `new GenerateInfo(symbol) { ImplementationTypeName = name }`: Public, Class and Sealed; no
      * interfaces assigned yet; no members. */
    constructor(interfaceTypeSymbol: NamedType, implementationTypeName: string)
      ensures Valid()
      ensures this.interfaceTypeSymbol == interfaceTypeSymbol && this.implementationTypeName == implementationTypeName
      ensures visibility == Public && objType == Class && memberKeywords == Sealed
      ensures interfaces == Comparison.DefaultArray && members == []
    {
      this.interfaceTypeSymbol := interfaceTypeSymbol;
      this.implementationTypeName := implementationTypeName;
      visibility := Public;
      objType := Class;
      memberKeywords := Sealed;
      interfaces := Comparison.DefaultArray;
      members := [];
    }

    function Snapshot(): Info
      reads this
    {
      Info(interfaceTypeSymbol, implementationTypeName, visibility, objType, memberKeywords, interfaces, members)
    }

    /** `Members.Add(m)`. */
    method Add(m: MemberSig) returns (r: Result<bool, Exception>)
      requires Valid()
      modifies this
      ensures Valid()
      ensures (r, members) == Insert(old(members), m)
      ensures visibility == old(visibility) && objType == old(objType) && memberKeywords == old(memberKeywords)
      ensures interfaces == old(interfaces)
    {
      InsertKeepsSet(members, m);
      var added := Insert(members, m);
      r := added.0;
      members := added.1;
    }

    /** `HasMember(…)`: the `foreach` over `Members`, returning true at the first member that passes
      * every check. */
    method HasMember(q: Query) returns (r: bool)
      ensures r <==> AnyMatches(members, q)
    {
      var i := 0;
      while i < |members|
        invariant 0 <= i <= |members|
        invariant forall j :: 0 <= j < i ==> !Matches(members[j], q)
      {
        var member := members[i];
        i := i + 1;
        if !HasFlag(member.instic, q.instic) { continue; }
        if !HasFlag(member.visibility, q.visibility) { continue; }
        if !HasFlag(member.memberType, q.memberType) { continue; }
        if !IsNullOrWhiteSpace(q.name) {
          if q.name.value != member.name { continue; }
        }
        if q.returnType.Some? {
          if !q.returnType.value(member.returnType) { continue; }
        }
        if q.paramTypes.Some? {
          if !q.paramTypes.value(member.paramTypes) { continue; }
        }
        return true;
      }
      return false;
    }

    /** `GetLocals(out type, out varName)`: the implementation name and its `ToVariableName()`. */
    method GetLocals(syntax: Naming.CSharpSyntax) returns (typeName: string, varName: string)
      ensures typeName == implementationTypeName
      ensures varName == Naming.VariableNameOf(syntax, implementationTypeName)
    {
      typeName := implementationTypeName;
      varName := Naming.ToVariableName(syntax, implementationTypeName);
    }
  }
}
