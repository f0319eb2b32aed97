/** InterfaceGen/Signatures: `TypeSig`, `ParameterSig` and `MemberSig` (with the `SymbolSig`,
  * `PropertySig` and `MethodSig` constructors), their structural equality and hash codes, and the
  * declaration text `WriteDeclaration` writes. Symbols of the host compiler are plain records. */
module Signatures {
  import opened Wrappers
  import opened Flags
  import opened InterfaceFlags
  import opened Coding
  import Attributes
  import Comparison
  import Hashing
  import Numbers
  import Naming
  import TextHelper
  import Emit
  import CodingBuilder

  type ImmutableArray<T> = Comparison.ImmutableArray<T>

  // ---------------------------------------------------------------- hashing inputs

  /** What the hash codes depend on besides the values: the mixing steps of `Hasher`, which the source
    * runs under its process-wide seed (`Hashing.XxHash32(seed)`), and the (per-process randomised)
    * `string.GetHashCode`. */
  datatype HashEnv = HashEnv(mixer: Hashing.Mixer, stringHash: string -> Hashing.HashCode)

  /** `value?.GetHashCode()` of a string, as `Add<T>` and `Create<T>` take it. */
  function StringCode(env: HashEnv, s: Option<string>): Option<Hashing.HashCode>
  {
    if s.None? then None else Some(env.stringHash(s.value))
  }

  /** `bool.GetHashCode()`. */
  function BoolCode(b: bool): Hashing.HashCode
  {
    if b then 1 else 0
  }

  /** The bits of an enum value from position `i` up, as the 32-bit pattern of its `int` value. */
  function BitsFrom(b: Bits, i: nat): bv32
    decreases 32 - i
  {
    if i >= 32 then 0 else (if i in b then (1 as bv32) << i else 0) | BitsFrom(b, i + 1)
  }

  /** An enum value's `GetHashCode()`: its underlying `int`. */
  function EnumCode(b: Bits): Hashing.HashCode
  {
    BitsFrom(b, 0)
  }

  // ---------------------------------------------------------------- TypeSig

  /** A type: its simple `Name` and its `FullName`, which `Type.FullName` can leave null. */
  datatype TypeSig = TypeSig(name: string, fullName: Option<string>)

  /** The full name of a `TypeSig?`, null for a null one (`typeSig?.FullName`). */
  function FullNameOf(t: Option<TypeSig>): Option<string>
  {
    if t.None? then None else t.value.fullName
  }

  /** `TypeSig.Equals(TypeSig?)`: `string.Equals` of the two full names. */
  predicate TypeEquals(t: TypeSig, other: Option<TypeSig>)
  {
    t.fullName == FullNameOf(other)
  }

  /** `TypeSig.GetHashCode()`: `Hasher.Create(FullName)`. */
  function TypeHash(env: HashEnv, t: TypeSig): Hashing.HashCode
  {
    Hashing.Create1(env.mixer, StringCode(env, t.fullName))
  }

  /** A `TypeSig` handed to `Value` or to a format hole: it is written by `ToString()`, its full name. */
  function TypeObj(t: TypeSig): Obj
  {
    Other(t.fullName)
  }

  /** Equality and hash code of two `TypeSig`s depend only on the full names: the simple names play no
    * part, and a `TypeSig` whose full name is null equals a null argument. */
  lemma TypeSigByFullName(env: HashEnv, a: TypeSig, b: TypeSig)
    ensures TypeEquals(a, Some(b)) <==> a.fullName == b.fullName
    ensures a.fullName == b.fullName ==> TypeHash(env, a) == TypeHash(env, b)
    ensures TypeEquals(a, None) <==> a.fullName.None?
  {
  }

  // ---------------------------------------------------------------- ParameterSig

  /** A parameter. `Default` (an `object?`) is kept as the text its interpolation writes. */
  datatype ParameterSig = ParameterSig(name: string, paramType: TypeSig, isParams: bool, hasDefault: bool,
    defaultText: Option<string>)

  /** `ParameterSig.Equals(ParameterSig?)`: not null, and the same name, type, `IsParams` and
    * `HasDefault`; the default value itself is not compared. */
  predicate ParamEquals(p: ParameterSig, other: Option<ParameterSig>)
  {
    other.Some? && p.name == other.value.name && TypeEquals(p.paramType, Some(other.value.paramType)) &&
    p.isParams == other.value.isParams && p.hasDefault == other.value.hasDefault
  }

  /** `ParameterSig.GetHashCode()`: `Hasher.Create(Name, Type, IsParams, HasDefault)`. */
  function ParamHash(env: HashEnv, p: ParameterSig): Hashing.HashCode
  {
    Hashing.Create4(env.mixer, Some(env.stringHash(p.name)), Some(TypeHash(env, p.paramType)),
      Some(BoolCode(p.isParams)), Some(BoolCode(p.hasDefault)))
  }

  /** `ParameterSig.ToString()`: `params ` if it is one, the type, a space, the name, and ` = ` and the
    * default when there is one. */
  function ParamText(p: ParameterSig): string
  {
    (if p.isParams then "params " else "") + TextHelper.AsSpan(p.paramType.fullName) + " " + p.name +
    (if p.hasDefault then " = " + TextHelper.AsSpan(p.defaultText) else "")
  }

  function ParamObj(p: ParameterSig): Obj
  {
    Other(Some(ParamText(p)))
  }

  /** Parameters equal under `Equals` have the same hash code, whatever their defaults. */
  lemma EqualParamsHashEqual(env: HashEnv, p: ParameterSig, q: ParameterSig)
    requires ParamEquals(p, Some(q))
    ensures ParamHash(env, p) == ParamHash(env, q)
  {
    TypeSigByFullName(env, p.paramType, q.paramType);
  }

  /** Two parameters that differ only in their default value are equal. */
  lemma DefaultValueIgnored(p: ParameterSig, text: Option<string>)
    ensures ParamEquals(p, Some(p.(defaultText := text)))
  {
  }

  // ---------------------------------------------------------------- MemberSig

  /** Which class a signature is: a plain `MemberSig` (from `FromImplementation`), a `PropertySig`
    * with its accessor texts, or a `MethodSig`. */
  datatype SigKind = PlainSig | PropertySig(getStr: string, setStr: string) | MethodSig

  datatype MemberSig = MemberSig(
    kind: SigKind,
    visibility: Bits,
    instic: Bits,
    keywords: Bits,
    attributes: ImmutableArray<Attributes.AttributeData>,
    name: string,
    memberType: Bits,
    returnType: TypeSig,
    paramTypes: ImmutableArray<ParameterSig>)

  /** `EnumerableEqualityComparer<T>.Equals` on two immutable arrays under the element equality `eq`:
    * default and empty arrays equal each other and nothing else; otherwise the same length and
    * element-wise equal. */
  predicate SameArrays<T>(x: ImmutableArray<T>, y: ImmutableArray<T>, eq: (T, T) -> bool)
  {
    if x.IsDefaultOrEmpty() then y.IsDefaultOrEmpty()
    else (!y.IsDefaultOrEmpty() && |x.items| == |y.items| &&
      forall i :: 0 <= i < |x.items| ==> eq(x.items[i], y.items[i]))
  }

  /** Attributes compare by `GetFullTypeName()` only. */
  function SameAttributeType(x: Attributes.AttributeData, y: Attributes.AttributeData): bool
  {
    Attributes.GetFullTypeName(x) == Attributes.GetFullTypeName(y)
  }

  function SameParam(x: ParameterSig, y: ParameterSig): bool
  {
    ParamEquals(x, Some(y))
  }

  /** `MemberSig.Equals(MemberSig?)`: false for null; otherwise the same visibility, instic, keywords,
    * name, member type and return type, the attributes equal in order by full type name, and the
    * parameters equal element-wise. The kind of signature and the accessor texts are not compared. */
  predicate MemberEquals(a: MemberSig, other: Option<MemberSig>)
  {
    other.Some? &&
    var b := other.value;
    a.visibility == b.visibility && a.instic == b.instic && a.keywords == b.keywords &&
    a.name == b.name && a.memberType == b.memberType && TypeEquals(a.returnType, Some(b.returnType)) &&
    SameArrays(a.attributes, b.attributes, SameAttributeType) &&
    SameArrays(a.paramTypes, b.paramTypes, SameParam)
  }

  /** `ImmutableArray<T>` seen as an array of nullable elements. */
  function Lift<T>(x: ImmutableArray<T>): (r: ImmutableArray<Option<T>>)
    ensures r.DefaultArray? <==> x.DefaultArray?
    ensures x.ArrayOf? ==> |r.items| == |x.items| && forall i :: 0 <= i < |x.items| ==> r.items[i] == Some(x.items[i])
  {
    match x
    case DefaultArray => Comparison.DefaultArray
    case ArrayOf(items) => Comparison.ArrayOf(seq(|items|, i requires 0 <= i < |items| => Some(items[i])))
  }

  /** The nullable-element equality of a comparer built from `eq` (`FuncEqualityComparer`, or
    * `EqualityComparer<T>.Default` for a type that implements `IEquatable<T>`): null equals only null. */
  function NullableEquals<T>(eq: (T, T) -> bool): (Option<T>, Option<T>) -> bool
  {
    (x: Option<T>, y: Option<T>) => if x.None? then y.None? else y.Some? && eq(x.value, y.value)
  }

  /** The comparer's element-wise comparison of lifted arrays is `SameArrays`. */
  lemma LiftedArrays<T>(x: ImmutableArray<T>, y: ImmutableArray<T>, eq: (T, T) -> bool)
    requires !Lift(x).IsDefaultOrEmpty() && !Lift(y).IsDefaultOrEmpty()
    ensures Comparison.AllEqual(NullableEquals(eq), Lift(x).items, Lift(y).items) <==> SameArrays(x, y, eq)
  {
    var lx, ly := Lift(x).items, Lift(y).items;
    if |x.items| == |y.items| {
      assert (forall i :: 0 <= i < |lx| ==> NullableEquals(eq)(lx[i], ly[i])) <==>
        (forall i :: 0 <= i < |x.items| ==> eq(x.items[i], y.items[i]));
    }
  }

  /** `MemberSig.Equals(MemberSig?)`, with the two array comparers the source builds. */
  method Equals(a: MemberSig, other: Option<MemberSig>) returns (r: bool)
    ensures r == MemberEquals(a, other)
  {
    if other.None? {
      return false;
    }
    var b := other.value;
    if !(a.visibility == b.visibility && a.instic == b.instic && a.keywords == b.keywords &&
         a.name == b.name && a.memberType == b.memberType && TypeEquals(a.returnType, Some(b.returnType))) {
      return false;
    }
    var attrComp := new Comparison.EnumerableEqualityComparer<Attributes.AttributeData>(
      Some(NullableEquals(SameAttributeType)));
    var sameAttributes := attrComp.ImmutableEquals(Lift(a.attributes), Lift(b.attributes));
    if !Lift(a.attributes).IsDefaultOrEmpty() && !Lift(b.attributes).IsDefaultOrEmpty() {
      LiftedArrays(a.attributes, b.attributes, SameAttributeType);
    }
    if !sameAttributes {
      return false;
    }
    var paramComp := new Comparison.EnumerableEqualityComparer<ParameterSig>(Some(NullableEquals(SameParam)));
    var sameParams := paramComp.ImmutableEquals(Lift(a.paramTypes), Lift(b.paramTypes));
    if !Lift(a.paramTypes).IsDefaultOrEmpty() && !Lift(b.paramTypes).IsDefaultOrEmpty() {
      LiftedArrays(a.paramTypes, b.paramTypes, SameParam);
    }
    return sameParams;
  }

  /** `MemberSig.Equals` is reflexive and symmetric (and transitive). */
  lemma MemberEqualsIsEquivalence(a: MemberSig, b: MemberSig, c: MemberSig)
    ensures MemberEquals(a, Some(a))
    ensures MemberEquals(a, Some(b)) ==> MemberEquals(b, Some(a))
    ensures MemberEquals(a, Some(b)) && MemberEquals(b, Some(c)) ==> MemberEquals(a, Some(c))
  {
    if MemberEquals(a, Some(b)) && MemberEquals(b, Some(c)) && !a.attributes.IsDefaultOrEmpty() {
      assert forall i :: 0 <= i < |a.attributes.items| ==>
        SameAttributeType(a.attributes.items[i], b.attributes.items[i]) &&
        SameAttributeType(b.attributes.items[i], c.attributes.items[i]);
    }
    if MemberEquals(a, Some(b)) && MemberEquals(b, Some(c)) && !a.paramTypes.IsDefaultOrEmpty() {
      assert forall i :: 0 <= i < |a.paramTypes.items| ==>
        SameParam(a.paramTypes.items[i], b.paramTypes.items[i]) && SameParam(b.paramTypes.items[i], c.paramTypes.items[i]);
    }
  }

  /** `Equals(null)` is false. */
  lemma NullIsNeverEqual(a: MemberSig)
    ensures !MemberEquals(a, None)
  {
  }

  // ---------------------------------------------------------------- hash codes

  /** The hash codes of the parameters, in order. */
  function ParamCodes(env: HashEnv, ps: seq<ParameterSig>): (r: seq<Hashing.HashCode>)
    ensures |r| == |ps| && forall i :: 0 <= i < |ps| ==> r[i] == ParamHash(env, ps[i])
  {
    if |ps| == 0 then [] else [ParamHash(env, ps[0])] + ParamCodes(env, ps[1..])
  }

  /** The codes as the nullable values `AddAll` takes. */
  function NullableCodes(codes: seq<Hashing.HashCode>): (r: seq<Option<Hashing.HashCode>>)
    ensures Hashing.CodesOf(r) == codes
  {
    seq(|codes|, i requires 0 <= i < |codes| => Some(codes[i]))
  }

  /** What `GetHashCode` adds, in order: the three flag values, the name, the member type, the return
    * type and each parameter. The attributes are not hashed. */
  function MemberCodes(env: HashEnv, a: MemberSig): seq<Hashing.HashCode>
    requires a.paramTypes.ArrayOf?
  {
    HeaderCodes(env, a) + ParamCodes(env, a.paramTypes.items)
  }

  /** The codes added before the parameters, one `Add` at a time. */
  function HeaderCodes(env: HashEnv, a: MemberSig): (r: seq<Hashing.HashCode>)
    ensures |r| == 6
  {
    [] + [EnumCode(a.visibility)] + [EnumCode(a.instic)] + [EnumCode(a.keywords)] + [env.stringHash(a.name)] +
    [EnumCode(a.memberType)] + [TypeHash(env, a.returnType)]
  }

  /** `MemberSig.GetHashCode()`: xxHash32 of those codes; `AddAll` over a default `ParamTypes` throws
    * InvalidOperationException when it enumerates it. */
  function MemberHash(env: HashEnv, a: MemberSig): Result<Hashing.HashCode, Exception>
  {
    match a.paramTypes
    case DefaultArray => Err(InvalidOperationException)
    case ArrayOf(_) =>
      var m := env.mixer;
      Ok(Hashing.Finish(m, Hashing.Absorb(m, MemberCodes(env, a))))
  }

  /** Below 2^32 parameters the hash code is xxHash32 of the added codes. */
  lemma MemberHashIsXXH32(env: HashEnv, a: MemberSig)
    requires a.paramTypes.ArrayOf? && |a.paramTypes.items| < 0x1_0000_0000 - 6
    ensures MemberHash(env, a) == Ok(Hashing.XXH32(env.mixer, MemberCodes(env, a)))
  {
    Hashing.FinishIsXXH32(env.mixer, MemberCodes(env, a));
  }

  /** `MemberSig.GetHashCode()`, feeding a fresh `Hasher` as the source does. */
  method GetHashCode(a: MemberSig, seed: bv32, stringHash: string -> Hashing.HashCode)
    returns (r: Result<Hashing.HashCode, Exception>)
    ensures r == MemberHash(HashEnv(Hashing.XxHash32(seed), stringHash), a)
  {
    var hasher := new Hashing.Hasher(seed);
    r := AddMember(hasher, a, stringHash);
  }

  /** The body of `GetHashCode` on a fresh hasher, whatever its mixing steps. */
  method AddMember(hasher: Hashing.Hasher, a: MemberSig, stringHash: string -> Hashing.HashCode)
    returns (r: Result<Hashing.HashCode, Exception>)
    requires hasher.Valid() && hasher.added == []
    modifies hasher
    ensures r == MemberHash(HashEnv(hasher.mixer, stringHash), a)
  {
    var env := HashEnv(hasher.mixer, stringHash);
    AddHeader(hasher, a, env);
    if a.paramTypes.DefaultArray? {
      return Err(InvalidOperationException);
    }
    hasher.AddAll(Some(NullableCodes(ParamCodes(env, a.paramTypes.items))));
    r := Ok(hasher.ToHashCode());
  }

  /** The six `Add` calls before the parameters. */
  method AddHeader(hasher: Hashing.Hasher, a: MemberSig, env: HashEnv)
    requires hasher.Valid() && hasher.added == [] && env.mixer == hasher.mixer
    modifies hasher
    ensures hasher.Valid() && hasher.added == HeaderCodes(env, a)
  {
    hasher.Add(Some(EnumCode(a.visibility)));
    hasher.Add(Some(EnumCode(a.instic)));
    hasher.Add(Some(EnumCode(a.keywords)));
    hasher.Add(Some(env.stringHash(a.name)));
    hasher.Add(Some(EnumCode(a.memberType)));
    hasher.Add(Some(TypeHash(env, a.returnType)));
  }

  /** Equal signatures whose parameter arrays are both initialised have equal hash codes; the hash
    * ignores the attributes, which `Equals` compares. */
  lemma EqualMembersHashEqual(env: HashEnv, a: MemberSig, b: MemberSig)
    requires MemberEquals(a, Some(b)) && a.paramTypes.ArrayOf? && b.paramTypes.ArrayOf?
    ensures MemberHash(env, a) == MemberHash(env, b)
  {
    TypeSigByFullName(env, a.returnType, b.returnType);
    var pa, pb := a.paramTypes.items, b.paramTypes.items;
    if |pa| == 0 || |pb| == 0 {
      assert |pa| == 0 && |pb| == 0;
    } else {
      forall i | 0 <= i < |pa|
        ensures ParamHash(env, pa[i]) == ParamHash(env, pb[i])
      {
        EqualParamsHashEqual(env, pa[i], pb[i]);
      }
    }
    assert ParamCodes(env, pa) == ParamCodes(env, pb);
    assert MemberCodes(env, a) == MemberCodes(env, b);
  }

  /** Signatures that differ only in their attributes hash alike. */
  lemma HashIgnoresAttributes(env: HashEnv, a: MemberSig, attributes: ImmutableArray<Attributes.AttributeData>)
    ensures MemberHash(env, a) == MemberHash(env, a.(attributes := attributes))
  {
  }

  /** `Equals` treats a default and an empty parameter array alike, but only the empty one hashes. */
  lemma DefaultParamsEqualButThrow(env: HashEnv, a: MemberSig)
    requires a.paramTypes == Comparison.ArrayOf([]) && a.attributes.ArrayOf?
    ensures MemberEquals(a, Some(a.(paramTypes := Comparison.DefaultArray)))
    ensures MemberHash(env, a).Ok? && MemberHash(env, a.(paramTypes := Comparison.DefaultArray)).Err?
  {
  }

  // ---------------------------------------------------------------- members of a signature

  /** `HasAttribute(fqn)`: some attribute's class has that FQN; the default array throws. */
  function HasAttribute(a: MemberSig, fqn: string): (r: Result<bool, Exception>)
    ensures a.attributes.DefaultArray? ==> r == Err(NullReferenceException)
    ensures a.attributes.ArrayOf? ==>
      r == Ok(exists i :: 0 <= i < |a.attributes.items| && a.attributes.items[i].attributeClass == Some(fqn))
  {
    Attributes.HasAttribute(Attributes.SymbolAttributeData(a.attributes), fqn)
  }

  /** `VarName`: the name's `ToVariableName()`. */
  function VarName(syntax: Naming.CSharpSyntax, a: MemberSig): string
  {
    Naming.VariableNameOf(syntax, a.name)
  }

  /** `FromImplementation(…)`: a plain signature holding exactly the given values; the attributes are
    * left default, so `HasAttribute` on it throws. */
  function FromImplementation(visibility: Bits, instic: Bits, keywords: Bits, name: string, memberType: Bits,
    returnType: TypeSig, paramTypes: ImmutableArray<ParameterSig>): (r: MemberSig)
    ensures r.kind == PlainSig && r.visibility == visibility && r.instic == instic && r.keywords == keywords
    ensures r.name == name && r.memberType == memberType && r.returnType == returnType && r.paramTypes == paramTypes
    ensures forall fqn :: HasAttribute(r, fqn) == Err(NullReferenceException)
  {
    MemberSig(PlainSig, visibility, instic, keywords, Comparison.DefaultArray, name, memberType, returnType, paramTypes)
  }

  // ---------------------------------------------------------------- symbols

  /** `Accessibility` of the host compiler. */
  datatype Accessibility =
    | NotApplicable | PrivateAccess | ProtectedAndInternal | ProtectedAccess | InternalAccess
    | ProtectedOrInternal | PublicAccess

  /** `MethodKind` of the host compiler, as far as the classification looks. */
  datatype MethodKind = ConstructorKind | StaticConstructorKind | OrdinaryKind | UserDefinedOperatorKind | OtherKind

  /** A property accessor. */
  datatype Accessor = Accessor(isInitOnly: bool)

  /** What kind of symbol a member is, with what the signatures read from properties and methods. */
  datatype SymbolKind =
    | FieldSymbol
    | PropertySymbol(propertyType: TypeSig, propertyParameters: ImmutableArray<ParameterSig>,
        getMethod: Option<Accessor>, setMethod: Option<Accessor>)
    | EventSymbol
    | MethodSymbol(methodKind: MethodKind, returnType: TypeSig, methodParameters: ImmutableArray<ParameterSig>)
    | OtherSymbol

  /** A member symbol: its kind, `IsStatic`, `DeclaredAccessibility`, `GetAttributes()` and `Name`. */
  datatype Symbol = Symbol(kind: SymbolKind, isStatic: bool, accessibility: Accessibility,
    attributes: ImmutableArray<Attributes.AttributeData>, name: string)

  /** The accessibility switch of `SymbolSig`. */
  function VisibilityOf(a: Accessibility): (r: Bits)
  {
    match a
    case NotApplicable => {}
    case PrivateAccess => Private
    case ProtectedAndInternal => Protected + Internal
    case ProtectedAccess => Protected
    case InternalAccess => Internal
    case ProtectedOrInternal => Protected + Internal
    case PublicAccess => Public
  }

  /** Every visibility is a combination of the four flags: empty only for NotApplicable, a single flag
    * for the four plain accessibilities, and two flags for the two combined ones, which cannot be told
    * apart. */
  lemma VisibilityMapping(a: Accessibility)
    ensures VisibilityOf(a) <= AnyVisibility
    ensures VisibilityOf(a) == {} <==> a == NotApplicable
    ensures SingleBit(VisibilityOf(a)) <==> a in {PrivateAccess, ProtectedAccess, InternalAccess, PublicAccess}
    ensures HasFlag(VisibilityOf(a), Protected + Internal) <==> a in {ProtectedAndInternal, ProtectedOrInternal}
    ensures VisibilityOf(ProtectedAndInternal) == VisibilityOf(ProtectedOrInternal)
  {
  }

  /** `IsStatic ? Instic.Static : Instic.Instance`. */
  function InsticOf(isStatic: bool): (r: Bits)
    ensures SingleBit(r) && r <= AnyInstic
    ensures HasFlag(r, Static) <==> isStatic
    ensures HasFlag(r, Instance) <==> !isStatic
  {
    if isStatic then Static else Instance
  }

  /** `GetStr`: ` get;` when there is a getter. */
  function GetStrOf(getMethod: Option<Accessor>): string
  {
    if getMethod.None? then "" else " get;"
  }

  /** `SetStr`: nothing without a setter, ` init;` for an init-only one, ` set;` otherwise. */
  function SetStrOf(setMethod: Option<Accessor>): string
  {
    if setMethod.None? then "" else if setMethod.value.isInitOnly then " init;" else " set;"
  }

  /** The accessor texts are determined by, and determine, which accessors exist. */
  lemma AccessorTexts(g: Option<Accessor>, s: Option<Accessor>)
    ensures GetStrOf(g) == " get;" <==> g.Some?
    ensures GetStrOf(g) == "" <==> g.None?
    ensures SetStrOf(s) == "" <==> s.None?
    ensures SetStrOf(s) == " init;" <==> s.Some? && s.value.isInitOnly
    ensures SetStrOf(s) == " set;" <==> s.Some? && !s.value.isInitOnly
  {
  }

  /** `MethodSig`'s classification: constructors of either kind are `Constructor`, every other method,
    * user-defined operators included, is `Method`. */
  function MethodMemberType(k: MethodKind): (r: Bits)
    ensures r == Constructor <==> k in {ConstructorKind, StaticConstructorKind}
    ensures r == Method <==> k !in {ConstructorKind, StaticConstructorKind}
    ensures r != Operator
  {
    if k == ConstructorKind || k == StaticConstructorKind then Constructor else Method
  }

  /** `MemberSig.FromSymbol`: a `PropertySig` for a property, a `MethodSig` for a method, and
    * NotImplementedException for a field, an event or anything else. Both signatures take the name,
    * attributes, instic and visibility from the symbol (`SymbolSig`) and leave the keywords unset. */
  function FromSymbol(s: Symbol): (r: Result<MemberSig, Exception>)
    ensures r.Err? <==> !(s.kind.PropertySymbol? || s.kind.MethodSymbol?)
    ensures r.Err? ==> r.error == NotImplementedException
    ensures r.Ok? ==> r.value.name == s.name && r.value.attributes == s.attributes && r.value.keywords == {}
    ensures r.Ok? ==> r.value.visibility == VisibilityOf(s.accessibility) && r.value.instic == InsticOf(s.isStatic)
    ensures s.kind.PropertySymbol? ==> (r.Ok? && r.value.memberType == Property &&
      r.value.kind == PropertySig(GetStrOf(s.kind.getMethod), SetStrOf(s.kind.setMethod)) &&
      r.value.returnType == s.kind.propertyType && r.value.paramTypes == s.kind.propertyParameters)
    ensures s.kind.MethodSymbol? ==> (r.Ok? && r.value.kind == MethodSig &&
      r.value.memberType == MethodMemberType(s.kind.methodKind) &&
      r.value.returnType == s.kind.returnType && r.value.paramTypes == s.kind.methodParameters)
  {
    var vis, instic := VisibilityOf(s.accessibility), InsticOf(s.isStatic);
    match s.kind
    case PropertySymbol(t, ps, g, st) =>
      Ok(MemberSig(PropertySig(GetStrOf(g), SetStrOf(st)), vis, instic, {}, s.attributes, s.name, Property, t, ps))
    case MethodSymbol(k, t, ps) =>
      Ok(MemberSig(MethodSig, vis, instic, {}, s.attributes, s.name, MethodMemberType(k), t, ps))
    case _ => Err(NotImplementedException)
  }

  /** A signature from a symbol is never `Operator`, so a query for operators finds none of them,
    * while a `Method` query finds constructors too. */
  lemma SymbolKinds(s: Symbol)
    requires FromSymbol(s).Ok?
    ensures !HasFlag(FromSymbol(s).value.memberType, Operator)
    ensures s.kind.MethodSymbol? ==> HasFlag(FromSymbol(s).value.memberType, Method)
    ensures s.kind.PropertySymbol? ==> !HasFlag(FromSymbol(s).value.memberType, Method)
  {
  }

  // ---------------------------------------------------------------- declarations

  /** `Visibility.DeclareTo` and `Instic.DeclareTo`, which the declarations call but which are not part
    * of this model: each taken to append a text that depends only on the value. */
  datatype Declarers = Declarers(visibilityText: Bits -> string, insticText: Bits -> string)

  /** One `Value(p)` per parameter. */
  function ParamBodies(ps: seq<ParameterSig>): (r: seq<Applied>)
    ensures |r| == |ps| && forall i :: 0 <= i < |ps| ==> r[i] == Applied([Value(ParamObj(ps[i]), None)])
  {
    if |ps| == 0 then [] else [Applied([Value(ParamObj(ps[0]), None)])] + ParamBodies(ps[1..])
  }

  function ParamTexts(ps: seq<ParameterSig>): (r: seq<string>)
    ensures |r| == |ps| && forall i :: 0 <= i < |ps| ==> r[i] == ParamText(ps[i])
  {
    if |ps| == 0 then [] else [ParamText(ps[0])] + ParamTexts(ps[1..])
  }

  /** The calls of `WriteDeclaration`, common to both overloads: the three flag declarations, the
    * return type, a space and the name. */
  function DeclarationHead(a: MemberSig, d: Declarers): Body
  {
    [Append(d.visibilityText(a.visibility)), Append(d.insticText(a.instic)), DeclareCalls(a.keywords),
     Value(TypeObj(a.returnType), None), Append(" "), Append(a.name)]
  }

  /** `WriteDeclaration`: for a property the accessor block, for any other signature the parameter
    * list, which throws InvalidOperationException on a default array once `(` is written. */
  function DeclarationCalls(a: MemberSig, d: Declarers): Emit.Emission
  {
    match a.kind
    case PropertySig(g, s) => Emit.Plain(DeclarationHead(a, d) + [Append(" {"), Append(g), Append(s), Append(" }")])
    case _ =>
      match a.paramTypes
      case DefaultArray => Emit.Emission(DeclarationHead(a, d) + [Append("(")], Some(InvalidOperationException))
      case ArrayOf(ps) => Emit.Plain(DeclarationHead(a, d) + [Append("("), DelimitText(Some(", "), ParamBodies(ps)), Append(")")])
  }

  /** The text of the head. */
  function HeadText(a: MemberSig, d: Declarers): string
  {
    d.visibilityText(a.visibility) + d.insticText(a.instic) + KeywordText(a.keywords) +
    TextHelper.AsSpan(a.returnType.fullName) + " " + a.name
  }

  /** The declaration text: for a method `head(p1, p2, …)` with the parameters' texts joined by `, `;
    * for a property `head {` + getter + setter + ` }`. */
  function DeclarationText(a: MemberSig, d: Declarers): string
    requires a.kind.PropertySig? || a.paramTypes.ArrayOf?
  {
    match a.kind
    case PropertySig(g, s) => HeadText(a, d) + " {" + g + s + " }"
    case _ => HeadText(a, d) + "(" + Strings.Join(ParamTexts(a.paramTypes.items), ", ") + ")"
  }

  /** The keyword tokens are the flat text of `DeclareTo`'s enumeration. */
  lemma {:induction false} TokensAreFlat(ms: seq<Flags.Member>, indent: string)
    decreases |ms|
    ensures Emit.FlatItems(KeywordBodies(ms), indent) == Some(Tokens(ms))
  {
    if |ms| > 0 {
      var calls := KeywordBodies(ms)[0].calls;
      Emit.FlatFirst(calls, indent);
      Emit.FlatPrefix(calls, 1, indent);
      assert calls[..2] == calls;
      assert KeywordBodies(ms)[1..] == KeywordBodies(ms[1..]);
      TokensAreFlat(ms[1..], indent);
    }
  }

  /** The six calls of the head append the head text. */
  lemma HeadIsFlat(a: MemberSig, d: Declarers, cs: Body, indent: string)
    requires |cs| >= 6 && cs[..6] == DeclarationHead(a, d)
    ensures Emit.FlatBody(cs[..6], indent) == Some(HeadText(a, d))
  {
    TokensAreFlat(GetFlags(MemberKeywordsEnum, a.keywords), indent);
    Emit.FlatFirst(cs, indent);
    Emit.FlatPrefix(cs, 1, indent);
    Emit.FlatPrefix(cs, 2, indent);
    Emit.FlatPrefix(cs, 3, indent);
    Emit.FlatPrefix(cs, 4, indent);
    Emit.FlatPrefix(cs, 5, indent);
  }

  /** The parameter values joined by `, ` are the parameters' texts joined by `, `. */
  lemma {:induction false} ParamsAreFlat(ps: seq<ParameterSig>, first: bool, indent: string)
    decreases |ps|
    ensures Emit.FlatJoin(", ", ParamBodies(ps), first, indent) == Some(Strings.JoinFrom(ParamTexts(ps), ", ", first))
  {
    if |ps| > 0 {
      var calls := ParamBodies(ps)[0].calls;
      Emit.FlatFirst(calls, indent);
      assert calls[..1] == calls;
      assert ParamBodies(ps)[1..] == ParamBodies(ps[1..]);
      assert ParamTexts(ps)[1..] == ParamTexts(ps[1..]);
      ParamsAreFlat(ps[1..], false, indent);
      Strings.JoinFromStep(ParamTexts(ps), ", ", first);
    }
  }

  /** The calls of a property declaration append its text. */
  lemma PropertyDeclarationIsFlat(a: MemberSig, d: Declarers, indent: string)
    requires a.kind.PropertySig?
    ensures Emit.FlatBody(DeclarationCalls(a, d).calls, indent) == Some(DeclarationText(a, d))
  {
    var cs := DeclarationCalls(a, d).calls;
    assert cs == DeclarationHead(a, d) + [Append(" {"), Append(a.kind.getStr), Append(a.kind.setStr), Append(" }")];
    HeadIsFlat(a, d, cs, indent);
    Emit.FlatPrefix(cs, 6, indent);
    Emit.FlatPrefix(cs, 7, indent);
    Emit.FlatPrefix(cs, 8, indent);
    Emit.FlatPrefix(cs, 9, indent);
    assert cs[..10] == cs;
  }

  /** The calls of a method declaration append its text. */
  lemma MethodDeclarationIsFlat(a: MemberSig, d: Declarers, indent: string)
    requires !a.kind.PropertySig? && a.paramTypes.ArrayOf?
    ensures Emit.FlatBody(DeclarationCalls(a, d).calls, indent) == Some(DeclarationText(a, d))
  {
    var cs := DeclarationCalls(a, d).calls;
    var ps := a.paramTypes.items;
    assert cs == DeclarationHead(a, d) + [Append("("), DelimitText(Some(", "), ParamBodies(ps)), Append(")")];
    HeadIsFlat(a, d, cs, indent);
    ParamsAreFlat(ps, true, indent);
    Emit.FlatPrefix(cs, 6, indent);
    Emit.FlatPrefix(cs, 7, indent);
    Emit.FlatPrefix(cs, 8, indent);
    assert cs[..9] == cs;
  }

  /** The calls made before a default parameter array throws append the head and `(`. */
  lemma UnlistedDeclarationIsFlat(a: MemberSig, d: Declarers, indent: string)
    requires !a.kind.PropertySig? && a.paramTypes.DefaultArray?
    ensures Emit.FlatBody(DeclarationCalls(a, d).calls, indent) == Some(HeadText(a, d) + "(")
  {
    var cs := DeclarationCalls(a, d).calls;
    assert cs == DeclarationHead(a, d) + [Append("(")];
    HeadIsFlat(a, d, cs, indent);
    Emit.FlatPrefix(cs, 6, indent);
    assert cs[..7] == cs;
  }

  /** `WriteDeclaration` writes exactly the declaration text and leaves the indent alone; on a method
    * signature with a default parameter array it throws after writing the head and `(`. */
  lemma DeclarationWritesText(a: MemberSig, d: Declarers, st: St)
    ensures a.kind.PropertySig? || a.paramTypes.ArrayOf? ==>
      Emit.RunEmission(DeclarationCalls(a, d), st) == Done(Put(st, DeclarationText(a, d)))
    ensures !a.kind.PropertySig? && a.paramTypes.DefaultArray? ==>
      Emit.RunEmission(DeclarationCalls(a, d), st) == Failed(InvalidOperationException, Put(st, HeadText(a, d) + "("))
  {
    if a.kind.PropertySig? {
      PropertyDeclarationIsFlat(a, d, st.indent);
      Emit.BodyWrites(DeclarationCalls(a, d).calls, st, DeclarationText(a, d));
    } else if a.paramTypes.ArrayOf? {
      MethodDeclarationIsFlat(a, d, st.indent);
      Emit.BodyWrites(DeclarationCalls(a, d).calls, st, DeclarationText(a, d));
    } else {
      UnlistedDeclarationIsFlat(a, d, st.indent);
      Emit.BodyWrites(DeclarationCalls(a, d).calls, st, HeadText(a, d) + "(");
    }
  }

  /** `WriteDeclaration(codeBuilder)`. */
  method WriteDeclaration(a: MemberSig, d: Declarers, builder: CodingBuilder.CodeBuilder) returns (thrown: Option<Exception>)
    requires builder.Valid()
    modifies builder, builder.chars
    ensures builder.Valid()
    ensures builder.Ending(thrown) == Emit.RunEmission(DeclarationCalls(a, d), old(builder.State()))
  {
    thrown := Emit.Perform(DeclarationCalls(a, d), builder);
  }
}
