/** EnumGen: the generator behind `[Enum]` on a `readonly partial struct`. It classifies the struct's
  * public fields into enum members (static fields of the struct's own type) and instance fields
  * (the rest of the non-static ones), and writes the backing of the enum: a static constructor
  * that fills a member array and a name array slot by slot, `TryGetName`/`IsDefined` bound
  * checks, and the constructors. Generated text is modelled with the builder of `TextCode`. */
module EnumGenerator {
  import opened Wrappers
  import opened TextCode
  import Strings
  import Naming
  import Numbers
  import Comparison
  import Attributes
  import Generate
  import TextBuilder

  // ---------------------------------------------------------------- EnumStructToGenerate.cs

  /** An `ITypeSymbol` as the generator reads it: `Name`, the display text `ToString()` gives,
    * and `GetFQN()`. */
  datatype TypeSymbol = TypeSymbol(name: string, display: string, fqn: string)

  datatype Accessibility = NotApplicable | Private | ProtectedAndInternal | Protected | Internal | ProtectedOrInternal | Public

  /** One entry of `GetMembers()`: a field, a method with its parameter types, or anything else. */
  datatype MemberSymbol =
    | Field(fieldName: string, fieldType: TypeSymbol, isStatic: bool, accessibility: Accessibility)
    | Method(methodName: string, parameters: Comparison.ImmutableArray<TypeSymbol>)
    | OtherMember(memberName: string)

  /** A type declaration carrying the attribute: its `readonly` keyword, whether it is a plain
    * `struct` declaration, its symbol, members and attributes. */
  datatype TypeDeclaration = TypeDeclaration(
    isReadOnly: bool, isStruct: bool, symbol: TypeSymbol, members: seq<MemberSymbol>,
    attributes: Attributes.SymbolAttributeData)

  /** An instance field: `(Name, Type)`. */
  datatype InstanceField = InstanceField(name: string, fieldType: TypeSymbol)

  /** `EnumStructToGenerate`; `Flags`, `HasToString` and `SkipZero` default to false. */
  datatype EnumStruct = EnumStruct(
    flags: bool, enumType: TypeSymbol, instanceFields: seq<InstanceField>, enumMembers: seq<string>,
    hasToString: bool, skipZero: bool)
  {
    /** `FieldCount`. */
    function FieldCount(): nat
    {
      |instanceFields|
    }

    /** `MembersLength`: one slot per member, and slot 0 besides when zero is skipped. */
    function MembersLength(): nat
    {
      |enumMembers| + (if skipZero then 1 else 0)
    }
  }

  /** `MembersLength` is a C# `int`. */
  predicate Fits(e: EnumStruct)
  {
    e.MembersLength() < 0x8000_0000
  }

  // ---------------------------------------------------------------- ProcessType (classification)

  const EnumAttributeFQN: string := "Jay.SourceGen.EnumGen.Attributes.EnumAttribute"

  /** `m.Name == nameof(ToString) && m.Parameters.IsDefaultOrEmpty` on a method. */
  predicate IsParameterlessToString(m: MemberSymbol)
  {
    m.Method? && m.methodName == "ToString" && m.parameters.IsDefaultOrEmpty()
  }

  predicate IsPublicField(m: MemberSymbol)
  {
    m.Field? && m.accessibility == Public
  }

  /** A public static field of the struct's own type. */
  predicate IsEnumMember(m: MemberSymbol, self: TypeSymbol)
  {
    IsPublicField(m) && m.fieldType == self && m.isStatic
  }

  /** A public non-static field of another type. */
  predicate IsInstanceField(m: MemberSymbol, self: TypeSymbol)
  {
    IsPublicField(m) && m.fieldType != self && !m.isStatic
  }

  /** `hasToString`: some parameterless `ToString` is declared. */
  function HasToString(members: seq<MemberSymbol>): (r: bool)
    ensures r <==> exists i :: 0 <= i < |members| && IsParameterlessToString(members[i])
  {
    if |members| == 0 then false
    else IsParameterlessToString(members[0]) || HasToString(members[1..])
  }

  /** `enumMembers`: the names of the enum members, in member order. */
  function EnumMembersOf(members: seq<MemberSymbol>, self: TypeSymbol): seq<string>
  {
    if |members| == 0 then []
    else (if IsEnumMember(members[0], self) then [members[0].fieldName] else []) + EnumMembersOf(members[1..], self)
  }

  /** `instanceFields`: `(Name, Type)` of the instance fields, in member order. */
  function InstanceFieldsOf(members: seq<MemberSymbol>, self: TypeSymbol): seq<InstanceField>
  {
    if |members| == 0 then []
    else
      (if IsInstanceField(members[0], self) then [InstanceField(members[0].fieldName, members[0].fieldType)] else []) +
      InstanceFieldsOf(members[1..], self)
  }

  /** `attrArgs.TryGetValue(nameof(EnumAttribute.Flags), out bool flags)`: false unless found as a bool. */
  function FlagsArg(args: Attributes.Args): bool
  {
    match Attributes.TryGetValueAs(args, Some("Flags"), Attributes.BoolKind)
    case Some(v) => v.Bool? && v.b
    case None => false
  }

  /** `ProcessType`: nothing unless the declaration is a `readonly struct` whose `[Enum]` arguments can
    * be read; otherwise the struct to generate. Reading the attributes can throw. */
  function Classify(d: TypeDeclaration): Result<Option<EnumStruct>, Exception>
  {
    if !d.isReadOnly || !d.isStruct then Ok(None)
    else
      match Attributes.TryGetAttributeArg(d.attributes, EnumAttributeFQN)
      case Err(e) => Err(e)
      case Ok(None) => Ok(None)
      case Ok(Some(args)) =>
        Ok(Some(EnumStruct(FlagsArg(args), d.symbol, InstanceFieldsOf(d.members, d.symbol),
          EnumMembersOf(d.members, d.symbol), HasToString(d.members), false)))
  }

  /** Every enum member name is the name of a public static field of the struct's own type, and each
    * such field gives one. */
  lemma {:induction false} EnumMembersAreOwnStaticFields(members: seq<MemberSymbol>, self: TypeSymbol, name: string)
    ensures name in EnumMembersOf(members, self) <==>
      exists i :: 0 <= i < |members| && IsEnumMember(members[i], self) && members[i].fieldName == name
  {
    if |members| > 0 {
      EnumMembersAreOwnStaticFields(members[1..], self, name);
      if name in EnumMembersOf(members[1..], self) {
        var i :| 0 <= i < |members[1..]| && IsEnumMember(members[1..][i], self) && members[1..][i].fieldName == name;
        assert members[i + 1] == members[1..][i];
      }
      if exists i :: 0 <= i < |members| && IsEnumMember(members[i], self) && members[i].fieldName == name {
        var i :| 0 <= i < |members| && IsEnumMember(members[i], self) && members[i].fieldName == name;
        if i > 0 {
          assert members[1..][i - 1] == members[i];
        }
      }
    }
  }

  /** Every instance field is a public non-static field of another type, and each such field gives one. */
  lemma {:induction false} InstanceFieldsAreOtherFields(members: seq<MemberSymbol>, self: TypeSymbol, f: InstanceField)
    ensures f in InstanceFieldsOf(members, self) <==>
      exists i :: 0 <= i < |members| && IsInstanceField(members[i], self) &&
        members[i].fieldName == f.name && members[i].fieldType == f.fieldType
  {
    if |members| > 0 {
      InstanceFieldsAreOtherFields(members[1..], self, f);
      if f in InstanceFieldsOf(members[1..], self) {
        var i :| 0 <= i < |members[1..]| && IsInstanceField(members[1..][i], self) &&
          members[1..][i].fieldName == f.name && members[1..][i].fieldType == f.fieldType;
        assert members[i + 1] == members[1..][i];
      }
      if exists i :: (0 <= i < |members| && IsInstanceField(members[i], self) &&
                      members[i].fieldName == f.name && members[i].fieldType == f.fieldType) {
        var i :| 0 <= i < |members| && IsInstanceField(members[i], self) &&
          members[i].fieldName == f.name && members[i].fieldType == f.fieldType;
        if i > 0 {
          assert members[1..][i - 1] == members[i];
        }
      }
    }
  }

  /** No field is both an enum member and an instance field, so together they are no more than the
    * public fields. */
  lemma {:induction false} ClassesAreDisjoint(members: seq<MemberSymbol>, self: TypeSymbol)
    ensures |EnumMembersOf(members, self)| + |InstanceFieldsOf(members, self)| <= |members|
  {
    if |members| > 0 {
      ClassesAreDisjoint(members[1..], self);
    }
  }

  /** What `ProcessType` yields: nothing for anything but a readonly struct; otherwise the attribute
    * lookup decides, and a struct to generate has the declaration's own fields sorted into members and
    * instance fields, `Flags` from the attribute, and zero never skipped. */
  lemma ClassifyMeaning(d: TypeDeclaration)
    ensures !d.isReadOnly || !d.isStruct ==> Classify(d) == Ok(None)
    ensures d.isReadOnly && d.isStruct ==>
      (Classify(d).Err? <==> Attributes.TryGetAttributeArg(d.attributes, EnumAttributeFQN).Err?) &&
      (Classify(d) == Ok(None) <==> Attributes.TryGetAttributeArg(d.attributes, EnumAttributeFQN) == Ok(None))
    ensures Classify(d).Ok? && Classify(d).value.Some? ==>
      var e := Classify(d).value.value;
      d.isReadOnly && d.isStruct && !e.skipZero && e.enumType == d.symbol &&
      e.flags == FlagsArg(Attributes.TryGetAttributeArg(d.attributes, EnumAttributeFQN).value.value) &&
      (e.hasToString <==> exists i :: 0 <= i < |d.members| && IsParameterlessToString(d.members[i])) &&
      e.MembersLength() == |e.enumMembers| &&
      |e.enumMembers| + |e.instanceFields| <= |d.members|
  {
    ClassesAreDisjoint(d.members, d.symbol);
  }

  /** A `Flags` argument of `true` turns on flags; a missing one, or one that is not a bool, leaves it off. */
  lemma FlagsArgMeaning(args: Attributes.Args)
    ensures FlagsArg(args) <==> Attributes.TryGetValue(args, Some("Flags")) == Some(Attributes.Bool(true))
  {
  }

  // ---------------------------------------------------------------- the static constructor

  /** The first slot a member takes: 1 when slot 0 is reserved for `default`. */
  function Offset(e: EnumStruct): nat
  {
    if e.skipZero then 1 else 0
  }

  /** The slot `m` of the `k`th member. */
  function Slot(e: EnumStruct, k: nat): nat
  {
    k + Offset(e)
  }

  /** `__members[{m}] = {member};` and `__memberNames[{m}] = "{member}";`, one raw string. */
  function SlotLine(m: nat, member: string): string
  {
    Generate.RawText(["__members[" + Naming.NatToString(m) + "] = " + member + ";",
      "__memberNames[" + Naming.NatToString(m) + "] = \"" + member + "\";"])
  }

  const ZeroSlotLine: string := Generate.RawText(["__members[0] = default;", "__memberNames[0] = string.Empty;"])

  /** The `CodeLine` arguments of the static constructor's body, in order. */
  function CtorHead(e: EnumStruct): seq<string>
  {
    var n := Naming.NatToString(e.MembersLength());
    ["__members = new " + e.enumType.name + "[" + n + "];", "__memberNames = new string[" + n + "];"] +
    (if e.skipZero then [ZeroSlotLine] else [])
  }

  function MemberLines(e: EnumStruct): (r: seq<string>)
    ensures |r| == |e.enumMembers|
  {
    seq(|e.enumMembers|, k requires 0 <= k < |e.enumMembers| => SlotLine(Slot(e, k), e.enumMembers[k]))
  }

  function CtorLines(e: EnumStruct): seq<string>
  {
    CtorHead(e) + MemberLines(e)
  }

  /** Each line followed by `DefaultNewLine`, the text `CodeLine` writes for each. */
  function LinesText(lines: seq<string>): string
  {
    if |lines| == 0 then "" else lines[0] + DefaultNewLine + LinesText(lines[1..])
  }

  lemma {:induction false} LinesTextSnoc(lines: seq<string>, line: string)
    ensures LinesText(lines + [line]) == LinesText(lines) + line + DefaultNewLine
  {
    if |lines| == 0 {
      assert lines + [line] == [line];
      assert [line][1..] == [];
    } else {
      assert (lines + [line])[1..] == lines[1..] + [line];
      LinesTextSnoc(lines[1..], line);
    }
  }

  /** One more line written after the text of the lines before it. */
  lemma PutLine(st: St, done: seq<string>, line: string)
    ensures Put(Put(st, LinesText(done)), line + DefaultNewLine) == Put(st, LinesText(done + [line]))
  {
    LinesTextSnoc(done, line);
  }

  /** `CodeLine(text)` in this builder writes the text and `DefaultNewLine`, whatever the indent. */
  method CodeLineTo(builder: TextBuilder.CodeBuilder, text: string)
    requires builder.Valid()
    modifies builder, builder.chars
    ensures builder.Valid() && (builder.chars == old(builder.chars) || fresh(builder.chars))
    ensures builder.State() == Put(old(builder.State()), text + DefaultNewLine)
  {
    CodeIsVerbatim(builder.State(), text);
    builder.Code(text);
    builder.NewLine();
  }

  /** The static constructor's body: the two arrays of `MembersLength` slots, the zero slot when it is
    * skipped, then every member at slot `m`, `m` counting up from the first free slot. */
  method WriteStaticConstructorBody(builder: TextBuilder.CodeBuilder, e: EnumStruct)
    requires builder.Valid()
    modifies builder, builder.chars
    ensures builder.Valid() && (builder.chars == old(builder.chars) || fresh(builder.chars))
    ensures builder.State() == Put(old(builder.State()), LinesText(CtorLines(e)))
  {
    ghost var st := builder.State();
    var m := WriteArrays(builder, e);
    WriteMemberSlots(builder, e, m, st, CtorHead(e));
  }

  /** The two `new` lines and the zero slot; the first free slot is returned. */
  method WriteArrays(builder: TextBuilder.CodeBuilder, e: EnumStruct) returns (m: nat)
    requires builder.Valid()
    modifies builder, builder.chars
    ensures builder.Valid() && (builder.chars == old(builder.chars) || fresh(builder.chars))
    ensures builder.State() == Put(old(builder.State()), LinesText(CtorHead(e)))
    ensures m == Offset(e)
  {
    ghost var st := builder.State();
    ghost var done: seq<string> := [];
    assert Put(st, LinesText(done)) == st;
    var n := Naming.NatToString(e.MembersLength());
    var line := "__members = new " + e.enumType.name + "[" + n + "];";
    CodeLineTo(builder, line);
    PutLine(st, done, line);
    done := done + [line];
    line := "__memberNames = new string[" + n + "];";
    CodeLineTo(builder, line);
    PutLine(st, done, line);
    done := done + [line];
    if e.skipZero {
      CodeLineTo(builder, ZeroSlotLine);
      PutLine(st, done, ZeroSlotLine);
      done := done + [ZeroSlotLine];
      m := 1;
    } else {
      m := 0;
    }
    assert done == CtorHead(e);
  }

  /** The `foreach` over the members, `m` counting the slots. */
  method WriteMemberSlots(builder: TextBuilder.CodeBuilder, e: EnumStruct, m0: nat, ghost st: St, ghost head: seq<string>)
    requires builder.Valid() && m0 == Offset(e)
    requires builder.State() == Put(st, LinesText(head))
    modifies builder, builder.chars
    ensures builder.Valid() && (builder.chars == old(builder.chars) || fresh(builder.chars))
    ensures builder.State() == Put(st, LinesText(head + MemberLines(e)))
  {
    var m := m0;
    var k := 0;
    assert MemberLines(e)[..0] == [];
    assert head + [] == head;
    while k < |e.enumMembers|
      invariant 0 <= k <= |e.enumMembers| && m == Slot(e, k)
      invariant builder.Valid() && (builder.chars == old(builder.chars) || fresh(builder.chars))
      invariant builder.State() == Put(st, LinesText(head + MemberLines(e)[..k]))
    {
      SlotWritten(e, st, head, k);
      CodeLineTo(builder, SlotLine(m, e.enumMembers[k]));
      m := m + 1;
      k := k + 1;
    }
    assert MemberLines(e)[..k] == MemberLines(e);
  }

  /** One more member line written after the lines before it. */
  lemma SlotWritten(e: EnumStruct, st: St, head: seq<string>, k: nat)
    requires k < |e.enumMembers|
    ensures Put(Put(st, LinesText(head + MemberLines(e)[..k])), SlotLine(Slot(e, k), e.enumMembers[k]) + DefaultNewLine) ==
      Put(st, LinesText(head + MemberLines(e)[..k + 1]))
  {
    var line := SlotLine(Slot(e, k), e.enumMembers[k]);
    assert head + MemberLines(e)[..k + 1] == (head + MemberLines(e)[..k]) + [line];
    PutLine(st, head + MemberLines(e)[..k], line);
  }

  /** `__memberNames` once the static constructor has run: `string.Empty` in the reserved slot, then the
    * member names. */
  function MemberNames(e: EnumStruct): (r: seq<string>)
    ensures |r| == e.MembersLength()
  {
    (if e.skipZero then [""] else []) + e.enumMembers
  }

  /** The `k`th member is written to slot `k + Offset`, below `MembersLength`, and that slot of the
    * name array holds its name. */
  lemma MemberSlot(e: EnumStruct, k: nat)
    requires k < |e.enumMembers|
    ensures Offset(e) <= Slot(e, k) < e.MembersLength()
    ensures MemberLines(e)[k] == SlotLine(Slot(e, k), e.enumMembers[k])
    ensures MemberNames(e)[Slot(e, k)] == e.enumMembers[k]
  {
  }

  /** Every slot from `Offset` on holds a member, and the reserved zero holds `string.Empty`: the
    * members and the reserved slot fill the arrays exactly. */
  lemma SlotsFillTheArrays(e: EnumStruct)
    ensures forall v :: Offset(e) <= v < e.MembersLength() ==> MemberNames(e)[v] == e.enumMembers[v - Offset(e)]
    ensures e.skipZero ==> Offset(e) == 1 && MemberNames(e)[0] == ""
    ensures !e.skipZero ==> Offset(e) == 0 && MemberNames(e) == e.enumMembers
  {
    var pre: seq<string> := if e.skipZero then [""] else [];
    assert MemberNames(e) == pre + e.enumMembers;
    forall v | Offset(e) <= v < e.MembersLength()
      ensures MemberNames(e)[v] == e.enumMembers[v - Offset(e)]
    {
      assert |pre| == Offset(e);
    }
  }

  // ---------------------------------------------------------------- TryGetName and IsDefined

  /** `(uint)value` of an `int`. */
  function UInt32Of(v: Numbers.Int32): nat
  {
    if v < 0 then v + Numbers.Int32Modulus else v
  }

  /** The generated non-flags `TryGetName`: `if ((uint)value < {MembersLength}U)` the name at that slot. */
  function TryGetName(e: EnumStruct, value: Numbers.Int32): Option<string>
    requires Fits(e)
  {
    if UInt32Of(value) < e.MembersLength() then Some(MemberNames(e)[value]) else None
  }

  /** The generated non-flags `IsDefined`: `((uint)value) < {MembersLength}U`. */
  predicate IsDefined(e: EnumStruct, value: Numbers.Int32)
  {
    UInt32Of(value) < e.MembersLength()
  }

  /** The unsigned comparison is the two-sided range check, so a negative value is never defined;
    * `TryGetName` finds a name exactly for the defined values, and every member's own slot gives it
    * back its name. */
  lemma NamesAreFoundForDefinedValues(e: EnumStruct, value: Numbers.Int32)
    requires Fits(e)
    ensures IsDefined(e, value) <==> 0 <= value < e.MembersLength()
    ensures TryGetName(e, value).Some? <==> IsDefined(e, value)
    ensures forall k :: 0 <= k < |e.enumMembers| ==> TryGetName(e, Slot(e, k)) == Some(e.enumMembers[k])
  {
    forall k | 0 <= k < |e.enumMembers|
      ensures TryGetName(e, Slot(e, k)) == Some(e.enumMembers[k])
    {
      MemberSlot(e, k);
    }
  }

  const UInt32Modulus: nat := 0x1_0000_0000

  function Pow2(n: nat): (r: nat)
    ensures r >= 1
  {
    if n == 0 then 1 else 2 * Pow2(n - 1)
  }

  lemma {:induction false} Pow2Grows(j: nat, k: nat)
    requires j <= k
    ensures Pow2(j) <= Pow2(k)
    decreases k
  {
    if j < k {
      Pow2Grows(j, k - 1);
    }
  }

  lemma Pow2Of32()
    ensures Pow2(31) == 0x8000_0000
    ensures Pow2(32) == UInt32Modulus
  {
    assert Pow2(8) == 256;
    assert Pow2(16) == 65536;
    assert Pow2(24) == 16777216;
  }

  lemma Pow2Below32(k: nat)
    requires k < 32
    ensures Pow2(k) < UInt32Modulus
  {
    Pow2Grows(k, 31);
    Pow2Of32();
  }

  /** C# `uint << int`: the count masked to its low five bits, the product cut to 32 bits. */
  function ShiftLeftUInt32(x: nat, count: nat): (r: nat)
    ensures r < UInt32Modulus
  {
    (x * Pow2(count % 32)) % UInt32Modulus
  }

  /** `{1U << count}U - 1U` as the flags bound is written: the shift happens while the code is
    * generated, and its printed value, which is never 0, less one is the bound. */
  function AsWrittenFlagsBound(count: nat): nat
  {
    var shifted := ShiftLeftUInt32(1, count);
    if shifted == 0 then UInt32Modulus - 1 else shifted - 1
  }

  /** Every member's bit set: `2^count - 1`, all 32 bits once there are 32 or more members. */
  function AllFlags(count: nat): (r: nat)
    ensures r < UInt32Modulus
  {
    if count >= 32 then UInt32Modulus - 1
    else
      Pow2Below32(count);
      Pow2(count) - 1
  }

  /** The as-written bound is right for fewer than 32 members. */
  lemma AsWrittenFlagsBoundBelow32(count: nat)
    requires count < 32
    ensures ShiftLeftUInt32(1, count) == Pow2(count)
    ensures AsWrittenFlagsBound(count) == AllFlags(count)
  {
    Pow2Below32(count);
    var p := Pow2(count);
    ModOfSmall(count, 32);
    ModOfSmall(p, UInt32Modulus);
    assert ShiftLeftUInt32(1, count) == (1 * p) % UInt32Modulus;
  }

  lemma ModOfSmall(x: int, m: int)
    requires 0 <= x < m
    ensures x % m == x
  {
  }

  /** With 32 members C# takes `1U << 32` as `1U << 0`, so the bound written is `1U - 1U`: only `None`
    * passes, where every combination of the 32 member bits should. */
  lemma AsWrittenFlagsBoundWrapsAt32()
    ensures AsWrittenFlagsBound(32) == 0
    ensures AllFlags(32) == 4294967295
    ensures !(UInt32Of(1) <= AsWrittenFlagsBound(32)) && UInt32Of(1) <= AllFlags(32)
  {
    assert ShiftLeftUInt32(1, 32) == 1;
  }

  /** The intended bound holds every member's bit `1 << k` and, below 32 members, stops just short of the
    * next free bit; from 32 members on, every `uint` is a combination of member bits. */
  lemma AllFlagsCoverMembers(count: nat)
    ensures forall k :: 0 <= k < count && k < 32 ==> Pow2(k) <= AllFlags(count)
    ensures count < 32 ==> AllFlags(count) + 1 == Pow2(count)
    ensures count >= 32 ==> forall v: Numbers.Int32 :: UInt32Of(v) <= AllFlags(count)
  {
    forall k | 0 <= k < count && k < 32
      ensures Pow2(k) <= AllFlags(count)
    {
      Pow2Below32(k);
      if count < 32 {
        Pow2Grows(k + 1, count);
      }
    }
  }

  /** The printed `1U << count` is `2^(count % 32)`, never 0, so the as-written bound is that less one. */
  lemma ShiftOfOne(count: nat)
    ensures ShiftLeftUInt32(1, count) == Pow2(count % 32)
    ensures AsWrittenFlagsBound(count) + 1 == ShiftLeftUInt32(1, count)
  {
    Pow2Below32(count % 32);
    ModOfSmall(Pow2(count % 32), UInt32Modulus);
  }

  /** The generated flags `IsDefined` as written: `(uint)value` at most the printed shift less one. */
  predicate FlagsIsDefined(count: nat, value: Numbers.Int32)
  {
    UInt32Of(value) <= AsWrittenFlagsBound(count)
  }

  /** The body of the generated `IsDefined` as written: for flags the comparison with
    * `({1U << count}U - 1U)`, the shift printed as its value; otherwise the range check. */
  function IsDefinedBody(e: EnumStruct, varName: string): string
  {
    var head := "return ((uint)" + varName + ".__value) ";
    if e.flags then head + "<= (" + Naming.NatToString(ShiftLeftUInt32(1, |e.enumMembers|)) + "U - 1U);"
    else head + "< " + Naming.NatToString(e.MembersLength()) + "U;"
  }

  /** For flags, the literal in the written check is the as-written bound plus one, and `1U` taken
    * from it does not wrap, so the text checks `FlagsIsDefined`. Below 32 members that is the
    * intended check; at 32 the text reads `(1U - 1U)` and only 0 passes. */
  lemma IsDefinedBodyText(e: EnumStruct, varName: string, value: Numbers.Int32)
    ensures e.flags ==>
      IsDefinedBody(e, varName) ==
      "return ((uint)" + varName + ".__value) <= (" + Naming.NatToString(AsWrittenFlagsBound(|e.enumMembers|) + 1) + "U - 1U);"
    ensures e.flags && |e.enumMembers| < 32 ==>
      (FlagsIsDefined(|e.enumMembers|, value) <==> UInt32Of(value) <= AllFlags(|e.enumMembers|))
    ensures e.flags && |e.enumMembers| == 32 ==>
      IsDefinedBody(e, varName) == "return ((uint)" + varName + ".__value) <= (1U - 1U);" &&
      (FlagsIsDefined(32, value) <==> value == 0)
  {
    var n := |e.enumMembers|;
    ShiftOfOne(n);
    if n < 32 {
      AsWrittenFlagsBoundBelow32(n);
    }
    if n == 32 {
      AsWrittenFlagsBoundWrapsAt32();
      assert Naming.NatToString(1) == "1";
    }
  }

  // ---------------------------------------------------------------- WriteConstructors

  const IncrementLine: string := "__value = Interlocked.Increment(ref Incrementer.NextValue);"

  /** The public parameterless constructor, one raw string. */
  function PublicConstructor(e: EnumStruct): string
  {
    Generate.RawText(["public " + e.enumType.display + "()", "{", "    " + IncrementLine, "}"])
  }

  /** `{field.Type} {field.Name.ToVariableName()}`. */
  function ParameterTexts(syntax: Naming.CSharpSyntax, fields: seq<InstanceField>): (r: seq<string>)
    ensures |r| == |fields|
  {
    seq(|fields|, i requires 0 <= i < |fields| => fields[i].fieldType.display + " " + Naming.VariableNameOf(syntax, fields[i].name))
  }

  /** `this.{field.Name} = {field.Name.ToVariableName()};`. */
  function AssignmentLines(syntax: Naming.CSharpSyntax, fields: seq<InstanceField>): (r: seq<string>)
    ensures |r| == |fields|
  {
    seq(|fields|, i requires 0 <= i < |fields| => "this." + fields[i].name + " = " + Naming.VariableNameOf(syntax, fields[i].name) + ";")
  }

  /** One action per text, each writing it with `Code`. */
  function CodeActions(texts: seq<string>): (r: seq<Applied>)
    ensures |r| == |texts|
  {
    seq(|texts|, i requires 0 <= i < |texts| => Applied([Code(texts[i])]))
  }

  /** One action per line, each writing it with `CodeLine`. */
  function CodeLineActions(lines: seq<string>): (r: seq<Applied>)
    ensures |r| == |lines|
  {
    seq(|lines|, i requires 0 <= i < |lines| => Applied([CodeLine(lines[i])]))
  }

  /** The assignments, then the next value, inside the bracket. */
  function ConstructorBody(e: EnumStruct, syntax: Naming.CSharpSyntax): Body
  {
    [Enumerate(CodeLineActions(AssignmentLines(syntax, e.instanceFields))), AppendLine(IncrementLine)]
  }

  /** `WriteConstructors`: with no instance fields the public parameterless constructor; otherwise a
    * private one taking every instance field, in order, and assigning each. */
  function ConstructorCalls(e: EnumStruct, syntax: Naming.CSharpSyntax): Body
  {
    if |e.instanceFields| == 0 then [CodeLine(PublicConstructor(e))]
    else
      [Code("private " + e.enumType.display + "("),
       DelimitText(Some(", "), CodeActions(ParameterTexts(syntax, e.instanceFields))),
       AppendLine(")"),
       BracketBlock(ConstructorBody(e, syntax), None)]
  }

  /** The first action writes its text; the others are the actions of the other texts. */
  lemma CodeActionsStep(texts: seq<string>, st: St)
    requires |texts| > 0
    ensures ExecBody(CodeActions(texts)[0].calls, st) == Done(Put(st, texts[0]))
    ensures CodeActions(texts)[1..] == CodeActions(texts[1..])
  {
    assert CodeActions(texts)[0].calls == [Code(texts[0])];
    OneCallBody(Code(texts[0]), st);
    CodeIsVerbatim(st, texts[0]);
  }

  lemma JoinedAfter(w: string, texts: seq<string>, first: bool)
    requires |texts| > 0
    ensures ((w + (if first then "" else ", ")) + texts[0]) + Strings.JoinFrom(texts[1..], ", ", false) ==
      w + Strings.JoinFrom(texts, ", ", first)
  {
    Strings.JoinFromStep(texts, ", ", first);
  }

  lemma {:induction false} DelimitedCodeIsJoined(texts: seq<string>, first: bool, st: St)
    decreases |texts|
    ensures ExecDelimitText(", ", CodeActions(texts), first, st) == Done(Put(st, Strings.JoinFrom(texts, ", ", first)))
  {
    if |texts| > 0 {
      var s0 := if first then st else Put(st, ", ");
      CodeActionsStep(texts, s0);
      var s1 := Put(s0, texts[0]);
      DelimitedCodeIsJoined(texts[1..], false, s1);
      JoinedAfter(st.written, texts, first);
    }
  }

  /** The first action writes its line and a line break; the others are the actions of the other lines. */
  lemma CodeLineActionsStep(lines: seq<string>, st: St)
    requires |lines| > 0
    ensures ExecBody(CodeLineActions(lines)[0].calls, st) == Done(Put(st, lines[0] + DefaultNewLine))
    ensures CodeLineActions(lines)[1..] == CodeLineActions(lines[1..])
  {
    assert CodeLineActions(lines)[0].calls == [CodeLine(lines[0])];
    OneCallBody(CodeLine(lines[0]), st);
    CodeIsVerbatim(st, lines[0]);
  }

  lemma {:induction false} CodeLinesAreEnumerated(lines: seq<string>, st: St)
    decreases |lines|
    ensures ExecBodies(CodeLineActions(lines), st) == Done(Put(st, LinesText(lines)))
  {
    if |lines| > 0 {
      CodeLineActionsStep(lines, st);
      var s1 := Put(st, lines[0] + DefaultNewLine);
      CodeLinesAreEnumerated(lines[1..], s1);
      assert s1.written + LinesText(lines[1..]) == st.written + LinesText(lines);
    }
  }

  /** A call that completes leaves the rest of the body to run from where it stopped. */
  lemma BodyStep(c: Cmd, rest: Body, st: St, s: St)
    requires ExecCmd(c, st) == Done(s)
    ensures ExecBody([c] + rest, st) == ExecBody(rest, s)
  {
    assert ([c] + rest)[0] == c;
    assert ([c] + rest)[1..] == rest;
  }

  lemma TwoCallsStep(c: Cmd, d: Cmd, st: St, s: St)
    requires ExecCmd(c, st) == Done(s)
    ensures ExecBody([c, d], st) == ExecBody([d], s)
  {
    assert [c, d][1..] == [d];
  }

  /** Inside the bracket: one assignment line per instance field, in order, then the next value; none
    * of it throws. */
  lemma ConstructorBodyText(e: EnumStruct, syntax: Naming.CSharpSyntax, st: St)
    ensures ExecBody(ConstructorBody(e, syntax), st) ==
      Done(Put(st, LinesText(AssignmentLines(syntax, e.instanceFields)) + IncrementLine + DefaultNewLine))
  {
    LinesThenIncrement(AssignmentLines(syntax, e.instanceFields), st);
  }

  lemma LinesThenIncrement(lines: seq<string>, st: St)
    ensures ExecBody([Enumerate(CodeLineActions(lines)), AppendLine(IncrementLine)], st) ==
      Done(Put(st, LinesText(lines) + IncrementLine + DefaultNewLine))
  {
    var s := Put(st, LinesText(lines));
    EnumerateCall(lines, st);
    TwoCallsStep(Enumerate(CodeLineActions(lines)), AppendLine(IncrementLine), st, s);
    LastLine(s);
    PutTwice(st, LinesText(lines), IncrementLine + DefaultNewLine);
  }

  lemma PutTwice(st: St, a: string, b: string)
    ensures Put(Put(st, a), b) == Put(st, a + b)
  {
    assert st.written + a + b == st.written + (a + b);
  }

  lemma EnumerateCall(lines: seq<string>, st: St)
    ensures ExecCmd(Enumerate(CodeLineActions(lines)), st) == Done(Put(st, LinesText(lines)))
  {
    CodeLinesAreEnumerated(lines, st);
  }

  lemma LastLine(st: St)
    ensures ExecBody([AppendLine(IncrementLine)], st) == Done(Put(st, IncrementLine + DefaultNewLine))
  {
    OneCallBody(AppendLine(IncrementLine), st);
  }

  /** With no instance fields `WriteConstructors` writes the public parameterless constructor and a
    * line break. */
  lemma PublicConstructorText(e: EnumStruct, syntax: Naming.CSharpSyntax, st: St)
    requires |e.instanceFields| == 0
    ensures ExecBody(ConstructorCalls(e, syntax), st) == Done(Put(st, PublicConstructor(e) + DefaultNewLine))
  {
    OneCallBody(CodeLine(PublicConstructor(e)), st);
    CodeIsVerbatim(st, PublicConstructor(e));
  }

  /** `Delimit(", ", fields, …)` writes the parameters joined by `, `. */
  lemma ParametersText(texts: seq<string>, st: St)
    ensures ExecCmd(DelimitText(Some(", "), CodeActions(texts)), st) == Done(Put(st, Strings.Join(texts, ", ")))
  {
    DelimitedCodeIsJoined(texts, true, st);
  }

  /** With instance fields: `private T(`, the parameters joined by `, `, `)` and a line break, and then
    * the bracketed body. */
  lemma PrivateConstructorText(e: EnumStruct, syntax: Naming.CSharpSyntax, st: St)
    requires |e.instanceFields| > 0
    ensures ExecBody(ConstructorCalls(e, syntax), st) ==
      ExecBracket(ConstructorBody(e, syntax), DefaultIndent,
        Put(st, "private " + e.enumType.display + "(" + Strings.Join(ParameterTexts(syntax, e.instanceFields), ", ") + ")" + DefaultNewLine))
  {
    var open := "private " + e.enumType.display + "(";
    var params := ParameterTexts(syntax, e.instanceFields);
    var delimit := DelimitText(Some(", "), CodeActions(params));
    var bracket := BracketBlock(ConstructorBody(e, syntax), None);
    assert ConstructorCalls(e, syntax) == [Code(open)] + ([delimit] + ([AppendLine(")")] + [bracket]));
    CodeIsVerbatim(st, open);
    var s1 := Put(st, open);
    BodyStep(Code(open), [delimit] + ([AppendLine(")")] + [bracket]), st, s1);
    ParametersText(params, s1);
    var s2 := Put(s1, Strings.Join(params, ", "));
    BodyStep(delimit, [AppendLine(")")] + [bracket], s1, s2);
    var s3 := PutNewLine(Put(s2, ")"));
    CloseParenthesis(s2);
    BodyStep(AppendLine(")"), [bracket], s2, s3);
    BracketCall(ConstructorBody(e, syntax), s3);
    HeaderWritten(st, open, Strings.Join(params, ", "));
  }

  lemma HeaderWritten(st: St, open: string, params: string)
    ensures PutNewLine(Put(Put(Put(st, open), params), ")")) == Put(st, open + params + ")" + DefaultNewLine)
  {
    assert st.written + open + params + ")" + DefaultNewLine == st.written + (open + params + ")" + DefaultNewLine);
  }

  lemma CloseParenthesis(st: St)
    ensures ExecCmd(AppendLine(")"), st) == Done(PutNewLine(Put(st, ")")))
  {
  }

  /** `BracketBlock(body)` as the whole rest of a body: the default indent. */
  lemma BracketCall(body: Body, st: St)
    ensures ExecBody([BracketBlock(body, None)], st) == ExecBracket(body, DefaultIndent, st)
  {
    OneCallBody(BracketBlock(body, None), st);
  }

  /** `WriteConstructors(codeBuilder, toGenerate)`. */
  method WriteConstructors(builder: TextBuilder.CodeBuilder, e: EnumStruct, syntax: Naming.CSharpSyntax)
    returns (thrown: Option<Exception>)
    requires builder.Valid()
    modifies builder, builder.chars
    ensures builder.Valid() && (builder.chars == old(builder.chars) || fresh(builder.chars))
    ensures builder.Ending(thrown) == ExecBody(ConstructorCalls(e, syntax), old(builder.State()))
  {
    thrown := builder.RunBody(ConstructorCalls(e, syntax));
  }

  // ---------------------------------------------------------------- the file

  /** The hint name of `GenerateCode` and `GetSourceCode`: the struct's FQN and `.g.cs`. */
  function HintName(e: EnumStruct): (r: string)
    ensures |r| == |e.enumType.fqn| + 5 && r[..|e.enumType.fqn|] == e.enumType.fqn
    ensures Strings.EndsWith(r, ".g.cs")
  {
    var r := e.enumType.fqn + ".g.cs";
    assert r[|r| - 5..] == ".g.cs";
    r
  }
}
