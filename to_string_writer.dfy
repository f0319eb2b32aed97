/** InterfaceGen/CodeWriters/ToStringImplWriter.cs: the `ToString()` override every implementation
  * receives (it is added to the writer list by hand, never chosen for an interface). It names the
  * implementation and lists the display properties inside a raw string literal. */
module ToStringWriters {
  import opened Wrappers
  import opened Flags
  import opened InterfaceFlags
  import opened Coding
  import Strings
  import Emit
  import Signatures
  import Generate
  import Comparison
  import CodingBuilder

  type MemberSig = Signatures.MemberSig

  // ---------------------------------------------------------------- GetDisplayProperties

  /** `GetDisplayProperties(generate)`: the members whose kind is exactly `Property`; of those, the ones
    * carrying `[Display]`, or all of them when none does. Asking a property with default attributes
    * for `[Display]` throws. */
  function DisplayProperties(members: seq<MemberSig>): Result<seq<MemberSig>, Exception>
  {
    var properties := Generate.OfKind(members, Property);
    match Generate.WithAttribute(properties, Generate.DisplayAttributeFQN)
    case Err(e) => Err(e)
    case Ok(displays) => Ok(if |displays| == 0 then properties else displays)
  }

  /** A property carrying `[Display]`. */
  predicate IsDisplayed(m: MemberSig)
  {
    m.memberType == Property && Generate.Carries(m, Generate.DisplayAttributeFQN)
  }

  /** `GetDisplayProperties` throws exactly when some property has default attributes, and then with
    * a NullReferenceException. */
  lemma DisplayFails(members: seq<MemberSig>)
    ensures DisplayProperties(members).Err? <==>
      exists m :: m in members && m.memberType == Property && m.attributes.DefaultArray?
    ensures DisplayProperties(members).Err? ==> DisplayProperties(members).error == NullReferenceException
  {
    var properties := Generate.OfKind(members, Property);
    Generate.WithAttributeIsFilter(properties, Generate.DisplayAttributeFQN);
    if exists m :: m in members && m.memberType == Property && m.attributes.DefaultArray? {
      var m :| m in members && m.memberType == Property && m.attributes.DefaultArray?;
      assert m in properties;
      var i :| 0 <= i < |properties| && properties[i] == m;
    }
    if exists i :: 0 <= i < |properties| && properties[i].attributes.DefaultArray? {
      var i :| 0 <= i < |properties| && properties[i].attributes.DefaultArray?;
      assert properties[i] in properties;
    }
  }

  /** The choice `GetDisplayProperties` makes when it succeeds: when some property carries `[Display]`
    * the result holds exactly those properties, and when none does it is every property, in order. */
  lemma DisplayChosen(members: seq<MemberSig>)
    requires DisplayProperties(members).Ok?
    ensures var r := DisplayProperties(members).value;
      ((exists m :: m in members && IsDisplayed(m)) ==> (forall m :: m in r <==> m in members && IsDisplayed(m))) &&
      ((forall m :: m in members ==> !IsDisplayed(m)) ==> r == Generate.OfKind(members, Property))
  {
    var properties := Generate.OfKind(members, Property);
    Generate.WithAttributeIsFilter(properties, Generate.DisplayAttributeFQN);
    var displays := Generate.WithAttribute(properties, Generate.DisplayAttributeFQN).value;
    if exists m :: m in members && IsDisplayed(m) {
      var m :| m in members && IsDisplayed(m);
      assert m in properties && m in displays;
    }
    if |displays| > 0 {
      assert displays[0] in displays;
      assert IsDisplayed(displays[0]) && displays[0] in members;
    }
  }

  // ---------------------------------------------------------------- the duplicate check

  /** The return-type test of the duplicate check, as written: the type's simple `Name` against the
    * text `"System.String"`. */
  function NamesSystemString(rt: Signatures.TypeSig): bool
  {
    rt.name == "System.String"
  }

  /** The parameter test of the duplicate check: no parameters. */
  function TakesNothing(pt: Comparison.ImmutableArray<Signatures.ParameterSig>): bool
  {
    pt.IsDefaultOrEmpty()
  }

  /** `HasMember(Instance, Public, Method, "ToString", rt => rt.Name == "System.String", pt => pt.IsDefaultOrEmpty)`. */
  const ToStringQuery: Generate.Query :=
    Generate.Query(Instance, Public, Method, Some("ToString"), Some(NamesSystemString), Some(TakesNothing))

  /** The duplicate check finds exactly the public instance methods named `ToString` without
    * parameters whose return type's simple name is literally `System.String`. */
  lemma ToStringQueryMeaning(m: MemberSig)
    ensures Generate.Matches(m, ToStringQuery) <==>
      HasFlag(m.instic, Instance) && HasFlag(m.visibility, Public) && HasFlag(m.memberType, Method) &&
      m.name == "ToString" && m.returnType.name == "System.String" && m.paramTypes.IsDefaultOrEmpty()
  {
    assert !Strings.IsBlank("ToString") by { assert "ToString"[0] == 'T'; }
  }

  /** A signature read from a symbol whose return type is `string` carries the simple name `String`,
    * so the duplicate check as written never finds it. */
  lemma SimpleStringNameIsMissed(m: MemberSig)
    requires m.returnType.name == "String"
    ensures !Generate.Matches(m, ToStringQuery)
  {
  }

  // ---------------------------------------------------------------- the calls

  const Header: string := "public override string ToString()"

  /** `$"return \"{ImplementationTypeName}\";"`. */
  function ReturnName(name: string): string
  {
    "return \"" + name + "\";"
  }

  /** The raw-string line naming one display property: `Name = {{this.Name}},`. */
  function DisplayLine(p: MemberSig): string
  {
    p.name + " = {{this." + p.name + "}},"
  }

  /** The per-member action of the `Delimit`. */
  function DisplayItem(p: MemberSig): Applied
  {
    Applied([Append(p.name), Append(" = {{this."), Append(p.name), Append("}},")])
  }

  function DisplayItems(ps: seq<MemberSig>): (r: seq<Applied>)
    ensures |r| == |ps|
    ensures forall i :: 0 <= i < |ps| ==> r[i] == DisplayItem(ps[i])
  {
    if |ps| == 0 then [] else [DisplayItem(ps[0])] + DisplayItems(ps[1..])
  }

  function DisplayLines(ps: seq<MemberSig>): (r: seq<string>)
    ensures |r| == |ps|
    ensures forall i :: 0 <= i < |ps| ==> r[i] == DisplayLine(ps[i])
  {
    if |ps| == 0 then [] else [DisplayLine(ps[0])] + DisplayLines(ps[1..])
  }

  /** The inner bracket: the display lines, delimited by `NewLine()`. */
  function NameBlock(ps: seq<MemberSig>): Body
  {
    [Delimit([NewLine], DisplayItems(ps))]
  }

  /** The indented raw string: the type name, the bracketed display lines, a line break and the
    * closing quotes. */
  function RawBlock(name: string, ps: seq<MemberSig>): Body
  {
    [AppendLine(name)] + ([BracketBlock(NameBlock(ps), None)] + RawEnd)
  }

  /** The line break and the closing quotes of the raw string. */
  const RawEnd: Body := [NewLine, Append("\"\"\";")]

  /** The method block: the type name as a literal when there is nothing to display, else the raw
    * string listing the display properties. */
  function MethodBody(name: string, ps: seq<MemberSig>): Body
  {
    if |ps| == 0 then [CodeLine(ReturnName(name))]
    else [AppendLine("return $$\"\"\""), IndentBlock(DefaultIndent, RawBlock(name, ps))]
  }

  /** `WriteInstanceMethods(codeBuilder, generate)`: nothing when a `ToString()` is already declared;
    * otherwise the display properties are chosen first (which may throw before anything is written),
    * then the header and the bracketed method block. */
  function ToStringEmission(info: Generate.Info): Emit.Emission
  {
    if Generate.AnyMatches(info.members, ToStringQuery) then Emit.Plain([])
    else
      match DisplayProperties(info.members)
      case Err(e) => Emit.Emission([], Some(e))
      case Ok(ps) => Emit.Plain([AppendLine(Header), BracketBlock(MethodBody(info.implementationTypeName, ps), None)])
  }

  // ---------------------------------------------------------------- what is written

  /** A declared `ToString()` is never overwritten: the builder is left as it was. */
  lemma DeclaredToStringIsKept(info: Generate.Info, st: St)
    requires Generate.AnyMatches(info.members, ToStringQuery)
    ensures Emit.RunEmission(ToStringEmission(info), st) == Done(st)
  {
  }

  /** Without a declared `ToString()`, a failing choice of display properties throws before anything is
    * written; otherwise the header line is written and then the method block inside a bracket. */
  lemma ToStringWrites(info: Generate.Info, st: St)
    requires !Generate.AnyMatches(info.members, ToStringQuery)
    ensures DisplayProperties(info.members).Err? ==>
      Emit.RunEmission(ToStringEmission(info), st) == Failed(DisplayProperties(info.members).error, st)
    ensures DisplayProperties(info.members).Ok? ==>
      Emit.RunEmission(ToStringEmission(info), st) ==
      ExecBracket(MethodBody(info.implementationTypeName, DisplayProperties(info.members).value), DefaultIndent,
        Put(st, Header + st.indent))
  {
    if DisplayProperties(info.members).Ok? {
      var body := MethodBody(info.implementationTypeName, DisplayProperties(info.members).value);
      Emit.FlatSingle(AppendLine(Header), st.indent);
      assert [AppendLine(Header)] + [BracketBlock(body, None)] == [AppendLine(Header), BracketBlock(body, None)];
      Emit.FlatThenBracket([AppendLine(Header)], body, st, Header + st.indent);
    }
  }

  /** With nothing to display, the method block is the one line returning the type name as a string
    * literal. (A name holding a line break would be split by `CodeLine`.) */
  lemma EmptyDisplayReturnsName(name: string, st: St)
    requires '\r' !in name
    ensures ExecBody(MethodBody(name, []), st) == Done(Put(st, ReturnName(name) + st.indent))
  {
    assert '\r' !in ReturnName(name);
    Emit.FlatSingle(CodeLine(ReturnName(name)), st.indent);
    Emit.BodyWrites([CodeLine(ReturnName(name))], st, ReturnName(name) + st.indent);
  }

  lemma DisplayItemIsFlat(p: MemberSig, indent: string)
    ensures Emit.FlatBody(DisplayItem(p).calls, indent) == Some(DisplayLine(p))
  {
    Emit.FlatFour(Append(p.name), Append(" = {{this."), Append(p.name), Append("}},"), indent,
      p.name, " = {{this.", p.name, "}},");
  }

  lemma {:induction false} DisplayJoin(ps: seq<MemberSig>, first: bool, indent: string)
    decreases |ps|
    ensures Emit.FlatJoin(indent, DisplayItems(ps), first, indent) == Some(Strings.JoinFrom(DisplayLines(ps), indent, first))
  {
    if |ps| > 0 {
      DisplayItemIsFlat(ps[0], indent);
      assert DisplayItems(ps)[1..] == DisplayItems(ps[1..]);
      assert DisplayLines(ps)[1..] == DisplayLines(ps[1..]);
      DisplayJoin(ps[1..], false, indent);
      Strings.JoinFromStep(DisplayLines(ps), indent, first);
    }
  }

  /** Inside the name bracket: one `Name = {{this.Name}},` line per display property, in order,
    * separated by line breaks, and nothing else. */
  lemma DisplayLinesWrite(ps: seq<MemberSig>, st: St)
    ensures ExecBody(NameBlock(ps), st) == Done(Put(st, Strings.Join(DisplayLines(ps), st.indent)))
  {
    DisplayJoin(ps, true, st.indent);
    Emit.LineDelimitWrites(DisplayItems(ps), st, Strings.Join(DisplayLines(ps), st.indent));
  }

  /** A bracket with the default indent, then more calls, which run only if the bracket completed. */
  lemma BracketThen(body: Body, tail: Body, st: St)
    ensures ExecBody([BracketBlock(body, None)] + tail, st) == Then(ExecBracket(body, DefaultIndent, st), tail)
  {
    ExecBodyAppend([BracketBlock(body, None)], tail, st);
    OneCallBody(BracketBlock(body, None), st);
    BracketBlockStep(BracketBlock(body, None), st);
  }

  /** The indented raw string: the type name on its own line, then the bracketed display lines, then
    * a line break and the closing `""";`. */
  lemma RawBlockWrites(name: string, ps: seq<MemberSig>, st: St)
    ensures ExecBody(RawBlock(name, ps), st) ==
      Then(ExecBracket(NameBlock(ps), DefaultIndent, Put(st, name + st.indent)), RawEnd)
  {
    var rest: Body := [BracketBlock(NameBlock(ps), None)] + RawEnd;
    Emit.FlatSingle(AppendLine(name), st.indent);
    Emit.FlatThen([AppendLine(name)], rest, st, name + st.indent);
    BracketThen(NameBlock(ps), RawEnd, Put(st, name + st.indent));
  }

  // ---------------------------------------------------------------- the section action

  /** `WriteInstanceMethods(codeBuilder, generate)`: the duplicate check on the members, then the writes. */
  method WriteInstanceMethods(builder: CodingBuilder.CodeBuilder, generate: Generate.GenerateInfo)
    returns (thrown: Option<Exception>)
    requires builder.Valid()
    modifies builder, builder.chars
    ensures builder.Valid() && (builder.chars == old(builder.chars) || fresh(builder.chars))
    ensures builder.Ending(thrown) == Emit.RunEmission(ToStringEmission(generate.Snapshot()), old(builder.State()))
  {
    var declared := generate.HasMember(ToStringQuery);
    if declared {
      return None;
    }
    thrown := Emit.Perform(ToStringEmission(generate.Snapshot()), builder);
  }
}
