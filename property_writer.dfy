/** `PropertyWriter` and `NotifyPropertyWriter`: the property declarations and constructors every
  * implementation gets, and the events and notification helpers of `INotifyPropertyChanged` /
  * `INotifyPropertyChanging`. Each section action is the list of builder calls it makes
  * (`Emit.Emission`), computed from the `GenerateInfo` it reads. */
module PropertyWriters {
  import opened Wrappers
  import opened Flags
  import opened InterfaceFlags
  import opened Coding
  import Strings
  import Template
  import TextHelper
  import Emit
  import Signatures
  import Generate
  import Comparison
  import CodingBuilder

  type MemberSig = Signatures.MemberSig

  // ---------------------------------------------------------------- the property signatures

  /** `Members.OfType<PropertySig>().ToList()`: the property signatures, in the set's order. */
  function Properties(members: seq<MemberSig>): (r: seq<MemberSig>)
    ensures |r| <= |members|
    ensures forall p :: p in r <==> p in members && p.kind.PropertySig?
  {
    if |members| == 0 then []
    else (if members[0].kind.PropertySig? then [members[0]] else []) + Properties(members[1..])
  }

  /** The filter keeps the order of the members: it distributes over concatenation. */
  lemma {:induction false} PropertiesOfAppend(a: seq<MemberSig>, b: seq<MemberSig>)
    decreases |a|
    ensures Properties(a + b) == Properties(a) + Properties(b)
  {
    if |a| == 0 {
      assert a + b == b;
    } else {
      assert (a + b)[0] == a[0] && (a + b)[1..] == a[1..] + b;
      PropertiesOfAppend(a[1..], b);
    }
  }

  /** `HasGet`, `HasInit` and `HasSet` of a property signature, read off its accessor texts: a getter,
    * an init-only setter, any setter. */
  predicate HasGet(p: MemberSig)
  {
    p.kind.PropertySig? && p.kind.getStr != ""
  }

  predicate HasInit(p: MemberSig)
  {
    p.kind.PropertySig? && p.kind.setStr == " init;"
  }

  predicate HasSet(p: MemberSig)
  {
    p.kind.PropertySig? && p.kind.setStr != ""
  }

  // ---------------------------------------------------------------- WriteProperties

  /** `$"{p.ReturnType} {p.Name} {{"`. */
  const DeclarationPieces: seq<Template.Piece> :=
    [Template.Arg(0), Template.Text(" "), Template.Arg(1), Template.Text(" "), Template.Escaped('{')]

  function DeclarationArgs(p: MemberSig): seq<Obj>
  {
    [Signatures.TypeObj(p.returnType), Str(p.name)]
  }

  /** The accessor appends: ` get;` for a getter, then ` init;` for an init-only setter or else
    * ` set;` for a setter. */
  function AccessorCalls(p: MemberSig): Body
  {
    (if HasGet(p) then [Append(" get;")] else []) +
    (if HasInit(p) then [Append(" init;")] else if HasSet(p) then [Append(" set;")] else [])
  }

  /** The calls for one property: its three flag declarations, the type and name with ` {`, the
    * accessors and ` }`. */
  function PropertyItem(p: MemberSig, d: Signatures.Declarers): Applied
  {
    Applied(PropertyHead(p, d) + AccessorCalls(p) + [Append(" }")])
  }

  function PropertyItems(ps: seq<MemberSig>, d: Signatures.Declarers): (r: seq<Applied>)
    ensures |r| == |ps| && forall i :: 0 <= i < |ps| ==> r[i] == PropertyItem(ps[i], d)
  {
    if |ps| == 0 then [] else [PropertyItem(ps[0], d)] + PropertyItems(ps[1..], d)
  }

  /** `WriteProperties`: `LineDelimit` over the property signatures. */
  function PropertiesEmission(info: Generate.Info, env: Generate.Env): Emit.Emission
  {
    Emit.Plain([Delimit([NewLine], PropertyItems(Properties(info.members), env.declarers))])
  }

  /** The accessor text: ` get;` iff there is a getter, then ` init;` or ` set;` iff there is a setter. */
  function AccessorText(p: MemberSig): string
  {
    (if HasGet(p) then " get;" else "") + (if HasInit(p) then " init;" else if HasSet(p) then " set;" else "")
  }

  /** The line one property gets: the flag texts, the full type name, the name, and the accessor block. */
  function PropertyLine(p: MemberSig, d: Signatures.Declarers): string
  {
    Signatures.HeadText(p, d) + " {" + AccessorText(p) + " }"
  }

  function PropertyLines(ps: seq<MemberSig>, d: Signatures.Declarers): (r: seq<string>)
    ensures |r| == |ps| && forall i :: 0 <= i < |ps| ==> r[i] == PropertyLine(ps[i], d)
  {
    if |ps| == 0 then [] else [PropertyLine(ps[0], d)] + PropertyLines(ps[1..], d)
  }

  lemma DeclarationFormat(p: MemberSig)
    ensures Emit.FlatFormat(Template.Encode(DeclarationPieces), DeclarationArgs(p)) ==
      Some(TextHelper.AsSpan(p.returnType.fullName) + " " + p.name + " {")
  {
    var args := DeclarationArgs(p);
    assert Template.BraceFree(" ");
    Emit.FormatOfFive(Template.Arg(0), Template.Text(" "), Template.Arg(1), Template.Text(" "), Template.Escaped('{'), args);
    var ts := Emit.TextsOf(args);
    assert ts[0] == TextHelper.AsSpan(p.returnType.fullName) && ts[1] == p.name;
    assert Template.ExpectedPiece(Template.Escaped('{'), ts) == "{";
    Strings.StringsOfTail(ts[0] + " " + p.name, " ", "{");
    assert " " + "{" == " {";
  }

  lemma AccessorsAreFlat(p: MemberSig, indent: string)
    ensures Emit.FlatBody(AccessorCalls(p) + [Append(" }")], indent) == Some(AccessorText(p) + " }")
  {
    var g: Body := if HasGet(p) then [Append(" get;")] else [];
    var s: Body := if HasInit(p) then [Append(" init;")] else if HasSet(p) then [Append(" set;")] else [];
    var e: Body := [Append(" }")];
    if HasGet(p) {
      Emit.FlatSingle(Append(" get;"), indent);
    }
    if HasInit(p) {
      Emit.FlatSingle(Append(" init;"), indent);
    } else if HasSet(p) {
      Emit.FlatSingle(Append(" set;"), indent);
    }
    Emit.FlatSingle(Append(" }"), indent);
    Emit.FlatAppend(g, s, indent);
    Emit.FlatAppend(g + s, e, indent);
  }

  /** One property's calls append its line. */
  lemma PropertyItemIsFlat(p: MemberSig, d: Signatures.Declarers, indent: string)
    ensures Emit.FlatBody(PropertyItem(p, d).calls, indent) == Some(PropertyLine(p, d))
  {
    var head := PropertyHead(p, d);
    var tail := AccessorCalls(p) + [Append(" }")];
    assert PropertyItem(p, d).calls == head + tail;
    PropertyHeadIsFlat(p, d, indent);
    AccessorsAreFlat(p, indent);
    Emit.FlatConcat(head, tail, indent, Signatures.HeadText(p, d) + " {", AccessorText(p) + " }");
    Strings.StringsOfTail(Signatures.HeadText(p, d) + " {", AccessorText(p), " }");
  }

  /** The calls before the accessors: the flags, the type and the name, and ` {`. */
  function PropertyHead(p: MemberSig, d: Signatures.Declarers): Body
  {
    [Append(d.visibilityText(p.visibility)), Append(d.insticText(p.instic)), DeclareCalls(p.keywords),
     CodeFormat(Template.Encode(DeclarationPieces), DeclarationArgs(p))]
  }

  lemma PropertyHeadIsFlat(p: MemberSig, d: Signatures.Declarers, indent: string)
    ensures Emit.FlatBody(PropertyHead(p, d), indent) == Some(Signatures.HeadText(p, d) + " {")
  {
    var vis := d.visibilityText(p.visibility);
    var inst := d.insticText(p.instic);
    var kw := KeywordText(p.keywords);
    var x := TextHelper.AsSpan(p.returnType.fullName);
    var decl := x + " " + p.name + " {";
    var head := PropertyHead(p, d);
    Signatures.TokensAreFlat(GetFlags(MemberKeywordsEnum, p.keywords), indent);
    DeclarationFormat(p);
    Emit.FlatFour(head[0], head[1], head[2], head[3], indent, vis, inst, kw, decl);
    var a := vis + inst + kw;
    Strings.StringsOfTail(a, (x + " ") + p.name, " {");
    Strings.StringsOfTail(a, x + " ", p.name);
    Strings.StringsOfTail(a, x, " ");
  }

  lemma {:induction false} PropertyItemsJoin(ps: seq<MemberSig>, d: Signatures.Declarers, first: bool, indent: string)
    decreases |ps|
    ensures Emit.FlatJoin(indent, PropertyItems(ps, d), first, indent) ==
      Some(Strings.JoinFrom(PropertyLines(ps, d), indent, first))
  {
    if |ps| > 0 {
      PropertyItemIsFlat(ps[0], d, indent);
      assert PropertyItems(ps, d)[1..] == PropertyItems(ps[1..], d);
      assert PropertyLines(ps, d)[1..] == PropertyLines(ps[1..], d);
      PropertyItemsJoin(ps[1..], d, false, indent);
      Strings.JoinFromStep(PropertyLines(ps, d), indent, first);
    }
  }

  /** `WriteProperties` writes one declaration line per property signature, in order, separated by
    * line breaks: the lines `PropertyLine` describes, and nothing else. */
  lemma PropertiesWrite(info: Generate.Info, env: Generate.Env, st: St)
    ensures Emit.RunEmission(PropertiesEmission(info, env), st) ==
      Done(Put(st, Strings.Join(PropertyLines(Properties(info.members), env.declarers), st.indent)))
  {
    var ps := Properties(info.members);
    PropertyItemsJoin(ps, env.declarers, true, st.indent);
    Emit.LineDelimitWrites(PropertyItems(ps, env.declarers), st, Strings.Join(PropertyLines(ps, env.declarers), st.indent));
  }

  /** For a property read from a symbol, the line is exactly the signature's own `WriteDeclaration`
    * text: the accessor appends reproduce `GetStr + SetStr`. */
  lemma PropertyLineIsDeclaration(s: Signatures.Symbol, d: Signatures.Declarers)
    requires s.kind.PropertySymbol?
    ensures Signatures.FromSymbol(s).Ok?
    ensures PropertyLine(Signatures.FromSymbol(s).value, d) == Signatures.DeclarationText(Signatures.FromSymbol(s).value, d)
  {
    var p := Signatures.FromSymbol(s).value;
    assert AccessorText(p) == p.kind.getStr + p.kind.setStr;
    Strings.StringsOfTail(Signatures.HeadText(p, d) + " {", p.kind.getStr, p.kind.setStr);
  }

  // ---------------------------------------------------------------- WriteConstructors

  /** `$"public {type}("`. */
  const OpenPieces: seq<Template.Piece> := [Template.Text("public "), Template.Arg(0), Template.Text("(")]

  /** `$"{p.ReturnType} {p.VarName}"`. */
  const ParameterPieces: seq<Template.Piece> := [Template.Arg(0), Template.Text(" "), Template.Arg(1)]

  /** `$"this.{p.Name} = {p.VarName};"`. */
  const AssignmentPieces: seq<Template.Piece> :=
    [Template.Text("this."), Template.Arg(0), Template.Text(" = "), Template.Arg(1), Template.Text(";")]

  function ParameterItems(ps: seq<MemberSig>, env: Generate.Env): (r: seq<Applied>)
    ensures |r| == |ps|
  {
    if |ps| == 0 then []
    else [Applied([CodeFormat(Template.Encode(ParameterPieces),
      [Signatures.TypeObj(ps[0].returnType), Str(Signatures.VarName(env.syntax, ps[0]))])])] + ParameterItems(ps[1..], env)
  }

  function AssignmentItems(ps: seq<MemberSig>, env: Generate.Env): (r: seq<Applied>)
    ensures |r| == |ps|
    ensures forall i :: 0 <= i < |ps| ==> r[i] == Applied([CodeFormat(Template.Encode(AssignmentPieces),
      [Str(ps[i].name), Str(Signatures.VarName(env.syntax, ps[i]))])])
  {
    if |ps| == 0 then []
    else [Applied([CodeFormat(Template.Encode(AssignmentPieces),
      [Str(ps[0].name), Str(Signatures.VarName(env.syntax, ps[0]))])])] + AssignmentItems(ps[1..], env)
  }

  /** The body of the all-property constructor: one assignment per property, line-delimited. */
  function AssignmentBody(ps: seq<MemberSig>, env: Generate.Env): Body
  {
    [Delimit([NewLine], AssignmentItems(ps, env))]
  }

  /** `WriteConstructors`: the parameterless constructor and a blank line; when there are properties,
    * the constructor taking one parameter per property and assigning each. */
  function ConstructorsEmission(info: Generate.Info, env: Generate.Env): Emit.Emission
  {
    var ps := Properties(info.members);
    Emit.Plain(ConstructorsOpening(info.implementationTypeName, ps, env) +
      if |ps| > 0 then [BracketBlock(AssignmentBody(ps, env), None)] else [])
  }

  /** The calls of `WriteConstructors` before the bracket. */
  function ConstructorsOpening(typeName: string, ps: seq<MemberSig>, env: Generate.Env): Body
  {
    [CodeLine("public " + typeName + "() { }"), NewLine] +
    if |ps| > 0 then
      [CodeFormat(Template.Encode(OpenPieces), [Str(typeName)]),
       DelimitText(Some(", "), ParameterItems(ps, env)),
       AppendLine(")")]
    else []
  }

  function ParameterTexts(ps: seq<MemberSig>, env: Generate.Env): (r: seq<string>)
    ensures |r| == |ps|
    ensures forall i :: 0 <= i < |ps| ==>
      r[i] == TextHelper.AsSpan(ps[i].returnType.fullName) + " " + Signatures.VarName(env.syntax, ps[i])
  {
    if |ps| == 0 then []
    else [TextHelper.AsSpan(ps[0].returnType.fullName) + " " + Signatures.VarName(env.syntax, ps[0])] + ParameterTexts(ps[1..], env)
  }

  function AssignmentTexts(ps: seq<MemberSig>, env: Generate.Env): (r: seq<string>)
    ensures |r| == |ps|
    ensures forall i :: 0 <= i < |ps| ==> r[i] == "this." + ps[i].name + " = " + Signatures.VarName(env.syntax, ps[i]) + ";"
  {
    if |ps| == 0 then []
    else ["this." + ps[0].name + " = " + Signatures.VarName(env.syntax, ps[0]) + ";"] + AssignmentTexts(ps[1..], env)
  }

  lemma ParameterFormat(t: Signatures.TypeSig, v: string)
    ensures Emit.FlatFormat(Template.Encode(ParameterPieces), [Signatures.TypeObj(t), Str(v)]) ==
      Some(TextHelper.AsSpan(t.fullName) + " " + v)
  {
    var args := [Signatures.TypeObj(t), Str(v)];
    assert Template.BraceFree(" ");
    Emit.FormatOfThree(Template.Arg(0), Template.Text(" "), Template.Arg(1), args);
    var ts := Emit.TextsOf(args);
    assert ts[0] == TextHelper.AsSpan(t.fullName) && ts[1] == v;
  }

  lemma AssignmentFormat(name: string, v: string)
    ensures Emit.FlatFormat(Template.Encode(AssignmentPieces), [Str(name), Str(v)]) ==
      Some("this." + name + " = " + v + ";")
  {
    assert Template.BraceFree("this.") && Template.BraceFree(" = ") && Template.BraceFree(";");
    var args := [Str(name), Str(v)];
    Emit.FormatOfFive(Template.Text("this."), Template.Arg(0), Template.Text(" = "), Template.Arg(1), Template.Text(";"), args);
    var ts := Emit.TextsOf(args);
    assert ts[0] == name && ts[1] == v;
  }

  lemma {:induction false} ParametersJoin(ps: seq<MemberSig>, env: Generate.Env, first: bool, indent: string)
    decreases |ps|
    ensures Emit.FlatJoin(", ", ParameterItems(ps, env), first, indent) == Some(Strings.JoinFrom(ParameterTexts(ps, env), ", ", first))
  {
    if |ps| > 0 {
      ParameterFormat(ps[0].returnType, Signatures.VarName(env.syntax, ps[0]));
      var calls := ParameterItems(ps, env)[0].calls;
      Emit.FlatFirst(calls, indent);
      assert calls[..1] == calls;
      assert ParameterItems(ps, env)[1..] == ParameterItems(ps[1..], env);
      assert ParameterTexts(ps, env)[1..] == ParameterTexts(ps[1..], env);
      ParametersJoin(ps[1..], env, false, indent);
      Strings.JoinFromStep(ParameterTexts(ps, env), ", ", first);
    }
  }

  lemma {:induction false} AssignmentsJoin(ps: seq<MemberSig>, env: Generate.Env, first: bool, indent: string)
    decreases |ps|
    ensures Emit.FlatJoin(indent, AssignmentItems(ps, env), first, indent) == Some(Strings.JoinFrom(AssignmentTexts(ps, env), indent, first))
  {
    if |ps| > 0 {
      AssignmentFormat(ps[0].name, Signatures.VarName(env.syntax, ps[0]));
      var calls := AssignmentItems(ps, env)[0].calls;
      Emit.FlatFirst(calls, indent);
      assert calls[..1] == calls;
      assert AssignmentItems(ps, env)[1..] == AssignmentItems(ps[1..], env);
      assert AssignmentTexts(ps, env)[1..] == AssignmentTexts(ps[1..], env);
      AssignmentsJoin(ps[1..], env, false, indent);
      Strings.JoinFromStep(AssignmentTexts(ps, env), indent, first);
    }
  }

  /** Inside the bracket, the constructor body is one assignment line per property, in order. */
  lemma AssignmentsWrite(ps: seq<MemberSig>, env: Generate.Env, st: St)
    ensures ExecBody(AssignmentBody(ps, env), st) == Done(Put(st, Strings.Join(AssignmentTexts(ps, env), st.indent)))
  {
    AssignmentsJoin(ps, env, true, st.indent);
    Emit.LineDelimitWrites(AssignmentItems(ps, env), st, Strings.Join(AssignmentTexts(ps, env), st.indent));
  }

  /** The text before the bracket of the all-property constructor. */
  function ConstructorsHead(info: Generate.Info, env: Generate.Env, indent: string): string
  {
    var typeName := info.implementationTypeName;
    var ps := Properties(info.members);
    "public " + typeName + "() { }" + indent + indent +
    if |ps| > 0 then "public " + typeName + "(" + Strings.Join(ParameterTexts(ps, env), ", ") + ")" + indent else ""
  }

  lemma OpenFormat(typeName: string)
    ensures Emit.FlatFormat(Template.Encode(OpenPieces), [Str(typeName)]) == Some("public " + typeName + "(")
  {
    var args := [Str(typeName)];
    assert Template.BraceFree("public ") && Template.BraceFree("(");
    Emit.FormatOfThree(Template.Text("public "), Template.Arg(0), Template.Text("("), args);
    var ts := Emit.TextsOf(args);
    assert ts[0] == typeName;
  }

  /** `WriteConstructors` writes `public T() { }` and a blank line; with no property that is all, and
    * otherwise `public T(` with one `Type varName` per property joined by `, `, then `)` and the
    * bracketed assignments. (A type name holding a line break would be split by `CodeLine`.) */
  lemma ConstructorsWrite(info: Generate.Info, env: Generate.Env, st: St)
    requires '\r' !in info.implementationTypeName
    ensures var ps := Properties(info.members);
      Emit.RunEmission(ConstructorsEmission(info, env), st) ==
      if |ps| == 0 then Done(Put(st, ConstructorsHead(info, env, st.indent)))
      else ExecBracket(AssignmentBody(ps, env), DefaultIndent, Put(st, ConstructorsHead(info, env, st.indent)))
  {
    var ps := Properties(info.members);
    var opening := ConstructorsOpening(info.implementationTypeName, ps, env);
    var rest: Body := if |ps| > 0 then [BracketBlock(AssignmentBody(ps, env), None)] else [];
    var head := ConstructorsHead(info, env, st.indent);
    assert ConstructorsEmission(info, env) == Emit.Plain(opening + rest);
    ConstructorsOpeningIsFlat(info.implementationTypeName, ps, env, st.indent);
    if |ps| > 0 {
      Emit.FlatThenBracket(opening, AssignmentBody(ps, env), st, head);
    } else {
      assert opening + rest == opening;
      Emit.BodyWrites(opening, st, head);
    }
  }

  /** The calls before the bracket append `ConstructorsHead`. */
  lemma ConstructorsOpeningIsFlat(typeName: string, ps: seq<MemberSig>, env: Generate.Env, indent: string)
    requires '\r' !in typeName
    ensures Emit.FlatBody(ConstructorsOpening(typeName, ps, env), indent) ==
      Some("public " + typeName + "() { }" + indent + indent +
        if |ps| > 0 then "public " + typeName + "(" + Strings.Join(ParameterTexts(ps, env), ", ") + ")" + indent else "")
  {
    var line := "public " + typeName + "() { }";
    assert '\r' !in line;
    var first: Body := [CodeLine(line), NewLine];
    Emit.FlatTwo(CodeLine(line), NewLine, indent, line + indent, indent);
    if |ps| == 0 {
      assert ConstructorsOpening(typeName, ps, env) == first;
      assert line + indent + indent + "" == line + indent + indent;
    } else {
      var open: Body := [CodeFormat(Template.Encode(OpenPieces), [Str(typeName)]),
         DelimitText(Some(", "), ParameterItems(ps, env)), AppendLine(")")];
      var t := "public " + typeName + "(" + Strings.Join(ParameterTexts(ps, env), ", ") + ")" + indent;
      OpenIsFlat(typeName, ps, env, indent);
      Emit.FlatConcat(first, open, indent, line + indent + indent, t);
    }
  }

  /** `public T(`, the parameters joined by `, `, and `)` ending the line. */
  lemma OpenIsFlat(typeName: string, ps: seq<MemberSig>, env: Generate.Env, indent: string)
    requires |ps| > 0
    ensures Emit.FlatBody([CodeFormat(Template.Encode(OpenPieces), [Str(typeName)]),
         DelimitText(Some(", "), ParameterItems(ps, env)), AppendLine(")")], indent) ==
      Some("public " + typeName + "(" + Strings.Join(ParameterTexts(ps, env), ", ") + ")" + indent)
  {
    var a := CodeFormat(Template.Encode(OpenPieces), [Str(typeName)]);
    var b := DelimitText(Some(", "), ParameterItems(ps, env));
    OpenFormat(typeName);
    ParametersJoin(ps, env, true, indent);
    var j := Strings.Join(ParameterTexts(ps, env), ", ");
    assert Emit.Flat(b, indent) == Some(j);
    Emit.FlatThree(a, b, AppendLine(")"), indent, "public " + typeName + "(", j, ")" + indent);
    Strings.StringsOfTail(("public " + typeName + "(") + j, ")", indent);
  }

  // ---------------------------------------------------------------- NotifyPropertyWriter

  const ChangedFQN: string := "System.ComponentModel.INotifyPropertyChanged"
  const ChangingFQN: string := "System.ComponentModel.INotifyPropertyChanging"

  /** `NotifyPropertyWriter.CanImplement`: the interface is `INotifyPropertyChanged` or
    * `INotifyPropertyChanging`. */
  predicate NotifyCanImplement(i: Generate.NamedType)
  {
    i.fqn == ChangedFQN || i.fqn == ChangingFQN
  }

  /** `typeof(PropertyChangingEventHandler)`, which both event signatures are given. */
  const ChangingHandler: Signatures.TypeSig :=
    Signatures.TypeSig("PropertyChangingEventHandler", Some("System.ComponentModel.PropertyChangingEventHandler"))

  /** The signature `WriteEvents` adds for an event named `name`: public, instance, no keywords. */
  function EventSig(name: string): (r: MemberSig)
    ensures r.paramTypes == Comparison.ArrayOf([]) && r.name == name && r.memberType == Event
  {
    Signatures.FromImplementation(Public, Instance, NoKeywords, name, Event, ChangingHandler, Comparison.ArrayOf([]))
  }

  const ChangedEvent: MemberSig := EventSig("PropertyChanged")
  const ChangingEvent: MemberSig := EventSig("PropertyChanging")

  const ChangedBlock: Cmd := CodeBlock(Generate.RawText([
    "/// <inheritdoc cref=\"INotifyPropertyChanged\"/>",
    "public event PropertyChangedEventHandler? PropertyChanged;"]), [])

  const ChangingBlock: Cmd := CodeBlock(Generate.RawText([
    "/// <inheritdoc cref=\"INotifyPropertyChanging\"/>",
    "public event PropertyChangingEventHandler? PropertyChanging;"]), [])

  /** What one half of `WriteEvents` does: the emission it performs and the set it leaves. */
  datatype Effect = Effect(emission: Emit.Emission, members: seq<MemberSig>)

  /** One half of `WriteEvents`: if the interface is implemented, add the event's signature, and write
    * its declaration only when the set did not hold it yet. */
  function EventStep(interfaces: Comparison.ImmutableArray<Generate.NamedType>, members: seq<MemberSig>, fqn: string,
    event: MemberSig, block: Cmd): Effect
  {
    match Generate.HasInterface(interfaces, fqn)
    case Err(e) => Effect(Emit.Emission([], Some(e)), members)
    case Ok(has) =>
      if !has then Effect(Emit.Plain([]), members)
      else
        var added := Generate.Insert(members, event);
        match added.0
        case Err(e) => Effect(Emit.Emission([], Some(e)), added.1)
        case Ok(isNew) => Effect(Emit.Plain(if isNew then [block] else []), added.1)
  }

  /** On an array of interfaces, a half writes the block and adds the event exactly when the interface
    * is implemented and the set holds no equal signature. */
  lemma EventStepOn(interfaces: Comparison.ImmutableArray<Generate.NamedType>, members: seq<MemberSig>, fqn: string,
    event: MemberSig, block: Cmd)
    requires interfaces.ArrayOf? && event.paramTypes.ArrayOf?
    ensures var isNew := Generate.HasInterface(interfaces, fqn) == Ok(true) && !Generate.ContainsEqual(members, event);
      EventStep(interfaces, members, fqn, event, block) ==
      Effect(Emit.Plain(if isNew then [block] else []), if isNew then members + [event] else members)
  {
  }

  /** Two bodies run one after the other, the second only when the first succeeded. */
  lemma RunInTurn(a: Body, b: Body, st: St)
    ensures var o := Emit.RunEmission(Emit.Plain(a), st);
      Emit.RunEmission(Emit.Plain(a + b), st) == if o.Failed? then o else Emit.RunEmission(Emit.Plain(b), o.st)
  {
    ExecBodyAppend(a, b, st);
  }

  /** `WriteEvents` on a builder in state `st`: the `PropertyChanged` half, and, unless it failed, the
    * `PropertyChanging` half; the outcome and the set of signatures left. */
  function EventsRun(info: Generate.Info, st: St): (Outcome, seq<MemberSig>)
  {
    var one := EventStep(info.interfaces, info.members, ChangedFQN, ChangedEvent, ChangedBlock);
    var o1 := Emit.RunEmission(one.emission, st);
    if o1.Failed? then (o1, one.members)
    else
      var two := EventStep(info.interfaces, one.members, ChangingFQN, ChangingEvent, ChangingBlock);
      (Emit.RunEmission(two.emission, o1.st), two.members)
  }

  /** Which declarations `WriteEvents` writes: the `PropertyChanged` one iff that interface is
    * implemented and no equal signature was in the set, then likewise `PropertyChanging`; each written
    * event's signature joins the set (when the writing succeeds). On default interfaces it throws
    * before writing anything. */
  lemma EventsWritten(info: Generate.Info, st: St)
    ensures info.interfaces.DefaultArray? ==> EventsRun(info, st) == (Failed(NullReferenceException, st), info.members)
    ensures info.interfaces.ArrayOf? ==>
      var changed := Generate.HasInterface(info.interfaces, ChangedFQN) == Ok(true);
      var changing := Generate.HasInterface(info.interfaces, ChangingFQN) == Ok(true);
      var newChanged := changed && !Generate.ContainsEqual(info.members, ChangedEvent);
      var ms := if newChanged then info.members + [ChangedEvent] else info.members;
      var newChanging := changing && !Generate.ContainsEqual(ms, ChangingEvent);
      EventsRun(info, st).0 ==
        Emit.RunEmission(Emit.Plain((if newChanged then [ChangedBlock] else []) + (if newChanging then [ChangingBlock] else [])), st) &&
      (EventsRun(info, st).0.Done? ==> EventsRun(info, st).1 == if newChanging then ms + [ChangingEvent] else ms)
  {
    if info.interfaces.ArrayOf? {
      var one := EventStep(info.interfaces, info.members, ChangedFQN, ChangedEvent, ChangedBlock);
      EventStepOn(info.interfaces, info.members, ChangedFQN, ChangedEvent, ChangedBlock);
      var two := EventStep(info.interfaces, one.members, ChangingFQN, ChangingEvent, ChangingBlock);
      EventStepOn(info.interfaces, one.members, ChangingFQN, ChangingEvent, ChangingBlock);
      RunInTurn(one.emission.calls, two.emission.calls, st);
    }
  }

  /** `WriteEvents` run a second time, on the set and the builder the first run left, adds and writes
    * nothing. */
  lemma EventsWrittenOnce(info: Generate.Info, st: St)
    requires EventsRun(info, st).0.Done?
    ensures var r := EventsRun(info, st);
      EventsRun(info.(members := r.1), r.0.st) == (Done(r.0.st), r.1)
  {
    EventsWritten(info, st);
    var ms := info.members;
    var ms1 := Generate.Insert(ms, ChangedEvent).1;
    var changed := Generate.HasInterface(info.interfaces, ChangedFQN) == Ok(true);
    var changing := Generate.HasInterface(info.interfaces, ChangingFQN) == Ok(true);
    var after := EventsRun(info, st).1;
    if changed {
      Generate.InsertContains(ms, ChangedEvent, ChangedEvent);
      if changing {
        Generate.InsertContains(ms1, ChangingEvent, ChangedEvent);
        Generate.InsertContains(ms1, ChangingEvent, ChangingEvent);
        assert after == Generate.Insert(ms1, ChangingEvent).1;
      }
    } else if changing {
      Generate.InsertContains(ms, ChangingEvent, ChangingEvent);
    }
    EventsWritten(info.(members := after), EventsRun(info, st).0.st);
  }

  /** The access of the generated helpers: `private` in a sealed implementation, else `protected`. */
  function HelperAccess(keywords: Bits): (r: string)
    ensures r == "private" <==> HasFlag(keywords, Sealed)
    ensures r == "protected" <==> !HasFlag(keywords, Sealed)
  {
    if HasFlag(keywords, Sealed) then "private" else "protected"
  }

  const OnChangingLines: seq<string> := [
    "{0} void OnPropertyChanging([CallerMemberName] string? propertyName = null)",
    "{{",
    "    if (propertyName is not null)",
    "    {{",
    "        this.PropertyChanging?.Invoke(this, new PropertyChangingEventArgs(propertyName));",
    "    }}",
    "}}"]

  const OnChangedLines: seq<string> := [
    "{0} void OnPropertyChanged([CallerMemberName] string? propertyName = null)",
    "{{",
    "    if (propertyName is not null)",
    "    {{",
    "        this.PropertyChanged?.Invoke(this, new PropertyChangedEventArgs(propertyName));",
    "    }}",
    "}}"]

  const SetFieldLines: seq<string> := [
    "{0} bool SetField<T>(ref T field, T newValue, bool force = false, [CallerMemberName] string? propertyName = null)",
    "{{",
    "    if (force || !EqualityComparer<T>.Default.Equals(field, newValue))",
    "    {{",
    "        {1}",
    "        field = newValue;",
    "        {2}",
    "    }}",
    "}}"]

  /** The formats of the three helper blocks (literal braces doubled, `{0}` the access). */
  const OnChangingFormat: string := Generate.RawText(OnChangingLines)
  const OnChangedFormat: string := Generate.RawText(OnChangedLines)
  const SetFieldFormat: string := Generate.RawText(SetFieldLines)

  /** The hooks `SetField` runs before and after the assignment. */
  const ChangingHook: string := "this.OnPropertyChanging(propertyName);"
  const ChangedHook: string := "this.OnPropertyChanged(propertyName);"

  /** The calls of `WriteMethods` once the interfaces are known. */
  function MethodCalls(access: string, isChanging: bool, isChanged: bool): Body
  {
    HelperCalls(OnChangingFormat, OnChangedFormat, SetFieldFormat, ChangingHook, ChangedHook, access, isChanging, isChanged)
  }

  /** The two optional helper blocks, then the `SetField` block whose hooks are present iff the
    * corresponding helper is. */
  function HelperCalls(changingFormat: string, changedFormat: string, setFieldFormat: string,
    changingHook: string, changedHook: string, access: string, isChanging: bool, isChanged: bool): Body
  {
    (if isChanging then [CodeBlock(changingFormat, [Str(access)])] else []) +
    (if isChanged then [CodeBlock(changedFormat, [Str(access)])] else []) +
    [CodeBlock(setFieldFormat, [Str(access),
       Str(if isChanging then changingHook else ""),
       Str(if isChanged then changedHook else "")])]
  }

  /** `WriteMethods`: `OnPropertyChanging` and `OnPropertyChanged` for the interfaces implemented, then
    * `SetField`, which calls the helpers written. */
  function MethodsEmission(info: Generate.Info): Emit.Emission
  {
    match Generate.HasInterface(info.interfaces, ChangingFQN)
    case Err(e) => Emit.Emission([], Some(e))
    case Ok(isChanging) =>
      var isChanged := Generate.HasInterface(info.interfaces, ChangedFQN) == Ok(true);
      Emit.Plain(MethodCalls(HelperAccess(info.memberKeywords), isChanging, isChanged))
  }

  /** `OnPropertyChanging` is written first iff `INotifyPropertyChanging` is implemented, then
    * `OnPropertyChanged` iff `INotifyPropertyChanged` is, and `SetField` always comes last, invoking
    * exactly the helpers written; nothing else is written. */
  lemma MethodsWritten(info: Generate.Info)
    requires info.interfaces.ArrayOf?
    ensures var isChanging := Generate.HasInterface(info.interfaces, ChangingFQN) == Ok(true);
      var isChanged := Generate.HasInterface(info.interfaces, ChangedFQN) == Ok(true);
      MethodsEmission(info).thrown.None? &&
      MethodsShaped(MethodsEmission(info).calls, HelperAccess(info.memberKeywords), isChanging, isChanged)
  {
    var isChanging := Generate.HasInterface(info.interfaces, ChangingFQN) == Ok(true);
    var isChanged := Generate.HasInterface(info.interfaces, ChangedFQN) == Ok(true);
    MethodCallsShaped(HelperAccess(info.memberKeywords), isChanging, isChanged);
  }

  /** The shape `WriteMethods` promises: the `OnPropertyChanging` helper first iff `isChanging`,
    * the `OnPropertyChanged` helper next iff `isChanged`, and `SetField` last, whose two hooks
    * invoke exactly the helpers written. */
  ghost predicate MethodsShaped(calls: Body, access: string, isChanging: bool, isChanged: bool)
  {
    HelpersShaped(calls, OnChangingFormat, OnChangedFormat, SetFieldFormat, ChangingHook, ChangedHook,
      access, isChanging, isChanged)
  }

  ghost predicate HelpersShaped(calls: Body, changingFormat: string, changedFormat: string, setFieldFormat: string,
    changingHook: string, changedHook: string, access: string, isChanging: bool, isChanged: bool)
  {
    var n := |calls|;
    n == (if isChanging then 1 else 0) + (if isChanged then 1 else 0) + 1 &&
    (isChanging ==> calls[0] == CodeBlock(changingFormat, [Str(access)])) &&
    (isChanged ==> calls[n - 2] == CodeBlock(changedFormat, [Str(access)])) &&
    calls[n - 1].CodeBlock? && calls[n - 1].blockFormat == setFieldFormat && |calls[n - 1].blockArgs| == 3 &&
    calls[n - 1].blockArgs[0] == Str(access) &&
    (calls[n - 1].blockArgs[1] == Str(changingHook) <==> isChanging) &&
    (calls[n - 1].blockArgs[2] == Str(changedHook) <==> isChanged)
  }

  lemma HelperCallsShaped(changingFormat: string, changedFormat: string, setFieldFormat: string,
    changingHook: string, changedHook: string, access: string, isChanging: bool, isChanged: bool)
    requires changingHook != "" && changedHook != ""
    ensures HelpersShaped(HelperCalls(changingFormat, changedFormat, setFieldFormat, changingHook, changedHook, access, isChanging, isChanged),
      changingFormat, changedFormat, setFieldFormat, changingHook, changedHook, access, isChanging, isChanged)
  {
  }

  lemma MethodCallsShaped(access: string, isChanging: bool, isChanged: bool)
    ensures MethodsShaped(MethodCalls(access, isChanging, isChanged), access, isChanging, isChanged)
  {
    assert |ChangingHook| > 0 && |ChangedHook| > 0;
    HelperCallsShaped(OnChangingFormat, OnChangedFormat, SetFieldFormat, ChangingHook, ChangedHook, access, isChanging, isChanged);
  }

  /** On default interfaces `WriteMethods` throws before writing anything. */
  lemma MethodsOnDefault(info: Generate.Info)
    requires info.interfaces.DefaultArray?
    ensures MethodsEmission(info) == Emit.Emission([], Some(NullReferenceException))
  {
  }

  // ---------------------------------------------------------------- the section actions on a builder

  /** `WriteProperties(codeBuilder, generate)`. */
  method WriteProperties(builder: CodingBuilder.CodeBuilder, generate: Generate.GenerateInfo, env: Generate.Env)
    returns (thrown: Option<Exception>)
    requires builder.Valid()
    modifies builder, builder.chars
    ensures builder.Valid() && (builder.chars == old(builder.chars) || fresh(builder.chars))
    ensures builder.Ending(thrown) == Emit.RunEmission(PropertiesEmission(generate.Snapshot(), env), old(builder.State()))
  {
    thrown := Emit.Perform(PropertiesEmission(generate.Snapshot(), env), builder);
  }

  /** `WriteConstructors(codeBuilder, generate)`: `GetLocals` gives the type name. */
  method WriteConstructors(builder: CodingBuilder.CodeBuilder, generate: Generate.GenerateInfo, env: Generate.Env)
    returns (thrown: Option<Exception>)
    requires builder.Valid()
    modifies builder, builder.chars
    ensures builder.Valid() && (builder.chars == old(builder.chars) || fresh(builder.chars))
    ensures builder.Ending(thrown) == Emit.RunEmission(ConstructorsEmission(generate.Snapshot(), env), old(builder.State()))
  {
    var typeName, varName := generate.GetLocals(env.syntax);
    thrown := Emit.Perform(ConstructorsEmission(generate.Snapshot(), env), builder);
  }

  /** `NotifyPropertyWriter.WriteEvents(code, generate)`: `Members.Add` decides each declaration. */
  method WriteEvents(builder: CodingBuilder.CodeBuilder, generate: Generate.GenerateInfo) returns (thrown: Option<Exception>)
    requires builder.Valid() && generate.Valid()
    modifies builder, builder.chars, generate
    ensures builder.Valid() && generate.Valid() && (builder.chars == old(builder.chars) || fresh(builder.chars))
    ensures var r := EventsRun(old(generate.Snapshot()), old(builder.State()));
      builder.Ending(thrown) == r.0 && generate.Snapshot() == old(generate.Snapshot()).(members := r.1)
  {
    thrown := AddEvent(builder, generate, ChangedFQN, ChangedEvent, ChangedBlock);
    if thrown.Some? {
      return;
    }
    thrown := AddEvent(builder, generate, ChangingFQN, ChangingEvent, ChangingBlock);
  }

  /** One half of `WriteEvents`. */
  method AddEvent(builder: CodingBuilder.CodeBuilder, generate: Generate.GenerateInfo, fqn: string, event: MemberSig, block: Cmd)
    returns (thrown: Option<Exception>)
    requires builder.Valid() && generate.Valid()
    modifies builder, builder.chars, generate
    ensures builder.Valid() && generate.Valid() && (builder.chars == old(builder.chars) || fresh(builder.chars))
    ensures var e := EventStep(old(generate.interfaces), old(generate.members), fqn, event, block);
      builder.Ending(thrown) == Emit.RunEmission(e.emission, old(builder.State())) &&
      generate.Snapshot() == old(generate.Snapshot()).(members := e.members)
  {
    var has := Generate.HasInterface(generate.interfaces, fqn);
    if has.Err? {
      return Some(has.error);
    }
    if !has.value {
      return None;
    }
    var added := generate.Add(event);
    if added.Err? {
      return Some(added.error);
    }
    if added.value {
      thrown := Emit.Perform(Emit.Plain([block]), builder);
    } else {
      thrown := None;
    }
  }

  /** `NotifyPropertyWriter.WriteMethods(code, generate)`. */
  method WriteMethods(builder: CodingBuilder.CodeBuilder, generate: Generate.GenerateInfo) returns (thrown: Option<Exception>)
    requires builder.Valid()
    modifies builder, builder.chars
    ensures builder.Valid() && (builder.chars == old(builder.chars) || fresh(builder.chars))
    ensures builder.Ending(thrown) == Emit.RunEmission(MethodsEmission(generate.Snapshot()), old(builder.State()))
  {
    var keywords := HelperAccess(generate.memberKeywords);
    var isChanging := Generate.HasInterface(generate.interfaces, ChangingFQN);
    if isChanging.Err? {
      return Some(isChanging.error);
    }
    var isChanged := Generate.HasInterface(generate.interfaces, ChangedFQN);
    thrown := Emit.Perform(Emit.Plain(MethodCalls(keywords, isChanging.value, isChanged == Ok(true))), builder);
  }
}
