/** InterfaceGen/InterfaceImplGenerator.cs: for one interface carrying `[Implement]`, the attribute's
  * arguments become the `GenerateInfo` settings, the interface's members become signatures, and
  * `ProcessType` writes one source file: the header, the type declaration with its interface list,
  * and a body in which every writer gets its turn at every section, in a fixed nested order. */
module InterfaceGenerator {
  import opened Wrappers
  import opened Flags
  import opened InterfaceFlags
  import opened Coding
  import Numbers
  import Naming
  import Comparison
  import Attributes
  import Signatures
  import Generate
  import CodingBuilder
  import Sections
  import Emit
  import Strings
  import CharClass

  type NamedType = Generate.NamedType
  type WriterKind = Sections.WriterKind

  // ---------------------------------------------------------------- the attribute's settings

  /** `args.TryGetValue<bool>(name, out var b)`: the boolean, when the argument is present and is one. */
  function BoolArg(args: Attributes.Args, name: string): Option<bool>
  {
    match Attributes.TryGetValueAs(args, Some(name), Attributes.BoolKind)
    case Some(v) => if v.Bool? then Some(v.b) else None
    case None => None
  }

  /** `args.TryGetValue<string>(name, out var s)`. */
  function StringArg(args: Attributes.Args, name: string): Option<string>
  {
    match Attributes.TryGetValueAs(args, Some(name), Attributes.StringKind)
    case Some(v) => if v.Text? then Some(v.s) else None
    case None => None
  }

  /** The implementation's name: the `Name` argument unless it is missing or blank, else the interface's
    * name without its first character (`IPoint` gives `Point`); slicing an empty name throws. */
  function ImplementationName(args: Attributes.Args, interfaceName: string): (r: Result<string, Exception>)
    ensures var named := StringArg(args, "Name");
      (r.Err? <==> Generate.IsNullOrWhiteSpace(named) && |interfaceName| == 0) &&
      (r.Err? ==> r.error == ArgumentOutOfRangeException) &&
      (!Generate.IsNullOrWhiteSpace(named) ==> r == Ok(named.value)) &&
      (r.Ok? && Generate.IsNullOrWhiteSpace(named) ==> interfaceName == [interfaceName[0]] + r.value)
  {
    var named := StringArg(args, "Name");
    if !Generate.IsNullOrWhiteSpace(named) then Ok(named.value)
    else if |interfaceName| == 0 then Err(ArgumentOutOfRangeException)
    else Ok(interfaceName[1..])
  }

  /** `ObjType`: `Struct` exactly when `IsClass` is given as false; `Class` when it is true or absent. */
  function ObjTypeOf(args: Attributes.Args): (r: Bits)
    ensures r == Class || r == Struct
    ensures r == Struct <==> BoolArg(args, "IsClass") == Some(false)
  {
    match BoolArg(args, "IsClass")
    case Some(isClass) => if isClass then Class else Struct
    case None => Class
  }

  /** One `if (TryGetValue<bool>(…)) { if (b) keywords |= flag; else keywords &= ~flag; }`. */
  function Toggle(keywords: Bits, setting: Option<bool>, flag: Bits): Bits
  {
    match setting
    case Some(on) => if on then keywords + flag else keywords - flag
    case None => keywords
  }

  /** `MemberKeywords`, from the default `Sealed`: `Partial` and `Abstract` exactly when asked for,
    * `Sealed` unless `IsSealed` is false, and nothing else (nothing stops `abstract sealed`). */
  function KeywordsOf(args: Attributes.Args): (r: Bits)
    ensures HasFlag(r, Partial) <==> BoolArg(args, "IsPartial") == Some(true)
    ensures HasFlag(r, Abstract) <==> BoolArg(args, "IsAbstract") == Some(true)
    ensures HasFlag(r, Sealed) <==> BoolArg(args, "IsSealed") != Some(false)
    ensures r <= Abstract + Sealed + Partial
  {
    var k1 := Toggle(Sealed, BoolArg(args, "IsPartial"), Partial);
    var k2 := Toggle(k1, BoolArg(args, "IsAbstract"), Abstract);
    Toggle(k2, BoolArg(args, "IsSealed"), Sealed)
  }

  /** The `GenerateInfo` the settings produce, before the interfaces and members are filled in. */
  function Settings(symbol: NamedType, name: string, args: Attributes.Args): Generate.Info
  {
    Generate.Info(symbol, name, Public, ObjTypeOf(args), KeywordsOf(args), Comparison.DefaultArray, [])
  }

  /** The settings part of `Process`: the implementation name, then a new `GenerateInfo` whose object
    * type and keywords the boolean arguments adjust. */
  method Configure(symbol: NamedType, args: Attributes.Args) returns (r: Result<Generate.GenerateInfo, Exception>)
    ensures var name := ImplementationName(args, symbol.name);
      (r.Err? <==> name.Err?) && (r.Err? ==> r.error == name.error) &&
      (r.Ok? ==> fresh(r.value) && r.value.Valid() && r.value.Snapshot() == Settings(symbol, name.value, args))
  {
    var name := ImplementationName(args, symbol.name);
    if name.Err? {
      return Err(name.error);
    }
    var info := new Generate.GenerateInfo(symbol, name.value);
    var isClass := BoolArg(args, "IsClass");
    if isClass.Some? {
      info.objType := if isClass.value then Class else Struct;
    }
    var isPartial := BoolArg(args, "IsPartial");
    if isPartial.Some? {
      if isPartial.value {
        info.memberKeywords := info.memberKeywords + Partial;
      } else {
        info.memberKeywords := info.memberKeywords - Partial;
      }
    }
    var isAbstract := BoolArg(args, "IsAbstract");
    if isAbstract.Some? {
      if isAbstract.value {
        info.memberKeywords := info.memberKeywords + Abstract;
      } else {
        info.memberKeywords := info.memberKeywords - Abstract;
      }
    }
    var isSealed := BoolArg(args, "IsSealed");
    if isSealed.Some? {
      if isSealed.value {
        info.memberKeywords := info.memberKeywords + Sealed;
      } else {
        info.memberKeywords := info.memberKeywords - Sealed;
      }
    }
    return Ok(info);
  }

  // ---------------------------------------------------------------- the members

  /** `foreach (member in typeSymbol.GetMembers()) Members.Add(MemberSig.FromSymbol(member))`: a field,
    * event or other member throws from `FromSymbol`, a duplicate is dropped. */
  function AddMembers(members: seq<Signatures.MemberSig>, symbols: seq<Signatures.Symbol>): (r: Result<seq<Signatures.MemberSig>, Exception>)
    decreases |symbols|
  {
    if |symbols| == 0 then Ok(members)
    else
      match Signatures.FromSymbol(symbols[0])
      case Err(e) => Err(e)
      case Ok(sig) =>
        var added := Generate.Insert(members, sig);
        if added.0.Err? then Err(added.0.error) else AddMembers(added.1, symbols[1..])
  }

  /** Every kept signature comes from a member, and a member that is neither a property nor a method
    * makes the whole interface fail. */
  lemma {:induction false} AddMembersMeaning(members: seq<Signatures.MemberSig>, symbols: seq<Signatures.Symbol>)
    requires Generate.Distinct(members) && Generate.Hashable(members)
    decreases |symbols|
    ensures var r := AddMembers(members, symbols);
      ((exists i :: 0 <= i < |symbols| && Signatures.FromSymbol(symbols[i]).Err?) ==> r.Err?) &&
      (r.Ok? ==>
        Generate.Distinct(r.value) && Generate.Hashable(r.value) && |members| <= |r.value| <= |members| + |symbols| &&
        r.value[..|members|] == members)
  {
    if |symbols| > 0 {
      var first := Signatures.FromSymbol(symbols[0]);
      if first.Ok? {
        Generate.InsertKeepsSet(members, first.value);
        var added := Generate.Insert(members, first.value);
        if added.0.Ok? {
          AddMembersMeaning(added.1, symbols[1..]);
          if exists i :: 0 <= i < |symbols| && Signatures.FromSymbol(symbols[i]).Err? {
            var i :| 0 <= i < |symbols| && Signatures.FromSymbol(symbols[i]).Err?;
            assert i != 0;
            assert symbols[1..][i - 1] == symbols[i];
          }
          var r := AddMembers(added.1, symbols[1..]);
          if r.Ok? {
            assert r.value[..|members|] == r.value[..|added.1|][..|members|];
          }
        }
      }
    }
  }

  // ---------------------------------------------------------------- the writers

  /** The writers `GetWriter` resolves for the interfaces, in order; an interface no writer can
    * implement throws InvalidOperationException. */
  function ResolveWriters(interfaces: seq<NamedType>): (r: Result<seq<WriterKind>, Exception>)
    decreases |interfaces|
  {
    if |interfaces| == 0 then Ok([])
    else
      match ResolveWriters(interfaces[..|interfaces| - 1])
      case Err(e) => Err(e)
      case Ok(ws) =>
        match Sections.FirstWriter(Sections.Writers, interfaces[|interfaces| - 1])
        case None => Err(InvalidOperationException)
        case Some(w) => Ok(ws + [w])
  }

  /** Resolution fails exactly when some interface has no writer, and otherwise gives each interface
    * its own first writer. */
  lemma {:induction false} ResolveWritersMeaning(interfaces: seq<NamedType>)
    decreases |interfaces|
    ensures var r := ResolveWriters(interfaces);
      (r.Err? <==> exists j :: 0 <= j < |interfaces| && Sections.FirstWriter(Sections.Writers, interfaces[j]).None?) &&
      (r.Err? ==> r.error == InvalidOperationException) &&
      (r.Ok? ==>
        |r.value| == |interfaces| &&
        forall j :: 0 <= j < |interfaces| ==> Sections.FirstWriter(Sections.Writers, interfaces[j]) == Some(r.value[j]))
  {
    if |interfaces| > 0 {
      var init := interfaces[..|interfaces| - 1];
      ResolveWritersMeaning(init);
      assert forall j :: 0 <= j < |init| ==> init[j] == interfaces[j];
    }
  }

  /** `implWriters`: the property writer, the resolved writers, and the `ToString` writer last. */
  function WriterList(interfaces: Comparison.ImmutableArray<NamedType>): (r: Result<seq<WriterKind>, Exception>)
  {
    if interfaces.IsDefaultOrEmpty() then Ok([Sections.PropertyKind, Sections.ToStringKind])
    else
      match ResolveWriters(interfaces.items)
      case Err(e) => Err(e)
      case Ok(ws) => Ok([Sections.PropertyKind] + ws + [Sections.ToStringKind])
  }

  /** The list always starts with the property writer and ends with the `ToString` writer, with one
    * writer per interface between them. */
  lemma WriterListShape(interfaces: Comparison.ImmutableArray<NamedType>)
    ensures var r := WriterList(interfaces);
      var n := if interfaces.IsDefaultOrEmpty() then 0 else |interfaces.items|;
      (r.Err? <==> exists j :: 0 <= j < n && Sections.FirstWriter(Sections.Writers, interfaces.items[j]).None?) &&
      (r.Ok? ==>
        |r.value| == n + 2 && r.value[0] == Sections.PropertyKind && r.value[n + 1] == Sections.ToStringKind &&
        forall j :: 0 <= j < n ==> Sections.FirstWriter(Sections.Writers, interfaces.items[j]) == Some(r.value[j + 1]))
  {
    if !interfaces.IsDefaultOrEmpty() {
      ResolveWritersMeaning(interfaces.items);
    }
  }

  // ---------------------------------------------------------------- the section walk

  /** The three loop orders of the type block. */
  const InsticOrder: seq<Bits> := [Static, Instance]
  const MemberTypeOrder: seq<Bits> := [Operator, Field, Property, Event, Constructor, Method]
  const VisibilityOrder: seq<Bits> := [Private, Protected, Internal, Public]

  /** What the walk works with: the writers, the generate info and the host's texts. */
  datatype Job = Job(writers: seq<WriterKind>, info: Generate.Info, env: Generate.Env)

  /** Where the walk is: its outcome so far and the naming counter. */
  datatype Walk = Walk(outcome: Outcome, counter: Numbers.Int32)

  /** `NewLines(2)` after a section that was written. */
  function AfterSection(o: Outcome): Outcome
  {
    match o
    case Failed(_, _) => o
    case Done(s) => Done(PutNewLines(s, 2))
  }

  /** One writer's turn at one section: its action if it registered one, then two NewLines. */
  function Turn(kind: WriterKind, key: Sections.Key, job: Job, st: St, counter: Numbers.Int32): Walk
  {
    var actions := Sections.Registry(Sections.Registrations(kind));
    if key !in actions then Walk(Done(st), counter)
    else
      var s := Sections.ActionStep(actions[key], job.info, job.env, counter);
      Walk(AfterSection(Emit.RunEmission(s.emission, st)), s.counter)
  }

  /** `foreach (implWriter in implWriters)`, stopping at the first exception. */
  function WriterTurns(ws: seq<WriterKind>, key: Sections.Key, job: Job, st: St, counter: Numbers.Int32): Walk
    decreases |ws|
  {
    if |ws| == 0 then Walk(Done(st), counter)
    else
      var w := Turn(ws[0], key, job, st, counter);
      if w.outcome.Failed? then w else WriterTurns(ws[1..], key, job, w.outcome.st, w.counter)
  }

  /** One turn of the writer loop. */
  lemma WriterTurnsStep(ws: seq<WriterKind>, k: nat, key: Sections.Key, job: Job, st: St, counter: Numbers.Int32)
    requires k < |ws|
    ensures WriterTurns(ws[k..], key, job, st, counter) ==
      var w := Turn(ws[k], key, job, st, counter);
      if w.outcome.Failed? then w else WriterTurns(ws[k + 1..], key, job, w.outcome.st, w.counter)
  {
    assert ws[k..][1..] == ws[k + 1..];
  }

  /** `foreach (visibility in …)`. */
  function VisibilityTurns(vs: seq<Bits>, instic: Bits, memberType: Bits, job: Job, st: St, counter: Numbers.Int32): Walk
    decreases |vs|
  {
    if |vs| == 0 then Walk(Done(st), counter)
    else
      var w := WriterTurns(job.writers, Sections.Key(instic, vs[0], memberType), job, st, counter);
      if w.outcome.Failed? then w else VisibilityTurns(vs[1..], instic, memberType, job, w.outcome.st, w.counter)
  }

  /** `foreach (memberType in …)`. */
  function MemberTypeTurns(mts: seq<Bits>, instic: Bits, job: Job, st: St, counter: Numbers.Int32): Walk
    decreases |mts|
  {
    if |mts| == 0 then Walk(Done(st), counter)
    else
      var w := VisibilityTurns(VisibilityOrder, instic, mts[0], job, st, counter);
      if w.outcome.Failed? then w else MemberTypeTurns(mts[1..], instic, job, w.outcome.st, w.counter)
  }

  /** `foreach (instic in …)`. */
  function InsticTurns(ins: seq<Bits>, job: Job, st: St, counter: Numbers.Int32): Walk
    decreases |ins|
  {
    if |ins| == 0 then Walk(Done(st), counter)
    else
      var w := MemberTypeTurns(MemberTypeOrder, ins[0], job, st, counter);
      if w.outcome.Failed? then w else InsticTurns(ins[1..], job, w.outcome.st, w.counter)
  }

  /** The type block: `BracketBlock` around the walk. */
  function TypeBlock(job: Job, st: St, counter: Numbers.Int32): Walk
  {
    var s := OpenBracket(st);
    var w := InsticTurns(InsticOrder, job, EnterIndent(s, DefaultIndent), counter);
    Walk(CloseBracket(LeaveIndent(w.outcome, s.indent, s.indent + DefaultIndent)), w.counter)
  }

  // ---------------------------------------------------------------- the file

  /** `ObjType.ToString().ToLower()` for the two values the settings assign. */
  function ObjTypeText(objType: Bits): string
  {
    if objType == Struct then "struct" else "class"
  }

  /** The interfaces after the main one: `AppendLine(',')` and then each interface, delimited by
    * `AppendLine(',')`; nothing when there are none. */
  function InterfaceListCalls(info: Generate.Info): (r: Body)
    ensures info.interfaces.IsDefaultOrEmpty() ==> |r| == 1
  {
    var main := [Value(Other(Some(info.interfaceType.display)), None)];
    if info.interfaces.IsDefaultOrEmpty() then main
    else
      var items := info.interfaces.items;
      main + [AppendLine(","), Delimit([AppendLine(",")],
        seq(|items|, i requires 0 <= i < |items| => Applied([Value(Other(Some(items[i].display)), None)])))]
  }

  const AutoGeneratedLine: string := "// <auto-generated/>"

  /** Everything before the type block: `AutoGeneratedHeader()`, `Nullable(true)`, a NewLine, the
    * file-scoped namespace, the visibility and keyword tokens, the object type and the name, and the
    * interface list in an indented block. */
  function DeclarationCalls(info: Generate.Info): Body
  {
    [AppendLine(AutoGeneratedLine), Append("#nullable "), Append("enable"), NewLine,
     NewLine,
     Namespace(Some(info.interfaceType.containingNamespace)),
     Enumerate(KeywordBodies(GetFlags(VisibilityEnum, info.visibility))),
     Enumerate(KeywordBodies(GetFlags(MemberKeywordsEnum, info.memberKeywords))),
     Append(ObjTypeText(info.objType)), Append(" "), Append(info.implementationTypeName),
     AppendLine(" : "),
     IndentBlock(DefaultIndent, InterfaceListCalls(info))]
  }

  /** A generated source file: its hint name and its text. */
  datatype SourceCode = SourceCode(fileName: string, code: string)

  /** `ProcessType(generateInfo)`: the writer list, a builder taking the declaration and then the
    * type block, a final `TrimEnd()`, and the hint name `<FQN>.g.cs`; with the naming counter after. */
  function ProcessTypeSpec(info: Generate.Info, env: Generate.Env, counter: Numbers.Int32): (Result<SourceCode, Exception>, Numbers.Int32)
  {
    match WriterList(info.interfaces)
    case Err(e) => (Err(e), counter)
    case Ok(ws) => FileSpec(ws, info, env, counter)
  }

  /** The builder part of `ProcessType`, once the writers are known. */
  function FileSpec(ws: seq<WriterKind>, info: Generate.Info, env: Generate.Env, counter: Numbers.Int32): (Result<SourceCode, Exception>, Numbers.Int32)
  {
    match ExecBody(DeclarationCalls(info), St("", DefaultNewLine))
    case Failed(e, _) => (Err(e), counter)
    case Done(head) =>
      var w := TypeBlock(Job(ws, info, env), head, counter);
      match w.outcome
      case Failed(e, _) => (Err(e), w.counter)
      case Done(s) => (Ok(SourceCode(info.interfaceType.fqn + ".g.cs", TrimEndText(s).written)), w.counter)
  }

  /** The generated file is named after the interface's FQN and ends with the closing brace of the
    * type: the final `TrimEnd` never reaches into the block. */
  lemma GeneratedFileShape(info: Generate.Info, env: Generate.Env, counter: Numbers.Int32)
    ensures var file := ProcessTypeSpec(info, env, counter).0;
      file.Ok? ==> file.value.fileName == info.interfaceType.fqn + ".g.cs" && WellShaped(file.value)
  {
    if ProcessTypeSpec(info, env, counter).0.Ok? {
      var ws := WriterList(info.interfaces).value;
      var head := ExecBody(DeclarationCalls(info), St("", DefaultNewLine)).st;
      var w := TypeBlock(Job(ws, info, env), head, counter);
      var s := OpenBracket(head);
      var inner := LeaveIndent(InsticTurns(InsticOrder, Job(ws, info, env), EnterIndent(s, DefaultIndent), counter).outcome,
        s.indent, s.indent + DefaultIndent);
      var closed := Put(EnsureNewLine(inner.st), "}");
      assert w.outcome == Done(closed);
      var text := closed.written;
      assert text[|text| - 1] == '}';
      Strings.TrimEndAt(text, CharClass.IsWhiteSpace, |text|);
      FileNameEnds(info.interfaceType.fqn);
    }
  }

  // ---------------------------------------------------------------- the driver

  /** The writer objects stand for `kinds`, one each, each holding the dictionary its constructor built. */
  predicate Ready(writers: seq<Sections.SectionWriter>, kinds: seq<WriterKind>)
    reads writers
  {
    |writers| == |kinds| &&
    forall j :: 0 <= j < |writers| ==> writers[j].actions == Sections.Registry(Sections.Registrations(kinds[j]))
  }

  /** The innermost loop: every writer's `WriteImplementationSection` at one key, `NewLines(2)` after
    * each one that wrote. */
  method WriteSection(key: Sections.Key, writers: seq<Sections.SectionWriter>, job: Job,
    builder: CodingBuilder.CodeBuilder, generate: Generate.GenerateInfo, naming: Naming.VariableNaming)
    returns (thrown: Option<Exception>)
    requires Ready(writers, job.writers) && generate.Snapshot() == job.info
    requires builder.Valid() && naming.syntax == job.env.syntax
    modifies builder, builder.chars, naming
    ensures builder.Valid() && (builder.chars == old(builder.chars) || fresh(builder.chars))
    ensures Walk(builder.Ending(thrown), naming.counter) ==
      WriterTurns(job.writers, key, job, old(builder.State()), old(naming.counter))
  {
    var k := 0;
    while k < |writers|
      invariant 0 <= k <= |writers|
      invariant builder.Valid() && (builder.chars == old(builder.chars) || fresh(builder.chars))
      invariant WriterTurns(job.writers, key, job, old(builder.State()), old(naming.counter)) ==
        WriterTurns(job.writers[k..], key, job, builder.State(), naming.counter)
    {
      WriterTurnsStep(job.writers, k, key, job, builder.State(), naming.counter);
      var t := WriteTurn(key, writers[k], job.writers[k], job, builder, generate, naming);
      if t.Some? {
        return t;
      }
      k := k + 1;
    }
    return None;
  }

  /** The body of the innermost loop: one writer's `WriteImplementationSection`, then `NewLines(2)`
    * if it wrote. */
  method WriteTurn(key: Sections.Key, writer: Sections.SectionWriter, kind: WriterKind, job: Job,
    builder: CodingBuilder.CodeBuilder, generate: Generate.GenerateInfo, naming: Naming.VariableNaming)
    returns (thrown: Option<Exception>)
    requires writer.actions == Sections.Registry(Sections.Registrations(kind)) && generate.Snapshot() == job.info
    requires builder.Valid() && naming.syntax == job.env.syntax
    modifies builder, builder.chars, naming
    ensures builder.Valid() && (builder.chars == old(builder.chars) || fresh(builder.chars))
    ensures Walk(builder.Ending(thrown), naming.counter) == Turn(kind, key, job, old(builder.State()), old(naming.counter))
  {
    var written;
    written, thrown := writer.WriteImplementationSection(key.instic, key.visibility, key.memberType,
      builder, generate, job.env, naming);
    if thrown.None? && written {
      builder.NewLines(2);
    }
  }

  /** `foreach (visibility in new[] { Private, Protected, Internal, Public })`. */
  method WriteVisibilities(instic: Bits, memberType: Bits, writers: seq<Sections.SectionWriter>, job: Job,
    builder: CodingBuilder.CodeBuilder, generate: Generate.GenerateInfo, naming: Naming.VariableNaming)
    returns (thrown: Option<Exception>)
    requires Ready(writers, job.writers) && generate.Snapshot() == job.info
    requires builder.Valid() && naming.syntax == job.env.syntax
    modifies builder, builder.chars, naming
    ensures builder.Valid() && (builder.chars == old(builder.chars) || fresh(builder.chars))
    ensures Walk(builder.Ending(thrown), naming.counter) ==
      VisibilityTurns(VisibilityOrder, instic, memberType, job, old(builder.State()), old(naming.counter))
  {
    var vs := VisibilityOrder;
    var k := 0;
    while k < |vs|
      invariant 0 <= k <= |vs|
      invariant builder.Valid() && (builder.chars == old(builder.chars) || fresh(builder.chars))
      invariant VisibilityTurns(vs, instic, memberType, job, old(builder.State()), old(naming.counter)) ==
        VisibilityTurns(vs[k..], instic, memberType, job, builder.State(), naming.counter)
    {
      thrown := WriteSection(Sections.Key(instic, vs[k], memberType), writers, job, builder, generate, naming);
      if thrown.Some? {
        return;
      }
      assert vs[k..][1..] == vs[k + 1..];
      k := k + 1;
    }
    return None;
  }

  /** `foreach (memberType in new[] { Operator, Field, Property, Event, Constructor, Method })`. */
  method WriteMemberTypes(instic: Bits, writers: seq<Sections.SectionWriter>, job: Job,
    builder: CodingBuilder.CodeBuilder, generate: Generate.GenerateInfo, naming: Naming.VariableNaming)
    returns (thrown: Option<Exception>)
    requires Ready(writers, job.writers) && generate.Snapshot() == job.info
    requires builder.Valid() && naming.syntax == job.env.syntax
    modifies builder, builder.chars, naming
    ensures builder.Valid() && (builder.chars == old(builder.chars) || fresh(builder.chars))
    ensures Walk(builder.Ending(thrown), naming.counter) ==
      MemberTypeTurns(MemberTypeOrder, instic, job, old(builder.State()), old(naming.counter))
  {
    var mts := MemberTypeOrder;
    var k := 0;
    while k < |mts|
      invariant 0 <= k <= |mts|
      invariant builder.Valid() && (builder.chars == old(builder.chars) || fresh(builder.chars))
      invariant MemberTypeTurns(mts, instic, job, old(builder.State()), old(naming.counter)) ==
        MemberTypeTurns(mts[k..], instic, job, builder.State(), naming.counter)
    {
      thrown := WriteVisibilities(instic, mts[k], writers, job, builder, generate, naming);
      if thrown.Some? {
        return;
      }
      assert mts[k..][1..] == mts[k + 1..];
      k := k + 1;
    }
    return None;
  }

  /** `foreach (instic in new[] { Static, Instance })`. */
  method WriteInstics(writers: seq<Sections.SectionWriter>, job: Job,
    builder: CodingBuilder.CodeBuilder, generate: Generate.GenerateInfo, naming: Naming.VariableNaming)
    returns (thrown: Option<Exception>)
    requires Ready(writers, job.writers) && generate.Snapshot() == job.info
    requires builder.Valid() && naming.syntax == job.env.syntax
    modifies builder, builder.chars, naming
    ensures builder.Valid() && (builder.chars == old(builder.chars) || fresh(builder.chars))
    ensures Walk(builder.Ending(thrown), naming.counter) ==
      InsticTurns(InsticOrder, job, old(builder.State()), old(naming.counter))
  {
    var ins := InsticOrder;
    var k := 0;
    while k < |ins|
      invariant 0 <= k <= |ins|
      invariant builder.Valid() && (builder.chars == old(builder.chars) || fresh(builder.chars))
      invariant InsticTurns(ins, job, old(builder.State()), old(naming.counter)) ==
        InsticTurns(ins[k..], job, builder.State(), naming.counter)
    {
      thrown := WriteMemberTypes(ins[k], writers, job, builder, generate, naming);
      if thrown.Some? {
        return;
      }
      assert ins[k..][1..] == ins[k + 1..];
      k := k + 1;
    }
    return None;
  }

  /** `BracketBlock(typeBlock => …)`: the bracket opens, the walk runs one indent deeper, the bracket
    * closes. */
  method WriteTypeBlock(writers: seq<Sections.SectionWriter>, job: Job,
    builder: CodingBuilder.CodeBuilder, generate: Generate.GenerateInfo, naming: Naming.VariableNaming)
    returns (thrown: Option<Exception>)
    requires Ready(writers, job.writers) && generate.Snapshot() == job.info
    requires builder.Valid() && naming.syntax == job.env.syntax
    modifies builder, builder.chars, naming
    ensures builder.Valid() && (builder.chars == old(builder.chars) || fresh(builder.chars))
    ensures Walk(builder.Ending(thrown), naming.counter) == TypeBlock(job, old(builder.State()), old(naming.counter))
  {
    ghost var s := OpenBracket(builder.State());
    var oldIndent := builder.newLineIndent;
    builder.OpenBracketBlock(DefaultIndent);
    thrown := WriteInstics(writers, job, builder, generate, naming);
    ghost var w := Walk(builder.Ending(thrown), naming.counter);
    assert w == InsticTurns(InsticOrder, job, EnterIndent(s, DefaultIndent), old(naming.counter));
    if thrown.Some? {
      return;
    }
    builder.CloseBracketBlock(oldIndent, DefaultIndent);
  }

  // ---------------------------------------------------------------- ProcessType and Process

  /** The writer list of `ProcessType`: `GetWriter` for each interface, throwing
    * InvalidOperationException at the first one no writer can handle. */
  method ResolveWriterList(interfaces: Comparison.ImmutableArray<NamedType>) returns (r: Result<seq<WriterKind>, Exception>)
    ensures r == WriterList(interfaces)
  {
    if interfaces.IsDefaultOrEmpty() {
      return Ok([Sections.PropertyKind, Sections.ToStringKind]);
    }
    var items := interfaces.items;
    var ws: seq<WriterKind> := [];
    var k := 0;
    while k < |items|
      invariant 0 <= k <= |items|
      invariant ResolveWriters(items[..k]) == Ok(ws)
    {
      var w := Sections.GetWriter(items[k]);
      assert items[..k + 1][..k] == items[..k];
      if w.None? {
        ResolveWritersMeaning(items);
        return Err(InvalidOperationException);
      }
      ws := ws + [w.value];
      k := k + 1;
    }
    assert items[..k] == items;
    return Ok([Sections.PropertyKind] + ws + [Sections.ToStringKind]);
  }

  /** `new PropertyWriter()`, the resolved writers and `new ToStringImplWriter()`: one writer object
    * per kind. */
  method NewWriters(kinds: seq<WriterKind>) returns (writers: seq<Sections.SectionWriter>)
    ensures Ready(writers, kinds)
  {
    writers := [];
    var k := 0;
    while k < |kinds|
      invariant 0 <= k <= |kinds|
      invariant Ready(writers, kinds[..k])
    {
      var w := new Sections.SectionWriter(kinds[k]);
      writers := writers + [w];
      k := k + 1;
    }
    assert kinds[..k] == kinds;
  }

  /** `ProcessType(generateInfo)`: the writers, then a new builder that takes the declaration, the type
    * block and a `TrimEnd()`; the file is named after the interface's FQN. */
  method ProcessType(generate: Generate.GenerateInfo, env: Generate.Env, naming: Naming.VariableNaming)
    returns (r: Result<SourceCode, Exception>)
    requires naming.syntax == env.syntax
    modifies naming
    ensures (r, naming.counter) == ProcessTypeSpec(generate.Snapshot(), env, old(naming.counter))
  {
    var kinds := ResolveWriterList(generate.interfaces);
    if kinds.Err? {
      return Err(kinds.error);
    }
    var writers := NewWriters(kinds.value);
    r := WriteFile(writers, kinds.value, generate, env, naming);
  }

  /** The builder of `ProcessType`: `new CodeBuilder()`, the declaration, the type block, `TrimEnd()`
    * and `ToString()`. */
  method WriteFile(writers: seq<Sections.SectionWriter>, kinds: seq<WriterKind>, generate: Generate.GenerateInfo,
    env: Generate.Env, naming: Naming.VariableNaming) returns (r: Result<SourceCode, Exception>)
    requires Ready(writers, kinds) && naming.syntax == env.syntax
    modifies naming
    ensures (r, naming.counter) == FileSpec(kinds, generate.Snapshot(), env, old(naming.counter))
  {
    var builder := new CodingBuilder.CodeBuilder(1024);
    var thrown := builder.RunBody(DeclarationCalls(generate.Snapshot()));
    if thrown.Some? {
      return Err(thrown.value);
    }
    ghost var head := builder.State();
    thrown := WriteTypeBlock(writers, Job(kinds, generate.Snapshot(), env), builder, generate, naming);
    ghost var w := TypeBlock(Job(kinds, generate.Snapshot(), env), head, old(naming.counter));
    assert w.outcome == builder.Ending(thrown) && w.counter == naming.counter;
    if thrown.Some? {
      return Err(thrown.value);
    }
    builder.TrimEnd();
    var code := builder.ToString();
    return Ok(SourceCode(generate.interfaceTypeSymbol.fqn + ".g.cs", code));
  }

  /** `foreach (member in members) Members.Add(MemberSig.FromSymbol(member))` on the generate info. */
  method AddMembersTo(generate: Generate.GenerateInfo, symbols: seq<Signatures.Symbol>) returns (thrown: Option<Exception>)
    requires generate.Valid()
    modifies generate
    ensures generate.Valid()
    ensures generate.visibility == old(generate.visibility) && generate.objType == old(generate.objType)
    ensures generate.memberKeywords == old(generate.memberKeywords) && generate.interfaces == old(generate.interfaces)
    ensures match AddMembers(old(generate.members), symbols)
      case Err(e) => thrown == Some(e)
      case Ok(ms) => thrown.None? && generate.members == ms
  {
    var k := 0;
    while k < |symbols|
      invariant 0 <= k <= |symbols| && generate.Valid()
      invariant generate.visibility == old(generate.visibility) && generate.objType == old(generate.objType)
      invariant generate.memberKeywords == old(generate.memberKeywords) && generate.interfaces == old(generate.interfaces)
      invariant AddMembers(old(generate.members), symbols) == AddMembers(generate.members, symbols[k..])
    {
      assert symbols[k..][1..] == symbols[k + 1..];
      var sig := Signatures.FromSymbol(symbols[k]);
      if sig.Err? {
        return Some(sig.error);
      }
      var added := generate.Add(sig.value);
      if added.Err? {
        return Some(added.error);
      }
      k := k + 1;
    }
    return None;
  }

  /** One interface declaration as `Execute` sees it: its symbol (`GetDeclaredSymbol` may give null),
    * its attributes, `AllInterfaces` and `GetMembers()`. */
  datatype Declaration = Declaration(
    symbol: Option<NamedType>, attributes: seq<Attributes.AttributeData>,
    allInterfaces: Comparison.ImmutableArray<NamedType>, members: seq<Signatures.Symbol>)

  /** The generate info the body of the declaration loop builds, before `ProcessType`. */
  function InfoOf(symbol: NamedType, data: Attributes.AttributeData, d: Declaration): Result<Generate.Info, Exception>
  {
    match Attributes.BuildSpec(data)
    case Err(e) => Err(e)
    case Ok(args) =>
      match ImplementationName(args, symbol.name)
      case Err(e) => Err(e)
      case Ok(name) =>
        match AddMembers([], d.members)
        case Err(e) => Err(e)
        case Ok(ms) => Ok(Settings(symbol, name, args).(interfaces := d.allInterfaces, members := ms))
  }

  /** The generate info of a declaration: none without a symbol or without `[Implement]`. */
  function InfoFor(d: Declaration): Result<Option<Generate.Info>, Exception>
  {
    if d.symbol.None? then Ok(None)
    else
      match Attributes.FirstWithClass(d.attributes, Generate.ImplementAttributeFQN)
      case None => Ok(None)
      case Some(data) =>
        match InfoOf(d.symbol.value, data, d)
        case Err(e) => Err(e)
        case Ok(info) => Ok(Some(info))
  }

  /** The body of the declaration loop: nothing for a declaration without a symbol or without
    * `[Implement]`; otherwise the settings, the interfaces, the members and `ProcessType`. */
  function ProcessSpec(d: Declaration, env: Generate.Env, counter: Numbers.Int32): (Result<Option<SourceCode>, Exception>, Numbers.Int32)
  {
    match InfoFor(d)
    case Err(e) => (Err(e), counter)
    case Ok(None) => (Ok(None), counter)
    case Ok(Some(info)) =>
      var out := ProcessTypeSpec(info, env, counter);
      (if out.0.Err? then Err(out.0.error) else Ok(Some(out.0.value)), out.1)
  }

  /** The settings, interfaces and members of one declaration, in a new generate info. */
  method BuildInfo(symbol: NamedType, data: Attributes.AttributeData, d: Declaration) returns (r: Result<Generate.GenerateInfo, Exception>)
    ensures InfoOf(symbol, data, d).Err? <==> r.Err?
    ensures r.Err? ==> r.error == InfoOf(symbol, data, d).error
    ensures r.Ok? ==> fresh(r.value) && r.value.Valid() && r.value.Snapshot() == InfoOf(symbol, data, d).value
  {
    var args := Attributes.Build(data);
    if args.Err? {
      return Err(args.error);
    }
    var configured := Configure(symbol, args.value);
    if configured.Err? {
      return Err(configured.error);
    }
    var generate := configured.value;
    generate.interfaces := d.allInterfaces;
    var thrown := AddMembersTo(generate, d.members);
    if thrown.Some? {
      return Err(thrown.value);
    }
    return Ok(generate);
  }

  /** The body of the declaration loop in `Execute`. */
  method Process(d: Declaration, env: Generate.Env, naming: Naming.VariableNaming) returns (r: Result<Option<SourceCode>, Exception>)
    requires naming.syntax == env.syntax
    modifies naming
    ensures (r, naming.counter) == ProcessSpec(d, env, old(naming.counter))
  {
    if d.symbol.None? {
      return Ok(None);
    }
    var data := Attributes.FirstWithClass(d.attributes, Generate.ImplementAttributeFQN);
    if data.None? {
      return Ok(None);
    }
    var generate := BuildInfo(d.symbol.value, data.value, d);
    if generate.Err? {
      return Err(generate.error);
    }
    var file := ProcessType(generate.value, env, naming);
    if file.Err? {
      return Err(file.error);
    }
    return Ok(Some(file.value));
  }

  /** What the declaration loop has produced: the files handed to `AddSource` so far, the exception
    * that stopped it if any, and the naming counter. */
  datatype Run = Run(files: seq<SourceCode>, thrown: Option<Exception>, counter: Numbers.Int32)

  /** The declaration loop of `Execute` over `ds`, stopping at the first exception. */
  function Emitted(ds: seq<Declaration>, env: Generate.Env, counter: Numbers.Int32): Run
    decreases |ds|
  {
    if |ds| == 0 then Run([], None, counter)
    else
      var before := Emitted(ds[..|ds| - 1], env, counter);
      if before.thrown.Some? then before
      else
        var p := ProcessSpec(ds[|ds| - 1], env, before.counter);
        match p.0
        case Err(e) => Run(before.files, Some(e), p.1)
        case Ok(None) => Run(before.files, None, p.1)
        case Ok(Some(file)) => Run(before.files + [file], None, p.1)
  }

  /** One more declaration of the loop. */
  lemma EmittedStep(ds: seq<Declaration>, k: nat, env: Generate.Env, counter: Numbers.Int32)
    requires k < |ds| && Emitted(ds[..k], env, counter).thrown.None?
    ensures var before := Emitted(ds[..k], env, counter);
      var p := ProcessSpec(ds[k], env, before.counter);
      Emitted(ds[..k + 1], env, counter) ==
        match p.0
        case Err(e) => Run(before.files, Some(e), p.1)
        case Ok(None) => Run(before.files, None, p.1)
        case Ok(Some(file)) => Run(before.files + [file], None, p.1)
  {
    assert ds[..k + 1][..k] == ds[..k];
  }

  /** After an exception the loop is over: the later declarations change nothing. */
  lemma {:induction false} EmittedStops(ds: seq<Declaration>, j: nat, env: Generate.Env, counter: Numbers.Int32)
    requires j <= |ds| && Emitted(ds[..j], env, counter).thrown.Some?
    decreases |ds|
    ensures Emitted(ds, env, counter) == Emitted(ds[..j], env, counter)
  {
    if j == |ds| {
      assert ds[..j] == ds;
    } else {
      var init := ds[..|ds| - 1];
      assert init[..j] == ds[..j];
      EmittedStops(init, j, env, counter);
    }
  }

  /** `Execute(…)`: nothing at all for an empty (or default) array of declarations; otherwise
    * InvalidOperationException when the `[Implement]` attribute's symbol cannot be loaded, and
    * else every declaration in turn, each file handed to `AddSource` as it is made. */
  method Execute(ds: seq<Declaration>, attributeLoaded: bool, env: Generate.Env, naming: Naming.VariableNaming)
    returns (files: seq<SourceCode>, thrown: Option<Exception>)
    requires naming.syntax == env.syntax
    modifies naming
    ensures |ds| == 0 ==> files == [] && thrown.None? && naming.counter == old(naming.counter)
    ensures |ds| > 0 && !attributeLoaded ==>
      files == [] && thrown == Some(InvalidOperationException) && naming.counter == old(naming.counter)
    ensures attributeLoaded ==> Run(files, thrown, naming.counter) == Emitted(ds, env, old(naming.counter))
  {
    if |ds| == 0 {
      return [], None;
    }
    if !attributeLoaded {
      return [], Some(InvalidOperationException);
    }
    files := [];
    var k := 0;
    while k < |ds|
      invariant 0 <= k <= |ds|
      invariant Emitted(ds[..k], env, old(naming.counter)) == Run(files, None, naming.counter)
    {
      EmittedStep(ds, k, env, old(naming.counter));
      var r := Process(ds[k], env, naming);
      if r.Err? {
        EmittedStops(ds, k + 1, env, old(naming.counter));
        return files, Some(r.error);
      }
      if r.value.Some? {
        files := files + [r.value.value];
      }
      k := k + 1;
    }
    assert ds[..k] == ds;
    return files, None;
  }

  /** A generated file as `ProcessType` makes it: a `.g.cs` hint name and code that ends with the
    * closing brace of the type. */
  predicate WellShaped(f: SourceCode)
  {
    |f.code| > 0 && f.code[|f.code| - 1] == '}' && Strings.EndsWith(f.fileName, ".g.cs")
  }

  /** Every file the loop hands over is well shaped, and there is at most one per declaration. */
  lemma {:induction false} EmittedFilesShape(ds: seq<Declaration>, env: Generate.Env, counter: Numbers.Int32)
    decreases |ds|
    ensures var run := Emitted(ds, env, counter);
      |run.files| <= |ds| && forall i :: 0 <= i < |run.files| ==> WellShaped(run.files[i])
  {
    if |ds| > 0 {
      var init := ds[..|ds| - 1];
      EmittedFilesShape(init, env, counter);
      var before := Emitted(init, env, counter);
      if before.thrown.None? {
        var p := ProcessSpec(ds[|ds| - 1], env, before.counter);
        ProcessedFileShape(ds[|ds| - 1], env, before.counter);
        if p.0.Ok? && p.0.value.Some? {
          var files := before.files + [p.0.value.value];
          assert Emitted(ds, env, counter).files == files;
          assert forall i :: 0 <= i < |before.files| ==> files[i] == before.files[i];
        }
      }
    }
  }

  /** The file one declaration gives, if any, is well shaped. */
  lemma ProcessedFileShape(d: Declaration, env: Generate.Env, counter: Numbers.Int32)
    ensures var p := ProcessSpec(d, env, counter).0;
      p.Ok? && p.value.Some? ==> WellShaped(p.value.value)
  {
    var i := InfoFor(d);
    if i.Ok? && i.value.Some? {
      GeneratedFileShape(i.value.value, env, counter);
    }
  }

  /** `$"{fqn}.g.cs"` ends with `.g.cs`. */
  lemma FileNameEnds(fqn: string)
    ensures Strings.EndsWith(fqn + ".g.cs", ".g.cs")
  {
    assert (fqn + ".g.cs")[|fqn|..] == ".g.cs";
  }
}

