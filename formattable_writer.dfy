/** InterfaceGen/CodeWriters/FormattableWriter.cs: the writer chosen for `System.IFormattable`. It
  * writes `ToString(format, provider)` with a fixed body, unless such a method is already declared. */
module FormattableWriters {
  import opened Wrappers
  import opened Flags
  import opened InterfaceFlags
  import opened Coding
  import Emit
  import Signatures
  import Generate
  import Comparison
  import CodingBuilder
  import ToStringWriters

  type MemberSig = Signatures.MemberSig

  const FormattableFQN: string := "System.IFormattable"

  /** `CanImplement(interfaceSymbol)`: the interface's FQN is `typeof(IFormattable).FullName`. */
  predicate CanImplement(i: Generate.NamedType)
  {
    i.fqn == FormattableFQN
  }

  /** The parameter test of the duplicate check, `pt => pt.Length == 2`, on an initialised array;
    * `Length` of a default array throws, which `FindFormattable` models. */
  function TakesTwo(pt: Comparison.ImmutableArray<Signatures.ParameterSig>): bool
  {
    pt.ArrayOf? && |pt.items| == 2
  }

  /** `HasMember(Instance, Public, Method, "ToString", rt => rt.Name == "System.String", pt => pt.Length == 2)`. */
  const FormattableQuery: Generate.Query :=
    Generate.Query(Instance, Public, Method, Some("ToString"), Some(ToStringWriters.NamesSystemString), Some(TakesTwo))

  /** The duplicate check finds exactly the public instance `ToString` methods of two parameters whose
    * return type's simple name is literally `System.String`, and never the parameterless `ToString`
    * the other writer looks for. */
  lemma FormattableQueryMeaning(m: MemberSig)
    requires m.paramTypes.ArrayOf?
    ensures Generate.Matches(m, FormattableQuery) <==>
      HasFlag(m.instic, Instance) && HasFlag(m.visibility, Public) && HasFlag(m.memberType, Method) &&
      m.name == "ToString" && m.returnType.name == "System.String" && |m.paramTypes.items| == 2
    ensures Generate.Matches(m, FormattableQuery) ==> !Generate.Matches(m, ToStringWriters.ToStringQuery)
  {
    assert !Generate.IsNullOrWhiteSpace(Some("ToString")) by { assert "ToString"[0] == 'T'; }
    ToStringWriters.ToStringQueryMeaning(m);
  }

  /** The tests `HasMember` makes before the parameter test, in its order. */
  const QueryBeforeParams: Generate.Query :=
    Generate.Query(Instance, Public, Method, Some("ToString"), Some(ToStringWriters.NamesSystemString), None)

  /** `HasMember` with `FormattableQuery`, run over the members in order: true at the first member that
    * matches, and NullReferenceException at the first member that passes every test before the
    * parameter test but has a default parameter array, whose `pt.Length` throws. */
  function FindFormattable(members: seq<MemberSig>): (r: Result<bool, Exception>)
    ensures r.Err? ==> r.error == NullReferenceException
    ensures r == Ok(true) ==> Generate.AnyMatches(members, FormattableQuery)
    ensures Generate.Hashable(members) ==> r == Ok(Generate.AnyMatches(members, FormattableQuery))
  {
    if |members| == 0 then Ok(false)
    else if Generate.Matches(members[0], QueryBeforeParams) && members[0].paramTypes.DefaultArray? then
      Err(NullReferenceException)
    else if Generate.Matches(members[0], FormattableQuery) then Ok(true)
    else
      var rest := FindFormattable(members[1..]);
      assert forall i :: 1 <= i < |members| ==> members[i] == members[1..][i - 1];
      rest
  }

  /** The check throws exactly when, before any member matches, some member passes the tests before
    * the parameter test with a default parameter array. */
  lemma {:induction false} FindFormattableThrows(members: seq<MemberSig>)
    ensures FindFormattable(members).Err? <==>
      exists i :: 0 <= i < |members| && Generate.Matches(members[i], QueryBeforeParams) &&
        members[i].paramTypes.DefaultArray? &&
        forall j :: 0 <= j < i ==> !Generate.Matches(members[j], FormattableQuery)
  {
    if |members| > 0 {
      FindFormattableThrows(members[1..]);
      if !(Generate.Matches(members[0], QueryBeforeParams) && members[0].paramTypes.DefaultArray?) &&
        !Generate.Matches(members[0], FormattableQuery)
      {
        if FindFormattable(members).Err? {
          var k :| 0 <= k < |members[1..]| && Generate.Matches(members[1..][k], QueryBeforeParams) &&
            members[1..][k].paramTypes.DefaultArray? &&
            forall j :: 0 <= j < k ==> !Generate.Matches(members[1..][j], FormattableQuery);
          assert forall j :: 0 <= j < k + 1 ==> !Generate.Matches(members[j], FormattableQuery) by {
            forall j | 0 <= j < k + 1 ensures !Generate.Matches(members[j], FormattableQuery) {
              if j > 0 { assert members[j] == members[1..][j - 1]; }
            }
          }
        } else {
          forall i | 0 <= i < |members| && Generate.Matches(members[i], QueryBeforeParams) &&
            members[i].paramTypes.DefaultArray?
            ensures exists j :: 0 <= j < i && Generate.Matches(members[j], FormattableQuery)
          {
            assert i > 0;
            assert members[i] == members[1..][i - 1];
            var j :| 0 <= j < i - 1 && Generate.Matches(members[1..][j], FormattableQuery);
            assert members[j + 1] == members[1..][j];
          }
        }
      }
    }
  }

  const Signature: string := "string ToString(string? format, IFormatProvider? provider = null)"

  /** The lines of the method body, as the format of the raw string literal (braces doubled; the blank
    * line keeps one space). */
  const BodyLines: seq<string> := [
    "if (string.IsNullOrEmpty(format))",
    "    return this.ToString();",
    "if (format.Length != 1)",
    "    throw new ArgumentException(\"Invalid format\", nameof(format));",
    "char f = format[0];",
    "if (f == 'a' || f == 'A')",
    "{{",
    "    throw new NotImplementedException();",
    "}}",
    "// else others",
    " ",
    "throw new ArgumentException(\"Invalid format\", nameof(format));"]

  const BodyFormat: string := Generate.RawText(BodyLines)

  /** `Append("public").AppendIf(sealed, " ", " virtual ").Append(signature)`. */
  function HeaderCalls(keywords: Bits): Body
  {
    [Append("public"), If(HasFlag(keywords, Sealed), [Append(" ")], [Append(" virtual ")]), Append(Signature)]
  }

  /** The method block: the one fixed code block. */
  const MethodBlock: Body := [CodeBlock(BodyFormat, [])]

  /** `WriteSection(codeBuilder, generate)`: the duplicate check's exception, or nothing when the method
    * is already declared; otherwise the members carrying `[Display]` are collected first (the result
    * is unused, but a member with default attributes makes it throw before anything is written), then
    * the header and the bracketed body. */
  function SectionEmission(info: Generate.Info): Emit.Emission
  {
    match FindFormattable(info.members)
    case Err(e) => Emit.Emission([], Some(e))
    case Ok(true) => Emit.Plain([])
    case Ok(false) =>
      match Generate.WithAttribute(info.members, Generate.DisplayAttributeFQN)
      case Err(e) => Emit.Emission([], Some(e))
      case Ok(_) => Emit.Plain(HeaderCalls(info.memberKeywords) + [BracketBlock(MethodBlock, None)])
  }

  // ---------------------------------------------------------------- what is written

  /** A declared `ToString(format, provider)` is never overwritten: the builder is left as it was. */
  lemma DeclaredFormattableIsKept(info: Generate.Info, st: St)
    ensures FindFormattable(info.members) == Ok(true) ==> Emit.RunEmission(SectionEmission(info), st) == Done(st)
    ensures FindFormattable(info.members).Err? ==>
      Emit.RunEmission(SectionEmission(info), st) == Failed(NullReferenceException, st)
  {
  }

  /** The header: `public ` then the signature in a sealed implementation, `public virtual ` then the
    * signature otherwise. */
  lemma HeaderIsFlat(keywords: Bits, indent: string)
    ensures Emit.FlatBody(HeaderCalls(keywords), indent) ==
      Some(if HasFlag(keywords, Sealed) then "public " + Signature else "public virtual " + Signature)
  {
    var gap := if HasFlag(keywords, Sealed) then " " else " virtual ";
    var c := If(HasFlag(keywords, Sealed), [Append(" ")], [Append(" virtual ")]);
    if HasFlag(keywords, Sealed) {
      Emit.FlatSingle(Append(" "), indent);
      assert "public" + " " == "public ";
    } else {
      Emit.FlatSingle(Append(" virtual "), indent);
      assert "public" + " virtual " == "public virtual ";
    }
    assert Emit.Flat(c, indent) == Some(gap);
    Emit.FlatThree(Append("public"), c, Append(Signature), indent, "public", gap, Signature);
  }

  /** Without a declared method: a member with default attributes makes it throw a
    * NullReferenceException before anything is written; otherwise the header is written, then the
    * fixed block inside a bracket. */
  lemma SectionWrites(info: Generate.Info, st: St)
    requires FindFormattable(info.members) == Ok(false)
    ensures var fails := exists i :: 0 <= i < |info.members| && info.members[i].attributes.DefaultArray?;
      (fails ==> Emit.RunEmission(SectionEmission(info), st) == Failed(NullReferenceException, st)) &&
      (!fails ==>
        Emit.RunEmission(SectionEmission(info), st) ==
        ExecBracket(MethodBlock, DefaultIndent,
          Put(st, if HasFlag(info.memberKeywords, Sealed) then "public " + Signature else "public virtual " + Signature)))
  {
    Generate.WithAttributeIsFilter(info.members, Generate.DisplayAttributeFQN);
    if Generate.WithAttribute(info.members, Generate.DisplayAttributeFQN).Ok? {
      HeaderIsFlat(info.memberKeywords, st.indent);
      Emit.FlatThenBracket(HeaderCalls(info.memberKeywords), MethodBlock, st,
        if HasFlag(info.memberKeywords, Sealed) then "public " + Signature else "public virtual " + Signature);
    }
  }

  /** What is written does not depend on the members: two implementations that both get the method,
    * and agree on the `Sealed` keyword, are written the same. */
  lemma BodyIndependentOfMembers(a: Generate.Info, b: Generate.Info)
    requires FindFormattable(a.members) == Ok(false) && FindFormattable(b.members) == Ok(false)
    requires Generate.WithAttribute(a.members, Generate.DisplayAttributeFQN).Ok?
    requires Generate.WithAttribute(b.members, Generate.DisplayAttributeFQN).Ok?
    requires HasFlag(a.memberKeywords, Sealed) == HasFlag(b.memberKeywords, Sealed)
    ensures SectionEmission(a) == SectionEmission(b)
  {
  }

  // ---------------------------------------------------------------- the section action

  /** `WriteSection(codeBuilder, generate)`: the duplicate check on the members, then the writes. */
  method WriteSection(builder: CodingBuilder.CodeBuilder, generate: Generate.GenerateInfo)
    returns (thrown: Option<Exception>)
    requires builder.Valid()
    modifies builder, builder.chars
    ensures builder.Valid() && (builder.chars == old(builder.chars) || fresh(builder.chars))
    ensures builder.Ending(thrown) == Emit.RunEmission(SectionEmission(generate.Snapshot()), old(builder.State()))
  {
    var declared := FindFormattable(generate.members);
    if declared == Ok(true) {
      return None;
    }
    thrown := Emit.Perform(SectionEmission(generate.Snapshot()), builder);
  }
}
