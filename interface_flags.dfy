/** The `[Flags]` enums of the interface generator (InterfaceGen/Visibility.cs, Instic.cs, ObjType.cs,
  * MemberType.cs, MemberKeywords.cs) and `MemberKeywords.DeclareTo`, which writes the set keywords
  * through a Coding builder. */
module InterfaceFlags {
  import opened Flags
  import opened Coding
  import CodingBuilder
  import Naming

  // ---------------------------------------------------------------- Visibility

  const Private: Bits := {0}
  const Protected: Bits := {1}
  const Internal: Bits := {2}
  const Public: Bits := {3}
  const AnyVisibility: Bits := {0, 1, 2, 3}

  const VisibilityEnum := EnumType([Member("Private", Private), Member("Protected", Protected),
    Member("Internal", Internal), Member("Public", Public), Member("Any", AnyVisibility)])

  // ---------------------------------------------------------------- Instic

  const Static: Bits := {0}
  const Instance: Bits := {1}
  const AnyInstic: Bits := {0, 1}

  const InsticEnum := EnumType([Member("Static", Static), Member("Instance", Instance), Member("Any", AnyInstic)])

  // ---------------------------------------------------------------- ObjType

  const Struct: Bits := {0}
  const Class: Bits := {1}
  const AnyObjType: Bits := {0, 1}

  const ObjTypeEnum := EnumType([Member("Struct", Struct), Member("Class", Class), Member("Any", AnyObjType)])

  // ---------------------------------------------------------------- MemberType

  const Field: Bits := {0}
  const Property: Bits := {1}
  const Event: Bits := {2}
  const Method: Bits := {3}
  /** `1 << 4 | Method`. */
  const Constructor: Bits := {3, 4}
  /** `1 << 5 | Method`. */
  const Operator: Bits := {3, 5}
  const AnyMemberType: Bits := {0, 1, 2, 3, 4, 5}

  const MemberTypeEnum := EnumType([Member("Field", Field), Member("Property", Property), Member("Event", Event),
    Member("Method", Method), Member("Constructor", Constructor), Member("Operator", Operator),
    Member("Any", AnyMemberType)])

  /** A single set bit. */
  predicate SingleBit(b: Bits)
  {
    |b| == 1
  }

  /** Field, Property, Event and Method are distinct single bits. */
  lemma SimpleKindsAreBits()
    ensures SingleBit(Field) && SingleBit(Property) && SingleBit(Event) && SingleBit(Method)
    ensures Field !! Property && Field !! Event && Field !! Method
    ensures Property !! Event && Property !! Method && Event !! Method
  {
  }

  /** Both composite kinds contain the Method bit, Method contains neither, and the two share only it. */
  lemma CompositeKindsContainMethod()
    ensures HasFlag(Constructor, Method) && HasFlag(Operator, Method)
    ensures !HasFlag(Method, Constructor) && !HasFlag(Method, Operator)
    ensures Constructor * Operator == Method
    ensures Constructor != Method && Operator != Method && Constructor != Operator
  {
  }

  /** `Any` is the union of the six kinds. */
  lemma AnyIsEveryKind()
    ensures AnyMemberType == Field + Property + Event + Method + Constructor + Operator
    ensures AnyVisibility == Private + Protected + Internal + Public
    ensures AnyInstic == Static + Instance && AnyObjType == Struct + Class
  {
  }

  /** The flags of `Constructor` are Method and Constructor itself, in declaration order. */
  lemma ConstructorFlags()
    ensures ValuesOf(GetFlags(MemberTypeEnum, Constructor)) == [Method, Constructor]
  {
    var ms := MemberTypeEnum.members;
    var e := Constructor;
    assert FlagsFrom(ms, 6, e) == [];
    assert FlagsFrom(ms, 5, e) == [];
    assert FlagsFrom(ms, 4, e) == [ms[4]];
    assert FlagsFrom(ms, 3, e) == [ms[3], ms[4]];
    assert FlagsFrom(ms, 2, e) == [ms[3], ms[4]];
    assert FlagsFrom(ms, 1, e) == [ms[3], ms[4]];
  }

  // ---------------------------------------------------------------- MemberKeywords

  const NoKeywords: Bits := {}
  const Virtual: Bits := {0}
  const Abstract: Bits := {1}
  const Sealed: Bits := {2}
  const Partial: Bits := {3}

  const MemberKeywordsEnum := EnumType([Member("None", NoKeywords), Member("Virtual", Virtual),
    Member("Abstract", Abstract), Member("Sealed", Sealed), Member("Partial", Partial)])

  /** The per-value action of `DeclareTo` on each flag: `Append(v.ToString().ToLower()).Append(' ')`.
    * A yielded flag is a declared member, so `ToString()` is its name. */
  function KeywordCalls(m: Member): Applied
  {
    Applied([Append(Naming.LowerAll(m.name)), Append(" ")])
  }

  /** What `DeclareTo(keywords, builder)` asks of the builder: `Enumerate(keywords.GetFlags(), …)`. */
  function DeclareCalls(keywords: Bits): Cmd
  {
    Enumerate(KeywordBodies(GetFlags(MemberKeywordsEnum, keywords)))
  }

  /** Each member's lowercase name followed by one space, in order. */
  function Tokens(members: seq<Member>): string
  {
    if |members| == 0 then "" else Naming.LowerAll(members[0].name) + " " + Tokens(members[1..])
  }

  /** The text `DeclareTo` writes: the set keywords' lowercase names, each followed by a space. */
  function KeywordText(keywords: Bits): string
  {
    Tokens(GetFlags(MemberKeywordsEnum, keywords))
  }

  /** The per-flag actions of a run of members. */
  function KeywordBodies(members: seq<Member>): seq<Applied>
  {
    seq(|members|, i requires 0 <= i < |members| => KeywordCalls(members[i]))
  }

  /** One flag's action writes its token. */
  lemma KeywordCallsWrite(m: Member, st: St)
    ensures ExecBody(KeywordCalls(m).calls, st) == Done(Put(Put(st, Naming.LowerAll(m.name)), " "))
  {
    var calls := KeywordCalls(m).calls;
    var s1 := Put(st, Naming.LowerAll(m.name));
    assert ExecCmd(calls[0], st) == Done(s1);
    assert calls[1..] == [Append(" ")] && calls[1..][1..] == [];
    assert ExecBody(calls[1..][1..], Put(s1, " ")) == Done(Put(s1, " "));
    assert ExecBody(calls[1..], s1) == Done(Put(s1, " "));
  }

  /** Running the per-flag actions writes the tokens of the flags, in order, and never throws. */
  lemma {:induction false} TokensWritten(members: seq<Member>, st: St)
    decreases |members|
    ensures ExecBodies(KeywordBodies(members), st) == Done(Put(st, Tokens(members)))
  {
    var bs := KeywordBodies(members);
    if |members| > 0 {
      var name := Naming.LowerAll(members[0].name);
      KeywordCallsWrite(members[0], st);
      var s := Put(Put(st, name), " ");
      assert bs[1..] == KeywordBodies(members[1..]);
      TokensWritten(members[1..], s);
      assert Tokens(members) == name + " " + Tokens(members[1..]);
      assert st.written + Tokens(members) == s.written + Tokens(members[1..]);
    }
  }

  /** `DeclareTo` writes exactly `KeywordText(keywords)` and leaves the indent alone. */
  lemma DeclareWritesKeywords(keywords: Bits, st: St)
    ensures ExecCmd(DeclareCalls(keywords), st) == Done(Put(st, KeywordText(keywords)))
  {
    TokensWritten(GetFlags(MemberKeywordsEnum, keywords), st);
  }

  /** The tokens of two runs are the tokens of each, one after the other. */
  lemma {:induction false} TokensAppend(a: seq<Member>, b: seq<Member>)
    decreases |a|
    ensures Tokens(a + b) == Tokens(a) + Tokens(b)
  {
    if |a| == 0 {
      assert a + b == b;
    } else {
      assert (a + b)[0] == a[0];
      assert (a + b)[1..] == a[1..] + b;
      TokensAppend(a[1..], b);
    }
  }

  /** The token of one keyword if its bit is set. */
  function TokenIf(present: bool, token: string): string
  {
    if present then token + " " else ""
  }

  /** The lowercase names of the keywords. */
  lemma LowerNames()
    ensures Naming.LowerAll("Virtual") == "virtual" && Naming.LowerAll("Abstract") == "abstract"
    ensures Naming.LowerAll("Sealed") == "sealed" && Naming.LowerAll("Partial") == "partial"
  {
  }

  /** Which members `GetFlags` yields for a `MemberKeywords` value: None never, each other keyword iff its
    * bit is set, in bit order. */
  lemma KeywordFlags(keywords: Bits)
    ensures var ms := MemberKeywordsEnum.members;
      GetFlags(MemberKeywordsEnum, keywords) ==
        Pick(ms[1], keywords) + Pick(ms[2], keywords) + Pick(ms[3], keywords) + Pick(ms[4], keywords)
  {
    var ms := MemberKeywordsEnum.members;
    var a, b, c, d := Pick(ms[1], keywords), Pick(ms[2], keywords), Pick(ms[3], keywords), Pick(ms[4], keywords);
    assert FlagsFrom(ms, 4, keywords) == d;
    assert FlagsFrom(ms, 3, keywords) == c + d;
    assert FlagsFrom(ms, 2, keywords) == b + (c + d);
    assert FlagsFrom(ms, 1, keywords) == a + (b + (c + d));
    assert a + (b + (c + d)) == a + b + c + d;
  }

  /** The token of one member, if it is yielded. */
  lemma TokensPick(m: Member, keywords: Bits, token: string)
    requires m.value != {} && Naming.LowerAll(m.name) == token
    ensures Tokens(Pick(m, keywords)) == TokenIf(HasFlag(keywords, m.value), token)
  {
    if HasFlag(keywords, m.value) {
      assert Pick(m, keywords)[1..] == [];
    }
  }

  /** `DeclareTo` writes `"virtual "`, `"abstract "`, `"sealed "` and `"partial "` for the bits that are set,
    * in that order, and nothing else. */
  lemma KeywordTextBits(keywords: Bits)
    ensures KeywordText(keywords) ==
      TokenIf(HasFlag(keywords, Virtual), "virtual") + TokenIf(HasFlag(keywords, Abstract), "abstract") +
      TokenIf(HasFlag(keywords, Sealed), "sealed") + TokenIf(HasFlag(keywords, Partial), "partial")
  {
    var ms := MemberKeywordsEnum.members;
    KeywordFlags(keywords);
    LowerNames();
    var a, b, c, d := Pick(ms[1], keywords), Pick(ms[2], keywords), Pick(ms[3], keywords), Pick(ms[4], keywords);
    TokensAppend(a + b + c, d);
    TokensAppend(a + b, c);
    TokensAppend(a, b);
    TokensPick(ms[1], keywords, "virtual");
    TokensPick(ms[2], keywords, "abstract");
    TokensPick(ms[3], keywords, "sealed");
    TokensPick(ms[4], keywords, "partial");
  }

  /** `DeclareTo(None)` writes nothing. */
  lemma DeclareNothing()
    ensures KeywordText(NoKeywords) == ""
  {
    FlagsFromDefault(MemberKeywordsEnum.members, 0);
  }

  /** `Sealed + Partial` is written `"sealed partial "`: Sealed comes first, by bit order. */
  lemma DeclareSealedPartial()
    ensures KeywordText(Sealed + Partial) == "sealed partial "
  {
    KeywordTextBits(Sealed + Partial);
  }

  /** `keywords.DeclareTo(codeBuilder)`. */
  method DeclareTo(keywords: Bits, builder: CodingBuilder.CodeBuilder)
    requires builder.Valid()
    modifies builder, builder.chars
    ensures builder.Valid() && builder.State() == Put(old(builder.State()), KeywordText(keywords))
  {
    DeclareWritesKeywords(keywords, builder.State());
    var thrown := builder.Run(DeclareCalls(keywords));
  }
}
