/** InterfaceGen/KeywordsExtractor.cs: `Parse(text)` reads a space-separated list of keywords into a
  * visibility, a set of member keywords and an object type. */
module KeywordsExtractor {
  import opened Wrappers
  import opened Flags
  import opened InterfaceFlags
  import CharClass
  import Strings
  import TextHelper
  import TextSplit

  /** `TextSplitOptions.RemoveEmptyLines | TextSplitOptions.TrimLines`. */
  const KeywordOptions := TextSplit.SplitOptions(true, true)

  /** The `(Visibility, MemberKeywords, ObjType)` tuple `Parse` returns. */
  datatype Parsed = Parsed(visibility: Bits, keywords: Bits, objType: Bits)

  /** `default` for all three. */
  const Nothing := Parsed({}, {}, {})

  /** The value of the first member whose name matches `token` without regard to case. */
  function FindName(members: seq<Member>, token: string): Option<Bits>
  {
    if |members| == 0 then None
    else if Strings.EqualsIgnoreCase(members[0].name, token) then Some(members[0].value)
    else FindName(members[1..], token)
  }

  /** `Enum.TryParse<TEnum>(token, ignoreCase: true, out value)` on a token that names a member. */
  function TryParse(t: EnumType, token: string): Option<Bits>
  {
    FindName(t.members, token)
  }

  /** The three enum types `Parse` tries, in the order it tries them. */
  datatype Enums = Enums(visibility: EnumType, memberKeywords: EnumType, objType: EnumType)

  const Declared := Enums(VisibilityEnum, MemberKeywordsEnum, ObjTypeEnum)

  /** One pass of the loop: the token tried as a Visibility, then as MemberKeywords, then as an
    * ObjType, its value OR-ed into the first component that accepts it; no value if none does. */
  function Apply(enums: Enums, acc: Parsed, token: string): Option<Parsed>
  {
    match TryParse(enums.visibility, token)
    case Some(v) => Some(acc.(visibility := acc.visibility + v))
    case None =>
      match TryParse(enums.memberKeywords, token)
      case Some(k) => Some(acc.(keywords := acc.keywords + k))
      case None =>
        match TryParse(enums.objType, token)
        case Some(o) => Some(acc.(objType := acc.objType + o))
        case None => None
  }

  /** The loop over the remaining tokens, stopping with ArgumentException at the first unknown one. */
  function ParseTokens(enums: Enums, tokens: seq<string>, acc: Parsed): Result<Parsed, Exception>
  {
    if |tokens| == 0 then Ok(acc)
    else
      match Apply(enums, acc, tokens[0])
      case None => Err(ArgumentException)
      case Some(next) => ParseTokens(enums, tokens[1..], next)
  }

  /** The tokens of `text`: split on `" "`, trimmed, empty ones dropped. A null text has none. */
  function Tokens(text: Option<string>): seq<string>
  {
    TextSplit.Split(TextHelper.AsSpan(text), " ", KeywordOptions)
  }

  /** `Parse(text)` as a function of the text. */
  function ParseSpec(text: Option<string>): Result<Parsed, Exception>
  {
    ParseTokens(Declared, Tokens(text), Nothing)
  }

  /** `KeywordsExtractor.Parse(text)`. */
  method Parse(text: Option<string>) returns (r: Result<Parsed, Exception>)
    ensures r == ParseSpec(text)
  {
    r := ParseWith(Declared, text);
  }

  /** The enumerator loop of `Parse`, with the three enums it tries given as `enums`. */
  method ParseWith(enums: Enums, text: Option<string>) returns (r: Result<Parsed, Exception>)
    ensures r == ParseTokens(enums, Tokens(text), Nothing)
  {
    var input := TextHelper.AsSpan(text);
    var e := new TextSplit.SplitEnumerator(input, " ", KeywordOptions);
    var vis: Bits, keys: Bits, otype: Bits := {}, {}, {};
    while true
      invariant e.input == input && e.separator == " " && e.options == KeywordOptions
      invariant ParseTokens(enums, Tokens(text), Nothing) ==
        ParseTokens(enums, TextSplit.SplitFrom(input, " ", KeywordOptions, e.position), Parsed(vis, keys, otype))
      decreases |TextSplit.SplitFrom(input, " ", KeywordOptions, e.position)|
    {
      var moved := e.MoveNext();
      if !moved {
        return Ok(Parsed(vis, keys, otype));
      }
      var token := e.current;
      var visibility := TryParse(enums.visibility, token);
      if visibility.Some? {
        vis := vis + visibility.value;
      } else {
        var memberKeywords := TryParse(enums.memberKeywords, token);
        if memberKeywords.Some? {
          keys := keys + memberKeywords.value;
        } else {
          var objType := TryParse(enums.objType, token);
          if objType.Some? {
            otype := otype + objType.value;
          } else {
            return Err(ArgumentException);
          }
        }
      }
    }
  }

  /** `FindName` finds the first member whose name matches, and finds nothing only when none does. */
  lemma {:induction false} FindNameIsFirst(members: seq<Member>, token: string)
    decreases |members|
    ensures FindName(members, token).None? <==> forall k :: 0 <= k < |members| ==> !Strings.EqualsIgnoreCase(members[k].name, token)
    ensures FindName(members, token).Some? ==> exists k :: (0 <= k < |members| &&
      members[k].value == FindName(members, token).value && Strings.EqualsIgnoreCase(members[k].name, token) &&
      forall j :: 0 <= j < k ==> !Strings.EqualsIgnoreCase(members[j].name, token))
  {
    if |members| > 0 && !Strings.EqualsIgnoreCase(members[0].name, token) {
      var rest := members[1..];
      FindNameIsFirst(rest, token);
      assert forall k :: 1 <= k < |members| ==> members[k] == rest[k - 1];
      if FindName(rest, token).Some? {
        var k :| 0 <= k < |rest| && rest[k].value == FindName(rest, token).value &&
          Strings.EqualsIgnoreCase(rest[k].name, token) && forall j :: 0 <= j < k ==> !Strings.EqualsIgnoreCase(rest[j].name, token);
        assert members[k + 1] == rest[k];
      }
    }
  }

  // ---------------------------------------------------------------- properties

  /** The bits a token contributes to each component, if it is a known keyword. */
  function Contribution(enums: Enums, token: string): Option<Parsed>
  {
    Apply(enums, Nothing, token)
  }

  /** Component-wise OR, the union of the bits. */
  function Or(a: Parsed, b: Parsed): Parsed
  {
    Parsed(a.visibility + b.visibility, a.keywords + b.keywords, a.objType + b.objType)
  }

  /** OR is associative. */
  lemma OrAssoc(a: Parsed, b: Parsed, c: Parsed)
    ensures Or(Or(a, b), c) == Or(a, Or(b, c))
  {
    assert a.visibility + b.visibility + c.visibility == a.visibility + (b.visibility + c.visibility);
    assert a.keywords + b.keywords + c.keywords == a.keywords + (b.keywords + c.keywords);
    assert a.objType + b.objType + c.objType == a.objType + (b.objType + c.objType);
  }

  /** Nothing is the unit of OR. */
  lemma OrNothing(a: Parsed)
    ensures Or(a, Nothing) == a
  {
    assert a.visibility + {} == a.visibility;
    assert a.keywords + {} == a.keywords;
    assert a.objType + {} == a.objType;
  }

  /** OR is commutative. */
  lemma OrComm(a: Parsed, b: Parsed)
    ensures Or(a, b) == Or(b, a)
  {
    assert a.visibility + b.visibility == b.visibility + a.visibility;
    assert a.keywords + b.keywords == b.keywords + a.keywords;
    assert a.objType + b.objType == b.objType + a.objType;
  }

  /** Every token is a known keyword. */
  predicate AllKnown(enums: Enums, tokens: seq<string>)
  {
    forall i :: 0 <= i < |tokens| ==> Contribution(enums, tokens[i]).Some?
  }

  /** The OR of the contributions of known tokens. */
  function Union(enums: Enums, tokens: seq<string>): Parsed
    requires AllKnown(enums, tokens)
  {
    if |tokens| == 0 then Nothing else Or(Contribution(enums, tokens[0]).value, Union(enums, tokens[1..]))
  }

  /** A token OR-s the same bits into whatever has been read before it. */
  lemma ApplyIsOr(enums: Enums, acc: Parsed, token: string)
    ensures Apply(enums, acc, token).Some? <==> Contribution(enums, token).Some?
    ensures Apply(enums, acc, token).Some? ==> Apply(enums, acc, token).value == Or(acc, Contribution(enums, token).value)
  {
  }

  /** Whether all tokens are known is decided by the first and then the rest. */
  lemma AllKnownCons(enums: Enums, tokens: seq<string>)
    requires |tokens| > 0
    ensures AllKnown(enums, tokens) <==> Contribution(enums, tokens[0]).Some? && AllKnown(enums, tokens[1..])
  {
    assert forall i :: 1 <= i < |tokens| ==> tokens[i] == tokens[1..][i - 1];
  }

  /** The loop accepts iff every token is known, and then returns the OR of all of them; otherwise it
    * throws ArgumentException. */
  lemma {:induction false} ParseTokensIsUnion(enums: Enums, tokens: seq<string>, acc: Parsed)
    decreases |tokens|
    ensures ParseTokens(enums, tokens, acc) ==
      if AllKnown(enums, tokens) then Ok(Or(acc, Union(enums, tokens))) else Err(ArgumentException)
  {
    if |tokens| == 0 {
      OrNothing(acc);
    } else {
      ApplyIsOr(enums, acc, tokens[0]);
      AllKnownCons(enums, tokens);
      if Contribution(enums, tokens[0]).Some? {
        var c := Contribution(enums, tokens[0]).value;
        ParseTokensIsUnion(enums, tokens[1..], Or(acc, c));
        if AllKnown(enums, tokens[1..]) {
          OrAssoc(acc, c, Union(enums, tokens[1..]));
        }
      }
    }
  }

  /** Two runs of tokens are all known iff each is. */
  lemma AllKnownAppend(enums: Enums, a: seq<string>, b: seq<string>)
    ensures AllKnown(enums, a + b) <==> AllKnown(enums, a) && AllKnown(enums, b)
  {
    assert forall i :: 0 <= i < |a| ==> (a + b)[i] == a[i];
    assert forall i :: 0 <= i < |b| ==> (a + b)[|a| + i] == b[i];
  }

  /** The union of two runs of tokens. */
  lemma {:induction false} UnionAppend(enums: Enums, a: seq<string>, b: seq<string>)
    requires AllKnown(enums, a) && AllKnown(enums, b)
    decreases |a|
    ensures AllKnown(enums, a + b) && Union(enums, a + b) == Or(Union(enums, a), Union(enums, b))
  {
    AllKnownAppend(enums, a, b);
    if |a| == 0 {
      assert a + b == b;
    } else {
      assert (a + b)[0] == a[0];
      assert (a + b)[1..] == a[1..] + b;
      AllKnownCons(enums, a);
      UnionAppend(enums, a[1..], b);
      OrAssoc(Contribution(enums, a[0]).value, Union(enums, a[1..]), Union(enums, b));
    }
  }

  /** Matches are OR-ed into their component, so the order of the tokens does not matter. */
  lemma TokenOrderIrrelevant(enums: Enums, a: seq<string>, b: seq<string>, acc: Parsed)
    ensures ParseTokens(enums, a + b, acc) == ParseTokens(enums, b + a, acc)
  {
    ParseTokensIsUnion(enums, a + b, acc);
    ParseTokensIsUnion(enums, b + a, acc);
    AllKnownAppend(enums, a, b);
    AllKnownAppend(enums, b, a);
    if AllKnown(enums, a) && AllKnown(enums, b) {
      UnionAppend(enums, a, b);
      UnionAppend(enums, b, a);
      OrComm(Union(enums, a), Union(enums, b));
    }
  }

  /** Repeating a token changes nothing. */
  lemma RepeatedToken(enums: Enums, a: seq<string>, t: string, acc: Parsed)
    ensures ParseTokens(enums, a + [t, t], acc) == ParseTokens(enums, a + [t], acc)
  {
    ParseTokensIsUnion(enums, a + [t, t], acc);
    ParseTokensIsUnion(enums, a + [t], acc);
    AllKnownAppend(enums, a, [t, t]);
    AllKnownAppend(enums, a, [t]);
    AllKnownCons(enums, [t, t]);
    AllKnownCons(enums, [t]);
    assert [t, t][1..] == [t] && [t][1..] == [];
    if AllKnown(enums, a) && Contribution(enums, t).Some? {
      UnionAppend(enums, a, [t, t]);
      UnionAppend(enums, a, [t]);
    }
  }

  /** Null or blank text has no tokens, so it reads as `(default, default, default)`. */
  lemma BlankText(text: Option<string>)
    requires Strings.IsBlank(TextHelper.AsSpan(text))
    ensures Tokens(text) == [] && ParseSpec(text) == Ok(Nothing)
  {
    var s := TextHelper.AsSpan(text);
    var rs := TextSplit.Ranges(s, " ", KeywordOptions, 0);
    if |rs| > 0 {
      var r := rs[0];
      assert r in rs;
      TextSplit.TrimmedSlices(s, " ", KeywordOptions, 0);
      TextSplit.NoEmptySlices(s, " ", KeywordOptions, 0);
      assert false;
    }
  }

  /** Every token `Parse` reads is non-empty and has no whitespace at either end. */
  lemma TokensAreTrimmed(text: Option<string>, k: nat)
    requires k < |Tokens(text)|
    ensures var t := Tokens(text)[k]; |t| > 0 && Strings.Trim(t) == t
  {
    var s := TextHelper.AsSpan(text);
    var rs := TextSplit.Ranges(s, " ", KeywordOptions, 0);
    assert Tokens(text) == TextSplit.Texts(s, rs);
    var r := rs[k];
    assert r in rs;
    TextSplit.TrimmedSlices(s, " ", KeywordOptions, 0);
    TextSplit.NoEmptySlices(s, " ", KeywordOptions, 0);
    SliceIsTrimmed(s, r.0, r.1);
  }

  /** A non-empty slice with no whitespace at its ends is its own `Trim`. */
  lemma SliceIsTrimmed(s: string, start: nat, end: nat)
    requires start < end <= |s| && TextSplit.TrimmedEnds(s, start, end)
    ensures |s[start..end]| > 0 && Strings.Trim(s[start..end]) == s[start..end]
  {
    TrimmedIsTrim(s[start..end]);
  }

  /** A non-empty string with no whitespace at its ends is its own `Trim`. */
  lemma TrimmedIsTrim(t: string)
    requires |t| > 0 && !CharClass.IsWhiteSpace(t[0]) && !CharClass.IsWhiteSpace(t[|t| - 1])
    ensures Strings.Trim(t) == t
  {
    Strings.LeadingCountAt(t, CharClass.IsWhiteSpace, 0);
    assert Strings.TrimStartBy(t, CharClass.IsWhiteSpace) == t;
    Strings.TrimEndAt(t, CharClass.IsWhiteSpace, |t|);
  }

  /** Names of a different length never match. */
  lemma LengthsDiffer(a: string, b: string)
    requires |a| != |b|
    ensures !Strings.EqualsIgnoreCase(a, b)
  {
  }

  /** Names that differ at one position after upper-casing never match. */
  lemma DiffersAt(a: string, b: string, i: nat)
    requires i < |a| && i < |b| && CharClass.ToUpper(a[i]) != CharClass.ToUpper(b[i])
    ensures !Strings.EqualsIgnoreCase(a, b)
  {
  }

  /** `"any"` is read as `Visibility.Any`, never as `ObjType.Any`, since Visibility is tried first. */
  lemma AnyIsVisibility(acc: Parsed)
    ensures Apply(Declared, acc, "any") == Some(acc.(visibility := acc.visibility + AnyVisibility))
  {
    var ms := VisibilityEnum.members;
    LengthsDiffer("Private", "any");
    LengthsDiffer("Protected", "any");
    LengthsDiffer("Internal", "any");
    LengthsDiffer("Public", "any");
    assert Strings.EqualsIgnoreCase("Any", "any");
    assert FindName(ms[4..], "any") == Some(AnyVisibility);
    assert FindName(ms[3..], "any") == Some(AnyVisibility);
    assert FindName(ms[2..], "any") == Some(AnyVisibility);
    assert FindName(ms[1..], "any") == Some(AnyVisibility);
  }

  /** `"static"` names no Visibility. */
  lemma StaticNotVisibility()
    ensures TryParse(VisibilityEnum, "static") == None
  {
    var ms, t := VisibilityEnum.members, "static";
    LengthsDiffer("Any", t);
    assert FindName(ms[4..], t) == None;
    DiffersAt("Public", t, 0);
    assert FindName(ms[3..], t) == None;
    LengthsDiffer("Internal", t);
    assert FindName(ms[2..], t) == None;
    LengthsDiffer("Protected", t);
    assert FindName(ms[1..], t) == None;
    LengthsDiffer("Private", t);
  }

  /** `"static"` names no member keyword. */
  lemma StaticNotKeyword()
    ensures TryParse(MemberKeywordsEnum, "static") == None
  {
    var ms, t := MemberKeywordsEnum.members, "static";
    LengthsDiffer("Partial", t);
    assert FindName(ms[4..], t) == None;
    DiffersAt("Sealed", t, 1);
    assert FindName(ms[3..], t) == None;
    LengthsDiffer("Abstract", t);
    assert FindName(ms[2..], t) == None;
    LengthsDiffer("Virtual", t);
    assert FindName(ms[1..], t) == None;
    LengthsDiffer("None", t);
  }

  /** `"static"` names no object type. */
  lemma StaticNotObjType()
    ensures TryParse(ObjTypeEnum, "static") == None
  {
    var ms, t := ObjTypeEnum.members, "static";
    LengthsDiffer("Any", t);
    assert FindName(ms[2..], t) == None;
    LengthsDiffer("Class", t);
    assert FindName(ms[1..], t) == None;
    DiffersAt("Struct", t, 2);
  }

  /** `Static` is not among the three enums tried, so it is an invalid keyword. */
  lemma StaticIsInvalid(acc: Parsed)
    ensures Apply(Declared, acc, "static") == None
  {
    StaticNotVisibility();
    StaticNotKeyword();
    StaticNotObjType();
  }
}
