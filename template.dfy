/** The composite-format grammar that both builders' `WriteFormatLine` parse (Core/Coding/CodeBuilder.cs
  * and Core/Text/CodeBuilder.cs carry identical copies): literal text, `{{` and `}}` escapes, and argument
  * holes `{N}` / `{N:format}` with optional spaces after the index.
  *
  * The pure specification works on the unread suffix `s` of the format together with `base`, the
  * position in the whole format of `s[0]`; error positions are absolute. Parsing does not depend on the
  * builder, so a builder renders the parsed segments in order and stops at the first failure. */
module Template {
  import opened Wrappers
  import CharClass

  /** The exclusive bound below which further index digits are still consumed. */
  const IndexLimit: nat := 1_000_000

  datatype Segment = Lit(text: string) | Hole(index: nat, format: Option<string>)

  datatype Reason =
    | MissingOpeningBrace
    | InvalidIndexCharacter
    | AlignmentNotSupported
    | UnexpectedCharacter
    | BraceInsideHole
    | ArgumentDoesNotExist
    | MovedPastEnd

  /** A FormatException: where it was raised and why. */
  datatype FormatError = FormatError(position: nat, reason: Reason)

  /** The segments produced before parsing stopped, and the error that stopped it, if any. */
  datatype Parsed = Parsed(segments: seq<Segment>, error: Option<FormatError>)

  /** An intermediate cursor inside a hole: the unread suffix (starting at the current char), its
    * absolute position, the index read so far and the format text read so far. */
  datatype HoleScan = Scanned(rest: string, base: nat, index: nat, spec: string) | ScanFailed(error: FormatError)

  datatype HoleResult = HoleOk(segment: Segment, rest: string, base: nat) | HoleFailed(error: FormatError)

  predicate IsBrace(c: char) { c == '{' || c == '}' }

  /** `'0' <= c <= '9'`; both the unsigned test `(uint)(ch - '0') >= 10u` on the first index char and
    * `IsAsciiDigit` on the later ones come to this (`CharClass.AsciiDigitRange`). */
  predicate IsDigit(c: char) { '0' <= c <= '9' }

  function Prepend(segments: seq<Segment>, p: Parsed): (r: Parsed)
    ensures r.error == p.error && r.segments == segments + p.segments
  {
    Parsed(segments + p.segments, p.error)
  }

  /** `IndexOfAny('{', '}')`. */
  function BraceIndex(s: string): (k: int)
    ensures -1 <= k < |s|
    ensures k != -1 ==> IsBrace(s[k])
  {
    if |s| == 0 then -1
    else if IsBrace(s[0]) then 0
    else
      var k := BraceIndex(s[1..]);
      if k == -1 then -1 else k + 1
  }

  /** `BraceIndex` finds the first brace, and -1 only when there is none. */
  lemma {:induction false} BraceIndexIsFirst(s: string)
    ensures BraceIndex(s) == -1 ==> forall i :: 0 <= i < |s| ==> !IsBrace(s[i])
    ensures BraceIndex(s) != -1 ==> forall i :: 0 <= i < BraceIndex(s) ==> !IsBrace(s[i])
  {
    if |s| > 0 && !IsBrace(s[0]) {
      BraceIndexIsFirst(s[1..]);
      forall i | 1 <= i < |s| ensures s[i] == s[1..][i - 1] { }
    }
  }

  /** `ch - '0'` for a char that passed the digit test. */
  function DigitValue(c: char): (d: nat)
    requires IsDigit(c)
    ensures d <= 9 && d == c as int - '0' as int
  {
    c as int - '0' as int
  }

  /** The loop consuming further index digits while the index is below `IndexLimit`; every step reads
    * the next char and fails at the end of the format. */
  function Digits(s: string, base: nat, index: nat): (r: HoleScan)
    requires |s| > 0
    decreases |s|
    ensures r.Scanned? ==> base <= r.base && r.base + |r.rest| == base + |s| && |r.rest| > 0
    ensures r.Scanned? ==> r.index >= index && r.spec == ""
    ensures r.Scanned? ==> !(IsDigit(r.rest[0]) && r.index < IndexLimit)
    ensures r.ScanFailed? ==> r.error.reason == MovedPastEnd && r.error.position == base + |s|
  {
    if IsDigit(s[0]) && index < IndexLimit then
      if |s| > 1 then Digits(s[1..], base + 1, index * 10 + DigitValue(s[0]))
      else ScanFailed(FormatError(base + 1, MovedPastEnd))
    else Scanned(s, base, index, "")
  }

  /** The loop skipping spaces after the index. */
  function Spaces(s: string, base: nat, index: nat): (r: HoleScan)
    requires |s| > 0
    decreases |s|
    ensures r.Scanned? ==> base <= r.base && r.base + |r.rest| == base + |s| && |r.rest| > 0
    ensures r.Scanned? ==> r.index == index && r.spec == "" && r.rest[0] != ' '
    ensures r.ScanFailed? ==> r.error.reason == MovedPastEnd && r.error.position == base + |s|
  {
    if s[0] == ' ' then
      if |s| > 1 then Spaces(s[1..], base + 1, index)
      else ScanFailed(FormatError(base + 1, MovedPastEnd))
    else Scanned(s, base, index, "")
  }

  /** The loop reading the item format after `:` up to the closing brace; `s` starts just after the
    * char most recently read. */
  function FormatText(s: string, base: nat, index: nat): (r: HoleScan)
    decreases |s|
    ensures r.Scanned? ==> base <= r.base && r.base + |r.rest| == base + |s| && |r.rest| > 0
    ensures r.Scanned? ==> r.index == index && r.rest[0] == '}'
    ensures r.Scanned? ==> r.spec == s[..r.base - base]
    ensures r.ScanFailed? ==> r.error.reason in {MovedPastEnd, BraceInsideHole}
  {
    if |s| == 0 then ScanFailed(FormatError(base, MovedPastEnd))
    else if s[0] == '}' then Scanned(s, base, index, "")
    else if s[0] == '{' then ScanFailed(FormatError(base, BraceInsideHole))
    else
      var r := FormatText(s[1..], base + 1, index);
      if r.Scanned? then Scanned(r.rest, r.base, index, [s[0]] + r.spec) else r
  }

  /** The end of a hole: `s[0]` is its closing brace. The argument index is checked only after the
    * brace has been consumed, and an empty item format becomes null. */
  function Close(s: string, base: nat, index: nat, spec: string, argCount: nat): (r: HoleResult)
    requires |s| > 0
    ensures r.HoleOk? <==> index < argCount
    ensures r.HoleOk? ==> r.segment == Hole(index, if |spec| > 0 then Some(spec) else None)
    ensures r.HoleOk? ==> r.rest == s[1..] && r.base == base + 1
    ensures r.HoleFailed? ==> r.error == FormatError(base + 1, ArgumentDoesNotExist)
  {
    if index >= argCount then HoleFailed(FormatError(base + 1, ArgumentDoesNotExist))
    else HoleOk(Hole(index, if |spec| > 0 then Some(spec) else None), s[1..], base + 1)
  }

  /** A hole after its opening brace; `s[0]` is the char that follows the brace. A closing brace right
    * after the first digit ends the hole at once. */
  function ParseHole(s: string, base: nat, argCount: nat): (r: HoleResult)
    requires |s| > 0
    ensures r.HoleOk? ==> base < r.base && r.base + |r.rest| == base + |s|
    ensures r.HoleOk? ==> r.segment.Hole? && r.segment.index < argCount
    ensures r.HoleOk? && r.segment.format.Some? ==> |r.segment.format.value| > 0
  {
    if !IsDigit(s[0]) then HoleFailed(FormatError(base, InvalidIndexCharacter))
    else if |s| == 1 then HoleFailed(FormatError(base + 1, MovedPastEnd))
    else if s[1] == '}' then Close(s[1..], base + 1, DigitValue(s[0]), "", argCount)
    else
      match Digits(s[1..], base + 1, DigitValue(s[0]))
      case ScanFailed(e) => HoleFailed(e)
      case Scanned(r1, b1, index, _) =>
        match Spaces(r1, b1, index)
        case ScanFailed(e) => HoleFailed(e)
        case Scanned(r2, b2, _, _) => AfterIndex(r2, b2, index, argCount)
  }

  /** A hole after its index and spaces: `s[0]` must close the hole or start its item format. */
  function AfterIndex(s: string, base: nat, index: nat, argCount: nat): (r: HoleResult)
    requires |s| > 0
    ensures r.HoleOk? ==> base < r.base && r.base + |r.rest| == base + |s|
    ensures r.HoleOk? ==> r.segment.Hole? && r.segment.index == index < argCount
    ensures r.HoleOk? && r.segment.format.Some? ==> |r.segment.format.value| > 0
  {
    if s[0] == ',' then HoleFailed(FormatError(base, AlignmentNotSupported))
    else if s[0] == '}' then Close(s, base, index, "", argCount)
    else if s[0] != ':' then HoleFailed(FormatError(base, UnexpectedCharacter))
    else
      match FormatText(s[1..], base + 1, index)
      case ScanFailed(e) => HoleFailed(e)
      case Scanned(r3, b3, _, spec) => Close(r3, b3, index, spec, argCount)
  }

  /** What remains of the parse once a hole's opening brace has been read. */
  function AfterOpenBrace(s: string, base: nat, argCount: nat): (p: Parsed)
    requires |s| > 0
    decreases |s|, 0
  {
    match ParseHole(s, base, argCount)
    case HoleFailed(e) => Parsed([], Some(e))
    case HoleOk(segment, rest, b) => Prepend([segment], ParseRest(rest, b, argCount))
  }

  /** The outer loop: text up to the next brace, then an escape, an error or a hole. */
  function ParseRest(s: string, base: nat, argCount: nat): (p: Parsed)
    decreases |s|, 1
  {
    if |s| == 0 then Parsed([], None)
    else
      var k := BraceIndex(s);
      if k < 0 then Parsed([Lit(s)], None)
      else if k + 1 >= |s| then Parsed([Lit(s[..k])], Some(FormatError(base + k + 1, MovedPastEnd)))
      else if s[k] == s[k + 1] then Prepend([Lit(s[..k]), Lit([s[k + 1]])], ParseRest(s[k + 2..], base + k + 2, argCount))
      else if s[k] != '{' then Parsed([Lit(s[..k])], Some(FormatError(base + k + 1, MissingOpeningBrace)))
      else Prepend([Lit(s[..k])], AfterOpenBrace(s[k + 1..], base + k + 1, argCount))
  }

  /** `WriteFormatLine(format, args)` with `args.Length == argCount`, as segments. */
  function Parse(format: string, argCount: nat): Parsed
  {
    ParseRest(format, 0, argCount)
  }

  /** Every hole's argument index is below `argCount`. */
  predicate HolesBelow(segments: seq<Segment>, argCount: nat)
    decreases |segments|
  {
    |segments| == 0 || ((segments[0].Hole? ==> segments[0].index < argCount) && HolesBelow(segments[1..], argCount))
  }

  /** Parsing only produces holes whose argument exists: the index check happens before a hole is kept. */
  lemma {:induction false} ParseHolesBelow(s: string, base: nat, argCount: nat)
    decreases |s|, 2
    ensures HolesBelow(ParseRest(s, base, argCount).segments, argCount)
  {
    if |s| > 0 {
      var k := BraceIndex(s);
      if k >= 0 {
        RoundHolesBelow(s, base, argCount, k);
      }
    }
  }

  /** The round at the first brace `s[k]` keeps only holes below `argCount`. */
  lemma {:induction false} RoundHolesBelow(s: string, base: nat, argCount: nat, k: nat)
    requires k == BraceIndex(s)
    decreases |s|, 1
    ensures HolesBelow(ParseRest(s, base, argCount).segments, argCount)
  {
    if k + 1 < |s| && s[k] == s[k + 1] {
      EscapedHolesBelow(s, base, argCount, k);
    } else if k + 1 < |s| && s[k] == '{' {
      OpenedHolesBelow(s, base, argCount, k);
    } else {
      HolesBelowCons(Lit(s[..k]), [], argCount);
      assert [Lit(s[..k])] + [] == [Lit(s[..k])];
      if k + 1 >= |s| {
        RoundAtEnd(s, base, argCount, k, base + k + 1);
      } else {
        RoundStray(s, base, argCount, k, base + k + 1);
      }
    }
  }

  lemma {:induction false} EscapedHolesBelow(s: string, base: nat, argCount: nat, k: nat)
    requires k == BraceIndex(s) && k + 1 < |s| && s[k] == s[k + 1]
    decreases |s|, 0
    ensures HolesBelow(ParseRest(s, base, argCount).segments, argCount)
  {
    var tail := ParseRest(s[k + 2..], base + k + 2, argCount);
    ParseHolesBelow(s[k + 2..], base + k + 2, argCount);
    HolesBelowCons(Lit([s[k + 1]]), tail.segments, argCount);
    HolesBelowCons(Lit(s[..k]), [Lit([s[k + 1]])] + tail.segments, argCount);
    RoundEscaped(s, base, argCount, k, base + k + 1);
  }

  lemma {:induction false} OpenedHolesBelow(s: string, base: nat, argCount: nat, k: nat)
    requires k == BraceIndex(s) && k + 1 < |s| && s[k] != s[k + 1] && s[k] == '{'
    decreases |s|, 0
    ensures HolesBelow(ParseRest(s, base, argCount).segments, argCount)
  {
    var tail := AfterOpenBrace(s[k + 1..], base + k + 1, argCount);
    OpenHolesBelow(s[k + 1..], base + k + 1, argCount);
    HolesBelowCons(Lit(s[..k]), tail.segments, argCount);
    RoundOpens(s, base, argCount, k, base + k + 1);
  }

  lemma {:induction false} HolesBelowCons(x: Segment, rest: seq<Segment>, argCount: nat)
    requires x.Hole? ==> x.index < argCount
    requires HolesBelow(rest, argCount)
    ensures HolesBelow([x] + rest, argCount)
  {
    assert ([x] + rest)[0] == x && ([x] + rest)[1..] == rest;
  }

  lemma {:induction false} OpenHolesBelow(s: string, base: nat, argCount: nat)
    requires |s| > 0
    decreases |s|, 0
    ensures HolesBelow(AfterOpenBrace(s, base, argCount).segments, argCount)
  {
    match ParseHole(s, base, argCount)
    case HoleFailed(_) =>
    case HoleOk(_, rest, b) =>
      ParseHolesBelow(rest, b, argCount);
  }

  /** Text `t` placed before whatever `p` parsed: merged into a leading literal, as one brace search
    * covers both. */
  function AddText(t: string, p: Parsed): Parsed
  {
    if |p.segments| > 0 && p.segments[0].Lit? then Parsed([Lit(t + p.segments[0].text)] + p.segments[1..], p.error)
    else if |t| == 0 then p
    else Prepend([Lit(t)], p)
  }

  /** The rendering of segments whose arguments are plain strings; a hole's item format does not
    * change a string. */
  function RenderStrings(segments: seq<Segment>, args: seq<string>): string
  {
    if |segments| == 0 then ""
    else
      var head := match segments[0]
        case Lit(t) => t
        case Hole(i, _) => if i < |args| then args[i] else "";
      head + RenderStrings(segments[1..], args)
  }

  lemma {:induction false} RenderAppend(a: seq<Segment>, b: seq<Segment>, args: seq<string>)
    ensures RenderStrings(a + b, args) == RenderStrings(a, args) + RenderStrings(b, args)
  {
    if |a| == 0 {
      assert a + b == b;
    } else {
      assert (a + b)[0] == a[0];
      assert (a + b)[1..] == a[1..] + b;
      RenderAppend(a[1..], b, args);
    }
  }

  lemma {:induction false} AddTextRenders(t: string, p: Parsed, args: seq<string>)
    ensures AddText(t, p).error == p.error
    ensures RenderStrings(AddText(t, p).segments, args) == t + RenderStrings(p.segments, args)
  {
    if |p.segments| > 0 && p.segments[0].Lit? {
      assert p.segments == [p.segments[0]] + p.segments[1..];
      RenderAppend([p.segments[0]], p.segments[1..], args);
      RenderAppend([Lit(t + p.segments[0].text)], p.segments[1..], args);
    } else if |t| > 0 {
      RenderAppend([Lit(t)], p.segments, args);
    }
  }

  lemma {:induction false} BraceIndexAfterText(t: string, e: string)
    requires forall i :: 0 <= i < |t| ==> !IsBrace(t[i])
    ensures BraceIndex(t + e) == (if BraceIndex(e) == -1 then -1 else |t| + BraceIndex(e))
  {
    if |t| == 0 {
      assert t + e == e;
    } else {
      assert (t + e)[0] == t[0];
      assert (t + e)[1..] == t[1..] + e;
      BraceIndexAfterText(t[1..], e);
    }
  }

  /** Parsing does not depend on where brace-free text is cut: a brace-free prefix only lengthens the
    * first literal and shifts nothing after it. */
  lemma {:induction false} TextPrefix(t: string, e: string, base: nat, argCount: nat)
    requires forall i :: 0 <= i < |t| ==> !IsBrace(t[i])
    ensures ParseRest(t + e, base, argCount) == AddText(t, ParseRest(e, base + |t|, argCount))
  {
    var s := t + e;
    BraceIndexAfterText(t, e);
    if |e| == 0 {
      assert s == t;
      if |t| > 0 {
        assert ParseRest(s, base, argCount) == Parsed([Lit(t)], None);
      }
    } else if BraceIndex(e) == -1 {
      assert ParseRest(e, base + |t|, argCount) == Parsed([Lit(e)], None);
      assert ParseRest(s, base, argCount) == Parsed([Lit(s)], None);
    } else {
      TextPrefixAtBrace(t, e, base, argCount);
    }
  }

  lemma {:induction false} TextPrefixAtBrace(t: string, e: string, base: nat, argCount: nat)
    requires forall i :: 0 <= i < |t| ==> !IsBrace(t[i])
    requires BraceIndex(e) != -1
    requires BraceIndex(t + e) == |t| + BraceIndex(e)
    ensures ParseRest(t + e, base, argCount) == AddText(t, ParseRest(e, base + |t|, argCount))
  {
    var k' := BraceIndex(e);
    if k' + 1 >= |e| {
      TextBeforeLastBrace(t, e, base, argCount, k');
    } else if e[k'] == e[k' + 1] {
      TextBeforeEscape(t, e, base, argCount, k');
    } else if e[k'] != '{' {
      TextBeforeStray(t, e, base, argCount, k');
    } else {
      TextBeforeHole(t, e, base, argCount, k');
    }
  }

  lemma {:induction false} TextBeforeLastBrace(t: string, e: string, base: nat, argCount: nat, k': nat)
    requires k' == BraceIndex(e) && BraceIndex(t + e) == |t| + k' && k' + 1 >= |e|
    ensures ParseRest(t + e, base, argCount) == AddText(t, ParseRest(e, base + |t|, argCount))
  {
    var s := t + e;
    var k := |t| + k';
    var at := base + k + 1;
    var x := e[..k'];
    assert s[..k] == t + x;
    RoundAtEnd(e, base + |t|, argCount, k', at);
    RoundAtEnd(s, base, argCount, k, at);
    assert [Lit(x)] + [] == [Lit(x)] && [Lit(t + x)] + [] == [Lit(t + x)];
    JoinFirstLit(t, x, [], Some(FormatError(at, MovedPastEnd)), ParseRest(e, base + |t|, argCount), ParseRest(s, base, argCount));
  }

  lemma {:induction false} TextBeforeEscape(t: string, e: string, base: nat, argCount: nat, k': nat)
    requires k' == BraceIndex(e) && BraceIndex(t + e) == |t| + k' && k' + 1 < |e| && e[k'] == e[k' + 1]
    ensures ParseRest(t + e, base, argCount) == AddText(t, ParseRest(e, base + |t|, argCount))
  {
    var s := t + e;
    var k := |t| + k';
    var at := base + k + 1;
    var x := e[..k'];
    var tail := ParseRest(e[k' + 2..], at + 1, argCount);
    var rest := [Lit([e[k' + 1]])] + tail.segments;
    assert ParseRest(e, base + |t|, argCount) == Parsed([Lit(x)] + rest, tail.error) by {
      RoundEscaped(e, base + |t|, argCount, k', at);
    }
    assert ParseRest(s, base, argCount) == Parsed([Lit(t + x)] + rest, tail.error) by {
      assert s[..k] == t + x && s[k] == e[k'] && s[k + 1] == e[k' + 1];
      assert s[k + 2..] == e[k' + 2..];
      RoundEscaped(s, base, argCount, k, at);
    }
    JoinFirstLit(t, x, rest, tail.error, ParseRest(e, base + |t|, argCount), ParseRest(s, base, argCount));
  }

  lemma {:induction false} TextBeforeStray(t: string, e: string, base: nat, argCount: nat, k': nat)
    requires k' == BraceIndex(e) && BraceIndex(t + e) == |t| + k' && k' + 1 < |e| && e[k'] != e[k' + 1] && e[k'] != '{'
    ensures ParseRest(t + e, base, argCount) == AddText(t, ParseRest(e, base + |t|, argCount))
  {
    var s := t + e;
    var k := |t| + k';
    var at := base + k + 1;
    var x := e[..k'];
    assert s[..k] == t + x && s[k] == e[k'] && s[k + 1] == e[k' + 1];
    RoundStray(e, base + |t|, argCount, k', at);
    RoundStray(s, base, argCount, k, at);
    assert [Lit(x)] + [] == [Lit(x)] && [Lit(t + x)] + [] == [Lit(t + x)];
    JoinFirstLit(t, x, [], Some(FormatError(at, MissingOpeningBrace)), ParseRest(e, base + |t|, argCount), ParseRest(s, base, argCount));
  }

  lemma {:induction false} TextBeforeHole(t: string, e: string, base: nat, argCount: nat, k': nat)
    requires k' == BraceIndex(e) && BraceIndex(t + e) == |t| + k' && k' + 1 < |e| && e[k'] != e[k' + 1] && e[k'] == '{'
    ensures ParseRest(t + e, base, argCount) == AddText(t, ParseRest(e, base + |t|, argCount))
  {
    var s := t + e;
    var k := |t| + k';
    var at := base + k + 1;
    var x := e[..k'];
    var tail := AfterOpenBrace(e[k' + 1..], at, argCount);
    assert ParseRest(e, base + |t|, argCount) == Parsed([Lit(x)] + tail.segments, tail.error) by {
      RoundOpens(e, base + |t|, argCount, k', at);
    }
    assert ParseRest(s, base, argCount) == Parsed([Lit(t + x)] + tail.segments, tail.error) by {
      assert s[..k] == t + x && s[k] == e[k'] && s[k + 1] == e[k' + 1];
      assert s[k + 1..] == e[k' + 1..];
      RoundOpens(s, base, argCount, k, at);
    }
    JoinFirstLit(t, x, tail.segments, tail.error, ParseRest(e, base + |t|, argCount), ParseRest(s, base, argCount));
  }

  /** The parse of brace-free text `t` followed by `e` is the parse of `e` with `t` joined to its first
    * literal. */
  lemma {:induction false} JoinFirstLit(t: string, x: string, rest: seq<Segment>, error: Option<FormatError>, pe: Parsed, ps: Parsed)
    requires pe == Parsed([Lit(x)] + rest, error)
    requires ps == Parsed([Lit(t + x)] + rest, error)
    ensures ps == AddText(t, pe)
  {
    AddTextLit(t, x, rest, error);
  }

  /** The outer loop's round at the first brace `s[k]` when it is the last char; `at` is the absolute
    * position just after it. */
  lemma {:induction false} RoundAtEnd(s: string, base: nat, argCount: nat, k: nat, at: nat)
    requires k == BraceIndex(s) && at == base + k + 1 && k + 1 >= |s|
    ensures ParseRest(s, base, argCount) == Parsed([Lit(s[..k])], Some(FormatError(at, MovedPastEnd)))
  {
  }

  /** The round at a doubled brace: one literal brace, and the loop goes on after the pair. */
  lemma {:induction false} RoundEscaped(s: string, base: nat, argCount: nat, k: nat, at: nat)
    requires k == BraceIndex(s) && at == base + k + 1 && k + 1 < |s| && s[k] == s[k + 1]
    ensures var tail := ParseRest(s[k + 2..], at + 1, argCount);
      ParseRest(s, base, argCount) == Parsed([Lit(s[..k])] + ([Lit([s[k + 1]])] + tail.segments), tail.error)
  {
    var tail := ParseRest(s[k + 2..], at + 1, argCount);
    assert [Lit(s[..k]), Lit([s[k + 1]])] + tail.segments == [Lit(s[..k])] + ([Lit([s[k + 1]])] + tail.segments);
  }

  /** The round at a lone closing brace: an error. */
  lemma {:induction false} RoundStray(s: string, base: nat, argCount: nat, k: nat, at: nat)
    requires k == BraceIndex(s) && at == base + k + 1 && k + 1 < |s| && s[k] != s[k + 1] && s[k] != '{'
    ensures ParseRest(s, base, argCount) == Parsed([Lit(s[..k])], Some(FormatError(at, MissingOpeningBrace)))
  {
  }

  /** The round at an opening brace that is not doubled: a hole follows. */
  lemma {:induction false} RoundOpens(s: string, base: nat, argCount: nat, k: nat, at: nat)
    requires k == BraceIndex(s) && at == base + k + 1 && k + 1 < |s| && s[k] != s[k + 1] && s[k] == '{'
    ensures var tail := AfterOpenBrace(s[k + 1..], at, argCount);
      ParseRest(s, base, argCount) == Parsed([Lit(s[..k])] + tail.segments, tail.error)
  {
  }

  /** Text before a parse that starts with a literal joins that literal. */
  lemma {:induction false} AddTextLit(t: string, x: string, rest: seq<Segment>, error: Option<FormatError>)
    ensures AddText(t, Parsed([Lit(x)] + rest, error)) == Parsed([Lit(t + x)] + rest, error)
    ensures AddText(t, Parsed([Lit(x)], error)) == Parsed([Lit(t + x)], error)
  {
    assert ([Lit(x)] + rest)[0] == Lit(x);
    assert ([Lit(x)] + rest)[1..] == rest;
    assert [Lit(x)][1..] == [];
    assert [Lit(t + x)] + [] == [Lit(t + x)];
  }

  /** Brace-free text is copied verbatim as one literal. */
  lemma {:induction false} BraceFreeTextIsVerbatim(t: string, argCount: nat)
    requires |t| > 0
    requires forall i :: 0 <= i < |t| ==> !IsBrace(t[i])
    ensures Parse(t, argCount) == Parsed([Lit(t)], None)
  {
    TextPrefix(t, "", 0, argCount);
    assert t + "" == t;
  }

  /** `{{` and `}}` each become one literal brace, and parsing continues after them. */
  lemma {:induction false} EscapedBrace(b: char, e: string, base: nat, argCount: nat)
    requires IsBrace(b)
    ensures ParseRest([b, b] + e, base, argCount) == Prepend([Lit(""), Lit([b])], ParseRest(e, base + 2, argCount))
  {
    var s := [b, b] + e;
    assert BraceIndex(s) == 0;
    assert s[..0] == "";
    assert s[2..] == e;
  }

  predicate AllDigits(ds: string)
    decreases |ds|
  {
    |ds| == 0 || (IsDigit(ds[0]) && AllDigits(ds[1..]))
  }

  predicate AllSpaces(sp: string)
    decreases |sp|
  {
    |sp| == 0 || (sp[0] == ' ' && AllSpaces(sp[1..]))
  }

  predicate BraceFree(t: string)
  {
    forall i :: 0 <= i < |t| ==> !IsBrace(t[i])
  }

  /** The decimal value of the digits `ds` read after the value `acc`. */
  function DecimalValue(acc: nat, ds: string): nat
    requires AllDigits(ds)
    decreases |ds|
  {
    if |ds| == 0 then acc else DecimalValue(acc * 10 + DigitValue(ds[0]), ds[1..])
  }

  /** Every digit of `ds` is consumed: the index read before each one is still below the limit. */
  predicate UnderLimit(acc: nat, ds: string)
    requires AllDigits(ds)
    decreases |ds|
  {
    |ds| == 0 || (acc < IndexLimit && UnderLimit(acc * 10 + DigitValue(ds[0]), ds[1..]))
  }

  lemma {:induction false} DigitsRun(ds: string, r: string, base: nat, acc: nat)
    requires AllDigits(ds) && UnderLimit(acc, ds)
    requires |r| > 0 && !IsDigit(r[0])
    ensures Digits(ds + r, base, acc) == Scanned(r, base + |ds|, DecimalValue(acc, ds), "")
  {
    if |ds| == 0 {
      assert ds + r == r;
    } else {
      assert (ds + r)[0] == ds[0];
      assert (ds + r)[1..] == ds[1..] + r;
      DigitsRun(ds[1..], r, base + 1, acc * 10 + DigitValue(ds[0]));
    }
  }

  lemma {:induction false} SpacesRun(sp: string, r: string, base: nat, index: nat)
    requires AllSpaces(sp)
    requires |r| > 0 && r[0] != ' '
    ensures Spaces(sp + r, base, index) == Scanned(r, base + |sp|, index, "")
  {
    if |sp| == 0 {
      assert sp + r == r;
    } else {
      assert (sp + r)[1..] == sp[1..] + r;
      SpacesRun(sp[1..], r, base + 1, index);
    }
  }

  lemma {:induction false} FormatTextRun(f: string, r: string, base: nat, index: nat)
    requires BraceFree(f)
    requires |r| > 0 && r[0] == '}'
    ensures FormatText(f + r, base, index) == Scanned(r, base + |f|, index, f)
  {
    if |f| == 0 {
      assert f + r == r;
    } else {
      var tail := Scanned(r, base + |f|, index, f[1..]);
      assert FormatText(f[1..] + r, base + 1, index) == tail by {
        assert BraceFree(f[1..]) by {
          forall i | 0 <= i < |f[1..]| ensures !IsBrace(f[1..][i]) { assert f[1..][i] == f[i + 1]; }
        }
        FormatTextRun(f[1..], r, base + 1, index);
      }
      assert [f[0]] + (f[1..] + r) == f + r && [f[0]] + f[1..] == f;
      assert !IsBrace(f[0]);
      FormatTextCons(f[0], f[1..] + r, base, index);
    }
  }

  lemma {:induction false} FormatTextCons(c: char, s: string, base: nat, index: nat)
    requires !IsBrace(c)
    ensures var r := FormatText(s, base + 1, index);
      FormatText([c] + s, base, index) == if r.Scanned? then Scanned(r.rest, r.base, index, [c] + r.spec) else r
  {
    assert ([c] + s)[0] == c && ([c] + s)[1..] == s;
  }

  /** The first index digit is read without a limit check; the rest: digits then spaces bring the
    * hole to the first char after them, with the decimal value of the digits as its index. */
  lemma {:induction false} HoleIndex(ds: string, sp: string, r: string, base: nat, argCount: nat)
    requires |ds| > 0 && AllDigits(ds) && UnderLimit(DigitValue(ds[0]), ds[1..])
    requires AllSpaces(sp)
    requires |r| > 0 && r[0] != ' ' && !IsDigit(r[0])
    ensures ParseHole(ds + (sp + r), base, argCount) == AfterIndex(r, base + |ds| + |sp|, DecimalValue(0, ds), argCount)
  {
    var h := ds + (sp + r);
    assert DecimalValue(0, ds) == DecimalValue(DigitValue(ds[0]), ds[1..]);
    if |ds| == 1 && |sp| == 0 {
      assert h[0] == ds[0] && h[1..] == r && ds[1..] == "";
      if r[0] == '}' {
        HoleShortcut(h, base, argCount);
      } else {
        HoleIndexAfterFirst(ds, sp, r, base, argCount);
      }
    } else {
      assert h[1] == if |ds| > 1 then ds[1] else sp[0];
      HoleIndexAfterFirst(ds, sp, r, base, argCount);
    }
  }

  lemma {:induction false} HoleShortcut(h: string, base: nat, argCount: nat)
    requires |h| > 1 && IsDigit(h[0]) && h[1] == '}'
    ensures ParseHole(h, base, argCount) == AfterIndex(h[1..], base + 1, DigitValue(h[0]), argCount)
  {
  }

  lemma {:induction false} HoleIndexAfterFirst(ds: string, sp: string, r: string, base: nat, argCount: nat)
    requires |ds| > 0 && AllDigits(ds) && UnderLimit(DigitValue(ds[0]), ds[1..])
    requires AllSpaces(sp)
    requires |r| > 0 && r[0] != ' ' && !IsDigit(r[0])
    requires (ds + (sp + r))[1] != '}'
    ensures ParseHole(ds + (sp + r), base, argCount) == AfterIndex(r, base + |ds| + |sp|, DecimalValue(DigitValue(ds[0]), ds[1..]), argCount)
  {
    var h := ds + (sp + r);
    var v := DecimalValue(DigitValue(ds[0]), ds[1..]);
    assert ParseHole(h, base, argCount) == AfterIndex(r, base + |ds| + |sp|, v, argCount) by {
      assert |h| > 1 && IsDigit(h[0]) && Digits(h[1..], base + 1, DigitValue(h[0])) == Scanned(sp + r, base + |ds|, v, "") by {
        DigitsAfterFirst(ds, sp, r, base);
      }
      assert Spaces(sp + r, base + |ds|, v) == Scanned(r, base + |ds| + |sp|, v, "") by {
        SpacesRun(sp, r, base + |ds|, v);
      }
      HoleThroughLoops(h, base, argCount, sp + r, base + |ds|, v, r, base + |ds| + |sp|);
    }
  }

  /** The index loop after the first digit stops at the first space or other char after the digits. */
  lemma {:induction false} DigitsAfterFirst(ds: string, sp: string, r: string, base: nat)
    requires |ds| > 0 && AllDigits(ds) && UnderLimit(DigitValue(ds[0]), ds[1..])
    requires AllSpaces(sp)
    requires |r| > 0 && r[0] != ' ' && !IsDigit(r[0])
    ensures var h := ds + (sp + r); |h| > 1 && h[0] == ds[0]
    ensures Digits((ds + (sp + r))[1..], base + 1, DigitValue(ds[0]))
      == Scanned(sp + r, base + |ds|, DecimalValue(DigitValue(ds[0]), ds[1..]), "")
  {
    assert (ds + (sp + r))[1..] == ds[1..] + (sp + r);
    assert (sp + r)[0] == if |sp| > 0 then sp[0] else r[0];
    DigitsRun(ds[1..], sp + r, base + 1, DigitValue(ds[0]));
  }

  lemma {:induction false} HoleThroughLoops(h: string, base: nat, argCount: nat, r1: string, b1: nat, index: nat, r2: string, b2: nat)
    requires |h| > 1 && IsDigit(h[0]) && h[1] != '}'
    requires |r1| > 0 && Digits(h[1..], base + 1, DigitValue(h[0])) == Scanned(r1, b1, index, "")
    requires |r2| > 0 && Spaces(r1, b1, index) == Scanned(r2, b2, index, "")
    ensures ParseHole(h, base, argCount) == AfterIndex(r2, b2, index, argCount)
  {
  }

  /** The item format of a hole: empty text after `:` is no format at all. */
  function FormatPart(f: Option<string>): string
  {
    if f.Some? then ":" + f.value else ""
  }

  /** `{N}`, `{N:format}` and the same with spaces after the index parse to one hole for argument N;
    * parsing goes on right after its closing brace. */
  lemma {:induction false} HoleParses(ds: string, sp: string, f: Option<string>, e: string, base: nat, argCount: nat)
    requires |ds| > 0 && AllDigits(ds) && UnderLimit(DigitValue(ds[0]), ds[1..])
    requires AllSpaces(sp)
    requires f.Some? ==> BraceFree(f.value)
    requires DecimalValue(0, ds) < argCount
    ensures ParseRest("{" + (ds + (sp + (FormatPart(f) + ("}" + e)))), base, argCount)
      == Prepend([Lit(""), Hole(DecimalValue(0, ds), if f.Some? && |f.value| > 0 then f else None)],
                 ParseRest(e, base + |ds| + |sp| + |FormatPart(f)| + 2, argCount))
  {
    var h := ds + (sp + (FormatPart(f) + ("}" + e)));
    var s := "{" + h;
    assert s[1..] == h;
    assert s[1] == ds[0];
    HoleBody(ds, sp, f, e, base + 1, argCount);
    HoleStep(s, base, argCount, Hole(DecimalValue(0, ds), if f.Some? && |f.value| > 0 then f else None), e,
      base + |ds| + |sp| + |FormatPart(f)| + 2);
  }

  lemma {:induction false} HoleBody(ds: string, sp: string, f: Option<string>, e: string, base: nat, argCount: nat)
    requires |ds| > 0 && AllDigits(ds) && UnderLimit(DigitValue(ds[0]), ds[1..])
    requires AllSpaces(sp)
    requires f.Some? ==> BraceFree(f.value)
    requires DecimalValue(0, ds) < argCount
    ensures ParseHole(ds + (sp + (FormatPart(f) + ("}" + e))), base, argCount)
      == HoleOk(Hole(DecimalValue(0, ds), if f.Some? && |f.value| > 0 then f else None), e,
                base + |ds| + |sp| + |FormatPart(f)| + 1)
  {
    var r := FormatPart(f) + ("}" + e);
    assert r[0] == ':' || r[0] == '}';
    HoleIndex(ds, sp, r, base, argCount);
    AfterIndexCloses(f, e, base + |ds| + |sp|, DecimalValue(0, ds), argCount);
  }

  /** A `{` followed by a well-formed hole: an empty literal, the hole, then the rest of the format. */
  lemma {:induction false} HoleStep(s: string, base: nat, argCount: nat, seg: Segment, rest: string, b: nat)
    requires |s| > 1 && s[0] == '{' && s[1] != '{'
    requires ParseHole(s[1..], base + 1, argCount) == HoleOk(seg, rest, b)
    ensures ParseRest(s, base, argCount) == Prepend([Lit(""), seg], ParseRest(rest, b, argCount))
  {
    OpenBraceStep(s, base, argCount);
    assert [Lit("")] + ([seg] + ParseRest(rest, b, argCount).segments) == [Lit(""), seg] + ParseRest(rest, b, argCount).segments;
  }

  /** A `{` followed by anything but another `{` opens a hole. */
  lemma {:induction false} OpenBraceStep(s: string, base: nat, argCount: nat)
    requires |s| > 1 && s[0] == '{' && s[1] != '{'
    ensures ParseRest(s, base, argCount) == Prepend([Lit("")], AfterOpenBrace(s[1..], base + 1, argCount))
  {
    assert BraceIndex(s) == 0 && s[..0] == "";
  }

  lemma {:induction false} AfterIndexCloses(f: Option<string>, e: string, base: nat, index: nat, argCount: nat)
    requires f.Some? ==> BraceFree(f.value)
    requires index < argCount
    ensures AfterIndex(FormatPart(f) + ("}" + e), base, index, argCount)
      == HoleOk(Hole(index, if f.Some? && |f.value| > 0 then f else None), e, base + |FormatPart(f)| + 1)
  {
    var c := "}" + e;
    if f.Some? {
      ColonFormatCloses(f.value, c, base, index, argCount);
    } else {
      assert FormatPart(f) + c == c;
      assert c[1..] == e;
    }
  }

  lemma {:induction false} ColonFormatCloses(f: string, c: string, base: nat, index: nat, argCount: nat)
    requires BraceFree(f) && |c| > 0 && c[0] == '}'
    requires index < argCount
    ensures AfterIndex(":" + f + c, base, index, argCount)
      == HoleOk(Hole(index, if |f| > 0 then Some(f) else None), c[1..], base + |f| + 2)
  {
    ColonFormat(f, c, base, index, argCount);
    assert Close(c, base + 1 + |f|, index, f, argCount) == HoleOk(Hole(index, if |f| > 0 then Some(f) else None), c[1..], base + |f| + 2);
  }

  /** An item format after `:` is read up to the closing brace, which then closes the hole. */
  lemma {:induction false} ColonFormat(f: string, c: string, base: nat, index: nat, argCount: nat)
    requires BraceFree(f) && |c| > 0 && c[0] == '}'
    ensures AfterIndex(":" + f + c, base, index, argCount) == Close(c, base + 1 + |f|, index, f, argCount)
  {
    var r := ":" + f + c;
    assert r[0] == ':' && r[1..] == f + c;
    assert FormatText(r[1..], base + 1, index) == Scanned(c, base + 1 + |f|, index, f) by {
      FormatTextRun(f, c, base + 1, index);
    }
  }

  /** A hole that fails after brace-free text: the text is written, then the error is raised. */
  lemma {:induction false} HoleError(t: string, h: string, argCount: nat, error: FormatError)
    requires BraceFree(t) && |h| > 0 && h[0] != '{'
    requires ParseHole(h, |t| + 1, argCount) == HoleFailed(error)
    ensures Parse(t + ("{" + h), argCount) == Parsed([Lit(t)], Some(error))
  {
    var s := "{" + h;
    assert s[1..] == h;
    TextPrefix(t, s, 0, argCount);
    OpenBraceStep(s, |t|, argCount);
    assert t + "" == t;
  }

  /** A `}` that is not doubled: "Missing opening brace" at the char after it. */
  lemma {:induction false} LoneClosingBrace(t: string, c: char, e: string, argCount: nat)
    requires BraceFree(t) && c != '}'
    ensures Parse(t + (['}', c] + e), argCount) == Parsed([Lit(t)], Some(FormatError(|t| + 1, MissingOpeningBrace)))
  {
    var s := ['}', c] + e;
    assert BraceIndex(s) == 0 && s[..0] == "" && s[1] == c;
    TextPrefix(t, s, 0, argCount);
    assert t + "" == t;
  }

  /** A brace as the last char of the format: moving to the char after it fails. */
  lemma {:induction false} BraceAtEnd(t: string, b: char, argCount: nat)
    requires BraceFree(t) && IsBrace(b)
    ensures Parse(t + [b], argCount) == Parsed([Lit(t)], Some(FormatError(|t| + 1, MovedPastEnd)))
  {
    assert BraceIndex([b]) == 0 && [b][..0] == "";
    TextPrefix(t, [b], 0, argCount);
    assert t + "" == t;
  }

  /** A non-digit right after `{` (other than the escape `{{`): "Invalid character in index". */
  lemma {:induction false} InvalidIndexStart(t: string, c: char, e: string, argCount: nat)
    requires BraceFree(t) && c != '{' && !IsDigit(c)
    ensures Parse(t + ("{" + ([c] + e)), argCount) == Parsed([Lit(t)], Some(FormatError(|t| + 1, InvalidIndexCharacter)))
  {
    HoleError(t, [c] + e, argCount, FormatError(|t| + 1, InvalidIndexCharacter));
  }

  /** `,` after the index: alignment is not supported. */
  lemma {:induction false} AlignmentRejected(t: string, ds: string, sp: string, e: string, argCount: nat)
    requires BraceFree(t)
    requires |ds| > 0 && AllDigits(ds) && UnderLimit(DigitValue(ds[0]), ds[1..])
    requires AllSpaces(sp)
    ensures Parse(t + ("{" + (ds + (sp + ([','] + e)))), argCount)
      == Parsed([Lit(t)], Some(FormatError(|t| + 1 + |ds| + |sp|, AlignmentNotSupported)))
  {
    var r := [','] + e;
    HoleIndex(ds, sp, r, |t| + 1, argCount);
    HoleError(t, ds + (sp + r), argCount, FormatError(|t| + 1 + |ds| + |sp|, AlignmentNotSupported));
  }

  /** After the index and spaces only `}` or `:` may follow. */
  lemma {:induction false} UnexpectedAfterIndex(t: string, ds: string, sp: string, c: char, e: string, argCount: nat)
    requires BraceFree(t)
    requires |ds| > 0 && AllDigits(ds) && UnderLimit(DigitValue(ds[0]), ds[1..])
    requires AllSpaces(sp)
    requires c !in {',', '}', ':', ' '} && !IsDigit(c)
    ensures Parse(t + ("{" + (ds + (sp + ([c] + e)))), argCount)
      == Parsed([Lit(t)], Some(FormatError(|t| + 1 + |ds| + |sp|, UnexpectedCharacter)))
  {
    var r := [c] + e;
    HoleIndex(ds, sp, r, |t| + 1, argCount);
    HoleError(t, ds + (sp + r), argCount, FormatError(|t| + 1 + |ds| + |sp|, UnexpectedCharacter));
  }

  /** A `{` inside the item format. */
  lemma {:induction false} BraceInsideFormat(t: string, ds: string, sp: string, f: string, e: string, argCount: nat)
    requires BraceFree(t) && BraceFree(f)
    requires |ds| > 0 && AllDigits(ds) && UnderLimit(DigitValue(ds[0]), ds[1..])
    requires AllSpaces(sp)
    ensures Parse(t + ("{" + (ds + (sp + (":" + (f + ("{" + e)))))), argCount)
      == Parsed([Lit(t)], Some(FormatError(|t| + 2 + |ds| + |sp| + |f|, BraceInsideHole)))
  {
    var r := ":" + (f + ("{" + e));
    var b := |t| + 1 + |ds| + |sp|;
    var v := DecimalValue(0, ds);
    var h := ds + (sp + r);
    var error := FormatError(|t| + 2 + |ds| + |sp| + |f|, BraceInsideHole);
    assert AfterIndex(r, b, v, argCount) == HoleFailed(error) by {
      assert r[0] == ':' && r[1..] == f + ("{" + e);
      FormatTextHitsBrace(f, e, b + 1, v);
    }
    assert ParseHole(h, |t| + 1, argCount) == HoleFailed(error) by {
      HoleIndex(ds, sp, r, |t| + 1, argCount);
    }
    assert h[0] == ds[0];
    HoleError(t, h, argCount, error);
  }

  lemma {:induction false} FormatTextHitsBrace(f: string, e: string, base: nat, index: nat)
    requires BraceFree(f)
    ensures FormatText(f + ("{" + e), base, index) == ScanFailed(FormatError(base + |f|, BraceInsideHole))
  {
    if |f| == 0 {
      assert f + ("{" + e) == "{" + e;
    } else {
      assert (f + ("{" + e))[0] == f[0];
      assert (f + ("{" + e))[1..] == f[1..] + ("{" + e);
      FormatTextHitsBrace(f[1..], e, base + 1, index);
    }
  }

  /** An item format that is never closed runs past the end of the format. */
  lemma {:induction false} UnclosedFormat(t: string, ds: string, sp: string, f: string, argCount: nat)
    requires BraceFree(t) && BraceFree(f)
    requires |ds| > 0 && AllDigits(ds) && UnderLimit(DigitValue(ds[0]), ds[1..])
    requires AllSpaces(sp)
    ensures var format := t + ("{" + (ds + (sp + (":" + f))));
      Parse(format, argCount) == Parsed([Lit(t)], Some(FormatError(|format|, MovedPastEnd)))
  {
    var r := ":" + f;
    var b := |t| + 1 + |ds| + |sp|;
    var v := DecimalValue(0, ds);
    var h := ds + (sp + r);
    var error := FormatError(|t + ("{" + (ds + (sp + (":" + f))))|, MovedPastEnd);
    assert AfterIndex(r, b, v, argCount) == HoleFailed(error) by {
      assert r[0] == ':' && r[1..] == f;
      FormatTextToEnd(f, b + 1, v);
    }
    assert ParseHole(h, |t| + 1, argCount) == HoleFailed(error) by {
      HoleIndex(ds, sp, r, |t| + 1, argCount);
    }
    assert h[0] == ds[0];
    HoleError(t, h, argCount, error);
  }

  lemma {:induction false} FormatTextToEnd(f: string, base: nat, index: nat)
    requires BraceFree(f)
    ensures FormatText(f, base, index) == ScanFailed(FormatError(base + |f|, MovedPastEnd))
  {
    if |f| > 0 {
      FormatTextToEnd(f[1..], base + 1, index);
    }
  }

  /** The argument index is checked once the hole is closed, against the number of arguments. */
  lemma {:induction false} MissingArgument(t: string, ds: string, sp: string, f: Option<string>, e: string, argCount: nat)
    requires BraceFree(t)
    requires |ds| > 0 && AllDigits(ds) && UnderLimit(DigitValue(ds[0]), ds[1..])
    requires AllSpaces(sp)
    requires f.Some? ==> BraceFree(f.value)
    requires DecimalValue(0, ds) >= argCount
    ensures Parse(t + ("{" + (ds + (sp + (FormatPart(f) + ("}" + e))))), argCount)
      == Parsed([Lit(t)], Some(FormatError(|t| + 2 + |ds| + |sp| + |FormatPart(f)|, ArgumentDoesNotExist)))
  {
    var r := FormatPart(f) + ("}" + e);
    var b := |t| + 1 + |ds| + |sp|;
    var v := DecimalValue(0, ds);
    var h := ds + (sp + r);
    var error := FormatError(|t| + 2 + |ds| + |sp| + |FormatPart(f)|, ArgumentDoesNotExist);
    assert AfterIndex(r, b, v, argCount) == HoleFailed(error) by {
      ClosedHoleIndexChecked(f, e, b, v, argCount);
    }
    assert ParseHole(h, |t| + 1, argCount) == HoleFailed(error) by {
      assert r[0] == ':' || r[0] == '}';
      HoleIndex(ds, sp, r, |t| + 1, argCount);
    }
    assert h[0] == ds[0];
    HoleError(t, h, argCount, error);
  }

  lemma {:induction false} ClosedHoleIndexChecked(f: Option<string>, e: string, base: nat, index: nat, argCount: nat)
    requires f.Some? ==> BraceFree(f.value)
    requires index >= argCount
    ensures AfterIndex(FormatPart(f) + ("}" + e), base, index, argCount)
      == HoleFailed(FormatError(base + |FormatPart(f)| + 1, ArgumentDoesNotExist))
  {
    var c := "}" + e;
    if f.Some? {
      assert FormatPart(f) + c == ":" + f.value + c;
      ColonFormat(f.value, c, base, index, argCount);
      assert Close(c, base + 1 + |f.value|, index, f.value, argCount)
        == HoleFailed(FormatError(base + |FormatPart(f)| + 1, ArgumentDoesNotExist));
    } else {
      assert FormatPart(f) + c == c;
    }
  }

  /** A format assembled from pieces: brace-free text, an escaped brace, or a one-digit hole. */
  datatype Piece = Text(text: string) | Escaped(brace: char) | Arg(index: nat)

  /** One piece fits a format with `argCount` arguments: brace-free text, a brace, or a one-digit hole
    * for an argument that exists. */
  predicate PieceFits(p: Piece, argCount: nat)
  {
    match p
    case Text(t) => BraceFree(t)
    case Escaped(b) => IsBrace(b)
    case Arg(k) => k < 10 && k < argCount
  }

  predicate WellFormedPieces(pieces: seq<Piece>, argCount: nat)
    decreases |pieces|
  {
    |pieces| == 0 || (PieceFits(pieces[0], argCount) && WellFormedPieces(pieces[1..], argCount))
  }

  /** The decimal digit for `k`; only one-digit holes are assembled. */
  function DigitChar(k: nat): (c: char)
    ensures k < 10 ==> IsDigit(c) && DigitValue(c) == k
  {
    if k < 10 then ('0' as int + k) as char else '0'
  }

  function EncodePiece(p: Piece): string
  {
    match p
    case Text(t) => t
    case Escaped(b) => [b, b]
    case Arg(k) => "{" + [DigitChar(k)] + "}"
  }

  function Encode(pieces: seq<Piece>): string
  {
    if |pieces| == 0 then "" else EncodePiece(pieces[0]) + Encode(pieces[1..])
  }

  /** What the pieces mean: the text, the single brace, or the argument. */
  function ExpectedPiece(p: Piece, args: seq<string>): string
  {
    match p
    case Text(t) => t
    case Escaped(b) => [b]
    case Arg(k) => if k < |args| then args[k] else ""
  }

  function Expected(pieces: seq<Piece>, args: seq<string>): string
  {
    if |pieces| == 0 then "" else ExpectedPiece(pieces[0], args) + Expected(pieces[1..], args)
  }

  /** Parsing an assembled format and rendering it with string arguments gives back the text, one
    * brace per escape and each argument in its hole: the escapes and holes are an exact encoding. */
  lemma {:induction false} EncodedFormatRenders(pieces: seq<Piece>, args: seq<string>, base: nat)
    requires WellFormedPieces(pieces, |args|)
    ensures ParseRest(Encode(pieces), base, |args|).error == None
    ensures RenderStrings(ParseRest(Encode(pieces), base, |args|).segments, args) == Expected(pieces, args)
  {
    EncodedRenders(pieces, args, base);
  }

  /** The format `code` parses from `base` without error and renders as `expected`. */
  predicate RendersAs(code: string, base: nat, args: seq<string>, expected: string)
  {
    var p := ParseRest(code, base, |args|);
    p.error == None && RenderStrings(p.segments, args) == expected
  }

  lemma {:induction false} EncodedRenders(pieces: seq<Piece>, args: seq<string>, base: nat)
    requires WellFormedPieces(pieces, |args|)
    ensures RendersAs(Encode(pieces), base, args, Expected(pieces, args))
  {
    if |pieces| > 0 {
      var p := pieces[0];
      var e := Encode(pieces[1..]);
      EncodedRenders(pieces[1..], args, base + |EncodePiece(p)|);
      PieceThenRest(p, e, base, args, Expected(pieces[1..], args));
      assert Encode(pieces) == EncodePiece(p) + e;
      assert Expected(pieces, args) == ExpectedPiece(p, args) + Expected(pieces[1..], args);
    }
  }

  /** One piece in front of a rest that parses without error and renders as `rest`. */
  lemma {:induction false} PieceThenRest(p: Piece, e: string, base: nat, args: seq<string>, rest: string)
    requires PieceFits(p, |args|)
    requires RendersAs(e, base + |EncodePiece(p)|, args, rest)
    ensures RendersAs(EncodePiece(p) + e, base, args, ExpectedPiece(p, args) + rest)
  {
    PieceRenders(p, e, base, args);
  }

  /** One piece in front of the rest of a format: its meaning is prepended to the rest's rendering. */
  /** Parsing `code` before `e` renders as `head` followed by whatever `e` renders, and ends with the
    * same error. */
  predicate RendersBefore(code: string, e: string, base: nat, args: seq<string>, head: string)
  {
    var tail := ParseRest(e, base + |code|, |args|);
    var whole := ParseRest(code + e, base, |args|);
    whole.error == tail.error && RenderStrings(whole.segments, args) == head + RenderStrings(tail.segments, args)
  }

  lemma {:induction false} PieceRenders(p: Piece, e: string, base: nat, args: seq<string>)
    requires PieceFits(p, |args|)
    ensures RendersBefore(EncodePiece(p), e, base, args, ExpectedPiece(p, args))
  {
    match p
    case Text(t) =>
      assert EncodePiece(p) == t && ExpectedPiece(p, args) == t;
      TextPieceRenders(t, e, base, args);
    case Escaped(b) =>
      assert EncodePiece(p) == [b, b] && ExpectedPiece(p, args) == [b];
      EscapedPieceRenders(b, e, base, args);
    case Arg(k) =>
      assert ExpectedPiece(p, args) == args[k];
      ArgPieceRenders(k, e, base, args);
  }

  lemma {:induction false} TextPieceRenders(t: string, e: string, base: nat, args: seq<string>)
    requires BraceFree(t)
    ensures RendersBefore(t, e, base, args, t)
  {
    TextPrefix(t, e, base, |args|);
    AddTextRenders(t, ParseRest(e, base + |t|, |args|), args);
  }

  lemma {:induction false} EscapedPieceRenders(b: char, e: string, base: nat, args: seq<string>)
    requires IsBrace(b)
    ensures RendersBefore([b, b], e, base, args, [b])
  {
    var tail := ParseRest(e, base + 2, |args|);
    EscapedBrace(b, e, base, |args|);
    RenderAppend([Lit(""), Lit([b])], tail.segments, args);
    assert RenderStrings([Lit(""), Lit([b])], args) == [b];
  }

  lemma {:induction false} ArgPieceRenders(k: nat, e: string, base: nat, args: seq<string>)
    requires k < 10 && k < |args|
    ensures RendersBefore(EncodePiece(Arg(k)), e, base, args, args[k])
  {
    var tail := ParseRest(e, base + 3, |args|);
    assert |EncodePiece(Arg(k))| == 3;
    ArgPieceParses(k, e, base, |args|);
    RenderAppend([Lit(""), Hole(k, None)], tail.segments, args);
    LoneHoleRenders(k, args);
  }

  lemma LoneHoleRenders(k: nat, args: seq<string>)
    requires k < |args|
    ensures RenderStrings([Lit(""), Hole(k, None)], args) == args[k]
  {
    var segments := [Lit(""), Hole(k, None)];
    assert segments[1..] == [Hole(k, None)] && segments[1..][1..] == [];
    assert RenderStrings(segments[1..][1..], args) == "";
    assert RenderStrings(segments[1..], args) == args[k] + "";
    assert RenderStrings(segments, args) == "" + RenderStrings(segments[1..], args);
  }

  lemma {:induction false} ArgPieceParses(k: nat, e: string, base: nat, argCount: nat)
    requires k < 10 && k < argCount
    ensures ParseRest(EncodePiece(Arg(k)) + e, base, argCount) == Prepend([Lit(""), Hole(k, None)], ParseRest(e, base + 3, argCount))
  {
    var d := DigitChar(k);
    var s := EncodePiece(Arg(k)) + e;
    var h := [d] + ("}" + e);
    assert s[0] == '{' && s[1..] == h;
    assert h[0] == d && h[1] == '}' && h[1..][1..] == e;
    HoleShortcut(h, base + 1, argCount);
    assert AfterIndex(h[1..], base + 2, k, argCount) == HoleOk(Hole(k, None), e, base + 3);
    HoleStep(s, base, argCount, Hole(k, None), e, base + 3);
  }

  // The cursor loops of `WriteFormatLine`, over positions in the whole format.

  /** The parse from position `pos` on. */
  function ParseAt(format: string, pos: nat, argCount: nat): Parsed
    requires pos <= |format|
  {
    ParseRest(format[pos..], pos, argCount)
  }

  /** The item format of a scan, forgotten: what the item-format loop tracks before taking its slice. */
  function Drop(r: HoleScan): HoleScan
  {
    if r.Scanned? then Scanned(r.rest, r.base, r.index, "") else r
  }

  /** A failed scan is not changed by `Drop`. */
  lemma DropFailed(r: HoleScan, e: FormatError)
    requires Drop(r) == ScanFailed(e)
    ensures r == ScanFailed(e)
  {
  }

  lemma {:induction false} ParseAtUnfold(format: string, pos: nat, argCount: nat)
    requires pos < |format|
    ensures var k := BraceIndex(format[pos..]);
      ParseAt(format, pos, argCount) ==
        if k < 0 then Parsed([Lit(format[pos..])], None)
        else if pos + k + 1 >= |format| then Parsed([Lit(format[pos..pos + k])], Some(FormatError(pos + k + 1, MovedPastEnd)))
        else if format[pos + k] == format[pos + k + 1] then
          Prepend([Lit(format[pos..pos + k]), Lit([format[pos + k + 1]])], ParseAt(format, pos + k + 2, argCount))
        else if format[pos + k] != '{' then
          Parsed([Lit(format[pos..pos + k])], Some(FormatError(pos + k + 1, MissingOpeningBrace)))
        else Prepend([Lit(format[pos..pos + k])], AfterOpenBrace(format[pos + k + 1..], pos + k + 1, argCount))
  {
    var s := format[pos..];
    var k := BraceIndex(s);
    if k >= 0 {
      assert s[..k] == format[pos..pos + k];
      assert s[k] == format[pos + k];
      if pos + k + 1 < |format| {
        assert s[k + 1] == format[pos + k + 1];
        assert s[k + 1..] == format[pos + k + 1..];
        assert s[k + 2..] == format[pos + k + 2..];
      }
    }
  }

  lemma {:induction false} ParseHoleUnfold(format: string, h: nat, argCount: nat)
    requires h < |format|
    ensures ParseHole(format[h..], h, argCount) ==
      if !IsDigit(format[h]) then HoleFailed(FormatError(h, InvalidIndexCharacter))
      else if h + 1 >= |format| then HoleFailed(FormatError(h + 1, MovedPastEnd))
      else if format[h + 1] == '}' then Close(format[h + 1..], h + 1, DigitValue(format[h]), "", argCount)
      else
        match Digits(format[h + 1..], h + 1, DigitValue(format[h]))
        case ScanFailed(e) => HoleFailed(e)
        case Scanned(_, b1, index, _) =>
          match Spaces(format[b1..], b1, index)
          case ScanFailed(e) => HoleFailed(e)
          case Scanned(_, b2, _, _) => AfterIndex(format[b2..], b2, index, argCount)
  {
    var s := format[h..];
    assert s[0] == format[h];
    if h + 1 < |format| {
      assert s[1] == format[h + 1];
      assert s[1..] == format[h + 1..];
      if IsDigit(format[h]) {
        var d := Digits(format[h + 1..], h + 1, DigitValue(format[h]));
        DigitsSuffix(format, h + 1, DigitValue(format[h]));
        if d.Scanned? {
          SpacesSuffix(format, d.base, d.index);
        }
      }
    }
  }

  lemma {:induction false} DigitsUnfold(format: string, p: nat, index: nat)
    requires p < |format|
    ensures Digits(format[p..], p, index) ==
      if IsDigit(format[p]) && index < IndexLimit then
        if p + 1 < |format| then Digits(format[p + 1..], p + 1, index * 10 + DigitValue(format[p]))
        else ScanFailed(FormatError(p + 1, MovedPastEnd))
      else Scanned(format[p..], p, index, "")
  {
    assert format[p..][0] == format[p];
    if p + 1 < |format| {
      assert format[p..][1..] == format[p + 1..];
    }
  }

  lemma {:induction false} SpacesUnfold(format: string, p: nat, index: nat)
    requires p < |format|
    ensures Spaces(format[p..], p, index) ==
      if format[p] == ' ' then
        if p + 1 < |format| then Spaces(format[p + 1..], p + 1, index)
        else ScanFailed(FormatError(p + 1, MovedPastEnd))
      else Scanned(format[p..], p, index, "")
  {
    assert format[p..][0] == format[p];
    if p + 1 < |format| {
      assert format[p..][1..] == format[p + 1..];
    }
  }

  lemma {:induction false} FormatTextUnfold(format: string, p: nat, index: nat)
    requires p <= |format|
    ensures p == |format| ==> FormatText(format[p..], p, index) == ScanFailed(FormatError(p, MovedPastEnd))
    ensures p < |format| && format[p] == '}' ==> FormatText(format[p..], p, index) == Scanned(format[p..], p, index, "")
    ensures p < |format| && format[p] == '{' ==> FormatText(format[p..], p, index) == ScanFailed(FormatError(p, BraceInsideHole))
    ensures p < |format| && !IsBrace(format[p]) ==>
      Drop(FormatText(format[p..], p, index)) == Drop(FormatText(format[p + 1..], p + 1, index))
  {
    if p < |format| {
      assert format[p..][0] == format[p];
      assert format[p..][1..] == format[p + 1..];
    }
  }

  lemma {:induction false} FormatTextStep(format: string, p: nat, index: nat)
    requires p < |format| && !IsBrace(format[p])
    ensures Drop(FormatText(format[p..], p, index)) == Drop(FormatText(format[p + 1..], p + 1, index))
  {
    FormatTextUnfold(format, p, index);
  }

  lemma {:induction false} AfterIndexUnfold(format: string, p: nat, index: nat, argCount: nat)
    requires p < |format|
    ensures AfterIndex(format[p..], p, index, argCount) ==
      if format[p] == ',' then HoleFailed(FormatError(p, AlignmentNotSupported))
      else if format[p] == '}' then Close(format[p..], p, index, "", argCount)
      else if format[p] != ':' then HoleFailed(FormatError(p, UnexpectedCharacter))
      else
        match FormatText(format[p + 1..], p + 1, index)
        case ScanFailed(e) => HoleFailed(e)
        case Scanned(r3, b3, _, spec) => Close(r3, b3, index, spec, argCount)
  {
    assert format[p..][0] == format[p];
    assert format[p..][1..] == format[p + 1..];
  }

  lemma {:induction false} CloseAt(format: string, p: nat, index: nat, spec: string, argCount: nat)
    requires p < |format|
    ensures Close(format[p..], p, index, spec, argCount) ==
      if index >= argCount then HoleFailed(FormatError(p + 1, ArgumentDoesNotExist))
      else HoleOk(Hole(index, if |spec| > 0 then Some(spec) else None), format[p + 1..], p + 1)
  {
    assert format[p..][1..] == format[p + 1..];
  }

  lemma {:induction false} DigitsSuffix(format: string, p: nat, index: nat)
    requires p < |format|
    decreases |format| - p
    ensures var r := Digits(format[p..], p, index); r.Scanned? ==> r.base < |format| && r.rest == format[r.base..]
  {
    DigitsUnfold(format, p, index);
    if IsDigit(format[p]) && index < IndexLimit && p + 1 < |format| {
      DigitsSuffix(format, p + 1, index * 10 + DigitValue(format[p]));
    }
  }

  lemma {:induction false} SpacesSuffix(format: string, p: nat, index: nat)
    requires p < |format|
    decreases |format| - p
    ensures var r := Spaces(format[p..], p, index); r.Scanned? ==> r.base < |format| && r.rest == format[r.base..]
  {
    SpacesUnfold(format, p, index);
    if format[p] == ' ' && p + 1 < |format| {
      SpacesSuffix(format, p + 1, index);
    }
  }

  lemma {:induction false} FormatTextSuffix(format: string, p: nat, index: nat)
    requires p <= |format|
    decreases |format| - p
    ensures var r := FormatText(format[p..], p, index); r.Scanned? ==> r.base < |format| && r.rest == format[r.base..]
  {
    FormatTextUnfold(format, p, index);
    if p < |format| && !IsBrace(format[p]) {
      FormatTextSuffix(format, p + 1, index);
    }
  }

  /** The loop over further index digits, with a cursor at `p`; `index` is the value so far. */
  method ReadDigits(format: string, p: nat, index: nat) returns (r: HoleScan)
    requires p < |format|
    ensures r == Digits(format[p..], p, index)
    ensures r.Scanned? ==> r.base < |format| && r.rest == format[r.base..]
  {
    DigitsSuffix(format, p, index);
    var pos := p;
    var ch := format[pos];
    var value: nat := index;
    while IsDigit(ch) && value < IndexLimit
      invariant p <= pos < |format| && ch == format[pos]
      invariant Digits(format[pos..], pos, value) == Digits(format[p..], p, index)
      decreases |format| - pos
    {
      DigitsUnfold(format, pos, value);
      value := value * 10 + DigitValue(format[pos]);
      pos := pos + 1;
      if pos >= |format| {
        assert Digits(format[p..], p, index) == ScanFailed(FormatError(pos, MovedPastEnd));
        return ScanFailed(FormatError(pos, MovedPastEnd));
      }
      assert Digits(format[p..], p, index) == Digits(format[pos..], pos, value);
      ch := format[pos];
    }
    DigitsUnfold(format, pos, value);
    assert Digits(format[p..], p, index) == Scanned(format[pos..], pos, value, "");
    return Scanned(format[pos..], pos, value, "");
  }

  /** The loop over the spaces after the index, with a cursor at `p`. */
  method ReadSpaces(format: string, p: nat, index: nat) returns (r: HoleScan)
    requires p < |format|
    ensures r == Spaces(format[p..], p, index)
    ensures r.Scanned? ==> r.base < |format| && r.rest == format[r.base..]
  {
    SpacesSuffix(format, p, index);
    var pos := p;
    var ch := format[pos];
    while ch == ' '
      invariant p <= pos < |format| && ch == format[pos]
      invariant Spaces(format[pos..], pos, index) == Spaces(format[p..], p, index)
      decreases |format| - pos
    {
      SpacesUnfold(format, pos, index);
      pos := pos + 1;
      if pos >= |format| {
        return ScanFailed(FormatError(pos, MovedPastEnd));
      }
      ch := format[pos];
    }
    SpacesUnfold(format, pos, index);
    return Scanned(format[pos..], pos, index, "");
  }

  /** The item format after the colon at `colon`, read with a cursor up to the closing brace. */
  method ReadItemFormat(format: string, colon: nat, index: nat) returns (r: HoleScan)
    requires colon < |format|
    ensures r == FormatText(format[colon + 1..], colon + 1, index)
    ensures r.Scanned? ==> r.base < |format| && r.rest == format[r.base..]
  {
    FormatTextSuffix(format, colon + 1, index);
    var pos := colon;
    while true
      invariant colon <= pos < |format|
      invariant Drop(FormatText(format[pos + 1..], pos + 1, index))
             == Drop(FormatText(format[colon + 1..], colon + 1, index))
      decreases |format| - pos
    {
      pos := pos + 1;
      if pos >= |format| {
        FormatTextUnfold(format, pos, index);
        DropFailed(FormatText(format[colon + 1..], colon + 1, index), FormatError(pos, MovedPastEnd));
        return ScanFailed(FormatError(pos, MovedPastEnd));
      }
      var ch := format[pos];
      if ch == '}' {
        break;
      }
      if ch == '{' {
        FormatTextUnfold(format, pos, index);
        DropFailed(FormatText(format[colon + 1..], colon + 1, index), FormatError(pos, BraceInsideHole));
        return ScanFailed(FormatError(pos, BraceInsideHole));
      }
      FormatTextStep(format, pos, index);
    }
    FormatTextClosed(format, colon, pos, index);
    var startingPos := colon + 1;
    return Scanned(format[pos..], pos, index, format[startingPos..pos]);
  }

  lemma {:induction false} FormatTextClosed(format: string, colon: nat, pos: nat, index: nat)
    requires colon < pos < |format| && format[pos] == '}'
    requires Drop(FormatText(format[pos..], pos, index)) == Drop(FormatText(format[colon + 1..], colon + 1, index))
    ensures FormatText(format[colon + 1..], colon + 1, index) == Scanned(format[pos..], pos, index, format[colon + 1..pos])
  {
    FormatTextUnfold(format, pos, index);
    assert format[colon + 1..pos] == format[colon + 1..][..pos - (colon + 1)];
  }

  /** The argument hole of `WriteFormatLine`, read with a cursor: `start` is the position just after the
    * opening brace, where the first index digit is expected. */
  method ReadHole(format: string, start: nat, argCount: nat) returns (r: HoleResult)
    requires start < |format|
    ensures r == ParseHole(format[start..], start, argCount)
    ensures r.HoleOk? ==> start < r.base <= |format| && r.rest == format[r.base..]
  {
    ParseHoleUnfold(format, start, argCount);
    var pos := start;
    var ch := format[pos];
    if !IsDigit(ch) {
      return HoleFailed(FormatError(pos, InvalidIndexCharacter));
    }
    var index: nat := DigitValue(ch);
    pos := pos + 1;
    if pos >= |format| {
      return HoleFailed(FormatError(pos, MovedPastEnd));
    }
    ch := format[pos];
    if ch == '}' {
      r := ReadClose(format, pos, index, "", argCount);
      return;
    }
    var scan := ReadDigits(format, pos, index);
    if scan.ScanFailed? {
      return HoleFailed(scan.error);
    }
    pos, index := scan.base, scan.index;
    scan := ReadSpaces(format, pos, index);
    if scan.ScanFailed? {
      return HoleFailed(scan.error);
    }
    r := ReadAfterIndex(format, scan.base, index, argCount);
  }

  /** The part of the hole loop after the index and its spaces, with `format[pos]` the next char. */
  method ReadAfterIndex(format: string, pos: nat, index: nat, argCount: nat) returns (r: HoleResult)
    requires pos < |format|
    ensures r == AfterIndex(format[pos..], pos, index, argCount)
    ensures r.HoleOk? ==> pos < r.base <= |format| && r.rest == format[r.base..]
  {
    AfterIndexUnfold(format, pos, index, argCount);
    var ch := format[pos];
    if ch == ',' {
      return HoleFailed(FormatError(pos, AlignmentNotSupported));
    }
    if ch == '}' {
      r := ReadClose(format, pos, index, "", argCount);
      return;
    }
    if ch != ':' {
      return HoleFailed(FormatError(pos, UnexpectedCharacter));
    }
    var scan := ReadItemFormat(format, pos, index);
    if scan.ScanFailed? {
      return HoleFailed(scan.error);
    }
    r := ReadClose(format, scan.base, index, scan.spec, argCount);
  }

  /** The closing brace at `format[pos]`: the argument index is checked only now. */
  method ReadClose(format: string, pos: nat, index: nat, itemFormat: string, argCount: nat) returns (r: HoleResult)
    requires pos < |format|
    ensures r == Close(format[pos..], pos, index, itemFormat, argCount)
    ensures r.HoleOk? ==> pos < r.base <= |format| && r.rest == format[r.base..]
  {
    CloseAt(format, pos, index, itemFormat, argCount);
    var next := pos + 1;
    if index >= argCount {
      return HoleFailed(FormatError(next, ArgumentDoesNotExist));
    }
    return HoleOk(Hole(index, if |itemFormat| > 0 then Some(itemFormat) else None), format[next..], next);
  }

  lemma {:induction false} PrependAppend(segments: seq<Segment>, first: seq<Segment>, p: Parsed)
    ensures Prepend(segments, Prepend(first, p)) == Prepend(segments + first, p)
  {
    assert segments + (first + p.segments) == (segments + first) + p.segments;
  }

  /** One round of the inner loop of `WriteFormatLine` at `pos`, as the parse from there sees it, when
    * that round ends the call: no brace is left, the last char is a brace, or a lone closing brace. */
  lemma {:induction false} LastRound(format: string, texts: seq<Segment>, pos: nat, k: int, argCount: nat, goal: Parsed)
    requires pos < |format| && k == BraceIndex(format[pos..])
    requires goal == Prepend(texts, ParseAt(format, pos, argCount))
    ensures k >= 0 ==> pos + k < |format| && IsBrace(format[pos + k])
    ensures k < 0 ==> goal == Parsed(texts + [Lit(format[pos..])], None)
    ensures k >= 0 && pos + k + 1 >= |format| ==>
      goal == Parsed(texts + [Lit(format[pos..pos + k])], Some(FormatError(pos + k + 1, MovedPastEnd)))
    ensures k >= 0 && pos + k + 1 < |format| && format[pos + k] != format[pos + k + 1] && format[pos + k] != '{' ==>
      goal == Parsed(texts + [Lit(format[pos..pos + k])], Some(FormatError(pos + k + 1, MissingOpeningBrace)))
  {
    ParseAtUnfold(format, pos, argCount);
    if k >= 0 {
      assert format[pos..][k] == format[pos + k];
    }
  }

  lemma {:induction false} EscapeParse(format: string, pos: nat, k: nat, argCount: nat)
    requires pos < |format| && k == BraceIndex(format[pos..])
    requires pos + k + 1 < |format| && format[pos + k] == format[pos + k + 1]
    ensures ParseAt(format, pos, argCount)
      == Prepend([Lit(format[pos..pos + k]), Lit([format[pos + k + 1]])], ParseAt(format, pos + k + 2, argCount))
  {
    var s := format[pos..];
    assert s[k] == format[pos + k] && s[k + 1] == format[pos + k + 1];
    assert s[..k] == format[pos..pos + k];
    assert s[k + 2..] == format[pos + k + 2..];
    assert ParseRest(s, pos, argCount) == Prepend([Lit(s[..k]), Lit([s[k + 1]])], ParseRest(s[k + 2..], pos + k + 2, argCount));
  }

  /** A round that unescapes a doubled brace and goes on at `pos + k + 2`. */
  lemma {:induction false} EscapeRound(format: string, texts: seq<Segment>, pos: nat, k: nat, argCount: nat, goal: Parsed)
    requires pos < |format| && k == BraceIndex(format[pos..])
    requires pos + k + 1 < |format| && format[pos + k] == format[pos + k + 1]
    requires goal == Prepend(texts, ParseAt(format, pos, argCount))
    ensures goal == Prepend(texts + [Lit(format[pos..pos + k]), Lit([format[pos + k + 1]])], ParseAt(format, pos + k + 2, argCount))
  {
    EscapeParse(format, pos, k, argCount);
    PrependAppend(texts, [Lit(format[pos..pos + k]), Lit([format[pos + k + 1]])], ParseAt(format, pos + k + 2, argCount));
  }

  lemma {:induction false} OpenParse(format: string, pos: nat, k: nat, argCount: nat)
    requires pos < |format| && k == BraceIndex(format[pos..])
    requires pos + k + 1 < |format| && format[pos + k] != format[pos + k + 1] && format[pos + k] == '{'
    ensures ParseAt(format, pos, argCount)
      == Prepend([Lit(format[pos..pos + k])], AfterOpenBrace(format[pos + k + 1..], pos + k + 1, argCount))
  {
    var s := format[pos..];
    assert s[k] == format[pos + k] && s[k + 1] == format[pos + k + 1];
    assert s[..k] == format[pos..pos + k];
    assert s[k + 1..] == format[pos + k + 1..];
    assert ParseRest(s, pos, argCount) == Prepend([Lit(s[..k])], AfterOpenBrace(s[k + 1..], pos + k + 1, argCount));
  }

  /** A round that stops at an opening brace, with the hole starting at `pos + k + 1`. */
  lemma {:induction false} OpenRound(format: string, texts: seq<Segment>, pos: nat, k: nat, argCount: nat, goal: Parsed)
    requires pos < |format| && k == BraceIndex(format[pos..])
    requires pos + k + 1 < |format| && format[pos + k] != format[pos + k + 1] && format[pos + k] == '{'
    requires goal == Prepend(texts, ParseAt(format, pos, argCount))
    ensures goal == Prepend(texts + [Lit(format[pos..pos + k])], AfterOpenBrace(format[pos + k + 1..], pos + k + 1, argCount))
  {
    OpenParse(format, pos, k, argCount);
    PrependAppend(texts, [Lit(format[pos..pos + k])], AfterOpenBrace(format[pos + k + 1..], pos + k + 1, argCount));
  }

  /** The inner loop of `WriteFormatLine`, from `start`: text up to each brace and escaped braces,
    * until the end of the format, an error, or an opening brace with `pos` just after it. */
  method ReadText(format: string, start: nat, argCount: nat)
    returns (texts: seq<Segment>, pos: nat, finished: bool, error: Option<FormatError>)
    requires start <= |format|
    ensures finished ==> Parsed(texts, error) == ParseAt(format, start, argCount)
    ensures !finished ==> start < pos < |format| && error == None
    ensures !finished ==> ParseAt(format, start, argCount) == Prepend(texts, AfterOpenBrace(format[pos..], pos, argCount))
  {
    texts, pos, finished, error := [], start, true, None;
    ghost var goal := ParseAt(format, start, argCount);
    while true
      invariant start <= pos <= |format| && error == None && finished
      invariant goal == Prepend(texts, ParseAt(format, pos, argCount))
      decreases |format| - pos
    {
      if pos >= |format| {
        return;
      }
      var countUntilNextBrace := BraceIndex(format[pos..]);
      LastRound(format, texts, pos, countUntilNextBrace, argCount, goal);
      if countUntilNextBrace < 0 {
        texts := texts + [Lit(format[pos..])];
        return;
      }
      var round := pos;
      pos := pos + countUntilNextBrace;
      var brace := format[pos];
      pos := pos + 1;
      if pos >= |format| {
        texts, error := texts + [Lit(format[round..round + countUntilNextBrace])], Some(FormatError(pos, MovedPastEnd));
        return;
      }
      var ch := format[pos];
      if brace == ch {
        EscapeRound(format, texts, round, countUntilNextBrace, argCount, goal);
        texts := texts + [Lit(format[round..round + countUntilNextBrace]), Lit([format[round + countUntilNextBrace + 1]])];
        pos := pos + 1;
        continue;
      }
      if brace != '{' {
        texts, error := texts + [Lit(format[round..round + countUntilNextBrace])], Some(FormatError(pos, MissingOpeningBrace));
        return;
      }
      OpenRound(format, texts, round, countUntilNextBrace, argCount, goal);
      texts, finished := texts + [Lit(format[round..round + countUntilNextBrace])], false;
      return;
    }
  }

  /** The outer loop's round from `start`: the text loop ended the call with `texts` and `failure`. */
  lemma {:induction false} FinalRound(format: string, segments: seq<Segment>, start: nat, texts: seq<Segment>,
                                      failure: Option<FormatError>, argCount: nat, goal: Parsed)
    requires start <= |format|
    requires goal == Prepend(segments, ParseAt(format, start, argCount))
    requires Parsed(texts, failure) == ParseAt(format, start, argCount)
    ensures goal == Parsed(segments + texts, failure)
  {
  }

  /** The outer loop's round from `start`: the text loop stopped at a hole at `pos`, read as `hole`. */
  lemma {:induction false} HoleRound(format: string, segments: seq<Segment>, start: nat, texts: seq<Segment>,
                                     pos: nat, hole: HoleResult, argCount: nat, goal: Parsed)
    requires start <= |format| && pos < |format|
    requires goal == Prepend(segments, ParseAt(format, start, argCount))
    requires ParseAt(format, start, argCount) == Prepend(texts, AfterOpenBrace(format[pos..], pos, argCount))
    requires hole == ParseHole(format[pos..], pos, argCount)
    requires hole.HoleOk? ==> hole.base <= |format| && hole.rest == format[hole.base..]
    ensures hole.HoleFailed? ==> goal == Parsed(segments + texts, Some(hole.error))
    ensures hole.HoleOk? ==> goal == Prepend(segments + (texts + [hole.segment]), ParseAt(format, hole.base, argCount))
  {
    if hole.HoleOk? {
      PrependAppend(texts, [hole.segment], ParseAt(format, hole.base, argCount));
      PrependAppend(segments, texts + [hole.segment], ParseAt(format, hole.base, argCount));
    }
  }

  /** The cursor loops of `WriteFormatLine`: text up to each brace, escapes, then one hole at a time.
    * The segments are returned in the order the builder writes them; `error` is the exception that
    * would end the call. */
  method ParseFormat(format: string, argCount: nat) returns (segments: seq<Segment>, error: Option<FormatError>)
    ensures Parsed(segments, error) == Parse(format, argCount)
  {
    segments, error := [], None;
    var pos: nat := 0;
    assert format[0..] == format;
    ghost var goal := Parse(format, argCount);
    while true
      invariant pos <= |format|
      invariant goal == Prepend(segments, ParseAt(format, pos, argCount))
      decreases |format| - pos
    {
      var texts, next, finished, failure := ReadText(format, pos, argCount);
      if finished {
        FinalRound(format, segments, pos, texts, failure, argCount, goal);
        segments, error := segments + texts, failure;
        return;
      }
      var hole := ReadHole(format, next, argCount);
      HoleRound(format, segments, pos, texts, next, hole, argCount, goal);
      if hole.HoleFailed? {
        segments, error := segments + texts, Some(hole.error);
        return;
      }
      segments := segments + (texts + [hole.segment]);
      pos := hole.base;
    }
  }
}
