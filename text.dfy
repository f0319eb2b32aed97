/** The behaviour of Core/Text/CodeBuilder.cs together with its extension methods (the Append,
  * Write, Written and Enumerable extension classes of Core/Text), stated as a function of what has been written so far and of
  * `_newLineIndent`.
  *
  * Unlike the Coding variant, `NewLine()` writes `DefaultNewLine` alone: `_newLineIndent` is never
  * written by a line break, it only steers `IndentBlock` and `EnsureOnStartOfNewLine`. A thrown
  * exception ends the whole chain with the state at the throw, as in the Coding variant. */
module TextCode {
  import opened Wrappers
  import opened Strings
  import opened CharClass
  import TextSplit
  import Template
  import TextHelper
  import Coding

  /** `CodeBuilder.DefaultNewLine` at its initial value; `AppendLine()` and `WriteLine()` write the
    * literal `"\r\n"`, the same string. */
  const DefaultNewLine: string := "\r\n"
  /** `BracketBlock`'s `indent ??= "    "`. */
  const DefaultIndent: string := "    "

  /** The written text and `_newLineIndent`. */
  datatype St = St(written: string, indent: string)

  /** Normal completion, or a thrown exception with the state at the throw. */
  datatype Outcome = Done(st: St) | Failed(error: Exception, st: St)

  /** What a `CBA` does to the builder it is given. */
  type Body = seq<Cmd>

  /** A per-value action (`CBA<T>` or `CBIA<T>`) applied to one element, and to its index. */
  datatype Applied = Applied(calls: Body)

  /** The calls a callback can make on this builder, extension methods included. `Append` stands
    * for every `Append` and `Write` overload of a char, span or string (a null string is empty);
    * `AppendLine` for `AppendLine(x)`, which is `Append(x)` and then `"\r\n"`. A null callback or
    * sequence does what an empty one does. */
  datatype Cmd =
    | Append(text: string)
    | AppendLine(text: string)
    | NewLine
    | Format(obj: Obj, itemFormat: Option<string>)
    | Code(code: string)
    | CodeFormat(format: string, args: seq<Obj>)
    | CodeLine(lineCode: string)
    | CodeLineFormat(lineFormat: string, lineArgs: seq<Obj>)
    | TrimStart
    | TrimEnd
    | Enumerate(items: seq<Applied>)
    | Delimit(delimiter: Body, delimited: seq<Applied>)
    | DelimitText(separator: Option<string>, separated: seq<Applied>)
    | IndentBlock(indent: string, indented: Body)
    | EnsureOnStartOfNewLine
    | BracketBlock(bracketed: Body, bracketIndent: Option<string>)
    | Comment(comment: Option<string>)
    | CommentAs(styled: Option<string>, style: Coding.CommentType)
    | If(condition: bool, ifTrue: Body, ifFalse: Body)

  /** A value handed to `Format<T>` or to a format hole, by the first case of its type switch:
    * null, a `CBA`, a string, an `IFormattable`, an `IEnumerable`, or anything else (`Write<T>`,
    * which writes its `ToString()`); either ToString may return null. */
  datatype Obj =
    | Null
    | Callback(body: Body)
    | Str(str: string)
    | Formattable(render: Option<string> -> Option<string>)
    | Sequence(elements: seq<Obj>)
    | Other(toString: Option<string>)

  // ---------------------------------------------------------------- plain writes

  function Put(st: St, text: string): St
  {
    St(st.written + text, st.indent)
  }

  /** `NewLine()`: `DefaultNewLine`, whatever the indent. */
  function PutNewLine(st: St): St
  {
    Put(st, DefaultNewLine)
  }

  /** `text.TextSplit(DefaultNewLine)`: the lines of `text`. */
  function Lines(text: string): seq<string>
  {
    TextSplit.Split(text, DefaultNewLine, TextSplit.NoOptions)
  }

  /** `CurrentNewLineIndent()`: the written text from the last `DefaultNewLine` on, or
    * `DefaultNewLine` itself when the text holds none. */
  function CurrentNewLineIndent(written: string): (r: string)
  {
    var k := LastIndexOf(written, DefaultNewLine);
    if k == -1 then DefaultNewLine else written[k..]
  }

  /** The loop of `Code(string)` over the listed lines: a NewLine before every line but the first. */
  function CodeLines(st: St, lines: seq<string>, first: bool): (r: St)
    decreases |lines|
    ensures r.indent == st.indent
  {
    if |lines| == 0 then st
    else CodeLines(Put(if first then st else PutNewLine(st), lines[0]), lines[1..], false)
  }

  function CodeText(st: St, text: string): St
  {
    CodeLines(st, Lines(text), true)
  }

  /** `TrimStart()` and `TrimEnd()` on the written text. */
  function TrimStartText(st: St): St
  {
    St(TrimStartBy(st.written, IsWhiteSpace), st.indent)
  }

  function TrimEndText(st: St): St
  {
    St(TrimEndBy(st.written, IsWhiteSpace), st.indent)
  }

  /** `EnsureOnStartOfNewLine()`: a `NewLine()` unless the text already ends with `_newLineIndent`. */
  function EnsureNewLine(st: St): St
  {
    if !EndsWith(st.written, st.indent) then PutNewLine(st) else st
  }

  // ---------------------------------------------------------------- block helpers

  /** The start of `IndentBlock(indent, …)`: the unit is written at once when the current line
    * indent is exactly the old indent, and the indent becomes `old + indent`. */
  function EnterIndent(st: St, indent: string): St
  {
    var s := if CurrentNewLineIndent(st.written) == st.indent then Put(st, indent) else st;
    St(s.written, st.indent + indent)
  }

  /** The end of `IndentBlock`: the old indent comes back, and a text that ends with the new indent
    * has that suffix replaced by the old one (`Length -= newIndent.Length`, then `Write(oldIndent)`). */
  function LeaveIndent(o: Outcome, oldIndent: string, newIndent: string): Outcome
  {
    match o
    case Failed(_, _) => o
    case Done(s) =>
      if EndsWith(s.written, newIndent) then Done(St(s.written[..|s.written| - |newIndent|] + oldIndent, oldIndent))
      else Done(St(s.written, oldIndent))
  }

  /** The start of `BracketBlock`: `TrimEnd().NewLine().AppendLine('{')`. */
  function OpenBracket(st: St): St
  {
    PutNewLine(Put(PutNewLine(TrimEndText(st)), "{"))
  }

  /** The end of `BracketBlock`: `EnsureOnStartOfNewLine().Append('}')`. */
  function CloseBracket(o: Outcome): Outcome
  {
    match o
    case Failed(_, _) => o
    case Done(s) => Done(Put(EnsureNewLine(s), "}"))
  }

  function NewLineAfter(o: Outcome): Outcome
  {
    match o
    case Failed(_, _) => o
    case Done(s) => Done(PutNewLine(s))
  }

  // ---------------------------------------------------------------- comments

  /** `Append(prefix).AppendLine(line)` for each line. */
  function PrefixLines(st: St, prefix: string, lines: seq<string>): (r: St)
    decreases |lines|
    ensures r.indent == st.indent && StartsWith(r.written, st.written)
  {
    if |lines| == 0 then st else PrefixLines(PutNewLine(Put(Put(st, prefix), lines[0])), prefix, lines[1..])
  }

  /** The first line of a multi-line comment after `"/* "`, each further line after `" * "`, then the
    * closing line `" */"`. */
  function StarredComment(st: St, lines: seq<string>): St
    requires |lines| >= 2
  {
    var first := PutNewLine(Put(Put(st, "/* "), lines[0]));
    PutNewLine(Put(PrefixLines(first, " * ", lines[1..]), " */"))
  }

  /** `Comment(string?)`: `// ` for no line, `// line` for one, the starred form for more. */
  function CommentText(st: St, comment: Option<string>): St
  {
    var lines := Lines(TextHelper.AsSpan(comment));
    if |lines| == 0 then PutNewLine(Put(st, "// "))
    else if |lines| == 1 then PutNewLine(Put(Put(st, "// "), lines[0]))
    else StarredComment(st, lines)
  }

  /** `Comment(string?, CommentType)`: any style other than SingleLine and XML is written as a
    * multi-line comment; nothing throws. */
  function StyledComment(st: St, comment: Option<string>, style: Coding.CommentType): St
  {
    var lines := Lines(TextHelper.AsSpan(comment));
    if style.SingleLine? then PrefixLines(st, "// ", lines)
    else if style.Xml? then PrefixLines(st, "/// ", lines)
    else if |lines| == 0 then PutNewLine(Put(st, "/* */"))
    else if |lines| == 1 then PutNewLine(Put(Put(Put(st, "/* "), lines[0]), " */"))
    else StarredComment(st, lines)
  }

  // ---------------------------------------------------------------- the interpreter

  /** One builder call. Every call that completes leaves `_newLineIndent` as it found it. */
  function ExecCmd(c: Cmd, st: St): (r: Outcome)
    decreases c
    ensures r.Done? ==> r.st.indent == st.indent
  {
    match c
    case Append(t) => Done(Put(st, t))
    case AppendLine(t) => Done(PutNewLine(Put(st, t)))
    case NewLine => Done(PutNewLine(st))
    case Format(v, f) => ExecObj(v, f, st)
    case Code(t) => Done(CodeText(st, t))
    case CodeFormat(f, args) => FormatLines(args, Lines(f), true, st)
    case CodeLine(t) => Done(PutNewLine(CodeText(st, t)))
    case CodeLineFormat(f, args) => NewLineAfter(FormatLines(args, Lines(f), true, st))
    case TrimStart => Done(TrimStartText(st))
    case TrimEnd => Done(TrimEndText(st))
    case Enumerate(items) => ExecBodies(items, st)
    case Delimit(_, _) => ExecDelimit(c, 0, st)
    case DelimitText(sep, items) =>
      if TextHelper.AsSpan(sep) == "" then ExecBodies(items, st)
      else ExecDelimitText(sep.value, items, true, st)
    case IndentBlock(i, body) =>
      LeaveIndent(ExecBody(body, EnterIndent(st, i)), st.indent, st.indent + i)
    case EnsureOnStartOfNewLine => Done(EnsureNewLine(st))
    case BracketBlock(body, i) => ExecBracket(body, i.GetOr(DefaultIndent), st)
    case Comment(t) => Done(CommentText(st, t))
    case CommentAs(t, style) => Done(StyledComment(st, t, style))
    case If(b, t, f) => if b then ExecBody(t, st) else ExecBody(f, st)
  }

  /** A callback: its calls in order, stopping at the first exception. */
  function ExecBody(cs: Body, st: St): (r: Outcome)
    decreases cs, 0
    ensures r.Done? ==> r.st.indent == st.indent
  {
    if |cs| == 0 then Done(st)
    else
      match ExecCmd(cs[0], st)
      case Failed(e, s) => Failed(e, s)
      case Done(s) => ExecBody(cs[1..], s)
  }

  /** `Enumerate`: the per-value bodies one after another. */
  function ExecBodies(bs: seq<Applied>, st: St): (r: Outcome)
    decreases bs, 0
    ensures r.Done? ==> r.st.indent == st.indent
  {
    if |bs| == 0 then Done(st)
    else
      match ExecBody(bs[0].calls, st)
      case Failed(e, s) => Failed(e, s)
      case Done(s) => ExecBodies(bs[1..], s)
  }

  /** `Delimit(CBA?, …)`: the delimiter action before every element but the first. */
  function ExecDelimit(c: Cmd, k: nat, st: St): (r: Outcome)
    requires c.Delimit? && k <= |c.delimited|
    decreases c, |c.delimited| - k
    ensures r.Done? ==> r.st.indent == st.indent
  {
    if k == |c.delimited| then Done(st)
    else
      match (if k == 0 then Done(st) else ExecBody(c.delimiter, st))
      case Failed(e, s) => Failed(e, s)
      case Done(s) =>
        match ExecBody(c.delimited[k].calls, s)
        case Failed(e, s') => Failed(e, s')
        case Done(s') => ExecDelimit(c, k + 1, s')
  }

  /** `Delimit(string, …)` with a non-empty delimiter: `Format(delimiter)`, which writes the string,
    * between elements. */
  function ExecDelimitText(sep: string, bs: seq<Applied>, first: bool, st: St): (r: Outcome)
    decreases bs, 1
    ensures r.Done? ==> r.st.indent == st.indent
  {
    if |bs| == 0 then Done(st)
    else
      match ExecBody(bs[0].calls, if first then st else Put(st, sep))
      case Failed(e, s) => Failed(e, s)
      case Done(s) => ExecDelimitText(sep, bs[1..], false, s)
  }

  /** `BracketBlock(body, indent)` with the indent already resolved. */
  function ExecBracket(body: Body, indent: string, st: St): (r: Outcome)
    decreases body, 1
    ensures r.Done? ==> r.st.indent == st.indent
  {
    var s := OpenBracket(st);
    CloseBracket(LeaveIndent(ExecBody(body, EnterIndent(s, indent)), s.indent, s.indent + indent))
  }

  /** `Format<T>(value, format)`. A callback runs with the indent set to `CurrentNewLineIndent()`
    * and the old indent put back afterwards; a sequence is delimited by `format ?? ","`, each element
    * formatted with no format. */
  function ExecObj(v: Obj, format: Option<string>, st: St): (r: Outcome)
    decreases v
    ensures r.Done? ==> r.st.indent == st.indent
  {
    match v
    case Null => Done(st)
    case Callback(body) =>
      (match ExecBody(body, St(st.written, CurrentNewLineIndent(st.written)))
       case Failed(e, s) => Failed(e, s)
       case Done(s) => Done(St(s.written, st.indent)))
    case Str(s) => Done(Put(st, s))
    case Formattable(render) => Done(Put(st, TextHelper.AsSpan(render(format))))
    case Sequence(es) =>
      var sep := format.GetOr(",");
      if sep == "" then ExecObjs(es, st) else ExecDelimitObjs(es, sep, true, st)
    case Other(t) => Done(Put(st, TextHelper.AsSpan(t)))
  }

  /** The elements of a sequence value, each by `Format(v)`, with no delimiter. */
  function ExecObjs(es: seq<Obj>, st: St): (r: Outcome)
    decreases es
    ensures r.Done? ==> r.st.indent == st.indent
  {
    if |es| == 0 then Done(st)
    else
      match ExecObj(es[0], None, st)
      case Failed(e, s) => Failed(e, s)
      case Done(s) => ExecObjs(es[1..], s)
  }

  /** The elements of a sequence value with the delimiter written between them. */
  function ExecDelimitObjs(es: seq<Obj>, sep: string, first: bool, st: St): (r: Outcome)
    decreases es
    ensures r.Done? ==> r.st.indent == st.indent
  {
    if |es| == 0 then Done(st)
    else
      match ExecObj(es[0], None, if first then st else Put(st, sep))
      case Failed(e, s) => Failed(e, s)
      case Done(s) => ExecDelimitObjs(es[1..], sep, false, s)
  }

  /** `Code(FormattableString)`: `WriteFormatLine` per line, with a NewLine between lines. */
  function FormatLines(args: seq<Obj>, lines: seq<string>, first: bool, st: St): (r: Outcome)
    decreases args, 1, |lines|
    ensures r.Done? ==> r.st.indent == st.indent
  {
    if |lines| == 0 then Done(st)
    else
      match WriteFormatLine(args, lines[0], if first then st else PutNewLine(st))
      case Failed(e, s) => Failed(e, s)
      case Done(s) => FormatLines(args, lines[1..], false, s)
  }

  /** `WriteFormatLine(line, args)`: the parsed segments in order, each hole by
    * `Format(args[i], fmt)`; a format error throws FormatException after the text before it. */
  function WriteFormatLine(args: seq<Obj>, line: string, st: St): (r: Outcome)
    decreases args, 0
    ensures r.Done? ==> r.st.indent == st.indent
  {
    var p := Template.Parse(line, |args|);
    Template.ParseHolesBelow(line, 0, |args|);
    match RenderSegments(args, p.segments, st)
    case Failed(e, s) => Failed(e, s)
    case Done(s) => if p.error.Some? then Failed(FormatException, s) else Done(s)
  }

  function RenderSegments(args: seq<Obj>, segments: seq<Template.Segment>, st: St): (r: Outcome)
    requires Template.HolesBelow(segments, |args|)
    decreases args, 0, |segments|
    ensures r.Done? ==> r.st.indent == st.indent
  {
    if |segments| == 0 then Done(st)
    else
      var head := match segments[0]
        case Lit(t) => Done(Put(st, t))
        case Hole(i, f) => ExecObj(args[i], f, st);
      match head
      case Failed(e, s) => Failed(e, s)
      case Done(s) => RenderSegments(args, segments[1..], s)
  }

  /** The per-value actions an indexed `Enumerate` or `Delimit` applies: the action of each element
    * together with its index. */
  function Indexed<T>(values: seq<T>, action: (T, nat) -> Body): (r: seq<Applied>)
    ensures |r| == |values|
    ensures forall i :: 0 <= i < |values| ==> r[i] == Applied(action(values[i], i))
  {
    seq(|values|, i requires 0 <= i < |values| => Applied(action(values[i], i)))
  }

  // ---------------------------------------------------------------- line breaks and indents

  /** `CurrentNewLineIndent()` always starts with `DefaultNewLine`: it is `DefaultNewLine` itself when
    * the text holds none, and otherwise the suffix of the text from its last one. */
  lemma CurrentNewLineIndentShape(written: string)
    ensures StartsWith(CurrentNewLineIndent(written), DefaultNewLine)
    ensures (forall k :: !OccursAt(written, DefaultNewLine, k)) ==> CurrentNewLineIndent(written) == DefaultNewLine
    ensures (exists k :: OccursAt(written, DefaultNewLine, k)) ==> EndsWith(written, CurrentNewLineIndent(written))
    ensures forall j :: 0 < j ==> !OccursAt(CurrentNewLineIndent(written), DefaultNewLine, j)
  {
    var k := LastIndexOf(written, DefaultNewLine);
    var r := CurrentNewLineIndent(written);
    if k != -1 {
      assert r[..|DefaultNewLine|] == written[k..k + |DefaultNewLine|];
      forall j | 0 < j
        ensures !OccursAt(r, DefaultNewLine, j)
      {
        if OccursAt(r, DefaultNewLine, j) {
          assert r[j..j + |DefaultNewLine|] == written[k + j..k + j + |DefaultNewLine|];
          assert OccursAt(written, DefaultNewLine, k + j);
        }
      }
    }
  }

  /** A text that ends with a line break is at the start of a line: its current line indent is the
    * bare `DefaultNewLine`. */
  lemma FreshLineIndent(w: string)
    ensures CurrentNewLineIndent(w + DefaultNewLine) == DefaultNewLine
  {
    var t := w + DefaultNewLine;
    assert t[|w|..|w| + |DefaultNewLine|] == DefaultNewLine;
    var k := LastIndexOf(t, DefaultNewLine);
    assert OccursAt(t, DefaultNewLine, |w|);
    assert k == |w|;
  }

  /** The loop of `Code` writes its lines joined by `DefaultNewLine`: `k` lines get exactly `k - 1`
    * line breaks, strictly between them. */
  lemma {:induction false} CodeLinesAreJoined(st: St, lines: seq<string>, first: bool)
    decreases |lines|
    ensures CodeLines(st, lines, first) == Put(st, JoinFrom(lines, DefaultNewLine, first))
  {
    if |lines| > 0 {
      var head := (if first then "" else DefaultNewLine) + lines[0];
      assert Put(if first then st else PutNewLine(st), lines[0]) == St(st.written + head, st.indent);
      CodeLinesAreJoined(St(st.written + head, st.indent), lines[1..], false);
      JoinFromStep(lines, DefaultNewLine, first);
      StringsOfTail(st.written, head, JoinFrom(lines[1..], DefaultNewLine, false));
    }
  }

  /** `Code(text)` writes `text` unchanged, whatever the indent: the line breaks it puts back between
    * the split lines are exactly the ones the split removed. */
  lemma CodeIsVerbatim(st: St, text: string)
    ensures ExecCmd(Code(text), st) == Done(Put(st, text))
  {
    CodeLinesAreJoined(st, Lines(text), true);
    TextSplit.SplitJoinRoundTrip(text, DefaultNewLine);
  }

  /** At the top level, where the indent is `DefaultNewLine`, `EnsureOnStartOfNewLine` leaves the text
    * ending with a line break, and a second call changes nothing. */
  lemma EnsureNewLineAtTopLevel(st: St)
    requires st.indent == DefaultNewLine
    ensures EndsWith(EnsureNewLine(st).written, DefaultNewLine)
    ensures EnsureNewLine(EnsureNewLine(st)) == EnsureNewLine(st)
  {
    var w := st.written + DefaultNewLine;
    assert w[|w| - |DefaultNewLine|..] == DefaultNewLine;
  }

  /** Because a NewLine never writes the indent, a text can only end with an indent longer than
    * `DefaultNewLine` by writing it: when the indent does not end with a line break, every
    * `EnsureOnStartOfNewLine` after a line break writes one more. */
  lemma EnsureNewLineRepeats(st: St)
    requires EndsWith(st.written, DefaultNewLine)
    requires |st.indent| > 0 && st.indent[|st.indent| - 1] != '\n'
    ensures EnsureNewLine(st) == PutNewLine(st)
    ensures EnsureNewLine(EnsureNewLine(st)) == Put(st, DefaultNewLine + DefaultNewLine)
  {
    var w := st.written;
    assert w[|w| - 1] == '\n' by {
      assert w[|w| - |DefaultNewLine|..][1] == w[|w| - 1];
    }
    EndsWithLastChar(w, st.indent);
    var w2 := w + DefaultNewLine;
    assert w2[|w2| - 1] == '\n';
    EndsWithLastChar(w2, st.indent);
    StringsOfTail(w, DefaultNewLine, DefaultNewLine);
  }

  lemma IndentBlockStep(c: Cmd, st: St)
    requires c.IndentBlock?
    ensures ExecCmd(c, st) == LeaveIndent(ExecBody(c.indented, EnterIndent(st, c.indent)), st.indent, st.indent + c.indent)
  {
  }

  /** After `IndentBlock(indent, body)` completes, `_newLineIndent` is back to its old value, and a
    * text ending with the inner indent has that suffix replaced by the old indent. */
  lemma IndentBlockRestoresIndent(indent: string, body: Body, st: St)
    ensures ExecCmd(IndentBlock(indent, body), st).Done? ==> ExecCmd(IndentBlock(indent, body), st).st.indent == st.indent
    ensures var o := ExecBody(body, EnterIndent(st, indent));
      o.Failed? ==> ExecCmd(IndentBlock(indent, body), st) == o
    ensures var o := ExecBody(body, EnterIndent(st, indent));
      o.Done? && EndsWith(o.st.written, st.indent + indent) ==>
        ExecCmd(IndentBlock(indent, body), st) == Done(St(o.st.written[..|o.st.written| - |st.indent + indent|] + st.indent, st.indent))
    ensures var o := ExecBody(body, EnterIndent(st, indent));
      o.Done? && !EndsWith(o.st.written, st.indent + indent) ==>
        ExecCmd(IndentBlock(indent, body), st) == Done(St(o.st.written, st.indent))
  {
    IndentBlockStep(IndentBlock(indent, body), st);
  }

  /** A body of one call does what the call does. */
  lemma OneCallBody(c: Cmd, st: St)
    ensures ExecBody([c], st) == ExecCmd(c, st)
  {
    assert [c][1..] == [];
  }

  /** Two appended lines in an indent block started on a fresh top-level line: the first line gets
    * the indent, the second does not, because NewLine writes `DefaultNewLine` only. */
  lemma IndentReachesFirstLineOnly(indent: string, a: string, b: string, st: St)
    requires st.indent == DefaultNewLine && CurrentNewLineIndent(st.written) == DefaultNewLine
    requires |indent| > 0 && indent[|indent| - 1] != '\n'
    ensures ExecCmd(IndentBlock(indent, [AppendLine(a), AppendLine(b)]), st) ==
      Done(St(st.written + indent + a + DefaultNewLine + b + DefaultNewLine, st.indent))
  {
    var inner := st.indent + indent;
    var s1 := St(st.written + indent, inner);
    assert EnterIndent(st, indent) == s1;
    var s2 := St(s1.written + a + DefaultNewLine, inner);
    var w := s2.written + b + DefaultNewLine;
    var body := [AppendLine(a), AppendLine(b)];
    assert body[1..] == [AppendLine(b)];
    OneCallBody(AppendLine(b), s2);
    assert ExecBody(body, s1) == ExecBody([AppendLine(b)], s2);
    assert ExecBody(body, s1) == Done(St(w, inner));
    EndsWithLastChar(w, inner);
    IndentBlockStep(IndentBlock(indent, body), st);
  }

  // ---------------------------------------------------------------- trimming

  /** `TrimStart` and `TrimEnd` are idempotent, and a buffer of whitespace only trims to nothing. */
  lemma TrimIsIdempotent(st: St)
    ensures TrimStartText(TrimStartText(st)) == TrimStartText(st)
    ensures TrimEndText(TrimEndText(st)) == TrimEndText(st)
    ensures IsBlank(st.written) ==> TrimStartText(st).written == "" && TrimEndText(st).written == ""
  {
    var r := TrimStartBy(st.written, IsWhiteSpace);
    if |r| > 0 {
      assert LeadingCount(r, IsWhiteSpace) == 0;
    }
    var e := TrimEndBy(st.written, IsWhiteSpace);
    if |e| > 0 {
      assert TrailingCount(e, IsWhiteSpace) == 0;
    }
  }

  // ---------------------------------------------------------------- comments

  /** A comment of one line is written `// line`; a null comment as `// ` alone. */
  lemma CommentOfOneLine(st: St, text: string)
    requires IndexOfFrom(text, DefaultNewLine, 0) == -1
    ensures CommentText(st, Some(text)) == St(st.written + "// " + text + DefaultNewLine, st.indent)
    ensures CommentText(st, None) == St(st.written + "// " + DefaultNewLine, st.indent)
  {
    TextSplit.SplitWithoutSeparator(text, DefaultNewLine);
    TextSplit.EmptyInputYieldsOneEmptySlice(DefaultNewLine);
  }

  /** A comment of two or more lines opens with `/* `, continues each further line with ` * ` and
    * closes with a line ` */`. */
  lemma CommentOfManyLines(st: St, text: string)
    requires |Lines(text)| >= 2
    ensures var lines := Lines(text);
      CommentText(st, Some(text)) ==
        PutNewLine(Put(PrefixLines(PutNewLine(Put(Put(st, "/* "), lines[0])), " * ", lines[1..]), " */"))
  {
  }

  /** A styled comment of a type other than SingleLine or XML is a multi-line one: nothing throws. */
  lemma UndefinedStyleIsMultiLine(st: St, comment: Option<string>, code: int)
    ensures StyledComment(st, comment, Coding.Undefined(code)) == StyledComment(st, comment, Coding.MultiLine)
    ensures StyledComment(st, None, Coding.MultiLine) == St(st.written + "/* " + " */" + DefaultNewLine, st.indent)
  {
    TextSplit.EmptyInputYieldsOneEmptySlice(DefaultNewLine);
  }

  // ---------------------------------------------------------------- sequencing

  /** Calls made after an outcome: they run on the state it left, unless it threw. */
  function Then(o: Outcome, b: Body): Outcome
  {
    match o
    case Failed(_, _) => o
    case Done(s) => ExecBody(b, s)
  }

  /** Running two call lists back to back is running their concatenation. */
  lemma {:induction false} ExecBodyAppend(a: Body, b: Body, st: St)
    decreases |a|
    ensures ExecBody(a + b, st) == Then(ExecBody(a, st), b)
  {
    if |a| == 0 {
      assert a + b == b;
    } else {
      assert (a + b)[0] == a[0];
      assert (a + b)[1..] == a[1..] + b;
      match ExecCmd(a[0], st)
      case Failed(e, s) =>
      case Done(s) =>
        ExecBodyAppend(a[1..], b, s);
    }
  }

  /** All the calls of the applied actions, in order. */
  function Flatten(bs: seq<Applied>): Body
  {
    if |bs| == 0 then [] else bs[0].calls + Flatten(bs[1..])
  }

  /** The calls `Delimit` makes: each element's action, with the delimiter's calls between
    * consecutive elements and nowhere else. */
  function Interleave(delimiter: Body, bs: seq<Applied>, first: bool): Body
  {
    if |bs| == 0 then []
    else (if first then [] else delimiter) + (bs[0].calls + Interleave(delimiter, bs[1..], false))
  }

  lemma {:induction false} BodiesAreFlattened(bs: seq<Applied>, st: St)
    decreases |bs|
    ensures ExecBodies(bs, st) == ExecBody(Flatten(bs), st)
  {
    if |bs| > 0 {
      ExecBodyAppend(bs[0].calls, Flatten(bs[1..]), st);
      match ExecBody(bs[0].calls, st)
      case Failed(e, s) =>
      case Done(s) =>
        BodiesAreFlattened(bs[1..], s);
    }
  }

  lemma {:induction false} DelimitIsInterleaved(c: Cmd, k: nat, st: St)
    requires c.Delimit? && k <= |c.delimited|
    decreases |c.delimited| - k
    ensures ExecDelimit(c, k, st) == ExecBody(Interleave(c.delimiter, c.delimited[k..], k == 0), st)
  {
    if k < |c.delimited| {
      var bs := c.delimited[k..];
      assert bs[0] == c.delimited[k];
      assert bs[1..] == c.delimited[k + 1..];
      var pre: Body := if k == 0 then [] else c.delimiter;
      var rest := Interleave(c.delimiter, bs[1..], false);
      ExecBodyAppend(pre, bs[0].calls + rest, st);
      assert ExecBody(pre, st) == (if k == 0 then Done(st) else ExecBody(c.delimiter, st));
      match ExecBody(pre, st)
      case Failed(e, s) =>
      case Done(s) =>
        ExecBodyAppend(bs[0].calls, rest, s);
        match ExecBody(bs[0].calls, s)
        case Failed(e, s') =>
        case Done(s') =>
          DelimitIsInterleaved(c, k + 1, s');
    }
  }

  /** `Enumerate(values, action)` invokes the action once per element, in order. */
  lemma EnumerateRunsEachInOrder(c: Cmd, st: St)
    requires c.Enumerate?
    ensures ExecCmd(c, st) == ExecBody(Flatten(c.items), st)
  {
    BodiesAreFlattened(c.items, st);
  }

  /** `Delimit(CBA, values, action)` runs the delimiter exactly between consecutive elements. */
  lemma DelimitRunsDelimiterBetween(c: Cmd, st: St)
    requires c.Delimit?
    ensures ExecCmd(c, st) == ExecBody(Interleave(c.delimiter, c.delimited, true), st)
  {
    DelimitIsInterleaved(c, 0, st);
    assert c.delimited[0..] == c.delimited;
  }

  /** `n` copies of a body, one after another. */
  function RepeatBody(b: Body, n: nat): Body
  {
    if n == 0 then [] else b + RepeatBody(b, n - 1)
  }

  /** The actions of a null per-value action over `n` values: each does nothing. */
  function NoActions(n: nat): (r: seq<Applied>)
    ensures |r| == n && forall i :: 0 <= i < n ==> r[i].calls == []
  {
    seq(n, _ => Applied([]))
  }

  lemma {:induction false} InterleaveOfNoActions(delimiter: Body, n: nat, first: bool)
    decreases n
    ensures Interleave(delimiter, NoActions(n), first) ==
      if n == 0 then [] else RepeatBody(delimiter, if first then n - 1 else n)
  {
    if n > 0 {
      assert NoActions(n)[1..] == NoActions(n - 1);
      InterleaveOfNoActions(delimiter, n - 1, false);
      if n - 1 == 0 {
        assert RepeatBody(delimiter, 1) == delimiter + [];
      }
    }
  }

  /** With a null value action, `Delimit` over `n` values still runs the delimiter `n - 1` times. */
  lemma NullActionStillDelimits(delimiter: Body, n: nat, st: St)
    requires n > 0
    ensures ExecCmd(Delimit(delimiter, NoActions(n)), st) == ExecBody(RepeatBody(delimiter, n - 1), st)
  {
    DelimitRunsDelimiterBetween(Delimit(delimiter, NoActions(n)), st);
    InterleaveOfNoActions(delimiter, n, true);
  }

  /** `Delimit(string, …)` with a null or empty delimiter is `Enumerate`. */
  lemma DelimitWithoutSeparatorEnumerates(c: Cmd, st: St)
    requires c.DelimitText? && TextHelper.AsSpan(c.separator) == ""
    ensures ExecCmd(c, st) == ExecCmd(Enumerate(c.separated), st)
  {
  }

  /** `Delimit(string, …)` with a delimiter is `Delimit` with the callback `b => b.Format(delimiter)`. */
  lemma DelimitWithSeparatorIsFormat(c: Cmd, st: St)
    requires c.DelimitText? && TextHelper.AsSpan(c.separator) != ""
    ensures ExecCmd(c, st) == ExecCmd(Delimit([Format(Str(c.separator.value), None)], c.separated), st)
  {
    var d := Delimit([Format(Str(c.separator.value), None)], c.separated);
    DelimitTextIsDelimit(c.separator.value, d, 0, st);
    assert d.delimited[0..] == c.separated;
  }

  lemma {:induction false} DelimitTextIsDelimit(sep: string, d: Cmd, k: nat, st: St)
    requires d.Delimit? && d.delimiter == [Format(Str(sep), None)] && k <= |d.delimited|
    decreases |d.delimited| - k
    ensures ExecDelimitText(sep, d.delimited[k..], k == 0, st) == ExecDelimit(d, k, st)
  {
    if k < |d.delimited| {
      var bs := d.delimited[k..];
      assert bs[0] == d.delimited[k];
      assert bs[1..] == d.delimited[k + 1..];
      OneCallBody(Format(Str(sep), None), st);
      var s0 := if k == 0 then st else Put(st, sep);
      match ExecBody(bs[0].calls, s0)
      case Failed(e, s) =>
      case Done(s) =>
        DelimitTextIsDelimit(sep, d, k + 1, s);
    }
  }

  // ---------------------------------------------------------------- values and format lines

  predicate AllStrings(es: seq<Obj>)
  {
    forall i :: 0 <= i < |es| ==> es[i].Str?
  }

  function StrValues(es: seq<Obj>): (r: seq<string>)
    requires AllStrings(es)
    ensures |r| == |es| && forall i :: 0 <= i < |es| ==> r[i] == es[i].str
  {
    if |es| == 0 then [] else [es[0].str] + StrValues(es[1..])
  }

  function StrObjs(args: seq<string>): (r: seq<Obj>)
    ensures |r| == |args| && AllStrings(r) && StrValues(r) == args
  {
    if |args| == 0 then [] else [Str(args[0])] + StrObjs(args[1..])
  }

  lemma {:induction false} DelimitedStrings(es: seq<Obj>, sep: string, first: bool, st: St)
    requires AllStrings(es)
    decreases |es|
    ensures ExecDelimitObjs(es, sep, first, st) == Done(Put(st, JoinFrom(StrValues(es), sep, first)))
  {
    if |es| > 0 {
      var head := (if first then "" else sep) + es[0].str;
      var s0 := if first then st else Put(st, sep);
      assert ExecObj(es[0], None, s0) == Done(St(st.written + head, st.indent));
      DelimitedStrings(es[1..], sep, false, St(st.written + head, st.indent));
      assert StrValues(es)[1..] == StrValues(es[1..]);
      JoinFromStep(StrValues(es), sep, first);
      StringsOfTail(st.written, head, JoinFrom(StrValues(es[1..]), sep, false));
    }
  }

  /** A sequence of strings written by `Format(values, format)` is joined by `format ?? ","`,
    * strictly between consecutive elements. */
  lemma FormatOfStringSequence(es: seq<Obj>, format: Option<string>, st: St)
    requires AllStrings(es) && format.GetOr(",") != ""
    ensures ExecObj(Sequence(es), format, st) == Done(Put(st, Join(StrValues(es), format.GetOr(","))))
  {
    DelimitedStrings(es, format.GetOr(","), true, st);
  }

  /** The segments of a parsed line, each hole filled by a string argument, written in order. */
  lemma {:induction false} SegmentsOfStrings(args: seq<string>, segments: seq<Template.Segment>, st: St)
    requires Template.HolesBelow(segments, |args|)
    decreases |segments|
    ensures RenderSegments(StrObjs(args), segments, st) == Done(Put(st, Template.RenderStrings(segments, args)))
  {
    if |segments| > 0 {
      var head := if segments[0].Lit? then segments[0].text else args[segments[0].index];
      HeadOfStrings(args, segments, st, head);
      SegmentsOfStrings(args, segments[1..], Put(st, head));
      StringsOfTail(st.written, head, Template.RenderStrings(segments[1..], args));
    }
  }

  /** The first segment of a line rendered with string arguments: its literal text or its argument. */
  lemma HeadOfStrings(args: seq<string>, segments: seq<Template.Segment>, st: St, head: string)
    requires |segments| > 0 && Template.HolesBelow(segments, |args|)
    requires head == if segments[0].Lit? then segments[0].text else args[segments[0].index]
    ensures RenderSegments(StrObjs(args), segments, st) == RenderSegments(StrObjs(args), segments[1..], Put(st, head))
    ensures Template.RenderStrings(segments, args) == head + Template.RenderStrings(segments[1..], args)
  {
    if segments[0].Hole? {
      assert StrObjs(args)[segments[0].index] == Str(args[segments[0].index]);
    }
  }

  /** `WriteFormatLine` with string arguments writes the rendered line, and throws FormatException
    * after the text before the error when the line is malformed. */
  lemma FormatLineOfStrings(args: seq<string>, line: string, st: St)
    ensures var p := Template.Parse(line, |args|);
      WriteFormatLine(StrObjs(args), line, st) ==
        if p.error.Some? then Failed(FormatException, Put(st, Template.RenderStrings(p.segments, args)))
        else Done(Put(st, Template.RenderStrings(p.segments, args)))
  {
    Template.ParseHolesBelow(line, 0, |args|);
    SegmentsOfStrings(args, Template.Parse(line, |args|).segments, st);
  }

  /** Each line of a format string rendered with string arguments. */
  function RenderedLines(lines: seq<string>, args: seq<string>): seq<string>
  {
    if |lines| == 0 then []
    else [Template.RenderStrings(Template.Parse(lines[0], |args|).segments, args)] + RenderedLines(lines[1..], args)
  }

  predicate WellFormedLines(lines: seq<string>, argCount: nat)
  {
    forall i :: 0 <= i < |lines| ==> Template.Parse(lines[i], argCount).error.None?
  }

  lemma FormatLinesStep(args: seq<string>, lines: seq<string>, first: bool, st: St)
    requires |lines| > 0 && Template.Parse(lines[0], |args|).error.None?
    ensures var line := Template.RenderStrings(Template.Parse(lines[0], |args|).segments, args);
      FormatLines(StrObjs(args), lines, first, st) ==
        FormatLines(StrObjs(args), lines[1..], false, St(st.written + ((if first then "" else DefaultNewLine) + line), st.indent))
  {
    var s0 := if first then st else PutNewLine(st);
    FormatLineOfStrings(args, lines[0], s0);
    var line := Template.RenderStrings(Template.Parse(lines[0], |args|).segments, args);
    StringsOfTail(st.written, if first then "" else DefaultNewLine, line);
    assert Put(s0, line) == St(st.written + ((if first then "" else DefaultNewLine) + line), st.indent);
    assert WriteFormatLine(StrObjs(args), lines[0], s0) == Done(Put(s0, line));
  }

  /** `Code(FormattableString)` over well-formed lines writes the rendered lines with one
    * `DefaultNewLine` between consecutive lines, whatever the indent. */
  lemma {:induction false} FormatLinesAreJoined(args: seq<string>, lines: seq<string>, first: bool, st: St)
    requires WellFormedLines(lines, |args|)
    decreases |lines|
    ensures FormatLines(StrObjs(args), lines, first, st) == Done(Put(st, JoinFrom(RenderedLines(lines, args), DefaultNewLine, first)))
  {
    if |lines| > 0 {
      FormatLinesStep(args, lines, first, st);
      var line := Template.RenderStrings(Template.Parse(lines[0], |args|).segments, args);
      var head := (if first then "" else DefaultNewLine) + line;
      assert WellFormedLines(lines[1..], |args|) by {
        forall i | 0 <= i < |lines[1..]|
          ensures Template.Parse(lines[1..][i], |args|).error.None?
        {
          assert lines[1..][i] == lines[i + 1];
        }
      }
      FormatLinesAreJoined(args, lines[1..], false, St(st.written + head, st.indent));
      JoinFromStep(RenderedLines(lines, args), DefaultNewLine, first);
      StringsOfTail(st.written, head, JoinFrom(RenderedLines(lines[1..], args), DefaultNewLine, false));
    }
  }

  /** A callback handed to `Format` runs with the current line indent as its indent, and the
    * builder's indent is back afterwards. */
  lemma FormatCallbackIndent(body: Body, format: Option<string>, st: St)
    ensures match ExecBody(body, St(st.written, CurrentNewLineIndent(st.written)))
      case Done(s) => ExecObj(Callback(body), format, st) == Done(St(s.written, st.indent))
      case Failed(e, s) => ExecObj(Callback(body), format, st) == Failed(e, s)
  {
  }

  // ---------------------------------------------------------------- one list element at a time

  /** The loop of `Code` over `lines[k..]`: element `k`, after a NewLine unless it is the first. */
  lemma CodeLinesAt(st: St, lines: seq<string>, k: nat, first: bool)
    requires k < |lines|
    ensures CodeLines(st, lines[k..], first) == CodeLines(Put(if first then st else PutNewLine(st), lines[k]), lines[k + 1..], false)
  {
    assert lines[k..][0] == lines[k] && lines[k..][1..] == lines[k + 1..];
  }

  /** The prefixed lines from element `k` on: `Append(prefix).AppendLine(lines[k])`, then the rest. */
  lemma PrefixLinesAt(st: St, prefix: string, lines: seq<string>, k: nat)
    requires k < |lines|
    ensures PrefixLines(st, prefix, lines[k..]) == PrefixLines(PutNewLine(Put(Put(st, prefix), lines[k])), prefix, lines[k + 1..])
  {
    assert lines[k..][0] == lines[k] && lines[k..][1..] == lines[k + 1..];
  }

  /** `Code(FormattableString)` over `lines` from `st` ends as `goal`. */
  predicate FormatsTo(args: seq<Obj>, lines: seq<string>, first: bool, st: St, goal: Outcome)
  {
    FormatLines(args, lines, first, st) == goal
  }

  /** Line `k`: a NewLine unless it is the first, then `WriteFormatLine`, and the lines after it only if
    * that one did not throw. */
  lemma FormatsToAt(args: seq<Obj>, lines: seq<string>, k: nat, first: bool, st: St, goal: Outcome)
    requires k < |lines| && FormatsTo(args, lines[k..], first, st, goal)
    ensures var o := WriteFormatLine(args, lines[k], if first then st else PutNewLine(st));
      if o.Failed? then o == goal else FormatsTo(args, lines[k + 1..], false, o.st, goal)
  {
    assert lines[k..][0] == lines[k] && lines[k..][1..] == lines[k + 1..];
  }

  /** `Delimit(string, …)` over `bs` from `st` ends as `goal`. */
  predicate DelimitsTo(sep: string, bs: seq<Applied>, first: bool, st: St, goal: Outcome)
  {
    ExecDelimitText(sep, bs, first, st) == goal
  }

  lemma DelimitsToAt(sep: string, bs: seq<Applied>, k: nat, first: bool, st: St, goal: Outcome)
    requires k < |bs| && DelimitsTo(sep, bs[k..], first, st, goal)
    ensures var o := ExecBody(bs[k].calls, if first then st else Put(st, sep));
      if o.Failed? then o == goal else DelimitsTo(sep, bs[k + 1..], false, o.st, goal)
  {
    assert bs[k..][0] == bs[k] && bs[k..][1..] == bs[k + 1..];
  }
}
