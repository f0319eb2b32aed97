/** The behaviour of Core/Coding/CodeBuilder.cs, the builder the interface writers emit through, stated
  * as a function of what has been written so far and of `_newLineIndent`.
  *
  * A `CBA` callback is a `Body`: the builder calls it makes, in order, so the semantics can walk it.
  * A thrown exception ends the whole chain, carrying the state at the throw (no call restores
  * `_newLineIndent` on the way out, as none of them uses try/finally). */
module Coding {
  import opened Wrappers
  import opened Strings
  import opened CharClass
  import TextSplit
  import Template
  import TextHelper

  /** `CodeBuilder.DefaultNewLine` and `CodeBuilder.DefaultIndent`, at their initial values. */
  const DefaultNewLine: string := "\r\n"
  const DefaultIndent: string := "    "

  /** The written text and `_newLineIndent`, the string every `NewLine()` writes. */
  datatype St = St(written: string, indent: string)

  /** Normal completion, or a thrown exception with the state at the throw. */
  datatype Outcome = Done(st: St) | Failed(error: Exception, st: St)

  /** The styles `Comment(string?, CommentType)` distinguishes; `Undefined` is any other enum value. */
  datatype CommentType = SingleLine | Xml | MultiLine | Undefined(code: int)

  /** What a `CBA` does to the builder it is given. */
  type Body = seq<Cmd>

  /** A per-value action (`CBA<T>` or `CBIA<T>`) applied to one element, and to its index. */
  datatype Applied = Applied(calls: Body)

  /** The builder calls a callback can make. `Enumerate` and the `Delimit` overloads take one applied
    * action per element. A null callback does what an empty one does and a null sequence what an
    * empty one does, so both are written as empty; `Enumerate(values, null)` writes nothing and is
    * `Enumerate([])`. */
  datatype Cmd =
    | Append(text: string)
    | AppendLine(text: string)
    | NewLine
    | NewLines(count: int)
    | Value(obj: Obj, itemFormat: Option<string>)
    | Code(code: string)
    | CodeFormat(format: string, args: seq<Obj>)
    | CodeLine(lineCode: string)
    | CodeBlock(blockFormat: string, blockArgs: seq<Obj>)
    | TrimStart
    | TrimEnd
    | Enumerate(items: seq<Applied>)
    | Delimit(delimiter: Body, delimited: seq<Applied>)
    | DelimitText(separator: Option<string>, separated: seq<Applied>)
    | IndentBlock(indent: string, indented: Body)
    | EnsureOnStartOfNewLine
    | BracketBlock(bracketed: Body, bracketIndent: Option<string>)
    | Directive(name: string, argument: Option<string>, directiveBody: Body, end: Option<string>)
    | Using(nameSpace: string)
    | Namespace(fileNamespace: Option<string>)
    | NamespaceBlock(blockNamespace: string, namespaced: Body)
    | Comment(comment: Option<string>)
    | CommentAs(styled: Option<string>, style: CommentType)
    | If(condition: bool, ifTrue: Body, ifFalse: Body)

  /** A value handed to `Value<T>` or to a format hole, by the first case of the type switch it
    * meets: null, a `CBA`, a string, an `IFormattable` (its `ToString(format, provider)`), an
    * `IEnumerable`, or anything else (its `ToString()`); either ToString may return null. */
  datatype Obj =
    | Null
    | Callback(body: Body)
    | Str(str: string)
    | Formattable(render: Option<string> -> Option<string>)
    | Sequence(elements: seq<Obj>)
    | Other(toString: Option<string>)

  // ---------------------------------------------------------------- plain writes

  function Put(st: St, text: string): St
  {
    St(st.written + text, st.indent)
  }

  /** `NewLine()`: `Append(_newLineIndent)`. */
  function PutNewLine(st: St): St
  {
    Put(st, st.indent)
  }

  /** `NewLines(count)`: the loop `for (i = 0; i < count; i++) Append(_newLineIndent)`. */
  function PutNewLines(st: St, count: int): (r: St)
    decreases count
    ensures r == St(st.written + Repeat(st.indent, if count <= 0 then 0 else count), st.indent)
  {
    if count <= 0 then st else PutNewLines(PutNewLine(st), count - 1)
  }

  /** `count` copies of `s`. */
  function Repeat(s: string, count: nat): string
  {
    if count == 0 then "" else s + Repeat(s, count - 1)
  }

  /** `text.TextSplit(DefaultNewLine)`: the lines of `text`. */
  function Lines(text: string): seq<string>
  {
    TextSplit.Split(text, DefaultNewLine, TextSplit.NoOptions)
  }

  /** `CurrentLine`: the written text from the last `DefaultNewLine` on, or all of it if there is none. */
  function CurrentLine(written: string): (line: string)
  {
    var k := LastIndexOf(written, DefaultNewLine);
    if k == -1 then written else written[k..]
  }

  /** `Code(NonFormattableString)`: the first line, then `NewLine().Append(line)` for each further one. */
  function CodeText(st: St, text: string): (r: St)
    ensures r == St(st.written + Join(Lines(text), st.indent), st.indent)
  {
    var lines := Lines(text);
    if |lines| == 0 then st else CodeRest(Put(st, lines[0]), lines[1..])
  }

  function CodeRest(st: St, lines: seq<string>): (r: St)
    decreases |lines|
    ensures r == St(st.written + (if |lines| == 0 then "" else st.indent + Join(lines, st.indent)), st.indent)
  {
    if |lines| == 0 then st else CodeRest(Put(PutNewLine(st), lines[0]), lines[1..])
  }

  lemma CodeRestCons(st: St, line: string, rest: seq<string>)
    ensures CodeRest(st, [line] + rest) == CodeRest(Put(PutNewLine(st), line), rest)
  {
    assert ([line] + rest)[0] == line && ([line] + rest)[1..] == rest;
  }

  lemma CodeTextCons(st: St, text: string, first: string, rest: seq<string>)
    requires TextSplit.Split(text, DefaultNewLine, TextSplit.NoOptions) == [first] + rest
    ensures CodeText(st, text) == CodeRest(Put(st, first), rest)
  {
    assert ([first] + rest)[0] == first && ([first] + rest)[1..] == rest;
  }

  /** `TrimStart()` and `TrimEnd()` on the written text. */
  function TrimStartText(st: St): St
  {
    St(TrimStartBy(st.written, IsWhiteSpace), st.indent)
  }

  function TrimEndText(st: St): St
  {
    St(TrimEndBy(st.written, IsWhiteSpace), st.indent)
  }

  /** `EnsureOnStartOfNewLine()`: a `NewLine()` unless the text already ends with `_newLineIndent`. */
  function EnsureNewLine(st: St): St
  {
    if !EndsWith(st.written, st.indent) then PutNewLine(st) else st
  }

  // ---------------------------------------------------------------- block helpers

  /** The start of `IndentBlock(indent, …)`: if the current line is exactly the old indent the new
    * unit is written at once, and the indent becomes `old + indent`. */
  function EnterIndent(st: St, indent: string): St
  {
    var s := if TextHelper.SpanEqualsNullable(CurrentLine(st.written), Some(st.indent)) then Put(st, indent) else st;
    St(s.written, st.indent + indent)
  }

  /** The end of `IndentBlock`: the old indent comes back, and a text that ends with the new indent has
    * that suffix replaced by the old one. */
  function LeaveIndent(o: Outcome, oldIndent: string, newIndent: string): Outcome
  {
    match o
    case Failed(_, _) => o
    case Done(s) =>
      if EndsWith(s.written, newIndent) then Done(St(s.written[..|s.written| - |newIndent|] + oldIndent, oldIndent))
      else Done(St(s.written, oldIndent))
  }

  /** The start of `BracketBlock`: `TrimEnd().NewLine().AppendLine('{')`. */
  function OpenBracket(st: St): St
  {
    PutNewLine(Put(PutNewLine(TrimEndText(st)), "{"))
  }

  /** The end of `BracketBlock`: `EnsureOnStartOfNewLine().Append('}')`. */
  function CloseBracket(o: Outcome): Outcome
  {
    match o
    case Failed(_, _) => o
    case Done(s) => Done(Put(EnsureNewLine(s), "}"))
  }

  function NewLineAfter(o: Outcome): Outcome
  {
    match o
    case Failed(_, _) => o
    case Done(s) => Done(PutNewLine(s))
  }

  /** The head of `Directive`: `#name`, then ` value` unless the value is null or empty, then a NewLine. */
  function DirectiveHead(st: St, name: string, argument: Option<string>): St
  {
    var head := Put(Put(st, "#"), name);
    var withArgument := if TextHelper.AsSpan(argument) != "" then Put(Put(head, " "), argument.value) else head;
    PutNewLine(withArgument)
  }

  /** The tail of `Directive`: `EnsureOnStartOfNewLine()`, then `AppendLine(end ?? "#end" + name)`. */
  function DirectiveEnd(o: Outcome, name: string, end: Option<string>): Outcome
  {
    match o
    case Failed(_, _) => o
    case Done(s) => Done(PutNewLine(Put(EnsureNewLine(s), end.GetOr("#end" + name))))
  }

  /** The chars of `"using "`, which `TrimStart(ReadOnlySpan<char>)` strips as a set, in any order. */
  predicate IsUsingChar(c: char)
  {
    c == 'u' || c == 's' || c == 'i' || c == 'n' || c == 'g' || c == ' '
  }

  predicate IsSemicolon(c: char)
  {
    c == ';'
  }

  /** `nameSpace.AsSpan().TrimStart().TrimStart("using ").TrimEnd().TrimEnd(';')`. */
  function UsingName(nameSpace: string): string
  {
    var a := TrimStartBy(nameSpace, IsWhiteSpace);
    var b := TrimStartBy(a, IsUsingChar);
    var c := TrimEndBy(b, IsWhiteSpace);
    TrimEndBy(c, IsSemicolon)
  }

  /** `Using(nameSpace)`: `using <ns>;` and a NewLine, or nothing for an empty name. */
  function UsingText(st: St, nameSpace: string): St
  {
    var ns := UsingName(nameSpace);
    if |ns| > 0 then PutNewLine(Put(Put(Put(st, "using "), ns), ";")) else st
  }

  /** `Namespace(string?)`: a file-scoped `namespace <ns>;` and two NewLines, or nothing for a blank name. */
  function NamespaceText(st: St, nameSpace: Option<string>): St
  {
    var ns := Trim(TextHelper.AsSpan(nameSpace));
    if |ns| == 0 then st else PutNewLine(PutNewLine(Put(Put(Put(st, "namespace "), ns), ";")))
  }

  /** `Append(prefix).AppendLine(line)` for each line. */
  function PrefixLines(st: St, prefix: string, lines: seq<string>): (r: St)
    decreases |lines|
    ensures r.indent == st.indent && StartsWith(r.written, st.written)
  {
    if |lines| == 0 then st else PrefixLines(PutNewLine(Put(Put(st, prefix), lines[0])), prefix, lines[1..])
  }

  // The first line of a multi-line comment after "/* ", each further line after " * ", then the closing line.
  function StarredComment(st: St, lines: seq<string>): St
    requires |lines| >= 2
  {
    var first := PutNewLine(Put(Put(st, "/* "), lines[0]));
    PutNewLine(Put(PrefixLines(first, " * ", lines[1..]), " */"))
  }

  lemma PrefixLinesCons(st: St, prefix: string, line: string, rest: seq<string>)
    ensures PrefixLines(st, prefix, [line] + rest) == PrefixLines(PutNewLine(Put(Put(st, prefix), line)), prefix, rest)
  {
    assert ([line] + rest)[0] == line && ([line] + rest)[1..] == rest;
  }

  lemma StarredCons(st: St, first: string, second: string, rest: seq<string>)
    ensures StarredComment(st, [first, second] + rest)
      == PutNewLine(Put(PrefixLines(PutNewLine(Put(Put(st, "/* "), first)), " * ", [second] + rest), " */"))
  {
    assert ([first, second] + rest)[0] == first && ([first, second] + rest)[1..] == [second] + rest;
  }

  /** `Comment(string?)`: `// ` for no line, `// line` for one, the starred form for more. */
  function CommentText(st: St, comment: Option<string>): St
  {
    var lines := Lines(TextHelper.AsSpan(comment));
    if |lines| == 0 then PutNewLine(Put(st, "// "))
    else if |lines| == 1 then PutNewLine(Put(Put(st, "// "), lines[0]))
    else StarredComment(st, lines)
  }

  /** `Comment(string?, CommentType)`; an undefined style throws. */
  function StyledComment(st: St, comment: Option<string>, style: CommentType): Outcome
  {
    var lines := Lines(TextHelper.AsSpan(comment));
    match style
    case SingleLine => Done(PrefixLines(st, "// ", lines))
    case Xml => Done(PrefixLines(st, "/// ", lines))
    case MultiLine =>
      if |lines| == 0 then Done(PutNewLine(Put(st, "/* */")))
      else if |lines| == 1 then Done(PutNewLine(Put(Put(Put(st, "/* "), lines[0]), " */")))
      else Done(StarredComment(st, lines))
    case Undefined(_) => Failed(ArgumentOutOfRangeException, st)
  }

  // ---------------------------------------------------------------- the interpreter

  /** One builder call. Every call that completes leaves `_newLineIndent` as it found it. */
  function ExecCmd(c: Cmd, st: St): (r: Outcome)
    decreases c
    ensures r.Done? ==> r.st.indent == st.indent
  {
    match c
    case Append(t) => Done(Put(st, t))
    case AppendLine(t) => Done(PutNewLine(Put(st, t)))
    case NewLine => Done(PutNewLine(st))
    case NewLines(n) => Done(PutNewLines(st, n))
    case Value(v, f) => ExecObj(v, f, st)
    case Code(t) => Done(CodeText(st, t))
    case CodeFormat(f, args) => FormatLines(args, Lines(f), true, st)
    case CodeLine(t) => Done(PutNewLine(CodeText(st, t)))
    case CodeBlock(f, args) => NewLineAfter(FormatLines(args, Lines(f), true, st))
    case TrimStart => Done(TrimStartText(st))
    case TrimEnd => Done(TrimEndText(st))
    case Enumerate(items) => ExecBodies(items, st)
    case Delimit(_, _) => ExecDelimit(c, 0, st)
    case DelimitText(sep, items) =>
      if TextHelper.AsSpan(sep) == "" then ExecBodies(items, st)
      else ExecDelimitText(sep.value, items, true, st)
    case IndentBlock(i, body) =>
      LeaveIndent(ExecBody(body, EnterIndent(st, i)), st.indent, st.indent + i)
    case EnsureOnStartOfNewLine => Done(EnsureNewLine(st))
    case BracketBlock(body, i) => ExecBracket(body, i.GetOr(DefaultIndent), st)
    case Directive(name, arg, body, end) =>
      DirectiveEnd(ExecBody(body, DirectiveHead(st, name, arg)), name, end)
    case Using(ns) => Done(UsingText(st, ns))
    case Namespace(ns) => Done(NamespaceText(st, ns))
    case NamespaceBlock(ns, body) =>
      var name := Trim(ns);
      if |name| == 0 then Failed(ArgumentException, st)
      else NewLineAfter(ExecBracket(body, DefaultIndent, PutNewLine(Put(Put(st, "namespace "), name))))
    case Comment(t) => Done(CommentText(st, t))
    case CommentAs(t, style) => StyledComment(st, t, style)
    case If(b, t, f) => if b then ExecBody(t, st) else ExecBody(f, st)
  }

  /** A callback: its calls in order, stopping at the first exception. */
  function ExecBody(cs: Body, st: St): (r: Outcome)
    decreases cs, 0
    ensures r.Done? ==> r.st.indent == st.indent
  {
    if |cs| == 0 then Done(st)
    else
      match ExecCmd(cs[0], st)
      case Failed(e, s) => Failed(e, s)
      case Done(s) => ExecBody(cs[1..], s)
  }

  /** `Enumerate`: the per-value bodies one after another. */
  function ExecBodies(bs: seq<Applied>, st: St): (r: Outcome)
    decreases bs, 0
    ensures r.Done? ==> r.st.indent == st.indent
  {
    if |bs| == 0 then Done(st)
    else
      match ExecBody(bs[0].calls, st)
      case Failed(e, s) => Failed(e, s)
      case Done(s) => ExecBodies(bs[1..], s)
  }

  /** `Delimit(CBA?, …)`: the delimiter action before every element but the first. */
  function ExecDelimit(c: Cmd, k: nat, st: St): (r: Outcome)
    requires c.Delimit? && k <= |c.delimited|
    decreases c, |c.delimited| - k
    ensures r.Done? ==> r.st.indent == st.indent
  {
    if k == |c.delimited| then Done(st)
    else
      match (if k == 0 then Done(st) else ExecBody(c.delimiter, st))
      case Failed(e, s) => Failed(e, s)
      case Done(s) =>
        match ExecBody(c.delimited[k].calls, s)
        case Failed(e, s') => Failed(e, s')
        case Done(s') => ExecDelimit(c, k + 1, s')
  }

  /** `Delimit(string, …)` with a non-empty delimiter: `Code(delimiter)` between elements. */
  function ExecDelimitText(sep: string, bs: seq<Applied>, first: bool, st: St): (r: Outcome)
    decreases bs, 1
    ensures r.Done? ==> r.st.indent == st.indent
  {
    if |bs| == 0 then Done(st)
    else
      var s0 := if first then st else CodeText(st, sep);
      match ExecBody(bs[0].calls, s0)
      case Failed(e, s) => Failed(e, s)
      case Done(s) => ExecDelimitText(sep, bs[1..], false, s)
  }

  /** `BracketBlock(body, indent)` with the indent already resolved. */
  function ExecBracket(body: Body, indent: string, st: St): (r: Outcome)
    decreases body, 1
    ensures r.Done? ==> r.st.indent == st.indent
  {
    var s := OpenBracket(st);
    CloseBracket(LeaveIndent(ExecBody(body, EnterIndent(s, indent)), s.indent, s.indent + indent))
  }

  /** `Value<T>(value, format)`. A callback runs with the indent set to the current line
    * (`IndentAwareAppend`); a sequence is delimited by `format ?? ","`, each element written with no
    * format. */
  function ExecObj(v: Obj, format: Option<string>, st: St): (r: Outcome)
    decreases v
    ensures r.Done? ==> r.st.indent == st.indent
  {
    match v
    case Null => Done(st)
    case Callback(body) =>
      (match ExecBody(body, St(st.written, CurrentLine(st.written)))
       case Failed(e, s) => Failed(e, s)
       case Done(s) => Done(St(s.written, st.indent)))
    case Str(s) => Done(Put(st, s))
    case Formattable(render) => Done(Put(st, TextHelper.AsSpan(render(format))))
    case Sequence(es) =>
      var sep := format.GetOr(",");
      if sep == "" then ExecObjs(es, st) else ExecDelimitObjs(es, sep, true, st)
    case Other(t) => Done(Put(st, TextHelper.AsSpan(t)))
  }

  /** The elements of a sequence value, each by `Value(v)`, with no delimiter. */
  function ExecObjs(es: seq<Obj>, st: St): (r: Outcome)
    decreases es
    ensures r.Done? ==> r.st.indent == st.indent
  {
    if |es| == 0 then Done(st)
    else
      match ExecObj(es[0], None, st)
      case Failed(e, s) => Failed(e, s)
      case Done(s) => ExecObjs(es[1..], s)
  }

  /** The elements of a sequence value with `Code(sep)` between them. */
  function ExecDelimitObjs(es: seq<Obj>, sep: string, first: bool, st: St): (r: Outcome)
    decreases es
    ensures r.Done? ==> r.st.indent == st.indent
  {
    if |es| == 0 then Done(st)
    else
      var s0 := if first then st else CodeText(st, sep);
      match ExecObj(es[0], None, s0)
      case Failed(e, s) => Failed(e, s)
      case Done(s) => ExecDelimitObjs(es[1..], sep, false, s)
  }

  /** `Code(FormattableString)`: `WriteFormatLine` per line, with a NewLine between lines. */
  function FormatLines(args: seq<Obj>, lines: seq<string>, first: bool, st: St): (r: Outcome)
    decreases args, 1, |lines|
    ensures r.Done? ==> r.st.indent == st.indent
  {
    if |lines| == 0 then Done(st)
    else
      var s0 := if first then st else PutNewLine(st);
      match WriteFormatLine(args, lines[0], s0)
      case Failed(e, s) => Failed(e, s)
      case Done(s) => FormatLines(args, lines[1..], false, s)
  }

  /** `Code(FormattableString)` over `lines` from `st` ends as `goal`. */
  predicate FormatsTo(args: seq<Obj>, lines: seq<string>, first: bool, st: St, goal: Outcome)
  {
    FormatLines(args, lines, first, st) == goal
  }

  /** The first of the lines: a NewLine unless it is the first, then `WriteFormatLine`, and the rest
    * only if that one did not throw. */
  lemma FormatsToCons(args: seq<Obj>, line: string, rest: seq<string>, first: bool, st: St, goal: Outcome)
    requires FormatsTo(args, [line] + rest, first, st, goal)
    ensures var o := WriteFormatLine(args, line, if first then st else PutNewLine(st));
      if o.Failed? then o == goal else FormatsTo(args, rest, false, o.st, goal)
  {
    assert ([line] + rest)[0] == line && ([line] + rest)[1..] == rest;
  }

  /** `WriteFormatLine(line, args)`: the parsed segments in order, each hole by `Value(args[i], fmt)`;
    * a format error throws FormatException after the text before it has been written. */
  function WriteFormatLine(args: seq<Obj>, line: string, st: St): (r: Outcome)
    decreases args, 0
    ensures r.Done? ==> r.st.indent == st.indent
  {
    var p := Template.Parse(line, |args|);
    Template.ParseHolesBelow(line, 0, |args|);
    match RenderSegments(args, p.segments, st)
    case Failed(e, s) => Failed(e, s)
    case Done(s) => if p.error.Some? then Failed(FormatException, s) else Done(s)
  }

  function RenderSegments(args: seq<Obj>, segments: seq<Template.Segment>, st: St): (r: Outcome)
    requires Template.HolesBelow(segments, |args|)
    decreases args, 0, |segments|
    ensures r.Done? ==> r.st.indent == st.indent
  {
    if |segments| == 0 then Done(st)
    else
      var head := match segments[0]
        case Lit(t) => Done(Put(st, t))
        case Hole(i, f) => ExecObj(args[i], f, st);
      match head
      case Failed(e, s) => Failed(e, s)
      case Done(s) => RenderSegments(args, segments[1..], s)
  }

  // ---------------------------------------------------------------- properties

  /** `CurrentLine` is a suffix of the text that is either all of it or starts at a `DefaultNewLine`,
    * and contains no further `DefaultNewLine`. */
  lemma CurrentLineIsLastLine(written: string)
    ensures EndsWith(written, CurrentLine(written))
    ensures CurrentLine(written) == written || StartsWith(CurrentLine(written), DefaultNewLine)
    ensures forall j :: 0 < j ==> !OccursAt(CurrentLine(written), DefaultNewLine, j)
  {
    var k := LastIndexOf(written, DefaultNewLine);
    var line := CurrentLine(written);
    if k != -1 {
      assert line[..|DefaultNewLine|] == written[k..k + |DefaultNewLine|];
      forall j | 0 < j
        ensures !OccursAt(line, DefaultNewLine, j)
      {
        if OccursAt(line, DefaultNewLine, j) {
          assert line[j..j + |DefaultNewLine|] == written[k + j..k + j + |DefaultNewLine|];
          assert OccursAt(written, DefaultNewLine, k + j);
        }
      }
    }
  }

  /** `NewLines(count)` writes `_newLineIndent` exactly `count` times, and nothing for `count <= 0`. */
  lemma NewLinesWritesIndents(st: St, count: int)
    ensures ExecCmd(NewLines(count), st) == Done(St(st.written + Repeat(st.indent, if count <= 0 then 0 else count), st.indent))
  {
  }

  /** With the indent at `DefaultNewLine` (no indentation), `Code(text)` writes `text` unchanged: the
    * lines are split at `DefaultNewLine` and the NewLines re-insert exactly it. */
  lemma CodeIsVerbatimWithoutIndent(st: St, text: string)
    requires st.indent == DefaultNewLine
    ensures CodeText(st, text) == St(st.written + text, st.indent)
  {
    TextSplit.SplitJoinRoundTrip(text, DefaultNewLine);
  }

  /** A text with no `DefaultNewLine` is a single line, which `Code` appends as is. */
  lemma CodeOfOneLine(st: St, text: string)
    requires IndexOfFrom(text, DefaultNewLine, 0) == -1
    ensures CodeText(st, text) == Put(st, text)
  {
    TextSplit.SplitWithoutSeparator(text, DefaultNewLine);
  }

  /** `EnsureOnStartOfNewLine` leaves the text ending with `_newLineIndent`, and a second call changes
    * nothing. */
  lemma EnsureOnStartOfNewLineIdempotent(st: St)
    ensures EndsWith(EnsureNewLine(st).written, st.indent)
    ensures EnsureNewLine(EnsureNewLine(st)) == EnsureNewLine(st)
    ensures EndsWith(st.written, st.indent) ==> EnsureNewLine(st) == st
  {
    var w := st.written + st.indent;
    assert w[|w| - |st.indent|..] == st.indent;
  }

  /** After `IndentBlock(indent, body)` completes, `_newLineIndent` is back to its old value, and if the
    * body ended on a fresh line at the inner indent the text now ends on a fresh line at the old one. */
  lemma IndentBlockRestoresIndent(indent: string, body: Body, st: St)
    ensures ExecCmd(IndentBlock(indent, body), st).Done? ==> ExecCmd(IndentBlock(indent, body), st).st.indent == st.indent
    ensures match ExecBody(body, EnterIndent(st, indent))
      case Done(s) =>
        EndsWith(s.written, st.indent + indent) ==>
          ExecCmd(IndentBlock(indent, body), st) == Done(St(s.written[..|s.written| - |st.indent + indent|] + st.indent, st.indent))
      case Failed(e, s) => ExecCmd(IndentBlock(indent, body), st) == Failed(e, s)
  {
    IndentBlockStep(IndentBlock(indent, body), st);
  }

  /** An indented line started on a fresh line: the unit is written first, then the text, and the
    * NewLine at the inner indent is retracted to one at the outer indent. */
  lemma IndentedLine(indent: string, text: string, st: St)
    requires CurrentLine(st.written) == st.indent
    ensures ExecCmd(IndentBlock(indent, [AppendLine(text)]), st) == Done(St(st.written + indent + text + st.indent, st.indent))
  {
    var inner := st.indent + indent;
    var s1 := St(st.written + indent, inner);
    assert EnterIndent(st, indent) == s1;
    var w := st.written + indent + text + inner;
    OneCallBody(AppendLine(text), s1);
    assert ExecBody([AppendLine(text)], s1) == Done(St(w, inner));
    assert w[|w| - |inner|..] == inner;
    assert w[..|w| - |inner|] == st.written + indent + text;
    IndentBlockStep(IndentBlock(indent, [AppendLine(text)]), st);
  }

  lemma IndentBlockStep(c: Cmd, st: St)
    requires c.IndentBlock?
    ensures ExecCmd(c, st) == LeaveIndent(ExecBody(c.indented, EnterIndent(st, c.indent)), st.indent, st.indent + c.indent)
  {
  }

  lemma BracketBlockStep(c: Cmd, st: St)
    requires c.BracketBlock?
    ensures ExecCmd(c, st) == ExecBracket(c.bracketed, c.bracketIndent.GetOr(DefaultIndent), st)
  {
  }

  /** A body of one call does what the call does. */
  lemma OneCallBody(c: Cmd, st: St)
    ensures ExecBody([c], st) == ExecCmd(c, st)
  {
    assert [c][1..] == [];
  }

  // ---------------------------------------------------------------- sequencing

  /** Calls made after an outcome: they run on the state it left, unless it threw. */
  function Then(o: Outcome, b: Body): Outcome
  {
    match o
    case Failed(_, _) => o
    case Done(s) => ExecBody(b, s)
  }

  /** Running two call lists back to back is running their concatenation. */
  lemma {:induction false} ExecBodyAppend(a: Body, b: Body, st: St)
    decreases |a|
    ensures ExecBody(a + b, st) == Then(ExecBody(a, st), b)
  {
    if |a| == 0 {
      assert a + b == b;
    } else {
      assert (a + b)[0] == a[0];
      assert (a + b)[1..] == a[1..] + b;
      match ExecCmd(a[0], st)
      case Failed(e, s) =>
      case Done(s) =>
        ExecBodyAppend(a[1..], b, s);
    }
  }

  /** All the calls of the applied actions, in order. */
  function Flatten(bs: seq<Applied>): Body
  {
    if |bs| == 0 then [] else bs[0].calls + Flatten(bs[1..])
  }

  /** The calls `Delimit` makes: each element's action, with the delimiter's calls between consecutive
    * elements and nowhere else. */
  function Interleave(delimiter: Body, bs: seq<Applied>, first: bool): Body
  {
    if |bs| == 0 then []
    else (if first then [] else delimiter) + (bs[0].calls + Interleave(delimiter, bs[1..], false))
  }

  lemma {:induction false} BodiesAreFlattened(bs: seq<Applied>, st: St)
    decreases |bs|
    ensures ExecBodies(bs, st) == ExecBody(Flatten(bs), st)
  {
    if |bs| > 0 {
      ExecBodyAppend(bs[0].calls, Flatten(bs[1..]), st);
      match ExecBody(bs[0].calls, st)
      case Failed(e, s) =>
      case Done(s) =>
        BodiesAreFlattened(bs[1..], s);
    }
  }

  lemma {:induction false} DelimitIsInterleaved(c: Cmd, k: nat, st: St)
    requires c.Delimit? && k <= |c.delimited|
    decreases |c.delimited| - k
    ensures ExecDelimit(c, k, st) == ExecBody(Interleave(c.delimiter, c.delimited[k..], k == 0), st)
  {
    if k < |c.delimited| {
      var bs := c.delimited[k..];
      assert bs[0] == c.delimited[k];
      assert bs[1..] == c.delimited[k + 1..];
      var pre: Body := if k == 0 then [] else c.delimiter;
      var rest := Interleave(c.delimiter, bs[1..], false);
      ExecBodyAppend(pre, bs[0].calls + rest, st);
      assert ExecBody(pre, st) == (if k == 0 then Done(st) else ExecBody(c.delimiter, st));
      match ExecBody(pre, st)
      case Failed(e, s) =>
      case Done(s) =>
        ExecBodyAppend(bs[0].calls, rest, s);
        match ExecBody(bs[0].calls, s)
        case Failed(e, s') =>
        case Done(s') =>
          DelimitIsInterleaved(c, k + 1, s');
    }
  }

  /** `Enumerate(values, action)` invokes the action once per element, in order. */
  lemma EnumerateRunsEachInOrder(c: Cmd, st: St)
    requires c.Enumerate?
    ensures ExecCmd(c, st) == ExecBody(Flatten(c.items), st)
  {
    BodiesAreFlattened(c.items, st);
  }

  /** `Delimit(CBA, values, action)` runs the delimiter exactly between consecutive elements. */
  lemma DelimitRunsDelimiterBetween(c: Cmd, st: St)
    requires c.Delimit?
    ensures ExecCmd(c, st) == ExecBody(Interleave(c.delimiter, c.delimited, true), st)
  {
    DelimitIsInterleaved(c, 0, st);
    assert c.delimited[0..] == c.delimited;
  }

  /** `Delimit(string, …)` with a null or empty delimiter is `Enumerate`. */
  lemma DelimitWithoutSeparatorEnumerates(c: Cmd, st: St)
    requires c.DelimitText? && TextHelper.AsSpan(c.separator) == ""
    ensures ExecCmd(c, st) == ExecBody(Flatten(c.separated), st)
  {
    BodiesAreFlattened(c.separated, st);
  }

  lemma CodeStep(c: Cmd, st: St)
    requires c.Code?
    ensures ExecCmd(c, st) == Done(CodeText(st, c.code))
  {
  }

  /** `Delimit(string, …)` with a delimiter is `Delimit` with the callback `b => b.Code(delimiter)`. */
  lemma DelimitWithSeparatorIsCode(c: Cmd, st: St)
    requires c.DelimitText? && TextHelper.AsSpan(c.separator) != ""
    ensures ExecCmd(c, st) == ExecCmd(Delimit([Code(c.separator.value)], c.separated), st)
  {
    var d := Delimit([Code(c.separator.value)], c.separated);
    DelimitTextIsDelimit(c.separator.value, d, 0, st);
    assert d.delimited[0..] == c.separated;
  }

  lemma {:induction false} DelimitTextIsDelimit(sep: string, d: Cmd, k: nat, st: St)
    requires d.Delimit? && d.delimiter == [Code(sep)] && k <= |d.delimited|
    decreases |d.delimited| - k
    ensures ExecDelimitText(sep, d.delimited[k..], k == 0, st) == ExecDelimit(d, k, st)
  {
    if k < |d.delimited| {
      var bs := d.delimited[k..];
      assert bs[0] == d.delimited[k];
      assert bs[1..] == d.delimited[k + 1..];
      OneCallBody(Code(sep), st);
      CodeStep(Code(sep), st);
      var s0 := if k == 0 then st else CodeText(st, sep);
      match ExecBody(bs[0].calls, s0)
      case Failed(e, s) =>
      case Done(s) =>
        DelimitTextIsDelimit(sep, d, k + 1, s);
    }
  }

  // ---------------------------------------------------------------- values and format lines

  predicate AllStrings(es: seq<Obj>)
  {
    forall i :: 0 <= i < |es| ==> es[i].Str?
  }

  function StrValues(es: seq<Obj>): (r: seq<string>)
    requires AllStrings(es)
    ensures |r| == |es| && forall i :: 0 <= i < |es| ==> r[i] == es[i].str
  {
    if |es| == 0 then [] else [es[0].str] + StrValues(es[1..])
  }

  function StrObjs(args: seq<string>): (r: seq<Obj>)
    ensures |r| == |args| && AllStrings(r) && StrValues(r) == args
  {
    if |args| == 0 then [] else [Str(args[0])] + StrObjs(args[1..])
  }

  lemma DelimitObjsStep(es: seq<Obj>, sep: string, first: bool, st: St)
    requires |es| > 0 && es[0].Str? && IndexOfFrom(sep, DefaultNewLine, 0) == -1
    ensures ExecDelimitObjs(es, sep, first, st) ==
      ExecDelimitObjs(es[1..], sep, false, St(st.written + ((if first then "" else sep) + es[0].str), st.indent))
  {
    CodeOfOneLine(st, sep);
    var s0 := if first then st else Put(st, sep);
    assert ExecObj(es[0], None, s0) == Done(Put(s0, es[0].str));
    assert Put(s0, es[0].str).written == st.written + ((if first then "" else sep) + es[0].str);
  }

  lemma {:induction false} DelimitedStrings(es: seq<Obj>, sep: string, first: bool, st: St)
    requires AllStrings(es) && IndexOfFrom(sep, DefaultNewLine, 0) == -1
    decreases |es|
    ensures ExecDelimitObjs(es, sep, first, st) == Done(Put(st, JoinFrom(StrValues(es), sep, first)))
  {
    if |es| > 0 {
      var head := (if first then "" else sep) + es[0].str;
      DelimitObjsStep(es, sep, first, st);
      DelimitedStrings(es[1..], sep, false, St(st.written + head, st.indent));
      assert StrValues(es)[1..] == StrValues(es[1..]);
      JoinFromStep(StrValues(es), sep, first);
      StringsOfTail(st.written, head, JoinFrom(StrValues(es[1..]), sep, false));
    }
  }

  /** A sequence of strings written by `Value(values, format)` is joined by `format ?? ","`: strictly
    * between consecutive elements. */
  lemma ValueOfStringSequence(es: seq<Obj>, format: Option<string>, st: St)
    requires AllStrings(es) && format.GetOr(",") != "" && IndexOfFrom(format.GetOr(","), DefaultNewLine, 0) == -1
    ensures ExecObj(Sequence(es), format, st) == Done(Put(st, Join(StrValues(es), format.GetOr(","))))
  {
    DelimitedStrings(es, format.GetOr(","), true, st);
  }

  /** The segments of a parsed line, each hole filled by a string argument, written in order. */
  lemma {:induction false} SegmentsOfStrings(args: seq<string>, segments: seq<Template.Segment>, st: St)
    requires Template.HolesBelow(segments, |args|)
    decreases |segments|
    ensures RenderSegments(StrObjs(args), segments, st) == Done(Put(st, Template.RenderStrings(segments, args)))
  {
    if |segments| > 0 {
      var head := if segments[0].Lit? then segments[0].text else args[segments[0].index];
      HeadOfStrings(args, segments, st, head);
      SegmentsOfStrings(args, segments[1..], Put(st, head));
      StringsOfTail(st.written, head, Template.RenderStrings(segments[1..], args));
    }
  }

  /** The first segment of a line rendered with string arguments: its literal text or its argument. */
  lemma HeadOfStrings(args: seq<string>, segments: seq<Template.Segment>, st: St, head: string)
    requires |segments| > 0 && Template.HolesBelow(segments, |args|)
    requires head == if segments[0].Lit? then segments[0].text else args[segments[0].index]
    ensures RenderSegments(StrObjs(args), segments, st) == RenderSegments(StrObjs(args), segments[1..], Put(st, head))
    ensures Template.RenderStrings(segments, args) == head + Template.RenderStrings(segments[1..], args)
  {
    if segments[0].Hole? {
      assert StrObjs(args)[segments[0].index] == Str(args[segments[0].index]);
    }
  }

  /** `WriteFormatLine` with string arguments writes the rendered line, and throws FormatException
    * after the text before the error when the line is malformed. */
  lemma FormatLineOfStrings(args: seq<string>, line: string, st: St)
    ensures var p := Template.Parse(line, |args|);
      WriteFormatLine(StrObjs(args), line, st) ==
        if p.error.Some? then Failed(FormatException, Put(st, Template.RenderStrings(p.segments, args)))
        else Done(Put(st, Template.RenderStrings(p.segments, args)))
  {
    Template.ParseHolesBelow(line, 0, |args|);
    SegmentsOfStrings(args, Template.Parse(line, |args|).segments, st);
  }

  /** A format assembled from text, escaped braces and holes writes the text, single braces and the
    * arguments. */
  lemma FormatLineRendersPieces(pieces: seq<Template.Piece>, args: seq<string>, st: St)
    requires Template.WellFormedPieces(pieces, |args|)
    ensures WriteFormatLine(StrObjs(args), Template.Encode(pieces), st) == Done(Put(st, Template.Expected(pieces, args)))
  {
    Template.EncodedFormatRenders(pieces, args, 0);
    FormatLineOfStrings(args, Template.Encode(pieces), st);
  }

  /** Each line of a format string rendered with string arguments. */
  function RenderedLines(lines: seq<string>, args: seq<string>): seq<string>
  {
    if |lines| == 0 then []
    else [Template.RenderStrings(Template.Parse(lines[0], |args|).segments, args)] + RenderedLines(lines[1..], args)
  }

  predicate WellFormedLines(lines: seq<string>, argCount: nat)
  {
    forall i :: 0 <= i < |lines| ==> Template.Parse(lines[i], argCount).error.None?
  }

  /** `Code(FormattableString)` over well-formed lines writes the rendered lines with one NewLine
    * between consecutive lines: `k` lines give exactly `k - 1` copies of `_newLineIndent`. */
  lemma FormatLinesStep(args: seq<string>, lines: seq<string>, first: bool, st: St)
    requires |lines| > 0 && Template.Parse(lines[0], |args|).error.None?
    ensures var line := Template.RenderStrings(Template.Parse(lines[0], |args|).segments, args);
      FormatLines(StrObjs(args), lines, first, st) ==
        FormatLines(StrObjs(args), lines[1..], false, St(st.written + ((if first then "" else st.indent) + line), st.indent))
  {
    var s0 := if first then st else PutNewLine(st);
    FormatLineOfStrings(args, lines[0], s0);
    var line := Template.RenderStrings(Template.Parse(lines[0], |args|).segments, args);
    StringsOfTail(st.written, if first then "" else st.indent, line);
    assert Put(s0, line) == St(st.written + ((if first then "" else st.indent) + line), st.indent);
    assert WriteFormatLine(StrObjs(args), lines[0], s0) == Done(Put(s0, line));
  }

  lemma {:induction false} FormatLinesAreJoined(args: seq<string>, lines: seq<string>, first: bool, st: St)
    requires WellFormedLines(lines, |args|)
    decreases |lines|
    ensures FormatLines(StrObjs(args), lines, first, st) == Done(Put(st, JoinFrom(RenderedLines(lines, args), st.indent, first)))
  {
    if |lines| > 0 {
      FormatLinesStep(args, lines, first, st);
      var line := Template.RenderStrings(Template.Parse(lines[0], |args|).segments, args);
      var head := (if first then "" else st.indent) + line;
      assert WellFormedLines(lines[1..], |args|) by {
        forall i | 0 <= i < |lines[1..]|
          ensures Template.Parse(lines[1..][i], |args|).error.None?
        {
          assert lines[1..][i] == lines[i + 1];
        }
      }
      FormatLinesAreJoined(args, lines[1..], false, St(st.written + head, st.indent));
      JoinFromStep(RenderedLines(lines, args), st.indent, first);
      StringsOfTail(st.written, head, JoinFrom(RenderedLines(lines[1..], args), st.indent, false));
    }
  }

  // ---------------------------------------------------------------- comments and file-level writers

  /** A comment of one line is written as `// line`; a null comment as `// ` alone. */
  lemma CommentOfOneLine(st: St, text: string)
    requires IndexOfFrom(text, DefaultNewLine, 0) == -1
    ensures CommentText(st, Some(text)) == St(st.written + "// " + text + st.indent, st.indent)
    ensures CommentText(st, None) == St(st.written + "// " + st.indent, st.indent)
  {
    TextSplit.SplitWithoutSeparator(text, DefaultNewLine);
    TextSplit.EmptyInputYieldsOneEmptySlice(DefaultNewLine);
  }

  /** As a multi-line comment, a null or empty comment is `"/* "` and `" */"` around the one empty line
    * the split yields: the blank `"/* */"` case is never reached. */
  lemma EmptyMultiLineComment(st: St)
    ensures StyledComment(st, None, MultiLine) == Done(St(st.written + "/* " + " */" + st.indent, st.indent))
    ensures StyledComment(st, Some(""), MultiLine) == StyledComment(st, None, MultiLine)
  {
    TextSplit.EmptyInputYieldsOneEmptySlice(DefaultNewLine);
  }

  /** An undefined comment style throws ArgumentOutOfRangeException and writes nothing. */
  lemma UndefinedCommentStyleThrows(st: St, comment: Option<string>, code: int)
    ensures StyledComment(st, comment, Undefined(code)) == Failed(ArgumentOutOfRangeException, st)
  {
  }

  /** The name `Using` writes is a piece of its argument that neither starts with one of the letters
    * of "using " nor ends with a semicolon. */
  lemma UsingNameShape(nameSpace: string)
    ensures var r := UsingName(nameSpace);
      |r| <= |nameSpace| && (|r| > 0 ==> !IsUsingChar(r[0]) && r[|r| - 1] != ';')
  {
    var c := TrimEndBy(TrimStartBy(TrimStartBy(nameSpace, IsWhiteSpace), IsUsingChar), IsWhiteSpace);
    var r := TrimEndBy(c, IsSemicolon);
    if |r| > 0 {
      assert r[0] == c[0];
    }
  }

  lemma {:induction false} LeadingOfPrefix(p: string, x: string, f: char -> bool)
    requires forall i :: 0 <= i < |p| ==> f(p[i])
    requires |x| > 0 && !f(x[0])
    decreases |p|
    ensures LeadingCount(p + x, f) == |p|
  {
    if |p| > 0 {
      assert (p + x)[1..] == p[1..] + x;
      LeadingOfPrefix(p[1..], x, f);
    }
  }

  lemma {:induction false} TrailingOfSuffix(x: string, t: string, f: char -> bool)
    requires forall i :: 0 <= i < |t| ==> f(t[i])
    requires |x| > 0 && !f(x[|x| - 1])
    decreases |t|
    ensures TrailingCount(x + t, f) == |t|
  {
    if |t| > 0 {
      assert (x + t)[..|x + t| - 1] == x + t[..|t| - 1];
      TrailingOfSuffix(x, t[..|t| - 1], f);
    }
  }

  /** `Using` strips a leading run of the letters of "using " rather than the word: a name after
    * `using ` comes through when it starts with another letter, and loses its own leading letters
    * from that set otherwise. */
  lemma UsingStripsLetters(head: string, name: string)
    requires forall i :: 0 <= i < |head| ==> IsUsingChar(head[i])
    requires |head| > 0 && head[0] == 'u'
    requires |name| > 0 && !IsUsingChar(name[0]) && !IsWhiteSpace(name[0])
    requires !IsWhiteSpace(name[|name| - 1]) && name[|name| - 1] != ';'
    ensures UsingName(head + name + ";") == name
  {
    var s := head + name + ";";
    assert LeadingCount(s, IsWhiteSpace) == 0;
    assert TrimStartBy(s, IsWhiteSpace) == s;
    assert s == head + (name + ";");
    LeadingOfPrefix(head, name + ";", IsUsingChar);
    assert TrimStartBy(s, IsUsingChar) == name + ";";
    assert TrailingCount(name + ";", IsWhiteSpace) == 0;
    assert TrimEndBy(name + ";", IsWhiteSpace) == name + ";";
    TrailingOfSuffix(name, ";", IsSemicolon);
    assert (name + ";")[..|name|] == name;
  }

  lemma NamespaceBlockStep(c: Cmd, st: St)
    requires c.NamespaceBlock?
    ensures var name := Trim(c.blockNamespace);
      ExecCmd(c, st) == if |name| == 0 then Failed(ArgumentException, st)
        else NewLineAfter(ExecBracket(c.namespaced, DefaultIndent, PutNewLine(Put(Put(st, "namespace "), name))))
  {
    assert c == NamespaceBlock(c.blockNamespace, c.namespaced);
  }

  /** `Namespace(ns, block)` with a blank name throws ArgumentException before writing; otherwise the
    * block is bracketed with the default indent and the builder's indent is kept. */
  lemma NamespaceBlockOfBlankThrows(name: string, body: Body, st: St)
    requires IsBlank(name)
    ensures ExecCmd(NamespaceBlock(name, body), st) == Failed(ArgumentException, st)
  {
    NamespaceBlockStep(NamespaceBlock(name, body), st);
  }
}
