/** The `Jay.SourceGen.Text.CodeBuilder` class together with the Append, Write, Written and Enumerable
  * extension methods: a char buffer with a write position and the indent string `_newLineIndent`.
  * Each method is proved to leave the buffer in the state the semantics of the TextCode module gives
  * the call. */
module TextBuilder {
  import opened Wrappers
  import opened Strings
  import opened CharClass
  import opened TextCode
  import Coding
  import Numbers
  import TextHelper
  import TextSplit
  import Template

  /** The smallest capacity the constructor rents. */
  const MinimumCapacity: nat := 1024

  class CodeBuilder {
    /** `_charArray`, `_position` and `_newLineIndent`. */
    var chars: array<char>
    var position: nat
    var newLineIndent: string

    predicate Valid()
      reads this
    {
      position <= chars.Length
    }

    /** `Capacity`: the length of the rented array. */
    function Capacity(): nat
      reads this
    {
      chars.Length
    }

    /** `Written`: the first `Length` chars of the buffer. */
    function Written(): string
      reads this, chars
      requires Valid()
    {
      chars[..position]
    }

    /** The builder as the semantics sees it. */
    function State(): St
      reads this, chars
      requires Valid()
    {
      St(chars[..position], newLineIndent)
    }

    /** The builder after a call: its state, together with the exception the call threw if any. */
    function Ending(thrown: Option<Exception>): Outcome
      reads this, chars
      requires Valid()
    {
      match thrown
      case None => Done(State())
      case Some(e) => Failed(e, State())
    }

    /** `new CodeBuilder(minCapacity)`: an empty buffer of at least 1024 chars, indent `"\r\n"`. */
    constructor (minCapacity: int)
      ensures Valid() && fresh(chars)
      ensures State() == St("", DefaultNewLine)
      ensures chars.Length == if minCapacity > MinimumCapacity then minCapacity else MinimumCapacity
    {
      var capacity: nat := if minCapacity > MinimumCapacity then minCapacity else MinimumCapacity;
      chars := new char[capacity];
      position := 0;
      newLineIndent := DefaultNewLine;
    }

    // ------------------------------------------------------------ growth

    /** `GrowCore`: a new array of exactly `minCapacity` chars holding the written text. */
    method GrowCore(minCapacity: nat)
      requires Valid() && minCapacity >= position
      modifies this
      ensures Valid() && fresh(chars) && chars.Length == minCapacity
      ensures State() == old(State())
    {
      var newArray := new char[minCapacity];
      TextHelper.CopyBlock(chars[..position], newArray, 0, position);
      chars := newArray;
    }

    /** `GrowTo(minCapacity)`, called only for a request past the capacity: the new capacity is the
      * request plus the old capacity. */
    method GrowTo(minCapacity: int)
      requires Valid() && minCapacity > Capacity()
      modifies this
      ensures Valid() && State() == old(State())
      ensures fresh(chars) && Capacity() == minCapacity + old(Capacity())
    {
      var curCapacity := chars.Length;
      var newCapacity := minCapacity + curCapacity;
      GrowCore(newCapacity);
    }

    /** `GrowBy(adding)`: for a positive amount, a new capacity of `(adding + Capacity) * 2`. */
    method GrowBy(adding: int)
      requires Valid()
      modifies this
      ensures Valid() && State() == old(State())
      ensures adding > 0 ==> fresh(chars) && Capacity() == (adding + old(Capacity())) * 2
      ensures adding <= 0 ==> chars == old(chars)
    {
      if adding > 0 {
        var newCapacity := (adding + chars.Length) * 2;
        GrowCore(newCapacity);
      }
    }

    /** `Allocate(count)`: the span `chars[start..start + count]` past the written text, growing to
      * the end of the span when it does not fit; a non-positive count allocates nothing. */
    method Allocate(count: int) returns (start: nat)
      requires Valid()
      modifies this
      ensures Valid() && start == old(position) && newLineIndent == old(newLineIndent)
      ensures count > 0 ==> position == old(position) + count
      ensures count <= 0 ==> position == old(position) && chars == old(chars)
      ensures chars[..old(position)] == old(chars[..position])
      ensures chars == old(chars) || fresh(chars)
      ensures old(position) + count > old(Capacity()) && count > 0 ==>
        Capacity() == old(position) + count + old(Capacity())
    {
      start := position;
      if count > 0 {
        var end := start + count;
        if end > chars.Length {
          GrowTo(end);
        }
        position := end;
      }
    }

    // ------------------------------------------------------------ appends and writes

    /** `Append(ReadOnlySpan<char>)` and `Write(ReadOnlySpan<char>)`: `Written` becomes the old text
      * followed by `text`. */
    method Append(text: string)
      requires Valid()
      modifies this, chars
      ensures Valid() && State() == Put(old(State()), text)
      ensures chars == old(chars) || fresh(chars)
    {
      var len := |text|;
      if len > 0 {
        var start := Allocate(len);
        TextHelper.CopyBlock(text, chars, start, len);
        assert chars[..position] == chars[..start] + chars[start..start + len];
      }
    }

    /** `Append(char)` and `Write(char)`: `Allocate(1)[0] = ch`. */
    method AppendChar(ch: char)
      requires Valid()
      modifies this, chars
      ensures Valid() && State() == Put(old(State()), [ch])
      ensures chars == old(chars) || fresh(chars)
    {
      var start := Allocate(1);
      chars[start] := ch;
      assert chars[..position] == chars[..start] + [ch];
    }

    /** `Append(string?)`, `Write(string?)` and the generic `Append<T>`/`Write<T>` once the value's
      * `ToString` has been taken: a null string writes nothing. */
    method AppendString(str: Option<string>)
      requires Valid()
      modifies this, chars
      ensures Valid() && State() == Put(old(State()), TextHelper.AsSpan(str))
      ensures str.None? ==> State() == old(State())
      ensures chars == old(chars) || fresh(chars)
    {
      if str.Some? {
        Append(str.value);
      }
    }

    /** `NewLine()`: `DefaultNewLine`, never the indent. */
    method NewLine()
      requires Valid()
      modifies this, chars
      ensures Valid() && State() == PutNewLine(old(State()))
      ensures chars == old(chars) || fresh(chars)
    {
      Append(DefaultNewLine);
    }

    /** `AppendLine(text)`: `Append(text)`, then `Append("\r\n")`. */
    method AppendLine(text: string)
      requires Valid()
      modifies this, chars
      ensures Valid() && State() == PutNewLine(Put(old(State()), text))
      ensures chars == old(chars) || fresh(chars)
    {
      Append(text);
      Append("\r\n");
    }

    // ------------------------------------------------------------ length and indexers

    /** The `Length` setter: the value clamped into `[0, Capacity]`. */
    method SetLength(value: int)
      requires Valid()
      modifies this`position
      ensures Valid() && position == Numbers.Clamp(value, 0, Capacity())
    {
      Numbers.ClampInRange(value, 0, chars.Length);
      position := Numbers.Clamp(value, 0, chars.Length);
    }

    /** `this[int index]`: the char at `index`, or ArgumentOutOfRangeException outside `[0, Length)`. */
    function At(index: int): (r: Result<char, Exception>)
      reads this, chars
      requires Valid()
      ensures r.Ok? <==> 0 <= index < position
      ensures r.Ok? ==> r.value == Written()[index]
      ensures r.Err? ==> r.error == ArgumentOutOfRangeException
    {
      if 0 <= index < position then Ok(chars[index]) else Err(ArgumentOutOfRangeException)
    }

    /** `this[Range range]` for a range of from-start indexes: `GetOffsetAndLength(Length)` rejects a
      * range that is reversed or ends past `Length`, and the slice is `chars[start..end]`. */
    function Slice(start: nat, end: nat): (r: Result<string, Exception>)
      reads this, chars
      requires Valid()
      ensures r.Ok? <==> start <= end <= position
      ensures r.Ok? ==> r.value == Written()[start..end]
      ensures r.Err? ==> r.error == ArgumentOutOfRangeException
    {
      if start <= end <= position then Ok(chars[start..end]) else Err(ArgumentOutOfRangeException)
    }

    /** `CurrentNewLineIndent()`: it starts with `DefaultNewLine`, and it is either a suffix of the
      * written text or `DefaultNewLine` itself. */
    function CurrentNewLineIndentText(): (r: string)
      reads this, chars
      requires Valid()
      ensures StartsWith(r, DefaultNewLine)
      ensures r == DefaultNewLine || EndsWith(Written(), r)
    {
      CurrentNewLineIndentShape(chars[..position]);
      CurrentNewLineIndent(chars[..position])
    }

    // ------------------------------------------------------------ trimming

    /** Deletes `chars[..length]` by shifting the text after it to the left. */
    method CutFront(length: nat)
      requires Valid() && length <= position
      modifies this`position, chars
      ensures Valid() && newLineIndent == old(newLineIndent)
      ensures Written() == old(Written()[length..])
    {
      ghost var w := chars[..position];
      var right := chars[length..position];
      TextHelper.CopyBlock(right, chars, 0, |right|);
      position := position - length;
      assert chars[..position] == w[length..];
    }

    /** `TrimStart()`: the leading whitespace run is removed and the rest moved to index 0. */
    method TrimStart()
      requires Valid()
      modifies this`position, chars
      ensures Valid() && State() == TrimStartText(old(State()))
    {
      var i := 0;
      while i < position && IsWhiteSpace(chars[i])
        invariant 0 <= i <= position
        invariant forall j :: 0 <= j < i ==> IsWhiteSpace(chars[j])
      {
        i := i + 1;
      }
      ghost var w := chars[..position];
      TextSplit.LeadingCountIs(w, i);
      if i > 0 {
        CutFront(i);
      }
      assert Written() == w[i..];
    }

    /** `TrimEnd()`: the trailing whitespace run is dropped by lowering `Length`. */
    method TrimEnd()
      requires Valid()
      modifies this`position
      ensures Valid() && State() == TrimEndText(old(State()))
    {
      ghost var w := chars[..position];
      var e := position - 1;
      while e >= 0 && IsWhiteSpace(chars[e])
        invariant -1 <= e < position
        invariant forall j :: e < j < |w| ==> IsWhiteSpace(w[j])
      {
        e := e - 1;
      }
      TrimEndAt(w, IsWhiteSpace, e + 1);
      if e < position - 1 {
        position := e + 1;
      }
    }

    // ------------------------------------------------------------ whole-text queries

    /** `Clear()`: `Length = 0`. */
    method Clear()
      requires Valid()
      modifies this`position
      ensures Valid() && State() == St("", old(newLineIndent))
    {
      SetLength(0);
    }

    /** `ToString()`. */
    function ToString(): (s: string)
      reads this, chars
      requires Valid()
      ensures |s| == position && forall i :: 0 <= i < position ==> s[i] == chars[i]
    {
      chars[..position]
    }

    /** `ToStringAndClear()`: the written text, and an empty builder. */
    method ToStringAndClear() returns (s: string)
      requires Valid()
      modifies this`position
      ensures Valid() && s == old(Written()) && State() == St("", old(newLineIndent))
    {
      s := ToString();
      SetLength(0);
    }

    /** `TryCopyTo(Span<char>)`: the written text into `destination` when it fits. */
    method TryCopyTo(destination: array<char>) returns (ok: bool)
      requires Valid() && destination != chars
      modifies destination
      ensures ok <==> position <= destination.Length
      ensures ok ==> destination[..position] == Written()
      ensures !ok ==> destination[..] == old(destination[..])
    {
      ok := TextHelper.TryCopyTo(chars[..position], destination);
    }

    /** `Equals(string?)` and `Equals(ReadOnlySpan<char>)`: ordinal, a null string as empty. */
    function EqualsText(text: Option<string>): (r: bool)
      reads this, chars
      requires Valid()
      ensures r <==> Written() == TextHelper.AsSpan(text)
    {
      TextHelper.SpanEqualsNullable(chars[..position], text)
    }

    /** `Equals(object?)` for another builder: the two written texts are ordinally equal. */
    function EqualsBuilder(other: CodeBuilder): (r: bool)
      reads this, chars, other, other.chars
      requires Valid() && other.Valid()
      ensures r <==> Written() == other.Written()
    {
      TextHelper.SpanEquals(chars[..position], other.chars[..other.position])
    }

    // ------------------------------------------------------------ whole-text writers

    /** `EnsureOnStartOfNewLine()`. */
    method EnsureOnStartOfNewLine()
      requires Valid()
      modifies this, chars
      ensures Valid() && (chars == old(chars) || fresh(chars))
      ensures State() == EnsureNewLine(old(State()))
    {
      if !EndsWith(chars[..position], newLineIndent) {
        NewLine();
      }
    }

    /** `Code(NonFormattableString)`: the listed lines of the text, a NewLine before each but the first. */
    method Code(text: string)
      requires Valid()
      modifies this, chars
      ensures Valid() && (chars == old(chars) || fresh(chars))
      ensures State() == CodeText(old(State()), text)
    {
      var lines := TextSplit.ToList(text, DefaultNewLine, TextSplit.NoOptions);
      CodeListed(lines);
    }

    /** The loop of `Code` over the listed lines. */
    method CodeListed(lines: seq<string>)
      requires Valid()
      modifies this, chars
      ensures Valid() && (chars == old(chars) || fresh(chars))
      ensures State() == CodeLines(old(State()), lines, true)
    {
      ghost var goal := CodeLines(State(), lines, true);
      assert lines[0..] == lines;
      var k := 0;
      while k < |lines|
        invariant k <= |lines|
        invariant Valid() && (chars == old(chars) || fresh(chars))
        invariant CodeLines(State(), lines[k..], k == 0) == goal
      {
        CodeLinesAt(State(), lines, k, k == 0);
        if k > 0 {
          NewLine();
        }
        Append(lines[k]);
        k := k + 1;
      }
    }

    /** `Append(prefix).AppendLine(line)` for each slice the enumerator has left. */
    method PrefixRemaining(e: TextSplit.SplitEnumerator, prefix: string)
      requires Valid()
      modifies this, chars, e
      ensures Valid() && (chars == old(chars) || fresh(chars))
      ensures State() == PrefixLines(old(State()), prefix, TextSplit.SplitFrom(e.input, e.separator, e.options, old(e.position)))
    {
      ghost var st0 := State();
      while true
        invariant Valid() && (chars == old(chars) || fresh(chars))
        invariant PrefixLines(st0, prefix, TextSplit.SplitFrom(e.input, e.separator, e.options, old(e.position)))
          == PrefixLines(State(), prefix, TextSplit.SplitFrom(e.input, e.separator, e.options, e.position))
        decreases |TextSplit.SplitFrom(e.input, e.separator, e.options, e.position)|
      {
        var moved := e.MoveNext();
        if !moved {
          return;
        }
        Append(prefix);
        AppendLine(e.current);
      }
    }

    /** `Append(prefix).AppendLine(lines[k])` for every listed line from index `from` on. */
    method PrefixEach(prefix: string, lines: seq<string>, from: nat)
      requires Valid() && from <= |lines|
      modifies this, chars
      ensures Valid() && (chars == old(chars) || fresh(chars))
      ensures State() == PrefixLines(old(State()), prefix, lines[from..])
    {
      ghost var goal := PrefixLines(State(), prefix, lines[from..]);
      var k := from;
      while k < |lines|
        invariant from <= k <= |lines|
        invariant Valid() && (chars == old(chars) || fresh(chars))
        invariant PrefixLines(State(), prefix, lines[k..]) == goal
      {
        PrefixLinesAt(State(), prefix, lines, k);
        Append(prefix);
        AppendLine(lines[k]);
        k := k + 1;
      }
    }

    /** The starred form of a listed comment: `/* ` and the first line, ` * ` and each further line,
      * then ` */`. */
    method WriteStarred(lines: seq<string>)
      requires Valid() && |lines| >= 2
      modifies this, chars
      ensures Valid() && (chars == old(chars) || fresh(chars))
      ensures State() == StarredComment(old(State()), lines)
    {
      Append("/* ");
      AppendLine(lines[0]);
      PrefixEach(" * ", lines, 1);
      AppendLine(" */");
    }

    /** `Comment(string?)`; the split of any text has at least one line, so the branch for none is
      * never taken. */
    method Comment(comment: Option<string>)
      requires Valid()
      modifies this, chars
      ensures Valid() && (chars == old(chars) || fresh(chars))
      ensures State() == CommentText(old(State()), comment)
    {
      var text := TextHelper.AsSpan(comment);
      var comments := TextSplit.ToList(text, DefaultNewLine, TextSplit.NoOptions);
      TextSplit.SplitNonEmpty(text, DefaultNewLine);
      if |comments| == 0 {
        assert false;
      }
      if |comments| == 1 {
        Append("// ");
        AppendLine(comments[0]);
        return;
      }
      WriteStarred(comments);
    }

    /** `Comment(string?, CommentType)`: SingleLine and XML prefix every line; every other style,
      * an undefined one included, is written as a multi-line comment. */
    method CommentAs(comment: Option<string>, style: Coding.CommentType)
      requires Valid()
      modifies this, chars
      ensures Valid() && (chars == old(chars) || fresh(chars))
      ensures State() == StyledComment(old(State()), comment, style)
    {
      var text := TextHelper.AsSpan(comment);
      if style.SingleLine? {
        var e := new TextSplit.SplitEnumerator(text, DefaultNewLine, TextSplit.NoOptions);
        PrefixRemaining(e, "// ");
      } else if style.Xml? {
        var e := new TextSplit.SplitEnumerator(text, DefaultNewLine, TextSplit.NoOptions);
        PrefixRemaining(e, "/// ");
      } else {
        var comments := TextSplit.ToList(text, DefaultNewLine, TextSplit.NoOptions);
        TextSplit.SplitNonEmpty(text, DefaultNewLine);
        if |comments| == 0 {
          assert false;
        }
        if |comments| == 1 {
          Append("/* ");
          Append(comments[0]);
          AppendLine(" */");
          return;
        }
        WriteStarred(comments);
      }
    }

    // ------------------------------------------------------------ callbacks

    /** One call a callback makes on the builder. */
    method Run(c: Cmd) returns (thrown: Option<Exception>)
      requires Valid()
      modifies this, chars
      decreases c, 2
      ensures Valid() && (chars == old(chars) || fresh(chars))
      ensures Ending(thrown) == ExecCmd(c, old(State()))
    {
      if IsPlain(c) {
        RunPlain(c);
        return None;
      }
      ghost var st := State();
      match c
      case Format(v, f) => FormatStep(c, st); thrown := RunFormat(v, f);
      case CodeFormat(f, args) => FormatStep(c, st); thrown := RunCodeFormat(f, args);
      case CodeLineFormat(f, args) =>
        FormatStep(c, st);
        thrown := RunCodeFormat(f, args);
        if thrown.None? {
          NewLine();
        }
      case Enumerate(items) => SequenceStep(c, st); thrown := RunBodies(items);
      case Delimit(_, _) => SequenceStep(c, st); thrown := RunDelimit(c);
      case DelimitText(sep, items) =>
        SequenceStep(c, st);
        if TextHelper.AsSpan(sep) == "" {
          thrown := RunBodies(items);
        } else {
          thrown := RunDelimitText(sep.value, items);
        }
      case IndentBlock(i, body) => IndentBlockStep(c, st); thrown := RunIndented(i, body);
      case BracketBlock(body, i) => BlockStep(c, st); thrown := RunBracket(body, i.GetOr(DefaultIndent));
      case If(b, t, f) =>
        BlockStep(c, st);
        if b {
          thrown := RunBody(t);
        } else {
          thrown := RunBody(f);
        }
    }

    /** A call that runs no callback and formats no argument; none of them throws. */
    method RunPlain(c: Cmd)
      requires Valid() && IsPlain(c)
      modifies this, chars
      ensures Valid() && (chars == old(chars) || fresh(chars))
      ensures Done(State()) == ExecCmd(c, old(State()))
    {
      ghost var st := State();
      match c
      case Append(t) => TextStep(c, st); Append(t);
      case AppendLine(t) => TextStep(c, st); AppendLine(t);
      case NewLine => TextStep(c, st); NewLine();
      case TrimStart => TextStep(c, st); TrimStart();
      case TrimEnd => TextStep(c, st); TrimEnd();
      case EnsureOnStartOfNewLine => TextStep(c, st); EnsureOnStartOfNewLine();
      case Code(t) => WriterStep(c, st); Code(t);
      case CodeLine(t) => WriterStep(c, st); Code(t); NewLine();
      case Comment(t) => WriterStep(c, st); Comment(t);
      case CommentAs(t, style) => WriterStep(c, st); CommentAs(t, style);
    }

    /** A `CBA`: its calls in order, up to the first that throws. */
    method RunBody(cs: Body) returns (thrown: Option<Exception>)
      requires Valid()
      modifies this, chars
      decreases cs, 0
      ensures Valid() && (chars == old(chars) || fresh(chars))
      ensures Ending(thrown) == ExecBody(cs, old(State()))
    {
      if |cs| == 0 {
        return None;
      }
      thrown := Run(cs[0]);
      if thrown.Some? {
        return;
      }
      thrown := RunBody(cs[1..]);
    }

    /** `Enumerate(values, perValueAction)`: the action once per value, in order. */
    method RunBodies(bs: seq<Applied>) returns (thrown: Option<Exception>)
      requires Valid()
      modifies this, chars
      decreases bs, 1
      ensures Valid() && (chars == old(chars) || fresh(chars))
      ensures Ending(thrown) == ExecBodies(bs, old(State()))
    {
      var k := 0;
      while k < |bs|
        invariant k <= |bs|
        invariant Valid() && (chars == old(chars) || fresh(chars))
        invariant ExecBodies(bs, old(State())) == ExecBodies(bs[k..], State())
      {
        BodiesStep(bs[k..], State());
        assert bs[k..][1..] == bs[k + 1..];
        thrown := RunBody(bs[k].calls);
        if thrown.Some? {
          return;
        }
        k := k + 1;
      }
      return None;
    }

    /** `Delimit(delimitAction, values, perValueAction)`: the first value, then the delimiter and the
      * next value for each further one. */
    method RunDelimit(c: Cmd) returns (thrown: Option<Exception>)
      requires Valid() && c.Delimit?
      modifies this, chars
      decreases c, 1
      ensures Valid() && (chars == old(chars) || fresh(chars))
      ensures Ending(thrown) == ExecDelimit(c, 0, old(State()))
    {
      if |c.delimited| == 0 {
        DelimitEnd(c, State());
        return None;
      }
      DelimitStep(c, 0, State());
      thrown := RunBody(c.delimited[0].calls);
      if thrown.Some? {
        return;
      }
      var k := 1;
      while k < |c.delimited|
        invariant 1 <= k <= |c.delimited|
        invariant Valid() && (chars == old(chars) || fresh(chars))
        invariant ExecDelimit(c, 0, old(State())) == ExecDelimit(c, k, State())
      {
        DelimitStep(c, k, State());
        thrown := RunBody(c.delimiter);
        if thrown.Some? {
          return;
        }
        thrown := RunBody(c.delimited[k].calls);
        if thrown.Some? {
          return;
        }
        k := k + 1;
      }
      DelimitEnd(c, State());
      return None;
    }

    /** `Delimit(string, values, perValueAction)` with a delimiter: `Format(delimiter)` between values. */
    method RunDelimitText(sep: string, bs: seq<Applied>) returns (thrown: Option<Exception>)
      requires Valid()
      modifies this, chars
      decreases bs, 1
      ensures Valid() && (chars == old(chars) || fresh(chars))
      ensures Ending(thrown) == ExecDelimitText(sep, bs, true, old(State()))
    {
      ghost var goal := ExecDelimitText(sep, bs, true, State());
      assert bs[0..] == bs;
      var k := 0;
      while k < |bs|
        invariant k <= |bs|
        invariant Valid() && (chars == old(chars) || fresh(chars))
        invariant DelimitsTo(sep, bs[k..], k == 0, State(), goal)
      {
        DelimitsToAt(sep, bs, k, k == 0, State(), goal);
        thrown := RunDelimited(sep, bs[k].calls, k == 0);
        if thrown.Some? {
          return;
        }
        k := k + 1;
      }
      return None;
    }

    /** One value of `Delimit(string, …)`: the delimiter unless it is the first, then its action. */
    method RunDelimited(sep: string, calls: Body, first: bool) returns (thrown: Option<Exception>)
      requires Valid()
      modifies this, chars
      decreases calls, 1
      ensures Valid() && (chars == old(chars) || fresh(chars))
      ensures Ending(thrown) == ExecBody(calls, if first then old(State()) else Put(old(State()), sep))
    {
      if !first {
        Append(sep);
      }
      thrown := RunBody(calls);
    }

    /** The start of `IndentBlock(indent, block)`: the indent is written at once when the current line
      * indent is exactly the old indent, and `_newLineIndent` grows by `indent`. */
    method EnterIndentBlock(indent: string)
      requires Valid()
      modifies this, chars
      ensures Valid() && (chars == old(chars) || fresh(chars))
      ensures State() == EnterIndent(old(State()), indent)
    {
      var oldIndent := newLineIndent;
      if CurrentNewLineIndentText() == oldIndent {
        Append(indent);
      }
      newLineIndent := oldIndent + indent;
    }

    /** The end of `IndentBlock`: the old indent comes back, and a trailing new indent is rewritten
      * into the old one (`Length -= newIndent.Length`, then `Write(oldIndent)`). */
    method LeaveIndentBlock(oldIndent: string, newIndent: string)
      requires Valid()
      modifies this, chars
      ensures Valid() && (chars == old(chars) || fresh(chars))
      ensures Done(State()) == LeaveIndent(Done(old(State())), oldIndent, newIndent)
    {
      newLineIndent := oldIndent;
      if EndsWith(chars[..position], newIndent) {
        ghost var w := chars[..position];
        SetLength(position - |newIndent|);
        assert chars[..position] == w[..|w| - |newIndent|];
        Append(oldIndent);
      }
    }

    /** `IndentBlock(indent, block)`; an exception from the block leaves the inner indent in place. */
    method RunIndented(indent: string, body: Body) returns (thrown: Option<Exception>)
      requires Valid()
      modifies this, chars
      decreases body, 1
      ensures Valid() && (chars == old(chars) || fresh(chars))
      ensures Ending(thrown) == LeaveIndent(ExecBody(body, EnterIndent(old(State()), indent)), old(newLineIndent), old(newLineIndent) + indent)
    {
      var oldIndent := newLineIndent;
      EnterIndentBlock(indent);
      thrown := RunBody(body);
      if thrown.Some? {
        return;
      }
      LeaveIndentBlock(oldIndent, oldIndent + indent);
    }

    /** `BracketBlock(block, indent)` with the indent resolved. */
    method RunBracket(body: Body, indent: string) returns (thrown: Option<Exception>)
      requires Valid()
      modifies this, chars
      decreases body, 2
      ensures Valid() && (chars == old(chars) || fresh(chars))
      ensures Ending(thrown) == ExecBracket(body, indent, old(State()))
    {
      ghost var st0 := State();
      TrimEnd();
      NewLine();
      AppendChar('{');
      Append("\r\n");
      assert State() == OpenBracket(st0);
      thrown := RunIndented(indent, body);
      ghost var inner := Ending(thrown);
      assert ExecBracket(body, indent, st0) == CloseBracket(inner);
      if thrown.Some? {
        return;
      }
      EnsureOnStartOfNewLine();
      AppendChar('}');
    }

    // ------------------------------------------------------------ values and format strings

    /** `Format<T>(value, format)`. */
    method RunFormat(v: Obj, format: Option<string>) returns (thrown: Option<Exception>)
      requires Valid()
      modifies this, chars
      decreases v, 2
      ensures Valid() && (chars == old(chars) || fresh(chars))
      ensures Ending(thrown) == ExecObj(v, format, old(State()))
    {
      thrown := None;
      match v
      case Null =>
      case Callback(body) =>
        var oldIndent := newLineIndent;
        var currentIndent := CurrentNewLineIndentText();
        newLineIndent := currentIndent;
        thrown := RunBody(body);
        if thrown.None? {
          newLineIndent := oldIndent;
        }
      case Str(s) => Append(s);
      case Formattable(render) => AppendString(render(format));
      case Sequence(es) =>
        var sep := format.GetOr(",");
        if sep == "" {
          thrown := RunFormats(es);
        } else {
          thrown := RunDelimitFormats(es, sep);
        }
      case Other(t) => AppendString(t);
    }

    /** `Enumerate(values, (w, v) => w.Format(v))`. */
    method RunFormats(es: seq<Obj>) returns (thrown: Option<Exception>)
      requires Valid()
      modifies this, chars
      decreases es, 1
      ensures Valid() && (chars == old(chars) || fresh(chars))
      ensures Ending(thrown) == ExecObjs(es, old(State()))
    {
      var k := 0;
      while k < |es|
        invariant k <= |es|
        invariant Valid() && (chars == old(chars) || fresh(chars))
        invariant ExecObjs(es, old(State())) == ExecObjs(es[k..], State())
      {
        assert es[k..][0] == es[k] && es[k..][1..] == es[k + 1..];
        thrown := RunFormat(es[k], None);
        if thrown.Some? {
          return;
        }
        k := k + 1;
      }
      return None;
    }

    /** `Delimit(sep, values, (w, v) => w.Format(v))` with a non-empty delimiter. */
    method RunDelimitFormats(es: seq<Obj>, sep: string) returns (thrown: Option<Exception>)
      requires Valid()
      modifies this, chars
      decreases es, 1
      ensures Valid() && (chars == old(chars) || fresh(chars))
      ensures Ending(thrown) == ExecDelimitObjs(es, sep, true, old(State()))
    {
      var k := 0;
      while k < |es|
        invariant k <= |es|
        invariant Valid() && (chars == old(chars) || fresh(chars))
        invariant ExecDelimitObjs(es, sep, true, old(State())) == ExecDelimitObjs(es[k..], sep, k == 0, State())
      {
        assert es[k..][0] == es[k] && es[k..][1..] == es[k + 1..];
        if k > 0 {
          Append(sep);
        }
        thrown := RunFormat(es[k], None);
        if thrown.Some? {
          return;
        }
        k := k + 1;
      }
      return None;
    }

    /** `Code(FormattableString)`: `WriteFormatLine` for each listed line, a NewLine before each but
      * the first, up to the first that throws. */
    method RunCodeFormat(format: string, args: seq<Obj>) returns (thrown: Option<Exception>)
      requires Valid()
      modifies this, chars
      decreases args, 2
      ensures Valid() && (chars == old(chars) || fresh(chars))
      ensures Ending(thrown) == FormatLines(args, Lines(format), true, old(State()))
    {
      var lines := TextSplit.ToList(format, DefaultNewLine, TextSplit.NoOptions);
      ghost var goal := FormatLines(args, lines, true, State());
      assert lines[0..] == lines;
      var k := 0;
      while k < |lines|
        invariant k <= |lines|
        invariant Valid() && (chars == old(chars) || fresh(chars))
        invariant FormatsTo(args, lines[k..], k == 0, State(), goal)
      {
        FormatsToAt(args, lines, k, k == 0, State(), goal);
        thrown := RunFormatLineAt(args, lines[k], k == 0);
        if thrown.Some? {
          return;
        }
        k := k + 1;
      }
      return None;
    }

    /** One listed line of a format: a NewLine unless it is the first, then the line. */
    method RunFormatLineAt(args: seq<Obj>, line: string, first: bool) returns (thrown: Option<Exception>)
      requires Valid()
      modifies this, chars
      decreases args, 1
      ensures Valid() && (chars == old(chars) || fresh(chars))
      ensures Ending(thrown) == WriteFormatLine(args, line, if first then old(State()) else PutNewLine(old(State())))
    {
      if !first {
        NewLine();
      }
      thrown := RunFormatLine(args, line);
    }

    /** `WriteFormatLine(line, args)`: the parsed segments in order, then FormatException for a
      * malformed line. */
    method RunFormatLine(args: seq<Obj>, line: string) returns (thrown: Option<Exception>)
      requires Valid()
      modifies this, chars
      decreases args, 0
      ensures Valid() && (chars == old(chars) || fresh(chars))
      ensures Ending(thrown) == WriteFormatLine(args, line, old(State()))
    {
      var segments, error := Template.ParseFormat(line, |args|);
      Template.ParseHolesBelow(line, 0, |args|);
      var j := 0;
      while j < |segments|
        invariant j <= |segments|
        invariant Valid() && (chars == old(chars) || fresh(chars))
        invariant Template.HolesBelow(segments[j..], |args|)
        invariant RenderSegments(args, segments, old(State())) == RenderSegments(args, segments[j..], State())
      {
        assert segments[j..][0] == segments[j] && segments[j..][1..] == segments[j + 1..];
        match segments[j] {
          case Lit(t) => Append(t);
          case Hole(i, f) =>
            thrown := RunFormat(args[i], f);
            if thrown.Some? {
              return;
            }
        }
        j := j + 1;
      }
      if error.Some? {
        return Some(FormatException);
      }
      return None;
    }
  }

  // ---------------------------------------------------------------- one step of the semantics

  /** The calls that run no callback and format no argument. */
  predicate IsPlain(c: Cmd)
  {
    c.Append? || c.AppendLine? || c.NewLine? || c.Code? || c.CodeLine? || c.TrimStart? || c.TrimEnd?
    || c.EnsureOnStartOfNewLine? || c.Comment? || c.CommentAs?
  }

  lemma TextStep(c: Cmd, st: St)
    requires c.Append? || c.AppendLine? || c.NewLine? || c.TrimStart? || c.TrimEnd? || c.EnsureOnStartOfNewLine?
    ensures c.Append? ==> ExecCmd(c, st) == Done(Put(st, c.text))
    ensures c.AppendLine? ==> ExecCmd(c, st) == Done(PutNewLine(Put(st, c.text)))
    ensures c.NewLine? ==> ExecCmd(c, st) == Done(PutNewLine(st))
    ensures c.TrimStart? ==> ExecCmd(c, st) == Done(TrimStartText(st))
    ensures c.TrimEnd? ==> ExecCmd(c, st) == Done(TrimEndText(st))
    ensures c.EnsureOnStartOfNewLine? ==> ExecCmd(c, st) == Done(EnsureNewLine(st))
  {
  }

  lemma WriterStep(c: Cmd, st: St)
    requires c.Code? || c.CodeLine? || c.Comment? || c.CommentAs?
    ensures c.Code? ==> ExecCmd(c, st) == Done(CodeText(st, c.code))
    ensures c.CodeLine? ==> ExecCmd(c, st) == Done(PutNewLine(CodeText(st, c.lineCode)))
    ensures c.Comment? ==> ExecCmd(c, st) == Done(CommentText(st, c.comment))
    ensures c.CommentAs? ==> ExecCmd(c, st) == Done(StyledComment(st, c.styled, c.style))
  {
  }

  lemma FormatStep(c: Cmd, st: St)
    requires c.Format? || c.CodeFormat? || c.CodeLineFormat?
    ensures c.Format? ==> ExecCmd(c, st) == ExecObj(c.obj, c.itemFormat, st)
    ensures c.CodeFormat? ==> ExecCmd(c, st) == FormatLines(c.args, Lines(c.format), true, st)
    ensures c.CodeLineFormat? ==> ExecCmd(c, st) == NewLineAfter(FormatLines(c.lineArgs, Lines(c.lineFormat), true, st))
  {
  }

  lemma SequenceStep(c: Cmd, st: St)
    requires c.Enumerate? || c.Delimit? || c.DelimitText?
    ensures c.Enumerate? ==> ExecCmd(c, st) == ExecBodies(c.items, st)
    ensures c.Delimit? ==> ExecCmd(c, st) == ExecDelimit(c, 0, st)
    ensures c.DelimitText? ==> (ExecCmd(c, st) ==
      if TextHelper.AsSpan(c.separator) == "" then ExecBodies(c.separated, st)
      else ExecDelimitText(c.separator.value, c.separated, true, st))
  {
  }

  lemma BlockStep(c: Cmd, st: St)
    requires c.BracketBlock? || c.If?
    ensures c.BracketBlock? ==> ExecCmd(c, st) == ExecBracket(c.bracketed, c.bracketIndent.GetOr(DefaultIndent), st)
    ensures c.If? ==> ExecCmd(c, st) == if c.condition then ExecBody(c.ifTrue, st) else ExecBody(c.ifFalse, st)
  {
  }

  lemma BodiesStep(bs: seq<Applied>, st: St)
    requires |bs| > 0
    ensures ExecBodies(bs, st) == match ExecBody(bs[0].calls, st)
      case Failed(e, s) => Failed(e, s)
      case Done(s) => ExecBodies(bs[1..], s)
  {
  }

  lemma DelimitStep(c: Cmd, k: nat, st: St)
    requires c.Delimit? && k < |c.delimited|
    ensures ExecDelimit(c, k, st) ==
      match (if k == 0 then Done(st) else ExecBody(c.delimiter, st))
      case Failed(e, s) => Failed(e, s)
      case Done(s) =>
        match ExecBody(c.delimited[k].calls, s)
        case Failed(e, s') => Failed(e, s')
        case Done(s') => ExecDelimit(c, k + 1, s')
  {
  }

  lemma DelimitEnd(c: Cmd, st: St)
    requires c.Delimit?
    ensures ExecDelimit(c, |c.delimited|, st) == Done(st)
  {
  }
}
