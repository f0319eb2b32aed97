/** The `Jay.SourceGen.Coding.CodeBuilder` class: a char buffer with a write position and the indent
  * string `_newLineIndent`. Each method is proved to leave the buffer in the state the semantics of
  * the Coding module gives the call. */
module CodingBuilder {
  import opened Wrappers
  import opened Strings
  import opened CharClass
  import opened Coding
  import Numbers
  import TextHelper
  import TextSplit
  import Template

  /** The smallest capacity the constructor rents. */
  const MinimumCapacity: nat := 1024

  /** The outcome of a call that may throw, read off the builder's state afterwards. */
  datatype RemoveResult = Removed(slice: string) | Refused | Threw(error: Exception)

  class CodeBuilder {
    /** `_charArray`, `_position` and `_newLineIndent`. */
    var chars: array<char>
    var position: nat
    var newLineIndent: string

    predicate Valid()
      reads this
    {
      position <= chars.Length
    }

    /** `Capacity`: the length of the rented array. */
    function Capacity(): nat
      reads this
    {
      chars.Length
    }

    /** `Written`: the first `Length` chars of the buffer. */
    function Written(): string
      reads this, chars
      requires Valid()
    {
      chars[..position]
    }

    /** The builder as the semantics sees it. */
    function State(): St
      reads this, chars
      requires Valid()
    {
      St(chars[..position], newLineIndent)
    }

    /** The builder after a call: its state, together with the exception the call threw if any. */
    function Ending(thrown: Option<Exception>): Outcome
      reads this, chars
      requires Valid()
    {
      match thrown
      case None => Done(State())
      case Some(e) => Failed(e, State())
    }

    /** `new CodeBuilder(minCapacity)`: an empty buffer of at least 1024 chars, indent `DefaultNewLine`. */
    constructor (minCapacity: int)
      ensures Valid() && fresh(chars)
      ensures State() == St("", DefaultNewLine)
      ensures chars.Length == if minCapacity > MinimumCapacity then minCapacity else MinimumCapacity
    {
      var capacity: nat := if minCapacity > MinimumCapacity then minCapacity else MinimumCapacity;
      chars := new char[capacity];
      position := 0;
      newLineIndent := DefaultNewLine;
    }

    // ------------------------------------------------------------ growth

    /** `GrowCore`: a new array of exactly `minCapacity` chars holding the written text. */
    method GrowCore(minCapacity: nat)
      requires Valid() && minCapacity >= position
      modifies this
      ensures Valid() && fresh(chars) && chars.Length == minCapacity
      ensures State() == old(State())
    {
      var newArray := new char[minCapacity];
      TextHelper.CopyBlock(chars[..position], newArray, 0, position);
      chars := newArray;
    }

    /** `GrowTo(minCapacity)`: grows only when the request exceeds the capacity. */
    method GrowTo(minCapacity: int)
      requires Valid()
      modifies this
      ensures Valid() && State() == old(State())
      ensures minCapacity > old(Capacity()) ==> fresh(chars) && Capacity() == minCapacity
      ensures minCapacity <= old(Capacity()) ==> chars == old(chars)
    {
      if minCapacity > chars.Length {
        GrowCore(minCapacity);
      }
    }

    /** `GrowBy(adding)`: for a positive amount, a new capacity of `(adding + Capacity) * 2`. */
    method GrowBy(adding: int)
      requires Valid()
      modifies this
      ensures Valid() && State() == old(State())
      ensures adding > 0 ==> fresh(chars) && Capacity() == (adding + old(Capacity())) * 2
      ensures adding <= 0 ==> chars == old(chars)
    {
      if adding > 0 {
        var newCapacity := (adding + chars.Length) * 2;
        GrowCore(newCapacity);
      }
    }

    /** `Allocate(count)`: the span `chars[start..start + count]` past the written text, growing by
      * `count` when it does not fit; a non-positive count allocates nothing. */
    method Allocate(count: int) returns (start: nat)
      requires Valid()
      modifies this
      ensures Valid() && start == old(position) && newLineIndent == old(newLineIndent)
      ensures count > 0 ==> position == old(position) + count
      ensures count <= 0 ==> position == old(position) && chars == old(chars)
      ensures chars[..old(position)] == old(chars[..position])
      ensures chars == old(chars) || fresh(chars)
      ensures old(position) + count > old(Capacity()) && count > 0 ==>
        Capacity() == (count + old(Capacity())) * 2
    {
      start := position;
      if count > 0 {
        var end := start + count;
        if end > chars.Length {
          GrowBy(count);
        }
        position := end;
      }
    }

    // ------------------------------------------------------------ appends

    /** `Append(ReadOnlySpan<char>)`: `Written` becomes the old text followed by `text`. */
    method Append(text: string)
      requires Valid()
      modifies this, chars
      ensures Valid() && State() == Put(old(State()), text)
      ensures chars == old(chars) || fresh(chars)
    {
      var len := |text|;
      if len > 0 {
        var start := Allocate(len);
        TextHelper.CopyBlock(text, chars, start, len);
        assert chars[..position] == chars[..start] + chars[start..start + len];
      }
    }

    /** `Append(char)`: `Allocate(1)[0] = ch`. */
    method AppendChar(ch: char)
      requires Valid()
      modifies this, chars
      ensures Valid() && State() == Put(old(State()), [ch])
      ensures chars == old(chars) || fresh(chars)
    {
      var start := Allocate(1);
      chars[start] := ch;
      assert chars[..position] == chars[..start] + [ch];
    }

    /** `Append(string?)`: a null string writes nothing. */
    method AppendString(str: Option<string>)
      requires Valid()
      modifies this, chars
      ensures Valid() && State() == Put(old(State()), TextHelper.AsSpan(str))
      ensures str.None? ==> State() == old(State())
      ensures chars == old(chars) || fresh(chars)
    {
      if str.Some? {
        Append(str.value);
      }
    }

    /** `NewLine()`: `Append(_newLineIndent)`. */
    method NewLine()
      requires Valid()
      modifies this, chars
      ensures Valid() && State() == PutNewLine(old(State()))
      ensures chars == old(chars) || fresh(chars)
    {
      Append(newLineIndent);
    }

    /** `AppendLine(text)`: `Append(text).NewLine()`. */
    method AppendLine(text: string)
      requires Valid()
      modifies this, chars
      ensures Valid() && State() == PutNewLine(Put(old(State()), text))
      ensures chars == old(chars) || fresh(chars)
    {
      Append(text);
      NewLine();
    }

    /** `NewLines(count)`: `count` NewLines, none for a non-positive count. */
    method NewLines(count: int)
      requires Valid()
      modifies this, chars
      ensures Valid() && State() == PutNewLines(old(State()), count)
      ensures chars == old(chars) || fresh(chars)
    {
      var i := 0;
      while i < count
        invariant Valid() && (chars == old(chars) || fresh(chars))
        invariant i <= count || i == 0
        invariant State() == St(old(chars[..position]) + Repeat(newLineIndent, i), old(newLineIndent))
        decreases count - i
      {
        RepeatOneMore(newLineIndent, i);
        Append(newLineIndent);
        i := i + 1;
      }
    }

    // ------------------------------------------------------------ length and indexers

    /** The `Length` setter: the value clamped into `[0, Capacity]`. */
    method SetLength(value: int)
      requires Valid()
      modifies this`position
      ensures Valid() && position == Numbers.Clamp(value, 0, Capacity())
    {
      Numbers.ClampInRange(value, 0, chars.Length);
      position := Numbers.Clamp(value, 0, chars.Length);
    }

    /** `this[int index]`: the char at `index`, or ArgumentOutOfRangeException outside `[0, Length)`. */
    function At(index: int): (r: Result<char, Exception>)
      reads this, chars
      requires Valid()
      ensures r.Ok? <==> 0 <= index < position
      ensures r.Ok? ==> r.value == Written()[index]
      ensures r.Err? ==> r.error == ArgumentOutOfRangeException
    {
      if 0 <= index < position then Ok(chars[index]) else Err(ArgumentOutOfRangeException)
    }

    /** `this[Range range]` for a range of from-start indexes: `GetOffsetAndLength(Length)` rejects a
      * range that is reversed or ends past `Length`, so the following bound check always passes,
      * and the slice is `chars[start..end]`. */
    function Slice(start: nat, end: nat): (r: Result<string, Exception>)
      reads this, chars
      requires Valid()
      ensures r.Ok? <==> start <= end <= position
      ensures r.Ok? ==> r.value == Written()[start..end]
      ensures r.Err? ==> r.error == ArgumentOutOfRangeException
    {
      if start <= end <= position then Ok(chars[start..end]) else Err(ArgumentOutOfRangeException)
    }

    /** `CurrentLine`. */
    function CurrentLineText(): (line: string)
      reads this, chars
      requires Valid()
      ensures EndsWith(Written(), line)
    {
      CurrentLineIsLastLine(chars[..position]);
      CurrentLine(chars[..position])
    }

    // ------------------------------------------------------------ remove and trim

    /** Deletes `chars[start..start + length]` by shifting the text after it to the left. */
    method Cut(start: nat, length: nat)
      requires Valid() && start + length <= position
      modifies this`position, chars
      ensures Valid() && newLineIndent == old(newLineIndent)
      ensures Written() == old(Written()[..start] + Written()[start + length..])
    {
      ghost var w := chars[..position];
      var right := chars[start + length..position];
      TextHelper.CopyBlock(right, chars, start, |right|);
      position := position - length;
      assert chars[..start] == w[..start];
      assert chars[start..position] == w[start + length..];
      assert chars[..position] == chars[..start] + chars[start..position];
    }

    /** `TryRemove(int index)` and `TryRemove(int index, out char ch)`: false outside `[0, Length)`;
      * otherwise the char at `index` is removed and returned. */
    method TryRemoveAt(index: int) returns (removed: bool, ch: char)
      requires Valid()
      modifies this`position, chars
      ensures Valid() && newLineIndent == old(newLineIndent)
      ensures removed <==> 0 <= index < old(position)
      ensures removed ==> ch == old(Written()[index])
      ensures removed ==> Written() == old(Written()[..index] + Written()[index + 1..])
      ensures !removed ==> Written() == old(Written())
    {
      if index < 0 || index >= position {
        return false, 0 as char;
      }
      ch := chars[index];
      Cut(index, 1);
      removed := true;
    }

    /** `TryRemove(int start, int length)` with the bound check fixed: false when either argument is
      * negative or the slice runs past `Length`; otherwise the slice is removed and returned. */
    method TryRemoveSlice(start: int, length: int) returns (r: RemoveResult)
      requires Valid()
      modifies this`position, chars
      ensures Valid() && newLineIndent == old(newLineIndent)
      ensures r == RemoveSpec(old(Written()), start, length)
      ensures r.Removed? ==> Written() == old(Written()[..start] + Written()[start + length..])
      ensures !r.Removed? ==> Written() == old(Written())
    {
      if start < 0 || length < 0 || start + length > position {
        return Refused;
      }
      var slice := chars[start..start + length];
      if length > 0 {
        Cut(start, length);
      }
      return Removed(slice);
    }

    /** `TryRemove(Range)` and `TryRemove(Range, out string)` for a range of from-start indexes:
      * `GetOffsetAndLength` throws ArgumentOutOfRangeException for a range past `Length`, so the
      * method never returns false; a range inside removes exactly that slice. */
    method TryRemoveRange(start: nat, end: nat) returns (r: RemoveResult)
      requires Valid()
      modifies this`position, chars
      ensures Valid() && newLineIndent == old(newLineIndent)
      ensures r.Removed? <==> start <= end <= old(position)
      ensures !r.Removed? ==> r == Threw(ArgumentOutOfRangeException) && Written() == old(Written())
      ensures r.Removed? ==> r.slice == old(Written()[start..end])
      ensures r.Removed? ==> Written() == old(Written()[..start] + Written()[end..])
    {
      if !(start <= end <= position) {
        return Threw(ArgumentOutOfRangeException);
      }
      var slice := chars[start..end];
      if end - start > 0 {
        Cut(start, end - start);
      }
      return Removed(slice);
    }

    /** `TrimStart()`: the leading whitespace run is removed and the rest moved to index 0. */
    method TrimStart()
      requires Valid()
      modifies this`position, chars
      ensures Valid() && State() == TrimStartText(old(State()))
    {
      var len := position;
      var i := 0;
      while i < len && IsWhiteSpace(chars[i])
        invariant 0 <= i <= len
        invariant forall j :: 0 <= j < i ==> IsWhiteSpace(chars[j])
      {
        i := i + 1;
      }
      ghost var w := chars[..position];
      TextSplit.LeadingCountIs(w, i);
      if i > 0 {
        Cut(0, i);
      }
      assert Written() == w[i..];
    }

    /** `TrimEnd()`: the trailing whitespace run is dropped by lowering `Length`. */
    method TrimEnd()
      requires Valid()
      modifies this`position
      ensures Valid() && State() == TrimEndText(old(State()))
    {
      ghost var w := chars[..position];
      var e := position - 1;
      while e >= 0 && IsWhiteSpace(chars[e])
        invariant -1 <= e < position
        invariant forall j :: e < j < |w| ==> IsWhiteSpace(w[j])
      {
        e := e - 1;
      }
      TrimEndAt(w, IsWhiteSpace, e + 1);
      if e < position - 1 {
        position := e + 1;
      }
    }

    // ------------------------------------------------------------ whole-text queries

    /** `Clear()`: `Length = 0`. */
    method Clear()
      requires Valid()
      modifies this`position
      ensures Valid() && State() == St("", old(newLineIndent))
    {
      SetLength(0);
    }

    /** `ToString()`. */
    function ToString(): (s: string)
      reads this, chars
      requires Valid()
      ensures |s| == position && forall i :: 0 <= i < position ==> s[i] == chars[i]
    {
      chars[..position]
    }

    /** `ToStringAndClear()`: the written text, and an empty builder. */
    method ToStringAndClear() returns (s: string)
      requires Valid()
      modifies this`position
      ensures Valid() && s == old(Written()) && State() == St("", old(newLineIndent))
    {
      s := ToString();
      SetLength(0);
    }

    /** `TryCopyTo(Span<char>)`: the written text into `destination` when it fits. */
    method TryCopyTo(destination: array<char>) returns (ok: bool)
      requires Valid() && destination != chars
      modifies destination
      ensures ok <==> position <= destination.Length
      ensures ok ==> destination[..position] == Written()
      ensures !ok ==> destination[..] == old(destination[..])
    {
      ok := TextHelper.TryCopyTo(chars[..position], destination);
    }

    /** `Equals(string?)` and `Equals(ReadOnlySpan<char>)`: ordinal, a null string as empty. */
    function EqualsText(text: Option<string>): (r: bool)
      reads this, chars
      requires Valid()
      ensures r <==> Written() == TextHelper.AsSpan(text)
    {
      TextHelper.SpanEqualsNullable(chars[..position], text)
    }

    // ------------------------------------------------------------ whole-text writers

    /** `EnsureOnStartOfNewLine()`. */
    method EnsureOnStartOfNewLine()
      requires Valid()
      modifies this, chars
      ensures Valid() && (chars == old(chars) || fresh(chars))
      ensures State() == EnsureNewLine(old(State()))
    {
      if !EndsWith(chars[..position], newLineIndent) {
        NewLine();
      }
    }

    /** `Code(NonFormattableString)`: the lines of the text, a NewLine before each but the first. */
    method Code(text: string)
      requires Valid()
      modifies this, chars
      ensures Valid() && (chars == old(chars) || fresh(chars))
      ensures State() == CodeText(old(State()), text)
    {
      ghost var st0 := State();
      var e := new TextSplit.SplitEnumerator(text, DefaultNewLine, TextSplit.NoOptions);
      TextSplit.SplitNonEmpty(text, DefaultNewLine);
      var moved := e.MoveNext();
      if !moved {
        assert false;
      }
      ghost var first := e.current;
      ghost var rest := TextSplit.SplitFrom(text, DefaultNewLine, TextSplit.NoOptions, e.position);
      Append(e.current);
      CodeRemaining(e);
      CodeTextCons(st0, text, first, rest);
    }

    /** `NewLine().Append(line)` for each slice the enumerator has left. */
    method CodeRemaining(e: TextSplit.SplitEnumerator)
      requires Valid()
      modifies this, chars, e
      ensures Valid() && (chars == old(chars) || fresh(chars))
      ensures State() == CodeRest(old(State()), TextSplit.SplitFrom(e.input, e.separator, e.options, old(e.position)))
    {
      ghost var goal := CodeRest(State(), TextSplit.SplitFrom(e.input, e.separator, e.options, e.position));
      while true
        invariant Valid() && (chars == old(chars) || fresh(chars))
        invariant goal == CodeRest(State(), TextSplit.SplitFrom(e.input, e.separator, e.options, e.position))
        decreases |TextSplit.SplitFrom(e.input, e.separator, e.options, e.position)|
      {
        ghost var before := State();
        var moved := e.MoveNext();
        if !moved {
          return;
        }
        CodeRestCons(before, e.current, TextSplit.SplitFrom(e.input, e.separator, e.options, e.position));
        NewLine();
        Append(e.current);
      }
    }

    /** `Using(nameSpace)`. */
    method Using(nameSpace: string)
      requires Valid()
      modifies this, chars
      ensures Valid() && (chars == old(chars) || fresh(chars))
      ensures State() == UsingText(old(State()), nameSpace)
    {
      var ns := UsingName(nameSpace);
      if |ns| > 0 {
        Append("using ");
        Append(ns);
        AppendChar(';');
        NewLine();
      }
    }

    /** `Namespace(string?)`. */
    method Namespace(nameSpace: Option<string>)
      requires Valid()
      modifies this, chars
      ensures Valid() && (chars == old(chars) || fresh(chars))
      ensures State() == NamespaceText(old(State()), nameSpace)
    {
      var ns := Trim(TextHelper.AsSpan(nameSpace));
      if |ns| == 0 {
        return;
      }
      Append("namespace ");
      Append(ns);
      AppendChar(';');
      NewLine();
      NewLine();
    }

    /** `Append(prefix).AppendLine(line)` for each slice the enumerator has left. */
    method PrefixRemaining(e: TextSplit.SplitEnumerator, prefix: string)
      requires Valid()
      modifies this, chars, e
      ensures Valid() && (chars == old(chars) || fresh(chars))
      ensures State() == PrefixLines(old(State()), prefix, TextSplit.SplitFrom(e.input, e.separator, e.options, old(e.position)))
    {
      ghost var st0 := State();
      while true
        invariant Valid() && (chars == old(chars) || fresh(chars))
        invariant PrefixLines(st0, prefix, TextSplit.SplitFrom(e.input, e.separator, e.options, old(e.position)))
          == PrefixLines(State(), prefix, TextSplit.SplitFrom(e.input, e.separator, e.options, e.position))
        decreases |TextSplit.SplitFrom(e.input, e.separator, e.options, e.position)|
      {
        var moved := e.MoveNext();
        if !moved {
          return;
        }
        Append(prefix);
        AppendLine(e.current);
      }
    }

    /** The starred form of a comment: `/* ` and `first`, ` * ` and each further line (the enumerator's
      * current one and those it has left), then ` */`. */
    method WriteStarred(first: string, e: TextSplit.SplitEnumerator)
      requires Valid()
      modifies this, chars, e
      ensures Valid() && (chars == old(chars) || fresh(chars))
      ensures State() == StarredComment(old(State()), [first, old(e.current)] + TextSplit.SplitFrom(e.input, e.separator, e.options, old(e.position)))
    {
      ghost var st0 := State();
      ghost var second := e.current;
      ghost var rest := TextSplit.SplitFrom(e.input, e.separator, e.options, e.position);
      Append("/* ");
      AppendLine(first);
      ghost var st1 := State();
      Append(" * ");
      AppendLine(e.current);
      PrefixRemaining(e, " * ");
      PrefixLinesCons(st1, " * ", second, rest);
      AppendLine(" */");
      StarredCons(st0, first, second, rest);
    }

    /** `Comment(string?)`. */
    method Comment(comment: Option<string>)
      requires Valid()
      modifies this, chars
      ensures Valid() && (chars == old(chars) || fresh(chars))
      ensures State() == CommentText(old(State()), comment)
    {
      var text := TextHelper.AsSpan(comment);
      var e := new TextSplit.SplitEnumerator(text, DefaultNewLine, TextSplit.NoOptions);
      TextSplit.SplitNonEmpty(text, DefaultNewLine);
      var moved := e.MoveNext();
      if !moved {
        assert false;
      }
      var first := e.current;
      moved := e.MoveNext();
      if !moved {
        Append("// ");
        AppendLine(first);
        return;
      }
      WriteStarred(first, e);
    }

    /** `Comment(string?, CommentType)`. */
    method CommentAs(comment: Option<string>, style: CommentType) returns (thrown: Option<Exception>)
      requires Valid()
      modifies this, chars
      ensures Valid() && (chars == old(chars) || fresh(chars))
      ensures Ending(thrown) == StyledComment(old(State()), comment, style)
    {
      var text := TextHelper.AsSpan(comment);
      var e := new TextSplit.SplitEnumerator(text, DefaultNewLine, TextSplit.NoOptions);
      match style
      case SingleLine =>
        PrefixRemaining(e, "// ");
        return None;
      case Xml =>
        PrefixRemaining(e, "/// ");
        return None;
      case MultiLine =>
        TextSplit.SplitNonEmpty(text, DefaultNewLine);
        var moved := e.MoveNext();
        if !moved {
          assert false;
        }
        var first := e.current;
        moved := e.MoveNext();
        if !moved {
          Append("/* ");
          Append(first);
          AppendLine(" */");
          return None;
        }
        WriteStarred(first, e);
        return None;
      case Undefined(_) =>
        return Some(ArgumentOutOfRangeException);
    }

    // ------------------------------------------------------------ callbacks

    /** One call a callback makes on the builder. */
    method Run(c: Cmd) returns (thrown: Option<Exception>)
      requires Valid()
      modifies this, chars
      decreases c, 2
      ensures Valid() && (chars == old(chars) || fresh(chars))
      ensures Ending(thrown) == ExecCmd(c, old(State()))
    {
      if IsPlain(c) {
        thrown := RunPlain(c);
        return;
      }
      ghost var st := State();
      match c
      case Value(v, f) => ValueStep(c, st); thrown := RunValue(v, f);
      case CodeFormat(f, args) => FormatStep(c, st); thrown := RunCodeFormat(f, args);
      case CodeBlock(f, args) =>
        FormatStep(c, st);
        thrown := RunCodeFormat(f, args);
        if thrown.None? {
          NewLine();
        }
      case Enumerate(items) => SequenceStep(c, st); thrown := RunBodies(items);
      case Delimit(_, _) => SequenceStep(c, st); thrown := RunDelimit(c);
      case DelimitText(sep, items) =>
        SequenceStep(c, st);
        if TextHelper.AsSpan(sep) == "" {
          thrown := RunBodies(items);
        } else {
          thrown := RunDelimitText(sep.value, items);
        }
      case IndentBlock(i, body) => IndentBlockStep(c, st); thrown := RunIndented(i, body);
      case BracketBlock(body, i) => BlockStep(c, st); thrown := RunBracket(body, i.GetOr(DefaultIndent));
      case Directive(name, arg, body, end) => BlockStep(c, st); thrown := RunDirective(name, arg, body, end);
      case NamespaceBlock(ns, body) => NamespaceBlockStep(c, st); thrown := RunNamespaceBlock(ns, body);
      case If(b, t, f) =>
        BlockStep(c, st);
        if b {
          thrown := RunBody(t);
        } else {
          thrown := RunBody(f);
        }
    }

    /** A call that runs no callback and formats no argument. */
    method RunPlain(c: Cmd) returns (thrown: Option<Exception>)
      requires Valid() && IsPlain(c)
      modifies this, chars
      ensures Valid() && (chars == old(chars) || fresh(chars))
      ensures Ending(thrown) == ExecCmd(c, old(State()))
    {
      ghost var st := State();
      thrown := None;
      match c
      case Append(t) => TextStep(c, st); Append(t);
      case AppendLine(t) => TextStep(c, st); AppendLine(t);
      case NewLine => TextStep(c, st); NewLine();
      case NewLines(n) => TextStep(c, st); NewLines(n);
      case Code(t) => CodeStep(c, st); Code(t);
      case CodeLine(t) => FormatStep(c, st); Code(t); NewLine();
      case TrimStart => TextStep(c, st); TrimStart();
      case TrimEnd => TextStep(c, st); TrimEnd();
      case EnsureOnStartOfNewLine => TextStep(c, st); EnsureOnStartOfNewLine();
      case Using(ns) => WriterStep(c, st); Using(ns);
      case Namespace(ns) => WriterStep(c, st); Namespace(ns);
      case Comment(t) => WriterStep(c, st); Comment(t);
      case CommentAs(t, style) => WriterStep(c, st); thrown := CommentAs(t, style);
    }

    /** A `CBA`: its calls in order, up to the first that throws. */
    method RunBody(cs: Body) returns (thrown: Option<Exception>)
      requires Valid()
      modifies this, chars
      decreases cs, 0
      ensures Valid() && (chars == old(chars) || fresh(chars))
      ensures Ending(thrown) == ExecBody(cs, old(State()))
    {
      if |cs| == 0 {
        return None;
      }
      thrown := Run(cs[0]);
      if thrown.Some? {
        return;
      }
      thrown := RunBody(cs[1..]);
    }

    /** `Enumerate(values, perValueAction)`: the action once per value, in order. */
    method RunBodies(bs: seq<Applied>) returns (thrown: Option<Exception>)
      requires Valid()
      modifies this, chars
      decreases bs, 1
      ensures Valid() && (chars == old(chars) || fresh(chars))
      ensures Ending(thrown) == ExecBodies(bs, old(State()))
    {
      var k := 0;
      while k < |bs|
        invariant k <= |bs|
        invariant Valid() && (chars == old(chars) || fresh(chars))
        invariant ExecBodies(bs, old(State())) == ExecBodies(bs[k..], State())
      {
        BodiesStep(bs[k..], State());
        assert bs[k..][1..] == bs[k + 1..];
        thrown := RunBody(bs[k].calls);
        if thrown.Some? {
          return;
        }
        k := k + 1;
      }
      return None;
    }

    /** `Delimit(delimitAction, values, perValueAction)`: the first value, then the delimiter and the
      * next value for each further one. */
    method RunDelimit(c: Cmd) returns (thrown: Option<Exception>)
      requires Valid() && c.Delimit?
      modifies this, chars
      decreases c, 1
      ensures Valid() && (chars == old(chars) || fresh(chars))
      ensures Ending(thrown) == ExecDelimit(c, 0, old(State()))
    {
      if |c.delimited| == 0 {
        DelimitEnd(c, State());
        return None;
      }
      DelimitStep(c, 0, State());
      thrown := RunBody(c.delimited[0].calls);
      if thrown.Some? {
        return;
      }
      var k := 1;
      while k < |c.delimited|
        invariant 1 <= k <= |c.delimited|
        invariant Valid() && (chars == old(chars) || fresh(chars))
        invariant ExecDelimit(c, 0, old(State())) == ExecDelimit(c, k, State())
      {
        DelimitStep(c, k, State());
        thrown := RunBody(c.delimiter);
        if thrown.Some? {
          return;
        }
        thrown := RunBody(c.delimited[k].calls);
        if thrown.Some? {
          return;
        }
        k := k + 1;
      }
      DelimitEnd(c, State());
      return None;
    }

    /** `Delimit(string, values, perValueAction)` with a delimiter: `Code(delimiter)` between values. */
    method RunDelimitText(sep: string, bs: seq<Applied>) returns (thrown: Option<Exception>)
      requires Valid()
      modifies this, chars
      decreases bs, 1
      ensures Valid() && (chars == old(chars) || fresh(chars))
      ensures Ending(thrown) == ExecDelimitText(sep, bs, true, old(State()))
    {
      ghost var goal := ExecDelimitText(sep, bs, true, State());
      var k := 0;
      while k < |bs|
        invariant k <= |bs|
        invariant Valid() && (chars == old(chars) || fresh(chars))
        invariant DelimitsTo(sep, bs[k..], k == 0, State(), goal)
      {
        DelimitsToCons(sep, bs[k], bs[k + 1..], k == 0, State(), goal);
        thrown := RunDelimited(sep, bs[k].calls, k == 0);
        if thrown.Some? {
          return;
        }
        k := k + 1;
      }
      return None;
    }

    /** One value of `Delimit(string, …)`: `Code(delimiter)` unless it is the first, then its action. */
    method RunDelimited(sep: string, calls: Body, first: bool) returns (thrown: Option<Exception>)
      requires Valid()
      modifies this, chars
      decreases calls, 1
      ensures Valid() && (chars == old(chars) || fresh(chars))
      ensures Ending(thrown) == ExecBody(calls, if first then old(State()) else CodeText(old(State()), sep))
    {
      if !first {
        Code(sep);
      }
      thrown := RunBody(calls);
    }

    /** The start of `IndentBlock(indent, block)`: the indent is written at once when the current line
      * is exactly the old indent, and `_newLineIndent` grows by `indent`. */
    method EnterIndentBlock(indent: string)
      requires Valid()
      modifies this, chars
      ensures Valid() && (chars == old(chars) || fresh(chars))
      ensures State() == EnterIndent(old(State()), indent)
    {
      var oldIndent := newLineIndent;
      if TextHelper.SpanEqualsNullable(CurrentLineText(), Some(oldIndent)) {
        Append(indent);
      }
      newLineIndent := oldIndent + indent;
    }

    /** The end of `IndentBlock`: the old indent comes back, and a trailing new indent is rewritten
      * into the old one. */
    method LeaveIndentBlock(oldIndent: string, newIndent: string)
      requires Valid()
      modifies this, chars
      ensures Valid() && (chars == old(chars) || fresh(chars))
      ensures Done(State()) == LeaveIndent(Done(old(State())), oldIndent, newIndent)
    {
      newLineIndent := oldIndent;
      if EndsWith(chars[..position], newIndent) {
        ghost var w := chars[..position];
        position := position - |newIndent|;
        assert chars[..position] == w[..|w| - |newIndent|];
        Append(oldIndent);
      }
    }

    /** `IndentBlock(indent, block)`. */
    method RunIndented(indent: string, body: Body) returns (thrown: Option<Exception>)
      requires Valid()
      modifies this, chars
      decreases body, 1
      ensures Valid() && (chars == old(chars) || fresh(chars))
      ensures Ending(thrown) == LeaveIndent(ExecBody(body, EnterIndent(old(State()), indent)), old(newLineIndent), old(newLineIndent) + indent)
    {
      var oldIndent := newLineIndent;
      EnterIndentBlock(indent);
      thrown := RunBody(body);
      if thrown.Some? {
        return;
      }
      LeaveIndentBlock(oldIndent, oldIndent + indent);
    }

    /** The start of `BracketBlock(block, indent)`: `TrimEnd().NewLine().AppendLine('{')`, then the start of
      * the indented block. */
    method OpenBracketBlock(indent: string)
      requires Valid()
      modifies this, chars
      ensures Valid() && (chars == old(chars) || fresh(chars))
      ensures State() == EnterIndent(OpenBracket(old(State())), indent)
    {
      ghost var st0 := State();
      TrimEnd();
      NewLine();
      AppendChar('{');
      NewLine();
      assert State() == OpenBracket(st0);
      EnterIndentBlock(indent);
    }

    /** The end of `BracketBlock`: the end of the indented block that began at `oldIndent`, then
      * `EnsureOnStartOfNewLine().Append('}')`. */
    method CloseBracketBlock(oldIndent: string, indent: string)
      requires Valid()
      modifies this, chars
      ensures Valid() && (chars == old(chars) || fresh(chars))
      ensures Done(State()) == CloseBracket(LeaveIndent(Done(old(State())), oldIndent, oldIndent + indent))
    {
      LeaveIndentBlock(oldIndent, oldIndent + indent);
      EnsureOnStartOfNewLine();
      AppendChar('}');
    }

    /** `BracketBlock(block, indent)` with the indent resolved. */
    method RunBracket(body: Body, indent: string) returns (thrown: Option<Exception>)
      requires Valid()
      modifies this, chars
      decreases body, 2
      ensures Valid() && (chars == old(chars) || fresh(chars))
      ensures Ending(thrown) == ExecBracket(body, indent, old(State()))
    {
      ghost var st0 := State();
      var oldIndent := newLineIndent;
      OpenBracketBlock(indent);
      thrown := RunBody(body);
      if thrown.Some? {
        return;
      }
      CloseBracketBlock(oldIndent, indent);
    }

    /** The head of `Directive`: `#name`, the value unless it is null or empty, and a NewLine. */
    method WriteDirectiveHead(name: string, argument: Option<string>)
      requires Valid()
      modifies this, chars
      ensures Valid() && (chars == old(chars) || fresh(chars))
      ensures State() == DirectiveHead(old(State()), name, argument)
    {
      AppendChar('#');
      Append(name);
      if TextHelper.AsSpan(argument) != "" {
        AppendChar(' ');
        Append(argument.value);
      }
      NewLine();
    }

    /** `Directive(name, value, block, end)`. */
    method RunDirective(name: string, argument: Option<string>, body: Body, end: Option<string>) returns (thrown: Option<Exception>)
      requires Valid()
      modifies this, chars
      decreases body, 1
      ensures Valid() && (chars == old(chars) || fresh(chars))
      ensures Ending(thrown) == DirectiveEnd(ExecBody(body, DirectiveHead(old(State()), name, argument)), name, end)
    {
      WriteDirectiveHead(name, argument);
      thrown := RunBody(body);
      if thrown.Some? {
        return;
      }
      EnsureOnStartOfNewLine();
      AppendLine(end.GetOr("#end" + name));
    }

    /** `Namespace(nameSpace, block)`: a blank name throws ArgumentException. */
    method RunNamespaceBlock(nameSpace: string, body: Body) returns (thrown: Option<Exception>)
      requires Valid()
      modifies this, chars
      decreases body, 3
      ensures Valid() && (chars == old(chars) || fresh(chars))
      ensures var name := Trim(nameSpace);
        Ending(thrown) == if |name| == 0 then Failed(ArgumentException, old(State()))
          else NewLineAfter(ExecBracket(body, DefaultIndent, PutNewLine(Put(Put(old(State()), "namespace "), name))))
    {
      var name := Trim(nameSpace);
      if |name| == 0 {
        return Some(ArgumentException);
      }
      Append("namespace ");
      Append(name);
      NewLine();
      thrown := RunBracket(body, DefaultIndent);
      if thrown.None? {
        NewLine();
      }
    }

    // ------------------------------------------------------------ values and format strings

    /** `Value(value, format)`. */
    method RunValue(v: Obj, format: Option<string>) returns (thrown: Option<Exception>)
      requires Valid()
      modifies this, chars
      decreases v, 2
      ensures Valid() && (chars == old(chars) || fresh(chars))
      ensures Ending(thrown) == ExecObj(v, format, old(State()))
    {
      ghost var st := State();
      thrown := None;
      match v
      case Null =>
      case Callback(body) =>
        var oldIndent := newLineIndent;
        newLineIndent := CurrentLineText();
        thrown := RunBody(body);
        if thrown.None? {
          newLineIndent := oldIndent;
        }
      case Str(s) => Append(s);
      case Formattable(render) => AppendString(render(format));
      case Sequence(es) =>
        var sep := format.GetOr(",");
        if sep == "" {
          thrown := RunValues(es);
        } else {
          thrown := RunDelimitValues(es, sep);
        }
      case Other(t) => AppendString(t);
    }

    /** `Enumerate(values, (w, v) => w.Value(v))`. */
    method RunValues(es: seq<Obj>) returns (thrown: Option<Exception>)
      requires Valid()
      modifies this, chars
      decreases es, 1
      ensures Valid() && (chars == old(chars) || fresh(chars))
      ensures Ending(thrown) == ExecObjs(es, old(State()))
    {
      var k := 0;
      while k < |es|
        invariant k <= |es|
        invariant Valid() && (chars == old(chars) || fresh(chars))
        invariant ExecObjs(es, old(State())) == ExecObjs(es[k..], State())
      {
        assert es[k..][0] == es[k] && es[k..][1..] == es[k + 1..];
        thrown := RunValue(es[k], None);
        if thrown.Some? {
          return;
        }
        k := k + 1;
      }
      return None;
    }

    /** `Delimit(sep, values, (w, v) => w.Value(v))` with a non-empty delimiter. */
    method RunDelimitValues(es: seq<Obj>, sep: string) returns (thrown: Option<Exception>)
      requires Valid()
      modifies this, chars
      decreases es, 1
      ensures Valid() && (chars == old(chars) || fresh(chars))
      ensures Ending(thrown) == ExecDelimitObjs(es, sep, true, old(State()))
    {
      var k := 0;
      while k < |es|
        invariant k <= |es|
        invariant Valid() && (chars == old(chars) || fresh(chars))
        invariant ExecDelimitObjs(es, sep, true, old(State())) == ExecDelimitObjs(es[k..], sep, k == 0, State())
      {
        assert es[k..][0] == es[k] && es[k..][1..] == es[k + 1..];
        if k > 0 {
          Code(sep);
        }
        thrown := RunValue(es[k], None);
        if thrown.Some? {
          return;
        }
        k := k + 1;
      }
      return None;
    }

    /** `Code(FormattableString)`: `WriteFormatLine` for each line, a NewLine before each but the first. */
    method RunCodeFormat(format: string, args: seq<Obj>) returns (thrown: Option<Exception>)
      requires Valid()
      modifies this, chars
      decreases args, 2
      ensures Valid() && (chars == old(chars) || fresh(chars))
      ensures Ending(thrown) == FormatLines(args, Lines(format), true, old(State()))
    {
      ghost var goal := FormatLines(args, Lines(format), true, State());
      var e := new TextSplit.SplitEnumerator(format, DefaultNewLine, TextSplit.NoOptions);
      TextSplit.SplitNonEmpty(format, DefaultNewLine);
      var moved := e.MoveNext();
      if !moved {
        assert false;
      }
      FormatsToCons(args, e.current, TextSplit.SplitFrom(format, DefaultNewLine, TextSplit.NoOptions, e.position), true, State(), goal);
      thrown := RunFormatLine(args, e.current);
      if thrown.Some? {
        return;
      }
      thrown := RunFormatRest(e, args, goal);
    }

    /** The lines after the first, each preceded by a NewLine, taken from the enumerator `e`. */
    method RunFormatRest(e: TextSplit.SplitEnumerator, args: seq<Obj>, ghost goal: Outcome) returns (thrown: Option<Exception>)
      requires Valid()
      requires FormatsTo(args, TextSplit.SplitFrom(e.input, e.separator, e.options, e.position), false, State(), goal)
      modifies this, chars, e`position, e`current, e`rangeStart, e`rangeEnd
      decreases args, 1
      ensures Valid() && (chars == old(chars) || fresh(chars))
      ensures Ending(thrown) == goal
    {
      while true
        invariant Valid() && (chars == old(chars) || fresh(chars))
        invariant FormatsTo(args, TextSplit.SplitFrom(e.input, e.separator, e.options, e.position), false, State(), goal)
        decreases |TextSplit.SplitFrom(e.input, e.separator, e.options, e.position)|
      {
        ghost var before := State();
        var moved := e.MoveNext();
        if !moved {
          return None;
        }
        FormatsToCons(args, e.current, TextSplit.SplitFrom(e.input, e.separator, e.options, e.position), false, before, goal);
        thrown := RunNextFormatLine(args, e.current);
        if thrown.Some? {
          return;
        }
      }
    }

    /** A line of a format after the first: a NewLine, then the line. */
    method RunNextFormatLine(args: seq<Obj>, line: string) returns (thrown: Option<Exception>)
      requires Valid()
      modifies this, chars
      decreases args, 0, 1
      ensures Valid() && (chars == old(chars) || fresh(chars))
      ensures Ending(thrown) == WriteFormatLine(args, line, PutNewLine(old(State())))
    {
      NewLine();
      thrown := RunFormatLine(args, line);
    }

    /** `WriteFormatLine(line, args)`: the parsed segments in order, then FormatException for a
      * malformed line. */
    method RunFormatLine(args: seq<Obj>, line: string) returns (thrown: Option<Exception>)
      requires Valid()
      modifies this, chars
      decreases args, 0, 0
      ensures Valid() && (chars == old(chars) || fresh(chars))
      ensures Ending(thrown) == WriteFormatLine(args, line, old(State()))
    {
      var segments, error := Template.ParseFormat(line, |args|);
      Template.ParseHolesBelow(line, 0, |args|);
      var j := 0;
      while j < |segments|
        invariant j <= |segments|
        invariant Valid() && (chars == old(chars) || fresh(chars))
        invariant Template.HolesBelow(segments[j..], |args|)
        invariant RenderSegments(args, segments, old(State())) == RenderSegments(args, segments[j..], State())
      {
        assert segments[j..][0] == segments[j] && segments[j..][1..] == segments[j + 1..];
        match segments[j] {
          case Lit(t) => Append(t);
          case Hole(i, f) =>
            thrown := RunValue(args[i], f);
            if thrown.Some? {
              return;
            }
        }
        j := j + 1;
      }
      if error.Some? {
        return Some(FormatException);
      }
      return None;
    }
  }

  /** The intended `TryRemove(start, length)`: refused for a negative argument or a slice past the
    * end, and otherwise the removed slice. */
  function RemoveSpec(written: string, start: int, length: int): (r: RemoveResult)
    ensures r.Removed? <==> 0 <= start && 0 <= length && start + length <= |written|
    ensures r.Removed? ==> r.slice == written[start..start + length]
    ensures !r.Removed? ==> r == Refused
  {
    if start < 0 || length < 0 || start + length > |written| then Refused
    else Removed(written[start..start + length])
  }

  /** `(uint)x` for an `int` argument. */
  function UInt32(x: int): (r: nat)
    requires -0x8000_0000 <= x < 0x8000_0000
    ensures r < 0x1_0000_0000 && (x >= 0 ==> r == x) && (x < 0 ==> r == x + 0x1_0000_0000)
  {
    if x >= 0 then x else x + 0x1_0000_0000
  }

  /** `TryRemove(int start, int length)` as written: the bound check adds the two arguments as
    * wrapping `uint`s, and `Written.Slice(start)` then throws for a negative start. */
  function RemoveAsWritten(written: string, start: int, length: int): (r: RemoveResult)
    requires |written| < 0x8000_0000
    requires -0x8000_0000 <= start < 0x8000_0000 && -0x8000_0000 <= length < 0x8000_0000
    ensures r.Refused? <==> (UInt32(start) + UInt32(length)) % 0x1_0000_0000 > |written|
  {
    if (UInt32(start) + UInt32(length)) % 0x1_0000_0000 > |written| then Refused
    else if length <= 0 then Removed("")
    else if start < 0 || start + length > |written| then Threw(ArgumentOutOfRangeException)
    else Removed(written[start..start + length])
  }

  /** On non-negative arguments the check as written is the intended one. */
  lemma RemoveAsWrittenAgreesOnNaturals(written: string, start: nat, length: nat)
    requires |written| < 0x8000_0000 && start < 0x8000_0000 && length < 0x8000_0000
    ensures RemoveAsWritten(written, start, length) == RemoveSpec(written, start, length)
  {
  }

  /** `TryRemove(-1, 1)` passes the wrapped check (`0xFFFFFFFF + 1` wraps to 0) and then throws from
    * `Slice(-1)`; `TryRemove(5, -5)` reports a removal although the arguments are invalid. */
  lemma RemoveAsWrittenCounterexamples(written: string)
    requires |written| < 0x8000_0000
    ensures RemoveAsWritten(written, -1, 1) == Threw(ArgumentOutOfRangeException)
    ensures RemoveSpec(written, -1, 1) == Refused
    ensures RemoveAsWritten(written, 5, -5) == Removed("")
    ensures RemoveSpec(written, 5, -5) == Refused
  {
  }

  lemma {:induction false} RepeatOneMore(s: string, n: nat)
    ensures Repeat(s, n + 1) == Repeat(s, n) + s
    decreases n
  {
    if n > 0 {
      RepeatOneMore(s, n - 1);
    }
  }

  // ---------------------------------------------------------------- one step of the semantics

  /** The calls that run no callback and format no argument. */
  predicate IsPlain(c: Cmd)
  {
    c.Append? || c.AppendLine? || c.NewLine? || c.NewLines? || c.Code? || c.CodeLine? || c.TrimStart? || c.TrimEnd?
    || c.EnsureOnStartOfNewLine? || c.Using? || c.Namespace? || c.Comment? || c.CommentAs?
  }

  lemma TextStep(c: Cmd, st: St)
    requires c.Append? || c.AppendLine? || c.NewLine? || c.NewLines? || c.TrimStart? || c.TrimEnd? || c.EnsureOnStartOfNewLine?
    ensures c.Append? ==> ExecCmd(c, st) == Done(Put(st, c.text))
    ensures c.AppendLine? ==> ExecCmd(c, st) == Done(PutNewLine(Put(st, c.text)))
    ensures c.NewLine? ==> ExecCmd(c, st) == Done(PutNewLine(st))
    ensures c.NewLines? ==> ExecCmd(c, st) == Done(PutNewLines(st, c.count))
    ensures c.TrimStart? ==> ExecCmd(c, st) == Done(TrimStartText(st))
    ensures c.TrimEnd? ==> ExecCmd(c, st) == Done(TrimEndText(st))
    ensures c.EnsureOnStartOfNewLine? ==> ExecCmd(c, st) == Done(EnsureNewLine(st))
  {
  }

  lemma ValueStep(c: Cmd, st: St)
    requires c.Value?
    ensures ExecCmd(c, st) == ExecObj(c.obj, c.itemFormat, st)
  {
  }

  lemma FormatStep(c: Cmd, st: St)
    requires c.CodeFormat? || c.CodeLine? || c.CodeBlock?
    ensures c.CodeFormat? ==> ExecCmd(c, st) == FormatLines(c.args, Lines(c.format), true, st)
    ensures c.CodeLine? ==> ExecCmd(c, st) == Done(PutNewLine(CodeText(st, c.lineCode)))
    ensures c.CodeBlock? ==> ExecCmd(c, st) == NewLineAfter(FormatLines(c.blockArgs, Lines(c.blockFormat), true, st))
  {
  }

  lemma SequenceStep(c: Cmd, st: St)
    requires c.Enumerate? || c.Delimit? || c.DelimitText?
    ensures c.Enumerate? ==> ExecCmd(c, st) == ExecBodies(c.items, st)
    ensures c.Delimit? ==> ExecCmd(c, st) == ExecDelimit(c, 0, st)
    ensures c.DelimitText? ==> (ExecCmd(c, st) ==
      if TextHelper.AsSpan(c.separator) == "" then ExecBodies(c.separated, st)
      else ExecDelimitText(c.separator.value, c.separated, true, st))
  {
  }

  lemma BlockStep(c: Cmd, st: St)
    requires c.BracketBlock? || c.Directive? || c.If?
    ensures c.BracketBlock? ==> ExecCmd(c, st) == ExecBracket(c.bracketed, c.bracketIndent.GetOr(DefaultIndent), st)
    ensures c.Directive? ==> (ExecCmd(c, st) ==
      DirectiveEnd(ExecBody(c.directiveBody, DirectiveHead(st, c.name, c.argument)), c.name, c.end))
    ensures c.If? ==> ExecCmd(c, st) == if c.condition then ExecBody(c.ifTrue, st) else ExecBody(c.ifFalse, st)
  {
  }

  lemma WriterStep(c: Cmd, st: St)
    requires c.Using? || c.Namespace? || c.Comment? || c.CommentAs?
    ensures c.Using? ==> ExecCmd(c, st) == Done(UsingText(st, c.nameSpace))
    ensures c.Namespace? ==> ExecCmd(c, st) == Done(NamespaceText(st, c.fileNamespace))
    ensures c.Comment? ==> ExecCmd(c, st) == Done(CommentText(st, c.comment))
    ensures c.CommentAs? ==> ExecCmd(c, st) == StyledComment(st, c.styled, c.style)
  {
  }

  lemma BodiesStep(bs: seq<Applied>, st: St)
    requires |bs| > 0
    ensures ExecBodies(bs, st) == match ExecBody(bs[0].calls, st)
      case Failed(e, s) => Failed(e, s)
      case Done(s) => ExecBodies(bs[1..], s)
  {
  }

  lemma DelimitStep(c: Cmd, k: nat, st: St)
    requires c.Delimit? && k < |c.delimited|
    ensures ExecDelimit(c, k, st) ==
      match (if k == 0 then Done(st) else ExecBody(c.delimiter, st))
      case Failed(e, s) => Failed(e, s)
      case Done(s) =>
        match ExecBody(c.delimited[k].calls, s)
        case Failed(e, s') => Failed(e, s')
        case Done(s') => ExecDelimit(c, k + 1, s')
  {
  }

  lemma DelimitEnd(c: Cmd, st: St)
    requires c.Delimit?
    ensures ExecDelimit(c, |c.delimited|, st) == Done(st)
  {
  }

  /** The delimited run of `bs` from `st` ends in `goal`. */
  predicate DelimitsTo(sep: string, bs: seq<Applied>, first: bool, st: St, goal: Outcome)
  {
    ExecDelimitText(sep, bs, first, st) == goal
  }

  lemma DelimitsToCons(sep: string, b: Applied, rest: seq<Applied>, first: bool, st: St, goal: Outcome)
    requires DelimitsTo(sep, [b] + rest, first, st, goal)
    ensures var o := ExecBody(b.calls, if first then st else CodeText(st, sep));
      if o.Failed? then o == goal else DelimitsTo(sep, rest, false, o.st, goal)
  {
    assert ([b] + rest)[0] == b && ([b] + rest)[1..] == rest;
  }
}
