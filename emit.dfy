/** What the InterfaceGen writers ask of a Coding builder, and the facts about format strings and
  * values they rely on. A writer's action is an `Emission`: the builder calls it makes in order and,
  * when its own code throws after them, that exception. */
module Emit {
  import opened Wrappers
  import opened Strings
  import opened Coding
  import Template
  import TextSplit
  import TextHelper
  import CodingBuilder

  datatype Emission = Emission(calls: Body, thrown: Option<Exception>)

  /** An emission that throws nothing of its own. */
  function Plain(calls: Body): Emission
  {
    Emission(calls, None)
  }

  /** Running an emission: its calls, and then its own exception if they completed. */
  function RunEmission(e: Emission, st: St): (r: Outcome)
    ensures e.thrown.None? ==> r == ExecBody(e.calls, st)
    ensures e.thrown.Some? ==> r.Failed?
    ensures r.Done? ==> r.st.indent == st.indent
  {
    match ExecBody(e.calls, st)
    case Failed(x, s) => Failed(x, s)
    case Done(s) => if e.thrown.Some? then Failed(e.thrown.value, s) else Done(s)
  }

  /** Performs an emission on a builder. */
  method Perform(e: Emission, builder: CodingBuilder.CodeBuilder) returns (thrown: Option<Exception>)
    requires builder.Valid()
    modifies builder, builder.chars
    ensures builder.Valid() && (builder.chars == old(builder.chars) || fresh(builder.chars))
    ensures builder.Ending(thrown) == RunEmission(e, old(builder.State()))
  {
    thrown := builder.RunBody(e.calls);
    if thrown.None? && e.thrown.Some? {
      thrown := e.thrown;
    }
  }

  // ---------------------------------------------------------------- values that are text

  /** A value written as text: a string, or an object whose `ToString()` is used (a `TypeSig`, a
    * `ParameterSig`, a symbol). */
  predicate IsText(o: Obj)
  {
    o.Str? || o.Other?
  }

  predicate AllText(args: seq<Obj>)
  {
    forall i :: 0 <= i < |args| ==> IsText(args[i])
  }

  /** The text a textual value writes: the string, or its `ToString()` with null written as nothing. */
  function TextOf(o: Obj): string
    requires IsText(o)
  {
    if o.Str? then o.str else TextHelper.AsSpan(o.toString)
  }

  function TextsOf(args: seq<Obj>): (r: seq<string>)
    requires AllText(args)
    ensures |r| == |args| && forall i :: 0 <= i < |args| ==> r[i] == TextOf(args[i])
  {
    if |args| == 0 then [] else [TextOf(args[0])] + TextsOf(args[1..])
  }

  /** A textual value writes its text whatever the hole's format. */
  lemma TextValue(o: Obj, format: Option<string>, st: St)
    requires IsText(o)
    ensures ExecObj(o, format, st) == Done(Put(st, TextOf(o)))
  {
  }

  /** Textual arguments render each hole as their text, just as string arguments do. */
  lemma {:induction false} SegmentsOfText(args: seq<Obj>, segments: seq<Template.Segment>, st: St)
    requires AllText(args) && Template.HolesBelow(segments, |args|)
    decreases |segments|
    ensures RenderSegments(args, segments, st) == RenderSegments(StrObjs(TextsOf(args)), segments, st)
  {
    if |segments| > 0 {
      var strs := StrObjs(TextsOf(args));
      var head := if segments[0].Lit? then segments[0].text else TextsOf(args)[segments[0].index];
      if segments[0].Hole? {
        TextValue(args[segments[0].index], segments[0].format, st);
        assert strs[segments[0].index] == Str(head);
      }
      assert Template.HolesBelow(segments[1..], |args|);
      SegmentsOfText(args, segments[1..], Put(st, head));
    }
  }

  lemma FormatLineOfText(args: seq<Obj>, line: string, st: St)
    requires AllText(args)
    ensures WriteFormatLine(args, line, st) == WriteFormatLine(StrObjs(TextsOf(args)), line, st)
  {
    Template.ParseHolesBelow(line, 0, |args|);
    SegmentsOfText(args, Template.Parse(line, |args|).segments, st);
  }

  lemma {:induction false} FormatLinesOfText(args: seq<Obj>, lines: seq<string>, first: bool, st: St)
    requires AllText(args)
    decreases |lines|
    ensures FormatLines(args, lines, first, st) == FormatLines(StrObjs(TextsOf(args)), lines, first, st)
  {
    if |lines| > 0 {
      var s0 := if first then st else PutNewLine(st);
      FormatLineOfText(args, lines[0], s0);
      match WriteFormatLine(args, lines[0], s0)
      case Failed(e, s) =>
      case Done(s) => FormatLinesOfText(args, lines[1..], false, s);
    }
  }

  // ---------------------------------------------------------------- one-line formats

  /** No carriage return in the encoding of any of the pieces. */
  predicate LineFree(pieces: seq<Template.Piece>)
  {
    forall i :: 0 <= i < |pieces| ==> '\r' !in Template.EncodePiece(pieces[i])
  }

  lemma {:induction false} EncodeHasNoReturn(pieces: seq<Template.Piece>)
    requires LineFree(pieces)
    decreases |pieces|
    ensures '\r' !in Template.Encode(pieces)
  {
    if |pieces| > 0 {
      assert LineFree(pieces[1..]) by {
        forall i | 0 <= i < |pieces[1..]| ensures '\r' !in Template.EncodePiece(pieces[1..][i]) {
          assert pieces[1..][i] == pieces[i + 1];
        }
      }
      EncodeHasNoReturn(pieces[1..]);
      assert '\r' !in Template.EncodePiece(pieces[0]);
    }
  }

  /** A text without a carriage return is one line. */
  lemma OneLine(text: string)
    requires '\r' !in text
    ensures Lines(text) == [text]
  {
    forall k | 0 <= k
      ensures !OccursAt(text, DefaultNewLine, k)
    {
      if OccursAt(text, DefaultNewLine, k) {
        LineBreakHasReturn(text, k);
      }
    }
    TextSplit.SplitWithoutSeparator(text, DefaultNewLine);
  }

  lemma LineBreakHasReturn(text: string, k: nat)
    requires OccursAt(text, DefaultNewLine, k)
    ensures '\r' in text
  {
    assert text[k..k + 2][0] == text[k];
  }

  lemma CodeFormatIsLines(format: string, args: seq<Obj>, st: St)
    ensures ExecCmd(CodeFormat(format, args), st) == FormatLines(args, Lines(format), true, st)
  {
  }

  /** A format of one line is that line's `WriteFormatLine`. */
  lemma FormatOneLine(args: seq<Obj>, line: string, st: St)
    ensures FormatLines(args, [line], true, st) == WriteFormatLine(args, line, st)
  {
    assert [line][1..] == [];
  }

  /** `Code($"…")` of one line of pieces with textual holes writes the text the pieces stand for. */
  lemma CodeFormatOfPieces(pieces: seq<Template.Piece>, args: seq<Obj>, st: St)
    requires AllText(args) && Template.WellFormedPieces(pieces, |args|) && LineFree(pieces)
    ensures ExecCmd(CodeFormat(Template.Encode(pieces), args), st) ==
      Done(Put(st, Template.Expected(pieces, TextsOf(args))))
  {
    var f := Template.Encode(pieces);
    EncodeHasNoReturn(pieces);
    OneLine(f);
    CodeFormatIsLines(f, args, st);
    FormatOneLine(args, f, st);
    FormatLineOfText(args, f, st);
    FormatLineRendersPieces(pieces, TextsOf(args), st);
  }

  /** `CodeLine` of a one-line text writes it and a NewLine. */
  lemma CodeLineOfText(text: string, st: St)
    requires '\r' !in text
    ensures ExecCmd(CodeLine(text), st) == Done(PutNewLine(Put(st, text)))
  {
    OneLine(text);
  }

  /** `Code` of a one-line text writes it. */
  lemma CodeOfText(text: string, st: St)
    requires '\r' !in text
    ensures ExecCmd(Code(text), st) == Done(Put(st, text))
  {
    OneLine(text);
  }

  /** Pieces with no holes: the format is the text with its braces doubled. */
  function Literal(text: string): (r: seq<Template.Piece>)
    ensures |r| == 1 && r[0] == Template.Text(text)
  {
    [Template.Text(text)]
  }

  // ---------------------------------------------------------------- calls that only append

  /** The parts one after another. */
  function Concat(parts: seq<string>): string
  {
    if |parts| == 0 then "" else parts[0] + Concat(parts[1..])
  }

  /** The text a one-line `Code($"…")` writes when its format parses and its holes are textual. */
  function FlatFormat(f: string, args: seq<Obj>): Option<string>
  {
    if '\r' !in f && AllText(args) && Template.Parse(f, |args|).error.None? then
      Some(Template.RenderStrings(Template.Parse(f, |args|).segments, TextsOf(args)))
    else None
  }

  /** The text a call appends at newline indent `indent` when it only appends, whatever was written
    * before: plain appends, line ends, textual values, one-line code, and enumerations, delimitations
    * by a one-line separator and `If`s made of such calls. None for any other call. */
  function Flat(c: Cmd, indent: string): Option<string>
    decreases c
  {
    match c
    case Append(t) => Some(t)
    case AppendLine(t) => Some(t + indent)
    case NewLine => Some(indent)
    case NewLines(n) => Some(Repeat(indent, if n <= 0 then 0 else n))
    case Value(o, _) => if IsText(o) then Some(TextOf(o)) else None
    case Code(t) => if '\r' !in t then Some(t) else None
    case CodeLine(t) => if '\r' !in t then Some(t + indent) else None
    case CodeFormat(f, args) => FlatFormat(f, args)
    case CodeBlock(f, args) =>
      (match FlatFormat(f, args)
       case None => None
       case Some(t) => Some(t + indent))
    case Enumerate(items) => FlatItems(items, indent)
    case Delimit(d, items) =>
      (match FlatBody(d, indent)
       case None => None
       case Some(sep) => FlatJoin(sep, items, true, indent))
    case DelimitText(sep, items) =>
      if TextHelper.AsSpan(sep) == "" then FlatItems(items, indent)
      else if '\r' !in sep.value then FlatJoin(sep.value, items, true, indent)
      else None
    case If(b, t, f) => if b then FlatBody(t, indent) else FlatBody(f, indent)
    case _ => None
  }

  function FlatBody(cs: Body, indent: string): Option<string>
    decreases cs, 0
  {
    if |cs| == 0 then Some("")
    else
      match Flat(cs[0], indent)
      case None => None
      case Some(t) =>
        match FlatBody(cs[1..], indent)
        case None => None
        case Some(u) => Some(t + u)
  }

  function FlatItems(bs: seq<Applied>, indent: string): Option<string>
    decreases bs, 0
  {
    if |bs| == 0 then Some("")
    else
      match FlatBody(bs[0].calls, indent)
      case None => None
      case Some(t) =>
        match FlatItems(bs[1..], indent)
        case None => None
        case Some(u) => Some(t + u)
  }

  function FlatJoin(sep: string, bs: seq<Applied>, first: bool, indent: string): Option<string>
    decreases bs, 1
  {
    if |bs| == 0 then Some("")
    else
      match FlatBody(bs[0].calls, indent)
      case None => None
      case Some(t) =>
        match FlatJoin(sep, bs[1..], false, indent)
        case None => None
        case Some(u) => Some((if first then "" else sep) + t + u)
  }

  /** The calls that are not made of other calls. */
  predicate Leaf(c: Cmd)
  {
    c.Append? || c.AppendLine? || c.NewLine? || c.NewLines? || c.Value? || c.Code? || c.CodeLine? ||
    c.CodeFormat? || c.CodeBlock?
  }

  lemma LeafWrites(c: Cmd, indent: string, written: string)
    requires Leaf(c) && Flat(c, indent).Some?
    ensures ExecCmd(c, St(written, indent)) == Done(St(written + Flat(c, indent).value, indent))
  {
    if c.Value? || c.Code? || c.CodeLine? {
      TextWrites(c, indent, written);
    } else if c.CodeFormat? || c.CodeBlock? {
      FormatCmdWrites(c, indent, written);
    }
  }

  lemma TextWrites(c: Cmd, indent: string, written: string)
    requires (c.Value? || c.Code? || c.CodeLine?) && Flat(c, indent).Some?
    ensures ExecCmd(c, St(written, indent)) == Done(St(written + Flat(c, indent).value, indent))
  {
    match c
    case Value(o, f) => TextValue(o, f, St(written, indent));
    case Code(t) => CodeOfText(t, St(written, indent));
    case CodeLine(t) => CodeLineOfText(t, St(written, indent));
  }

  lemma FormatCmdWrites(c: Cmd, indent: string, written: string)
    requires (c.CodeFormat? || c.CodeBlock?) && Flat(c, indent).Some?
    ensures ExecCmd(c, St(written, indent)) == Done(St(written + Flat(c, indent).value, indent))
  {
    match c
    case CodeFormat(f, args) => FormatWrites(f, args, St(written, indent));
    case CodeBlock(f, args) => FormatWrites(f, args, St(written, indent));
  }

  /** A call with a flat text appends exactly that text and completes. */
  lemma {:induction false} FlatWrites(c: Cmd, indent: string, written: string)
    requires Flat(c, indent).Some?
    decreases c
    ensures ExecCmd(c, St(written, indent)) == Done(St(written + Flat(c, indent).value, indent))
  {
    if Leaf(c) {
      LeafWrites(c, indent, written);
    } else {
      match c
      case Enumerate(items) => FlatItemsWrite(items, indent, written);
      case Delimit(d, items) => FlatDelimitWrites(c, 0, FlatBody(d, indent).value, indent, written);
      case DelimitText(sep, items) =>
        if TextHelper.AsSpan(sep) == "" {
          FlatItemsWrite(items, indent, written);
        } else {
          FlatJoinWrites(sep.value, items, true, indent, written);
        }
      case If(b, t, f) => FlatBodyWrites(if b then t else f, indent, written);
    }
  }

  lemma {:induction false} FlatBodyWrites(cs: Body, indent: string, written: string)
    requires FlatBody(cs, indent).Some?
    decreases cs, 0
    ensures ExecBody(cs, St(written, indent)) == Done(St(written + FlatBody(cs, indent).value, indent))
  {
    if |cs| > 0 {
      var t := Flat(cs[0], indent).value;
      FlatWrites(cs[0], indent, written);
      FlatBodyWrites(cs[1..], indent, written + t);
      StringsOfTail(written, t, FlatBody(cs[1..], indent).value);
    }
  }

  lemma {:induction false} FlatItemsWrite(bs: seq<Applied>, indent: string, written: string)
    requires FlatItems(bs, indent).Some?
    decreases bs, 0
    ensures ExecBodies(bs, St(written, indent)) == Done(St(written + FlatItems(bs, indent).value, indent))
  {
    if |bs| > 0 {
      var t := FlatBody(bs[0].calls, indent).value;
      FlatBodyWrites(bs[0].calls, indent, written);
      FlatItemsWrite(bs[1..], indent, written + t);
      StringsOfTail(written, t, FlatItems(bs[1..], indent).value);
    }
  }

  lemma {:induction false} FlatJoinWrites(sep: string, bs: seq<Applied>, first: bool, indent: string, written: string)
    requires '\r' !in sep && FlatJoin(sep, bs, first, indent).Some?
    decreases bs, 1
    ensures ExecDelimitText(sep, bs, first, St(written, indent)) ==
      Done(St(written + FlatJoin(sep, bs, first, indent).value, indent))
  {
    if |bs| > 0 {
      var lead := if first then "" else sep;
      var st := St(written, indent);
      var s0 := if first then st else CodeText(st, sep);
      if !first {
        SeparatorWrites(sep, indent, written);
      }
      assert s0 == St(written + lead, indent);
      var t := FlatBody(bs[0].calls, indent).value;
      FlatBodyWrites(bs[0].calls, indent, written + lead);
      var u := FlatJoin(sep, bs[1..], false, indent).value;
      FlatJoinWrites(sep, bs[1..], false, indent, written + lead + t);
      DelimitTextStep(sep, bs, first, st, St(written + lead + t, indent));
      assert FlatJoin(sep, bs, first, indent).value == lead + t + u;
      StringsOfTail(written, lead, t);
      StringsOfTail(written, lead + t, u);
    }
  }

  /** A one-line format with textual holes writes its rendered text. */
  lemma FormatWrites(f: string, args: seq<Obj>, st: St)
    requires FlatFormat(f, args).Some?
    ensures FormatLines(args, Lines(f), true, st) == Done(Put(st, FlatFormat(f, args).value))
  {
    OneLine(f);
    FormatOneLine(args, f, st);
    FormatLineOfText(args, f, st);
    FormatLineOfStrings(TextsOf(args), f, st);
  }

  /** A one-line `$"…"` assembled from pieces, with textual holes, has the text the pieces stand for. */
  lemma PiecesAreFlat(pieces: seq<Template.Piece>, args: seq<Obj>)
    requires AllText(args) && Template.WellFormedPieces(pieces, |args|) && LineFree(pieces)
    ensures FlatFormat(Template.Encode(pieces), args) == Some(Template.Expected(pieces, TextsOf(args)))
  {
    EncodeHasNoReturn(pieces);
    Template.EncodedFormatRenders(pieces, TextsOf(args), 0);
  }

  /** The meaning of pieces, one piece at a time. */
  lemma ExpectedCons(p: Template.Piece, rest: seq<Template.Piece>, args: seq<string>)
    ensures Template.Expected([p] + rest, args) == Template.ExpectedPiece(p, args) + Template.Expected(rest, args)
  {
    assert ([p] + rest)[0] == p && ([p] + rest)[1..] == rest;
  }

  /** A piece that fits and holds no carriage return. */
  predicate PieceOk(p: Template.Piece, argCount: nat)
  {
    Template.PieceFits(p, argCount) && '\r' !in Template.EncodePiece(p)
  }

  /** One more fitting piece in front of a well-formed one-line format. */
  lemma PiecesCons(p: Template.Piece, rest: seq<Template.Piece>, argCount: nat, ts: seq<string>)
    requires PieceOk(p, argCount) && Template.WellFormedPieces(rest, argCount) && LineFree(rest)
    ensures Template.WellFormedPieces([p] + rest, argCount) && LineFree([p] + rest)
    ensures Template.Expected([p] + rest, ts) == Template.ExpectedPiece(p, ts) + Template.Expected(rest, ts)
  {
    var ps := [p] + rest;
    assert ps[0] == p && ps[1..] == rest;
    forall i | 0 <= i < |ps|
      ensures '\r' !in Template.EncodePiece(ps[i])
    {
      if i > 0 {
        assert ps[i] == rest[i - 1];
      }
    }
  }

  /** Three pieces in a row, each fitting, make a well-formed one-line format meaning their meanings. */
  lemma ThreePieces(p0: Template.Piece, p1: Template.Piece, p2: Template.Piece, argCount: nat, ts: seq<string>)
    requires PieceOk(p0, argCount) && PieceOk(p1, argCount) && PieceOk(p2, argCount)
    ensures Template.WellFormedPieces([p0, p1, p2], argCount) && LineFree([p0, p1, p2])
    ensures Template.Expected([p0, p1, p2], ts) ==
      Template.ExpectedPiece(p0, ts) + Template.ExpectedPiece(p1, ts) + Template.ExpectedPiece(p2, ts)
  {
    PiecesCons(p2, [], argCount, ts);
    assert [p2] + [] == [p2];
    PiecesCons(p1, [p2], argCount, ts);
    assert [p1] + [p2] == [p1, p2];
    PiecesCons(p0, [p1, p2], argCount, ts);
    assert [p0] + [p1, p2] == [p0, p1, p2];
  }

  /** Five pieces in a row, likewise. */
  lemma FivePieces(p0: Template.Piece, p1: Template.Piece, p2: Template.Piece, p3: Template.Piece, p4: Template.Piece,
    argCount: nat, ts: seq<string>)
    requires PieceOk(p0, argCount) && PieceOk(p1, argCount) && PieceOk(p2, argCount)
    requires PieceOk(p3, argCount) && PieceOk(p4, argCount)
    ensures Template.WellFormedPieces([p0, p1, p2, p3, p4], argCount) && LineFree([p0, p1, p2, p3, p4])
    ensures Template.Expected([p0, p1, p2, p3, p4], ts) ==
      Template.ExpectedPiece(p0, ts) + (Template.ExpectedPiece(p1, ts) + Template.Expected([p2, p3, p4], ts))
  {
    ThreePieces(p2, p3, p4, argCount, ts);
    var tail := [p2, p3, p4];
    PiecesCons(p1, tail, argCount, ts);
    var t1 := [p1] + tail;
    assert t1 == [p1, p2, p3, p4];
    PiecesCons(p0, t1, argCount, ts);
    assert [p0] + t1 == [p0, p1, p2, p3, p4];
  }

  /** A one-line format of three fitting pieces, with textual arguments, has the three meanings. */
  lemma FormatOfThree(p0: Template.Piece, p1: Template.Piece, p2: Template.Piece, args: seq<Obj>)
    requires AllText(args) && PieceOk(p0, |args|) && PieceOk(p1, |args|) && PieceOk(p2, |args|)
    ensures var ts := TextsOf(args);
      FlatFormat(Template.Encode([p0, p1, p2]), args) ==
      Some(Template.ExpectedPiece(p0, ts) + Template.ExpectedPiece(p1, ts) + Template.ExpectedPiece(p2, ts))
  {
    ThreePieces(p0, p1, p2, |args|, TextsOf(args));
    PiecesAreFlat([p0, p1, p2], args);
  }

  /** A one-line format of five fitting pieces, with textual arguments, has the five meanings. */
  lemma FormatOfFive(p0: Template.Piece, p1: Template.Piece, p2: Template.Piece, p3: Template.Piece, p4: Template.Piece,
    args: seq<Obj>)
    requires AllText(args) && PieceOk(p0, |args|) && PieceOk(p1, |args|) && PieceOk(p2, |args|)
    requires PieceOk(p3, |args|) && PieceOk(p4, |args|)
    ensures var ts := TextsOf(args);
      FlatFormat(Template.Encode([p0, p1, p2, p3, p4]), args) ==
      Some(Template.ExpectedPiece(p0, ts) + Template.ExpectedPiece(p1, ts) + Template.ExpectedPiece(p2, ts) +
        Template.ExpectedPiece(p3, ts) + Template.ExpectedPiece(p4, ts))
  {
    var ts := TextsOf(args);
    ThreePieces(p2, p3, p4, |args|, ts);
    FivePieces(p0, p1, p2, p3, p4, |args|, ts);
    PiecesAreFlat([p0, p1, p2, p3, p4], args);
    var e0, e1, e2, e3, e4 := Template.ExpectedPiece(p0, ts), Template.ExpectedPiece(p1, ts),
      Template.ExpectedPiece(p2, ts), Template.ExpectedPiece(p3, ts), Template.ExpectedPiece(p4, ts);
    StringsOfTail(e0, e1, e2 + e3 + e4);
    StringsOfTail(e0 + e1, e2 + e3, e4);
    StringsOfTail(e0 + e1, e2, e3);
  }

  /** Two well-formed one-line formats in a row make one, meaning the two meanings in order. */
  lemma {:induction false} PiecesAppend(a: seq<Template.Piece>, b: seq<Template.Piece>, argCount: nat, ts: seq<string>)
    requires Template.WellFormedPieces(a, argCount) && LineFree(a)
    requires Template.WellFormedPieces(b, argCount) && LineFree(b)
    decreases |a|
    ensures Template.WellFormedPieces(a + b, argCount) && LineFree(a + b)
    ensures Template.Expected(a + b, ts) == Template.Expected(a, ts) + Template.Expected(b, ts)
  {
    if |a| == 0 {
      assert a + b == b;
    } else {
      var ab := a + b;
      assert ab[0] == a[0] && ab[1..] == a[1..] + b;
      forall i | 0 <= i < |a| - 1
        ensures '\r' !in Template.EncodePiece(a[1..][i])
      {
        assert a[1..][i] == a[i + 1];
      }
      PiecesAppend(a[1..], b, argCount, ts);
      forall i | 0 <= i < |ab|
        ensures '\r' !in Template.EncodePiece(ab[i])
      {
        if i > 0 {
          assert ab[i] == (a[1..] + b)[i - 1];
        }
      }
      StringsOfTail(Template.ExpectedPiece(a[0], ts), Template.Expected(a[1..], ts), Template.Expected(b, ts));
    }
  }

  /** A one-line format of three groups of three fitting pieces, with textual arguments, has the nine
    * meanings. */
  lemma FormatOfNine(p0: Template.Piece, p1: Template.Piece, p2: Template.Piece, p3: Template.Piece, p4: Template.Piece,
    p5: Template.Piece, p6: Template.Piece, p7: Template.Piece, p8: Template.Piece, args: seq<Obj>)
    requires AllText(args) && PieceOk(p0, |args|) && PieceOk(p1, |args|) && PieceOk(p2, |args|)
    requires PieceOk(p3, |args|) && PieceOk(p4, |args|) && PieceOk(p5, |args|)
    requires PieceOk(p6, |args|) && PieceOk(p7, |args|) && PieceOk(p8, |args|)
    ensures var ts := TextsOf(args);
      FlatFormat(Template.Encode([p0, p1, p2] + [p3, p4, p5] + [p6, p7, p8]), args) ==
      Some(Template.ExpectedPiece(p0, ts) + Template.ExpectedPiece(p1, ts) + Template.ExpectedPiece(p2, ts) +
        (Template.ExpectedPiece(p3, ts) + Template.ExpectedPiece(p4, ts) + Template.ExpectedPiece(p5, ts)) +
        (Template.ExpectedPiece(p6, ts) + Template.ExpectedPiece(p7, ts) + Template.ExpectedPiece(p8, ts)))
  {
    var ts := TextsOf(args);
    var n := |args|;
    ThreePieces(p0, p1, p2, n, ts);
    ThreePieces(p3, p4, p5, n, ts);
    ThreePieces(p6, p7, p8, n, ts);
    PiecesAppend([p0, p1, p2], [p3, p4, p5], n, ts);
    PiecesAppend([p0, p1, p2] + [p3, p4, p5], [p6, p7, p8], n, ts);
    PiecesAreFlat([p0, p1, p2] + [p3, p4, p5] + [p6, p7, p8], args);
  }

  lemma {:induction false} FlatDelimitWrites(c: Cmd, k: nat, sep: string, indent: string, written: string)
    requires c.Delimit? && k <= |c.delimited| && FlatBody(c.delimiter, indent) == Some(sep)
    requires FlatJoin(sep, c.delimited[k..], k == 0, indent).Some?
    decreases c, |c.delimited| - k
    ensures ExecDelimit(c, k, St(written, indent)) ==
      Done(St(written + FlatJoin(sep, c.delimited[k..], k == 0, indent).value, indent))
  {
    if k < |c.delimited| {
      var bs := c.delimited[k..];
      assert bs[0] == c.delimited[k] && bs[1..] == c.delimited[k + 1..];
      var lead := if k == 0 then "" else sep;
      var st := St(written, indent);
      if k > 0 {
        FlatBodyWrites(c.delimiter, indent, written);
      }
      var t := FlatBody(c.delimited[k].calls, indent).value;
      FlatBodyWrites(c.delimited[k].calls, indent, written + lead);
      var u := FlatJoin(sep, bs[1..], false, indent).value;
      FlatDelimitWrites(c, k + 1, sep, indent, written + lead + t);
      DelimitStep(c, k, st, St(written + lead, indent), St(written + lead + t, indent));
      assert FlatJoin(sep, bs, k == 0, indent).value == lead + t + u;
      StringsOfTail(written, lead, t);
      StringsOfTail(written, lead + t, u);
    }
  }

  lemma DelimitStep(c: Cmd, k: nat, st: St, s0: St, s: St)
    requires c.Delimit? && k < |c.delimited|
    requires (if k == 0 then Done(st) else ExecBody(c.delimiter, st)) == Done(s0)
    requires ExecBody(c.delimited[k].calls, s0) == Done(s)
    ensures ExecDelimit(c, k, st) == ExecDelimit(c, k + 1, s)
  {
  }

  lemma DelimitTextStep(sep: string, bs: seq<Applied>, first: bool, st: St, s: St)
    requires |bs| > 0 && ExecBody(bs[0].calls, if first then st else CodeText(st, sep)) == Done(s)
    ensures ExecDelimitText(sep, bs, first, st) == ExecDelimitText(sep, bs[1..], false, s)
  {
  }

  /** A one-line separator, written by `Code`, is appended as it is. */
  lemma SeparatorWrites(sep: string, indent: string, written: string)
    requires '\r' !in sep
    ensures CodeText(St(written, indent), sep) == St(written + sep, indent)
  {
    OneLine(sep);
    assert Join([sep], indent) == sep;
  }

  /** A body with a flat text appends it. */
  lemma BodyWrites(cs: Body, st: St, text: string)
    requires FlatBody(cs, st.indent) == Some(text)
    ensures ExecBody(cs, st) == Done(Put(st, text))
  {
    FlatBodyWrites(cs, st.indent, st.written);
  }

  /** `LineDelimit` over flat items appends them joined by line breaks. */
  lemma LineDelimitWrites(items: seq<Applied>, st: St, text: string)
    requires FlatJoin(st.indent, items, true, st.indent) == Some(text)
    ensures ExecBody([Delimit([NewLine], items)], st) == Done(Put(st, text))
  {
    var c := Delimit([NewLine], items);
    FlatSingle(NewLine, st.indent);
    FlatSingle(c, st.indent);
    BodyWrites([c], st, text);
  }

  /** Two flat bodies one after the other append their texts in order. */
  lemma FlatConcat(x: Body, y: Body, indent: string, tx: string, ty: string)
    requires FlatBody(x, indent) == Some(tx) && FlatBody(y, indent) == Some(ty)
    ensures FlatBody(x + y, indent) == Some(tx + ty)
  {
    FlatAppend(x, y, indent);
  }

  /** Two flat calls append their texts in order. */
  lemma FlatTwo(a: Cmd, b: Cmd, indent: string, ta: string, tb: string)
    requires Flat(a, indent) == Some(ta) && Flat(b, indent) == Some(tb)
    ensures FlatBody([a, b], indent) == Some(ta + tb)
  {
    var cs := [a, b];
    FlatFirst(cs, indent);
    FlatPrefix(cs, 1, indent);
    assert cs[..2] == cs;
  }

  /** Four flat calls append their texts in order. */
  lemma FlatFour(a: Cmd, b: Cmd, c: Cmd, d: Cmd, indent: string, ta: string, tb: string, tc: string, td: string)
    requires Flat(a, indent) == Some(ta) && Flat(b, indent) == Some(tb)
    requires Flat(c, indent) == Some(tc) && Flat(d, indent) == Some(td)
    ensures FlatBody([a, b, c, d], indent) == Some(ta + tb + tc + td)
  {
    FlatTwo(a, b, indent, ta, tb);
    FlatTwo(c, d, indent, tc, td);
    FlatConcat([a, b], [c, d], indent, ta + tb, tc + td);
    assert [a, b] + [c, d] == [a, b, c, d];
    StringsOfTail(ta + tb, tc, td);
  }

  /** A flat body, then a bracketed block with the default indent. */
  lemma FlatThenBracket(a: Body, body: Body, st: St, text: string)
    requires FlatBody(a, st.indent) == Some(text)
    ensures RunEmission(Plain(a + [BracketBlock(body, None)]), st) == ExecBracket(body, DefaultIndent, Put(st, text))
  {
    FlatThen(a, [BracketBlock(body, None)], st, text);
    OneCallBody(BracketBlock(body, None), Put(st, text));
    BracketBlockStep(BracketBlock(body, None), Put(st, text));
  }

  /** Three flat calls append their texts in order. */
  lemma FlatThree(a: Cmd, b: Cmd, c: Cmd, indent: string, ta: string, tb: string, tc: string)
    requires Flat(a, indent) == Some(ta) && Flat(b, indent) == Some(tb) && Flat(c, indent) == Some(tc)
    ensures FlatBody([a, b, c], indent) == Some(ta + tb + tc)
  {
    var cs := [a, b, c];
    FlatFirst(cs, indent);
    FlatPrefix(cs, 1, indent);
    FlatPrefix(cs, 2, indent);
    assert cs[..3] == cs;
  }

  /** A body with a flat text, then any other calls: the text is appended and the rest runs after. */
  lemma FlatThen(a: Body, b: Body, st: St, text: string)
    requires FlatBody(a, st.indent) == Some(text)
    ensures ExecBody(a + b, st) == ExecBody(b, Put(st, text))
  {
    BodyWrites(a, st, text);
    ExecBodyAppend(a, b, st);
  }

  /** One more call at the end of a flat body. */
  lemma {:induction false} FlatSnoc(x: Body, c: Cmd, indent: string)
    requires FlatBody(x, indent).Some? && Flat(c, indent).Some?
    decreases |x|
    ensures FlatBody(x + [c], indent) == Some(FlatBody(x, indent).value + Flat(c, indent).value)
  {
    if |x| == 0 {
      assert x + [c] == [c] && [c][1..] == [];
      assert Flat(c, indent).value + "" == Flat(c, indent).value;
      assert "" + Flat(c, indent).value == Flat(c, indent).value;
    } else {
      assert (x + [c])[0] == x[0] && (x + [c])[1..] == x[1..] + [c];
      FlatSnoc(x[1..], c, indent);
      StringsOfTail(Flat(x[0], indent).value, FlatBody(x[1..], indent).value, Flat(c, indent).value);
    }
  }

  /** A body of one call appends that call's text. */
  lemma FlatSingle(c: Cmd, indent: string)
    requires Flat(c, indent).Some?
    ensures FlatBody([c], indent) == Flat(c, indent)
  {
    assert [c][0] == c && [c][1..] == [];
    assert Flat(c, indent).value + "" == Flat(c, indent).value;
  }

  /** Two flat bodies back to back. */
  lemma {:induction false} FlatAppend(x: Body, y: Body, indent: string)
    requires FlatBody(x, indent).Some? && FlatBody(y, indent).Some?
    decreases |x|
    ensures FlatBody(x + y, indent) == Some(FlatBody(x, indent).value + FlatBody(y, indent).value)
  {
    if |x| == 0 {
      assert x + y == y;
      assert "" + FlatBody(y, indent).value == FlatBody(y, indent).value;
    } else {
      assert (x + y)[0] == x[0] && (x + y)[1..] == x[1..] + y;
      FlatAppend(x[1..], y, indent);
      StringsOfTail(Flat(x[0], indent).value, FlatBody(x[1..], indent).value, FlatBody(y, indent).value);
    }
  }

  /** The flat text of the first call of a body. */
  lemma FlatFirst(cs: Body, indent: string)
    requires |cs| > 0 && Flat(cs[0], indent).Some?
    ensures FlatBody(cs[..1], indent) == Flat(cs[0], indent)
  {
    assert cs[..1][1..] == [] && cs[..1][0] == cs[0];
    assert Flat(cs[0], indent).value + "" == Flat(cs[0], indent).value;
  }

  /** The flat text of the first `k + 1` calls of a body: that of the first `k`, then call `k`'s. */
  lemma FlatPrefix(cs: Body, k: nat, indent: string)
    requires k < |cs| && FlatBody(cs[..k], indent).Some? && Flat(cs[k], indent).Some?
    ensures FlatBody(cs[..k + 1], indent) == Some(FlatBody(cs[..k], indent).value + Flat(cs[k], indent).value)
  {
    assert cs[..k + 1] == cs[..k] + [cs[k]];
    FlatSnoc(cs[..k], cs[k], indent);
  }
}
