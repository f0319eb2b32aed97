# Jay.SourceGen in Dafny

This project models the core of Jay.SourceGen, a set of C# source generators. The model covers three parts.

- **The two text-emission engines.** These are `Jay.SourceGen.Coding.CodeBuilder` and `Jay.SourceGen.Text.CodeBuilder`. Each is a class over a char buffer, a write position and the current new-line indent. The model covers buffer growth and `Allocate`, the `Append`/`Write` overloads, and the format mini-language of `WriteFormatLine`: `{N}`/`{N:fmt}` holes, `{{`/`}}` escapes, and the FormatException cases. It also covers `Value` dispatch, `Code`, `NewLine(s)`, `IndentBlock`, `BracketBlock`, `EnsureOnStartOfNewLine`, `Enumerate`/`Delimit`, the comment styles, `TryRemove`/`Trim*`, `Using`/`Namespace`, the text splitter `TextSplitEnumerator`, and the ordinal helpers of `TextHelper`.
- **The interface-implementation generator.** The model covers member signatures and their equality and hashing, the `Hasher` (xxHash32-style) and the comparers, attribute-argument tables, `GenerateInfo`, and the keyword parser. It also covers the section-writer registry, and each writer: properties and constructors, `INotifyPropertyChang(ed|ing)`, `IEquatable<T>`, `IComparable<T>`, `ToString` and `IFormattable`. Finally it covers the driver, which walks staticness × member kind × visibility × writer and assembles one `.g.cs` file per `[Implement]` interface.
- **The enum-struct generator and the `NotifyProperty` example class.** For the enum generator, the model covers classification of a `readonly struct`, the static backing arrays, the constructors, the `TryGetName`/`IsDefined` range checks and the hint name.

Each mutating engine is a Dafny `class` whose methods are proved against pure functions. The builder state is the abstract `St(written, indent)`. A call list is the `Cmd`/`Body` datatypes, and `ExecCmd`/`ExecBody` give the meaning of a call list as an `Outcome`: either `Done(st)` or `Failed(exception, st)`. Each writer is modelled as the list of builder calls it makes (an `Emit.Emission`). Lemmas then state the text that the list writes.

Foreign code becomes parameters:
- the interface symbols, the attribute data and the members (records);
- `string.GetHashCode` and the `Hasher` seed (`Signatures.HashEnv`, `Hashing.Mixer`);
- `IFormattable.ToString` and `object.ToString` (function-valued fields of `Value`);
- `Visibility.DeclareTo` and `Instic.DeclareTo` (`Signatures.Declarers`);
- `SyntaxFacts` (`Naming.CSharpSyntax`);
- an event's handlers (recorded as notices).

Places where the code looks wrong are listed under "## Findings".

## Model

| member | source | states |
|---|---|---|
| Numbers.Wrap32 | Core/Comparison/EnumerableComparerT.cs:82-92 | unchecked `int` arithmetic: the result is congruent to the input modulo 2^32, and inputs already in `int` range are unchanged |
| Numbers.Wrap32Shift | Core/Comparison/EnumerableComparerT.cs:82-92 | wrapping ignores whole multiples of 2^32 |
| Numbers.Clamp | Core/Extensions/NumberExtensions.cs:8-15 | the minimum when the value is below it; the maximum when the value is at least the minimum and above the maximum; the value itself when it lies between them |
| Numbers.ClampInRange | Core/Extensions/NumberExtensions.cs:8-15 | when min ≤ max the result lies in [min, max], and clamping twice gives the same result as clamping once |
| CharClass.AsciiDigitRange | Core/Extensions/CharExtensions.cs:21 | the wrapping unsigned test `(uint)(ch - '0') <= 9` holds exactly for '0'..'9' |
| CharClass.AsciiLetterIsLowerOrUpper | Core/Extensions/CharExtensions.cs:24-33 | `IsAsciiLetter` holds exactly when the char is a lower or an upper ASCII letter |
| CharClass.DigitsAndLettersAreAscii | Core/Extensions/CharExtensions.cs:21-33 | every ASCII digit and letter has a code below 128 |
| CharClass.ToLower | Core/Extensions/VariableNamingExtensions.cs:82-85 | ASCII lowering: an upper letter moves up by 32 to the matching lower letter; every other char is unchanged |
| CharClass.ToUpper | Core/AttributeArgsCollection.cs:14 | ASCII raising, used by the ignore-case key comparison: a lower letter moves down by 32 to the matching upper letter; every other char is unchanged |
| Flags.FlagsFromMembers | Core/Enums/EnumExtensions.cs:22-33 | a member is yielded from index i on exactly when it is declared there, is not zero and all its bits are set in the value |
| Flags.GetFlagsMembers | Core/Enums/EnumExtensions.cs:22-33 | every yielded member is a declared non-zero bit subset of the value, and every such member is yielded, composite ones included |
| Flags.FlagsFromAppend | Core/Enums/EnumExtensions.cs:26-32 | the loop keeps the order of the cached array: the flags of two runs of it are the flags of each, one after the other |
| Flags.GetFlagsAppend | Core/Enums/EnumExtensions.cs:26-32 | `GetFlags` over a concatenation of member arrays is the concatenation of the results |
| Flags.FlagsFromDefault | Core/Enums/EnumExtensions.cs:17-20 | `GetFlags(default)` yields nothing |
| Flags.FlagsFromLength | Core/Enums/EnumExtensions.cs:26-32 | no more flags are yielded than there are members left to scan |
| Flags.HasFlag | Core/Enums/EnumExtensions.cs:30 | definition of `Enum.HasFlag(flag)`: every bit of `flag` is set in the value |
| Flags.GetFlags | Core/Enums/EnumExtensions.cs:22-33 | definition of `GetFlags(e)`: the loop over the cached members from index 0; `Flags.GetFlagsMembers` states what it yields |
| InterfaceFlags.SimpleKindsAreBits | InterfaceGen/MemberType.cs:6-9 | Field, Property, Event and Method are distinct single bits |
| InterfaceFlags.CompositeKindsContainMethod | InterfaceGen/MemberType.cs:9-11 | Constructor and Operator both contain the Method bit; Method contains neither; the two composites share exactly Method |
| InterfaceFlags.AnyIsEveryKind | InterfaceGen/MemberType.cs:13 | `Any` is the union of the six kinds |
| InterfaceFlags.ConstructorFlags | InterfaceGen/MemberType.cs:10 | the flags of `Constructor` are Method and then Constructor itself |
| InterfaceFlags.KeywordFlags | InterfaceGen/MemberKeywords.cs:6-10 | `GetFlags` of a `MemberKeywords` value never yields None, and yields each keyword exactly when its bit is set, in bit order |
| InterfaceFlags.TokensWritten | InterfaceGen/MemberKeywords.cs:17-19 | the per-flag actions write each flag's lowercase name and a space, in order, and never throw |
| InterfaceFlags.KeywordTextBits | InterfaceGen/MemberKeywords.cs:7-10 | the text written is "virtual ", "abstract ", "sealed " and "partial " for the bits that are set, in that order, and nothing else |
| InterfaceFlags.DeclareWritesKeywords | InterfaceGen/MemberKeywords.cs:15-20 | `DeclareTo` writes exactly that text and leaves the indent alone |
| InterfaceFlags.DeclareNothing | InterfaceGen/MemberKeywords.cs:6 | `DeclareTo(None)` writes nothing |
| InterfaceFlags.DeclareSealedPartial | InterfaceGen/MemberKeywords.cs:9-10 | `Sealed | Partial` is written exactly as "sealed partial " |
| InterfaceFlags.DeclareTo | InterfaceGen/MemberKeywords.cs:15-20 | the builder method ends in the state that the `DeclareTo` commands give |
| Strings.IndexOfFrom | Core/Text/TextSplitEnumerator.cs:78-82 | the first ordinal occurrence of the separator at or after the position, or -1 when there is none from there on |
| Strings.LastIndexOf | Core/Text/WrittenExtensions.cs:34 | the last ordinal occurrence of the text, or -1 when it does not occur |
| Strings.Trim | Core/Text/TextSplitEnumerator.cs:100-118 | the slice with its leading and trailing whitespace removed; it neither starts nor ends with whitespace |
| Strings.TrimEndAt | Core/Text/WrittenExtensions.cs:18-28 | what a trailing trim keeps ends at the last character that is not trimmed |
| Strings.IgnoreCaseIsEquivalence | Core/AttributeArgsCollection.cs:14 | ignore-case equality is reflexive, symmetric and transitive, so it can key a dictionary |
| TextHelper.CopyBlock | Core/Text/TextHelper.cs:30-49 | the unchecked block copy writes `count` chars of the source at the offset, in ascending order, and leaves the rest of the destination unchanged |
| TextHelper.TryCopyTo | Core/Text/TextHelper.cs:88-95 | an empty source succeeds and leaves the destination unchanged; a source longer than the destination fails and leaves it unchanged; otherwise the destination starts with the source and keeps its tail |
| TextHelper.TryCopyToString | Core/Text/TextHelper.cs:97-105 | a null source succeeds and writes nothing; otherwise it behaves like the span overload |
| TextHelper.CopyTo | Core/Text/TextHelper.cs:76-80 | throws ArgumentException exactly when `TryCopyTo` would fail, and otherwise copies |
| TextHelper.CopyToString | Core/Text/TextHelper.cs:82-86 | the string overload of `CopyTo`: it throws exactly when `TryCopyTo(string?)` would fail |
| TextHelper.SpanEquals | Core/Text/TextHelper.cs:110-113 | ordinal equality: equal lengths and equal chars at every index |
| TextHelper.SpanEqualsNullable | Core/Text/TextHelper.cs:116-155 | the overloads that take a nullable string or char array compare its span, so null equals "" |
| TextHelper.StringEquals | Core/Text/TextHelper.cs:158-161 | ordinal string equality: null equals only null, and two non-null strings are equal iff their chars are |
| TextHelper.NullIsEmptyOnlyForSpans | Core/Text/TextHelper.cs:122-125 | null and "" are equal as spans but not as strings |
| TextHelper.SpanEqualsIsEquivalence | Core/Text/TextHelper.cs:110-113 | span equality is reflexive, symmetric and transitive |
| Naming.Escaped | Core/Extensions/VariableNamingExtensions.cs:64-69 | a name that is not a valid identifier or is a keyword gets exactly one leading '@'; any other name is kept |
| Naming.LowerAll | Core/Extensions/VariableNamingExtensions.cs:39-45 | every char lowered, the length kept |
| Naming.TypeVariableNameCases | Core/Extensions/VariableNamingExtensions.cs:26-62 | the length is kept. A name whose first char is not upper case is kept. A leading 'I' becomes 'i' and the run of non-lower chars after it is lowered, up to the first lower char. Any other upper-case start has only its first char lowered |
| Naming.NatToString | Core/Extensions/VariableNamingExtensions.cs:24 | the decimal text of the counter: at least one digit, and a single digit exactly for values below 10 |
| Naming.IntToStringInjective | Core/Extensions/VariableNamingExtensions.cs:23-24 | different counter values give different names |
| Naming.VariableNaming.GetVariableName | Core/Extensions/VariableNamingExtensions.cs:16-72 | an empty type name increments the counter (wrapping) and returns "__" followed by the new value; any other name leaves the counter alone and returns the escaped type variable name |
| Naming.FillVariableName | Core/Extensions/VariableNamingExtensions.cs:26-62 | the stackalloc buffer ends up holding the type variable name |
| Naming.FillInterfaceName | Core/Extensions/VariableNamingExtensions.cs:36-50 | in the 'I' branch the buffer holds "i", then the lowered run, then the rest of the name copied |
| Naming.LowerInterfaceRun | Core/Extensions/VariableNamingExtensions.cs:38-45 | the scan stops at the end of the leading run of non-lower chars after 'I', and the buffer up to there holds "i" and that run lowered |
| Naming.ToVariableName | Core/Extensions/VariableNamingExtensions.cs:76-92 | the method returns what `VariableNameOf` describes |
| Naming.VariableNameOf | Core/Extensions/VariableNamingExtensions.cs:76-92 | an empty name gives "_". Otherwise the first char is lowered and the rest copied, so the length is kept apart from one optional '@'. The '@' is present exactly when the camel-case name needs escaping |
| Naming.CamelCase | Core/Extensions/VariableNamingExtensions.cs:76-92 | definition of the camel-case step of `ToVariableName`: the first char lowered, the rest kept (`Naming.VariableNameOf`) |
| Naming.TypeVariableName | Core/Extensions/VariableNamingExtensions.cs:26-62 | definition of the type variable name before escaping; `Naming.TypeVariableNameCases` states its cases |
| Naming.IntToString | Core/Extensions/VariableNamingExtensions.cs:24 | definition of `int.ToString()` in the `$"__{…}"` name: a minus sign before a negative value; `Naming.IntToStringInjective` proves different values give different texts |
| TextSplit.TrimRange | Core/Text/TextSplitEnumerator.cs:100-118 | the two trim loops: the bounds move inward only past whitespace, and the trimmed slice neither starts nor ends with whitespace |
| TextSplit.ScanEnd | Core/Text/TextSplitEnumerator.cs:77-97 | the slice ends at the next separator occurrence and the cursor moves past it; the cursor moves to one past the end exactly when there is no further occurrence or the separator is empty |
| TextSplit.Scan | Core/Text/TextSplitEnumerator.cs:77-123 | one scan step yields a slice inside the input, moves the cursor strictly forward, and under TrimLines yields a slice with no whitespace at either end |
| TextSplit.NextMove | Core/Text/TextSplitEnumerator.cs:36-137 | one call of MoveNext: the cursor strictly increases; a stop leaves it past the end; a yielded slice lies in the input, is non-empty under RemoveEmptyLines and trimmed under TrimLines |
| TextSplit.Ranges | Core/Text/TextSplitEnumerator.cs:36-137 | every range yielded by successive MoveNext calls lies inside the input |
| TextSplit.MoveTakesFirstSlice | Core/Text/TextSplitEnumerator.cs:36-137 | a successful MoveNext takes the first of the remaining slices; an unsuccessful one finds none left |
| TextSplit.SplitJoinRoundTrip | Core/Text/TextSplitEnumerator.cs:56-97 | with no options, joining the yielded slices with the separator gives back the input exactly |
| TextSplit.EmptyInputYieldsOneEmptySlice | Core/Text/TextSplitEnumerator.cs:49-66 | empty input with no options yields exactly one empty slice and then false |
| TextSplit.RestIsOneSlice | Core/Text/TextSplitEnumerator.cs:84-90 | an empty separator, or no further occurrence, yields the rest of the input as one slice and then stops |
| TextSplit.SplitWithoutSeparator | Core/Text/TextSplitEnumerator.cs:84-90 | input in which the separator does not occur splits into exactly itself |
| TextSplit.SplitNonEmpty | Core/Text/TextSplitEnumerator.cs:56-66 | with no options there is always at least one slice |
| TextSplit.TrimmedSlices | Core/Text/TextSplitEnumerator.cs:100-126 | under TrimLines no yielded slice starts or ends with whitespace, and each range lies inside the input |
| TextSplit.NoEmptySlices | Core/Text/TextSplitEnumerator.cs:60-73 | under RemoveEmptyLines no yielded slice is empty (with lines 127-134) |
| TextSplit.StopIsFinal | Core/Text/TextSplitEnumerator.cs:49-54 | once MoveNext has returned false it keeps returning false |
| TextSplit.TrailingEmptySlice | Core/Text/TextSplitEnumerator.cs:56-73 | without RemoveEmptyLines, input ending in a separator that does not overlap itself yields a trailing empty slice at the end of the input |
| TextSplit.OverlapIsBorder | Core/Text/TextSplitEnumerator.cs:78-97 | two overlapping occurrences of the separator make a suffix of it equal to a prefix, which is why the trailing-slice rule needs a separator that cannot overlap itself |
| TextSplit.SplitEnumerator.constructor | Core/Text/TextSplitEnumerator.cs:7-9 | a new enumerator stores its inputs and starts at position 0 with an empty current slice and range (with lines 27-33) |
| TextSplit.SplitEnumerator.MoveNext | Core/Text/TextSplitEnumerator.cs:36-137 | the new position, `Range` and `Current` are those of `NextMove`, with `Current == input[Range]`; on false, `Current` and `Range` are cleared; the yielded slice is the first of the remaining ones |
| TextSplit.SplitEnumerator.ScanSlice | Core/Text/TextSplitEnumerator.cs:77-118 | the separator search and the trim loops compute `Scan` |
| TextSplit.SplitEnumerator.TrimLoops | Core/Text/TextSplitEnumerator.cs:100-118 | the two `for` loops stop at the bounds `TrimRange` gives |
| TextSplit.SplitEnumerator.Reset | Core/Text/TextSplitEnumerator.cs:140-144 | the position returns to 0 and the current slice is cleared; the range is left as it was |
| TextSplit.ToList | Core/Text/CodeBuilder.cs:434 | draining a fresh enumerator collects exactly the slices `Split` describes, in order |
| TextSplit.TrimRangeIs | Core/Text/TextSplitEnumerator.cs:103-117 | the bounds at which the two trim loops stop are the ones `TrimRange` computes |
| TextSplit.SplitFrom | Core/Text/TextSplitEnumerator.cs:36-137 | definition of the slices an enumerator yields from a cursor on, by repeated `NextMove` |
| TextSplit.Split | Core/Text/TextSplitEnumerable.cs:10-27 | definition of the slices `input.TextSplit(separator, options)` yields from a fresh enumerator; `TextSplit.SplitJoinRoundTrip` and the lemmas beside it state its properties |
| Template.BraceIndex | Core/Coding/CodeBuilder.cs:287 | `IndexOfAny('{', '}')`: -1 or the index of a brace |
| Template.BraceIndexIsFirst | Core/Coding/CodeBuilder.cs:287 | the brace found is the first one, and -1 means there is no brace at all |
| Template.Digits | Core/Coding/CodeBuilder.cs:344-349 | the digit loop stops at the first char that is not a digit, or once the index reaches 1,000,000; it fails with "moved past the end" only at the end of the format |
| Template.Spaces | Core/Coding/CodeBuilder.cs:352-355 | the space loop stops at the first char that is not a space, and fails only at the end of the format |
| Template.FormatText | Core/Coding/CodeBuilder.cs:373-394 | the item format is the text up to the closing brace; a `{` inside it, or the end of the format, is an error |
| Template.Close | Core/Coding/CodeBuilder.cs:398-409 | a closed hole is kept exactly when its index is below the argument count, and an empty item format becomes null; otherwise "argument does not exist" is raised just after the brace |
| Template.ParseHole | Core/Coding/CodeBuilder.cs:320-409 | a hole that parses is one hole with an existing argument index and a non-empty item format or none, and parsing moves strictly forward |
| Template.ParseHolesBelow | Core/Coding/CodeBuilder.cs:402-405 | every hole the parser produces refers to an argument that exists |
| Template.TextPrefix | Core/Coding/CodeBuilder.cs:286-296 | brace-free text in front of a format only lengthens the first literal, whatever follows |
| Template.BraceFreeTextIsVerbatim | Core/Coding/CodeBuilder.cs:286-292 | brace-free text is copied verbatim as one literal, with no error |
| Template.EscapedBrace | Core/Coding/CodeBuilder.cs:301-308 | `{{` and `}}` each give one literal brace, and parsing goes on after the pair |
| Template.HoleIndex | Core/Coding/CodeBuilder.cs:331-355 | the index is the decimal value of the digits read; the spaces after it are skipped |
| Template.HoleParses | Core/Coding/CodeBuilder.cs:320-414 | `{N}`, `{N:fmt}` and the same with spaces after the index give one hole for argument N, with fmt or null when fmt is empty, and parsing goes on right after the closing brace |
| Template.HoleStep | Core/Coding/CodeBuilder.cs:310-317 | a `{` followed by a well-formed hole gives the text before it, the hole, and then the rest |
| Template.OpenBraceStep | Core/Coding/CodeBuilder.cs:310-317 | a `{` that is not doubled opens a hole |
| Template.ColonFormat | Core/Coding/CodeBuilder.cs:365-395 | a `:` starts the item format, which runs up to the closing brace that ends the hole |
| Template.HoleError | Core/Coding/CodeBuilder.cs:286-296 | when a hole fails after brace-free text, the text is still written and then the error is raised (with lines 320-405) |
| Template.LoneClosingBrace | Core/Coding/CodeBuilder.cs:311-314 | a `}` that is not doubled raises "missing opening brace" at the char after it |
| Template.BraceAtEnd | Core/Coding/CodeBuilder.cs:302 | a brace as the last char raises "moved past the end" (with lines 420-426) |
| Template.InvalidIndexStart | Core/Coding/CodeBuilder.cs:331-336 | a char after `{` that is not a digit and not `{` raises "invalid character in index" |
| Template.AlignmentRejected | Core/Coding/CodeBuilder.cs:358-361 | a `,` after the index and its spaces raises "alignment is not supported" |
| Template.UnexpectedAfterIndex | Core/Coding/CodeBuilder.cs:365-371 | after the index and its spaces any char other than `}`, `:` or `,` raises "unexpected character" |
| Template.BraceInsideFormat | Core/Coding/CodeBuilder.cs:386-390 | a `{` inside the item format raises an error at that brace |
| Template.UnclosedFormat | Core/Coding/CodeBuilder.cs:376-391 | an item format that is never closed raises "moved past the end" at the end of the format (with lines 420-426) |
| Template.MissingArgument | Core/Coding/CodeBuilder.cs:402-405 | an index at or above the argument count raises "argument does not exist", positioned after the closing brace |
| Template.DigitChar | Core/Coding/CodeBuilder.cs:331 | the digit char for a value below 10 reads back as that value |
| Template.EncodedFormatRenders | Core/Coding/CodeBuilder.cs:270-417 | round trip: a format assembled from text, doubled braces and in-range holes parses without error, and rendering it with string arguments gives the text, one brace per escape and each argument in its hole |
| Template.PieceThenRest | Core/Coding/CodeBuilder.cs:270-417 | one encoded piece in front of a format that renders correctly still renders correctly |
| Template.ReadDigits | Core/Coding/CodeBuilder.cs:344-349 | the digit loop with a cursor computes `Digits` |
| Template.ReadSpaces | Core/Coding/CodeBuilder.cs:352-355 | the space loop with a cursor computes `Spaces` |
| Template.ReadItemFormat | Core/Coding/CodeBuilder.cs:373-394 | the item-format loop with a cursor computes `FormatText` |
| Template.ReadHole | Core/Coding/CodeBuilder.cs:320-409 | the hole part of the loop with a cursor computes `ParseHole` |
| Template.ReadAfterIndex | Core/Coding/CodeBuilder.cs:357-396 | the part after the index computes `AfterIndex` |
| Template.ReadClose | Core/Coding/CodeBuilder.cs:398-409 | the closing-brace step computes `Close` |
| Template.ReadText | Core/Coding/CodeBuilder.cs:278-318 | the inner text loop either ends the call with the segments and error the parse gives, or stops at an opening brace with the rest still to parse |
| Template.ParseFormat | Core/Coding/CodeBuilder.cs:270-417 | the cursor loops of `WriteFormatLine` produce exactly the segments and the error that the recursive grammar `Parse` gives |
| Template.ParseRest | Core/Coding/CodeBuilder.cs:270-417 | definition of the outer loop of `WriteFormatLine` from one position on: brace-free text up to the next brace, then an escaped brace, an error or a hole, and the rest; `Template.ParseFormat` proves the cursor loops compute it |
| Template.Parse | Core/Coding/CodeBuilder.cs:270-417 | definition of the segments and the error `WriteFormatLine(format, args)` gives for `args.Length` arguments; its properties are `Template.EncodedFormatRenders` and the error lemmas beside it |
| Coding.PutNewLines | Core/Coding/CodeBuilder.cs:457-464 | `NewLines(count)` appends `_newLineIndent` exactly `count` times, and nothing for `count <= 0` |
| Coding.CodeText | Core/Coding/CodeBuilder.cs:536-547 | `Code(text)` writes the lines of the text joined by `_newLineIndent` |
| Coding.CodeRest | Core/Coding/CodeBuilder.cs:542-545 | each further line is written after a NewLine |
| Coding.PrefixLines | Core/Coding/CodeBuilder.cs:1013-1016 | `Append(prefix).AppendLine(line)` per line only adds text after what was written and keeps the indent |
| Coding.ExecCmd | Core/Coding/CodeBuilder.cs:234-1075 | the meaning of one builder call; every call that completes leaves `_newLineIndent` as it found it |
| Coding.ExecBody | Core/Coding/CodeBuilder.cs:466-474 | a callback runs its calls in order and stops at the first exception; completing keeps the indent |
| Coding.ExecBodies | Core/Coding/CodeBuilder.cs:723-736 | `Enumerate` runs the per-value actions one after another |
| Coding.ExecDelimit | Core/Coding/CodeBuilder.cs:763-778 | `Delimit(CBA, …)` runs the delimiter before every element but the first |
| Coding.ExecDelimitText | Core/Coding/CodeBuilder.cs:780-788 | `Delimit(string, …)` with a non-empty delimiter runs `Code(delimiter)` between elements |
| Coding.ExecBracket | Core/Coding/CodeBuilder.cs:856-871 | `BracketBlock`: TrimEnd, NewLine, `{` and a NewLine, the indented body, EnsureOnStartOfNewLine, `}`; the indent is kept |
| Coding.ExecObj | Core/Coding/CodeBuilder.cs:476-534 | `Value<T>`: null writes nothing; a callback runs with the indent set to `CurrentLine`, which is then restored; a string is appended; an IFormattable gets its format; a sequence is delimited by `format ?? ","`; anything else writes its ToString(), null treated as empty |
| Coding.ExecObjs | Core/Coding/CodeBuilder.cs:500-508 | with an empty delimiter, the elements of a sequence are written one after another (with lines 785-786) |
| Coding.ExecDelimitObjs | Core/Coding/CodeBuilder.cs:500-508 | with a delimiter, `Code(sep)` is written between the elements of a sequence (with line 787) |
| Coding.FormatLines | Core/Coding/CodeBuilder.cs:549-563 | `Code(FormattableString)`: `WriteFormatLine` per line, with one NewLine between consecutive lines, stopping at the first exception |
| Coding.FormatsToCons | Core/Coding/CodeBuilder.cs:555-561 | the first line is written (after a NewLine unless it is the first), and the rest only if it did not throw |
| Coding.WriteFormatLine | Core/Coding/CodeBuilder.cs:266-417 | the parsed segments are written in order, each hole by `Value(args[i], fmt)`; a format error throws FormatException after the text before it |
| Coding.RenderSegments | Core/Coding/CodeBuilder.cs:290-295 | rendering segments keeps the indent when it completes (with lines 411-414) |
| Coding.CurrentLineIsLastLine | Core/Coding/CodeBuilder.cs:129-142 | `CurrentLine` is a suffix of the text, either all of it or starting at a `DefaultNewLine`, and contains no further `DefaultNewLine` |
| Coding.NewLinesWritesIndents | Core/Coding/CodeBuilder.cs:457-464 | `NewLines(count)` writes `_newLineIndent` exactly `count` times, and nothing for `count <= 0` |
| Coding.CodeIsVerbatimWithoutIndent | Core/Coding/CodeBuilder.cs:536-547 | when the indent is `DefaultNewLine`, `Code(text)` writes the text unchanged |
| Coding.CodeOfOneLine | Core/Coding/CodeBuilder.cs:536-547 | a text with no `DefaultNewLine` is appended as it is |
| Coding.EnsureOnStartOfNewLineIdempotent | Core/Coding/CodeBuilder.cs:847-854 | afterwards the text ends with `_newLineIndent`; a second call changes nothing; a text already ending with it is unchanged |
| Coding.IndentBlockRestoresIndent | Core/Coding/CodeBuilder.cs:825-845 | after `IndentBlock` completes, `_newLineIndent` is back to its old value, and a trailing `old + indent` is rewritten into `old`; an exception in the body ends it at the throw |
| Coding.IndentedLine | Core/Coding/CodeBuilder.cs:825-845 | an indented line started on a fresh line: the unit, the text, and the NewLine retracted to the outer indent |
| Coding.OneCallBody | Core/Coding/CodeBuilder.cs:466-474 | a callback of one call does what that call does |
| Coding.ExecBodyAppend | Core/Coding/CodeBuilder.cs:466-474 | running two call lists back to back is running their concatenation |
| Coding.BodiesAreFlattened | Core/Coding/CodeBuilder.cs:723-736 | `Enumerate` is the concatenation of the per-value actions |
| Coding.EnumerateRunsEachInOrder | Core/Coding/CodeBuilder.cs:706-736 | `Enumerate(values, action)` runs the action once per element, in order |
| Coding.DelimitIsInterleaved | Core/Coding/CodeBuilder.cs:744-778 | the delimited elements interleaved with the delimiter |
| Coding.DelimitRunsDelimiterBetween | Core/Coding/CodeBuilder.cs:744-778 | `Delimit(CBA, values, action)` runs the delimiter exactly between consecutive elements: n elements give n-1 delimiters, and none for zero elements |
| Coding.DelimitWithoutSeparatorEnumerates | Core/Coding/CodeBuilder.cs:785-786 | `Delimit(string, …)` with a null or empty delimiter is `Enumerate` |
| Coding.DelimitWithSeparatorIsCode | Core/Coding/CodeBuilder.cs:787 | `Delimit(string, …)` with a delimiter is `Delimit` with the callback `b => b.Code(delimiter)` |
| Coding.DelimitTextIsDelimit | Core/Coding/CodeBuilder.cs:787 | the textual delimiter loop is the callback delimiter loop with `Code(sep)` |
| Coding.ValueOfStringSequence | Core/Coding/CodeBuilder.cs:500-508 | a sequence of strings written by `Value` is the strings joined by `format ?? ","` |
| Coding.SegmentsOfStrings | Core/Coding/CodeBuilder.cs:290-295 | a parsed line with string arguments writes its rendering (with lines 411-414) |
| Coding.FormatLineOfStrings | Core/Coding/CodeBuilder.cs:266-417 | `WriteFormatLine` with string arguments writes the rendered line, and throws FormatException after the text before the error when the line is malformed |
| Coding.FormatLineRendersPieces | Core/Coding/CodeBuilder.cs:266-417 | a format built from text, escaped braces and holes writes the text, single braces and the arguments |
| Coding.FormatLinesStep | Core/Coding/CodeBuilder.cs:549-563 | over well-formed lines, `Code(FormattableString)` writes each rendered line, with `_newLineIndent` before every line but the first |
| Coding.CommentOfOneLine | Core/Coding/CodeBuilder.cs:983-994 | a one-line comment is written "// line" and a NewLine; a null comment "// " and a NewLine |
| Coding.EmptyMultiLineComment | Core/Coding/CodeBuilder.cs:1027-1039 | a null or empty multi-line comment is "/* " and " */" around the one empty line the split yields, so the "/* */" branch is never reached |
| Coding.UndefinedCommentStyleThrows | Core/Coding/CodeBuilder.cs:1051-1052 | an undefined comment style throws ArgumentOutOfRangeException and writes nothing |
| Coding.UsingNameShape | Core/Coding/CodeBuilder.cs:927-932 | the name `Using` writes is no longer than its argument, does not start with one of the letters of "using " and does not end with ';' |
| Coding.UsingStripsLetters | Core/Coding/CodeBuilder.cs:930 | `TrimStart("using ")` strips a leading run of the letters u, s, i, n, g and space, not the word: a name after "using " comes through only when it starts with another letter |
| Coding.NamespaceBlockOfBlankThrows | Core/Coding/CodeBuilder.cs:962-971 | `Namespace(ns, block)` with a blank name throws ArgumentException before writing anything |
| Coding.EnterIndent | Core/Coding/CodeBuilder.cs:825-836 | definition of the start of `IndentBlock`: the unit written at once when the current line is the old indent, and the indent grown by it |
| Coding.LeaveIndent | Core/Coding/CodeBuilder.cs:837-845 | definition of the end of `IndentBlock`: the old indent back, and a trailing new indent rewritten as the old one (`Coding.IndentBlockRestoresIndent`) |
| Coding.CommentText | Core/Coding/CodeBuilder.cs:977-1004 | definition of `Comment(string?)`: `// ` for no line, `// line` for one, the starred form for more (`Coding.CommentOfOneLine`) |
| Coding.StyledComment | Core/Coding/CodeBuilder.cs:1006-1055 | definition of `Comment(string?, CommentType)`, with ArgumentOutOfRangeException for an undefined style (`Coding.UndefinedCommentStyleThrows`) |
| CodingBuilder.CodeBuilder.constructor | Core/Coding/CodeBuilder.cs:144-159 | a new builder rents at least 1024 chars, has written nothing and has `DefaultNewLine` as its new-line indent |
| CodingBuilder.CodeBuilder.GrowCore | Core/Coding/CodeBuilder.cs:169-186 | the new array holds exactly `minCapacity` chars and the written text and indent are kept |
| CodingBuilder.CodeBuilder.GrowTo | Core/Coding/CodeBuilder.cs:189-196 | the array grows only when the request exceeds the capacity, and then to exactly the request; the text is kept |
| CodingBuilder.CodeBuilder.GrowBy | Core/Coding/CodeBuilder.cs:199-208 | a positive `adding` makes the capacity `(adding + Capacity) * 2`; zero or a negative amount changes nothing |
| CodingBuilder.CodeBuilder.Allocate | Core/Coding/CodeBuilder.cs:211-232 | returns the old position; a positive count advances the position by the count (growing if needed) and keeps the written prefix; a non-positive count changes nothing |
| CodingBuilder.CodeBuilder.Append | Core/Coding/CodeBuilder.cs:251-259 | the written text becomes the old text followed by the span |
| CodingBuilder.CodeBuilder.AppendChar | Core/Coding/CodeBuilder.cs:234-238 | one char is added at the end |
| CodingBuilder.CodeBuilder.AppendString | Core/Coding/CodeBuilder.cs:239-250 | a string is added at the end; null writes nothing |
| CodingBuilder.CodeBuilder.NewLine | Core/Coding/CodeBuilder.cs:453-456 | the current new-line indent is added |
| CodingBuilder.CodeBuilder.AppendLine | Core/Coding/CodeBuilder.cs:261-263 | the text and then the new-line indent are added |
| CodingBuilder.CodeBuilder.NewLines | Core/Coding/CodeBuilder.cs:457-464 | the new-line indent is added `count` times; a non-positive count writes nothing |
| CodingBuilder.CodeBuilder.SetLength | Core/Coding/CodeBuilder.cs:92-98 | the length setter clamps the value into `[0, Capacity]` and leaves the chars in place |
| CodingBuilder.CodeBuilder.At | Core/Coding/CodeBuilder.cs:100-113 | the indexer gives the char at `index` exactly when `0 <= index < Length`, and ArgumentOutOfRangeException otherwise |
| CodingBuilder.CodeBuilder.Slice | Core/Coding/CodeBuilder.cs:115-127 | the range indexer gives `written[start..end]` exactly when `start <= end <= Length`, and ArgumentOutOfRangeException otherwise |
| CodingBuilder.CodeBuilder.CurrentLineText | Core/Coding/CodeBuilder.cs:129-139 | the current line is a suffix of the written text that follows the last line break |
| CodingBuilder.CodeBuilder.Cut | Core/Coding/CodeBuilder.cs:599-606 | shifting the tail left removes exactly `written[start..start + length]` |
| CodingBuilder.CodeBuilder.TryRemoveAt | Core/Coding/CodeBuilder.cs:569-594 | removes and returns the char at `index` exactly when `0 <= index < Length`; otherwise returns false and changes nothing |
| CodingBuilder.CodeBuilder.TryRemoveSlice | Core/Coding/CodeBuilder.cs:596-631 | the corrected bound check (see Findings): the removal agrees with `RemoveSpec` on the old text |
| CodingBuilder.CodeBuilder.TryRemoveRange | Core/Coding/CodeBuilder.cs:633-670 | removes `written[start..end]` exactly when `start <= end <= Length`; otherwise `GetOffsetAndLength` throws ArgumentOutOfRangeException |
| CodingBuilder.CodeBuilder.TrimStart | Core/Coding/CodeBuilder.cs:672-685 | the leading whitespace run is removed and the rest is moved to index 0 |
| CodingBuilder.CodeBuilder.TrimEnd | Core/Coding/CodeBuilder.cs:687-699 | the trailing whitespace run is dropped by lowering the length |
| CodingBuilder.CodeBuilder.Clear | Core/Coding/CodeBuilder.cs:1107-1110 | the written text becomes empty and the indent is kept |
| CodingBuilder.CodeBuilder.ToString | Core/Coding/CodeBuilder.cs:1173-1176 | returns the written text and changes nothing |
| CodingBuilder.CodeBuilder.ToStringAndClear | Core/Coding/CodeBuilder.cs:1165-1171 | returns the old written text and leaves an empty builder |
| CodingBuilder.CodeBuilder.TryCopyTo | Core/Coding/CodeBuilder.cs:1102-1105 | copies the text into the destination exactly when it fits, and leaves the rest of the destination alone |
| CodingBuilder.CodeBuilder.EqualsText | Core/Coding/CodeBuilder.cs:1125-1143 | ordinal equality of the written text with the argument, a null string being equal to empty text |
| CodingBuilder.CodeBuilder.EnsureOnStartOfNewLine | Core/Coding/CodeBuilder.cs:847-854 | a NewLine is written exactly when the text does not already end with the new-line indent |
| CodingBuilder.CodeBuilder.Code | Core/Coding/CodeBuilder.cs:536-547 | the lines of the text are written with a NewLine before each but the first, as `Coding.CodeText` states |
| CodingBuilder.CodeBuilder.CodeRemaining | Core/Coding/CodeBuilder.cs:542-545 | each remaining slice of the enumerator is written after a NewLine |
| CodingBuilder.CodeBuilder.Using | Core/Coding/CodeBuilder.cs:925-938 | writes `using ns;` and a NewLine for the stripped name, and nothing when the name strips to empty |
| CodingBuilder.CodeBuilder.Namespace | Core/Coding/CodeBuilder.cs:952-960 | writes `namespace ns;` and two NewLines for the trimmed name, and nothing for a null or blank name |
| CodingBuilder.CodeBuilder.PrefixRemaining | Core/Coding/CodeBuilder.cs:1013-1016 | each remaining slice is written as the prefix, the line and a NewLine |
| CodingBuilder.CodeBuilder.WriteStarred | Core/Coding/CodeBuilder.cs:997-1003 | writes the starred comment: `/* ` and the first line, ` * ` and each further line, then ` */` |
| CodingBuilder.CodeBuilder.Comment | Core/Coding/CodeBuilder.cs:977-1004 | an empty comment gives `// `, one line gives `// line`, and several lines give the starred form |
| CodingBuilder.CodeBuilder.CommentAs | Core/Coding/CodeBuilder.cs:1006-1055 | the styled comment of `Coding.ExecCmd`, with ArgumentOutOfRangeException for an undefined style |
| CodingBuilder.CodeBuilder.Run | Core/Coding/CodeBuilder.cs:234-1075 | running one call on the builder ends in the state, or the exception and the state, that `Coding.ExecCmd` gives |
| CodingBuilder.CodeBuilder.RunPlain | Core/Coding/CodeBuilder.cs:234-263 | calls that take no callback and format no argument end as `Coding.ExecCmd` says |
| CodingBuilder.CodeBuilder.RunBody | Core/Coding/CodeBuilder.cs:466-474 | a callback's calls run in order and stop at the first that throws, as `Coding.ExecBody` says |
| CodingBuilder.CodeBuilder.RunBodies | Core/Coding/CodeBuilder.cs:723-736 | `Enumerate` runs the action once per value, in order, as `Coding.ExecBodies` says |
| CodingBuilder.CodeBuilder.RunDelimit | Core/Coding/CodeBuilder.cs:744-778 | the first value, then the delimiter and the next value for the rest, as `Coding.ExecDelimit` says |
| CodingBuilder.CodeBuilder.RunDelimitText | Core/Coding/CodeBuilder.cs:780-788 | a non-empty delimiter string is written as code between values, as `Coding.ExecDelimitText` says |
| CodingBuilder.CodeBuilder.RunDelimited | Core/Coding/CodeBuilder.cs:780-788 | one value of the text delimit: the delimiter unless it is the first, then its action |
| CodingBuilder.CodeBuilder.EnterIndentBlock | Core/Coding/CodeBuilder.cs:825-835 | the indent is written at once when the current line is exactly the old indent, and the new-line indent becomes old plus indent |
| CodingBuilder.CodeBuilder.LeaveIndentBlock | Core/Coding/CodeBuilder.cs:837-844 | the old indent comes back, and a trailing new indent is rewritten as the old one |
| CodingBuilder.CodeBuilder.RunIndented | Core/Coding/CodeBuilder.cs:825-845 | `IndentBlock` ends as `Coding.ExecCmd` says, with the indent restored whether or not the block throws |
| CodingBuilder.CodeBuilder.OpenBracketBlock | Core/Coding/CodeBuilder.cs:860-866 | `TrimEnd`, a NewLine, `{` and a NewLine, then the start of the indented block |
| CodingBuilder.CodeBuilder.CloseBracketBlock | Core/Coding/CodeBuilder.cs:866-870 | the end of the indented block, `EnsureOnStartOfNewLine` and `}` |
| CodingBuilder.CodeBuilder.RunBracket | Core/Coding/CodeBuilder.cs:856-871 | `BracketBlock` ends as `Coding.ExecBracket` says |
| CodingBuilder.CodeBuilder.WriteDirectiveHead | Core/Coding/CodeBuilder.cs:879-884 | `#name`, then a space and the value unless the value is null or empty, then a NewLine |
| CodingBuilder.CodeBuilder.RunDirective | Core/Coding/CodeBuilder.cs:873-892 | the head, the block, `EnsureOnStartOfNewLine` and the end line (`#end` + name by default), as `Coding.ExecCmd` says |
| CodingBuilder.CodeBuilder.RunNamespaceBlock | Core/Coding/CodeBuilder.cs:962-971 | a blank name throws ArgumentException before anything is written; otherwise the namespace line and the bracketed block |
| CodingBuilder.CodeBuilder.RunValue | Core/Coding/CodeBuilder.cs:476-534 | `Value(value, format)` ends as `Coding.ExecObj` says for each kind of value |
| CodingBuilder.CodeBuilder.RunValues | Core/Coding/CodeBuilder.cs:500-508 | the items of an enumerable value are written in order |
| CodingBuilder.CodeBuilder.RunDelimitValues | Core/Coding/CodeBuilder.cs:500-508 | the items of an enumerable value are written with the delimiter between them |
| CodingBuilder.CodeBuilder.RunCodeFormat | Core/Coding/CodeBuilder.cs:549-563 | `Code(FormattableString)` runs `WriteFormatLine` per line with a NewLine before each but the first, as `Coding.FormatLines` says |
| CodingBuilder.CodeBuilder.RunFormatRest | Core/Coding/CodeBuilder.cs:555-561 | the lines after the first, each after a NewLine, stopping at the first that throws |
| CodingBuilder.CodeBuilder.RunNextFormatLine | Core/Coding/CodeBuilder.cs:558-560 | one further line: a NewLine, then the line |
| CodingBuilder.CodeBuilder.RunFormatLine | Core/Coding/CodeBuilder.cs:266-417 | the parsed segments are written in order; a malformed line throws FormatException after the pieces before the error |
| CodingBuilder.RemoveSpec | Core/Coding/CodeBuilder.cs:596-631 | the intended removal: refused when either argument is negative or the slice runs past the end, otherwise the removed slice |
| CodingBuilder.RemoveAsWritten | Core/Coding/CodeBuilder.cs:598-612 | the check as written: refused exactly when the wrapped `uint` sum exceeds the length |
| CodingBuilder.RemoveAsWrittenAgreesOnNaturals | Core/Coding/CodeBuilder.cs:596-631 | on non-negative arguments the check as written agrees with the intended one |
| CodingBuilder.RemoveAsWrittenCounterexamples | Core/Coding/CodeBuilder.cs:598-612 | `TryRemove(-1, 1)` throws and `TryRemove(5, -5)` reports a removal, though both should be refused |
| TextCode.CodeLines | Core/Text/CodeBuilder.cs:432-443 | `Code(text)` over the listed lines writes a NewLine before every line but the first |
| TextCode.PrefixLines | Core/Text/CodeBuilder.cs:651-661 | `Append(prefix).AppendLine(line)` per line only adds text after what was written |
| TextCode.ExecCmd | Core/Text/CodeBuilder.cs:377-717 | the meaning of one builder call of this variant; every call that completes leaves `_newLineIndent` as it found it |
| TextCode.ExecBody | Core/Text/CodeBuilder.cs:708-715 | a callback's calls run in order and stop at the first that throws |
| TextCode.ExecBodies | Core/Text/EnumerableExtensions.cs:23-37 | `Enumerate` runs the per-value bodies one after another |
| TextCode.ExecDelimit | Core/Text/EnumerableExtensions.cs:59-75 | `Delimit(CBA?, …)` runs the delimiter before every element but the first |
| TextCode.ExecDelimitText | Core/Text/EnumerableExtensions.cs:77-86 | `Delimit(string, …)` with a delimiter writes the string between elements |
| TextCode.ExecBracket | Core/Text/CodeBuilder.cs:494-509 | `BracketBlock`: trim, a line break, `{`, the indented block, a fresh line and `}` |
| TextCode.ExecObj | Core/Text/CodeBuilder.cs:383-430 | `Format<T>`: nothing for null; a callback runs under the current line indent, which is put back; a string or formattable is written; a sequence is delimited by `format ?? ","` |
| TextCode.ExecObjs | Core/Text/CodeBuilder.cs:415-423 | the elements of a sequence value written one after another |
| TextCode.ExecDelimitObjs | Core/Text/CodeBuilder.cs:415-423 | the elements of a sequence value with the delimiter between them |
| TextCode.FormatLines | Core/Text/CodeBuilder.cs:445-458 | `Code(FormattableString)` runs `WriteFormatLine` per line with a NewLine between lines |
| TextCode.WriteFormatLine | Core/Text/CodeBuilder.cs:170-354 | the parsed segments are written in order, each hole by `Format`; a malformed line throws FormatException after the text before the error |
| TextCode.Indexed | Core/Text/EnumerableExtensions.cs:5-21 | an indexed action gets each element together with its position |
| TextCode.CurrentNewLineIndentShape | Core/Text/WrittenExtensions.cs:30-38 | `CurrentNewLineIndent()` starts with `DefaultNewLine`: it is `DefaultNewLine` when the text holds no line break, and otherwise the suffix from the last one |
| TextCode.FreshLineIndent | Core/Text/WrittenExtensions.cs:30-38 | a text ending with a line break has the bare `DefaultNewLine` as its current line indent |
| TextCode.CodeLinesAreJoined | Core/Text/CodeBuilder.cs:432-443 | `k` lines are joined by exactly `k - 1` line breaks, strictly between them |
| TextCode.CodeIsVerbatim | Core/Text/CodeBuilder.cs:432-443 | `Code(text)` writes the text unchanged whatever the indent, since the breaks put back are the ones the split removed |
| TextCode.EnsureNewLineAtTopLevel | Core/Text/CodeBuilder.cs:485-492 | at the top-level indent, `EnsureOnStartOfNewLine` leaves the text ending with a line break, and a second call writes nothing |
| TextCode.EnsureNewLineRepeats | Core/Text/CodeBuilder.cs:485-492 | inside an indent longer than `DefaultNewLine`, a text that does not end with the indent gets a line break on every call |
| TextCode.IndentBlockRestoresIndent | Core/Text/CodeBuilder.cs:463-483 | after `IndentBlock` completes the indent is back to its old value, and a trailing inner indent is rewritten as the old one |
| TextCode.OneCallBody | Core/Text/CodeBuilder.cs:708-715 | a body of one call does what that call does |
| TextCode.IndentReachesFirstLineOnly | Core/Text/CodeBuilder.cs:463-483 | in a block begun on a fresh top-level line the first appended line is indented and the second is not, because `NewLine` never writes the indent |
| TextCode.TrimIsIdempotent | Core/Text/WrittenExtensions.cs:5-28 | `TrimStart` and `TrimEnd` are idempotent, and whitespace alone trims to nothing |
| TextCode.CommentOfOneLine | Core/Text/CodeBuilder.cs:616-635 | one line is written `// line`, and a null comment as `// ` alone |
| TextCode.CommentOfManyLines | Core/Text/CodeBuilder.cs:637-643 | several lines open with `/* `, continue with ` * ` and close with ` */` |
| TextCode.UndefinedStyleIsMultiLine | Core/Text/CodeBuilder.cs:663-686 | any style other than SingleLine or XML, an undefined one included, is written as a multi-line comment and nothing throws |
| TextCode.ExecBodyAppend | Core/Text/CodeBuilder.cs:377-717 | running two call lists back to back is running their concatenation |
| TextCode.BodiesAreFlattened | Core/Text/EnumerableExtensions.cs:23-37 | the bodies of `Enumerate` run as one flattened call list |
| TextCode.DelimitIsInterleaved | Core/Text/EnumerableExtensions.cs:59-75 | `Delimit` runs as the element bodies interleaved with the delimiter |
| TextCode.EnumerateRunsEachInOrder | Core/Text/EnumerableExtensions.cs:23-37 | `Enumerate` runs the action once per element, in order |
| TextCode.DelimitRunsDelimiterBetween | Core/Text/EnumerableExtensions.cs:59-75 | `Delimit` runs the delimiter exactly between consecutive elements |
| TextCode.NoActions | Core/Text/EnumerableExtensions.cs:65-73 | with a null per-value action each element does nothing |
| TextCode.NullActionStillDelimits | Core/Text/EnumerableExtensions.cs:65-73 | with a null value action, `Delimit` over `n` values still runs the delimiter `n - 1` times |
| TextCode.DelimitWithoutSeparatorEnumerates | Core/Text/EnumerableExtensions.cs:83-84 | a null or empty delimiter string makes `Delimit` an `Enumerate` |
| TextCode.DelimitWithSeparatorIsFormat | Core/Text/EnumerableExtensions.cs:85 | a delimiter string makes `Delimit` the callback form with `b => b.Format(delimiter)` |
| TextCode.DelimitTextIsDelimit | Core/Text/EnumerableExtensions.cs:85 | the text delimit writes exactly what the callback delimit with that callback writes |
| TextCode.FormatOfStringSequence | Core/Text/CodeBuilder.cs:415-423 | a sequence of strings is joined by `format ?? ","`, strictly between consecutive elements |
| TextCode.SegmentsOfStrings | Core/Text/CodeBuilder.cs:170-354 | the segments of a parsed line, with string arguments, are written in order |
| TextCode.HeadOfStrings | Core/Text/CodeBuilder.cs:170-354 | the first segment rendered with string arguments is its literal text or its argument |
| TextCode.FormatLineOfStrings | Core/Text/CodeBuilder.cs:170-354 | with string arguments `WriteFormatLine` writes the rendered line, or throws FormatException after the text before the error |
| TextCode.FormatLinesAreJoined | Core/Text/CodeBuilder.cs:445-458 | over well-formed lines, `Code(FormattableString)` writes the rendered lines with one `DefaultNewLine` between consecutive lines |
| TextCode.FormatCallbackIndent | Core/Text/CodeBuilder.cs:395-403 | a callback given to `Format` runs under the current line indent, and the builder's indent is back afterwards |
| TextCode.CodeLinesAt | Core/Text/CodeBuilder.cs:436-441 | from line `k` on: the line, after a NewLine unless it is the first |
| TextCode.PrefixLinesAt | Core/Text/CodeBuilder.cs:651-661 | from line `k` on: the prefix, the line and a line break, then the rest |
| TextCode.FormatsToAt | Core/Text/CodeBuilder.cs:451-456 | from line `k` on: a NewLine unless it is the first, the line, and the later lines only if it did not throw |
| TextCode.DelimitsToAt | Core/Text/EnumerableExtensions.cs:59-75 | from element `k` on: the delimiter unless it is the first, then the element |
| TextBuilder.CodeBuilder.constructor | Core/Text/CodeBuilder.cs:106-120 | a new builder rents at least 1024 chars, has written nothing and has `"\r\n"` as its indent |
| TextBuilder.CodeBuilder.GrowCore | Core/Text/CodeBuilder.cs:130-147 | the new array holds exactly `minCapacity` chars and the written text is kept |
| TextBuilder.CodeBuilder.GrowTo | Core/Text/CodeBuilder.cs:150-156 | for a request past the capacity, the new capacity is the request plus the old capacity |
| TextBuilder.CodeBuilder.GrowBy | Core/Text/CodeBuilder.cs:159-167 | a positive `adding` makes the capacity `(adding + Capacity) * 2`; otherwise nothing changes |
| TextBuilder.CodeBuilder.Allocate | Core/Text/CodeBuilder.cs:356-375 | returns the old position; a positive count advances it by the count, growing to the end when needed; a non-positive count changes nothing |
| TextBuilder.CodeBuilder.Append | Core/Text/AppendExtensions.cs:18-22 | `Append(span)` and `Write(span)` add the text at the end |
| TextBuilder.CodeBuilder.AppendChar | Core/Text/AppendExtensions.cs:5-9 | `Append(char)` and `Write(char)` add one char at the end |
| TextBuilder.CodeBuilder.AppendString | Core/Text/AppendExtensions.cs:10-63 | `Append(string?)`, `Write(string?)` and the generic forms once `ToString` is taken add the string; null writes nothing |
| TextBuilder.CodeBuilder.NewLine | Core/Text/CodeBuilder.cs:377-381 | `NewLine()` writes `DefaultNewLine` and never the indent |
| TextBuilder.CodeBuilder.AppendLine | Core/Text/AppendExtensions.cs:65-82 | the text and then `"\r\n"` are added |
| TextBuilder.CodeBuilder.SetLength | Core/Text/CodeBuilder.cs:66-72 | the length setter clamps the value into `[0, Capacity]` |
| TextBuilder.CodeBuilder.At | Core/Text/CodeBuilder.cs:74-87 | the indexer gives the char at `index` exactly when `0 <= index < Length`, and ArgumentOutOfRangeException otherwise |
| TextBuilder.CodeBuilder.Slice | Core/Text/CodeBuilder.cs:89-101 | the range indexer gives `written[start..end]` exactly when `start <= end <= Length`, and ArgumentOutOfRangeException otherwise |
| TextBuilder.CodeBuilder.CurrentNewLineIndentText | Core/Text/WrittenExtensions.cs:30-38 | the result starts with `DefaultNewLine` and is a suffix of the text, or `DefaultNewLine` when the text holds no line break |
| TextBuilder.CodeBuilder.CutFront | Core/Text/WrittenExtensions.cs:10-14 | shifting the text left removes exactly its first `length` chars |
| TextBuilder.CodeBuilder.TrimStart | Core/Text/WrittenExtensions.cs:5-16 | the leading whitespace run is removed and the rest moved to index 0 |
| TextBuilder.CodeBuilder.TrimEnd | Core/Text/WrittenExtensions.cs:18-28 | the trailing whitespace run is dropped by lowering the length |
| TextBuilder.CodeBuilder.Clear | Core/Text/CodeBuilder.cs:724-727 | the written text becomes empty |
| TextBuilder.CodeBuilder.ToString | Core/Text/CodeBuilder.cs:790-793 | returns the written text and changes nothing |
| TextBuilder.CodeBuilder.ToStringAndClear | Core/Text/CodeBuilder.cs:782-788 | returns the old text and leaves an empty builder |
| TextBuilder.CodeBuilder.TryCopyTo | Core/Text/CodeBuilder.cs:719-722 | copies the text into the destination exactly when it fits |
| TextBuilder.CodeBuilder.EqualsText | Core/Text/CodeBuilder.cs:742-760 | ordinal equality of the text with the argument, a null string being equal to empty text |
| TextBuilder.CodeBuilder.EqualsBuilder | Core/Text/CodeBuilder.cs:762-768 | another builder is equal exactly when the two written texts are ordinally equal |
| TextBuilder.CodeBuilder.EnsureOnStartOfNewLine | Core/Text/CodeBuilder.cs:485-492 | a line break is written exactly when the text does not already end with the indent |
| TextBuilder.CodeBuilder.Code | Core/Text/CodeBuilder.cs:432-443 | the listed lines, a NewLine before each but the first, as `TextCode.CodeLines` states |
| TextBuilder.CodeBuilder.CodeListed | Core/Text/CodeBuilder.cs:436-441 | the loop over the listed lines from a given index on |
| TextBuilder.CodeBuilder.PrefixRemaining | Core/Text/CodeBuilder.cs:651-661 | each slice left in the enumerator is written as the prefix, the line and a line break |
| TextBuilder.CodeBuilder.PrefixEach | Core/Text/CodeBuilder.cs:638-643 | every listed line from index `from` on is written with the prefix and a line break |
| TextBuilder.CodeBuilder.WriteStarred | Core/Text/CodeBuilder.cs:638-643 | `/* ` and the first line, ` * ` and each further line, then ` */` |
| TextBuilder.CodeBuilder.Comment | Core/Text/CodeBuilder.cs:616-644 | one line gives `// line`, several the starred form; the branch for no line is never taken |
| TextBuilder.CodeBuilder.CommentAs | Core/Text/CodeBuilder.cs:646-689 | SingleLine and XML prefix every line; every other style is written as a multi-line comment |
| TextBuilder.CodeBuilder.Run | Core/Text/CodeBuilder.cs:377-717 | running one call ends in the state, or the exception and state, that `TextCode.ExecCmd` gives |
| TextBuilder.CodeBuilder.RunPlain | Core/Text/CodeBuilder.cs:377-381 | calls without callbacks or arguments end as `TextCode.ExecCmd` says, and none throws |
| TextBuilder.CodeBuilder.RunBody | Core/Text/CodeBuilder.cs:708-715 | a callback's calls in order, stopping at the first that throws |
| TextBuilder.CodeBuilder.RunBodies | Core/Text/EnumerableExtensions.cs:23-37 | `Enumerate` runs the action once per value, in order |
| TextBuilder.CodeBuilder.RunDelimit | Core/Text/EnumerableExtensions.cs:59-75 | the first value, then the delimiter and the next value for each further one |
| TextBuilder.CodeBuilder.RunDelimitText | Core/Text/EnumerableExtensions.cs:77-86 | `Format(delimiter)` between values |
| TextBuilder.CodeBuilder.RunDelimited | Core/Text/EnumerableExtensions.cs:85 | one value: the delimiter unless it is the first, then its action |
| TextBuilder.CodeBuilder.EnterIndentBlock | Core/Text/CodeBuilder.cs:463-473 | the indent is written at once when the current line indent is exactly the old indent, and the indent grows by `indent` |
| TextBuilder.CodeBuilder.LeaveIndentBlock | Core/Text/CodeBuilder.cs:475-482 | the old indent comes back, and a trailing new indent is rewritten as the old one |
| TextBuilder.CodeBuilder.RunIndented | Core/Text/CodeBuilder.cs:463-483 | `IndentBlock` as `TextCode.ExecCmd` says; an exception from the block leaves the inner indent in place |
| TextBuilder.CodeBuilder.RunBracket | Core/Text/CodeBuilder.cs:494-509 | `BracketBlock` ends as `TextCode.ExecBracket` says |
| TextBuilder.CodeBuilder.RunFormat | Core/Text/CodeBuilder.cs:383-430 | `Format<T>` ends as `TextCode.ExecObj` says |
| TextBuilder.CodeBuilder.RunFormats | Core/Text/CodeBuilder.cs:415-423 | the elements of a sequence written in order |
| TextBuilder.CodeBuilder.RunDelimitFormats | Core/Text/CodeBuilder.cs:415-423 | the elements of a sequence with a non-empty delimiter between them |
| TextBuilder.CodeBuilder.RunCodeFormat | Core/Text/CodeBuilder.cs:445-458 | `WriteFormatLine` per listed line, a NewLine before each but the first, up to the first that throws |
| TextBuilder.CodeBuilder.RunFormatLineAt | Core/Text/CodeBuilder.cs:451-456 | one listed line: a NewLine unless it is the first, then the line |
| TextBuilder.CodeBuilder.RunFormatLine | Core/Text/CodeBuilder.cs:170-354 | the parsed segments in order, then FormatException for a malformed line |
| Hashing.RotationsUsed | Core/Hasher.cs:45-46 | at each offset the algorithm uses (1, 7, 12, 13, 17, 18), `RotateLeft` is the 32-bit left rotation |
| Hashing.CodeWith | Core/Hasher.cs:443-446 | `Add(value, comparer)` contributes 0 for null, the comparer's hash with a comparer, and the value's own hash without one |
| Hashing.StripePart | Core/Hasher.cs:409-436 | the lanes that fill whole stripes of four |
| Hashing.TailPart | Core/Hasher.cs:496-505 | the fewer than four lanes after the last whole stripe |
| Hashing.Increment | Core/Hasher.cs:415 | `_length++` on a `uint` wraps at 2^32 |
| Hashing.AddCode | Core/Hasher.cs:409-436 | positions 0-2 (mod 4) queue the value; the fourth rounds all four lanes, which are first set from the seed after the third value |
| Hashing.Absorb | Core/Hasher.cs:409-436 | the state after adding the codes, one by one, to a fresh hasher |
| Hashing.Queued | Core/Hasher.cs:496-505 | the values still queued, oldest first |
| Hashing.MixQueueIsRemaining | Core/Hasher.cs:496-505 | mixing the queue is the xxHash32 step over the remaining lanes |
| Hashing.PartsSnoc | Core/Hasher.cs:409-436 | how the stripe and tail parts grow by one lane |
| Hashing.AddCodeQueues | Core/Hasher.cs:416-425 | at a queueing position the queue grows and the lanes stay |
| Hashing.AddCodeRounds | Core/Hasher.cs:426-435 | at the fourth position the queue is emptied into a round of the lanes |
| Hashing.StripesSnoc | Core/Hasher.cs:428-434 | consuming one more stripe rounds the lanes left by the earlier stripes |
| Hashing.ShapedQueues | Core/Hasher.cs:416-425 | adding a lane at a queueing position keeps the state invariant |
| Hashing.ShapedRounds | Core/Hasher.cs:426-435 | adding the fourth lane of a stripe keeps the state invariant |
| Hashing.AbsorbShape | Core/Hasher.cs:405-436 | after `n < 2^32` adds the length is `n`, the queue holds the lanes after the last whole stripe, and the lanes are the stripes' rounds |
| Hashing.FinishIsXXH32 | Core/Hasher.cs:470-509 | the incremental hasher computes xxHash32 of the hash codes added to it |
| Hashing.XXH32Short | Core/Hasher.cs:484-505 | xxHash32 of fewer than four lanes: the empty state, the length, then a queue round per lane |
| Hashing.XXH32OneStripe | Core/Hasher.cs:484-505 | xxHash32 of four to seven lanes: one stripe, the length, then a queue round per lane left |
| Hashing.XXH32TwoStripes | Core/Hasher.cs:484-489 | xxHash32 of eight lanes: two stripes and the length |
| Hashing.RemainingUnrolled | Core/Hasher.cs:496-505 | the queue rounds over one, two or three lanes, unrolled |
| Hashing.Create1IsXXH32 | Core/Hasher.cs:92-100 | `Create(v1)` is xxHash32 of one hash code, and what a fresh hasher returns after adding it |
| Hashing.Create2IsXXH32 | Core/Hasher.cs:102-115 | `Create` of two values is xxHash32 of their hash codes |
| Hashing.Create3IsXXH32 | Core/Hasher.cs:117-132 | `Create` of three values is xxHash32 of their hash codes |
| Hashing.Create4IsXXH32 | Core/Hasher.cs:134-153 | `Create` of four values is xxHash32 of their hash codes |
| Hashing.Create5IsXXH32 | Core/Hasher.cs:155-177 | `Create` of five values is xxHash32 of their hash codes |
| Hashing.Create6IsXXH32 | Core/Hasher.cs:179-203 | `Create` of six values is xxHash32 of their hash codes |
| Hashing.Create7IsXXH32 | Core/Hasher.cs:205-231 | `Create` of seven values is xxHash32 of their hash codes |
| Hashing.Create8IsXXH32 | Core/Hasher.cs:233-261 | `Create` of eight values is xxHash32 of their hash codes |
| Hashing.EmptyHashCode | Core/Hasher.cs:18-24 | `EmptyHashCode` is what a fresh hasher returns, xxHash32 of nothing |
| Hashing.Hasher.constructor | Core/Hasher.cs:403-407 | a fresh hasher has absorbed nothing |
| Hashing.Hasher.AddHashCode | Core/Hasher.cs:409-436 | the fields after one `AddHashCode` are those of `AddCode` |
| Hashing.Hasher.UpdateFields | Core/Hasher.cs:415-435 | the field updates of `AddHashCode` |
| Hashing.Hasher.Add | Core/Hasher.cs:438-441 | `Add(value)` adds the value's hash code, 0 for null |
| Hashing.Hasher.AddWith | Core/Hasher.cs:443-446 | `Add(value, comparer)` adds `CodeWith` of the value |
| Hashing.Hasher.AddAll | Core/Hasher.cs:448-468 | a null collection adds nothing, otherwise each value in order |
| Hashing.Hasher.ToHashCode | Core/Hasher.cs:470-509 | reads the fields and changes nothing; below 2^32 values the result is xxHash32 of them |
| Hashing.CreateSpan | Core/Hasher.cs:310-343 | up to eight values through the fixed-arity overloads, more through a fresh hasher; either way xxHash32 of the codes |
| Hashing.CreateFixed | Core/Hasher.cs:313-332 | the `switch` over fixed arities gives xxHash32 of the codes |
| Hashing.CreateArray | Core/Hasher.cs:263-297 | a null array hashes to 0, otherwise as the span overload |
| Hashing.CreateEnumerable | Core/Hasher.cs:356-377 | a null collection hashes to 0, otherwise a fresh hasher adds every value in order |
| Hashing.CreateSpanWith | Core/Hasher.cs:345-354 | a fresh hasher adds every value through the comparer |
| Hashing.CreateWith | Core/Hasher.cs:299-308 | a null array or collection hashes to 0, otherwise as the span overload with a comparer |
| Hashing.Round | Core/Hasher.cs:58-61 | definition of `Round`: `RotateLeft(hash + input * Prime2, 13) * Prime1` on wrapping `uint`s |
| Hashing.XxHash32 | Core/Hasher.cs:12-90 | definition of the mixer the source's private helpers make up: the five primes, `Initialize`, `MixEmptyState`, `Round`, `QueueRound`, `MixState` and `MixFinal` |
| Hashing.XXH32 | Core/Hasher.cs:470-509 | reference definition of xxHash32 over 4-byte lanes: whole stripes, the length, the remaining lanes and the final avalanche; `Hashing.FinishIsXXH32` proves the incremental hasher computes it |
| Hashing.Finish | Core/Hasher.cs:470-509 | definition of `ToHashCode` on a hasher state: the empty or mixed state, the length in bytes, a queue round per queued value and `MixFinal` |
| Comparison.FuncEqualityComparer.Equals | Core/Comparison/EnumerableComparerT.cs:15-20 | null equals only null; two non-null values are equal when the delegate says so |
| Comparison.FuncEqualityComparer.GetHashCode | Core/Comparison/EnumerableComparerT.cs:22-26 | null hashes to 0; anything else to the delegate's hash code |
| Comparison.FuncEqualsIsEquivalence | Core/Comparison/EnumerableComparerT.cs:15-20 | the comparer extends an equivalence on values to one on nullable values |
| Comparison.FuncEqualsNullCases | Core/Comparison/EnumerableComparerT.cs:17-18 | whatever the delegate says, two nulls are equal and null differs from non-null |
| Comparison.ElementCode | Core/Comparison/EnumerableComparerT.cs:89 | `e?.GetHashCode() ?? 0` |
| Comparison.Wrap32Step | Core/Comparison/EnumerableComparerT.cs:87-90 | wrapping the accumulator before a multiply-and-add step changes nothing after the final wrap |
| Comparison.FoldHashIsPolynomial | Core/Comparison/EnumerableComparerT.cs:82-92 | wrapping at every step gives the polynomial hash reduced to 32 bits once |
| Comparison.AllEqualIsEquivalence | Core/Comparison/EnumerableComparerT.cs:57-61 | element-wise comparison under an equivalence is an equivalence |
| Comparison.AllEqualByDefault | Core/Comparison/EnumerableComparerT.cs:41-44 | under the default comparer element-wise equality is sequence equality |
| Comparison.EnumerableEqualityComparer.ArrayEquals | Core/Comparison/EnumerableComparerT.cs:51-62 | the same reference or two nulls are equal; one null is not; otherwise equal lengths and element-wise equality |
| Comparison.EnumerableEqualityComparer.ImmutableEquals | Core/Comparison/EnumerableComparerT.cs:64-75 | default and empty arrays are equal to each other and to nothing else; otherwise equal lengths and element-wise equality |
| Comparison.EnumerableEqualityComparer.ArrayHashCode | Core/Comparison/EnumerableComparerT.cs:82-92 | null hashes to 0, anything else to the wrapping fold from 486187739 by 31 |
| Comparison.EnumerableEqualityComparer.ImmutableHashCode | Core/Comparison/EnumerableComparerT.cs:94-104 | a default or empty array hashes to 0, anything else as an array |
| Comparison.EmptyHashes | Core/Comparison/EnumerableComparerT.cs:84-103 | an empty array hashes to the seed, while an empty or default immutable array hashes to 0 |
| Comparison.HashIgnoresComparer | Core/Comparison/EnumerableComparerT.cs:89 | the hash ignores the value comparer: under a comparer equating all values, `[1]` and `[2]` are equal but hash differently |
| Comparison.FoldHash | Core/Comparison/EnumerableComparerT.cs:82-92 | definition of the running `hash` of the source's loop, wrapped at each step; `Comparison.FoldHashIsPolynomial` relates it to the unwrapped polynomial |
| Comparison.Polynomial | Core/Comparison/EnumerableComparerT.cs:82-92 | reference definition of the same hash without intermediate wrapping: `seed * 31^n` plus each code times its power of 31 |
| Attributes.GetFullTypeName | Core/Extensions/AttributeExtensions.cs:10-13 | the FQN of the attribute class, and null when the class is null |
| Attributes.IndexOfKey | Core/AttributeArgsCollection.cs:14 | the index of the entry whose key matches the name without regard to case, when there is one |
| Attributes.Positional | Core/AttributeArgsCollection.cs:27-33 | the constructor arguments, in order, under the names of the constructor's parameters |
| Attributes.Build | Core/AttributeArgsCollection.cs:17-51 | the constructor stores the constructor arguments under their parameter names and then the named arguments, a later match overwriting; a missing parameter throws |
| Attributes.LookupStore | Core/AttributeArgsCollection.cs:32 | after `args[name] = value` a matching name finds the new value and every other name finds what it found before |
| Attributes.KeyTransfer | Core/AttributeArgsCollection.cs:14 | a key matching `name` matches every name that `name` matches |
| Attributes.NoneTransfer | Core/AttributeArgsCollection.cs:14 | no key matches a query when none matches a name equal to it without regard to case |
| Attributes.KeyDiffers | Core/AttributeArgsCollection.cs:14 | a key matching `name` does not match a name that `name` does not match |
| Attributes.IndexIsFirst | Core/AttributeArgsCollection.cs:14 | the first match is at `i` when `i` matches and nothing before it does |
| Attributes.SameKeysSameIndex | Core/AttributeArgsCollection.cs:14 | two tables with the same keys in the same order find the same index |
| Attributes.IndexAfterAppend | Core/AttributeArgsCollection.cs:32 | adding an entry changes the first match only when there was none before |
| Attributes.StoreKeepsKeysDistinct | Core/AttributeArgsCollection.cs:32 | a store keeps the keys distinct, and adds one entry exactly when no key matched |
| Attributes.LookupStoreAll | Core/AttributeArgsCollection.cs:27-47 | after a run of stores a name finds the last matching pair's value, or else what it found before |
| Attributes.StoreAllSnoc | Core/AttributeArgsCollection.cs:27-47 | storing a run and then one more pair is storing the longer run |
| Attributes.StoreAllKeepsKeysDistinct | Core/AttributeArgsCollection.cs:10 | the keys stay distinct, so `Count` is the number of different keys |
| Attributes.BuiltLookup | Core/AttributeArgsCollection.cs:17-51 | a built collection answers each name with the last argument of that name, named arguments after constructor ones |
| Attributes.LastMatchAppend | Core/AttributeArgsCollection.cs:36-47 | the last match over two runs is in the second run when there is one there |
| Attributes.EmptyHasNothing | Core/AttributeArgsCollection.cs:6-15 | `Empty` holds nothing and finds nothing |
| Attributes.BlankNameNotFound | Core/AttributeArgsCollection.cs:57-61 | a null or empty name is never found, whatever the table holds |
| Attributes.TypedLookup | Core/AttributeArgsCollection.cs:65-79 | the typed lookup succeeds exactly when the name is found with a value of that type, never for a stored null, and then gives that value |
| Attributes.FirstWithClass | Core/SymbolAttributeData.cs:23-35 | the first attribute whose class has the given FQN |
| Attributes.SearchesAgree | Core/SymbolAttributeData.cs:15-49 | `HasAttribute` holds exactly when `TryGetAttributeData` finds something, and `TryGetAttributeArg` succeeds under the same condition with the args of that attribute |
| Attributes.EmptyDataThrows | Core/SymbolAttributeData.cs:6 | `SymbolAttributeData.Empty` wraps the default array, so every search on it throws |
| Attributes.FirstByFqnIsLeast | Core/Extensions/AttributeExtensions.cs:34-43 | `FindByFQN` returns the attribute at the least index whose class FQN equals the query, and null when there is none |
| Attributes.FindAgreesWithTryGet | Core/Extensions/AttributeExtensions.cs:34-43 | with a non-null query `FindByFQN` agrees with `TryGetAttributeData` |
| Attributes.Store | Core/AttributeArgsCollection.cs:32 | definition of `args[name] = value` on the dictionary: a matching key takes the new value, otherwise the pair is added; `Attributes.LookupStore` and `Attributes.StoreKeepsKeysDistinct` state its properties |
| Attributes.Lookup | Core/AttributeArgsCollection.cs:57-61 | definition of the dictionary's `TryGetValue`: the value under the matching key, found by `Attributes.IndexOfKey` |
| Attributes.BuildSpec | Core/AttributeArgsCollection.cs:17-51 | definition of the constructor: the constructor arguments under their parameter names, then the named arguments, IndexOutOfRangeException for a missing parameter (`Attributes.Build`) |
| Attributes.TryGetValue | Core/AttributeArgsCollection.cs:57-61 | definition of `TryGetValue(name, out object?)`: nothing for a null or empty name (`Attributes.BlankNameNotFound`), otherwise the lookup |
| Attributes.TryGetValueAs | Core/AttributeArgsCollection.cs:65-79 | definition of `TryGetValue<TValue>`: found and of that type; `Attributes.TypedLookup` states it |
| Attributes.FirstByFqn | Core/Extensions/AttributeExtensions.cs:34-43 | definition of the index loop of `FindByFQN` over an initialised array; `Attributes.FirstByFqnIsLeast` states what it finds |
| Attributes.FindByFqn | Core/Extensions/AttributeExtensions.cs:34-43 | definition of `FindByFQN`: NullReferenceException on a default array, otherwise the first match (`Attributes.FindAgreesWithTryGet`) |
| Signatures.TypeSigByFullName | InterfaceGen/Signatures/MemberSig.cs:32-60 | equality and hash code of two `TypeSig`s depend only on the full names; the simple names play no part |
| Signatures.EqualParamsHashEqual | InterfaceGen/Signatures/MemberSig.cs:98-136 | parameters equal under `Equals` have the same hash code, whatever their defaults |
| Signatures.DefaultValueIgnored | InterfaceGen/Signatures/MemberSig.cs:98-105 | two parameters that differ only in their default value are equal |
| Signatures.Lift | InterfaceGen/Signatures/MemberSig.cs:231-237 | an `ImmutableArray<T>` seen as an array of nullable elements, keeping default, length and elements |
| Signatures.LiftedArrays | InterfaceGen/Signatures/MemberSig.cs:231-237 | the comparer's element-wise comparison of lifted arrays is element-wise equality of the arrays |
| Signatures.Equals | InterfaceGen/Signatures/MemberSig.cs:221-241 | false for null; otherwise the six header fields must agree, then the attributes by class FQN and the parameters element-wise |
| Signatures.MemberEqualsIsEquivalence | InterfaceGen/Signatures/MemberSig.cs:221-241 | `MemberSig.Equals` is reflexive, symmetric and transitive |
| Signatures.NullIsNeverEqual | InterfaceGen/Signatures/MemberSig.cs:223 | `Equals(null)` is false |
| Signatures.ParamCodes | InterfaceGen/Signatures/MemberSig.cs:270 | the parameters' hash codes, in order |
| Signatures.NullableCodes | InterfaceGen/Signatures/MemberSig.cs:270 | the codes as the nullable values `AddAll` takes |
| Signatures.HeaderCodes | InterfaceGen/Signatures/MemberSig.cs:264-269 | the six codes added before the parameters, in order |
| Signatures.MemberHashIsXXH32 | InterfaceGen/Signatures/MemberSig.cs:261-272 | below 2^32 parameters the hash code is xxHash32 of the header codes followed by the parameter codes |
| Signatures.GetHashCode | InterfaceGen/Signatures/MemberSig.cs:261-272 | `GetHashCode()` feeds a fresh hasher as the source does and returns `MemberHash` |
| Signatures.AddMember | InterfaceGen/Signatures/MemberSig.cs:263-271 | the body of `GetHashCode` leaves the hasher having absorbed the header and parameter codes |
| Signatures.AddHeader | InterfaceGen/Signatures/MemberSig.cs:264-269 | the six `Add` calls absorb the header codes |
| Signatures.EqualMembersHashEqual | InterfaceGen/Signatures/MemberSig.cs:221-272 | equal signatures whose parameter arrays are initialised have equal hash codes |
| Signatures.HashIgnoresAttributes | InterfaceGen/Signatures/MemberSig.cs:261-272 | signatures that differ only in their attributes hash alike |
| Signatures.DefaultParamsEqualButThrow | InterfaceGen/Signatures/MemberSig.cs:236-237 | `Equals` treats a default and an empty parameter array alike, but only the empty one can be hashed |
| Signatures.HasAttribute | InterfaceGen/Signatures/MemberSig.cs:204-207 | some attribute's class has the FQN; the default array throws |
| Signatures.FromImplementation | InterfaceGen/Signatures/MemberSig.cs:168-187 | a plain signature holding exactly the given values, with default attributes |
| Signatures.VisibilityMapping | InterfaceGen/Signatures/SymbolSig.cs:8-31 | every accessibility maps to a combination of the four flags: none for NotApplicable, one flag for the plain ones, Protected and Internal for both mixed ones |
| Signatures.InsticOf | InterfaceGen/Signatures/SymbolSig.cs:7 | `IsStatic ? Instic.Static : Instic.Instance` |
| Signatures.AccessorTexts | InterfaceGen/Signatures/PropertySig.cs:14-40 | the accessor texts are determined by, and determine, which accessors exist and whether the setter is init-only |
| Signatures.MethodMemberType | InterfaceGen/Signatures/MethodSig.cs:8-15 | constructors of either kind are `Constructor`; every other method is `Method` |
| Signatures.FromSymbol | InterfaceGen/Signatures/MemberSig.cs:146-162 | a property gives a `PropertySig`, a method a `MethodSig`, and a field, an event or anything else throws NotImplementedException |
| Signatures.SymbolKinds | InterfaceGen/Signatures/MethodSig.cs:8-15 | a signature from a symbol is never `Operator`, while a `Method` query also finds constructors |
| Signatures.ParamBodies | InterfaceGen/Signatures/MemberSig.cs:217 | one `Value(p)` per parameter |
| Signatures.TokensAreFlat | InterfaceGen/MemberKeywords.cs:15-20 | the keyword tokens are the flat text of `DeclareTo`'s enumeration |
| Signatures.HeadIsFlat | InterfaceGen/Signatures/MemberSig.cs:211-215 | the calls of the head append the head text |
| Signatures.ParamsAreFlat | InterfaceGen/Signatures/MemberSig.cs:217 | the parameter values joined by `, ` are the parameters' texts joined by `, ` |
| Signatures.PropertyDeclarationIsFlat | InterfaceGen/Signatures/PropertySig.cs:43-54 | a property declaration appends the head, the name and `{ get; set; }`-style accessors |
| Signatures.MethodDeclarationIsFlat | InterfaceGen/Signatures/MemberSig.cs:209-219 | a method declaration appends the head, the name and the parenthesised parameters |
| Signatures.UnlistedDeclarationIsFlat | InterfaceGen/Signatures/MemberSig.cs:216-217 | before a default parameter array throws, the head and `(` are written |
| Signatures.DeclarationWritesText | InterfaceGen/Signatures/MemberSig.cs:209-219 | `WriteDeclaration` writes exactly the declaration text and keeps the indent; a default parameter array throws after `(` |
| Signatures.WriteDeclaration | InterfaceGen/Signatures/PropertySig.cs:43-54 | the builder ends as `DeclarationWritesText` states, for property and method signatures alike |
| Signatures.TypeEquals | InterfaceGen/Signatures/MemberSig.cs:32-60 | definition of `TypeSig.Equals`: ordinal equality of the full names, false for null; `Signatures.TypeSigByFullName` states its properties |
| Signatures.TypeHash | InterfaceGen/Signatures/MemberSig.cs:32-60 | definition of `TypeSig.GetHashCode`: `Hasher.Create(FullName)` |
| Signatures.MemberEquals | InterfaceGen/Signatures/MemberSig.cs:221-241 | definition of `MemberSig.Equals`; `Signatures.MemberEqualsIsEquivalence` and `Signatures.EqualMembersHashEqual` state its properties |
| Signatures.MemberHash | InterfaceGen/Signatures/MemberSig.cs:261-272 | definition of `MemberSig.GetHashCode`: InvalidOperationException for a default parameter array, otherwise xxHash32 of the header and parameter codes (`Signatures.MemberHashIsXXH32`) |
| Signatures.DeclarationText | InterfaceGen/Signatures/MemberSig.cs:209-219 | definition of the text `WriteDeclaration` writes: the head, then the accessor braces for a property or the parenthesised parameters for a method (`Signatures.DeclarationWritesText`) |
| KeywordsExtractor.Parse | InterfaceGen/KeywordsExtractor.cs:5-33 | `Parse(text)` is the token loop run over the trimmed, non-empty, space-separated tokens of the text, starting from the three defaults |
| KeywordsExtractor.ParseWith | InterfaceGen/KeywordsExtractor.cs:11-32 | the enumerator loop tries Visibility, then MemberKeywords, then ObjType on each token, and throws for a token none of them names |
| KeywordsExtractor.FindNameIsFirst | InterfaceGen/KeywordsExtractor.cs:15 | a token finds the first member whose name matches without regard to case, and nothing only when none does |
| KeywordsExtractor.OrAssoc | InterfaceGen/KeywordsExtractor.cs:17-25 | OR-ing read keywords is associative |
| KeywordsExtractor.OrNothing | InterfaceGen/KeywordsExtractor.cs:7-9 | the defaults are the unit of OR |
| KeywordsExtractor.OrComm | InterfaceGen/KeywordsExtractor.cs:17-25 | OR-ing read keywords is commutative |
| KeywordsExtractor.ApplyIsOr | InterfaceGen/KeywordsExtractor.cs:15-26 | a token OR-s its bits into whatever was read before it |
| KeywordsExtractor.AllKnownCons | InterfaceGen/KeywordsExtractor.cs:13-31 | whether all tokens are known is decided by the first and then the rest |
| KeywordsExtractor.ParseTokensIsUnion | InterfaceGen/KeywordsExtractor.cs:13-32 | the loop succeeds exactly when every token is known, and then returns the OR of all of them; otherwise it throws ArgumentException |
| KeywordsExtractor.AllKnownAppend | InterfaceGen/KeywordsExtractor.cs:13-31 | two runs of tokens are all known exactly when each is |
| KeywordsExtractor.UnionAppend | InterfaceGen/KeywordsExtractor.cs:13-31 | the union over two runs is the OR of the unions |
| KeywordsExtractor.TokenOrderIrrelevant | InterfaceGen/KeywordsExtractor.cs:13-31 | the order of the tokens does not matter |
| KeywordsExtractor.RepeatedToken | InterfaceGen/KeywordsExtractor.cs:13-31 | repeating a token changes nothing |
| KeywordsExtractor.BlankText | InterfaceGen/KeywordsExtractor.cs:7-11 | null or blank text has no tokens, so it reads as the three defaults |
| KeywordsExtractor.TokensAreTrimmed | InterfaceGen/KeywordsExtractor.cs:11 | every token read is non-empty and has no whitespace at either end |
| KeywordsExtractor.SliceIsTrimmed | InterfaceGen/KeywordsExtractor.cs:11 | a non-empty slice with no whitespace at its ends is its own trim |
| KeywordsExtractor.TrimmedIsTrim | InterfaceGen/KeywordsExtractor.cs:11 | a non-empty string with no whitespace at its ends is its own trim |
| KeywordsExtractor.LengthsDiffer | InterfaceGen/KeywordsExtractor.cs:15 | names of different lengths never match |
| KeywordsExtractor.DiffersAt | InterfaceGen/KeywordsExtractor.cs:15 | names that differ at one position after upper-casing never match |
| KeywordsExtractor.AnyIsVisibility | InterfaceGen/KeywordsExtractor.cs:15-18 | `"any"` is read as `Visibility.Any`, never as `ObjType.Any`, since Visibility is tried first |
| KeywordsExtractor.StaticNotVisibility | InterfaceGen/KeywordsExtractor.cs:15 | `"static"` names no Visibility |
| KeywordsExtractor.StaticNotKeyword | InterfaceGen/KeywordsExtractor.cs:19 | `"static"` names no member keyword |
| KeywordsExtractor.StaticNotObjType | InterfaceGen/KeywordsExtractor.cs:23 | `"static"` names no object type |
| KeywordsExtractor.StaticIsInvalid | InterfaceGen/KeywordsExtractor.cs:27-30 | `static` is not among the three enums tried, so it is an invalid keyword that throws ArgumentException |
| KeywordsExtractor.TryParse | InterfaceGen/KeywordsExtractor.cs:15-23 | definition of `Enum.TryParse(token, ignoreCase: true)` on a member name; `KeywordsExtractor.FindNameIsFirst` states which member it finds |
| KeywordsExtractor.ParseTokens | InterfaceGen/KeywordsExtractor.cs:11-32 | definition of the token loop, stopping with ArgumentException at the first unknown token; `KeywordsExtractor.ParseTokensIsUnion` states what it returns |
| KeywordsExtractor.ParseSpec | InterfaceGen/KeywordsExtractor.cs:5-33 | definition of `Parse(text)` as a function of the text: the token loop over its tokens from the three defaults (`KeywordsExtractor.Parse`) |
| Emit.RunEmission | Core/Coding/CodeBuilder.cs:466-474 | a writer's action runs its builder calls in order, then throws its own exception if they completed |
| Emit.Perform | Core/Coding/CodeBuilder.cs:466-474 | performing an emission on a builder ends as `RunEmission` says |
| Emit.TextValue | Core/Coding/CodeBuilder.cs:492-499 | a textual value writes its text whatever the hole's format |
| Emit.SegmentsOfText | Core/Coding/CodeBuilder.cs:266-417 | textual arguments render each hole as their text, as string arguments do |
| Emit.FormatLineOfText | Core/Coding/CodeBuilder.cs:266-417 | `WriteFormatLine` with textual arguments writes the rendered line, or throws FormatException |
| Emit.FormatLinesOfText | Core/Coding/CodeBuilder.cs:549-563 | `Code(FormattableString)` with textual arguments writes the rendered lines |
| Emit.OneLine | Core/Coding/CodeBuilder.cs:553 | a text without a carriage return splits into one line |
| Emit.FormatOneLine | Core/Coding/CodeBuilder.cs:549-563 | a format of one line is that line's `WriteFormatLine` |
| Emit.CodeFormatOfPieces | Core/Coding/CodeBuilder.cs:549-563 | `Code($"…")` of one line of pieces with textual holes writes the text the pieces stand for |
| Emit.CodeLineOfText | Core/Coding/CodeBuilder.cs:565 | `CodeLine` of a one-line text writes it and a NewLine |
| Emit.CodeOfText | Core/Coding/CodeBuilder.cs:536-547 | `Code` of a one-line text writes it |
| Emit.Literal | Core/Coding/CodeBuilder.cs:301-317 | pieces with no holes give the format that is the text with its braces doubled |
| Emit.FlatWrites | Core/Coding/CodeBuilder.cs:234-263 | a call with a flat text appends exactly that text and completes |
| Emit.FormatWrites | Core/Coding/CodeBuilder.cs:549-563 | a one-line format with textual holes writes its rendered text |
| Emit.PiecesAreFlat | Core/Coding/CodeBuilder.cs:266-417 | a one-line `$"…"` built from pieces with textual holes has the text the pieces stand for |
| Emit.ExpectedCons | Core/Coding/CodeBuilder.cs:266-417 | the meaning of pieces, one piece at a time |
| Emit.PiecesCons | Core/Coding/CodeBuilder.cs:266-417 | one more fitting piece in front of a well-formed one-line format keeps it well-formed |
| Emit.ThreePieces | Core/Coding/CodeBuilder.cs:266-417 | three fitting pieces make a well-formed one-line format meaning their meanings |
| Emit.FivePieces | Core/Coding/CodeBuilder.cs:266-417 | five fitting pieces make a well-formed one-line format meaning their meanings |
| Emit.FormatOfThree | Core/Coding/CodeBuilder.cs:266-417 | a format of three fitting pieces with textual arguments renders the three meanings |
| Emit.FormatOfFive | Core/Coding/CodeBuilder.cs:266-417 | a format of five fitting pieces with textual arguments renders the five meanings |
| Emit.PiecesAppend | Core/Coding/CodeBuilder.cs:266-417 | two well-formed one-line formats in a row make one, meaning the two meanings in order |
| Emit.FormatOfNine | Core/Coding/CodeBuilder.cs:266-417 | a format of three groups of three fitting pieces renders the nine meanings |
| Emit.SeparatorWrites | Core/Coding/CodeBuilder.cs:787 | a one-line separator written by `Code` is appended as it is |
| Emit.BodyWrites | Core/Coding/CodeBuilder.cs:466-474 | a body with a flat text appends it |
| Emit.LineDelimitWrites | Core/Coding/CodeBuilder.cs:809-812 | `LineDelimit` over flat items appends them joined by line breaks |
| Emit.FlatConcat | Core/Coding/CodeBuilder.cs:466-474 | two flat bodies in a row append their texts in order |
| Emit.FlatTwo | Core/Coding/CodeBuilder.cs:466-474 | two flat calls append their texts in order |
| Emit.FlatThree | Core/Coding/CodeBuilder.cs:466-474 | three flat calls append their texts in order |
| Emit.FlatFour | Core/Coding/CodeBuilder.cs:466-474 | four flat calls append their texts in order |
| Emit.FlatThenBracket | Core/Coding/CodeBuilder.cs:856-871 | a flat body followed by a bracketed block with the default indent |
| Emit.FlatThen | Core/Coding/CodeBuilder.cs:466-474 | a flat body's text is appended and the calls after it run on the result |
| Emit.FlatSnoc | Core/Coding/CodeBuilder.cs:466-474 | one more call at the end of a flat body |
| Emit.FlatSingle | Core/Coding/CodeBuilder.cs:466-474 | a body of one call appends that call's text |
| Emit.FlatAppend | Core/Coding/CodeBuilder.cs:466-474 | two flat bodies back to back have the concatenated text |
| Emit.FlatFirst | Core/Coding/CodeBuilder.cs:466-474 | the flat text of the first call of a body |
| Emit.FlatPrefix | Core/Coding/CodeBuilder.cs:466-474 | the flat text of the first `k + 1` calls is that of the first `k`, then call `k`'s |
| Generate.Insert | InterfaceGen/GenerateInfo.cs:17 | `Members.Add(m)` hashes first, which throws for default parameters; then `m` joins the set unless an equal member is there, and the result says whether it joined |
| Generate.InsertKeepsSet | InterfaceGen/GenerateInfo.cs:17 | adding keeps a set with no two equal entries, all of which can be hashed |
| Generate.AddingAgainIsRefused | InterfaceGen/GenerateInfo.cs:17 | adding a member equal to one already there returns false and changes nothing |
| Generate.InsertContains | InterfaceGen/GenerateInfo.cs:17 | after `Add(m)` the set holds a member equal to `m`, and still every member it held |
| Generate.OpenQueryIsFlagsOnly | InterfaceGen/GenerateInfo.cs:38-67 | a blank name and null predicates constrain nothing, so such a query is about the flags alone |
| Generate.MethodQueryFindsConstructors | InterfaceGen/GenerateInfo.cs:50 | flag containment makes a `Method` query also find constructors and operators, while a `Property` query finds only properties |
| Generate.NamedQueryNeedsTheName | InterfaceGen/GenerateInfo.cs:51-55 | a non-blank name is compared ordinally, so a member with any other name never matches |
| Generate.WithAttributeIsFilter | InterfaceGen/GenerateInfo.cs:69-72 | the enumeration throws NullReferenceException exactly when some member has default attributes; otherwise it yields exactly the members with the attribute, in order |
| Generate.HasInterface | InterfaceGen/GenerateInfo.cs:32-36 | some interface's FQN equals the full name; the default array throws |
| Generate.ConstructedFromArgument | InterfaceGen/CodeWriters/EquatableWriter.cs:18 | every `start` + argument + `>` passes the construction test |
| Generate.ConstructedFromHasArgument | InterfaceGen/CodeWriters/ComparableWriter.cs:16 | when `start` does not end with `>`, only such displays pass, and the argument is what lies between |
| Generate.OfKind | InterfaceGen/CodeWriters/ToStringImplWriter.cs:20 | `Members.Where(m => m.MemberType == kind)` keeps the members whose kind is exactly `kind`, in order |
| Generate.VariableName | Core/Extensions/VariableNamingExtensions.cs:16-72 | the name of a type and the counter afterwards; only a nameless type moves the counter |
| Generate.InterfaceVariableName | InterfaceGen/CodeWriters/EquatableWriter.cs:63 | `InterfaceTypeSymbol.GetVariableName()` on the shared naming state |
| Generate.GenerateInfo.constructor | InterfaceGen/GenerateInfo.cs:9-22 | a new info is Public, Class and Sealed, with the given implementation name, no interfaces assigned yet and no members |
| Generate.GenerateInfo.Add | InterfaceGen/GenerateInfo.cs:17 | `Members.Add(m)` updates the members as `Insert` says |
| Generate.GenerateInfo.HasMember | InterfaceGen/GenerateInfo.cs:38-67 | the `foreach` returns true exactly when some member passes every check of the query |
| Generate.GenerateInfo.GetLocals | InterfaceGen/GenerateInfo.cs:24-30 | the implementation name and its `ToVariableName()` |
| Generate.WithAttribute | InterfaceGen/GenerateInfo.cs:69-72 | definition of `MembersWithAttribute(fqn)` once enumerated; `Generate.WithAttributeIsFilter` states it |
| Generate.RawText | InterfaceGen/CodeWriters/ComparableWriter.cs:27-76 | definition of a multi-line raw string literal by its lines, joined by the source file's line ending |
| EquatableWriters.CanImplementIff | InterfaceGen/CodeWriters/EquatableWriter.cs:15-20 | the writer accepts exactly the displays `System.IEquatable<` + argument + `>` |
| EquatableWriters.KeysChosen | InterfaceGen/CodeWriters/EquatableWriter.cs:65-76 | an unreadable attribute array throws NullReferenceException; otherwise the keys are the `[Key]` members if any, else the properties if any, else InvalidOperationException |
| EquatableWriters.OperatorsNegate | InterfaceGen/CodeWriters/EquatableWriter.cs:27-56 | the generated `!=` is the negation of the generated `==`, for classes and structs alike |
| EquatableWriters.ClassEqualsMeaning | InterfaceGen/CodeWriters/EquatableWriter.cs:30-35 | the class `==` holds for two nulls, never between null and an object, and between objects exactly when they are the same or agree on every key |
| EquatableWriters.Conditions | InterfaceGen/CodeWriters/EquatableWriter.cs:160 | one `EqualityComparer<T>.Default.Equals(this.P, v.P)` text per key, in order |
| EquatableWriters.CheckItems | InterfaceGen/CodeWriters/EquatableWriter.cs:156-160 | one `Code` call per key, in order |
| EquatableWriters.ConditionFormat | InterfaceGen/CodeWriters/EquatableWriter.cs:160 | the interpolated condition renders the comparison of one key |
| EquatableWriters.ChecksJoin | InterfaceGen/CodeWriters/EquatableWriter.cs:155-161 | the delimited checks write the conditions joined by ` && ` and a line break |
| EquatableWriters.CheckBodyIsFlat | InterfaceGen/CodeWriters/EquatableWriter.cs:153-162 | `checkProperties` writes `return `, the key comparisons joined by ` && ` and a line break, then `;` and a line break |
| EquatableWriters.ClassCheckIsFlat | InterfaceGen/CodeWriters/EquatableWriter.cs:83-87 | the class's `Equals(I? v)` body returns false for null before comparing the keys |
| EquatableWriters.KeysEqual | InterfaceGen/CodeWriters/EquatableWriter.cs:155-161 | the `&&` chain holds exactly when every key compares equal |
| EquatableWriters.HashItems | InterfaceGen/CodeWriters/EquatableWriter.cs:125-148 | one hash line per key: a plain add for `int`, a null test for nullable types, `GetHashCode()` otherwise |
| EquatableWriters.GeneratedHashIsFold | InterfaceGen/CodeWriters/EquatableWriter.cs:121-150 | the generated `GetHashCode` computes, from 486187739, the same wrapping multiply-by-31 fold as `EnumerableEqualityComparer`, a null key counting 0 |
| EquatableWriters.GeneratedHashFrom | InterfaceGen/CodeWriters/EquatableWriter.cs:125-148 | the fold from any point on agrees with the comparer's fold |
| EquatableWriters.WriteOperators | InterfaceGen/CodeWriters/EquatableWriter.cs:22-57 | the builder ends as the operators emission says: nullable operators for a class, plain ones for a struct |
| EquatableWriters.WriteMethods | InterfaceGen/CodeWriters/EquatableWriter.cs:59-164 | `GetLocals`, then the interface's variable name from the shared naming state (which advances the counter), then the methods emission |
| EquatableWriters.KeyMembers | InterfaceGen/CodeWriters/EquatableWriter.cs:65-76 | definition of the key choice: the `[Key]` members, else the properties, else InvalidOperationException; `EquatableWriters.KeysChosen` states it |
| EquatableWriters.HashItem | InterfaceGen/CodeWriters/EquatableWriter.cs:125-148 | definition of the calls the hash action makes for one key, by its hash rule (`EquatableWriters.HashItems`) |
| EquatableWriters.GeneratedHash | InterfaceGen/CodeWriters/EquatableWriter.cs:121-150 | definition of what the generated `GetHashCode` statements compute over the keys; `EquatableWriters.GeneratedHashIsFold` proves it is the comparer's fold |
| EquatableWriters.OperatorsEmission | InterfaceGen/CodeWriters/EquatableWriter.cs:22-57 | definition of the calls `WriteOperators` makes: one code block, the class form when `ObjType` is exactly `Class`, with the type name in every hole |
| EquatableWriters.MethodsEmission | InterfaceGen/CodeWriters/EquatableWriter.cs:59-164 | definition of the calls `WriteMethods` makes after the key choice: the `Equals` methods, then `GetHashCode`; the lemmas beside it state what they write |
| ComparableWriters.CanImplementIff | InterfaceGen/CodeWriters/ComparableWriter.cs:13-18 | the writer accepts exactly the displays `System.IComparable<` + argument + `>` |
| ComparableWriters.NullIsLeast | InterfaceGen/CodeWriters/ComparableWriter.cs:28-75 | the class operators put null below every object: `null < x` exactly for objects, `null <= x` always, `null > x` never, `null >= x` only for null |
| ComparableWriters.OperatorsComplement | InterfaceGen/CodeWriters/ComparableWriter.cs:25-98 | `<` and `>=` are complements, as are `<=` and `>`, for classes (null included) and structs |
| ComparableWriters.CompareItems | InterfaceGen/CodeWriters/ComparableWriter.cs:152-160 | `compareProperties` writes one compare-and-return block and a line break per key, in order |
| ComparableWriters.LexicographicMeaning | InterfaceGen/CodeWriters/ComparableWriter.cs:122-160 | the generated comparison is 0 exactly when every key compares equal, and otherwise the result of the first key that does not |
| ComparableWriters.LexicographicAntisymmetric | InterfaceGen/CodeWriters/ComparableWriter.cs:122-160 | when every key comparison is antisymmetric, so is the generated comparison |
| ComparableWriters.WriteOperators | InterfaceGen/CodeWriters/ComparableWriter.cs:20-99 | the builder ends as the operators emission says: null-aware operators for a class, their end-of-line comments included, and plain ones for a struct |
| ComparableWriters.WriteMethods | InterfaceGen/CodeWriters/ComparableWriter.cs:101-161 | `GetLocals`, the interface's variable name from the shared naming state, then the interface `CompareTo` and, for a struct, the direct one |
| ComparableWriters.Lexicographic | InterfaceGen/CodeWriters/ComparableWriter.cs:152-160 | definition of what the statements written for the keys compute: the first non-zero key comparison, or 0; `ComparableWriters.LexicographicMeaning` states it |
| ComparableWriters.GeneratedCompareTo | InterfaceGen/CodeWriters/ComparableWriter.cs:122-160 | definition of what the generated interface `CompareTo` returns: 1 for null, else the lexicographic result |
| ComparableWriters.OperatorsEmission | InterfaceGen/CodeWriters/ComparableWriter.cs:20-99 | definition of the calls `WriteOperators` makes: one code block, the class form (end-of-line comments included) when `ObjType` is exactly `Class` |
| ComparableWriters.MethodsEmission | InterfaceGen/CodeWriters/ComparableWriter.cs:101-161 | definition of the calls `WriteMethods` makes after the key choice: the interface `CompareTo`, and for a struct the direct one |
| PropertyWriters.Properties | InterfaceGen/CodeWriters/PropertyWriter.cs:26-29 | the property signatures among the members, in the set's order, and only those |
| PropertyWriters.PropertiesOfAppend | InterfaceGen/CodeWriters/PropertyWriter.cs:26-29 | the `OfType<PropertySig>` filter keeps the members' order: it distributes over concatenation |
| PropertyWriters.PropertyItems | InterfaceGen/CodeWriters/PropertyWriter.cs:31-44 | one `LineDelimit` item per property signature, in order |
| PropertyWriters.PropertyLines | InterfaceGen/CodeWriters/PropertyWriter.cs:31-44 | one declaration line per property signature, in order |
| PropertyWriters.DeclarationFormat | InterfaceGen/CodeWriters/PropertyWriter.cs:36 | `Code($"{p.ReturnType} {p.Name} {{")` writes the type, a space, the name and " {" |
| PropertyWriters.AccessorsAreFlat | InterfaceGen/CodeWriters/PropertyWriter.cs:37-43 | the accessor appends write " get;" when there is a getter, then " init;" or else " set;", then " }" |
| PropertyWriters.PropertyItemIsFlat | InterfaceGen/CodeWriters/PropertyWriter.cs:32-43 | one property's calls append exactly its declaration line |
| PropertyWriters.PropertyHeadIsFlat | InterfaceGen/CodeWriters/PropertyWriter.cs:33-36 | the three DeclareTo calls and the format write the signature's head and " {" |
| PropertyWriters.PropertyItemsJoin | InterfaceGen/CodeWriters/PropertyWriter.cs:31-44 | `LineDelimit` over the items writes the declaration lines joined by line breaks |
| PropertyWriters.PropertiesWrite | InterfaceGen/CodeWriters/PropertyWriter.cs:23-45 | `WriteProperties` writes one declaration line per property signature, in order, separated by line breaks, and nothing else |
| PropertyWriters.PropertyLineIsDeclaration | InterfaceGen/CodeWriters/PropertyWriter.cs:33-43 | for a property read from a symbol, the written line is exactly the signature's own declaration text, the accessors reproducing `GetStr + SetStr`; this holds under the model's reading of `HasGet`, `HasInit` and `HasSet`, which the source does not define (see "## Left out") |
| PropertyWriters.ParameterItems | InterfaceGen/CodeWriters/PropertyWriter.cs:61-62 | one delimited item per property |
| PropertyWriters.AssignmentItems | InterfaceGen/CodeWriters/PropertyWriter.cs:64 | one assignment item per property |
| PropertyWriters.ParameterTexts | InterfaceGen/CodeWriters/PropertyWriter.cs:62 | the i-th parameter is the i-th property's type, a space and its variable name |
| PropertyWriters.AssignmentTexts | InterfaceGen/CodeWriters/PropertyWriter.cs:64 | the i-th assignment is `this.Name = varName;` for the i-th property |
| PropertyWriters.ParameterFormat | InterfaceGen/CodeWriters/PropertyWriter.cs:62 | `Code($"{p.ReturnType} {p.VarName}")` writes the type, a space and the variable name |
| PropertyWriters.AssignmentFormat | InterfaceGen/CodeWriters/PropertyWriter.cs:64 | the assignment format writes `this.`, the name, ` = `, the variable name and `;` |
| PropertyWriters.ParametersJoin | InterfaceGen/CodeWriters/PropertyWriter.cs:61-62 | `Delimit(", ", …)` writes the parameters joined by ", " |
| PropertyWriters.AssignmentsJoin | InterfaceGen/CodeWriters/PropertyWriter.cs:64 | `LineDelimit` writes the assignments joined by line breaks |
| PropertyWriters.AssignmentsWrite | InterfaceGen/CodeWriters/PropertyWriter.cs:64 | inside the bracket, the constructor body is one assignment line per property, in order |
| PropertyWriters.OpenFormat | InterfaceGen/CodeWriters/PropertyWriter.cs:61 | `Code($"public {type}(")` writes "public ", the type name and "(" |
| PropertyWriters.ConstructorsWrite | InterfaceGen/CodeWriters/PropertyWriter.cs:47-67 | `WriteConstructors` writes `public T() { }` and a blank line; with no property that is all, and otherwise `public T(`, one `Type varName` per property joined by ", ", `)` and the bracketed assignments |
| PropertyWriters.ConstructorsOpeningIsFlat | InterfaceGen/CodeWriters/PropertyWriter.cs:51-63 | the calls before the bracket append the parameterless constructor, a blank line and the opening of the full constructor |
| PropertyWriters.OpenIsFlat | InterfaceGen/CodeWriters/PropertyWriter.cs:61-63 | `public T(`, the parameters joined by ", " and `)` ending the line |
| PropertyWriters.EventSig | InterfaceGen/CodeWriters/PropertyWriter.cs:95-102 | the signature added for an event is public, instance, without keywords, of kind Event, with the given name and handler type and no parameters |
| PropertyWriters.EventStepOn | InterfaceGen/CodeWriters/PropertyWriter.cs:93-109 | one half writes the event block and adds the signature exactly when the interface is implemented and the set holds no equal signature |
| PropertyWriters.RunInTurn | InterfaceGen/CodeWriters/PropertyWriter.cs:91-127 | the two halves run one after the other, the second only when the first succeeded |
| PropertyWriters.EventsWritten | InterfaceGen/CodeWriters/PropertyWriter.cs:91-127 | the PropertyChanged declaration is written iff that interface is implemented and no equal signature was in the set, then likewise PropertyChanging; each written event joins the set; on default interfaces it throws before writing |
| PropertyWriters.EventsWrittenOnce | InterfaceGen/CodeWriters/PropertyWriter.cs:91-127 | a second `WriteEvents` on the set and builder the first left adds and writes nothing |
| PropertyWriters.HelperAccess | InterfaceGen/CodeWriters/PropertyWriter.cs:167-171 | the helpers are `private` in a sealed implementation, else `protected` |
| PropertyWriters.HelperCallsShaped | InterfaceGen/CodeWriters/PropertyWriter.cs:176-211 | the helper blocks are OnPropertyChanging iff changing is implemented, then OnPropertyChanged iff changed is, then SetField, whose body calls exactly the helpers written |
| PropertyWriters.MethodCallsShaped | InterfaceGen/CodeWriters/PropertyWriter.cs:176-211 | the same shape for the source's own formats and hooks |
| PropertyWriters.MethodsWritten | InterfaceGen/CodeWriters/PropertyWriter.cs:165-212 | `OnPropertyChanging` first iff INotifyPropertyChanging is implemented, then `OnPropertyChanged` iff INotifyPropertyChanged is, and `SetField` always last, invoking exactly the helpers written; nothing else |
| PropertyWriters.MethodsOnDefault | InterfaceGen/CodeWriters/PropertyWriter.cs:173-174 | on default interfaces `WriteMethods` throws before writing anything |
| PropertyWriters.WriteProperties | InterfaceGen/CodeWriters/PropertyWriter.cs:23-45 | the section action on the builder: it ends as running the property emission from the old state |
| PropertyWriters.WriteConstructors | InterfaceGen/CodeWriters/PropertyWriter.cs:47-67 | the section action on the builder: it ends as running the constructor emission from the old state |
| PropertyWriters.AddEvent | InterfaceGen/CodeWriters/PropertyWriter.cs:93-126 | one half of `WriteEvents`: `Members.Add` decides whether the block is written |
| PropertyWriters.WriteEvents | InterfaceGen/CodeWriters/PropertyWriter.cs:91-127 | the section action: the builder ends and the member set becomes what the two halves in turn give |
| PropertyWriters.WriteMethods | InterfaceGen/CodeWriters/PropertyWriter.cs:165-212 | the section action on the builder: it ends as running the helper blocks `MethodsWritten` describes |
| PropertyWriters.HasGet | InterfaceGen/CodeWriters/PropertyWriter.cs:37 | definition of the model's reading of `HasGet`, which the source does not define: the getter text is not empty |
| PropertyWriters.HasInit | InterfaceGen/CodeWriters/PropertyWriter.cs:39 | definition of the model's reading of `HasInit`, which the source does not define: the setter text is " init;" |
| PropertyWriters.HasSet | InterfaceGen/CodeWriters/PropertyWriter.cs:41 | definition of the model's reading of `HasSet`, which the source does not define: the setter text is not empty |
| PropertyWriters.PropertiesEmission | InterfaceGen/CodeWriters/PropertyWriter.cs:23-45 | definition of the calls `WriteProperties` makes: `LineDelimit` over the property signatures (`PropertyWriters.PropertiesWrite`) |
| PropertyWriters.ConstructorsEmission | InterfaceGen/CodeWriters/PropertyWriter.cs:47-67 | definition of the calls `WriteConstructors` makes (`PropertyWriters.ConstructorsWrite`) |
| PropertyWriters.MethodsEmission | InterfaceGen/CodeWriters/PropertyWriter.cs:165-212 | definition of the calls `WriteMethods` makes (`PropertyWriters.MethodsWritten`) |
| ToStringWriters.DisplayFails | InterfaceGen/CodeWriters/ToStringImplWriter.cs:17-30 | `GetDisplayProperties` throws exactly when some property has default attributes, and then with a NullReferenceException |
| ToStringWriters.DisplayChosen | InterfaceGen/CodeWriters/ToStringImplWriter.cs:20-29 | when some property carries `[Display]` the result holds exactly those properties; when none does it is every property, in order |
| ToStringWriters.ToStringQueryMeaning | InterfaceGen/CodeWriters/ToStringImplWriter.cs:34-37 | the duplicate check finds exactly the public instance methods named `ToString` without parameters whose return type's simple name is literally `System.String` |
| ToStringWriters.SimpleStringNameIsMissed | InterfaceGen/CodeWriters/ToStringImplWriter.cs:36 | a signature read from a symbol returning `string` carries the simple name `String`, so the check as written never finds a declared `ToString()` |
| ToStringWriters.DisplayItems | InterfaceGen/CodeWriters/ToStringImplWriter.cs:61-62 | one delimited item per display property, in order |
| ToStringWriters.DisplayLines | InterfaceGen/CodeWriters/ToStringImplWriter.cs:62 | the i-th line is `Name = {{this.Name}},` for the i-th display property |
| ToStringWriters.DeclaredToStringIsKept | InterfaceGen/CodeWriters/ToStringImplWriter.cs:34-41 | when the check finds a `ToString()`, nothing is written and the builder is left as it was |
| ToStringWriters.ToStringWrites | InterfaceGen/CodeWriters/ToStringImplWriter.cs:32-68 | without a declared `ToString()`, a failing choice of display properties throws before anything is written; otherwise the header line, then the method block inside a bracket |
| ToStringWriters.EmptyDisplayReturnsName | InterfaceGen/CodeWriters/ToStringImplWriter.cs:49-52 | with nothing to display, the method block is the one line returning the implementation type's name as a string literal |
| ToStringWriters.DisplayItemIsFlat | InterfaceGen/CodeWriters/ToStringImplWriter.cs:62 | the four appends of one display property write exactly its line |
| ToStringWriters.DisplayJoin | InterfaceGen/CodeWriters/ToStringImplWriter.cs:61-62 | `Delimit(NewLine, …)` writes the display lines joined by line breaks |
| ToStringWriters.DisplayLinesWrite | InterfaceGen/CodeWriters/ToStringImplWriter.cs:59-62 | inside the name bracket: one display line per property, in order, separated by line breaks, and nothing else |
| ToStringWriters.BracketThen | InterfaceGen/CodeWriters/ToStringImplWriter.cs:59-64 | the calls after a bracket run only if the bracket completed |
| ToStringWriters.RawBlockWrites | InterfaceGen/CodeWriters/ToStringImplWriter.cs:55-65 | the raw string: `return $$"""`, then indented the type name on its own line, the bracketed display lines, a line break and the closing `""";` |
| ToStringWriters.WriteInstanceMethods | InterfaceGen/CodeWriters/ToStringImplWriter.cs:32-68 | the section action on the builder: the duplicate check on the members, then the writes `ToStringWrites` describes |
| ToStringWriters.DisplayProperties | InterfaceGen/CodeWriters/ToStringImplWriter.cs:17-30 | definition of `GetDisplayProperties`: the `[Display]` properties, or all properties when none carries it; `ToStringWriters.DisplayChosen` and `ToStringWriters.DisplayFails` state it |
| ToStringWriters.ToStringEmission | InterfaceGen/CodeWriters/ToStringImplWriter.cs:32-68 | definition of the calls `WriteInstanceMethods` makes: nothing for a declared `ToString()`, else the header and the bracketed method block (`ToStringWriters.ToStringWrites`) |
| FormattableWriters.FormattableQueryMeaning | InterfaceGen/CodeWriters/FormattableWriter.cs:17-20 | the duplicate check finds exactly the public instance `ToString` methods of two parameters whose return type's simple name is literally `System.String` |
| FormattableWriters.DeclaredFormattableIsKept | InterfaceGen/CodeWriters/FormattableWriter.cs:17-24 | when the check finds such a method, nothing is written and the builder is left as it was; when `pt.Length` throws on a default parameter array, the NullReferenceException comes before anything is written |
| FormattableWriters.HeaderIsFlat | InterfaceGen/CodeWriters/FormattableWriter.cs:31-33 | the header is `public ` and the signature in a sealed implementation, `public virtual ` and the signature otherwise |
| FormattableWriters.SectionWrites | InterfaceGen/CodeWriters/FormattableWriter.cs:26-55 | when the check completes without finding a method, a member with default attributes makes the `[Display]` filter throw a NullReferenceException before anything is written; otherwise the header, then the fixed block inside a bracket |
| FormattableWriters.BodyIndependentOfMembers | InterfaceGen/CodeWriters/FormattableWriter.cs:27-55 | the display members are computed but never used: two implementations whose check finds no method and that agree on `Sealed` are written the same |
| FormattableWriters.WriteSection | InterfaceGen/CodeWriters/FormattableWriter.cs:15-56 | the section action on the builder: the duplicate check on the members, then the writes `SectionWrites` describes |
| FormattableWriters.TakesTwo | InterfaceGen/CodeWriters/FormattableWriter.cs:20 | definition of `pt => pt.Length == 2` on an initialised array; the default array's throw is modelled by `FormattableWriters.FindFormattable` |
| FormattableWriters.FindFormattable | InterfaceGen/CodeWriters/FormattableWriter.cs:17-20 | the duplicate check throws only NullReferenceException; finding a method means some member matches; and on a set whose parameter arrays are all initialised it answers exactly whether some member matches |
| FormattableWriters.FindFormattableThrows | InterfaceGen/CodeWriters/FormattableWriter.cs:17-20 | the check throws exactly when, before any member matches, some member passes the tests before `pt.Length` with a default parameter array |
| FormattableWriters.SectionEmission | InterfaceGen/CodeWriters/FormattableWriter.cs:15-56 | definition of the calls `WriteSection` makes: the check's exception, nothing for a declared method, the `[Display]` filter's exception, or the header and the bracketed body |
| Sections.LaterRegistrationWins | InterfaceGen/CodeWriters/SectionWriter.cs:17-20 | the dictionary assignment: a registration overrides any earlier one for the same key and leaves every other key alone |
| Sections.RegistryOf | InterfaceGen/CodeWriters/PropertyWriter.cs:12-16 | each writer's sections are exactly the keys its constructor registers: the property writer here, and likewise EquatableWriter.cs:9-13, ComparableWriter.cs:7-11, ToStringImplWriter.cs:6-10 and FormattableWriter.cs:5-8; lookup is by the exact tuple, so the Method key finds no constructor section |
| Sections.OneRegistration | InterfaceGen/CodeWriters/SectionWriter.cs:19 | one registration gives the one-entry dictionary |
| Sections.TwoRegistrations | InterfaceGen/CodeWriters/SectionWriter.cs:19 | two registrations give the dictionary with the second written over the first |
| Sections.ActionStep | InterfaceGen/CodeWriters/SectionWriter.cs:28 | invoking a registered action; only the two actions that ask for a variable name advance the naming counter |
| Sections.SectionWriter.constructor | InterfaceGen/CodeWriters/SectionWriter.cs:5-20 | a writer starts from an empty dictionary and holds exactly its constructor's registrations |
| Sections.SectionWriter.AddSectionWrite | InterfaceGen/CodeWriters/SectionWriter.cs:17-20 | stores the action under the key, replacing any earlier one, and changes nothing else |
| Sections.SectionWriter.GetNeededUsings | InterfaceGen/CodeWriters/SectionWriter.cs:7-10 | none of these writers needs a `using` |
| Sections.SectionWriter.WriteImplementationSection | InterfaceGen/CodeWriters/SectionWriter.cs:24-32 | true exactly when an action is registered under the key, after running it; otherwise false with nothing written and the counter unchanged |
| Sections.RunAction | InterfaceGen/CodeWriters/SectionWriter.cs:28 | the builder ends as running the action's emission, and the naming counter is the one the action leaves |
| Sections.FirstWriterIsFirst | InterfaceGen/CodeWriters/InterfaceImplementationWriters.cs:17-25 | the search finds a writer that can implement the interface with no earlier one able to; it finds none exactly when no writer can |
| Sections.GetWriter | InterfaceGen/CodeWriters/InterfaceImplementationWriters.cs:17-25 | the `foreach` returns the first writer of the list that can implement the interface, or null |
| Sections.WriterChoice | InterfaceGen/CodeWriters/InterfaceImplementationWriters.cs:9-25 | the Formattable writer for the IFormattable FQN; else the IEquatable<…> or the IComparable<…> writer, which never both apply; else none |
| InterfaceGenerator.ImplementationName | InterfaceGen/InterfaceImplGenerator.cs:85-90 | the `Name` argument unless it is missing or blank, else the interface's name without its first character; slicing an empty name throws ArgumentOutOfRangeException |
| InterfaceGenerator.ObjTypeOf | InterfaceGen/InterfaceImplGenerator.cs:105-108 | `Struct` exactly when `IsClass` is given as false; `Class` when it is true or absent |
| InterfaceGenerator.KeywordsOf | InterfaceGen/InterfaceImplGenerator.cs:109-141 | from the default `Sealed`: `Partial` and `Abstract` exactly when asked for, `Sealed` unless `IsSealed` is false, and no other flag |
| InterfaceGenerator.Configure | InterfaceGen/InterfaceImplGenerator.cs:85-141 | the implementation name, or its exception; then a new generate info whose object type and keywords the boolean arguments set |
| InterfaceGenerator.AddMembersMeaning | InterfaceGen/InterfaceImplGenerator.cs:147-153 | every kept signature is `FromSymbol` of a member, in order, and a member that is neither a property nor a method makes the interface fail |
| InterfaceGenerator.AddMembersTo | InterfaceGen/InterfaceImplGenerator.cs:147-153 | the loop adds `FromSymbol(member)` for each member to the set, stopping at the first exception |
| InterfaceGenerator.BuildInfo | InterfaceGen/InterfaceImplGenerator.cs:83-153 | the settings, the interfaces and the members of one declaration, in a new generate info |
| InterfaceGenerator.ResolveWritersMeaning | InterfaceGen/InterfaceImplGenerator.cs:180-186 | resolution fails exactly when some interface has no writer, and otherwise gives each interface its own first writer, in order |
| InterfaceGenerator.ResolveWriterList | InterfaceGen/InterfaceImplGenerator.cs:171-190 | `GetWriter` for each interface, throwing InvalidOperationException at the first one no writer can handle |
| InterfaceGenerator.WriterListShape | InterfaceGen/InterfaceImplGenerator.cs:171-190 | the list always starts with the property writer and ends with the `ToString` writer, with one writer per interface between them |
| InterfaceGenerator.NewWriters | InterfaceGen/InterfaceImplGenerator.cs:171-190 | one fresh writer object per kind, each holding its kind's registrations |
| InterfaceGenerator.InterfaceListCalls | InterfaceGen/InterfaceImplGenerator.cs:209-215 | the other interfaces: `AppendLine(',')`, then each interface with `AppendLine(',')` between them; nothing when there are none |
| InterfaceGenerator.WriterTurnsStep | InterfaceGen/InterfaceImplGenerator.cs:222-228 | one more writer of the innermost loop |
| InterfaceGenerator.WriteTurn | InterfaceGen/InterfaceImplGenerator.cs:224-227 | one writer's `WriteImplementationSection`, then `NewLines(2)` if it wrote |
| InterfaceGenerator.WriteSection | InterfaceGen/InterfaceImplGenerator.cs:222-228 | every writer's `WriteImplementationSection` at one key, in list order, and `NewLines(2)` after each one that wrote |
| InterfaceGenerator.WriteVisibilities | InterfaceGen/InterfaceImplGenerator.cs:221 | the keys in the order Private, Protected, Internal, Public |
| InterfaceGenerator.WriteMemberTypes | InterfaceGen/InterfaceImplGenerator.cs:220 | the member types in the order Operator, Field, Property, Event, Constructor, Method |
| InterfaceGenerator.WriteInstics | InterfaceGen/InterfaceImplGenerator.cs:219 | Static, then Instance |
| InterfaceGenerator.WriteTypeBlock | InterfaceGen/InterfaceImplGenerator.cs:217-229 | the bracket opens, the walk runs one indent deeper, the bracket closes |
| InterfaceGenerator.WriteFile | InterfaceGen/InterfaceImplGenerator.cs:192-233 | a new builder, the declaration, the type block, `TrimEnd()` and `ToString()` |
| InterfaceGenerator.ProcessType | InterfaceGen/InterfaceImplGenerator.cs:168-239 | the writers, then the file named `{FQN}.g.cs` with the builder's text; an unhandled interface throws before anything is written |
| InterfaceGenerator.GeneratedFileShape | InterfaceGen/InterfaceImplGenerator.cs:217-232 | a generated file is named after the interface's FQN and ends with the closing brace of the type: the final `TrimEnd` never reaches into the block |
| InterfaceGenerator.FileNameEnds | InterfaceGen/InterfaceImplGenerator.cs:232 | the hint name ends with `.g.cs` |
| InterfaceGenerator.Process | InterfaceGen/InterfaceImplGenerator.cs:71-163 | one declaration: skipped without a symbol or an `[Implement]` attribute; otherwise its info and its file |
| InterfaceGenerator.EmittedStep | InterfaceGen/InterfaceImplGenerator.cs:68-164 | one more declaration of the loop |
| InterfaceGenerator.EmittedStops | InterfaceGen/InterfaceImplGenerator.cs:68-164 | after an exception the loop is over: later declarations change nothing |
| InterfaceGenerator.Execute | InterfaceGen/InterfaceImplGenerator.cs:32-166 | nothing at all for no declarations; else InvalidOperationException when the attribute's symbol cannot be loaded; otherwise every declaration in turn, each file handed over as it is made |
| InterfaceGenerator.EmittedFilesShape | InterfaceGen/InterfaceImplGenerator.cs:68-164 | every file handed over is well shaped, and there is at most one per declaration |
| InterfaceGenerator.ProcessedFileShape | InterfaceGen/InterfaceImplGenerator.cs:156-163 | the file one declaration gives, if any, is well shaped |
| InterfaceGenerator.BoolArg | InterfaceGen/InterfaceImplGenerator.cs:105 | definition of `args.TryGetValue<bool>(name, out var b)`: the boolean when the argument is present and is one |
| InterfaceGenerator.Settings | InterfaceGen/InterfaceImplGenerator.cs:97-141 | definition of the generate info the settings produce: Public, the object type and keywords of the arguments, no interfaces or members yet (`InterfaceGenerator.ObjTypeOf`, `InterfaceGenerator.KeywordsOf`) |
| InterfaceGenerator.ResolveWriters | InterfaceGen/InterfaceImplGenerator.cs:180-186 | definition of the writers `GetWriter` resolves for the interfaces, in order; `InterfaceGenerator.ResolveWritersMeaning` states it |
| InterfaceGenerator.WriterList | InterfaceGen/InterfaceImplGenerator.cs:171-190 | definition of `implWriters`: the property writer, the resolved writers, the `ToString` writer (`InterfaceGenerator.WriterListShape`) |
| InterfaceGenerator.TypeBlock | InterfaceGen/InterfaceImplGenerator.cs:217-229 | definition of the type block: `BracketBlock` around the walk over staticness, member kind, visibility and writer (`InterfaceGenerator.WriteTypeBlock`) |
| InterfaceGenerator.DeclarationCalls | InterfaceGen/InterfaceImplGenerator.cs:192-216 | definition of the calls before the type block: header, `#nullable enable`, namespace, keywords, object type, name and interface list |
| InterfaceGenerator.ProcessTypeSpec | InterfaceGen/InterfaceImplGenerator.cs:168-239 | definition of `ProcessType`: the writer list, the builder's declaration and type block, `TrimEnd()` and the hint name; `InterfaceGenerator.GeneratedFileShape` states its shape |
| InterfaceGenerator.Emitted | InterfaceGen/InterfaceImplGenerator.cs:68-164 | definition of the declaration loop of `Execute`, stopping at the first exception; `InterfaceGenerator.EmittedFilesShape` states its files' shape |
| EnumGenerator.HasToString | EnumGen/EnumImplGenerator.cs:121-125 | true exactly when some member is a method named `ToString` without parameters |
| EnumGenerator.EnumMembersAreOwnStaticFields | EnumGen/EnumImplGenerator.cs:128-138 | every enum member name is the name of a public static field of the struct's own type, and each such field gives one |
| EnumGenerator.InstanceFieldsAreOtherFields | EnumGen/EnumImplGenerator.cs:141-145 | every instance field is a public non-static field of another type, and each such field gives one |
| EnumGenerator.ClassesAreDisjoint | EnumGen/EnumImplGenerator.cs:134-145 | no field is both an enum member and an instance field, so together they are no more than the public fields |
| EnumGenerator.ClassifyMeaning | EnumGen/EnumImplGenerator.cs:108-165 | nothing for anything but a readonly struct; otherwise the attribute lookup decides, and a struct to generate has the declared type, the `Flags` argument, the members and fields in order, the `ToString` check and no `SkipZero` |
| EnumGenerator.FlagsArgMeaning | EnumGen/EnumImplGenerator.cs:151-152 | a `Flags` argument of `true` turns flags on; a missing one, or one that is not a bool, leaves it off |
| EnumGenerator.MemberLines | EnumGen/EnumImplGenerator.cs:284-292 | one raw-string line per member, the `k`th one for slot `k + Offset` |
| EnumGenerator.CodeLineTo | EnumGen/EnumImplGenerator.cs:269-270 | `CodeLine(text)` writes the text and a line break, whatever the indent |
| EnumGenerator.WriteArrays | EnumGen/EnumImplGenerator.cs:268-283 | the two `new` lines of `MembersLength` slots and, when zero is skipped, its slot; the first free slot, 1 or 0, is returned |
| EnumGenerator.WriteMemberSlots | EnumGen/EnumImplGenerator.cs:284-292 | the `foreach` over the members writes each member's line, `m` counting the slots |
| EnumGenerator.SlotWritten | EnumGen/EnumImplGenerator.cs:286-291 | one more member line after the lines before it |
| EnumGenerator.WriteStaticConstructorBody | EnumGen/EnumImplGenerator.cs:266-293 | the body of the static constructor: the arrays, the zero slot when it is skipped, then every member at its slot |
| EnumGenerator.MemberNames | EnumGen/EnumImplGenerator.cs:269-292 | `__memberNames` after the static constructor has `MembersLength` entries |
| EnumGenerator.MemberSlot | EnumGen/EnumImplGenerator.cs:284-292 | the `k`th member goes to slot `k + Offset`, below `MembersLength`, and that slot of the name array holds its name |
| EnumGenerator.SlotsFillTheArrays | EnumGen/EnumImplGenerator.cs:269-292 | every slot from `Offset` on holds a member and a reserved zero holds `string.Empty`: the members and the reserved slot fill the arrays exactly |
| EnumGenerator.NamesAreFoundForDefinedValues | EnumGen/EnumImplGenerator.cs:318-353 | the `(uint)` comparison is the two-sided range check, so a negative value is never defined; `TryGetName` finds a name exactly for the defined values, and every member's slot gives back its name |
| EnumGenerator.ShiftLeftUInt32 | EnumGen/EnumImplGenerator.cs:310 | C# `uint << int`: the count masked to its low five bits and the product cut to 32 bits, so the result is a `uint` |
| EnumGenerator.AllFlags | EnumGen/EnumImplGenerator.cs:337-343 | the intended flags bound, every member bit set, is a `uint` |
| EnumGenerator.AsWrittenFlagsBoundBelow32 | EnumGen/EnumImplGenerator.cs:344-346 | below 32 members the bound as written is the intended one |
| EnumGenerator.AsWrittenFlagsBoundWrapsAt32 | EnumGen/EnumImplGenerator.cs:344-346 | at 32 members the bound as written is 0, so only `None` passes; the intended bound 4294967295 admits the value 1 |
| EnumGenerator.AllFlagsCoverMembers | EnumGen/EnumImplGenerator.cs:337-343 | the intended bound holds every member bit `1 << k` and, below 32 members, stops just short of the next free bit; from 32 members on, every `uint` passes |
| EnumGenerator.ParameterTexts | EnumGen/EnumImplGenerator.cs:547 | the i-th parameter is the i-th field's type, a space and its variable name |
| EnumGenerator.AssignmentLines | EnumGen/EnumImplGenerator.cs:554 | the i-th line is `this.Name = varName;` for the i-th field |
| EnumGenerator.CodeActions | EnumGen/EnumImplGenerator.cs:545-548 | one `Code` action per parameter text |
| EnumGenerator.CodeLineActions | EnumGen/EnumImplGenerator.cs:552-555 | one `CodeLine` action per assignment line |
| EnumGenerator.CodeActionsStep | EnumGen/EnumImplGenerator.cs:545-548 | the first action writes its text; the others are the actions of the other texts |
| EnumGenerator.DelimitedCodeIsJoined | EnumGen/EnumImplGenerator.cs:545-548 | `Delimit(", ", …)` over the `Code` actions writes the texts joined by ", " |
| EnumGenerator.CodeLineActionsStep | EnumGen/EnumImplGenerator.cs:552-555 | the first action writes its line and a line break; the others are the actions of the other lines |
| EnumGenerator.CodeLinesAreEnumerated | EnumGen/EnumImplGenerator.cs:552-555 | `Enumerate` over the `CodeLine` actions writes every line followed by a line break |
| EnumGenerator.ConstructorBodyText | EnumGen/EnumImplGenerator.cs:550-558 | inside the bracket: one assignment line per instance field, in order, then the `Interlocked.Increment` line; none of it throws |
| EnumGenerator.PublicConstructorText | EnumGen/EnumImplGenerator.cs:531-540 | with no instance fields: the public parameterless constructor raw string and a line break |
| EnumGenerator.ParametersText | EnumGen/EnumImplGenerator.cs:545-548 | the parameter list: the texts joined by ", " |
| EnumGenerator.PrivateConstructorText | EnumGen/EnumImplGenerator.cs:541-559 | with instance fields: `private T(`, the parameters joined by ", ", `)` and a line break, then the bracketed body |
| EnumGenerator.BracketCall | EnumGen/EnumImplGenerator.cs:550 | `BracketBlock(body)` with the default indent |
| EnumGenerator.WriteConstructors | EnumGen/EnumImplGenerator.cs:527-560 | the builder ends as the constructor calls run from its old state |
| EnumGenerator.HintName | EnumGen/EnumImplGenerator.cs:715 | the struct's FQN followed by `.g.cs` |
| EnumGenerator.Classify | EnumGen/EnumImplGenerator.cs:108-165 | definition of `ProcessType`'s choice: nothing unless the declaration is a `readonly struct`, then the `[Enum]` arguments decide; `EnumGenerator.ClassifyMeaning` states it |
| EnumGenerator.Slot | EnumGen/EnumImplGenerator.cs:284-292 | definition of the slot `m` the `k`th member is written to: `k` plus one when zero is skipped (`EnumGenerator.MemberSlot`) |
| EnumGenerator.TryGetName | EnumGen/EnumImplGenerator.cs:318-329 | definition of the generated non-flags `TryGetName`: the name at slot `value` when `(uint)value < MembersLength` (`EnumGenerator.NamesAreFoundForDefinedValues`) |
| EnumGenerator.IsDefined | EnumGen/EnumImplGenerator.cs:349-352 | definition of the generated non-flags `IsDefined`: `(uint)value < MembersLength` (`EnumGenerator.NamesAreFoundForDefinedValues`) |
| EnumGenerator.AsWrittenFlagsBound | EnumGen/EnumImplGenerator.cs:344-346 | definition of the flags bound as the source prints it, `{1U << count}U - 1U`, with the shift count masked to five bits (the as-written half of the Findings row) |
| EnumGenerator.ShiftOfOne | EnumGen/EnumImplGenerator.cs:344-346 | the printed `1U << count` is `2^(count % 32)`, never 0, so the as-written bound is that literal less one |
| EnumGenerator.FlagsIsDefined | EnumGen/EnumImplGenerator.cs:344-346 | definition of what the generated flags `IsDefined` checks: `(uint)value` at most the as-written bound |
| EnumGenerator.IsDefinedBody | EnumGen/EnumImplGenerator.cs:332-353 | definition of the text of the generated `IsDefined` body, as written: `<= ({1U << n}U - 1U)` for flags, with the shift printed as its value, and `< {membersLength}U` otherwise |
| EnumGenerator.IsDefinedBodyText | EnumGen/EnumImplGenerator.cs:344-346 | for flags the written literal is the as-written bound plus one and `- 1U` does not wrap, so the text checks `FlagsIsDefined`; below 32 members that is the intended check, and at 32 members the text reads `(1U - 1U)` and only 0 passes |
| NotifyPropertyExample.Invocation | InterfaceGen/Examples/NotifyProperty.cs:38 | `event?.Invoke(this, args)` notifies every subscribed handler once, in subscription order, with the event, the property name and the value of `_id` at that moment; nothing for a null event |
| NotifyPropertyExample.EqualValueIsIgnored | InterfaceGen/Examples/NotifyProperty.cs:22-32 | an unforced set to the value already held returns false, keeps the field and raises nothing |
| NotifyPropertyExample.ChangeIsAnnounced | InterfaceGen/Examples/NotifyProperty.cs:22-32 | otherwise the field takes the new value and true is returned; every changing handler hears first, with the old value still in place, then every changed handler, seeing the new value; only the notices grow |
| NotifyPropertyExample.ForceNotifiesAlways | InterfaceGen/Examples/NotifyProperty.cs:24 | a forced set assigns and notifies even when the value is the one already held |
| NotifyPropertyExample.NullNameRaisesNothing | InterfaceGen/Examples/NotifyProperty.cs:34-48 | a null property name raises nothing, whatever is subscribed; the value is still assigned |
| NotifyPropertyExample.SecondSetIsIgnored | InterfaceGen/Examples/NotifyProperty.cs:22-32 | setting the same value twice: the second set returns false and changes nothing |
| NotifyPropertyExample.DisposedIsSilent | InterfaceGen/Examples/NotifyProperty.cs:50-54 | after `Dispose` a change is still made, but nobody hears of it |
| NotifyPropertyExample.NotifyProperty.constructor | InterfaceGen/Examples/NotifyProperty.cs:9-20 | a new object has `_id` 0, no subscribers and no notices |
| NotifyPropertyExample.NotifyProperty.SetId | InterfaceGen/Examples/NotifyProperty.cs:13-17 | the `Id` setter is `SetField` on `_id`, unforced, with the member name "Id" |
| NotifyPropertyExample.NotifyProperty.SetIdField | InterfaceGen/Examples/NotifyProperty.cs:22-32 | the object's new state and the result are those of `SetField` on the old state |
| NotifyPropertyExample.NotifyProperty.OnPropertyChanging | InterfaceGen/Examples/NotifyProperty.cs:34-40 | the changing handlers are notified unless the name is null; nothing else changes |
| NotifyPropertyExample.NotifyProperty.OnPropertyChanged | InterfaceGen/Examples/NotifyProperty.cs:42-48 | the changed handlers are notified unless the name is null; nothing else changes |
| NotifyPropertyExample.NotifyProperty.AddPropertyChanging | InterfaceGen/Examples/NotifyProperty.cs:19 | `PropertyChanging += handler` appends the handler to the invocation list and changes nothing else |
| NotifyPropertyExample.NotifyProperty.AddPropertyChanged | InterfaceGen/Examples/NotifyProperty.cs:20 | `PropertyChanged += handler` appends the handler to the invocation list and changes nothing else |
| NotifyPropertyExample.NotifyProperty.Dispose | InterfaceGen/Examples/NotifyProperty.cs:50-54 | both events become null; the value and the notices already given stay |

## Left out

- Host-compiler plumbing is not modelled: the `Initialize` pipelines, syntax providers, semantic models, `GetDeclaredSymbol`, `GetAttributes`, `AllInterfaces` and `GetMembers`. Their results are plain records (`InterfaceGenerator.Declaration`, `EnumGenerator.TypeDeclaration`).
- The grouping of declarations by syntax tree is not modelled. Declarations are handled in the order given, which is the order within each group.
- The enumerator functions are not modelled as lazy: `yield return` in `ProcessType` becomes one optional result.
- `AddSource` is not modelled: the files handed to it are returned as a list.
- The enum generator's own `Process` loop (EnumImplGenerator.cs:32-106) is the same host plumbing as the interface generator's, and is not modelled.
- The enum generator's `WriteHeader`, `WriteStructDeclaration`, `WriteOperators`, `WriteMembersBacking` and the large fixed raw strings of `GetSourceCode` are not modelled. They are constant text around `{T}` and the variable name.
- EnumGenerator.WriteStaticConstructorBody: the static constructor is wrapped in `BracketBlock` in the source; the model shows only its body.
- A multi-line raw string literal breaks its lines with the line ending of the source file. The model takes that to be "\r\n" (`Generate.SourceNewLine`).
- The body of the flags `TryGetName` is not modelled beyond its bound, since it only throws NotImplementedException. The `Incrementer` index of `WriteMembersBacking` is not modelled either; it ignores `SkipZero`.
- `ArrayPool` rent, return and clearing are not modelled, and neither is the `cpblk` copy.
- CodingBuilder.CodeBuilder.GrowCore: `Rent(n)` is modelled as a fresh array of exactly `n` chars, where the pool promises only at least `n`. The model is one array per builder and never returns it.
- CodingBuilder.CodeBuilder.GrowBy: the `int` growth formulas `(n + Capacity) * 2` and `Capacity * 2` are unbounded integers, so 32-bit overflow of the capacity is not modelled.
- TextBuilder.CodeBuilder.GrowBy: as for the other builder, the growth formulas are not cut to 32 bits, and `Rent` gives exactly the size requested.
- The `Dispose` state after release is not modelled, and neither are `ToStringAndDispose` and `IDisposable`.
- Concurrency is not modelled: the `Interlocked` counter of `GetVariableName` is a plain counter, and pool thread-safety is left out.
- The `Value` case for a `Delegate` (CodeBuilder.cs:509-525) is not modelled, because it relies on reflection.
- The `Hasher`'s `GetHashCode`/`Equals` overrides (which throw) are not modelled, nor are `MemberSig.FromMemberInfo` and `Equals(MemberInfo)` (which throw NotImplementedException).
- Hashing.Hasher.constructor: the seed drawn from `RNGCryptoServiceProvider` is a parameter (`Hashing.Mixer`), not a random value.
- Signatures.GetHashCode: `string.GetHashCode` is a parameter of `Signatures.HashEnv`, as is the hasher's seed.
- Signatures.WriteDeclaration: `Visibility.DeclareTo` and `Instic.DeclareTo` are not part of this model; they are the `Signatures.Declarers` parameter.
- Signatures.MemberEquals: like the source, it does not compare which record a signature is (a plain `MemberSig`, a `PropertySig` or a `MethodSig`); only the common fields count.
- Comparison.EnumerableEqualityComparer.ArrayEquals: only the array and `ImmutableArray` overloads are modelled. The `IEnumerable<T>` overloads of `EnumerableEqualityComparer` throw NotImplementedException and are left out.
- Generate.GenerateInfo.Add: `Members` is a `HashSet<MemberSig>`, modelled as a sequence in insertion order with add-if-absent under `MemberSig.Equals`. The set's own enumeration order is not modelled; each writer sees the members in insertion order.
- CharClass.IsWhiteSpace: this is the ASCII whitespace set (space, and tab through carriage return). Unicode `char.IsWhiteSpace` is not modelled.
- CharClass.ToUpper: `char.ToUpper`/`char.ToLower` are ASCII-only, and no culture is modelled.
- Strings.EqualsIgnoreCase: this is ASCII case folding; `StringComparison.OrdinalIgnoreCase` on non-ASCII text is not modelled.
- KeywordsExtractor.TryParse: `Enum.TryParse` also accepts numeric tokens ("1" reads as a value) and comma lists. The model reads only member names, matched without regard to case, so these tokens are rejected.
- `SyntaxFacts` keyword and identifier checks are the `Naming.CSharpSyntax` parameter.
- `IFormattable.ToString(format, provider)` and `IFormatProvider` are not modelled: they are function values of `Value`, and the provider is not modelled.
- FormatException messages are not modelled: only the error position and the reason are kept.
- `Debugger.Break`, `Debugger.Launch`, `Debug.WriteLine` and `Debug.Assert` are not modelled.
- The unregistered or broken fragments are not modelled: `NotifyPropertyWriter.WriteProperties` (an unbalanced parenthesis) and `NotifyPropertyWriter.WriteFields` (never registered; uses a `FieldName()` that is not part of this model). The shared static writer instances are modelled as one writer object per kind.
- InterfaceGenerator.ObjTypeOf: `ObjType` only ever becomes `Class` or `Struct` here, and the other `ObjType` flags are not modelled.
- PropertyWriters.WriteProperties: `PropertySig` (InterfaceGen/Signatures/PropertySig.cs) defines only `GetStr` and `SetStr`, yet PropertyWriter.cs:37-41 and 152-158 use `HasGet`, `HasInit` and `HasSet`, which no file of the source defines. The model reads them off the accessor texts: `HasGet` when `GetStr` is not empty, `HasInit` when `SetStr` is " init;", and `HasSet` when `SetStr` is not empty.
- The settable static properties `DefaultNewLine` and `DefaultIndent` (Core/Coding/CodeBuilder.cs:21 and 30, and `DefaultNewLine` at Core/Text/CodeBuilder.cs:15) are fixed at their initial values "\r\n" and four spaces. Nothing in the core assigns them.
- FormattableWriters.SectionWrites: the fixed method body is proved at the level of the calls made, and the interpolated holes of the raw strings are taken as plain text.
- TextSplit.TrailingEmptySlice: this is stated only for separators that cannot overlap themselves (`BorderFree`, e.g. "\r\n"). With an overlapping separator such as "aa" on "aaa", the source yields no trailing empty slice.
- The coding builder's `AutoGeneratedHeader` with a comment, `Nullable(false)`, `Using(params)`, `EnumerateAppend`, `DelimitAppend`, `LineDelimitAppend`, `GetHashCode` (which throws NotSupportedException) and `Equals` with a `StringComparison` are not modelled. They are thin wrappers or throwing stubs.
- The text builder's `Directive`, `AutoGeneratedHeader`, `Nullable`, `Using` and `Namespace` are not modelled. They are the coding builder's, again.
- CodingBuilder.CodeBuilder.TryRemoveRange: the `Range` indexer and `TryRemove(Range)` are modelled only for ranges counted from the start. `GetOffsetAndLength` throws for a range it rejects, so this overload never returns false.
- NotifyPropertyExample.NotifyProperty.SetIdField: `SetField<T>` is generic over the field; only `_id`, the one field it is used on, is modelled. `EqualityComparer<int>.Default` is integer equality.
- NotifyPropertyExample.Invocation: the handlers are foreign code, so invoking one is recorded as a notice. A handler that unsubscribes, throws or re-enters is not modelled.

## Findings

| source | as written | input that shows it | evidently intended | confidence | as-written member | corrected member |
|---|---|---|---|---|---|---|
| Core/Coding/CodeBuilder.cs:598, 612 | `TryRemove(start, length)` checks `(uint)start + (uint)length > _position`, and the unsigned sum wraps | `TryRemove(-1, 1)`: the check passes and the copy throws; `TryRemove(5, -5)`: the sum wraps to 0, so on any text it returns true having removed nothing | reject a negative start or length: return false whenever `start < 0`, `length < 0` or `start + length > Length` | not executed | CodingBuilder.RemoveAsWritten, CodingBuilder.RemoveAsWrittenCounterexamples | CodingBuilder.RemoveSpec, CodingBuilder.CodeBuilder.TryRemoveSlice |
| EnumGen/EnumImplGenerator.cs:310, 345 | the flags bound is printed as `{1U << enumMembers.Count}U - 1U`; C# masks the shift count to 5 bits | a flags enum with 32 members: `1U << 32` is `1U`, so the bound is 0 and only `None` is defined | every member bit set: `4294967295` once there are 32 members | not executed | EnumGenerator.AsWrittenFlagsBound, EnumGenerator.AsWrittenFlagsBoundWrapsAt32, EnumGenerator.IsDefinedBodyText | EnumGenerator.AllFlags, EnumGenerator.AllFlagsCoverMembers |
