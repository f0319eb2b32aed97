/** Core/Text/TextSplitEnumerator.cs: a cursor over `input` that yields the slices between
  * occurrences of `separator`, honouring the RemoveEmptyLines and TrimLines options. */
module TextSplit {
  import opened Strings
  import CharClass

  /** TextSplitOptions: RemoveEmptyLines = 1 << 0, TrimLines = 1 << 1. */
  datatype SplitOptions = SplitOptions(removeEmptyLines: bool, trimLines: bool)

  const NoOptions := SplitOptions(false, false)

  /** The result of one call of MoveNext: a slice `input[start..end]` and the cursor afterwards, or no slice. */
  datatype Move = Yield(next: nat, start: nat, end: nat) | Stop(next: nat)

  /** Neither end of the slice `input[start..end]` is whitespace (an empty slice trivially). */
  predicate TrimmedEnds(input: string, start: nat, end: nat)
  {
    start < end <= |input| ==> !CharClass.IsWhiteSpace(input[start]) && !CharClass.IsWhiteSpace(input[end - 1])
  }

  /** The two trim loops of MoveNext over `input[start..end]`. */
  function TrimRange(input: string, start: nat, end: nat): (r: (nat, nat))
    requires start <= end <= |input|
    ensures start <= r.0 <= r.1 <= end
    ensures forall i :: start <= i < r.0 ==> CharClass.IsWhiteSpace(input[i])
    ensures forall i :: r.1 <= i < end ==> CharClass.IsWhiteSpace(input[i])
    ensures TrimmedEnds(input, r.0, r.1)
  {
    var lead := LeadingCount(input[start..end], CharClass.IsWhiteSpace);
    var s := start + lead;
    assert forall i :: start <= i < s ==> input[i] == input[start..end][i - start];
    var trail := TrailingCount(input[s..end], CharClass.IsWhiteSpace);
    var e := end - trail;
    assert forall i :: e <= i < end ==> input[i] == input[s..end][i - s];
    assert s < e ==> input[s] == input[start..end][lead];
    assert s < e ==> input[e - 1] == input[s..end][|input[s..end]| - trail - 1];
    (s, e)
  }

  /** Where the scanned slice ends and where the next scan starts, for a scan from `position < |input|`. */
  function ScanEnd(input: string, separator: string, position: nat): (r: (nat, nat))
    requires position < |input|
    ensures position <= r.0 <= |input| && r.0 < r.1 && r.1 <= |input| + 1
    ensures r.1 == |input| + 1 <==> (|separator| == 0 || IndexOfFrom(input, separator, position) == -1)
    ensures r.1 <= |input| ==> OccursAt(input, separator, r.0) && r.1 == r.0 + |separator|
  {
    var separatorIndex := IndexOfFrom(input, separator, position);
    if separatorIndex == -1 || |separator| == 0 then (|input|, |input| + 1)
    else (separatorIndex, separatorIndex + |separator|)
  }

  /** One scan step of MoveNext from a cursor before the end: the candidate slice (trimmed under
    * TrimLines) and the cursor after it. */
  function Scan(input: string, separator: string, options: SplitOptions, position: nat): (m: Move)
    requires position < |input|
    ensures m.Yield? && m.next > position && position <= m.start <= m.end <= |input|
    ensures options.trimLines ==> TrimmedEnds(input, m.start, m.end)
  {
    var ends := ScanEnd(input, separator, position);
    if options.trimLines then
      var r := TrimRange(input, position, ends.0);
      Yield(ends.1, r.0, r.1)
    else Yield(ends.1, position, ends.0)
  }

  /** One call of MoveNext from cursor `position`: the body of its `while (true)` loop, iterated while a
    * slice is skipped because it is empty and RemoveEmptyLines is set. */
  function NextMove(input: string, separator: string, options: SplitOptions, position: nat): (m: Move)
    decreases |input| + 1 - position
    ensures position <= |input| ==> m.next > position
    ensures m.Stop? ==> m.next > |input|
    ensures m.Yield? ==> m.start <= m.end <= |input|
    ensures m.Yield? && options.removeEmptyLines ==> m.start < m.end
    ensures m.Yield? && options.trimLines ==> TrimmedEnds(input, m.start, m.end)
  {
    if position > |input| then Stop(position)
    else if position == |input| then
      if !options.removeEmptyLines then Yield(position + 1, position, position) else Stop(position + 1)
    else
      var c := Scan(input, separator, options, position);
      if c.end - c.start > 0 || !options.removeEmptyLines then c
      else NextMove(input, separator, options, c.next)
  }

  /** All ranges yielded by successive calls of MoveNext from cursor `position`. */
  function Ranges(input: string, separator: string, options: SplitOptions, position: nat): (rs: seq<(nat, nat)>)
    decreases |input| + 1 - position
    ensures forall k :: 0 <= k < |rs| ==> rs[k].0 <= rs[k].1 <= |input|
  {
    match NextMove(input, separator, options, position)
    case Stop(_) => []
    case Yield(next, s, e) => [(s, e)] + Ranges(input, separator, options, next)
  }

  function Texts(input: string, rs: seq<(nat, nat)>): (ts: seq<string>)
    requires forall k :: 0 <= k < |rs| ==> rs[k].0 <= rs[k].1 <= |input|
    ensures |ts| == |rs|
    ensures forall k :: 0 <= k < |rs| ==> ts[k] == input[rs[k].0..rs[k].1]
  {
    if |rs| == 0 then [] else [input[rs[0].0..rs[0].1]] + Texts(input, rs[1..])
  }

  /** The slices a fresh enumerator yields: `input.TextSplit(separator, options)`. */
  function Split(input: string, separator: string, options: SplitOptions): seq<string>
  {
    Texts(input, Ranges(input, separator, options, 0))
  }

  /** The slices an enumerator yields from cursor `position` on. */
  function SplitFrom(input: string, separator: string, options: SplitOptions, position: nat): seq<string>
  {
    Texts(input, Ranges(input, separator, options, position))
  }

  /** One call of MoveNext takes the first of the remaining slices, or finds none remain. */
  lemma MoveTakesFirstSlice(input: string, separator: string, options: SplitOptions, position: nat)
    ensures match NextMove(input, separator, options, position)
      case Yield(next, s, e) =>
        SplitFrom(input, separator, options, position) == [input[s..e]] + SplitFrom(input, separator, options, next)
      case Stop(_) => SplitFrom(input, separator, options, position) == []
  {
  }

  // ---------------------------------------------------------------- properties

  /** Without RemoveEmptyLines every cursor at or before the end yields at least one more slice. */
  lemma {:induction false} RangesNonEmpty(input: string, separator: string, options: SplitOptions, position: nat)
    requires !options.removeEmptyLines && position <= |input|
    ensures |Ranges(input, separator, options, position)| >= 1
  {
  }

  lemma {:induction false} JoinRanges(input: string, separator: string, position: nat)
    requires position <= |input|
    decreases |input| - position
    ensures Join(Texts(input, Ranges(input, separator, NoOptions, position)), separator) == input[position..]
  {
    var rs := Ranges(input, separator, NoOptions, position);
    if position < |input| {
      var (sliceEnd, next) := ScanEnd(input, separator, position);
      if next <= |input| {
        JoinRanges(input, separator, next);
        RangesNonEmpty(input, separator, NoOptions, next);
        var rest := Ranges(input, separator, NoOptions, next);
        assert NextMove(input, separator, NoOptions, position) == Yield(next, position, sliceEnd);
        assert rs == [(position, sliceEnd)] + rest;
        var ts := Texts(input, rs);
        assert |ts| > 1 && ts[0] == input[position..sliceEnd] && ts[1..] == Texts(input, rest);
        assert Join(ts, separator) == ts[0] + separator + Join(ts[1..], separator);
        SeparatedSlices(input, separator, position, sliceEnd, next);
      }
    }
  }

  /** A slice, the separator occurrence after it and the rest make up the input from the slice on. */
  lemma SeparatedSlices(input: string, separator: string, position: nat, sliceEnd: nat, next: nat)
    requires position <= sliceEnd && OccursAt(input, separator, sliceEnd) && next == sliceEnd + |separator|
    ensures input[position..sliceEnd] + separator + input[next..] == input[position..]
  {
    AdjacentSlices(input, position, sliceEnd, next);
  }

  /** With no options, joining the yielded slices with the separator gives back the input. */
  lemma SplitJoinRoundTrip(input: string, separator: string)
    ensures Join(Split(input, separator, NoOptions), separator) == input
  {
    JoinRanges(input, separator, 0);
  }

  /** Empty input with no options yields exactly one empty slice, then stops. */
  lemma EmptyInputYieldsOneEmptySlice(separator: string)
    ensures NextMove("", separator, NoOptions, 0) == Yield(1, 0, 0)
    ensures NextMove("", separator, NoOptions, 1) == Stop(1)
    ensures Split("", separator, NoOptions) == [""]
  {
  }

  /** An empty separator, or no further occurrence, yields the rest of the input as one slice. */
  lemma RestIsOneSlice(input: string, separator: string, position: nat)
    requires position < |input|
    requires |separator| == 0 || IndexOfFrom(input, separator, position) == -1
    ensures NextMove(input, separator, NoOptions, position) == Yield(|input| + 1, position, |input|)
    ensures NextMove(input, separator, NoOptions, |input| + 1) == Stop(|input| + 1)
  {
  }

  /** Input in which the separator never occurs splits into exactly itself. */
  lemma SplitWithoutSeparator(input: string, separator: string)
    requires IndexOfFrom(input, separator, 0) == -1
    ensures Split(input, separator, NoOptions) == [input]
  {
    if |input| == 0 {
      EmptyInputYieldsOneEmptySlice(separator);
    } else {
      RestIsOneSlice(input, separator, 0);
      assert Ranges(input, separator, NoOptions, |input| + 1) == [];
      assert Ranges(input, separator, NoOptions, 0) == [(0, |input|)];
      assert input[0..|input|] == input;
    }
  }

  /** Without options there is always at least one slice, so a consumer's first MoveNext succeeds. */
  lemma SplitNonEmpty(input: string, separator: string)
    ensures |Split(input, separator, NoOptions)| >= 1
  {
    RangesNonEmpty(input, separator, NoOptions, 0);
  }

  /** TrimLines: no yielded slice starts or ends with whitespace, and each lies inside the input. */
  lemma {:induction false} TrimmedSlices(input: string, separator: string, options: SplitOptions, position: nat)
    requires options.trimLines
    decreases |input| + 1 - position
    ensures forall r :: r in Ranges(input, separator, options, position) ==>
      r.0 <= r.1 <= |input| && TrimmedEnds(input, r.0, r.1)
  {
    match NextMove(input, separator, options, position)
    case Stop(_) =>
    case Yield(next, s, e) =>
      TrimmedSlices(input, separator, options, next);
  }

  /** RemoveEmptyLines: no yielded slice is empty. */
  lemma {:induction false} NoEmptySlices(input: string, separator: string, options: SplitOptions, position: nat)
    requires options.removeEmptyLines
    decreases |input| + 1 - position
    ensures forall r :: r in Ranges(input, separator, options, position) ==> r.0 < r.1
  {
    match NextMove(input, separator, options, position)
    case Stop(_) =>
    case Yield(next, s, e) =>
      NoEmptySlices(input, separator, options, next);
  }

  /** Once MoveNext has returned false it keeps returning false. */
  lemma StopIsFinal(input: string, separator: string, options: SplitOptions, position: nat)
    requires NextMove(input, separator, options, position).Stop?
    ensures var n := NextMove(input, separator, options, position).next;
      n > |input| && NextMove(input, separator, options, n) == Stop(n)
  {
  }

  /** A separator none of whose proper suffixes is also a prefix (such as "\r\n"). */
  predicate BorderFree(separator: string)
  {
    forall k :: 0 < k < |separator| ==> separator[k..] != separator[..|separator| - k]
  }

  /** Scanning from a position at least one separator before the end of an input that ends with a
    * border-free separator lands either again at least one separator before the end, or on the end. */
  lemma ScanLandsBeforeLastSeparator(input: string, separator: string, position: nat)
    requires |separator| > 0 && BorderFree(separator) && EndsWith(input, separator)
    requires position + |separator| <= |input|
    ensures var next := ScanEnd(input, separator, position).1;
      next + |separator| <= |input| || next == |input|
  {
    var m := |separator|;
    var last := |input| - m;
    assert OccursAt(input, separator, last);
    var idx := IndexOfFrom(input, separator, position);
    assert idx != -1 && idx <= last;
    if last < idx + m < |input| {
      OverlapIsBorder(input, separator, last, idx + m - last);
      assert false;
    }
  }

  /** Two occurrences of `separator` overlapping by `k` characters make its `k`-suffix equal its `k`-prefix. */
  lemma OverlapIsBorder(input: string, separator: string, last: nat, k: nat)
    requires 0 < k < |separator|
    requires OccursAt(input, separator, last) && OccursAt(input, separator, last + k - |separator|)
    ensures separator[|separator| - k..] == separator[..k]
  {
    var m := |separator|;
    var idx := last + k - m;
    forall j | 0 <= j < k
      ensures separator[m - k..][j] == separator[..k][j]
    {
      assert separator[m - k + j] == input[idx..idx + m][m - k + j];
      assert separator[j] == input[last..last + m][j];
    }
  }

  /** Without RemoveEmptyLines, an input ending in a border-free separator yields a trailing empty slice. */
  lemma {:induction false} TrailingEmptySlice(input: string, separator: string, options: SplitOptions, position: nat)
    requires !options.removeEmptyLines
    requires |separator| > 0 && BorderFree(separator) && EndsWith(input, separator)
    requires position + |separator| <= |input| || position == |input|
    decreases |input| + 1 - position
    ensures var rs := Ranges(input, separator, options, position);
      |rs| > 0 && rs[|rs| - 1] == (|input|, |input|)
  {
    if position == |input| {
      assert NextMove(input, separator, options, position) == Yield(position + 1, position, position);
      assert NextMove(input, separator, options, position + 1) == Stop(position + 1);
      assert Ranges(input, separator, options, position) == [(position, position)];
    } else {
      var c := Scan(input, separator, options, position);
      assert NextMove(input, separator, options, position) == c;
      ScanLandsBeforeLastSeparator(input, separator, position);
      TrailingEmptySlice(input, separator, options, c.next);
      var rest := Ranges(input, separator, options, c.next);
      assert Ranges(input, separator, options, position) == [(c.start, c.end)] + rest;
    }
  }

  // ---------------------------------------------------------------- the enumerator

  /** The `TextSplitEnumerator` ref struct: its cursor, current slice and current range. */
  class SplitEnumerator {
    const input: string
    const separator: string
    const options: SplitOptions
    var position: nat
    var current: string
    var rangeStart: nat
    var rangeEnd: nat

    constructor (input: string, separator: string, options: SplitOptions)
      ensures this.input == input && this.separator == separator && this.options == options
      ensures position == 0 && current == "" && rangeStart == 0 && rangeEnd == 0
    {
      this.input := input;
      this.separator := separator;
      this.options := options;
      position := 0;
      current := "";
      rangeStart := 0;
      rangeEnd := 0;
    }

    /** Advance to the next slice; on success `Current` is `input[Range]`; on failure both are cleared. */
    method MoveNext() returns (moved: bool)
      modifies this`position, this`current, this`rangeStart, this`rangeEnd
      ensures match NextMove(input, separator, options, old(position))
        case Yield(next, s, e) =>
          moved && position == next && rangeStart == s && rangeEnd == e && current == input[s..e]
        case Stop(next) =>
          !moved && position == next && current == "" && rangeStart == 0 && rangeEnd == 0
      ensures moved ==> SplitFrom(input, separator, options, old(position)) == [current] + SplitFrom(input, separator, options, position)
      ensures !moved ==> SplitFrom(input, separator, options, old(position)) == []
    {
      MoveTakesFirstSlice(input, separator, options, position);
      ghost var goal := NextMove(input, separator, options, position);
      var inputTextLen := |input|;
      while true
        invariant NextMove(input, separator, options, position) == goal
        decreases |input| + 1 - position
      {
        var sliceStart := position;
        if sliceStart > inputTextLen {
          assert goal == Stop(sliceStart);
          current := "";
          rangeStart, rangeEnd := 0, 0;
          return false;
        } else if sliceStart == inputTextLen {
          position := sliceStart + 1;
          if !options.removeEmptyLines {
            assert goal == Yield(position, sliceStart, sliceStart);
            current := "";
            rangeStart, rangeEnd := sliceStart, sliceStart;
            return true;
          } else {
            assert goal == Stop(position);
            current := "";
            rangeStart, rangeEnd := 0, 0;
            return false;
          }
        } else {
          var next, sliceEnd;
          next, sliceStart, sliceEnd := ScanSlice(sliceStart);
          assert goal == if sliceEnd - sliceStart > 0 || !options.removeEmptyLines then Yield(next, sliceStart, sliceEnd)
            else NextMove(input, separator, options, next);
          position := next;
          rangeStart, rangeEnd := sliceStart, sliceEnd;
          current := input[sliceStart..sliceEnd];
          if |current| > 0 || !options.removeEmptyLines {
            return true;
          }
        }
      }
    }

    /** One pass of the loop body of MoveNext from `sliceStart < |input|`: find the separator, then trim
      * under TrimLines. */
    method ScanSlice(sliceStart: nat) returns (next: nat, start: nat, end: nat)
      requires sliceStart < |input|
      ensures Yield(next, start, end) == Scan(input, separator, options, sliceStart)
    {
      var separatorIndex := IndexOfFrom(input, separator, sliceStart);
      if separatorIndex == -1 || |separator| == 0 {
        end := |input|;
        next := end + 1;
      } else {
        end := separatorIndex;
        next := end + |separator|;
      }
      assert ScanEnd(input, separator, sliceStart) == (end, next);
      start := sliceStart;
      if options.trimLines {
        start, end := TrimLoops(start, end);
      }
    }

    /** The two `for` loops of MoveNext that move the slice bounds past whitespace. */
    method TrimLoops(start: nat, end: nat) returns (sliceStart: nat, sliceEnd: nat)
      requires start <= end <= |input|
      ensures (sliceStart, sliceEnd) == TrimRange(input, start, end)
    {
      sliceStart, sliceEnd := start, end;
      while sliceStart < sliceEnd && CharClass.IsWhiteSpace(input[sliceStart])
        invariant start <= sliceStart <= sliceEnd == end
        invariant forall i :: start <= i < sliceStart ==> CharClass.IsWhiteSpace(input[i])
        decreases sliceEnd - sliceStart
      {
        sliceStart := sliceStart + 1;
      }
      while sliceEnd > sliceStart && CharClass.IsWhiteSpace(input[sliceEnd - 1])
        invariant sliceStart <= sliceEnd <= end
        invariant forall i :: sliceEnd <= i < end ==> CharClass.IsWhiteSpace(input[i])
        decreases sliceEnd - sliceStart
      {
        sliceEnd := sliceEnd - 1;
      }
      TrimRangeIs(input, start, end, sliceStart, sliceEnd);
    }

    /** Rewind to the start; the current slice is cleared but the range is left as it was. */
    method Reset()
      modifies this`position, this`current
      ensures position == 0 && current == ""
    {
      position := 0;
      current := "";
    }
  }

  /** `TextSplit(…).ToList()`: every slice a fresh enumerator yields, in order. */
  method ToList(input: string, separator: string, options: SplitOptions) returns (slices: seq<string>)
    ensures slices == Split(input, separator, options)
  {
    var e := new SplitEnumerator(input, separator, options);
    slices := [];
    while true
      invariant e.input == input && e.separator == separator && e.options == options
      invariant slices + SplitFrom(input, separator, options, e.position) == Split(input, separator, options)
      decreases |SplitFrom(input, separator, options, e.position)|
    {
      ghost var before := e.position;
      var moved := e.MoveNext();
      if !moved {
        assert slices + [] == slices;
        return;
      }
      assert slices + ([e.current] + SplitFrom(input, separator, options, e.position)) ==
        (slices + [e.current]) + SplitFrom(input, separator, options, e.position);
      slices := slices + [e.current];
    }
  }

  /** The bounds where the two trim loops stop are what `TrimRange` computes. */
  lemma TrimRangeIs(input: string, start: nat, end: nat, s: nat, e: nat)
    requires start <= s <= e <= end <= |input|
    requires forall i :: start <= i < s ==> CharClass.IsWhiteSpace(input[i])
    requires s == end || !CharClass.IsWhiteSpace(input[s])
    requires forall i :: e <= i < end ==> CharClass.IsWhiteSpace(input[i])
    requires e == s || !CharClass.IsWhiteSpace(input[e - 1])
    ensures TrimRange(input, start, end) == (s, e)
  {
    LeadIs(input, start, end, s);
    assert start + LeadingCount(input[start..end], CharClass.IsWhiteSpace) == s;
    TrailIs(input, s, end, e);
    assert end - TrailingCount(input[s..end], CharClass.IsWhiteSpace) == e;
  }

  lemma LeadIs(input: string, start: nat, end: nat, s: nat)
    requires start <= s <= end <= |input|
    requires forall i :: start <= i < s ==> CharClass.IsWhiteSpace(input[i])
    requires s == end || !CharClass.IsWhiteSpace(input[s])
    ensures LeadingCount(input[start..end], CharClass.IsWhiteSpace) == s - start
  {
    var w := input[start..end];
    forall i | 0 <= i < s - start
      ensures CharClass.IsWhiteSpace(w[i])
    {
      assert w[i] == input[start + i];
    }
    assert s < end ==> w[s - start] == input[s];
    LeadingCountIs(w, s - start);
  }

  lemma TrailIs(input: string, s: nat, end: nat, e: nat)
    requires s <= e <= end <= |input|
    requires forall i :: e <= i < end ==> CharClass.IsWhiteSpace(input[i])
    requires e == s || !CharClass.IsWhiteSpace(input[e - 1])
    ensures TrailingCount(input[s..end], CharClass.IsWhiteSpace) == end - e
  {
    var v := input[s..end];
    forall i | |v| - (end - e) <= i < |v|
      ensures CharClass.IsWhiteSpace(v[i])
    {
      assert v[i] == input[s + i];
    }
    assert e > s ==> v[|v| - (end - e) - 1] == input[e - 1];
    TrailingCountIs(v, end - e);
  }

  lemma {:induction false} LeadingCountIs(s: string, n: nat)
    requires n <= |s|
    requires forall i :: 0 <= i < n ==> CharClass.IsWhiteSpace(s[i])
    requires n == |s| || !CharClass.IsWhiteSpace(s[n])
    ensures LeadingCount(s, CharClass.IsWhiteSpace) == n
  {
    if n > 0 {
      LeadingCountIs(s[1..], n - 1);
    }
  }

  lemma {:induction false} TrailingCountIs(s: string, n: nat)
    requires n <= |s|
    requires forall i :: |s| - n <= i < |s| ==> CharClass.IsWhiteSpace(s[i])
    requires n == |s| || !CharClass.IsWhiteSpace(s[|s| - n - 1])
    ensures TrailingCount(s, CharClass.IsWhiteSpace) == n
  {
    if n > 0 {
      TrailingCountIs(s[..|s| - 1], n - 1);
    }
  }
}
