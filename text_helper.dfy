/** Core/Text/TextHelper.cs: copying text into a destination span and the ordinal equality overloads. */
module TextHelper {
  import opened Wrappers

  /** `AsSpan()` of a nullable string or char array: null becomes the empty span. */
  function AsSpan(s: Option<string>): (r: string)
    ensures s.None? ==> r == []
    ensures s.Some? ==> r == s.value
  {
    s.GetOr([])
  }

  /** The unchecked block copy `Unsafe.CopyTo`: `count` chars of `source` into the span of `dest`
    * that starts at `offset`, one element at a time in ascending order. A shift to the left inside one
    * buffer reads each char before it is overwritten, so a snapshot of the source describes it. */
  method CopyBlock(source: seq<char>, dest: array<char>, offset: nat, count: nat)
    requires count <= |source| && offset + count <= dest.Length
    modifies dest
    ensures dest[offset..offset + count] == source[..count]
    ensures dest[..offset] == old(dest[..offset])
    ensures dest[offset + count..] == old(dest[offset + count..])
  {
    var i := 0;
    while i < count
      invariant 0 <= i <= count
      invariant dest[offset..offset + i] == source[..i]
      invariant dest[..offset] == old(dest[..offset])
      invariant dest[offset + i..] == old(dest[offset + i..])
    {
      dest[offset + i] := source[i];
      i := i + 1;
    }
  }

  /** `TryCopyTo(ReadOnlySpan<char>, Span<char>)`. */
  method TryCopyTo(source: seq<char>, dest: array<char>) returns (ok: bool)
    modifies dest
    ensures ok <==> |source| <= dest.Length
    ensures ok ==> dest[..|source|] == source && dest[|source|..] == old(dest[|source|..])
    ensures !ok ==> dest[..] == old(dest[..])
    ensures |source| == 0 ==> ok && dest[..] == old(dest[..])
  {
    var sourceLen := |source|;
    if sourceLen == 0 {
      return true;
    }
    if sourceLen > dest.Length {
      return false;
    }
    CopyBlock(source, dest, 0, sourceLen);
    return true;
  }

  /** `TryCopyTo(string?, Span<char>)`: a null source copies nothing and succeeds. */
  method TryCopyToString(source: Option<string>, dest: array<char>) returns (ok: bool)
    modifies dest
    ensures source.None? ==> ok && dest[..] == old(dest[..])
    ensures ok <==> |AsSpan(source)| <= dest.Length
    ensures ok ==> dest[..|AsSpan(source)|] == AsSpan(source) && dest[|AsSpan(source)|..] == old(dest[|AsSpan(source)|..])
    ensures !ok ==> dest[..] == old(dest[..])
  {
    if source.None? {
      return true;
    }
    var sourceLen := |source.value|;
    if sourceLen == 0 {
      return true;
    }
    if sourceLen > dest.Length {
      return false;
    }
    CopyBlock(source.value, dest, 0, sourceLen);
    return true;
  }

  /** `CopyTo(ReadOnlySpan<char>, Span<char>)`: throws ArgumentException exactly when `TryCopyTo` fails. */
  method CopyTo(source: seq<char>, dest: array<char>) returns (thrown: Option<Exception>)
    modifies dest
    ensures thrown == (if |source| <= dest.Length then None else Some(ArgumentException))
    ensures thrown.None? ==> dest[..|source|] == source && dest[|source|..] == old(dest[|source|..])
    ensures thrown.Some? ==> dest[..] == old(dest[..])
  {
    var ok := TryCopyTo(source, dest);
    thrown := if ok then None else Some(ArgumentException);
  }

  /** `CopyTo(string?, Span<char>)`. */
  method CopyToString(source: Option<string>, dest: array<char>) returns (thrown: Option<Exception>)
    modifies dest
    ensures thrown == (if |AsSpan(source)| <= dest.Length then None else Some(ArgumentException))
    ensures thrown.None? ==> dest[..|AsSpan(source)|] == AsSpan(source) && dest[|AsSpan(source)|..] == old(dest[|AsSpan(source)|..])
    ensures thrown.Some? ==> dest[..] == old(dest[..])
  {
    var ok := TryCopyToString(source, dest);
    thrown := if ok then None else Some(ArgumentException);
  }

  /** `MemoryExtensions.SequenceEqual` on two char spans: ordinal, element by element. */
  function SpanEquals(x: seq<char>, y: seq<char>): (r: bool)
    ensures r <==> |x| == |y| && forall i :: 0 <= i < |x| ==> x[i] == y[i]
  {
    x == y
  }

  /** The overloads taking a nullable string or char array compare its span, so null equals "". */
  function SpanEqualsNullable(x: seq<char>, y: Option<string>): (r: bool)
    ensures y.None? ==> (r <==> |x| == 0)
    ensures y.Some? ==> (r <==> x == y.value)
  {
    SpanEquals(x, AsSpan(y))
  }

  /** `string.Equals(x, y, StringComparison.Ordinal)`: null equals only null. */
  function StringEquals(x: Option<string>, y: Option<string>): (r: bool)
    ensures (x.None? || y.None?) ==> (r <==> x.None? && y.None?)
    ensures x.Some? && y.Some? ==> (r <==> SpanEquals(x.value, y.value))
  {
    x == y
  }

  lemma NullIsEmptyOnlyForSpans()
    ensures SpanEqualsNullable([], None)
    ensures !StringEquals(None, Some(""))
  {
  }

  lemma SpanEqualsIsEquivalence(x: seq<char>, y: seq<char>, z: seq<char>)
    ensures SpanEquals(x, x)
    ensures SpanEquals(x, y) == SpanEquals(y, x)
    ensures SpanEquals(x, y) && SpanEquals(y, z) ==> SpanEquals(x, z)
  {
  }
}
