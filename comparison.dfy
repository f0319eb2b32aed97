/**
 * Core/Comparison/EnumerableComparerT.cs: an equality comparer built from two
 * delegates, and a comparer for arrays and immutable arrays that compares them
 * element by element and hashes them with a wrapping multiply-and-add fold.
 *
 * A value of the element type `T` that may be null is an `Option<T>`.  The
 * element's own `GetHashCode` is the function `ownHash`, an input.
 */
module Comparison {
  import opened Wrappers
  import opened Numbers

  // ---------------------------------------------------------------------------
  // FuncEqualityComparer<T>
  // ---------------------------------------------------------------------------

  /** An equality comparer over nullable values whose non-null cases are decided by two delegates. */
  class FuncEqualityComparer<T> {
    const equals: (T, T) -> bool
    const getHashCode: T -> Int32

    constructor(equals: (T, T) -> bool, getHashCode: T -> Int32)
      ensures this.equals == equals && this.getHashCode == getHashCode
    {
      this.equals := equals;
      this.getHashCode := getHashCode;
    }

    /** Null equals only null; two non-null values are equal when the delegate says so. */
    function Equals(left: Option<T>, right: Option<T>): (r: bool)
      ensures left.None? ==> (r <==> right.None?)
      ensures left.Some? && right.None? ==> !r
      ensures left.Some? && right.Some? ==> (r <==> equals(left.value, right.value))
    {
      match left
      case None => right.None?
      case Some(l) => right.Some? && equals(l, right.value)
    }

    /** Null hashes to 0; anything else to the delegate's hash code. */
    function GetHashCode(value: Option<T>): (r: Int32)
      ensures value.None? ==> r == 0
      ensures value.Some? ==> r == getHashCode(value.value)
    {
      match value
      case None => 0
      case Some(v) => getHashCode(v)
    }
  }

  /** `equals` is an equivalence relation on `T`. */
  ghost predicate IsEquivalence<T(!new)>(equals: (T, T) -> bool)
  {
    (forall a :: equals(a, a)) &&
    (forall a, b :: equals(a, b) ==> equals(b, a)) &&
    (forall a, b, c :: equals(a, b) && equals(b, c) ==> equals(a, c))
  }

  /** The comparer extends an equivalence on `T` to one on nullable values. */
  lemma FuncEqualsIsEquivalence<T(!new)>(c: FuncEqualityComparer<T>)
    requires IsEquivalence(c.equals)
    ensures IsEquivalence(c.Equals)
  {
    forall a: Option<T>, b: Option<T>, d: Option<T> | c.Equals(a, b) && c.Equals(b, d)
      ensures c.Equals(a, d)
    {
      if a.Some? {
        assert c.equals(a.value, b.value) && c.equals(b.value, d.value);
      }
    }
  }

  /** Whatever the delegate says, a comparer of this kind equates two nulls and separates null from non-null. */
  lemma FuncEqualsNullCases<T>(c: FuncEqualityComparer<T>, v: T)
    ensures c.Equals(None, None)
    ensures !c.Equals(None, Some(v)) && !c.Equals(Some(v), None)
  {
  }

  // ---------------------------------------------------------------------------
  // EnumerableEqualityComparer<T>: the specification functions
  // ---------------------------------------------------------------------------

  const HashSeed: Int32 := 486_187_739
  const HashMul: int := 31

  /** `e?.GetHashCode() ?? 0`. */
  function ElementCode<T>(value: Option<T>, ownHash: T -> Int32): (r: Int32)
    ensures value.None? ==> r == 0
  {
    match value
    case None => 0
    case Some(v) => ownHash(v)
  }

  /** The running `hash` of the source's loops after the given elements, each step wrapping to 32 bits. */
  function FoldHash<T>(values: seq<Option<T>>, ownHash: T -> Int32): Int32
  {
    if |values| == 0 then HashSeed
    else Wrap32(FoldHash(values[..|values| - 1], ownHash) * HashMul + ElementCode(values[|values| - 1], ownHash))
  }

  /**
   * The same hash computed without intermediate wrapping:
   * `seed * 31^n + code(e0) * 31^(n-1) + ... + code(e(n-1))`.
   */
  function Polynomial<T>(values: seq<Option<T>>, ownHash: T -> Int32): int
  {
    if |values| == 0 then HashSeed
    else Polynomial(values[..|values| - 1], ownHash) * HashMul + ElementCode(values[|values| - 1], ownHash)
  }

  /** Wrapping the accumulator before a multiply-and-add step changes nothing after the final wrap. */
  lemma Wrap32Step(a: int, c: int)
    ensures Wrap32(Wrap32(a) * HashMul + c) == Wrap32(a * HashMul + c)
  {
    var w := Wrap32(a);
    var q := (a - w) / Int32Modulus;
    assert a - w == q * Int32Modulus;
    assert w * HashMul + c == (a * HashMul + c) + (-q * HashMul) * Int32Modulus;
    Wrap32Shift(a * HashMul + c, -q * HashMul);
  }

  /** Wrapping at every step, as the source does, gives the polynomial hash reduced to 32 bits once. */
  lemma {:induction false} FoldHashIsPolynomial<T>(values: seq<Option<T>>, ownHash: T -> Int32)
    ensures FoldHash(values, ownHash) == Wrap32(Polynomial(values, ownHash))
  {
    if |values| > 0 {
      var init := values[..|values| - 1];
      FoldHashIsPolynomial(init, ownHash);
      Wrap32Step(Polynomial(init, ownHash), ElementCode(values[|values| - 1], ownHash));
    }
  }

  /** Two sequences of the same length that agree element-wise under `equals`. */
  ghost predicate AllEqual<T>(equals: (T, T) -> bool, xs: seq<T>, ys: seq<T>)
  {
    |xs| == |ys| && forall i :: 0 <= i < |xs| ==> equals(xs[i], ys[i])
  }

  /** Element-wise comparison under an equivalence is itself an equivalence. */
  lemma AllEqualIsEquivalence<T(!new)>(equals: (T, T) -> bool, xs: seq<T>, ys: seq<T>, zs: seq<T>)
    requires IsEquivalence(equals)
    ensures AllEqual(equals, xs, xs)
    ensures AllEqual(equals, xs, ys) ==> AllEqual(equals, ys, xs)
    ensures AllEqual(equals, xs, ys) && AllEqual(equals, ys, zs) ==> AllEqual(equals, xs, zs)
  {
    if AllEqual(equals, xs, ys) && AllEqual(equals, ys, zs) {
      forall i | 0 <= i < |xs|
        ensures equals(xs[i], zs[i])
      {
        assert equals(xs[i], ys[i]) && equals(ys[i], zs[i]);
      }
    }
  }

  /** Under the default comparer (value equality) element-wise equality is sequence equality. */
  lemma AllEqualByDefault<T>(xs: seq<Option<T>>, ys: seq<Option<T>>)
    ensures AllEqual(DefaultEquals, xs, ys) <==> xs == ys
  {
    if AllEqual(DefaultEquals, xs, ys) {
      assert forall i :: 0 <= i < |xs| ==> xs[i] == ys[i];
    }
  }

  /** `EqualityComparer<T>.Default`, taken as value equality. */
  function DefaultEquals<T(==)>(x: Option<T>, y: Option<T>): bool
  {
    x == y
  }

  /** An `ImmutableArray<T>`: the default (uninitialised) value, or an array of items. */
  datatype ImmutableArray<T> = DefaultArray | ArrayOf(items: seq<T>)
  {
    predicate IsDefaultOrEmpty()
    {
      DefaultArray? || |items| == 0
    }
  }

  // ---------------------------------------------------------------------------
  // EnumerableEqualityComparer<T>
  // ---------------------------------------------------------------------------

  /** The comparer keeps the value comparer it was given, or the default one. */
  class EnumerableEqualityComparer<T(==)> {
    const valueEquals: (Option<T>, Option<T>) -> bool

    constructor(valueComparer: Option<(Option<T>, Option<T>) -> bool>)
      ensures valueComparer.Some? ==> valueEquals == valueComparer.value
      ensures valueComparer.None? ==> valueEquals == DefaultEquals
    {
      valueEquals := valueComparer.GetOr(DefaultEquals);
    }

    /**
     * `Equals(T[]?, T[]?)`: the same reference (or two nulls) is equal; one null
     * is not; otherwise the lengths and then the elements under the value comparer.
     */
    method ArrayEquals(x: array?<Option<T>>, y: array?<Option<T>>) returns (r: bool)
      ensures r <==> x == y || (x != null && y != null && AllEqual(valueEquals, x[..], y[..]))
    {
      if x == y {
        return true;
      }
      if x == null || y == null {
        return false;
      }
      var xLen := x.Length;
      if y.Length != xLen {
        return false;
      }
      for i := 0 to xLen
        invariant forall j :: 0 <= j < i ==> valueEquals(x[j], y[j])
      {
        if !valueEquals(x[i], y[i]) {
          return false;
        }
      }
      return true;
    }

    /**
     * `Equals(ImmutableArray<T>, ImmutableArray<T>)`: default and empty arrays are
     * all equal to each other and to nothing else; otherwise as for arrays.
     */
    method ImmutableEquals(x: ImmutableArray<Option<T>>, y: ImmutableArray<Option<T>>) returns (r: bool)
      ensures x.IsDefaultOrEmpty() ==> (r <==> y.IsDefaultOrEmpty())
      ensures !x.IsDefaultOrEmpty() && y.IsDefaultOrEmpty() ==> !r
      ensures !x.IsDefaultOrEmpty() && !y.IsDefaultOrEmpty() ==> (r <==> AllEqual(valueEquals, x.items, y.items))
    {
      if x.IsDefaultOrEmpty() {
        return y.IsDefaultOrEmpty();
      }
      if y.IsDefaultOrEmpty() {
        return false;
      }
      var xLen := |x.items|;
      if |y.items| != xLen {
        return false;
      }
      for i := 0 to xLen
        invariant forall j :: 0 <= j < i ==> valueEquals(x.items[j], y.items[j])
      {
        if !valueEquals(x.items[i], y.items[i]) {
          return false;
        }
      }
      return true;
    }

    /**
     * `GetHashCode(T[]?)`: null hashes to 0, anything else to the wrapping fold
     * from 486187739; the value comparer plays no part.
     */
    method ArrayHashCode(values: array?<Option<T>>, ownHash: T -> Int32) returns (r: Int32)
      ensures values == null ==> r == 0
      ensures values != null ==> r == Wrap32(Polynomial(values[..], ownHash))
    {
      if values == null {
        return 0;
      }
      var len := values.Length;
      var hash: Int32 := HashSeed;
      for i := 0 to len
        invariant hash == FoldHash(values[..i], ownHash)
      {
        assert values[..i + 1][..i] == values[..i];
        hash := Wrap32(hash * HashMul + ElementCode(values[i], ownHash));
      }
      assert values[..len] == values[..];
      FoldHashIsPolynomial(values[..], ownHash);
      return hash;
    }

    /** `GetHashCode(ImmutableArray<T>)`: a default or empty array hashes to 0, anything else as an array. */
    method ImmutableHashCode(values: ImmutableArray<Option<T>>, ownHash: T -> Int32) returns (r: Int32)
      ensures values.IsDefaultOrEmpty() ==> r == 0
      ensures !values.IsDefaultOrEmpty() ==> r == Wrap32(Polynomial(values.items, ownHash))
    {
      if values.IsDefaultOrEmpty() {
        return 0;
      }
      var items := values.items;
      var len := |items|;
      var hash: Int32 := HashSeed;
      for i := 0 to len
        invariant hash == FoldHash(items[..i], ownHash)
      {
        assert items[..i + 1][..i] == items[..i];
        hash := Wrap32(hash * HashMul + ElementCode(items[i], ownHash));
      }
      assert items[..len] == items;
      FoldHashIsPolynomial(items, ownHash);
      return hash;
    }
  }

  /** An empty array hashes to the seed, while an empty or default immutable array hashes to 0. */
  lemma EmptyHashes<T>(ownHash: T -> Int32)
    ensures Wrap32(Polynomial([], ownHash)) == 486_187_739
  {
  }

  /**
   * The hash ignores the value comparer: under a comparer that equates all
   * values, `[1]` and `[2]` are equal but their hashes differ.
   */
  lemma HashIgnoresComparer()
    ensures AllEqual((x: Option<int>, y: Option<int>) => true, [Some(1)], [Some(2)])
    ensures Wrap32(Polynomial([Some(1)], Wrap32)) != Wrap32(Polynomial([Some(2)], Wrap32))
  {
    assert Polynomial([Some(1)], Wrap32) == 486_187_739 * 31 + 1 by {
      assert [Some(1)][..0] == [];
    }
    assert Polynomial([Some(2)], Wrap32) == 486_187_739 * 31 + 2 by {
      assert [Some(2)][..0] == [];
    }
  }
}
