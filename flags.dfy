/** Core/Enums/EnumExtensions.cs: `EnumInfo<TEnum>`, which caches `Enum.GetValues` and expands a
  * `[Flags]` value into the declared values it contains. */
module Flags {
  /** The bits of an enum value, as the set of the positions of its one bits. Every enum of the core
    * has the default `int` underlying type, so the positions lie below 32; `|` is union, `&` is
    * intersection and `default` is the empty set. */
  type Bits = set<nat>

  /** A declared enum member: its name and its value. */
  datatype Member = Member(name: string, value: Bits)

  /** An enum type as reflection sees it: its members in the order `Enum.GetValues` returns them,
    * which is ascending order of the values. */
  datatype EnumType = EnumType(members: seq<Member>)

  /** `Enum.HasFlag(flag)`, that is `(e & flag) == flag`: every bit of `flag` is set in `e`. */
  predicate HasFlag(e: Bits, flag: Bits)
  {
    e * flag == flag
  }

  /** `IsDefault`: the value equals `default(TEnum)`, which is zero. */
  predicate IsDefault(e: Bits)
  {
    e == {}
  }

  /** The loop of `GetFlags` from index `i` of the cached `_flags`: each member that is not the default
    * value and whose bits `e` all has, in array order. */
  function FlagsFrom(members: seq<Member>, i: nat, e: Bits): seq<Member>
    requires i <= |members|
    decreases |members| - i
  {
    if i == |members| then [] else Pick(members[i], e) + FlagsFrom(members, i + 1, e)
  }

  /** One iteration of that loop: the member if it is yielded, else nothing. */
  function Pick(m: Member, e: Bits): seq<Member>
  {
    if IsDefault(m.value) || !HasFlag(e, m.value) then [] else [m]
  }

  /** `GetFlags(e)`: the declared members it yields (each yielded value together with its name). */
  function GetFlags(t: EnumType, e: Bits): seq<Member>
  {
    FlagsFrom(t.members, 0, e)
  }

  /** The values the members carry. */
  function ValuesOf(members: seq<Member>): seq<Bits>
  {
    seq(|members|, i requires 0 <= i < |members| => members[i].value)
  }

  /** A member is yielded from index `i` on iff it is declared there, is not zero and all of its bits
    * are set. */
  lemma {:induction false} FlagsFromMembers(members: seq<Member>, i: nat, e: Bits, m: Member)
    requires i <= |members|
    decreases |members| - i
    ensures m in FlagsFrom(members, i, e) <==> m in members[i..] && !IsDefault(m.value) && HasFlag(e, m.value)
  {
    if i < |members| {
      FlagsFromMembers(members, i + 1, e, m);
      assert members[i..] == [members[i]] + members[i + 1..];
    }
  }

  /** Each yielded member is a declared, non-zero bit-subset of `e`, and every such member is yielded;
    * a composite declared value is therefore yielded exactly when all of its bits are set. */
  lemma GetFlagsMembers(t: EnumType, e: Bits, m: Member)
    ensures m in GetFlags(t, e) <==> m in t.members && !IsDefault(m.value) && HasFlag(e, m.value)
  {
    FlagsFromMembers(t.members, 0, e, m);
    assert t.members[0..] == t.members;
  }

  /** The filter keeps the array order: the flags of two runs of the array are the flags of each,
    * one after the other. */
  lemma {:induction false} FlagsFromAppend(a: seq<Member>, b: seq<Member>, i: nat, e: Bits)
    requires i <= |a|
    decreases |a| - i
    ensures FlagsFrom(a + b, i, e) == FlagsFrom(a, i, e) + FlagsFrom(b, 0, e)
  {
    if i == |a| {
      FlagsFromShift(a, b, 0, e);
    } else {
      assert (a + b)[i] == a[i];
      FlagsFromAppend(a, b, i + 1, e);
    }
  }

  /** Past the end of `a`, the flags of `a + b` are those of `b`. */
  lemma {:induction false} FlagsFromShift(a: seq<Member>, b: seq<Member>, j: nat, e: Bits)
    requires j <= |b|
    decreases |b| - j
    ensures FlagsFrom(a + b, |a| + j, e) == FlagsFrom(b, j, e)
  {
    if j < |b| {
      assert (a + b)[|a| + j] == b[j];
      FlagsFromShift(a, b, j + 1, e);
    }
  }

  /** `GetFlags` of the concatenation of two member arrays. */
  lemma GetFlagsAppend(a: seq<Member>, b: seq<Member>, e: Bits)
    ensures GetFlags(EnumType(a + b), e) == GetFlags(EnumType(a), e) + GetFlags(EnumType(b), e)
  {
    FlagsFromAppend(a, b, 0, e);
  }

  /** `GetFlags(default)` yields nothing: only the zero value is a bit-subset of zero, and it is skipped. */
  lemma {:induction false} FlagsFromDefault(members: seq<Member>, i: nat)
    requires i <= |members|
    decreases |members| - i
    ensures FlagsFrom(members, i, {}) == []
  {
    if i < |members| {
      FlagsFromDefault(members, i + 1);
    }
  }

  /** No more flags are yielded than there are members left. */
  lemma {:induction false} FlagsFromLength(members: seq<Member>, i: nat, e: Bits)
    requires i <= |members|
    decreases |members| - i
    ensures |FlagsFrom(members, i, e)| <= |members| - i
  {
    if i < |members| {
      FlagsFromLength(members, i + 1, e);
    }
  }
}
