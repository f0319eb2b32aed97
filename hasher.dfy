/**
 * The `Hasher` struct: the xxHash32 algorithm ("xxHash32 Algorithm Description",
 * steps 1 to 6) fed whole 32-bit hash codes instead of bytes, so every "lane" of
 * the algorithm is one hash code.
 *
 * A hash code is kept as its 32-bit two's-complement pattern (`bv32`), so the
 * source's `uint` arithmetic, its `(uint)value` and `(int)hash` casts and its
 * wrapping `int` arithmetic are all plain `bv32` arithmetic.  The global random
 * seed is a parameter.
 */
module Hashing {
  import opened Wrappers

  /** An `int` hash code, as its 32-bit two's-complement bit pattern. */
  type HashCode = bv32

  const Prime1: bv32 := 2654435761
  const Prime2: bv32 := 2246822519
  const Prime3: bv32 := 3266489917
  const Prime4: bv32 := 668265263
  const Prime5: bv32 := 374761393

  /** Number of values a `uint` holds: `_length` counts modulo this. */
  const UIntRange: nat := 0x1_0000_0000

  function RotateLeft(value: bv32, offset: nat): bv32
    requires 0 < offset < 32
  {
    (value << offset) | (value >> (32 - offset))
  }

  /** At every offset the algorithm uses, `RotateLeft` is the 32-bit left rotation. */
  lemma RotationsUsed(value: bv32)
    ensures RotateLeft(value, 1) == value.RotateLeft(1)
    ensures RotateLeft(value, 7) == value.RotateLeft(7)
    ensures RotateLeft(value, 12) == value.RotateLeft(12)
    ensures RotateLeft(value, 13) == value.RotateLeft(13)
    ensures RotateLeft(value, 17) == value.RotateLeft(17)
    ensures RotateLeft(value, 18) == value.RotateLeft(18)
  {
  }

  /** The four accumulators `_v1`..`_v4`. */
  datatype Lanes = Lanes(v1: bv32, v2: bv32, v3: bv32, v4: bv32)

  function Initialize(seed: bv32): Lanes
  {
    Lanes(seed + Prime1 + Prime2, seed + Prime2, seed, seed - Prime1)
  }

  function Round(hash: bv32, input: bv32): bv32
  {
    RotateLeft(hash + input * Prime2, 13) * Prime1
  }

  function QueueRound(hash: bv32, queuedValue: bv32): bv32
  {
    RotateLeft(hash + queuedValue * Prime3, 17) * Prime4
  }

  function MixState(lanes: Lanes): bv32
  {
    RotateLeft(lanes.v1, 1) + RotateLeft(lanes.v2, 7) + RotateLeft(lanes.v3, 12) + RotateLeft(lanes.v4, 18)
  }

  function MixEmptyState(seed: bv32): bv32
  {
    seed + Prime5
  }

  function MixFinal(hash: bv32): bv32
  {
    var h1 := hash ^ (hash >> 15);
    var h2 := h1 * Prime2;
    var h3 := h2 ^ (h2 >> 13);
    var h4 := h3 * Prime3;
    h4 ^ (h4 >> 16)
  }

  /** `hash += length * 4`, in `uint` arithmetic. */
  function AddLength(hash: bv32, length: nat): bv32
  {
    hash + ((length * 4) % UIntRange) as bv32
  }

  /**
   * The seed-dependent starting values and the mixing steps of xxHash32.  The
   * hasher's control flow below is written over a `Mixer`, so what is proved
   * about that control flow holds whatever the steps compute; `XxHash32(seed)`
   * holds the source's steps.
   */
  datatype Mixer = Mixer(
    initial: Lanes,
    empty: bv32,
    round: (bv32, bv32) -> bv32,
    queueRound: (bv32, bv32) -> bv32,
    mixState: Lanes -> bv32,
    addLength: (bv32, nat) -> bv32,
    mixFinal: bv32 -> bv32)

  function XxHash32(seed: bv32): Mixer
  {
    Mixer(Initialize(seed), MixEmptyState(seed), Round, QueueRound, MixState, AddLength, MixFinal)
  }

  /** `value?.GetHashCode() ?? 0`: a null value contributes hash code 0. */
  function CodeOf(value: Option<HashCode>): HashCode
  {
    value.GetOr(0)
  }

  function CodesOf(values: seq<Option<HashCode>>): (r: seq<HashCode>)
    ensures |r| == |values|
    ensures forall i :: 0 <= i < |values| ==> r[i] == CodeOf(values[i])
  {
    seq(|values|, i requires 0 <= i < |values| => CodeOf(values[i]))
  }

  /**
   * `Add<T>(value, comparer)`: null contributes 0, otherwise the comparer's hash
   * code when a comparer is given, else the value's own.
   */
  function CodeWith<T>(value: Option<T>, ownHash: T -> HashCode, comparer: Option<T -> HashCode>): (r: HashCode)
    ensures value.None? ==> r == 0
  {
    match value
    case None => 0
    case Some(v) => if comparer.Some? then comparer.value(v) else ownHash(v)
  }

  function CodesWith<T>(values: seq<Option<T>>, ownHash: T -> HashCode, comparer: Option<T -> HashCode>): (r: seq<HashCode>)
    ensures |r| == |values|
    ensures forall i :: 0 <= i < |values| ==> r[i] == CodeWith(values[i], ownHash, comparer)
  {
    seq(|values|, i requires 0 <= i < |values| => CodeWith(values[i], ownHash, comparer))
  }

  // ---------------------------------------------------------------------------
  // The reference: xxHash32 over a sequence of 32-bit lanes.
  // ---------------------------------------------------------------------------

  function RoundLanes(m: Mixer, acc: Lanes, stripe: seq<bv32>): Lanes
    requires |stripe| >= 4
  {
    Lanes(m.round(acc.v1, stripe[0]), m.round(acc.v2, stripe[1]), m.round(acc.v3, stripe[2]), m.round(acc.v4, stripe[3]))
  }

  /** Step 2: each full stripe of four lanes rounds the four accumulators, first stripe first. */
  function Stripes(m: Mixer, acc: Lanes, words: seq<bv32>): Lanes
    requires |words| % 4 == 0
    decreases |words|
  {
    if |words| == 0 then acc else Stripes(m, RoundLanes(m, acc, words), words[4..])
  }

  /** Step 5: each remaining lane, in order, is folded in with the queue round. */
  function Remaining(m: Mixer, acc: bv32, words: seq<bv32>): bv32
    decreases |words|
  {
    if |words| == 0 then acc else Remaining(m, m.queueRound(acc, words[0]), words[1..])
  }

  /** The lanes that fill whole stripes of four. */
  function StripePart(words: seq<bv32>): (r: seq<bv32>)
    ensures |r| % 4 == 0 && |r| == |words| - |words| % 4
  {
    words[..|words| - |words| % 4]
  }

  /** The fewer than four lanes after the last whole stripe. */
  function TailPart(words: seq<bv32>): (r: seq<bv32>)
    ensures |r| == |words| % 4 && StripePart(words) + r == words
  {
    words[|words| - |words| % 4..]
  }

  /** Steps 1-3: the empty-state value for input shorter than one stripe, else the converged accumulators. */
  function Converged(m: Mixer, words: seq<bv32>): bv32
  {
    if |words| < 4 then m.empty else m.mixState(Stripes(m, m.initial, StripePart(words)))
  }

  /**
   * xxHash32 of `words` read as 4-byte lanes: steps 1-3, then step 4 (the input
   * length in bytes, modulo 2^32), step 5 (the remaining lanes) and step 6 (the
   * final avalanche).
   */
  function XXH32(m: Mixer, words: seq<bv32>): HashCode
  {
    m.mixFinal(Remaining(m, m.addLength(Converged(m, words), |words|), TailPart(words)))
  }

  // ---------------------------------------------------------------------------
  // The incremental hasher, on values.
  // ---------------------------------------------------------------------------

  /** The fields of a `Hasher`; `length` is the `uint` `_length`. */
  datatype HashState = HashState(lanes: Lanes, queue1: bv32, queue2: bv32, queue3: bv32, length: nat)

  /** `new Hasher()`: every field zero. */
  const Fresh: HashState := HashState(Lanes(0, 0, 0, 0), 0, 0, 0, 0)

  /** `_length++` on a `uint`. */
  function Increment(length: nat): (r: nat)
    requires length < UIntRange
    ensures r < UIntRange
    ensures length + 1 < UIntRange ==> r == length + 1
  {
    if length + 1 == UIntRange then 0 else length + 1
  }

  /**
   * `AddHashCode`: values at positions 0-2 (mod 4) are queued; the fourth rounds
   * all four lanes, which are initialized from the seed on the first group only.
   */
  function AddCode(m: Mixer, s: HashState, value: HashCode): (r: HashState)
    requires s.length < UIntRange
    ensures r.length < UIntRange
  {
    var previousLength := s.length;
    var length := Increment(previousLength);
    var position := previousLength % 4;
    if position == 0 then s.(queue1 := value, length := length)
    else if position == 1 then s.(queue2 := value, length := length)
    else if position == 2 then s.(queue3 := value, length := length)
    else
      var l := if previousLength == 3 then m.initial else s.lanes;
      s.(lanes := Lanes(m.round(l.v1, s.queue1), m.round(l.v2, s.queue2), m.round(l.v3, s.queue3), m.round(l.v4, value)), length := length)
  }

  /** `ToHashCode` of a hasher in state `s`. */
  function Finish(m: Mixer, s: HashState): HashCode
    requires s.length < UIntRange
  {
    var length := s.length;
    var hash := m.addLength(if length < 4 then m.empty else m.mixState(s.lanes), length);
    m.mixFinal(MixQueue(m, hash, s))
  }

  /** The queued values mixed into `hash`: `position` says how many of `_queue1`..`_queue3` are filled. */
  function MixQueue(m: Mixer, hash: bv32, s: HashState): bv32
  {
    var position := s.length % 4;
    if position > 0 then
      var h1 := m.queueRound(hash, s.queue1);
      if position > 1 then
        var h2 := m.queueRound(h1, s.queue2);
        if position > 2 then m.queueRound(h2, s.queue3) else h2
      else h1
    else hash
  }

  /** The state after adding `codes`, one by one, to a fresh hasher. */
  function Absorb(m: Mixer, codes: seq<HashCode>): (r: HashState)
    ensures r.length < UIntRange
  {
    if |codes| == 0 then Fresh
    else AddCode(m, Absorb(m, codes[..|codes| - 1]), codes[|codes| - 1])
  }

  /** The values still queued in `s`, oldest first. */
  function Queued(s: HashState): (r: seq<bv32>)
    ensures |r| == s.length % 4
  {
    var position := s.length % 4;
    if position == 0 then [] else if position == 1 then [s.queue1]
    else if position == 2 then [s.queue1, s.queue2] else [s.queue1, s.queue2, s.queue3]
  }

  /** Mixing the queue is the reference's step 5 over the queued values. */
  lemma {:induction false} MixQueueIsRemaining(m: Mixer, hash: bv32, s: HashState)
    ensures MixQueue(m, hash, s) == Remaining(m, hash, Queued(s))
  {
    var q := Queued(s);
    if |q| > 0 {
      var h1 := m.queueRound(hash, s.queue1);
      assert q[0] == s.queue1;
      assert Remaining(m, hash, q) == Remaining(m, h1, q[1..]);
      if |q| > 1 {
        var h2 := m.queueRound(h1, s.queue2);
        assert q[1..][0] == s.queue2;
        assert Remaining(m, h1, q[1..]) == Remaining(m, h2, q[2..]);
        if |q| > 2 {
          assert q[2..][0] == s.queue3 && q[2..][1..] == [];
          assert Remaining(m, h2, q[2..]) == Remaining(m, m.queueRound(h2, s.queue3), []);
        } else {
          assert q[2..] == [];
        }
      } else {
        assert q[1..] == [];
      }
    }
  }

  /** How the stripe and tail parts of a sequence grow by one lane. */
  lemma PartsSnoc(init: seq<bv32>, x: bv32)
    ensures |init| % 4 < 3 ==> StripePart(init + [x]) == StripePart(init) && TailPart(init + [x]) == TailPart(init) + [x]
    ensures |init| % 4 == 3 ==> StripePart(init + [x]) == StripePart(init) + (TailPart(init) + [x]) && TailPart(init + [x]) == []
  {
    var codes := init + [x];
    var full := |init| - |init| % 4;
    assert StripePart(init) == init[..full];
    if |init| % 4 < 3 {
      assert codes[..full] == init[..full];
      assert codes[full..] == init[full..] + [x];
    } else {
      assert codes == init[..full] + (init[full..] + [x]);
    }
  }

  /** One `AddCode` below the `uint` bound at a queueing position: the queue grows, the lanes stay. */
  lemma AddCodeQueues(m: Mixer, s: HashState, x: bv32)
    requires s.length + 1 < UIntRange && s.length % 4 < 3
    ensures var r := AddCode(m, s, x); r.length == s.length + 1 && Queued(r) == Queued(s) + [x] && r.lanes == s.lanes
  {
    var r := AddCode(m, s, x);
    assert (s.length + 1) % 4 == s.length % 4 + 1;
    if s.length % 4 == 0 {
      assert r == s.(queue1 := x, length := s.length + 1);
    } else if s.length % 4 == 1 {
      assert r == s.(queue2 := x, length := s.length + 1);
    } else {
      assert r == s.(queue3 := x, length := s.length + 1);
    }
  }

  /** One `AddCode` below the `uint` bound at the fourth position: the queue empties into a round of the lanes. */
  lemma AddCodeRounds(m: Mixer, s: HashState, x: bv32)
    requires s.length + 1 < UIntRange && s.length % 4 == 3
    ensures var r := AddCode(m, s, x);
      && r.length == s.length + 1 && Queued(r) == []
      && r.lanes == RoundLanes(m, if s.length == 3 then m.initial else s.lanes, Queued(s) + [x])
  {
  }

  /** Consuming one more stripe after `words` rounds the lanes `Stripes` left. */
  lemma {:induction false} StripesSnoc(m: Mixer, acc: Lanes, words: seq<bv32>, stripe: seq<bv32>)
    requires |words| % 4 == 0 && |stripe| == 4
    ensures Stripes(m, acc, words + stripe) == RoundLanes(m, Stripes(m, acc, words), stripe)
    decreases |words|
  {
    if |words| == 0 {
      assert words + stripe == stripe;
      assert stripe[4..] == [];
    } else {
      assert (words + stripe)[4..] == words[4..] + stripe;
      assert RoundLanes(m, acc, words + stripe) == RoundLanes(m, acc, words);
      StripesSnoc(m, RoundLanes(m, acc, words), words[4..], stripe);
    }
  }

  /** The shape `AbsorbShape` states, for a state `s` reached by adding `codes`. */
  predicate Shaped(m: Mixer, s: HashState, codes: seq<HashCode>)
  {
    && s.length == |codes|
    && Queued(s) == TailPart(codes)
    && (|codes| >= 4 ==> s.lanes == Stripes(m, m.initial, StripePart(codes)))
  }

  /** Adding a lane at a queueing position keeps the shape. */
  lemma ShapedQueues(m: Mixer, s: HashState, init: seq<HashCode>, x: HashCode)
    requires Shaped(m, s, init) && |init| + 1 < UIntRange && |init| % 4 < 3
    ensures Shaped(m, AddCode(m, s, x), init + [x])
  {
    PartsSnoc(init, x);
    AddCodeQueues(m, s, x);
  }

  /** Adding the fourth lane of a stripe keeps the shape. */
  lemma ShapedRounds(m: Mixer, s: HashState, init: seq<HashCode>, x: HashCode)
    requires Shaped(m, s, init) && |init| + 1 < UIntRange && |init| % 4 == 3
    ensures Shaped(m, AddCode(m, s, x), init + [x])
  {
    PartsSnoc(init, x);
    AddCodeRounds(m, s, x);
    var stripe := TailPart(init) + [x];
    if |init| == 3 {
      assert StripePart(init) == [];
      assert StripePart(init + [x]) == [] + stripe;
      StripesSnoc(m, m.initial, [], stripe);
    } else {
      StripesSnoc(m, m.initial, StripePart(init), stripe);
    }
  }

  /**
   * After `n < 2^32` adds the length is `n`, the queue holds the lanes after the
   * last whole stripe, and (from the first whole stripe on) the lanes hold
   * every whole stripe rounded in.
   */
  lemma {:induction false} AbsorbShape(m: Mixer, codes: seq<HashCode>)
    requires |codes| < UIntRange
    ensures Shaped(m, Absorb(m, codes), codes)
  {
    var n := |codes|;
    if n > 0 {
      var init, x := codes[..n - 1], codes[n - 1];
      assert codes == init + [x];
      AbsorbShape(m, init);
      assert Absorb(m, codes) == AddCode(m, Absorb(m, init), x);
      if |init| % 4 < 3 {
        ShapedQueues(m, Absorb(m, init), init, x);
      } else {
        ShapedRounds(m, Absorb(m, init), init, x);
      }
    }
  }

  /** The incremental hasher computes xxHash32 of the hash codes added to it. */
  lemma {:induction false} FinishIsXXH32(m: Mixer, codes: seq<HashCode>)
    ensures |codes| < UIntRange ==> Finish(m, Absorb(m, codes)) == XXH32(m, codes)
  {
    if |codes| < UIntRange {
      var s := Absorb(m, codes);
      AbsorbShape(m, codes);
      var hash := m.addLength(if s.length < 4 then m.empty else m.mixState(s.lanes), s.length);
      assert hash == m.addLength(Converged(m, codes), |codes|);
      MixQueueIsRemaining(m, hash, s);
    }
  }

  // ---------------------------------------------------------------------------
  // The static `Create` overloads.
  // ---------------------------------------------------------------------------

  /** xxHash32 of fewer than four lanes: the empty state, the length, then a queue round per lane. */
  lemma XXH32Short(m: Mixer, words: seq<bv32>)
    requires |words| < 4
    ensures XXH32(m, words) == m.mixFinal(Remaining(m, m.addLength(m.empty, |words|), words))
  {
    assert TailPart(words) == words;
  }

  /** xxHash32 of four to seven lanes: one stripe, the length, then a queue round per lane left. */
  lemma XXH32OneStripe(m: Mixer, words: seq<bv32>)
    requires 4 <= |words| < 8
    ensures XXH32(m, words) == m.mixFinal(Remaining(m, m.addLength(m.mixState(RoundLanes(m, m.initial, words)), |words|), words[4..]))
  {
    var stripe := words[..4];
    assert StripePart(words) == stripe;
    assert stripe[4..] == [];
    assert RoundLanes(m, m.initial, stripe) == RoundLanes(m, m.initial, words);
    assert Stripes(m, m.initial, stripe) == Stripes(m, RoundLanes(m, m.initial, stripe), []);
    assert Converged(m, words) == m.mixState(RoundLanes(m, m.initial, words));
    assert TailPart(words) == words[4..];
  }

  /** xxHash32 of eight lanes: two stripes and the length. */
  lemma XXH32TwoStripes(m: Mixer, words: seq<bv32>)
    requires |words| == 8
    ensures XXH32(m, words) == m.mixFinal(m.addLength(m.mixState(RoundLanes(m, RoundLanes(m, m.initial, words), words[4..])), 8))
  {
    var first := RoundLanes(m, m.initial, words);
    assert StripePart(words) == words;
    assert words[4..][4..] == [];
    assert Stripes(m, m.initial, words) == Stripes(m, first, words[4..]);
    assert Stripes(m, first, words[4..]) == Stripes(m, RoundLanes(m, first, words[4..]), []);
    assert TailPart(words) == [];
  }

  /** `Create(value1)`. */
  function Create1(m: Mixer, value1: Option<HashCode>): HashCode
  {
    var hc1 := CodeOf(value1);
    var hash := m.addLength(m.empty, 1);
    m.mixFinal(m.queueRound(hash, hc1))
  }

  function Create2(m: Mixer, value1: Option<HashCode>, value2: Option<HashCode>): HashCode
  {
    var hc1, hc2 := CodeOf(value1), CodeOf(value2);
    var hash := m.addLength(m.empty, 2);
    m.mixFinal(m.queueRound(m.queueRound(hash, hc1), hc2))
  }

  function Create3(m: Mixer, value1: Option<HashCode>, value2: Option<HashCode>, value3: Option<HashCode>): HashCode
  {
    var hc1, hc2, hc3 := CodeOf(value1), CodeOf(value2), CodeOf(value3);
    var hash := m.addLength(m.empty, 3);
    m.mixFinal(m.queueRound(m.queueRound(m.queueRound(hash, hc1), hc2), hc3))
  }

  function Create4(m: Mixer, value1: Option<HashCode>, value2: Option<HashCode>, value3: Option<HashCode>, value4: Option<HashCode>): HashCode
  {
    var hc1, hc2, hc3, hc4 := CodeOf(value1), CodeOf(value2), CodeOf(value3), CodeOf(value4);
    var v := m.initial;
    var v := Lanes(m.round(v.v1, hc1), m.round(v.v2, hc2), m.round(v.v3, hc3), m.round(v.v4, hc4));
    var hash := m.addLength(m.mixState(v), 4);
    m.mixFinal(hash)
  }

  function Create5(m: Mixer, value1: Option<HashCode>, value2: Option<HashCode>, value3: Option<HashCode>, value4: Option<HashCode>,
                   value5: Option<HashCode>): HashCode
  {
    var hc1, hc2, hc3, hc4, hc5 := CodeOf(value1), CodeOf(value2), CodeOf(value3), CodeOf(value4), CodeOf(value5);
    var v := m.initial;
    var v := Lanes(m.round(v.v1, hc1), m.round(v.v2, hc2), m.round(v.v3, hc3), m.round(v.v4, hc4));
    var hash := m.addLength(m.mixState(v), 5);
    m.mixFinal(m.queueRound(hash, hc5))
  }

  function Create6(m: Mixer, value1: Option<HashCode>, value2: Option<HashCode>, value3: Option<HashCode>, value4: Option<HashCode>,
                   value5: Option<HashCode>, value6: Option<HashCode>): HashCode
  {
    var hc1, hc2, hc3, hc4 := CodeOf(value1), CodeOf(value2), CodeOf(value3), CodeOf(value4);
    var hc5, hc6 := CodeOf(value5), CodeOf(value6);
    var v := m.initial;
    var v := Lanes(m.round(v.v1, hc1), m.round(v.v2, hc2), m.round(v.v3, hc3), m.round(v.v4, hc4));
    var hash := m.addLength(m.mixState(v), 6);
    m.mixFinal(m.queueRound(m.queueRound(hash, hc5), hc6))
  }

  function Create7(m: Mixer, value1: Option<HashCode>, value2: Option<HashCode>, value3: Option<HashCode>, value4: Option<HashCode>,
                   value5: Option<HashCode>, value6: Option<HashCode>, value7: Option<HashCode>): HashCode
  {
    var hc1, hc2, hc3, hc4 := CodeOf(value1), CodeOf(value2), CodeOf(value3), CodeOf(value4);
    var hc5, hc6, hc7 := CodeOf(value5), CodeOf(value6), CodeOf(value7);
    var v := m.initial;
    var v := Lanes(m.round(v.v1, hc1), m.round(v.v2, hc2), m.round(v.v3, hc3), m.round(v.v4, hc4));
    var hash := m.addLength(m.mixState(v), 7);
    m.mixFinal(m.queueRound(m.queueRound(m.queueRound(hash, hc5), hc6), hc7))
  }

  function Create8(m: Mixer, value1: Option<HashCode>, value2: Option<HashCode>, value3: Option<HashCode>, value4: Option<HashCode>,
                   value5: Option<HashCode>, value6: Option<HashCode>, value7: Option<HashCode>, value8: Option<HashCode>): HashCode
  {
    var hc1, hc2, hc3, hc4 := CodeOf(value1), CodeOf(value2), CodeOf(value3), CodeOf(value4);
    var hc5, hc6, hc7, hc8 := CodeOf(value5), CodeOf(value6), CodeOf(value7), CodeOf(value8);
    var v := m.initial;
    var v := Lanes(m.round(v.v1, hc1), m.round(v.v2, hc2), m.round(v.v3, hc3), m.round(v.v4, hc4));
    var v := Lanes(m.round(v.v1, hc5), m.round(v.v2, hc6), m.round(v.v3, hc7), m.round(v.v4, hc8));
    var hash := m.addLength(m.mixState(v), 8);
    m.mixFinal(hash)
  }

  /** Step 5 over one, two or three lanes, unrolled. */
  lemma RemainingUnrolled(m: Mixer, acc: bv32, w: seq<bv32>)
    ensures |w| == 1 ==> Remaining(m, acc, w) == m.queueRound(acc, w[0])
    ensures |w| == 2 ==> Remaining(m, acc, w) == m.queueRound(m.queueRound(acc, w[0]), w[1])
    ensures |w| == 3 ==> Remaining(m, acc, w) == m.queueRound(m.queueRound(m.queueRound(acc, w[0]), w[1]), w[2])
  {
    if 1 <= |w| <= 3 {
      var qa := m.queueRound(acc, w[0]);
      assert Remaining(m, acc, w) == Remaining(m, qa, w[1..]);
      if |w| >= 2 {
        var qb := m.queueRound(qa, w[1]);
        assert Remaining(m, qa, w[1..]) == Remaining(m, qb, w[2..]);
        if |w| == 3 {
          assert Remaining(m, qb, w[2..]) == Remaining(m, m.queueRound(qb, w[2]), w[3..]);
        }
      }
    }
  }

  /**
   * `Create` of `k` values (one to eight) is xxHash32 of their hash codes, and so
   * what a fresh hasher returns after adding them.
   */
  lemma Create1IsXXH32(m: Mixer, values: seq<Option<HashCode>>)
    requires |values| == 1
    ensures Create1(m, values[0]) == XXH32(m, CodesOf(values)) == Finish(m, Absorb(m, CodesOf(values)))
  {
    var codes := CodesOf(values);
    XXH32Short(m, codes);
    RemainingUnrolled(m, m.addLength(m.empty, 1), codes);
    FinishIsXXH32(m, codes);
  }

  lemma Create2IsXXH32(m: Mixer, values: seq<Option<HashCode>>)
    requires |values| == 2
    ensures Create2(m, values[0], values[1]) == XXH32(m, CodesOf(values)) == Finish(m, Absorb(m, CodesOf(values)))
  {
    var codes := CodesOf(values);
    XXH32Short(m, codes);
    RemainingUnrolled(m, m.addLength(m.empty, 2), codes);
    FinishIsXXH32(m, codes);
  }

  lemma Create3IsXXH32(m: Mixer, values: seq<Option<HashCode>>)
    requires |values| == 3
    ensures Create3(m, values[0], values[1], values[2]) == XXH32(m, CodesOf(values)) == Finish(m, Absorb(m, CodesOf(values)))
  {
    var codes := CodesOf(values);
    XXH32Short(m, codes);
    RemainingUnrolled(m, m.addLength(m.empty, 3), codes);
    FinishIsXXH32(m, codes);
  }

  lemma Create4IsXXH32(m: Mixer, values: seq<Option<HashCode>>)
    requires |values| == 4
    ensures Create4(m, values[0], values[1], values[2], values[3]) == XXH32(m, CodesOf(values)) == Finish(m, Absorb(m, CodesOf(values)))
  {
    var codes := CodesOf(values);
    XXH32OneStripe(m, codes);
    assert codes[4..] == [];
    FinishIsXXH32(m, codes);
  }

  lemma Create5IsXXH32(m: Mixer, values: seq<Option<HashCode>>)
    requires |values| == 5
    ensures Create5(m, values[0], values[1], values[2], values[3], values[4]) == XXH32(m, CodesOf(values)) == Finish(m, Absorb(m, CodesOf(values)))
  {
    var codes := CodesOf(values);
    XXH32OneStripe(m, codes);
    RemainingUnrolled(m, m.addLength(m.mixState(RoundLanes(m, m.initial, codes)), 5), codes[4..]);
    FinishIsXXH32(m, codes);
  }

  lemma Create6IsXXH32(m: Mixer, values: seq<Option<HashCode>>)
    requires |values| == 6
    ensures Create6(m, values[0], values[1], values[2], values[3], values[4], values[5]) == XXH32(m, CodesOf(values)) == Finish(m, Absorb(m, CodesOf(values)))
  {
    var codes := CodesOf(values);
    XXH32OneStripe(m, codes);
    RemainingUnrolled(m, m.addLength(m.mixState(RoundLanes(m, m.initial, codes)), 6), codes[4..]);
    FinishIsXXH32(m, codes);
  }

  lemma Create7IsXXH32(m: Mixer, values: seq<Option<HashCode>>)
    requires |values| == 7
    ensures Create7(m, values[0], values[1], values[2], values[3], values[4], values[5], values[6]) == XXH32(m, CodesOf(values)) == Finish(m, Absorb(m, CodesOf(values)))
  {
    var codes := CodesOf(values);
    XXH32OneStripe(m, codes);
    RemainingUnrolled(m, m.addLength(m.mixState(RoundLanes(m, m.initial, codes)), 7), codes[4..]);
    FinishIsXXH32(m, codes);
  }

  lemma Create8IsXXH32(m: Mixer, values: seq<Option<HashCode>>)
    requires |values| == 8
    ensures Create8(m, values[0], values[1], values[2], values[3], values[4], values[5], values[6], values[7]) == XXH32(m, CodesOf(values)) == Finish(m, Absorb(m, CodesOf(values)))
  {
    var codes := CodesOf(values);
    XXH32TwoStripes(m, codes);
    FinishIsXXH32(m, codes);
  }

  lemma CodesOfSnoc(values: seq<Option<HashCode>>, i: nat)
    requires i < |values|
    ensures CodesOf(values[..i + 1]) == CodesOf(values[..i]) + [CodeOf(values[i])]
  {
    assert values[..i + 1][..i] == values[..i];
  }

  lemma CodesWithSnoc<T>(values: seq<Option<T>>, ownHash: T -> HashCode, comparer: Option<T -> HashCode>, i: nat)
    requires i < |values|
    ensures CodesWith(values[..i + 1], ownHash, comparer) == CodesWith(values[..i], ownHash, comparer) + [CodeWith(values[i], ownHash, comparer)]
  {
    assert values[..i + 1][..i] == values[..i];
  }

  lemma AbsorbSnoc(m: Mixer, codes: seq<HashCode>, x: HashCode)
    ensures Absorb(m, codes + [x]) == AddCode(m, Absorb(m, codes), x)
  {
    assert (codes + [x])[..|codes|] == codes;
  }

  /** `EmptyHashCode`: what a fresh hasher returns, xxHash32 of nothing. */
  function EmptyHashCode(m: Mixer): (r: HashCode)
    ensures r == XXH32(m, [])
  {
    FinishIsXXH32(m, []);
    Finish(m, Fresh)
  }

  // ---------------------------------------------------------------------------
  // The `Hasher` struct itself.
  // ---------------------------------------------------------------------------

  /**
   * A hasher: the four lanes, the three queue slots and the `uint` count of
   * values added.  `added` records, for the proofs, the hash codes added so far.
   */
  class Hasher {
    const seed: bv32
    /** The source's mixing steps under `seed`. */
    const mixer: Mixer
    var v1: bv32
    var v2: bv32
    var v3: bv32
    var v4: bv32
    var queue1: bv32
    var queue2: bv32
    var queue3: bv32
    var length: nat
    ghost var added: seq<HashCode>

    function State(): HashState
      reads this
    {
      HashState(Lanes(v1, v2, v3, v4), queue1, queue2, queue3, length)
    }

    /** The fields are those of a fresh hasher after adding `added`, one by one. */
    ghost predicate Valid()
      reads this
    {
      length < UIntRange && State() == Absorb(mixer, added)
    }

    /** `new Hasher()`, with the global seed. */
    constructor(seed: bv32)
      ensures Valid() && this.seed == seed && mixer == XxHash32(seed) && added == []
      ensures State() == Fresh
    {
      this.seed := seed;
      mixer := XxHash32(seed);
      v1, v2, v3, v4 := 0, 0, 0, 0;
      queue1, queue2, queue3 := 0, 0, 0;
      length := 0;
      added := [];
    }

    method AddHashCode(value: HashCode)
      requires Valid()
      modifies this
      ensures Valid() && added == old(added) + [value]
      ensures State() == AddCode(mixer, old(State()), value)
    {
      AbsorbSnoc(mixer, added, value);
      added := added + [value];
      UpdateFields(value);
    }

    /** The field updates of `AddHashCode`. */
    method UpdateFields(value: HashCode)
      requires length < UIntRange
      modifies `v1, `v2, `v3, `v4, `queue1, `queue2, `queue3, `length
      ensures State() == AddCode(mixer, old(State()), value)
    {
      var previousLength := length;
      length := Increment(length);
      var position := previousLength % 4;
      if position == 0 {
        queue1 := value;
      } else if position == 1 {
        queue2 := value;
      } else if position == 2 {
        queue3 := value;
      } else {
        if previousLength == 3 {
          v1, v2, v3, v4 := mixer.initial.v1, mixer.initial.v2, mixer.initial.v3, mixer.initial.v4;
        }
        v1 := mixer.round(v1, queue1);
        v2 := mixer.round(v2, queue2);
        v3 := mixer.round(v3, queue3);
        v4 := mixer.round(v4, value);
      }
    }

    /** `Add<T>(value)`: a null value adds hash code 0. */
    method Add(value: Option<HashCode>)
      requires Valid()
      modifies this
      ensures Valid() && added == old(added) + [CodeOf(value)]
    {
      AddHashCode(CodeOf(value));
    }

    /** `Add<T>(value, comparer)`. */
    method AddWith<T>(value: Option<T>, ownHash: T -> HashCode, comparer: Option<T -> HashCode>)
      requires Valid()
      modifies this
      ensures Valid() && added == old(added) + [CodeWith(value, ownHash, comparer)]
    {
      AddHashCode(CodeWith(value, ownHash, comparer));
    }

    /** `AddAll(values)`: a null collection adds nothing, otherwise each value in order. */
    method AddAll(values: Option<seq<Option<HashCode>>>)
      requires Valid()
      modifies this
      ensures Valid() && added == old(added) + (if values.None? then [] else CodesOf(values.value))
    {
      if values.Some? {
        var items := values.value;
        for i := 0 to |items|
          invariant Valid() && added == old(added) + CodesOf(items[..i])
        {
          CodesOfSnoc(items, i);
          Add(items[i]);
        }
        assert items[..|items|] == items;
      }
    }

    /** `ToHashCode`: reads the fields and changes nothing; below 2^32 values it is xxHash32 of them. */
    function ToHashCode(): (r: HashCode)
      reads this
      requires Valid()
      ensures |added| < UIntRange ==> r == XXH32(mixer, added)
    {
      FinishIsXXH32(mixer, added);
      Finish(mixer, State())
    }
  }

  // ---------------------------------------------------------------------------
  // The static `Create` overloads over collections.
  // ---------------------------------------------------------------------------

  /**
   * `Create<T>(ReadOnlySpan<T>)`: up to eight values go through the fixed-arity
   * overloads, more through a fresh hasher; either way the result is xxHash32 of
   * the values' hash codes.
   */
  method CreateSpan(seed: bv32, values: seq<Option<HashCode>>) returns (r: HashCode)
    ensures |values| < UIntRange ==> r == XXH32(XxHash32(seed), CodesOf(values))
  {
    if |values| <= 8 {
      r := CreateFixed(XxHash32(seed), values);
    } else {
      r := CreateEnumerable(seed, Some(values));
    }
  }

  /** The `switch` of the span overload over its fixed-arity cases. */
  method CreateFixed(m: Mixer, values: seq<Option<HashCode>>) returns (r: HashCode)
    requires |values| <= 8
    ensures r == XXH32(m, CodesOf(values))
  {
    match |values|
    case 0 =>
      r := EmptyHashCode(m);
    case 1 =>
      Create1IsXXH32(m, values);
      r := Create1(m, values[0]);
    case 2 =>
      Create2IsXXH32(m, values);
      r := Create2(m, values[0], values[1]);
    case 3 =>
      Create3IsXXH32(m, values);
      r := Create3(m, values[0], values[1], values[2]);
    case 4 =>
      Create4IsXXH32(m, values);
      r := Create4(m, values[0], values[1], values[2], values[3]);
    case 5 =>
      Create5IsXXH32(m, values);
      r := Create5(m, values[0], values[1], values[2], values[3], values[4]);
    case 6 =>
      Create6IsXXH32(m, values);
      r := Create6(m, values[0], values[1], values[2], values[3], values[4], values[5]);
    case 7 =>
      Create7IsXXH32(m, values);
      r := Create7(m, values[0], values[1], values[2], values[3], values[4], values[5], values[6]);
    case 8 =>
      Create8IsXXH32(m, values);
      r := Create8(m, values[0], values[1], values[2], values[3], values[4], values[5], values[6], values[7]);
  }


  /** `Create<T>(params T?[]?)`: a null array hashes to 0, otherwise as the span overload. */
  method CreateArray(seed: bv32, values: Option<seq<Option<HashCode>>>) returns (r: HashCode)
    ensures values.None? ==> r == 0
    ensures values.Some? && |values.value| < UIntRange ==> r == XXH32(XxHash32(seed), CodesOf(values.value))
  {
    if values.None? {
      return 0;
    }
    r := CreateSpan(seed, values.value);
  }

  /**
   * `Create<T>(IEnumerable<T>?)`: a null collection hashes to 0, otherwise a
   * fresh hasher adds every value in order.
   */
  method CreateEnumerable(seed: bv32, values: Option<seq<Option<HashCode>>>) returns (r: HashCode)
    ensures values.None? ==> r == 0
    ensures values.Some? && |values.value| < UIntRange ==> r == XXH32(XxHash32(seed), CodesOf(values.value))
  {
    if values.None? {
      return 0;
    }
    var items := values.value;
    var hasher := new Hasher(seed);
    for i := 0 to |items|
      invariant hasher.Valid() && hasher.mixer == XxHash32(seed) && hasher.added == CodesOf(items[..i])
    {
      CodesOfSnoc(items, i);
      hasher.Add(items[i]);
    }
    assert items[..|items|] == items;
    r := hasher.ToHashCode();
  }

  /**
   * `Create<T>(ReadOnlySpan<T>, comparer)`: a fresh hasher adds every value
   * through the comparer (or the value's own hash code when there is none).
   */
  method CreateSpanWith<T>(seed: bv32, values: seq<Option<T>>, ownHash: T -> HashCode, comparer: Option<T -> HashCode>)
    returns (r: HashCode)
    ensures |values| < UIntRange ==> r == XXH32(XxHash32(seed), CodesWith(values, ownHash, comparer))
  {
    var hasher := new Hasher(seed);
    for i := 0 to |values|
      invariant hasher.Valid() && hasher.mixer == XxHash32(seed) && hasher.added == CodesWith(values[..i], ownHash, comparer)
    {
      CodesWithSnoc(values, ownHash, comparer, i);
      hasher.AddWith(values[i], ownHash, comparer);
    }
    assert values[..|values|] == values;
    r := hasher.ToHashCode();
  }

  /**
   * `Create<T>(T[]?, comparer)` and `Create<T>(IEnumerable<T>?, comparer)`: a
   * null collection hashes to 0, otherwise as the span overload with a comparer.
   */
  method CreateWith<T>(seed: bv32, values: Option<seq<Option<T>>>, ownHash: T -> HashCode, comparer: Option<T -> HashCode>)
    returns (r: HashCode)
    ensures values.None? ==> r == 0
    ensures values.Some? && |values.value| < UIntRange ==> r == XXH32(XxHash32(seed), CodesWith(values.value, ownHash, comparer))
  {
    if values.None? {
      return 0;
    }
    r := CreateSpanWith(seed, values.value, ownHash, comparer);
  }
}
