/**
 base/rand_util.cc: numbers below a bound, and integers in a range, from 64-bit draws.

 The source of randomness is a sequence of draws about which nothing is assumed; a sequence
 may run out before a draw is accepted.
 */
module RandUtil {
  import opened Wrappers

  const TWO_31: int := 0x8000_0000
  const TWO_32: int := 0x1_0000_0000
  const TWO_64: int := 0x1_0000_0000_0000_0000
  const MAX_UINT64: int := TWO_64 - 1

  type UInt64 = n: int | 0 <= n < 0x1_0000_0000_0000_0000
  type Range = n: int | 0 < n < 0x1_0000_0000_0000_0000 witness 1
  type Int32 = n: int | -0x8000_0000 <= n < 0x8000_0000

  function MaxAcceptable(range: Range): int {
    MAX_UINT64 / range * range - 1
  }

  predicate Accepted(range: Range, v: UInt64) {
    v <= MaxAcceptable(range)
  }

  function Residue(range: Range, v: UInt64): int {
    v % range
  }

  /** What becomes of a sequence of draws: the number of rejected ones, and the result. */
  function Outcome(range: Range, draws: seq<UInt64>): (nat, Option<int>) {
    if draws == [] then (0, None)
    else if Accepted(range, draws[0]) then (0, Some(Residue(range, draws[0])))
    else
      var (rejected, result) := Outcome(range, draws[1..]);
      (rejected + 1, result)
  }

  method RandGenerator(range: Range, draws: seq<UInt64>) returns (result: Option<int>, used: nat)
    ensures used <= |draws|
    ensures result.Some? ==> used > 0 && 0 <= result.value < range && result.value == Residue(range, draws[used - 1])
    ensures result.Some? ==> Accepted(range, draws[used - 1])
    ensures forall i :: 0 <= i < (if result.Some? then used - 1 else used) ==> !Accepted(range, draws[i])
    ensures result.None? ==> used == |draws|
    ensures Outcome(range, draws) == (if result.Some? then used - 1 else used, result)
  {
    var maxAcceptableValue := MAX_UINT64 / range * range - 1;
    used := 0;
    assert draws[0..] == draws;
    while used < |draws|
      invariant used <= |draws| && forall i :: 0 <= i < used ==> !Accepted(range, draws[i])
      invariant Outcome(range, draws) == (used + Outcome(range, draws[used..]).0, Outcome(range, draws[used..]).1)
    {
      assert draws[used..][1..] == draws[used + 1..];
      var value := draws[used];
      used := used + 1;
      if value <= maxAcceptableValue {
        return Some(value % range), used;
      }
    }
    result := None;
  }

  // ----- uniformity -----

  /** The draws below a bound that give this result. */
  ghost function Preimages(range: Range, result: int, bound: nat): set<int> {
    set v | 0 <= v < bound && v % range == result
  }

  lemma {:induction false} CountPreimages(range: Range, result: int, periods: nat)
    requires 0 <= result < range
    ensures |Preimages(range, result, periods * range)| == periods
  {
    if periods == 0 {
      assert Preimages(range, result, 0) == {};
    } else {
      CountPreimages(range, result, periods - 1);
      var below, next := (periods - 1) * range, (periods - 1) * range + result;
      NextPeriod(range, result, periods - 1);
      assert Preimages(range, result, periods * range) == Preimages(range, result, below) + {next};
    }
  }

  lemma NextPeriod(range: Range, result: int, k: nat)
    requires 0 <= result < range
    ensures k * range <= k * range + result < (k + 1) * range
    ensures forall v :: k * range <= v < (k + 1) * range ==> (v % range == result <==> v == k * range + result)
  {
    forall v | k * range <= v < (k + 1) * range ensures v % range == v - k * range {
      Remainder(v, range, k);
    }
  }

  lemma Remainder(v: int, range: int, k: int)
    requires range > 0 && k * range <= v < (k + 1) * range
    ensures v % range == v - k * range
  {
    var q := v / range;
    if q < k {
      Multiples(q + 1, k, range);
      assert false;
    } else if q > k {
      Multiples(k + 1, q, range);
      assert false;
    }
  }

  lemma Multiples(a: int, b: int, range: int)
    requires a <= b && range > 0
    ensures a * range <= b * range
  {
  }

  /** At least half of all draws are accepted, and each result has as many accepted draws as any other. */
  lemma AcceptanceIsUniform(range: Range, result: int)
    requires 0 <= result < range
    ensures |set v | 0 <= v < TWO_64 && Accepted(range, v) && v % range == result| == MAX_UINT64 / range
    ensures 2 * (MaxAcceptable(range) + 1) >= TWO_64
    ensures 2 * (MaxAcceptable(range) + 1) == TWO_64 <==> range == TWO_64 / 2
  {
    var periods := MAX_UINT64 / range;
    CountPreimages(range, result, periods);
    assert (set v | 0 <= v < TWO_64 && Accepted(range, v) && v % range == result) == Preimages(range, result, periods * range);
    HalfAccepted(range);
  }

  lemma HalfAccepted(range: Range)
    ensures 2 * (MAX_UINT64 / range * range) >= TWO_64
    ensures 2 * (MAX_UINT64 / range * range) == TWO_64 <==> range == TWO_64 / 2
  {
    var periods := MAX_UINT64 / range;
    assert MAX_UINT64 - range < periods * range;
    if range >= TWO_64 / 2 {
      assert periods == 1;
    }
  }

  /** The draws with the accepted one moved to another residue of the same period. */
  function Retargeted(range: Range, draws: seq<UInt64>, result: int): seq<UInt64>
    requires 0 <= result < range
  {
    if draws == [] then []
    else if Accepted(range, draws[0]) then
      SamePeriod(range, draws[0], result);
      [draws[0] - draws[0] % range + result] + draws[1..]
    else [draws[0]] + Retargeted(range, draws[1..], result)
  }

  lemma SamePeriod(range: Range, v: UInt64, result: int)
    requires Accepted(range, v) && 0 <= result < range
    ensures 0 <= v - v % range + result <= MaxAcceptable(range)
    ensures (v - v % range + result) % range == result
  {
    var k, periods := v / range, MAX_UINT64 / range;
    assert v - v % range == k * range;
    if k >= periods {
      Multiples(periods, k, range);
      assert false;
    }
    Multiples(k + 1, periods, range);
    Remainder(k * range + result, range, k);
  }

  /**
   Whatever the draws, moving the accepted one gives draws that yield the other result after
   as many rejections, and moving it back restores them: of all sequences of draws of a given
   length, equally many yield each result.
   */
  lemma {:induction false} ResultsAreEquallyLikely(range: Range, draws: seq<UInt64>, result: int)
    requires Outcome(range, draws).1.Some? && 0 <= result < range
    ensures var was, moved := Outcome(range, draws), Retargeted(range, draws, result);
      && |moved| == |draws| && Outcome(range, moved) == (was.0, Some(result))
      && 0 <= was.1.value < range && Retargeted(range, moved, was.1.value) == draws
  {
    if Accepted(range, draws[0]) {
      SamePeriod(range, draws[0], result);
    } else {
      ResultsAreEquallyLikely(range, draws[1..], result);
      assert Retargeted(range, draws, result)[1..] == Retargeted(range, draws[1..], result);
    }
  }

  // ----- RandInt -----

  function Wrap32(n: int): Int32 {
    (n + TWO_31) % TWO_32 - TWO_31
  }

  /** static_cast<uint64>(max) - min + 1: both operands are taken modulo 2^64. */
  function RangeOf(min: Int32, max: Int32): int {
    (max % TWO_64 - min % TWO_64 + 1) % TWO_64
  }

  /** min + static_cast<int>(generated), added in 32 bits. */
  function Shifted(min: Int32, generated: int): Int32 {
    Wrap32(min + Wrap32(generated))
  }

  lemma RangeIsCount(min: Int32, max: Int32)
    requires min <= max
    ensures RangeOf(min, max) == max - min + 1
  {
  }

  /** The generator's outputs go one to one onto [min, max]. */
  lemma RandIntIsOneToOne(min: Int32, max: Int32, generated: int, n: int)
    requires min <= max
    ensures 0 <= generated < RangeOf(min, max) && n == Shifted(min, generated) <==> min <= n <= max && generated == n - min
  {
    RangeIsCount(min, max);
    if 0 <= generated < RangeOf(min, max) {
      ShiftedBack(min, min + generated);
    }
    if min <= n <= max {
      ShiftedBack(min, n);
    }
    hide RangeOf, Shifted;
  }

  lemma ShiftedBack(min: Int32, n: Int32)
    requires min <= n
    ensures Shifted(min, n - min) == n
  {
  }

  /** The sum in RandInt leaves 32 bits, and wraps back, exactly when the generated number does not fit an int. */
  lemma SumFitsIff(min: Int32, max: Int32, generated: int)
    requires min <= max && 0 <= generated < RangeOf(min, max)
    ensures -TWO_31 <= min + Wrap32(generated) < TWO_31 <==> generated < TWO_31
  {
    RangeIsCount(min, max);
    hide RangeOf;
    assert Wrap32(generated) == if generated < TWO_31 then generated else generated - TWO_32;
  }

  method RandInt(min: Int32, max: Int32, draws: seq<UInt64>) returns (result: Option<Int32>)
    requires min <= max
    ensures result.Some? ==> min <= result.value <= max
    ensures Outcome(max - min + 1, draws).1 == if result.None? then None else Some(result.value - min)
  {
    RangeIsCount(min, max);
    hide RangeOf, Shifted, Wrap32, Outcome, Accepted, MaxAcceptable, Residue;
    var range: Range := RangeOf(min, max);
    var generated, used := RandGenerator(range, draws);
    if generated.None? {
      return None;
    }
    RandIntIsOneToOne(min, max, generated.value, Shifted(min, generated.value));
    result := Some(Shifted(min, generated.value));
  }
}
