/**
  Chisel's gas estimate: after a successful call, a bisection between the gas it used and three
  times that looks for a limit with which the call still succeeds, and stops early when two
  successful limits differ by less than a tenth.
 */
module GasSearch {
  import opened Wrappers
  import opened Words

  datatype Exit = Success | OutOfGas | OtherHalt

  /** What a call yields under a gas limit; `Broken` is an error of the executor itself.
      Reverts and missing funds count as running out of gas. */
  datatype Outcome = Finished(exit: Exit, gasUsed: nat) | Broken

  /** What the runner reports; `Overflow` when its unchecked arithmetic leaves 64 bits. */
  datatype Report = Gas(gas: nat) | ExecutorError | Overflow

  /** Successive successful limits `low < high` are close enough. */
  predicate CloseEnough(low: nat, high: nat)
    requires low <= high && 0 < high
  {
    (high - low) * 10 / high < 1
  }

  /* ---------- The search by itself ---------- */

  /** The limit the search stops at early, for a call that succeeds from `threshold` on; `None`
      when the range closes first. */
  function Bisect(low: nat, high: nat, threshold: nat): Option<nat>
    requires low <= high
    decreases high - low
  {
    if high - low <= 1 then None
    else
      var mid := (high + low) / 2;
      if mid < threshold then Bisect(mid, high, threshold)
      else if CloseEnough(mid, high) then Some(mid)
      else Bisect(low, mid, threshold)
  }

  /** When the range closes without an early stop, the gas of the first run is reported. */
  function Estimate(gas: nat, threshold: nat): nat {
    match Bisect(gas, 3 * gas, threshold)
    case Some(limit) => limit
    case None => gas
  }

  lemma CloseWhenNear(low: nat, high: nat)
    requires low <= high && 0 < high
    ensures CloseEnough(low, high) <==> (high - low) * 10 < high
  {
  }

  /** An early stop is at a limit that suffices, and exceeds the least one that does by less
      than a ninth of itself. */
  lemma {:induction false} EarlyStopBound(low: nat, high: nat, threshold: nat)
    requires low <= high && low <= threshold
    ensures Bisect(low, high, threshold).Some? ==>
      var m := Bisect(low, high, threshold).value;
      threshold <= m <= high && (m - threshold) * 9 < m
    decreases high - low
  {
    if high - low > 1 {
      var mid := (high + low) / 2;
      if mid < threshold {
        EarlyStopBound(mid, high, threshold);
      } else if CloseEnough(mid, high) {
        CloseWhenNear(mid, high);
        assert mid - threshold <= mid - low <= high - mid;
      } else {
        EarlyStopBound(low, mid, threshold);
      }
    }
  }

  /** The thresholds between `low` and `high` for which the search never stops early. They do
      not depend on the call. */
  function Blind(low: nat, high: nat): set<nat>
    requires low <= high
    decreases high - low
  {
    if low == high then {}
    else if high - low == 1 then {high}
    else
      var mid := (high + low) / 2;
      Blind(mid, high) + (if CloseEnough(mid, high) then {} else Blind(low, mid))
  }

  lemma {:induction false} BlindRange(low: nat, high: nat)
    requires low <= high
    ensures forall t :: t in Blind(low, high) ==> low < t <= high
    decreases high - low
  {
    if high - low > 1 {
      var mid := (high + low) / 2;
      BlindRange(mid, high);
      BlindRange(low, mid);
    }
  }

  lemma {:induction false} BlindExactly(low: nat, high: nat, threshold: nat)
    requires low < threshold <= high
    ensures Bisect(low, high, threshold).None? <==> threshold in Blind(low, high)
    decreases high - low
  {
    if high - low > 1 {
      var mid := (high + low) / 2;
      BlindRange(mid, high);
      BlindRange(low, mid);
      if mid < threshold {
        BlindExactly(mid, high, threshold);
      } else if !CloseEnough(mid, high) {
        BlindExactly(low, mid, threshold);
      }
    }
  }

  lemma {:induction false} NeverEnough(low: nat, high: nat, threshold: nat)
    requires low <= high <= threshold
    ensures Bisect(low, high, threshold).None?
    decreases high - low
  {
    if high - low > 1 { NeverEnough((high + low) / 2, high, threshold); }
  }

  /** The estimate suffices as a gas limit exactly when the first run's gas does, or the
      threshold is at most three times that gas and not one of the blind ones. */
  lemma EstimateSuffices(gas: nat, threshold: nat)
    requires gas <= threshold
    ensures Estimate(gas, threshold) >= threshold <==>
      threshold == gas || (threshold <= 3 * gas && threshold !in Blind(gas, 3 * gas))
  {
    EarlyStopBound(gas, 3 * gas, threshold);
    if gas < threshold <= 3 * gas {
      BlindExactly(gas, 3 * gas, threshold);
    } else if threshold > 3 * gas {
      NeverEnough(gas, 3 * gas, threshold);
    } else {
      BlindRange(gas, 3 * gas);
    }
  }

  /** A range whose upper half is close enough is blind only at its upper end. */
  lemma {:induction false} NarrowBlind(low: nat, high: nat)
    requires low < high && (high - (high + low) / 2) * 10 < high
    ensures Blind(low, high) == {high}
    decreases high - low
  {
    if high - low > 1 {
      var mid := (high + low) / 2;
      CloseWhenNear(mid, high);
      NarrowBlind(mid, high);
    }
  }

  /** One step of the blind thresholds. */
  lemma BlindSplit(low: nat, mid: nat, high: nat)
    requires low + 1 < high && mid == (high + low) / 2
    ensures Blind(low, high) == Blind(mid, high) + (if (high - mid) * 10 < high then {} else Blind(low, mid))
  {
    CloseWhenNear(mid, high);
  }

  /** The blind thresholds in closed form: six fixed fractions of the gas used, and two more,
      9/4 and 9/8 of it, where rounding makes their halves of the range count as far apart. */
  function Fractions(gas: nat): set<nat> {
    {5 * gas / 4, 3 * gas / 2, 7 * gas / 4, 2 * gas, 5 * gas / 2, 3 * gas}
    + (if (5 * gas / 2 - 9 * gas / 4) * 10 >= 5 * gas / 2 then {9 * gas / 4} else {})
    + (if (5 * gas / 4 - 9 * gas / 8) * 10 >= 5 * gas / 4 then {9 * gas / 8} else {})
  }

  /** From 28 gas on, far below what any transaction costs, the blind thresholds are those. */
  lemma BlindFractions(gas: nat)
    requires gas >= 28
    ensures Blind(gas, 3 * gas) == Fractions(gas)
  {
    BlindSplit(gas, 2 * gas, 3 * gas);
    BlindUpper(gas);
    BlindMiddle(gas);
    BlindLower(gas);
    BlindSplit(gas, 3 * gas / 2, 2 * gas);
  }

  lemma BlindUpper(gas: nat)
    requires gas >= 28
    ensures Blind(2 * gas, 3 * gas) == {5 * gas / 2, 3 * gas}
      + (if (5 * gas / 2 - 9 * gas / 4) * 10 >= 5 * gas / 2 then {9 * gas / 4} else {})
  {
    BlindSplit(2 * gas, 5 * gas / 2, 3 * gas);
    NarrowBlind(5 * gas / 2, 3 * gas);
    BlindSplit(2 * gas, 9 * gas / 4, 5 * gas / 2);
    NarrowBlind(9 * gas / 4, 5 * gas / 2);
    NarrowBlind(2 * gas, 9 * gas / 4);
  }

  lemma BlindMiddle(gas: nat)
    requires gas >= 28
    ensures Blind(3 * gas / 2, 2 * gas) == {7 * gas / 4, 2 * gas}
  {
    BlindSplit(3 * gas / 2, 7 * gas / 4, 2 * gas);
    NarrowBlind(7 * gas / 4, 2 * gas);
    NarrowBlind(3 * gas / 2, 7 * gas / 4);
  }

  lemma BlindLower(gas: nat)
    requires gas >= 28
    ensures Blind(gas, 3 * gas / 2) == {5 * gas / 4, 3 * gas / 2}
      + (if (5 * gas / 4 - 9 * gas / 8) * 10 >= 5 * gas / 4 then {9 * gas / 8} else {})
  {
    var mid, high := 5 * gas / 4, 3 * gas / 2;
    BlindSplit(gas, mid, high);
    NarrowUpper(gas, mid, high);
    BlindLowest(gas, 9 * gas / 8, mid);
  }

  lemma NarrowUpper(gas: nat, mid: nat, high: nat)
    requires gas >= 28 && mid == 5 * gas / 4 && high == 3 * gas / 2
    ensures Blind(mid, high) == {high}
  {
    NarrowBlind(mid, high);
  }

  lemma BlindLowest(low: nat, mid: nat, high: nat)
    requires low >= 28 && mid == 9 * low / 8 && high == 5 * low / 4
    ensures Blind(low, high) == {high} + (if (high - mid) * 10 >= high then {mid} else {})
  {
    BlindSplit(low, mid, high);
    NarrowBlind(mid, high);
    NarrowBlind(low, mid);
  }

  /** `t` is blind in a range whose bisection leads to it without an early stop. */
  lemma BlindInHalf(t: nat, low: nat, mid: nat, high: nat)
    requires low + 1 < high && mid == (high + low) / 2
    requires t in Blind(mid, high) || ((high - mid) * 10 >= high && t in Blind(low, mid))
    ensures t in Blind(low, high)
  {
    BlindSplit(low, mid, high);
  }

  lemma BlindBelowHalf(t: nat, low: nat, mid: nat, high: nat)
    requires low + 1 < high && mid == (high + low) / 2 && mid + 1 < high && t == (high + mid) / 2 && mid < t
    requires (high - t) * 10 >= high && (t - (t + mid) / 2) * 10 < t
    ensures t in Blind(low, high)
  {
    NarrowBlind(mid, t);
    BlindInHalf(t, mid, t, high);
    BlindInHalf(t, low, mid, high);
  }

  /** A gas value four thirds of which are blind without being among the fractions. */
  lemma FourThirdsBlind(gas: nat, t: nat)
    requires 26 < gas < 28 && t == 4 * gas / 3
    ensures t in Blind(gas, 3 * gas) && t !in Fractions(gas)
  {
    var mid := 3 * gas / 2;
    BlindBelowHalf(t, gas, (mid + gas) / 2, mid);
    BlindInHalf(t, gas, mid, 2 * gas);
    BlindInHalf(t, gas, 2 * gas, 3 * gas);
    NoFraction(t, gas);
  }

  lemma NoFraction(t: nat, gas: nat)
    requires 26 < gas < 28 && t == 4 * gas / 3
    ensures t !in Fractions(gas)
  {
  }

  /** Below that the range has further ones: with 27 gas, 36 is blind and not among the fractions. */
  lemma SmallGasDiffers() returns (gas: nat, t: nat)
    ensures gas == 27 && t == 36 && t in Blind(gas, 3 * gas) && t !in Fractions(gas)
  {
    gas :| 26 < gas < 28;
    t := 4 * gas / 3;
    FourThirdsBlind(gas, t);
  }

  /** The estimate as a function of fractions: it suffices exactly when the first run's gas does,
      or the threshold is at most three times that gas and none of the fractions. */
  lemma EstimateSufficesUnlessFraction(gas: nat, threshold: nat)
    requires 28 <= gas <= threshold
    ensures Estimate(gas, threshold) >= threshold <==>
      threshold == gas || (threshold <= 3 * gas && threshold !in Fractions(gas))
  {
    EstimateSuffices(gas, threshold);
    BlindFractions(gas);
  }

  /** A call that needs exactly twice the gas it reports is always estimated at half of that. */
  lemma {:induction false} TwiceIsBlind(gas: nat)
    requires gas > 0
    ensures Estimate(gas, 2 * gas) == gas
  {
    assert (3 * gas + gas) / 2 == 2 * gas;
    CloseWhenNear(2 * gas, 3 * gas);
    NeverEnough(gas, 2 * gas, 2 * gas);
  }

  /* ---------- The runner's code ---------- */

  class Executor {
    var gasLimit: nat

    constructor (gasLimit: nat)
      ensures this.gasLimit == gasLimit
    {
      this.gasLimit := gasLimit;
    }

    /** `run` is the call under a gas limit. The limit is restored on the way out, except when
        the executor breaks during the search or the arithmetic leaves 64 bits: then it stays at
        the limit tried last. */
    method Call(run: nat -> Outcome) returns (report: Report)
      modifies this
      ensures
        var first := run(old(gasLimit));
        if first.Broken? then report == ExecutorError && gasLimit == old(gasLimit)
        else if first.exit != Success then report == Gas(first.gasUsed) && gasLimit == old(gasLimit)
        else
          // with a tenfold margin the search cannot overflow
          && (first.gasUsed * 10 <= U64_MAX ==> report != Overflow)
          && (first.gasUsed * 3 > U64_MAX ==> report == Overflow)
          && (forall threshold :: ThresholdIs(run, first.gasUsed, threshold) ==>
                report == Overflow || report == Gas(Estimate(first.gasUsed, threshold)))
      ensures report.Gas? ==> gasLimit == old(gasLimit)
      ensures report.ExecutorError? ==> run(gasLimit).Broken?
    {
      var first := run(gasLimit);
      if first.Broken? { return ExecutorError; }
      var gasUsed := first.gasUsed;
      if first.exit != Success { return Gas(gasUsed); }
      var initGasLimit := gasLimit;
      var highest := gasUsed * 3;
      if highest > U64_MAX { return Overflow; }
      var lowest := gasUsed;
      var lastHighest := highest;
      while highest - lowest > 1
        invariant gasUsed == first.gasUsed <= lowest <= highest <= 3 * gasUsed <= U64_MAX && lastHighest == highest
        invariant forall threshold :: ThresholdIs(run, gasUsed, threshold) ==>
          Bisect(gasUsed, 3 * gasUsed, threshold) == Bisect(lowest, highest, threshold)
      {
        if highest + lowest > U64_MAX { return Overflow; }
        var mid := (highest + lowest) / 2;
        gasLimit := mid;
        var res := run(mid);
        if res.Broken? { return ExecutorError; }
        if res.exit == OutOfGas {
          lowest := mid;
        } else {
          // the subtraction does not underflow and the divisor is positive
          assert mid <= lastHighest && lastHighest > 0;
          if (lastHighest - mid) * 10 > U64_MAX { return Overflow; }
          if (lastHighest - mid) * 10 / lastHighest < 1 {
            gasLimit := initGasLimit;
            return Gas(mid);
          }
          highest := mid;
          lastHighest := mid;
        }
      }
      gasLimit := initGasLimit;
      return Gas(gasUsed);
    }
  }

  /** Between the gas used and three times it, the call runs out of gas exactly below the
      threshold, and the executor never breaks. */
  ghost predicate ThresholdIs(run: nat -> Outcome, gas: nat, threshold: nat) {
    forall limit: nat :: gas < limit < 3 * gas ==> run(limit).Finished? && (run(limit).exit == OutOfGas <==> limit < threshold)
  }
}
