/**
 * The integer bookkeeping of the training loop: the scheduler's steps per epoch, the gradient
 * accumulation rule that decides on which batches the optimizer steps, the global step counter
 * across epochs, and the epoch label shown in the log.
 */
module Training {
  import opened Wrappers
  import opened Text
  import opened Arith

  function Abs(a: int): nat {
    if a < 0 then -a else a
  }

  /** Python's `a % b`: the remainder takes the sign of the divisor (ZeroDivisionError for 0). */
  function PyMod(a: int, b: int): (r: int)
    requires b != 0
    ensures b > 0 ==> 0 <= r < b
    ensures b < 0 ==> b < r <= 0
    ensures r == 0 <==> a % Abs(b) == 0
    ensures (a - r) % Abs(b) == 0
  {
    var m := Abs(b);
    var e := a % m;
    assert a == m * (a / m) + e;
    if b < 0 && e != 0 then
      assert a - (e - m) == m * (a / m + 1);
      DivUnique(a - (e - m), m, a / m + 1, 0);
      e - m
    else
      DivUnique(a - e, m, a / m, 0);
      e
  }

  /**
   * `max(1, ceil(num_batches / max(1, grad_accum_steps)))`: at least 1, and for a non-empty
   * loader the least `k` with `k * max(1, accum) >= num_batches`.
   */
  function StepsPerEpoch(numBatches: nat, accum: int): (k: nat)
    ensures k >= 1
    ensures numBatches == 0 ==> k == 1
    ensures var a := if accum >= 1 then accum else 1;
      numBatches > 0 ==> (k - 1) * a < numBatches <= k * a
  {
    var a := if accum >= 1 then accum else 1;
    if numBatches == 0 then 1
    else
      CeilDivBounds(numBatches, a);
      (numBatches + a - 1) / a
  }

  /** `ceil(n / a)` for positive `n`: the least `c` with `c * a >= n`, at least 1. */
  lemma CeilDivBounds(n: nat, a: nat)
    requires n >= 1 && a >= 1
    ensures var c := (n + a - 1) / a; c >= 1 && (c - 1) * a < n <= c * a
  {
    DivStep(n, a);
    var q := (n - 1) / a;
    var rem := (n - 1) % a;
    assert n - 1 == a * q + rem && 0 <= rem < a;
    DivUnique(n - 1, a, q, rem);
    assert (q + 1) * a == a * q + a;
    assert q * a == a * q;
  }

  /**
   * The number of batch indices `step` in `1 .. num_batches` with `step % accum == 0`: the
   * optimizer steps `floor(num_batches / |accum|)` times per epoch.
   */
  function OptimizerSteps(numBatches: nat, accum: int): (r: nat)
    requires accum != 0
    ensures r == numBatches / Abs(accum)
  {
    if numBatches == 0 then 0
    else
      DivStep(numBatches, Abs(accum));
      OptimizerSteps(numBatches - 1, accum) + (if PyMod(numBatches, accum) == 0 then 1 else 0)
  }

  /**
   * For a positive accumulation the scheduler is sized for `ceil(n / accum)` steps per epoch but
   * the optimizer takes `floor(n / accum)`: never more, and equally many exactly when `accum`
   * divides a non-zero number of batches. The last `n % accum` batches of an epoch only add
   * gradients that the next epoch's `zero_grad` discards.
   */
  lemma OptimizerStepsWithinSchedule(numBatches: nat, accum: int)
    requires accum >= 1
    ensures OptimizerSteps(numBatches, accum) <= StepsPerEpoch(numBatches, accum)
    ensures OptimizerSteps(numBatches, accum) == StepsPerEpoch(numBatches, accum)
      <==> numBatches > 0 && numBatches % accum == 0
    ensures accum * OptimizerSteps(numBatches, accum) + numBatches % accum == numBatches
  {
    var q := OptimizerSteps(numBatches, accum);
    assert q == numBatches / accum;
    assert accum * q + numBatches % accum == numBatches;
    if numBatches > 0 {
      ScheduleGap(numBatches, accum);
    } else {
      assert StepsPerEpoch(numBatches, accum) == 1 && q == 0;
    }
  }

  /** For a non-empty loader the schedule has one step more than the optimizer unless `accum` divides. */
  lemma ScheduleGap(numBatches: nat, accum: int)
    requires numBatches >= 1 && accum >= 1
    ensures StepsPerEpoch(numBatches, accum)
      == OptimizerSteps(numBatches, accum) + (if numBatches % accum == 0 then 0 else 1)
  {
    DivStep(numBatches, accum);
  }

  /** A negative accumulation is floored to 1 for the schedule but counts as `|accum|` for steps. */
  lemma NegativeAccumulation(numBatches: nat, accum: int)
    requires accum < 0
    ensures StepsPerEpoch(numBatches, accum) == if numBatches >= 1 then numBatches else 1
    ensures OptimizerSteps(numBatches, accum) == numBatches / -accum
  {
  }

  /**
   * One pass over the training loader: after every batch `step` (counted from 1) whose index
   * `step % grad_accum_steps` is 0 the optimizer steps and `global_step` grows by one. A zero
   * accumulation raises ZeroDivisionError at the first batch.
   */
  method RunEpoch(numBatches: nat, accum: int, globalStep: nat) returns (r: Result<nat>)
    ensures r.Failure? <==> accum == 0 && numBatches > 0
    ensures r.Failure? ==> r.error == ZeroDivisionError
    ensures r.Success? && accum != 0 ==> r.value == globalStep + numBatches / Abs(accum)
    ensures r.Success? && accum == 0 ==> r.value == globalStep
  {
    var g := globalStep;
    for step := 1 to numBatches + 1
      invariant accum == 0 ==> step == 1
      invariant accum != 0 ==> g == globalStep + OptimizerSteps(step - 1, accum)
      invariant accum == 0 ==> g == globalStep
    {
      if accum == 0 {
        return Failure(ZeroDivisionError);
      }
      if PyMod(step, accum) == 0 {
        g := g + 1;
      }
    }
    return Success(g);
  }

  /**
   * The epoch loop `for epoch in range(1, epochs + 1)`: `global_step` starts at 0 and ends at
   * `epochs * floor(num_batches / |accum|)` (no epochs run when `epochs < 1`).
   */
  method Train(epochs: int, numBatches: nat, accum: int) returns (r: Result<nat>)
    ensures r.Failure? <==> epochs >= 1 && accum == 0 && numBatches > 0
    ensures r.Failure? ==> r.error == ZeroDivisionError
    ensures r.Success? ==>
      r.value == (if epochs >= 1 then epochs else 0) * (if accum == 0 then 0 else numBatches / Abs(accum))
  {
    var perEpoch := if accum == 0 then 0 else numBatches / Abs(accum);
    var last := if epochs >= 1 then epochs else 0;
    var globalStep := 0;
    for epoch := 1 to last + 1
      invariant globalStep == (epoch - 1) * perEpoch
      invariant accum == 0 && numBatches > 0 ==> epoch == 1
    {
      var outcome := RunEpoch(numBatches, accum, globalStep);
      if outcome.Failure? {
        return Failure(outcome.error);
      }
      assert epoch * perEpoch == (epoch - 1) * perEpoch + perEpoch;
      globalStep := outcome.value;
    }
    return Success(globalStep);
  }

  /** `f"+{epoch}"` after a resume, `f"{epoch:03d}"` otherwise. */
  function EpochLabel(epoch: nat, resumed: bool): (r: string)
    ensures resumed ==> |r| >= 2 && r[0] == '+' && AllDigits(r[1..]) && ParseDecimal(r[1..]) == epoch
    ensures !resumed ==> |r| >= 3 && AllDigits(r) && ParseDecimal(r) == epoch
    ensures resumed ==> |r| == 1 + |Decimal(epoch)|
    ensures !resumed ==> |r| == if |Decimal(epoch)| < 3 then 3 else |Decimal(epoch)|
  {
    if resumed then
      DecimalRoundTrip(epoch);
      assert ("+" + Decimal(epoch))[1..] == Decimal(epoch);
      "+" + Decimal(epoch)
    else
      ZeroPaddedRoundTrip(epoch, 3);
      ZeroPadded(epoch, 3)
  }

  lemma DecimalBelowThousand(n: nat)
    requires n < 1000
    ensures |Decimal(n)| <= 3
  {
    if n >= 10 {
      assert |Decimal(n)| == |Decimal(n / 10)| + 1;
      if n / 10 >= 10 {
        assert |Decimal(n / 10)| == |Decimal(n / 100)| + 1 by {
          assert n / 10 / 10 == n / 100;
        }
      }
    }
  }

  /** Fresh-run labels of the first 999 epochs are exactly three digits wide. */
  lemma EpochLabelWidth(epoch: nat)
    requires epoch < 1000
    ensures |EpochLabel(epoch, false)| == 3
  {
    DecimalBelowThousand(epoch);
  }

  /** Different epochs get different labels, and a resumed label never looks like a fresh one. */
  lemma EpochLabelInjective(e1: nat, r1: bool, e2: nat, r2: bool)
    requires EpochLabel(e1, r1) == EpochLabel(e2, r2)
    ensures e1 == e2 && r1 == r2
  {
    var l := EpochLabel(e1, r1);
    if r1 != r2 {
      assert false;
    }
  }
}
