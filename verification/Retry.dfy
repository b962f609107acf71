/** Retry policies and the bounded retry loop around one scheduled check. Times are exact reals. */
module Retry {
  import opened Prelude

  datatype PolicyData = PolicyData(maxAttempts: int, initialDelay: real, maxDelay: real, jitter: real)

  predicate Acceptable(p: PolicyData) {
    && 1 <= p.maxAttempts <= 10
    && 0.0 <= p.initialDelay <= p.maxDelay
    && 0.0 <= p.jitter <= 1.0
    && (p.maxAttempts > 1 ==> p.initialDelay > 0.0)
  }

  type RetryPolicy = p: PolicyData | Acceptable(p) witness PolicyData(3, 5.0, 60.0, 0.2)

  /** A configured value as it arrives: no number (booleans included), an infinity or NaN, or a finite number. */
  datatype RawNumber = NotNumeric | NotFinite | Finite(value: real)

  datatype RawCount = NotInteger | Count(n: int)

  datatype RawPolicy = RawPolicy(maxAttempts: RawCount, initialDelay: RawNumber, maxDelay: RawNumber, jitter: RawNumber)

  datatype Field = InitialDelay | MaxDelay | Jitter

  datatype PolicyError =
    | BadAttempts | NotAFiniteNumber(field: Field) | BelowMinimum(field: Field) | AboveMaximum(field: Field)
    | DelaysOutOfOrder | ZeroDelay

  function ValidateNumber(raw: RawNumber, field: Field, maximum: Option<real>): Option<PolicyError> {
    if !raw.Finite? then Some(NotAFiniteNumber(field))
    else if raw.value < 0.0 then Some(BelowMinimum(field))
    else if maximum.Some? && raw.value > maximum.value then Some(AboveMaximum(field))
    else None
  }

  /** The raw values are finite numbers and an integer, namely those of p. */
  predicate Denotes(raw: RawPolicy, p: PolicyData) {
    raw == RawPolicy(Count(p.maxAttempts), Finite(p.initialDelay), Finite(p.maxDelay), Finite(p.jitter))
  }

  /** The checks of the policy constructor, in their order. */
  function NewPolicy(raw: RawPolicy): (r: Result<RetryPolicy, PolicyError>)
    ensures r.Success? <==> exists p :: Denotes(raw, p) && Acceptable(p)
    ensures r.Success? ==> Denotes(raw, r.value)
  {
    if raw.maxAttempts.NotInteger? || !(1 <= raw.maxAttempts.n <= 10) then Failure(BadAttempts)
    else
      var initial := ValidateNumber(raw.initialDelay, InitialDelay, None);
      var longest := ValidateNumber(raw.maxDelay, MaxDelay, None);
      var jitter := ValidateNumber(raw.jitter, Jitter, Some(1.0));
      if initial.Some? then Failure(initial.value)
      else if longest.Some? then Failure(longest.value)
      else if jitter.Some? then Failure(jitter.value)
      else if raw.maxDelay.value < raw.initialDelay.value then Failure(DelaysOutOfOrder)
      else if raw.maxAttempts.n > 1 && raw.initialDelay.value == 0.0 then Failure(ZeroDelay)
      else
        var p := PolicyData(raw.maxAttempts.n, raw.initialDelay.value, raw.maxDelay.value, raw.jitter.value);
        assert Denotes(raw, p) && Acceptable(p);
        Success(p)
  }

  function Min(a: real, b: real): real {
    if a <= b then a else b
  }

  function Max(a: real, b: real): real {
    if a >= b then a else b
  }

  function Pow2(n: nat): real {
    if n == 0 then 1.0 else 2.0 * Pow2(n - 1)
  }

  /** A draw of `random.random()`. */
  type Unit = u: real | 0.0 <= u < 1.0 witness 0.0

  function BaseDelay(p: RetryPolicy, failedAttempt: nat): real
    requires failedAttempt >= 1
  {
    Min(p.initialDelay * Pow2(failedAttempt - 1), p.maxDelay)
  }

  function Multiplier(jitter: real, unit: Unit): real {
    1.0 + jitter * (2.0 * unit - 1.0)
  }

  function Clamped(x: real, cap: real): real {
    Min(cap, Max(0.0, x))
  }

  function Jittered(p: RetryPolicy, base: real, unit: Unit): real {
    Clamped(base * Multiplier(p.jitter, unit), p.maxDelay)
  }

  function DelayAfterFailure(p: RetryPolicy, failedAttempt: nat, unit: Unit): real
    requires failedAttempt >= 1
  {
    Jittered(p, BaseDelay(p, failedAttempt), unit)
  }

  lemma {:induction false} Pow2Positive(n: nat)
    ensures Pow2(n) >= 1.0
  {
    if n > 0 { Pow2Positive(n - 1); }
  }

  lemma {:induction false} ProductMonotone(a: real, b: real, c: real)
    requires a <= b && c >= 0.0
    ensures a * c <= b * c
  {
  }

  lemma {:induction false} MultiplierBounds(jitter: real, unit: Unit)
    requires 0.0 <= jitter <= 1.0
    ensures 0.0 <= 1.0 - jitter <= Multiplier(jitter, unit) <= 1.0 + jitter
  {
    ProductMonotone(-1.0, 2.0 * unit - 1.0, jitter);
    ProductMonotone(2.0 * unit - 1.0, 1.0, jitter);
  }

  lemma {:induction false} Commute(a: real, b: real)
    ensures a * b == b * a
  {
  }

  lemma {:induction false} ProductNonNegative(a: real, b: real)
    requires a >= 0.0 && b >= 0.0
    ensures a * b >= 0.0
  {
  }

  /** What jitter does to one base delay, over plain numbers. */
  lemma {:induction false} MultipliedBounds(base: real, low: real, m: real, high: real)
    requires 0.0 <= base && 0.0 <= low <= m <= high && low <= 1.0 <= high
    ensures 0.0 <= low * base <= base && low * base <= base * m <= high * base
  {
    ProductNonNegative(low, base);
    ProductMonotone(low, 1.0, base);
    ProductMonotone(low, m, base);
    ProductMonotone(m, high, base);
    Commute(base, m);
    Commute(base, high);
  }

  lemma {:induction false} ClampedBounds(x: real, cap: real, base: real, low: real, high: real)
    requires 0.0 <= low <= base <= cap && low <= x <= high
    ensures low <= Clamped(x, cap) <= high && 0.0 <= Clamped(x, cap) <= cap
  {
  }

  lemma {:induction false} ScaledAndClamped(base: real, low: real, m: real, high: real, cap: real)
    requires 0.0 <= base <= cap && 0.0 <= low <= m <= high && low <= 1.0 <= high
    ensures low * base <= Clamped(base * m, cap) <= high * base
    ensures 0.0 <= Clamped(base * m, cap) <= cap
  {
    MultipliedBounds(base, low, m, high);
    ClampedBounds(base * m, cap, base, low * base, high * base);
  }

  lemma {:induction false} JitteredBounds(p: RetryPolicy, base: real, unit: Unit)
    requires 0.0 <= base <= p.maxDelay
    ensures (1.0 - p.jitter) * base <= Jittered(p, base, unit) <= (1.0 + p.jitter) * base
    ensures 0.0 <= Jittered(p, base, unit) <= p.maxDelay
  {
    MultiplierBounds(p.jitter, unit);
    ScaledAndClamped(base, 1.0 - p.jitter, Multiplier(p.jitter, unit), 1.0 + p.jitter, p.maxDelay);
  }

  lemma {:induction false} BaseBounds(p: RetryPolicy, k: nat)
    requires k >= 1
    ensures 0.0 <= BaseDelay(p, k) <= p.maxDelay && BaseDelay(p, k) <= p.initialDelay * Pow2(k - 1)
  {
    Pow2Positive(k - 1);
    ProductNonNegative(p.initialDelay, Pow2(k - 1));
  }

  /** Each delay is capped, jittered by at most the fraction, and never shrinks to nothing. */
  lemma {:induction false} DelayBounds(p: RetryPolicy, k: nat, unit: Unit)
    requires k >= 1
    ensures (1.0 - p.jitter) * BaseDelay(p, k) <= DelayAfterFailure(p, k, unit) <= (1.0 + p.jitter) * BaseDelay(p, k)
    ensures 0.0 <= DelayAfterFailure(p, k, unit) <= p.maxDelay
  {
    BaseBounds(p, k);
    JitteredBounds(p, BaseDelay(p, k), unit);
  }

  /** Below the cap the jitter is symmetric: draws mirrored around one half average to the base delay. */
  lemma {:induction false} JitterIsSymmetric(p: RetryPolicy, base: real, unit: Unit)
    requires 0.0 <= base && (1.0 + p.jitter) * base <= p.maxDelay && unit > 0.0
    ensures Jittered(p, base, unit) + Jittered(p, base, 1.0 - unit) == 2.0 * base
  {
    JitterUncapped(p, base, unit);
    JitterUncapped(p, base, 1.0 - unit);
    Mirrored(base, p.jitter, unit);
  }

  lemma {:induction false} JitterUncapped(p: RetryPolicy, base: real, unit: Unit)
    requires 0.0 <= base && (1.0 + p.jitter) * base <= p.maxDelay
    ensures Jittered(p, base, unit) == base * Multiplier(p.jitter, unit)
  {
    MultiplierBounds(p.jitter, unit);
    MultipliedBounds(base, 1.0 - p.jitter, Multiplier(p.jitter, unit), 1.0 + p.jitter);
  }

  lemma {:induction false} Mirrored(base: real, jitter: real, unit: Unit)
    requires unit > 0.0
    ensures base * Multiplier(jitter, unit) + base * Multiplier(jitter, 1.0 - unit) == 2.0 * base
  {
    var t := 2.0 * unit - 1.0;
    assert Multiplier(jitter, 1.0 - unit) == 1.0 - jitter * t;
    assert base * (1.0 + jitter * t) == base + base * (jitter * t);
    assert base * (1.0 - jitter * t) == base - base * (jitter * t);
  }

  /** Below the cap the delay moves evenly with the draw from the lower to the upper end of the jitter band. */
  lemma {:induction false} JitterInterpolates(p: RetryPolicy, base: real, unit: Unit)
    requires 0.0 <= base && (1.0 + p.jitter) * base <= p.maxDelay
    ensures Jittered(p, base, unit) == (1.0 - unit) * ((1.0 - p.jitter) * base) + unit * ((1.0 + p.jitter) * base)
  {
    JitterUncapped(p, base, unit);
    Interpolates(base, p.jitter, unit);
  }

  lemma {:induction false} Interpolates(base: real, j: real, u: real)
    ensures base * (1.0 + j * (2.0 * u - 1.0)) == (1.0 - u) * ((1.0 - j) * base) + u * ((1.0 + j) * base)
  {
    var jb, ub := j * base, u * base;
    var ujb := u * jb;
    assert (1.0 - j) * base == base - jb && (1.0 + j) * base == base + jb;
    assert (1.0 - u) * (base - jb) == base - jb - ub + ujb by {
      assert (1.0 - u) * (base - jb) == (base - jb) - u * (base - jb);
      assert u * (base - jb) == ub - ujb;
    }
    assert u * (base + jb) == ub + ujb;
    assert base * (1.0 + j * (2.0 * u - 1.0)) == base + base * (j * (2.0 * u - 1.0));
    assert base * (j * (2.0 * u - 1.0)) == jb * (2.0 * u - 1.0);
    assert jb * (2.0 * u - 1.0) == 2.0 * ujb - jb;
  }

  /** The base delay starts at the initial delay and doubles with every failure until the cap holds it. */
  lemma {:induction false} BackoffDoublesUntilCapped(p: RetryPolicy, k: nat)
    requires k >= 1
    ensures BaseDelay(p, 1) == p.initialDelay
    ensures BaseDelay(p, k + 1) == Min(2.0 * BaseDelay(p, k), p.maxDelay)
  {
    assert Pow2(0) == 1.0;
    assert p.initialDelay * Pow2(k) == 2.0 * (p.initialDelay * Pow2(k - 1));
  }

  function Sum(s: seq<real>): real {
    if s == [] then 0.0 else Sum(s[..|s| - 1]) + s[|s| - 1]
  }

  /** The sleeps before attempts 2 to n. */
  ghost predicate SleepsOf(s: seq<real>, p: RetryPolicy, units: nat -> Unit) {
    forall i | 0 <= i < |s| :: s[i] == DelayAfterFailure(p, i + 1, units(i + 1))
  }

  /** The cap on each of n sleeps. */
  ghost function CapBound(p: RetryPolicy, n: nat): real {
    n as real * p.maxDelay
  }

  /** The jittered geometric sum of n sleeps. */
  ghost function GeometricBound(p: RetryPolicy, n: nat): real {
    (1.0 + p.jitter) * (p.initialDelay * (Pow2(n) - 1.0))
  }

  lemma {:induction false} Distribute(f: real, i: real, x: real)
    ensures f * (i * (2.0 * x - 1.0)) == f * (i * (x - 1.0)) + f * (i * x)
  {
    var y := i * x;
    assert i * (x - 1.0) == y - i;
    assert i * (2.0 * x - 1.0) == 2.0 * y - i;
    assert f * (2.0 * y - i) == 2.0 * (f * y) - f * i;
    assert f * (y - i) == f * y - f * i;
  }

  lemma {:induction false} BoundsStart(p: RetryPolicy)
    ensures CapBound(p, 0) == 0.0 == GeometricBound(p, 0)
  {
    assert p.initialDelay * (Pow2(0) - 1.0) == 0.0;
  }

  /** The bounds grow by at least one delay with every sleep. */
  lemma {:induction false} BoundsStep(p: RetryPolicy, n: nat, unit: Unit)
    ensures CapBound(p, n) + DelayAfterFailure(p, n + 1, unit) <= CapBound(p, n + 1)
    ensures GeometricBound(p, n) + DelayAfterFailure(p, n + 1, unit) <= GeometricBound(p, n + 1)
  {
    DelayBounds(p, n + 1, unit);
    CapStep(p, n);
    GeometricStep(p, n);
  }

  lemma {:induction false} CapStep(p: RetryPolicy, n: nat)
    ensures CapBound(p, n + 1) == CapBound(p, n) + p.maxDelay
  {
    assert (n + 1) as real == n as real + 1.0;
  }

  lemma {:induction false} GeometricStep(p: RetryPolicy, n: nat)
    ensures GeometricBound(p, n + 1) >= GeometricBound(p, n) + (1.0 + p.jitter) * BaseDelay(p, n + 1)
  {
    Distribute(1.0 + p.jitter, p.initialDelay, Pow2(n));
    BaseBounds(p, n + 1);
    ProductMonotone(BaseDelay(p, n + 1), p.initialDelay * Pow2(n), 1.0 + p.jitter);
    Commute(1.0 + p.jitter, BaseDelay(p, n + 1));
    Commute(1.0 + p.jitter, p.initialDelay * Pow2(n));
  }

  /** The total of the sleeps stays below the cap on each and below the jittered geometric sum. */
  lemma {:induction false} SleepBound(s: seq<real>, p: RetryPolicy, units: nat -> Unit)
    requires SleepsOf(s, p, units)
    ensures Sum(s) <= CapBound(p, |s|) && Sum(s) <= GeometricBound(p, |s|)
  {
    if s == [] {
      BoundsStart(p);
    } else {
      SleepBound(s[..|s| - 1], p, units);
      BoundsStep(p, |s| - 1, units(|s|));
    }
  }

  /** How one call of the check runner ends. */
  datatype CallOutcome = Succeeds | Fails | IsCancelled

  datatype Ending = EndSucceeded | EndFailed | EndCancelled

  /** All attempts the policy allows fail and no cancellation arrives. */
  ghost predicate AllFail(p: RetryPolicy, calls: nat -> CallOutcome) {
    forall k | 1 <= k <= p.maxAttempts :: calls(k) == Fails
  }

  /**
   * The retry loop. `calls(k)` is the outcome of attempt k, `sleepCut(k)` says
   * that a cancellation arrives in the sleep after it. `reports` counts the
   * terminal failures passed to the operational alerts.
   */
  method ExecuteWithRetries(p: RetryPolicy, calls: nat -> CallOutcome, units: nat -> Unit, sleepCut: nat -> bool)
    returns (ending: Ending, attempts: nat, slept: seq<real>, reports: nat)
    ensures 1 <= attempts <= p.maxAttempts
    ensures forall k | 1 <= k < attempts :: calls(k) == Fails && !sleepCut(k)
    ensures ending == EndSucceeded <==> calls(attempts) == Succeeds
    ensures ending == EndFailed <==> attempts == p.maxAttempts && calls(attempts) == Fails
    ensures ending == EndCancelled <==>
      calls(attempts) == IsCancelled || (calls(attempts) == Fails && attempts < p.maxAttempts && sleepCut(attempts))
    ensures reports == if ending == EndFailed then 1 else 0
    ensures (forall k | 1 <= k <= p.maxAttempts :: calls(k) != IsCancelled && !sleepCut(k)) ==>
      (ending == EndFailed <==> AllFail(p, calls))
    ensures |slept| == attempts - 1 && SleepsOf(slept, p, units)
    ensures Sum(slept) <= CapBound(p, p.maxAttempts - 1) && Sum(slept) <= GeometricBound(p, p.maxAttempts - 1)
  {
    slept, attempts, reports := [], 1, 0;
    while true
      invariant 1 <= attempts <= p.maxAttempts && reports == 0
      invariant forall k | 1 <= k < attempts :: calls(k) == Fails && !sleepCut(k)
      invariant |slept| == attempts - 1 && SleepsOf(slept, p, units)
      decreases p.maxAttempts - attempts
    {
      match calls(attempts) {
        case IsCancelled => ending := EndCancelled; break;
        case Succeeds => ending := EndSucceeded; break;
        case Fails =>
          if attempts == p.maxAttempts {
            ending, reports := EndFailed, 1;
            break;
          }
          var delay := DelayAfterFailure(p, attempts, units(attempts));
          if sleepCut(attempts) { ending := EndCancelled; break; }
          slept, attempts := slept + [delay], attempts + 1;
      }
    }
    SleepsWithinBudget(p, units, slept);
  }

  /** The sleeps an execution can have stay within the cap and within the jittered geometric sum. */
  lemma {:induction false} SleepsWithinBudget(p: RetryPolicy, units: nat -> Unit, slept: seq<real>)
    requires |slept| < p.maxAttempts && SleepsOf(slept, p, units)
    ensures Sum(slept) <= CapBound(p, p.maxAttempts - 1) && Sum(slept) <= GeometricBound(p, p.maxAttempts - 1)
  {
    SleepBound(slept, p, units);
    BoundsGrow(p, |slept|, p.maxAttempts - 1);
  }

  /** Both bounds grow with the number of sleeps. */
  lemma {:induction false} BoundsGrow(p: RetryPolicy, m: nat, n: nat)
    requires m <= n
    ensures CapBound(p, m) <= CapBound(p, n) && GeometricBound(p, m) <= GeometricBound(p, n)
  {
    if m < n {
      BoundsGrow(p, m, n - 1);
      BoundsStep(p, n - 1, 0.0);
      DelayBounds(p, n, 0.0);
    }
  }
}
