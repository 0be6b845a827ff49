/** Breaker configuration (src/config.rs): the backoff strategies, the record, and the builder's `build`. */
module Config {
  import opened Prelude

  datatype BackoffStrategy =
    | Fixed(wait: Duration)
    | Exponential(initial: Duration, max: Duration, factor: real)
    | ExponentialJitter(initial: Duration, max: Duration, factor: real, jitter: real)

  datatype Config = Config(
    failureRateThreshold: real,
    consecutiveFailures: u32,
    slidingWindowSize: u32,
    minimumCalls: u32,
    halfOpenMaxCalls: u32,
    successThreshold: u32,
    backoff: BackoffStrategy)

  /** What `build` establishes, and all that the rest of the model assumes. */
  predicate ValidConfig(c: Config) {
    && 0.0 <= c.failureRateThreshold <= 1.0
    && 1 <= c.consecutiveFailures
    && 1 <= c.slidingWindowSize
    && 1 <= c.minimumCalls <= c.slidingWindowSize
    && 1 <= c.halfOpenMaxCalls
    && 1 <= c.successThreshold
  }

  /** The builder's fields; `None` is an unset field. */
  datatype Builder = Builder(
    failureRateThreshold: Option<real>,
    consecutiveFailures: Option<u32>,
    slidingWindowSize: Option<u32>,
    minimumCalls: Option<u32>,
    waitDuration: Option<Duration>,
    backoff: Option<BackoffStrategy>,
    halfOpenMaxCalls: Option<u32>,
    successThreshold: Option<u32>)
  {
    /** Applies the defaults, and moves what is set out of range to the nearest value in range. */
    function Build(): (c: Config)
      ensures ValidConfig(c)
      // Everything unset: half the calls, 5 in a row, windows of 10, 3 probes, 30 seconds.
      ensures failureRateThreshold.None? ==> c.failureRateThreshold == 0.5
      ensures consecutiveFailures.None? ==> c.consecutiveFailures == 5
      ensures slidingWindowSize.None? ==> c.slidingWindowSize == 10
      ensures halfOpenMaxCalls.None? ==> c.halfOpenMaxCalls == 3
      ensures backoff.None? && waitDuration.None? ==> c.backoff == Fixed(30.0)
      // An unset minimum is the whole window, an unset threshold the probe bound, whatever these are.
      ensures minimumCalls.None? ==> c.minimumCalls == c.slidingWindowSize
      ensures successThreshold.None? ==> c.successThreshold == c.halfOpenMaxCalls
      // A strategy overrides a plain wait.
      ensures backoff.Some? ==> c.backoff == backoff.value
      ensures backoff.None? && waitDuration.Some? ==> c.backoff == Fixed(waitDuration.value)
      // What is set in range is kept, and what is not becomes the nearer end of its range.
      ensures failureRateThreshold.Some? ==>
        var x := failureRateThreshold.value;
        && (0.0 <= x <= 1.0 ==> c.failureRateThreshold == x)
        && (x < 0.0 ==> c.failureRateThreshold == 0.0) && (1.0 < x ==> c.failureRateThreshold == 1.0)
      ensures consecutiveFailures.Some? ==>
        var x := consecutiveFailures.value; c.consecutiveFailures == if x == 0 then 1 else x
      ensures slidingWindowSize.Some? ==>
        var x := slidingWindowSize.value; c.slidingWindowSize == if x == 0 then 1 else x
      ensures halfOpenMaxCalls.Some? ==>
        var x := halfOpenMaxCalls.value; c.halfOpenMaxCalls == if x == 0 then 1 else x
      ensures successThreshold.Some? ==>
        var x := successThreshold.value; c.successThreshold == if x == 0 then 1 else x
      ensures minimumCalls.Some? ==>
        var x := minimumCalls.value;
        && (1 <= x <= c.slidingWindowSize ==> c.minimumCalls == x)
        && (x == 0 ==> c.minimumCalls == 1) && (c.slidingWindowSize < x ==> c.minimumCalls == c.slidingWindowSize)
    {
      var halfOpenMax := Max(halfOpenMaxCalls.GetOr(3), 1);
      var window := Max(slidingWindowSize.GetOr(10), 1);
      Config(
        ClampReal(failureRateThreshold.GetOr(0.5), 0.0, 1.0),
        Max(consecutiveFailures.GetOr(5), 1),
        window,
        Min(Max(minimumCalls.GetOr(window), 1), window),
        halfOpenMax,
        Max(successThreshold.GetOr(halfOpenMax), 1),
        backoff.GetOr(Fixed(waitDuration.GetOr(30.0))))
    }
  }

  /** The builder on which every field is set to that of `c`. */
  function Explicit(c: Config): Builder {
    Builder(
      Some(c.failureRateThreshold), Some(c.consecutiveFailures), Some(c.slidingWindowSize),
      Some(c.minimumCalls), None, Some(c.backoff), Some(c.halfOpenMaxCalls), Some(c.successThreshold))
  }

  /** The valid configurations are exactly those `build` can produce. */
  lemma ValidIffBuildable(c: Config)
    ensures ValidConfig(c) <==> exists b: Builder :: b.Build() == c
  {
    if ValidConfig(c) {
      assert Explicit(c).Build() == c;
    }
  }
}
