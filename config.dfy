/** The process-wide sampling interval that both sampling tasks read once per cycle. */
module SensorConfig {
  import opened FixedWidth

  const DefaultIntervalMinutes: U64 := 10
  const MsPerMinute: nat := 60 * 1000

  /** The largest interval whose millisecond count still fits in a `u64`. */
  const MaxExactMinutes: nat := (TwoTo64 - 1) / MsPerMinute

  class Config {
    var intervalMinutes: U64

    /** `Config::new`: the compiled-in default of ten minutes. */
    constructor ()
      ensures intervalMinutes == DefaultIntervalMinutes
    {
      intervalMinutes := DefaultIntervalMinutes;
    }

    /** `set_intervalo`: replaces the interval and nothing else. */
    method SetInterval(minutes: U64)
      modifies this`intervalMinutes
      ensures intervalMinutes == minutes
    {
      intervalMinutes := minutes;
    }

    /** `intervalo_ms`: `intervalo_minutos * 60 * 1000` in `u64`, each product wrapping. */
    function IntervalMs(): (ms: U64)
      reads this
      ensures ms == (intervalMinutes * MsPerMinute) % TwoTo64
    {
      MulWrapsOnce(intervalMinutes * 60, 1000);
      WrapU64(WrapU64(intervalMinutes * 60) * 1000)
    }
  }

  /** Wrapping the first product of a chain does not change the wrapped end result. */
  lemma MulWrapsOnce(a: int, b: int)
    ensures (a % TwoTo64 * b) % TwoTo64 == (a * b) % TwoTo64
  {
    var q := a / TwoTo64;
    assert a == q * TwoTo64 + a % TwoTo64;
    assert a * b == (a % TwoTo64) * b + (q * b) * TwoTo64;
  }

  /** Every interval up to `MaxExactMinutes` converts exactly, and back. */
  lemma IntervalMsExact(c: Config)
    requires c.intervalMinutes <= MaxExactMinutes
    ensures c.IntervalMs() == c.intervalMinutes * MsPerMinute
    ensures c.IntervalMs() / MsPerMinute == c.intervalMinutes
    ensures c.IntervalMs() % MsPerMinute == 0
  {
  }

  /** The default interval is 600 000 ms. */
  lemma DefaultIntervalMs(c: Config)
    requires c.intervalMinutes == DefaultIntervalMinutes
    ensures c.IntervalMs() == 600_000
  {
  }
}
