/** One iteration of each sampling task's loop: read the sensor, keep the
    consecutive-error counter, recover when it reaches the threshold, then
    sleep for the configured interval. */
module SamplingTasks {
  import opened FixedWidth
  import opened SensorResult
  import SensorConfig
  import Bmp280
  import Dht11

  /** `MAX_ERROS` of both tasks. */
  const MaxErrors: nat := 5

  // ---------------------------------------------------------------------
  // The counters as step functions

  /** `task_dht11`'s counter after one read: success clears it, a failure
      counts, and the fifth failure in a row clears it again. */
  function DhtNextErrors(errors: nat, readOk: bool): (next: nat)
    ensures readOk ==> next == 0
    ensures !readOk ==> next == if errors + 1 >= MaxErrors then 0 else errors + 1
  {
    if readOk then 0
    else if errors + 1 >= MaxErrors then 0
    else errors + 1
  }

  /** `task_bmp280` rebuilds its sensor after a failed read that brings the
      counter to the threshold or beyond. */
  predicate BmpRebuildAttempted(errors: nat, readOk: bool) {
    !readOk && errors + 1 >= MaxErrors
  }

  /** `task_bmp280`'s counter after one read: success clears it, a failure
      counts, and reaching the threshold clears it only if the sensor could
      be rebuilt. */
  function BmpNextErrors(errors: nat, readOk: bool, rebuildOk: bool): (next: nat)
    ensures readOk ==> next == 0
    ensures !readOk ==> next == if BmpRebuildAttempted(errors, readOk) && rebuildOk then 0 else errors + 1
  {
    if readOk then 0
    else if errors + 1 >= MaxErrors && rebuildOk then 0
    else errors + 1
  }

  /** The DHT11 counter after a run of reads, `true` for each that succeeded. */
  function DhtRun(errors: nat, outcomes: seq<bool>): (after: nat)
    decreases |outcomes|
  {
    if outcomes == [] then errors
    else DhtNextErrors(DhtRun(errors, outcomes[..|outcomes| - 1]), outcomes[|outcomes| - 1])
  }

  /** One BMP280 cycle: whether the read succeeded, and whether the rebuild
      would succeed if one is attempted. */
  datatype BmpCycle = BmpCycle(readOk: bool, rebuildOk: bool)

  /** The BMP280 counter after a run of cycles. */
  function BmpRun(errors: nat, cycles: seq<BmpCycle>): (after: nat)
    decreases |cycles|
  {
    if cycles == [] then errors
    else
      var c := cycles[|cycles| - 1];
      BmpNextErrors(BmpRun(errors, cycles[..|cycles| - 1]), c.readOk, c.rebuildOk)
  }

  function Failures(n: nat, rebuildOk: bool): (cycles: seq<BmpCycle>)
    ensures |cycles| == n && forall i :: 0 <= i < n ==> cycles[i] == BmpCycle(false, rebuildOk)
  {
    seq(n, _ => BmpCycle(false, rebuildOk))
  }

  // ---------------------------------------------------------------------
  // Properties of the counters

  /** The DHT11 counter never reaches the threshold. */
  lemma {:induction false} DhtRunBounded(outcomes: seq<bool>)
    ensures DhtRun(0, outcomes) < MaxErrors
    decreases |outcomes|
  {
    if outcomes != [] {
      DhtRunBounded(outcomes[..|outcomes| - 1]);
    }
  }

  /** After `n` failed reads in a row from a clear counter, the DHT11
      counter is `n mod 5`: four failures leave it at 4, the fifth clears it. */
  lemma {:induction false} DhtFailuresWrap(n: nat)
    ensures DhtRun(0, seq(n, _ => false)) == n % MaxErrors
  {
    if n > 0 {
      assert seq(n, _ => false)[..n - 1] == seq(n - 1, _ => false);
      DhtFailuresWrap(n - 1);
      CountUpModulo(n);
    }
  }

  /** A successful DHT11 read wipes out the past: the counter after it is
      the counter of the reads since, counted from zero. */
  lemma {:induction false} DhtSuccessForgets(errors: nat, before: seq<bool>, after: seq<bool>)
    ensures DhtRun(errors, before + [true] + after) == DhtRun(0, after)
    decreases |after|
  {
    var run := before + [true] + after;
    if after != [] {
      var last := |after| - 1;
      assert run[..|run| - 1] == before + [true] + after[..last];
      DhtSuccessForgets(errors, before, after[..last]);
    }
  }

  /** The same for the BMP280 counter, whatever the rebuilds before a
      successful read did. */
  lemma {:induction false} BmpSuccessForgets(errors: nat, before: seq<BmpCycle>, rebuildOk: bool, after: seq<BmpCycle>)
    ensures BmpRun(errors, before + [BmpCycle(true, rebuildOk)] + after) == BmpRun(0, after)
    decreases |after|
  {
    var run := before + [BmpCycle(true, rebuildOk)] + after;
    if after != [] {
      var last := |after| - 1;
      assert run[..|run| - 1] == before + [BmpCycle(true, rebuildOk)] + after[..last];
      BmpSuccessForgets(errors, before, rebuildOk, after[..last]);
    }
  }

  /** While every rebuild fails, the BMP280 counter only climbs: after `n`
      failures from a clear counter it is `n`, and every failure from the
      fifth on tries to rebuild the sensor. */
  lemma {:induction false} BmpFailuresWithoutRebuild(n: nat)
    ensures BmpRun(0, Failures(n, false)) == n
    ensures forall i :: 0 <= i < n ==>
              (BmpRebuildAttempted(BmpRun(0, Failures(i, false)), false) <==> i + 1 >= MaxErrors)
  {
    if n > 0 {
      assert Failures(n, false)[..n - 1] == Failures(n - 1, false);
      BmpFailuresWithoutRebuild(n - 1);
    }
  }

  /** While every rebuild succeeds, the BMP280 counter behaves like the
      DHT11 one: `n mod 5` after `n` failures, a rebuild on every fifth. */
  lemma {:induction false} BmpFailuresWithRebuild(n: nat)
    ensures BmpRun(0, Failures(n, true)) == n % MaxErrors
  {
    if n > 0 {
      assert Failures(n, true)[..n - 1] == Failures(n - 1, true);
      BmpFailuresWithRebuild(n - 1);
      CountUpModulo(n);
    }
  }

  /** Counting one more failure modulo the threshold. */
  lemma CountUpModulo(n: nat)
    requires n > 0
    ensures n % MaxErrors == if (n - 1) % MaxErrors + 1 >= MaxErrors then 0 else (n - 1) % MaxErrors + 1
  {
    var q, r := (n - 1) / MaxErrors, (n - 1) % MaxErrors;
    assert n - 1 == q * MaxErrors + r;
    if r + 1 >= MaxErrors {
      DivisionUnique(n, MaxErrors, q + 1, 0);
    } else {
      DivisionUnique(n, MaxErrors, q, r + 1);
    }
  }

  // ---------------------------------------------------------------------
  // The loop bodies

  class Dht11Task {
    var sensor: Dht11.Dht11
    var errors: nat

    /** The state `task_dht11` enters its loop with. */
    constructor (sensor: Dht11.Dht11)
      ensures this.sensor == sensor && errors == 0
    {
      this.sensor := sensor;
      errors := 0;
    }

    /** One iteration of `task_dht11`'s loop; returns the read's outcome and
        the time to sleep. */
    method Cycle(drive: Dht11.StartSignal, config: SensorConfig.Config)
      returns (reading: Result<Dht11.HumidityReading>, sleepMs: U64)
      modifies this`errors, sensor`pos, sensor`interruptsEnabled
      ensures drive.AllOk() ==> Dht11.Acquire(sensor.line, old(sensor.pos)) == Dht11.Scan(reading, sensor.pos)
      ensures !drive.AllOk() ==> reading == Err(BusFault) && sensor.pos == old(sensor.pos)
      ensures sensor.interruptsEnabled <==> drive.AllOk()
      ensures errors == DhtNextErrors(old(errors), reading.Ok?)
      ensures sleepMs == config.IntervalMs()
    {
      reading := sensor.ReadData(drive);
      if reading.Ok? {
        // The firmware appends the reading to its log file.
        errors := 0;
      } else {
        errors := errors + 1;
        if errors >= MaxErrors {
          errors := 0;
        }
      }
      sleepMs := config.IntervalMs();
    }
  }

  class Bmp280Task {
    var sensor: Bmp280.Bmp280
    var errors: nat

    /** The state `task_bmp280` enters its loop with. */
    constructor (sensor: Bmp280.Bmp280)
      ensures this.sensor == sensor && errors == 0
    {
      this.sensor := sensor;
      errors := 0;
    }

    /** One iteration of `task_bmp280`'s loop. A rebuild, when attempted,
        sees `rebuildCalib` as the calibration block and fails at
        transaction `rebuildFailAt`; the new sensor replaces the old one only
        if it was built. */
    method Cycle(status: seq<Result<Byte>>, burst: Result<seq<Byte>>,
                 rebuildCalib: seq<Byte>, rebuildFailAt: nat, config: SensorConfig.Config)
      returns (reading: Result<Bmp280.Reading>, sleepMs: U64)
      requires Bmp280.MaxStatusPolls <= |status|
      requires burst.Ok? ==> |burst.value| == Bmp280.DataLength
      requires |rebuildCalib| == Bmp280.CalibLength
      modifies this, sensor`tFine
      ensures reading.Ok? <==> !Bmp280.PollFailed(status) && burst.Ok?
      ensures Bmp280.PollFailed(status) ==> reading == Err(status[Bmp280.StatusPolls(status) - 1].error)
      ensures !Bmp280.PollFailed(status) && burst.Err? ==> reading == Err(burst.error)
      ensures reading.Err? ==> old(sensor).tFine == old(sensor.tFine)
      ensures reading.Ok? ==>
        var b := burst.value;
        old(sensor).tFine == Bmp280.TFine(old(sensor).cal, Bmp280.Raw20(b[3], b[4], b[5]))
        && reading.value == Bmp280.Reading(Bmp280.Hundredths(old(sensor).tFine),
                                           Bmp280.Pressure(old(sensor).cal, old(sensor).tFine, Bmp280.Raw20(b[0], b[1], b[2])))
      ensures errors == BmpNextErrors(old(errors), reading.Ok?, rebuildFailAt >= Bmp280.InitSteps)
      ensures BmpRebuildAttempted(old(errors), reading.Ok?) && rebuildFailAt >= Bmp280.InitSteps ==>
                fresh(sensor) && sensor.cal == Bmp280.DecodeCalibration(rebuildCalib) && sensor.tFine == 0
      ensures !(BmpRebuildAttempted(old(errors), reading.Ok?) && rebuildFailAt >= Bmp280.InitSteps) ==>
                sensor == old(sensor)
      ensures sleepMs == config.IntervalMs()
    {
      var issued;
      reading, issued := sensor.ReadData(status, burst);
      if reading.Ok? {
        // The firmware appends the reading to its log file.
        errors := 0;
      } else {
        errors := errors + 1;
        if errors >= MaxErrors {
          // The firmware waits one second before rebuilding.
          var rebuilt, _ := Bmp280.Create(rebuildCalib, rebuildFailAt);
          if rebuilt.Ok? {
            sensor := rebuilt.value;
            errors := 0;
          }
        }
      }
      sleepMs := config.IntervalMs();
    }
  }
}
