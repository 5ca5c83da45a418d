# rusty-weather sensor firmware, modelled in Dafny

The ESP32 firmware of rusty-weather (`firmware/src/bin/main.rs`) samples two
sensors. Each runs in its own task with its own consecutive-error counter, and
both share a `Config` that sets the sampling interval.

- The **BMP280** driver reads a 24-byte calibration block. It polls the status
  register, burst-reads six data registers and unpacks two 20-bit raw values.
  It then runs Bosch's fixed-point compensation (section 3.11.3 of the BMP280
  datasheet): first temperature, which sets `t_fine`, then pressure, which
  reads that `t_fine`.
- The **DHT11** driver bit-bangs a start signal with interrupts disabled. It
  times a two-wait handshake and 40 data bits; a high pulse longer than 40 us
  is a 1. It packs the bits most significant first into five bytes, checks
  byte 4 against the wrapping sum of bytes 0 to 3, and splits humidity and
  temperature into whole and tenths bytes.
- The **tasks** reset their counter on success and count failures. The DHT11
  task clears its counter on the fifth failure in a row. The BMP280 task
  rebuilds its driver once the counter reaches five. The new driver replaces
  the old one, and the counter is cleared, only if the rebuild succeeds.

Files:

- `fixed_width.dfy` (`FixedWidth`, `SensorResult`): Rust's integer widths. It
  has two's-complement wrapping for `i32`/`i64`/`u64`, `>>` as floor division
  by a power of two, and `/` truncating toward zero. It also holds the error
  kinds (bus fault, timeout, bad checksum) and a `Result` type.
- `config.dfy` (`SensorConfig`): the `Config` class.
- `bmp280.dfy` (`Bmp280`): the calibration layout and its inverse, raw-value
  unpacking, compensation, the status-poll loop, and the `Bmp280` class. I2C
  reads are inputs: each read's `Result`, and the status bytes in the order
  they would be read. The methods return the transactions they issue.
- `dht11.dfy` (`Dht11`): the pin as a script of wait durations. `line[k]` is how
  many microseconds the k-th level wait takes, and a wait past the script's end
  or over its timeout times out. It also holds the bit, byte and frame reads as
  functions, their imperative counterparts in the `Dht11` class, and the
  interrupt mask as a ghost flag.
- `tasks.dfy` (`SamplingTasks`): the counters as step functions, lemmas about
  runs of failures, and one loop iteration of each task as a method.

Integers are the values the firmware computes before its final `f32`
conversions: temperature in hundredths of a degree Celsius, pressure in pascals
times 256, and DHT11 values as whole and tenths bytes. Arithmetic wraps, as in
a release build.

The BMP280 counter is cleared only when a rebuild succeeds
(`firmware/src/bin/main.rs:496-505`). After a failed rebuild it keeps counting,
so every later failure tries again. `SamplingTasks.BmpFailuresWithoutRebuild`
proves it.

## Model

| member | source | states |
|---|---|---|
| `FixedWidth.WrapI32` | firmware/src/bin/main.rs:187-199 | An `i32` result of a wrapping `+`, `-` or `*` is congruent to the exact result modulo 2^32, and equals it whenever it fits. |
| `FixedWidth.WrapI64` | firmware/src/bin/main.rs:204-221 | An `i64` result of a wrapping operation is congruent to the exact result modulo 2^64, and equals it whenever it fits. |
| `FixedWidth.WrapU64` | firmware/src/bin/main.rs:41-43 | A `u64` result of a wrapping product is the exact result modulo 2^64, and equals it whenever it fits. |
| `FixedWidth.Sar` | firmware/src/bin/main.rs:187-195 | `x >> k` on a signed value is the floor of x / 2^k. It keeps the sign of x and never exceeds x in magnitude. |
| `FixedWidth.TruncDiv` | firmware/src/bin/main.rs:218 | Rust's `/` gives the magnitude of n divided by that of d, rounded down, and a nonzero quotient is positive exactly when n and d have the same sign. |
| `FixedWidth.TruncDivTruncates` | firmware/src/bin/main.rs:218 | The remainder `n - q*d` is smaller than the divisor in magnitude, and is zero or has the sign of the dividend. |
| `SensorConfig.Config.constructor` | firmware/src/bin/main.rs:30-35 | A new configuration holds the compiled-in default of ten minutes. |
| `SensorConfig.Config.SetInterval` | firmware/src/bin/main.rs:37-39 | Replaces the interval with the given minutes and changes nothing else. |
| `SensorConfig.Config.IntervalMs` | firmware/src/bin/main.rs:41-43 | The result is minutes times 60 000, reduced modulo 2^64; wrapping after each of the two `u64` products gives the same result. |
| `SensorConfig.IntervalMsExact` | firmware/src/bin/main.rs:41-43 | For every interval whose millisecond count fits a `u64`, the result is exact, divisible by 60 000, and divides back to the minutes. |
| `SensorConfig.DefaultIntervalMs` | firmware/src/bin/main.rs:16 | The default interval is 600 000 ms. |
| `Bmp280.I16Le` | firmware/src/bin/main.rs:137 | `i16::from_le_bytes` is negative exactly when the high byte's top bit is set, and equals the unsigned reading modulo 2^16. |
| `Bmp280.DecodeCalibration` | firmware/src/bin/main.rs:136-148 | Coefficient k comes from bytes 2k (low) and 2k+1 (high). T1 and P1 are read unsigned, all others as two's complement. |
| `Bmp280.EncodeCalibration` | firmware/src/bin/main.rs:136-148 | The block of a coefficient set is 24 bytes. Bytes 2k and 2k+1 hold coefficient k's 16 stored bits, low byte first. |
| `Bmp280.DecodeEncodeCalibration` | firmware/src/bin/main.rs:136-148 | Decoding the block of any coefficient set returns exactly those coefficients. |
| `Bmp280.EncodeDecodeCalibration` | firmware/src/bin/main.rs:136-148 | Every 24-byte block is the encoding of what it decodes to, so no two blocks decode alike. |
| `Bmp280.Bmp280.LoadCalibration` | firmware/src/bin/main.rs:132-161 | A failed block read returns its error and leaves the coefficients unchanged. A successful read overwrites all twelve with the block's decoding. |
| `Bmp280.Bmp280.Blank` | firmware/src/bin/main.rs:88-106 | The driver starts with an all-zero calibration and `t_fine` 0. |
| `Bmp280.Create` | firmware/src/bin/main.rs:87-130 | Issues chip-ID read, calibration read, reset, ctrl_meas and config writes, in that order, and stops at the first failing one. It succeeds exactly when none fails, and then holds the decoded calibration and `t_fine` 0. |
| `Bmp280.Raw20` | firmware/src/bin/main.rs:245-248 | The raw value lies in [0, 2^20). Its bits 19..12 are `msb`, bits 11..4 are `lsb`, and bits 3..0 are the high nibble of `xlsb`. |
| `Bmp280.Raw20RoundTrip` | firmware/src/bin/main.rs:245-248 | Every 20-bit value is recovered from the register bytes that hold it. |
| `Bmp280.Bmp280.CompensateTemperature` | firmware/src/bin/main.rs:186-201 | Sets `t_fine` to the datasheet's `var1 + var2` in wrapping `i32` and returns `(t_fine*5 + 128) >> 8`; the calibration is untouched. |
| `Bmp280.Hundredths` | firmware/src/bin/main.rs:199 | When `5*t_fine + 128` fits an `i32`, the temperature is `5*t_fine/256` rounded to the nearest hundredth, halves upward. |
| `Bmp280.HundredthsMonotone` | firmware/src/bin/main.rs:199 | Without overflow, a larger `t_fine` never gives a lower temperature. |
| `Bmp280.DatasheetTemperature` | firmware/src/bin/main.rs:186-199 | The datasheet's worked example gives `t_fine` 128422 and 2508 hundredths (25.08 °C). |
| `Bmp280.Bmp280.CompensatePressure` | firmware/src/bin/main.rs:203-224 | Reads the driver's calibration and current `t_fine` and changes neither. |
| `Bmp280.PressureDenominator` | firmware/src/bin/main.rs:209-211 | `dig_P1 == 0`, as in the all-zero calibration, always makes the stage-one denominator zero. |
| `Bmp280.Pressure` | firmware/src/bin/main.rs:211-215 | A zero stage-one denominator yields pressure 0 instead of a division. |
| `Bmp280.DatasheetPressure` | firmware/src/bin/main.rs:204-221 | With the truncating division of line 218, the worked example gives 25767233/256 Pa (about 100653 Pa). |
| `Bmp280.PollsFrom` | firmware/src/bin/main.rs:233-239 | From poll i, the loop reads at most up to poll 10. Every read before the last succeeded with the measuring bit set. Stopping early means the last read failed or had the bit clear. |
| `Bmp280.StatusPollBudget` | firmware/src/bin/main.rs:233-239 | There are 1 to 10 status reads. The loop stops at the first read with bit 0x08 clear, and a status that never clears still reaches the burst read. |
| `Bmp280.Bmp280.PollStatus` | firmware/src/bin/main.rs:232-239 | Issues exactly that many status reads. It fails exactly when the loop ended on a failed read, and returns that read's error. |
| `Bmp280.Bmp280.ReadData` | firmware/src/bin/main.rs:230-265 | Issues the status reads, then one 6-byte burst read unless a status read failed. It succeeds exactly when neither failed, and otherwise returns the failed read's error with `t_fine` unchanged. On success, temperature is compensated first and pressure uses that same cycle's `t_fine`. |
| `Dht11.WaitAt` | firmware/src/bin/main.rs:282-298 | A wait succeeds, returning its duration, exactly when the level arrives within the timeout; otherwise it times out. |
| `Dht11.Dht11.WaitLevel` | firmware/src/bin/main.rs:282-298 | Performs the next wait of the line and advances by one. |
| `Dht11.BitAt` | firmware/src/bin/main.rs:300-312 | A bit succeeds exactly when its three waits arrive in time. It is 1 exactly when the measured high pulse exceeds 40 us, and a timed-out wait ends the bit there. |
| `Dht11.Dht11.ReadBit` | firmware/src/bin/main.rs:300-312 | The imperative bit read performs exactly `BitAt`, stopping at the first failed wait. |
| `Dht11.ReadBits` | firmware/src/bin/main.rs:317-321 | A read of n bits either returns n bits and ends 3n waits later, or fails with a timeout. |
| `Dht11.ByteAt` | firmware/src/bin/main.rs:314-324 | A byte read either yields a byte and ends 24 waits later, or fails with a timeout. |
| `Dht11.ReadBitsAt` | firmware/src/bin/main.rs:317-321 | Bit i of a whole read is 1 exactly when the third wait of bit i lasted more than 40 us. |
| `Dht11.ReadBitsSticky` | firmware/src/bin/main.rs:318 | A failed bit ends the read: reading further bits returns the same failure. |
| `Dht11.ReadBitsReached` | firmware/src/bin/main.rs:317-321 | n bits are read exactly when all 3n waits see their level in time. |
| `Dht11.PackedBit` | firmware/src/bin/main.rs:319 | Bit i of eight bits, most significant first, is bit 7-i of the packed byte. |
| `Dht11.ByteFromPulses` | firmware/src/bin/main.rs:314-324 | In a byte read whole, bit 7-i is set exactly when the i-th high pulse lasted more than 40 us. |
| `Dht11.Dht11.ReadByte` | firmware/src/bin/main.rs:314-324 | The loop that sets bit `7 - i` for each 1 bit returns the byte of the eight bits read, and the first failed bit aborts the byte. |
| `Dht11.FrameAt` | firmware/src/bin/main.rs:365-373 | A whole frame is five bytes and ends 120 waits later; every failure is a timeout. |
| `Dht11.FrameFromPulses` | firmware/src/bin/main.rs:365-373 | In a frame read whole, bit 7-i of byte j is set exactly when data pulse 8j+i lasted more than 40 us. |
| `Dht11.Dht11.ReadFrame` | firmware/src/bin/main.rs:365-373 | Filling the five-byte buffer byte by byte yields exactly the frame of the next 40 bits, and the first failed byte ends the fill. |
| `Dht11.Checksum` | firmware/src/bin/main.rs:382-385 | The chain of `wrapping_add`s is the sum of bytes 0 to 3 modulo 256. |
| `Dht11.DecodeFrame` | firmware/src/bin/main.rs:382-405 | A frame decodes exactly when byte 4 is that checksum, and it is otherwise refused with a CRC error. |
| `Dht11.DecodeEncodeFrame` | firmware/src/bin/main.rs:382-405 | Every reading survives its own frame. |
| `Dht11.EncodeDecodeFrame` | firmware/src/bin/main.rs:382-405 | An accepted frame is exactly the frame of the reading it decodes to. |
| `Dht11.Acquire` | firmware/src/bin/main.rs:343-405 | After the start signal, the only errors are a timeout or a CRC error. |
| `Dht11.AcquireSucceedsIff` | firmware/src/bin/main.rs:343-405 | A poll succeeds exactly when the handshake and all 40 bits arrive in time and the checksum holds. The reading is then humidity from bytes 0 and 1 and temperature from bytes 2 and 3. A failed poll is a timeout exactly when some handshake or bit wait missed its level, and a CRC error otherwise. |
| `Dht11.Dht11.constructor` | firmware/src/bin/main.rs:277-280 | A new driver has performed no wait, with interrupts enabled. |
| `Dht11.Dht11.ReadData` | firmware/src/bin/main.rs:326-407 | When a level change of the start signal fails, returns a bus fault with no wait performed and interrupts left disabled. Otherwise the outcome is `Acquire`'s, and interrupts are enabled again on every path. |
| `SamplingTasks.DhtNextErrors` | firmware/src/bin/main.rs:529-549 | Success clears the counter and a failure adds one, except that reaching 5 clears it. |
| `SamplingTasks.BmpNextErrors` | firmware/src/bin/main.rs:477-508 | Success clears the counter. A failure adds one, except that a failure reaching 5 or more with a successful rebuild clears it. |
| `SamplingTasks.DhtSuccessForgets` | firmware/src/bin/main.rs:531-536 | After a successful DHT11 read, the counter is that of the reads since, counted from zero, whatever came before. |
| `SamplingTasks.BmpSuccessForgets` | firmware/src/bin/main.rs:479-484 | After a successful BMP280 read, the counter is that of the cycles since, counted from zero, whatever the failures and rebuilds before. |
| `SamplingTasks.DhtRunBounded` | firmware/src/bin/main.rs:537-547 | From a clear counter, the DHT11 counter stays below 5 over any run of reads. |
| `SamplingTasks.DhtFailuresWrap` | firmware/src/bin/main.rs:537-547 | After n failures in a row the DHT11 counter is n mod 5: four failures leave 4, the fifth clears it. |
| `SamplingTasks.BmpFailuresWithoutRebuild` | firmware/src/bin/main.rs:485-506 | While every rebuild fails, the BMP280 counter is n after n failures, and every failure from the fifth on attempts a rebuild. |
| `SamplingTasks.BmpFailuresWithRebuild` | firmware/src/bin/main.rs:485-506 | While every rebuild succeeds, the BMP280 counter is n mod 5 after n failures. |
| `SamplingTasks.Dht11Task.constructor` | firmware/src/bin/main.rs:526-527 | The task enters its loop with a clear counter. |
| `SamplingTasks.Dht11Task.Cycle` | firmware/src/bin/main.rs:529-552 | One iteration reads the sensor. If the start signal fails, the reading is a bus fault, no wait is performed and interrupts stay disabled. Otherwise the reading is `Acquire`'s and interrupts are enabled again. The counter steps by `DhtNextErrors` on the outcome, and the task sleeps for the configured interval in ms. |
| `SamplingTasks.Bmp280Task.constructor` | firmware/src/bin/main.rs:474-475 | The task enters its loop with a clear counter. |
| `SamplingTasks.Bmp280Task.Cycle` | firmware/src/bin/main.rs:477-511 | One iteration reads the sensor. A failed status read or burst read is returned as that read's error, with `t_fine` unchanged. On success, `t_fine` is set from the temperature bytes, and the reading is the hundredths and the pressure compensated from the burst with that `t_fine`. The counter steps by `BmpNextErrors`. The sensor is replaced by a freshly built one exactly when a rebuild was attempted and succeeded, and is otherwise kept. It then sleeps for the configured interval. |

## Left out

- I2C transactions, pin driving and the `esp_timer_get_time` polling loop of `esperar_nivel` are hardware I/O. Register reads are inputs, and the pin is the script of wait durations described above.
- The 1 ms, 18 ms, 40 us, 10 ms, 100 ms and 1 s delays, and the `thread::sleep` of each task, are not modelled; each task cycle returns its sleep time instead.
- Floating point is not modelled: the `/ 100.0` and `/ 256.0` conversions, the hPa conversion, `calcular_altitude` (`powf`) and the DHT11 `* 0.1` scaling. The model keeps hundredths, Q24.8 pascals and whole/tenths bytes.
- `gravar_bmp280` and `gravar_dht11` append to files; a write failure never reaches the counters, so they are left out.
- `println!` logging is left out, including the chip-ID mismatch warning, which only logs.
- Threads, the `Arc<Mutex<…>>` locks and their `unwrap`, `main`, the web/MQTT side in `src/main.rs`, and the infinite task loops are left out. One loop iteration is modelled as a method; the shared `Config` is passed in.
- A construction failure at task start ends that task. The task constructors model only the state after a successful construction.
- `DHT11::new` configuring the pin cannot fail in the model.
- Bmp280.Bmp280.CompensatePressure: `i64::MIN / -1` panics in Rust even in release builds, but the model wraps it to `i64::MIN`.
- Bmp280.Bmp280.CompensateTemperature: `+`, `-` and `*` wrap as in a release build. A debug build would panic on overflow instead.
- SamplingTasks.BmpNextErrors: the counter is an unbounded `nat`. The firmware's `u32` would wrap after 2^32 consecutive failures with failing rebuilds.
- Dht11.Acquire: its own contract only limits the error kinds; the success condition, the reading and which failure gives which error are stated by `Dht11.AcquireSucceedsIff`.
