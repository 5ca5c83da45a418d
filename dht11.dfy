/** The DHT11 humidity-sensor driver: the bit-banged start signal, the
    timed decoding of 40 data bits, the checksum and the decoding of the
    five-byte frame.

    The pin's timing is abstract. `line[k]` is how many microseconds the
    k-th `esperar_nivel` call waits until the awaited level appears; a wait
    past the end of `line`, or longer than its timeout, is a timeout. The
    interrupt mask that `ler_dados` toggles is a ghost flag. */
module Dht11 {
  import opened FixedWidth
  import opened SensorResult

  const WaitTimeoutUs: nat := 100
  const OneThresholdUs: nat := 40
  const BitsPerByte: nat := 8
  const WaitsPerBit: nat := 3
  const WaitsPerByte: nat := 24
  const FrameBytes: nat := 5
  const HandshakeWaits: nat := 2

  /** A read that ends after wait `next - 1`. */
  datatype Scan<T> = Scan(result: Result<T>, next: nat)

  /** Integer and tenths bytes of a value: `whole + tenths * 0.1`. */
  datatype Tenths = Tenths(whole: Byte, tenths: Byte)

  /** `DadosDHT11` before its `f32` conversions. */
  datatype HumidityReading = HumidityReading(humidity: Tenths, temperature: Tenths)

  /** The level-change outcomes of `set_high`, `set_low`, `set_high` in the start signal. */
  datatype StartSignal = StartSignal(idleHigh: bool, startLow: bool, release: bool) {
    predicate AllOk() { idleHigh && startLow && release }
  }

  // ---------------------------------------------------------------------
  // Timed waits and bits

  /** `esperar_nivel(_, timeoutUs)` as the k-th wait of the line. */
  function WaitAt(line: seq<nat>, k: nat, timeoutUs: nat): (r: Result<nat>)
    ensures r.Ok? <==> k < |line| && line[k] <= timeoutUs
    ensures r.Ok? ==> r.value == line[k]
    ensures r.Err? ==> r.error == Timeout
  {
    if k < |line| && line[k] <= timeoutUs then Ok(line[k]) else Err(Timeout)
  }

  predicate Reached(line: seq<nat>, k: nat) {
    k < |line| && line[k] <= WaitTimeoutUs
  }

  /** Every one of the `count` waits from wait `k` on sees its level in time. */
  predicate AllReached(line: seq<nat>, k: nat, count: nat) {
    forall j :: k <= j < k + count ==> Reached(line, j)
  }

  /** `ler_bit` from wait `k`: await low, await high, then time the high
      pulse; the bit is 1 when that pulse lasts more than 40 us. */
  function BitAt(line: seq<nat>, k: nat): (r: Scan<bool>)
    ensures r.result.Ok? <==> Reached(line, k) && Reached(line, k + 1) && Reached(line, k + 2)
    ensures r.result.Ok? ==> r.next == k + WaitsPerBit && k + 2 < |line|
                             && (r.result.value <==> line[k + 2] > OneThresholdUs)
    ensures r.result.Err? ==> r.result.error == Timeout && k < r.next <= k + WaitsPerBit
    ensures r.result.Err? ==> !Reached(line, r.next - 1) && forall j :: k <= j < r.next - 1 ==> Reached(line, j)
  {
    if WaitAt(line, k, WaitTimeoutUs).Err? then Scan(Err(Timeout), k + 1)
    else if WaitAt(line, k + 1, WaitTimeoutUs).Err? then Scan(Err(Timeout), k + 2)
    else
      match WaitAt(line, k + 2, WaitTimeoutUs)
      case Err(e) => Scan(Err(e), k + 3)
      case Ok(d) => Scan(Ok(d > OneThresholdUs), k + 3)
  }

  /** `n` bits read one after another from wait `k`; the first failure ends the read. */
  function ReadBits(line: seq<nat>, k: nat, n: nat): (r: Scan<seq<bool>>)
    ensures r.result.Ok? ==> |r.result.value| == n && r.next == k + 3 * n
    ensures r.result.Err? ==> r.result.error == Timeout
    // `|line|` in the measure stops the verifier from unrolling reads of a
    // constant number of bits all the way down.
    decreases n, |line|
  {
    if n == 0 then Scan(Ok([]), k) else ExtendBits(line, ReadBits(line, k, n - 1))
  }

  /** Reading one bit more extends a whole read of `i` bits by the bit
      read where it ended. */
  lemma ReadBitsStep(line: seq<nat>, k: nat, i: nat, prefix: seq<bool>, p: nat)
    requires ReadBits(line, k, i) == Scan(Ok(prefix), p)
    ensures var b := BitAt(line, p);
      ReadBits(line, k, i + 1)
        == if b.result.Err? then Scan(Err(b.result.error), b.next)
           else Scan(Ok(prefix + [b.result.value]), b.next)
  {
  }

  lemma ExtendBitsFailed(line: seq<nat>, prev: Scan<seq<bool>>)
    requires prev.result.Err?
    ensures ExtendBits(line, prev) == prev
  {
  }

  /** One more bit after `prev`, unless `prev` already failed. */
  function ExtendBits(line: seq<nat>, prev: Scan<seq<bool>>): (r: Scan<seq<bool>>) {
    if prev.result.Err? then prev
    else
      var b := BitAt(line, prev.next);
      if b.result.Err? then Scan(Err(b.result.error), b.next)
      else Scan(Ok(prev.result.value + [b.result.value]), b.next)
  }

  /** Bit `i` of a whole read is 1 exactly when its high pulse, the third
      wait of the bit, lasted more than 40 us. */
  lemma {:induction false} ReadBitsAt(line: seq<nat>, k: nat, n: nat, i: nat)
    requires ReadBits(line, k, n).result.Ok? && i < n
    ensures k + 3 * i + 2 < |line|
    ensures ReadBits(line, k, n).result.value[i] <==> line[k + 3 * i + 2] > OneThresholdUs
    decreases n
  {
    if i < n - 1 {
      ReadBitsAt(line, k, n - 1, i);
    }
  }

  /** A failed read of `m` bits is also the outcome of reading more. */
  lemma {:induction false} ReadBitsSticky(line: seq<nat>, k: nat, m: nat, n: nat)
    requires m <= n && ReadBits(line, k, m).result.Err?
    ensures ReadBits(line, k, n) == ReadBits(line, k, m)
    decreases n
  {
    if n > m {
      ReadBitsSticky(line, k, m, n - 1);
      ExtendBitsFailed(line, ReadBits(line, k, n - 1));
    }
  }

  /** Reading `n` bits succeeds exactly when all `3n` waits see their level in time. */
  lemma {:induction false} ReadBitsReached(line: seq<nat>, k: nat, n: nat)
    ensures ReadBits(line, k, n).result.Ok? <==> AllReached(line, k, 3 * n)
    decreases n
  {
    if n > 0 {
      ReadBitsReached(line, k, n - 1);
      var prev := ReadBits(line, k, n - 1);
      if prev.result.Ok? {
        assert prev.next == k + 3 * (n - 1);
      } else {
        assert !AllReached(line, k, 3 * (n - 1));
      }
    }
  }

  // ---------------------------------------------------------------------
  // Bytes, most significant bit first

  /** The byte whose bits, most significant first, are `bits`. */
  function Pack(bits: seq<bool>): (x: nat)
    ensures x < Pow2(|bits|)
  {
    if bits == [] then 0
    else 2 * Pack(bits[..|bits| - 1]) + (if bits[|bits| - 1] then 1 else 0)
  }

  /** The `n` low bits of `x`, most significant first. */
  function Unpack(x: nat, n: nat): (bits: seq<bool>)
    ensures |bits| == n
  {
    if n == 0 then [] else Unpack(x / 2, n - 1) + [x % 2 == 1]
  }

  lemma {:induction false} UnpackPack(bits: seq<bool>)
    ensures Unpack(Pack(bits), |bits|) == bits
  {
    if bits != [] {
      var init := bits[..|bits| - 1];
      var x := Pack(bits);
      var bit := if bits[|bits| - 1] then 1 else 0;
      DivisionUnique(x, 2, Pack(init), bit);
      UnpackPack(init);
      assert bits == init + [bits[|bits| - 1]];
    }
  }

  lemma {:induction false} PackUnpack(x: nat, n: nat)
    requires x < Pow2(n)
    ensures Pack(Unpack(x, n)) == x
  {
    if n > 0 {
      var bits := Unpack(x, n);
      PackUnpack(x / 2, n - 1);
      assert bits[..n - 1] == Unpack(x / 2, n - 1);
      DivisionUnique(x, 2, x / 2, x % 2);
    }
  }

  /** Bit `i` of `Unpack(x, n)` is bit `n - 1 - i` of `x`: the first bit is
      the most significant. */
  lemma {:induction false} UnpackBit(x: nat, n: nat, i: nat)
    requires i < n
    ensures Unpack(x, n)[i] <==> (x / Pow2(n - 1 - i)) % 2 == 1
  {
    var bits := Unpack(x, n);
    assert bits == Unpack(x / 2, n - 1) + [x % 2 == 1];
    if i < n - 1 {
      assert bits[i] == Unpack(x / 2, n - 1)[i];
      UnpackBit(x / 2, n - 1, i);
      var p := Pow2(n - 2 - i);
      assert Pow2(n - 1 - i) == 2 * p;
      DivDiv(x, 2, p);
    } else {
      assert Pow2(n - 1 - i) == 1;
    }
  }

  /** Bit `i` of a byte's bits, most significant first, is bit `7 - i` of the packed byte. */
  lemma PackedBit(bits: seq<bool>, i: nat)
    requires |bits| == BitsPerByte && i < BitsPerByte
    ensures bits[i] <==> (Pack(bits) / Pow2(7 - i)) % 2 == 1
  {
    UnpackPack(bits);
    UnpackBit(Pack(bits), BitsPerByte, i);
  }

  /** `x | (1 << k)` for a non-negative `x`. */
  function SetBit(x: nat, k: nat): (y: nat) {
    if (x / Pow2(k)) % 2 == 1 then x else x + Pow2(k)
  }

  lemma ByteWidth()
    ensures Pow2(BitsPerByte) == 0x100
  {
    assert Pow2(2) == 4;
    assert Pow2(4) == 16;
  }

  /** Appending a bit shifts the packed value up by one place. */
  lemma PackSnoc(bits: seq<bool>, b: bool)
    ensures Pack(bits + [b]) == 2 * Pack(bits) + (if b then 1 else 0)
  {
    assert (bits + [b])[..|bits|] == bits;
  }

  /** One iteration of `ler_byte`'s loop keeps the byte equal to the bits
      read so far, shifted into place. */
  lemma ByteLoopStep(i: nat, bits: seq<bool>, x: nat, b: bool)
    requires i < BitsPerByte && |bits| == i && x == Pack(bits) * Pow2(BitsPerByte - i)
    ensures (if b then SetBit(x, 7 - i) else x) == Pack(bits + [b]) * Pow2(BitsPerByte - (i + 1))
  {
    PackSnoc(bits, b);
    ShiftInBit(x, Pack(bits), Pack(bits + [b]), 7 - i, b);
  }

  /** Arithmetic of `ByteLoopStep`: shifting `q` up past bit `k` leaves bit `k`
      clear, so setting it shifts a 1 in below `q`. */
  lemma ShiftInBit(x: nat, q: nat, y: nat, k: nat, b: bool)
    requires x == q * Pow2(k + 1) && y == 2 * q + (if b then 1 else 0)
    ensures (if b then SetBit(x, k) else x) == y * Pow2(k)
  {
    var p := Pow2(k);
    assert x == (2 * q) * p by {
      assert Pow2(k + 1) == 2 * p;
      assert q * (2 * p) == (2 * q) * p;
    }
    DivisionUnique(x, p, 2 * q, 0);
    assert (2 * q + 1) * p == x + p;
  }

  /** `ler_byte` from wait `k`: eight bits packed most significant first. */
  function ByteAt(line: seq<nat>, k: nat): (r: Scan<Byte>)
    ensures r.result.Ok? ==> r.next == k + WaitsPerByte
    ensures r.result.Err? ==> r.result.error == Timeout
  {
    ByteWidth();
    var bits := ReadBits(line, k, BitsPerByte);
    match bits.result
    case Err(e) => Scan(Err(e), bits.next)
    case Ok(b) => Scan(Ok(Pack(b)), bits.next)
  }

  /** `ByteAt` is the bit read packed, and a whole bit read packs to a byte. */
  lemma ByteOfBits(line: seq<nat>, k: nat)
    ensures var bits := ReadBits(line, k, BitsPerByte);
      && ByteAt(line, k).next == bits.next
      && (bits.result.Err? ==> ByteAt(line, k).result == Err(bits.result.error))
      && (bits.result.Ok? ==> ByteAt(line, k).result == Ok(Pack(bits.result.value)))
  {
  }

  /** A byte that was read whole holds the measured pulses: its bit `7 - i`
      is set exactly when the i-th high pulse lasted more than 40 us. */
  lemma ByteFromPulses(line: seq<nat>, k: nat, i: nat)
    requires ByteAt(line, k).result.Ok? && i < BitsPerByte
    ensures k + 3 * i + 2 < |line|
    ensures (ByteAt(line, k).result.value / Pow2(7 - i)) % 2 == 1
        <==> line[k + 3 * i + 2] > OneThresholdUs
  {
    ReadBitsAt(line, k, BitsPerByte, i);
    PackedBit(ReadBits(line, k, BitsPerByte).result.value, i);
  }

  // ---------------------------------------------------------------------
  // The 40 data bits as five bytes

  /** Bits of the frame: five bytes of eight. */
  const FrameBits: nat := 40

  /** `n` consecutive groups of eight bits, each packed most significant first. */
  function BytesOf(bits: seq<bool>, n: nat): (d: seq<Byte>)
    requires |bits| == 8 * n
    ensures |d| == n
    decreases |bits|
  {
    ByteWidth();
    if n == 0 then []
    else
      var m := 8 * (n - 1);
      BytesOf(bits[..m], n - 1) + [Pack(bits[m..])]
  }

  /** Byte `j` of the grouping packs bits `8j` to `8j + 7`. */
  lemma {:induction false} BytesOfAt(bits: seq<bool>, n: nat, j: nat)
    requires |bits| == 8 * n && j < n
    ensures BytesOf(bits, n)[j] == Pack(bits[8 * j..8 * j + 8])
    decreases n
  {
    var m := 8 * (n - 1);
    assert BytesOf(bits, n) == BytesOf(bits[..m], n - 1) + [Pack(bits[m..])];
    if j < n - 1 {
      BytesOfAt(bits[..m], n - 1, j);
      assert bits[..m][8 * j..8 * j + 8] == bits[8 * j..8 * j + 8];
    } else {
      assert j == n - 1 && 8 * j == m && 8 * j + 8 == |bits|;
      assert bits[8 * j..8 * j + 8] == bits[m..];
    }
  }

  /** Eight more bits add one more byte at the end. */
  lemma BytesOfSnoc(bits: seq<bool>, n: nat, more: seq<bool>)
    requires |bits| == 8 * n && |more| == 8
    ensures BytesOf(bits + more, n + 1) == BytesOf(bits, n) + [Pack(more)]
  {
    assert (bits + more)[..|bits|] == bits;
    assert (bits + more)[|bits|..] == more;
  }

  /** The 40 data bits from wait `k`, as the five frame bytes; the first
      failed bit ends the read. */
  function FrameAt(line: seq<nat>, k: nat): (r: Scan<seq<Byte>>)
    ensures r.result.Ok? ==> |r.result.value| == FrameBytes && r.next == k + 3 * FrameBits
    ensures r.result.Err? ==> r.result.error == Timeout
  {
    var s := ReadBits(line, k, FrameBits);
    match s.result
    case Err(e) => Scan(Err(e), s.next)
    case Ok(bits) => Scan(Ok(BytesOf(bits, FrameBytes)), s.next)
  }

  /** A read of `rest` after the values `done`: a failure of the rest is
      the failure of the whole. */
  function Then<T>(done: seq<T>, rest: Scan<seq<T>>): (r: Scan<seq<T>>) {
    if rest.result.Err? then rest else Scan(Ok(done + rest.result.value), rest.next)
  }

  lemma ExtendThen(line: seq<nat>, done: seq<bool>, rest: Scan<seq<bool>>)
    ensures ExtendBits(line, Then(done, rest)) == Then(done, ExtendBits(line, rest))
  {
    if rest.result.Ok? {
      var b := BitAt(line, rest.next);
      if b.result.Ok? {
        assert done + rest.result.value + [b.result.value] == done + (rest.result.value + [b.result.value]);
      }
    }
  }

  /** Reading `m + n` bits is reading `m`, then `n` more from where those ended. */
  lemma {:induction false} ReadBitsAppend(line: seq<nat>, k: nat, m: nat, n: nat, done: seq<bool>, p: nat)
    requires ReadBits(line, k, m) == Scan(Ok(done), p)
    ensures ReadBits(line, k, m + n) == Then(done, ReadBits(line, p, n))
    decreases n
  {
    if n == 0 {
      assert done + [] == done;
    } else {
      ReadBitsAppend(line, k, m, n - 1, done, p);
      ExtendThen(line, done, ReadBits(line, p, n - 1));
    }
  }

  /** One pass of the frame loop: after `i` whole bytes, a failed byte is
      the failure of the frame, and a byte read whole adds its eight bits
      and itself to the bits and bytes read so far. */
  lemma FrameStep(line: seq<nat>, k: nat, i: nat, bits: seq<bool>, p: nat, byte: Result<Byte>, q: nat)
    requires i < FrameBytes && ReadBits(line, k, BitsPerByte * i) == Scan(Ok(bits), p)
    requires ByteAt(line, p) == Scan(byte, q)
    ensures byte.Err? ==> FrameAt(line, k) == Scan(Err(byte.error), q)
    ensures byte.Ok? ==>
      var more := ReadBits(line, p, BitsPerByte);
      && more.result.Ok?
      && ReadBits(line, k, BitsPerByte * (i + 1)) == Scan(Ok(bits + more.result.value), q)
      && BytesOf(bits + more.result.value, i + 1) == BytesOf(bits, i) + [byte.value]
  {
    ByteOfBits(line, p);
    ReadBitsAppend(line, k, BitsPerByte * i, BitsPerByte, bits, p);
    if byte.Err? {
      ReadBitsSticky(line, k, BitsPerByte * (i + 1), FrameBits);
    } else {
      BytesOfSnoc(bits, i, ReadBits(line, p, BitsPerByte).result.value);
    }
  }

  /** Forty bits read whole are the frame of their five bytes. */
  lemma FrameWhole(line: seq<nat>, k: nat, bits: seq<bool>, p: nat)
    requires ReadBits(line, k, BitsPerByte * FrameBytes) == Scan(Ok(bits), p)
    ensures FrameAt(line, k) == Scan(Ok(BytesOf(bits, FrameBytes)), p)
  {
    assert BitsPerByte * FrameBytes == FrameBits;
  }

  /** A frame read whole holds the measured pulses: bit `7 - i` of byte `j`
      is set exactly when the high pulse of data bit `8j + i` lasted more
      than 40 us. */
  lemma FrameFromPulses(line: seq<nat>, k: nat, j: nat, i: nat)
    requires FrameAt(line, k).result.Ok? && j < FrameBytes && i < BitsPerByte
    ensures k + 3 * (8 * j + i) + 2 < |line|
    ensures (FrameAt(line, k).result.value[j] / Pow2(7 - i)) % 2 == 1
        <==> line[k + 3 * (8 * j + i) + 2] > OneThresholdUs
  {
    var bits := ReadBits(line, k, FrameBits).result.value;
    var byteBits := bits[8 * j..8 * j + 8];
    var x := FrameAt(line, k).result.value[j];
    assert x == Pack(byteBits) by {
      assert FrameAt(line, k).result.value == BytesOf(bits, FrameBytes);
      BytesOfAt(bits, FrameBytes, j);
    }
    assert byteBits[i] == bits[8 * j + i];
    assert bits[8 * j + i] <==> line[k + 3 * (8 * j + i) + 2] > OneThresholdUs by {
      ReadBitsAt(line, k, FrameBits, 8 * j + i);
    }
    PackedBit(byteBits, i);
  }

  // ---------------------------------------------------------------------
  // The frame

  /** `data[0].wrapping_add(data[1]).wrapping_add(data[2]).wrapping_add(data[3])`. */
  function Checksum(d: seq<Byte>): (sum: Byte)
    requires |d| >= 4
    ensures sum == (d[0] as int + d[1] + d[2] + d[3]) % 0x100
  {
    var a: int := (d[0] as int + d[1]) % 0x100;
    var b: int := (a + d[2]) % 0x100;
    DivisionUnique(d[0] as int + d[1], 0x100, (d[0] as int + d[1]) / 0x100, a);
    DivisionUnique(a + d[2], 0x100, (a + d[2]) / 0x100, b);
    DivisionUnique(d[0] as int + d[1] + d[2], 0x100, (d[0] as int + d[1]) / 0x100 + (a + d[2]) / 0x100, b);
    DivisionUnique(b + d[3], 0x100, (b + d[3]) / 0x100, (b + d[3]) % 0x100);
    DivisionUnique(d[0] as int + d[1] + d[2] + d[3], 0x100,
      (d[0] as int + d[1]) / 0x100 + (a + d[2]) / 0x100 + (b + d[3]) / 0x100, (b + d[3]) % 0x100);
    (b + d[3]) % 0x100
  }

  /** Byte 4 of a five-byte frame is the wrapping sum of bytes 0 to 3. */
  predicate ChecksumHolds(d: seq<Byte>)
    requires |d| == FrameBytes
  {
    d[4] == (d[0] as int + d[1] + d[2] + d[3]) % 0x100
  }

  /** Steps 4 and 5 of `ler_dados`: check byte 4 against the checksum, then
      split humidity and temperature into whole and tenths. */
  function DecodeFrame(d: seq<Byte>): (r: Result<HumidityReading>)
    requires |d| == FrameBytes
    ensures r.Ok? <==> ChecksumHolds(d)
    ensures r.Err? ==> r.error == InvalidCrc
  {
    if Checksum(d) != d[4] then Err(InvalidCrc)
    else Ok(HumidityReading(Tenths(d[0], d[1]), Tenths(d[2], d[3])))
  }

  /** The frame a sensor sends for `reading`. */
  function EncodeFrame(reading: HumidityReading): (d: seq<Byte>)
    ensures |d| == FrameBytes && ChecksumHolds(d)
  {
    var h, t := reading.humidity, reading.temperature;
    [h.whole, h.tenths, t.whole, t.tenths, (h.whole as int + h.tenths + t.whole + t.tenths) % 0x100]
  }

  /** Every reading survives its frame. */
  lemma DecodeEncodeFrame(reading: HumidityReading)
    ensures DecodeFrame(EncodeFrame(reading)) == Ok(reading)
  {
  }

  /** A frame is accepted exactly when it is the frame of the reading it
      decodes to. */
  lemma EncodeDecodeFrame(d: seq<Byte>)
    requires |d| == FrameBytes
    ensures DecodeFrame(d).Ok? ==> EncodeFrame(DecodeFrame(d).value) == d
  {
  }

  /** Steps 2 to 5 of `ler_dados` from wait `k`, after the start signal:
      the two handshake waits, 40 data bits, then the frame decoding. */
  function Acquire(line: seq<nat>, k: nat): (r: Scan<HumidityReading>)
    ensures r.result.Err? && r.result.error != InvalidCrc ==> r.result.error == Timeout
  {
    if WaitAt(line, k, WaitTimeoutUs).Err? then Scan(Err(Timeout), k + 1)
    else if WaitAt(line, k + 1, WaitTimeoutUs).Err? then Scan(Err(Timeout), k + 2)
    else
      var frame := FrameAt(line, k + HandshakeWaits);
      match frame.result
      case Err(e) => Scan(Err(e), frame.next)
      case Ok(d) => Scan(DecodeFrame(d), frame.next)
  }

  lemma AllReachedSplit(line: seq<nat>, k: nat, a: nat, b: nat)
    ensures AllReached(line, k, a + b) <==> AllReached(line, k, a) && AllReached(line, k + a, b)
  {
  }

  /** A poll succeeds exactly when the handshake and all 40 bits arrive in
      time and the checksum holds; the reading is then the frame's bytes,
      in order, each decoded from its eight pulses by `ByteFromPulses`. */
  lemma AcquireSucceedsIff(line: seq<nat>, k: nat)
    ensures var frame := FrameAt(line, k + HandshakeWaits);
      Acquire(line, k).result.Ok? <==>
        AllReached(line, k, HandshakeWaits + 3 * FrameBits)
        && frame.result.Ok? && ChecksumHolds(frame.result.value)
    ensures Acquire(line, k).result.Err? ==>
      (Acquire(line, k).result.error == Timeout <==> !AllReached(line, k, HandshakeWaits + 3 * FrameBits))
    ensures var frame := FrameAt(line, k + HandshakeWaits);
      Acquire(line, k).result.Ok? ==>
        frame.result.Ok?
        && var d := frame.result.value;
           Acquire(line, k).result.value == HumidityReading(Tenths(d[0], d[1]), Tenths(d[2], d[3]))
  {
    var start := k + HandshakeWaits;
    ReadBitsReached(line, start, FrameBits);
    AllReachedSplit(line, k, HandshakeWaits, 3 * FrameBits);
    AllReachedSplit(line, k, 1, 1);
    assert AllReached(line, k, 1) <==> Reached(line, k);
    assert AllReached(line, k + 1, 1) <==> Reached(line, k + 1);
  }

  class Dht11 {
    /** Microseconds each successive wait on the pin takes to see its level. */
    const line: seq<nat>
    /** Waits performed so far. */
    var pos: nat
    /** Whether interrupts are enabled on this core. */
    ghost var interruptsEnabled: bool

    /** `DHT11::new`: the pin as an open-drain input/output, nothing awaited yet. */
    constructor (line: seq<nat>)
      ensures this.line == line && pos == 0 && interruptsEnabled
    {
      this.line := line;
      pos := 0;
      interruptsEnabled := true;
    }

    /** `esperar_nivel`: the next wait of the line, bounded by `timeoutUs`. */
    method WaitLevel(timeoutUs: nat) returns (r: Result<nat>)
      modifies this`pos
      ensures pos == old(pos) + 1
      ensures r == WaitAt(line, old(pos), timeoutUs)
    {
      r := WaitAt(line, pos, timeoutUs);
      pos := pos + 1;
    }

    /** `ler_bit`. */
    method ReadBit() returns (r: Result<bool>)
      modifies this`pos
      ensures BitAt(line, old(pos)) == Scan(r, pos)
    {
      var low := WaitLevel(WaitTimeoutUs);
      if low.Err? {
        return Err(low.error);
      }
      var high := WaitLevel(WaitTimeoutUs);
      if high.Err? {
        return Err(high.error);
      }
      var duration := WaitLevel(WaitTimeoutUs);
      if duration.Err? {
        return Err(duration.error);
      }
      r := Ok(duration.value > OneThresholdUs);
    }

    /** `ler_byte`: sets bit `7 - i` for each 1 bit; a failed bit aborts the byte. */
    method ReadByte() returns (r: Result<Byte>)
      modifies this`pos
      ensures ByteAt(line, old(pos)) == Scan(r, pos)
    {
      ByteWidth();
      ghost var start := pos;
      ghost var bits: seq<bool> := [];
      var byte: nat := 0;
      for i := 0 to BitsPerByte
        invariant ReadBits(line, start, i) == Scan(Ok(bits), pos)
        invariant byte == Pack(bits) * Pow2(BitsPerByte - i)
      {
        ReadBitsStep(line, start, i, bits, pos);
        var bit := ReadBit();
        if bit.Err? {
          ReadBitsSticky(line, start, i + 1, BitsPerByte);
          ByteOfBits(line, start);
          return Err(bit.error);
        }
        ByteLoopStep(i, bits, byte, bit.value);
        if bit.value {
          byte := SetBit(byte, 7 - i);
        }
        bits := bits + [bit.value];
      }
      ByteOfBits(line, start);
      assert Pow2(0) == 1;
      r := Ok(byte);
    }

    /** The closure of `ler_dados` that reads the five frame bytes into a
        buffer; the first failed byte ends it. */
    method ReadFrame() returns (r: Result<seq<Byte>>)
      modifies this`pos
      ensures FrameAt(line, old(pos)) == Scan(r, pos)
    {
      ghost var start := pos;
      ghost var bits: seq<bool> := [];
      var data := new Byte[FrameBytes];
      for i := 0 to FrameBytes
        invariant ReadBits(line, start, BitsPerByte * i) == Scan(Ok(bits), pos)
        invariant data[..i] == BytesOf(bits, i)
      {
        ghost var before := pos;
        var byte := ReadByte();
        FrameStep(line, start, i, bits, before, byte, pos);
        if byte.Err? {
          return Err(byte.error);
        }
        ghost var byteBits := ReadBits(line, before, BitsPerByte).result.value;
        data[i] := byte.value;
        assert data[..i + 1] == data[..i] + [byte.value];
        bits := bits + byteBits;
      }
      FrameWhole(line, start, bits, pos);
      assert data[..] == data[..FrameBytes];
      r := Ok(data[..]);
    }

    /** `ler_dados`: start signal, handshake, 40 bits, then checksum and
        decoding. Interrupts are disabled first; both handshake timeouts and
        the end of the 40-bit read enable them again, but a failed level
        change in the start signal returns with interrupts still disabled. */
    method ReadData(drive: StartSignal) returns (r: Result<HumidityReading>)
      modifies this`pos, this`interruptsEnabled
      ensures !drive.AllOk() ==> r == Err(BusFault) && pos == old(pos) && !interruptsEnabled
      ensures drive.AllOk() ==> Acquire(line, old(pos)) == Scan(r, pos) && interruptsEnabled
    {
      ghost var start := pos;
      interruptsEnabled := false;
      if !drive.idleHigh {
        return Err(BusFault);
      }
      // The firmware holds the line high for 1 ms.
      if !drive.startLow {
        return Err(BusFault);
      }
      // The firmware holds the line low for 18 ms.
      if !drive.release {
        return Err(BusFault);
      }
      // The firmware releases the line for 40 us.
      var low := WaitLevel(WaitTimeoutUs);
      if low.Err? {
        interruptsEnabled := true;
        assert !Reached(line, start);
        assert Acquire(line, start) == Scan(Err(Timeout), pos);
        return Err(Timeout);
      }
      var high := WaitLevel(WaitTimeoutUs);
      assert Reached(line, start);
      if high.Err? {
        interruptsEnabled := true;
        assert !Reached(line, start + 1);
        assert Acquire(line, start) == Scan(Err(Timeout), pos);
        return Err(Timeout);
      }
      assert Reached(line, start + 1) && pos == start + HandshakeWaits;
      var frame := ReadFrame();
      assert FrameAt(line, start + HandshakeWaits) == Scan(frame, pos);
      interruptsEnabled := true;
      if frame.Err? {
        assert Acquire(line, start) == Scan(Err(frame.error), pos);
        return Err(frame.error);
      }
      var d := frame.value;
      assert FrameAt(line, start + HandshakeWaits).result == Ok(d);
      assert Acquire(line, start).next == pos;
      assert Acquire(line, start).result == DecodeFrame(d);
      if Checksum(d) != d[4] {
        return Err(InvalidCrc);
      }
      r := Ok(HumidityReading(Tenths(d[0], d[1]), Tenths(d[2], d[3])));
    }
  }
}
