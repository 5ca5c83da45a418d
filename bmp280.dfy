/** The BMP280 pressure-sensor driver: calibration decoding, the raw-value
    unpacking of the burst read, Bosch's fixed-point compensation (BMP280
    datasheet, section 3.11.3) and the measurement cycle of `ler_dados`.

    I2C transactions are not performed: every read the driver would issue is
    an input (its `Result`), and the methods report the transactions they
    issue in order. Temperatures are hundredths of a degree Celsius and
    pressures are pascals scaled by 256 (Q24.8), the integers the firmware
    computes before its final `f32` divisions. */
module Bmp280 {
  import opened FixedWidth
  import opened SensorResult

  // Register map and configuration words.
  const RegCalib: Byte := 0x88
  const RegChipId: Byte := 0xD0
  const RegReset: Byte := 0xE0
  const ResetWord: Byte := 0xB6
  const RegCtrlMeas: Byte := 0xF4
  const CtrlMeasWord: Byte := 0xB7   // osrs_t = x16, osrs_p = x16, mode = normal
  const RegConfig: Byte := 0xF5
  const ConfigWord: Byte := 0x10     // t_sb = 0.5 ms, filter coefficient 16
  const RegStatus: Byte := 0xF3
  const RegData: Byte := 0xF7
  const MeasuringBit: bv8 := 0x08

  const CalibLength: nat := 24
  const DataLength: nat := 6
  const CoefficientCount: nat := 12
  const MaxStatusPolls: nat := 10
  const InitSteps: nat := 5

  datatype Transaction = Read(reg: Byte, len: nat) | Write(reg: Byte, value: Byte)

  /** `CalibracaoBMP280`: three temperature and nine pressure coefficients. */
  datatype Calibration = Calibration(
    digT1: U16, digT2: I16, digT3: I16,
    digP1: U16, digP2: I16, digP3: I16, digP4: I16, digP5: I16,
    digP6: I16, digP7: I16, digP8: I16, digP9: I16)

  /** The all-zero calibration `BMP280::new` starts from. */
  const ZeroCalibration := Calibration(0, 0, 0, 0, 0, 0, 0, 0, 0, 0, 0, 0)

  /** The coefficients of the worked example in section 3.12 of the datasheet. */
  const DatasheetCalibration :=
    Calibration(27504, 26435, -1000, 36477, -10685, 3024, 2855, 140, -7, 15500, -14600, 6000)

  // ---------------------------------------------------------------------
  // Calibration block

  /** `u16::from_le_bytes([lo, hi])`. */
  function U16Le(lo: Byte, hi: Byte): (u: U16) {
    lo + 0x100 * hi
  }

  /** `i16::from_le_bytes([lo, hi])`: the same bits read as two's complement,
      negative exactly when the top bit of the high byte is set. */
  function I16Le(lo: Byte, hi: Byte): (v: I16)
    ensures v < 0 <==> hi >= 0x80
    ensures (v - U16Le(lo, hi)) % 0x1_0000 == 0
  {
    var u := U16Le(lo, hi);
    if u < 0x8000 then u else u - 0x1_0000
  }

  /** `dig_T1` and `dig_P1` are the only unsigned coefficients. */
  predicate IsUnsigned(k: nat) {
    k == 0 || k == 3
  }

  /** Coefficient number `k` in register order (T1, T2, T3, P1, ..., P9). */
  function Coefficient(c: Calibration, k: nat): (v: int)
    requires k < CoefficientCount
    ensures IsUnsigned(k) ==> 0 <= v < 0x1_0000
    ensures !IsUnsigned(k) ==> -0x8000 <= v < 0x8000
  {
    if k == 0 then c.digT1 else if k == 1 then c.digT2 else if k == 2 then c.digT3
    else if k == 3 then c.digP1 else if k == 4 then c.digP2 else if k == 5 then c.digP3
    else if k == 6 then c.digP4 else if k == 7 then c.digP5 else if k == 8 then c.digP6
    else if k == 9 then c.digP7 else if k == 10 then c.digP8 else c.digP9
  }

  /** The 16 bits of coefficient `k` as the chip stores them. */
  function CoefficientBits(c: Calibration, k: nat): (bits: U16)
    requires k < CoefficientCount
  {
    var v := Coefficient(c, k);
    if v < 0 then v + 0x1_0000 else v
  }

  /** The decoding `ler_calibracao` performs on the 24 bytes read from 0x88:
      coefficient `k` comes from bytes `2k` (low) and `2k + 1` (high), T1 and
      P1 unsigned, all others two's complement. */
  function DecodeCalibration(b: seq<Byte>): (c: Calibration)
    requires |b| == CalibLength
    ensures forall k :: 0 <= k < CoefficientCount ==>
      Coefficient(c, k) == if IsUnsigned(k) then U16Le(b[2 * k], b[2 * k + 1]) else I16Le(b[2 * k], b[2 * k + 1])
  {
    Calibration(
      U16Le(b[0], b[1]), I16Le(b[2], b[3]), I16Le(b[4], b[5]),
      U16Le(b[6], b[7]), I16Le(b[8], b[9]), I16Le(b[10], b[11]),
      I16Le(b[12], b[13]), I16Le(b[14], b[15]), I16Le(b[16], b[17]),
      I16Le(b[18], b[19]), I16Le(b[20], b[21]), I16Le(b[22], b[23]))
  }

  /** The calibration block a chip with coefficients `c` holds: the stored
      bits of coefficient `k`, little-endian, in bytes `2k` and `2k + 1`. */
  function EncodeCalibration(c: Calibration): (b: seq<Byte>)
    ensures |b| == CalibLength
    ensures forall k :: 0 <= k < CoefficientCount ==> U16Le(b[2 * k], b[2 * k + 1]) == CoefficientBits(c, k)
  {
    var b := seq(CalibLength, i requires 0 <= i < CalibLength =>
      if i % 2 == 0 then CoefficientBits(c, i / 2) % 0x100 else CoefficientBits(c, i / 2) / 0x100);
    EncodedPairs(c, b);
    b
  }

  /** A block laid out byte by byte as `EncodeCalibration` lays it out holds
      each coefficient's stored bits in its byte pair. */
  lemma EncodedPairs(c: Calibration, b: seq<Byte>)
    requires |b| == CalibLength
    requires forall i :: 0 <= i < CalibLength ==>
      b[i] == if i % 2 == 0 then CoefficientBits(c, i / 2) % 0x100 else CoefficientBits(c, i / 2) / 0x100
    ensures forall k :: 0 <= k < CoefficientCount ==> U16Le(b[2 * k], b[2 * k + 1]) == CoefficientBits(c, k)
  {
    forall k | 0 <= k < CoefficientCount
      ensures U16Le(b[2 * k], b[2 * k + 1]) == CoefficientBits(c, k)
    {
      assert (2 * k) / 2 == k && (2 * k + 1) / 2 == k;
      BytePairRoundTrip(CoefficientBits(c, k));
    }
  }

  lemma BytePairRoundTrip(u: U16)
    ensures U16Le(u % 0x100, u / 0x100) == u
  {
  }

  lemma BytePairSplit(lo: Byte, hi: Byte)
    ensures U16Le(lo, hi) % 0x100 == lo && U16Le(lo, hi) / 0x100 == hi
  {
    DivisionUnique(U16Le(lo, hi), 0x100, hi, lo);
  }

  /** The stored bits of a decoded coefficient are its byte pair. */
  lemma DecodedBits(b: seq<Byte>, k: nat)
    requires |b| == CalibLength && k < CoefficientCount
    ensures CoefficientBits(DecodeCalibration(b), k) == U16Le(b[2 * k], b[2 * k + 1])
  {
  }

  /** Decoding the block of a chip returns exactly that chip's coefficients. */
  lemma DecodeEncodeCalibration(c: Calibration)
    ensures DecodeCalibration(EncodeCalibration(c)) == c
  {
  }

  /** Every 24-byte block is the block of the coefficients it decodes to:
      no two blocks decode alike. */
  lemma EncodeDecodeCalibration(b: seq<Byte>)
    requires |b| == CalibLength
    ensures EncodeCalibration(DecodeCalibration(b)) == b
  {
    var c := DecodeCalibration(b);
    var e := EncodeCalibration(c);
    forall i | 0 <= i < CalibLength
      ensures e[i] == b[i]
    {
      var k := i / 2;
      DecodedBits(b, k);
      BytePairSplit(b[2 * k], b[2 * k + 1]);
      assert i == 2 * k || i == 2 * k + 1;
    }
  }

  // ---------------------------------------------------------------------
  // Raw ADC values

  /** `msb << 12 | lsb << 4 | xlsb >> 4`: one 20-bit reading from its three
      data registers. The three fields do not overlap, so the `|` is a sum;
      `msb` is bits 19..12, `lsb` bits 11..4, and the high nibble of `xlsb`
      bits 3..0 (its low nibble is dropped). */
  function Raw20(msb: Byte, lsb: Byte, xlsb: Byte): (adc: I32)
    ensures 0 <= adc < 0x10_0000
    ensures adc / 0x1000 == msb && adc / 0x10 % 0x100 == lsb && adc % 0x10 == xlsb / 0x10
  {
    var adc := msb * 0x1000 + lsb * 0x10 + xlsb / 0x10;
    DivisionUnique(adc, 0x1000, msb, lsb * 0x10 + xlsb / 0x10);
    DivisionUnique(adc, 0x10, msb * 0x100 + lsb, xlsb / 0x10);
    DivisionUnique(msb * 0x100 + lsb, 0x100, msb, lsb);
    adc
  }

  /** Register contents that produce the 20-bit reading `adc`. */
  function RawBytes(adc: int): (b: seq<Byte>)
    requires 0 <= adc < 0x10_0000
    ensures |b| == 3
  {
    [adc / 0x1000, adc / 0x10 % 0x100, adc % 0x10 * 0x10]
  }

  /** Unpacking the registers that hold `adc` gives back `adc`. */
  lemma Raw20RoundTrip(adc: int)
    requires 0 <= adc < 0x10_0000
    ensures var b := RawBytes(adc); Raw20(b[0], b[1], b[2]) == adc
  {
    var b := RawBytes(adc);
    var hi, mid, lo := adc / 0x1000, adc / 0x10 % 0x100, adc % 0x10;
    DivisionUnique(lo * 0x10, 0x10, lo, 0);
    DivisionUnique(adc / 0x10, 0x100, hi, mid) by {
      DivisionUnique(adc, 0x1000, adc / 0x10 / 0x100, adc / 0x10 % 0x100 * 0x10 + lo);
    }
    assert adc == (hi * 0x100 + mid) * 0x10 + lo;
  }

  // ---------------------------------------------------------------------
  // Compensation (datasheet section 3.11.3), with the firmware's widths

  /** `t_fine` as `compensar_temperatura` computes it in `i32`. */
  function TFine(c: Calibration, adcT: I32): (tFine: I32) {
    var var1 := Sar(WrapI32(WrapI32(Sar(adcT, 3) - WrapI32(c.digT1 * 2)) * c.digT2), 11);
    var dt := WrapI32(Sar(adcT, 4) - c.digT1);
    var var2 := Sar(WrapI32(Sar(WrapI32(dt * dt), 12) * c.digT3), 14);
    WrapI32(var1 + var2)
  }

  /** When `5 * t_fine + 128` fits an `i32`, `(t_fine * 5 + 128) >> 8` is
      `t_fine * 5 / 256` rounded to the nearest hundredth of a degree Celsius
      (halves upward). */
  function Hundredths(tFine: I32): (h: I32)
    ensures Fits32(5 * tFine + 128) ==> h * 256 <= 5 * tFine + 128 < h * 256 + 256
  {
    assert Pow2(8) == 256;
    Sar(WrapI32(WrapI32(tFine * 5) + 128), 8)
  }

  /** `5 * t_fine` and `5 * t_fine + 128` fit an `i32`. */
  predicate Fits32(x: int) {
    -0x8000_0000 <= x - 128 && x < 0x8000_0000
  }

  /** Without overflow, a larger `t_fine` never reads colder. */
  lemma HundredthsMonotone(tFine: I32, other: I32)
    requires Fits32(5 * tFine + 128) && Fits32(5 * other + 128)
    ensures tFine <= other ==> Hundredths(tFine) <= Hundredths(other)
  {
  }

  /** Stage one of `compensar_pressao`: the offset `var2`. */
  function PressureOffset(c: Calibration, tFine: I32): (offset: I64) {
    var v1 := tFine - 128000;
    var a := WrapI64(WrapI64(v1 * v1) * c.digP6);
    var b := WrapI64(a + WrapI64(WrapI64(v1 * c.digP5) * Pow2(17)));
    WrapI64(b + WrapI64(c.digP4 * Pow2(35)))
  }

  /** Stage one of `compensar_pressao`: the denominator `var1`, scaled by
      `dig_P1`, so an unprogrammed `dig_P1 == 0` (the all-zero calibration,
      say) always makes it zero. */
  function PressureDenominator(c: Calibration, tFine: I32): (den: I64)
    ensures c.digP1 == 0 ==> den == 0
  {
    var v1 := tFine - 128000;
    var a := WrapI64(Sar(WrapI64(WrapI64(v1 * v1) * c.digP3), 8) + WrapI64(WrapI64(v1 * c.digP2) * Pow2(12)));
    var base := WrapI64(Pow2(47) + a);
    assert c.digP1 == 0 ==> base * c.digP1 == 0;
    Sar(WrapI64(base * c.digP1), 33)
  }

  /** `compensar_pressao` in pascals times 256, given the `t_fine` of the
      same cycle: 0 instead of a division by a zero denominator, and the
      division truncating toward zero. */
  function Pressure(c: Calibration, tFine: I32, adcP: I32): (p: I64)
    ensures PressureDenominator(c, tFine) == 0 ==> p == 0
  {
    var den := PressureDenominator(c, tFine);
    if den == 0 then 0
    else
      var p0 := 1048576 - adcP;
      var p1 := WrapI64(TruncDiv(WrapI64(WrapI64(WrapI64(p0 * Pow2(31)) - PressureOffset(c, tFine)) * 3125), den));
      var w1 := Sar(WrapI64(WrapI64(c.digP9 * Sar(p1, 13)) * Sar(p1, 13)), 25);
      var w2 := Sar(WrapI64(c.digP8 * p1), 19);
      WrapI64(Sar(WrapI64(WrapI64(p1 + w1) + w2), 8) + WrapI64(c.digP7 * 16))
  }

  /** The datasheet's worked example: t_fine 128422 and 25.08 degrees Celsius. */
  lemma DatasheetTemperature()
    ensures TFine(DatasheetCalibration, 519888) == 128422
    ensures Hundredths(128422) == 2508
  {
    Pow2Table();
    var c := DatasheetCalibration;
    assert Sar(519888, 3) == 64986 && Sar(519888, 4) == 32493;
    assert Sar(WrapI32(WrapI32(64986 - WrapI32(c.digT1 * 2)) * c.digT2), 11) == 128793;
    assert Sar(WrapI32(Sar(WrapI32(4989 * 4989), 12) * c.digT3), 14) == -371;
  }

  /** The same example's pressure: 25767233 / 256, about 100653.25 pascals. */
  lemma DatasheetPressure()
    ensures Pressure(DatasheetCalibration, 128422, 415148) == 25767233
  {
    Pow2Table();
    var c := DatasheetCalibration;
    assert PressureOffset(c, 128422) == 98104795527812;
    assert PressureDenominator(c, 128422) == 597560748;
    var p0 := 1048576 - 415148;
    assert WrapI64(WrapI64(WrapI64(p0 * Pow2(31)) - 98104795527812) * 3125) == 3944285864554787500;
    assert TruncDiv(3944285864554787500, 597560748) == 6600644165;
    var p1 := 6600644165;
    assert Sar(p1, 13) == 805742;
    assert Sar(WrapI64(WrapI64(c.digP9 * 805742) * 805742), 25) == 116089612;
    assert Sar(WrapI64(c.digP8 * p1), 19) == -183810053;
    assert WrapI64(Sar(WrapI64(WrapI64(p1 + 116089612) - 183810053), 8) + WrapI64(c.digP7 * 16)) == 25767233;
  }

  // ---------------------------------------------------------------------
  // Measurement cycle

  /** Status bit 3 (`measuring`) is set. */
  predicate Measuring(status: Byte) {
    (status as bv8) & MeasuringBit != 0
  }

  /** How many status reads the poll loop performs from read `i` on: it
      stops after the first failed read, after the first read with the
      measuring bit clear, and after `MaxStatusPolls` reads in all. */
  function PollsFrom(status: seq<Result<Byte>>, i: nat): (n: nat)
    requires i < MaxStatusPolls <= |status|
    ensures i < n <= MaxStatusPolls
    ensures forall j :: i <= j < n - 1 ==> status[j].Ok? && Measuring(status[j].value)
    ensures n < MaxStatusPolls ==> status[n - 1].Err? || !Measuring(status[n - 1].value)
    decreases MaxStatusPolls - i
  {
    if i == MaxStatusPolls - 1 || status[i].Err? || !Measuring(status[i].value) then i + 1
    else PollsFrom(status, i + 1)
  }

  function StatusPolls(status: seq<Result<Byte>>): (n: nat)
    requires MaxStatusPolls <= |status|
  {
    PollsFrom(status, 0)
  }

  /** The poll loop ended on a failed read, which aborts the cycle. */
  predicate PollFailed(status: seq<Result<Byte>>)
    requires MaxStatusPolls <= |status|
  {
    status[StatusPolls(status) - 1].Err?
  }

  /** At most ten status reads; the loop stops at the first that fails or
      shows the measuring bit clear, and a cycle whose status never clears
      still goes on to the burst read. */
  lemma StatusPollBudget(status: seq<Result<Byte>>)
    requires MaxStatusPolls <= |status|
    ensures 1 <= StatusPolls(status) <= MaxStatusPolls
    ensures (forall j :: 0 <= j < MaxStatusPolls ==> status[j].Ok? && Measuring(status[j].value))
        ==> StatusPolls(status) == MaxStatusPolls && !PollFailed(status)
    ensures forall j ::
              (0 <= j < MaxStatusPolls && status[j].Ok? && !Measuring(status[j].value)
               && (forall i :: 0 <= i < j ==> status[i].Ok? && Measuring(status[i].value)))
              ==> StatusPolls(status) == j + 1 && !PollFailed(status)
  {
  }

  function Repeat<T>(x: T, n: nat): (s: seq<T>)
    ensures |s| == n && forall i :: 0 <= i < n ==> s[i] == x
  {
    if n == 0 then [] else Repeat(x, n - 1) + [x]
  }

  /** One reading as the firmware holds it before its `f32` conversions. */
  datatype Reading = Reading(temperature: I32, pressure: I64)

  class Bmp280 {
    var cal: Calibration
    var tFine: I32

    /** The driver value `BMP280::new` builds before any register access. */
    constructor Blank()
      ensures cal == ZeroCalibration && tFine == 0
    {
      cal := ZeroCalibration;
      tFine := 0;
    }

    /** `ler_calibracao`: on a successful read of the block, overwrites all
        twelve coefficients; on a failed read, changes nothing. */
    method LoadCalibration(block: Result<seq<Byte>>) returns (r: Result<()>)
      requires block.Ok? ==> |block.value| == CalibLength
      modifies this`cal
      ensures r.Ok? <==> block.Ok?
      ensures r.Err? ==> r.error == block.error && cal == old(cal)
      ensures r.Ok? ==> cal == DecodeCalibration(block.value)
    {
      if block.Err? {
        return Err(block.error);
      }
      var b := block.value;
      cal := cal.(digT1 := U16Le(b[0], b[1]));
      cal := cal.(digT2 := I16Le(b[2], b[3]));
      cal := cal.(digT3 := I16Le(b[4], b[5]));
      cal := cal.(digP1 := U16Le(b[6], b[7]));
      cal := cal.(digP2 := I16Le(b[8], b[9]));
      cal := cal.(digP3 := I16Le(b[10], b[11]));
      cal := cal.(digP4 := I16Le(b[12], b[13]));
      cal := cal.(digP5 := I16Le(b[14], b[15]));
      cal := cal.(digP6 := I16Le(b[16], b[17]));
      cal := cal.(digP7 := I16Le(b[18], b[19]));
      cal := cal.(digP8 := I16Le(b[20], b[21]));
      cal := cal.(digP9 := I16Le(b[22], b[23]));
      r := Ok(());
    }

    /** `compensar_temperatura`: sets `t_fine` and returns hundredths of a
        degree; the calibration is untouched. */
    method CompensateTemperature(adcT: I32) returns (t: I32)
      modifies this`tFine
      ensures tFine == TFine(cal, adcT)
      ensures t == Hundredths(tFine)
    {
      tFine := TFine(cal, adcT);
      t := Hundredths(tFine);
    }

    /** `compensar_pressao`: the pressure in Pa from this driver's calibration
        and its current `t_fine`; nothing changes. */
    method CompensatePressure(adcP: I32) returns (p: I64)
      ensures p == Pressure(cal, tFine, adcP)
    {
      p := Pressure(cal, tFine, adcP);
    }

    /** The status loop of `ler_dados`: up to ten reads of the status
        register, stopping at the first with the measuring bit clear; a
        failed read ends the loop with that read's error. */
    method PollStatus(status: seq<Result<Byte>>) returns (r: Result<()>, issued: seq<Transaction>)
      requires MaxStatusPolls <= |status|
      ensures issued == Repeat(Read(RegStatus, 1), StatusPolls(status))
      ensures r.Err? <==> PollFailed(status)
      ensures r.Err? ==> r.error == status[StatusPolls(status) - 1].error
    {
      issued := [];
      var i := 0;
      while i < MaxStatusPolls
        invariant 0 <= i <= MaxStatusPolls
        invariant issued == Repeat(Read(RegStatus, 1), i)
        invariant i < MaxStatusPolls ==> StatusPolls(status) == PollsFrom(status, i)
        invariant i == MaxStatusPolls ==> StatusPolls(status) == MaxStatusPolls && !PollFailed(status)
      {
        issued := issued + [Read(RegStatus, 1)];
        if status[i].Err? {
          assert StatusPolls(status) == i + 1;
          return Err(status[i].error), issued;
        }
        if !Measuring(status[i].value) {
          i := i + 1;
          break;
        }
        // The firmware sleeps 10 ms before the next poll.
        i := i + 1;
      }
      assert StatusPolls(status) == i && !PollFailed(status);
      r := Ok(());
    }

    /** `ler_dados`: polls the status register, burst-reads the six data
        registers, then compensates temperature before pressure so that the
        pressure uses this cycle's `t_fine`. A failed read aborts the cycle
        with that read's error. */
    method ReadData(status: seq<Result<Byte>>, burst: Result<seq<Byte>>)
        returns (r: Result<Reading>, issued: seq<Transaction>)
      requires MaxStatusPolls <= |status|
      requires burst.Ok? ==> |burst.value| == DataLength
      modifies this`tFine
      ensures var n := StatusPolls(status);
        issued == Repeat(Read(RegStatus, 1), n) + (if PollFailed(status) then [] else [Read(RegData, DataLength)])
      ensures r.Ok? <==> !PollFailed(status) && burst.Ok?
      ensures PollFailed(status) ==> r == Err(status[StatusPolls(status) - 1].error)
      ensures !PollFailed(status) && burst.Err? ==> r == Err(burst.error)
      ensures r.Err? ==> tFine == old(tFine)
      ensures r.Ok? ==>
        var b := burst.value;
        tFine == TFine(cal, Raw20(b[3], b[4], b[5]))
        && r.value == Reading(Hundredths(tFine), Pressure(cal, tFine, Raw20(b[0], b[1], b[2])))
    {
      var polled;
      polled, issued := PollStatus(status);
      if polled.Err? {
        assert issued + [] == issued;
        return Err(polled.error), issued;
      }
      issued := issued + [Read(RegData, DataLength)];
      if burst.Err? {
        return Err(burst.error), issued;
      }
      var b := burst.value;
      var adcP := Raw20(b[0], b[1], b[2]);
      var adcT := Raw20(b[3], b[4], b[5]);
      var temperature := CompensateTemperature(adcT);
      var pressure := CompensatePressure(adcP);
      r := Ok(Reading(temperature, pressure));
    }
  }

  /** The transactions of `BMP280::new`, in order: chip ID, calibration
      block, soft reset, then the two configuration registers of `init`. */
  function InitTransactions(): (t: seq<Transaction>)
    ensures |t| == 5
  {
    [Read(RegChipId, 1), Read(RegCalib, CalibLength), Write(RegReset, ResetWord),
     Write(RegCtrlMeas, CtrlMeasWord), Write(RegConfig, ConfigWord)]
  }

  /** `BMP280::new`: transaction number `failAt` is the first that fails (none
      does when `failAt >= 5`); `calib` is what the calibration read returns.
      The chip ID is read but a mismatch only logs, so its value plays no part. */
  method Create(calib: seq<Byte>, failAt: nat) returns (r: Result<Bmp280>, issued: seq<Transaction>)
    requires |calib| == CalibLength
    ensures issued == InitTransactions()[..if failAt < 5 then failAt + 1 else 5]
    ensures r.Ok? <==> failAt >= 5
    ensures r.Err? ==> r.error == BusFault
    ensures r.Ok? ==> fresh(r.value) && r.value.cal == DecodeCalibration(calib) && r.value.tFine == 0
  {
    var sensor := new Bmp280.Blank();
    issued := [Read(RegChipId, 1)];
    if failAt == 0 {
      return Err(BusFault), issued;
    }
    issued := issued + [Read(RegCalib, CalibLength)];
    var loaded := sensor.LoadCalibration(if failAt == 1 then Err(BusFault) else Ok(calib));
    if loaded.Err? {
      return Err(loaded.error), issued;
    }
    issued := issued + [Write(RegReset, ResetWord)];
    if failAt == 2 {
      return Err(BusFault), issued;
    }
    // The firmware waits 10 ms for the reset to settle.
    issued := issued + [Write(RegCtrlMeas, CtrlMeasWord)];
    if failAt == 3 {
      return Err(BusFault), issued;
    }
    issued := issued + [Write(RegConfig, ConfigWord)];
    if failAt == 4 {
      return Err(BusFault), issued;
    }
    r := Ok(sensor);
  }
}
