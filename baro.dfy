/** The MS5611 barometer driver: calibration PROM, command bytes, ADC readout, the
    datasheet's first- and second-order temperature/pressure compensation in integer
    arithmetic, and the sliding-window median filter applied to the temperature
    difference. SPI transfers are given as the bytes the sensor drives onto the bus
    (None when the transfer fails). */
module Baro {
  import opened Common

  const PREV_VALUES_LENGTH: nat := 20

  // ---------------------------------------------------------------------------
  // Calibration PROM
  // ---------------------------------------------------------------------------

  /** The six factory calibration words C1..C6 of the MS5611 PROM. */
  datatype Calibration = Calibration(
    pressureSensitivity: uint16,          // C1
    pressureOffset: uint16,               // C2
    tempCoefPressureSensitivity: uint16,  // C3
    tempCoefPressureOffset: uint16,       // C4
    referenceTemperature: uint16,         // C5
    tempCoefTemperature: uint16)          // C6
  {
    function Words(): (w: seq<uint16>)
      ensures |w| == 6
    {
      [pressureSensitivity, pressureOffset, tempCoefPressureSensitivity,
       tempCoefPressureOffset, referenceTemperature, tempCoefTemperature]
    }

    /** `MS5611CalibrationData::valid`: no word reads as all zeros or all ones, the
        two patterns an absent or unprogrammed PROM returns. */
    function Valid(): (ok: bool)
      ensures ok <==> 0x0000 !in Words() && 0xffff !in Words()
    {
      pressureSensitivity != 0x0000 &&
      pressureOffset != 0x0000 &&
      tempCoefPressureSensitivity != 0x0000 &&
      tempCoefPressureOffset != 0x0000 &&
      referenceTemperature != 0x0000 &&
      tempCoefTemperature != 0x0000 &&
      pressureSensitivity != 0xffff &&
      pressureOffset != 0xffff &&
      tempCoefPressureSensitivity != 0xffff &&
      tempCoefPressureOffset != 0xffff &&
      referenceTemperature != 0xffff &&
      tempCoefTemperature != 0xffff
    }
  }

  /** `((b0 as u16) << 8) + (b1 as u16)`: a big-endian PROM word, whose high and low
      bytes are the two bytes read. */
  function PromWord(b0: uint8, b1: uint8): (w: uint16)
    ensures w / 0x100 == b0 && w % 0x100 == b1
  {
    b0 * 0x100 + b1
  }

  /** `((b0 as i32) << 16) + ((b1 as i32) << 8) + (b2 as i32)`: the 24-bit big-endian
      ADC result, whose three bytes are the three bytes read. */
  function AdcValue(b0: uint8, b1: uint8, b2: uint8): (v: int)
    ensures 0 <= v < 0x100_0000
    ensures v / 0x1_0000 == b0 && (v / 0x100) % 0x100 == b1 && v % 0x100 == b2
  {
    var low := b1 * 0x100 + b2;
    SplitWord(b0, low);
    SplitByte(b0 * 0x100 + b1, b2);
    SplitByte(b0, b1);
    b0 * 0x1_0000 + low
  }

  /** Quotient and remainder of `q * 0x100 + r` for a byte `r`. */
  lemma SplitByte(q: nat, r: nat)
    requires r < 0x100
    ensures (q * 0x100 + r) / 0x100 == q && (q * 0x100 + r) % 0x100 == r
  {
  }

  /** Quotient and remainder of `q * 0x1_0000 + r` for a 16-bit `r`. */
  lemma SplitWord(q: nat, r: nat)
    requires r < 0x1_0000
    ensures (q * 0x1_0000 + r) / 0x1_0000 == q && (q * 0x1_0000 + r) % 0x1_0000 == r
  {
  }

  // ---------------------------------------------------------------------------
  // Commands
  // ---------------------------------------------------------------------------

  /** `read_adc`: the 24-bit conversion result in the response to ReadAdc. */
  function AdcReading(miso: seq<uint8>): (v: int)
    ensures 0 <= v < 0x100_0000
    ensures |miso| >= 4 ==> v == miso[1] as int * 0x1_0000 + miso[2] as int * 0x100 + miso[3] as int
  {
    var r := CommandResponse(ReadAdc, 3, miso);
    AdcValue(r[0], r[1], r[2])
  }

  datatype Osr = Osr256 | Osr512 | Osr1024 | Osr2048 | Osr4096
  {
    function Bits(): (b: nat)
      ensures b <= 4
    {
      match this
      case Osr256 => 0
      case Osr512 => 1
      case Osr1024 => 2
      case Osr2048 => 3
      case Osr4096 => 4
    }
  }

  datatype Command =
    | Reset
    | StartPressureConversion(osr: Osr)
    | StartTempConversion(osr: Osr)
    | ReadAdc
    | ReadProm(address: uint8)

  /** `impl Into<u8> for MS5611Command`. `adr << 1` and the addition are u8 arithmetic;
      they are written here with the wrap-around of a build without overflow checks. */
  function CommandByte(c: Command): (b: uint8)
    ensures c == Reset ==> b == 0x1e
    ensures c == ReadAdc ==> b == 0x00
    ensures c.StartPressureConversion? ==> b == 0x40 + 2 * c.osr.Bits()
    ensures c.StartTempConversion? ==> b == 0x50 + 2 * c.osr.Bits()
    ensures c.ReadProm? && c.address < 8 ==> b == 0xa0 + 2 * c.address
  {
    match c
    case Reset => 0x1e
    case StartPressureConversion(osr) => 0x40 + osr.Bits() * 2
    case StartTempConversion(osr) => 0x50 + osr.Bits() * 2
    case ReadAdc => 0x00
    case ReadProm(adr) => (0xa0 + (adr * 2) % 0x100) % 0x100
  }

  function OsrFromBits(b: nat): Option<Osr> {
    match b
    case 0 => Some(Osr256)
    case 1 => Some(Osr512)
    case 2 => Some(Osr1024)
    case 3 => Some(Osr2048)
    case 4 => Some(Osr4096)
    case _ => None
  }

  /** The command a byte stands for on the MS5611's command set (PROM addresses 0..7). */
  function CommandFromByte(b: uint8): Option<Command> {
    if b == 0x1e then Some(Reset)
    else if b == 0x00 then Some(ReadAdc)
    else if 0x40 <= b < 0x50 && b % 2 == 0 then
      match OsrFromBits((b - 0x40) / 2)
      case Some(osr) => Some(StartPressureConversion(osr))
      case None => None
    else if 0x50 <= b < 0x60 && b % 2 == 0 then
      match OsrFromBits((b - 0x50) / 2)
      case Some(osr) => Some(StartTempConversion(osr))
      case None => None
    else if 0xa0 <= b < 0xb0 && b % 2 == 0 then Some(ReadProm((b - 0xa0) / 2))
    else None
  }

  /** The command bytes are unambiguous: every command of the sensor's command set is
      recovered from its byte, so no two of them share one. */
  lemma CommandByteRoundTrip(c: Command)
    requires c.ReadProm? ==> c.address < 8
    ensures CommandFromByte(CommandByte(c)) == Some(c)
  {
    match c
    case StartPressureConversion(osr) =>
      assert (CommandByte(c) - 0x40) / 2 == osr.Bits();
    case StartTempConversion(osr) =>
      assert (CommandByte(c) - 0x50) / 2 == osr.Bits();
    case _ =>
  }

  /** The bytes a command returns: the exchanged frame `[command] ++ zeros(n)` without
      its first byte, always exactly `n` of them. */
  function CommandResponse(c: Command, n: nat, miso: seq<uint8>): (r: seq<uint8>)
    ensures |r| == n
    ensures forall i :: 0 <= i < n && i + 1 < |miso| ==> r[i] == miso[i + 1]
  {
    Exchange([CommandByte(c)] + Zeros(n), miso)[1..]
  }

  /** The calibration word at PROM address `i + 1`, from the bytes its read returned. */
  function CalibrationWord(i: nat, miso: seq<uint8>): (w: uint16)
    requires i < 6
  {
    var r := CommandResponse(ReadProm(i + 1), 2, miso);
    PromWord(r[0], r[1])
  }

  /** `read_calibration_values`: PROM addresses 1..6, two bytes each, assembled into
      words. Any failed transfer fails the whole read. */
  function ReadCalibrationValues(prom: seq<Option<seq<uint8>>>): (cal: Option<Calibration>)
    requires |prom| == 6
    ensures cal.Some? <==> forall i :: 0 <= i < 6 ==> prom[i].Some?
    ensures cal.Some? ==> forall i :: 0 <= i < 6 ==> cal.value.Words()[i] == CalibrationWord(i, prom[i].value)
  {
    if prom[0].None? || prom[1].None? || prom[2].None? || prom[3].None? || prom[4].None? || prom[5].None? then None
    else
      Some(Calibration(CalibrationWord(0, prom[0].value), CalibrationWord(1, prom[1].value),
                       CalibrationWord(2, prom[2].value), CalibrationWord(3, prom[3].value),
                       CalibrationWord(4, prom[4].value), CalibrationWord(5, prom[5].value)))
  }

  // ---------------------------------------------------------------------------
  // Compensation (integer arithmetic; every `>> n` is a floor division by 2^n)
  // ---------------------------------------------------------------------------

  datatype Reading = Reading(temperature: int, pressure: int)

  /** First-order temperature in 0.01 degC: `2000 + (dt * C6) >> 23`. */
  function FirstOrderTemperature(cal: Calibration, dt: int): int {
    2000 + (dt * cal.tempCoefTemperature) / 0x80_0000
  }

  /** The compensation of `read_sensor_data`: temperature in 0.01 degC and pressure in
      0.01 mbar, from the filtered temperature difference and the raw pressure. */
  function Compensate(cal: Calibration, dt: int, rawPressure: int): Reading {
    var temp := FirstOrderTemperature(cal, dt);
    var offset := cal.pressureOffset * 0x1_0000 + (cal.tempCoefPressureOffset * dt) / 0x80;
    var sens := cal.pressureSensitivity * 0x8000 + (cal.tempCoefPressureSensitivity * dt) / 0x100;
    if temp < 2000 then
      var t2 := (dt * dt) / 0x8000_0000;
      var tempOffset := temp - 2000;
      var off2 := (5 * tempOffset * tempOffset) / 2;
      var sens2 := off2 / 2;
      var coldOffset := temp + 1500;
      var off2' := if temp < -1500 then off2 + 7 * coldOffset * coldOffset else off2;
      var sens2' := if temp < -1500 then sens2 + (11 * coldOffset * coldOffset) / 2 else sens2;
      Reading(temp - t2, ((rawPressure * (sens - sens2')) / 0x20_0000 - (offset - off2')) / 0x8000)
    else
      Reading(temp, ((rawPressure * sens) / 0x20_0000 - offset) / 0x8000)
  }

  /** The compensation as the MS5611-01BA03 datasheet writes it: dT, TEMP, OFF, SENS,
      then T2 = dT^2 / 2^31, OFF2 = 5 (TEMP-2000)^2 / 2, SENS2 = 5 (TEMP-2000)^2 / 4
      below 20 degC, plus 7 (TEMP+1500)^2 and 11 (TEMP+1500)^2 / 2 below -15 degC, and
      P = (D1 SENS / 2^21 - OFF) / 2^15. */
  function DatasheetCompensate(cal: Calibration, dT: int, d1: int): Reading {
    var temp := 2000 + dT * cal.tempCoefTemperature / 0x80_0000;
    var off := cal.pressureOffset * 0x1_0000 + cal.tempCoefPressureOffset * dT / 0x80;
    var sens := cal.pressureSensitivity * 0x8000 + cal.tempCoefPressureSensitivity * dT / 0x100;
    var t2 := if temp < 2000 then dT * dT / 0x8000_0000 else 0;
    var low := temp - 2000;
    var veryLow := temp + 1500;
    var off2 := if temp >= 2000 then 0 else if temp >= -1500 then 5 * low * low / 2 else 5 * low * low / 2 + 7 * veryLow * veryLow;
    var sens2 := if temp >= 2000 then 0 else if temp >= -1500 then 5 * low * low / 4 else 5 * low * low / 4 + 11 * veryLow * veryLow / 2;
    Reading(temp - t2, (d1 * (sens - sens2) / 0x20_0000 - (off - off2)) / 0x8000)
  }

  lemma HalfOfHalf(x: int)
    ensures (x / 2) / 2 == x / 4
  {
  }

  /** The firmware's shift sequence computes exactly the datasheet's compensation:
      SENS2 as `OFF2 >> 1` is the datasheet's 5 (TEMP-2000)^2 / 4, and the second-order
      terms are applied only below 20 degC (and the extra ones only below -15 degC). */
  lemma CompensateMatchesDatasheet(cal: Calibration, dt: int, rawPressure: int)
    ensures Compensate(cal, dt, rawPressure) == DatasheetCompensate(cal, dt, rawPressure)
  {
    var temp := FirstOrderTemperature(cal, dt);
    HalfOfHalf(5 * (temp - 2000) * (temp - 2000));
  }

  /** The datasheet's first-order pressure: P = (D1 SENS / 2^21 - OFF) / 2^15 with
      OFF = C2 2^16 + C4 dT / 2^7 and SENS = C1 2^15 + C3 dT / 2^8. */
  function FirstOrderPressure(cal: Calibration, dT: int, d1: int): int {
    var off := cal.pressureOffset * 0x1_0000 + cal.tempCoefPressureOffset * dT / 0x80;
    var sens := cal.pressureSensitivity * 0x8000 + cal.tempCoefPressureSensitivity * dT / 0x100;
    (d1 * sens / 0x20_0000 - off) / 0x8000
  }

  /** At or above 20 degC (first order) the second-order correction changes nothing:
      temperature and pressure are the first-order ones. */
  lemma NoSecondOrderAboveTwentyDegrees(cal: Calibration, dt: int, rawPressure: int)
    requires FirstOrderTemperature(cal, dt) >= 2000
    ensures Compensate(cal, dt, rawPressure).temperature == FirstOrderTemperature(cal, dt)
    ensures Compensate(cal, dt, rawPressure).pressure == FirstOrderPressure(cal, dt, rawPressure)
  {
  }

  lemma MulMonotone(a: int, b: int, c: nat)
    requires a <= b
    ensures a * c <= b * c
  {
  }

  lemma DivMonotone(a: int, b: int, d: nat)
    requires a <= b && d > 0
    ensures a / d <= b / d
  {
    var qa, qb := a / d, b / d;
    assert d * qa <= a;
    assert b < d * qb + d;
    if qa > qb {
      MulMonotone(qb + 1, qa, d);
    }
  }

  lemma SquareAntitoneOnNegatives(a: int, b: int)
    requires a <= b <= 0
    ensures b * b <= a * a
  {
    MulMonotone(-b, -a, -b);
    MulMonotone(-b, -a, -a);
    assert (-b) * (-b) <= (-a) * (-b) <= (-a) * (-a);
  }

  /** A below-reference first-order temperature means the temperature difference is
      negative. */
  lemma ColdMeansNegativeDt(cal: Calibration, dt: int)
    requires FirstOrderTemperature(cal, dt) < 2000
    ensures dt < 0
  {
    if dt >= 0 {
      MulMonotone(0, dt, cal.tempCoefTemperature);
      DivMonotone(0, dt * cal.tempCoefTemperature, 0x80_0000);
    }
  }

  /** The compensated temperature never decreases when the raw temperature difference
      grows: the second-order term T2 only subtracts, only below 20 degC, and shrinks as
      dT approaches zero from below. */
  lemma {:induction false} TemperatureMonotone(cal: Calibration, dt1: int, dt2: int, rawPressure: int)
    requires dt1 <= dt2
    ensures Compensate(cal, dt1, rawPressure).temperature <= Compensate(cal, dt2, rawPressure).temperature
  {
    var c6 := cal.tempCoefTemperature;
    MulMonotone(dt1, dt2, c6);
    DivMonotone(dt1 * c6, dt2 * c6, 0x80_0000);
    var t1 := FirstOrderTemperature(cal, dt1);
    var t2 := FirstOrderTemperature(cal, dt2);
    assert t1 <= t2;
    var r1 := Compensate(cal, dt1, rawPressure).temperature;
    var r2 := Compensate(cal, dt2, rawPressure).temperature;
    assert 0 <= (dt1 * dt1) / 0x8000_0000 by {
      assert 0 <= dt1 * dt1;
    }
    if t2 < 2000 {
      ColdMeansNegativeDt(cal, dt2);
      SquareAntitoneOnNegatives(dt1, dt2);
      DivMonotone(dt2 * dt2, dt1 * dt1, 0x8000_0000);
      assert r1 == t1 - (dt1 * dt1) / 0x8000_0000;
      assert r2 == t2 - (dt2 * dt2) / 0x8000_0000;
    } else if t1 < 2000 {
      assert r1 == t1 - (dt1 * dt1) / 0x8000_0000;
      assert r2 == t2;
    } else {
      assert r1 == t1 && r2 == t2;
    }
  }

  // ---------------------------------------------------------------------------
  // Median filter
  // ---------------------------------------------------------------------------

  predicate Sorted(s: seq<int>) {
    forall i, j :: 0 <= i < j < |s| ==> s[i] <= s[j]
  }

  function Insert(x: int, s: seq<int>): (r: seq<int>)
    requires Sorted(s)
    ensures Sorted(r) && |r| == |s| + 1
    ensures multiset(r) == multiset(s) + multiset{x}
  {
    if s == [] || x <= s[0] then
      SortedCons(x, s);
      [x] + s
    else
      var tail := Insert(x, s[1..]);
      assert s == [s[0]] + s[1..];
      HeadBelowInsert(s, x, tail);
      SortedCons(s[0], tail);
      [s[0]] + tail
  }

  /** A value no larger than the head of a sorted sequence can go in front of it. */
  lemma SortedCons(h: int, t: seq<int>)
    requires Sorted(t)
    requires t != [] ==> h <= t[0]
    ensures Sorted([h] + t)
  {
    forall i, j | 0 <= i < j < |[h] + t|
      ensures ([h] + t)[i] <= ([h] + t)[j]
    {
      if i == 0 && j > 1 {
        assert t[0] <= t[j - 1];
      }
    }
  }

  /** The head of a sorted sequence bounds everything its tail holds after an
      insertion of a larger value. */
  lemma HeadBelowInsert(s: seq<int>, x: int, tail: seq<int>)
    requires Sorted(s) && s != [] && s[0] < x
    requires multiset(tail) == multiset(s[1..]) + multiset{x}
    ensures tail != [] ==> s[0] <= tail[0]
  {
    if tail != [] {
      var y := tail[0];
      assert y in multiset(tail);
      if y != x {
        assert y in multiset(s[1..]);
        var j :| 0 <= j < |s[1..]| && s[1..][j] == y;
        assert s[j + 1] == y;
      }
    }
  }

  /** What `sorted.sort()` produces from the history: the same values, ascending. */
  function Sort(s: seq<int>): (r: seq<int>)
    ensures Sorted(r) && |r| == |s|
    ensures multiset(r) == multiset(s)
  {
    if s == [] then []
    else
      assert s == [s[0]] + s[1..];
      Insert(s[0], Sort(s[1..]))
  }

  /** `*sorted[sorted.len() / 2]`: the upper median of a non-empty history. */
  function Median(s: seq<int>): (m: int)
    requires |s| > 0
  {
    Sort(s)[|s| / 2]
  }

  /** How many values of `s` lie strictly below `m`. */
  function CountLess(s: seq<int>, m: int): (n: nat)
    ensures n <= |s|
  {
    if s == [] then 0 else (if s[0] < m then 1 else 0) + CountLess(s[1..], m)
  }

  /** How many values of `s` lie strictly above `m`. */
  function CountGreater(s: seq<int>, m: int): (n: nat)
    ensures n <= |s|
  {
    if s == [] then 0 else (if s[0] > m then 1 else 0) + CountGreater(s[1..], m)
  }

  lemma {:induction false} CountInsert(x: int, s: seq<int>, m: int)
    requires Sorted(s)
    ensures CountLess(Insert(x, s), m) == CountLess(s, m) + (if x < m then 1 else 0)
    ensures CountGreater(Insert(x, s), m) == CountGreater(s, m) + (if x > m then 1 else 0)
  {
    if s == [] || x <= s[0] {
      assert ([x] + s)[1..] == s;
    } else {
      CountInsert(x, s[1..], m);
      assert ([s[0]] + Insert(x, s[1..]))[1..] == Insert(x, s[1..]);
    }
  }

  /** Sorting neither adds nor removes values below or above any bound. */
  lemma {:induction false} CountSort(s: seq<int>, m: int)
    ensures CountLess(Sort(s), m) == CountLess(s, m)
    ensures CountGreater(Sort(s), m) == CountGreater(s, m)
  {
    if s != [] {
      CountSort(s[1..], m);
      CountInsert(s[0], Sort(s[1..]), m);
    }
  }

  lemma {:induction false} CountLessBeforeIndex(s: seq<int>, k: nat, m: int)
    requires k <= |s|
    requires forall i :: k <= i < |s| ==> m <= s[i]
    ensures CountLess(s, m) <= k
  {
    if s != [] {
      if k == 0 {
        CountLessBeforeIndex(s[1..], 0, m);
      } else {
        CountLessBeforeIndex(s[1..], k - 1, m);
      }
    }
  }

  lemma {:induction false} CountGreaterAfterIndex(s: seq<int>, k: nat, m: int)
    requires k < |s|
    requires forall i :: 0 <= i <= k ==> s[i] <= m
    ensures CountGreater(s, m) <= |s| - k - 1
  {
    if k == 0 {
      assert CountGreater(s[1..], m) <= |s| - 1;
    } else {
      CountGreaterAfterIndex(s[1..], k - 1, m);
    }
  }

  /** The filter's output is the upper median of the history: a value the history
      holds (so between its minimum and maximum), with at most `|s|/2` values below it
      and at most `(|s|-1)/2` above it. */
  lemma MedianIsUpperMedian(s: seq<int>)
    requires |s| > 0
    ensures Median(s) in s
    ensures CountLess(s, Median(s)) <= |s| / 2
    ensures CountGreater(s, Median(s)) <= (|s| - 1) / 2
  {
    var sorted := Sort(s);
    var m := sorted[|s| / 2];
    assert m in multiset(sorted);
    CountSort(s, m);
    SortedRank(sorted, |s| / 2);
  }

  /** In a sorted sequence, at most `k` values lie below the `k`-th one and at most
      `|r| - k - 1` above it. */
  lemma SortedRank(r: seq<int>, k: nat)
    requires Sorted(r) && k < |r|
    ensures CountLess(r, r[k]) <= k
    ensures CountGreater(r, r[k]) <= |r| - k - 1
  {
    forall i | k < i < |r| ensures r[k] <= r[i] {
    }
    forall i | 0 <= i < k ensures r[i] <= r[k] {
    }
    CountLessBeforeIndex(r, k, r[k]);
    CountGreaterAfterIndex(r, k, r[k]);
  }

  function Min(a: nat, b: nat): nat {
    if a < b then a else b
  }

  /** The history after a new input: pushed to the front, cut to PREV_VALUES_LENGTH. */
  function Pushed(h: seq<int>, input: int): (r: seq<int>)
    ensures |r| == Min(|h| + 1, PREV_VALUES_LENGTH)
    ensures r[0] == input && r[1..] == h[..|r| - 1]
  {
    [input] + h[..Min(|h|, PREV_VALUES_LENGTH - 1)]
  }

  /** The filter's output for an input: the median of the history before it, or the
      input itself when there is no history yet. */
  function FilterOutput(h: seq<int>, input: int): (m: int)
    ensures h == [] ==> m == input
    ensures h != [] ==> m in h
  {
    if h == [] then input else MedianIsUpperMedian(h); Median(h)
  }

  /** `BaroFilter`: the last PREV_VALUES_LENGTH raw inputs, newest first. */
  class BaroFilter {
    var history: seq<int>
    var lastFilteredValue: Option<int>
    var overshootCounter: int

    ghost predicate Valid()
      reads this
    {
      |history| <= PREV_VALUES_LENGTH
    }

    /** `BaroFilter::new`. */
    constructor ()
      ensures Valid()
      ensures history == [] && lastFilteredValue == None && overshootCounter == 0
    {
      history := [];
      lastFilteredValue := None;
      overshootCounter := 0;
    }

    /** `BaroFilter::filter`: the median of the history as it was before this input
        (the input itself while the history is empty); then the input is pushed to
        the front and the history is cut to PREV_VALUES_LENGTH values. */
    method Filter(input: int, time: uint32) returns (filtered: int)
      requires Valid()
      modifies this
      ensures Valid()
      ensures old(history) == [] ==> filtered == input
      ensures old(history) != [] ==> filtered == Median(old(history))
      ensures filtered == FilterOutput(old(history), input)
      ensures history == Pushed(old(history), input)
      ensures lastFilteredValue == Some(filtered)
      ensures overshootCounter == old(overshootCounter)
    {
      var sorted := Sort(history);
      var median := if |sorted| > 0 then sorted[|sorted| / 2] else input;
      filtered := median;
      history := history[..Min(|history|, PREV_VALUES_LENGTH - 1)];
      history := [input] + history;
      lastFilteredValue := Some(filtered);
    }
  }

  // ---------------------------------------------------------------------------
  // The driver
  // ---------------------------------------------------------------------------

  /** The raw-temperature spike the firmware injects on every 13th millisecond. */
  const SPIKE: int := 1_000_000

  /** What `read_sensor_data` feeds the filter for a raw temperature reading D2: the
      spike on every 13th millisecond added, then `dt = D2 - (C5 << 8)`. */
  function TemperatureInput(cal: Calibration, time: uint32, d2: int): (d: int)
    ensures time % 13 != 0 ==> d == d2 - cal.referenceTemperature * 0x100
    ensures time % 13 == 0 ==> d == d2 + SPIKE - cal.referenceTemperature * 0x100
  {
    d2 + (if time % 13 == 0 then SPIKE else 0) - cal.referenceTemperature * 0x100
  }

  /** The MS5611 after a successful `init`: its calibration was read (valid or not). */
  class Ms5611 {
    const calibration: Calibration
    const filter: BaroFilter
    var readTemp: bool
    var dt: Option<int>
    var temp: Option<int>
    var rawPressure: Option<int>
    var pressure: Option<int>

    /** Temperature and pressure are present together, and only when both a temperature
        difference and a raw pressure are, and then they are the compensation of these. */
    ghost predicate Valid()
      reads this, filter
    {
      && filter.Valid()
      && (temp.Some? <==> pressure.Some?)
      && (temp.Some? ==> dt.Some? && rawPressure.Some? &&
                         Compensate(calibration, dt.value, rawPressure.value) == Reading(temp.value, pressure.value))
    }

    constructor (cal: Calibration)
      ensures Valid() && fresh(filter)
      ensures calibration == cal && readTemp
      ensures dt == None && temp == None && rawPressure == None && pressure == None
      ensures filter.history == [] && filter.lastFilteredValue == None
    {
      calibration := cal;
      filter := new BaroFilter();
      readTemp := true;
      dt, temp, rawPressure, pressure := None, None, None, None;
    }

    /** `read_sensor_data`: read the finished conversion. A temperature reading (plus
        the spike on every 13th millisecond) becomes `dt = D2 - (C5 << 8)`, passed through
        the filter; a pressure reading is stored raw. Temperature and pressure are then
        recomputed when both inputs are present. False when the ADC read failed, in
        which case nothing changes. */
    method ReadSensorData(time: uint32, miso: Option<seq<uint8>>) returns (ok: bool)
      requires Valid()
      modifies this, filter
      ensures Valid()
      ensures ok == miso.Some?
      ensures !ok ==> dt == old(dt) && rawPressure == old(rawPressure) && temp == old(temp) && pressure == old(pressure)
      ensures !ok ==> filter.history == old(filter.history) && filter.lastFilteredValue == old(filter.lastFilteredValue)
      ensures readTemp == old(readTemp)
      ensures ok && readTemp ==>
                var d := TemperatureInput(calibration, time, AdcReading(miso.value));
                && rawPressure == old(rawPressure)
                && filter.history == Pushed(old(filter.history), d)
                && dt == Some(FilterOutput(old(filter.history), d))
      ensures ok && readTemp ==> filter.lastFilteredValue == dt
      ensures ok && !readTemp ==>
                && dt == old(dt) && rawPressure == Some(AdcReading(miso.value))
                && filter.history == old(filter.history)
                && filter.lastFilteredValue == old(filter.lastFilteredValue)
      ensures ok ==> (temp.Some? <==> dt.Some? && rawPressure.Some?)
    {
      if miso.None? {
        return false;
      }
      var value := AdcReading(miso.value);

      if readTemp {
        StoreTemperature(time, value);
      } else {
        rawPressure := Some(value);
      }
      Recompute();
      ok := true;
    }

    /** The temperature branch of `read_sensor_data`: the spike on every 13th
        millisecond, `dt = D2 - (C5 << 8)`, and the filter. */
    method StoreTemperature(time: uint32, value: int)
      requires filter.Valid()
      modifies this, filter
      ensures filter.Valid()
      ensures var d := TemperatureInput(calibration, time, value);
              && filter.history == Pushed(old(filter.history), d)
              && dt == Some(FilterOutput(old(filter.history), d))
      ensures filter.lastFilteredValue == dt
      ensures rawPressure == old(rawPressure) && temp == old(temp) && pressure == old(pressure)
      ensures readTemp == old(readTemp)
    {
      var raw := value;
      if time % 13 == 0 {
        raw := raw + SPIKE;
      }
      var d := raw - calibration.referenceTemperature * 0x100;
      d := filter.Filter(d, time);
      dt := Some(d);
    }

    /** The end of `read_sensor_data`: temperature and pressure are recomputed from
        dT and the raw pressure once both are present, and kept otherwise. */
    method Recompute()
      requires filter.Valid()
      requires temp.Some? <==> pressure.Some?
      requires temp.Some? ==> dt.Some? && rawPressure.Some?
      modifies this
      ensures Valid()
      ensures dt == old(dt) && rawPressure == old(rawPressure) && readTemp == old(readTemp)
      ensures temp.Some? <==> dt.Some? && rawPressure.Some?
    {
      if dt.Some? && rawPressure.Some? {
        var reading := Compensate(calibration, dt.value, rawPressure.value);
        temp := Some(reading.temperature);
        pressure := Some(reading.pressure);
      }
    }

    /** `tick`: read the pending conversion, alternate between temperature and
        pressure, and start the next conversion (at OSR 256). A failed read or a failed
        conversion start drops every reading and goes back to temperature. Returns the
        conversion command that was sent. */
    method Tick(time: uint32, adcMiso: Option<seq<uint8>>, conversionOk: bool) returns (conversion: Command)
      requires Valid()
      modifies this, filter
      ensures Valid()
      ensures adcMiso.None? ==> conversion == StartTempConversion(Osr256)
      ensures adcMiso.Some? ==> conversion == (if old(readTemp) then StartPressureConversion(Osr256) else StartTempConversion(Osr256))
      ensures adcMiso.None? || !conversionOk ==>
                readTemp && dt == None && temp == None && rawPressure == None && pressure == None
      ensures adcMiso.Some? && conversionOk ==> readTemp == !old(readTemp)
      ensures adcMiso.None? ==>
                filter.history == old(filter.history) && filter.lastFilteredValue == old(filter.lastFilteredValue)
      ensures adcMiso.Some? && old(readTemp) ==>
                var d := TemperatureInput(calibration, time, AdcReading(adcMiso.value));
                && filter.history == Pushed(old(filter.history), d)
                && filter.lastFilteredValue == Some(FilterOutput(old(filter.history), d))
      ensures adcMiso.Some? && !old(readTemp) ==>
                filter.history == old(filter.history) && filter.lastFilteredValue == old(filter.lastFilteredValue)
      ensures adcMiso.Some? && conversionOk && old(readTemp) ==>
                && rawPressure == old(rawPressure)
                && dt == Some(FilterOutput(old(filter.history), TemperatureInput(calibration, time, AdcReading(adcMiso.value))))
      ensures adcMiso.Some? && conversionOk && !old(readTemp) ==>
                dt == old(dt) && rawPressure == Some(AdcReading(adcMiso.value))
      ensures adcMiso.Some? && conversionOk ==> (temp.Some? <==> dt.Some? && rawPressure.Some?)
    {
      var ok := ReadSensorData(time, adcMiso);
      if !ok {
        dt, temp, rawPressure, pressure := None, None, None, None;
        readTemp := true;
      } else {
        readTemp := !readTemp;
      }

      conversion := if readTemp then StartTempConversion(Osr256) else StartPressureConversion(Osr256);
      if !conversionOk {
        dt, temp, rawPressure, pressure := None, None, None, None;
        readTemp := true;
      }
    }
  }
}
