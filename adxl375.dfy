/** The ADXL375 high-g accelerometer on the SPI bus: the register address byte of a
    read, the register reads and writes, the decoding of the six data registers into a
    sample in the flight computer's axis order, the configuration bytes, and the driver
    that keeps the latest sample. Samples are kept in the sensor's raw counts (49 mg per
    count); the conversion to m/s^2 is floating point and not part of this model. */
module Adxl375 {
  import opened Common

  /** The registers of the device, by address. */
  datatype Register =
    | DeviceId | ShockThreshold | OffsetX | OffsetY | OffsetZ
    | ShockDuration | ShockLatency | ShockWindow
    | ActivityThreshold | InactivityThreshold | InactivityTime | ActivityAxisControl
    | ShockAxisControl | ShockSource | DataRateControl | PowerControl
    | InterruptEnable | InterruptMapping | InterruptSource | DataFormat
    | DataXL | DataXH | DataYL | DataYH | DataZL | DataZH
    | FifoControl | FifoStatus
  {
    function Address(): (a: uint8)
      ensures a < 0x40
    {
      match this
      case DeviceId => 0x00
      case ShockThreshold => 0x1d
      case OffsetX => 0x1e
      case OffsetY => 0x1f
      case OffsetZ => 0x20
      case ShockDuration => 0x21
      case ShockLatency => 0x22
      case ShockWindow => 0x23
      case ActivityThreshold => 0x24
      case InactivityThreshold => 0x25
      case InactivityTime => 0x26
      case ActivityAxisControl => 0x27
      case ShockAxisControl => 0x2a
      case ShockSource => 0x2b
      case DataRateControl => 0x2c
      case PowerControl => 0x2d
      case InterruptEnable => 0x2e
      case InterruptMapping => 0x2f
      case InterruptSource => 0x30
      case DataFormat => 0x31
      case DataXL => 0x32
      case DataXH => 0x33
      case DataYL => 0x34
      case DataYH => 0x35
      case DataZL => 0x36
      case DataZH => 0x37
      case FifoControl => 0x38
      case FifoStatus => 0x39
    }
  }

  /** The register at a 6-bit address, if any. */
  function RegisterAt(a: nat): Option<Register> {
    if a == 0x00 then Some(DeviceId)
    else if a == 0x1d then Some(ShockThreshold)
    else if a == 0x1e then Some(OffsetX)
    else if a == 0x1f then Some(OffsetY)
    else if a == 0x20 then Some(OffsetZ)
    else if a == 0x21 then Some(ShockDuration)
    else if a == 0x22 then Some(ShockLatency)
    else if a == 0x23 then Some(ShockWindow)
    else if a == 0x24 then Some(ActivityThreshold)
    else if a == 0x25 then Some(InactivityThreshold)
    else if a == 0x26 then Some(InactivityTime)
    else if a == 0x27 then Some(ActivityAxisControl)
    else if a == 0x2a then Some(ShockAxisControl)
    else if a == 0x2b then Some(ShockSource)
    else if a == 0x2c then Some(DataRateControl)
    else if a == 0x2d then Some(PowerControl)
    else if a == 0x2e then Some(InterruptEnable)
    else if a == 0x2f then Some(InterruptMapping)
    else if a == 0x30 then Some(InterruptSource)
    else if a == 0x31 then Some(DataFormat)
    else if a == 0x32 then Some(DataXL)
    else if a == 0x33 then Some(DataXH)
    else if a == 0x34 then Some(DataYL)
    else if a == 0x35 then Some(DataYH)
    else if a == 0x36 then Some(DataZL)
    else if a == 0x37 then Some(DataZH)
    else if a == 0x38 then Some(FifoControl)
    else if a == 0x39 then Some(FifoStatus)
    else None
  }

  /** Distinct registers have distinct addresses. */
  lemma AddressesAreDistinct(r: Register)
    ensures RegisterAt(r.Address() as nat) == Some(r)
  {
  }

  // ---------------------------------------------------------------------------
  // Register access
  // ---------------------------------------------------------------------------

  /** The first byte of a read: the register address with the read bit (0x80) set,
      and the multiple-byte bit (0x40) set exactly when more than one byte is read. */
  function ReadAddressByte(reg: Register, responseLen: nat): (b: uint8)
    ensures b == reg.Address() as int + 0x80 + (if responseLen > 1 then 0x40 else 0)
  {
    var multi: bv8 := if responseLen > 1 then 0x40 else 0;
    ((reg.Address() as bv8) | 0x80 | multi) as uint8
  }

  /** What a device reads back from an address byte: the read bit, the multiple-byte
      bit and the register. */
  datatype AddressByte = AddressByte(read: bool, multiple: bool, register: Option<Register>)

  function ParseAddressByte(b: uint8): AddressByte {
    AddressByte(b / 0x80 == 1, (b / 0x40) % 2 == 1, RegisterAt(b % 0x40))
  }

  /** The device sees a read of `reg`, in multiple-byte mode exactly when more than
      one byte is requested. */
  lemma ReadAddressByteRoundTrip(reg: Register, responseLen: nat)
    ensures ParseAddressByte(ReadAddressByte(reg, responseLen)) == AddressByte(true, responseLen > 1, Some(reg))
  {
    var b := ReadAddressByte(reg, responseLen);
    assert b % 0x40 == reg.Address();
    AddressesAreDistinct(reg);
  }

  /** `read_registers`: the address byte and `responseLen` zero bytes are exchanged
      (`miso` is None when the transfer fails); the reply is the exchanged frame
      after its first byte, exactly `responseLen` bytes. */
  function ReadRegisters(reg: Register, responseLen: nat, miso: Option<seq<uint8>>): (r: Option<seq<uint8>>)
    ensures r.Some? <==> miso.Some?
    ensures r.Some? ==> |r.value| == responseLen
    ensures r.Some? ==> forall i :: 0 <= i < responseLen && i + 1 < |miso.value| ==> r.value[i] == miso.value[i + 1]
  {
    if miso.None? then None
    else Some(Exchange([ReadAddressByte(reg, responseLen)] + Zeros(responseLen), miso.value)[1..])
  }

  /** `read_u8`: the one byte a single-register read returns. */
  function ReadU8(reg: Register, miso: Option<seq<uint8>>): (r: Option<uint8>)
    ensures r.Some? <==> miso.Some?
    ensures r.Some? && |miso.value| >= 2 ==> r.value == miso.value[1]
  {
    var bytes := ReadRegisters(reg, 1, miso);
    if bytes.None? then None else Some(bytes.value[0])
  }

  /** `write_u8`: the frame written, the plain register address (read bit clear)
      followed by the value. */
  function WriteFrame(reg: Register, value: uint8): (frame: seq<uint8>)
    ensures |frame| == 2 && frame[1] == value
    ensures !ParseAddressByte(frame[0]).read && !ParseAddressByte(frame[0]).multiple
    ensures ParseAddressByte(frame[0]).register == Some(reg)
  {
    AddressesAreDistinct(reg);
    [reg.Address(), value]
  }

  // ---------------------------------------------------------------------------
  // Sample decoding
  // ---------------------------------------------------------------------------

  /** An i16 result of u16-wide bit operations: `v` taken modulo 2^16 into the range
      of i16, as Rust's `<<` on i16 does (it drops the bits shifted out). */
  function WrapI16(v: int): (r: int16)
    ensures (r - v) % 0x1_0000 == 0
  {
    (v + 0x8000) % 0x1_0000 - 0x8000
  }

  /** One axis: `((hi as i16) << 8) + (lo as i16)`. The addition never overflows
      (the shifted value has a zero low byte), so the axis is the two's-complement
      reading of the little-endian pair `lo, hi`. */
  function AxisFromBytes(lo: uint8, hi: uint8): (x: int16)
    ensures x % 0x1_0000 == hi as int * 0x100 + lo as int
    ensures x < 0 <==> hi >= 0x80
  {
    var shifted := WrapI16(hi as int * 0x100);
    assert shifted == if hi < 0x80 then hi as int * 0x100 else hi as int * 0x100 - 0x1_0000;
    shifted + lo as int
  }

  /** The register bytes `lo, hi` that hold an axis value, as the device stores it. */
  function AxisToBytes(x: int16): (b: (uint8, uint8))
  {
    var u: int := x as int % 0x1_0000;
    (u % 0x100, u / 0x100)
  }

  /** Encoding and decoding an axis are inverse to each other, in both directions. */
  lemma AxisRoundTrip(x: int16, lo: uint8, hi: uint8)
    ensures AxisFromBytes(AxisToBytes(x).0, AxisToBytes(x).1) == x
    ensures AxisToBytes(AxisFromBytes(lo, hi)) == (lo, hi)
  {
    AxisBytesDecode(x);
    AxisDecodeBytes(lo, hi);
  }

  /** A byte pair read as one 16-bit number splits back into the same pair. */
  lemma SplitBytes(lo: uint8, hi: uint8)
    ensures (hi as int * 0x100 + lo as int) / 0x100 == hi as int
    ensures (hi as int * 0x100 + lo as int) % 0x100 == lo as int
  {
  }

  lemma AxisBytesDecode(x: int16)
    ensures AxisFromBytes(AxisToBytes(x).0, AxisToBytes(x).1) == x
  {
    var u: int := x as int % 0x1_0000;
    if x >= 0 {
      assert u == x;
    } else {
      assert u == x + 0x1_0000;
    }
    var lo, hi := u % 0x100, u / 0x100;
    assert u == hi * 0x100 + lo;
    assert (x >= 0 <==> hi < 0x80);
  }

  lemma AxisDecodeBytes(lo: uint8, hi: uint8)
    ensures AxisToBytes(AxisFromBytes(lo, hi)) == (lo, hi)
  {
    var y := AxisFromBytes(lo, hi);
    assert y as int % 0x1_0000 == hi as int * 0x100 + lo as int;
    SplitBytes(lo, hi);
  }

  /** `i16::saturating_neg`: the negation, with -32768 going to 32767. */
  function SaturatingNeg(x: int16): (r: int16)
    ensures x != -0x8000 ==> r == -x
    ensures x == -0x8000 ==> r == 0x7fff
  {
    if x == -0x8000 then 0x7fff else -x
  }

  /** Saturating negation undoes itself everywhere except at -32768, the one value
      whose negation does not fit, and its result is never -32768. */
  lemma SaturatingNegInvolution(x: int16)
    ensures x != -0x8000 ==> SaturatingNeg(SaturatingNeg(x)) == x
    ensures SaturatingNeg(x) != -0x8000
    ensures SaturatingNeg(SaturatingNeg(-0x8000)) == -0x7fff
  {
  }

  /** A sample in the flight computer's axis order, in raw counts. */
  datatype Sample = Sample(x: int, y: int, z: int)

  /** `read_sensor_data`'s decoding of DATAX0..DATAZ1: the device's x, z and negated y
      axes, in that order. */
  function DecodeSample(response: seq<uint8>): (s: Sample)
    requires |response| == 6
  {
    var x := AxisFromBytes(response[0], response[1]);
    var y := AxisFromBytes(response[2], response[3]);
    var z := AxisFromBytes(response[4], response[5]);
    Sample(x, z, SaturatingNeg(y))
  }

  /** The six data registers of a device that measured `(x, y, z)` on its own axes. */
  function DataRegisters(x: int16, y: int16, z: int16): (bytes: seq<uint8>)
    ensures |bytes| == 6
  {
    [AxisToBytes(x).0, AxisToBytes(x).1, AxisToBytes(y).0, AxisToBytes(y).1, AxisToBytes(z).0, AxisToBytes(z).1]
  }

  /** The device's axes `(x, y, z)` arrive as the sample `(x, z, -y)`, with -32768
      on y clamped to 32767; every component stays within i16. */
  lemma DecodeSampleRemapsAxes(x: int16, y: int16, z: int16)
    ensures DecodeSample(DataRegisters(x, y, z)) == Sample(x, z, SaturatingNeg(y))
    ensures y != -0x8000 ==> DecodeSample(DataRegisters(x, y, z)).z == -y
    ensures var s := DecodeSample(DataRegisters(x, y, z));
            -0x8000 <= s.x < 0x8000 && -0x8000 <= s.y < 0x8000 && -0x8000 < s.z < 0x8000
  {
    var dummy: uint8 := 0;
    AxisRoundTrip(x, dummy, dummy);
    AxisRoundTrip(y, dummy, dummy);
    AxisRoundTrip(z, dummy, dummy);
  }

  // ---------------------------------------------------------------------------
  // Configuration
  // ---------------------------------------------------------------------------

  datatype Mode = Measure | Sleep
  {
    function Code(): uint8 {
      match this
      case Measure => 0x2
      case Sleep => 0x1
    }
  }

  datatype DataRate =
    | Osr0Hz10 | Osr0Hz20 | Osr0Hz39 | Osr0Hz78 | Osr1Hz56 | Osr3Hz13 | Osr6Hz25 | Osr12Hz5
    | Osr25Hz | Osr50Hz | Osr100Hz | Osr200Hz | Osr400Hz | Osr800Hz | Osr1600Hz | Osr3200Hz
  {
    function Code(): (c: uint8)
      ensures c < 0x10
    {
      match this
      case Osr0Hz10 => 0x0
      case Osr0Hz20 => 0x1
      case Osr0Hz39 => 0x2
      case Osr0Hz78 => 0x3
      case Osr1Hz56 => 0x4
      case Osr3Hz13 => 0x5
      case Osr6Hz25 => 0x6
      case Osr12Hz5 => 0x7
      case Osr25Hz => 0x8
      case Osr50Hz => 0x9
      case Osr100Hz => 0xa
      case Osr200Hz => 0xb
      case Osr400Hz => 0xc
      case Osr800Hz => 0xd
      case Osr1600Hz => 0xe
      case Osr3200Hz => 0xf
    }
  }

  /** `configure_power`: the POWER_CTL write, the mode in bits 2..3; Measure sets
      exactly the measure bit (0x08), Sleep exactly the sleep bit (0x04). */
  function PowerControlFrame(mode: Mode): (frame: seq<uint8>)
    ensures |frame| == 2 && frame[0] == PowerControl.Address()
    ensures frame[1] == if mode == Measure then 0x08 else 0x04
  {
    WriteFrame(PowerControl, (mode.Code() as bv8 << 2) as uint8)
  }

  /** `configure_data_rate`: the BW_RATE write, the rate code in the low nibble and
      the low-power flag in bit 4. */
  function DataRateFrame(rate: DataRate, lowPower: bool): (frame: seq<uint8>)
    ensures |frame| == 2 && frame[0] == DataRateControl.Address()
    ensures frame[1] % 0x10 == rate.Code()
    ensures frame[1] / 0x10 == if lowPower then 1 else 0
  {
    WriteFrame(DataRateControl, rate.Code() + (if lowPower then 1 else 0) * 0x10)
  }

  /** Different rate and power settings write different bytes. */
  lemma DataRateFrameInjective(r1: DataRate, p1: bool, r2: DataRate, p2: bool)
    requires DataRateFrame(r1, p1) == DataRateFrame(r2, p2)
    ensures r1 == r2 && p1 == p2
  {
    assert DataRateFrame(r1, p1)[1] == DataRateFrame(r2, p2)[1];
  }

  /** DATA_FORMAT as `init` writes it: full resolution is fixed on this part, the
      justify bit clear, and the range bits 0x3. */
  const DATA_FORMAT_VALUE: uint8 := 0xb

  /** The transfers of `init`, in order: measure mode, the data format, the device id
      read, and 1600 Hz output without low power. */
  function InitFrames(): (frames: seq<seq<uint8>>)
    ensures |frames| == 4
    ensures frames[0] == [0x2d, 0x08] && frames[1] == [0x31, 0x0b]
    ensures frames[2] == [0x80, 0x00] && frames[3] == [0x2c, 0x0e]
  {
    [PowerControlFrame(Measure),
     WriteFrame(DataFormat, DATA_FORMAT_VALUE),
     [ReadAddressByte(DeviceId, 1)] + Zeros(1),
     DataRateFrame(Osr1600Hz, false)]
  }

  /** `init` when the first `transfersOk` transfers succeed: the transfers attempted
      (each `?` stops at the first failure) and whether a driver results. */
  datatype InitOutcome = InitOutcome(attempted: seq<seq<uint8>>, ok: bool)

  function InitDriver(transfersOk: nat): (r: InitOutcome)
    ensures r.ok <==> transfersOk >= 4
    ensures |r.attempted| == if transfersOk >= 4 then 4 else transfersOk + 1
    ensures r.attempted == InitFrames()[..|r.attempted|]
  {
    if transfersOk >= 4 then InitOutcome(InitFrames(), true)
    else InitOutcome(InitFrames()[..transfersOk + 1], false)
  }

  // ---------------------------------------------------------------------------
  // The driver
  // ---------------------------------------------------------------------------

  function Sub(a: Sample, b: Sample): Sample {
    Sample(a.x - b.x, a.y - b.y, a.z - b.z)
  }

  /** The driver state: the latest sample (None after a failed read) and the
      calibration offset. */
  class Adxl375 {
    var acc: Option<Sample>
    var offset: Sample

    /** A successful `init`: no sample yet, zero offset. */
    constructor ()
      ensures acc == None && offset == Sample(0, 0, 0)
    {
      acc := None;
      offset := Sample(0, 0, 0);
    }

    /** `read_sensor_data`: read the six data registers (`miso` is None when the
        transfer fails) and keep their sample; a failed read changes nothing. */
    method ReadSensorData(miso: Option<seq<uint8>>) returns (ok: bool)
      modifies this
      ensures ok <==> miso.Some?
      ensures ok ==> acc == Some(DecodeSample(ReadRegisters(DataXL, 6, miso).value))
      ensures !ok ==> acc == old(acc)
      ensures offset == old(offset)
    {
      var response := ReadRegisters(DataXL, 6, miso);
      if response.None? {
        return false;
      }
      acc := Some(DecodeSample(response.value));
      ok := true;
    }

    /** `tick`: a fresh sample, or none after a failed read. */
    method Tick(miso: Option<seq<uint8>>)
      modifies this
      ensures acc == if miso.None? then None else Some(DecodeSample(ReadRegisters(DataXL, 6, miso).value))
      ensures offset == old(offset)
    {
      var ok := ReadSensorData(miso);
      if !ok {
        acc := None;
      }
    }

    /** `set_offset`. */
    method SetOffset(o: Sample)
      modifies this
      ensures offset == o && acc == old(acc)
    {
      offset := o;
    }

    /** `accelerometer`: the latest sample less the offset, none when no sample is
        held. */
    function Accelerometer(): (a: Option<Sample>)
      reads this
      ensures a.Some? <==> acc.Some?
      ensures a.Some? ==> Sub(acc.value, a.value) == offset
    {
      if acc.None? then None else Some(Sub(acc.value, offset))
    }
  }
}
