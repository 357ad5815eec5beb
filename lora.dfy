/** The LLCC68 LoRa transceiver driver and the telemetry link built on it, in both of
    the firmware's builds: the flight computer, which sends downlink telemetry and
    listens for uplink commands in fixed windows, and the ground station, which follows
    the flight computer's clock to hop channels with it and to send its uplink inside
    those windows. Every SPI command is reduced to whether it succeeded and, where the
    driver reads something back, the bytes the radio returned. */
module LoRa {
  import opened Common
  import Telemetry

  const TX_BASE_ADDRESS: uint8 := 0
  const RX_BASE_ADDRESS: uint8 := 64

  /** The 14 channel centre frequencies in Hz. */
  const CHANNELS: seq<uint32> := [
    863_250_000, 863_750_000, 864_250_000, 864_750_000, 865_250_000, 865_750_000, 866_250_000,
    866_750_000, 867_250_000, 867_750_000, 868_250_000, 868_750_000, 869_250_000, 869_750_000
  ]

  /** The order in which the channels are visited, one per message slot. */
  const CHANNEL_SEQUENCE: seq<nat> := [0, 10, 13, 6, 3, 7, 2, 8, 5, 11, 4, 9, 12, 1]

  const TRANSMISSION_TIMEOUT_MS: uint32 := 12

  const DOWNLINK_PACKET_SIZE: uint8 := 24
  const UPLINK_PACKET_SIZE: uint8 := 14

  /** The contact timeout of the ground station, in ms. */
  const CONTACT_TIMEOUT_MS: uint32 := 5000
  /** The period of the ground station's channel sweep while out of contact, in ms. */
  const SWEEP_INTERVAL_MS: uint32 := 2000

  // LLCC68 opcodes used below.
  const OP_WRITE_BUFFER: uint8 := 0x0e
  const OP_READ_BUFFER: uint8 := 0x1e
  const OP_GET_IRQ_STATUS: uint8 := 0x12
  const OP_CLEAR_IRQ_STATUS: uint8 := 0x02
  const OP_GET_RX_BUFFER_STATUS: uint8 := 0x13
  const OP_GET_PACKET_STATUS: uint8 := 0x14

  /** The `CrcErr` bit of the IRQ status word. */
  const IRQ_CRC_ERR: nat := 0x40

  // ---------------------------------------------------------------------------
  // Uplink windows
  // ---------------------------------------------------------------------------

  /** `is_uplink_window`: within each second, the slot of `time` (or, with `firstOnly`,
      the millisecond itself) is 100 ms past a multiple of 200 ms. */
  function IsUplinkWindow(time: uint32, firstOnly: bool): bool {
    var t := time % 1000;
    var t' := if !firstOnly then t - t % Telemetry.LORA_MESSAGE_INTERVAL else t;
    t' % Telemetry.LORA_UPLINK_INTERVAL == Telemetry.LORA_UPLINK_MODULO
  }

  /** The flight computer listens during the whole 25 ms slot that starts 100 ms past
      every multiple of 200 ms; the ground station's trigger is the first millisecond of
      that slot only. */
  lemma UplinkWindowCharacterisation(time: uint32)
    ensures IsUplinkWindow(time, false) <==> 100 <= time % 200 < 125
    ensures IsUplinkWindow(time, true) <==> time % 200 == 100
    ensures IsUplinkWindow(time, true) <==> time % 1000 in {100, 300, 500, 700, 900}
  {
    var t := time % 1000;
    assert t % 200 == time % 200;
    assert (t - t % 25) % 200 == t % 200 - t % 25;
  }

  /** The ground station sends its uplink when its estimate of the flight computer's
      clock, minus 5 ms, starts an uplink slot; with the estimate exact, the flight
      computer is then 5 ms into that slot and listening, including across the wrap of
      the 32-bit clock. */
  lemma GroundUplinkLandsInFlightWindow(fcTime: uint32)
    requires IsUplinkWindow(WrappingSub32(fcTime, 5), true)
    ensures IsUplinkWindow(fcTime, false)
  {
    UplinkWindowCharacterisation(WrappingSub32(fcTime, 5));
    UplinkWindowCharacterisation(fcTime);
  }

  // ---------------------------------------------------------------------------
  // Frequency hopping
  // ---------------------------------------------------------------------------

  /** The channel of message slot `slot`. */
  function SlotChannel(slot: nat): (f: uint32)
    ensures f in CHANNELS
  {
    CHANNELS[CHANNEL_SEQUENCE[slot % |CHANNELS|]]
  }

  /** `switch_to_next_frequency`: the channel for a clock reading, one slot per
      LORA_MESSAGE_INTERVAL ms. */
  function HopChannel(t: uint32): (f: uint32)
    ensures f in CHANNELS
  {
    SlotChannel((t / Telemetry.LORA_MESSAGE_INTERVAL) as nat)
  }

  /** Both clocks name the same channel for every millisecond of a slot. */
  lemma HopChannelConstantInSlot(t1: uint32, t2: uint32)
    requires t1 / Telemetry.LORA_MESSAGE_INTERVAL == t2 / Telemetry.LORA_MESSAGE_INTERVAL
    ensures HopChannel(t1) == HopChannel(t2)
  {
  }

  /** The channel sequence visits every channel index exactly once. */
  lemma ChannelSequenceIsPermutation()
    ensures |CHANNEL_SEQUENCE| == |CHANNELS| == 14
    ensures forall i :: 0 <= i < 14 ==> CHANNEL_SEQUENCE[i] < 14
    ensures forall i, j :: 0 <= i < 14 && 0 <= j < 14 && i != j ==> CHANNEL_SEQUENCE[i] != CHANNEL_SEQUENCE[j]
    ensures forall i, j :: 0 <= i < 14 && 0 <= j < 14 && i != j ==> CHANNELS[i] != CHANNELS[j]
  {
  }

  /** The channels of the 14 slots from `start` on. */
  function SlotChannels(start: nat): (cs: seq<uint32>)
    ensures |cs| == 14
  {
    seq<uint32>(14, i requires 0 <= i < 14 => SlotChannel(start + i))
  }

  /** Any 14 consecutive slots use 14 different channels. */
  lemma ConsecutiveSlotsDistinct(start: nat)
    ensures forall i, j :: 0 <= i < j < 14 ==> SlotChannels(start)[i] != SlotChannels(start)[j]
  {
    ChannelSequenceIsPermutation();
    var cs := SlotChannels(start);
    forall i, j | 0 <= i < j < 14
      ensures cs[i] != cs[j]
    {
      var a, b := (start + i) % 14, (start + j) % 14;
      assert a != b;
      assert CHANNEL_SEQUENCE[a] != CHANNEL_SEQUENCE[b];
      assert cs[i] == CHANNELS[CHANNEL_SEQUENCE[a]] && cs[j] == CHANNELS[CHANNEL_SEQUENCE[b]];
    }
  }

  /** Any 14 consecutive slots use every channel. */
  lemma ConsecutiveSlotsCoverChannels(start: nat)
    ensures forall c :: c in CHANNELS ==> c in SlotChannels(start)
  {
    forall c | c in CHANNELS
      ensures c in SlotChannels(start)
    {
      var k :| 0 <= k < 14 && CHANNELS[k] == c;
      SlotsReachChannel(start, k);
    }
  }

  /** Channel `k` is used by the slot whose index sits at its position in the hop
      sequence, counted from `start`. */
  lemma SlotsReachChannel(start: nat, k: nat)
    requires k < 14
    ensures CHANNELS[k] in SlotChannels(start)
  {
    // the position of each channel index in CHANNEL_SEQUENCE
    var p := [0, 13, 6, 4, 10, 8, 3, 5, 7, 11, 1, 9, 12, 2][k];
    assert CHANNEL_SEQUENCE[p] == k;
    var i := (p - start % 14 + 14) % 14;
    assert (start + i) % 14 == p;
    var cs := SlotChannels(start);
    assert cs[i] == SlotChannel(start + i) == CHANNELS[k];
  }

  // ---------------------------------------------------------------------------
  // RF frequency: the PLL word
  // ---------------------------------------------------------------------------

  /** `XTAL_FREQ >> (25 - PLL_STEP_SHIFT_AMOUNT)`: the crystal frequency 32 MHz over
      2^11, i.e. one PLL step (32 MHz / 2^25) times 2^14. */
  const PLL_STEP_SCALED: nat := 15625

  /** `set_rf_frequency` as written: `frac = frequency / (steps * PLL_STEP_SCALED)`. The
      shifts lose their high bits and the additions wrap (u32). A frequency below one
      scaled step makes `int` zero and the division panic, hence the precondition. */
  function PllWordAsWritten(f: uint32): (pll: uint32)
    requires f >= PLL_STEP_SCALED
  {
    var steps := f / PLL_STEP_SCALED;
    var frac := f / (steps * PLL_STEP_SCALED);
    ((steps * 0x4000) % U32_MODULUS + (((frac * 0x4000) % U32_MODULUS + PLL_STEP_SCALED / 2) % U32_MODULUS) / PLL_STEP_SCALED) % U32_MODULUS
  }

  lemma QuotientIsOne(f: nat, d: nat)
    requires 0 < d <= f < 2 * d
    ensures f / d == 1
  {
    assert f == d * 1 + (f - d);
  }

  /** As written, `frac` is 1 for every admissible frequency, so the fractional part of
      the word is the constant `(2^14 + 7812) / 15625 = 1`. */
  lemma PllWordAsWrittenValue(f: uint32)
    requires f >= PLL_STEP_SCALED
    ensures f / ((f / PLL_STEP_SCALED) * PLL_STEP_SCALED) == 1
    ensures PllWordAsWritten(f) == ((f / PLL_STEP_SCALED) * 0x4000 + 1) % U32_MODULUS
  {
    var steps := f / PLL_STEP_SCALED;
    QuotientIsOne(f, steps * PLL_STEP_SCALED);
  }

  /** The PLL word with the evident intent `frac = frequency - int * PLL_STEP_SCALED`:
      the frequency in PLL steps, `f * 2^25 / 32 MHz`, rounded to the nearest step (as
      in the LLCC68 datasheet's RF-frequency formula), truncated to 32 bits. */
  function PllWord(f: uint32): (pll: uint32)
    ensures pll == ((f * 0x4000 + PLL_STEP_SCALED / 2) / PLL_STEP_SCALED) % U32_MODULUS
  {
    var steps := f / PLL_STEP_SCALED;
    var frac := f - steps * PLL_STEP_SCALED;
    var rounded := (frac * 0x4000 + PLL_STEP_SCALED / 2) / PLL_STEP_SCALED;
    DivAfterWholeSteps(steps * 0x4000, frac * 0x4000 + PLL_STEP_SCALED / 2);
    ModOfSum(steps * 0x4000, rounded);
    ((steps * 0x4000) % U32_MODULUS + rounded) % U32_MODULUS
  }

  lemma DivAfterWholeSteps(a: int, b: nat)
    ensures (a * PLL_STEP_SCALED + b) / PLL_STEP_SCALED == a + b / PLL_STEP_SCALED
  {
    var q, r := b / PLL_STEP_SCALED, b % PLL_STEP_SCALED;
    assert a * PLL_STEP_SCALED + b == (a + q) * PLL_STEP_SCALED + r;
  }

  lemma ModOfSum(a: int, b: int)
    ensures (a % U32_MODULUS + b) % U32_MODULUS == (a + b) % U32_MODULUS
  {
    var q := a / U32_MODULUS;
    assert a == q * U32_MODULUS + a % U32_MODULUS;
    assert a + b == (a % U32_MODULUS + b) + q * U32_MODULUS;
  }

  /** Every channel lies on the 15625 Hz grid, so its intended word has no fractional
      part, and the word as written is exactly one PLL step (about 0.95 Hz) too high. */
  lemma PllAsWrittenOneStepHigh(f: uint32)
    requires f >= PLL_STEP_SCALED && f % PLL_STEP_SCALED == 0
    requires f < 0x4_0000 * PLL_STEP_SCALED
    ensures PllWord(f) == (f / PLL_STEP_SCALED) * 0x4000
    ensures PllWordAsWritten(f) == PllWord(f) + 1
  {
    PllWordAsWrittenValue(f);
  }

  /** The discrepancy on the firmware's own channels, e.g. 863.25 MHz = 55248 steps of
      15625 Hz. */
  lemma ChannelsPllOneStepHigh()
    ensures forall i :: 0 <= i < |CHANNELS| ==> PllWordAsWritten(CHANNELS[i]) == PllWord(CHANNELS[i]) + 1
    ensures PllWord(863_250_000) == 55248 * 0x4000
  {
    forall i | 0 <= i < |CHANNELS|
      ensures PllWordAsWritten(CHANNELS[i]) == PllWord(CHANNELS[i]) + 1
    {
      PllAsWrittenOneStepHigh(CHANNELS[i]);
    }
    PllAsWrittenOneStepHigh(863_250_000);
  }

  /** `[(w >> 24) as u8, (w >> 16) as u8, (w >> 8) as u8, w as u8]`. */
  function BigEndian32(w: uint32): (b: seq<uint8>)
    ensures |b| == 4
    ensures b[0] as int * 0x100_0000 + b[1] as int * 0x1_0000 + b[2] as int * 0x100 + b[3] as int == w
  {
    var b0, b1, b2, b3 := w / 0x100_0000 % 0x100, w / 0x1_0000 % 0x100, w / 0x100 % 0x100, w % 0x100;
    assert w / 0x100_0000 < 0x100;
    assert w / 0x100 == (w / 0x1_0000) * 0x100 + b2;
    assert w / 0x1_0000 == (w / 0x100_0000) * 0x100 + b1;
    assert w == (w / 0x100) * 0x100 + b3;
    [b0, b1, b2, b3]
  }

  /** The parameters of SetRfFrequency for a channel: the big-endian PLL word. */
  function RfFrequencyParams(f: uint32): (params: seq<uint8>)
    ensures |params| == 4
    ensures params[0] as int * 0x100_0000 + params[1] as int * 0x1_0000 + params[2] as int * 0x100 + params[3] as int == PllWord(f)
  {
    BigEndian32(PllWord(f))
  }

  // ---------------------------------------------------------------------------
  // Modulation and packet parameters
  // ---------------------------------------------------------------------------

  datatype Bandwidth = Bw125 | Bw250 | Bw500
  {
    function Code(): uint8 {
      match this
      case Bw125 => 0x04
      case Bw250 => 0x05
      case Bw500 => 0x06
    }
  }

  datatype SpreadingFactor = SF5 | SF6 | SF7 | SF8 | SF9 | SF10 | SF11
  {
    function Code(): (c: uint8)
      ensures 5 <= c <= 11
    {
      match this
      case SF5 => 0x05
      case SF6 => 0x06
      case SF7 => 0x07
      case SF8 => 0x08
      case SF9 => 0x09
      case SF10 => 0x0a
      case SF11 => 0x0b
    }
  }

  datatype CodingRate = CR4of5 | CR4of6 | CR4of7 | CR4of8
  {
    function Code(): uint8 {
      match this
      case CR4of5 => 0x01
      case CR4of6 => 0x02
      case CR4of7 => 0x03
      case CR4of8 => 0x04
    }
  }

  /** The largest spreading factor the LLCC68 supports at a bandwidth. */
  function MaxSpreadingFactor(bw: Bandwidth): nat {
    match bw
    case Bw125 => 9
    case Bw250 => 10
    case Bw500 => 11
  }

  /** The spreading factor `set_lora_mod_params` sends: the requested one, capped at
      what the bandwidth supports. */
  function ClampSpreadingFactor(bw: Bandwidth, sf: SpreadingFactor): (r: SpreadingFactor)
    ensures r.Code() as int == if sf.Code() as int <= MaxSpreadingFactor(bw) then sf.Code() as int else MaxSpreadingFactor(bw)
  {
    if bw == Bw125 && (sf == SF10 || sf == SF11) then SF9
    else if bw == Bw250 && sf == SF11 then SF10
    else sf
  }

  function BoolByte(b: bool): uint8 {
    if b then 1 else 0
  }

  /** The parameters of SetModulationParams. */
  function LoRaModParams(bw: Bandwidth, sf: SpreadingFactor, cr: CodingRate, lowDataRateOptimization: bool): (params: seq<uint8>)
    ensures |params| == 4 && 5 <= params[0] <= MaxSpreadingFactor(bw)
    ensures params[0] as int == if sf.Code() as int <= MaxSpreadingFactor(bw) then sf.Code() as int else MaxSpreadingFactor(bw)
    ensures params[1] == bw.Code() && params[2] == cr.Code() && params[3] == BoolByte(lowDataRateOptimization)
  {
    [ClampSpreadingFactor(bw, sf).Code(), bw.Code(), cr.Code(), BoolByte(lowDataRateOptimization)]
  }

  /** The parameters of SetPacketParams: the preamble length, at least 1, big-endian. */
  function LoRaPacketParams(preambleLength: uint16, fixedLengthHeader: bool, payloadLength: uint8, crc: bool, invertIq: bool): (params: seq<uint8>)
    ensures |params| == 6
    ensures params[0] as int * 0x100 + params[1] as int == if preambleLength == 0 then 1 else preambleLength
    ensures params[2] == BoolByte(fixedLengthHeader) && params[3] == payloadLength
    ensures params[4] == BoolByte(crc) && params[5] == BoolByte(invertIq)
  {
    var preamble := if preambleLength < 1 then 1 else preambleLength;
    [preamble / 0x100 % 0x100, preamble % 0x100, BoolByte(fixedLengthHeader), payloadLength, BoolByte(crc), BoolByte(invertIq)]
  }

  /** The LLCC68 modulation-quality workaround for 500 kHz: bit 2 of register 0x0889 is
      cleared, and the register is rewritten only when it was set. */
  function ModQualityWorkaround(reg: uint8): (write: Option<uint8>)
    ensures write.Some? <==> reg as bv8 & 0x04 != 0
    ensures write.Some? ==> write.value as bv8 == reg as bv8 & 0xfb
  {
    var b := reg as bv8;
    if b & 0xfb != b then Some((b & 0xfb) as uint8) else None
  }

  // ---------------------------------------------------------------------------
  // Command responses
  // ---------------------------------------------------------------------------

  /** `command(opcode, params, n)`: the bytes after the opcode and parameters of the
      exchanged frame, always exactly `n` of them. */
  function Response(opcode: uint8, params: seq<uint8>, n: nat, miso: seq<uint8>): (r: seq<uint8>)
    ensures |r| == n
    ensures forall i :: 0 <= i < n && 1 + |params| + i < |miso| ==> r[i] == miso[1 + |params| + i]
  {
    Exchange([opcode] + params + Zeros(n), miso)[1 + |params|..]
  }

  /** What the radio answers while a packet is read: the IRQ line, then each command's
      returned bytes (None when that transfer failed). */
  datatype RxHardware = RxHardware(
    irq: bool,
    irqStatus: Option<seq<uint8>>,
    clearIrqOk: bool,
    packetStatus: Option<seq<uint8>>,
    bufferStatus: Option<seq<uint8>>,
    buffer: Option<seq<uint8>>,
    rxModeOk: bool)

  /** The driver's errors. The BUSY pin is not modelled: a command the radio refuses
      because it is busy is one whose transfer failed, so it reads as `Spi`. */
  datatype LoRaError = Spi | Crc | Busy

  /** The outcome of `receive_data`. */
  datatype Received = NoPacket | Packet(bytes: seq<uint8>) | Failed(error: LoRaError)

  /** The IRQ status word: `(r[1] << 8) + r[2]`, 0 when the transfer failed. */
  function IrqStatus(miso: Option<seq<uint8>>): (status: nat)
    ensures status < 0x1_0000
    ensures miso.None? ==> status == 0
    ensures miso.Some? && |miso.value| >= 4 ==> status == miso.value[2] as int * 0x100 + miso.value[3] as int
  {
    if miso.None? then 0
    else
      var r := Response(OP_GET_IRQ_STATUS, [], 3, miso.value);
      r[1] as int * 0x100 + r[2] as int
  }

  /** The packet status bytes `[_, rssi, snr, rssi_signal]` when they were read. */
  function PacketStatus(hw: RxHardware): (ps: Option<seq<uint8>>)
    ensures ps.Some? <==> hw.irq && hw.clearIrqOk && hw.packetStatus.Some?
    ensures ps.Some? ==> |ps.value| == 4
  {
    if hw.irq && hw.clearIrqOk && hw.packetStatus.Some? then
      Some(Response(OP_GET_PACKET_STATUS, [], 4, hw.packetStatus.value))
    else None
  }

  /** Whether the `CrcErr` bit (bit 6) of the IRQ status word is set; a failed status
      read reads as no error. */
  predicate CrcError(hw: RxHardware): (e: bool)
    ensures hw.irqStatus.None? ==> !e
    ensures hw.irqStatus.Some? && |hw.irqStatus.value| >= 4 ==> (e <==> (hw.irqStatus.value[3] / 0x40) % 2 == 1)
  {
    var status := IrqStatus(hw.irqStatus);
    if hw.irqStatus.Some? && |hw.irqStatus.value| >= 4 then
      LowByteBit(hw.irqStatus.value[2], hw.irqStatus.value[3]);
      (status / IRQ_CRC_ERR) % 2 == 1
    else (status / IRQ_CRC_ERR) % 2 == 1
  }

  /** Bit 6 of a 16-bit word is bit 6 of its low byte. */
  lemma LowByteBit(hi: uint8, lo: uint8)
    ensures ((hi as int * 0x100 + lo as int) / 0x40) % 2 == (lo as int / 0x40) % 2
  {
    var w := hi as int * 0x100 + lo as int;
    assert w == (hi as int * 4 + lo as int / 0x40) * 0x40 + lo as int % 0x40;
    assert w / 0x40 == hi as int * 4 + lo as int / 0x40;
    assert (hi as int * 4 + lo as int / 0x40) % 2 == (lo as int / 0x40) % 2;
  }

  /** What `receive_data` returns for the radio's answers, with RX_PACKET_SIZE given. */
  function ReceiveOutcome(hw: RxHardware, rxPacketSize: uint8): (r: Received)
    ensures !hw.irq ==> r == NoPacket
    ensures hw.irq ==> r != NoPacket
    ensures PacketStatus(hw).None? && hw.irq ==> r == Failed(Spi)
    ensures PacketStatus(hw).Some? && CrcError(hw) ==> r == Failed(Crc)
    ensures r.Failed? ==> r.error != Busy
    ensures r.Packet? ==>
              && PacketStatus(hw).Some? && !CrcError(hw)
              && hw.bufferStatus.Some? && hw.buffer.Some? && hw.rxModeOk
              && var status := Response(OP_GET_RX_BUFFER_STATUS, [], 3, hw.bufferStatus.value);
                 |r.bytes| == (if status[1] < rxPacketSize then status[1] else rxPacketSize) + 1
    ensures r.Packet? ==> 1 <= |r.bytes| <= rxPacketSize as int + 1
    ensures PacketStatus(hw).Some? && !CrcError(hw) && hw.bufferStatus.Some? && hw.buffer.Some? && hw.rxModeOk ==> r.Packet?
  {
    if !hw.irq then NoPacket
    else if !hw.clearIrqOk || hw.packetStatus.None? then Failed(Spi)
    else if CrcError(hw) then Failed(Crc)
    else if hw.bufferStatus.None? then Failed(Spi)
    else
      var status := Response(OP_GET_RX_BUFFER_STATUS, [], 3, hw.bufferStatus.value);
      var len := if status[1] < rxPacketSize then status[1] else rxPacketSize;
      if hw.buffer.None? then Failed(Spi)
      else
        var buffer := Response(OP_READ_BUFFER, [status[2]], len + 1, hw.buffer.value);
        if !hw.rxModeOk then Failed(Spi) else Packet(buffer)
  }

  /** What `receive_message` yields: the packet after its status byte, decoded. A read
      error, no packet, or an empty one yields nothing. */
  function ReceivedMessage<M>(hw: RxHardware, rxPacketSize: uint8, decode: seq<uint8> -> Option<M>): (m: Option<M>)
    ensures m.Some? ==> ReceiveOutcome(hw, rxPacketSize).Packet?
    ensures m.Some? ==> m == decode(ReceiveOutcome(hw, rxPacketSize).bytes[1..])
    ensures ReceiveOutcome(hw, rxPacketSize).Packet? ==> m == decode(ReceiveOutcome(hw, rxPacketSize).bytes[1..])
    ensures !ReceiveOutcome(hw, rxPacketSize).Packet? ==> m.None?
  {
    var data := ReceiveOutcome(hw, rxPacketSize);
    if data.Packet? && |data.bytes| > 0 then decode(data.bytes[1..]) else None
  }

  // ---------------------------------------------------------------------------
  // The radio
  // ---------------------------------------------------------------------------

  datatype RadioState = Init | Idle | Transmitting

  /** The bus outcomes of the commands `tick_common` may issue. */
  datatype CommonBus = CommonBus(configureOk: bool, switchToRxOk: bool, setPowerOk: bool)

  /** The outcome of `send_packet`: skipped (not idle, or too long), failed on the bus,
      or sent, with the register rewrite it needed and the buffer it wrote. */
  datatype SendOutcome = Skipped | SendFailed | Sent(workaround: Option<uint8>, buffer: seq<uint8>)

  /** The radio state and the time it was entered. */
  datatype RadioClock = RadioClock(state: RadioState, since: uint32)

  /** The state transitions of `tick_common` at time `now`. */
  function NextRadioState(c: RadioClock, now: uint32, bus: CommonBus): (d: RadioClock)
  {
    var afterInit := if c.state == Init && bus.configureOk then RadioClock(RadioState.Idle, now) else c;
    if afterInit.state == Transmitting && now == WrappingAdd32(afterInit.since, TRANSMISSION_TIMEOUT_MS + 2) && bus.switchToRxOk
    then RadioClock(RadioState.Idle, now)
    else afterInit
  }

  /** Once configured, the radio never goes back to Init, and it leaves Init only
      when configuring succeeded. */
  lemma InitIsLeftOnlyByConfiguring(c: RadioClock, now: uint32, bus: CommonBus)
    ensures c.state != Init ==> NextRadioState(c, now, bus).state != Init
    ensures c.state == Init ==> (NextRadioState(c, now, bus).state == Init <==> !bus.configureOk)
  {
  }

  /** A transmission ends (back to receive mode) exactly TRANSMISSION_TIMEOUT_MS + 2
      ms after it began, on the wrapping 32-bit clock, and only when switching to
      receive mode succeeded; a tick at any other time leaves it transmitting. */
  lemma TransmissionEndsOnTime(c: RadioClock, now: uint32, bus: CommonBus)
    requires c.state == Transmitting
    ensures NextRadioState(c, now, bus).state == RadioState.Idle <==>
              now == WrappingAdd32(c.since, TRANSMISSION_TIMEOUT_MS + 2) && bus.switchToRxOk
    ensures NextRadioState(c, now, bus).state == Transmitting ==> NextRadioState(c, now, bus) == c
    ensures c.since <= U32_MODULUS - 15 && NextRadioState(c, now, bus).state == RadioState.Idle ==>
              now == c.since + 14
  {
  }

  /** `send_packet` from the Idle state. */
  function SendFromIdle(msg: seq<uint8>, txPacketSize: uint8, modRegister: uint8, busOk: bool): (outcome: SendOutcome)
    ensures |msg| > txPacketSize as int ==> outcome == Skipped
    ensures |msg| <= txPacketSize as int ==> (outcome.Sent? <==> busOk)
    ensures outcome.Sent? ==>
              && |outcome.buffer| == txPacketSize as int + 1
              && outcome.buffer[0] == TX_BASE_ADDRESS
              && outcome.buffer[1..|msg| + 1] == msg
              && (forall i :: |msg| + 1 <= i < |outcome.buffer| ==> outcome.buffer[i] == 0)
              && outcome.workaround == ModQualityWorkaround(modRegister)
  {
    if |msg| > txPacketSize as int then Skipped
    else if !busOk then SendFailed
    else
      var buffer := [TX_BASE_ADDRESS] + msg + Zeros(txPacketSize as int - |msg|);
      assert buffer[1..|msg| + 1] == msg;
      Sent(ModQualityWorkaround(modRegister), buffer)
  }

  /** The MAC gate of the flight computer: an authenticated command is dropped unless
      its MAC is the previous or the current hash; every other message passes. */
  function AcceptUplink(m: Option<Telemetry.UplinkMessage>, lastHash: uint64, current: uint64): (r: Option<Telemetry.UplinkMessage>)
    ensures r.Some? ==> r == m
    ensures r.Some? && r.value.Authenticated() ==> r.value.mac == lastHash || r.value.mac == current
    ensures m.Some? && !m.value.Authenticated() ==> r == m
    ensures m.Some? && m.value.Authenticated() && (m.value.mac == lastHash || m.value.mac == current) ==> r == m
  {
    if m.Some? && m.value.Authenticated() && m.value.mac != lastHash && m.value.mac != current then None else m
  }

  /** The ground station counts as in contact for CONTACT_TIMEOUT_MS after the last
      message it received, on the wrapping clock; never before the first one. */
  function InContact(now: uint32, lastMessageReceived: uint32): bool {
    lastMessageReceived > 0 && WrappingSub32(now, lastMessageReceived) < CONTACT_TIMEOUT_MS
  }

  /** The ground station's estimate of the flight computer's clock: `(time as i64)
      .wrapping_add(offset) as u32`, i.e. the sum modulo 2^32. */
  function FcTime(now: uint32, offset: int): uint32 {
    (now + offset) % U32_MODULUS
  }

  /** After a downlink message stamped `t` arrives at `now`, the estimate of the flight
      computer's clock at that instant is `t + TRANSMISSION_TIMEOUT_MS`, the stamp plus
      the assumed transit delay. */
  lemma FcTimeTracksLastMessage(now: uint32, t: uint32)
    ensures FcTime(now, t as int - now as int + TRANSMISSION_TIMEOUT_MS as int) == (t + TRANSMISSION_TIMEOUT_MS) % U32_MODULUS
  {
  }

  /** The channel of the slow sweep while out of contact. */
  function SweepChannel(now: uint32): (f: uint32)
    ensures f in CHANNELS
  {
    CHANNELS[(now / SWEEP_INTERVAL_MS) as nat % |CHANNELS|]
  }

  /** RSSI, signal RSSI and SNR of the last packet, as the packet status reports them. */
  datatype LinkQuality = LinkQuality(rssi: uint8, rssiSignal: uint8, snr: uint8)

  /** Every field of `LoRaRadio` that its methods change, as one value. `hashed` is
      the sequence of words written into the flight computer's SipHash state. */
  datatype RadioVars = RadioVars(
    time: uint32,
    clock: RadioClock,
    highPower: bool,
    highPowerConfigured: bool,
    link: LinkQuality,
    hashed: seq<uint64>,
    lastHash: uint64,
    lastMessageReceived: uint32,
    uplinkMessage: Option<Telemetry.UplinkMessage>,
    fcTimeOffset: int)

  /** The link quality after `receive_data`: refreshed whenever the packet status was read. */
  function LinkAfterReceive(link: LinkQuality, hw: RxHardware): LinkQuality {
    var ps := PacketStatus(hw);
    if ps.Some? then LinkQuality(ps.value[1], ps.value[3], ps.value[2]) else link
  }

  /** `tick_common` on the radio's fields. */
  function CommonTick(v: RadioVars, now: uint32, bus: CommonBus): RadioVars {
    var powerApplied := v.highPower != v.highPowerConfigured && bus.setPowerOk;
    v.(time := now,
       clock := NextRadioState(v.clock, now, bus),
       highPowerConfigured := if powerApplied then v.highPower else v.highPowerConfigured)
  }

  /** The common tick sets the clock, drives the state machine, and brings the
      configured power level up to date exactly when that is needed and succeeds; it
      touches nothing else. */
  lemma CommonTickEffect(v: RadioVars, now: uint32, bus: CommonBus)
    ensures var w := CommonTick(v, now, bus);
            && w.time == now
            && w.clock == NextRadioState(v.clock, now, bus)
            && w.highPower == v.highPower
            && (w.highPowerConfigured == w.highPower <==> v.highPowerConfigured == v.highPower || bus.setPowerOk)
            && w.(time := v.time, clock := v.clock, highPowerConfigured := v.highPowerConfigured) == v
  {
  }

  /** `send_packet` on the radio's fields, with TX_PACKET_SIZE given. */
  function SendStep(v: RadioVars, msg: seq<uint8>, txPacketSize: uint8, modRegister: uint8, busOk: bool): (SendOutcome, RadioVars) {
    if v.clock.state != RadioState.Idle then (Skipped, v)
    else
      var outcome := SendFromIdle(msg, txPacketSize, modRegister, busOk);
      (outcome, if outcome.Sent? then v.(clock := RadioClock(Transmitting, v.time)) else v)
  }

  /** A packet goes out exactly when the radio is idle, the message fits and every
      command succeeds; the radio is then transmitting since the current time and
      nothing else changes. Otherwise no field changes at all. */
  lemma SendStartsTransmission(v: RadioVars, msg: seq<uint8>, txPacketSize: uint8, modRegister: uint8, busOk: bool)
    ensures var r := SendStep(v, msg, txPacketSize, modRegister, busOk);
            && (r.0.Sent? <==> v.clock.state == RadioState.Idle && |msg| <= txPacketSize as int && busOk)
            && (r.0.Sent? ==> r.1 == v.(clock := RadioClock(Transmitting, v.time)))
            && (!r.0.Sent? ==> r.1 == v)
  {
  }

  /** The SipHash chain of the flight computer: every word written is the keyed hash
      of the words before it, and `last_hash` is the latest of them (0 before the
      first). */
  ghost predicate HashChain(hashed: seq<uint64>, lastHash: uint64, macOf: seq<uint64> -> uint64) {
    && (forall i :: 0 <= i < |hashed| ==> hashed[i] == macOf(hashed[..i]))
    && lastHash == (if |hashed| == 0 then 0 else hashed[|hashed| - 1])
  }

  /** The result of one flight-computer `tick`: the new fields, the accepted command,
      and the channel hopped to, if any. */
  datatype FlightStep = FlightStep(vars: RadioVars, msg: Option<Telemetry.UplinkMessage>, hop: Option<uint32>)

  /** The first half of the flight computer's `tick`: the common tick, the power level
      for the flight mode, and the hash chain advancing on every LORA_MESSAGE_INTERVAL
      boundary after time 0 (`last_hash = finish()`, then written into the hasher). */
  function FlightPrelude(v: RadioVars, now: uint32, mode: FlightMode, bus: CommonBus, macOf: seq<uint64> -> uint64): RadioVars {
    var c := CommonTick(v, now, bus).(highPower := mode.AtLeast(Armed));
    if now > 0 && now % Telemetry.LORA_MESSAGE_INTERVAL == 0
    then c.(lastHash := macOf(c.hashed), hashed := c.hashed + [macOf(c.hashed)])
    else c
  }

  /** The second half: an idle radio hops on a slot boundary and, in an uplink
      window, receives a command and passes it through the MAC gate. */
  function FlightListen(h: RadioVars, now: uint32, hw: RxHardware,
                        decode: seq<uint8> -> Option<Telemetry.UplinkMessage>, macOf: seq<uint64> -> uint64): FlightStep
  {
    if h.clock.state != RadioState.Idle then FlightStep(h, None, None)
    else
      var hop := if now % Telemetry.LORA_MESSAGE_INTERVAL == 0 then Some(HopChannel(now)) else None;
      if !IsUplinkWindow(now, false) then FlightStep(h, None, hop)
      else
        var received := ReceivedMessage(hw, UPLINK_PACKET_SIZE, decode);
        var r := h.(link := LinkAfterReceive(h.link, hw),
                    lastMessageReceived := if received.Some? then now else h.lastMessageReceived);
        FlightStep(r, AcceptUplink(received, r.lastHash, macOf(r.hashed)), hop)
  }

  /** The flight computer's `tick` on the radio's fields. */
  function FlightTick(v: RadioVars, now: uint32, mode: FlightMode, bus: CommonBus, hw: RxHardware,
                      decode: seq<uint8> -> Option<Telemetry.UplinkMessage>, macOf: seq<uint64> -> uint64): FlightStep
  {
    FlightListen(FlightPrelude(v, now, mode, bus, macOf), now, hw, decode, macOf)
  }

  /** The hash chain is kept by every tick, and grows by one word exactly on each
      LORA_MESSAGE_INTERVAL boundary after time 0. */
  lemma {:induction false} FlightTickKeepsHashChain(v: RadioVars, now: uint32, mode: FlightMode, bus: CommonBus, hw: RxHardware,
                                                    decode: seq<uint8> -> Option<Telemetry.UplinkMessage>, macOf: seq<uint64> -> uint64)
    requires HashChain(v.hashed, v.lastHash, macOf)
    ensures var w := FlightTick(v, now, mode, bus, hw, decode, macOf).vars;
            && HashChain(w.hashed, w.lastHash, macOf)
            && |w.hashed| == |v.hashed| + (if now > 0 && now % Telemetry.LORA_MESSAGE_INTERVAL == 0 then 1 else 0)
            && v.hashed <= w.hashed
  {
    var w := FlightTick(v, now, mode, bus, hw, decode, macOf).vars;
    if now > 0 && now % Telemetry.LORA_MESSAGE_INTERVAL == 0 {
      assert w.hashed == v.hashed + [macOf(v.hashed)];
      forall i | 0 <= i < |w.hashed|
        ensures w.hashed[i] == macOf(w.hashed[..i])
      {
        if i < |v.hashed| {
          assert w.hashed[..i] == v.hashed[..i];
        } else {
          assert w.hashed[..i] == v.hashed;
        }
      }
    } else {
      assert w.hashed == v.hashed;
    }
  }

  /** A command is accepted only from an uplink window of an idle radio, after
      which that time counts as the last contact; an authenticated command only when
      it carries the latest word of the hash chain or the word the chain produces
      next. Outside uplink windows nothing is received and the link quality stays. */
  lemma FlightAcceptsOnlyInWindowWithChainMac(v: RadioVars, now: uint32, mode: FlightMode, bus: CommonBus, hw: RxHardware,
                                              decode: seq<uint8> -> Option<Telemetry.UplinkMessage>, macOf: seq<uint64> -> uint64)
    ensures var s := FlightTick(v, now, mode, bus, hw, decode, macOf);
            && (s.msg.Some? ==> IsUplinkWindow(now, false) && s.vars.clock.state == RadioState.Idle
                                && s.vars.lastMessageReceived == now
                                && s.msg == ReceivedMessage(hw, UPLINK_PACKET_SIZE, decode))
            && (s.msg.Some? && s.msg.value.Authenticated() ==>
                  s.msg.value.mac == s.vars.lastHash || s.msg.value.mac == macOf(s.vars.hashed))
            && (!IsUplinkWindow(now, false) ==> s.msg.None? && s.vars.link == v.link
                                                && s.vars.lastMessageReceived == v.lastMessageReceived)
  {
  }

  /** An unauthenticated command received in an uplink window of an idle radio is
      always accepted. */
  lemma FlightAcceptsUnauthenticated(v: RadioVars, now: uint32, mode: FlightMode, bus: CommonBus, hw: RxHardware,
                                     decode: seq<uint8> -> Option<Telemetry.UplinkMessage>, macOf: seq<uint64> -> uint64)
    requires CommonTick(v, now, bus).clock.state == RadioState.Idle && IsUplinkWindow(now, false)
    requires ReceivedMessage(hw, UPLINK_PACKET_SIZE, decode).Some?
    requires !ReceivedMessage(hw, UPLINK_PACKET_SIZE, decode).value.Authenticated()
    ensures FlightTick(v, now, mode, bus, hw, decode, macOf).msg == ReceivedMessage(hw, UPLINK_PACKET_SIZE, decode)
  {
  }

  /** The flight computer transmits at high power exactly from Armed on, and an idle
      radio hops to the slot's channel exactly on each LORA_MESSAGE_INTERVAL boundary. */
  lemma FlightPowerAndHopping(v: RadioVars, now: uint32, mode: FlightMode, bus: CommonBus, hw: RxHardware,
                              decode: seq<uint8> -> Option<Telemetry.UplinkMessage>, macOf: seq<uint64> -> uint64)
    ensures var s := FlightTick(v, now, mode, bus, hw, decode, macOf);
            && (s.vars.highPower <==> !(mode == FlightMode.Idle || mode == HardwareArmed))
            && (s.hop.Some? <==> s.vars.clock.state == RadioState.Idle && now % Telemetry.LORA_MESSAGE_INTERVAL == 0)
            && (s.hop.Some? ==> s.hop.value == CHANNELS[CHANNEL_SEQUENCE[(now / Telemetry.LORA_MESSAGE_INTERVAL) as nat % |CHANNEL_SEQUENCE|]])
  {
    AtLeastArmedModes(mode);
  }

  /** The result of one ground-station `tick`: the new fields, the received downlink
      message, the channel switched to, and what became of an uplink transmission. */
  datatype GroundStep = GroundStep(vars: RadioVars, msg: Option<Telemetry.DownlinkMessage>, hop: Option<uint32>, sent: SendOutcome)

  /** The channel change of the ground station: the slow sweep out of contact, the
      flight computer's hopping sequence on its estimated clock in contact. */
  function GroundHop(now: uint32, contact: bool, fcTime: uint32): Option<uint32> {
    if !contact && now % SWEEP_INTERVAL_MS == 0 then Some(SweepChannel(now))
    else if contact && fcTime % Telemetry.LORA_MESSAGE_INTERVAL == 0 then Some(HopChannel(fcTime))
    else None
  }

  /** The uplink slot: in contact, and LORA_UPLINK_MODULO ms into an uplink interval
      of the flight computer's clock, 5 ms early. */
  predicate UplinkSlot(v: RadioVars, now: uint32) {
    InContact(now, v.lastMessageReceived) && IsUplinkWindow(WrappingSub32(FcTime(now, v.fcTimeOffset), 5), true)
  }

  /** The uplink slot of the ground station: the queued command, or a heartbeat, is
      taken from the queue and sent; `serialize` stands for the postcard encoding
      (empty when it fails). */
  function GroundUplink(c: RadioVars, serialize: Telemetry.UplinkMessage -> seq<uint8>,
                        modRegister: uint8, sendOk: bool): (SendOutcome, RadioVars)
  {
    var queued := if c.uplinkMessage.Some? then c.uplinkMessage.value else Telemetry.Heartbeat;
    SendStep(c.(uplinkMessage := None), serialize(queued), UPLINK_PACKET_SIZE, modRegister, sendOk)
  }

  /** Listening for a downlink message: a received message renews contact, resets the
      estimate of the flight computer's clock, and main telemetry sets the power level. */
  function GroundListen(c: RadioVars, hw: RxHardware,
                        decode: seq<uint8> -> Option<Telemetry.DownlinkMessage>): (Option<Telemetry.DownlinkMessage>, RadioVars)
  {
    var now := c.time;
    var m := ReceivedMessage(hw, DOWNLINK_PACKET_SIZE, decode);
    var r := c.(link := LinkAfterReceive(c.link, hw));
    if m.None? then (None, r)
    else
      (m, r.(lastMessageReceived := now,
             fcTimeOffset := m.value.Time() as int - now as int + TRANSMISSION_TIMEOUT_MS as int,
             highPower := if m.value.TelemetryMainCompressed? then m.value.mode.AtLeast(Armed) else r.highPower))
  }

  /** The rest of the ground station's `tick` after the common tick. */
  function GroundExchange(c: RadioVars, hw: RxHardware,
                          decode: seq<uint8> -> Option<Telemetry.DownlinkMessage>,
                          serialize: Telemetry.UplinkMessage -> seq<uint8>,
                          modRegister: uint8, sendOk: bool): GroundStep
  {
    var now := c.time;
    if c.clock.state != RadioState.Idle then GroundStep(c, None, None, Skipped)
    else
      var hop := GroundHop(now, InContact(now, c.lastMessageReceived), FcTime(now, c.fcTimeOffset));
      if UplinkSlot(c, now) then
        var r := GroundUplink(c, serialize, modRegister, sendOk);
        GroundStep(r.1, None, hop, r.0)
      else
        var r := GroundListen(c, hw, decode);
        GroundStep(r.1, r.0, hop, Skipped)
  }

  /** The ground station's `tick` on the radio's fields. */
  function GroundTick(v: RadioVars, now: uint32, bus: CommonBus, hw: RxHardware,
                      decode: seq<uint8> -> Option<Telemetry.DownlinkMessage>,
                      serialize: Telemetry.UplinkMessage -> seq<uint8>,
                      modRegister: uint8, sendOk: bool): GroundStep
  {
    GroundExchange(CommonTick(v, now, bus), hw, decode, serialize, modRegister, sendOk)
  }

  /** The ground station transmits only in its uplink slot, which falls inside an
      uplink window of the flight computer's (estimated) clock; it then sends the
      queued command, or a heartbeat when none is queued, consumes the queue whether
      or not the transmission succeeds, and receives nothing. */
  lemma GroundUplinksOnlyInSlot(v: RadioVars, now: uint32, bus: CommonBus, hw: RxHardware,
                                decode: seq<uint8> -> Option<Telemetry.DownlinkMessage>,
                                serialize: Telemetry.UplinkMessage -> seq<uint8>,
                                modRegister: uint8, sendOk: bool)
    ensures var s := GroundTick(v, now, bus, hw, decode, serialize, modRegister, sendOk);
            var slot := CommonTick(v, now, bus).clock.state == RadioState.Idle && UplinkSlot(v, now);
            var queued := if v.uplinkMessage.Some? then v.uplinkMessage.value else Telemetry.Heartbeat;
            && (s.sent != Skipped ==> slot)
            && (slot ==> s.msg.None? && s.vars.uplinkMessage.None?
                         && s.sent == SendFromIdle(serialize(queued), UPLINK_PACKET_SIZE, modRegister, sendOk)
                         && IsUplinkWindow(FcTime(now, v.fcTimeOffset), false))
            && (!slot ==> s.vars.uplinkMessage == v.uplinkMessage)
  {
    if CommonTick(v, now, bus).clock.state == RadioState.Idle && UplinkSlot(v, now) {
      GroundUplinkLandsInFlightWindow(FcTime(now, v.fcTimeOffset));
    }
  }

  /** A received downlink message renews contact for CONTACT_TIMEOUT_MS and resets the
      estimate of the flight computer's clock to the message's time stamp plus the
      transit delay; compressed main telemetry also sets the power level from the
      flight computer's mode. */
  lemma GroundResynchronises(v: RadioVars, now: uint32, bus: CommonBus, hw: RxHardware,
                             decode: seq<uint8> -> Option<Telemetry.DownlinkMessage>,
                             serialize: Telemetry.UplinkMessage -> seq<uint8>,
                             modRegister: uint8, sendOk: bool, later: uint32)
    ensures var s := GroundTick(v, now, bus, hw, decode, serialize, modRegister, sendOk);
            s.msg.Some? ==>
              && s.msg == ReceivedMessage(hw, DOWNLINK_PACKET_SIZE, decode)
              && FcTime(now, s.vars.fcTimeOffset) == (s.msg.value.Time() + TRANSMISSION_TIMEOUT_MS) % U32_MODULUS
              && (now > 0 && now <= later < now + CONTACT_TIMEOUT_MS ==> InContact(later, s.vars.lastMessageReceived))
              && (s.msg.value.TelemetryMainCompressed? ==> s.vars.highPower == s.msg.value.mode.AtLeast(Armed))
  {
    var s := GroundTick(v, now, bus, hw, decode, serialize, modRegister, sendOk);
    if s.msg.Some? {
      FcTimeTracksLastMessage(now, s.msg.value.Time());
    }
  }

  /** Out of contact, the ground station only listens, switching to the next channel
      of the slow sweep every SWEEP_INTERVAL_MS. */
  lemma GroundSweepsOutOfContact(v: RadioVars, now: uint32, bus: CommonBus, hw: RxHardware,
                                 decode: seq<uint8> -> Option<Telemetry.DownlinkMessage>,
                                 serialize: Telemetry.UplinkMessage -> seq<uint8>,
                                 modRegister: uint8, sendOk: bool)
    requires CommonTick(v, now, bus).clock.state == RadioState.Idle
    requires !InContact(now, v.lastMessageReceived)
    ensures var s := GroundTick(v, now, bus, hw, decode, serialize, modRegister, sendOk);
            && s.sent == Skipped
            && s.msg == ReceivedMessage(hw, DOWNLINK_PACKET_SIZE, decode)
            && (s.hop.Some? <==> now % SWEEP_INTERVAL_MS == 0)
            && (s.hop.Some? ==> s.hop.value == CHANNELS[(now / SWEEP_INTERVAL_MS) as nat % 14])
  {
  }

  /** `LoRaRadio`, in the build chosen by `groundStation`; `macOf` is the keyed
      SipHash `finish` of the words written into the hasher. */
  /** The two builds agree on the packet sizes: whatever one side transmits is the
      size the other side expects to receive, and each side's two sizes differ. */
  lemma PacketSizesMatch(flight: LoRaRadio, ground: LoRaRadio)
    requires !flight.groundStation && ground.groundStation
    ensures ground.RxPacketSize() == flight.TxPacketSize() == DOWNLINK_PACKET_SIZE
    ensures flight.RxPacketSize() == ground.TxPacketSize() == UPLINK_PACKET_SIZE
    ensures flight.TxPacketSize() != flight.RxPacketSize()
  {
  }

  class LoRaRadio {
    const groundStation: bool
    const macOf: seq<uint64> -> uint64

    var time: uint32
    var state: RadioState
    var stateTime: uint32
    var highPower: bool
    var highPowerConfigured: bool
    var rssi: uint8
    var rssiSignal: uint8
    var snr: uint8
    // flight computer
    var hashed: seq<uint64>
    var lastHash: uint64
    var lastMessageReceived: uint32
    // ground station
    var uplinkMessage: Option<Telemetry.UplinkMessage>
    var fcTimeOffset: int

    function Vars(): RadioVars
      reads this
    {
      RadioVars(time, RadioClock(state, stateTime), highPower, highPowerConfigured,
                LinkQuality(rssi, rssiSignal, snr), hashed, lastHash, lastMessageReceived,
                uplinkMessage, fcTimeOffset)
    }

    /** TX_PACKET_SIZE: the uplink size on the ground station, the downlink size on
        the flight computer. */
    function TxPacketSize(): (n: uint8)
      ensures n == if groundStation then UPLINK_PACKET_SIZE else DOWNLINK_PACKET_SIZE
    {
      if groundStation then UPLINK_PACKET_SIZE else DOWNLINK_PACKET_SIZE
    }

    /** RX_PACKET_SIZE: what the other side transmits. */
    function RxPacketSize(): (n: uint8)
      ensures n == if groundStation then DOWNLINK_PACKET_SIZE else UPLINK_PACKET_SIZE
    {
      if groundStation then DOWNLINK_PACKET_SIZE else UPLINK_PACKET_SIZE
    }

    /** `LoRaRadio::init`: unconfigured, low power, no link quality yet, an empty
        hash chain and no contact. */
    constructor (groundStation: bool, macOf: seq<uint64> -> uint64)
      ensures this.groundStation == groundStation && this.macOf == macOf
      ensures Vars() == RadioVars(0, RadioClock(Init, 0), false, false, LinkQuality(255, 255, 0),
                                  [], 0, 0, None, 0)
      ensures HashChain(hashed, lastHash, macOf)
    {
      this.groundStation := groundStation;
      this.macOf := macOf;
      time := 0;
      state := Init;
      stateTime := 0;
      highPower := false;
      highPowerConfigured := false;
      rssi := 255;
      rssiSignal := 255;
      snr := 0;
      hashed := [];
      lastHash := 0;
      lastMessageReceived := 0;
      uplinkMessage := None;
      fcTimeOffset := 0;
    }

    /** `set_state`: the state changes and its clock restarts at the current time. */
    method SetState(s: RadioState)
      modifies this
      ensures Vars() == old(Vars()).(clock := RadioClock(s, time))
    {
      state := s;
      stateTime := time;
    }

    /** `tick_common`: configure the radio until that succeeds, return to receive mode
        exactly TRANSMISSION_TIMEOUT_MS + 2 ms (wrapping) after a transmission began,
        and apply a changed power level once setting it succeeds. */
    method TickCommon(now: uint32, bus: CommonBus)
      modifies this
      ensures Vars() == CommonTick(old(Vars()), now, bus)
    {
      time := now;

      if state == Init {
        if bus.configureOk {
          SetState(RadioState.Idle);
        }
      }

      if state == Transmitting && now == WrappingAdd32(stateTime, TRANSMISSION_TIMEOUT_MS + 2) {
        if bus.switchToRxOk {
          SetState(RadioState.Idle);
        }
      }

      if highPower != highPowerConfigured {
        if bus.setPowerOk {
          highPowerConfigured := highPower;
        }
      }
    }

    /** `send_packet`: only when idle and when the message fits TX_PACKET_SIZE; then
        the 500 kHz workaround, the packet parameters, the buffer
        `[TX_BASE_ADDRESS] ++ msg ++ zeros` of TX_PACKET_SIZE + 1 bytes, and transmit
        mode. A failed command leaves the state as it was. */
    method SendPacket(msg: seq<uint8>, modRegister: uint8, busOk: bool) returns (outcome: SendOutcome)
      modifies this
      ensures (outcome, Vars()) == SendStep(old(Vars()), msg, TxPacketSize(), modRegister, busOk)
    {
      if state != RadioState.Idle {
        return Skipped;
      }
      if |msg| > TxPacketSize() as int {
        return Skipped;
      }
      if !busOk {
        return SendFailed;
      }

      var workaround := ModQualityWorkaround(modRegister);
      var buffer := [TX_BASE_ADDRESS] + msg + Zeros(TxPacketSize() as int - |msg|);
      SetState(Transmitting);
      outcome := Sent(workaround, buffer);
    }

    /** `receive_data`: nothing without the RxDone interrupt; otherwise the IRQ status
        is read (0 when that fails) and cleared, the packet status updates RSSI and SNR,
        a CRC error aborts, and the packet is read with its length capped at
        RX_PACKET_SIZE. The buffer read starts with the radio's status byte. */
    method ReceiveData(hw: RxHardware) returns (r: Received)
      modifies this
      ensures r == ReceiveOutcome(hw, RxPacketSize())
      ensures Vars() == old(Vars()).(link := LinkAfterReceive(old(Vars()).link, hw))
    {
      if !hw.irq {
        return NoPacket;
      }

      var irqStatus := IrqStatus(hw.irqStatus);

      if !hw.clearIrqOk {
        return Failed(Spi);
      }

      if hw.packetStatus.None? {
        return Failed(Spi);
      }
      var packetStatus := Response(OP_GET_PACKET_STATUS, [], 4, hw.packetStatus.value);
      rssi := packetStatus[1];
      rssiSignal := packetStatus[3];
      snr := packetStatus[2];

      if (irqStatus / IRQ_CRC_ERR) % 2 == 1 {
        return Failed(Crc);
      }

      if hw.bufferStatus.None? {
        return Failed(Spi);
      }
      var rxBufferStatus := Response(OP_GET_RX_BUFFER_STATUS, [], 3, hw.bufferStatus.value);
      var len := if rxBufferStatus[1] < RxPacketSize() then rxBufferStatus[1] else RxPacketSize();

      if hw.buffer.None? {
        return Failed(Spi);
      }
      var buffer := Response(OP_READ_BUFFER, [rxBufferStatus[2]], len + 1, hw.buffer.value);

      if !hw.rxModeOk {
        return Failed(Spi);
      }
      r := Packet(buffer);
    }

    /** `receive_message`, with read errors folded into "nothing" as every caller
        does: the packet after its status byte, decoded (postcard over COBS, given as
        `decode`). */
    method ReceiveMessage<M>(hw: RxHardware, decode: seq<uint8> -> Option<M>) returns (m: Option<M>)
      modifies this
      ensures m == ReceivedMessage(hw, RxPacketSize(), decode)
      ensures Vars() == old(Vars()).(link := LinkAfterReceive(old(Vars()).link, hw))
    {
      var data := ReceiveData(hw);
      if data.Failed? {
        return None;
      }
      var buffer := if data.Packet? then data.bytes else [];
      if |buffer| == 0 {
        return None;
      }
      m := decode(buffer[1..]);
    }

    /** `send_downlink_message` (flight computer): a message that failed to serialise
        (None) is dropped; otherwise it is sent as a packet. */
    method SendDownlinkMessage(serialized: Option<seq<uint8>>, modRegister: uint8, busOk: bool) returns (outcome: SendOutcome)
      requires !groundStation
      modifies this
      ensures (outcome, Vars()) == if serialized.None? then (Skipped, old(Vars()))
                                   else SendStep(old(Vars()), serialized.value, DOWNLINK_PACKET_SIZE, modRegister, busOk)
    {
      if serialized.None? {
        return Skipped;
      }
      outcome := SendPacket(serialized.value, modRegister, busOk);
    }

    /** `queue_uplink_message` (ground station): the next uplink slot sends `msg`. */
    method QueueUplinkMessage(msg: Telemetry.UplinkMessage)
      requires groundStation
      modifies this
      ensures Vars() == old(Vars()).(uplinkMessage := Some(msg))
    {
      uplinkMessage := Some(msg);
    }

    /** `tick` of the flight computer. Returns the accepted command and the channel
        hopped to, if any. */
    method TickFlight(now: uint32, mode: FlightMode, bus: CommonBus, hw: RxHardware,
                      decode: seq<uint8> -> Option<Telemetry.UplinkMessage>)
      returns (msg: Option<Telemetry.UplinkMessage>, hop: Option<uint32>)
      requires !groundStation
      modifies this
      ensures FlightStep(Vars(), msg, hop) == FlightTick(old(Vars()), now, mode, bus, hw, decode, macOf)
    {
      TickCommon(now, bus);
      highPower := mode.AtLeast(Armed);

      if time > 0 && time % Telemetry.LORA_MESSAGE_INTERVAL == 0 {
        lastHash := macOf(hashed);
        hashed := hashed + [lastHash];
      }

      msg, hop := ListenForUplink(hw, decode);
    }

    /** The rest of the flight computer's `tick`, from its state check on: nothing
        unless idle; a hop on each slot boundary; in an uplink window, the received
        command through the MAC gate. */
    method ListenForUplink(hw: RxHardware, decode: seq<uint8> -> Option<Telemetry.UplinkMessage>)
      returns (msg: Option<Telemetry.UplinkMessage>, hop: Option<uint32>)
      requires !groundStation
      modifies this
      ensures FlightStep(Vars(), msg, hop) == FlightListen(old(Vars()), time, hw, decode, macOf)
    {
      if state != RadioState.Idle {
        return None, None;
      }

      hop := None;
      if time % Telemetry.LORA_MESSAGE_INTERVAL == 0 {
        hop := Some(HopChannel(time));
      }

      msg := None;
      if IsUplinkWindow(time, false) {
        var received := ReceiveMessage(hw, decode);
        if received.Some? {
          lastMessageReceived := time;
          var m := received.value;
          if m.Authenticated() {
            var current := macOf(hashed);
            if m.mac != lastHash && m.mac != current {
              return None, hop;
            }
          }
          msg := received;
        }
      }
    }

    /** `send_uplink_message` (ground station): the serialised command, empty when
        serialising fails, sent as a packet. */
    method SendUplinkMessage(msg: Telemetry.UplinkMessage, serialize: Telemetry.UplinkMessage -> seq<uint8>,
                             modRegister: uint8, busOk: bool) returns (outcome: SendOutcome)
      requires groundStation
      modifies this
      ensures (outcome, Vars()) == SendStep(old(Vars()), serialize(msg), UPLINK_PACKET_SIZE, modRegister, busOk)
    {
      outcome := SendPacket(serialize(msg), modRegister, busOk);
    }

    /** `tick` of the ground station. Returns the received downlink message, the
        channel switched to, and the outcome of an uplink transmission. */
    method TickGround(now: uint32, bus: CommonBus, hw: RxHardware,
                      decode: seq<uint8> -> Option<Telemetry.DownlinkMessage>,
                      serialize: Telemetry.UplinkMessage -> seq<uint8>,
                      modRegister: uint8, sendOk: bool)
      returns (msg: Option<Telemetry.DownlinkMessage>, hop: Option<uint32>, sent: SendOutcome)
      requires groundStation
      modifies this
      ensures GroundStep(Vars(), msg, hop, sent) == GroundTick(old(Vars()), now, bus, hw, decode, serialize, modRegister, sendOk)
    {
      TickCommon(now, bus);
      msg, hop, sent := ExchangeWithFlight(hw, decode, serialize, modRegister, sendOk);
    }

    /** The rest of the ground station's `tick`, from its state check on: the channel
        change, then either the uplink slot or listening for a downlink message. */
    method ExchangeWithFlight(hw: RxHardware,
                              decode: seq<uint8> -> Option<Telemetry.DownlinkMessage>,
                              serialize: Telemetry.UplinkMessage -> seq<uint8>,
                              modRegister: uint8, sendOk: bool)
      returns (msg: Option<Telemetry.DownlinkMessage>, hop: Option<uint32>, sent: SendOutcome)
      requires groundStation
      modifies this
      ensures GroundStep(Vars(), msg, hop, sent) == GroundExchange(old(Vars()), hw, decode, serialize, modRegister, sendOk)
    {
      if state != RadioState.Idle {
        return None, None, Skipped;
      }

      var inContact := InContact(time, lastMessageReceived);
      var fcTime := FcTime(time, fcTimeOffset);

      hop := None;
      if !inContact && time % SWEEP_INTERVAL_MS == 0 {
        hop := Some(SweepChannel(time));
      }
      if inContact && fcTime % Telemetry.LORA_MESSAGE_INTERVAL == 0 {
        hop := Some(HopChannel(fcTime));
      }

      if inContact && IsUplinkWindow(WrappingSub32(fcTime, 5), true) {
        sent := SendQueuedUplink(serialize, modRegister, sendOk);
        msg := None;
      } else {
        sent := Skipped;
        msg := ListenForDownlink(hw, decode);
      }
    }

    /** The uplink branch of the ground station's `tick`: `uplink_message.take()`, or a
        heartbeat, then `send_uplink_message`. */
    method SendQueuedUplink(serialize: Telemetry.UplinkMessage -> seq<uint8>, modRegister: uint8, sendOk: bool)
      returns (sent: SendOutcome)
      requires groundStation
      modifies this
      ensures (sent, Vars()) == GroundUplink(old(Vars()), serialize, modRegister, sendOk)
    {
      var queued := if uplinkMessage.Some? then uplinkMessage.value else Telemetry.Heartbeat;
      uplinkMessage := None;
      sent := SendUplinkMessage(queued, serialize, modRegister, sendOk);
    }

    /** The receiving branch of the ground station's `tick`. */
    method ListenForDownlink(hw: RxHardware, decode: seq<uint8> -> Option<Telemetry.DownlinkMessage>)
      returns (msg: Option<Telemetry.DownlinkMessage>)
      requires groundStation
      modifies this
      ensures (msg, Vars()) == GroundListen(old(Vars()), hw, decode)
    {
      msg := ReceiveMessage(hw, decode);
      if msg.Some? {
        lastMessageReceived := time;
        fcTimeOffset := msg.value.Time() as int - time as int + TRANSMISSION_TIMEOUT_MS as int;
        if msg.value.TelemetryMainCompressed? {
          highPower := msg.value.mode.AtLeast(Armed);
        }
      }
    }
  }
}
