# Flight computer core — a Dafny model

This project models the core of a rocket flight computer's firmware and of its ground
station, written in Rust for an embedded target, and proves properties of that model:

- **telemetry** (`telemetry.dfy`, module `Telemetry`): the 8-bit compressed float
  (`f8`), the LED pattern per flight mode, the GPS fix type, the authenticated uplink
  commands, and the packet framing of the ground link: a magic byte, a variable-length
  size field, then the payload. A receive buffer pops the next valid frame and drops
  garbage up to the next magic byte.
- **barometer** (`baro.dfy`, module `Baro`): the MS5611 driver. This covers PROM
  calibration validation, the command bytes, the first- and second-order compensation
  from the datasheet, and the 20-sample median filter with its spike rejection.
- **buzzer** (`buzzer.dfy`, module `Buzzer`): the melody per flight mode and the
  sequencer that advances through the notes on each tick.
- **LoRa radio** (`lora.dfy`, module `LoRa`): the LLCC68 transceiver driver and link
  protocol. This covers:
  - the channel-hopping schedule and the RF frequency word;
  - the modulation and packet parameters;
  - packet reception;
  - the radio state machine (Init, Idle, Transmitting);
  - the flight computer's tick, with its SipHash chain of MACs for authenticated
    uplink commands and its uplink window;
  - the ground station's tick, with contact detection, clock resynchronisation, the
    uplink slot and the channel sweep.
- **ADXL375 accelerometer** (`adxl375.dfy`, module `Adxl375`): the SPI address byte,
  multi-byte register reads and writes, two's-complement axis decoding, the axis remap
  with saturating negation, the configuration bytes, initialisation, and the offset
  correction.

`common.dfy` (module `Common`) holds the fixed-width integer types, `Option`,
wrap-around 32-bit arithmetic and the flight mode with its ordering.

Everything the firmware gets from outside is a parameter:
- the bytes an SPI transfer returns: `Option<seq<uint8>>`, with `None` when the transfer
  failed;
- whether a write succeeded;
- the current time;
- the postcard/COBS encoder and decoder (`serialize`, `decode`);
- the SipHash state, as `macOf`, which maps the 64-bit words written so far to the
  hasher's `finish()`.

Objects whose fields the firmware updates in place are classes:
- `Telemetry.RxBuffer`;
- `Baro.BaroFilter` and `Baro.Ms5611`;
- `Buzzer.Buzzer`;
- `LoRa.LoRaRadio`;
- `Adxl375.Adxl375`.

The methods of `RxBuffer`, `BaroFilter`, `Buzzer`, `LoRaRadio` and `Adxl375` are each
specified against a pure function of the previous state. The radio's fields are viewed
through the snapshot `LoRaRadio.Vars()`, and its tick methods are proved equal to
`FlightTick` and `GroundTick`, about which the lemmas below are stated. The `Ms5611`
methods state their new fields clause by clause instead: `ReadSensorData` and `Tick`
give the new readings and filter history through the functions `TemperatureInput`,
`AdcReading`, `Pushed` and `FilterOutput`, and the invariant `Ms5611.Valid()` ties
temperature and pressure to `Compensate`.

## Model

| member | source | states |
|---|---|---|
| Common.WrappingAdd32 | src/lora.rs:509 | the sum modulo 2^32: the plain sum when it fits, and otherwise congruent to it |
| Common.WrappingSub32 | src/lora.rs:587 | `a - b` when `a >= b`, and `a - b + 2^32` when it would underflow |
| Common.FlightMode.AtLeast | src/telemetry.rs:72-81 | the derived order of flight modes (computed; which modes are at least Armed is stated by `Common.AtLeastArmedModes`) |
| Common.AtLeastArmedModes | src/telemetry.rs:72-81 | `mode >= Armed` holds exactly for the modes after HardwareArmed in the declared order |
| Common.Exchange | src/drivers/sensors/baro.rs:90-94 | a full-duplex transfer returns as many bytes as were clocked out: the slave's bytes where it answered, the sent ones otherwise |
| Common.Zeros | src/lora.rs:167 | the zero bytes clocked out while a response is read: `n` bytes, all zero |
| Telemetry.SmallExponent | src/telemetry.rs:43-56 | the exponent packed into an f8 is the float's exponent clamped to -7..8 |
| Telemetry.F8FromBits | src/telemetry.rs:43-56 | the f8 byte keeps the sign bit, the clamped exponent biased by 7 in bits 3-6, and the top three mantissa bits |
| Telemetry.F8ToBits | src/telemetry.rs:58-70 | expanding an f8 gives a float whose exponent lies in -7..8 and whose low 20 mantissa bits are zero, and compressing it again gives back the same byte |
| Telemetry.F8TestVectors | src/telemetry.rs:32-41 | the values of the firmware's compression test: 1.0, 0.5, -0.125 and -10.0 survive compression, and 100.0, 1000.0, 0.008 and -0.00001 come back as 96.0, 960.0, 0.015625 and -0.01953125 |
| Telemetry.F8KeepsRepresentable | src/telemetry.rs:43-70 | for a float whose exponent is in the f8 range, compression then expansion keeps sign, exponent and the top three fraction bits and clears the rest |
| Telemetry.LedState | src/telemetry.rs:84-95 | the LED table (computed; its meaning is stated by `Telemetry.LedStateMeaning`) |
| Telemetry.LedStateMeaning | src/telemetry.rs:84-95 | the red LED is lit exactly when hardware-armed, armed or under main chute; only the yellow LED when hardware-armed and the green LED when landed depend on the time; every pattern repeats after 1000 ms |
| Telemetry.GpsFixTypeFrom | src/telemetry.rs:119-131 | the discriminants 0..5 map to the fix type with that discriminant, and every larger value maps to NoFix |
| Telemetry.GpsFixTypeRoundTrip | src/telemetry.rs:104-131 | converting a fix type's discriminant back gives the same fix type |
| Telemetry.DownlinkMessage.Time | src/telemetry.rs:242-255 | a flash-content message reports time 0, and every other message reports its own time field |
| Telemetry.HeaderSize | src/telemetry.rs:324-336 | a header is 3 bytes in 15-bit length mode and 2 bytes in 7-bit mode |
| Telemetry.DeclaredLength | src/telemetry.rs:324-336 | the declared payload length is below 2^15, and is the length byte itself in 7-bit mode |
| Telemetry.HasFrame | src/telemetry.rs:311-339 | whether a whole frame starts the buffer (computed; `Telemetry.FramePayload` states that it is exactly when `read_valid` frames a payload) |
| Telemetry.FrameSize | src/telemetry.rs:324-336 | a frame occupies at least 2 bytes and no more than the buffer holds |
| Telemetry.Wrap | src/telemetry.rs:290-307 | a frame is the magic byte, then the length as one byte for payloads of at most 127 bytes or as two bytes (0x80 + len / 256, then len % 256) above that, then the payload unchanged |
| Telemetry.FramePayload | src/telemetry.rs:311-339 | a payload is found exactly when the buffer starts with the magic byte and holds the whole declared length, and it is that slice of the buffer |
| Telemetry.ReadValid | src/telemetry.rs:311-339 | a message is read only from a complete frame, and it is the decoding of that frame's payload |
| Telemetry.FramePayloadWrap | src/telemetry.rs:290-339 | the frame of a payload of 1..1032 bytes is complete, occupies exactly its own length, and parses back to that payload, whichever header form was chosen |
| Telemetry.ReadValidWrap | src/telemetry.rs:290-339 | reading a wrapped payload decodes exactly that payload |
| Telemetry.EmptyPayloadUnreadable | src/telemetry.rs:304-322 | a frame with an empty payload is never accepted |
| Telemetry.DropToMagic | src/telemetry.rs:342-364 | resynchronisation keeps a suffix of the buffer that is empty or starts with the magic byte, and every byte it drops is not a magic byte |
| Telemetry.DropToMagicSkips | src/telemetry.rs:342-364 | after resynchronisation the buffer starts at the first magic byte, if there is one |
| Telemetry.PopValidSpec | src/telemetry.rs:341-388 | what popping returns and leaves (computed; stated by `Telemetry.PopValidShape` and `Telemetry.PopValidWrapped`, and implemented by `Telemetry.RxBuffer.PopValid`) |
| Telemetry.PopValidShape | src/telemetry.rs:341-388 | popping leaves a suffix of the buffer; when a message is returned, its frame is removed and that message is the frame's decoding |
| Telemetry.PopValidWrapped | src/telemetry.rs:341-388 | bytes without a magic byte, followed by a wrapped message and anything else, pop that message and leave the rest |
| Telemetry.RxBuffer.PopValid | src/telemetry.rs:341-388 | the loop-and-drain implementation returns the message, and leaves the buffer, that the specification of popping prescribes |
| Telemetry.RxBuffer.Resynchronise | src/telemetry.rs:342-364 | the first loop of popping drops bytes up to the first magic byte, and reports a complete frame exactly when one starts there |
| Telemetry.RxBuffer.TakeFrame | src/telemetry.rs:366-387 | on a complete frame, the payload bytes after the header are returned and exactly the frame's bytes are removed from the front |
| Baro.Calibration.Valid | src/drivers/sensors/baro.rs:27-41 | calibration is valid exactly when no PROM word is 0x0000 or 0xffff |
| Baro.PromWord | src/drivers/sensors/baro.rs:110-115 | a PROM word is the big-endian value of the two response bytes |
| Baro.AdcValue | src/drivers/sensors/baro.rs:123 | an ADC reading is the big-endian 24-bit value of the three response bytes |
| Baro.CommandByte | src/drivers/sensors/baro.rs:235-245 | conversion commands carry the oversampling bits in bits 1-3, D1 at 0x40 and D2 at 0x50; the PROM read addresses words 0..7 |
| Baro.CommandByteRoundTrip | src/drivers/sensors/baro.rs:225-255 | every command is recovered from its byte, so no two commands share a byte |
| Baro.CommandResponse | src/drivers/sensors/baro.rs:90-94 | `command` returns exactly the response bytes following the command byte |
| Baro.ReadCalibrationValues | src/drivers/sensors/baro.rs:101-119 | a calibration exists exactly when all six PROM reads succeeded, and each of its words is the big-endian word of the two bytes read from its address |
| Baro.FirstOrderTemperature | src/drivers/sensors/baro.rs:147 | the first-order temperature `2000 + dT·C6 / 2^23` (computed; used by `Baro.ColdMeansNegativeDt` and `Baro.NoSecondOrderAboveTwentyDegrees`) |
| Baro.Compensate | src/drivers/sensors/baro.rs:146-175 | the firmware's compensation (computed; proved equal to the datasheet's by `Baro.CompensateMatchesDatasheet`) |
| Baro.CompensateMatchesDatasheet | src/drivers/sensors/baro.rs:146-175 | the driver's integer compensation equals the datasheet's first-order formula with the second-order correction |
| Baro.NoSecondOrderAboveTwentyDegrees | src/drivers/sensors/baro.rs:155-170 | at and above 20.00 °C no second-order correction is applied: the temperature is the first-order one and the pressure is the datasheet's first-order `(D1·SENS / 2^21 - OFF) / 2^15` |
| Baro.ColdMeansNegativeDt | src/drivers/sensors/baro.rs:147-155 | a first-order temperature below 20.00 °C implies a negative dT |
| Baro.TemperatureMonotone | src/drivers/sensors/baro.rs:147-170 | the compensated temperature never decreases as the raw temperature reading grows, across the second-order branch too |
| Baro.Sort | src/drivers/sensors/baro.rs:345-346 | sorting the history gives a sorted permutation of it |
| Baro.Insert | src/drivers/sensors/baro.rs:345-346 | inserting into a sorted history keeps it sorted and adds exactly the new sample |
| Baro.Median | src/drivers/sensors/baro.rs:347-351 | the element at index `len / 2` of the sorted history (computed; its rank is stated by `Baro.MedianIsUpperMedian`) |
| Baro.MedianIsUpperMedian | src/drivers/sensors/baro.rs:342-351 | the filter's median is an element of the history with at most half of the history strictly below it and at most (n-1)/2 strictly above it |
| Baro.BaroFilter.constructor | src/drivers/sensors/baro.rs:264-271 | the filter starts with an empty history and no last filtered value |
| Baro.BaroFilter.Filter | src/drivers/sensors/baro.rs:342-395 | the output is the input on an empty history and otherwise the median of the previous history; the input is pushed to the front of a history capped at 20 samples; the last filtered value becomes the output |
| Baro.Pushed | src/drivers/sensors/baro.rs:388-389 | the history after an input starts with that input, followed by the newest of the old samples, and holds at most 20 |
| Baro.FilterOutput | src/drivers/sensors/baro.rs:343-351 | the output is the input on an empty history and otherwise one of the history's samples |
| Baro.Ms5611.constructor | src/drivers/sensors/baro.rs:56-66 | the driver starts reading temperature first, with no readings and an empty filter |
| Baro.Ms5611.ReadSensorData | src/drivers/sensors/baro.rs:121-178 | a failed read changes no reading and leaves the filter alone; a temperature read (plus the 1 000 000 spike on every 13th millisecond) becomes `D2 - C5·256` and is passed through the median filter into dT, which is also the filter's last value; a pressure read is stored raw and leaves the filter alone; temperature and pressure are present exactly when dT and raw pressure are, and are their compensation |
| Baro.AdcReading | src/drivers/sensors/baro.rs:122-123 | the ADC result is the 24-bit big-endian value of the three bytes after the command byte |
| Baro.TemperatureInput | src/drivers/sensors/baro.rs:127-139 | the filter input is `D2 - C5·256`, plus 1 000 000 on every 13th millisecond |
| Baro.Ms5611.StoreTemperature | src/drivers/sensors/baro.rs:126-142 | a temperature read passes `TemperatureInput` through the filter into dT, which becomes the filter's last value, and leaves raw pressure, temperature and pressure alone |
| Baro.Ms5611.Recompute | src/drivers/sensors/baro.rs:146-174 | once dT and raw pressure are both present, temperature and pressure are present and are their compensation; dT and raw pressure stay unchanged |
| Baro.Ms5611.Tick | src/drivers/sensors/baro.rs:180-209 | a read that succeeds updates the filter (history and last value) as `ReadSensorData` does, even when the next conversion then fails to start; with the conversion started, the reading is stored (the filtered dT or the raw pressure), temperature and pressure are present exactly when dT and raw pressure are, and the tick switches between temperature and pressure and starts that conversion at OSR 256; a failed read keeps the filter; a failed read or a failed conversion start drops every reading and goes back to temperature |
| Buzzer.MelodyFor | src/buzzer.rs:256-263 | no melody in Idle and Flight, HWARMED when hardware-armed, ARMED when armed, the recovery warning in both recovery modes, LANDED after landing |
| Buzzer.MelodyShapes | src/buzzer.rs:35-205 | the melodies have 6, 6, 6, 57 and 1 notes; the recovery warning is one C5 lasting 750 ms; the start-up melody alternates tone and pause |
| Buzzer.TickPlayer | src/buzzer.rs:232-254 | a tick keeps the melody and the loop flag and never leaves the index past the melody |
| Buzzer.SwitchPlayer | src/buzzer.rs:256-267 | switching mode starts that mode's melody (`MelodyFor`) from the first note at the current time, looping only when landed |
| Buzzer.FinishedMelodyIsSilent | src/buzzer.rs:233-239 | a finished, non-looping melody turns the output off and changes nothing |
| Buzzer.RepeatStartsOver | src/buzzer.rs:233-236 | a finished looping melody plays its first note again |
| Buzzer.ToneIffPitch | src/buzzer.rs:242-248 | the output is enabled exactly when the current note has a pitch, at that pitch |
| Buzzer.AdvanceAfterDuration | src/buzzer.rs:250-253 | the sequencer moves to the next note exactly when more than the note's duration has elapsed, restarting the note clock |
| Buzzer.RecoveryWarning | src/buzzer.rs:204-254 | after entering recovery, C5 sounds for 750 ms and through the tick that ends it, then the buzzer stays off |
| Buzzer.Buzzer.Init | src/buzzer.rs:216-230 | the buzzer starts with the start-up melody at its first note, not looping |
| Buzzer.Buzzer.State | src/buzzer.rs:207-213 | the player state held by the buzzer's fields (computed; the methods are stated against it) |
| Buzzer.Buzzer.Tick | src/buzzer.rs:232-254 | the tick's output and new state are those of `TickPlayer` |
| Buzzer.Buzzer.SwitchMode | src/buzzer.rs:256-267 | the new state is that of `SwitchPlayer` |
| LoRa.IsUplinkWindow | src/lora.rs:487-494 | the uplink window test (computed; its meaning is stated by `LoRa.UplinkWindowCharacterisation`) |
| LoRa.UplinkWindowCharacterisation | src/lora.rs:487-494 | the flight computer's window is the 25 ms slot starting 100 ms past every multiple of 200 ms; the ground station's first-only window is that slot's first millisecond (100, 300, …, 900 ms into each second) |
| LoRa.GroundUplinkLandsInFlightWindow | src/lora.rs:487-494 | when the estimated flight time minus 5 ms (wrapping) starts an uplink slot, the flight time itself lies in the flight computer's listening window |
| LoRa.SlotChannel | src/lora.rs:358-369 | the channel of a time slot is one of the 14 channels, taken from the hopping sequence |
| LoRa.HopChannel | src/lora.rs:358-369 | the channel for a clock reading is one of the 14 channels |
| LoRa.HopChannelConstantInSlot | src/lora.rs:358-369 | every time within a 25 ms slot tunes to the same channel |
| LoRa.ChannelSequenceIsPermutation | src/lora.rs:35-52 | the hopping sequence visits each of the 14 channels exactly once |
| LoRa.ConsecutiveSlotsDistinct | src/lora.rs:35-52 | any 14 consecutive slots use 14 different channels |
| LoRa.ConsecutiveSlotsCoverChannels | src/lora.rs:35-52 | any 14 consecutive slots use all 14 channels |
| LoRa.SlotsReachChannel | src/lora.rs:35-52 | every channel is used by one of the 14 slots from any start |
| LoRa.PllWordAsWritten | src/lora.rs:193-206 | the PLL word as written (computed; its value is stated by `LoRa.PllWordAsWrittenValue`) |
| LoRa.PllWordAsWrittenValue | src/lora.rs:193-205 | as written, `frac` is always 1, so the word is the whole-step count times 2^14 plus one |
| LoRa.PllWord | src/lora.rs:193-205 | the corrected word is the frequency in units of 32 MHz / 2^25, rounded to nearest, modulo 2^32 |
| LoRa.PllAsWrittenOneStepHigh | src/lora.rs:193-205 | for a whole multiple of 15625 Hz, the word as written is one PLL step higher than the corrected word |
| LoRa.ChannelsPllOneStepHigh | src/lora.rs:193-205 | every one of the 14 channels is tuned one PLL step too high as written |
| LoRa.BigEndian32 | src/lora.rs:203 | the four parameter bytes are the word big-endian |
| LoRa.RfFrequencyParams | src/lora.rs:193-205 | the SetRfFrequency parameters are the corrected PLL word, big-endian |
| LoRa.ClampSpreadingFactor | src/lora.rs:238-247 | the spreading factor sent is the requested one capped at what the bandwidth supports (SF9 at 125 kHz, SF10 at 250 kHz) |
| LoRa.LoRaModParams | src/lora.rs:231-255 | the modulation parameters are the requested spreading factor capped at the bandwidth's maximum, then the bandwidth, coding rate and optimisation flag |
| LoRa.LoRaPacketParams | src/lora.rs:257-279 | the packet parameters are the preamble length (at least 1) big-endian, then the header, length, CRC and IQ settings |
| LoRa.ModQualityWorkaround | src/lora.rs:382-389 | register 0x0889 is rewritten exactly when bit 2 is set, with that bit cleared |
| LoRa.Response | src/lora.rs:153-176 | a command returns exactly the requested number of bytes following opcode and parameters |
| LoRa.IrqStatus | src/lora.rs:437-441 | the IRQ status is the big-endian word of the second and third response bytes, and 0 when it could not be read |
| LoRa.PacketStatus | src/lora.rs:443-449 | the packet status is read exactly when the IRQ line is high and the clear and status transfers succeed |
| LoRa.CrcError | src/lora.rs:437-441 | a CRC error is bit 6 of the IRQ status, i.e. of the low status byte; a failed status read reads as no error |
| LoRa.ReceiveOutcome | src/lora.rs:431-470 | without the IRQ line there is no packet; a CRC error is reported after the link-quality readout; a packet holds the status byte plus at most RX_PACKET_SIZE bytes |
| LoRa.ReceivedMessage | src/lora.rs:472-485 | a message is yielded exactly by decoding a received packet after its first byte; no packet or a read error yields nothing |
| LoRa.NextRadioState | src/lora.rs:496-514 | the radio state machine of the common tick (computed; stated by `LoRa.InitIsLeftOnlyByConfiguring` and `LoRa.TransmissionEndsOnTime`) |
| LoRa.InitIsLeftOnlyByConfiguring | src/lora.rs:496-505 | a configured radio never returns to Init, and the radio stays in Init exactly when configuration fails |
| LoRa.TransmissionEndsOnTime | src/lora.rs:507-515 | a transmission ends exactly 14 ms (wrapping) after it began, if the switch back to receive succeeds; until then the state and its time are kept |
| LoRa.SendFromIdle | src/lora.rs:371-400 | an over-long message is skipped; otherwise the write buffer is the TX base address, the message, and zero padding to TX_PACKET_SIZE, and it is sent exactly when the bus succeeds |
| LoRa.SendStep | src/lora.rs:371-400 | sending on the radio's fields (computed; stated by `LoRa.SendStartsTransmission`) |
| LoRa.SendStartsTransmission | src/lora.rs:371-400 | sending starts a transmission, timed at the current time, exactly when the radio is Idle, the message fits and the bus succeeds; otherwise nothing changes |
| LoRa.AcceptUplink | src/lora.rs:557-566 | an authenticated command is accepted exactly when its MAC equals the previous or the current hash; other commands are always accepted |
| LoRa.CommonTick | src/lora.rs:496-529 | `tick_common` on the radio's fields (computed; stated by `LoRa.CommonTickEffect`) |
| LoRa.CommonTickEffect | src/lora.rs:496-529 | the common tick records the time, runs the state machine, and marks the power level configured exactly when it already matched or setting it succeeded; nothing else changes |
| LoRa.FlightTickKeepsHashChain | src/lora.rs:537-540 | every 25 ms the hash chain grows by the MAC of the words written so far, and the last hash is always the chain's last element |
| LoRa.FlightAcceptsOnlyInWindowWithChainMac | src/lora.rs:542-576 | the flight computer returns an uplink message only while Idle in the uplink window, and an authenticated one only with a MAC from the chain |
| LoRa.FlightAcceptsUnauthenticated | src/lora.rs:552-567 | an unauthenticated message decoded in the window is returned, and its reception time is recorded |
| LoRa.FlightPrelude | src/lora.rs:533-541 | the first half of the flight tick (computed; stated by `LoRa.FlightTickKeepsHashChain` and `LoRa.FlightPowerAndHopping`) |
| LoRa.FlightListen | src/lora.rs:543-576 | the listening half of the flight tick (computed; stated by `LoRa.FlightAcceptsOnlyInWindowWithChainMac`, `LoRa.FlightAcceptsUnauthenticated` and `LoRa.FlightPowerAndHopping`) |
| LoRa.FlightTick | src/lora.rs:533-577 | the flight computer's tick on the radio's fields (computed; stated by the four `LoRa.Flight…` lemmas) |
| LoRa.FlightPowerAndHopping | src/lora.rs:533-550 | high power is requested exactly from Armed onwards, and while Idle the radio hops to the slot's channel at every slot boundary |
| LoRa.InContact | src/lora.rs:587 | contact with the flight computer (computed; used by `LoRa.GroundUplinksOnlyInSlot` and `LoRa.GroundSweepsOutOfContact`) |
| LoRa.FcTime | src/lora.rs:588 | the estimate of the flight computer's clock (computed; stated by `LoRa.FcTimeTracksLastMessage`) |
| LoRa.FcTimeTracksLastMessage | src/lora.rs:617-619 | after a downlink message the ground station's estimate of flight time is the message time plus the 12 ms transmission delay |
| LoRa.SweepChannel | src/lora.rs:591-592 | the sweep channel is one of the 14 channels |
| LoRa.GroundUplinksOnlyInSlot | src/lora.rs:583-611 | the ground station transmits only while Idle, in contact, at its uplink slot, which lies in the flight computer's listening window; it then sends the queued command or a heartbeat, empties the queue and receives nothing; otherwise the queue is kept |
| LoRa.GroundResynchronises | src/lora.rs:613-629 | a received downlink message is the decoded packet; it keeps the link in contact for the next 5 s, makes the flight-time estimate its stamp plus 12 ms, and compressed main telemetry sets high power exactly from Armed on |
| LoRa.GroundSweepsOutOfContact | src/lora.rs:587-597 | out of contact, an idle ground station sends nothing, keeps receiving, and retunes exactly on every 2 s boundary to channel `(now / 2000) mod 14` |
| LoRa.GroundHop | src/lora.rs:590-603 | the channel the ground station retunes to (computed; stated by `LoRa.GroundSweepsOutOfContact`) |
| LoRa.UplinkSlot | src/lora.rs:605 | the ground station's uplink slot (computed; placed inside the flight window by `LoRa.GroundUplinkLandsInFlightWindow`) |
| LoRa.GroundUplink | src/lora.rs:605-611 | the uplink branch of the ground tick (computed; stated by `LoRa.GroundUplinksOnlyInSlot`) |
| LoRa.GroundListen | src/lora.rs:612-629 | the receiving branch of the ground tick (computed; stated by `LoRa.GroundResynchronises`) |
| LoRa.GroundExchange | src/lora.rs:583-630 | the ground tick after the common tick (computed; stated by the three `LoRa.Ground…` lemmas) |
| LoRa.GroundTick | src/lora.rs:580-631 | the ground station's tick on the radio's fields (computed; stated by `LoRa.GroundUplinksOnlyInSlot`, `LoRa.GroundResynchronises` and `LoRa.GroundSweepsOutOfContact`) |
| LoRa.LinkAfterReceive | src/lora.rs:446-449 | the link quality after a receive attempt (computed; stated by `LoRa.LoRaRadio.ReceiveData`) |
| LoRa.LoRaRadio.TxPacketSize | src/lora.rs:56-63 | the flight computer sends 24-byte downlink packets and the ground station 14-byte uplink packets |
| LoRa.LoRaRadio.RxPacketSize | src/lora.rs:65-69 | the ground station receives 24-byte downlink packets and the flight computer 14-byte uplink packets |
| LoRa.PacketSizesMatch | src/lora.rs:56-69 | each build receives the packet size the other build transmits, and a build's two sizes differ |
| LoRa.LoRaRadio.constructor | src/lora.rs:122-151 | the radio starts in Init at time 0, low power, rssi 255, with an empty hash chain |
| LoRa.LoRaRadio.SetState | src/lora.rs:353-356 | the state changes and its time becomes the current time; nothing else changes |
| LoRa.LoRaRadio.TickCommon | src/lora.rs:496-529 | the new state is that of `CommonTick` |
| LoRa.LoRaRadio.SendPacket | src/lora.rs:371-400 | the outcome and new state are those of `SendStep` |
| LoRa.LoRaRadio.ReceiveData | src/lora.rs:431-470 | the result is `ReceiveOutcome`, and link quality is updated exactly when the packet status was read |
| LoRa.LoRaRadio.ReceiveMessage | src/lora.rs:472-485 | the result is `ReceivedMessage`, with the link quality of `ReceiveData` |
| LoRa.LoRaRadio.SendDownlinkMessage | src/lora.rs:402-415 | a message that fails to serialise sends nothing; otherwise the packet is sent as `SendStep` says |
| LoRa.LoRaRadio.SendUplinkMessage | src/lora.rs:417-424 | the uplink message's serialisation (empty when serialisation fails) is sent as `SendStep` says |
| LoRa.LoRaRadio.QueueUplinkMessage | src/lora.rs:426-429 | the message is queued, replacing any queued one |
| LoRa.LoRaRadio.TickFlight | src/lora.rs:533-577 | the returned message, channel and new state are those of `FlightTick` |
| LoRa.LoRaRadio.ListenForUplink | src/lora.rs:542-576 | the listening half of the flight tick is that of `FlightListen` |
| LoRa.LoRaRadio.TickGround | src/lora.rs:580-631 | the returned message, channel, transmission and new state are those of `GroundTick` |
| LoRa.LoRaRadio.ExchangeWithFlight | src/lora.rs:583-630 | the exchange half of the ground tick is that of `GroundExchange` |
| LoRa.LoRaRadio.SendQueuedUplink | src/lora.rs:605-611 | in the uplink slot the queued command, or a heartbeat, is taken from the queue and sent as `GroundUplink` says |
| LoRa.LoRaRadio.ListenForDownlink | src/lora.rs:612-629 | outside the uplink slot a received downlink renews contact, re-estimates the flight clock with the 12 ms transmission delay and, for main telemetry, sets high power exactly from armed on, as `GroundListen` says |
| Adxl375.AddressesAreDistinct | src/sensors/accelerometer/adxl375.rs:121-150 | each register's address is below 0x40 and identifies that register |
| Adxl375.ReadAddressByte | src/sensors/accelerometer/adxl375.rs:40 | the read address byte is the register address plus the read bit 0x80, plus the multi-byte bit 0x40 when more than one byte is read |
| Adxl375.ReadAddressByteRoundTrip | src/sensors/accelerometer/adxl375.rs:40 | the address byte decodes back to a read, its multi-byte flag and its register |
| Adxl375.ReadRegisters | src/sensors/accelerometer/adxl375.rs:39-54 | a successful read returns exactly the requested number of bytes, those clocked in after the address byte; a failed transfer returns nothing |
| Adxl375.ReadU8 | src/sensors/accelerometer/adxl375.rs:56-59 | a single-register read returns the byte after the address byte |
| Adxl375.WriteFrame | src/sensors/accelerometer/adxl375.rs:61-75 | a write frame is the address with read and multi-byte bits clear, then the value |
| Adxl375.AxisFromBytes | src/sensors/accelerometer/adxl375.rs:80-82 | an axis is the little-endian 16-bit two's-complement value, negative exactly when the high byte's top bit is set |
| Adxl375.AxisRoundTrip | src/sensors/accelerometer/adxl375.rs:80-82 | decoding the two bytes of any i16 gives it back, and the bytes of a decoded value are the bytes read |
| Adxl375.SaturatingNeg | src/sensors/accelerometer/adxl375.rs:87 | the negation of -32768 saturates to 32767; every other value is negated |
| Adxl375.SaturatingNegInvolution | src/sensors/accelerometer/adxl375.rs:87 | negating twice gives back every value except -32768, which comes back as -32767; a saturated negation is never -32768 |
| Adxl375.DecodeSample | src/sensors/accelerometer/adxl375.rs:78-88 | the sample from the six data bytes (computed; stated by `Adxl375.DecodeSampleRemapsAxes`) |
| Adxl375.DecodeSampleRemapsAxes | src/sensors/accelerometer/adxl375.rs:78-88 | the sample is the sensor's x, its z, and its y negated with saturation |
| Adxl375.PowerControlFrame | src/sensors/accelerometer/adxl375.rs:93-96 | power control writes the mode code shifted left by two to register 0x2d: 0x08 to measure, 0x04 to sleep |
| Adxl375.DataRateFrame | src/sensors/accelerometer/adxl375.rs:98-101 | the rate control byte is the rate code in the low nibble and the low-power flag in bit 4 |
| Adxl375.DataRateFrameInjective | src/sensors/accelerometer/adxl375.rs:98-101 | different rate and low-power settings write different bytes |
| Adxl375.InitFrames | src/sensors/accelerometer/adxl375.rs:25-37 | initialisation writes measure mode, data format 0x0b, reads the device id, and sets 1600 Hz at normal power |
| Adxl375.InitDriver | src/sensors/accelerometer/adxl375.rs:25-37 | initialisation performs the transfers in order up to and including the first failed one, and yields a driver exactly when all four succeed |
| Adxl375.Adxl375.constructor | src/sensors/accelerometer/adxl375.rs:26 | the driver starts with no sample and a zero offset |
| Adxl375.Adxl375.ReadSensorData | src/sensors/accelerometer/adxl375.rs:77-91 | a failed read changes nothing; otherwise the sample is the decoding of the six data bytes |
| Adxl375.Adxl375.Tick | src/sensors/accelerometer/adxl375.rs:103-108 | after a tick the sample is absent when the read failed and otherwise the decoded sample |
| Adxl375.Adxl375.SetOffset | src/sensors/accelerometer/adxl375.rs:110-112 | the offset is replaced and the sample kept |
| Adxl375.Adxl375.Accelerometer | src/sensors/accelerometer/adxl375.rs:114-116 | a reading exists exactly when a sample does, and it is the sample minus the offset |

## Left out

- The SPI bus, chip-select, IRQ and BUSY pins, critical sections and the async tasks are
  not modelled. Each transfer becomes the bytes it returns, or a success flag.
- Logging is not modelled: the log calls have no effect on state.
- `LoRa.ReceiveOutcome`: the BUSY pin is not modelled. A command refused because the radio
  is busy (`LoRaError::Busy`, src/lora.rs:159-161) is modelled as a failed transfer, so
  `receive_data` is stated to fail with `Spi` where the source reports `Busy`.
- `LoRa.LoRaRadio.SendUplinkMessage`: the log call of `send_uplink_message` (src/lora.rs:420) unwraps the serialisation of every message other than a heartbeat, so a message that fails to serialise would panic there if the log macro evaluates its arguments. The model sends the empty packet that `unwrap_or_default` gives instead.
- Floating point is not modelled:
  - f8 compression works on the fields of an IEEE single, not on real values;
  - the barometer's conversion of pressure to altitude is not modelled;
  - the note frequencies (`Pitch::freq`) are not modelled;
  - the LLCC68 timeout scaling by 15.625 is not modelled;
  - the ADXL375's scaling to m/s² is not modelled.
  The accelerometer sample and its offset are raw sensor counts.
- The postcard serialisation and COBS encoding of messages are the parameters
  `serialize` and `decode`.
- SipHash-1-3 itself is the parameter `macOf`.
- The LLCC68 bus traffic of a common tick becomes the three success flags of
  `LoRa.CommonBus`: the `configure` sequence is `configureOk`, `set_output_power`
  together with its TX-clamp register read-modify-write is `setPowerOk`, and the
  `switch_to_rx` after a transmission is `switchToRxOk`.
- The outcome of retuning and of switching back to receive after a hop or sweep is only
  logged by the source. The model returns the channel chosen and leaves that outcome out.
- `Baro.Ms5611.constructor`: the initialisation retry loop (reset, then reading the PROM
  until the calibration is valid, three resets of up to 50 reads each) is not modelled. The
  driver is built from the calibration as last read, valid or not, as `init` also returns
  the driver after logging a failure; `Baro.ReadCalibrationValues` and
  `Baro.Calibration.Valid` model the reading and the check.
- Baro: intermediate values are unbounded integers. The source computes them in `i64` and
  casts temperature and pressure to `i32`; for the MS5611's 24-bit readings these stay in
  range.
- `Telemetry.FramePayloadWrap`: proved for payloads of 1 to 1032 bytes, the largest the
  serialisation buffer holds, not for every length the two-byte size field can state.
- `LoRa.LoRaRadio.ReceiveMessage`: receive errors are folded into "no message", which is
  also how both ticks use them.
- `Buzzer.TickPlayer`: `time - time_note_change` is taken to wrap, as in a release build.
  A debug build would panic on underflow instead.
- The buzzer's alternative melodies (REMNANTS, THUNDERSTRUCK, SHIRE, E1M1) are not used by
  the mode switch and are not modelled.
- `LoRa.GroundTick`: the ground station's `fc_time_offset` is an unbounded integer. The
  source's `i64` wrapping never applies to differences of two `u32` times.

## Findings

| source | as written | input that shows it | evidently intended | confidence | as-written member | corrected member |
|---|---|---|---|---|---|---|
| src/lora.rs:199 | the fractional part of the PLL word is computed as `frequency / (int * 15625)`, which is always 1 for the radio's frequencies | channel 863 250 000 Hz: the word as written is 55248·2^14 + 1 (rounded), one PLL step (about 0.95 Hz) above the 55248·2^14 the datasheet formula gives | `frac = frequency - int * 15625`, the remainder, so that the word is round(frequency · 2^25 / 32 MHz) | not executed | LoRa.PllWordAsWritten (shown by LoRa.PllWordAsWrittenValue, LoRa.PllAsWrittenOneStepHigh, LoRa.ChannelsPllOneStepHigh) | LoRa.PllWord (used by LoRa.RfFrequencyParams) |
