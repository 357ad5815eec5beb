/** The telemetry types shared by the flight computer and the ground station: the
    8-bit float compression, the flight-mode LED patterns, the message enums, and the
    `0x42`-magic length-prefixed framing with its resynchronising receive buffer.
    Serialisation of a message to bytes (postcard) is foreign code; here it is a
    `decode` function handed in by the caller, and the framing works on the bytes. */
module Telemetry {
  import opened Common

  const LORA_MESSAGE_INTERVAL: uint32 := 25
  const LORA_UPLINK_INTERVAL: uint32 := 200
  const LORA_UPLINK_MODULO: uint32 := 100

  // ---------------------------------------------------------------------------
  // f8: sign bit, 4 exponent bits, 3 fraction bits, on the IEEE-754 binary32 bit
  // pattern of an f32 (f32::to_bits / f32::from_bits).
  // ---------------------------------------------------------------------------

  datatype F8 = F8(raw: bv8)

  function Clamp(x: int, lo: int, hi: int): (r: int)
    requires lo <= hi
    ensures lo <= r <= hi
    ensures lo <= x <= hi ==> r == x
    ensures x < lo ==> r == lo
    ensures hi < x ==> r == hi
  {
    if x < lo then lo else if hi < x then hi else x
  }

  /** The biased f32 exponent `e` (0..255) squeezed into 4 bits:
      `(e - 0x80).clamp(-7, 8) + 7`. */
  function SmallExponent(e: bv32): (s: bv32)
    requires e <= 0xff
    ensures s <= 15
    ensures s as int == Clamp(e as int - 0x80, -7, 8) + 7
  {
    if e < 0x80 - 7 then 0 else if e > 0x80 + 8 then 15 else e - (0x80 - 7)
  }

  /** `impl From<f32> for f8`, on the f32's bit pattern. */
  function F8FromBits(bits: bv32): (f: F8)
    ensures f.raw >> 7 == (bits >> 31) as bv8
    ensures ((f.raw >> 3) & 0xf) as int == Clamp(((bits >> 23) & 0xff) as int - 0x80, -7, 8) + 7
    ensures f.raw & 0x7 == ((bits >> 20) & 0x7) as bv8
  {
    var sign := bits >> 31;
    var exponent := (bits >> 23) & 0xff;
    var fraction := bits & 0x7f_ffff;
    var expoSmall := SmallExponent(exponent);
    var fractionSmall := fraction >> 20;
    F8(((sign << 7) | (expoSmall << 3) | fractionSmall) as bv8)
  }

  /** `impl Into<f32> for f8`, giving the f32's bit pattern. Re-compressing the result
      gives back the same byte, so compression loses nothing once a value is an f8.
      Every result is a normal number between 2^-6 and 2^9 in magnitude (the format
      has no zero), and its low 20 fraction bits are clear. */
  function F8ToBits(f: F8): (bits: bv32)
    ensures F8FromBits(bits) == f
    ensures 0x80 - 7 <= (bits >> 23) & 0xff <= 0x80 + 8
    ensures bits & 0xf_ffff == 0
  {
    var sign := f.raw >> 7;
    var exponent := (f.raw & 0x7f) >> 3;
    var fraction := f.raw & 0x7;
    var expoLarge := (exponent as bv32) - 7 + 0x80;
    var fractionLarge := (fraction as bv32) << 20;
    ((sign as bv32) << 31) | (expoLarge << 23) | fractionLarge
  }

  /** The compression test of the firmware, at bit level: 1.0, 0.5, -0.125 and -10.0
      survive; 100.0 becomes 96.0, 1000.0 becomes 960.0, 0.008 becomes 0.015625 and
      -0.00001 becomes -0.01953125. */
  lemma F8TestVectors()
    ensures F8ToBits(F8FromBits(0x3f80_0000)) == 0x3f80_0000  // 1.0
    ensures F8ToBits(F8FromBits(0x3f00_0000)) == 0x3f00_0000  // 0.5
    ensures F8ToBits(F8FromBits(0xbe00_0000)) == 0xbe00_0000  // -0.125
    ensures F8ToBits(F8FromBits(0xc120_0000)) == 0xc120_0000  // -10.0
    ensures F8ToBits(F8FromBits(0x42c8_0000)) == 0x42c0_0000  // 100.0 -> 96.0
    ensures F8ToBits(F8FromBits(0x447a_0000)) == 0x4470_0000  // 1000.0 -> 960.0
    ensures F8ToBits(F8FromBits(0x3c03_126f)) == 0x3c80_0000  // 0.008 -> 0.015625
    ensures F8ToBits(F8FromBits(0xb727_c5ac)) == 0xbca0_0000  // -0.00001 -> -0.01953125
  {
  }

  /** Compression followed by decompression keeps the sign and the top three fraction
      bits, and keeps the exponent whenever it lies in the representable range. */
  lemma F8KeepsRepresentable(bits: bv32)
    requires 0x80 - 7 <= (bits >> 23) & 0xff <= 0x80 + 8
    ensures F8ToBits(F8FromBits(bits)) == bits & 0xfff0_0000
  {
  }

  // ---------------------------------------------------------------------------
  // Mode LEDs, GPS fix type, messages
  // ---------------------------------------------------------------------------

  /** `FlightMode::led_state`: (red, yellow, green) at time `time` in ms. */
  function LedState(mode: FlightMode, time: uint32): (bool, bool, bool)
  {
    match mode
    case Idle => (false, false, true)
    case HardwareArmed => (true, time % 500 < 250, false)
    case Armed => (true, true, false)
    case Flight => (false, true, false)
    case RecoveryDrogue => (false, true, true)
    case RecoveryMain => (true, false, true)
    case Landed => (false, false, time % 1000 < 500)
  }

  /** The red LED is lit exactly in the modes from which the vehicle is armed for
      recovery or is under main chute, at all times; the only blinking LEDs are the
      yellow one when hardware-armed and the green one when landed, and each blinks
      with a period that divides a second. */
  lemma LedStateMeaning(mode: FlightMode, time: uint32)
    ensures LedState(mode, time).0 <==> mode in {HardwareArmed, Armed, RecoveryMain}
    ensures mode != HardwareArmed && mode != Landed ==> LedState(mode, time) == LedState(mode, 0)
    ensures LedState(mode, time).1 != LedState(mode, 0).1 ==> mode == HardwareArmed
    ensures LedState(mode, time).2 != LedState(mode, 0).2 ==> mode == Landed
    ensures time + 1000 < U32_MODULUS ==> LedState(mode, time) == LedState(mode, time + 1000)
  {
    if time + 1000 < U32_MODULUS {
      var later: uint32 := time + 1000;
      SecondLater(time as nat);
      assert LedState(mode, later) == LedState(mode, time);
    }
  }

  /** A second later both blink phases are where they were. */
  lemma SecondLater(t: nat)
    ensures (t + 1000) % 500 == t % 500
    ensures (t + 1000) % 1000 == t % 1000
  {
    var q, r := t / 1000, t % 1000;
    assert t + 1000 == (q + 1) * 1000 + r;
    assert t + 1000 == (2 * q + 2) * 500 + r % 500 + (r / 500) * 500;
  }

  datatype GpsFixType = NoFix | AutonomousFix | DifferentialFix | RtkFix | RtkFloat | DeadReckoningFix
  {
    function Discriminant(): (d: uint8)
      ensures d <= 5
    {
      match this
      case NoFix => 0
      case AutonomousFix => 1
      case DifferentialFix => 2
      case RtkFix => 3
      case RtkFloat => 4
      case DeadReckoningFix => 5
    }
  }

  /** `impl From<u8> for GPSFixType`: the inverse of the discriminant on 0..5, and
      `NoFix` for every other byte. */
  function GpsFixTypeFrom(x: uint8): (t: GpsFixType)
    ensures x <= 5 ==> t.Discriminant() == x
    ensures x > 5 ==> t == NoFix
  {
    match x
    case 0 => NoFix
    case 1 => AutonomousFix
    case 2 => DifferentialFix
    case 3 => RtkFix
    case 4 => RtkFloat
    case 5 => DeadReckoningFix
    case _ => NoFix
  }

  /** Every fix type survives the trip through its byte. */
  lemma GpsFixTypeRoundTrip(t: GpsFixType)
    ensures GpsFixTypeFrom(t.Discriminant()) == t
  {
  }

  datatype LogLevel = Debug | Info | Warning | Error | Critical

  /** The downlink messages. Floating-point payload fields are not part of this model;
      each variant keeps its time stamp and the fields the radio logic reads. */
  datatype DownlinkMessage =
    | TelemetryMain(time: uint32, mode: FlightMode)
    | TelemetryMainCompressed(time: uint32, mode: FlightMode)
    | TelemetryRawSensors(time: uint32)
    | TelemetryRawSensorsCompressed(time: uint32)
    | TelemetryDiagnostics(time: uint32)
    | TelemetryGps(time: uint32, fixAndSats: uint8)
    | TelemetryGcs(time: uint32)
    | Log(time: uint32, origin: string, level: LogLevel, text: string)
    | FlashContent(address: uint32, data: seq<uint8>)
  {
    /** `DownlinkMessage::time`: the time stamp a message carries; flash contents
        carry none and report 0. */
    function Time(): (t: uint32)
      ensures FlashContent? ==> t == 0
      ensures !FlashContent? ==> t == time
    {
      match this
      case FlashContent(_, _) => 0
      case _ => time
    }
  }

  datatype UplinkMessage =
    | Heartbeat
    | Reboot
    | RebootAuth(mac: uint64)
    | RebootToBootloader
    | SetFlightMode(mode: FlightMode)
    | SetFlightModeAuth(mode: FlightMode, mac: uint64)
    | ReadFlash(address: uint32, size: uint32)
    | EraseFlash
    | EraseFlashAuth(mac: uint64)
  {
    /** The variants that carry a MAC and are only honoured when it checks out. */
    predicate Authenticated() {
      RebootAuth? || SetFlightModeAuth? || EraseFlashAuth?
    }
  }

  // ---------------------------------------------------------------------------
  // Framing: [0x42, len] ++ payload for len <= 127, otherwise
  // [0x42, 0x80 | len >> 8, len & 0xff] ++ payload.
  // ---------------------------------------------------------------------------

  const MAGIC: uint8 := 0x42
  /** `wrap` serialises into a `[0u8; 1024 + 8]` buffer and unwraps the result. */
  const MAX_SERIALIZED: nat := 1024 + 8

  /** The header size announced by the length byte: bit 7 selects the 15-bit form. */
  function HeaderSize(lenByte: uint8): (n: nat)
    ensures n == 2 || n == 3
  {
    if lenByte >= 0x80 then 3 else 2
  }

  /** The payload length a header declares: `((b1 & 0x7f) << 8) + b2` in the 15-bit
      form, `b1` in the 7-bit form. */
  function DeclaredLength(buf: seq<uint8>): (n: nat)
    requires |buf| >= 3
    ensures buf[1] < 0x80 ==> n == buf[1]
    ensures n < 0x8000
  {
    var b1: int := buf[1];
    if b1 >= 0x80 then (b1 - 0x80) * 256 + buf[2] else b1
  }

  /** Whether `buf` starts with a whole frame: the magic byte, at least three bytes,
      and the declared payload present. */
  predicate HasFrame(buf: seq<uint8>) {
    |buf| >= 3 && buf[0] == MAGIC && |buf| >= HeaderSize(buf[1]) + DeclaredLength(buf)
  }

  /** The number of bytes the frame at the head of `buf` occupies. */
  function FrameSize(buf: seq<uint8>): (n: nat)
    requires HasFrame(buf)
    ensures 3 <= n + 1 && n <= |buf|
  {
    HeaderSize(buf[1]) + DeclaredLength(buf)
  }

  /** `Transmit::wrap` after serialisation: the frame around a payload. */
  function Wrap(payload: seq<uint8>): (frame: seq<uint8>)
    requires |payload| <= MAX_SERIALIZED
    ensures |frame| >= 2 && frame[0] == MAGIC
    ensures |frame| == HeaderSize(frame[1]) + |payload|
    ensures frame[HeaderSize(frame[1])..] == payload
    ensures |payload| <= 127 ==> frame == [MAGIC, |payload| as uint8] + payload
    ensures |payload| > 127 ==>
              frame == [MAGIC, (0x80 + |payload| / 256) as uint8, (|payload| % 256) as uint8] + payload
  {
    var len := |payload|;
    if len > 127 then [MAGIC, 0x80 + len / 256, len % 256] + payload
    else [MAGIC, len] + payload
  }

  /** The framing half of `Transmit::read_valid`: the payload bytes it hands to the
      deserialiser, or None when the buffer is empty, does not start with 0x42, is
      shorter than three bytes, or is shorter than the header's declared length. */
  function FramePayload(buf: seq<uint8>): (p: Option<seq<uint8>>)
    ensures p.Some? <==> HasFrame(buf)
    ensures p.Some? ==> p.value == buf[HeaderSize(buf[1])..FrameSize(buf)]
  {
    if |buf| == 0 then None
    else if buf[0] != MAGIC then None
    else if |buf| < 3 then None
    else
      var len: int := buf[1];
      if len >= 0x80 then
        var len15 := (len - 0x80) * 256 + buf[2];
        if |buf| < 3 + len15 then None else Some(buf[3..len15 + 3])
      else
        if |buf| < 2 + len then None else Some(buf[2..len + 2])
  }

  /** `Transmit::read_valid`: the framing, then the deserialiser. */
  function ReadValid<M>(decode: seq<uint8> -> Option<M>, buf: seq<uint8>): (m: Option<M>)
    ensures !HasFrame(buf) ==> m.None?
    ensures HasFrame(buf) ==> m == decode(buf[HeaderSize(buf[1])..FrameSize(buf)])
  {
    match FramePayload(buf)
    case None => None
    case Some(p) => decode(p)
  }

  /** Reading a wrapped payload of 1 to MAX_SERIALIZED bytes gives back exactly that
      payload, whichever header form `wrap` chose. */
  lemma FramePayloadWrap(payload: seq<uint8>)
    requires 1 <= |payload| <= MAX_SERIALIZED
    ensures HasFrame(Wrap(payload))
    ensures FrameSize(Wrap(payload)) == |Wrap(payload)|
    ensures FramePayload(Wrap(payload)) == Some(payload)
  {
    var frame := Wrap(payload);
    var len := |payload|;
    if len > 127 {
      assert frame[1] == 0x80 + len / 256 && frame[2] == len % 256;
      assert (len / 256) * 256 + len % 256 == len;
      assert DeclaredLength(frame) == len;
      assert frame[3..FrameSize(frame)] == frame[3..] == payload;
    } else {
      assert frame[1] == len;
      assert frame[2] == payload[0];
      assert DeclaredLength(frame) == len;
      assert frame[2..FrameSize(frame)] == frame[2..] == payload;
    }
  }

  /** `read_valid(wrap(m)) == Some(m)` for any message whose serialisation the
      deserialiser inverts and that serialises to 1 to MAX_SERIALIZED bytes. */
  lemma ReadValidWrap<M>(decode: seq<uint8> -> Option<M>, message: M, serialized: seq<uint8>)
    requires decode(serialized) == Some(message)
    requires 1 <= |serialized| <= MAX_SERIALIZED
    ensures ReadValid(decode, Wrap(serialized)) == Some(message)
  {
    FramePayloadWrap(serialized);
  }

  /** A message that serialises to no bytes at all is wrapped as the two bytes
      [0x42, 0], which `read_valid` turns away for being shorter than three bytes. */
  lemma EmptyPayloadUnreadable()
    ensures Wrap([]) == [MAGIC, 0]
    ensures FramePayload(Wrap([])) == None
  {
  }

  // ---------------------------------------------------------------------------
  // pop_valid: resynchronising receive buffer
  // ---------------------------------------------------------------------------

  predicate IsSuffix(s: seq<uint8>, t: seq<uint8>) {
    |s| <= |t| && s == t[|t| - |s|..]
  }

  /** What the first loop of `pop_valid` leaves: `buf` from its first 0x42 on, or
      nothing when it holds none. */
  function DropToMagic(buf: seq<uint8>): (s: seq<uint8>)
    ensures IsSuffix(s, buf)
    ensures s == [] || s[0] == MAGIC
    ensures forall i :: 0 <= i < |buf| - |s| ==> buf[i] != MAGIC
    ensures (forall i :: 0 <= i < |buf| ==> buf[i] != MAGIC) ==> s == []
  {
    if buf == [] || buf[0] == MAGIC then buf else DropToMagic(buf[1..])
  }

  datatype Popped<M> = Popped(message: Option<M>, rest: seq<uint8>)

  /** What `pop_valid` returns and leaves in the buffer: garbage before the first 0x42
      is dropped; an incomplete frame stays in place; a complete frame is removed whole,
      header and payload, whether or not its payload deserialises. */
  function PopValidSpec<M>(decode: seq<uint8> -> Option<M>, buf: seq<uint8>): Popped<M>
  {
    var s := DropToMagic(buf);
    if HasFrame(s) then Popped(decode(s[HeaderSize(s[1])..FrameSize(s)]), s[FrameSize(s)..])
    else Popped(None, s)
  }

  /** The buffer left behind is always a suffix of the original, holds no byte that
      came before the first 0x42, and is empty when there was no 0x42 at all. When no
      complete frame was found nothing is returned and a started frame stays at the
      front; when one was found exactly its header and payload are consumed. */
  lemma PopValidShape<M>(decode: seq<uint8> -> Option<M>, buf: seq<uint8>)
    ensures IsSuffix(PopValidSpec(decode, buf).rest, buf)
    ensures (forall i :: 0 <= i < |buf| ==> buf[i] != MAGIC) ==> PopValidSpec(decode, buf).rest == []
    ensures !HasFrame(DropToMagic(buf)) ==>
              PopValidSpec(decode, buf).message.None? &&
              PopValidSpec(decode, buf).rest == DropToMagic(buf)
    ensures HasFrame(DropToMagic(buf)) ==>
              |DropToMagic(buf)| - |PopValidSpec(decode, buf).rest| == FrameSize(DropToMagic(buf))
  {
  }

  /** Garbage without a 0x42 in front of a buffer is skipped up to the next 0x42. */
  lemma {:induction false} DropToMagicSkips(junk: seq<uint8>, tail: seq<uint8>)
    requires forall i :: 0 <= i < |junk| ==> junk[i] != MAGIC
    requires tail != [] && tail[0] == MAGIC
    ensures DropToMagic(junk + tail) == tail
  {
    if junk != [] {
      assert (junk + tail)[1..] == junk[1..] + tail;
      DropToMagicSkips(junk[1..], tail);
    }
  }

  /** Popping `junk ++ wrap(p) ++ rest`, where the junk holds no 0x42, yields the
      message of `p` and leaves exactly `rest`: the receiver resynchronises on the
      magic byte and consumes exactly one frame. */
  lemma PopValidWrapped<M>(decode: seq<uint8> -> Option<M>, junk: seq<uint8>, payload: seq<uint8>, rest: seq<uint8>)
    requires forall i :: 0 <= i < |junk| ==> junk[i] != MAGIC
    requires 1 <= |payload| <= MAX_SERIALIZED
    ensures PopValidSpec(decode, junk + Wrap(payload) + rest) == Popped(decode(payload), rest)
  {
    var frame := Wrap(payload);
    FramePayloadWrap(payload);
    assert junk + frame + rest == junk + (frame + rest);
    DropToMagicSkips(junk, frame + rest);
    var s := frame + rest;
    assert s[..|frame|] == frame;
    assert s[1] == frame[1];
    assert HasFrame(frame);
    assert s[2] == frame[2];
    assert DeclaredLength(s) == DeclaredLength(frame);
    assert HasFrame(s);
    assert s[HeaderSize(s[1])..FrameSize(s)] == frame[HeaderSize(frame[1])..];
    assert s[FrameSize(s)..] == rest;
  }

  /** The receive buffer `pop_valid` works on, a `Vec<u8>` it shortens in place. */
  class RxBuffer {
    var bytes: seq<uint8>

    constructor (initial: seq<uint8>)
      ensures bytes == initial
    {
      bytes := initial;
    }

    /** The first loop of `Transmit::pop_valid`: bytes are dropped until a 0x42 is at
        the front; there, an incomplete frame ends the pop (false) and a complete one
        ends the loop (true). */
    method Resynchronise() returns (complete: bool)
      modifies this
      ensures bytes == DropToMagic(old(bytes))
      ensures complete <==> HasFrame(bytes)
    {
      while |bytes| > 0
        invariant DropToMagic(bytes) == DropToMagic(old(bytes))
        decreases |bytes|
      {
        if bytes[0] == MAGIC {
          if |bytes| < 3 {
            return false;
          }
          var len: int := bytes[1];
          if len >= 0x80 {
            var len15 := (len - 0x80) * 256 + bytes[2];
            if |bytes| < 3 + len15 {
              return false;
            }
          } else {
            if |bytes| < 2 + len {
              return false;
            }
          }
          return true;
        }
        bytes := bytes[1..];
      }
      return false;
    }

    /** `Transmit::pop_valid`. */
    method PopValid<M>(decode: seq<uint8> -> Option<M>) returns (m: Option<M>)
      modifies this
      ensures m == PopValidSpec(decode, old(bytes)).message
      ensures bytes == PopValidSpec(decode, old(bytes)).rest
    {
      var complete := Resynchronise();
      if !complete {
        return None;
      }

      var head := TakeFrame();
      m := decode(head);
    }

    /** The second half of `pop_valid`: the header is read, the payload copied out, and
        the frame's bytes removed one at a time from the front. */
    method TakeFrame() returns (head: seq<uint8>)
      requires HasFrame(bytes)
      modifies this
      ensures head == old(bytes)[HeaderSize(old(bytes)[1])..FrameSize(old(bytes))]
      ensures bytes == old(bytes)[FrameSize(old(bytes))..]
    {
      ghost var frameStart := bytes;
      var len: int := bytes[1];
      var size;
      if len >= 0x80 {
        var len15 := (len - 0x80) * 256 + bytes[2];
        head := bytes[3..len15 + 3];
        size := len15 + 3;
      } else {
        head := bytes[2..len + 2];
        size := len + 2;
      }
      assert size == FrameSize(frameStart);
      for i := 0 to size
        invariant bytes == frameStart[i..]
      {
        bytes := bytes[1..];
      }
    }
  }
}
