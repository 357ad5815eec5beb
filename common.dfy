/** Fixed-width integer types, the optional-value wrapper, the flight mode shared
    by several drivers, and the full-duplex SPI exchange every driver builds on. */
module Common {

  type uint8 = x: int | 0 <= x < 0x100
  type uint16 = x: int | 0 <= x < 0x1_0000
  type uint32 = x: int | 0 <= x < 0x1_0000_0000
  type uint64 = x: int | 0 <= x < 0x1_0000_0000_0000_0000
  type int16 = x: int | -0x8000 <= x < 0x8000
  type int32 = x: int | -0x8000_0000 <= x < 0x8000_0000

  const U32_MODULUS: int := 0x1_0000_0000

  datatype Option<T> = None | Some(value: T)

  /** `a.wrapping_add(b)` on u32 operands. */
  function WrappingAdd32(a: uint32, b: int): (r: uint32)
    ensures 0 <= a + b < U32_MODULUS ==> r == a + b
    ensures (r - (a + b)) % U32_MODULUS == 0
  {
    (a + b) % U32_MODULUS
  }

  /** `a.wrapping_sub(b)` (and `a - b` in a build without overflow checks) on u32 operands. */
  function WrappingSub32(a: uint32, b: uint32): (r: uint32)
    ensures a >= b ==> r == a - b
    ensures a < b ==> r == a - b + U32_MODULUS
  {
    (a - b) % U32_MODULUS
  }

  /** The flight modes of the firmware, in the order of their discriminants, which is
      the order `PartialOrd` compares them in. */
  datatype FlightMode = Idle | HardwareArmed | Armed | Flight | RecoveryDrogue | RecoveryMain | Landed
  {
    function Discriminant(): (d: nat)
      ensures d < 7
    {
      match this
      case Idle => 0
      case HardwareArmed => 1
      case Armed => 2
      case Flight => 3
      case RecoveryDrogue => 4
      case RecoveryMain => 5
      case Landed => 6
    }

    /** `self >= other` as derived by `PartialOrd`. */
    predicate AtLeast(other: FlightMode) {
      Discriminant() >= other.Discriminant()
    }
  }

  /** The modes in which `mode >= FlightMode::Armed` holds are exactly the armed,
      flying and recovering ones. */
  lemma AtLeastArmedModes(m: FlightMode)
    ensures m.AtLeast(Armed) <==> !(m == Idle || m == HardwareArmed)
  {
  }

  /** `[0x00].repeat(n)`. */
  function Zeros(n: nat): (z: seq<uint8>)
    ensures |z| == n && forall i :: 0 <= i < n ==> z[i] == 0
  {
    seq(n, _ => 0)
  }

  /** `transfer_in_place(&mut frame)`: while the frame is clocked out, every byte of it
      is overwritten by the byte clocked in at the same time. `miso` holds the bytes the
      device drove onto the bus; a device that drove fewer leaves the rest untouched.
      The frame keeps its length, so a response is always as long as it was asked to be. */
  function Exchange(frame: seq<uint8>, miso: seq<uint8>): (r: seq<uint8>)
    ensures |r| == |frame|
    ensures forall i :: 0 <= i < |frame| && i < |miso| ==> r[i] == miso[i]
    ensures forall i :: |miso| <= i < |frame| ==> r[i] == frame[i]
  {
    seq(|frame|, i requires 0 <= i < |frame| => if i < |miso| then miso[i] else frame[i])
  }
}
