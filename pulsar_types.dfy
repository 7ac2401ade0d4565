/**
 * The lighting modes of the Xanova Pulsar keyboard and the codes the
 * firmware knows them by (the enumerations of src/include/Pulsar.hpp).
 */
module PulsarTypes {
  import opened Wrappers

  /**
   * The source's uint8_t is modelled twice, by what is done with it. A cell
   * of a report buffer is a `byte`, a bit-vector, because the builders mask,
   * shift and exclusive-or it. A speed or brightness argument is a `uint8`,
   * an integer, because the speed formulas multiply and divide it. Writing
   * an argument into a buffer cell is the cast `as byte`.
   */
  type byte = bv8

  /** A speed or brightness argument (uint8_t) as a number, 0-255. */
  newtype uint8 = x: int | 0 <= x < 256

  /** Speed given to set_backlight and set_keylight when the caller omits it. */
  const DefaultSpeed: uint8 := 0xFF

  /** Command class written at byte 4 of every report (the private enum Mode). */
  datatype Mode = KeylightClass | BacklightClass

  function ModeCode(m: Mode): (c: byte)
    ensures c == 0x02 || c == 0x03
    ensures m.KeylightClass? <==> c == 0x02
  {
    match m
    case KeylightClass => 0x02
    case BacklightClass => 0x03
  }

  /** Effects of the keys' own lighting. */
  datatype KeylightMode = KeyOff | Fade | Hexagon | Ripple | RunOutSig | RunInSig | RunIn

  /**
   * 8-bit code of a keylight mode, written at byte 7. RunOutSig takes the
   * implicit successor of Ripple, 4; RunInSig is pinned to 6, so 5 is unused.
   */
  function KeylightCode(m: KeylightMode): (c: byte)
    ensures c < 8 && c != 5
    ensures KeylightFromCode(c) == Some(m)
  {
    match m
    case KeyOff => 0
    case Fade => 1
    case Hexagon => 2
    case Ripple => 3
    case RunOutSig => 4
    case RunInSig => 6
    case RunIn => 7
  }

  /** The keylight mode a code stands for, if any. */
  function KeylightFromCode(c: byte): Option<KeylightMode> {
    match c
    case 0 => Some(KeyOff)
    case 1 => Some(Fade)
    case 2 => Some(Hexagon)
    case 3 => Some(Ripple)
    case 4 => Some(RunOutSig)
    case 6 => Some(RunInSig)
    case 7 => Some(RunIn)
    case _ => None
  }

  /** Keylight codes are pairwise distinct, and a code names a mode exactly when it is that mode's code. */
  lemma KeylightCodeInverse(c: byte, m: KeylightMode)
    ensures KeylightFromCode(c) == Some(m) <==> c == KeylightCode(m)
  {
    if KeylightFromCode(c) == Some(m) {
      match m
      case KeyOff => assert c == 0;
      case Fade => assert c == 1;
      case Hexagon => assert c == 2;
      case Ripple => assert c == 3;
      case RunOutSig => assert c == 4;
      case RunInSig => assert c == 6;
      case RunIn => assert c == 7;
    }
  }

  /** Effects of the backlight zones. */
  datatype BacklightMode =
    | BackOff | Breathing | Static | AlternateWave | ScanWave | WaveRight
    | WaveDown | RipplingLeft | RipplingRight | Fireworks | Star | Boom

  /** The twelve backlight modes in declaration order. */
  const AllBacklightModes: seq<BacklightMode> :=
    [BackOff, Breathing, Static, AlternateWave, ScanWave, WaveRight,
     WaveDown, RipplingLeft, RipplingRight, Fireworks, Star, Boom]

  /** The seven keylight modes in declaration order. */
  const AllKeylightModes: seq<KeylightMode> :=
    [KeyOff, Fade, Hexagon, Ripple, RunOutSig, RunInSig, RunIn]

  /** The enumerations list every mode once. */
  lemma ModeListsComplete()
    ensures |AllBacklightModes| == 12 && forall m: BacklightMode :: m in AllBacklightModes
    ensures forall i, j :: 0 <= i < j < |AllBacklightModes| ==> AllBacklightModes[i] != AllBacklightModes[j]
    ensures |AllKeylightModes| == 7 && forall m: KeylightMode :: m in AllKeylightModes
    ensures forall i, j :: 0 <= i < j < |AllKeylightModes| ==> AllKeylightModes[i] != AllKeylightModes[j]
  {
    forall m: BacklightMode ensures m in AllBacklightModes {
      match m
      case BackOff => assert AllBacklightModes[0] == m;
      case Breathing => assert AllBacklightModes[1] == m;
      case Static => assert AllBacklightModes[2] == m;
      case AlternateWave => assert AllBacklightModes[3] == m;
      case ScanWave => assert AllBacklightModes[4] == m;
      case WaveRight => assert AllBacklightModes[5] == m;
      case WaveDown => assert AllBacklightModes[6] == m;
      case RipplingLeft => assert AllBacklightModes[7] == m;
      case RipplingRight => assert AllBacklightModes[8] == m;
      case Fireworks => assert AllBacklightModes[9] == m;
      case Star => assert AllBacklightModes[10] == m;
      case Boom => assert AllBacklightModes[11] == m;
    }
    forall m: KeylightMode ensures m in AllKeylightModes {
      match m
      case KeyOff => assert AllKeylightModes[0] == m;
      case Fade => assert AllKeylightModes[1] == m;
      case Hexagon => assert AllKeylightModes[2] == m;
      case Ripple => assert AllKeylightModes[3] == m;
      case RunOutSig => assert AllKeylightModes[4] == m;
      case RunInSig => assert AllKeylightModes[5] == m;
      case RunIn => assert AllKeylightModes[6] == m;
    }
  }

  /** Literal 16-bit code of a backlight mode; the codes are not sequential. */
  function BacklightCode(m: BacklightMode): (c: bv16)
    ensures BacklightFromBytes(LowByte(c), HighByte(c)) == Some(m)
  {
    match m
    case BackOff => 0x0000
    case Breathing => 0x0200
    case Static => 0x0100
    case AlternateWave => 0x0402
    case ScanWave => 0x0403
    case WaveRight => 0x0404
    case WaveDown => 0x0407
    case RipplingLeft => 0x0701
    case RipplingRight => 0x0700
    case Fireworks => 0x0600
    case Star => 0x0A00
    case Boom => 0x0B00
  }

  /** Least significant byte of a 16-bit value: the first byte in little-endian memory. */
  function LowByte(c: bv16): byte {
    (c & 0xFF) as byte
  }

  /** Most significant byte of a 16-bit value: the second byte in little-endian memory. */
  function HighByte(c: bv16): byte {
    (c >> 8) as byte
  }

  /** The backlight mode whose code has the given low and high bytes, if any. */
  function BacklightFromBytes(low: byte, high: byte): Option<BacklightMode> {
    match (high, low)
    case (0x00, 0x00) => Some(BackOff)
    case (0x02, 0x00) => Some(Breathing)
    case (0x01, 0x00) => Some(Static)
    case (0x04, 0x02) => Some(AlternateWave)
    case (0x04, 0x03) => Some(ScanWave)
    case (0x04, 0x04) => Some(WaveRight)
    case (0x04, 0x07) => Some(WaveDown)
    case (0x07, 0x01) => Some(RipplingLeft)
    case (0x07, 0x00) => Some(RipplingRight)
    case (0x06, 0x00) => Some(Fireworks)
    case (0x0A, 0x00) => Some(Star)
    case (0x0B, 0x00) => Some(Boom)
    case _ => None
  }

  /**
   * Bytes 6 and 7 of a backlight report identify the mode: a pair of bytes
   * names a mode exactly when it is that mode's code split little-endian.
   * In particular distinct modes have distinct codes.
   */
  lemma BacklightBytesInverse(low: byte, high: byte, m: BacklightMode)
    ensures BacklightFromBytes(low, high) == Some(m)
        <==> low == LowByte(BacklightCode(m)) && high == HighByte(BacklightCode(m))
  {
    if BacklightFromBytes(low, high) == Some(m) {
      var c := BacklightCode(m);
      match m
      case BackOff => assert low == 0 && high == 0;
      case Breathing => assert low == 0 && high == 2;
      case Static => assert low == 0 && high == 1;
      case AlternateWave => assert low == 2 && high == 4;
      case ScanWave => assert low == 3 && high == 4;
      case WaveRight => assert low == 4 && high == 4;
      case WaveDown => assert low == 7 && high == 4;
      case RipplingLeft => assert low == 1 && high == 7;
      case RipplingRight => assert low == 0 && high == 7;
      case Fireworks => assert low == 0 && high == 6;
      case Star => assert low == 0 && high == 0x0A;
      case Boom => assert low == 0 && high == 0x0B;
    }
  }

  /** Distinct backlight modes have distinct codes. */
  lemma BacklightCodeInjective(m1: BacklightMode, m2: BacklightMode)
    ensures BacklightCode(m1) == BacklightCode(m2) ==> m1 == m2
  {
    var c1, c2 := BacklightCode(m1), BacklightCode(m2);
    assert BacklightFromBytes(LowByte(c1), HighByte(c1)) == Some(m1);
    assert BacklightFromBytes(LowByte(c2), HighByte(c2)) == Some(m2);
  }
}
