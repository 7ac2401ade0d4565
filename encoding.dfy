/**
 * The three report builders of src/Pulsar.cpp (set_backlight, set_keylight,
 * set_brightness up to the send) and the integer formulas they use to turn
 * a speed of 0-255 into a device register.
 */
module Encoding {
  import opened Wrappers
  import opened PulsarTypes
  import opened Checksum
  import opened Report

  function Abs(x: int): nat {
    if x < 0 then -x else x
  }

  /**
   * C++ `/` on int: the quotient truncated toward zero (Dafny's own `/` is
   * Euclidean). The remainder `a - q * b` is smaller than `b` in magnitude
   * and never has the opposite sign of `a`, as C++ requires of `%`.
   */
  function CppDiv(a: int, b: int): (q: int)
    requires b != 0
    ensures Abs(a - q * b) < Abs(b)
    ensures a - q * b == 0 || (a - q * b < 0 <==> a < 0)
  {
    if (a < 0) == (b < 0) then Abs(a) / Abs(b) else -(Abs(a) / Abs(b))
  }

  /**
   * Byte 9 of a backlight report, `15 + speed*(-14)/255` evaluated in C++ int
   * arithmetic. A faster speed gives a smaller register (a cycle period).
   */
  function BacklightSpeedRegister(speed: uint8): (r: int)
    ensures 1 <= r <= 15
    ensures r == 15 - (14 * speed as int) / 255
  {
    15 + CppDiv(speed as int * -14, 255)
  }

  /** The backlight register runs from 15 at speed 0 down to 1 at speed 255 and never rises with speed. */
  lemma BacklightRegisterAntitone(s1: uint8, s2: uint8)
    requires s1 <= s2
    ensures BacklightSpeedRegister(s1) >= BacklightSpeedRegister(s2)
    ensures BacklightSpeedRegister(0) == 15 && BacklightSpeedRegister(255) == 1
  {
  }

  /**
   * The high nibble of byte 8 of a keylight report, `5 + speed/(-51)` in
   * C++ int arithmetic: five steps of 51 speeds each, then 0 for speed 255.
   */
  function KeylightSpeedStep(speed: uint8): (n: int)
    ensures 0 <= n <= 5
    ensures n == 5 - speed as int / 51
  {
    5 + CppDiv(speed as int, -51)
  }

  /** The step is 5 exactly for speeds 0-50, 0 exactly for speed 255, and never rises with speed. */
  lemma KeylightStepAntitone(s1: uint8, s2: uint8)
    requires s1 <= s2
    ensures KeylightSpeedStep(s1) >= KeylightSpeedStep(s2)
    ensures KeylightSpeedStep(s1) == 5 <==> s1 <= 50
    ensures KeylightSpeedStep(s1) == 0 <==> s1 == 255
  {
  }

  /** Byte 8 of a keylight report: `((5 + speed/(-51)) << 4) | 0x0A`. */
  function KeylightSpeedByte(speed: uint8): (r: byte)
    ensures r >> 4 == KeylightSpeedStep(speed) as byte
    ensures r & 0x0F == 0x0A
  {
    ((KeylightSpeedStep(speed) as byte) << 4) | 0x0A
  }

  /** The keylight speed byte is 0x5A at speed 0 and 0x0A, not 0x5A, at speed 255. */
  lemma KeylightSpeedByteEnds()
    ensures KeylightSpeedByte(0) == 0x5A && KeylightSpeedByte(255) == 0x0A
  {
    assert KeylightSpeedStep(0) == 5 && KeylightSpeedStep(255) == 0;
  }

  /**
   * Fills a zeroed 65-byte buffer the way set_backlight does: class 0x03,
   * sub-selector 0x01, the mode's 16-bit code copied little-endian into bytes
   * 6-7, the speed register at byte 9, and the XOR of bytes 4-9 at byte 63.
   */
  method FillBacklight(mode: BacklightMode, speed: uint8 := DefaultSpeed) returns (report: seq<byte>)
    ensures |report| == ReportSize && ReservedZero(report)
    ensures report[4] == ModeCode(BacklightClass) && report[5] == 0x01
    ensures report[6] == LowByte(BacklightCode(mode)) && report[7] == HighByte(BacklightCode(mode))
    ensures report[8] == 0 && report[9] == BacklightSpeedRegister(speed) as byte
    ensures report[ChecksumIndex] == XorFold(report[4..10])
    ensures Decode(report) == Some(BacklightFrame(mode, BacklightSpeedRegister(speed) as byte))
  {
    var buffer := new byte[ReportSize](_ => 0);
    buffer[4] := ModeCode(BacklightClass);
    buffer[5] := 0x01;
    var code := BacklightCode(mode);
    buffer[6] := LowByte(code);
    buffer[7] := HighByte(code);
    buffer[9] := BacklightSpeedRegister(speed) as byte;
    buffer[ChecksumIndex] := XorFold(buffer[4..10]);
    report := buffer[..];
    assert report[4..10] == buffer[4..10];
    assert !(report[6] == 0x02 && report[7] == 0x00);
  }

  /**
   * Fills a zeroed 65-byte buffer the way set_keylight does: class 0x02,
   * sub-selector 0x01, marker 0x04, the mode's code at byte 7, the packed
   * speed byte at byte 8, and the XOR of bytes 4-8 at byte 63.
   */
  method FillKeylight(mode: KeylightMode, speed: uint8 := DefaultSpeed) returns (report: seq<byte>)
    ensures |report| == ReportSize && ReservedZero(report)
    ensures report[4] == ModeCode(KeylightClass) && report[5] == 0x01
    ensures report[6] == 0x04 && report[7] == KeylightCode(mode)
    ensures report[8] == KeylightSpeedByte(speed) && report[9] == 0
    ensures report[ChecksumIndex] == XorFold(report[4..9])
    ensures Decode(report) == Some(KeylightFrame(mode, KeylightSpeedStep(speed) as byte))
  {
    var buffer := new byte[ReportSize](_ => 0);
    buffer[4] := ModeCode(KeylightClass);
    buffer[5] := 0x01;
    buffer[6] := 0x04;
    buffer[7] := KeylightCode(mode);
    buffer[8] := KeylightSpeedByte(speed);
    buffer[ChecksumIndex] := XorFold(buffer[4..9]);
    report := buffer[..];
    assert report[4..9] == buffer[4..9];
  }

  /**
   * Fills a zeroed 65-byte buffer the way set_brightness does: class 0x03,
   * sub-selector 0x01, marker 0x02, the level verbatim at byte 9. Since
   * 0x03 ^ 0x01 ^ 0x02 == 0 the checksum equals the level.
   */
  method FillBrightness(level: uint8) returns (report: seq<byte>)
    ensures |report| == ReportSize && ReservedZero(report)
    ensures report[4] == ModeCode(BacklightClass) && report[5] == 0x01
    ensures report[6] == 0x02 && report[7] == 0 && report[8] == 0 && report[9] == level as byte
    ensures report[ChecksumIndex] == XorFold(report[4..10]) == level as byte
    ensures Decode(report) == Some(BrightnessFrame(level as byte))
  {
    var buffer := new byte[ReportSize](_ => 0);
    buffer[4] := ModeCode(BacklightClass);
    buffer[5] := 0x01;
    buffer[6] := 0x02;
    buffer[9] := level as byte;
    buffer[ChecksumIndex] := XorFold(buffer[4..10]);
    report := buffer[..];
    assert report[4..10] == buffer[4..10] == [3, 1, 2, 0, 0, level as byte];
    BrightnessChecksumIsLevel(level as byte);
  }

  /** The header bytes 03 01 02 cancel out, so a brightness report's checksum is its level. */
  lemma BrightnessChecksumIsLevel(level: byte)
    ensures XorFold([0x03, 0x01, 0x02, 0x00, 0x00, level]) == level
  {
    var s1: seq<byte> := [0x03];
    var s2 := s1 + [0x01];
    var s3 := s2 + [0x02];
    var s4 := s3 + [0x00];
    var s5 := s4 + [0x00];
    XorFoldSnoc([], 0x03);
    assert [] + s1 == s1;
    XorFoldSnoc(s1, 0x01);
    XorFoldSnoc(s2, 0x02);
    XorFoldSnoc(s3, 0x00);
    XorFoldSnoc(s4, 0x00);
    XorFoldSnoc(s5, level);
    assert XorFold(s5) == 0;
    assert s5 + [level] == [0x03, 0x01, 0x02, 0x00, 0x00, level];
  }

  /**
   * A brightness report is a backlight-class report whose bytes 6-7 (02 00)
   * are the code of no backlight mode, so it can never be mistaken for one.
   */
  lemma BrightnessIsNoBacklightMode(m: BacklightMode)
    ensures !(LowByte(BacklightCode(m)) == 0x02 && HighByte(BacklightCode(m)) == 0x00)
  {
    BacklightBytesInverse(0x02, 0x00, m);
  }
}
