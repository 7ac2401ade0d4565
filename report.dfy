/**
 * The 65-byte feature report the keyboard accepts, read back field by field.
 * `Decode` is the wire-format table as a function from reports to the
 * command they carry; the builders in Encoding are proved to be its inverse.
 */
module Report {
  import opened Wrappers
  import opened PulsarTypes
  import opened Checksum

  /** Every report is exactly this long; byte 0 is the implicit report id 0. */
  const ReportSize: nat := 65
  /** First payload byte: the command class. */
  const PayloadStart: nat := 4
  /** Where the checksum is stored. */
  const ChecksumIndex: nat := 63

  /** Bytes 0-3, 10-62 and 64 carry nothing and are zero. */
  predicate ReservedZero(p: seq<byte>) {
    forall i :: 0 <= i < |p| && (i < PayloadStart || 9 < i) && i != ChecksumIndex ==> p[i] == 0
  }

  /** The command a well-formed report carries, with its speed field as written on the wire. */
  datatype Frame =
    | BacklightFrame(backlightMode: BacklightMode, register: byte)
    | KeylightFrame(keylightMode: KeylightMode, step: byte)
    | BrightnessFrame(level: byte)

  /** One past the last byte the checksum covers: keylight reports fold bytes 4-8, the others 4-9. */
  function PayloadEnd(f: Frame): nat {
    if f.KeylightFrame? then 9 else 10
  }

  /**
   * Reads a report. Keylight reports are 02 01 04 <code> <step:4 A:4> 00;
   * brightness reports are 03 01 02 00 00 <level>; backlight reports are
   * 03 01 <code low> <code high> 00 <register>. Anything else, or a wrong
   * checksum, or a nonzero reserved byte, is not a report of this protocol.
   */
  function Decode(p: seq<byte>): Option<Frame> {
    if |p| != ReportSize || !ReservedZero(p) || p[5] != 0x01 then None
    else if p[4] == ModeCode(KeylightClass) then
      if p[6] == 0x04 && p[8] & 0x0F == 0x0A && p[9] == 0 && p[ChecksumIndex] == XorFold(p[4..9]) then
        match KeylightFromCode(p[7])
        case Some(m) => Some(KeylightFrame(m, p[8] >> 4))
        case None => None
      else None
    else if p[4] == ModeCode(BacklightClass) && p[8] == 0 && p[ChecksumIndex] == XorFold(p[4..10]) then
      if p[6] == 0x02 && p[7] == 0x00 then Some(BrightnessFrame(p[9]))
      else
        match BacklightFromBytes(p[6], p[7])
        case Some(m) => Some(BacklightFrame(m, p[9]))
        case None => None
    else None
  }

  /**
   * In a decodable report, byte 63 is the fold of the payload it covers,
   * five bytes for a keylight report and six otherwise, and so cancels it.
   */
  lemma DecodedChecksumCancels(p: seq<byte>)
    requires Decode(p).Some?
    ensures var payload := p[PayloadStart..PayloadEnd(Decode(p).value)];
      && |payload| == (if Decode(p).value.KeylightFrame? then 5 else 6)
      && p[ChecksumIndex] == XorFold(payload)
      && XorFold(payload + [p[ChecksumIndex]]) == 0
  {
    ChecksumCancels(p[PayloadStart..PayloadEnd(Decode(p).value)], p[ChecksumIndex]);
  }

  /** A byte is determined by its two nibbles. */
  lemma NibblesDetermineByte(a: byte, b: byte)
    requires a >> 4 == b >> 4 && a & 0x0F == b & 0x0F
    ensures a == b
  {
  }

  /**
   * A report is determined by the command it carries: two reports that decode
   * to the same frame are the same 65 bytes.
   */
  lemma DecodeInjective(p: seq<byte>, q: seq<byte>)
    requires Decode(p).Some? && Decode(p) == Decode(q)
    ensures p == q
  {
    var f := Decode(p).value;
    assert |p| == |q| == ReportSize;
    match f {
      case KeylightFrame(m, _) =>
        KeylightCodeInverse(p[7], m);
        KeylightCodeInverse(q[7], m);
        NibblesDetermineByte(p[8], q[8]);
      case BrightnessFrame(_) =>
      case BacklightFrame(m, _) =>
        BacklightBytesInverse(p[6], p[7], m);
        BacklightBytesInverse(q[6], q[7], m);
    }
    var e := PayloadEnd(f);
    forall i | PayloadStart <= i < e ensures p[i] == q[i] {
    }
    assert p[PayloadStart..e] == q[PayloadStart..e];
    forall i | 0 <= i < ReportSize ensures p[i] == q[i] {
    }
  }
}
