/** The one-byte codings around the block protocol: RATS, PPS, SAK, ATQA and NVB. */
module Codings {
  import opened Wire
  import opened Blocks

  // ── Frame sizes ─────────────────────────────────────────────────────────

  /** FSDI and FSCI share one table of frame sizes (Table 1 of ISO/IEC 14443-4). */
  datatype FrameSize = Fs16 | Fs24 | Fs32 | Fs40 | Fs48 | Fs64 | Fs96 | Fs128 | Fs256

  function SizeOf(f: FrameSize): nat {
    match f
    case Fs16 => 16
    case Fs24 => 24
    case Fs32 => 32
    case Fs40 => 40
    case Fs48 => 48
    case Fs64 => 64
    case Fs96 => 96
    case Fs128 => 128
    case Fs256 => 256
  }

  function SizeCode(f: FrameSize): byte {
    match f
    case Fs16 => 0
    case Fs24 => 1
    case Fs32 => 2
    case Fs40 => 3
    case Fs48 => 4
    case Fs64 => 5
    case Fs96 => 6
    case Fs128 => 7
    case Fs256 => 8
  }

  function SizeCoded(code: byte): Option<FrameSize> {
    match code
    case 0 => Some(Fs16)
    case 1 => Some(Fs24)
    case 2 => Some(Fs32)
    case 3 => Some(Fs40)
    case 4 => Some(Fs48)
    case 5 => Some(Fs64)
    case 6 => Some(Fs96)
    case 7 => Some(Fs128)
    case 8 => Some(Fs256)
    case _ => None
  }

  // ── RATS ────────────────────────────────────────────────────────────────

  datatype RatsParam = RatsParam(fsdi: FrameSize, cid: Cid)

  function RatsByte(p: RatsParam): byte {
    (SizeCode(p.fsdi) << 4) | p.cid
  }

  function RatsOf(value: byte): Result<RatsParam, TypeAError> {
    var fsdi := SizeCoded(value >> 4);
    if fsdi.None? || value & 0x0f > 14 then Err(Other) else Ok(RatsParam(fsdi.value, value & 0x0f))
  }

  lemma RatsRoundTrip(p: RatsParam)
    ensures RatsOf(RatsByte(p)) == Ok(p)
  {
    RatsNibbles(SizeCode(p.fsdi), p.cid);
  }

  lemma RatsNibbles(high: byte, low: byte)
    requires high <= 15 && low <= 15
    ensures ((high << 4) | low) >> 4 == high
    ensures ((high << 4) | low) & 0x0f == low
  {
  }

  // ── PPS ─────────────────────────────────────────────────────────────────

  datatype Dxi = Dx1 | Dx2 | Dx4 | Dx8

  function DxiCode(d: Dxi): byte {
    match d
    case Dx1 => 0
    case Dx2 => 1
    case Dx4 => 2
    case Dx8 => 3
  }

  function DxiCoded(code: byte): Dxi {
    if code == 0 then Dx1 else if code == 1 then Dx2 else if code == 2 then Dx4 else Dx8
  }

  datatype PpsParam = PpsParam(cid: Cid, dri: Dxi, dsi: Dxi)

  predicate IsPps(raw: seq<byte>) {
    raw != [] && raw[0] & 0xF0 == 0xD0
  }

  function PpsStart(cid: Cid): byte {
    0xD0 + cid
  }

  function PpsRequest(p: PpsParam): seq<byte> {
    [PpsStart(p.cid), 0x11, (DxiCode(p.dsi) << 2) | DxiCode(p.dri)]
  }

  function PpsOf(value: seq<byte>): Result<PpsParam, TypeAError> {
    if |value| < 2 then Err(InvalidLength)
    else if value[0] & 0x0f > 14 then Err(Other)
    else if value[1] == 0x11 then
      if |value| != 3 then Err(InvalidLength)
      else Ok(PpsParam(value[0] & 0x0f, DxiCoded(value[2] & 3), DxiCoded((value[2] >> 2) & 3)))
    else if |value| != 2 then Err(InvalidLength)
    else Ok(PpsParam(value[0] & 0x0f, Dx1, Dx1))
  }

  lemma PpsRoundTrip(p: PpsParam)
    ensures IsPps(PpsRequest(p)) && PpsOf(PpsRequest(p)) == Ok(p)
  {
    PpsStartBits(p.cid);
  }

  lemma PpsStartBits(cid: byte)
    requires cid <= 14
    ensures (0xD0 + cid) & 0xF0 == 0xD0 && (0xD0 + cid) & 0x0f == cid
  {
  }

  // ── SAK, ATQA and NVB ───────────────────────────────────────────────────

  datatype Sak = Sak(uidComplete: bool, compliant: bool)

  function SakByte(s: Sak): byte {
    (if s.uidComplete then 0 else 0x04) | (if s.compliant then 0x20 else 0)
  }

  function SakOf(raw: byte): Sak {
    Sak(raw & 0x04 != 0x04, raw & 0x20 == 0x20)
  }

  lemma SakRoundTrip(s: Sak)
    ensures SakOf(SakByte(s)) == s
  {
  }

  datatype UidSize = Single | Double | Triple

  datatype Slots = Slot1 | Slot2 | Slot4 | Slot8 | Slot16

  datatype AtqA = AtqA(uidSize: UidSize, bitFrameAc: Slots, proprietary: byte)

  function AtqaBytes(a: AtqA): seq<byte> {
    [(match a.uidSize case Single => 0x00 case Double => 0x40 case Triple => 0x80)
     | (match a.bitFrameAc case Slot1 => 1 case Slot2 => 2 case Slot4 => 4 case Slot8 => 8 case Slot16 => 16),
     a.proprietary & 0x0F]
  }

  function SlotsOf(code: byte): Option<Slots> {
    match code
    case 1 => Some(Slot1)
    case 2 => Some(Slot2)
    case 4 => Some(Slot4)
    case 8 => Some(Slot8)
    case 16 => Some(Slot16)
    case _ => None
  }

  function AtqaOf(value: seq<byte>): Result<AtqA, TypeAError> {
    if |value| != 2 then Err(InvalidLength) else
      var size, slots := value[0] >> 6, SlotsOf(value[0] & 0x1F);
      if size == 3 then Err(UnknownOpcode(size))
      else if slots.None? then Err(UnknownOpcode(value[0] & 0x1F))
      else Ok(AtqA(if size == 0 then Single else if size == 1 then Double else Triple,
                   slots.value, value[1] & 0x0F))
  }

  lemma AtqaRoundTrip(a: AtqA)
    requires a.proprietary & 0x0F == a.proprietary
    ensures AtqaOf(AtqaBytes(a)) == Ok(a)
  {
    match (a.uidSize, a.bitFrameAc) {
      case (Single, _) =>
      case (Double, _) =>
      case (Triple, _) =>
    }
  }

  const NVB_ANTICOLLISION: byte := 0x20
  const NVB_SELECT: byte := 0x70

  const SEL_CL1: byte := 0x93
  const SEL_CL2: byte := 0x95
  const SEL_CL3: byte := 0x97
}
