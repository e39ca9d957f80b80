/**
 The tables and figures behind the codecs, place by place: what each byte on the air is as a
 number. Printers and parsers that agree with each other have to agree with these, too.
 */
module Layouts {
  import opened Wire
  import opened Blocks
  import opened Codings
  import opened Commands
  import opened Activation
  import A = AnswerToSelect
  import P = PiccLayer
  import Protocol
  import PcdLayer
  import Crc

  // ── ISO/IEC 14443-4 ─────────────────────────────────────────────────────

  /** Table 1: FSDI and FSCI to FSD and FSC. */
  const FRAME_SIZES: seq<nat> := [16, 24, 32, 40, 48, 64, 96, 128, 256]

  lemma SizesAreTheTable(code: byte, f: FrameSize)
    ensures code < 9 ==> SizeCoded(code).Some? && SizeOf(SizeCoded(code).value) == FRAME_SIZES[code]
    ensures code >= 9 ==> SizeCoded(code) == None
    ensures SizeCode(f) < 9 && SizeCoded(SizeCode(f)) == Some(f)
  {
  }

  /** Figures 16 to 18: a weight for everything the control byte says. */
  function ControlByte(b: Block): byte {
    (match b.pcb.blockType
     case IBlock => 0x02 + (if b.pcb.chaining then 16 else 0)
     case RBlock => 0xA2 + (if b.pcb.rSubtype == Some(Nak) then 16 else 0)
     case SBlock => 0xC2 + (if b.pcb.sSubtype == Some(SSubtype.Wtx) then 48 else 0))
    + (if b.cid.Some? then 8 else 0)
    + (if b.nad.Some? then 4 else 0)
    + (if b.pcb.number == 1 then 1 else 0)
  }

  /** Control byte, then CID, then NAD, then the payload. */
  lemma BlockLayout(b: Block)
    requires WellFormed(b)
    ensures Encoding(b)[0] == ControlByte(b)
    ensures var i := if b.cid.Some? then 2 else 1;
            var j := if b.nad.Some? then i + 1 else i;
            && (b.cid.Some? ==> Encoding(b)[1] == b.cid.value)
            && (b.nad.Some? ==> Encoding(b)[i] == b.nad.value)
            && Encoding(b)[j..] == b.payload
  {
    FlagsFollow(b);
    PcbLayout(FollowFlags(b), b);
  }

  lemma PcbLayout(p: Pcb, b: Block)
    requires WellFormed(b) && SamePcb(p, b.pcb)
    requires p.CidFollows() == b.cid.Some? && p.NadFollows() == b.nad.Some?
    ensures PcbByte(p) == ControlByte(b)
  {
  }

  /** Behind a control byte that parses, a block is refused for a CID of 15, for a NAD that
      is not on an I-block behind a CID, and for a field that is cut off. */
  lemma BlockErrors(data: seq<byte>)
    ensures data == [] ==> Parse(data) == Err(InvalidLength)
    ensures data != [] && PcbOf(data[0]).Ok? ==>
              var cid, nad := data[0] & 0x08 != 0, data[0] & 0x04 != 0;
              && (cid && |data| == 1 ==> Parse(data) == Err(InvalidLength))
              && (cid && |data| > 1 && data[1] & 0x0f == 15 ==> Parse(data) == Err(UnknownOpcode(data[1])))
              && (nad && (!cid || (|data| > 1 && data[1] & 0x0f != 15 && data[0] & 0xC0 != 0)) ==>
                    Parse(data) == Err(Other))
              && (nad && cid && |data| == 2 && data[1] & 0x0f != 15 && data[0] & 0xC0 == 0 ==>
                    Parse(data) == Err(InvalidLength))
  {
    if data != [] && PcbOf(data[0]).Ok? {
      FollowingBits(data[0]);
      if |data| > 1 {
        LastNibble(data[1]);
      }
    }
    hide PcbOf;
  }

  lemma FollowingBits(b: byte)
    requires PcbOf(b).Ok?
    ensures PcbOf(b).value.CidFollows() == (b & 0x08 != 0)
    ensures PcbOf(b).value.NadFollows() == (b & 0x04 != 0)
    ensures PcbOf(b).value.blockType == IBlock <==> b & 0xC0 == 0
  {
  }

  lemma LastNibble(b: byte)
    ensures b & 0x0F <= 14 <==> b & 0x0f != 15
  {
  }

  /** Which RATS parameters are accepted. */
  lemma RatsAccepted(value: byte)
    ensures RatsOf(value).Ok? <==> value >> 4 <= 8 && value & 0x0f != 15
    ensures RatsOf(value).Err? ==> RatsOf(value).error == Other
    ensures RatsOf(value).Ok? ==> SizeCode(RatsOf(value).value.fsdi) == value >> 4
                                  && RatsOf(value).value.cid == value & 0x0f
  {
    LastNibble(value);
    SizesAreTheTable(value >> 4, Fs16);
    CodeOfCoded(value >> 4);
  }

  lemma CodeOfCoded(code: byte)
    ensures SizeCoded(code).Some? ==> SizeCode(SizeCoded(code).value) == code
  {
  }

  /** Which ATS bodies are accepted: TL is the length, FSCI is defined, every byte T0
      announces is there, and neither half of TB(1) is 15. */
  lemma AtsAccepted(body: seq<byte>)
    ensures body == [] || A.Length(body[0]) != |body| ==> A.Parse(body) == Err(InvalidLength)
    ensures |body| > 1 && A.Length(body[0]) == |body| ==>
              var t0 := body[1];
              var j := if t0 & 0x10 != 0 then 3 else 2;
              var k := if t0 & 0x20 != 0 then j + 1 else j;
              var l := if t0 & 0x40 != 0 then k + 1 else k;
              A.Parse(body).Ok? <==>
                && t0 & 0x0f <= 8 && l <= |body|
                && (t0 & 0x20 != 0 ==> body[j] & 0x0f != 15 && body[j] >> 4 != 15)
    ensures |body| == 1 && A.Length(body[0]) == 1 ==> A.Parse(body).Ok?
  {
    hide A.TaBits, A.TcBits, A.Length, A.TbByte, SizeCoded;
    A.TbRoundTrip(A.DEFAULT_TB);
    if |body| > 1 {
      A.PresenceBits(body[1]);
      SizesAreTheTable(body[1] & 0x0f, Fs16);
    }
    forall x: byte
      ensures A.TbOf(x).Ok? <==> x & 0x0f != 15 && x >> 4 != 15
    {
      TbAccepted(x);
    }
    hide A.TbOf;
  }

  lemma TbAccepted(x: byte)
    ensures A.TbOf(x).Ok? <==> x & 0x0f != 15 && x >> 4 != 15
  {
  }

  /** Figure 3: FSDI above the CID. */
  lemma RatsLayout(p: RatsParam)
    ensures RatsByte(p) == 16 * SizeCode(p.fsdi) + p.cid
  {
    NibblesAdd(SizeCode(p.fsdi), p.cid);
  }

  lemma NibblesAdd(high: byte, low: byte)
    requires high < 16 && low < 16
    ensures (high << 4) | low == 16 * high + low
  {
  }

  /** Figures 4 and 5, and 7: TL, T0, and TB(1). */
  lemma AtsLayout(a: A.Ats)
    ensures A.Print(a)[1] == SizeCode(a.format.fsci) + (if a.format.ta then 16 else 0)
                             + (if a.format.tb then 32 else 0) + (if a.format.tc then 64 else 0)
    ensures A.TbByte(a.tb) == 16 * a.tb.fwi + a.tb.sfgi
  {
    NibblesAdd(a.tb.fwi, a.tb.sfgi);
    FormatAdds(a.format);
  }

  lemma FormatAdds(f: A.Format)
    ensures A.FormatByte(f) == SizeCode(f.fsci) + (if f.ta then 16 else 0)
                               + (if f.tb then 32 else 0) + (if f.tc then 64 else 0)
  {
  }

  /** Figures 9 to 11: start byte, parameter 0, and the divisors, DSI above DRI. */
  lemma PpsLayout(p: PpsParam)
    ensures PpsRequest(p) == [0xD0 + p.cid, 0x11, 4 * DxiCode(p.dsi) + DxiCode(p.dri)]
    ensures DxiCode(Dx1) == 0 && DxiCode(Dx2) == 1 && DxiCode(Dx4) == 2 && DxiCode(Dx8) == 3
  {
  }

  /** A PPS request has parameter 1 exactly when parameter 0 says so, and without it the bit
      rates stay as they are. */
  lemma PpsForms(v: seq<byte>)
    ensures PpsOf(v).Ok? <==>
              |v| >= 2 && v[0] & 0x0f <= 14 && |v| == if v[1] == 0x11 then 3 else 2
    ensures PpsOf(v).Ok? && |v| == 2 ==> PpsOf(v).value == PpsParam(v[0] & 0x0f, Dx1, Dx1)
    ensures PpsOf(v).Ok? && |v| == 3 ==>
              && PpsOf(v).value.cid == v[0] & 0x0f
              && DxiCode(PpsOf(v).value.dri) == v[2] & 3 && DxiCode(PpsOf(v).value.dsi) == (v[2] >> 2) & 3
  {
    if PpsOf(v).Ok? && |v| == 3 {
      DivisorBits(v[2] & 3);
      DivisorBits((v[2] >> 2) & 3);
      LowBits(v[2]);
      LowBits(v[2] >> 2);
    }
  }

  lemma LowBits(x: byte)
    ensures x & 3 < 4
  {
  }

  lemma DivisorBits(code: byte)
    requires code < 4
    ensures DxiCode(DxiCoded(code)) == code
  {
  }

  /** A card takes the CID proposed in RATS when TC(1) says that it supports one. */
  lemma CidBit(c: P.Config)
    ensures P.CidSupported(c) <==> c.ats.Some? && c.ats.value.tc & 0x02 != 0
  {
  }

  // ── ISO/IEC 14443-3 ─────────────────────────────────────────────────────

  /** Table 8: bit 3 for a UID that is not complete, bit 6 for ISO/IEC 14443-4. */
  lemma SakLayout(raw: byte, s: Sak)
    ensures SakOf(raw) == Sak(raw & 0x04 == 0, raw & 0x20 != 0)
    ensures SakByte(s) == (if s.uidComplete then 0 else 4) + (if s.compliant then 32 else 0)
  {
    SakBits(raw);
  }

  lemma SakBits(raw: byte)
    ensures (raw & 0x04 != 0x04) == (raw & 0x04 == 0)
    ensures (raw & 0x20 == 0x20) == (raw & 0x20 != 0)
  {
  }

  /** ATQA: the UID size above one bit for the time slots, then the proprietary nibble. */
  lemma AtqaLayout(a: AtqA)
    ensures |AtqaBytes(a)| == 2 && AtqaBytes(a)[1] == a.proprietary & 0x0F
    ensures AtqaBytes(a)[0]
         == (match a.uidSize case Single => 0 case Double => 64 case Triple => 128)
            + (match a.bitFrameAc case Slot1 => 1 case Slot2 => 2 case Slot4 => 4 case Slot8 => 8 case Slot16 => 16)
  {
    match (a.uidSize, a.bitFrameAc) {
      case (Single, _) =>
      case (Double, _) =>
      case (Triple, _) =>
    }
  }

  /** Which ATQA are accepted: a defined UID size, and one bit for the time slots. */
  lemma AtqaAccepted(v: seq<byte>)
    ensures AtqaOf(v).Ok? <==>
              && |v| == 2 && v[0] & 0xC0 != 0xC0
              && (v[0] & 0x1F == 1 || v[0] & 0x1F == 2 || v[0] & 0x1F == 4 || v[0] & 0x1F == 8 || v[0] & 0x1F == 16)
  {
    if |v| == 2 {
      TopBits(v[0]);
    }
  }

  lemma TopBits(b: byte)
    ensures b >> 6 == 3 <==> b & 0xC0 == 0xC0
  {
  }

  /** Table 7: whole bytes above bits, both in range. */
  lemma NvbLayout(value: byte, n: Nvb)
    requires 2 <= n.bytes <= 7 && n.bits <= 7
    ensures NvbByte(n) == 16 * n.bytes + n.bits && NvbOf(NvbByte(n)) == Ok(n)
    ensures NvbOf(value).Ok? <==> 2 <= value >> 4 <= 7 && value & 0x0f <= 7
  {
    NibblesAdd(n.bytes, n.bits);
    RatsNibbles(n.bytes, n.bits);
  }

  /** Table 6, and the codes of the other commands. */
  lemma CommandCodes(c: Command, level: Level)
    ensures Sel(level) == [0x93, 0x95, 0x97][level] && LevelOf(Sel(level)) == Some(level)
    ensures match c
            case ReqA => Commands.ToVec(c) == [0x26]
            case WupA => Commands.ToVec(c) == [0x52]
            case AntiCollision(cascade, nvb) =>
              |Commands.ToVec(c)| == 7 && Commands.ToVec(c)[0] == [0x93, 0x95, 0x97][cascade.level]
            case Select(cascade) =>
              |Data(c)| == 7 && Data(c)[0] == [0x93, 0x95, 0x97][cascade.level] && Data(c)[1] == 0x70
            case HltA => Data(c) == [0x50, 0x00]
            case Rats(p) => |Data(c)| == 2 && Data(c)[0] == 0xe0
            case Pps(p) => |Data(c)| == 3 && Data(c)[0] & 0xF0 == 0xD0
            case I(_) => true
            case R(_) => true
            case S(_) => true
  {
    if c.Pps? {
      PpsStartBits(c.pps.cid);
    }
  }

  /** REQA for a card that may be idle, WUPA for one that may be halted, and the SEL codes. */
  lemma ReaderFrames(s: Selecting, hwCrc: bool)
    requires Proper(s) && !Over(s)
    ensures s == Waking ==> Says(s, false, hwCrc) == Short([0x26]) && Says(s, true, hwCrc) == Short([0x52])
    ensures s.Resolving? ==> forall halted ::
              Says(s, halted, hwCrc) == BitOriented([[0x93, 0x95, 0x97][|s.parts|], 0x20])
  {
  }

  /** A part is five bytes that xor to nothing, and names the next level exactly when it
      starts with 0x88. */
  lemma UidParts(v: seq<byte>)
    ensures UidClOf(v).Ok? <==> |v| == 5 && v[0] ^ v[1] ^ v[2] ^ v[3] ^ v[4] == 0
    ensures UidClOf(v).Ok? ==>
              UidClOf(v).value == if v[0] == 0x88 then Next(v[1], v[2], v[3]) else Final(v[0], v[1], v[2], v[3])
  {
  }

  /** The reader selects the part it heard: its frame is SELECT of that part, at its level. */
  lemma SelectsWhatItHeard(s: Selecting, halted: bool, part: seq<byte>, hwCrc: bool)
    requires s.Choosing? && Proper(s) && part == s.parts[|s.parts| - 1] && BccHolds(part)
    ensures var frame := Says(s, halted, hwCrc);
            frame.Standard? &&
            (if hwCrc then Commands.FromCrcVerified(frame.data) else CommandOf(frame.data))
              == Ok(Select(Cascade(|s.parts| - 1, UidClOf(part).value)))
  {
    hide UidClOf, Crc.Append, Crc.Split, Parse, PpsOf, RatsOf, NvbOf;
    var level: Level := |s.parts| - 1;
    var data := [Sel(level), NVB_SELECT] + part;
    SelectNvb();
    UidParts(part);
    Crc.SplitOfAppend(data);
    AppendIsLonger(data);
    assert data[2..] == part;
  }

  /** The reader's RATS is the command of that name. */
  lemma RatsIsCommand(fsdi: FrameSize, cid: Cid)
    ensures PcdLayer.RatsFrame(false, fsdi, cid) == Standard(Commands.ToVec(Rats(RatsParam(fsdi, cid))))
    ensures PcdLayer.RatsFrame(true, fsdi, cid) == Standard(Data(Rats(RatsParam(fsdi, cid))))
  {
    hide RatsByte, Crc.Append;
  }

  /** A command off the air needs its CRC, REQA, WUPA and anticollision apart. */
  lemma CommandsAreChecked(value: seq<byte>)
    requires |value| > 2 && Crc.Split(value).Err?
    ensures CommandOf(value) == Err(Crc.Split(value).error)
  {
    hide Crc.Split, ParseStandard;
  }

  /** An anticollision command without a CRC names its level and the bits it knows. */
  lemma AntiCollisionParses(level: Level, n: Nvb)
    requires 2 <= n.bytes <= 7 && n.bits <= 7
    ensures CommandOf([Sel(level), NvbByte(n)]) == Ok(AntiCollision(Cascade(level, Final(0, 0, 0, 0)), n))
    ensures Commands.FromCrcVerified([Sel(level), NvbByte(n)]) == CommandOf([Sel(level), NvbByte(n)])
  {
    NvbLayout(0, n);
    hide NvbByte, NvbOf;
  }

  /** With seven bytes it carries a UID part, and is a SELECT when all forty bits count. */
  lemma LongCommandParses(cascade: Cascade, n: Nvb)
    requires 2 <= n.bytes <= 7 && n.bits <= 7 && Unambiguous(cascade.uid)
    ensures ParseStandard(CascadeRaw(cascade, NvbByte(n)))
         == Ok(if n == Nvb(7, 0) then Select(cascade) else AntiCollision(cascade, n))
  {
    NvbLayout(0, n);
    UidClRoundTrip(cascade.uid);
    var data := CascadeRaw(cascade, NvbByte(n));
    assert data[2..] == UidClBytes(cascade.uid);
    hide NvbByte, NvbOf, UidClOf, Parse, PpsOf, RatsOf;
  }

  // ── Rules A and C ───────────────────────────────────────────────────────

  lemma FirstNumbers()
    ensures Protocol.InitialNumber(Protocol.Role.Pcd) == 0
    ensures Protocol.InitialNumber(Protocol.Role.Picc) == 1
  {
  }
}
