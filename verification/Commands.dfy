/**
 The commands of a reader (sections 6.3 to 6.5 of ISO/IEC 14443-3, section 5 of ISO/IEC
 14443-4) as frames, and back.
 */
module Commands {
  import opened Wire
  import opened Blocks
  import opened Codings
  import Crc

  // ── Anticollision and SELECT ────────────────────────────────────────────

  const CASCADE_TAG: byte := 0x88

  type Level = n: int | 0 <= n <= 2

  /** The part of a UID that one cascade level resolves. */
  datatype UidCl = Final(b0: byte, b1: byte, b2: byte, b3: byte) | Next(b0: byte, b1: byte, b2: byte)

  datatype Cascade = Cascade(level: Level, uid: UidCl)

  function Sel(level: Level): byte {
    if level == 0 then SEL_CL1 else if level == 1 then SEL_CL2 else SEL_CL3
  }

  function LevelOf(sel: byte): Option<Level> {
    if sel == SEL_CL1 then Some(0) else if sel == SEL_CL2 then Some(1) else if sel == SEL_CL3 then Some(2) else None
  }

  /** Four bytes and their check byte. */
  function WithBcc(b0: byte, b1: byte, b2: byte, b3: byte): seq<byte> {
    [b0, b1, b2, b3, b0 ^ b1 ^ b2 ^ b3]
  }

  predicate BccHolds(v: seq<byte>)
    requires |v| == 5
  {
    v[0] ^ v[1] ^ v[2] ^ v[3] ^ v[4] == 0
  }

  function UidClBytes(u: UidCl): seq<byte> {
    match u
    case Final(b0, b1, b2, b3) => WithBcc(b0, b1, b2, b3)
    case Next(b0, b1, b2) => WithBcc(CASCADE_TAG, b0, b1, b2)
  }

  function UidClOf(v: seq<byte>): Result<UidCl, TypeAError> {
    if |v| != 5 then Err(InvalidLength)
    else if !BccHolds(v) then Err(InvalidBcc)
    else if v[0] == CASCADE_TAG then Ok(Next(v[1], v[2], v[3]))
    else Ok(Final(v[0], v[1], v[2], v[3]))
  }

  /** What SELECT can say of a level: a last part does not start like the cascade tag. */
  predicate Unambiguous(u: UidCl) {
    u.Final? ==> u.b0 != CASCADE_TAG
  }

  lemma BccOfFour(b0: byte, b1: byte, b2: byte, b3: byte)
    ensures BccHolds(WithBcc(b0, b1, b2, b3))
  {
  }

  lemma UidClRoundTrip(u: UidCl)
    ensures UidClOf(UidClBytes(u)) == Ok(u) <==> Unambiguous(u)
  {
    match u {
      case Final(b0, b1, b2, b3) => BccOfFour(b0, b1, b2, b3);
      case Next(b0, b1, b2) => BccOfFour(CASCADE_TAG, b0, b1, b2);
    }
  }

  /** Table 7 of ISO/IEC 14443-3. */
  datatype Nvb = Nvb(bytes: byte, bits: byte)

  function NvbByte(n: Nvb): byte {
    (n.bytes << 4) | n.bits
  }

  function NvbOf(value: byte): Result<Nvb, TypeAError> {
    if !(2 <= value >> 4 <= 7) then Err(UnknownOpcode(value >> 4))
    else if value & 0xf > 7 then Err(UnknownOpcode(value & 0xf))
    else Ok(Nvb(value >> 4, value & 0xf))
  }

  // ── Commands ────────────────────────────────────────────────────────────

  datatype Command =
    | ReqA
    | WupA
    | AntiCollision(cascade: Cascade, nvb: Nvb)
    | Select(cascade: Cascade)
    | HltA
    | Rats(rats: RatsParam)
    | Pps(pps: PpsParam)
    | I(block: Block)
    | R(block: Block)
    | S(block: Block)

  function CascadeRaw(c: Cascade, nvb: byte): seq<byte> {
    [Sel(c.level), nvb] + UidClBytes(c.uid)
  }

  /** The data of a standard frame, without its CRC. */
  function Data(c: Command): seq<byte>
    requires !c.ReqA? && !c.WupA? && !c.AntiCollision?
  {
    match c
    case Select(cascade) => CascadeRaw(cascade, NVB_SELECT)
    case HltA => [0x50, 0x00]
    case Rats(p) => [0xe0, RatsByte(p)]
    case Pps(p) => PpsRequest(p)
    case I(b) => Encoding(b)
    case R(b) => Encoding(b)
    case S(b) => Encoding(b)
  }

  /** The bytes on the air. */
  function ToVec(c: Command): seq<byte> {
    match c
    case ReqA => [0x26]
    case WupA => [0x52]
    case AntiCollision(cascade, nvb) => CascadeRaw(cascade, NvbByte(nvb))
    case _ => Crc.Append(Data(c))
  }

  /** Nothing is known of the UID yet. */
  function FirstAntiCollision(sel: byte, nvb: byte): Result<Command, TypeAError> {
    var n :- NvbOf(nvb);
    Ok(AntiCollision(Cascade(if LevelOf(sel).Some? then LevelOf(sel).value else 0, Final(0, 0, 0, 0)), n))
  }

  function ParseSelect(level: Level, data: seq<byte>): Result<Command, TypeAError>
    requires |data| == 7
  {
    var uid := UidClOf(data[2..]);
    if uid.Err? then Err(UnknownOpcode(data[0])) else
      var nvb :- NvbOf(data[1]);
      if nvb == Nvb(7, 0) then Ok(Select(Cascade(level, uid.value)))
      else Ok(AntiCollision(Cascade(level, uid.value), nvb))
  }

  function OfBlock(b: Block): Command {
    match b.pcb.blockType
    case IBlock => I(b)
    case RBlock => R(b)
    case SBlock => S(b)
  }

  function ParseStandard(data: seq<byte>): Result<Command, TypeAError> {
    if data == [0x50, 0x00] then Ok(HltA)
    else if |data| == 2 && data[0] == 0xe0 then
      var p :- RatsOf(data[1]);
      Ok(Rats(p))
    else if |data| == 7 && LevelOf(data[0]).Some? then ParseSelect(LevelOf(data[0]).value, data)
    else if data == [] then Err(InvalidLength)
    else if IsPps(data) then
      var p :- PpsOf(data);
      Ok(Pps(p))
    else
      var b := Parse(data);
      if b.Ok? then Ok(OfBlock(b.value)) else Err(UnknownOpcode(data[0]))
  }

  /** A command off the air. */
  function CommandOf(value: seq<byte>): Result<Command, TypeAError> {
    if value == [0x26] then Ok(ReqA)
    else if value == [0x52] then Ok(WupA)
    else if |value| == 2 && LevelOf(value[0]).Some? then FirstAntiCollision(value[0], value[1])
    else
      var data :- Crc.Split(value);
      ParseStandard(data)
  }

  /** The same when a transceiver has checked and stripped the CRC. */
  function FromCrcVerified(data: seq<byte>): Result<Command, TypeAError> {
    if data == [0x26] then Ok(ReqA)
    else if data == [0x52] then Ok(WupA)
    else if |data| == 2 && LevelOf(data[0]).Some? then FirstAntiCollision(data[0], data[1])
    else ParseStandard(data)
  }

  // ── Round trips ─────────────────────────────────────────────────────────

  predicate Sound(c: Command) {
    match c
    case AntiCollision(_, _) => false
    case Select(cascade) => Unambiguous(cascade.uid)
    case I(b) => WellFormed(b) && b.pcb.blockType == IBlock
    case R(b) => WellFormed(b) && b.pcb.blockType == RBlock
    case S(b) => WellFormed(b) && b.pcb.blockType == SBlock
    case _ => true
  }

  predicate SameCommand(c: Command, d: Command) {
    match c
    case I(b) => d.I? && Same(d.block, b)
    case R(b) => d.R? && Same(d.block, b)
    case S(b) => d.S? && Same(d.block, b)
    case _ => c == d
  }

  /** A first byte that means something other than a block. */
  predicate Reserved(b: byte) {
    b == 0x26 || b == 0x52 || LevelOf(b).Some? || b == 0x50 || b == 0xe0 || b & 0xF0 == 0xD0
  }

  lemma PcbNotReserved(p: Pcb)
    requires p.chaining ==> p.blockType == IBlock
    ensures !Reserved(PcbByte(p))
  {
  }

  /** No block starts like another command, so the first byte tells them apart. */
  lemma BlocksStandApart(b: Block)
    requires WellFormed(b)
    ensures !Reserved(Encoding(b)[0]) && Encoding(b) != []
  {
    PcbNotReserved(FollowFlags(b));
  }

  lemma BlockCommandRoundTrip(b: Block)
    requires WellFormed(b)
    ensures Parse(Encoding(b)).Ok? && Same(Parse(Encoding(b)).value, b)
    ensures ParseStandard(Encoding(b)) == Ok(OfBlock(Parse(Encoding(b)).value))
  {
    hide Parse, Encoding, WellFormed, RatsOf, PpsOf, UidClOf, NvbOf;
    BlockRoundTrip(b);
    BlocksStandApart(b);
  }

  lemma StandardRoundTrip(c: Command)
    requires Sound(c) && !c.ReqA? && !c.WupA?
    ensures ParseStandard(Data(c)).Ok? && SameCommand(c, ParseStandard(Data(c)).value)
  {
    hide Parse, Encoding, WellFormed, RatsOf, RatsByte, PpsOf, UidClOf, NvbOf;
    match c {
      case Select(cascade) =>
        UidClRoundTrip(cascade.uid);
        assert Data(c)[2..] == UidClBytes(cascade.uid);
        SelectNvb();
      case Rats(p) => RatsRoundTrip(p);
      case Pps(p) =>
        PpsRoundTrip(p);
        PpsNotSel(p);
      case HltA =>
      case I(b) => BlockCommandRoundTrip(b);
      case R(b) => BlockCommandRoundTrip(b);
      case S(b) => BlockCommandRoundTrip(b);
    }
  }

  lemma SelectNvb()
    ensures NvbOf(NVB_SELECT) == Ok(Nvb(7, 0))
  {
  }

  lemma PpsNotSel(p: PpsParam)
    ensures |PpsRequest(p)| == 3
  {
  }

  /** Every command but anticollision comes back from its frame, with the CRC checked here
      or by the transceiver. */
  lemma CommandRoundTrip(c: Command)
    requires Sound(c)
    ensures CommandOf(ToVec(c)).Ok? && SameCommand(c, CommandOf(ToVec(c)).value)
    ensures !c.ReqA? && !c.WupA? ==> FromCrcVerified(Data(c)) == CommandOf(ToVec(c))
  {
    hide ParseStandard, Crc.Append, Crc.Split, Encoding, WellFormed, RatsByte;
    if !c.ReqA? && !c.WupA? {
      StandardRoundTrip(c);
      Crc.SplitOfAppend(Data(c));
      AppendIsLonger(Data(c));
      if c.I? || c.R? || c.S? {
        BlocksStandApart(c.block);
      }
    }
  }

  lemma AppendIsLonger(data: seq<byte>)
    ensures |Crc.Append(data)| == |data| + 2
  {
  }

  /** A last part that starts like the cascade tag is the one SELECT that does not come
      back. */
  lemma SelectRoundTripIff(cascade: Cascade)
    ensures CommandOf(ToVec(Select(cascade))) == Ok(Select(cascade)) <==> Unambiguous(cascade.uid)
  {
    hide ParseStandard, Crc.Append, Crc.Split, UidClOf, NvbOf, Parse, Encoding;
    var c := Select(cascade);
    UidClRoundTrip(cascade.uid);
    Crc.SplitOfAppend(Data(c));
    AppendIsLonger(Data(c));
    SelectNvb();
    SelectParses(cascade);
  }

  lemma SelectParses(cascade: Cascade)
    ensures ParseStandard(Data(Select(cascade))) == ParseSelect(cascade.level, Data(Select(cascade)))
    ensures Data(Select(cascade))[2..] == UidClBytes(cascade.uid)
  {
    hide ParseSelect, Parse;
  }
}
