/**
 The blocks of section 7.1 of ISO/IEC 14443-4: the protocol control byte and the
 prologue, optional fields and payload around it.
 */
module Blocks {
  import opened Wire
  import Crc

  datatype BlockType = IBlock | RBlock | SBlock
  datatype RSubtype = Ack | Nak
  datatype SSubtype = Deselect | Wtx | RBlockResponse | SBlockResponse

  type Number = n: int | 0 <= n <= 1
  type Cid = c: byte | c <= 14

  const CID_FOLLOWING: byte := 0x08
  const NAD_FOLLOWING: byte := 0x04

  /** `flags` are the raw bits a PCB was parsed from or built up with; the other fields
      are what they mean. */
  datatype Pcb = Pcb(flags: byte, blockType: BlockType, number: Number, chaining: bool,
                     rSubtype: Option<RSubtype>, sSubtype: Option<SSubtype>)
  {
    static function New(blockType: BlockType): Pcb {
      Pcb(0, blockType, 0, false, None, None)
    }

    function WithNumber(n: Number): Pcb {
      this.(number := n, flags := if n == 1 then flags | 0x01 else flags)
    }

    function WithChaining(c: bool): Pcb {
      this.(chaining := c, flags := if c then flags | 0x10 else flags)
    }

    function WithR(subtype: RSubtype): Pcb {
      this.(rSubtype := Some(subtype))
    }

    function WithS(subtype: SSubtype): Pcb {
      this.(sSubtype := Some(subtype))
    }

    function WithCidFollowing(f: bool): Pcb {
      this.(flags := if f then flags | CID_FOLLOWING else flags & !CID_FOLLOWING)
    }

    function WithNadFollowing(f: bool): Pcb {
      this.(flags := if f then flags | NAD_FOLLOWING else flags & !NAD_FOLLOWING)
    }

    predicate CidFollows() {
      flags & CID_FOLLOWING != 0
    }

    predicate NadFollows() {
      flags & NAD_FOLLOWING != 0
    }
  }

  datatype Block = Block(pcb: Pcb, cid: Option<Cid>, nad: Option<byte>, payload: seq<byte>)

  // ── The control byte ────────────────────────────────────────────────────

  /** Parses a control byte (Figures 16 to 18). */
  function PcbOf(byte: byte): Result<Pcb, TypeAError> {
    var flags := byte & 0xDF;
    var kind := byte & 0xC0;
    if kind == 0x40 || byte & 0x02 == 0 then Err(InvalidPcb)
    else
      var number := if flags & 0x01 != 0 then 1 else 0;
      if kind == 0x00 then
        if byte & 0x20 != 0 then Err(InvalidPcb)
        else Ok(Pcb(flags, IBlock, number, flags & 0x10 != 0, None, None))
      else if kind == 0x80 then
        if byte & 0x20 == 0 then Err(InvalidPcb)
        else Ok(Pcb(flags, RBlock, number, false, Some(if byte & 0x10 == 0 then Ack else Nak), None))
      else if byte & 0x30 == 0x00 then Ok(Pcb(flags, SBlock, number, false, None, Some(Deselect)))
      else if byte & 0x30 == 0x30 then Ok(Pcb(flags, SBlock, number, false, None, Some(Wtx)))
      else Err(InvalidPcb)
  }

  /** Bits 5 and 6 of the control byte. */
  function SubtypeBits(p: Pcb): byte {
    match p.blockType
    case IBlock => if p.chaining then 0x10 else 0
    case RBlock =>
      if p.rSubtype == Some(Nak) || (p.rSubtype == None && p.chaining) then 0x30 else 0x20
    case SBlock =>
      if p.sSubtype == Some(Wtx) then 0x30 else if p.chaining then 0x10 else 0
  }

  /** The control byte of a block: its type, subtype, following fields and number. */
  function PcbByte(p: Pcb): byte {
    (match p.blockType case IBlock => 0x02 case RBlock => 0x82 case SBlock => 0xC2)
    | SubtypeBits(p)
    | (if p.CidFollows() then CID_FOLLOWING else 0)
    | (if p.NadFollows() then NAD_FOLLOWING else 0)
    | (if p.number == 1 then 0x01 else 0)
  }

  method PcbToByte(pcb: Pcb) returns (byte: byte)
    ensures byte == PcbByte(pcb)
  {
    byte := 0x02;
    match pcb.blockType {
      case IBlock => byte := byte | 0x00;
      case RBlock => byte := byte | 0x80;
      case SBlock => byte := byte | 0xC0;
    }
    if pcb.number == 1 {
      byte := byte | 0x01;
    }
    if pcb.chaining {
      byte := byte | 0x10;
    }
    byte := byte | (pcb.flags & (CID_FOLLOWING | NAD_FOLLOWING));
    match pcb.blockType {
      case RBlock =>
        byte := byte | 0x20;
        if pcb.rSubtype.Some? {
          match pcb.rSubtype.value {
            case Ack => byte := byte & !0x10;
            case Nak => byte := byte | 0x10;
          }
        }
      case SBlock =>
        if pcb.sSubtype.Some? {
          match pcb.sSubtype.value {
            case Deselect => byte := byte | 0x00;
            case Wtx => byte := byte | 0x30;
            case _ =>
          }
        }
      case IBlock =>
    }
  }

  // ── Printing and parsing blocks ─────────────────────────────────────────

  function FollowFlags(b: Block): Pcb {
    b.pcb.WithCidFollowing(b.cid.Some?).WithNadFollowing(b.nad.Some?)
  }

  /** Control byte, CID, NAD, payload; no epilogue. */
  function Encoding(b: Block): seq<byte> {
    [PcbByte(FollowFlags(b))]
    + (if b.cid.Some? then [b.cid.value] else [])
    + (if b.nad.Some? then [b.nad.value] else [])
    + b.payload
  }

  method ToBytesWithoutCrc(b: Block) returns (bytes: seq<byte>)
    ensures bytes == Encoding(b)
  {
    var pcb := b.pcb;
    pcb := pcb.WithCidFollowing(b.cid.Some?);
    pcb := pcb.WithNadFollowing(b.nad.Some?);
    var byte := PcbToByte(pcb);
    bytes := [byte];
    if b.cid.Some? {
      bytes := bytes + [b.cid.value];
    }
    if b.nad.Some? {
      bytes := bytes + [b.nad.value];
    }
    bytes := bytes + b.payload;
  }

  /** The block on the air. */
  function OnAir(b: Block): seq<byte> {
    Crc.Append(Encoding(b))
  }

  method ToVec(b: Block) returns (frame: seq<byte>)
    ensures frame == OnAir(b)
  {
    var bytes := ToBytesWithoutCrc(b);
    frame := Crc.AppendCrcA(bytes);
  }

  /** The bytes handed to the transceiver for a block. */
  function Transmitted(hwCrc: bool, b: Block): seq<byte> {
    if hwCrc then Encoding(b) else OnAir(b)
  }

  function ParseCid(pcb: Pcb, data: seq<byte>): Result<Option<Cid>, TypeAError>
    requires data != []
  {
    if !pcb.CidFollows() then Ok(None)
    else if |data| == 1 then Err(InvalidLength)
    else if data[1] & 0x0F <= 14 then Ok(Some(data[1] & 0x0F))
    else Err(UnknownOpcode(data[1]))
  }

  function ParseNad(pcb: Pcb, cid: Option<Cid>, data: seq<byte>): Result<Option<byte>, TypeAError> {
    if !pcb.NadFollows() then Ok(None)
    else if pcb.blockType != IBlock || cid.None? then Err(Other)
    else if |data| <= 2 then Err(InvalidLength)
    else Ok(Some(data[2]))
  }

  /** Reads a block whose CRC is already checked and stripped. */
  function Parse(data: seq<byte>): Result<Block, TypeAError> {
    if data == [] then Err(InvalidLength) else
      var pcb :- PcbOf(data[0]);
      var cid :- ParseCid(pcb, data);
      var nad :- ParseNad(pcb, cid, data);
      var prologue := 1 + (if cid.Some? then 1 else 0) + (if nad.Some? then 1 else 0);
      Ok(Block(pcb, cid, nad, data[prologue..]))
  }

  method FromCrcVerified(data: seq<byte>) returns (r: Result<Block, TypeAError>)
    ensures r == Parse(data)
  {
    if |data| == 0 {
      return Err(InvalidLength);
    }
    var offset := 0;
    var parsed := PcbOf(data[offset]);
    if parsed.Err? {
      return Err(parsed.error);
    }
    var pcb := parsed.value;
    offset := offset + 1;

    var cid: Option<Cid> := None;
    if pcb.CidFollows() {
      if offset < |data| {
        var cidValue := data[offset] & 0x0F;
        if cidValue <= 14 {
          cid := Some(cidValue);
          offset := offset + 1;
        } else {
          return Err(UnknownOpcode(data[offset]));
        }
      } else {
        return Err(InvalidLength);
      }
    }

    var nad: Option<byte> := None;
    if pcb.NadFollows() {
      if pcb.blockType != IBlock {
        return Err(Other);
      }
      if cid.None? {
        return Err(Other);
      }
      if offset < |data| {
        nad := Some(data[offset]);
        offset := offset + 1;
      } else {
        return Err(InvalidLength);
      }
    }
    return Ok(Block(pcb, cid, nad, data[offset..]));
  }

  /** Reads a block off the wire, epilogue included. */
  function ParseAir(frame: seq<byte>): Result<Block, TypeAError> {
    var data :- Crc.Split(frame);
    Parse(data)
  }

  // ── Round trips ─────────────────────────────────────────────────────────

  /** The blocks the standard defines: the subtype matches the type, only I-blocks chain,
      and a NAD comes on I-blocks behind a CID. */
  predicate WellFormed(b: Block) {
    && (b.pcb.chaining ==> b.pcb.blockType == IBlock)
    && (b.pcb.rSubtype.Some? <==> b.pcb.blockType == RBlock)
    && (b.pcb.sSubtype.Some? <==> b.pcb.blockType == SBlock)
    && (b.pcb.sSubtype.Some? ==> b.pcb.sSubtype.value in {Deselect, Wtx})
    && (b.nad.Some? ==> b.cid.Some? && b.pcb.blockType == IBlock)
  }

  /** Equal in everything but the raw flags. */
  predicate SamePcb(p: Pcb, q: Pcb) {
    && p.blockType == q.blockType
    && p.number == q.number
    && p.chaining == q.chaining
    && p.rSubtype == q.rSubtype
    && p.sSubtype == q.sSubtype
  }

  predicate Same(a: Block, b: Block) {
    SamePcb(a.pcb, b.pcb) && a.cid == b.cid && a.nad == b.nad && a.payload == b.payload
  }

  lemma PcbRoundTrip(p: Pcb)
    requires p.chaining ==> p.blockType == IBlock
    requires p.rSubtype.Some? <==> p.blockType == RBlock
    requires p.sSubtype.Some? <==> p.blockType == SBlock
    requires p.sSubtype.Some? ==> p.sSubtype.value in {Deselect, Wtx}
    ensures PcbOf(PcbByte(p)).Ok?
    ensures SamePcb(PcbOf(PcbByte(p)).value, p)
    ensures PcbOf(PcbByte(p)).value.CidFollows() == p.CidFollows()
    ensures PcbOf(PcbByte(p)).value.NadFollows() == p.NadFollows()
  {
    assert p.rSubtype.Some? ==> p.rSubtype.value.Ack? || p.rSubtype.value.Nak?;
  }

  lemma PcbParsedRoundTrip(byte: byte)
    requires PcbOf(byte).Ok?
    ensures PcbByte(PcbOf(byte).value) == byte
  {
  }

  lemma FlagsFollow(b: Block)
    ensures FollowFlags(b).CidFollows() == b.cid.Some?
    ensures FollowFlags(b).NadFollows() == b.nad.Some?
  {
  }

  /** Parsing what was printed gives the block back, with and without its epilogue. */
  lemma BlockRoundTrip(b: Block)
    requires WellFormed(b)
    ensures Parse(Encoding(b)).Ok? && Same(Parse(Encoding(b)).value, b)
    ensures ParseAir(OnAir(b)) == Parse(Encoding(b))
  {
    var data, p := Encoding(b), FollowFlags(b);
    FlagsFollow(b);
    PcbRoundTrip(p);
    ParseLayout(PcbOf(PcbByte(p)).value, b, data);
    Crc.SplitOfAppend(data);
  }

  lemma ParseLayout(pcb: Pcb, b: Block, data: seq<byte>)
    requires WellFormed(b) && data == Encoding(b)
    requires PcbOf(data[0]) == Ok(pcb) && pcb.blockType == b.pcb.blockType
    requires pcb.CidFollows() == b.cid.Some? && pcb.NadFollows() == b.nad.Some?
    ensures Parse(data) == Ok(Block(pcb, b.cid, b.nad, b.payload))
  {
    CidByte(b.cid);
    assert ParseCid(pcb, data) == Ok(b.cid);
    assert ParseNad(pcb, b.cid, data) == Ok(b.nad);
    assert data[|data| - |b.payload|..] == b.payload;
  }

  lemma CidByte(cid: Option<Cid>)
    ensures cid.Some? ==> cid.value & 0x0F == cid.value
  {
  }

  /** `data` with the unused half of its CID byte cleared. */
  function Canonical(data: seq<byte>, b: Block): seq<byte> {
    if b.cid.Some? && |data| > 1 then data[1 := data[1] & 0x0F] else data
  }

  /** Printing what was parsed gives the bytes back, but for the high half of the CID
      byte; and only well-formed blocks are ever parsed. */
  lemma ParsedRoundTrip(data: seq<byte>)
    requires Parse(data).Ok?
    ensures WellFormed(Parse(data).value)
    ensures Encoding(Parse(data).value) == Canonical(data, Parse(data).value)
  {
    var b := Parse(data).value;
    var pcb := PcbOf(data[0]).value;
    PcbParsedRoundTrip(data[0]);
    FlagsFollow(b);
    assert PcbByte(FollowFlags(b)) == PcbByte(pcb);
  }
}
