/**
 What becomes of a block on its way from one handler to the other: printed, put on the
 air, checked, parsed.
 */
module Carriage {
  import opened Wire
  import opened Blocks
  import opened Protocol
  import PcdLayer
  import PiccLayer
  import Codings
  import Crc

  // ── The air ─────────────────────────────────────────────────────────────

  /** What a transceiver puts on the air of the bytes it is handed. */
  function ToAir(hwCrc: bool, raw: seq<byte>): seq<byte> {
    if hwCrc then Crc.Append(raw) else raw
  }

  /** What a transceiver hands up of a frame on the air. */
  function FromAir(hwCrc: bool, air: seq<byte>): Option<seq<byte>> {
    if !hwCrc then Some(air) else
      var data := Crc.Split(air);
      if data.Ok? then Some(data.value) else None
  }

  lemma AirCarries(b: Block, fromHw: bool, toHw: bool)
    ensures FromAir(toHw, ToAir(fromHw, Transmitted(fromHw, b))) == Some(Transmitted(toHw, b))
  {
    hide Encoding, Crc.Append, Crc.Split;
    Crc.SplitOfAppend(Encoding(b));
  }

  // ── Parsing what was sent ───────────────────────────────────────────────

  /** A block the standard defines, in a frame of at most `size` bytes. */
  ghost predicate Sendable(b: Block, size: nat) {
    WellFormed(b) && |OnAir(b)| <= size
  }

  lemma ReaderHears(s: PcdLayer.Session, b: Block)
    requires Sendable(b, s.fsd)
    ensures var r := PcdLayer.Parsed(s, Some(Transmitted(s.hwCrc, b)));
            r.Ok? && Same(r.value, b)
  {
    hide Encoding, Crc.Append, Crc.Split, Parse, WellFormed;
    BlockRoundTrip(b);
    AppendSize(b);
  }

  lemma CardHears(t: PiccLayer.Terms, b: Block)
    requires Sendable(b, t.fsc)
    ensures var r := PiccLayer.ParsedCommand(t, Transmitted(t.hwCrc, b));
            r.Ok? && Same(r.value, b)
    ensures !Codings.IsPps(Transmitted(t.hwCrc, b))
  {
    hide Encoding, Crc.Append, Crc.Split, Parse, WellFormed;
    BlockRoundTrip(b);
    AppendSize(b);
    Crc.SplitOfAppend(Encoding(b));
    NotPps(b);
  }

  lemma AppendSize(b: Block)
    ensures |OnAir(b)| == |Encoding(b)| + 2
  {
  }

  /** No block starts like a PPS request. */
  lemma NotPps(b: Block)
    requires WellFormed(b)
    ensures !Codings.IsPps(Encoding(b)) && !Codings.IsPps(OnAir(b))
  {
    var p := FollowFlags(b);
    PcbNotPps(p);
    assert Encoding(b)[0] == PcbByte(p);
    assert OnAir(b)[0] == PcbByte(p);
  }

  lemma PcbNotPps(p: Pcb)
    requires p.chaining ==> p.blockType == IBlock
    ensures PcbByte(p) & 0xF0 != 0xD0
  {
  }

  // ── What a handler looks at ─────────────────────────────────────────────

  /** Equal in everything a handler looks at. */
  predicate Agrees(a: Block, b: Block) {
    SamePcb(a.pcb, b.pcb) && a.payload == b.payload
  }

  lemma ProcessAgrees(h: Handler, a: Block, b: Block)
    requires Agrees(a, b)
    ensures Process(h, a) == Process(h, b)
  {
  }

  lemma FeedAgrees(r: PcdLayer.Reader, a: Block, b: Block)
    requires Agrees(a, b)
    ensures PcdLayer.Feed(r, Ok(a)) == PcdLayer.Feed(r, Ok(b))
  {
    hide Process;
    ProcessAgrees(r.h, a, b);
  }

  lemma OnBlockAgrees(c: PiccLayer.Card, a: Block, b: Block)
    requires Agrees(a, b)
    ensures PiccLayer.OnBlock(c, a) == PiccLayer.OnBlock(c, b)
  {
    hide Process;
    ProcessAgrees(c.h, a, b);
  }
}
