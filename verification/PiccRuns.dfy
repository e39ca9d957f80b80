/** What the card keeps over every run of frames, from any reader. */
module PiccRuns {
  import opened Wire
  import opened Blocks
  import opened Chunking
  import opened Codings
  import opened Protocol
  import opened PiccLayer
  import Carriage
  import PcdRuns
  import ProtocolRuns
  import Crc
  import CrcTheory

  // ── Work ────────────────────────────────────────────────────────────────

  /** A frame that leaves the card running has been counted. */
  lemma FrameSpent(c: Card, t: Terms, raw: Option<seq<byte>>)
    requires c.h.limits.maxFrames < 0xFFFF && c.h.counters.frames <= c.h.limits.maxFrames
    requires var d := On(c, t, raw).0; Running(d) || d.at.Got? || d.at.Answered?
    requires Running(c)
    ensures var h := On(c, t, raw).0.h;
            h.limits == c.h.limits && h.counters.frames == c.h.counters.frames + 1 <= h.limits.maxFrames
  {
    hide Process, Transmitted, ParsedCommand, IsPps, PpsOf, PpsReply, Strip;
    if raw.Some? && ParsedCommand(t, raw.value).Ok? {
      BlockSpent(c, ParsedCommand(t, raw.value).value);
    }
  }

  lemma BlockSpent(c: Card, b: Block)
    requires c.h.limits.maxFrames < 0xFFFF && c.h.counters.frames <= c.h.limits.maxFrames
    requires Running(c)
    ensures var (d, _) := OnBlock(c, b);
            d.at.Stopped? ||
            (d.h.limits == c.h.limits && d.h.counters.frames == c.h.counters.frames + 1 <= d.h.limits.maxFrames)
  {
    hide Process;
    AnswerSpent(c.h, b);
  }

  lemma AnswerSpent(h: Handler, b: Block)
    requires h.limits.maxFrames < 0xFFFF && h.counters.frames <= h.limits.maxFrames
    ensures var (n, o) := Process(h, b);
            && n.limits == h.limits
            && (o.Ok? && !(o.value.Reply? && o.value.block.pcb.sSubtype == Some(Deselect)) ==>
                  n.counters.frames == h.counters.frames + 1 <= h.limits.maxFrames)
  {
  }

  /** After `n` frames of one call, all of them are in the frame counter. */
  lemma {:induction false} CallSpent(c: Card, t: Terms, script: Script, n: nat)
    requires c.h.limits.maxFrames < 0xFFFF && c.h.counters.frames <= c.h.limits.maxFrames
    requires n > 0 ==> Running(Run(c, t, script, n - 1))
    ensures var d := Run(c, t, script, n);
            n == 0 || d.at.Stopped?
            || (d.h.limits == c.h.limits && d.h.counters.frames == c.h.counters.frames + n <= d.h.limits.maxFrames)
    ensures c.h.counters.frames + n <= c.h.limits.maxFrames + 1
  {
    hide On;
    if n > 0 {
      var b := Run(c, t, script, n - 1);
      if n > 1 {
        RunningBefore(Run(c, t, script, n - 2), t, Scripted(script, n - 2));
      }
      CallSpent(c, t, script, n - 1);
      StepEnds(b, t, Scripted(script, n - 1));
      if !On(b, t, Scripted(script, n - 1)).0.at.Stopped? {
        FrameSpent(b, t, Scripted(script, n - 1));
      }
    }
  }

  lemma RunningBefore(c: Card, t: Terms, raw: Option<seq<byte>>)
    requires Running(On(c, t, raw).0)
    ensures Running(c)
  {
    hide OnBlock, OnPps, ParsedCommand, IsPps;
  }

  lemma StepEnds(c: Card, t: Terms, raw: Option<seq<byte>>)
    requires Running(c)
    ensures var d := On(c, t, raw).0;
            Running(d) || d.at.Got? || d.at.Answered? || d.at.Stopped?
  {
  }

  /** Whatever the reader sends, one receive_command and the send_response after it take
      in at most max_frames + 1 frames between them, PPS frames included. */
  lemma CardWork(c: Card, t: Terms, m: nat, from: Script, to: Script, d: Card, before: seq<Frame>, between: seq<Frame>,
                 data: seq<byte>, n: nat, next: Script, rest: Script, e: Card, resumed: seq<Frame>, sent: seq<Frame>)
    requires c.h.limits.maxFrames < 0xFFFF
    requires Walk(BeginReceive(c), t, m, from, to, d, before, between) && d.at.Got?
    requires Walk(BeginResponse(d, t, data).0, t, n, next, rest, e, resumed, sent)
    ensures m + n <= c.h.limits.maxFrames + 1
  {
    hide On, ChunkBlock;
    CallSpent(BeginReceive(c), t, from, m);
    assert BeginResponse(d, t, data).0.h == d.h;
    CallSpent(BeginResponse(d, t, data).0, t, next, n);
  }

  /** A call that never gets as far takes in no more. */
  lemma ReceiveWork(c: Card, t: Terms, m: nat, from: Script, to: Script, d: Card, before: seq<Frame>, sent: seq<Frame>)
    requires c.h.limits.maxFrames < 0xFFFF
    requires Walk(BeginReceive(c), t, m, from, to, d, before, sent)
    ensures m <= c.h.limits.maxFrames + 1
  {
    hide On;
    CallSpent(BeginReceive(c), t, from, m);
  }

  // ── A budget at its type's maximum ──────────────────────────────────────

  ghost predicate ReceiveBounded(c: Card, t: Terms, bound: nat) {
    forall script, n: nat :: Running(Run(BeginReceive(c), t, script, n)) ==> n <= bound
  }

  function Polls(raw: seq<byte>, n: nat): Script {
    seq(n, i => Some(raw))
  }

  lemma PolledAgain(c: Card, t: Terms, poll: Block)
    requires c.at.Listening? && c.h.role == Role.Picc && c.h.limits.maxFrames == 0xFFFF && t.fsc >= 16
    requires poll == c.h.(number := 1 - c.h.number).RNak()
    ensures var d := On(c, t, Some(Transmitted(t.hwCrc, poll))).0;
            && d.at.Listening? && d.h.role == c.h.role && d.h.limits == c.h.limits
            && d.h.number == c.h.number && d.h.cid == c.h.cid
  {
    hide Transmitted, ParsedCommand, IsPps, Parse, Encoding;
    PcdRuns.AirSize(poll);
    Carriage.CardHears(t, poll);
    Carriage.OnBlockAgrees(c, ParsedCommand(t, Transmitted(t.hwCrc, poll)).value, poll);
  }

  lemma {:induction false} PolledForever(c: Card, t: Terms, raw: seq<byte>, n: nat, k: nat)
    requires c.at.Listening? && c.h.role == Role.Picc && c.h.limits.maxFrames == 0xFFFF && t.fsc >= 16
    requires raw == Transmitted(t.hwCrc, c.h.(number := 1 - c.h.number).RNak()) && n <= k
    ensures var d := Run(c, t, Polls(raw, k), n);
            && d.at.Listening? && d.h.role == c.h.role && d.h.limits == c.h.limits
            && d.h.number == c.h.number && d.h.cid == c.h.cid
  {
    hide On, Transmitted;
    if n > 0 {
      PolledForever(c, t, raw, n - 1, k);
      var d := Run(c, t, Polls(raw, k), n - 1);
      assert d.h.(number := 1 - d.h.number).RNak() == c.h.(number := 1 - c.h.number).RNak();
      PolledAgain(d, t, d.h.(number := 1 - d.h.number).RNak());
    }
  }

  /** The frame budget bounds receive_command exactly when it is below its type's maximum:
      at the maximum, R(NAK) blocks can keep the card busy for good. */
  lemma ReceiveBoundedIff(c: Card, t: Terms)
    requires c.h.role == Role.Picc && t.fsc >= 16
    ensures (exists bound: nat :: ReceiveBounded(c, t, bound)) <==> c.h.limits.maxFrames < 0xFFFF
  {
    hide On;
    if c.h.limits.maxFrames < 0xFFFF {
      forall script, n: nat | Running(Run(BeginReceive(c), t, script, n))
        ensures n <= c.h.limits.maxFrames + 1
      {
        if n > 0 {
          RunningBefore(Run(BeginReceive(c), t, script, n - 1), t, Scripted(script, n - 1));
        }
        CallSpent(BeginReceive(c), t, script, n);
      }
      assert ReceiveBounded(c, t, c.h.limits.maxFrames + 1);
    } else {
      forall bound: nat
        ensures !ReceiveBounded(c, t, bound)
      {
        var d := BeginReceive(c);
        PolledForever(d, t, Transmitted(t.hwCrc, d.h.(number := 1 - d.h.number).RNak()), bound + 1, bound + 1);
      }
    }
  }

  // ── Sizes ───────────────────────────────────────────────────────────────

  /** The length on the air of the bytes handed to the transceiver. */
  function AirLength(hwCrc: bool, raw: seq<byte>): nat {
    |raw| + if hwCrc then 2 else 0
  }

  /** The block that Rule 11 repeats fits, if the limits allow for any repetition. */
  ghost predicate RepeatFits(c: Card, t: Terms) {
    c.lastSent.Some? && c.h.limits.maxFrames > 0 && c.h.limits.maxRetransmissions > 0 ==>
      |OnAir(c.lastSent.value)| <= t.fsd
  }

  /** The blocks the card may yet repeat fit the frame size the reader announced. */
  ghost predicate Fitting(c: Card, t: Terms) {
    && RepeatFits(c, t)
    && (c.at.Answering? ==> |OnAir(c.at.iblock)| <= t.fsd && c.at.maxInf == MaxInf(t.fsd, c.h) > 0)
  }

  lemma AirLengthOf(hwCrc: bool, b: Block)
    ensures AirLength(hwCrc, Transmitted(hwCrc, b)) == |OnAir(b)|
  {
    hide Encoding;
  }

  lemma ChunkFits(c: Card, data: seq<byte>, offset: nat, size: nat)
    requires MaxInf(size, c.h) > 0
    ensures |OnAir(ChunkBlock(c.h, data, offset, MaxInf(size, c.h)))| <= size
  {
    PcdRuns.AirSize(ChunkBlock(c.h, data, offset, MaxInf(size, c.h)));
  }

  lemma BlockFits(c: Card, t: Terms, b: Block)
    requires Fitting(c, t) && t.fsd >= 16 && Running(c)
    ensures var (d, reply) := OnBlock(c, b);
            Fitting(d, t) && (reply.Some? ==> |OnAir(reply.value)| <= t.fsd)
  {
    hide Process, OnAir;
    PcdRuns.ReplyIsShort(c.h, b);
    ProtocolRuns.ProcessKeepsSession(c.h, b);
    RepetitionIsAllowed(c.h, b);
    var (n, o) := Process(c.h, b);
    if o.Ok? && o.value.Reply? {
      PcdRuns.AirSize(o.value.block);
    }
    if c.at.Answering? {
      ChunkFits(c.(h := n), c.at.data, c.at.end, t.fsd);
    }
  }

  lemma RepetitionIsAllowed(h: Handler, b: Block)
    ensures Process(h, b).1 == Ok(ChainingRetransmit) ==> h.limits.maxFrames > 0 && h.limits.maxRetransmissions > 0
  {
  }

  lemma FrameFits(c: Card, t: Terms, raw: Option<seq<byte>>)
    requires Fitting(c, t) && t.fsd >= 16
    ensures var (d, reply) := On(c, t, raw);
            Fitting(d, t) && (reply.Some? ==> AirLength(t.hwCrc, reply.value) <= t.fsd)
  {
    hide OnBlock, Transmitted, ParsedCommand, OnAir, IsPps, PpsOf, Strip;
    if Running(c) && raw.Some? && ParsedCommand(t, raw.value).Ok? {
      var b := ParsedCommand(t, raw.value).value;
      BlockFits(c, t, b);
      if OnBlock(c, b).1.Some? {
        AirLengthOf(t.hwCrc, OnBlock(c, b).1.value);
      }
    }
  }

  lemma {:induction false} RunFits(c: Card, t: Terms, script: Script, n: nat)
    requires Fitting(c, t) && t.fsd >= 16
    ensures Fitting(Run(c, t, script, n), t)
  {
    hide On, OnAir;
    if n > 0 {
      RunFits(c, t, script, n - 1);
      FrameFits(Run(c, t, script, n - 1), t, Scripted(script, n - 1));
    }
  }

  /** No frame of the call is longer than the FSD. */
  ghost predicate FitsFsd(c: Card, t: Terms) {
    forall script, n: nat ::
      var reply := On(Run(c, t, script, n), t, Scripted(script, n)).1;
      reply.Some? ==> AirLength(t.hwCrc, reply.value) <= t.fsd
  }

  /** Every frame of receive_command fits the FSD exactly when the block sent last does, or
      the limits allow for no repetition. An activation leaves that block in place, whatever
      FSD it announces. */
  lemma ReceiveFitsIff(c: Card, t: Terms)
    requires c.h.role == Role.Picc && t.fsd >= 16 && t.fsc >= 16
    ensures FitsFsd(BeginReceive(c), t) <==> RepeatFits(c, t)
  {
    hide On, OnAir;
    if RepeatFits(c, t) {
      forall script, n: nat
        ensures var reply := On(Run(BeginReceive(c), t, script, n), t, Scripted(script, n)).1;
                reply.Some? ==> AirLength(t.hwCrc, reply.value) <= t.fsd
      {
        RunFits(BeginReceive(c), t, script, n);
        FrameFits(Run(BeginReceive(c), t, script, n), t, Scripted(script, n));
      }
    } else {
      var raw := Transmitted(t.hwCrc, c.h.RAck());
      LastSentAgain(BeginReceive(c), t, c.h.RAck());
      AirLengthOf(t.hwCrc, c.lastSent.value);
      var script: Script := [Some(raw)];
      assert Run(BeginReceive(c), t, script, 0) == BeginReceive(c) && Scripted(script, 0) == Some(raw);
      assert !FitsFsd(BeginReceive(c), t);
    }
  }

  lemma LastSentAgain(c: Card, t: Terms, ask: Block)
    requires c.at.Listening? && c.h.role == Role.Picc && c.h.counters == NO_COUNTS && c.lastSent.Some? && t.fsc >= 16
    requires c.h.limits.maxFrames > 0 && c.h.limits.maxRetransmissions > 0
    requires ask == c.h.RAck()
    ensures On(c, t, Some(Transmitted(t.hwCrc, ask))).1 == Some(Transmitted(t.hwCrc, c.lastSent.value))
    ensures On(c, t, Some(Transmitted(t.hwCrc, ask))).0.at.Listening?
  {
    hide Transmitted, ParsedCommand, IsPps, Parse, Encoding;
    PcdRuns.AirSize(ask);
    Carriage.CardHears(t, ask);
    Carriage.OnBlockAgrees(c, ParsedCommand(t, Transmitted(t.hwCrc, ask)).value, ask);
  }

  /** Every frame of send_response fits. */
  lemma ResponseFits(c: Card, t: Terms, data: seq<byte>, script: Script, n: nat)
    requires t.fsd >= 16
    ensures var (d, first) := BeginResponse(c, t, data);
            && first.Some? && |OnAir(first.value)| <= t.fsd
            && var reply := On(Run(d, t, script, n), t, Scripted(script, n)).1;
               reply.Some? ==> AirLength(t.hwCrc, reply.value) <= t.fsd
  {
    hide On, OnAir, Run;
    ChunkFits(c, data, 0, t.fsd);
    var d := BeginResponse(c, t, data).0;
    RunFits(d, t, script, n);
    FrameFits(Run(d, t, script, n), t, Scripted(script, n));
  }

  /** A chunk of the response that is not the last fills its frame. */
  lemma ChainedFramesAreFull(c: Card, data: seq<byte>, offset: nat, size: nat)
    requires MaxInf(size, c.h) > 0
    ensures var first := SendFrom(c, data, MaxInf(size, c.h), offset).1;
            first.Some? && (first.value.pcb.chaining ==> |OnAir(first.value)| == size)
  {
    hide OnAir;
    PcdRuns.AirSize(ChunkBlock(c.h, data, offset, MaxInf(size, c.h)));
  }

  // ── What the card takes ─────────────────────────────────────────────────

  /** A frame that is no PPS request and exceeds the FSC on the air ends the call, whatever
      is in it and whoever does the CRC; nothing of it is taken in. */
  lemma OverlongStops(c: Card, t: Terms, raw: seq<byte>)
    requires Running(c) && |raw| + (if t.hwCrc then 2 else 0) > t.fsc
    requires c.at.Listening? && raw != [] ==> raw[0] & 0xF0 != 0xD0
    ensures On(c, t, Some(raw)) == (c.(at := Stopped(ProtocolError(LimitExceeded(FrameSize)))), None)
  {
  }

  /** A frame that is damaged within sixteen consecutive bits ends the call of a card that
      checks the CRC itself; nothing of it is taken in. */
  lemma DamagedStops(c: Card, t: Terms, frame: seq<byte>, damaged: seq<byte>, start: nat)
    requires Running(c) && !t.hwCrc && Next16(c.h.counters.frames) <= c.h.limits.maxFrames
    requires CrcTheory.Accepts(frame) && CrcTheory.BurstApart(frame, damaged, start) && frame != damaged
    ensures var (d, reply) := On(c, t, Some(damaged));
            && d.at.Stopped? && reply == None && d.lastSent == c.lastSent
            && d.h == c.h.(counters := d.h.counters)
  {
    hide Crc.Split, Process, IsPps;
    CrcTheory.BurstDetected(frame, damaged, start);
  }

  /** Three bytes of a frame are control byte and CRC. */
  lemma PayloadFits(t: Terms, raw: seq<byte>)
    requires ParsedCommand(t, raw).Ok?
    ensures |ParsedCommand(t, raw).value.payload| <= t.fsc - 3
  {
    hide PcbOf, Crc.Epilogue, Crc.CrcOf;
  }

  lemma ChainGrows(h: Handler, b: Block)
    ensures var (n, o) := Process(h, b);
            && |n.chain| <= |h.chain| + |b.payload|
            && (o.Ok? && o.value.Complete? ==> |o.value.data| <= |h.chain| + |b.payload|)
  {
  }

  lemma StepGrows(c: Card, t: Terms, raw: Option<seq<byte>>)
    requires t.fsc >= 16
    ensures var d := On(c, t, raw).0;
            && |d.h.chain| <= |c.h.chain| + t.fsc - 3
            && (Running(c) && d.at.Got? ==> |d.at.data| <= |c.h.chain| + t.fsc - 3)
  {
    hide Process, ParsedCommand, Transmitted, IsPps, PpsOf, PpsReply, Strip, ChunkBlock;
    if Running(c) && raw.Some? && ParsedCommand(t, raw.value).Ok? {
      PayloadFits(t, raw.value);
      ChainGrows(c.h, ParsedCommand(t, raw.value).value);
    }
  }

  lemma {:induction false} GatheredFits(c: Card, t: Terms, script: Script, n: nat)
    requires t.fsc >= 16 && c.h.chain == [] && Running(c)
    ensures var d := Run(c, t, script, n);
            && |d.h.chain| <= n * (t.fsc - 3)
            && (d.at.Got? ==> |d.at.data| <= n * (t.fsc - 3))
  {
    hide On;
    if n > 0 {
      GatheredFits(c, t, script, n - 1);
      var d := Run(c, t, script, n - 1);
      assert n * (t.fsc - 3) == (n - 1) * (t.fsc - 3) + (t.fsc - 3);
      if Running(d) {
        StepGrows(d, t, Scripted(script, n - 1));
      } else {
        NotRunningStays(d, t, Scripted(script, n - 1));
      }
    }
  }

  /** Whatever the reader sends, `n` frames bring no more than n * (FSC - 3) bytes. */
  lemma ReceivedFits(c: Card, t: Terms, n: nat, from: Script, to: Script, d: Card, before: seq<Frame>, sent: seq<Frame>)
    requires t.fsc >= 16 && Walk(BeginReceive(c), t, n, from, to, d, before, sent) && d.at.Got?
    ensures |d.at.data| <= n * (t.fsc - 3)
  {
    hide On;
    GatheredFits(BeginReceive(c), t, from, n);
  }

  /** A PPS request is answered with its own start byte, and counts for one frame. */
  lemma PpsIsAnswered(c: Card, t: Terms, data: seq<byte>)
    requires c.at.Listening? && data != [] && data[0] & 0xF0 == 0xD0 && PpsOf(data).Ok?
    requires Next16(c.h.counters.frames) <= c.h.limits.maxFrames
    ensures On(c, t, Some(Crc.Sealed(t.hwCrc, data)))
         == (c.(h := c.h.(counters := c.h.counters.(frames := Next16(c.h.counters.frames)))),
             Some(Crc.Sealed(t.hwCrc, [data[0]])))
  {
    hide PpsOf, Crc.Split, Crc.Append;
    var raw := Crc.Sealed(t.hwCrc, data);
    Crc.SplitOfAppend(data);
    FirstByte(data);
    StartByte(data);
  }

  lemma FirstByte(data: seq<byte>)
    requires data != []
    ensures Crc.Append(data) != [] && Crc.Append(data)[0] == data[0]
  {
  }

  lemma StartByte(data: seq<byte>)
    requires data != [] && data[0] & 0xF0 == 0xD0 && PpsOf(data).Ok?
    ensures PpsStart(PpsOf(data).value.cid) == data[0]
  {
    StartByteBits(data[0]);
  }

  lemma StartByteBits(b: byte)
    requires b & 0xF0 == 0xD0
    ensures 0xD0 + (b & 0x0f) == b
  {
  }

  /** An R(ACK) that releases a chunk ends a call that has none to release. */
  lemma StrayAckStops(c: Card, b: Block)
    requires c.at.Listening? && c.h.role == Role.Picc && Next16(c.h.counters.frames) <= c.h.limits.maxFrames
    requires b.pcb.blockType == RBlock && b.pcb.rSubtype == Some(Ack) && b.pcb.number != c.h.number
    ensures var (d, reply) := OnBlock(c, b);
            d.at == Stopped(ProtocolError(Other)) && reply == None && d.lastSent == c.lastSent
  {
  }

  /** A whole command ends a call that is answering the one before. */
  lemma StrayCommandStops(c: Card, b: Block)
    requires c.at.Answering? && c.h.role == Role.Picc && Next16(c.h.counters.frames) <= c.h.limits.maxFrames
    requires b.pcb.blockType == IBlock && !b.pcb.chaining && b.pcb.number != c.h.number
    requires |c.h.chain| + |b.payload| <= c.h.limits.maxChainLen
    ensures var (d, reply) := OnBlock(c, b);
            d.at == Stopped(ProtocolError(Other)) && reply == None && d.lastSent == c.lastSent
  {
  }

  /** S(DESELECT) is answered at any time, and halts the card. */
  lemma DeselectHalts(c: Card, b: Block)
    requires Running(c) && Next16(c.h.counters.frames) <= c.h.limits.maxFrames
    requires b.pcb.blockType == SBlock && b.pcb.sSubtype == Some(Deselect)
    ensures var (d, reply) := OnBlock(c, b);
            && d.halted && d.at == Stopped(Deselected)
            && reply.Some? && d.lastSent == reply
            && reply.value.pcb.blockType == SBlock && reply.value.pcb.sSubtype == Some(Deselect)
            && reply.value.cid == c.h.cid && reply.value.payload == []
  {
  }

  /** Nothing else does. */
  lemma OnlyDeselectHalts(c: Card, b: Block)
    requires !(b.pcb.blockType == SBlock && b.pcb.sSubtype == Some(Deselect))
    ensures OnBlock(c, b).0.halted == c.halted
  {
  }

  // ── Chunks ──────────────────────────────────────────────────────────────

  /** In one call of send_response the card moves on through the response, or stays with
      the chunk and the block it is on. */
  lemma AnsweringStep(c: Card, t: Terms, raw: Option<seq<byte>>)
    requires c.at.Answering? && c.at.maxInf > 0
    ensures var d := On(c, t, raw).0;
            match d.at
            case Answering(data, maxInf, end, iblock) =>
              d.at == c.at
              || (data == c.at.data && maxInf == c.at.maxInf && end == c.at.end + c.at.maxInf < |data|)
            case Answered => c.at.end + c.at.maxInf >= |c.at.data|
            case Listening => false
            case Got(_) => false
            case Stopped(_) => true
  {
    hide Process, ParsedCommand, Transmitted;
  }

  lemma {:induction false} StaysOnChunk(c: Card, t: Terms, script: Script, n: nat)
    requires c.at.Answering? && c.at.maxInf > 0
    ensures var d := Run(c, t, script, n);
            && (d.at.Answering? || d.at.Answered? || d.at.Stopped?)
            && (d.at.Answering? ==> d.at.maxInf == c.at.maxInf && (d.at == c.at || d.at.end > c.at.end))
  {
    hide On;
    if n > 0 {
      StaysOnChunk(c, t, script, n - 1);
      var d := Run(c, t, script, n - 1);
      if d.at.Answering? {
        AnsweringStep(d, t, Scripted(script, n - 1));
      } else {
        NotRunningStays(d, t, Scripted(script, n - 1));
      }
    }
  }

  lemma NotRunningStays(c: Card, t: Terms, raw: Option<seq<byte>>)
    requires !Running(c)
    ensures On(c, t, raw) == (c, None)
  {
  }

  /** Until it is acknowledged, a chunk that is asked for again goes out as it did first,
      whatever the card has sent in between. */
  lemma ChunkIsResent(c: Card, t: Terms, script: Script, n: nat, b: Block)
    requires c.at.Answering? && c.at.maxInf > 0
    requires var d := Run(c, t, script, n);
             d.at.Answering? && d.at.end == c.at.end && Reads(d.h.role, d.h.number, b) == AskedAgain
    ensures var (e, reply) := OnBlock(Run(c, t, script, n), b);
            e.at.Stopped? || (reply == Some(c.at.iblock) && e.at == c.at)
  {
    hide On, Run;
    StaysOnChunk(c, t, script, n);
    AskedAgainRetransmits(Run(c, t, script, n).h, b);
    hide Process;
  }

  lemma AskedAgainRetransmits(h: Handler, b: Block)
    requires Reads(h.role, h.number, b) == AskedAgain
    ensures Process(h, b).1.Ok? ==> Process(h, b).1.value == ChainingRetransmit
  {
  }

  /** The chunk the card moves on to in one step. */
  ghost function ReleasedIn(c: Card, d: Card): seq<seq<byte>> {
    if c.at.Answering? && ((d.at.Answering? && d.at.end != c.at.end) || d.at.Answered?)
    then [Chunk(c.at.data, c.at.end, c.at.maxInf)] else []
  }

  ghost function Released(c: Card, t: Terms, script: Script, n: nat): seq<seq<byte>> {
    if n == 0 then []
    else Released(c, t, script, n - 1) + ReleasedIn(Run(c, t, script, n - 1), Run(c, t, script, n))
  }

  lemma ReleaseStep(c: Card, d: Card)
    requires c.at.Answering? && c.at.maxInf > 0 && c.at.end < |c.at.data|
    requires match d.at
             case Answering(data, maxInf, end, iblock) =>
               d.at == c.at || (data == c.at.data && maxInf == c.at.maxInf && end == c.at.end + c.at.maxInf < |data|)
             case Answered => c.at.end + c.at.maxInf >= |c.at.data|
             case _ => true
    ensures d.at.Answering? ==>
              ReleasedIn(c, d) + Chunks(d.at.data[d.at.end..], d.at.maxInf)
              == Chunks(c.at.data[c.at.end..], c.at.maxInf)
    ensures d.at.Answered? ==> ReleasedIn(c, d) == Chunks(c.at.data[c.at.end..], c.at.maxInf)
  {
    var rest, m := c.at.data[c.at.end..], c.at.maxInf;
    assert Chunk(c.at.data, c.at.end, m) == Chunks(rest, m)[0];
    if c.at.end + m < |c.at.data| {
      assert rest[m..] == c.at.data[c.at.end + m..];
    }
  }

  lemma {:induction false} ReleasesRest(c: Card, t: Terms, script: Script, n: nat)
    requires c.at.Answering? && c.at.maxInf > 0 && c.at.end < |c.at.data|
    ensures var d, all := Run(c, t, script, n), Chunks(c.at.data[c.at.end..], c.at.maxInf);
            match d.at
            case Answering(data, maxInf, end, _) =>
              data == c.at.data && maxInf == c.at.maxInf && end < |data|
              && Released(c, t, script, n) + Chunks(data[end..], maxInf) == all
            case Answered => Released(c, t, script, n) == all
            case Stopped(_) => true
            case _ => false
  {
    hide On, Chunks, ReleasedIn;
    if n > 0 {
      ReleasesRest(c, t, script, n - 1);
      var d, e := Run(c, t, script, n - 1), Run(c, t, script, n);
      if d.at.Answering? {
        AnsweringStep(d, t, Scripted(script, n - 1));
        ReleaseStep(d, e);
      } else {
        NotRunningStays(d, t, Scripted(script, n - 1));
        NothingReleased(d, e);
      }
    }
  }

  lemma NothingReleased(c: Card, d: Card)
    requires !c.at.Answering?
    ensures ReleasedIn(c, d) == []
  {
  }

  /** Once send_response has returned, the chunks it moved on through are the response in
      as few chunks as fit, the first of them sent at once. */
  lemma ResponseIsChunked(c: Card, t: Terms, data: seq<byte>, script: Script, n: nat)
    requires MaxInf(t.fsd, c.h) > 0
    ensures var (d, first) := BeginResponse(c, t, data);
            var e := Run(d, t, script, n);
            && first.Some?
            && (e.at.Answered? ==>
                  [first.value.payload] + Released(d, t, script, n) == Chunks(data, MaxInf(t.fsd, c.h)))
  {
    hide On;
    var m := MaxInf(t.fsd, c.h);
    var d := BeginResponse(c, t, data).0;
    if m < |data| {
      ReleasesRest(d, t, script, n);
    } else {
      NeverReleases(d, t, script, n);
      assert data[0..|data|] == data;
    }
  }

  lemma {:induction false} NeverReleases(c: Card, t: Terms, script: Script, n: nat)
    requires !Running(c)
    ensures Run(c, t, script, n) == c && Released(c, t, script, n) == []
  {
    if n > 0 {
      NeverReleases(c, t, script, n - 1);
    }
  }
}
