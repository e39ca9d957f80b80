/**
 The card (PICC) side: activation, RATS and APDU exchange.

 `Card` is the block protocol as a machine that reacts to one received frame per step.
 The class is the session as the program has it, and its loops are proved to walk this
 machine.
 */
module PiccLayer {
  import opened Wire
  import opened Blocks
  import opened Chunking
  import opened Codings
  import opened Protocol
  import opened Commands
  import opened Uids
  import AnswerToSelect
  import Crc

  datatype PiccError = TransceiverError | ProtocolError(error: TypeAError) | Deselected

  /** What the session fixed: who does the CRC, the largest frame this card accepts and
      the largest frame the PCD accepts. */
  datatype Terms = Terms(hwCrc: bool, fsc: nat, fsd: nat)

  /** Where the program is. */
  datatype Progress =
    | Listening                                                         // receive_command waits for a frame
    | Got(data: seq<byte>)                                              // receive_command has returned an APDU
    | Answering(data: seq<byte>, maxInf: nat, end: nat, iblock: Block)  // send_response waits for an acknowledgement
    | Answered                                                          // send_response has returned
    | Stopped(error: PiccError)                                         // the call has failed

  datatype Card = Card(h: Handler, lastSent: Option<Block>, halted: bool, at: Progress) {
    function Stop(e: PiccError): Card {
      this.(at := Stopped(e))
    }
  }

  // ── The machine, block by block ─────────────────────────────────────────

  function BeginReceive(c: Card): Card {
    c.(h := c.h.BeginExchange(), at := Listening)
  }

  /** Sends a block: it is what a PCD that missed it asks for again. */
  function Say(c: Card, b: Block): (Card, Option<Block>) {
    (c.(lastSent := Some(b)), Some(b))
  }

  function SendFrom(c: Card, data: seq<byte>, maxInf: nat, offset: nat): (Card, Option<Block>) {
    var iblock := ChunkBlock(c.h, data, offset, maxInf);
    Say(c.(at := if offset + maxInf < |data| then Answering(data, maxInf, offset + maxInf, iblock) else Answered),
        iblock)
  }

  function BeginResponse(c: Card, t: Terms, data: seq<byte>): (Card, Option<Block>) {
    var maxInf := MaxInf(t.fsd, c.h);
    if maxInf == 0 then (c.Stop(ProtocolError(Other)), None) else SendFrom(c, data, maxInf, 0)
  }

  /** An answer the handler asks for; after S(DESELECT) the session is over. */
  function SayReply(c: Card, reply: Block): (Card, Option<Block>) {
    if reply.pcb.sSubtype == Some(Deselect)
    then Say(c.Stop(Deselected).(halted := true), reply)
    else Say(c, reply)
  }

  function OnCommand(c: Card, b: Block): (Card, Option<Block>) {
    var (n, outcome) := Process(c.h, b);
    var d := c.(h := n);
    match outcome
    case Err(e) => (d.Stop(ProtocolError(e)), None)
    case Ok(Complete(data)) => (d.(at := Got(data)), None)
    case Ok(Reply(reply)) => SayReply(d, reply)
    case Ok(ChainingRetransmit) =>
      if d.lastSent.Some? then Say(d, d.lastSent.value) else (d.Stop(ProtocolError(Other)), None)
    case Ok(ChainingAck) => (d.Stop(ProtocolError(Other)), None)
  }

  function OnAck(c: Card, b: Block): (Card, Option<Block>)
    requires c.at.Answering?
  {
    var (n, outcome) := Process(c.h, b);
    var d := c.(h := n);
    match outcome
    case Err(e) => (d.Stop(ProtocolError(e)), None)
    case Ok(ChainingAck) => SendFrom(d, c.at.data, c.at.maxInf, c.at.end)
    case Ok(ChainingRetransmit) => Say(d, c.at.iblock)
    case Ok(Reply(reply)) => SayReply(d, reply)
    case Ok(Complete(_)) => (d.Stop(ProtocolError(Other)), None)
  }

  function OnBlock(c: Card, b: Block): (Card, Option<Block>) {
    match c.at
    case Listening => OnCommand(c, b)
    case Answering(_, _, _, _) => OnAck(c, b)
    case _ => (c, None)
  }

  // ── The machine, frame by frame ─────────────────────────────────────────

  /** The data of a standard frame. */
  function Strip(hwCrc: bool, raw: seq<byte>): Result<seq<byte>, TypeAError> {
    if hwCrc then Ok(raw) else Crc.Split(raw)
  }

  function ParsedCommand(t: Terms, raw: seq<byte>): Result<Block, TypeAError> {
    if |raw| + (if t.hwCrc then 2 else 0) > t.fsc then Err(LimitExceeded(FrameSize)) else
      var data :- Strip(t.hwCrc, raw);
      Blocks.Parse(data)
  }

  function PpsReply(hwCrc: bool, p: PpsParam): seq<byte> {
    Crc.Sealed(hwCrc, [PpsStart(p.cid)])
  }

  /** PPS is answered outside the block layer, but counts against the frame budget. */
  function OnPps(c: Card, t: Terms, raw: seq<byte>): (Card, Option<seq<byte>>) {
    var (n, noted) := NoteFrame(c.h);
    var d := c.(h := n);
    if noted.Err? then (d.Stop(ProtocolError(noted.error)), None) else
      var data := Strip(t.hwCrc, raw);
      if data.Err? then (d.Stop(ProtocolError(data.error)), None) else
        var pps := PpsOf(data.value);
        if pps.Err? then (d.Stop(ProtocolError(pps.error)), None)
        else (d, Some(PpsReply(t.hwCrc, pps.value)))
  }

  predicate Running(c: Card) {
    c.at.Listening? || c.at.Answering?
  }

  /** One received frame: the new state and the bytes sent back. */
  function On(c: Card, t: Terms, raw: Option<seq<byte>>): (Card, Option<seq<byte>>) {
    if !Running(c) then (c, None)
    else if raw.None? then (c.Stop(TransceiverError), None)
    else if c.at.Listening? && IsPps(raw.value) then OnPps(c, t, raw.value)
    else
      var parsed := ParsedCommand(t, raw.value);
      if parsed.Err? then (c.Stop(ProtocolError(parsed.error)), None) else
        var (d, reply) := OnBlock(c, parsed.value);
        (d, if reply.Some? then Some(Transmitted(t.hwCrc, reply.value)) else None)
  }

  /** The machine after the first `n` frames of a script. */
  function Run(c: Card, t: Terms, script: Script, n: nat): Card {
    if n == 0 then c else On(Run(c, t, script, n - 1), t, Scripted(script, n - 1)).0
  }

  function BlockFrame(hwCrc: bool, b: Option<Block>): seq<Frame> {
    if b.Some? then [Standard(Transmitted(hwCrc, b.value))] else []
  }

  function Answers(reply: Option<seq<byte>>): seq<Frame> {
    if reply.Some? then [Standard(reply.value)] else []
  }

  /** The frames it sends on the way. */
  function Sent(c: Card, t: Terms, script: Script, n: nat): seq<Frame> {
    if n == 0 then []
    else Sent(c, t, script, n - 1) + Answers(On(Run(c, t, script, n - 1), t, Scripted(script, n - 1)).1)
  }

  lemma OnAnswering(c: Card, t: Terms, raw: Option<seq<byte>>)
    requires c.at.Answering?
    ensures raw.None? ==> On(c, t, raw) == (c.Stop(TransceiverError), None)
    ensures raw.Some? && ParsedCommand(t, raw.value).Err? ==>
              On(c, t, raw) == (c.Stop(ProtocolError(ParsedCommand(t, raw.value).error)), None)
    ensures raw.Some? && ParsedCommand(t, raw.value).Ok? ==>
              var (d, reply) := OnAck(c, ParsedCommand(t, raw.value).value);
              On(c, t, raw).0 == d && Answers(On(c, t, raw).1) == BlockFrame(t.hwCrc, reply)
  {
    hide Process, Transmitted, ParsedCommand, IsPps;
  }

  lemma OnListening(c: Card, t: Terms, raw: Option<seq<byte>>)
    requires c.at.Listening?
    ensures raw.None? ==> On(c, t, raw) == (c.Stop(TransceiverError), None)
    ensures raw.Some? && IsPps(raw.value) ==> On(c, t, raw) == OnPps(c, t, raw.value)
    ensures raw.Some? && !IsPps(raw.value) && ParsedCommand(t, raw.value).Err? ==>
              On(c, t, raw) == (c.Stop(ProtocolError(ParsedCommand(t, raw.value).error)), None)
    ensures raw.Some? && !IsPps(raw.value) && ParsedCommand(t, raw.value).Ok? ==>
              var (d, reply) := OnCommand(c, ParsedCommand(t, raw.value).value);
              On(c, t, raw).0 == d && Answers(On(c, t, raw).1) == BlockFrame(t.hwCrc, reply)
  {
    hide Process, Transmitted, ParsedCommand, IsPps, PpsOf, PpsReply, Strip;
  }

  /** The `n` frames off the script `from` bring the machine from `c` to `d` and leave the
      script `to`; it runs until the last of them, and answers after the frames `before`. */
  ghost predicate Walk(c: Card, t: Terms, n: nat, from: Script, to: Script, d: Card,
                       before: seq<Frame>, sent: seq<Frame>)
  {
    && d == Run(c, t, from, n)
    && to == Unread(from, n)
    && sent == before + Sent(c, t, from, n)
    && (n > 0 ==> Running(Run(c, t, from, n - 1)))
  }

  lemma WalkNone(c: Card, t: Terms, script: Script, sent: seq<Frame>)
    ensures Walk(c, t, 0, script, script, c, sent, sent)
  {
  }

  lemma WalkNext(c: Card, t: Terms, n: nat, from: Script, via: Script, d: Card,
                 before: seq<Frame>, between: seq<Frame>)
    requires Walk(c, t, n, from, via, d, before, between) && Running(d)
    ensures var (e, reply) := On(d, t, Scripted(via, 0));
            && Walk(c, t, n + 1, from, Unread(via, 1), e, before, between + Answers(reply))
            && (reply == None ==> between + Answers(reply) == between)
    ensures Scripted(via, 0).Some? ==> |Unread(via, 1)| < |via|
  {
    hide On;
    assert Scripted(via, 0) == Scripted(from, n);
  }

  lemma WalkOn(c: Card, t: Terms, m: nat, n: nat, from: Script, via: Script, to: Script, d: Card, e: Card,
               before: seq<Frame>, between: seq<Frame>, sent: seq<Frame>)
    requires Walk(c, t, m, from, via, d, before, between)
    requires Walk(d, t, n, via, to, e, between, sent)
    ensures Walk(c, t, m + n, from, to, e, before, sent)
  {
    hide On, Run, Sent, Running;
    RunConcat(c, t, from, m, n);
    UnreadFurther(from, m, n);
    if n > 0 {
      RunConcat(c, t, from, m, n - 1);
    }
  }

  lemma {:induction false} RunConcat(c: Card, t: Terms, script: Script, m: nat, n: nat)
    ensures Run(c, t, script, m + n) == Run(Run(c, t, script, m), t, Unread(script, m), n)
    ensures Sent(c, t, script, m + n) == Sent(c, t, script, m) + Sent(Run(c, t, script, m), t, Unread(script, m), n)
  {
    hide On, Answers, Scripted, Unread;
    if n > 0 {
      RunConcat(c, t, script, m, n - 1);
      UnreadFurther(script, m, n - 1);
    }
  }

  lemma UnreadFurther(script: Script, m: nat, n: nat)
    ensures Unread(Unread(script, m), n) == Unread(script, m + n)
    ensures Scripted(Unread(script, m), n) == Scripted(script, m + n)
  {
  }

  // ── Activation ──────────────────────────────────────────────────────────

  /** Who the card is; with an ATS it does ISO/IEC 14443-4. */
  datatype Config = Config(uid: Uid, slots: Slots, ats: Option<AnswerToSelect.Ats>) {
    function Atqa(): AtqA {
      AtqA(SizeOfUid(uid), slots, 0)
    }

    function Fsc(): nat {
      if ats.Some? then SizeOf(ats.value.format.fsci) else 256
    }
  }

  datatype PiccState = Idle | Ready(cascadeLevel: nat) | Active | InProtocol | Halted

  /** What a received frame does: the next state, and the frame sent back. */
  datatype Reaction = Reaction(state: PiccState, reply: Option<Frame>)

  function OnIdle(c: Config, raw: seq<byte>): Reaction {
    if raw == [0x26] || raw == [0x52] then Reaction(Ready(0), Some(Short(AtqaBytes(c.Atqa()))))
    else Reaction(Idle, None)
  }

  predicate LastLevel(c: Config, level: nat) {
    level + 1 >= Levels(c.uid)
  }

  /** Anticollision and SELECT at one level; any other frame is ignored. The UID in a
      SELECT is not looked at. */
  function OnReady(c: Config, hwCrc: bool, level: nat, raw: seq<byte>): Result<Reaction, TypeAError> {
    if |raw| < 2 then Ok(Reaction(Ready(level), None))
    else if level > 2 then Err(Other)
    else if raw[0] != Sel(level) then Ok(Reaction(Ready(level), None))
    else if |raw| == 2 then
      var part :- LevelBytes(c.uid, level);
      Ok(Reaction(Ready(level), Some(BitOriented(part))))
    else if raw[1] == NVB_SELECT then
      var data :- Strip(hwCrc, raw);
      if |data| != 7 then Ok(Reaction(Ready(level), None)) else
        var sak := Sak(LastLevel(c, level), c.ats.Some?);
        Ok(Reaction(if LastLevel(c, level) then Active else Ready(level + 1),
                    Some(Standard(Crc.Sealed(hwCrc, [SakByte(sak)])))))
    else Ok(Reaction(Ready(level), None))
  }

  /** One frame while the card waits for activation. */
  function OnWaiting(c: Config, hwCrc: bool, state: PiccState, raw: seq<byte>): Result<Reaction, TypeAError> {
    match state
    case Idle => Ok(OnIdle(c, raw))
    case Ready(level) => OnReady(c, hwCrc, level, raw)
    case Halted =>
      if raw == [0x52] then Ok(Reaction(Ready(0), Some(Short(AtqaBytes(c.Atqa()))))) else Ok(Reaction(Halted, None))
    case _ => Ok(Reaction(state, None))
  }

  function Said(reply: Option<Frame>): seq<Frame> {
    if reply.Some? then [reply.value] else []
  }

  /** Waiting for activation off a script: the state it ends in, why it failed if it did,
      the frames sent and what is left of the script. */
  datatype Wait = Wait(state: PiccState, error: Option<PiccError>, sent: seq<Frame>, rest: Script)

  /** Waiting goes on in `state`, the frames `sent` having gone out. */
  function Waits(c: Config, hwCrc: bool, state: PiccState, script: Script, sent: seq<Frame>): Wait
    decreases |script|
  {
    if script == [] || script[0].None? then Wait(state, Some(TransceiverError), sent, Unread(script, 1))
    else
      var r := OnWaiting(c, hwCrc, state, script[0].value);
      if r.Err? then Wait(state, Some(ProtocolError(r.error)), sent, Unread(script, 1))
      else if r.value.state == Active then Wait(Active, None, sent + Said(r.value.reply), Unread(script, 1))
      else Waits(c, hwCrc, r.value.state, Unread(script, 1), sent + Said(r.value.reply))
  }

  lemma WaitingStates(c: Config, hwCrc: bool, state: PiccState, raw: seq<byte>)
    requires state.Idle? || state.Ready?
    ensures var r := OnWaiting(c, hwCrc, state, raw);
            r.Ok? ==> r.value.state.Idle? || r.value.state.Ready? || r.value.state.Active?
  {
    hide AtqaBytes, SakByte, LevelBytes, Strip;
  }

  /** What RATS settles. */
  datatype Settled = Settled(state: PiccState, fsd: nat, h: Handler)

  predicate CidSupported(c: Config) {
    c.ats.Some? && c.ats.value.tc & AnswerToSelect.CID_SUPPORTED != 0
  }

  /** RATS or HLTA; any other frame is ignored. A card without CID support never uses the
      one proposed. */
  function OnActive(c: Config, hwCrc: bool, s: Settled, raw: seq<byte>)
    : (Settled, Option<Frame>, Result<(), TypeAError>)
  {
    if raw == [] then (s, None, Ok(()))
    else if raw[0] == 0xe0 then
      var data := Strip(hwCrc, raw);
      if data.Err? then (s, None, Err(data.error))
      else if |data.value| != 2 || data.value[0] != 0xe0 then (s, None, Err(InvalidLength))
      else
        var rats := RatsOf(data.value[1]);
        if rats.Err? then (s, None, Err(rats.error)) else
          var cid := if CidSupported(c) then Some(rats.value.cid) else None;
          var n := Settled(s.state, SizeOf(rats.value.fsdi), Handler(Role.Picc, cid, 1, [], s.h.limits, NO_COUNTS));
          if c.ats.None? then (n, None, Err(Other))
          else (n.(state := InProtocol), Some(Standard(Crc.Sealed(hwCrc, AnswerToSelect.Print(c.ats.value)))), Ok(()))
    else if raw[0] == 0x50 then
      var data := Strip(hwCrc, raw);
      if data.Err? then (s, None, Err(data.error))
      else (if data.value == [0x50, 0x00] then s.(state := Halted) else s, None, Ok(()))
    else (s, None, Ok(()))
  }

  // ── The session ─────────────────────────────────────────────────────────

  /** The transceiver: it receives from a script and fails once that has run out. */
  class PiccTransceiver {
    var receives: Script
    ghost var sent: seq<Frame>

    constructor (receives: Script)
      ensures this.receives == receives && sent == []
    {
      this.receives := receives;
      sent := [];
    }

    method Receive() returns (r: Option<seq<byte>>)
      modifies this
      ensures sent == old(sent)
      ensures r == Scripted(old(receives), 0)
      ensures receives == Unread(old(receives), 1)
    {
      if |receives| == 0 {
        return None;
      }
      r := receives[0];
      receives := receives[1..];
    }

    method Send(frame: Frame)
      modifies this
      ensures sent == old(sent) + [frame] && receives == old(receives)
    {
      sent := sent + [frame];
    }
  }

  class Picc {
    const transceiver: PiccTransceiver
    const hwCrc: bool
    const config: Config
    var handler: ProtocolHandler
    var state: PiccState
    var fsd: nat
    var lastSent: Option<Block>

    function CurrentTerms(): Terms
      reads this
    {
      Terms(hwCrc, config.Fsc(), fsd)
    }

    /** The session as a machine that has got to `at`. */
    function Snapshot(at: Progress): Card
      reads this, handler
    {
      Card(handler.State(), lastSent, state == Halted, at)
    }

    constructor (transceiver: PiccTransceiver, hwCrc: bool, config: Config)
      ensures this.transceiver == transceiver && this.hwCrc == hwCrc && this.config == config && fresh(handler)
      ensures handler.State() == Handler(Role.Picc, None, 1, [], DEFAULT_LIMITS, NO_COUNTS)
      ensures state == Idle && fsd == 256 && lastSent == None
    {
      this.transceiver, this.hwCrc, this.config := transceiver, hwCrc, config;
      handler := new ProtocolHandler.WithLimits(Role.Picc, None, DEFAULT_LIMITS);
      state, fsd, lastSent := Idle, 256, None;
    }

    method SendBlock(block: Block)
      modifies this`lastSent, transceiver
      ensures lastSent == Some(block)
      ensures transceiver.receives == old(transceiver.receives)
      ensures transceiver.sent == old(transceiver.sent) + [Standard(Transmitted(hwCrc, block))]
    {
      lastSent := Some(block);
      var data := ToBytesWithoutCrc(block);
      if !hwCrc {
        data := Crc.AppendCrcA(data);
      }
      transceiver.Send(Standard(data));
    }

    method StripCrc(raw: seq<byte>) returns (r: Result<seq<byte>, TypeAError>)
      ensures r == Strip(hwCrc, raw)
    {
      if hwCrc {
        r := Ok(raw);
      } else {
        r := Crc.SplitCrcA(raw);
      }
    }

    method ParseBlock(raw: seq<byte>) returns (r: Result<Block, TypeAError>)
      ensures r == ParsedCommand(CurrentTerms(), raw)
    {
      var onAirLen := if hwCrc then |raw| + 2 else |raw|;
      if onAirLen > config.Fsc() {
        return Err(LimitExceeded(FrameSize));
      }
      var data := StripCrc(raw);
      if data.Err? {
        return Err(data.error);
      }
      r := Blocks.FromCrcVerified(data.value);
    }

    // ── Activation ────────────────────────────────────────────────────────

    method SendAtqa()
      modifies transceiver
      ensures transceiver.receives == old(transceiver.receives)
      ensures transceiver.sent == old(transceiver.sent) + [Short(AtqaBytes(config.Atqa()))]
    {
      transceiver.Send(Short(AtqaBytes(config.Atqa())));
    }

    /** Sends the data of a standard frame. */
    method SendSealed(data: seq<byte>)
      modifies transceiver
      ensures transceiver.receives == old(transceiver.receives)
      ensures transceiver.sent == old(transceiver.sent) + [Standard(Crc.Sealed(hwCrc, data))]
    {
      if hwCrc {
        transceiver.Send(Standard(data));
      } else {
        var frame := Crc.AppendCrcA(data);
        transceiver.Send(Standard(frame));
      }
    }

    method HandleIdle(raw: seq<byte>)
      requires state == Idle
      modifies this`state, transceiver
      ensures transceiver.receives == old(transceiver.receives)
      ensures state == OnIdle(config, raw).state
      ensures transceiver.sent == old(transceiver.sent) + Said(OnIdle(config, raw).reply)
    {
      if raw == [0x26] || raw == [0x52] {
        SendAtqa();
        state := Ready(0);
      }
    }

    method HandleReady(raw: seq<byte>, level: nat) returns (r: Result<(), TypeAError>)
      requires state == Ready(level)
      modifies this`state, transceiver
      ensures transceiver.receives == old(transceiver.receives)
      ensures var reaction := OnReady(config, hwCrc, level, raw);
              if reaction.Err?
              then r == Err(reaction.error) && state == old(state) && transceiver.sent == old(transceiver.sent)
              else r == Ok(()) && state == reaction.value.state
                   && transceiver.sent == old(transceiver.sent) + Said(reaction.value.reply)
    {
      hide Strip, AtqaBytes, SakByte, LevelBytes;
      if |raw| < 2 {
        return Ok(());
      }
      if level > 2 {
        return Err(Other);
      }
      if raw[0] != Sel(level) {
        return Ok(());
      }
      if |raw| == 2 {
        var part := LevelBytes(config.uid, level);
        if part.Err? {
          return Err(part.error);
        }
        transceiver.Send(BitOriented(part.value));
      } else if raw[1] == NVB_SELECT {
        var data := StripCrc(raw);
        if data.Err? {
          return Err(data.error);
        }
        if |data.value| != 7 {
          return Ok(());
        }
        var last := LastLevel(config, level);
        SendSealed([SakByte(Sak(last, config.ats.Some?))]);
        state := if last then Active else Ready(level + 1);
      }
      return Ok(());
    }

    /** Answers REQA or WUPA, anticollision and SELECT until the UID is selected. */
    method WaitForActivation() returns (r: Result<(), PiccError>)
      modifies this`state, transceiver
      ensures var w := Waits(config, hwCrc, Idle, old(transceiver.receives), old(transceiver.sent));
              && state == w.state && transceiver.receives == w.rest && transceiver.sent == w.sent
              && r == if w.error.Some? then Err(w.error.value) else Ok(())
    {
      hide OnReady, OnIdle, AtqaBytes;
      state := Idle;
      ghost var w := Waits(config, hwCrc, Idle, transceiver.receives, transceiver.sent);
      while true
        invariant state.Idle? || state.Ready?
        invariant w == Waits(config, hwCrc, state, transceiver.receives, transceiver.sent)
        decreases |transceiver.receives|
      {
        var raw := transceiver.Receive();
        if raw.None? {
          return Err(TransceiverError);
        }
        WaitingStates(config, hwCrc, state, raw.value);
        match state {
          case Idle =>
            HandleIdle(raw.value);
          case Ready(level) =>
            var handled := HandleReady(raw.value, level);
            if handled.Err? {
              return Err(ProtocolError(handled.error));
            }
        }
        if state == Active {
          return Ok(());
        }
      }
    }

    function Settlement(): Settled
      reads this, handler
    {
      Settled(state, fsd, handler.State())
    }

    method HandleActive(raw: seq<byte>) returns (r: Result<(), TypeAError>)
      modifies this`state, this`fsd, this`handler, transceiver
      ensures handler == old(handler) || fresh(handler)
      ensures transceiver.receives == old(transceiver.receives)
      ensures var (settled, reply, outcome) := OnActive(config, hwCrc, old(Settlement()), raw);
              && Settlement() == settled && r == outcome
              && transceiver.sent == old(transceiver.sent) + Said(reply)
    {
      hide Strip, RatsOf, AnswerToSelect.Print, CidSupported;
      if raw == [] {
        return Ok(());
      }
      if raw[0] == 0xe0 {
        var data := StripCrc(raw);
        if data.Err? {
          return Err(data.error);
        }
        if |data.value| != 2 || data.value[0] != 0xe0 {
          return Err(InvalidLength);
        }
        var rats := RatsOf(data.value[1]);
        if rats.Err? {
          return Err(rats.error);
        }
        fsd := SizeOf(rats.value.fsdi);
        var cid := if CidSupported(config) then Some(rats.value.cid) else None;
        handler := new ProtocolHandler.WithLimits(Role.Picc, cid, handler.limits);
        if config.ats.None? {
          return Err(Other);
        }
        var ats := AnswerToSelect.ToBytes(config.ats.value);
        SendSealed(ats);
        state := InProtocol;
      } else if raw[0] == 0x50 {
        var data := StripCrc(raw);
        if data.Err? {
          return Err(data.error);
        }
        if data.value == [0x50, 0x00] {
          state := Halted;
        }
      }
      return Ok(());
    }

    /** Answers the RATS that comes next. */
    method WaitForRats() returns (r: Result<(), PiccError>)
      modifies this`state, this`fsd, this`handler, transceiver
      ensures handler == old(handler) || fresh(handler)
      ensures transceiver.receives == Unread(old(transceiver.receives), 1)
      ensures var raw := Scripted(old(transceiver.receives), 0);
              if raw.None?
              then && r == Err(TransceiverError) && Settlement() == old(Settlement())
                   && transceiver.sent == old(transceiver.sent)
              else
                var (settled, reply, outcome) := OnActive(config, hwCrc, old(Settlement()), raw.value);
                && Settlement() == settled
                && transceiver.sent == old(transceiver.sent) + Said(reply)
                && r == if outcome.Err? then Err(ProtocolError(outcome.error))
                        else if settled.state == InProtocol then Ok(()) else Err(ProtocolError(Other))
    {
      hide OnActive;
      var raw := transceiver.Receive();
      if raw.None? {
        return Err(TransceiverError);
      }
      var handled := HandleActive(raw.value);
      if handled.Err? {
        return Err(ProtocolError(handled.error));
      }
      return if state == InProtocol then Ok(()) else Err(ProtocolError(Other));
    }

    /** Answers a PPS request. */
    method HandlePps(raw: seq<byte>) returns (r: Result<(), TypeAError>)
      modifies transceiver
      ensures transceiver.receives == old(transceiver.receives)
      ensures var data := Strip(hwCrc, raw);
              var pps := if data.Ok? then PpsOf(data.value) else Err(data.error);
              if pps.Ok?
              then r == Ok(()) && transceiver.sent == old(transceiver.sent) + [Standard(PpsReply(hwCrc, pps.value))]
              else r == Err(pps.error) && transceiver.sent == old(transceiver.sent)
    {
      var data := StripCrc(raw);
      if data.Err? {
        return Err(data.error);
      }
      var pps := PpsOf(data.value);
      if pps.Err? {
        return Err(pps.error);
      }
      SendSealed([0xD0 + pps.value.cid]);
      return Ok(());
    }

    /** The body of the loop of `ReceiveCommand`: takes in one frame, and says whether the
        call is over. */
    method TakeFrame(raw: seq<byte>) returns (over: Option<Result<seq<byte>, PiccError>>)
      modifies this`state, this`lastSent, handler, transceiver
      ensures CurrentTerms() == old(CurrentTerms()) && transceiver.receives == old(transceiver.receives)
      ensures var (d, reply) := On(old(Snapshot(Listening)), old(CurrentTerms()), Some(raw));
              && d == Snapshot(Reached(over))
              && transceiver.sent == old(transceiver.sent) + Answers(reply)
    {
      hide Process, Transmitted, ParsedCommand, PpsReply, PpsOf, IsPps, Strip, On, NoteFrame;
      OnListening(Snapshot(Listening), CurrentTerms(), Some(raw));
      if IsPps(raw) {
        var noted := handler.CountFrame();
        if noted.Err? {
          return Some(Err(ProtocolError(noted.error)));
        }
        var handled := HandlePps(raw);
        return if handled.Err? then Some(Err(ProtocolError(handled.error))) else None;
      }

      var parsed := ParseBlock(raw);
      if parsed.Err? {
        return Some(Err(ProtocolError(parsed.error)));
      }
      var action := handler.ProcessReceived(parsed.value);
      if action.Err? {
        return Some(Err(ProtocolError(action.error)));
      }
      match action.value {
        case Complete(data) =>
          return Some(Ok(data));
        case Reply(reply) =>
          if reply.pcb.sSubtype == Some(Deselect) {
            SendBlock(reply);
            state := Halted;
            return Some(Err(Deselected));
          }
          SendBlock(reply);
        case ChainingRetransmit =>
          if lastSent.None? {
            return Some(Err(ProtocolError(Other)));
          }
          SendBlock(lastSent.value);
        case ChainingAck =>
          return Some(Err(ProtocolError(Other)));
      }
      return None;
    }

    /** Receives one APDU, answering everything that comes with it. */
    method ReceiveCommand() returns (r: Result<seq<byte>, PiccError>, ghost n: nat)
      modifies this`state, this`lastSent, handler, transceiver
      ensures CurrentTerms() == old(CurrentTerms())
      ensures Walk(BeginReceive(old(Snapshot(Listening))), old(CurrentTerms()), n,
                   old(transceiver.receives), transceiver.receives, Snapshot(Reached(Some(r))),
                   old(transceiver.sent), transceiver.sent)
    {
      hide Process, Walk, On;
      ghost var from, before, start, terms :=
        transceiver.receives, transceiver.sent, BeginReceive(Snapshot(Listening)), CurrentTerms();
      n := 0;
      WalkNone(start, terms, from, before);
      handler.BeginExchange();
      while true
        invariant CurrentTerms() == terms && handler == old(handler)
        invariant Walk(start, terms, n, from, transceiver.receives, Snapshot(Listening), before, transceiver.sent)
        decreases |transceiver.receives|
      {
        WalkNext(start, terms, n, from, transceiver.receives, Snapshot(Listening), before, transceiver.sent);
        OnListening(Snapshot(Listening), terms, None);
        n := n + 1;
        var received := transceiver.Receive();
        if received.None? {
          return Err(TransceiverError), n;
        }
        var over := TakeFrame(received.value);
        if over.Some? {
          return over.value, n;
        }
      }
    }

    /** The inner loop of `SendResponse`: waits for the R(ACK) that releases the next chunk,
        and answers everything that comes before it. */
    method AwaitAck(ghost data: seq<byte>, ghost maxInf: nat, ghost end: nat, iblock: Block)
      returns (r: Result<(), PiccError>, ghost n: nat)
      modifies this`state, this`lastSent, handler, transceiver
      ensures CurrentTerms() == old(CurrentTerms())
      ensures r.Ok? ==> |transceiver.receives| < |old(transceiver.receives)|
      ensures var (next, first) := SendFrom(Snapshot(Answered), data, maxInf, end);
              Walk(old(Snapshot(Answering(data, maxInf, end, iblock))), old(CurrentTerms()), n,
                   old(transceiver.receives), transceiver.receives,
                   if r.Ok? then next else Snapshot(Stopped(r.error)),
                   old(transceiver.sent),
                   if r.Ok? then transceiver.sent + BlockFrame(hwCrc, first) else transceiver.sent)
    {
      hide Process, Transmitted, ParsedCommand, Walk, On, SendFrom;
      ghost var from, before, terms := transceiver.receives, transceiver.sent, CurrentTerms();
      ghost var start, at := Snapshot(Answering(data, maxInf, end, iblock)), Answering(data, maxInf, end, iblock);
      n := 0;
      WalkNone(start, terms, from, before);
      while true
        invariant CurrentTerms() == terms && handler == old(handler)
        invariant |transceiver.receives| <= |from|
        invariant Walk(start, terms, n, from, transceiver.receives, Snapshot(at), before, transceiver.sent)
        decreases |transceiver.receives|
      {
        ghost var c := Snapshot(at);
        WalkNext(start, terms, n, from, transceiver.receives, c, before, transceiver.sent);
        OnAnswering(c, terms, Scripted(transceiver.receives, 0));
        n := n + 1;
        var received := transceiver.Receive();
        if received.None? {
          return Err(TransceiverError), n;
        }
        var parsed := ParseBlock(received.value);
        if parsed.Err? {
          return Err(ProtocolError(parsed.error)), n;
        }
        var action := handler.ProcessReceived(parsed.value);
        if action.Err? {
          return Err(ProtocolError(action.error)), n;
        }
        match action.value {
          case ChainingAck =>
            SendFromIgnores(c.(h := handler.State()), Snapshot(Answered), data, maxInf, end);
            return Ok(()), n;
          case ChainingRetransmit =>
            SendBlock(iblock);
          case Reply(reply) =>
            var deselect := reply.pcb.sSubtype == Some(Deselect);
            SendBlock(reply);
            if deselect {
              state := Halted;
              return Err(Deselected), n;
            }
          case Complete(_) =>
            return Err(ProtocolError(Other)), n;
        }
      }
    }

    /** Sends one response APDU, chunk by chunk as they are acknowledged. */
    method SendResponse(data: seq<byte>) returns (r: Result<(), PiccError>, ghost n: nat)
      modifies this`state, this`lastSent, handler, transceiver
      ensures CurrentTerms() == old(CurrentTerms())
      ensures var (c, first) := BeginResponse(old(Snapshot(Answered)), old(CurrentTerms()), data);
              Walk(c, old(CurrentTerms()), n, old(transceiver.receives), transceiver.receives,
                   Snapshot(if r.Ok? then Answered else Stopped(r.error)),
                   old(transceiver.sent) + BlockFrame(hwCrc, first), transceiver.sent)
    {
      hide Process, Transmitted, Walk;
      ghost var from, before, terms := transceiver.receives, transceiver.sent, CurrentTerms();
      ghost var (start, first) := BeginResponse(Snapshot(Answered), terms, data);
      before := before + BlockFrame(hwCrc, first);
      n := 0;
      WalkNone(start, terms, from, before);

      var cidLen := if handler.BuildIblock([], false).cid.Some? then 1 else 0;
      var overhead := 1 + cidLen + 2;
      var maxInf := if fsd > overhead then fsd - overhead else 0;
      if maxInf == 0 {
        assert before == transceiver.sent;
        return Err(ProtocolError(Other)), n;
      }

      var offset := 0;
      while true
        invariant 0 <= offset <= |data| && CurrentTerms() == terms && handler == old(handler)
        invariant var (c, next) := SendFrom(Snapshot(Answered), data, maxInf, offset);
                  Walk(start, terms, n, from, transceiver.receives, c, before,
                       transceiver.sent + BlockFrame(hwCrc, next))
        decreases |transceiver.receives|
      {
        var end := if offset + maxInf < |data| then offset + maxInf else |data|;
        var chaining := end < |data|;
        var iblock := handler.BuildIblock(data[offset..end], chaining);
        SendBlock(iblock);
        if !chaining {
          break;
        }
        ghost var via, between := transceiver.receives, transceiver.sent;
        ghost var c := Snapshot(Answering(data, maxInf, end, iblock));
        ghost var m;
        var acked;
        acked, m := AwaitAck(data, maxInf, end, iblock);
        ghost var (next, more) := SendFrom(Snapshot(Answered), data, maxInf, end);
        WalkOn(start, terms, n, m, from, via, transceiver.receives, c,
               if acked.Ok? then next else Snapshot(Stopped(acked.error)), before, between,
               if acked.Ok? then transceiver.sent + BlockFrame(hwCrc, more) else transceiver.sent);
        n := n + m;
        if acked.Err? {
          return acked, n;
        }
        offset := end;
      }
      return Ok(()), n;
    }
  }

  /** Where `ReceiveCommand` is once a frame is in. */
  function Reached(over: Option<Result<seq<byte>, PiccError>>): Progress {
    match over
    case None => Listening
    case Some(Ok(data)) => Got(data)
    case Some(Err(e)) => Stopped(e)
  }

  lemma SendFromIgnores(c: Card, d: Card, data: seq<byte>, maxInf: nat, offset: nat)
    requires c.h == d.h && c.halted == d.halted
    ensures SendFrom(c, data, maxInf, offset) == SendFrom(d, data, maxInf, offset)
  {
  }

  lemma BeginResponseIgnores(c: Card, d: Card, t: Terms, data: seq<byte>)
    requires c.h == d.h && c.halted == d.halted && c.lastSent == d.lastSent
    ensures BeginResponse(c, t, data) == BeginResponse(d, t, data)
  {
  }
}
