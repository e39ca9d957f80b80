/**
 The reader (PCD) side of an APDU exchange.

 `Reader` is the exchange as a machine that sends one block and hears one answer per
 step; an answer that does not arrive, or does not parse, is an error. The class is the
 session as the program has it, and its loops are proved to walk this machine.
 */
module PcdLayer {
  import opened Wire
  import opened Blocks
  import opened Chunking
  import opened Protocol
  import AnswerToSelect
  import Codings
  import Crc

  const MAX_RETRIES: nat := 2

  datatype PcdError = TransceiverError | ProtocolError(error: TypeAError)

  /** What a session fixed when it was set up: who does the CRC, the largest frame the
      PICC accepts and the largest frame the PICC was told to send. */
  datatype Session = Session(hwCrc: bool, fsc: nat, fsd: nat)

  // ── Frames ──────────────────────────────────────────────────────────────

  /** The block in a raw response; the transceiver may have failed. */
  function Parsed(s: Session, raw: Option<seq<byte>>): Result<Block, PcdError> {
    if raw.None? then Err(TransceiverError)
    else if |raw.value| + (if s.hwCrc then 2 else 0) > s.fsd then Err(ProtocolError(LimitExceeded(FrameSize)))
    else
      var parsed := if s.hwCrc then Parse(raw.value) else ParseAir(raw.value);
      if parsed.Ok? then Ok(parsed.value) else Err(ProtocolError(parsed.error))
  }

  /** RATS announces the FSD of the reader and proposes a CID. */
  function RatsFrame(hwCrc: bool, fsdi: Codings.FrameSize, cid: Cid): Frame {
    Standard(Crc.Sealed(hwCrc, [0xe0, Codings.RatsByte(Codings.RatsParam(fsdi, cid))]))
  }

  function AtsHeard(hwCrc: bool, answer: Option<seq<byte>>): Result<AnswerToSelect.Ats, PcdError> {
    if answer.None? then Err(TransceiverError) else
      var data := if hwCrc then Ok(answer.value) else Crc.Split(answer.value);
      if data.Err? then Err(ProtocolError(data.error)) else
        var ats := AnswerToSelect.Parse(data.value);
        if ats.Err? then Err(ProtocolError(ats.error)) else Ok(ats.value)
  }

  // ── The machine ─────────────────────────────────────────────────────────

  datatype Reader =
    | Sending(h: Handler, apdu: seq<byte>, maxInf: nat, offset: nat)
    | Collecting(h: Handler, reply: Block, attempts: nat)
    | Finished(h: Handler, result: Result<seq<byte>, PcdError>)

  function Start(h: Handler, s: Session, apdu: seq<byte>): Reader {
    var h0 := h.BeginExchange();
    if MaxInf(s.fsc, h0) == 0 || apdu == [] then Finished(h0, Err(ProtocolError(Other)))
    else Sending(h0, apdu, MaxInf(s.fsc, h0), 0)
  }

  /** The block the reader sends next. */
  function Pending(r: Reader): Option<Block> {
    match r
    case Sending(h, apdu, maxInf, offset) => Some(ChunkBlock(h, apdu, offset, maxInf))
    case Collecting(h, reply, attempts) => Some(if attempts == 0 then reply else h.RAck())
    case Finished(_, _) => None
  }

  /** Takes in a block of the response. */
  function Take(h: Handler, b: Block): Reader {
    var (n, outcome) := Process(h, b);
    match outcome
    case Ok(Complete(data)) => Finished(n, Ok(data))
    case Ok(Reply(reply)) => Collecting(n, reply, 0)
    case Ok(_) => Finished(n, Err(ProtocolError(Other)))
    case Err(e) => Finished(n, Err(ProtocolError(e)))
  }

  /** Hears the answer to a chained chunk. */
  function Advance(r: Reader, b: Block): Reader
    requires r.Sending?
  {
    var (n, outcome) := Process(r.h, b);
    match outcome
    case Ok(ChainingAck) => Sending(n, r.apdu, r.maxInf, r.offset + r.maxInf)
    case Ok(ChainingRetransmit) => Sending(n, r.apdu, r.maxInf, r.offset)
    case Ok(_) => Finished(n, Err(ProtocolError(Other)))
    case Err(e) => Finished(n, Err(ProtocolError(e)))
  }

  function Feed(r: Reader, answer: Result<Block, PcdError>): Reader {
    match r
    case Sending(h, apdu, maxInf, offset) => (
      match answer
      case Err(e) => Finished(h, Err(e))
      case Ok(b) => if offset + maxInf < |apdu| then Advance(r, b) else Take(h, b)
    )
    case Collecting(h, reply, attempts) => (
      match answer
      case Ok(b) => Take(h, b)
      case Err(_) =>
        if attempts >= MAX_RETRIES then Finished(h, Err(ProtocolError(Other)))
        else Collecting(h, reply, attempts + 1)
    )
    case Finished(_, _) => r
  }

  type Answer = Result<Block, PcdError>

  /** The machine after a run of answers. */
  function Run(r: Reader, heard: seq<Answer>): Reader {
    if heard == [] then r else Feed(Run(r, heard[..|heard| - 1]), heard[|heard| - 1])
  }

  function Asks(r: Reader): seq<Block> {
    if r.Finished? then [] else [Pending(r).value]
  }

  /** The blocks sent over such a run, one before each answer. */
  function Sent(r: Reader, heard: seq<Answer>): seq<Block> {
    if heard == [] then []
    else Sent(r, heard[..|heard| - 1]) + Asks(Run(r, heard[..|heard| - 1]))
  }

  lemma {:induction false} RunConcat(r: Reader, a: seq<Answer>, b: seq<Answer>)
    ensures Run(r, a + b) == Run(Run(r, a), b)
    ensures Sent(r, a + b) == Sent(r, a) + Sent(Run(r, a), b)
  {
    if b == [] {
      assert a + b == a;
    } else {
      assert (a + b)[..|a + b| - 1] == a + b[..|b| - 1];
      RunConcat(r, a, b[..|b| - 1]);
    }
  }

  lemma RunNone(r: Reader)
    ensures Run(r, []) == r && Sent(r, []) == []
  {
  }

  lemma RunSnoc(r: Reader, heard: seq<Answer>, answer: Answer)
    ensures Run(r, heard + [answer]) == Feed(Run(r, heard), answer)
    ensures Sent(r, heard + [answer]) == Sent(r, heard) + Asks(Run(r, heard))
  {
    assert (heard + [answer])[..|heard|] == heard;
  }

  /** Failed answers only use up attempts. */
  lemma {:induction false} RunRetries(h: Handler, reply: Block, heard: seq<Answer>)
    requires |heard| <= 2
    requires forall i :: 0 <= i < |heard| ==> heard[i].Err?
    ensures Run(Collecting(h, reply, 0), heard) == Collecting(h, reply, |heard|)
    ensures Sent(Collecting(h, reply, 0), heard) == Attempts(h, reply, |heard|)
  {
    if heard != [] {
      RunRetries(h, reply, heard[..|heard| - 1]);
    }
  }

  function Attempts(h: Handler, reply: Block, n: nat): seq<Block> {
    if n == 0 then [] else Attempts(h, reply, n - 1) + [if n == 1 then reply else h.RAck()]
  }

  // ── The session ─────────────────────────────────────────────────────────

  /** The transceiver: it answers from a script and fails once that has run out. */
  class PcdTransceiver {
    var answers: Script
    ghost var sent: seq<Frame>

    constructor (answers: Script)
      ensures this.answers == answers && sent == []
    {
      this.answers := answers;
      sent := [];
    }

    method Transceive(frame: Frame) returns (r: Option<seq<byte>>)
      modifies this
      ensures sent == old(sent) + [frame]
      ensures r == Scripted(old(answers), 0)
      ensures answers == Unread(old(answers), 1)
    {
      sent := sent + [frame];
      if |answers| == 0 {
        return None;
      }
      r := answers[0];
      answers := answers[1..];
    }
  }

  /** What the session makes of the first `n` answers of a script. */
  ghost function Hears(s: Session, script: Script, n: nat): seq<Answer> {
    if n == 0 then [] else Hears(s, script, n - 1) + [Parsed(s, Scripted(script, n - 1))]
  }

  lemma {:induction false} HearsConcat(s: Session, script: Script, m: nat, n: nat)
    ensures Hears(s, script, m + n) == Hears(s, script, m) + Hears(s, Unread(script, m), n)
    ensures Unread(Unread(script, m), n) == Unread(script, m + n)
    ensures |Hears(s, script, m)| == m
  {
    hide Parsed;
    if n > 0 {
      HearsConcat(s, script, m, n - 1);
      assert Scripted(Unread(script, m), n - 1) == Scripted(script, m + n - 1);
    } else if m > 0 {
      HearsConcat(s, script, m - 1, 0);
    }
  }

  /** The frames of a run of blocks. */
  ghost function Transmissions(hwCrc: bool, blocks: seq<Block>): seq<Frame> {
    if blocks == [] then []
    else Transmissions(hwCrc, blocks[..|blocks| - 1]) + [Standard(Transmitted(hwCrc, blocks[|blocks| - 1]))]
  }

  lemma {:induction false} TransmissionsConcat(hwCrc: bool, a: seq<Block>, b: seq<Block>)
    ensures Transmissions(hwCrc, a + b) == Transmissions(hwCrc, a) + Transmissions(hwCrc, b)
  {
    hide Transmitted;
    if b == [] {
      assert a + b == a;
    } else {
      assert (a + b)[..|a + b| - 1] == a + b[..|b| - 1];
      TransmissionsConcat(hwCrc, a, b[..|b| - 1]);
    }
  }

  /** Hearing `heard` off the script `from` left the script `to`, and `blocks` were sent
      after the frames `before`. */
  ghost predicate Walk(s: Session, heard: seq<Answer>, blocks: seq<Block>, from: Script, to: Script,
                       before: seq<Frame>, sent: seq<Frame>)
  {
    && heard == Hears(s, from, |heard|)
    && to == Unread(from, |heard|)
    && sent == before + Transmissions(s.hwCrc, blocks)
  }

  lemma WalkOn(s: Session, heard: seq<Answer>, more: seq<Answer>, blocks: seq<Block>, next: seq<Block>,
               from: Script, via: Script, to: Script,
               before: seq<Frame>, between: seq<Frame>, sent: seq<Frame>)
    requires Walk(s, heard, blocks, from, via, before, between)
    requires Walk(s, more, next, via, to, between, sent)
    ensures Walk(s, heard + more, blocks + next, from, to, before, sent)
  {
    hide Transmitted, Parsed;
    HearsConcat(s, from, |heard|, |more|);
    TransmissionsConcat(s.hwCrc, blocks, next);
  }

  lemma WalkNone(s: Session, script: Script, sent: seq<Frame>)
    ensures Walk(s, [], [], script, script, sent, sent)
  {
  }

  lemma WalkOne(s: Session, answer: Answer, block: Block, from: Script, to: Script,
                before: seq<Frame>, sent: seq<Frame>)
    requires answer == Parsed(s, Scripted(from, 0)) && to == Unread(from, 1)
    requires sent == before + [Standard(Transmitted(s.hwCrc, block))]
    ensures Walk(s, [answer], [block], from, to, before, sent)
  {
    assert Hears(s, from, 1) == Hears(s, from, 0) + [answer];
    assert [block][..0] == [];
  }

  /** As `WalkOn`, for the walk of a machine. */
  lemma MachineOn(s: Session, start: Reader, heard: seq<Answer>, more: seq<Answer>,
                  from: Script, via: Script, to: Script,
                  before: seq<Frame>, between: seq<Frame>, sent: seq<Frame>)
    requires Walk(s, heard, Sent(start, heard), from, via, before, between)
    requires Walk(s, more, Sent(Run(start, heard), more), via, to, between, sent)
    ensures Walk(s, heard + more, Sent(start, heard + more), from, to, before, sent)
    ensures Run(start, heard + more) == Run(Run(start, heard), more)
  {
    RunConcat(start, heard, more);
    WalkOn(s, heard, more, Sent(start, heard), Sent(Run(start, heard), more), from, via, to, before, between, sent);
  }

  class Pcd {
    const transceiver: PcdTransceiver
    const hwCrc: bool
    const fsc: nat
    const fsd: nat
    const handler: ProtocolHandler

    function Settings(): Session {
      Session(hwCrc, fsc, fsd)
    }

    constructor (transceiver: PcdTransceiver, fsc: nat, fsd: nat, cid: Option<Cid>, hwCrc: bool, limits: Limits)
      ensures this.transceiver == transceiver && fresh(handler)
      ensures Settings() == Session(hwCrc, fsc, fsd)
      ensures handler.State() == Handler(Role.Pcd, cid, 0, [], limits, NO_COUNTS)
    {
      this.transceiver, this.hwCrc, this.fsc, this.fsd := transceiver, hwCrc, fsc, fsd;
      this.handler := new ProtocolHandler.WithLimits(Role.Pcd, cid, limits);
    }

    /** Sends RATS and sets up the session that the ATS allows. */
    static method Connect(transceiver: PcdTransceiver, fsdi: Codings.FrameSize, cid: Cid, hwCrc: bool)
      returns (r: Result<(Pcd, AnswerToSelect.Ats), PcdError>)
      modifies transceiver
      ensures transceiver.sent == old(transceiver.sent) + [RatsFrame(hwCrc, fsdi, cid)]
      ensures transceiver.answers == Unread(old(transceiver.answers), 1)
      ensures var heard := AtsHeard(hwCrc, Scripted(old(transceiver.answers), 0));
              if heard.Err? then r == Err(heard.error)
              else && r.Ok? && r.value.1 == heard.value
                   && fresh(r.value.0) && fresh(r.value.0.handler) && r.value.0.transceiver == transceiver
                   && r.value.0.Settings()
                      == Session(hwCrc, Codings.SizeOf(heard.value.format.fsci), Codings.SizeOf(fsdi))
                   && r.value.0.handler.State() == Handler(Role.Pcd, Some(cid), 0, [], DEFAULT_LIMITS, NO_COUNTS)
    {
      hide AnswerToSelect.Parse, Codings.RatsByte;
      var data := [0xe0, Codings.RatsByte(Codings.RatsParam(fsdi, cid))];
      if !hwCrc {
        data := Crc.AppendCrcA(data);
      }
      var resp := transceiver.Transceive(Standard(data));
      if resp.None? {
        return Err(TransceiverError);
      }
      var body := resp.value;
      if !hwCrc {
        var stripped := Crc.SplitCrcA(body);
        if stripped.Err? {
          return Err(ProtocolError(stripped.error));
        }
        body := stripped.value;
      }
      var ats := AnswerToSelect.FromCrcVerified(body);
      if ats.Err? {
        return Err(ProtocolError(ats.error));
      }
      var pcd := new Pcd(transceiver, Codings.SizeOf(ats.value.format.fsci), Codings.SizeOf(fsdi), Some(cid), hwCrc,
                         DEFAULT_LIMITS);
      return Ok((pcd, ats.value));
    }

    method ParseBlockResponse(raw: seq<byte>) returns (r: Result<Block, PcdError>)
      ensures r == Parsed(Settings(), Some(raw))
    {
      var parsed: Result<Block, TypeAError>;
      if hwCrc {
        if |raw| + 2 > fsd {
          return Err(ProtocolError(LimitExceeded(FrameSize)));
        }
        parsed := FromCrcVerified(raw);
      } else {
        if |raw| > fsd {
          return Err(ProtocolError(LimitExceeded(FrameSize)));
        }
        var data := Crc.SplitCrcA(raw);
        if data.Ok? {
          parsed := FromCrcVerified(data.value);
        } else {
          parsed := Err(data.error);
        }
      }
      return if parsed.Ok? then Ok(parsed.value) else Err(ProtocolError(parsed.error));
    }

    method TransceiveBlock(block: Block) returns (r: Answer)
      modifies transceiver
      ensures Walk(Settings(), [r], [block], old(transceiver.answers), transceiver.answers,
                   old(transceiver.sent), transceiver.sent)
    {
      ghost var from, before := transceiver.answers, transceiver.sent;
      var data := ToBytesWithoutCrc(block);
      if !hwCrc {
        data := Crc.AppendCrcA(data);
      }
      var resp := transceiver.Transceive(Standard(data));
      if resp.None? {
        r := Err(TransceiverError);
      } else {
        r := ParseBlockResponse(resp.value);
      }
      WalkOne(Settings(), r, block, from, transceiver.answers, before, transceiver.sent);
    }

    /** Sends a block and, while the answer fails, up to two recovery blocks. */
    method TransceiveWithRecovery(block: Block, receivingChain: bool)
      returns (r: Answer, ghost heard: seq<Answer>, ghost blocks: seq<Block>)
      modifies transceiver
      ensures Walk(Settings(), heard, blocks, old(transceiver.answers), transceiver.answers,
                   old(transceiver.sent), transceiver.sent)
      ensures 1 <= |heard| <= 3
      ensures forall i :: 0 <= i < |heard| - 1 ==> heard[i].Err?
      ensures r.Ok? ==> r == heard[|heard| - 1]
      ensures r.Err? ==> |heard| == 3 && r.error == ProtocolError(Other) && heard[|heard| - 1].Err?
      ensures |blocks| == |heard| && blocks[0] == block
      ensures forall i :: 1 <= i < |blocks| ==>
                blocks[i] == if receivingChain then handler.State().RAck() else handler.State().RNak()
    {
      hide Walk;
      ghost var from, before := transceiver.answers, transceiver.sent;
      r := TransceiveBlock(block);
      heard, blocks := [r], [block];
      if r.Err? {
        var retries := 0;
        while true
          invariant Walk(Settings(), heard, blocks, from, transceiver.answers, before, transceiver.sent)
          invariant 0 <= retries <= MAX_RETRIES && |heard| == |blocks| == retries + 1
          invariant forall i :: 0 <= i < |heard| ==> heard[i].Err?
          invariant blocks[0] == block
          invariant forall i :: 1 <= i < |blocks| ==>
                      blocks[i] == if receivingChain then handler.State().RAck() else handler.State().RNak()
          decreases MAX_RETRIES - retries
        {
          if retries >= MAX_RETRIES {
            return Err(ProtocolError(Other)), heard, blocks;
          }
          retries := retries + 1;
          var recovery := if receivingChain then handler.BuildRack() else handler.BuildRnak();
          ghost var via, between := transceiver.answers, transceiver.sent;
          r := TransceiveBlock(recovery);
          WalkOn(Settings(), heard, [r], blocks, [recovery], from, via, transceiver.answers,
                 before, between, transceiver.sent);
          heard, blocks := heard + [r], blocks + [recovery];
          if r.Ok? {
            return r, heard, blocks;
          }
        }
      }
    }

    /** Collects the response, its first block being in already. */
    method CollectResponse(first: Block) returns (r: Result<seq<byte>, PcdError>, ghost heard: seq<Answer>)
      modifies handler, transceiver
      ensures Run(Take(old(handler.State()), first), heard) == Finished(handler.State(), r)
      ensures Walk(Settings(), heard, Sent(Take(old(handler.State()), first), heard), old(transceiver.answers),
                   transceiver.answers, old(transceiver.sent), transceiver.sent)
    {
      hide Process, Walk;
      ghost var from, before := transceiver.answers, transceiver.sent;
      var block := first;
      heard := [];
      ghost var start := Take(old(handler.State()), first);
      WalkNone(Settings(), from, before);
      while true
        invariant Run(start, heard) == Take(handler.State(), block)
        invariant Walk(Settings(), heard, Sent(start, heard), from, transceiver.answers, before, transceiver.sent)
        decreases |transceiver.answers|
      {
        ghost var via, between := transceiver.answers, transceiver.sent;
        var action := handler.ProcessReceived(block);
        if action.Err? {
          return Err(ProtocolError(action.error)), heard;
        }
        match action.value {
          case Complete(data) =>
            return Ok(data), heard;
          case Reply(reply) =>
            ghost var more, blocks;
            var next;
            next, more, blocks := TransceiveWithRecovery(reply, true);
            CollectStep(handler.State(), reply, next, more, blocks);
            MachineOn(Settings(), start, heard, more, from, via, transceiver.answers,
                      before, between, transceiver.sent);
            heard := heard + more;
            if next.Err? {
              return Err(next.error), heard;
            }
            ScriptShrinks(Settings(), more, blocks, via, transceiver.answers, between, transceiver.sent);
            block := next.value;
          case _ =>
            return Err(ProtocolError(Other)), heard;
        }
      }
    }

    /** Sends a command and collects its response. */
    method Exchange(apdu: seq<byte>) returns (r: Result<seq<byte>, PcdError>, ghost heard: seq<Answer>)
      modifies handler, transceiver
      ensures Run(Start(old(handler.State()), Settings(), apdu), heard) == Finished(handler.State(), r)
      ensures Walk(Settings(), heard, Sent(Start(old(handler.State()), Settings(), apdu), heard),
                   old(transceiver.answers), transceiver.answers, old(transceiver.sent), transceiver.sent)
    {
      hide Process, Walk, Run, Sent, Feed, Take;
      ghost var from, before := transceiver.answers, transceiver.sent;
      ghost var start := Start(old(handler.State()), Settings(), apdu);
      RunNone(start);
      WalkNone(Settings(), from, before);
      heard := [];
      handler.BeginExchange();

      var cidLen := if handler.BuildIblock([], false).cid.Some? then 1 else 0;
      var overhead := 1 + cidLen + 2;
      var maxInf := if fsc > overhead then fsc - overhead else 0;
      if maxInf == 0 {
        return Err(ProtocolError(Other)), heard;
      }

      var offset := 0;
      var lastResp: Option<Block> := None;
      while offset < |apdu|
        invariant 0 <= offset <= |apdu|
        invariant Sought(Run(start, heard), handler.State(), apdu, maxInf, offset, lastResp)
        invariant Walk(Settings(), heard, Sent(start, heard), from, transceiver.answers, before, transceiver.sent)
        decreases |transceiver.answers|, |apdu| - offset
      {
        ghost var via, between := transceiver.answers, transceiver.sent;
        var end := if offset + maxInf < |apdu| then offset + maxInf else |apdu|;
        var chaining := end < |apdu|;
        var iblock := handler.BuildIblock(apdu[offset..end], chaining);

        var resp := TransceiveBlock(iblock);
        ghost var sending := handler.State();
        SendStep(sending, apdu, maxInf, offset, resp);
        MachineOn(Settings(), start, heard, [resp], from, via, transceiver.answers, before, between, transceiver.sent);
        heard := heard + [resp];
        if resp.Err? {
          return Err(resp.error), heard;
        }
        assert chaining ==> Run(start, heard) == Advance(Sending(sending, apdu, maxInf, offset), resp.value);
        ScriptShrinks(Settings(), [resp], [iblock], via, transceiver.answers, between, transceiver.sent);

        if chaining {
          var action := handler.ProcessReceived(resp.value);
          if action.Err? {
            return Err(ProtocolError(action.error)), heard;
          }
          match action.value {
            case ChainingAck => offset := end;
            case ChainingRetransmit =>
            case _ => return Err(ProtocolError(Other)), heard;
          }
        } else {
          lastResp := Some(resp.value);
          offset := end;
        }
      }

      if lastResp.None? {
        return Err(ProtocolError(Other)), heard;
      }
      ghost var via, between := transceiver.answers, transceiver.sent;
      ghost var more;
      r, more := CollectResponse(lastResp.value);
      MachineOn(Settings(), start, heard, more, from, via, transceiver.answers, before, between, transceiver.sent);
      heard := heard + more;
    }
  }

  /** Where the machine is while the command goes out. */
  ghost predicate Sought(r: Reader, h: Handler, apdu: seq<byte>, maxInf: nat, offset: nat, last: Option<Block>) {
    if offset < |apdu| then last == None && r == Sending(h, apdu, maxInf, offset)
    else if apdu == [] then last == None && r == Finished(h, Err(ProtocolError(Other)))
    else last.Some? && r == Take(h, last.value)
  }

  lemma SendStep(h: Handler, apdu: seq<byte>, maxInf: nat, offset: nat, answer: Answer)
    requires offset < |apdu|
    ensures var r := Sending(h, apdu, maxInf, offset);
            && Sent(r, [answer]) == [ChunkBlock(h, apdu, offset, maxInf)]
            && Run(r, [answer]) == Feed(r, answer)
            && (answer.Err? ==> Feed(r, answer) == Finished(h, Err(answer.error)))
            && (answer.Ok? && offset + maxInf >= |apdu| ==> Feed(r, answer) == Take(h, answer.value))
            && (answer.Ok? && offset + maxInf < |apdu| ==> Feed(r, answer) == Advance(r, answer.value))
  {
    RunSnoc(Sending(h, apdu, maxInf, offset), [], answer);
    assert [] + [answer] == [answer];
  }

  /** A readable answer came off the script. */
  lemma ScriptShrinks(s: Session, heard: seq<Answer>, blocks: seq<Block>, from: Script, to: Script,
                      before: seq<Frame>, sent: seq<Frame>)
    requires Walk(s, heard, blocks, from, to, before, sent)
    requires heard != [] && heard[|heard| - 1].Ok?
    ensures |to| < |from|
  {
    HearsConcat(s, from, |heard| - 1, 0);
    assert heard[|heard| - 1] == Parsed(s, Scripted(from, |heard| - 1));
  }

  /** One reply with its recovery attempts, seen by the machine. */
  lemma CollectStep(h: Handler, reply: Block, next: Answer, more: seq<Answer>, blocks: seq<Block>)
    requires 1 <= |more| <= 3 && |blocks| == |more|
    requires forall i :: 0 <= i < |more| - 1 ==> more[i].Err?
    requires next.Ok? ==> next == more[|more| - 1]
    requires next.Err? ==> |more| == 3 && next.error == ProtocolError(Other) && more[|more| - 1].Err?
    requires blocks[0] == reply && forall i :: 1 <= i < |blocks| ==> blocks[i] == h.RAck()
    ensures Sent(Collecting(h, reply, 0), more) == blocks
    ensures Run(Collecting(h, reply, 0), more)
         == if next.Ok? then Take(h, next.value) else Finished(h, Err(next.error))
  {
    hide Process, Take, Run, Sent, Attempts;
    var n := |more| - 1;
    RunRetries(h, reply, more[..n]);
    AttemptsAre(h, reply, blocks, n);
    RunSnoc(Collecting(h, reply, 0), more[..n], more[n]);
    assert more == more[..n] + [more[n]];
    assert blocks == blocks[..n] + [blocks[n]];
  }

  lemma {:induction false} AttemptsAre(h: Handler, reply: Block, blocks: seq<Block>, n: nat)
    requires n <= |blocks| && (n > 0 ==> blocks[0] == reply)
    requires forall i :: 1 <= i < n ==> blocks[i] == h.RAck()
    ensures Attempts(h, reply, n) == blocks[..n]
  {
    if n > 0 {
      AttemptsAre(h, reply, blocks, n - 1);
    }
  }
}
