/**
 One side of the half-duplex block protocol (sections 7.3 and 7.5 of ISO/IEC 14443-4):
 block numbering, chain assembly and the limits on the work a peer can ask for.

 `Process` is the protocol as a table: `Reads` says what a block means to a role under
 the numbering Rules A to E and the block rules, and each meaning has its effect. The
 class is the handler as the program has it; every method is proved against the table.
 */
module Protocol {
  import opened Wire
  import opened Blocks

  datatype Role = Pcd | Picc

  datatype Limits = Limits(maxFrames: u16, maxRetransmissions: u8, maxConsecutiveWtx: u8,
                           maxTotalWtx: u16, maxChainLen: nat)

  datatype Counters = Counters(frames: u16, retransmissions: u8, consecutiveWtx: u8, totalWtx: u16)

  datatype Action = Complete(data: seq<byte>) | Reply(block: Block) | ChainingAck | ChainingRetransmit

  type Outcome = Result<Action, TypeAError>

  const NO_COUNTS := Counters(0, 0, 0, 0)

  const DEFAULT_LIMITS := Limits(512, 3, 8, 32, 4096)

  /** Rule A for the PCD, Rule C for the PICC. */
  function InitialNumber(role: Role): Number {
    if role == Pcd then 0 else 1
  }

  function Next16(n: u16): u16 {
    if n < 0xFFFF then n + 1 else n
  }

  function Next8(n: u8): u8 {
    if n < 0xFF then n + 1 else n
  }

  /** The state of a handler as a value. */
  datatype Handler = Handler(role: Role, cid: Option<Cid>, number: Number, chain: seq<byte>,
                             limits: Limits, counters: Counters)
  {
    function BeginExchange(): Handler {
      this.(chain := [], counters := NO_COUNTS)
    }

    function Reset(): Handler {
      BeginExchange().(number := InitialNumber(role))
    }

    function Toggled(): Handler {
      this.(number := 1 - number)
    }

    /** A block carried the exchange forward. */
    function Progressed(): Handler {
      this.(counters := counters.(retransmissions := 0, consecutiveWtx := 0))
    }

    function Fail(limit: Limit): (Handler, Outcome) {
      (this.(chain := []), Err(LimitExceeded(limit)))
    }

    function Frame(): Handler {
      this.(counters := counters.(frames := Next16(counters.frames)))
    }

    function Retransmission(): Handler {
      this.(counters := counters.(retransmissions := Next8(counters.retransmissions)))
    }

    function Wtx(): Handler {
      this.(counters := counters.(consecutiveWtx := Next8(counters.consecutiveWtx)))
    }

    function TotalWtx(): Handler {
      this.(counters := counters.(totalWtx := Next16(counters.totalWtx)))
    }

    function Addressed(pcb: Pcb, payload: seq<byte>): Block {
      Block(pcb, cid, None, payload)
    }

    function I(payload: seq<byte>, chaining: bool): Block {
      Addressed(Pcb.New(IBlock).WithNumber(number).WithChaining(chaining), payload)
    }

    function RAck(): Block {
      Addressed(Pcb.New(RBlock).WithNumber(number).WithR(Ack), [])
    }

    function RNak(): Block {
      Addressed(Pcb.New(RBlock).WithNumber(number).WithR(Nak), [])
    }

    function S(subtype: SSubtype): Block {
      Addressed(Pcb.New(SBlock).WithS(subtype), [])
    }

    function WtxResponse(request: Block): Block {
      Addressed(Pcb.New(SBlock).WithS(SSubtype.Wtx), request.payload)
    }
  }

  // ── The rules ───────────────────────────────────────────────────────────

  /** What a block tells the role that receives it. */
  datatype Reading =
    | Taken        // an I-block in step: Rules B and D
    | Repeated     // an I-block taken in before
    | Acknowledged // the last chunk has arrived: Rules B and 7, Rules E and 13
    | AskedAgain   // the last block did not arrive: Rules 6 and 11
    | Polled       // is the card still there: Rule 12
    | WaitAsked    // S(WTX)
    | Released     // S(DESELECT)
    | Unreadable(error: TypeAError)

  /** In step, a PCD gets its own number back and a PICC the other one. */
  predicate InStep(role: Role, own: Number, theirs: Number) {
    if role == Pcd then theirs == own else theirs != own
  }

  function Reads(role: Role, own: Number, b: Block): Reading {
    match b.pcb.blockType
    case IBlock => if InStep(role, own, b.pcb.number) then Taken else Repeated
    case RBlock => (
      match b.pcb.rSubtype
      case None => Unreadable(InvalidPcb)
      case Some(Ack) => if InStep(role, own, b.pcb.number) then Acknowledged else AskedAgain
      case Some(Nak) => if role == Picc && b.pcb.number != own then Polled else AskedAgain
    )
    case SBlock => (
      match b.pcb.sSubtype
      case Some(Wtx) => WaitAsked
      case Some(Deselect) => Released
      case _ => Unreadable(Other)
    )
  }

  predicate ValidWtx(payload: seq<byte>) {
    |payload| == 1 && 1 <= payload[0] & 0x3f <= 59
  }

  /** The effect of a block that fits the frame budget. */
  function Effect(n: Handler, b: Block): (Handler, Outcome) {
    match Reads(n.role, n.number, b)
    case Taken =>
      if |n.chain| + |b.payload| > n.limits.maxChainLen then n.Fail(ChainLength) else
        var t := n.Progressed().Toggled().(chain := n.chain + b.payload);
        if b.pcb.chaining then (t, Ok(Reply(t.RAck()))) else (t.(chain := []), Ok(Complete(t.chain)))
    case Repeated => Recounted(n.Retransmission(), Reply(n.RAck()))
    case AskedAgain => Recounted(n.Retransmission(), ChainingRetransmit)
    case Acknowledged => (n.Progressed().Toggled(), Ok(ChainingAck))
    case Polled => (n, Ok(Reply(n.RAck())))
    case WaitAsked =>
      if !ValidWtx(b.payload) then n.Fail(WtxValue) else
        var w := n.Wtx();
        if w.counters.consecutiveWtx > w.limits.maxConsecutiveWtx then w.Fail(ConsecutiveWtx) else
          var t := w.TotalWtx();
          if t.counters.totalWtx > t.limits.maxTotalWtx then t.Fail(Limit.TotalWtx)
          else (t, Ok(Reply(t.WtxResponse(b))))
    case Released => (n.Reset(), Ok(Reply(n.S(Deselect))))
    case Unreadable(e) => (n, Err(e))
  }

  /** One received block: the new state and the action it calls for. */
  function Process(h: Handler, b: Block): (Handler, Outcome) {
    var n := h.Frame();
    if n.counters.frames > n.limits.maxFrames then n.Fail(Frames) else Effect(n, b)
  }

  function Recounted(n: Handler, action: Action): (Handler, Outcome) {
    if n.counters.retransmissions > n.limits.maxRetransmissions then n.Fail(Retransmissions)
    else (n, Ok(action))
  }

  /** A frame answered outside the block layer. */
  function NoteFrame(h: Handler): (Handler, Result<(), TypeAError>) {
    var n := h.Frame();
    if n.counters.frames > n.limits.maxFrames
    then (n.(chain := []), Err(LimitExceeded(Frames)))
    else (n, Ok(()))
  }

  // ── The handler ─────────────────────────────────────────────────────────

  class ProtocolHandler {
    const role: Role
    const cid: Option<Cid>
    var limits: Limits
    var blockNumber: Number
    var chain: seq<byte>
    var frames: u16
    var retransmissions: u8
    var consecutiveWtx: u8
    var totalWtx: u16

    function State(): Handler
      reads this
    {
      Handler(role, cid, blockNumber, chain, limits,
              Counters(frames, retransmissions, consecutiveWtx, totalWtx))
    }

    constructor WithLimits(role: Role, cid: Option<Cid>, limits: Limits)
      ensures State() == Handler(role, cid, InitialNumber(role), [], limits, NO_COUNTS)
    {
      this.role, this.cid, this.limits := role, cid, limits;
      blockNumber := if role == Pcd then 0 else 1;
      chain := [];
      frames, retransmissions, consecutiveWtx, totalWtx := 0, 0, 0, 0;
    }

    method SetLimits(limits: Limits)
      modifies this
      ensures State() == old(State()).(limits := limits)
    {
      this.limits := limits;
    }

    method ToggleBlockNumber()
      modifies this
      ensures State() == old(State()).Toggled()
    {
      blockNumber := 1 - blockNumber;
    }

    method ResetCounters()
      modifies this
      ensures State() == old(State()).(counters := NO_COUNTS)
    {
      frames, retransmissions, consecutiveWtx, totalWtx := 0, 0, 0, 0;
    }

    method NoteProgress()
      modifies this
      ensures State() == old(State()).Progressed()
    {
      retransmissions := 0;
      consecutiveWtx := 0;
    }

    method BeginExchange()
      modifies this
      ensures State() == old(State()).BeginExchange()
    {
      chain := [];
      ResetCounters();
    }

    method Reset()
      modifies this
      ensures State() == old(State()).Reset()
    {
      blockNumber := if role == Pcd then 0 else 1;
      BeginExchange();
    }

    method Exceeded(limit: Limit) returns (e: TypeAError)
      modifies this
      ensures State() == old(State()).(chain := [])
      ensures e == LimitExceeded(limit)
    {
      chain := [];
      e := LimitExceeded(limit);
    }

    method CountFrame() returns (r: Result<(), TypeAError>)
      modifies this
      ensures (State(), r) == NoteFrame(old(State()))
    {
      frames := if frames < 0xFFFF then frames + 1 else 0xFFFF;
      if frames > limits.maxFrames {
        var e := Exceeded(Frames);
        return Err(e);
      }
      return Ok(());
    }

    function BuildIblock(payload: seq<byte>, chaining: bool): Block
      reads this
    {
      var block := Block(Pcb.New(IBlock).WithNumber(blockNumber).WithChaining(chaining), None, None, []);
      (if cid.Some? then block.(cid := cid) else block).(payload := payload)
    }

    function BuildRack(): Block
      reads this
    {
      var block := Block(Pcb.New(RBlock).WithNumber(blockNumber).WithR(Ack), None, None, []);
      if cid.Some? then block.(cid := cid) else block
    }

    function BuildRnak(): Block
      reads this
    {
      var block := Block(Pcb.New(RBlock).WithNumber(blockNumber).WithR(Nak), None, None, []);
      if cid.Some? then block.(cid := cid) else block
    }

    function BuildSblock(subtype: SSubtype): Block
      reads this
    {
      var block := Block(Pcb.New(SBlock).WithS(subtype), None, None, []);
      if cid.Some? then block.(cid := cid) else block
    }

    function BuildWtxResponse(request: Block): Block
      reads this
    {
      BuildSblock(SSubtype.Wtx).(payload := request.payload)
    }

    lemma Builders(payload: seq<byte>, chaining: bool, subtype: SSubtype, request: Block)
      ensures BuildIblock(payload, chaining) == State().I(payload, chaining)
      ensures BuildRack() == State().RAck()
      ensures BuildRnak() == State().RNak()
      ensures BuildSblock(subtype) == State().S(subtype)
      ensures BuildWtxResponse(request) == State().WtxResponse(request)
    {
    }

    method ProcessReceived(block: Block) returns (r: Outcome)
      modifies this
      ensures (State(), r) == Process(old(State()), block)
    {
      var counted := CountFrame();
      if counted.Err? {
        return Err(counted.error);
      }
      match block.pcb.blockType {
        case IBlock => r := ProcessIblock(block);
        case RBlock => r := ProcessRblock(block);
        case SBlock => r := ProcessSblock(block);
      }
    }

    predicate RepeatsLastIblock(block: Block)
      reads this
    {
      match role
      case Pcd => block.pcb.number != blockNumber
      case Picc => block.pcb.number == blockNumber
    }

    method ProcessIblock(block: Block) returns (r: Outcome)
      requires block.pcb.blockType == IBlock
      modifies this
      ensures (State(), r) == Effect(old(State()), block)
    {
      if RepeatsLastIblock(block) {
        var noted := NoteRetransmit();
        if noted.Err? {
          return Err(noted.error);
        }
        return Ok(Reply(BuildRack()));
      }
      if |chain| + |block.payload| > limits.maxChainLen {
        var e := Exceeded(ChainLength);
        return Err(e);
      }
      NoteProgress();
      chain := chain + block.payload;
      ToggleBlockNumber();
      if block.pcb.chaining {
        return Ok(Reply(BuildRack()));
      } else {
        var data := chain;
        chain := [];
        return Ok(Complete(data));
      }
    }

    method ProcessRblock(block: Block) returns (r: Outcome)
      requires block.pcb.blockType == RBlock
      modifies this
      ensures (State(), r) == Effect(old(State()), block)
    {
      var matchesOurs := block.pcb.number == blockNumber;
      match (role, block.pcb.rSubtype) {
        case (_, None) =>
          return Err(InvalidPcb);
        case (Pcd, Some(subtype)) =>
          if subtype == Ack && matchesOurs {
            NoteProgress();
            ToggleBlockNumber();
            return Ok(ChainingAck);
          }
          var noted := NoteRetransmit();
          if noted.Err? {
            return Err(noted.error);
          }
          return Ok(ChainingRetransmit);
        case (Picc, Some(subtype)) =>
          if matchesOurs {
            var noted := NoteRetransmit();
            if noted.Err? {
              return Err(noted.error);
            }
            return Ok(ChainingRetransmit);
          }
          match subtype {
            case Ack =>
              NoteProgress();
              ToggleBlockNumber();
              return Ok(ChainingAck);
            case Nak =>
              return Ok(Reply(BuildRack()));
          }
      }
    }

    method NoteRetransmit() returns (r: Result<(), TypeAError>)
      modifies this
      ensures var n := old(State()).Retransmission();
              if n.counters.retransmissions > n.limits.maxRetransmissions
              then State() == n.(chain := []) && r == Err(LimitExceeded(Retransmissions))
              else State() == n && r == Ok(())
    {
      retransmissions := if retransmissions < 0xFF then retransmissions + 1 else 0xFF;
      if retransmissions > limits.maxRetransmissions {
        var e := Exceeded(Retransmissions);
        return Err(e);
      }
      return Ok(());
    }

    method ProcessSblock(block: Block) returns (r: Outcome)
      requires block.pcb.blockType == SBlock
      modifies this
      ensures (State(), r) == Effect(old(State()), block)
    {
      match block.pcb.sSubtype {
        case Some(Wtx) =>
          var checked := CheckWtx(block);
          if checked.Err? {
            return Err(checked.error);
          }
          return Ok(Reply(BuildWtxResponse(block)));
        case Some(Deselect) =>
          var resp := BuildSblock(Deselect);
          Reset();
          return Ok(Reply(resp));
        case _ =>
          return Err(Other);
      }
    }

    method CheckWtx(block: Block) returns (r: Result<(), TypeAError>)
      requires Reads(role, blockNumber, block) == WaitAsked
      modifies this
      ensures var (n, outcome) := Effect(old(State()), block);
              State() == n && (r.Ok? <==> outcome.Ok?) && (r.Err? ==> r.error == outcome.error)
    {
      if |block.payload| != 1 {
        var e := Exceeded(WtxValue);
        return Err(e);
      }
      var wtxm := block.payload[0] & 0x3f;
      if !(1 <= wtxm <= 59) {
        var e := Exceeded(WtxValue);
        return Err(e);
      }
      consecutiveWtx := if consecutiveWtx < 0xFF then consecutiveWtx + 1 else 0xFF;
      if consecutiveWtx > limits.maxConsecutiveWtx {
        var e := Exceeded(ConsecutiveWtx);
        return Err(e);
      }
      totalWtx := if totalWtx < 0xFFFF then totalWtx + 1 else 0xFFFF;
      if totalWtx > limits.maxTotalWtx {
        var e := Exceeded(Limit.TotalWtx);
        return Err(e);
      }
      return Ok(());
    }
  }
}
