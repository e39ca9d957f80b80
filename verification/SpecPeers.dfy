/**
 Peers that apply the numbering rules of sections 7.5.3 and 7.5.4 of ISO/IEC 14443-4 to
 the letter, and the exchange of the reader with such a card over a link that loses
 blocks.
 */
module SpecPeers {
  import opened Wire
  import opened Blocks
  import opened Chunking
  import opened Protocol
  import opened PcdLayer

  // ── The card ────────────────────────────────────────────────────────────

  /** Rule C starts the number at 1. `responses` holds one list of chunks per command. */
  datatype SpecCard = SpecCard(number: Number, responses: seq<seq<seq<byte>>>, command: nat, chunk: nat,
                               lastSent: Option<Block>, received: seq<seq<byte>>, partial: seq<byte>,
                               repeats: nat)

  function AckBlock(n: Number): Block {
    Block(Pcb.New(RBlock).WithNumber(n).WithR(Ack), None, None, [])
  }

  function DataBlock(n: Number, payload: seq<byte>, chaining: bool): Block {
    Block(Pcb.New(IBlock).WithNumber(n).WithChaining(chaining), None, None, payload)
  }

  function SendAck(c: SpecCard): (SpecCard, Option<Block>) {
    (c.(lastSent := Some(AckBlock(c.number))), Some(AckBlock(c.number)))
  }

  function SendNextChunk(c: SpecCard): (SpecCard, Option<Block>) {
    if c.command >= |c.responses| || c.chunk >= |c.responses[c.command]| then (c, None) else
      var chunks := c.responses[c.command];
      var chaining := c.chunk + 1 < |chunks|;
      var b := DataBlock(c.number, chunks[c.chunk], chaining);
      (c.(lastSent := Some(b),
          command := if chaining then c.command else c.command + 1,
          chunk := if chaining then c.chunk + 1 else 0), Some(b))
  }

  /** Takes a block; `None` is a failure to answer. */
  function Serve(c: SpecCard, b: Block): (SpecCard, Option<Block>) {
    match b.pcb.blockType
    case IBlock => // Rule D
      var t := c.(number := 1 - c.number, partial := c.partial + b.payload);
      if b.pcb.chaining then SendAck(t) // Rule 2
      else SendNextChunk(t.(partial := [], received := t.received + [t.partial]))
    case RBlock =>
      if b.pcb.rSubtype != Some(Ack) then (c, None)
      else if b.pcb.number == c.number then (c.(repeats := c.repeats + 1), c.lastSent) // Rule 11
      else SendNextChunk(c.(number := 1 - c.number)) // Rules E and 13
    case SBlock => (c, None)
  }

  // ── The link ────────────────────────────────────────────────────────────

  /** What happens to one block and its answer. A lost or unreadable answer reaches the
      reader as an error. */
  datatype Fault = Clean | RequestLost(error: PcdError) | AnswerLost(error: PcdError)

  datatype System = System(reader: Reader, card: SpecCard)

  function Step(s: System, f: Fault): System {
    if s.reader.Finished? then s else
      match f
      case RequestLost(e) => s.(reader := Feed(s.reader, Err(e)))
      case AnswerLost(e) => System(Feed(s.reader, Err(e)), Serve(s.card, Pending(s.reader).value).0)
      case Clean =>
        var (card, answer) := Serve(s.card, Pending(s.reader).value);
        System(Feed(s.reader, if answer.Some? then Ok(answer.value) else Err(TransceiverError)), card)
  }

  function Steps(s: System, faults: seq<Fault>): System
    decreases |faults|
  {
    if faults == [] then s else Steps(Step(s, faults[0]), faults[1..])
  }

  // ── Safety: what every step keeps ───────────────────────────────────────

  /** One exchange: the command, the response the card will give, and the card's ledger
      when the exchange starts. */
  datatype Exchange = Exchange(apdu: seq<byte>, chunks: seq<seq<byte>>, command: nat,
                               received: seq<seq<byte>>, repeats: nat)

  /** The reader may send a command: the numbers differ, nothing is half done. */
  ghost predicate Between(h: Handler, c: SpecCard) {
    h.role == Role.Pcd && h.number != c.number && c.chunk == 0 && c.partial == []
  }

  ghost function ChunksSent(c: SpecCard, x: Exchange): nat {
    if c.command == x.command then c.chunk else |x.chunks|
  }

  /** The card has sent chunk `i` of the response last. */
  ghost predicate LastSent(c: SpecCard, x: Exchange, i: nat) {
    i < |x.chunks| && c.lastSent == Some(DataBlock(c.number, x.chunks[i], i + 1 < |x.chunks|))
  }

  /** The card has answered with `n` chunks: it is in the middle of the response, or has
      ended it. */
  ghost predicate Responding(c: SpecCard, x: Exchange, n: nat) {
    && 1 <= n <= |x.chunks|
    && (if n < |x.chunks| then c.command == x.command && c.chunk == n
        else c.command == x.command + 1 && c.chunk == 0)
    && c.received == x.received + [x.apdu]
    && c.partial == []
  }

  /** The block numbers differ while the command goes out. They differ again when the
      reader asks for a chunk the card has yet to send, and are equal while it asks for
      one the card has sent already. */
  ghost predicate Keeps(s: System, x: Exchange) {
    var c := s.card;
    && x.command < |c.responses| && c.responses[x.command] == x.chunks
    && s.reader.h.role == Role.Pcd
    && match s.reader
       case Sending(h, apdu, m, offset) =>
         && apdu == x.apdu && 0 < m && offset < |apdu|
         && h.number != c.number && c.chunk == 0
         && c.partial == apdu[..offset] && h.chain == []
         && c.command == x.command && c.received == x.received
       case Collecting(h, reply, _) =>
         && reply == h.RAck()
         && (|| Waiting(h, c, x) || Ahead(h, c, x))
       case Finished(h, result) =>
         if result.Ok? then
           && result.value == Flatten(x.chunks)
           && Between(h, c) && h.chain == []
           && c.command == x.command + 1 && c.received == x.received + [x.apdu]
         else c.received == x.received || c.received == x.received + [x.apdu]
  }

  /** The card has sent what the reader has, and more is to come. */
  ghost predicate Waiting(h: Handler, c: SpecCard, x: Exchange) {
    && h.number != c.number
    && c.chunk < |x.chunks| && c.command == x.command && Responding(c, x, c.chunk)
    && h.chain == Flatten(x.chunks[..c.chunk])
  }

  /** The card has sent one chunk more than the reader has. */
  ghost predicate Ahead(h: Handler, c: SpecCard, x: Exchange) {
    var n := ChunksSent(c, x);
    && h.number == c.number
    && 2 <= n && Responding(c, x, n)
    && h.chain == Flatten(x.chunks[..n - 1])
    && LastSent(c, x, n - 1)
  }

  /** The chunks the reader has yet to ask for again: one if it missed the last. */
  function Owed(s: System): nat {
    if s.reader.Collecting? && s.reader.h.number == s.card.number then 1 else 0
  }

  predicate Failed(r: Reader) {
    r.Finished? && r.result.Err?
  }

  /** Rule 11 fires once for each answer that is lost. */
  ghost predicate RepeatsCounted(s: System, f: Fault, t: System) {
    && (f == Clean ==> Owed(t) == 0)
    && (Failed(t.reader) || t.card.repeats + Owed(t) == s.card.repeats + Owed(s) + if f.AnswerLost? then 1 else 0)
  }

  lemma PrefixSnoc(chunks: seq<seq<byte>>, i: nat)
    requires i < |chunks|
    ensures Flatten(chunks[..i + 1]) == Flatten(chunks[..i]) + chunks[i]
  {
    assert chunks[..i + 1] == chunks[..i] + [chunks[i]];
    FlattenSnoc(chunks[..i], chunks[i]);
  }

  /** An acknowledgement in step, in the reader's handler. */
  lemma AckHeard(h: Handler, b: Block)
    requires h.role == Role.Pcd && b.pcb.blockType == RBlock && b.pcb.rSubtype == Some(Ack)
    requires b.pcb.number == h.number
    ensures var (n, o) := Process(h, b);
            && n.role == h.role && n.cid == h.cid && n.limits == h.limits
            && (o.Ok? ==> o.value == ChainingAck && n.number == 1 - h.number && n.chain == h.chain)
            && (h.counters.frames < h.limits.maxFrames ==> o.Ok? && n.counters.frames == h.counters.frames + 1)
  {
  }

  /** A chunk in step, in the reader's handler. */
  lemma ChunkHeard(h: Handler, b: Block)
    requires h.role == Role.Pcd && b.pcb.blockType == IBlock && b.pcb.number == h.number
    ensures var (n, o) := Process(h, b);
            && n.role == h.role && n.cid == h.cid && n.limits == h.limits
            && (o.Ok? ==> n.number == 1 - h.number)
            && (o.Ok? && b.pcb.chaining ==> o.value == Reply(n.RAck()) && n.chain == h.chain + b.payload)
            && (o.Ok? && !b.pcb.chaining ==> o.value == Complete(h.chain + b.payload) && n.chain == [])
            && (h.counters.frames < h.limits.maxFrames && |h.chain + b.payload| <= h.limits.maxChainLen ==>
                  o.Ok? && n.counters.frames == h.counters.frames + 1)
  {
  }

  /** The reader takes the chunk the card sent last. */
  lemma TakeKeeps(h: Handler, c: SpecCard, x: Exchange, i: nat)
    requires x.command < |c.responses| && c.responses[x.command] == x.chunks
    requires h.role == Role.Pcd && h.number == c.number
    requires LastSent(c, x, i) && Responding(c, x, i + 1) && h.chain == Flatten(x.chunks[..i])
    ensures Keeps(System(Take(h, c.lastSent.value), c), x)
    ensures Owed(System(Take(h, c.lastSent.value), c)) == 0
  {
    hide Process;
    ChunkHeard(h, c.lastSent.value);
    PrefixSnoc(x.chunks, i);
    assert x.chunks[..|x.chunks|] == x.chunks;
  }

  /** The card sends its next chunk. */
  lemma NextChunk(c: SpecCard, x: Exchange)
    requires x.command < |c.responses| && c.responses[x.command] == x.chunks
    requires c.command == x.command && c.chunk < |x.chunks|
    requires c.received == x.received + [x.apdu] && c.partial == []
    ensures var (t, answer) := SendNextChunk(c);
            && answer == t.lastSent && LastSent(t, x, c.chunk) && Responding(t, x, c.chunk + 1)
            && t.number == c.number && t.responses == c.responses && t.repeats == c.repeats
            && ChunksSent(t, x) == c.chunk + 1
  {
  }

  lemma SendingKeeps(s: System, x: Exchange, f: Fault)
    requires Keeps(s, x) && x.chunks != [] && s.reader.Sending?
    ensures Keeps(Step(s, f), x)
    ensures Step(s, f).reader.Finished? || f == Clean
    ensures RepeatsCounted(s, f, Step(s, f))
  {
    hide Process;
    var r, c := s.reader, s.card;
    var b := Pending(r).value;
    var chunk := Chunk(r.apdu, r.offset, r.maxInf);
    assert c.partial + chunk == r.apdu[..ChunkEnd(r.apdu, r.offset, r.maxInf)];
    assert r.apdu[..|r.apdu|] == r.apdu;
    if f == Clean {
      if r.offset + r.maxInf < |r.apdu| {
        AckHeard(r.h, AckBlock(1 - c.number));
      } else {
        var t := c.(number := 1 - c.number, partial := [], received := x.received + [x.apdu]);
        NextChunk(t, x);
        assert Flatten(x.chunks[..0]) == [];
        TakeKeeps(r.h, Serve(c, b).0, x, 0);
      }
    }
  }

  lemma CollectingKeeps(s: System, x: Exchange, f: Fault)
    requires Keeps(s, x) && s.reader.Collecting?
    ensures Keeps(Step(s, f), x)
    ensures RepeatsCounted(s, f, Step(s, f))
  {
    hide Process;
    var h, c := s.reader.h, s.card;
    if f.RequestLost? {
    } else if Waiting(h, c, x) {
      NextChunk(c.(number := 1 - c.number), x);
      TakeKeeps(h, Serve(c, Pending(s.reader).value).0, x, c.chunk);
    } else {
      TakeKeeps(h, c.(repeats := c.repeats + 1), x, ChunksSent(c, x) - 1);
    }
  }

  /** Every step keeps the exchange, whatever the link loses. */
  lemma StepKeeps(s: System, x: Exchange, f: Fault)
    requires Keeps(s, x) && x.chunks != []
    ensures Keeps(Step(s, f), x)
    ensures Step(s, f).card.responses == s.card.responses
    ensures !s.reader.Finished? ==> RepeatsCounted(s, f, Step(s, f))
  {
    hide Process;
    if s.reader.Sending? {
      SendingKeeps(s, x, f);
    } else if s.reader.Collecting? {
      CollectingKeeps(s, x, f);
    }
  }

  lemma {:induction false} StepsKeep(s: System, x: Exchange, faults: seq<Fault>)
    requires Keeps(s, x) && x.chunks != []
    ensures Keeps(Steps(s, faults), x)
    ensures Steps(s, faults).card.responses == s.card.responses
    decreases |faults|
  {
    if faults != [] {
      StepKeeps(s, x, faults[0]);
      StepsKeep(Step(s, faults[0]), x, faults[1..]);
    }
  }
}
