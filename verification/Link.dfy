/**
 The reader and the card joined by a link that can lose a frame either way, byte for
 byte. The card is shown to be the card of `SpecPeers` whenever it answers at all, so
 what holds of that one holds here.
 */
module Link {
  import opened Wire
  import opened Blocks
  import opened Chunking
  import opened Protocol
  import opened PcdLayer
  import opened Carriage
  import opened SpecPeers
  import P = PiccLayer
  import PcdRuns
  import Codings

  // ── The card and its application ────────────────────────────────────────

  /** An application that calls receive_command and send_response in turn: `got` are the
      commands it was given, and its answer to number i is `responses[i]`. */
  datatype Host = Host(card: P.Card, responses: seq<seq<byte>>, got: seq<seq<byte>>)

  /** A response that has gone out is followed by the next receive_command. */
  function Relisten(c: P.Card): P.Card {
    if c.at.Answered? then P.BeginReceive(c) else c
  }

  /** What the application does once the card has taken in a block. */
  function Respond(a: Host, c: P.Card, reply: Option<Block>, t: P.Terms): (Host, Option<Block>) {
    if !c.at.Got? then (a.(card := Relisten(c)), reply)
    else if |a.got| >= |a.responses| then (a.(card := c, got := a.got + [c.at.data]), None)
    else
      var (d, first) := P.BeginResponse(c, t, a.responses[|a.got|]);
      (a.(card := Relisten(d), got := a.got + [c.at.data]), first)
  }

  /** The card and its application on one received block; nothing once a call has failed
      or there is no answer. */
  function AttendBlock(a: Host, t: P.Terms, b: Block): (Host, Option<Block>) {
    if !P.Running(a.card) then (a, None) else
      var (c, reply) := P.OnBlock(a.card, b);
      Respond(a, c, reply, t)
  }

  /** The same on one received frame. */
  function Attend(a: Host, t: P.Terms, raw: Option<seq<byte>>): (Host, Option<seq<byte>>) {
    if !P.Running(a.card) then (a, None) else
      var (c, reply) := P.On(a.card, t, raw);
      if !c.at.Got? then (a.(card := Relisten(c)), reply) else
        var (n, first) := Respond(a, c, None, t);
        (n, if first.Some? then Some(Transmitted(t.hwCrc, first.value)) else None)
  }

  // ── The link ────────────────────────────────────────────────────────────

  /** A frame can be lost either way; the reader then hears nothing, or something else. */
  datatype Noise = Clear | CommandLost(heard: Option<seq<byte>>) | AnswerLost(heard: Option<seq<byte>>)

  /** Something else is not taken for a block. */
  predicate Detected(s: Session, f: Noise) {
    f != Clear ==> Parsed(s, f.heard).Err?
  }

  datatype Link = Link(reader: Reader, host: Host)

  /** The frame the reader sends next, as the card's transceiver hands it up. */
  function Request(r: Reader, s: Session, t: P.Terms): Option<seq<byte>>
    requires !r.Finished?
  {
    FromAir(t.hwCrc, ToAir(s.hwCrc, Transmitted(s.hwCrc, Pending(r).value)))
  }

  /** An answer of the card, as the reader's transceiver hands it up. */
  function AnswerHeard(answer: Option<seq<byte>>, s: Session, t: P.Terms): Option<seq<byte>> {
    if answer.Some? then FromAir(s.hwCrc, ToAir(t.hwCrc, answer.value)) else None
  }

  function Hop(l: Link, s: Session, t: P.Terms, f: Noise): Link {
    if l.reader.Finished? then l else
      match f
      case CommandLost(heard) => l.(reader := Feed(l.reader, Parsed(s, heard)))
      case AnswerLost(heard) => Link(Feed(l.reader, Parsed(s, heard)), Attend(l.host, t, Request(l.reader, s, t)).0)
      case Clear =>
        var (host, answer) := Attend(l.host, t, Request(l.reader, s, t));
        Link(Feed(l.reader, Parsed(s, AnswerHeard(answer, s, t))), host)
  }

  function Hops(l: Link, s: Session, t: P.Terms, noise: seq<Noise>): Link
    decreases |noise|
  {
    if noise == [] then l else Hops(Hop(l, s, t, noise[0]), s, t, noise[1..])
  }

  lemma AttendIsBlock(a: Host, t: P.Terms, b: Block)
    requires Sendable(b, t.fsc)
    ensures var (n, reply) := AttendBlock(a, t, b);
            Attend(a, t, Some(Transmitted(t.hwCrc, b)))
              == (n, if reply.Some? then Some(Transmitted(t.hwCrc, reply.value)) else None)
  {
    hide Process, Transmitted, P.ParsedCommand, Codings.IsPps, P.OnCommand, P.OnAck, P.BeginResponse;
    CardHears(t, b);
    OnBlockAgrees(a.card, P.ParsedCommand(t, Transmitted(t.hwCrc, b)).value, b);
    if P.Running(a.card) {
      GotSaysNothing(a.card, b);
    }
  }

  lemma GotSaysNothing(c: P.Card, b: Block)
    requires P.Running(c)
    ensures P.OnBlock(c, b).0.at.Got? ==> P.OnBlock(c, b).1 == None
  {
    hide Process;
  }

  // ── The card does what the rules say ────────────────────────────────────

  lemma AckSendable(h: Handler, size: nat)
    requires size >= 16
    ensures Sendable(h.RAck(), size)
  {
    PcdRuns.AirSize(h.RAck());
  }

  lemma ChunkSendable(h: Handler, data: seq<byte>, offset: nat, size: nat)
    requires MaxInf(size, h) > 0
    ensures Sendable(ChunkBlock(h, data, offset, MaxInf(size, h)), size)
  {
    PcdRuns.AirSize(ChunkBlock(h, data, offset, MaxInf(size, h)));
  }

  ghost predicate BothSent(b: Option<Block>, s: Option<Block>, size: nat) {
    b.Some? == s.Some? && (b.Some? ==> Agrees(b.value, s.value) && Sendable(b.value, size))
  }

  predicate SameResponses(a: Host, p: SpecCard, m: nat)
    requires m > 0
  {
    && |a.responses| == |p.responses|
    && forall i :: 0 <= i < |a.responses| ==> p.responses[i] == Chunks(a.responses[i], m)
  }

  /** The card and its application are where the card of the rules is. A card that has
      sent nothing in this session may still hold a block of an earlier one. */
  ghost predicate Mirrors(a: Host, p: SpecCard, t: P.Terms) {
    var c := a.card;
    var m := MaxInf(t.fsd, c.h);
    && c.h.role == Role.Picc && c.h.number == p.number && c.h.chain == p.partial
    && a.got == p.received
    && (p.lastSent.Some? ==> BothSent(c.lastSent, p.lastSent, t.fsd))
    && t.fsd >= 16 && m > 0
    && SameResponses(a, p, m)
    && match c.at
       case Listening => p.chunk == 0 && |a.got| == p.command
       case Answering(data, maxInf, end, iblock) =>
         && |a.got| == p.command + 1 && p.command < |p.responses|
         && 0 < p.chunk < |p.responses[p.command]|
         && c.h.chain == [] && maxInf == m && end < |data|
         && Chunks(data[end..], m) == p.responses[p.command][p.chunk..]
         && Some(iblock) == c.lastSent && p.lastSent.Some?
       case _ => false
  }

  lemma MirroredGot(a: Host, p: SpecCard, t: P.Terms)
    requires Mirrors(a, p, t)
    ensures a.got == p.received
  {
  }

  /** A block the reader sends in step: the next chunk of a command, or an R(ACK) that
      releases a chunk or asks for one again. */
  predicate Expected(p: SpecCard, b: Block) {
    match b.pcb.blockType
    case IBlock => b.pcb.number != p.number && p.chunk == 0 && p.command < |p.responses|
    case RBlock => b.pcb.rSubtype == Some(Ack) && if AsksAgain(p, b) then p.lastSent.Some? else p.chunk != 0
    case SBlock => false
  }

  predicate AsksAgain(p: SpecCard, b: Block) {
    b.pcb.blockType == RBlock && b.pcb.number == p.number
  }

  /** The card's budgets allow for the block. */
  predicate Bears(h: Handler, p: SpecCard, b: Block) {
    && Next16(h.counters.frames) <= h.limits.maxFrames
    && (b.pcb.blockType == IBlock ==> |h.chain| + |b.payload| <= h.limits.maxChainLen)
    && (AsksAgain(p, b) ==> Next8(h.counters.retransmissions) <= h.limits.maxRetransmissions)
  }

  predicate Spent(h: Handler, n: Handler, again: bool, relistened: bool) {
    && n.limits == h.limits && n.cid == h.cid
    && n.counters.frames == (if relistened then 0 else Next16(h.counters.frames))
    && n.counters.retransmissions == if again then Next8(h.counters.retransmissions) else 0
  }

  /** What a block that the card takes costs it; the last chunk of a response starts the
      count for the next command. */
  predicate Charged(h: Handler, n: P.Card, p: SpecCard, b: Block) {
    Spent(h, n.h, AsksAgain(p, b),
          n.at.Listening? && !AsksAgain(p, b) && !(b.pcb.blockType == IBlock && b.pcb.chaining))
  }

  /** The two cards do the same with a block, unless this one fails; and it fails exactly
      when its budgets do not allow for the block. */
  ghost predicate Follows(a: Host, p: SpecCard, t: P.Terms, b: Block) {
    var (n, reply) := AttendBlock(a, t, b);
    var (q, answer) := Serve(p, b);
    && n.responses == a.responses
    && (Bears(a.card.h, p, b) <==> !n.card.at.Stopped?)
    && if n.card.at.Stopped? then reply == None && n.got == a.got
       else && Mirrors(n, q, t) && reply.Some? && BothSent(reply, answer, t.fsd)
            && Charged(a.card.h, n.card, p, b)
  }

  /** Rules D and 2. */
  lemma PiccTakes(h: Handler, b: Block)
    requires h.role == Role.Picc && b.pcb.blockType == IBlock && b.pcb.number != h.number
    ensures var (n, o) := Process(h, b);
            && (o.Ok? ==> && n.role == h.role && n.number == 1 - h.number && Spent(h, n, false, false)
                          && (b.pcb.chaining ==> n.chain == h.chain + b.payload && o.value == Reply(n.RAck()))
                          && (!b.pcb.chaining ==> n.chain == [] && o.value == Complete(h.chain + b.payload)))
            && (o.Ok? <==> && Next16(h.counters.frames) <= h.limits.maxFrames
                           && |h.chain| + |b.payload| <= h.limits.maxChainLen)
  {
  }

  /** Rule 11. */
  lemma PiccAskedAgain(h: Handler, b: Block)
    requires h.role == Role.Picc && b.pcb.blockType == RBlock && b.pcb.rSubtype == Some(Ack)
    requires b.pcb.number == h.number
    ensures var (n, o) := Process(h, b);
            && (o.Ok? ==> && o.value == ChainingRetransmit && Spent(h, n, true, false)
                          && n == h.(counters := n.counters))
            && (o.Ok? <==> && Next16(h.counters.frames) <= h.limits.maxFrames
                           && Next8(h.counters.retransmissions) <= h.limits.maxRetransmissions)
  {
  }

  /** Rules E and 13. */
  lemma PiccReleased(h: Handler, b: Block)
    requires h.role == Role.Picc && b.pcb.blockType == RBlock && b.pcb.rSubtype == Some(Ack)
    requires b.pcb.number != h.number
    ensures var (n, o) := Process(h, b);
            && (o.Ok? ==> && o.value == ChainingAck && Spent(h, n, false, false)
                          && n == h.(number := 1 - h.number, counters := n.counters))
            && (o.Ok? <==> Next16(h.counters.frames) <= h.limits.maxFrames)
  {
  }

  /** Both cards send the next chunk. */
  lemma BothSendChunk(a: Host, c: P.Card, data: seq<byte>, offset: nat, p: SpecCard, t: P.Terms)
    requires c.h.role == Role.Picc && c.h.number == p.number && c.h.chain == p.partial == []
    requires a.got == p.received && |a.got| == p.command + 1 && p.command < |p.responses|
    requires t.fsd >= 16 && MaxInf(t.fsd, c.h) > 0 && SameResponses(a, p, MaxInf(t.fsd, c.h))
    requires offset <= |data| && p.chunk < |p.responses[p.command]|
    requires Chunks(data[offset..], MaxInf(t.fsd, c.h)) == p.responses[p.command][p.chunk..]
    ensures var m := MaxInf(t.fsd, c.h);
            var (d, reply) := P.SendFrom(c, data, m, offset);
            var (q, answer) := SendNextChunk(p);
            && Mirrors(a.(card := Relisten(d)), q, t)
            && reply.Some? && BothSent(reply, answer, t.fsd)
            && (d.at.Answering? ==> d.h == c.h)
            && (d.at.Answered? ==> Relisten(d).h == c.h.BeginExchange())
            && (d.at.Answering? || d.at.Answered?)
  {
    hide Sendable, SameResponses;
    var m := MaxInf(t.fsd, c.h);
    ChunkSendable(c.h, data, offset, t.fsd);
    ChunkAgrees(c.h, p, data, offset, m);
    SameResponsesKept(a, p, m);
    assert p.responses[p.command][p.chunk..][1..] == p.responses[p.command][p.chunk + 1..];
  }

  lemma FollowsChunk(a: Host, p: SpecCard, t: P.Terms, b: Block)
    requires Mirrors(a, p, t) && b.pcb.blockType == IBlock && b.pcb.chaining && Expected(p, b)
    ensures Follows(a, p, t, b)
  {
    hide Process, Sendable, P.SendFrom, SameResponses, Chunks;
    SameResponsesKept(a, p, MaxInf(t.fsd, a.card.h));
    PiccTakes(a.card.h, b);
    var (n, o) := Process(a.card.h, b);
    if o.Ok? {
      AckSendable(n, t.fsd);
    }
  }

  lemma FollowsLastChunk(a: Host, p: SpecCard, t: P.Terms, b: Block)
    requires Mirrors(a, p, t) && b.pcb.blockType == IBlock && !b.pcb.chaining && Expected(p, b)
    ensures Follows(a, p, t, b)
  {
    hide Process, Sendable, P.SendFrom, SameResponses, Chunks;
    var c, m := a.card, MaxInf(t.fsd, a.card.h);
    SameResponsesKept(a, p, m);
    PiccTakes(c.h, b);
    var (n, o) := Process(c.h, b);
    if o.Ok? {
      ResponseChunks(a, p, m, p.command);
      var apdu := p.partial + b.payload;
      var q := p.(number := 1 - p.number, partial := [], received := p.received + [apdu]);
      BothSendChunk(a.(got := q.received), c.(h := n, at := P.Got(apdu)), a.responses[p.command], 0, q, t);
    }
  }

  lemma ResponseChunks(a: Host, p: SpecCard, m: nat, i: nat)
    requires m > 0 && SameResponses(a, p, m) && i < |p.responses|
    ensures i < |a.responses| && |p.responses[i]| > 0
    ensures p.responses[i] == Chunks(a.responses[i], m)
    ensures Chunks(a.responses[i][0..], m) == p.responses[i][0..]
  {
    assert a.responses[i][0..] == a.responses[i];
  }

  lemma FollowsAskedAgain(a: Host, p: SpecCard, t: P.Terms, b: Block)
    requires Mirrors(a, p, t) && AsksAgain(p, b) && Expected(p, b)
    ensures Follows(a, p, t, b)
  {
    hide Process, Sendable, P.SendFrom, SameResponses, Chunks;
    PiccAskedAgain(a.card.h, b);
    SameResponsesKept(a, p, MaxInf(t.fsd, a.card.h));
  }

  lemma FollowsRelease(a: Host, p: SpecCard, t: P.Terms, b: Block)
    requires Mirrors(a, p, t) && b.pcb.blockType == RBlock && !AsksAgain(p, b) && Expected(p, b)
    ensures Follows(a, p, t, b)
  {
    hide Process, Sendable, P.SendFrom, SameResponses, Chunks;
    var c := a.card;
    PiccReleased(c.h, b);
    var (n, o) := Process(c.h, b);
    if o.Ok? && c.at.Answering? {
      SameResponsesKept(a, p, MaxInf(t.fsd, c.h));
      BothSendChunk(a, c.(h := n), c.at.data, c.at.end, p.(number := 1 - p.number), t);
    }
  }

  lemma SameResponsesKept(a: Host, p: SpecCard, m: nat)
    requires m > 0 && SameResponses(a, p, m)
    ensures forall b: Host, q: SpecCard {:trigger SameResponses(b, q, m)} ::
              b.responses == a.responses && q.responses == p.responses ==> SameResponses(b, q, m)
  {
  }

  lemma ChunkAgrees(h: Handler, p: SpecCard, data: seq<byte>, offset: nat, m: nat)
    requires m > 0 && offset <= |data| && h.number == p.number
    requires p.command < |p.responses| && p.chunk < |p.responses[p.command]|
    requires Chunks(data[offset..], m) == p.responses[p.command][p.chunk..]
    ensures var (q, answer) := SendNextChunk(p);
            answer.Some? && Agrees(ChunkBlock(h, data, offset, m), answer.value)
    ensures var rest := p.responses[p.command][p.chunk..];
            if offset + m < |data| then |rest| > 1 && Chunks(data[offset + m..], m) == rest[1..]
            else |rest| == 1
  {
    var rest := data[offset..];
    assert Chunks(rest, m)[0] == p.responses[p.command][p.chunk] == Chunk(data, offset, m);
    if offset + m < |data| {
      assert rest[m..] == data[offset + m..];
      assert Chunks(rest, m)[1..] == Chunks(rest[m..], m);
    }
  }

  /** The card does what the rules say, or gives up. */
  lemma CardFollows(a: Host, p: SpecCard, t: P.Terms, b: Block)
    requires Mirrors(a, p, t) && Expected(p, b)
    ensures Follows(a, p, t, b)
  {
    hide Mirrors, Follows;
    match b.pcb.blockType {
      case IBlock => if b.pcb.chaining { FollowsChunk(a, p, t, b); } else { FollowsLastChunk(a, p, t, b); }
      case RBlock => if AsksAgain(p, b) { FollowsAskedAgain(a, p, t, b); } else { FollowsRelease(a, p, t, b); }
    }
  }
}
