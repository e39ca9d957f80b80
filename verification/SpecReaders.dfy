/**
 A reader that applies the numbering rules of section 7.5.3 and the block rules of section
 7.5.4 of ISO/IEC 14443-4 to the letter, and its exchanges with the card of this program.
 */
module SpecReaders {
  import opened Wire
  import opened Blocks
  import opened Chunking
  import opened Protocol
  import opened Carriage
  import opened SpecPeers
  import opened Link
  import P = PiccLayer
  import PcdRuns
  import SpecRuns
  import Crc

  // ── The reader ──────────────────────────────────────────────────────────

  /** `commands` holds one list of chunks per exchange. */
  datatype SpecReader = SpecReader(number: Number, commands: seq<seq<seq<byte>>>, command: nat, chunk: nat,
                                   pending: Option<Block>, assembled: seq<seq<byte>>, partial: seq<byte>,
                                   repeats: nat)

  /** Queues the chunk the reader is on; without one it has nothing to say. */
  function QueueChunk(r: SpecReader): SpecReader {
    if r.command >= |r.commands| || r.chunk >= |r.commands[r.command]| then r.(pending := None) else
      var chunks := r.commands[r.command];
      r.(pending := Some(DataBlock(r.number, chunks[r.chunk], r.chunk + 1 < |chunks|)))
  }

  function QueueAck(r: SpecReader): SpecReader {
    r.(pending := Some(AckBlock(r.number)))
  }

  /** Reacts to a block of the card. */
  function Handle(r: SpecReader, b: Block): SpecReader {
    match b.pcb.blockType
    case RBlock =>
      if b.pcb.number == r.number
      then QueueChunk(r.(number := 1 - r.number, chunk := r.chunk + 1)) // Rules B and 7
      else QueueChunk(r.(repeats := r.repeats + 1)) // Rule 6
    case IBlock =>
      if b.pcb.number != r.number then QueueAck(r.(repeats := r.repeats + 1)) else
        var t := r.(number := 1 - r.number, partial := r.partial + b.payload);
        if b.pcb.chaining then QueueAck(t) // Rule 2
        else
          var u := t.(partial := [], assembled := t.assembled + [t.partial], command := t.command + 1, chunk := 0);
          if u.command < |u.commands| then QueueChunk(u) else u
    case SBlock => r
  }

  // ── The two at work ─────────────────────────────────────────────────────

  datatype Pair = Pair(reader: SpecReader, host: Host)

  /** The block goes out, and the answer, if there is one, comes back. */
  function Round(d: Pair, t: P.Terms): Pair {
    if d.reader.pending.None? then d else
      var r := d.reader.(pending := None);
      var (host, answer) := Attend(d.host, t, FromAir(t.hwCrc, OnAir(d.reader.pending.value)));
      if answer.None? then Pair(r, host) else
        var block := ParseAir(ToAir(t.hwCrc, answer.value));
        if block.Err? then Pair(QueueChunk(r), host) else Pair(Handle(r, block.value), host)
  }

  function Rounds(d: Pair, t: P.Terms, n: nat): Pair {
    if n == 0 then d else Round(Rounds(d, t, n - 1), t)
  }

  // ── Against the card of the rules ───────────────────────────────────────

  ghost predicate NoneEmpty(lists: seq<seq<seq<byte>>>) {
    forall i :: 0 <= i < |lists| ==> lists[i] != []
  }

  /** The first `n` lists, each joined up. */
  ghost function Whole(lists: seq<seq<seq<byte>>>, n: nat): seq<seq<byte>>
    requires n <= |lists|
  {
    seq(n, i requires 0 <= i < n => Flatten(lists[i]))
  }

  /** Where the reader is in the exchange under way: on a command chunk, or asking for the
      response chunk the card has yet to send. It has repeated nothing. */
  ghost predicate Paced(r: SpecReader, p: SpecCard) {
    && r.command <= |r.commands| <= |p.responses|
    && NoneEmpty(r.commands) && NoneEmpty(p.responses)
    && r.repeats == 0
    && r.number != p.number && p.command == r.command
    && r.assembled == Whole(p.responses, r.command)
    && (if p.chunk == 0 then
          && r.partial == [] && p.received == Whole(r.commands, r.command)
          && (if r.command == |r.commands| then r.pending == None else OnChunk(r, p))
        else OnResponse(r, p))
  }

  ghost predicate OnChunk(r: SpecReader, p: SpecCard)
    requires r.command < |r.commands|
  {
    var chunks := r.commands[r.command];
    && r.chunk < |chunks|
    && r.pending == Some(DataBlock(r.number, chunks[r.chunk], r.chunk + 1 < |chunks|))
    && p.partial == Flatten(chunks[..r.chunk])
  }

  ghost predicate OnResponse(r: SpecReader, p: SpecCard)
    requires r.command <= |r.commands| <= |p.responses| && p.command == r.command
  {
    && r.command < |r.commands|
    && p.chunk < |p.responses[p.command]|
    && r.pending == Some(AckBlock(r.number))
    && p.partial == [] && r.partial == Flatten(p.responses[p.command][..p.chunk])
    && p.received == Whole(r.commands, r.command + 1)
  }

  lemma WholeNext(lists: seq<seq<seq<byte>>>, n: nat)
    requires n < |lists|
    ensures Whole(lists, n + 1) == Whole(lists, n) + [Flatten(lists[n])]
  {
  }

  /** The reader takes the chunk that the card sends next. */
  lemma ResponsePaced(r: SpecReader, p: SpecCard)
    requires r.command < |r.commands| <= |p.responses|
    requires NoneEmpty(r.commands) && NoneEmpty(p.responses)
    requires r.pending == None && r.repeats == 0 && r.number == p.number && p.command == r.command
    requires r.assembled == Whole(p.responses, r.command) && p.received == Whole(r.commands, r.command + 1)
    requires p.chunk < |p.responses[p.command]| && p.partial == []
    requires r.partial == Flatten(p.responses[p.command][..p.chunk])
    ensures var (q, answer) := SendNextChunk(p);
            answer.Some? && Paced(Handle(r, answer.value), q)
  {
    var chunks := p.responses[p.command];
    PrefixSnoc(chunks, p.chunk);
    WholeNext(p.responses, r.command);
    assert chunks[..|chunks|] == chunks;
    if r.command + 1 < |r.commands| {
      var next := r.commands[r.command + 1];
      assert next != [] && next[..0] == [];
    }
  }

  /** One round with the card of the rules. */
  lemma RulesPaced(r: SpecReader, p: SpecCard)
    requires Paced(r, p) && r.pending.Some?
    ensures Expected(p, r.pending.value) && !AsksAgain(p, r.pending.value)
    ensures r.pending.value.pcb.blockType == RBlock ==> p.chunk != 0
    ensures var (q, answer) := Serve(p, r.pending.value);
            answer.Some? && Paced(Handle(r.(pending := None), answer.value), q)
  {
    hide NoneEmpty;
    var b := r.pending.value;
    if p.chunk > 0 {
      ResponsePaced(r.(pending := None), p.(number := 1 - p.number));
    } else {
      var chunks := r.commands[r.command];
      PrefixSnoc(chunks, r.chunk);
      if r.chunk + 1 == |chunks| {
        assert chunks[..|chunks|] == chunks;
        WholeNext(r.commands, r.command);
        assert p.responses[p.command][..0] == [];
        HasResponse(p, p.command);
        ResponsePaced(r.(pending := None),
                      p.(number := 1 - p.number, partial := [], received := p.received + [p.partial + b.payload]));
      }
    }
  }

  lemma HasResponse(p: SpecCard, i: nat)
    requires NoneEmpty(p.responses) && i < |p.responses|
    ensures |p.responses[i]| > 0
  {
  }

  // ── Against the card of the program ─────────────────────────────────────

  lemma HandleAgrees(r: SpecReader, a: Block, b: Block)
    requires Agrees(a, b)
    ensures Handle(r, a) == Handle(r, b)
  {
  }

  /** The round as the two see it, block by block. */
  lemma RoundIsBlocks(d: Pair, t: P.Terms, b: Block)
    requires d.reader.pending == Some(b) && Sendable(b, t.fsc)
    requires var reply := AttendBlock(d.host, t, b).1; reply.Some? ==> Sendable(reply.value, t.fsd)
    ensures var (host, reply) := AttendBlock(d.host, t, b);
            var r := d.reader.(pending := None);
            Round(d, t) == Pair(if reply.None? then r else Handle(r, reply.value), host)
  {
    hide AttendBlock, Attend, Transmitted, FromAir, ToAir, ParseAir, OnAir, WellFormed, Handle;
    AirIs(b);
    AirCarries(b, false, t.hwCrc);
    AttendIsBlock(d.host, t, b);
    var reply := AttendBlock(d.host, t, b).1;
    if reply.Some? {
      AirHeard(t.hwCrc, reply.value);
      HandleAgrees(d.reader.(pending := None),
                   ParseAir(ToAir(t.hwCrc, Transmitted(t.hwCrc, reply.value))).value, reply.value);
    }
  }

  lemma AirIs(b: Block)
    ensures ToAir(false, Transmitted(false, b)) == OnAir(b)
  {
  }

  lemma AirHeard(hwCrc: bool, b: Block)
    requires WellFormed(b)
    ensures var heard := ParseAir(ToAir(hwCrc, Transmitted(hwCrc, b)));
            heard.Ok? && Agrees(heard.value, b)
  {
    hide Encoding, Crc.Append, Parse, ParseAir;
    BlockRoundTrip(b);
  }

  /** The chunks fit the card's frames. */
  ghost predicate ChunksFit(lists: seq<seq<seq<byte>>>, size: nat) {
    forall i, j :: 0 <= i < |lists| && 0 <= j < |lists[i]| ==> |lists[i][j]| + 3 <= size
  }

  /** The card's budgets cover each exchange: k + m - 1 frames for k command and m response
      chunks. */
  ghost predicate BudgetsCover(lists: seq<seq<seq<byte>>>, responses: seq<seq<seq<byte>>>, l: Limits)
    requires |lists| <= |responses|
  {
    forall i :: 0 <= i < |lists| ==>
      |Flatten(lists[i])| <= l.maxChainLen && |lists[i]| + |responses[i]| - 1 <= l.maxFrames
  }

  /** The rounds behind in the exchange under way. */
  ghost function Done(r: SpecReader, p: SpecCard): int {
    if p.chunk == 0 || r.command >= |r.commands| then r.chunk else |r.commands[r.command]| + p.chunk - 1
  }

  ghost predicate InPace(d: Pair, p: SpecCard, t: P.Terms) {
    && Paced(d.reader, p) && Mirrors(d.host, p, t) && t.fsc >= 16
    && ChunksFit(d.reader.commands, t.fsc)
    && BudgetsCover(d.reader.commands, p.responses, d.host.card.h.limits)
    && (d.reader.pending.Some? ==> d.host.card.h.counters.frames <= Done(d.reader, p))
  }

  /** The rounds that exchanges `i` and on take. */
  ghost function RoundsFrom(lists: seq<seq<seq<byte>>>, responses: seq<seq<seq<byte>>>, i: nat): int
    requires i <= |lists| <= |responses|
    decreases |lists| - i
  {
    if i == |lists| then 0 else |lists[i]| + |responses[i]| - 1 + RoundsFrom(lists, responses, i + 1)
  }

  ghost function RoundsLeft(r: SpecReader, p: SpecCard): int
    requires Paced(r, p)
  {
    if r.command == |r.commands| then 0
    else RoundsFrom(r.commands, p.responses, r.command) - Done(r, p)
  }

  lemma PendingSendable(d: Pair, p: SpecCard, t: P.Terms)
    requires InPace(d, p, t) && d.reader.pending.Some?
    ensures Sendable(d.reader.pending.value, t.fsc)
  {
    hide Mirrors, NoneEmpty, BudgetsCover;
    PcdRuns.AirSize(d.reader.pending.value);
  }

  lemma PendingBorne(d: Pair, p: SpecCard, t: P.Terms)
    requires InPace(d, p, t) && d.reader.pending.Some?
    ensures Bears(d.host.card.h, p, d.reader.pending.value)
  {
    hide SameResponses, ChunksFit, Sendable;
    RulesPaced(d.reader, p);
    var r := d.reader;
    if p.chunk == 0 {
      HasResponse(p, r.command);
      PrefixSnoc(r.commands[r.command], r.chunk);
      SpecRuns.FlattenPrefix(r.commands[r.command], r.chunk + 1);
    }
  }

  /** One round further on, or at the start of the next exchange. */
  lemma PaceMoves(r: SpecReader, p: SpecCard)
    requires Paced(r, p) && r.pending.Some?
    ensures var b := r.pending.value;
            var (q, answer) := Serve(p, b);
            answer.Some? && var n := Handle(r.(pending := None), answer.value);
            && Paced(n, q) && n.commands == r.commands && q.responses == p.responses
            && RoundsLeft(n, q) == RoundsLeft(r, p) - 1
            && (Done(n, q) == Done(r, p) + 1 || (Done(n, q) == 0 == q.chunk && !b.pcb.chaining))
  {
    hide NoneEmpty;
    RulesPaced(r, p);
    RoundsOfNext(r, p);
  }

  lemma RoundsOfNext(r: SpecReader, p: SpecCard)
    requires Paced(r, p) && r.pending.Some?
    ensures r.command < |r.commands|
    ensures |p.responses[r.command]| > 0
    ensures RoundsFrom(r.commands, p.responses, r.command)
         == |r.commands[r.command]| + |p.responses[r.command]| - 1 + RoundsFrom(r.commands, p.responses, r.command + 1)
  {
    HasResponse(p, r.command);
  }

  lemma ListensBetweenChunks(a: Host, p: SpecCard, t: P.Terms)
    requires Mirrors(a, p, t) && p.chunk == 0
    ensures a.card.at.Listening?
  {
  }

  /** One round with the card of the program. */
  lemma RoundPaced(d: Pair, p: SpecCard, t: P.Terms)
    requires InPace(d, p, t) && d.reader.pending.Some?
    ensures var q := Serve(p, d.reader.pending.value).0;
            InPace(Round(d, t), q, t) && RoundsLeft(Round(d, t).reader, q) == RoundsLeft(d.reader, p) - 1
  {
    hide Mirrors, Round, AttendBlock, Sendable, ChunksFit, NoneEmpty, Paced, Handle, Serve, RoundsLeft, Done, Bears;
    var b := d.reader.pending.value;
    PendingSendable(d, p, t);
    PendingBorne(d, p, t);
    RulesPaced(d.reader, p);
    PaceMoves(d.reader, p);
    CardFollows(d.host, p, t, b);
    RoundIsBlocks(d, t, b);
    HandleAgrees(d.reader.(pending := None), AttendBlock(d.host, t, b).1.value, Serve(p, b).1.value);
    if Serve(p, b).0.chunk == 0 {
      ListensBetweenChunks(AttendBlock(d.host, t, b).0, Serve(p, b).0, t);
    }
  }

  lemma LeftWhilePending(r: SpecReader, p: SpecCard)
    requires Paced(r, p)
    ensures RoundsLeft(r, p) > 0 <==> r.pending.Some?
    ensures RoundsLeft(r, p) >= 0
  {
    if r.command < |r.commands| {
      RoundsNonNegative(r.commands, p.responses, r.command + 1);
      HasResponse(p, r.command);
    }
  }

  lemma {:induction false} RoundsNonNegative(lists: seq<seq<seq<byte>>>, responses: seq<seq<seq<byte>>>, i: nat)
    requires i <= |lists| <= |responses| && NoneEmpty(lists) && NoneEmpty(responses)
    ensures RoundsFrom(lists, responses, i) >= 0
    decreases |lists| - i
  {
    if i < |lists| {
      assert lists[i] != [] && responses[i] != [];
      RoundsNonNegative(lists, responses, i + 1);
    }
  }

  lemma {:induction false} RoundsPaced(d: Pair, p: SpecCard, t: P.Terms, n: nat) returns (q: SpecCard)
    requires InPace(d, p, t) && n <= RoundsLeft(d.reader, p)
    ensures InPace(Rounds(d, t, n), q, t) && RoundsLeft(Rounds(d, t, n).reader, q) == RoundsLeft(d.reader, p) - n
    ensures Rounds(d, t, n).reader.commands == d.reader.commands && q.responses == p.responses
  {
    hide Mirrors, Round, Paced, RoundsLeft, NoneEmpty, ChunksFit, Serve, Handle, Done;
    if n == 0 {
      q := p;
    } else {
      var via := RoundsPaced(d, p, t, n - 1);
      var e := Rounds(d, t, n - 1);
      LeftWhilePending(e.reader, via);
      RoundPaced(e, via, t);
      PaceMoves(e.reader, via);
      RoundKeepsCommands(e, t);
      q := Serve(via, e.reader.pending.value).0;
    }
  }

  lemma RoundKeepsCommands(d: Pair, t: P.Terms)
    ensures Round(d, t).reader.commands == d.reader.commands
  {
    hide Attend, ParseAir, ToAir, FromAir, OnAir;
  }

  /** The reader before its first exchange (Rule A) and a card that waits for one. */
  ghost predicate Fresh(a: Host, t: P.Terms) {
    var c := a.card;
    && t.fsc >= 16 && t.fsd >= 16
    && c.at.Listening? && a.got == []
    && c.h == Handler(Role.Picc, c.h.cid, 1, [], c.h.limits, NO_COUNTS)
  }

  function FirstOf(commands: seq<seq<seq<byte>>>): SpecReader {
    QueueChunk(SpecReader(0, commands, 0, 0, None, [], [], 0))
  }

  ghost function ResponseChunks(a: Host, t: P.Terms): seq<seq<seq<byte>>>
    requires MaxInf(t.fsd, a.card.h) > 0
  {
    seq(|a.responses|, i requires 0 <= i < |a.responses| => Chunks(a.responses[i], MaxInf(t.fsd, a.card.h)))
  }

  lemma StartsPaced(commands: seq<seq<seq<byte>>>, a: Host, t: P.Terms) returns (p: SpecCard)
    requires Fresh(a, t) && NoneEmpty(commands) && |commands| <= |a.responses|
    requires ChunksFit(commands, t.fsc) && BudgetsCover(commands, ResponseChunks(a, t), a.card.h.limits)
    ensures p.responses == ResponseChunks(a, t)
    ensures InPace(Pair(FirstOf(commands), a), p, t)
    ensures FirstOf(commands).commands == commands
    ensures RoundsLeft(FirstOf(commands), p) == RoundsFrom(commands, ResponseChunks(a, t), 0)
  {
    hide ChunksFit, BudgetsCover;
    p := SpecCard(1, ResponseChunks(a, t), 0, 0, None, [], [], 0);
    assert NoneEmpty(p.responses);
    if commands != [] {
      assert commands[0] != [] && commands[0][..0] == [];
    }
  }

  /** The whole conversation: after one round for every block each side has got the other's
      chunks joined up, in order, and the reader has repeated nothing. */
  lemma SpecReaderIsServed(commands: seq<seq<seq<byte>>>, a: Host, t: P.Terms)
    requires Fresh(a, t) && NoneEmpty(commands) && |commands| <= |a.responses|
    requires ChunksFit(commands, t.fsc) && BudgetsCover(commands, ResponseChunks(a, t), a.card.h.limits)
    ensures var n := RoundsFrom(commands, ResponseChunks(a, t), 0);
            n >= 0 &&
            var d := Rounds(Pair(FirstOf(commands), a), t, n);
            && d.reader.pending == None
            && d.reader.assembled == a.responses[..|commands|]
            && d.host.got == Whole(commands, |commands|)
            && d.reader.repeats == 0
  {
    hide Mirrors, ChunksFit, BudgetsCover, Rounds, Paced, NoneEmpty, Whole, FirstOf, RoundsLeft;
    hide RoundsFrom, ResponseChunks;
    var start := Pair(FirstOf(commands), a);
    var p := StartsPaced(commands, a, t);
    LeftWhilePending(start.reader, p);
    var n := RoundsLeft(start.reader, p);
    var q := RoundsPaced(start, p, t, n);
    var d := Rounds(start, t, n);
    LeftWhilePending(d.reader, q);
    MirroredGot(d.host, q, t);
    PacedOut(d.reader, q);
    ResponsesWhole(a, t, |commands|);
  }

  lemma PacedOut(r: SpecReader, p: SpecCard)
    requires Paced(r, p) && r.pending == None
    ensures |r.commands| <= |p.responses| && r.repeats == 0
    ensures r.assembled == Whole(p.responses, |r.commands|) && p.received == Whole(r.commands, |r.commands|)
  {
  }

  lemma ResponsesWhole(a: Host, t: P.Terms, n: nat)
    requires MaxInf(t.fsd, a.card.h) > 0 && n <= |a.responses|
    ensures Whole(ResponseChunks(a, t), n) == a.responses[..n]
  {
    forall i | 0 <= i < n
      ensures Flatten(ResponseChunks(a, t)[i]) == a.responses[i]
    {
      ChunksAreMinimal(a.responses[i], MaxInf(t.fsd, a.card.h));
    }
  }
}
