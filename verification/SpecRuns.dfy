/**
 Whole exchanges between the reader and the card that applies the rules to the letter,
 block by block: what arrives, how often, when it arrives, and what that costs the reader.
 The frames the blocks travel in are left to `SpecFrames` and `LinkRuns`.
 */
module SpecRuns {
  import opened Wire
  import opened Blocks
  import opened Chunking
  import opened Protocol
  import opened PcdLayer
  import opened SpecPeers
  import ProtocolRuns

  function Response(r: Reader): Option<seq<byte>> {
    if r.Finished? && r.result.Ok? then Some(r.result.value) else None
  }

  // ── Safety ──────────────────────────────────────────────────────────────

  /** The answers lost while the exchange ran. */
  function LostAnswers(s: System, faults: seq<Fault>): nat
    decreases |faults|
  {
    if faults == [] || s.reader.Finished? then 0
    else (if faults[0].AnswerLost? then 1 else 0) + LostAnswers(Step(s, faults[0]), faults[1..])
  }

  ghost function ExchangeOf(c: SpecCard, apdu: seq<byte>): Exchange
    requires c.command < |c.responses|
  {
    Exchange(apdu, c.responses[c.command], c.command, c.received, c.repeats)
  }

  /** The card has a response for the next command. */
  predicate Prepared(c: SpecCard) {
    c.command < |c.responses| && c.responses[c.command] != []
  }

  lemma StartKeeps(h: Handler, c: SpecCard, s: Session, apdu: seq<byte>)
    requires Between(h, c) && Prepared(c)
    ensures Keeps(System(Start(h, s, apdu), c), ExchangeOf(c, apdu))
  {
  }

  lemma {:induction false} RepeatsAreLosses(s: System, x: Exchange, faults: seq<Fault>)
    requires Keeps(s, x) && x.chunks != []
    ensures var t := Steps(s, faults);
            Failed(t.reader) || t.card.repeats + Owed(t) == s.card.repeats + Owed(s) + LostAnswers(s, faults)
    decreases |faults|
  {
    hide Process, Step;
    if faults != [] && !s.reader.Finished? {
      StepKeeps(s, x, faults[0]);
      RepeatsAreLosses(Step(s, faults[0]), x, faults[1..]);
      if Failed(Step(s, faults[0]).reader) {
        FinishedStays(Step(s, faults[0]), faults[1..]);
      }
    } else if s.reader.Finished? {
      FinishedStays(s, faults);
    }
  }

  lemma {:induction false} FinishedStays(s: System, faults: seq<Fault>)
    requires s.reader.Finished?
    ensures Steps(s, faults) == s
    decreases |faults|
  {
    if faults != [] {
      FinishedStays(s, faults[1..]);
    }
  }

  /** Whatever is lost: an exchange that succeeds has brought the card the command once and
      the reader the whole response, left the peers ready for the next one, and repeated
      one block for each answer lost. One that fails has brought the command at most once. */
  lemma DeliveredOnce(h: Handler, c: SpecCard, s: Session, apdu: seq<byte>, faults: seq<Fault>)
    requires Between(h, c) && Prepared(c)
    ensures var start := System(Start(h, s, apdu), c);
            var t := Steps(start, faults);
            match t.reader
            case Finished(n, Ok(data)) =>
              && data == Flatten(c.responses[c.command])
              && t.card.received == c.received + [apdu]
              && t.card.command == c.command + 1 && t.card.responses == c.responses
              && Between(n, t.card)
              && t.card.repeats == c.repeats + LostAnswers(start, faults)
            case Finished(_, Err(_)) => t.card.received == c.received || t.card.received == c.received + [apdu]
            case _ => true
  {
    hide Process, Step;
    StartKeeps(h, c, s, apdu);
    var start := System(Start(h, s, apdu), c);
    StepsKeep(start, ExchangeOf(c, apdu), faults);
    RepeatsAreLosses(start, ExchangeOf(c, apdu), faults);
  }

  // ── Liveness ────────────────────────────────────────────────────────────

  /** Nothing is lost in the first `clean` steps, and after `lost` losses in a row at most
      two follow each other. */
  predicate Bearable(faults: seq<Fault>, clean: nat, lost: nat)
    decreases |faults|
  {
    faults == [] ||
    (if faults[0] == Clean then Bearable(faults[1..], if clean > 0 then clean - 1 else 0, 0)
     else clean == 0 && lost < 2 && Bearable(faults[1..], 0, lost + 1))
  }

  function Cleans(faults: seq<Fault>): nat
    decreases |faults|
  {
    if faults == [] then 0 else (if faults[0] == Clean then 1 else 0) + Cleans(faults[1..])
  }

  /** The answers lost after the `i`-th step without a loss and before the next. */
  function LostAt(faults: seq<Fault>, i: nat): nat
    decreases |faults|
  {
    if faults == [] then 0
    else if faults[0] == Clean then if i == 0 then 0 else LostAt(faults[1..], i - 1)
    else (if faults[0].AnswerLost? && i == 0 then 1 else 0) + LostAt(faults[1..], i)
  }

  /** The answers lost before the `n`-th step without a loss. */
  function LostBefore(faults: seq<Fault>, n: nat): nat
    decreases |faults|
  {
    if faults == [] || n == 0 then 0
    else if faults[0] == Clean then LostBefore(faults[1..], n - 1)
    else (if faults[0].AnswerLost? then 1 else 0) + LostBefore(faults[1..], n)
  }

  /** The command chunks still to go out. */
  ghost function CommandLeft(r: Reader): nat {
    if r.Sending? && r.maxInf > 0 && r.offset <= |r.apdu| then |Chunks(r.apdu[r.offset..], r.maxInf)| else 0
  }

  ghost function Attempts(r: Reader): nat {
    if r.Collecting? then r.attempts else 0
  }

  /** The response chunks the reader has taken in. */
  ghost function TakenIn(s: System, x: Exchange): int {
    match s.reader
    case Sending(_, _, _, _) => 0
    case Collecting(_, _, _) => ChunksSent(s.card, x) - Owed(s)
    case Finished(_, _) => |x.chunks|
  }

  /** The answers the reader needs before it is done. */
  ghost function Needed(s: System, x: Exchange): int {
    if s.reader.Sending? then CommandLeft(s.reader) + |x.chunks| - 1 else |x.chunks| - TakenIn(s, x)
  }

  /** The reader's budgets cover what is left. */
  ghost predicate Covered(s: System, x: Exchange) {
    && !Failed(s.reader)
    && s.reader.h.counters.frames + Needed(s, x) <= s.reader.h.limits.maxFrames
    && |Flatten(x.chunks)| <= s.reader.h.limits.maxChainLen
    && Attempts(s.reader) <= 2
  }

  lemma {:induction false} FlattenPrefix(chunks: seq<seq<byte>>, i: nat)
    requires i <= |chunks|
    ensures Flatten(chunks[..i]) <= Flatten(chunks)
  {
    if i < |chunks| {
      FlattenPrefix(chunks[..|chunks| - 1], i);
      assert chunks[..|chunks| - 1][..i] == chunks[..i];
    } else {
      assert chunks[..i] == chunks;
    }
  }

  lemma CommandMoves(apdu: seq<byte>, offset: nat, m: nat)
    requires m > 0 && offset < |apdu|
    ensures |Chunks(apdu[offset..], m)| >= 1
    ensures offset + m < |apdu| ==>
              |Chunks(apdu[offset..], m)| == 1 + |Chunks(apdu[offset + m..], m)|
    ensures offset + m >= |apdu| ==> |Chunks(apdu[offset..], m)| == 1
  {
    if offset + m < |apdu| {
      assert apdu[offset..][m..] == apdu[offset + m..];
    }
  }

  /** The reader takes the chunk the card sent last, and its budgets allow it. */
  lemma TakeMoves(h: Handler, c: SpecCard, x: Exchange, i: nat)
    requires x.command < |c.responses| && c.responses[x.command] == x.chunks
    requires h.role == Role.Pcd && h.number == c.number
    requires LastSent(c, x, i) && Responding(c, x, i + 1) && h.chain == Flatten(x.chunks[..i])
    requires h.counters.frames + |x.chunks| - i <= h.limits.maxFrames
    requires |Flatten(x.chunks)| <= h.limits.maxChainLen
    ensures var t := System(Take(h, c.lastSent.value), c);
            Covered(t, x) && Needed(t, x) == |x.chunks| - i - 1 && Attempts(t.reader) == 0 && !t.reader.Sending?
    ensures Take(h, c.lastSent.value).h.limits == h.limits
  {
    hide Process;
    ChunkHeard(h, c.lastSent.value);
    PrefixSnoc(x.chunks, i);
    FlattenPrefix(x.chunks, i + 1);
  }

  lemma CleanSending(s: System, x: Exchange)
    requires Keeps(s, x) && x.chunks != [] && Covered(s, x) && s.reader.Sending?
    ensures var t := Step(s, Clean);
            && Covered(t, x) && Needed(t, x) == Needed(s, x) - 1 && Attempts(t.reader) == 0
            && CommandLeft(t.reader) == CommandLeft(s.reader) - 1
  {
    hide Process;
    var r, c := s.reader, s.card;
    CommandMoves(r.apdu, r.offset, r.maxInf);
    if r.offset + r.maxInf < |r.apdu| {
      AckHeard(r.h, AckBlock(1 - c.number));
    } else {
      var chunk := Chunk(r.apdu, r.offset, r.maxInf);
      assert c.partial + chunk == r.apdu;
      var t := c.(number := 1 - c.number, partial := [], received := x.received + [x.apdu]);
      NextChunk(t, x);
      assert Flatten(x.chunks[..0]) == [];
      TakeMoves(r.h, Serve(c, Pending(r).value).0, x, 0);
    }
  }

  lemma CleanCollecting(s: System, x: Exchange)
    requires Keeps(s, x) && x.chunks != [] && Covered(s, x) && s.reader.Collecting?
    ensures var t := Step(s, Clean);
            Covered(t, x) && Needed(t, x) == Needed(s, x) - 1 && Attempts(t.reader) == 0 && !t.reader.Sending?
  {
    hide Process;
    var h, c := s.reader.h, s.card;
    if Waiting(h, c, x) {
      NextChunk(c.(number := 1 - c.number), x);
      TakeMoves(h, Serve(c, Pending(s.reader).value).0, x, c.chunk);
    } else {
      TakeMoves(h, c.(repeats := c.repeats + 1), x, ChunksSent(c, x) - 1);
    }
  }

  lemma LossBorne(s: System, x: Exchange, f: Fault)
    requires Keeps(s, x) && x.chunks != [] && Covered(s, x)
    requires s.reader.Collecting? && f != Clean && s.reader.attempts < 2
    ensures var t := Step(s, f);
            && Covered(t, x) && Needed(t, x) == Needed(s, x)
            && t.reader == s.reader.(attempts := s.reader.attempts + 1)
  {
    hide Process;
    var h, c := s.reader.h, s.card;
    if f.AnswerLost? && Waiting(h, c, x) {
      NextChunk(c.(number := 1 - c.number), x);
    }
  }

  /** What one step of a bearable run does. */
  lemma StepMoves(s: System, x: Exchange, f: Fault, rest: seq<Fault>)
    requires Keeps(s, x) && x.chunks != [] && Covered(s, x) && !s.reader.Finished?
    requires Bearable([f] + rest, CommandLeft(s.reader), Attempts(s.reader))
    ensures var t := Step(s, f);
            && Covered(t, x)
            && Needed(t, x) == Needed(s, x) - (if f == Clean then 1 else 0)
            && Bearable(rest, CommandLeft(t.reader), Attempts(t.reader))
  {
    hide Process, Step, Keeps;
    assert ([f] + rest)[1..] == rest;
    if s.reader.Sending? {
      assert s.reader.Sending? && CommandLeft(s.reader) > 0 by {
        CommandRemains(s, x);
      }
      CleanSending(s, x);
    } else if f == Clean {
      CleanCollecting(s, x);
    } else {
      LossBorne(s, x, f);
    }
  }

  lemma CommandRemains(s: System, x: Exchange)
    requires Keeps(s, x) && s.reader.Sending?
    ensures CommandLeft(s.reader) > 0
  {
    CommandMoves(s.reader.apdu, s.reader.offset, s.reader.maxInf);
  }

  lemma {:induction false} Completes(s: System, x: Exchange, faults: seq<Fault>)
    requires Keeps(s, x) && x.chunks != [] && Covered(s, x)
    requires Bearable(faults, CommandLeft(s.reader), Attempts(s.reader))
    requires Cleans(faults) >= Needed(s, x)
    ensures Steps(s, faults).reader.Finished? && Steps(s, faults).reader.result.Ok?
    decreases |faults|
  {
    hide Process, Step, Keeps;
    if s.reader.Finished? {
      FinishedStays(s, faults);
    } else {
      NeedsMore(s, x);
      assert faults == [faults[0]] + faults[1..];
      StepMoves(s, x, faults[0], faults[1..]);
      StepKeeps(s, x, faults[0]);
      Completes(Step(s, faults[0]), x, faults[1..]);
    }
  }

  lemma NeedsMore(s: System, x: Exchange)
    requires Keeps(s, x) && x.chunks != [] && !s.reader.Finished?
    ensures Needed(s, x) > 0
  {
    if s.reader.Sending? {
      CommandMoves(s.reader.apdu, s.reader.offset, s.reader.maxInf);
    }
  }

  // ── The budgets are needed ──────────────────────────────────────────────

  /** The answers counted and those still needed add up to `total`, and nothing is over its
      limit. */
  ghost predicate Counted(s: System, x: Exchange, total: int) {
    var h := s.reader.h;
    Failed(s.reader) ||
    (&& h.counters.frames <= h.limits.maxFrames
     && h.counters.frames + Needed(s, x) == total
     && (s.reader.Finished? ==> |Flatten(x.chunks)| <= h.limits.maxChainLen))
  }

  /** A block in step that the reader takes in counts for one frame and fits the chain. */
  lemma HeardCounts(h: Handler, b: Block)
    requires h.limits.maxFrames < 0xFFFF && h.counters.frames <= h.limits.maxFrames && Process(h, b).1.Ok?
    requires h.role == Role.Pcd && b.pcb.number == h.number
    requires b.pcb.blockType == IBlock || (b.pcb.blockType == RBlock && b.pcb.rSubtype == Some(Ack))
    ensures Process(h, b).0.counters.frames == h.counters.frames + 1 <= h.limits.maxFrames
    ensures b.pcb.blockType == IBlock ==> |h.chain| + |b.payload| <= h.limits.maxChainLen
  {
  }

  lemma TakeCounts(h: Handler, c: SpecCard, x: Exchange, i: nat)
    requires x.command < |c.responses| && c.responses[x.command] == x.chunks
    requires h.role == Role.Pcd && h.number == c.number
    requires LastSent(c, x, i) && Responding(c, x, i + 1) && h.chain == Flatten(x.chunks[..i])
    requires h.limits.maxFrames < 0xFFFF && h.counters.frames <= h.limits.maxFrames
    ensures var t := System(Take(h, c.lastSent.value), c);
            Counted(t, x, h.counters.frames + |x.chunks| - i) && t.reader.h.limits == h.limits
  {
    hide Process;
    ChunkHeard(h, c.lastSent.value);
    PrefixSnoc(x.chunks, i);
    assert x.chunks[..|x.chunks|] == x.chunks;
    if Process(h, c.lastSent.value).1.Ok? {
      HeardCounts(h, c.lastSent.value);
    }
  }

  lemma SendingCounts(s: System, x: Exchange)
    requires Keeps(s, x) && x.chunks != [] && s.reader.Sending?
    requires s.reader.h.limits.maxFrames < 0xFFFF && Counted(s, x, s.reader.h.counters.frames + Needed(s, x))
    ensures Counted(Step(s, Clean), x, s.reader.h.counters.frames + Needed(s, x))
    ensures Step(s, Clean).reader.h.limits == s.reader.h.limits
  {
    hide Process;
    var r, c := s.reader, s.card;
    CommandMoves(r.apdu, r.offset, r.maxInf);
    if r.offset + r.maxInf < |r.apdu| {
      var b := AckBlock(1 - c.number);
      AckHeard(r.h, b);
      if Process(r.h, b).1.Ok? {
        HeardCounts(r.h, b);
      }
    } else {
      assert c.partial + Chunk(r.apdu, r.offset, r.maxInf) == r.apdu;
      NextChunk(c.(number := 1 - c.number, partial := [], received := x.received + [x.apdu]), x);
      assert Flatten(x.chunks[..0]) == [];
      TakeCounts(r.h, Serve(c, Pending(r).value).0, x, 0);
    }
  }

  lemma CollectingCounts(s: System, x: Exchange, f: Fault)
    requires Keeps(s, x) && x.chunks != [] && s.reader.Collecting?
    requires s.reader.h.limits.maxFrames < 0xFFFF && Counted(s, x, s.reader.h.counters.frames + Needed(s, x))
    ensures Counted(Step(s, f), x, s.reader.h.counters.frames + Needed(s, x))
    ensures Step(s, f).reader.h.limits == s.reader.h.limits
  {
    hide Process;
    var h, c := s.reader.h, s.card;
    if Waiting(h, c, x) {
      NextChunk(c.(number := 1 - c.number), x);
      if f == Clean {
        TakeCounts(h, Serve(c, Pending(s.reader).value).0, x, c.chunk);
      }
    } else if f == Clean {
      TakeCounts(h, c.(repeats := c.repeats + 1), x, ChunksSent(c, x) - 1);
    }
  }

  lemma {:induction false} StepsCount(s: System, x: Exchange, faults: seq<Fault>)
    requires Keeps(s, x) && x.chunks != [] && s.reader.h.limits.maxFrames < 0xFFFF
    requires Counted(s, x, s.reader.h.counters.frames + Needed(s, x))
    ensures Counted(Steps(s, faults), x, s.reader.h.counters.frames + Needed(s, x))
    ensures Steps(s, faults).reader.h.limits == s.reader.h.limits
    decreases |faults|
  {
    hide Process, Step, Keeps, Needed;
    if s.reader.Finished? {
      FinishedStays(s, faults);
    } else if faults != [] {
      var f, t := faults[0], Step(s, faults[0]);
      StepKeeps(s, x, f);
      if s.reader.Collecting? {
        CollectingCounts(s, x, f);
      } else if f == Clean {
        SendingCounts(s, x);
      } else {
        LostCommand(s, f);
      }
      if Failed(t.reader) {
        FinishedStays(t, faults[1..]);
      } else {
        StepsCount(t, x, faults[1..]);
      }
    }
  }

  lemma LostCommand(s: System, f: Fault)
    requires s.reader.Sending? && f != Clean
    ensures Failed(Step(s, f).reader) && Step(s, f).reader.h == s.reader.h
  {
  }

  // ── What no step changes ────────────────────────────────────────────────

  lemma FeedKeepsSession(r: Reader, a: Answer)
    ensures ProtocolRuns.SameSession(r.h, Feed(r, a).h)
  {
    hide Process;
    if a.Ok? {
      ProtocolRuns.ProcessKeepsSession(r.h, a.value);
    }
  }

  lemma StepKeepsSession(s: System, f: Fault)
    ensures ProtocolRuns.SameSession(s.reader.h, Step(s, f).reader.h)
  {
    hide Feed, Serve;
    if !s.reader.Finished? {
      var answer := Serve(s.card, Pending(s.reader).value).1;
      FeedKeepsSession(s.reader, match f
                          case RequestLost(e) => Err(e)
                          case AnswerLost(e) => Err(e)
                          case Clean => if answer.Some? then Ok(answer.value) else Err(TransceiverError));
    }
  }

  lemma {:induction false} StepsKeepSession(s: System, faults: seq<Fault>)
    ensures ProtocolRuns.SameSession(s.reader.h, Steps(s, faults).reader.h)
    decreases |faults|
  {
    hide Step;
    if faults != [] {
      StepKeepsSession(s, faults[0]);
      StepsKeepSession(Step(s, faults[0]), faults[1..]);
    }
  }

  predicate Quiet(faults: seq<Fault>) {
    forall i :: 0 <= i < |faults| ==> faults[i] == Clean
  }

  lemma {:induction false} NothingLost(s: System, faults: seq<Fault>)
    requires Quiet(faults)
    ensures LostAnswers(s, faults) == 0
    decreases |faults|
  {
    if faults != [] {
      NothingLost(Step(s, faults[0]), faults[1..]);
    }
  }
}
