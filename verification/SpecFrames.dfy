/**
 The reader of the program and the card that applies the rules, frame by frame: a request is
 parsed by the card, an answer goes through the size check, the CRC check and the parser of
 the reader. A frame longer than the FSD is one more answer that is lost.
 */
module SpecFrames {
  import opened Wire
  import opened Blocks
  import opened Chunking
  import opened Protocol
  import opened PcdLayer
  import opened Carriage
  import opened SpecPeers
  import opened SpecRuns
  import Crc
  import PcdRuns
  import ProtocolRuns

  // ── The link ────────────────────────────────────────────────────────────

  /** The card takes a frame off the air, and answers with one. */
  function ServeFrame(c: SpecCard, air: seq<byte>): (SpecCard, Option<seq<byte>>) {
    var b := ParseAir(air);
    if b.Err? then (c, None) else
      var (n, answer) := Serve(c, b.value);
      (n, if answer.Some? then Some(OnAir(answer.value)) else None)
  }

  /** What the reader hears of an answer on the air. */
  function HeardOf(s: Session, air: Option<seq<byte>>): Answer {
    Parsed(s, if air.Some? then FromAir(s.hwCrc, air.value) else None)
  }

  /** One frame and its answer. */
  function FrameStep(y: System, s: Session, f: Fault): System {
    if y.reader.Finished? then y else
      var air := ToAir(s.hwCrc, Transmitted(s.hwCrc, Pending(y.reader).value));
      match f
      case RequestLost(e) => y.(reader := Feed(y.reader, Err(e)))
      case AnswerLost(e) => System(Feed(y.reader, Err(e)), ServeFrame(y.card, air).0)
      case Clean =>
        var (card, answer) := ServeFrame(y.card, air);
        System(Feed(y.reader, HeardOf(s, answer)), card)
  }

  function FrameSteps(y: System, s: Session, faults: seq<Fault>): System
    decreases |faults|
  {
    if faults == [] then y else FrameSteps(FrameStep(y, s, faults[0]), s, faults[1..])
  }

  // ── Frames and blocks ───────────────────────────────────────────────────

  predicate Oversized(s: Session, b: Block) {
    |OnAir(b)| > s.fsd
  }

  /** What happens to the blocks: an answer that is too long is lost. */
  function Seen(y: System, s: Session, f: Fault): Fault {
    if y.reader.Finished? || f != Clean then f else
      var answer := Serve(y.card, Pending(y.reader).value).1;
      if answer.Some? && Oversized(s, answer.value)
      then AnswerLost(ProtocolError(LimitExceeded(FrameSize))) else Clean
  }

  function SeenAll(y: System, s: Session, faults: seq<Fault>): seq<Fault>
    decreases |faults|
  {
    if faults == [] then [] else [Seen(y, s, faults[0])] + SeenAll(FrameStep(y, s, faults[0]), s, faults[1..])
  }

  lemma ServeAgrees(c: SpecCard, a: Block, b: Block)
    requires Agrees(a, b)
    ensures Serve(c, a) == Serve(c, b)
  {
  }

  lemma RequestArrives(c: SpecCard, s: Session, b: Block)
    requires WellFormed(b)
    ensures var (n, answer) := Serve(c, b);
            ServeFrame(c, ToAir(s.hwCrc, Transmitted(s.hwCrc, b)))
              == (n, if answer.Some? then Some(OnAir(answer.value)) else None)
  {
    hide Encoding, Crc.Append, Parse, ParseAir, WellFormed, Serve;
    BlockRoundTrip(b);
    ServeAgrees(c, Parse(Encoding(b)).value, b);
  }

  lemma AnswerArrives(r: Reader, s: Session, b: Block)
    requires WellFormed(b)
    ensures if Oversized(s, b) then HeardOf(s, Some(OnAir(b))) == Err(ProtocolError(LimitExceeded(FrameSize)))
            else Feed(r, HeardOf(s, Some(OnAir(b)))) == Feed(r, Ok(b))
  {
    hide Encoding, Crc.Append, Crc.Split, Parse, WellFormed, Feed;
    Crc.SplitOfAppend(Encoding(b));
    AppendSize(b);
    if !Oversized(s, b) {
      ReaderHears(s, b);
      FeedAgrees(r, Parsed(s, Some(Transmitted(s.hwCrc, b))).value, b);
    }
  }

  /** Every block of an exchange is one the standard defines. */
  lemma BlocksAreWellFormed(y: System, x: Exchange)
    requires Keeps(y, x) && x.chunks != [] && !y.reader.Finished?
    ensures WellFormed(Pending(y.reader).value)
    ensures var answer := Serve(y.card, Pending(y.reader).value).1; answer.Some? && WellFormed(answer.value)
  {
    hide Process;
    var r, c := y.reader, y.card;
    if r.Collecting? && Waiting(r.h, c, x) {
      NextChunk(c.(number := 1 - c.number), x);
    } else if r.Sending? && r.offset + r.maxInf >= |r.apdu| {
      var chunk := Chunk(r.apdu, r.offset, r.maxInf);
      assert c.partial + chunk == x.apdu;
      NextChunk(c.(number := 1 - c.number, partial := [], received := x.received + [x.apdu]), x);
    }
  }

  /** A step of frames is a step of blocks, with one more way to lose an answer. */
  lemma FramesAreBlocks(y: System, x: Exchange, s: Session, f: Fault)
    requires Keeps(y, x) && x.chunks != []
    ensures FrameStep(y, s, f) == Step(y, Seen(y, s, f))
  {
    hide Process, Keeps, Transmitted, ParseAir, OnAir, ToAir, ServeFrame, Serve, HeardOf, WellFormed;
    if !y.reader.Finished? {
      BlocksAreWellFormed(y, x);
      RequestArrives(y.card, s, Pending(y.reader).value);
      AnswerArrives(y.reader, s, Serve(y.card, Pending(y.reader).value).1.value);
    }
  }

  lemma {:induction false} RunsAreBlocks(y: System, x: Exchange, s: Session, faults: seq<Fault>)
    requires Keeps(y, x) && x.chunks != []
    ensures FrameSteps(y, s, faults) == Steps(y, SeenAll(y, s, faults))
    decreases |faults|
  {
    hide Keeps, FrameStep, Step, Seen;
    if faults != [] {
      var f := Seen(y, s, faults[0]);
      FramesAreBlocks(y, x, s, faults[0]);
      StepKeeps(y, x, f);
      RunsAreBlocks(Step(y, f), x, s, faults[1..]);
      var rest := SeenAll(Step(y, f), s, faults[1..]);
      assert ([f] + rest)[1..] == rest;
    }
  }

  // ── Safety ──────────────────────────────────────────────────────────────

  /** Whatever is lost, and however long the card's chunks are: an exchange that succeeds
      has brought the card the command once and the reader the whole response, left the
      peers ready for the next one, and repeated one block for each answer lost. One that
      fails has brought the command at most once. */
  lemma FramesDeliverOnce(h: Handler, c: SpecCard, s: Session, apdu: seq<byte>, faults: seq<Fault>)
    requires Between(h, c) && Prepared(c)
    ensures var start := System(Start(h, s, apdu), c);
            var t := FrameSteps(start, s, faults);
            match t.reader
            case Finished(n, Ok(data)) =>
              && data == Flatten(c.responses[c.command])
              && t.card.received == c.received + [apdu]
              && t.card.command == c.command + 1 && t.card.responses == c.responses
              && Between(n, t.card)
              && t.card.repeats == c.repeats + LostAnswers(start, SeenAll(start, s, faults))
            case Finished(_, Err(_)) => t.card.received == c.received || t.card.received == c.received + [apdu]
            case _ => true
  {
    hide Process, Step, FrameStep, Between, Keeps;
    StartKeeps(h, c, s, apdu);
    var start := System(Start(h, s, apdu), c);
    RunsAreBlocks(start, ExchangeOf(c, apdu), s, faults);
    DeliveredOnce(h, c, s, apdu, SeenAll(start, s, faults));
  }

  // ── Sizes ───────────────────────────────────────────────────────────────

  /** The first `n` chunks fit frames of `size` bytes. */
  ghost predicate Fit(chunks: seq<seq<byte>>, n: int, size: nat) {
    forall i :: 0 <= i < |chunks| && i < n ==> |chunks[i]| + 3 <= size
  }

  /** The reader takes the chunk the card sent last, or fails. */
  lemma TakeTakes(h: Handler, c: SpecCard, x: Exchange, i: nat)
    requires x.command < |c.responses| && c.responses[x.command] == x.chunks
    requires h.role == Role.Pcd && h.number == c.number
    requires LastSent(c, x, i) && Responding(c, x, i + 1)
    ensures var t := System(Take(h, c.lastSent.value), c);
            Failed(t.reader) || (!t.reader.Sending? && TakenIn(t, x) == i + 1)
  {
    hide Process;
    ChunkHeard(h, c.lastSent.value);
  }

  /** A chunk that is taken in fits. */
  lemma TakenFits(y: System, x: Exchange, s: Session, f: Fault)
    requires Keeps(y, x) && x.chunks != [] && !y.reader.Finished? && Fit(x.chunks, TakenIn(y, x), s.fsd)
    ensures var t := Step(y, Seen(y, s, f));
            Failed(t.reader) || Fit(x.chunks, TakenIn(t, x), s.fsd)
  {
    hide Keeps, Step, Seen, Fit;
    if y.reader.Sending? {
      FirstTakenFits(y, x, s, f);
    } else {
      NextTakenFits(y, x, s, f);
    }
  }

  lemma FirstTakenFits(y: System, x: Exchange, s: Session, f: Fault)
    requires Keeps(y, x) && x.chunks != [] && y.reader.Sending?
    ensures var t := Step(y, Seen(y, s, f));
            Failed(t.reader) || Fit(x.chunks, TakenIn(t, x), s.fsd)
  {
    hide Process, OnAir;
    var r, c := y.reader, y.card;
    if Seen(y, s, f) == Clean {
      if r.offset + r.maxInf >= |r.apdu| {
        assert c.partial + Chunk(r.apdu, r.offset, r.maxInf) == x.apdu;
        NextChunk(c.(number := 1 - c.number, partial := [], received := x.received + [x.apdu]), x);
        PcdRuns.AirSize(Serve(c, Pending(r).value).1.value);
        TakeTakes(r.h, Serve(c, Pending(r).value).0, x, 0);
      } else {
        AckHeard(r.h, AckBlock(1 - c.number));
      }
    }
  }

  lemma NextTakenFits(y: System, x: Exchange, s: Session, f: Fault)
    requires Keeps(y, x) && x.chunks != [] && y.reader.Collecting? && Fit(x.chunks, TakenIn(y, x), s.fsd)
    ensures var t := Step(y, Seen(y, s, f));
            Failed(t.reader) || Fit(x.chunks, TakenIn(t, x), s.fsd)
  {
    hide Process, OnAir, Take, Flatten;
    var h, c := y.reader.h, y.card;
    if Waiting(h, c, x) {
      NextChunk(c.(number := 1 - c.number), x);
    }
    if Seen(y, s, f) == Clean {
      PcdRuns.AirSize(Serve(c, Pending(y.reader).value).1.value);
      TakeTakes(h, Serve(c, Pending(y.reader).value).0, x, TakenIn(y, x));
    }
  }

  lemma {:induction false} SuccessFits(y: System, x: Exchange, s: Session, faults: seq<Fault>)
    requires Keeps(y, x) && x.chunks != [] && (Failed(y.reader) || Fit(x.chunks, TakenIn(y, x), s.fsd))
    ensures var t := FrameSteps(y, s, faults);
            Response(t.reader).Some? ==> Fit(x.chunks, |x.chunks|, s.fsd)
    decreases |faults|
  {
    hide Keeps, Step, FrameStep, Seen, Fit;
    if y.reader.Finished? {
      RunsAreBlocks(y, x, s, faults);
      FinishedStays(y, SeenAll(y, s, faults));
    } else if faults != [] {
      FramesAreBlocks(y, x, s, faults[0]);
      StepKeeps(y, x, Seen(y, s, faults[0]));
      TakenFits(y, x, s, faults[0]);
      SuccessFits(FrameStep(y, s, faults[0]), x, s, faults[1..]);
    }
  }

  /** When every chunk fits, no answer is too long. */
  lemma NothingOversized(y: System, x: Exchange, s: Session, f: Fault)
    requires Keeps(y, x) && x.chunks != [] && s.fsd >= 16 && Fit(x.chunks, |x.chunks|, s.fsd)
    ensures Seen(y, s, f) == f
  {
    hide Process, OnAir;
    var r, c := y.reader, y.card;
    if !r.Finished? && f == Clean {
      var answer := Serve(c, Pending(r).value).1;
      BlocksAreWellFormed(y, x);
      PcdRuns.AirSize(answer.value);
      if r.Collecting? && Waiting(r.h, c, x) {
        NextChunk(c.(number := 1 - c.number), x);
      } else if r.Sending? && r.offset + r.maxInf >= |r.apdu| {
        assert c.partial + Chunk(r.apdu, r.offset, r.maxInf) == x.apdu;
        NextChunk(c.(number := 1 - c.number, partial := [], received := x.received + [x.apdu]), x);
      }
    }
  }

  lemma {:induction false} SeenAsIs(y: System, x: Exchange, s: Session, faults: seq<Fault>)
    requires Keeps(y, x) && x.chunks != [] && s.fsd >= 16 && Fit(x.chunks, |x.chunks|, s.fsd)
    ensures SeenAll(y, s, faults) == faults
    decreases |faults|
  {
    hide Keeps, Step, FrameStep, Seen, Fit;
    if faults != [] {
      NothingOversized(y, x, s, faults[0]);
      FramesAreBlocks(y, x, s, faults[0]);
      StepKeeps(y, x, faults[0]);
      SeenAsIs(FrameStep(y, s, faults[0]), x, s, faults[1..]);
    }
  }

  // ── Completion ──────────────────────────────────────────────────────────

  /** The reader's budgets and frame size cover an exchange: k + m - 1 frames for k command
      and m response chunks, the chain cap the response, and the FSD each of its chunks. */
  ghost predicate Covers(h: Handler, s: Session, apdu: seq<byte>, chunks: seq<seq<byte>>)
    requires MaxInf(s.fsc, h) > 0
  {
    && |Chunks(apdu, MaxInf(s.fsc, h))| + |chunks| - 1 <= h.limits.maxFrames
    && |Flatten(chunks)| <= h.limits.maxChainLen
    && Fit(chunks, |chunks|, s.fsd)
  }

  /** Nothing is lost in the command and at most two frames in a row in the
      response, and the run is long enough. */
  ghost predicate Recoverable(h: Handler, s: Session, apdu: seq<byte>, chunks: seq<seq<byte>>, faults: seq<Fault>)
    requires MaxInf(s.fsc, h) > 0
  {
    var k := |Chunks(apdu, MaxInf(s.fsc, h))|;
    Bearable(faults, k, 0) && Cleans(faults) >= k + |chunks| - 1
  }

  lemma FramesComplete(h: Handler, c: SpecCard, s: Session, apdu: seq<byte>, faults: seq<Fault>)
    requires Between(h, c) && Prepared(c) && apdu != [] && MaxInf(s.fsc, h) > 0 && s.fsd >= 16
    requires Covers(h, s, apdu, c.responses[c.command]) && Recoverable(h, s, apdu, c.responses[c.command], faults)
    ensures var start := System(Start(h, s, apdu), c);
            Response(FrameSteps(start, s, faults).reader).Some? && SeenAll(start, s, faults) == faults
  {
    hide Process, Step, Keeps, Between, FrameStep, Fit;
    var start, x := System(Start(h, s, apdu), c), ExchangeOf(c, apdu);
    StartKeeps(h, c, s, apdu);
    assert apdu[0..] == apdu;
    SeenAsIs(start, x, s, faults);
    RunsAreBlocks(start, x, s, faults);
    Completes(start, x, faults);
  }

  /** Over a link that loses no more than the reader can recover, an exchange succeeds
      exactly when the reader's budgets and frame size cover it. */
  lemma SucceedsIffCovered(h: Handler, c: SpecCard, s: Session, apdu: seq<byte>, faults: seq<Fault>)
    requires Between(h, c) && Prepared(c) && apdu != [] && MaxInf(s.fsc, h) > 0 && s.fsd >= 16
    requires h.limits.maxFrames < 0xFFFF && Recoverable(h, s, apdu, c.responses[c.command], faults)
    ensures Response(FrameSteps(System(Start(h, s, apdu), c), s, faults).reader).Some?
            <==> Covers(h, s, apdu, c.responses[c.command])
  {
    hide Process, Step, Keeps, Between, FrameStep, Fit;
    var start, x := System(Start(h, s, apdu), c), ExchangeOf(c, apdu);
    if Covers(h, s, apdu, x.chunks) {
      FramesComplete(h, c, s, apdu, faults);
    } else {
      StartKeeps(h, c, s, apdu);
      assert apdu[0..] == apdu;
      assert Fit(x.chunks, TakenIn(start, x), s.fsd) by { NoneFit(x.chunks, s.fsd); }
      SuccessFits(start, x, s, faults);
      RunsAreBlocks(start, x, s, faults);
      StepsCount(start, x, SeenAll(start, s, faults));
      StepsKeep(start, x, SeenAll(start, s, faults));
    }
  }

  lemma NoneFit(chunks: seq<seq<byte>>, size: nat)
    ensures Fit(chunks, 0, size)
  {
  }

  // ── Any number of exchanges ─────────────────────────────────────────────

  /** A command, and what happens on the link while it runs. */
  datatype Plan = Plan(apdu: seq<byte>, faults: seq<Fault>)

  datatype Talk = Talk(h: Handler, card: SpecCard, results: seq<Option<seq<byte>>>)

  /** One exchange after the other. */
  function Converse(h: Handler, c: SpecCard, s: Session, plans: seq<Plan>): Talk {
    if plans == [] then Talk(h, c, []) else
      var before := Converse(h, c, s, plans[..|plans| - 1]);
      var p := plans[|plans| - 1];
      var t := FrameSteps(System(Start(before.h, s, p.apdu), before.card), s, p.faults);
      Talk(t.reader.h, t.card, before.results + [Response(t.reader)])
  }

  ghost predicate AllPrepared(c: SpecCard, n: nat) {
    c.command + n <= |c.responses| && forall i :: c.command <= i < c.command + n ==> c.responses[i] != []
  }

  /** The budgets, the sizes and the losses of one exchange, for a response of `chunks`. */
  ghost predicate Feasible(h: Handler, s: Session, p: Plan, chunks: seq<seq<byte>>) {
    && p.apdu != [] && MaxInf(s.fsc, h) > 0
    && Covers(h, s, p.apdu, chunks) && Recoverable(h, s, p.apdu, chunks, p.faults)
  }

  lemma OneExchange(h: Handler, c: SpecCard, s: Session, p: Plan)
    requires Between(h, c) && Prepared(c) && s.fsd >= 16 && Feasible(h, s, p, c.responses[c.command])
    ensures var start := System(Start(h, s, p.apdu), c);
            var t := FrameSteps(start, s, p.faults);
            && Response(t.reader) == Some(Flatten(c.responses[c.command]))
            && t.card.received == c.received + [p.apdu]
            && t.card.command == c.command + 1 && t.card.responses == c.responses
            && Between(t.reader.h, t.card) && ProtocolRuns.SameSession(h, t.reader.h)
            && t.card.repeats == c.repeats + LostAnswers(start, p.faults)
  {
    hide Process, Step, FrameStep, Keeps, Between, Covers, Recoverable;
    var start := System(Start(h, s, p.apdu), c);
    StartKeeps(h, c, s, p.apdu);
    FramesComplete(h, c, s, p.apdu, p.faults);
    FramesDeliverOnce(h, c, s, p.apdu, p.faults);
    RunsAreBlocks(start, ExchangeOf(c, p.apdu), s, p.faults);
    StepsKeepSession(start, p.faults);
  }

  function Apdus(plans: seq<Plan>): seq<seq<byte>> {
    seq(|plans|, i requires 0 <= i < |plans| => plans[i].apdu)
  }

  /** Every command and every response arrives, once and in order, over any number of
      exchanges; and if nothing is lost nothing is repeated. */
  lemma {:induction false} ConversationDelivers(h: Handler, c: SpecCard, s: Session, plans: seq<Plan>)
    requires Between(h, c) && AllPrepared(c, |plans|) && s.fsd >= 16
    requires forall i :: 0 <= i < |plans| ==> Feasible(h, s, plans[i], c.responses[c.command + i])
    ensures var t := Converse(h, c, s, plans);
            && |t.results| == |plans|
            && (forall i :: 0 <= i < |plans| ==> t.results[i] == Some(Flatten(c.responses[c.command + i])))
            && t.card.received == c.received + Apdus(plans)
            && t.card.command == c.command + |plans| && t.card.responses == c.responses
            && Between(t.h, t.card) && ProtocolRuns.SameSession(h, t.h)
            && ((forall i :: 0 <= i < |plans| ==> Quiet(plans[i].faults)) ==> t.card.repeats == c.repeats)
  {
    hide Process, Step, Keeps, Between, Feasible, FrameSteps, Start;
    if plans != [] {
      var init, p := plans[..|plans| - 1], plans[|plans| - 1];
      ConversationDelivers(h, c, s, init);
      var before := Converse(h, c, s, init);
      var chunks := c.responses[c.command + |init|];
      assert Feasible(h, s, plans[|init|], chunks);
      FeasibleSame(h, before.h, s, p, chunks);
      OneExchange(before.h, before.card, s, p);
      assert Apdus(plans) == Apdus(init) + [p.apdu];
      if forall i :: 0 <= i < |plans| ==> Quiet(plans[i].faults) {
        assert Quiet(plans[|init|].faults);
        NothingLost(System(Start(before.h, s, p.apdu), before.card), p.faults);
      }
    }
  }

  lemma FeasibleSame(h: Handler, n: Handler, s: Session, p: Plan, chunks: seq<seq<byte>>)
    requires ProtocolRuns.SameSession(h, n) && Feasible(h, s, p, chunks)
    ensures Feasible(n, s, p, chunks)
  {
    hide Chunks, Fit, Bearable, Cleans;
  }
}
