/** What the reader keeps over every run of answers, from any peer. */
module PcdRuns {
  import opened Wire
  import opened Blocks
  import opened Chunking
  import opened Protocol
  import opened PcdLayer
  import ProtocolRuns
  import Carriage
  import Crc

  // ── Work ────────────────────────────────────────────────────────────────

  predicate IsDeselect(a: Answer) {
    a.Ok? && a.value.pcb.blockType == SBlock && a.value.pcb.sSubtype == Some(Deselect)
  }

  ghost predicate NoDeselect(heard: seq<Answer>) {
    forall i :: 0 <= i < |heard| ==> !IsDeselect(heard[i])
  }

  /** After `n` answers: each block processed has cost at most three of them. */
  ghost predicate Paid(r: Reader, n: nat, maxFrames: nat) {
    match r
    case Sending(h, _, _, _) => n == h.counters.frames <= maxFrames
    case Collecting(h, _, attempts) =>
      attempts <= 2 && 1 <= h.counters.frames <= maxFrames && n <= 3 * h.counters.frames - 2 + attempts
    case Finished(_, _) => true
  }

  lemma FrameCounted(h: Handler, b: Block)
    requires h.limits.maxFrames < 0xFFFF && h.counters.frames <= h.limits.maxFrames
    requires Process(h, b).1.Ok? && !IsDeselect(Ok(b))
    ensures Process(h, b).0.counters.frames == h.counters.frames + 1 <= h.limits.maxFrames
  {
  }

  lemma PaidStep(r: Reader, a: Answer, n: nat)
    requires Paid(r, n, r.h.limits.maxFrames) && r.h.limits.maxFrames < 0xFFFF && !IsDeselect(a)
    ensures Paid(Feed(r, a), n + 1, r.h.limits.maxFrames)
    ensures Feed(r, a).h.limits == r.h.limits
  {
    hide Process;
    if a.Ok? && !r.Finished? {
      ProtocolRuns.ProcessKeepsSession(r.h, a.value);
      if Process(r.h, a.value).1.Ok? {
        FrameCounted(r.h, a.value);
      }
    }
  }

  lemma {:induction false} PaidRun(h: Handler, s: Session, apdu: seq<byte>, heard: seq<Answer>)
    requires h.limits.maxFrames < 0xFFFF && NoDeselect(heard)
    ensures Paid(Run(Start(h, s, apdu), heard), |heard|, h.limits.maxFrames)
    ensures Run(Start(h, s, apdu), heard).h.limits == h.limits
  {
    if heard != [] {
      var init := heard[..|heard| - 1];
      PaidRun(h, s, apdu, init);
      PaidStep(Run(Start(h, s, apdu), init), heard[|heard| - 1], |init|);
    }
  }

  /** Whatever a peer without S(DESELECT) answers, an exchange sends at most
      1 + 3 * max_frames frames. */
  lemma {:induction false} ReaderWork(h: Handler, s: Session, apdu: seq<byte>, heard: seq<Answer>)
    requires h.limits.maxFrames < 0xFFFF && NoDeselect(heard)
    ensures |Sent(Start(h, s, apdu), heard)| <= 1 + 3 * h.limits.maxFrames
    ensures |heard| > 3 * h.limits.maxFrames ==> Run(Start(h, s, apdu), heard).Finished?
  {
    PaidRun(h, s, apdu, heard);
    if heard != [] {
      var init := heard[..|heard| - 1];
      ReaderWork(h, s, apdu, init);
      PaidRun(h, s, apdu, init);
      SentAtMost(Start(h, s, apdu), init);
    }
  }

  lemma {:induction false} SentAtMost(r: Reader, heard: seq<Answer>)
    ensures |Sent(r, heard)| <= |heard|
  {
    if heard != [] {
      SentAtMost(r, heard[..|heard| - 1]);
    }
  }

  // ── Peers that never let go ─────────────────────────────────────────────

  /** Peers that acknowledge every chunk they should. Then one repeats S(DESELECT), and one
      chains empty I-blocks. The last one acknowledges nothing. */
  datatype Peer = Deselects | Chains | Nags

  function Says(p: Peer, r: Reader): Block {
    if p == Nags then r.h.RNak()
    else if r.Sending? && r.offset + r.maxInf < |r.apdu| then r.h.RAck()
    else if p == Deselects then r.h.S(Deselect)
    else r.h.I([], true)
  }

  function ChunksLeft(r: Reader): nat {
    if r.Sending? && r.maxInf > 0 && r.offset <= |r.apdu| then |Chunks(r.apdu[r.offset..], r.maxInf)| else 0
  }

  /** The peer has the reader, and keeps it. */
  ghost predicate Held(p: Peer, r: Reader, l: Limits) {
    && !r.Finished? && r.h.role == Role.Pcd && r.h.limits == l
    && (r.Sending? ==> r.maxInf > 0 && r.offset < |r.apdu|)
    && match p
       case Deselects =>
         if r.Sending? then l.maxFrames == 0xFFFF || r.h.counters.frames + ChunksLeft(r) <= l.maxFrames
         else l.maxFrames >= 1 && r.h.counters == NO_COUNTS
       case Chains => l.maxFrames == 0xFFFF && r.h.chain == []
       case Nags => r.Sending? && r.offset + r.maxInf < |r.apdu| && l.maxRetransmissions == 0xFF
  }

  lemma HeldByDeselects(r: Reader, l: Limits)
    requires Held(Deselects, r, l)
    ensures Held(Deselects, Feed(r, Ok(Says(Deselects, r))), l)
  {
    if r.Sending? && r.offset + r.maxInf < |r.apdu| {
      assert r.apdu[r.offset..][r.maxInf..] == r.apdu[r.offset + r.maxInf..];
    }
  }

  lemma HeldByChains(r: Reader, l: Limits)
    requires Held(Chains, r, l)
    ensures Held(Chains, Feed(r, Ok(Says(Chains, r))), l)
    ensures !IsDeselect(Ok(Says(Chains, r)))
  {
  }

  lemma HeldByNags(r: Reader, l: Limits)
    requires Held(Nags, r, l) && r.h.counters.frames < l.maxFrames
    ensures var t := Feed(r, Ok(Says(Nags, r)));
            Held(Nags, t, l) && t.offset == r.offset && t.h.counters.frames == r.h.counters.frames + 1
  {
  }

  /** What the peer says is heard as such. */
  lemma SaysIsHeard(p: Peer, r: Reader, s: Session)
    requires s.fsd >= 16
    ensures var heard := Parsed(s, Some(Transmitted(s.hwCrc, Says(p, r))));
            && heard.Ok? && Feed(r, heard) == Feed(r, Ok(Says(p, r)))
            && IsDeselect(heard) == IsDeselect(Ok(Says(p, r)))
  {
    hide Parsed, Transmitted, Feed, OnAir;
    AirSize(Says(p, r));
    Carriage.ReaderHears(s, Says(p, r));
    Carriage.FeedAgrees(r, Parsed(s, Some(Transmitted(s.hwCrc, Says(p, r)))).value, Says(p, r));
  }

  lemma {:induction false} HearsPrefix(s: Session, script: Script, more: Script, n: nat)
    requires n <= |script|
    ensures Hears(s, script + more, n) == Hears(s, script, n)
  {
    hide Parsed;
    if n > 0 {
      HearsPrefix(s, script, more, n - 1);
    }
  }

  lemma HearsSnoc(s: Session, script: Script, raw: Option<seq<byte>>)
    ensures Hears(s, script + [raw], |script| + 1) == Hears(s, script, |script|) + [Parsed(s, raw)]
  {
    hide Parsed;
    HearsPrefix(s, script, [raw], |script|);
  }

  /** A script of `n` frames of the peer: the reader sends one for each and is still held. */
  ghost predicate Hold(p: Peer, h: Handler, s: Session, apdu: seq<byte>, script: Script, n: nat) {
    var start, heard := Start(h, s, apdu), Hears(s, script, n);
    && |script| == n && |heard| == n && |Sent(start, heard)| == n
    && Held(p, Run(start, heard), h.limits)
    && (p == Chains ==> NoDeselect(heard))
    && (p == Nags ==> On(Run(start, heard), 0) && Run(start, heard).h.counters.frames == n
                      && TimesSent(start, heard, 0) == n)
  }

  lemma HoldNone(p: Peer, h: Handler, s: Session, apdu: seq<byte>)
    requires Held(p, Start(h, s, apdu), h.limits) && Start(h, s, apdu).Sending?
    ensures Hold(p, h, s, apdu, [], 0)
  {
  }

  lemma HoldNext(p: Peer, h: Handler, s: Session, apdu: seq<byte>, script: Script, n: nat) returns (next: Script)
    requires Hold(p, h, s, apdu, script, n) && s.fsd >= 16 && (p == Nags ==> n < h.limits.maxFrames)
    ensures Hold(p, h, s, apdu, next, n + 1)
  {
    hide Parsed, Transmitted, Feed, Run, Sent, Hears, Held, Start, Says;
    var start, heard := Start(h, s, apdu), Hears(s, script, n);
    var r := Run(start, heard);
    var raw := Some(Transmitted(s.hwCrc, Says(p, r)));
    next := script + [raw];
    SaysIsHeard(p, r, s);
    HearsSnoc(s, script, raw);
    RunSnoc(start, heard, Parsed(s, raw));
    TimesNext(start, heard, Parsed(s, raw), 0);
    HeldAsks(p, r, h.limits);
    match p {
      case Deselects => HeldByDeselects(r, h.limits);
      case Chains => HeldByChains(r, h.limits);
      case Nags => HeldByNags(r, h.limits);
    }
  }

  lemma HeldAsks(p: Peer, r: Reader, l: Limits)
    requires Held(p, r, l)
    ensures |Asks(r)| == 1 && (p == Nags ==> r.Sending?)
    ensures r.h.limits == l
  {
  }

  lemma TimesNext(start: Reader, heard: seq<Answer>, a: Answer, offset: nat)
    ensures TimesSent(start, heard + [a], offset)
         == TimesSent(start, heard, offset) + if On(Run(start, heard), offset) then 1 else 0
  {
    hide Run;
    assert (heard + [a])[..|heard|] == heard;
  }

  lemma {:induction false} HoldFor(p: Peer, h: Handler, s: Session, apdu: seq<byte>, n: nat) returns (script: Script)
    requires Held(p, Start(h, s, apdu), h.limits) && Start(h, s, apdu).Sending? && s.fsd >= 16
    requires p == Nags ==> n <= h.limits.maxFrames
    ensures Hold(p, h, s, apdu, script, n)
    decreases n
  {
    hide Hold, Held, Start;
    if n == 0 {
      HoldNone(p, h, s, apdu);
      script := [];
    } else {
      var init := HoldFor(p, h, s, apdu, n - 1);
      script := HoldNext(p, h, s, apdu, init, n - 1);
    }
  }

  // ── When the work is bounded ────────────────────────────────────────────

  /** No peer makes the exchange send more than `bound` frames. */
  ghost predicate Bounded(h: Handler, s: Session, apdu: seq<byte>, bound: nat) {
    forall script, n: nat :: |Sent(Start(h, s, apdu), Hears(s, script, n))| <= bound
  }

  /** No peer does without S(DESELECT). */
  ghost predicate QuietlyBounded(h: Handler, s: Session, apdu: seq<byte>, bound: nat) {
    forall script, n: nat :: NoDeselect(Hears(s, script, n)) ==>
      |Sent(Start(h, s, apdu), Hears(s, script, n))| <= bound
  }

  /** Against peers without S(DESELECT) the frame budget bounds the exchange exactly when it
      is below its type's maximum: a saturated counter never passes 65535. */
  lemma QuietWorkBoundedIff(h: Handler, s: Session, apdu: seq<byte>)
    requires h.role == Role.Pcd && Start(h, s, apdu).Sending? && s.fsd >= 16
    ensures (exists bound: nat :: QuietlyBounded(h, s, apdu, bound)) <==> h.limits.maxFrames < 0xFFFF
  {
    hide Parsed, Hears, Sent;
    if h.limits.maxFrames < 0xFFFF {
      forall script, n: nat | NoDeselect(Hears(s, script, n))
        ensures |Sent(Start(h, s, apdu), Hears(s, script, n))| <= 1 + 3 * h.limits.maxFrames
      {
        ReaderWork(h, s, apdu, Hears(s, script, n));
      }
      assert QuietlyBounded(h, s, apdu, 1 + 3 * h.limits.maxFrames);
    } else {
      forall bound: nat
        ensures !QuietlyBounded(h, s, apdu, bound)
      {
        var script := HoldFor(Chains, h, s, apdu, bound + 1);
        assert NoDeselect(Hears(s, script, bound + 1));
      }
    }
  }

  /** A budget below the number of chunks runs out before the last of them is answered. */
  ghost predicate RunsOut(r: Reader, n: nat, apdu: seq<byte>, k: nat) {
    match r
    case Sending(h, a, maxInf, offset) =>
      && a == apdu && maxInf > 0 && offset < |a|
      && n == h.counters.frames <= h.limits.maxFrames < 0xFFFF && h.limits.maxFrames < k <= n + ChunksLeft(r)
    case Collecting(_, _, _) => false
    case Finished(_, _) => true
  }

  lemma RunsOutStep(r: Reader, a: Answer, n: nat, apdu: seq<byte>, k: nat)
    requires RunsOut(r, n, apdu, k)
    ensures RunsOut(Feed(r, a), n + 1, apdu, k)
  {
    if r.Sending? && a.Ok? {
      ProtocolRuns.ProcessKeepsSession(r.h, a.value);
      BudgetRunsOut(r.h, a.value);
      if r.offset + r.maxInf < |r.apdu| {
        assert r.apdu[r.offset..][r.maxInf..] == r.apdu[r.offset + r.maxInf..];
      }
    }
    hide Process;
  }

  /** Every answer counts, and none is taken once the budget is spent. */
  lemma BudgetRunsOut(h: Handler, b: Block)
    requires h.counters.frames <= h.limits.maxFrames < 0xFFFF
    ensures h.counters.frames == h.limits.maxFrames ==> Process(h, b).1.Err?
    ensures var (n, o) := Process(h, b);
            o.Ok? && !o.value.Reply? ==> n.counters.frames == h.counters.frames + 1 <= h.limits.maxFrames
  {
  }

  lemma {:induction false} RunsOutAfter(h: Handler, s: Session, apdu: seq<byte>, heard: seq<Answer>)
    requires Start(h, s, apdu).Sending? && h.limits.maxFrames < 0xFFFF
    requires h.limits.maxFrames < |Chunks(apdu, MaxInf(s.fsc, h))|
    ensures RunsOut(Run(Start(h, s, apdu), heard), |heard|, apdu, |Chunks(apdu, MaxInf(s.fsc, h))|)
    ensures |Sent(Start(h, s, apdu), heard)| <= h.limits.maxFrames + 1
  {
    hide Feed, Chunks, Run, Sent;
    var start, k := Start(h, s, apdu), |Chunks(apdu, MaxInf(s.fsc, h))|;
    if heard == [] {
      RunNone(start);
      assert apdu[0..] == apdu;
    } else {
      var init, a := heard[..|heard| - 1], heard[|heard| - 1];
      assert heard == init + [a];
      RunsOutAfter(h, s, apdu, init);
      RunSnoc(start, init, a);
      RunsOutStep(Run(start, init), a, |init|, apdu, k);
      SentAtMost(start, init);
      LimitsOfRun(h, s, apdu, init);
    }
  }

  lemma {:induction false} LimitsOfRun(h: Handler, s: Session, apdu: seq<byte>, heard: seq<Answer>)
    ensures Run(Start(h, s, apdu), heard).h.limits == h.limits
  {
    hide Process;
    if heard != [] {
      LimitsOfRun(h, s, apdu, heard[..|heard| - 1]);
      var r, a := Run(Start(h, s, apdu), heard[..|heard| - 1]), heard[|heard| - 1];
      if a.Ok? {
        ProtocolRuns.ProcessKeepsSession(r.h, a.value);
      }
    }
  }

  /** A peer that answers the last chunk, and everything after it, with S(DESELECT) is never
      cut off, if the budget lets the command through. */
  lemma DeselectNeverEnds(h: Handler, s: Session, apdu: seq<byte>, n: nat) returns (script: Script)
    requires h.role == Role.Pcd && Start(h, s, apdu).Sending? && s.fsd >= 16
    requires h.limits.maxFrames == 0xFFFF || |Chunks(apdu, MaxInf(s.fsc, h))| <= h.limits.maxFrames
    ensures |script| == n && |Sent(Start(h, s, apdu), Hears(s, script, n))| == n
    ensures !Run(Start(h, s, apdu), Hears(s, script, n)).Finished?
  {
    hide Parsed, Hears, Sent, Chunks;
    assert apdu[0..] == apdu;
    script := HoldFor(Deselects, h, s, apdu, n);
  }

  /** The frame budget bounds an exchange against every peer exactly when it is too small for
      the exchange to succeed: S(DESELECT) in answer to the last chunk, or instead of a
      response block, resets the counters, and the reader answers it for good. */
  lemma WorkBoundedIff(h: Handler, s: Session, apdu: seq<byte>)
    requires h.role == Role.Pcd && Start(h, s, apdu).Sending? && s.fsd >= 16
    ensures (exists bound: nat :: Bounded(h, s, apdu, bound))
            <==> h.limits.maxFrames < 0xFFFF && h.limits.maxFrames < |Chunks(apdu, MaxInf(s.fsc, h))|
  {
    hide Parsed, Hears, Sent, Chunks;
    if h.limits.maxFrames < 0xFFFF && h.limits.maxFrames < |Chunks(apdu, MaxInf(s.fsc, h))| {
      forall script, n: nat
        ensures |Sent(Start(h, s, apdu), Hears(s, script, n))| <= h.limits.maxFrames + 1
      {
        RunsOutAfter(h, s, apdu, Hears(s, script, n));
      }
      assert Bounded(h, s, apdu, h.limits.maxFrames + 1);
    } else {
      forall bound: nat
        ensures !Bounded(h, s, apdu, bound)
      {
        var script := DeselectNeverEnds(h, s, apdu, bound + 1);
        assert |Sent(Start(h, s, apdu), Hears(s, script, bound + 1))| == bound + 1;
      }
    }
  }

  // ── Recovery ────────────────────────────────────────────────────────────

  /** A reply gets three attempts: the block itself and two R(ACK). An answer to any of them
      carries the exchange on, and after three failures it has failed. */
  lemma RecoveryIsThreeAttempts(h: Handler, reply: Block, e: PcdError, f: PcdError, g: PcdError, b: Block)
    ensures var r := Collecting(h, reply, 0);
            && Sent(r, [Err(e), Err(f), Err(g)]) == [reply, h.RAck(), h.RAck()]
            && Run(r, [Ok(b)]) == Run(r, [Err(e), Ok(b)]) == Run(r, [Err(e), Err(f), Ok(b)]) == Take(h, b)
            && Run(r, [Err(e), Err(f), Err(g)]) == Finished(h, Err(ProtocolError(Other)))
  {
    hide Take, Run, Sent;
    var r, ok: Answer := Collecting(h, reply, 0), Ok(b);
    var first: Answer, second: Answer, third: Answer := Err(e), Err(f), Err(g);
    RunsOn(r, [], ok);
    RunsOn(r, [], first);
    RunsOn(r, [first], ok);
    RunsOn(r, [first], second);
    RunsOn(r, [first, second], ok);
    RunsOn(r, [first, second], third);
  }

  lemma RunsOn(r: Reader, heard: seq<Answer>, a: Answer)
    ensures Run(r, heard + [a]) == Feed(Run(r, heard), a)
    ensures Sent(r, heard + [a]) == Sent(r, heard) + Asks(Run(r, heard))
    ensures heard == [] ==> heard + [a] == [a] && Run(r, heard) == r && Sent(r, heard) == []
    ensures |heard| == 1 ==> heard + [a] == [heard[0], a]
    ensures |heard| == 2 ==> heard + [a] == [heard[0], heard[1], a]
  {
    RunSnoc(r, heard, a);
  }

  /** A failure while the command goes out ends the exchange, and is what it returns. */
  lemma CommandLegFails(h: Handler, apdu: seq<byte>, maxInf: nat, offset: nat, e: PcdError)
    ensures Feed(Sending(h, apdu, maxInf, offset), Err(e)) == Finished(h, Err(e))
  {
  }

  // ── Sizes ───────────────────────────────────────────────────────────────

  lemma AirSize(b: Block)
    ensures |OnAir(b)| == 1 + (if b.cid.Some? then 1 else 0) + (if b.nad.Some? then 1 else 0) + |b.payload| + 2
  {
  }

  /** What the reader is about to send fits the frame size the PICC announced. */
  ghost predicate Fitting(r: Reader, s: Session) {
    match r
    case Sending(h, _, maxInf, _) => maxInf == MaxInf(s.fsc, h)
    case Collecting(h, reply, _) => reply.cid == h.cid && reply.nad == None && |reply.payload| <= 1
    case Finished(_, _) => true
  }

  lemma ReplyIsShort(h: Handler, b: Block)
    ensures Process(h, b).0.cid == h.cid
    ensures var o := Process(h, b).1;
            o.Ok? && o.value.Reply? ==>
              o.value.block.cid == h.cid && o.value.block.nad == None && |o.value.block.payload| <= 1
  {
  }

  lemma {:induction false} FittingRun(h: Handler, s: Session, apdu: seq<byte>, heard: seq<Answer>)
    ensures var r := Run(Start(h, s, apdu), heard);
            Fitting(r, s) && r.h.cid == h.cid
  {
    hide Process;
    if heard != [] {
      var init, a := heard[..|heard| - 1], heard[|heard| - 1];
      FittingRun(h, s, apdu, init);
      var r := Run(Start(h, s, apdu), init);
      if a.Ok? {
        ReplyIsShort(r.h, a.value);
      }
    }
  }

  /** Every frame of every exchange fits the FSC of the session, whatever the peer
      answers; 16 is the least FSC there is. */
  lemma {:induction false} FramesFit(h: Handler, s: Session, apdu: seq<byte>, heard: seq<Answer>)
    requires s.fsc >= 16
    ensures forall i :: 0 <= i < |Sent(Start(h, s, apdu), heard)| ==>
              |OnAir(Sent(Start(h, s, apdu), heard)[i])| <= s.fsc
    ensures MaxInf(s.fsc, h) > 0
  {
    hide OnAir;
    if heard != [] {
      var init := heard[..|heard| - 1];
      FramesFit(h, s, apdu, init);
      FittingRun(h, s, apdu, init);
      var r := Run(Start(h, s, apdu), init);
      if !r.Finished? {
        AirSize(Pending(r).value);
      }
    }
  }

  /** An answer longer than the FSD is refused, whatever is in it and whoever does the CRC. */
  lemma OverlongIsRefused(s: Session, raw: seq<byte>)
    requires |raw| + (if s.hwCrc then 2 else 0) > s.fsd
    ensures Parsed(s, Some(raw)) == Err(ProtocolError(LimitExceeded(FrameSize)))
  {
  }

  /** A chunk that is not the last fills its frame. */
  lemma ChainedFramesAreFull(h: Handler, s: Session, apdu: seq<byte>, heard: seq<Answer>)
    requires Start(h, s, apdu).Sending?
    ensures var r := Run(Start(h, s, apdu), heard);
            r.Sending? && Pending(r).value.pcb.chaining ==> |OnAir(Pending(r).value)| == s.fsc
  {
    hide OnAir, Run;
    FittingRun(h, s, apdu, heard);
    SendsAreCounted(h, s, apdu, heard, 0);
    var r := Run(Start(h, s, apdu), heard);
    if r.Sending? {
      AirSize(Pending(r).value);
    }
  }

  // ── Chunking ────────────────────────────────────────────────────────────

  /** The payload of the chunk the reader is on. */
  ghost predicate On(r: Reader, offset: nat) {
    r.Sending? && r.offset == offset
  }

  /** The chunk the reader moves on from in one step. */
  ghost function PassedIn(r: Reader, t: Reader): seq<seq<byte>> {
    if r.Sending? && !On(t, r.offset) && !(t.Finished? && t.result.Err?)
    then [Chunk(r.apdu, r.offset, r.maxInf)] else []
  }

  /** The chunks the PICC has taken over, in order: each is listed when the reader moves
      on from it. */
  ghost function Passed(start: Reader, heard: seq<Answer>): seq<seq<byte>> {
    if heard == [] then []
    else Passed(start, heard[..|heard| - 1]) + PassedIn(Run(start, heard[..|heard| - 1]), Run(start, heard))
  }

  /** While the command goes out the chunks passed are those before the offset; once the
      response is awaited they are the whole command, in minimal chunks. */
  lemma {:induction false} CommandIsChunked(h: Handler, s: Session, apdu: seq<byte>, heard: seq<Answer>)
    requires Start(h, s, apdu).Sending?
    ensures var start, m := Start(h, s, apdu), MaxInf(s.fsc, h);
            var r := Run(start, heard);
            match r
            case Sending(_, a, maxInf, offset) =>
              && a == apdu && maxInf == m && offset < |apdu|
              && Passed(start, heard) + Chunks(apdu[offset..], m) == Chunks(apdu, m)
            case Collecting(_, _, _) => Passed(start, heard) == Chunks(apdu, m)
            case Finished(_, result) => result.Ok? ==> Passed(start, heard) == Chunks(apdu, m)
  {
    hide Process, Run, Chunks, Passed, Feed;
    if heard == [] {
      RunNone(Start(h, s, apdu));
      assert apdu[0..] == apdu;
      assert Passed(Start(h, s, apdu), []) == [] by { PassedNone(Start(h, s, apdu)); }
    } else {
      var init, a := heard[..|heard| - 1], heard[|heard| - 1];
      var start := Start(h, s, apdu);
      CommandIsChunked(h, s, apdu, init);
      assert heard == init + [a];
      RunSnoc(start, init, a);
      PassedNext(start, init, a);
      var r := Run(start, init);
      if r.Sending? {
        ChunkPassed(r, a, Passed(start, init), Chunks(apdu, MaxInf(s.fsc, h)));
      } else {
        NeverSendsAgain(r, a);
      }
    }
  }

  lemma PassedNone(start: Reader)
    ensures Passed(start, []) == []
  {
  }

  lemma PassedNext(start: Reader, heard: seq<Answer>, a: Answer)
    ensures Passed(start, heard + [a]) == Passed(start, heard) + PassedIn(Run(start, heard), Run(start, heard + [a]))
  {
    hide Feed, Run;
    assert (heard + [a])[..|heard|] == heard;
  }

  lemma NeverSendsAgain(r: Reader, a: Answer)
    requires !r.Sending?
    ensures !Feed(r, a).Sending?
    ensures r.Finished? ==> Feed(r, a) == r
  {
    hide Process;
  }

  lemma ChunkPassed(r: Reader, a: Answer, passed: seq<seq<byte>>, all: seq<seq<byte>>)
    requires r.Sending? && r.maxInf > 0 && r.offset < |r.apdu|
    requires passed + Chunks(r.apdu[r.offset..], r.maxInf) == all
    ensures var t := Feed(r, a);
            var now := passed + PassedIn(r, t);
            match t
            case Sending(_, apdu, maxInf, offset) =>
              && apdu == r.apdu && maxInf == r.maxInf && offset < |apdu|
              && now + Chunks(apdu[offset..], maxInf) == all
            case Collecting(_, _, _) => now == all
            case Finished(_, result) => result.Ok? ==> now == all
  {
    hide Process;
    var rest := r.apdu[r.offset..];
    assert Chunk(r.apdu, r.offset, r.maxInf) == Chunks(rest, r.maxInf)[0];
    if r.offset + r.maxInf < |r.apdu| {
      assert rest[r.maxInf..] == r.apdu[r.offset + r.maxInf..];
    }
  }

  /** How often the chunk at `offset` was sent. */
  ghost function TimesSent(start: Reader, heard: seq<Answer>, offset: nat): nat {
    if heard == [] then 0
    else TimesSent(start, heard[..|heard| - 1], offset) + if On(Run(start, heard[..|heard| - 1]), offset) then 1 else 0
  }

  /** Sending the chunk at the current offset again and again is what the retransmission
      counter counts, as far as it goes, and every sending costs a frame. */
  lemma {:induction false} SendsAreCounted(h: Handler, s: Session, apdu: seq<byte>, heard: seq<Answer>, offset: nat)
    requires Start(h, s, apdu).Sending?
    ensures var start, l := Start(h, s, apdu), h.limits;
            var r, n := Run(start, heard), TimesSent(start, heard, offset);
            && r.h.limits == l
            && (r.Sending? ==> r.maxInf == MaxInf(s.fsc, h) && r.apdu == apdu && r.offset < |apdu|)
            && (r.Sending? ==> r.h.counters.retransmissions <= l.maxRetransmissions)
            && (r.Sending? ==> r.h.counters.frames <= l.maxFrames)
            && (On(r, offset) && l.maxRetransmissions < 0xFF ==> n == r.h.counters.retransmissions)
            && (r.Sending? && l.maxFrames < 0xFFFF ==> n <= r.h.counters.frames)
            && (On(r, offset) && offset + r.maxInf >= |apdu| ==> n == 0)
            && (r.Sending? && r.offset < offset ==> n == 0)
            && (l.maxRetransmissions < 0xFF ==> n <= 1 + l.maxRetransmissions)
            && (l.maxFrames < 0xFFFF ==> n <= 1 + l.maxFrames)
            && (offset + MaxInf(s.fsc, h) >= |apdu| ==> n <= 1)
  {
    hide Process;
    if heard != [] {
      var init, a := heard[..|heard| - 1], heard[|heard| - 1];
      SendsAreCounted(h, s, apdu, init, offset);
      var r := Run(Start(h, s, apdu), init);
      if r.Sending? && a.Ok? {
        ProtocolRuns.ProcessKeepsSession(r.h, a.value);
        ChunkCounted(r.h, a.value);
      } else if r.Collecting? && a.Ok? {
        ProtocolRuns.ProcessKeepsSession(r.h, a.value);
      }
    }
  }

  lemma ChunkCounted(h: Handler, b: Block)
    requires h.counters.retransmissions <= h.limits.maxRetransmissions && h.counters.frames <= h.limits.maxFrames
    ensures var (n, o) := Process(h, b);
            && (o == Ok(ChainingAck) ==> n.counters.retransmissions == 0)
            && (o == Ok(ChainingRetransmit) ==>
                  n.counters.retransmissions == Next8(h.counters.retransmissions) <= h.limits.maxRetransmissions)
            && (o.Ok? && !o.value.Reply? ==> n.counters.frames == Next16(h.counters.frames) <= h.limits.maxFrames)
  {
  }

  /** No chunk is sent more than 1 + max_retransmissions times. */
  ghost predicate SendsBounded(h: Handler, s: Session, apdu: seq<byte>) {
    forall script, n: nat, offset: nat ::
      TimesSent(Start(h, s, apdu), Hears(s, script, n), offset) <= 1 + h.limits.maxRetransmissions
  }

  /** The retransmission limit bounds how often a chunk is sent exactly when it is below its
      type's maximum, or the command is one chunk, or the frame budget is as small. */
  lemma SendsBoundedIff(h: Handler, s: Session, apdu: seq<byte>)
    requires h.role == Role.Pcd && Start(h, s, apdu).Sending? && s.fsd >= 16
    ensures SendsBounded(h, s, apdu)
            <==> h.limits.maxRetransmissions < 0xFF || |apdu| <= MaxInf(s.fsc, h) || h.limits.maxFrames <= 0xFF
  {
    hide Parsed, Hears, Run, TimesSent;
    if h.limits.maxRetransmissions < 0xFF || |apdu| <= MaxInf(s.fsc, h) || h.limits.maxFrames <= 0xFF {
      forall script, n: nat, offset: nat
        ensures TimesSent(Start(h, s, apdu), Hears(s, script, n), offset) <= 1 + h.limits.maxRetransmissions
      {
        SendsAreCounted(h, s, apdu, Hears(s, script, n), offset);
      }
    } else {
      var script := HoldFor(Nags, h, s, apdu, 256);
      var next := HeardAfter(h, s, apdu, script, 256);
      assert TimesSent(Start(h, s, apdu), Hears(s, next, 257), 0) == 257;
    }
  }

  /** One more sending, whatever comes of it. */
  lemma HeardAfter(h: Handler, s: Session, apdu: seq<byte>, script: Script, n: nat) returns (next: Script)
    requires Hold(Nags, h, s, apdu, script, n)
    ensures TimesSent(Start(h, s, apdu), Hears(s, next, n + 1), 0) == n + 1
  {
    hide Parsed, Run, Start, TimesSent, Hears;
    next := script + [None];
    HearsSnoc(s, script, None);
    TimesNext(Start(h, s, apdu), Hears(s, script, n), Parsed(s, None), 0);
  }

  /** A chunk is repeated as it was. */
  lemma RepeatsAreIdentical(r: Reader, a: Answer)
    requires r.Sending? && r.maxInf > 0 && On(Feed(r, a), r.offset)
    ensures Pending(Feed(r, a)) == Pending(r)
  {
  }

  // ── Who does the CRC ────────────────────────────────────────────────────

  /** What a session hears of the frames on the air. */
  function HearsAir(s: Session, air: seq<Option<seq<byte>>>): seq<Answer> {
    seq(|air|, i requires 0 <= i < |air| => Parsed(s, HandedUp(s.hwCrc, air[i])))
  }

  function HandedUp(hwCrc: bool, air: Option<seq<byte>>): Option<seq<byte>> {
    if air.None? then None else Carriage.FromAir(hwCrc, air.value)
  }

  /** What the session's transceiver puts on the air of the frames it is handed. */
  function PutOnAir(hwCrc: bool, frames: seq<Frame>): seq<seq<byte>> {
    seq(|frames|, i requires 0 <= i < |frames| => Carriage.ToAir(hwCrc, frames[i].data))
  }

  /** Equal up to the kind of error. */
  predicate Alike(r: Reader, t: Reader) {
    r == t || (r.Finished? && t.Finished? && r.h == t.h && r.result.Err? && t.result.Err?)
  }

  lemma AnswersAlike(s: Session, t: Session, air: Option<seq<byte>>)
    requires s.hwCrc && t == s.(hwCrc := false)
    ensures var a, b := Parsed(s, HandedUp(true, air)), Parsed(t, HandedUp(false, air));
            a == b || (a.Err? && b.Err?)
  {
  }

  /** With the CRC in hardware or in software the same frames go over the air and the same
      answer comes out, through every repetition and recovery. */
  lemma {:induction false} CrcSessionsSimulate(h: Handler, s: Session, t: Session, apdu: seq<byte>,
                                                 air: seq<Option<seq<byte>>>)
    requires s.hwCrc && t == s.(hwCrc := false)
    ensures var blocks, others := Sent(Start(h, s, apdu), HearsAir(s, air)), Sent(Start(h, t, apdu), HearsAir(t, air));
            && blocks == others
            && PutOnAir(s.hwCrc, Transmissions(s.hwCrc, blocks)) == PutOnAir(t.hwCrc, Transmissions(t.hwCrc, others))
    ensures Alike(Run(Start(h, s, apdu), HearsAir(s, air)), Run(Start(h, t, apdu), HearsAir(t, air)))
  {
    hide Process, Parsed, Feed, Run, Sent, Start, Pending, HandedUp, Transmissions, PutOnAir;
    SameAir(Sent(Start(h, t, apdu), HearsAir(t, air)));
    if air == [] {
      assert HearsAir(s, air) == [] && HearsAir(t, air) == [];
      RunNone(Start(h, s, apdu));
      RunNone(Start(h, t, apdu));
      StartsAlike(h, s, t, apdu);
    } else {
      var init, last := air[..|air| - 1], air[|air| - 1];
      CrcSessionsSimulate(h, s, t, apdu, init);
      AnswersAlike(s, t, last);
      HearsAirNext(s, init, last);
      HearsAirNext(t, init, last);
      assert air == init + [last];
      var a, b := Parsed(s, HandedUp(true, last)), Parsed(t, HandedUp(false, last));
      RunSnoc(Start(h, s, apdu), HearsAir(s, init), a);
      RunSnoc(Start(h, t, apdu), HearsAir(t, init), b);
      FeedAlike(Run(Start(h, s, apdu), HearsAir(s, init)), Run(Start(h, t, apdu), HearsAir(t, init)), a, b);
    }
  }

  lemma HearsAirNext(s: Session, air: seq<Option<seq<byte>>>, last: Option<seq<byte>>)
    ensures HearsAir(s, air + [last]) == HearsAir(s, air) + [Parsed(s, HandedUp(s.hwCrc, last))]
  {
    hide Parsed;
  }

  lemma StartsAlike(h: Handler, s: Session, t: Session, apdu: seq<byte>)
    requires t == s.(hwCrc := false)
    ensures Start(h, s, apdu) == Start(h, t, apdu)
  {
  }

  lemma FeedAlike(r: Reader, q: Reader, a: Answer, b: Answer)
    requires Alike(r, q) && (a == b || (a.Err? && b.Err?))
    ensures Alike(Feed(r, a), Feed(q, b)) && Asks(r) == Asks(q)
  {
    hide Process;
  }

  /** The frames on the air are the same whoever appends the CRC. */
  lemma {:induction false} SameAir(blocks: seq<Block>)
    ensures PutOnAir(true, Transmissions(true, blocks)) == PutOnAir(false, Transmissions(false, blocks))
  {
    hide Encoding, Crc.Append;
    if blocks != [] {
      SameAir(blocks[..|blocks| - 1]);
      var a, b := Transmissions(true, blocks[..|blocks| - 1]), Transmissions(false, blocks[..|blocks| - 1]);
      var last := blocks[|blocks| - 1];
      assert Transmissions(true, blocks) == a + [Standard(Transmitted(true, last))];
      assert Transmissions(false, blocks) == b + [Standard(Transmitted(false, last))];
      OneMoreOnAir(true, a, Standard(Transmitted(true, last)));
      OneMoreOnAir(false, b, Standard(Transmitted(false, last)));
      SameOnAir(last);
    }
  }

  lemma OneMoreOnAir(hwCrc: bool, frames: seq<Frame>, f: Frame)
    ensures PutOnAir(hwCrc, frames + [f]) == PutOnAir(hwCrc, frames) + [Carriage.ToAir(hwCrc, f.data)]
  {
  }

  lemma SameOnAir(b: Block)
    ensures Carriage.ToAir(true, Transmitted(true, b)) == Carriage.ToAir(false, Transmitted(false, b))
  {
  }
}
