/**
 What an exchange over the link of `Link` costs the card, hop by hop, and what its budgets
 have to cover: exactly the blocks that reach it.
 */
module LinkBudgets {
  import opened Wire
  import opened Blocks
  import opened Chunking
  import opened Protocol
  import opened PcdLayer
  import opened Carriage
  import opened SpecPeers
  import opened SpecRuns
  import opened Link
  import opened LinkRuns
  import P = PiccLayer
  import ProtocolRuns

  /** The noise as the reader and a card that answers see it. */
  function FaultOf(s: Session, f: Noise): Fault {
    match f
    case Clear => Clean
    case CommandLost(heard) => RequestLost(ErrorHeard(s, heard))
    case AnswerLost(heard) => Fault.AnswerLost(ErrorHeard(s, heard))
  }

  function Faults(s: Session, noise: seq<Noise>): seq<Fault> {
    seq(|noise|, i requires 0 <= i < |noise| => FaultOf(s, noise[i]))
  }

  // ── What the card's budgets have to cover ───────────────────────────────

  /** The repetitions of a response chunk that a run of `n` more answers asks for: `owed`
      and the answers lost next for the chunk at hand, one for each answer lost after that. */
  ghost predicate RepeatsFit(rest: seq<Fault>, owed: nat, n: int, limit: nat) {
    && owed + LostAt(rest, 0) <= limit
    && forall i: nat :: 1 <= i < n ==> LostAt(rest, i) <= limit
  }

  /** The repetitions the card has made or been asked for of the chunk the reader misses. */
  ghost function Repeats(l: Link, y: System): nat {
    if Owed(y) == 1 then l.host.card.h.counters.retransmissions + 1 else 0
  }

  /** The card's budgets cover what is left of the exchange. The last chunk starts the
      count for the next command, and what is asked for again after it goes into that. */
  ghost predicate CardCovered(l: Link, y: System, x: Exchange, rest: seq<Fault>) {
    var h, n := l.host.card.h, Needed(y, x);
    && !l.host.card.at.Stopped?
    && (l.reader.Sending? ==> |x.apdu| <= h.limits.maxChainLen)
    && (!l.reader.Finished? && n >= 1 ==>
          && RepeatsFit(rest, Repeats(l, y), n, h.limits.maxRetransmissions)
          && (if AfterLast(l) then h.counters.frames + 1 + LostAt(rest, 0) <= h.limits.maxFrames
              else && h.counters.frames + n + LostBefore(rest, n - 1) <= h.limits.maxFrames
                   && LostAt(rest, n - 1) <= h.limits.maxFrames))
  }

  /** The card has sent the last chunk and listens for the next command. */
  predicate AfterLast(l: Link) {
    l.reader.Collecting? && l.host.card.at.Listening?
  }

  /** The frames in the card's count when the exchange is over. */
  ghost function Leftover(l: Link, y: System, x: Exchange, rest: seq<Fault>): int {
    if l.reader.Finished? || Needed(y, x) < 1 then l.host.card.h.counters.frames
    else if AfterLast(l) then l.host.card.h.counters.frames + 1 + LostAt(rest, 0)
    else LostAt(rest, Needed(y, x) - 1)
  }

  /** A chunk is asked for again after a loss only. */
  ghost predicate RepeatsFollowLosses(l: Link, y: System) {
    l.reader.Collecting? ==>
      && Repeats(l, y) <= l.reader.attempts
      && (AfterLast(l) ==> l.host.card.h.counters.frames < l.reader.attempts)
  }

  lemma RepeatsFitCons(f: Fault, rest: seq<Fault>, owed: nat, n: int, limit: nat)
    requires n >= 1
    ensures f == Clean ==>
              (RepeatsFit([f] + rest, owed, n, limit)
               <==> owed <= limit && (n >= 2 ==> RepeatsFit(rest, 0, n - 1, limit)))
    ensures f.AnswerLost? ==> (RepeatsFit([f] + rest, owed, n, limit) <==> RepeatsFit(rest, owed + 1, n, limit))
    ensures f.RequestLost? ==> (RepeatsFit([f] + rest, owed, n, limit) <==> RepeatsFit(rest, owed, n, limit))
  {
    LostCons(f, rest, 0);
    if f == Clean {
      LostShifts(rest);
    } else {
      LostStays(f, rest);
    }
  }

  lemma LostShifts(rest: seq<Fault>)
    ensures forall i: nat {:trigger LostAt(rest, i)} :: LostAt(rest, i) == LostAt([Clean] + rest, i + 1)
    ensures forall i: nat {:trigger LostAt([Clean] + rest, i)} ::
              1 <= i ==> LostAt([Clean] + rest, i) == LostAt(rest, i - 1)
  {
    assert ([Clean] + rest)[1..] == rest;
  }

  lemma LostStays(f: Fault, rest: seq<Fault>)
    requires f != Clean
    ensures forall i: nat {:trigger LostAt(rest, i)} {:trigger LostAt([f] + rest, i)} ::
              1 <= i ==> LostAt([f] + rest, i) == LostAt(rest, i)
  {
    assert ([f] + rest)[1..] == rest;
  }

  lemma LostCons(f: Fault, rest: seq<Fault>, i: nat)
    ensures LostAt([f] + rest, i) == if f == Clean then if i == 0 then 0 else LostAt(rest, i - 1)
                                     else (if f.AnswerLost? && i == 0 then 1 else 0) + LostAt(rest, i)
    ensures LostBefore([f] + rest, i) == if i == 0 then 0
                                         else if f == Clean then LostBefore(rest, i - 1)
                                         else (if f.AnswerLost? then 1 else 0) + LostBefore(rest, i)
    ensures LostBefore(rest, 0) == 0
  {
    assert ([f] + rest)[1..] == rest;
  }

  // ── One hop ─────────────────────────────────────────────────────────────

  /** A covered card can take the next block. */
  lemma CardBears(l: Link, y: System, x: Exchange, s: Session, t: P.Terms, f: Noise, rest: seq<Fault>)
    requires Linked(l, y, s, t) && Keeps(y, x) && SizesAgree(s, t)
    requires !l.reader.Finished? && x.chunks != [] && !f.CommandLost?
    requires CardCovered(l, y, x, [FaultOf(s, f)] + rest)
    ensures Bears(l.host.card.h, y.card, Pending(l.reader).value)
  {
    hide Process, Sendable, SameResponses, Chunks, RepeatsFit, LostAt, LostBefore;
    AsksInStep(y, x, s);
    NeedsMore(y, x);
    RepeatsFitCons(FaultOf(s, f), rest, Repeats(l, y), Needed(y, x), l.host.card.h.limits.maxRetransmissions);
    RepeatsFitFirst(rest, Repeats(l, y) + 1, Needed(y, x), l.host.card.h.limits.maxRetransmissions);
    if l.reader.Sending? {
      var b := Pending(l.reader).value;
      assert |b.payload| <= |x.apdu| - l.reader.offset;
    }
  }

  lemma RepeatsFitFirst(rest: seq<Fault>, owed: nat, n: int, limit: nat)
    ensures RepeatsFit(rest, owed, n, limit) ==> owed <= limit
  {
  }

  /** A card that answers sees the noise and nothing else, and it answers exactly when its
      budgets allow for the block. */
  lemma HopAnswers(l: Link, y: System, x: Exchange, s: Session, t: P.Terms, f: Noise)
    requires Linked(l, y, s, t) && Keeps(y, x) && SizesAgree(s, t)
    requires !l.reader.Finished? && !l.host.card.at.Stopped? && x.chunks != [] && Detected(s, f)
    ensures var n := Hop(l, s, t, f);
            var b := Pending(l.reader).value;
            && n.host.responses == l.host.responses
            && (!n.host.card.at.Stopped? <==> f.CommandLost? || Bears(l.host.card.h, y.card, b))
            && (!n.host.card.at.Stopped? ==>
                  && Linked(n, Step(y, FaultOf(s, f)), s, t)
                  && (if f.CommandLost? then n.host == l.host else Charged(l.host.card.h, n.host.card, y.card, b)))
  {
    hide Process, Keeps, Mirrors, Transmitted, Parsed, Feed, Attend, AttendBlock, Serve, Sendable, Expected;
    hide Request, Bears, Charged;
    AsksInStep(y, x, s);
    RoundTrip(l.reader, l.host, y.card, s, t);
    HopLinked(l, y, x, s, t, f);
  }

  /** Where the card of the rules is, this one is too. */
  lemma PlacesAgree(l: Link, y: System, s: Session, t: P.Terms)
    requires Linked(l, y, s, t) && !l.host.card.at.Stopped?
    ensures l.reader == y.reader && l.host.card.h.chain == y.card.partial
    ensures if y.card.chunk == 0 then l.host.card.at.Listening? else l.host.card.at.Answering?
  {
  }

  /** What the hop costs the card is what its budgets were to cover. */
  ghost predicate Balanced(l: Link, y: System, x: Exchange, n: Link, z: System, f: Fault, rest: seq<Fault>) {
    && (CardCovered(l, y, x, [f] + rest) ==> CardCovered(n, z, x, rest))
    && (CardCovered(n, z, x, rest) && l.host.card.h.limits.maxFrames < 0xFFFF ==> CardCovered(l, y, x, [f] + rest))
    && (l.host.card.h.limits.maxFrames < 0xFFFF || CardCovered(l, y, x, [f] + rest) ==>
          Leftover(n, z, x, rest) == Leftover(l, y, x, [f] + rest))
    && RepeatsFollowLosses(n, z)
  }

  lemma ClearCommandHop(l: Link, y: System, x: Exchange, s: Session, t: P.Terms, rest: seq<Fault>)
    requires Linked(l, y, s, t) && Keeps(y, x) && Covered(y, x) && SizesAgree(s, t)
    requires l.reader.Sending? && x.chunks != [] && RepeatsFollowLosses(l, y)
    requires !l.host.card.at.Stopped? && !Hop(l, s, t, Clear).host.card.at.Stopped?
    ensures Balanced(l, y, x, Hop(l, s, t, Clear), Step(y, Clean), Clean, rest)
  {
    hide Linked, Hop, Step, Shadow, Process, Spent, Parsed, RepeatsFit, LostAt, LostBefore;
    HopAnswers(l, y, x, s, t, Clear);
    PlacesAgree(l, y, s, t);
    CommandMoves(y.reader.apdu, y.reader.offset, y.reader.maxInf);
    CleanSending(y, x);
    StepKeeps(y, x, Clean);
    var n, z := Hop(l, s, t, Clear), Step(y, Clean);
    PlacesAgree(n, z, s, t);
    CommandCosts(l.host.card.h, n.host.card, y.card, Pending(l.reader).value);
    RepeatsFitCons(Clean, rest, 0, Needed(y, x), l.host.card.h.limits.maxRetransmissions);
    LostCons(Clean, rest, Needed(y, x) - 1);
    if z.reader.Sending? {
      CommandRemains(z, x);
    } else {
      var b := Pending(l.reader).value;
      assert !b.pcb.chaining && |l.host.card.h.chain| + |b.payload| == |x.apdu|;
    }
  }

  lemma CommandCosts(h: Handler, n: P.Card, p: SpecCard, b: Block)
    requires Charged(h, n, p, b) && b.pcb.blockType == IBlock
    ensures n.h.limits == h.limits
    ensures n.h.counters.frames == if n.at.Listening? && !b.pcb.chaining then 0 else Next16(h.counters.frames)
  {
  }

  lemma ClearResponseHop(l: Link, y: System, x: Exchange, s: Session, t: P.Terms, rest: seq<Fault>)
    requires Linked(l, y, s, t) && Keeps(y, x) && Covered(y, x) && SizesAgree(s, t)
    requires l.reader.Collecting? && x.chunks != [] && RepeatsFollowLosses(l, y)
    requires !l.host.card.at.Stopped? && !Hop(l, s, t, Clear).host.card.at.Stopped?
    ensures Balanced(l, y, x, Hop(l, s, t, Clear), Step(y, Clean), Clean, rest)
  {
    hide Linked, Hop, Step, Shadow, Process, Spent, Parsed, RepeatsFit, LostAt, LostBefore;
    HopAnswers(l, y, x, s, t, Clear);
    PlacesAgree(l, y, s, t);
    NeedsMore(y, x);
    CleanCollecting(y, x);
    StepKeeps(y, x, Clean);
    var n, z := Hop(l, s, t, Clear), Step(y, Clean);
    PlacesAgree(n, z, s, t);
    AckCosts(l.host.card.h, n.host.card, y.card, Pending(l.reader).value);
    PlaceKept(y, Clean);
    RepeatsFitCons(Clean, rest, Repeats(l, y), Needed(y, x), l.host.card.h.limits.maxRetransmissions);
    LostCons(Clean, rest, Needed(y, x) - 1);
    LostCons(Clean, rest, 0);
  }

  lemma LostCommandHop(l: Link, y: System, x: Exchange, s: Session, t: P.Terms, f: Noise, rest: seq<Fault>)
    requires Linked(l, y, s, t) && Keeps(y, x) && Covered(y, x) && SizesAgree(s, t)
    requires l.reader.Collecting? && x.chunks != [] && l.reader.attempts < 2 && RepeatsFollowLosses(l, y)
    requires f.CommandLost? && Detected(s, f) && !l.host.card.at.Stopped?
    ensures Balanced(l, y, x, Hop(l, s, t, f), Step(y, FaultOf(s, f)), FaultOf(s, f), rest)
  {
    hide Linked, Hop, Step, Shadow, Process, Spent, Parsed, RepeatsFit, LostAt, LostBefore;
    HopAnswers(l, y, x, s, t, f);
    PlacesAgree(l, y, s, t);
    NeedsMore(y, x);
    LossBorne(y, x, FaultOf(s, f));
    PlacesAgree(Hop(l, s, t, f), Step(y, FaultOf(s, f)), s, t);
    PlaceKept(y, FaultOf(s, f));
    RepeatsFitCons(FaultOf(s, f), rest, Repeats(l, y), Needed(y, x), l.host.card.h.limits.maxRetransmissions);
    LostCons(FaultOf(s, f), rest, Needed(y, x) - 1);
    LostCons(FaultOf(s, f), rest, 0);
  }

  lemma LostAnswerHop(l: Link, y: System, x: Exchange, s: Session, t: P.Terms, f: Noise, rest: seq<Fault>)
    requires Linked(l, y, s, t) && Keeps(y, x) && Covered(y, x) && SizesAgree(s, t)
    requires l.reader.Collecting? && x.chunks != [] && l.reader.attempts < 2 && RepeatsFollowLosses(l, y)
    requires f.AnswerLost? && Detected(s, f)
    requires !l.host.card.at.Stopped? && !Hop(l, s, t, f).host.card.at.Stopped?
    ensures Balanced(l, y, x, Hop(l, s, t, f), Step(y, FaultOf(s, f)), FaultOf(s, f), rest)
  {
    hide Linked, Hop, Step, Shadow, Process, Spent, Parsed, RepeatsFit, LostAt, LostBefore;
    HopAnswers(l, y, x, s, t, f);
    PlacesAgree(l, y, s, t);
    NeedsMore(y, x);
    LossBorne(y, x, FaultOf(s, f));
    StepKeeps(y, x, FaultOf(s, f));
    var n, z := Hop(l, s, t, f), Step(y, FaultOf(s, f));
    PlacesAgree(n, z, s, t);
    AckCosts(l.host.card.h, n.host.card, y.card, Pending(l.reader).value);
    PlaceKept(y, FaultOf(s, f));
    RepeatsFitCons(FaultOf(s, f), rest, Repeats(l, y), Needed(y, x), l.host.card.h.limits.maxRetransmissions);
    LostCons(FaultOf(s, f), rest, Needed(y, x) - 1);
    LostCons(FaultOf(s, f), rest, 0);
  }

  lemma AckCosts(h: Handler, n: P.Card, p: SpecCard, b: Block)
    requires Charged(h, n, p, b) && b.pcb.blockType == RBlock
    ensures n.h.limits == h.limits
    ensures n.h.counters.frames == if n.at.Listening? && !AsksAgain(p, b) then 0 else Next16(h.counters.frames)
    ensures n.h.counters.retransmissions == if AsksAgain(p, b) then Next8(h.counters.retransmissions) else 0
  {
  }

  /** A chunk asked for again leaves the card of the rules where it was. */
  lemma PlaceKept(y: System, f: Fault)
    requires y.reader.Collecting? && Pending(y.reader).value.pcb.blockType == RBlock
    requires Pending(y.reader).value.pcb.rSubtype == Some(Ack)
    ensures AsksAgain(y.card, Pending(y.reader).value) || f.RequestLost? ==>
              var z := Step(y, f).card;
              z.chunk == y.card.chunk && z.command == y.card.command && z.number == y.card.number
    ensures !AsksAgain(y.card, Pending(y.reader).value) && f.AnswerLost? ==>
              Step(y, f).card.number == 1 - y.card.number
  {
  }


  lemma SameReader(l: Link, y: System, s: Session, t: P.Terms)
    requires Linked(l, y, s, t)
    ensures l.reader == y.reader
  {
  }

  /** The settings of both sides stay as they were. */
  ghost predicate SameSides(l: Link, n: Link) {
    && ProtocolRuns.SameSession(l.reader.h, n.reader.h) && ProtocolRuns.SameSession(l.host.card.h, n.host.card.h)
    && n.host.responses == l.host.responses
  }

  lemma SidesKept(l: Link, y: System, s: Session, t: P.Terms, f: Noise)
    requires Linked(l, y, s, t) && !l.host.card.at.Stopped? && !l.reader.Finished?
    requires var n := Hop(l, s, t, f);
             && !n.host.card.at.Stopped? && n.host.responses == l.host.responses
             && Linked(n, Step(y, FaultOf(s, f)), s, t)
             && (if f.CommandLost? then n.host == l.host
                 else Charged(l.host.card.h, n.host.card, y.card, Pending(l.reader).value))
    ensures SameSides(l, Hop(l, s, t, f))
  {
    hide Process, Parsed, Attend, Request, AnswerHeard, Step, Sendable, SameResponses, Chunks;
    forall b {
      ProtocolRuns.ProcessKeepsSession(l.reader.h, b);
    }
  }

  /** One hop of a bearable run. */
  lemma HopBalances(l: Link, y: System, x: Exchange, s: Session, t: P.Terms, f: Noise, rest: seq<Fault>)
    requires Linked(l, y, s, t) && Keeps(y, x) && Covered(y, x) && SizesAgree(s, t) && RepeatsFollowLosses(l, y)
    requires !l.reader.Finished? && !l.host.card.at.Stopped? && x.chunks != [] && Detected(s, f)
    requires Bearable([FaultOf(s, f)] + rest, CommandLeft(l.reader), SpecRuns.Attempts(l.reader))
    ensures var n, z := Hop(l, s, t, f), Step(y, FaultOf(s, f));
            && (CardCovered(l, y, x, [FaultOf(s, f)] + rest) ==> !n.host.card.at.Stopped?)
            && (!n.host.card.at.Stopped? ==>
                  && Linked(n, z, s, t) && Keeps(z, x) && Covered(z, x) && SameSides(l, n)
                  && Needed(z, x) == Needed(y, x) - (if f == Clear then 1 else 0)
                  && Bearable(rest, CommandLeft(n.reader), SpecRuns.Attempts(n.reader))
                  && Balanced(l, y, x, n, z, FaultOf(s, f), rest))
  {
    hide Hop, Step, Keeps, Covered, CardCovered, Linked, Process, Parsed, Mirrors, Charged, Bears, Balanced;
    hide RepeatsFollowLosses;
    var F, n := FaultOf(s, f), Hop(l, s, t, f);
    SameReader(l, y, s, t);
    HopAnswers(l, y, x, s, t, f);
    if CardCovered(l, y, x, [F] + rest) && !f.CommandLost? {
      CardBears(l, y, x, s, t, f, rest);
    }
    if !n.host.card.at.Stopped? {
      StepMoves(y, x, F, rest);
      StepKeeps(y, x, F);
      SameReader(n, Step(y, F), s, t);
      SidesKept(l, y, s, t, f);
      assert ([F] + rest)[0] == F;
      if l.reader.Sending? {
        CommandRemains(y, x);
        ClearCommandHop(l, y, x, s, t, rest);
      } else if f == Clear {
        ClearResponseHop(l, y, x, s, t, rest);
      } else if f.CommandLost? {
        LostCommandHop(l, y, x, s, t, f, rest);
      } else {
        LostAnswerHop(l, y, x, s, t, f, rest);
      }
    }
  }
}
