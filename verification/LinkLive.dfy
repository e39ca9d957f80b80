/**
 When an exchange over the link of `Link` completes: at most two losses in a row
 once the response has begun, and budgets that cover the run.
 */
module LinkLive {
  import opened Wire
  import opened Chunking
  import opened Protocol
  import opened PcdLayer
  import opened SpecPeers
  import opened SpecRuns
  import opened Link
  import opened LinkRuns
  import opened LinkBudgets
  import P = PiccLayer
  import ProtocolRuns

  // ── Completion ──────────────────────────────────────────────────────────

  lemma {:induction false} DoneStays(l: Link, s: Session, t: P.Terms, noise: seq<Noise>)
    requires l.reader.Finished?
    ensures Hops(l, s, t, noise) == l
    decreases |noise|
  {
    if noise != [] {
      DoneStays(l, s, t, noise[1..]);
    }
  }

  lemma {:induction false} StoppedForever(l: Link, s: Session, t: P.Terms, noise: seq<Noise>)
    requires l.host.card.at.Stopped?
    ensures Hops(l, s, t, noise).host.card.at.Stopped?
    decreases |noise|
  {
    hide Attend, Request, Parsed, Feed;
    if noise != [] {
      if !l.reader.Finished? {
        StoppedStays(l.host, t, Request(l.reader, s, t));
      }
      StoppedForever(Hop(l, s, t, noise[0]), s, t, noise[1..]);
    }
  }

  /** A card that stops in this hop leaves the reader without its response. */
  lemma StoppedFails(l: Link, y: System, x: Exchange, s: Session, t: P.Terms, noise: seq<Noise>)
    requires Linked(l, y, s, t) && Keeps(y, x) && SizesAgree(s, t) && x.chunks != []
    requires noise != [] && AllDetected(s, noise) && Hop(l, s, t, noise[0]).host.card.at.Stopped?
    ensures Response(Hops(l, s, t, noise).reader) == None
  {
    hide Hop, Step, Keeps, Process, Parsed, Mirrors;
    var z := Step(y, Shadow(l, s, t, noise[0]));
    HopLinked(l, y, x, s, t, noise[0]);
    StepKeeps(y, x, Shadow(l, s, t, noise[0]));
    HopsLinked(Hop(l, s, t, noise[0]), z, x, s, t, noise[1..]);
    StoppedForever(Hop(l, s, t, noise[0]), s, t, noise[1..]);
  }

  lemma FaultsCons(s: Session, noise: seq<Noise>)
    requires noise != []
    ensures Faults(s, noise) == [FaultOf(s, noise[0])] + Faults(s, noise[1..])
    ensures Faults(s, noise)[1..] == Faults(s, noise[1..])
  {
  }

  /** A bearable run that is long enough succeeds exactly when the card's budgets cover it. */
  lemma {:induction false} HopsBalance(l: Link, y: System, x: Exchange, s: Session, t: P.Terms, noise: seq<Noise>)
    requires Linked(l, y, s, t) && Keeps(y, x) && Covered(y, x) && SizesAgree(s, t) && RepeatsFollowLosses(l, y)
    requires x.chunks != [] && !l.host.card.at.Stopped? && AllDetected(s, noise)
    requires Bearable(Faults(s, noise), CommandLeft(l.reader), SpecRuns.Attempts(l.reader))
    requires Cleans(Faults(s, noise)) >= Needed(y, x)
    ensures var n := Hops(l, s, t, noise);
            && (CardCovered(l, y, x, Faults(s, noise)) ==>
                  Response(n.reader).Some? && SameSides(l, n)
                  && n.host.card.h.counters.frames == Leftover(l, y, x, Faults(s, noise)))
            && (l.host.card.h.limits.maxFrames < 0xFFFF && Response(n.reader).Some? ==>
                  CardCovered(l, y, x, Faults(s, noise)))
    decreases |noise|
  {
    hide Hop, Step, Keeps, Linked, Process, Needed, RepeatsFit, LostAt, LostBefore, RepeatsFollowLosses;
    SameReader(l, y, s, t);
    if l.reader.Finished? {
      DoneStays(l, s, t, noise);
    } else {
      hide CardCovered, Leftover;
      NeedsMore(y, x);
      var f := noise[0];
      var n, z := Hop(l, s, t, f), Step(y, FaultOf(s, f));
      assert Detected(s, f);
      FaultsCons(s, noise);
      HopBalances(l, y, x, s, t, f, Faults(s, noise[1..]));
      if n.host.card.at.Stopped? {
        StoppedFails(l, y, x, s, t, noise);
      } else {
        HopsBalance(n, z, x, s, t, noise[1..]);
      }
    }
  }

  // ── The budgets of an exchange ──────────────────────────────────────────

  /** The blocks of an exchange that loses nothing, one frame each for either side: k for
      the command, m for the response, one of them both. */
  ghost function BlocksOf(h: Handler, a: Host, s: Session, t: P.Terms, apdu: seq<byte>, response: seq<byte>): int
    requires SizesAgree(s, t)
  {
    |Chunks(apdu, MaxInf(s.fsc, h))| + |Chunks(response, MaxInf(t.fsd, a.card.h))| - 1
  }

  /** The budgets for an exchange over `noise`, the card having counted `spent` frames
      before it: a frame more for each answer lost before the last chunk was sent, and a
      repetition for each answer lost of one chunk. */
  ghost predicate Affords(h: Handler, a: Host, s: Session, t: P.Terms, apdu: seq<byte>, response: seq<byte>,
                          noise: seq<Noise>, spent: nat)
    requires SizesAgree(s, t)
  {
    var n, faults, l := BlocksOf(h, a, s, t, apdu, response), Faults(s, noise), a.card.h.limits;
    && apdu != [] && n >= 1
    && n <= h.limits.maxFrames && |response| <= h.limits.maxChainLen
    && spent + n + LostBefore(faults, n - 1) <= l.maxFrames && |apdu| <= l.maxChainLen
    && forall i: nat :: i < n ==> LostAt(faults, i) <= l.maxRetransmissions
  }

  /** Nothing is lost while the command goes out, and at most two frames in a row
      after that; and the run is long enough. */
  ghost predicate Survivable(h: Handler, a: Host, s: Session, t: P.Terms, apdu: seq<byte>, response: seq<byte>,
                             noise: seq<Noise>)
    requires SizesAgree(s, t)
  {
    && AllDetected(s, noise)
    && Bearable(Faults(s, noise), |Chunks(apdu, MaxInf(s.fsc, h))|, 0)
    && Cleans(Faults(s, noise)) >= BlocksOf(h, a, s, t, apdu, response)
  }

  /** What the card has counted for the next command when the exchange is over: the answers
      lost of the last chunk. */
  ghost function LeftoverOf(h: Handler, a: Host, s: Session, t: P.Terms, apdu: seq<byte>, response: seq<byte>,
                            noise: seq<Noise>): nat
    requires SizesAgree(s, t)
  {
    var n := BlocksOf(h, a, s, t, apdu, response);
    if n >= 1 then LostAt(Faults(s, noise), n - 1) else 0
  }

  lemma {:induction false} BearableLosses(faults: seq<Fault>, clean: nat, lost: nat, i: nat)
    requires Bearable(faults, clean, lost) && lost <= 2
    ensures LostAt(faults, i) <= if i < clean then 0 else if i == 0 then 2 - lost else 2
    decreases |faults|
  {
    if faults != [] {
      if faults[0] != Clean {
        BearableLosses(faults[1..], 0, lost + 1, i);
      } else if i > 0 {
        BearableLosses(faults[1..], if clean > 0 then clean - 1 else 0, 0, i - 1);
      }
    }
  }

  /** At the start of an exchange the two ways to say what the budgets cover agree. */
  lemma StartCovered(h: Handler, a: Host, s: Session, t: P.Terms, apdu: seq<byte>, noise: seq<Noise>)
    requires SizesAgree(s, t) && |a.got| < |a.responses| && a.card.at.Listening? && apdu != []
    requires Survivable(h, a, s, t, apdu, a.responses[|a.got|], noise)
    ensures var r, c, response := Start(h, s, apdu), RuleCard(a, t), a.responses[|a.got|];
            var l, y, x := Link(r, a), System(r, c), ExchangeOf(c, apdu);
            var n := BlocksOf(h, a, s, t, apdu, response);
            && Needed(y, x) == n >= 1
            && Bearable(Faults(s, noise), CommandLeft(r), SpecRuns.Attempts(r))
            && (Covered(y, x) <==> n <= h.limits.maxFrames && |response| <= h.limits.maxChainLen)
            && (Covered(y, x) ==>
                  (CardCovered(l, y, x, Faults(s, noise))
                   <==> Affords(h, a, s, t, apdu, response, noise, a.card.h.counters.frames)))
            && Leftover(l, y, x, Faults(s, noise)) == LeftoverOf(h, a, s, t, apdu, response, noise)
            && RepeatsFollowLosses(l, y)
  {
    hide Bearable, Cleans, Chunks, Flatten, LostAt, LostBefore;
    var m := MaxInf(t.fsd, a.card.h);
    ChunksAreMinimal(a.responses[|a.got|], m);
    assert apdu[0..] == apdu;
    assert RuleCard(a, t).responses[|a.got|] == Chunks(a.responses[|a.got|], m);
    CommandMoves(apdu, 0, MaxInf(s.fsc, h));
    SomeChunks(a.responses[|a.got|], m);
    BearableLosses(Faults(s, noise), |Chunks(apdu, MaxInf(s.fsc, h))|, 0,
                   BlocksOf(h, a, s, t, apdu, a.responses[|a.got|]) - 1);
  }

  lemma SomeChunks(data: seq<byte>, m: nat)
    requires m > 0
    ensures |Chunks(data, m)| >= 1
  {
  }

  /** An exchange over a link that loses no more than the reader can recover brings both
      sides what the other sent, if the budgets cover it. */
  lemma ExchangeCompletes(h: Handler, a: Host, s: Session, t: P.Terms, apdu: seq<byte>, noise: seq<Noise>)
    requires Ready(h, a, s, t) && |a.got| < |a.responses|
    requires Affords(h, a, s, t, apdu, a.responses[|a.got|], noise, a.card.h.counters.frames)
    requires Survivable(h, a, s, t, apdu, a.responses[|a.got|], noise)
    ensures var l := Hops(Link(Start(h, s, apdu), a), s, t, noise);
            && Response(l.reader) == Some(a.responses[|a.got|])
            && l.host.got == a.got + [apdu]
            && Ready(l.reader.h, l.host, s, t) && SameSides(Link(Start(h, s, apdu), a), l)
            && l.host.card.h.counters.frames == LeftoverOf(h, a, s, t, apdu, a.responses[|a.got|], noise)
  {
    hide Hop, Process, Linked, Keeps, Covered, CardCovered, Between, Prepared, Needed, Bearable, Cleans;
    hide Leftover, LeftoverOf, RepeatsFollowLosses, LostAt, LostBefore;
    var r, c := Start(h, s, apdu), RuleCard(a, t);
    ReadyListens(h, a, s, t);
    ReadyLinked(h, a, s, t, apdu);
    StartKeeps(h, c, s, apdu);
    StartCovered(h, a, s, t, apdu, noise);
    ResponsesExist(c);
    HopsBalance(Link(r, a), System(r, c), ExchangeOf(c, apdu), s, t, noise);
    LinkDeliversOnce(h, a, s, t, apdu, noise);
  }

  /** Below the saturation of the frame counters those budgets are needed: over such a link
      the exchange succeeds exactly when they cover it. */
  lemma ExchangeSucceedsIff(h: Handler, a: Host, s: Session, t: P.Terms, apdu: seq<byte>, noise: seq<Noise>)
    requires Ready(h, a, s, t) && |a.got| < |a.responses|
    requires h.limits.maxFrames < 0xFFFF && a.card.h.limits.maxFrames < 0xFFFF
    requires Survivable(h, a, s, t, apdu, a.responses[|a.got|], noise)
    ensures Response(Hops(Link(Start(h, s, apdu), a), s, t, noise).reader).Some?
            <==> Affords(h, a, s, t, apdu, a.responses[|a.got|], noise, a.card.h.counters.frames)
  {
    hide Hop, Process, Linked, Keeps, Covered, CardCovered, Between, Prepared, Needed, Bearable, Cleans;
    hide Leftover, RepeatsFollowLosses, LostAt, LostBefore;
    var r, c := Start(h, s, apdu), RuleCard(a, t);
    var l, y, x := Link(r, a), System(r, c), ExchangeOf(c, apdu);
    ReadyListens(h, a, s, t);
    ReadyLinked(h, a, s, t, apdu);
    if apdu == [] {
      DoneStays(l, s, t, noise);
    } else {
      StartKeeps(h, c, s, apdu);
      StartCovered(h, a, s, t, apdu, noise);
      ResponsesExist(c);
      if Covered(y, x) {
        HopsBalance(l, y, x, s, t, noise);
      } else if Response(Hops(l, s, t, noise).reader).Some? {
        ReaderWasCovered(l, y, x, s, t, noise);
      }
    }
  }

  /** A reader that gets its response had the budgets for it. */
  lemma ReaderWasCovered(l: Link, y: System, x: Exchange, s: Session, t: P.Terms, noise: seq<Noise>)
    requires Linked(l, y, s, t) && Keeps(y, x) && SizesAgree(s, t) && x.chunks != [] && AllDetected(s, noise)
    requires y.reader.Sending? && y.reader.h.counters == NO_COUNTS && y.reader.h.limits.maxFrames < 0xFFFF
    requires Response(Hops(l, s, t, noise).reader).Some?
    ensures Covered(y, x)
  {
    hide Hop, Step, Process, Linked, Keeps, Needed;
    HopsLinked(l, y, x, s, t, noise);
    var z := Steps(y, Shadows(l, s, t, noise));
    LinkedMeans(Hops(l, s, t, noise), z, s, t);
    StepsCount(y, x, Shadows(l, s, t, noise));
    StepsKeep(y, x, Shadows(l, s, t, noise));
    FinishedNeedsNothing(z, x);
  }

  lemma FinishedNeedsNothing(y: System, x: Exchange)
    requires y.reader.Finished?
    ensures Needed(y, x) == 0
  {
  }

  lemma ReadyListens(h: Handler, a: Host, s: Session, t: P.Terms)
    requires Ready(h, a, s, t)
    ensures SizesAgree(s, t) && a.card.at.Listening?
  {
  }

  lemma ResponsesExist(c: SpecCard)
    requires Prepared(c)
    ensures c.responses[c.command] != []
  {
  }

  // ── Any number of exchanges ─────────────────────────────────────────────

  datatype Turn = Turn(apdu: seq<byte>, noise: seq<Noise>)

  datatype Dialogue = Dialogue(h: Handler, host: Host, results: seq<Option<seq<byte>>>)

  /** One exchange after the other. */
  function Conduct(h: Handler, a: Host, s: Session, t: P.Terms, turns: seq<Turn>): Dialogue {
    if turns == [] then Dialogue(h, a, []) else
      var before := Conduct(h, a, s, t, turns[..|turns| - 1]);
      var p := turns[|turns| - 1];
      var l := Hops(Link(Start(before.h, s, p.apdu), before.host), s, t, p.noise);
      Dialogue(l.reader.h, l.host, before.results + [Response(l.reader)])
  }

  /** The frames the card has counted when turn `i` begins. */
  ghost function SpentBefore(h: Handler, a: Host, s: Session, t: P.Terms, turns: seq<Turn>, i: nat): nat
    requires SizesAgree(s, t) && i <= |turns| && |a.got| + |turns| <= |a.responses|
  {
    if i == 0 then a.card.h.counters.frames
    else LeftoverOf(h, a, s, t, turns[i - 1].apdu, a.responses[|a.got| + i - 1], turns[i - 1].noise)
  }

  ghost predicate Fair(h: Handler, a: Host, s: Session, t: P.Terms, turn: Turn, response: seq<byte>, spent: nat)
    requires SizesAgree(s, t)
  {
    && Affords(h, a, s, t, turn.apdu, response, turn.noise, spent)
    && Survivable(h, a, s, t, turn.apdu, response, turn.noise)
  }

  ghost predicate AllFair(h: Handler, a: Host, s: Session, t: P.Terms, turns: seq<Turn>)
    requires SizesAgree(s, t) && |a.got| + |turns| <= |a.responses|
  {
    forall i :: 0 <= i < |turns| ==>
      Fair(h, a, s, t, turns[i], a.responses[|a.got| + i], SpentBefore(h, a, s, t, turns, i))
  }

  /** Budgets, losses and leftovers depend on the settings of the two sides only. */
  lemma FairSame(h: Handler, a: Host, n: Handler, b: Host, s: Session, t: P.Terms, turn: Turn,
                 response: seq<byte>, spent: nat)
    requires SizesAgree(s, t) && Fair(h, a, s, t, turn, response, spent)
    requires ProtocolRuns.SameSession(h, n) && ProtocolRuns.SameSession(a.card.h, b.card.h)
    ensures Fair(n, b, s, t, turn, response, spent)
    ensures LeftoverOf(n, b, s, t, turn.apdu, response, turn.noise)
         == LeftoverOf(h, a, s, t, turn.apdu, response, turn.noise)
  {
    hide Chunks, Bearable, Cleans, AllDetected, LostAt, LostBefore;
  }

  function ApdusOf(turns: seq<Turn>): seq<seq<byte>> {
    seq(|turns|, i requires 0 <= i < |turns| => turns[i].apdu)
  }

  /** Over any number of exchanges both sides get what the other sent, once and in order,
      and the numbers are in place for the next command. */
  lemma {:induction false} DialogueDelivers(h: Handler, a: Host, s: Session, t: P.Terms, turns: seq<Turn>)
    requires Ready(h, a, s, t) && |a.got| + |turns| <= |a.responses| && AllFair(h, a, s, t, turns)
    ensures var d := Conduct(h, a, s, t, turns);
            && d.results == seq(|turns|, i requires 0 <= i < |turns| => Some(a.responses[|a.got| + i]))
            && d.host.got == a.got + ApdusOf(turns) && d.host.responses == a.responses
            && Ready(d.h, d.host, s, t)
            && d.host.card.h.counters.frames == SpentBefore(h, a, s, t, turns, |turns|)
            && ProtocolRuns.SameSession(h, d.h) && ProtocolRuns.SameSession(a.card.h, d.host.card.h)
  {
    hide Hops, Ready, Fair, Start, Affords, Survivable, LeftoverOf, AllFair, SpentBefore;
    ReadyListens(h, a, s, t);
    if turns == [] {
      NothingSpent(h, a, s, t, turns);
    } else {
      var init, p := turns[..|turns| - 1], turns[|turns| - 1];
      var response := a.responses[|a.got| + |init|];
      FairBefore(h, a, s, t, turns);
      DialogueDelivers(h, a, s, t, init);
      var d := Conduct(h, a, s, t, init);
      FairSame(h, a, d.h, d.host, s, t, p, response, d.host.card.h.counters.frames);
      OneTurn(d.h, d.host, s, t, p);
      assert ApdusOf(turns) == ApdusOf(init) + [p.apdu];
    }
  }

  lemma NothingSpent(h: Handler, a: Host, s: Session, t: P.Terms, turns: seq<Turn>)
    requires SizesAgree(s, t) && |a.got| + |turns| <= |a.responses|
    ensures SpentBefore(h, a, s, t, turns, 0) == a.card.h.counters.frames
  {
  }

  /** Fair turns are fair up to the last, and the last is after the others. */
  lemma FairBefore(h: Handler, a: Host, s: Session, t: P.Terms, turns: seq<Turn>)
    requires SizesAgree(s, t) && turns != [] && |a.got| + |turns| <= |a.responses| && AllFair(h, a, s, t, turns)
    ensures var init, p := turns[..|turns| - 1], turns[|turns| - 1];
            var response := a.responses[|a.got| + |init|];
            && AllFair(h, a, s, t, init)
            && Fair(h, a, s, t, p, response, SpentBefore(h, a, s, t, init, |init|))
            && SpentBefore(h, a, s, t, turns, |turns|) == LeftoverOf(h, a, s, t, p.apdu, response, p.noise)
  {
    hide Fair, LeftoverOf;
    var init := turns[..|turns| - 1];
    forall i | 0 <= i <= |init|
      ensures SpentBefore(h, a, s, t, init, i) == SpentBefore(h, a, s, t, turns, i)
      ensures Fair(h, a, s, t, turns[i], a.responses[|a.got| + i], SpentBefore(h, a, s, t, turns, i))
    {
    }
  }

  lemma OneTurn(h: Handler, a: Host, s: Session, t: P.Terms, turn: Turn)
    requires Ready(h, a, s, t) && |a.got| < |a.responses|
    requires Fair(h, a, s, t, turn, a.responses[|a.got|], a.card.h.counters.frames)
    ensures var l := Hops(Link(Start(h, s, turn.apdu), a), s, t, turn.noise);
            && Response(l.reader) == Some(a.responses[|a.got|])
            && l.host.got == a.got + [turn.apdu] && l.host.responses == a.responses
            && Ready(l.reader.h, l.host, s, t)
            && l.host.card.h.counters.frames == LeftoverOf(h, a, s, t, turn.apdu, a.responses[|a.got|], turn.noise)
            && ProtocolRuns.SameSession(h, l.reader.h) && ProtocolRuns.SameSession(a.card.h, l.host.card.h)
  {
    hide Hops, Ready, Affords, Survivable, LeftoverOf;
    ExchangeCompletes(h, a, s, t, turn.apdu, turn.noise);
  }

  // ── Without losses ──────────────────────────────────────────────────────

  lemma {:induction false} QuietCounts(faults: seq<Fault>, clean: nat, i: nat)
    requires Quiet(faults)
    ensures Bearable(faults, clean, 0) && Cleans(faults) == |faults|
    ensures LostAt(faults, i) == 0 && LostBefore(faults, i) == 0
    decreases |faults|
  {
    if faults != [] {
      QuietCounts(faults[1..], if clean > 0 then clean - 1 else 0, if i > 0 then i - 1 else 0);
    }
  }

  /** A turn of `n` blocks that loses nothing. */
  ghost predicate Smooth(h: Handler, a: Host, s: Session, t: P.Terms, turn: Turn, response: seq<byte>)
    requires SizesAgree(s, t)
  {
    var n := BlocksOf(h, a, s, t, turn.apdu, response);
    && turn.apdu != []
    && |turn.noise| == n && (forall i :: 0 <= i < |turn.noise| ==> turn.noise[i] == Clear)
    && n <= h.limits.maxFrames && n <= a.card.h.limits.maxFrames
    && |response| <= h.limits.maxChainLen && |turn.apdu| <= a.card.h.limits.maxChainLen
  }

  lemma SmoothIsFair(h: Handler, a: Host, s: Session, t: P.Terms, turn: Turn, response: seq<byte>)
    requires SizesAgree(s, t) && Smooth(h, a, s, t, turn, response)
    ensures Fair(h, a, s, t, turn, response, 0)
    ensures LeftoverOf(h, a, s, t, turn.apdu, response, turn.noise) == 0
  {
    hide Chunks, Parsed;
    CommandMoves(turn.apdu, 0, MaxInf(s.fsc, h));
    assert turn.apdu[0..] == turn.apdu;
    SomeChunks(response, MaxInf(t.fsd, a.card.h));
    forall i: nat
      ensures LostAt(Faults(s, turn.noise), i) == 0 && LostBefore(Faults(s, turn.noise), i) == 0
    {
      QuietCounts(Faults(s, turn.noise), 0, i);
    }
    QuietCounts(Faults(s, turn.noise), |Chunks(turn.apdu, MaxInf(s.fsc, h))|, 0);
  }

  /** With k + m - 1 within the frame budget of either side, and the chain caps, for k command
      and m response chunks, everything arrives over a link that loses nothing. */
  lemma SmoothDialogueDelivers(h: Handler, a: Host, s: Session, t: P.Terms, turns: seq<Turn>)
    requires Ready(h, a, s, t) && |a.got| + |turns| <= |a.responses| && a.card.h.counters.frames == 0
    requires forall i :: 0 <= i < |turns| ==> Smooth(h, a, s, t, turns[i], a.responses[|a.got| + i])
    ensures var d := Conduct(h, a, s, t, turns);
            && d.results == seq(|turns|, i requires 0 <= i < |turns| => Some(a.responses[|a.got| + i]))
            && d.host.got == a.got + ApdusOf(turns) && Ready(d.h, d.host, s, t)
  {
    hide Ready, Smooth, Fair, LeftoverOf, Conduct;
    ReadyListens(h, a, s, t);
    forall i | 0 <= i < |turns|
      ensures Fair(h, a, s, t, turns[i], a.responses[|a.got| + i], SpentBefore(h, a, s, t, turns, i))
    {
      SmoothIsFair(h, a, s, t, turns[i], a.responses[|a.got| + i]);
      if i > 0 {
        SmoothIsFair(h, a, s, t, turns[i - 1], a.responses[|a.got| + (i - 1)]);
      }
    }
    DialogueDelivers(h, a, s, t, turns);
  }

  /** With the limits that a session has unless they are replaced, 4096 bytes either way and
      512 blocks, lost answers included, are enough. */
  lemma DefaultsAfford(h: Handler, a: Host, s: Session, t: P.Terms, apdu: seq<byte>, response: seq<byte>,
                       noise: seq<Noise>)
    requires SizesAgree(s, t) && h.limits == DEFAULT_LIMITS && a.card.h.limits == DEFAULT_LIMITS
    requires apdu != [] && |apdu| <= 4096 && |response| <= 4096
    requires Survivable(h, a, s, t, apdu, response, noise)
    requires var n := BlocksOf(h, a, s, t, apdu, response);
             n >= 1 && n + LostBefore(Faults(s, noise), n - 1) <= 512
    ensures Affords(h, a, s, t, apdu, response, noise, 0)
  {
    hide Bearable, Cleans, Chunks, LostAt, LostBefore;
    forall i: nat
      ensures LostAt(Faults(s, noise), i) <= 2
    {
      BearableLosses(Faults(s, noise), |Chunks(apdu, MaxInf(s.fsc, h))|, 0, i);
    }
  }
}
