/**
 A card that is activated twice. The block it sent last survives, so after an activation
 that announces a small FSD it may repeat a block of an earlier session that is too long.
 */
module Reactivation {
  import opened Wire
  import opened Blocks
  import opened Chunking
  import opened Codings
  import opened Protocol
  import opened Carriage
  import opened PiccLayer
  import opened PiccRuns
  import opened Sessions
  import Joined
  import PcdRuns
  import ProtocolRuns

  /** An empty command, as the reader begins a session, and a request to repeat a block. */
  function FirstCommand(cid: Cid): Block {
    ReaderHandler(cid).I([], false)
  }

  function Repeat(cid: Cid): Block {
    ReaderHandler(cid).(number := 1).RAck()
  }

  lemma Short(b: Block)
    requires b.nad == None && b.payload == [] && WellFormed(b)
    ensures forall size :: size >= 16 ==> Sendable(b, size)
  {
    hide OnAir;
    PcdRuns.AirSize(b);
  }

  /** A walk that ends at the first frame that ends it. */
  lemma WalkOnce(c: Card, t: Terms, n: nat, from: Script, to: Script, d: Card, before: seq<Frame>, sent: seq<Frame>)
    requires Walk(c, t, n, from, to, d, before, sent) && Running(c) && !Running(d)
    requires !Running(Run(c, t, from, 1))
    ensures n == 1 && d == Run(c, t, from, 1)
  {
    hide On;
    if n > 1 {
      Joined.NotRunning(Run(c, t, from, 1), t, Unread(from, 1), n - 2);
      RunConcat(c, t, from, 1, n - 2);
    }
  }

  /** The first command of a session, being empty, is taken whatever the limits on the chain. */
  lemma CommandTaken(c: Card, t: Terms, cid: Cid)
    requires c.at.Listening? && c.h.role == Role.Picc && c.h.number == 1 && c.h.chain == [] && c.h.counters == NO_COUNTS
    requires c.h.limits.maxFrames > 0 && t.fsc >= 16
    ensures On(c, t, Some(Transmitted(t.hwCrc, FirstCommand(cid)))).0.at == Got([])
    ensures On(c, t, Some(Transmitted(t.hwCrc, FirstCommand(cid)))).1 == None
  {
    hide Transmitted, ParsedCommand, Parse, Encoding, Sendable, IsPps;
    var b := FirstCommand(cid);
    Short(b);
    CardHears(t, b);
    OnBlockAgrees(c, ParsedCommand(t, Transmitted(t.hwCrc, b)).value, b);
  }

  /** The frames of the run: the session with FSD 256 and its command, then the activation
      with FSD 16 and the request to repeat. */
  function TwoSessions(f: Field, cid: Cid): Script {
    Asked(f, Sessions.Frames(f))
    + ([RatsHeard(f, Fs256, cid)]
       + ([Some(Transmitted(f.cardHw, FirstCommand(cid)))]
          + (Asked(f, Sessions.Frames(f))
             + ([RatsHeard(f, Fs16, cid)] + [Some(Transmitted(f.cardHw, Repeat(cid)))]))))
  }

  /** Activation and RATS off a script that starts with them. */
  method Activate(picc: Picc, ghost f: Field, fsdi: FrameSize, cid: Cid, ghost rest: Script)
    requires picc.config == f.c && picc.hwCrc == f.cardHw && Speaks(f)
    requires picc.transceiver.receives == Asked(f, Sessions.Frames(f)) + ([RatsHeard(f, fsdi, cid)] + rest)
    modifies picc`state, picc`fsd, picc`handler, picc.transceiver
    ensures picc.transceiver.receives == rest
    ensures picc.handler == old(picc.handler) || fresh(picc.handler)
    ensures picc.handler.State() == CardHandler(f, cid, old(picc.handler.limits))
    ensures picc.state == InProtocol && picc.CurrentTerms() == CardTerms(f, fsdi)
  {
    hide Waits, Asked, OnActive, RatsHeard;
    CardIsSelected(f, [RatsHeard(f, fsdi, cid)] + rest, picc.transceiver.sent);
    var selected := picc.WaitForActivation();
    SessionsAgree(f, fsdi, cid, picc.handler.limits, None, [], picc.Settlement());
    var settled := picc.WaitForRats();
    assert picc.transceiver.receives == rest;
  }

  /** Receives the command and answers it with one block. */
  method AnswerOne(picc: Picc, response: seq<byte>, cid: Cid, ghost f: Field, ghost rest: Script)
    requires picc.handler.State() == CardHandler(f, cid, picc.handler.limits) && picc.state == InProtocol
    requires picc.CurrentTerms() == CardTerms(f, Fs256) && picc.handler.limits.maxFrames > 0
    requires f.c.Fsc() >= 16 && |response| <= 252
    requires picc.transceiver.receives == [Some(Transmitted(f.cardHw, FirstCommand(cid)))] + rest
    modifies picc`state, picc`lastSent, picc.handler, picc.transceiver
    ensures picc.transceiver.receives == rest
    ensures picc.handler.limits == old(picc.handler.limits)
    ensures picc.lastSent.Some? && |OnAir(picc.lastSent.value)| >= |response| + 3
  {
    hide Walk, Transmitted, On, FirstCommand, OnAir, Process;
    ghost var c, t := BeginReceive(picc.Snapshot(Listening)), picc.CurrentTerms();
    ghost var from, before := picc.transceiver.receives, picc.transceiver.sent;
    CommandTaken(c, t, cid);
    OneStep(c, t, from);
    ghost var n;
    var command;
    command, n := picc.ReceiveCommand();
    ghost var at := picc.Snapshot(Reached(Some(command)));
    WalkOnce(c, t, n, from, picc.transceiver.receives, at, before, picc.transceiver.sent);
    WalkTo(c, t, n, from, picc.transceiver.receives, at, before, picc.transceiver.sent);
    CommandKeeps(c, t, from[0]);
    assert picc.transceiver.receives == rest;
    ghost var via, d := picc.transceiver.receives, picc.Snapshot(Answered);
    var answered;
    before := picc.transceiver.sent + BlockFrame(picc.hwCrc, BeginResponse(d, t, response).1);
    answered, n := picc.SendResponse(response);
    ghost var e := picc.Snapshot(if answered.Ok? then Answered else Stopped(answered.error));
    OneBlock(d, t, response);
    StaysPut(BeginResponse(d, t, response).0, t, n, via, picc.transceiver.receives, e, before, picc.transceiver.sent);
  }

  lemma OneStep(c: Card, t: Terms, script: Script)
    ensures Run(c, t, script, 1) == On(c, t, Scripted(script, 0)).0
  {
    hide On;
    assert Run(c, t, script, 0) == c;
  }

  lemma WalkTo(c: Card, t: Terms, n: nat, from: Script, to: Script, d: Card, before: seq<Frame>, sent: seq<Frame>)
    requires Walk(c, t, n, from, to, d, before, sent)
    ensures to == Unread(from, n)
  {
  }

  lemma CommandKeeps(c: Card, t: Terms, raw: Option<seq<byte>>)
    requires c.at.Listening?
    ensures ProtocolRuns.SameSession(c.h, On(c, t, raw).0.h)
  {
    hide Process, ParsedCommand, IsPps, PpsOf, PpsReply, Strip;
    if raw.Some? && ParsedCommand(t, raw.value).Ok? {
      ProtocolRuns.ProcessKeepsSession(c.h, ParsedCommand(t, raw.value).value);
    }
  }

  /** A response of one block. */
  lemma OneBlock(c: Card, t: Terms, response: seq<byte>)
    requires |response| <= 252 && t.fsd == 256
    ensures var (d, first) := BeginResponse(c, t, response);
            && d.at == Answered && d.lastSent == first && first.Some?
            && |OnAir(first.value)| >= |response| + 3
            && d.h == c.h
  {
    hide OnAir;
    PcdRuns.AirSize(ChunkBlock(c.h, response, 0, MaxInf(256, c.h)));
  }

  lemma StaysPut(c: Card, t: Terms, n: nat, from: Script, to: Script, d: Card, before: seq<Frame>, sent: seq<Frame>)
    requires Walk(c, t, n, from, to, d, before, sent) && !Running(c)
    ensures d == c && to == from
  {
    hide On;
    Joined.NotRunning(c, t, from, n);
    if n > 0 {
      Joined.NotRunning(c, t, from, n - 1);
    }
  }

  /** A card that has answered with a block of more than 16 bytes and is then set up for frames
      of 16 bytes repeats that block when the reader asks for the last one. */
  method RepeatsOverlong(picc: Picc, response: seq<byte>, cid: Cid, ghost f: Field)
    requires picc.config == f.c && picc.hwCrc == f.cardHw && Speaks(f)
    requires 14 <= |response| <= 252
    requires picc.handler.limits.maxFrames > 0 && picc.handler.limits.maxRetransmissions > 0
    requires picc.transceiver.receives == TwoSessions(f, cid)
    modifies picc, picc.handler, picc.transceiver
    ensures picc.fsd == 16
    ensures picc.transceiver.sent != []
    ensures var frame := picc.transceiver.sent[|picc.transceiver.sent| - 1];
            frame.Standard? && AirLength(picc.hwCrc, frame.data) > picc.fsd
  {
    hide Walk, Transmitted, On, OnAir, Process, FirstCommand, Repeat, RatsHeard, Asked, AirLength, Sessions.Frames;
    ghost var ask := [Some(Transmitted(f.cardHw, Repeat(cid)))];
    ghost var again := Asked(f, Sessions.Frames(f)) + ([RatsHeard(f, Fs16, cid)] + ask);
    ghost var command := [Some(Transmitted(f.cardHw, FirstCommand(cid)))];
    Activate(picc, f, Fs256, cid, command + again);
    AnswerOne(picc, response, cid, f, again);
    Activate(picc, f, Fs16, cid, ask);

    ghost var c, t, before := BeginReceive(picc.Snapshot(Listening)), picc.CurrentTerms(), picc.transceiver.sent;
    ghost var n;
    var r;
    r, n := picc.ReceiveCommand();
    RepeatGoesOut(c, t, cid, n, ask, picc.transceiver.receives, picc.Snapshot(Reached(Some(r))), before,
                  picc.transceiver.sent);
    AirLengthOf(picc.hwCrc, c.lastSent.value);
  }

  /** The one frame asks for the last block, and gets it. */
  lemma RepeatGoesOut(c: Card, t: Terms, cid: Cid, n: nat, from: Script, to: Script, d: Card,
                      before: seq<Frame>, sent: seq<Frame>)
    requires Walk(c, t, n, from, to, d, before, sent) && !Running(d)
    requires c.at.Listening? && c.lastSent.Some?
    requires c.h.role == Role.Picc && c.h.number == 1 && c.h.counters == NO_COUNTS
    requires c.h.limits.maxFrames > 0 && c.h.limits.maxRetransmissions > 0 && t.fsc >= 16
    requires from == [Some(Transmitted(t.hwCrc, Repeat(cid)))]
    ensures sent == before + [Standard(Transmitted(t.hwCrc, c.lastSent.value))]
  {
    hide Transmitted, On, Process;
    RepeatHeard(c, t, cid);
    assert Run(c, t, from, 0) == c && Sent(c, t, from, 0) == [];
    assert Scripted(from, 0) == from[0];
    SilenceEnds(Run(c, t, from, 1), t);
    assert Sent(c, t, from, 1) == [Standard(Transmitted(t.hwCrc, c.lastSent.value))];
    assert Scripted(from, 1) == None;
    assert Sent(c, t, from, 2) == Sent(c, t, from, 1);
    if n > 2 {
      Joined.NotRunning(Run(c, t, from, 2), t, Unread(from, 2), n - 3);
      RunConcat(c, t, from, 2, n - 3);
    }
  }

  lemma SilenceEnds(c: Card, t: Terms)
    ensures Running(c) ==> On(c, t, None) == (c.Stop(TransceiverError), None)
  {
  }

  lemma RepeatHeard(c: Card, t: Terms, cid: Cid)
    requires c.at.Listening? && c.lastSent.Some?
    requires c.h.role == Role.Picc && c.h.number == 1 && c.h.counters == NO_COUNTS
    requires c.h.limits.maxFrames > 0 && c.h.limits.maxRetransmissions > 0 && t.fsc >= 16
    ensures var (d, reply) := On(c, t, Some(Transmitted(t.hwCrc, Repeat(cid))));
            d.at.Listening? && reply == Some(Transmitted(t.hwCrc, c.lastSent.value))
  {
    hide Transmitted, ParsedCommand, Parse, Encoding, Sendable, IsPps;
    var b := Repeat(cid);
    Short(b);
    CardHears(t, b);
    OnBlockAgrees(c, ParsedCommand(t, Transmitted(t.hwCrc, b)).value, b);
  }
}
