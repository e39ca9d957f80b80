/** The sessions as the program has them, at the two ends of the link of `Link`. */
module Joined {
  import opened Wire
  import opened Blocks
  import opened Protocol
  import opened PcdLayer
  import opened Link
  import opened LinkRuns
  import opened LinkLive
  import P = PiccLayer
  import Codings

  /** What the reader's transceiver hands up in one hop. */
  function RawHeard(l: Link, s: Session, t: P.Terms, f: Noise): Option<seq<byte>> {
    if l.reader.Finished? then None else
      match f
      case Clear => AnswerHeard(Attend(l.host, t, Request(l.reader, s, t)).1, s, t)
      case CommandLost(heard) => heard
      case AnswerLost(heard) => heard
  }

  function Answers(l: Link, s: Session, t: P.Terms, noise: seq<Noise>): Script
    decreases |noise|
  {
    if noise == [] then [] else [RawHeard(l, s, t, noise[0])] + Answers(Hop(l, s, t, noise[0]), s, t, noise[1..])
  }

  lemma HearsCons(s: Session, first: Option<seq<byte>>, script: Script, n: nat)
    ensures Hears(s, [first] + script, 1 + n) == [Parsed(s, first)] + Hears(s, script, n)
  {
    hide Parsed;
    HearsConcat(s, [first] + script, 1, n);
    assert Hears(s, [first] + script, 0) == [];
    assert Hears(s, [first] + script, 1) == [Parsed(s, first)];
    assert Unread([first] + script, 1) == script;
  }

  /** Reading those answers off a script is the reader's part of the run. */
  lemma {:induction false} ReaderRuns(l: Link, s: Session, t: P.Terms, noise: seq<Noise>)
    ensures |Answers(l, s, t, noise)| == |noise|
    ensures PcdLayer.Run(l.reader, Hears(s, Answers(l, s, t, noise), |noise|)) == Hops(l, s, t, noise).reader
    decreases |noise|
  {
    hide Parsed, Feed, Attend, Request, AnswerHeard, Sent, Run;
    if noise != [] {
      var f := noise[0];
      var n, rest := Hop(l, s, t, f), Answers(Hop(l, s, t, f), s, t, noise[1..]);
      ReaderRuns(n, s, t, noise[1..]);
      HearsCons(s, RawHeard(l, s, t, f), rest, |noise| - 1);
      var first, more := [Parsed(s, RawHeard(l, s, t, f))], Hears(s, rest, |noise| - 1);
      RunConcat(l.reader, first, more);
      RunSnoc(l.reader, [], first[0]);
      assert [] + first == first;
      RunNone(l.reader);
      assert Run(l.reader, first) == n.reader by {
        FinishedHears(l.reader, first[0]);
      }
    } else {
      RunNone(l.reader);
    }
  }

  lemma FinishedHears(r: Reader, a: Answer)
    ensures r.Finished? ==> Feed(r, a) == r
  {
  }

  lemma {:induction false} FinishedRun(r: Reader, heard: seq<Answer>)
    requires r.Finished?
    ensures Run(r, heard) == r
  {
    if heard != [] {
      FinishedRun(r, heard[..|heard| - 1]);
    }
  }

  /** Two runs that finish off the same script finish alike. */
  lemma FinishOnce(r: Reader, s: Session, script: Script, m: nat, n: nat)
    requires m <= n && Run(r, Hears(s, script, m)).Finished?
    ensures Run(r, Hears(s, script, n)) == Run(r, Hears(s, script, m))
  {
    hide Parsed, Run, Sent, Hears;
    HearsConcat(s, script, m, n - m);
    RunConcat(r, Hears(s, script, m), Hears(s, Unread(script, m), n - m));
    FinishedRun(Run(r, Hears(s, script, m)), Hears(s, Unread(script, m), n - m));
  }

  /** The session of the program, with the answers this card gives over this link. */
  method ExchangeOverLink(pcd: Pcd, ghost a: Host, ghost t: P.Terms, apdu: seq<byte>, ghost noise: seq<Noise>)
    returns (r: Result<seq<byte>, PcdError>)
    requires Ready(pcd.handler.State(), a, pcd.Settings(), t)
    requires |a.got| < |a.responses|
    requires Affords(pcd.handler.State(), a, pcd.Settings(), t, apdu, a.responses[|a.got|], noise,
                     a.card.h.counters.frames)
    requires Survivable(pcd.handler.State(), a, pcd.Settings(), t, apdu, a.responses[|a.got|], noise)
    requires pcd.transceiver.answers
          == Answers(Link(Start(pcd.handler.State(), pcd.Settings(), apdu), a), pcd.Settings(), t, noise)
    modifies pcd.handler, pcd.transceiver
    ensures r == Ok(a.responses[|a.got|])
    ensures var l := Hops(Link(Start(old(pcd.handler.State()), pcd.Settings(), apdu), a), pcd.Settings(), t, noise);
            Ready(pcd.handler.State(), l.host, pcd.Settings(), t) && l.host.got == a.got + [apdu]
  {
    hide Parsed, Feed, Hops, Ready, Affords, Survivable, Answers, Start, Hears, Walk;
    ghost var h, s, script := pcd.handler.State(), pcd.Settings(), pcd.transceiver.answers;
    ghost var start := Link(Start(h, s, apdu), a);
    ExchangeCompletes(h, a, s, t, apdu, noise);
    ReaderRuns(start, s, t, noise);
    ghost var heard;
    r, heard := pcd.Exchange(apdu);
    WalkHears(s, heard, Sent(Start(h, s, apdu), heard), script);
    if |heard| <= |noise| {
      FinishOnce(start.reader, s, script, |heard|, |noise|);
    } else {
      FinishOnce(start.reader, s, script, |noise|, |heard|);
    }
  }

  lemma WalkHears(s: Session, heard: seq<Answer>, blocks: seq<Block>, from: Script)
    ensures forall to, before, sent :: Walk(s, heard, blocks, from, to, before, sent) ==>
              heard == Hears(s, from, |heard|)
  {
  }

  // ── The card's end ──────────────────────────────────────────────────────

  /** The card and its application after the first `n` frames of a script. */
  function Attends(a: Host, t: P.Terms, script: Script, n: nat): Host {
    if n == 0 then a else Attend(Attends(a, t, script, n - 1), t, Scripted(script, n - 1)).0
  }

  /** The frames they send on the way. */
  function HostSends(a: Host, t: P.Terms, script: Script, n: nat): seq<Frame> {
    if n == 0 then []
    else HostSends(a, t, script, n - 1) + P.Answers(Attend(Attends(a, t, script, n - 1), t, Scripted(script, n - 1)).1)
  }

  lemma {:induction false} AttendsConcat(a: Host, t: P.Terms, script: Script, m: nat, n: nat)
    ensures Attends(a, t, script, m + n) == Attends(Attends(a, t, script, m), t, Unread(script, m), n)
    ensures HostSends(a, t, script, m + n)
         == HostSends(a, t, script, m) + HostSends(Attends(a, t, script, m), t, Unread(script, m), n)
  {
    hide Attend, P.Answers, Scripted, Unread;
    if n > 0 {
      AttendsConcat(a, t, script, m, n - 1);
      P.UnreadFurther(script, m, n - 1);
    }
  }

  /** Within a call the card goes its way and the application waits. */
  lemma {:induction false} CallRuns(a: Host, t: P.Terms, script: Script, n: nat)
    requires P.Running(P.Run(a.card, t, script, n))
    ensures Attends(a, t, script, n) == a.(card := P.Run(a.card, t, script, n))
    ensures HostSends(a, t, script, n) == P.Sent(a.card, t, script, n)
  {
    hide P.On, P.Answers, Respond;
    if n > 0 {
      StillRunning(P.Run(a.card, t, script, n - 1), t, Scripted(script, n - 1));
      CallRuns(a, t, script, n - 1);
    }
  }

  lemma StillRunning(c: P.Card, t: P.Terms, raw: Option<seq<byte>>)
    requires P.Running(P.On(c, t, raw).0)
    ensures P.Running(c)
  {
    hide P.OnBlock, P.OnPps, P.ParsedCommand, Codings.IsPps;
  }

  /** At the end of a call the application does its part. */
  lemma CallEnds(a: Host, t: P.Terms, n: nat, from: Script, to: Script, d: P.Card, before: seq<Frame>, sent: seq<Frame>)
    requires P.Walk(a.card, t, n, from, to, d, before, sent) && n > 0
    ensures var (b, first) := Respond(a, d, None, t);
            Attends(a, t, from, n) == b
            && before + HostSends(a, t, from, n) == sent + if d.at.Got? then P.BlockFrame(t.hwCrc, first) else []
  {
    hide P.On, Transmitted, P.BeginResponse;
    CallRuns(a, t, from, n - 1);
    var c := P.Run(a.card, t, from, n - 1);
    if d.at.Got? {
      GotQuietly(c, t, Scripted(from, n - 1));
    }
  }

  lemma GotQuietly(c: P.Card, t: P.Terms, raw: Option<seq<byte>>)
    requires P.Running(c) && P.On(c, t, raw).0.at.Got?
    ensures P.On(c, t, raw).1 == None
  {
    hide Process, P.ParsedCommand, Codings.IsPps, Codings.PpsOf, P.PpsReply, P.Strip, Transmitted, NoteFrame;
  }

  /** `n` frames off a script brought the application from `a` to `b`. */
  ghost predicate Attended(a: Host, t: P.Terms, n: nat, from: Script, to: Script, b: Host,
                           before: seq<Frame>, sent: seq<Frame>)
  {
    && b == Attends(a, t, from, n)
    && to == Unread(from, n)
    && sent == before + HostSends(a, t, from, n)
  }

  lemma AttendedOn(a: Host, t: P.Terms, m: nat, n: nat, from: Script, via: Script, to: Script, b: Host, c: Host,
                   before: seq<Frame>, between: seq<Frame>, sent: seq<Frame>)
    requires Attended(a, t, m, from, via, b, before, between)
    requires Attended(b, t, n, via, to, c, between, sent)
    ensures Attended(a, t, m + n, from, to, c, before, sent)
  {
    hide Attends, HostSends, Scripted;
    AttendsConcat(a, t, from, m, n);
    P.UnreadFurther(from, m, n);
  }

  lemma AttendedNone(a: Host, t: P.Terms, script: Script, sent: seq<Frame>)
    ensures Attended(a, t, 0, script, script, a, sent, sent)
  {
  }

  /** One call, as the application sees it; a call that needs no frame leaves it in place. */
  lemma AttendedCall(a: Host, t: P.Terms, n: nat, from: Script, to: Script, d: P.Card,
                     before: seq<Frame>, sent: seq<Frame>)
    requires P.Walk(a.card, t, n, from, to, d, before, sent)
    ensures n == 0 ==> d == a.card && to == from && sent == before
    ensures n > 0 ==> var (b, first) := Respond(a, d, None, t);
                      Attended(a, t, n, from, to, b, before,
                               if d.at.Got? then sent + P.BlockFrame(t.hwCrc, first) else sent)
    ensures !P.Running(a.card) ==> n == 0
  {
    hide Respond, Attends, HostSends, P.On, P.Answers;
    if n > 0 {
      CallEnds(a, t, n, from, to, d, before, sent);
      if !P.Running(a.card) {
        NotRunning(a.card, t, from, n - 1);
      }
    }
  }

  lemma {:induction false} NotRunning(c: P.Card, t: P.Terms, script: Script, n: nat)
    requires !P.Running(c)
    ensures P.Run(c, t, script, n) == c
  {
    if n > 0 {
      NotRunning(c, t, script, n - 1);
    }
  }

  /** The next command of an application that has got `b.got`; `over` when the call fails. */
  method NextCommand(picc: P.Picc, ghost b: Host)
    returns (command: Option<seq<byte>>, ghost c: Host, ghost first: Option<Block>, ghost n: nat)
    requires b.card == P.BeginReceive(picc.Snapshot(P.Listening))
    modifies picc, picc.handler, picc.transceiver
    ensures picc.CurrentTerms() == old(picc.CurrentTerms()) && picc.handler == old(picc.handler)
    ensures var sent := picc.transceiver.sent;
            Attended(b, old(picc.CurrentTerms()), n, old(picc.transceiver.receives), picc.transceiver.receives, c,
                     old(picc.transceiver.sent),
                     if command.Some? then sent + P.BlockFrame(picc.hwCrc, first) else sent)
    ensures command.None? ==> c.got == b.got && !P.Running(c.card)
    ensures command.Some? ==> |picc.transceiver.receives| < |old(picc.transceiver.receives)|
    ensures command.Some? ==> (c, first) == Respond(b, picc.Snapshot(P.Got(command.value)), None, picc.CurrentTerms())
  {
    hide P.Walk, Attended, P.BeginResponse;
    ghost var from, before, t := picc.transceiver.receives, picc.transceiver.sent, picc.CurrentTerms();
    var r;
    r, n := picc.ReceiveCommand();
    ghost var d := picc.Snapshot(P.Reached(Some(r)));
    AttendedCall(b, t, n, from, picc.transceiver.receives, d, before, picc.transceiver.sent);
    if r.Ok? {
      GotFromScript(b.card, t, n, from, picc.transceiver.receives, d, before, picc.transceiver.sent);
    }
    ghost var responded := Respond(b, d, None, t);
    c, first := responded.0, responded.1;
    command := if r.Ok? then Some(r.value) else None;
  }

  lemma GotFromScript(c: P.Card, t: P.Terms, n: nat, from: Script, to: Script, d: P.Card,
                      before: seq<Frame>, sent: seq<Frame>)
    requires P.Walk(c, t, n, from, to, d, before, sent) && d.at.Got? && !c.at.Got?
    ensures |to| < |from|
  {
    hide Process, P.OnPps, P.OnBlock, P.ParsedCommand;
  }

  /** The answer to the command it has just got, the first block of which is `first`. */
  method NextResponse(picc: P.Picc, data: seq<byte>, ghost b: Host)
    returns (ok: bool, ghost c: Host, ghost n: nat)
    requires b.card == Relisten(P.BeginResponse(picc.Snapshot(P.Answered), picc.CurrentTerms(), data).0)
    modifies picc, picc.handler, picc.transceiver
    ensures picc.CurrentTerms() == old(picc.CurrentTerms()) && picc.handler == old(picc.handler)
    ensures var first := P.BeginResponse(old(picc.Snapshot(P.Answered)), old(picc.CurrentTerms()), data).1;
            Attended(b, old(picc.CurrentTerms()), n, old(picc.transceiver.receives), picc.transceiver.receives, c,
                     old(picc.transceiver.sent) + P.BlockFrame(picc.hwCrc, first), picc.transceiver.sent)
    ensures |picc.transceiver.receives| <= |old(picc.transceiver.receives)|
    ensures if ok then c == b.(card := P.BeginReceive(picc.Snapshot(P.Listening)))
            else c.got == b.got && !P.Running(c.card)
  {
    hide P.Walk, Attended;
    ghost var from, before, t := picc.transceiver.receives, picc.transceiver.sent, picc.CurrentTerms();
    ghost var (start, first) := P.BeginResponse(picc.Snapshot(P.Answered), t, data);
    var r;
    r, n := picc.SendResponse(data);
    before := before + P.BlockFrame(picc.hwCrc, first);
    ghost var d := picc.Snapshot(if r.Ok? then P.Answered else P.Stopped(r.error));
    AttendedCall(b.(card := start), t, n, from, picc.transceiver.receives, d, before, picc.transceiver.sent);
    AttendedNone(b, t, from, before);
    ok := r.Ok?;
    c := b.(card := Relisten(d));
    ScriptOnlyShrinks(start, t, n, from, picc.transceiver.receives, d, before, picc.transceiver.sent);
  }

  lemma ScriptOnlyShrinks(c: P.Card, t: P.Terms, n: nat, from: Script, to: Script, d: P.Card,
                          before: seq<Frame>, sent: seq<Frame>)
    requires P.Walk(c, t, n, from, to, d, before, sent)
    ensures |to| <= |from|
  {
  }

  /** An application that answers each command in turn until a call fails or it has no
      answer left: on any script it gets the commands `Attends` says, and the card sends
      the frames. */
  method Serve(picc: P.Picc, responses: seq<seq<byte>>) returns (got: seq<seq<byte>>, ghost b: Host, ghost n: nat)
    modifies picc, picc.handler, picc.transceiver
    ensures Attended(Host(P.BeginReceive(old(picc.Snapshot(P.Listening))), responses, []), old(picc.CurrentTerms()), n,
                     old(picc.transceiver.receives), picc.transceiver.receives, b,
                     old(picc.transceiver.sent), picc.transceiver.sent)
    ensures got == b.got && !P.Running(b.card)
  {
    hide P.Walk, Attended, P.BeginResponse;
    ghost var from, before, t := picc.transceiver.receives, picc.transceiver.sent, picc.CurrentTerms();
    ghost var a := Host(P.BeginReceive(picc.Snapshot(P.Listening)), responses, []);
    got, b, n := [], a, 0;
    AttendedNone(a, t, from, before);
    while true
      invariant picc.CurrentTerms() == t && picc.handler == old(picc.handler)
      invariant b == Host(P.BeginReceive(picc.Snapshot(P.Listening)), responses, got)
      invariant Attended(a, t, n, from, picc.transceiver.receives, b, before, picc.transceiver.sent)
      decreases |picc.transceiver.receives|
    {
      ghost var via, between := picc.transceiver.receives, picc.transceiver.sent;
      ghost var c, first, m;
      var command;
      command, c, first, m := NextCommand(picc, b);
      ghost var between1 := if command.Some? then picc.transceiver.sent + P.BlockFrame(picc.hwCrc, first)
                            else picc.transceiver.sent;
      AttendedOn(a, t, n, m, from, via, picc.transceiver.receives, b, c, before, between, between1);
      n := n + m;
      if command.None? {
        return got, c, n;
      }
      got := got + [command.value];
      if |got| > |responses| {
        assert between1 == picc.transceiver.sent;
        return got, c, n;
      }
      ghost var d;
      var ok;
      ghost var via1 := picc.transceiver.receives;
      P.BeginResponseIgnores(picc.Snapshot(P.Got(command.value)), picc.Snapshot(P.Answered), t, responses[|got| - 1]);
      ok, d, m := NextResponse(picc, responses[|got| - 1], c);
      AttendedOn(a, t, n, m, from, via1, picc.transceiver.receives, c, d, before, between1, picc.transceiver.sent);
      n := n + m;
      b := d;
      if !ok {
        return got, b, n;
      }
    }
  }

  /** The frames that reach the card in one exchange. */
  function Requests(l: Link, s: Session, t: P.Terms, noise: seq<Noise>): Script
    decreases |noise|
  {
    if noise == [] || l.reader.Finished? then []
    else (if noise[0].CommandLost? then [] else [Request(l.reader, s, t)])
         + Requests(Hop(l, s, t, noise[0]), s, t, noise[1..])
  }

  lemma AttendsFirst(a: Host, t: P.Terms, script: Script)
    requires script != []
    ensures Attends(a, t, script, 1) == Attend(a, t, script[0]).0
  {
    hide Attend;
    assert Attends(a, t, script, 0) == a;
  }

  /** Reading those frames off a script is the card's part of the run. */
  lemma {:induction false} HostRuns(l: Link, s: Session, t: P.Terms, noise: seq<Noise>)
    ensures Attends(l.host, t, Requests(l, s, t, noise), |Requests(l, s, t, noise)|) == Hops(l, s, t, noise).host
    decreases |noise|
  {
    hide Attend, Attends, Request, Feed, AnswerHeard, Parsed;
    if l.reader.Finished? {
      DoneStays(l, s, t, noise);
      AttendsNone(l.host, t, []);
    } else if noise == [] {
      AttendsNone(l.host, t, []);
    } else {
      var n := Hop(l, s, t, noise[0]);
      HostRuns(n, s, t, noise[1..]);
      var rest := Requests(n, s, t, noise[1..]);
      if noise[0].CommandLost? {
        assert [] + rest == rest;
      } else {
        var script := [Request(l.reader, s, t)] + rest;
        AttendsFirst(l.host, t, script);
        AttendsConcat(l.host, t, script, 1, |rest|);
        assert Unread(script, 1) == rest;
      }
    }
  }

  lemma AttendsNone(a: Host, t: P.Terms, script: Script)
    ensures Attends(a, t, script, 0) == a
  {
  }

  /** The frames that reach the card in a dialogue. */
  function AllRequests(h: Handler, a: Host, s: Session, t: P.Terms, turns: seq<Turn>): Script {
    if turns == [] then [] else
      var before := Conduct(h, a, s, t, turns[..|turns| - 1]);
      var p := turns[|turns| - 1];
      AllRequests(h, a, s, t, turns[..|turns| - 1])
      + Requests(Link(Start(before.h, s, p.apdu), before.host), s, t, p.noise)
  }

  lemma {:induction false} DialogueRuns(h: Handler, a: Host, s: Session, t: P.Terms, turns: seq<Turn>)
    ensures var script := AllRequests(h, a, s, t, turns);
            Attends(a, t, script, |script|) == Conduct(h, a, s, t, turns).host
  {
    hide Attends, Hops, Start, Requests;
    if turns == [] {
      AttendsNone(a, t, []);
    } else {
      var init, p := turns[..|turns| - 1], turns[|turns| - 1];
      DialogueRuns(h, a, s, t, init);
      var before := Conduct(h, a, s, t, init);
      var l := Link(Start(before.h, s, p.apdu), before.host);
      var first, more := AllRequests(h, a, s, t, init), Requests(l, s, t, p.noise);
      HostRuns(l, s, t, p.noise);
      AttendsConcat(a, t, first + more, |first|, |more|);
      AttendsPrefix(a, t, first, more, |first|);
      assert Unread(first + more, |first|) == more;
    }
  }

  lemma {:induction false} AttendsPrefix(a: Host, t: P.Terms, script: Script, more: Script, n: nat)
    requires n <= |script|
    ensures Attends(a, t, script + more, n) == Attends(a, t, script, n)
  {
    hide Attend;
    if n > 0 {
      AttendsPrefix(a, t, script, more, n - 1);
    }
  }

  lemma {:induction false} OverStays(a: Host, t: P.Terms, script: Script, m: nat, n: nat)
    requires m <= n && !P.Running(Attends(a, t, script, m).card)
    ensures Attends(a, t, script, n) == Attends(a, t, script, m)
  {
    hide P.On;
    if m < n {
      OverStays(a, t, script, m, n - 1);
    }
  }

  /** Once the script has run out no command comes. */
  lemma NothingMore(a: Host, t: P.Terms, script: Script, n: nat)
    requires P.Running(Attends(a, t, script, |script|).card) && !P.Running(Attends(a, t, script, n).card)
    ensures Attends(a, t, script, n).got == Attends(a, t, script, |script|).got
  {
    hide P.OnPps, P.OnBlock, P.ParsedCommand, Attends;
    if n <= |script| {
      OverStays(a, t, script, n, |script|);
    } else {
      var b := Attends(a, t, script, |script|);
      SilenceStops(b, t);
      AttendsNext(a, t, script);
      OverStays(a, t, script, |script| + 1, n);
    }
  }

  lemma AttendsNext(a: Host, t: P.Terms, script: Script)
    ensures Attends(a, t, script, |script| + 1) == Attend(Attends(a, t, script, |script|), t, None).0
  {
    hide Attend;
  }

  lemma SilenceStops(b: Host, t: P.Terms)
    requires P.Running(b.card)
    ensures Attend(b, t, None).0.got == b.got && !P.Running(Attend(b, t, None).0.card)
  {
  }

  /** The session of the program, with the frames that this reader's exchanges bring over
      this link: the application gets every command, once and in order. */
  method ServeDialogue(picc: P.Picc, responses: seq<seq<byte>>, ghost h: Handler, ghost s: Session,
                           ghost turns: seq<Turn>)
    returns (got: seq<seq<byte>>)
    requires var a, t := Host(P.BeginReceive(picc.Snapshot(P.Listening)), responses, []), picc.CurrentTerms();
             && Ready(h, a, s, t) && |turns| <= |responses|
             && AllFair(h, a, s, t, turns)
             && picc.transceiver.receives == AllRequests(h, a, s, t, turns)
    modifies picc, picc.handler, picc.transceiver
    ensures got == ApdusOf(turns)
  {
    hide Attends, HostSends, AllRequests, Conduct, Ready, AllFair;
    ghost var script, t := picc.transceiver.receives, picc.CurrentTerms();
    ghost var a := Host(P.BeginReceive(picc.Snapshot(P.Listening)), responses, []);
    ReadyListens(h, a, s, t);
    DialogueDelivers(h, a, s, t, turns);
    DialogueRuns(h, a, s, t, turns);
    ghost var b, n;
    got, b, n := Serve(picc, responses);
    ReadyListens(Conduct(h, a, s, t, turns).h, Conduct(h, a, s, t, turns).host, s, t);
    NothingMore(a, t, script, n);
  }
}
