/**
 Whole exchanges over the link of `Link`: nothing is lost or doubled, whatever the noise,
 and every exchange completes when the noise and the budgets allow it.
 */
module LinkRuns {
  import opened Wire
  import opened Blocks
  import opened Chunking
  import opened Protocol
  import opened PcdLayer
  import opened Carriage
  import opened SpecPeers
  import opened SpecRuns
  import opened Link
  import P = PiccLayer
  import ProtocolRuns
  import Crc
  import CrcTheory

  // ── Every hop is a step of the card that keeps the rules ────────────────

  /** The two sides agree on the frame sizes; 16 is the least there is. */
  predicate SizesAgree(s: Session, t: P.Terms) {
    s.fsc == t.fsc >= 16 && s.fsd == t.fsd >= 16
  }

  ghost predicate Linked(l: Link, y: System, s: Session, t: P.Terms) {
    && l.reader == y.reader
    && (if l.host.card.at.Stopped? then l.host.got == y.card.received && Response(l.reader) == None
        else Mirrors(l.host, y.card, t))
    && (l.reader.Sending? ==> l.reader.maxInf == MaxInf(s.fsc, l.reader.h))
  }

  function ErrorHeard(s: Session, heard: Option<seq<byte>>): PcdError {
    var r := Parsed(s, heard);
    if r.Err? then r.error else TransceiverError
  }

  /** What the noise amounts to; a card that has given up loses every request. */
  function Shadow(l: Link, s: Session, t: P.Terms, f: Noise): Fault {
    var stopped := Hop(l, s, t, f).host.card.at.Stopped?;
    match f
    case Clear => if stopped then RequestLost(TransceiverError) else Clean
    case CommandLost(heard) => RequestLost(ErrorHeard(s, heard))
    case AnswerLost(heard) =>
      if stopped then RequestLost(ErrorHeard(s, heard)) else Fault.AnswerLost(ErrorHeard(s, heard))
  }

  lemma AsksInStep(y: System, x: Exchange, s: Session)
    requires Keeps(y, x) && !y.reader.Finished? && s.fsc >= 16
    requires y.reader.Sending? ==> y.reader.maxInf == MaxInf(s.fsc, y.reader.h)
    ensures var b := Pending(y.reader).value;
            Expected(y.card, b) && Sendable(b, s.fsc)
  {
    hide Sendable, Process;
    match y.reader {
      case Sending(h, apdu, _, offset) => ChunkSendable(h, apdu, offset, s.fsc);
      case Collecting(h, _, _) => AckSendable(h, s.fsc);
    }
  }

  /** A request that reaches the card, and the answer that comes back. */
  lemma RoundTrip(r: Reader, a: Host, p: SpecCard, s: Session, t: P.Terms)
    requires SizesAgree(s, t) && !r.Finished?
    requires Mirrors(a, p, t) && Expected(p, Pending(r).value) && Sendable(Pending(r).value, s.fsc)
    ensures Follows(a, p, t, Pending(r).value)
    ensures var (n, answer) := Attend(a, t, Request(r, s, t));
            var (q, told) := Serve(p, Pending(r).value);
            && n == AttendBlock(a, t, Pending(r).value).0
            && (n.card.at.Stopped? ==> Parsed(s, AnswerHeard(answer, s, t)) == Err(TransceiverError))
            && (!n.card.at.Stopped? ==>
                  told.Some? && Feed(r, Parsed(s, AnswerHeard(answer, s, t))) == Feed(r, Ok(told.value)))
  {
    hide Sendable, Mirrors, Transmitted, ToAir, FromAir, AttendBlock, Attend, Serve, Feed, Spent, Bears;
    hide Parsed;
    var b := Pending(r).value;
    AirCarries(b, s.hwCrc, t.hwCrc);
    AttendIsBlock(a, t, b);
    CardFollows(a, p, t, b);
    var (n, reply) := AttendBlock(a, t, b);
    if n.card.at.Stopped? {
      assert Parsed(s, None) == Err(TransceiverError) by {
        NothingHeard(s);
      }
    } else {
      AirCarries(reply.value, t.hwCrc, s.hwCrc);
      ReaderHears(s, reply.value);
      FeedAgrees(r, Parsed(s, Some(Transmitted(s.hwCrc, reply.value))).value, Serve(p, b).1.value);
    }
  }

  lemma NothingHeard(s: Session)
    ensures Parsed(s, None) == Err(TransceiverError)
  {
  }

  lemma StoppedStays(a: Host, t: P.Terms, raw: Option<seq<byte>>)
    requires a.card.at.Stopped?
    ensures Attend(a, t, raw) == (a, None)
  {
  }

  lemma MaxInfKept(r: Reader, a: Answer, s: Session)
    requires r.Sending? ==> r.maxInf == MaxInf(s.fsc, r.h)
    ensures Feed(r, a).Sending? ==> Feed(r, a).maxInf == MaxInf(s.fsc, Feed(r, a).h)
  {
    hide Process;
    if a.Ok? && r.Sending? {
      ProtocolRuns.ProcessKeepsSession(r.h, a.value);
    }
  }

  lemma FailureHeard(r: Reader, a: Answer)
    requires a.Err? && !r.Finished?
    ensures Response(Feed(r, a)) == None
  {
  }

  lemma HopLinked(l: Link, y: System, x: Exchange, s: Session, t: P.Terms, f: Noise)
    requires Linked(l, y, s, t) && SizesAgree(s, t) && Keeps(y, x) && Detected(s, f)
    ensures Linked(Hop(l, s, t, f), Step(y, Shadow(l, s, t, f)), s, t)
  {
    hide Process, Keeps, Mirrors, Transmitted, Parsed, Feed, Attend, AttendBlock, Serve, Sendable, Expected;
    hide Request, Bears, Spent;
    if !l.reader.Finished? {
      AsksInStep(y, x, s);
      NothingHeard(s);
      MaxInfKept(l.reader, HeardAt(l, s, t, f), s);
      if HeardAt(l, s, t, f).Err? {
        FailureHeard(l.reader, HeardAt(l, s, t, f));
      }
      if l.host.card.at.Stopped? {
        StoppedStays(l.host, t, Request(l.reader, s, t));
      } else {
        MirroredGot(l.host, y.card, t);
        RoundTrip(l.reader, l.host, y.card, s, t);
      }
    }
  }

  /** What the reader hears in one hop. */
  function HeardAt(l: Link, s: Session, t: P.Terms, f: Noise): Answer
    requires !l.reader.Finished?
  {
    match f
    case Clear => Parsed(s, AnswerHeard(Attend(l.host, t, Request(l.reader, s, t)).1, s, t))
    case CommandLost(heard) => Parsed(s, heard)
    case AnswerLost(heard) => Parsed(s, heard)
  }

  // ── Safety ──────────────────────────────────────────────────────────────

  function Shadows(l: Link, s: Session, t: P.Terms, noise: seq<Noise>): seq<Fault>
    decreases |noise|
  {
    if noise == [] then [] else [Shadow(l, s, t, noise[0])] + Shadows(Hop(l, s, t, noise[0]), s, t, noise[1..])
  }

  ghost predicate AllDetected(s: Session, noise: seq<Noise>) {
    forall i :: 0 <= i < |noise| ==> Detected(s, noise[i])
  }

  /** Whatever the noise, the run is one of the card that keeps the rules. */
  lemma {:induction false} HopsLinked(l: Link, y: System, x: Exchange, s: Session, t: P.Terms, noise: seq<Noise>)
    requires Linked(l, y, s, t) && SizesAgree(s, t) && Keeps(y, x) && x.chunks != [] && AllDetected(s, noise)
    ensures Linked(Hops(l, s, t, noise), Steps(y, Shadows(l, s, t, noise)), s, t)
    decreases |noise|
  {
    hide Linked, Keeps, Hop, Step, Shadow, Detected;
    if noise != [] {
      var f := Shadow(l, s, t, noise[0]);
      HopLinked(l, y, x, s, t, noise[0]);
      StepKeeps(y, x, f);
      var rest := Shadows(Hop(l, s, t, noise[0]), s, t, noise[1..]);
      HopsLinked(Hop(l, s, t, noise[0]), Step(y, f), x, s, t, noise[1..]);
      assert ([f] + rest)[1..] == rest;
    }
  }

  /** The sessions are set up, and no exchange is under way. */
  ghost predicate Ready(h: Handler, a: Host, s: Session, t: P.Terms) {
    && SizesAgree(s, t)
    && h.role == Role.Pcd && a.card.h.role == Role.Picc
    && h.number != a.card.h.number
    && a.card.at.Listening? && a.card.h.chain == []
  }

  /** The card of the rules, in the place of this one. */
  ghost function RuleCard(a: Host, t: P.Terms): SpecCard
    requires MaxInf(t.fsd, a.card.h) > 0
  {
    SpecCard(a.card.h.number,
             seq(|a.responses|, i requires 0 <= i < |a.responses| => Chunks(a.responses[i], MaxInf(t.fsd, a.card.h))),
             |a.got|, 0, None, a.got, [], 0)
  }

  lemma ReadyLinked(h: Handler, a: Host, s: Session, t: P.Terms, apdu: seq<byte>)
    requires Ready(h, a, s, t) && |a.got| < |a.responses|
    ensures SizesAgree(s, t) && MaxInf(t.fsd, a.card.h) > 0
    ensures Between(h, RuleCard(a, t)) && Prepared(RuleCard(a, t))
    ensures Linked(Link(Start(h, s, apdu), a), System(Start(h, s, apdu), RuleCard(a, t)), s, t)
    ensures Flatten(RuleCard(a, t).responses[|a.got|]) == a.responses[|a.got|]
  {
    hide Sendable;
    ChunksAreMinimal(a.responses[|a.got|], MaxInf(t.fsd, a.card.h));
  }

  lemma LinkedReady(l: Link, y: System, s: Session, t: P.Terms, h: Handler)
    requires Linked(l, y, s, t) && SizesAgree(s, t) && Between(h, y.card) && !l.host.card.at.Stopped?
    ensures Ready(h, l.host, s, t)
  {
    hide Sendable;
  }

  /** What the card has sent and the reader does not have. */
  function InFlight(n: Handler, c: P.Card): seq<byte> {
    if n.number == c.h.number && c.lastSent.Some? then c.lastSent.value.payload else []
  }

  function StillToSend(c: P.Card): seq<byte> {
    if c.at.Answering? && c.at.end <= |c.at.data| then c.at.data[c.at.end..] else []
  }

  /** Whatever is lost on the way, at every step: while the command goes out the block
      numbers differ and the card has it up to the chunk that is next; once the response
      is awaited the application has the command, once, and the response is what the
      reader has, what the card has sent beyond that, and what it has yet to send. */
  lemma NothingGoesMissing(h: Handler, a: Host, s: Session, t: P.Terms, apdu: seq<byte>, noise: seq<Noise>)
    requires Ready(h, a, s, t) && |a.got| < |a.responses| && AllDetected(s, noise)
    ensures var l := Hops(Link(Start(h, s, apdu), a), s, t, noise);
            var c := l.host.card;
            match l.reader
            case Sending(n, all, _, offset) =>
              && all == apdu && offset < |apdu| && n.chain == [] && l.host.got == a.got
              && (!c.at.Stopped? ==> n.number != c.h.number && c.h.chain == apdu[..offset])
            case Collecting(n, _, _) =>
              && l.host.got == a.got + [apdu] && n.chain <= a.responses[|a.got|]
              && (!c.at.Stopped? ==> c.h.chain == []
                                     && n.chain + InFlight(n, c) + StillToSend(c) == a.responses[|a.got|])
            case Finished(_, _) => true
  {
    hide Linked, Ready, Step, Hop, Process, Start, Between, Keeps, InFlight, StillToSend;
    ReadyLinked(h, a, s, t, apdu);
    var c := RuleCard(a, t);
    var start, y := Link(Start(h, s, apdu), a), System(Start(h, s, apdu), c);
    StartKeeps(h, c, s, apdu);
    HopsLinked(start, y, ExchangeOf(c, apdu), s, t, noise);
    StepsKeep(y, ExchangeOf(c, apdu), Shadows(start, s, t, noise));
    var l, z := Hops(start, s, t, noise), Steps(y, Shadows(start, s, t, noise));
    LinkedMeans(l, z, s, t);
    if l.reader.Sending? {
      SendingMeans(l, z, ExchangeOf(c, apdu), s, t);
    } else if l.reader.Collecting? {
      CollectingMeans(l, z, ExchangeOf(c, apdu), s, t);
    }
  }

  lemma SendingMeans(l: Link, y: System, x: Exchange, s: Session, t: P.Terms)
    requires Linked(l, y, s, t) && Keeps(y, x) && l.reader.Sending?
    ensures l.reader.apdu == x.apdu && l.reader.offset < |x.apdu| && l.reader.h.chain == []
    ensures y.card.received == x.received
    ensures !l.host.card.at.Stopped? ==> l.reader.h.number != l.host.card.h.number
                                         && l.host.card.h.chain == x.apdu[..l.reader.offset]
  {
    hide Sendable, SameResponses;
  }

  /** What the reader has of the response, and what it has missed. */
  lemma ReaderHas(y: System, x: Exchange)
    requires Keeps(y, x) && y.reader.Collecting? && x.chunks != []
    ensures var h, n := y.reader.h, ChunksSent(y.card, x);
            && y.card.received == x.received + [x.apdu] && y.card.partial == []
            && 1 <= n <= |x.chunks|
            && (if h.number == y.card.number
                then && h.chain == Flatten(x.chunks[..n - 1])
                     && y.card.lastSent.Some? && y.card.lastSent.value.payload == x.chunks[n - 1]
                else h.chain == Flatten(x.chunks[..n]))
  {
  }

  /** What the card has yet to send. */
  lemma CardHasLeft(a: Host, p: SpecCard, t: P.Terms, x: Exchange)
    requires Mirrors(a, p, t) && x.command < |p.responses| && p.responses[x.command] == x.chunks
    requires p.command == x.command || (p.command == x.command + 1 && p.chunk == 0)
    requires p.command == x.command ==> p.chunk != 0
    ensures StillToSend(a.card) == Flatten(x.chunks[ChunksSent(p, x)..])
  {
    hide Sendable, SameResponses, Chunks;
    if p.chunk == 0 {
      assert x.chunks[|x.chunks|..] == [];
    } else {
      ChunksAreMinimal(a.card.at.data[a.card.at.end..], a.card.at.maxInf);
    }
  }

  lemma CollectingMeans(l: Link, y: System, x: Exchange, s: Session, t: P.Terms)
    requires Linked(l, y, s, t) && Keeps(y, x) && l.reader.Collecting? && x.chunks != []
    ensures y.card.received == x.received + [x.apdu]
    ensures l.reader.h.chain <= Flatten(x.chunks)
    ensures !l.host.card.at.Stopped? ==>
              l.host.card.h.chain == []
              && l.reader.h.chain + InFlight(l.reader.h, l.host.card) + StillToSend(l.host.card) == Flatten(x.chunks)
  {
    hide Sendable, SameResponses, Chunks, StillToSend, Flatten;
    var h, p, c := l.reader.h, y.card, l.host.card;
    var n := ChunksSent(p, x);
    ReaderHas(y, x);
    FlattenPrefix(x.chunks, if h.number == p.number then n - 1 else n);
    if !c.at.Stopped? {
      CardHasLeft(l.host, p, t, x);
      assert x.chunks == x.chunks[..n] + x.chunks[n..];
      FlattenConcat(x.chunks[..n], x.chunks[n..]);
      PrefixSnoc(x.chunks, n - 1);
    }
  }

  lemma {:induction false} FlattenConcat(a: seq<seq<byte>>, b: seq<seq<byte>>)
    ensures Flatten(a + b) == Flatten(a) + Flatten(b)
  {
    if b == [] {
      assert a + b == a;
    } else {
      assert (a + b)[..|a + b| - 1] == a + b[..|b| - 1];
      FlattenConcat(a, b[..|b| - 1]);
    }
  }

  /** Whatever is lost on the way: an exchange that succeeds has brought the application
      the command once and the reader the application's whole answer, and leaves both
      sides ready for the next; one that fails has brought the command at most once. */
  lemma LinkDeliversOnce(h: Handler, a: Host, s: Session, t: P.Terms, apdu: seq<byte>, noise: seq<Noise>)
    requires Ready(h, a, s, t) && |a.got| < |a.responses| && AllDetected(s, noise)
    ensures var l := Hops(Link(Start(h, s, apdu), a), s, t, noise);
            match l.reader
            case Finished(n, Ok(data)) =>
              data == a.responses[|a.got|] && l.host.got == a.got + [apdu] && Ready(n, l.host, s, t)
            case Finished(_, Err(_)) => l.host.got == a.got || l.host.got == a.got + [apdu]
            case _ => true
  {
    hide Linked, Ready, Step, Hop, Process, Start, Between, Keeps;
    ReadyLinked(h, a, s, t, apdu);
    var c := RuleCard(a, t);
    var start, y := Link(Start(h, s, apdu), a), System(Start(h, s, apdu), c);
    StartKeeps(h, c, s, apdu);
    HopsLinked(start, y, ExchangeOf(c, apdu), s, t, noise);
    DeliveredOnce(h, c, s, apdu, Shadows(start, s, t, noise));
    LinkedMeans(Hops(start, s, t, noise), Steps(y, Shadows(start, s, t, noise)), s, t);
  }

  lemma LinkedMeans(l: Link, y: System, s: Session, t: P.Terms)
    requires Linked(l, y, s, t) && SizesAgree(s, t)
    ensures l.reader == y.reader && l.host.got == y.card.received
    ensures Response(l.reader).Some? && Between(l.reader.h, y.card) ==> Ready(l.reader.h, l.host, s, t)
  {
    hide Sendable, Ready, Between;
    if Response(l.reader).Some? && Between(l.reader.h, y.card) {
      LinkedReady(l, y, s, t, l.reader.h);
    }
  }

  // ── Damage ──────────────────────────────────────────────────────────────

  /** An answer damaged on the air within sixteen consecutive bits is noise the reader
      detects, whoever does its CRC. */
  lemma BurstIsDetected(s: Session, frame: seq<byte>, damaged: seq<byte>, start: nat)
    requires CrcTheory.Accepts(frame)
    requires CrcTheory.BurstApart(frame, damaged, start) && frame != damaged
    ensures Detected(s, Noise.AnswerLost(FromAir(s.hwCrc, damaged)))
  {
    hide Crc.Split, Crc.Append, Parse;
    CrcTheory.BurstDetected(frame, damaged, start);
  }

  /** Every block is such a frame. */
  lemma BlockIsAccepted(hwCrc: bool, b: Block)
    ensures CrcTheory.Accepts(ToAir(hwCrc, Transmitted(hwCrc, b)))
  {
    hide Encoding, Crc.Append, Crc.Split;
    Crc.SplitOfAppend(Encoding(b));
  }
}
