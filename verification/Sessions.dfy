/**
 Whole sessions of the program over one link: activation, RATS and ATS, then APDUs. What
 the reader's transceiver hands up is what the card sends, and the other way round.
 */
module Sessions {
  import opened Wire
  import opened Blocks
  import opened Codings
  import opened Commands
  import opened Uids
  import opened Protocol
  import opened Activation
  import opened ActivationRuns
  import opened Link
  import opened LinkRuns
  import opened LinkLive
  import opened Joined
  import P = PiccLayer
  import R = PcdLayer
  import AnswerToSelect
  import Crc

  // ── Activation, from both ends ──────────────────────────────────────────

  /** The air between the two, and how the reader starts. */
  datatype Field = Field(c: P.Config, halted: bool, readerHw: bool, cardHw: bool)

  function At(f: Field, n: nat): (m: Meeting)
    ensures Proper(m.reader)
  {
    Meets(f.c, P.Idle, f.halted, f.readerHw, f.cardHw, n)
  }

  function Frames(f: Field): nat {
    1 + 2 * Levels(f.c.uid)
  }

  /** Frame `n`, as the card gets it. */
  function RawAt(f: Field, n: nat): Option<seq<byte>> {
    var r := At(f, n).reader;
    if Over(r) then None else Carried(Says(r, f.halted, f.readerHw), f.readerHw, f.cardHw)
  }

  /** The first `n` frames the card gets, and the answers the reader gets. */
  function Asked(f: Field, n: nat): Script {
    if n == 0 then [] else Asked(f, n - 1) + [RawAt(f, n - 1)]
  }

  function Replied(f: Field, n: nat): Script {
    if n == 0 || Over(At(f, n - 1).reader) then []
    else Replied(f, n - 1) + [Answered(At(f, n - 1), f.c, f.halted, f.readerHw, f.cardHw).0]
  }

  lemma NotOver(f: Field, n: nat)
    requires n < Frames(f)
    ensures !Over(At(f, n).reader)
  {
    hide Meets, Answered, Hears, BccHolds, LevelBytes;
    ActivationFindsUid(f.c, P.Idle, f.halted, f.readerHw, f.cardHw);
  }

  lemma {:induction false} ReaderMeets(f: Field, rest: Script, n: nat)
    requires n <= Frames(f)
    ensures |Replied(f, n)| == n
    ensures Activation.Run(Waking, f.readerHw, Replied(f, n) + rest, n) == At(f, n).reader
    decreases n
  {
    hide Answered, Hears, Levels;
    if n > 0 {
      NotOver(f, n - 1);
      var last := [Answered(At(f, n - 1), f.c, f.halted, f.readerHw, f.cardHw).0];
      assert Replied(f, n) + rest == Replied(f, n - 1) + (last + rest);
      ReaderMeets(f, last + rest, n - 1);
    }
  }

  /** A reader that activates takes the frames it takes and no more. */
  lemma OverOnce(hwCrc: bool, script: Script, m: nat, n: nat)
    requires Over(Activation.Run(Waking, hwCrc, script, m)) && Over(Activation.Run(Waking, hwCrc, script, n))
    requires m > 0 ==> !Over(Activation.Run(Waking, hwCrc, script, m - 1))
    requires n > 0 ==> !Over(Activation.Run(Waking, hwCrc, script, n - 1))
    ensures m == n
  {
    hide Hears;
    if m < n {
      StaysOver(hwCrc, script, m, n - 1);
    } else if n < m {
      StaysOver(hwCrc, script, n, m - 1);
    }
  }

  lemma {:induction false} StaysOver(hwCrc: bool, script: Script, m: nat, n: nat)
    requires m <= n && Over(Activation.Run(Waking, hwCrc, script, m))
    ensures Over(Activation.Run(Waking, hwCrc, script, n))
  {
    hide Hears;
    if m < n {
      StaysOver(hwCrc, script, m, n - 1);
      OverHearsNothing(Activation.Run(Waking, hwCrc, script, n - 1), hwCrc, Scripted(script, n - 1));
    }
  }

  lemma OverHearsNothing(s: Selecting, hwCrc: bool, answer: Option<seq<byte>>)
    requires Over(s)
    ensures Hears(s, hwCrc, answer) == s
  {
  }

  /** Activation off a script that starts with this card's answers. */
  method ActivateHere(t: R.PcdTransceiver, halted: bool, hwCrc: bool, ghost f: Field, ghost rest: Script)
    returns (found: Found)
    requires f.halted == halted && f.readerHw == hwCrc
    requires t.answers == Replied(f, Frames(f)) + rest
    modifies t
    ensures found.uid == f.c.uid && found.sak.uidComplete && found.sak.compliant == f.c.ats.Some?
    ensures t.answers == rest
  {
    hide Meets, Replied, Activation.Run, Activation.Sent, Over;
    ghost var script, n := t.answers, Frames(f);
    ReaderMeets(f, rest, n);
    ActivationFindsUid(f.c, P.Idle, halted, hwCrc, f.cardHw);
    NotOver(f, n - 1);
    ReaderBefore(f, rest, n);
    var r;
    ghost var m;
    r, m := DoActivate(t, halted, hwCrc);
    EndedIsOver(r);
    EndedIsOver(Ok(Found(f.c.Atqa(), Sak(true, f.c.ats.Some?), f.c.uid)));
    OverOnce(hwCrc, script, m, n);
    found := r.value;
  }

  lemma EndedIsOver(r: Result<Found, ActivationError>)
    ensures Over(Ended(r))
  {
  }

  lemma ReaderBefore(f: Field, rest: Script, n: nat)
    requires 0 < n <= Frames(f)
    ensures Activation.Run(Waking, f.readerHw, Replied(f, n) + rest, n - 1) == At(f, n - 1).reader
  {
    hide Answered, Hears, Levels;
    NotOver(f, n - 1);
    var last := [Answered(At(f, n - 1), f.c, f.halted, f.readerHw, f.cardHw).0];
    assert Replied(f, n) + rest == Replied(f, n - 1) + (last + rest);
    ReaderMeets(f, last + rest, n - 1);
  }

  // ── The reader's session ────────────────────────────────────────────────

  ghost function ReaderTerms(f: Field, fsdi: FrameSize): R.Session
    requires f.c.ats.Some?
  {
    R.Session(f.readerHw, SizeOf(f.c.ats.value.format.fsci), SizeOf(fsdi))
  }

  ghost function CardTerms(f: Field, fsdi: FrameSize): P.Terms {
    P.Terms(f.cardHw, f.c.Fsc(), SizeOf(fsdi))
  }

  function ReaderHandler(cid: Cid): Handler {
    Handler(Role.Pcd, Some(cid), 0, [], DEFAULT_LIMITS, NO_COUNTS)
  }

  ghost function CardHandler(f: Field, cid: Cid, l: Limits): Handler {
    Handler(Role.Picc, if P.CidSupported(f.c) then Some(cid) else None, 1, [], l, NO_COUNTS)
  }

  /** The card with its application, about to get its first command; `last` is what it
      sent last in an earlier session, if there was one. */
  ghost function FirstHost(f: Field, cid: Cid, l: Limits, last: Option<Block>, responses: seq<seq<byte>>): Host {
    Host(P.Card(CardHandler(f, cid, l), last, false, P.Listening), responses, [])
  }

  function RatsHeard(f: Field, fsdi: FrameSize, cid: Cid): Option<seq<byte>> {
    Carried(R.RatsFrame(f.readerHw, fsdi, cid), f.readerHw, f.cardHw)
  }

  function AtsAnswer(f: Field): Option<seq<byte>>
    requires f.c.ats.Some?
  {
    Carried(Standard(Crc.Sealed(f.cardHw, AnswerToSelect.Print(f.c.ats.value))), f.cardHw, f.readerHw)
  }

  ghost predicate Speaks(f: Field) {
    f.c.ats.Some? && AnswerToSelect.Defined(f.c.ats.value)
  }

  lemma SessionsAgree(f: Field, fsdi: FrameSize, cid: Cid, l: Limits, last: Option<Block>,
                      responses: seq<seq<byte>>, s: P.Settled)
    requires Speaks(f) && s.h.limits == l
    ensures Ready(ReaderHandler(cid), FirstHost(f, cid, l, last, responses), ReaderTerms(f, fsdi), CardTerms(f, fsdi))
    ensures R.AtsHeard(f.readerHw, AtsAnswer(f)) == Ok(AnswerToSelect.Received(f.c.ats.value))
    ensures AnswerToSelect.Received(f.c.ats.value).format == f.c.ats.value.format
    ensures RatsHeard(f, fsdi, cid).Some? &&
            P.OnActive(f.c, f.cardHw, s, RatsHeard(f, fsdi, cid).value)
              == (P.Settled(P.InProtocol, SizeOf(fsdi), CardHandler(f, cid, l)),
                  Some(Standard(Crc.Sealed(f.cardHw, AnswerToSelect.Print(f.c.ats.value)))), Ok(()))
  {
    hide Carried, R.AtsHeard, Crc.Sealed, AnswerToSelect.Print, R.RatsFrame, P.CidSupported;
    RatsSettles(f.c, s, fsdi, cid, f.readerHw, f.cardHw);
    AtsGoesOut(f, fsdi, cid, s);
  }

  lemma AtsGoesOut(f: Field, fsdi: FrameSize, cid: Cid, s: P.Settled)
    requires f.c.ats.Some? && RatsHeard(f, fsdi, cid).Some?
    ensures var (n, reply, outcome) := P.OnActive(f.c, f.cardHw, s, RatsHeard(f, fsdi, cid).value);
            outcome.Ok? && reply.Some? ==>
              reply == Some(Standard(Crc.Sealed(f.cardHw, AnswerToSelect.Print(f.c.ats.value))))
  {
    hide Carried, Crc.Sealed, AnswerToSelect.Print, R.RatsFrame, P.CidSupported, P.Strip, RatsOf;
  }

  /** From REQA to the first answer: the reader finds this card's UID, and gets what the
      card's application answers, through at most two losses in a row while the
      answer comes in. */
  method ReadCard(t: R.PcdTransceiver, halted: bool, hwCrc: bool, fsdi: FrameSize, cid: Cid, apdu: seq<byte>,
                  ghost f: Field, ghost l: Limits, ghost last: Option<Block>, ghost responses: seq<seq<byte>>,
                  ghost noise: seq<Noise>)
    returns (uid: seq<byte>, answer: Result<seq<byte>, R.PcdError>)
    requires f.halted == halted && f.readerHw == hwCrc && Speaks(f) && responses != []
    requires var h, a := ReaderHandler(cid), FirstHost(f, cid, l, last, responses);
             var s, terms := ReaderTerms(f, fsdi), CardTerms(f, fsdi);
             && SizesAgree(s, terms)
             && Affords(h, a, s, terms, apdu, responses[0], noise, 0)
             && Survivable(h, a, s, terms, apdu, responses[0], noise)
             && t.answers == Replied(f, Frames(f))
                             + ([AtsAnswer(f)] + Joined.Answers(Link(R.Start(h, s, apdu), a), s, terms, noise))
    modifies t
    ensures uid == f.c.uid
    ensures answer == Ok(responses[0])
  {
    hide Replied, Joined.Answers, Affords, Survivable, Ready, R.Start, AtsAnswer;
    hide R.AtsHeard, AnswerToSelect.Received, P.OnActive;
    ghost var h, a := ReaderHandler(cid), FirstHost(f, cid, l, last, responses);
    ghost var s, terms := ReaderTerms(f, fsdi), CardTerms(f, fsdi);
    ghost var script := Joined.Answers(Link(R.Start(h, s, apdu), a), s, terms, noise);
    SessionsAgree(f, fsdi, cid, l, last, responses,
                  P.Settled(P.Active, 0, Handler(Role.Picc, None, 1, [], l, NO_COUNTS)));
    var found := ActivateHere(t, halted, hwCrc, f, [AtsAnswer(f)] + script);
    uid := found.uid;
    var connected := R.Pcd.Connect(t, fsdi, cid, hwCrc);
    var pcd := connected.value.0;
    assert t.answers == script;
    answer := ExchangeOverLink(pcd, a, terms, apdu, noise);
  }

  // ── The card's session ──────────────────────────────────────────────────

  lemma NotLost(f: Field, n: nat)
    requires n <= Frames(f)
    ensures !At(f, n).reader.Lost?
    ensures At(f, Frames(f)).card == P.Active
  {
    hide Meets, BccHolds, LevelBytes;
    ActivationFindsUid(f.c, P.Idle, f.halted, f.readerHw, f.cardHw);
    if n < Frames(f) {
      NotOver(f, n);
    }
  }

  /** While the reader is at it, each of its frames arrives and the card takes it. */
  lemma CardTakes(f: Field, n: nat)
    requires n < Frames(f)
    ensures RawAt(f, n).Some? &&
            var r := P.OnWaiting(f.c, f.cardHw, At(f, n).card, RawAt(f, n).value);
            r.Ok? && r.value.state == At(f, n + 1).card
    ensures At(f, n).card != P.Active
  {
    hide Carried, P.OnWaiting, Says, Hears, Levels;
    NotLost(f, n + 1);
    NotOver(f, n);
    Silenced(At(f, n).reader, f.readerHw);
    if At(f, n).card == P.Active {
      ActiveIsSilent(f.c, f.cardHw, RawAt(f, n).value);
    }
  }

  lemma Silenced(s: Selecting, hwCrc: bool)
    requires Proper(s) && !Over(s)
    ensures Hears(s, hwCrc, None).Lost?
  {
  }

  /** A card that is selected does not answer activation frames. */
  lemma ActiveIsSilent(c: P.Config, hwCrc: bool, raw: seq<byte>)
    ensures P.OnWaiting(c, hwCrc, P.Active, raw) == Ok(P.Reaction(P.Active, None))
  {
  }

  /** Waiting off a script that starts with this reader's frames goes where the two go. */
  lemma {:induction false} CardWaits(f: Field, n: nat, rest: Script, sent: seq<Frame>) returns (now: seq<Frame>)
    requires n < Frames(f)
    ensures P.Waits(f.c, f.cardHw, P.Idle, Asked(f, n) + rest, sent) == P.Waits(f.c, f.cardHw, At(f, n).card, rest, now)
    decreases n
  {
    hide RawAt, Levels, Meets, P.OnWaiting, P.Waits;
    if n == 0 {
      now := sent;
      AtStart(f);
      assert Asked(f, 0) + rest == rest;
    } else {
      CardTakes(f, n - 1);
      CardTakes(f, n);
      var m, raw := At(f, n - 1), RawAt(f, n - 1);
      assert Asked(f, n) + rest == Asked(f, n - 1) + ([raw] + rest);
      now := CardWaits(f, n - 1, [raw] + rest, sent);
      WaitsCons(f.c, f.cardHw, m.card, raw.value, rest, now);
      now := now + P.Said(P.OnWaiting(f.c, f.cardHw, m.card, raw.value).value.reply);
    }
  }

  lemma AtStart(f: Field)
    ensures At(f, 0) == Meeting(Waking, P.Idle) && Asked(f, 0) == []
  {
  }

  lemma WaitsCons(c: P.Config, hwCrc: bool, state: P.PiccState, raw: seq<byte>, rest: Script, sent: seq<Frame>)
    requires P.OnWaiting(c, hwCrc, state, raw).Ok?
    ensures var r := P.OnWaiting(c, hwCrc, state, raw).value;
            P.Waits(c, hwCrc, state, [Some(raw)] + rest, sent)
              == if r.state == P.Active then P.Wait(P.Active, None, sent + P.Said(r.reply), rest)
                 else P.Waits(c, hwCrc, r.state, rest, sent + P.Said(r.reply))
  {
    hide P.OnWaiting;
    assert ([Some(raw)] + rest)[1..] == rest;
  }

  lemma CardIsSelected(f: Field, rest: Script, sent: seq<Frame>)
    ensures var w := P.Waits(f.c, f.cardHw, P.Idle, Asked(f, Frames(f)) + rest, sent);
            w.state == P.Active && w.error == None && w.rest == rest
  {
    hide RawAt, Meets, P.OnWaiting, P.Waits, Levels;
    var n := Frames(f) - 1;
    CardTakes(f, n);
    NotLost(f, n);
    var m, raw := At(f, n), RawAt(f, n);
    assert Asked(f, Frames(f)) + rest == Asked(f, n) + ([raw] + rest);
    var now := CardWaits(f, n, [raw] + rest, sent);
    WaitsCons(f.c, f.cardHw, m.card, raw.value, rest, now);
  }

  /** A card in the field: selected, set up, and its application gets every command of this
      reader, once and in order. */
  method BeCard(picc: P.Picc, responses: seq<seq<byte>>, fsdi: FrameSize, cid: Cid, ghost f: Field,
                ghost turns: seq<Turn>)
    returns (got: seq<seq<byte>>)
    requires picc.config == f.c && picc.hwCrc == f.cardHw && Speaks(f)
    requires |turns| <= |responses|
    requires var h, a := ReaderHandler(cid), FirstHost(f, cid, picc.handler.limits, picc.lastSent, responses);
             var s, t := ReaderTerms(f, fsdi), CardTerms(f, fsdi);
             && SizesAgree(s, t)
             && AllFair(h, a, s, t, turns)
             && picc.transceiver.receives
                == Asked(f, Frames(f)) + ([RatsHeard(f, fsdi, cid)] + AllRequests(h, a, s, t, turns))
    modifies picc, picc.handler, picc.transceiver
    ensures got == ApdusOf(turns)
  {
    hide P.Waits, Asked, P.OnActive, AllRequests, Ready, AllFair, RatsHeard, Levels;
    ghost var h, l, last := ReaderHandler(cid), picc.handler.limits, picc.lastSent;
    ghost var a := FirstHost(f, cid, l, last, responses);
    ghost var s, t := ReaderTerms(f, fsdi), CardTerms(f, fsdi);
    ghost var rest := AllRequests(h, a, s, t, turns);
    CardIsSelected(f, [RatsHeard(f, fsdi, cid)] + rest, picc.transceiver.sent);
    var selected := picc.WaitForActivation();
    SessionsAgree(f, fsdi, cid, l, last, responses, picc.Settlement());
    var settled := picc.WaitForRats();
    assert picc.transceiver.receives == rest;
    assert Host(P.BeginReceive(picc.Snapshot(P.Listening)), responses, []) == a;
    assert picc.CurrentTerms() == t;
    got := ServeDialogue(picc, responses, h, s, turns);
  }
}
