/** The reader and one card in the field, from REQA to the block protocol. */
module ActivationRuns {
  import opened Wire
  import opened Blocks
  import opened Codings
  import opened Commands
  import opened Uids
  import opened Activation
  import opened Carriage
  import opened Protocol
  import P = PiccLayer
  import PcdLayer
  import AnswerToSelect
  import Crc

  /** A frame as the other side's transceiver hands it up: only standard frames carry a
      CRC. */
  function Carried(f: Frame, fromHw: bool, toHw: bool): Option<seq<byte>> {
    if f.Standard? then FromAir(toHw, ToAir(fromHw, f.data)) else Some(f.data)
  }

  lemma SealedIsCarried(data: seq<byte>, fromHw: bool, toHw: bool)
    ensures Carried(Standard(Crc.Sealed(fromHw, data)), fromHw, toHw) == Some(Crc.Sealed(toHw, data))
    ensures P.Strip(toHw, Crc.Sealed(toHw, data)) == Ok(data)
    ensures Crc.Sealed(toHw, data)[..|data|] == data && |Crc.Sealed(toHw, data)| >= |data|
  {
    Crc.SplitOfAppend(data);
    hide Crc.Split, Crc.Epilogue, Crc.CrcOf;
  }

  datatype Meeting = Meeting(reader: Selecting, card: P.PiccState)

  /** What the reader hears when it sends its next frame, and where the card is then. */
  function Answered(m: Meeting, c: P.Config, halted: bool, readerHw: bool, cardHw: bool)
    : (Option<seq<byte>>, P.PiccState)
    requires Proper(m.reader) && !Over(m.reader)
  {
    var raw := Carried(Says(m.reader, halted, readerHw), readerHw, cardHw);
    var r := if raw.Some? then P.OnWaiting(c, cardHw, m.card, raw.value) else Err(Other);
    if r.Err? then (None, m.card)
    else (if r.value.reply.Some? then Carried(r.value.reply.value, cardHw, readerHw) else None, r.value.state)
  }

  function Meet(m: Meeting, c: P.Config, halted: bool, readerHw: bool, cardHw: bool): (n: Meeting)
    requires Proper(m.reader)
    ensures Proper(n.reader)
  {
    if Over(m.reader) then m else
      var (heard, card) := Answered(m, c, halted, readerHw, cardHw);
      Meeting(Hears(m.reader, readerHw, heard), card)
  }

  /** The two after `n` frames, the card being in the state `from` when the reader starts. */
  function Meets(c: P.Config, from: P.PiccState, halted: bool, readerHw: bool, cardHw: bool, n: nat): (m: Meeting)
    ensures Proper(m.reader)
  {
    if n == 0 then Meeting(Waking, from)
    else Meet(Meets(c, from, halted, readerHw, cardHw, n - 1), c, halted, readerHw, cardHw)
  }

  /** A card in this state hears the reader's first frame: an idle one either, a halted one
      the one for halted cards. */
  predicate Listens(from: P.PiccState, halted: bool) {
    from == P.Idle || (from == P.Halted && halted)
  }

  lemma Wakes(c: P.Config, from: P.PiccState, halted: bool, readerHw: bool, cardHw: bool)
    requires Listens(from, halted)
    ensures Meet(Meeting(Waking, from), c, halted, readerHw, cardHw) 
         == Meeting(Resolving(c.Atqa(), []), P.Ready(0))
  {
    AtqaRoundTrip(c.Atqa());
    hide AtqaBytes, AtqaOf;
  }

  lemma LevelResolves(c: P.Config, halted: bool, readerHw: bool, cardHw: bool, k: nat)
    requires k < Levels(c.uid) && FiveEach(Parts(c.uid, k)) && FiveEach(Parts(c.uid, k + 1))
    ensures Meet(Meeting(Resolving(c.Atqa(), Parts(c.uid, k)), P.Ready(k)), c, halted, readerHw, cardHw)
         == Meeting(Choosing(c.Atqa(), Parts(c.uid, k + 1)), P.Ready(k))
  {
    LevelChecks(c.uid, k);
    hide BccHolds, LevelBytes;
    assert Parts(c.uid, k + 1) == Parts(c.uid, k) + [LevelBytes(c.uid, k).value];
  }

  lemma CardSelects(c: P.Config, hwCrc: bool, k: Level, part: seq<byte>)
    requires |part| == 5
    ensures var sak := Sak(P.LastLevel(c, k), c.ats.Some?);
            P.OnReady(c, hwCrc, k, Crc.Sealed(hwCrc, [Sel(k), NVB_SELECT] + part))
              == Ok(P.Reaction(if P.LastLevel(c, k) then P.Active else P.Ready(k + 1),
                               Some(Standard(Crc.Sealed(hwCrc, [SakByte(sak)])))))
  {
    var data := [Sel(k), NVB_SELECT] + part;
    SealedIsCarried(data, hwCrc, hwCrc);
    var raw := Crc.Sealed(hwCrc, data);
    assert raw[0] == raw[..|data|][0] && raw[1] == raw[..|data|][1];
    hide Crc.Sealed, P.Strip, SakByte, LevelBytes;
  }

  lemma SakArrives(sak: Sak, cardHw: bool, readerHw: bool)
    ensures SakHeard(readerHw, Carried(Standard(Crc.Sealed(cardHw, [SakByte(sak)])), cardHw, readerHw)) == Ok(sak)
  {
    SealedIsCarried([SakByte(sak)], cardHw, readerHw);
    SakRoundTrip(sak);
    hide Crc.Sealed, P.Strip, SakByte, SakOf, Carried, SakFrame;
    SakFrameIsStrip(readerHw, Crc.Sealed(readerHw, [SakByte(sak)]));
  }

  /** The SAK says that the UID is complete at the last level and not before. */
  lemma LevelChosen(c: P.Config, halted: bool, readerHw: bool, cardHw: bool, parts: seq<seq<byte>>, k: Level)
    requires |parts| == k + 1 <= Levels(c.uid) && FiveEach(parts)
    ensures Meet(Meeting(Choosing(c.Atqa(), parts), P.Ready(k)), c, halted, readerHw, cardHw)
         == if k + 1 < Levels(c.uid) then Meeting(Resolving(c.Atqa(), parts), P.Ready(k + 1))
            else Meeting(Chosen(Found(c.Atqa(), Sak(true, c.ats.Some?), UidOf(parts))), P.Active)
  {
    var sak := Sak(P.LastLevel(c, k), c.ats.Some?);
    hide Crc.Sealed, SakByte, SakHeard, Carried, UidOf, Hears, Meet, FiveEach, P.OnWaiting;
    SelectAnswered(c, halted, readerHw, cardHw, parts, k, sak);
    SakArrives(sak, cardHw, readerHw);
    HearsSak(c.Atqa(), parts, readerHw, Carried(Standard(Crc.Sealed(cardHw, [SakByte(sak)])), cardHw, readerHw), sak);
  }

  lemma SelectAnswered(c: P.Config, halted: bool, readerHw: bool, cardHw: bool, parts: seq<seq<byte>>,
                       k: Level, sak: Sak)
    requires |parts| == k + 1 <= Levels(c.uid) && FiveEach(parts) && sak == Sak(P.LastLevel(c, k), c.ats.Some?)
    ensures var reply := Standard(Crc.Sealed(cardHw, [SakByte(sak)]));
            Meet(Meeting(Choosing(c.Atqa(), parts), P.Ready(k)), c, halted, readerHw, cardHw)
              == Meeting(Hears(Choosing(c.Atqa(), parts), readerHw, Carried(reply, cardHw, readerHw)),
                         if P.LastLevel(c, k) then P.Active else P.Ready(k + 1))
  {
    hide Crc.Sealed, P.Strip, P.OnReady, SakByte, Carried, BccHolds, Sel, Hears, Meet;
    var data := [Sel(k), NVB_SELECT] + parts[k];
    var m := Meeting(Choosing(c.Atqa(), parts), P.Ready(k));
    var reply := Standard(Crc.Sealed(cardHw, [SakByte(sak)]));
    assert Says(m.reader, halted, readerHw) == Standard(Crc.Sealed(readerHw, data));
    hide Says;
    SealedIsCarried(data, readerHw, cardHw);
    CardSelects(c, cardHw, k, parts[k]);
    MeetsWith(m, c, halted, readerHw, cardHw, Crc.Sealed(cardHw, data),
              P.Reaction(if P.LastLevel(c, k) then P.Active else P.Ready(k + 1), Some(reply)));
  }

  lemma MeetsWith(m: Meeting, c: P.Config, halted: bool, readerHw: bool, cardHw: bool, raw: seq<byte>, r: P.Reaction)
    requires Proper(m.reader) && !Over(m.reader) && r.reply.Some?
    requires Carried(Says(m.reader, halted, readerHw), readerHw, cardHw) == Some(raw)
    requires P.OnWaiting(c, cardHw, m.card, raw) == Ok(r)
    ensures Meet(m, c, halted, readerHw, cardHw)
         == Meeting(Hears(m.reader, readerHw, Carried(r.reply.value, cardHw, readerHw)), r.state)
  {
    hide Hears, Carried, P.OnWaiting, Says;
  }

  lemma HearsSak(atqa: AtqA, parts: seq<seq<byte>>, hwCrc: bool, answer: Option<seq<byte>>, sak: Sak)
    requires 1 <= |parts| <= 3 && FiveEach(parts) && SakHeard(hwCrc, answer) == Ok(sak)
    requires |parts| == 3 ==> sak.uidComplete
    ensures Hears(Choosing(atqa, parts), hwCrc, answer)
         == if sak.uidComplete then Chosen(Found(atqa, sak, UidOf(parts))) else Resolving(atqa, parts)
  {
    hide SakHeard, UidOf;
  }

  lemma SakFrameIsStrip(hwCrc: bool, raw: seq<byte>)
    ensures var data := P.Strip(hwCrc, raw);
            SakFrame(hwCrc, raw) == if data.Err? then Err(data.error)
                                    else if |data.value| != 1 then Err(InvalidLength) else Ok(SakOf(data.value[0]))
  {
  }

  lemma {:induction false} LevelsPass(c: P.Config, from: P.PiccState, halted: bool, readerHw: bool, cardHw: bool,
                                      k: nat)
    requires k < Levels(c.uid) && Listens(from, halted)
    ensures Meets(c, from, halted, readerHw, cardHw, 1 + 2 * k)
         == Meeting(Resolving(c.Atqa(), Parts(c.uid, k)), P.Ready(k))
  {
    hide Meet;
    if k == 0 {
      Wakes(c, from, halted, readerHw, cardHw);
      assert Meets(c, from, halted, readerHw, cardHw, 0) == Meeting(Waking, from);
      assert Parts(c.uid, 0) == [];
    } else {
      LevelsPass(c, from, halted, readerHw, cardHw, k - 1);
      CascadeRebuilds(c.uid);
      LevelResolves(c, halted, readerHw, cardHw, k - 1);
      LevelChosen(c, halted, readerHw, cardHw, Parts(c.uid, k), k - 1);
    }
  }

  /** After 1 + 2 * levels frames, and not before, the reader has the card's UID whole and
      the card is selected. */
  lemma ActivationFindsUid(c: P.Config, from: P.PiccState, halted: bool, readerHw: bool, cardHw: bool)
    requires Listens(from, halted)
    ensures Meets(c, from, halted, readerHw, cardHw, 1 + 2 * Levels(c.uid))
         == Meeting(Chosen(Found(c.Atqa(), Sak(true, c.ats.Some?), c.uid)), P.Active)
    ensures forall n: nat :: n < 1 + 2 * Levels(c.uid) ==> !Over(Meets(c, from, halted, readerHw, cardHw, n).reader)
  {
    hide Meet, BccHolds, LevelBytes, UidOf;
    var k := Levels(c.uid) - 1;
    CascadeRebuilds(c.uid);
    LevelsPass(c, from, halted, readerHw, cardHw, k);
    LevelResolves(c, halted, readerHw, cardHw, k);
    LevelChosen(c, halted, readerHw, cardHw, Parts(c.uid, k + 1), k);
    forall n: nat | n < 1 + 2 * Levels(c.uid)
      ensures !Over(Meets(c, from, halted, readerHw, cardHw, n).reader)
    {
      OverStays(c, from, halted, readerHw, cardHw, n, 2 * Levels(c.uid));
    }
  }

  lemma {:induction false} OverStays(c: P.Config, from: P.PiccState, halted: bool, readerHw: bool, cardHw: bool,
                                     m: nat, n: nat)
    requires m <= n && !Over(Meets(c, from, halted, readerHw, cardHw, n).reader)
    ensures !Over(Meets(c, from, halted, readerHw, cardHw, m).reader)
  {
    hide Answered, Hears;
    if m < n {
      OverStays(c, from, halted, readerHw, cardHw, m, n - 1);
    }
  }

  /** A halted card answers WUPA as an idle one does, and REQA not at all. */
  lemma OnlyWupaWakes(c: P.Config, readerHw: bool, cardHw: bool)
    ensures Meets(c, P.Halted, true, readerHw, cardHw, 1 + 2 * Levels(c.uid))
         == Meeting(Chosen(Found(c.Atqa(), Sak(true, c.ats.Some?), c.uid)), P.Active)
    ensures Meets(c, P.Halted, false, readerHw, cardHw, 1) == Meeting(Lost(TransceiverError), P.Halted)
  {
    hide Meet;
    ActivationFindsUid(c, P.Halted, true, readerHw, cardHw);
    assert Meets(c, P.Halted, false, readerHw, cardHw, 0) == Meeting(Waking, P.Halted);
    ReqaIsIgnored(c, readerHw, cardHw);
  }

  lemma ReqaIsIgnored(c: P.Config, readerHw: bool, cardHw: bool)
    ensures Meet(Meeting(Waking, P.Halted), c, false, readerHw, cardHw) == Meeting(Lost(TransceiverError), P.Halted)
  {
    hide AtqaBytes, AtqaOf;
  }

  /** The reader goes on with the next level only if the five bytes add up to nothing, and
      to no fourth level. */
  lemma ReaderRefuses(s: Selecting, hwCrc: bool, v: seq<byte>, sak: Sak)
    requires Proper(s)
    ensures s.Resolving? && |v| != 5 ==> Hears(s, hwCrc, Some(v)) == Lost(ProtocolError(InvalidLength))
    ensures s.Resolving? && |v| == 5 && v[0] ^ v[1] ^ v[2] ^ v[3] ^ v[4] != 0 ==>
              Hears(s, hwCrc, Some(v)) == Lost(ProtocolError(InvalidBcc))
    ensures s.Choosing? && |s.parts| == 3 && !sak.uidComplete ==>
              Hears(s, hwCrc, Some(Crc.Sealed(hwCrc, [SakByte(sak)]))) == Lost(ProtocolError(Other))
  {
    SealedIsCarried([SakByte(sak)], hwCrc, hwCrc);
    SakRoundTrip(sak);
    SakFrameIsStrip(hwCrc, Crc.Sealed(hwCrc, [SakByte(sak)]));
    hide Crc.Sealed, P.Strip, SakByte, SakOf, SakFrame;
  }

  /** What a card that is being selected ignores: the commands of another level, and a SELECT
      of another length. The bits of an anticollision command are not looked at. */
  lemma CardIgnores(c: P.Config, hwCrc: bool, k: Level, raw: seq<byte>, data: seq<byte>)
    ensures |raw| < 2 || raw[0] != [0x93, 0x95, 0x97][k] ==>
              P.OnReady(c, hwCrc, k, raw) == Ok(P.Reaction(P.Ready(k), None))
    ensures k < Levels(c.uid) && |raw| == 2 && raw[0] == [0x93, 0x95, 0x97][k] ==>
              P.OnReady(c, hwCrc, k, raw) == Ok(P.Reaction(P.Ready(k), Some(BitOriented(LevelBytes(c.uid, k).value))))
    ensures |data| > 2 && |data| != 7 && data[0] == [0x93, 0x95, 0x97][k] && data[1] == 0x70 ==>
              P.OnReady(c, hwCrc, k, Crc.Sealed(hwCrc, data)) == Ok(P.Reaction(P.Ready(k), None))
    ensures raw != [0x26] && raw != [0x52] ==> P.OnIdle(c, raw) == P.Reaction(P.Idle, None)
  {
    SealedIsCarried(data, hwCrc, hwCrc);
    var sealed := Crc.Sealed(hwCrc, data);
    if |data| > 2 {
      assert sealed[0] == sealed[..|data|][0] && sealed[1] == sealed[..|data|][1];
    }
    hide Crc.Sealed, P.Strip, LevelBytes, SakByte;
  }

  // ── RATS and ATS ────────────────────────────────────────────────────────

  lemma RatsCarried(fsdi: FrameSize, cid: Cid, readerHw: bool, cardHw: bool)
    ensures var data := [0xe0, RatsByte(RatsParam(fsdi, cid))];
            && Carried(PcdLayer.RatsFrame(readerHw, fsdi, cid), readerHw, cardHw) == Some(Crc.Sealed(cardHw, data))
            && P.Strip(cardHw, Crc.Sealed(cardHw, data)) == Ok(data)
            && |Crc.Sealed(cardHw, data)| >= 2 && Crc.Sealed(cardHw, data)[0] == 0xe0
  {
    hide RatsByte, Carried;
    var data := [0xe0, RatsByte(RatsParam(fsdi, cid))];
    SealedIsCarried(data, readerHw, cardHw);
    assert Crc.Sealed(cardHw, data)[0] == Crc.Sealed(cardHw, data)[..|data|][0];
  }

  /** What the reader makes of an ATS body. */
  lemma AtsCarried(body: seq<byte>, cardHw: bool, readerHw: bool)
    ensures PcdLayer.AtsHeard(readerHw, Carried(Standard(Crc.Sealed(cardHw, body)), cardHw, readerHw))
         == var ats := AnswerToSelect.Parse(body);
            if ats.Ok? then Ok(ats.value) else Err(PcdLayer.ProtocolError(ats.error))
  {
    hide Carried, AnswerToSelect.Parse;
    SealedIsCarried(body, cardHw, readerHw);
  }

  /** RATS and ATS give both sides the same frame sizes, whoever does the CRC; the reader
      rejects the ATS exactly when it is too long for its length byte. */
  lemma RatsSettles(c: P.Config, s: P.Settled, fsdi: FrameSize, cid: Cid, readerHw: bool, cardHw: bool)
    requires c.ats.Some?
    requires AnswerToSelect.MeaningfulBits(c.ats.value)
    ensures var raw := Carried(PcdLayer.RatsFrame(readerHw, fsdi, cid), readerHw, cardHw);
            raw.Some? &&
            var (n, reply, outcome) := P.OnActive(c, cardHw, s, raw.value);
            && outcome.Ok? && reply.Some?
            && n == P.Settled(P.InProtocol, SizeOf(fsdi),
                              Handler(Role.Picc, if P.CidSupported(c) then Some(cid) else None, 1, [], s.h.limits,
                                      NO_COUNTS))
            && var heard := PcdLayer.AtsHeard(readerHw, Carried(reply.value, cardHw, readerHw));
               && (heard.Ok? <==> |AnswerToSelect.Body(c.ats.value)| <= 254)
               && (heard.Ok? ==> heard.value == AnswerToSelect.Received(c.ats.value)
                                 && SizeOf(heard.value.format.fsci) == c.Fsc() >= 16 && SizeOf(fsdi) >= 16)
  {
    hide Carried, RatsByte, P.Strip, Crc.Sealed, AnswerToSelect.Print, AnswerToSelect.Parse, PcdLayer.AtsHeard, RatsOf;
    hide P.CidSupported;
    var a := c.ats.value;
    RatsCarried(fsdi, cid, readerHw, cardHw);
    RatsRoundTrip(RatsParam(fsdi, cid));
    AtsCarried(AnswerToSelect.Print(a), cardHw, readerHw);
    if |AnswerToSelect.Body(a)| <= 254 {
      AnswerToSelect.AtsRoundTrip(a);
    } else {
      LongAtsFails(a);
    }
  }

  lemma LongAtsFails(a: AnswerToSelect.Ats)
    requires |AnswerToSelect.Body(a)| > 254
    ensures AnswerToSelect.Parse(AnswerToSelect.Print(a)).Err?
  {
    AnswerToSelect.LengthBound(AnswerToSelect.Print(a)[0]);
    hide AnswerToSelect.FormatOf, AnswerToSelect.TbOf, AnswerToSelect.TaBits, AnswerToSelect.TcBits;
    hide AnswerToSelect.Body;
  }

  /** HLTA halts a selected card, without an answer. */
  lemma HltaHalts(c: P.Config, hwCrc: bool, s: P.Settled)
    ensures P.OnActive(c, hwCrc, s, Crc.Sealed(hwCrc, [0x50, 0x00])) == (s.(state := P.Halted), None, Ok(()))
  {
    SealedIsCarried([0x50, 0x00], hwCrc, hwCrc);
    var raw := Crc.Sealed(hwCrc, [0x50, 0x00]);
    assert raw[0] == raw[..2][0];
    hide Crc.Sealed, P.Strip;
  }

  /** A card without ISO/IEC 14443-4 fails on RATS, having settled on its frame size. */
  lemma RatsWithoutAts(c: P.Config, s: P.Settled, fsdi: FrameSize, cid: Cid, readerHw: bool, cardHw: bool)
    requires c.ats.None?
    ensures var raw := Carried(PcdLayer.RatsFrame(readerHw, fsdi, cid), readerHw, cardHw);
            raw.Some? &&
            P.OnActive(c, cardHw, s, raw.value)
              == (P.Settled(s.state, SizeOf(fsdi), Handler(Role.Picc, None, 1, [], s.h.limits, NO_COUNTS)),
                  None, Err(Other))
    ensures c.Fsc() == 256
  {
    hide Carried, RatsByte, P.Strip, Crc.Sealed, RatsOf;
    RatsCarried(fsdi, cid, readerHw, cardHw);
    RatsRoundTrip(RatsParam(fsdi, cid));
  }

  /** Whoever checks the CRC itself takes no SELECT, RATS or HLTA, and no SAK or ATS, that
      fails the check. */
  lemma ActivationIsChecked(c: P.Config, s: P.Settled, k: Level, raw: seq<byte>)
    requires |raw| > 2 && Crc.Split(raw).Err?
    ensures raw[0] == [0x93, 0x95, 0x97][k] && raw[1] == 0x70 ==>
              P.OnReady(c, false, k, raw) == Err(Crc.Split(raw).error)
    ensures raw[0] == 0xe0 || raw[0] == 0x50 ==>
              P.OnActive(c, false, s, raw) == (s, None, Err(Crc.Split(raw).error))
    ensures SakHeard(false, Some(raw)) == Err(ProtocolError(Crc.Split(raw).error))
    ensures PcdLayer.AtsHeard(false, Some(raw)) == Err(PcdLayer.ProtocolError(Crc.Split(raw).error))
  {
    hide Crc.Split;
  }
}
