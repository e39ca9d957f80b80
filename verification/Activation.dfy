/**
 The reader finds a card and resolves its UID (section 6.3 of ISO/IEC 14443-3): REQA or
 WUPA, then anticollision and SELECT for up to three cascade levels.
 */
module Activation {
  import opened Wire
  import opened Codings
  import opened Commands
  import opened Uids
  import PcdLayer
  import Crc

  datatype ActivationError = TransceiverError | ProtocolError(error: TypeAError)

  datatype Found = Found(atqa: AtqA, sak: Sak, uid: seq<byte>)

  /** `parts` are the five bytes of each level so far; the last of them is the one being
      selected. */
  datatype Selecting =
    | Waking
    | Resolving(atqa: AtqA, parts: seq<seq<byte>>)
    | Choosing(atqa: AtqA, parts: seq<seq<byte>>)
    | Chosen(found: Found)
    | Lost(error: ActivationError)

  predicate FiveEach(parts: seq<seq<byte>>) {
    forall i :: 0 <= i < |parts| ==> |parts[i]| == 5
  }

  predicate Proper(s: Selecting) {
    match s
    case Resolving(_, parts) => |parts| <= 2 && FiveEach(parts)
    case Choosing(_, parts) => 1 <= |parts| <= 3 && FiveEach(parts)
    case _ => true
  }

  predicate Over(s: Selecting) {
    s.Chosen? || s.Lost?
  }

  function WakeByte(halted: bool): byte {
    if halted then 0x52 else 0x26
  }

  function Says(s: Selecting, halted: bool, hwCrc: bool): Frame
    requires Proper(s) && !Over(s)
  {
    match s
    case Waking => Short([WakeByte(halted)])
    case Resolving(_, parts) => BitOriented([Sel(|parts|), NVB_ANTICOLLISION])
    case Choosing(_, parts) => Standard(Crc.Sealed(hwCrc, [Sel(|parts| - 1), NVB_SELECT] + parts[|parts| - 1]))
  }

  /** The five bytes of a level. */
  function PartOf(answer: Option<seq<byte>>): Result<seq<byte>, ActivationError> {
    if answer.None? then Err(TransceiverError)
    else if |answer.value| != 5 then Err(ProtocolError(InvalidLength))
    else if !BccHolds(answer.value) then Err(ProtocolError(InvalidBcc))
    else Ok(answer.value)
  }

  function SakFrame(hwCrc: bool, raw: seq<byte>): Result<Sak, TypeAError> {
    var data :- if hwCrc then Ok(raw) else Crc.Split(raw);
    if |data| != 1 then Err(InvalidLength) else Ok(SakOf(data[0]))
  }

  function SakHeard(hwCrc: bool, answer: Option<seq<byte>>): Result<Sak, ActivationError> {
    if answer.None? then Err(TransceiverError) else
      var sak := SakFrame(hwCrc, answer.value);
      if sak.Ok? then Ok(sak.value) else Err(ProtocolError(sak.error))
  }

  function AtqaHeard(answer: Option<seq<byte>>): Result<AtqA, ActivationError> {
    if answer.None? then Err(TransceiverError) else
      var atqa := AtqaOf(answer.value);
      if atqa.Ok? then Ok(atqa.value) else Err(ProtocolError(atqa.error))
  }

  function Hears(s: Selecting, hwCrc: bool, answer: Option<seq<byte>>): (n: Selecting)
    requires Proper(s)
    ensures Proper(n)
  {
    match s
    case Waking =>
      var atqa := AtqaHeard(answer);
      if atqa.Err? then Lost(atqa.error) else Resolving(atqa.value, [])
    case Resolving(atqa, parts) =>
      var part := PartOf(answer);
      if part.Err? then Lost(part.error) else Choosing(atqa, parts + [part.value])
    case Choosing(atqa, parts) =>
      var sak := SakHeard(hwCrc, answer);
      if sak.Err? then Lost(sak.error)
      else if sak.value.uidComplete then Chosen(Found(atqa, sak.value, UidOf(parts)))
      else if |parts| == 3 then Lost(ProtocolError(Other))
      else Resolving(atqa, parts)
    case _ => s
  }

  /** The machine after the first `n` answers of a script. */
  function Run(s: Selecting, hwCrc: bool, script: Script, n: nat): (e: Selecting)
    requires Proper(s)
    ensures Proper(e)
  {
    if n == 0 then s else Hears(Run(s, hwCrc, script, n - 1), hwCrc, Scripted(script, n - 1))
  }

  /** The frames it sends, one before each answer. */
  function Sent(s: Selecting, halted: bool, hwCrc: bool, script: Script, n: nat): seq<Frame>
    requires Proper(s)
  {
    if n == 0 then [] else
      var r := Run(s, hwCrc, script, n - 1);
      Sent(s, halted, hwCrc, script, n - 1) + if Over(r) then [] else [Says(r, halted, hwCrc)]
  }

  /** The first `n` answers off the script `from` bring the machine to `e` and leave the
      script `to`; it has not ended before the last of them, and sends after the frames
      `before`. */
  ghost predicate Walk(halted: bool, hwCrc: bool, n: nat, from: Script, to: Script, e: Selecting,
                       before: seq<Frame>, sent: seq<Frame>)
  {
    && e == Run(Waking, hwCrc, from, n)
    && to == Unread(from, n)
    && sent == before + Sent(Waking, halted, hwCrc, from, n)
    && (n > 0 ==> !Over(Run(Waking, hwCrc, from, n - 1)))
  }

  lemma WalkNone(halted: bool, hwCrc: bool, script: Script, sent: seq<Frame>)
    ensures Walk(halted, hwCrc, 0, script, script, Waking, sent, sent)
  {
  }

  lemma WalkNext(halted: bool, hwCrc: bool, n: nat, from: Script, via: Script, e: Selecting,
                 before: seq<Frame>, between: seq<Frame>)
    requires Walk(halted, hwCrc, n, from, via, e, before, between) && Proper(e) && !Over(e)
    ensures Walk(halted, hwCrc, n + 1, from, Unread(via, 1), Hears(e, hwCrc, Scripted(via, 0)), before,
                 between + [Says(e, halted, hwCrc)])
  {
    hide Run, Sent;
    assert Scripted(via, 0) == Scripted(from, n);
    assert Unread(via, 1) == Unread(from, n + 1);
    hide Hears, Says, Scripted, Unread;
    RunNext(halted, hwCrc, from, n);
  }

  lemma RunNext(halted: bool, hwCrc: bool, script: Script, n: nat)
    ensures var e := Run(Waking, hwCrc, script, n);
            && Run(Waking, hwCrc, script, n + 1) == Hears(e, hwCrc, Scripted(script, n))
            && (!Over(e) ==>
                  Sent(Waking, halted, hwCrc, script, n + 1)
                  == Sent(Waking, halted, hwCrc, script, n) + [Says(e, halted, hwCrc)])
  {
    hide Hears, Says, Scripted;
  }

  method DoAnticollision(t: PcdLayer.PcdTransceiver, level: Level) returns (r: Result<seq<byte>, ActivationError>)
    modifies t
    ensures t.sent == old(t.sent) + [BitOriented([Sel(level), NVB_ANTICOLLISION])]
    ensures t.answers == Unread(old(t.answers), 1)
    ensures r == PartOf(Scripted(old(t.answers), 0))
  {
    var resp := t.Transceive(BitOriented([Sel(level), NVB_ANTICOLLISION]));
    if resp.None? {
      return Err(TransceiverError);
    }
    if |resp.value| != 5 {
      return Err(ProtocolError(InvalidLength));
    }
    if !BccHolds(resp.value) {
      return Err(ProtocolError(InvalidBcc));
    }
    return Ok(resp.value);
  }

  method DoSelect(t: PcdLayer.PcdTransceiver, level: Level, part: seq<byte>, hwCrc: bool)
    returns (r: Result<Sak, ActivationError>)
    modifies t
    ensures t.sent == old(t.sent) + [Standard(Crc.Sealed(hwCrc, [Sel(level), NVB_SELECT] + part))]
    ensures t.answers == Unread(old(t.answers), 1)
    ensures r == SakHeard(hwCrc, Scripted(old(t.answers), 0))
  {
    var data := [Sel(level), NVB_SELECT] + part;
    if hwCrc {
      var resp := t.Transceive(Standard(data));
      if resp.None? {
        return Err(TransceiverError);
      }
      if |resp.value| != 1 {
        return Err(ProtocolError(InvalidLength));
      }
      return Ok(SakOf(resp.value[0]));
    } else {
      var cmd := Crc.AppendCrcA(data);
      var resp := t.Transceive(Standard(cmd));
      if resp.None? {
        return Err(TransceiverError);
      }
      var stripped := Crc.SplitCrcA(resp.value);
      if stripped.Err? {
        return Err(ProtocolError(stripped.error));
      }
      if |stripped.value| != 1 {
        return Err(ProtocolError(InvalidLength));
      }
      return Ok(SakOf(stripped.value[0]));
    }
  }

  function Ended(r: Result<Found, ActivationError>): Selecting {
    if r.Ok? then Chosen(r.value) else Lost(r.error)
  }

  /** One cascade level of `DoActivate`: anticollision, SELECT, and the UID if that was the
      last level. */
  method DoLevel(t: PcdLayer.PcdTransceiver, atqa: AtqA, parts: seq<seq<byte>>, halted: bool, hwCrc: bool,
                 ghost n: nat, ghost from: Script, ghost before: seq<Frame>)
    returns (r: Option<Result<Found, ActivationError>>, more: seq<seq<byte>>, ghost m: nat)
    requires |parts| <= 2 && FiveEach(parts)
    requires Walk(halted, hwCrc, n, from, t.answers, Resolving(atqa, parts), before, t.sent)
    modifies t
    ensures Walk(halted, hwCrc, m, from, t.answers,
                 if r.Some? then Ended(r.value)
                 else if |more| == 3 then Lost(ProtocolError(Other)) else Resolving(atqa, more),
                 before, t.sent)
    ensures r.None? ==> |more| == |parts| + 1 && FiveEach(more)
  {
    hide Walk, BccHolds, AtqaOf, SakOf;
    WalkNext(halted, hwCrc, n, from, t.answers, Resolving(atqa, parts), before, t.sent);
    var part := DoAnticollision(t, |parts|);
    if part.Err? {
      return Some(Err(part.error)), parts, n + 1;
    }
    more := parts + [part.value];
    WalkNext(halted, hwCrc, n + 1, from, t.answers, Choosing(atqa, more), before, t.sent);
    var sak := DoSelect(t, |parts|, part.value, hwCrc);
    if sak.Err? {
      return Some(Err(sak.error)), more, n + 2;
    }
    if sak.value.uidComplete {
      var uid := BuildUid(more);
      return Some(Ok(Found(atqa, sak.value, uid))), more, n + 2;
    }
    return None, more, n + 2;
  }

  /** Wakes a card with REQA, or with WUPA if it may be halted, and selects it. */
  method DoActivate(t: PcdLayer.PcdTransceiver, halted: bool, hwCrc: bool)
    returns (r: Result<Found, ActivationError>, ghost n: nat)
    modifies t
    ensures Walk(halted, hwCrc, n, old(t.answers), t.answers, Ended(r), old(t.sent), t.sent)
  {
    hide Walk, AtqaOf;
    ghost var from, before := t.answers, t.sent;
    WalkNone(halted, hwCrc, from, before);
    WalkNext(halted, hwCrc, 0, from, from, Waking, before, before);
    var resp := t.Transceive(Short([WakeByte(halted)]));
    if resp.None? {
      return Err(TransceiverError), 1;
    }
    var atqa := AtqaOf(resp.value);
    if atqa.Err? {
      return Err(ProtocolError(atqa.error)), 1;
    }
    var done, parts;
    done, parts, n := DoLevel(t, atqa.value, [], halted, hwCrc, 1, from, before);
    if done.Some? {
      return done.value, n;
    }
    done, parts, n := DoLevel(t, atqa.value, parts, halted, hwCrc, n, from, before);
    if done.Some? {
      return done.value, n;
    }
    done, parts, n := DoLevel(t, atqa.value, parts, halted, hwCrc, n, from, before);
    if done.Some? {
      return done.value, n;
    }
    return Err(ProtocolError(Other)), n;
  }
}
