/** A UID cut into cascade levels, as the card does, and put together again, as the reader
    does (section 6.5.4 of ISO/IEC 14443-3). */
module Uids {
  import opened Wire
  import opened Codings
  import opened Commands

  /** Single, double or triple size. */
  type Uid = b: seq<byte> | |b| == 4 || |b| == 7 || |b| == 10 witness [0, 0, 0, 0]

  function Levels(uid: Uid): nat {
    if |uid| == 4 then 1 else if |uid| == 7 then 2 else 3
  }

  function SizeOfUid(uid: Uid): UidSize {
    if |uid| == 4 then Single else if |uid| == 7 then Double else Triple
  }

  /** What the card answers to anticollision at one level: the next four bytes when they
      are the last, the cascade tag and the next three otherwise; and the check byte. */
  function LevelBytes(uid: Uid, level: nat): Result<seq<byte>, TypeAError> {
    if level >= Levels(uid) then Err(Other)
    else
      var at := 3 * level;
      if level + 1 == Levels(uid) then Ok(WithBcc(uid[at], uid[at + 1], uid[at + 2], uid[at + 3]))
      else Ok(WithBcc(CASCADE_TAG, uid[at], uid[at + 1], uid[at + 2]))
  }

  /** The bytes behind the cascade tags of the first `n` parts. */
  function Middles(parts: seq<seq<byte>>, n: nat): seq<byte>
    requires n <= |parts| && forall i :: 0 <= i < |parts| ==> |parts[i]| == 5
  {
    if n == 0 then [] else Middles(parts, n - 1) + parts[n - 1][1..4]
  }

  /** The UID the reader makes of the parts it has selected. */
  function UidOf(parts: seq<seq<byte>>): seq<byte>
    requires parts != [] && forall i :: 0 <= i < |parts| ==> |parts[i]| == 5
  {
    Middles(parts, |parts| - 1) + parts[|parts| - 1][..4]
  }

  method BuildUid(parts: seq<seq<byte>>) returns (uid: seq<byte>)
    requires parts != [] && forall i :: 0 <= i < |parts| ==> |parts[i]| == 5
    ensures uid == UidOf(parts)
  {
    uid := [];
    for i := 0 to |parts|
      invariant uid == if i < |parts| then Middles(parts, i) else UidOf(parts)
    {
      if i < |parts| - 1 {
        uid := uid + parts[i][1..4];
      } else {
        uid := uid + parts[i][0..4];
      }
    }
  }

  function Parts(uid: Uid, n: nat): seq<seq<byte>>
    requires n <= Levels(uid)
  {
    seq(n, i requires 0 <= i < n => LevelBytes(uid, i).value)
  }

  /** The parts the card sends check out, and are the whole UID again. */
  lemma CascadeRebuilds(uid: Uid)
    ensures forall i :: 0 <= i < Levels(uid) ==>
              LevelBytes(uid, i).Ok? && |LevelBytes(uid, i).value| == 5 && BccHolds(LevelBytes(uid, i).value)
    ensures UidOf(Parts(uid, Levels(uid))) == uid
  {
    forall i | 0 <= i < Levels(uid)
      ensures LevelBytes(uid, i).Ok? && |LevelBytes(uid, i).value| == 5 && BccHolds(LevelBytes(uid, i).value)
    {
      LevelChecks(uid, i);
    }
    var parts := Parts(uid, Levels(uid));
    assert Middles(parts, 0) == [];
    if |parts| > 1 {
      assert Middles(parts, 1) == Middles(parts, 0) + parts[0][1..4];
      assert parts[0][1..4] == uid[0..3];
    }
    if |parts| > 2 {
      assert Middles(parts, 2) == Middles(parts, 1) + parts[1][1..4];
      assert parts[1][1..4] == uid[3..6];
    }
    var at := 3 * (|parts| - 1);
    assert parts[|parts| - 1][..4] == uid[at..at + 4];
  }

  lemma LevelChecks(uid: Uid, level: nat)
    requires level < Levels(uid)
    ensures LevelBytes(uid, level).Ok? && |LevelBytes(uid, level).value| == 5 && BccHolds(LevelBytes(uid, level).value)
  {
    hide BccHolds;
    var at := 3 * level;
    if level + 1 == Levels(uid) {
      BccOfFour(uid[at], uid[at + 1], uid[at + 2], uid[at + 3]);
    } else {
      BccOfFour(CASCADE_TAG, uid[at], uid[at + 1], uid[at + 2]);
    }
  }

  /** The five bytes of every level xor to nothing, and those before the last start with the
      cascade tag. */
  lemma LevelXors(uid: Uid, level: nat)
    requires level < Levels(uid)
    ensures var v := LevelBytes(uid, level).value;
            && |v| == 5 && v[0] ^ v[1] ^ v[2] ^ v[3] ^ v[4] == 0
            && (level + 1 < Levels(uid) ==> v[0] == 0x88)
  {
    LevelChecks(uid, level);
  }
}
