/**
 CRC_A, section 6.1.6 of ISO/IEC 14443-3. `CrcA` is the byte-and-bit loop on a
 16-bit word. `Register` is the bit-serial shift register it stands for: sixteen
 cells, fed with the bits of a frame in the order they go on the air (least
 significant bit of each byte first).
 */
module Crc {
  import opened Wire

  // ── The bit-serial register ─────────────────────────────────────────────

  type Cells = r: seq<bool> | |r| == 16 witness ZERO

  const ZERO: seq<bool> := [false, false, false, false, false, false, false, false,
                            false, false, false, false, false, false, false, false]

  /** 0x6363, cell 0 first. */
  const PRESET: Cells := [true, true, false, false, false, true, true, false,
                          true, true, false, false, false, true, true, false]

  /** The cells the feedback reaches: 0x8408. */
  predicate Tapped(i: int) {
    i == 3 || i == 10 || i == 15
  }

  /** One clock: move every cell down and feed cell 0 back. */
  function Clock(r: Cells): Cells {
    seq(16, i requires 0 <= i < 16 => (i < 15 && r[i + 1]) != (r[0] && Tapped(i)))
  }

  /** Mix up to 16 bits into the cells, the first bit into cell 0. */
  function Mix(r: Cells, bits: seq<bool>): Cells {
    seq(16, i requires 0 <= i < 16 => r[i] != (i < |bits| && bits[i]))
  }

  function Register(r: Cells, bits: seq<bool>): Cells {
    if bits == [] then r else Clock(Mix(Register(r, bits[..|bits| - 1]), [bits[|bits| - 1]]))
  }

  function ByteBits(b: byte): (bits: seq<bool>)
    ensures |bits| == 8
  {
    [b & 0x01 != 0, b & 0x02 != 0, b & 0x04 != 0, b & 0x08 != 0,
     b & 0x10 != 0, b & 0x20 != 0, b & 0x40 != 0, b & 0x80 != 0]
  }

  function Pack(bits: seq<bool>): byte
    requires |bits| == 8
  {
    (if bits[0] then 0x01 else 0) | (if bits[1] then 0x02 else 0) |
    (if bits[2] then 0x04 else 0) | (if bits[3] then 0x08 else 0) |
    (if bits[4] then 0x10 else 0) | (if bits[5] then 0x20 else 0) |
    (if bits[6] then 0x40 else 0) | (if bits[7] then 0x80 else 0)
  }

  /** The bits of a frame in transmission order. */
  function Bits(data: seq<byte>): (bits: seq<bool>)
    ensures |bits| == 8 * |data|
  {
    if data == [] then [] else Bits(data[..|data| - 1]) + ByteBits(data[|data| - 1])
  }

  function CrcOf(data: seq<byte>): Cells {
    Register(PRESET, Bits(data))
  }

  /** The epilogue: the low eight cells, then the high eight. */
  function Epilogue(r: Cells): seq<byte> {
    [Pack(r[..8]), Pack(r[8..])]
  }

  function Append(data: seq<byte>): seq<byte> {
    data + Epilogue(CrcOf(data))
  }

  /** The bytes handed to a transceiver for the data of a standard frame. */
  function Sealed(hwCrc: bool, data: seq<byte>): seq<byte> {
    if hwCrc then data else Append(data)
  }

  function Split(frame: seq<byte>): Result<seq<byte>, TypeAError> {
    if |frame| < 2 then Err(InvalidLength) else
      var data := frame[..|frame| - 2];
      var good := Epilogue(CrcOf(data));
      if frame[|frame| - 2..] == good then Ok(data) else Err(InvalidCrc(good[0], good[1]))
  }

  // ── The code ────────────────────────────────────────────────────────────

  function Bit(c: bv16, i: nat): bool {
    if i == 0 then c & 1 != 0 else Bit(c >> 1, i - 1)
  }

  ghost function Word(c: bv16): Cells {
    seq(16, i requires 0 <= i < 16 => Bit(c, i))
  }

  /** The two CRC_A bytes of `data`, least significant first. */
  method CrcA(data: seq<byte>) returns (lsb: byte, msb: byte)
    ensures [lsb, msb] == Epilogue(CrcOf(data))
  {
    var crc: bv16 := 0x6363;
    WordPreset();
    for i := 0 to |data|
      invariant Word(crc) == CrcOf(data[..i])
    {
      ghost var mixed := Mix(Word(crc), ByteBits(data[i]));
      ghost var before := crc;
      crc := crc ^ (data[i] as bv16);
      WordMix(before, data[i], crc);
      for j := 0 to 8
        invariant Word(crc) == ClockBy(j, mixed)
      {
        before := crc;
        if crc & 0x0001 != 0 {
          crc := (crc >> 1) ^ 0x8408;
        } else {
          crc := crc >> 1;
        }
        WordClock(before, crc);
        ClockByNext(j, mixed);
      }
      assert data[..i + 1][..i] == data[..i];
      RegisterConcat(PRESET, Bits(data[..i]), ByteBits(data[i]));
      RegisterIsClock(CrcOf(data[..i]), ByteBits(data[i]));
    }
    assert data[..|data|] == data;
    lsb, msb := (crc & 0x00FF) as bv8, (crc >> 8) as bv8;
    WordBytes(crc, lsb, msb);
  }

  /** Checks the epilogue of a standard frame and strips it. */
  method SplitCrcA(frame: seq<byte>) returns (r: Result<seq<byte>, TypeAError>)
    ensures r == Split(frame)
  {
    if |frame| < 2 {
      return Err(InvalidLength);
    }
    var data := frame[..|frame| - 2];
    var lsb, msb := CrcA(data);
    if (lsb, msb) != (frame[|frame| - 2], frame[|frame| - 1]) {
      return Err(InvalidCrc(lsb, msb));
    }
    return Ok(data);
  }

  method AppendCrcA(data: seq<byte>) returns (res: seq<byte>)
    ensures res == Append(data)
  {
    var lsb, msb := CrcA(data);
    res := data;
    res := res + [lsb];
    res := res + [msb];
  }

  lemma SplitOfAppend(data: seq<byte>)
    ensures Split(Append(data)) == Ok(data)
  {
    var f := Append(data);
    assert f[..|f| - 2] == data && f[|f| - 2..] == Epilogue(CrcOf(data));
  }

  // ── The word and the cells ──────────────────────────────────────────────
  //
  // Words that are equal for bit-vector reasons are passed as parameters, so
  // that the facts about `Bit` match as written.

  lemma XorShift(c: bv16, d: bv16, e: bv16)
    requires e == c ^ d
    ensures e >> 1 == (c >> 1) ^ (d >> 1)
  {
  }

  lemma XorFirst(c: bv16, d: bv16, e: bv16)
    requires e == c ^ d
    ensures Bit(e, 0) == (Bit(c, 0) != Bit(d, 0))
  {
  }

  lemma XorNext(c: bv16, d: bv16, e: bv16, i: nat)
    requires i > 0
    requires Bit(e >> 1, i - 1) == (Bit(c >> 1, i - 1) != Bit(d >> 1, i - 1))
    ensures Bit(e, i) == (Bit(c, i) != Bit(d, i))
  {
  }

  lemma {:induction false} BitXor(c: bv16, d: bv16, e: bv16, i: nat)
    requires e == c ^ d
    ensures Bit(e, i) == (Bit(c, i) != Bit(d, i))
    decreases i
  {
    if i == 0 {
      XorFirst(c, d, e);
    } else {
      XorShift(c, d, e);
      BitXor(c >> 1, d >> 1, e >> 1, i - 1);
      XorNext(c, d, e, i);
    }
  }

  lemma ShiftFour(c: bv16, d: bv16)
    requires d == c >> 4
    ensures c >> 1 >> 1 >> 1 >> 1 == d
    ensures (c >> 1) & 1 == 0 <==> c & 0x2 == 0
    ensures (c >> 1 >> 1) & 1 == 0 <==> c & 0x4 == 0
    ensures (c >> 1 >> 1 >> 1) & 1 == 0 <==> c & 0x8 == 0
  {
  }

  /** Four bits at a time. */
  lemma BitFour(c: bv16, d: bv16, i: nat)
    requires d == c >> 4
    ensures Bit(c, i + 4) == Bit(d, i)
    ensures Bit(c, 0) == (c & 0x1 != 0)
    ensures Bit(c, 1) == (c & 0x2 != 0)
    ensures Bit(c, 2) == (c & 0x4 != 0)
    ensures Bit(c, 3) == (c & 0x8 != 0)
  {
    ShiftFour(c, d);
    assert Bit(c, i + 4) == Bit(c >> 1, i + 3) == Bit(c >> 1 >> 1, i + 2)
        == Bit(c >> 1 >> 1 >> 1, i + 1) == Bit(c >> 1 >> 1 >> 1 >> 1, i);
    assert Bit(c, 3) == Bit(c >> 1, 2) == Bit(c >> 1 >> 1, 1) == Bit(c >> 1 >> 1 >> 1, 0);
    assert Bit(c, 2) == Bit(c >> 1, 1) == Bit(c >> 1 >> 1, 0);
  }

  lemma {:induction false} BitOfZero(i: nat)
    ensures !Bit(0, i)
  {
    if i > 0 {
      BitOfZero(i - 1);
      assert (0 as bv16) >> 1 == 0;
    }
  }

  lemma {:induction false} BitPastTop(c: bv16)
    ensures !Bit(c, 16)
  {
    var c4, c8, c12, c16 := c >> 4, c >> 8, c >> 12, 0 as bv16;
    BitFour(c, c4, 12);
    BitFour(c4, c8, 8);
    BitFour(c8, c12, 4);
    BitFour(c12, c16, 0);
  }

  lemma WordOfFeedback(i: nat)
    requires i < 16
    ensures Bit(0x8408, i) == Tapped(i)
  {
    BitFour(0x8408, 0x840, if i < 4 then 0 else i - 4);
    BitFour(0x840, 0x84, if i < 8 then 0 else i - 8);
    BitFour(0x84, 0x8, if i < 12 then 0 else i - 12);
    BitFour(0x8, 0, 0);
  }

  lemma WordPreset()
    ensures Word(0x6363) == PRESET
  {
    forall i | 0 <= i < 16
      ensures Bit(0x6363, i) == PRESET[i]
    {
      BitFour(0x6363, 0x636, if i < 4 then 0 else i - 4);
      BitFour(0x636, 0x63, if i < 8 then 0 else i - 8);
      BitFour(0x63, 0x6, if i < 12 then 0 else i - 12);
      BitFour(0x6, 0, 0);
    }
  }

  lemma WordClock(c: bv16, n: bv16)
    requires n == if c & 0x0001 != 0 then (c >> 1) ^ 0x8408 else c >> 1
    ensures Word(n) == Clock(Word(c))
  {
    forall i | 0 <= i < 16
      ensures Bit(n, i) == Clock(Word(c))[i]
    {
      assert Bit(c >> 1, i) == Bit(c, i + 1);
      BitPastTop(c);
      if c & 0x0001 != 0 {
        BitXor(c >> 1, 0x8408, n, i);
        WordOfFeedback(i);
      }
    }
  }

  /** The low eight bits of `c`, where `c4` is `c` shifted by four. */
  ghost predicate LowBits(c: bv16, c4: bv16, bits: seq<bool>)
    requires |bits| == 8
  {
    && (c & 0x1 != 0) == bits[0] && (c & 0x2 != 0) == bits[1]
    && (c & 0x4 != 0) == bits[2] && (c & 0x8 != 0) == bits[3]
    && (c4 & 0x1 != 0) == bits[4] && (c4 & 0x2 != 0) == bits[5]
    && (c4 & 0x4 != 0) == bits[6] && (c4 & 0x8 != 0) == bits[7]
  }

  lemma NarrowTests(c: bv16, c4: bv16, b: byte)
    requires c & 0x00FF == b as bv16 && c4 == c >> 4
    ensures LowBits(c, c4, ByteBits(b))
  {
  }

  lemma BitOfLow(c: bv16, c4: bv16, bits: seq<bool>, i: nat)
    requires |bits| == 8 && LowBits(c, c4, bits) && c4 == c >> 4 && i < 8
    ensures Bit(c, i) == bits[i]
  {
    if i < 4 {
      BitFour(c, c4, 0);
    } else {
      BitFour(c, c4, i - 4);
      BitFour(c4, c4 >> 4, 0);
    }
  }

  lemma BitOfNarrow(c: bv16, c4: bv16, b: byte, i: nat)
    requires c & 0x00FF == b as bv16 && c4 == c >> 4 && i < 8
    ensures Bit(c, i) == ByteBits(b)[i]
  {
    NarrowTests(c, c4, b);
    BitOfLow(c, c4, ByteBits(b), i);
  }

  lemma Narrow(b: byte, w: bv16)
    requires w == b as bv16
    ensures w & 0x00FF == b as bv16
    ensures w >> 8 == 0
  {
  }

  lemma BitOfByte(b: byte, w: bv16, i: nat)
    requires w == b as bv16 && i < 16
    ensures Bit(w, i) == (i < 8 && ByteBits(b)[i])
  {
    Narrow(b, w);
    if i < 8 {
      BitOfNarrow(w, w >> 4, b, i);
    } else {
      BitSkip(w, 0, i - 8);
      BitOfZero(i - 8);
    }
  }

  lemma BitSkip(c: bv16, d: bv16, i: nat)
    requires d == c >> 8
    ensures Bit(c, i + 8) == Bit(d, i)
  {
    var m := c >> 4;
    BitFour(c, m, i + 4);
    BitFour(m, d, i);
  }

  lemma WordMix(c: bv16, b: byte, d: bv16)
    requires d == c ^ (b as bv16)
    ensures Word(d) == Mix(Word(c), ByteBits(b))
  {
    forall i | 0 <= i < 16
      ensures Bit(d, i) == Mix(Word(c), ByteBits(b))[i]
    {
      BitXor(c, b as bv16, d, i);
      BitOfByte(b, b as bv16, i);
    }
  }

  lemma Halves(c: bv16, lsb: byte, msb: byte)
    requires lsb == (c & 0x00FF) as bv8 && msb == (c >> 8) as bv8
    ensures c & 0x00FF == lsb as bv16 && (c >> 8) & 0x00FF == msb as bv16
  {
  }

  lemma WordBytes(c: bv16, lsb: byte, msb: byte)
    requires lsb == (c & 0x00FF) as bv8 && msb == (c >> 8) as bv8
    ensures [lsb, msb] == Epilogue(Word(c))
  {
    Halves(c, lsb, msb);
    var d := c >> 8;
    forall i | 0 <= i < 8
      ensures Word(c)[..8][i] == ByteBits(lsb)[i] && Word(c)[8..][i] == ByteBits(msb)[i]
    {
      BitOfNarrow(c, c >> 4, lsb, i);
      BitSkip(c, d, i);
      BitOfNarrow(d, d >> 4, msb, i);
    }
    assert Word(c)[..8] == ByteBits(lsb) && Word(c)[8..] == ByteBits(msb);
    PackByteBits(lsb);
    PackByteBits(msb);
  }

  lemma PackByteBits(b: byte)
    ensures Pack(ByteBits(b)) == b
  {
  }

  lemma ByteBitsPack(bits: seq<bool>)
    requires |bits| == 8
    ensures ByteBits(Pack(bits)) == bits
  {
  }

  // ── Clocking ────────────────────────────────────────────────────────────

  ghost function ClockBy(n: nat, r: Cells): Cells {
    if n == 0 then r else ClockBy(n - 1, Clock(r))
  }

  lemma {:induction false} ClockByNext(n: nat, r: Cells)
    ensures ClockBy(n + 1, r) == Clock(ClockBy(n, r))
  {
    if n > 0 {
      ClockByNext(n - 1, Clock(r));
    }
  }

  lemma {:induction false} RegisterConcat(r: Cells, a: seq<bool>, b: seq<bool>)
    ensures Register(r, a + b) == Register(Register(r, a), b)
  {
    if b == [] {
      assert a + b == a;
    } else {
      assert (a + b)[..|a + b| - 1] == a + b[..|b| - 1];
      RegisterConcat(r, a, b[..|b| - 1]);
    }
  }

  ghost function Flip(r: Cells, k: nat, bit: bool): Cells {
    seq(16, i requires 0 <= i < 16 => r[i] != (i == k && bit))
  }

  /** A bit mixed in at cell `k` arrives in cell 0 after `k` clocks. */
  lemma {:induction false} FlipTravels(k: nat, r: Cells, bit: bool)
    requires k <= 15
    ensures ClockBy(k, Flip(r, k, bit)) == Flip(ClockBy(k, r), 0, bit)
  {
    if k > 0 {
      assert Clock(Flip(r, k, bit)) == Flip(Clock(r), k - 1, bit);
      FlipTravels(k - 1, Clock(r), bit);
    }
  }

  /** Feeding up to 16 bits is one mix followed by as many clocks. */
  lemma {:induction false} RegisterIsClock(r: Cells, bits: seq<bool>)
    requires |bits| <= 16
    ensures Register(r, bits) == ClockBy(|bits|, Mix(r, bits))
  {
    if bits == [] {
      assert Mix(r, bits) == r;
    } else {
      var n := |bits| - 1;
      RegisterIsClock(r, bits[..n]);
      assert Mix(r, bits) == Flip(Mix(r, bits[..n]), n, bits[n]);
      FlipTravels(n, Mix(r, bits[..n]), bits[n]);
      var fed := Register(r, bits[..n]);
      assert Mix(fed, [bits[n]]) == Flip(fed, 0, bits[n]);
      ClockByNext(n, Mix(r, bits));
    }
  }
}
