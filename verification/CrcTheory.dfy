/**
 What CRC_A is worth: the accepted frames are those with residue zero, every error
 burst of at most sixteen bits is caught, and the register is the remainder of a
 polynomial division by x^16 + x^12 + x^5 + 1.
 */
module CrcTheory {
  import opened Wire
  import opened Crc

  ghost predicate Accepts(frame: seq<byte>) {
    Split(frame).Ok?
  }

  // ── The register as a permutation ───────────────────────────────────────

  lemma ClockInjective(r: Cells, s: Cells)
    requires Clock(r) == Clock(s)
    ensures r == s
  {
    assert r[0] == Clock(r)[15] == Clock(s)[15] == s[0];
    forall i | 1 <= i < 16
      ensures r[i] == s[i]
    {
      assert Clock(r)[i - 1] == Clock(s)[i - 1];
    }
  }

  lemma {:induction false} ClockByInjective(n: nat, r: Cells, s: Cells)
    requires ClockBy(n, r) == ClockBy(n, s)
    ensures r == s
  {
    if n > 0 {
      ClockByInjective(n - 1, Clock(r), Clock(s));
      ClockInjective(r, s);
    }
  }

  lemma {:induction false} ClockByZero(n: nat)
    ensures ClockBy(n, ZERO) == ZERO
  {
    if n > 0 {
      assert Clock(ZERO) == ZERO;
      ClockByZero(n - 1);
    }
  }

  /** The clock before `Clock`. */
  ghost function Unclock(r: Cells): Cells {
    seq(16, i requires 0 <= i < 16 => if i == 0 then r[15] else r[i - 1] != (r[15] && Tapped(i - 1)))
  }

  lemma ClockUnclock(r: Cells)
    ensures Clock(Unclock(r)) == r
  {
  }

  ghost function UnclockBy(n: nat, r: Cells): Cells {
    if n == 0 then r else UnclockBy(n - 1, Unclock(r))
  }

  lemma {:induction false} ClockByUnclockBy(n: nat, r: Cells)
    ensures ClockBy(n, UnclockBy(n, r)) == r
  {
    if n > 0 {
      ClockByUnclockBy(n - 1, Unclock(r));
      ClockByNext(n - 1, UnclockBy(n, r));
      ClockUnclock(r);
    }
  }

  /** The same bits keep two different registers apart. */
  lemma {:induction false} RegistersStayApart(r: Cells, s: Cells, bits: seq<bool>)
    requires Register(r, bits) == Register(s, bits)
    ensures r == s
  {
    if bits != [] {
      var n := |bits| - 1;
      var p, q := Register(r, bits[..n]), Register(s, bits[..n]);
      ClockInjective(Mix(p, [bits[n]]), Mix(q, [bits[n]]));
      MixCancels(p, q, [bits[n]]);
      RegistersStayApart(r, s, bits[..n]);
    }
  }

  lemma MixCancels(r: Cells, s: Cells, bits: seq<bool>)
    requires Mix(r, bits) == Mix(s, bits)
    ensures r == s
  {
    forall i | 0 <= i < 16
      ensures r[i] == s[i]
    {
      assert Mix(r, bits)[i] == Mix(s, bits)[i];
    }
  }

  lemma MixInjective(r: Cells, a: seq<bool>, b: seq<bool>)
    requires |a| == |b| <= 16 && Mix(r, a) == Mix(r, b)
    ensures a == b
  {
    forall i | 0 <= i < |a|
      ensures a[i] == b[i]
    {
      assert Mix(r, a)[i] == Mix(r, b)[i];
    }
  }

  /** Different words of up to sixteen bits never reach the same register. */
  lemma WordsStayApart(r: Cells, a: seq<bool>, b: seq<bool>)
    requires |a| == |b| <= 16
    requires Register(r, a) == Register(r, b)
    ensures a == b
  {
    RegisterIsClock(r, a);
    RegisterIsClock(r, b);
    ClockByInjective(|a|, Mix(r, a), Mix(r, b));
    MixInjective(r, a, b);
  }

  // ── Bits of frames ──────────────────────────────────────────────────────

  lemma {:induction false} BitsConcat(a: seq<byte>, b: seq<byte>)
    ensures Bits(a + b) == Bits(a) + Bits(b)
  {
    if b == [] {
      assert a + b == a;
    } else {
      var n := |b| - 1;
      assert (a + b)[..|a + b| - 1] == a + b[..n];
      BitsConcat(a, b[..n]);
    }
  }

  lemma BitsOfPair(x: byte, y: byte)
    ensures Bits([x, y]) == ByteBits(x) + ByteBits(y)
  {
    assert [x, y][..1] == [x];
    assert [x][..0] == [];
  }

  lemma ByteBitsInjective(x: byte, y: byte)
    requires ByteBits(x) == ByteBits(y)
    ensures x == y
  {
    PackByteBits(x);
    PackByteBits(y);
  }

  lemma BitsParts(f: seq<byte>)
    requires f != []
    ensures Bits(f)[..8 * (|f| - 1)] == Bits(f[..|f| - 1])
    ensures Bits(f)[8 * (|f| - 1)..] == ByteBits(f[|f| - 1])
  {
  }

  lemma {:induction false} BitsInjective(f: seq<byte>, g: seq<byte>)
    requires Bits(f) == Bits(g)
    ensures f == g
    decreases |f|
  {
    if f != [] {
      var n := |f| - 1;
      BitsParts(f);
      BitsParts(g);
      BitsInjective(f[..n], g[..n]);
      ByteBitsInjective(f[n], g[n]);
      assert f == f[..n] + [f[n]] && g == g[..n] + [g[n]];
    }
  }

  lemma EpilogueBits(r: Cells, x: byte, y: byte)
    ensures [x, y] == Epilogue(r) <==> ByteBits(x) + ByteBits(y) == r
  {
    ByteBitsPack(r[..8]);
    ByteBitsPack(r[8..]);
    PackByteBits(x);
    PackByteBits(y);
    assert r == r[..8] + r[8..];
    if ByteBits(x) + ByteBits(y) == r {
      assert ByteBits(x) == r[..8] && ByteBits(y) == r[8..];
    }
  }

  // ── Residue ─────────────────────────────────────────────────────────────

  lemma WordEmpties(r: Cells, w: Cells)
    ensures Register(r, w) == ZERO <==> w == r
  {
    RegisterIsClock(r, w);
    ClockByZero(16);
    assert Mix(r, r) == ZERO;
    if Register(r, w) == ZERO {
      ClockByInjective(16, Mix(r, w), ZERO);
      MixInjective(r, w, r);
    }
  }

  /** After the two bytes `x`, `y` the register is empty exactly when they were the register. */
  lemma PairEmpties(r: Cells, x: byte, y: byte)
    ensures Register(r, Bits([x, y])) == ZERO <==> [x, y] == Epilogue(r)
  {
    BitsOfPair(x, y);
    WordEmpties(r, ByteBits(x) + ByteBits(y));
    EpilogueBits(r, x, y);
  }

  lemma CrcOfConcat(a: seq<byte>, b: seq<byte>)
    ensures CrcOf(a + b) == Register(CrcOf(a), Bits(b))
  {
    BitsConcat(a, b);
    RegisterConcat(PRESET, Bits(a), Bits(b));
  }

  /** A frame is accepted exactly when it has room for a CRC and leaves the register empty. */
  lemma AcceptsIffResidueZero(frame: seq<byte>)
    ensures Accepts(frame) <==> |frame| >= 2 && CrcOf(frame) == ZERO
  {
    if |frame| >= 2 {
      var n := |frame| - 2;
      assert frame == frame[..n] + [frame[n], frame[n + 1]];
      assert frame[n..] == [frame[n], frame[n + 1]];
      CrcOfConcat(frame[..n], frame[n..]);
      PairEmpties(CrcOf(frame[..n]), frame[n], frame[n + 1]);
    }
  }

  /** Splitting accepts what appending produced and nothing else. */
  lemma SplitIffAppended(frame: seq<byte>, data: seq<byte>)
    ensures Split(frame) == Ok(data) <==> frame == Append(data)
  {
    SplitOfAppend(data);
    if Split(frame) == Ok(data) {
      assert frame == frame[..|frame| - 2] + frame[|frame| - 2..];
    }
  }

  /** A frame that is refused for its CRC is told the right one. */
  lemma RightCrcIsNamed(frame: seq<byte>)
    requires |frame| >= 2 && !Accepts(frame)
    ensures var e := Split(frame).error;
            e.InvalidCrc? && frame[..|frame| - 2] + [e.lsb, e.msb] == Append(frame[..|frame| - 2])
  {
  }

  lemma PairReaching(r: Cells, crc: Cells) returns (x: byte, y: byte)
    ensures Register(r, Bits([x, y])) == crc
  {
    var w := Mix(r, UnclockBy(16, crc));
    x, y := Pack(w[..8]), Pack(w[8..]);
    ByteBitsPack(w[..8]);
    ByteBitsPack(w[8..]);
    assert w == w[..8] + w[8..];
    BitsOfPair(x, y);
    RegisterIsClock(r, w);
    assert Mix(r, w) == UnclockBy(16, crc);
    ClockByUnclockBy(16, crc);
  }

  /** After any prefix the last two data bytes map one to one onto the CRC: every CRC is
      reached, and by one pair only. */
  lemma LastPairIsOneToOne(prefix: seq<byte>, crc: Cells)
    ensures exists x: byte, y: byte :: CrcOf(prefix + [x, y]) == crc
    ensures forall x: byte, y: byte, u: byte, v: byte ::
              CrcOf(prefix + [x, y]) == crc && CrcOf(prefix + [u, v]) == crc ==> [x, y] == [u, v]
  {
    var x, y := PairReaching(CrcOf(prefix), crc);
    CrcOfConcat(prefix, [x, y]);
    forall x: byte, y: byte, u: byte, v: byte
      | CrcOf(prefix + [x, y]) == crc && CrcOf(prefix + [u, v]) == crc
      ensures [x, y] == [u, v]
    {
      CrcOfConcat(prefix, [x, y]);
      CrcOfConcat(prefix, [u, v]);
      WordsStayApart(CrcOf(prefix), Bits([x, y]), Bits([u, v]));
      BitsInjective([x, y], [u, v]);
    }
  }

  // ── Bursts ──────────────────────────────────────────────────────────────

  /** Two frames of one length whose bits agree outside sixteen consecutive places. */
  ghost predicate BurstApart(f: seq<byte>, g: seq<byte>, start: nat) {
    && |f| == |g|
    && forall i :: 0 <= i < 8 * |f| && Bits(f)[i] != Bits(g)[i] ==> start <= i < start + 16
  }

  /** Sixteen bits with the same bits around them never cancel out. */
  lemma WindowsStayApart(r: Cells, a: seq<bool>, b: seq<bool>, start: nat, end: nat)
    requires |a| == |b| && start <= end <= |a| && end <= start + 16
    requires a[..start] == b[..start] && a[end..] == b[end..]
    requires Register(r, a) == Register(r, b)
    ensures a == b
  {
    assert a == a[..start] + (a[start..end] + a[end..]);
    assert b == b[..start] + (b[start..end] + b[end..]);
    var s := Register(r, a[..start]);
    RegisterConcat(r, a[..start], a[start..end] + a[end..]);
    RegisterConcat(r, b[..start], b[start..end] + b[end..]);
    RegisterConcat(s, a[start..end], a[end..]);
    RegisterConcat(s, b[start..end], b[end..]);
    RegistersStayApart(Register(s, a[start..end]), Register(s, b[start..end]), a[end..]);
    WordsStayApart(s, a[start..end], b[start..end]);
  }

  /** Every non-zero error burst of at most sixteen bits is detected, wherever it falls. */
  lemma BurstDetected(f: seq<byte>, g: seq<byte>, start: nat)
    requires BurstApart(f, g, start) && f != g
    ensures Accepts(f) ==> !Accepts(g)
  {
    if Accepts(f) && Accepts(g) {
      AcceptsIffResidueZero(f);
      AcceptsIffResidueZero(g);
      var a, b := Bits(f), Bits(g);
      var lo := if start <= |a| then start else |a|;
      var hi := if start + 16 <= |a| then start + 16 else |a|;
      assert a[..lo] == b[..lo];
      assert a[hi..] == b[hi..];
      WindowsStayApart(PRESET, a, b, lo, hi);
      BitsInjective(f, g);
    }
  }

  // ── The polynomial remainder ────────────────────────────────────────────
  //
  // A polynomial over GF(2) is the list of its coefficients, highest degree first; the
  // ones below are given coefficient by coefficient, place `n + 16` being past x^0.

  ghost function At(p: seq<bool>, i: int): bool {
    0 <= i < |p| && p[i]
  }

  /** The message times x^16, with the preset added to its sixteen leading coefficients. */
  ghost function Dividend(bits: seq<bool>, i: int): bool {
    At(bits, i) != At(PRESET, i)
  }

  /** q times x^16 + x^12 + x^5 + 1. */
  ghost function TimesG(q: seq<bool>, i: int): bool {
    ((At(q, i) != At(q, i - 4)) != At(q, i - 11)) != At(q, i - 16)
  }

  /** `q` and the remainder in the cells, cell 0 holding the coefficient of x^15, make up
      the dividend. */
  ghost predicate Divides(bits: seq<bool>, q: seq<bool>, r: Cells) {
    && |q| == |bits|
    && forall i: int :: Dividend(bits, i) == (TimesG(q, i) != At(r, i - |bits|))
  }

  /** One more bit is one more step of the long division. */
  lemma DivideStep(bits: seq<bool>, q: seq<bool>, r: Cells, bit: bool)
    requires Divides(bits, q, r)
    ensures Divides(bits + [bit], q + [r[0] != bit], Clock(Mix(r, [bit])))
  {
    var n, top := |bits|, r[0] != bit;
    forall i: int
      ensures Dividend(bits + [bit], i) == (TimesG(q + [top], i) != At(Clock(Mix(r, [bit])), i - (n + 1)))
    {
      assert Dividend(bits, i) == (TimesG(q, i) != At(r, i - n));
      AtLast(q, top, i);
      AtLast(q, top, i - 4);
      AtLast(q, top, i - 11);
      AtLast(q, top, i - 16);
      AtLast(bits, bit, i);
      ClockedCell(r, bit, i - n);
    }
  }

  lemma AtLast(p: seq<bool>, last: bool, i: int)
    ensures At(p + [last], i) == if i == |p| then last else At(p, i)
  {
  }

  lemma ClockedCell(r: Cells, bit: bool, j: int)
    ensures At(Clock(Mix(r, [bit])), j - 1) ==
              if j <= 0 then false else At(r, j) != ((r[0] != bit) && (j == 4 || j == 11 || j == 16))
  {
  }

  /** The register over any bits is the remainder of the division: it has degree under
      sixteen, and the dividend plus it is a multiple of the generator. */
  lemma {:induction false} RegisterIsRemainder(bits: seq<bool>) returns (q: seq<bool>)
    ensures Divides(bits, q, Register(PRESET, bits))
  {
    if bits == [] {
      q := [];
    } else {
      var n := |bits| - 1;
      var p := RegisterIsRemainder(bits[..n]);
      var r := Register(PRESET, bits[..n]);
      DivideStep(bits[..n], p, r, bits[n]);
      assert bits[..n] + [bits[n]] == bits;
      q := p + [r[0] != bits[n]];
    }
  }

  /** There is only one such quotient and remainder. */
  lemma RemainderIsUnique(bits: seq<bool>, q: seq<bool>, r: Cells, p: seq<bool>, s: Cells)
    requires Divides(bits, q, r) && Divides(bits, p, s)
    ensures q == p && r == s
  {
    QuotientIsUnique(bits, q, r, p, s, |bits|);
    assert q[..|bits|] == q && p[..|bits|] == p;
    forall j | 0 <= j < 16
      ensures r[j] == s[j]
    {
      assert Dividend(bits, |bits| + j) == (TimesG(q, |bits| + j) != At(r, j));
      assert Dividend(bits, |bits| + j) == (TimesG(p, |bits| + j) != At(s, j));
    }
  }

  lemma {:induction false} QuotientIsUnique(bits: seq<bool>, q: seq<bool>, r: Cells, p: seq<bool>, s: Cells, n: nat)
    requires Divides(bits, q, r) && Divides(bits, p, s) && n <= |bits|
    ensures q[..n] == p[..n]
  {
    if n > 0 {
      QuotientIsUnique(bits, q, r, p, s, n - 1);
      assert forall i :: 0 <= i < n - 1 ==> q[i] == q[..n - 1][i] && p[i] == p[..n - 1][i];
      assert Dividend(bits, n - 1) == (TimesG(q, n - 1) != At(r, n - 1 - |bits|));
      assert Dividend(bits, n - 1) == (TimesG(p, n - 1) != At(s, n - 1 - |bits|));
      assert q[..n] == q[..n - 1] + [q[n - 1]] && p[..n] == p[..n - 1] + [p[n - 1]];
    }
  }
}
