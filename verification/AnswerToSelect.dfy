/** The answer to select, section 5.2 of ISO/IEC 14443-4. */
module AnswerToSelect {
  import opened Wire
  import opened Codings

  /** The interface bytes that are transmitted, and FSCI. */
  datatype Format = Format(fsci: FrameSize, ta: bool, tb: bool, tc: bool)

  type Nibble = n: byte | n <= 14

  datatype Tb = Tb(sfgi: Nibble, fwi: Nibble)

  datatype Ats = Ats(length: byte, format: Format, ta: byte, tb: Tb, tc: byte, historical: seq<byte>)

  const CID_SUPPORTED: byte := 0x02

  const DEFAULT_FORMAT := Format(Fs32, false, false, false)
  const DEFAULT_TA: byte := 0
  const DEFAULT_TB := Tb(0, 4)
  const DEFAULT_TC: byte := CID_SUPPORTED

  /** The defined bits of TA(1) and TC(1). */
  function TaBits(value: byte): byte {
    value & 0xF7
  }

  function TcBits(value: byte): byte {
    value & 0x03
  }

  /** A length as TL holds it, and back. */
  function Tl(n: nat): byte {
    (n % 256) as byte
  }

  function Length(tl: byte): nat {
    tl as int
  }

  lemma LengthOfTl(n: nat)
    requires n < 256
    ensures Length(Tl(n)) == n
  {
  }

  // ── Printing ────────────────────────────────────────────────────────────

  function FormatByte(f: Format): byte {
    With(With(With(SizeCode(f.fsci), f.ta, 0x10), f.tb, 0x20), f.tc, 0x40)
  }

  function With(value: byte, present: bool, bit: byte): byte {
    if present then value | bit else value
  }

  function TbByte(tb: Tb): byte {
    (tb.fwi << 4) | tb.sfgi
  }

  /** An interface byte, if it is transmitted. */
  function Sent(transmitted: bool, value: byte): seq<byte> {
    if transmitted then [value] else []
  }

  /** Everything after TL. */
  function Body(a: Ats): seq<byte> {
    [FormatByte(a.format)] + Sent(a.format.ta, a.ta) + Sent(a.format.tb, TbByte(a.tb))
    + Sent(a.format.tc, a.tc) + a.historical
  }

  /** TL counts itself; a byte holds it modulo 256. */
  function Print(a: Ats): seq<byte> {
    [Tl(1 + |Body(a)|)] + Body(a)
  }

  /** T0: FSCI and the presence bits. */
  method FormatToByte(f: Format) returns (t0: byte)
    ensures t0 == FormatByte(f)
  {
    t0 := SizeCode(f.fsci);
    if f.ta {
      t0 := t0 | 0x10;
    }
    if f.tb {
      t0 := t0 | 0x20;
    }
    if f.tc {
      t0 := t0 | 0x40;
    }
  }

  method ToBytes(a: Ats) returns (data: seq<byte>)
    ensures data == Print(a)
  {
    hide TbByte, Tl, FormatByte, Sent;
    var t0 := FormatToByte(a.format);
    data := [0];
    data := data + [t0];
    data := data + Sent(a.format.ta, a.ta);
    data := data + Sent(a.format.tb, TbByte(a.tb));
    data := data + Sent(a.format.tc, a.tc);
    data := data + a.historical;
    assert data == [0] + Body(a);
    data := data[0 := Tl(|data|)];
  }

  // ── Parsing ─────────────────────────────────────────────────────────────

  function FormatOf(value: byte): Result<Format, TypeAError> {
    var fsci := SizeCoded(value & 0x0f);
    if fsci.None? then Err(Other)
    else Ok(Format(fsci.value, value & 0x10 == 0x10, value & 0x20 == 0x20, value & 0x40 == 0x40))
  }

  function TbOf(value: byte): Result<Tb, TypeAError> {
    if value & 0xf > 14 || value >> 4 > 14 then Err(Other) else Ok(Tb(value & 0xf, value >> 4))
  }

  function ByteAt(body: seq<byte>, i: nat): Result<byte, TypeAError> {
    if i < |body| then Ok(body[i]) else Err(InvalidLength)
  }

  function Parse(body: seq<byte>): Result<Ats, TypeAError> {
    if body == [] || Length(body[0]) != |body| then Err(InvalidLength) else
      var format :- if |body| > 1 then FormatOf(body[1]) else Ok(DEFAULT_FORMAT);
      var iTa := if |body| > 1 then 2 else 1;
      var iTb := iTa + (if format.ta then 1 else 0);
      var iTc := iTb + (if format.tb then 1 else 0);
      var iHist := iTc + (if format.tc then 1 else 0);
      var ta :- if format.ta then ByteAt(body, iTa) else Ok(DEFAULT_TA);
      var tbByte :- if format.tb then ByteAt(body, iTb) else Ok(TbByte(DEFAULT_TB));
      var tb :- TbOf(tbByte);
      var tc :- if format.tc then ByteAt(body, iTc) else Ok(DEFAULT_TC);
      Ok(Ats(body[0], format, TaBits(ta), tb, TcBits(tc), body[iHist..]))
  }

  method TakeByte(body: seq<byte>, offset: nat) returns (r: Result<byte, TypeAError>, next: nat)
    ensures r == ByteAt(body, offset)
    ensures next == if r.Ok? then offset + 1 else offset
  {
    if offset < |body| {
      return Ok(body[offset]), offset + 1;
    }
    return Err(InvalidLength), offset;
  }

  method FromCrcVerified(body: seq<byte>) returns (r: Result<Ats, TypeAError>)
    ensures r == Parse(body)
  {
    hide FormatOf, TbOf;
    assert TbOf(TbByte(DEFAULT_TB)) == Ok(DEFAULT_TB) by { TbRoundTrip(DEFAULT_TB); }
    DefaultBits();
    hide TbByte, TaBits, TcBits, Length;
    if |body| == 0 {
      return Err(InvalidLength);
    }
    var length := body[0];
    if Length(length) != |body| {
      return Err(InvalidLength);
    }
    var offset := 1;
    var taken;
    var format := DEFAULT_FORMAT;
    if Length(length) > 1 {
      taken, offset := TakeByte(body, offset);
      var parsed := FormatOf(taken.value);
      if parsed.Err? {
        return Err(parsed.error);
      }
      format := parsed.value;
    }
    var ta := DEFAULT_TA;
    if format.ta {
      taken, offset := TakeByte(body, offset);
      if taken.Err? {
        return Err(taken.error);
      }
      ta := TaBits(taken.value);
    }
    var tb := DEFAULT_TB;
    if format.tb {
      taken, offset := TakeByte(body, offset);
      if taken.Err? {
        return Err(taken.error);
      }
      var parsed := TbOf(taken.value);
      if parsed.Err? {
        return Err(parsed.error);
      }
      tb := parsed.value;
    }
    var tc := DEFAULT_TC;
    if format.tc {
      taken, offset := TakeByte(body, offset);
      if taken.Err? {
        return Err(taken.error);
      }
      tc := TcBits(taken.value);
    }
    return Ok(Ats(length, format, ta, tb, tc, body[offset..]));
  }

  // ── Round trips ─────────────────────────────────────────────────────────

  /** Bit 4 of TA(1) and bits 3 to 8 of TC(1) have no meaning. */
  predicate MeaningfulBits(a: Ats) {
    a.ta & 0x08 == 0 && a.tc & 0xFC == 0
  }

  /** An ATS that fits its length byte and uses defined bits only. */
  predicate Defined(a: Ats) {
    |Body(a)| <= 254 && MeaningfulBits(a)
  }

  /** What of an ATS goes over the air: fields that are not transmitted read as their
      defaults, and TL is the number of bytes. */
  function Received(a: Ats): Ats
    requires |Body(a)| <= 254
  {
    Ats(Tl(1 + |Body(a)|), a.format,
        if a.format.ta then a.ta else DEFAULT_TA,
        if a.format.tb then a.tb else DEFAULT_TB,
        if a.format.tc then a.tc else DEFAULT_TC,
        a.historical)
  }

  lemma FormatRoundTrip(f: Format)
    ensures FormatOf(FormatByte(f)) == Ok(f)
  {
  }

  lemma TbRoundTrip(tb: Tb)
    ensures TbOf(TbByte(tb)) == Ok(tb)
  {
    RatsNibbles(tb.fwi, tb.sfgi);
  }

  lemma AtsRoundTrip(a: Ats)
    requires Defined(a)
    ensures Parse(Print(a)) == Ok(Received(a))
    ensures Length(Print(a)[0]) == |Print(a)|
  {
    hide MeaningfulBits, TaBits, TcBits, Parse, Tl, Length;
    MeaningIsKept(a);
    MaskedRoundTrip(a);
    LengthOfTl(1 + |Body(a)|);
  }

  lemma MaskedRoundTrip(a: Ats)
    requires |Body(a)| <= 254 && TaBits(a.ta) == a.ta && TcBits(a.tc) == a.tc
    ensures Parse(Print(a)) == Ok(Received(a))
  {
    FormatRoundTrip(a.format);
    TbRoundTrip(a.tb);
    TbRoundTrip(DEFAULT_TB);
    DefaultBits();
    LengthOfTl(1 + |Body(a)|);
    hide FormatOf, FormatByte, TbOf, TbByte, TaBits, TcBits, Tl, Length;
    var body := Print(a);
    assert body[|body| - |a.historical|..] == a.historical;
  }

  lemma DefaultBits()
    ensures TaBits(DEFAULT_TA) == DEFAULT_TA && TcBits(DEFAULT_TC) == DEFAULT_TC
    ensures DEFAULT_TA & 0x08 == 0 && DEFAULT_TC & 0xFC == 0
  {
  }

  lemma MeaningIsKept(a: Ats)
    ensures MeaningfulBits(a) <==> TaBits(a.ta) == a.ta && TcBits(a.tc) == a.tc
  {
  }

  lemma MaskTwice(x: byte)
    ensures TaBits(x) & 0x08 == 0 && TcBits(x) & 0xFC == 0
    ensures TaBits(x) == x & 0xF7 && TcBits(x) == x & 0x03
  {
  }

  lemma ParsedIsDefined(body: seq<byte>)
    requires Parse(body).Ok?
    ensures |body| > 1 ==> |Body(Parse(body).value)| + 1 == |body|
    ensures Defined(Parse(body).value)
    ensures Received(Parse(body).value).(length := body[0]) == Parse(body).value
  {
    var a := Parse(body).value;
    TbRoundTrip(DEFAULT_TB);
    DefaultBits();
    LengthBound(body[0]);
    if a.format.ta {
      MaskTwice(body[2]);
    }
    if a.format.tc {
      MaskTwice(body[2 + (if a.format.ta then 1 else 0) + (if a.format.tb then 1 else 0)]);
    }
    hide FormatOf, FormatByte, TbOf, TbByte, TaBits, TcBits, Tl, Length;
  }

  lemma LengthBound(tl: byte)
    ensures Length(tl) < 256
  {
  }

  /** Parsing, printing and parsing again changes nothing but TL, and TL only when it
      was 1. */
  lemma AtsParsedRoundTrip(body: seq<byte>)
    requires Parse(body).Ok?
    ensures var a := Parse(body).value;
            && Parse(Print(a)).Ok?
            && Parse(Print(a)).value.(length := a.length) == a
            && (|body| > 1 ==> Parse(Print(a)) == Ok(a))
            && (|body| == 1 ==> Print(a) == [2, 2])
  {
    ParsedIsDefined(body);
    AtsRoundTrip(Parse(body).value);
    LengthOfTl(2);
  }

  /** What is read of an accepted body: each interface byte T0 announces, in the order TA(1),
      TB(1), TC(1), with the bits that have no meaning cleared, then the historical bytes. A
      byte that is not announced reads as same bit rates only, FWI 4, SFGI 0, CID but no NAD. */
  lemma BytesRead(body: seq<byte>)
    requires Parse(body).Ok?
    ensures var a := Parse(body).value;
            var t0 := if |body| > 1 then body[1] else 0x02;
            var i := if |body| > 1 then 2 else 1;
            var j := if t0 & 0x10 != 0 then i + 1 else i;
            var k := if t0 & 0x20 != 0 then j + 1 else j;
            var l := if t0 & 0x40 != 0 then k + 1 else k;
            && i <= j <= k <= l <= |body|
            && a.ta == (if t0 & 0x10 != 0 then body[i] & 0xF7 else 0x00)
            && a.tb.sfgi == (if t0 & 0x20 != 0 then body[j] & 0x0f else 0)
            && a.tb.fwi == (if t0 & 0x20 != 0 then body[j] >> 4 else 4)
            && a.tc == (if t0 & 0x40 != 0 then body[k] & 0x03 else 0x02)
            && a.historical == body[l..] && a.length == body[0]
  {
    hide TbOf, TaBits, TcBits, Length, TbByte;
    var t0 := if |body| > 1 then body[1] else 0x02;
    PresenceBits(t0);
    TbRoundTrip(DEFAULT_TB);
    DefaultBits();
    forall x: byte
      ensures TaBits(x) == x & 0xF7 && TcBits(x) == x & 0x03
      ensures TbOf(x).Ok? ==> TbOf(x).value.sfgi == x & 0x0f && TbOf(x).value.fwi == x >> 4
    {
      MaskTwice(x);
      TbRead(x);
    }
  }

  lemma PresenceBits(t0: byte)
    ensures (t0 & 0x10 == 0x10) == (t0 & 0x10 != 0)
    ensures (t0 & 0x20 == 0x20) == (t0 & 0x20 != 0)
    ensures (t0 & 0x40 == 0x40) == (t0 & 0x40 != 0)
  {
  }

  lemma TbRead(x: byte)
    ensures TbOf(x).Ok? ==> TbOf(x).value.sfgi == x & 0x0f && TbOf(x).value.fwi == x >> 4
  {
  }
}
