/** `FixMessageEncoder`: serialises a message into its framed wire form
      8=<BeginString>|9=<BodyLength>|35=..|49=..|56=..|34=..|<body fields>|10=<ccc>|
    where | is the SOH byte, BodyLength counts the bytes after the 9 field up
    to "10=", and ccc is the byte sum of everything before "10=" mod 256. */
module FixMessageEncoder {
  import opened Wrappers
  import opened JavaInts
  import opened Ascii
  import opened FieldTypes
  import opened FixMessages

  /** The writable end of a Netty `ByteBuf`: the bytes up to its writer index. */
  class ByteBuf {
    var data: seq<Byte>

    constructor ()
      ensures data == []
    {
      data := [];
    }

    function WriterIndex(): nat
      reads this
    {
      |data|
    }

    method WriteBytes(bytes: seq<Byte>)
      modifies this
      ensures data == old(data) + bytes
    {
      data := data + bytes;
    }

    method WriteByte(b: Byte)
      modifies this
      ensures data == old(data) + [b]
    {
      data := data + [b];
    }
  }

  // ---------------------------------------------------------------------------
  // The wire form, as functions of the header and body

  /** The four header fields the encoder cannot do without are present. */
  predicate Complete(h: Header) {
    h.beginString.Some? && h.messageType.Some? && h.senderCompID.Some? && h.targetCompID.Some?
  }

  /** `String.valueOf(n).getBytes(US_ASCII)`. */
  function DecimalBytes(n: int): seq<Byte> {
    AsciiBytes(IntToString(n))
  }

  /** One `tag=value<SOH>` field. */
  function FieldBytes(tag: int, value: string): seq<Byte> {
    DecimalBytes(tag) + [EQUALS] + AsciiBytes(value) + [SOH]
  }

  /** The header fields inside the counted payload: 35, 49, 56, 34, in that order. */
  function HeaderBytes(h: Header): seq<Byte>
    requires Complete(h)
  {
    FieldBytes(MSG_TYPE, h.messageType.value)
      + FieldBytes(SENDER_COMP_ID, h.senderCompID.value)
      + FieldBytes(TARGET_COMP_ID, h.targetCompID.value)
      + FieldBytes(MSG_SEQ_NUM, IntToString(h.msgSeqNum))
  }

  /** A body fragment's bytes: a plain field is written, a group is skipped. */
  function FragmentBytes(f: Fragment): seq<Byte> {
    if f.Field? then FieldBytes(f.tag, f.value) else []
  }

  function BodyBytes(body: seq<Fragment>): seq<Byte> {
    if body == [] then [] else FragmentBytes(body[0]) + BodyBytes(body[1..])
  }

  /** What BodyLength counts: header fields 35/49/56/34, then the body's fields. */
  function Payload(h: Header, body: seq<Fragment>): seq<Byte>
    requires Complete(h)
  {
    HeaderBytes(h) + BodyBytes(body)
  }

  /** The leading BeginString and BodyLength fields. */
  function Framing(h: Header, body: seq<Fragment>): seq<Byte>
    requires Complete(h)
  {
    FieldBytes(BEGIN_STRING, h.beginString.value) + FieldBytes(BODY_LENGTH, IntToString(|Payload(h, body)|))
  }

  function Sum(s: seq<Byte>): nat {
    if s == [] then 0 else Sum(s[..|s| - 1]) + s[|s| - 1]
  }

  /** `buf.getByte(i)`: a byte read as a signed Java `byte`. */
  function SignedByte(b: Byte): (r: int)
    ensures -128 <= r < 128
    ensures b < 128 <==> r == b
  {
    if b < 128 then b else b - 256
  }

  /** What `calculateChecksum` accumulates: the bytes read as signed values. */
  function SignedSum(s: seq<Byte>): int {
    if s == [] then 0 else SignedSum(s[..|s| - 1]) + SignedByte(s[|s| - 1])
  }

  /** Java's `x % 256` on `int`, which truncates toward zero: the remainder
      takes the dividend's sign, is below 256 in magnitude and differs from
      the dividend by a multiple of 256. */
  function JavaRem256(a: int): (r: int)
    ensures -256 < r < 256
    ensures 0 <= a ==> 0 <= r && r == a % 256
    ensures a < 0 ==> r <= 0 && (a - r) % 256 == 0
  {
    if 0 <= a then a % 256 else -((-a) % 256)
  }

  /** `String.format("%1$03d", c)` for a checksum. */
  function Pad3(c: int): (r: string)
    requires 0 <= c < 256
    ensures |r| == 3 && AllDigits(r)
    ensures DigitsValue(r) == c
  {
    var hundreds, tens, units := c / 100, c / 10 % 10, c % 10;
    assert c == 100 * hundreds + 10 * tens + units;
    var r := [DigitChar(hundreds), DigitChar(tens), DigitChar(units)];
    assert r[..2] == [r[0], r[1]] && r[..2][..1] == [r[0]] && r[..2][..1][..0] == [];
    assert DigitsValue([r[0]]) == hundreds;
    assert DigitsValue(r[..2]) == 10 * hundreds + tens;
    r
  }

  /** The complete framed message. */
  function Wire(h: Header, body: seq<Fragment>): seq<Byte>
    requires Complete(h)
  {
    var counted := Framing(h, body) + Payload(h, body);
    counted + FieldBytes(CHECK_SUM, Pad3(Sum(counted) % 256))
  }

  /** `validateRequiredFields`: BeginString, MsgType, SenderCompID and
      TargetCompID are checked in that order and the first missing one is
      reported; MsgSeqNum is not checked. */
  function ValidateRequiredFields(h: Header): (r: Outcome<Error>)
    ensures r == Pass <==> Complete(h)
    ensures r == Fail(Required(BeginString)) <==> h.beginString.None?
    ensures r == Fail(Required(MsgType)) <==> h.beginString.Some? && h.messageType.None?
    ensures r == Fail(Required(SenderCompID)) <==>
      h.beginString.Some? && h.messageType.Some? && h.senderCompID.None?
    ensures r == Fail(Required(TargetCompID)) <==>
      h.beginString.Some? && h.messageType.Some? && h.senderCompID.Some? && h.targetCompID.None?
  {
    if h.beginString.None? then Fail(Required(BeginString))
    else if h.messageType.None? then Fail(Required(MsgType))
    else if h.senderCompID.None? then Fail(Required(SenderCompID))
    else if h.targetCompID.None? then Fail(Required(TargetCompID))
    else Pass
  }

  // ---------------------------------------------------------------------------
  // The encoder's methods

  /** `writeField(fieldNum, value, out)`: appends `fieldNum=value<SOH>`. */
  method WriteField(fieldNum: int, value: string, out: ByteBuf)
    modifies out
    ensures out.data == old(out.data) + FieldBytes(fieldNum, value)
  {
    ghost var start, tagBytes, valueBytes := out.data, DecimalBytes(fieldNum), AsciiBytes(value);
    out.WriteBytes(AsciiBytes(IntToString(fieldNum)));
    out.WriteByte(EQUALS);
    AppendAssoc(start, tagBytes, [EQUALS]);
    out.WriteBytes(AsciiBytes(value));
    AppendAssoc(start, tagBytes + [EQUALS], valueBytes);
    out.WriteByte(SOH);
    AppendAssoc(start, tagBytes + [EQUALS] + valueBytes, [SOH]);
  }

  /** `encodeHeader(header, out)`: appends the 35, 49, 56 and 34 fields. */
  method EncodeHeader(h: Header, out: ByteBuf)
    requires Complete(h)
    modifies out
    ensures out.data == old(out.data) + HeaderBytes(h)
  {
    ghost var start := out.data;
    ghost var a := FieldBytes(MSG_TYPE, h.messageType.value);
    ghost var b := FieldBytes(SENDER_COMP_ID, h.senderCompID.value);
    ghost var c := FieldBytes(TARGET_COMP_ID, h.targetCompID.value);
    ghost var d := FieldBytes(MSG_SEQ_NUM, IntToString(h.msgSeqNum));
    WriteField(MSG_TYPE, h.messageType.value, out);
    WriteField(SENDER_COMP_ID, h.senderCompID.value, out);
    AppendAssoc(start, a, b);
    WriteField(TARGET_COMP_ID, h.targetCompID.value, out);
    AppendAssoc(start, a + b, c);
    WriteField(MSG_SEQ_NUM, IntToString(h.msgSeqNum), out);
    AppendAssoc(start, a + b + c, d);
  }

  /** `createBodyBuf(msg, header)`: a fresh buffer holding the counted payload. */
  method CreateBodyBuf(msg: FixMessageImpl) returns (payloadBuf: ByteBuf)
    requires Complete(msg.header)
    ensures fresh(payloadBuf)
    ensures payloadBuf.data == Payload(msg.header, msg.body)
  {
    payloadBuf := new ByteBuf();
    EncodeHeader(msg.header, payloadBuf);
    var body := msg.body;
    ghost var head := HeaderBytes(msg.header);
    assert body[..0] == [];
    for i := 0 to |body|
      invariant payloadBuf.data == head + BodyBytes(body[..i])
    {
      var f := body[i];
      TakeSnoc(body, i);
      BodyBytesSnoc(body[..i], f);
      if f.Field? {
        WriteField(f.tag, f.value, payloadBuf);
      }
      AppendAssoc(head, BodyBytes(body[..i]), FragmentBytes(f));
    }
    assert body[..|body|] == body;
  }

  /** `calculateChecksum(buf, offset)`: the sum of the bytes from `offset`
      to the writer index, mod 256. */
  method CalculateChecksum(buf: ByteBuf, offset: nat) returns (checksum: int)
    requires offset <= buf.WriterIndex()
    ensures checksum == JavaRem256(SignedSum(buf.data[offset..]))
  {
    var sum: int := 0;
    for i := offset to buf.WriterIndex()
      invariant sum == SignedSum(buf.data[offset..i])
    {
      assert buf.data[offset..i + 1][..i - offset] == buf.data[offset..i];
      sum := sum + SignedByte(buf.data[i]);
    }
    assert buf.data[offset..] == buf.data[offset..|buf.data|];
    checksum := JavaRem256(sum);
  }

  /** `encode(ctx, msg, out)`: validates the header, then appends the framed
      message to `out`; bytes already in `out` are kept and not summed. */
  method Encode(msg: FixMessageImpl, out: ByteBuf) returns (r: Outcome<Error>)
    modifies out
    ensures r == ValidateRequiredFields(msg.header)
    ensures r.Pass? ==> out.data == old(out.data) + Wire(msg.header, msg.body)
    ensures r.Fail? ==> out.data == old(out.data)
  {
    var initialOffset := out.WriterIndex();
    var header := msg.header;
    r := ValidateRequiredFields(header);
    if r.Fail? {
      return;
    }
    ghost var framing, payload := Framing(header, msg.body), Payload(header, msg.body);
    var bodyBuf := CreateBodyBuf(msg);
    var bodyLength := bodyBuf.WriterIndex();
    assert bodyLength == |payload|;
    var headBuf := new ByteBuf();
    WriteField(BEGIN_STRING, header.beginString.value, headBuf);
    assert headBuf.data == FieldBytes(BEGIN_STRING, header.beginString.value);
    WriteField(BODY_LENGTH, IntToString(bodyLength), headBuf);
    assert headBuf.data == framing;
    ChecksumOfCounted(header, msg.body);
    out.WriteBytes(headBuf.data);
    out.WriteBytes(bodyBuf.data);
    AppendAssoc(old(out.data), framing, payload);
    SliceAfterPrefix(old(out.data), framing + payload);
    ghost var counted := out.data[initialOffset..];
    assert counted == framing + payload;
    var checksum := CalculateChecksum(out, initialOffset);
    assert checksum == Sum(counted) % 256;
    WriteField(CHECK_SUM, Pad3(checksum), out);
    AppendAssoc(old(out.data), framing + payload, FieldBytes(CHECK_SUM, Pad3(checksum)));
  }

  // ---------------------------------------------------------------------------
  // Properties of the wire form

  lemma AppendAssoc(a: seq<Byte>, b: seq<Byte>, c: seq<Byte>)
    ensures a + (b + c) == (a + b) + c
  {
  }

  lemma TakeSnoc(s: seq<Fragment>, i: nat)
    requires i < |s|
    ensures s[..i + 1] == s[..i] + [s[i]]
  {
  }

  lemma SliceAfterPrefix(a: seq<Byte>, b: seq<Byte>)
    ensures (a + b)[|a|..] == b
  {
  }

  /** Read as signed `byte`s, seven-bit bytes keep their values, so the signed
      sum is the plain one. */
  lemma {:induction false} SevenBitSignedSum(s: seq<Byte>)
    requires SevenBit(s)
    ensures SignedSum(s) == Sum(s)
  {
    if s != [] {
      SevenBitSignedSum(s[..|s| - 1]);
    }
  }

  lemma FieldBytesSevenBit(tag: int, value: string)
    ensures SevenBit(FieldBytes(tag, value))
  {
    AsciiBytesSevenBit(IntToString(tag));
    AsciiBytesSevenBit(value);
    SevenBitConcat(DecimalBytes(tag), [EQUALS]);
    SevenBitConcat(DecimalBytes(tag) + [EQUALS], AsciiBytes(value));
    SevenBitConcat(DecimalBytes(tag) + [EQUALS] + AsciiBytes(value), [SOH]);
  }

  lemma {:induction false} BodyBytesSevenBit(body: seq<Fragment>)
    ensures SevenBit(BodyBytes(body))
  {
    if body != [] {
      if body[0].Field? {
        FieldBytesSevenBit(body[0].tag, body[0].value);
      }
      BodyBytesSevenBit(body[1..]);
      SevenBitConcat(FragmentBytes(body[0]), BodyBytes(body[1..]));
    }
  }

  /** Every byte the encoder sums is below 128, whatever the text of the
      fields: a signed `getByte` reads each one as its unsigned value. */
  lemma CountedIsSevenBit(h: Header, body: seq<Fragment>)
    requires Complete(h)
    ensures SevenBit(Framing(h, body) + Payload(h, body))
  {
    FieldBytesSevenBit(MSG_TYPE, h.messageType.value);
    FieldBytesSevenBit(SENDER_COMP_ID, h.senderCompID.value);
    FieldBytesSevenBit(TARGET_COMP_ID, h.targetCompID.value);
    FieldBytesSevenBit(MSG_SEQ_NUM, IntToString(h.msgSeqNum));
    var a := FieldBytes(MSG_TYPE, h.messageType.value);
    var b := FieldBytes(SENDER_COMP_ID, h.senderCompID.value);
    var c := FieldBytes(TARGET_COMP_ID, h.targetCompID.value);
    var d := FieldBytes(MSG_SEQ_NUM, IntToString(h.msgSeqNum));
    SevenBitConcat(a, b);
    SevenBitConcat(a + b, c);
    SevenBitConcat(a + b + c, d);
    BodyBytesSevenBit(body);
    SevenBitConcat(HeaderBytes(h), BodyBytes(body));
    FieldBytesSevenBit(BEGIN_STRING, h.beginString.value);
    FieldBytesSevenBit(BODY_LENGTH, IntToString(|Payload(h, body)|));
    SevenBitConcat(FieldBytes(BEGIN_STRING, h.beginString.value), FieldBytes(BODY_LENGTH, IntToString(|Payload(h, body)|)));
    SevenBitConcat(Framing(h, body), Payload(h, body));
  }

  /** On what the encoder sums, the signed sum reduced with Java's `%` is the
      plain byte sum mod 256, a value in 0..255. */
  lemma ChecksumOfCounted(h: Header, body: seq<Fragment>)
    requires Complete(h)
    ensures var counted := Framing(h, body) + Payload(h, body);
      JavaRem256(SignedSum(counted)) == Sum(counted) % 256
  {
    CountedIsSevenBit(h, body);
    SevenBitSignedSum(Framing(h, body) + Payload(h, body));
  }

  lemma {:induction false} BodyBytesConcat(a: seq<Fragment>, b: seq<Fragment>)
    ensures BodyBytes(a + b) == BodyBytes(a) + BodyBytes(b)
  {
    if a == [] {
      assert a + b == b;
    } else {
      assert (a + b)[0] == a[0];
      assert (a + b)[1..] == a[1..] + b;
      BodyBytesConcat(a[1..], b);
      AppendAssoc(FragmentBytes(a[0]), BodyBytes(a[1..]), BodyBytes(b));
      calc {
        BodyBytes(a + b);
        FragmentBytes(a[0]) + BodyBytes(a[1..] + b);
        FragmentBytes(a[0]) + (BodyBytes(a[1..]) + BodyBytes(b));
        BodyBytes(a) + BodyBytes(b);
      }
    }
  }

  lemma BodyBytesSnoc(a: seq<Fragment>, f: Fragment)
    ensures BodyBytes(a + [f]) == BodyBytes(a) + FragmentBytes(f)
  {
    BodyBytesConcat(a, [f]);
    assert BodyBytes([f]) == FragmentBytes(f) + BodyBytes([f][1..]);
  }

  /** Groups contribute nothing: removing one from anywhere in the body leaves the payload as it was. */
  lemma GroupsAreSkipped(a: seq<Fragment>, g: Fragment, b: seq<Fragment>)
    requires g.GroupField?
    ensures BodyBytes(a + [g] + b) == BodyBytes(a + b)
  {
    BodyBytesSnoc(a, g);
    BodyBytesConcat(a + [g], b);
    BodyBytesConcat(a, b);
  }

  /** Bytes a receiver reads as decimal digits. */
  predicate DigitBytes(bs: seq<Byte>) {
    forall i :: 0 <= i < |bs| ==> '0' as int <= bs[i] <= '9' as int
  }

  /** The number a receiver reads from decimal digit bytes. */
  function DecimalValue(bs: seq<Byte>): nat
    requires DigitBytes(bs)
  {
    if bs == [] then 0 else 10 * DecimalValue(bs[..|bs| - 1]) + (bs[|bs| - 1] - '0' as int)
  }

  /** Digit text becomes digit bytes denoting the same number. */
  lemma {:induction false} DecimalValueOfDigits(s: string)
    requires AllDigits(s)
    ensures DigitBytes(AsciiBytes(s))
    ensures DecimalValue(AsciiBytes(s)) == DigitsValue(s)
  {
    if s != [] {
      var n := |s|;
      assert AsciiBytes(s)[..n - 1] == AsciiBytes(s[..n - 1]);
      DecimalValueOfDigits(s[..n - 1]);
    }
  }

  /** `writeField` output splits back into its parts: the decimal tag, '=',
      the value and the closing SOH. */
  lemma FieldBytesParts(tag: int, value: string)
    requires 0 <= tag
    ensures var f, d := FieldBytes(tag, value), DecimalBytes(tag);
      && |f| == |d| + |value| + 2
      && f[..|d|] == d && DigitBytes(d) && DecimalValue(d) == tag
      && f[|d|] == EQUALS
      && f[|d| + 1..|f| - 1] == AsciiBytes(value)
      && f[|f| - 1] == SOH
  {
    DecimalValueOfDigits(IntToString(tag));
    var f, d := FieldBytes(tag, value), DecimalBytes(tag);
    assert f == d + ([EQUALS] + AsciiBytes(value) + [SOH]);
  }

  /** The CheckSum field is always 7 bytes: "10=", three digits, SOH. */
  lemma CheckSumFieldLength(c: int)
    requires 0 <= c < 256
    ensures |FieldBytes(CHECK_SUM, Pad3(c))| == 7
  {
    assert IntToString(CHECK_SUM) == "10";
  }

  /** The BodyLength field states exactly the number of bytes between its own
      SOH and the "10=" of the CheckSum field; BeginString and BodyLength are
      not counted. */
  lemma BodyLengthIsExact(h: Header, body: seq<Fragment>)
    requires Complete(h)
    ensures var w, k := Wire(h, body), |Framing(h, body)|;
      var lengthText := DecimalBytes(|Payload(h, body)|);
      && k + 7 <= |w|
      && w[..k] == FieldBytes(BEGIN_STRING, h.beginString.value) + DecimalBytes(BODY_LENGTH) + [EQUALS] + lengthText + [SOH]
      && DigitBytes(lengthText) && DecimalValue(lengthText) == |w| - k - 7
      && w[k..|w| - 7] == Payload(h, body)
      && w[|w| - 7..|w| - 4] == DecimalBytes(CHECK_SUM) + [EQUALS]
  {
    var framing, payload := Framing(h, body), Payload(h, body);
    var c := Sum(framing + payload) % 256;
    var trailer := FieldBytes(CHECK_SUM, Pad3(c));
    assert Wire(h, body) == framing + payload + trailer;
    CheckSumFieldLength(c);
    assert IntToString(CHECK_SUM) == "10";
    assert trailer[..3] == DecimalBytes(CHECK_SUM) + [EQUALS];
    WireParts(framing, payload, trailer);
    var f8, d9, lengthText := FieldBytes(BEGIN_STRING, h.beginString.value), DecimalBytes(BODY_LENGTH), DecimalBytes(|payload|);
    AppendAssoc(f8, d9 + [EQUALS] + lengthText, [SOH]);
    AppendAssoc(f8, d9 + [EQUALS], lengthText);
    AppendAssoc(f8, d9, [EQUALS]);
    DecimalValueOfDigits(IntToString(|payload|));
  }

  /** The parts of a framed message: the framing, the counted payload and a 7-byte trailer. */
  lemma WireParts(framing: seq<Byte>, payload: seq<Byte>, trailer: seq<Byte>)
    requires |trailer| == 7
    ensures var w := framing + payload + trailer;
      && w[..|framing|] == framing
      && w[|framing|..|w| - 7] == payload
      && w[|w| - 7..|w| - 4] == trailer[..3]
  {
  }

  /** What a receiver checks of a framed message `w` whose checksummed
      part is `counted`: `w` is `counted` followed by a 7-byte CheckSum field,
      whose three digits, before the closing SOH, denote the byte sum of
      `counted` mod 256. */
  predicate ChecksumCovers(w: seq<Byte>, counted: seq<Byte>) {
    && |w| == |counted| + 7
    && w[..|counted|] == counted
    && DigitBytes(w[|w| - 4..|w| - 1])
    && DecimalValue(w[|w| - 4..|w| - 1]) == Sum(counted) % 256
    && w[|w| - 1] == SOH
  }

  /** The three CheckSum digits state the byte sum, mod 256, of everything
      from the "8" of BeginString up to the "10=" of CheckSum. */
  lemma CheckSumIsExact(h: Header, body: seq<Fragment>)
    requires Complete(h)
    ensures ChecksumCovers(Wire(h, body), Framing(h, body) + Payload(h, body))
  {
    var counted := Framing(h, body) + Payload(h, body);
    var c := Sum(counted) % 256;
    CheckSumTrailer(counted, c, Wire(h, body));
  }

  /** Any prefix followed by a CheckSum field: the digits sit in the three bytes before the final SOH. */
  lemma CheckSumTrailer(counted: seq<Byte>, c: int, w: seq<Byte>)
    requires 0 <= c < 256 && c == Sum(counted) % 256
    requires w == counted + FieldBytes(CHECK_SUM, Pad3(c))
    ensures ChecksumCovers(w, counted)
  {
    var trailer := FieldBytes(CHECK_SUM, Pad3(c));
    CheckSumFieldLength(c);
    assert IntToString(CHECK_SUM) == "10";
    assert trailer[3..6] == AsciiBytes(Pad3(c));
    assert w[|w| - 4..|w| - 1] == trailer[3..6];
    DecimalValueOfDigits(Pad3(c));
  }
}
