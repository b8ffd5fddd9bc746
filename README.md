# FIX tag-value engine: message model, encoder and session handler

A Dafny model of the core of a FIX 4.x tag-value engine (fixio). It has three parts:

- **Message model** (`FixMessages`, from `FixMessageImpl`). A message is a class with a Standard Header, an ordered body of fragments and a Standard Trailer. `add(tag, value)` routes each tag:
  - BeginString (8), MsgType (35), SenderCompID (49), TargetCompID (56) and MsgSeqNum (34, parsed as an `int`) go into the header;
  - CheckSum (10, parsed as an `int`) goes into the trailer;
  - every other tag is appended to the body as a `Field`.

  `getString`, `getInt` and `getGroups` look up the *first* body fragment with a tag. The pure function `AddField` gives what `add` does to a message value, and the lemmas about it state the routing. Header and trailer accessors (`GetHeader`, `GetBody`, `GetMsgSeqNum`, `GetMessageType`, `GetChecksum`) are plain field reads.
- **Encoder** (`FixMessageEncoder`). It validates the required header fields. Then it writes `8=..|9=<len>|35=..|49=..|56=..|34=..|<body fields>|10=ccc|` into a byte buffer (`|` is the SOH byte 1). The wire form is specified by the functions `Payload`, `Framing` and `Wire`. The methods (`WriteField`, `EncodeHeader`, `CreateBodyBuf`, `CalculateChecksum`, `Encode`) are proved to produce exactly those bytes. Lemmas state where the BodyLength and CheckSum fields sit and what they say.
- **Session handler** (`SessionHandler`, from `AbstractSessionHandler`). Its state is a `ChannelContext` with the session slot (`Option<FixSession>`) and an open flag for the channel; `out` is a `MessageList`. Inbound with no session drops the message and closes the channel. Otherwise the session checks the header's MsgSeqNum once and the message is passed on. Outbound, the session stamps the message, then it is passed on. `setSession` is a compare-and-set on an empty slot. `channelInactive` empties the slot. `createReject` builds a Reject.

Supporting modules: `Wrappers` (Option/Result/Outcome), `JavaInts` (Java `int`, `Integer.parseInt`, `String.valueOf(int)`), `Ascii` (bytes, US-ASCII encoding), `FieldTypes` (the tag-to-slot registry). The registry maps 8, 10, 34, 35, 49 and 56 to their slots and every other tag to the body. `FieldType.forTag` is not part of this model, so this mapping is an assumption; the tags come from the encoder's literals.

`FixSessions.FixSession` stands in for `FixSession`, whose source is not part of this model. It records each call the handler makes in a ghost trace (`calls`). Its bodies follow the FIX session-level rule for MsgSeqNum (tag 34): an incoming number is accepted, and the expectation advanced, only when it equals the expected one; an outgoing message is stamped with the next outgoing number, which then advances. Both counters are Java `int`s that wrap around (`Inc32`); that is a choice of the stand-in, which the handler does not rely on. The handler's contracts use only the trace.

Where the FIX rules the engine implements (a CheckSum is three digits for a value 0–255; a Reject's RefSeqNum(45) is the MsgSeqNum of the rejected message) and the code differ, the model follows the code:
- the trailer checksum set by `add(10, v)` is any `int`, not only 0–255 (assuming `setCheckSum` stores it unchanged);
- a non-positive tag is a Java `assert`, which is off by default, so it is a `requires` here, not an error result;
- with no session, the inbound path closes the channel and returns without raising anything;
- `createReject` takes RefSeqNum from the body, not from the header (see Findings).

## Model

| member | source | states |
|---|---|---|
| FixMessages.FixMessageImpl.constructor | core/src/main/java/fixio/fixprotocol/FixMessageImpl.java:28-29 | a new message has an empty header, an empty body and a zero trailer, and satisfies the slot invariant |
| FixMessages.FixMessageImpl.OfType | core/src/main/java/fixio/fixprotocol/FixMessageImpl.java:31-33 | the message has an empty body and a header in which only the message type is set |
| FixMessages.FixMessageImpl.Add | core/src/main/java/fixio/fixprotocol/FixMessageImpl.java:51-79 | the new state is AddField of the old one; on success it returns this same message; on a parse failure it returns NumberFormat and changes nothing; it keeps the invariant that header/trailer tags never enter the body |
| FixMessages.FixMessageImpl.AddInt | core/src/main/java/fixio/fixprotocol/FixMessageImpl.java:40-43 | adding an int is adding String.valueOf of it; it never fails, always returns this same message, and a numeric slot receives exactly that int |
| FixMessages.FixMessageImpl.SetMessageType | core/src/main/java/fixio/fixprotocol/FixMessageImpl.java:133-135 | only the header's message type changes |
| FixMessages.AddField | core/src/main/java/fixio/fixprotocol/FixMessageImpl.java:51-79 | add on a message value: it fails exactly when tag 34 or 10 is given text that is not an int, and then with NumberFormat of that text; every other tag succeeds (the routing lemmas below say where the value goes) |
| FixMessages.FixMessageImpl.GetHeader | core/src/main/java/fixio/fixprotocol/FixMessageImpl.java:119-122 | the message's current header |
| FixMessages.FixMessageImpl.GetBody | core/src/main/java/fixio/fixprotocol/FixMessageImpl.java:81-84 | the message's current body, in insertion order |
| FixMessages.FixMessageImpl.GetMsgSeqNum | core/src/main/java/fixio/fixprotocol/FixMessageImpl.java:124-126 | the header's MsgSeqNum |
| FixMessages.FixMessageImpl.GetMessageType | core/src/main/java/fixio/fixprotocol/FixMessageImpl.java:128-131 | the header's MsgType |
| FixMessages.FixMessageImpl.GetChecksum | core/src/main/java/fixio/fixprotocol/FixMessageImpl.java:137-139 | the trailer's CheckSum |
| FixMessages.AddStringHeaderTag | core/src/main/java/fixio/fixprotocol/FixMessageImpl.java:54-73 | tags 8/35/49/56 set exactly their own header slot; other slots, msgSeqNum, body and trailer are unchanged |
| FixMessages.AddMsgSeqNumTag | core/src/main/java/fixio/fixprotocol/FixMessageImpl.java:68-70 | tag 34 succeeds iff the value parses as an int; it then sets msgSeqNum to it and nothing else; otherwise it fails with NumberFormat |
| FixMessages.AddCheckSumTag | core/src/main/java/fixio/fixprotocol/FixMessageImpl.java:59-61 | tag 10 succeeds iff the value parses as an int; it then sets the trailer checksum to it and nothing else; otherwise it fails with NumberFormat |
| FixMessages.AddBodyTag | core/src/main/java/fixio/fixprotocol/FixMessageImpl.java:74-76 | any other tag appends exactly one Field(tag, value) at the end of the body; earlier fragments, header and trailer are unchanged |
| FixMessages.AddIntStoresValue | core/src/main/java/fixio/fixprotocol/FixMessageImpl.java:40-43 | adding String.valueOf(n) never fails, and sets msgSeqNum (tag 34) or the checksum (tag 10) to exactly n |
| FixMessages.AddKeepsSlotFree | core/src/main/java/fixio/fixprotocol/FixMessageImpl.java:51-79 | add never puts a header or trailer tag into the body |
| FixMessages.FirstIndexOf | core/src/main/java/fixio/fixprotocol/FixMessageImpl.java:159-166 | the result is the position of the first fragment with the tag; it is None exactly when no fragment has the tag |
| FixMessages.FirstIndexOfAppend | core/src/main/java/fixio/fixprotocol/FixMessageImpl.java:159-166 | fragments appended later never change the first match of a tag already present |
| FixMessages.AddKeepsFirstMatch | core/src/main/java/fixio/fixprotocol/FixMessageImpl.java:159-166 | after any add, the first match of a tag already in the body is where it was (later duplicates are never seen) |
| FixMessages.FixMessageImpl.GetString | core/src/main/java/fixio/fixprotocol/FixMessageImpl.java:87-97 | null iff no body fragment has the tag; the value of the first fragment if it is a Field; NotAField if it is a group |
| FixMessages.FixMessageImpl.GetInt | core/src/main/java/fixio/fixprotocol/FixMessageImpl.java:106-112 | null exactly when getString is null; parseInt of that string otherwise (NumberFormat if it does not parse); getString's failure is passed through |
| FixMessages.FixMessageImpl.GetGroups | core/src/main/java/fixio/fixprotocol/FixMessageImpl.java:151-157 | the groups iff the first fragment with the tag is a group, null otherwise |
| FieldTypes.ForTag | core/src/main/java/fixio/fixprotocol/FixMessageImpl.java:54 | the descriptor of a header or trailer slot is returned exactly for its own tag (8, 10, 34, 35, 49, 56); every other tag gets the body descriptor |
| FieldTypes.ForTagIsInverse | core/src/main/java/fixio/fixprotocol/FixMessageImpl.java:54-77 | each header/trailer slot is reached by exactly one tag |
| JavaInts.IntToString | core/src/main/java/fixio/fixprotocol/FixMessageImpl.java:42 | String.valueOf(int): non-empty; a leading '-' exactly for negatives; the remaining digits denote the magnitude; no leading zero unless the value is 0, and 0 is written "0" |
| JavaInts.ParseInt | core/src/main/java/fixio/fixprotocol/FixMessageImpl.java:60 | Integer.parseInt: a result needs non-empty text starting with a digit or a sign, and a negative result needs a leading '-'; ParseIntAccepts and ParseIntRejects together decide every input |
| JavaInts.ParseIntToString | core/src/main/java/fixio/fixprotocol/FixMessageImpl.java:40-43 | parseInt(String.valueOf(v)) == v for every int v |
| JavaInts.ParseIntRejects | core/src/main/java/fixio/fixprotocol/FixMessageImpl.java:69 | text with a non-digit that is not a leading sign, the empty text and a lone sign do not parse |
| JavaInts.ParseIntAccepts | core/src/main/java/fixio/fixprotocol/FixMessageImpl.java:60 | an optional '+' or '-' followed by one or more digits parses to its signed value when that is an int and is rejected when it is not; leading zeros are accepted |
| JavaInts.ParseIntExamples | core/src/main/java/fixio/fixprotocol/FixMessageImpl.java:69 | "+5" parses to 5, "007" to 7 and "-0" to 0 |
| Ascii.CharByte | core/src/main/java/fixio/netty/codec/FixMessageEncoder.java:110-115 | US-ASCII writes an ASCII character as its code and any other character as '?', always below 128 |
| FixMessageEncoder.ValidateRequiredFields | core/src/main/java/fixio/netty/codec/FixMessageEncoder.java:80-93 | passes iff BeginString, MsgType, SenderCompID and TargetCompID are all present; otherwise it reports the first missing one in that order; MsgSeqNum is not checked |
| FixMessageEncoder.WriteField | core/src/main/java/fixio/netty/codec/FixMessageEncoder.java:110-115 | appends decimal(fieldNum), '=', the value's bytes and SOH, and nothing else |
| FixMessageEncoder.EncodeHeader | core/src/main/java/fixio/netty/codec/FixMessageEncoder.java:95-108 | appends the 35, 49, 56 and 34 fields in that order |
| FixMessageEncoder.CreateBodyBuf | core/src/main/java/fixio/netty/codec/FixMessageEncoder.java:66-78 | a fresh buffer holding the header fields and then every body Field in body order, groups skipped |
| FixMessageEncoder.CalculateChecksum | core/src/main/java/fixio/netty/codec/FixMessageEncoder.java:117-123 | the bytes from offset to the writer index read as signed Java bytes, summed, and reduced with Java's truncating % 256; when those bytes are all below 128 that is their plain sum mod 256 |
| FixMessageEncoder.JavaRem256 | core/src/main/java/fixio/netty/codec/FixMessageEncoder.java:122 | Java's x % 256: below 256 in magnitude, never of the opposite sign to x, and the plain remainder for non-negative x |
| FixMessageEncoder.SevenBitSignedSum | core/src/main/java/fixio/netty/codec/FixMessageEncoder.java:120 | bytes below 128 read as signed bytes sum to their plain sum |
| FixMessageEncoder.CountedIsSevenBit | core/src/main/java/fixio/netty/codec/FixMessageEncoder.java:45-59 | every byte the encoder writes before the CheckSum field is below 128, whatever the field text, so the signed reading changes nothing |
| FixMessageEncoder.ChecksumOfCounted | core/src/main/java/fixio/netty/codec/FixMessageEncoder.java:59 | on the bytes encode sums, the checksum calculateChecksum returns is their plain byte sum mod 256 |
| FixMessageEncoder.Encode | core/src/main/java/fixio/netty/codec/FixMessageEncoder.java:37-64 | returns the validation outcome; on failure out is unchanged; on success exactly Wire(header, body) is appended after the bytes already in out, which are kept and not summed |
| FixMessageEncoder.Pad3 | core/src/main/java/fixio/netty/codec/FixMessageEncoder.java:62 | the checksum is written as exactly three digits denoting it |
| FixMessageEncoder.BodyBytesConcat | core/src/main/java/fixio/netty/codec/FixMessageEncoder.java:72-76 | the body is written fragment by fragment in order: the bytes of a + b are those of a followed by those of b |
| FixMessageEncoder.GroupsAreSkipped | core/src/main/java/fixio/netty/codec/FixMessageEncoder.java:73-75 | a group anywhere in the body contributes no bytes |
| FixMessageEncoder.DecimalValueOfDigits | core/src/main/java/fixio/netty/codec/FixMessageEncoder.java:111 | the ASCII bytes of digit text are digit bytes that denote the same number |
| FixMessageEncoder.FieldBytesParts | core/src/main/java/fixio/netty/codec/FixMessageEncoder.java:110-115 | a written field splits back into the decimal tag (denoting the tag), '=', the value's bytes and a final SOH |
| FixMessageEncoder.CheckSumFieldLength | core/src/main/java/fixio/netty/codec/FixMessageEncoder.java:62 | the CheckSum field is always exactly 7 bytes |
| FixMessageEncoder.BodyLengthIsExact | core/src/main/java/fixio/netty/codec/FixMessageEncoder.java:45-57 | the wire starts with the 8 and 9 fields; the digits of 9 denote exactly the byte count from after 9's SOH to the "10=" of CheckSum; those bytes are the payload |
| FixMessageEncoder.CheckSumIsExact | core/src/main/java/fixio/netty/codec/FixMessageEncoder.java:59-62 | the wire is the 8 and 9 fields plus the payload, followed by a 7-byte CheckSum field whose three digits denote the byte sum, mod 256, of everything before "10="; the wire ends with SOH |
| FixMessageEncoder.CheckSumTrailer | core/src/main/java/fixio/netty/codec/FixMessageEncoder.java:59-62 | any prefix followed by the CheckSum field of its own byte sum gains 7 bytes whose three digits denote that sum mod 256, closed by SOH |
| SessionHandler.GetSession | core/src/main/java/fixio/netty/pipeline/AbstractSessionHandler.java:49-52 | the session in the slot of the channel, null exactly when no session is established |
| SessionHandler.SetSession | core/src/main/java/fixio/netty/pipeline/AbstractSessionHandler.java:54-58 | stores the session and returns true iff the slot was empty; an existing session is never replaced |
| SessionHandler.ChannelInactive | core/src/main/java/fixio/netty/pipeline/AbstractSessionHandler.java:37-42 | returns the session that was in the slot and leaves the slot empty |
| SessionHandler.UpdateFixMessageHeader | core/src/main/java/fixio/netty/pipeline/AbstractSessionHandler.java:33-35 | with a session, calls its prepareOutgoing once on the message; without one, fails and leaves the message unchanged |
| SessionHandler.Encode | core/src/main/java/fixio/netty/pipeline/AbstractSessionHandler.java:60-65 | with a session, prepareOutgoing is called once, then the message is appended to out once; without one, it fails and out and the message are unchanged |
| SessionHandler.Decode | core/src/main/java/fixio/netty/pipeline/AbstractSessionHandler.java:67-83 | with no session, out is unchanged and the channel is closed; with one, checkIncomingSeqNum is called once with the header's MsgSeqNum and the message is appended once whatever the result; the slot and the message are unchanged |
| SessionHandler.CreateReject | core/src/main/java/fixio/netty/pipeline/AbstractSessionHandler.java:93-98 | a Reject whose RefSeqNum is originalMsg.getInt(34), a body lookup, and whose RefMsgType is the original message type; a failing lookup is passed through |
| SessionHandler.RejectOfAssembledMessage | core/src/main/java/fixio/netty/pipeline/AbstractSessionHandler.java:95 | for every message built by add, RefSeqNum is null whatever the header's MsgSeqNum |
| SessionHandler.CreateRejectIntended | core/src/main/java/fixio/netty/pipeline/AbstractSessionHandler.java:93-98 | the corrected Reject: RefSeqNum is the original header's MsgSeqNum and RefMsgType its message type |
| SessionHandler.RejectOfSequencedOrder | core/src/main/java/fixio/netty/pipeline/AbstractSessionHandler.java:95 | for a "D" message with MsgSeqNum 7, the Reject as written has RefSeqNum null; the intended one has 7 |

## Findings

| source | as written | input that shows it | evidently intended | confidence | as-written member | corrected member |
|---|---|---|---|---|---|---|
| core/src/main/java/fixio/netty/pipeline/AbstractSessionHandler.java:95 | RefSeqNum is read with getInt(34), which searches the body; add stores tag 34 in the header and never in the body | new FixMessageImpl("D") followed by add(34, "7") | RefSeqNum = the original MsgSeqNum, 7 | medium (only for messages assembled by add; not executed) | SessionHandler.RejectOfSequencedOrder | SessionHandler.CreateRejectIntended |

## Left out

- Netty machinery: the ByteBuf allocator, reader indices, `ctx.flush`, `ctx.writeAndFlush` and the codec base classes. Buffers are `seq` of bytes; closing the channel clears the `open` flag.
- `sendReject`: it only hands the Reject to the transport (`writeAndFlush`); its `closeConnection` parameter is unused.
- Logging (`getLogger`, every info/debug/error call) and `toString`: diagnostics only. `getNextIncomingMessageSeqNum` is modelled but used only in a log call.
- Concurrency: the attribute's `compareAndSet` and `getAndRemove` are modelled as sequential steps.
- `String.intern`: not observable.
- The `FieldType` overloads of `add`, `getString` and `getInt` forward to the tag-number overloads. They are modelled by those overloads, with a `FieldType` given by its tag.
- `getBody` returns the live body list. Changes made through it are not modelled: the body changes only through `add`, which is what `Valid` relies on.
- The header is a value inside the message. Sharing the mutable `FixMessageHeader` object that `getHeader` returns is not modelled.
- `FixSession`, `SimpleFixMessage`, `FixMessageHeader` and `FieldType` beyond the tag-to-slot mapping are not part of this model. The session is a stand-in, and the Reject is the `RejectMessage` value of its three fields. What `SimpleFixMessage.add` does with a null RefSeqNum is not modelled: it might store it, or throw when unboxing.
- The decoder and the decode/encode round trip are not part of this model.
- Group serialisation: the encoder skips non-Field fragments.
- The handler (`SessionHandler.Encode`, `SessionHandler.Decode`, `SessionHandler.CreateReject`) and the encoder (`FixMessageEncoder.Encode`, `FixMessageEncoder.CreateBodyBuf`) take `FixMessageImpl`. The source takes any `FixMessage`, including the `SimpleFixMessage` Reject, whose class is not part of this model.
- FieldTypes.REJECT: the value "3" stands for `MessageTypes.REJECT`, which is not part of this model; "3" is the Reject MsgType of FIX.
- Java `assert` lines (positive tag, non-null value, non-null session) become `requires` clauses or non-null types. Null values passed to `add` are not modelled, and neither is a null message type passed to `new FixMessageImpl(messageType)` or `setMessageType` (`FixMessages.FixMessageImpl.OfType`, `FixMessages.FixMessageImpl.SetMessageType` take a string). A header whose MsgType was never set is modelled, and `ValidateRequiredFields` reports it.
- JavaInts.ParseInt: only the ASCII digits 0-9 are digits. Java's `Character.digit` also accepts other Unicode decimal digits.
- FixMessageEncoder.CalculateChecksum: its `int` sum can overflow only for more than about 16.9 million bytes. That case is not modelled; the sum is unbounded. The signed `getByte` and the truncating `%` are modelled.
- FixMessageEncoder.Pad3: `String.format("%1$03d", checksum)` writes the digits of the default locale. The model assumes a locale with the ASCII digits 0-9; under one with other digits (Arabic-Indic, say) those characters become '?' in US-ASCII, and Pad3, CheckSumIsExact and CheckSumTrailer would not hold of the source.
- FixMessages.EMPTY_HEADER and EMPTY_TRAILER: `FixMessageHeader` and `FixMessageTrailer` are not part of this model. Their defaults (null string slots, MsgSeqNum 0, CheckSum 0) are assumed from Java's field defaults; they decide that an unstamped message encodes "34=0". The setters of both classes are assumed to store their argument unchanged; in particular `setCheckSum` keeps any `int` that `add(10, v)` parses.
