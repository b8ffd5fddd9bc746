/** The in-memory FIX message (`FixMessageImpl`): a header record, an ordered
    body of fragments and a trailer record, assembled by `add(tag, value)`,
    which routes each tag to its header slot, its trailer slot or the end of
    the body. */
module FixMessages {
  import opened Wrappers
  import opened JavaInts
  import opened FieldTypes

  /** A body fragment: a plain field or a repeating group. */
  datatype Fragment =
    | Field(tag: int, value: string)
    | GroupField(tag: int, groups: seq<Group>)

  /** One repetition of a repeating group. */
  datatype Group = Group(fragments: seq<Fragment>)

  /** Standard Header; a `None` slot is a Java null. */
  datatype Header = Header(
    beginString: Option<string>,
    messageType: Option<string>,
    senderCompID: Option<string>,
    targetCompID: Option<string>,
    msgSeqNum: Int32)

  /** Standard Trailer. */
  datatype Trailer = Trailer(checkSum: Int32)

  const EMPTY_HEADER: Header := Header(None, None, None, None, 0)
  const EMPTY_TRAILER: Trailer := Trailer(0)

  /** The value of a message: what a `FixMessageImpl` holds at one moment. */
  datatype MessageState = MessageState(header: Header, body: seq<Fragment>, trailer: Trailer)

  datatype Error =
    | NumberFormat(input: string)  // NumberFormatException from Integer.parseInt
    | NotAField(tag: int)          // the first fragment with the tag is a group
    | Required(field: FieldType)   // a header field the encoder needs is null

  /** The header slots that hold strings. */
  predicate IsStringSlot(ft: FieldType) {
    ft == BeginString || ft == MsgType || ft == SenderCompID || ft == TargetCompID
  }

  function HeaderSlot(h: Header, ft: FieldType): Option<string>
    requires IsStringSlot(ft)
  {
    match ft
    case BeginString => h.beginString
    case MsgType => h.messageType
    case SenderCompID => h.senderCompID
    case TargetCompID => h.targetCompID
  }

  /** `add(tagNum, value)` on a message value. */
  function AddField(m: MessageState, tag: int, value: string): (r: Result<MessageState, Error>)
    requires 0 < tag
    ensures r.Failure? <==> (ForTag(tag) == MsgSeqNum || ForTag(tag) == CheckSum) && ParseInt(value).None?
    ensures r.Failure? ==> r.error == NumberFormat(value)
  {
    match ForTag(tag)
    case BeginString => Success(m.(header := m.header.(beginString := Some(value))))
    case CheckSum =>
      (match ParseInt(value)
       case None => Failure(NumberFormat(value))
       case Some(n) => Success(m.(trailer := Trailer(n))))
    case SenderCompID => Success(m.(header := m.header.(senderCompID := Some(value))))
    case TargetCompID => Success(m.(header := m.header.(targetCompID := Some(value))))
    case MsgSeqNum =>
      (match ParseInt(value)
       case None => Failure(NumberFormat(value))
       case Some(n) => Success(m.(header := m.header.(msgSeqNum := n))))
    case MsgType => Success(m.(header := m.header.(messageType := Some(value))))
    case Other => Success(m.(body := m.body + [Field(tag, value)]))
  }

  /** No fragment of the body carries a tag that owns a header or trailer slot. */
  ghost predicate SlotFree(body: seq<Fragment>) {
    forall i :: 0 <= i < |body| ==> ForTag(body[i].tag) == Other
  }

  /** `i` is the position of the first fragment of `body` with tag `tag`. */
  ghost predicate FirstAt(body: seq<Fragment>, tag: int, i: int) {
    && 0 <= i < |body|
    && body[i].tag == tag
    && forall j :: 0 <= j < i ==> body[j].tag != tag
  }

  /** The first-match search of `getFirst`, as the position it stops at. */
  function FirstIndexOf(body: seq<Fragment>, tag: int): (r: Option<nat>)
    ensures r.Some? ==> FirstAt(body, tag, r.value)
    ensures r.None? <==> forall i :: 0 <= i < |body| ==> body[i].tag != tag
  {
    if body == [] then None
    else if body[0].tag == tag then Some(0)
    else
      match FirstIndexOf(body[1..], tag)
      case None => None
      case Some(k) => Some(k + 1)
  }

  // ---------------------------------------------------------------------------
  // What add does to a message value

  /** A string header tag (8, 35, 49, 56) sets exactly its own header slot;
      the other slots, the body and the trailer are unchanged. */
  lemma AddStringHeaderTag(m: MessageState, tag: int, value: string)
    requires 0 < tag && IsStringSlot(ForTag(tag))
    ensures AddField(m, tag, value).Success?
    ensures var m' := AddField(m, tag, value).value;
      && HeaderSlot(m'.header, ForTag(tag)) == Some(value)
      && (forall ft :: IsStringSlot(ft) && ft != ForTag(tag) ==> HeaderSlot(m'.header, ft) == HeaderSlot(m.header, ft))
      && m'.header.msgSeqNum == m.header.msgSeqNum
      && m'.body == m.body
      && m'.trailer == m.trailer
  {
  }

  /** Tag 34 parses its value into the header's msgSeqNum and fails, changing
      nothing, on text that is not an `int`; body and trailer are unchanged. */
  lemma AddMsgSeqNumTag(m: MessageState, tag: int, value: string)
    requires 0 < tag && ForTag(tag) == MsgSeqNum
    ensures AddField(m, tag, value).Success? <==> ParseInt(value).Some?
    ensures AddField(m, tag, value).Failure? ==> AddField(m, tag, value).error == NumberFormat(value)
    ensures AddField(m, tag, value).Success? ==>
      AddField(m, tag, value).value == m.(header := m.header.(msgSeqNum := ParseInt(value).value))
  {
  }

  /** Tag 10 parses its value into the trailer's checksum, likewise. */
  lemma AddCheckSumTag(m: MessageState, tag: int, value: string)
    requires 0 < tag && ForTag(tag) == CheckSum
    ensures AddField(m, tag, value).Success? <==> ParseInt(value).Some?
    ensures AddField(m, tag, value).Failure? ==> AddField(m, tag, value).error == NumberFormat(value)
    ensures AddField(m, tag, value).Success? ==>
      AddField(m, tag, value).value == m.(trailer := Trailer(ParseInt(value).value))
  {
  }

  /** Any other tag appends exactly one `Field(tag, value)` at the end of the
      body, keeping every earlier fragment; header and trailer are unchanged. */
  lemma AddBodyTag(m: MessageState, tag: int, value: string)
    requires 0 < tag && ForTag(tag) == Other
    ensures AddField(m, tag, value).Success?
    ensures var m' := AddField(m, tag, value).value;
      && |m'.body| == |m.body| + 1
      && m'.body[..|m.body|] == m.body
      && m'.body[|m.body|] == Field(tag, value)
      && m'.header == m.header
      && m'.trailer == m.trailer
  {
    var m' := AddField(m, tag, value).value;
    assert m'.body == m.body + [Field(tag, value)];
  }

  /** Adding an `int` as its decimal text never fails and stores exactly that
      `int` in a numeric slot. */
  lemma AddIntStoresValue(m: MessageState, tag: int, value: Int32)
    requires 0 < tag
    ensures AddField(m, tag, IntToString(value)).Success?
    ensures ForTag(tag) == MsgSeqNum ==>
      AddField(m, tag, IntToString(value)).value == m.(header := m.header.(msgSeqNum := value))
    ensures ForTag(tag) == CheckSum ==>
      AddField(m, tag, IntToString(value)).value == m.(trailer := Trailer(value))
  {
    ParseIntToString(value);
  }

  /** `add` never puts a header or trailer tag into the body. */
  lemma AddKeepsSlotFree(m: MessageState, tag: int, value: string)
    requires 0 < tag && SlotFree(m.body) && AddField(m, tag, value).Success?
    ensures SlotFree(AddField(m, tag, value).value.body)
  {
  }

  /** A fragment appended later never shadows an earlier one with the same tag. */
  lemma {:induction false} FirstIndexOfAppend(body: seq<Fragment>, extra: seq<Fragment>, tag: int)
    requires FirstIndexOf(body, tag).Some?
    ensures FirstIndexOf(body + extra, tag) == FirstIndexOf(body, tag)
  {
    if body[0].tag != tag {
      assert (body + extra)[1..] == body[1..] + extra;
      FirstIndexOfAppend(body[1..], extra, tag);
    }
  }

  /** Hence `add` leaves the first match of every tag already present where it was. */
  lemma AddKeepsFirstMatch(m: MessageState, tag: int, value: string, t: int)
    requires 0 < tag && AddField(m, tag, value).Success? && FirstIndexOf(m.body, t).Some?
    ensures FirstIndexOf(AddField(m, tag, value).value.body, t) == FirstIndexOf(m.body, t)
  {
    if ForTag(tag) == Other {
      FirstIndexOfAppend(m.body, [Field(tag, value)], t);
    }
  }

  // ---------------------------------------------------------------------------
  // The mutable message

  class FixMessageImpl {
    var header: Header
    var trailer: Trailer
    var body: seq<Fragment>

    function State(): MessageState
      reads this
    {
      MessageState(header, body, trailer)
    }

    /** Kept by every operation below: header and trailer tags stay out of the body. */
    ghost predicate Valid()
      reads this
    {
      SlotFree(body)
    }

    /** `new FixMessageImpl()`. */
    constructor ()
      ensures State() == MessageState(EMPTY_HEADER, [], EMPTY_TRAILER)
      ensures Valid()
    {
      header, body, trailer := EMPTY_HEADER, [], EMPTY_TRAILER;
    }

    /** `new FixMessageImpl(messageType)`: an empty body and only the message type set. */
    constructor OfType(messageType: string)
      ensures State() == MessageState(EMPTY_HEADER.(messageType := Some(messageType)), [], EMPTY_TRAILER)
      ensures Valid()
    {
      header, body, trailer := EMPTY_HEADER.(messageType := Some(messageType)), [], EMPTY_TRAILER;
    }

    /** `add(tagNum, value)`: route by tag and return this same message;
        a numeric slot given non-numeric text throws and changes nothing. */
    method Add(tag: int, value: string) returns (r: Result<FixMessageImpl, Error>)
      requires 0 < tag
      modifies this
      ensures r.Success? <==> AddField(old(State()), tag, value).Success?
      ensures r.Success? ==> r.value == this && State() == AddField(old(State()), tag, value).value
      ensures r.Failure? ==> r.error == AddField(old(State()), tag, value).error && State() == old(State())
      ensures old(Valid()) ==> Valid()
    {
      match ForTag(tag) {
        case BeginString =>
          header := header.(beginString := Some(value));
        case CheckSum =>
          var n := ParseInt(value);
          if n.None? {
            return Failure(NumberFormat(value));
          }
          trailer := Trailer(n.value);
        case SenderCompID =>
          header := header.(senderCompID := Some(value));
        case TargetCompID =>
          header := header.(targetCompID := Some(value));
        case MsgSeqNum =>
          var n := ParseInt(value);
          if n.None? {
            return Failure(NumberFormat(value));
          }
          header := header.(msgSeqNum := n.value);
        case MsgType =>
          header := header.(messageType := Some(value));
        case Other =>
          body := body + [Field(tag, value)];
      }
      r := Success(this);
    }

    /** `add(tagNum, int value)`: the same as adding `String.valueOf(value)`;
        it never fails, and a numeric slot receives exactly `value`. */
    method AddInt(tag: int, value: Int32) returns (r: Result<FixMessageImpl, Error>)
      requires 0 < tag
      modifies this
      ensures r == Success(this)
      ensures State() == AddField(old(State()), tag, IntToString(value)).value
      ensures ForTag(tag) == MsgSeqNum ==> header == old(header).(msgSeqNum := value)
      ensures ForTag(tag) == CheckSum ==> trailer == Trailer(value)
      ensures old(Valid()) ==> Valid()
    {
      AddIntStoresValue(State(), tag, value);
      r := Add(tag, IntToString(value));
    }

    /** `setMessageType(messageType)`. */
    method SetMessageType(messageType: string)
      modifies this
      ensures header == old(header).(messageType := Some(messageType))
      ensures body == old(body) && trailer == old(trailer)
    {
      header := header.(messageType := Some(messageType));
    }

    /** `getHeader()`. */
    function GetHeader(): (r: Header)
      reads this
      ensures r == State().header
    {
      header
    }

    /** `getBody()`, as a value. */
    function GetBody(): (r: seq<Fragment>)
      reads this
      ensures r == State().body
    {
      body
    }

    /** `getMsgSeqNum()`: the header's MsgSeqNum. */
    function GetMsgSeqNum(): (r: Int32)
      reads this
      ensures r == GetHeader().msgSeqNum
    {
      header.msgSeqNum
    }

    /** `getMessageType()`: the header's MsgType. */
    function GetMessageType(): (r: Option<string>)
      reads this
      ensures r == GetHeader().messageType
    {
      header.messageType
    }

    /** `getChecksum()`: the trailer's CheckSum. */
    function GetChecksum(): (r: Int32)
      reads this
      ensures r == State().trailer.checkSum
    {
      trailer.checkSum
    }

    /** `getString(tagNum)`: the value of the first body fragment with the tag,
        null when there is none, and an error when that first fragment is a
        group; later fragments with the same tag are never seen. */
    function GetString(tag: int): (r: Result<Option<string>, Error>)
      reads this
      ensures r == Success(None) <==> forall i :: 0 <= i < |body| ==> body[i].tag != tag
      ensures forall i :: FirstAt(body, tag, i) && body[i].Field? ==> r == Success(Some(body[i].value))
      ensures forall i :: FirstAt(body, tag, i) && body[i].GroupField? ==> r == Failure(NotAField(tag))
    {
      match FirstIndexOf(body, tag)
      case None => Success(None)
      case Some(i) =>
        if body[i].Field? then Success(Some(body[i].value)) else Failure(NotAField(tag))
    }

    /** `getInt(tagNum)`: null exactly when `getString` is null, otherwise
        `Integer.parseInt` of that string; both throw through. */
    function GetInt(tag: int): (r: Result<Option<Int32>, Error>)
      reads this
      ensures r == Success(None) <==> GetString(tag) == Success(None)
      ensures GetString(tag).Failure? ==> r == Failure(GetString(tag).error)
      ensures GetString(tag).Success? && GetString(tag).value.Some? ==>
        var s := GetString(tag).value.value;
        r == if ParseInt(s).Some? then Success(Some(ParseInt(s).value)) else Failure(NumberFormat(s))
    {
      match GetString(tag)
      case Failure(e) => Failure(e)
      case Success(None) => Success(None)
      case Success(Some(s)) =>
        match ParseInt(s)
        case None => Failure(NumberFormat(s))
        case Some(n) => Success(Some(n))
    }

    /** `getGroups(tagNum)`: the groups when the first fragment with the tag is
        a group, and null otherwise (no fragment, or a plain field). */
    function GetGroups(tag: int): (r: Option<seq<Group>>)
      reads this
      ensures r.Some? <==> exists i :: FirstAt(body, tag, i) && body[i].GroupField?
      ensures forall i :: FirstAt(body, tag, i) && body[i].GroupField? ==> r == Some(body[i].groups)
    {
      match FirstIndexOf(body, tag)
      case None => None
      case Some(i) => if body[i].GroupField? then Some(body[i].groups) else None
    }
  }
}
