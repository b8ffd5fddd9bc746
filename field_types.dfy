/** The slice of the field registry (`FieldType.forTag`) that message
    assembly dispatches on: the six tags with a header or trailer slot, every
    other tag resolving to the generic body descriptor. */
module FieldTypes {

  const BEGIN_STRING: int := 8
  const BODY_LENGTH: int := 9
  const CHECK_SUM: int := 10
  const MSG_SEQ_NUM: int := 34
  const MSG_TYPE: int := 35
  const SENDER_COMP_ID: int := 49
  const TARGET_COMP_ID: int := 56

  /** MsgType value of a session-level Reject. */
  const REJECT: string := "3"

  datatype FieldType =
    | BeginString | CheckSum | MsgSeqNum | MsgType | SenderCompID | TargetCompID
    | Other  // every tag without a header or trailer slot

  /** `FieldType.forTag(tag)`: the descriptor of a header or trailer slot for
      its own tag, `Other` for every remaining tag. */
  function ForTag(tag: int): (r: FieldType)
    ensures r != Other ==> Tag(r) == tag
    ensures r == Other <==>
      tag !in {BEGIN_STRING, CHECK_SUM, MSG_SEQ_NUM, MSG_TYPE, SENDER_COMP_ID, TARGET_COMP_ID}
  {
    if tag == BEGIN_STRING then BeginString
    else if tag == CHECK_SUM then CheckSum
    else if tag == MSG_SEQ_NUM then MsgSeqNum
    else if tag == MSG_TYPE then MsgType
    else if tag == SENDER_COMP_ID then SenderCompID
    else if tag == TARGET_COMP_ID then TargetCompID
    else Other
  }

  /** The tag number of a descriptor with a header or trailer slot. */
  function Tag(ft: FieldType): int
    requires ft != Other
  {
    match ft
    case BeginString => BEGIN_STRING
    case CheckSum => CHECK_SUM
    case MsgSeqNum => MSG_SEQ_NUM
    case MsgType => MSG_TYPE
    case SenderCompID => SENDER_COMP_ID
    case TargetCompID => TARGET_COMP_ID
  }

  /** Each slot is owned by exactly one tag: `Tag` and `ForTag` are inverse. */
  lemma ForTagIsInverse(tag: int, ft: FieldType)
    requires ft != Other
    ensures ForTag(tag) == ft <==> tag == Tag(ft)
  {
  }
}
