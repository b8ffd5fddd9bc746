/** A stand-in for `FixSession`, whose source is not part of this model. It
    records, in a ghost trace, every call the session handler makes on it, and
    follows the FIX session-level rule for MsgSeqNum (tag 34): an incoming
    number is accepted, and the expected number advanced, only when it equals
    the expected one; an outgoing message is stamped with the next outgoing
    number, which then advances. Both counters are Java `int`s and wrap
    around; that is this stand-in's choice, not something the handler relies
    on. The handler's contracts use only the trace. */
module FixSessions {
  import opened JavaInts
  import opened FixMessages

  /** A call the handler made on the session. */
  datatype SessionCall =
    | CheckedIncoming(seqNum: Int32)
    | PreparedOutgoing(msg: FixMessageImpl)

  /** Java `x + 1` on an `int`. */
  function Inc32(x: Int32): (r: Int32)
    ensures x < MAX_INT ==> r == x + 1
    ensures x == MAX_INT ==> r == MIN_INT
  {
    if x == MAX_INT then MIN_INT else x + 1
  }

  class FixSession {
    var nextIncoming: Int32
    var nextOutgoing: Int32
    ghost var calls: seq<SessionCall>

    constructor (firstIncoming: Int32, firstOutgoing: Int32)
      ensures nextIncoming == firstIncoming && nextOutgoing == firstOutgoing && calls == []
    {
      nextIncoming, nextOutgoing, calls := firstIncoming, firstOutgoing, [];
    }

    /** `checkIncomingSeqNum(msgSeqNum)`. */
    method CheckIncomingSeqNum(seqNum: Int32) returns (accepted: bool)
      modifies this
      ensures calls == old(calls) + [CheckedIncoming(seqNum)]
      ensures accepted <==> seqNum == old(nextIncoming)
      ensures nextIncoming == if accepted then Inc32(old(nextIncoming)) else old(nextIncoming)
      ensures nextOutgoing == old(nextOutgoing)
    {
      calls := calls + [CheckedIncoming(seqNum)];
      accepted := seqNum == nextIncoming;
      if accepted {
        nextIncoming := Inc32(nextIncoming);
      }
    }

    /** `prepareOutgoing(msg)`. */
    method PrepareOutgoing(msg: FixMessageImpl)
      modifies this, msg
      ensures calls == old(calls) + [PreparedOutgoing(msg)]
      ensures msg.header == old(msg.header).(msgSeqNum := old(nextOutgoing))
      ensures msg.body == old(msg.body) && msg.trailer == old(msg.trailer)
      ensures nextOutgoing == Inc32(old(nextOutgoing)) && nextIncoming == old(nextIncoming)
    {
      calls := calls + [PreparedOutgoing(msg)];
      msg.header := msg.header.(msgSeqNum := nextOutgoing);
      nextOutgoing := Inc32(nextOutgoing);
    }

    /** `getNextIncomingMessageSeqNum()`. */
    function NextIncomingMessageSeqNum(): Int32
      reads this
    {
      nextIncoming
    }
  }
}
