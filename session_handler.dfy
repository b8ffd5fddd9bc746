/** `AbstractSessionHandler`: the codec step between decoded messages and the
    application. It keeps the connection's session in a slot of the channel
    context, sequence-checks every inbound message, stamps every outbound one,
    and builds session-level Reject messages. */
module SessionHandler {
  import opened Wrappers
  import opened JavaInts
  import opened FieldTypes
  import opened FixMessages
  import opened FixSessions

  /** What the handler reaches through its `ChannelHandlerContext`: the
      session attribute and whether the channel is still open. */
  class ChannelContext {
    var session: Option<FixSession>
    var open: bool

    constructor ()
      ensures session == None && open
    {
      session, open := None, true;
    }
  }

  /** The `out` list of a codec step: the messages passed on to the next handler. */
  class MessageList {
    var items: seq<FixMessageImpl>

    constructor ()
      ensures items == []
    {
      items := [];
    }

    method Add(msg: FixMessageImpl)
      modifies this
      ensures items == old(items) + [msg]
    {
      items := items + [msg];
    }
  }

  datatype HandlerError =
    | SessionNotEstablished  // the NullPointerException of calling a method on a missing session

  /** The objects a session call may change: the session itself, when there is one. */
  function SessionFootprint(ctx: ChannelContext): set<object>
    reads ctx
  {
    if ctx.session.Some? then {ctx.session.value} else {}
  }

  /** `getSession(ctx)`: the session slot, None (null) if no session is established. */
  function GetSession(ctx: ChannelContext): (r: Option<FixSession>)
    reads ctx
    ensures r.None? <==> ctx.session.None?
    ensures r.Some? ==> r.value == ctx.session.value
  {
    ctx.session
  }

  /** `setSession(ctx, fixSession)`: a compare-and-set against an empty slot;
      a session already there is never replaced. */
  method SetSession(ctx: ChannelContext, fixSession: FixSession) returns (stored: bool)
    modifies ctx
    ensures stored <==> old(ctx.session).None?
    ensures ctx.session == if stored then Some(fixSession) else old(ctx.session)
    ensures ctx.open == old(ctx.open)
  {
    stored := ctx.session.None?;
    if stored {
      ctx.session := Some(fixSession);
    }
  }

  /** `channelInactive(ctx)`: removes the session from the slot. */
  method ChannelInactive(ctx: ChannelContext) returns (removed: Option<FixSession>)
    modifies ctx
    ensures removed == old(ctx.session)
    ensures GetSession(ctx) == None
    ensures ctx.open == old(ctx.open)
  {
    removed := ctx.session;
    ctx.session := None;
  }

  /** `updateFixMessageHeader(ctx, response)`: hands the message to the
      session's `prepareOutgoing`; with no session this throws. */
  method UpdateFixMessageHeader(ctx: ChannelContext, msg: FixMessageImpl) returns (r: Outcome<HandlerError>)
    modifies msg, SessionFootprint(ctx)
    ensures r == if ctx.session.None? then Fail(SessionNotEstablished) else Pass
    ensures r.Fail? ==> unchanged(msg)
    ensures r.Pass? ==> ctx.session.value.calls == old(ctx.session.value.calls) + [PreparedOutgoing(msg)]
  {
    match GetSession(ctx) {
      case None =>
        r := Fail(SessionNotEstablished);
      case Some(session) =>
        session.PrepareOutgoing(msg);
        r := Pass;
    }
  }

  /** Outbound `encode(ctx, msg, out)`: the session stamps the message, then
      the message is passed on exactly once; with no session nothing is
      passed on. */
  method Encode(ctx: ChannelContext, msg: FixMessageImpl, out: MessageList) returns (r: Outcome<HandlerError>)
    modifies msg, out, SessionFootprint(ctx)
    ensures r == if ctx.session.None? then Fail(SessionNotEstablished) else Pass
    ensures r.Fail? ==> out.items == old(out.items) && unchanged(msg)
    ensures r.Pass? ==> ctx.session.value.calls == old(ctx.session.value.calls) + [PreparedOutgoing(msg)]
    ensures r.Pass? ==> out.items == old(out.items) + [msg]
  {
    r := UpdateFixMessageHeader(ctx, msg);
    if r.Fail? {
      return;
    }
    out.Add(msg);
  }

  /** Inbound `decode(ctx, msg, out)`: with no session the message is dropped
      and the channel closed; otherwise the session checks the header's
      MsgSeqNum once and the message is passed on exactly once, whatever the
      check says. */
  method Decode(ctx: ChannelContext, msg: FixMessageImpl, out: MessageList)
    modifies ctx`open, out, SessionFootprint(ctx)
    ensures ctx.session == old(ctx.session) && unchanged(msg)
    ensures old(ctx.session).None? ==> !ctx.open && out.items == old(out.items)
    ensures old(ctx.session).Some? ==>
      && ctx.session.value.calls == old(ctx.session.value.calls) + [CheckedIncoming(msg.header.msgSeqNum)]
      && out.items == old(out.items) + [msg]
      && ctx.open == old(ctx.open)
  {
    var session := GetSession(ctx);
    if session.None? {
      ctx.open := false;
      return;
    }
    var header := msg.GetHeader();
    var msgSeqNum := header.msgSeqNum;
    var accepted := session.value.CheckIncomingSeqNum(msgSeqNum);
    out.Add(msg);
  }

  // ---------------------------------------------------------------------------
  // Reject construction

  /** The content of the Reject the handler builds. `None` stands for the
      Java null the handler may pass as a value. */
  datatype RejectMessage = RejectMessage(messageType: string, refSeqNum: Option<Int32>, refMsgType: Option<string>)

  /** `createReject(originalMsg)`: a Reject whose RefSeqNum is
      `originalMsg.getInt(34)`, a search of the BODY for tag 34, and whose
      RefMsgType is the original header's message type; a failing lookup throws. */
  function CreateReject(originalMsg: FixMessageImpl): (r: Result<RejectMessage, Error>)
    reads originalMsg
    ensures originalMsg.GetInt(MSG_SEQ_NUM).Failure? ==> r == Failure(originalMsg.GetInt(MSG_SEQ_NUM).error)
    ensures originalMsg.GetInt(MSG_SEQ_NUM).Success? ==>
      r == Success(RejectMessage(REJECT, originalMsg.GetInt(MSG_SEQ_NUM).value, originalMsg.header.messageType))
  {
    match originalMsg.GetInt(MSG_SEQ_NUM)
    case Failure(e) => Failure(e)
    case Success(refSeqNum) => Success(RejectMessage(REJECT, refSeqNum, originalMsg.GetMessageType()))
  }

  /** For every message assembled by `add`, the body holds no tag 34, so the
      Reject's RefSeqNum is null whatever MsgSeqNum the header carries. */
  lemma RejectOfAssembledMessage(originalMsg: FixMessageImpl)
    requires originalMsg.Valid()
    ensures CreateReject(originalMsg) == Success(RejectMessage(REJECT, None, originalMsg.header.messageType))
  {
    forall i | 0 <= i < |originalMsg.body|
      ensures originalMsg.body[i].tag != MSG_SEQ_NUM
    {
      assert ForTag(originalMsg.body[i].tag) == Other;
    }
  }

  /** The Reject the handler evidently means to build: RefSeqNum is the
      original header's MsgSeqNum. */
  function CreateRejectIntended(originalMsg: FixMessageImpl): (r: RejectMessage)
    reads originalMsg
    ensures r.messageType == REJECT
    ensures r.refSeqNum == Some(originalMsg.header.msgSeqNum)
    ensures r.refMsgType == originalMsg.header.messageType
  {
    RejectMessage(REJECT, Some(originalMsg.GetMsgSeqNum()), originalMsg.GetMessageType())
  }

  /** An order ("D") received with MsgSeqNum 7: as written the Reject loses the
      7; the intended Reject carries it. */
  method RejectOfSequencedOrder() returns (asWritten: Result<RejectMessage, Error>, intended: RejectMessage)
    ensures asWritten == Success(RejectMessage(REJECT, None, Some("D")))
    ensures intended == RejectMessage(REJECT, Some(7), Some("D"))
  {
    var original := new FixMessageImpl.OfType("D");
    assert ParseInt("7") == Some(7) by {
      assert "7"[..0] == [];
    }
    var added := original.Add(MSG_SEQ_NUM, "7");
    assert original.header.msgSeqNum == 7;
    RejectOfAssembledMessage(original);
    asWritten := CreateReject(original);
    intended := CreateRejectIntended(original);
  }
}
