/**
 * The call prompt of the user list (src/components/Users.jsx): a one-slot
 * state `incomingCall`, filled by an `incoming_call` event addressed to the
 * logged-in user and emptied by accepting or declining; dialling, accepting
 * and declining emit fixed-shape socket messages.
 */
module UsersView {
  import opened Wire

  /** The filter of `handleIncomingCall`: `data.receiver === loggedInUser`. */
  predicate AddressedTo(data: Payload, loggedInUser: Value)
  {
    Field(data, "receiver") == Some(loggedInUser)
  }

  /** `dial_user {caller: loggedInUser, receiver: user}`. */
  function DialMessage(loggedInUser: Value, user: Value): Message
  {
    Message("dial_user", map["caller" := loggedInUser, "receiver" := user])
  }

  /** `call_accepted` with the pending call's caller and receiver. */
  function AcceptMessage(call: Payload): Message
  {
    Message("call_accepted", Put(Put(map[], "caller", Field(call, "caller")), "receiver", Field(call, "receiver")))
  }

  /** `send_offer {receiver: incomingCall.caller}`. */
  function OfferRequest(call: Payload): Message
  {
    Message("send_offer", Put(map[], "receiver", Field(call, "caller")))
  }

  /** `call_declined` with the pending call's caller and receiver. */
  function DeclineMessage(call: Payload): Message
  {
    Message("call_declined", Put(Put(map[], "caller", Field(call, "caller")), "receiver", Field(call, "receiver")))
  }

  class Users {
    /** The `loggedInUser` prop: a username, or null before login. */
    const loggedInUser: Value
    /** The `incomingCall` state: null, or the pending call's message. */
    var incomingCall: Option<Payload>
    /** Every `socket.emit` made so far, in order. */
    var sent: seq<Message>

    /** A pending call is always one addressed to the logged-in user. */
    ghost predicate Valid()
      reads this
    {
      && !loggedInUser.Obj?
      && (incomingCall.Some? ==> AddressedTo(incomingCall.value, loggedInUser))
    }

    constructor (loggedInUser: Value)
      requires !loggedInUser.Obj?
      ensures Valid()
      ensures this.loggedInUser == loggedInUser && incomingCall == None && sent == []
    {
      this.loggedInUser := loggedInUser;
      incomingCall := None;
      sent := [];
    }

    /**
     * `handleIncomingCall`: a call addressed to the logged-in user replaces
     * whatever was pending; any other call is ignored.
     */
    method HandleIncomingCall(data: Payload)
      requires Valid()
      modifies this`incomingCall
      ensures Valid()
      ensures AddressedTo(data, loggedInUser) ==> incomingCall == Some(data)
      ensures !AddressedTo(data, loggedInUser) ==> incomingCall == old(incomingCall)
    {
      if Field(data, "receiver") == Some(loggedInUser) {
        incomingCall := Some(data);
      }
    }

    /**
     * `handleDial`: with no logged-in user nothing is emitted (the user is
     * alerted); otherwise exactly one `dial_user` naming the logged-in user
     * as caller and the chosen user as receiver.
     */
    method HandleDial(user: Value)
      modifies this`sent
      ensures !JsTruthy(Some(loggedInUser)) ==> sent == old(sent)
      ensures JsTruthy(Some(loggedInUser)) ==> sent == old(sent) + [DialMessage(loggedInUser, user)]
      ensures JsTruthy(Some(loggedInUser)) ==>
                && Field(sent[|sent| - 1].data, "caller") == Some(loggedInUser)
                && Field(sent[|sent| - 1].data, "receiver") == Some(user)
                && Field(sent[|sent| - 1].data, "callee") == None
    {
      if !JsTruthy(Some(loggedInUser)) {
        return;
      }
      sent := sent + [DialMessage(loggedInUser, user)];
    }

    /**
     * `handleAcceptCall`: with nothing pending, nothing happens; otherwise
     * `call_accepted` with the call's parties, the slot is cleared, and then
     * `send_offer` naming the original caller as receiver.
     */
    method HandleAcceptCall()
      requires Valid()
      modifies this`incomingCall, this`sent
      ensures Valid()
      ensures old(incomingCall).None? ==> incomingCall == None && sent == old(sent)
      ensures old(incomingCall).Some? ==>
                var call := old(incomingCall).value;
                && incomingCall == None
                && sent == old(sent) + [AcceptMessage(call), OfferRequest(call)]
                && Field(sent[|sent| - 2].data, "caller") == Field(call, "caller")
                && Field(sent[|sent| - 2].data, "receiver") == Some(loggedInUser)
                && Field(sent[|sent| - 1].data, "receiver") == Field(call, "caller")
    {
      if incomingCall.Some? {
        var call := incomingCall.value;
        sent := sent + [AcceptMessage(call)];
        incomingCall := None;
        sent := sent + [OfferRequest(call)];
      }
    }

    /**
     * The Decline button: `call_declined` with the pending call's parties,
     * then the slot is cleared. The button is only on screen while a call is
     * pending, so the handler is only reachable then.
     */
    method HandleDecline()
      requires Valid() && incomingCall.Some?
      modifies this`incomingCall, this`sent
      ensures Valid()
      ensures incomingCall == None
      ensures sent == old(sent) + [DeclineMessage(old(incomingCall).value)]
      ensures Field(sent[|sent| - 1].data, "caller") == Field(old(incomingCall).value, "caller")
      ensures Field(sent[|sent| - 1].data, "receiver") == Some(loggedInUser)
    {
      var call := incomingCall.value;
      sent := sent + [DeclineMessage(call)];
      incomingCall := None;
    }
  }
}
