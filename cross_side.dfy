/**
 * What follows when the browser side and the relay are put together as
 * written. The clients name the callee `receiver` in `dial_user`,
 * `call_accepted` and the offer request, while the relay reads `callee`
 * from those events and sends `incoming_call` with a `callee` key, which
 * the client filters on `receiver`. The answer path, where both sides say
 * `caller`/`callee`, does line up.
 */
module CrossSide {
  import opened Wire
  import opened Relay
  import opened UsersView
  import opened VideoChatView

  /** The client's `dial_user` has no `callee`, so the relay's presence gate never opens. */
  lemma ClientDialNeverPassesPresenceGate(loggedIn: set<string>, me: Value, user: Value)
    ensures Get(DialMessage(me, user).data, "callee") == Null
    ensures !Online(loggedIn, Get(DialMessage(me, user).data, "callee"))
  {
  }

  /** The relay's `incoming_call` has no `receiver`, so the client's filter never stores it. */
  lemma RelayIncomingCallNeverStored(caller: Value, callee: Value, me: Value)
    ensures !AddressedTo(IncomingCallPayload(caller, callee), me)
  {
  }

  /**
   * The relay rebuilds `call_accepted` from `caller` and `callee`; from the
   * client's message the callee comes out null, which the caller's
   * `onicecandidate` gate treats as unset.
   */
  lemma AcceptedCallLosesCallee(call: Payload)
    ensures var m := AcceptMessage(call).data;
            !JsTruthy(Field(AcceptedPayload(Get(m, "caller"), Get(m, "callee")), "callee"))
  {
  }

  /** The client's offer request names only a `receiver`: no `callee` and no `offer`. */
  lemma OfferRequestHasNoCallee(call: Payload)
    ensures Get(OfferRequest(call).data, "callee") == Null
    ensures Get(OfferRequest(call).data, "offer") == Null
  {
  }

  /** A client dial, relayed, makes the relay emit nothing. */
  method DialThroughRelay(client: Users, relay: Server, user: Value)
    requires client.Valid() && JsTruthy(Some(client.loggedInUser))
    modifies client, relay
    ensures relay.outbox == old(relay.outbox)
  {
    client.HandleDial(user);
    relay.HandleDialUser(client.sent[|client.sent| - 1].data);
  }

  /**
   * A callee accepts in the user list; the relay forwards `call_accepted`
   * to the caller's socket; the caller's video panel makes and sends its
   * offer, but then sends none of its ICE candidates.
   */
  method AcceptThroughRelay(callee: Users, relay: Server, caller: VideoChat, offer: Value, candidate: Value)
    requires callee.Valid() && callee.incomingCall.Some? && relay.Valid() && caller.Valid()
    requires Field(callee.incomingCall.value, "caller").Some?
    requires Lookup(relay.userConnections, Field(callee.incomingCall.value, "caller").value).Some?
    modifies callee, relay, caller
    ensures |caller.sent| == |old(caller.sent)| + 1
    ensures caller.sent[|caller.sent| - 1].event == "send_offer"
    ensures caller.gcallee == Some(Null)
  {
    callee.HandleAcceptCall();
    var accepted := callee.sent[|callee.sent| - 2];
    relay.HandleCallAccepted(accepted.data);
    var forwarded := relay.outbox[|relay.outbox| - 1];
    caller.HandleAcceptedCall(forwarded.data, Some(offer), true);
    caller.OnIceCandidate(Some(candidate));
  }

  /**
   * An offer that reaches the callee's video panel is answered; the relay
   * forwards the answer unchanged to the caller's socket; the caller applies
   * exactly that answer as its remote description. It takes a well-shaped
   * answer that the browser accepts as a session description, and a
   * `JSON.parse` that undoes `JSON.stringify` on it.
   */
  method AnswerThroughRelay(callee: VideoChat, relay: Server, caller: VideoChat, offerMsg: Payload, answer: Value, name: string)
    requires callee != caller
    requires callee.Valid() && relay.Valid() && caller.Valid()
    requires JsonParse(callee.parse, Field(offerMsg, "offer")).Some?
    requires Field(offerMsg, "caller") == Some(Str(name)) && Lookup(relay.userConnections, Str(name)).Some?
    requires DescriptionShaped(answer)
    requires callee.stringify(answer) != "" && caller.parse(callee.stringify(answer)) == Some(answer)
    modifies callee, relay, caller
    ensures |relay.outbox| == |old(relay.outbox)| + 1
    ensures relay.outbox[|relay.outbox| - 1].event == "receive_answer"
    ensures relay.outbox[|relay.outbox| - 1].to == Lookup(old(relay.userConnections), Str(name)).value
    ensures caller.pc == old(caller.pc) + [SetRemoteDescription(answer), AddIceCandidate(Null)]
  {
    callee.HandleReceiveOffer(offerMsg, true, Some(answer), true);
    var reply := callee.sent[|callee.sent| - 1];
    assert Field(reply.data, "answer") == Some(Str(callee.stringify(answer)));
    relay.HandleSendAnswer(reply.data);
    var forwarded := relay.outbox[|relay.outbox| - 1];
    caller.HandleReceiveAnswer(forwarded.data, true);
  }
}
