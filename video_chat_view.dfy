/**
 * The negotiation handlers of the video panel (src/components/VideoChat.jsx).
 * The browser's peer connection is a log of the calls made on it; the
 * outcome of each promise it returns is a parameter of the handler that
 * awaits it. `JSON.parse` and `JSON.stringify` are the component's two
 * codec functions.
 */
module VideoChatView {
  import opened Wire

  /** A call made on `peerConnection.current`. */
  datatype PcOp =
    | CreateOffer
    | CreateAnswer
    | SetLocalDescription(desc: Value)
    | SetRemoteDescription(desc: Value)
    /** `addIceCandidate(x)`; `Null` is the end-of-candidates call `addIceCandidate(null)`. */
    | AddIceCandidate(candidate: Value)

  /** The shape check of `handleReceiveAnswer`: truthy `type` and `sdp`. */
  predicate DescriptionShaped(v: Value)
  {
    JsTruthy(Prop(v, "type")) && JsTruthy(Prop(v, "sdp"))
  }

  /** A candidate message as the `onicecandidate` gate lets it out. */
  predicate CandidateMessageOk(data: Payload, loggedInUser: Value)
  {
    && Field(data, "caller") == Some(loggedInUser)
    && JsTruthy(Field(data, "callee"))
    && JsTruthy(Field(data, "candidate"))
  }

  /** `send_offer {caller, callee, offer}` built from a `call_accepted` message. */
  function OfferMessage(accepted: Payload, offerText: string): Message
  {
    Message("send_offer", Put(Put(Put(map[], "caller", Field(accepted, "caller")),
                                  "callee", Field(accepted, "callee")),
                              "offer", Some(Str(offerText))))
  }

  /** `send_answer {caller, callee, answer}`; an answer text of `undefined` drops the key. */
  function AnswerMessage(offer: Payload, answerText: Option<string>): Message
  {
    Message("send_answer", Put(Put(Put(map[], "caller", Field(offer, "caller")),
                                   "callee", Field(offer, "callee")),
                               "answer", if answerText.Some? then Some(Str(answerText.value)) else None))
  }

  /** `send_ice_candidate {caller: loggedInUser, callee: Gcallee, candidate}`. */
  function CandidateMessage(loggedInUser: Value, gcallee: Option<Value>, candidate: Option<Value>): Message
  {
    Message("send_ice_candidate", Put(Put(Put(map[], "caller", Some(loggedInUser)), "callee", gcallee), "candidate", candidate))
  }

  /**
   * `JSON.parse(x)` on a JavaScript value: a string goes to the parser, null
   * parses to null, and `undefined` or an object (which stringify to text
   * that is not JSON) throw.
   */
  function JsonParse(parse: string -> Option<Value>, x: Option<Value>): Option<Value>
  {
    match x
    case Some(Str(s)) => parse(s)
    case Some(Null) => Some(Null)
    case _ => None
  }

  /**
   * The peer-connection calls `generateAnswer` makes: none when the offer
   * does not parse; the remote description, then `createAnswer` if that was
   * applied, then the local description if an answer was created.
   */
  function AnswerOps(remote: Option<Value>, remoteApplied: bool, created: Option<Value>): seq<PcOp>
  {
    if remote.None? then []
    else if !remoteApplied then [SetRemoteDescription(remote.value)]
    else [SetRemoteDescription(remote.value), CreateAnswer] + (if created.Some? then [SetLocalDescription(created.value)] else [])
  }

  class VideoChat {
    /** The `loggedInUser` prop. */
    const loggedInUser: Value
    /** `JSON.parse`: None when it throws. */
    const parse: string -> Option<Value>
    /** `JSON.stringify` of a session description. */
    const stringify: Value -> string
    /** The `Gcallee` state; `None` is `undefined`. */
    var gcallee: Option<Value>
    /** Every call made on the peer connection, in order. */
    var pc: seq<PcOp>
    /** Every `socket.emit` made so far, in order. */
    var sent: seq<Message>

    /**
     * What the handlers keep true of the logs: an answer is only created
     * right after a remote description was applied, a local description is
     * only set right after an offer or answer was created, and every
     * candidate sent names the logged-in user and a set callee.
     */
    ghost predicate Valid()
      reads this
    {
      && (forall i | 0 <= i < |pc| && pc[i] == CreateAnswer :: 0 < i && pc[i - 1].SetRemoteDescription?)
      && (forall i | 0 <= i < |pc| && pc[i].SetLocalDescription? :: 0 < i && pc[i - 1] in {CreateOffer, CreateAnswer})
      && (forall i | 0 <= i < |sent| && sent[i].event == "send_ice_candidate" :: CandidateMessageOk(sent[i].data, loggedInUser))
    }

    /** The component as first rendered: `Gcallee` is null and nothing has happened yet. */
    constructor (loggedInUser: Value, parse: string -> Option<Value>, stringify: Value -> string)
      ensures Valid()
      ensures this.loggedInUser == loggedInUser && this.parse == parse && this.stringify == stringify
      ensures gcallee == Some(Null) && pc == [] && sent == []
    {
      this.loggedInUser := loggedInUser;
      this.parse := parse;
      this.stringify := stringify;
      gcallee := Some(Null);
      pc := [];
      sent := [];
    }

    /**
     * `createOffer`: asks for an offer, sets it as the local description,
     * and only then returns its text. `created` is the offer the browser
     * made (None: the promise rejected); `applied` tells whether
     * `setLocalDescription` resolved. No text is returned when either failed.
     */
    method CreateOfferText(created: Option<Value>, applied: bool) returns (text: Option<string>)
      requires Valid()
      modifies this`pc
      ensures Valid()
      ensures pc == old(pc) + [CreateOffer] + (if created.Some? then [SetLocalDescription(created.value)] else [])
      ensures text.Some? <==> created.Some? && applied
      ensures text.Some? ==> pc[|pc| - 1] == SetLocalDescription(created.value) && text.value == stringify(created.value)
    {
      pc := pc + [CreateOffer];
      if created.None? {
        return None;
      }
      pc := pc + [SetLocalDescription(created.value)];
      if !applied {
        return None;
      }
      return Some(stringify(created.value));
    }

    /**
     * `generateAnswer`: parse the offer, apply it as the remote description,
     * create an answer and set it as the local description, in that order;
     * any failure stops the sequence and yields no answer.
     */
    method GenerateAnswer(offerMsg: Payload, remoteApplied: bool, created: Option<Value>, localApplied: bool)
      returns (answer: Option<Value>)
      requires Valid()
      modifies this`pc
      ensures Valid()
      ensures var remote := JsonParse(parse, Field(offerMsg, "offer"));
              && pc == old(pc) + AnswerOps(remote, remoteApplied, created)
              && (answer.Some? <==> remote.Some? && remoteApplied && created.Some? && localApplied)
      ensures answer.Some? ==> answer == created
    {
      var remote := JsonParse(parse, Field(offerMsg, "offer"));
      if remote.None? {
        return None;
      }
      pc := pc + [SetRemoteDescription(remote.value)];
      if !remoteApplied {
        return None;
      }
      pc := pc + [CreateAnswer];
      if created.None? {
        return None;
      }
      pc := pc + [SetLocalDescription(created.value)];
      if !localApplied {
        return None;
      }
      return created;
    }

    /**
     * `handleReceiveOffer`: exactly one `send_answer` carrying the offer's
     * caller and callee (and the answer text, when there is an answer),
     * then the end-of-candidates call `addIceCandidate(null)`.
     */
    method HandleReceiveOffer(data: Payload, remoteApplied: bool, created: Option<Value>, localApplied: bool)
      requires Valid()
      modifies this`pc, this`sent
      ensures Valid()
      ensures var remote := JsonParse(parse, Field(data, "offer"));
              var answered := remote.Some? && remoteApplied && created.Some? && localApplied;
              && sent == old(sent) + [AnswerMessage(data, if answered then Some(stringify(created.value)) else None)]
              && pc == old(pc) + AnswerOps(remote, remoteApplied, created) + [AddIceCandidate(Null)]
      ensures Field(sent[|sent| - 1].data, "caller") == Field(data, "caller")
      ensures Field(sent[|sent| - 1].data, "callee") == Field(data, "callee")
      ensures pc[|pc| - 1] == AddIceCandidate(Null)
    {
      var answer := GenerateAnswer(data, remoteApplied, created, localApplied);
      var text := if answer.Some? then Some(stringify(answer.value)) else None;
      sent := sent + [AnswerMessage(data, text)];
      pc := pc + [AddIceCandidate(Null)];
    }

    /**
     * `handleReceiveAnswer`: a missing answer returns early; an answer that
     * does not parse, or parses to something without a truthy `type` and
     * `sdp`, is dropped; a well-shaped one is applied as the remote
     * description, followed by `addIceCandidate(null)`. `constructed` tells
     * whether `new RTCSessionDescription` accepted the parsed answer (it
     * throws for a `type` outside the SDP types); when it did not, neither
     * call is made.
     */
    method HandleReceiveAnswer(data: Payload, constructed: bool)
      requires Valid()
      modifies this`pc
      ensures Valid()
      ensures var remote := JsonParse(parse, Field(data, "answer"));
              pc == if JsTruthy(Field(data, "answer")) && remote.Some? && DescriptionShaped(remote.value) && constructed
                    then old(pc) + [SetRemoteDescription(remote.value), AddIceCandidate(Null)]
                    else old(pc)
      ensures forall i | |old(pc)| <= i < |pc| && pc[i].SetRemoteDescription? :: DescriptionShaped(pc[i].desc)
    {
      var answer := Field(data, "answer");
      if !JsTruthy(answer) {
        return;
      }
      var remote := JsonParse(parse, answer);
      if remote.None? {
        return;
      }
      if !JsTruthy(Prop(remote.value, "type")) || !JsTruthy(Prop(remote.value, "sdp")) {
        return;
      }
      if !constructed {
        return;
      }
      pc := pc + [SetRemoteDescription(remote.value), AddIceCandidate(Null)];
    }

    /**
     * `handleAcceptedCall`: create an offer, send it with the caller and
     * callee copied from the message, then record the callee in `Gcallee`.
     * If the offer cannot be made the handler stops before sending.
     */
    method HandleAcceptedCall(data: Payload, created: Option<Value>, applied: bool)
      requires Valid()
      modifies this`pc, this`sent, this`gcallee
      ensures Valid()
      ensures pc == old(pc) + [CreateOffer] + (if created.Some? then [SetLocalDescription(created.value)] else [])
      ensures created.Some? && applied ==>
                && sent == old(sent) + [OfferMessage(data, stringify(created.value))]
                && gcallee == Field(data, "callee")
      ensures !(created.Some? && applied) ==> sent == old(sent) && gcallee == old(gcallee)
    {
      var offer := CreateOfferText(created, applied);
      if offer.None? {
        return;
      }
      sent := sent + [OfferMessage(data, offer.value)];
      gcallee := Field(data, "callee");
    }

    /**
     * `handleReceiveIceCandidate`: a truthy `candidate` is added to the peer
     * connection; otherwise nothing is applied.
     */
    method HandleReceiveIceCandidate(data: Payload)
      requires Valid()
      modifies this`pc
      ensures Valid()
      ensures pc == if JsTruthy(Field(data, "candidate"))
                    then old(pc) + [AddIceCandidate(Field(data, "candidate").value)]
                    else old(pc)
    {
      var candidate := Field(data, "candidate");
      if JsTruthy(candidate) {
        pc := pc + [AddIceCandidate(candidate.value)];
      }
    }

    /**
     * `onicecandidate`: a locally gathered candidate is sent only when it is
     * non-null and `Gcallee` is set, addressed from the logged-in user to
     * `Gcallee`.
     */
    method OnIceCandidate(candidate: Option<Value>)
      requires Valid()
      modifies this`sent
      ensures Valid()
      ensures sent == if JsTruthy(candidate) && JsTruthy(gcallee)
                      then old(sent) + [CandidateMessage(loggedInUser, gcallee, candidate)]
                      else old(sent)
    {
      if JsTruthy(candidate) && JsTruthy(gcallee) {
        sent := sent + [CandidateMessage(loggedInUser, gcallee, candidate)];
      }
    }
  }
}
