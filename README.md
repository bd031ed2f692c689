# WebRTC signalling relay and call handshake — Dafny model

This project models the signalling core of a two-party browser video call.
The core has three parts:

- **The relay** (`backend/main.py`). It keeps a user table and the presence
  set `logged_in_users`. It maps each username to its socket id in
  `user_connections`, and keeps the last offer and answer per user in
  `connections`. Its socket handlers update those tables and forward each
  message to the socket registered for the addressed user.
- **The call prompt** (`src/components/Users.jsx`). It holds one
  `incomingCall` slot. The dial, accept and decline actions emit socket
  messages.
- **The negotiation handlers** (`src/components/VideoChat.jsx`). They answer
  offers, apply answers and candidates, and send an offer when a call is
  accepted. Locally gathered candidates are sent only once `Gcallee` is set.

Files:

- `wire.dfy` (module `Wire`). JSON values and payloads. Fields are read the
  Python way (`Get`: a missing key reads as None) or the JavaScript way
  (`Field`: None is `undefined`). Also the two truthiness rules, and `Put`,
  which drops a property whose value is `undefined`, as JSON serialisation does.
- `relay.dfy` (module `Relay`). The class `Server` has one field per table and
  an `outbox` that records every emission. `user_connections` is an
  association list kept in insertion order, because the reverse lookup returns
  the first match in dictionary order. The account endpoints are also given as
  functions (`RegisterStep`, `LoginStep`, `LogoutStep`) so that lemmas can
  relate several calls.
- `users_view.dfy` (module `UsersView`). The class `Users`: the slot and a log
  of the messages sent.
- `video_chat_view.dfy` (module `VideoChatView`). The class `VideoChat`:
  `Gcallee`, a log of the calls made on the peer connection, and a log of the
  messages sent. The outcome of each browser promise is a parameter of the
  handler that awaits it. `JSON.parse` and `JSON.stringify` are function-valued
  fields.
- `cross_side.dfy` (module `CrossSide`). What happens when the two sides are
  put together as written.

The two sides disagree on field names. The clients send `receiver` in
`dial_user` and `call_accepted` and in the offer request. The relay reads
`callee` in those handlers and sends `incoming_call` with a `callee` key, and
the client filters on `receiver`. So no end-to-end "call connects" property
holds. `CrossSide` proves the consequences: a client dial is never forwarded,
and a relayed `incoming_call` is never stored. The caller never learns a
callee, so it sends no candidates. The answer path does line up, and
`AnswerThroughRelay` proves that a callee's answer is applied by the caller.

## Model

| member | source | states |
|---|---|---|
| Relay.Lookup | backend/main.py:29-31 | `user in user_connections` holds exactly when some entry has that key, and the socket found is one stored under that key |
| Relay.LookupUnique | backend/main.py:29-31 | with one entry per key, the lookup returns the socket stored for that key |
| Relay.AssignLookup | backend/main.py:197 | after `user_connections[username] = sid` the username maps to the new sid (last registration wins), and every other key maps as before |
| Relay.AssignEntries | backend/main.py:197 | the assignment adds or rewrites only the entry of its own key |
| Relay.AssignUnique | backend/main.py:197 | the assignment keeps one entry per key |
| Relay.AssignKeepsPlace | backend/main.py:197 | assigning to a key already in the table rewrites that key's entry in place, with the new sid, and leaves every other entry and the order as they were |
| Relay.AssignAppends | backend/main.py:197 | assigning to a new key appends one entry after all existing ones, in dictionary insertion order |
| Relay.UsernameOf | backend/main.py:35-39 | the reverse lookup returns None when no entry has the sid; otherwise it returns the username of the first entry, in insertion order, whose sid matches |
| Relay.AssignThenUsernameOf | backend/main.py:35-39 | after a user registers on a socket that no other username uses, the reverse lookup of that socket returns the user |
| Relay.Route | backend/main.py:28-33 | `emit_to_user` emits at most once; it emits exactly when the user is registered, with the given event, data and broadcast flag, to a socket registered for that user |
| Relay.RouteToRegisteredSocket | backend/main.py:28-31 | with one entry per key, the single emission goes to the socket stored for the user |
| Relay.Truncate | backend/main.py:61-67 | a logged field is at most 28 characters; a field of at most 25 is unchanged; a longer one keeps its first 25 characters followed by "..." |
| Relay.TruncateIdempotent | backend/main.py:61-67 | truncating a truncated field changes nothing |
| Relay.RegisterStep | backend/main.py:81-97 | a missing or empty username or password gives exactly 400 "Username and password required"; an existing username gives exactly 400 "Username already exists"; a non-text field gives 500; every failure changes nothing; 201 happens exactly for a new non-empty username and password and adds it to the user table, with exactly the reply "User registered successfully"; the presence set never changes |
| Relay.LoginStep | backend/main.py:101-117 | a missing or empty field gives exactly 400 "Username and password required"; 200 happens exactly when the user exists and the password checks, and it adds the user to `logged_in_users`, with exactly the reply "Login successful"; an unknown user, or a known user with a wrong text password, gives exactly 401 "Invalid credentials"; a non-text username, or a non-text password for a known user, gives 500; every failure changes nothing |
| Relay.LogoutStep | backend/main.py:121-127 | 200 happens exactly when the user is logged in, and it removes the user, with exactly the reply "Logout successful"; a hashable username that is not logged in gives exactly 400 "User not logged in"; an unhashable one gives 500; every failure leaves the set unchanged |
| Relay.RegisterThenLogin | backend/main.py:81-117 | a successful registration followed by a login with the same form data succeeds and marks the user logged in |
| Relay.LoginThenLogout | backend/main.py:113-127 | logging out right after a login restores the previous presence set, with 200 |
| Relay.LogoutTwice | backend/main.py:124-127 | a second logout of the same user is refused |
| Relay.AccountStepsPreserveValidity | backend/main.py:81-127 | register, login and logout keep the presence set inside the user table and free of the empty name |
| Relay.Server.constructor | backend/main.py:12-14 | the relay starts with every in-memory table empty and the user table as stored |
| Relay.Server.EmitToUser | backend/main.py:28-33 | the outbox grows by exactly the routed emission: one message to the registered socket, or nothing; with one entry per username, the message goes to the socket stored for the user |
| Relay.Server.GetUsernameFromSid | backend/main.py:35-39 | the scan with early return computes the first-match reverse lookup |
| Relay.Server.LogEvent | backend/main.py:42-67 | the direction is 1 when the sender is the requesting socket's user, else 2 when the recipient is, else 0; each printed field is truncated |
| Relay.Server.Register | backend/main.py:81-97 | the in-place endpoint: its reply and new tables are those of `RegisterStep`, and the table invariant is kept |
| Relay.Server.Login | backend/main.py:101-117 | the in-place endpoint: its reply and new presence set are those of `LoginStep`, and the table invariant is kept |
| Relay.Server.Logout | backend/main.py:121-127 | the in-place endpoint: its reply and new presence set are those of `LogoutStep`, and the table invariant is kept |
| Relay.Server.HandleSendOffer | backend/main.py:135-144 | the callee's record is overwritten with only the offer, and `receive_offer` carrying caller, callee and offer is routed to the callee |
| Relay.Server.HandleSendAnswer | backend/main.py:146-154 | the answer is recorded only when the caller already has a record, and the message is forwarded unchanged to the caller in every case |
| Relay.Server.HandleDialUser | backend/main.py:157-168 | `incoming_call {caller, callee}` is routed to the callee only when the callee is in `logged_in_users`; otherwise nothing is emitted |
| Relay.Server.HandleCallAccepted | backend/main.py:170-176 | `call_accepted {caller, callee}` is routed to the caller |
| Relay.Server.HandleCallDeclined | backend/main.py:178-184 | `call_declined {caller, receiver}` is routed to the caller |
| Relay.Server.HandleSendIceCandidate | backend/main.py:186-191 | the candidate message is forwarded unchanged to the callee |
| Relay.Server.HandleConnect | backend/main.py:193-198 | the username is bound to the requesting socket, every other key keeps its socket, and the table still has one entry per key |
| UsersView.Users.constructor | src/components/Users.jsx:3-5 | no call is pending and nothing has been sent |
| UsersView.Users.HandleIncomingCall | src/components/Users.jsx:26-31 | a call whose `receiver` is the logged-in user replaces the pending call; any other call leaves the slot unchanged |
| UsersView.Users.HandleDial | src/components/Users.jsx:37-43 | with no logged-in user nothing is sent; otherwise exactly one `dial_user {caller: loggedInUser, receiver: user}`, which has no `callee` |
| UsersView.Users.HandleAcceptCall | src/components/Users.jsx:45-53 | with nothing pending nothing happens; otherwise it sends `call_accepted` with the call's caller and receiver, clears the slot, then sends `send_offer {receiver: original caller}`, in that order |
| UsersView.Users.HandleDecline | src/components/Users.jsx:89-92 | it sends `call_declined` with the pending call's caller and receiver, and clears the slot |
| VideoChatView.VideoChat.constructor | src/components/VideoChat.jsx:4-10 | `Gcallee` starts null, and the peer connection and socket logs start empty |
| VideoChatView.VideoChat.CreateOfferText | src/components/VideoChat.jsx:98-103 | an offer is created and set as the local description before its text is returned; no text comes back when either step fails |
| VideoChatView.VideoChat.GenerateAnswer | src/components/VideoChat.jsx:105-117 | the remote offer is applied before `createAnswer` and `setLocalDescription`; any failure stops the sequence and yields no answer |
| VideoChatView.VideoChat.HandleReceiveOffer | src/components/VideoChat.jsx:17-21 | exactly one `send_answer` is sent, whose caller and callee are the offer's, and then `addIceCandidate(null)` is called |
| VideoChatView.VideoChat.HandleReceiveAnswer | src/components/VideoChat.jsx:23-39 | a missing answer touches nothing; only an answer that parses to something with a truthy `type` and `sdp`, and that `new RTCSessionDescription` accepts, is applied, followed by `addIceCandidate(null)`; when any of these fails, neither call is made |
| VideoChatView.VideoChat.HandleAcceptedCall | src/components/VideoChat.jsx:41-47 | it sends `send_offer` with the message's caller and callee, then sets `Gcallee := data.callee`; if no offer can be made, nothing is sent and `Gcallee` is kept; no other handler may write `Gcallee` |
| VideoChatView.VideoChat.HandleReceiveIceCandidate | src/components/VideoChat.jsx:49-58 | a message without a truthy `candidate` applies nothing; otherwise that candidate is added |
| VideoChatView.VideoChat.OnIceCandidate | src/components/VideoChat.jsx:66-74 | a candidate is sent only when it is non-null and `Gcallee` is set, with `caller = loggedInUser` and `callee = Gcallee` |
| CrossSide.ClientDialNeverPassesPresenceGate | src/components/Users.jsx:42 | the client's `dial_user` reads as having a null callee at the relay, so the presence gate never opens |
| CrossSide.RelayIncomingCallNeverStored | backend/main.py:166 | the relay's `incoming_call` has no `receiver`, so the client never stores it |
| CrossSide.AcceptedCallLosesCallee | backend/main.py:171-176 | relayed from the client's `call_accepted`, the callee comes out null, which the candidate gate treats as unset |
| CrossSide.OfferRequestHasNoCallee | src/components/Users.jsx:51 | the client's offer request carries neither `callee` nor `offer` as the relay reads them |
| CrossSide.DialThroughRelay | backend/main.py:158-168 | a client dial passed through the relay makes the relay emit nothing |
| CrossSide.AcceptThroughRelay | src/components/Users.jsx:45-53 | after an accept is relayed to the caller, the caller sends its offer, but `Gcallee` stays null and no candidate is sent |
| CrossSide.AnswerThroughRelay | src/components/VideoChat.jsx:17-39 | an answered offer is relayed to the caller's socket, and the caller applies exactly that answer |

## Left out

- SQLite and bcrypt. The user table is a map from username to stored credential. `bcrypt.checkpw` becomes equality with the stored value, so the hash and its salt are not modelled.
- The `/logged-in-users` listing (backend/main.py:130-132). It only reads the presence set, and the order of the list it returns is unspecified.
- The printing in `log_event` (colour codes, the arrow text), and the handlers' calls to it, which only print. Python's `str()` of each argument is not modelled: `LogEvent` receives the seven rendered texts.
- Flask and Socket.IO transport, CORS, `socketio.run`, and request bodies that are not JSON objects. Emissions are appended to `outbox`, and client emits are appended to `sent`.
- JSON numbers, booleans and arrays. None of them occurs in the fields the core reads, so the model's values are null, strings and objects only.
- The relay's `TypeError` when a JSON object is used as a key. It is modelled where it blocks a store or a reply (`send_offer`, `user_connected`, the 500 of `/logout`). Elsewhere the handler simply emits nothing, and so does the model.
- UsersView.Users.HandleDecline: requires a pending call, because its button is rendered only while `incomingCall` is set (src/components/Users.jsx:76).
- The `print` calls in `emit_to_user`, `dial_user` and `user_connected` (backend/main.py:33, 165, 168, 196, 198). They only write to the console.
- `alert` in `handleDial`, the `fetch` polling of logged-in users, and all rendering.
- VideoChatView.VideoChat.GenerateAnswer: the failure of `new RTCSessionDescription(...)` is folded into the `remoteApplied` outcome, which means the logged `setRemoteDescription` call stands for the attempt.
- VideoChatView.VideoChat.HandleReceiveIceCandidate: a synchronous throw from `new RTCIceCandidate(...)`, and the outcome of the `addIceCandidate` promise, are not modelled. That outcome is only logged.
- The browser's `RTCPeerConnection` behaviour, SDP contents, `getUserMedia` and `ontrack` (`startMedia`). The peer connection is a log of the calls made on it.
- `useEffect` subscribe/unsubscribe churn and async interleaving. Each handler is one atomic step, and `loggedInUser` is fixed for a component's lifetime, as the app mounts both panels only once `authenticated` is set, after a successful login or registration (src/App.js:17-33), and nothing resets it.
