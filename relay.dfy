/**
 * The signalling relay (backend/main.py): a user table with a presence set,
 * a table from username to socket id, and a table of stored offers and
 * answers. Socket handlers update the tables and forward messages to the
 * socket registered for the addressed user.
 */
module Relay {
  import opened Wire

  /** A Socket.IO session id (`request.sid`). */
  type Sid = string

  /** `max_length` in `log_event`. */
  const MaxLength: nat := 25

  /**
   * One entry of `user_connections`. Entries are kept in the dictionary's
   * insertion order, which decides what `get_username_from_sid` returns.
   * The key is whatever `data.get("username")` produced, so it may be None.
   */
  datatype Entry = Entry(username: Value, sid: Sid)

  /** The dictionary stored in `connections`: an offer, and an answer once one arrived. */
  datatype Connection = Connection(offer: Value, answer: Option<Value>)

  /** One `emit(event, data, to=sid, broadcast=...)` made by the relay. */
  datatype Emission = Emission(event: string, data: Payload, to: Sid, broadcast: bool)

  /** An HTTP response: status code and JSON body. */
  datatype Reply = Reply(status: int, body: Payload)

  /** The user table (username to stored credential) and `logged_in_users`. */
  datatype Accounts = Accounts(users: map<string, string>, loggedIn: set<string>)

  /** The seven `str(...)` renderings that `log_event` prints, in its order. */
  datatype LogFields = LogFields(sender: string, recipient: string, eventType: string,
                                 data: string, sid: string, args: string, kwargs: string)

  const MissingCredentials := Reply(400, map["error" := Str("Username and password required")])
  const DuplicateUser := Reply(400, map["error" := Str("Username already exists")])
  const Registered := Reply(201, map["message" := Str("User registered successfully")])
  const LoginOk := Reply(200, map["message" := Str("Login successful")])
  const BadCredentials := Reply(401, map["error" := Str("Invalid credentials")])
  const LogoutOk := Reply(200, map["message" := Str("Logout successful")])
  const NotLoggedIn := Reply(400, map["error" := Str("User not logged in")])
  /** Flask's answer when a handler raises (a JSON object where text was expected). */
  const InternalError := Reply(500, map[])

  /** Python can use the value as a set member or a dictionary key (a dict cannot). */
  predicate Hashable(v: Value)
  {
    !v.Obj?
  }

  /** `v in logged_in_users`. */
  predicate Online(loggedIn: set<string>, v: Value)
  {
    v.Str? && v.s in loggedIn
  }

  /** A dictionary has each key once. */
  ghost predicate UniqueUsernames(es: seq<Entry>)
  {
    forall i, j | 0 <= i < j < |es| :: es[i].username != es[j].username
  }

  // ---------------------------------------------------------------------
  // The `user_connections` table

  /** `user_connections[user]` if `user in user_connections`. */
  function Lookup(es: seq<Entry>, user: Value): (r: Option<Sid>)
    ensures r.None? <==> forall i | 0 <= i < |es| :: es[i].username != user
    ensures r.Some? ==> exists i | 0 <= i < |es| :: es[i] == Entry(user, r.value)
  {
    if es == [] then None
    else if es[0].username == user then Some(es[0].sid)
    else
      var r := Lookup(es[1..], user);
      assert r.Some? ==> exists i | 0 <= i < |es| :: es[i] == Entry(user, r.value) by {
        if r.Some? {
          var i :| 0 <= i < |es[1..]| && es[1..][i] == Entry(user, r.value);
          assert es[i + 1] == Entry(user, r.value);
        }
      }
      r
  }

  /** In a dictionary, the value found is the one stored under the key. */
  lemma {:induction false} LookupUnique(es: seq<Entry>, i: nat)
    requires UniqueUsernames(es) && i < |es|
    ensures Lookup(es, es[i].username) == Some(es[i].sid)
  {
    if i > 0 {
      assert es[0].username != es[i].username;
      assert es[1..][i - 1] == es[i];
      LookupUnique(es[1..], i - 1);
    }
  }

  /**
   * `user_connections[user] = sid`: an existing key keeps its place and
   * takes the new socket id (the last registration wins); a new key goes last.
   */
  function Assign(es: seq<Entry>, user: Value, sid: Sid): seq<Entry>
  {
    if es == [] then [Entry(user, sid)]
    else if es[0].username == user then [Entry(user, sid)] + es[1..]
    else [es[0]] + Assign(es[1..], user, sid)
  }

  /** After the assignment the key maps to the new socket and every other key is as before. */
  lemma {:induction false} AssignLookup(es: seq<Entry>, user: Value, sid: Sid, v: Value)
    ensures Lookup(Assign(es, user, sid), v) == if v == user then Some(sid) else Lookup(es, v)
  {
    if es != [] && es[0].username != user && es[0].username != v {
      AssignLookup(es[1..], user, sid, v);
    }
  }

  /** The assignment adds or rewrites only the entry of its own key. */
  lemma {:induction false} AssignEntries(es: seq<Entry>, user: Value, sid: Sid)
    ensures forall e | e in Assign(es, user, sid) :: e.username == user || e in es
  {
    if es != [] && es[0].username != user {
      AssignEntries(es[1..], user, sid);
    }
  }

  /** The assignment keeps one entry per key. */
  lemma {:induction false} AssignUnique(es: seq<Entry>, user: Value, sid: Sid)
    requires UniqueUsernames(es)
    ensures UniqueUsernames(Assign(es, user, sid))
  {
    if es != [] && es[0].username != user {
      var rest := Assign(es[1..], user, sid);
      AssignUnique(es[1..], user, sid);
      AssignEntries(es[1..], user, sid);
      var r := [es[0]] + rest;
      forall j | 0 < j < |r| ensures r[0].username != r[j].username {
        assert rest[j - 1] in rest;
        if rest[j - 1].username != user {
          var k :| 0 <= k < |es[1..]| && es[1..][k] == rest[j - 1];
          assert es[k + 1] == rest[j - 1];
        }
      }
    }
  }

  /** A key already in the table keeps its place and only its socket id changes. */
  lemma {:induction false} AssignKeepsPlace(es: seq<Entry>, user: Value, sid: Sid, i: nat)
    requires i < |es| && es[i].username == user
    requires forall k | 0 <= k < i :: es[k].username != user
    ensures Assign(es, user, sid) == es[i := Entry(user, sid)]
  {
    if i > 0 {
      assert es[1..][i - 1] == es[i];
      assert forall k | 0 <= k < i - 1 :: es[1..][k].username != user by {
        forall k | 0 <= k < i - 1 ensures es[1..][k].username != user {
          assert es[1..][k] == es[k + 1];
        }
      }
      AssignKeepsPlace(es[1..], user, sid, i - 1);
      assert [es[0]] + es[1..][i - 1 := Entry(user, sid)] == es[i := Entry(user, sid)];
    } else {
      assert [Entry(user, sid)] + es[1..] == es[0 := Entry(user, sid)];
    }
  }

  /** A new key is appended after every existing entry. */
  lemma {:induction false} AssignAppends(es: seq<Entry>, user: Value, sid: Sid)
    requires forall k | 0 <= k < |es| :: es[k].username != user
    ensures Assign(es, user, sid) == es + [Entry(user, sid)]
  {
    if es != [] {
      assert forall k | 0 <= k < |es[1..]| :: es[1..][k].username != user by {
        forall k | 0 <= k < |es[1..]| ensures es[1..][k].username != user {
          assert es[1..][k] == es[k + 1];
        }
      }
      AssignAppends(es[1..], user, sid);
      assert [es[0]] + (es[1..] + [Entry(user, sid)]) == es + [Entry(user, sid)];
    }
  }

  /**
   * The reverse lookup of `get_username_from_sid`: the username of the
   * first entry, in insertion order, registered with `sid`; None if there
   * is none.
   */
  function UsernameOf(es: seq<Entry>, sid: Sid): (r: Value)
    ensures (forall i | 0 <= i < |es| :: es[i].sid != sid) ==> r == Null
    ensures (exists i | 0 <= i < |es| :: es[i].sid == sid) ==>
              exists i | 0 <= i < |es| :: es[i] == Entry(r, sid) && forall k | 0 <= k < i :: es[k].sid != sid
  {
    if es == [] then Null
    else if es[0].sid == sid then es[0].username
    else
      var r := UsernameOf(es[1..], sid);
      assert (exists i | 0 <= i < |es| :: es[i].sid == sid) ==> exists i | 0 <= i < |es[1..]| :: es[1..][i].sid == sid by {
        if exists i | 0 <= i < |es| :: es[i].sid == sid {
          var i :| 0 <= i < |es| && es[i].sid == sid;
          assert es[1..][i - 1].sid == sid;
        }
      }
      assert (exists i | 0 <= i < |es[1..]| :: es[1..][i] == Entry(r, sid) && forall k | 0 <= k < i :: es[1..][k].sid != sid) ==>
             exists i | 0 <= i < |es| :: es[i] == Entry(r, sid) && forall k | 0 <= k < i :: es[k].sid != sid by {
        if exists i | 0 <= i < |es[1..]| :: es[1..][i] == Entry(r, sid) && forall k | 0 <= k < i :: es[1..][k].sid != sid {
          var i :| 0 <= i < |es[1..]| && es[1..][i] == Entry(r, sid) && forall k | 0 <= k < i :: es[1..][k].sid != sid;
          assert es[i + 1] == Entry(r, sid);
          assert forall k | 0 <= k < i + 1 :: es[k].sid != sid by {
            forall k | 0 <= k < i + 1 ensures es[k].sid != sid {
              if k > 0 { assert es[k] == es[1..][k - 1]; }
            }
          }
        }
      }
      r
  }

  /**
   * After `user_connected` registers `user` on a socket that no other entry
   * uses, the reverse lookup of that socket gives back `user`.
   */
  lemma {:induction false} AssignThenUsernameOf(es: seq<Entry>, user: Value, sid: Sid)
    requires forall i | 0 <= i < |es| && es[i].username != user :: es[i].sid != sid
    ensures UsernameOf(Assign(es, user, sid), sid) == user
  {
    if es != [] && es[0].username != user {
      assert forall i | 0 <= i < |es[1..]| && es[1..][i].username != user :: es[1..][i].sid != sid by {
        forall i | 0 <= i < |es[1..]| && es[1..][i].username != user ensures es[1..][i].sid != sid {
          assert es[1..][i] == es[i + 1];
        }
      }
      AssignThenUsernameOf(es[1..], user, sid);
    }
  }

  /**
   * What `emit_to_user` emits: one message to the socket registered for
   * `user` if there is one, nothing otherwise.
   */
  function Route(es: seq<Entry>, user: Value, event: string, data: Payload, broadcast: bool): (out: seq<Emission>)
    ensures |out| <= 1
    ensures |out| == 1 <==> exists i | 0 <= i < |es| :: es[i].username == user
    ensures |out| == 1 ==> out[0].event == event && out[0].data == data && out[0].broadcast == broadcast
    ensures |out| == 1 ==> Entry(user, out[0].to) in es
  {
    match Lookup(es, user)
    case None => []
    case Some(sid) => [Emission(event, data, sid, broadcast)]
  }

  /** With one entry per username, the message goes to the socket stored for that username. */
  lemma RouteToRegisteredSocket(es: seq<Entry>, i: nat, event: string, data: Payload, broadcast: bool)
    requires UniqueUsernames(es) && i < |es|
    ensures Route(es, es[i].username, event, data, broadcast) == [Emission(event, data, es[i].sid, broadcast)]
  {
    LookupUnique(es, i);
  }

  // ---------------------------------------------------------------------
  // log_event

  /**
   * One field of `log_event`: its first `MaxLength` characters, followed by
   * "..." when something was cut off.
   */
  function Truncate(s: string): (r: string)
    ensures |r| <= MaxLength + 3
    ensures |s| <= MaxLength ==> r == s
    ensures |s| > MaxLength ==> |r| == MaxLength + 3 && r[..MaxLength] == s[..MaxLength] && r[MaxLength..] == "..."
  {
    s[..if |s| < MaxLength then |s| else MaxLength] + (if |s| > MaxLength then "..." else "")
  }

  /** Truncating a truncated field changes nothing. */
  lemma TruncateIdempotent(s: string)
    ensures Truncate(Truncate(s)) == Truncate(s)
  {
    var r := Truncate(s);
    if |s| > MaxLength {
      assert r[..MaxLength] + r[MaxLength..] == r;
    }
  }

  // ---------------------------------------------------------------------
  // The account endpoints, as functions of the tables they touch

  /** `/register`. */
  function RegisterStep(a: Accounts, data: Payload): (out: (Reply, Accounts))
    ensures out.1.loggedIn == a.loggedIn
    ensures !PyTruthy(Get(data, "username")) || !PyTruthy(Get(data, "password")) ==> out == (MissingCredentials, a)
    ensures out.0.status == 201 <==>
              && PyTruthy(Get(data, "username")) && Get(data, "username").Str?
              && PyTruthy(Get(data, "password")) && Get(data, "password").Str?
              && Get(data, "username").s !in a.users
    ensures out.0.status == 201 ==> out.1.users == a.users[Get(data, "username").s := Get(data, "password").s]
    ensures out.0.status == 201 ==> out.0 == Registered
    ensures out.0.status != 201 ==> out.1 == a && out.0.status in {400, 500}
    ensures var u, p := Get(data, "username"), Get(data, "password");
            PyTruthy(u) && u.Str? && PyTruthy(p) && p.Str? && u.s in a.users ==> out == (DuplicateUser, a)
    ensures var u, p := Get(data, "username"), Get(data, "password");
            PyTruthy(u) && PyTruthy(p) && !(u.Str? && p.Str?) ==> out == (InternalError, a)
  {
    var username, password := Get(data, "username"), Get(data, "password");
    if !PyTruthy(username) || !PyTruthy(password) then (MissingCredentials, a)
    else if !username.Str? || !password.Str? then (InternalError, a)
    else if username.s in a.users then (DuplicateUser, a)
    else (Registered, a.(users := a.users[username.s := password.s]))
  }

  /** bcrypt's `checkpw` against the stored credential. */
  predicate CheckPassword(password: string, stored: string)
  {
    password == stored
  }

  /** `/login`. */
  function LoginStep(a: Accounts, data: Payload): (out: (Reply, Accounts))
    ensures out.1.users == a.users
    ensures !PyTruthy(Get(data, "username")) || !PyTruthy(Get(data, "password")) ==> out == (MissingCredentials, a)
    ensures out.0.status == 200 <==>
              && Get(data, "username").Str? && PyTruthy(Get(data, "username")) && Get(data, "username").s in a.users
              && Get(data, "password").Str? && PyTruthy(Get(data, "password"))
              && CheckPassword(Get(data, "password").s, a.users[Get(data, "username").s])
    ensures out.0.status == 200 ==> out.1.loggedIn == a.loggedIn + {Get(data, "username").s}
    ensures out.0.status == 200 ==> out.0 == LoginOk
    ensures out.0.status != 200 ==> out.1 == a && out.0.status in {400, 401, 500}
    ensures var u, p := Get(data, "username"), Get(data, "password");
            PyTruthy(u) && u.Str? && PyTruthy(p) && p.Str? && out.0.status != 200 ==> out == (BadCredentials, a)
    ensures var u, p := Get(data, "username"), Get(data, "password");
            PyTruthy(u) && PyTruthy(p) && u.Str? && u.s !in a.users ==> out == (BadCredentials, a)
    ensures var u, p := Get(data, "username"), Get(data, "password");
            PyTruthy(u) && PyTruthy(p) && (!u.Str? || (u.s in a.users && !p.Str?)) ==> out == (InternalError, a)
  {
    var username, password := Get(data, "username"), Get(data, "password");
    if !PyTruthy(username) || !PyTruthy(password) then (MissingCredentials, a)
    else if !username.Str? then (InternalError, a)
    else if username.s !in a.users then (BadCredentials, a)
    else if !password.Str? then (InternalError, a)
    else if CheckPassword(password.s, a.users[username.s]) then (LoginOk, a.(loggedIn := a.loggedIn + {username.s}))
    else (BadCredentials, a)
  }

  /** `/logout`. */
  function LogoutStep(a: Accounts, data: Payload): (out: (Reply, Accounts))
    ensures out.1.users == a.users
    ensures out.0.status == 200 <==> Online(a.loggedIn, Get(data, "username"))
    ensures out.0.status == 200 ==> out.1.loggedIn == a.loggedIn - {Get(data, "username").s}
    ensures out.0.status == 200 ==> out.0 == LogoutOk
    ensures out.0.status != 200 ==> out.1 == a && out.0.status in {400, 500}
    ensures Hashable(Get(data, "username")) && !Online(a.loggedIn, Get(data, "username")) ==> out == (NotLoggedIn, a)
    ensures !Hashable(Get(data, "username")) ==> out == (InternalError, a)
  {
    var username := Get(data, "username");
    if !Hashable(username) then (InternalError, a)
    else if Online(a.loggedIn, username) then (LogoutOk, a.(loggedIn := a.loggedIn - {username.s}))
    else (NotLoggedIn, a)
  }

  /** A user who has just registered can log in with the same form data. */
  lemma RegisterThenLogin(a: Accounts, data: Payload)
    requires RegisterStep(a, data).0.status == 201
    ensures var after := RegisterStep(a, data).1;
            LoginStep(after, data) == (LoginOk, after.(loggedIn := a.loggedIn + {Get(data, "username").s}))
  {
  }

  /** Logging out right after logging in restores the presence set. */
  lemma LoginThenLogout(a: Accounts, data: Payload)
    requires LoginStep(a, data).0.status == 200
    requires Get(data, "username").s !in a.loggedIn
    ensures LogoutStep(LoginStep(a, data).1, data) == (LogoutOk, a)
  {
    var u := Get(data, "username").s;
    assert a.loggedIn + {u} - {u} == a.loggedIn;
  }

  /** A second logout of the same user is refused. */
  lemma LogoutTwice(a: Accounts, data: Payload)
    ensures LogoutStep(LogoutStep(a, data).1, data).0 == (if Hashable(Get(data, "username")) then NotLoggedIn else InternalError)
  {
  }

  /** The presence set only ever holds registered, non-empty usernames. */
  ghost predicate AccountsValid(a: Accounts)
  {
    a.loggedIn <= a.users.Keys && "" !in a.loggedIn
  }

  lemma AccountStepsPreserveValidity(a: Accounts, data: Payload)
    requires AccountsValid(a)
    ensures AccountsValid(RegisterStep(a, data).1)
    ensures AccountsValid(LoginStep(a, data).1)
    ensures AccountsValid(LogoutStep(a, data).1)
  {
  }

  // ---------------------------------------------------------------------
  // Payloads the relay builds

  /** The `incoming_call` payload of `dial_user`. */
  function IncomingCallPayload(caller: Value, callee: Value): Payload
  {
    map["caller" := caller, "callee" := callee]
  }

  /** The `call_accepted` payload the relay forwards to the caller. */
  function AcceptedPayload(caller: Value, callee: Value): Payload
  {
    map["caller" := caller, "callee" := callee]
  }

  /** The `call_declined` payload the relay forwards to the caller. */
  function DeclinedPayload(caller: Value, receiver: Value): Payload
  {
    map["caller" := caller, "receiver" := receiver]
  }

  /** The `receive_offer` payload built from a `send_offer` message. */
  function OfferPayload(data: Payload): Payload
  {
    map["caller" := Get(data, "caller"), "callee" := Get(data, "callee"), "offer" := Get(data, "offer")]
  }

  // ---------------------------------------------------------------------
  // The server

  class Server {
    /** The `users` table: username to stored credential. */
    var users: map<string, string>
    var loggedInUsers: set<string>
    var connections: map<Value, Connection>
    var userConnections: seq<Entry>
    /** Every emission made so far, in order. */
    var outbox: seq<Emission>

    ghost predicate Valid()
      reads this
    {
      && AccountsValid(Accounts(users, loggedInUsers))
      && UniqueUsernames(userConnections)
      && (forall i | 0 <= i < |userConnections| :: Hashable(userConnections[i].username))
      && (forall k | k in connections :: Hashable(k))
    }

    /** A freshly started relay: the user table as stored, every in-memory table empty. */
    constructor (users: map<string, string>)
      ensures Valid()
      ensures this.users == users && loggedInUsers == {} && connections == map[]
      ensures userConnections == [] && outbox == []
    {
      this.users := users;
      loggedInUsers := {};
      connections := map[];
      userConnections := [];
      outbox := [];
    }

    /**
     * `emit_to_user`: one message to the socket registered for `user`, if
     * any; with one entry per username that is the socket stored for it.
     */
    method EmitToUser(user: Value, event: string, data: Payload, broadcast: bool)
      modifies this`outbox
      ensures outbox == old(outbox) + Route(userConnections, user, event, data, broadcast)
      ensures UniqueUsernames(userConnections) ==>
                forall i | 0 <= i < |userConnections| && userConnections[i].username == user ::
                  outbox == old(outbox) + [Emission(event, data, userConnections[i].sid, broadcast)]
    {
      if UniqueUsernames(userConnections) {
        forall i | 0 <= i < |userConnections| && userConnections[i].username == user {
          LookupUnique(userConnections, i);
        }
      }
      var sid := Lookup(userConnections, user);
      if sid.Some? {
        outbox := outbox + [Emission(event, data, sid.value, broadcast)];
      }
    }

    /** `get_username_from_sid`: a scan of the table with an early return. */
    method GetUsernameFromSid(sid: Sid) returns (r: Value)
      ensures r == UsernameOf(userConnections, sid)
    {
      var i := 0;
      while i < |userConnections|
        invariant 0 <= i <= |userConnections|
        invariant UsernameOf(userConnections, sid) == UsernameOf(userConnections[i..], sid)
      {
        if userConnections[i].sid == sid {
          return userConnections[i].username;
        }
        assert userConnections[i..][1..] == userConnections[i + 1..];
        i := i + 1;
      }
      return Null;
    }

    /**
     * The pure part of `log_event`: the event direction (1 when the sender is
     * the requesting socket's user, else 2 when the recipient is, else 0) and
     * each printed field truncated.
     */
    method LogEvent(sender: Value, recipient: Value, requestSid: Sid, fields: LogFields)
      returns (direction: int, shown: LogFields)
      ensures var me := UsernameOf(userConnections, requestSid);
              && (direction == 1 <==> sender == me)
              && (direction == 2 <==> sender != me && recipient == me)
              && (direction == 0 <==> sender != me && recipient != me)
      ensures shown == LogFields(Truncate(fields.sender), Truncate(fields.recipient), Truncate(fields.eventType),
                                 Truncate(fields.data), Truncate(fields.sid), Truncate(fields.args), Truncate(fields.kwargs))
    {
      direction := 0;
      var me := GetUsernameFromSid(requestSid);
      if sender == me {
        direction := 1;
      } else {
        me := GetUsernameFromSid(requestSid);
        if recipient == me {
          direction := 2;
        }
      }
      shown := LogFields(Truncate(fields.sender), Truncate(fields.recipient), Truncate(fields.eventType),
                         Truncate(fields.data), Truncate(fields.sid), Truncate(fields.args), Truncate(fields.kwargs));
    }

    /** `/register` on the server's own tables: the in-place version of `RegisterStep`. */
    method Register(data: Payload) returns (reply: Reply)
      requires Valid()
      modifies this`users
      ensures Valid()
      ensures (reply, Accounts(users, loggedInUsers)) == RegisterStep(old(Accounts(users, loggedInUsers)), data)
    {
      AccountStepsPreserveValidity(Accounts(users, loggedInUsers), data);
      var username, password := Get(data, "username"), Get(data, "password");
      if !PyTruthy(username) || !PyTruthy(password) {
        return MissingCredentials;
      }
      if !username.Str? || !password.Str? {
        return InternalError;
      }
      if username.s in users {
        return DuplicateUser;
      }
      users := users[username.s := password.s];
      return Registered;
    }

    /** `/login` on the server's own tables: the in-place version of `LoginStep`. */
    method Login(data: Payload) returns (reply: Reply)
      requires Valid()
      modifies this`loggedInUsers
      ensures Valid()
      ensures (reply, Accounts(users, loggedInUsers)) == LoginStep(old(Accounts(users, loggedInUsers)), data)
    {
      AccountStepsPreserveValidity(Accounts(users, loggedInUsers), data);
      var username, password := Get(data, "username"), Get(data, "password");
      if !PyTruthy(username) || !PyTruthy(password) {
        return MissingCredentials;
      }
      if !username.Str? {
        return InternalError;
      }
      if username.s in users {
        if !password.Str? {
          return InternalError;
        }
        if CheckPassword(password.s, users[username.s]) {
          loggedInUsers := loggedInUsers + {username.s};
          return LoginOk;
        }
      }
      return BadCredentials;
    }

    /** `/logout` on the server's own tables: the in-place version of `LogoutStep`. */
    method Logout(data: Payload) returns (reply: Reply)
      requires Valid()
      modifies this`loggedInUsers
      ensures Valid()
      ensures (reply, Accounts(users, loggedInUsers)) == LogoutStep(old(Accounts(users, loggedInUsers)), data)
    {
      AccountStepsPreserveValidity(Accounts(users, loggedInUsers), data);
      var username := Get(data, "username");
      if !Hashable(username) {
        return InternalError;
      }
      if Online(loggedInUsers, username) {
        loggedInUsers := loggedInUsers - {username.s};
        return LogoutOk;
      }
      return NotLoggedIn;
    }

    /**
     * `send_offer`: the callee's record is replaced by one holding only this
     * offer, and the offer is forwarded to the callee's socket.
     */
    method HandleSendOffer(data: Payload)
      requires Valid()
      modifies this`connections, this`outbox
      ensures Valid()
      ensures var callee := Get(data, "callee");
              if Hashable(callee) then
                && connections == old(connections)[callee := Connection(Get(data, "offer"), None)]
                && outbox == old(outbox) + Route(userConnections, callee, "receive_offer", OfferPayload(data), true)
              else
                connections == old(connections) && outbox == old(outbox)
    {
      var callee := Get(data, "callee");
      if !Hashable(callee) {
        return;
      }
      connections := connections[callee := Connection(Get(data, "offer"), None)];
      EmitToUser(callee, "receive_offer", OfferPayload(data), true);
    }

    /**
     * `send_answer`: the answer is recorded only under a caller that already
     * has a record; the whole message is forwarded to the caller either way.
     */
    method HandleSendAnswer(data: Payload)
      requires Valid()
      modifies this`connections, this`outbox
      ensures Valid()
      ensures var caller := Get(data, "caller");
              && connections == (if caller in old(connections)
                                 then old(connections)[caller := old(connections)[caller].(answer := Some(Get(data, "answer")))]
                                 else old(connections))
              && outbox == old(outbox) + Route(userConnections, caller, "receive_answer", data, true)
    {
      var caller := Get(data, "caller");
      if caller in connections {
        connections := connections[caller := connections[caller].(answer := Some(Get(data, "answer")))];
      }
      EmitToUser(caller, "receive_answer", data, true);
    }

    /** `dial_user`: `incoming_call` goes to the callee only while the callee is logged in. */
    method HandleDialUser(data: Payload)
      modifies this`outbox
      ensures var caller, callee := Get(data, "caller"), Get(data, "callee");
              outbox == old(outbox) + if Online(loggedInUsers, callee)
                                      then Route(userConnections, callee, "incoming_call", IncomingCallPayload(caller, callee), false)
                                      else []
    {
      var caller, callee := Get(data, "caller"), Get(data, "callee");
      if Online(loggedInUsers, callee) {
        EmitToUser(callee, "incoming_call", IncomingCallPayload(caller, callee), false);
      }
    }

    /** `call_accepted`: forwarded to the caller with the caller and callee fields. */
    method HandleCallAccepted(data: Payload)
      modifies this`outbox
      ensures var caller, callee := Get(data, "caller"), Get(data, "callee");
              outbox == old(outbox) + Route(userConnections, caller, "call_accepted", AcceptedPayload(caller, callee), true)
    {
      var caller, callee := Get(data, "caller"), Get(data, "callee");
      EmitToUser(caller, "call_accepted", AcceptedPayload(caller, callee), true);
    }

    /** `call_declined`: forwarded to the caller with the caller and receiver fields. */
    method HandleCallDeclined(data: Payload)
      modifies this`outbox
      ensures var caller, receiver := Get(data, "caller"), Get(data, "receiver");
              outbox == old(outbox) + Route(userConnections, caller, "call_declined", DeclinedPayload(caller, receiver), true)
    {
      var caller, receiver := Get(data, "caller"), Get(data, "receiver");
      EmitToUser(caller, "call_declined", DeclinedPayload(caller, receiver), true);
    }

    /** `send_ice_candidate`: the message is forwarded unchanged to the callee. */
    method HandleSendIceCandidate(data: Payload)
      modifies this`outbox
      ensures outbox == old(outbox) + Route(userConnections, Get(data, "callee"), "receive_ice_candidate", data, false)
    {
      EmitToUser(Get(data, "callee"), "receive_ice_candidate", data, false);
    }

    /** `user_connected`: the username is (re)bound to the requesting socket. */
    method HandleConnect(data: Payload, requestSid: Sid)
      requires Valid()
      modifies this`userConnections
      ensures Valid()
      ensures var username := Get(data, "username");
              userConnections == if Hashable(username) then Assign(old(userConnections), username, requestSid)
                                 else old(userConnections)
      ensures Hashable(Get(data, "username")) ==> Lookup(userConnections, Get(data, "username")) == Some(requestSid)
      ensures forall v | v != Get(data, "username") :: Lookup(userConnections, v) == Lookup(old(userConnections), v)
    {
      var username := Get(data, "username");
      if !Hashable(username) {
        return;
      }
      ghost var before := userConnections;
      userConnections := Assign(userConnections, username, requestSid);
      AssignUnique(before, username, requestSid);
      AssignEntries(before, username, requestSid);
      AssignLookup(before, username, requestSid, username);
      forall v | v != username ensures Lookup(userConnections, v) == Lookup(before, v) {
        AssignLookup(before, username, requestSid, v);
      }
      forall i | 0 <= i < |userConnections| ensures Hashable(userConnections[i].username) {
        assert userConnections[i] in userConnections;
      }
    }
  }
}
