/** Accounts, sessions and the connections bound to them. Password hashing, token signing and
    the drawing of session ids are abstract: a stored credential is matched or not, a token
    verifies to the id inside it or to nothing, and a new id is one never used before. */
module Sessions {
  import opened Common

  type SessionId = string
  type ConnectionId = string

  datatype Session = Session(username: string, deviceName: string, createdAt: Time, lastActivityAt: Time)

  type SessionMap = map<SessionId, Session>

  predicate IsConnected(s: SessionMap, username: string, deviceName: string) {
    exists id :: id in s && s[id].username == username && s[id].deviceName == deviceName
  }

  class SessionRegistry {
    var sessions: SessionMap

    constructor ()
      ensures sessions == map[]
    {
      sessions := map[];
    }

    method CreateSession(username: string, deviceName: string, id: SessionId, now: Time)
      modifies this
      ensures sessions == old(sessions)[id := Session(username, deviceName, now, now)]
      ensures sessions[id].createdAt == sessions[id].lastActivityAt == now
    {
      sessions := sessions[id := Session(username, deviceName, now, now)];
    }

    method HasSession(username: string, deviceName: string) returns (found: bool)
      ensures found == IsConnected(sessions, username, deviceName)
    {
      var rest := sessions.Keys;
      while rest != {}
        invariant rest <= sessions.Keys
        invariant forall id :: id in sessions && id !in rest ==>
          sessions[id].username != username || sessions[id].deviceName != deviceName
        decreases |rest|
      {
        var id :| id in rest;
        if sessions[id].username == username && sessions[id].deviceName == deviceName {
          return true;
        }
        rest := rest - {id};
      }
      return false;
    }

    method RevokeSession(id: SessionId)
      modifies this
      ensures sessions == old(sessions) - {id}
    {
      sessions := sessions - {id};
    }

    method TouchSession(id: SessionId, now: Time)
      modifies this
      ensures sessions == Touched(old(sessions), id, now)
      ensures sessions.Keys == old(sessions).Keys && forall i :: i in sessions ==>
        && sessions[i].lastActivityAt == (if i == id then now else old(sessions)[i].lastActivityAt)
        && sessions[i].(lastActivityAt := 0) == old(sessions)[i].(lastActivityAt := 0)
    {
      if id in sessions {
        sessions := sessions[id := sessions[id].(lastActivityAt := now)];
      }
    }

    /** Erase in one pass over the registry. */
    method RevokeAllForUser(username: string)
      modifies this
      ensures sessions == WithoutUser(old(sessions), username)
      ensures forall id :: id in sessions <==> id in old(sessions) && old(sessions)[id].username != username
      ensures forall id :: id in sessions ==> sessions[id] == old(sessions)[id]
    {
      var rest := sessions.Keys;
      while rest != {}
        invariant rest <= sessions.Keys <= old(sessions).Keys
        invariant forall id :: id in sessions ==> sessions[id] == old(sessions)[id]
        invariant forall id :: id in old(sessions) ==>
          id in rest || (id in sessions <==> old(sessions)[id].username != username)
        invariant forall id :: id in rest ==> id in sessions
        decreases |rest|
      {
        var id :| id in rest;
        rest := rest - {id};
        if sessions[id].username == username {
          sessions := sessions - {id};
        }
      }
    }
  }

  function Touched(s: SessionMap, id: SessionId, now: Time): SessionMap {
    if id in s then s[id := s[id].(lastActivityAt := now)] else s
  }

  function WithoutUser(s: SessionMap, username: string): SessionMap {
    map id | id in s && s[id].username != username :: s[id]
  }

  class UsersDb {
    var users: map<string, string>  // the credential that opens each account

    constructor ()
      ensures users == map[]
    {
      users := map[];
    }

    /** Hashing can fail for want of memory; then nothing is stored. */
    method StoreUser(user: string, password: string, hashed: bool)
      modifies this
      ensures users == if hashed then old(users)[user := password] else old(users)
    {
      if hashed {
        users := users[user := password];
      }
    }

    method DeleteUser(user: string)
      modifies this
      ensures users == old(users) - {user}
    {
      users := users - {user};
    }

    predicate VerifyUserCredentials(user: string, password: string)
      reads this
    {
      user in users && users[user] == password
    }
  }

  // ----- the requests and their effect -----

  datatype Request =
    | Register(username: string, password: string, hashed: bool)
    | Login(username: string, password: string, deviceName: string, id: SessionId)
    | Logout(token: Option<SessionId>)
    | DeleteAccount(token: Option<SessionId>, password: string)

  datatype Error = NameTaken | FieldsRequired | DeviceConnected | InvalidCredentials | NoActiveSession

  /** `bind` and `unbind` stand for the two signals the file server listens to. */
  datatype Response = Response(error: Option<Error>, bind: Option<SessionId>, unbind: bool)

  const DONE := Response(None, None, false)

  function Refuse(e: Error): Response {
    Response(Some(e), None, false)
  }

  datatype Accounts = Accounts(users: map<string, string>, sessions: SessionMap)

  predicate Opens(a: Accounts, username: string, password: string) {
    username in a.users && a.users[username] == password
  }

  /** The session a token stands for, if it verifies and the session is still active. */
  function Resolve(s: SessionMap, token: Option<SessionId>): Option<SessionId> {
    if token.Some? && token.value in s then token else None
  }

  function Handle(a: Accounts, r: Request, now: Time): (Accounts, Response) {
    match r
    case Register(username, password, hashed) =>
      if username in a.users then (a, Refuse(NameTaken))
      else (a.(users := if hashed then a.users[username := password] else a.users), DONE)
    case Login(username, password, deviceName, id) =>
      if username == "" || deviceName == "" then (a, Refuse(FieldsRequired))
      else if IsConnected(a.sessions, username, deviceName) then (a, Refuse(DeviceConnected))
      else if !(username in a.users && a.users[username] == password) then (a, Refuse(InvalidCredentials))
      else (a.(sessions := a.sessions[id := Session(username, deviceName, now, now)]), Response(None, Some(id), false))
    case Logout(token) =>
      var id := Resolve(a.sessions, token);
      if id.None? then (a, Refuse(NoActiveSession))
      else (a.(sessions := a.sessions - {id.value}), Response(None, None, true))
    case DeleteAccount(token, password) =>
      var id := Resolve(a.sessions, token);
      if id.None? then (a, Refuse(NoActiveSession))
      else
        var username := a.sessions[id.value].username;
        if !(username in a.users && a.users[username] == password) then (a, Refuse(InvalidCredentials))
        else (Accounts(a.users - {username}, WithoutUser(a.sessions, username)), Response(None, None, true))
  }

  class AuthServer {
    const sessions: SessionRegistry
    const users: UsersDb

    constructor (sessions: SessionRegistry, users: UsersDb)
      ensures this.sessions == sessions && this.users == users
    {
      this.sessions, this.users := sessions, users;
    }

    ghost function State(): Accounts
      reads sessions, users
    {
      Accounts(users.users, sessions.sessions)
    }

    function ResolveSessionId(token: Option<SessionId>): Option<SessionId>
      reads sessions
    {
      Resolve(sessions.sessions, token)
    }

    method HandleRegister(username: string, password: string, hashed: bool, now: Time) returns (resp: Response)
      modifies users
      ensures (State(), resp) == Handle(old(State()), Register(username, password, hashed), now)
      ensures resp.error == (if username in old(users.users) then Some(NameTaken) else None)
      ensures resp.bind == None && !resp.unbind && sessions.sessions == old(sessions.sessions)
      ensures users.users ==
        if username in old(users.users) || !hashed then old(users.users) else old(users.users)[username := password]
    {
      if username in users.users {
        return Refuse(NameTaken);
      }
      users.StoreUser(username, password, hashed);
      return DONE;
    }

    method HandleLogin(username: string, password: string, deviceName: string, id: SessionId, now: Time)
      returns (resp: Response)
      modifies sessions
      ensures (State(), resp) == Handle(old(State()), Login(username, password, deviceName, id), now)
      ensures resp.error ==
        if username == "" || deviceName == "" then Some(FieldsRequired)
        else if IsConnected(old(sessions.sessions), username, deviceName) then Some(DeviceConnected)
        else if !Opens(old(State()), username, password) then Some(InvalidCredentials)
        else None
      ensures resp.bind == (if resp.error.None? then Some(id) else None) && !resp.unbind
      ensures users.users == old(users.users)
      ensures sessions.sessions ==
        if resp.error.Some? then old(sessions.sessions)
        else old(sessions.sessions)[id := Session(username, deviceName, now, now)]
    {
      if username == "" || deviceName == "" {
        return Refuse(FieldsRequired);
      }
      var connected := sessions.HasSession(username, deviceName);
      if connected {
        return Refuse(DeviceConnected);
      }
      if !users.VerifyUserCredentials(username, password) {
        return Refuse(InvalidCredentials);
      }
      sessions.CreateSession(username, deviceName, id, now);
      return Response(None, Some(id), false);
    }

    method HandleLogout(token: Option<SessionId>, now: Time) returns (resp: Response)
      modifies sessions
      ensures (State(), resp) == Handle(old(State()), Logout(token), now)
      ensures resp.error ==
        if token.Some? && token.value in old(sessions.sessions) then None else Some(NoActiveSession)
      ensures resp.bind == None && resp.unbind == resp.error.None? && users.users == old(users.users)
      ensures sessions.sessions ==
        if resp.error.Some? then old(sessions.sessions) else old(sessions.sessions) - {token.value}
    {
      var id := ResolveSessionId(token);
      if id.None? {
        return Refuse(NoActiveSession);
      }
      sessions.RevokeSession(id.value);
      return Response(None, None, true);
    }

    method HandleDeleteAccount(token: Option<SessionId>, password: string, now: Time) returns (resp: Response)
      modifies sessions, users
      ensures (State(), resp) == Handle(old(State()), DeleteAccount(token, password), now)
      ensures resp.error ==
        if token.None? || token.value !in old(sessions.sessions) then Some(NoActiveSession)
        else if !Opens(old(State()), old(sessions.sessions)[token.value].username, password) then
          Some(InvalidCredentials)
        else None
      ensures resp.bind == None && resp.unbind == resp.error.None?
      ensures resp.error.Some? ==> State() == old(State())
      ensures resp.error.None? ==>
        var user := old(sessions.sessions)[token.value].username;
        && users.users == old(users.users) - {user}
        && (forall i :: i in sessions.sessions <==>
              i in old(sessions.sessions) && old(sessions.sessions)[i].username != user)
        && (forall i :: i in sessions.sessions ==> sessions.sessions[i] == old(sessions.sessions)[i])
    {
      var id := ResolveSessionId(token);
      if id.None? {
        return Refuse(NoActiveSession);
      }
      var username := sessions.sessions[id.value].username;
      if !users.VerifyUserCredentials(username, password) {
        return Refuse(InvalidCredentials);
      }
      users.DeleteUser(username);
      sessions.RevokeAllForUser(username);
      return Response(None, None, true);
    }

    method OnMessage(r: Request, now: Time) returns (resp: Response)
      modifies sessions, users
      ensures (State(), resp) == Handle(old(State()), r, now)
    {
      match r {
        case Register(username, password, hashed) => resp := HandleRegister(username, password, hashed, now);
        case Login(username, password, deviceName, id) => resp := HandleLogin(username, password, deviceName, id, now);
        case Logout(token) => resp := HandleLogout(token, now);
        case DeleteAccount(token, password) => resp := HandleDeleteAccount(token, password, now);
      }
    }
  }

  // ----- connections -----

  datatype Server = Server(accounts: Accounts, connections: set<ConnectionId>, bound: map<ConnectionId, SessionId>)

  /** The bound session, if the token stands for exactly that one. */
  function Authorized(s: Server, conn: ConnectionId, token: Option<SessionId>): Option<SessionId> {
    if conn in s.bound && Resolve(s.accounts.sessions, token) == Some(s.bound[conn]) then Some(s.bound[conn]) else None
  }

  datatype Event =
    | Connect(conn: ConnectionId)
    | Ask(conn: ConnectionId, request: Request)
    | Work(conn: ConnectionId, token: Option<SessionId>)
    | Disconnect(conn: ConnectionId)

  function Rebound(
      bound: map<ConnectionId, SessionId>, conn: ConnectionId, resp: Response): map<ConnectionId, SessionId> {
    if resp.bind.Some? then bound[conn := resp.bind.value] else if resp.unbind then bound - {conn} else bound
  }

  /** Messages of unknown connections and unauthorised work are dropped. */
  function Next(s: Server, e: Event, now: Time): Server {
    match e
    case Connect(conn) => s.(connections := s.connections + {conn})
    case Ask(conn, r) =>
      if conn !in s.connections then s
      else
        var (a, resp) := Handle(s.accounts, r, now);
        s.(accounts := a, bound := Rebound(s.bound, conn, resp))
    case Work(conn, token) =>
      if conn !in s.connections || Authorized(s, conn, token).None? then s
      else s.(accounts := s.accounts.(sessions := Touched(s.accounts.sessions, s.bound[conn], now)))
    case Disconnect(conn) =>
      if conn !in s.connections then s
      else
        Server(if conn in s.bound then s.accounts.(sessions := s.accounts.sessions - {s.bound[conn]}) else s.accounts,
               s.connections - {conn}, s.bound - {conn})
  }

  class FileServer {
    const authServer: AuthServer
    var connections: set<ConnectionId>
    var connToSession: map<ConnectionId, SessionId>

    constructor (authServer: AuthServer)
      ensures this.authServer == authServer && connections == {} && connToSession == map[]
    {
      this.authServer, connections, connToSession := authServer, {}, map[];
    }

    ghost function State(): Server
      reads this, authServer.sessions, authServer.users
    {
      Server(authServer.State(), connections, connToSession)
    }

    method OnNewConnection(conn: ConnectionId, now: Time)
      modifies this
      ensures State() == Next(old(State()), Connect(conn), now)
    {
      connections := connections + {conn};
    }

    method Authorize(conn: ConnectionId, token: Option<SessionId>, now: Time) returns (id: Option<SessionId>)
      modifies authServer.sessions
      ensures id == Authorized(old(State()), conn, token)
      ensures id.Some? <==>
        && conn in connToSession && token == Some(connToSession[conn])
        && connToSession[conn] in old(authServer.sessions.sessions)
      ensures id.Some? ==> id == token
      ensures authServer.sessions.sessions ==
        (if id.Some? then Touched(old(authServer.sessions.sessions), id.value, now)
          else old(authServer.sessions.sessions))
    {
      if conn !in connToSession {
        return None;
      }
      var presented := authServer.ResolveSessionId(token);
      if presented.None? || presented.value != connToSession[conn] {
        return None;
      }
      authServer.sessions.TouchSession(connToSession[conn], now);
      return Some(connToSession[conn]);
    }

    /** Account messages need no session; everything else is authorised first. */
    method Dispatch(e: Event, now: Time)
      requires e.Ask? || e.Work?
      modifies this, authServer.sessions, authServer.users
      ensures State() == Next(old(State()), e, now)
    {
      if e.conn !in connections {
        return;
      }
      match e {
        case Ask(conn, r) =>
          var resp := authServer.OnMessage(r, now);
          if resp.bind.Some? {
            connToSession := connToSession[conn := resp.bind.value];
          } else if resp.unbind {
            connToSession := connToSession - {conn};
          }
        case Work(conn, token) =>
          var id := Authorize(conn, token, now);
        case Connect(_) => assert false;
        case Disconnect(_) => assert false;
      }
    }

    method OnSocketDisconnected(conn: ConnectionId, now: Time)
      modifies this, authServer.sessions
      ensures State() == Next(old(State()), Disconnect(conn), now)
    {
      if conn !in connections {
        return;
      }
      connections := connections - {conn};
      if conn in connToSession {
        var sessionId := connToSession[conn];
        connToSession := connToSession - {conn};
        authServer.sessions.RevokeSession(sessionId);
      } else {
        assert connToSession - {conn} == connToSession;
      }
    }
  }
}
