/** What holds after any history of connections, registrations, logins, logouts, account
    deletions and disconnects. */
module SessionRun {
  import opened Common
  import opened Sessions

  /** The server with the memory of which connection each session id was handed to. */
  datatype World = World(server: Server, handed: map<SessionId, ConnectionId>)

  const START := World(Server(Accounts(map[], map[]), {}, map[]), map[])

  /** A successful login hands out the id it was given. */
  function Step(w: World, e: Event, now: Time): World {
    var s := Next(w.server, e, now);
    World(s, if Grants(w.server, e) then w.handed[e.request.id := e.conn] else w.handed)
  }

  predicate Grants(s: Server, e: Event) {
    e.Ask? && e.conn in s.connections && e.request.Login? && Handle(s.accounts, e.request, 0).1.bind.Some?
  }

  /** Ids are never drawn twice. */
  predicate FreshId(w: World, e: Event) {
    e.Ask? && e.request.Login? ==> e.request.id !in w.handed
  }

  predicate SameDevice(a: Session, b: Session) {
    a.username == b.username && a.deviceName == b.deviceName
  }

  predicate Named(a: Session) {
    a.username != "" && a.deviceName != ""
  }

  ghost predicate Inv(w: World) {
    var a, bound := w.server.accounts, w.server.bound;
    // one session per user and device, of a registered user, handed out to somebody
    && (forall i, j :: i in a.sessions && j in a.sessions && SameDevice(a.sessions[i], a.sessions[j]) ==> i == j)
    && (forall i :: i in a.sessions ==> a.sessions[i].username in a.users && i in w.handed && Named(a.sessions[i]))
    // a binding is to the session handed to that very connection
    && (forall c :: c in bound ==> c in w.server.connections && bound[c] in w.handed && w.handed[bound[c]] == c)
  }

  lemma HandleSessions(a: Accounts, r: Request, now: Time)
    ensures var (b, resp) := Handle(a, r, now);
      && (resp.bind.None? ==> forall i :: i in b.sessions ==> i in a.sessions && b.sessions[i] == a.sessions[i])
      && (resp.bind.Some? ==> r.Login? && resp.bind.value == r.id && r.username in b.users)
      && (resp.bind.Some? ==> !IsConnected(a.sessions, r.username, r.deviceName))
      && (resp.bind.Some? ==> r.username != "" && r.deviceName != "")
      && (resp.bind.Some? ==> b.sessions == a.sessions[r.id := Session(r.username, r.deviceName, now, now)])
      && (forall i :: i in b.sessions && i in a.sessions && a.sessions[i].username in a.users && resp.bind.None? ==>
        a.sessions[i].username in b.users)
      && (resp.bind.Some? ==> b.users == a.users)
  {
  }

  lemma GrantsAnyTime(a: Accounts, r: Request, now: Time, later: Time)
    ensures Handle(a, r, now).1 == Handle(a, r, later).1
  {
  }

  lemma AskGranted(w: World, e: Event, now: Time)
    requires Inv(w) && FreshId(w, e) && e.Ask? && e.conn in w.server.connections
    requires Handle(w.server.accounts, e.request, now).1.bind.Some?
    ensures Inv(Step(w, e, now))
  {
    HandleSessions(w.server.accounts, e.request, now);
    GrantsAnyTime(w.server.accounts, e.request, now, 0);
    hide Handle;
  }

  lemma AskInv(w: World, e: Event, now: Time)
    requires Inv(w) && FreshId(w, e) && e.Ask? && e.conn in w.server.connections
    ensures Inv(Step(w, e, now))
  {
    if Handle(w.server.accounts, e.request, now).1.bind.Some? {
      AskGranted(w, e, now);
    } else {
      HandleSessions(w.server.accounts, e.request, now);
      GrantsAnyTime(w.server.accounts, e.request, now, 0);
      hide Handle, IsConnected;
    }
  }

  lemma ElseInv(w: World, e: Event, now: Time)
    requires Inv(w) && !(e.Ask? && e.conn in w.server.connections)
    ensures Inv(Step(w, e, now))
  {
    hide Authorized;
  }

  lemma StepInv(w: World, e: Event, now: Time)
    requires Inv(w) && FreshId(w, e)
    ensures Inv(Step(w, e, now))
  {
    hide Inv, FreshId, Step;
    if e.Ask? && e.conn in w.server.connections {
      AskInv(w, e, now);
    } else {
      ElseInv(w, e, now);
    }
  }

  ghost predicate IsRun(run: seq<World>, events: seq<Event>, times: seq<Time>) {
    && |run| == |events| + 1 == |times| + 1 && run[0] == START
    && forall i :: 0 <= i < |events| ==> FreshId(run[i], events[i]) && run[i + 1] == Step(run[i], events[i], times[i])
  }

  lemma {:induction false} RunInv(run: seq<World>, events: seq<Event>, times: seq<Time>, i: nat)
    requires IsRun(run, events, times) && i <= |events|
    ensures Inv(run[i])
  {
    hide Inv, Step, FreshId;
    if i == 0 {
      StartInv();
    } else {
      RunInv(run, events, times, i - 1);
      assert FreshId(run[i - 1], events[i - 1]) && run[i - 1 + 1] == Step(run[i - 1], events[i - 1], times[i - 1]);
      StepInv(run[i - 1], events[i - 1], times[i - 1]);
    }
  }

  lemma StartInv()
    ensures Inv(START)
  {
  }

  /** At every moment: at most one active session for a user and device, every active session's
      user registered, no two connections bound to one session. */
  lemma SessionsSound(run: seq<World>, events: seq<Event>, times: seq<Time>, i: nat)
    requires IsRun(run, events, times) && i <= |events|
    ensures var a := run[i].server.accounts;
      && (forall x, y :: x in a.sessions && y in a.sessions && SameDevice(a.sessions[x], a.sessions[y]) ==> x == y)
      && (forall x :: x in a.sessions ==> a.sessions[x].username in a.users)
    ensures var bound := run[i].server.bound;
      forall c, d :: c in bound && d in bound && bound[c] == bound[d] ==> c == d
  {
    RunInv(run, events, times, i);
  }

  /** Authorised work belongs to an active session of a registered user, established on the very
      connection the work came over. */
  lemma AuthorizedIsOwn(
      run: seq<World>, events: seq<Event>, times: seq<Time>, i: nat, conn: ConnectionId, token: Option<SessionId>)
    requires IsRun(run, events, times) && i <= |events| && Authorized(run[i].server, conn, token).Some?
    ensures var id := Authorized(run[i].server, conn, token).value; var a := run[i].server.accounts;
      && token == Some(id) && id in a.sessions && a.sessions[id].username in a.users
      && id in run[i].handed && run[i].handed[id] == conn && conn in run[i].server.connections
  {
    RunInv(run, events, times, i);
  }

  lemma StepKeepsGone(w: World, e: Event, now: Time, id: SessionId)
    requires FreshId(w, e) && id in w.handed && id !in w.server.accounts.sessions
    ensures id in Step(w, e, now).handed && id !in Step(w, e, now).server.accounts.sessions
  {
    if e.Ask? && e.conn in w.server.connections {
      HandleSessions(w.server.accounts, e.request, now);
      hide Handle;
    }
  }

  /** A session once ended stays ended: its token never opens anything again. */
  lemma {:induction false} RevokedForGood(
      run: seq<World>, events: seq<Event>, times: seq<Time>, i: nat, j: nat, id: SessionId)
    requires IsRun(run, events, times) && i <= j <= |events|
    requires id in run[i].handed && id !in run[i].server.accounts.sessions
    ensures id in run[j].handed && id !in run[j].server.accounts.sessions
    ensures Resolve(run[j].server.accounts.sessions, Some(id)) == None
    ensures forall conn :: Authorized(run[j].server, conn, Some(id)) == None
  {
    if i < j {
      RevokedForGood(run, events, times, i, j - 1, id);
      assert FreshId(run[j - 1], events[j - 1]) && run[j - 1 + 1] == Step(run[j - 1], events[j - 1], times[j - 1]);
      StepKeepsGone(run[j - 1], events[j - 1], times[j - 1], id);
    }
  }

  // ----- sessions nobody can use -----

  /** An active session that no connection is bound to. */
  ghost predicate Orphan(s: Server, id: SessionId) {
    id in s.accounts.sessions && forall c :: c in s.bound ==> s.bound[c] != id
  }

  ghost predicate NoOrphans(s: Server) {
    forall id :: !Orphan(s, id)
  }

  /** The connection is bound to an active session and takes another one on, or ends another one: a
      second login that passes all checks, a logout with the token of another session, or the deletion
      of another user's account. */
  predicate Strands(s: Server, e: Event) {
    && e.Ask? && e.conn in s.connections && e.conn in s.bound && s.bound[e.conn] in s.accounts.sessions
    && var a, mine := s.accounts, s.bound[e.conn];
       match e.request
       case Register(_, _, _) => false
       case Login(username, password, deviceName, _) =>
         && username != "" && deviceName != "" && !IsConnected(a.sessions, username, deviceName)
         && Opens(a, username, password)
       case Logout(token) => token.Some? && token.value in a.sessions && token.value != mine
       case DeleteAccount(token, password) =>
         && token.Some? && token.value in a.sessions && Opens(a, a.sessions[token.value].username, password)
         && a.sessions[token.value].username != a.sessions[mine].username
  }

  /** Somebody logs exactly that session out, or deletes its user's account. */
  predicate Releases(s: Server, e: Event, id: SessionId)
    requires id in s.accounts.sessions
  {
    && e.Ask? && e.conn in s.connections
    && var a := s.accounts;
       match e.request
       case Logout(token) => token == Some(id)
       case DeleteAccount(token, password) =>
         && token.Some? && token.value in a.sessions && Opens(a, a.sessions[token.value].username, password)
         && a.sessions[token.value].username == a.sessions[id].username
       case _ => false
  }

  /** One event: what was an orphan stays one unless it is released, and the only new one is the
      session the event strands. */
  lemma OrphanNext(w: World, e: Event, now: Time, id: SessionId)
    requires Inv(w) && FreshId(w, e)
    ensures Orphan(Step(w, e, now).server, id) <==>
      || (Orphan(w.server, id) && !Releases(w.server, e, id))
      || (Strands(w.server, e) && id == w.server.bound[e.conn])
    ensures Orphan(w.server, id) && Releases(w.server, e, id) ==> id !in Step(w, e, now).server.accounts.sessions
  {
    hide Inv, FreshId;
    OneConnection(w);
    if e.Ask? && e.conn in w.server.connections {
      if e.request.Login? { NewIdUnbound(w, e); }
      OrphanAsk(w.server, e, now, id);
    } else {
      OrphanElse(w.server, e, now, id);
    }
  }

  /** No two connections are bound to one session. */
  ghost predicate BoundApart(s: Server) {
    && (forall c, d :: c in s.bound && d in s.bound && s.bound[c] == s.bound[d] ==> c == d)
    && (forall c :: c in s.bound ==> c in s.connections)
  }

  lemma OneConnection(w: World)
    requires Inv(w)
    ensures BoundApart(w.server)
  {
  }

  lemma NewIdUnbound(w: World, e: Event)
    requires Inv(w) && FreshId(w, e) && e.Ask? && e.request.Login?
    ensures e.request.id !in w.server.accounts.sessions
    ensures forall c :: c in w.server.bound ==> w.server.bound[c] != e.request.id
  {
  }

  lemma OrphanElse(s: Server, e: Event, now: Time, id: SessionId)
    requires BoundApart(s) && !(e.Ask? && e.conn in s.connections)
    ensures Orphan(Next(s, e, now), id) <==> Orphan(s, id)
  {
    var t := Next(s, e, now);
    hide Authorized;
    match e {
      case Disconnect(conn) =>
        assert forall c :: c in s.bound && c != conn ==> c in t.bound && t.bound[c] == s.bound[c];
      case _ => assert t.bound == s.bound && t.accounts.sessions.Keys == s.accounts.sessions.Keys;
    }
  }

  lemma OrphanAsk(s: Server, e: Event, now: Time, id: SessionId)
    requires BoundApart(s) && e.Ask? && e.conn in s.connections
    requires e.request.Login? ==>
      e.request.id !in s.accounts.sessions && forall c :: c in s.bound ==> s.bound[c] != e.request.id
    ensures Orphan(Next(s, e, now), id) <==>
      || (Orphan(s, id) && !Releases(s, e, id))
      || (Strands(s, e) && id == s.bound[e.conn])
    ensures Orphan(s, id) && Releases(s, e, id) ==> id !in Next(s, e, now).accounts.sessions
  {
    var t := Next(s, e, now);
    assert forall c :: c in s.bound && c != e.conn ==> c in t.bound && t.bound[c] == s.bound[c];
    match e.request {
      case Register(_, _, _) => assert t.bound == s.bound;
      case Login(_, _, _, newId) => assert t.bound == s.bound || t.bound == s.bound[e.conn := newId];
      case Logout(_) => assert t.bound == s.bound || t.bound == s.bound - {e.conn};
      case DeleteAccount(_, _) => assert t.bound == s.bound || t.bound == s.bound - {e.conn};
    }
  }

  /** A session loses its connection and stays active exactly by such an event. */
  lemma OrphansExactly(w: World, e: Event, now: Time)
    requires Inv(w) && FreshId(w, e) && NoOrphans(w.server)
    ensures NoOrphans(Step(w, e, now).server) <==> !Strands(w.server, e)
    ensures Strands(w.server, e) ==> Orphan(Step(w, e, now).server, w.server.bound[e.conn])
  {
    hide Inv, FreshId, Step, Strands, Orphan, Releases;
    StrandsBound(w.server, e);
    forall id
      ensures Orphan(Step(w, e, now).server, id) <==> Strands(w.server, e) && id == w.server.bound[e.conn]
    {
      OrphanNext(w, e, now, id);
      assert !Orphan(w.server, id);
    }
    if Strands(w.server, e) {
      assert Orphan(Step(w, e, now).server, w.server.bound[e.conn]);
    }
  }

  lemma StrandsBound(s: Server, e: Event)
    ensures Strands(s, e) ==> e.conn in s.bound
  {
  }

  /** The account an orphan belongs to, and that nothing but its release ends it. */
  lemma OrphanKept(w: World, e: Event, now: Time, id: SessionId)
    requires Inv(w) && FreshId(w, e) && Orphan(w.server, id) && !Releases(w.server, e, id)
    ensures var t := Step(w, e, now).server;
      Orphan(t, id) && SameDevice(t.accounts.sessions[id], w.server.accounts.sessions[id])
  {
    OrphanNext(w, e, now, id);
    if e.Ask? && e.conn in w.server.connections {
      HandleSessions(w.server.accounts, e.request, now);
      hide Handle;
    }
  }

  /** No release of the session between two moments. */
  ghost predicate Unreleased(run: seq<World>, events: seq<Event>, i: nat, j: nat, id: SessionId)
    requires |run| == |events| + 1 && i <= j <= |events|
  {
    forall k :: i <= k < j && id in run[k].server.accounts.sessions ==> !Releases(run[k].server, events[k], id)
  }

  lemma {:induction false} OrphanLasts(
      run: seq<World>, events: seq<Event>, times: seq<Time>, i: nat, j: nat, id: SessionId)
    requires IsRun(run, events, times) && i <= j <= |events| && Orphan(run[i].server, id)
    ensures Orphan(run[j].server, id) <==> Unreleased(run, events, i, j, id)
    ensures Orphan(run[j].server, id) ==>
      SameDevice(run[j].server.accounts.sessions[id], run[i].server.accounts.sessions[id])
    ensures !Orphan(run[j].server, id) ==> id in run[j].handed && id !in run[j].server.accounts.sessions
  {
    hide Inv, FreshId, Step, Releases;
    if i < j {
      OrphanLasts(run, events, times, i, j - 1, id);
      RunInv(run, events, times, j - 1);
      var x, e, now := run[j - 1], events[j - 1], times[j - 1];
      assert FreshId(x, e) && run[j - 1 + 1] == Step(x, e, now);
      if !Orphan(x.server, id) {
        StepKeepsGone(x, e, now, id);
      } else {
        Handed(x, id);
        OrphanNext(x, e, now, id);
        if Releases(x.server, e, id) {
          HandedKept(x, e, now, id);
        } else {
          OrphanKept(x, e, now, id);
        }
      }
    }
  }

  lemma Handed(w: World, id: SessionId)
    requires Inv(w) && id in w.server.accounts.sessions
    ensures id in w.handed
  {
  }

  lemma HandedKept(w: World, e: Event, now: Time, id: SessionId)
    requires id in w.handed
    ensures id in Step(w, e, now).handed
  {
    hide Next;
  }

  /** Once a session is active without a connection it stays so, and every login of its user and device
      is refused, whatever the password, for exactly as long as nobody logs that very session out or
      deletes the account. */
  lemma LockedOut(
      run: seq<World>, events: seq<Event>, times: seq<Time>, i: nat, j: nat, id: SessionId,
      password: string, newId: SessionId, now: Time)
    requires IsRun(run, events, times) && i <= j <= |events| && Orphan(run[i].server, id)
    ensures Orphan(run[j].server, id) <==> Unreleased(run, events, i, j, id)
    ensures Unreleased(run, events, i, j, id) ==>
      var a, x := run[j].server.accounts, run[i].server.accounts.sessions[id];
      Handle(a, Login(x.username, password, x.deviceName, newId), now) == (a, Refuse(DeviceConnected))
  {
    hide Step, FreshId, Releases;
    OrphanLasts(run, events, times, i, j, id);
    RunInv(run, events, times, i);
    RunInv(run, events, times, j);
  }

  // ----- credentials -----

  /** The event makes an account: a name nobody has is registered with a password that can be hashed. */
  predicate Creates(s: Server, e: Event, user: string, password: string) {
    && e.Ask? && e.conn in s.connections && e.request.Register?
    && e.request.username == user && e.request.password == password && e.request.hashed
    && user !in s.accounts.users
  }

  /** The event deletes the account: somebody with a session of that user confirms the password. */
  predicate Removes(s: Server, e: Event, user: string) {
    && e.Ask? && e.conn in s.connections && e.request.DeleteAccount?
    && e.request.token.Some? && e.request.token.value in s.accounts.sessions
    && s.accounts.sessions[e.request.token.value].username == user
    && Opens(s.accounts, user, e.request.password)
  }

  /** One event: a password opens an account afterwards exactly if it did and the account is not deleted, or the
      event has just made the account with it. */
  lemma OpensNext(s: Server, e: Event, now: Time, user: string, password: string)
    ensures Opens(Next(s, e, now).accounts, user, password) <==>
      || (Opens(s.accounts, user, password) && !Removes(s, e, user))
      || Creates(s, e, user, password)
  {
    hide IsConnected, WithoutUser, Touched, Authorized;
  }

  /** The event that made the account with this password, and no deletion of it since. */
  ghost predicate MadeAt(run: seq<World>, events: seq<Event>, k: nat, j: nat, user: string, password: string)
    requires |run| == |events| + 1 && k < j <= |events|
  {
    && Creates(run[k].server, events[k], user, password)
    && forall m :: k < m < j ==> !Removes(run[m].server, events[m], user)
  }

  /** Over all histories: a password opens an account exactly if the account was registered with it and not
      deleted since. So a later registration of a taken name changes nothing, and a deleted account opens no
      more until it is registered again. */
  lemma {:induction false} OpensExactly(
      run: seq<World>, events: seq<Event>, times: seq<Time>, j: nat, user: string, password: string)
    requires IsRun(run, events, times) && j <= |events|
    ensures Opens(run[j].server.accounts, user, password) <==>
      exists k: nat :: k < j && MadeAt(run, events, k, j, user, password)
  {
    hide Step, FreshId, Creates, Removes, Opens;
    if j == 0 {
      NothingOpens(user, password);
    } else {
      OpensExactly(run, events, times, j - 1, user, password);
      var x, e, now := run[j - 1], events[j - 1], times[j - 1];
      assert FreshId(x, e) && run[j - 1 + 1] == Step(x, e, now);
      StepNext(x, e, now);
      OpensNext(x.server, e, now, user, password);
      if Opens(run[j].server.accounts, user, password) {
        if Creates(x.server, e, user, password) {
          assert MadeAt(run, events, j - 1, j, user, password);
        } else {
          var k: nat :| k < j - 1 && MadeAt(run, events, k, j - 1, user, password);
          assert MadeAt(run, events, k, j, user, password);
        }
      }
      if k: nat :| k < j && MadeAt(run, events, k, j, user, password) {
        if k < j - 1 {
          assert MadeAt(run, events, k, j - 1, user, password);
        }
      }
    }
  }

  lemma NothingOpens(user: string, password: string)
    ensures !Opens(START.server.accounts, user, password)
  {
  }

  lemma StepNext(w: World, e: Event, now: Time)
    ensures Step(w, e, now).server == Next(w.server, e, now)
  {
  }

  // ----- connections and identities -----

  /** A connection is known from the moment it is made until it is gone, and what an unknown one sends has no
      effect at all. */
  lemma ConnectionNext(s: Server, e: Event, now: Time, conn: ConnectionId)
    ensures conn in Next(s, e, now).connections <==>
      e == Connect(conn) || (conn in s.connections && e != Disconnect(conn))
    ensures e == Disconnect(conn) && conn in s.connections ==> conn !in Next(s, e, now).bound
    ensures !e.Connect? && e.conn !in s.connections ==> Next(s, e, now) == s
  {
  }

  /** A session keeps its user, its device and its beginning; only the time of last activity moves, and that
      only for the session the event was authorised for. */
  lemma SessionKept(w: World, e: Event, now: Time, id: SessionId)
    requires Inv(w) && FreshId(w, e) && id in w.server.accounts.sessions
    requires id in Next(w.server, e, now).accounts.sessions
    ensures var a, b := w.server.accounts.sessions[id], Next(w.server, e, now).accounts.sessions[id];
      && SameDevice(a, b) && a.createdAt == b.createdAt
      && b.lastActivityAt ==
           if e.Work? && e.conn in w.server.connections && Authorized(w.server, e.conn, e.token) == Some(id) then now
           else a.lastActivityAt
  {
    if e.Ask? && e.conn in w.server.connections {
      HandleSessions(w.server.accounts, e.request, now);
      hide Handle;
    }
  }

  // ----- what a token opens -----

  /** The token of the session opens work on the connection. */
  predicate Usable(s: Server, conn: ConnectionId, id: SessionId) {
    conn in s.bound && s.bound[conn] == id && id in s.accounts.sessions
  }

  /** The event is a login on the connection that passes all checks; it is handed this id. */
  predicate LogsIn(s: Server, e: Event, conn: ConnectionId, id: SessionId) {
    && e.Ask? && e.conn == conn && conn in s.connections && e.request.Login? && e.request.id == id
    && e.request.username != "" && e.request.deviceName != ""
    && !IsConnected(s.accounts.sessions, e.request.username, e.request.deviceName)
    && Opens(s.accounts, e.request.username, e.request.password)
  }

  /** The event ends the use of the session on the connection: the connection goes, another login on it passes,
      a logout over it or of that session, the deletion of an account over it or of that session's user. */
  predicate Ends(s: Server, e: Event, conn: ConnectionId, id: SessionId) {
    var a := s.accounts;
    match e
    case Disconnect(c) => c == conn && conn in s.connections
    case Ask(c, r) =>
      && c in s.connections
      && (match r
          case Login(_, _, _, other) => LogsIn(s, e, conn, other)
          case Logout(token) => token.Some? && token.value in a.sessions && (c == conn || token.value == id)
          case DeleteAccount(token, password) =>
            && token.Some? && token.value in a.sessions && Opens(a, a.sessions[token.value].username, password)
            && (c == conn || (id in a.sessions && a.sessions[token.value].username == a.sessions[id].username))
          case _ => false)
    case _ => false
  }

  lemma AuthorizedUsable(s: Server, conn: ConnectionId, token: Option<SessionId>)
    ensures Authorized(s, conn, token).Some? <==> token.Some? && Usable(s, conn, token.value)
    ensures Authorized(s, conn, token).Some? ==> Authorized(s, conn, token) == token
  {
  }

  /** One event: a session is usable on a connection afterwards exactly if it was and nothing ended that, or if
      the event is the login that was handed it. */
  lemma UsableNext(w: World, e: Event, now: Time, conn: ConnectionId, id: SessionId)
    requires Inv(w) && FreshId(w, e)
    ensures Usable(Next(w.server, e, now), conn, id) <==>
      || (Usable(w.server, conn, id) && !Ends(w.server, e, conn, id))
      || LogsIn(w.server, e, conn, id)
  {
    hide Inv, FreshId;
    OneConnection(w);
    if e.Ask? && e.conn in w.server.connections {
      if e.request.Login? { NewIdUnbound(w, e); }
      UsableAsk(w.server, e, now, conn, id);
    } else {
      UsableElse(w.server, e, now, conn, id);
    }
  }

  lemma UsableAsk(s: Server, e: Event, now: Time, conn: ConnectionId, id: SessionId)
    requires BoundApart(s) && e.Ask? && e.conn in s.connections
    requires e.request.Login? ==>
      e.request.id !in s.accounts.sessions && forall c :: c in s.bound ==> s.bound[c] != e.request.id
    ensures Usable(Next(s, e, now), conn, id) <==>
      (Usable(s, conn, id) && !Ends(s, e, conn, id)) || LogsIn(s, e, conn, id)
  {
    hide IsConnected;
  }

  lemma UsableElse(s: Server, e: Event, now: Time, conn: ConnectionId, id: SessionId)
    requires BoundApart(s) && !(e.Ask? && e.conn in s.connections)
    ensures Usable(Next(s, e, now), conn, id) <==>
      (Usable(s, conn, id) && !Ends(s, e, conn, id)) || LogsIn(s, e, conn, id)
  {
    hide Authorized, IsConnected;
  }

  /** The login that was handed the session, and nothing since that ended its use on the connection. */
  ghost predicate LoggedInAt(
      run: seq<World>, events: seq<Event>, k: nat, j: nat, conn: ConnectionId, id: SessionId)
    requires |run| == |events| + 1 && k < j <= |events|
  {
    && LogsIn(run[k].server, events[k], conn, id)
    && forall m :: k < m < j ==> !Ends(run[m].server, events[m], conn, id)
  }

  /** Over all histories: work with a token is authorised on a connection exactly if a login on that connection
      was handed the session and neither the connection nor the session has ended since, nor has the connection
      logged in again, logged out or deleted an account. */
  lemma {:induction false} AuthorizedExactly(
      run: seq<World>, events: seq<Event>, times: seq<Time>, j: nat, conn: ConnectionId, id: SessionId)
    requires IsRun(run, events, times) && j <= |events|
    ensures Authorized(run[j].server, conn, Some(id)).Some? <==>
      exists k: nat :: k < j && LoggedInAt(run, events, k, j, conn, id)
  {
    hide Step, FreshId, Inv, Ends, LogsIn, Usable, Authorized;
    AuthorizedUsable(run[j].server, conn, Some(id));
    if j == 0 {
      NothingUsable(conn, id);
    } else {
      AuthorizedExactly(run, events, times, j - 1, conn, id);
      var x, e, now := run[j - 1], events[j - 1], times[j - 1];
      AuthorizedUsable(x.server, conn, Some(id));
      assert FreshId(x, e) && run[j - 1 + 1] == Step(x, e, now);
      RunInv(run, events, times, j - 1);
      StepNext(x, e, now);
      UsableNext(x, e, now, conn, id);
      if Usable(run[j].server, conn, id) {
        if LogsIn(x.server, e, conn, id) {
          assert LoggedInAt(run, events, j - 1, j, conn, id);
        } else {
          var k: nat :| k < j - 1 && LoggedInAt(run, events, k, j - 1, conn, id);
          assert LoggedInAt(run, events, k, j, conn, id);
        }
      }
      if k: nat :| k < j && LoggedInAt(run, events, k, j, conn, id) {
        if k < j - 1 {
          assert LoggedInAt(run, events, k, j - 1, conn, id);
        }
      }
    }
  }

  lemma NothingUsable(conn: ConnectionId, id: SessionId)
    ensures !Usable(START.server, conn, id)
  {
  }
}
