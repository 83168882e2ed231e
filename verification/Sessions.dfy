/** Sessions and game servers: what the database thread's handlers do to its tables when queries
    succeed, and what that means over every run of requests. */
module Sessions {
  import opened Wrappers

  datatype User = User(name: string, password: string, active: bool)

  /** A row of user_sessions. */
  datatype Session = Session(online: bool, socket: nat)

  /** A row of game_servers. */
  datatype Server = Server(name: string, password: string, owner: nat, ownerSocket: nat, active: bool,
                           players: nat, maxPlayers: nat)

  /** The tables.  Ids are assigned in order: the row at index k has the id k + 1. */
  datatype Db = Db(users: seq<User>, sessions: map<nat, Session>, servers: seq<Server>)

  datatype Request =
    | Login(socket: nat, name: string, password: string)
    | Logout(socket: nat, user: nat)
    | CreateAccount(socket: nat, name: string, password: string)
    | CreateServer(socket: nat, user: nat, name: string, password: string, maxPlayers: nat)
    | JoinServer(socket: nat, user: nat, server: nat, password: string)
    | CloseServer(socket: nat, user: nat, server: nat)
    | Disconnected(socket: nat)

  datatype Reply =
    | LoginOk(user: nat) | LoginDenied(user: nat) | InvalidUser
    | LogoutOk
    | AccountOk(user: nat) | AccountFail
    | ServerOk(server: nat) | ServerNameDuplicate
    | JoinOk(server: nat, reactivated: bool) | ServerNotFound | ServerFull | PasswordWrong
    | CloseOk(server: nat) | NotServerOwner
    | NoReply

  // ---- queries ---------------------------------------------------------------------------------

  predicate HasName(users: seq<User>, name: string) {
    exists k :: 0 <= k < |users| && users[k].name == name
  }

  /** The active user with that name and password. */
  function FindUser(users: seq<User>, name: string, password: string): (r: Option<nat>)
    ensures r.Some? ==> 1 <= r.value <= |users| && users[r.value - 1] == User(name, password, true)
    ensures r.None? ==> forall k :: 0 <= k < |users| ==> users[k] != User(name, password, true)
  {
    if users == [] then None
    else if users[0] == User(name, password, true) then Some(1)
    else
      match FindUser(users[1..], name, password)
      case Some(id) => Some(id + 1)
      case None =>
        assert forall k :: 0 < k < |users| ==> users[k] == users[1..][k - 1];
        None
  }

  function Online(sessions: map<nat, Session>, user: nat): bool {
    user in sessions && sessions[user].online
  }

  /** SetUserOnlineStatus(user, true, socket): insert or update. */
  function SetOnline(sessions: map<nat, Session>, user: nat, socket: nat): map<nat, Session> {
    sessions[user := Session(true, socket)]
  }

  /** UPDATE user_sessions ... WHERE user_id = user. */
  function SetOffline(sessions: map<nat, Session>, user: nat): map<nat, Session> {
    if user in sessions then sessions[user := Session(false, 0)] else sessions
  }

  /** CleanupUserSessionBySocket. */
  function OfflineBySocket(sessions: map<nat, Session>, socket: nat): map<nat, Session> {
    map u | u in sessions :: if sessions[u].online && sessions[u].socket == socket then Session(false, 0) else sessions[u]
  }

  /** UPDATE game_servers SET is_active = FALSE WHERE owner_user_id = user. */
  function StopByOwner(servers: seq<Server>, user: nat): (r: seq<Server>)
    ensures |r| == |servers|
  {
    seq(|servers|, k requires 0 <= k < |servers| =>
      if servers[k].owner == user then servers[k].(active := false) else servers[k])
  }

  /** CleanupGameServerBySocket. */
  function StopBySocket(servers: seq<Server>, socket: nat): (r: seq<Server>)
    ensures |r| == |servers|
  {
    seq(|servers|, k requires 0 <= k < |servers| =>
      if servers[k].ownerSocket == socket then servers[k].(active := false) else servers[k])
  }

  predicate ActiveName(servers: seq<Server>, name: string) {
    exists k :: 0 <= k < |servers| && servers[k].active && servers[k].name == name
  }

  predicate IsServer(db: Db, server: nat) {
    1 <= server <= |db.servers|
  }

  // ---- the handlers ----------------------------------------------------------------------------

  /** A second login throws the first one out and is itself turned away. */
  function DoLogin(db: Db, socket: nat, name: string, password: string): (Db, Reply) {
    match FindUser(db.users, name, password)
    case None => (db, InvalidUser)
    case Some(user) =>
      if Online(db.sessions, user)
      then (db.(sessions := SetOffline(db.sessions, user)), LoginDenied(user))
      else (db.(sessions := SetOnline(db.sessions, user, socket)), LoginOk(user))
  }

  function DoLogout(db: Db, user: nat): (Db, Reply) {
    (db.(servers := StopByOwner(db.servers, user), sessions := SetOffline(db.sessions, user)), LogoutOk)
  }

  function DoCreateAccount(db: Db, name: string, password: string): (Db, Reply) {
    if HasName(db.users, name) then (db, AccountFail)
    else
      var id := |db.users| + 1;
      (db.(users := db.users + [User(name, password, true)], sessions := db.sessions[id := Session(false, 0)]), AccountOk(id))
  }

  function DoCreateServer(db: Db, socket: nat, user: nat, name: string, password: string, maxPlayers: nat): (Db, Reply) {
    if ActiveName(db.servers, name) then (db, ServerNameDuplicate)
    else (db.(servers := db.servers + [Server(name, password, user, socket, true, 0, maxPlayers)]), ServerOk(|db.servers| + 1))
  }

  /** The owner reactivates the server and is not asked for room or password. */
  function DoJoin(db: Db, socket: nat, user: nat, server: nat, password: string): (Db, Reply) {
    if !IsServer(db, server) then (db, ServerNotFound)
    else
      var s := db.servers[server - 1];
      var isOwner := user == s.owner;
      if !s.active && !isOwner then (db, ServerNotFound)
      else
        var db' := if !s.active then db.(servers := db.servers[server - 1 := s.(active := true, ownerSocket := socket)]) else db;
        if !isOwner && s.players >= s.maxPlayers then (db', ServerFull)
        else if !isOwner && s.password != "" && s.password != password then (db', PasswordWrong)
        else (db', JoinOk(server, !s.active))
  }

  function DoClose(db: Db, user: nat, server: nat): (Db, Reply) {
    if IsServer(db, server) && db.servers[server - 1].owner == user && db.servers[server - 1].active
    then (db.(servers := db.servers[server - 1 := db.servers[server - 1].(active := false)]), CloseOk(server))
    else (db, NotServerOwner)
  }

  function DoDisconnected(db: Db, socket: nat): (Db, Reply) {
    (db.(servers := StopBySocket(db.servers, socket), sessions := OfflineBySocket(db.sessions, socket)), NoReply)
  }

  function Step(db: Db, r: Request): (Db, Reply) {
    match r
    case Login(socket, name, password) => DoLogin(db, socket, name, password)
    case Logout(_, user) => DoLogout(db, user)
    case CreateAccount(_, name, password) => DoCreateAccount(db, name, password)
    case CreateServer(socket, user, name, password, max) => DoCreateServer(db, socket, user, name, password, max)
    case JoinServer(socket, user, server, password) => DoJoin(db, socket, user, server, password)
    case CloseServer(_, user, server) => DoClose(db, user, server)
    case Disconnected(socket) => DoDisconnected(db, socket)
  }

  function Run(db: Db, requests: seq<Request>): Db {
    if requests == [] then db
    else Step(Run(db, requests[..|requests| - 1]), requests[|requests| - 1]).0
  }

  // ---- sessions over a run ---------------------------------------------------------------------

  /** The reply to request j of a run. */
  function ReplyAt(db: Db, requests: seq<Request>, j: nat): Reply
    requires j < |requests|
  {
    Step(Run(db, requests[..j]), requests[j]).1
  }

  ghost predicate LoggedIn(db: Db, requests: seq<Request>, j: nat, user: nat, socket: nat)
    requires j < |requests|
  {
    requests[j].Login? && requests[j].socket == socket && ReplyAt(db, requests, j) == LoginOk(user)
  }

  /** Request j ends the session of user on socket: a logout of the user by anyone, the end of the
      connection, or a second login as the user. */
  ghost predicate LoggedOut(db: Db, requests: seq<Request>, j: nat, user: nat, socket: nat)
    requires j < |requests|
  {
    match requests[j]
    case Logout(_, u) => u == user
    case Disconnected(s) => s == socket
    case Login(_, _, _) => ReplyAt(db, requests, j) == LoginDenied(user)
    case _ => false
  }

  ghost predicate SessionSince(db: Db, requests: seq<Request>, user: nat, socket: nat, j: nat) {
    && j < |requests| && LoggedIn(db, requests, j, user, socket)
    && forall k :: j < k < |requests| ==> !LoggedOut(db, requests, k, user, socket)
  }

  predicate OnlineAs(db: Db, user: nat, socket: nat) {
    user in db.sessions && db.sessions[user] == Session(true, socket)
  }

  /** The first `n` requests of a run. */
  lemma Prefixes(requests: seq<Request>, n: nat, j: nat)
    requires j <= n <= |requests|
    ensures requests[..n][..j] == requests[..j]
  {
  }

  /** What one request does to a session. */
  lemma SessionStep(db: Db, r: Request, user: nat, socket: nat)
    ensures OnlineAs(Step(db, r).0, user, socket) <==>
              || (r.Login? && r.socket == socket && Step(db, r).1 == LoginOk(user))
              || (OnlineAs(db, user, socket)
                  && !(r.Logout? && r.user == user) && !(r.Disconnected? && r.socket == socket)
                  && !(r.Login? && Step(db, r).1 == LoginDenied(user))
                  && !(r.CreateAccount? && Step(db, r).1 == AccountOk(user)))
  {
    hide FindUser, StopByOwner, StopBySocket, HasName, ActiveName;
  }

  /** Usernames are unique, sessions belong to users, and an offline session has no socket. */
  ghost predicate Consistent(db: Db) {
    && (forall i, j :: 0 <= i < j < |db.users| ==> db.users[i].name != db.users[j].name)
    && (forall u :: u in db.sessions ==> 1 <= u <= |db.users|)
    && (forall u :: u in db.sessions && !db.sessions[u].online ==> db.sessions[u].socket == 0)
  }

  lemma StepConsistent(db: Db, r: Request)
    requires Consistent(db)
    ensures Consistent(Step(db, r).0)
  {
    hide StopByOwner, StopBySocket, ActiveName;
  }

  /** In every run usernames stay unique and every offline session has socket 0. */
  lemma {:induction false} RunConsistent(db: Db, requests: seq<Request>)
    requires Consistent(db)
    ensures Consistent(Run(db, requests))
  {
    hide Consistent, Step;
    if requests != [] {
      RunConsistent(db, requests[..|requests| - 1]);
      StepConsistent(Run(db, requests[..|requests| - 1]), requests[|requests| - 1]);
    }
  }

  /** A freshly started server: every session reset, every game server inactive. */
  ghost predicate Fresh(db: Db) {
    && Consistent(db)
    && (forall u :: u in db.sessions ==> db.sessions[u] == Session(false, 0))
    && (forall k :: 0 <= k < |db.servers| ==> !db.servers[k].active)
  }

  ghost predicate HasSession(db: Db, requests: seq<Request>, user: nat, socket: nat) {
    exists j :: SessionSince(db, requests, user, socket, j)
  }

  /** How the history of a session goes on by one request. */
  lemma OneMoreRequest(db: Db, requests: seq<Request>, n: nat, user: nat, socket: nat)
    requires n < |requests|
    ensures HasSession(db, requests[..n + 1], user, socket) <==>
              || LoggedIn(db, requests, n, user, socket)
              || (HasSession(db, requests[..n], user, socket) && !LoggedOut(db, requests, n, user, socket))
  {
    hide Step, Run;
    var shorter, longer := requests[..n], requests[..n + 1];
    forall k | 0 <= k <= n ensures longer[..k] == requests[..k] { Prefixes(requests, n + 1, k); }
    forall k | 0 <= k < n ensures shorter[..k] == requests[..k] { Prefixes(requests, n, k); }
    if LoggedIn(db, requests, n, user, socket) { assert SessionSince(db, longer, user, socket, n); }
    if HasSession(db, shorter, user, socket) && !LoggedOut(db, requests, n, user, socket) {
      var j :| SessionSince(db, shorter, user, socket, j);
      SameHistory(db, shorter, longer, requests, n, user, socket);
      assert SessionSince(db, longer, user, socket, j);
    }
    if HasSession(db, longer, user, socket) && !LoggedIn(db, requests, n, user, socket) {
      var j :| SessionSince(db, longer, user, socket, j);
      SameHistory(db, shorter, longer, requests, n, user, socket);
      assert SessionSince(db, shorter, user, socket, j);
    }
  }

  lemma SameHistory(db: Db, shorter: seq<Request>, longer: seq<Request>, requests: seq<Request>, n: nat, user: nat, socket: nat)
    requires n < |requests| && shorter == requests[..n] && longer == requests[..n + 1]
    ensures forall k :: 0 <= k < n ==>
              LoggedIn(db, shorter, k, user, socket) == LoggedIn(db, longer, k, user, socket)
    ensures forall k :: 0 <= k < n ==>
              LoggedOut(db, shorter, k, user, socket) == LoggedOut(db, longer, k, user, socket)
    ensures LoggedOut(db, longer, n, user, socket) == LoggedOut(db, requests, n, user, socket)
    ensures LoggedIn(db, longer, n, user, socket) == LoggedIn(db, requests, n, user, socket)
  {
    hide Step, Run;
    Prefixes(requests, n + 1, n);
    forall k | 0 <= k < n ensures shorter[..k] == longer[..k] && shorter[k] == longer[k] {
      Prefixes(requests, n, k);
      Prefixes(requests, n + 1, k);
    }
  }

  /** Session safety: in every run from a fresh start, a user is online on a socket if and only if some
      login of that user on that socket succeeded and since then the user was not logged out, the
      socket was not disconnected and no second login threw the session out. */
  lemma {:induction false} SessionsAreLogins(db: Db, requests: seq<Request>, n: nat, user: nat, socket: nat)
    requires Fresh(db) && n <= |requests|
    ensures OnlineAs(Run(db, requests[..n]), user, socket) <==> HasSession(db, requests[..n], user, socket)
  {
    hide Step, Consistent;
    if n == 0 {
      assert requests[..0] == [];
    } else {
      SessionsAreLogins(db, requests, n - 1, user, socket);
      var before := Run(db, requests[..n - 1]);
      var r := requests[n - 1];
      assert requests[..n][..n - 1] == requests[..n - 1];
      RunConsistent(db, requests[..n - 1]);
      SessionStep(before, r, user, socket);
      OneMoreRequest(db, requests, n - 1, user, socket);
      if r.CreateAccount? && Step(before, r).1 == AccountOk(user) { NewAccount(before, r, user, socket); }
    }
  }

  lemma NewAccount(db: Db, r: Request, user: nat, socket: nat)
    requires Consistent(db) && r.CreateAccount? && Step(db, r).1 == AccountOk(user)
    ensures !OnlineAs(db, user, socket)
  {
  }

  // ---- game servers over a run -----------------------------------------------------------------

  predicate ActiveAs(db: Db, server: nat, socket: nat) {
    IsServer(db, server) && db.servers[server - 1].active && db.servers[server - 1].ownerSocket == socket
  }

  /** The request makes the server active for the socket: it creates it, or its owner joins it while it
      is inactive. */
  predicate Starts(db: Db, r: Request, server: nat, socket: nat) {
    || (r.CreateServer? && r.socket == socket && Step(db, r).1 == ServerOk(server))
    || (r.JoinServer? && r.socket == socket && Step(db, r).1 == JoinOk(server, true))
  }

  /** The request makes the server inactive, if it is active for the socket. */
  predicate Stops(db: Db, r: Request, server: nat, socket: nat) {
    match r
    case Disconnected(s) => s == socket
    case CloseServer(_, _, _) => Step(db, r).1 == CloseOk(server)
    case Logout(_, user) => IsServer(db, server) && db.servers[server - 1].owner == user
    case _ => false
  }

  lemma ServerStep(db: Db, r: Request, server: nat, socket: nat)
    ensures ActiveAs(Step(db, r).0, server, socket) <==>
              Starts(db, r, server, socket) || (ActiveAs(db, server, socket) && !Stops(db, r, server, socket))
  {
    hide FindUser, HasName, ActiveName, SetOnline, SetOffline, OfflineBySocket;
  }

  /** Request j of a run. */
  ghost predicate StartedAt(db: Db, requests: seq<Request>, j: nat, server: nat, socket: nat)
    requires j < |requests|
  {
    Starts(Run(db, requests[..j]), requests[j], server, socket)
  }

  ghost predicate StoppedAt(db: Db, requests: seq<Request>, j: nat, server: nat, socket: nat)
    requires j < |requests|
  {
    Stops(Run(db, requests[..j]), requests[j], server, socket)
  }

  ghost predicate ActiveSince(db: Db, requests: seq<Request>, server: nat, socket: nat, j: nat) {
    && j < |requests| && StartedAt(db, requests, j, server, socket)
    && forall k :: j < k < |requests| ==> !StoppedAt(db, requests, k, server, socket)
  }

  ghost predicate HasStart(db: Db, requests: seq<Request>, server: nat, socket: nat) {
    exists j :: ActiveSince(db, requests, server, socket, j)
  }

  lemma SameStarts(db: Db, shorter: seq<Request>, longer: seq<Request>, requests: seq<Request>, n: nat, server: nat, socket: nat)
    requires n < |requests| && shorter == requests[..n] && longer == requests[..n + 1]
    ensures forall k :: 0 <= k < n ==> StartedAt(db, shorter, k, server, socket) == StartedAt(db, longer, k, server, socket)
    ensures forall k :: 0 <= k < n ==> StoppedAt(db, shorter, k, server, socket) == StoppedAt(db, longer, k, server, socket)
    ensures StartedAt(db, longer, n, server, socket) == StartedAt(db, requests, n, server, socket)
    ensures StoppedAt(db, longer, n, server, socket) == StoppedAt(db, requests, n, server, socket)
  {
    hide Starts, Stops, Run;
    Prefixes(requests, n + 1, n);
    forall k | 0 <= k < n ensures shorter[..k] == longer[..k] && shorter[k] == longer[k] {
      Prefixes(requests, n, k);
      Prefixes(requests, n + 1, k);
    }
  }

  lemma OneMoreStart(db: Db, requests: seq<Request>, n: nat, server: nat, socket: nat)
    requires n < |requests|
    ensures HasStart(db, requests[..n + 1], server, socket) <==>
              || StartedAt(db, requests, n, server, socket)
              || (HasStart(db, requests[..n], server, socket) && !StoppedAt(db, requests, n, server, socket))
  {
    hide Starts, Stops, Run, StartedAt, StoppedAt;
    var shorter, longer := requests[..n], requests[..n + 1];
    SameStarts(db, shorter, longer, requests, n, server, socket);
    if StartedAt(db, requests, n, server, socket) { assert ActiveSince(db, longer, server, socket, n); }
    if HasStart(db, shorter, server, socket) && !StoppedAt(db, requests, n, server, socket) {
      var j :| ActiveSince(db, shorter, server, socket, j);
      assert ActiveSince(db, longer, server, socket, j);
    }
    if HasStart(db, longer, server, socket) && !StartedAt(db, requests, n, server, socket) {
      var j :| ActiveSince(db, longer, server, socket, j);
      assert ActiveSince(db, shorter, server, socket, j);
    }
  }

  /** Server safety: in every run from a fresh start, a game server is active for a socket if and only
      if it was created on that socket or reactivated by its owner on it, and since then the socket was
      not disconnected, the server not closed and its owner not logged out. */
  lemma {:induction false} ServersAreStarted(db: Db, requests: seq<Request>, n: nat, server: nat, socket: nat)
    requires Fresh(db) && n <= |requests|
    ensures ActiveAs(Run(db, requests[..n]), server, socket) <==> HasStart(db, requests[..n], server, socket)
  {
    hide Starts, Stops, Step, Consistent;
    if n == 0 {
      assert requests[..0] == [];
    } else {
      ServersAreStarted(db, requests, n - 1, server, socket);
      assert requests[..n][..n - 1] == requests[..n - 1];
      ServerStep(Run(db, requests[..n - 1]), requests[n - 1], server, socket);
      OneMoreStart(db, requests, n - 1, server, socket);
    }
  }

  // ---- names of active servers -----------------------------------------------------------------

  predicate ActiveNamesUnique(servers: seq<Server>) {
    forall i, j :: 0 <= i < j < |servers| && servers[i].active && servers[j].active ==> servers[i].name != servers[j].name
  }

  /** A request keeps the names of active servers different, unless the owner of an inactive server
      joins it while another server of that name is active: reactivation does not check the name. */
  lemma NamesKeptUnless(db: Db, r: Request)
    requires ActiveNamesUnique(db.servers)
    ensures ActiveNamesUnique(Step(db, r).0.servers) <==>
              !(r.JoinServer? && IsServer(db, r.server) && !db.servers[r.server - 1].active
                && db.servers[r.server - 1].owner == r.user && ActiveName(db.servers, db.servers[r.server - 1].name))
  {
    hide FindUser, HasName, SetOnline, SetOffline, OfflineBySocket;
    if r.JoinServer? && IsServer(db, r.server) && !db.servers[r.server - 1].active && db.servers[r.server - 1].owner == r.user {
      Reactivated(db.servers, r.server - 1, r.socket);
    }
  }

  lemma Reactivated(servers: seq<Server>, k: nat, socket: nat)
    requires k < |servers| && !servers[k].active && ActiveNamesUnique(servers)
    ensures ActiveNamesUnique(servers[k := servers[k].(active := true, ownerSocket := socket)])
            <==> !ActiveName(servers, servers[k].name)
  {
    var r := servers[k := servers[k].(active := true, ownerSocket := socket)];
    if ActiveName(servers, servers[k].name) {
      var j :| 0 <= j < |servers| && servers[j].active && servers[j].name == servers[k].name;
      assert r[j].active && r[k].active && r[j].name == r[k].name;
    }
  }

  // ---- what the replies say --------------------------------------------------------------------

  predicate IsUser(db: Db, user: nat, name: string, password: string) {
    1 <= user <= |db.users| && db.users[user - 1] == User(name, password, true)
  }

  /** A login is answered by who has the name and the password, and whether that user is online. */
  lemma LoginReplies(db: Db, socket: nat, name: string, password: string)
    requires Consistent(db)
    ensures var reply := Step(db, Login(socket, name, password)).1;
            && (forall u: nat :: reply == LoginOk(u) <==> IsUser(db, u, name, password) && !Online(db.sessions, u))
            && (forall u: nat :: reply == LoginDenied(u) <==> IsUser(db, u, name, password) && Online(db.sessions, u))
            && (reply == InvalidUser <==> forall u: nat :: !IsUser(db, u, name, password))
  {
    var found := FindUser(db.users, name, password);
    if found.Some? {
      assert IsUser(db, found.value, name, password);
    }
  }

  /** An account is made exactly if its name is free, and its user can then log in with the password. */
  lemma AccountLogsIn(db: Db, socket: nat, name: string, password: string, later: nat)
    requires Consistent(db)
    ensures var (db1, reply) := Step(db, CreateAccount(socket, name, password));
            && (reply.AccountOk? <==> forall k :: 0 <= k < |db.users| ==> db.users[k].name != name)
            && (reply.AccountOk? ==>
                  Step(db1, Login(later, name, password)).1 == LoginOk(reply.user)
                  && OnlineAs(Step(db1, Login(later, name, password)).0, reply.user, later))
  {
    var (db1, reply) := Step(db, CreateAccount(socket, name, password));
    if reply.AccountOk? {
      StepConsistent(db, CreateAccount(socket, name, password));
      assert IsUser(db1, reply.user, name, password);
      LoginReplies(db1, later, name, password);
    }
  }

  /** Who may join a server: its owner always, others an active one with room, by its password. */
  lemma JoinReplies(db: Db, socket: nat, user: nat, server: nat, password: string)
    ensures var reply := Step(db, JoinServer(socket, user, server, password)).1;
            if !IsServer(db, server) then reply == ServerNotFound
            else
              var s := db.servers[server - 1];
              && (reply.JoinOk? <==>
                    s.owner == user || (s.active && s.players < s.maxPlayers && (s.password == "" || s.password == password)))
              && (reply.JoinOk? ==> reply == JoinOk(server, !s.active))
              && (reply == ServerFull <==> s.owner != user && s.active && s.maxPlayers <= s.players)
              && (reply == PasswordWrong <==>
                    s.owner != user && s.active && s.players < s.maxPlayers && s.password != "" && s.password != password)
              && (reply == ServerNotFound <==> s.owner != user && !s.active)
  {
  }

  predicate Refused(reply: Reply) {
    reply in {InvalidUser, AccountFail, ServerNameDuplicate, ServerNotFound, ServerFull, PasswordWrong, NotServerOwner}
  }

  /** A refused request changes no table; a denied login ends the other session and changes nothing else. */
  lemma RefusalChangesNothing(db: Db, r: Request)
    ensures var (db1, reply) := Step(db, r);
            && (Refused(reply) ==> db1 == db)
            && (reply.LoginDenied? ==>
                  && reply.user in db.sessions && db.sessions[reply.user].online
                  && db1 == db.(sessions := db.sessions[reply.user := Session(false, 0)]))
  {
    hide FindUser, HasName, ActiveName, StopByOwner, StopBySocket, OfflineBySocket;
  }

  // ---- what rows become --------------------------------------------------------------------------

  /** The rows of users: one more for an account made, with the name and password asked for, and every
      other row as it was. */
  lemma UserRows(db: Db, r: Request)
    ensures var (db1, reply) := Step(db, r);
            && (reply.AccountOk? ==> r.CreateAccount? && reply.user == |db.users| + 1)
            && db1.users == if reply.AccountOk? then db.users + [User(r.name, r.password, true)] else db.users
  {
    hide FindUser, HasName, ActiveName, StopByOwner, StopBySocket, OfflineBySocket;
  }

  /** No run changes or takes away a user's row. */
  lemma {:induction false} RunKeepsUsers(db: Db, requests: seq<Request>)
    ensures var users := Run(db, requests).users; |db.users| <= |users| && users[..|db.users|] == db.users
  {
    hide Step;
    if requests != [] {
      RunKeepsUsers(db, requests[..|requests| - 1]);
      UserRows(Run(db, requests[..|requests| - 1]), requests[|requests| - 1]);
    }
  }

  lemma {:induction false} RunInTurn(db: Db, requests: seq<Request>, j: nat)
    requires j <= |requests|
    ensures Run(db, requests) == Run(Run(db, requests[..j]), requests[j..])
    decreases |requests|
  {
    hide Step;
    if j < |requests| {
      var front := requests[..|requests| - 1];
      RunInTurn(db, front, j);
      assert front[..j] == requests[..j] && requests[j..][..|requests| - j - 1] == front[j..];
    } else {
      assert requests[..j] == requests;
    }
  }

  /** An account made at request j can be logged into with its password after whatever requests follow:
      the login succeeds, or ends the session of another one. */
  lemma AccountLasts(db: Db, requests: seq<Request>, j: nat, socket: nat)
    requires Consistent(db) && j < |requests| && ReplyAt(db, requests, j).AccountOk?
    ensures requests[j].CreateAccount?
    ensures var user, after := ReplyAt(db, requests, j).user, Run(db, requests);
            Step(after, Login(socket, requests[j].name, requests[j].password)).1
            == if Online(after.sessions, user) then LoginDenied(user) else LoginOk(user)
  {
    hide Step, Consistent, Online;
    var before, r := Run(db, requests[..j]), requests[j];
    UserRows(before, r);
    assert requests[..j + 1][..j] == requests[..j];
    var made := Run(db, requests[..j + 1]);
    RunInTurn(db, requests, j + 1);
    RunKeepsUsers(made, requests[j + 1..]);
    RunConsistent(db, requests);
    var after, user := Run(db, requests), |before.users| + 1;
    assert after.users[..|made.users|][user - 1] == User(r.name, r.password, true);
    assert IsUser(after, user, r.name, r.password);
    LoginReplies(after, socket, r.name, r.password);
  }

  /** What no request changes of a server. */
  function Kept(s: Server): Server {
    s.(active := false, ownerSocket := 0)
  }

  /** The rows of servers: one more for a server created, as the request asks; every other row keeps its
      name, password, owner and numbers of players, and the socket of its owner unless it is started. */
  lemma ServerRows(db: Db, r: Request)
    ensures var (db1, reply) := Step(db, r);
            && |db1.servers| == |db.servers| + (if reply.ServerOk? then 1 else 0)
            && (reply.ServerOk? ==>
                  r.CreateServer? && reply.server == |db1.servers|
                  && db1.servers[|db.servers|] == Server(r.name, r.password, r.user, r.socket, true, 0, r.maxPlayers))
            && (r.CreateServer? ==> (reply.ServerOk? <==> !ActiveName(db.servers, r.name)))
            && forall k :: 0 <= k < |db.servers| ==>
                 && Kept(db1.servers[k]) == Kept(db.servers[k])
                 && (db1.servers[k].ownerSocket == db.servers[k].ownerSocket || (r.JoinServer? && Starts(db, r, k + 1, r.socket)))
  {
    hide FindUser, HasName, ActiveName, SetOnline, SetOffline, OfflineBySocket;
  }

  /** In every run a server keeps the name, password, owner and numbers of players it was created with. */
  lemma {:induction false} RunKeepsServers(db: Db, requests: seq<Request>)
    ensures |db.servers| <= |Run(db, requests).servers|
    ensures forall k :: 0 <= k < |db.servers| ==> Kept(Run(db, requests).servers[k]) == Kept(db.servers[k])
  {
    hide Step, Kept;
    if requests != [] {
      RunKeepsServers(db, requests[..|requests| - 1]);
      ServerRows(Run(db, requests[..|requests| - 1]), requests[|requests| - 1]);
    }
  }

  /** Who has a session row: users whose account was made or who logged in, ever. */
  lemma SessionRows(db: Db, r: Request)
    ensures var (db1, reply) := Step(db, r);
            forall u: nat :: u in db1.sessions <==> u in db.sessions || reply == AccountOk(u) || reply == LoginOk(u)
    ensures !r.Login? && !r.Logout? && !r.CreateAccount? && !r.Disconnected? ==> Step(db, r).0.sessions == db.sessions
  {
    hide FindUser, HasName, ActiveName, StopByOwner, StopBySocket;
  }

  /** A server is closed exactly by its owner while it is active; a logout always succeeds. */
  lemma CloseReplies(db: Db, socket: nat, user: nat, server: nat)
    ensures var reply := Step(db, CloseServer(socket, user, server)).1;
            && (reply == CloseOk(server) <==>
                  1 <= server <= |db.servers| && db.servers[server - 1].active && db.servers[server - 1].owner == user)
            && (reply != CloseOk(server) ==> reply == NotServerOwner)
    ensures Step(db, Logout(socket, user)).1 == LogoutOk
  {
  }

  /** The replies of a run, in order: one to each request but the ends of connections. */
  function Replies(db: Db, requests: seq<Request>): seq<Reply> {
    if requests == [] then []
    else
      var front, last := requests[..|requests| - 1], requests[|requests| - 1];
      Replies(db, front) + if last.Disconnected? then [] else [Step(Run(db, front), last).1]
  }

  // ---- the thread ------------------------------------------------------------------------------

  class DatabaseThread {
    var users: seq<User>
    var sessions: map<nat, Session>
    var servers: seq<Server>
    var sendQueue: seq<Reply>

    function Tables(): Db
      reads this
    {
      Db(users, sessions, servers)
    }

    constructor (db: Db)
      ensures Tables() == db && sendQueue == []
    {
      users, sessions, servers, sendQueue := db.users, db.sessions, db.servers, [];
    }

    method SendResponse(reply: Reply)
      modifies this`sendQueue
      ensures sendQueue == old(sendQueue) + [reply]
    {
      sendQueue := sendQueue + [reply];
    }

    method HandleLogin(socket: nat, name: string, password: string)
      modifies this
      ensures (Tables(), sendQueue) == After(old(Tables()), old(sendQueue), Login(socket, name, password))
    {
      var found := FindUser(users, name, password);
      if found.None? { SendResponse(InvalidUser); return; }
      var user := found.value;
      if Online(sessions, user) {
        sessions := SetOffline(sessions, user);
        SendResponse(LoginDenied(user));
        return;
      }
      sessions := SetOnline(sessions, user, socket);
      SendResponse(LoginOk(user));
    }

    method HandleLogout(socket: nat, user: nat)
      modifies this
      ensures (Tables(), sendQueue) == After(old(Tables()), old(sendQueue), Logout(socket, user))
    {
      servers := StopByOwner(servers, user);
      sessions := SetOffline(sessions, user);
      SendResponse(LogoutOk);
    }

    method HandleCreateAccount(socket: nat, name: string, password: string)
      modifies this
      ensures (Tables(), sendQueue) == After(old(Tables()), old(sendQueue), CreateAccount(socket, name, password))
    {
      var taken := exists k :: 0 <= k < |users| && users[k].name == name;
      if taken { SendResponse(AccountFail); return; }
      users := users + [User(name, password, true)];
      var newUserId := |users|;
      sessions := sessions[newUserId := Session(false, 0)];
      SendResponse(AccountOk(newUserId));
    }

    method HandleCreateServer(socket: nat, user: nat, name: string, password: string, maxPlayers: nat)
      modifies this
      ensures (Tables(), sendQueue) == After(old(Tables()), old(sendQueue), CreateServer(socket, user, name, password, maxPlayers))
    {
      if ActiveName(servers, name) { SendResponse(ServerNameDuplicate); return; }
      servers := servers + [Server(name, password, user, socket, true, 0, maxPlayers)];
      SendResponse(ServerOk(|servers|));
    }

    method HandleJoinServer(socket: nat, user: nat, server: nat, password: string)
      modifies this
      ensures (Tables(), sendQueue) == After(old(Tables()), old(sendQueue), JoinServer(socket, user, server, password))
    {
      if !(1 <= server <= |servers|) { SendResponse(ServerNotFound); return; }
      var row := servers[server - 1];
      var isOwner := user == row.owner;
      if !row.active && !isOwner { SendResponse(ServerNotFound); return; }
      if !row.active && isOwner {
        servers := servers[server - 1 := row.(active := true, ownerSocket := socket)];
      }
      if !isOwner && row.players >= row.maxPlayers { SendResponse(ServerFull); return; }
      if !isOwner && row.password != "" && row.password != password { SendResponse(PasswordWrong); return; }
      SendResponse(JoinOk(server, !row.active));
    }

    method HandleCloseServer(socket: nat, user: nat, server: nat)
      modifies this
      ensures (Tables(), sendQueue) == After(old(Tables()), old(sendQueue), CloseServer(socket, user, server))
    {
      if 1 <= server <= |servers| && servers[server - 1].owner == user && servers[server - 1].active {
        servers := servers[server - 1 := servers[server - 1].(active := false)];
        SendResponse(CloseOk(server));
      } else {
        SendResponse(NotServerOwner);
      }
    }

    method HandleClientDisconnected(socket: nat)
      modifies this
      ensures (Tables(), sendQueue) == After(old(Tables()), old(sendQueue), Disconnected(socket))
    {
      servers := StopBySocket(servers, socket);
      sessions := OfflineBySocket(sessions, socket);
    }

    /** ProcessTask: one handler per kind of request. */
    method ProcessTask(r: Request)
      modifies this
      ensures (Tables(), sendQueue) == After(old(Tables()), old(sendQueue), r)
    {
      hide After;
      match r
      case Login(socket, name, password) => HandleLogin(socket, name, password);
      case Logout(socket, user) => HandleLogout(socket, user);
      case CreateAccount(socket, name, password) => HandleCreateAccount(socket, name, password);
      case CreateServer(socket, user, name, password, max) => HandleCreateServer(socket, user, name, password, max);
      case JoinServer(socket, user, server, password) => HandleJoinServer(socket, user, server, password);
      case CloseServer(socket, user, server) => HandleCloseServer(socket, user, server);
      case Disconnected(socket) => HandleClientDisconnected(socket);
    }

    /** Run: the tasks in the order of the queue, each answered before the next. */
    method RunTasks(tasks: seq<Request>)
      modifies this
      ensures Tables() == Run(old(Tables()), tasks)
      ensures sendQueue == old(sendQueue) + Replies(old(Tables()), tasks)
    {
      hide Step;
      var i := 0;
      while i < |tasks|
        invariant 0 <= i <= |tasks| && Tables() == Run(old(Tables()), tasks[..i])
        invariant sendQueue == old(sendQueue) + Replies(old(Tables()), tasks[..i])
      {
        ProcessTask(tasks[i]);
        assert tasks[..i + 1][..i] == tasks[..i];
        i := i + 1;
      }
      assert tasks[..i] == tasks;
    }
  }

  /** The tables and the queue of replies after a request; a disconnect has no reply. */
  function After(db: Db, queue: seq<Reply>, r: Request): (Db, seq<Reply>) {
    (Step(db, r).0, if r.Disconnected? then queue else queue + [Step(db, r).1])
  }
}
