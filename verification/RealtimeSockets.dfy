/**
 Sockets over time. A socket's rooms come from the principal its handshake resolved; a change to what a
 user may do revokes every session of theirs in the same transaction, and a scan afterwards closes the
 sockets whose session is dead.
 */
module RealtimeSockets {
  import opened Common
  import opened Realtime

  type SocketId = nat
  type SessionId = nat

  /** `joined` is false between the handshake and the connection handler that joins the rooms. */
  datatype Socket = Socket(principal: Principal, session: SessionId, joined: bool)

  /** One conversation's audience, what each user may do now, the live sessions, every session ever issued, the sockets. */
  datatype State = State(
    audience: Audience,
    access: map<Id, Principal>,
    live: map<SessionId, Id>,
    issued: set<SessionId>,
    sockets: map<SocketId, Socket>)

  datatype Step =
    | SignIn(session: SessionId, user: Id)
    | Handshake(socket: SocketId, session: SessionId)
    | Join(socket: SocketId)
    | Disconnect(socket: SocketId)
    /** A change of role, status or team membership. */
    | ChangeAccess(user: Id, teams: set<Id>, readAll: bool, readsCannedResponses: bool)
    | Revoke(session: SessionId)
    /** The re-check of a user's sockets after a revocation. It finds them by their room. */
    | Scan(user: Id)
    | Assign(toUser: Option<Id>, toTeam: Option<Id>)

  function Next(s: State, step: Step): State {
    match step
    case SignIn(session, user) =>
      if session in s.issued || user !in s.access then s
      else s.(live := s.live[session := user], issued := s.issued + {session})
    case Handshake(socket, session) =>
      if socket in s.sockets || session !in s.live || s.live[session] !in s.access then s
      else s.(sockets := s.sockets[socket := Socket(s.access[s.live[session]], session, false)])
    case Join(socket) =>
      if socket !in s.sockets then s else s.(sockets := s.sockets[socket := s.sockets[socket].(joined := true)])
    case Disconnect(socket) => s.(sockets := s.sockets - {socket})
    case ChangeAccess(user, teams, readAll, readsCannedResponses) =>
      if user !in s.access then s
      else
        var p := s.access[user].(teams := teams, readAll := readAll, readsCannedResponses := readsCannedResponses);
        s.(access := s.access[user := p], live := map session | session in s.live && s.live[session] != user :: s.live[session])
    case Revoke(session) => s.(live := s.live - {session})
    case Scan(user) => s.(sockets := map k | k in s.sockets && !Closed(s, s.sockets[k], user) :: s.sockets[k])
    case Assign(user, team) => s.(audience := s.audience.(user := user, team := team))
  }

  predicate Closed(s: State, socket: Socket, user: Id) {
    socket.joined && socket.principal.user == user && socket.session !in s.live
  }

  function Run(s: State, steps: seq<Step>): State {
    if steps == [] then s else Next(Run(s, steps[..|steps| - 1]), steps[|steps| - 1])
  }

  // --- What a live session knows ----------------------------------------------------------------

  predicate Alive(s: State, k: SocketId)
    requires k in s.sockets
  {
    s.sockets[k].session in s.live
  }

  /** The rooms of a socket whose session lives are those of the access its user has now. */
  ghost predicate Honest(s: State) {
    && (forall session :: session in s.live ==> session in s.issued)
    && (forall u :: u in s.access ==> s.access[u].user == u)
    && (forall k :: k in s.sockets ==>
          && s.sockets[k].session in s.issued
          && s.sockets[k].principal.user in s.access
          && s.access[s.sockets[k].principal.user].tenant == s.sockets[k].principal.tenant
          && (Alive(s, k) ==>
                s.live[s.sockets[k].session] == s.sockets[k].principal.user
                && s.access[s.sockets[k].principal.user] == s.sockets[k].principal))
  }

  lemma NextKeepsHonest(s: State, step: Step)
    requires Honest(s)
    ensures Honest(Next(s, step))
  {
  }

  lemma {:induction false} RunKeepsHonest(s: State, steps: seq<Step>)
    requires Honest(s)
    ensures Honest(Run(s, steps))
  {
    if steps == [] {
    } else {
      RunKeepsHonest(s, steps[..|steps| - 1]);
      NextKeepsHonest(Run(s, steps[..|steps| - 1]), steps[|steps| - 1]);
    }
  }

  function Now(s: State, k: SocketId): Principal
    requires k in s.sockets && s.sockets[k].principal.user in s.access
  {
    s.access[s.sockets[k].principal.user]
  }

  ghost predicate Delivered(s: State, k: SocketId) {
    k in s.sockets && s.sockets[k].joined && Reaches(Names(AudienceRooms(s.audience)), s.sockets[k].principal)
  }

  /** What the read rule says today of the person behind the socket. */
  predicate MayRead(s: State, k: SocketId)
    requires k in s.sockets && s.sockets[k].principal.user in s.access
  {
    Now(s, k).tenant == s.audience.tenant && IsVisibleOrUnclaimed(s.audience, Now(s, k))
  }

  /**
   In every run of sign-ins, connections, role and team changes, revocations, scans and reassignments, an
   emit reaches a joined socket whose session is live exactly when its user may read the thread with the
   access they have at that moment. A socket it serves wrongly, either way, is one whose session is dead
   and whose handshake saw an access the read rule judges differently.
   */
  lemma {:induction false} LiveSocketsFollowTheReadRule(home: map<Id, Id>, start: State, steps: seq<Step>, k: SocketId)
    requires Honest(start)
    requires var s := Run(start, steps);
             k in s.sockets && s.sockets[k].joined && OneHome(home, s.audience, s.sockets[k].principal)
    ensures var s := Run(start, steps);
            && Honest(s) && s.sockets[k].principal.user in s.access
            && (Alive(s, k) ==> (Delivered(s, k) <==> MayRead(s, k)))
            && ((Delivered(s, k) != MayRead(s, k)) <==>
                  !Alive(s, k) && Now(s, k).tenant == s.audience.tenant
                  && IsVisibleOrUnclaimed(s.audience, s.sockets[k].principal) != IsVisibleOrUnclaimed(s.audience, Now(s, k)))
  {
    RunKeepsHonest(start, steps);
    var s := Run(start, steps);
    AudienceIsTheReadRule(home, s.audience, s.sockets[k].principal);
  }

  // --- The scan ---------------------------------------------------------------------------------

  /** No joined socket of the user outlives its session. */
  predicate Clean(s: State, user: Id) {
    forall k | k in s.sockets :: s.sockets[k].joined && s.sockets[k].principal.user == user ==> Alive(s, k)
  }

  /** The step leaves a joined socket of the user with a dead session. */
  predicate Strands(s: State, step: Step, user: Id) {
    match step
    case ChangeAccess(u, _, _, _) =>
      u == user && u in s.access && exists k | k in s.sockets :: s.sockets[k].joined && s.sockets[k].principal.user == user
    case Revoke(session) =>
      exists k | k in s.sockets ::
        s.sockets[k].joined && s.sockets[k].principal.user == user && s.sockets[k].session == session
    case Join(k) => k in s.sockets && s.sockets[k].principal.user == user && !Alive(s, k)
    case _ => false
  }

  lemma Stranded(s: State, step: Step, user: Id) returns (k: SocketId)
    requires Honest(s) && Clean(s, user) && Strands(s, step, user)
    ensures var t := Next(s, step);
            k in t.sockets && t.sockets[k].joined && t.sockets[k].principal.user == user && !Alive(t, k)
  {
    match step
    case ChangeAccess(_, _, _, _) => k :| k in s.sockets && s.sockets[k].joined && s.sockets[k].principal.user == user;
    case Revoke(session) =>
      k :| k in s.sockets && s.sockets[k].joined && s.sockets[k].principal.user == user && s.sockets[k].session == session;
    case Join(socket) => k := socket;
  }

  /**
   A scan leaves the user clean, and a clean user stays so through any step exactly unless it kills the
   session of one of their joined sockets or joins a socket whose session died since its handshake.
   */
  lemma CleanExactly(s: State, step: Step, user: Id)
    requires Honest(s)
    ensures Clean(Next(s, Scan(user)), user)
    ensures Clean(s, user) ==>
              (Clean(Next(s, step), user) <==> !Strands(s, step, user))
  {
    var t := Next(s, step);
    if Clean(s, user) && Strands(s, step, user) {
      var k := Stranded(s, step, user);
      assert !Alive(t, k);
    }
  }

  /**
   One scan is therefore not enough: a socket whose handshake came before the change and whose join comes
   after the scan hears a thread its user may no longer read.
   */
  lemma ScanMissesPendingSocket(tenant: Id, user: Id)
    ensures var (p, a) := (Principal(tenant, user, {}, true, false), Audience(tenant, None, Some("x")));
            var start := State(a, map[user := p], map[], {}, map[]);
            var pending := Next(Next(Next(start, SignIn(1, user)), Handshake(1, 1)), ChangeAccess(user, {}, false, false));
            var s := Next(Next(pending, Scan(user)), Join(1));
            Honest(start) && 1 in s.sockets && user in s.access && Delivered(s, 1) && !MayRead(s, 1)
  {
    var (p, a) := (Principal(tenant, user, {}, true, false), Audience(tenant, None, Some("x")));
    var start := State(a, map[user := p], map[], {}, map[]);
    var shaken := Next(Next(start, SignIn(1, user)), Handshake(1, 1));
    assert shaken == State(a, map[user := p], map[1 := user], {1}, map[1 := Socket(p, 1, false)]);
    var pending := Next(shaken, ChangeAccess(user, {}, false, false));
    assert pending.live == map[] && pending.sockets == map[1 := Socket(p, 1, false)];
    assert Next(pending, Scan(user)).sockets == pending.sockets;
    ReadersHear(a, p);
  }

  lemma ReadersHear(a: Audience, p: Principal)
    requires p.readAll && p.tenant == a.tenant
    ensures Reaches(Names(AudienceRooms(a)), p)
  {
    InAudience(a, ReadersRoom(a.tenant));
    ReachesByRoom(AudienceRooms(a), p);
  }
}
