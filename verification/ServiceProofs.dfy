/** Every transaction of the room service keeps the three tables in agreement. */
module ServiceProofs {
  import opened Common
  import opened Ordering
  import opened GameState
  import opened Checkpoint
  import opened Tick
  import opened RoomModel
  import opened SessionModel
  import opened ServiceModel

  // ---------------------------------------------------------------- seats unchanged

  /** Sessions and members keep agreeing when no membership and no seat changes. */
  ghost predicate SameSeats(before: map<u32, RoomState>, after: map<u32, RoomState>) {
    && before.Keys == after.Keys
    && forall k :: k in before ==> after[k].members == before[k].members
  }

  lemma SeatsKept(s: Service, rooms: map<u32, RoomState>)
    requires ServiceConsistent(s) && RoomsConsistent(rooms) && SameSeats(s.rooms, rooms)
    ensures ServiceConsistent(Service(rooms, s.table))
  {
    hide Consistent, TableConsistent, IdentitiesUnique;
    forall t | t in s.table.sessions ensures Seated(rooms, s.table.sessions[t]) {
      assert Seated(s.rooms, s.table.sessions[t]);
    }
    forall j, p | j in rooms && p in rooms[j].members ensures HasSession(s.table.sessions, j, p) {
      assert j in s.rooms && p in s.rooms[j].members;
    }
  }

  lemma SubmitFacts(r: RoomState, c: Command)
    requires Consistent(r)
    ensures Consistent(AfterSubmit(r, c)) && AfterSubmit(r, c).id == r.id && AfterSubmit(r, c).members == r.members
  {
    SubmitKeepsConsistent(r, c);
  }

  lemma TickFacts(r: RoomState)
    requires Consistent(r)
    ensures Consistent(AfterTick(r)) && AfterTick(r).id == r.id && AfterTick(r).members == r.members
  {
    StepKeepsConsistent(r, TickOnce);
  }

  lemma OrderKeeps(s: Service, conn: Conn, o: Order)
    requires ServiceConsistent(s)
    ensures ServiceConsistent(AfterHandleOrder(s, conn, o))
  {
    hide Consistent, TableConsistent, AfterSubmit;
    if Known(s, conn) {
      var e := SessionOf(s, conn);
      SubmitFacts(s.rooms[e.roomId], CommandOf(e.playerId, o));
      SeatsKept(s, AfterHandleOrder(s, conn, o).rooms);
    }
  }

  lemma TickKeeps(s: Service, n: u64)
    requires ServiceConsistent(s)
    ensures ServiceConsistent(AfterHandleTick(s, n))
  {
    hide Consistent, TableConsistent, AfterTick;
    forall k | k in s.rooms
      ensures Consistent(AfterTick(s.rooms[k])) && AfterTick(s.rooms[k]).id == k
          && AfterTick(s.rooms[k]).members == s.rooms[k].members
    {
      TickFacts(s.rooms[k]);
    }
    SeatsKept(s, AfterHandleTick(s, n).rooms);
  }

  lemma NewRoomFacts(k: u32, capacity: u64)
    ensures Consistent(NewRoom(k, capacity)) && NewRoom(k, capacity).id == k && NewRoom(k, capacity).members == map[]
  {
  }

  lemma SetRoomConsistent(rooms: map<u32, RoomState>, k: u32, r: RoomState)
    requires RoomsConsistent(rooms) && Consistent(r) && r.id == k
    ensures RoomsConsistent(rooms[k := r])
  {
    hide Consistent;
  }

  lemma AddRoomKeeps(s: Service, k: u32, capacity: u64)
    requires ServiceConsistent(s)
    ensures ServiceConsistent(AfterAddRoom(s, k, capacity))
  {
    NewRoomFacts(k, capacity);
    hide Consistent, TableConsistent, IdentitiesUnique, NewRoom;
    var after := AfterAddRoom(s, k, capacity);
    SetRoomConsistent(s.rooms, k, NewRoom(k, capacity));
    hide RoomsConsistent;
    forall t | t in s.table.sessions ensures Seated(after.rooms, s.table.sessions[t]) {
      assert Seated(s.rooms, s.table.sessions[t]);
    }
    forall j, p | j in after.rooms && p in after.rooms[j].members ensures HasSession(s.table.sessions, j, p) {
      assert j in s.rooms && p in s.rooms[j].members;
    }
  }

  // ---------------------------------------------------------------- one seat changes

  /** Two sessions never share a seat, so a seat can change without disturbing any other session. */
  lemma OtherSeatsKept(s: Service, token: Bytes, r: RoomState, t: Bytes)
    requires ServiceConsistent(s) && token in s.table.sessions
    requires var e := s.table.sessions[token];
             forall p :: p != e.playerId ==>
               (p in r.members <==> p in s.rooms[e.roomId].members)
               && (p in r.members ==> r.members[p] == s.rooms[e.roomId].members[p])
    requires t in s.table.sessions && t != token
    ensures Seated(s.rooms[s.table.sessions[token].roomId := r], s.table.sessions[t])
  {
    hide Consistent, TableConsistent;
    assert Seated(s.rooms, s.table.sessions[t]);
  }

  /** The sessions with one of them moved to another connection, or to none. */
  function Moved(
      sessions: map<Bytes, SessionState>, token: Bytes, conn: Option<Conn>, deadline: int): map<Bytes, SessionState>
    requires token in sessions
  {
    sessions[token := sessions[token].(conn := conn, deadline := deadline)]
  }

  ghost function Reseated(s: Service, token: Bytes, conn: Option<Conn>): map<u32, RoomState>
    requires token in s.table.sessions && Seated(s.rooms, s.table.sessions[token])
  {
    var e := s.table.sessions[token];
    s.rooms[e.roomId := SetConn(s.rooms[e.roomId], e.playerId, conn)]
  }

  lemma ReseatedSeats(s: Service, token: Bytes, conn: Option<Conn>, deadline: int)
    requires ServiceConsistent(s) && token in s.table.sessions && Seated(s.rooms, s.table.sessions[token])
    ensures SessionsSeated(Reseated(s, token, conn), Moved(s.table.sessions, token, conn, deadline))
  {
    hide Consistent, TableConsistent;
    var rooms, sessions := Reseated(s, token, conn), Moved(s.table.sessions, token, conn, deadline);
    var e := s.table.sessions[token];
    forall t | t in sessions ensures Seated(rooms, sessions[t]) {
      if t != token { OtherSeatsKept(s, token, rooms[e.roomId], t); }
    }
  }

  lemma ReseatedMembers(s: Service, token: Bytes, conn: Option<Conn>, deadline: int)
    requires ServiceConsistent(s) && token in s.table.sessions && Seated(s.rooms, s.table.sessions[token])
    ensures EveryMemberHasSession(Reseated(s, token, conn), Moved(s.table.sessions, token, conn, deadline))
    ensures IdentitiesUnique(Moved(s.table.sessions, token, conn, deadline))
  {
    hide Consistent, TableConsistent;
    var rooms, sessions := Reseated(s, token, conn), Moved(s.table.sessions, token, conn, deadline);
    forall j, p | j in rooms && p in rooms[j].members ensures HasSession(sessions, j, p) {
      assert HasSession(s.table.sessions, j, p);
      var t :| t in s.table.sessions && s.table.sessions[t].roomId == j && s.table.sessions[t].playerId == p;
      assert t in sessions && sessions[t].roomId == j && sessions[t].playerId == p;
    }
  }

  /** A session gains or loses its connection together with its member. */
  lemma ReseatKeeps(s: Service, token: Bytes, conn: Option<Conn>, deadline: int, table: SessionTable)
    requires ServiceConsistent(s) && TableConsistent(table) && token in s.table.sessions
    requires table.sessions == Moved(s.table.sessions, token, conn, deadline)
    ensures Seated(s.rooms, s.table.sessions[token])
    ensures ServiceConsistent(Service(Reseated(s, token, conn), table))
  {
    var e := s.table.sessions[token];
    assert Seated(s.rooms, e);
    SetConnConsistent(s.rooms[e.roomId], e.playerId, conn);
    ReseatedSeats(s, token, conn, deadline);
    ReseatedMembers(s, token, conn, deadline);
    hide Consistent, TableConsistent, SessionsSeated, EveryMemberHasSession, IdentitiesUnique, Moved;
    SetRoomConsistent(s.rooms, e.roomId, SetConn(s.rooms[e.roomId], e.playerId, conn));
  }

  lemma SetConnConsistent(r: RoomState, id: u64, conn: Option<Conn>)
    requires Consistent(r) && id in r.members
    ensures Consistent(SetConn(r, id, conn))
  {
  }

  /** After a resume of the session, giving the connection to the member cannot fail. */
  lemma ResumedCanBind(s: Service, conn: Conn, token: Bytes, now: int)
    requires ServiceConsistent(s) && ResumeOutcome(s.table, conn, token, now) == SessionStatus.Success
    ensures Seated(s.rooms, s.table.sessions[token])
    ensures var e := s.table.sessions[token]; BindOutcome(s.rooms[e.roomId], e.playerId) == Bound
  {
    hide Consistent, TableConsistent, EveryMemberHasSession, IdentitiesUnique;
  }

  lemma ResumeReseats(s: Service, conn: Conn, token: Bytes, now: int)
    requires token in s.table.sessions && Seated(s.rooms, s.table.sessions[token]) && s.table.sessions[token].conn.None?
    requires ResumeAccepted(s, conn, token, now)
    ensures AfterHandleResume(s, conn, token, now)
        == Service(Reseated(s, token, Some(conn)), AfterResume(s.table, conn, token, now))
    ensures AfterResume(s.table, conn, token, now).sessions
        == Moved(s.table.sessions, token, Some(conn), s.table.sessions[token].deadline)
  {
  }

  lemma ResumeKeeps(s: Service, conn: Conn, token: Bytes, now: int)
    requires ServiceConsistent(s)
    ensures ServiceConsistent(AfterHandleResume(s, conn, token, now))
  {
    hide RoomsConsistent, TableConsistent, SessionsSeated, EveryMemberHasSession, IdentitiesUnique, Seated;
    if ResumeAccepted(s, conn, token, now) {
      ResumedCanBind(s, conn, token, now);
      TableOpsConsistent(s.table, conn, token, now);
      ResumeReseats(s, conn, token, now);
      hide ServiceConsistent, AfterHandleResume, AfterResume, Moved, Reseated;
      ReseatKeeps(s, token, Some(conn), s.table.sessions[token].deadline, AfterResume(s.table, conn, token, now));
    }
  }

  /** After a successful lookup, taking the connection off the member cannot fail. */
  lemma KnownCanDetach(s: Service, conn: Conn)
    requires ServiceConsistent(s) && Known(s, conn)
    ensures DetachOutcome(s.rooms[SessionOf(s, conn).roomId], SessionOf(s, conn).playerId, conn) == Bound
  {
    hide Consistent;
  }

  lemma ClosedReseats(s: Service, conn: Conn, deadline: int)
    requires Known(s, conn) && SessionOf(s, conn).conn == Some(conn)
    ensures AfterHandleClosed(s, conn, deadline)
         == Service(Reseated(s, s.table.bindings[conn], None), AfterGoOffline(s.table, conn, deadline))
    ensures AfterGoOffline(s.table, conn, deadline).sessions == Moved(s.table.sessions, s.table.bindings[conn], None, deadline)
  {
  }

  lemma ClosedKeeps(s: Service, conn: Conn, deadline: int)
    requires ServiceConsistent(s)
    ensures ServiceConsistent(AfterHandleClosed(s, conn, deadline))
  {
    hide RoomsConsistent, SessionsSeated, EveryMemberHasSession, IdentitiesUnique, Seated;
    if Known(s, conn) {
      TableOpsConsistent(s.table, conn, [], deadline);
      ClosedReseats(s, conn, deadline);
      hide ServiceConsistent, TableConsistent, AfterHandleClosed, AfterGoOffline, Moved, Reseated;
      ReseatKeeps(s, s.table.bindings[conn], None, deadline, AfterGoOffline(s.table, conn, deadline));
    }
  }

  // ---------------------------------------------------------------- members removed

  lemma WithoutConsistent(r: RoomState, ids: set<u64>)
    requires Consistent(r)
    ensures Consistent(Without(r, ids)) && Without(r, ids).id == r.id
  {
    RemoveKeepsConsistent(r, ids);
  }

  lemma RemovedSeats(s: Service, tokens: set<Bytes>)
    requires ServiceConsistent(s)
    ensures SessionsSeated(Removed(s, tokens).rooms, s.table.sessions - tokens)
    ensures EveryMemberHasSession(Removed(s, tokens).rooms, s.table.sessions - tokens)
  {
    hide Consistent, TableConsistent;
    var sessions, left := s.table.sessions, s.table.sessions - tokens;
    var rooms := Removed(s, tokens).rooms;
    forall t | t in left ensures Seated(rooms, left[t]) {
      assert Seated(s.rooms, sessions[t]);
      assert sessions[t].playerId !in Gone(sessions, tokens, sessions[t].roomId);
    }
    forall k, p | k in rooms && p in rooms[k].members ensures HasSession(left, k, p) {
      assert HasSession(sessions, k, p);
      var t :| t in sessions && sessions[t].roomId == k && sessions[t].playerId == p;
      assert t !in tokens && t in left && left[t] == sessions[t];
    }
  }

  /** Removing sessions together with their members keeps the rest in agreement. */
  lemma RemovedKeeps(s: Service, tokens: set<Bytes>, table: SessionTable)
    requires ServiceConsistent(s) && TableConsistent(table) && table.sessions == s.table.sessions - tokens
    ensures ServiceConsistent(Service(Removed(s, tokens).rooms, table))
  {
    RemovedSeats(s, tokens);
    RemovedRooms(s, tokens);
    hide Consistent, TableConsistent, RoomsConsistent, SessionsSeated, EveryMemberHasSession, Removed;
    assert IdentitiesUnique(table.sessions);
  }

  lemma RemovedRooms(s: Service, tokens: set<Bytes>)
    requires RoomsConsistent(s.rooms)
    ensures RoomsConsistent(Removed(s, tokens).rooms)
  {
    hide Consistent, Without, Gone;
    forall k | k in s.rooms
      ensures Consistent(Removed(s, tokens).rooms[k]) && Removed(s, tokens).rooms[k].id == k
    {
      WithoutConsistent(s.rooms[k], Gone(s.table.sessions, tokens, k));
    }
  }

  /** A leave removes exactly one session and its member. */
  lemma LeaveIsRemoval(s: Service, conn: Conn)
    requires ServiceConsistent(s) && Known(s, conn)
    ensures AfterHandleLeave(s, conn).rooms == Removed(s, {s.table.bindings[conn]}).rooms
    ensures AfterHandleLeave(s, conn).table.sessions == s.table.sessions - {s.table.bindings[conn]}
  {
    hide Consistent, TableConsistent;
    var e := SessionOf(s, conn);
    var tokens := {s.table.bindings[conn]};
    forall k | k in s.rooms ensures AfterHandleLeave(s, conn).rooms[k] == Removed(s, tokens).rooms[k] {
      assert Gone(s.table.sessions, tokens, k) == if k == e.roomId then {e.playerId} else {};
      if k != e.roomId {
        assert s.rooms[k].members - {} == s.rooms[k].members && s.rooms[k].players - {} == s.rooms[k].players;
      }
    }
  }

  lemma LeaveKeeps(s: Service, conn: Conn)
    requires ServiceConsistent(s)
    ensures ServiceConsistent(AfterHandleLeave(s, conn))
  {
    if Known(s, conn) {
      LeaveIsRemoval(s, conn);
      TableOpsConsistent(s.table, conn, [], 0);
      RemovedKeeps(s, {s.table.bindings[conn]}, AfterHandleLeave(s, conn).table);
    }
  }

  lemma SweepKeeps(s: Service, now: int)
    requires ServiceConsistent(s)
    ensures ServiceConsistent(AfterSweep(s, now))
  {
    var table := AfterSweep(s, now).table;
    assert TableConsistent(table);
    RemovedKeeps(s, ExpiredTokens(s.table, now), table);
  }

  // ---------------------------------------------------------------- joining

  lemma RolledBackConsistent(r: RoomState)
    requires Consistent(r) && r.nextId != 0
    ensures Consistent(r.(nextId := Next64(r.nextId)))
  {
  }

  /** A fresh player on a fresh seat, and nothing else about membership. */
  lemma SeatFacts(r: RoomState, conn: Conn, name: Bytes)
    requires Consistent(r) && JoinOutcome(r, name) == Joined
    ensures Consistent(SeatAndStart(r, conn, name)) && SeatAndStart(r, conn, name).id == r.id
    ensures r.nextId !in r.members
    ensures SeatAndStart(r, conn, name).members == r.members[r.nextId := Member(r.nextId, name, Some(conn))]
  {
    JoinKeepsConsistent(r, conn, name);
    StepKeepsConsistent(AfterJoin(r, conn, name), Start(true));
  }

  lemma NewSeat(
      rooms: map<u32, RoomState>, sessions: map<Bytes, SessionState>, k: u32, r: RoomState, p: u64, m: Member,
      token: Bytes, e: SessionState)
    requires SessionsSeated(rooms, sessions) && EveryMemberHasSession(rooms, sessions) && IdentitiesUnique(sessions)
    requires k in rooms && p !in rooms[k].members && r.members == rooms[k].members[p := m]
    requires token !in sessions && e.roomId == k && e.playerId == p && e.conn == m.conn
    ensures SessionsSeated(rooms[k := r], sessions[token := e])
    ensures EveryMemberHasSession(rooms[k := r], sessions[token := e])
    ensures IdentitiesUnique(sessions[token := e])
  {
    var rooms', sessions' := rooms[k := r], sessions[token := e];
    forall t | t in sessions' ensures Seated(rooms', sessions'[t]) {
      if t != token { assert Seated(rooms, sessions[t]); }
    }
    forall t | t in sessions ensures !(sessions[t].roomId == k && sessions[t].playerId == p) {
      assert Seated(rooms, sessions[t]);
    }
    forall j, q | j in rooms' && q in rooms'[j].members ensures HasSession(sessions', j, q) {
      if j == k && q == p {
        assert token in sessions' && sessions'[token].roomId == j && sessions'[token].playerId == q;
      } else {
        assert HasSession(sessions, j, q);
        var t :| t in sessions && sessions[t].roomId == j && sessions[t].playerId == q;
        assert t in sessions' && sessions'[t].roomId == j && sessions'[t].playerId == q;
      }
    }
  }

  lemma JoinRolledBackKeeps(s: Service, conn: Conn, k: u32, name: Bytes, token: Option<Bytes>)
    requires ServiceConsistent(s) && JoinResult(s, conn, k, name, token) == RolledBack
    ensures ServiceConsistent(AfterHandleJoin(s, conn, k, name, token))
  {
    hide Consistent, TableConsistent, SeatAndStart, SessionsSeated, EveryMemberHasSession, IdentitiesUnique;
    var r := s.rooms[k].(nextId := Next64(s.rooms[k].nextId));
    RolledBackConsistent(s.rooms[k]);
    SetRoomConsistent(s.rooms, k, r);
    hide RoomsConsistent;
    SeatsKept(s, s.rooms[k := r]);
  }

  lemma JoinAcceptedKeeps(s: Service, conn: Conn, k: u32, name: Bytes, token: Bytes)
    requires ServiceConsistent(s) && ValidToken(token) && JoinResult(s, conn, k, name, Some(token)) == Accepted
    ensures ServiceConsistent(AfterHandleJoin(s, conn, k, name, Some(token)))
  {
    var r := s.rooms[k];
    SeatFacts(r, conn, name);
    CreateConsistent(s.table, conn, k, r.nextId, token);
    NewSeat(s.rooms, s.table.sessions, k, SeatAndStart(r, conn, name), r.nextId, Member(r.nextId, name, Some(conn)),
            token, SessionState(k, r.nextId, Some(conn), 0));
    SetRoomConsistent(s.rooms, k, SeatAndStart(r, conn, name));
    hide Consistent, TableConsistent, SeatAndStart, RoomsConsistent, SessionsSeated, EveryMemberHasSession;
    hide IdentitiesUnique;
  }

  lemma JoinKeeps(s: Service, conn: Conn, k: u32, name: Bytes, token: Option<Bytes>)
    requires ServiceConsistent(s) && (token.Some? ==> ValidToken(token.value))
    ensures ServiceConsistent(AfterHandleJoin(s, conn, k, name, token))
  {
    hide ServiceConsistent;
    match JoinResult(s, conn, k, name, token)
    case Refused =>
    case RolledBack => JoinRolledBackKeeps(s, conn, k, name, token);
    case Accepted => JoinAcceptedKeeps(s, conn, k, name, token.value);
  }

  // ---------------------------------------------------------------- restoring

  lemma RestoredRoomsConsistent(rooms: seq<RoomRecord>)
    requires RoomsAcceptable(rooms)
    ensures RoomsConsistent(RestoredRooms(rooms))
  {
    hide Consistent, Acceptable, RestoredRoom;
    TableEntries(rooms, RoomKey);
    var records := Table(rooms, RoomKey);
    forall k | k in records ensures Consistent(RestoredRoom(records[k])) && RestoredRoom(records[k]).id == k {
      RestoredFacts(records[k]);
    }
  }

  lemma RestoredFacts(c: RoomRecord)
    requires Acceptable(c)
    ensures Consistent(RestoredRoom(c)) && RestoredRoom(c).id == c.roomId
  {
    RestoredIsConsistent(c);
  }

  /** A member is in the restored rooms exactly when the checkpoint lists it, and nobody is connected. */
  lemma RestoredMembers(rooms: seq<RoomRecord>, k: u32, p: u64)
    requires ValidRoomKeys(rooms)
    ensures MemberListed(rooms, k, p) <==> k in RestoredRooms(rooms) && p in RestoredRooms(rooms)[k].members
    ensures MemberListed(rooms, k, p) ==> RestoredRooms(rooms)[k].members[p].conn == None
  {
    var records := Table(rooms, RoomKey);
    TableEntries(rooms, RoomKey);
    if MemberListed(rooms, k, p) {
      var i :| 0 <= i < |rooms| && rooms[i].roomId == k && HasMember(rooms[i], p);
      TableFinds(rooms, RoomKey, i);
      assert records[k] == rooms[i];
      ListedInTable(rooms[i], p);
    }
    if k in records && p in RestoredRoom(records[k]).members {
      ListedInTable(records[k], p);
      var i :| 0 <= i < |rooms| && rooms[i] == records[k];
      assert rooms[i].roomId == k && HasMember(rooms[i], p);
    }
  }

  lemma ListedInTable(c: RoomRecord, p: u64)
    ensures HasMember(c, p) <==> p in RestoredRoom(c).members
    ensures HasMember(c, p) ==> RestoredRoom(c).members[p].conn == None
  {
    TableKeys(c.members, RecordId);
    if HasMember(c, p) {
      var i :| 0 <= i < |c.members| && c.members[i].playerId == p;
      assert RecordId(c.members[i]) == p;
    }
  }

  lemma RestoredSessions(rows: seq<SessionRecord>, deadline: int)
    requires ValidSessionKeys(rows)
    ensures IdentitiesUnique(RestoredTable(rows, deadline).sessions)
    ensures forall k, p :: SessionListed(rows, k, p) <==> HasSession(RestoredTable(rows, deadline).sessions, k, p)
  {
    var tickets, sessions := Table(rows, RecordToken), RestoredTable(rows, deadline).sessions;
    TableEntries(rows, RecordToken);
    forall k: u32, p: u64 ensures SessionListed(rows, k, p) <==> HasSession(sessions, k, p) {
      if SessionListed(rows, k, p) {
        var i :| 0 <= i < |rows| && rows[i].roomId == k && rows[i].playerId == p;
        TableFinds(rows, RecordToken, i);
        assert rows[i].token in sessions;
      }
      if HasSession(sessions, k, p) {
        var t :| t in sessions && sessions[t].roomId == k && sessions[t].playerId == p;
        assert tickets[t] in rows;
      }
    }
    forall t, u | t in sessions && u in sessions && sessions[t].roomId == sessions[u].roomId
        && sessions[t].playerId == sessions[u].playerId
      ensures t == u
    {
      assert tickets[t] in rows && tickets[u] in rows && SameIdentity(tickets[t], tickets[u]);
    }
  }

  lemma RestoreKeeps(s: Service, c: ServerRecord, deadline: int)
    requires ServiceConsistent(s) && ValidSessionKeys(c.sessions)
    ensures ServiceConsistent(RestoreOutcome(s, c, deadline).1)
  {
    hide Consistent, RestoredRooms, RestoredTable, HasSession;
    if RestoreOutcome(s, c, deadline).0 {
      var rooms, table := RestoredRooms(c.rooms), RestoredTable(c.sessions, deadline);
      RestoredRoomsConsistent(c.rooms);
      RestoredTableConsistent(c.sessions, deadline);
      RestoredSessions(c.sessions, deadline);
      forall j, p | j in rooms && p in rooms[j].members ensures HasSession(table.sessions, j, p) {
        RestoredMembers(c.rooms, j, p);
        assert SessionListed(c.sessions, j, p);
      }
      forall t | t in table.sessions ensures Seated(rooms, table.sessions[t]) {
        RestoredSeat(c, deadline, t);
      }
    }
  }

  lemma RestoredSeat(c: ServerRecord, deadline: int, t: Bytes)
    requires ValidSessionKeys(c.sessions) && ValidRoomKeys(c.rooms) && IdentitiesMatch(c.rooms, c.sessions)
    requires t in RestoredTable(c.sessions, deadline).sessions
    ensures Seated(RestoredRooms(c.rooms), RestoredTable(c.sessions, deadline).sessions[t])
  {
    var e := RestoredTable(c.sessions, deadline).sessions[t];
    RestoredSessions(c.sessions, deadline);
    assert HasSession(RestoredTable(c.sessions, deadline).sessions, e.roomId, e.playerId);
    assert MemberListed(c.rooms, e.roomId, e.playerId);
    RestoredMembers(c.rooms, e.roomId, e.playerId);
  }

  // ---------------------------------------------------------------- every run

  lemma EventKeeps(s: Service, e: Event)
    requires ServiceConsistent(s)
    requires e.JoinFrame? && e.token.Some? ==> ValidToken(e.token.value)
    requires e.Loaded? ==> ValidKeys(e.checkpoint)
    ensures ServiceConsistent(ServiceAfter(s, e))
  {
    hide ServiceConsistent;
    match e
    case RoomAdded(k, capacity) => AddRoomKeeps(s, k, capacity);
    case Opened(c) =>
    case JoinFrame(c, k, name, token) => JoinKeeps(s, c, k, name, token);
    case ResumeFrame(c, token, now) => ResumeKeeps(s, c, token, now);
    case LeaveFrame(c) => LeaveKeeps(s, c);
    case OrderFrame(c, o) => OrderKeeps(s, c, o);
    case TickDue(n) => TickKeeps(s, n);
    case ClosedNotice(c, deadline) => ClosedKeeps(s, c, deadline);
    case SweepDue(now) => SweepKeeps(s, now);
    case Loaded(c, deadline) => RestoreKeeps(s, c, deadline);
  }

  lemma BoundIsKnown(s: Service, conn: Conn)
    requires ServiceConsistent(s)
    ensures conn in s.table.bindings <==> Known(s, conn)
  {
    hide Consistent;
    if conn in s.table.bindings {
      assert Seated(s.rooms, SessionOf(s, conn));
    }
  }

  /** The connection an event can bind. */
  function Binder(e: Event): set<Conn> {
    match e
    case JoinFrame(c, _, _, _) => {c}
    case ResumeFrame(c, _, _) => {c}
    case _ => {}
  }

  lemma BindingsGrow(s: Service, e: Event)
    ensures ServiceAfter(s, e).table.bindings.Keys <= s.table.bindings.Keys + Binder(e)
  {
    hide Known, SeatAndStart, RestoredRooms, JoinResult, ResumeAccepted, IdentitiesMatch, RoomsAcceptable, AfterTick;
    hide AfterSubmit;
    hide AfterLeave, Without, ExpiredTokens, ValidSessionKeys, Seated, AfterDetach, AfterBind, Gone;
  }

  lemma ClosedUnbinds(s: Service, conn: Conn, deadline: int)
    requires ServiceConsistent(s)
    ensures AfterHandleClosed(s, conn, deadline).table.bindings.Keys <= s.table.bindings.Keys - {conn}
  {
    BoundIsKnown(s, conn);
    hide ServiceConsistent, Seated, AfterDetach;
    if Known(s, conn) {
      UnboundKeys(s.table, conn, deadline);
    }
    hide Known, AfterGoOffline;
  }

  lemma UnboundKeys(table: SessionTable, conn: Conn, deadline: int)
    requires conn in table.bindings && table.bindings[conn] in table.sessions
    ensures AfterGoOffline(table, conn, deadline).bindings.Keys == table.bindings.Keys - {conn}
  {
  }

  /** Only an open connection is ever bound, and a close notice unbinds it. */
  lemma BindingsStayOpen(w: World, e: Event)
    requires Sound(w) && Possible(w, e)
    ensures After(w, e).service.table.bindings.Keys <= After(w, e).open
  {
    hide ServiceConsistent, AfterHandleClosed, AfterHandleJoin, AfterHandleResume, AfterHandleLeave, AfterHandleOrder;
    hide AfterHandleTick, AfterSweep, RestoreOutcome, AfterAddRoom, ValidKeys, ValidToken;
    BindingsGrow(w.service, e);
    if e.ClosedNotice? {
      ClosedUnbinds(w.service, e.conn, e.deadline);
    }
  }

  lemma AfterKeepsSound(w: World, e: Event)
    requires Sound(w)
    ensures Sound(After(w, e))
  {
    if Possible(w, e) {
      EventKeeps(w.service, e);
      BindingsStayOpen(w, e);
    }
  }

  /** The three tables agree in every state the server can reach. */
  lemma {:induction false} RunKeepsSound(w: World, events: seq<Event>)
    requires Sound(w)
    ensures Sound(Run(w, events))
  {
    if events != [] {
      RunKeepsSound(w, events[..|events| - 1]);
      AfterKeepsSound(Run(w, events[..|events| - 1]), events[|events| - 1]);
    }
  }

  lemma FreshIsSound()
    ensures Sound(FRESH)
  {
  }
}
