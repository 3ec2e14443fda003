/**
 The room service object: handlers that work step by step on the room manager and the session
 manager, undoing what they did when a later step fails. Each is proved to be the transaction
 that `ServiceModel` describes.
 */
module RoomServices {
  import opened Common
  import opened Ordering
  import opened GameState
  import opened Checkpoint
  import opened Tick
  import opened RoomModel
  import opened Rooms
  import opened RoomManagers
  import opened SessionModel
  import opened SessionManagers
  import opened ServiceModel
  import opened ServiceProofs
  import opened ServiceCheckpoint
  import opened ServiceGuarantees

  class RoomService {
    const rooms: RoomManager
    const sessions: SessionManager

    /** Everything a handler may touch. */
    ghost function Objects(): set<object>
      reads rooms, sessions
    {
      {rooms, sessions} + rooms.rooms.Values + Games(rooms.rooms) + sessions.sessions.Values
    }

    ghost function State(): Service
      reads rooms, sessions, Objects()
    {
      Service(rooms.View(), sessions.View())
    }

    /** Each manager is in order by itself. */
    ghost predicate Parts()
      reads rooms, sessions, Objects()
    {
      rooms.Valid() && sessions.Valid()
    }

    /** And the two agree with each other. */
    ghost predicate Valid()
      reads rooms, sessions, Objects()
    {
      Parts() && ServiceConsistent(State())
    }

    constructor (reconnectTimeout: int)
      ensures Valid() && State() == FRESH.service && sessions.reconnectTimeout == reconnectTimeout
      ensures fresh(Objects())
    {
      rooms := new RoomManager();
      sessions := new SessionManager(reconnectTimeout);
      new;
      FreshIsSound();
      hide ServiceConsistent, Apart, Separate, TableConsistent, RoomStates, StatesOf;
      assert State() == FRESH.service;
      assert Parts();
      hide State, Parts;
    }

    // -------------------------------------------------------------- one manager moves, the other stays

    method JoinRoom(
        conn: Conn, roomId: u32, name: Bytes)
      returns (status: RoomStatus, id: u64, others: seq<MemberRecord>)
      requires Parts()
      modifies Objects()
      ensures Parts() && Objects() == old(Objects())
      ensures roomId !in old(State()).rooms ==> status == RoomNotFound && State() == old(State())
      ensures roomId in old(State()).rooms ==>
                var r := old(State()).rooms[roomId];
                && status == JoinAnswer(JoinOutcome(r, name))
                && State() == SetRoom(old(State()), roomId, AfterJoin(r, conn, name))
                && (status == Okay ==> id == r.nextId && ListsMembers(others, r.members))
    {
      hide Apart, Separate, TableConsistent, RoomStates, StatesOf, AfterJoin, JoinOutcome;
      status, id, others := rooms.Join(conn, roomId, name);
    }

    method LeaveRoom(roomId: u32, id: u64) returns (status: RoomStatus)
      requires Parts()
      modifies Objects()
      ensures Parts() && Objects() == old(Objects())
      ensures status == Okay <==> roomId in old(State()).rooms && id in old(State()).rooms[roomId].members
      ensures State() == if status == Okay
          then SetRoom(old(State()), roomId, AfterLeave(old(State()).rooms[roomId], id)) else old(State())
    {
      hide Apart, Separate, TableConsistent, RoomStates, StatesOf, AfterLeave;
      status := rooms.Leave(roomId, id);
    }

    method StartRoom(roomId: u32) returns (status: RoomStatus)
      requires Parts() && roomId in State().rooms
      modifies Objects()
      ensures Parts() && Objects() == old(Objects())
      ensures status == StartAnswer(old(State()).rooms[roomId])
      ensures State() == SetRoom(old(State()), roomId, AfterStartIfFull(old(State()).rooms[roomId]))
    {
      hide Apart, Separate, TableConsistent, RoomStates, StatesOf, AfterStartIfFull, StartAnswer;
      status := rooms.StartIfFull(roomId);
    }

    method CreateSession(conn: Conn, roomId: u32, id: u64, token: Option<Bytes>) returns (status: SessionStatus)
      requires Parts() && (token.Some? ==> ValidToken(token.value))
      modifies Objects()
      ensures Parts() && (forall o :: o in Objects() && o !in old(Objects()) ==> fresh(o))
      ensures status == CreateOutcome(old(State()).table, conn, token)
      ensures State() == old(State()).(table := AfterCreate(old(State()).table, conn, roomId, id, token))
    {
      hide Apart, Separate, TableConsistent, RoomStates, StatesOf, AfterCreate, CreateOutcome, ValidToken;
      status := sessions.Create(conn, roomId, id, token);
    }

    method EraseSession(conn: Conn) returns (status: SessionStatus)
      requires Parts()
      modifies Objects()
      ensures Parts() && Objects() <= old(Objects())
      ensures State() == old(State()).(table := AfterEraseByConnection(old(State()).table, conn))
    {
      hide Apart, Separate, TableConsistent, RoomStates, StatesOf, AfterEraseByConnection;
      status := sessions.EraseByConnection(conn);
    }

    method LookUp(conn: Conn) returns (found: Identity)
      requires Parts()
      ensures Parts() && State() == old(State()) && Objects() == old(Objects())
      ensures found.status == BoundOutcome(State().table, conn)
      ensures found.status == SessionStatus.Success ==>
                && State().table.bindings[conn] in State().table.sessions
                && found.roomId == SessionOf(State(), conn).roomId && found.playerId == SessionOf(State(), conn).playerId
    {
      hide Consistent, ValidToken;
      found := sessions.Lookup(conn);
    }

    method FindSession(conn: Conn) returns (found: Identity)
      requires Valid()
      ensures Valid() && State() == old(State()) && Objects() == old(Objects())
      ensures found.status == BoundOutcome(State().table, conn)
      ensures found.status == SessionStatus.Success ==> Known(State(), conn)
      ensures found.status == SessionStatus.Success ==>
                found.roomId == SessionOf(State(), conn).roomId && found.playerId == SessionOf(State(), conn).playerId
    {
      ghost var s := State();
      BoundIsKnown(s, conn);
      hide Apart, Separate, RoomStates, StatesOf, ServiceConsistent, TableConsistent, Seated;
      found := LookUp(conn);
      assert State() == s;
      hide State;
    }

    method ResumeSession(conn: Conn, token: Bytes, now: int) returns (found: Identity)
      requires Parts()
      modifies Objects()
      ensures Parts() && Objects() == old(Objects())
      ensures found.status == ResumeOutcome(old(State()).table, conn, token, now)
      ensures State() == old(State()).(table := AfterResume(old(State()).table, conn, token, now))
      ensures found.status == SessionStatus.Success ==>
                var e := old(State()).table.sessions[token]; found.roomId == e.roomId && found.playerId == e.playerId
    {
      hide Apart, Separate, TableConsistent, RoomStates, StatesOf;
      found := sessions.Resume(conn, token, now);
    }

    method RollbackSession(conn: Conn)
      requires Parts()
      modifies Objects()
      ensures Parts() && Objects() == old(Objects())
      ensures conn in old(State()).table.bindings ==> old(State()).table.bindings[conn] in old(State()).table.sessions
      ensures State() == old(State()).(table := AfterRollback(old(State()).table, conn))
    {
      hide Apart, Separate, RoomStates, StatesOf, AfterRollback;
      var rolledBack := sessions.RollbackResume(conn);
    }

    method DetachSession(conn: Conn, now: int)
      requires Parts()
      modifies Objects()
      ensures Parts() && Objects() == old(Objects())
      ensures conn in old(State()).table.bindings ==> old(State()).table.bindings[conn] in old(State()).table.sessions
      ensures State() == old(State()).(table := AfterGoOffline(old(State()).table, conn, Deadline(now)))
    {
      hide Apart, Separate, RoomStates, StatesOf, AfterGoOffline;
      var detached := sessions.Detach(conn, now);
    }

    method BindMember(roomId: u32, id: u64, conn: Conn) returns (status: BindStatus, seen: RoomView)
      requires Parts() && roomId in State().rooms
      modifies Objects()
      ensures Parts() && Objects() == old(Objects())
      ensures status == BindOutcome(old(State()).rooms[roomId], id)
      ensures State() == SetRoom(old(State()), roomId, AfterBind(old(State()).rooms[roomId], id, conn))
      ensures status == Bound ==> seen == ViewOf(State().rooms[roomId])
    {
      hide Apart, Separate, TableConsistent, RoomStates, StatesOf, AfterBind, BindOutcome, ViewOf;
      status, seen := rooms.BindConnection(roomId, id, conn);
    }

    method DetachMember(roomId: u32, id: u64, conn: Conn) returns (status: BindStatus)
      requires Parts() && roomId in State().rooms
      modifies Objects()
      ensures Parts() && Objects() == old(Objects())
      ensures status == DetachOutcome(old(State()).rooms[roomId], id, conn)
      ensures State() == SetRoom(old(State()), roomId, AfterDetach(old(State()).rooms[roomId], id, conn))
    {
      hide Apart, Separate, TableConsistent, RoomStates, StatesOf, AfterDetach, DetachOutcome;
      status := rooms.DetachConnection(roomId, id, conn);
    }

    method SubmitCommand(roomId: u32, c: Command) returns (status: RoomStatus)
      requires Parts() && roomId in State().rooms
      modifies Objects()
      ensures Parts() && Objects() == old(Objects())
      ensures status == SubmitAnswer(old(State()).rooms[roomId], c.player)
      ensures State() == SetRoom(old(State()), roomId, AfterSubmit(old(State()).rooms[roomId], c))
    {
      hide Apart, Separate, TableConsistent, RoomStates, StatesOf, AfterSubmit, SubmitAnswer;
      status := rooms.Submit(roomId, c);
    }

    method EraseExpiredSession(token: Bytes, now: int) returns (status: SessionStatus)
      requires Parts()
      modifies Objects()
      ensures Parts() && Objects() <= old(Objects())
      ensures status == EraseExpiredOutcome(old(State()).table, token, now)
      ensures State() == old(State()).(table := AfterEraseExpired(old(State()).table, token, now))
    {
      hide Apart, Separate, TableConsistent, RoomStates, StatesOf, AfterEraseExpired, EraseExpiredOutcome;
      status := sessions.EraseExpired(token, now);
    }

    // -------------------------------------------------------------- the handlers

    method AddRoom(roomId: u32, capacity: u64) returns (added: bool)
      requires Valid()
      modifies Objects()
      ensures State() == AfterAddRoom(old(State()), roomId, capacity)
      ensures Valid() && (added <==> roomId !in old(State()).rooms)
          && (forall o :: o in Objects() && o !in old(Objects()) ==> fresh(o))
    {
      AddRoomKeeps(State(), roomId, capacity);
      hide ServiceConsistent, AfterAddRoom, Parts, State, Objects;
      added := PlaceRoom(roomId, capacity);
    }

    method PlaceRoom(roomId: u32, capacity: u64) returns (added: bool)
      requires Parts()
      modifies Objects()
      ensures Parts() && (forall o :: o in Objects() && o !in old(Objects()) ==> fresh(o))
      ensures added <==> roomId !in old(State()).rooms
      ensures State() == AfterAddRoom(old(State()), roomId, capacity)
    {
      hide NewRoom, Apart, Separate, TableConsistent, RoomStates, StatesOf;
      added := rooms.AddRoom(roomId, capacity);
    }

    /** A join in three steps, each undone when a later one fails; only the player id stays used. */
    method HandleJoin(conn: Conn, roomId: u32, name: Bytes, token: Option<Bytes>) returns (verdict: JoinVerdict)
      requires Valid() && (token.Some? ==> ValidToken(token.value))
      modifies Objects()
      ensures State() == AfterHandleJoin(old(State()), conn, roomId, name, token)
      ensures Valid() && (forall o :: o in Objects() && o !in old(Objects()) ==> fresh(o))
      ensures verdict == JoinResult(old(State()), conn, roomId, name, token)
    {
      ghost var before := State();
      JoinKeeps(before, conn, roomId, name, token);
      JoinStepsAre(before, conn, roomId, name, token);
      hide ServiceConsistent, JoinSteps, AfterHandleJoin, JoinResult, Objects;
      verdict := Seat(conn, roomId, name, token);
    }

    method Seat(conn: Conn, roomId: u32, name: Bytes, token: Option<Bytes>) returns (verdict: JoinVerdict)
      requires Valid() && (token.Some? ==> ValidToken(token.value))
      modifies Objects()
      ensures Parts() && (forall o :: o in Objects() && o !in old(Objects()) ==> fresh(o))
      ensures (State(), verdict) == JoinSteps(old(State()), conn, roomId, name, token)
    {
      SeatedIsMember(State(), conn, roomId, name);
      hide ServiceConsistent, Parts, State, Objects, Known, IssuedJoin, AfterJoin, JoinOutcome, JoinAnswer, ValidToken;
      var found := FindSession(conn);
      if found.status == SessionStatus.Success {
        return Refused;
      }
      var joined, id, others := JoinRoom(conn, roomId, name);
      if joined != Okay {
        return Refused;
      }
      verdict := IssueSession(conn, roomId, id, |others|, token);
    }

    /** The room has taken the player in; now the session. */
    method IssueSession(
        conn: Conn, roomId: u32, id: u64, others: nat, token: Option<Bytes>)
      returns (verdict: JoinVerdict)
      requires Parts() && (token.Some? ==> ValidToken(token.value))
      requires roomId in State().rooms && id in State().rooms[roomId].members
      modifies Objects()
      ensures Parts() && (forall o :: o in Objects() && o !in old(Objects()) ==> fresh(o))
      ensures (State(), verdict) == IssuedJoin(old(State()), conn, roomId, id, others, token)
    {
      hide Parts, State, Objects, AfterCreate, CreateOutcome, ValidToken;
      var created := CreateSession(conn, roomId, id, token);
      if created != SessionStatus.Success {
        var left := LeaveRoom(roomId, id);
        return RolledBack;
      }
      verdict := AnnounceJoin(conn, roomId, id, others);
    }

    /** The reply must be possible to write, and a room that is now full must start. */
    method AnnounceJoin(conn: Conn, roomId: u32, id: u64, others: nat) returns (verdict: JoinVerdict)
      requires Parts() && roomId in State().rooms && id in State().rooms[roomId].members
      modifies Objects()
      ensures Parts() && Objects() <= old(Objects())
      ensures (State(), verdict) == AnnouncedJoin(old(State()), conn, roomId, id, others)
    {
      ghost var before := State();
      StartKeepsMembers(before.rooms[roomId]);
      hide Parts, State, Objects, AfterStartIfFull, StartAnswer, TakenBack;
      if others > MAX_LISTED {
        TakeBack(conn, roomId, id);
        return RolledBack;
      }
      var started := StartRoom(roomId);
      if started != Okay {
        TakeBack(conn, roomId, id);
        return RolledBack;
      }
      verdict := Accepted;
    }

    /** The rollback both late failures of a join share. */
    method TakeBack(conn: Conn, roomId: u32, id: u64)
      requires Parts() && roomId in State().rooms && id in State().rooms[roomId].members
      modifies Objects()
      ensures Parts() && Objects() <= old(Objects())
      ensures State() == TakenBack(old(State()), conn, roomId, id)
    {
      hide Parts, State, Objects, AfterLeave, AfterEraseByConnection;
      var left := LeaveRoom(roomId, id);
      if left == Okay {
        var erased := EraseSession(conn);
      }
    }

    /** Session first, then the room; a reply that cannot be written undoes both. */
    method HandleResume(conn: Conn, token: Bytes, now: int) returns (accepted: bool)
      requires Valid()
      modifies Objects()
      ensures State() == AfterHandleResume(old(State()), conn, token, now)
      ensures Valid() && Objects() == old(Objects())
      ensures accepted <==> ResumeAccepted(old(State()), conn, token, now)
    {
      ghost var before := State();
      ResumeKeeps(before, conn, token, now);
      ResumeStepsAre(before, conn, token, now);
      hide ServiceConsistent, ResumeSteps, AfterHandleResume, ResumeAccepted, Objects;
      accepted := Resume(conn, token, now);
    }

    method Resume(conn: Conn, token: Bytes, now: int) returns (accepted: bool)
      requires Valid()
      modifies Objects()
      ensures Parts() && Objects() == old(Objects())
      ensures (State(), accepted) == ResumeSteps(old(State()), conn, token, now)
    {
      ghost var before := State();
      if ResumeOutcome(before.table, conn, token, now) == SessionStatus.Success {
        ResumedCanBind(before, conn, token, now);
        BindFacts(before.rooms, before.table.sessions[token], conn);
      }
      hide ServiceConsistent, Parts, State, Objects, ResumeOutcome, AfterResume, Seated, AfterBind, BindOutcome;
      hide AfterDetach, AfterRollback, MemberRows;
      var found := ResumeSession(conn, token, now);
      if found.status != SessionStatus.Success {
        return false;
      }
      var bound, seen := BindMember(found.roomId, found.playerId, conn);
      if bound != Bound {
        assert false;
      }
      if |seen.members| > MAX_LISTED {
        var detached := DetachMember(found.roomId, found.playerId, conn);
        RollbackSession(conn);
        return false;
      }
      accepted := true;
    }

    method HandleLeave(conn: Conn) returns (done: bool)
      requires Valid()
      modifies Objects()
      ensures State() == AfterHandleLeave(old(State()), conn)
      ensures Valid() && Objects() <= old(Objects())
      ensures done <==> Known(old(State()), conn)
    {
      ghost var before := State();
      LeaveKeeps(before, conn);
      BoundIsKnown(before, conn);
      KnownFacts(before, conn);
      hide ServiceConsistent, Known, State, Objects, AfterLeave, AfterEraseByConnection;
      var found := FindSession(conn);
      if found.status != SessionStatus.Success {
        return false;
      }
      var left := LeaveRoom(found.roomId, found.playerId);
      if left != Okay {
        assert false;
      }
      var erased := EraseSession(conn);
      done := true;
    }

    /** `handle_move` and `handle_attack`. */
    method HandleOrder(conn: Conn, order: Order) returns (status: Option<RoomStatus>)
      requires Valid()
      modifies Objects()
      ensures State() == AfterHandleOrder(old(State()), conn, order)
      ensures Valid() && Objects() == old(Objects())
      ensures status.Some? <==> Known(old(State()), conn)
      ensures status.Some? ==>
                var e := SessionOf(old(State()), conn);
                status.value == SubmitAnswer(old(State()).rooms[e.roomId], e.playerId)
    {
      ghost var before := State();
      OrderKeeps(before, conn, order);
      BoundIsKnown(before, conn);
      KnownFacts(before, conn);
      hide ServiceConsistent, Known, State, Objects, AfterSubmit, SubmitAnswer;
      var found := FindSession(conn);
      if found.status != SessionStatus.Success {
        return None;
      }
      var submitted := SubmitCommand(found.roomId, CommandOf(found.playerId, order));
      status := Some(submitted);
    }

    method HandleTick(expirations: u64) returns (results: seq<RoomTick>)
      requires Valid()
      modifies Objects()
      ensures State() == AfterHandleTick(old(State()), expirations)
      ensures Valid() && Objects() == old(Objects())
      ensures expirations == 0 ==> results == []
      ensures expirations != 0 ==> AllReported(results, old(State()).rooms, old(State()).rooms.Keys)
    {
      TickKeeps(State(), expirations);
      hide ServiceConsistent, AfterTick, AllReported, AllTicked, Parts, State, Objects;
      results := [];
      if expirations == 0 {
        return;
      }
      results := TickRooms();
      hide AfterHandleTick;
    }

    method TickRooms() returns (results: seq<RoomTick>)
      requires Parts()
      modifies Objects()
      ensures Parts() && Objects() == old(Objects())
      ensures State() == old(State()).(rooms := map k | k in old(State()).rooms :: AfterTick(old(State()).rooms[k]))
      ensures AllReported(results, old(State()).rooms, old(State()).rooms.Keys)
    {
      hide Apart, Separate, TableConsistent, RoomStates, StatesOf, AfterTick, AllReported;
      results := rooms.TickRooms();
    }

    function Deadline(now: int): int {
      sessions.Deadline(now)
    }

    /** The member is detached first; only then does the session go offline. */
    method HandleClosed(conn: Conn, now: int)
      requires Valid()
      modifies Objects()
      ensures State() == AfterHandleClosed(old(State()), conn, Deadline(now))
      ensures Valid() && Objects() == old(Objects())
    {
      ClosedKeeps(State(), conn, Deadline(now));
      hide ServiceConsistent, AfterHandleClosed, Parts, State, Objects, Deadline;
      GoOffline(conn, now);
    }

    method GoOffline(conn: Conn, now: int)
      requires Valid()
      modifies Objects()
      ensures Parts() && Objects() == old(Objects())
      ensures State() == AfterHandleClosed(old(State()), conn, Deadline(now))
    {
      ghost var before := State();
      BoundIsKnown(before, conn);
      ClosedIs(before, conn, Deadline(now));
      hide ServiceConsistent, Known, Parts, State, Objects, Deadline, AfterHandleClosed, AfterDetach, DetachOutcome;
      hide AfterGoOffline;
      var found := FindSession(conn);
      if found.status != SessionStatus.Success {
        return;
      }
      var detached := DetachMember(found.roomId, found.playerId, conn);
      if detached != Bound {
        assert false;
      }
      DetachSession(conn, now);
    }

    /** Whoever is due is taken out of the room first, then out of the table, one after the other. */
    method HandleTimeouts(now: int)
      requires Valid()
      modifies Objects()
      ensures State() == AfterSweep(old(State()), now)
      ensures Valid() && Objects() <= old(Objects())
    {
      ghost var before := State();
      SweepKeeps(before, now);
      var expired := DueSessions(now);
      NothingRemoved(before);
      hide *;
      for i := 0 to |expired|
        invariant Parts() && Objects() <= old(Objects())
        invariant SweptSoFar(before, now, expired, i, State())
      {
        RemoveExpired(expired, i, now, before);
      }
      SweptAll(before, now, expired, State());
    }

    method DueSessions(now: int) returns (expired: seq<SessionRecord>)
      requires Parts()
      ensures Parts() && State() == old(State()) && Objects() == old(Objects())
      ensures TicketsFrom(expired, State().table.sessions)
      ensures TokenSet(expired) == ExpiredTokens(State().table, now)
    {
      hide Consistent, ValidToken, TicketsFrom, TokenSet, ExpiredTokens;
      expired := sessions.ExpiredSessions(now);
    }

    method RemoveExpired(expired: seq<SessionRecord>, i: nat, now: int, ghost before: Service)
      requires Parts() && ServiceConsistent(before) && i < |expired|
      requires TicketsFrom(expired, before.table.sessions) && TokenSet(expired) == ExpiredTokens(before.table, now)
      requires SweptSoFar(before, now, expired, i, State())
      modifies Objects()
      ensures Parts() && Objects() <= old(Objects())
      ensures SweptSoFar(before, now, expired, i + 1, State())
    {
      SweepOneMore(before, now, expired, i);
      hide ServiceConsistent, Parts, State, Objects, TicketsFrom, TokenSet, ExpiredTokens, AfterLeave;
      hide AfterEraseExpired, EraseExpiredOutcome, Removed;
      var left := LeaveRoom(expired[i].roomId, expired[i].playerId);
      if left != Okay {
        assert false;
      }
      var erased := EraseExpiredSession(expired[i].token, now);
    }

    // -------------------------------------------------------------- checkpoints

    /** Collect both tables, compare their identities, and only then hand the checkpoint out. */
    method MakeCheckpoint(generation: u64) returns (c: Option<ServerRecord>)
      requires Valid()
      ensures State() == old(State())
      ensures c == if generation == 0 then None else Some(CheckpointOf(State(), generation))
    {
      OwnCheckpointIsSound(State(), generation);
      hide ServiceConsistent, Parts, State, Objects, RoomRows, SessionRows, IdentitiesMatch, ValidKeys;
      if generation == 0 {
        return None;
      }
      var roomRows := CollectRooms();
      var sessionRows := CollectSessions();
      var agree := IdentitiesAgree(roomRows, sessionRows);
      if !agree {
        assert false;
      }
      c := Some(ServerRecord(generation, roomRows, sessionRows));
    }

    method IdentitiesAgree(roomRows: seq<RoomRecord>, sessionRows: seq<SessionRecord>) returns (same: bool)
      requires Parts()
      ensures Parts() && State() == old(State()) && Objects() == old(Objects())
      ensures same <==> IdentitiesMatch(roomRows, sessionRows)
    {
      hide Consistent, ValidToken, IdentitiesMatch;
      same := CompareIdentities(roomRows, sessionRows);
    }

    method CollectRooms() returns (rows: seq<RoomRecord>)
      requires Parts()
      ensures Parts() && State() == old(State()) && rows == RoomRows(State().rooms)
    {
      hide Consistent, ValidToken, RoomRows;
      rows := rooms.MakeCheckpoint();
    }

    method CollectSessions() returns (rows: seq<SessionRecord>)
      requires Parts()
      ensures Parts() && State() == old(State()) && rows == SessionRows(State().table.sessions)
    {
      hide Consistent, ValidToken, SessionRows;
      rows := sessions.MakeCheckpoint();
    }

    /** Rooms first, then sessions: a checkpoint with bad session keys gets half way. */
    method RestoreCheckpoint(c: ServerRecord, now: int) returns (ok: bool)
      requires Valid()
      modifies Objects()
      ensures (ok, State()) == RestoreOutcome(old(State()), c, Deadline(now))
      ensures Parts() && (ValidSessionKeys(c.sessions) ==> Valid())
      ensures forall o :: o in Objects() && o !in old(Objects()) ==> fresh(o)
    {
      if ValidSessionKeys(c.sessions) { RestoreKeeps(State(), c, Deadline(now)); }
      hide ServiceConsistent, Parts, State, Objects, Deadline, ValidSessionKeys, RestoreOutcome;
      ok := RestoreBoth(c, now);
    }

    method RestoreBoth(c: ServerRecord, now: int) returns (ok: bool)
      requires Parts()
      modifies Objects()
      ensures Parts() && (forall o :: o in Objects() && o !in old(Objects()) ==> fresh(o))
      ensures (ok, State()) == RestoreOutcome(old(State()), c, Deadline(now))
    {
      hide Parts, State, Objects, Deadline, RoomsAcceptable, IdentitiesMatch, ValidSessionKeys, RestoredRooms;
      hide RestoredTable;
      if c.generation == 0 {
        return false;
      }
      var agree := IdentitiesAgree(c.rooms, c.sessions);
      if !agree {
        return false;
      }
      ok := ReplaceRooms(c.rooms);
      if ok {
        ok := ReplaceSessions(c.sessions, now);
      }
    }

    method ReplaceRooms(rows: seq<RoomRecord>) returns (ok: bool)
      requires Parts()
      modifies Objects()
      ensures Parts() && (forall o :: o in Objects() && o !in old(Objects()) ==> fresh(o))
      ensures ok <==> RoomsAcceptable(rows)
      ensures State() == if ok then old(State()).(rooms := RestoredRooms(rows)) else old(State())
    {
      hide Apart, Separate, TableConsistent, RoomStates, StatesOf, RoomsAcceptable, RestoredRooms;
      ok := rooms.RestoreCheckpoint(rows);
    }

    method ReplaceSessions(rows: seq<SessionRecord>, now: int) returns (ok: bool)
      requires Parts()
      modifies Objects()
      ensures Parts() && (forall o :: o in Objects() && o !in old(Objects()) ==> fresh(o))
      ensures ok <==> ValidSessionKeys(rows)
      ensures State() == if ok then old(State()).(table := RestoredTable(rows, Deadline(now))) else old(State())
    {
      hide Apart, Separate, TableConsistent, RoomStates, StatesOf, ValidSessionKeys, RestoredTable;
      ok := sessions.RestoreCheckpoint(rows, now);
    }

    /** `identities_match`: fill two sets of pairs and compare them. */
    static method CompareIdentities(rooms: seq<RoomRecord>, sessions: seq<SessionRecord>) returns (same: bool)
      ensures same <==> IdentitiesMatch(rooms, sessions)
    {
      var members: set<(u32, u64)> := {};
      for i := 0 to |rooms|
        invariant forall k: u32, p: u64 :: (k, p) in members <==> MemberListed(rooms[..i], k, p)
      {
        var more := MemberIdentities(rooms[i]);
        MemberListedOneMore(rooms, i);
        members := members + more;
      }
      var named := SessionIdentities(sessions);
      assert rooms[..|rooms|] == rooms;
      IdentitySets(rooms, sessions, members, named);
      same := members == named;
    }

    static method MemberIdentities(room: RoomRecord) returns (ids: set<(u32, u64)>)
      ensures forall k: u32, p: u64 :: (k, p) in ids <==> k == room.roomId && HasMember(room, p)
    {
      ids := {};
      for i := 0 to |room.members|
        invariant forall k: u32, p: u64 ::
                    (k, p) in ids <==> k == room.roomId && exists j :: 0 <= j < i && room.members[j].playerId == p
      {
        ids := ids + {(room.roomId, room.members[i].playerId)};
      }
    }

    static method SessionIdentities(sessions: seq<SessionRecord>) returns (ids: set<(u32, u64)>)
      ensures forall k: u32, p: u64 :: (k, p) in ids <==> SessionListed(sessions, k, p)
    {
      ids := {};
      for i := 0 to |sessions|
        invariant forall k: u32, p: u64 ::
                    (k, p) in ids <==> exists j :: 0 <= j < i && sessions[j].roomId == k && sessions[j].playerId == p
      {
        ids := ids + {(sessions[i].roomId, sessions[i].playerId)};
      }
    }
  }

  // ---------------------------------------------------------------- what the steps come to

  function TakenBack(s: Service, conn: Conn, k: u32, id: u64): Service
    requires k in s.rooms
  {
    Service(s.rooms[k := AfterLeave(s.rooms[k], id)], AfterEraseByConnection(s.table, conn))
  }

  ghost function AnnouncedJoin(s: Service, conn: Conn, k: u32, id: u64, others: nat): (Service, JoinVerdict)
    requires k in s.rooms
  {
    if others > MAX_LISTED then (TakenBack(s, conn, k, id), RolledBack)
    else
      var started := SetRoom(s, k, AfterStartIfFull(s.rooms[k]));
      if StartAnswer(s.rooms[k]) != Okay then (TakenBack(started, conn, k, id), RolledBack) else (started, Accepted)
  }

  ghost function IssuedJoin(
      s: Service, conn: Conn, k: u32, id: u64, others: nat, token: Option<Bytes>): (Service, JoinVerdict)
    requires k in s.rooms
  {
    var issued := s.(table := AfterCreate(s.table, conn, k, id, token));
    if CreateOutcome(s.table, conn, token) != SessionStatus.Success
      then (SetRoom(issued, k, AfterLeave(s.rooms[k], id)), RolledBack)
    else AnnouncedJoin(issued, conn, k, id, others)
  }

  ghost function JoinSteps(s: Service, conn: Conn, k: u32, name: Bytes, token: Option<Bytes>): (Service, JoinVerdict) {
    if conn in s.table.bindings || k !in s.rooms then (s, Refused)
    else
      var seated := SetRoom(s, k, AfterJoin(s.rooms[k], conn, name));
      if JoinAnswer(JoinOutcome(s.rooms[k], name)) != Okay then (seated, Refused)
      else IssuedJoin(seated, conn, k, s.rooms[k].nextId, |s.rooms[k].members|, token)
  }

  lemma SeatedIsMember(s: Service, conn: Conn, k: u32, name: Bytes)
    ensures k in s.rooms && JoinAnswer(JoinOutcome(s.rooms[k], name)) == Okay ==>
              s.rooms[k].nextId in AfterJoin(s.rooms[k], conn, name).members
  {
  }

  lemma StartKeepsMembers(r: RoomState)
    ensures AfterStartIfFull(r).members == r.members
  {
  }

  /** The steps, rollbacks included, come to the transaction. */
  lemma JoinStepsAre(s: Service, conn: Conn, k: u32, name: Bytes, token: Option<Bytes>)
    requires ServiceConsistent(s)
    ensures JoinSteps(s, conn, k, name, token) == (AfterHandleJoin(s, conn, k, name, token), JoinResult(s, conn, k, name, token))
  {
    if conn in s.table.bindings || k !in s.rooms {
    } else if JoinOutcome(s.rooms[k], name) == Joined {
      IssuedJoinIs(s, conn, k, name, token);
      hide ServiceConsistent, JoinOutcome, AfterJoin, IssuedJoin, AfterHandleJoin, JoinResult;
    } else {
      assert s.rooms[k := s.rooms[k]] == s.rooms;
      hide ServiceConsistent, JoinOutcome, IssuedJoin, CreateOutcome, StartFails, SeatAndStart;
    }
  }

  lemma IssuedJoinIs(s: Service, conn: Conn, k: u32, name: Bytes, token: Option<Bytes>)
    requires RoomsConsistent(s.rooms) && conn !in s.table.bindings && k in s.rooms && JoinOutcome(s.rooms[k], name) == Joined
    ensures var r := s.rooms[k];
            IssuedJoin(SetRoom(s, k, AfterJoin(r, conn, name)), conn, k, r.nextId, |r.members|, token)
              == (AfterHandleJoin(s, conn, k, name, token), JoinResult(s, conn, k, name, token))
  {
    var r := s.rooms[k];
    SeatSteps(r, conn, name);
    TicketSteps(s.table, conn, k, r.nextId, token);
    JoinedResult(s, conn, k, name, token);
    var joined, undone := AfterJoin(r, conn, name), r.(nextId := Next64(r.nextId));
    hide RoomsConsistent, AfterJoin, AfterLeave, AfterCreate, AfterEraseByConnection, AfterStartIfFull, StartAnswer;
    hide SeatAndStart, StartFails, CreateOutcome, JoinOutcome, JoinResult, AfterHandleJoin, AnnouncedJoin;
    RoomSetTwice(s.rooms, k, joined, undone);
    if CreateOutcome(s.table, conn, token) == SessionStatus.Success {
      AnnouncedJoinIs(s, conn, k, r.nextId, |r.members|, joined, undone, AfterCreate(s.table, conn, k, r.nextId, token));
    }
  }

  /** The verdict on a join the room has accepted, and what it leaves behind. */
  lemma JoinedResult(s: Service, conn: Conn, k: u32, name: Bytes, token: Option<Bytes>)
    requires conn !in s.table.bindings && k in s.rooms && JoinOutcome(s.rooms[k], name) == Joined
    ensures var r := s.rooms[k];
            var undone := s.(rooms := s.rooms[k := r.(nextId := Next64(r.nextId))]);
            if CreateOutcome(s.table, conn, token) != SessionStatus.Success || |r.members| > MAX_LISTED
              || StartFails(|r.members| + 1, r.capacity)
            then JoinResult(s, conn, k, name, token) == RolledBack && AfterHandleJoin(s, conn, k, name, token) == undone
            else
              && JoinResult(s, conn, k, name, token) == Accepted
              && AfterHandleJoin(s, conn, k, name, token)
                   == Service(s.rooms[k := SeatAndStart(r, conn, name)], AfterCreate(s.table, conn, k, r.nextId, token))
  {
    hide CreateOutcome, StartFails, JoinOutcome, SeatAndStart, AfterCreate;
  }

  /** `joined` is room `k` with the new player in it, `undone` the same room after the player left again. */
  lemma AnnouncedJoinIs(
      s: Service, conn: Conn, k: u32, id: u64, others: nat, joined: RoomState, undone: RoomState, issued: SessionTable)
    requires k in s.rooms && AfterLeave(joined, id) == undone && AfterEraseByConnection(issued, conn) == s.table
    requires StartAnswer(joined) != Okay ==> AfterStartIfFull(joined) == joined
    ensures AnnouncedJoin(Service(s.rooms[k := joined], issued), conn, k, id, others)
         == if others > MAX_LISTED || StartAnswer(joined) != Okay then (s.(rooms := s.rooms[k := undone]), RolledBack)
            else (Service(s.rooms[k := AfterStartIfFull(joined)], issued), Accepted)
  {
    RoomSetTwice(s.rooms, k, joined, undone);
    RoomSetTwice(s.rooms, k, joined, AfterStartIfFull(joined));
    hide AfterLeave, AfterEraseByConnection, AfterStartIfFull, StartAnswer;
  }

  lemma RoomSetTwice(rooms: map<u32, RoomState>, k: u32, a: RoomState, b: RoomState)
    ensures rooms[k := a][k := b] == rooms[k := b]
  {
  }

  lemma SeatSteps(r: RoomState, conn: Conn, name: Bytes)
    requires Consistent(r) && JoinOutcome(r, name) == Joined
    ensures var joined := AfterJoin(r, conn, name);
            && r.nextId in joined.members && |joined.members| == |r.members| + 1
            && AfterLeave(joined, r.nextId) == r.(nextId := Next64(r.nextId))
            && (StartAnswer(joined) == Okay <==> !StartFails(|r.members| + 1, r.capacity))
            && AfterStartIfFull(joined) == if StartAnswer(joined) == Okay then SeatAndStart(r, conn, name) else joined
  {
    RefusedJoinCostsOneId(r, conn, name);
    ConsistentFacts(r);
    assert r.nextId !in r.members;
    hide Consistent;
  }

  lemma TicketSteps(table: SessionTable, conn: Conn, roomId: u32, playerId: u64, token: Option<Bytes>)
    ensures var created := AfterCreate(table, conn, roomId, playerId, token);
            if CreateOutcome(table, conn, token) != SessionStatus.Success then created == table
            else AfterEraseByConnection(created, conn) == table
  {
    if CreateOutcome(table, conn, token) == SessionStatus.Success {
      var erased := AfterEraseByConnection(AfterCreate(table, conn, roomId, playerId, token), conn);
      assert erased.sessions == table.sessions && erased.bindings == table.bindings;
    }
  }

  ghost function ResumeSteps(s: Service, conn: Conn, token: Bytes, now: int): (Service, bool) {
    var resumed := s.(table := AfterResume(s.table, conn, token, now));
    if ResumeOutcome(s.table, conn, token, now) != SessionStatus.Success
      || s.table.sessions[token].roomId !in s.rooms then (resumed, false)
    else
      var e := s.table.sessions[token];
      var bound := SetRoom(resumed, e.roomId, AfterBind(s.rooms[e.roomId], e.playerId, conn));
      if |s.rooms[e.roomId].members| <= MAX_LISTED then (bound, true)
      else (Service(bound.rooms[e.roomId := AfterDetach(bound.rooms[e.roomId], e.playerId, conn)],
        AfterRollback(bound.table, conn)), false)
  }

  lemma BindFacts(rooms: map<u32, RoomState>, e: SessionState, conn: Conn)
    requires Seated(rooms, e)
    ensures e.roomId in rooms
    ensures |MemberRows(AfterBind(rooms[e.roomId], e.playerId, conn).members)| == |rooms[e.roomId].members|
  {
    var members := AfterBind(rooms[e.roomId], e.playerId, conn).members;
    SortedCount(members.Keys);
    assert members.Keys == rooms[e.roomId].members.Keys;
    assert |members| == |members.Keys| && |rooms[e.roomId].members| == |rooms[e.roomId].members.Keys|;
  }

  lemma ResumeStepsAre(s: Service, conn: Conn, token: Bytes, now: int)
    requires ServiceConsistent(s)
    ensures ResumeSteps(s, conn, token, now) == (AfterHandleResume(s, conn, token, now), ResumeAccepted(s, conn, token, now))
  {
    if ResumeOutcome(s.table, conn, token, now) == SessionStatus.Success {
      RefusedResumeChangesNothing(s, conn, token, now);
      ResumedCanBind(s, conn, token, now);
      var e := s.table.sessions[token];
      RoomSetTwice(s.rooms, e.roomId, AfterBind(s.rooms[e.roomId], e.playerId, conn), s.rooms[e.roomId]);
      assert s.rooms[e.roomId := s.rooms[e.roomId]] == s.rooms;
    }
    hide ServiceConsistent, AfterBind, AfterDetach, AfterRollback;
  }

  lemma ClosedIs(s: Service, conn: Conn, deadline: int)
    requires ServiceConsistent(s)
    ensures !Known(s, conn) ==> AfterHandleClosed(s, conn, deadline) == s
    ensures Known(s, conn) ==>
              var e := SessionOf(s, conn);
              && e.roomId in s.rooms && DetachOutcome(s.rooms[e.roomId], e.playerId, conn) == Bound
              && AfterHandleClosed(s, conn, deadline)
                   == Service(s.rooms[e.roomId := AfterDetach(s.rooms[e.roomId], e.playerId, conn)],
                     AfterGoOffline(s.table, conn, deadline))
  {
    if Known(s, conn) { KnownCanDetach(s, conn); }
    hide ServiceConsistent, AfterDetach, DetachOutcome, AfterGoOffline;
  }

  lemma KnownFacts(s: Service, conn: Conn)
    ensures Known(s, conn) ==>
              SessionOf(s, conn).roomId in s.rooms && SessionOf(s, conn).playerId in s.rooms[SessionOf(s, conn).roomId].members
  {
  }

  // ---------------------------------------------------------------- the sweep, one session at a time

  /** The first `i` of the expired sessions are gone, and nothing else. */
  ghost predicate SweptSoFar(before: Service, now: int, expired: seq<SessionRecord>, i: nat, s: Service) {
    i <= |expired| && s == Removed(before, TokenSet(expired[..i]))
  }

  lemma NothingRemoved(s: Service)
    ensures forall now, expired :: SweptSoFar(s, now, expired, 0, s)
  {
    forall k | k in s.rooms ensures Without(s.rooms[k], Gone(s.table.sessions, {}, k)) == s.rooms[k] {
      assert s.rooms[k].members - {} == s.rooms[k].members && s.rooms[k].players - {} == s.rooms[k].players;
    }
    assert s.table.sessions - {} == s.table.sessions;
    assert Removed(s, {}) == s;
  }

  lemma SweptAll(before: Service, now: int, expired: seq<SessionRecord>, s: Service)
    requires TokenSet(expired) == ExpiredTokens(before.table, now) && SweptSoFar(before, now, expired, |expired|, s)
    ensures s == AfterSweep(before, now)
  {
    assert expired[..|expired|] == expired;
  }

  lemma {:induction false} TicketAt(rows: seq<SessionRecord>, sessions: map<Bytes, SessionState>, i: nat)
    requires TicketsFrom(rows, sessions) && i < |rows|
    ensures rows[i].token in sessions && rows[i] == Tickets(sessions)[rows[i].token]
    ensures rows[i].token !in TokenSet(rows[..i]) && rows[i].token in TokenSet(rows)
    ensures TokenSet(rows[..i + 1]) == TokenSet(rows[..i]) + {rows[i].token}
    decreases |rows|
  {
    var front := rows[..|rows| - 1];
    if i < |front| {
      TicketAt(front, sessions, i);
      assert front[..i] == rows[..i] && front[..i + 1] == rows[..i + 1];
    } else {
      assert rows[..i] == front && rows[..i + 1] == rows;
    }
  }

  /** Taking out one more expired session, member first, is what the next step of the sweep amounts to. */
  lemma SweepOneMore(before: Service, now: int, expired: seq<SessionRecord>, i: nat)
    requires ServiceConsistent(before) && i < |expired|
    requires TicketsFrom(expired, before.table.sessions) && TokenSet(expired) == ExpiredTokens(before.table, now)
    ensures var s, row := Removed(before, TokenSet(expired[..i])), expired[i];
            && row.roomId in s.rooms && row.playerId in s.rooms[row.roomId].members
            && Removed(before, TokenSet(expired[..i + 1]))
                 == SetRoom(s, row.roomId,
                   AfterLeave(s.rooms[row.roomId], row.playerId)).(table := AfterEraseExpired(s.table, row.token, now))
  {
    TicketAt(expired, before.table.sessions, i);
    RemovedOneMore(before, TokenSet(expired[..i]), expired[i].token, now);
    hide *;
  }

  lemma RemovedOneMore(s: Service, tokens: set<Bytes>, t: Bytes, now: int)
    requires ServiceConsistent(s) && t in s.table.sessions && t !in tokens && t in ExpiredTokens(s.table, now)
    ensures var r, e := Removed(s, tokens), s.table.sessions[t];
            && e.roomId in r.rooms && e.playerId in r.rooms[e.roomId].members
            && Removed(s, tokens + {t})
                 == SetRoom(r, e.roomId, AfterLeave(r.rooms[e.roomId], e.playerId)).(table := AfterEraseExpired(r.table, t, now))
  {
    RemovedRoomsOneMore(s, tokens, t);
    ErasedOneMore(s.table, tokens, t, now);
    TablesOfRemoved(s, tokens);
    TablesOfRemoved(s, tokens + {t});
    hide ServiceConsistent, Removed, AfterEraseExpired, AfterLeave, ExpiredTokens;
  }

  lemma TablesOfRemoved(s: Service, tokens: set<Bytes>)
    ensures Removed(s, tokens).table == s.table.(sessions := s.table.sessions - tokens)
  {
  }

  lemma ErasedOneMore(table: SessionTable, tokens: set<Bytes>, t: Bytes, now: int)
    requires t in ExpiredTokens(table, now) && t !in tokens
    ensures AfterEraseExpired(table.(sessions := table.sessions - tokens), t, now)
         == table.(sessions := table.sessions - (tokens + {t}))
  {
    assert table.sessions - tokens - {t} == table.sessions - (tokens + {t});
  }

  lemma RemovedRoomsOneMore(s: Service, tokens: set<Bytes>, t: Bytes)
    requires ServiceConsistent(s) && t in s.table.sessions && t !in tokens
    ensures var r, e := Removed(s, tokens), s.table.sessions[t];
            && e.roomId in r.rooms && e.playerId in r.rooms[e.roomId].members
            && Removed(s, tokens + {t}).rooms == r.rooms[e.roomId := AfterLeave(r.rooms[e.roomId], e.playerId)]
  {
    hide Consistent, TableConsistent;
    var e := s.table.sessions[t];
    assert Seated(s.rooms, e);
    assert e.playerId !in Gone(s.table.sessions, tokens, e.roomId);
    var r := Removed(s, tokens);
    assert r.rooms[e.roomId] == Without(s.rooms[e.roomId], Gone(s.table.sessions, tokens, e.roomId));
    RoomsWithoutOneMore(s, tokens, t);
    hide Gone, Without, AfterLeave, Removed, SessionsSeated, EveryMemberHasSession, IdentitiesUnique;
  }

  lemma RoomsWithoutOneMore(s: Service, tokens: set<Bytes>, t: Bytes)
    requires t in s.table.sessions && s.table.sessions[t].roomId in s.rooms
    ensures var r, e := Removed(s, tokens), s.table.sessions[t];
            && e.roomId in r.rooms
            && Removed(s, tokens + {t}).rooms == r.rooms[e.roomId := AfterLeave(r.rooms[e.roomId], e.playerId)]
  {
    var r, e := Removed(s, tokens), s.table.sessions[t];
    forall k | k in s.rooms
      ensures Removed(s, tokens + {t}).rooms[k] == if k == e.roomId then AfterLeave(r.rooms[k], e.playerId) else r.rooms[k]
    {
      GoneOneMore(s.table.sessions, tokens, t, k);
      if k == e.roomId { WithoutOneMore(s.rooms[k], Gone(s.table.sessions, tokens, k), e.playerId); }
      hide Gone, Without, AfterLeave;
    }
    hide Gone, Without, AfterLeave;
  }

  lemma GoneOneMore(sessions: map<Bytes, SessionState>, tokens: set<Bytes>, t: Bytes, k: u32)
    requires t in sessions
    ensures Gone(sessions, tokens + {t}, k)
         == if k == sessions[t].roomId then Gone(sessions, tokens, k) + {sessions[t].playerId} else Gone(sessions, tokens, k)
  {
    var more := tokens + {t};
    assert t in more;
    assert k == sessions[t].roomId ==> sessions[t].playerId in Gone(sessions, more, k);
  }

  lemma WithoutOneMore(r: RoomState, ids: set<u64>, id: u64)
    ensures Without(r, ids + {id}) == AfterLeave(Without(r, ids), id)
  {
    assert r.members - (ids + {id}) == (r.members - ids) - {id};
    assert r.players - (ids + {id}) == (r.players - ids) - {id};
  }

  // ---------------------------------------------------------------- identities

  lemma MemberListedOneMore(rooms: seq<RoomRecord>, i: nat)
    requires i < |rooms|
    ensures forall k, p ::
              MemberListed(rooms[..i + 1], k, p)
              <==> MemberListed(rooms[..i], k, p) || (k == rooms[i].roomId && HasMember(rooms[i], p))
  {
    hide HasMember;
    var front, more := rooms[..i], rooms[..i + 1];
    forall k, p ensures MemberListed(more, k, p)
        <==> MemberListed(front, k, p) || (k == rooms[i].roomId && HasMember(rooms[i], p)) {
      if MemberListed(front, k, p) {
        var j :| 0 <= j < |front| && front[j].roomId == k && HasMember(front[j], p);
        assert more[j] == front[j];
      }
      if k == rooms[i].roomId && HasMember(rooms[i], p) {
        assert more[i] == rooms[i];
      }
      if MemberListed(more, k, p) {
        var j :| 0 <= j < |more| && more[j].roomId == k && HasMember(more[j], p);
        assert j < i ==> front[j] == more[j];
      }
    }
  }

  lemma IdentitySets(
      rooms: seq<RoomRecord>, sessions: seq<SessionRecord>, members: set<(u32, u64)>, named: set<(u32, u64)>)
    requires forall k: u32, p: u64 :: (k, p) in members <==> MemberListed(rooms, k, p)
    requires forall k: u32, p: u64 :: (k, p) in named <==> SessionListed(sessions, k, p)
    ensures members == named <==> IdentitiesMatch(rooms, sessions)
  {
    hide MemberListed, SessionListed;
    if IdentitiesMatch(rooms, sessions) {
      forall x: (u32, u64) ensures x in members <==> x in named {
        assert x == (x.0, x.1);
      }
    } else {
      var k: u32, p: u64 :| !(MemberListed(rooms, k, p) <==> SessionListed(sessions, k, p));
      assert (k, p) in members <==> MemberListed(rooms, k, p);
    }
  }
}
