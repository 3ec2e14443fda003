/** What the agreement of the three tables buys: promises about whole runs of the service. */
module ServiceGuarantees {
  import opened Common
  import opened Ordering
  import opened GameState
  import opened Checkpoint
  import opened Checksum
  import opened CheckpointFormat
  import opened Tick
  import opened RoomModel
  import opened SessionModel
  import opened ServiceModel
  import opened ServiceProofs
  import opened ServiceCheckpoint

  // ---------------------------------------------------------------- hit points over whole runs

  ghost predicate AllTenfold(rooms: map<u32, RoomState>) {
    forall k :: k in rooms ==> Tenfold(rooms[k].players)
  }

  ghost predicate TenfoldRows(rows: seq<Player>) {
    forall i :: 0 <= i < |rows| ==> TenfoldHp(rows[i].hp)
  }

  ghost predicate TenfoldRecord(c: ServerRecord) {
    forall i :: 0 <= i < |c.rooms| ==> TenfoldRows(c.rooms[i].players)
  }

  lemma StepKeepsTenfold(r: RoomState, op: RoomOp)
    requires Tenfold(r.players)
    ensures Tenfold(Step(r, op).players)
  {
    if op.TickOnce? {
      SettleKeepsTenfold(r.players, r.pending);
    }
  }

  lemma SeatKeepsTenfold(r: RoomState, conn: Conn, name: Bytes)
    requires Tenfold(r.players)
    ensures Tenfold(SeatAndStart(r, conn, name).players)
  {
    StepKeepsTenfold(r, Join(conn, name));
    StepKeepsTenfold(AfterJoin(r, conn, name), Start(true));
  }

  lemma RestoredTenfold(c: RoomRecord)
    requires TenfoldRows(c.players)
    ensures Tenfold(RestoredRoom(c).players)
  {
    TableEntries(c.players, PlayerId);
  }

  lemma LoadKeepsTenfold(s: Service, c: ServerRecord, deadline: int)
    requires AllTenfold(s.rooms) && TenfoldRecord(c)
    ensures AllTenfold(RestoreOutcome(s, c, deadline).1.rooms)
  {
    var records := Table(c.rooms, RoomKey);
    TableEntries(c.rooms, RoomKey);
    hide Tenfold, TenfoldRows, RestoredRoom, Table, IdentitiesMatch, RoomsAcceptable, ValidSessionKeys;
    forall k | k in records ensures Tenfold(RestoredRoom(records[k]).players) {
      assert records[k] in c.rooms;
      RestoredTenfold(records[k]);
    }
  }

  /** What a bound connection can do to its room. */
  lemma KnownKeepsTenfold(s: Service, conn: Conn)
    requires AllTenfold(s.rooms)
    ensures forall deadline :: AllTenfold(AfterHandleClosed(s, conn, deadline).rooms)
    ensures forall o :: AllTenfold(AfterHandleOrder(s, conn, o).rooms)
    ensures AllTenfold(AfterHandleLeave(s, conn).rooms)
  {
    hide TenfoldHp;
  }

  lemma ResumeKeepsTenfold(s: Service, conn: Conn, token: Bytes, now: int)
    requires AllTenfold(s.rooms)
    ensures AllTenfold(AfterHandleResume(s, conn, token, now).rooms)
  {
    hide TenfoldHp;
  }

  lemma JoinKeepsTenfold(s: Service, conn: Conn, k: u32, name: Bytes, token: Option<Bytes>)
    requires AllTenfold(s.rooms)
    ensures AllTenfold(AfterHandleJoin(s, conn, k, name, token).rooms)
  {
    if k in s.rooms {
      SeatKeepsTenfold(s.rooms[k], conn, name);
    }
    hide SeatAndStart, Tenfold;
  }

  lemma SweepKeepsTenfold(s: Service, now: int)
    requires AllTenfold(s.rooms)
    ensures AllTenfold(AfterSweep(s, now).rooms)
  {
    hide ExpiredTokens, Gone, TenfoldHp;
  }

  lemma EventKeepsTenfold(s: Service, e: Event)
    requires AllTenfold(s.rooms)
    requires e.Loaded? ==> TenfoldRecord(e.checkpoint)
    ensures AllTenfold(ServiceAfter(s, e).rooms)
  {
    hide SeatAndStart, AfterTick, AfterSubmit, RestoreOutcome, ExpiredTokens, Gone, JoinResult, ResumeAccepted;
    hide AfterHandleClosed, AfterSweep;
    match e
    case JoinFrame(c, k, name, token) => JoinKeepsTenfold(s, c, k, name, token);
    case ResumeFrame(c, token, now) => ResumeKeepsTenfold(s, c, token, now);
    case LeaveFrame(c) => KnownKeepsTenfold(s, c);
    case OrderFrame(c, o) => KnownKeepsTenfold(s, c);
    case TickDue(n) =>
      forall k | k in s.rooms ensures Tenfold(AfterTick(s.rooms[k]).players) {
        StepKeepsTenfold(s.rooms[k], TickOnce);
      }
    case Loaded(c, deadline) => LoadKeepsTenfold(s, c, deadline);
    case ClosedNotice(c, deadline) => KnownKeepsTenfold(s, c);
    case SweepDue(now) => SweepKeepsTenfold(s, now);
    case _ =>
  }

  /** Without foreign checkpoints, every hp is a multiple of ten in 0..100 for ever. */
  lemma {:induction false} RunKeepsTenfold(w: World, events: seq<Event>)
    requires AllTenfold(w.service.rooms)
    requires forall e :: e in events && e.Loaded? ==> TenfoldRecord(e.checkpoint)
    ensures AllTenfold(Run(w, events).service.rooms)
  {
    if events != [] {
      RunKeepsTenfold(w, events[..|events| - 1]);
      hide AllTenfold, ServiceAfter, Possible, TenfoldRecord;
      EventKeepsTenfold(Run(w, events[..|events| - 1]).service, events[|events| - 1]);
    }
  }

  lemma OwnCheckpointIsTenfold(s: Service, generation: u64)
    requires RoomsConsistent(s.rooms) && AllTenfold(s.rooms)
    ensures TenfoldRecord(CheckpointOf(s, generation))
  {
    var c := CheckpointOf(s, generation);
    RoomRowsFacts(s.rooms);
    hide RoomRows, Consistent, SessionRows;
    forall i | 0 <= i < |c.rooms| ensures TenfoldRows(c.rooms[i].players) {
      PlayersTenfold(s.rooms[c.rooms[i].roomId].players);
    }
  }

  lemma PlayersTenfold(players: Players)
    requires Tenfold(players)
    ensures TenfoldRows(PlayerRows(players))
  {
    var ids := SortedIds(players.Keys);
    forall i | 0 <= i < |ids| ensures ids[i] in players {
      assert ids[i] in ids;
    }
  }

  /** What a line of servers can write: each starts empty and loads only what an earlier one wrote. */
  ghost predicate Written(c: ServerRecord, generations: nat)
    decreases generations
  {
    generations > 0 && exists events: seq<Event> ::
      && c == CheckpointOf(Run(FRESH, events).service, c.generation)
      && forall e :: e in events && e.Loaded? ==> Written(e.checkpoint, generations - 1)
  }

  lemma {:induction false} WrittenIsTenfold(c: ServerRecord, generations: nat) returns (s: Service)
    requires Written(c, generations)
    ensures ServiceConsistent(s) && AllTenfold(s.rooms) && c == CheckpointOf(s, c.generation) && TenfoldRecord(c)
    decreases generations
  {
    hide CheckpointOf, TenfoldRecord, RoomsConsistent, TableConsistent, SessionsSeated, EveryMemberHasSession;
    hide IdentitiesUnique;
    var events: seq<Event> :|
      && c == CheckpointOf(Run(FRESH, events).service, c.generation)
      && forall e :: e in events && e.Loaded? ==> Written(e.checkpoint, generations - 1);
    forall e | e in events && e.Loaded? ensures TenfoldRecord(e.checkpoint) {
      var _ := WrittenIsTenfold(e.checkpoint, generations - 1);
    }
    s := Run(FRESH, events).service;
    FreshIsSound();
    RunKeepsSound(FRESH, events);
    RunKeepsTenfold(FRESH, events);
    OwnCheckpointIsTenfold(s, c.generation);
  }

  /** No line of servers ever writes a checkpoint that a server would not take back. */
  lemma WrittenIsRestorable(c: ServerRecord, generations: nat, target: Service, deadline: int)
    requires Written(c, generations) && c.generation != 0
    ensures RestoreOutcome(target, c, deadline).0
    ensures CheckpointOf(RestoreOutcome(target, c, deadline).1, c.generation) == c
  {
    var s := WrittenIsTenfold(c, generations);
    ServerRoundTrip(s, c.generation, target, deadline);
    hide RestoreOutcome, CheckpointOf, ServiceConsistent;
    assert EverybodyAboveZero(s.rooms);
  }

  // ---------------------------------------------------------------- all or nothing

  /** A checkpoint that came out of the decoder replaces everything or changes nothing. */
  lemma DecodedRestoreIsAtomic(s: Service, file: Bytes, deadline: int)
    requires Decoding(file).Ok?
    ensures var c := Decoding(file).value;
            && (RestoreOutcome(s, c, deadline).0 <==> IdentitiesMatch(c.rooms, c.sessions) && RoomsAcceptable(c.rooms))
            && RestoreOutcome(s, c, deadline).1
                 == if RestoreOutcome(s, c, deadline).0
                    then Service(RestoredRooms(c.rooms), RestoredTable(c.sessions, deadline)) else s
  {
    DecodedKeysAreValid(file);
    hide Decoding, IdentitiesMatch, RoomsAcceptable, RestoredRooms, RestoredTable;
  }

  lemma DecodedKeysAreValid(file: Bytes)
    requires Decoding(file).Ok?
    ensures ValidKeys(Decoding(file).value) && Decoding(file).value.generation != 0
  {
    hide ValidKeys, Fnv1a;
  }

  /** The restore went through, or changed nothing. */
  ghost predicate Atomic(s: Service, c: ServerRecord, deadline: int) {
    RestoreOutcome(s, c, deadline).0 || RestoreOutcome(s, c, deadline).1 == s
  }

  /** Rooms are replaced before the session keys are judged: exactly when a restore is all or nothing on a given server. */
  lemma RestoreIsAtomicIff(s: Service, c: ServerRecord, deadline: int)
    ensures Atomic(s, c, deadline)
       <==> c.generation == 0 || !IdentitiesMatch(c.rooms, c.sessions) || !RoomsAcceptable(c.rooms)
            || ValidSessionKeys(c.sessions) || RestoredRooms(c.rooms) == s.rooms
  {
    hide IdentitiesMatch, RoomsAcceptable, ValidSessionKeys, RestoredRooms;
    assert s.(rooms := s.rooms) == s;
  }

  /** And on every server: exactly for the checkpoints that are refused before the rooms, or have valid session keys. */
  lemma RestoreIsAlwaysAtomicIff(c: ServerRecord, deadline: int)
    ensures (forall s :: ServiceConsistent(s) ==> Atomic(s, c, deadline))
       <==> c.generation == 0 || !IdentitiesMatch(c.rooms, c.sessions) || !RoomsAcceptable(c.rooms)
            || ValidSessionKeys(c.sessions)
  {
    FreshIsSound();
    RestoreIsAtomicIff(FRESH.service, c, deadline);
    if IdentitiesMatch(c.rooms, c.sessions) && !ValidSessionKeys(c.sessions) {
      SessionsNeedRooms(c);
    }
    hide IdentitiesMatch, RoomsAcceptable, ValidSessionKeys, RestoredRooms, RestoreOutcome, ServiceConsistent;
    forall s | ServiceConsistent(s)
      ensures (c.generation == 0 || !IdentitiesMatch(c.rooms, c.sessions) || !RoomsAcceptable(c.rooms)
               || ValidSessionKeys(c.sessions))
              ==> Atomic(s, c, deadline)
    {
      RestoreIsAtomicIff(s, c, deadline);
    }
  }

  lemma SessionsNeedRooms(c: ServerRecord)
    requires IdentitiesMatch(c.rooms, c.sessions) && c.sessions != []
    ensures RestoredRooms(c.rooms) != map[]
  {
    var e := c.sessions[0];
    assert SessionListed(c.sessions, e.roomId, e.playerId);
    assert MemberListed(c.rooms, e.roomId, e.playerId);
    TableKeys(c.rooms, RoomKey);
    hide RestoredRoom;
    assert RoomKey(c.rooms[0]) in Table(c.rooms, RoomKey);
    assert RoomKey(c.rooms[0]) in RestoredRooms(c.rooms);
  }

  /** A checkpoint made by hand can leave the rooms replaced and the sessions not. */
  function Handmade(): ServerRecord {
    ServerRecord(1, [RoomRecord(7, 2, 2, Waiting, 0, [MemberRecord(1, [65])], [])], [SessionRecord([], 7, 1)])
  }

  lemma HandmadeRestoreIsPartial(deadline: int)
    ensures !RestoreOutcome(FRESH.service, Handmade(), deadline).0
    ensures RestoreOutcome(FRESH.service, Handmade(), deadline).1.rooms != FRESH.service.rooms
    ensures RestoreOutcome(FRESH.service, Handmade(), deadline).1.table == FRESH.service.table
  {
    HandmadeFacts();
    hide IdentitiesMatch, RoomsAcceptable, ValidSessionKeys;
    assert 7 in RestoredRooms(Handmade().rooms);
  }

  lemma HandmadeFacts()
    ensures IdentitiesMatch(Handmade().rooms, Handmade().sessions)
    ensures RoomsAcceptable(Handmade().rooms)
    ensures !ValidSessionKeys(Handmade().sessions)
  {
    var c := Handmade();
    assert !ValidToken(c.sessions[0].token);
    assert HasMember(c.rooms[0], 1) by { assert c.rooms[0].members[0].playerId == 1; }
    forall k: u32, p: u64 ensures MemberListed(c.rooms, k, p) <==> SessionListed(c.sessions, k, p) {
      if k == 7 && p == 1 {
        assert c.rooms[0].roomId == 7 && c.sessions[0].roomId == 7 && c.sessions[0].playerId == 1;
      }
    }
  }

  // ---------------------------------------------------------------- closing and expiring

  /** A close notice touches the session on that very connection and nothing else. */
  lemma CloseTouchesOnlyItsOwn(s: Service, conn: Conn, deadline: int, t: Bytes)
    requires ServiceConsistent(s) && t in s.table.sessions
    ensures t in AfterHandleClosed(s, conn, deadline).table.sessions
    ensures AfterHandleClosed(s, conn, deadline).table.sessions[t]
         == if s.table.sessions[t].conn == Some(conn) then s.table.sessions[t].(conn := None, deadline := deadline)
            else s.table.sessions[t]
    ensures conn !in s.table.bindings ==> AfterHandleClosed(s, conn, deadline) == s
  {
    BoundIsKnown(s, conn);
    OfflineTouchesOnlyItsOwn(s.table, conn, deadline, t);
    hide ServiceConsistent, AfterDetach, AfterGoOffline, Seated;
  }

  lemma OfflineTouchesOnlyItsOwn(table: SessionTable, conn: Conn, deadline: int, t: Bytes)
    requires TableConsistent(table) && t in table.sessions
    ensures var after, e := AfterGoOffline(table, conn, deadline).sessions, table.sessions[t];
            t in after && after[t] == if e.conn == Some(conn) then e.(conn := None, deadline := deadline) else e
    ensures table.sessions[t].conn == Some(conn) ==> conn in table.bindings
  {
    hide ValidToken;
  }

  lemma SweptSeat(s: Service, now: int, k: u32, p: u64)
    requires ServiceConsistent(s) && ServiceConsistent(AfterSweep(s, now)) && k in s.rooms
    ensures p in AfterSweep(s, now).rooms[k].members <==> HasSession(AfterSweep(s, now).table.sessions, k, p)
  {
    hide Consistent, TableConsistent, IdentitiesUnique, AfterSweep;
    var t := AfterSweep(s, now);
    if HasSession(t.table.sessions, k, p) {
      var token :| token in t.table.sessions && t.table.sessions[token].roomId == k && t.table.sessions[token].playerId == p;
      assert Seated(t.rooms, t.table.sessions[token]);
    }
    assert k in t.rooms by { assert AfterSweep(s, now).rooms.Keys == s.rooms.Keys by { SweepKeepsRooms(s, now); } }
  }

  lemma SweepKeepsRooms(s: Service, now: int)
    ensures AfterSweep(s, now).rooms.Keys == s.rooms.Keys
  {
    hide Without, Gone;
  }

  /** Who is swept away: the offline whose time has come, from the sessions and from the rooms alike. */
  lemma SweepIsExact(s: Service, now: int, k: u32, p: u64)
    requires ServiceConsistent(s) && k in s.rooms && p in s.rooms[k].members
    ensures k in AfterSweep(s, now).rooms
    ensures p !in AfterSweep(s, now).rooms[k].members
       <==> exists t :: t in s.table.sessions && s.table.sessions[t].roomId == k && s.table.sessions[t].playerId == p
                        && s.table.sessions[t].conn == None && now >= s.table.sessions[t].deadline
    ensures p in AfterSweep(s, now).rooms[k].members ==> AfterSweep(s, now).rooms[k].members[p] == s.rooms[k].members[p]
    ensures s.rooms[k].members[p].conn.Some? ==> p in AfterSweep(s, now).rooms[k].members
    ensures p in AfterSweep(s, now).rooms[k].members <==> HasSession(AfterSweep(s, now).table.sessions, k, p)
    ensures p in AfterSweep(s, now).rooms[k].players <==> p in s.rooms[k].players && p in AfterSweep(s, now).rooms[k].members
    ensures p in AfterSweep(s, now).rooms[k].players ==> AfterSweep(s, now).rooms[k].players[p] == s.rooms[k].players[p]
  {
    SweepKeeps(s, now);
    SweptSeat(s, now, k, p);
    hide Consistent, TableConsistent;
    var sessions, tokens := s.table.sessions, ExpiredTokens(s.table, now);
    if p in Gone(sessions, tokens, k) {
      var t :| t in tokens && t in sessions && sessions[t].roomId == k && sessions[t].playerId == p;
      assert Seated(s.rooms, sessions[t]);
    }
    if t :| t in sessions && sessions[t].roomId == k && sessions[t].playerId == p
            && sessions[t].conn == None && now >= sessions[t].deadline {
      assert t in tokens;
    }
  }

  /** At every moment an offline session either can be resumed or is swept away, never both. */
  lemma ResumeOrSweep(s: Service, conn: Conn, token: Bytes, now: int)
    requires ServiceConsistent(s) && token in s.table.sessions && s.table.sessions[token].conn.None?
    requires conn !in s.table.bindings
    ensures token in AfterSweep(s, now).table.sessions <==> ResumeOutcome(s.table, conn, token, now) == SessionStatus.Success
    ensures token in AfterSweep(s, now).table.sessions && |s.rooms[s.table.sessions[token].roomId].members| <= MAX_LISTED
       <==> ResumeAccepted(s, conn, token, now)
  {
    hide Consistent, TableConsistent;
    assert Seated(s.rooms, s.table.sessions[token]);
  }

  /** A resume that is refused for whatever reason leaves every table as it was, the deadline included. */
  lemma RefusedResumeChangesNothing(s: Service, conn: Conn, token: Bytes, now: int)
    requires ServiceConsistent(s) && ResumeOutcome(s.table, conn, token, now) == SessionStatus.Success
    ensures AfterRollback(AfterResume(s.table, conn, token, now), conn) == s.table
    ensures var e := s.table.sessions[token];
            AfterDetach(AfterBind(s.rooms[e.roomId], e.playerId, conn), e.playerId, conn) == s.rooms[e.roomId]
  {
    RollbackUndoesResume(s.table, conn, token, now);
    ResumedCanBind(s, conn, token, now);
    BindUndone(s.rooms[s.table.sessions[token].roomId], s.table.sessions[token].playerId, conn);
    hide *;
  }

  lemma BindUndone(r: RoomState, id: u64, conn: Conn)
    requires BindOutcome(r, id) == Bound
    ensures AfterDetach(AfterBind(r, id, conn), id, conn) == r
  {
    assert AfterDetach(AfterBind(r, id, conn), id, conn).members == r.members;
  }

  /** A refused join undoes the seat it had given, and only the player id is gone. */
  lemma RefusedJoinCostsOneId(r: RoomState, conn: Conn, name: Bytes)
    requires Consistent(r) && JoinOutcome(r, name) == Joined
    ensures AfterLeave(AfterJoin(r, conn, name), r.nextId) == r.(nextId := Next64(r.nextId))
  {
    assert AfterJoin(r, conn, name).members - {r.nextId} == r.members;
    assert r.players - {r.nextId} == r.players;
  }
}
