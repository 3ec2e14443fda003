/**
 Which checkpoints keep hit points at zero or above: exactly the fair ones. A restore takes any
 hit points from 0 to 100, an attack takes ten, and a player below zero makes every later
 checkpoint of the server worthless.
 */
module HitPoints {
  import opened Common
  import opened Ordering
  import opened GameState
  import opened Checkpoint
  import opened Tick
  import opened RoomModel
  import opened SessionModel
  import opened ServiceModel
  import opened ServiceProofs
  import opened ServiceCheckpoint
  import opened ServiceGuarantees
  import ServiceExamples

  /** Nobody is below zero, and while the room runs nobody can be driven there. */
  ghost predicate FairRoom(r: RoomState) {
    NobodyBelowZero(r) && (r.phase == Running ==> Fair(r.players))
  }

  ghost predicate AllFair(rooms: map<u32, RoomState>) {
    forall k :: k in rooms ==> FairRoom(rooms[k])
  }

  ghost predicate FairRows(rows: seq<Player>) {
    forall i, j :: 0 <= i < |rows| && 0 <= j < |rows| && i != j && rows[i].hp > 0 && rows[j].hp > 0 ==>
      rows[i].hp % ATTACK_DAMAGE == 0
  }

  /** What can be seen in a checkpoint before it is loaded. */
  ghost predicate FairRecord(c: ServerRecord) {
    forall i :: 0 <= i < |c.rooms| && c.rooms[i].phase == Running ==> FairRows(c.rooms[i].players)
  }

  // ---------------------------------------------------------------- fair rooms stay fair

  lemma TenfoldIsFair(players: Players)
    requires Tenfold(players)
    ensures AboveZero(players) && Fair(players)
  {
  }

  lemma FewerAreFair(players: Players, ids: set<u64>)
    requires AboveZero(players)
    ensures AboveZero(players - ids) && (Fair(players) ==> Fair(players - ids))
  {
  }

  lemma SeatKeepsFair(r: RoomState, conn: Conn, name: Bytes)
    requires FairRoom(r)
    ensures FairRoom(SeatAndStart(r, conn, name))
  {
    var joined := AfterJoin(r, conn, name);
    assert joined.players == r.players && joined.phase == r.phase;
    hide AfterJoin, AboveZero, Fair;
    if |joined.members| == joined.capacity && StartTransition(joined, true) == Done {
      StartingLineTenfold(joined.members.Keys);
      TenfoldIsFair(StartingLine(joined.members.Keys));
    }
  }

  lemma StartingLineTenfold(ids: set<u64>)
    requires |ids| <= MAX_PLAYERS
    ensures Tenfold(StartingLine(ids))
  {
  }

  lemma TickKeepsFair(r: RoomState)
    requires FairRoom(r)
    ensures FairRoom(AfterTick(r))
  {
    hide AboveZero, Fair, Settle;
    if r.phase == Running {
      SettleKeepsFair(r.players, r.pending);
    }
  }

  lemma JoinKeepsFair(s: Service, conn: Conn, k: u32, name: Bytes, token: Option<Bytes>)
    requires AllFair(s.rooms)
    ensures AllFair(AfterHandleJoin(s, conn, k, name, token).rooms)
  {
    if k in s.rooms {
      SeatKeepsFair(s.rooms[k], conn, name);
    }
    hide SeatAndStart, AboveZero, Fair, AfterCreate;
  }

  lemma LeaveKeepsFair(s: Service, conn: Conn)
    requires AllFair(s.rooms)
    ensures AllFair(AfterHandleLeave(s, conn).rooms)
  {
    hide AboveZero, Fair, AfterEraseByConnection;
    if Known(s, conn) {
      FewerAreFair(s.rooms[SessionOf(s, conn).roomId].players, {SessionOf(s, conn).playerId});
    }
  }

  lemma SweepKeepsFair(s: Service, now: int)
    requires AllFair(s.rooms)
    ensures AllFair(AfterSweep(s, now).rooms)
  {
    hide ExpiredTokens, Gone, AboveZero, Fair;
    forall k | k in s.rooms ensures FairRoom(AfterSweep(s, now).rooms[k]) {
      FewerAreFair(s.rooms[k].players, Gone(s.table.sessions, ExpiredTokens(s.table, now), k));
    }
  }

  lemma TicksKeepFair(s: Service, n: u64)
    requires AllFair(s.rooms)
    ensures AllFair(AfterHandleTick(s, n).rooms)
  {
    hide FairRoom, AfterTick;
    forall k | k in s.rooms ensures FairRoom(AfterTick(s.rooms[k])) {
      TickKeepsFair(s.rooms[k]);
    }
  }

  /** The rooms of a checkpoint are fair exactly when the checkpoint is. */
  lemma RestoredAllFairIff(c: ServerRecord)
    requires RoomsAcceptable(c.rooms)
    ensures AllFair(RestoredRooms(c.rooms)) <==> FairRecord(c)
  {
    var records := Table(c.rooms, RoomKey);
    TableEntries(c.rooms, RoomKey);
    hide Table, FairRoom, FairRows, RestoredRoom, Acceptable;
    forall i | 0 <= i < |c.rooms| ensures c.rooms[i].roomId in records && records[c.rooms[i].roomId] == c.rooms[i] {
      TableFinds(c.rooms, RoomKey, i);
    }
    forall k | k in records ensures FairRoom(RestoredRoom(records[k]))
        <==> (records[k].phase == Running ==> FairRows(records[k].players)) {
      assert records[k] in c.rooms;
      RestoredFairIff(records[k]);
    }
    var rooms := RestoredRooms(c.rooms);
    assert forall k :: k in rooms <==> k in records;
    assert forall k :: k in records ==> rooms[k] == RestoredRoom(records[k]);
    hide RestoredRooms;
  }

  lemma RestoredFairIff(c: RoomRecord)
    requires Acceptable(c)
    ensures FairRoom(RestoredRoom(c)) <==> (c.phase == Running ==> FairRows(c.players))
  {
    var rows, players := c.players, Table(c.players, PlayerId);
    TableEntries(rows, PlayerId);
    forall i | 0 <= i < |rows| ensures rows[i].id in players && players[rows[i].id] == rows[i] {
      TableFinds(rows, PlayerId, i);
    }
    hide Table, OfflineMembers, MembersAcceptable;
    if Fair(players) {
      forall i, j | 0 <= i < |rows| && 0 <= j < |rows| && i != j && rows[i].hp > 0 && rows[j].hp > 0
        ensures rows[i].hp % ATTACK_DAMAGE == 0
      {
        assert rows[i].id != rows[j].id;
      }
    }
    forall p | p in players ensures players[p] in rows && players[p].id == p && players[p].hp >= 0 {
    }
    assert AboveZero(players);
    if FairRows(rows) {
      FairRowsFair(rows, players);
    }
  }

  lemma FairRowsFair(rows: seq<Player>, players: Players)
    requires FairRows(rows) && forall p :: p in players ==> players[p] in rows && players[p].id == p
    ensures Fair(players)
  {
    forall p, q | p in players && q in players && p != q && players[p].hp > 0 && players[q].hp > 0
      ensures players[p].hp % ATTACK_DAMAGE == 0
    {
      var i :| 0 <= i < |rows| && rows[i] == players[p];
      var j :| 0 <= j < |rows| && rows[j] == players[q];
      assert i != j;
    }
  }

  lemma EventKeepsFair(s: Service, e: Event)
    requires AllFair(s.rooms)
    requires e.Loaded? ==> FairRecord(e.checkpoint)
    ensures AllFair(ServiceAfter(s, e).rooms)
  {
    hide Fair, FairRecord, AfterHandleJoin, AfterHandleLeave, AfterHandleTick, AfterSweep;
    hide ResumeOutcome, AfterResume, AfterGoOffline, SubmitOutcome, BindOutcome, DetachOutcome;
    match e
    case JoinFrame(c, k, name, token) => JoinKeepsFair(s, c, k, name, token);
    case LeaveFrame(c) => LeaveKeepsFair(s, c);
    case TickDue(n) => TicksKeepFair(s, n);
    case SweepDue(now) => SweepKeepsFair(s, now);
    case Loaded(c, deadline) =>
      if RoomsAcceptable(c.rooms) {
        RestoredAllFairIff(c);
      }
      hide RestoredRooms, RoomsAcceptable, IdentitiesMatch, ValidSessionKeys, FairRoom;
    case _ =>
  }

  ghost predicate NoLoads(events: seq<Event>) {
    forall e :: e in events ==> !e.Loaded?
  }

  lemma {:induction false} RunKeepsFair(w: World, events: seq<Event>)
    requires AllFair(w.service.rooms) && NoLoads(events)
    ensures AllFair(Run(w, events).service.rooms)
  {
    if events != [] {
      RunKeepsFair(w, events[..|events| - 1]);
      hide AllFair, ServiceAfter, Possible;
      EventKeepsFair(Run(w, events[..|events| - 1]).service, events[|events| - 1]);
    }
  }

  // ---------------------------------------------------------------- an unfair room is lost to one player

  /** The order that makes a connected player's room queue `c`. */
  function OrderOf(c: Command): Order {
    match c
    case Move(_, dx, dy) => MoveOrder(dx, dy)
    case Attack(_, target) => AttackOrder(target)
  }

  /** One command for each tick. */
  function Orders(conn: Conn, commands: seq<Command>): seq<Event> {
    if commands == [] then []
    else Orders(conn, commands[..|commands| - 1]) + [OrderFrame(conn, OrderOf(commands[|commands| - 1])), TickDue(1)]
  }

  /** Player `q` of the running room `k` is on `conn`, and nobody has queued anything. */
  ghost predicate Plays(s: Service, conn: Conn, k: u32, q: u64) {
    && Known(s, conn) && SessionOf(s, conn).roomId == k && SessionOf(s, conn).playerId == q
    && s.rooms[k].phase == Running && s.rooms[k].pending == []
  }

  lemma OneOrder(s: Service, conn: Conn, k: u32, q: u64, c: Command)
    requires Plays(s, conn, k, q) && c.player == q
    ensures var t := AfterHandleTick(AfterHandleOrder(s, conn, OrderOf(c)), 1);
            Plays(t, conn, k, q) && t.rooms[k].players == Applied(s.rooms[k].players, c)
  {
    hide AfterTick, AfterSubmit, Applied, Settle;
    OrderQueues(s, conn, k, q, c);
    hide AfterHandleOrder, Known, OrderOf;
    var t := AfterHandleTick(SetRoom(s, k, AfterSubmit(s.rooms[k], c)), 1);
    assert t.table == s.table && k in t.rooms && t.rooms[k] == AfterTick(AfterSubmit(s.rooms[k], c));
    hide AfterHandleTick;
    QueuedAndTicked(s.rooms[k], c);
    StillPlays(s, t, conn, k, q);
  }

  lemma OrderQueues(s: Service, conn: Conn, k: u32, q: u64, c: Command)
    requires Plays(s, conn, k, q) && c.player == q
    ensures k in s.rooms && q in s.rooms[k].members
    ensures AfterHandleOrder(s, conn, OrderOf(c)) == SetRoom(s, k, AfterSubmit(s.rooms[k], c))
  {
    hide AfterSubmit;
    assert CommandOf(q, OrderOf(c)) == c;
  }

  lemma StillPlays(s: Service, t: Service, conn: Conn, k: u32, q: u64)
    requires Plays(s, conn, k, q) && t.table == s.table && k in s.rooms && k in t.rooms
    requires t.rooms[k].members == s.rooms[k].members && t.rooms[k].phase == Running && t.rooms[k].pending == []
    ensures Plays(t, conn, k, q)
  {
  }

  lemma QueuedAndTicked(r: RoomState, c: Command)
    requires r.phase == Running && r.pending == [] && c.player in r.members
    ensures var t := AfterTick(AfterSubmit(r, c));
            t.members == r.members && t.phase == Running && t.pending == [] && t.players == Applied(r.players, c)
  {
    SettleNothing(r.players);
    SettleOneMore(r.players, [c], 0);
    hide Applied, Settle;
    assert [c][..0] == [] && [c][..1] == [c];
    assert AfterSubmit(r, c).pending == [c];
  }

  lemma {:induction false} OrdersSettle(w: World, conn: Conn, k: u32, q: u64, commands: seq<Command>)
    requires conn in w.open && Plays(w.service, conn, k, q) && forall c :: c in commands ==> c.player == q
    ensures NoLoads(Orders(conn, commands))
    ensures var t := Run(w, Orders(conn, commands));
            t.open == w.open && Plays(t.service, conn, k, q)
            && t.service.rooms[k].players == Settle(w.service.rooms[k].players, commands).players
  {
    var players := w.service.rooms[k].players;
    hide Plays, Applied, OrderOf, AfterHandleTick, AfterHandleOrder;
    if commands == [] {
      SettleNothing(players);
      hide Settle;
    } else {
      var front, c := commands[..|commands| - 1], commands[|commands| - 1];
      OrdersSettle(w, conn, k, q, front);
      hide Run, Settle, After, Orders;
      OrderRuns(w, conn, Orders(conn, front), OrderOf(c));
      OneOrder(Run(w, Orders(conn, front)).service, conn, k, q, c);
      SettleOneMore(players, commands, |front|);
      OrdersMore(conn, commands);
    }
  }

  lemma OrdersMore(conn: Conn, commands: seq<Command>)
    requires commands != []
    ensures var front := commands[..|commands| - 1];
            Orders(conn, commands) == Orders(conn, front) + [OrderFrame(conn, OrderOf(commands[|front|])), TickDue(1)]
    ensures commands[..|commands|] == commands
  {
  }

  lemma OrderRuns(w: World, conn: Conn, events: seq<Event>, order: Order)
    requires conn in Run(w, events).open
    ensures var t := Run(w, events);
            Run(w, events + [OrderFrame(conn, order), TickDue(1)])
              == World(AfterHandleTick(AfterHandleOrder(t.service, conn, order), 1), t.open)
  {
    hide Run, AfterHandleTick, AfterHandleOrder;
    var e := OrderFrame(conn, order);
    ServiceExamples.RunSnoc(w, events, e);
    ServiceExamples.RunSnoc(w, events + [e], TickDue(1));
    assert events + [e, TickDue(1)] == events + [e] + [TickDue(1)];
  }

  lemma {:induction false} RunTwice(w: World, a: seq<Event>, b: seq<Event>)
    ensures Run(Run(w, a), b) == Run(w, a + b)
  {
    if b == [] {
      assert a + b == a;
    } else {
      RunTwice(w, a, b[..|b| - 1]);
      assert (a + b)[..|a + b| - 1] == a + b[..|b| - 1];
      hide After;
    }
  }

  /** A connection address that is not in use. */
  lemma {:induction false} SomeConn(open: set<Conn>) returns (conn: Conn)
    ensures forall c :: c in open ==> c < conn
    decreases |open|
  {
    if open == {} {
      conn := 0;
    } else {
      var c :| c in open;
      var above := SomeConn(open - {c});
      conn := if c < above then above else c + 1;
      assert open == open - {c} + {c};
    }
  }

  /** One living player of an unfair room comes back, hunts another, and drives it below zero. */
  lemma UnfairRoomIsLost(w: World, token: Bytes, k: u32, p: u64, q: u64, deadline: int) returns (events: seq<Event>)
    requires Sound(w) && token in w.service.table.sessions
        && w.service.table.sessions[token] == SessionState(k, q, None, deadline)
    requires k in w.service.rooms && w.service.rooms[k].phase == Running && w.service.rooms[k].pending == []
    requires var players := w.service.rooms[k].players;
             && p in players && q in players && p != q && players[p].hp > 0 && players[q].hp > 0
             && players[p].hp % ATTACK_DAMAGE != 0
    ensures NoLoads(events) && !EverybodyAboveZero(Run(w, events).service.rooms)
  {
    SoundRoom(w, k);
    hide *;
    var conn := SomeConn(w.open);
    var back := Return(conn, token, deadline - 1);
    RunBack(w, conn, token, deadline - 1);
    ComesBack(w, conn, token, k, q, deadline);
    var resumed := World(AfterHandleResume(w.service, conn, token, deadline - 1), w.open + {conn});
    var hunt := PlayerHunts(resumed, conn, k, p, q, w.service.rooms[k].players);
    RunTwice(w, back, hunt);
    events := back + hunt;
    NoLoadsEither(back, hunt);
  }

  /** A connection opens and takes a session up again. */
  function Return(conn: Conn, token: Bytes, now: int): seq<Event> {
    [Opened(conn), ResumeFrame(conn, token, now)]
  }

  lemma NoLoadsEither(a: seq<Event>, b: seq<Event>)
    requires NoLoads(a) && NoLoads(b)
    ensures NoLoads(a + b)
  {
  }

  lemma PlayerHunts(w: World, conn: Conn, k: u32, p: u64, q: u64, players: Players) returns (events: seq<Event>)
    requires conn in w.open && Plays(w.service, conn, k, q) && w.service.rooms[k].players == players && WellFormed(players)
    requires p in players && q in players && p != q && players[p].hp > 0 && players[q].hp > 0
        && players[p].hp % ATTACK_DAMAGE != 0
    ensures NoLoads(events) && !EverybodyAboveZero(Run(w, events).service.rooms)
  {
    var commands := Hunt(players, p, q);
    hide WellFormed, Run, Plays, AboveZero, EverybodyAboveZero, Settle, Orders;
    OrdersSettle(w, conn, k, q, commands);
    events := Orders(conn, commands);
    SomebodyBelowZero(Run(w, events).service, conn, k, q);
  }

  lemma SoundRoom(w: World, k: u32)
    requires Sound(w) && k in w.service.rooms
    ensures WellFormed(w.service.rooms[k].players)
  {
    hide WellFormed, TableConsistent;
  }

  lemma SomebodyBelowZero(s: Service, conn: Conn, k: u32, q: u64)
    requires Plays(s, conn, k, q)
    ensures k in s.rooms && (!AboveZero(s.rooms[k].players) ==> !EverybodyAboveZero(s.rooms))
  {
    hide AboveZero;
  }

  lemma RunBack(w: World, conn: Conn, token: Bytes, now: int)
    requires conn !in w.open
    ensures NoLoads(Return(conn, token, now))
    ensures Run(w, Return(conn, token, now)) == World(AfterHandleResume(w.service, conn, token, now), w.open + {conn})
  {
    var e1, e2 := Opened(conn), ResumeFrame(conn, token, now);
    hide Run, AfterHandleResume;
    ServiceExamples.RunSnoc(w, [], e1);
    ServiceExamples.RunSnoc(w, [e1], e2);
    assert [] + [e1] == [e1] && [e1] + [e2] == [e1, e2];
  }

  lemma ComesBack(w: World, conn: Conn, token: Bytes, k: u32, q: u64, deadline: int)
    requires Sound(w) && conn !in w.open
    requires token in w.service.table.sessions && w.service.table.sessions[token] == SessionState(k, q, None, deadline)
    requires k in w.service.rooms && w.service.rooms[k].phase == Running && w.service.rooms[k].pending == []
    ensures var t := AfterHandleResume(w.service, conn, token, deadline - 1);
            Plays(t, conn, k, q) && t.rooms[k].players == w.service.rooms[k].players
  {
    var s, r := w.service, w.service.rooms[k];
    assert conn !in s.table.bindings;
    hide Consistent, TableConsistent;
    RunningIsSmall(r);
    hide Sound;
    ResumedCanBind(s, conn, token, deadline - 1);
    hide ServiceConsistent;
    BackInRoom(s, conn, token, k, q, deadline);
  }

  lemma BackInRoom(s: Service, conn: Conn, token: Bytes, k: u32, q: u64, deadline: int)
    requires conn !in s.table.bindings && token in s.table.sessions
        && s.table.sessions[token] == SessionState(k, q, None, deadline)
    requires k in s.rooms && s.rooms[k].phase == Running && s.rooms[k].pending == [] && |s.rooms[k].members| <= MAX_LISTED
    requires BindOutcome(s.rooms[k], q) == Bound
    ensures var t := AfterHandleResume(s, conn, token, deadline - 1);
            Plays(t, conn, k, q) && t.rooms[k].players == s.rooms[k].players
  {
    assert ResumeAccepted(s, conn, token, deadline - 1);
    var t := AfterHandleResume(s, conn, token, deadline - 1);
    assert t.rooms[k] == AfterBind(s.rooms[k], q, conn);
    assert SessionOf(t, conn) == SessionState(k, q, Some(conn), deadline);
  }

  lemma RunningIsSmall(r: RoomState)
    requires Consistent(r) && r.phase == Running
    ensures |r.members| <= MAX_LISTED
  {
    assert |r.members| == |r.members.Keys| && |r.players| == |r.players.Keys|;
  }

  /** The room of a record, as a restore leaves it. */
  lemma RestoredRoomOf(c: ServerRecord, i: nat)
    requires RoomsAcceptable(c.rooms) && i < |c.rooms|
    ensures c.rooms[i].roomId in RestoredRooms(c.rooms) && RestoredRooms(c.rooms)[c.rooms[i].roomId] == RestoredRoom(c.rooms[i])
  {
    hide Acceptable, RestoredRoom, Table;
    TableFinds(c.rooms, RoomKey, i);
  }

  lemma RestoredPlayer(c: RoomRecord, a: nat)
    requires Acceptable(c) && a < |c.players|
    ensures c.players[a].id in RestoredRoom(c).players && RestoredRoom(c).players[c.players[a].id] == c.players[a]
  {
    hide Table;
    TableFinds(c.players, PlayerId, a);
  }

  /** Every player of a restored running room has a session that waits until the deadline. */
  lemma RestoredTicket(w: World, c: ServerRecord, deadline: int, k: u32, q: u64) returns (token: Bytes)
    requires Sound(w) && w.service.table == RestoredTable(c.sessions, deadline)
    requires k in w.service.rooms && w.service.rooms[k].phase == Running && q in w.service.rooms[k].players
    ensures token in w.service.table.sessions && w.service.table.sessions[token] == SessionState(k, q, None, deadline)
  {
    ConsistentFacts(w.service.rooms[k]);
    hide Consistent, TableConsistent;
    assert HasSession(w.service.table.sessions, k, q);
    token :| token in w.service.table.sessions && w.service.table.sessions[token].roomId == k
             && w.service.table.sessions[token].playerId == q;
  }

  lemma UnfairRowsAreLost(w: World, c: ServerRecord, deadline: int, i: nat) returns (events: seq<Event>)
    requires Sound(w) && w.service == Service(RestoredRooms(c.rooms), RestoredTable(c.sessions, deadline))
    requires RoomsAcceptable(c.rooms) && i < |c.rooms| && c.rooms[i].phase == Running && !FairRows(c.rooms[i].players)
    ensures NoLoads(events) && !EverybodyAboveZero(Run(w, events).service.rooms)
  {
    var row := c.rooms[i];
    var a, b :| 0 <= a < |row.players| && 0 <= b < |row.players| && a != b && row.players[a].hp > 0 && row.players[b].hp > 0
                && row.players[a].hp % ATTACK_DAMAGE != 0;
    var k, p, q := row.roomId, row.players[a].id, row.players[b].id;
    RestoredRoomOf(c, i);
    RestoredPlayer(row, a);
    RestoredPlayer(row, b);
    assert p != q;
    hide Sound, RestoredRooms, RestoredTable, RoomsAcceptable, Run, FairRows;
    var token := RestoredTicket(w, c, deadline, k, q);
    events := UnfairRoomIsLost(w, token, k, p, q, deadline);
  }

  // ---------------------------------------------------------------- exactly the fair checkpoints

  /** Whatever happens until the next load, nobody is below zero. */
  ghost predicate StaysAboveZero(w: World) {
    forall events :: NoLoads(events) ==> EverybodyAboveZero(Run(w, events).service.rooms)
  }

  /**
   Of the checkpoints a server takes, exactly the fair ones keep everybody at zero or above in every
   run until the next load: in each running room, living players are alone or have tens of hit points.
   */
  lemma LoadedStaysAboveZeroIff(w: World, c: ServerRecord, deadline: int)
    requires Sound(w) && ValidKeys(c) && RestoreOutcome(w.service, c, deadline).0
    ensures StaysAboveZero(After(w, Loaded(c, deadline))) <==> FairRecord(c)
  {
    var loaded := After(w, Loaded(c, deadline));
    AfterKeepsSound(w, Loaded(c, deadline));
    LoadedRooms(w, c, deadline);
    RestoredAllFairIff(c);
    hide FairRecord, Run, After, Sound, RestoredRooms, RestoredTable, RoomsAcceptable, AllFair, EverybodyAboveZero;
    hide NoLoads;
    if FairRecord(c) {
      forall events | NoLoads(events) ensures EverybodyAboveZero(Run(loaded, events).service.rooms) {
        RunKeepsFair(loaded, events);
        FairIsAboveZero(Run(loaded, events).service.rooms);
      }
    } else {
      var i := UnfairRow(c);
      var events := UnfairRowsAreLost(loaded, c, deadline, i);
    }
  }

  lemma LoadedRooms(w: World, c: ServerRecord, deadline: int)
    requires ValidKeys(c) && RestoreOutcome(w.service, c, deadline).0
    ensures RoomsAcceptable(c.rooms)
    ensures After(w, Loaded(c, deadline)).service == Service(RestoredRooms(c.rooms), RestoredTable(c.sessions, deadline))
  {
    hide RoomsAcceptable, IdentitiesMatch, ValidSessionKeys, RestoredRooms, RestoredTable;
  }

  lemma FairIsAboveZero(rooms: map<u32, RoomState>)
    requires AllFair(rooms)
    ensures EverybodyAboveZero(rooms)
  {
    hide AboveZero, Fair;
  }

  lemma UnfairRow(c: ServerRecord) returns (i: nat)
    requires !FairRecord(c)
    ensures i < |c.rooms| && c.rooms[i].phase == Running && !FairRows(c.rooms[i].players)
  {
    hide FairRows;
    i :| i < |c.rooms| && c.rooms[i].phase == Running && !FairRows(c.rooms[i].players);
  }

  /** Whatever happens until the next load, every checkpoint the server writes would be taken by every server. */
  ghost predicate StaysRestorable(w: World) {
    forall events, generation: u64, target: Service, until: int :: NoLoads(events) && generation != 0 ==>
      RestoreOutcome(target, CheckpointOf(Run(w, events).service, generation), until).0
  }

  lemma RestorableIffAboveZero(w: World)
    requires Sound(w)
    ensures StaysRestorable(w) <==> StaysAboveZero(w)
  {
    hide Run, Sound, NoLoads, EverybodyAboveZero, RestoreOutcome, CheckpointOf;
    forall events, generation: u64, target: Service, until: int | generation != 0
      ensures RestoreOutcome(target, CheckpointOf(Run(w, events).service, generation), until).0
         <==> EverybodyAboveZero(Run(w, events).service.rooms)
    {
      WrittenIsTakenIff(Run(w, events), generation, target, until) by { RunKeepsSound(w, events); }
    }
    forall events ensures EverybodyAboveZero(Run(w, events).service.rooms)
                     <==> RestoreOutcome(FRESH.service, CheckpointOf(Run(w, events).service, 1), 0).0 {
    }
  }

  lemma WrittenIsTakenIff(w: World, generation: u64, target: Service, until: int)
    requires Sound(w) && generation != 0
    ensures RestoreOutcome(target, CheckpointOf(w.service, generation), until).0 <==> EverybodyAboveZero(w.service.rooms)
  {
    ServerRoundTrip(w.service, generation, target, until);
    hide RestoreOutcome, CheckpointOf, ServiceConsistent, EverybodyAboveZero;
  }

  /** So a server that takes a checkpoint goes on to write only checkpoints that are taken exactly when it was fair. */
  lemma LoadedStaysRestorableIff(w: World, c: ServerRecord, deadline: int)
    requires Sound(w) && ValidKeys(c) && RestoreOutcome(w.service, c, deadline).0
    ensures StaysRestorable(After(w, Loaded(c, deadline))) <==> FairRecord(c)
  {
    LoadedStaysAboveZeroIff(w, c, deadline);
    AfterKeepsSound(w, Loaded(c, deadline));
    hide *;
    RestorableIffAboveZero(After(w, Loaded(c, deadline)));
  }
}
