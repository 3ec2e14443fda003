/**
 Rooms that can never start: the field has places for 101 players, a room may be declared for
 more, and the join that fills it is then rolled back. And rooms that are too big to describe.
 */
module RoomCapacity {
  import opened Common
  import opened Ordering
  import opened GameState
  import opened Checkpoint
  import opened Tick
  import opened RoomModel
  import opened SessionModel
  import opened ServiceModel
  import opened ServiceProofs
  import opened ServiceCheckpoint
  import opened ServiceGuarantees
  import ServiceExamples

  /** Somebody could take the last free place: the name and the token are fine, and the room is one short. */
  predicate LastPlace(s: Service, conn: Conn, k: u32, name: Bytes, token: Option<Bytes>) {
    && conn !in s.table.bindings && k in s.rooms && JoinOutcome(s.rooms[k], name) == Joined
    && CreateOutcome(s.table, conn, token) == SessionStatus.Success
    && |s.rooms[k].members| + 1 == s.rooms[k].capacity
  }

  /** The join that would fill the room succeeds, and the room starts, exactly when the field has a place for everybody. */
  lemma LastJoinStartsIff(s: Service, conn: Conn, k: u32, name: Bytes, token: Option<Bytes>)
    requires ServiceConsistent(s) && LastPlace(s, conn, k, name, token)
    ensures JoinResult(s, conn, k, name, token) == Accepted <==> s.rooms[k].capacity <= MAX_PLAYERS
    ensures AfterHandleJoin(s, conn, k, name, token).rooms[k].phase == Running <==> s.rooms[k].capacity <= MAX_PLAYERS
    ensures s.rooms[k].capacity > MAX_PLAYERS ==>
              AfterHandleJoin(s, conn, k, name, token).rooms[k] == s.rooms[k].(nextId := Next64(s.rooms[k].nextId))
  {
    LastJoinIs(s, conn, k, name, token);
    assert Consistent(s.rooms[k]);
    hide ServiceConsistent, JoinResult, AfterHandleJoin, SeatAndStart;
    FreshId(s.rooms[k], name);
    SeatFillsRoom(s.rooms[k], conn, name);
    hide JoinOutcome, CreateOutcome;
  }

  lemma LastJoinIs(s: Service, conn: Conn, k: u32, name: Bytes, token: Option<Bytes>)
    requires LastPlace(s, conn, k, name, token)
    ensures JoinResult(s, conn, k, name, token) == if s.rooms[k].capacity <= MAX_PLAYERS then Accepted else RolledBack
    ensures k in AfterHandleJoin(s, conn, k, name, token).rooms
    ensures AfterHandleJoin(s, conn, k, name, token).rooms[k]
         == if s.rooms[k].capacity <= MAX_PLAYERS then SeatAndStart(s.rooms[k], conn, name)
            else s.rooms[k].(nextId := Next64(s.rooms[k].nextId))
    ensures s.rooms[k].phase == Waiting
  {
    hide SeatAndStart, AfterCreate, CreateOutcome;
  }

  lemma FreshId(r: RoomState, name: Bytes)
    requires Consistent(r) && JoinOutcome(r, name) == Joined
    ensures r.nextId !in r.members
  {
  }

  lemma SeatFillsRoom(r: RoomState, conn: Conn, name: Bytes)
    requires JoinOutcome(r, name) == Joined && r.nextId !in r.members
    ensures SeatAndStart(r, conn, name).capacity == r.capacity
    ensures SeatAndStart(r, conn, name).phase == Running <==> |r.members| + 1 == r.capacity && r.capacity <= MAX_PLAYERS
    ensures SeatAndStart(r, conn, name).phase != Running ==> SeatAndStart(r, conn, name).phase == Waiting
  {
    assert |AfterJoin(r, conn, name).members| == |r.members| + 1;
    hide StartingLine;
  }

  // ---------------------------------------------------------------- over whole runs

  /** A room for more than 101 players has not started. */
  predicate BigWaits(capacity: u64, phase: Phase) {
    capacity > MAX_PLAYERS ==> phase == Waiting
  }

  ghost predicate BigRoomsWait(rooms: map<u32, RoomState>) {
    forall k :: k in rooms ==> BigWaits(rooms[k].capacity, rooms[k].phase)
  }

  ghost predicate BigRecordsWait(c: ServerRecord) {
    forall i :: 0 <= i < |c.rooms| ==> BigWaits(c.rooms[i].capacity, c.rooms[i].phase)
  }

  lemma SeatKeepsBigWaiting(r: RoomState, conn: Conn, name: Bytes)
    requires BigWaits(r.capacity, r.phase) && JoinOutcome(r, name) == Joined && !StartFails(|r.members| + 1, r.capacity)
    ensures BigWaits(SeatAndStart(r, conn, name).capacity, SeatAndStart(r, conn, name).phase)
  {
    assert |AfterJoin(r, conn, name).members| <= |r.members| + 1;
    hide StartingLine;
  }

  lemma JoinKeepsBigWaiting(s: Service, conn: Conn, k: u32, name: Bytes, token: Option<Bytes>)
    requires BigRoomsWait(s.rooms)
    ensures BigRoomsWait(AfterHandleJoin(s, conn, k, name, token).rooms)
  {
    hide SeatAndStart, StartFails, JoinOutcome, CreateOutcome, AfterCreate;
    if JoinResult(s, conn, k, name, token) == Accepted {
      SeatKeepsBigWaiting(s.rooms[k], conn, name);
    }
    hide BigWaits, JoinResult;
  }

  /** A checkpoint that is taken brings a started big room exactly when it has one. */
  lemma LoadedBigWaitingIff(s: Service, c: ServerRecord, deadline: int)
    requires RestoreOutcome(s, c, deadline).0
    ensures BigRoomsWait(RestoreOutcome(s, c, deadline).1.rooms) <==> BigRecordsWait(c)
  {
    var records := Table(c.rooms, RoomKey);
    TableEntries(c.rooms, RoomKey);
    hide BigWaits, Table, IdentitiesMatch, Acceptable, ValidSessionKeys;
    assert forall k :: k in records ==> records[k] in c.rooms;
    forall i | 0 <= i < |c.rooms| ensures c.rooms[i].roomId in records && records[c.rooms[i].roomId] == c.rooms[i] {
      TableFinds(c.rooms, RoomKey, i);
    }
    var rooms := RestoredRooms(c.rooms);
    assert forall k :: k in records ==>
        k in rooms && rooms[k].capacity == records[k].capacity && rooms[k].phase == records[k].phase;
    hide RestoredRooms;
  }

  lemma LoadKeepsBigWaiting(s: Service, c: ServerRecord, deadline: int)
    requires BigRoomsWait(s.rooms) && BigRecordsWait(c)
    ensures BigRoomsWait(RestoreOutcome(s, c, deadline).1.rooms)
  {
    var records := Table(c.rooms, RoomKey);
    TableEntries(c.rooms, RoomKey);
    hide BigWaits, Table, IdentitiesMatch, RoomsAcceptable, ValidSessionKeys;
    forall k | k in records ensures BigWaits(records[k].capacity, records[k].phase) {
      assert records[k] in c.rooms;
    }
  }

  /** Nothing but a load of a foreign checkpoint brings a started big room into the server. */
  lemma EventKeepsBigWaiting(s: Service, e: Event)
    requires BigRoomsWait(s.rooms)
    requires e.Loaded? ==> BigRecordsWait(e.checkpoint)
    ensures BigRoomsWait(ServiceAfter(s, e).rooms)
  {
    hide AfterHandleJoin, RestoreOutcome, ResumeOutcome, AfterResume, AfterGoOffline, AfterEraseByConnection;
    hide ExpiredTokens, Gone, Settle, SubmitOutcome, BindOutcome, DetachOutcome;
    match e
    case JoinFrame(c, k, name, token) => JoinKeepsBigWaiting(s, c, k, name, token);
    case Loaded(c, deadline) => LoadKeepsBigWaiting(s, c, deadline);
    case _ =>
  }

  lemma {:induction false} RunKeepsBigWaiting(w: World, events: seq<Event>)
    requires BigRoomsWait(w.service.rooms)
    requires forall e :: e in events && e.Loaded? ==> BigRecordsWait(e.checkpoint)
    ensures BigRoomsWait(Run(w, events).service.rooms)
  {
    if events != [] {
      RunKeepsBigWaiting(w, events[..|events| - 1]);
      hide BigRoomsWait, ServiceAfter, Possible, BigRecordsWait;
      EventKeepsBigWaiting(Run(w, events[..|events| - 1]).service, events[|events| - 1]);
    }
  }

  lemma OwnBigRecordsWait(s: Service, generation: u64)
    requires RoomsConsistent(s.rooms) && BigRoomsWait(s.rooms)
    ensures BigRecordsWait(CheckpointOf(s, generation))
  {
    var c := CheckpointOf(s, generation);
    RoomRowsFacts(s.rooms);
    hide RoomRows, Consistent, SessionRows, BigWaits;
    forall i | 0 <= i < |c.rooms| ensures BigWaits(c.rooms[i].capacity, c.rooms[i].phase) {
      assert c.rooms[i] == RecordOf(s.rooms[c.rooms[i].roomId]);
    }
  }

  lemma {:induction false} WrittenBigRecordsWait(c: ServerRecord, generations: nat)
    requires Written(c, generations)
    ensures BigRecordsWait(c)
    decreases generations, 0
  {
    hide CheckpointOf, BigRecordsWait, BigRoomsWait, RoomsConsistent, TableConsistent, SessionsSeated;
    hide EveryMemberHasSession, IdentitiesUnique;
    var events: seq<Event> :|
      && c == CheckpointOf(Run(FRESH, events).service, c.generation)
      && forall e :: e in events && e.Loaded? ==> Written(e.checkpoint, generations - 1);
    BigRoomsNeverStart(events, generations - 1);
    FreshIsSound();
    RunKeepsSound(FRESH, events);
    OwnBigRecordsWait(Run(FRESH, events).service, c.generation);
  }

  /** In a line of servers that load only what the line has written, no room for more than 101 players ever starts. */
  lemma {:induction false} BigRoomsNeverStart(events: seq<Event>, generations: nat)
    requires forall e :: e in events && e.Loaded? ==> Written(e.checkpoint, generations)
    ensures BigRoomsWait(Run(FRESH, events).service.rooms)
    decreases generations, 1
  {
    hide Written, BigRecordsWait;
    forall e | e in events && e.Loaded? ensures BigRecordsWait(e.checkpoint) {
      WrittenBigRecordsWait(e.checkpoint, generations);
    }
    RunKeepsBigWaiting(FRESH, events);
    hide *;
  }

  // ---------------------------------------------------------------- filling a room

  function HexDigit(d: nat): byte
    requires d < 16
  {
    if d < 10 then '0' as int + d else 'a' as int + d - 10
  }

  /** More than a room can ever hold. */
  const CROWD := 0x10_0000

  /** A token for each number below `CROWD`: five digits and twenty-seven zeros. */
  function TokenOf(n: nat): Bytes
    requires n < CROWD
  {
    [HexDigit(n / 65536), HexDigit(n / 4096 % 16), HexDigit(n / 256 % 16), HexDigit(n / 16 % 16), HexDigit(n % 16)]
      + seq(SESSION_TOKEN_SIZE - 5, _ => '0' as int)
  }

  lemma TokensAreFit(m: nat, n: nat)
    requires m < CROWD && n < CROWD
    ensures ValidToken(TokenOf(n)) && (TokenOf(m) == TokenOf(n) ==> m == n)
  {
    var s, t := TokenOf(m), TokenOf(n);
    assert s[0] == HexDigit(m / 65536) && s[1] == HexDigit(m / 4096 % 16) && s[2] == HexDigit(m / 256 % 16);
    assert s[3] == HexDigit(m / 16 % 16) && s[4] == HexDigit(m % 16);
    assert t[0] == HexDigit(n / 65536) && t[1] == HexDigit(n / 4096 % 16) && t[2] == HexDigit(n / 256 % 16);
    assert t[3] == HexDigit(n / 16 % 16) && t[4] == HexDigit(n % 16);
    if s == t {
      SameDigits(m, n);
    }
  }

  lemma SameDigits(m: nat, n: nat)
    requires m / 65536 == n / 65536 && m / 4096 % 16 == n / 4096 % 16 && m / 256 % 16 == n / 256 % 16
    requires m / 16 % 16 == n / 16 % 16 && m % 16 == n % 16
    ensures m == n
  {
    FourDigits(m);
    FourDigits(n);
  }

  lemma FourDigits(n: nat)
    ensures n == n / 65536 * 65536 + n / 4096 % 16 * 4096 + n / 256 % 16 * 256 + n / 16 % 16 * 16 + n % 16
  {
    assert n / 65536 == n / 4096 / 16 && n / 4096 == n / 256 / 16 && n / 256 == n / 16 / 16;
  }

  predicate HasGathered(r: RoomState, capacity: u64, n: nat) {
    r.capacity == capacity && r.phase == Waiting && |r.members| == n && r.nextId == n + 1
  }

  /** Neither the connections nor the tokens above `n` are in use. */
  ghost predicate Untaken(open: set<Conn>, table: SessionTable, n: nat) {
    forall i: nat :: n < i < CROWD ==> i !in open && i !in table.bindings && TokenOf(i) !in table.sessions
  }

  lemma OneMoreTaken(open: set<Conn>, before: SessionTable, after: SessionTable, n: Conn)
    requires 0 < n < CROWD && Untaken(open, before, n - 1)
    requires after.bindings == before.bindings[n := TokenOf(n)] && after.sessions.Keys == before.sessions.Keys + {TokenOf(n)}
    ensures Untaken(open + {n}, after, n)
  {
    forall i: nat | n < i < CROWD ensures i !in open + {n} && i !in after.bindings && TokenOf(i) !in after.sessions {
      TokensAreFit(i, n);
    }
  }

  lemma NextIsUntaken(open: set<Conn>, table: SessionTable, n: Conn)
    requires 0 < n < CROWD && Untaken(open, table, n - 1)
    ensures n !in open && n !in table.bindings && TokenOf(n) !in table.sessions
  {
  }

  /** The first of them is on connection 1. */
  predicate FirstSeat(table: SessionTable) {
    && 1 in table.bindings && table.bindings[1] == TokenOf(1)
    && TokenOf(1) in table.sessions && table.sessions[TokenOf(1)].roomId == 1
  }

  lemma FirstSeatStays(before: SessionTable, after: SessionTable, n: Conn)
    requires 0 < n < CROWD && (n > 1 ==> FirstSeat(before))
    requires after.bindings == before.bindings[n := TokenOf(n)]
    requires after.sessions == before.sessions[TokenOf(n) := SessionState(1, n, Some(n), 0)]
    ensures FirstSeat(after)
  {
    TokensAreFit(1, n);
    hide TokenOf;
  }

  /** Players 1 to `n` sit in room 1, each on the connection and the session of that number. */
  ghost predicate Gathered(w: World, capacity: u64, n: nat) {
    && 1 in w.service.rooms && HasGathered(w.service.rooms[1], capacity, n) && Untaken(w.open, w.service.table, n)
    && (n > 0 ==> FirstSeat(w.service.table))
  }

  /** A connection opens and asks to join room 1. */
  function Arrival(n: nat): seq<Event>
    requires n < CROWD
  {
    [Opened(n), JoinFrame(n, 1, [65], Some(TokenOf(n)))]
  }

  lemma ArrivalRuns(w: World, events: seq<Event>, n: nat)
    requires n < CROWD && n !in Run(w, events).open
    ensures var u := Run(w, events);
            Run(w, events + Arrival(n)) == World(AfterHandleJoin(u.service, n, 1, [65], Some(TokenOf(n))), u.open + {n})
  {
    TokensAreFit(n, n);
    hide TokenOf, ValidToken, Run, AfterHandleJoin;
    ServiceExamples.RunSnoc(w, events, Opened(n));
    ServiceExamples.RunSnoc(w, events + [Opened(n)], JoinFrame(n, 1, [65], Some(TokenOf(n))));
    assert events + Arrival(n) == events + [Opened(n)] + [JoinFrame(n, 1, [65], Some(TokenOf(n)))];
  }

  lemma SeatedWaits(r: RoomState, capacity: u64, n: u64)
    requires 0 < n < capacity && n < CROWD && Consistent(r) && HasGathered(r, capacity, n - 1)
    ensures JoinOutcome(r, [65]) == Joined && HasGathered(AfterJoin(r, n, [65]), capacity, n)
    ensures SeatAndStart(r, n, [65]) == AfterJoin(r, n, [65])
  {
    ConsistentFacts(r);
    assert NameFits([65]) && r.nextId !in r.members;
    hide Consistent;
  }

  lemma OpenJoin(s: Service, conn: Conn, k: u32, name: Bytes, token: Bytes)
    requires k in s.rooms && JoinOutcome(s.rooms[k], name) == Joined && |s.rooms[k].members| + 1 < s.rooms[k].capacity
    requires conn !in s.table.bindings && token !in s.table.sessions && |s.rooms[k].members| <= MAX_LISTED
    requires SeatAndStart(s.rooms[k], conn, name) == AfterJoin(s.rooms[k], conn, name)
    ensures var t := AfterHandleJoin(s, conn, k, name, Some(token));
            && t.rooms == s.rooms[k := AfterJoin(s.rooms[k], conn, name)]
            && t.table.bindings == s.table.bindings[conn := token]
            && t.table.sessions == s.table.sessions[token := SessionState(k, s.rooms[k].nextId, Some(conn), 0)]
  {
    hide SeatAndStart, AfterJoin, JoinOutcome;
  }

  lemma GatheredSeat(s: Service, capacity: u64, n: Conn)
    requires ServiceConsistent(s) && 1 in s.rooms && 0 < n < capacity && n <= MAX_LISTED + 1
        && HasGathered(s.rooms[1], capacity, n - 1)
    requires n !in s.table.bindings && TokenOf(n) !in s.table.sessions
    ensures var t := AfterHandleJoin(s, n, 1, [65], Some(TokenOf(n)));
            && 1 in t.rooms && HasGathered(t.rooms[1], capacity, n)
            && t.table.bindings == s.table.bindings[n := TokenOf(n)]
            && t.table.sessions == s.table.sessions[TokenOf(n) := SessionState(1, n, Some(n), 0)]
  {
    var r := s.rooms[1];
    SeatedWaits(r, capacity, n);
    assert |r.members| + 1 < r.capacity && |r.members| <= MAX_LISTED && r.nextId == n;
    hide *;
    OpenJoin(s, n, 1, [65], TokenOf(n));
  }

  lemma OneMoreGathered(w: World, capacity: u64, n: Conn)
    requires Sound(w) && 0 < n <= MAX_LISTED + 1 && Gathered(w, capacity, n - 1) && n < capacity
    ensures Gathered(World(AfterHandleJoin(w.service, n, 1, [65], Some(TokenOf(n))), w.open + {n}), capacity, n)
  {
    NextIsUntaken(w.open, w.service.table, n);
    hide ServiceConsistent, TokenOf, AfterHandleJoin, Untaken, HasGathered, FirstSeat;
    GatheredSeat(w.service, capacity, n);
    NowGathered(w, AfterHandleJoin(w.service, n, 1, [65], Some(TokenOf(n))), capacity, n);
  }

  lemma NowGathered(w: World, t: Service, capacity: u64, n: Conn)
    requires 0 < n < CROWD && Gathered(w, capacity, n - 1) && 1 in t.rooms && HasGathered(t.rooms[1], capacity, n)
    requires t.table.bindings == w.service.table.bindings[n := TokenOf(n)]
    requires t.table.sessions == w.service.table.sessions[TokenOf(n) := SessionState(1, n, Some(n), 0)]
    ensures Gathered(World(t, w.open + {n}), capacity, n)
  {
    hide TokenOf, Untaken, HasGathered, FirstSeat;
    FirstSeatStays(w.service.table, t.table, n);
    OneMoreTaken(w.open, w.service.table, t.table, n);
  }

  /** Everybody but the last player joins. */
  lemma {:induction false} Gather(capacity: u64, n: nat) returns (events: seq<Event>)
    requires n < capacity && n <= MAX_LISTED + 1
    ensures Sound(Run(FRESH, events)) && Gathered(Run(FRESH, events), capacity, n)
  {
    FreshIsSound();
    if n == 0 {
      events := [RoomAdded(1, capacity)];
      RunKeepsSound(FRESH, events);
      ServiceExamples.RunSnoc(FRESH, [], RoomAdded(1, capacity));
      hide Run, Sound;
      assert [] + [RoomAdded(1, capacity)] == events;
    } else {
      var before := Gather(capacity, n - 1);
      events := before + Arrival(n);
      RunKeepsSound(FRESH, events);
      hide Run, AfterHandleJoin, Untaken, FirstSeat;
      NextIsUntaken(Run(FRESH, before).open, Run(FRESH, before).service.table, n);
      ArrivalRuns(FRESH, before, n);
      OneMoreGathered(Run(FRESH, before), capacity, n);
    }
  }

  /**
   For every capacity a room can be filled to, a server can be brought to one player short of a full room, and the
   join that fills it starts the room exactly up to 101: at 102 it is rolled back, the room still waiting.
   */
  lemma FilledRoomStartsIff(capacity: u64) returns (events: seq<Event>, last: JoinVerdict)
    requires 0 < capacity <= MAX_LISTED + 2
    ensures 1 in Run(FRESH, events).service.rooms && |Run(FRESH, events).service.rooms[1].members| == capacity - 1
    ensures last == JoinResult(Run(FRESH, events).service, capacity, 1, [65], Some(TokenOf(capacity)))
    ensures capacity <= MAX_PLAYERS ==>
              last == Accepted && 1 in Run(FRESH, events + Arrival(capacity)).service.rooms
              && Run(FRESH, events + Arrival(capacity)).service.rooms[1].phase == Running
    ensures capacity > MAX_PLAYERS ==>
              last == RolledBack && 1 in Run(FRESH, events + Arrival(capacity)).service.rooms
              && Run(FRESH, events + Arrival(capacity)).service.rooms[1].phase == Waiting
  {
    events := Gather(capacity, capacity - 1);
    hide Run;
    NextIsUntaken(Run(FRESH, events).open, Run(FRESH, events).service.table, capacity);
    var s := Run(FRESH, events).service;
    last := JoinResult(s, capacity, 1, [65], Some(TokenOf(capacity)));
    ArrivalRuns(FRESH, events, capacity);
    hide TokenOf, JoinResult, AfterHandleJoin, ServiceConsistent;
    assert LastPlace(s, capacity, 1, [65], Some(TokenOf(capacity)));
    LastJoinStartsIff(s, capacity, 1, [65], Some(TokenOf(capacity)));
    LastJoinVerdict(s, capacity, 1, [65], Some(TokenOf(capacity)));
  }

  lemma LastJoinVerdict(s: Service, conn: Conn, k: u32, name: Bytes, token: Option<Bytes>)
    requires LastPlace(s, conn, k, name, token)
    ensures JoinResult(s, conn, k, name, token) != Refused && k in AfterHandleJoin(s, conn, k, name, token).rooms
  {
    hide SeatAndStart, AfterCreate, CreateOutcome, JoinOutcome;
  }

  // ---------------------------------------------------------------- a room too big to describe

  /**
   With 65536 members a room is too big for the reply to a resume: an offline session whose deadline has
   not come is then neither taken back nor swept.
   */
  lemma NeitherResumedNorSwept(deadline: int, now: int) returns (events: seq<Event>, token: Bytes, conn: Conn)
    requires now < deadline
    ensures var w := Run(FRESH, events);
            && Sound(w) && conn in w.open && conn !in w.service.table.bindings
            && token in w.service.table.sessions && w.service.table.sessions[token].conn.None?
            && now < w.service.table.sessions[token].deadline
            && !ResumeAccepted(w.service, conn, token, now)
            && token in AfterSweep(w.service, now).table.sessions
  {
    var joins := Gather(0x2_0000, MAX_LISTED + 1);
    token, conn := TokenOf(1), MAX_LISTED + 2;
    events := joins + [ClosedNotice(1, deadline)] + [Opened(conn)];
    FreshIsSound();
    RunKeepsSound(FRESH, events);
    CloseAndOpen(joins, deadline, conn);
    hide *;
    LeftAlone(Run(FRESH, events), conn, token, now);
  }

  /** The first player's connection closes, and another one opens. */
  lemma CloseAndOpen(joins: seq<Event>, deadline: int, conn: Conn)
    requires Sound(Run(FRESH, joins)) && Gathered(Run(FRESH, joins), 0x2_0000, MAX_LISTED + 1) && conn == MAX_LISTED + 2
    ensures var w := Run(FRESH, joins + [ClosedNotice(1, deadline)] + [Opened(conn)]);
            && conn in w.open && conn !in w.service.table.bindings && TokenOf(1) in w.service.table.sessions
            && var e := w.service.table.sessions[TokenOf(1)];
               && e.conn.None? && e.deadline == deadline && e.roomId in w.service.rooms
               && |w.service.rooms[e.roomId].members| > MAX_LISTED
  {
    var w := Run(FRESH, joins);
    NextIsUntaken(w.open, w.service.table, conn);
    BoundIsOpen(w, 1);
    BigRoomStaysBig(w, deadline, MAX_LISTED + 1);
    hide Run, Sound, Untaken, TokenOf, AfterHandleClosed;
    CloseAndOpenRuns(joins, 1, deadline, conn);
  }

  lemma CloseAndOpenRuns(events: seq<Event>, gone: Conn, deadline: int, conn: Conn)
    requires gone in Run(FRESH, events).open && conn !in Run(FRESH, events).open
    ensures var w := Run(FRESH, events);
            Run(FRESH, events + [ClosedNotice(gone, deadline)] + [Opened(conn)])
              == World(AfterHandleClosed(w.service, gone, deadline), w.open - {gone} + {conn})
  {
    hide Run, AfterHandleClosed;
    ServiceExamples.RunSnoc(FRESH, events, ClosedNotice(gone, deadline));
    ServiceExamples.RunSnoc(FRESH, events + [ClosedNotice(gone, deadline)], Opened(conn));
  }

  lemma BoundIsOpen(w: World, conn: Conn)
    requires Sound(w) && conn in w.service.table.bindings
    ensures conn in w.open
  {
    hide ServiceConsistent;
  }

  lemma BigRoomStaysBig(w: World, deadline: int, n: nat)
    requires Sound(w) && 1 in w.service.rooms && |w.service.rooms[1].members| == n && FirstSeat(w.service.table)
    ensures var s := AfterHandleClosed(w.service, 1, deadline);
            && 1 in s.rooms && |s.rooms[1].members| == n
            && TokenOf(1) in s.table.sessions && s.table.sessions[TokenOf(1)].roomId == 1
            && s.table.sessions[TokenOf(1)].conn.None? && s.table.sessions[TokenOf(1)].deadline == deadline
            && s.table.bindings == w.service.table.bindings - {1}
  {
    BoundIsKnown(w.service, 1);
    hide Sound, TokenOf, ServiceConsistent;
    var s, e := w.service, SessionOf(w.service, 1);
    assert |AfterDetach(s.rooms[1], e.playerId, 1).members| == n by { DetachKeepsCount(s.rooms[1], e.playerId, 1); }
  }

  lemma DetachKeepsCount(r: RoomState, id: u64, conn: Conn)
    ensures |AfterDetach(r, id, conn).members| == |r.members|
  {
    assert AfterDetach(r, id, conn).members.Keys == r.members.Keys;
    assert |r.members| == |r.members.Keys|;
    assert |AfterDetach(r, id, conn).members| == |AfterDetach(r, id, conn).members.Keys|;
  }

  lemma LeftAlone(w: World, conn: Conn, token: Bytes, now: int)
    requires Sound(w) && token in w.service.table.sessions && conn !in w.service.table.bindings
    requires var e := w.service.table.sessions[token];
             && e.conn.None? && now < e.deadline && e.roomId in w.service.rooms
               && |w.service.rooms[e.roomId].members| > MAX_LISTED
    ensures !ResumeAccepted(w.service, conn, token, now) && token in AfterSweep(w.service, now).table.sessions
  {
    ResumeOrSweep(w.service, conn, token, now);
    hide Sound, ServiceConsistent, AfterSweep;
  }
}
