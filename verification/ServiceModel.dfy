/**
 The room service as a transaction system over three tables: rooms, sessions by token and
 bindings by connection. Each operation is given by its outcome; the handlers in
 `RoomServices`, which work step by step with rollbacks, are proved to have these outcomes.
 The environment chooses tokens, clock readings and connections, under two assumptions: a
 connection is not reused while it is open, and no frame of a connection is handled after its
 close notification.
 */
module ServiceModel {
  import opened Common
  import opened Ordering
  import opened GameState
  import opened Checkpoint
  import opened Tick
  import opened RoomModel
  import opened SessionModel

  const MAX_LISTED := 65535

  datatype Service = Service(rooms: map<u32, RoomState>, table: SessionTable)

  // ---------------------------------------------------------------- the three tables agree

  /** The session's player is a member of its room and sits on the same connection. */
  ghost predicate Seated(rooms: map<u32, RoomState>, e: SessionState) {
    && e.roomId in rooms
    && e.playerId in rooms[e.roomId].members
    && rooms[e.roomId].members[e.playerId].conn == e.conn
  }

  ghost predicate HasSession(sessions: map<Bytes, SessionState>, roomId: u32, playerId: u64) {
    exists t :: t in sessions && sessions[t].roomId == roomId && sessions[t].playerId == playerId
  }

  ghost predicate IdentitiesUnique(sessions: map<Bytes, SessionState>) {
    forall t, u | t in sessions && u in sessions ::
      sessions[t].roomId == sessions[u].roomId && sessions[t].playerId == sessions[u].playerId ==> t == u
  }

  ghost predicate RoomsConsistent(rooms: map<u32, RoomState>) {
    forall k :: k in rooms ==> Consistent(rooms[k]) && rooms[k].id == k
  }

  ghost predicate EveryMemberHasSession(rooms: map<u32, RoomState>, sessions: map<Bytes, SessionState>) {
    forall k, p :: k in rooms && p in rooms[k].members ==> HasSession(sessions, k, p)
  }

  ghost predicate SessionsSeated(rooms: map<u32, RoomState>, sessions: map<Bytes, SessionState>) {
    forall t :: t in sessions ==> Seated(rooms, sessions[t])
  }

  ghost predicate ServiceConsistent(s: Service) {
    && RoomsConsistent(s.rooms)
    && TableConsistent(s.table)
    && SessionsSeated(s.rooms, s.table.sessions)
    && EveryMemberHasSession(s.rooms, s.table.sessions)
    && IdentitiesUnique(s.table.sessions)
  }

  /** The session a bound connection acts for. */
  function SessionOf(s: Service, conn: Conn): SessionState
    requires conn in s.table.bindings && s.table.bindings[conn] in s.table.sessions
  {
    s.table.sessions[s.table.bindings[conn]]
  }

  // ---------------------------------------------------------------- joining

  datatype JoinVerdict = Refused | RolledBack | Accepted

  /** A full room starts at once, and starting fails when the field has no place for everybody. */
  function StartFails(members: nat, capacity: u64): bool {
    members == capacity && !(0 < members <= MAX_PLAYERS)
  }

  function JoinResult(s: Service, conn: Conn, roomId: u32, name: Bytes, token: Option<Bytes>): JoinVerdict {
    if conn in s.table.bindings || roomId !in s.rooms || JoinOutcome(s.rooms[roomId], name) != Joined then Refused
    else if CreateOutcome(s.table, conn, token) != SessionStatus.Success then RolledBack
    else if |s.rooms[roomId].members| > MAX_LISTED then RolledBack
    else if StartFails(|s.rooms[roomId].members| + 1, s.rooms[roomId].capacity) then RolledBack
    else Accepted
  }

  /** The room after a successful join: started if that filled it. */
  ghost function SeatAndStart(r: RoomState, conn: Conn, name: Bytes): RoomState {
    var joined := AfterJoin(r, conn, name);
    if |joined.members| == joined.capacity then AfterStart(joined, true) else joined
  }

  /** All or nothing, except that a rolled back join has used up a player id. */
  ghost function AfterHandleJoin(s: Service, conn: Conn, roomId: u32, name: Bytes, token: Option<Bytes>): Service {
    match JoinResult(s, conn, roomId, name, token)
    case Refused => s
    case RolledBack => s.(rooms := s.rooms[roomId := s.rooms[roomId].(nextId := Next64(s.rooms[roomId].nextId))])
    case Accepted =>
      Service(s.rooms[roomId := SeatAndStart(s.rooms[roomId], conn, name)],
              AfterCreate(s.table, conn, roomId, s.rooms[roomId].nextId, token))
  }

  // ---------------------------------------------------------------- resuming

  /** A resume is accepted when the session is, unless the room is too big to describe. */
  predicate ResumeAccepted(s: Service, conn: Conn, token: Bytes, now: int) {
    && ResumeOutcome(s.table, conn, token, now) == SessionStatus.Success
    && s.table.sessions[token].roomId in s.rooms
    && |s.rooms[s.table.sessions[token].roomId].members| <= MAX_LISTED
  }

  function SetRoom(s: Service, roomId: u32, r: RoomState): Service {
    s.(rooms := s.rooms[roomId := r])
  }

  function AfterHandleResume(s: Service, conn: Conn, token: Bytes, now: int): Service {
    if ResumeAccepted(s, conn, token, now) then
      var e := s.table.sessions[token];
      Service(s.rooms[e.roomId := AfterBind(s.rooms[e.roomId], e.playerId, conn)], AfterResume(s.table, conn, token, now))
    else s
  }

  // ---------------------------------------------------------------- leaving, commands, ticks

  ghost predicate Known(s: Service, conn: Conn) {
    conn in s.table.bindings && s.table.bindings[conn] in s.table.sessions && Seated(s.rooms, SessionOf(s, conn))
  }

  ghost function AfterHandleLeave(s: Service, conn: Conn): Service {
    if Known(s, conn) then
      var e := SessionOf(s, conn);
      Service(s.rooms[e.roomId := AfterLeave(s.rooms[e.roomId], e.playerId)], AfterEraseByConnection(s.table, conn))
    else s
  }

  datatype Order = MoveOrder(dx: i32, dy: i32) | AttackOrder(target: u64)

  function CommandOf(player: u64, o: Order): Command {
    match o
    case MoveOrder(dx, dy) => Move(player, dx, dy)
    case AttackOrder(target) => Attack(player, target)
  }

  ghost function AfterHandleOrder(s: Service, conn: Conn, o: Order): Service {
    if Known(s, conn) then
      var e := SessionOf(s, conn);
      SetRoom(s, e.roomId, AfterSubmit(s.rooms[e.roomId], CommandOf(e.playerId, o)))
    else s
  }

  /** One step for every running room, however many timer periods have elapsed. */
  ghost function AfterHandleTick(s: Service, expirations: u64): Service {
    if expirations == 0 then s else s.(rooms := map k | k in s.rooms :: AfterTick(s.rooms[k]))
  }

  ghost function AfterHandleClosed(s: Service, conn: Conn, deadline: int): Service {
    if Known(s, conn) then
      var e := SessionOf(s, conn);
      Service(s.rooms[e.roomId := AfterDetach(s.rooms[e.roomId], e.playerId, conn)], AfterGoOffline(s.table, conn, deadline))
    else s
  }

  function AfterAddRoom(s: Service, roomId: u32, capacity: u64): Service {
    if roomId in s.rooms then s else SetRoom(s, roomId, NewRoom(roomId, capacity))
  }

  // ---------------------------------------------------------------- the timeout sweep

  /** The players in room `k` whose sessions are among `tokens`. */
  ghost function Gone(sessions: map<Bytes, SessionState>, tokens: set<Bytes>, k: u32): set<u64> {
    set t | t in tokens && t in sessions && sessions[t].roomId == k :: sessions[t].playerId
  }

  ghost function Without(r: RoomState, ids: set<u64>): RoomState {
    r.(members := r.members - ids, players := r.players - ids)
  }

  /** The given sessions vanish together with their members and game states; nothing else changes. */
  ghost function Removed(s: Service, tokens: set<Bytes>): Service {
    Service(map k | k in s.rooms :: Without(s.rooms[k], Gone(s.table.sessions, tokens, k)),
            s.table.(sessions := s.table.sessions - tokens))
  }

  ghost function AfterSweep(s: Service, now: int): Service {
    Removed(s, ExpiredTokens(s.table, now))
  }

  // ---------------------------------------------------------------- checkpoints

  ghost function Records(rooms: map<u32, RoomState>): map<u32, RoomRecord> {
    map k | k in rooms :: RecordOf(rooms[k])
  }

  ghost function RoomRows(rooms: map<u32, RoomState>): seq<RoomRecord> {
    Rows(Records(rooms), SortedIds(rooms.Keys))
  }

  ghost function CheckpointOf(s: Service, generation: u64): ServerRecord {
    ServerRecord(generation, RoomRows(s.rooms), SessionRows(s.table.sessions))
  }

  ghost predicate MemberListed(rooms: seq<RoomRecord>, k: u32, p: u64) {
    exists i :: 0 <= i < |rooms| && rooms[i].roomId == k && HasMember(rooms[i], p)
  }

  ghost predicate SessionListed(sessions: seq<SessionRecord>, k: u32, p: u64) {
    exists i :: 0 <= i < |sessions| && sessions[i].roomId == k && sessions[i].playerId == p
  }

  /** Members and sessions name the same (room, player) pairs. */
  ghost predicate IdentitiesMatch(rooms: seq<RoomRecord>, sessions: seq<SessionRecord>) {
    forall k: u32, p: u64 :: MemberListed(rooms, k, p) <==> SessionListed(sessions, k, p)
  }

  ghost predicate RoomsAcceptable(rooms: seq<RoomRecord>) {
    ValidRoomKeys(rooms) && forall i :: 0 <= i < |rooms| ==> Acceptable(rooms[i])
  }

  function RoomKey(r: RoomRecord): u32 {
    r.roomId
  }

  function Revived(records: map<u32, RoomRecord>): map<u32, RoomState> {
    map k | k in records :: RestoredRoom(records[k])
  }

  function RestoredRooms(rooms: seq<RoomRecord>): map<u32, RoomState> {
    Revived(Table(rooms, RoomKey))
  }

  /** What a restore reports and leaves behind: the rooms are replaced before the sessions are judged. */
  ghost function RestoreOutcome(s: Service, c: ServerRecord, deadline: int): (bool, Service) {
    if c.generation == 0 || !IdentitiesMatch(c.rooms, c.sessions) || !RoomsAcceptable(c.rooms) then (false, s)
    else if !ValidSessionKeys(c.sessions) then (false, s.(rooms := RestoredRooms(c.rooms)))
    else (true, Service(RestoredRooms(c.rooms), RestoredTable(c.sessions, deadline)))
  }

  function AllUnplugged(rooms: map<u32, RoomState>): map<u32, RoomState> {
    map k | k in rooms :: Unplugged(rooms[k])
  }

  /** Nobody connected, nothing queued, every session waiting to be resumed until `deadline`. */
  ghost function Asleep(s: Service, deadline: int): Service {
    Service(AllUnplugged(s.rooms), SessionTable(OfflineSessions(Tickets(s.table.sessions), deadline), map[]))
  }

  // ---------------------------------------------------------------- runs

  /** The service and the connections the network layer holds open. */
  datatype World = World(service: Service, open: set<Conn>)

  datatype Event =
    | RoomAdded(roomId: u32, capacity: u64)
    | Opened(conn: Conn)
    | JoinFrame(conn: Conn, roomId: u32, name: Bytes, token: Option<Bytes>)
    | ResumeFrame(conn: Conn, resumeToken: Bytes, now: int)
    | LeaveFrame(conn: Conn)
    | OrderFrame(conn: Conn, order: Order)
    | TickDue(expirations: u64)
    | ClosedNotice(conn: Conn, deadline: int)
    | SweepDue(now: int)
    | Loaded(checkpoint: ServerRecord, deadline: int)

  /**
   The environment assumptions. A connection address is not handed out twice while open; frames
   and the close notice come from open connections, so no frame is handled after the notice;
   generated tokens are well formed; what is loaded came out of the decoder.
   */
  ghost predicate Possible(w: World, e: Event) {
    match e
    case Opened(c) => c !in w.open
    case JoinFrame(c, _, _, token) => c in w.open && (token.Some? ==> ValidToken(token.value))
    case ResumeFrame(c, _, _) => c in w.open
    case LeaveFrame(c) => c in w.open
    case OrderFrame(c, _) => c in w.open
    case ClosedNotice(c, _) => c in w.open
    case Loaded(c, _) => ValidKeys(c)
    case _ => true
  }

  ghost function ServiceAfter(s: Service, e: Event): Service {
    match e
    case RoomAdded(k, capacity) => AfterAddRoom(s, k, capacity)
    case Opened(c) => s
    case JoinFrame(c, k, name, token) => AfterHandleJoin(s, c, k, name, token)
    case ResumeFrame(c, token, now) => AfterHandleResume(s, c, token, now)
    case LeaveFrame(c) => AfterHandleLeave(s, c)
    case OrderFrame(c, o) => AfterHandleOrder(s, c, o)
    case TickDue(n) => AfterHandleTick(s, n)
    case ClosedNotice(c, deadline) => AfterHandleClosed(s, c, deadline)
    case SweepDue(now) => AfterSweep(s, now)
    case Loaded(c, deadline) => RestoreOutcome(s, c, deadline).1
  }

  /** An event that cannot happen leaves the world alone. */
  ghost function After(w: World, e: Event): World {
    if !Possible(w, e) then w
    else
      World(ServiceAfter(w.service, e),
            match e case Opened(c) => w.open + {c} case ClosedNotice(c, _) => w.open - {c} case _ => w.open)
  }

  ghost function Run(w: World, events: seq<Event>): World {
    if events == [] then w else After(Run(w, events[..|events| - 1]), events[|events| - 1])
  }

  ghost predicate Sound(w: World) {
    ServiceConsistent(w.service) && w.service.table.bindings.Keys <= w.open
  }

  const FRESH: World := World(Service(map[], SessionTable(map[], map[])), {})
}
