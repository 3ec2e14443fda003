/**
 Sessions as values: who a token stands for, which connection it is on, and until when it may
 be resumed. A session is online exactly while it has a connection; the deadline it last had
 while offline survives a resume, so that the resume can be undone.
 */
module SessionModel {
  import opened Common
  import opened Ordering
  import opened Checkpoint

  datatype SessionState = SessionState(roomId: u32, playerId: u64, conn: Option<Conn>, deadline: int)

  datatype SessionTable = SessionTable(sessions: map<Bytes, SessionState>, bindings: map<Conn, Bytes>)

  /** Bindings and online sessions are two views of one bijection. */
  ghost predicate TableConsistent(s: SessionTable) {
    && (forall c :: c in s.bindings ==> s.bindings[c] in s.sessions && s.sessions[s.bindings[c]].conn == Some(c))
    && (forall t :: t in s.sessions && s.sessions[t].conn.Some? ==>
          s.sessions[t].conn.value in s.bindings && s.bindings[s.sessions[t].conn.value] == t)
    && (forall t :: t in s.sessions ==> ValidToken(t))
  }

  datatype SessionStatus =
    | Success | AlreadyBound | InvalidToken | SessionOnline | SessionExpired | SessionNotExpired | NotBound | InternalError

  // ---------------------------------------------------------------- creating and finding

  /** `token` is what the random source produced, or nothing when it failed. */
  function CreateOutcome(s: SessionTable, conn: Conn, token: Option<Bytes>): SessionStatus {
    if conn in s.bindings then AlreadyBound
    else if token.None? || token.value in s.sessions then InternalError
    else Success
  }

  function AfterCreate(s: SessionTable, conn: Conn, roomId: u32, playerId: u64, token: Option<Bytes>): SessionTable {
    if CreateOutcome(s, conn, token) == Success
    then SessionTable(s.sessions[token.value := SessionState(roomId, playerId, Some(conn), 0)], s.bindings[conn := token.value])
    else s
  }

  // ---------------------------------------------------------------- resuming

  predicate Expired(s: SessionState, now: int) {
    s.conn.None? && now >= s.deadline
  }

  function ResumeOutcome(s: SessionTable, conn: Conn, token: Bytes, now: int): SessionStatus {
    if conn in s.bindings then AlreadyBound
    else if token !in s.sessions then InvalidToken
    else if s.sessions[token].conn.Some? then SessionOnline
    else if Expired(s.sessions[token], now) then SessionExpired
    else Success
  }

  function AfterResume(s: SessionTable, conn: Conn, token: Bytes, now: int): SessionTable {
    if ResumeOutcome(s, conn, token, now) == Success
    then SessionTable(s.sessions[token := s.sessions[token].(conn := Some(conn))], s.bindings[conn := token])
    else s
  }

  // ---------------------------------------------------------------- going offline, leaving

  /** The session bound to `conn` loses it; what the deadline becomes is up to the caller. */
  function Unbound(s: SessionTable, conn: Conn, deadline: int): SessionTable
    requires conn in s.bindings && s.bindings[conn] in s.sessions
  {
    var token := s.bindings[conn];
    SessionTable(s.sessions[token := s.sessions[token].(conn := None, deadline := deadline)], s.bindings - {conn})
  }

  function BoundOutcome(s: SessionTable, conn: Conn): SessionStatus {
    if conn !in s.bindings then NotBound else Success
  }

  function AfterRollback(s: SessionTable, conn: Conn): SessionTable
    requires conn in s.bindings ==> s.bindings[conn] in s.sessions
  {
    if conn in s.bindings then Unbound(s, conn, s.sessions[s.bindings[conn]].deadline) else s
  }

  function AfterGoOffline(s: SessionTable, conn: Conn, deadline: int): SessionTable
    requires conn in s.bindings ==> s.bindings[conn] in s.sessions
  {
    if conn in s.bindings then Unbound(s, conn, deadline) else s
  }

  function AfterEraseByConnection(s: SessionTable, conn: Conn): SessionTable {
    if conn in s.bindings then SessionTable(s.sessions - {s.bindings[conn]}, s.bindings - {conn}) else s
  }

  // ---------------------------------------------------------------- expiry

  ghost function ExpiredTokens(s: SessionTable, now: int): set<Bytes> {
    set t | t in s.sessions && Expired(s.sessions[t], now)
  }

  function EraseExpiredOutcome(s: SessionTable, token: Bytes, now: int): SessionStatus {
    if token !in s.sessions then InvalidToken
    else if s.sessions[token].conn.Some? then SessionOnline
    else if !Expired(s.sessions[token], now) then SessionNotExpired
    else Success
  }

  function AfterEraseExpired(s: SessionTable, token: Bytes, now: int): SessionTable {
    if EraseExpiredOutcome(s, token, now) == Success then s.(sessions := s.sessions - {token}) else s
  }

  // ---------------------------------------------------------------- checkpoints

  function Tickets(sessions: map<Bytes, SessionState>): map<Bytes, SessionRecord> {
    map t | t in sessions :: SessionRecord(t, sessions[t].roomId, sessions[t].playerId)
  }

  ghost function SessionRows(sessions: map<Bytes, SessionState>): seq<SessionRecord> {
    Rows(Tickets(sessions), SortedTokens(sessions.Keys))
  }

  function RecordToken(r: SessionRecord): Bytes {
    r.token
  }

  function OfflineSessions(tickets: map<Bytes, SessionRecord>, deadline: int): map<Bytes, SessionState> {
    map t | t in tickets :: SessionState(tickets[t].roomId, tickets[t].playerId, None, deadline)
  }

  function RestoredTable(rows: seq<SessionRecord>, deadline: int): SessionTable {
    SessionTable(OfflineSessions(Table(rows, RecordToken), deadline), map[])
  }

  // ---------------------------------------------------------------- facts

  /** Undoing a resume puts everything back, the original deadline included. */
  lemma RollbackUndoesResume(s: SessionTable, conn: Conn, token: Bytes, now: int)
    requires TableConsistent(s) && ResumeOutcome(s, conn, token, now) == Success
    ensures TableConsistent(AfterResume(s, conn, token, now))
    ensures AfterRollback(AfterResume(s, conn, token, now), conn) == s
  {
    var back := AfterRollback(AfterResume(s, conn, token, now), conn);
    assert back.bindings == s.bindings;
    assert back.sessions == s.sessions;
  }

  lemma CreateConsistent(s: SessionTable, conn: Conn, roomId: u32, playerId: u64, token: Bytes)
    requires TableConsistent(s) && ValidToken(token)
    ensures TableConsistent(AfterCreate(s, conn, roomId, playerId, Some(token)))
  {
    hide ValidToken;
  }

  lemma TableOpsConsistent(s: SessionTable, conn: Conn, token: Bytes, time: int)
    requires TableConsistent(s)
    ensures TableConsistent(AfterRollback(s, conn))
    ensures TableConsistent(AfterGoOffline(s, conn, time))
    ensures TableConsistent(AfterEraseByConnection(s, conn))
    ensures TableConsistent(AfterEraseExpired(s, token, time))
    ensures TableConsistent(AfterResume(s, conn, token, time))
  {
    hide ValidToken;
    EraseConsistent(s, conn);
    EraseExpiredConsistent(s, token, time);
    GoOfflineConsistent(s, conn, time);
    if conn in s.bindings {
      GoOfflineConsistent(s, conn, s.sessions[s.bindings[conn]].deadline);
    }
  }

  lemma EraseConsistent(s: SessionTable, conn: Conn)
    requires TableConsistent(s)
    ensures TableConsistent(AfterEraseByConnection(s, conn))
  {
    hide ValidToken;
  }

  lemma EraseExpiredConsistent(s: SessionTable, token: Bytes, now: int)
    requires TableConsistent(s)
    ensures TableConsistent(AfterEraseExpired(s, token, now))
  {
    hide ValidToken;
  }

  lemma GoOfflineConsistent(s: SessionTable, conn: Conn, time: int)
    requires TableConsistent(s)
    ensures TableConsistent(AfterGoOffline(s, conn, time))
  {
    hide ValidToken;
  }

  /** Restored sessions are exactly the recorded ones, all offline until the same deadline. */
  lemma SessionsRoundTrip(sessions: map<Bytes, SessionState>, deadline: int)
    ensures Table(SessionRows(sessions), RecordToken) == Tickets(sessions)
    ensures Tickets(OfflineSessions(Tickets(sessions), deadline)) == Tickets(sessions)
    ensures OfflineSessions(Tickets(sessions), deadline).Keys == sessions.Keys
  {
    TableOfRows(Tickets(sessions), SortedTokens(sessions.Keys), RecordToken);
  }

  lemma RestoredTableConsistent(rows: seq<SessionRecord>, deadline: int)
    requires ValidSessionKeys(rows)
    ensures TableConsistent(RestoredTable(rows, deadline))
  {
    TableKeys(rows, RecordToken);
    forall t | t in Table(rows, RecordToken) ensures ValidToken(t) {
      var i :| 0 <= i < |rows| && RecordToken(rows[i]) == t;
    }
  }
}
