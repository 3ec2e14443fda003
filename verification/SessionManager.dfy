/** The session manager: sessions by token, bindings by connection, both changed in place. */
module SessionManagers {
  import opened Common
  import opened Ordering
  import opened Checkpoint
  import opened SessionModel
  import opened Sessions

  // ---------------------------------------------------------------- tokens

  function HexDigit(n: byte): byte
    requires n < 16
  {
    if n < 10 then '0' as int + n else 'a' as int + n - 10
  }

  /** Sixteen random bytes, when the source delivers them, become thirty-two hexadecimal digits. */
  method GenerateToken(random: Option<Bytes>) returns (token: Option<Bytes>)
    requires random.Some? ==> |random.value| == SESSION_TOKEN_SIZE / 2
    ensures token.Some? <==> random.Some?
    ensures token.Some? ==> ValidToken(token.value)
    ensures token.Some? ==> forall i :: 0 <= i < SESSION_TOKEN_SIZE / 2 ==>
              token.value[2 * i] == HexDigit(random.value[i] / 16) && token.value[2 * i + 1] == HexDigit(random.value[i] % 16)
  {
    if random.None? {
      return None;
    }
    var digits: Bytes := [];
    for i := 0 to |random.value|
      invariant |digits| == 2 * i && forall j :: 0 <= j < |digits| ==> LowerHex(digits[j])
      invariant forall j :: 0 <= j < i ==>
                  digits[2 * j] == HexDigit(random.value[j] / 16) && digits[2 * j + 1] == HexDigit(random.value[j] % 16)
    {
      digits := digits + [HexDigit(random.value[i] / 16)];
      digits := digits + [HexDigit(random.value[i] % 16)];
    }
    token := Some(digits);
  }

  // ---------------------------------------------------------------- a table of session objects

  ghost function StatesOf(sessions: map<Bytes, Session>): (states: map<Bytes, SessionState>)
    reads sessions.Values
    ensures states.Keys == sessions.Keys
  {
    map t | t in sessions :: sessions[t].State()
  }

  lemma TicketCount(sessions: map<Bytes, SessionState>)
    ensures |SessionRows(sessions)| == |SortedTokens(sessions.Keys)|
  {
    hide LexLess;
  }

  lemma TicketAt(sessions: map<Bytes, SessionState>, i: nat)
    requires i < |SortedTokens(sessions.Keys)|
    ensures i < |SessionRows(sessions)|
    ensures var t := SortedTokens(sessions.Keys)[i];
            t in sessions && SessionRows(sessions)[i] == SessionRecord(t, sessions[t].roomId, sessions[t].playerId)
  {
    hide LexLess;
    assert SortedTokens(sessions.Keys)[i] in SortedTokens(sessions.Keys);
  }

  /** Every token has a session object of its own. */
  ghost predicate Separate(sessions: map<Bytes, Session>)
    reads sessions.Values
  {
    && (forall t :: t in sessions ==> sessions[t].Valid())
    && (forall t, u :: t in sessions && u in sessions && t != u ==> sessions[t] != sessions[u])
  }

  lemma OneAdded(sessions: map<Bytes, Session>, token: Bytes, session: Session)
    requires Separate(sessions) && token !in sessions && session !in sessions.Values && session.Valid()
    ensures Separate(sessions[token := session])
    ensures StatesOf(sessions[token := session]) == StatesOf(sessions)[token := session.State()]
    ensures sessions[token := session].Values <= sessions.Values + {session}
  {
    assert forall t :: t in sessions ==> sessions[t] in sessions.Values;
  }

  lemma OneErased(sessions: map<Bytes, Session>, token: Bytes)
    requires Separate(sessions)
    ensures Separate(sessions - {token})
    ensures StatesOf(sessions - {token}) == StatesOf(sessions) - {token}
    ensures (sessions - {token}).Values <= sessions.Values
  {
  }

  datatype Identity = Identity(status: SessionStatus, token: Bytes, roomId: u32, playerId: u64)

  class SessionManager {
    const reconnectTimeout: int
    var sessions: map<Bytes, Session>
    var bindings: map<Conn, Bytes>

    ghost function View(): SessionTable
      reads this, sessions.Values
    {
      SessionTable(StatesOf(sessions), bindings)
    }

    ghost predicate Valid()
      reads this, sessions.Values
    {
      Separate(sessions) && TableConsistent(View())
    }

    constructor (reconnectTimeout: int)
      ensures Valid() && View() == SessionTable(map[], map[]) && sessions == map[]
      ensures this.reconnectTimeout == reconnectTimeout
    {
      this.reconnectTimeout := reconnectTimeout;
      sessions, bindings := map[], map[];
    }

    method Create(conn: Conn, roomId: u32, playerId: u64, token: Option<Bytes>) returns (status: SessionStatus)
      requires Valid() && (token.Some? ==> ValidToken(token.value))
      modifies this
      ensures Valid() && fresh(sessions.Values - old(sessions.Values))
      ensures status == CreateOutcome(old(View()), conn, token)
      ensures View() == AfterCreate(old(View()), conn, roomId, playerId, token)
    {
      if token.Some? { CreateConsistent(View(), conn, roomId, playerId, token.value); }
      hide TableConsistent, ValidToken, Separate, StatesOf;
      if conn in bindings {
        return AlreadyBound;
      }
      if token.None? {
        return InternalError;
      }
      if token.value in sessions {
        return InternalError;
      }
      assert token.value !in View().sessions;
      sessions := WithOnline(sessions, token.value, conn, roomId, playerId);
      bindings := bindings[conn := token.value];
      status := Success;
    }

    static method WithOnline(table: map<Bytes, Session>, token: Bytes, conn: Conn, roomId: u32, playerId: u64)
      returns (larger: map<Bytes, Session>)
      requires Separate(table) && token !in table
      ensures Separate(larger) && fresh(larger.Values - table.Values)
      ensures StatesOf(larger) == old(StatesOf(table))[token := SessionState(roomId, playerId, Some(conn), 0)]
    {
      var session := new Session.OnlineOn(roomId, playerId, conn);
      OneAdded(table, token, session);
      larger := table[token := session];
    }

    static method WithOffline(
        table: map<Bytes, Session>, row: SessionRecord, deadline: int)
      returns (larger: map<Bytes, Session>)
      requires Separate(table) && row.token !in table
      ensures Separate(larger) && fresh(larger.Values - table.Values)
      ensures StatesOf(larger) == StatesOf(table)[row.token := SessionState(row.roomId, row.playerId, None, deadline)]
    {
      var session := new Session.OfflineUntil(row.roomId, row.playerId, deadline);
      OneAdded(table, row.token, session);
      larger := table[row.token := session];
    }

    method Lookup(conn: Conn) returns (found: Identity)
      requires Valid()
      ensures found.status == BoundOutcome(View(), conn)
      ensures found.status == Success ==>
                var e := View().sessions[View().bindings[conn]];
                found.token == View().bindings[conn] && found.roomId == e.roomId && found.playerId == e.playerId
    {
      if conn !in bindings {
        return Identity(NotBound, [], 0, 0);
      }
      assert bindings[conn] in View().sessions;
      var session := sessions[bindings[conn]];
      found := Identity(Success, bindings[conn], session.roomId, session.playerId);
    }

    /** The object behind one token changes state; the table changes in that one place. */
    twostate lemma OneSessionChanged(new token: Bytes)
      requires old(Separate(sessions)) && sessions == old(sessions) && token in sessions
      requires forall t :: t in sessions && t != token ==> unchanged(sessions[t])
      requires sessions[token].Valid()
      ensures Separate(sessions)
      ensures StatesOf(sessions) == old(StatesOf(sessions))[token := sessions[token].State()]
    {
    }

    method Resume(conn: Conn, token: Bytes, now: int) returns (found: Identity)
      requires Valid()
      modifies this, sessions.Values
      ensures Valid() && sessions == old(sessions)
      ensures found.status == ResumeOutcome(old(View()), conn, token, now)
      ensures View() == AfterResume(old(View()), conn, token, now)
      ensures found.status == Success ==>
                found.roomId == View().sessions[token].roomId && found.playerId == View().sessions[token].playerId
    {
      TableOpsConsistent(View(), conn, token, now);
      hide TableConsistent;
      if conn in bindings {
        return Identity(AlreadyBound, [], 0, 0);
      }
      if token !in sessions {
        return Identity(InvalidToken, [], 0, 0);
      }
      var session := sessions[token];
      assert View().sessions[token] == session.State();
      if session.presence != Offline {
        return Identity(SessionOnline, [], 0, 0);
      }
      var late := session.HasExpired(now);
      if late {
        return Identity(SessionExpired, [], 0, 0);
      }
      bindings := bindings[conn := token];
      var bound := session.Bind(conn, now);
      OneSessionChanged(token);
      found := Identity(Success, token, session.roomId, session.playerId);
    }

    /** The session loses its connection, and the connection its binding. */
    method Unbind(conn: Conn, token: Bytes, deadline: int)
      requires Valid() && conn in bindings && bindings[conn] == token && token in sessions
      modifies this, sessions.Values
      ensures Valid() && sessions == old(sessions)
      ensures View() == AfterGoOffline(old(View()), conn, deadline)
    {
      GoOfflineConsistent(View(), conn, deadline);
      assert View().sessions[token].conn == Some(conn);
      hide TableConsistent;
      var session := sessions[token];
      var detached := session.Detach(conn, deadline);
      OneSessionChanged(token);
      hide Separate, StatesOf;
      bindings := bindings - {conn};
    }

    /** Undo a resume: offline again, until the deadline the session had before. */
    method RollbackResume(conn: Conn) returns (status: SessionStatus)
      requires Valid()
      modifies this, sessions.Values
      ensures Valid() && sessions == old(sessions)
      ensures status == BoundOutcome(old(View()), conn)
      ensures View() == AfterRollback(old(View()), conn)
    {
      if conn !in bindings {
        return NotBound;
      }
      var token := bindings[conn];
      assert token in View().sessions && View().sessions[token].conn == Some(conn);
      Unbind(conn, token, sessions[token].offlineDeadline);
      status := Success;
    }

    /** Until when a session that goes offline now can be resumed. */
    function Deadline(now: int): int {
      now + reconnectTimeout
    }

    method Detach(conn: Conn, now: int) returns (status: SessionStatus)
      requires Valid()
      modifies this, sessions.Values
      ensures Valid() && sessions == old(sessions)
      ensures status == BoundOutcome(old(View()), conn)
      ensures View() == AfterGoOffline(old(View()), conn, Deadline(now))
    {
      if conn !in bindings {
        return NotBound;
      }
      var token := bindings[conn];
      assert token in View().sessions && View().sessions[token].conn == Some(conn);
      hide TableConsistent, Deadline;
      Unbind(conn, token, Deadline(now));
      status := Success;
    }

    method EraseByConnection(conn: Conn) returns (status: SessionStatus)
      requires Valid()
      modifies this
      ensures Valid() && sessions.Values <= old(sessions.Values)
      ensures status == BoundOutcome(old(View()), conn)
      ensures View() == AfterEraseByConnection(old(View()), conn)
    {
      EraseConsistent(View(), conn);
      hide TableConsistent;
      if conn !in bindings {
        return NotBound;
      }
      var token := bindings[conn];
      OneErased(sessions, token);
      bindings := bindings - {conn};
      sessions := sessions - {token};
      hide Separate, StatesOf;
      status := Success;
    }

    /** Who is due, in whatever order the table is walked. */
    method ExpiredSessions(now: int) returns (expired: seq<SessionRecord>)
      requires Valid()
      ensures TicketsFrom(expired, View().sessions)
      ensures TokenSet(expired) == ExpiredTokens(View(), now)
    {
      hide TableConsistent, ValidToken;
      var tokens := Walk(sessions.Keys);
      expired := [];
      assert TicketsFrom(expired, View().sessions) && TokenSet(expired) == DueAmong(View(), now, tokens[..0]);
      hide DueAmong, ExpiredTokens, TicketsFrom, TokenSet;
      for i := 0 to |tokens|
        invariant TicketsFrom(expired, View().sessions)
        invariant TokenSet(expired) == DueAmong(View(), now, tokens[..i])
      {
        assert tokens[i] in Elements(tokens);
        DueOneMore(View(), now, tokens, i);
        var session := sessions[tokens[i]];
        assert View().sessions[tokens[i]] == session.State();
        var late := session.HasExpired(now);
        if session.presence == Offline && late {
          var item := SessionRecord(tokens[i], session.roomId, session.playerId);
          OneMoreTicket(expired, item, View().sessions);
          expired := expired + [item];
        }
      }
      assert tokens[..|tokens|] == tokens;
      DueAmongAll(View(), now, tokens);
    }

    method EraseExpired(token: Bytes, now: int) returns (status: SessionStatus)
      requires Valid()
      modifies this
      ensures Valid() && sessions.Values <= old(sessions.Values)
      ensures status == EraseExpiredOutcome(old(View()), token, now)
      ensures View() == AfterEraseExpired(old(View()), token, now)
    {
      EraseExpiredConsistent(View(), token, now);
      hide TableConsistent;
      if token !in sessions {
        return InvalidToken;
      }
      var session := sessions[token];
      assert View().sessions[token] == session.State();
      if session.presence != Offline {
        return SessionOnline;
      }
      var late := session.HasExpired(now);
      if !late {
        return SessionNotExpired;
      }
      OneErased(sessions, token);
      sessions := sessions - {token};
      hide Separate, StatesOf;
      status := Success;
    }

    method MakeCheckpoint() returns (rows: seq<SessionRecord>)
      requires Valid()
      ensures rows == SessionRows(View().sessions)
    {
      var tokens := SortTokens(sessions.Keys);
      rows := TicketsFor(tokens);
    }

    method TicketsFor(tokens: seq<Bytes>) returns (rows: seq<SessionRecord>)
      requires Valid() && tokens == SortedTokens(sessions.Keys)
      ensures rows == SessionRows(View().sessions)
    {
      hide LexLess, TableConsistent, Separate;
      ghost var states := View().sessions;
      TicketCount(states);
      rows := [];
      hide SessionRows, StatesOf;
      for i := 0 to |tokens|
        invariant rows == SessionRows(states)[..i]
      {
        TicketAt(states, i);
        var row := TicketFor(tokens[i]);
        rows := rows + [row];
      }
    }

    method TicketFor(token: Bytes) returns (row: SessionRecord)
      requires Valid() && token in sessions
      ensures token in View().sessions
      ensures row == SessionRecord(token, View().sessions[token].roomId, View().sessions[token].playerId)
    {
      hide LexLess, TableConsistent, Separate;
      assert View().sessions[token] == sessions[token].State();
      row := SessionRecord(token, sessions[token].roomId, sessions[token].playerId);
    }

    /** Nothing is replaced unless every record passes; bindings cannot be restored. */
    method RestoreCheckpoint(rows: seq<SessionRecord>, now: int) returns (ok: bool)
      requires Valid()
      modifies this
      ensures Valid() && fresh(sessions.Values - old(sessions.Values))
      ensures ok <==> ValidSessionKeys(rows)
      ensures View() == if ok then RestoredTable(rows, Deadline(now)) else old(View())
    {
      hide TableConsistent, ValidSessionKeys, Separate, OfflineSessions, Deadline;
      var deadline := Deadline(now);
      var gathered, temp := Rebuild(rows, deadline);
      if !gathered {
        return false;
      }
      RestoredTableConsistent(rows, deadline);
      sessions := temp;
      bindings := map[];
      ok := true;
    }

    static method Rebuild(rows: seq<SessionRecord>, deadline: int) returns (ok: bool, temp: map<Bytes, Session>)
      ensures fresh(temp.Values)
      ensures ok <==> ValidSessionKeys(rows)
      ensures ok ==> Separate(temp) && StatesOf(temp) == OfflineSessions(Table(rows, RecordToken), deadline)
    {
      temp := map[];
      hide ValidSessionKeys, Table, ValidToken;
      NoSessionsYet(deadline);
      for i := 0 to |rows|
        invariant fresh(temp.Values) && Separate(temp)
        invariant ValidSessionKeys(rows[..i])
        invariant StatesOf(temp) == OfflineSessions(Table(rows[..i], RecordToken), deadline)
      {
        SessionOneMore(rows, i);
        var wellFormed := IsToken(rows[i].token);
        if !wellFormed {
          return false, temp;
        }
        assert temp.Keys == StatesOf(temp).Keys;
        if rows[i].token in temp {
          return false, temp;
        }
        var twin := HasTwin(temp, rows[i]);
        NoTwinInStates(Table(rows[..i], RecordToken), deadline, rows[i]);
        if twin {
          return false, temp;
        }
        OneMoreOffline(Table(rows[..i], RecordToken), deadline, rows[i]);
        temp := WithOffline(temp, rows[i], deadline);
      }
      assert rows[..|rows|] == rows;
      ok := true;
    }

    static method IsToken(token: Bytes) returns (ok: bool)
      ensures ok <==> ValidToken(token)
    {
      if |token| != SESSION_TOKEN_SIZE {
        return false;
      }
      for i := 0 to |token|
        invariant forall j :: 0 <= j < i ==> LowerHex(token[j])
      {
        if !LowerHex(token[i]) {
          return false;
        }
      }
      ok := true;
    }

    static method HasTwin(temp: map<Bytes, Session>, row: SessionRecord) returns (found: bool)
      ensures found <==> !NoTwin(StatesOf(temp), row)
    {
      var tokens := Walk(temp.Keys);
      for i := 0 to |tokens|
        invariant forall j :: 0 <= j < i ==>
            tokens[j] in temp && !(temp[tokens[j]].roomId == row.roomId && temp[tokens[j]].playerId == row.playerId)
      {
        assert tokens[i] in Elements(tokens);
        var session := temp[tokens[i]];
        if session.roomId == row.roomId && session.playerId == row.playerId {
          assert StatesOf(temp)[tokens[i]] == session.State();
          return true;
        }
      }
      assert forall t :: t in temp ==> t in Elements(tokens);
      found := false;
    }
  }

  // ---------------------------------------------------------------- lists of tickets

  ghost function TokenSet(rows: seq<SessionRecord>): set<Bytes> {
    if rows == [] then {} else TokenSet(rows[..|rows| - 1]) + {rows[|rows| - 1].token}
  }

  /** Tickets of sessions in the table, none of them twice. */
  ghost predicate TicketsFrom(rows: seq<SessionRecord>, sessions: map<Bytes, SessionState>) {
    rows == [] ||
      var front, last := rows[..|rows| - 1], rows[|rows| - 1];
      && TicketsFrom(front, sessions)
      && last.token in sessions && last == Tickets(sessions)[last.token]
      && last.token !in TokenSet(front)
  }

  lemma OneMoreTicket(rows: seq<SessionRecord>, item: SessionRecord, sessions: map<Bytes, SessionState>)
    requires TicketsFrom(rows, sessions)
    requires item.token in sessions && item == Tickets(sessions)[item.token] && item.token !in TokenSet(rows)
    ensures TicketsFrom(rows + [item], sessions) && TokenSet(rows + [item]) == TokenSet(rows) + {item.token}
  {
    assert (rows + [item])[..|rows|] == rows;
  }

  ghost function DueAmong(s: SessionTable, now: int, tokens: seq<Bytes>): set<Bytes> {
    ExpiredTokens(s, now) * Elements(tokens)
  }

  lemma DueOneMore(s: SessionTable, now: int, tokens: seq<Bytes>, i: nat)
    requires i < |tokens| && Distinct(tokens) && tokens[i] in s.sessions
    ensures tokens[i] !in DueAmong(s, now, tokens[..i])
    ensures DueAmong(s, now, tokens[..i + 1])
         == DueAmong(s, now, tokens[..i]) + if Expired(s.sessions[tokens[i]], now) then {tokens[i]} else {}
  {
    assert tokens[..i + 1] == tokens[..i] + [tokens[i]];
    assert Elements(tokens[..i + 1]) == Elements(tokens[..i]) + {tokens[i]};
  }

  lemma DueAmongAll(s: SessionTable, now: int, tokens: seq<Bytes>)
    requires Elements(tokens) == s.sessions.Keys
    ensures DueAmong(s, now, tokens) == ExpiredTokens(s, now)
  {
  }

  ghost predicate NoTwin(sessions: map<Bytes, SessionState>, row: SessionRecord) {
    forall t :: t in sessions ==> !(sessions[t].roomId == row.roomId && sessions[t].playerId == row.playerId)
  }

  lemma NoTwinInStates(tickets: map<Bytes, SessionRecord>, deadline: int, row: SessionRecord)
    ensures NoTwin(OfflineSessions(tickets, deadline), row) <==> forall t :: t in tickets ==> !SameIdentity(tickets[t], row)
  {
    var sessions := OfflineSessions(tickets, deadline);
    if NoTwin(sessions, row) {
      forall t | t in tickets ensures !SameIdentity(tickets[t], row) {
        assert t in sessions;
      }
    }
  }

  lemma OneMoreOffline(tickets: map<Bytes, SessionRecord>, deadline: int, row: SessionRecord)
    ensures OfflineSessions(tickets[row.token := row], deadline)
         == OfflineSessions(tickets, deadline)[row.token := SessionState(row.roomId, row.playerId, None, deadline)]
  {
  }

  lemma NoSessionsYet(deadline: int)
    ensures ValidSessionKeys([]) && OfflineSessions(Table([], RecordToken), deadline) == map[]
  {
  }

  lemma SessionOneMore(rows: seq<SessionRecord>, i: nat)
    requires i < |rows| && ValidSessionKeys(rows[..i])
    ensures var row, sofar := rows[i], Table(rows[..i], RecordToken);
            && Table(rows[..i + 1], RecordToken) == sofar[row.token := row]
            && (ValidSessionKeys(rows[..i + 1]) <==>
                  ValidToken(row.token) && row.token !in sofar && forall t :: t in sofar ==> !SameIdentity(sofar[t], row))
            && (ValidSessionKeys(rows) ==> ValidSessionKeys(rows[..i + 1]))
  {
    hide ValidToken;
    var front, more := rows[..i], rows[..i + 1];
    assert more == front + [rows[i]] && more[..i] == front;
    OneMoreKey(front, rows[i]);
    assert forall j :: 0 <= j <= i ==> more[j] == rows[j];
    TableOfPrefix(front, rows[i]);
  }

  lemma OneMoreKey(front: seq<SessionRecord>, row: SessionRecord)
    requires ValidSessionKeys(front)
    ensures ValidSessionKeys(front + [row])
       <==> ValidToken(row.token) && forall j :: 0 <= j < |front| ==> front[j].token != row.token && !SameIdentity(front[j], row)
  {
    hide ValidToken, SameIdentity;
    var more := front + [row];
    assert forall j :: 0 <= j < |front| ==> more[j] == front[j];
    assert more[|front|] == row;
  }

  lemma TableOfPrefix(front: seq<SessionRecord>, row: SessionRecord)
    requires ValidSessionKeys(front)
    ensures var sofar := Table(front, RecordToken);
            (forall j :: 0 <= j < |front| ==> front[j].token != row.token && !SameIdentity(front[j], row))
              <==> row.token !in sofar && forall t :: t in sofar ==> !SameIdentity(sofar[t], row)
  {
    hide ValidToken;
    TableEntries(front, RecordToken);
    forall j | 0 <= j < |front| ensures front[j].token in Table(front, RecordToken)
        && Table(front, RecordToken)[front[j].token] == front[j] {
      TableFinds(front, RecordToken, j);
    }
    hide Table, SameIdentity;
  }
}
