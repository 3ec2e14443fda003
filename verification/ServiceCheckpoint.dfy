/** The whole server through a checkpoint and back. */
module ServiceCheckpoint {
  import opened Common
  import opened Ordering
  import opened GameState
  import opened Checkpoint
  import opened CheckpointFormat
  import opened RoomModel
  import opened SessionModel
  import opened ServiceModel
  import opened ServiceProofs

  // ---------------------------------------------------------------- the rooms of a checkpoint

  lemma RowOfRoom(rooms: map<u32, RoomState>, i: nat)
    requires RoomsConsistent(rooms) && i < |SortedIds(rooms.Keys)|
    ensures |RoomRows(rooms)| == |SortedIds(rooms.Keys)|
    ensures var id := SortedIds(rooms.Keys)[i];
            id in rooms && RoomRows(rooms)[i] == RecordOf(rooms[id]) && RoomRows(rooms)[i].roomId == id
  {
    hide Consistent;
    assert SortedIds(rooms.Keys)[i] in SortedIds(rooms.Keys);
  }

  /** Every room has exactly one row, and every row is some room's record. */
  lemma RoomRowsFacts(rooms: map<u32, RoomState>)
    requires RoomsConsistent(rooms)
    ensures forall i :: 0 <= i < |RoomRows(rooms)| ==>
              RoomRows(rooms)[i].roomId in rooms && RoomRows(rooms)[i] == RecordOf(rooms[RoomRows(rooms)[i].roomId])
    ensures forall k :: k in rooms ==> RecordOf(rooms[k]) in RoomRows(rooms)
    ensures ValidRoomKeys(RoomRows(rooms))
  {
    var ids, rows := SortedIds(rooms.Keys), RoomRows(rooms);
    assert |rows| == |ids|;
    forall i | 0 <= i < |rows| ensures ids[i] in rooms && rows[i] == RecordOf(rooms[ids[i]]) && rows[i].roomId == ids[i] {
      RowOfRoom(rooms, i);
    }
    hide RoomsConsistent, RoomRows, RecordOf;
    forall k | k in rooms ensures RecordOf(rooms[k]) in rows {
      var i :| 0 <= i < |ids| && ids[i] == k;
      assert rows[i] == RecordOf(rooms[k]);
    }
  }

  lemma MemberIsListed(members: map<u64, Member>, next: u64, p: u64)
    requires MembersConsistent(members, next)
    ensures p in members <==> exists i :: 0 <= i < |MemberRows(members)| && MemberRows(members)[i].playerId == p
  {
    var ids, rows := SortedIds(members.Keys), MemberRows(members);
    forall i | 0 <= i < |rows| ensures ids[i] in members && rows[i].playerId == ids[i] {
      assert ids[i] in ids;
    }
    if p in members {
      var i :| 0 <= i < |ids| && ids[i] == p;
      assert rows[i].playerId == p;
    }
  }

  lemma RecordedMember(r: RoomState, p: u64)
    requires Consistent(r)
    ensures p in r.members <==> HasMember(RecordOf(r), p)
  {
    MemberIsListed(r.members, r.nextId, p);
  }

  lemma MembersListed(rooms: map<u32, RoomState>, k: u32, p: u64)
    requires RoomsConsistent(rooms)
    ensures MemberListed(RoomRows(rooms), k, p) <==> k in rooms && p in rooms[k].members
  {
    hide Consistent, HasMember;
    var rows := RoomRows(rooms);
    RoomRowsFacts(rooms);
    if MemberListed(rows, k, p) {
      var i :| 0 <= i < |rows| && rows[i].roomId == k && HasMember(rows[i], p);
      RecordedMember(rooms[k], p);
    }
    if k in rooms && p in rooms[k].members {
      RecordedMember(rooms[k], p);
      var i :| 0 <= i < |rows| && rows[i] == RecordOf(rooms[k]);
      assert rows[i].roomId == k;
    }
  }

  // ---------------------------------------------------------------- the sessions of a checkpoint

  lemma SessionRowsFacts(sessions: map<Bytes, SessionState>)
    ensures forall i :: 0 <= i < |SessionRows(sessions)| ==>
              SessionRows(sessions)[i].token in sessions
                && SessionRows(sessions)[i] == Tickets(sessions)[SessionRows(sessions)[i].token]
    ensures forall t :: t in sessions ==> Tickets(sessions)[t] in SessionRows(sessions)
    ensures forall i, j :: 0 <= i < j < |SessionRows(sessions)| ==>
        SessionRows(sessions)[i].token != SessionRows(sessions)[j].token
  {
    hide LexLess;
    var tokens, rows := SortedTokens(sessions.Keys), SessionRows(sessions);
    forall i | 0 <= i < |rows| ensures tokens[i] in sessions && rows[i] == Tickets(sessions)[tokens[i]]
        && rows[i].token == tokens[i] {
      assert tokens[i] in tokens;
    }
    forall t | t in sessions ensures Tickets(sessions)[t] in rows {
      var i :| 0 <= i < |tokens| && tokens[i] == t;
      assert rows[i] == Tickets(sessions)[t];
    }
  }

  lemma SessionsListed(sessions: map<Bytes, SessionState>, k: u32, p: u64)
    ensures SessionListed(SessionRows(sessions), k, p) <==> HasSession(sessions, k, p)
  {
    var rows := SessionRows(sessions);
    SessionRowsFacts(sessions);
    hide SessionRows;
    if SessionListed(rows, k, p) {
      var i :| 0 <= i < |rows| && rows[i].roomId == k && rows[i].playerId == p;
      var t := rows[i].token;
      assert t in sessions && sessions[t].roomId == k && sessions[t].playerId == p;
    }
    if HasSession(sessions, k, p) {
      var t :| t in sessions && sessions[t].roomId == k && sessions[t].playerId == p;
      var i :| 0 <= i < |rows| && rows[i] == Tickets(sessions)[t];
      assert rows[i].roomId == k && rows[i].playerId == p;
    }
  }

  lemma SessionKeysValid(table: SessionTable)
    requires TableConsistent(table) && IdentitiesUnique(table.sessions)
    ensures ValidSessionKeys(SessionRows(table.sessions))
  {
    hide ValidToken;
    var rows := SessionRows(table.sessions);
    SessionRowsFacts(table.sessions);
    hide SessionRows;
    forall i, j | 0 <= i < j < |rows| ensures !SameIdentity(rows[i], rows[j]) {
      assert rows[i].token != rows[j].token;
    }
  }

  // ---------------------------------------------------------------- making a checkpoint never fails

  /**
   Whenever the three tables agree, the checkpoint of the server passes its own identity check,
   and its keys are fit for the file.
   */
  lemma OwnCheckpointIsSound(s: Service, generation: u64)
    requires ServiceConsistent(s)
    ensures IdentitiesMatch(CheckpointOf(s, generation).rooms, CheckpointOf(s, generation).sessions)
    ensures ValidKeys(CheckpointOf(s, generation))
  {
    hide Consistent, TableConsistent, HasSession, MemberListed, SessionListed, RoomRows, SessionRows, ValidSessionKeys;
    hide ValidRoomKeys;
    var c := CheckpointOf(s, generation);
    forall k: u32, p: u64 ensures MemberListed(c.rooms, k, p) <==> SessionListed(c.sessions, k, p) {
      MembersListed(s.rooms, k, p);
      SessionsListed(s.table.sessions, k, p);
      MemberHasSession(s, k, p);
    }
    RoomRowsFacts(s.rooms);
    SessionKeysValid(s.table);
  }

  lemma MemberHasSession(s: Service, k: u32, p: u64)
    requires ServiceConsistent(s)
    ensures HasSession(s.table.sessions, k, p) <==> k in s.rooms && p in s.rooms[k].members
  {
    hide Consistent, TableConsistent, IdentitiesUnique;
    if HasSession(s.table.sessions, k, p) {
      var t :| t in s.table.sessions && s.table.sessions[t].roomId == k && s.table.sessions[t].playerId == p;
      assert Seated(s.rooms, s.table.sessions[t]);
    }
  }

  /** So a checkpoint of a sound server encodes exactly when it is small enough. */
  lemma OwnCheckpointEncodes(s: Service, generation: u64)
    requires ServiceConsistent(s) && generation != 0
    ensures var c := CheckpointOf(s, generation);
            Encoding(c).Ok? <==> |c.rooms| < U32_LIMIT && |c.sessions| < U32_LIMIT && |Payload(c)| <= MAX_PAYLOAD_SIZE
  {
    OwnCheckpointIsSound(s, generation);
    hide ServiceConsistent, ValidKeys, Payload, CheckpointOf;
  }

  // ---------------------------------------------------------------- there and back

  ghost predicate EverybodyAboveZero(rooms: map<u32, RoomState>) {
    forall k :: k in rooms ==> NobodyBelowZero(rooms[k])
  }

  lemma RoomsRoundTrip(rooms: map<u32, RoomState>)
    requires RoomsConsistent(rooms)
    ensures RoomsAcceptable(RoomRows(rooms)) <==> EverybodyAboveZero(rooms)
    ensures RestoredRooms(RoomRows(rooms)) == AllUnplugged(rooms)
    ensures RoomRows(AllUnplugged(rooms)) == RoomRows(rooms)
  {
    forall k | k in rooms
      ensures Acceptable(RecordOf(rooms[k])) <==> NobodyBelowZero(rooms[k])
      ensures RestoredRoom(RecordOf(rooms[k])) == Unplugged(rooms[k])
      ensures RecordOf(Unplugged(rooms[k])) == RecordOf(rooms[k])
    {
      RoomRoundTrip(rooms[k]);
    }
    RoomsAcceptedTogether(rooms);
    RoomsComeBack(rooms);
    SameRecords(rooms);
  }

  lemma SameRecords(rooms: map<u32, RoomState>)
    requires forall k :: k in rooms ==> RecordOf(Unplugged(rooms[k])) == RecordOf(rooms[k])
    ensures RoomRows(AllUnplugged(rooms)) == RoomRows(rooms)
  {
    hide RecordOf, Unplugged;
    assert Records(AllUnplugged(rooms)) == Records(rooms);
    assert AllUnplugged(rooms).Keys == rooms.Keys;
  }

  lemma RoomsComeBack(rooms: map<u32, RoomState>)
    requires RoomsConsistent(rooms)
    requires forall k :: k in rooms ==> RestoredRoom(RecordOf(rooms[k])) == Unplugged(rooms[k])
    ensures RestoredRooms(RoomRows(rooms)) == AllUnplugged(rooms)
  {
    RoomTableOfRows(rooms);
    RevivedRecords(rooms);
    hide *;
    assert RestoredRooms(RoomRows(rooms)) == Revived(Table(RoomRows(rooms), RoomKey)) by { RestoredIsRevived(RoomRows(rooms)); }
  }

  lemma RestoredIsRevived(rows: seq<RoomRecord>)
    ensures RestoredRooms(rows) == Revived(Table(rows, RoomKey))
  {
    hide Revived, Table;
  }

  lemma RevivedRecords(rooms: map<u32, RoomState>)
    requires forall k :: k in rooms ==> RestoredRoom(RecordOf(rooms[k])) == Unplugged(rooms[k])
    ensures Revived(Records(rooms)) == AllUnplugged(rooms)
  {
    hide RecordOf, RestoredRoom, Unplugged;
  }

  lemma RoomsAcceptedTogether(rooms: map<u32, RoomState>)
    requires RoomsConsistent(rooms)
    requires forall k :: k in rooms ==> (Acceptable(RecordOf(rooms[k])) <==> NobodyBelowZero(rooms[k]))
    ensures RoomsAcceptable(RoomRows(rooms)) <==> EverybodyAboveZero(rooms)
  {
    RoomRowsFacts(rooms);
    hide Consistent, Acceptable, NobodyBelowZero, RecordOf, RoomRows;
    var rows := RoomRows(rooms);
    if RoomsAcceptable(rows) {
      forall k | k in rooms ensures NobodyBelowZero(rooms[k]) {
        var i :| 0 <= i < |rows| && rows[i] == RecordOf(rooms[k]);
        assert Acceptable(rows[i]);
      }
    }
  }

  lemma RoomTableOfRows(rooms: map<u32, RoomState>)
    requires RoomsConsistent(rooms)
    ensures Table(RoomRows(rooms), RoomKey) == Records(rooms)
  {
    var sorted, records := SortedIds(rooms.Keys), Records(rooms);
    forall k | k in records ensures RoomKey(records[k]) == k {
      hide Consistent;
    }
    hide *;
    forall i | 0 <= i < |sorted| ensures sorted[i] in records {
      assert sorted[i] in sorted;
    }
    var ids: seq<u32> := sorted;
    assert forall k :: k in ids <==> k in records;
    TableOfRows(records, ids, RoomKey);
    assert RoomRows(rooms) == Rows(records, ids);
  }

  /**
   A restore of the server's own checkpoint succeeds exactly when nobody is below zero; it gives
   the same server asleep, and that server's checkpoint is the same checkpoint again.
   */
  lemma ServerRoundTrip(s: Service, generation: u64, target: Service, deadline: int)
    requires ServiceConsistent(s) && generation != 0
    ensures RestoreOutcome(target, CheckpointOf(s, generation), deadline)
         == if EverybodyAboveZero(s.rooms) then (true, Asleep(s, deadline)) else (false, target)
    ensures CheckpointOf(Asleep(s, deadline), generation) == CheckpointOf(s, generation)
  {
    OwnCheckpointIsSound(s, generation);
    RoomsRoundTrip(s.rooms);
    SessionsRoundTrip(s.table.sessions, deadline);
    hide ServiceConsistent, EverybodyAboveZero, RoomsAcceptable, IdentitiesMatch, ValidRoomKeys, ValidSessionKeys;
    hide RoomRows, SessionRows, AllUnplugged, RestoredRooms, Tickets, OfflineSessions, Table;
  }

  /** The same through the bytes of the file. */
  lemma ServerThroughFile(s: Service, generation: u64, target: Service, deadline: int)
    requires ServiceConsistent(s) && Encoding(CheckpointOf(s, generation)).Ok?
    ensures Decoding(Encoding(CheckpointOf(s, generation)).value) == Ok(CheckpointOf(s, generation))
    ensures RestoreOutcome(target, Decoding(Encoding(CheckpointOf(s, generation)).value).value, deadline)
         == if EverybodyAboveZero(s.rooms) then (true, Asleep(s, deadline)) else (false, target)
  {
    DecodeUndoesEncode(CheckpointOf(s, generation));
    EncodableGeneration(CheckpointOf(s, generation));
    assert CheckpointOf(s, generation).generation == generation;
    hide ServiceConsistent, EverybodyAboveZero, RestoreOutcome, Asleep, Encoding, Decoding, CheckpointOf;
    ServerRoundTrip(s, generation, target, deadline);
  }

  lemma EncodableGeneration(c: ServerRecord)
    requires Encoding(c).Ok?
    ensures c.generation != 0
  {
  }
}
