/** What a checkpoint holds: the business state of every room and every session. */
module Checkpoint {
  import opened Common
  import opened GameState

  const SESSION_TOKEN_SIZE := 32

  /** The three states of a room. */
  datatype Phase = Waiting | Running | Finished

  datatype MemberRecord = MemberRecord(playerId: u64, name: Bytes)

  datatype RoomRecord = RoomRecord(
    roomId: u32, capacity: u64, nextPlayerId: u64, phase: Phase, tickId: u64,
    members: seq<MemberRecord>, players: seq<Player>)

  datatype SessionRecord = SessionRecord(token: Bytes, roomId: u32, playerId: u64)

  datatype ServerRecord = ServerRecord(generation: u64, rooms: seq<RoomRecord>, sessions: seq<SessionRecord>)

  predicate LowerHex(ch: byte) {
    '0' as int <= ch <= '9' as int || 'a' as int <= ch <= 'f' as int
  }

  /** Thirty-two lower-case hexadecimal digits. */
  predicate ValidToken(token: Bytes) {
    |token| == SESSION_TOKEN_SIZE && forall i :: 0 <= i < |token| ==> LowerHex(token[i])
  }

  ghost predicate ValidRoomKeys(rooms: seq<RoomRecord>) {
    forall i, j :: 0 <= i < j < |rooms| ==> rooms[i].roomId != rooms[j].roomId
  }

  predicate SameIdentity(a: SessionRecord, b: SessionRecord) {
    a.roomId == b.roomId && a.playerId == b.playerId
  }

  ghost predicate ValidSessionKeys(sessions: seq<SessionRecord>) {
    && (forall i :: 0 <= i < |sessions| ==> ValidToken(sessions[i].token))
    && (forall i, j :: 0 <= i < j < |sessions| ==>
          sessions[i].token != sessions[j].token && !SameIdentity(sessions[i], sessions[j]))
  }

  /** No room, token or (room, player) pair appears twice, and tokens are well formed. */
  ghost predicate ValidKeys(c: ServerRecord) {
    ValidRoomKeys(c.rooms) && ValidSessionKeys(c.sessions)
  }
}
