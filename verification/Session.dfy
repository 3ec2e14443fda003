/** One player's session: who it stands for, and whether it is on a connection right now. */
module Sessions {
  import opened Common
  import opened Checkpoint
  import opened SessionModel

  datatype Presence = Online | Offline

  class Session {
    const roomId: u32
    const playerId: u64
    var presence: Presence
    var connection: Option<Conn>
    var offlineDeadline: int

    ghost function State(): SessionState
      reads this
    {
      SessionState(roomId, playerId, connection, offlineDeadline)
    }

    ghost predicate Valid()
      reads this
    {
      presence == Online <==> connection.Some?
    }

    constructor OnlineOn(roomId: u32, playerId: u64, conn: Conn)
      ensures Valid() && State() == SessionState(roomId, playerId, Some(conn), 0)
    {
      this.roomId, this.playerId := roomId, playerId;
      presence, connection, offlineDeadline := Online, Some(conn), 0;
    }

    constructor OfflineUntil(roomId: u32, playerId: u64, deadline: int)
      ensures Valid() && State() == SessionState(roomId, playerId, None, deadline)
    {
      this.roomId, this.playerId := roomId, playerId;
      presence, connection, offlineDeadline := Offline, None, deadline;
    }

    method Matches(conn: Conn) returns (same: bool)
      requires Valid()
      ensures same <==> connection == Some(conn)
    {
      if presence != Online {
        return false;
      }
      same := connection.value == conn;
    }

    /** The deadline stays as it was, so that the bind can be undone. */
    method Bind(conn: Conn, now: int) returns (ok: bool)
      requires Valid()
      modifies this
      ensures Valid()
      ensures ok <==> old(connection).None? && !Expired(old(State()), now)
      ensures State() == if ok then old(State()).(conn := Some(conn)) else old(State())
    {
      if presence != Offline {
        return false;
      }
      if now >= offlineDeadline {
        return false;
      }
      connection := Some(conn);
      presence := Online;
      ok := true;
    }

    method Detach(conn: Conn, deadline: int) returns (ok: bool)
      requires Valid()
      modifies this
      ensures Valid()
      ensures ok <==> old(connection) == Some(conn)
      ensures State() == if ok then old(State()).(conn := None, deadline := deadline) else old(State())
    {
      if presence != Online {
        return false;
      }
      var same := Matches(conn);
      if !same {
        return false;
      }
      connection := None;
      offlineDeadline := deadline;
      presence := Offline;
      ok := true;
    }

    method HasExpired(now: int) returns (yes: bool)
      requires Valid()
      ensures yes <==> Expired(State(), now)
    {
      if presence != Offline {
        return false;
      }
      yes := now >= offlineDeadline;
    }
  }
}
