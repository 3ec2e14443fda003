/** The room manager: room objects by id, each changed in place. */
module RoomManagers {
  import opened Common
  import opened Ordering
  import opened GameState
  import opened Checkpoint
  import opened Tick
  import opened RoomModel
  import opened Rooms
  import opened ServiceModel

  datatype RoomStatus =
    | Okay | RoomNotFound | RoomFull | RoomNotJoinable | NotInRoom | InvalidPlayerName | PlayerIdExhausted
    | RoomNotRunning | AlreadySubmitted | InternalError

  function JoinAnswer(status: JoinStatus): RoomStatus {
    match status
    case Joined => Okay
    case InvalidPlayerName => RoomStatus.InvalidPlayerName
    case NotJoinable => RoomNotJoinable
    case RoomFull => RoomStatus.RoomFull
    case PlayerIdExhausted => RoomStatus.PlayerIdExhausted
  }

  function StartAnswer(r: RoomState): RoomStatus {
    if |r.members| < r.capacity then Okay
    else if |r.members| > r.capacity then InternalError
    else
      match StartTransition(r, true)
      case Done => Okay
      case InvalidState => RoomNotJoinable
      case ConditionNotMet => InternalError
  }

  ghost function AfterStartIfFull(r: RoomState): RoomState {
    if |r.members| == r.capacity then AfterStart(r, true) else r
  }

  function SubmitAnswer(r: RoomState, id: u64): RoomStatus {
    if id !in r.members then NotInRoom
    else
      match SubmitOutcome(r, id)
      case Queued => Okay
      case NotRunning => RoomNotRunning
      case PlayerMissing => InternalError
      case AlreadySubmitted => RoomStatus.AlreadySubmitted
  }

  /** What a player who comes back is told about the room. */
  datatype RoomView = RoomView(phase: Phase, tickId: u64, members: seq<MemberRecord>, players: seq<Player>)

  ghost function ViewOf(r: RoomState): RoomView {
    RoomView(r.phase, r.tick, MemberRows(r.members), PlayerRows(r.players))
  }

  // ---------------------------------------------------------------- a table of room objects

  function Games(rooms: map<u32, Room>): set<Gamestate> {
    set k | k in rooms :: rooms[k].game
  }

  ghost function RoomStates(rooms: map<u32, Room>): (states: map<u32, RoomState>)
    reads rooms.Values, Games(rooms)
    ensures states.Keys == rooms.Keys
  {
    map k | k in rooms :: rooms[k].State()
  }

  /** Every id has a room object of its own, and every room a game of its own. */
  ghost predicate Apart(rooms: map<u32, Room>)
    reads rooms.Values, Games(rooms)
  {
    && (forall k :: k in rooms ==> rooms[k].Valid() && rooms[k].roomId == k)
    && (forall j, k :: j in rooms && k in rooms && j != k ==> rooms[j] != rooms[k] && rooms[j].game != rooms[k].game)
  }

  lemma RoomFacts(rooms: map<u32, Room>, k: u32)
    requires Apart(rooms) && k in rooms
    ensures rooms[k] in rooms.Values && rooms[k].game in Games(rooms)
    ensures rooms[k].Valid() && rooms[k].roomId == k && RoomStates(rooms)[k] == rooms[k].State()
  {
    hide Consistent;
  }

  /** One room changes; the table changes in that one place. */
  twostate lemma OneRoomChanged(rooms: map<u32, Room>, new k: u32)
    requires k in rooms && old(Apart(rooms)) && rooms[k].Valid()
    requires forall j :: j in rooms && rooms[j] != rooms[k] ==> unchanged(rooms[j])
    requires forall j :: j in rooms && rooms[j].game != rooms[k].game ==> unchanged(rooms[j].game)
    ensures Apart(rooms)
    ensures RoomStates(rooms) == old(RoomStates(rooms))[k := rooms[k].State()]
  {
    hide Consistent;
  }

  class RoomManager {
    var rooms: map<u32, Room>

    ghost function View(): map<u32, RoomState>
      reads this, rooms.Values, Games(rooms)
    {
      RoomStates(rooms)
    }

    ghost predicate Valid()
      reads this, rooms.Values, Games(rooms)
    {
      Apart(rooms)
    }

    constructor ()
      ensures Valid() && View() == map[] && rooms == map[]
    {
      rooms := map[];
    }

    method AddRoom(roomId: u32, capacity: u64) returns (added: bool)
      requires Valid()
      modifies this
      ensures Valid() && fresh(rooms.Values - old(rooms.Values)) && fresh(Games(rooms) - old(Games(rooms)))
      ensures added <==> roomId !in old(View())
      ensures View() == if added then old(View())[roomId := NewRoom(roomId, capacity)] else old(View())
    {
      hide Consistent, RoomStates, Apart, NewRoom;
      if roomId in rooms {
        return false;
      }
      rooms := Extended(rooms, roomId, capacity);
      added := true;
    }

    static method Built(roomId: u32, capacity: u64) returns (room: Room)
      ensures fresh(room) && fresh(room.game)
      ensures room.Valid() && room.roomId == roomId && room.State() == NewRoom(roomId, capacity)
    {
      room := new Room(roomId, capacity);
    }

    static method Extended(table: map<u32, Room>, roomId: u32, capacity: u64) returns (larger: map<u32, Room>)
      requires Apart(table) && roomId !in table
      ensures Apart(larger) && RoomStates(larger) == RoomStates(table)[roomId := NewRoom(roomId, capacity)]
      ensures fresh(larger.Values - table.Values) && fresh(Games(larger) - Games(table))
    {
      hide Consistent, RoomStates;
      label L:
      var room := Built(roomId, capacity);
      OneRoomAdded@L(table, roomId, room);
      larger := table[roomId := room];
    }

    method Join(conn: Conn, roomId: u32, name: Bytes) returns (status: RoomStatus, id: u64, others: seq<MemberRecord>)
      requires Valid()
      modifies rooms.Values
      ensures Valid()
      ensures roomId !in old(View()) ==> status == RoomNotFound && View() == old(View())
      ensures roomId in old(View()) ==>
                var r := old(View())[roomId];
                && status == JoinAnswer(JoinOutcome(r, name))
                && View() == old(View())[roomId := AfterJoin(r, conn, name)]
                && (status == Okay ==> id == r.nextId && ListsMembers(others, r.members))
    {
      hide Consistent;
      id, others := 0, [];
      if roomId !in rooms {
        return RoomNotFound, 0, [];
      }
      var room := rooms[roomId];
      RoomFacts(rooms, roomId);
      var joined, given, listed := room.Join(conn, name);
      OneRoomChanged(rooms, roomId);
      match joined
      case Joined => status, id, others := Okay, given, listed;
      case RoomFull => status := RoomStatus.RoomFull;
      case NotJoinable => status := RoomNotJoinable;
      case InvalidPlayerName => status := RoomStatus.InvalidPlayerName;
      case PlayerIdExhausted => status := RoomStatus.PlayerIdExhausted;
    }

    method StartIfFull(roomId: u32) returns (status: RoomStatus)
      requires Valid()
      modifies rooms.Values, Games(rooms)
      ensures Valid()
      ensures roomId !in old(View()) ==> status == RoomNotFound && View() == old(View())
      ensures roomId in old(View()) ==>
                && status == StartAnswer(old(View())[roomId])
                && View() == old(View())[roomId := AfterStartIfFull(old(View())[roomId])]
    {
      hide Consistent, Apart, RoomStates, Games, AfterStart;
      if roomId !in rooms {
        return RoomNotFound;
      }
      var room := rooms[roomId];
      RoomFacts(rooms, roomId);
      if |room.members| < room.capacity {
        return Okay;
      }
      if |room.members| > room.capacity {
        return InternalError;
      }
      var transition := room.Start(true);
      OneRoomChanged(rooms, roomId);
      match transition
      case Done => status := Okay;
      case InvalidState => status := RoomNotJoinable;
      case ConditionNotMet => status := InternalError;
    }

    method Leave(roomId: u32, id: u64) returns (status: RoomStatus)
      requires Valid()
      modifies rooms.Values, Games(rooms)
      ensures Valid()
      ensures status == if roomId !in old(View()) then RoomNotFound
                        else if id !in old(View())[roomId].members then NotInRoom else Okay
      ensures View() == if status == Okay then old(View())[roomId := AfterLeave(old(View())[roomId], id)] else old(View())
    {
      hide Consistent, Apart, RoomStates, Games, AfterLeave;
      if roomId !in rooms {
        return RoomNotFound;
      }
      var room := rooms[roomId];
      RoomFacts(rooms, roomId);
      if id !in room.members {
        return NotInRoom;
      }
      var left := room.Leave(id);
      OneRoomChanged(rooms, roomId);
      status := Okay;
    }

    /** `move` and `attack`. */
    method Submit(roomId: u32, c: Command) returns (status: RoomStatus)
      requires Valid()
      modifies rooms.Values
      ensures Valid()
      ensures roomId !in old(View()) ==> status == RoomNotFound && View() == old(View())
      ensures roomId in old(View()) ==>
                && status == SubmitAnswer(old(View())[roomId], c.player)
                && View() == old(View())[roomId := AfterSubmit(old(View())[roomId], c)]
    {
      hide Consistent, Apart, RoomStates, Games;
      if roomId !in rooms {
        return RoomNotFound;
      }
      var room := rooms[roomId];
      RoomFacts(rooms, roomId);
      StrangersSubmitNothing(room.State(), c);
      hide AfterSubmit, SubmitOutcome;
      if c.player !in room.members {
        return NotInRoom;
      }
      var submitted := room.Submit(c);
      OneRoomChanged(rooms, roomId);
      match submitted
      case Queued => status := Okay;
      case NotRunning => status := RoomNotRunning;
      case PlayerMissing => status := InternalError;
      case AlreadySubmitted => status := RoomStatus.AlreadySubmitted;
    }

    /** Bind the member, and describe the room it is back in. */
    method BindConnection(roomId: u32, id: u64, conn: Conn) returns (status: BindStatus, seen: RoomView)
      requires Valid()
      modifies rooms.Values
      ensures Valid()
      ensures roomId !in old(View()) ==> status == BindStatus.PlayerNotFound && View() == old(View())
      ensures roomId in old(View()) ==>
                && status == BindOutcome(old(View())[roomId], id)
                && View() == old(View())[roomId := AfterBind(old(View())[roomId], id, conn)]
                && (status == Bound ==> seen == ViewOf(View()[roomId]))
    {
      hide Consistent, Apart, RoomStates, Games, AfterBind, BindOutcome, ViewOf;
      seen := RoomView(Waiting, 0, [], []);
      if roomId !in rooms {
        return BindStatus.PlayerNotFound, seen;
      }
      var room := rooms[roomId];
      RoomFacts(rooms, roomId);
      status := room.BindConnection(id, conn);
      OneRoomChanged(rooms, roomId);
      if status == Bound {
        seen := Described(roomId);
      }
    }

    method Described(k: u32) returns (seen: RoomView)
      requires Valid() && k in rooms
      ensures Valid() && View() == old(View())
      ensures seen == ViewOf(View()[k])
    {
      hide Consistent, MemberRows, PlayerRows;
      RoomFacts(rooms, k);
      var room := rooms[k];
      var members := room.MemberSnapshot();
      var players := room.game.Snapshot();
      seen := RoomView(room.phase, room.tickId, members, players);
    }

    method DetachConnection(roomId: u32, id: u64, conn: Conn) returns (status: BindStatus)
      requires Valid()
      modifies rooms.Values
      ensures Valid()
      ensures roomId !in old(View()) ==> status == BindStatus.PlayerNotFound && View() == old(View())
      ensures roomId in old(View()) ==>
                && status == DetachOutcome(old(View())[roomId], id, conn)
                && View() == old(View())[roomId := AfterDetach(old(View())[roomId], id, conn)]
    {
      hide Consistent, Apart, RoomStates, Games, AfterBind, BindOutcome, AfterDetach, DetachOutcome;
      if roomId !in rooms {
        return BindStatus.PlayerNotFound;
      }
      var room := rooms[roomId];
      RoomFacts(rooms, roomId);
      status := room.DetachConnection(id, conn);
      OneRoomChanged(rooms, roomId);
    }

    method TickRoom(k: u32) returns (report: Option<RoomTick>)
      requires Valid() && k in rooms
      modifies rooms.Values, Games(rooms)
      ensures Valid()
      ensures View() == old(View())[k := AfterTick(old(View())[k])]
      ensures report.Some? <==> old(View())[k].phase == Running
      ensures report.Some? ==> report.value.roomId == k && Reports(report.value.result, old(View())[k])
    {
      hide Consistent, AfterTick, Settle, Apart, RoomStates, Games, Reports;
      var room := rooms[k];
      RoomFacts(rooms, k);
      TickFacts(room.State());
      if room.phase != Running {
        return None;
      }
      var r := room.Tick();
      OneRoomChanged(rooms, k);
      report := Some(RoomTick(k, r));
    }

    method TickNext(
        ids: seq<u32>, i: nat, results: seq<RoomTick>, ghost before: map<u32, RoomState>)
      returns (more: seq<RoomTick>)
      requires Valid() && i < |ids| && Distinct(ids) && Elements(ids) == before.Keys
      requires TickedSoFar(before, ids, i, View(), results)
      modifies rooms.Values, Games(rooms)
      ensures Valid() && TickedSoFar(before, ids, i + 1, View(), more)
    {
      assert ids[i] in Elements(ids);
      TickedOneMore(before, ids, i);
      assert ids[i] !in ids[..i];
      hide Consistent, AfterTick, Apart, Games, RoomStates, Reports, AllReported, Distinct, Elements, TickedAmong;
      var report := TickRoom(ids[i]);
      ReportedOneMore(results, before, ids, i, report);
      more := if report.Some? then results + [report.value] else results;
    }

    /** One tick for every running room, in whatever order the table is walked. */
    method TickRooms() returns (results: seq<RoomTick>)
      requires Valid()
      modifies rooms.Values, Games(rooms)
      ensures Valid()
      ensures View() == AllTicked(old(View()))
      ensures AllReported(results, old(View()), old(View()).Keys)
    {
      hide Consistent, Apart, RoomStates;
      ghost var before := View();
      var ids := Walk(rooms.Keys);
      TickedNone(before, ids);
      results := [];
      assert Elements(ids) == before.Keys && View() == before;
      hide *;
      for i := 0 to |ids|
        invariant Valid() && TickedSoFar(before, ids, i, View(), results)
      {
        results := TickNext(ids, i, results, before);
      }
      TickedAll(before, ids, View(), results);
    }

    method MakeCheckpoint() returns (rows: seq<RoomRecord>)
      requires Valid()
      ensures rows == RoomRows(View())
    {
      var ids := SortIds(rooms.Keys);
      rows := RowsFor(ids);
    }

    method RowsFor(ids: seq<u64>) returns (rows: seq<RoomRecord>)
      requires Valid() && ids == SortedIds(rooms.Keys)
      ensures rows == RoomRows(View())
    {
      ghost var states := View();
      RowCount(states);
      rows := [];
      hide Consistent, Apart, RoomRows;
      for i := 0 to |ids|
        invariant Valid() && View() == states
        invariant rows == RoomRows(states)[..i]
      {
        hide RoomStates;
        RowAt(states, i);
        var row := RowFor(ids[i]);
        rows := rows + [row];
      }
    }

    method RowFor(k: u32) returns (row: RoomRecord)
      requires Valid() && k in View()
      ensures Valid() && View() == old(View()) && row == RecordOf(View()[k])
    {
      hide Consistent;
      RoomFacts(rooms, k);
      row := rooms[k].MakeCheckpoint();
    }

    /** A second table is built on the side; it replaces the first only when every room passed. */
    method RestoreCheckpoint(rows: seq<RoomRecord>) returns (ok: bool)
      requires Valid()
      modifies this
      ensures Valid() && fresh(rooms.Values - old(rooms.Values)) && fresh(Games(rooms) - old(Games(rooms)))
      ensures ok <==> RoomsAcceptable(rows)
      ensures View() == if ok then RestoredRooms(rows) else old(View())
    {
      hide Consistent, RoomsAcceptable, RestoredRooms;
      ghost var before := View();
      var gathered, temp := Rebuild(rows);
      assert Valid() by { hide RoomStates; }
      assert View() == before by { hide Apart; }
      hide Apart, RoomStates, Games;
      if !gathered {
        return false;
      }
      rooms := temp;
      ok := true;
    }

    static method Rebuild(rows: seq<RoomRecord>) returns (ok: bool, temp: map<u32, Room>)
      ensures fresh(temp.Values) && fresh(Games(temp))
      ensures ok <==> RoomsAcceptable(rows)
      ensures ok ==> Apart(temp) && RoomStates(temp) == RestoredRooms(rows)
    {
      ok, temp := true, map[];
      NoRoomsYet();
      hide Consistent, RoomsAcceptable, RestoredRooms;
      for i := 0 to |rows|
        invariant fresh(temp.Values) && fresh(Games(temp)) && Apart(temp)
        invariant RestoredSoFar(rows, i, RoomStates(temp))
      {
        hide *;
        FirstRoomsAcceptable(rows, i + 1);
        ok, temp := RestoreNext(temp, rows, i);
        if !ok {
          return;
        }
      }
      assert rows[..|rows|] == rows;
      ok := true;
    }

    static method RestoreNext(
        temp: map<u32, Room>, rows: seq<RoomRecord>, i: nat)
      returns (ok: bool, more: map<u32, Room>)
      requires Apart(temp) && i < |rows| && RestoredSoFar(rows, i, RoomStates(temp))
      ensures fresh(more.Values - temp.Values) && fresh(Games(more) - Games(temp))
      ensures ok <==> RoomsAcceptable(rows[..i + 1])
      ensures ok ==> Apart(more) && RestoredSoFar(rows, i + 1, RoomStates(more))
    {
      hide Consistent, Apart, RoomStates, Games, RoomsAcceptable, RestoredRooms, Acceptable, RestoredRoom;
      RoomOneMore(rows, i);
      if rows[i].roomId in temp {
        return false, temp;
      }
      ok, more := AddRestored(temp, rows[i]);
    }

    static method AddRestored(temp: map<u32, Room>, row: RoomRecord) returns (ok: bool, more: map<u32, Room>)
      requires Apart(temp) && row.roomId !in temp
      ensures fresh(more.Values - temp.Values) && fresh(Games(more) - Games(temp))
      ensures ok <==> Acceptable(row)
      ensures ok ==> Apart(more) && RoomStates(more) == old(RoomStates(temp))[row.roomId := RestoredRoom(row)]
    {
      hide Consistent, Acceptable, RestoredRoom;
      more := temp;
      label L:
      ghost var states := RoomStates(temp);
      var room;
      ok, room := RestoredAlone(row);
      assert RoomStates(temp) == states;
      hide RoomStates;
      if ok {
        OneRoomAdded@L(temp, row.roomId, room);
        hide Apart, Games;
        more := temp[row.roomId := room];
      }
    }

    static method RestoredAlone(row: RoomRecord) returns (ok: bool, room: Room)
      ensures fresh(room) && fresh(room.game)
      ensures ok <==> Acceptable(row)
      ensures ok ==> room.Valid() && room.roomId == row.roomId && room.State() == RestoredRoom(row)
    {
      hide Consistent, Acceptable, RestoredRoom;
      room := new Room(row.roomId, row.capacity);
      ok := room.RestoreCheckpoint(row);
    }
  }

  // ---------------------------------------------------------------- ticking room by room

  datatype RoomTick = RoomTick(roomId: u32, result: TickResult)

  function AllTicked(rooms: map<u32, RoomState>): map<u32, RoomState> {
    map k | k in rooms :: AfterTick(rooms[k])
  }

  ghost predicate HasReport(results: seq<RoomTick>, k: u32) {
    exists i :: 0 <= i < |results| && results[i].roomId == k
  }

  /** Every running room among `ids` is reported once, nobody else is, and every report is true. */
  ghost predicate AllReported(results: seq<RoomTick>, before: map<u32, RoomState>, ids: set<u32>) {
    && (forall i, j :: 0 <= i < j < |results| ==> results[i].roomId != results[j].roomId)
    && (forall t :: t in results ==>
          t.roomId in ids && t.roomId in before && before[t.roomId].phase == Running && Reports(t.result, before[t.roomId]))
    && (forall k :: k in ids && k in before && before[k].phase == Running ==> HasReport(results, k))
  }

  lemma ReportedOneMore(
      results: seq<RoomTick>, before: map<u32, RoomState>, ids: seq<u32>, i: nat, report: Option<RoomTick>)
    requires i < |ids| && ids[i] !in ids[..i] && ids[i] in before && AllReported(results, before, Elements(ids[..i]))
    requires report.Some? <==> before[ids[i]].phase == Running
    requires report.Some? ==> report.value.roomId == ids[i] && Reports(report.value.result, before[ids[i]])
    ensures AllReported(if report.Some? then results + [report.value] else results, before, Elements(ids[..i + 1]))
  {
    assert ids[..i + 1] == ids[..i] + [ids[i]];
    assert Elements(ids[..i + 1]) == Elements(ids[..i]) + {ids[i]};
    hide AllReported, Reports;
    if report.Some? {
      RunningReported(results, before, Elements(ids[..i]), report.value);
    } else {
      NothingToReport(results, before, Elements(ids[..i]), ids[i]);
    }
  }

  lemma NothingToReport(results: seq<RoomTick>, before: map<u32, RoomState>, ids: set<u32>, k: u32)
    requires AllReported(results, before, ids) && k in before && before[k].phase != Running
    ensures AllReported(results, before, ids + {k})
  {
    hide Reports, HasReport;
  }

  lemma RunningReported(results: seq<RoomTick>, before: map<u32, RoomState>, ids: set<u32>, t: RoomTick)
    requires AllReported(results, before, ids) && t.roomId !in ids
    requires t.roomId in before && before[t.roomId].phase == Running && Reports(t.result, before[t.roomId])
    ensures AllReported(results + [t], before, ids + {t.roomId})
  {
    hide Reports;
    var more := results + [t];
    assert HasReport(more, t.roomId) by { assert more[|results|] == t; }
    forall k | HasReport(results, k) ensures HasReport(more, k) {
      var j :| 0 <= j < |results| && results[j].roomId == k;
      assert more[j].roomId == k;
    }
    hide HasReport;
    forall i, j | 0 <= i < j < |more| ensures more[i].roomId != more[j].roomId {
      assert results[i] in results;
    }
  }

  lemma TickFacts(r: RoomState)
    ensures r.phase != Running ==> AfterTick(r) == r
    ensures r.phase == Running ==> AfterTick(r).tick == Next64(r.tick)
  {
  }

  lemma RowCount(rooms: map<u32, RoomState>)
    ensures |RoomRows(rooms)| == |SortedIds(rooms.Keys)|
  {
  }

  lemma RowAt(rooms: map<u32, RoomState>, i: nat)
    requires i < |SortedIds(rooms.Keys)|
    ensures i < |RoomRows(rooms)|
    ensures SortedIds(rooms.Keys)[i] in rooms && RoomRows(rooms)[i] == RecordOf(rooms[SortedIds(rooms.Keys)[i]])
  {
    hide RecordOf;
    assert SortedIds(rooms.Keys)[i] in SortedIds(rooms.Keys);
  }

  function TickedAmong(rooms: map<u32, RoomState>, ids: set<u32>): map<u32, RoomState> {
    map k | k in rooms :: if k in ids then AfterTick(rooms[k]) else rooms[k]
  }

  /** The first `i` of the walked rooms have ticked and been reported. */
  ghost predicate TickedSoFar(
      before: map<u32, RoomState>, ids: seq<u32>, i: nat, now: map<u32, RoomState>, results: seq<RoomTick>)
  {
    i <= |ids| && now == TickedAmong(before, Elements(ids[..i])) && AllReported(results, before, Elements(ids[..i]))
  }

  lemma TickedNone(rooms: map<u32, RoomState>, ids: seq<u32>)
    ensures TickedSoFar(rooms, ids, 0, rooms, [])
  {
    hide AfterTick;
  }

  lemma TickedAll(rooms: map<u32, RoomState>, ids: seq<u32>, now: map<u32, RoomState>, results: seq<RoomTick>)
    requires Elements(ids) == rooms.Keys && TickedSoFar(rooms, ids, |ids|, now, results)
    ensures now == AllTicked(rooms) && AllReported(results, rooms, rooms.Keys)
  {
    hide AfterTick, AllReported;
    assert ids[..|ids|] == ids;
  }

  lemma TickedOneMore(rooms: map<u32, RoomState>, ids: seq<u32>, i: nat)
    requires i < |ids| && Distinct(ids) && ids[i] in rooms
    ensures TickedAmong(rooms, Elements(ids[..i]))[ids[i]] == rooms[ids[i]]
    ensures TickedAmong(rooms, Elements(ids[..i + 1]))
         == TickedAmong(rooms, Elements(ids[..i]))[ids[i] := AfterTick(rooms[ids[i]])]
  {
    hide AfterTick;
    assert ids[..i + 1] == ids[..i] + [ids[i]];
    assert Elements(ids[..i + 1]) == Elements(ids[..i]) + {ids[i]};
    assert ids[i] !in ids[..i];
  }

  // ---------------------------------------------------------------- restoring room by room

  lemma NoRoomsYet()
    ensures RoomsAcceptable([]) && RestoredRooms([]) == map[]
  {
  }

  /** The first `i` records passed, and these are their rooms. */
  ghost predicate RestoredSoFar(rows: seq<RoomRecord>, i: nat, states: map<u32, RoomState>) {
    i <= |rows| && RoomsAcceptable(rows[..i]) && states == RestoredRooms(rows[..i])
  }

  lemma FirstRoomsAcceptable(rows: seq<RoomRecord>, n: nat)
    requires n <= |rows|
    ensures RoomsAcceptable(rows) ==> RoomsAcceptable(rows[..n])
  {
    hide Acceptable;
  }

  lemma RoomOneMore(rows: seq<RoomRecord>, i: nat)
    requires i < |rows| && RoomsAcceptable(rows[..i])
    ensures RestoredRooms(rows[..i + 1]) == RestoredRooms(rows[..i])[rows[i].roomId := RestoredRoom(rows[i])]
    ensures RoomsAcceptable(rows[..i + 1]) <==> rows[i].roomId !in RestoredRooms(rows[..i]) && Acceptable(rows[i])
  {
    hide Acceptable, RestoredRoom;
    var front, more := rows[..i], rows[..i + 1];
    assert more == front + [rows[i]] && more[..i] == front;
    OneMoreRoom(front, rows[i]);
  }

  lemma OneMoreRoom(front: seq<RoomRecord>, row: RoomRecord)
    requires RoomsAcceptable(front)
    ensures RoomsAcceptable(front + [row]) <==> row.roomId !in RestoredRooms(front) && Acceptable(row)
  {
    hide Acceptable, RestoredRoom;
    var more := front + [row];
    assert forall j :: 0 <= j < |front| ==> more[j] == front[j];
    assert more[|front|] == row;
    TableKeys(front, RoomKey);
    assert RestoredRooms(front).Keys == Table(front, RoomKey).Keys;
    if row.roomId in RestoredRooms(front) {
      var j :| 0 <= j < |front| && RoomKey(front[j]) == row.roomId;
      assert more[j].roomId == more[|front|].roomId;
    } else {
      forall j | 0 <= j < |front| ensures front[j].roomId != row.roomId {
        assert RoomKey(front[j]) in Table(front, RoomKey);
      }
    }
  }

  lemma StrangersSubmitNothing(r: RoomState, c: Command)
    ensures c.player !in r.members ==> AfterSubmit(r, c) == r
  {
  }

  /** A room that has just been built shares nothing with those in the table. */
  twostate lemma OneRoomAdded(rooms: map<u32, Room>, new k: u32, new room: Room)
    requires Apart(rooms) && k !in rooms && fresh(room) && fresh(room.game)
    requires room.Valid() && room.roomId == k
    ensures Apart(rooms[k := room])
    ensures RoomStates(rooms[k := room]) == RoomStates(rooms)[k := room.State()]
    ensures Games(rooms[k := room]) <= Games(rooms) + {room.game}
    ensures rooms[k := room].Values <= rooms.Values + {room}
  {
    hide Consistent;
    var larger := rooms[k := room];
    assert Apart(larger) by { hide RoomStates; }
    hide Apart;
    assert RoomStates(larger) == RoomStates(rooms)[k := room.State()] by { hide Games; }
  }
}
