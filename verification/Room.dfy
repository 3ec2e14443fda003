/** The room object: the fields of one room, changed in place. */
module Rooms {
  import opened Common
  import opened Ordering
  import opened GameState
  import opened Checkpoint
  import opened Tick
  import opened RoomModel

  datatype TickResult = TickResult(ticked: bool, tickId: u64, processed: nat, successful: nat, snapshot: seq<Player>)

  /** What a tick announces is what it did to the room. */
  ghost predicate Reports(r: TickResult, before: RoomState) {
    var settled := Settle(before.players, before.pending);
    && r.ticked && r.tickId == Next64(before.tick) && r.processed == |before.pending|
    && r.successful == settled.successes && r.snapshot == PlayerRows(settled.players)
  }

  /** One row for each member, in no particular order. */
  ghost predicate ListsMembers(rows: seq<MemberRecord>, members: map<u64, Member>) {
    && |rows| == |members|
    && (forall i, j :: 0 <= i < j < |rows| ==> rows[i].playerId != rows[j].playerId)
    && (forall i :: 0 <= i < |rows| ==> rows[i].playerId in members && rows[i] == Names(members)[rows[i].playerId])
  }

  class Room {
    const roomId: u32
    const capacity: u64
    var nextPlayerId: u64
    var phase: Phase
    const game: Gamestate
    var tickId: u64
    var members: map<u64, Member>
    var pending: seq<Command>

    ghost function State(): RoomState
      reads this, game
    {
      RoomState(roomId, capacity, nextPlayerId, phase, tickId, members, game.players, pending)
    }

    ghost predicate Valid()
      reads this, game
    {
      Consistent(State())
    }

    constructor (roomId: u32, capacity: u64)
      ensures Valid() && fresh(game)
      ensures State() == NewRoom(roomId, capacity)
    {
      this.roomId, this.capacity := roomId, capacity;
      nextPlayerId, phase, tickId := 1, Waiting, 0;
      members, pending := map[], [];
      game := new Gamestate();
    }

    method Start(ready: bool) returns (t: Transition)
      requires Valid()
      modifies this, game
      ensures Valid()
      ensures t == StartTransition(old(State()), ready)
      ensures State() == AfterStart(old(State()), ready)
    {
      StepKeepsConsistent(State(), RoomOp.Start(ready));
      ConsistentFacts(State());
      hide Consistent, WellFormed, StartingLine;
      if phase != Waiting {
        return InvalidState;
      }
      if !ready {
        return ConditionNotMet;
      }
      var started, temp := NewGame(members);
      if !started {
        return ConditionNotMet;
      }
      phase := Running;
      game.players := temp.players;
      tickId := 0;
      pending := [];
      t := Done;
    }

    /** The game state a start would publish, built on the side. */
    static method NewGame(members: map<u64, Member>) returns (started: bool, temp: Gamestate)
      requires 0 !in members
      ensures fresh(temp)
      ensures started <==> 0 < |members| <= MAX_PLAYERS
      ensures started ==> temp.players == StartingLine(members.Keys)
    {
      var ids := Walk(members.Keys);
      WalkCanStart(members, ids);
      temp := new Gamestate();
      var status := temp.Initialize(ids);
      started := status == Success;
    }

    method Finish(should: bool) returns (t: Transition)
      requires Valid()
      modifies this
      ensures Valid()
      ensures t == FinishTransition(old(State()), should)
      ensures State() == AfterFinish(old(State()), should)
    {
      StepKeepsConsistent(State(), RoomOp.Finish(should));
      hide Consistent;
      if phase != Running {
        return InvalidState;
      }
      if !should {
        return ConditionNotMet;
      }
      phase := Finished;
      pending := [];
      t := Done;
    }

    method Join(conn: Conn, name: Bytes) returns (status: JoinStatus, id: u64, others: seq<MemberRecord>)
      requires Valid()
      modifies this
      ensures Valid()
      ensures status == JoinOutcome(old(State()), name)
      ensures State() == AfterJoin(old(State()), conn, name)
      ensures status == Joined ==> id == old(nextPlayerId) && ListsMembers(others, old(members))
    {
      id, others := 0, [];
      JoinKeepsConsistent(State(), conn, name);
      ConsistentFacts(State());
      hide Consistent, WellFormed;
      if |name| == 0 || |name| > MAX_PLAYER_NAME_SIZE {
        return InvalidPlayerName, 0, [];
      }
      if phase != Waiting {
        return NotJoinable, 0, [];
      }
      if |members| >= capacity {
        return RoomFull, 0, [];
      }
      if nextPlayerId == 0 {
        return PlayerIdExhausted, 0, [];
      }
      others := MemberList();
      id := nextPlayerId;
      members := members[id := Member(id, name, Some(conn))];
      nextPlayerId := Next64(nextPlayerId);
      status := Joined;
    }

    method MemberList() returns (rows: seq<MemberRecord>)
      requires Valid()
      ensures ListsMembers(rows, members)
    {
      var ids := Walk(members.Keys);
      DistinctCount(ids);
      assert |members| == |members.Keys|;
      rows := [];
      for i := 0 to |ids|
        invariant |rows| == i
        invariant forall j :: 0 <= j < i ==> ids[j] in members && rows[j] == Names(members)[ids[j]] && rows[j].playerId == ids[j]
      {
        assert ids[i] in Elements(ids);
        rows := rows + [MemberRecord(members[ids[i]].id, members[ids[i]].name)];
      }
    }

    /** Takes the member out, and its game state too once the game has begun. */
    method Leave(id: u64) returns (ok: bool)
      requires Valid()
      modifies this, game
      ensures Valid()
      ensures ok <==> id in old(members)
      ensures State() == if ok then AfterLeave(old(State()), id) else old(State())
    {
      ghost var before := State();
      if id !in members {
        return false;
      }
      RemoveKeepsConsistent(before, {id});
      ConsistentFacts(before);
      hide Consistent, WellFormed;
      if phase != Waiting {
        var status := game.RemovePlayer(id);
        if status != Success {
          assert false;
          return false;
        }
      }
      members := members - {id};
      assert before.players - {id} == game.players;
      ok := true;
    }

    method HasPendingCommand(id: u64) returns (found: bool)
      ensures found <==> HasPending(pending, id)
    {
      for i := 0 to |pending|
        invariant forall j :: 0 <= j < i ==> pending[j].player != id
      {
        if pending[i].player == id {
          return true;
        }
      }
      found := false;
    }

    /** `submit_move` and `submit_attack`: the command waits for the next tick. */
    method Submit(c: Command) returns (status: SubmitStatus)
      requires Valid()
      modifies this
      ensures Valid()
      ensures status == SubmitOutcome(old(State()), c.player)
      ensures State() == AfterSubmit(old(State()), c)
    {
      StepKeepsConsistent(State(), RoomOp.Submit(c));
      hide Consistent;
      if phase != Running {
        return NotRunning;
      }
      if c.player !in members {
        return PlayerMissing;
      }
      var waiting := HasPendingCommand(c.player);
      if waiting {
        return AlreadySubmitted;
      }
      pending := pending + [c];
      status := Queued;
    }

    method ProcessCommand(c: Command) returns (done: bool)
      requires WellFormed(game.players)
      modifies game
      ensures done <==> Succeeds(old(game.players), c)
      ensures game.players == Applied(old(game.players), c)
    {
      match c
      case Move(id, dx, dy) =>
        var status := game.MovePlayer(id, dx, dy);
        done := status == Success;
      case Attack(id, target) =>
        var r := game.AttackPlayer(id, target);
        done := r.status == Success;
    }

    /** The command loop of a tick. */
    method SettleAll(commands: seq<Command>) returns (successful: nat)
      requires WellFormed(game.players)
      modifies game
      ensures game.players == Settle(old(game.players), commands).players
      ensures successful == Settle(old(game.players), commands).successes
    {
      successful := 0;
      ghost var before := game.players;
      SettleNothing(before);
      hide Settle, WellFormed;
      for i := 0 to |commands|
        invariant game.players == Settle(before, commands[..i]).players && WellFormed(game.players)
        invariant successful == Settle(before, commands[..i]).successes
      {
        SettleOneMore(before, commands, i);
        SettleKeepsWellFormed(before, commands[..i + 1]);
        var done := ProcessCommand(commands[i]);
        if done {
          successful := successful + 1;
        }
      }
      assert commands[..|commands|] == commands;
    }

    method Tick() returns (r: TickResult)
      requires Valid()
      modifies this, game
      ensures Valid()
      ensures State() == AfterTick(old(State()))
      ensures r.ticked <==> old(phase) == Running
      ensures r.tickId == tickId
      ensures r.ticked ==> Reports(r, old(State()))
    {
      hide Consistent, WellFormed, Settle, PlayerRows;
      if phase != Running {
        return TickResult(false, tickId, 0, 0, []);
      }
      var processed := |pending|;
      var successful := Advance();
      var snapshot := game.Snapshot();
      r := TickResult(true, tickId, processed, successful, snapshot);
    }

    /** Take the queue, settle it, move the clock. */
    method Advance() returns (successful: nat)
      requires Valid() && phase == Running
      modifies this, game
      ensures Valid()
      ensures State() == AfterTick(old(State()))
      ensures successful == Settle(old(game.players), old(pending)).successes
    {
      ghost var before := State();
      StepKeepsConsistent(before, TickOnce);
      ConsistentFacts(before);
      hide Consistent, WellFormed, Settle;
      var commands := pending;
      pending := [];
      successful := SettleAll(commands);
      tickId := Next64(tickId);
      assert State() == AfterTick(before);
    }

    method BindConnection(id: u64, conn: Conn) returns (status: BindStatus)
      requires Valid()
      modifies this
      ensures Valid()
      ensures status == BindOutcome(old(State()), id)
      ensures State() == AfterBind(old(State()), id, conn)
    {
      StepKeepsConsistent(State(), Bind(id, conn));
      hide Consistent;
      if id !in members {
        return BindStatus.PlayerNotFound;
      }
      if members[id].conn.Some? {
        return AlreadyBound;
      }
      members := members[id := members[id].(conn := Some(conn))];
      status := Bound;
    }

    method DetachConnection(id: u64, conn: Conn) returns (status: BindStatus)
      requires Valid()
      modifies this
      ensures Valid()
      ensures status == DetachOutcome(old(State()), id, conn)
      ensures State() == AfterDetach(old(State()), id, conn)
    {
      StepKeepsConsistent(State(), Detach(id, conn));
      hide Consistent;
      if id !in members {
        return BindStatus.PlayerNotFound;
      }
      if members[id].conn.None? {
        return NotBound;
      }
      if members[id].conn.value != conn {
        return ConnectionMismatch;
      }
      members := members[id := members[id].(conn := None)];
      status := Bound;
    }

    method MemberSnapshot() returns (rows: seq<MemberRecord>)
      ensures rows == MemberRows(members)
    {
      var ids := SortIds(members.Keys);
      rows := [];
      for i := 0 to |ids|
        invariant rows == MemberRows(members)[..i]
      {
        rows := rows + [MemberRecord(members[ids[i]].id, members[ids[i]].name)];
      }
    }

    /** Walk the members, sort by id, and put the sorted game state beside them. */
    method MakeCheckpoint() returns (c: RoomRecord)
      requires Valid()
      ensures c == RecordOf(State())
    {
      var rows := MemberSnapshot();
      var players := game.Snapshot();
      c := RoomRecord(roomId, capacity, nextPlayerId, phase, tickId, rows, players);
    }

    /** Everything is checked on temporaries; the fields change only at the very end. */
    method RestoreCheckpoint(c: RoomRecord) returns (ok: bool)
      requires Valid()
      modifies this, game
      ensures Valid()
      ensures ok <==> c.roomId == roomId && c.capacity == capacity && Acceptable(c)
      ensures State() == if ok then RestoredRoom(c) else old(State())
    {
      hide Consistent, Restorable, MembersAcceptable, HasMember, Table;
      if c.roomId != roomId || c.capacity != capacity || |c.members| > capacity {
        return false;
      }
      var membersOk, temp := CheckMembers(c.members, c.nextPlayerId);
      if !membersOk {
        return false;
      }
      var shapeOk := CheckShape(c, temp);
      if !shapeOk {
        return false;
      }
      var tempGame := new Gamestate();
      var restored := tempGame.Restore(c.players);
      if !restored {
        return false;
      }
      RestoredIsConsistent(c);
      members := temp;
      game.players := tempGame.players;
      phase := c.phase;
      nextPlayerId := c.nextPlayerId;
      tickId := c.tickId;
      pending := [];
      ok := true;
    }

    /** A waiting room has no game; any other has one game state per member and no stranger. */
    static method CheckShape(c: RoomRecord, temp: map<u64, Member>) returns (ok: bool)
      requires MembersAcceptable(c.members, c.nextPlayerId) && temp == OfflineMembers(Table(c.members, RecordId))
      ensures ok <==> if c.phase == Waiting then c.tickId == 0 && c.players == []
                      else |c.players| == |c.members| && forall i :: 0 <= i < |c.players| ==> HasMember(c, c.players[i].id)
    {
      match c.phase {
        case Waiting =>
          if c.tickId != 0 || |c.players| != 0 {
            return false;
          }
        case Running =>
        case Finished =>
      }
      if c.phase == Running || c.phase == Finished {
        TableSize(c.members, RecordId);
        assert temp.Keys == Table(c.members, RecordId).Keys;
        if |c.players| != |temp| {
          return false;
        }
        for i := 0 to |c.players|
          invariant forall j :: 0 <= j < i ==> HasMember(c, c.players[j].id)
        {
          SeenMember(c, c.players[i].id);
          if c.players[i].id !in temp {
            return false;
          }
        }
      }
      ok := true;
    }

    static method CheckMembers(rows: seq<MemberRecord>, next: u64) returns (ok: bool, temp: map<u64, Member>)
      ensures ok <==> MembersAcceptable(rows, next)
      ensures ok ==> temp == OfflineMembers(Table(rows, RecordId))
    {
      ok, temp := GatherMembers(rows);
      if ok {
        IdsBelow(rows, next);
        if next != 0 {
          ok := AllBelow(temp.Keys, next);
        }
      }
    }

    static method GatherMembers(rows: seq<MemberRecord>) returns (ok: bool, temp: map<u64, Member>)
      ensures ok <==> MembersAcceptable(rows, 0)
      ensures ok ==> temp == OfflineMembers(Table(rows, RecordId))
    {
      temp := map[];
      NoMembersYet();
      hide Table, OfflineMembers, MembersAcceptable;
      for i := 0 to |rows|
        invariant temp == OfflineMembers(Table(rows[..i], RecordId))
        invariant MembersAcceptable(rows[..i], 0)
      {
        MemberOneMore(rows, i);
        if rows[i].playerId == 0 || rows[i].playerId in temp || !NameFits(rows[i].name) {
          return false, temp;
        }
        temp := temp[rows[i].playerId := Member(rows[i].playerId, rows[i].name, None)];
      }
      assert rows[..|rows|] == rows;
      ok := true;
    }

    /** Every issued id must lie below the next one to issue. */
    static method AllBelow(keys: set<u64>, next: u64) returns (ok: bool)
      ensures ok <==> Bounded(keys, next)
    {
      var ids := Walk(keys);
      for i := 0 to |ids|
        invariant forall j :: 0 <= j < i ==> ids[j] < next
      {
        if next <= ids[i] {
          assert ids[i] in Elements(ids) && ids[i] in keys;
          return false;
        }
      }
      assert forall id :: id in keys ==> id in Elements(ids);
      ok := true;
    }
  }

  lemma NoMembersYet()
    ensures OfflineMembers(Table([], RecordId)) == map[] && MembersAcceptable([], 0)
  {
  }

  predicate Bounded(keys: set<u64>, next: u64) {
    forall id :: id in keys ==> id < next
  }

  lemma IdsBelow(rows: seq<MemberRecord>, next: u64)
    requires MembersAcceptable(rows, 0)
    ensures MembersAcceptable(rows, next) <==> next == 0 || Bounded(OfflineMembers(Table(rows, RecordId)).Keys, next)
  {
    var keys := OfflineMembers(Table(rows, RecordId)).Keys;
    TableKeys(rows, RecordId);
    forall j | 0 <= j < |rows| ensures rows[j].playerId in keys {
      assert RecordId(rows[j]) in Table(rows, RecordId);
    }
    if MembersAcceptable(rows, next) && next != 0 {
      forall id | id in keys ensures id < next {
        var j :| 0 <= j < |rows| && RecordId(rows[j]) == id;
        assert rows[j].playerId < next;
      }
      assert Bounded(keys, next);
    }
  }

  lemma MemberOneMore(rows: seq<MemberRecord>, i: nat)
    requires i < |rows| && MembersAcceptable(rows[..i], 0)
    ensures var row, sofar := rows[i], OfflineMembers(Table(rows[..i], RecordId));
            && OfflineMembers(Table(rows[..i + 1], RecordId)) == sofar[row.playerId := Member(row.playerId, row.name, None)]
            && (MembersAcceptable(rows[..i + 1], 0) <==> row.playerId != 0 && row.playerId !in sofar && NameFits(row.name))
            && (MembersAcceptable(rows, 0) ==> MembersAcceptable(rows[..i + 1], 0))
  {
    var front, more := rows[..i], rows[..i + 1];
    assert more == front + [rows[i]] && more[..i] == front;
    assert forall j :: 0 <= j <= i ==> more[j] == rows[j];
    assert OfflineMembers(Table(more, RecordId))
        == OfflineMembers(Table(front, RecordId))[rows[i].playerId := Member(rows[i].playerId, rows[i].name, None)];
    OneMoreMember(front, rows[i]);
  }

  lemma OneMoreMember(front: seq<MemberRecord>, row: MemberRecord)
    requires MembersAcceptable(front, 0)
    ensures MembersAcceptable(front + [row], 0)
       <==> row.playerId != 0 && row.playerId !in OfflineMembers(Table(front, RecordId)) && NameFits(row.name)
  {
    hide NameFits;
    var more := front + [row];
    assert forall j :: 0 <= j < |front| ==> more[j] == front[j];
    assert more[|front|] == row;
    TableKeys(front, RecordId);
    assert OfflineMembers(Table(front, RecordId)).Keys == Table(front, RecordId).Keys;
    hide Table, OfflineMembers;
    if row.playerId in Table(front, RecordId) {
      var j :| 0 <= j < |front| && RecordId(front[j]) == row.playerId;
      assert more[j].playerId == more[|front|].playerId;
    } else {
      forall j | 0 <= j < |front| ensures front[j].playerId != row.playerId {
        assert RecordId(front[j]) in Table(front, RecordId);
      }
    }
  }

  lemma WalkCanStart(members: map<u64, Member>, ids: seq<u64>)
    requires Distinct(ids) && Elements(ids) == members.Keys && 0 !in members
    ensures CanStart(ids) <==> 0 < |members| <= MAX_PLAYERS
  {
    DistinctCount(ids);
    assert |members| == |members.Keys|;
    assert forall id :: id in ids ==> id in Elements(ids);
  }

  lemma SeenMember(c: RoomRecord, id: u64)
    ensures id in Table(c.members, RecordId) <==> HasMember(c, id)
  {
    TableKeys(c.members, RecordId);
    if HasMember(c, id) {
      var j :| 0 <= j < |c.members| && c.members[j].playerId == id;
      assert RecordId(c.members[j]) == id;
    }
  }
}
