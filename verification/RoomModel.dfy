/**
 One room as a value, and what each operation on a room does to it. `Consistent` is what holds
 of every room the server can ever hold; every operation keeps it.
 */
module RoomModel {
  import opened Common
  import opened Ordering
  import opened GameState
  import opened Checkpoint
  import opened Tick

  const MAX_PLAYER_NAME_SIZE := 32

  /** A member of a room; `conn` is the connection it can be reached on, if any. */
  datatype Member = Member(id: u64, name: Bytes, conn: Option<Conn>)

  datatype RoomState = RoomState(
    id: u32, capacity: u64, nextId: u64, phase: Phase, tick: u64,
    members: map<u64, Member>, players: Players, pending: seq<Command>)

  predicate NameFits(name: Bytes) {
    0 < |name| <= MAX_PLAYER_NAME_SIZE
  }

  ghost predicate OncePerPlayer(pending: seq<Command>) {
    forall i, j :: 0 <= i < j < |pending| ==> pending[i].player != pending[j].player
  }

  ghost predicate MembersConsistent(members: map<u64, Member>, nextId: u64) {
    forall id :: id in members ==>
      id != 0 && members[id].id == id && NameFits(members[id].name) && (nextId != 0 ==> id < nextId)
  }

  ghost predicate Consistent(r: RoomState) {
    && |r.members| <= r.capacity
    && MembersConsistent(r.members, r.nextId)
    && WellFormed(r.players)
    && OncePerPlayer(r.pending)
    && (match r.phase
        case Waiting => r.players == map[] && r.tick == 0 && r.pending == []
        case Running => r.players.Keys == r.members.Keys
        case Finished => r.players.Keys == r.members.Keys && r.pending == [])
  }

  function NewRoom(id: u32, capacity: u64): RoomState {
    RoomState(id, capacity, 1, Waiting, 0, map[], map[], [])
  }

  // ---------------------------------------------------------------- starting and finishing

  datatype Transition = Done | InvalidState | ConditionNotMet

  function StartTransition(r: RoomState, ready: bool): Transition {
    if r.phase != Waiting then InvalidState
    else if !ready || !(0 < |r.members| <= MAX_PLAYERS) then ConditionNotMet
    else Done
  }

  ghost function Started(r: RoomState): RoomState
    requires |r.members| <= MAX_PLAYERS
  {
    r.(phase := Running, players := StartingLine(r.members.Keys), tick := 0, pending := [])
  }

  ghost function AfterStart(r: RoomState, ready: bool): RoomState {
    if StartTransition(r, ready) == Done then Started(r) else r
  }

  function FinishTransition(r: RoomState, should: bool): Transition {
    if r.phase != Running then InvalidState else if !should then ConditionNotMet else Done
  }

  function AfterFinish(r: RoomState, should: bool): RoomState {
    if FinishTransition(r, should) == Done then r.(phase := Finished, pending := []) else r
  }

  // ---------------------------------------------------------------- joining and leaving

  datatype JoinStatus = Joined | InvalidPlayerName | NotJoinable | RoomFull | PlayerIdExhausted

  function JoinOutcome(r: RoomState, name: Bytes): JoinStatus {
    if !NameFits(name) then InvalidPlayerName
    else if r.phase != Waiting then NotJoinable
    else if |r.members| >= r.capacity then RoomFull
    else if r.nextId == 0 then PlayerIdExhausted
    else Joined
  }

  function AfterJoin(r: RoomState, conn: Conn, name: Bytes): RoomState {
    if JoinOutcome(r, name) == Joined
    then r.(members := r.members[r.nextId := Member(r.nextId, name, Some(conn))], nextId := Next64(r.nextId))
    else r
  }

  /** Leaving takes the member and its game state; commands already queued stay queued. */
  function AfterLeave(r: RoomState, id: u64): RoomState {
    r.(members := r.members - {id}, players := r.players - {id})
  }

  // ---------------------------------------------------------------- commands

  datatype SubmitStatus = Queued | NotRunning | PlayerMissing | AlreadySubmitted

  function HasPending(pending: seq<Command>, id: u64): bool {
    exists i :: 0 <= i < |pending| && pending[i].player == id
  }

  function SubmitOutcome(r: RoomState, id: u64): SubmitStatus {
    if r.phase != Running then NotRunning
    else if id !in r.members then PlayerMissing
    else if HasPending(r.pending, id) then AlreadySubmitted
    else Queued
  }

  function AfterSubmit(r: RoomState, c: Command): RoomState {
    if SubmitOutcome(r, c.player) == Queued then r.(pending := r.pending + [c]) else r
  }

  /** A tick takes the whole queue, settles it in order and moves the clock. */
  function AfterTick(r: RoomState): RoomState {
    if r.phase != Running then r
    else r.(players := Settle(r.players, r.pending).players, pending := [], tick := Next64(r.tick))
  }

  // ---------------------------------------------------------------- connections

  datatype BindStatus = Bound | PlayerNotFound | AlreadyBound | NotBound | ConnectionMismatch

  function BindOutcome(r: RoomState, id: u64): BindStatus {
    if id !in r.members then BindStatus.PlayerNotFound
    else if r.members[id].conn.Some? then AlreadyBound
    else Bound
  }

  function SetConn(r: RoomState, id: u64, conn: Option<Conn>): RoomState
    requires id in r.members
  {
    r.(members := r.members[id := r.members[id].(conn := conn)])
  }

  function AfterBind(r: RoomState, id: u64, conn: Conn): RoomState {
    if BindOutcome(r, id) == Bound then SetConn(r, id, Some(conn)) else r
  }

  function DetachOutcome(r: RoomState, id: u64, conn: Conn): BindStatus {
    if id !in r.members then BindStatus.PlayerNotFound
    else if r.members[id].conn.None? then NotBound
    else if r.members[id].conn.value != conn then ConnectionMismatch
    else Bound
  }

  function AfterDetach(r: RoomState, id: u64, conn: Conn): RoomState {
    if DetachOutcome(r, id, conn) == Bound then SetConn(r, id, None) else r
  }

  // ---------------------------------------------------------------- checkpoints

  function Names(members: map<u64, Member>): map<u64, MemberRecord> {
    map id | id in members :: MemberRecord(members[id].id, members[id].name)
  }

  ghost function RecordOf(r: RoomState): RoomRecord {
    RoomRecord(r.id, r.capacity, r.nextId, r.phase, r.tick,
               MemberRows(r.members), PlayerRows(r.players))
  }

  function RecordId(m: MemberRecord): u64 {
    m.playerId
  }

  ghost predicate HasMember(c: RoomRecord, id: u64) {
    exists i :: 0 <= i < |c.members| && c.members[i].playerId == id
  }

  ghost predicate MembersAcceptable(members: seq<MemberRecord>, next: u64) {
    && (forall i :: 0 <= i < |members| ==>
          members[i].playerId != 0 && NameFits(members[i].name) && (next != 0 ==> members[i].playerId < next))
    && (forall i, j :: 0 <= i < j < |members| ==> members[i].playerId != members[j].playerId)
  }

  /** The checks of a room restore. */
  ghost predicate Acceptable(c: RoomRecord) {
    && |c.members| <= c.capacity
    && MembersAcceptable(c.members, c.nextPlayerId)
    && (if c.phase == Waiting then c.tickId == 0 && c.players == []
        else |c.players| == |c.members| && forall i :: 0 <= i < |c.players| ==> HasMember(c, c.players[i].id))
    && Restorable(c.players)
  }

  function OfflineMembers(names: map<u64, MemberRecord>): map<u64, Member> {
    map id | id in names :: Member(names[id].playerId, names[id].name, None)
  }

  function RestoredRoom(c: RoomRecord): RoomState {
    RoomState(c.roomId, c.capacity, c.nextPlayerId, c.phase, c.tickId,
              OfflineMembers(Table(c.members, RecordId)), Table(c.players, PlayerId), [])
  }

  /** The same room with nobody connected and nothing queued. */
  function Unplugged(r: RoomState): RoomState {
    r.(members := OfflineMembers(Names(r.members)), pending := [])
  }

  // ---------------------------------------------------------------- consistency is kept

  datatype RoomOp =
    | Start(ready: bool) | Finish(should: bool) | Join(conn: Conn, name: Bytes) | Leave(id: u64)
    | Submit(command: Command) | TickOnce | Bind(id: u64, conn: Conn) | Detach(id: u64, conn: Conn)

  ghost function Step(r: RoomState, op: RoomOp): RoomState {
    match op
    case Start(ready) => AfterStart(r, ready)
    case Finish(should) => AfterFinish(r, should)
    case Join(conn, name) => AfterJoin(r, conn, name)
    case Leave(id) => AfterLeave(r, id)
    case Submit(c) => AfterSubmit(r, c)
    case TickOnce => AfterTick(r)
    case Bind(id, conn) => AfterBind(r, id, conn)
    case Detach(id, conn) => AfterDetach(r, id, conn)
  }

  lemma StartingLineWellFormed(ids: set<u64>)
    requires |ids| <= MAX_PLAYERS && 0 !in ids
    ensures WellFormed(StartingLine(ids)) && Tenfold(StartingLine(ids))
  {
    forall id | id in ids ensures InField(StartingLine(ids)[id]) {
      RankBound(ids, id);
    }
    assert |StartingLine(ids)| == |StartingLine(ids).Keys|;
  }

  lemma ConsistentFacts(r: RoomState)
    requires Consistent(r)
    ensures WellFormed(r.players)
    ensures 0 !in r.members && forall id :: id in r.members ==> r.members[id].id == id
    ensures if r.phase == Waiting then r.players == map[] else r.players.Keys == r.members.Keys
  {
  }

  lemma RemoveKeepsConsistent(r: RoomState, ids: set<u64>)
    requires Consistent(r)
    ensures Consistent(r.(members := r.members - ids, players := r.players - ids))
  {
    SubmapSize(r.members, ids);
    SubmapSize(r.players, ids);
  }

  lemma LeaveKeepsConsistent(r: RoomState, id: u64)
    requires Consistent(r)
    ensures Consistent(AfterLeave(r, id))
  {
    RemoveKeepsConsistent(r, {id});
    hide Consistent;
  }

  lemma SubmapSize<V>(m: map<u64, V>, ids: set<u64>)
    ensures |m - ids| <= |m|
  {
    assert (m - ids).Keys <= m.Keys;
    SubsetSize((m - ids).Keys, m.Keys);
  }

  lemma SubsetSize<T>(a: set<T>, b: set<T>)
    requires a <= b
    ensures |a| <= |b|
  {
    if a != b { ProperSubsetSmaller(a, b); }
  }

  lemma JoinKeepsConsistent(r: RoomState, conn: Conn, name: Bytes)
    requires Consistent(r)
    ensures Consistent(AfterJoin(r, conn, name))
  {
    hide WellFormed, OncePerPlayer, NameFits;
  }

  lemma SubmitKeepsConsistent(r: RoomState, c: Command)
    requires Consistent(r)
    ensures Consistent(AfterSubmit(r, c))
  {
  }

  lemma StartKeepsConsistent(r: RoomState, ready: bool)
    requires Consistent(r)
    ensures Consistent(AfterStart(r, ready))
  {
    if StartTransition(r, ready) == Done {
      StartingLineWellFormed(r.members.Keys);
    }
    hide WellFormed, OncePerPlayer, NameFits, StartingLine;
  }

  lemma FinishKeepsConsistent(r: RoomState, should: bool)
    requires Consistent(r)
    ensures Consistent(AfterFinish(r, should))
  {
    hide WellFormed, MembersConsistent;
  }

  lemma TickKeepsConsistent(r: RoomState)
    requires Consistent(r)
    ensures Consistent(AfterTick(r))
  {
    SettleKeepsPlayers(r.players, r.pending);
    SettleKeepsWellFormed(r.players, r.pending);
    hide WellFormed, MembersConsistent, Settle;
  }

  lemma BindKeepsConsistent(r: RoomState, id: u64, conn: Conn)
    requires Consistent(r)
    ensures Consistent(AfterBind(r, id, conn)) && Consistent(AfterDetach(r, id, conn))
  {
    hide WellFormed, OncePerPlayer, NameFits;
  }

  /** Every operation keeps a room consistent, whatever its outcome. */
  lemma StepKeepsConsistent(r: RoomState, op: RoomOp)
    requires Consistent(r)
    ensures Consistent(Step(r, op))
  {
    hide Consistent, AfterStart, AfterFinish, AfterJoin, AfterLeave, AfterSubmit, AfterTick, AfterBind, AfterDetach;
    match op
    case Start(ready) => StartKeepsConsistent(r, ready);
    case Finish(should) => FinishKeepsConsistent(r, should);
    case Join(conn, name) => JoinKeepsConsistent(r, conn, name);
    case Leave(id) => LeaveKeepsConsistent(r, id);
    case Submit(c) => SubmitKeepsConsistent(r, c);
    case TickOnce => TickKeepsConsistent(r);
    case Bind(id, conn) => BindKeepsConsistent(r, id, conn);
    case Detach(id, conn) => BindKeepsConsistent(r, id, conn);
  }

  // ---------------------------------------------------------------- player ids

  /** The ids handed out along a run. */
  ghost function Issued(r: RoomState, ops: seq<RoomOp>): seq<u64>
    decreases |ops|
  {
    if ops == [] then []
    else
      (if ops[0].Join? && JoinOutcome(r, ops[0].name) == Joined then [r.nextId] else [])
        + Issued(Step(r, ops[0]), ops[1..])
  }

  /** Ids strictly increase along every run, so none is ever used twice, even when they run out. */
  lemma {:induction false} IssuedIdsIncrease(r: RoomState, ops: seq<RoomOp>)
    ensures Issued(r, ops) != [] ==> r.nextId > 0
    ensures forall i :: 0 <= i < |Issued(r, ops)| ==> r.nextId <= Issued(r, ops)[i]
    ensures forall i, j :: 0 <= i < j < |Issued(r, ops)| ==> Issued(r, ops)[i] < Issued(r, ops)[j]
    decreases |ops|
  {
    if ops != [] {
      var op := ops[0];
      IssuedIdsIncrease(Step(r, op), ops[1..]);
      var first := if op.Join? && JoinOutcome(r, op.name) == Joined then [r.nextId] else [];
      var later := Issued(Step(r, op), ops[1..]);
      assert Step(r, op).nextId == if first == [] then r.nextId else Next64(r.nextId);
      var all := first + later;
      assert Issued(r, ops) == all;
      forall i | 0 <= i < |all| ensures r.nextId <= all[i] && (i >= |first| && first != [] ==> r.nextId < all[i]) {
        if i >= |first| { assert all[i] == later[i - |first|]; }
      }
    }
  }

  // ---------------------------------------------------------------- checkpoint round trip

  /** Equal counts, inclusion and no duplicates: together they force the two id sets to agree. */
  lemma SameIds(c: RoomRecord)
    requires Acceptable(c) && c.phase != Waiting
    ensures Table(c.players, PlayerId).Keys == Table(c.members, RecordId).Keys
  {
    var players, members := Table(c.players, PlayerId), Table(c.members, RecordId);
    TableKeys(c.players, PlayerId);
    TableKeys(c.members, RecordId);
    TableSize(c.players, PlayerId);
    TableSize(c.members, RecordId);
    forall id | id in players ensures id in members {
      var i :| 0 <= i < |c.players| && PlayerId(c.players[i]) == id;
      assert HasMember(c, c.players[i].id);
      var j :| 0 <= j < |c.members| && c.members[j].playerId == id;
      assert RecordId(c.members[j]) == id;
    }
    SameSizeSubset(players.Keys, members.Keys);
  }

  lemma SameSizeSubset<T>(a: set<T>, b: set<T>)
    requires a <= b && |a| == |b|
    ensures a == b
  {
    if a != b { ProperSubsetSmaller(a, b); }
  }

  /** Whatever a restore accepts is a consistent room. */
  lemma RestoredIsConsistent(c: RoomRecord)
    requires Acceptable(c)
    ensures Consistent(RestoredRoom(c))
  {
    RestoredMembersConsistent(c.members, c.nextPlayerId);
    RestoredPlayersWellFormed(c.players);
    if c.phase != Waiting {
      SameIds(c);
    }
    hide MembersAcceptable, MembersConsistent, Restorable, WellFormed, HasMember, OfflineMembers;
  }

  lemma RestoredMembersConsistent(members: seq<MemberRecord>, next: u64)
    requires MembersAcceptable(members, next)
    ensures var restored := OfflineMembers(Table(members, RecordId));
            MembersConsistent(restored, next) && |restored| == |members| && restored.Keys == Table(members, RecordId).Keys
  {
    var names := Table(members, RecordId);
    TableSize(members, RecordId);
    TableEntries(members, RecordId);
    assert OfflineMembers(names).Keys == names.Keys;
    assert |OfflineMembers(names)| == |OfflineMembers(names).Keys|;
  }

  lemma RestoredPlayersWellFormed(rows: seq<Player>)
    requires Restorable(rows)
    ensures WellFormed(Table(rows, PlayerId))
  {
    TableSize(rows, PlayerId);
    TableEntries(rows, PlayerId);
  }

  ghost predicate NobodyBelowZero(r: RoomState) {
    AboveZero(r.players)
  }

  ghost function MemberRows(members: map<u64, Member>): seq<MemberRecord> {
    Rows(Names(members), SortedIds(members.Keys))
  }

  lemma MembersRoundTrip(members: map<u64, Member>, next: u64)
    requires MembersConsistent(members, next)
    ensures MembersAcceptable(MemberRows(members), next) && |MemberRows(members)| == |members|
    ensures Table(MemberRows(members), RecordId) == Names(members)
  {
    var ids := SortedIds(members.Keys);
    SortedCount(members.Keys);
    forall i | 0 <= i < |ids| ensures MemberRows(members)[i] == Names(members)[ids[i]] && ids[i] in members {
      assert ids[i] in ids;
    }
    TableOfRows(Names(members), ids, RecordId);
  }

  lemma UnpluggedNames(members: map<u64, Member>)
    requires forall id :: id in members ==> members[id].id == id
    ensures OfflineMembers(Names(members)).Keys == members.Keys
    ensures Names(OfflineMembers(Names(members))) == Names(members)
  {
  }

  lemma PlayersRoundTrip(players: Players)
    requires WellFormed(players)
    ensures |PlayerRows(players)| == |players|
    ensures Table(PlayerRows(players), PlayerId) == players
  {
    SortedCount(players.Keys);
    TableOfRows(players, SortedIds(players.Keys), PlayerId);
  }

  lemma RowsRestorable(players: Players)
    requires WellFormed(players)
    ensures Restorable(PlayerRows(players)) <==> forall id :: id in players ==> players[id].hp >= 0
  {
    var live, rows := SortedIds(players.Keys), PlayerRows(players);
    SortedCount(players.Keys);
    assert forall i :: 0 <= i < |live| ==> rows[i] == players[live[i]] && rows[i].id == live[i];
    if Restorable(rows) {
      forall id | id in players ensures players[id].hp >= 0 {
        assert id in live;
        var i :| 0 <= i < |live| && live[i] == id;
        assert rows[i].hp >= 0;
      }
    }
  }

  lemma PlayersAreMembers(r: RoomState, i: nat)
    requires Consistent(r) && r.phase != Waiting && i < |RecordOf(r).players|
    ensures HasMember(RecordOf(r), RecordOf(r).players[i].id)
  {
    var ids, live := SortedIds(r.members.Keys), SortedIds(r.players.Keys);
    assert live[i] in r.players && live[i] in ids;
    var j :| 0 <= j < |ids| && ids[j] == live[i];
    assert RecordOf(r).members[j].playerId == live[i];
  }

  /**
   A room's own checkpoint can be restored exactly when nobody is below zero, and then it gives
   the room back unplugged; a second checkpoint of that room is the first one again.
   */
  lemma RoomRoundTrip(r: RoomState)
    requires Consistent(r)
    ensures Acceptable(RecordOf(r)) <==> NobodyBelowZero(r)
    ensures RestoredRoom(RecordOf(r)) == Unplugged(r)
    ensures RecordOf(Unplugged(r)) == RecordOf(r)
  {
    MembersRoundTrip(r.members, r.nextId);
    UnpluggedNames(r.members);
    PlayersRoundTrip(r.players);
    RowsRestorable(r.players);
    if r.phase != Waiting {
      assert |r.players| == |r.players.Keys| && |r.members| == |r.members.Keys|;
      forall i | 0 <= i < |RecordOf(r).players| ensures HasMember(RecordOf(r), RecordOf(r).players[i].id) {
        PlayersAreMembers(r, i);
      }
    }
  }
}
