/** The authoritative game state: who stands where, and how healthy they are. */
module GameState {
  import opened Common
  import opened Ordering

  const INITIAL_HP: i32 := 100
  const MIN_POSITION: i32 := 0
  const MAX_POSITION: i32 := 100
  const ATTACK_DAMAGE: i32 := 10
  const MAX_PLAYERS := 101

  datatype Player = Player(id: u64, x: i32, y: i32, hp: i32)

  type Players = map<u64, Player>

  datatype Status =
    | Success | EmptyPlayers | InvalidPlayerId | DuplicatePlayer | TooManyPlayers | PlayerNotFound
    | InvalidMove | OutOfBounds | InvalidTarget | AttackerNotFound | TargetNotFound
    | AttackerDead | TargetDead | TargetOutOfRange

  datatype AttackResult = AttackResult(status: Status, remainingHp: i32, eliminated: bool)

  predicate InField(p: Player) {
    MIN_POSITION <= p.x <= MAX_POSITION && MIN_POSITION <= p.y <= MAX_POSITION
  }

  /**
   What holds of any game state. A restored player may have any hp in 0..100, and an attack
   takes 10 from whoever is above 0, so hp can go down to -9.
   */
  ghost predicate WellFormed(players: Players) {
    && |players| <= MAX_PLAYERS
    && forall id :: id in players ==>
         id != 0 && players[id].id == id && InField(players[id]) && -9 <= players[id].hp <= INITIAL_HP
  }

  /** Full health less a number of hits: what a server that started fresh can reach. */
  predicate TenfoldHp(hp: int) {
    0 <= hp <= INITIAL_HP && hp % ATTACK_DAMAGE == 0
  }

  ghost predicate Tenfold(players: Players) {
    forall id :: id in players ==> TenfoldHp(players[id].hp)
  }

  // ---------------------------------------------------------------- starting

  ghost function Below(ids: set<u64>, id: u64): set<u64> {
    set other | other in ids && other < id
  }

  /** Everybody at full health on the bottom row, each as far right as there are smaller ids. */
  ghost function StartingLine(ids: set<u64>): (players: Players)
    requires |ids| <= MAX_PLAYERS
    ensures players.Keys == ids
  {
    map id | id in ids :: (RankBound(ids, id); Player(id, |Below(ids, id)|, 0, INITIAL_HP))
  }

  lemma RankBound(ids: set<u64>, id: u64)
    requires id in ids
    ensures |Below(ids, id)| < |ids|
  {
    assert Below(ids, id) < ids;
    ProperSubsetSmaller(Below(ids, id), ids);
  }

  lemma ProperSubsetSmaller<T>(a: set<T>, b: set<T>)
    requires a < b
    ensures |a| < |b|
  {
    assert b == a + (b - a);
    assert b - a != {};
  }

  ghost predicate CanStart(ids: seq<u64>) {
    0 < |ids| <= MAX_PLAYERS && 0 !in ids && Distinct(ids)
  }

  /** The first id in the list that cannot take part: zero, or a repetition. */
  ghost predicate FirstBad(ids: seq<u64>, i: nat) {
    i < |ids| && 0 !in ids[..i] && Distinct(ids[..i]) && (ids[i] == 0 || ids[i] in ids[..i])
  }

  /** What `initialize` says about a list: its size comes first, and then the first bad id. */
  ghost predicate Judged(ids: seq<u64>, status: Status) {
    && status in {Success, EmptyPlayers, TooManyPlayers, InvalidPlayerId, DuplicatePlayer}
    && (status == Success <==> CanStart(ids))
    && (status == EmptyPlayers <==> |ids| == 0)
    && (status == TooManyPlayers <==> |ids| > MAX_PLAYERS)
    && (status == InvalidPlayerId ==> exists i: nat :: FirstBad(ids, i) && ids[i] == 0)
    && (status == DuplicatePlayer ==> exists i: nat :: FirstBad(ids, i) && ids[i] != 0)
  }

  // ---------------------------------------------------------------- moving and attacking

  function StepOk(dx: i32, dy: i32): bool {
    ((dx == 1 || dx == -1) && dy == 0) || ((dy == 1 || dy == -1) && dx == 0)
  }

  function MoveStatus(players: Players, id: u64, dx: i32, dy: i32): Status {
    if id == 0 then InvalidPlayerId
    else if id !in players then PlayerNotFound
    else if !StepOk(dx, dy) then InvalidMove
    else if !(MIN_POSITION <= players[id].x + dx <= MAX_POSITION
      && MIN_POSITION <= players[id].y + dy <= MAX_POSITION) then OutOfBounds
    else Success
  }

  function Moved(players: Players, id: u64, dx: i32, dy: i32): Players {
    if MoveStatus(players, id, dx, dy) == Success
    then players[id := players[id].(x := players[id].x + dx, y := players[id].y + dy)]
    else players
  }

  function Abs(n: int): nat {
    if n < 0 then -n else n
  }

  function Distance(a: Player, b: Player): nat {
    Abs(a.x - b.x) + Abs(a.y - b.y)
  }

  function AttackStatus(players: Players, attacker: u64, target: u64): Status {
    if attacker == 0 || target == 0 then InvalidPlayerId
    else if attacker == target then InvalidTarget
    else if attacker !in players then AttackerNotFound
    else if target !in players then TargetNotFound
    else if players[attacker].hp <= 0 then AttackerDead
    else if players[target].hp <= 0 then TargetDead
    else if Distance(players[attacker], players[target]) > 1 then TargetOutOfRange
    else Success
  }

  function Attacked(players: Players, attacker: u64, target: u64): Players {
    if AttackStatus(players, attacker, target) == Success
    then players[target := players[target].(hp := players[target].hp - ATTACK_DAMAGE)]
    else players
  }

  // ---------------------------------------------------------------- restoring

  ghost predicate Restorable(rows: seq<Player>) {
    && |rows| <= MAX_PLAYERS
    && (forall i :: 0 <= i < |rows| ==> rows[i].id != 0 && InField(rows[i]) && 0 <= rows[i].hp <= INITIAL_HP)
    && (forall i, j :: 0 <= i < j < |rows| ==> rows[i].id != rows[j].id)
  }

  function PlayerId(p: Player): u64 {
    p.id
  }

  ghost function PlayerRows(players: Players): seq<Player> {
    Rows(players, SortedIds(players.Keys))
  }

  // ---------------------------------------------------------------- the object

  class Gamestate {
    var players: Players

    constructor ()
      ensures players == map[]
    {
      players := map[];
    }

    /** The first loop of `Initialize`: nothing is touched until every id has passed. */
    static method CheckIds(ids: seq<u64>) returns (status: Status)
      ensures Judged(ids, status)
    {
      if |ids| == 0 {
        return EmptyPlayers;
      }
      if |ids| > MAX_PLAYERS {
        return TooManyPlayers;
      }
      var check: set<u64> := {};
      for i := 0 to |ids|
        invariant check == Elements(ids[..i])
        invariant 0 !in ids[..i] && Distinct(ids[..i])
      {
        assert ids[..i + 1] == ids[..i] + [ids[i]];
        if ids[i] == 0 {
          assert FirstBad(ids, i);
          return InvalidPlayerId;
        }
        if ids[i] in check {
          assert exists j :: 0 <= j < i && ids[j] == ids[i];
          assert FirstBad(ids, i);
          return DuplicatePlayer;
        }
        check := check + {ids[i]};
      }
      assert ids[..|ids|] == ids;
      status := Success;
    }

    method Initialize(ids: seq<u64>) returns (status: Status)
      modifies this
      ensures Judged(ids, status)
      ensures status == Success ==> |Elements(ids)| == |ids| && players == StartingLine(Elements(ids))
      ensures status != Success ==> players == old(players)
    {
      status := CheckIds(ids);
      if status != Success {
        return;
      }
      DistinctCount(ids);
      var sorted := SortIds(Elements(ids));
      SortedCount(Elements(ids));
      players := LineUp(sorted, Elements(ids));
    }

    /** The second loop of `Initialize`: positions are handed out along the sorted ids. */
    static method LineUp(sorted: seq<u64>, ghost ids: set<u64>) returns (temp: Players)
      requires sorted == SortedIds(ids) && |sorted| == |ids| <= MAX_PLAYERS
      ensures temp == StartingLine(ids)
    {
      temp := map[];
      NoPlaceYet(ids, sorted);
      hide StartingLine, StartingPlaces, Elements;
      for location := 0 to |sorted|
        invariant Elements(sorted[..location]) <= ids
        invariant temp == StartingPlaces(ids, Elements(sorted[..location]))
      {
        PlaceInLine(ids, location);
        OneMorePlace(ids, sorted, location);
        temp := temp[sorted[location] := Player(sorted[location], location, 0, INITIAL_HP)];
      }
      AllPlaces(ids, sorted);
    }

    method RemovePlayer(id: u64) returns (status: Status)
      modifies this
      ensures status == if id == 0 then InvalidPlayerId else if id !in old(players) then PlayerNotFound else Success
      ensures players == if status == Success then old(players) - {id} else old(players)
    {
      if id == 0 {
        return InvalidPlayerId;
      }
      if id !in players {
        return PlayerNotFound;
      }
      players := players - {id};
      status := Success;
    }

    method MovePlayer(id: u64, dx: i32, dy: i32) returns (status: Status)
      modifies this
      ensures status == MoveStatus(old(players), id, dx, dy)
      ensures players == Moved(old(players), id, dx, dy)
    {
      if id == 0 {
        return InvalidPlayerId;
      }
      if id !in players {
        return PlayerNotFound;
      }
      var validX := (dx == 1 || dx == -1) && dy == 0;
      var validY := (dy == 1 || dy == -1) && dx == 0;
      if !validX && !validY {
        return InvalidMove;
      }
      var newX := players[id].x + dx;
      var newY := players[id].y + dy;
      if newX < MIN_POSITION || newX > MAX_POSITION || newY < MIN_POSITION || newY > MAX_POSITION {
        return OutOfBounds;
      }
      players := players[id := players[id].(x := newX)];
      players := players[id := players[id].(y := newY)];
      status := Success;
    }

    method AttackPlayer(attacker: u64, target: u64) returns (r: AttackResult)
      requires WellFormed(players)
      modifies this
      ensures r.status == AttackStatus(old(players), attacker, target)
      ensures players == Attacked(old(players), attacker, target)
      ensures r.status == Success ==> r.remainingHp == players[target].hp && (r.eliminated <==> r.remainingHp <= 0)
    {
      if attacker == 0 || target == 0 {
        return AttackResult(InvalidPlayerId, 0, false);
      }
      if attacker == target {
        return AttackResult(InvalidTarget, 0, false);
      }
      if attacker !in players {
        return AttackResult(AttackerNotFound, 0, false);
      }
      if target !in players {
        return AttackResult(TargetNotFound, 0, false);
      }
      if players[attacker].hp <= 0 {
        return AttackResult(AttackerDead, 0, false);
      }
      if players[target].hp <= 0 {
        return AttackResult(TargetDead, 0, false);
      }
      var distance := Distance(players[attacker], players[target]);
      if distance > 1 {
        return AttackResult(TargetOutOfRange, 0, false);
      }
      players := players[target := players[target].(hp := players[target].hp - ATTACK_DAMAGE)];
      r := AttackResult(Success, players[target].hp, players[target].hp <= 0);
    }

    method Snapshot() returns (rows: seq<Player>)
      ensures rows == PlayerRows(players)
    {
      var keys := SortIds(players.Keys);
      RowsInOrder(players);
      hide PlayerRows;
      rows := [];
      for i := 0 to |keys|
        invariant rows == PlayerRows(players)[..i]
      {
        rows := rows + [players[keys[i]]];
      }
    }

    /** All or nothing: bad rows leave the previous state in place. */
    method Restore(rows: seq<Player>) returns (ok: bool)
      modifies this
      ensures ok <==> Restorable(rows)
      ensures players == if ok then Table(rows, PlayerId) else old(players)
    {
      if |rows| > MAX_PLAYERS {
        return false;
      }
      var temp: Players := map[];
      for i := 0 to |rows|
        invariant players == old(players)
        invariant temp == Table(rows[..i], PlayerId) && Restorable(rows[..i])
      {
        var row := rows[i];
        RestoreOneMore(rows, i);
        if row.id == 0 {
          return false;
        }
        if row.id in temp {
          return false;
        }
        if row.x < MIN_POSITION || row.x > MAX_POSITION || row.y < MIN_POSITION || row.y > MAX_POSITION {
          return false;
        }
        if row.hp < 0 || row.hp > INITIAL_HP {
          return false;
        }
        temp := temp[row.id := row];
      }
      assert rows[..|rows|] == rows;
      players := temp;
      ok := true;
    }
  }

  lemma SeenBefore(rows: seq<Player>, i: nat, id: u64)
    requires i <= |rows|
    ensures id in Table(rows[..i], PlayerId) <==> exists j :: 0 <= j < i && rows[j].id == id
  {
    var front := rows[..i];
    TableKeys(front, PlayerId);
    if id in Table(front, PlayerId) {
      var j :| 0 <= j < |front| && PlayerId(front[j]) == id;
      assert rows[j].id == id;
    }
    if j :| 0 <= j < i && rows[j].id == id {
      assert PlayerId(front[j]) == id;
    }
  }

  lemma RestoreOneMore(rows: seq<Player>, i: nat)
    requires i < |rows| <= MAX_PLAYERS && Restorable(rows[..i])
    ensures var row, sofar := rows[i], Table(rows[..i], PlayerId);
            && Table(rows[..i + 1], PlayerId) == sofar[row.id := row]
            && (Restorable(rows[..i + 1]) <==>
                  row.id != 0 && row.id !in sofar && InField(row) && 0 <= row.hp <= INITIAL_HP)
            && (Restorable(rows) ==> Restorable(rows[..i + 1]))
  {
    var front, more := rows[..i], rows[..i + 1];
    assert more[..i] == front;
    SeenBefore(rows, i, rows[i].id);
    assert forall j :: 0 <= j < i ==> more[j] == front[j];
    assert more[i] == rows[i];
  }

  /** The starting line, as far as the given ids. */
  ghost function StartingPlaces(ids: set<u64>, some: set<u64>): Players
    requires |ids| <= MAX_PLAYERS && some <= ids
  {
    map id | id in some :: StartingLine(ids)[id]
  }

  lemma RowsInOrder(players: Players)
    ensures PlayerRows(players)[..0] == [] && |PlayerRows(players)| == |SortedIds(players.Keys)|
    ensures forall i :: 0 <= i < |PlayerRows(players)| ==>
              var id := SortedIds(players.Keys)[i]; id in players && PlayerRows(players)[i] == players[id]
  {
    SortedCount(players.Keys);
    assert forall id :: id in SortedIds(players.Keys) ==> id in players;
  }

  lemma NoPlaceYet(ids: set<u64>, sorted: seq<u64>)
    requires |ids| <= MAX_PLAYERS
    ensures Elements(sorted[..0]) <= ids && StartingPlaces(ids, Elements(sorted[..0])) == map[]
  {
  }

  lemma AllPlaces(ids: set<u64>, sorted: seq<u64>)
    requires |ids| <= MAX_PLAYERS && sorted == SortedIds(ids)
    ensures Elements(sorted[..|sorted|]) == ids && StartingPlaces(ids, ids) == StartingLine(ids)
  {
    assert sorted[..|sorted|] == sorted;
  }

  lemma OneMorePlace(ids: set<u64>, sorted: seq<u64>, i: nat)
    requires |ids| <= MAX_PLAYERS && sorted == SortedIds(ids) && i < |sorted|
    ensures Elements(sorted[..i]) <= ids && Elements(sorted[..i + 1]) <= ids
    ensures StartingPlaces(ids, Elements(sorted[..i + 1]))
         == StartingPlaces(ids, Elements(sorted[..i]))[sorted[i] := StartingLine(ids)[sorted[i]]]
  {
    assert sorted[..i + 1] == sorted[..i] + [sorted[i]];
    assert Elements(sorted[..i + 1]) == Elements(sorted[..i]) + {sorted[i]};
  }

  lemma PlaceInLine(ids: set<u64>, i: nat)
    requires i < |SortedIds(ids)| && |ids| <= MAX_PLAYERS
    ensures i <= MAX_PLAYERS
    ensures StartingLine(ids)[SortedIds(ids)[i]] == Player(SortedIds(ids)[i], i, 0, INITIAL_HP)
  {
    RankInListing(ids, i);
    RankBound(ids, SortedIds(ids)[i]);
  }

  /** In the sorted list, a position is the number of smaller ids. */
  lemma RankInListing(ids: set<u64>, i: nat)
    requires i < |SortedIds(ids)|
    ensures |Below(ids, SortedIds(ids)[i])| == i
  {
    var s := SortedIds(ids);
    DistinctCount(s[..i]);
    forall x | x in Below(ids, s[i]) ensures x in s[..i] {
      assert x in s;
      var j :| 0 <= j < |s| && s[j] == x;
    }
    assert Elements(s[..i]) == Below(ids, s[i]);
  }
}
