/**
 One tick settles a batch of commands, in submission order, against the game state.
 Whatever the batch, nobody appears or disappears, nobody heals, and the hit points lost are
 exactly ten for each attack that landed.
 */
module Tick {
  import opened Common
  import opened Ordering
  import opened GameState

  datatype Command =
    | Move(player: u64, dx: i32, dy: i32)
    | Attack(player: u64, target: u64)

  predicate Succeeds(players: Players, c: Command) {
    match c
    case Move(id, dx, dy) => MoveStatus(players, id, dx, dy) == Success
    case Attack(id, target) => AttackStatus(players, id, target) == Success
  }

  function Applied(players: Players, c: Command): Players {
    match c
    case Move(id, dx, dy) => Moved(players, id, dx, dy)
    case Attack(id, target) => Attacked(players, id, target)
  }

  /** The players after the batch, and how many commands did something. */
  datatype Outcome = Outcome(players: Players, successes: nat, hits: nat)

  function Settle(players: Players, commands: seq<Command>): Outcome {
    if commands == [] then Outcome(players, 0, 0)
    else
      var before := Settle(players, commands[..|commands| - 1]);
      var c := commands[|commands| - 1];
      var done := Succeeds(before.players, c);
      Outcome(Applied(before.players, c),
              before.successes + (if done then 1 else 0),
              before.hits + (if done && c.Attack? then 1 else 0))
  }

  lemma SettleNothing(players: Players)
    ensures Settle(players, []) == Outcome(players, 0, 0)
  {
  }

  lemma SettleOneMore(players: Players, commands: seq<Command>, i: nat)
    requires i < |commands|
    ensures var before, after := Settle(players, commands[..i]), Settle(players, commands[..i + 1]);
            && after.players == Applied(before.players, commands[i])
            && after.successes == before.successes + if Succeeds(before.players, commands[i]) then 1 else 0
  {
    assert commands[..i + 1][..i] == commands[..i];
  }

  lemma {:induction false} SettleKeepsPlayers(players: Players, commands: seq<Command>)
    ensures Settle(players, commands).players.Keys == players.Keys
  {
    if commands != [] {
      SettleKeepsPlayers(players, commands[..|commands| - 1]);
    }
  }

  lemma {:induction false} SettleKeepsWellFormed(players: Players, commands: seq<Command>)
    requires WellFormed(players)
    ensures WellFormed(Settle(players, commands).players)
  {
    if commands != [] {
      var front := commands[..|commands| - 1];
      SettleKeepsWellFormed(players, front);
      AppliedKeepsWellFormed(Settle(players, front).players, commands[|commands| - 1]);
      hide WellFormed;
    }
  }

  lemma AppliedKeepsWellFormed(players: Players, c: Command)
    requires WellFormed(players)
    ensures WellFormed(Applied(players, c))
  {
    assert |Applied(players, c).Keys| == |players.Keys|;
  }

  lemma {:induction false} SettleKeepsTenfold(players: Players, commands: seq<Command>)
    requires Tenfold(players)
    ensures Tenfold(Settle(players, commands).players)
  {
    if commands != [] {
      var front := commands[..|commands| - 1];
      SettleKeepsTenfold(players, front);
      AppliedKeepsTenfold(Settle(players, front).players, commands[|commands| - 1]);
      hide Tenfold;
    }
  }

  lemma AppliedKeepsTenfold(players: Players, c: Command)
    requires Tenfold(players)
    ensures Tenfold(Applied(players, c))
  {
  }

  /** Nobody's hit points ever rise. */
  lemma {:induction false} SettleNeverHeals(players: Players, commands: seq<Command>, id: u64)
    requires id in players
    ensures id in Settle(players, commands).players
    ensures Settle(players, commands).players[id].hp <= players[id].hp
  {
    if commands != [] {
      SettleNeverHeals(players, commands[..|commands| - 1], id);
    }
  }

  // ---------------------------------------------------------------- departed players

  /** The commands whose player is still in the game. */
  function Present(players: Players, commands: seq<Command>): seq<Command> {
    if commands == [] then []
    else
      var front := Present(players, commands[..|commands| - 1]);
      if commands[|commands| - 1].player in players then front + [commands[|commands| - 1]] else front
  }

  /** A command left behind by a departed player settles as if it had never been submitted. */
  lemma {:induction false} DepartedCommandsAreInert(players: Players, commands: seq<Command>)
    ensures Settle(players, commands) == Settle(players, Present(players, commands))
  {
    if commands != [] {
      var front, c := commands[..|commands| - 1], commands[|commands| - 1];
      DepartedCommandsAreInert(players, front);
      SettleKeepsPlayers(players, front);
      if c.player in players {
        assert (Present(players, front) + [c])[..|Present(players, front)|] == Present(players, front);
      }
    }
  }

  // ---------------------------------------------------------------- hit points are conserved

  function TotalHp(players: Players, ids: seq<u64>): int
    requires forall id :: id in ids ==> id in players
  {
    if ids == [] then 0 else players[ids[0]].hp + TotalHp(players, ids[1..])
  }

  ghost function AllHp(players: Players): int {
    TotalHp(players, SortedIds(players.Keys))
  }

  lemma {:induction false} TotalAfterUpdate(players: Players, ids: seq<u64>, id: u64, p: Player)
    requires forall k :: k in ids ==> k in players
    requires Distinct(ids) && id in players
    ensures TotalHp(players[id := p], ids)
         == TotalHp(players, ids) + (if id in ids then p.hp - players[id].hp else 0)
  {
    if ids != [] {
      TotalAfterUpdate(players, ids[1..], id, p);
      assert ids == [ids[0]] + ids[1..];
      assert ids[0] !in ids[1..];
    }
  }

  /** The hit points lost in a tick are ten per landed attack, no more and no less. */
  lemma {:induction false} HitsAccountForHp(players: Players, commands: seq<Command>)
    ensures AllHp(Settle(players, commands).players)
         == AllHp(players) - ATTACK_DAMAGE * Settle(players, commands).hits
  {
    if commands != [] {
      var front, c := commands[..|commands| - 1], commands[|commands| - 1];
      HitsAccountForHp(players, front);
      var mid := Settle(players, front).players;
      var after := Applied(mid, c);
      assert after.Keys == mid.Keys;
      if Succeeds(mid, c) {
        var id := if c.Move? then c.player else c.target;
        assert after == mid[id := after[id]];
        TotalAfterUpdate(mid, SortedIds(mid.Keys), id, after[id]);
      }
    }
  }

  // ---------------------------------------------------------------- who can be driven below zero

  ghost predicate AboveZero(players: Players) {
    forall id :: id in players ==> players[id].hp >= 0
  }

  /** Whoever lives beside another living player has hit points that attacks use up exactly. */
  ghost predicate Fair(players: Players) {
    forall p, q :: p in players && q in players && p != q && players[p].hp > 0 && players[q].hp > 0 ==>
      players[p].hp % ATTACK_DAMAGE == 0
  }

  lemma AppliedKeepsFair(players: Players, c: Command)
    requires AboveZero(players) && Fair(players)
    ensures AboveZero(Applied(players, c)) && Fair(Applied(players, c))
  {
  }

  lemma {:induction false} SettleKeepsFair(players: Players, commands: seq<Command>)
    requires AboveZero(players) && Fair(players)
    ensures AboveZero(Settle(players, commands).players) && Fair(Settle(players, commands).players)
  {
    if commands != [] {
      SettleKeepsFair(players, commands[..|commands| - 1]);
      hide AboveZero, Fair, Applied;
      AppliedKeepsFair(Settle(players, commands[..|commands| - 1]).players, commands[|commands| - 1]);
    }
  }

  lemma {:induction false} SettleFirst(players: Players, c: Command, others: seq<Command>)
    ensures Settle(players, [c] + others).players == Settle(Applied(players, c), others).players
  {
    hide Applied, Succeeds;
    if others == [] {
      assert [c] + others == [c] && [c][..0] == [];
      SettleNothing(players);
    } else {
      var front := others[..|others| - 1];
      SettleFirst(players, c, front);
      assert ([c] + others)[..|others|] == [c] + front;
      LastApplied(players, [c] + others);
      LastApplied(Applied(players, c), others);
      hide Settle;
    }
  }

  lemma LastApplied(players: Players, commands: seq<Command>)
    requires commands != []
    ensures Settle(players, commands).players
         == Applied(Settle(players, commands[..|commands| - 1]).players, commands[|commands| - 1])
  {
  }

  /** One step of `q` towards `p`. */
  function Towards(players: Players, p: u64, q: u64): Command
    requires p in players && q in players
  {
    var a, b := players[q], players[p];
    if a.x < b.x then Move(q, 1, 0) else if a.x > b.x then Move(q, -1, 0)
    else if a.y < b.y then Move(q, 0, 1) else Move(q, 0, -1)
  }

  lemma StepCloser(players: Players, p: u64, q: u64)
    requires WellFormed(players) && p in players && q in players && p != q && Distance(players[p], players[q]) > 1
    ensures var t := Applied(players, Towards(players, p, q));
            && t.Keys == players.Keys && t[p] == players[p] && t[q].hp == players[q].hp
            && Distance(t[p], t[q]) < Distance(players[p], players[q])
  {
  }

  /** A living `q` can, alone, drive `p` below zero: it walks there and attacks as long as it takes. */
  lemma {:induction false} Hunt(players: Players, p: u64, q: u64) returns (commands: seq<Command>)
    requires WellFormed(players) && p in players && q in players && p != q
    requires players[p].hp > 0 && players[q].hp > 0 && players[p].hp % ATTACK_DAMAGE != 0
    ensures forall c :: c in commands ==> c.player == q
    ensures !AboveZero(Settle(players, commands).players)
    decreases players[p].hp, Distance(players[p], players[q])
  {
    var c := if Distance(players[p], players[q]) > 1 then Towards(players, p, q) else Attack(q, p);
    var t := Applied(players, c);
    AppliedKeepsWellFormed(players, c);
    if c.Move? {
      StepCloser(players, p, q);
    } else {
      assert t == players[p := players[p].(hp := players[p].hp - ATTACK_DAMAGE)];
    }
    if t[p].hp < 0 {
      commands := [c];
      SettleFirst(players, c, []);
      SettleNothing(t);
      assert [c] + [] == [c];
    } else {
      hide Applied, Towards, AboveZero;
      var others := Hunt(t, p, q);
      commands := [c] + others;
      SettleFirst(players, c, others);
    }
  }

  /** No batch drives anybody below zero exactly when the players are fair to begin with. */
  lemma NeverBelowZeroIff(players: Players)
    requires WellFormed(players) && AboveZero(players)
    ensures (forall commands :: AboveZero(Settle(players, commands).players)) <==> Fair(players)
  {
    if Fair(players) {
      forall commands ensures AboveZero(Settle(players, commands).players) {
        SettleKeepsFair(players, commands);
      }
    } else {
      var p, q :| p in players && q in players && p != q && players[p].hp > 0 && players[q].hp > 0
                  && players[p].hp % ATTACK_DAMAGE != 0;
      var commands := Hunt(players, p, q);
    }
    hide WellFormed, AboveZero, Fair;
  }
}
