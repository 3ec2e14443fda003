/** Runs of the service that show what its promises depend on. */
module ServiceExamples {
  import opened Common
  import opened Ordering
  import opened GameState
  import opened Checkpoint
  import opened Tick
  import opened RoomModel
  import opened SessionModel
  import opened ServiceModel
  import opened ServiceProofs
  import opened ServiceCheckpoint

  // ---------------------------------------------------------------- a server with somebody in it

  lemma RunSnoc(w: World, events: seq<Event>, e: Event)
    ensures Run(w, events + [e]) == After(Run(w, events), e) && Run(w, []) == w
  {
    assert (events + [e])[..|events|] == events;
  }

  /** From an empty server, a room, a connection and a join lead to a seated player. */
  lemma AJoinSeatsAPlayer(conn: Conn, name: Bytes, token: Bytes) returns (events: seq<Event>)
    requires NameFits(name) && ValidToken(token)
    ensures Sound(Run(FRESH, events)) && Known(Run(FRESH, events).service, conn)
    ensures SessionOf(Run(FRESH, events).service, conn) == SessionState(1, 1, Some(conn), 0)
  {
    var e1, e2, e3 := RoomAdded(1, 2), Opened(conn), JoinFrame(conn, 1, name, Some(token));
    events := [] + [e1] + [e2] + [e3];
    RunSnoc(FRESH, [], e1);
    RunSnoc(FRESH, [] + [e1], e2);
    RunSnoc(FRESH, [] + [e1] + [e2], e3);
    FreshIsSound();
    RunKeepsSound(FRESH, events);
    hide Run, Sound;
    var w := World(Service(map[1 := NewRoom(1, 2)], SessionTable(map[], map[])), {conn});
    assert After(After(FRESH, e1), e2) == w;
    FirstJoin(w.service, conn, name, token);
  }

  lemma FirstJoin(s: Service, conn: Conn, name: Bytes, token: Bytes)
    requires s == Service(map[1 := NewRoom(1, 2)], SessionTable(map[], map[])) && NameFits(name)
    ensures var t := AfterHandleJoin(s, conn, 1, name, Some(token));
            Known(t, conn) && SessionOf(t, conn) == SessionState(1, 1, Some(conn), 0)
  {
    assert JoinResult(s, conn, 1, name, Some(token)) == Accepted;
    assert |AfterJoin(s.rooms[1], conn, name).members| == 1;
  }

  // ---------------------------------------------------------------- five hit points

  /** Two players on one square, nobody connected, the second with five hit points left. */
  function Duel(): RoomState {
    RoomState(1, 2, 3, Running, 0,
              map[1 := Member(1, [65], None), 2 := Member(2, [66], None)],
              map[1 := Player(1, 0, 0, 100), 2 := Player(2, 0, 0, 5)], [])
  }

  lemma DuelIsConsistent()
    ensures Consistent(Duel()) && NobodyBelowZero(Duel())
  {
    assert |Duel().members| == 2 && |Duel().players| == 2;
  }

  lemma DuelAttack()
    ensures AttackStatus(Duel().players, 1, 2) == GameState.Success
  {
  }

  lemma OneAttack(r: RoomState)
    requires Consistent(r) && r.phase == Running && r.pending == []
    requires AttackStatus(r.players, 1, 2) == GameState.Success && r.players[2].hp < ATTACK_DAMAGE
    ensures Consistent(AfterTick(AfterSubmit(r, Attack(1, 2))))
    ensures !NobodyBelowZero(AfterTick(AfterSubmit(r, Attack(1, 2))))
  {
    hide Consistent, AttackStatus, NobodyBelowZero;
    var commands := [Attack(1, 2)];
    StepKeepsConsistent(r, Submit(commands[0]));
    StepKeepsConsistent(AfterSubmit(r, commands[0]), TickOnce);
    AttackLeavesBelowZero(r);
    hide *;
  }

  lemma AttackLeavesBelowZero(r: RoomState)
    requires Consistent(r) && r.phase == Running && r.pending == []
    requires AttackStatus(r.players, 1, 2) == GameState.Success && r.players[2].hp < ATTACK_DAMAGE
    ensures !NobodyBelowZero(AfterTick(AfterSubmit(r, Attack(1, 2))))
  {
    var commands := [Attack(1, 2)];
    ConsistentFacts(r);
    SettleNothing(r.players);
    SettleOneMore(r.players, commands, 0);
    hide Consistent, WellFormed, Settle;
    assert commands[..0] == [] && commands[..1] == commands;
    assert AfterTick(AfterSubmit(r, commands[0])).players[2].hp < 0;
  }

  lemma DuelSleeps()
    ensures Unplugged(Duel()) == Duel()
  {
    var members := Duel().members;
    assert Names(members).Keys == {1, 2};
    assert OfflineMembers(Names(members)).Keys == {1, 2};
    assert OfflineMembers(Names(members)) == members;
  }

  /** The first player's seat can be taken again, and from there the second can be attacked. */
  lemma DuelFacts(conn: Conn)
    ensures BindOutcome(Duel(), 1) == Bound && |Duel().members| <= MAX_LISTED
    ensures var r := AfterBind(Duel(), 1, conn);
            && Consistent(r) && r.phase == Running && r.pending == []
            && AttackStatus(r.players, 1, 2) == GameState.Success && r.players[2].hp < ATTACK_DAMAGE
  {
    DuelIsConsistent();
    DuelAttack();
    BindKeepsConsistent(Duel(), 1, conn);
    hide Consistent, AttackStatus, NobodyBelowZero;
    BoundDuel(conn);
    hide *;
  }

  lemma BoundDuel(conn: Conn)
    ensures BindOutcome(Duel(), 1) == Bound && |Duel().members| <= MAX_LISTED
    ensures var r := AfterBind(Duel(), 1, conn);
            r.phase == Running && r.pending == [] && r.players == Duel().players && 2 in r.players
              && r.players[2].hp < ATTACK_DAMAGE
  {
    assert |Duel().members| == 2;
  }

  function FirstToken(): Bytes {
    seq(SESSION_TOKEN_SIZE, _ => 48)
  }

  function SecondToken(): Bytes {
    seq(SESSION_TOKEN_SIZE, _ => 49)
  }

  lemma TokensAreFit()
    ensures ValidToken(FirstToken()) && ValidToken(SecondToken()) && FirstToken() != SecondToken()
  {
    assert FirstToken()[0] == 48 && SecondToken()[0] == 49;
  }

  /** A server in which the duel waits for its two players. */
  function DuelServer(deadline: int): Service {
    Service(map[1 := Duel()],
            SessionTable(map[FirstToken() := SessionState(1, 1, None, deadline),
              SecondToken() := SessionState(1, 2, None, deadline)],
                         map[]))
  }

  lemma DuelServerIsSound(deadline: int)
    ensures ServiceConsistent(DuelServer(deadline))
  {
    DuelIsConsistent();
    TokensAreFit();
    hide Consistent, FirstToken, SecondToken, ValidToken;
    var s := DuelServer(deadline);
    assert TableConsistent(s.table);
    assert HasSession(s.table.sessions, 1, 1) by { assert FirstToken() in s.table.sessions; }
    assert HasSession(s.table.sessions, 1, 2) by { assert SecondToken() in s.table.sessions; }
  }

  /** Such a server is what its checkpoint restores. */
  lemma DuelComesBack(deadline: int, target: Service)
    ensures ValidKeys(CheckpointOf(DuelServer(deadline), 1))
    ensures RestoreOutcome(target, CheckpointOf(DuelServer(deadline), 1), deadline) == (true, DuelServer(deadline))
  {
    var s := DuelServer(deadline);
    DuelServerIsSound(deadline);
    OwnCheckpointIsSound(s, 1);
    ServerRoundTrip(s, 1, target, deadline);
    hide ServiceConsistent, Consistent, CheckpointOf, RestoreOutcome, ValidKeys, FirstToken, SecondToken;
    assert EverybodyAboveZero(s.rooms) by { DuelIsConsistent(); }
    hide EverybodyAboveZero;
    DuelAsleep(deadline);
  }

  lemma DuelAsleep(deadline: int)
    ensures Asleep(DuelServer(deadline), deadline) == DuelServer(deadline)
  {
    var s := DuelServer(deadline);
    DuelSleeps();
    hide FirstToken, SecondToken, Duel, Unplugged;
    assert AllUnplugged(s.rooms) == s.rooms;
    assert OfflineSessions(Tickets(s.table.sessions), deadline) == s.table.sessions;
  }

  /** Its first player comes back, attacks, and the tick settles the attack. */
  lemma DuelIsFought(conn: Conn, deadline: int, now: int)
    requires now < deadline
    ensures var resumed := AfterHandleResume(DuelServer(deadline), conn, FirstToken(), now);
            var ordered := AfterHandleOrder(resumed, conn, AttackOrder(2));
            var fought := AfterHandleTick(ordered, 1);
            1 in fought.rooms && fought.rooms[1] == AfterTick(AfterSubmit(AfterBind(Duel(), 1, conn), Attack(1, 2)))
  {
    DuelFacts(conn);
    TokensAreFit();
    hide FirstToken, SecondToken, ValidToken, Duel, AfterTick, AfterSubmit, Consistent, AttackStatus;
    var s := DuelServer(deadline);
    var e := SessionState(1, 1, None, deadline);
    assert s.table.sessions[FirstToken()] == e;
    var resumed := AfterHandleResume(s, conn, FirstToken(), now);
    assert ResumeAccepted(s, conn, FirstToken(), now);
    assert resumed.rooms == map[1 := AfterBind(Duel(), 1, conn)];
    assert Known(resumed, conn) && SessionOf(resumed, conn) == e.(conn := Some(conn));
    hide DuelServer, AfterHandleResume, AfterBind;
    var ordered := AfterHandleOrder(resumed, conn, AttackOrder(2));
    assert ordered.rooms == map[1 := AfterSubmit(AfterBind(Duel(), 1, conn), Attack(1, 2))];
  }

  /** After the attack nobody would take the room back. */
  lemma DuelIsLost(conn: Conn)
    ensures !NobodyBelowZero(AfterTick(AfterSubmit(AfterBind(Duel(), 1, conn), Attack(1, 2))))
  {
    DuelFacts(conn);
    hide Duel, Consistent, AttackStatus, NobodyBelowZero, AfterTick, AfterSubmit, AfterBind;
    OneAttack(AfterBind(Duel(), 1, conn));
  }

  /**
   A foreign checkpoint can break the promise of `WrittenIsRestorable`: five hit points are accepted
   by a restore, an attack still takes ten, and the checkpoint of that server is then refused everywhere.
   */
  lemma FiveHitPointsAreLost(conn: Conn, deadline: int, now: int) returns (c: ServerRecord, events: seq<Event>)
    requires now < deadline
    ensures events == [Loaded(c, deadline), Opened(conn), ResumeFrame(conn, FirstToken(), now),
                       OrderFrame(conn, AttackOrder(2)), TickDue(1)]
    ensures RestoreOutcome(FRESH.service, c, deadline).0 && Sound(Run(FRESH, events))
    ensures forall generation: u64, target: Service, until: int :: generation != 0 ==>
              RestoreOutcome(target, CheckpointOf(Run(FRESH, events).service, generation), until) == (false, target)
  {
    c := CheckpointOf(DuelServer(deadline), 1);
    events := [Loaded(c, deadline), Opened(conn), ResumeFrame(conn, FirstToken(), now),
      OrderFrame(conn, AttackOrder(2)), TickDue(1)];
    DuelComesBack(deadline, FRESH.service);
    DuelRuns(c, conn, deadline, now);
    DuelIsFought(conn, deadline, now);
    DuelIsLost(conn);
    FreshIsSound();
    RunKeepsSound(FRESH, events);
    hide *;
    forall generation: u64, target: Service, until: int | generation != 0
      ensures RestoreOutcome(target, CheckpointOf(Run(FRESH, events).service, generation), until) == (false, target)
    {
      LostServer(Run(FRESH, events), generation, target, until);
    }
  }

  lemma DuelRuns(c: ServerRecord, conn: Conn, deadline: int, now: int)
    requires ValidKeys(c) && RestoreOutcome(FRESH.service, c, deadline) == (true, DuelServer(deadline))
    ensures Run(FRESH, [Loaded(c, deadline), Opened(conn), ResumeFrame(conn, FirstToken(), now),
        OrderFrame(conn, AttackOrder(2)), TickDue(1)]).service
         == AfterHandleTick(AfterHandleOrder(AfterHandleResume(DuelServer(deadline), conn, FirstToken(), now), conn,
           AttackOrder(2)), 1)
  {
    hide Run, DuelServer, FirstToken, ValidKeys, RestoreOutcome, AfterHandleTick, AfterHandleOrder, AfterHandleResume;
    FiveEvents(FRESH, Loaded(c, deadline), Opened(conn), ResumeFrame(conn, FirstToken(), now),
      OrderFrame(conn, AttackOrder(2)), TickDue(1));
    assert After(After(FRESH, Loaded(c, deadline)), Opened(conn)) == World(DuelServer(deadline), {conn});
  }

  lemma FiveEvents(w: World, e1: Event, e2: Event, e3: Event, e4: Event, e5: Event)
    ensures Run(w, [e1, e2, e3, e4, e5]) == After(After(After(After(After(w, e1), e2), e3), e4), e5)
  {
    hide After, Run;
    RunSnoc(w, [], e1);
    RunSnoc(w, [e1], e2);
    RunSnoc(w, [e1, e2], e3);
    RunSnoc(w, [e1, e2, e3], e4);
    RunSnoc(w, [e1, e2, e3, e4], e5);
    assert [] + [e1] == [e1] && [e1] + [e2] == [e1, e2] && [e1, e2] + [e3] == [e1, e2, e3];
    assert [e1, e2, e3] + [e4] == [e1, e2, e3, e4] && [e1, e2, e3, e4] + [e5] == [e1, e2, e3, e4, e5];
  }

  lemma LostServer(w: World, generation: u64, target: Service, until: int)
    requires Sound(w) && generation != 0 && 1 in w.service.rooms && !NobodyBelowZero(w.service.rooms[1])
    ensures RestoreOutcome(target, CheckpointOf(w.service, generation), until) == (false, target)
  {
    ServerRoundTrip(w.service, generation, target, until);
    hide RestoreOutcome, CheckpointOf, ServiceConsistent, NobodyBelowZero;
  }
}
