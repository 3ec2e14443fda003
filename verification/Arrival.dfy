/**
 From the network to the business: what the base loop is told about connections, and what the
 room service assumes about it. The two meet exactly when no frame is handled after the notice
 of its connection.
 */
module Arrivals {
  import opened Common
  import opened SessionModel
  import opened ServiceModel
  import opened ServiceProofs
  import opened Checkpoint
  import opened RoomModel
  import Tcp = TcpServers
  import LateFrames

  datatype Happening = Opens(id: Conn) | Sends(id: Conn) | Closes(id: Conn)

  function AfterOne(open: set<Conn>, h: Happening): set<Conn> {
    if h.Opens? then open + {h.id} else if h.Closes? then open - {h.id} else open
  }

  /** The connections that have opened and not closed. */
  function StillOpen(log: seq<Happening>): set<Conn> {
    if log == [] then {} else AfterOne(StillOpen(log[..|log| - 1]), log[|log| - 1])
  }

  /** A connection opens, sends, and closes, in this order. */
  predicate InOrder(log: seq<Happening>) {
    log != [] ==>
      var front, last := log[..|log| - 1], log[|log| - 1];
      InOrder(front) && (last.Opens? <==> last.id !in StillOpen(front))
  }

  lemma OneMore(log: seq<Happening>, h: Happening)
    ensures (log + [h])[..|log|] == log
    ensures InOrder(log + [h]) <==> InOrder(log) && (h.Opens? <==> h.id !in StillOpen(log))
    ensures StillOpen(log + [h]) == AfterOne(StillOpen(log), h)
  {
    assert (log + [h])[..|log|] == log;
  }

  // ---------------------------------------------------------------- the network's side

  /** What a step of the two loops tells the business. */
  function Heard(s: Tcp.Server, step: Tcp.Step): seq<Happening> {
    if !Tcp.Enabled(s, step) then []
    else
      match step
      case Accept(fd, id) => if fd in s.table then [] else [Opens(id)]
      case RunBase =>
        var id := s.base[0].id;
        if id !in s.links then []
        else if s.base[0].Frame? then [Sends(id)]
        else if Tcp.InTable(s, id, s.links[id]) then [Closes(id)]
        else []
      case _ => []
  }

  function Log(steps: seq<Tcp.Step>): seq<Happening> {
    if steps == [] then []
    else
      var front := steps[..|steps| - 1];
      Log(front) + Heard(Tcp.Run(Tcp.EMPTY, front), steps[|steps| - 1])
  }

  ghost predicate NothingLate(s: Tcp.Server) {
    forall id :: id in s.links ==> s.links[id].late == 0
  }

  ghost predicate OpenAre(s: Tcp.Server, open: set<Conn>) {
    forall id :: id in open <==> id in s.links && s.links[id].notices == 0
  }

  lemma AcceptIsHeard(s: Tcp.Server, fd: Tcp.Fd, id: Conn, log: seq<Happening>)
    requires Tcp.Enabled(s, Tcp.Accept(fd, id)) && OpenAre(s, StillOpen(log)) && (InOrder(log) <==> NothingLate(s))
    ensures var more := log + Heard(s, Tcp.Accept(fd, id));
            OpenAre(Tcp.Next(s, Tcp.Accept(fd, id)), StillOpen(more))
            && (InOrder(more) <==> NothingLate(Tcp.Next(s, Tcp.Accept(fd, id))))
  {
    OneMore(log, Opens(id));
    hide InOrder, StillOpen;
    if fd in s.table {
      assert log + [] == log;
    } else {
      var t := Tcp.Next(s, Tcp.Accept(fd, id));
      assert t.links == s.links[id := t.links[id]] && t.links[id].late == 0;
      assert NothingLate(t) <==> NothingLate(s) by {
        if NothingLate(t) {
          forall i | i in s.links ensures s.links[i].late == 0 {
            assert t.links[i] == s.links[i];
          }
        }
      }
    }
  }

  lemma BaseIsHeard(s: Tcp.Server, log: seq<Happening>)
    requires Tcp.Inv(s) && s.base != [] && OpenAre(s, StillOpen(log)) && (InOrder(log) <==> NothingLate(s))
    ensures var more := log + Heard(s, Tcp.RunBase);
            OpenAre(Tcp.Next(s, Tcp.RunBase), StillOpen(more)) && (InOrder(more) <==> NothingLate(Tcp.Next(s, Tcp.RunBase)))
  {
    var id, t := s.base[0].id, Tcp.Next(s, Tcp.RunBase);
    assert id in s.links && Tcp.LinkOk(s, id, s.links[id]);
    OneMore(log, Sends(id));
    OneMore(log, Closes(id));
    assert log + [] == log;
    hide InOrder, StillOpen, Tcp.TableOk, Tcp.QueuesOk;
    assert t.links == s.links[id := t.links[id]];
    hide Tcp.Inv;
    LateElsewhere(s, t, id);
  }

  lemma LateElsewhere(s: Tcp.Server, t: Tcp.Server, id: Conn)
    requires id in s.links && id in t.links && t.links == s.links[id := t.links[id]] && s.links[id].late <= t.links[id].late
    ensures NothingLate(t) <==> NothingLate(s) && t.links[id].late == 0
  {
    if NothingLate(t) {
      forall i | i in s.links ensures s.links[i].late == 0 {
        assert t.links[i].late == 0;
      }
    }
  }

  lemma LinkIsSilent(s: Tcp.Server, step: Tcp.Step)
    requires !step.Accept? && !step.RunBase?
    ensures Heard(s, step) == [] && Tcp.Next(s, step).links.Keys == s.links.Keys
    ensures forall id :: id in s.links ==>
              Tcp.Next(s, step).links[id].late == s.links[id].late && Tcp.Next(s, step).links[id].notices == s.links[id].notices
  {
  }

  /** Whatever the interleaving, the business hears things in order exactly as long as no frame has been handled late. */
  lemma {:induction false} InOrderIffNothingLate(steps: seq<Tcp.Step>)
    ensures Tcp.Inv(Tcp.Run(Tcp.EMPTY, steps)) && OpenAre(Tcp.Run(Tcp.EMPTY, steps), StillOpen(Log(steps)))
    ensures InOrder(Log(steps)) <==> NothingLate(Tcp.Run(Tcp.EMPTY, steps))
  {
    Tcp.EmptyOk();
    Tcp.RunKeeps(Tcp.EMPTY, steps);
    if steps != [] {
      var front, step := steps[..|steps| - 1], steps[|steps| - 1];
      var s := Tcp.Run(Tcp.EMPTY, front);
      InOrderIffNothingLate(front);
      hide InOrder, StillOpen, Tcp.Inv, Tcp.Next;
      if !Tcp.Enabled(s, step) {
        Idles(s, step);
        assert Log(front) + [] == Log(front);
      } else if step.Accept? {
        AcceptIsHeard(s, step.fd, step.id, Log(front));
      } else if step.RunBase? {
        BaseIsHeard(s, Log(front));
      } else {
        LinkIsSilent(s, step);
        assert Log(front) + [] == Log(front);
      }
    }
  }

  lemma Idles(s: Tcp.Server, step: Tcp.Step)
    requires !Tcp.Enabled(s, step)
    ensures Tcp.Next(s, step) == s && Heard(s, step) == []
  {
  }

  /** In particular when no connection has been torn in the middle of decoding. */
  lemma TornFreeIsInOrder(steps: seq<Tcp.Step>)
    requires forall id :: id in Tcp.Run(Tcp.EMPTY, steps).links ==> !Tcp.Run(Tcp.EMPTY, steps).links[id].torn
    ensures InOrder(Log(steps))
  {
    hide Tcp.Run, InOrder;
    InOrderIffNothingLate(steps);
    forall id | id in Tcp.Run(Tcp.EMPTY, steps).links ensures Tcp.Run(Tcp.EMPTY, steps).links[id].late == 0 {
      Tcp.NoFrameAfterNotice(steps, id);
    }
  }

  // ---------------------------------------------------------------- the business's side

  /** What an event of the room service says about a connection. */
  function Told(e: Event): (log: seq<Happening>)
    ensures |log| <= 1
  {
    match e
    case Opened(c) => [Opens(c)]
    case JoinFrame(c, _, _, _) => [Sends(c)]
    case ResumeFrame(c, _, _) => [Sends(c)]
    case LeaveFrame(c) => [Sends(c)]
    case OrderFrame(c, _) => [Sends(c)]
    case ClosedNotice(c, _) => [Closes(c)]
    case _ => []
  }

  function Telling(events: seq<Event>): seq<Happening> {
    if events == [] then [] else Telling(events[..|events| - 1]) + Told(events[|events| - 1])
  }

  /** The room service is told everything but some frames, such as chat and heartbeats. */
  predicate Thinned(all: seq<Happening>, kept: seq<Happening>) {
    if all == [] then kept == []
    else
      var front, last := all[..|all| - 1], all[|all| - 1];
      || (kept != [] && kept[|kept| - 1] == last && Thinned(front, kept[..|kept| - 1]))
      || (last.Sends? && Thinned(front, kept))
  }

  lemma {:induction false} ThinnedInOrder(all: seq<Happening>, kept: seq<Happening>)
    requires Thinned(all, kept) && InOrder(all)
    ensures InOrder(kept) && StillOpen(kept) == StillOpen(all)
  {
    if all != [] {
      var front, last := all[..|all| - 1], all[|all| - 1];
      if kept != [] && kept[|kept| - 1] == last && Thinned(front, kept[..|kept| - 1]) {
        ThinnedInOrder(front, kept[..|kept| - 1]);
      } else {
        ThinnedInOrder(front, kept);
      }
    }
  }

  /** Tokens as the generator makes them, checkpoints as the decoder lets them through. */
  ghost predicate Fit(e: Event) {
    && (e.JoinFrame? && e.token.Some? ==> ValidToken(e.token.value))
    && (e.Loaded? ==> ValidKeys(e.checkpoint))
  }

  lemma OneMoreTold(w: World, log: seq<Happening>, e: Event)
    requires w.open == StillOpen(log) && InOrder(log + Told(e)) && Fit(e)
    ensures Possible(w, e) && After(w, e).open == StillOpen(log + Told(e)) && InOrder(log)
  {
    if Told(e) == [] {
      assert log + [] == log;
    } else {
      OneMore(log, Told(e)[0]);
      assert Told(e) == [Told(e)[0]];
    }
    hide ValidToken, ValidKeys, ServiceAfter, InOrder, StillOpen;
  }

  /** Each event is possible where it comes. */
  ghost predicate AllPossible(events: seq<Event>) {
    events != [] ==>
      AllPossible(events[..|events| - 1]) && Possible(Run(FRESH, events[..|events| - 1]), events[|events| - 1])
  }

  lemma {:induction false} TellingIsPossible(events: seq<Event>)
    requires InOrder(Telling(events)) && forall e :: e in events ==> Fit(e)
    ensures AllPossible(events) && Run(FRESH, events).open == StillOpen(Telling(events))
  {
    if events != [] {
      var front, e := events[..|events| - 1], events[|events| - 1];
      hide InOrder, StillOpen, After, Possible, Told, Fit;
      InOrderBefore(Telling(front), Told(e));
      TellingIsPossible(front);
      OneMoreTold(Run(FRESH, front), Telling(front), e);
    }
  }

  lemma InOrderBefore(log: seq<Happening>, more: seq<Happening>)
    requires InOrder(log + more) && |more| <= 1
    ensures InOrder(log)
  {
    if more == [] {
      assert log + more == log;
    } else {
      assert log + more == log + [more[0]];
      OneMore(log, more[0]);
    }
  }

  /**
   What the room service assumes of the network holds: as long as no frame has been handled late, and
   that is as long as no reply has failed in the middle of decoding, every event is a possible one.
   */
  lemma HeardIsPossible(steps: seq<Tcp.Step>, events: seq<Event>)
    requires NothingLate(Tcp.Run(Tcp.EMPTY, steps)) && Thinned(Log(steps), Telling(events))
    requires forall e :: e in events ==> Fit(e)
    ensures AllPossible(events)
  {
    InOrderIffNothingLate(steps);
    ThinnedInOrder(Log(steps), Telling(events));
    TellingIsPossible(events);
  }

  // ---------------------------------------------------------------- what a late join leads to

  /** The session of `token` is online on `conn`, for good as far as the tables can tell. */
  ghost predicate Stuck(s: Service, conn: Conn, token: Bytes) {
    && conn in s.table.bindings && s.table.bindings[conn] == token
    && token in s.table.sessions && s.table.sessions[token].conn == Some(conn)
  }

  /** The connection an event comes from. */
  function Sender(e: Event): set<Conn> {
    match e
    case JoinFrame(c, _, _, _) => {c}
    case ResumeFrame(c, _, _) => {c}
    case LeaveFrame(c) => {c}
    case OrderFrame(c, _) => {c}
    case ClosedNotice(c, _) => {c}
    case _ => {}
  }

  lemma EventLeavesStuck(s: Service, e: Event, conn: Conn, token: Bytes)
    requires TableConsistent(s.table) && Stuck(s, conn, token) && conn !in Sender(e) && !e.Loaded?
    ensures Stuck(ServiceAfter(s, e), conn, token)
  {
    hide ValidToken, SeatAndStart, AfterTick, AfterSubmit, AfterLeave, AfterBind, AfterDetach, Gone, StartFails;
    hide JoinOutcome;
  }

  lemma {:induction false} StuckForGood(w: World, events: seq<Event>, conn: Conn, token: Bytes)
    requires ServiceConsistent(w.service) && Stuck(w.service, conn, token) && conn !in w.open
    requires forall e :: e in events ==> !e.Loaded? && e != Opened(conn)
    ensures var v := Run(w, events); ServiceConsistent(v.service) && Stuck(v.service, conn, token) && conn !in v.open
  {
    if events != [] {
      var front, e := events[..|events| - 1], events[|events| - 1];
      StuckForGood(w, front, conn, token);
      hide Run, ServiceConsistent, Stuck, After;
      AfterKeepsStuck(Run(w, front), e, conn, token);
    }
  }

  lemma AfterKeepsStuck(w: World, e: Event, conn: Conn, token: Bytes)
    requires ServiceConsistent(w.service) && Stuck(w.service, conn, token) && conn !in w.open && !e.Loaded? && e != Opened(conn)
    ensures var v := After(w, e); ServiceConsistent(v.service) && Stuck(v.service, conn, token) && conn !in v.open
  {
    hide Stuck, ServiceAfter, TableConsistent;
    if Possible(w, e) {
      assert conn !in Sender(e) by { hide ValidToken, ValidKeys; }
      assert TableConsistent(w.service.table);
      hide ServiceConsistent;
      EventKeeps(w.service, e);
      EventLeavesStuck(w.service, e, conn, token);
    }
  }

  /**
   A join frame handled after the close notice of its connection seats a player that no later notice
   detaches: until the next load its session stays online, cannot be resumed and is never swept.
   */
  lemma LateJoinIsForGood(
    w: World, conn: Conn, k: u32, name: Bytes, token: Bytes, events: seq<Event>, other: Conn, now: int)
    requires Sound(w) && conn !in w.open && ValidToken(token)
    requires JoinResult(w.service, conn, k, name, Some(token)) == Accepted
    requires forall e :: e in events ==> !e.Loaded? && e != Opened(conn)
    ensures var joined := World(AfterHandleJoin(w.service, conn, k, name, Some(token)), w.open);
            var s := Run(joined, events).service;
            && token in s.table.sessions && s.table.sessions[token].conn == Some(conn)
            && ResumeOutcome(s.table, other, token, now) != SessionStatus.Success
            && token in AfterSweep(s, now).table.sessions
  {
    JoinKeeps(w.service, conn, k, name, Some(token));
    JoinedIsStuck(w.service, conn, k, name, token);
    hide AfterHandleJoin, Run, ServiceConsistent, Sound, JoinResult, ValidToken;
    StuckForGood(World(AfterHandleJoin(w.service, conn, k, name, Some(token)), w.open), events, conn, token);
  }

  lemma JoinedIsStuck(s: Service, conn: Conn, k: u32, name: Bytes, token: Bytes)
    requires JoinResult(s, conn, k, name, Some(token)) == Accepted
    ensures Stuck(AfterHandleJoin(s, conn, k, name, Some(token)), conn, token)
  {
    hide SeatAndStart, JoinOutcome, StartFails;
  }
}
