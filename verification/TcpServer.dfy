/**
 The connection table and the two-loop close handshake. The base loop accepts and removes, each
 connection's I/O loop decodes, closes and destroys; they talk through queued tasks. The kernel
 hands out only file descriptors that are not open. The server's destructor is not modelled.
 */
module TcpServers {
  import opened Common

  type Fd = nat

  /** What the base loop has been asked to do, in the order it was asked. */
  datatype BaseTask = Frame(id: Conn) | Remove(id: Conn)

  datatype Phase = Connecting | Connected | Disconnecting | Disconnected

  /**
   One connection: `torn` once a reply written in the middle of decoding has failed and closed
   it, `notices` and `late` count what the business layer has seen, `destroys` the queued
   destruction tasks.
   */
  datatype Link = Link(fd: Fd, phase: Phase, decoding: bool, torn: bool, notices: nat, late: nat, destroys: nat, closed: bool)

  datatype Server = Server(open: set<Fd>, table: map<Fd, Conn>, links: map<Conn, Link>, base: seq<BaseTask>)

  const EMPTY: Server := Server({}, map[], map[], [])

  datatype Step =
    | Accept(fd: Fd, id: Conn) | RunBase
    | Establish(id: Conn, added: bool) | Close(id: Conn) | BeginDecode(id: Conn) | PostFrame(id: Conn)
    | ReplyFails(id: Conn) | EndDecode(id: Conn, refused: bool) | RunDestroy(id: Conn)

  // ---------------------------------------------------------------- the steps

  predicate Alive(l: Link) {
    l.phase.Connecting? || l.phase.Connected?
  }

  predicate Enabled(s: Server, step: Step) {
    match step
    case Accept(fd, id) => fd !in s.open && id !in s.links
    case RunBase => s.base != []
    case Establish(id, _) => id in s.links && s.links[id].phase.Connecting? && !s.links[id].decoding
    case Close(id) => id in s.links && !s.links[id].decoding
    case BeginDecode(id) => id in s.links && s.links[id].phase.Connected? && !s.links[id].decoding
    case PostFrame(id) => id in s.links && s.links[id].decoding
    case ReplyFails(id) => id in s.links && s.links[id].decoding
    case EndDecode(id, _) => id in s.links && s.links[id].decoding
    case RunDestroy(id) => id in s.links && s.links[id].destroys > 0 && !s.links[id].decoding
  }

  function Set(s: Server, id: Conn, l: Link): Server {
    s.(links := s.links[id := l])
  }

  /** `handle_close`: only the first one posts the removal. */
  function Closing(s: Server, id: Conn): Server
    requires id in s.links
  {
    if Alive(s.links[id]) then Set(s, id, s.links[id].(phase := Disconnecting)).(base := s.base + [Remove(id)]) else s
  }

  /** `handle_accept`: a descriptor that is still in the table would be closed at once. */
  function Accepted(s: Server, fd: Fd, id: Conn): Server {
    if fd in s.table then s
    else Server(s.open + {fd}, s.table[fd := id], s.links[id := Link(fd, Connecting, false, false, 0, 0, 0, false)], s.base)
  }

  /** `remove_connection_in_loop`: notify, forget, and ask the I/O loop to destroy. */
  function Removed(s: Server, id: Conn): Server
    requires id in s.links
  {
    var l := s.links[id];
    if l.fd in s.table && s.table[l.fd] == id
    then Set(s, id, l.(notices := l.notices + 1, destroys := l.destroys + 1)).(table := s.table - {l.fd})
    else s
  }

  function Handled(s: Server, id: Conn): Server
    requires id in s.links
  {
    var l := s.links[id];
    if l.notices > 0 then Set(s, id, l.(late := l.late + 1)) else s
  }

  function RanBase(s: Server): Server
    requires s.base != []
  {
    var t := s.(base := s.base[1..]);
    if s.base[0].id !in s.links then t
    else if s.base[0].Frame? then Handled(t, s.base[0].id) else Removed(t, s.base[0].id)
  }

  /** `connect_destroyed`: the descriptor is closed here and nowhere else. */
  function DestroyedLink(s: Server, id: Conn): Server
    requires id in s.links && s.links[id].destroys > 0
  {
    var l := s.links[id].(destroys := s.links[id].destroys - 1);
    if l.phase.Disconnected? then Set(s, id, l)
    else Set(s, id, l.(phase := Disconnected, closed := true)).(open := s.open - {l.fd})
  }

  function Next(s: Server, step: Step): Server {
    if !Enabled(s, step) then s
    else
      match step
      case Accept(fd, id) => Accepted(s, fd, id)
      case RunBase => RanBase(s)
      case Establish(id, added) => if added then Set(s, id, s.links[id].(phase := Connected)) else Closing(s, id)
      case Close(id) => Closing(s, id)
      case BeginDecode(id) => Set(s, id, s.links[id].(decoding := true))
      case PostFrame(id) => s.(base := s.base + [Frame(id)])
      case ReplyFails(id) => var t := Closing(s, id); Set(t, id, t.links[id].(torn := true))
      case EndDecode(id, refused) =>
        var t := Set(s, id, s.links[id].(decoding := false));
        if refused then Closing(t, id) else t
      case RunDestroy(id) => DestroyedLink(s, id)
  }

  function Run(s: Server, steps: seq<Step>): Server {
    if steps == [] then s else Next(Run(s, steps[..|steps| - 1]), steps[|steps| - 1])
  }

  // ---------------------------------------------------------------- what every interleaving keeps

  predicate InTable(s: Server, id: Conn, l: Link) {
    l.fd in s.table && s.table[l.fd] == id
  }

  /** A connection is in the table exactly until its one notice; its descriptor stays open at least that long. */
  ghost predicate LinkOk(s: Server, id: Conn, l: Link) {
    && (l.notices == 0 <==> InTable(s, id, l)) && l.notices <= 1
    && (l.notices == 0 ==> l.destroys == 0 && !l.closed)
    && (!l.closed ==> l.fd in s.open)
    && (l.closed <==> l.phase.Disconnected?)
  }

  ghost predicate TableOk(s: Server) {
    && (forall id :: id in s.links ==> LinkOk(s, id, s.links[id]))
    && (forall fd :: fd in s.table ==> s.table[fd] in s.links && s.links[s.table[fd]].fd == fd)
    && (forall i, j :: i in s.links && j in s.links && i != j && !s.links[i].closed && !s.links[j].closed ==>
          s.links[i].fd != s.links[j].fd)
  }

  /** The frames of `id` all come before its removal. */
  ghost predicate FramesFirst(base: seq<BaseTask>, id: Conn) {
    forall i, j :: 0 <= i < j < |base| && base[i] == Remove(id) ==> base[j] != Frame(id)
  }

  ghost predicate QueueOk(base: seq<BaseTask>, id: Conn, l: Link) {
    && (Alive(l) ==> Remove(id) !in base && l.notices == 0)
    && (l.decoding && !l.torn ==> l.phase.Connected?)
    && (!l.torn ==> FramesFirst(base, id) && l.late == 0 && (l.notices > 0 ==> Frame(id) !in base))
  }

  ghost predicate QueuesOk(s: Server) {
    && (forall id :: id in s.links ==> QueueOk(s.base, id, s.links[id]))
    && (forall i :: 0 <= i < |s.base| ==> s.base[i].id in s.links)
  }

  ghost predicate Inv(s: Server) {
    TableOk(s) && QueuesOk(s)
  }

  lemma EmptyOk()
    ensures Inv(EMPTY)
  {
  }

  /** A descriptor in the table is open, so the kernel never hands it out again: accept never meets one. */
  lemma TableDescriptorsAreOpen(s: Server, fd: Fd)
    requires Inv(s) && fd in s.table
    ensures fd in s.open
  {
    hide QueuesOk;
    assert LinkOk(s, s.table[fd], s.links[s.table[fd]]);
  }

  lemma AcceptKeeps(s: Server, fd: Fd, id: Conn)
    requires Inv(s) && Enabled(s, Accept(fd, id))
    ensures Inv(Next(s, Accept(fd, id)))
  {
    if fd in s.table {
      TableDescriptorsAreOpen(s, fd);
    }
    var t := Accepted(s, fd, id);
    forall i | i in t.links ensures LinkOk(t, i, t.links[i]) && QueueOk(t.base, i, t.links[i]) {
      if i != id {
        assert LinkOk(s, i, s.links[i]) && QueueOk(s.base, i, s.links[i]);
      } else {
        forall k | 0 <= k < |s.base| ensures s.base[k] != Frame(id) && s.base[k] != Remove(id) {
          assert s.base[k].id in s.links;
        }
      }
    }
    hide FramesFirst;
  }

  /** Only the link of `id` changes, and neither table nor open descriptors do. */
  lemma OneLinkChanges(s: Server, t: Server, id: Conn)
    requires TableOk(s) && id in s.links && id in t.links
    requires t.table == s.table && t.open == s.open && t.links == s.links[id := t.links[id]]
    requires var l, m := s.links[id], t.links[id];
             && m.fd == l.fd && m.notices == l.notices && m.destroys == l.destroys && m.closed == l.closed
             && (m.phase.Disconnected? <==> l.phase.Disconnected?)
    ensures TableOk(t)
  {
    forall i | i in t.links ensures LinkOk(t, i, t.links[i]) {
      assert LinkOk(s, i, s.links[i]);
    }
  }

  lemma OneQueueChanges(s: Server, t: Server, id: Conn)
    requires QueuesOk(s) && id in s.links && id in t.links && t.links == s.links[id := t.links[id]]
    requires t.base == s.base || t.base == s.base + [Frame(id)] || t.base == s.base + [Remove(id)]
    requires QueueOk(t.base, id, t.links[id])
    ensures QueuesOk(t)
  {
    hide QueueOk;
    forall i | i in t.links ensures QueueOk(t.base, i, t.links[i]) {
      if i != id {
        assert QueueOk(s.base, i, s.links[i]);
        OtherQueue(s.base, t.base, id, i, s.links[i]);
      }
    }
  }

  lemma OtherQueue(base: seq<BaseTask>, more: seq<BaseTask>, id: Conn, other: Conn, l: Link)
    requires QueueOk(base, other, l) && other != id
    requires more == base || more == base + [Frame(id)] || more == base + [Remove(id)]
    ensures QueueOk(more, other, l)
  {
  }

  /** The links of an I/O step: same descriptor and bookkeeping, and at most one task more in the base queue. */
  lemma LinkStepKeeps(s: Server, step: Step)
    requires Inv(s) && Enabled(s, step) && !step.Accept? && !step.RunBase? && !step.RunDestroy?
    ensures Inv(Next(s, step))
  {
    var t := Next(s, step);
    assert QueueOk(s.base, step.id, s.links[step.id]) && LinkOk(s, step.id, s.links[step.id]);
    LinkStepFacts(s, step);
    hide Next, TableOk, QueuesOk;
    OneLinkChanges(s, t, step.id);
    OneQueueChanges(s, t, step.id);
  }

  lemma LinkStepFacts(s: Server, step: Step)
    requires Enabled(s, step) && !step.Accept? && !step.RunBase? && !step.RunDestroy?
    requires QueueOk(s.base, step.id, s.links[step.id])
    ensures var t, id := Next(s, step), step.id;
            && t.table == s.table && t.open == s.open && id in t.links && t.links == s.links[id := t.links[id]]
            && (t.base == s.base || t.base == s.base + [Frame(id)] || t.base == s.base + [Remove(id)])
            && QueueOk(t.base, id, t.links[id])
            && var l, m := s.links[id], t.links[id];
               && m.fd == l.fd && m.notices == l.notices && m.destroys == l.destroys && m.closed == l.closed
               && (m.phase.Disconnected? <==> l.phase.Disconnected?)
  {
  }

  /** Nobody else has the descriptor, so closing it leaves every other connection's open. */
  lemma DestroyKeeps(s: Server, id: Conn)
    requires Inv(s) && Enabled(s, RunDestroy(id))
    ensures Inv(Next(s, RunDestroy(id)))
  {
    var t := DestroyedLink(s, id);
    assert LinkOk(s, id, s.links[id]) && QueueOk(s.base, id, s.links[id]);
    forall i | i in t.links ensures LinkOk(t, i, t.links[i]) {
      assert LinkOk(s, i, s.links[i]);
    }
    assert TableOk(t);
    hide TableOk;
    forall i | i in t.links ensures QueueOk(t.base, i, t.links[i]) {
      assert QueueOk(s.base, i, s.links[i]);
    }
  }

  lemma RestOfQueue(base: seq<BaseTask>, id: Conn, l: Link)
    requires base != [] && QueueOk(base, id, l)
    ensures QueueOk(base[1..], id, l)
    ensures base[0] == Remove(id) && !l.torn ==> Frame(id) !in base[1..]
    ensures base[0] == Frame(id) && !l.torn ==> l.notices == 0
    ensures base[0] == Remove(id) ==> !Alive(l)
  {
    assert base == [base[0]] + base[1..];
    if base[0] == Remove(id) && !l.torn {
      forall j | 0 <= j < |base[1..]| ensures base[1..][j] != Frame(id) {
        assert base[1..][j] == base[j + 1];
      }
    }
  }

  lemma FrameKeeps(s: Server)
    requires Inv(s) && s.base != [] && s.base[0].Frame?
    ensures Inv(Next(s, RunBase))
  {
    var t, id := RanBase(s), s.base[0].id;
    assert s.base[0] == Frame(id) && id in s.links;
    assert LinkOk(s, id, s.links[id]);
    forall i | i in t.links ensures LinkOk(t, i, t.links[i]) && QueueOk(t.base, i, t.links[i]) {
      assert LinkOk(s, i, s.links[i]);
      RestOfQueue(s.base, i, s.links[i]);
    }
    hide FramesFirst;
  }

  lemma RemoveKeeps(s: Server)
    requires Inv(s) && s.base != [] && s.base[0].Remove?
    ensures Inv(Next(s, RunBase))
  {
    var t, id := RanBase(s), s.base[0].id;
    assert s.base[0] == Remove(id) && id in s.links;
    assert LinkOk(s, id, s.links[id]);
    forall i | i in t.links ensures LinkOk(t, i, t.links[i]) && QueueOk(t.base, i, t.links[i]) {
      assert LinkOk(s, i, s.links[i]);
      RestOfQueue(s.base, i, s.links[i]);
    }
    hide FramesFirst;
  }

  lemma NextKeeps(s: Server, step: Step)
    requires Inv(s)
    ensures Inv(Next(s, step))
  {
    if Enabled(s, step) {
      hide Inv, Next;
      match step
      case Accept(fd, id) => AcceptKeeps(s, fd, id);
      case RunBase => if s.base[0].Frame? { FrameKeeps(s); } else { RemoveKeeps(s); }
      case RunDestroy(id) => DestroyKeeps(s, id);
      case _ => LinkStepKeeps(s, step);
    } else {
      assert Next(s, step) == s;
    }
  }

  lemma {:induction false} RunKeeps(s: Server, steps: seq<Step>)
    requires Inv(s)
    ensures Inv(Run(s, steps))
  {
    if steps != [] {
      RunKeeps(s, steps[..|steps| - 1]);
      hide Inv, Next;
      NextKeeps(Run(s, steps[..|steps| - 1]), steps[|steps| - 1]);
    }
  }

  // ---------------------------------------------------------------- what follows

  /** One notice at most; the descriptor is closed only after the table has let go of the connection. */
  lemma {:induction false} CloseHandshake(steps: seq<Step>, id: Conn)
    ensures var s := Run(EMPTY, steps);
            id in s.links ==>
              && s.links[id].notices <= 1
              && (s.links[id].notices == 0 <==> InTable(s, id, s.links[id]))
              && (s.links[id].closed ==> !InTable(s, id, s.links[id]))
  {
    EmptyOk();
    RunKeeps(EMPTY, steps);
    var s := Run(EMPTY, steps);
    hide Run, QueuesOk;
    if id in s.links {
      assert LinkOk(s, id, s.links[id]);
    }
  }

  /** With a kernel that never hands out an open descriptor, accept never meets one still in the table. */
  lemma AcceptMeetsNoOldEntry(steps: seq<Step>, fd: Fd, id: Conn)
    ensures Enabled(Run(EMPTY, steps), Accept(fd, id)) ==> fd !in Run(EMPTY, steps).table
  {
    EmptyOk();
    RunKeeps(EMPTY, steps);
    var s := Run(EMPTY, steps);
    hide Run, QueuesOk;
    if fd in s.table {
      TableDescriptorsAreOpen(s, fd);
    }
  }

  /**
   No frame of a connection is handled after its close notice, unless a reply written in the
   middle of decoding failed and the decoding went on.
   */
  lemma NoFrameAfterNotice(steps: seq<Step>, id: Conn)
    ensures var s := Run(EMPTY, steps); id in s.links && !s.links[id].torn ==> s.links[id].late == 0
  {
    EmptyOk();
    RunKeeps(EMPTY, steps);
    var s := Run(EMPTY, steps);
    hide Run, TableOk;
    if id in s.links {
      assert QueueOk(s.base, id, s.links[id]);
    }
  }

  /** And that exception is real. */
  lemma TornConnectionCanBeLate() returns (steps: seq<Step>)
    ensures var s := Run(EMPTY, steps); 7 in s.links && s.links[7].late == 1
  {
    hide Run, Next;
    RunNothing(EMPTY);
    steps := [];
    RunSnoc(EMPTY, steps, Accept(3, 7));
    steps := steps + [Accept(3, 7)];
    RunSnoc(EMPTY, steps, Establish(7, true));
    steps := steps + [Establish(7, true)];
    RunSnoc(EMPTY, steps, BeginDecode(7));
    steps := steps + [BeginDecode(7)];
    RunSnoc(EMPTY, steps, ReplyFails(7));
    steps := steps + [ReplyFails(7)];
    TornMidDecode();
    RunSnoc(EMPTY, steps, PostFrame(7));
    steps := steps + [PostFrame(7)];
    RunSnoc(EMPTY, steps, RunBase);
    steps := steps + [RunBase];
    RunSnoc(EMPTY, steps, RunBase);
    steps := steps + [RunBase];
    LateFrame(TORN);
  }

  /** A connection whose reply failed in the middle of decoding: still in the table, its removal queued. */
  const TORN: Server := Server({3}, map[3 := 7], map[7 := Link(3, Disconnecting, true, true, 0, 0, 0, false)], [Remove(7)])

  lemma TornMidDecode()
    ensures Next(Next(Next(Next(EMPTY, Accept(3, 7)), Establish(7, true)), BeginDecode(7)), ReplyFails(7)) == TORN
  {
    var s1 := Next(EMPTY, Accept(3, 7));
    assert s1 == Server({3}, map[3 := 7], map[7 := Link(3, Connecting, false, false, 0, 0, 0, false)], []);
    var s2 := Next(s1, Establish(7, true));
    assert s2 == Server({3}, map[3 := 7], map[7 := Link(3, Connected, false, false, 0, 0, 0, false)], []);
    var s3 := Next(s2, BeginDecode(7));
    assert s3 == Server({3}, map[3 := 7], map[7 := Link(3, Connected, true, false, 0, 0, 0, false)], []);
    var s4 := Next(s3, ReplyFails(7));
    assert s4.links == TORN.links && s4.base == TORN.base;
  }

  lemma LateFrame(s: Server)
    requires s == TORN
    ensures var t := Next(Next(Next(s, PostFrame(7)), RunBase), RunBase); 7 in t.links && t.links[7].late == 1
  {
    var s1 := Next(s, PostFrame(7));
    assert s1.base == [Remove(7), Frame(7)];
    var s2 := Next(s1, RunBase);
    assert s2.base == [Frame(7)] && s2.links[7].notices == 1;
  }

  lemma RunNothing(s: Server)
    ensures Run(s, []) == s
  {
  }

  lemma RunSnoc(s: Server, steps: seq<Step>, step: Step)
    ensures Run(s, steps + [step]) == Next(Run(s, steps), step)
  {
    assert (steps + [step])[..|steps|] == steps;
  }
}
