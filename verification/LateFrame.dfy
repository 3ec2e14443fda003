/**
 Frames handled after the close notice of their connection: exactly those that were posted once
 the connection had stopped being alive.
 */
module LateFrames {
  import opened Common
  import opened TcpServers

  /** The step posts a frame of `id`, which is no longer alive. */
  predicate PostsAfterClose(s: Server, step: Step, id: Conn) {
    step == PostFrame(id) && Enabled(s, step) && !Alive(s.links[id])
  }

  /** How many frames of `id` a run has posted after the connection stopped being alive. */
  function PostedAfterClose(steps: seq<Step>, id: Conn): nat {
    if steps == [] then 0
    else
      var front := steps[..|steps| - 1];
      PostedAfterClose(front, id) + if PostsAfterClose(Run(EMPTY, front), steps[|steps| - 1], id) then 1 else 0
  }

  /** The frames of `id` in the queue that will be handled after its notice. */
  function Behind(base: seq<BaseTask>, id: Conn, noticed: bool): nat {
    if base == [] then 0
    else
      match base[0]
      case Frame(i) => (if i == id && noticed then 1 else 0) + Behind(base[1..], id, noticed)
      case Remove(i) => Behind(base[1..], id, noticed || i == id)
  }

  lemma {:induction false} BehindMore(base: seq<BaseTask>, task: BaseTask, id: Conn, noticed: bool)
    ensures Behind(base + [task], id, noticed)
         == Behind(base, id, noticed) + if task == Frame(id) && (noticed || Remove(id) in base) then 1 else 0
  {
    if base == [] {
      assert base + [task] == [task] && [task][1..] == [];
    } else {
      assert (base + [task])[1..] == base[1..] + [task];
      assert Remove(id) in base <==> base[0] == Remove(id) || Remove(id) in base[1..];
      BehindMore(base[1..], task, id, noticed || base[0] == Remove(id));
    }
  }

  lemma {:induction false} NothingBehind(base: seq<BaseTask>, id: Conn, noticed: bool)
    requires Frame(id) !in base
    ensures Behind(base, id, noticed) == 0
  {
    if base != [] {
      NothingBehind(base[1..], id, noticed || base[0] == Remove(id));
    }
  }

  /** What the business layer has seen late, and what it is going to see late. */
  function Late(s: Server, id: Conn): nat {
    if id in s.links then s.links[id].late + Behind(s.base, id, s.links[id].notices > 0) else 0
  }

  /** A connection that is no longer alive has its removal queued, or has been removed. */
  ghost predicate Announced(s: Server) {
    forall id :: id in s.links && !Alive(s.links[id]) ==> Remove(id) in s.base || s.links[id].notices > 0
  }

  lemma AnnouncedByLink(s: Server, step: Step)
    requires Announced(s) && Enabled(s, step) && !step.Accept? && !step.RunBase?
    requires step.RunDestroy? ==> s.links[step.id].notices > 0
    ensures Announced(Next(s, step))
  {
    var t := Next(s, step);
    forall id | id in t.links && !Alive(t.links[id]) ensures Remove(id) in t.base || t.links[id].notices > 0 {
      assert forall task :: task in s.base ==> task in t.base;
      if !step.RunDestroy? && id == step.id && Alive(s.links[id]) {
        assert t.base[|s.base|] == Remove(id);
      }
    }
  }

  lemma AnnouncedByBase(s: Server)
    requires Announced(s) && TableOk(s) && s.base != []
    ensures Announced(Next(s, RunBase))
  {
    var t := RanBase(s);
    forall id | id in t.links && !Alive(t.links[id]) ensures Remove(id) in t.base || t.links[id].notices > 0 {
      assert LinkOk(s, id, s.links[id]);
      assert Remove(id) in s.base ==> s.base[0] == Remove(id) || Remove(id) in t.base;
    }
  }

  lemma AnnouncedKeeps(s: Server, step: Step)
    requires Inv(s) && Announced(s)
    ensures Announced(Next(s, step))
  {
    hide Announced;
    if !Enabled(s, step) {
      assert Next(s, step) == s;
    } else if step.RunBase? {
      AnnouncedByBase(s);
    } else if step.Accept? {
      AnnouncedByAccept(s, step.fd, step.id);
    } else {
      if step.RunDestroy? {
        assert LinkOk(s, step.id, s.links[step.id]);
      }
      AnnouncedByLink(s, step);
    }
  }

  lemma AnnouncedByAccept(s: Server, fd: Fd, id: Conn)
    requires Announced(s) && Enabled(s, Accept(fd, id))
    ensures Announced(Next(s, Accept(fd, id)))
  {
  }

  // ---------------------------------------------------------------- one step

  lemma AcceptIsNotLate(s: Server, fd: Fd, newcomer: Conn, id: Conn)
    requires Inv(s) && Enabled(s, Accept(fd, newcomer))
    ensures Late(Next(s, Accept(fd, newcomer)), id) == Late(s, id)
  {
    if id == newcomer {
      assert forall i :: 0 <= i < |s.base| ==> s.base[i].id in s.links;
      NothingBehind(s.base, id, false);
    }
    hide Behind, TableOk, QueuesOk;
  }

  lemma BaseIsNotLate(s: Server, id: Conn)
    requires TableOk(s) && s.base != []
    ensures Late(Next(s, RunBase), id) == Late(s, id)
  {
    if id in s.links {
      assert LinkOk(s, id, s.links[id]);
    }
    hide TableOk;
  }

  /** What an I/O step does to the queue, and to what has been handled. */
  lemma LinkStepTasks(s: Server, step: Step, id: Conn)
    requires Enabled(s, step) && !step.Accept? && !step.RunBase? && id in s.links
    ensures var t := Next(s, step);
            && id in t.links && t.links[id].late == s.links[id].late && t.links[id].notices == s.links[id].notices
            && (if step.PostFrame? then t.base == s.base + [Frame(step.id)]
                else t.base == s.base || t.base == s.base + [Remove(step.id)])
  {
  }

  lemma LinkStepIsLate(s: Server, step: Step, id: Conn)
    requires Inv(s) && Announced(s) && Enabled(s, step) && !step.Accept? && !step.RunBase? && id in s.links
    ensures Late(Next(s, step), id) == Late(s, id) + if PostsAfterClose(s, step, id) then 1 else 0
  {
    LinkStepTasks(s, step, id);
    assert QueueOk(s.base, id, s.links[id]);
    BehindMore(s.base, Frame(step.id), id, s.links[id].notices > 0);
    BehindMore(s.base, Remove(step.id), id, s.links[id].notices > 0);
    hide Next, Behind, TableOk, QueuesOk, FramesFirst;
  }

  /** Each step adds to what is late exactly when it posts a frame of a connection that is not alive. */
  lemma StepIsLate(s: Server, step: Step, id: Conn)
    requires Inv(s) && Announced(s)
    ensures Late(Next(s, step), id) == Late(s, id) + if PostsAfterClose(s, step, id) then 1 else 0
  {
    if !Enabled(s, step) {
      assert Next(s, step) == s;
    } else if step.RunBase? {
      BaseIsNotLate(s, id);
    } else if step.Accept? {
      AcceptIsNotLate(s, step.fd, step.id, id);
    } else if id in s.links {
      LinkStepIsLate(s, step, id);
    } else {
      OthersStayAway(s, step, id);
    }
    hide Inv, Announced, Late, Next;
  }

  lemma OthersStayAway(s: Server, step: Step, id: Conn)
    requires Enabled(s, step) && !step.Accept? && !step.RunBase? && id !in s.links
    ensures id !in Next(s, step).links
  {
  }

  // ---------------------------------------------------------------- whole runs

  /** In every state: what was handled late and what will be are what was posted after the close. */
  lemma {:induction false} LateIsPostedAfterClose(steps: seq<Step>, id: Conn)
    ensures Inv(Run(EMPTY, steps)) && Announced(Run(EMPTY, steps))
    ensures Late(Run(EMPTY, steps), id) == PostedAfterClose(steps, id)
  {
    if steps == [] {
      EmptyOk();
    } else {
      var front := steps[..|steps| - 1];
      LateIsPostedAfterClose(front, id);
      NextKeeps(Run(EMPTY, front), steps[|steps| - 1]);
      AnnouncedKeeps(Run(EMPTY, front), steps[|steps| - 1]);
      StepIsLate(Run(EMPTY, front), steps[|steps| - 1], id);
      hide Inv, Announced, Late, Next, PostsAfterClose;
    }
  }

  /** Only a connection whose reply failed in the middle of decoding can post such a frame. */
  lemma {:induction false} OnlyTornPostAfterClose(steps: seq<Step>, id: Conn)
    ensures PostedAfterClose(steps, id) > 0 ==> id in Run(EMPTY, steps).links && Run(EMPTY, steps).links[id].torn
  {
    if steps != [] {
      var front := steps[..|steps| - 1];
      var s := Run(EMPTY, front);
      OnlyTornPostAfterClose(front, id);
      EmptyOk();
      RunKeeps(EMPTY, front);
      hide Run;
      if PostsAfterClose(s, steps[|steps| - 1], id) {
        assert QueueOk(s.base, id, s.links[id]);
      }
      if PostedAfterClose(steps, id) > 0 {
        TornStays(s, steps[|steps| - 1], id);
      }
      hide Inv, Next;
    }
  }

  lemma TornStays(s: Server, step: Step, id: Conn)
    requires id in s.links && s.links[id].torn
    ensures id in Next(s, step).links && Next(s, step).links[id].torn
  {
  }

  /** The base loop works off its queue. */
  function Drain(n: nat): seq<Step> {
    seq(n, _ => RunBase)
  }

  lemma {:induction false} Drained(steps: seq<Step>, id: Conn, n: nat)
    requires n <= |Run(EMPTY, steps).base|
    ensures |Run(EMPTY, steps + Drain(n)).base| == |Run(EMPTY, steps).base| - n
    ensures PostedAfterClose(steps + Drain(n), id) == PostedAfterClose(steps, id)
    ensures id in Run(EMPTY, steps).links ==> id in Run(EMPTY, steps + Drain(n)).links
  {
    if n == 0 {
      assert steps + Drain(0) == steps;
    } else {
      Drained(steps, id, n - 1);
      var front := steps + Drain(n - 1);
      assert steps + Drain(n) == front + [RunBase];
      assert (front + [RunBase])[..|front|] == front;
      OneTaskLess(Run(EMPTY, front), id);
      hide Next;
    }
  }

  lemma OneTaskLess(s: Server, id: Conn)
    requires s.base != []
    ensures |Next(s, RunBase).base| == |s.base| - 1
    ensures id in s.links ==> id in Next(s, RunBase).links
  {
  }

  /**
   Whatever has happened: once the base loop has worked off its queue, the frames of a connection
   handled after its close notice are exactly those posted after the connection had stopped being
   alive, and only a connection torn in the middle of decoding has any.
   */
  lemma LateIffPostedAfterClose(steps: seq<Step>, id: Conn)
    requires id in Run(EMPTY, steps).links
    ensures var s, d := Run(EMPTY, steps), Run(EMPTY, steps + Drain(|Run(EMPTY, steps).base|));
            && d.base == [] && id in d.links && d.links[id].late == PostedAfterClose(steps, id)
            && (d.links[id].late > 0 <==> PostedAfterClose(steps, id) > 0)
            && (d.links[id].late > 0 ==> s.links[id].torn)
  {
    var n := |Run(EMPTY, steps).base|;
    Drained(steps, id, n);
    LateIsPostedAfterClose(steps + Drain(n), id);
    OnlyTornPostAfterClose(steps, id);
    hide Run, PostedAfterClose, Inv, Announced;
  }
}
