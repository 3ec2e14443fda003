/**
 The event loop's task queue and its wake-up. Producers push a task under the mutex and then
 write to an eventfd; the loop waits for edge-triggered events, drains the eventfd, swaps the
 queue out and runs the batch. Each push, write, read, wait and swap is one step, and the
 threads take steps in any order.
 */
module EventLoops {
  import opened Common

  /** The largest value an eventfd holds; a write beyond it fails and signals nothing. */
  const COUNTER_MAX := 0xFFFF_FFFF_FFFF_FFFE

  type Task = nat

  /** A thread between its push, or its setting of `quit_`, and the write that follows. */
  datatype Producer = Outside | Pushed | QuitSet

  /** Where the loop is; `reported` while the wake-up event it was handed is still unhandled. */
  datatype Place = Top | Waiting | Handling(reported: bool) | Swapping | Executing | Exited

  datatype Loop = Loop(
    pending: seq<Task>, batch: seq<Task>, executed: seq<Task>, queued: seq<Task>,
    counter: nat, ready: bool, quit: bool, place: Place, producers: seq<Producer>)

  function NewLoop(threads: nat): Loop {
    Loop([], [], [], [], 0, false, false, Top, seq(threads, _ => Outside))
  }

  datatype Step =
    | Push(i: nat, task: Task) | SetQuit(i: nat) | Wakeup(i: nat)
    | SetQuitInside
    | CheckQuit | WaitReturns(wakeup: bool) | Interrupted | WaitFails | ReadCounter | FinishEvents | Swap | Execute

  // ---------------------------------------------------------------- the steps

  predicate Signalled(l: Loop) {
    l.ready && l.counter > 0
  }

  predicate Enabled(l: Loop, step: Step) {
    match step
    case Push(i, _) => i < |l.producers| && l.producers[i].Outside?
    case SetQuit(i) => i < |l.producers| && l.producers[i].Outside?
    case Wakeup(i) => i < |l.producers| && !l.producers[i].Outside?
    case SetQuitInside => l.place.Handling? || l.place.Executing?
    case CheckQuit => l.place.Top?
    case WaitReturns(wakeup) => l.place.Waiting? && (wakeup ==> Signalled(l))
    case Interrupted => l.place.Waiting?
    case WaitFails => l.place.Waiting?
    case ReadCounter => l.place.Handling? && l.place.reported
    case FinishEvents => l.place.Handling? && (l.quit || !l.place.reported)
    case Swap => l.place.Swapping?
    case Execute => l.place.Executing?
  }

  function Next(l: Loop, step: Step): Loop {
    if !Enabled(l, step) then l
    else
      match step
      case Push(i, task) => l.(pending := l.pending + [task], queued := l.queued + [task], producers := l.producers[i := Pushed])
      case SetQuit(i) => l.(quit := true, producers := l.producers[i := QuitSet])
      case Wakeup(i) =>
        if l.counter < COUNTER_MAX then l.(counter := l.counter + 1, ready := true, producers := l.producers[i := Outside])
        else l.(producers := l.producers[i := Outside])
      case SetQuitInside => l.(quit := true)
      case CheckQuit => l.(place := if l.quit then Exited else Waiting)
      // An edge is reported once; a queued edge whose counter is already drained is dropped.
      case WaitReturns(wakeup) => l.(place := Handling(wakeup), ready := if wakeup then false else l.ready)
      case Interrupted => l.(place := Top)
      case WaitFails => l.(place := Exited)
      // Reads go on until the eventfd is empty; a write in between makes one more read.
      case ReadCounter => if l.counter > 0 then l.(counter := 0) else l.(place := Handling(false))
      case FinishEvents => l.(place := Swapping)
      case Swap => l.(batch := l.pending, pending := [], place := Executing)
      case Execute =>
        if l.batch == [] then l.(place := Top)
        else l.(batch := l.batch[1..], executed := l.executed + [l.batch[0]])
  }

  function Run(l: Loop, steps: seq<Step>): Loop {
    if steps == [] then l else Next(Run(l, steps[..|steps| - 1]), steps[|steps| - 1])
  }

  // ---------------------------------------------------------------- what every interleaving keeps

  predicate Between(l: Loop, p: Producer) {
    exists i :: 0 <= i < |l.producers| && l.producers[i] == p
  }

  /** Nothing is lost, duplicated or reordered on the way from the queue through the batch. */
  predicate OrderOk(l: Loop) {
    && l.executed + l.batch + l.pending == l.queued
    && (!l.place.Executing? ==> l.batch == [])
  }

  /** A drained or fresh counter is only ever left unsignalled while its event is being handled, or after quit. */
  predicate EdgeOk(l: Loop) {
    l.counter > 0 && !l.ready ==> (l.place.Handling? && l.place.reported) || l.place.Exited? || (l.quit && !l.place.Waiting?)
  }

  /** Unless the loop is about to swap, a pending task has its wake-up in the counter or on the way. */
  predicate TasksOk(l: Loop) {
    l.pending != [] && (l.place.Top? || l.place.Waiting? || l.place.Executing?) ==> l.counter > 0 || Between(l, Pushed)
  }

  /** A loop that waits although it should quit has its wake-up in the counter or on the way. */
  predicate QuitOk(l: Loop) {
    l.quit && l.place.Waiting? ==> (l.counter > 0 && l.ready) || Between(l, QuitSet)
  }

  predicate Inv(l: Loop) {
    OrderOk(l) && EdgeOk(l) && TasksOk(l) && QuitOk(l) && l.counter <= COUNTER_MAX
  }

  lemma NewLoopOk(threads: nat)
    ensures Inv(NewLoop(threads))
  {
  }

  lemma PushKeeps(l: Loop, i: nat, task: Task)
    requires Inv(l) && Enabled(l, Push(i, task))
    ensures Inv(Next(l, Push(i, task)))
  {
    var m := Next(l, Push(i, task));
    assert m.producers[i] == Pushed;
    assert l.executed + l.batch + (l.pending + [task]) == l.executed + l.batch + l.pending + [task];
    OtherProducersStay(l, m, i, QuitSet);
  }

  /** What one producer does leaves the others where they were. */
  lemma OtherProducersStay(l: Loop, m: Loop, i: nat, p: Producer)
    requires i < |l.producers| == |m.producers| && m.producers == l.producers[i := m.producers[i]]
    requires l.producers[i] != p
    ensures Between(l, p) ==> Between(m, p)
  {
    if Between(l, p) {
      var j :| 0 <= j < |l.producers| && l.producers[j] == p;
      assert m.producers[j] == p;
    }
  }

  lemma SetQuitKeeps(l: Loop, i: nat)
    requires Inv(l) && Enabled(l, SetQuit(i))
    ensures Inv(Next(l, SetQuit(i)))
  {
    var m := Next(l, SetQuit(i));
    assert m.producers[i] == QuitSet;
    OtherProducersStay(l, m, i, Pushed);
  }

  lemma WakeupKeeps(l: Loop, i: nat)
    requires Inv(l) && Enabled(l, Wakeup(i))
    ensures Inv(Next(l, Wakeup(i)))
  {
    var m := Next(l, Wakeup(i));
    assert m.counter > 0;
    hide Between;
  }

  lemma ExecuteKeeps(l: Loop)
    requires Inv(l) && Enabled(l, Execute)
    ensures Inv(Next(l, Execute))
  {
    if l.batch != [] {
      assert l.executed + l.batch == (l.executed + [l.batch[0]]) + l.batch[1..];
    }
    hide Between;
  }

  lemma SwapKeeps(l: Loop)
    requires Inv(l) && Enabled(l, Swap)
    ensures Inv(Next(l, Swap))
  {
    assert l.executed + [] + l.pending == l.executed + l.pending + [];
    hide Between;
  }

  lemma OthersKeep(l: Loop, step: Step)
    requires Inv(l)
    requires step.SetQuitInside? || step.CheckQuit? || step.WaitReturns? || step.Interrupted? || step.WaitFails?
          || step.ReadCounter? || step.FinishEvents?
    ensures Inv(Next(l, step))
  {
  }

  lemma NextKeeps(l: Loop, step: Step)
    requires Inv(l)
    ensures Inv(Next(l, step))
  {
    if Enabled(l, step) {
      hide Inv, Next;
      match step
      case Push(i, task) => PushKeeps(l, i, task);
      case SetQuit(i) => SetQuitKeeps(l, i);
      case Wakeup(i) => WakeupKeeps(l, i);
      case Execute => ExecuteKeeps(l);
      case Swap => SwapKeeps(l);
      case _ => OthersKeep(l, step);
    }
  }

  lemma {:induction false} RunKeeps(l: Loop, steps: seq<Step>)
    requires Inv(l)
    ensures Inv(Run(l, steps))
  {
    if steps != [] {
      RunKeeps(l, steps[..|steps| - 1]);
      hide Inv, Next;
      NextKeeps(Run(l, steps[..|steps| - 1]), steps[|steps| - 1]);
    }
  }

  // ---------------------------------------------------------------- what follows

  /** No lost wake-up: a loop that waits with work to do, and nobody about to wake it, is woken. */
  lemma NoLostWakeup(threads: nat, steps: seq<Step>)
    ensures var l := Run(NewLoop(threads), steps);
            l.place.Waiting? && (l.pending != [] || l.quit) && !Between(l, Pushed) && !Between(l, QuitSet) ==>
              Enabled(l, WaitReturns(true))
  {
    NewLoopOk(threads);
    RunKeeps(NewLoop(threads), steps);
    hide Run, Between;
  }

  /** Tasks run at most once and in the order they were queued. */
  lemma TasksRunInOrder(threads: nat, steps: seq<Step>)
    ensures var l := Run(NewLoop(threads), steps);
            && l.executed <= l.queued
            && l.queued[|l.executed|..] == l.batch + l.pending
  {
    NewLoopOk(threads);
    RunKeeps(NewLoop(threads), steps);
    var l := Run(NewLoop(threads), steps);
    assert l.executed + l.batch + l.pending == l.queued by { hide Run, TasksOk, QuitOk, EdgeOk; }
    hide *;
    Split(l.executed, l.batch, l.pending);
  }

  lemma Split(a: seq<Task>, b: seq<Task>, c: seq<Task>)
    ensures a <= a + b + c && (a + b + c)[|a|..] == b + c
  {
  }

  /** The loop's own steps once a wake-up is reported, if no new write comes in between: two reads, then the swap. */
  function Served(l: Loop): Loop {
    Next(Next(Next(Next(Next(l, WaitReturns(true)), ReadCounter), ReadCounter), FinishEvents), Swap)
  }

  /** And being woken, it takes exactly what was pending. */
  lemma WokenLoopTakesThePending(l: Loop)
    requires Inv(l) && Enabled(l, WaitReturns(true))
    ensures Served(l).place.Executing? && Served(l).batch == l.pending && Served(l).pending == []
  {
  }

  /** Until the next swap the queue only grows at its end, whoever steps in between. */
  lemma {:induction false} PendingOnlyGrows(l: Loop, steps: seq<Step>)
    requires Swap !in steps
    ensures l.pending <= Run(l, steps).pending
  {
    if steps != [] {
      PendingOnlyGrows(l, steps[..|steps| - 1]);
    }
  }

  /** Whatever happens between the wake-up and the next swap, that swap takes everything that was pending, in order. */
  lemma NextSwapTakesThePending(l: Loop, steps: seq<Step>)
    requires Enabled(l, WaitReturns(true)) && Swap !in steps
    ensures var m := Run(Next(l, WaitReturns(true)), steps);
            Enabled(m, Swap) ==> l.pending <= Next(m, Swap).batch && Next(m, Swap).pending == []
  {
    PendingOnlyGrows(Next(l, WaitReturns(true)), steps);
    hide Run;
  }
}
