/**
 The write side of a connection. Any number of threads reserve bytes on one atomic counter and
 queue what they want sent; the I/O loop runs the queued sends, writes as much as the socket
 takes and releases what it wrote. Every load, every compare-and-exchange, every system call is
 one step, and the threads take steps in any order.
 */
module ConnectionDebt {
  import opened Common

  const WRITE_HARD_LIMIT := 1024 * 1024

  /** A thread inside `send`; `since` is when its call began. */
  datatype Sender =
    | Outside
    | Loading(data: Bytes, since: nat)
    | Exchanging(data: Bytes, since: nat, cur: nat)
    | Reserved(data: Bytes)

  datatype Phase = Connecting | Connected | Disconnecting | Disconnected

  /** What the loop does once a release is through. */
  datatype After = GoOn | WriteOn | Destroyed

  datatype Loop =
    | Resting
    | Draining
    | Releasing(n: nat, after: After)
    | ExchangingDown(n: nat, cur: nat, after: After)
    | OverRelease

  datatype Connection = Connection(
    debt: nat, senders: seq<Sender>, queue: seq<Bytes>, loop: Loop, phase: Phase,
    buffer: Bytes, output: Bytes, ran: seq<Bytes>, debts: seq<nat>)

  function NewConnection(threads: nat): Connection {
    Connection(0, seq(threads, _ => Outside), [], Resting, Connecting, [], [], [], [0])
  }

  datatype Step =
    // thread i
    | BeginSend(i: nat, data: Bytes) | LoadDebt(i: nat) | Exchange(i: nat, spurious: bool) | Enqueue(i: nat)
    // the loop
    | Establish | RunTask | RunInline(i: nat) | WriteEvent | WriteSome(n: nat) | StopWriting | WriteFails
    | CloseNow | Destroy | LoadDown | ExchangeDown(spurious: bool)

  // ---------------------------------------------------------------- the steps

  predicate HasRoom(cur: nat, len: nat) {
    cur <= WRITE_HARD_LIMIT && len <= WRITE_HARD_LIMIT - cur
  }

  function SetSender(c: Connection, i: nat, s: Sender): Connection
    requires i < |c.senders|
  {
    c.(senders := c.senders[i := s])
  }

  /** One turn of the reserving loop: give up, succeed, or look again. */
  function Exchanged(c: Connection, i: nat, spurious: bool): Connection
    requires i < |c.senders| && c.senders[i].Exchanging?
  {
    var Exchanging(data, since, cur) := c.senders[i];
    if !HasRoom(cur, |data|) then SetSender(c, i, Outside)
    else if cur == c.debt && !spurious then SetSender(c, i, Reserved(data)).(debt := cur + |data|)
    else SetSender(c, i, Exchanging(data, since, c.debt))
  }

  /** One turn of the releasing loop. */
  function ExchangedDown(c: Connection, spurious: bool): Connection
    requires c.loop.ExchangingDown?
  {
    var ExchangingDown(n, cur, after) := c.loop;
    if n > cur then c.(loop := OverRelease)
    else if cur == c.debt && !spurious then
      match after
      case GoOn => c.(debt := cur - n, loop := Resting)
      case WriteOn => c.(debt := cur - n, loop := Draining)
      case Destroyed => c.(debt := cur - n, loop := Resting, phase := Disconnected)
    else c.(loop := ExchangingDown(n, c.debt, after))
  }

  /** `send_in_loop`. */
  function Ran(c: Connection, data: Bytes): Connection {
    if c.phase != Connected then c.(loop := Releasing(|data|, GoOn))
    else c.(buffer := c.buffer + data, ran := c.ran + [data], loop := Draining)
  }

  /** `handle_close`: at most once, and what is still buffered is given up. */
  function Closed(c: Connection): Connection {
    if c.phase.Disconnecting? || c.phase.Disconnected? then c.(loop := Resting)
    else if c.buffer == [] then c.(loop := Resting, phase := Disconnecting)
    else c.(loop := Releasing(|c.buffer|, GoOn), buffer := [], phase := Disconnecting)
  }

  function DestroyedNow(c: Connection): Connection {
    if c.phase.Disconnected? then c
    else if c.buffer == [] then c.(phase := Disconnected)
    else c.(loop := Releasing(|c.buffer|, Destroyed), buffer := [])
  }

  predicate Enabled(c: Connection, step: Step) {
    match step
    case BeginSend(i, data) => i < |c.senders| && c.senders[i].Outside? && data != []
    case LoadDebt(i) => i < |c.senders| && c.senders[i].Loading?
    case Exchange(i, _) => i < |c.senders| && c.senders[i].Exchanging?
    case Enqueue(i) => i < |c.senders| && c.senders[i].Reserved?
    case Establish => c.loop.Resting? && c.phase.Connecting?
    case RunTask => c.loop.Resting? && c.queue != []
    case RunInline(i) => c.loop.Resting? && i < |c.senders| && c.senders[i].Reserved?
    case WriteEvent => c.loop.Resting? && c.phase.Connected?
    case WriteSome(n) => c.loop.Draining? && 0 < n <= |c.buffer|
    case StopWriting => c.loop.Draining?
    case WriteFails => c.loop.Draining? && c.buffer != []
    case CloseNow => c.loop.Resting?
    case Destroy => c.loop.Resting?
    case LoadDown => c.loop.Releasing?
    case ExchangeDown(_) => c.loop.ExchangingDown?
  }

  function Moved(c: Connection, step: Step): Connection
    requires Enabled(c, step)
  {
    match step
    case BeginSend(i, data) => SetSender(c, i, Loading(data, |c.debts|))
    case LoadDebt(i) => SetSender(c, i, Exchanging(c.senders[i].data, c.senders[i].since, c.debt))
    case Exchange(i, spurious) => Exchanged(c, i, spurious)
    case Enqueue(i) => SetSender(c, i, Outside).(queue := c.queue + [c.senders[i].data])
    case Establish => c.(phase := Connected)
    case RunTask => Ran(c, c.queue[0]).(queue := c.queue[1..])
    case RunInline(i) => SetSender(Ran(c, c.senders[i].data), i, Outside)
    case WriteEvent => c.(loop := Draining)
    case WriteSome(n) => c.(output := c.output + c.buffer[..n], buffer := c.buffer[n..], loop := Releasing(n, WriteOn))
    case StopWriting => c.(loop := Resting)
    case WriteFails => Closed(c)
    case CloseNow => Closed(c)
    case Destroy => DestroyedNow(c)
    case LoadDown => c.(loop := ExchangingDown(c.loop.n, c.debt, c.loop.after))
    case ExchangeDown(spurious) => ExchangedDown(c, spurious)
  }

  /** `debts` records the counter after every step. */
  function Next(c: Connection, step: Step): Connection {
    if !Enabled(c, step) then c else var d := Moved(c, step); d.(debts := d.debts + [d.debt])
  }

  function Run(c: Connection, steps: seq<Step>): Connection {
    if steps == [] then c else Next(Run(c, steps[..|steps| - 1]), steps[|steps| - 1])
  }

  // ---------------------------------------------------------------- the ledger

  function Held(s: Sender): nat {
    if s.Reserved? then |s.data| else 0
  }

  function AllHeld(senders: seq<Sender>): nat {
    if senders == [] then 0 else AllHeld(senders[..|senders| - 1]) + Held(senders[|senders| - 1])
  }

  function Queued(queue: seq<Bytes>): nat {
    if queue == [] then 0 else |queue[0]| + Queued(queue[1..])
  }

  function BeingReleased(l: Loop): nat {
    match l
    case Releasing(n, _) => n
    case ExchangingDown(n, _, _) => n
    case _ => 0
  }

  /** The counter is exactly what is buffered, queued, reserved, and taken out but not yet released. */
  predicate LedgerOk(c: Connection) {
    c.debt == |c.buffer| + Queued(c.queue) + AllHeld(c.senders) + BeingReleased(c.loop)
  }

  /** Only the loop ever lowers the counter, so a value it has loaded is still covered. */
  predicate ReleaseOk(c: Connection) {
    && !c.loop.OverRelease?
    && (c.loop.ExchangingDown? ==> c.loop.n <= c.loop.cur <= c.debt)
  }

  /** A value a thread has loaded was the counter at some moment since its call began. */
  ghost predicate SendersOk(c: Connection) {
    forall i :: 0 <= i < |c.senders| ==> SenderOk(c.senders[i], c.debts)
  }

  ghost predicate SenderOk(s: Sender, debts: seq<nat>) {
    && (s.Loading? ==> s.since <= |debts|)
    && (s.Exchanging? ==> SeenSince(debts, s.since, s.cur))
    && (!s.Outside? ==> s.data != [])
  }

  ghost predicate SeenSince(debts: seq<nat>, since: nat, cur: nat) {
    exists j :: 0 <= j < |debts| && since <= j + 1 && debts[j] == cur
  }

  // ---------------------------------------------------------------- the output

  function Concat(parts: seq<Bytes>): Bytes {
    if parts == [] then [] else Concat(parts[..|parts| - 1]) + parts[|parts| - 1]
  }

  /** Everything given up: the buffer has been thrown away. */
  predicate GivenUp(c: Connection) {
    c.phase.Disconnecting? || c.phase.Disconnected? ||
    (c.loop.Releasing? && c.loop.after.Destroyed?) || (c.loop.ExchangingDown? && c.loop.after.Destroyed?)
  }

  ghost predicate OutputOk(c: Connection) {
    && c.output <= Concat(c.ran)
    && (if GivenUp(c) then c.buffer == [] else c.output + c.buffer == Concat(c.ran))
    && (c.phase.Connecting? ==> c.buffer == [])
    && (c.loop.Draining? ==> c.phase.Connected?)
    && (c.loop.Releasing? && c.loop.after.WriteOn? ==> c.phase.Connected?)
    && (c.loop.ExchangingDown? && c.loop.after.WriteOn? ==> c.phase.Connected?)
  }

  ghost predicate Inv(c: Connection) {
    && LedgerOk(c) && c.debt <= WRITE_HARD_LIMIT && ReleaseOk(c) && SendersOk(c) && OutputOk(c)
    && c.debts != [] && c.debts[|c.debts| - 1] == c.debt
  }

  lemma NewConnectionOk(threads: nat)
    ensures Inv(NewConnection(threads))
  {
    NobodyHolds(NewConnection(threads).senders);
  }

  lemma {:induction false} NobodyHolds(senders: seq<Sender>)
    requires forall i :: 0 <= i < |senders| ==> !senders[i].Reserved?
    ensures AllHeld(senders) == 0
  {
    if senders != [] {
      NobodyHolds(senders[..|senders| - 1]);
    }
  }

  lemma {:induction false} HeldAfterUpdate(senders: seq<Sender>, i: nat, s: Sender)
    requires i < |senders|
    ensures AllHeld(senders[i := s]) == AllHeld(senders) - Held(senders[i]) + Held(s)
  {
    var last := |senders| - 1;
    if i == last {
      assert senders[i := s][..last] == senders[..last];
    } else {
      HeldAfterUpdate(senders[..last], i, s);
      assert senders[i := s][..last] == senders[..last][i := s];
    }
  }

  lemma {:induction false} QueuedAfterAppend(queue: seq<Bytes>, data: Bytes)
    ensures Queued(queue + [data]) == Queued(queue) + |data|
  {
    if queue == [] {
    } else {
      QueuedAfterAppend(queue[1..], data);
      assert (queue + [data])[1..] == queue[1..] + [data];
    }
  }

  lemma ConcatAfterAppend(parts: seq<Bytes>, data: Bytes)
    ensures Concat(parts + [data]) == Concat(parts) + data
  {
    assert (parts + [data])[..|parts|] == parts;
  }

  /** The step is done by thread `i`. */
  predicate SenderStep(step: Step) {
    step.BeginSend? || step.LoadDebt? || step.Exchange? || step.Enqueue?
  }

  lemma SeenLater(debts: seq<nat>, since: nat, cur: nat, more: nat)
    ensures SeenSince(debts, since, cur) ==> SeenSince(debts + [more], since, cur)
  {
    if SeenSince(debts, since, cur) {
      var j :| 0 <= j < |debts| && since <= j + 1 && debts[j] == cur;
      assert (debts + [more])[j] == cur;
    }
  }

  lemma OthersStillOk(senders: seq<Sender>, debts: seq<nat>, more: nat)
    requires forall i :: 0 <= i < |senders| ==> SenderOk(senders[i], debts)
    ensures forall i :: 0 <= i < |senders| ==> SenderOk(senders[i], debts + [more])
  {
    forall i | 0 <= i < |senders| ensures SenderOk(senders[i], debts + [more]) {
      assert SenderOk(senders[i], debts);
      if senders[i].Exchanging? {
        SeenLater(debts, senders[i].since, senders[i].cur, more);
      }
    }
  }

  lemma SeenNow(debts: seq<nat>, since: nat)
    requires debts != [] && since <= |debts|
    ensures SeenSince(debts, since, debts[|debts| - 1])
  {
  }

  /** A sender touches neither the loop nor what it writes. */
  lemma SenderLeavesLoop(c: Connection, step: Step)
    requires SenderStep(step) && Enabled(c, step)
    ensures var d := Moved(c, step);
            d.loop == c.loop && d.phase == c.phase && d.buffer == c.buffer && d.output == c.output && d.ran == c.ran
  {
  }

  lemma SenderKeepsLedger(c: Connection, step: Step)
    requires Inv(c) && SenderStep(step) && Enabled(c, step)
    ensures LedgerOk(Moved(c, step)) && c.debt <= Moved(c, step).debt <= WRITE_HARD_LIMIT
  {
    SenderDebt(c, step);
    var d := Moved(c, step);
    HeldAfterUpdate(c.senders, step.i, d.senders[step.i]);
    if step.Enqueue? {
      QueuedAfterAppend(c.queue, c.senders[step.i].data);
    }
    SenderLeavesLoop(c, step);
    hide AllHeld, Queued, SendersOk, OutputOk, ReleaseOk, Moved;
  }

  /** The debt moves exactly as what the sender holds, or as the queue takes it over. */
  lemma SenderDebt(c: Connection, step: Step)
    requires SenderStep(step) && Enabled(c, step) && c.debt <= WRITE_HARD_LIMIT
    ensures var d, i := Moved(c, step), step.i;
            && |d.senders| == |c.senders| && d.senders == c.senders[i := d.senders[i]]
            && c.debt <= d.debt <= WRITE_HARD_LIMIT
            && (if step.Enqueue? then d.queue == c.queue + [c.senders[i].data] && d.debt == c.debt
                                      && Held(c.senders[i]) == |c.senders[i].data| && Held(d.senders[i]) == 0
                else d.queue == c.queue && d.debt - c.debt == Held(d.senders[i]) - Held(c.senders[i]))
  {
  }

  lemma SenderKeeps(c: Connection, step: Step)
    requires Inv(c) && SenderStep(step) && Enabled(c, step)
    ensures LedgerOk(Moved(c, step)) && Moved(c, step).debt <= WRITE_HARD_LIMIT
    ensures ReleaseOk(Moved(c, step)) && OutputOk(Moved(c, step))
  {
    SenderKeepsLedger(c, step);
    SenderLeavesLoop(c, step);
    hide LedgerOk, SendersOk, Concat, Moved, Enabled;
  }

  lemma SenderKeepsSeen(c: Connection, step: Step)
    requires Inv(c) && SenderStep(step) && Enabled(c, step)
    ensures SendersOk(Moved(c, step))
  {
    hide LedgerOk, ReleaseOk, OutputOk, SeenSince;
    var s := c.senders[step.i];
    assert SenderOk(s, c.debts);
    if s.Loading? || s.Exchanging? {
      SinceInRange(c.debts, s);
      SeenNow(c.debts, s.since);
    }
  }

  lemma SinceInRange(debts: seq<nat>, s: Sender)
    requires SenderOk(s, debts) && (s.Loading? || s.Exchanging?)
    ensures s.since <= |debts|
  {
  }

  lemma LoopKeeps(c: Connection, step: Step)
    requires Inv(c) && !SenderStep(step) && !step.RunTask? && !step.RunInline? && Enabled(c, step)
    ensures LedgerOk(Moved(c, step)) && Moved(c, step).debt <= WRITE_HARD_LIMIT
    ensures ReleaseOk(Moved(c, step)) && OutputOk(Moved(c, step)) && Moved(c, step).senders == c.senders
  {
    hide AllHeld, Queued, Concat, SendersOk;
    if step.WriteSome? {
      assert c.output + c.buffer[..step.n] + c.buffer[step.n..] == c.output + c.buffer;
    }
  }

  /** `send_in_loop` moves the debt of the data from wherever it was to the buffer, or starts releasing it. */
  lemma RanData(c: Connection, data: Bytes)
    requires Inv(c) && c.loop.Resting?
    ensures var d := Ran(c, data);
            && |d.buffer| + BeingReleased(d.loop) == |c.buffer| + BeingReleased(c.loop) + |data|
            && ReleaseOk(d) && OutputOk(d)
            && d.debt == c.debt && d.queue == c.queue && d.senders == c.senders
  {
    ConcatAfterAppend(c.ran, data);
    assert c.output + (c.buffer + data) == c.output + c.buffer + data;
    hide SendersOk, LedgerOk, Concat;
  }

  lemma RunKeeps(c: Connection, step: Step)
    requires Inv(c) && (step.RunTask? || step.RunInline?) && Enabled(c, step)
    ensures LedgerOk(Moved(c, step)) && Moved(c, step).debt <= WRITE_HARD_LIMIT
    ensures ReleaseOk(Moved(c, step)) && OutputOk(Moved(c, step))
  {
    RanData(c, if step.RunTask? then c.queue[0] else c.senders[step.i].data);
    if step.RunInline? { HeldAfterUpdate(c.senders, step.i, Outside); }
    hide AllHeld, Concat, SendersOk, Ran;
  }

  lemma NextKeeps(c: Connection, step: Step)
    requires Inv(c)
    ensures Inv(Next(c, step))
  {
    if Enabled(c, step) {
      var d := Moved(c, step);
      if SenderStep(step) {
        SenderKeeps(c, step);
        SenderKeepsSeen(c, step);
      } else if step.RunTask? || step.RunInline? {
        RunKeeps(c, step);
      } else {
        LoopKeeps(c, step);
      }
      DebtsStay(c, step);
      hide LedgerOk, ReleaseOk, OutputOk, SenderOk, Moved, Enabled;
      OthersStillOk(d.senders, c.debts, d.debt);
      Recorded(c, d);
    }
  }

  /** Recording the counter concerns the senders alone. */
  lemma Recorded(c: Connection, d: Connection)
    requires LedgerOk(d) && d.debt <= WRITE_HARD_LIMIT && ReleaseOk(d) && OutputOk(d) && d.debts == c.debts
    requires forall i :: 0 <= i < |d.senders| ==> SenderOk(d.senders[i], c.debts + [d.debt])
    ensures Inv(d.(debts := d.debts + [d.debt]))
  {
    hide AllHeld, Queued, Concat, SenderOk;
  }

  lemma DebtsStay(c: Connection, step: Step)
    requires Enabled(c, step)
    ensures Moved(c, step).debts == c.debts
  {
  }

  lemma {:induction false} RunKeepsAll(c: Connection, steps: seq<Step>)
    requires Inv(c)
    ensures Inv(Run(c, steps))
  {
    if steps != [] {
      RunKeepsAll(c, steps[..|steps| - 1]);
      hide Inv, Next;
      NextKeeps(Run(c, steps[..|steps| - 1]), steps[|steps| - 1]);
    }
  }

  // ---------------------------------------------------------------- what follows

  /** Releasing more than is owed cannot happen. */
  lemma OverReleaseIsUnreachable(threads: nat, steps: seq<Step>)
    ensures !Run(NewConnection(threads), steps).loop.OverRelease?
    ensures Run(NewConnection(threads), steps).debt <= WRITE_HARD_LIMIT
  {
    NewConnectionOk(threads);
    RunKeepsAll(NewConnection(threads), steps);
    hide Run, SendersOk, LedgerOk, OutputOk;
  }

  /** A send that is refused had no room at some moment of the call; one that succeeds had room at that very step. */
  lemma RefusalIsHonest(c: Connection, i: nat, spurious: bool)
    requires Inv(c) && Enabled(c, Exchange(i, spurious))
    ensures var s, d := c.senders[i], Next(c, Exchange(i, spurious));
            && (d.senders[i].Outside? ==> exists j :: 0 <= j < |c.debts| && s.since <= j + 1 && !HasRoom(c.debts[j], |s.data|))
            && (d.senders[i].Reserved? ==> HasRoom(c.debt, |s.data|) && d.debt == c.debt + |s.data|)
  {
    hide LedgerOk, ReleaseOk, OutputOk;
    var s := c.senders[i];
    assert SenderOk(s, c.debts);
    if !HasRoom(s.cur, |s.data|) {
      var j :| 0 <= j < |c.debts| && s.since <= j + 1 && c.debts[j] == s.cur;
      assert !HasRoom(c.debts[j], |s.data|);
    }
  }

  /** Once closed, with every task run and nobody inside a send, nothing is owed. */
  lemma NothingOwedAfterClose(c: Connection)
    requires Inv(c) && (c.phase.Disconnecting? || c.phase.Disconnected?) && c.loop.Resting? && c.queue == []
    requires forall i :: 0 <= i < |c.senders| ==> !c.senders[i].Reserved?
    ensures c.debt == 0
  {
    NobodyHolds(c.senders);
    hide SendersOk, Concat;
  }

  /** The socket has been given a prefix of the sends in the order they ran; while open, the rest is buffered. */
  lemma OutputIsAPrefix(threads: nat, steps: seq<Step>)
    ensures var c := Run(NewConnection(threads), steps);
            && c.output <= Concat(c.ran)
            && (!GivenUp(c) ==> c.output + c.buffer == Concat(c.ran))
  {
    NewConnectionOk(threads);
    RunKeepsAll(NewConnection(threads), steps);
    hide Run, SendersOk, LedgerOk, ReleaseOk, Concat;
  }
}
