/**
 The persistence service: it numbers the checkpoints, feeds the store and stops it. It runs on
 the base thread, which is the store's controller; the writer runs beside it. The checkpoint
 file belongs to the store: nobody else changes it.
 */
module PersistenceServices {
  import opened Common
  import opened Checkpoint
  import opened CheckpointFormat
  import opened CheckpointStores
  import opened CheckpointFiles
  import opened ServiceModel
  import ServiceProofs
  import ServiceGuarantees
  import opened ServiceCheckpoint

  const MAX_GENERATION: u64 := 0xFFFF_FFFF_FFFF_FFFF

  /** How far a stop has come; `clean` while nothing has gone wrong. */
  datatype Phase = Resting | ToFlush(clean: bool) | Flushing(clean: bool) | ToStop(clean: bool) | Joined(clean: bool)

  datatype Persistence = Persistence(
    store: Store, service: Service, next: u64, loaded: bool, started: bool, phase: Phase, answer: Option<bool>)

  function NewPersistence(original: Option<Bytes>, temporary: Option<Bytes>, service: Service): Persistence {
    Persistence(NewStore(original, temporary), service, 1, false, false, Resting, None)
  }

  datatype Move =
    | Serve(event: Event)
    | LoadFile(readable: bool, deadline: int)
    | StartAll(timerStarted: bool)
    | SaveNow
    | StopAll(timerStopped: bool)
    | Continue
    | Background(step: Step)

  predicate AtRest(p: Persistence) {
    p.phase.Resting? && p.store.controller.Free?
  }

  /** Service events while at rest; tokens are well formed and checkpoints come in through `LoadFile` only. */
  predicate Served(p: Persistence, e: Event) {
    AtRest(p) && !e.Loaded? && (e.JoinFrame? && e.token.Some? ==> ValidToken(e.token.value))
  }

  ghost function StoreMoves(p: Persistence, step: Step): Persistence {
    p.(store := CheckpointStores.Next(p.store, step))
  }

  ghost function AfterLoad(p: Persistence, readable: bool, deadline: int): Persistence {
    if p.loaded || p.started || !Stopped(p.store) then p
    else if p.store.path.None? then p.(next := 1, loaded := true)
    else if !readable || Decoding(p.store.path.value).Err? then p
    else
      var c := Decoding(p.store.path.value).value;
      var q := StoreMoves(p, Load(true));
      if c.generation == MAX_GENERATION then q
      else
        var (restored, service) := RestoreOutcome(p.service, c, deadline);
        if restored then q.(service := service, next := c.generation + 1, loaded := true)
        else q.(service := service)
  }

  datatype LoadVerdict = NotFound | InvalidState | IoError | DecodeError | Restored | RestoreError

  /** What a load reports. */
  ghost function LoadResult(p: Persistence, readable: bool, deadline: int): LoadVerdict {
    if p.loaded || p.started || !Stopped(p.store) then InvalidState
    else if p.store.path.None? then NotFound
    else if !readable then IoError
    else if Decoding(p.store.path.value).Err? then DecodeError
    else if Decoding(p.store.path.value).value.generation == MAX_GENERATION then InvalidState
    else if RestoreOutcome(p.service, Decoding(p.store.path.value).value, deadline).0 then Restored
    else RestoreError
  }

  ghost function AfterStart(p: Persistence, timerStarted: bool): Persistence {
    if !p.loaded || p.started || p.store.started || p.store.stopping || !Idle(p.store) then p
    else if timerStarted then StoreMoves(p, StartWriter).(started := true)
    else StoreMoves(p, StartWriter).(phase := ToStop(false))
  }

  predicate CanSave(p: Persistence) {
    p.loaded && p.started && p.next != MAX_GENERATION
  }

  /** The current state, under the next number, goes to the store. */
  ghost function AfterSave(p: Persistence): Persistence {
    if !Saves(p) then p
    else StoreMoves(p, Submit(CheckpointOf(p.service, p.next))).(next := p.next + 1)
  }

  ghost predicate Saves(p: Persistence) {
    CanSave(p) && Submittable(p.store, CheckpointOf(p.service, p.next))
  }

  ghost function AfterStopAll(p: Persistence, timerStopped: bool): Persistence {
    if !p.started then p else AfterSave(p).(phase := ToFlush(timerStopped && Saves(p)))
  }

  /** The controller goes on with what it is doing, if nothing blocks it. */
  ghost function Continued(p: Persistence): Persistence {
    match p.store.controller
    case AfterSubmit => StoreMoves(p, NotifyTask)
    case AfterStop => StoreMoves(p, NotifyTask)
    case FlushParked => p
    case FlushReady =>
      if !p.phase.Flushing? then p
      else if Idle(p.store) then StoreMoves(p, FlushCheck).(phase := ToStop(p.phase.clean && AllCommitted(p.store)))
      else StoreMoves(p, FlushCheck)
    case Joining =>
      if !p.phase.Joined? || !p.store.writer.Exited? then p
      else StoreMoves(p, StopEnd).(started := false, phase := Resting, answer := Some(p.phase.clean && AllCommitted(p.store)))
    case Free =>
      match p.phase
      case ToFlush(clean) => StoreMoves(p, FlushBegin).(phase := Flushing(clean))
      case ToStop(clean) => if p.store.started then StoreMoves(p, StopBegin).(phase := Joined(clean)) else p
      case _ => p
  }

  ghost function NextState(p: Persistence, move: Move): Persistence {
    match move
    case Serve(e) => if Served(p, e) then p.(service := ServiceAfter(p.service, e)) else p
    case LoadFile(readable, deadline) => if AtRest(p) then AfterLoad(p, readable, deadline) else p
    case StartAll(timerStarted) => if AtRest(p) then AfterStart(p, timerStarted) else p
    case SaveNow => if AtRest(p) then AfterSave(p) else p
    case StopAll(timerStopped) => if AtRest(p) then AfterStopAll(p, timerStopped) else p
    case Continue => Continued(p)
    case Background(step) => if WriterStep(step) || step.SpuriousWake? then StoreMoves(p, step) else p
  }

  ghost function RunAll(p: Persistence, moves: seq<Move>): Persistence {
    if moves == [] then p else NextState(RunAll(p, moves[..|moves| - 1]), moves[|moves| - 1])
  }

  // ---------------------------------------------------------------- what every run keeps

  /** Once loaded, the next number is above everything submitted, and the greatest number is out of reach. */
  ghost predicate NumbersOk(p: Persistence) {
    && (p.loaded ==> p.store.lastSubmitted < p.next)
    && (!p.loaded ==> !p.store.started && (p.store.lastSubmitted != 0 ==> p.store.path.Some?))
  }

  /** A clean stop has put the current state into the store's hands. */
  ghost predicate SavedNow(p: Persistence) {
    p.store.submitted != [] &&
    var newest := p.store.submitted[|p.store.submitted| - 1];
    newest == CheckpointOf(p.service, newest.generation)
  }

  ghost predicate PhaseOk(p: Persistence) {
    && (match p.phase
        case Resting => p.store.controller.Free? || p.store.controller.AfterSubmit?
        case ToFlush(_) => p.store.controller.Free? || p.store.controller.AfterSubmit?
        case Flushing(_) => p.store.controller.FlushReady? || p.store.controller.FlushParked?
        case ToStop(_) => p.store.controller.Free?
        case Joined(_) => p.store.controller.AfterStop? || p.store.controller.Joining?)
    && (p.started ==> p.loaded && p.store.started)
    && (p.store.started ==> p.started || p.phase.ToStop? || p.phase.Joined?)
    && (!p.phase.Resting? ==> p.store.started)
    && (!p.phase.Resting? && p.phase.clean ==> SavedNow(p))
  }

  ghost predicate InvAll(p: Persistence) {
    Inv(p.store) && ServiceConsistent(p.service) && NumbersOk(p) && PhaseOk(p)
  }

  lemma NewPersistenceOk(original: Option<Bytes>, temporary: Option<Bytes>, service: Service)
    requires ServiceConsistent(service)
    ensures InvAll(NewPersistence(original, temporary, service))
  {
    NewStoreOk(original, temporary);
    hide Inv, ServiceConsistent;
  }

  lemma ServeKeeps(p: Persistence, e: Event)
    requires InvAll(p) && Served(p, e)
    ensures InvAll(NextState(p, Serve(e)))
  {
    ServiceProofs.EventKeeps(p.service, e);
    hide Inv, ServiceConsistent, ServiceAfter, NumbersOk, SavedNow;
  }

  lemma LoadKeeps(p: Persistence, readable: bool, deadline: int)
    requires InvAll(p) && AtRest(p)
    ensures InvAll(AfterLoad(p, readable, deadline))
  {
    if !p.loaded && Stopped(p.store) && p.store.path.Some? && Decoding(p.store.path.value).Ok? {
      NextKeeps(p.store, Load(true));
      var c := Decoding(p.store.path.value).value;
      ServiceGuarantees.DecodedKeysAreValid(p.store.path.value);
      ServiceProofs.RestoreKeeps(p.service, c, deadline);
      hide Inv, ServiceConsistent, Decoding, RestoreOutcome;
      assert CheckpointStores.Next(p.store, Load(true)) == Reloaded(p.store, true);
    }
    hide Inv, ServiceConsistent, RestoreOutcome, Decoding, SavedNow;
  }

  lemma StartKeeps(p: Persistence, timerStarted: bool)
    requires InvAll(p) && AtRest(p)
    ensures InvAll(AfterStart(p, timerStarted))
  {
    NextKeeps(p.store, StartWriter);
    hide Inv, ServiceConsistent, SavedNow;
  }

  /** Since the number is always new, a save that passes its own checks is never refused. */
  lemma SaveIsNeverRefused(p: Persistence)
    requires InvAll(p) && AtRest(p) && CanSave(p)
    ensures Saves(p)
  {
    hide ServiceConsistent, HistoryOk, PendingOk, InFlightOk, DiskOk, TemporaryOk, AnsweredOk, RoomRows;
  }

  lemma SaveKeeps(p: Persistence)
    requires InvAll(p) && AtRest(p)
    ensures InvAll(AfterSave(p))
    ensures Saves(p) ==> SavedNow(AfterSave(p)) && AfterSave(p).store.controller.AfterSubmit?
    ensures !Saves(p) ==> AfterSave(p) == p
  {
    var c := CheckpointOf(p.service, p.next);
    assert c.generation == p.next;
    NextKeeps(p.store, Submit(c));
    hide Inv, ServiceConsistent, CheckpointOf;
  }

  lemma StopKeeps(p: Persistence, timerStopped: bool)
    requires InvAll(p) && AtRest(p)
    ensures InvAll(AfterStopAll(p, timerStopped))
  {
    SaveKeeps(p);
    hide Inv, ServiceConsistent, NumbersOk, Saves, AfterSave;
  }

  /** Nothing but a load or a submission touches the numbers. */
  lemma QuietSteps(s: Store, step: Step)
    requires Inv(s) && !step.Load? && !step.Submit?
    ensures var t := CheckpointStores.Next(s, step);
            && t.submitted == s.submitted && t.lastSubmitted == s.lastSubmitted
            && (!s.started && !step.StartWriter? ==> t.path == s.path)
            && (!step.StartWriter? && !step.StopEnd? ==> t.started == s.started)
            && (WriterStep(step) || step.SpuriousWake? ==>
                  t.controller == s.controller || (s.controller.FlushParked? && t.controller.FlushReady?))
  {
    assert FlagsOk(s);
    hide Inv;
    if WriterStep(step) {
      WriterSteps(s, step);
      hide CheckpointStores.Next;
    } else {
      hide Reloaded, Submitted;
    }
  }

  lemma WriterSteps(s: Store, step: Step)
    requires WriterStep(step)
    ensures var t := CheckpointStores.Next(s, step);
            && t.submitted == s.submitted && t.lastSubmitted == s.lastSubmitted && t.started == s.started
            && (s.writer.NotRunning? ==> t.path == s.path)
            && (t.controller == s.controller || (s.controller.FlushParked? && t.controller.FlushReady?))
  {
    hide Encoding, Reloaded, Submitted;
  }

  lemma BackgroundKeeps(p: Persistence, step: Step)
    requires InvAll(p) && (WriterStep(step) || step.SpuriousWake?)
    ensures InvAll(StoreMoves(p, step))
  {
    NextKeeps(p.store, step);
    QuietSteps(p.store, step);
    hide Inv, ServiceConsistent, CheckpointStores.Next, WriterStep;
    var q := StoreMoves(p, step);
    assert q == p.(store := q.store);
    hide StoreMoves;
    assert NumbersOk(q) by { hide PhaseOk; }
    hide NumbersOk;
    BackgroundPhase(p, q);
  }

  lemma BackgroundPhase(p: Persistence, q: Persistence)
    requires PhaseOk(p) && q == p.(store := q.store)
    requires q.store.submitted == p.store.submitted && q.store.started == p.store.started
    requires q.store.controller == p.store.controller || (p.store.controller.FlushParked? && q.store.controller.FlushReady?)
    ensures PhaseOk(q)
  {
    hide CheckpointOf;
  }

  /** Where the controller goes. */
  lemma ControllerSteps(s: Store)
    ensures s.controller.AfterSubmit? ==> CheckpointStores.Next(s, NotifyTask).controller.Free?
    ensures s.controller.AfterStop? ==> CheckpointStores.Next(s, NotifyTask).controller.Joining?
    ensures s.controller.Free? ==> CheckpointStores.Next(s, FlushBegin).controller.FlushReady?
    ensures s.controller.FlushReady? ==>
              var t := CheckpointStores.Next(s, FlushCheck); if Idle(s) then t.controller.Free? else t.controller.FlushParked?
    ensures s.controller.Free? && s.started ==> CheckpointStores.Next(s, StopBegin).controller.AfterStop?
    ensures s.controller.Joining? && s.writer.Exited? ==>
              var t := CheckpointStores.Next(s, StopEnd); !t.started && t.controller.Free? && t.path == s.path
  {
  }

  lemma ContinueKeeps(p: Persistence)
    requires InvAll(p)
    ensures InvAll(Continued(p))
  {
    ControllerSteps(p.store);
    forall step | step in {NotifyTask, FlushCheck, StopEnd, FlushBegin, StopBegin}
      ensures Inv(CheckpointStores.Next(p.store, step))
      ensures CheckpointStores.Next(p.store, step).submitted == p.store.submitted
      ensures CheckpointStores.Next(p.store, step).lastSubmitted == p.store.lastSubmitted
      ensures CheckpointStores.Next(p.store, step).path == p.store.path || p.store.started
      ensures !step.StopEnd? ==> CheckpointStores.Next(p.store, step).started == p.store.started
    {
      NextKeeps(p.store, step);
      QuietSteps(p.store, step);
    }
    hide Inv, ServiceConsistent, CheckpointOf, CheckpointStores.Next, Idle, AllCommitted;
    NumbersStay(p);
    PhaseMoves(p);
    hide NumbersOk, PhaseOk;
  }

  lemma NumbersStay(p: Persistence)
    requires NumbersOk(p)
    requires forall step :: step in {NotifyTask, FlushCheck, StopEnd, FlushBegin, StopBegin} ==>
               var t := CheckpointStores.Next(p.store, step);
               && t.lastSubmitted == p.store.lastSubmitted
               && (p.store.started || t.path == p.store.path) && (!step.StopEnd? ==> t.started == p.store.started)
    ensures NumbersOk(Continued(p))
  {
    ControllerSteps(p.store);
    hide CheckpointStores.Next, Idle, AllCommitted;
  }

  lemma PhaseMoves(p: Persistence)
    requires PhaseOk(p)
    requires forall step :: step in {NotifyTask, FlushCheck, StopEnd, FlushBegin, StopBegin} ==>
               var t := CheckpointStores.Next(p.store, step);
               && t.submitted == p.store.submitted && (!step.StopEnd? ==> t.started == p.store.started)
    ensures PhaseOk(Continued(p))
  {
    ControllerSteps(p.store);
    hide CheckpointStores.Next, Idle, AllCommitted, CheckpointOf;
  }

  lemma MoveKeeps(p: Persistence, move: Move)
    requires InvAll(p)
    ensures InvAll(NextState(p, move))
  {
    hide InvAll, AfterLoad, AfterStart, AfterSave, AfterStopAll, Continued, StoreMoves;
    match move
    case Serve(e) => if Served(p, e) { ServeKeeps(p, e); }
    case LoadFile(readable, deadline) => if AtRest(p) { LoadKeeps(p, readable, deadline); }
    case StartAll(timerStarted) => if AtRest(p) { StartKeeps(p, timerStarted); }
    case SaveNow => if AtRest(p) { SaveKeeps(p); }
    case StopAll(timerStopped) => if AtRest(p) { StopKeeps(p, timerStopped); }
    case Continue => ContinueKeeps(p);
    case Background(step) => if WriterStep(step) || step.SpuriousWake? { BackgroundKeeps(p, step); }
  }

  lemma {:induction false} RunAllKeeps(p: Persistence, moves: seq<Move>)
    requires InvAll(p)
    ensures InvAll(RunAll(p, moves))
  {
    hide InvAll, NextState;
    if moves != [] {
      RunAllKeeps(p, moves[..|moves| - 1]);
      MoveKeeps(RunAll(p, moves[..|moves| - 1]), moves[|moves| - 1]);
    }
  }

  // ---------------------------------------------------------------- what a caller may rely on

  /** A load counts as done exactly when there was no file or its state was restored; otherwise the service is untouched. */
  lemma LoadIsAllOrNothing(p: Persistence, readable: bool, deadline: int)
    requires !p.loaded
    ensures var verdict, q := LoadResult(p, readable, deadline), AfterLoad(p, readable, deadline);
            && (q.loaded <==> verdict == NotFound || verdict == Restored)
            && (verdict != Restored ==> q.service == p.service)
            && (verdict == Restored ==>
                  var c := Decoding(p.store.path.value).value;
                  && (true, q.service) == RestoreOutcome(p.service, c, deadline)
                  && q.service.rooms == RestoredRooms(c.rooms) && q.next == c.generation + 1)
  {
    if p.store.path.Some? && Decoding(p.store.path.value).Ok? {
      ServiceGuarantees.DecodedRestoreIsAtomic(p.service, p.store.path.value, deadline);
    }
    hide Decoding, RestoreOutcome, RestoredRooms, CheckpointStores.Next;
  }

  /** The greatest number is never handed to the store, let alone written. */
  lemma GreatestNumberIsNeverUsed(p: Persistence)
    requires InvAll(p) && p.loaded
    ensures forall c :: c in p.store.submitted ==> c.generation < MAX_GENERATION
    ensures p.store.onDisk.Some? ==> p.store.onDisk.value.generation < MAX_GENERATION
  {
    LastIsGreatest(p.store.submitted);
    hide ServiceConsistent, Encoding, Increasing;
  }

  /** A stop is about to return: the writer has left and only the answer is due. */
  predicate StopReturns(p: Persistence) {
    p.phase.Joined? && p.store.controller.Joining? && p.store.writer.Exited?
  }

  /**
   A stop that answers true has left a file that decodes to the server's state, and a load of
   that file gives the same server back, asleep, provided nobody is below zero.
   */
  lemma CleanStopIsRestorable(p: Persistence, target: Service, deadline: int)
    requires InvAll(p) && StopReturns(p) && Continued(p).answer == Some(true)
    ensures var q := Continued(p);
            && q.service == p.service && AtRest(q) && !q.started && q.store.path.Some?
            && Decoding(q.store.path.value).Ok?
            && var c := Decoding(q.store.path.value).value;
               && c == CheckpointOf(q.service, c.generation)
               && RestoreOutcome(target, c, deadline)
                    == if EverybodyAboveZero(q.service.rooms) then (true, Asleep(q.service, deadline)) else (false, target)
  {
    CleanStopFacts(p);
    TrueMeansOnDisk(p.store);
    var newest := p.store.submitted[|p.store.submitted| - 1];
    EncodableNumber(newest);
    ServerRoundTrip(p.service, newest.generation, target, deadline);
    hide *;
  }

  lemma CleanStopFacts(p: Persistence)
    requires InvAll(p) && StopReturns(p) && Continued(p).answer == Some(true)
    ensures AllCommitted(p.store) && SavedNow(p)
    ensures var q := Continued(p); q.service == p.service && AtRest(q) && !q.started && q.store.path == p.store.path
  {
    ControllerSteps(p.store);
    hide Inv, ServiceConsistent, CheckpointOf, CheckpointStores.Next, Idle;
  }

  lemma EncodableNumber(c: ServerRecord)
    requires Encoding(c).Ok?
    ensures c.generation != 0
  {
    hide ValidKeys;
  }

  // ---------------------------------------------------------------- the file never goes back

  /** Once loaded, nothing older than the file is on its way to it; before that, nobody writes. */
  ghost predicate FileOk(p: Persistence) {
    p.loaded ==> Ahead(p.store)
  }

  /** Once loaded, and for every move but a load, the store moves by one step at most. */
  lemma OneStep(p: Persistence, move: Move) returns (step: Step)
    requires p.loaded || !move.LoadFile?
    ensures var q := NextState(p, move);
            && q.loaded == p.loaded && (q.store == p.store || q.store == CheckpointStores.Next(p.store, step))
            && (step.Submit? ==> step.record == CheckpointOf(p.service, p.next)) && !step.Load?
            && (!move.Serve? ==> q.service == p.service)
  {
    hide CheckpointStores.Next, CheckpointOf, ServiceAfter, Served, Idle, AllCommitted, Submittable;
    match move
    case StartAll(_) => step := StartWriter;
    case SaveNow => step := Submit(CheckpointOf(p.service, p.next));
    case StopAll(_) => step := Submit(CheckpointOf(p.service, p.next));
    case Background(background) => step := if WriterStep(background) || background.SpuriousWake? then background else StartWriter;
    case Serve(_) => step := StartWriter;
    case LoadFile(_, _) => step := StartWriter;
    case Continue =>
      match p.store.controller
      case AfterSubmit => step := NotifyTask;
      case AfterStop => step := NotifyTask;
      case FlushReady => step := FlushCheck;
      case Joining => step := StopEnd;
      case _ => step := if p.phase.ToFlush? then FlushBegin else StopBegin;
  }

  /** Before that the service is at rest and its writer is not running. */
  lemma UnloadedRests(p: Persistence)
    requires InvAll(p) && !p.loaded
    ensures !p.started && !p.store.started && p.phase.Resting? && p.store.controller.Free? && p.store.writer.NotRunning?
  {
    hide ServiceConsistent, HistoryOk, PendingOk, InFlightOk, DiskOk, SyncOk, TemporaryOk, AnsweredOk, WakeupsOk;
    hide SavedNow;
  }

  /** Until it is loaded, only a load does anything to the store, and no load touches the file. */
  lemma UnloadedMoves(p: Persistence, move: Move)
    requires InvAll(p) && !p.loaded
    ensures NextState(p, move).store.path == p.store.path
    ensures NextState(p, move).loaded ==>
        move.LoadFile? && AtRest(p) && NextState(p, move) == AfterLoad(p, move.readable, move.deadline)
  {
    UnloadedRests(p);
    hide InvAll;
    LoadedNumber(p.store, true);
    if move.Background? && (WriterStep(move.step) || move.step.SpuriousWake?) {
      SleepingStore(p.store, move.step);
    }
    hide CheckpointStores.Next, Decoding, RestoreOutcome, CheckpointOf, ServiceAfter, Served;
  }

  lemma SleepingStore(s: Store, step: Step)
    requires s.writer.NotRunning? && s.controller.Free? && (WriterStep(step) || step.SpuriousWake?)
    ensures CheckpointStores.Next(s, step) == s
  {
  }

  lemma LoadedIsAhead(p: Persistence, readable: bool, deadline: int)
    requires InvAll(p) && !p.loaded && AtRest(p) && AfterLoad(p, readable, deadline).loaded
    ensures Ahead(AfterLoad(p, readable, deadline).store)
  {
    var q := AfterLoad(p, readable, deadline);
    LoadKeeps(p, readable, deadline);
    hide Inv, ServiceConsistent, Decoding, Ahead, RestoreOutcome, CheckpointStores.Next;
    if p.store.path.Some? {
      LoadedStore(p.store);
    }
    assert Stopped(q.store) && FileGeneration(q.store.path) <= q.store.lastSubmitted + 1;
    hide AfterLoad;
    StoppedIsAhead(q.store);
  }

  lemma MoveKeepsFile(p: Persistence, move: Move)
    requires InvAll(p) && FileOk(p)
    ensures FileOk(NextState(p, move)) && FileGeneration(p.store.path) <= FileGeneration(NextState(p, move).store.path)
  {
    hide NextState, AfterLoad, Ahead, FileGeneration;
    if p.loaded {
      var step := OneStep(p, move);
      AheadStaysAhead(p.store, step);
    } else {
      UnloadedMoves(p, move);
      if NextState(p, move).loaded {
        LoadedIsAhead(p, move.readable, move.deadline);
      }
    }
    hide InvAll, CheckpointStores.Next;
  }

  lemma {:induction false} RunKeepsFile(p: Persistence, moves: seq<Move>, k: nat)
    requires InvAll(p) && FileOk(p) && k <= |moves|
    ensures InvAll(RunAll(p, moves)) && FileOk(RunAll(p, moves))
    ensures FileGeneration(RunAll(p, moves[..k]).store.path) <= FileGeneration(RunAll(p, moves).store.path)
  {
    RunAllKeeps(p, moves);
    hide InvAll, FileOk, FileGeneration, NextState;
    if moves == [] {
    } else {
      var before := moves[..|moves| - 1];
      RunKeepsFile(p, before, if k < |moves| then k else 0);
      MoveKeepsFile(RunAll(p, before), moves[|moves| - 1]);
      assert if k < |moves| then before[..k] == moves[..k] else moves[..k] == moves;
    }
  }

  /**
   Over a whole run of the persistence service, whatever was on the disk before and however its
   threads interleave, the generation in the checkpoint file never decreases.
   */
  lemma FileNeverGoesBack(original: Option<Bytes>, temporary: Option<Bytes>, service: Service, moves: seq<Move>, k: nat)
    requires ServiceConsistent(service) && k <= |moves|
    ensures var p := NewPersistence(original, temporary, service);
            FileGeneration(RunAll(p, moves[..k]).store.path) <= FileGeneration(RunAll(p, moves).store.path)
  {
    NewPersistenceOk(original, temporary, service);
    hide InvAll, FileGeneration;
    RunKeepsFile(NewPersistence(original, temporary, service), moves, k);
  }

  // ---------------------------------------------------------------- from the start

  /**
   Every run of a new persistence service: saves are never refused for their number, numbers grow,
   the greatest is never used, and the file is what it was or a whole checkpoint.
   */
  lemma EveryRunIsSafe(original: Option<Bytes>, temporary: Option<Bytes>, service: Service, moves: seq<Move>)
    requires ServiceConsistent(service)
    ensures var p := RunAll(NewPersistence(original, temporary, service), moves);
            && ServiceConsistent(p.service)
            && (AtRest(p) && CanSave(p) ==> Saves(p))
            && (p.loaded ==> forall c :: c in p.store.submitted ==> c.generation < p.next && c.generation < MAX_GENERATION)
            && (p.store.path == p.store.original
                || (p.store.onDisk.Some? && p.store.onDisk.value in p.store.submitted
                    && p.store.path.Some? && Decoding(p.store.path.value) == Ok(p.store.onDisk.value)))
  {
    NewPersistenceOk(original, temporary, service);
    var p := RunAll(NewPersistence(original, temporary, service), moves);
    RunAllKeeps(NewPersistence(original, temporary, service), moves);
    CrashLeavesAWholeFile(p.store);
    if AtRest(p) && CanSave(p) {
      SaveIsNeverRefused(p);
    }
    if p.loaded {
      GreatestNumberIsNeverUsed(p);
      SubmittedBelowNext(p);
    }
    hide *;
  }

  lemma SubmittedBelowNext(p: Persistence)
    requires InvAll(p) && p.loaded
    ensures forall c :: c in p.store.submitted ==> c.generation < p.next
  {
    LastIsGreatest(p.store.submitted);
    hide ServiceConsistent, Encoding, Increasing;
  }

  /** Every stop of a run from the start that answers true leaves a file that gives the same server back. */
  lemma EveryCleanStopIsRestorable(
    original: Option<Bytes>, temporary: Option<Bytes>, service: Service, moves: seq<Move>, target: Service, deadline: int)
    requires ServiceConsistent(service)
    ensures var p := RunAll(NewPersistence(original, temporary, service), moves);
            StopReturns(p) && Continued(p).answer == Some(true) ==>
              && Continued(p).store.path.Some? && Decoding(Continued(p).store.path.value).Ok?
              && RestoreOutcome(target, Decoding(Continued(p).store.path.value).value, deadline)
                   == if EverybodyAboveZero(p.service.rooms) then (true, Asleep(p.service, deadline)) else (false, target)
  {
    NewPersistenceOk(original, temporary, service);
    var p := RunAll(NewPersistence(original, temporary, service), moves);
    RunAllKeeps(NewPersistence(original, temporary, service), moves);
    hide *;
    if StopReturns(p) && Continued(p).answer == Some(true) {
      CleanStopIsRestorable(p, target, deadline);
    }
  }
}
