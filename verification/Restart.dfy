/**
 A server and the one that is started over its file: if the line began with a fair file, or with
 none, the file is fair in every state, and what a clean stop leaves is always taken back.
 */
module Restarts {
  import opened Common
  import opened Checkpoint
  import opened CheckpointFormat
  import opened CheckpointStores
  import opened Tick
  import opened RoomModel
  import opened SessionModel
  import opened ServiceModel
  import opened ServiceProofs
  import opened ServiceCheckpoint
  import opened ServiceGuarantees
  import opened HitPoints
  import opened PersistenceServices

  /** If the file holds a checkpoint, it is a fair one. */
  ghost predicate FairFile(file: Option<Bytes>) {
    file.Some? && Decoding(file.value).Ok? ==> FairRecord(Decoding(file.value).value)
  }

  /** The server, the file it found, and everything on its way to the file. */
  ghost predicate LineOk(p: Persistence) {
    && AllFair(p.service.rooms)
    && FairFile(p.store.original)
    && forall c :: c in p.store.submitted ==> FairRecord(c)
  }

  lemma PathIsFair(s: Store)
    requires Inv(s) && FairFile(s.original) && forall c :: c in s.submitted ==> FairRecord(c)
    ensures FairFile(s.path)
  {
    CrashLeavesAWholeFile(s);
    hide Inv, Decoding, FairRecord;
  }

  lemma OwnCheckpointIsFair(s: Service, generation: u64)
    requires ServiceConsistent(s) && AllFair(s.rooms)
    ensures FairRecord(CheckpointOf(s, generation))
  {
    var c := CheckpointOf(s, generation);
    RoomRowsFacts(s.rooms);
    hide RoomRows, Consistent, TableConsistent, SessionRows;
    forall i | 0 <= i < |c.rooms| && c.rooms[i].phase == Running ensures FairRows(c.rooms[i].players) {
      var r := s.rooms[c.rooms[i].roomId];
      assert c.rooms[i] == RecordOf(r);
      RecordedFair(r);
    }
  }

  lemma RecordedFair(r: RoomState)
    requires Consistent(r) && FairRoom(r) && r.phase == Running
    ensures FairRows(RecordOf(r).players)
  {
    RoomRoundTrip(r);
    assert Acceptable(RecordOf(r));
    RestoredFairIff(RecordOf(r));
    hide Acceptable, RecordOf, Consistent, FairRows;
  }

  lemma WrittenIsFair(c: ServerRecord, generations: nat)
    requires Written(c, generations)
    ensures FairRecord(c)
  {
    var s := WrittenIsTenfold(c, generations);
    hide Written;
    forall i | 0 <= i < |c.rooms| ensures FairRows(c.rooms[i].players) {
    }
  }

  // ---------------------------------------------------------------- every move keeps the line

  /** What a step can add to the submissions. */
  lemma SubmittedFrom(s: Store, step: Step)
    requires Inv(s)
    ensures var t := CheckpointStores.Next(s, step);
            && t.original == s.original
            && forall c :: c in t.submitted ==>
                 c in s.submitted || (step.Submit? && c == step.record)
                 || (step.Load? && s.path.Some? && Decoding(s.path.value) == Ok(c))
  {
    OriginalStays(s, step);
    if !step.Load? && !step.Submit? {
      QuietSteps(s, step);
      hide CheckpointStores.Next;
    }
    hide Decoding, Inv;
  }

  lemma OriginalStays(s: Store, step: Step)
    ensures CheckpointStores.Next(s, step).original == s.original
  {
    hide Encoding, Decoding;
  }

  lemma StepKeepsLine(p: Persistence, step: Step, q: Persistence)
    requires Inv(p.store) && LineOk(p) && q.store == CheckpointStores.Next(p.store, step) && AllFair(q.service.rooms)
    requires step.Submit? ==> FairRecord(step.record)
    ensures LineOk(q)
  {
    SubmittedFrom(p.store, step);
    PathIsFair(p.store);
    hide CheckpointStores.Next, Decoding, FairRecord, Inv, AllFair;
  }

  /** What a load of the file makes of store and service. */
  lemma LoadShape(p: Persistence, readable: bool, deadline: int)
    ensures var q := AfterLoad(p, readable, deadline);
            && (q.store == p.store || q.store == CheckpointStores.Next(p.store, Load(true)))
            && (q.service == p.service
                || (p.store.path.Some? && Decoding(p.store.path.value).Ok?
                    && q.service == RestoreOutcome(p.service, Decoding(p.store.path.value).value, deadline).1))
  {
    hide CheckpointStores.Next, Decoding, RestoreOutcome;
  }

  lemma LoadedIsFair(s: Service, c: ServerRecord, deadline: int)
    requires AllFair(s.rooms) && FairRecord(c)
    ensures AllFair(RestoreOutcome(s, c, deadline).1.rooms)
  {
    EventKeepsFair(s, Loaded(c, deadline));
    hide AllFair, RestoreOutcome;
  }

  lemma LoadKeepsLine(p: Persistence, readable: bool, deadline: int)
    requires Inv(p.store) && LineOk(p)
    ensures LineOk(AfterLoad(p, readable, deadline))
  {
    hide AfterLoad, AllFair, FairRecord, Inv, Decoding, RestoreOutcome, CheckpointStores.Next;
    var q := AfterLoad(p, readable, deadline);
    LoadShape(p, readable, deadline);
    PathIsFair(p.store);
    if q.service != p.service {
      LoadedIsFair(p.service, Decoding(p.store.path.value).value, deadline);
    }
    if q.store != p.store {
      StepKeepsLine(p, Load(true), q);
    }
  }

  lemma MoveKeepsLine(p: Persistence, move: Move)
    requires InvAll(p) && LineOk(p)
    ensures LineOk(NextState(p, move))
  {
    var q := NextState(p, move);
    if move.LoadFile? {
      LoadKeepsLine(p, move.readable, move.deadline);
    } else {
      var step := OneStep(p, move);
      OwnCheckpointIsFair(p.service, p.next);
      ServedIsFair(p, move);
      hide NextState, AllFair, FairRecord, Inv, ServiceConsistent, Decoding, CheckpointOf, CheckpointStores.Next;
      if q.store != p.store {
        StepKeepsLine(p, step, q);
      }
    }
    hide AfterLoad, LineOk;
  }

  lemma ServedIsFair(p: Persistence, move: Move)
    requires AllFair(p.service.rooms) && !move.LoadFile? && (!move.Serve? ==> NextState(p, move).service == p.service)
    ensures AllFair(NextState(p, move).service.rooms)
  {
    if move.Serve? && Served(p, move.event) {
      EventKeepsFair(p.service, move.event);
    }
    hide AllFair, ServiceAfter, FairRecord;
  }

  lemma {:induction false} RunKeepsLine(p: Persistence, moves: seq<Move>)
    requires InvAll(p) && LineOk(p)
    ensures InvAll(RunAll(p, moves)) && LineOk(RunAll(p, moves))
  {
    RunAllKeeps(p, moves);
    hide InvAll, LineOk, NextState;
    if moves != [] {
      RunKeepsLine(p, moves[..|moves| - 1]);
      MoveKeepsLine(RunAll(p, moves[..|moves| - 1]), moves[|moves| - 1]);
    }
  }

  // ---------------------------------------------------------------- what the next server finds

  /** From a fair server over a fair file, or none: nobody is ever below zero, and wherever the process dies the file is fair. */
  lemma FileStaysFair(original: Option<Bytes>, temporary: Option<Bytes>, service: Service, moves: seq<Move>)
    requires ServiceConsistent(service) && AllFair(service.rooms) && FairFile(original)
    ensures var p := RunAll(NewPersistence(original, temporary, service), moves);
            EverybodyAboveZero(p.service.rooms) && FairFile(p.store.path)
  {
    NewPersistenceOk(original, temporary, service);
    var p := RunAll(NewPersistence(original, temporary, service), moves);
    hide AllFair, FairFile, ServiceConsistent, RunAll;
    RunKeepsLine(NewPersistence(original, temporary, service), moves);
    PathIsFair(p.store);
    FairIsAboveZero(p.service.rooms);
  }

  /** And every stop that answers true leaves a file that gives the same server back, unconditionally. */
  lemma CleanStopComesBack(
    original: Option<Bytes>, temporary: Option<Bytes>, service: Service, moves: seq<Move>, target: Service, deadline: int)
    requires ServiceConsistent(service) && AllFair(service.rooms) && FairFile(original)
    ensures var p := RunAll(NewPersistence(original, temporary, service), moves);
            StopReturns(p) && Continued(p).answer == Some(true) ==>
              && Continued(p).store.path.Some? && Decoding(Continued(p).store.path.value).Ok?
              && RestoreOutcome(target, Decoding(Continued(p).store.path.value).value, deadline)
                == (true, Asleep(p.service, deadline))
  {
    FileStaysFair(original, temporary, service, moves);
    EveryCleanStopIsRestorable(original, temporary, service, moves, target, deadline);
    hide *;
  }

  /** In particular over a file that a line of servers has written, or over none, with an empty server to begin with. */
  lemma WrittenFileIsFair(original: Option<Bytes>, generations: nat)
    requires original.Some? && Decoding(original.value).Ok? ==> Written(Decoding(original.value).value, generations)
    ensures FairFile(original) && ServiceConsistent(FRESH.service) && AllFair(FRESH.service.rooms)
  {
    FreshIsSound();
    if original.Some? && Decoding(original.value).Ok? {
      WrittenIsFair(Decoding(original.value).value, generations);
    }
    hide Decoding, Written, FairRecord;
  }
}
