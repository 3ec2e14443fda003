/**
 What the store does to the checkpoint file: when the generation it holds can go back, and what
 the answers of `flush` and `stop` say about it.
 */
module CheckpointFiles {
  import opened Common
  import opened Checkpoint
  import opened Checksum
  import opened CheckpointFormat
  import opened CheckpointStores

  /** The generation of the checkpoint in a file; 0 when there is none. */
  ghost function FileGeneration(file: Option<Bytes>): u64 {
    if file.Some? && Decoding(file.value).Ok? then Decoding(file.value).value.generation else 0
  }

  // ---------------------------------------------------------------- never back

  /** Whatever is on its way to the file, now or later, is no older than what the file holds. */
  ghost predicate Ahead(s: Store) {
    && FileGeneration(s.path) <= s.lastSubmitted + 1
    && (s.pending.Some? ==> FileGeneration(s.path) <= s.pending.value.generation)
    && (InFlight(s.writer).Some? ==> FileGeneration(s.path) <= InFlight(s.writer).value.generation)
  }

  lemma PlacedGeneration(s: Store)
    requires Inv(s) && s.onDisk.Some?
    ensures FileGeneration(s.path) == s.onDisk.value.generation
  {
    DecodeUndoesEncode(s.onDisk.value);
    hide Encoding, Decoding;
  }

  lemma RenameGoesAhead(s: Store)
    requires Inv(s) && Ahead(s) && s.writer.Renaming?
    ensures var t := Next(s, Rename(true)); FileGeneration(s.path) <= FileGeneration(t.path) && Ahead(t)
  {
    var t := Next(s, Rename(true));
    RenameKeeps(s, true);
    RenamedFacts(s);
    PlacedGeneration(t);
    NewestIsLast(s);
    hide FileGeneration, Inv, Next;
  }

  lemma RenamedFacts(s: Store)
    requires s.writer.Renaming?
    ensures var t := Next(s, Rename(true));
            && t.onDisk == Some(s.writer.c) && InFlight(t.writer) == Some(s.writer.c)
            && t.pending == s.pending && t.lastSubmitted == s.lastSubmitted
  {
    hide Encoding, Decoding;
  }

  lemma NewestIsLast(s: Store)
    requires Inv(s) && InFlight(s.writer).Some?
    ensures InFlight(s.writer).value.generation <= s.lastSubmitted
    ensures s.pending.Some? ==> InFlight(s.writer).value.generation < s.pending.value.generation
  {
    LastIsGreatest(s.submitted);
    hide Encoding, Increasing, LastGeneration, DiskOk, TemporaryOk, AnsweredOk, FlagsOk, WakeupsOk;
  }

  lemma OthersStayAhead(s: Store, step: Step)
    requires Inv(s) && Ahead(s) && step != Rename(true)
    ensures Next(s, step).path == s.path && Ahead(Next(s, step))
  {
    hide Inv, FileGeneration;
    if step.Load? {
      LoadedNumber(s, step.readable);
    } else {
      WhereFrom(s, step);
    }
    hide Next;
  }

  /** What waits or is in flight after a step was waiting or in flight before, or has just been submitted. */
  lemma WhereFrom(s: Store, step: Step)
    requires step != Rename(true) && !step.Load?
    ensures var t := Next(s, step);
            && t.path == s.path && s.lastSubmitted <= t.lastSubmitted
            && (t.pending.Some? && t.pending != s.pending ==> s.lastSubmitted < t.pending.value.generation)
            && (InFlight(t.writer).Some? ==> InFlight(t.writer) == InFlight(s.writer) || InFlight(t.writer) == s.pending)
  {
    if WriterStep(step) {
      WriterMoves(s, step);
    } else {
      hide Encoding, Reloaded, Took, Opened, Wrote, Reported, Failed;
    }
    hide Next;
  }

  lemma WriterMoves(s: Store, step: Step)
    requires WriterStep(step) && step != Rename(true)
    ensures var t := Next(s, step);
            && t.path == s.path && s.lastSubmitted == t.lastSubmitted && (t.pending.Some? ==> t.pending == s.pending)
            && (InFlight(t.writer).Some? ==> InFlight(t.writer) == InFlight(s.writer) || InFlight(t.writer) == s.pending)
  {
    hide Encoding, Reloaded, Submitted, Opened, Took, Wrote, Reported;
    if Enabled(s, step) {
      match step
      case Take => TakeMoves(s);
      case OpenTemporary(ok) => OpenMoves(s, ok);
      case WriteSome(n) => WriteMoves(s, n);
      case Report => ReportMoves(s);
      case _ =>
    }
  }

  lemma TakeMoves(s: Store)
    requires s.writer.Ready?
    ensures var t := Took(s);
            && t == s.(writer := t.writer, pending := t.pending, writing := t.writing)
            && (t.pending.Some? ==> t.pending == s.pending) && (InFlight(t.writer).Some? ==> InFlight(t.writer) == s.pending)
  {
  }

  lemma OpenMoves(s: Store, ok: bool)
    requires s.writer.Taken?
    ensures var t := Opened(s, ok);
            t == s.(writer := t.writer, temporary := t.temporary) && InFlight(t.writer) == InFlight(s.writer)
  {
    hide Encoding;
  }

  lemma WriteMoves(s: Store, n: nat)
    requires s.writer.Writing? && 0 < n <= |s.writer.data| - s.writer.done
    ensures var t := Wrote(s, n);
            t == s.(writer := t.writer, temporary := t.temporary) && InFlight(t.writer) == InFlight(s.writer)
  {
  }

  lemma ReportMoves(s: Store)
    requires s.writer.Reporting?
    ensures var t := Reported(s);
            t.path == s.path && t.lastSubmitted == s.lastSubmitted && t.pending == s.pending && InFlight(t.writer).None?
  {
  }

  lemma LoadedNumber(s: Store, readable: bool)
    ensures var t := Next(s, Load(readable));
            && t.path == s.path && t.pending == s.pending && t.writer == s.writer
            && (t.lastSubmitted == s.lastSubmitted || t.lastSubmitted == FileGeneration(s.path))
  {
    hide Decoding, Encoding;
  }

  /** A store that is ahead of its file never replaces a newer checkpoint by an older one. */
  lemma AheadStaysAhead(s: Store, step: Step)
    requires Inv(s) && Ahead(s)
    ensures Ahead(Next(s, step)) && FileGeneration(s.path) <= FileGeneration(Next(s, step).path)
  {
    if step == Rename(true) && s.writer.Renaming? {
      RenameGoesAhead(s);
    } else if step == Rename(true) {
      assert Next(s, step) == s;
    } else {
      OthersStayAhead(s, step);
    }
    hide Inv, Ahead, FileGeneration, Next;
  }

  lemma {:induction false} RunStaysAhead(s: Store, steps: seq<Step>)
    requires Inv(s) && Ahead(s)
    ensures Inv(Run(s, steps)) && Ahead(Run(s, steps))
  {
    RunKeeps(s, steps);
    hide Inv, Ahead, Next;
    if steps != [] {
      RunStaysAhead(s, steps[..|steps| - 1]);
      AheadStaysAhead(Run(s, steps[..|steps| - 1]), steps[|steps| - 1]);
    }
  }

  /** Along every run from here, no step lowers the generation in the file. */
  ghost predicate FileOnlyAdvances(s: Store) {
    forall steps: seq<Step>, step: Step ::
      FileGeneration(Run(s, steps).path) <= FileGeneration(Next(Run(s, steps), step).path)
  }

  lemma {:induction false} AdvancedFile(s: Store, steps: seq<Step>)
    requires FileOnlyAdvances(s)
    ensures FileGeneration(s.path) <= FileGeneration(Run(s, steps).path)
  {
    hide FileGeneration, Next;
    if steps != [] {
      AdvancedFile(s, steps[..|steps| - 1]);
    }
  }

  // ---------------------------------------------------------------- one whole commit

  /** One more step of a run. */
  lemma Then(s: Store, steps: seq<Step>, t: Store, step: Step) returns (more: seq<Step>, u: Store)
    requires t == Run(s, steps)
    ensures more == steps + [step] && u == Run(s, more) == Next(t, step)
  {
    more, u := steps + [step], Next(t, step);
    assert more[..|steps|] == steps;
  }

  /** A stopped store starts, takes one checkpoint, and its writer picks it up. */
  lemma PickUp(s: Store, c: ServerRecord) returns (steps: seq<Step>, t: Store)
    requires Stopped(s) && s.controller.Free? && c.generation > s.lastSubmitted
    ensures t == Run(s, steps)
    ensures t == s.(started := true, writer := Taken(c), writing := true, lastSubmitted := c.generation,
                    submitted := s.submitted + [c])
  {
    steps, t := [], s;
    hide Run, Reloaded, Opened, Wrote, Reported;
    assert Run(s, []) == s by { RunNothing(s); }
    steps, t := Then(s, steps, t, StartWriter);
    steps, t := Then(s, steps, t, Submit(c));
    steps, t := Then(s, steps, t, NotifyTask);
    steps, t := Then(s, steps, t, Take);
  }

  lemma RunNothing(s: Store)
    ensures Run(s, []) == s
  {
  }

  /** With a file system that answers yes to everything, it ends up in place. */
  lemma PutInPlace(s: Store, c: ServerRecord) returns (steps: seq<Step>, t: Store)
    requires Stopped(s) && s.controller.Free? && c.generation > s.lastSubmitted && Encoding(c).Ok?
    ensures t == Run(s, steps)
    ensures t == s.(started := true, writer := SyncingDirectory(c), writing := true, lastSubmitted := c.generation,
                    submitted := s.submitted + [c], path := Some(Encoding(c).value), temporary := None, onDisk := Some(c))
  {
    steps, t := PickUp(s, c);
    var taken, data := t, Encoding(c).value;
    WriteOut(taken, c);
    EncodingIsNotEmpty(c);
    hide Run, Encoding, Next;
    steps, t := Then(s, steps, t, OpenTemporary(true));
    steps, t := Then(s, steps, t, WriteSome(|data|));
    steps, t := Then(s, steps, t, SyncTemporary(true));
    steps, t := Then(s, steps, t, CloseTemporary(true));
    steps, t := Then(s, steps, t, Rename(true));
  }

  lemma WriteOut(s: Store, c: ServerRecord)
    requires s.writer == Taken(c) && Encoding(c).Ok?
    ensures var data := Encoding(c).value;
            Next(Next(Next(Next(Next(s, OpenTemporary(true)), WriteSome(|data|)), SyncTemporary(true)),
              CloseTemporary(true)), Rename(true))
              == s.(writer := SyncingDirectory(c), path := Some(data), temporary := None, onDisk := Some(c))
  {
    EncodingIsNotEmpty(c);
    OpensTemporary(s, c);
    var data := Encoding(c).value;
    hide Encoding, Next;
    var open0 := s.(writer := Writing(c, data, 0), temporary := Some([]));
    WritesAll(open0, c, data);
    var written := open0.(writer := Syncing(c, data), temporary := Some(data));
    SyncsAndCloses(written, c, data);
    RenamedStore(written.(writer := Renaming(c, data)), true);
  }

  lemma OpensTemporary(s: Store, c: ServerRecord)
    requires s.writer == Taken(c) && Encoding(c).Ok?
    ensures Next(s, OpenTemporary(true)) == s.(writer := Writing(c, Encoding(c).value, 0), temporary := Some([]))
  {
    assert Enabled(s, OpenTemporary(true)) && Next(s, OpenTemporary(true)) == Opened(s, true);
    hide Encoding, Next, Enabled;
  }

  lemma WritesAll(s: Store, c: ServerRecord, data: Bytes)
    requires s.writer == Writing(c, data, 0) && data != []
    ensures Next(s, WriteSome(|data|)) == s.(writer := Syncing(c, data), temporary := Some(data))
  {
    assert data[..|data|] == data;
    assert Enabled(s, WriteSome(|data|)) && Next(s, WriteSome(|data|)) == Wrote(s, |data|);
    hide Next, Enabled;
  }

  lemma SyncsAndCloses(s: Store, c: ServerRecord, data: Bytes)
    requires s.writer == Syncing(c, data)
    ensures Next(Next(s, SyncTemporary(true)), CloseTemporary(true)) == s.(writer := Renaming(c, data))
  {
    var closing := s.(writer := Closing(c, data));
    assert Next(s, SyncTemporary(true)) == closing;
    assert Next(closing, CloseTemporary(true)) == s.(writer := Renaming(c, data));
    hide Next;
  }

  /** A server with no rooms can always be written. */
  function Nobody(generation: u64): ServerRecord {
    ServerRecord(generation, [], [])
  }

  lemma NobodyEncodes(generation: u64)
    requires generation != 0
    ensures Encoding(Nobody(generation)).Ok?
  {
    hide Fnv1a;
  }

  // ---------------------------------------------------------------- exactly when the file can go back

  /**
   Before a stopped store is started: the file never goes back, whatever happens, exactly when its
   generation is at most one above the last number the store knows of. Having loaded the file, or
   there being none, is enough.
   */
  lemma FileOnlyAdvancesIff(s: Store)
    requires Inv(s) && Stopped(s) && s.controller.Free?
    ensures FileOnlyAdvances(s) <==> FileGeneration(s.path) <= s.lastSubmitted + 1
  {
    if FileGeneration(s.path) <= s.lastSubmitted + 1 {
      StoppedIsAhead(s);
      forall steps: seq<Step>, step: Step
        ensures FileGeneration(Run(s, steps).path) <= FileGeneration(Next(Run(s, steps), step).path)
      {
        RunStaysAhead(s, steps);
        AheadStaysAhead(Run(s, steps), step);
      }
    } else {
      var c := Nobody(s.lastSubmitted + 1);
      NobodyEncodes(c.generation);
      var steps, t := PutInPlace(s, c);
      DecodeUndoesEncode(c);
      hide Encoding, Decoding, Run, Next;
      assert FileGeneration(t.path) == c.generation;
      if FileOnlyAdvances(s) {
        AdvancedFile(s, steps);
      }
    }
  }

  lemma StoppedIsAhead(s: Store)
    requires Inv(s) && Stopped(s) && FileGeneration(s.path) <= s.lastSubmitted + 1
    ensures Ahead(s)
  {
    hide Encoding, FileGeneration;
  }

  /** After a load the store knows the number in the file. */
  lemma LoadedStore(s: Store)
    requires Stopped(s) && s.controller.Free? && s.path.Some? && Decoding(s.path.value).Ok?
    ensures var t := Next(s, Load(true)); Stopped(t) && FileGeneration(t.path) == t.lastSubmitted && t.controller.Free?
  {
    hide Decoding;
  }

  lemma LoadedOrAbsentIsEnough(s: Store)
    requires Inv(s) && Stopped(s) && s.controller.Free?
    ensures s.path.None? ==> FileOnlyAdvances(s)
    ensures s.path.Some? && Decoding(s.path.value).Ok? ==> FileOnlyAdvances(Next(s, Load(true)))
  {
    hide FileOnlyAdvances, Inv, Decoding, Next;
    if s.path.None? {
      FileOnlyAdvancesIff(s);
    }
    if s.path.Some? && Decoding(s.path.value).Ok? {
      LoadKeeps(s, true);
      LoadedStore(s);
      FileOnlyAdvancesIff(Next(s, Load(true)));
    }
  }

  /** A store started over generation 9 without a load puts generation 1 in its place. */
  lemma UnloadedFileGoesBack(temporary: Option<Bytes>) returns (steps: seq<Step>)
    ensures Encoding(Nobody(9)).Ok?
    ensures var s := NewStore(Some(Encoding(Nobody(9)).value), temporary);
            FileGeneration(s.path) == 9 && FileGeneration(Run(s, steps).path) == 1
  {
    NobodyEncodes(9);
    NobodyEncodes(1);
    DecodeUndoesEncode(Nobody(9));
    DecodeUndoesEncode(Nobody(1));
    var s := NewStore(Some(Encoding(Nobody(9)).value), temporary);
    var t;
    steps, t := PutInPlace(s, Nobody(1));
    hide Encoding, Decoding, Run;
  }

  // ---------------------------------------------------------------- what the answers say about the file

  /**
   At rest, the file is the newest submission exactly when it is committed, or was put in place
   and only the directory sync failed, or nothing has been put in place and the file held those
   very bytes to begin with.
   */
  lemma NewestInPlaceIff(s: Store)
    requires Inv(s) && Idle(s) && s.submitted != []
    ensures var newest := s.submitted[|s.submitted| - 1];
            (s.path.Some? && Encoding(newest) == Ok(s.path.value))
              <==> (AllCommitted(s) || s.notSynced == Some(newest)
                    || (s.onDisk.None? && s.original.Some? && Encoding(newest) == Ok(s.original.value)))
  {
    var newest := s.submitted[|s.submitted| - 1];
    if s.onDisk.Some? {
      OnDiskIsNewest(s);
      if s.path.Some? && Encoding(newest) == Ok(s.path.value) {
        DecodeUndoesEncode(newest);
        DecodeUndoesEncode(s.onDisk.value);
      }
      assert AllCommitted(s) || s.notSynced == Some(newest) <==> s.onDisk.value == newest;
    } else {
      NothingPlaced(s);
    }
    hide Encoding, Decoding;
  }

  /** Once something has been loaded or put in place, or there was no file, the last case cannot arise. */
  lemma NewestInPlaceIffPlaced(s: Store)
    requires Inv(s) && Idle(s) && s.submitted != [] && (s.onDisk.Some? || s.original.None?)
    ensures var newest := s.submitted[|s.submitted| - 1];
            s.path.Some? && Encoding(newest) == Ok(s.path.value) <==> AllCommitted(s) || s.notSynced == Some(newest)
  {
    NewestInPlaceIff(s);
    hide Encoding, Inv;
  }

  lemma OnDiskIsNewest(s: Store)
    requires Inv(s) && Idle(s) && s.submitted != [] && s.onDisk.Some?
    ensures var newest := s.submitted[|s.submitted| - 1];
            s.onDisk.value == newest <==> AllCommitted(s) || s.notSynced == Some(newest)
  {
    LastIsGreatest(s.submitted);
    hide Encoding;
    var i :| 0 <= i < |s.submitted| && s.submitted[i] == s.onDisk.value;
  }

  lemma NothingPlaced(s: Store)
    requires Inv(s) && s.submitted != [] && s.onDisk.None?
    ensures !AllCommitted(s) && s.notSynced != Some(s.submitted[|s.submitted| - 1]) && s.path == s.original
  {
    LastIsGreatest(s.submitted);
    hide Encoding;
  }

  /** A flush can answer false although the file is the newest submission: the rename is done, the directory sync failed. */
  lemma FlushDoubtsANewFile(s: Store, c: ServerRecord) returns (steps: seq<Step>, t: Store)
    requires Stopped(s) && s.controller.Free? && Encoding(c).Ok? && c.generation > s.lastSubmitted
        && s.lastCommitted <= s.lastSubmitted
    ensures t == Next(Run(s, steps), FlushCheck) && Enabled(Run(s, steps), FlushCheck) && Idle(t) && t.controller.Free?
    ensures t.submitted == s.submitted + [c] && !AllCommitted(t) && t.notSynced == Some(c)
    ensures t.path == Some(Encoding(c).value)
  {
    steps, t := PutInPlace(s, c);
    FlushFails(t, c);
    hide Run, Encoding, Next;
    steps, t := Then(s, steps, t, SyncDirectory(false));
    steps, t := Then(s, steps, t, Report);
    steps, t := Then(s, steps, t, FlushBegin);
    t := Next(t, FlushCheck);
  }

  lemma FlushFails(s: Store, c: ServerRecord)
    requires s.writer == SyncingDirectory(c) && s.controller.Free? && s.pending.None?
    ensures var t := Next(Next(Next(s, SyncDirectory(false)), Report), FlushBegin);
            && t == s.(writer := Announcing, writing := false, lastFailed := c.generation, notSynced := Some(c),
              controller := FlushReady)
            && Enabled(t, FlushCheck) && Next(t, FlushCheck) == t.(controller := Free)
  {
    var failed := s.(writer := Reporting(c, false), notSynced := Some(c));
    assert Next(s, SyncDirectory(false)) == failed;
    assert Next(failed, Report) == failed.(writer := Announcing, writing := false, lastFailed := c.generation);
    hide Reloaded, Submitted, Opened, Wrote, Took, Reported;
  }

  // ---------------------------------------------------------------- when a load forgets a number

  /**
   A load takes its number from the file. For a stopped store that has put something in place it goes
   below the last submitted number exactly when the newest submission never got to the file.
   */
  lemma LoadForgetsIff(s: Store)
    requires Inv(s) && Stopped(s) && s.controller.Free? && s.onDisk.Some?
    ensures s.submitted != []
    ensures Next(s, Load(true)).lastSubmitted < s.lastSubmitted
       <==> !AllCommitted(s) && s.notSynced != Some(s.submitted[|s.submitted| - 1])
  {
    SubmittedSomething(s);
    OnDiskIsNewest(s);
    PlacedGeneration(s);
    LoadedFromDisk(s);
    PlacedIsNewest(s);
    hide *;
  }

  lemma SubmittedSomething(s: Store)
    requires Inv(s) && s.onDisk.Some?
    ensures s.submitted != []
  {
    hide Encoding;
  }

  lemma LoadedFromDisk(s: Store)
    requires Inv(s) && Stopped(s) && s.controller.Free? && s.onDisk.Some?
    ensures Next(s, Load(true)).lastSubmitted == s.onDisk.value.generation
  {
    DecodeUndoesEncode(s.onDisk.value);
    hide Encoding, Decoding;
  }

  lemma PlacedIsNewest(s: Store)
    requires Inv(s) && s.onDisk.Some? && s.submitted != []
    ensures s.onDisk.value.generation <= s.lastSubmitted
    ensures s.onDisk.value.generation == s.lastSubmitted <==> s.onDisk.value == s.submitted[|s.submitted| - 1]
  {
    LastIsGreatest(s.submitted);
    hide Encoding;
    var i :| 0 <= i < |s.submitted| && s.submitted[i] == s.onDisk.value;
  }

  /** The rest of a commit that succeeds. */
  lemma Commit(s: Store, c: ServerRecord) returns (steps: seq<Step>, t: Store)
    requires Stopped(s) && s.controller.Free? && c.generation > s.lastSubmitted && Encoding(c).Ok?
    ensures t == Run(s, steps) && t.started && !t.stopping && Idle(t) && t.controller.Free? && t.writer.Ready?
    ensures t.path == Some(Encoding(c).value) && t.lastSubmitted == t.lastCommitted == c.generation
  {
    steps, t := PutInPlace(s, c);
    CommitEnds(t, c);
    hide Run, Encoding, Next;
    steps, t := Then(s, steps, t, SyncDirectory(true));
    steps, t := Then(s, steps, t, Report);
    steps, t := Then(s, steps, t, NotifyIdle);
  }

  lemma CommitEnds(s: Store, c: ServerRecord)
    requires s.writer == SyncingDirectory(c) && s.controller.Free? && s.pending.None?
    ensures Next(Next(Next(s, SyncDirectory(true)), Report), NotifyIdle)
         == s.(writer := Ready, writing := false, lastCommitted := c.generation, committed := s.committed + [c])
  {
    hide Encoding, Reloaded, Submitted, Opened, Wrote, Took;
    var placed := s.(writer := Reporting(c, true));
    assert Next(s, SyncDirectory(true)) == placed;
    assert Next(placed, Report) == Reported(placed);
  }

  /** A submission whose temporary file cannot be opened, and a stop after it. */
  lemma FailAndStop(s: Store, c: ServerRecord) returns (steps: seq<Step>, t: Store)
    requires s.started && !s.stopping && Idle(s) && s.controller.Free? && s.writer.Ready? && c.generation > s.lastSubmitted
    ensures t == Run(s, steps) && Stopped(t) && t.controller.Free?
    ensures t.path == s.path && t.lastSubmitted == c.generation && t.lastCommitted == s.lastCommitted
  {
    SubmissionFails(s, c);
    StopsEmpty(s.(lastSubmitted := c.generation, submitted := s.submitted + [c], lastFailed := c.generation));
    hide Run, Encoding, Next;
    RunNothing(s);
    steps, t := [], s;
    steps, t := Then(s, steps, t, Submit(c));
    steps, t := Then(s, steps, t, NotifyTask);
    steps, t := Then(s, steps, t, Take);
    steps, t := Then(s, steps, t, OpenTemporary(false));
    steps, t := Then(s, steps, t, Report);
    steps, t := Then(s, steps, t, NotifyIdle);
    steps, t := Then(s, steps, t, StopBegin);
    steps, t := Then(s, steps, t, NotifyTask);
    steps, t := Then(s, steps, t, Take);
    steps, t := Then(s, steps, t, NotifyIdle);
    steps, t := Then(s, steps, t, StopEnd);
  }

  lemma SubmissionFails(s: Store, c: ServerRecord)
    requires s.started && !s.stopping && Idle(s) && s.controller.Free? && s.writer.Ready? && c.generation > s.lastSubmitted
    ensures Next(Next(Next(Next(Next(Next(s, Submit(c)), NotifyTask), Take), OpenTemporary(false)), Report), NotifyIdle)
         == s.(lastSubmitted := c.generation, submitted := s.submitted + [c], lastFailed := c.generation)
  {
    SubmissionTaken(s, c);
    var took := s.(lastSubmitted := c.generation, submitted := s.submitted + [c], writer := Taken(c), writing := true);
    hide Encoding, Reloaded, Submitted, Wrote, Took;
    var refused := took.(writer := Reporting(c, false));
    assert Next(took, OpenTemporary(false)) == refused;
    assert Next(refused, Report) == refused.(writer := Announcing, writing := false, lastFailed := c.generation);
  }

  lemma SubmissionTaken(s: Store, c: ServerRecord)
    requires s.started && !s.stopping && Idle(s) && s.controller.Free? && s.writer.Ready? && c.generation > s.lastSubmitted
    ensures Next(Next(Next(s, Submit(c)), NotifyTask), Take)
         == s.(lastSubmitted := c.generation, submitted := s.submitted + [c], writer := Taken(c), writing := true)
  {
    hide Encoding, Reloaded, Opened, Wrote, Reported;
    var given := s.(pending := Some(c), lastSubmitted := c.generation, controller := AfterSubmit, submitted := s.submitted + [c]);
    assert Next(s, Submit(c)) == given;
    assert Next(given, NotifyTask) == given.(controller := Free);
  }

  lemma StopsEmpty(s: Store)
    requires s.started && !s.stopping && Idle(s) && s.controller.Free? && s.writer.Ready?
    ensures Next(Next(Next(Next(Next(s, StopBegin), NotifyTask), Take), NotifyIdle), StopEnd)
         == s.(started := false, writer := NotRunning)
  {
    hide Encoding, Reloaded, Submitted, Opened, Wrote, Reported;
    var asked := s.(stopping := true, controller := AfterStop);
    assert Next(s, StopBegin) == asked;
    assert Next(asked, NotifyTask) == asked.(controller := Joining);
    assert Next(asked.(controller := Joining), Take) == asked.(controller := Joining, writer := Leaving);
    assert Next(asked.(controller := Joining, writer := Leaving), NotifyIdle) == asked.(controller := Joining, writer := Exited);
  }

  /**
   Number 1 is committed, number 2 is submitted and fails, the store is stopped and loads the file:
   number 2 is accepted a second time.
   */
  lemma NumberIsUsedTwice(temporary: Option<Bytes>) returns (before: seq<Step>, after: seq<Step>)
    ensures var s := Run(NewStore(None, temporary), before); s.lastSubmitted == 2 && s.lastCommitted == 1 && Stopped(s)
    ensures after == before + [Load(true), StartWriter]
    ensures var t := Run(NewStore(None, temporary), after);
            t.lastSubmitted == 1 && Enabled(t, Submit(Nobody(2))) && Next(t, Submit(Nobody(2))) == Submitted(t, Nobody(2))
            && Next(t, Submit(Nobody(2))).pending == Some(Nobody(2))
  {
    var s;
    before, s := CommitThenFail(NewStore(None, temporary), Nobody(1), Nobody(2));
    NobodyEncodes(1);
    DecodeUndoesEncode(Nobody(1));
    hide Run, Encoding, Decoding, Next;
    LoadedNumberOne(s);
    after := before + [Load(true), StartWriter];
    TwoMore(NewStore(None, temporary), before, Load(true), StartWriter);
  }

  lemma CommitThenFail(s: Store, c: ServerRecord, d: ServerRecord) returns (steps: seq<Step>, t: Store)
    requires Stopped(s) && s.controller.Free? && s.lastSubmitted < c.generation < d.generation && Encoding(c).Ok?
    ensures t == Run(s, steps) && Stopped(t) && t.controller.Free?
    ensures t.path == Some(Encoding(c).value) && t.lastSubmitted == d.generation && t.lastCommitted == c.generation
  {
    var first, s1 := Commit(s, c);
    hide Run, Encoding;
    var second;
    second, t := FailAndStop(s1, d);
    RunAgain(s, first, second);
    steps := first + second;
  }

  lemma TwoMore(s: Store, steps: seq<Step>, a: Step, b: Step)
    ensures Run(s, steps + [a, b]) == Next(Next(Run(s, steps), a), b)
  {
    hide Next;
    var one, t := Then(s, steps, Run(s, steps), a);
    var two, u := Then(s, one, t, b);
    assert steps + [a, b] == two;
  }

  lemma LoadedNumberOne(s: Store)
    requires Stopped(s) && s.controller.Free? && s.path.Some? && Decoding(s.path.value) == Ok(Nobody(1))
    ensures var t := Next(Next(s, Load(true)), StartWriter);
            && t.lastSubmitted == 1 && Enabled(t, Submit(Nobody(2)))
            && Next(t, Submit(Nobody(2))) == Submitted(t, Nobody(2)) && Next(t, Submit(Nobody(2))).pending == Some(Nobody(2))
  {
    hide Decoding;
  }

  lemma {:induction false} RunAgain(s: Store, a: seq<Step>, b: seq<Step>)
    ensures Run(Run(s, a), b) == Run(s, a + b)
  {
    if b == [] {
      assert a + b == a;
    } else {
      RunAgain(s, a, b[..|b| - 1]);
      assert (a + b)[..|a + b| - 1] == a + b[..|b| - 1];
      hide Next;
    }
  }
}
