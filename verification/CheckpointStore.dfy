/**
 The checkpoint store: one controller thread, one writer thread, a mutex and two condition
 variables. Each critical section and each system call is one step; the two threads take
 steps in any order. The file system is two files: the checkpoint and its temporary copy.
 `rename` replaces the checkpoint at once; a write may be partial and any call may fail.
 */
module CheckpointStores {
  import opened Common
  import opened Checkpoint
  import opened CheckpointFormat

  /** Where the writer thread is. */
  datatype Writer =
    | NotRunning
    | Ready
    | Parked
    | Taken(c: ServerRecord)
    | Writing(c: ServerRecord, data: Bytes, done: nat)
    | Syncing(c: ServerRecord, data: Bytes)
    | Closing(c: ServerRecord, data: Bytes)
    | Renaming(c: ServerRecord, data: Bytes)
    | SyncingDirectory(c: ServerRecord)
    | Reporting(c: ServerRecord, committed: bool)
    | Announcing
    | Leaving
    | Exited

  /** Where the controller thread is. */
  datatype Controller = Free | AfterSubmit | FlushReady | FlushParked | AfterStop | Joining

  /**
   The fields of the store, the file system, and a history: what has been submitted and committed
   since the last load, what was last put in place, and what was last put in place without its
   directory having been synced. A load starts the history anew.
   */
  datatype Store = Store(
    started: bool, stopping: bool, writing: bool, pending: Option<ServerRecord>,
    lastSubmitted: u64, lastCommitted: u64, lastFailed: u64,
    writer: Writer, controller: Controller,
    original: Option<Bytes>, path: Option<Bytes>, temporary: Option<Bytes>,
    submitted: seq<ServerRecord>, committed: seq<ServerRecord>, onDisk: Option<ServerRecord>, notSynced: Option<ServerRecord>)

  /** A store just built over whatever the file system holds. */
  function NewStore(original: Option<Bytes>, temporary: Option<Bytes>): Store {
    Store(false, false, false, None, 0, 0, 0, NotRunning, Free, original, original, temporary, [], [], None, None)
  }

  datatype Step =
    // the controller
    | Load(readable: bool) | StartWriter | Submit(record: ServerRecord) | NotifyTask
    | FlushBegin | FlushCheck | StopBegin | StopEnd
    // the writer
    | Take | OpenTemporary(ok: bool) | WriteSome(n: nat) | WriteFails | SyncTemporary(synced: bool)
    | CloseTemporary(closed: bool) | Rename(renamed: bool) | SyncDirectory(synced: bool) | Report | NotifyIdle
    // either may wake without cause
    | SpuriousWake

  // ---------------------------------------------------------------- the steps

  predicate Idle(s: Store) {
    s.pending.None? && !s.writing
  }

  predicate Stopped(s: Store) {
    !s.started && !s.stopping && Idle(s)
  }

  predicate Submittable(s: Store, c: ServerRecord) {
    s.started && !s.stopping && c.generation != 0 && c.generation > s.lastSubmitted
  }

  predicate Enabled(s: Store, step: Step) {
    match step
    case Load(_) => s.controller.Free?
    case StartWriter => s.controller.Free?
    case Submit(_) => s.controller.Free?
    case NotifyTask => s.controller.AfterSubmit? || s.controller.AfterStop?
    case FlushBegin => s.controller.Free?
    case FlushCheck => s.controller.FlushReady?
    case StopBegin => s.controller.Free? && s.started
    case StopEnd => s.controller.Joining? && s.writer.Exited?
    case Take => s.writer.Ready?
    case OpenTemporary(_) => s.writer.Taken?
    case WriteSome(n) => s.writer.Writing? && 0 < n <= |s.writer.data| - s.writer.done
    case WriteFails => s.writer.Writing? && s.writer.done < |s.writer.data|
    case SyncTemporary(_) => s.writer.Syncing?
    case CloseTemporary(_) => s.writer.Closing?
    case Rename(_) => s.writer.Renaming?
    case SyncDirectory(_) => s.writer.SyncingDirectory?
    case Report => s.writer.Reporting?
    case NotifyIdle => s.writer.Announcing? || s.writer.Leaving?
    case SpuriousWake => s.writer.Parked? || s.controller.FlushParked?
  }

  /** `load`: the file is read whole and decoded; the numbers continue from what it holds. */
  ghost function Reloaded(s: Store, readable: bool): Store {
    if !Stopped(s) || !readable || s.path.None? || Decoding(s.path.value).Err? then s
    else
      var c := Decoding(s.path.value).value;
      s.(lastSubmitted := c.generation, lastCommitted := c.generation,
         submitted := [c], committed := [c], onDisk := Some(c), notSynced := None)
  }

  function Submitted(s: Store, c: ServerRecord): Store {
    if !Submittable(s, c) then s
    else s.(pending := Some(c), lastSubmitted := c.generation, controller := AfterSubmit, submitted := s.submitted + [c])
  }

  /** What the writer does with the mutex held at the top of its loop. */
  function Took(s: Store): Store {
    if s.pending.Some? then s.(writer := Taken(s.pending.value), pending := None, writing := true)
    else if s.stopping then s.(writer := Leaving)
    else s.(writer := Parked)
  }

  function Failed(s: Store, c: ServerRecord): Store {
    s.(writer := Reporting(c, false), temporary := None)
  }

  ghost function Opened(s: Store, ok: bool): Store
    requires s.writer.Taken?
  {
    var c := s.writer.c;
    if Encoding(c).Err? || !ok then s.(writer := Reporting(c, false))
    else s.(writer := Writing(c, Encoding(c).value, 0), temporary := Some([]))
  }

  function Wrote(s: Store, n: nat): Store
    requires s.writer.Writing? && 0 < n <= |s.writer.data| - s.writer.done
  {
    var Writing(c, data, done) := s.writer;
    s.(writer := if done + n == |data| then Syncing(c, data) else Writing(c, data, done + n), temporary := Some(data[..done + n]))
  }

  function Reported(s: Store): Store
    requires s.writer.Reporting?
  {
    var Reporting(c, committed) := s.writer;
    if committed then s.(writer := Announcing, writing := false, lastCommitted := c.generation, committed := s.committed + [c])
    else s.(writer := Announcing, writing := false, lastFailed := c.generation)
  }

  ghost function Next(s: Store, step: Step): Store {
    if !Enabled(s, step) then s
    else
      match step
      case Load(readable) => Reloaded(s, readable)
      case StartWriter => if s.started || s.stopping || !Idle(s) then s else s.(started := true, writer := Ready)
      case Submit(c) => Submitted(s, c)
      case NotifyTask =>
        s.(controller := if s.controller.AfterSubmit? then Free else Joining,
           writer := if s.writer.Parked? then Ready else s.writer)
      case FlushBegin => s.(controller := FlushReady)
      case FlushCheck => s.(controller := if Idle(s) then Free else FlushParked)
      case StopBegin => s.(stopping := true, controller := AfterStop)
      case StopEnd => s.(started := false, stopping := false, writing := false, writer := NotRunning, controller := Free)
      case Take => Took(s)
      case OpenTemporary(ok) => Opened(s, ok)
      case WriteSome(n) => Wrote(s, n)
      case WriteFails => Failed(s, s.writer.c)
      case SyncTemporary(synced) => if synced then s.(writer := Closing(s.writer.c, s.writer.data)) else Failed(s, s.writer.c)
      case CloseTemporary(closed) => if closed then s.(writer := Renaming(s.writer.c, s.writer.data)) else Failed(s, s.writer.c)
      case Rename(renamed) =>
        if renamed then s.(writer := SyncingDirectory(s.writer.c), path := s.temporary, temporary := None,
          onDisk := Some(s.writer.c))
        else Failed(s, s.writer.c)
      case SyncDirectory(synced) =>
        s.(writer := Reporting(s.writer.c, synced), notSynced := if synced then s.notSynced else Some(s.writer.c))
      case Report => Reported(s)
      case NotifyIdle =>
        s.(writer := if s.writer.Announcing? then Ready else Exited,
           controller := if s.controller.FlushParked? then FlushReady else s.controller)
      case SpuriousWake =>
        s.(writer := if s.writer.Parked? then Ready else s.writer,
           controller := if s.controller.FlushParked? then FlushReady else s.controller)
  }

  ghost function Run(s: Store, steps: seq<Step>): Store {
    if steps == [] then s else Next(Run(s, steps[..|steps| - 1]), steps[|steps| - 1])
  }

  // ---------------------------------------------------------------- what every interleaving keeps

  ghost predicate Increasing(cs: seq<ServerRecord>) {
    && (forall i :: 0 <= i < |cs| ==> cs[i].generation != 0)
    && (forall i, j :: 0 <= i < j < |cs| ==> cs[i].generation < cs[j].generation)
  }

  function LastGeneration(cs: seq<ServerRecord>): u64 {
    if cs == [] then 0 else cs[|cs| - 1].generation
  }

  function GenerationOf(c: Option<ServerRecord>): u64 {
    if c.None? then 0 else c.value.generation
  }

  function InFlight(w: Writer): Option<ServerRecord> {
    match w
    case Taken(c) => Some(c)
    case Writing(c, _, _) => Some(c)
    case Syncing(c, _) => Some(c)
    case Closing(c, _) => Some(c)
    case Renaming(c, _) => Some(c)
    case SyncingDirectory(c) => Some(c)
    case Reporting(c, _) => Some(c)
    case _ => None
  }

  /** Submitted and committed generations only grow, and what is committed was submitted. */
  ghost predicate HistoryOk(
      submitted: seq<ServerRecord>, committed: seq<ServerRecord>, lastSubmitted: u64, lastCommitted: u64)
  {
    && Increasing(submitted) && lastSubmitted == LastGeneration(submitted)
    && Increasing(committed) && lastCommitted == LastGeneration(committed)
    && forall c :: c in committed ==> c in submitted
  }

  /** The slot holds the newest submission, which is newer than what is in flight and what is on disk. */
  ghost predicate PendingOk(
      pending: Option<ServerRecord>, submitted: seq<ServerRecord>, inFlight: Option<ServerRecord>,
      onDisk: Option<ServerRecord>)
  {
    pending.Some? ==>
      && submitted != [] && pending.value == submitted[|submitted| - 1]
      && GenerationOf(onDisk) < pending.value.generation
      && GenerationOf(inFlight) < pending.value.generation
  }

  /** What is in flight was submitted and is newer than what is committed, and than the disk until renamed. */
  ghost predicate InFlightOk(
      writer: Writer, submitted: seq<ServerRecord>, lastCommitted: u64, onDisk: Option<ServerRecord>)
  {
    InFlight(writer).Some? ==>
      var c := InFlight(writer).value;
      && c in submitted && lastCommitted < c.generation
      && (if writer.SyncingDirectory? || (writer.Reporting? && writer.committed) then onDisk == Some(c)
          else if writer.Reporting? then GenerationOf(onDisk) <= c.generation
          else GenerationOf(onDisk) < c.generation)
  }

  /** The checkpoint file is untouched, or the complete encoding of a submitted checkpoint. */
  ghost predicate DiskOk(
      onDisk: Option<ServerRecord>, path: Option<Bytes>, original: Option<Bytes>, submitted: seq<ServerRecord>)
  {
    && (onDisk.None? ==> path == original)
    && (onDisk.Some? ==> onDisk.value in submitted && Encoding(onDisk.value).Ok? && path == Some(Encoding(onDisk.value).value))
  }

  /** The file is in place and nobody has been told yet. */
  predicate JustRenamed(w: Writer) {
    w.SyncingDirectory? || (w.Reporting? && w.committed)
  }

  /** What is on disk is committed, or about to be, or its directory sync failed. */
  predicate SyncOk(notSynced: Option<ServerRecord>, onDisk: Option<ServerRecord>, lastCommitted: u64, renamed: bool) {
    && GenerationOf(notSynced) <= GenerationOf(onDisk)
    && (onDisk.Some? ==> onDisk.value.generation == lastCommitted || notSynced == onDisk || renamed)
  }

  /** The temporary file holds what has been written so far. */
  ghost predicate TemporaryOk(writer: Writer, temporary: Option<Bytes>) {
    match writer
    case Writing(c, data, done) => Encoding(c) == Ok(data) && done < |data| && temporary == Some(data[..done])
    case Syncing(c, data) => Encoding(c) == Ok(data) && temporary == Some(data)
    case Closing(c, data) => Encoding(c) == Ok(data) && temporary == Some(data)
    case Renaming(c, data) => Encoding(c) == Ok(data) && temporary == Some(data)
    case _ => true
  }

  /** Whatever was submitted last is waiting, in flight, committed or reported as failed. */
  ghost predicate AnsweredOk(
      submitted: seq<ServerRecord>, pending: Option<ServerRecord>, inFlight: Option<ServerRecord>, lastCommitted: u64,
      lastFailed: u64)
  {
    submitted != [] && pending.None? ==>
      var newest := submitted[|submitted| - 1];
      if inFlight.Some? then inFlight.value == newest
      else lastCommitted == newest.generation || lastFailed == newest.generation
  }

  ghost predicate FlagsOk(s: Store) {
    && (s.started <==> !s.writer.NotRunning?)
    && (s.writing <==> InFlight(s.writer).Some?)
    && (!s.started ==> s.pending.None? && !s.stopping)
    && (s.stopping <==> s.controller.AfterStop? || s.controller.Joining?)
    && (s.writer.Leaving? || s.writer.Exited? ==> s.stopping && s.pending.None?)
    && (s.controller.AfterSubmit? ==> s.started)
  }

  /** Whoever sleeps has nothing to do, or somebody is about to wake it. */
  ghost predicate WakeupsOk(s: Store) {
    && (s.writer.Parked? && (s.stopping || s.pending.Some?) ==> s.controller.AfterSubmit? || s.controller.AfterStop?)
    && (s.controller.FlushParked? && Idle(s) ==> s.writer.Announcing? || s.writer.Leaving?)
  }

  ghost predicate Inv(s: Store) {
    && HistoryOk(s.submitted, s.committed, s.lastSubmitted, s.lastCommitted)
    && PendingOk(s.pending, s.submitted, InFlight(s.writer), s.onDisk)
    && InFlightOk(s.writer, s.submitted, s.lastCommitted, s.onDisk)
    && DiskOk(s.onDisk, s.path, s.original, s.submitted)
    && s.lastCommitted <= GenerationOf(s.onDisk)
    && SyncOk(s.notSynced, s.onDisk, s.lastCommitted, JustRenamed(s.writer))
    && TemporaryOk(s.writer, s.temporary)
    && AnsweredOk(s.submitted, s.pending, InFlight(s.writer), s.lastCommitted, s.lastFailed)
    && FlagsOk(s) && WakeupsOk(s)
  }

  lemma NewStoreOk(original: Option<Bytes>, temporary: Option<Bytes>)
    ensures Inv(NewStore(original, temporary))
  {
  }

  lemma EncodingIsNotEmpty(c: ServerRecord)
    requires Encoding(c).Ok?
    ensures |Encoding(c).value| > 0
  {
    assert MAGIC <= Encoding(c).value;
  }

  lemma LoadKeeps(s: Store, readable: bool)
    requires Inv(s)
    ensures Inv(Next(s, Load(readable)))
  {
    hide Encoding, Decoding;
    if Enabled(s, Load(readable)) && s.path.Some? && Decoding(s.path.value).Ok? {
      EncodeUndoesDecode(s.path.value);
      DecodedGeneration(s.path.value);
    }
  }

  lemma DecodedGeneration(d: Bytes)
    requires Decoding(d).Ok?
    ensures Decoding(d).value.generation != 0
  {
    hide ValidKeys;
  }

  lemma LastIsGreatest(cs: seq<ServerRecord>)
    requires Increasing(cs)
    ensures forall c :: c in cs ==> 0 < c.generation <= LastGeneration(cs)
  {
  }

  /** Everything on disk or in flight was submitted, so a newer submission is newer than both. */
  lemma NewestOk(s: Store, c: ServerRecord)
    requires Inv(s) && c.generation > s.lastSubmitted
    ensures GenerationOf(s.onDisk) < c.generation && GenerationOf(InFlight(s.writer)) < c.generation
  {
    LastIsGreatest(s.submitted);
    hide Encoding, TemporaryOk, FlagsOk, WakeupsOk, Increasing;
  }

  lemma SubmitKeeps(s: Store, c: ServerRecord)
    requires Inv(s)
    ensures Inv(Next(s, Submit(c)))
  {
    if Submittable(s, c) {
      NewestOk(s, c);
      SubmitKeepsHistory(s.submitted, s.committed, s.lastSubmitted, s.lastCommitted, c);
    }
    hide Encoding, Decoding, TemporaryOk, HistoryOk;
  }

  /** While the writer is busy, moving on changes no flag and wakes nobody. */
  lemma BusyFlags(s: Store, t: Store)
    requires FlagsOk(s) && WakeupsOk(s) && InFlight(s.writer).Some? && InFlight(t.writer).Some?
    requires t.started == s.started && t.stopping == s.stopping && t.writing == s.writing
    requires t.pending == s.pending && t.controller == s.controller
    ensures FlagsOk(t) && WakeupsOk(t)
  {
  }

  lemma OpenKeeps(s: Store, ok: bool)
    requires Inv(s)
    ensures Inv(Next(s, OpenTemporary(ok)))
  {
    if s.writer.Taken? {
      var t := Opened(s, ok);
      assert Next(s, OpenTemporary(ok)) == t;
      hide Next, Enabled;
      OpenedWriter(s, ok);
      hide Encoding, Decoding, HistoryOk, DiskOk, PendingOk, AnsweredOk, TemporaryOk, SyncOk, Opened;
      BusyFlags(s, t);
      hide FlagsOk, WakeupsOk;
      assert InFlightOk(t.writer, t.submitted, t.lastCommitted, t.onDisk);
      hide InFlightOk;
    }
  }

  lemma OpenedWriter(s: Store, ok: bool)
    requires s.writer.Taken?
    ensures var t, c := Opened(s, ok), s.writer.c;
            && TemporaryOk(t.writer, t.temporary)
            && t == s.(writer := t.writer, temporary := t.temporary)
            && (t.writer == Reporting(c, false) || (t.writer.Writing? && t.writer.c == c))
  {
    if Encoding(s.writer.c).Ok? {
      EncodingIsNotEmpty(s.writer.c);
    }
    hide Encoding;
  }

  lemma WriteKeeps(s: Store, step: Step)
    requires Inv(s) && (step.WriteSome? || step.WriteFails? || step.SyncTemporary? || step.CloseTemporary?)
    ensures Inv(Next(s, step))
  {
    if Enabled(s, step) {
      var t := Next(s, step);
      WrittenWriter(s, step);
      hide Encoding, Next, Enabled, HistoryOk, DiskOk, PendingOk, AnsweredOk, TemporaryOk, SyncOk;
      BusyFlags(s, t);
      hide FlagsOk, WakeupsOk;
      assert InFlightOk(t.writer, t.submitted, t.lastCommitted, t.onDisk);
      hide InFlightOk;
    }
  }

  lemma WrittenWriter(s: Store, step: Step)
    requires TemporaryOk(s.writer, s.temporary) && Enabled(s, step)
    requires step.WriteSome? || step.WriteFails? || step.SyncTemporary? || step.CloseTemporary?
    ensures var t := Next(s, step);
            && TemporaryOk(t.writer, t.temporary)
            && t == s.(writer := t.writer, temporary := t.temporary)
            && InFlight(t.writer) == InFlight(s.writer) && !t.writer.SyncingDirectory?
              && (t.writer.Reporting? ==> !t.writer.committed)
  {
    hide Encoding, Decoding;
    if s.writer.Writing? {
      assert s.writer.data[..|s.writer.data|] == s.writer.data;
    }
  }

  lemma RenameKeeps(s: Store, renamed: bool)
    requires Inv(s)
    ensures Inv(Next(s, Rename(renamed)))
  {
    if s.writer.Renaming? {
      var t := Next(s, Rename(renamed));
      RenamedStore(s, renamed);
      if renamed { RenamedDisk(s); }
      hide Encoding, Next, Enabled, HistoryOk, DiskOk, PendingOk, AnsweredOk;
      BusyFlags(s, t);
      hide FlagsOk, WakeupsOk;
      assert SyncOk(t.notSynced, t.onDisk, t.lastCommitted, JustRenamed(t.writer));
      hide SyncOk;
      assert InFlightOk(t.writer, t.submitted, t.lastCommitted, t.onDisk);
      hide InFlightOk;
    }
  }

  lemma RenamedStore(s: Store, renamed: bool)
    requires s.writer.Renaming?
    ensures Next(s, Rename(renamed))
         == if renamed then s.(writer := SyncingDirectory(s.writer.c), path := s.temporary, temporary := None,
           onDisk := Some(s.writer.c))
            else s.(writer := Reporting(s.writer.c, false), temporary := None)
  {
  }

  lemma RenamedDisk(s: Store)
    requires Inv(s) && s.writer.Renaming?
    ensures var c := s.writer.c;
            && DiskOk(Some(c), s.temporary, s.original, s.submitted)
            && PendingOk(s.pending, s.submitted, Some(c), Some(c))
  {
    hide Encoding, HistoryOk, AnsweredOk, FlagsOk, WakeupsOk;
  }

  lemma SyncDirectoryKeeps(s: Store, synced: bool)
    requires Inv(s)
    ensures Inv(Next(s, SyncDirectory(synced)))
  {
    hide Encoding, Decoding, Reloaded, Submitted, Opened, Wrote, Took, Reported;
    if s.writer.SyncingDirectory? {
      var c := s.writer.c;
      var t := s.(writer := Reporting(c, synced), notSynced := if synced then s.notSynced else Some(c));
      assert Next(s, SyncDirectory(synced)) == t;
      hide Encoding, Next, Enabled, HistoryOk, DiskOk, PendingOk, AnsweredOk;
      BusyFlags(s, t);
      hide FlagsOk, WakeupsOk;
      assert TemporaryOk(t.writer, t.temporary);
      hide TemporaryOk;
      assert SyncOk(t.notSynced, t.onDisk, t.lastCommitted, JustRenamed(t.writer));
      hide SyncOk;
    }
  }

  lemma ReportKeeps(s: Store)
    requires Inv(s)
    ensures Inv(Next(s, Report))
  {
    if s.writer.Reporting? {
      assert Next(s, Report) == Reported(s);
      hide Next, Enabled;
      ReportedHistory(s);
      ReportedFlags(s);
      hide Encoding, HistoryOk, DiskOk, PendingOk, AnsweredOk, FlagsOk, WakeupsOk, Reported;
    }
  }

  lemma ReportedHistory(s: Store)
    requires Inv(s) && s.writer.Reporting?
    ensures var t := Reported(s);
            && HistoryOk(t.submitted, t.committed, t.lastSubmitted, t.lastCommitted)
            && PendingOk(t.pending, t.submitted, InFlight(t.writer), t.onDisk)
            && AnsweredOk(t.submitted, t.pending, InFlight(t.writer), t.lastCommitted, t.lastFailed)
            && t.lastCommitted <= GenerationOf(t.onDisk)
  {
    hide Encoding, HistoryOk, DiskOk, FlagsOk, WakeupsOk, TemporaryOk;
    if s.writer.committed {
      CommitKeepsHistory(s.submitted, s.committed, s.lastSubmitted, s.lastCommitted, s.writer.c);
    }
  }

  lemma ReportedFlags(s: Store)
    requires FlagsOk(s) && WakeupsOk(s) && s.writer.Reporting?
    ensures var t := Reported(s);
            && FlagsOk(t) && WakeupsOk(t) && t.writer.Announcing?
            && t.onDisk == s.onDisk && t.path == s.path && t.original == s.original && t.submitted == s.submitted
  {
  }

  lemma CommitKeepsHistory(
      submitted: seq<ServerRecord>, committed: seq<ServerRecord>, lastSubmitted: u64, lastCommitted: u64,
      c: ServerRecord)
    requires HistoryOk(submitted, committed, lastSubmitted, lastCommitted) && c in submitted && lastCommitted < c.generation
    ensures HistoryOk(submitted, committed + [c], lastSubmitted, c.generation)
  {
  }

  lemma SubmitKeepsHistory(
      submitted: seq<ServerRecord>, committed: seq<ServerRecord>, lastSubmitted: u64, lastCommitted: u64,
      c: ServerRecord)
    requires HistoryOk(submitted, committed, lastSubmitted, lastCommitted) && lastSubmitted < c.generation
    ensures HistoryOk(submitted + [c], committed, c.generation, lastCommitted)
    ensures forall e :: e in submitted ==> e in submitted + [c]
  {
  }

  lemma TakeKeeps(s: Store)
    requires Inv(s)
    ensures Inv(Next(s, Take))
  {
    if s.writer.Ready? {
      assert Next(s, Take) == Took(s);
      hide Next, Enabled, Encoding, HistoryOk, DiskOk;
      if s.pending.Some? {
        HistoryBelowSlot(s);
        TookPending(s);
      } else {
        hide AnsweredOk, PendingOk;
        assert PendingOk(None, s.submitted, None, s.onDisk) by { EmptySlotOk(s); }
      }
    }
  }

  lemma EmptySlotOk(s: Store)
    ensures PendingOk(None, s.submitted, None, s.onDisk)
  {
  }

  lemma TookPending(s: Store)
    requires Inv(s) && s.writer.Ready? && s.pending.Some?
    requires s.lastCommitted < s.pending.value.generation && s.pending.value in s.submitted
    ensures var t := Took(s);
            && PendingOk(t.pending, t.submitted, InFlight(t.writer), t.onDisk)
            && InFlightOk(t.writer, t.submitted, t.lastCommitted, t.onDisk)
            && AnsweredOk(t.submitted, t.pending, InFlight(t.writer), t.lastCommitted, t.lastFailed)
  {
    hide Encoding, HistoryOk, DiskOk, TemporaryOk, WakeupsOk;
  }

  lemma HistoryBelowSlot(s: Store)
    requires Inv(s) && s.pending.Some?
    ensures s.lastCommitted < s.pending.value.generation && s.pending.value in s.submitted
  {
    hide Encoding;
  }

  /** The remaining steps move nothing but flags. */
  lemma SignalKeeps(s: Store, step: Step)
    requires Inv(s)
    requires step.StartWriter? || step.NotifyTask? || step.FlushBegin? || step.FlushCheck? || step.StopBegin? || step.StopEnd?
          || step.NotifyIdle? || step.SpuriousWake?
    ensures Inv(Next(s, step))
  {
    hide Encoding, Decoding, HistoryOk, DiskOk, PendingOk;
  }

  lemma NextKeeps(s: Store, step: Step)
    requires Inv(s)
    ensures Inv(Next(s, step))
  {
    hide Inv, Next;
    match step
    case Load(readable) => LoadKeeps(s, readable);
    case Submit(c) => SubmitKeeps(s, c);
    case Take => TakeKeeps(s);
    case OpenTemporary(ok) => OpenKeeps(s, ok);
    case WriteSome(_) => WriteKeeps(s, step);
    case WriteFails => WriteKeeps(s, step);
    case SyncTemporary(_) => WriteKeeps(s, step);
    case CloseTemporary(_) => WriteKeeps(s, step);
    case Rename(renamed) => RenameKeeps(s, renamed);
    case SyncDirectory(synced) => SyncDirectoryKeeps(s, synced);
    case Report => ReportKeeps(s);
    case _ => SignalKeeps(s, step);
  }

  lemma {:induction false} RunKeeps(s: Store, steps: seq<Step>)
    requires Inv(s)
    ensures Inv(Run(s, steps))
  {
    if steps != [] {
      RunKeeps(s, steps[..|steps| - 1]);
      NextKeeps(Run(s, steps[..|steps| - 1]), steps[|steps| - 1]);
    }
  }

  // ---------------------------------------------------------------- what a caller may rely on

  /** What `flush` and `stop` answer once nothing is waiting or in flight. */
  predicate AllCommitted(s: Store) {
    s.lastSubmitted == s.lastCommitted
  }

  /** True after a submission means the file is exactly the last submitted checkpoint. */
  lemma TrueMeansOnDisk(s: Store)
    requires Inv(s) && AllCommitted(s) && s.submitted != []
    ensures var newest := s.submitted[|s.submitted| - 1];
            s.path.Some? && Encoding(newest) == Ok(s.path.value) && Decoding(s.path.value) == Ok(newest)
  {
    var newest := s.submitted[|s.submitted| - 1];
    LastIsGreatest(s.submitted);
    assert s.onDisk.Some? && s.onDisk.value in s.submitted;
    assert s.onDisk.value == newest by {
      hide Encoding;
      var i :| 0 <= i < |s.submitted| && s.submitted[i] == s.onDisk.value;
    }
    DecodeUndoesEncode(newest);
    hide Encoding, Decoding;
  }

  /** False, on the other hand, means that the last submission was tried and failed. */
  lemma FalseMeansFailed(s: Store)
    requires Inv(s) && Idle(s) && !AllCommitted(s)
    ensures s.lastFailed == s.lastSubmitted
  {
    hide Encoding;
  }

  /** Both are asked only when nothing is waiting or in flight; `stop` joins a writer that left an empty slot. */
  lemma AnswersComeWhenIdle(s: Store, step: Step)
    requires Inv(s) && Enabled(s, step)
    ensures step.FlushCheck? && Next(s, step).controller.Free? ==> Idle(s)
    ensures step.StopEnd? ==> Idle(s)
  {
    hide Encoding, Decoding;
  }

  /** Wherever the process dies, the file is what it was or a whole checkpoint that was submitted. */
  lemma CrashLeavesAWholeFile(s: Store)
    requires Inv(s)
    ensures s.path == s.original
        || (s.onDisk.Some? && s.onDisk.value in s.submitted && s.path.Some? && Decoding(s.path.value) == Ok(s.onDisk.value))
  {
    if s.onDisk.Some? {
      DecodeUndoesEncode(s.onDisk.value);
    }
    hide Encoding, Decoding;
  }

  // ---------------------------------------------------------------- nobody waits for ever

  predicate WriterStep(step: Step) {
    step.Take? || step.OpenTemporary? || step.WriteSome? || step.WriteFails? || step.SyncTemporary? || step.CloseTemporary?
    || step.Rename? || step.SyncDirectory? || step.Report? || step.NotifyIdle?
  }

  ghost function Size(c: ServerRecord): nat {
    if Encoding(c).Ok? then |Encoding(c).value| else 0
  }

  ghost function WriterWork(w: Writer): nat
    requires w.Writing? ==> w.done <= |w.data|
  {
    match w
    case NotRunning => 0
    case Parked => 0
    case Exited => 0
    case Leaving => 1
    case Ready => 2
    case Announcing => 3
    case Reporting(_, _) => 4
    case SyncingDirectory(_) => 5
    case Renaming(_, _) => 6
    case Closing(_, _) => 7
    case Syncing(_, _) => 8
    case Writing(_, data, done) => 9 + |data| - done
    case Taken(c) => 10 + Size(c)
  }

  /** How much the writer has before it. */
  ghost function Work(s: Store): nat
    requires s.writer.Writing? ==> s.writer.done <= |s.writer.data|
  {
    WriterWork(s.writer) + if s.pending.Some? then 10 + Size(s.pending.value) else 0
  }

  /** Whichever step the writer takes, whatever the system calls answer, less remains to be done. */
  lemma WriterMakesProgress(s: Store, step: Step)
    requires Inv(s) && Enabled(s, step) && WriterStep(step)
    ensures Inv(Next(s, step)) && Work(Next(s, step)) < Work(s)
  {
    NextKeeps(s, step);
    if step.Take? {
      TakeMakesProgress(s);
    } else if step.OpenTemporary? {
      OpenMakesProgress(s, step.ok);
    } else {
      OthersMakeProgress(s, step);
    }
    hide Encoding, Decoding, HistoryOk, PendingOk, InFlightOk, DiskOk, AnsweredOk, FlagsOk, WakeupsOk, Next, Enabled;
    hide Size;
  }

  lemma TakeMakesProgress(s: Store)
    requires s.writer.Ready?
    ensures !Next(s, Take).writer.Writing? && Work(Next(s, Take)) < Work(s)
  {
    hide Size;
  }

  lemma OthersMakeProgress(s: Store, step: Step)
    requires Enabled(s, step) && WriterStep(step) && !step.Take? && !step.OpenTemporary?
    ensures var w := Next(s, step).writer;
            && Next(s, step).pending == s.pending && (w.Writing? ==> w.done <= |w.data|)
            && WriterWork(w) < WriterWork(s.writer)
  {
    hide Encoding, Decoding, Reloaded, Submitted, Took, Opened, Size;
    match step
    case WriteSome(n) => assert Next(s, step) == Wrote(s, n);
    case Report => assert Next(s, step) == Reported(s);
    case _ =>
  }

  lemma OpenMakesProgress(s: Store, ok: bool)
    requires s.writer.Taken?
    ensures var w := Next(s, OpenTemporary(ok)).writer;
            && Next(s, OpenTemporary(ok)).pending == s.pending && (w.Writing? ==> w.done <= |w.data|)
            && WriterWork(w) < WriterWork(s.writer)
  {
    hide Encoding;
  }

  /** While the controller is blocked, the writer is awake and can step, or the controller is about to be released. */
  lemma BlockedControllerIsServed(s: Store) returns (step: Step)
    requires Inv(s) && (s.controller.FlushParked? || s.controller.Joining?)
    ensures Enabled(s, step) && (WriterStep(step) || step.StopEnd?)
  {
    hide Encoding, HistoryOk, PendingOk, InFlightOk, DiskOk, AnsweredOk;
    match s.writer
    case Ready => step := Take;
    case Taken(_) => step := OpenTemporary(true);
    case Writing(_, _, _) => step := WriteFails;
    case Syncing(_, _) => step := SyncTemporary(true);
    case Closing(_, _) => step := CloseTemporary(true);
    case Renaming(_, _) => step := Rename(true);
    case SyncingDirectory(_) => step := SyncDirectory(true);
    case Reporting(_, _) => step := Report;
    case Announcing => step := NotifyIdle;
    case Leaving => step := NotifyIdle;
    case Exited => step := StopEnd;
    case NotRunning => assert false;
    case Parked => assert false;
  }
}
