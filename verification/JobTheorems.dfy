/** What the job protocol promises in every run, with every crash, fault and interleaving. */
module JobTheorems {
  import opened Wrappers
  import opened JobDisk
  import opened JobProtocol
  import opened JobInvariant
  import opened JobPreserved

  lemma AnyJob(s: State, id: Id)
    requires Reachable(s) && id in s.cells
    ensures CellOk(id, s.cells[id], EraOf(s.lock), id in Unloaded(s.lock), Grip(s.lock, id))
  {
    ReachableKeeps(s);
    assert JobOk(s, id);
  }

  /** The request's time, the upload and the produced content of a job are fixed once known, and acceptance is final. */
  predicate SameHistory(a: Cell, b: Cell) {
    && a.born == b.born && a.upload == b.upload
    && (a.produced.Some? ==> a.produced == b.produced)
    && (a.accepted ==> b.accepted) && (a.swept ==> b.swept) && (a.unread ==> b.unread)
  }

  lemma CreatorsKeepHistory(id: Id, c: Cell, draining: bool, step: CreatorStep)
    ensures SameHistory(c, CreatorCell(id, c, draining, step)) && CreatorCell(id, c, draining, step).swept == c.swept
    ensures CreatorCell(id, c, draining, step).unread == c.unread
      && CreatorCell(id, c, draining, step).produced == c.produced
  {
  }

  lemma RunnersKeepHistory(id: Id, c: Cell, s: State, step: RunnerStep)
    requires RunnerReady(c, s, step) && RunnerOk(id, c)
    ensures SameHistory(c, RunnerCell(c, s, step)) && RunnerCell(c, s, step).swept == c.swept
    ensures RunnerCell(c, s, step).unread == c.unread
    ensures RunnerCell(c, s, step).produced == c.produced
      || (step.Mask? && step.outcome.Ok? && RunnerCell(c, s, step).produced == Some(step.outcome.value))
  {
  }

  lemma FileStepsKeepHistory(c: Cell, lock: Lock, step: DiskStep)
    requires Held(lock) && DiskReady(c, lock, step)
    ensures SameHistory(c, DiskCell(c, lock, step)) && DiskCell(c, lock, step).swept == c.swept
    ensures DiskCell(c, lock, step).unread == c.unread && DiskCell(c, lock, step).produced == c.produced
  {
    hide DirAfter;
  }

  lemma AStepKeepsHistory(s: State, step: Step, id: Id)
    requires Reachable(s) && Enabled(s, step) && id in s.cells
    ensures id in Do(s, step).cells && SameHistory(s.cells[id], Do(s, step).cells[id])
    ensures Do(s, step).cells[id].swept != s.cells[id].swept
            ==> step == SweepJob(id) && Due(s.cells[id], s.lock.cutoff)
    ensures !(step.LoadJob? && step.id == id) ==> Do(s, step).cells[id].unread == s.cells[id].unread
    ensures Do(s, step).cells[id].produced == s.cells[id].produced
            || (step.OfRunner? && step.id == id && step.runner.Mask? && step.runner.outcome.Ok?
                && Do(s, step).cells[id].produced == Some(step.runner.outcome.value))
  {
    AnyJob(s, id);
    hide MemOk, DiskOk, CreatorOk, GripOk, EraOk, OwnerOk;
    if step.OfCreator? && step.id == id {
      CreatorsKeepHistory(id, s.cells[id], s.draining, step.creator);
    } else if step.OfRunner? && step.id == id {
      RunnersKeepHistory(id, s.cells[id], s, step.runner);
    } else if step.OfDisk? && s.lock.id == id {
      FileStepsKeepHistory(s.cells[id], s.lock, step.disk);
    } else {
      OtherStepsKeepHistory(s, step, id);
    }
  }

  lemma OtherStepsKeepHistory(s: State, step: Step, id: Id)
    requires Enabled(s, step) && id in s.cells
    requires !(step.OfCreator? && step.id == id) && !(step.OfRunner? && step.id == id)
      && !(step.OfDisk? && s.lock.id == id)
    ensures id in Do(s, step).cells && SameHistory(s.cells[id], Do(s, step).cells[id])
    ensures Do(s, step).cells[id].swept != s.cells[id].swept
            ==> step == SweepJob(id) && Due(s.cells[id], s.lock.cutoff)
    ensures !(step.LoadJob? && step.id == id) ==> Do(s, step).cells[id].unread == s.cells[id].unread
    ensures Do(s, step).cells[id].produced == s.cells[id].produced
  {
    hide RunnerCell, RunnerReady, DiskCell, DiskReady, CreatorCell, CreatorReady, Restored;
  }

  // ---------------------------------------------------------------- what a step does to one job

  /** The job a step works on, if it works on one. */
  function ActorOf(s: State, step: Step): Option<Id> {
    match step
    case Arrive(id, _, _) => Some(id)
    case OfCreator(id, _) => Some(id)
    case OfRunner(id, _) => Some(id)
    case OfDisk(_) => if Held(s.lock) then Some(s.lock.id) else None
    case SweepJob(id) => Some(id)
    case LoadJob(id, _) => Some(id)
    case _ => None
  }

  lemma OthersStay(s: State, step: Step, id: Id)
    requires Enabled(s, step) && !step.Crash? && ActorOf(s, step) != Some(id)
    ensures id in Do(s, step).cells <==> id in s.cells
    ensures id in s.cells ==> Do(s, step).cells[id] == s.cells[id]
  {
    hide RunnerCell, RunnerReady, DiskCell, DiskReady, CreatorCell, CreatorReady, LoadedCell;
  }

  predicate NoRequest(c: Cell) {
    c.creator.None? || c.creator == Some(Undoing)
  }

  /** The entry of a job stays, or its status moves on. */
  predicate MemMovesOn(a: Option<Job>, b: Option<Job>) {
    a == b || (a.Some? && b.Some? && MayFollow(a.value.record.status, b.value.record.status))
  }

  lemma CreatorsAndMemory(id: Id, c: Cell, lock: Lock, draining: bool, step: CreatorStep)
    requires CreatorReady(c, lock, step) && CreatorOk(id, c) && OwnerOk(c)
    ensures
      var d := CreatorCell(id, c, draining, step);
      && (MemMovesOn(c.mem, d.mem) || (step.Store? && c.mem.None? && d.mem.Some?))
      && !NoRequest(c)
      && (c.dir.None? && d.dir.Some? ==> step == MakeDir(true) && !c.accepted)
  {
  }

  lemma RunnersAndMemory(id: Id, c: Cell, s: State, step: RunnerStep)
    requires RunnerReady(c, s, step) && RunnerOk(id, c) && DiskOk(id, c)
    ensures
      var d := RunnerCell(c, s, step);
      MemMovesOn(c.mem, d.mem) && d.creator == c.creator && (c.dir.None? ==> d.dir.None?)
  {
    hide RecordOk, StoredRecordOk;
  }

  lemma FilesAndMemory(id: Id, c: Cell, lock: Lock, step: DiskStep)
    requires Held(lock) && DiskReady(c, lock, step)
    requires GripOk(c, Some(lock)) && CreatorOk(id, c) && RunnerOk(id, c) && DiskOk(id, c)
    ensures
      var d := DiskCell(c, lock, step);
      && (d.mem == c.mem || (d.mem.None? && NoRequest(d)))
      && (NoRequest(c) ==> NoRequest(d))
      && (c.dir.None? ==> d.dir.None?)
  {
  }

  // ---------------------------------------------------------------- ownership

  predicate Unfinished(c: Cell) {
    c.mem.Some? && !c.mem.value.record.status.Terminal()
  }

  /** Registered, with a Save that will finish the job still to come. */
  predicate RunnerOwns(c: Cell) {
    match c.runner
    case None => false
    case Some(Releasing) => false
    case Some(Leaving) => false
    case Some(Saving(_, next)) => next.ThenMask?
    case Some(_) => true
  }

  /** Inside CreateJob, between the entry in memory and a registered runner or the interrupted record. */
  predicate CreatorOwns(c: Cell) {
    c.creator == Some(Creating) || c.creator == Some(Accepted) || c.creator == Some(Declined)
  }

  /** A stored job is queued or running iff somebody will finish it, and never two. */
  lemma UnfinishedIffOwned(s: State, id: Id)
    requires Reachable(s) && id in s.cells
    ensures Unfinished(s.cells[id]) <==> RunnerOwns(s.cells[id]) || CreatorOwns(s.cells[id])
    ensures !(RunnerOwns(s.cells[id]) && CreatorOwns(s.cells[id]))
  {
    AnyJob(s, id);
  }

  /** An entry appears in memory only through Create or a start; no Save brings one back. */
  lemma OnlyCreateAndLoadAddJobs(s: State, step: Step, id: Id)
    requires Reachable(s) && Enabled(s, step) && id in Do(s, step).cells
    ensures Do(s, step).cells[id].mem.Some? && (id !in s.cells || s.cells[id].mem.None?)
            ==> step == OfCreator(id, Store) || (step.LoadJob? && step.id == id)
  {
    ActorsAndMemory(s, step, id);
  }

  /** A directory appears only through the upload that created the job; no write of a record or result brings one
      back. */
  lemma OnlyUploadsMakeDirectories(s: State, step: Step, id: Id)
    requires Reachable(s) && Enabled(s, step) && id in Do(s, step).cells
    ensures Do(s, step).cells[id].dir.Some? && (id !in s.cells || s.cells[id].dir.None?)
            ==> step == OfCreator(id, MakeDir(true))
  {
    ActorsAndMemory(s, step, id);
  }

  /** What any step does to the entry, the directory and the request of any job. */
  lemma ActorsAndMemory(s: State, step: Step, id: Id)
    requires Reachable(s) && Enabled(s, step) && id in Do(s, step).cells
    ensures
      var d := Do(s, step).cells[id];
      if id !in s.cells then d.mem.None? && d.dir.None? && !d.accepted
      else
        var c := s.cells[id];
        && (MemMovesOn(c.mem, d.mem)
            || (c.mem.None? && (step == OfCreator(id, Store) || (step.LoadJob? && step.id == id)))
            || (d.mem.None? && (NoRequest(d) || step.Crash?)))
        && (NoRequest(c) ==> NoRequest(d))
        && (c.dir.None? && d.dir.Some? ==> step == OfCreator(id, MakeDir(true)) && !c.accepted)
  {
    if id in s.cells {
      AnyJob(s, id);
      var c := s.cells[id];
      hide CellOk, RunnerCell, DiskCell, CreatorCell, Restored;
      if !step.Crash? && ActorOf(s, step) != Some(id) {
        OthersStay(s, step, id);
      } else if step.OfCreator? {
        CreatorsAndMemory(id, c, s.lock, s.draining, step.creator);
      } else if step.OfRunner? {
        RunnersAndMemory(id, c, s, step.runner);
      } else if step.OfDisk? {
        FilesAndMemory(id, c, s.lock, step.disk);
      }
    }
  }

  /** An accepted job that is neither in memory nor on disk. */
  predicate Removed(s: State, id: Id) {
    id in s.cells && s.cells[id].accepted && s.cells[id].mem.None? && s.cells[id].dir.None?
  }

  lemma AStepKeepsARemovedJobRemoved(s: State, step: Step, id: Id)
    requires Reachable(s) && Enabled(s, step) && Removed(s, id)
    ensures Removed(Do(s, step), id)
  {
    AStepKeepsHistory(s, step, id);
    ActorsAndMemory(s, step, id);
    AnyJob(s, id);
    hide Do, DiskOk, RunnerOk, GripOk, EraOk;
  }

  lemma AStepIsReachable(s: State, step: Step)
    requires Reachable(s) && Enabled(s, step)
    ensures Reachable(Do(s, step))
  {
    hide Enabled, Do;
    var capacity: nat, steps: seq<Step> :|
      capacity > 0 && Legal(Start(capacity), steps) && RunOf(Start(capacity), steps) == s;
    ARunGoesOn(Start(capacity), steps, step);
  }

  lemma {:induction false} ARunGoesOn(s: State, steps: seq<Step>, step: Step)
    requires Legal(s, steps) && Enabled(RunOf(s, steps), step)
    ensures Legal(s, steps + [step]) && RunOf(s, steps + [step]) == Do(RunOf(s, steps), step)
    decreases |steps|
  {
    hide Enabled, Do;
    if steps == [] {
      assert steps + [step] == [step];
      assert [step][1..] == [];
    } else {
      assert (steps + [step])[1..] == steps[1..] + [step];
      ARunGoesOn(Do(s, steps[0]), steps[1..], step);
    }
  }

  /** Once a job is gone no later step, save, crash or restart brings any of it back. */
  lemma {:induction false} RemovedJobsStayRemoved(s: State, steps: seq<Step>, id: Id)
    requires Reachable(s) && Legal(s, steps) && Removed(s, id)
    ensures Removed(RunOf(s, steps), id)
    decreases |steps|
  {
    hide Enabled, Do, Removed, Reachable;
    if steps != [] {
      AStepKeepsARemovedJobRemoved(s, steps[0], id);
      AStepIsReachable(s, steps[0]);
      RemovedJobsStayRemoved(Do(s, steps[0]), steps[1..], id);
    }
  }

  // ---------------------------------------------------------------- life of a status

  /** Within a process a record stays or moves on in its life; a finished record never changes. */
  lemma StatusMovesForward(s: State, step: Step, id: Id)
    requires Reachable(s) && Enabled(s, step) && id in s.cells
    requires id in Do(s, step).cells && s.cells[id].mem.Some? && Do(s, step).cells[id].mem.Some?
    ensures
      var a, b := s.cells[id].mem.value.record, Do(s, step).cells[id].mem.value.record;
      a == b || MayFollow(a.status, b.status)
  {
    ActorsAndMemory(s, step, id);
  }

  /** Where a process can still be with a job whose record it has shown: at that record, beyond it, or rid of it. */
  predicate IsPast(s: State, id: Id, r: Record) {
    && EraOf(s.lock) == Serving && id in s.cells
    && match s.cells[id].mem
       case Some(job) => Precedes(r, job.record)
       case None => NoRequest(s.cells[id])
  }

  lemma AStepNeverGoesBack(s: State, step: Step, id: Id, r: Record)
    requires Reachable(s) && Enabled(s, step) && !step.Crash? && IsPast(s, id, r)
    ensures IsPast(Do(s, step), id, r)
  {
    AServingProcessGoesOn(s, step);
    AStepKeepsHistory(s, step, id);
    ActorsAndMemory(s, step, id);
    hide Do, Reachable;
  }

  lemma AServingProcessGoesOn(s: State, step: Step)
    requires Enabled(s, step) && EraOf(s.lock) == Serving && !step.Crash?
    ensures EraOf(Do(s, step).lock) == Serving
  {
  }

  /** In a whole run of one process a job never goes back in its life, and never comes back once dropped. */
  lemma {:induction false} AProcessNeverGoesBack(s: State, steps: seq<Step>, id: Id, r: Record)
    requires Reachable(s) && Legal(s, steps) && Crash !in steps && IsPast(s, id, r)
    ensures IsPast(RunOf(s, steps), id, r)
    decreases |steps|
  {
    hide Enabled, Do, Reachable, IsPast;
    if steps != [] {
      AStepNeverGoesBack(s, steps[0], id, r);
      AStepIsReachable(s, steps[0]);
      AProcessNeverGoesBack(Do(s, steps[0]), steps[1..], id, r);
    }
  }

  // ---------------------------------------------------------------- results

  /** What a lookup would offer for download: a completed job whose result path is known and whose file exists. */
  predicate Offered(c: Cell) {
    && c.mem.Some? && c.mem.value.record.status.Completed? && c.mem.value.hasOutput
    && c.dir.Some? && !c.dir.value.output.Absent?
  }

  /** A file offered for download is the whole of what masking produced, never a leftover or a part. */
  lemma OfferedResultsAreComplete(s: State, id: Id)
    requires Reachable(s) && id in s.cells && Offered(s.cells[id])
    ensures s.cells[id].produced.Some? && s.cells[id].dir.value.output == Whole(s.cells[id].produced.value)
  {
    AnyJob(s, id);
  }

  /** A job shown as completed has its whole result on disk unless a sweep or an unreadable record began its removal. */
  lemma CompletedJobsKeepTheirResult(s: State, id: Id)
    requires Reachable(s) && id in s.cells && !Gone(s.cells[id])
    requires s.cells[id].mem.Some? && s.cells[id].mem.value.record.status.Completed?
    ensures s.cells[id].produced.Some? && s.cells[id].dir.Some?
    ensures s.cells[id].dir.value.output == Whole(s.cells[id].produced.value)
  {
    AnyJob(s, id);
  }

  /** Masking works on exactly the bytes that were uploaded, and at most once for a job. */
  lemma MaskingReadsTheWholeUpload(s: State, id: Id, outcome: Result<Bytes, string>, now: Time)
    requires Reachable(s) && Enabled(s, OfRunner(id, Mask(outcome, now)))
    ensures s.cells[id].runner.value.input == s.cells[id].upload && s.cells[id].produced.None?
    ensures outcome.Ok? ==> Do(s, OfRunner(id, Mask(outcome, now))).cells[id].produced == Some(outcome.value)
  {
    AnyJob(s, id);
  }

  /** A lookup by the job's own runner never misses. */
  lemma RunnersFindTheirJob(s: State, id: Id)
    requires Reachable(s) && id in s.cells && s.cells[id].runner.Some?
    requires s.cells[id].runner.value.Granted? || s.cells[id].runner.value.Refused?
    ensures s.cells[id].mem == Some(QueuedJob(id, s.cells[id]))
    ensures s.cells[id].dir.Some? && s.cells[id].dir.value.input == Whole(s.cells[id].upload)
  {
    AnyJob(s, id);
  }

  // ---------------------------------------------------------------- durability

  /** An accepted job has its whole record on disk in every state, crashed or not, and every process that finished
      starting shows it, unless a sweep began to remove it or a start could not read its record. */
  lemma AcceptedJobsAreDurable(s: State, id: Id)
    requires Reachable(s) && id in s.cells && s.cells[id].accepted && !Gone(s.cells[id])
    ensures s.cells[id].dir.Some? && s.cells[id].dir.value.record.Whole?
    ensures s.cells[id].dir.value.record.value.id == id
    ensures EraOf(s.lock) == Serving ==> s.cells[id].mem.Some?
  {
    AnyJob(s, id);
  }

  /** A start shows a job whose record is on disk exactly when it can read the record, and removes it exactly when
      not. */
  lemma AStartKeepsAJobIff(s: State, id: Id, sight: Sight)
    requires Reachable(s) && Enabled(s, LoadJob(id, sight)) && s.cells[id].dir.value.record.Whole?
    ensures Do(s, LoadJob(id, sight)).cells[id].mem.Some? <==> sight.readsRecord
    ensures Do(s, LoadJob(id, sight)).lock.Removing? <==> !sight.readsRecord
    ensures Do(s, LoadJob(id, sight)).cells[id].unread <==> s.cells[id].unread || !sight.readsRecord
  {
    AnyJob(s, id);
  }

  /** What a start shows of a record it can read: the same job with the same times, an unfinished one as failed because
      it was interrupted, and the path of each file that is there and was listed, of the result only if completed. */
  lemma AStartShowsTheRecord(s: State, id: Id, sight: Sight)
    requires Reachable(s) && Enabled(s, LoadJob(id, sight)) && s.cells[id].dir.value.record.Whole? && sight.readsRecord
    ensures Do(s, LoadJob(id, sight)).cells[id].mem.Some?
    ensures
      var d, was, job := s.cells[id].dir.value, RecordFile(s.cells[id].dir).value,
        Do(s, LoadJob(id, sight)).cells[id].mem.value;
      && (job.hasInput <==> sight.listsInput && d.input != Absent)
      && (job.hasOutput <==> was.status == Completed && sight.listsOutput && d.output != Absent)
      && job.record.id == id && job.record.createdAt == was.createdAt && job.record.updatedAt == was.updatedAt
      && job.record.downloadUrl == ""
      && (if was.status == Completed || was.status == Failed
          then job.record.status == was.status && job.record.error == was.error
          else job.record.status == Failed && job.record.error == Some("job_interrupted"))
  {
    AnyJob(s, id);
  }

  /** So in every run a job counts as unread only after a start that could not read its whole record. */
  lemma OnlyUnreadableRecordsAreLost(s: State, step: Step, id: Id)
    requires Reachable(s) && Enabled(s, step) && id in s.cells && !s.cells[id].unread
    ensures id in Do(s, step).cells
    ensures Do(s, step).cells[id].unread
            <==> step.LoadJob? && step.id == id && RecordFile(s.cells[id].dir).Whole? && !step.sight.readsRecord
  {
    AStepKeepsHistory(s, step, id);
    if step.LoadJob? && step.id == id {
      AnyJob(s, id);
    } else {
      hide CellOk, Restored;
    }
  }

  /** A sweep begins to remove a job only when it is finished and past the cutoff. */
  lemma OnlyExpiredJobsAreSwept(s: State, step: Step, id: Id)
    requires Reachable(s) && Enabled(s, step) && id in s.cells && id in Do(s, step).cells
    requires !s.cells[id].swept && Do(s, step).cells[id].swept
    ensures s.lock.Sweeping? && step == SweepJob(id)
    ensures s.cells[id].mem.Some? && Expired(s.cells[id].mem.value, s.lock.cutoff)
    ensures !RunnerOwns(s.cells[id]) && !CreatorOwns(s.cells[id])
  {
    UnfinishedIffOwned(s, id);
    AStepKeepsHistory(s, step, id);
    hide Do, Reachable, RunnerOwns, CreatorOwns;
  }

  function RecordFile(dir: Option<Dir>): File<Record> {
    DirOrEmpty(dir).record
  }

  lemma WritesReplaceRecordsWhole(c: Cell, lock: Lock, step: DiskStep)
    requires Held(lock) && DiskReady(c, lock, step)
    requires lock.Persisting? ==> PhaseOk(c, lock.phase, lock.before)
    ensures
      var after := RecordFile(DiskCell(c, lock, step).dir);
      || after == RecordFile(c.dir)
      || (step == Rename(true) && c.mem.Some? && after == Whole(c.mem.value.record))
      || (lock.Removing? && after == Absent)
  {
  }

  lemma RunnersLeaveTheRecord(c: Cell, s: State, step: RunnerStep)
    requires RunnerReady(c, s, step)
    ensures RecordFile(RunnerCell(c, s, step).dir) == RecordFile(c.dir)
  {
  }

  /** In every step the record file stays, is replaced whole by the record in memory, or goes with its directory. */
  lemma RecordsAreReplacedWhole(s: State, step: Step, id: Id)
    requires Reachable(s) && Enabled(s, step) && id in s.cells
    ensures id in Do(s, step).cells
    ensures
      var before := RecordFile(s.cells[id].dir);
      var after := RecordFile(Do(s, step).cells[id].dir);
      || after == before
      || (step == OfDisk(Rename(true)) && s.lock.id == id && s.cells[id].mem.Some?
        && after == Whole(s.cells[id].mem.value.record))
      || (after == Absent && s.lock.Removing? && s.lock.id == id)
  {
    AnyJob(s, id);
    if step.OfDisk? && s.lock.id == id {
      hide CellOk;
      assert Grip(s.lock, id) == Some(s.lock);
      WritesReplaceRecordsWhole(s.cells[id], s.lock, step.disk);
    } else if step.OfRunner? && step.id == id {
      RunnersLeaveTheRecord(s.cells[id], s, step.runner);
    }
  }

  /** What is on disk moves forward as well, over every crash and restart. */
  lemma StoredStatusMovesForward(s: State, step: Step, id: Id)
    requires Reachable(s) && Enabled(s, step) && id in s.cells
    requires s.cells[id].dir.Some? && s.cells[id].dir.value.record.Whole?
    requires id in Do(s, step).cells && Do(s, step).cells[id].dir.Some? && Do(s, step).cells[id].dir.value.record.Whole?
    ensures Precedes(s.cells[id].dir.value.record.value, Do(s, step).cells[id].dir.value.record.value)
  {
    AnyJob(s, id);
    RecordsAreReplacedWhole(s, step, id);
    hide Do, Enabled, Reachable, MemOk, RunnerOk, CreatorOk, GripOk, EraOk;
  }

  /** The fault a write has met when it ends with this step. */
  function FaultOf(step: DiskStep): PersistFault {
    match step
    case MkDir(_) => NoDirectory
    case OpenTemp(_) => NotOpened
    case WriteTemp(_) => CutOff
    case CleanUp(removed) => NotRenamed(removed)
    case _ => NoFault
  }

  /** Operation by operation, a write does to the directory what the store's one-piece write does with the fault
      it met. */
  lemma WritesRefineTheStore(s: State, step: DiskStep)
    requires Reachable(s) && s.lock.Persisting? && Enabled(s, OfDisk(step)) && Ends(step).Some?
    ensures s.cells[s.lock.id].mem.Some?
    ensures (DirAfter(s.cells[s.lock.id], step), Ends(step).value)
            == Persisted(s.lock.before, s.cells[s.lock.id].mem.value.record, FaultOf(step))
    ensures Do(s, OfDisk(step)).cells[s.lock.id].dir == DirAfter(s.cells[s.lock.id], step)
  {
    AnyJob(s, s.lock.id);
  }

  // ---------------------------------------------------------------- slots and draining

  /** The slot channel holds one token for each runner between taking and giving back a slot. */
  lemma TokensAreTheHolders(s: State)
    requires Reachable(s)
    ensures s.tokens == |Holders(s)| && s.tokens <= s.capacity
  {
    ReachableKeeps(s);
  }

  lemma AReleaseNeverBlocks(s: State, id: Id)
    requires Reachable(s) && EraOf(s.lock) == Serving && id in s.cells && s.cells[id].runner == Some(Releasing)
    ensures Enabled(s, OfRunner(id, Release))
  {
    ReachableKeeps(s);
    HolderIsCounted(s, id);
  }

  /** Once Shutdown has returned, no runner is live and only a request still inside CreateJob holds an unfinished
      job. */
  lemma AfterShutdownNothingRuns(s: State, id: Id)
    requires Reachable(s) && s.stopped && id in s.cells
    ensures s.draining && s.cells[id].runner.None?
    ensures Unfinished(s.cells[id]) ==> CreatorOwns(s.cells[id])
  {
    ReachableKeeps(s);
    UnfinishedIffOwned(s, id);
  }

  /** After a stop no runner is ever registered again by this process. */
  lemma {:induction false} NoRunnerAfterShutdown(s: State, steps: seq<Step>)
    requires Reachable(s) && s.stopped && Legal(s, steps) && Crash !in steps
    ensures RunOf(s, steps).stopped && forall id :: id in RunOf(s, steps).cells ==>
      RunOf(s, steps).cells[id].runner.None?
    decreases |steps|
  {
    if steps == [] {
      ReachableKeeps(s);
    } else {
      assert Do(s, steps[0]).stopped;
      AStepIsReachable(s, steps[0]);
      NoRunnerAfterShutdown(Do(s, steps[0]), steps[1..]);
    }
  }

  // ---------------------------------------------------------------- timestamps

  lemma {:induction false} HistoryIsKept(s: State, steps: seq<Step>, id: Id)
    requires Reachable(s) && Legal(s, steps) && id in s.cells
    ensures Reachable(RunOf(s, steps)) && id in RunOf(s, steps).cells
    ensures SameHistory(s.cells[id], RunOf(s, steps).cells[id])
    decreases |steps|
  {
    hide Enabled, Do, Reachable;
    if steps != [] {
      AStepKeepsHistory(s, steps[0], id);
      AStepIsReachable(s, steps[0]);
      HistoryIsKept(Do(s, steps[0]), steps[1..], id);
    }
  }

  /** In a run whose starts can read the record of an accepted job, the job is lost only to a sweep: whatever else
      fails or crashes, at the end its whole record is on disk and a serving process shows it. */
  lemma {:induction false} ReadableJobsAreLostToSweepsOnly(s: State, steps: seq<Step>, id: Id)
    requires Reachable(s) && Legal(s, steps) && id in s.cells && s.cells[id].accepted && !s.cells[id].unread
    requires forall step :: step in steps && step.LoadJob? && step.id == id ==> step.sight.readsRecord
    ensures id in RunOf(s, steps).cells
    ensures
      var c := RunOf(s, steps).cells[id];
      !c.swept ==> c.dir.Some? && c.dir.value.record.Whole? && (EraOf(RunOf(s, steps).lock) == Serving ==> c.mem.Some?)
    decreases |steps|
  {
    hide Enabled, Do, Reachable;
    if steps == [] {
      if !s.cells[id].swept {
        AcceptedJobsAreDurable(s, id);
      }
    } else {
      assert steps[0] in steps;
      AStepKeepsHistory(s, steps[0], id);
      OnlyUnreadableRecordsAreLost(s, steps[0], id);
      AStepIsReachable(s, steps[0]);
      ReadableJobsAreLostToSweepsOnly(Do(s, steps[0]), steps[1..], id);
    }
  }

  /** Whenever a job is looked up, at the start or end of any run with any restarts, it was created at the same time. */
  lemma CreationTimeIsKept(s: State, steps: seq<Step>, id: Id)
    requires Reachable(s) && Legal(s, steps) && id in s.cells
    requires s.cells[id].mem.Some? && id in RunOf(s, steps).cells && RunOf(s, steps).cells[id].mem.Some?
    ensures RunOf(s, steps).cells[id].mem.value.record.createdAt == s.cells[id].mem.value.record.createdAt
  {
    hide Legal, RunOf, Reachable;
    HistoryIsKept(s, steps, id);
    AnyJob(s, id);
    AnyJob(RunOf(s, steps), id);
  }

  /** Crashes and starts only: no step happens while the service is serving, except that it dies. */
  predicate OnlyRestarts(s: State, steps: seq<Step>)
    decreases |steps|
  {
    steps != [] ==>
      && Enabled(s, steps[0]) && (EraOf(s.lock) != Serving || steps[0].Crash?)
      && OnlyRestarts(Do(s, steps[0]), steps[1..])
  }

  /** Nobody works for the job, and it was last updated at the given time as far as memory and disk know. */
  predicate AtRest(c: Cell, t: Time) {
    && c.runner.None? && c.creator.None?
    && (c.mem.Some? ==> c.mem.value.record.updatedAt == t)
    && (c.dir.Some? && c.dir.value.record.Whole? ==> c.dir.value.record.value.updatedAt == t)
  }

  lemma ARestartStepKeepsTheDeadline(s: State, step: Step, id: Id, t: Time)
    requires Reachable(s) && Enabled(s, step) && (EraOf(s.lock) != Serving || step.Crash?)
    requires id in s.cells && AtRest(s.cells[id], t)
    ensures id in Do(s, step).cells && AtRest(Do(s, step).cells[id], t)
  {
    AnyJob(s, id);
  }

  lemma {:induction false} RestartStepsKeepTheDeadline(s: State, steps: seq<Step>, id: Id, t: Time)
    requires Reachable(s) && Legal(s, steps) && OnlyRestarts(s, steps)
    requires id in s.cells && AtRest(s.cells[id], t)
    ensures Reachable(RunOf(s, steps)) && id in RunOf(s, steps).cells && AtRest(RunOf(s, steps).cells[id], t)
    decreases |steps|
  {
    hide Enabled, Do, Reachable, AtRest;
    if steps != [] {
      ARestartStepKeepsTheDeadline(s, steps[0], id, t);
      AStepIsReachable(s, steps[0]);
      RestartStepsKeepTheDeadline(Do(s, steps[0]), steps[1..], id, t);
    }
  }

  /** However often the service starts and dies again, even in the middle of a start, a job found on disk after a crash
      is due for deletion exactly when its record says, and is kept on disk with that time. */
  lemma RestartsKeepTheDeadline(s: State, steps: seq<Step>, id: Id, cutoff: Time)
    requires Reachable(s) && s.lock.Down? && Legal(s, steps) && OnlyRestarts(s, steps)
    requires id in s.cells && s.cells[id].dir.Some? && s.cells[id].dir.value.record.Whole?
    ensures id in RunOf(s, steps).cells
    ensures
      var t := s.cells[id].dir.value.record.value.updatedAt;
      var c := RunOf(s, steps).cells[id];
      && (c.mem.Some? ==> (Due(c, cutoff) <==> t < cutoff))
      && (c.dir.Some? && c.dir.value.record.Whole? ==> c.dir.value.record.value.updatedAt == t)
  {
    AnyJob(s, id);
    hide Legal, RunOf, OnlyRestarts, Reachable;
    RestartStepsKeepTheDeadline(s, steps, id, s.cells[id].dir.value.record.value.updatedAt);
    AnyJob(RunOf(s, steps), id);
  }
}
