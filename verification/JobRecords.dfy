/** Why a job has the status it has: every record in memory or on disk is explained by steps of the run. */
module JobRecords {
  import opened Wrappers
  import opened JobDisk
  import opened JobProtocol
  import opened JobInvariant
  import opened JobTheorems

  /** Some step of the job read the clock at this time. */
  predicate ClockWasRead(past: set<Step>, id: Id, t: Time) {
    exists step | step in past ::
      || (step.Arrive? && step.id == id && step.now == t)
      || (step.OfRunner? && step.id == id && step.runner.ReadInput? && step.runner.got.Some? && step.runner.now == t)
      || (step.OfRunner? && step.id == id && step.runner.Mask? && step.runner.outcome.Ok? && step.runner.now == t)
  }

  /** The masking of the job succeeded at this time. */
  predicate WasMasked(past: set<Step>, id: Id, t: Time) {
    exists step | step in past ::
      step.OfRunner? && step.id == id && step.runner.Mask? && step.runner.outcome.Ok? && step.runner.now == t
  }

  predicate WasRead(past: set<Step>, id: Id, t: Time) {
    exists step | step in past ::
      step.OfRunner? && step.id == id && step.runner.ReadInput? && step.runner.got.Some? && step.runner.now == t
  }

  predicate WasRestarted(past: set<Step>, id: Id) {
    exists step | step in past :: step.LoadJob? && step.id == id
  }

  predicate WasArrived(past: set<Step>, id: Id, t: Time) {
    exists step | step in past :: step.Arrive? && step.id == id && step.now == t
  }

  /** A queued job dates from its request, a running one from the reading of its upload or from its masking, a completed
      one from its masking with its result written. A failed one was interrupted before it ran, or by the end of its
      process; or its upload could not be read, or its masking failed with that error, or its result could not be
      written; and it dates from that, an interrupted process excepted, which leaves the time as it was. */
  predicate IsExplained(past: set<Step>, id: Id, r: Record) {
    && WasArrived(past, id, r.createdAt)
    && match r.status
       case Queued => r.error == None && r.updatedAt == r.createdAt
       case Running => r.error == None && (WasRead(past, id, r.updatedAt) || WasMasked(past, id, r.updatedAt))
       case Completed => r.error == None && WasMasked(past, id, r.updatedAt) && OfRunner(id, WriteOutput(true)) in past
       case Failed =>
         || (r.error == Some("job_interrupted")
             && (OfCreator(id, Interrupt(r.updatedAt)) in past || OfRunner(id, LookUpRefused(r.updatedAt)) in past))
         || (r.error == Some("job_interrupted") && WasRestarted(past, id) && ClockWasRead(past, id, r.updatedAt))
         || (r.error == Some("storage_read_failed") && OfRunner(id, ReadInput(None, r.updatedAt)) in past)
         || (r.error.Some? && OfRunner(id, Mask(Err(r.error.value), r.updatedAt)) in past)
         || (r.error == Some("storage_write_failed") && WasMasked(past, id, r.updatedAt)
             && (OfRunner(id, OpenOutput(false)) in past || OfRunner(id, WriteOutput(false)) in past))
  }

  predicate FileIsExplained(past: set<Step>, id: Id, f: File<Record>) {
    f.Whole? ==> IsExplained(past, id, f.value)
  }

  /** The record a runner carries; while it delivers, the record is the one its masking left. */
  predicate RunnerIsExplained(past: set<Step>, id: Id, runner: Option<Runner>) {
    match runner
    case Some(Fetched(job)) => IsExplained(past, id, job.record)
    case Some(WantSave(job, _)) => IsExplained(past, id, job.record)
    case Some(Saving(job, _)) => IsExplained(past, id, job.record)
    case Some(Masking(job, _)) => IsExplained(past, id, job.record)
    case Some(Delivering(job, _)) => IsExplained(past, id, job.record) && WasMasked(past, id, job.record.updatedAt)
    case Some(Writing(job, _)) => IsExplained(past, id, job.record) && WasMasked(past, id, job.record.updatedAt)
    case _ => true
  }

  predicate CellIsExplained(past: set<Step>, id: Id, c: Cell) {
    && WasArrived(past, id, c.born)
    && (c.mem.Some? ==> IsExplained(past, id, c.mem.value.record))
    && (c.dir.Some? ==> FileIsExplained(past, id, c.dir.value.record) && FileIsExplained(past, id, c.dir.value.temp))
    && RunnerIsExplained(past, id, c.runner)
  }

  lemma MorePast(past: set<Step>, step: Step, id: Id, c: Cell)
    requires CellIsExplained(past, id, c)
    ensures CellIsExplained(past + {step}, id, c)
  {
    MoreTimes(past, step, id);
    hide WasArrived, WasMasked, WasRead, ClockWasRead, WasRestarted;
  }

  lemma MoreTimes(past: set<Step>, step: Step, id: Id)
    ensures forall t :: WasArrived(past, id, t) ==> WasArrived(past + {step}, id, t)
    ensures forall t :: WasMasked(past, id, t) ==> WasMasked(past + {step}, id, t)
    ensures forall t :: WasRead(past, id, t) ==> WasRead(past + {step}, id, t)
    ensures forall t :: ClockWasRead(past, id, t) ==> ClockWasRead(past + {step}, id, t)
    ensures WasRestarted(past, id) ==> WasRestarted(past + {step}, id)
  {
  }

  lemma TimesAreClockReadings(past: set<Step>, id: Id, t: Time)
    ensures WasArrived(past, id, t) || WasMasked(past, id, t) || WasRead(past, id, t) ==> ClockWasRead(past, id, t)
  {
  }

  lemma CreatorsExplain(past: set<Step>, id: Id, c: Cell, draining: bool, step: CreatorStep)
    requires CellIsExplained(past, id, c)
    ensures CellIsExplained(past + {OfCreator(id, step)}, id, CreatorCell(id, c, draining, step))
  {
    MorePast(past, OfCreator(id, step), id, c);
    hide WasArrived, WasMasked, WasRead, ClockWasRead, WasRestarted;
  }

  lemma RunnersExplain(past: set<Step>, id: Id, c: Cell, s: State, step: RunnerStep)
    requires RunnerReady(c, s, step) && RunnerOk(id, c) && CellIsExplained(past, id, c)
    ensures CellIsExplained(past + {OfRunner(id, step)}, id, RunnerCell(c, s, step))
  {
    var now := past + {OfRunner(id, step)};
    MorePast(past, OfRunner(id, step), id, c);
    assert OfRunner(id, step) in now;
    assert step.ReadInput? && step.got.Some? ==> WasRead(now, id, step.now);
    assert step.Mask? && step.outcome.Ok? ==> WasMasked(now, id, step.now);
    hide WasArrived, WasMasked, WasRead, ClockWasRead, WasRestarted, CanRead;
  }

  lemma FilesAreExplained(past: set<Step>, id: Id, c: Cell, step: DiskStep)
    requires CellIsExplained(past, id, c) && (step == WriteTemp(true) ==> c.mem.Some?)
    ensures CellIsExplained(past, id, c.(dir := DirAfter(c, step)))
  {
    hide IsExplained, WasArrived;
  }

  lemma HoldersExplain(past: set<Step>, id: Id, c: Cell, saver: Saver, why: Remover, ok: bool)
    requires CellIsExplained(past, id, c)
    ensures CellIsExplained(past, id, SaverCell(c, saver, ok)) && CellIsExplained(past, id, RemoverCell(c, why, ok))
  {
    hide IsExplained, WasArrived, FileIsExplained, WasMasked;
  }

  lemma FileStepsExplain(past: set<Step>, id: Id, c: Cell, lock: Lock, step: DiskStep)
    requires Held(lock) && DiskReady(c, lock, step) && CellIsExplained(past, id, c)
    ensures CellIsExplained(past + {OfDisk(step)}, id, DiskCell(c, lock, step))
  {
    var now := past + {OfDisk(step)};
    MorePast(past, OfDisk(step), id, c);
    FilesAreExplained(now, id, c, step);
    var d := c.(dir := DirAfter(c, step));
    hide CellIsExplained, DirAfter, SaverCell, RemoverCell;
    if Ends(step).Some? {
      HoldersExplain(now, id, d, if lock.Persisting? then lock.saver else ByCreate,
        if lock.Removing? then lock.why else ForCreate, Ends(step).value);
    }
  }

  lemma StartsExplain(past: set<Step>, id: Id, c: Cell, sight: Sight)
    requires c.dir.Some? && CellIsExplained(past, id, c)
    ensures CellIsExplained(past + {LoadJob(id, sight)}, id, LoadedCell(id, c, sight))
  {
    var now := past + {LoadJob(id, sight)};
    MorePast(past, LoadJob(id, sight), id, c);
    assert LoadJob(id, sight) in now;
    assert WasRestarted(now, id);
    if c.dir.value.record.Whole? {
      TimesAreClockReadings(now, id, c.dir.value.record.value.updatedAt);
    }
    hide WasArrived, WasMasked, WasRead, ClockWasRead, WasRestarted;
  }

  lemma AStepExplains(past: set<Step>, s: State, step: Step, id: Id)
    requires Reachable(s) && Enabled(s, step) && id in s.cells && CellIsExplained(past, id, s.cells[id])
    ensures id in Do(s, step).cells && CellIsExplained(past + {step}, id, Do(s, step).cells[id])
  {
    var c := s.cells[id];
    AnyJob(s, id);
    MorePast(past, step, id, c);
    hide CellIsExplained;
    if !step.Crash? && ActorOf(s, step) != Some(id) {
      OthersStay(s, step, id);
    } else if step.OfCreator? {
      CreatorsExplain(past, id, c, s.draining, step.creator);
    } else if step.OfRunner? {
      RunnersExplain(past, id, c, s, step.runner);
    } else if step.OfDisk? {
      FileStepsExplain(past, id, c, s.lock, step.disk);
    } else if step.LoadJob? {
      StartsExplain(past, id, c, step.sight);
    } else {
      ForgettingExplains(past + {step}, id, c, s.lock);
    }
  }

  lemma ForgettingExplains(past: set<Step>, id: Id, c: Cell, lock: Lock)
    requires CellIsExplained(past, id, c)
    ensures CellIsExplained(past, id, Crashed(c))
    ensures lock.Sweeping? ==> CellIsExplained(past, id, SweepCell(c, lock))
  {
  }

  lemma NewJobsAreExplained(past: set<Step>, s: State, step: Step, id: Id)
    requires Enabled(s, step) && id !in s.cells && id in Do(s, step).cells
    ensures CellIsExplained(past + {step}, id, Do(s, step).cells[id])
  {
    hide RunnerCell, RunnerReady, DiskCell, CreatorCell, CreatorReady, LoadedCell, CanRead;
    assert step in past + {step};
  }

  function StepsOf(steps: seq<Step>): set<Step> {
    set step | step in steps
  }

  lemma {:induction false} RunsExplain(past: set<Step>, s: State, steps: seq<Step>, id: Id)
    requires Reachable(s) && Legal(s, steps) && (id in s.cells ==> CellIsExplained(past, id, s.cells[id]))
    ensures id in RunOf(s, steps).cells ==> CellIsExplained(past + StepsOf(steps), id, RunOf(s, steps).cells[id])
    decreases |steps|
  {
    hide Enabled, Do, Reachable, CellIsExplained;
    if steps == [] {
      assert past + StepsOf(steps) == past;
    } else {
      if id in s.cells {
        AStepExplains(past, s, steps[0], id);
      } else if id in Do(s, steps[0]).cells {
        NewJobsAreExplained(past, s, steps[0], id);
      }
      AStepIsReachable(s, steps[0]);
      RunsExplain(past + {steps[0]}, Do(s, steps[0]), steps[1..], id);
      assert past + {steps[0]} + StepsOf(steps[1..]) == past + StepsOf(steps);
    }
  }

  /** In every run, with every crash and fault, every record in memory and on disk is explained by steps of the run. */
  lemma EveryRecordIsExplained(capacity: nat, steps: seq<Step>, id: Id)
    requires capacity > 0 && Legal(Start(capacity), steps) && id in RunOf(Start(capacity), steps).cells
    ensures
      var c := RunOf(Start(capacity), steps).cells[id];
      && (c.mem.Some? ==> IsExplained(StepsOf(steps), id, c.mem.value.record))
      && (c.dir.Some? && c.dir.value.record.Whole? ==> IsExplained(StepsOf(steps), id, c.dir.value.record.value))
  {
    var s := Start(capacity);
    assert Legal(s, []) && RunOf(s, []) == s;
    assert Reachable(s);
    hide Legal, RunOf, Reachable, IsExplained;
    RunsExplain({}, s, steps, id);
    assert {} + StepsOf(steps) == StepsOf(steps);
  }
}
