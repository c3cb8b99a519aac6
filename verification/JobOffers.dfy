/** Over crashes and restarts: a finished job keeps offering its result, and every job the path of its upload. */
module JobOffers {
  import opened Wrappers
  import opened JobDisk
  import opened JobProtocol
  import opened JobInvariant
  import opened JobPreserved
  import opened JobTheorems
  import opened JobProgress
  import opened JobRun

  /** The paths of its files are known. */
  predicate KnowsItsFiles(job: Job) {
    job.hasInput && (job.record.status.Completed? ==> job.hasOutput)
  }

  predicate RunnerKnowsTheFiles(runner: Option<Runner>) {
    match runner
    case Some(Fetched(job)) => KnowsItsFiles(job)
    case Some(WantSave(job, _)) => KnowsItsFiles(job)
    case Some(Saving(job, _)) => KnowsItsFiles(job)
    case Some(Masking(job, _)) => KnowsItsFiles(job)
    case Some(Delivering(job, _)) => KnowsItsFiles(job)
    case Some(Writing(job, _)) => KnowsItsFiles(job)
    case _ => true
  }

  /** Unless its removal began, an accepted job keeps its upload on disk, and the paths of its files are known. */
  predicate FilesAreKnown(c: Cell) {
    !Gone(c) ==>
      && (c.accepted ==> HasUpload(c))
      && (c.mem.Some? ==> KnowsItsFiles(c.mem.value)) && RunnerKnowsTheFiles(c.runner)
  }

  /** Every start in the run can read the record of the job and list its files. */
  predicate StartsSeeTheFiles(steps: seq<Step>, id: Id) {
    forall step :: step in steps && step.LoadJob? && step.id == id ==> step.sight == Sight(true, true, true)
  }

  lemma CreatorsKnowTheFiles(id: Id, c: Cell, draining: bool, lock: Lock, step: CreatorStep)
    requires CreatorReady(c, lock, step) && CreatorOk(id, c) && FilesAreKnown(c)
    ensures FilesAreKnown(CreatorCell(id, c, draining, step))
  {
  }

  lemma RunnersKnowTheFiles(id: Id, c: Cell, s: State, step: RunnerStep)
    requires RunnerReady(c, s, step) && RunnerOk(id, c) && FilesAreKnown(c)
    ensures FilesAreKnown(RunnerCell(c, s, step))
  {
    hide RecordOk, CanRead;
  }

  lemma WritesKnowTheFiles(id: Id, c: Cell, lock: Lock, step: DiskStep)
    requires Held(lock) && DiskReady(c, lock, step) && FilesAreKnown(c)
    requires lock.Persisting? ==> PhaseOk(c, lock.phase, lock.before) && SaverOk(c, lock.saver)
    requires lock.Removing? ==> Gone(c) || !c.accepted
    requires lock.Persisting? && lock.saver.ByCreate? ==> HasUpload(c)
    ensures FilesAreKnown(DiskCell(c, lock, step))
  {
  }

  lemma LoadsKnowTheFiles(id: Id, c: Cell)
    requires c.dir.Some? && DiskOk(id, c) && FilesAreKnown(c) && c.runner.None?
    ensures FilesAreKnown(LoadedCell(id, c, Sight(true, true, true)))
  {
  }

  lemma AStepKnowsTheFiles(s: State, step: Step, id: Id)
    requires Reachable(s) && Enabled(s, step) && id in s.cells && FilesAreKnown(s.cells[id])
    requires step.LoadJob? && step.id == id ==> step.sight == Sight(true, true, true)
    ensures id in Do(s, step).cells && FilesAreKnown(Do(s, step).cells[id])
  {
    AnyJob(s, id);
    var c := s.cells[id];
    if !step.Crash? && ActorOf(s, step) != Some(id) {
      OthersStay(s, step, id);
    } else if step.OfCreator? {
      CreatorsKnowTheFiles(id, c, s.draining, s.lock, step.creator);
    } else if step.OfRunner? {
      RunnersKnowTheFiles(id, c, s, step.runner);
    } else if step.OfDisk? {
      assert Grip(s.lock, id) == Some(s.lock);
      WritesKnowTheFiles(id, c, s.lock, step.disk);
    } else if step.LoadJob? {
      LoadsKnowTheFiles(id, c);
    }
  }

  lemma {:induction false} RunsKnowTheFiles(s: State, steps: seq<Step>, id: Id)
    requires Reachable(s) && Legal(s, steps) && StartsSeeTheFiles(steps, id)
    requires id in s.cells ==> FilesAreKnown(s.cells[id]) && !s.cells[id].unread
    ensures Reachable(RunOf(s, steps))
    ensures id in RunOf(s, steps).cells ==>
      FilesAreKnown(RunOf(s, steps).cells[id]) && !RunOf(s, steps).cells[id].unread
    decreases |steps|
  {
    hide Enabled, Do, Reachable, FilesAreKnown;
    if steps != [] {
      assert steps[0] in steps;
      if id in s.cells {
        AStepKnowsTheFiles(s, steps[0], id);
        OnlyUnreadableRecordsAreLost(s, steps[0], id);
      } else {
        NewJobsKnowTheirFiles(s, steps[0], id);
      }
      AStepIsReachable(s, steps[0]);
      RunsKnowTheFiles(Do(s, steps[0]), steps[1..], id);
    }
  }

  lemma NewJobsKnowTheirFiles(s: State, step: Step, id: Id)
    requires Enabled(s, step) && id !in s.cells
    ensures id in Do(s, step).cells ==> FilesAreKnown(Do(s, step).cells[id]) && !Do(s, step).cells[id].unread
  {
    hide RunnerCell, RunnerReady, DiskCell, CreatorCell, CreatorReady, LoadedCell, CanRead;
  }

  /** In every run whose starts can read the record of a job and list its files, with any crashes and faults: while no
      sweep began to remove it, a job shown as completed is offered with what masking produced, and a job that is shown
      at all has its whole upload on disk and knows where. */
  lemma CompletedJobsAreOffered(capacity: nat, steps: seq<Step>, id: Id)
    requires capacity > 0 && Legal(Start(capacity), steps) && StartsSeeTheFiles(steps, id)
    requires id in RunOf(Start(capacity), steps).cells
    ensures
      var c := RunOf(Start(capacity), steps).cells[id];
      !c.swept && c.mem.Some? ==>
        && c.mem.value.hasInput && c.dir.Some? && (c.accepted ==> c.dir.value.input == Whole(c.upload))
        && (c.mem.value.record.status.Completed? ==>
              Offered(c) && c.produced.Some? && c.dir.value.output == Whole(c.produced.value))
  {
    var s := Start(capacity);
    assert Legal(s, []) && RunOf(s, []) == s;
    assert Reachable(s);
    hide Legal, RunOf, Reachable;
    RunsKnowTheFiles(s, steps, id);
    AnyJob(RunOf(s, steps), id);
  }

  // ----- a result once recorded stays -----

  /** This record is on disk, and it says completed. */
  predicate RecordedAsCompleted(c: Cell, rec: Record) {
    c.dir.Some? && c.dir.value.record == Whole(rec) && rec.status.Completed?
  }

  lemma {:induction false} CompletionStaysRecorded(s: State, steps: seq<Step>, id: Id, rec: Record)
    requires Reachable(s) && Legal(s, steps) && StartsSeeTheFiles(steps, id)
    requires id in s.cells && RecordedAsCompleted(s.cells[id], rec) && !s.cells[id].unread
    ensures id in RunOf(s, steps).cells && !RunOf(s, steps).cells[id].unread
    ensures !RunOf(s, steps).cells[id].swept ==> RecordedAsCompleted(RunOf(s, steps).cells[id], rec)
    decreases |steps|
  {
    if steps != [] {
      assert steps[0] in steps;
      AStepKeepsHistory(s, steps[0], id);
      OnlyUnreadableRecordsAreLost(s, steps[0], id);
      AStepIsReachable(s, steps[0]);
      var t := Do(s, steps[0]);
      if t.cells[id].swept {
        HistoryIsKept(t, steps[1..], id);
        ReadableStaysReadable(t, steps[1..], id);
      } else {
        AnyJob(s, id);
        AcceptedJobsAreDurable(t, id);
        StoredStatusMovesForward(s, steps[0], id);
        hide Enabled, Do, Reachable, CellOk;
        CompletionStaysRecorded(t, steps[1..], id, rec);
      }
    }
  }

  lemma {:induction false} ReadableStaysReadable(s: State, steps: seq<Step>, id: Id)
    requires Reachable(s) && Legal(s, steps) && StartsSeeTheFiles(steps, id)
    requires id in s.cells && !s.cells[id].unread
    ensures id in RunOf(s, steps).cells && !RunOf(s, steps).cells[id].unread
    decreases |steps|
  {
    hide Enabled, Do, Reachable;
    if steps != [] {
      assert steps[0] in steps;
      OnlyUnreadableRecordsAreLost(s, steps[0], id);
      AStepIsReachable(s, steps[0]);
      ReadableStaysReadable(Do(s, steps[0]), steps[1..], id);
    }
  }

  lemma ResultsStay(s: State, steps: seq<Step>, id: Id, rec: Record)
    requires Reachable(s) && Legal(s, steps) && StartsSeeTheFiles(steps, id)
    requires id in s.cells && FilesAreKnown(s.cells[id]) && RecordedAsCompleted(s.cells[id], rec) && !Gone(s.cells[id])
    requires EraOf(RunOf(s, steps).lock) == Serving
    ensures id in RunOf(s, steps).cells && s.cells[id].produced.Some?
    ensures !RunOf(s, steps).cells[id].swept ==>
      var c := RunOf(s, steps).cells[id];
      && c.mem == Some(Job(rec, true, true)) && Offered(c)
      && c.dir.value.output == Whole(s.cells[id].produced.value) && c.dir.value.input == Whole(s.cells[id].upload)
  {
    AnyJob(s, id);
    RunsKnowTheFiles(s, steps, id);
    CompletionStaysRecorded(s, steps, id, rec);
    HistoryIsKept(s, steps, id);
    AnyJob(RunOf(s, steps), id);
    hide Legal, RunOf, Reachable;
  }

  /** A result whose completion has reached the disk is offered by this process and by every later one, byte for byte
      and with the same record, until a sweep begins to remove the job: whatever crashes, starts and faults come
      between, as long as the starts can read its record and list its files. */
  lemma ResultsStayOffered(capacity: nat, before: seq<Step>, after: seq<Step>, id: Id, rec: Record)
    requires capacity > 0 && Legal(Start(capacity), before) && Legal(RunOf(Start(capacity), before), after)
    requires StartsSeeTheFiles(before, id) && StartsSeeTheFiles(after, id)
    requires id in RunOf(Start(capacity), before).cells && !RunOf(Start(capacity), before).cells[id].swept
    requires RecordedAsCompleted(RunOf(Start(capacity), before).cells[id], rec)
    requires EraOf(RunOf(RunOf(Start(capacity), before), after).lock) == Serving
    ensures
      var was, now := RunOf(Start(capacity), before).cells[id], RunOf(RunOf(Start(capacity), before), after).cells;
      && id in now && was.produced.Some?
      && (!now[id].swept ==>
            && now[id].mem == Some(Job(rec, true, true)) && Offered(now[id])
            && now[id].dir.value.output == Whole(was.produced.value) && now[id].dir.value.input == Whole(was.upload))
  {
    var s := Start(capacity);
    assert Legal(s, []) && RunOf(s, []) == s;
    assert Reachable(s);
    hide Legal, RunOf, Reachable, FilesAreKnown, StartsSeeTheFiles;
    RunsKnowTheFiles(s, before, id);
    ResultsStay(RunOf(s, before), after, id, rec);
  }

  // ----- a restart can be finished -----

  /** A start that can read and list everything runs to its end. */
  lemma {:induction false} AStartCanEnd(s: State) returns (steps: seq<Step>)
    requires Reachable(s) && EraOf(s.lock) == Starting
    ensures Legal(s, steps) && s.cells.Keys <= RunOf(s, steps).cells.Keys
    ensures RunOf(s, steps).lock.Free? && Reachable(RunOf(s, steps))
    ensures forall step :: step in steps ==>
      step.OfDisk? || step == EndStart || (step.LoadJob? && step.sight == Sight(true, true, true))
    decreases WorkLeft(s)
  {
    var step := NextOfAStart(s);
    WorkGetsLess(s, step);
    AStepIsReachable(s, step);
    hide Enabled, Do, Reachable, WorkLeft;
    var t := Do(s, step);
    if t.lock.Free? {
      steps := [step];
      assert steps[1..] == [];
    } else {
      var rest := AStartCanEnd(t);
      steps := [step] + rest;
      assert steps[1..] == rest;
    }
  }

  lemma NextOfAStart(s: State) returns (step: Step)
    requires Reachable(s) && EraOf(s.lock) == Starting
    ensures Enabled(s, step) && IsWork(step)
    ensures step.OfDisk? || step == EndStart || (step.LoadJob? && step.sight == Sight(true, true, true))
    ensures Do(s, step).lock.Free? || EraOf(Do(s, step).lock) == Starting
    ensures s.cells.Keys <= Do(s, step).cells.Keys
  {
    ReachableKeeps(s);
    match s.lock {
      case Loading(todo) =>
        if id :| id in todo {
          AnyJob(s, id);
          step := LoadJob(id, CLEAR);
        } else {
          step := EndStart;
        }
      case _ => step := TheLockHolderCanGoOn(s);
    }
  }

  /** An upload that meets no fault ends completed, and after a crash and the start of another process its masked
      content is still the file offered for download. */
  lemma AFaultlessJobSurvivesARestart(s: State, id: Id, upload: Bytes, content: Bytes, created: Time, began: Time,
          ended: Time)
    returns (steps: seq<Step>)
    requires Reachable(s) && s.lock.Free? && !s.draining && s.tokens < s.capacity && id !in s.cells
    ensures Legal(s, steps) && Crash in steps && RunOf(s, steps).lock.Free? && id in RunOf(s, steps).cells
    ensures
      var c := RunOf(s, steps).cells[id];
      && c.mem == Some(Job(Record(id, Completed, created, ended, None, ""), true, true))
      && Offered(c) && c.dir.value.output == Whole(content) && c.dir.value.input == Whole(upload)
  {
    var work := AFaultlessJobCompletes(s, id, upload, content, created, began, ended);
    var t := RunOf(s, work);
    RunIsReachable(s, work);
    var rec := Record(id, Completed, created, ended, None, "");
    assert FilesAreKnown(t.cells[id]) && RecordedAsCompleted(t.cells[id], rec);
    ReachableKeeps(t);
    var restart := ARestart(t, id);
    ResultsStay(t, restart, id, rec);
    hide Legal, RunOf, Reachable, Inv;
    RunsCompose(s, work, restart);
    steps := work + restart;
  }

  lemma {:induction false} RunIsReachable(s: State, steps: seq<Step>)
    requires Reachable(s) && Legal(s, steps)
    ensures Reachable(RunOf(s, steps))
    decreases |steps|
  {
    hide Enabled, Do, Reachable;
    if steps != [] {
      AStepIsReachable(s, steps[0]);
      RunIsReachable(Do(s, steps[0]), steps[1..]);
    }
  }

  /** A crash, and a start that sees everything. */
  lemma ARestart(s: State, id: Id) returns (steps: seq<Step>)
    requires Reachable(s) && s.lock.Free? && id in s.cells && !s.cells[id].swept
    ensures Legal(s, steps) && Crash in steps && StartsSeeTheFiles(steps, id)
    ensures RunOf(s, steps).lock.Free? && id in RunOf(s, steps).cells && !RunOf(s, steps).cells[id].swept
  {
    AStepIsReachable(s, Crash);
    var t := Do(s, Crash);
    AStepIsReachable(t, BeginStart);
    var u := Do(t, BeginStart);
    assert EraOf(u.lock) == Starting;
    var start := AStartCanEnd(u);
    steps := [Crash, BeginStart] + start;
    assert steps[1..] == [BeginStart] + start && steps[1..][1..] == start;
    assert u.cells[id].swept == s.cells[id].swept;
    hide Enabled, Do, Reachable, EraOf;
    OnlySweepsSweep(u, start, id);
  }

  lemma {:induction false} OnlySweepsSweep(s: State, steps: seq<Step>, id: Id)
    requires Reachable(s) && Legal(s, steps) && id in s.cells
    requires forall step :: step in steps ==> !step.SweepJob?
    ensures id in RunOf(s, steps).cells && RunOf(s, steps).cells[id].swept == s.cells[id].swept
    decreases |steps|
  {
    hide Enabled, Do, Reachable;
    if steps != [] {
      assert steps[0] in steps;
      AStepKeepsHistory(s, steps[0], id);
      AStepIsReachable(s, steps[0]);
      OnlySweepsSweep(Do(s, steps[0]), steps[1..], id);
    }
  }
}
