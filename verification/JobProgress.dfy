/** Every accepted job is finished: the process can always go on, and it cannot go on for ever. */
module JobProgress {
  import opened Wrappers
  import opened JobDisk
  import opened JobProtocol
  import opened JobInvariant
  import opened JobPreserved
  import opened JobTheorems
  import opened FiniteSets

  /** A step of work already begun, as opposed to a new request, sweep, stop or crash. */
  predicate IsWork(step: Step) {
    step.OfCreator? || step.OfRunner? || step.OfDisk? || step.SweepJob? || step.EndSweep? || step.LoadJob?
      || step.EndStart?
  }

  /** Nobody is in the middle of anything. */
  predicate Quiet(s: State) {
    s.lock.Free? && forall id :: id in s.cells ==> s.cells[id].runner.None? && s.cells[id].creator.None?
  }

  // ---------------------------------------------------------------- somebody can always go on

  function SomePart(d: Dir): Part
    requires d != EMPTY_DIR
    ensures Without(d, SomePart(d)) != d
  {
    if !d.record.Absent? then RecordPart
    else if !d.temp.Absent? then TempPart
    else if !d.input.Absent? then InputPart
    else OutputPart
  }

  /** What the holder of the lock does next when nothing fails. */
  function NextFileStep(c: Cell, lock: Lock): DiskStep
    requires Held(lock)
  {
    match lock
    case Persisting(_, _, phase, _) =>
      (match phase
       case AtDirectory => MkDir(true)
       case AtOpen => OpenTemp(true)
       case AtWrite => WriteTemp(true)
       case AtRename => Rename(true)
       case AtCleanup => CleanUp(true))
    case Removing(_, _) =>
      if c.dir.None? || c.dir.value == EMPTY_DIR then RemoveDir(true) else RemovePart(SomePart(c.dir.value))
  }

  lemma TheLockHolderCanGoOn(s: State) returns (step: Step)
    requires Reachable(s) && Held(s.lock)
    ensures Enabled(s, step) && IsWork(step)
  {
    ReachableKeeps(s);
    AnyJob(s, s.lock.id);
    step := OfDisk(NextFileStep(s.cells[s.lock.id], s.lock));
  }

  function NextCreatorStep(creator: Creator): CreatorStep {
    match creator
    case Begun => MakeDir(true)
    case Opening => OpenInput(true)
    case Uploading => WriteInput(true)
    case Uploaded => Store
    case Accepted => StartRunner
    case _ => Interrupt(0)
  }

  /** What a runner does next when nothing fails; a waiting one may have to wait for a slot. */
  function NextRunnerStep(c: Cell, r: Runner): RunnerStep {
    match r
    case Checking => Check
    case Waiting => Take
    case Refused => LookUpRefused(0)
    case Granted => LookUpGranted
    case Fetched(_) => ReadInput(Some(c.upload), 0)
    case WantSave(_, _) => Save
    case Masking(_, _) => Mask(Err(INTERRUPTED), 0)
    case Delivering(_, _) => OpenOutput(true)
    case Writing(_, _) => WriteOutput(true)
    case Releasing => Release
    case _ => Leave
  }

  lemma ARunnerCanGoOn(s: State, id: Id)
    requires Reachable(s) && s.lock.Free? && id in s.cells && s.cells[id].runner.Some?
    requires s.cells[id].runner.value.Waiting? ==> s.tokens < s.capacity
    ensures Enabled(s, OfRunner(id, NextRunnerStep(s.cells[id], s.cells[id].runner.value)))
  {
    AnyJob(s, id);
    ReachableKeeps(s);
    HolderIsCounted(s, id);
  }

  /** A slot that is taken belongs to a runner that is not waiting for one. */
  lemma SomeRunnerCanGoOn(s: State, id: Id) returns (step: Step)
    requires Reachable(s) && s.lock.Free? && id in s.cells && s.cells[id].runner.Some?
    ensures Enabled(s, step) && IsWork(step)
  {
    var mover := id;
    if s.cells[id].runner.value.Waiting? && s.tokens >= s.capacity {
      ReachableKeeps(s);
      assert Holders(s) != {};
      mover :| mover in Holders(s);
    }
    ARunnerCanGoOn(s, mover);
    step := OfRunner(mover, NextRunnerStep(s.cells[mover], s.cells[mover].runner.value));
  }

  lemma ACreatorCanGoOn(s: State, id: Id) returns (step: Step)
    requires Reachable(s) && s.lock.Free? && id in s.cells && s.cells[id].creator.Some?
    ensures Enabled(s, step) && IsWork(step)
  {
    AnyJob(s, id);
    step := OfCreator(id, NextCreatorStep(s.cells[id].creator.value));
  }

  /** No deadlock: while a process is starting, or serving with anything unfinished, some step of work is possible. */
  lemma SomebodyCanGoOn(s: State) returns (step: Step)
    requires Reachable(s) && !s.lock.Down? && !Quiet(s)
    ensures Enabled(s, step) && IsWork(step)
  {
    ReachableKeeps(s);
    match s.lock {
      case Persisting(_, _, _, _) => step := TheLockHolderCanGoOn(s);
      case Removing(_, _) => step := TheLockHolderCanGoOn(s);
      case Loading(todo) =>
        if id :| id in todo {
          AnyJob(s, id);
          step := LoadJob(id, CLEAR);
        } else {
          step := EndStart;
        }
      case Sweeping(_, todo) =>
        if id :| id in todo {
          step := SweepJob(id);
        } else {
          step := EndSweep;
        }
      case Free =>
        if id :| id in s.cells && s.cells[id].runner.Some? {
          step := SomeRunnerCanGoOn(s, id);
        } else {
          var id :| id in s.cells && s.cells[id].creator.Some?;
          step := ACreatorCanGoOn(s, id);
        }
    }
  }

  // ---------------------------------------------------------------- nobody can go on for ever

  function RunnerWork(runner: Option<Runner>): nat {
    match runner
    case None => 0
    case Some(Leaving) => 1
    case Some(Releasing) => 2
    case Some(Saving(_, next)) => if next.ThenMask? then 8 else if next.ThenRelease? then 3 else 2
    case Some(WantSave(_, next)) => if next.ThenMask? then 9 else if next.ThenRelease? then 4 else 3
    case Some(Refused) => 4
    case Some(Writing(_, _)) => 5
    case Some(Delivering(_, _)) => 6
    case Some(Masking(_, _)) => 7
    case Some(Fetched(_)) => 10
    case Some(Granted) => 11
    case Some(Waiting) => 12
    case Some(Checking) => 13
  }

  function CreatorWork(creator: Option<Creator>): nat {
    match creator
    case None => 0
    case Some(Marking) => 1
    case Some(Undoing) => 1
    case Some(Declined) => 2
    case Some(Accepted) => 14
    case Some(Creating) => 15
    case Some(Uploaded) => 16
    case Some(Uploading) => 17
    case Some(Opening) => 18
    case Some(Begun) => 19
  }

  /** Steps that are left for the request and the runner of a job. */
  function Left(c: Cell): nat {
    RunnerWork(c.runner) + CreatorWork(c.creator)
  }

  /** The sum over all jobs. */
  ghost function TotalLeft(cells: map<Id, Cell>): nat
    decreases |cells|
  {
    if cells == map[] then 0
    else
      var id :| id in cells;
      Left(cells[id]) + TotalLeft(cells - {id})
  }

  lemma {:induction false} TotalIsPartAndRest(cells: map<Id, Cell>, id: Id)
    requires id in cells
    ensures TotalLeft(cells) == Left(cells[id]) + TotalLeft(cells - {id})
    decreases |cells|
  {
    var first :| first in cells && TotalLeft(cells) == Left(cells[first]) + TotalLeft(cells - {first});
    if first != id {
      TotalIsPartAndRest(cells - {first}, id);
      TotalIsPartAndRest(cells - {id}, first);
      assert cells - {first} - {id} == cells - {id} - {first};
    }
  }

  lemma TotalFollowsOneJob(cells: map<Id, Cell>, id: Id, c: Cell)
    requires id in cells
    ensures TotalLeft(cells[id := c]) == TotalLeft(cells) - Left(cells[id]) + Left(c)
  {
    TotalIsPartAndRest(cells, id);
    TotalIsPartAndRest(cells[id := c], id);
    assert cells[id := c] - {id} == cells - {id};
  }

  function Present<T>(f: File<T>): nat {
    if f.Absent? then 0 else 1
  }

  function PartsLeft(dir: Option<Dir>): nat {
    match dir
    case None => 0
    case Some(d) => Present(d.record) + Present(d.temp) + Present(d.input) + Present(d.output)
  }

  function PhaseWork(phase: Phase): nat {
    match phase
    case AtDirectory => 5
    case AtOpen => 4
    case AtWrite => 3
    case AtRename => 2
    case AtCleanup => 1
  }

  /** Steps that are left until the lock is free, given the directory it is held for. */
  function LockWork(lock: Lock, dir: Option<Dir>): nat {
    match lock
    case Down => 0
    case Free => 0
    case Loading(todo) => 1 + 10 * |todo|
    case Sweeping(_, todo) => 1 + 10 * |todo|
    case Persisting(_, _, phase, _) => 1 + PhaseWork(phase) + 10 * |Unloaded(lock)|
    case Removing(_, _) => 2 + PartsLeft(dir) + 10 * |Unloaded(lock)| + 10 * |Unswept(lock)|
  }

  function HeldDir(s: State): Option<Dir> {
    if Held(s.lock) && s.lock.id in s.cells then s.cells[s.lock.id].dir else None
  }

  ghost function WorkLeft(s: State): nat {
    10 * TotalLeft(s.cells) + LockWork(s.lock, HeldDir(s))
  }

  /** The measure of one job and the lock, for steps that change only these. */
  function JobWork(c: Cell, lock: Lock): nat {
    10 * Left(c) + LockWork(lock, c.dir)
  }

  /** A step on behalf of the holder of the lock, or of a job that takes it, is measured by that job and the lock. */
  lemma WorkFollowsTheHolder(s: State, id: Id, c: Cell, lock: Lock, tokens: nat)
    requires id in s.cells && (Held(s.lock) ==> s.lock.id == id) && (Held(lock) ==> lock.id == id)
    requires JobWork(c, lock) < JobWork(s.cells[id], s.lock)
    ensures WorkLeft(Move(s, id, c, lock, tokens)) < WorkLeft(s)
  {
    TotalFollowsOneJob(s.cells, id, c);
    hide TotalLeft, Left, PartsLeft, PhaseWork, Unswept, Unloaded;
  }

  /** A step that leaves the lock alone is measured by its job, whose directory nobody is removing. */
  lemma WorkFollowsTheJob(s: State, id: Id, c: Cell, tokens: nat)
    requires id in s.cells && Left(c) < Left(s.cells[id])
    requires s.lock.Removing? && s.lock.id == id ==> c.dir == s.cells[id].dir
    ensures WorkLeft(Move(s, id, c, s.lock, tokens)) < WorkLeft(s)
  {
    TotalFollowsOneJob(s.cells, id, c);
    hide TotalLeft, Left, PartsLeft, PhaseWork, Unswept, Unloaded;
  }

  lemma CreatorsGoOn(s: State, id: Id, step: CreatorStep)
    requires Reachable(s) && Enabled(s, OfCreator(id, step))
    ensures WorkLeft(Do(s, OfCreator(id, step))) < WorkLeft(s)
  {
    AnyJob(s, id);
    var c := s.cells[id];
    var d, lock := CreatorCell(id, c, s.draining, step), CreatorLock(id, c, s.lock, step);
    assert Left(d) < Left(c);
    if lock == s.lock {
      WorkFollowsTheJob(s, id, d, s.tokens);
    } else {
      WorkFollowsTheHolder(s, id, d, lock, s.tokens);
    }
  }

  lemma ARunnerHasLessLeft(id: Id, c: Cell, s: State, step: RunnerStep)
    requires RunnerReady(c, s, step) && RunnerOk(id, c)
    ensures Left(RunnerCell(c, s, step)) < Left(c)
  {
    hide Unstarted, WantSaveOk, UnderwayOk;
  }

  /** While a sweep removes a directory, no runner changes it. */
  lemma RunnersLeaveARemovedDirectory(id: Id, c: Cell, s: State, step: RunnerStep)
    requires RunnerReady(c, s, step) && RunnerOk(id, c) && OwnerOk(c) && CreatorOk(id, c)
    requires s.lock.Removing? && s.lock.id == id && GripOk(c, Some(s.lock))
    ensures RunnerCell(c, s, step).dir == c.dir
  {
  }

  lemma RunnersGoOn(s: State, id: Id, step: RunnerStep)
    requires Reachable(s) && Enabled(s, OfRunner(id, step))
    ensures WorkLeft(Do(s, OfRunner(id, step))) < WorkLeft(s)
  {
    AnyJob(s, id);
    var c := s.cells[id];
    var d, lock := RunnerCell(c, s, step), RunnerLock(id, c, s.lock, step);
    ARunnerHasLessLeft(id, c, s, step);
    if s.lock.Removing? && s.lock.id == id {
      RunnersLeaveARemovedDirectory(id, c, s, step);
    }
    hide RunnerCell, CellOk;
    if step.Save? {
      WorkFollowsTheHolder(s, id, d, lock, RunnerTokens(s, step));
    } else {
      WorkFollowsTheJob(s, id, d, RunnerTokens(s, step));
    }
  }

  lemma AtMostFourParts(dir: Option<Dir>)
    ensures PartsLeft(dir) <= 4
  {
  }

  lemma ASaverHasLessLeft(c: Cell, saver: Saver, ok: bool)
    requires SaverOk(c, saver) && !saver.ByLoad?
    ensures Left(SaverCell(c, saver, ok)) < Left(c)
  {
  }

  lemma WritesGoOn(c: Cell, lock: Lock, step: DiskStep)
    requires lock.Persisting? && DiskReady(c, lock, step) && SaverOk(c, lock.saver)
    ensures JobWork(DiskCell(c, lock, step), DiskLock(lock, step)) < JobWork(c, lock)
  {
    match Ends(step)
    case None => AWriteHasLessLeft(c, lock, step);
    case Some(ok) => AnEndedWriteHasLessLeft(c, lock, step, ok);
  }

  lemma AWriteHasLessLeft(c: Cell, lock: Lock, step: DiskStep)
    requires lock.Persisting? && DiskReady(c, lock, step) && Ends(step).None?
    ensures JobWork(DiskCell(c, lock, step), DiskLock(lock, step)) < JobWork(c, lock)
  {
    hide DirAfter, PartsLeft, CreatorWork, RunnerWork;
  }

  lemma AnEndedWriteHasLessLeft(c: Cell, lock: Lock, step: DiskStep, ok: bool)
    requires lock.Persisting? && DiskReady(c, lock, step) && Ends(step) == Some(ok) && SaverOk(c, lock.saver)
    ensures JobWork(DiskCell(c, lock, step), DiskLock(lock, step)) < JobWork(c, lock)
  {
    var d := c.(dir := DirAfter(c, step));
    AtMostFourParts(d.dir);
    if !lock.saver.ByLoad? {
      assert SaverOk(d, lock.saver);
      ASaverHasLessLeft(d, lock.saver, ok);
    }
    hide DirAfter, DiskReady, PartsLeft, SaverOk, CreatorWork, RunnerWork;
  }

  lemma RemovalsGoOn(c: Cell, lock: Lock, step: DiskStep)
    requires lock.Removing? && DiskReady(c, lock, step)
    ensures JobWork(DiskCell(c, lock, step), DiskLock(lock, step)) < JobWork(c, lock)
  {
  }

  lemma DiskLockMovesOn(lock: Lock, step: DiskStep)
    requires Held(lock)
    ensures Held(DiskLock(lock, step)) ==> DiskLock(lock, step).id == lock.id
  {
  }

  lemma TheHolderGoesOn(s: State, step: DiskStep)
    requires Reachable(s) && Enabled(s, OfDisk(step))
    ensures WorkLeft(Do(s, OfDisk(step))) < WorkLeft(s)
  {
    AnyJob(s, s.lock.id);
    if s.lock.Persisting? {
      WritesGoOn(s.cells[s.lock.id], s.lock, step);
    } else {
      RemovalsGoOn(s.cells[s.lock.id], s.lock, step);
    }
    hide CellOk, DiskCell, DiskReady, DiskLock, JobWork;
    DiskLockMovesOn(s.lock, step);
    WorkFollowsTheHolder(s, s.lock.id, DiskCell(s.cells[s.lock.id], s.lock, step), DiskLock(s.lock, step), s.tokens);
  }

  lemma SweepsGoOn(s: State, id: Id)
    requires Enabled(s, SweepJob(id))
    ensures WorkLeft(Do(s, SweepJob(id))) < WorkLeft(s)
  {
    OneLess(s.lock.todo, id);
    WorkFollowsTheHolder(s, id, SweepCell(s.cells[id], s.lock), SweepLock(id, s.cells[id], s.lock), s.tokens);
  }

  lemma StartsGoOn(s: State, id: Id, sight: Sight)
    requires Enabled(s, LoadJob(id, sight))
    ensures WorkLeft(Do(s, LoadJob(id, sight))) < WorkLeft(s)
  {
    OneLess(s.lock.todo, id);
    WorkFollowsTheHolder(s, id, LoadedCell(id, s.cells[id], sight), LoadLock(id, s.cells[id], s.lock, sight), s.tokens);
  }

  lemma LastStepsGoOn(s: State, step: Step)
    requires Enabled(s, step) && (step.EndSweep? || step.EndStart?)
    ensures WorkLeft(Do(s, step)) < WorkLeft(s)
  {
  }

  /** Every step of work, successful or not, leaves less to do. */
  lemma WorkGetsLess(s: State, step: Step)
    requires Reachable(s) && Enabled(s, step) && IsWork(step)
    ensures WorkLeft(Do(s, step)) < WorkLeft(s)
  {
    hide Do, Enabled, WorkLeft, Reachable;
    match step
    case OfCreator(id, t) => CreatorsGoOn(s, id, t);
    case OfRunner(id, t) => RunnersGoOn(s, id, t);
    case OfDisk(t) => TheHolderGoesOn(s, t);
    case SweepJob(id) => SweepsGoOn(s, id);
    case LoadJob(id, sight) => StartsGoOn(s, id, sight);
    case _ => LastStepsGoOn(s, step);
  }

  // ---------------------------------------------------------------- so everything is finished

  /** Whatever is scheduled and whatever fails, only so many steps of work can follow each other. */
  lemma {:induction false} WorkIsBounded(s: State, steps: seq<Step>)
    requires Reachable(s) && Legal(s, steps) && forall step :: step in steps ==> IsWork(step)
    ensures |steps| + WorkLeft(RunOf(s, steps)) <= WorkLeft(s)
    decreases |steps|
  {
    hide Enabled, Do, Reachable, WorkLeft, IsWork;
    if steps != [] {
      assert steps[0] in steps;
      WorkGetsLess(s, steps[0]);
      AStepIsReachable(s, steps[0]);
      WorkIsBounded(Do(s, steps[0]), steps[1..]);
    }
  }

  /** When no step of work is possible any more, nobody is in the middle of anything and no stored job is unfinished. */
  lemma StuckMeansFinished(s: State)
    requires Reachable(s) && !s.lock.Down?
    requires forall step :: Enabled(s, step) ==> !IsWork(step)
    ensures Quiet(s)
    ensures forall id :: id in s.cells ==> !Unfinished(s.cells[id])
  {
    if !Quiet(s) {
      var step := SomebodyCanGoOn(s);
    }
    forall id | id in s.cells
      ensures !Unfinished(s.cells[id])
    {
      UnfinishedIffOwned(s, id);
    }
  }

  /** From every state of a live process, work alone leads to a state in which every stored job is finished. */
  lemma {:induction false} EveryJobCanBeFinished(s: State) returns (steps: seq<Step>)
    requires Reachable(s) && !s.lock.Down?
    ensures Legal(s, steps) && forall step :: step in steps ==> IsWork(step)
    ensures Quiet(RunOf(s, steps))
    ensures forall id :: id in RunOf(s, steps).cells ==> !Unfinished(RunOf(s, steps).cells[id])
    decreases WorkLeft(s)
  {
    steps := [];
    if Quiet(s) {
      forall id | id in s.cells
        ensures !Unfinished(s.cells[id])
      {
        UnfinishedIffOwned(s, id);
      }
    } else {
      var step := SomebodyCanGoOn(s);
      WorkGetsLess(s, step);
      AStepIsReachable(s, step);
      assert !Do(s, step).lock.Down? by { WorkDoesNotKill(s, step); }
      var rest := EveryJobCanBeFinished(Do(s, step));
      steps := [step] + rest;
      assert steps[1..] == rest;
    }
  }

  lemma WorkDoesNotKill(s: State, step: Step)
    requires Enabled(s, step) && IsWork(step) && !s.lock.Down?
    ensures !Do(s, step).lock.Down?
  {
  }
}
