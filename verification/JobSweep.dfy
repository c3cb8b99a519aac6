/** A sweep, taken one file operation at a time among all other steps, does what the store's DeleteExpired does in
    one piece. */
module JobSweep {
  import opened Wrappers
  import opened JobDisk
  import opened JobProtocol
  import opened JobInvariant
  import opened JobPreserved
  import opened JobTheorems
  import opened JobStart

  type Removals = Id -> Removal

  function Put(f: Removals, id: Id, removal: Removal): Removals {
    x => if x == id then removal else f(x)
  }

  predicate InASweep(lock: Lock, cutoff: Time) {
    || (lock.Sweeping? && lock.cutoff == cutoff)
    || (lock.Removing? && lock.why.ForSweep? && lock.why.cutoff == cutoff)
  }

  /** How the removals have gone so far, once this step is done as well. */
  function RemovalsAfter(s: State, f: Removals, step: Step): Removals
    requires Enabled(s, step)
  {
    match step
    case SweepJob(id) => if Due(s.cells[id], s.lock.cutoff) then Put(f, id, Kept(ALL_PARTS)) else f
    case OfDisk(RemovePart(part)) => Put(f, s.lock.id, Kept(PartsKept(f(s.lock.id)) - {part}))
    case OfDisk(RemoveDir(ok)) => if ok then Put(f, s.lock.id, Removed) else f
    case _ => f
  }

  /** How far the sweep has come with a job it found as c0, or did not find. */
  predicate SweepProgress(found: Option<Cell>, cutoff: Time, c: Cell, unswept: bool, grip: Option<Lock>,
          removal: Removal)
  {
    match found
    case None => c.mem.None? && grip.None?
    case Some(c0) =>
      if !Due(c0, cutoff) then c.mem == c0.mem && grip.None?
      else
        && c.accepted && c0.dir.Some?
        && if unswept then c.mem == c0.mem && c.dir == c0.dir && grip.None?
           else if grip.Some? then
             grip.value.Removing? && removal.Kept? && c.mem == c0.mem && c.dir == AfterRemoval(c0.dir.value, removal)
           else c.mem == (if removal.Removed? then None else c0.mem) && c.dir == AfterRemoval(c0.dir.value, removal)
  }

  function FoundCell(s: State, id: Id): Option<Cell> {
    if id in s.cells then Some(s.cells[id]) else None
  }

  predicate Progresses(s0: State, cutoff: Time, s: State, f: Removals, id: Id)
    requires id in s.cells
  {
    SweepProgress(FoundCell(s0, id), cutoff, s.cells[id], id in Unswept(s.lock), Grip(s.lock, id), f(id))
  }

  ghost predicate SweptFrom(s0: State, cutoff: Time, s: State, f: Removals) {
    s0.cells.Keys <= s.cells.Keys && forall id :: id in s.cells ==> Progresses(s0, cutoff, s, f, id)
  }

  // ---------------------------------------------------------------- the job a step deals with

  /** No runner and no request changes the directory of a finished job, or anything of a removed one. */
  lemma RunnersLeaveFinishedJobs(id: Id, c: Cell, s: State, step: RunnerStep)
    requires RunnerReady(c, s, step) && RunnerOk(id, c) && DiskOk(id, c) && !s.lock.Free?
    ensures RunnerCell(c, s, step).mem == c.mem && RunnerCell(c, s, step).accepted == c.accepted
    ensures (c.mem.Some? ==> c.mem.value.record.status.Terminal()) ==> RunnerCell(c, s, step).dir == c.dir
  {
  }

  lemma RequestsLeaveFinishedJobs(id: Id, c: Cell, s: State, step: CreatorStep)
    requires CreatorReady(c, s.lock, step) && CreatorOk(id, c) && !s.lock.Free?
    ensures CreatorCell(id, c, s.draining, step).mem == c.mem
    ensures c.accepted ==> CreatorCell(id, c, s.draining, step).accepted
    ensures c.accepted ==> CreatorCell(id, c, s.draining, step).dir == c.dir
  {
  }

  lemma FileStepsGoOn(id: Id, c0: Cell, cutoff: Time, c: Cell, lock: Lock, step: DiskStep, removal: Removal)
    requires lock.Removing? && lock.why.ForSweep? && lock.id == id && DiskReady(c, lock, step) && id !in Unswept(lock)
    requires Due(c0, cutoff) && SweepProgress(Some(c0), cutoff, c, false, Some(lock), removal)
    ensures
      var after := match step
                   case RemovePart(part) => Kept(PartsKept(removal) - {part})
                   case RemoveDir(ok) => if ok then Removed else removal
                   case _ => removal;
      SweepProgress(Some(c0), cutoff, DiskCell(c, lock, step), false, Grip(DiskLock(lock, step), id), after)
  {
  }

  lemma LookingAtAJob(id: Id, found: Option<Cell>, cutoff: Time, c: Cell, lock: Lock, removal: Removal)
    requires lock.Sweeping? && lock.cutoff == cutoff && id in lock.todo
    requires SweepProgress(found, cutoff, c, true, None, removal)
    ensures
      var after := if Due(c, cutoff) then Kept(ALL_PARTS) else removal;
      SweepProgress(found, cutoff, SweepCell(c, lock), false, Grip(SweepLock(id, c, lock), id), after)
  {
  }

  lemma WorkersAreSwept(s0: State, cutoff: Time, s: State, f: Removals, step: Step, id: Id)
    requires Reachable(s) && Enabled(s, step) && InASweep(s.lock, cutoff) && (step.OfCreator? || step.OfRunner?)
      && step.id == id
    requires id in s.cells && Progresses(s0, cutoff, s, f, id)
    ensures id in Do(s, step).cells && Progresses(s0, cutoff, Do(s, step), f, id)
  {
    var c := s.cells[id];
    AnyJob(s, id);
    hide MemOk, OwnerOk, EraOk, GripOk;
    if step.OfCreator? {
      RequestsLeaveFinishedJobs(id, c, s, step.creator);
      assert CreatorLock(id, c, s.lock, step.creator) == s.lock;
    } else {
      RunnersLeaveFinishedJobs(id, c, s, step.runner);
      assert RunnerLock(id, c, s.lock, step.runner) == s.lock;
    }
    hide CellOk, CreatorCell, RunnerCell, CreatorReady, RunnerReady, DiskOk, RunnerOk, CreatorOk, CreatorLock,
         RunnerLock;
  }

  lemma TheActorIsSwept(s0: State, cutoff: Time, s: State, f: Removals, step: Step, id: Id)
    requires Reachable(s) && Enabled(s, step) && !step.Crash? && !step.EndSweep? && InASweep(s.lock, cutoff)
    requires ActorOf(s, step) == Some(id) && (id in s0.cells ==> id in s.cells)
    requires id in s.cells ==> Progresses(s0, cutoff, s, f, id)
    requires s.lock.Removing? ==>
      s.lock.id !in Unswept(s.lock) && FoundCell(s0, s.lock.id).Some? && Due(s0.cells[s.lock.id], cutoff)
    ensures id in Do(s, step).cells && Progresses(s0, cutoff, Do(s, step), RemovalsAfter(s, f, step), id)
  {
    if id in s.cells {
      var c := s.cells[id];
      if step.OfCreator? || step.OfRunner? {
        WorkersAreSwept(s0, cutoff, s, f, step, id);
        assert RemovalsAfter(s, f, step) == f;
        hide Do;
      } else if step.OfDisk? {
        FileStepsGoOn(id, s0.cells[id], cutoff, c, s.lock, step.disk, f(id));
        hide DiskCell, DiskReady, DiskLock;
      } else if step.SweepJob? {
        LookingAtAJob(id, FoundCell(s0, id), cutoff, c, s.lock, f(id));
        hide SweepCell, SweepLock;
      }
    }
  }

  // ---------------------------------------------------------------- a whole sweep

  lemma OthersAreSweptAsBefore(s0: State, cutoff: Time, s: State, f: Removals, step: Step, id: Id)
    requires Enabled(s, step) && !step.Crash? && !step.EndSweep? && InASweep(s.lock, cutoff)
    requires id in s.cells && ActorOf(s, step) != Some(id) && Progresses(s0, cutoff, s, f, id)
    ensures id in Do(s, step).cells && Progresses(s0, cutoff, Do(s, step), RemovalsAfter(s, f, step), id)
  {
    OthersStay(s, step, id);
    LocksOfOthers(s, step, id);
    assert RemovalsAfter(s, f, step)(id) == f(id);
    hide Do, SweepProgress, RemovalsAfter;
  }

  lemma LocksOfOthers(s: State, step: Step, id: Id)
    requires Enabled(s, step) && !step.Crash? && !step.EndSweep? && (s.lock.Sweeping? || s.lock.Removing?)
    requires s.lock.Removing? ==> s.lock.why.ForSweep?
    requires ActorOf(s, step) != Some(id)
    ensures id in Unswept(Do(s, step).lock) <==> id in Unswept(s.lock)
    ensures Grip(Do(s, step).lock, id) == Grip(s.lock, id)
  {
    hide RunnerCell, CanRead, DiskCell, CreatorCell, LoadedCell, SweepCell;
  }

  lemma SweepsGoOnOrEnd(s: State, step: Step, cutoff: Time)
    requires Enabled(s, step) && !step.Crash? && !step.EndSweep? && InASweep(s.lock, cutoff)
    ensures InASweep(Do(s, step).lock, cutoff) && s.cells.Keys <= Do(s, step).cells.Keys
    ensures forall id :: id in Do(s, step).cells && id !in s.cells ==> ActorOf(s, step) == Some(id)
    ensures ActorOf(s, step).Some? ==> ActorOf(s, step).value in Do(s, step).cells
  {
    hide RunnerCell, CanRead, DiskCell, CreatorCell, LoadedCell, SweepCell;
  }

  lemma ASweepStepGoesOn(s0: State, cutoff: Time, s: State, f: Removals, step: Step)
    requires Reachable(s) && InASweep(s.lock, cutoff) && SweptFrom(s0, cutoff, s, f)
    requires Enabled(s, step) && !step.Crash? && !step.EndSweep?
    ensures InASweep(Do(s, step).lock, cutoff) && SweptFrom(s0, cutoff, Do(s, step), RemovalsAfter(s, f, step))
  {
    ReachableKeeps(s);
    SweepsGoOnOrEnd(s, step, cutoff);
    if s.lock.Removing? {
      assert Progresses(s0, cutoff, s, f, s.lock.id);
    }
    hide Inv, Do, Enabled, RemovalsAfter, SweepProgress, Reachable;
    forall id | id in Do(s, step).cells
      ensures Progresses(s0, cutoff, Do(s, step), RemovalsAfter(s, f, step), id)
    {
      if ActorOf(s, step) == Some(id) {
        TheActorIsSwept(s0, cutoff, s, f, step, id);
      } else {
        OthersAreSweptAsBefore(s0, cutoff, s, f, step, id);
      }
    }
  }

  function RemovalsOf(s: State, f: Removals, steps: seq<Step>): Removals
    requires Legal(s, steps)
    decreases |steps|
  {
    if steps == [] then f else RemovalsOf(Do(s, steps[0]), RemovalsAfter(s, f, steps[0]), steps[1..])
  }

  lemma {:induction false} SweepStepsGoOn(s0: State, cutoff: Time, s: State, steps: seq<Step>, f: Removals)
    requires Reachable(s) && InASweep(s.lock, cutoff) && SweptFrom(s0, cutoff, s, f)
    requires Legal(s, steps) && Crash !in steps && EndSweep !in steps
    ensures SweptFrom(s0, cutoff, RunOf(s, steps), RemovalsOf(s, f, steps))
    ensures InASweep(RunOf(s, steps).lock, cutoff)
    decreases |steps|
  {
    hide Do, Enabled, Reachable, SweptFrom, RemovalsAfter;
    if steps != [] {
      ASweepStepGoesOn(s0, cutoff, s, f, steps[0]);
      AStepIsReachable(s, steps[0]);
      SweepStepsGoOn(s0, cutoff, Do(s, steps[0]), steps[1..], RemovalsAfter(s, f, steps[0]));
    }
  }

  lemma ABeginningSweep(s: State, cutoff: Time)
    requires Reachable(s) && s.lock.Free?
    ensures Reachable(Do(s, BeginSweep(cutoff)))
    ensures SweptFrom(s, cutoff, Do(s, BeginSweep(cutoff)), _ => Removed)
  {
    AStepIsReachable(s, BeginSweep(cutoff));
    hide Reachable;
    forall id | id in s.cells
      ensures Progresses(s, cutoff, Do(s, BeginSweep(cutoff)), _ => Removed, id)
    {
      AnyJob(s, id);
    }
  }

  /** A sweep that runs to its end, among any steps of requests and runners, leaves the memory of the store's
      DeleteExpired, and of every expired directory what that leaves, for the way its removals went. */
  lemma ASweepIsOneDeleteExpired(s: State, cutoff: Time, steps: seq<Step>)
    requires Reachable(s) && s.lock.Free? && Crash !in steps && EndSweep !in steps
    requires Legal(Do(s, BeginSweep(cutoff)), steps) && Enabled(RunOf(Do(s, BeginSweep(cutoff)), steps), EndSweep)
    ensures
      var t := RunOf(Do(s, BeginSweep(cutoff)), steps);
      var removals := RemovalsOf(Do(s, BeginSweep(cutoff)), _ => Removed, steps);
      var expired := Store.ExpiredIds(JobsOf(s), cutoff);
      && expired <= DiskOf(s).Keys
      && JobsOf(t) == JobsOf(s) - (set id | id in expired && removals(id).Removed?)
      && forall id :: id in expired ==>
           Store.DirOf(DiskOf(t), id) == Store.DirOf(Store.DiskAfterSweep(DiskOf(s), expired, removals), id)
  {
    var began := Do(s, BeginSweep(cutoff));
    ABeginningSweep(s, cutoff);
    SweepStepsGoOn(s, cutoff, began, steps, _ => Removed);
    SweptIsSwept(s, cutoff, RunOf(began, steps), RemovalsOf(began, _ => Removed, steps));
  }

  lemma SweptIsSwept(s: State, cutoff: Time, t: State, removals: Removals)
    requires t.lock == Sweeping(cutoff, {}) && SweptFrom(s, cutoff, t, removals)
    ensures
      var expired := Store.ExpiredIds(JobsOf(s), cutoff);
      && expired <= DiskOf(s).Keys
      && JobsOf(t) == JobsOf(s) - (set id | id in expired && removals(id).Removed?)
      && forall id :: id in expired ==>
           Store.DirOf(DiskOf(t), id) == Store.DirOf(Store.DiskAfterSweep(DiskOf(s), expired, removals), id)
  {
    hide Expired;
    var expired := Store.ExpiredIds(JobsOf(s), cutoff);
    forall id | id in t.cells
      ensures t.cells[id].mem
              == if id !in s.cells || (id in expired && removals(id).Removed?) then None else s.cells[id].mem
      ensures id in expired ==>
        s.cells[id].dir.Some? && t.cells[id].dir == AfterRemoval(s.cells[id].dir.value, removals(id))
    {
      assert Progresses(s, cutoff, t, removals, id);
    }
  }
}
