/** A start, taken one file operation at a time, does what the store's load does in one piece. */
module JobStart {
  import opened Wrappers
  import opened JobDisk
  import opened JobProtocol
  import opened JobInvariant
  import opened JobPreserved
  import opened JobTheorems
  import Store = JobStore

  type Faults = Store.StartFaults

  /** What the store would see of a state: its directories, and its entries. */
  function DiskOf(s: State): map<Id, Dir> {
    map id | id in s.cells && s.cells[id].dir.Some? :: s.cells[id].dir.value
  }

  function JobsOf(s: State): map<Id, Job> {
    map id | id in s.cells && s.cells[id].mem.Some? :: s.cells[id].mem.value
  }

  function Seen(f: Faults, id: Id, sight: Sight): Faults {
    f.(sight := x => if x == id then sight else f.sight(x))
  }

  function Written(f: Faults, id: Id, fault: PersistFault): Faults {
    f.(persist := x => if x == id then fault else f.persist(x))
  }

  function Cleared(f: Faults, id: Id, removal: Removal): Faults {
    f.(removal := x => if x == id then removal else f.removal(x))
  }

  const ALL_PARTS := {RecordPart, TempPart, InputPart, OutputPart}

  function PartsKept(removal: Removal): set<Part> {
    match removal
    case Removed => {}
    case Kept(parts) => parts
  }

  /** The faults met so far, once this step is done as well. */
  function FaultsAfter(s: State, f: Faults, step: Step): Faults
    requires Enabled(s, step)
  {
    match step
    case LoadJob(id, sight) => Cleared(Seen(f, id, sight), id, Kept(ALL_PARTS))
    case OfDisk(RemovePart(part)) => Cleared(f, s.lock.id, Kept(PartsKept(f.removal(s.lock.id)) - {part}))
    case OfDisk(RemoveDir(ok)) => if ok then Cleared(f, s.lock.id, Removed) else f
    case OfDisk(t) => if Ends(t).Some? then Written(f, s.lock.id, FaultOf(t)) else f
    case _ => f
  }

  /** How far the start has come with a directory it found as d. */
  predicate Progress(id: Id, found: Option<Dir>, c: Cell, unloaded: bool, grip: Option<Lock>, f: Faults) {
    match found
    case None => c.dir.None? && c.mem.None? && grip.None?
    case Some(d) =>
      if unloaded then c.dir == found && c.mem.None? && grip.None?
      else if grip.Some? && grip.value.Persisting? then
        && grip.value.before == found && Restored(id, d, f.sight(id)) == c.mem
        && d.record.Whole? && WasInterrupted(d.record.value)
      else if grip.Some? then
        && ReadRecord(id, d, f.sight(id)).None? && c.mem.None? && f.removal(id).Kept?
        && c.dir == AfterRemoval(d, f.removal(id))
      else
        && c.mem == Restored(id, d, f.sight(id))
        && c.dir == DirAfterLoad(id, d, f.sight(id), f.persist(id), f.removal(id))
  }

  function Found(disk: map<Id, Dir>, id: Id): Option<Dir> {
    if id in disk then Some(disk[id]) else None
  }

  ghost predicate StartedFrom(disk: map<Id, Dir>, s: State, f: Faults) {
    && disk.Keys <= s.cells.Keys
    && forall id :: id in s.cells ==>
         Progress(id, Found(disk, id), s.cells[id], id in Unloaded(s.lock), Grip(s.lock, id), f)
  }

  lemma LoadingGoesOn(id: Id, d: Dir, c: Cell, lock: Lock, sight: Sight, f: Faults)
    requires lock.Loading? && id in lock.todo && c.dir == Some(d) && c.mem.None?
    ensures Progress(id, Some(d), LoadedCell(id, c, sight), id in Unloaded(LoadLock(id, c, lock, sight)),
                     Grip(LoadLock(id, c, lock, sight), id), Cleared(Seen(f, id, sight), id, Kept(ALL_PARTS)))
  {
  }

  lemma RemovingGoesOn(id: Id, d: Dir, c: Cell, lock: Lock, step: DiskStep, f: Faults)
    requires lock.Removing? && lock.why.ForLoad? && lock.id == id && DiskReady(c, lock, step) && id !in Unloaded(lock)
    requires Progress(id, Some(d), c, false, Some(lock), f)
    ensures
      var g := match step
               case RemovePart(part) => Cleared(f, id, Kept(PartsKept(f.removal(id)) - {part}))
               case RemoveDir(ok) => if ok then Cleared(f, id, Removed) else f
               case _ => f;
      Progress(id, Some(d), DiskCell(c, lock, step), false, Grip(DiskLock(lock, step), id), g)
  {
  }

  lemma WritingGoesOn(id: Id, d: Dir, c: Cell, lock: Lock, step: DiskStep, f: Faults)
    requires lock.Persisting? && lock.saver.ByLoad? && lock.id == id && DiskReady(c, lock, step)
    requires PhaseOk(c, lock.phase, lock.before)
    requires Progress(id, Some(d), c, false, Some(lock), f)
    ensures
      var g := if Ends(step).Some? then Written(f, id, FaultOf(step)) else f;
      Progress(id, Some(d), DiskCell(c, lock, step), false, Grip(DiskLock(lock, step), id), g)
  {
  }

  function Actor(s: State, step: Step): Id
    requires step.LoadJob? || (step.OfDisk? && Held(s.lock))
  {
    if step.LoadJob? then step.id else s.lock.id
  }

  /** The directories a step does not deal with are as far as they were. */
  lemma OthersStayInTheStart(disk: map<Id, Dir>, s: State, step: Step, f: Faults, other: Id)
    requires EraOf(s.lock) == Starting && Enabled(s, step) && (step.LoadJob? || step.OfDisk?)
    requires other in s.cells && other != Actor(s, step)
    requires Progress(other, Found(disk, other), s.cells[other], other in Unloaded(s.lock), Grip(s.lock, other), f)
    ensures
      var t := Do(s, step);
      && other in t.cells
      && Progress(other, Found(disk, other), t.cells[other], other in Unloaded(t.lock), Grip(t.lock, other),
        FaultsAfter(s, f, step))
  {
    var g := FaultsAfter(s, f, step);
    assert f.sight(other) == g.sight(other) && f.persist(other) == g.persist(other)
      && f.removal(other) == g.removal(other);
    hide FaultsAfter, DiskCell, LoadedCell, DiskReady, Restored, DirAfterLoad;
  }

  lemma TheActorGoesOn(disk: map<Id, Dir>, s: State, step: Step, f: Faults, id: Id)
    requires Reachable(s) && EraOf(s.lock) == Starting && Enabled(s, step) && (step.LoadJob? || step.OfDisk?)
    requires id == Actor(s, step) && id in s.cells
    requires Progress(id, Found(disk, id), s.cells[id], id in Unloaded(s.lock), Grip(s.lock, id), f)
    ensures
      var t := Do(s, step);
      Progress(id, Found(disk, id), t.cells[id], id in Unloaded(t.lock), Grip(t.lock, id), FaultsAfter(s, f, step))
  {
    ReachableKeeps(s);
    AnyJob(s, id);
    hide DiskOk, MemOk, RunnerOk, OwnerOk, CreatorOk;
    if step.LoadJob? {
      LoadingGoesOn(id, disk[id], s.cells[id], s.lock, step.sight, f);
    } else if s.lock.Persisting? {
      WritingGoesOn(id, disk[id], s.cells[id], s.lock, step.disk, f);
    } else {
      RemovingGoesOn(id, disk[id], s.cells[id], s.lock, step.disk, f);
    }
  }

  lemma AStartStepGoesOn(disk: map<Id, Dir>, s: State, step: Step, f: Faults)
    requires Reachable(s) && EraOf(s.lock) == Starting && StartedFrom(disk, s, f)
    requires Enabled(s, step) && (step.LoadJob? || step.OfDisk?)
    ensures StartedFrom(disk, Do(s, step), FaultsAfter(s, f, step))
    ensures EraOf(Do(s, step).lock) == Starting
  {
    AStartGoesOn(s, step);
    TheActorGoesOn(disk, s, step, f, Actor(s, step));
    forall other | other in s.cells && other != Actor(s, step) {
      OthersStayInTheStart(disk, s, step, f, other);
    }
    hide Do, Enabled, FaultsAfter, Progress;
  }

  lemma AStartGoesOn(s: State, step: Step)
    requires EraOf(s.lock) == Starting && Enabled(s, step) && (step.LoadJob? || step.OfDisk?)
    ensures EraOf(Do(s, step).lock) == Starting && Do(s, step).cells.Keys == s.cells.Keys
    ensures Actor(s, step) in s.cells
  {
  }

  /** What the start has met after a number of its steps. */
  function FaultsOf(s: State, f: Faults, steps: seq<Step>): Faults
    requires Legal(s, steps)
    decreases |steps|
  {
    if steps == [] then f else FaultsOf(Do(s, steps[0]), FaultsAfter(s, f, steps[0]), steps[1..])
  }

  predicate LoadsOnly(steps: seq<Step>) {
    forall step :: step in steps ==> step.LoadJob? || step.OfDisk?
  }

  lemma {:induction false} LoadingStepsGoOn(disk: map<Id, Dir>, s: State, steps: seq<Step>, f: Faults)
    requires Reachable(s) && EraOf(s.lock) == Starting && StartedFrom(disk, s, f)
    requires Legal(s, steps) && LoadsOnly(steps)
    ensures StartedFrom(disk, RunOf(s, steps), FaultsOf(s, f, steps))
    decreases |steps|
  {
    hide Do, Enabled, Reachable, StartedFrom, FaultsAfter;
    if steps != [] {
      AStartStepGoesOn(disk, s, steps[0], f);
      AStepIsReachable(s, steps[0]);
      LoadingStepsGoOn(disk, Do(s, steps[0]), steps[1..], FaultsAfter(s, f, steps[0]));
    }
  }

  const NO_FAULTS := Store.StartFaults(_ => CLEAR, _ => NoFault, _ => Removed)

  /** A start that is not cut short leaves the memory and the disk the store's load describes, for the faults it met:
      whatever the order of the directories, and however each write and removal went. */
  lemma AStartIsOneLoad(s: State, steps: seq<Step>)
    requires Reachable(s) && s.lock.Down? && LoadsOnly(steps)
    requires Legal(Do(s, BeginStart), steps) && Enabled(RunOf(Do(s, BeginStart), steps), EndStart)
    ensures
      var t := RunOf(Do(s, BeginStart), steps);
      var f := FaultsOf(Do(s, BeginStart), NO_FAULTS, steps);
      JobsOf(t) == Store.LoadedJobs(DiskOf(s), f) && DiskOf(t) == Store.LoadedDisk(DiskOf(s), f)
  {
    var disk := DiskOf(s);
    var began := Do(s, BeginStart);
    AStepIsReachable(s, BeginStart);
    forall id | id in s.cells
      ensures Progress(id, Found(disk, id), began.cells[id], id in Unloaded(began.lock), Grip(began.lock, id),
        NO_FAULTS)
    {
      AnyJob(s, id);
    }
    LoadingStepsGoOn(disk, began, steps, NO_FAULTS);
    LoadedIsLoaded(disk, RunOf(began, steps), FaultsOf(began, NO_FAULTS, steps));
  }

  lemma LoadedIsLoaded(disk: map<Id, Dir>, t: State, f: Faults)
    requires t.lock == Loading({}) && StartedFrom(disk, t, f)
    ensures JobsOf(t) == Store.LoadedJobs(disk, f) && DiskOf(t) == Store.LoadedDisk(disk, f)
  {
    hide Restored, DirAfterLoad;
    forall id | id in t.cells
      ensures t.cells[id].dir == if id in disk then Store.LoadedDir(disk, id, f) else None
      ensures t.cells[id].mem == if id in disk then Restored(id, disk[id], f.sight(id)) else None
    {
      assert Progress(id, Found(disk, id), t.cells[id], false, None, f);
    }
  }
}
