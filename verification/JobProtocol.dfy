/** The asynchronous job protocol as a step system: request handlers that create jobs, one runner
    per accepted job, the retention sweeper, draining, crashes between any two file operations,
    and the start that reads the disk back.

    All that concerns one job is kept in one cell. The store's mutex is the lock: whoever
    holds it is in the middle of writing a record or removing a directory, one file operation
    per step. Every clock reading, fault and answer is an argument of its step. */
module JobProtocol {
  import opened Wrappers
  import opened JobDisk

  /** How far writing a record has come. */
  datatype Phase = AtDirectory | AtOpen | AtWrite | AtRename | AtCleanup

  datatype Saver = ByCreate | ByInterrupt | ByRunner | ByLoad(todo: set<Id>)

  datatype Remover = ForCreate | ForSweep(cutoff: Time, todo: set<Id>) | ForLoad(todo: set<Id>)

  /** The store's mutex, and before that the progress of a start. `before` remembers the directory as the write
      found it. */
  datatype Lock =
    | Down
    | Loading(todo: set<Id>)
    | Free
    | Sweeping(cutoff: Time, todo: set<Id>)
    | Persisting(saver: Saver, id: Id, phase: Phase, before: Option<Dir>)
    | Removing(why: Remover, id: Id)

  datatype Era = Off | Starting | Serving

  function EraOf(lock: Lock): Era {
    match lock
    case Down => Off
    case Loading(_) => Starting
    case Free => Serving
    case Sweeping(_, _) => Serving
    case Persisting(saver, _, _, _) => if saver.ByLoad? then Starting else Serving
    case Removing(why, _) => if why.ForLoad? then Starting else Serving
  }

  /** The directories a start has not read yet. */
  function Unloaded(lock: Lock): set<Id> {
    match lock
    case Loading(todo) => todo
    case Persisting(ByLoad(todo), _, _, _) => todo
    case Removing(ForLoad(todo), _) => todo
    case _ => {}
  }

  /** The jobs a sweep has not looked at yet. */
  function Unswept(lock: Lock): set<Id> {
    match lock
    case Sweeping(_, todo) => todo
    case Removing(ForSweep(_, todo), _) => todo
    case _ => {}
  }

  /** The lock as one job sees it: held on its behalf or not. */
  function Grip(lock: Lock, id: Id): Option<Lock> {
    if (lock.Persisting? || lock.Removing?) && lock.id == id then Some(lock) else None
  }

  /** What a runner does once its record is saved. */
  datatype Then = ThenMask(input: Bytes) | ThenRelease | ThenLeave

  /** Where a registered runner is. */
  datatype Runner =
    | Checking
    | Waiting
    | Refused
    | Granted
    | Fetched(job: Job)
    | WantSave(job: Job, next: Then)
    | Saving(job: Job, next: Then)
    | Masking(job: Job, input: Bytes)
    | Delivering(job: Job, content: Bytes)
    | Writing(job: Job, content: Bytes)
    | Releasing
    | Leaving

  /** Between taking a slot and giving it back. */
  predicate HoldsSlot(runner: Option<Runner>) {
    match runner
    case None => false
    case Some(Checking) => false
    case Some(Waiting) => false
    case Some(Refused) => false
    case Some(Leaving) => false
    case Some(WantSave(_, next)) => !next.ThenLeave?
    case Some(Saving(_, next)) => !next.ThenLeave?
    case Some(_) => true
  }

  /** Where a request that creates a job is. */
  datatype Creator = Begun | Opening | Uploading | Uploaded | Creating | Undoing | Accepted | Declined | Marking

  /** One job: memory, disk, the goroutines working for it, and its history. */
  datatype Cell = Cell(
    mem: Option<Job>,
    dir: Option<Dir>,
    runner: Option<Runner>,
    creator: Option<Creator>,
    born: Time,              // the clock when the request arrived
    upload: Bytes,
    produced: Option<Bytes>, // what masking returned
    accepted: bool,          // Create reported success
    swept: bool,             // a sweep began to remove it
    unread: bool)            // a start could not read its record

  datatype State = State(
    cells: map<Id, Cell>, lock: Lock, capacity: nat, tokens: nat, draining: bool, stopped: bool)

  function Start(capacity: nat): State {
    State(map[], Down, capacity, 0, false, false)
  }

  function QueuedJob(id: Id, c: Cell): Job {
    Job(Record(id, Queued, c.born, c.born, None, ""), true, false)
  }

  function Updated(job: Job, status: Status, error: Option<string>, now: Time): Job {
    job.(record := job.record.(status := status, updatedAt := now, error := error))
  }

  /** The state after a step that changed one job, the lock and the number of tokens in the slot channel. */
  function Move(s: State, id: Id, c: Cell, lock: Lock, tokens: nat): State {
    s.(cells := s.cells[id := c], lock := lock, tokens := tokens)
  }

  // ---------------------------------------------------------------- the request that creates a job

  datatype CreatorStep =
    | MakeDir(ok: bool)
    | OpenInput(ok: bool)
    | WriteInput(ok: bool)
    | Store
    | StartRunner
    | Interrupt(now: Time)

  predicate CreatorReady(c: Cell, lock: Lock, step: CreatorStep) {
    match step
    case MakeDir(_) => c.creator == Some(Begun)
    case OpenInput(_) => c.creator == Some(Opening)
    case WriteInput(_) => c.creator == Some(Uploading)
    case Store => c.creator == Some(Uploaded) && lock.Free?
    case StartRunner => c.creator == Some(Accepted)
    case Interrupt(_) => c.creator == Some(Declined) && lock.Free?
  }

  function CreatorCell(id: Id, c: Cell, draining: bool, step: CreatorStep): Cell {
    var d := DirOrEmpty(c.dir);
    match step
    case MakeDir(ok) =>
      if ok then c.(dir := Some(d), creator := Some(Opening)) else c.(creator := None)
    case OpenInput(ok) =>
      if ok then c.(dir := Some(d.(input := Partial)), creator := Some(Uploading)) else c.(creator := None)
    case WriteInput(ok) =>
      if ok then c.(dir := Some(d.(input := Whole(c.upload))), creator := Some(Uploaded)) else c.(creator := None)
    case Store => c.(mem := Some(QueuedJob(id, c)), creator := Some(Creating))
    case StartRunner =>
      if draining then c.(creator := Some(Declined)) else c.(creator := None, runner := Some(Checking))
    case Interrupt(now) =>
      c.(mem := Some(Updated(QueuedJob(id, c), Failed, Some(INTERRUPTED), now)), creator := Some(Marking))
  }

  function CreatorLock(id: Id, c: Cell, lock: Lock, step: CreatorStep): Lock {
    match step
    case Store => Persisting(ByCreate, id, AtDirectory, c.dir)
    case Interrupt(_) => Persisting(ByInterrupt, id, AtDirectory, c.dir)
    case _ => lock
  }

  // ---------------------------------------------------------------- the runner of a job

  datatype RunnerStep =
    | Check
    | Take
    | Decline
    | LookUpRefused(now: Time)
    | LookUpGranted
    | ReadInput(got: Option<Bytes>, now: Time)
    | Mask(outcome: Result<Bytes, string>, now: Time)
    | OpenOutput(ok: bool)
    | WriteOutput(ok: bool)
    | Save
    | Release
    | Leave

  /** Reading a file gives its content, or for a damaged file anything at all. */
  predicate CanRead(dir: Option<Dir>, content: Bytes) {
    dir.Some? && (dir.value.input == Whole(content) || dir.value.input.Partial?)
  }

  /** Sending to the slot channel needs room in it, receiving from it needs a token in it. */
  predicate RunnerReady(c: Cell, s: State, step: RunnerStep) {
    && c.runner.Some?
    && var r := c.runner.value;
       match step
       case Check => r.Checking?
       case Take => r.Waiting? && s.tokens < s.capacity
       case Decline => r.Waiting? && s.draining
       case LookUpRefused(_) => r.Refused? && s.lock.Free?
       case LookUpGranted => r.Granted? && s.lock.Free?
       case ReadInput(got, _) => r.Fetched? && (got.Some? ==> r.job.hasInput && CanRead(c.dir, got.value))
       case Mask(_, _) => r.Masking?
       case OpenOutput(_) => r.Delivering?
       case WriteOutput(_) => r.Writing?
       case Save => r.WantSave? && s.lock.Free?
       case Release => r.Releasing? && s.tokens > 0
       case Leave => r.Leaving?
  }

  function Unwritten(job: Job): Job {
    Updated(job, Failed, Some("storage_write_failed"), job.record.updatedAt)
  }

  function Delivered(job: Job): Job {
    Updated(job, Completed, None, job.record.updatedAt).(hasOutput := true)
  }

  function AfterRead(job: Job, got: Option<Bytes>, now: Time): Runner {
    match got
    case None => WantSave(Updated(job, Failed, Some("storage_read_failed"), now), ThenRelease)
    case Some(input) => WantSave(Updated(job, Running, job.record.error, now), ThenMask(input))
  }

  function AfterMask(job: Job, outcome: Result<Bytes, string>, now: Time): Runner {
    match outcome
    case Err(code) => WantSave(Updated(job, Failed, Some(code), now), ThenRelease)
    case Ok(content) => Delivering(Updated(job, Running, None, now), content)
  }

  function RunnerCell(c: Cell, s: State, step: RunnerStep): Cell
    requires RunnerReady(c, s, step)
  {
    var r := c.runner.value;
    var d := DirOrEmpty(c.dir);
    match step
    case Check => c.(runner := Some(if s.draining then Refused else Waiting))
    case Take => c.(runner := Some(Granted))
    case Decline => c.(runner := Some(Refused))
    case LookUpRefused(now) =>
      c.(runner := Some(if c.mem.None? then Leaving
                        else WantSave(Updated(c.mem.value, Failed, Some(INTERRUPTED), now), ThenLeave)))
    case LookUpGranted => c.(runner := Some(if c.mem.None? then Releasing else Fetched(c.mem.value)))
    case ReadInput(got, now) => c.(runner := Some(AfterRead(r.job, got, now)))
    case Mask(outcome, now) =>
      c.(produced := if outcome.Ok? then Some(outcome.value) else c.produced,
         runner := Some(AfterMask(r.job, outcome, now)))
    case OpenOutput(ok) =>
      if ok then c.(dir := Some(d.(output := Partial)), runner := Some(Writing(r.job, r.content)))
      else c.(runner := Some(WantSave(Unwritten(r.job), ThenRelease)))
    case WriteOutput(ok) =>
      if ok then c.(dir := Some(d.(output := Whole(r.content))),
        runner := Some(WantSave(Delivered(r.job), ThenRelease)))
      else c.(runner := Some(WantSave(Unwritten(r.job), ThenRelease)))
    case Save => c.(mem := Some(r.job), runner := Some(Saving(r.job, r.next)))
    case Release => c.(runner := Some(Leaving))
    case Leave => c.(runner := None)
  }

  function RunnerLock(id: Id, c: Cell, lock: Lock, step: RunnerStep): Lock {
    if step.Save? then Persisting(ByRunner, id, AtDirectory, c.dir) else lock
  }

  function RunnerTokens(s: State, step: RunnerStep): nat {
    if step.Take? then s.tokens + 1 else if step.Release? && s.tokens > 0 then s.tokens - 1 else s.tokens
  }

  /** Where a runner goes on after its Save, whose error it ignores. */
  function AfterSave(runner: Option<Runner>): Option<Runner> {
    match runner
    case Some(Saving(job, ThenMask(input))) => Some(Masking(job, input))
    case Some(Saving(_, ThenRelease)) => Some(Releasing)
    case Some(Saving(_, ThenLeave)) => Some(Leaving)
    case _ => runner
  }

  // ---------------------------------------------------------------- file operations under the lock

  datatype DiskStep =
    | MkDir(ok: bool)
    | OpenTemp(ok: bool)
    | WriteTemp(ok: bool)
    | Rename(ok: bool)
    | CleanUp(removed: bool)
    | RemovePart(part: Part)
    | RemoveDir(ok: bool)

  predicate DiskReady(c: Cell, lock: Lock, step: DiskStep) {
    match step
    case MkDir(_) => lock.Persisting? && lock.phase.AtDirectory?
    case OpenTemp(_) => lock.Persisting? && lock.phase.AtOpen?
    case WriteTemp(ok) => lock.Persisting? && lock.phase.AtWrite? && (ok ==> c.mem.Some?)
    case Rename(_) => lock.Persisting? && lock.phase.AtRename?
    case CleanUp(_) => lock.Persisting? && lock.phase.AtCleanup?
    case RemovePart(part) => lock.Removing? && c.dir.Some? && Without(c.dir.value, part) != c.dir.value
    case RemoveDir(ok) => lock.Removing? && (ok ==> c.dir.None? || c.dir.value == EMPTY_DIR)
  }

  /** Whether the write or the removal is over with this step, and if so whether it succeeded. */
  function Ends(step: DiskStep): Option<bool> {
    match step
    case MkDir(ok) => if ok then None else Some(false)
    case OpenTemp(ok) => if ok then None else Some(false)
    case WriteTemp(ok) => if ok then None else Some(false)
    case Rename(ok) => if ok then Some(true) else None
    case CleanUp(_) => Some(false)
    case RemovePart(_) => None
    case RemoveDir(ok) => Some(ok)
  }

  function DirAfter(c: Cell, step: DiskStep): Option<Dir>
    requires step == WriteTemp(true) ==> c.mem.Some?
  {
    var d := DirOrEmpty(c.dir);
    match step
    case MkDir(ok) => if ok then Some(d) else c.dir
    case OpenTemp(ok) => if ok then Some(d.(temp := Partial)) else c.dir
    case WriteTemp(ok) => if ok then Some(d.(temp := Whole(c.mem.value.record))) else c.dir
    case Rename(ok) => if ok then Some(d.(record := d.temp, temp := Absent)) else c.dir
    case CleanUp(removed) => if removed then Some(d.(temp := Absent)) else c.dir
    case RemovePart(part) => Some(Without(d, part))
    case RemoveDir(ok) => if ok then None else c.dir
  }

  function PhaseAfter(step: DiskStep): Phase {
    match step
    case MkDir(_) => AtOpen
    case OpenTemp(_) => AtWrite
    case WriteTemp(_) => AtRename
    case _ => AtCleanup
  }

  /** What the holder of the lock does once its record is written or cannot be. */
  function SaverCell(c: Cell, saver: Saver, ok: bool): Cell {
    match saver
    case ByCreate =>
      if ok then c.(creator := Some(Accepted), accepted := true) else c.(mem := None, creator := Some(Undoing))
    case ByInterrupt => c.(creator := None)
    case ByRunner => c.(runner := AfterSave(c.runner))
    case ByLoad(_) => c
  }

  function SaverLock(saver: Saver, id: Id, ok: bool): Lock {
    match saver
    case ByCreate => if ok then Free else Removing(ForCreate, id)
    case ByInterrupt => Free
    case ByRunner => Free
    case ByLoad(todo) => Loading(todo)
  }

  function RemoverCell(c: Cell, why: Remover, ok: bool): Cell {
    match why
    case ForCreate => c.(creator := None)
    case ForSweep(_, _) => if ok then c.(mem := None) else c
    case ForLoad(_) => c
  }

  function RemoverLock(why: Remover): Lock {
    match why
    case ForCreate => Free
    case ForSweep(cutoff, todo) => Sweeping(cutoff, todo)
    case ForLoad(todo) => Loading(todo)
  }

  function DiskCell(c: Cell, lock: Lock, step: DiskStep): Cell
    requires DiskReady(c, lock, step)
  {
    var d := c.(dir := DirAfter(c, step));
    match Ends(step)
    case None => d
    case Some(ok) => if lock.Persisting? then SaverCell(d, lock.saver, ok) else RemoverCell(d, lock.why, ok)
  }

  function DiskLock(lock: Lock, step: DiskStep): Lock
    requires lock.Persisting? || lock.Removing?
  {
    match Ends(step)
    case None => if lock.Persisting? then lock.(phase := PhaseAfter(step)) else lock
    case Some(ok) => if lock.Persisting? then SaverLock(lock.saver, lock.id, ok) else RemoverLock(lock.why)
  }

  // ---------------------------------------------------------------- sweeps, starts, crashes and stops

  datatype Step =
    | Arrive(id: Id, upload: Bytes, now: Time)
    | OfCreator(id: Id, creator: CreatorStep)
    | OfRunner(id: Id, runner: RunnerStep)
    | OfDisk(disk: DiskStep)
    | BeginSweep(cutoff: Time)
    | SweepJob(id: Id)
    | EndSweep
    | Crash
    | BeginStart
    | LoadJob(id: Id, sight: Sight)
    | EndStart
    | Drain
    | ShutdownReturns

  function Remembered(s: State): set<Id> {
    set id | id in s.cells && s.cells[id].mem.Some?
  }

  function Directories(s: State): set<Id> {
    set id | id in s.cells && s.cells[id].dir.Some?
  }

  predicate Enabled(s: State, step: Step) {
    match step
    case Arrive(id, _, _) => EraOf(s.lock) == Serving && id !in s.cells
    case OfCreator(id, t) => EraOf(s.lock) == Serving && id in s.cells && CreatorReady(s.cells[id], s.lock, t)
    case OfRunner(id, t) => EraOf(s.lock) == Serving && id in s.cells && RunnerReady(s.cells[id], s, t)
    case OfDisk(t) => (s.lock.Persisting? || s.lock.Removing?) && s.lock.id in s.cells
      && DiskReady(s.cells[s.lock.id], s.lock, t)
    case BeginSweep(_) => s.lock.Free?
    case SweepJob(id) => s.lock.Sweeping? && id in s.lock.todo && id in s.cells
    case EndSweep => s.lock.Sweeping? && s.lock.todo == {}
    case Crash => !s.lock.Down?
    case BeginStart => s.lock.Down?
    case LoadJob(id, _) => s.lock.Loading? && id in s.lock.todo && id in s.cells && s.cells[id].dir.Some?
    case EndStart => s.lock.Loading? && s.lock.todo == {}
    case Drain => EraOf(s.lock) == Serving
    case ShutdownReturns =>
      EraOf(s.lock) == Serving && s.draining && forall id :: id in s.cells ==> s.cells[id].runner.None?
  }

  function Do(s: State, step: Step): State
    requires Enabled(s, step)
  {
    match step
    case Arrive(id, upload, now) => Move(s, id, NewCell(upload, now), s.lock, s.tokens)
    case OfCreator(id, t) =>
      Move(s, id, CreatorCell(id, s.cells[id], s.draining, t), CreatorLock(id, s.cells[id], s.lock, t), s.tokens)
    case OfRunner(id, t) =>
      Move(s, id, RunnerCell(s.cells[id], s, t), RunnerLock(id, s.cells[id], s.lock, t), RunnerTokens(s, t))
    case OfDisk(t) =>
      Move(s, s.lock.id, DiskCell(s.cells[s.lock.id], s.lock, t), DiskLock(s.lock, t), s.tokens)
    case BeginSweep(cutoff) => s.(lock := Sweeping(cutoff, Remembered(s)))
    case SweepJob(id) => Move(s, id, SweepCell(s.cells[id], s.lock), SweepLock(id, s.cells[id], s.lock), s.tokens)
    case EndSweep => s.(lock := Free)
    case Crash => State(map id | id in s.cells :: Crashed(s.cells[id]), Down, s.capacity, 0, false, false)
    case BeginStart => s.(lock := Loading(Directories(s)))
    case LoadJob(id, sight) =>
      Move(s, id, LoadedCell(id, s.cells[id], sight), LoadLock(id, s.cells[id], s.lock, sight), s.tokens)
    case EndStart => s.(lock := Free)
    case Drain => s.(draining := true)
    case ShutdownReturns => s.(stopped := true)
  }

  function NewCell(upload: Bytes, now: Time): Cell {
    Cell(None, None, None, Some(Begun), now, upload, None, false, false, false)
  }

  predicate Due(c: Cell, cutoff: Time) {
    c.mem.Some? && Expired(c.mem.value, cutoff)
  }

  function SweepCell(c: Cell, lock: Lock): Cell
    requires lock.Sweeping?
  {
    if Due(c, lock.cutoff) then c.(swept := true) else c
  }

  function SweepLock(id: Id, c: Cell, lock: Lock): Lock
    requires lock.Sweeping?
  {
    var todo := lock.todo - {id};
    if Due(c, lock.cutoff) then Removing(ForSweep(lock.cutoff, todo), id) else lock.(todo := todo)
  }

  /** A process that dies leaves only what is on disk. */
  function Crashed(c: Cell): Cell {
    c.(mem := None, runner := None, creator := None)
  }

  function LoadedCell(id: Id, c: Cell, sight: Sight): Cell
    requires c.dir.Some?
  {
    match Restored(id, c.dir.value, sight)
    case None => if c.dir.value.record.Whole? then c.(unread := true) else c
    case Some(job) => c.(mem := Some(job))
  }

  function LoadLock(id: Id, c: Cell, lock: Lock, sight: Sight): Lock
    requires lock.Loading? && c.dir.Some?
  {
    var todo := lock.todo - {id};
    match ReadRecord(id, c.dir.value, sight)
    case None => Removing(ForLoad(todo), id)
    case Some(rec) => if WasInterrupted(rec) then Persisting(ByLoad(todo), id, AtDirectory, c.dir) else Loading(todo)
  }

  // ---------------------------------------------------------------- runs

  predicate Legal(s: State, steps: seq<Step>)
    decreases |steps|
  {
    steps == [] || (Enabled(s, steps[0]) && Legal(Do(s, steps[0]), steps[1..]))
  }

  function RunOf(s: State, steps: seq<Step>): State
    requires Legal(s, steps)
    decreases |steps|
  {
    if steps == [] then s else RunOf(Do(s, steps[0]), steps[1..])
  }

  /** Some run from an empty data directory leads to this state. */
  ghost predicate Reachable(s: State) {
    exists capacity: nat, steps: seq<Step> :: capacity > 0 && Legal(Start(capacity), steps)
      && RunOf(Start(capacity), steps) == s
  }
}
