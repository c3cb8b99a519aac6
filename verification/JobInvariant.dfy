/** What every step of the job protocol keeps. */
module JobInvariant {
  import opened Wrappers
  import opened JobDisk
  import opened JobProtocol
  import opened FiniteSets

  // ---------------------------------------------------------------- what is kept for one job

  function Rank(status: Status): nat {
    match status
    case Queued => 0
    case Running => 1
    case Completed => 2
    case Failed => 2
  }

  /** A record is at most one life stage ahead of another, or is that record. */
  predicate Precedes(a: Record, b: Record) {
    a == b || Rank(a.status) < Rank(b.status)
  }

  /** The life of a status: queued, running, finished; or queued, failed. */
  predicate MayFollow(a: Status, b: Status) {
    (a.Queued? && (b.Running? || b.Failed?)) || (a.Running? && b.Terminal())
  }

  predicate Gone(c: Cell) {
    c.swept || c.unread
  }

  predicate RecordOk(id: Id, c: Cell, r: Record) {
    r.id == id && r.createdAt == c.born && r.downloadUrl == "" && (r.status.Completed? ==> c.produced.Some?)
  }

  /** A result file is absent or exactly what masking produced. */
  predicate ResultOk(c: Cell, f: File<Bytes>) {
    f.Absent? || (c.produced.Some? && f == Whole(c.produced.value))
  }

  predicate ResultKept(c: Cell) {
    c.dir.Some? && c.produced.Some? && c.dir.value.output == Whole(c.produced.value)
  }

  predicate HasUpload(c: Cell) {
    c.dir.Some? && c.dir.value.input == Whole(c.upload)
  }

  predicate StoredRecordOk(id: Id, c: Cell, d: Dir) {
    d.record.Whole? ==>
      var r := d.record.value;
      && c.accepted && RecordOk(id, c, r)
      && (c.mem.Some? ==> Precedes(r, c.mem.value.record))
      && (r.status.Completed? ==> ResultOk(c, d.output) && (!Gone(c) ==> ResultKept(c)))
  }

  /** The record on disk is never damaged, and an accepted job keeps it until it is removed. */
  predicate DiskOk(id: Id, c: Cell) {
    && (c.dir.Some? ==> !c.dir.value.record.Partial? && StoredRecordOk(id, c, c.dir.value))
    && (c.accepted && !Gone(c) ==> c.dir.Some? && c.dir.value.record.Whole?)
  }

  predicate MemOk(id: Id, c: Cell) {
    c.mem.Some? ==>
      var j := c.mem.value;
      && RecordOk(id, c, j.record)
      && (c.accepted || c.creator == Some(Creating)) && c.dir.Some?
      && (j.hasOutput ==> j.record.status.Completed?)
      && (j.record.status.Completed? ==>
        (c.dir.Some? ==> ResultOk(c, c.dir.value.output)) && (!Gone(c) ==> ResultKept(c)))
  }

  /** An unfinished job in memory has exactly one owner. */
  predicate OwnerOk(c: Cell) {
    && !(c.runner.Some? && c.creator.Some?)
    && (c.runner.None? && c.creator.None? && c.mem.Some? ==> c.mem.value.record.status.Terminal())
  }

  predicate Unstarted(id: Id, c: Cell) {
    c.mem == Some(QueuedJob(id, c)) && HasUpload(c) && c.produced.None? && !Gone(c)
  }

  predicate NextOk(c: Cell, job: Job, next: Then) {
    match next
    case ThenMask(input) => job.record.status.Running? && input == c.upload && c.produced.None?
    case ThenRelease => job.record.status.Terminal()
    case ThenLeave => job.record.status.Terminal()
  }

  predicate UnderwayOk(id: Id, c: Cell, job: Job) {
    && c.mem.Some? && c.mem.value.record.status.Running? && !Gone(c)
    && RecordOk(id, c, job.record) && job.record.status.Running? && !job.hasOutput
  }

  predicate WantSaveOk(id: Id, c: Cell, job: Job, next: Then) {
    && c.mem.Some? && !Gone(c) && MayFollow(c.mem.value.record.status, job.record.status)
    && RecordOk(id, c, job.record) && NextOk(c, job, next)
    && (job.hasOutput ==> job.record.status.Completed?)
    && (job.record.status.Completed? ==> ResultKept(c))
  }

  predicate RunnerAt(id: Id, c: Cell, r: Runner) {
    match r
    case Checking => Unstarted(id, c)
    case Waiting => Unstarted(id, c)
    case Refused => Unstarted(id, c)
    case Granted => Unstarted(id, c)
    case Fetched(job) => Unstarted(id, c) && job == QueuedJob(id, c)
    case WantSave(job, next) => WantSaveOk(id, c, job, next)
    case Saving(job, next) => c.mem == Some(job) && !Gone(c) && NextOk(c, job, next)
    case Masking(job, input) => UnderwayOk(id, c, job) && input == c.upload && c.produced.None?
    case Delivering(job, content) => UnderwayOk(id, c, job) && c.produced == Some(content)
    case Writing(job, content) => UnderwayOk(id, c, job) && c.produced == Some(content)
    case Releasing => c.mem.Some? ==> c.mem.value.record.status.Terminal()
    case Leaving => c.mem.Some? ==> c.mem.value.record.status.Terminal()
  }

  predicate RunnerOk(id: Id, c: Cell) {
    c.runner.Some? ==> c.accepted && RunnerAt(id, c, c.runner.value)
  }

  predicate CreatorAt(id: Id, c: Cell, k: Creator) {
    match k
    case Begun => !c.accepted && c.mem.None? && c.dir.None?
    case Opening => !c.accepted && c.mem.None? && c.dir == Some(EMPTY_DIR)
    case Uploading => !c.accepted && c.mem.None? && c.dir == Some(EMPTY_DIR.(input := Partial))
    case Uploaded => !c.accepted && c.mem.None? && c.dir == Some(EMPTY_DIR.(input := Whole(c.upload)))
    case Creating => !c.accepted && Unstarted(id, c)
    case Undoing => !c.accepted && c.mem.None?
    case Accepted => c.accepted && Unstarted(id, c)
    case Declined => c.accepted && Unstarted(id, c)
    case Marking => c.accepted && c.mem.Some? && c.mem.value.record.status.Failed?
  }

  predicate CreatorOk(id: Id, c: Cell) {
    c.creator.Some? ==> c.produced.None? && !Gone(c) && CreatorAt(id, c, c.creator.value)
  }

  /** The directory while a record is being written is the one found, changed as far as the write has come. */
  predicate PhaseOk(c: Cell, phase: Phase, before: Option<Dir>) {
    && c.mem.Some?
    && match phase
       case AtDirectory => c.dir == before
       case AtOpen => c.dir == Some(DirOrEmpty(before))
       case AtWrite => c.dir == Some(DirOrEmpty(before).(temp := Partial))
       case AtRename => c.dir == Some(DirOrEmpty(before).(temp := Whole(c.mem.value.record)))
       case AtCleanup => c.dir == Some(DirOrEmpty(before).(temp := Whole(c.mem.value.record)))
  }

  predicate SaverOk(c: Cell, saver: Saver) {
    match saver
    case ByCreate => c.creator == Some(Creating)
    case ByInterrupt => c.creator == Some(Marking)
    case ByRunner => c.runner.Some? && c.runner.value.Saving?
    case ByLoad(_) =>
      && c.runner.None? && c.creator.None? && c.dir.Some? && c.dir.value.record.Whole? && c.mem.Some?
      && c.mem.value.record == Revived(c.dir.value.record.value)
  }

  predicate RemoverOk(c: Cell, why: Remover) {
    match why
    case ForCreate => c.creator == Some(Undoing)
    case ForSweep(_, _) => c.swept && c.creator.None? && c.mem.Some? && c.mem.value.record.status.Terminal()
    case ForLoad(_) => c.mem.None? && c.creator.None? && c.runner.None? && (c.accepted ==> Gone(c))
  }

  /** Exactly the owner that waits for a write or a removal holds the lock. */
  predicate GripOk(c: Cell, grip: Option<Lock>) {
    && (c.creator == Some(Creating) ==> grip.Some? && grip.value.Persisting? && grip.value.saver.ByCreate?)
    && (c.creator == Some(Marking) ==> grip.Some? && grip.value.Persisting? && grip.value.saver.ByInterrupt?)
    && (c.creator == Some(Undoing) ==> grip.Some? && grip.value.Removing? && grip.value.why.ForCreate?)
    && (c.runner.Some? && c.runner.value.Saving? ==> grip.Some? && grip.value.Persisting? && grip.value.saver.ByRunner?)
    && (grip.Some? && grip.value.Persisting? ==>
          PhaseOk(c, grip.value.phase, grip.value.before) && SaverOk(c, grip.value.saver))
    && (grip.Some? && grip.value.Removing? ==> RemoverOk(c, grip.value.why))
  }

  predicate EraOk(c: Cell, era: Era, unloaded: bool) {
    && (era != Serving ==> c.runner.None? && c.creator.None?)
    && (era == Off || unloaded ==> c.mem.None?) && (unloaded ==> c.dir.Some?)
    && (era != Off && !unloaded && c.accepted && !Gone(c) ==> c.mem.Some?)
  }

  predicate CellOk(id: Id, c: Cell, era: Era, unloaded: bool, grip: Option<Lock>) {
    && DiskOk(id, c) && MemOk(id, c) && OwnerOk(c) && RunnerOk(id, c) && CreatorOk(id, c)
    && GripOk(c, grip) && EraOk(c, era, unloaded)
  }

  // ---------------------------------------------------------------- what is kept for the whole service

  function Holders(s: State): set<Id> {
    set id | id in s.cells && HoldsSlot(s.cells[id].runner)
  }

  predicate GlobalOk(s: State) {
    && s.capacity > 0
    && s.tokens == |Holders(s)| && s.tokens <= s.capacity
    && (s.lock.Persisting? || s.lock.Removing? ==> s.lock.id in s.cells && s.lock.id !in Unloaded(s.lock))
    && Unloaded(s.lock) <= s.cells.Keys && Unswept(s.lock) <= s.cells.Keys
    && (EraOf(s.lock) != Serving ==> !s.draining && !s.stopped)
    && (s.stopped ==> s.draining && forall id :: id in s.cells ==> s.cells[id].runner.None?)
  }

  predicate JobOk(s: State, id: Id)
    requires id in s.cells
  {
    CellOk(id, s.cells[id], EraOf(s.lock), id in Unloaded(s.lock), Grip(s.lock, id))
  }

  ghost predicate Inv(s: State) {
    GlobalOk(s) && forall id :: id in s.cells ==> JobOk(s, id)
  }

  // ---------------------------------------------------------------- one job at a time

  predicate Held(lock: Lock) {
    lock.Persisting? || lock.Removing?
  }

  /** The lock goes over from nobody to one job, from that job to nobody, or stays with it. */
  predicate LockMoves(a: Lock, b: Lock, id: Id) {
    && EraOf(b) == EraOf(a)
    && Unloaded(b) <= Unloaded(a) && Unloaded(a) <= Unloaded(b) + {id} && Unswept(b) <= Unswept(a)
    && (Held(a) ==> a == b || a.id == id)
    && (Held(b) ==> a == b || (b.id == id && id !in Unloaded(b)))
  }

  function Token(c: Cell): nat {
    if HoldsSlot(c.runner) then 1 else 0
  }

  lemma MoveKeepsTheService(s: State, id: Id, c: Cell, lock: Lock, tokens: nat)
    requires GlobalOk(s) && LockMoves(s.lock, lock, id)
    requires tokens == s.tokens + Token(c) - (if id in s.cells then Token(s.cells[id]) else 0) && tokens <= s.capacity
    requires s.stopped ==> c.runner.None?
    ensures GlobalOk(Move(s, id, c, lock, tokens))
  {
    hide HoldsSlot;
    var t := Move(s, id, c, lock, tokens);
    assert Holders(t) - {id} == Holders(s) - {id};
    OneMove(Holders(s), Holders(t), id);
    assert tokens == |Holders(t)|;
    hide Holders, Token;
  }

  lemma MoveKeepsTheOthers(s: State, id: Id, c: Cell, lock: Lock, tokens: nat, other: Id)
    requires LockMoves(s.lock, lock, id) && other in s.cells && other != id && JobOk(s, other)
    ensures JobOk(Move(s, id, c, lock, tokens), other)
  {
    hide CellOk;
    assert Grip(lock, other) == Grip(s.lock, other);
  }

  /** A step that changes one job keeps the invariant if it keeps it for that job and the tokens follow its runner. */
  lemma MoveKeeps(s: State, id: Id, c: Cell, lock: Lock, tokens: nat)
    requires Inv(s) && LockMoves(s.lock, lock, id)
    requires CellOk(id, c, EraOf(lock), id in Unloaded(lock), Grip(lock, id))
    requires tokens == s.tokens + Token(c) - (if id in s.cells then Token(s.cells[id]) else 0) && tokens <= s.capacity
    requires s.stopped ==> c.runner.None?
    ensures Inv(Move(s, id, c, lock, tokens))
  {
    var t := Move(s, id, c, lock, tokens);
    assert JobOk(t, id);
    MoveKeepsTheService(s, id, c, lock, tokens);
    hide JobOk, GlobalOk, LockMoves, Token;
    forall other | other in t.cells
      ensures JobOk(t, other)
    {
      if other != id {
        MoveKeepsTheOthers(s, id, c, lock, tokens, other);
      }
    }
  }
}
