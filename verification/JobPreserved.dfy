/** Every step of the job protocol keeps the invariant. */
module JobPreserved {
  import opened Wrappers
  import opened JobDisk
  import opened JobProtocol
  import opened JobInvariant

  // ---------------------------------------------------------------- the request that creates a job

  lemma CreatorKeepsTheJob(id: Id, c: Cell, lock: Lock, draining: bool, step: CreatorStep)
    requires CreatorReady(c, lock, step) && EraOf(lock) == Serving
    requires CellOk(id, c, Serving, false, Grip(lock, id))
    ensures CellOk(id, CreatorCell(id, c, draining, step), Serving, false, Grip(CreatorLock(id, c, lock, step), id))
  {
  }

  lemma ARequestHasNoRunner(id: Id, c: Cell, s: State, step: CreatorStep)
    requires CreatorReady(c, s.lock, step) && OwnerOk(c)
    ensures Token(c) == 0 && Token(CreatorCell(id, c, s.draining, step)) == 0
    ensures s.draining ==> CreatorCell(id, c, s.draining, step).runner.None?
  {
  }

  lemma CreatorKeeps(s: State, id: Id, step: CreatorStep)
    requires Inv(s) && Enabled(s, OfCreator(id, step))
    ensures Inv(Do(s, OfCreator(id, step)))
  {
    var c := s.cells[id];
    assert JobOk(s, id);
    ARequestHasNoRunner(id, c, s, step);
    hide CellOk, HoldsSlot, CreatorCell, CreatorReady, Token;
    CreatorKeepsTheJob(id, c, s.lock, s.draining, step);
    assert LockMoves(s.lock, CreatorLock(id, c, s.lock, step), id) by { CreatorLockMoves(id, c, s.lock, step); }
    hide CreatorLock, LockMoves;
    MoveKeeps(s, id, CreatorCell(id, c, s.draining, step), CreatorLock(id, c, s.lock, step), s.tokens);
  }

  lemma CreatorLockMoves(id: Id, c: Cell, lock: Lock, step: CreatorStep)
    requires CreatorReady(c, lock, step) && EraOf(lock) == Serving
    ensures LockMoves(lock, CreatorLock(id, c, lock, step), id)
    ensures EraOf(CreatorLock(id, c, lock, step)) == Serving && Unloaded(CreatorLock(id, c, lock, step)) == {}
  {
  }

  // ---------------------------------------------------------------- the runner of a job

  lemma RunnerKeepsTheJob(id: Id, c: Cell, s: State, step: RunnerStep)
    requires RunnerReady(c, s, step) && EraOf(s.lock) == Serving
    requires CellOk(id, c, Serving, false, Grip(s.lock, id))
    ensures CellOk(id, RunnerCell(c, s, step), Serving, false, Grip(RunnerLock(id, c, s.lock, step), id))
  {
    if step.ReadInput? || step.Mask? {
      MaskingKeepsTheJob(id, c, s, step);
    } else if step.OpenOutput? || step.WriteOutput? {
      DeliveryKeepsTheJob(id, c, s, step);
    } else if step.Save? {
      SavingKeepsTheJob(id, c, s);
    } else {
      QueueingKeepsTheJob(id, c, s, step);
    }
  }

  lemma QueueingKeepsTheJob(id: Id, c: Cell, s: State, step: RunnerStep)
    requires RunnerReady(c, s, step) && EraOf(s.lock) == Serving
    requires !step.ReadInput? && !step.Mask? && !step.OpenOutput? && !step.WriteOutput? && !step.Save?
    requires CellOk(id, c, Serving, false, Grip(s.lock, id))
    ensures CellOk(id, RunnerCell(c, s, step), Serving, false, Grip(s.lock, id))
  {
  }

  lemma SavingKeepsTheJob(id: Id, c: Cell, s: State)
    requires RunnerReady(c, s, Save) && EraOf(s.lock) == Serving
    requires CellOk(id, c, Serving, false, Grip(s.lock, id))
    ensures CellOk(id, RunnerCell(c, s, Save), Serving, false, Grip(RunnerLock(id, c, s.lock, Save), id))
  {
  }

  lemma MaskingKeepsTheJob(id: Id, c: Cell, s: State, step: RunnerStep)
    requires RunnerReady(c, s, step) && EraOf(s.lock) == Serving && (step.ReadInput? || step.Mask?)
    requires CellOk(id, c, Serving, false, Grip(s.lock, id))
    ensures CellOk(id, RunnerCell(c, s, step), Serving, false, Grip(s.lock, id))
  {
  }

  lemma DeliveryKeepsTheJob(id: Id, c: Cell, s: State, step: RunnerStep)
    requires RunnerReady(c, s, step) && EraOf(s.lock) == Serving && (step.OpenOutput? || step.WriteOutput?)
    requires CellOk(id, c, Serving, false, Grip(s.lock, id))
    ensures CellOk(id, RunnerCell(c, s, step), Serving, false, Grip(s.lock, id))
  {
  }

  /** A runner takes a token exactly when it starts to hold a slot, and can always give it back. */
  lemma TokensFollowTheRunner(c: Cell, s: State, step: RunnerStep)
    requires RunnerReady(c, s, step) && s.tokens <= s.capacity
    requires Token(c) <= s.tokens
    ensures RunnerTokens(s, step) == s.tokens + Token(RunnerCell(c, s, step)) - Token(c)
      && RunnerTokens(s, step) <= s.capacity
  {
  }

  lemma RunnerLockMoves(id: Id, c: Cell, s: State, step: RunnerStep)
    requires RunnerReady(c, s, step) && EraOf(s.lock) == Serving
    ensures LockMoves(s.lock, RunnerLock(id, c, s.lock, step), id)
    ensures EraOf(RunnerLock(id, c, s.lock, step)) == Serving && Unloaded(RunnerLock(id, c, s.lock, step)) == {}
  {
  }

  lemma HolderIsCounted(s: State, id: Id)
    requires GlobalOk(s) && id in s.cells
    ensures Token(s.cells[id]) <= s.tokens
  {
    if HoldsSlot(s.cells[id].runner) {
      assert id in Holders(s);
      assert |Holders(s)| > 0;
    }
  }

  lemma RunnerKeeps(s: State, id: Id, step: RunnerStep)
    requires Inv(s) && Enabled(s, OfRunner(id, step))
    ensures Inv(Do(s, OfRunner(id, step)))
  {
    var c := s.cells[id];
    assert JobOk(s, id);
    RunnerKeepsTheJob(id, c, s, step);
    HolderIsCounted(s, id);
    TokensFollowTheRunner(c, s, step);
    RunnerLockMoves(id, c, s, step);
    hide CellOk, RunnerCell, RunnerReady, HoldsSlot, RunnerLock, RunnerTokens, LockMoves;
    MoveKeeps(s, id, RunnerCell(c, s, step), RunnerLock(id, c, s.lock, step), RunnerTokens(s, step));
  }

  // ---------------------------------------------------------------- file operations under the lock

  lemma WritingKeepsTheJob(id: Id, c: Cell, lock: Lock, unloaded: bool, step: DiskStep)
    requires lock.Persisting? && lock.id == id && DiskReady(c, lock, step)
    requires CellOk(id, c, EraOf(lock), unloaded, Some(lock))
    ensures CellOk(id, DiskCell(c, lock, step), EraOf(lock), unloaded, Grip(DiskLock(lock, step), id))
  {
    var d := c.(dir := DirAfter(c, step));
    match Ends(step) {
      case None => AWriteGoesOn(id, c, lock, unloaded, step);
      case Some(ok) =>
        assert CellOk(id, c, EraOf(lock), unloaded, Some(lock));
        if ok {
          ARecordIsReplaced(id, c, lock, unloaded);
        } else {
          AWriteFails(id, c, lock, unloaded, step);
        }
    }
  }

  lemma AWriteGoesOn(id: Id, c: Cell, lock: Lock, unloaded: bool, step: DiskStep)
    requires lock.Persisting? && lock.id == id && DiskReady(c, lock, step) && Ends(step).None?
    requires CellOk(id, c, EraOf(lock), unloaded, Some(lock))
    ensures CellOk(id, c.(dir := DirAfter(c, step)), EraOf(lock), unloaded, Some(lock.(phase := PhaseAfter(step))))
  {
  }

  lemma ARecordIsReplaced(id: Id, c: Cell, lock: Lock, unloaded: bool)
    requires lock.Persisting? && lock.id == id && lock.phase.AtRename?
    requires CellOk(id, c, EraOf(lock), unloaded, Some(lock))
    ensures CellOk(id, SaverCell(c.(dir := DirAfter(c, Rename(true))), lock.saver, true), EraOf(lock), unloaded,
                   Grip(SaverLock(lock.saver, id, true), id))
  {
    var before := DirOrEmpty(lock.before);
    assert DirAfter(c, Rename(true)) == Some(before.(record := Whole(c.mem.value.record), temp := Absent));
    hide DirAfter, DirOrEmpty;
  }

  lemma AWriteFails(id: Id, c: Cell, lock: Lock, unloaded: bool, step: DiskStep)
    requires lock.Persisting? && lock.id == id && DiskReady(c, lock, step) && Ends(step) == Some(false)
    requires CellOk(id, c, EraOf(lock), unloaded, Some(lock))
    ensures CellOk(id, SaverCell(c.(dir := DirAfter(c, step)), lock.saver, false), EraOf(lock), unloaded,
                   Grip(SaverLock(lock.saver, id, false), id))
  {
    var d := c.(dir := DirAfter(c, step));
    assert d.dir == c.dir || (c.dir.Some? && exists temp :: d.dir == Some(c.dir.value.(temp := temp)));
    hide DirAfter, DiskReady;
  }

  lemma RemovingKeepsTheJob(id: Id, c: Cell, lock: Lock, step: DiskStep)
    requires lock.Removing? && lock.id == id && DiskReady(c, lock, step)
    requires CellOk(id, c, EraOf(lock), false, Some(lock))
    ensures CellOk(id, DiskCell(c, lock, step), EraOf(lock), false, Grip(DiskLock(lock, step), id))
  {
  }

  lemma DiskTokens(c: Cell, lock: Lock, step: DiskStep)
    requires Held(lock) && DiskReady(c, lock, step)
    ensures Token(DiskCell(c, lock, step)) == Token(c)
    ensures c.runner.None? ==> DiskCell(c, lock, step).runner.None?
  {
  }

  lemma DiskLockMoves(id: Id, lock: Lock, step: DiskStep)
    requires Held(lock) && lock.id == id && id !in Unloaded(lock)
    ensures LockMoves(lock, DiskLock(lock, step), id) && Unloaded(DiskLock(lock, step)) == Unloaded(lock)
    ensures EraOf(DiskLock(lock, step)) == EraOf(lock)
  {
  }

  lemma DiskKeeps(s: State, step: DiskStep)
    requires Inv(s) && Enabled(s, OfDisk(step))
    ensures Inv(Do(s, OfDisk(step)))
  {
    var id := s.lock.id;
    var c := s.cells[id];
    assert JobOk(s, id);
    if s.lock.Persisting? {
      WritingKeepsTheJob(id, c, s.lock, id in Unloaded(s.lock), step);
    } else {
      RemovingKeepsTheJob(id, c, s.lock, step);
    }
    DiskTokens(c, s.lock, step);
    DiskLockMoves(id, s.lock, step);
    hide CellOk, DiskCell, DiskReady, DiskLock, HoldsSlot;
    MoveKeeps(s, id, DiskCell(c, s.lock, step), DiskLock(s.lock, step), s.tokens);
  }

  // ---------------------------------------------------------------- sweeps, starts, crashes and stops

  lemma ArriveKeeps(s: State, step: Step)
    requires Inv(s) && step.Arrive? && Enabled(s, step)
    ensures Inv(Do(s, step))
  {
    MoveKeeps(s, step.id, NewCell(step.upload, step.now), s.lock, s.tokens);
  }

  lemma SweepKeepsTheJob(id: Id, c: Cell, lock: Lock)
    requires lock.Sweeping? && CellOk(id, c, Serving, false, None)
    ensures CellOk(id, SweepCell(c, lock), Serving, false, Grip(SweepLock(id, c, lock), id))
  {
  }

  lemma SweepKeeps(s: State, step: Step)
    requires Inv(s) && step.SweepJob? && Enabled(s, step)
    ensures Inv(Do(s, step))
  {
    var id := step.id;
    assert JobOk(s, id);
    SweepKeepsTheJob(id, s.cells[id], s.lock);
    hide CellOk, HoldsSlot;
    MoveKeeps(s, id, SweepCell(s.cells[id], s.lock), SweepLock(id, s.cells[id], s.lock), s.tokens);
  }

  lemma LoadKeepsTheJob(id: Id, c: Cell, lock: Lock, sight: Sight)
    requires lock.Loading? && c.dir.Some? && CellOk(id, c, Starting, true, None)
    ensures CellOk(id, LoadedCell(id, c, sight), Starting, false, Grip(LoadLock(id, c, lock, sight), id))
  {
  }

  lemma LoadKeeps(s: State, step: Step)
    requires Inv(s) && step.LoadJob? && Enabled(s, step)
    ensures Inv(Do(s, step))
  {
    var id := step.id;
    var c := s.cells[id];
    assert JobOk(s, id);
    LoadKeepsTheJob(id, c, s.lock, step.sight);
    hide CellOk, HoldsSlot, Restored;
    MoveKeeps(s, id, LoadedCell(id, c, step.sight), LoadLock(id, c, s.lock, step.sight), s.tokens);
  }

  lemma CrashKeeps(s: State)
    requires Inv(s) && Enabled(s, Crash)
    ensures Inv(Do(s, Crash))
  {
    var t := Do(s, Crash);
    assert Holders(t) == {};
    forall id | id in t.cells
      ensures JobOk(t, id)
    {
      assert JobOk(s, id);
    }
  }

  lemma GlobalStepsKeepTheJob(s: State, step: Step, id: Id)
    requires GlobalOk(s) && Enabled(s, step) && id in s.cells && JobOk(s, id)
    requires step.BeginSweep? || step.EndSweep? || step.BeginStart? || step.EndStart? || step.Drain?
      || step.ShutdownReturns?
    ensures Do(s, step).cells == s.cells && JobOk(Do(s, step), id)
  {
    hide MemOk, RunnerOk, CreatorOk, OwnerOk;
  }

  /** Sweeps and starts that begin or end, and a stop, change no job. */
  lemma LockKeeps(s: State, step: Step)
    requires Inv(s) && Enabled(s, step)
    requires step.BeginSweep? || step.EndSweep? || step.BeginStart? || step.EndStart? || step.Drain?
      || step.ShutdownReturns?
    ensures Inv(Do(s, step))
  {
    var t := Do(s, step);
    assert Holders(t) == Holders(s);
    hide JobOk, HoldsSlot;
    forall id | id in t.cells
      ensures JobOk(t, id)
    {
      assert JobOk(s, id);
      GlobalStepsKeepTheJob(s, step, id);
    }
  }

  lemma StepKeeps(s: State, step: Step)
    requires Inv(s) && Enabled(s, step)
    ensures Inv(Do(s, step))
  {
    hide Inv, Enabled, Do;
    match step
    case Arrive(_, _, _) => ArriveKeeps(s, step);
    case OfCreator(id, t) => CreatorKeeps(s, id, t);
    case OfRunner(id, t) => RunnerKeeps(s, id, t);
    case OfDisk(t) => DiskKeeps(s, t);
    case SweepJob(_) => SweepKeeps(s, step);
    case LoadJob(_, _) => LoadKeeps(s, step);
    case Crash => CrashKeeps(s);
    case _ => LockKeeps(s, step);
  }

  lemma {:induction false} RunKeeps(s: State, steps: seq<Step>)
    requires Inv(s) && Legal(s, steps)
    ensures Inv(RunOf(s, steps))
    decreases |steps|
  {
    hide Inv, Enabled, Do;
    if steps != [] {
      StepKeeps(s, steps[0]);
      RunKeeps(Do(s, steps[0]), steps[1..]);
    }
  }

  /** Every state of every run keeps the invariant. */
  lemma ReachableKeeps(s: State)
    requires Reachable(s)
    ensures Inv(s)
  {
    var capacity: nat, steps: seq<Step> :|
      capacity > 0 && Legal(Start(capacity), steps) && RunOf(Start(capacity), steps) == s;
    RunKeeps(Start(capacity), steps);
  }
}
