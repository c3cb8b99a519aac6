/** What draining stops: exactly the runners already waiting when it begins can still get a slot. */
module JobDrain {
  import opened Wrappers
  import opened JobDisk
  import opened JobProtocol
  import opened JobInvariant
  import opened JobPreserved
  import opened JobTheorems
  import opened JobProgress

  function RunnerOf(s: State, id: Id): Option<Runner> {
    if id in s.cells then s.cells[id].runner else None
  }

  // ---------------------------------------------------------------- who does not get a slot

  /** Not registered, or registered but not waiting for a slot and without one. */
  predicate BeforeTheGate(runner: Option<Runner>) {
    match runner
    case None => true
    case Some(Checking) => true
    case Some(Refused) => true
    case Some(Leaving) => true
    case Some(WantSave(_, next)) => next.ThenLeave?
    case Some(Saving(_, next)) => next.ThenLeave?
    case Some(_) => false
  }

  lemma RunnersKeepTheGate(c: Cell, s: State, step: RunnerStep)
    requires RunnerReady(c, s, step) && s.draining
    ensures BeforeTheGate(c.runner) ==> BeforeTheGate(RunnerCell(c, s, step).runner)
    ensures c.runner != Some(Waiting) ==> RunnerCell(c, s, step).runner != Some(Waiting)
  {
  }

  lemma FilesKeepTheGate(c: Cell, lock: Lock, step: DiskStep)
    requires Held(lock) && DiskReady(c, lock, step)
    ensures BeforeTheGate(c.runner) ==> BeforeTheGate(DiskCell(c, lock, step).runner)
    ensures c.runner == Some(Waiting) <==> DiskCell(c, lock, step).runner == Some(Waiting)
  {
    hide DirAfter, DiskReady;
  }

  lemma ADrainedStepKeepsTheGate(s: State, step: Step, id: Id)
    requires Enabled(s, step) && !step.Crash? && s.draining && EraOf(s.lock) == Serving
    ensures Do(s, step).draining && EraOf(Do(s, step).lock) == Serving
    ensures BeforeTheGate(RunnerOf(s, id)) ==> BeforeTheGate(RunnerOf(Do(s, step), id))
    ensures RunnerOf(s, id) != Some(Waiting) ==> RunnerOf(Do(s, step), id) != Some(Waiting)
  {
    AServingProcessGoesOn(s, step);
    if ActorOf(s, step) != Some(id) {
      OthersStay(s, step, id);
    } else if step.OfRunner? {
      RunnersKeepTheGate(s.cells[id], s, step.runner);
    } else if step.OfDisk? {
      FilesKeepTheGate(s.cells[id], s.lock, step.disk);
    }
    hide RunnerCell, RunnerReady, DiskCell, DiskReady, Restored, EraOf;
  }

  /** Once the service is draining, a job is masked only if its runner was already waiting for a slot or had one;
      this holds for jobs that arrive later as well. */
  lemma {:induction false} NoNewWorkWhileDraining(s: State, steps: seq<Step>, id: Id)
    requires Legal(s, steps) && Crash !in steps && s.draining && EraOf(s.lock) == Serving
    requires BeforeTheGate(RunnerOf(s, id))
    ensures BeforeTheGate(RunnerOf(RunOf(s, steps), id))
    decreases |steps|
  {
    hide Enabled, Do, BeforeTheGate, RunnerOf;
    if steps != [] {
      ADrainedStepKeepsTheGate(s, steps[0], id);
      NoNewWorkWhileDraining(Do(s, steps[0]), steps[1..], id);
    }
  }

  /** A runner that is not waiting when draining begins never takes a slot afterwards. */
  lemma {:induction false} OnlyWaitingRunnersTakeSlots(s: State, steps: seq<Step>, id: Id)
    requires Legal(s, steps) && Crash !in steps && s.draining && EraOf(s.lock) == Serving
    requires OfRunner(id, Take) in steps
    ensures RunnerOf(s, id) == Some(Waiting)
    decreases |steps|
  {
    hide Do;
    if steps[0] != OfRunner(id, Take) {
      assert OfRunner(id, Take) in steps[1..];
      ADrainedStepKeepsTheGate(s, steps[0], id);
      OnlyWaitingRunnersTakeSlots(Do(s, steps[0]), steps[1..], id);
    }
  }

  // ---------------------------------------------------------------- who can still get one

  /** While all slots are taken, some step of work of somebody else is possible. */
  lemma SomebodyElseCanGoOn(s: State, id: Id) returns (step: Step)
    requires Reachable(s) && EraOf(s.lock) == Serving && RunnerOf(s, id) == Some(Waiting) && s.tokens >= s.capacity
    ensures Enabled(s, step) && IsWork(step) && (ActorOf(s, step) == Some(id) ==> step.OfDisk? || step.SweepJob?)
  {
    ReachableKeeps(s);
    match s.lock {
      case Persisting(_, _, _, _) =>
        AnyJob(s, s.lock.id);
        step := OfDisk(NextFileStep(s.cells[s.lock.id], s.lock));
      case Removing(_, _) =>
        AnyJob(s, s.lock.id);
        step := OfDisk(NextFileStep(s.cells[s.lock.id], s.lock));
      case Sweeping(_, todo) =>
        if next :| next in todo {
          step := SweepJob(next);
        } else {
          step := EndSweep;
        }
      case Free =>
        assert Holders(s) != {};
        var holder :| holder in Holders(s);
        ARunnerCanGoOn(s, holder);
        step := OfRunner(holder, NextRunnerStep(s.cells[holder], s.cells[holder].runner.value));
    }
  }

  lemma TheRunnerStillWaits(s: State, step: Step, id: Id)
    requires Enabled(s, step) && IsWork(step) && EraOf(s.lock) == Serving && RunnerOf(s, id) == Some(Waiting)
    requires ActorOf(s, step) == Some(id) ==> step.OfDisk? || step.SweepJob?
    ensures RunnerOf(Do(s, step), id) == Some(Waiting) && EraOf(Do(s, step).lock) == Serving
  {
    AServingProcessGoesOn(s, step);
    if ActorOf(s, step) != Some(id) {
      OthersStay(s, step, id);
    } else if step.OfDisk? {
      FilesKeepTheGate(s.cells[id], s.lock, step.disk);
    }
    hide DiskCell, DiskReady, RunnerCell, RunnerReady, EraOf;
  }

  /** Whoever holds the lock and even with every slot taken, a waiting runner can still get a slot. */
  lemma {:induction false} AWaitingRunnerCanStillGetASlot(s: State, id: Id) returns (steps: seq<Step>)
    requires Reachable(s) && EraOf(s.lock) == Serving && RunnerOf(s, id) == Some(Waiting)
    ensures Legal(s, steps) && Crash !in steps && OfRunner(id, Take) in steps
    ensures RunnerOf(RunOf(s, steps), id) == Some(Granted)
    decreases WorkLeft(s)
  {
    if s.tokens < s.capacity {
      steps := [OfRunner(id, Take)];
      assert steps[1..] == [];
    } else {
      var step := SomebodyElseCanGoOn(s, id);
      TheRunnerStillWaits(s, step, id);
      WorkGetsLess(s, step);
      AStepIsReachable(s, step);
      hide Do, Enabled, Reachable, RunnerOf, EraOf, WorkLeft;
      var rest := AWaitingRunnerCanStillGetASlot(Do(s, step), id);
      steps := [step] + rest;
      assert steps[1..] == rest;
    }
  }

  /** Some run of this process, from here on, gives the job a slot. */
  ghost predicate CanStillTakeASlot(s: State, id: Id) {
    exists steps :: Legal(s, steps) && Crash !in steps && OfRunner(id, Take) in steps
  }

  /** Draining lets exactly the waiting runners through: a job can still take a slot iff its runner is waiting. */
  lemma StillTakesASlotIffWaiting(s: State, id: Id)
    requires Reachable(s) && s.draining
    ensures CanStillTakeASlot(s, id) <==> RunnerOf(s, id) == Some(Waiting)
  {
    ReachableKeeps(s);
    hide Reachable, RunnerOf, Inv;
    if steps :| Legal(s, steps) && Crash !in steps && OfRunner(id, Take) in steps {
      OnlyWaitingRunnersTakeSlots(s, steps, id);
    }
    if RunnerOf(s, id) == Some(Waiting) {
      var steps := AWaitingRunnerCanStillGetASlot(s, id);
    }
  }
}
