/** The protocol rules nothing out: whatever can succeed can fail, and a process can die or be stopped at any time. */
module JobFaults {
  import opened Wrappers
  import opened JobDisk
  import opened JobProtocol
  import opened JobInvariant
  import opened JobPreserved
  import opened JobTheorems

  /** What comes from outside can come in every state of the service it is meant for. */
  lemma NothingOutsideIsRuledOut(s: State, id: Id, upload: Bytes, t: Time)
    ensures Enabled(s, Crash) <==> s.lock != Down
    ensures Enabled(s, BeginStart) <==> s.lock == Down
    ensures Enabled(s, Drain) <==> EraOf(s.lock) == Serving
    ensures Enabled(s, BeginSweep(t)) <==> s.lock == Free
    ensures Enabled(s, Arrive(id, upload, t)) <==> EraOf(s.lock) == Serving && id !in s.cells
    ensures Enabled(s, ShutdownReturns) <==>
      EraOf(s.lock) == Serving && s.draining && forall job :: job in s.cells ==> s.cells[job].runner.None?
  {
    hide EraOf;
  }

  /** Every operation of a request or a runner on a file can fail where it can succeed. */
  lemma EveryOperationCanFail(s: State, id: Id)
    ensures Enabled(s, OfCreator(id, MakeDir(false))) <==> Enabled(s, OfCreator(id, MakeDir(true)))
    ensures Enabled(s, OfCreator(id, OpenInput(false))) <==> Enabled(s, OfCreator(id, OpenInput(true)))
    ensures Enabled(s, OfCreator(id, WriteInput(false))) <==> Enabled(s, OfCreator(id, WriteInput(true)))
    ensures Enabled(s, OfRunner(id, OpenOutput(false))) <==> Enabled(s, OfRunner(id, OpenOutput(true)))
    ensures Enabled(s, OfRunner(id, WriteOutput(false))) <==> Enabled(s, OfRunner(id, WriteOutput(true)))
  {
    hide EraOf;
  }

  /** The writing of a record can fail at each of its operations, and a removal at any time. */
  lemma EveryWriteCanFail(s: State)
    requires Reachable(s)
    ensures Enabled(s, OfDisk(MkDir(false))) <==> Enabled(s, OfDisk(MkDir(true)))
    ensures Enabled(s, OfDisk(OpenTemp(false))) <==> Enabled(s, OfDisk(OpenTemp(true)))
    ensures Enabled(s, OfDisk(WriteTemp(false))) <==> Enabled(s, OfDisk(WriteTemp(true)))
    ensures Enabled(s, OfDisk(Rename(false))) <==> Enabled(s, OfDisk(Rename(true)))
    ensures Enabled(s, OfDisk(CleanUp(false))) <==> Enabled(s, OfDisk(CleanUp(true)))
    ensures Enabled(s, OfDisk(RemoveDir(false))) <==> s.lock.Removing?
  {
    if Held(s.lock) {
      TheHolderIsThere(s);
    }
    hide Reachable, EraOf;
  }

  lemma TheHolderIsThere(s: State)
    requires Reachable(s) && Held(s.lock)
    ensures s.lock.id in s.cells && (s.lock.Persisting? ==> s.cells[s.lock.id].mem.Some?)
  {
    ReachableKeeps(s);
    AnyJob(s, s.lock.id);
  }

  /** A runner that looks for its upload finds it or does not, and masking may return anything. */
  lemma EveryAnswerIsPossible(s: State, id: Id, content: Bytes, outcome: Result<Bytes, string>, now: Time)
    requires Reachable(s) && EraOf(s.lock) == Serving && id in s.cells
    ensures
      var runner := s.cells[id].runner;
      && (Enabled(s, OfRunner(id, ReadInput(None, now))) <==> runner.Some? && runner.value.Fetched?)
      && (Enabled(s, OfRunner(id, ReadInput(Some(content), now))) <==>
            runner.Some? && runner.value.Fetched? && content == s.cells[id].upload)
      && (Enabled(s, OfRunner(id, Mask(outcome, now))) <==> runner.Some? && runner.value.Masking?)
  {
    AnyJob(s, id);
  }

  /** A start takes the directories in any order and may see anything of them. */
  lemma EverySightIsPossible(s: State, id: Id, sight: Sight)
    requires Reachable(s) && s.lock.Loading?
    ensures Enabled(s, LoadJob(id, sight)) <==> id in s.lock.todo
    ensures Enabled(s, EndStart) <==> s.lock.todo == {}
  {
    ReachableKeeps(s);
    if id in s.lock.todo {
      AnyJob(s, id);
    }
  }
}
