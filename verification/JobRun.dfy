/** The run the protocol exists for: an upload that meets no fault ends as a completed job with its result on disk. */
module JobRun {
  import opened Wrappers
  import opened JobDisk
  import opened JobProtocol
  import opened JobInvariant
  import opened JobTheorems

  lemma MovesCollapse(s: State, id: Id, c1: Cell, l1: Lock, t1: nat, c2: Cell, l2: Lock, t2: nat)
    ensures Move(Move(s, id, c1, l1, t1), id, c2, l2, t2) == Move(s, id, c2, l2, t2)
  {
  }

  lemma {:induction false} RunsCompose(s: State, first: seq<Step>, second: seq<Step>)
    requires Legal(s, first) && Legal(RunOf(s, first), second)
    ensures Legal(s, first + second) && RunOf(s, first + second) == RunOf(RunOf(s, first), second)
    decreases |first|
  {
    hide Enabled, Do;
    if first == [] {
      assert first + second == second;
    } else {
      assert (first + second)[1..] == first[1..] + second;
      RunsCompose(Do(s, first[0]), first[1..], second);
    }
  }

  lemma OneStep(s: State, step: Step)
    requires Enabled(s, step)
    ensures Legal(s, [step]) && RunOf(s, [step]) == Do(s, step)
  {
    assert [step][1..] == [];
  }

  /** A run of one more step, whose effect on the one job is known. */
  lemma AddStep(s: State, steps: seq<Step>, id: Id, c: Cell, lock: Lock, tokens: nat, step: Step, d: Cell, lock': Lock,
          tokens': nat)
    requires Legal(s, steps) && RunOf(s, steps) == Move(s, id, c, lock, tokens)
    requires Enabled(Move(s, id, c, lock, tokens), step)
    requires Do(Move(s, id, c, lock, tokens), step) == Move(Move(s, id, c, lock, tokens), id, d, lock', tokens')
    ensures Legal(s, steps + [step]) && RunOf(s, steps + [step]) == Move(s, id, d, lock', tokens')
  {
    hide Enabled, Do;
    OneStep(Move(s, id, c, lock, tokens), step);
    RunsCompose(s, steps, [step]);
    MovesCollapse(s, id, c, lock, tokens, d, lock', tokens');
  }

  /** The run reaches the state in which only this job, the lock and the tokens have changed. */
  predicate Leads(s: State, steps: seq<Step>, id: Id, c: Cell, lock: Lock, tokens: nat) {
    Legal(s, steps) && RunOf(s, steps) == Move(s, id, c, lock, tokens)
  }

  lemma AddFileStep(s: State, steps: seq<Step>, id: Id, c: Cell, lock: Lock, tokens: nat, t: DiskStep)
    requires Leads(s, steps, id, c, lock, tokens) && Held(lock) && lock.id == id && DiskReady(c, lock, t)
    ensures Leads(s, steps + [OfDisk(t)], id, DiskCell(c, lock, t), DiskLock(lock, t), tokens)
  {
    hide DiskReady, DiskCell, DiskLock, Legal, RunOf;
    AddStep(s, steps, id, c, lock, tokens, OfDisk(t), DiskCell(c, lock, t), DiskLock(lock, t), tokens);
  }

  lemma AddCreatorStep(s: State, steps: seq<Step>, id: Id, c: Cell, lock: Lock, tokens: nat, t: CreatorStep)
    requires Leads(s, steps, id, c, lock, tokens) && EraOf(lock) == Serving && CreatorReady(c, lock, t)
    ensures Leads(s, steps + [OfCreator(id, t)], id, CreatorCell(id, c, s.draining, t), CreatorLock(id, c, lock, t),
      tokens)
  {
    hide CreatorReady, CreatorCell, CreatorLock, Legal, RunOf;
    AddStep(s, steps, id, c, lock, tokens, OfCreator(id, t), CreatorCell(id, c, s.draining, t),
      CreatorLock(id, c, lock, t), tokens);
  }

  lemma AddRunnerStep(s: State, steps: seq<Step>, id: Id, c: Cell, lock: Lock, tokens: nat, t: RunnerStep)
    requires Leads(s, steps, id, c, lock, tokens) && EraOf(lock) == Serving
    requires RunnerReady(c, Move(s, id, c, lock, tokens), t)
    ensures
      var at := Move(s, id, c, lock, tokens);
      Leads(s, steps + [OfRunner(id, t)], id, RunnerCell(c, at, t), RunnerLock(id, c, lock, t), RunnerTokens(at, t))
  {
    hide RunnerReady, RunnerCell, RunnerLock, RunnerTokens, Legal, RunOf;
    var at := Move(s, id, c, lock, tokens);
    AddStep(s, steps, id, c, lock, tokens, OfRunner(id, t), RunnerCell(c, at, t), RunnerLock(id, c, lock, t),
      RunnerTokens(at, t));
  }

  const WRITE := [OfDisk(MkDir(true)), OfDisk(OpenTemp(true)), OfDisk(WriteTemp(true)), OfDisk(Rename(true))]

  function Rewritten(c: Cell): Cell
    requires c.mem.Some? && c.dir.Some?
  {
    c.(dir := Some(c.dir.value.(record := Whole(c.mem.value.record), temp := Absent)))
  }

  /** Writing a record without a fault. */
  lemma AddWrite(s: State, steps: seq<Step>, id: Id, c: Cell, saver: Saver, before: Option<Dir>, tokens: nat)
    requires Leads(s, steps, id, c, Persisting(saver, id, AtDirectory, before), tokens) && c.mem.Some? && c.dir.Some?
    ensures Leads(s, steps + WRITE, id, SaverCell(Rewritten(c), saver, true), SaverLock(saver, id, true), tokens)
  {
    var d, rec := c.dir.value, Whole(c.mem.value.record);
    var c2, c3 := c.(dir := Some(d.(temp := Partial))), c.(dir := Some(d.(temp := rec)));
    var l0, l1 := Persisting(saver, id, AtDirectory, before), Persisting(saver, id, AtOpen, before);
    var l2, l3 := Persisting(saver, id, AtWrite, before), Persisting(saver, id, AtRename, before);
    assert DiskCell(c, l0, MkDir(true)) == c && DiskLock(l0, MkDir(true)) == l1;
    assert DiskCell(c, l1, OpenTemp(true)) == c2 && DiskLock(l1, OpenTemp(true)) == l2;
    assert DiskCell(c2, l2, WriteTemp(true)) == c3 && DiskLock(l2, WriteTemp(true)) == l3;
    assert DiskCell(c3, l3, Rename(true)) == SaverCell(Rewritten(c), saver, true);
    assert DiskReady(c, l0, MkDir(true)) && DiskReady(c, l1, OpenTemp(true)) && DiskReady(c2, l2, WriteTemp(true));
    assert DiskReady(c3, l3, Rename(true)) && DiskLock(l3, Rename(true)) == SaverLock(saver, id, true);
    hide Leads, DiskCell, DiskLock, DiskReady, SaverCell, SaverLock;
    AddFileStep(s, steps, id, c, l0, tokens, MkDir(true));
    var s1 := steps + [OfDisk(MkDir(true))];
    AddFileStep(s, s1, id, c, l1, tokens, OpenTemp(true));
    var s2 := s1 + [OfDisk(OpenTemp(true))];
    AddFileStep(s, s2, id, c2, l2, tokens, WriteTemp(true));
    var s3 := s2 + [OfDisk(WriteTemp(true))];
    AddFileStep(s, s3, id, c3, l3, tokens, Rename(true));
    assert s3 + [OfDisk(Rename(true))] == steps + WRITE;
  }

  /** A new job, accepted, with the runner that was started for it. */
  function Registered(id: Id, upload: Bytes, now: Time): Cell {
    var c := NewCell(upload, now);
    c.(mem := Some(QueuedJob(id, c)), accepted := true, creator := None, runner := Some(Checking),
       dir := Some(Dir(Whole(QueuedJob(id, c).record), Absent, Whole(upload), Absent)))
  }

  lemma AnUploadIsAccepted(s: State, id: Id, upload: Bytes, now: Time) returns (steps: seq<Step>)
    requires s.lock.Free? && !s.draining && id !in s.cells
    ensures Leads(s, steps, id, Registered(id, upload, now), Free, s.tokens)
  {
    var c := NewCell(upload, now);
    OneStep(s, Arrive(id, upload, now));
    steps := [Arrive(id, upload, now)];
    assert Leads(s, steps, id, c, Free, s.tokens);
    var c1 := c.(creator := Some(Opening), dir := Some(EMPTY_DIR));
    var c2 := c.(creator := Some(Uploading), dir := Some(EMPTY_DIR.(input := Partial)));
    var c3 := c.(creator := Some(Uploaded), dir := Some(EMPTY_DIR.(input := Whole(upload))));
    var c4 := c3.(creator := Some(Creating), mem := Some(QueuedJob(id, c)));
    var c5 := Rewritten(c4).(creator := Some(Accepted), accepted := true);
    assert CreatorCell(id, c, false, MakeDir(true)) == c1 && CreatorCell(id, c1, false, OpenInput(true)) == c2;
    assert CreatorCell(id, c2, false, WriteInput(true)) == c3 && CreatorCell(id, c3, false, Store) == c4;
    assert SaverCell(Rewritten(c4), ByCreate, true) == c5;
    assert CreatorCell(id, c5, false, StartRunner) == Registered(id, upload, now);
    hide Leads, CreatorCell, SaverCell, Rewritten, Registered;
    AddCreatorStep(s, steps, id, c, Free, s.tokens, MakeDir(true));
    steps := steps + [OfCreator(id, MakeDir(true))];
    AddCreatorStep(s, steps, id, c1, Free, s.tokens, OpenInput(true));
    steps := steps + [OfCreator(id, OpenInput(true))];
    AddCreatorStep(s, steps, id, c2, Free, s.tokens, WriteInput(true));
    steps := steps + [OfCreator(id, WriteInput(true))];
    AddCreatorStep(s, steps, id, c3, Free, s.tokens, Store);
    steps := steps + [OfCreator(id, Store)];
    AddWrite(s, steps, id, c4, ByCreate, c3.dir, s.tokens);
    steps := steps + WRITE;
    AddCreatorStep(s, steps, id, c5, Free, s.tokens, StartRunner);
    steps := steps + [OfCreator(id, StartRunner)];
  }

  lemma AQueuedJobIsFetched(s: State, before: seq<Step>, id: Id, c: Cell, job: Job) returns (steps: seq<Step>)
    requires Leads(s, before, id, c, Free, s.tokens) && !s.draining && s.tokens < s.capacity
    requires c.runner == Some(Checking) && c.mem == Some(job)
    ensures Leads(s, steps, id, c.(runner := Some(Fetched(job))), Free, s.tokens + 1)
  {
    var t := s.tokens;
    var c1, c2, c3 := c.(runner := Some(Waiting)), c.(runner := Some(Granted)), c.(runner := Some(Fetched(job)));
    var a0, a1, a2 := Move(s, id, c, Free, t), Move(s, id, c1, Free, t), Move(s, id, c2, Free, t + 1);
    assert RunnerReady(c, a0, Check) && RunnerCell(c, a0, Check) == c1;
    assert RunnerReady(c1, a1, Take) && RunnerCell(c1, a1, Take) == c2;
    assert RunnerReady(c2, a2, LookUpGranted) && RunnerCell(c2, a2, LookUpGranted) == c3;
    hide Leads, RunnerCell, RunnerReady;
    steps := before;
    AddRunnerStep(s, steps, id, c, Free, t, Check);
    steps := steps + [OfRunner(id, Check)];
    AddRunnerStep(s, steps, id, c1, Free, t, Take);
    steps := steps + [OfRunner(id, Take)];
    AddRunnerStep(s, steps, id, c2, Free, t + 1, LookUpGranted);
    steps := steps + [OfRunner(id, LookUpGranted)];
  }

  /** A Save without a fault. */
  lemma AddSave(s: State, before: seq<Step>, id: Id, c: Cell, tokens: nat) returns (steps: seq<Step>)
    requires Leads(s, before, id, c, Free, tokens) && c.runner.Some? && c.runner.value.WantSave? && c.dir.Some?
    ensures
      var job, next := c.runner.value.job, c.runner.value.next;
      Leads(s, steps, id,
            c.(mem := Some(job), runner := AfterSave(Some(Saving(job, next))),
               dir := Some(c.dir.value.(record := Whole(job.record), temp := Absent))), Free, tokens)
  {
    var job, next := c.runner.value.job, c.runner.value.next;
    var at := Move(s, id, c, Free, tokens);
    var d := c.(mem := Some(job), runner := Some(Saving(job, next)));
    assert RunnerReady(c, at, Save) && RunnerCell(c, at, Save) == d;
    hide Leads, RunnerCell, RunnerReady;
    AddRunnerStep(s, before, id, c, Free, tokens, Save);
    steps := before + [OfRunner(id, Save)];
    AddWrite(s, steps, id, d, ByRunner, c.dir, tokens);
    steps := steps + WRITE;
  }

  lemma AFetchedJobStarts(s: State, before: seq<Step>, id: Id, c: Cell, job: Job, upload: Bytes, now: Time, tokens: nat)
    returns (steps: seq<Step>)
    requires Leads(s, before, id, c, Free, tokens)
    requires c.runner == Some(Fetched(job)) && job.hasInput && c.dir.Some? && c.dir.value.input == Whole(upload)
    ensures
      var j := Updated(job, Running, job.record.error, now);
      Leads(s, steps, id,
            c.(mem := Some(j), runner := Some(Masking(j, upload)),
               dir := Some(c.dir.value.(record := Whole(j.record), temp := Absent))), Free, tokens)
  {
    var j := Updated(job, Running, job.record.error, now);
    var at := Move(s, id, c, Free, tokens);
    var read := ReadInput(Some(upload), now);
    var d := c.(runner := Some(WantSave(j, ThenMask(upload))));
    assert RunnerReady(c, at, read) && RunnerCell(c, at, read) == d;
    hide Leads, RunnerCell, RunnerReady;
    AddRunnerStep(s, before, id, c, Free, tokens, read);
    steps := AddSave(s, before + [OfRunner(id, read)], id, d, tokens);
  }

  lemma AResultIsWritten(s: State, before: seq<Step>, id: Id, c: Cell, job: Job, content: Bytes, tokens: nat)
    returns (steps: seq<Step>)
    requires Leads(s, before, id, c, Free, tokens) && c.runner == Some(Delivering(job, content)) && c.dir.Some?
    ensures Leads(s, steps, id,
                  c.(runner := Some(WantSave(Delivered(job), ThenRelease)),
                    dir := Some(c.dir.value.(output := Whole(content)))),
                  Free, tokens)
  {
    var c1 := c.(runner := Some(Writing(job, content)), dir := Some(c.dir.value.(output := Partial)));
    var c2 := c.(runner := Some(WantSave(Delivered(job), ThenRelease)),
      dir := Some(c.dir.value.(output := Whole(content))));
    var a0, a1 := Move(s, id, c, Free, tokens), Move(s, id, c1, Free, tokens);
    assert RunnerReady(c, a0, OpenOutput(true)) && RunnerCell(c, a0, OpenOutput(true)) == c1;
    assert RunnerReady(c1, a1, WriteOutput(true)) && RunnerCell(c1, a1, WriteOutput(true)) == c2;
    hide Leads, RunnerCell, RunnerReady;
    AddRunnerStep(s, before, id, c, Free, tokens, OpenOutput(true));
    steps := before + [OfRunner(id, OpenOutput(true))];
    AddRunnerStep(s, steps, id, c1, Free, tokens, WriteOutput(true));
    steps := steps + [OfRunner(id, WriteOutput(true))];
  }

  lemma AMaskedJobIsDelivered(s: State, before: seq<Step>, id: Id, c: Cell, job: Job, upload: Bytes, content: Bytes,
          now: Time, tokens: nat)
    returns (steps: seq<Step>)
    requires Leads(s, before, id, c, Free, tokens) && c.runner == Some(Masking(job, upload)) && c.dir.Some?
    ensures
      var j := Delivered(Updated(job, Running, None, now));
      Leads(s, steps, id,
            c.(mem := Some(j), runner := Some(Releasing), produced := Some(content),
               dir := Some(c.dir.value.(record := Whole(j.record), temp := Absent, output := Whole(content)))), Free,
                 tokens)
  {
    var j := Updated(job, Running, None, now);
    var c1 := c.(runner := Some(Delivering(j, content)), produced := Some(content));
    var mask := Mask(Ok(content), now);
    var at := Move(s, id, c, Free, tokens);
    assert RunnerReady(c, at, mask) && RunnerCell(c, at, mask) == c1;
    hide Leads, RunnerCell, RunnerReady;
    AddRunnerStep(s, before, id, c, Free, tokens, mask);
    steps := AResultIsWritten(s, before + [OfRunner(id, mask)], id, c1, j, content, tokens);
    var c2 := c1.(runner := Some(WantSave(Delivered(j), ThenRelease)),
      dir := Some(c.dir.value.(output := Whole(content))));
    steps := AddSave(s, steps, id, c2, tokens);
  }

  lemma AFinishedRunnerLeaves(s: State, before: seq<Step>, id: Id, c: Cell, tokens: nat) returns (steps: seq<Step>)
    requires Leads(s, before, id, c, Free, tokens + 1) && c.runner == Some(Releasing)
    ensures Leads(s, steps, id, c.(runner := None), Free, tokens)
  {
    var c1 := c.(runner := Some(Leaving));
    var a0, a1 := Move(s, id, c, Free, tokens + 1), Move(s, id, c1, Free, tokens);
    assert RunnerReady(c, a0, Release) && RunnerCell(c, a0, Release) == c1;
    assert RunnerReady(c1, a1, Leave) && RunnerCell(c1, a1, Leave) == c.(runner := None);
    hide Leads, RunnerCell, RunnerReady;
    AddRunnerStep(s, before, id, c, Free, tokens + 1, Release);
    steps := before + [OfRunner(id, Release)];
    AddRunnerStep(s, steps, id, c1, Free, tokens, Leave);
    steps := steps + [OfRunner(id, Leave)];
  }

  /** A new job that meets no fault, in a process with a free slot, ends completed: its masked content is the file
      offered for download, the record on disk is the one in memory, it is dated by its request, and nothing else has
      changed. */
  lemma AFaultlessJobCompletes(s: State, id: Id, upload: Bytes, content: Bytes, created: Time, began: Time, ended: Time)
    returns (steps: seq<Step>)
    requires s.lock.Free? && !s.draining && s.tokens < s.capacity && id !in s.cells
    ensures Legal(s, steps)
    ensures
      var t := RunOf(s, steps);
      var job := Job(Record(id, Completed, created, ended, None, ""), true, true);
      && t == s.(cells := t.cells) && t.cells.Keys == s.cells.Keys + {id}
      && (forall other :: other in s.cells ==> t.cells[other] == s.cells[other])
      && t.cells[id].mem == Some(job) && Offered(t.cells[id])
      && t.cells[id].dir == Some(Dir(Whole(job.record), Absent, Whole(upload), Whole(content)))
      && t.cells[id].runner.None? && t.cells[id].creator.None?
      && t.cells[id].upload == upload && t.cells[id].produced == Some(content)
      && t.cells[id].accepted && !Gone(t.cells[id])
  {
    steps := AnUploadIsAccepted(s, id, upload, created);
    var c := Registered(id, upload, created);
    var job := QueuedJob(id, c);
    steps := AQueuedJobIsFetched(s, steps, id, c, job);
    var c1 := c.(runner := Some(Fetched(job)));
    steps := AFetchedJobStarts(s, steps, id, c1, job, upload, began, s.tokens + 1);
    var j := Updated(job, Running, None, began);
    var c2 := c1.(mem := Some(j), runner := Some(Masking(j, upload)),
      dir := Some(c.dir.value.(record := Whole(j.record))));
    steps := AMaskedJobIsDelivered(s, steps, id, c2, j, upload, content, ended, s.tokens + 1);
    var d := Delivered(Updated(j, Running, None, ended));
    var c3 := c2.(mem := Some(d), runner := Some(Releasing), produced := Some(content),
                  dir := Some(c2.dir.value.(record := Whole(d.record), output := Whole(content))));
    steps := AFinishedRunnerLeaves(s, steps, id, c3, s.tokens);
    hide Legal, RunOf;
  }

  /** Draining does not stop a runner that is already waiting: its job can still get a slot afterwards. */
  lemma ASlotCanBeTakenAfterTheDrain(s: State, id: Id, upload: Bytes,
          now: Time) returns (before: seq<Step>, after: seq<Step>)
    requires s.lock.Free? && !s.draining && s.tokens < s.capacity && id !in s.cells
    ensures Legal(s, before) && RunOf(s, before).draining && id in RunOf(s, before).cells
    ensures RunOf(s, before).cells[id].runner == Some(Waiting)
    ensures Legal(RunOf(s, before), after) && id in RunOf(RunOf(s, before), after).cells
    ensures RunOf(RunOf(s, before), after).draining && RunOf(RunOf(s, before), after).cells[id].runner == Some(Granted)
  {
    before := AnUploadIsAccepted(s, id, upload, now);
    var c := Registered(id, upload, now);
    AddRunnerStep(s, before, id, c, Free, s.tokens, Check);
    before := before + [OfRunner(id, Check)];
    var waiting := c.(runner := Some(Waiting));
    assert Leads(s, before, id, waiting, Free, s.tokens);
    var t := Move(s, id, waiting, Free, s.tokens);
    OneStep(t, Drain);
    RunsCompose(s, before, [Drain]);
    before := before + [Drain];
    OneStep(t.(draining := true), OfRunner(id, Take));
    after := [OfRunner(id, Take)];
  }
}
