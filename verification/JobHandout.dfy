/** The two halves together: what a file offered for download shows, given that the masking steps of the run are
    those of the fail-closed decision. */
module JobHandout {
  import opened Wrappers
  import opened JobDisk
  import opened JobProtocol
  import opened JobTheorems
  import opened FailClosed

  /** What the masking step of a job is given besides the upload: the kind of document, and the answer of the
      endpoint. */
  datatype Answer = Answer(kind: MimeKind, payload: JsonTree.Json, sizes: map<int, Geometry.PageSize>)

  /** The decision hands out this content for this upload and this answer. */
  ghost predicate DecidedOn(lib: Library, rules: Collectors.RuleTable, answer: Answer, upload: Bytes, content: Bytes) {
    exists regions, summary ::
      SomeOutcome(lib, rules, answer.kind, upload, answer.payload, answer.sizes, Ok(Handout(content, regions)), summary)
  }

  /** A masking step that succeeds returns what the decision hands out for the input it read and the answer of its
      job. */
  ghost predicate IsDecided(lib: Library, rules: Collectors.RuleTable, answers: Id -> Answer, s: State, step: Step)
    requires Enabled(s, step)
  {
    step.OfRunner? && step.runner.Mask? && step.runner.outcome.Ok? ==>
      DecidedOn(lib, rules, answers(step.id), s.cells[step.id].runner.value.input, step.runner.outcome.value)
  }

  ghost predicate DecidedRun(lib: Library, rules: Collectors.RuleTable,
          answers: Id -> Answer, s: State, steps: seq<Step>)
    requires Legal(s, steps)
    decreases |steps|
  {
    || steps == []
    || (IsDecided(lib, rules, answers, s, steps[0]) && DecidedRun(lib, rules, answers, Do(s, steps[0]), steps[1..]))
  }

  ghost predicate AllDecided(lib: Library, rules: Collectors.RuleTable, answers: Id -> Answer, s: State) {
    forall id :: id in s.cells && s.cells[id].produced.Some? ==>
      DecidedOn(lib, rules, answers(id), s.cells[id].upload, s.cells[id].produced.value)
  }

  lemma NewJobsHaveNoResult(s: State, step: Step, id: Id)
    requires Enabled(s, step) && id in Do(s, step).cells && id !in s.cells
    ensures Do(s, step).cells[id].produced.None?
  {
    hide RunnerCell, RunnerReady, DiskCell, DiskReady, CreatorCell, CreatorReady, Restored;
  }

  lemma AStepKeepsDecisions(lib: Library, rules: Collectors.RuleTable, answers: Id -> Answer, s: State, step: Step)
    requires Reachable(s) && Enabled(s, step)
    requires AllDecided(lib, rules, answers, s) && IsDecided(lib, rules, answers, s, step)
    ensures AllDecided(lib, rules, answers, Do(s, step))
  {
    forall id | id in Do(s, step).cells && Do(s, step).cells[id].produced.Some?
      ensures DecidedOn(lib, rules, answers(id), Do(s, step).cells[id].upload, Do(s, step).cells[id].produced.value)
    {
      if id !in s.cells {
        NewJobsHaveNoResult(s, step, id);
      }
      AStepKeepsHistory(s, step, id);
      if s.cells[id].produced != Do(s, step).cells[id].produced {
        MaskingReadsTheWholeUpload(s, id, step.runner.outcome, step.runner.now);
      }
      hide Do, Enabled, Reachable, DecidedOn;
    }
  }

  lemma {:induction false} DecidedRunsDecide(lib: Library, rules: Collectors.RuleTable,
          answers: Id -> Answer, s: State, steps: seq<Step>)
    requires Reachable(s) && Legal(s, steps)
    requires AllDecided(lib, rules, answers, s) && DecidedRun(lib, rules, answers, s, steps)
    ensures Reachable(RunOf(s, steps)) && AllDecided(lib, rules, answers, RunOf(s, steps))
    decreases |steps|
  {
    hide Do, Enabled, Reachable, AllDecided, IsDecided;
    if steps != [] {
      AStepKeepsDecisions(lib, rules, answers, s, steps[0]);
      AStepIsReachable(s, steps[0]);
      DecidedRunsDecide(lib, rules, answers, Do(s, steps[0]), steps[1..]);
    }
  }

  /** For an answer that reports nothing, the unchanged upload, and only if the answer is in a known schema and without
      coordinates; for any other answer a changed document that hides everything the answer reported. */
  ghost predicate SafeToShow(lib: Library, rules: Collectors.RuleTable, answer: Answer, upload: Bytes, content: Bytes) {
    if ReportsNothing(answer.payload) then
      content == upload && !CarriesCoordinates(answer.payload) && ListsEntities(answer.payload)
    else
      content != upload && HidesTheAnswer(lib, rules, answer.kind, upload, answer.payload, answer.sizes, content)
  }

  lemma DecisionsAreSafeToShow(lib: Library, rules: Collectors.RuleTable, answer: Answer, upload: Bytes, content: Bytes)
    requires DecidedOn(lib, rules, answer, upload, content)
    ensures SafeToShow(lib, rules, answer, upload, content)
  {
    hide HidesTheAnswer, ListsEntities, ReportsNothing, CarriesCoordinates, Collectors.EntriesOf, Decide,
         Collectors.TrailOf;
    var kind, payload, sizes := answer.kind, answer.payload, answer.sizes;
    var regions, summary :|
      SomeOutcome(lib, rules, kind, upload, payload, sizes, Ok(Handout(content, regions)), summary);
    var r: Result<Handout, Failure> := Ok(Handout(content, regions));
    var t1, t2 :| Outcome(lib, rules, kind, upload, payload, sizes, t1, t2, r)
                  && summary == Collectors.EntriesOf(rules, t2);
    UnchangedMeansNothingReported(lib, rules, kind, upload, payload, sizes, t1, t2, r);
    WalksInTermsOfTheTree(rules, payload, t1, t2);
    if regions > 0 {
      SuccessHidesTheAnswer(lib, rules, kind, upload, payload, sizes, t1, t2, r);
    } else {
      HandedOutUntouchedIff(lib, rules, kind, upload, payload, sizes, t1, t2, r);
    }
  }

  /** In every run whose masking steps follow the decision on the answers their jobs received, with any crashes, faults
      and restarts, every file offered for download is safe to show for the answer of its own job. */
  lemma OfferedFilesAreSafeToShow(lib: Library, rules: Collectors.RuleTable,
          answers: Id -> Answer, capacity: nat, steps: seq<Step>, id: Id)
    requires capacity > 0 && Legal(Start(capacity), steps) && DecidedRun(lib, rules, answers, Start(capacity), steps)
    requires id in RunOf(Start(capacity), steps).cells && Offered(RunOf(Start(capacity), steps).cells[id])
    ensures
      var c := RunOf(Start(capacity), steps).cells[id];
      c.dir.value.output.Whole? && SafeToShow(lib, rules, answers(id), c.upload, c.dir.value.output.value)
  {
    var s := Start(capacity);
    assert Legal(s, []) && RunOf(s, []) == s;
    assert Reachable(s);
    hide Legal, RunOf, Reachable, DecidedRun, SafeToShow, DecidedOn;
    DecidedRunsDecide(lib, rules, answers, s, steps);
    var t := RunOf(s, steps);
    OfferedResultsAreComplete(t, id);
    DecisionsAreSafeToShow(lib, rules, answers(id), t.cells[id].upload, t.cells[id].produced.value);
  }
}
