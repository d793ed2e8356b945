// Every interleaving of admission, worker steps, ends and crashes of one run
// id, and what any reader can conclude from the files at any moment.

module RunLifecycle {
  import opened Wrappers
  import opened RunEvidence

  /** What the process that owns the run id is doing. */
  datatype Phase =
    | Idle
    | Working(attempt: Attempt)                    // the worker runs
    | Returned(attempt: Attempt, receipt: Receipt) // it returned; end.json is not written yet
    | Failing(attempt: Attempt, message: string, cancelled: bool, elapsed: nat) // an error waits for record_end
    | Stopped                                      // the process ended or crashed

  /** `budget` and `reserved` count check slots; the last two fields are history. */
  datatype Run = Run(
    files: Files, phase: Phase, budget: nat, reserved: nat,
    completed: Option<Receipt>, recorded: bool)

  datatype Event =
    | Begin(a: Attempt, checkRuns: nat)
    | Snapshot(r: Receipt)                         // the worker replaces receipt.json
    | Reserve                                      // the worker writes the next check-N.json
    | WorkerOk(r: Receipt)
    | WorkerErr(message: string, cancelled: bool, elapsed: nat)
    | EndWritten
    | EndLost(message: string, elapsed: nat, recorder: bool) // one caller returns without record_end
    | EndRecorded(persisted: bool)
    | Crash

  const FRESH := Run(map[], Idle, 0, 0, None, false)

  // ----- the environment -----

  /** What a run is known by: its id, and what it was asked to do. */
  predicate Names(a: Attempt, id: string, goal: string, model: string) {
    a.id == id && a.goal == goal && a.model == model
  }

  /** The attempt marker of an admitted run. */
  predicate Marked(files: Files, id: string, goal: string, model: string) {
    AttemptFile in files && files[AttemptFile].AttemptDoc? && Names(files[AttemptFile].attempt, id, goal, model)
  }

  /** Stated assumption about the worker: its receipts carry the id, goal and model of the
      attempt, a selection appears in one only beside one of three states, and the counters
      agree with the reservations. */
  predicate WorkerReceipt(run: Run, r: Receipt) {
    && Marked(run.files, r.id, r.goal, r.model)
    && r.checkRuns == run.budget
    && r.checksUsed <= run.reserved
    && (r.selected.Some? ==> r.state == "finalizing" || IsReview(r.state))
  }

  /** Stated assumption: a result returned with a selection has passed final review. */
  predicate WorkerResult(run: Run, r: Receipt) {
    WorkerReceipt(run, r) && (r.selected.Some? ==> IsReview(r.state))
  }

  predicate Enabled(run: Run, e: Event) {
    match e
    case Begin(_, _) => run.phase.Idle? || run.phase.Stopped?
    case Snapshot(r) => run.phase.Working? && WorkerReceipt(run, r)
    case Reserve => run.phase.Working? && run.reserved < run.budget
    case WorkerOk(r) => run.phase.Working? && WorkerResult(run, r)
    case WorkerErr(_, _, _) => run.phase.Working?
    case EndWritten => run.phase.Returned?
    case EndLost(_, _, _) => run.phase.Returned?
    case EndRecorded(_) => run.phase.Failing?
    case Crash => true
  }

  // ----- the steps -----

  function Step(run: Run, e: Event): Run
    requires Enabled(run, e)
  {
    match e
    case Begin(a, checkRuns) =>
      if HasEvidence(run.files) then run
      else Run(AfterBegin(run.files, a), Working(a), checkRuns, 0, None, false)
    case Snapshot(r) => run.(files := run.files[Folder := Opaque][ReceiptFile := ReceiptDoc(r)])
    case Reserve =>
      run.(files := run.files[Folder := Opaque][CheckFile(run.reserved + 1) := Opaque], reserved := run.reserved + 1)
    case WorkerOk(r) => run.(phase := Returned(run.phase.attempt, r))
    case WorkerErr(message, cancelled, elapsed) =>
      run.(phase := Failing(run.phase.attempt, message, cancelled, elapsed))
    case EndWritten =>
      var r := run.phase.receipt;
      run.(files := run.files[EndFile := ReceiptDoc(r)], phase := Stopped, completed := Some(r))
    case EndLost(message, elapsed, recorder) =>
      run.(phase := if recorder then Failing(run.phase.attempt, message, false, elapsed) else Stopped)
    case EndRecorded(persisted) =>
      var p := run.phase;
      run.(files := AfterRecordEnd(run.files, p.attempt, p.message, p.cancelled, p.elapsed, persisted),
           phase := Stopped, recorded := true)
    case Crash => run.(phase := Stopped)
  }

  /** The run after the events in order, or None when one of them cannot happen. */
  function RunOf(events: seq<Event>): Option<Run> {
    if events == [] then Some(FRESH)
    else
      var last := |events| - 1;
      var before := RunOf(events[..last]);
      if before.Some? && Enabled(before.value, events[last]) then Some(Step(before.value, events[last])) else None
  }

  predicate Reaches(events: seq<Event>, run: Run) {
    RunOf(events) == Some(run)
  }

  // ----- the invariant -----

  ghost predicate Inv(run: Run) {
    && (run.phase.Idle? ==> run.files == map[])
    && (run.files != map[] || !(run.phase.Idle? || run.phase.Stopped?) ==>
          AttemptFile in run.files && run.files[AttemptFile].AttemptDoc?)
    && (run.phase.Failing? || run.phase.Working? || run.phase.Returned? ==>
          run.files[AttemptFile] == AttemptDoc(run.phase.attempt))
    && InterruptionFile !in run.files
    && run.reserved <= run.budget
    && (forall n: nat :: CheckFile(n) in run.files <==> 1 <= n <= run.reserved)
    && (ReceiptFile in run.files ==>
          run.files[ReceiptFile].ReceiptDoc? && WorkerReceipt(run, run.files[ReceiptFile].receipt))
    && (run.phase.Returned? ==> WorkerResult(run, run.phase.receipt))
    && EndedByOne(run)
  }

  /** end.json holds the completed result, or a record without a selection, or is absent. */
  ghost predicate EndedByOne(run: Run) {
    && (run.completed.Some? ==>
          run.phase.Stopped? && !run.recorded && EndedFile !in run.files && WorkerResult(run, run.completed.value)
          && EndFile in run.files && run.files[EndFile] == ReceiptDoc(run.completed.value))
    && (run.recorded ==> run.phase.Stopped?)
    && (EndFile in run.files && run.completed.None? ==>
          run.recorded && run.files[EndFile].ReceiptDoc?
          && var r := run.files[EndFile].receipt;
             && Marked(run.files, r.id, r.goal, r.model) && r.selected.None?
             && (r.state == "interrupted" || r.state == "run_failed") && r.checksUsed == run.reserved)
    && (EndedFile in run.files ==>
          run.recorded && ReceiptFile !in run.files && EndFile !in run.files && run.files[EndedFile].AttemptDoc?
          && var a := run.files[EndedFile].attempt;
             && Marked(run.files, a.id, a.goal, a.model) && a.error.Some?
             && (a.state == "interrupted_before_receipt" || a.state == "ended_before_receipt"))
  }

  lemma CountIsReserved(run: Run, r: Receipt)
    requires Inv(run) && WorkerReceipt(run, r)
    ensures DurableChecks(run.files, r.checkRuns, r.checksUsed) == run.reserved
  {
    DurableChecksIsMaximum(run.files, r.checkRuns, r.checksUsed);
    if run.reserved > 0 {
      assert CheckFile(run.reserved) in run.files;
    }
  }

  lemma StepKeepsInv(run: Run, e: Event)
    requires Inv(run) && Enabled(run, e)
    ensures Inv(Step(run, e))
  {
    if e.EndRecorded? && HasSnapshot(run.files) {
      CountIsReserved(run, run.files[ReceiptFile].receipt);
    }
  }

  lemma {:induction false} ReachableInv(events: seq<Event>, run: Run)
    requires Reaches(events, run)
    ensures Inv(run)
  {
    if events != [] {
      var last := |events| - 1;
      ReachableInv(events[..last], RunOf(events[..last]).value);
      StepKeepsInv(RunOf(events[..last]).value, events[last]);
    }
  }

  // ----- main results -----

  /** end.json was written from a completed result that selects `number` and still validates. */
  predicate ReviewStands(run: Run, number: nat, validate: Validator) {
    run.completed.Some? && run.completed.value.selected == Some(number) && validate(run.completed.value).None?
  }

  lemma StatesDiffer()
    ensures forall s :: IsReview(s) || s == "interrupted" || s == "run_failed" || s == "saved_review_unavailable" ==>
      !Unfinished(s)
  {
    assert "review_ready"[0] == 'r' && "review_unverified"[0] == 'r' && "run_failed"[0] == 'r';
    assert "interrupted"[0] == 'i' && "saved_review_unavailable"[0] == 's';
    assert "generating_"[0] == 'g' && "hypothesizing_"[0] == 'h' && "verifying_"[0] == 'v';
    assert "baseline"[0] == 'b' && "finalizing"[0] == 'f';
  }

  /** Whoever reads, live or not: Apply is offered exactly for a completed run
      whose ready review still validates. */
  lemma ApplyOnlyAfterCompletion(events: seq<Event>, run: Run, live: bool, number: nat, validate: Validator)
    requires Reaches(events, run)
    ensures Appliable(Load(run.files, live, true, validate), number)
       <==> ReviewStands(run, number, validate) && run.completed.value.state == "review_ready"
  {
    ReachableInv(events, run);
    StatesDiffer();
  }

  /** A provisional selection: no end.json, and the last snapshot selects while finalizing. */
  predicate Provisional(run: Run, number: nat) {
    EndFile !in run.files && ReceiptFile in run.files && run.files[ReceiptFile].ReceiptDoc?
    && run.files[ReceiptFile].receipt.state == "finalizing" && run.files[ReceiptFile].receipt.selected == Some(number)
  }

  /** A dead read selects exactly when the review stands; a live read also shows a provisional selection. */
  lemma SelectionExactly(events: seq<Event>, run: Run, live: bool, number: nat, validate: Validator)
    requires Reaches(events, run)
    ensures Selection(Load(run.files, live, true, validate)) == Some(number)
       <==> ReviewStands(run, number, validate) || (live && Provisional(run, number))
  {
    ReachableInv(events, run);
    StatesDiffer();
  }

  /** Why the worker's assumption is needed, for any files at all: a snapshot left without an end
      shows its selection to a dead reader exactly when its state is neither a review nor one
      recovery counts as unfinished. */
  lemma SnapshotSelectionExactly(files: Files, number: nat, revalidate: bool, validate: Validator)
    requires SourceFile(files) == ReceiptFile && HasSnapshot(files)
    ensures var r := files[ReceiptFile].receipt;
      Selection(Load(files, false, revalidate, validate)) == Some(number)
      <==> r.selected == Some(number) && !CutShort(r.state)
  {
    StatesDiffer();
    UnfinishedExactly(files[ReceiptFile].receipt.state);
  }

  /** `awaiting_existing_edit` is such a state. */
  lemma AwaitingEditIsNotUnfinished()
    ensures !CutShort("awaiting_existing_edit")
  {
    UnfinishedExactly("awaiting_existing_edit");
    var state := "awaiting_existing_edit";
    assert state[0] == 'a' && state[1] == 'w';
    assert "generating_"[0] == 'g' && "hypothesizing_"[0] == 'h' && "verifying_"[0] == 'v';
    assert "baseline"[0] == 'b' && "finalizing"[0] == 'f' && "review_ready"[0] == 'r' && "review_unverified"[0] == 'r';
  }

  /** A run ended by `record_end` selects nothing for a dead reader, whether or not the record was saved. */
  lemma RecordedEndNeverSelects(events: seq<Event>, run: Run, revalidate: bool, validate: Validator)
    requires Reaches(events, run) && run.recorded
    ensures Selection(Load(run.files, false, revalidate, validate)) == None
  {
    ReachableInv(events, run);
    StatesDiffer();
  }

  /** `show` reads as live unless end.json or ended.json exists. */
  function ShowLive(files: Files): bool {
    !(EndFile in files || EndedFile in files)
  }

  /** After `record_end` lost its write, `show` still reports a selection exactly when
      the last snapshot was finalizing with one. */
  lemma ShowAfterLostRecord(events: seq<Event>, run: Run, number: nat, validate: Validator)
    requires Reaches(events, run) && run.recorded
    ensures Selection(Load(run.files, ShowLive(run.files), true, validate)) == Some(number)
      <==> Provisional(run, number)
  {
    ReachableInv(events, run);
    StatesDiffer();
  }

  /** Such a run exists, so "never selects after record_end" fails for `show`. */
  lemma ShowCanSelectAfterLostRecord(a: Attempt, r: Receipt, validate: Validator)
    requires Names(a, r.id, r.goal, r.model)
    requires r.checkRuns == 0 && r.checksUsed == 0 && r.state == "finalizing" && r.selected == Some(1)
    ensures exists events, run :: (Reaches(events, run) && run.recorded
      && Selection(Load(run.files, ShowLive(run.files), true, validate)) == Some(1))
  {
    var events := [Begin(a, 0)];
    var run := Step(FRESH, events[0]);
    ReachesStep([], FRESH, events[0]);
    ReachesStep(events, run, Snapshot(r));
    events, run := events + [Snapshot(r)], Step(run, Snapshot(r));
    ReachesStep(events, run, WorkerErr("", false, 0));
    events, run := events + [WorkerErr("", false, 0)], Step(run, WorkerErr("", false, 0));
    ReachesStep(events, run, EndRecorded(false));
    events, run := events + [EndRecorded(false)], Step(run, EndRecorded(false));
    ShowAfterLostRecord(events, run, 1, validate);
  }

  lemma ReachesStep(events: seq<Event>, run: Run, e: Event)
    requires Reaches(events, run) && Enabled(run, e)
    ensures Reaches(events + [e], Step(run, e))
  {
    assert (events + [e])[..|events|] == events;
  }

  /** No spent check slot is lost: once the run is dead, an unfinished receipt or a
      recorded end counts every reservation made before the crash. */
  lemma DeadReadCountsEveryReservation(events: seq<Event>, run: Run, revalidate: bool, validate: Validator)
    requires Reaches(events, run) && run.completed.None? && ReceiptFile in run.files
    requires EndFile in run.files
          || (HasSnapshot(run.files) && CutShort(run.files[ReceiptFile].receipt.state))
    ensures var loaded := Load(run.files, false, revalidate, validate);
      loaded.Ok? && loaded.value.LoadedReceipt? && loaded.value.receipt.checksUsed == run.reserved
  {
    ReachableInv(events, run);
    StatesDiffer();
    var r := run.files[ReceiptFile].receipt;
    UnfinishedExactly(r.state);
    UnfinishedExactly("finalizing");
    CountIsReserved(run, r);
  }

  /** A run that left neither receipt nor record reads back dead as interrupted; one whose end was recorded
      without a receipt reads back, live or dead, as what the record says. */
  lemma RunWithoutReceiptReads(events: seq<Event>, run: Run, live: bool, revalidate: bool, validate: Validator)
    requires Reaches(events, run) && run.files != map[] && ReceiptFile !in run.files && EndFile !in run.files
    ensures var loaded := Load(run.files, live, revalidate, validate);
      loaded.Ok? && loaded.value.LoadedAttempt?
      && var a := loaded.value.attempt;
         if EndedFile in run.files then a.state in {"interrupted_before_receipt", "ended_before_receipt"}
         else if run.files[AttemptFile].attempt.state == "started" && !live
         then a.state == "interrupted_before_receipt" && a.error.Some?
         else a == run.files[AttemptFile].attempt
  {
    ReachableInv(events, run);
    var name := if EndedFile in run.files then EndedFile else AttemptFile;
    AttemptReadsExactly(run.files, name, live, revalidate, validate);
  }

  /** `record_end` counts what recovery would have counted, and reading its record back changes nothing. */
  lemma RecordAgreesWithRecovery(files: Files, r: Receipt, message: string, cancelled: bool, elapsed: nat, live: bool)
    requires CutShort(r.state)
    ensures var e := EndRecord(files, r, message, cancelled, elapsed);
      && e.checksUsed == Recovered(files, r, false, false).checksUsed
      && Recovered(files, e, live, true) == e
      && (cancelled ==> Recovered(files, r, false, false).state == e.state)
  {
    StatesDiffer();
    UnfinishedExactly(r.state);
    UnfinishedExactly("finalizing");
  }

  ghost predicate ReadsMarked(run: Run, loaded: Result<Loaded, string>) {
    loaded.Ok? && match loaded.value
      case LoadedReceipt(r) => Marked(run.files, r.id, r.goal, r.model)
      case LoadedAttempt(a) => Marked(run.files, a.id, a.goal, a.model)
  }

  lemma ReceiptReadsMarked(run: Run, live: bool, revalidate: bool, validate: Validator)
    requires Inv(run) && (EndFile in run.files || ReceiptFile in run.files)
    ensures ReadsMarked(run, Load(run.files, live, revalidate, validate))
  {
  }

  lemma AttemptReadsMarked(run: Run, live: bool, revalidate: bool, validate: Validator)
    requires Inv(run) && run.files != map[] && EndFile !in run.files && ReceiptFile !in run.files
    ensures ReadsMarked(run, Load(run.files, live, revalidate, validate))
  {
  }

  /** Whatever was interrupted, an admitted run reads back, live or dead, as the run that was admitted. */
  lemma AdmittedRunReadsBack(events: seq<Event>, run: Run, live: bool, revalidate: bool, validate: Validator)
    requires Reaches(events, run) && run.files != map[]
    ensures ReadsMarked(run, Load(run.files, live, revalidate, validate))
  {
    ReachableInv(events, run);
    if EndFile in run.files || ReceiptFile in run.files {
      ReceiptReadsMarked(run, live, revalidate, validate);
    } else {
      AttemptReadsMarked(run, live, revalidate, validate);
    }
  }

  /** Once an id was admitted every later admission of it is refused and changes nothing. */
  lemma AdmittedOnce(events: seq<Event>, run: Run, a: Attempt, checkRuns: nat)
    requires Reaches(events, run) && Enabled(run, Begin(a, checkRuns)) && run.files != map[]
    ensures Step(run, Begin(a, checkRuns)) == run
  {
    ReachableInv(events, run);
  }
}
