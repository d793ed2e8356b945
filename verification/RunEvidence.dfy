// The files one local run leaves behind, the steps that write them, and the
// reader that reopens a run from whatever a crash left on disk.

module RunEvidence {
  import opened Wrappers
  import opened Text

  // ----- documents -----

  datatype Attempt = Attempt(id: string, goal: string, model: string, state: string, error: Option<string>)

  /** A saved receipt. `rest` stands for the fields no rule below looks at. */
  datatype Receipt = Receipt(
    id: string, goal: string, model: string, state: string, selected: Option<nat>,
    checkRuns: nat, checksUsed: nat, elapsedMs: nat, knownGaps: seq<string>, rest: string)

  /** Folder is the run directory itself; AttemptFile and EndedFile lie beside it. */
  datatype FileName =
    | Folder | AttemptFile | EndedFile | ReceiptFile | InterruptionFile | EndFile | CheckFile(number: nat)

  /** Unreadable: over the read limit, or not the JSON the reader expects. */
  datatype Content = AttemptDoc(attempt: Attempt) | ReceiptDoc(receipt: Receipt) | Opaque | Unreadable

  type Files = map<FileName, Content>

  const INTERRUPTED_VERIFICATION_GAP :=
    "Verification ended before complete check evidence was saved. The candidate diff, hash and elapsed time " +
    "describe a pre-check observation; host checks may have changed its saved directory. Inspect current " +
    "candidate bytes and separate command journals. Apply remains unavailable."
  const NO_RECEIPT_ERROR :=
    "The engine stopped before it saved a receipt. No project check or model generation is recorded for this attempt."

  predicate HasEvidence(files: Files) {
    Folder in files || AttemptFile in files || EndedFile in files
  }

  // ----- recovery -----

  predicate IsReview(state: string) {
    state == "review_ready" || state == "review_unverified"
  }

  predicate Unfinished(state: string) {
    HasPrefix(state, "generating_") || HasPrefix(state, "hypothesizing_") || HasPrefix(state, "verifying_") ||
    state == "baseline" || state == "finalizing"
  }

  /** `used`, raised to the highest reservation file numbered within the budget. */
  function DurableChecks(files: Files, budget: nat, used: nat): nat {
    if budget == 0 then used
    else
      var below := DurableChecks(files, budget - 1, used);
      if CheckFile(budget) in files then Max(below, budget) else below
  }

  function WithGapIf(gaps: seq<string>, verifying: bool): seq<string> {
    if verifying then gaps + [INTERRUPTED_VERIFICATION_GAP] else gaps
  }

  /** A review claim outside end.json counts only as a run still finalizing. */
  function Demoted(r: Receipt, completed: bool): Receipt {
    if !completed && IsReview(r.state) then r.(state := "finalizing", selected := None) else r
  }

  function Recovered(files: Files, r: Receipt, live: bool, completed: bool): Receipt {
    var d := Demoted(r, completed);
    if Unfinished(d.state) && !live then
      d.(state := "interrupted", selected := None,
         knownGaps := WithGapIf(d.knownGaps, HasPrefix(d.state, "verifying_")),
         checksUsed := DurableChecks(files, d.checkRuns, d.checksUsed))
    else d
  }

  /** `validate` is the worker's check of the saved candidate: None when it passes. */
  type Validator = Receipt -> Option<string>

  function UnvalidatedGap(detail: string): string {
    "Saved review could not be revalidated: " + detail
    + ". Apply is unavailable until a current run verifies the goal."
  }

  function Revalidated(r: Receipt, validate: Validator): Receipt {
    if r.selected.Some? && validate(r).Some? then
      r.(state := "saved_review_unavailable", selected := None,
         knownGaps := r.knownGaps + [UnvalidatedGap(validate(r).value)])
    else r
  }

  // ----- reading a run -----

  datatype Loaded = LoadedReceipt(receipt: Receipt) | LoadedAttempt(attempt: Attempt)

  function LoadAttempt(files: Files, live: bool): Result<Loaded, string> {
    var name := if EndedFile in files then EndedFile else AttemptFile;
    if name !in files || !files[name].AttemptDoc? then Err("attempt unreadable")
    else
      var a := files[name].attempt;
      Ok(LoadedAttempt(
        if a.state == "started" && !live
        then a.(state := "interrupted_before_receipt", error := Some(NO_RECEIPT_ERROR)) else a))
  }

  /** end.json outranks interruption.json, which outranks receipt.json. */
  function SourceFile(files: Files): FileName {
    if EndFile in files then EndFile
    else if InterruptionFile in files then InterruptionFile
    else ReceiptFile
  }

  function Load(files: Files, live: bool, revalidate: bool, validate: Validator): Result<Loaded, string> {
    var name := SourceFile(files);
    if name !in files then LoadAttempt(files, live)
    else if !files[name].ReceiptDoc? then Err("receipt unreadable")
    else
      var r := Recovered(files, files[name].receipt, live, name == EndFile);
      Ok(LoadedReceipt(if name == EndFile && revalidate then Revalidated(r, validate) else r))
  }

  function Selection(loaded: Result<Loaded, string>): Option<nat> {
    if loaded.Ok? && loaded.value.LoadedReceipt? then loaded.value.receipt.selected else None
  }

  /** What Apply demands of the receipt it is given. */
  predicate Appliable(loaded: Result<Loaded, string>, number: nat) {
    loaded.Ok? && loaded.value.LoadedReceipt? &&
    loaded.value.receipt.state == "review_ready" && loaded.value.receipt.selected == Some(number)
  }

  // ----- writing a run -----

  function AfterBegin(files: Files, a: Attempt): Files {
    if HasEvidence(files) then files else files[AttemptFile := AttemptDoc(a)]
  }

  /** The receipt `record_end` writes over the last snapshot it can read. */
  function EndRecord(files: Files, r: Receipt, message: string, cancelled: bool, elapsed: nat): Receipt {
    r.(state := if cancelled then "interrupted" else "run_failed",
       selected := None,
       elapsedMs := Max(r.elapsedMs, elapsed),
       knownGaps := WithGapIf(r.knownGaps + [message], HasPrefix(r.state, "verifying_")),
       checksUsed := DurableChecks(files, r.checkRuns, r.checksUsed))
  }

  /** The attempt `record_end` writes when no snapshot can be read. */
  function EndedAttempt(a: Attempt, message: string, cancelled: bool): Attempt {
    a.(state := if cancelled then "interrupted_before_receipt" else "ended_before_receipt", error := Some(message))
  }

  predicate HasSnapshot(files: Files) {
    ReceiptFile in files && files[ReceiptFile].ReceiptDoc?
  }

  /** `persisted` is false when the write itself fails; that failure is ignored. */
  function AfterRecordEnd(files: Files, a: Attempt, message: string, cancelled: bool, elapsed: nat,
                          persisted: bool): Files {
    if !persisted then files
    else if HasSnapshot(files) then
      files[EndFile := ReceiptDoc(EndRecord(files, files[ReceiptFile].receipt, message, cancelled, elapsed))]
    else files[EndedFile := AttemptDoc(EndedAttempt(a, message, cancelled))]
  }

  // ----- facts about recovery -----

  /** `m` is the largest of the saved count and the reservations numbered within the budget. */
  ghost predicate HighestCheck(files: Files, budget: nat, used: nat, m: nat) {
    && m >= used
    && (forall n :: 1 <= n <= budget && CheckFile(n) in files ==> n <= m)
    && (m == used || (1 <= m <= budget && CheckFile(m) in files))
  }

  lemma {:induction false} DurableChecksIsMaximum(files: Files, budget: nat, used: nat)
    ensures HighestCheck(files, budget, used, DurableChecks(files, budget, used))
  {
    if budget > 0 {
      DurableChecksIsMaximum(files, budget - 1, used);
    }
  }

  ghost predicate LeftVerifying(state: string) {
    exists t :: state == "verifying_" + t
  }

  /** The states a worker leaves while it is at work. */
  ghost predicate LeftWorking(state: string) {
    || state == "baseline" || state == "finalizing" || LeftVerifying(state)
    || exists t :: state == "generating_" + t || state == "hypothesizing_" + t
  }

  /** Before end.json, a run in one of these states has not ended. */
  ghost predicate CutShort(state: string) {
    LeftWorking(state) || state == "review_ready" || state == "review_unverified"
  }

  lemma UnfinishedExactly(state: string)
    ensures Unfinished(state) <==> LeftWorking(state)
    ensures HasPrefix(state, "verifying_") <==> LeftVerifying(state)
  {
    PrefixExactly(state, "generating_");
    PrefixExactly(state, "hypothesizing_");
    PrefixExactly(state, "verifying_");
  }

  /** What a reader makes of a saved receipt: dead, a run cut short becomes interrupted, unselected and
      with every reserved check counted; live, a review claim outside end.json is still being finalized. */
  ghost predicate ReadAs(files: Files, r: Receipt, live: bool, completed: bool, d: Receipt) {
    if live then
      d == if r.state in {"review_ready", "review_unverified"} && !completed
           then r.(state := "finalizing", selected := None) else r
    else if LeftWorking(r.state) || (!completed && CutShort(r.state)) then
      && HighestCheck(files, r.checkRuns, r.checksUsed, d.checksUsed)
      && d == r.(state := "interrupted", selected := None, checksUsed := d.checksUsed,
                 knownGaps := if LeftVerifying(r.state) then r.knownGaps + [INTERRUPTED_VERIFICATION_GAP]
                              else r.knownGaps)
    else d == r
  }

  lemma RecoveredIs(files: Files, r: Receipt, live: bool, completed: bool)
    ensures ReadAs(files, r, live, completed, Recovered(files, r, live, completed))
  {
    UnfinishedExactly(r.state);
    UnfinishedExactly("finalizing");
    DurableChecksIsMaximum(files, r.checkRuns, r.checksUsed);
    assert "review_ready"[0] == 'r' && "review_unverified"[0] == 'r' && "finalizing"[0] == 'f';
    assert "verifying_"[0] == 'v';
  }

  /** The record of an end: failed or interrupted, unselected, the message and then the verification gap
      among the gaps, the larger time, and every reserved check counted. */
  ghost predicate EndedAs(files: Files, r: Receipt, message: string, cancelled: bool, elapsed: nat, e: Receipt) {
    && e == r.(state := e.state, selected := None, elapsedMs := e.elapsedMs, knownGaps := e.knownGaps,
               checksUsed := e.checksUsed)
    && e.state == (if cancelled then "interrupted" else "run_failed")
    && e.elapsedMs >= r.elapsedMs && e.elapsedMs >= elapsed && e.elapsedMs in {r.elapsedMs, elapsed}
    && e.knownGaps == r.knownGaps + [message]
         + (if LeftVerifying(r.state) then [INTERRUPTED_VERIFICATION_GAP] else [])
    && HighestCheck(files, r.checkRuns, r.checksUsed, e.checksUsed)
  }

  lemma EndRecordIs(files: Files, r: Receipt, message: string, cancelled: bool, elapsed: nat)
    ensures EndedAs(files, r, message, cancelled, elapsed, EndRecord(files, r, message, cancelled, elapsed))
  {
    UnfinishedExactly(r.state);
    DurableChecksIsMaximum(files, r.checkRuns, r.checksUsed);
  }

  /** The receipt file a reader believes: none of a higher rank stands beside it. */
  predicate Believed(files: Files, name: FileName) {
    name in files && match name
      case EndFile => true
      case InterruptionFile => EndFile !in files
      case ReceiptFile => EndFile !in files && InterruptionFile !in files
      case _ => false
  }

  /** Reading a run that has a receipt. Only end.json is validated again, and only on request. */
  lemma ReceiptReadsExactly(files: Files, name: FileName, live: bool, validate: Validator)
    requires Believed(files, name)
    ensures var loaded := Load(files, live, false, validate);
      if files[name].ReceiptDoc?
      then loaded.Ok? && loaded.value.LoadedReceipt?
           && ReadAs(files, files[name].receipt, live, name == EndFile, loaded.value.receipt)
      else loaded.Err?
    ensures name != EndFile ==> Load(files, live, true, validate) == Load(files, live, false, validate)
  {
    if files[name].ReceiptDoc? {
      RecoveredIs(files, files[name].receipt, live, name == EndFile);
    }
  }

  /** Reading a run without any receipt: the ended attempt, else its marker. One still started, of a dead
      run, was interrupted. */
  lemma AttemptReadsExactly(files: Files, name: FileName, live: bool, revalidate: bool, validate: Validator)
    requires EndFile !in files && InterruptionFile !in files && ReceiptFile !in files && name in files
    requires name == EndedFile || (name == AttemptFile && EndedFile !in files)
    ensures var loaded := Load(files, live, revalidate, validate);
      if files[name].AttemptDoc? then
        var a := files[name].attempt;
        loaded == Ok(LoadedAttempt(
          if a.state == "started" && !live
          then Attempt(a.id, a.goal, a.model, "interrupted_before_receipt", Some(NO_RECEIPT_ERROR)) else a))
      else loaded.Err?
  {
  }

  /** Recovery is idempotent, and an earlier live read never changes a later dead one. */
  lemma RecoveryIsClosure(before: Files, files: Files, r: Receipt, live: bool, completed: bool)
    ensures Recovered(files, Recovered(files, r, live, completed), live, completed)
      == Recovered(files, r, live, completed)
    ensures Recovered(files, Recovered(before, r, true, completed), false, completed)
      == Recovered(files, r, false, completed)
    ensures Recovered(before, Recovered(files, r, false, completed), true, completed)
      == Recovered(files, r, false, completed)
  {
    assert "interrupted"[0] == 'i' && "generating_"[0] == 'g' && "hypothesizing_"[0] == 'h' && "verifying_"[0] == 'v';
  }
}
