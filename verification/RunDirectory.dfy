// The imperative side of RunEvidence: the files of one run, and a receipt in
// memory, changed in place.

module RunDirectory {
  import opened Wrappers
  import opened Text
  import opened RunEvidence
  import RecentRuns
  import RunListing

  /** A receipt being repaired after it was read. */
  class SavedReceipt {
    const id: string
    const goal: string
    const model: string
    const checkRuns: nat
    const rest: string
    var state: string
    var selected: Option<nat>
    var checksUsed: nat
    var elapsedMs: nat
    var knownGaps: seq<string>

    constructor (r: Receipt)
      ensures Value() == r
    {
      id, goal, model, checkRuns, rest := r.id, r.goal, r.model, r.checkRuns, r.rest;
      state, selected, checksUsed := r.state, r.selected, r.checksUsed;
      elapsedMs, knownGaps := r.elapsedMs, r.knownGaps;
    }

    function Value(): Receipt
      reads this
    {
      Receipt(id, goal, model, state, selected, checkRuns, checksUsed, elapsedMs, knownGaps, rest)
    }

    /** Raise `checksUsed` to the highest reservation within the budget. */
    method CountReservations(files: Files)
      modifies this`checksUsed
      ensures checksUsed == DurableChecks(files, checkRuns, old(checksUsed))
    {
      for number := 1 to checkRuns + 1
        invariant checksUsed == DurableChecks(files, number - 1, old(checksUsed))
      {
        if CheckFile(number) in files {
          checksUsed := Max(checksUsed, number);
        }
      }
    }

    method Recover(files: Files, live: bool, completed: bool)
      modifies this
      ensures Value() == Recovered(files, old(Value()), live, completed)
      ensures ReadAs(files, old(Value()), live, completed, Value())
    {
      RecoveredIs(files, Value(), live, completed);
      if !completed && IsReview(state) {
        state := "finalizing";
        selected := None;
      }
      if Unfinished(state) && !live {
        if HasPrefix(state, "verifying_") {
          knownGaps := knownGaps + [INTERRUPTED_VERIFICATION_GAP];
        }
        state := "interrupted";
        selected := None;
        CountReservations(files);
      }
    }

    method Revalidate(validate: Validator)
      modifies this
      ensures Value() == Revalidated(old(Value()), validate)
      ensures Value() == old(Value()).(state := state, selected := selected, knownGaps := knownGaps)
      ensures var verdict := validate(old(Value()));
        if old(selected).Some? && verdict.Some? then
          && state == "saved_review_unavailable" && selected.None?
          && knownGaps == old(knownGaps) + [UnvalidatedGap(verdict.value)]
        else Value() == old(Value())
    {
      if selected.Some? {
        var verdict := validate(Value());
        if verdict.Some? {
          state := "saved_review_unavailable";
          selected := None;
          knownGaps := knownGaps + [UnvalidatedGap(verdict.value)];
        }
      }
    }

    method End(files: Files, message: string, cancelled: bool, elapsed: nat)
      modifies this
      ensures Value() == EndRecord(files, old(Value()), message, cancelled, elapsed)
      ensures EndedAs(files, old(Value()), message, cancelled, elapsed, Value())
    {
      EndRecordIs(files, Value(), message, cancelled, elapsed);
      var verifying := HasPrefix(state, "verifying_");
      state := if cancelled then "interrupted" else "run_failed";
      selected := None;
      knownGaps := knownGaps + [message];
      elapsedMs := Max(elapsedMs, elapsed);
      if verifying {
        knownGaps := knownGaps + [INTERRUPTED_VERIFICATION_GAP];
      }
      CountReservations(files);
    }
  }

  class RunFolder {
    var files: Files

    constructor (files: Files)
      ensures this.files == files
    {
      this.files := files;
    }

    /** Admission refuses an id that has evidence of any kind, and a run root inside the repository.
        The recent-run index is a convenience: a failure to save it does not stop the run. */
    method BeginAttempt(a: Attempt, insideRepository: bool, index: RecentRuns.IndexFile, time: nat, indexSaved: bool)
      returns (admitted: bool)
      modifies this, index
      ensures admitted <==> !HasEvidence(old(files)) && !insideRepository
      ensures files == if admitted then AfterBegin(old(files), a) else old(files)
      ensures index.content == if !admitted || !indexSaved then old(index.content)
        else Some(RecentRuns.AfterSave(index.Known(old(index.content)),
          RunListing.Summary(a.id, a.goal, a.model, time)))
    {
      if HasEvidence(files) || insideRepository {
        return false;
      }
      files := files[AttemptFile := AttemptDoc(a)];
      if indexSaved {
        index.Save(RunListing.Summary(a.id, a.goal, a.model, time));
      }
      return true;
    }

    /** Staged, synced and renamed over end.json, so it is replaced whole or not at all. */
    method WriteEndReceipt(r: Receipt, persisted: bool) returns (ok: bool)
      modifies this
      ensures ok == persisted
      ensures files == if persisted then old(files)[EndFile := ReceiptDoc(r)] else old(files)
    {
      ok := persisted;
      if persisted {
        files := files[EndFile := ReceiptDoc(r)];
      }
    }

    method RecordEnd(a: Attempt, message: string, cancelled: bool, elapsed: nat, persisted: bool)
      returns (interrupted: Option<Receipt>)
      modifies this
      ensures files == AfterRecordEnd(old(files), a, message, cancelled, elapsed, persisted)
      ensures interrupted == if !HasSnapshot(old(files)) then None
                             else Some(EndRecord(old(files), old(files)[ReceiptFile].receipt,
                                                 message, cancelled, elapsed))
      ensures persisted && !HasSnapshot(old(files)) ==>
        files == old(files)[EndedFile := AttemptDoc(Attempt(a.id, a.goal, a.model,
          if cancelled then "interrupted_before_receipt" else "ended_before_receipt", Some(message)))]
    {
      if HasSnapshot(files) {
        var receipt := new SavedReceipt(files[ReceiptFile].receipt);
        receipt.End(files, message, cancelled, elapsed);
        var _ := WriteEndReceipt(receipt.Value(), persisted);
        return Some(receipt.Value());
      }
      if persisted {
        files := files[EndedFile := AttemptDoc(EndedAttempt(a, message, cancelled))];
      }
      return None;
    }

    lemma ReadsAsBelieved(live: bool, revalidate: bool, validate: Validator)
      ensures var loaded := Load(files, live, revalidate, validate);
        forall name :: Believed(files, name) && files[name].ReceiptDoc? && (name != EndFile || !revalidate) ==>
          && loaded.Ok? && loaded.value.LoadedReceipt?
          && ReadAs(files, files[name].receipt, live, name == EndFile, loaded.value.receipt)
    {
      forall name | Believed(files, name) {
        ReceiptReadsExactly(files, name, live, validate);
      }
    }

    method ReadSaved(live: bool, revalidate: bool, validate: Validator) returns (loaded: Result<Loaded, string>)
      ensures loaded == Load(files, live, revalidate, validate)
      ensures forall name :: Believed(files, name) && files[name].ReceiptDoc? && (name != EndFile || !revalidate) ==>
        && loaded.Ok? && loaded.value.LoadedReceipt?
        && ReadAs(files, files[name].receipt, live, name == EndFile, loaded.value.receipt)
    {
      ReadsAsBelieved(live, revalidate, validate);
      var name := SourceFile(files);
      if name !in files {
        return LoadAttempt(files, live);
      }
      if !files[name].ReceiptDoc? {
        return Err("receipt unreadable");
      }
      var completed := name == EndFile;
      var receipt := new SavedReceipt(files[name].receipt);
      receipt.Recover(files, live, completed);
      if completed && revalidate {
        receipt.Revalidate(validate);
      }
      return Ok(LoadedReceipt(receipt.Value()));
    }
  }
}
