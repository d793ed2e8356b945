// Saved runs in two roots: how one id is reopened, and the list that offers ids.

module RunListing {
  import opened Wrappers
  import opened RunEvidence
  import opened NewestFirst
  import opened StableSort
  import RunLifecycle
  import opened StringOrder

  const MAX_RECENT_RUNS := 12
  const MAX_FALLBACK_RECEIPTS := 12
  const MAX_FALLBACK_MARKERS := 128

  /** One name in a root. Marker: `raw`.attempt.json. RunDirectory: the directory `raw`,
      with the time and size verdict of its highest-priority receipt file, if any. */
  datatype Entry =
    | OtherEntry
    | Marker(raw: string, time: nat, small: bool)
    | RunDirectory(raw: string, receipt: Option<(nat, bool)>)

  /** A snapshot of both roots; `legacy` and `chosen` may name the same directory. */
  datatype Storage = Storage(
    legacy: string, chosen: string,
    runs: map<(string, string), Files>, entries: map<string, seq<Entry>>)

  datatype Summary = Summary(id: string, goal: string, model: string, time: nat)
  datatype RunList = RunList(runs: seq<Summary>, limited: bool)

  /** UUID parsing followed by canonical printing; None when `raw` is no UUID. */
  type Canonical = string -> Option<string>

  // ----- reopening -----

  function FilesAt(st: Storage, root: string, name: string): Files {
    if (root, name) in st.runs then st.runs[(root, name)] else map[]
  }

  /** The root an id is reopened from: evidence in the legacy root wins. */
  function SavedRoot(st: Storage, id: string): string {
    if HasEvidence(FilesAt(st, st.legacy, id)) then st.legacy else st.chosen
  }

  function LoadedId(l: Loaded): string {
    match l case LoadedReceipt(r) => r.id case LoadedAttempt(a) => a.id
  }

  function ReadSavedRun(st: Storage, id: string, live: bool, validate: Validator): Result<Loaded, string> {
    var loaded := Load(FilesAt(st, SavedRoot(st, id), id), live, true, validate);
    if loaded.Ok? && LoadedId(loaded.value) != id then Err("identity mismatch") else loaded
  }

  function SummaryOfLoaded(l: Loaded, time: nat): Summary {
    match l
    case LoadedReceipt(r) => Summary(r.id, r.goal, r.model, time)
    case LoadedAttempt(a) => Summary(a.id, a.goal, a.model, time)
  }

  // ----- candidates of the fallback scan -----

  /** `raw` is the name found on disk, `id` its canonical form. */
  datatype Candidate = Candidate(time: nat, id: string, root: string, raw: string, isReceipt: bool)

  function CandidateOf(root: string, e: Entry, canon: Canonical): Option<Candidate> {
    match e
    case OtherEntry => None
    case Marker(raw, time, small) =>
      if canon(raw).Some? && small then Some(Candidate(time, canon(raw).value, root, raw, false)) else None
    case RunDirectory(raw, receipt) =>
      if canon(raw).Some? && receipt.Some? && receipt.value.1
      then Some(Candidate(receipt.value.0, canon(raw).value, root, raw, true)) else None
  }

  function CandidatesIn(root: string, entries: seq<Entry>, canon: Canonical): seq<Candidate> {
    if entries == [] then []
    else
      var rest := CandidatesIn(root, entries[..|entries| - 1], canon);
      var c := CandidateOf(root, entries[|entries| - 1], canon);
      if c.Some? then rest + [c.value] else rest
  }

  function EntriesAt(st: Storage, root: string): seq<Entry> {
    if root in st.entries then st.entries[root] else []
  }

  /** Every candidate of both roots, the chosen one first; a shared root is scanned once. */
  function AllCandidates(st: Storage, canon: Canonical): seq<Candidate> {
    CandidatesIn(st.chosen, EntriesAt(st, st.chosen), canon) +
    if st.legacy == st.chosen then [] else CandidatesIn(st.legacy, EntriesAt(st, st.legacy), canon)
  }

  method ScanRoot(root: string, entries: seq<Entry>, canon: Canonical, candidateLimit: nat, directoryLimit: nat,
                  found: seq<Candidate>, visited: nat)
    returns (candidates: seq<Candidate>, visited': nat, truncated: bool)
    requires |found| <= candidateLimit && visited <= directoryLimit
    ensures |candidates| <= candidateLimit && visited' <= directoryLimit
    ensures found <= candidates <= found + CandidatesIn(root, entries, canon)
    ensures !truncated ==> candidates == found + CandidatesIn(root, entries, canon)
    ensures truncated ==> visited' == directoryLimit || |candidates| == candidateLimit
  {
    candidates, visited', truncated := found, visited, false;
    for i := 0 to |entries|
      invariant candidates == found + CandidatesIn(root, entries[..i], canon)
      invariant !truncated && |candidates| <= candidateLimit && visited' <= directoryLimit
    {
      if visited' == directoryLimit || |candidates| == candidateLimit {
        CandidatesInPrefix(root, entries, i, canon);
        truncated := true;
        return;
      }
      visited' := visited' + 1;
      assert entries[..i + 1][..i] == entries[..i];
      var c := CandidateOf(root, entries[i], canon);
      if c.Some? {
        candidates := candidates + [c.value];
      }
    }
    assert entries[..|entries|] == entries;
  }

  lemma {:induction false} CandidatesInPrefix(root: string, entries: seq<Entry>, i: nat, canon: Canonical)
    requires i <= |entries|
    ensures CandidatesIn(root, entries[..i], canon) <= CandidatesIn(root, entries, canon)
    decreases |entries|
  {
    if i == |entries| {
      assert entries[..i] == entries;
    } else {
      assert entries[..|entries| - 1][..i] == entries[..i];
      CandidatesInPrefix(root, entries[..|entries| - 1], i, canon);
    }
  }

  method GatherCandidates(st: Storage, canon: Canonical, candidateLimit: nat, directoryLimit: nat)
    returns (candidates: seq<Candidate>, truncated: bool, visited: nat)
    ensures candidates <= AllCandidates(st, canon)
    ensures |candidates| <= candidateLimit && visited <= directoryLimit
    ensures truncated ==> visited == directoryLimit || |candidates| == candidateLimit
    ensures !truncated ==> candidates == AllCandidates(st, canon)
  {
    candidates, visited, truncated :=
      ScanRoot(st.chosen, EntriesAt(st, st.chosen), canon, candidateLimit, directoryLimit, [], 0);
    if !truncated && st.legacy != st.chosen {
      candidates, visited, truncated :=
        ScanRoot(st.legacy, EntriesAt(st, st.legacy), canon, candidateLimit, directoryLimit, candidates, visited);
    }
  }

  // ----- what one candidate contributes -----

  /** A chosen-root copy is passed over when reopening would use the legacy root. */
  predicate Advertised(st: Storage, c: Candidate) {
    !(st.chosen != st.legacy && HasEvidence(FilesAt(st, st.legacy, c.id)) && c.root != st.legacy)
  }

  /** The directory a candidate is read from. */
  function ReadDirectory(c: Candidate): (string, string) {
    (c.root, if c.isReceipt then c.raw else c.id)
  }

  predicate HasReceiptFile(files: Files) {
    EndFile in files || InterruptionFile in files || ReceiptFile in files
  }

  function SummaryOf(st: Storage, c: Candidate, validate: Validator): Option<Summary> {
    var files := FilesAt(st, ReadDirectory(c).0, ReadDirectory(c).1);
    if !c.isReceipt && HasReceiptFile(files) then None
    else
      var loaded := Load(files, false, !c.isReceipt, validate);
      if loaded.Ok? && LoadedId(loaded.value) == c.id && loaded.value.LoadedReceipt? == c.isReceipt
      then Some(SummaryOfLoaded(loaded.value, c.time)) else None
  }

  /** A candidate the list may offer: it reads back under its own id. */
  predicate Good(st: Storage, c: Candidate, validate: Validator) {
    Advertised(st, c) && SummaryOf(st, c, validate).Some?
  }

  // ----- the list -----

  predicate IndexVisible(st: Storage, run: Summary, canon: Canonical) {
    && canon(run.id) == Some(run.id)
    && (HasEvidence(FilesAt(st, st.legacy, run.id)) || HasEvidence(FilesAt(st, st.chosen, run.id)))
    && (st.legacy == st.chosen || !HasEvidence(FilesAt(st, st.legacy, run.id))
         || !HasEvidence(FilesAt(st, st.chosen, run.id)))
  }

  function Ids(runs: seq<Summary>): set<string> {
    set run | run in runs :: run.id
  }

  ghost predicate DistinctIds(runs: seq<Summary>) {
    forall i, j :: 0 <= i < j < |runs| ==> runs[i].id != runs[j].id
  }

  function StampOf(run: Summary): Stamp { Stamp(run.time, run.id) }
  function StampOfCandidate(c: Candidate): Stamp { Stamp(c.time, c.id) }

  predicate NewerRun(a: Summary, b: Summary) { NotOlder(StampOf(a), StampOf(b)) }
  predicate NewerCandidate(a: Candidate, b: Candidate) { NotOlder(StampOfCandidate(a), StampOfCandidate(b)) }

  lemma SortedRuns(runs: seq<Summary>)
    ensures Sorted(Sort(runs, NewerRun), NewerRun) && multiset(Sort(runs, NewerRun)) == multiset(runs)
  {
    forall a: Summary, b: Summary ensures NewerRun(a, b) || NewerRun(b, a) {
      NotOlderTotal(StampOf(a), StampOf(b));
    }
    forall a: Summary, b: Summary, c: Summary | NewerRun(a, b) && NewerRun(b, c) ensures NewerRun(a, c) {
      NotOlderTransitive(StampOf(a), StampOf(b), StampOf(c));
    }
    SortSorts(runs, NewerRun);
    SortKeeps(runs, NewerRun);
  }

  lemma SortedCandidates(cs: seq<Candidate>)
    ensures Sorted(Sort(cs, NewerCandidate), NewerCandidate) && multiset(Sort(cs, NewerCandidate)) == multiset(cs)
  {
    forall a: Candidate, b: Candidate ensures NewerCandidate(a, b) || NewerCandidate(b, a) {
      NotOlderTotal(StampOfCandidate(a), StampOfCandidate(b));
    }
    forall a: Candidate, b: Candidate, c: Candidate | NewerCandidate(a, b) && NewerCandidate(b, c)
      ensures NewerCandidate(a, c)
    {
      NotOlderTransitive(StampOfCandidate(a), StampOfCandidate(b), StampOfCandidate(c));
    }
    SortSorts(cs, NewerCandidate);
    SortKeeps(cs, NewerCandidate);
  }

  method KeepIndexed(st: Storage, index: seq<Summary>, canon: Canonical) returns (runs: seq<Summary>)
    ensures DistinctIds(runs) && |runs| <= MAX_RECENT_RUNS
    ensures forall run :: run in runs ==> run in index && IndexVisible(st, run, canon)
    ensures forall i :: 0 <= i < |index| && i < MAX_RECENT_RUNS && IndexVisible(st, index[i], canon) ==>
      index[i].id in Ids(runs)
  {
    runs := [];
    var n := Min(|index|, MAX_RECENT_RUNS);
    for i := 0 to n
      invariant DistinctIds(runs) && |runs| <= i
      invariant forall run :: run in runs ==> run in index && IndexVisible(st, run, canon)
      invariant forall k :: 0 <= k < i && IndexVisible(st, index[k], canon) ==> index[k].id in Ids(runs)
    {
      if IndexVisible(st, index[i], canon) && index[i].id !in Ids(runs) {
        AppendIds(runs, index[i]);
        runs := runs + [index[i]];
      }
    }
  }

  lemma AppendIds(runs: seq<Summary>, run: Summary)
    requires DistinctIds(runs) && run.id !in Ids(runs)
    ensures Ids(runs + [run]) == Ids(runs) + {run.id}
    ensures DistinctIds(runs + [run])
  {
    var longer := runs + [run];
    assert longer[|runs|] == run;
    forall id ensures id in Ids(longer) <==> id in Ids(runs) + {run.id} {
      if id in Ids(runs) {
        var r :| r in runs && r.id == id;
        assert r in longer;
      }
    }
    forall i, j | 0 <= i < j < |longer| ensures longer[i].id != longer[j].id {
      assert longer[i] in runs;
    }
  }

  ghost predicate Offers(st: Storage, c: Candidate, validate: Validator, run: Summary) {
    Advertised(st, c) && SummaryOf(st, c, validate) == Some(run)
  }

  ghost predicate OfferedBy(st: Storage, candidates: seq<Candidate>, validate: Validator, run: Summary) {
    exists c :: c in candidates && Offers(st, c, validate, run)
  }

  /** `run` is at least as new as every candidate in `cs` that was left out or shares its id. */
  ghost predicate NewerThanOmitted(st: Storage, cs: seq<Candidate>, validate: Validator, run: Summary,
                                   listed: set<string>) {
    forall c :: c in cs && Good(st, c, validate) && (c.id !in listed || c.id == run.id) ==>
      NotOlder(StampOf(run), StampOfCandidate(c))
  }

  /** The fallback loop: newest candidate first, under two read limits, stopping past twelve runs. */
  method ReadCandidates(st: Storage, validate: Validator, ordered: seq<Candidate>, kept: seq<Summary>)
    returns (runs: seq<Summary>, truncated: bool, receiptReads: nat, markerReads: nat)
    requires DistinctIds(kept) && |kept| < MAX_RECENT_RUNS && Sorted(ordered, NewerCandidate)
    ensures DistinctIds(runs) && kept <= runs && |runs| <= MAX_RECENT_RUNS + 1
    ensures forall i :: |kept| <= i < |runs| ==> OfferedBy(st, ordered, validate, runs[i])
    ensures forall i :: |kept| <= i < |runs| ==> NewerThanOmitted(st, ordered, validate, runs[i], Ids(runs))
    ensures receiptReads <= MAX_FALLBACK_RECEIPTS && markerReads <= MAX_FALLBACK_MARKERS
    ensures truncated ==>
      |runs| > MAX_RECENT_RUNS || receiptReads == MAX_FALLBACK_RECEIPTS || markerReads == MAX_FALLBACK_MARKERS
    ensures !truncated ==> |runs| <= MAX_RECENT_RUNS && forall c :: c in ordered && Good(st, c, validate) ==>
      c.id in Ids(runs)
  {
    runs, truncated, receiptReads, markerReads := kept, false, 0, 0;
    var i := 0;
    while i < |ordered| && !truncated
      invariant 0 <= i <= |ordered|
      invariant |runs| <= MAX_RECENT_RUNS + 1 && (truncated <==> |runs| > MAX_RECENT_RUNS)
      invariant receiptReads <= MAX_FALLBACK_RECEIPTS && markerReads <= MAX_FALLBACK_MARKERS
      invariant Reading(st, validate, ordered, kept, runs, i)
      decreases |ordered| - i, !truncated
    {
      var c := ordered[i];
      ReadingMore(st, validate, ordered, kept, runs, i);
      if c.id in Ids(runs) || !Advertised(st, c) {
        i := i + 1;
        continue;
      }
      if c.isReceipt {
        if receiptReads == MAX_FALLBACK_RECEIPTS {
          truncated := true;
          break;
        }
        receiptReads := receiptReads + 1;
      } else {
        if markerReads == MAX_FALLBACK_MARKERS {
          truncated := true;
          break;
        }
        markerReads := markerReads + 1;
      }
      var summary := SummaryOf(st, c, validate);
      i := i + 1;
      if summary.Some? {
        runs := runs + [summary.value];
        truncated := |runs| > MAX_RECENT_RUNS;
      }
    }
    forall r | |kept| <= r < |runs| ensures NewerThanOmitted(st, ordered, validate, runs[r], Ids(runs)) {
      NewerThanRest(st, ordered, validate, runs[r], Ids(runs), i);
    }
  }

  /** `run` is at least as new as every good candidate from `i` on, and as every one of its own id. */
  ghost predicate NewerFrom(st: Storage, validate: Validator, ordered: seq<Candidate>, run: Summary, i: nat) {
    forall k :: 0 <= k < |ordered| && (i <= k || ordered[k].id == run.id) && Good(st, ordered[k], validate)
      ==> NotOlder(StampOf(run), StampOfCandidate(ordered[k]))
  }

  /** The first `i` candidates are dealt with. */
  ghost predicate Reading(st: Storage, validate: Validator, ordered: seq<Candidate>, kept: seq<Summary>,
                          runs: seq<Summary>, i: nat) {
    && i <= |ordered| && DistinctIds(runs) && kept <= runs
    && AllOffered(st, validate, ordered, runs, |kept|)
    && GoodAreIn(st, validate, ordered, i, Ids(runs))
    && AllNewerFrom(st, validate, ordered, runs, |kept|, i)
  }

  ghost predicate AllOffered(st: Storage, validate: Validator, ordered: seq<Candidate>, runs: seq<Summary>,
                             first: nat) {
    forall k :: first <= k < |runs| ==> OfferedBy(st, ordered, validate, runs[k])
  }

  ghost predicate GoodAreIn(st: Storage, validate: Validator, ordered: seq<Candidate>, i: nat, ids: set<string>)
    requires i <= |ordered|
  {
    forall k :: 0 <= k < i && Good(st, ordered[k], validate) ==> ordered[k].id in ids
  }

  ghost predicate AllNewerFrom(st: Storage, validate: Validator, ordered: seq<Candidate>, runs: seq<Summary>,
                               first: nat, i: nat) {
    forall r :: first <= r < |runs| ==> NewerFrom(st, validate, ordered, runs[r], i)
  }

  lemma OneMoreOffered(st: Storage, validate: Validator, ordered: seq<Candidate>, runs: seq<Summary>, first: nat,
                       run: Summary)
    requires AllOffered(st, validate, ordered, runs, first) && OfferedBy(st, ordered, validate, run)
    ensures AllOffered(st, validate, ordered, runs + [run], first)
  {
  }

  lemma OneMoreNewer(st: Storage, validate: Validator, ordered: seq<Candidate>, runs: seq<Summary>, first: nat, i: nat,
                     run: Summary)
    requires AllNewerFrom(st, validate, ordered, runs, first, i) && NewerFrom(st, validate, ordered, run, i + 1)
    ensures AllNewerFrom(st, validate, ordered, runs + [run], first, i + 1)
  {
    var longer := runs + [run];
    forall r | first <= r < |longer| ensures NewerFrom(st, validate, ordered, longer[r], i + 1) {
      if r < |runs| {
        NewerFromLater(st, validate, ordered, runs[r], i);
      }
    }
  }

  lemma NewerFromLater(st: Storage, validate: Validator, ordered: seq<Candidate>, run: Summary, i: nat)
    requires NewerFrom(st, validate, ordered, run, i)
    ensures NewerFrom(st, validate, ordered, run, i + 1)
  {
  }

  /** What the next candidate makes of it, listed already, not good, or added. */
  lemma ReadingMore(st: Storage, validate: Validator, ordered: seq<Candidate>, kept: seq<Summary>, runs: seq<Summary>,
                    i: nat)
    requires i < |ordered| && Reading(st, validate, ordered, kept, runs, i) && Sorted(ordered, NewerCandidate)
    ensures var c := ordered[i];
      && (c.id in Ids(runs) || !Good(st, c, validate) ==> Reading(st, validate, ordered, kept, runs, i + 1))
      && (c.id !in Ids(runs) && Good(st, c, validate) ==>
            Reading(st, validate, ordered, kept, runs + [SummaryOf(st, c, validate).value], i + 1))
  {
    if ordered[i].id !in Ids(runs) && Good(st, ordered[i], validate) {
      ReadingAdds(st, validate, ordered, kept, runs, i);
    } else {
      forall r | |kept| <= r < |runs| ensures NewerFrom(st, validate, ordered, runs[r], i + 1) {
        NewerFromLater(st, validate, ordered, runs[r], i);
      }
    }
  }

  lemma ReadingAdds(st: Storage, validate: Validator, ordered: seq<Candidate>, kept: seq<Summary>, runs: seq<Summary>,
                    i: nat)
    requires i < |ordered| && Reading(st, validate, ordered, kept, runs, i) && Sorted(ordered, NewerCandidate)
    requires ordered[i].id !in Ids(runs) && Good(st, ordered[i], validate)
    ensures Reading(st, validate, ordered, kept, runs + [SummaryOf(st, ordered[i], validate).value], i + 1)
  {
    var c := ordered[i];
    var run := SummaryOf(st, c, validate).value;
    AppendIds(runs, run);
    assert Offers(st, c, validate, run);
    OneMoreOffered(st, validate, ordered, runs, |kept|, run);
    NewestSoFar(st, validate, ordered, runs, i, run);
    OneMoreNewer(st, validate, ordered, runs, |kept|, i, run);
  }

  lemma NewestSoFar(st: Storage, validate: Validator, ordered: seq<Candidate>, runs: seq<Summary>, i: nat, run: Summary)
    requires i < |ordered| && Sorted(ordered, NewerCandidate) && ordered[i].id !in Ids(runs)
    requires StampOf(run) == StampOfCandidate(ordered[i]) && GoodAreIn(st, validate, ordered, i, Ids(runs))
    ensures NewerFrom(st, validate, ordered, run, i + 1)
  {
    forall k | 0 <= k < |ordered| && (i + 1 <= k || ordered[k].id == run.id) && Good(st, ordered[k], validate)
      ensures NotOlder(StampOf(run), StampOfCandidate(ordered[k]))
    {
      StampReflexive(StampOfCandidate(ordered[i]));
    }
  }

  /** Newer than every good candidate from `i` on or of its own id, and all earlier ones are listed. */
  lemma NewerThanRest(st: Storage, ordered: seq<Candidate>, validate: Validator, run: Summary, ids: set<string>, i: nat)
    requires i <= |ordered| && GoodAreIn(st, validate, ordered, i, ids)
    requires NewerFrom(st, validate, ordered, run, i)
    ensures NewerThanOmitted(st, ordered, validate, run, ids)
  {
    forall c | c in ordered && Good(st, c, validate) && (c.id !in ids || c.id == run.id)
      ensures NotOlder(StampOf(run), StampOfCandidate(c))
    {
      var k :| 0 <= k < |ordered| && ordered[k] == c;
    }
  }

  lemma StampReflexive(a: Stamp)
    ensures NotOlder(a, a)
  {
    LessEqTotal(a.id, a.id);
  }

  /** The first `limit` runs of the newest-first order. */
  function Newest(runs: seq<Summary>, limit: nat): seq<Summary> {
    var sorted := Sort(runs, NewerRun);
    if |sorted| <= limit then sorted else sorted[..limit]
  }

  /** Latest time first, and the larger id first among equal times. */
  ghost predicate NewestFirstList(runs: seq<Summary>) {
    forall i, j :: 0 <= i < j < |runs| ==>
      runs[i].time >= runs[j].time && (runs[i].time == runs[j].time ==> LessEq(runs[j].id, runs[i].id))
  }

  /** `scanned` is what the fallback scan reached; a list cut short says so in `limited`. */
  ghost predicate ListContract(st: Storage, index: seq<Summary>, canon: Canonical, validate: Validator,
                               scanned: seq<Candidate>, list: RunList)
  {
    && |list.runs| <= MAX_RECENT_RUNS
    && DistinctIds(list.runs)
    && NewestFirstList(list.runs)
    && (forall run :: run in list.runs ==>
          (run in index && IndexVisible(st, run, canon))
            || OfferedAsNewest(st, index, validate, scanned, list.runs, run))
    && (!list.limited ==>
          && (forall c :: c in scanned && Good(st, c, validate) ==> c.id in Ids(list.runs))
          && (forall i :: 0 <= i < |index| && i < MAX_RECENT_RUNS && IndexVisible(st, index[i], canon) ==>
               index[i].id in Ids(list.runs)))
  }

  /** `run` came from the scan, and no scanned run left out is newer, index entries aside. */
  ghost predicate OfferedAsNewest(st: Storage, index: seq<Summary>, validate: Validator,
                                  scanned: seq<Candidate>, runs: seq<Summary>, run: Summary)
  {
    && OfferedBy(st, scanned, validate, run)
    && forall c :: c in scanned && Good(st, c, validate) && c.id !in Ids(runs) && c.id !in Ids(index)
         ==> run.time >= c.time && (run.time == c.time ==> LessEq(c.id, run.id))
  }

  method ListSavedRuns(st: Storage, index: seq<Summary>, canon: Canonical, validate: Validator,
                       candidateLimit: nat, directoryLimit: nat)
    returns (list: RunList, ghost scanned: seq<Candidate>, ghost visited: nat, ghost receiptReads: nat,
             ghost markerReads: nat)
    ensures |list.runs| <= 12 && DistinctIds(list.runs) && NewestFirstList(list.runs)
    ensures forall run :: run in list.runs ==>
      (run in index && IndexVisible(st, run, canon)) || OfferedBy(st, AllCandidates(st, canon), validate, run)
    ensures !list.limited ==> forall c :: c in AllCandidates(st, canon) && Good(st, c, validate) ==>
      c.id in Ids(list.runs)
    ensures scanned <= AllCandidates(st, canon)
    ensures !list.limited ==> scanned == AllCandidates(st, canon)
    ensures ListContract(st, index, canon, validate, scanned, list)
    ensures visited <= directoryLimit && |scanned| <= candidateLimit && receiptReads <= 12 && markerReads <= 128
    ensures list.limited ==>
      || |list.runs| == 12 || visited == directoryLimit || |scanned| == candidateLimit
      || receiptReads == 12 || markerReads == 128
  {
    visited, receiptReads, markerReads := 0, 0, 0;
    var kept := KeepIndexed(st, index, canon);
    if |kept| == MAX_RECENT_RUNS {
      NewestKeeps(kept, MAX_RECENT_RUNS);
      return RunList(Newest(kept, MAX_RECENT_RUNS), true), [], 0, 0, 0;
    }
    var candidates, scanTruncated, v := GatherCandidates(st, canon, candidateLimit, directoryLimit);
    scanned, visited := candidates, v;
    var ordered := Sort(candidates, NewerCandidate);
    SortedCandidates(candidates);
    SameElements(ordered, candidates);
    var runs, readTruncated, rr, mr := ReadCandidates(st, validate, ordered, kept);
    receiptReads, markerReads := rr, mr;
    list := RunList(Newest(runs, MAX_RECENT_RUNS), scanTruncated || readTruncated || |runs| > MAX_RECENT_RUNS);
    NewestKeeps(runs, MAX_RECENT_RUNS);
    assert Ids(kept) <= Ids(runs);
    OfferedBySome(st, canon, validate, scanned);
    forall run | run in list.runs
      ensures (run in index && IndexVisible(st, run, canon))
        || OfferedAsNewest(st, index, validate, scanned, list.runs, run)
    {
      ListedIsNewest(st, index, canon, validate, ordered, kept, runs, run);
      if run !in kept {
        OfferedAlike(st, index, validate, ordered, scanned, list.runs, run);
      }
    }
  }

  /** The order of the candidates does not matter to an offer. */
  lemma OfferedAlike(st: Storage, index: seq<Summary>, validate: Validator, ordered: seq<Candidate>,
                     scanned: seq<Candidate>, runs: seq<Summary>, run: Summary)
    requires OfferedAsNewest(st, index, validate, ordered, runs, run) && forall c :: c in ordered <==> c in scanned
    ensures OfferedAsNewest(st, index, validate, scanned, runs, run)
  {
    var c :| c in ordered && Offers(st, c, validate, run);
    assert c in scanned;
  }

  lemma OfferedBySome(st: Storage, canon: Canonical, validate: Validator, scanned: seq<Candidate>)
    requires scanned <= AllCandidates(st, canon)
    ensures forall run :: OfferedBy(st, scanned, validate, run) ==>
      OfferedBy(st, AllCandidates(st, canon), validate, run)
  {
    assert forall c :: c in scanned ==> c in AllCandidates(st, canon);
  }

  /** A run that was cut off stands between a listed one and the candidate it came from. */
  lemma DroppedIsOlder(st: Storage, ordered: seq<Candidate>, validate: Validator, run: Summary, dropped: Summary,
                       ids: set<string>, c: Candidate)
    requires run.time >= dropped.time && (run.time == dropped.time ==> LessEq(dropped.id, run.id))
    requires NewerThanOmitted(st, ordered, validate, dropped, ids)
    requires c in ordered && Good(st, c, validate) && c.id == dropped.id
    ensures run.time >= c.time && (run.time == c.time ==> LessEq(c.id, run.id))
  {
    assert NotOlder(StampOf(run), StampOf(dropped)) && NotOlder(StampOf(dropped), StampOfCandidate(c));
    NotOlderTransitive(StampOf(run), StampOf(dropped), StampOfCandidate(c));
  }

  lemma ListedIsNewest(st: Storage, index: seq<Summary>, canon: Canonical, validate: Validator,
                       ordered: seq<Candidate>, kept: seq<Summary>, runs: seq<Summary>, run: Summary)
    requires DistinctIds(runs) && kept <= runs
    requires forall k :: k in kept ==> k in index && IndexVisible(st, k, canon)
    requires forall i :: |kept| <= i < |runs| ==>
      OfferedBy(st, ordered, validate, runs[i]) && NewerThanOmitted(st, ordered, validate, runs[i], Ids(runs))
    requires run in Newest(runs, MAX_RECENT_RUNS)
    ensures run in kept || OfferedAsNewest(st, index, validate, ordered, Newest(runs, MAX_RECENT_RUNS), run)
  {
    NewestKeeps(runs, MAX_RECENT_RUNS);
    var listed := Newest(runs, MAX_RECENT_RUNS);
    if run !in kept {
      var i :| 0 <= i < |runs| && runs[i] == run;
      forall c | c in ordered && Good(st, c, validate) && c.id !in Ids(listed) && c.id !in Ids(index)
        ensures run.time >= c.time && (run.time == c.time ==> LessEq(c.id, run.id))
      {
        if c.id in Ids(runs) {
          var g :| g in runs && g.id == c.id;
          var m :| 0 <= m < |runs| && runs[m] == g;
          assert g !in kept && g !in listed;
          DroppedIsOlder(st, ordered, validate, run, g, Ids(runs), c);
        } else {
          assert NotOlder(StampOf(run), StampOfCandidate(c));
        }
      }
    }
  }

  /** Sorting and cutting keeps ids distinct, loses nothing that fits, and what it drops is no newer
      than what it keeps. */
  lemma NewestKeeps(runs: seq<Summary>, limit: nat)
    requires DistinctIds(runs)
    ensures var kept := Newest(runs, limit);
      && |kept| == Min(|runs|, limit) && DistinctIds(kept) && NewestFirstList(kept)
      && (forall run :: run in kept ==> run in runs)
      && (|runs| <= limit ==> Ids(kept) == Ids(runs))
      && (forall run, other :: run in kept && other in runs && other !in kept ==>
           run.time >= other.time && (run.time == other.time ==> LessEq(other.id, run.id)))
  {
    var sorted, kept := Sort(runs, NewerRun), Newest(runs, limit);
    assert kept == sorted[..|kept|];
    SortedRuns(runs);
    SameElements(sorted, runs);
    DistinctIdsPermute(runs, sorted);
    CutIsNewest(sorted, |kept|);
    if |runs| <= limit {
      assert kept == sorted;
    }
  }

  /** The front of a sorted list, as far as `n`. */
  lemma CutIsNewest(sorted: seq<Summary>, n: nat)
    requires Sorted(sorted, NewerRun) && DistinctIds(sorted) && n <= |sorted|
    ensures var kept := sorted[..n];
      && DistinctIds(kept) && NewestFirstList(kept) && (forall run :: run in kept ==> run in sorted)
      && (forall run, other :: run in kept && other in sorted && other !in kept ==>
           run.time >= other.time && (run.time == other.time ==> LessEq(other.id, run.id)))
  {
    var kept := sorted[..n];
    forall i, j | 0 <= i < n && i < j < |sorted|
      ensures sorted[i].time >= sorted[j].time
           && (sorted[i].time == sorted[j].time ==> LessEq(sorted[j].id, sorted[i].id))
    {
      assert NewerRun(sorted[i], sorted[j]);
    }
    forall j | 0 <= j < n ensures sorted[j] in kept {
      assert kept[j] == sorted[j];
    }
    forall run, other | run in kept && other in sorted && other !in kept
      ensures run.time >= other.time && (run.time == other.time ==> LessEq(other.id, run.id))
    {
      var i :| 0 <= i < n && sorted[i] == run;
      var j :| 0 <= j < |sorted| && sorted[j] == other;
    }
  }

  lemma DistinctIdsPermute(s: seq<Summary>, t: seq<Summary>)
    requires DistinctIds(s) && multiset(s) == multiset(t)
    ensures DistinctIds(t)
  {
    SameElements(s, t);
    DistinctPermute(s, t);
    forall i, j | 0 <= i < j < |t| ensures t[i].id != t[j].id {
      assert t[i] in s && t[j] in s;
    }
  }

  // ----- listing and reopening agree -----

  /** The snapshot is coherent: what a root lists is evidence there. */
  ghost predicate Coherent(st: Storage) {
    forall root, e :: root in st.entries && e in st.entries[root] ==>
      && (e.RunDirectory? ==> Folder in FilesAt(st, root, e.raw))
      && (e.Marker? ==> AttemptFile in FilesAt(st, root, e.raw))
  }

  lemma {:induction false} CandidateHasEntry(root: string, entries: seq<Entry>, canon: Canonical, c: Candidate)
    requires c in CandidatesIn(root, entries, canon)
    ensures exists e :: e in entries && CandidateOf(root, e, canon) == Some(c)
  {
    var last := entries[|entries| - 1];
    if CandidateOf(root, last, canon) != Some(c) {
      CandidateHasEntry(root, entries[..|entries| - 1], canon, c);
    }
  }

  lemma CandidateSource(st: Storage, canon: Canonical, c: Candidate)
    requires Coherent(st) && c in AllCandidates(st, canon)
    ensures c.root == st.legacy || c.root == st.chosen
    ensures canon(c.raw) == Some(c.id)
    ensures HasEvidence(FilesAt(st, c.root, c.raw))
  {
    var chosen := CandidatesIn(st.chosen, EntriesAt(st, st.chosen), canon);
    var root := if c in chosen then st.chosen else st.legacy;
    CandidateHasEntry(root, EntriesAt(st, root), canon, c);
    var e :| e in EntriesAt(st, root) && CandidateOf(root, e, canon) == Some(c);
    assert root in st.entries && e in st.entries[root];
  }

  // ----- what the parts of the list are -----

  /** The candidate a directory entry makes: a small marker or receipt file under a name that parses. */
  ghost predicate Makes(root: string, e: Entry, canon: Canonical, c: Candidate) {
    && c.root == root && canon(c.raw) == Some(c.id)
    && e == if c.isReceipt then RunDirectory(c.raw, Some((c.time, true))) else Marker(c.raw, c.time, true)
  }

  lemma CandidateMade(root: string, e: Entry, canon: Canonical, c: Candidate)
    ensures CandidateOf(root, e, canon) == Some(c) <==> Makes(root, e, canon, c)
  {
  }

  lemma {:induction false} CandidatesMade(root: string, entries: seq<Entry>, canon: Canonical, c: Candidate)
    ensures c in CandidatesIn(root, entries, canon) <==> exists e :: e in entries && Makes(root, e, canon, c)
    ensures |CandidatesIn(root, entries, canon)| <= |entries|
  {
    if entries != [] {
      var init, last := entries[..|entries| - 1], entries[|entries| - 1];
      CandidatesMade(root, init, canon, c);
      CandidateMade(root, last, canon, c);
      assert entries == init + [last];
    }
  }

  /** The candidates are those of both roots, and a shared root counts once. */
  lemma CandidatesExactly(st: Storage, canon: Canonical, c: Candidate)
    ensures c in AllCandidates(st, canon) <==>
      exists root, e :: root in {st.chosen, st.legacy} && e in EntriesAt(st, root) && Makes(root, e, canon, c)
    ensures |AllCandidates(st, canon)|
         <= |EntriesAt(st, st.chosen)| + if st.legacy == st.chosen then 0 else |EntriesAt(st, st.legacy)|
  {
    CandidatesMade(st.chosen, EntriesAt(st, st.chosen), canon, c);
    CandidatesMade(st.legacy, EntriesAt(st, st.legacy), canon, c);
  }

  /** What a candidate offers: the receipt in its own directory, or, where no receipt was saved, the attempt
      in the canonical one; read dead, not validated, and under its own id. */
  lemma OffersExactly(st: Storage, c: Candidate, validate: Validator, run: Summary)
    ensures SummaryOf(st, c, validate) == Some(run) <==>
      if c.isReceipt then
        var loaded := Load(FilesAt(st, c.root, c.raw), false, false, validate);
        loaded.Ok? && loaded.value.LoadedReceipt?
        && var r := loaded.value.receipt; r.id == c.id && run == Summary(r.id, r.goal, r.model, c.time)
      else
        var files := FilesAt(st, c.root, c.id);
        var loaded := Load(files, false, false, validate);
        EndFile !in files && InterruptionFile !in files && ReceiptFile !in files
        && loaded.Ok? && loaded.value.LoadedAttempt?
        && var a := loaded.value.attempt; a.id == c.id && run == Summary(a.id, a.goal, a.model, c.time)
  {
  }

  /** The roots that hold anything of a run. */
  ghost function RootsOf(st: Storage, id: string): set<string> {
    set root | root in {st.legacy, st.chosen} && HasEvidence(FilesAt(st, root, id))
  }

  /** A candidate is passed over exactly when another root holds its run as well, or instead, and wins. */
  lemma AdvertisedExactly(st: Storage, c: Candidate)
    requires c.root in {st.legacy, st.chosen}
    ensures Advertised(st, c) <==> c.root == st.legacy || st.legacy !in RootsOf(st, c.id)
  {
  }

  /** An index entry is listed exactly when its id is canonical and one root alone holds its run. */
  lemma IndexVisibleExactly(st: Storage, run: Summary, canon: Canonical)
    ensures IndexVisible(st, run, canon)
       <==> canon(run.id) == Some(run.id) && exists root :: RootsOf(st, run.id) == {root}
  {
    var roots := RootsOf(st, run.id);
    if IndexVisible(st, run, canon) {
      var root := if st.legacy in roots then st.legacy else st.chosen;
      assert roots == {root};
    }
    if root :| roots == {root} {
      assert root in roots && (st.legacy in roots ==> st.legacy == root) && (st.chosen in roots ==> st.chosen == root);
    }
  }

  /** A run is reopened from the legacy root where that holds it, else from the chosen one, with its review
      validated again, and only under the id asked for. */
  lemma ReopensExactly(st: Storage, id: string, live: bool, validate: Validator)
    ensures var root := if st.legacy in RootsOf(st, id) then st.legacy else st.chosen;
      var loaded, saved := Load(FilesAt(st, root, id), live, true, validate), ReadSavedRun(st, id, live, validate);
      if loaded.Ok? && id == (if loaded.value.LoadedReceipt? then loaded.value.receipt.id else loaded.value.attempt.id)
      then saved == loaded else saved.Err?
  {
  }

  /** What the list offers is read from the very directory reopening picks, exactly when
      a directory name is already in canonical form. */
  lemma OfferedDirectory(st: Storage, canon: Canonical, c: Candidate, validate: Validator)
    requires Coherent(st) && c in AllCandidates(st, canon) && Good(st, c, validate)
    ensures ReadDirectory(c) == (SavedRoot(st, c.id), c.id) <==> (c.isReceipt ==> c.raw == c.id)
  {
    CandidateSource(st, canon, c);
  }

  /** Then reopening succeeds and shows the goal and model the list advertised. */
  lemma OfferedReopens(st: Storage, canon: Canonical, c: Candidate, validate: Validator, run: Summary)
    requires Coherent(st) && c in AllCandidates(st, canon) && Offers(st, c, validate, run)
    requires c.isReceipt ==> c.raw == c.id
    ensures var saved := ReadSavedRun(st, run.id, false, validate);
      saved.Ok? && SummaryOfLoaded(saved.value, run.time) == run
  {
    OfferedDirectory(st, canon, c, validate);
  }

  /** An index entry whose directory holds what an admitted run left: its root is the only one with
      evidence, and reopening shows the entry exactly when the admission marker bears its names. */
  lemma IndexEntryReopensExactly(st: Storage, canon: Canonical, run: Summary, events: seq<RunLifecycle.Event>,
                                 admitted: RunLifecycle.Run, live: bool, validate: Validator)
    requires IndexVisible(st, run, canon) && RunLifecycle.Reaches(events, admitted)
    requires FilesAt(st, SavedRoot(st, run.id), run.id) == admitted.files
    ensures st.legacy != st.chosen ==>
      !HasEvidence(FilesAt(st, if SavedRoot(st, run.id) == st.legacy then st.chosen else st.legacy, run.id))
    ensures var saved := ReadSavedRun(st, run.id, live, validate);
      (saved.Ok? && SummaryOfLoaded(saved.value, run.time) == run)
      <==> RunLifecycle.Marked(admitted.files, run.id, run.goal, run.model)
  {
    RunLifecycle.AdmittedRunReadsBack(events, admitted, live, true, validate);
  }

  /** A directory whose name only parses to an id can be offered and then fail to reopen. */
  lemma UncanonicalDirectoryMisleads(a: string, id: string, r: Receipt, canon: Canonical, validate: Validator)
    requires a != id && canon(a) == Some(id) && canon(id) == Some(id)
    requires r.id == id && r.state == "run_failed" && r.selected.None?
    ensures exists st, c ::
      Coherent(st) && c in AllCandidates(st, canon) && Good(st, c, validate)
        && ReadSavedRun(st, c.id, false, validate).Err?
  {
    var files: Files := map[Folder := Opaque, EndFile := ReceiptDoc(r)];
    var entry, c := RunDirectory(a, Some((0, true))), Candidate(0, id, "new", a, true);
    var st := OneDirectoryStorage(a, files, entry);
    OneDirectory(st, c, entry, canon);
    FailedRunReads(files, r, validate);
  }

  /** One run directory in the chosen root, and nothing else anywhere. */
  function OneDirectoryStorage(raw: string, files: Files, entry: Entry): (st: Storage)
    requires Folder in files && entry.RunDirectory? && entry.raw == raw
    ensures Coherent(st) && st.legacy != st.chosen && st.entries == map[st.chosen := [entry]]
    ensures st.chosen == "new" && st.runs.Keys == {("new", raw)} && FilesAt(st, "new", raw) == files
  {
    assert "old"[0] != "new"[0];
    Storage("old", "new", map[("new", raw) := files], map["new" := [entry]])
  }

  lemma FailedRunReads(files: Files, r: Receipt, validate: Validator)
    requires files == map[Folder := Opaque, EndFile := ReceiptDoc(r)] && r.state == "run_failed" && r.selected.None?
    ensures Load(files, false, false, validate) == Ok(LoadedReceipt(r))
  {
    RunLifecycle.StatesDiffer();
  }

  /** A storage with one directory in the chosen root has one candidate, and nothing elsewhere. */
  lemma OneDirectory(st: Storage, c: Candidate, entry: Entry, canon: Canonical)
    requires st.legacy != st.chosen && st.runs.Keys == {(st.chosen, c.raw)} && st.entries == map[st.chosen := [entry]]
    requires CandidateOf(st.chosen, entry, canon) == Some(c) && c.raw != c.id
    ensures c in AllCandidates(st, canon)
    ensures FilesAt(st, st.legacy, c.id) == map[] && FilesAt(st, st.chosen, c.id) == map[]
  {
    assert EntriesAt(st, st.chosen) == [] + [entry] && [entry][..0] == [];
    assert CandidatesIn(st.chosen, [entry], canon) == [c];
    var rest := CandidatesIn(st.legacy, EntriesAt(st, st.legacy), canon);
    assert ([c] + rest)[0] == c;
  }
}
