// Two ways to group one stream of hunks by file: the sorted map of
// `phonton diff`, and the first-seen list of the TUI.

module HunkGrouping {
  import opened Text
  import opened DiffModel
  import opened StringOrder
  import UnifiedDiff
  import DiffRoundTrip

  /** Only review-ready events carry hunks to either view. */
  datatype EventRecord = ReviewReady(hunks: seq<Hunk>) | OtherEvent

  /** The hunks of all review-ready events, in order. */
  function Stream(events: seq<EventRecord>): seq<Hunk> {
    if events == [] then []
    else
      var last := events[|events| - 1];
      Stream(events[..|events| - 1]) + if last.ReviewReady? then last.hunks else []
  }

  // ----- the sorted map -----

  function Keys(stream: seq<Hunk>): set<string> {
    set h | h in stream :: Normalize(h.path)
  }

  /** The hunks whose normalized path is `key`, in order. */
  function HunksAt(stream: seq<Hunk>, key: string): seq<Hunk> {
    if stream == [] then []
    else
      var last := stream[|stream| - 1];
      HunksAt(stream[..|stream| - 1], key) + if Normalize(last.path) == key then [last] else []
  }

  function ReportFile(stream: seq<Hunk>, key: string): UnifiedDiff.FileReport {
    var hunks := HunksAt(stream, key);
    UnifiedDiff.FileReport(key, AddedIn(LinesOf(hunks)), RemovedIn(LinesOf(hunks)), hunks)
  }

  function ReportFiles(stream: seq<Hunk>, keys: seq<string>): seq<UnifiedDiff.FileReport> {
    if keys == [] then [] else ReportFiles(stream, keys[..|keys| - 1]) + [ReportFile(stream, keys[|keys| - 1])]
  }

  ghost predicate Grouped(grouped: map<string, seq<Hunk>>, stream: seq<Hunk>) {
    grouped.Keys == Keys(stream) && forall key :: key in grouped ==> grouped[key] == HunksAt(stream, key)
  }

  /** `entry(key).or_default().push(hunk)` */
  function Push(grouped: map<string, seq<Hunk>>, h: Hunk): map<string, seq<Hunk>> {
    var key := Normalize(h.path);
    grouped[key := (if key in grouped then grouped[key] else []) + [h]]
  }

  lemma PushGroups(grouped: map<string, seq<Hunk>>, stream: seq<Hunk>, h: Hunk)
    requires Grouped(grouped, stream)
    ensures Grouped(Push(grouped, h), stream + [h])
  {
    AddOne(stream, h);
    NoHunksAt(stream, Normalize(h.path));
  }

  method GroupSorted(events: seq<EventRecord>) returns (grouped: map<string, seq<Hunk>>)
    ensures Grouped(grouped, Stream(events))
  {
    grouped := map[];
    for i := 0 to |events|
      invariant Grouped(grouped, Stream(events[..i]))
    {
      assert events[..i + 1][..i] == events[..i];
      if events[i].ReviewReady? {
        grouped := PushAll(grouped, events[i].hunks, Stream(events[..i]));
      } else {
        assert Stream(events[..i]) + [] == Stream(events[..i]);
      }
    }
    assert events[..|events|] == events;
  }

  method PushAll(before: map<string, seq<Hunk>>, hunks: seq<Hunk>, ghost stream: seq<Hunk>)
    returns (grouped: map<string, seq<Hunk>>)
    requires Grouped(before, stream)
    ensures Grouped(grouped, stream + hunks)
  {
    grouped := before;
    assert stream + hunks[..0] == stream;
    for j := 0 to |hunks|
      invariant Grouped(grouped, stream + hunks[..j])
    {
      PushGroups(grouped, stream + hunks[..j], hunks[j]);
      assert stream + hunks[..j + 1] == (stream + hunks[..j]) + [hunks[j]];
      grouped := Push(grouped, hunks[j]);
    }
    assert hunks[..|hunks|] == hunks;
  }

  lemma AddOne(stream: seq<Hunk>, h: Hunk)
    ensures Keys(stream + [h]) == Keys(stream) + {Normalize(h.path)}
    ensures forall key ::
      HunksAt(stream + [h], key) == HunksAt(stream, key) + if Normalize(h.path) == key then [h] else []
  {
    assert (stream + [h])[..|stream|] == stream;
    assert (stream + [h])[|stream|] == h;
    forall key | key in Keys(stream) ensures key in Keys(stream + [h]) {
      var g :| g in stream && Normalize(g.path) == key;
      assert g in stream + [h];
    }
  }

  /** A file's hunks stand in the order of the stream. */
  lemma {:induction false} HunksAtInOrder(before: seq<Hunk>, h: Hunk, after: seq<Hunk>, key: string)
    ensures HunksAt(before + [h] + after, key)
         == HunksAt(before, key) + (if Normalize(h.path) == key then [h] else []) + HunksAt(after, key)
  {
    if after == [] {
      assert before + [h] + after == before + [h];
      AddOne(before, h);
    } else {
      var init, last := after[..|after| - 1], after[|after| - 1];
      var stream := before + [h] + init;
      assert before + [h] + after == stream + [last] && after == init + [last];
      AddOne(stream, last);
      AddOne(init, last);
      HunksAtInOrder(before, h, init, key);
    }
  }

  /** The stream holds the hunks of each ready review in turn. */
  lemma {:induction false} StreamInOrder(before: seq<EventRecord>, hunks: seq<Hunk>, after: seq<EventRecord>)
    ensures Stream(before + [ReviewReady(hunks)] + after) == Stream(before) + hunks + Stream(after)
    ensures Stream(before + [OtherEvent] + after) == Stream(before) + Stream(after)
  {
    var ready, other := before + [ReviewReady(hunks)] + after, before + [OtherEvent] + after;
    if after == [] {
      assert ready[..|ready| - 1] == before && other[..|other| - 1] == before;
    } else {
      var init, last := after[..|after| - 1], after[|after| - 1];
      assert ready[..|ready| - 1] == before + [ReviewReady(hunks)] + init;
      assert other[..|other| - 1] == before + [OtherEvent] + init;
      StreamInOrder(before, hunks, init);
      var more := if last.ReviewReady? then last.hunks else [];
      assert Stream(before) + hunks + Stream(init) + more == Stream(before) + hunks + (Stream(init) + more);
      assert Stream(before) + Stream(init) + more == Stream(before) + (Stream(init) + more);
    }
  }

  lemma {:induction false} NoHunksAt(stream: seq<Hunk>, key: string)
    ensures HunksAt(stream, key) == [] <==> key !in Keys(stream)
    ensures forall h :: h in HunksAt(stream, key) <==> h in stream && Normalize(h.path) == key
  {
    if stream != [] {
      var init, last := stream[..|stream| - 1], stream[|stream| - 1];
      NoHunksAt(init, key);
      assert stream == init + [last];
      AddOne(init, last);
    }
  }

  /** The `map` over the sorted entries, which also adds up the totals. */
  method BuildFiles(grouped: map<string, seq<Hunk>>, keys: seq<string>, ghost stream: seq<Hunk>)
    returns (files: seq<UnifiedDiff.FileReport>, totalAdded: nat, totalRemoved: nat)
    requires Grouped(grouped, stream) && forall key :: key in keys ==> key in grouped
    ensures files == ReportFiles(stream, keys)
    ensures totalAdded == AddedOver(stream, keys) && totalRemoved == RemovedOver(stream, keys)
  {
    files, totalAdded, totalRemoved := [], 0, 0;
    for i := 0 to |keys|
      invariant files == ReportFiles(stream, keys[..i])
      invariant totalAdded == AddedOver(stream, keys[..i]) && totalRemoved == RemovedOver(stream, keys[..i])
    {
      assert keys[..i + 1][..i] == keys[..i];
      assert keys[i] in keys;
      var hunks := grouped[keys[i]];
      var added, removed := CountHunks(hunks);
      totalAdded, totalRemoved := totalAdded + added, totalRemoved + removed;
      files := files + [UnifiedDiff.FileReport(keys[i], added, removed, hunks)];
    }
    assert keys[..|keys|] == keys;
  }

  /** `build_diff_report`: the files in key order with their counts, and the totals. */
  method BuildDiffReport(taskId: LineText, goal: string, events: seq<EventRecord>) returns (r: UnifiedDiff.Report)
    ensures r.taskId == taskId && r.goal == goal
    ensures r.files == ReportFiles(Stream(events), SortedKeys(Keys(Stream(events))))
    ensures r.totalAdded == AddedIn(LinesOf(Stream(events))) && r.totalRemoved == RemovedIn(LinesOf(Stream(events)))
    ensures DiffRoundTrip.Accurate(r.files)
  {
    var grouped := GroupSorted(events);
    var keys := SortedKeys(grouped.Keys);
    SortedKeysAscend(grouped.Keys);
    var files, totalAdded, totalRemoved := BuildFiles(grouped, keys, Stream(events));
    GroupsPartition(Stream(events), keys);
    ReportFilesAccurate(Stream(events), keys);
    r := UnifiedDiff.Report(taskId, goal, totalAdded, totalRemoved, files);
  }

  lemma {:induction false} ReportFilesAccurate(stream: seq<Hunk>, keys: seq<string>)
    ensures DiffRoundTrip.Accurate(ReportFiles(stream, keys))
  {
    if keys != [] {
      ReportFilesAccurate(stream, keys[..|keys| - 1]);
    }
  }

  // ----- no hunk lost or counted twice -----

  function AddedOver(stream: seq<Hunk>, keys: seq<string>): nat {
    if keys == [] then 0
    else AddedOver(stream, keys[..|keys| - 1]) + AddedIn(LinesOf(HunksAt(stream, keys[|keys| - 1])))
  }

  function RemovedOver(stream: seq<Hunk>, keys: seq<string>): nat {
    if keys == [] then 0
    else RemovedOver(stream, keys[..|keys| - 1]) + RemovedIn(LinesOf(HunksAt(stream, keys[|keys| - 1])))
  }

  /** The groups one after another. */
  function GroupsOf(stream: seq<Hunk>, keys: seq<string>): seq<Hunk> {
    if keys == [] then [] else GroupsOf(stream, keys[..|keys| - 1]) + HunksAt(stream, keys[|keys| - 1])
  }

  /** One more hunk joins exactly the group of its own key. */
  lemma {:induction false} GroupsOfOneMore(stream: seq<Hunk>, h: Hunk, keys: seq<string>)
    requires Ascending(keys)
    ensures multiset(GroupsOf(stream + [h], keys)) ==
      multiset(GroupsOf(stream, keys)) + if Normalize(h.path) in keys then multiset{h} else multiset{}
  {
    if keys != [] {
      var init, last := keys[..|keys| - 1], keys[|keys| - 1];
      GroupsOfOneMore(stream, h, init);
      OneMoreAt(stream, h, last);
      LastIsNew(keys);
      OneOfTwo(GroupsOf(stream, init), HunksAt(stream, last), GroupsOf(stream + [h], init), HunksAt(stream + [h], last),
               h, Normalize(h.path) in init, Normalize(h.path) == last);
    }
  }

  lemma OneMoreAt(stream: seq<Hunk>, h: Hunk, key: string)
    ensures multiset(HunksAt(stream + [h], key))
         == multiset(HunksAt(stream, key)) + if Normalize(h.path) == key then multiset{h} else multiset{}
  {
    AddOne(stream, h);
  }

  lemma LastIsNew(keys: seq<string>)
    requires Ascending(keys) && keys != []
    ensures keys[|keys| - 1] !in keys[..|keys| - 1] && Ascending(keys[..|keys| - 1])
    ensures forall k :: k in keys <==> k in keys[..|keys| - 1] || k == keys[|keys| - 1]
  {
    assert keys == keys[..|keys| - 1] + [keys[|keys| - 1]];
  }

  lemma OneOfTwo(a: seq<Hunk>, b: seq<Hunk>, a': seq<Hunk>, b': seq<Hunk>, h: Hunk, inA: bool, inB: bool)
    requires multiset(a') == multiset(a) + if inA then multiset{h} else multiset{}
    requires multiset(b') == multiset(b) + if inB then multiset{h} else multiset{}
    requires !(inA && inB)
    ensures multiset(a' + b') == multiset(a + b) + if inA || inB then multiset{h} else multiset{}
  {
  }

  lemma {:induction false} TotalsOfOneMore(stream: seq<Hunk>, h: Hunk, keys: seq<string>)
    requires Ascending(keys)
    ensures AddedOver(stream + [h], keys)
         == AddedOver(stream, keys) + if Normalize(h.path) in keys then AddedIn(h.lines) else 0
    ensures RemovedOver(stream + [h], keys)
         == RemovedOver(stream, keys) + if Normalize(h.path) in keys then RemovedIn(h.lines) else 0
  {
    if keys != [] {
      var init, last := keys[..|keys| - 1], keys[|keys| - 1];
      TotalsOfOneMore(stream, h, init);
      GroupOfOneMore(stream, h, last);
      assert keys == init + [last] && last !in init;
    }
  }

  lemma GroupOfOneMore(stream: seq<Hunk>, h: Hunk, key: string)
    ensures AddedIn(LinesOf(HunksAt(stream + [h], key)))
         == AddedIn(LinesOf(HunksAt(stream, key))) + if Normalize(h.path) == key then AddedIn(h.lines) else 0
    ensures RemovedIn(LinesOf(HunksAt(stream + [h], key)))
         == RemovedIn(LinesOf(HunksAt(stream, key))) + if Normalize(h.path) == key then RemovedIn(h.lines) else 0
  {
    AddOne(stream, h);
    CountsWithOneMore(HunksAt(stream, key), h);
    assert HunksAt(stream, key) + [] == HunksAt(stream, key);
  }

  lemma {:induction false} EmptyGroups(keys: seq<string>)
    ensures GroupsOf([], keys) == [] && AddedOver([], keys) == 0 && RemovedOver([], keys) == 0
  {
    if keys != [] {
      EmptyGroups(keys[..|keys| - 1]);
    }
  }

  ghost predicate Cover(keys: seq<string>, stream: seq<Hunk>) {
    forall h :: h in stream ==> Normalize(h.path) in keys
  }

  lemma {:induction false} GroupsKeepEveryHunk(stream: seq<Hunk>, keys: seq<string>)
    requires Ascending(keys) && Cover(keys, stream)
    ensures multiset(GroupsOf(stream, keys)) == multiset(stream)
  {
    if stream == [] {
      EmptyGroups(keys);
    } else {
      var init, last := stream[..|stream| - 1], stream[|stream| - 1];
      assert stream == init + [last];
      GroupsKeepEveryHunk(init, keys);
      GroupsOfOneMore(init, last, keys);
    }
  }

  lemma {:induction false} TotalsAreCounts(stream: seq<Hunk>, keys: seq<string>)
    requires Ascending(keys) && Cover(keys, stream)
    ensures AddedOver(stream, keys) == AddedIn(LinesOf(stream))
    ensures RemovedOver(stream, keys) == RemovedIn(LinesOf(stream))
  {
    if stream == [] {
      EmptyGroups(keys);
    } else {
      var init, last := stream[..|stream| - 1], stream[|stream| - 1];
      assert stream == init + [last];
      TotalsAreCounts(init, keys);
      TotalsOfOneMore(init, last, keys);
      CountsWithOneMore(init, last);
    }
  }

  /** Over keys covering the stream, the groups hold exactly its hunks, and the totals are its counts. */
  lemma GroupsPartition(stream: seq<Hunk>, keys: seq<string>)
    requires Ascending(keys) && Cover(keys, stream)
    ensures multiset(GroupsOf(stream, keys)) == multiset(stream)
    ensures AddedOver(stream, keys) == AddedIn(LinesOf(stream))
    ensures RemovedOver(stream, keys) == RemovedIn(LinesOf(stream))
  {
    GroupsKeepEveryHunk(stream, keys);
    TotalsAreCounts(stream, keys);
  }

  lemma {:induction false} ClaimedSums(stream: seq<Hunk>, keys: seq<string>)
    ensures var claimed := DiffRoundTrip.Claimed(ReportFiles(stream, keys));
      UnifiedDiff.StatsOf(claimed) == UnifiedDiff.Stats(|keys|, AddedOver(stream, keys), RemovedOver(stream, keys))
  {
    if keys != [] {
      ClaimedSums(stream, keys[..|keys| - 1]);
    }
  }

  /** For a report built from a stream and printed so that it reads back, the counter's statistics are
      the report's number of files and its totals. */
  lemma StatsAreTotals(r: UnifiedDiff.Report, stream: seq<Hunk>)
    requires r.files == ReportFiles(stream, SortedKeys(Keys(stream)))
    requires r.totalAdded == AddedIn(LinesOf(stream)) && r.totalRemoved == RemovedIn(LinesOf(stream))
    requires DiffRoundTrip.QuietGoal(r.goal) && DiffRoundTrip.CleanFiles(r.files)
    ensures UnifiedDiff.StatsOf(DiffRoundTrip.ReadReport(r))
         == UnifiedDiff.Stats(|r.files|, r.totalAdded, r.totalRemoved)
  {
    var keys := SortedKeys(Keys(stream));
    SortedKeysAscend(Keys(stream));
    ReportFilesAccurate(stream, keys);
    DiffRoundTrip.DiffReadsBack(r);
    ClaimedSums(stream, keys);
    GroupsPartition(stream, keys);
    ReportFilesAt(stream, keys);
  }

  // ----- the first-seen list -----

  function Split(path: string): (parts: seq<string>)
    ensures parts != []
  {
    if path == "" then [""]
    else
      var rest := Split(path[1..]);
      if path[0] == '/' then [""] + rest else [[path[0]] + rest[0]] + rest[1..]
  }

  function Meaningful(parts: seq<string>): seq<string> {
    if parts == [] then []
    else (if parts[0] == "" || parts[0] == "." then [] else [parts[0]]) + Meaningful(parts[1..])
  }

  /** `Path` equality compares these: rooted or not, then the components, where empty and
      `.` components are dropped, except `.` at the start. */
  function Components(path: string): (bool, seq<string>) {
    var parts := Split(path);
    (path != "" && path[0] == '/', (if parts[0] == "." then ["."] else []) + Meaningful(parts))
  }

  predicate SamePath(a: string, b: string) {
    Components(a) == Components(b)
  }

  /** What a path is compared by. */
  type PathKey = string -> (bool, seq<string>)

  type Group = (string, seq<Hunk>)

  /** The hunks whose path equals `path`, in order. */
  function HunksLike(key: PathKey, stream: seq<Hunk>, path: string): seq<Hunk> {
    if stream == [] then []
    else
      var last := stream[|stream| - 1];
      HunksLike(key, stream[..|stream| - 1], path) + if key(path) == key(last.path) then [last] else []
  }

  ghost predicate Knows(key: PathKey, names: seq<string>, path: string) {
    exists i :: 0 <= i < |names| && key(names[i]) == key(path)
  }

  /** The paths of the stream, each named as it was first spelled, in order of first appearance. */
  ghost function Firsts(key: PathKey, stream: seq<Hunk>): seq<string> {
    if stream == [] then []
    else
      var before, path := Firsts(key, stream[..|stream| - 1]), stream[|stream| - 1].path;
      if Knows(key, before, path) then before else before + [path]
  }

  /** One group per path in order of first appearance, holding that path's hunks in order. */
  ghost predicate FirstSeen(key: PathKey, groups: seq<Group>, stream: seq<Hunk>) {
    var firsts := Firsts(key, stream);
    |groups| == |firsts| && forall i :: 0 <= i < |groups| ==>
      groups[i] == (firsts[i], HunksLike(key, stream, firsts[i]))
  }

  lemma LikeOneMore(key: PathKey, stream: seq<Hunk>, h: Hunk, path: string)
    ensures var like := HunksLike(key, stream, path);
      HunksLike(key, stream + [h], path) == if key(path) == key(h.path) then like + [h] else like
  {
    assert (stream + [h])[..|stream|] == stream;
  }

  lemma FirstsOneMore(key: PathKey, stream: seq<Hunk>, h: Hunk)
    ensures var before := Firsts(key, stream);
      Firsts(key, stream + [h]) == if Knows(key, before, h.path) then before else before + [h.path]
  {
    assert (stream + [h])[..|stream|] == stream;
  }

  lemma KnowsMore(key: PathKey, names: seq<string>, name: string, path: string)
    requires Knows(key, names, path) || key(name) == key(path)
    ensures Knows(key, names + [name], path)
  {
    var more := names + [name];
    if Knows(key, names, path) {
      var i :| 0 <= i < |names| && key(names[i]) == key(path);
      assert more[i] == names[i];
    } else {
      assert more[|names|] == name;
    }
  }

  ghost predicate AllDiffer(key: PathKey, names: seq<string>) {
    forall i, j :: 0 <= i < j < |names| ==> key(names[i]) != key(names[j])
  }

  lemma OneMoreDiffers(key: PathKey, names: seq<string>, name: string)
    requires AllDiffer(key, names) && !Knows(key, names, name)
    ensures AllDiffer(key, names + [name])
  {
  }

  lemma {:induction false} FirstsDiffer(key: PathKey, stream: seq<Hunk>)
    ensures AllDiffer(key, Firsts(key, stream))
  {
    if stream != [] {
      var before, path := Firsts(key, stream[..|stream| - 1]), stream[|stream| - 1].path;
      FirstsDiffer(key, stream[..|stream| - 1]);
      if !Knows(key, before, path) {
        OneMoreDiffers(key, before, path);
      }
    }
  }

  lemma {:induction false} FirstsKnowAll(key: PathKey, stream: seq<Hunk>, h: Hunk)
    requires h in stream
    ensures Knows(key, Firsts(key, stream), h.path)
  {
    var init, last := stream[..|stream| - 1], stream[|stream| - 1];
    if h in init {
      FirstsKnowAll(key, init, h);
    }
    if !Knows(key, Firsts(key, init), last.path) {
      KnowsMore(key, Firsts(key, init), last.path, h.path);
    }
  }

  lemma {:induction false} FirstsComeFrom(key: PathKey, stream: seq<Hunk>, i: nat)
    requires i < |Firsts(key, stream)|
    ensures exists h :: h in stream && h.path == Firsts(key, stream)[i]
  {
    var init, last := stream[..|stream| - 1], stream[|stream| - 1];
    if i < |Firsts(key, init)| {
      FirstsComeFrom(key, init, i);
      var h :| h in init && h.path == Firsts(key, init)[i];
      assert h in stream;
    } else {
      assert last in stream;
    }
  }

  /** Where `iter_mut().find` stops. */
  method FindGroup(key: PathKey, groups: seq<Group>, path: string) returns (index: nat)
    ensures index <= |groups|
    ensures index < |groups| ==> key(groups[index].0) == key(path)
    ensures index == |groups| ==> forall k :: 0 <= k < |groups| ==> key(groups[k].0) != key(path)
  {
    index := 0;
    while index < |groups| && key(groups[index].0) != key(path)
      invariant index <= |groups|
      invariant forall k :: 0 <= k < index ==> key(groups[k].0) != key(path)
    {
      index := index + 1;
    }
  }

  method AddToGroups(key: PathKey, groups: seq<Group>, h: Hunk, ghost stream: seq<Hunk>) returns (after: seq<Group>)
    requires FirstSeen(key, groups, stream)
    ensures FirstSeen(key, after, stream + [h])
  {
    var index := FindGroup(key, groups, h.path);
    FirstsOneMore(key, stream, h);
    ghost var firsts := Firsts(key, stream);
    assert forall k :: 0 <= k < |groups| ==> groups[k].0 == firsts[k];
    if index < |groups| {
      after := groups[index := (groups[index].0, groups[index].1 + [h])];
      assert key(firsts[index]) == key(h.path) && Knows(key, firsts, h.path);
      FirstsDiffer(key, stream);
      forall k | 0 <= k < |after| ensures after[k] == (firsts[k], HunksLike(key, stream + [h], firsts[k])) {
        LikeOneMore(key, stream, h, firsts[k]);
      }
    } else {
      after := groups + [(h.path, [h])];
      forall k | 0 <= k < |firsts| ensures key(firsts[k]) != key(h.path) {
        assert groups[k].0 == firsts[k];
      }
      NothingLike(key, stream, h.path);
      LikeOneMore(key, stream, h, h.path);
      ghost var longer := firsts + [h.path];
      assert Firsts(key, stream + [h]) == longer && [] + [h] == [h];
      forall k | 0 <= k < |after| ensures after[k] == (longer[k], HunksLike(key, stream + [h], longer[k])) {
        LikeOneMore(key, stream, h, longer[k]);
      }
    }
  }

  lemma {:induction false} NothingLike(key: PathKey, stream: seq<Hunk>, path: string)
    requires !Knows(key, Firsts(key, stream), path)
    ensures HunksLike(key, stream, path) == []
  {
    if stream != [] {
      var init, last := stream[..|stream| - 1], stream[|stream| - 1];
      FirstsKnowAll(key, stream, last);
      if Knows(key, Firsts(key, init), path) && !Knows(key, Firsts(key, init), last.path) {
        KnowsMore(key, Firsts(key, init), last.path, path);
      }
      NothingLike(key, init, path);
    }
  }

  method DiffHunksByFile(events: seq<EventRecord>) returns (groups: seq<Group>)
    ensures FirstSeen(Components, groups, Stream(events))
  {
    groups := [];
    for i := 0 to |events|
      invariant FirstSeen(Components, groups, Stream(events[..i]))
    {
      assert events[..i + 1][..i] == events[..i];
      ghost var before := Stream(events[..i]);
      if events[i].ReviewReady? {
        var hunks := events[i].hunks;
        assert before + hunks[..0] == before;
        for j := 0 to |hunks|
          invariant FirstSeen(Components, groups, before + hunks[..j])
        {
          groups := AddToGroups(Components, groups, hunks[j], before + hunks[..j]);
          assert before + hunks[..j + 1] == (before + hunks[..j]) + [hunks[j]];
        }
        assert hunks[..|hunks|] == hunks;
      } else {
        assert before + [] == before;
      }
    }
    assert events[..|events|] == events;
  }

  // ----- no hunk lost or duplicated here either -----

  /** The hunks of all groups, one group after another. */
  function Shown(groups: seq<Group>): seq<Hunk> {
    if groups == [] then [] else Shown(groups[..|groups| - 1]) + groups[|groups| - 1].1
  }

  function AllLike(key: PathKey, stream: seq<Hunk>, names: seq<string>): seq<Hunk> {
    if names == [] then [] else AllLike(key, stream, names[..|names| - 1]) + HunksLike(key, stream, names[|names| - 1])
  }

  lemma NewNameDiffers(key: PathKey, names: seq<string>, path: string)
    requires AllDiffer(key, names) && names != []
    ensures var init, last := names[..|names| - 1], names[|names| - 1];
      && AllDiffer(key, init)
      && !(Knows(key, init, path) && key(last) == key(path))
      && (Knows(key, names, path) <==> Knows(key, init, path) || key(last) == key(path))
  {
    var init, last := names[..|names| - 1], names[|names| - 1];
    assert names == init + [last];
    if Knows(key, init, path) || key(last) == key(path) {
      KnowsMore(key, init, last, path);
    }
    if Knows(key, names, path) && key(last) != key(path) {
      var i :| 0 <= i < |names| && key(names[i]) == key(path);
      assert init[i] == names[i];
    }
  }

  lemma LikeGains(key: PathKey, stream: seq<Hunk>, h: Hunk, path: string)
    ensures multiset(HunksLike(key, stream + [h], path))
         == multiset(HunksLike(key, stream, path)) + if key(path) == key(h.path) then multiset{h} else multiset{}
  {
    LikeOneMore(key, stream, h, path);
  }

  lemma {:induction false} AllLikeOneMore(key: PathKey, stream: seq<Hunk>, h: Hunk, names: seq<string>)
    requires AllDiffer(key, names)
    ensures multiset(AllLike(key, stream + [h], names))
         == multiset(AllLike(key, stream, names)) + if Knows(key, names, h.path) then multiset{h} else multiset{}
  {
    if names != [] {
      var init, last := names[..|names| - 1], names[|names| - 1];
      NewNameDiffers(key, names, h.path);
      AllLikeOneMore(key, stream, h, init);
      LikeGains(key, stream, h, last);
      OneOfTwo(AllLike(key, stream, init), HunksLike(key, stream, last),
               AllLike(key, stream + [h], init), HunksLike(key, stream + [h], last),
               h, Knows(key, init, h.path), key(last) == key(h.path));
    }
  }

  lemma {:induction false} NothingToShow(key: PathKey, names: seq<string>)
    ensures AllLike(key, [], names) == []
  {
    if names != [] {
      NothingToShow(key, names[..|names| - 1]);
    }
  }

  lemma {:induction false} AllLikeIsStream(key: PathKey, stream: seq<Hunk>, names: seq<string>)
    requires AllDiffer(key, names) && forall h :: h in stream ==> Knows(key, names, h.path)
    ensures multiset(AllLike(key, stream, names)) == multiset(stream)
  {
    if stream == [] {
      NothingToShow(key, names);
    } else {
      var init, last := stream[..|stream| - 1], stream[|stream| - 1];
      assert stream == init + [last];
      AllLikeIsStream(key, init, names);
      AllLikeOneMore(key, init, last, names);
    }
  }

  lemma {:induction false} ShownIs(key: PathKey, stream: seq<Hunk>, groups: seq<Group>, names: seq<string>)
    requires |groups| == |names| && forall i :: 0 <= i < |groups| ==> groups[i].1 == HunksLike(key, stream, names[i])
    ensures Shown(groups) == AllLike(key, stream, names)
  {
    if names != [] {
      ShownIs(key, stream, groups[..|groups| - 1], names[..|names| - 1]);
    }
  }

  /** The first-seen list shows exactly the stream's hunks, whatever the paths are compared by. */
  lemma FirstSeenKeepsEveryHunk(key: PathKey, groups: seq<Group>, stream: seq<Hunk>)
    requires FirstSeen(key, groups, stream)
    ensures multiset(Shown(groups)) == multiset(stream)
    ensures AddedIn(LinesOf(Shown(groups))) == AddedIn(LinesOf(stream))
    ensures RemovedIn(LinesOf(Shown(groups))) == RemovedIn(LinesOf(stream))
  {
    var firsts := Firsts(key, stream);
    FirstsDiffer(key, stream);
    forall h | h in stream ensures Knows(key, firsts, h.path) {
      FirstsKnowAll(key, stream, h);
    }
    AllLikeIsStream(key, stream, firsts);
    ShownIs(key, stream, groups, firsts);
    CountsOfSame(Shown(groups), stream);
  }

  /** The totals do not depend on the order of the hunks. */
  lemma {:induction false} CountsOfSame(a: seq<Hunk>, b: seq<Hunk>)
    requires multiset(a) == multiset(b)
    ensures AddedIn(LinesOf(a)) == AddedIn(LinesOf(b)) && RemovedIn(LinesOf(a)) == RemovedIn(LinesOf(b))
    decreases |a|
  {
    if a == [] {
      assert |multiset(b)| == |b|;
    } else {
      var init, last := a[..|a| - 1], a[|a| - 1];
      assert a == init + [last] && last in multiset(b);
      var i :| 0 <= i < |b| && b[i] == last;
      var before, after := b[..i], b[i + 1..];
      assert b == before + [last] + after;
      WithoutOne(init, last, before, after);
      CountsOfSame(init, before + after);
      CountsWithOneMore(init, last);
      CountsOfParts(before, last, after);
    }
  }

  lemma WithoutOne(init: seq<Hunk>, h: Hunk, before: seq<Hunk>, after: seq<Hunk>)
    requires multiset(init + [h]) == multiset(before + [h] + after)
    ensures multiset(init) == multiset(before + after)
  {
    assert multiset(before + [h] + after) == multiset(before + after) + multiset{h};
    assert multiset(init + [h]) == multiset(init) + multiset{h};
    assert multiset(init) == multiset(init + [h]) - multiset{h};
    assert multiset(before + after) == multiset(before + [h] + after) - multiset{h};
  }

  lemma CountsOfParts(before: seq<Hunk>, h: Hunk, after: seq<Hunk>)
    ensures AddedIn(LinesOf(before + [h] + after)) == AddedIn(LinesOf(before + after)) + AddedIn(h.lines)
    ensures RemovedIn(LinesOf(before + [h] + after)) == RemovedIn(LinesOf(before + after)) + RemovedIn(h.lines)
  {
    LinesOfConcat(before + [h], after);
    CountsConcat(LinesOf(before + [h]), LinesOf(after));
    CountsWithOneMore(before, h);
    LinesOfConcat(before, after);
    CountsConcat(LinesOf(before), LinesOf(after));
  }

  // ----- agreement -----

  /** The (path, hunks) pairs the report shows. */
  function SortedPairs(stream: seq<Hunk>): set<Group> {
    set h | h in stream :: (Normalize(h.path), HunksAt(stream, Normalize(h.path)))
  }

  function Pairs(groups: seq<Group>): set<Group> {
    set g | g in groups
  }

  /** No backslash, and no two spellings of one path. */
  ghost predicate OneSpelling(stream: seq<Hunk>) {
    && (forall h :: h in stream ==> '\\' !in h.path)
    && (forall g, h :: g in stream && h in stream && SamePath(g.path, h.path) ==> g.path == h.path)
  }

  lemma {:induction false} LikeIs(stream: seq<Hunk>, path: string)
    ensures forall h :: h in HunksLike(Components, stream, path) <==> h in stream && SamePath(path, h.path)
  {
    if stream != [] {
      LikeIs(stream[..|stream| - 1], path);
      assert stream == stream[..|stream| - 1] + [stream[|stream| - 1]];
    }
  }

  lemma {:induction false} SameFilter(stream: seq<Hunk>, path: string)
    requires forall h :: h in stream ==> (SamePath(path, h.path) <==> Normalize(h.path) == path)
    ensures HunksLike(Components, stream, path) == HunksAt(stream, path)
  {
    if stream != [] {
      assert forall h :: h in stream[..|stream| - 1] ==> h in stream;
      assert stream[|stream| - 1] in stream;
      SameFilter(stream[..|stream| - 1], path);
    }
  }

  lemma AgreeWhenOneSpelling(stream: seq<Hunk>, groups: seq<Group>)
    requires FirstSeen(Components, groups, stream) && OneSpelling(stream)
    ensures Pairs(groups) == SortedPairs(stream)
  {
    forall g | g in groups ensures g in SortedPairs(stream) {
      var i :| 0 <= i < |groups| && groups[i] == g;
      FirstsComeFrom(Components, stream, i);
      var h :| h in stream && h.path == g.0;
      SpelledOnce(stream, h);
    }
    forall p | p in SortedPairs(stream) ensures p in Pairs(groups) {
      var h :| h in stream && p == (Normalize(h.path), HunksAt(stream, Normalize(h.path)));
      SpelledOnce(stream, h);
      FirstsKnowAll(Components, stream, h);
      var i :| 0 <= i < |groups| && Components(Firsts(Components, stream)[i]) == Components(h.path);
      FirstsComeFrom(Components, stream, i);
      assert groups[i] in groups;
    }
  }

  lemma SpelledOnce(stream: seq<Hunk>, h: Hunk)
    requires OneSpelling(stream) && h in stream
    ensures Normalize(h.path) == h.path
    ensures HunksLike(Components, stream, h.path) == HunksAt(stream, h.path)
  {
    forall g | g in stream ensures Normalize(g.path) == g.path {
      NormalizeIs(g.path);
    }
    SameFilter(stream, h.path);
  }

  predicate AnyBackslash(parts: seq<string>) {
    parts != [] && ('\\' in parts[0] || AnyBackslash(parts[1..]))
  }

  lemma {:induction false} SplitKeepsBackslashes(path: string)
    ensures AnyBackslash(Split(path)) <==> '\\' in path
  {
    if path != "" {
      SplitKeepsBackslashes(path[1..]);
      var rest := Split(path[1..]);
      assert ([""] + rest)[1..] == rest && ([[path[0]] + rest[0]] + rest[1..])[1..] == rest[1..];
      assert path == [path[0]] + path[1..];
    }
  }

  lemma {:induction false} MeaningfulKeepsBackslashes(parts: seq<string>)
    ensures AnyBackslash(Meaningful(parts)) <==> AnyBackslash(parts)
  {
    if parts != [] {
      MeaningfulKeepsBackslashes(parts[1..]);
      assert ([parts[0]] + Meaningful(parts[1..]))[1..] == Meaningful(parts[1..]);
      assert [] + Meaningful(parts[1..]) == Meaningful(parts[1..]);
    }
  }

  lemma ComponentsKeepBackslashes(path: string)
    ensures AnyBackslash(Components(path).1) <==> '\\' in path
  {
    SplitKeepsBackslashes(path);
    MeaningfulKeepsBackslashes(Split(path));
    var kept := Meaningful(Split(path));
    assert (["."] + kept)[1..] == kept && [] + kept == kept;
  }

  /** When the views agree, a hunk's path is spelled as its group is named. */
  lemma AgreementNames(stream: seq<Hunk>, groups: seq<Group>, h: Hunk, i: nat)
    requires FirstSeen(Components, groups, stream) && Pairs(groups) == SortedPairs(stream) && h in stream
    requires i < |groups| && SamePath(groups[i].0, h.path)
    ensures '\\' !in h.path && h.path == groups[i].0
  {
    var g := groups[i];
    assert g in Pairs(groups);
    var k :| k in stream && g == (Normalize(k.path), HunksAt(stream, Normalize(k.path)));
    NormalizeIs(k.path);
    LikeIs(stream, g.0);
    NoHunksAt(stream, g.0);
    assert h in HunksLike(Components, stream, g.0);
    ComponentsKeepBackslashes(g.0);
    ComponentsKeepBackslashes(h.path);
    NormalizeIs(h.path);
  }

  /** The two views show the same (path, hunks) pairs exactly when no path holds a backslash
      and no path is spelled in two ways. */
  lemma GroupingsAgreeExactly(stream: seq<Hunk>, groups: seq<Group>)
    requires FirstSeen(Components, groups, stream)
    ensures Pairs(groups) == SortedPairs(stream) <==> OneSpelling(stream)
  {
    if OneSpelling(stream) {
      AgreeWhenOneSpelling(stream, groups);
    }
    if Pairs(groups) == SortedPairs(stream) {
      forall h | h in stream ensures '\\' !in h.path {
        FirstsKnowAll(Components, stream, h);
        var i :| 0 <= i < |groups| && SamePath(Firsts(Components, stream)[i], h.path);
        AgreementNames(stream, groups, h, i);
      }
      forall g, h | g in stream && h in stream && SamePath(g.path, h.path) ensures g.path == h.path {
        FirstsKnowAll(Components, stream, h);
        var i :| 0 <= i < |groups| && SamePath(Firsts(Components, stream)[i], h.path);
        AgreementNames(stream, groups, h, i);
        AgreementNames(stream, groups, g, i);
      }
    }
  }

  /** A backslash, or one file spelled `a/b` and `a//b`, makes the views differ. */
  lemma GroupingsCanDiffer(h: Hunk, groups: seq<Group>, spelled: seq<Group>)
    requires FirstSeen(Components, groups, [h.(path := "a\\b")])
    requires FirstSeen(Components, spelled, [h.(path := "a/b")] + [h.(path := "a//b")])
    ensures Pairs(groups) != SortedPairs([h.(path := "a\\b")])
    ensures Pairs(spelled) != SortedPairs([h.(path := "a/b")] + [h.(path := "a//b")])
  {
    var one, two := [h.(path := "a\\b")], [h.(path := "a/b")] + [h.(path := "a//b")];
    assert one[0] in one && "a\\b"[1] == '\\';
    GroupingsAgreeExactly(one, groups);
    TwoSpellings();
    assert two[0] in two && two[1] in two && |"a/b"| != |"a//b"|;
    GroupingsAgreeExactly(two, spelled);
  }

  lemma {:induction false} SplitOfJoined(a: string, b: string)
    ensures Split(a + "/" + b) == Split(a) + Split(b)
  {
    var s := a + "/" + b;
    if a == "" {
      assert s[1..] == b;
    } else {
      assert s[1..] == a[1..] + "/" + b;
      SplitOfJoined(a[1..], b);
      var rest := Split(a[1..]);
      assert a[0] != '/' ==> [[a[0]] + (rest + Split(b))[0]] + (rest + Split(b))[1..]
                             == ([[a[0]] + rest[0]] + rest[1..]) + Split(b);
    }
  }

  lemma {:induction false} MeaningfulConcat(a: seq<string>, b: seq<string>)
    ensures Meaningful(a + b) == Meaningful(a) + Meaningful(b)
  {
    if a == [] {
      assert a + b == b;
    } else {
      assert (a + b)[1..] == a[1..] + b;
      MeaningfulConcat(a[1..], b);
    }
  }

  /** What follows a slash adds its parts, whatever `a` begins with. */
  lemma ComponentsOfJoined(a: string, b: string)
    requires a != ""
    ensures Components(a + "/" + b) == (Components(a).0, Components(a).1 + Meaningful(Split(b)))
  {
    SplitOfJoined(a, b);
    MeaningfulConcat(Split(a), Split(b));
    var lead, front, back := if Split(a)[0] == "." then ["."] else [], Meaningful(Split(a)), Meaningful(Split(b));
    assert (Split(a) + Split(b))[0] == Split(a)[0] && (a + "/" + b)[0] == a[0];
    assert lead + (front + back) == (lead + front) + back;
  }

  lemma DotParts(b: string)
    ensures Meaningful(Split("")) == [] && Meaningful(Split(".")) == []
    ensures Meaningful(Split("/" + b)) == Meaningful(Split("./" + b)) == Meaningful(Split(b))
  {
    assert "."[1..] == "" && "/" + b == "" + "/" + b && "./" + b == "." + "/" + b;
    SplitOfName(".");
    SplitOfJoined("", b);
    SplitOfJoined(".", b);
    MeaningfulConcat([""], Split(b));
    MeaningfulConcat(["."], Split(b));
  }

  /** Doubled slashes, slashes at the end, and single dots behind a slash make no difference. */
  lemma RedundantSeparators(a: string, b: string)
    requires a != ""
    ensures SamePath(a + "/" + ("/" + b), a + "/" + b) && SamePath(a + "/" + ("./" + b), a + "/" + b)
    ensures SamePath(a + "/" + "", a) && SamePath(a + "/" + ".", a)
  {
    DotParts(b);
    SameTail(a, "/" + b, b);
    SameTail(a, "./" + b, b);
    NoTail(a, "");
    NoTail(a, ".");
  }

  lemma SameTail(a: string, b: string, c: string)
    requires a != "" && Meaningful(Split(b)) == Meaningful(Split(c))
    ensures SamePath(a + "/" + b, a + "/" + c)
  {
    ComponentsOfJoined(a, b);
    ComponentsOfJoined(a, c);
  }

  lemma NoTail(a: string, b: string)
    requires a != "" && Meaningful(Split(b)) == []
    ensures SamePath(a + "/" + b, a)
  {
    ComponentsOfJoined(a, b);
    assert Components(a).1 + [] == Components(a).1;
  }

  /** A name between slashes. */
  predicate IsName(part: string) {
    part != "" && part != "." && '/' !in part
  }

  function Joined(names: seq<string>): string
    requires names != []
  {
    if |names| == 1 then names[0] else names[0] + "/" + Joined(names[1..])
  }

  lemma {:induction false} SplitOfName(part: string)
    requires '/' !in part
    ensures Split(part) == [part]
  {
    if part != "" {
      assert part == [part[0]] + part[1..] && part[0] in part;
      SplitOfName(part[1..]);
    }
  }

  lemma {:induction false} PartsOfNames(names: seq<string>)
    requires names != [] && forall n :: n in names ==> IsName(n)
    ensures Split(Joined(names)) == names && Meaningful(names) == names
  {
    assert names[0] in names && names == [names[0]] + names[1..];
    SplitOfName(names[0]);
    if |names| > 1 {
      PartsOfNames(names[1..]);
      SplitOfJoined(names[0], Joined(names[1..]));
    }
  }

  /** Names joined by slashes are compared name by name; a slash or a dot in front of them counts. */
  lemma ComponentsOfNames(names: seq<string>)
    requires names != [] && forall n :: n in names ==> IsName(n)
    ensures Components(Joined(names)) == (false, names)
    ensures Components("/" + Joined(names)) == (true, names)
    ensures Components("./" + Joined(names)) == (false, ["."] + names)
  {
    var path := Joined(names);
    PartsOfNames(names);
    assert names[0] in names;
    JoinedBegins(names);
    assert "/" + path == "" + "/" + path && "./" + path == "." + "/" + path;
    SplitOfJoined("", path);
    MeaningfulConcat([""], names);
    ComponentsOfJoined(".", path);
    SplitOfName(".");
    DotParts("");
    assert (if names[0] == "." then ["."] else []) + names == names;
    assert Components(".") == (false, ["."] + Meaningful(["."])) && ["."] + [] == ["."];
  }

  lemma JoinedBegins(names: seq<string>)
    requires names != [] && IsName(names[0])
    ensures Joined(names) != "" && Joined(names)[0] == names[0][0] && names[0][0] in names[0]
  {
  }

  lemma SplitLetter(c: char, rest: string, parts: seq<string>)
    requires c != '/' && parts != [] && parts[0] == "" && Split(rest) == parts
    ensures Split([c] + rest) == [[c]] + parts[1..]
  {
    assert ([c] + rest)[1..] == rest && [c] + "" == [c];
  }

  lemma TwoSpellings()
    ensures SamePath("a/b", "a//b")
  {
    assert "a/b"[1..] == "/b" && "a//b"[1..] == "//b" && "//b"[1..] == "/b" && "/b"[1..] == "b" && "b"[1..] == "";
    SplitLetter('b', "", [""]);
    assert Split("b") == ["b"] + [""][1..] == ["b"];
    assert Split("/b") == [""] + ["b"];
    assert Split("//b") == [""] + ([""] + ["b"]);
    SplitLetter('a', "/b", [""] + ["b"]);
    SplitLetter('a', "//b", [""] + ([""] + ["b"]));
    assert ([""] + ["b"])[1..] == ["b"] && ([""] + ([""] + ["b"]))[1..] == [""] + ["b"];
    assert Split("a/b") == ["a"] + ["b"];
    assert Split("a//b") == ["a"] + ([""] + ["b"]);
    assert (["a"] + ["b"])[1..] == ["b"] && ["b"][1..] == [];
    assert (["a"] + ([""] + ["b"]))[1..] == [""] + ["b"] && ([""] + ["b"])[1..] == ["b"];
    assert Meaningful(["b"]) == ["b"];
    assert Meaningful([""] + ["b"]) == ["b"];
    assert Meaningful(["a"] + ["b"]) == ["a"] + ["b"];
    assert Meaningful(["a"] + ([""] + ["b"])) == ["a"] + ["b"];
  }

  lemma {:induction false} ReportFileAt(stream: seq<Hunk>, keys: seq<string>, i: nat)
    requires i < |keys|
    ensures |ReportFiles(stream, keys)| == |keys| && ReportFiles(stream, keys)[i] == ReportFile(stream, keys[i])
  {
    if i < |keys| - 1 {
      ReportFileAt(stream, keys[..|keys| - 1], i);
    } else if i > 0 {
      ReportFileAt(stream, keys[..|keys| - 1], 0);
    }
  }

  lemma ReportFilesAt(stream: seq<Hunk>, keys: seq<string>)
    ensures |ReportFiles(stream, keys)| == |keys|
    ensures forall i :: 0 <= i < |keys| ==> ReportFiles(stream, keys)[i] == ReportFile(stream, keys[i])
  {
    forall i | 0 <= i < |keys|
      ensures |ReportFiles(stream, keys)| == |keys| && ReportFiles(stream, keys)[i] == ReportFile(stream, keys[i])
    {
      ReportFileAt(stream, keys, i);
    }
    assert keys == [] ==> ReportFiles(stream, keys) == [];
  }

  function PairsOf(files: seq<UnifiedDiff.FileReport>): set<Group> {
    set f | f in files :: (f.path, f.hunks)
  }

  lemma PairIn(stream: seq<Hunk>, keys: seq<string>, key: string, hunks: seq<Hunk>)
    requires forall k :: k in keys <==> k in Keys(stream)
    ensures (key, hunks) in SortedPairs(stream) <==> (key, hunks) in PairsOf(ReportFiles(stream, keys))
  {
    var files := ReportFiles(stream, keys);
    ReportFilesAt(stream, keys);
    if (key, hunks) in SortedPairs(stream) {
      assert key in keys;
      var i :| 0 <= i < |keys| && keys[i] == key;
      assert files[i] in files;
    }
    if (key, hunks) in PairsOf(files) {
      var f :| f in files && f.path == key && f.hunks == hunks;
      var i :| 0 <= i < |files| && files[i] == f;
      assert keys[i] in keys;
      var h :| h in stream && Normalize(h.path) == key;
    }
  }

  /** The report shows exactly `SortedPairs`, in ascending path order, each path once. */
  lemma ReportShowsSortedPairs(stream: seq<Hunk>)
    ensures var files := ReportFiles(stream, SortedKeys(Keys(stream)));
      && (forall i, j :: 0 <= i < j < |files| ==>
           files[i].path != files[j].path && LessEq(files[i].path, files[j].path))
      && PairsOf(files) == SortedPairs(stream)
  {
    var keys := SortedKeys(Keys(stream));
    var files := ReportFiles(stream, keys);
    SortedKeysAscend(Keys(stream));
    ReportFilesAt(stream, keys);
    forall key, hunks ensures (key, hunks) in SortedPairs(stream) <==> (key, hunks) in PairsOf(files) {
      PairIn(stream, keys, key, hunks);
    }
    forall p ensures p in SortedPairs(stream) <==> p in PairsOf(files) {
      assert p == (p.0, p.1);
    }
  }
}
