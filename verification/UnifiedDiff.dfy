// The unified-diff printer of `phonton diff`, and the counter that reads such
// text back for the TUI. They live in different files and must agree.

module DiffModel {
  /** One line of a hunk. */
  type LineText = s: string | '\n' !in s

  datatype DiffLine = Context(text: LineText) | Added(text: LineText) | Removed(text: LineText)
  datatype Hunk = Hunk(path: string, oldStart: nat, oldCount: nat, newStart: nat, newCount: nat, lines: seq<DiffLine>)

  function AddedIn(lines: seq<DiffLine>): nat {
    if lines == [] then 0 else AddedIn(lines[..|lines| - 1]) + if lines[|lines| - 1].Added? then 1 else 0
  }

  function RemovedIn(lines: seq<DiffLine>): nat {
    if lines == [] then 0 else RemovedIn(lines[..|lines| - 1]) + if lines[|lines| - 1].Removed? then 1 else 0
  }

  /** The lines of all hunks, in order. */
  function LinesOf(hunks: seq<Hunk>): seq<DiffLine> {
    if hunks == [] then [] else LinesOf(hunks[..|hunks| - 1]) + hunks[|hunks| - 1].lines
  }

  lemma CountsNext(lines: seq<DiffLine>, i: nat)
    requires i < |lines|
    ensures AddedIn(lines[..i + 1]) == AddedIn(lines[..i]) + if lines[i].Added? then 1 else 0
    ensures RemovedIn(lines[..i + 1]) == RemovedIn(lines[..i]) + if lines[i].Removed? then 1 else 0
  {
    assert lines[..i + 1][..i] == lines[..i];
  }

  /** The inner loop of `count_hunks`. */
  method CountHunkLines(lines: seq<DiffLine>, added: nat, removed: nat) returns (added': nat, removed': nat)
    ensures added' == added + AddedIn(lines) && removed' == removed + RemovedIn(lines)
  {
    added', removed' := added, removed;
    for j := 0 to |lines|
      invariant added' == added + AddedIn(lines[..j]) && removed' == removed + RemovedIn(lines[..j])
    {
      CountsNext(lines, j);
      match lines[j] {
        case Added(_) => added' := added' + 1;
        case Removed(_) => removed' := removed' + 1;
        case Context(_) =>
      }
    }
    assert lines[..|lines|] == lines;
  }

  /** `count_hunks` and `diff_counts`, which are the same loop in two files. */
  method CountHunks(hunks: seq<Hunk>) returns (added: nat, removed: nat)
    ensures added == AddedIn(LinesOf(hunks)) && removed == RemovedIn(LinesOf(hunks))
  {
    added, removed := 0, 0;
    for i := 0 to |hunks|
      invariant added == AddedIn(LinesOf(hunks[..i])) && removed == RemovedIn(LinesOf(hunks[..i]))
    {
      CountsWithOneMore(hunks[..i], hunks[i]);
      assert hunks[..i + 1] == hunks[..i] + [hunks[i]];
      added, removed := CountHunkLines(hunks[i].lines, added, removed);
    }
    assert hunks[..|hunks|] == hunks;
  }

  lemma {:induction false} CountsConcat(a: seq<DiffLine>, b: seq<DiffLine>)
    ensures AddedIn(a + b) == AddedIn(a) + AddedIn(b)
    ensures RemovedIn(a + b) == RemovedIn(a) + RemovedIn(b)
  {
    if b == [] {
      assert a + b == a;
    } else {
      assert (a + b)[..|a + b| - 1] == a + b[..|b| - 1];
      CountsConcat(a, b[..|b| - 1]);
    }
  }

  lemma CountsWithOneMore(hunks: seq<Hunk>, h: Hunk)
    ensures AddedIn(LinesOf(hunks + [h])) == AddedIn(LinesOf(hunks)) + AddedIn(h.lines)
    ensures RemovedIn(LinesOf(hunks + [h])) == RemovedIn(LinesOf(hunks)) + RemovedIn(h.lines)
  {
    assert (hunks + [h])[..|hunks|] == hunks;
    CountsConcat(LinesOf(hunks), h.lines);
  }

  lemma {:induction false} LinesOfConcat(a: seq<Hunk>, b: seq<Hunk>)
    ensures LinesOf(a + b) == LinesOf(a) + LinesOf(b)
  {
    if b == [] {
      assert a + b == a;
    } else {
      assert (a + b)[..|a + b| - 1] == a + b[..|b| - 1];
      LinesOfConcat(a, b[..|b| - 1]);
    }
  }
}

module UnifiedDiff {
  import opened Text
  import opened DiffModel

  datatype FileReport = FileReport(path: string, added: nat, removed: nat, hunks: seq<Hunk>)

  /** The task id prints as a UUID, so it holds no line feed; the goal may. */
  datatype Report = Report(taskId: LineText, goal: string, totalAdded: nat, totalRemoved: nat, files: seq<FileReport>)

  // ----- printing -----

  function Digits(n: nat): string {
    (if n < 10 then "" else Digits(n / 10)) + ["0123456789"[n % 10]]
  }

  lemma {:induction false} DigitsHaveNoNewline(n: nat)
    ensures '\n' !in Digits(n)
  {
    if n >= 10 {
      DigitsHaveNoNewline(n / 10);
    }
  }

  /** Each item followed by a line feed. */
  function Unlines(items: seq<string>): string {
    if items == [] then "" else Unlines(items[..|items| - 1]) + items[|items| - 1] + "\n"
  }

  function LineItem(line: DiffLine): string {
    match line
    case Context(text) => " " + text
    case Added(text) => "+" + text
    case Removed(text) => "-" + text
  }

  function LineItems(lines: seq<DiffLine>): seq<string> {
    if lines == [] then [] else LineItems(lines[..|lines| - 1]) + [LineItem(lines[|lines| - 1])]
  }

  function HunkHeader(h: Hunk): string {
    "@@ -" + Digits(h.oldStart) + "," + Digits(h.oldCount) + " +" + Digits(h.newStart) + "," + Digits(h.newCount)
      + " @@"
  }

  function HunkItems(h: Hunk): seq<string> {
    [HunkHeader(h)] + LineItems(h.lines)
  }

  function HunksItems(hunks: seq<Hunk>): seq<string> {
    if hunks == [] then [] else HunksItems(hunks[..|hunks| - 1]) + HunkItems(hunks[|hunks| - 1])
  }

  function FileHeader(path: string): seq<string> {
    ["diff --git a/" + path + " b/" + path, "--- a/" + path, "+++ b/" + path]
  }

  function FileItems(f: FileReport): seq<string> {
    FileHeader(f.path) + HunksItems(f.hunks) + [""]
  }

  function FilesItems(files: seq<FileReport>): seq<string> {
    if files == [] then [] else FilesItems(files[..|files| - 1]) + FileItems(files[|files| - 1])
  }

  function TotalsItem(r: Report): string {
    "files: " + Digits(|r.files|) + "  +" + Digits(r.totalAdded) + " -" + Digits(r.totalRemoved)
  }

  function ReportHeader(r: Report): seq<string> {
    ["Phonton diff", "task: " + r.taskId, "goal: " + r.goal, TotalsItem(r), ""]
  }

  function Render(r: Report): string {
    Unlines(ReportHeader(r) + FilesItems(r.files))
  }

  lemma {:induction false} UnlinesConcat(a: seq<string>, b: seq<string>)
    ensures Unlines(a + b) == Unlines(a) + Unlines(b)
  {
    if b == [] {
      assert a + b == a;
    } else {
      assert (a + b)[..|a + b| - 1] == a + b[..|b| - 1];
      UnlinesConcat(a, b[..|b| - 1]);
    }
  }

  lemma UnlinesOne(item: string)
    ensures Unlines([item]) == item + "\n"
  {
    assert [item][..0] == [];
  }

  method RenderLine(line: DiffLine, before: string) returns (out: string)
    ensures out == before + (LineItem(line) + "\n")
  {
    out := before;
    match line {
      case Context(text) => out := out + " " + text;
      case Added(text) => out := out + "+" + text;
      case Removed(text) => out := out + "-" + text;
    }
    out := out + "\n";
  }

  /** The items of a hunk up to its first `i` lines. */
  function HunkItemsTo(h: Hunk, i: nat): seq<string>
    requires i <= |h.lines|
  {
    [HunkHeader(h)] + LineItems(h.lines[..i])
  }

  lemma HunkItemsStep(h: Hunk, i: nat, before: string)
    requires i < |h.lines|
    ensures before + Unlines(HunkItemsTo(h, i)) + (LineItem(h.lines[i]) + "\n")
      == before + Unlines(HunkItemsTo(h, i + 1))
  {
    LineItemsStep(h.lines, i);
    AppendItems([HunkHeader(h)], LineItems(h.lines[..i]), [LineItem(h.lines[i])]);
    UnlinesOne(LineItem(h.lines[i]));
    Associate(before, Unlines(HunkItemsTo(h, i)), LineItem(h.lines[i]) + "\n");
  }

  method RenderHunk(h: Hunk, before: string) returns (out: string)
    ensures out == before + Unlines(HunkItems(h))
  {
    out := before + (HunkHeader(h) + "\n");
    UnlinesOne(HunkHeader(h));
    assert HunkItemsTo(h, 0) == [HunkHeader(h)];
    for i := 0 to |h.lines|
      invariant out == before + Unlines(HunkItemsTo(h, i))
    {
      out := RenderLine(h.lines[i], out);
      HunkItemsStep(h, i, before);
    }
    assert h.lines[..|h.lines|] == h.lines;
  }

  method RenderFileHeader(path: string, before: string) returns (out: string)
    ensures out == before + Unlines(FileHeader(path))
  {
    ghost var header := FileHeader(path);
    UnlinesOne(header[0]);
    UnlinesOne(header[1]);
    UnlinesOne(header[2]);
    UnlinesConcat([header[0]], [header[1]]);
    UnlinesConcat([header[0]] + [header[1]], [header[2]]);
    assert header == [header[0]] + [header[1]] + [header[2]];
    out := before + ("diff --git a/" + path + " b/" + path + "\n");
    out := out + ("--- a/" + path + "\n");
    out := out + ("+++ b/" + path + "\n");
  }

  method RenderHunks(hunks: seq<Hunk>, before: string) returns (out: string)
    ensures out == before + Unlines(HunksItems(hunks))
  {
    out := before;
    for i := 0 to |hunks|
      invariant out == before + Unlines(HunksItems(hunks[..i]))
    {
      out := RenderHunk(hunks[i], out);
      HunksItemsStep(hunks, i);
      AppendAfter(before, HunksItems(hunks[..i]), HunkItems(hunks[i]));
    }
    assert hunks[..|hunks|] == hunks;
  }

  method RenderFile(f: FileReport, before: string) returns (out: string)
    ensures out == before + Unlines(FileItems(f))
  {
    out := RenderFileHeader(f.path, before);
    out := RenderHunks(f.hunks, out);
    out := out + "\n";
    UnlinesConcat(FileHeader(f.path) + HunksItems(f.hunks), [""]);
    UnlinesConcat(FileHeader(f.path), HunksItems(f.hunks));
    UnlinesOne("");
  }

  lemma Associate(a: string, b: string, c: string)
    ensures a + (b + c) == (a + b) + c
  {
  }

  lemma Prepend(a: seq<string>, b: seq<string>, c: seq<string>)
    ensures a + (b + c) == (a + b) + c
  {
  }

  lemma AppendAfter(before: string, a: seq<string>, b: seq<string>)
    ensures before + Unlines(a + b) == (before + Unlines(a)) + Unlines(b)
  {
    UnlinesConcat(a, b);
    Associate(before, Unlines(a), Unlines(b));
  }

  lemma AppendItems(header: seq<string>, a: seq<string>, b: seq<string>)
    ensures Unlines(header + (a + b)) == Unlines(header + a) + Unlines(b)
  {
    Prepend(header, a, b);
    UnlinesConcat(header + a, b);
  }

  lemma LineItemsStep(lines: seq<DiffLine>, i: nat)
    requires i < |lines|
    ensures LineItems(lines[..i + 1]) == LineItems(lines[..i]) + [LineItem(lines[i])]
  {
    assert lines[..i + 1][..i] == lines[..i];
  }

  lemma HunksItemsStep(hunks: seq<Hunk>, i: nat)
    requires i < |hunks|
    ensures HunksItems(hunks[..i + 1]) == HunksItems(hunks[..i]) + HunkItems(hunks[i])
  {
    assert hunks[..i + 1][..i] == hunks[..i];
  }

  lemma FilesItemsStep(files: seq<FileReport>, i: nat)
    requires i < |files|
    ensures FilesItems(files[..i + 1]) == FilesItems(files[..i]) + FileItems(files[i])
  {
    assert files[..i + 1][..i] == files[..i];
  }

  method RenderUnified(r: Report) returns (out: string)
    ensures out == Render(r)
  {
    out := RenderReportHeader(r);
    ghost var header := ReportHeader(r);
    assert header + FilesItems(r.files[..0]) == header;
    for i := 0 to |r.files|
      invariant out == Unlines(header + FilesItems(r.files[..i]))
    {
      out := RenderFile(r.files[i], out);
      FilesItemsStep(r.files, i);
      AppendItems(header, FilesItems(r.files[..i]), FileItems(r.files[i]));
    }
    assert r.files[..|r.files|] == r.files;
  }

  method RenderReportHeader(r: Report) returns (out: string)
    ensures out == Unlines(ReportHeader(r))
  {
    ghost var items := ReportHeader(r);
    out := "Phonton diff\n";
    out := out + ("task: " + r.taskId + "\n");
    out := out + ("goal: " + r.goal + "\n");
    out := out + (TotalsItem(r) + "\n\n");
    assert items[..1][..0] == [] && items[..2][..1] == items[..1] && items[..3][..2] == items[..2];
    assert items[..4][..3] == items[..3] && items[..5] == items && items[..4] == items[..|items| - 1];
    assert Unlines(items[..1]) == "Phonton diff\n";
    assert Unlines(items[..2]) == "Phonton diff\n" + ("task: " + r.taskId + "\n");
    assert Unlines(items[..3]) == Unlines(items[..2]) + ("goal: " + r.goal + "\n");
    assert Unlines(items[..4]) == Unlines(items[..3]) + (TotalsItem(r) + "\n");
    assert Unlines(items) == Unlines(items[..4]) + "" + "\n";
  }

  // ----- reading lines -----

  function FirstNewline(s: string): (i: nat)
    ensures i <= |s| && (i < |s| ==> s[i] == '\n')
    ensures forall k :: 0 <= k < i ==> s[k] != '\n'
  {
    if s == "" || s[0] == '\n' then 0 else 1 + FirstNewline(s[1..])
  }

  function StripCr(line: string): string {
    if line != "" && line[|line| - 1] == '\r' then line[..|line| - 1] else line
  }

  /** `str::lines`: terminators go, and one carriage return before each line feed. */
  function Lines(s: string): seq<string>
    decreases |s|
  {
    var i := FirstNewline(s);
    if i == |s| then (if s == "" then [] else [s])
    else [StripCr(s[..i])] + Lines(s[i + 1..])
  }

  lemma {:induction false} FirstNewlineAfter(line: string, rest: string)
    requires '\n' !in line
    ensures FirstNewline(line + "\n" + rest) == |line|
  {
    var s := line + "\n" + rest;
    if line != "" {
      assert line[0] in line && s[1..] == line[1..] + "\n" + rest;
      FirstNewlineAfter(line[1..], rest);
    }
  }

  lemma FirstLine(line: string, rest: string)
    requires '\n' !in line
    ensures Lines(line + "\n" + rest) == [StripCr(line)] + Lines(rest)
  {
    var s := line + "\n" + rest;
    FirstNewlineAfter(line, rest);
    assert s[..|line|] == line && s[|line| + 1..] == rest;
  }

  lemma Regroup(line: string, rest: string, tail: string)
    ensures (line + "\n" + rest) + "\n" + tail == line + "\n" + (rest + "\n" + tail)
  {
  }

  lemma LinesConcatBase(line: string, b: string)
    requires '\n' !in line
    ensures Lines(line + "\n" + b) == Lines(line + "\n") + Lines(b)
  {
    FirstLine(line, b);
    FirstLine(line, "");
    assert line + "\n" + "" == line + "\n";
  }

  lemma CutAtNewline(a: string, i: nat)
    requires i < |a| && a[i] == '\n'
    ensures a == a[..i] + "\n" + a[i + 1..]
  {
  }

  lemma {:induction false} LinesConcat(a: string, b: string)
    ensures Lines(a + "\n" + b) == Lines(a + "\n") + Lines(b)
    decreases |a|
  {
    var i := FirstNewline(a);
    if i == |a| {
      assert a[..i] == a;
      LinesConcatBase(a, b);
    } else {
      LinesConcat(a[i + 1..], b);
      LinesConcatCut(a, i, b);
    }
  }

  lemma LinesConcatCut(a: string, i: nat, b: string)
    requires i < |a| && a[i] == '\n' && '\n' !in a[..i]
    requires Lines(a[i + 1..] + "\n" + b) == Lines(a[i + 1..] + "\n") + Lines(b)
    ensures Lines(a + "\n" + b) == Lines(a + "\n") + Lines(b)
  {
    var line, rest := a[..i], a[i + 1..];
    CutAtNewline(a, i);
    LinesConcatStep(line, rest, b);
    Prepend([StripCr(line)], Lines(rest + "\n"), Lines(b));
  }

  lemma LinesConcatStep(line: string, rest: string, b: string)
    requires '\n' !in line
    ensures Lines(line + "\n" + rest + "\n" + b) == [StripCr(line)] + Lines(rest + "\n" + b)
    ensures Lines(line + "\n" + rest + "\n") == [StripCr(line)] + Lines(rest + "\n")
  {
    Regroup(line, rest, b);
    Regroup(line, rest, "");
    FirstLine(line, rest + "\n" + b);
    FirstLine(line, rest + "\n");
    assert rest + "\n" + "" == rest + "\n" && line + "\n" + rest + "\n" + "" == line + "\n" + rest + "\n";
  }

  /** The lines one item contributes. */
  function ItemLines(item: string): seq<string> {
    Lines(item + "\n")
  }

  lemma ItemLinesOfOne(item: string)
    requires '\n' !in item
    ensures ItemLines(item) == [StripCr(item)]
  {
    FirstLine(item, "");
    assert item + "\n" + "" == item + "\n";
  }

  function AllItemLines(items: seq<string>): seq<string> {
    if items == [] then [] else AllItemLines(items[..|items| - 1]) + ItemLines(items[|items| - 1])
  }

  lemma {:induction false} LinesOfUnlines(items: seq<string>)
    ensures Lines(Unlines(items)) == AllItemLines(items)
  {
    if items != [] {
      var init, last := items[..|items| - 1], items[|items| - 1];
      LinesOfUnlines(init);
      if init == [] {
        assert Unlines(items) == last + "\n";
      } else {
        var text := Unlines(init[..|init| - 1]) + init[|init| - 1];
        assert Unlines(items) == text + "\n" + (last + "\n");
        LinesConcat(text, last + "\n");
        assert Unlines(init) == text + "\n";
      }
    }
  }

  // ----- counting -----

  datatype Counts = Counts(path: string, added: nat, removed: nat)

  /** `trim_start_matches("b/")`: the prefix goes as often as it stands there. */
  function TrimB(path: string): string
    decreases |path|
  {
    if HasPrefix(path, "b/") then TrimB(path[2..]) else path
  }

  predicate IsHeader(line: string) {
    HasPrefix(line, "+++ ")
  }

  function HeaderPath(line: string): string
    requires IsHeader(line)
  {
    TrimB(line[4..])
  }

  /** What the counter does with one line. */
  datatype Effect = OpensFile(path: string) | Adds | Removes | Nothing

  function EffectOf(line: string): Effect {
    if IsHeader(line) then (if HeaderPath(line) == "/dev/null" then Nothing else OpensFile(HeaderPath(line)))
    else if HasPrefix(line, "---") then Nothing
    else if HasPrefix(line, "+") then Adds
    else if HasPrefix(line, "-") then Removes
    else Nothing
  }

  /** Lines before the first file count for nothing. */
  function Apply(files: seq<Counts>, e: Effect): seq<Counts> {
    if e.OpensFile? then files + [Counts(e.path, 0, 0)]
    else if files == [] then files
    else
      var last := files[|files| - 1];
      if e.Adds? then files[|files| - 1 := last.(added := last.added + 1)]
      else if e.Removes? then files[|files| - 1 := last.(removed := last.removed + 1)]
      else files
  }

  function CountLine(files: seq<Counts>, line: string): seq<Counts> {
    Apply(files, EffectOf(line))
  }

  function CountLines(files: seq<Counts>, lines: seq<string>): seq<Counts> {
    if lines == [] then files else CountLine(CountLines(files, lines[..|lines| - 1]), lines[|lines| - 1])
  }

  /** The counts of all files together. */
  datatype Stats = Stats(filesChanged: nat, added: nat, removed: nat)

  function StatsOf(files: seq<Counts>): Stats {
    Stats(|files|, AddedSum(files), RemovedSum(files))
  }

  function AddedSum(files: seq<Counts>): nat {
    if files == [] then 0 else AddedSum(files[..|files| - 1]) + files[|files| - 1].added
  }

  function RemovedSum(files: seq<Counts>): nat {
    if files == [] then 0 else RemovedSum(files[..|files| - 1]) + files[|files| - 1].removed
  }

  method DiffStats(diff: string) returns (files: seq<Counts>, stats: Stats)
    ensures files == CountLines([], Lines(diff)) && stats == StatsOf(files)
  {
    files := [];
    var lines := Lines(diff);
    for i := 0 to |lines|
      invariant files == CountLines([], lines[..i])
    {
      assert lines[..i + 1][..i] == lines[..i];
      var line := lines[i];
      if HasPrefix(line, "+++ ") {
        var path := TrimB(line[4..]);
        if path != "/dev/null" {
          files := files + [Counts(path, 0, 0)];
        }
      } else if HasPrefix(line, "---") {
      } else if files != [] {
        var last := |files| - 1;
        if HasPrefix(line, "+") {
          files := files[last := files[last].(added := files[last].added + 1)];
        } else if HasPrefix(line, "-") {
          files := files[last := files[last].(removed := files[last].removed + 1)];
        }
      }
    }
    assert lines[..|lines|] == lines;
    stats := Stats(|files|, AddedSum(files), RemovedSum(files));
  }

  lemma {:induction false} CountLinesConcat(files: seq<Counts>, a: seq<string>, b: seq<string>)
    ensures CountLines(files, a + b) == CountLines(CountLines(files, a), b)
  {
    if b == [] {
      assert a + b == a;
    } else {
      assert (a + b)[..|a + b| - 1] == a + b[..|b| - 1];
      CountLinesConcat(files, a, b[..|b| - 1]);
    }
  }
}
