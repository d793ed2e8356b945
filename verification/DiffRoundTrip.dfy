// Exactly when counting a printed diff gives back the report it was printed from.

module DiffRoundTrip {
  import opened Text
  import opened DiffModel
  import opened UnifiedDiff

  // ----- statement -----

  /** What the report says of each file, in order. */
  function Claimed(files: seq<FileReport>): seq<Counts> {
    if files == [] then []
    else
      var last := files[|files| - 1];
      Claimed(files[..|files| - 1]) + [Counts(last.path, last.added, last.removed)]
  }

  /** The report's totals are those of its hunks, as `build_diff_report` makes them. */
  ghost predicate Accurate(files: seq<FileReport>) {
    forall f :: f in files ==> f.added == AddedIn(LinesOf(f.hunks)) && f.removed == RemovedIn(LinesOf(f.hunks))
  }

  /** No line of the goal, printed after its label, opens a file. */
  ghost predicate QuietGoal(goal: string) {
    forall line :: line in ItemLines("goal: " + goal) ==> !EffectOf(line).OpensFile?
  }

  predicate CleanLine(line: DiffLine) {
    && (line.Added? ==> !HasPrefix(line.text, "++ "))
    && (line.Removed? ==> !HasPrefix(line.text, "--"))
  }

  predicate CleanPath(path: string) {
    && '\n' !in path
    && path != "/dev/null"
    && !HasPrefix(path, "b/")
    && (path != "" ==> path[|path| - 1] != '\r')
  }

  ghost predicate CleanFiles(files: seq<FileReport>) {
    forall f :: f in files ==> CleanPath(f.path) && forall line :: line in LinesOf(f.hunks) ==> CleanLine(line)
  }

  // ----- from text to effects -----

  function Effects(lines: seq<string>): seq<Effect> {
    if lines == [] then [] else Effects(lines[..|lines| - 1]) + [EffectOf(lines[|lines| - 1])]
  }

  function ApplyAll(files: seq<Counts>, effects: seq<Effect>): seq<Counts> {
    if effects == [] then files else Apply(ApplyAll(files, effects[..|effects| - 1]), effects[|effects| - 1])
  }

  lemma {:induction false} CountingAppliesEffects(files: seq<Counts>, lines: seq<string>)
    ensures CountLines(files, lines) == ApplyAll(files, Effects(lines))
  {
    if lines != [] {
      CountingAppliesEffects(files, lines[..|lines| - 1]);
    }
  }

  lemma {:induction false} EffectsConcat(a: seq<string>, b: seq<string>)
    ensures Effects(a + b) == Effects(a) + Effects(b)
  {
    if b == [] {
      assert a + b == a;
    } else {
      assert (a + b)[..|a + b| - 1] == a + b[..|b| - 1];
      EffectsConcat(a, b[..|b| - 1]);
    }
  }

  /** The effects of printed items. */
  function ItemEffects(items: seq<string>): seq<Effect> {
    if items == [] then [] else ItemEffects(items[..|items| - 1]) + Effects(ItemLines(items[|items| - 1]))
  }

  lemma {:induction false} ItemEffectsAre(items: seq<string>)
    ensures Effects(AllItemLines(items)) == ItemEffects(items)
  {
    if items != [] {
      ItemEffectsAre(items[..|items| - 1]);
      EffectsConcat(AllItemLines(items[..|items| - 1]), ItemLines(items[|items| - 1]));
    }
  }

  lemma {:induction false} ItemEffectsConcat(a: seq<string>, b: seq<string>)
    ensures ItemEffects(a + b) == ItemEffects(a) + ItemEffects(b)
  {
    if b == [] {
      assert a + b == a;
    } else {
      var init, last := b[..|b| - 1], b[|b| - 1];
      ItemEffectsConcat(a, init);
      assert (a + b)[..|a + b| - 1] == a + init && (a + b)[|a + b| - 1] == last;
      JoinLast(ItemEffects(a), ItemEffects(init), Effects(ItemLines(last)));
    }
  }

  lemma JoinLast(a: seq<Effect>, b: seq<Effect>, c: seq<Effect>)
    ensures (a + b) + c == a + (b + c)
  {
  }

  lemma ItemEffectOfOne(item: string)
    requires '\n' !in item
    ensures ItemEffects([item]) == [EffectOf(StripCr(item))]
  {
    ItemLinesOfOne(item);
    assert [item][..0] == [];
    EffectsOfOne(StripCr(item));
  }

  lemma EffectsOfOne(line: string)
    ensures Effects([line]) == [EffectOf(line)]
  {
    assert [line][..0] == [];
  }

  lemma StripKeepsPrefix(line: string, prefix: string)
    requires '\r' !in prefix
    ensures HasPrefix(StripCr(line), prefix) <==> HasPrefix(line, prefix)
  {
    if HasPrefix(line, prefix) && |line| == |prefix| && line != "" {
      assert line == prefix && line[|line| - 1] in prefix;
    }
    if |prefix| < |line| {
      assert line[..|line| - 1][..|prefix|] == line[..|prefix|];
    }
  }

  lemma PrefixAfter(first: char, text: string, prefix: string)
    ensures HasPrefix([first] + text, [first] + prefix) <==> HasPrefix(text, prefix)
  {
    var line, longer := [first] + text, [first] + prefix;
    if |prefix| <= |text| {
      assert line[..|longer|] == [first] + text[..|prefix|];
      assert line[..|longer|][1..] == text[..|prefix|] && longer[1..] == prefix;
    }
  }

  lemma PrefixStart(s: string, prefix: string)
    requires prefix != ""
    ensures HasPrefix(s, prefix) ==> s != "" && s[0] == prefix[0]
  {
    assert |prefix| <= |s| ==> s[..|prefix|][0] == s[0];
  }

  lemma OtherStart(item: string)
    requires item == "" || (item[0] != '+' && item[0] != '-')
    ensures EffectOf(StripCr(item)) == Nothing
  {
    PrefixStart(StripCr(item), "+++ ");
    PrefixStart(StripCr(item), "---");
    PrefixStart(StripCr(item), "+");
    PrefixStart(StripCr(item), "-");
  }

  /** What a hunk line does once printed; an unclean added line may open a file. */
  function LineEffect(line: DiffLine): Effect {
    EffectOf(StripCr(LineItem(line)))
  }

  lemma LineEffectIs(line: DiffLine)
    ensures LineEffect(line).Adds? <==> line.Added? && CleanLine(line)
    ensures LineEffect(line).Removes? <==> line.Removed? && CleanLine(line)
    ensures CleanLine(line) ==> !LineEffect(line).OpensFile?
  {
    var item := LineItem(line);
    var printed := StripCr(item);
    if line.Context? {
      OtherStart(item);
    } else {
      StripKeepsPrefix(item, "+++ ");
      StripKeepsPrefix(item, "---");
      StripKeepsPrefix(item, "+");
      StripKeepsPrefix(item, "-");
      PrefixAfter(item[0], line.text, "++ ");
      PrefixAfter(item[0], line.text, "--");
      PrefixStart(printed, "+++ ");
      PrefixStart(printed, "---");
      PrefixStart(printed, "+");
      PrefixStart(printed, "-");
      assert "+" + "++ " == "+++ " && "-" + "--" == "---" && item[..1] == [item[0]];
    }
  }

  function LineEffects(lines: seq<DiffLine>): seq<Effect> {
    if lines == [] then [] else LineEffects(lines[..|lines| - 1]) + [LineEffect(lines[|lines| - 1])]
  }

  lemma LineItemHasNoNewline(line: DiffLine)
    ensures '\n' !in LineItem(line)
  {
  }

  lemma {:induction false} LineItemsEffects(lines: seq<DiffLine>)
    ensures ItemEffects(LineItems(lines)) == LineEffects(lines)
  {
    if lines != [] {
      var init, last := lines[..|lines| - 1], lines[|lines| - 1];
      LineItemsEffects(init);
      LineItemHasNoNewline(last);
      ItemEffectOfOne(LineItem(last));
      ItemEffectsConcat(LineItems(init), [LineItem(last)]);
    }
  }

  lemma HunkHeaderDoesNothing(h: Hunk)
    ensures ItemEffects([HunkHeader(h)]) == [Nothing]
  {
    DigitsHaveNoNewline(h.oldStart);
    DigitsHaveNoNewline(h.oldCount);
    DigitsHaveNoNewline(h.newStart);
    DigitsHaveNoNewline(h.newCount);
    ItemEffectOfOne(HunkHeader(h));
    OtherStart(HunkHeader(h));
  }

  function HunksEffects(hunks: seq<Hunk>): seq<Effect> {
    if hunks == [] then []
    else HunksEffects(hunks[..|hunks| - 1]) + ([Nothing] + LineEffects(hunks[|hunks| - 1].lines))
  }

  lemma {:induction false} HunksItemsEffects(hunks: seq<Hunk>)
    ensures ItemEffects(HunksItems(hunks)) == HunksEffects(hunks)
  {
    if hunks != [] {
      var init, last := hunks[..|hunks| - 1], hunks[|hunks| - 1];
      HunksItemsEffects(init);
      ItemEffectsConcat(HunksItems(init), HunkItems(last));
      ItemEffectsConcat([HunkHeader(last)], LineItems(last.lines));
      HunkHeaderDoesNothing(last);
      LineItemsEffects(last.lines);
    }
  }

  /** The path a file's header line is read as. */
  function ReadPath(path: string): string {
    TrimB(StripCr("b/" + path))
  }

  function PathEffect(path: string): Effect {
    if ReadPath(path) == "/dev/null" then Nothing else OpensFile(ReadPath(path))
  }

  lemma HeaderLineEffect(path: string)
    ensures EffectOf(StripCr("+++ b/" + path)) == PathEffect(path)
  {
    var item := "+++ b/" + path;
    StripKeepsPrefix(item, "+++ ");
    assert item[..4] == "+++ ";
    assert item[4..] == "b/" + path;
    assert StripCr(item)[4..] == StripCr("b/" + path);
  }

  lemma OldPathLineDoesNothing(path: string)
    ensures EffectOf(StripCr("--- a/" + path)) == Nothing
  {
    var item := "--- a/" + path;
    StripKeepsPrefix(item, "---");
    assert item[..3] == "---";
    PrefixStart(StripCr(item), "+++ ");
    PrefixStart(StripCr(item), "---");
  }

  lemma FileHeaderEffects(path: string)
    requires '\n' !in path
    ensures ItemEffects(FileHeader(path)) == [Nothing, Nothing, PathEffect(path)]
  {
    var header := FileHeader(path);
    assert header == ([header[0]] + [header[1]]) + [header[2]];
    ItemEffectsConcat([header[0]] + [header[1]], [header[2]]);
    ItemEffectsConcat([header[0]], [header[1]]);
    ItemEffectOfOne(header[0]);
    ItemEffectOfOne(header[1]);
    ItemEffectOfOne(header[2]);
    OtherStart(header[0]);
    OldPathLineDoesNothing(path);
    HeaderLineEffect(path);
  }

  function FileEffects(f: FileReport): seq<Effect> {
    [Nothing, Nothing, PathEffect(f.path)] + HunksEffects(f.hunks) + [Nothing]
  }

  function FilesEffects(files: seq<FileReport>): seq<Effect> {
    if files == [] then [] else FilesEffects(files[..|files| - 1]) + FileEffects(files[|files| - 1])
  }

  lemma {:induction false} FilesItemsEffects(files: seq<FileReport>)
    requires forall f :: f in files ==> '\n' !in f.path
    ensures ItemEffects(FilesItems(files)) == FilesEffects(files)
  {
    if files != [] {
      var init, last := files[..|files| - 1], files[|files| - 1];
      FilesItemsEffects(init);
      ItemEffectsConcat(FilesItems(init), FileItems(last));
      ItemEffectsConcat(FileHeader(last.path) + HunksItems(last.hunks), [""]);
      ItemEffectsConcat(FileHeader(last.path), HunksItems(last.hunks));
      FileHeaderEffects(last.path);
      HunksItemsEffects(last.hunks);
      ItemEffectOfOne("");
      OtherStart("");
    }
  }

  // ----- from effects to counts -----

  function One(yes: bool): nat {
    if yes then 1 else 0
  }

  /** Files opened, and counting effects, among `effects`. */
  function Openings(effects: seq<Effect>): nat {
    if effects == [] then 0 else Openings(effects[..|effects| - 1]) + One(effects[|effects| - 1].OpensFile?)
  }

  function AddsIn(effects: seq<Effect>): nat {
    if effects == [] then 0 else AddsIn(effects[..|effects| - 1]) + One(effects[|effects| - 1].Adds?)
  }

  function RemovesIn(effects: seq<Effect>): nat {
    if effects == [] then 0 else RemovesIn(effects[..|effects| - 1]) + One(effects[|effects| - 1].Removes?)
  }

  function Weight(effects: seq<Effect>): nat {
    AddsIn(effects) + RemovesIn(effects)
  }

  function Total(files: seq<Counts>): nat {
    if files == [] then 0
    else Total(files[..|files| - 1]) + files[|files| - 1].added + files[|files| - 1].removed
  }

  lemma {:induction false} ApplyAllConcat(files: seq<Counts>, a: seq<Effect>, b: seq<Effect>)
    ensures ApplyAll(files, a + b) == ApplyAll(ApplyAll(files, a), b)
  {
    if b == [] {
      assert a + b == a;
    } else {
      assert (a + b)[..|a + b| - 1] == a + b[..|b| - 1];
      ApplyAllConcat(files, a, b[..|b| - 1]);
    }
  }

  lemma {:induction false} MeasuresConcat(a: seq<Effect>, b: seq<Effect>)
    ensures Openings(a + b) == Openings(a) + Openings(b)
    ensures AddsIn(a + b) == AddsIn(a) + AddsIn(b) && RemovesIn(a + b) == RemovesIn(a) + RemovesIn(b)
  {
    if b == [] {
      assert a + b == a;
    } else {
      assert (a + b)[..|a + b| - 1] == a + b[..|b| - 1];
      MeasuresConcat(a, b[..|b| - 1]);
    }
  }

  lemma {:induction false} ApplyAllMeasures(files: seq<Counts>, effects: seq<Effect>)
    ensures |ApplyAll(files, effects)| == |files| + Openings(effects)
    ensures Total(ApplyAll(files, effects)) <= Total(files) + Weight(effects)
  {
    if effects != [] {
      ApplyAllMeasures(files, effects[..|effects| - 1]);
    }
  }

  lemma {:induction false} HunksMeasures(hunks: seq<Hunk>)
    ensures Tally(HunksEffects(hunks), LinesOf(hunks))
  {
    if hunks != [] {
      var init, last := hunks[..|hunks| - 1], hunks[|hunks| - 1];
      HunksMeasures(init);
      LinesMeasures(last.lines);
      TallyConcat(HunksEffects(init), LinesOf(init), LineEffects(last.lines), last.lines);
    }
  }

  /** The effects count at most the lines claimed, and exactly them, opening nothing, when all are clean. */
  predicate Tally(effects: seq<Effect>, lines: seq<DiffLine>) {
    && AddsIn(effects) <= AddedIn(lines) && RemovesIn(effects) <= RemovedIn(lines)
    && (AddsIn(effects) == AddedIn(lines) && RemovesIn(effects) == RemovedIn(lines) <==> AllClean(lines))
    && (AllClean(lines) ==> Openings(effects) == 0)
  }

  lemma TallyConcat(e: seq<Effect>, lines: seq<DiffLine>, e': seq<Effect>, lines': seq<DiffLine>)
    requires Tally(e, lines) && Tally(e', lines')
    ensures Tally(e + ([Nothing] + e'), lines + lines')
  {
    AllCleanConcat(lines, lines');
    CountsConcat(lines, lines');
    MeasuresConcat([Nothing], e');
    MeasuresConcat(e, [Nothing] + e');
    assert [Nothing][..0] == [];
  }

  /** `forall line in lines`, by the last line. */
  predicate AllClean(lines: seq<DiffLine>) {
    lines == [] || (CleanLine(lines[|lines| - 1]) && AllClean(lines[..|lines| - 1]))
  }

  lemma {:induction false} AllCleanIs(lines: seq<DiffLine>)
    ensures AllClean(lines) <==> forall line :: line in lines ==> CleanLine(line)
  {
    if lines != [] {
      AllCleanIs(lines[..|lines| - 1]);
      assert lines == lines[..|lines| - 1] + [lines[|lines| - 1]];
    }
  }

  lemma {:induction false} AllCleanConcat(a: seq<DiffLine>, b: seq<DiffLine>)
    ensures AllClean(a + b) <==> AllClean(a) && AllClean(b)
  {
    if b == [] {
      assert a + b == a;
    } else {
      assert (a + b)[..|a + b| - 1] == a + b[..|b| - 1];
      AllCleanConcat(a, b[..|b| - 1]);
    }
  }

  lemma {:induction false} LinesMeasures(lines: seq<DiffLine>)
    ensures Tally(LineEffects(lines), lines)
  {
    if lines != [] {
      LinesMeasures(lines[..|lines| - 1]);
      LineEffectIs(lines[|lines| - 1]);
    }
  }

  // ----- what one file reads back as -----

  function Bump(files: seq<Counts>, added: nat, removed: nat): seq<Counts>
    requires files != []
  {
    var last := files[|files| - 1];
    files[|files| - 1 := last.(added := last.added + added, removed := last.removed + removed)]
  }

  lemma {:induction false} EffectsBump(files: seq<Counts>, effects: seq<Effect>)
    requires files != [] && Openings(effects) == 0
    ensures ApplyAll(files, effects) == Bump(files, AddsIn(effects), RemovesIn(effects))
  {
    if effects != [] {
      EffectsBump(files, effects[..|effects| - 1]);
    }
  }

  lemma ApplyNothing(files: seq<Counts>)
    ensures ApplyAll(files, [Nothing]) == files
  {
    assert [Nothing][..0] == [];
  }

  /** What is read back for one file with clean lines and an openable path. */
  function ReadCounts(f: FileReport): Counts {
    Counts(ReadPath(f.path), AddedIn(LinesOf(f.hunks)), RemovedIn(LinesOf(f.hunks)))
  }

  lemma FileHeaderApplies(files: seq<Counts>, e: Effect)
    ensures ApplyAll(files, [Nothing, Nothing, e]) == Apply(files, e)
  {
    var effects := [Nothing, Nothing, e];
    assert effects[..2] == [Nothing, Nothing] && [Nothing, Nothing][..1] == [Nothing];
    ApplyNothing(files);
  }

  lemma FileReadsBack(files: seq<Counts>, f: FileReport)
    requires PathEffect(f.path).OpensFile? && AllClean(LinesOf(f.hunks))
    ensures ApplyAll(files, FileEffects(f)) == files + [ReadCounts(f)]
  {
    HunksMeasures(f.hunks);
    OpenedFileReadsBack(files, PathEffect(f.path), HunksEffects(f.hunks));
  }

  lemma OpenedFileReadsBack(files: seq<Counts>, open: Effect, body: seq<Effect>)
    requires open.OpensFile? && Openings(body) == 0
    ensures ApplyAll(files, [Nothing, Nothing, open] + body + [Nothing])
         == files + [Counts(open.path, AddsIn(body), RemovesIn(body))]
  {
    var header := [Nothing, Nothing, open];
    var begun := files + [Counts(open.path, 0, 0)];
    ApplyAllConcat(files, header + body, [Nothing]);
    ApplyAllConcat(files, header, body);
    FileHeaderApplies(files, open);
    EffectsBump(begun, body);
    ApplyNothing(ApplyAll(begun, body));
  }

  function ReadAll(files: seq<FileReport>): seq<Counts> {
    if files == [] then [] else ReadAll(files[..|files| - 1]) + [ReadCounts(files[|files| - 1])]
  }

  lemma {:induction false} FilesReadBack(start: seq<Counts>, files: seq<FileReport>)
    requires forall f :: f in files ==> PathEffect(f.path).OpensFile? && AllClean(LinesOf(f.hunks))
    ensures ApplyAll(start, FilesEffects(files)) == start + ReadAll(files)
  {
    if files != [] {
      var init, last := files[..|files| - 1], files[|files| - 1];
      FilesReadBack(start, init);
      ApplyAllConcat(start, FilesEffects(init), FileEffects(last));
      FileReadsBack(start + ReadAll(init), last);
    }
  }

  predicate AllLinesClean(files: seq<FileReport>) {
    files == [] || (AllClean(LinesOf(files[|files| - 1].hunks)) && AllLinesClean(files[..|files| - 1]))
  }

  predicate AllOpen(files: seq<FileReport>) {
    files == [] || (PathEffect(files[|files| - 1].path).OpensFile? && AllOpen(files[..|files| - 1]))
  }

  predicate CleanFile(f: FileReport) {
    AllClean(LinesOf(f.hunks))
  }

  predicate OpenFile(f: FileReport) {
    PathEffect(f.path).OpensFile?
  }

  lemma FilesOf(files: seq<FileReport>)
    requires files != []
    ensures forall f :: f in files <==> f in files[..|files| - 1] || f == files[|files| - 1]
  {
    assert files == files[..|files| - 1] + [files[|files| - 1]];
  }

  lemma {:induction false} AllLinesCleanIs(files: seq<FileReport>)
    ensures AllLinesClean(files) <==> forall f :: f in files ==> CleanFile(f)
  {
    if files != [] {
      AllLinesCleanIs(files[..|files| - 1]);
      FilesOf(files);
      assert CleanFile(files[|files| - 1]) == AllClean(LinesOf(files[|files| - 1].hunks));
    }
  }

  lemma {:induction false} AllOpenIs(files: seq<FileReport>)
    ensures AllOpen(files) <==> forall f :: f in files ==> OpenFile(f)
  {
    if files != [] {
      AllOpenIs(files[..|files| - 1]);
      FilesOf(files);
      assert OpenFile(files[|files| - 1]) == PathEffect(files[|files| - 1].path).OpensFile?;
    }
  }

  lemma AllFilesAre(files: seq<FileReport>)
    ensures AllLinesClean(files) <==> forall f :: f in files ==> AllClean(LinesOf(f.hunks))
    ensures AllOpen(files) <==> forall f :: f in files ==> PathEffect(f.path).OpensFile?
  {
    AllLinesCleanIs(files);
    AllOpenIs(files);
    assert forall f :: CleanFile(f) <==> AllClean(LinesOf(f.hunks));
    assert forall f :: OpenFile(f) <==> PathEffect(f.path).OpensFile?;
  }

  /** Over all files: at most the claimed weight, reached only by clean lines; then at most one opening each. */
  lemma {:induction false} FilesMeasures(files: seq<FileReport>)
    requires Accurate(files)
    ensures Weight(FilesEffects(files)) <= Total(Claimed(files)) && |Claimed(files)| == |files|
    ensures Weight(FilesEffects(files)) == Total(Claimed(files)) ==> AllLinesClean(files)
    ensures AllLinesClean(files) ==> Openings(FilesEffects(files)) <= |files|
    ensures AllLinesClean(files) && Openings(FilesEffects(files)) == |files| ==> AllOpen(files)
  {
    if files != [] {
      var init, last := files[..|files| - 1], files[|files| - 1];
      FilesMeasures(init);
      MeasuresConcat(FilesEffects(init), FileEffects(last));
      HunksMeasures(last.hunks);
      FileMeasures(PathEffect(last.path), HunksEffects(last.hunks));
    }
  }

  lemma FileMeasures(open: Effect, body: seq<Effect>)
    requires !open.Adds? && !open.Removes?
    ensures var e := [Nothing, Nothing, open] + body + [Nothing];
      Weight(e) == Weight(body) && Openings(e) == One(open.OpensFile?) + Openings(body)
  {
    var header := [Nothing, Nothing, open];
    MeasuresConcat(header + body, [Nothing]);
    MeasuresConcat(header, body);
    assert [Nothing][..0] == [];
    assert header[..2] == [Nothing, Nothing] && [Nothing, Nothing][..1] == [Nothing];
  }

  // ----- main results -----

  /** What the counter returns for the printed report. */
  function ReadReport(r: Report): seq<Counts> {
    CountLines([], Lines(Render(r)))
  }

  function HeaderEffects(r: Report): seq<Effect> {
    ItemEffects(ReportHeader(r))
  }

  lemma ReadReportIs(r: Report)
    ensures ReadReport(r) == ApplyAll(ApplyAll([], HeaderEffects(r)), ItemEffects(FilesItems(r.files)))
  {
    var items := ReportHeader(r) + FilesItems(r.files);
    LinesOfUnlines(items);
    CountingAppliesEffects([], AllItemLines(items));
    ItemEffectsAre(items);
    ItemEffectsConcat(ReportHeader(r), FilesItems(r.files));
    ApplyAllConcat([], HeaderEffects(r), ItemEffects(FilesItems(r.files)));
  }

  lemma {:induction false} OpeningsAmong(lines: seq<string>)
    ensures Openings(Effects(lines)) == 0 <==> forall line :: line in lines ==> !EffectOf(line).OpensFile?
  {
    if lines != [] {
      OpeningsAmong(lines[..|lines| - 1]);
      assert lines == lines[..|lines| - 1] + [lines[|lines| - 1]];
    }
  }

  lemma QuietItem(item: string)
    requires '\n' !in item && (item == "" || (item[0] != '+' && item[0] != '-'))
    ensures ItemEffects([item]) == [Nothing]
  {
    ItemEffectOfOne(item);
    OtherStart(item);
  }

  lemma OneEffect(e: Effect)
    ensures Openings([e]) == One(e.OpensFile?)
  {
    assert [e][..0] == [];
  }

  lemma HeaderOpenings(r: Report)
    ensures Openings(HeaderEffects(r)) == Openings(Effects(ItemLines("goal: " + r.goal)))
  {
    TotalsAreQuiet(r);
    TaskIsQuiet(r);
    OneOtherItem(ReportHeader(r), 2);
  }

  predicate Quiet(item: string) {
    '\n' !in item && (item == "" || (item[0] != '+' && item[0] != '-'))
  }

  lemma OpeningsOfTwo(a: seq<string>, b: seq<string>)
    ensures Openings(ItemEffects(a + b)) == Openings(ItemEffects(a)) + Openings(ItemEffects(b))
  {
    ItemEffectsConcat(a, b);
    MeasuresConcat(ItemEffects(a), ItemEffects(b));
  }

  lemma QuietAfter(rest: seq<string>, item: string)
    requires Quiet(item)
    ensures Openings(ItemEffects(rest + [item])) == Openings(ItemEffects(rest))
  {
    QuietItem(item);
    OneEffect(Nothing);
    OpeningsOfTwo(rest, [item]);
  }

  lemma {:induction false} QuietItemsOpenNothing(items: seq<string>)
    requires forall item :: item in items ==> Quiet(item)
    ensures Openings(ItemEffects(items)) == 0
  {
    if items != [] {
      var init, last := items[..|items| - 1], items[|items| - 1];
      QuietItemsOpenNothing(init);
      QuietAfter(init, last);
      assert items == init + [last];
    }
  }

  predicate QuietBut(items: seq<string>, k: nat) {
    forall i :: 0 <= i < |items| && i != k ==> Quiet(items[i])
  }

  lemma QuietButLast(items: seq<string>, k: nat)
    requires items != [] && k < |items| && QuietBut(items, k)
    ensures k < |items| - 1 ==> QuietBut(items[..|items| - 1], k) && Quiet(items[|items| - 1])
    ensures k == |items| - 1 ==> forall item :: item in items[..|items| - 1] ==> Quiet(item)
  {
  }

  /** Among quiet items only the other one can open a file. */
  lemma {:induction false} OneOtherItem(items: seq<string>, k: nat)
    requires k < |items| && QuietBut(items, k)
    ensures Openings(ItemEffects(items)) == Openings(Effects(ItemLines(items[k])))
  {
    var init, last := items[..|items| - 1], items[|items| - 1];
    assert items == init + [last];
    QuietButLast(items, k);
    if k < |items| - 1 {
      OneOtherItem(init, k);
      QuietAfter(init, last);
    } else {
      QuietItemsOpenNothing(init);
      OpeningsOfTwo(init, [last]);
      GoalEffects(last);
    }
  }

  lemma TaskIsQuiet(r: Report)
    ensures Quiet(ReportHeader(r)[0]) && Quiet(ReportHeader(r)[1])
  {
    assert "task: "[0] == 't';
  }

  lemma TotalsAreQuiet(r: Report)
    ensures Quiet(ReportHeader(r)[3])
  {
    DigitsHaveNoNewline(|r.files|);
    DigitsHaveNoNewline(r.totalAdded);
    DigitsHaveNoNewline(r.totalRemoved);
  }

  lemma GoalEffects(goal: string)
    ensures ItemEffects([goal]) == Effects(ItemLines(goal))
  {
    assert [goal][..0] == [];
  }

  lemma QuietGoalOpensNothing(r: Report)
    ensures QuietGoal(r.goal) <==> ApplyAll([], HeaderEffects(r)) == []
  {
    HeaderOpenings(r);
    OpeningsAmong(ItemLines("goal: " + r.goal));
    ApplyAllMeasures([], HeaderEffects(r));
  }

  lemma CleanPathReadsBack(path: string)
    requires '\n' !in path
    ensures CleanPath(path) <==> ReadPath(path) == path && ReadPath(path) != "/dev/null"
  {
    var item := "b/" + path;
    assert item[..2] == "b/" && item[2..] == path;
    if path != "" && path[|path| - 1] == '\r' {
      assert StripCr(item) == "b/" + path[..|path| - 1];
      assert StripCr(item)[..2] == "b/" && StripCr(item)[2..] == path[..|path| - 1];
      TrimBShrinks(path[..|path| - 1]);
    } else {
      assert StripCr(item) == item;
      TrimBShrinks(path);
    }
  }

  lemma {:induction false} TrimBShrinks(path: string)
    ensures |TrimB(path)| <= |path|
    ensures TrimB(path) == path <==> !HasPrefix(path, "b/")
    ensures forall c :: c in TrimB(path) ==> c in path
    decreases |path|
  {
    if HasPrefix(path, "b/") {
      TrimBShrinks(path[2..]);
    }
  }

  lemma {:induction false} LinesHaveNoNewline(s: string)
    ensures forall line :: line in Lines(s) ==> '\n' !in line
    decreases |s|
  {
    var i := FirstNewline(s);
    assert s[..i] == s || i < |s|;
    if i < |s| {
      LinesHaveNoNewline(s[i + 1..]);
    }
  }

  lemma {:induction false} CountedPathsHaveNoNewline(lines: seq<string>)
    requires forall line :: line in lines ==> '\n' !in line
    ensures forall c :: c in CountLines([], lines) ==> '\n' !in c.path
  {
    if lines != [] {
      var init, last := lines[..|lines| - 1], lines[|lines| - 1];
      assert forall line :: line in init ==> line in lines;
      CountedPathsHaveNoNewline(init);
      assert last in lines;
      if IsHeader(last) {
        TrimBShrinks(last[4..]);
      }
      ApplyKeepsPaths(CountLines([], init), EffectOf(last));
    }
  }

  lemma ApplyKeepsPaths(files: seq<Counts>, e: Effect)
    requires forall c :: c in files ==> '\n' !in c.path
    requires e.OpensFile? ==> '\n' !in e.path
    ensures forall c :: c in Apply(files, e) ==> '\n' !in c.path
  {
  }

  lemma {:induction false} ClaimedPaths(files: seq<FileReport>, f: FileReport)
    requires f in files
    ensures Counts(f.path, f.added, f.removed) in Claimed(files)
  {
    if files[|files| - 1] != f {
      ClaimedPaths(files[..|files| - 1], f);
    }
  }

  lemma {:induction false} ReadAllIsClaimed(files: seq<FileReport>)
    requires Accurate(files)
    ensures ReadAll(files) == Claimed(files) <==> forall f :: f in files ==> ReadPath(f.path) == f.path
  {
    if files != [] {
      var init, last := files[..|files| - 1], files[|files| - 1];
      ReadAllIsClaimed(init);
      assert files == init + [last];
      var a, b := ReadAll(init) + [ReadCounts(last)], Claimed(init) + [Counts(last.path, last.added, last.removed)];
      if a == b {
        assert a[|a| - 1] == b[|b| - 1] && a[..|a| - 1] == b[..|b| - 1];
        assert a[..|a| - 1] == ReadAll(init) && b[..|b| - 1] == Claimed(init);
      }
    }
  }

  lemma CleanFilesReadBack(start: seq<Counts>, files: seq<FileReport>)
    requires Accurate(files) && CleanFiles(files)
    ensures ApplyAll(start, ItemEffects(FilesItems(files))) == start + Claimed(files)
  {
    forall f | f in files
      ensures '\n' !in f.path && PathEffect(f.path).OpensFile? && AllClean(LinesOf(f.hunks))
        && ReadPath(f.path) == f.path
    {
      CleanPathReadsBack(f.path);
      AllCleanIs(LinesOf(f.hunks));
    }
    FilesItemsEffects(files);
    FilesReadBack(start, files);
    ReadAllIsClaimed(files);
  }

  /** For a goal that opens no file, the printed diff reads back as the report's own counts
      exactly when every path and every changed line is clean. */
  lemma QuietGoalReadsBackExactly(r: Report)
    requires Accurate(r.files) && QuietGoal(r.goal)
    ensures ReadReport(r) == Claimed(r.files) <==> CleanFiles(r.files)
  {
    ReadReportIs(r);
    QuietGoalOpensNothing(r);
    if CleanFiles(r.files) {
      CleanFilesReadBack([], r.files);
    }
    if ReadReport(r) == Claimed(r.files) {
      ReadBackImpliesClean(r);
    }
  }

  lemma ReadBackImpliesClean(r: Report)
    requires Accurate(r.files) && QuietGoal(r.goal) && ReadReport(r) == Claimed(r.files)
    ensures CleanFiles(r.files)
  {
    LinesHaveNoNewline(Render(r));
    CountedPathsHaveNoNewline(Lines(Render(r)));
    forall f | f in r.files ensures '\n' !in f.path {
      ClaimedPaths(r.files, f);
    }
    ReadReportIs(r);
    QuietGoalOpensNothing(r);
    FilesItemsEffects(r.files);
    ApplyAllMeasures([], FilesEffects(r.files));
    FilesMeasures(r.files);
    AllFilesAre(r.files);
    FilesReadBack([], r.files);
    ReadAllIsClaimed(r.files);
    forall f | f in r.files ensures CleanPath(f.path) && forall line :: line in LinesOf(f.hunks) ==> CleanLine(line) {
      CleanPathReadsBack(f.path);
      AllCleanIs(LinesOf(f.hunks));
    }
  }

  /** For clean files, it does so exactly when no line of the goal opens a file. */
  lemma GoalReadsBackExactly(r: Report)
    requires Accurate(r.files) && CleanFiles(r.files)
    ensures ReadReport(r) == Claimed(r.files) <==> QuietGoal(r.goal)
  {
    ReadReportIs(r);
    QuietGoalOpensNothing(r);
    var start := ApplyAll([], HeaderEffects(r));
    CleanFilesReadBack(start, r.files);
    assert start + Claimed(r.files) == Claimed(r.files) ==> |start| == 0;
    assert [] + Claimed(r.files) == Claimed(r.files);
  }

  /** A goal of one line opens no file, whatever it says. */
  lemma OneLineGoalIsQuiet(goal: string)
    requires '\n' !in goal
    ensures QuietGoal(goal)
  {
    var item := "goal: " + goal;
    ItemLinesOfOne(item);
    assert item[0] == 'g';
    OtherStart(item);
  }

  ghost predicate CleanPaths(files: seq<FileReport>) {
    forall f :: f in files ==> CleanPath(f.path)
  }

  lemma {:induction false} EveryPathOpens(files: seq<FileReport>)
    requires CleanPaths(files)
    ensures Openings(FilesEffects(files)) >= |files|
  {
    if files != [] {
      var init, last := files[..|files| - 1], files[|files| - 1];
      FilesOf(files);
      EveryPathOpens(init);
      MeasuresConcat(FilesEffects(init), FileEffects(last));
      FileMeasures(PathEffect(last.path), HunksEffects(last.hunks));
      CleanPathReadsBack(last.path);
    }
  }

  /** With clean paths a goal that opens a file leaves one file too many. */
  lemma ReadBackImpliesQuiet(r: Report)
    requires CleanPaths(r.files) && ReadReport(r) == Claimed(r.files)
    ensures QuietGoal(r.goal)
  {
    ReadReportIs(r);
    FilesItemsEffects(r.files);
    ApplyAllMeasures(ApplyAll([], HeaderEffects(r)), FilesEffects(r.files));
    EveryPathOpens(r.files);
    ClaimedLength(r.files);
    QuietGoalOpensNothing(r);
  }

  lemma {:induction false} ClaimedLength(files: seq<FileReport>)
    ensures |Claimed(files)| == |files|
  {
    if files != [] {
      ClaimedLength(files[..|files| - 1]);
    }
  }

  /** For every report: a quiet goal, clean paths and clean lines are enough. */
  lemma DiffReadsBack(r: Report)
    requires Accurate(r.files) && QuietGoal(r.goal) && CleanFiles(r.files)
    ensures ReadReport(r) == Claimed(r.files)
  {
    QuietGoalReadsBackExactly(r);
  }

  /** They are also needed, for every goal of one line and for every goal over clean paths. */
  lemma DiffReadsBackExactly(r: Report)
    requires Accurate(r.files) && ('\n' !in r.goal || CleanPaths(r.files))
    ensures ReadReport(r) == Claimed(r.files) <==> QuietGoal(r.goal) && CleanFiles(r.files)
  {
    if '\n' !in r.goal {
      OneLineGoalIsQuiet(r.goal);
    } else if ReadReport(r) == Claimed(r.files) {
      ReadBackImpliesQuiet(r);
    }
    if QuietGoal(r.goal) {
      QuietGoalReadsBackExactly(r);
    }
  }

  lemma QuietItemApplies(files: seq<Counts>, before: seq<string>, item: string)
    requires Quiet(item)
    ensures ApplyAll(files, ItemEffects(before + [item])) == ApplyAll(files, ItemEffects(before))
  {
    QuietItem(item);
    ItemEffectsConcat(before, [item]);
    ApplyAllConcat(files, ItemEffects(before), [Nothing]);
    ApplyNothing(ApplyAll(files, ItemEffects(before)));
  }

  lemma {:induction false} QuietItemsApply(files: seq<Counts>, items: seq<string>)
    requires forall item :: item in items ==> Quiet(item)
    ensures ApplyAll(files, ItemEffects(items)) == files
  {
    if items != [] {
      var init, last := items[..|items| - 1], items[|items| - 1];
      assert items == init + [last];
      QuietItemsApply(files, init);
      QuietItemApplies(files, init, last);
    }
  }

  /** Among quiet items only the other one does anything. */
  lemma {:induction false} OneOtherItemApplies(files: seq<Counts>, items: seq<string>, k: nat)
    requires k < |items| && QuietBut(items, k)
    ensures ApplyAll(files, ItemEffects(items)) == ApplyAll(files, Effects(ItemLines(items[k])))
  {
    var init, last := items[..|items| - 1], items[|items| - 1];
    assert items == init + [last];
    QuietButLast(items, k);
    if k < |items| - 1 {
      OneOtherItemApplies(files, init, k);
      QuietItemApplies(files, init, last);
    } else {
      QuietItemsApply(files, init);
      ItemEffectsConcat(init, [last]);
      GoalEffects(last);
      ApplyAllConcat(files, ItemEffects(init), ItemEffects([last]));
    }
  }

  /** Two lines: the label's, and one that loses a carriage return. */
  lemma TwoLines(first: string, second: string)
    requires '\n' !in first && '\n' !in second && StripCr(first) == first
    ensures ItemLines(first + "\n" + (second + "\r")) == [first] + [second]
  {
    var longer := second + "\r";
    FirstLine(first, longer + "\n");
    ItemLinesOfOne(longer);
    assert StripCr(longer) == second;
    assert first + "\n" + longer + "\n" == first + "\n" + (longer + "\n");
  }

  lemma TwoEffects(first: string, second: string)
    ensures Effects([first] + [second]) == [EffectOf(first)] + [EffectOf(second)]
  {
    EffectsConcat([first], [second]);
    EffectsOfOne(first);
    EffectsOfOne(second);
  }

  lemma NamedFileOpens(path: string)
    requires path != "" && path[0] == '/' && path != "/dev/null"
    ensures EffectOf("+++ " + path) == OpensFile(path)
  {
    var line := "+++ " + path;
    assert line[..4] == "+++ " && line[4..] == path;
    assert !HasPrefix(path, "b/") by {
      assert "b/"[0] == 'b';
    }
  }

  /** `/dev/null` with a carriage return is printed as a header that opens nothing. */
  lemma NullWithReturnOpensNothing(path: string)
    requires path == "/dev/null" + "\r"
    ensures PathEffect(path) == Nothing
  {
    var printed := "b/" + "/dev/null";
    assert "b/" + path == printed + "\r";
    assert StripCr(printed + "\r") == printed;
    assert "b/" + path == printed + "\r" && printed[..2] == "b/" && printed[2..] == "/dev/null";
    assert !HasPrefix("/dev/null", "b/") by {
      assert "/dev/null"[0] == '/' && "b/"[0] == 'b';
    }
    assert TrimB("/dev/null") == "/dev/null";
    assert TrimB(printed) == TrimB(printed[2..]);
  }

  /** A file without hunks whose header opens nothing changes nothing. */
  lemma EmptyFileApplies(start: seq<Counts>, f: FileReport)
    requires f.hunks == [] && PathEffect(f.path) == Nothing
    ensures ApplyAll(start, FilesEffects([f])) == start
  {
    var effects := [Nothing, Nothing, Nothing];
    assert [f][..0] == [] && FilesEffects([f]) == FileEffects(f) == effects + [Nothing];
    ApplyAllConcat(start, effects, [Nothing]);
    FileHeaderApplies(start, Nothing);
    ApplyNothing(start);
  }

  lemma LabelLine(second: string)
    ensures "goal: " + ("g" + "\n" + (second + "\r")) == "goal: g" + "\n" + (second + "\r")
    ensures Quiet("goal: g") && StripCr("goal: g") == "goal: g" && EffectOf("goal: g") == Nothing
  {
    var first := "goal: g";
    assert "goal: " + "g" == first && first[0] == 'g' && first[6] == 'g';
    OtherStart(first);
  }

  /** The header of a report whose goal has a quiet line and one that names a file. */
  lemma GoalNamesFile(r: Report, second: string, path: string)
    requires r.goal == "g" + "\n" + (second + "\r") && '\n' !in second && EffectOf(second) == OpensFile(path)
    ensures !QuietGoal(r.goal) && ApplyAll([], HeaderEffects(r)) == [Counts(path, 0, 0)]
  {
    var first := "goal: g";
    LabelLine(second);
    TwoLines(first, second);
    TwoEffects(first, second);
    GoalLinesDo(r, first, second, path);
  }

  lemma GoalLinesDo(r: Report, first: string, second: string, path: string)
    requires ItemLines("goal: " + r.goal) == [first] + [second]
    requires EffectOf(second) == OpensFile(path) && Effects([first] + [second]) == [Nothing] + [OpensFile(path)]
    ensures !QuietGoal(r.goal) && ApplyAll([], HeaderEffects(r)) == [Counts(path, 0, 0)]
  {
    assert ([first] + [second])[1] == second;
    TotalsAreQuiet(r);
    TaskIsQuiet(r);
    OneOtherItemApplies([], ReportHeader(r), 2);
    ApplyTwo(OpensFile(path));
  }

  lemma ApplyTwo(e: Effect)
    ensures ApplyAll([], [Nothing] + [e]) == Apply([], e)
  {
    ApplyAllConcat([], [Nothing], [e]);
    ApplyNothing([]);
    assert [e][..0] == [];
  }

  lemma EmptyFileReadsBack(f: FileReport)
    requires f.hunks == [] && f.added == 0 && f.removed == 0 && PathEffect(f.path) == Nothing
    ensures ApplyAll([Counts(f.path, 0, 0)], FilesEffects([f])) == Claimed([f])
  {
    EmptyFileApplies([Counts(f.path, 0, 0)], f);
    assert [f][..0] == [] && Claimed([f]) == [Counts(f.path, 0, 0)];
  }

  function NullPath(): string {
    "/dev/null" + "\r"
  }

  /** The goal's second line, before it loses its own carriage return. */
  function NullGoal(): string {
    "g" + "\n" + (("+++ " + NullPath()) + "\r")
  }

  lemma NullPathIs()
    ensures NullPath() != "" && NullPath()[0] == '/' && NullPath() != "/dev/null" && '\n' !in NullPath()
    ensures '\n' !in "+++ " + NullPath()
    ensures !CleanPath(NullPath())
  {
    assert NullPath()[9] == '\r' && |NullPath()| == 10;
  }

  /** Outside that domain two faults can make up for each other: a goal line names the file that
      its own header, read as `/dev/null`, fails to open. */
  lemma FaultsCanCancel(r: Report)
    requires r.goal == NullGoal() && r.files == [FileReport(NullPath(), 0, 0, [])]
    ensures Accurate(r.files) && !QuietGoal(r.goal) && !CleanFiles(r.files) && ReadReport(r) == Claimed(r.files)
  {
    var f := FileReport(NullPath(), 0, 0, []);
    NullPathIs();
    NullWithReturnOpensNothing(NullPath());
    NamedFileOpens(NullPath());
    GoalNamesFile(r, "+++ " + NullPath(), NullPath());
    EmptyFileReadsBack(f);
    FilesItemsEffects([f]);
    ReadReportIs(r);
    assert f in r.files;
  }
}
