// A reader of the printed diff that is written from the unified format, not
// from the printer, and the reports that come back from it.

module DiffReader {
  import opened Wrappers
  import opened Text
  import opened DiffModel
  import opened UnifiedDiff

  datatype ShownHunk = ShownHunk(oldStart: nat, oldCount: nat, newStart: nat, newCount: nat, lines: seq<DiffLine>)
  datatype ShownFile = ShownFile(path: LineText, hunks: seq<ShownHunk>)
  datatype ShownReport = ShownReport(
    taskId: LineText, goal: LineText, fileCount: nat, added: nat, removed: nat, files: seq<ShownFile>)

  // ----- the reader -----

  /** The text cut at its line feeds. */
  function Rows(text: string): seq<LineText>
    decreases |text|
  {
    var i := FirstNewline(text);
    if i == |text| then (if text == "" then [] else [text]) else [text[..i]] + Rows(text[i + 1..])
  }

  predicate IsDigit(c: char) {
    '0' <= c <= '9'
  }

  function DigitsAtStart(s: string): (n: nat)
    ensures n <= |s|
  {
    if s == "" || !IsDigit(s[0]) then 0 else 1 + DigitsAtStart(s[1..])
  }

  /** A decimal number, most significant digit first. */
  function Value(digits: string): nat
    requires forall c :: c in digits ==> IsDigit(c)
  {
    if digits == "" then 0
    else
      var last := digits[|digits| - 1];
      assert last in digits && IsDigit(last);
      10 * Value(digits[..|digits| - 1]) + (last as int - '0' as int)
  }

  lemma {:induction false} DigitsAreDigits(s: string)
    ensures forall c :: c in s[..DigitsAtStart(s)] ==> IsDigit(c)
  {
    if s != "" && IsDigit(s[0]) {
      DigitsAreDigits(s[1..]);
      var n := DigitsAtStart(s);
      assert s[..n] == [s[0]] + s[1..][..n - 1];
    }
  }

  /** The number after `prefix`, and what follows it. */
  function NumberAfter(s: string, prefix: string): Option<(nat, string)> {
    if !HasPrefix(s, prefix) then None
    else
      var rest := s[|prefix|..];
      var n := DigitsAtStart(rest);
      DigitsAreDigits(rest);
      if n == 0 then None else Some((Value(rest[..n]), rest[n..]))
  }

  /** `@@ -oldStart,oldCount +newStart,newCount @@` */
  function ReadRanges(line: string): Option<ShownHunk> {
    var a := NumberAfter(line, "@@ -");
    if a.None? then None
    else
      var b := NumberAfter(a.value.1, ",");
      if b.None? then None
      else
        var c := NumberAfter(b.value.1, " +");
        if c.None? then None
        else
          var d := NumberAfter(c.value.1, ",");
          if d.None? || d.value.1 != " @@" then None
          else Some(ShownHunk(a.value.0, b.value.0, c.value.0, d.value.0, []))
  }

  /** A line of a hunk, by its first character. */
  function ReadLine(line: LineText): Option<DiffLine> {
    if line == "" then None
    else if line[0] == ' ' then Some(Context(line[1..]))
    else if line[0] == '+' then Some(Added(line[1..]))
    else if line[0] == '-' then Some(Removed(line[1..]))
    else None
  }

  /** The lines of one hunk, and the rows after them. */
  function ReadLines(rows: seq<LineText>): (r: (seq<DiffLine>, seq<LineText>))
    ensures |r.1| <= |rows|
  {
    if rows == [] || ReadLine(rows[0]).None? then ([], rows)
    else
      var (lines, rest) := ReadLines(rows[1..]);
      ([ReadLine(rows[0]).value] + lines, rest)
  }

  /** The hunks of one file up to its empty row. */
  function ReadHunks(rows: seq<LineText>): (r: Option<(seq<ShownHunk>, seq<LineText>)>)
    ensures r.Some? ==> |r.value.1| < |rows|
    decreases |rows|
  {
    if rows == [] then None
    else if rows[0] == "" then Some(([], rows[1..]))
    else
      var ranges := ReadRanges(rows[0]);
      if ranges.None? then None
      else
        var (lines, after) := ReadLines(rows[1..]);
        var more := ReadHunks(after);
        if more.None? then None
        else Some(([ranges.value.(lines := lines)] + more.value.0, more.value.1))
  }

  function ReadFile(rows: seq<LineText>): (r: Option<(ShownFile, seq<LineText>)>)
    ensures r.Some? ==> |r.value.1| < |rows|
  {
    if |rows| < 3 || !HasPrefix(rows[1], "--- a/") then None
    else
      var path := rows[1][6..];
      if rows[0] != "diff --git a/" + path + " b/" + path || rows[2] != "+++ b/" + path then None
      else
        var hunks := ReadHunks(rows[3..]);
        if hunks.None? then None else Some((ShownFile(path, hunks.value.0), hunks.value.1))
  }

  function ReadFiles(rows: seq<LineText>): Option<seq<ShownFile>>
    decreases |rows|
  {
    if rows == [] then Some([])
    else
      var first := ReadFile(rows);
      if first.None? then None
      else
        var rest := ReadFiles(first.value.1);
        if rest.None? then None else Some([first.value.0] + rest.value)
  }

  /** `files: n  +added -removed` */
  function ReadTotals(line: string): Option<(nat, nat, nat)> {
    var n := NumberAfter(line, "files: ");
    if n.None? then None
    else
      var a := NumberAfter(n.value.1, "  +");
      if a.None? then None
      else
        var r := NumberAfter(a.value.1, " -");
        if r.None? || r.value.1 != "" then None else Some((n.value.0, a.value.0, r.value.0))
  }

  function ReadDiff(text: string): Option<ShownReport> {
    var rows := Rows(text);
    if |rows| < 5 || rows[0] != "Phonton diff" || rows[4] != "" then None
    else if !HasPrefix(rows[1], "task: ") || !HasPrefix(rows[2], "goal: ") then None
    else
      var totals, files := ReadTotals(rows[3]), ReadFiles(rows[5..]);
      if totals.None? || files.None? then None
      else Some(ShownReport(rows[1][6..], rows[2][6..],
                            totals.value.0, totals.value.1, totals.value.2, files.value))
  }

  // ----- what comes back -----

  ghost predicate ShowsHunks(shown: seq<ShownHunk>, hunks: seq<Hunk>) {
    |shown| == |hunks| && forall i :: 0 <= i < |hunks| ==> ShowsHunk(shown[i], hunks[i])
  }

  predicate ShowsHunk(shown: ShownHunk, h: Hunk) {
    && shown.oldStart == h.oldStart && shown.oldCount == h.oldCount
    && shown.newStart == h.newStart && shown.newCount == h.newCount
    && shown.lines == h.lines
  }

  ghost predicate ShowsFile(shown: ShownFile, f: FileReport) {
    shown.path == f.path && ShowsHunks(shown.hunks, f.hunks)
  }

  ghost predicate ShowsFiles(shown: seq<ShownFile>, files: seq<FileReport>) {
    |shown| == |files| && forall i :: 0 <= i < |files| ==> ShowsFile(shown[i], files[i])
  }

  /** The reader found everything the report says, apart from the counts of single files, which are not printed. */
  ghost predicate Shows(read: Option<ShownReport>, r: Report) {
    read.Some? && var s := read.value;
    && s.taskId == r.taskId && s.goal == r.goal
    && s.fileCount == |r.files| && s.added == r.totalAdded && s.removed == r.totalRemoved
    && ShowsFiles(s.files, r.files)
  }

  // ----- rows -----

  lemma RowsOfOne(row: LineText, text: string)
    ensures Rows(row + "\n" + text) == [row] + Rows(text)
  {
    var s := row + "\n" + text;
    FirstNewlineAfter(row, text);
    assert s[..|row|] == row && s[|row| + 1..] == text;
  }

  lemma {:induction false} RowsOfUnlines(rows: seq<LineText>)
    ensures Rows(Unlines(rows)) == rows
  {
    if rows != [] {
      var first, rest := rows[0], rows[1..];
      assert rows == [first] + rest;
      UnlinesConcat([first], rest);
      UnlinesOne(first);
      RowsOfOne(first, Unlines(rest));
      RowsOfUnlines(rest);
    }
  }

  // ----- numbers -----

  lemma {:induction false} DigitsValue(n: nat)
    ensures Digits(n) != "" && (forall c :: c in Digits(n) ==> IsDigit(c)) && Value(Digits(n)) == n
  {
    var d := "0123456789"[n % 10];
    assert d as int - '0' as int == n % 10;
    if n >= 10 {
      DigitsValue(n / 10);
      assert Digits(n)[..|Digits(n)| - 1] == Digits(n / 10);
    } else {
      assert Digits(n) == [d] && Digits(n)[..0] == "";
    }
  }

  lemma {:induction false} DigitsEnd(digits: string, rest: string)
    requires (forall c :: c in digits ==> IsDigit(c)) && (rest == "" || !IsDigit(rest[0]))
    ensures DigitsAtStart(digits + rest) == |digits|
  {
    if digits == "" {
      assert digits + rest == rest;
    } else {
      assert (digits + rest)[1..] == digits[1..] + rest && digits[0] in digits;
      DigitsEnd(digits[1..], rest);
    }
  }

  lemma NumberAfterDigits(prefix: string, digits: string, rest: string)
    requires digits != "" && (forall c :: c in digits ==> IsDigit(c)) && (rest == "" || !IsDigit(rest[0]))
    ensures NumberAfter(prefix + (digits + rest), prefix) == Some((Value(digits), rest))
  {
    DigitsEnd(digits, rest);
    Cut(digits, rest);
    Cut(prefix, digits + rest);
  }

  lemma NumberAfterPrinted(prefix: string, n: nat, rest: string)
    requires rest == "" || !IsDigit(rest[0])
    ensures NumberAfter(prefix + Digits(n) + rest, prefix) == Some((n, rest))
  {
    DigitsValue(n);
    NumberAfterDigits(prefix, Digits(n), rest);
    Associate(prefix, Digits(n), rest);
  }

  lemma Cut(a: string, b: string)
    ensures (a + b)[..|a|] == a && (a + b)[|a|..] == b
  {
  }

  lemma JoinRanges(a: string, b: string, c: string, d: string)
    ensures "@@ -" + a + "," + b + " +" + c + "," + d + " @@"
         == "@@ -" + a + ("," + b + (" +" + c + ("," + d + " @@")))
  {
  }

  lemma RangesReadBack(h: Hunk)
    ensures ReadRanges(HunkHeader(h)) == Some(ShownHunk(h.oldStart, h.oldCount, h.newStart, h.newCount, []))
  {
    var r3 := "," + Digits(h.newCount) + " @@";
    var r2 := " +" + Digits(h.newStart) + r3;
    var r1 := "," + Digits(h.oldCount) + r2;
    JoinRanges(Digits(h.oldStart), Digits(h.oldCount), Digits(h.newStart), Digits(h.newCount));
    NumberAfterPrinted("@@ -", h.oldStart, r1);
    NumberAfterPrinted(",", h.oldCount, r2);
    NumberAfterPrinted(" +", h.newStart, r3);
    NumberAfterPrinted(",", h.newCount, " @@");
  }

  lemma TotalsReadBack(r: Report)
    ensures ReadTotals(TotalsItem(r)) == Some((|r.files|, r.totalAdded, r.totalRemoved))
  {
    var r2 := " -" + Digits(r.totalRemoved) + "";
    var r1 := "  +" + Digits(r.totalAdded) + r2;
    assert TotalsItem(r) == "files: " + Digits(|r.files|) + r1;
    NumberAfterPrinted("files: ", |r.files|, r1);
    NumberAfterPrinted("  +", r.totalAdded, r2);
    NumberAfterPrinted(" -", r.totalRemoved, "");
  }

  // ----- lines, hunks and files -----

  /** No item holds a line feed. */
  ghost predicate Plain(items: seq<string>) {
    forall i :: 0 <= i < |items| ==> '\n' !in items[i]
  }

  lemma PlainConcat(a: seq<string>, b: seq<string>)
    ensures Plain(a + b) <==> Plain(a) && Plain(b)
  {
    forall i | 0 <= i < |b| ensures b[i] == (a + b)[|a| + i] {}
    forall i | 0 <= i < |a| ensures a[i] == (a + b)[i] {}
  }

  lemma {:induction false} LineItemsCons(first: DiffLine, rest: seq<DiffLine>)
    ensures LineItems([first] + rest) == [LineItem(first)] + LineItems(rest)
  {
    var all := [first] + rest;
    if rest == [] {
      assert all[..0] == [];
    } else {
      assert all[..|all| - 1] == [first] + rest[..|rest| - 1];
      LineItemsCons(first, rest[..|rest| - 1]);
    }
  }

  lemma {:induction false} HunksItemsCons(first: Hunk, rest: seq<Hunk>)
    ensures HunksItems([first] + rest) == HunkItems(first) + HunksItems(rest)
  {
    var all := [first] + rest;
    if rest == [] {
      assert all[..0] == [] && [] + HunkItems(first) == HunkItems(first);
    } else {
      var init, last := rest[..|rest| - 1], rest[|rest| - 1];
      assert all[..|all| - 1] == [first] + init;
      HunksItemsCons(first, init);
      Prepend(HunkItems(first), HunksItems(init), HunkItems(last));
    }
  }

  lemma {:induction false} FilesItemsCons(first: FileReport, rest: seq<FileReport>)
    ensures FilesItems([first] + rest) == FileItems(first) + FilesItems(rest)
  {
    var all := [first] + rest;
    if rest == [] {
      assert all[..0] == [] && [] + FileItems(first) == FileItems(first);
    } else {
      var init, last := rest[..|rest| - 1], rest[|rest| - 1];
      assert all[..|all| - 1] == [first] + init;
      FilesItemsCons(first, init);
      Prepend(FileItems(first), FilesItems(init), FileItems(last));
    }
  }

  lemma LineItemIsPlain(line: DiffLine)
    ensures '\n' !in LineItem(line) && ReadLine(LineItem(line)) == Some(line)
  {
    var item := LineItem(line);
    assert item == [item[0]] + line.text && item[1..] == line.text;
  }

  lemma {:induction false} LineItemsArePlain(lines: seq<DiffLine>)
    ensures Plain(LineItems(lines))
  {
    if lines != [] {
      LineItemsArePlain(lines[..|lines| - 1]);
      LineItemIsPlain(lines[|lines| - 1]);
    }
  }

  lemma HunkHeaderIsPlain(h: Hunk)
    ensures '\n' !in HunkHeader(h) && HunkHeader(h) != "" && HunkHeader(h)[0] == '@'
  {
    DigitsHaveNoNewline(h.oldStart);
    DigitsHaveNoNewline(h.oldCount);
    DigitsHaveNoNewline(h.newStart);
    DigitsHaveNoNewline(h.newCount);
  }

  lemma HunkItemsArePlain(h: Hunk)
    ensures Plain(HunkItems(h))
  {
    HunkHeaderIsPlain(h);
    LineItemsArePlain(h.lines);
  }

  lemma {:induction false} HunksItemsArePlain(hunks: seq<Hunk>)
    ensures Plain(HunksItems(hunks))
  {
    if hunks != [] {
      HunksItemsArePlain(hunks[..|hunks| - 1]);
      HunkItemsArePlain(hunks[|hunks| - 1]);
      PlainConcat(HunksItems(hunks[..|hunks| - 1]), HunkItems(hunks[|hunks| - 1]));
    }
  }

  lemma OneLineRead(line: DiffLine, items: seq<LineText>, lines: seq<DiffLine>, rest: seq<LineText>)
    requires ReadLines(items + rest) == (lines, rest)
    ensures '\n' !in LineItem(line) && ReadLines(([LineItem(line)] + items) + rest) == ([line] + lines, rest)
  {
    LineItemIsPlain(line);
    HeaderThenLines(LineItem(line), items, rest);
  }

  lemma {:induction false} LinesReadBack(lines: seq<DiffLine>, rest: seq<LineText>)
    requires rest == [] || ReadLine(rest[0]).None?
    ensures Plain(LineItems(lines)) && ReadLines(LineItems(lines) + rest) == (lines, rest)
  {
    LineItemsArePlain(lines);
    if lines == [] {
      assert LineItems(lines) + rest == rest;
    } else {
      assert lines == [lines[0]] + lines[1..];
      LineItemsCons(lines[0], lines[1..]);
      LinesReadBack(lines[1..], rest);
      OneLineRead(lines[0], LineItems(lines[1..]), lines[1..], rest);
    }
  }

  lemma OneHunkRead(rows: seq<LineText>, ranges: ShownHunk, lines: seq<DiffLine>, after: seq<LineText>)
    requires rows != [] && rows[0] != "" && ReadRanges(rows[0]) == Some(ranges)
    requires ReadLines(rows[1..]) == (lines, after) && ReadHunks(after).Some?
    ensures ReadHunks(rows)
         == Some(([ranges.(lines := lines)] + ReadHunks(after).value.0, ReadHunks(after).value.1))
  {
  }

  lemma HeaderThenLines(header: string, items: seq<string>, after: seq<string>)
    ensures ([header] + items + after)[0] == header && ([header] + items + after)[1..] == items + after
  {
  }

  lemma HeaderAndLinesRead(header: LineText, items: seq<LineText>, ranges: ShownHunk, lines: seq<DiffLine>,
                           after: seq<LineText>)
    requires header != "" && ReadRanges(header) == Some(ranges)
    requires ReadLines(items + after) == (lines, after) && ReadHunks(after).Some?
    ensures ReadHunks([header] + items + after)
         == Some(([ranges.(lines := lines)] + ReadHunks(after).value.0, ReadHunks(after).value.1))
  {
    HeaderThenLines(header, items, after);
    OneHunkRead([header] + items + after, ranges, lines, after);
  }

  function Shown(h: Hunk): ShownHunk {
    ShownHunk(h.oldStart, h.oldCount, h.newStart, h.newCount, h.lines)
  }

  lemma HunkReadsBack(h: Hunk, after: seq<LineText>)
    requires after != [] && ReadLine(after[0]).None? && ReadHunks(after).Some?
    ensures Plain(HunkItems(h))
    ensures ReadHunks(HunkItems(h) + after)
         == Some(([Shown(h)] + ReadHunks(after).value.0, ReadHunks(after).value.1))
  {
    HunkItemsArePlain(h);
    HunkHeaderIsPlain(h);
    RangesReadBack(h);
    LinesReadBack(h.lines, after);
    var ranges := ShownHunk(h.oldStart, h.oldCount, h.newStart, h.newCount, []);
    HeaderAndLinesRead(HunkHeader(h), LineItems(h.lines), ranges, h.lines, after);
  }

  lemma ShowsHunksCons(h: Hunk, shown: seq<ShownHunk>, hunks: seq<Hunk>)
    requires ShowsHunks(shown, hunks)
    ensures ShowsHunks([Shown(h)] + shown, [h] + hunks)
  {
  }

  lemma FirstOf(first: seq<string>, more: seq<string>, rest: seq<string>)
    ensures (first + more) + rest == first + (more + rest)
  {
  }

  /** The hunks come back from the rows, and `rest` is left. */
  ghost predicate ComeBack(hunks: seq<Hunk>, rows: seq<string>, rest: seq<LineText>) {
    Plain(rows) && var read := ReadHunks(rows);
    read.Some? && ShowsHunks(read.value.0, hunks) && read.value.1 == rest
  }

  lemma NoHunksComeBack(rest: seq<LineText>)
    ensures ComeBack([], HunksItems([]) + ([""] + rest), rest)
  {
    assert HunksItems([]) + ([""] + rest) == [""] + rest && ([""] + rest)[1..] == rest;
  }

  lemma FirstHunkComesBack(h: Hunk, more: seq<Hunk>, after: seq<LineText>, rest: seq<LineText>)
    requires after != [] && ReadLine(after[0]).None? && ComeBack(more, after, rest)
    ensures ComeBack([h] + more, HunkItems(h) + after, rest)
  {
    HunkReadsBack(h, after);
    PlainConcat(HunkItems(h), after);
    ShowsHunksCons(h, ReadHunks(after).value.0, more);
  }

  /** A file's hunks come back, up to its empty row. */
  lemma {:induction false} HunksReadBack(hunks: seq<Hunk>, rest: seq<LineText>)
    ensures ComeBack(hunks, HunksItems(hunks) + ([""] + rest), rest)
    decreases |hunks|
  {
    if hunks == [] {
      NoHunksComeBack(rest);
    } else {
      var first, more := hunks[0], hunks[1..];
      assert hunks == [first] + more;
      HunksItemsCons(first, more);
      HunksReadBack(more, rest);
      HunksItemsArePlain(more);
      AfterHunk(more, rest);
      FirstOf(HunkItems(first), HunksItems(more), [""] + rest);
      FirstHunkComesBack(first, more, HunksItems(more) + ([""] + rest), rest);
    }
  }

  lemma AfterHunk(more: seq<Hunk>, rest: seq<LineText>)
    requires Plain(HunksItems(more))
    ensures var after: seq<LineText> := HunksItems(more) + ([""] + rest);
      after != [] && ReadLine(after[0]).None?
  {
    if more != [] {
      assert more == [more[0]] + more[1..];
      HunksItemsCons(more[0], more[1..]);
      HunkHeaderIsPlain(more[0]);
    }
  }

  lemma PathCut(tag: string, path: string)
    ensures HasPrefix(tag + path, tag) && (tag + path)[|tag|..] == path
  {
  }

  lemma FileHeaderIsPlain(path: string)
    requires '\n' !in path
    ensures Plain(FileHeader(path))
  {
  }

  lemma FileItemsArePlain(f: FileReport)
    requires '\n' !in f.path
    ensures Plain(FileItems(f))
  {
    FileHeaderIsPlain(f.path);
    HunksItemsArePlain(f.hunks);
    PlainConcat(FileHeader(f.path), HunksItems(f.hunks));
    PlainConcat(FileHeader(f.path) + HunksItems(f.hunks), [""]);
  }

  lemma FileRows(f: FileReport, rest: seq<string>)
    ensures var rows := FileItems(f) + rest;
      && |rows| >= 3 && rows[..3] == FileHeader(f.path)
      && rows[3..] == HunksItems(f.hunks) + ([""] + rest)
  {
  }

  lemma OneFileRead(rows: seq<LineText>, path: string)
    requires |rows| >= 3 && rows[..3] == FileHeader(path) && ReadHunks(rows[3..]).Some?
    ensures '\n' !in path
    ensures ReadFile(rows)
         == Some((ShownFile(path, ReadHunks(rows[3..]).value.0), ReadHunks(rows[3..]).value.1))
  {
    assert rows[0] == rows[..3][0] && rows[1] == rows[..3][1] && rows[2] == rows[..3][2];
    PathCut("--- a/", path);
    assert rows[1] == "--- a/" + path && path == rows[1][6..];
  }

  lemma FileReadsBack(f: FileReport, rest: seq<LineText>)
    requires '\n' !in f.path
    ensures Plain(FileItems(f))
    ensures var read := ReadFile(FileItems(f) + rest);
      read.Some? && ShowsFile(read.value.0, f) && read.value.1 == rest
  {
    FileItemsArePlain(f);
    FileRows(f, rest);
    HunksReadBack(f.hunks, rest);
    OneFileRead(FileItems(f) + rest, f.path);
  }

  lemma ShowsFilesCons(first: ShownFile, f: FileReport, shown: seq<ShownFile>, files: seq<FileReport>)
    requires ShowsFile(first, f) && ShowsFiles(shown, files)
    ensures ShowsFiles([first] + shown, [f] + files)
  {
  }

  ghost predicate PlainPaths(files: seq<FileReport>) {
    forall f :: f in files ==> '\n' !in f.path
  }

  /** Every file comes back with its path and hunks. */
  lemma {:induction false} FilesReadBack(files: seq<FileReport>)
    requires PlainPaths(files)
    ensures Plain(FilesItems(files))
    ensures ReadFiles(FilesItems(files)).Some? && ShowsFiles(ReadFiles(FilesItems(files)).value, files)
    decreases |files|
  {
    if files != [] {
      var first, more := files[0], files[1..];
      assert files == [first] + more && first in files && forall f :: f in more ==> f in files;
      FilesItemsCons(first, more);
      FilesReadBack(more);
      FirstFileReadsBack(first, FilesItems(more), more);
    }
  }

  lemma FirstFileReadsBack(f: FileReport, rest: seq<LineText>, more: seq<FileReport>)
    requires '\n' !in f.path && ReadFiles(rest).Some? && ShowsFiles(ReadFiles(rest).value, more)
    ensures Plain(FileItems(f) + rest)
    ensures ReadFiles(FileItems(f) + rest).Some? && ShowsFiles(ReadFiles(FileItems(f) + rest).value, [f] + more)
  {
    FileItemsArePlain(f);
    PlainConcat(FileItems(f), rest);
    FileReadsBack(f, rest);
    var rows: seq<LineText> := FileItems(f) + rest;
    ShowsFilesCons(ReadFile(rows).value.0, f, ReadFiles(rest).value, more);
  }

  lemma HeaderIsPlain(r: Report)
    requires '\n' !in r.goal
    ensures Plain(ReportHeader(r))
  {
    DigitsHaveNoNewline(|r.files|);
    DigitsHaveNoNewline(r.totalAdded);
    DigitsHaveNoNewline(r.totalRemoved);
  }

  lemma HeaderRows(r: Report, rest: seq<string>)
    ensures var rows := ReportHeader(r) + rest;
      && |rows| >= 5 && rows[0] == "Phonton diff" && rows[1] == "task: " + r.taskId && rows[2] == "goal: " + r.goal
      && rows[3] == TotalsItem(r) && rows[4] == "" && rows[5..] == rest
  {
  }

  lemma OneDiffRead(text: string, rows: seq<LineText>, task: LineText, goal: LineText, totals: (nat, nat, nat))
    requires Rows(text) == rows && |rows| >= 5 && rows[0] == "Phonton diff" && rows[4] == ""
    requires rows[1] == "task: " + task && rows[2] == "goal: " + goal && ReadTotals(rows[3]) == Some(totals)
    requires ReadFiles(rows[5..]).Some?
    ensures ReadDiff(text)
         == Some(ShownReport(task, goal, totals.0, totals.1, totals.2, ReadFiles(rows[5..]).value))
  {
    PathCut("task: ", task);
    PathCut("goal: ", goal);
  }

  lemma PlainReportReadsBack(r: Report)
    requires '\n' !in r.goal && PlainPaths(r.files)
    ensures Shows(ReadDiff(Render(r)), r)
  {
    var items := ReportHeader(r) + FilesItems(r.files);
    HeaderIsPlain(r);
    FilesReadBack(r.files);
    PlainConcat(ReportHeader(r), FilesItems(r.files));
    RowsOfUnlines(items);
    HeaderRows(r, FilesItems(r.files));
    TotalsReadBack(r);
    OneDiffRead(Render(r), items, r.taskId, r.goal, (|r.files|, r.totalAdded, r.totalRemoved));
  }

  lemma WhatIsShownIsPlain(read: Option<ShownReport>, r: Report)
    ensures Shows(read, r) ==> '\n' !in r.goal && PlainPaths(r.files)
  {
    if Shows(read, r) {
      forall f | f in r.files ensures '\n' !in f.path {
        var i :| 0 <= i < |r.files| && r.files[i] == f;
        assert ShowsFile(read.value.files[i], f);
      }
    }
  }

  /** A printed report reads back whole, every number, path and line of it, exactly when neither its goal
      nor any path holds a line feed. */
  lemma PrintedReportReadsBackExactly(r: Report)
    ensures Shows(ReadDiff(Render(r)), r) <==> '\n' !in r.goal && PlainPaths(r.files)
  {
    if '\n' !in r.goal && PlainPaths(r.files) {
      PlainReportReadsBack(r);
    }
    WhatIsShownIsPlain(ReadDiff(Render(r)), r);
  }
}
