// Two text wrappers: by display cells for the approval screen, by characters
// and words for the flight log.

module CellWrapping {
  import opened Wrappers
  import opened Text

  /** The cells a terminal gives one character. */
  type Cells = char -> nat

  function Width(s: string, cells: Cells): nat {
    if s == "" then 0 else Width(s[..|s| - 1], cells) + cells(s[|s| - 1])
  }

  /** A piece may be wider than the column only when it is a single character. */
  predicate Fits(piece: string, width: nat, cells: Cells) {
    |piece| <= 1 || Width(piece, cells) <= width
  }

  /** How many characters of `rest` still fit after `used` cells. */
  function Room(rest: string, used: nat, width: nat, cells: Cells): (n: nat)
    ensures n <= |rest|
  {
    if rest == "" || used + cells(rest[0]) > width then 0
    else 1 + Room(rest[1..], used + cells(rest[0]), width, cells)
  }

  /** The length of the first piece. */
  function FirstPiece(line: string, width: nat, cells: Cells): (n: nat)
    requires line != ""
    ensures 1 <= n <= |line|
  {
    1 + Room(line[1..], cells(line[0]), width, cells)
  }

  function Wrap(line: string, width: nat, cells: Cells): seq<string>
    decreases |line|, 0
  {
    if line == "" then [""]
    else
      var n := FirstPiece(line, width, cells);
      Then(line[..n], line[n..], width, cells)
  }

  /** A piece, and the pieces of what follows it. */
  function Then(piece: string, rest: string, width: nat, cells: Cells): seq<string>
    decreases |rest|, 1
  {
    [piece] + if rest == "" then [] else Wrap(rest, width, cells)
  }

  function WrapAll(lines: seq<string>, width: nat, cells: Cells): seq<string> {
    if lines == [] then []
    else WrapAll(lines[..|lines| - 1], width, cells) + Wrap(lines[|lines| - 1], width, cells)
  }

  /** What the inner loop still produces from a piece begun with `current`. */
  function Finish(current: string, used: nat, rest: string, width: nat, cells: Cells): seq<string> {
    if current == "" then Wrap(rest, width, cells)
    else
      var n := Room(rest, used, width, cells);
      Then(current + rest[..n], rest[n..], width, cells)
  }

  /** The first character of a piece always goes on it. */
  lemma BeginPiece(rest: string, width: nat, cells: Cells)
    requires rest != ""
    ensures Wrap(rest, width, cells) == Finish([rest[0]], cells(rest[0]), rest[1..], width, cells)
  {
    SplitFirst(rest, Room(rest[1..], cells(rest[0]), width, cells));
  }

  lemma SplitFirst(rest: string, n: nat)
    requires n < |rest|
    ensures rest[..n + 1] == [rest[0]] + rest[1..][..n]
    ensures rest[n + 1..] == rest[1..][n..]
  {
  }

  /** A character that fits joins the piece. */
  lemma ExtendPiece(current: string, used: nat, rest: string, width: nat, cells: Cells)
    requires rest != "" && current != "" && used + cells(rest[0]) <= width
    ensures Finish(current, used, rest, width, cells)
         == Finish(current + [rest[0]], used + cells(rest[0]), rest[1..], width, cells)
  {
    var n := Room(rest[1..], used + cells(rest[0]), width, cells);
    SplitFirst(rest, n);
    assert current + rest[..n + 1] == current + [rest[0]] + rest[1..][..n];
  }

  /** A character that does not fit ends it. */
  lemma EndPiece(current: string, used: nat, rest: string, width: nat, cells: Cells)
    requires rest != "" && current != "" && used + cells(rest[0]) > width
    ensures Finish(current, used, rest, width, cells) == [current] + Wrap(rest, width, cells)
  {
    assert rest[..0] == "" && current + "" == current && rest[0..] == rest;
  }

  lemma LastPiece(current: string, used: nat, width: nat, cells: Cells)
    ensures Finish(current, used, "", width, cells) == [current]
  {
    assert current + "" == current;
  }

  /** What one turn of the inner loop leaves to be produced. */
  lemma NextCharacter(current: string, used: nat, rest: string, width: nat, cells: Cells)
    requires rest != "" && (current == "" ==> used == 0)
    ensures Finish(current, used, rest, width, cells)
         == if current != "" && used + cells(rest[0]) > width
            then [current] + Finish([rest[0]], cells(rest[0]), rest[1..], width, cells)
            else Finish(current + [rest[0]], used + cells(rest[0]), rest[1..], width, cells)
  {
    BeginPiece(rest, width, cells);
    if current == "" {
      assert current + [rest[0]] == [rest[0]];
    } else if used + cells(rest[0]) > width {
      EndPiece(current, used, rest, width, cells);
    } else {
      ExtendPiece(current, used, rest, width, cells);
    }
  }

  /** The turns of the inner loop still to come produce `todo`. */
  ghost predicate Produces(current: string, used: nat, rest: string, width: nat, cells: Cells, todo: seq<string>)
    decreases |rest|
  {
    if rest == "" then todo == [current]
    else if current != "" && used + cells(rest[0]) > width then
      todo != [] && todo[0] == current && Produces([rest[0]], cells(rest[0]), rest[1..], width, cells, todo[1..])
    else Produces(current + [rest[0]], used + cells(rest[0]), rest[1..], width, cells, todo)
  }

  lemma {:induction false} ProducesFinish(current: string, used: nat, rest: string, width: nat, cells: Cells)
    requires current == "" ==> used == 0
    ensures Produces(current, used, rest, width, cells, Finish(current, used, rest, width, cells))
    decreases |rest|
  {
    if rest == "" {
      LastPiece(current, used, width, cells);
    } else {
      NextCharacter(current, used, rest, width, cells);
      if current != "" && used + cells(rest[0]) > width {
        ProducesFinish([rest[0]], cells(rest[0]), rest[1..], width, cells);
      } else {
        ProducesFinish(current + [rest[0]], used + cells(rest[0]), rest[1..], width, cells);
      }
    }
  }

  lemma ProducesStep(current: string, used: nat, rest: string, width: nat, cells: Cells, todo: seq<string>)
    requires rest != "" && Produces(current, used, rest, width, cells, todo)
    ensures if current != "" && used + cells(rest[0]) > width
      then todo != [] && todo[0] == current
           && Produces("" + [rest[0]], cells(rest[0]), rest[1..], width, cells, todo[1..])
      else Produces(current + [rest[0]], used + cells(rest[0]), rest[1..], width, cells, todo)
  {
    assert "" + [rest[0]] == [rest[0]];
  }

  lemma MoveOne(pieces: seq<string>, todo: seq<string>)
    requires todo != []
    ensures pieces + todo == (pieces + [todo[0]]) + todo[1..]
  {
  }

  method WrapLine(line: string, width: nat, cells: Cells) returns (pieces: seq<string>)
    ensures pieces == Wrap(line, width, cells)
  {
    pieces := [];
    var current, used: nat := "", 0;
    ghost var whole := Wrap(line, width, cells);
    ghost var todo := whole;
    ProducesFinish("", 0, line, width, cells);
    assert line[0..] == line;
    for i := 0 to |line|
      invariant Produces(current, used, line[i..], width, cells, todo) && pieces + todo == whole
    {
      var ch := line[i];
      ProducesStep(current, used, line[i..], width, cells, todo);
      assert line[i..][1..] == line[i + 1..];
      if used + cells(ch) > width && current != "" {
        MoveOne(pieces, todo);
        pieces, todo := pieces + [current], todo[1..];
        current, used := "", 0;
      }
      current := current + [ch];
      used := used + cells(ch);
    }
    pieces := pieces + [current];
  }

  /** `wrapped_lines`; a zero width counts as one. */
  method WrappedLines(lines: seq<string>, width: nat, cells: Cells) returns (result: seq<string>)
    ensures result == WrapAll(lines, Max(width, 1), cells)
    ensures Concat(result) == Concat(lines) && |result| >= |lines|
    ensures forall p :: p in result ==> Fits(p, Max(width, 1), cells)
  {
    result := [];
    WrapAllIsLossless(lines, Max(width, 1), cells);
    for i := 0 to |lines|
      invariant result == WrapAll(lines[..i], Max(width, 1), cells)
    {
      var pieces := WrapLine(lines[i], Max(width, 1), cells);
      assert lines[..i + 1][..i] == lines[..i];
      result := result + pieces;
    }
    assert lines[..|lines|] == lines;
  }

  // ----- lossless and bounded -----

  lemma {:induction false} WidthConcat(a: string, b: string, cells: Cells)
    ensures Width(a + b, cells) == Width(a, cells) + Width(b, cells)
  {
    if b == "" {
      assert a + b == a;
    } else {
      assert (a + b)[..|a + b| - 1] == a + b[..|b| - 1];
      WidthConcat(a, b[..|b| - 1], cells);
    }
  }

  lemma {:induction false} RoomIsLongest(rest: string, used: nat, width: nat, cells: Cells)
    ensures var n := Room(rest, used, width, cells);
      && (n > 0 ==> used + Width(rest[..n], cells) <= width)
      && (n < |rest| ==> used + Width(rest[..n + 1], cells) > width)
  {
    if rest != "" {
      var n := Room(rest, used, width, cells);
      WidthOne(rest[0], cells);
      assert rest[..1] == [rest[0]];
      if n > 0 {
        RoomIsLongest(rest[1..], used + cells(rest[0]), width, cells);
        assert rest[..n] == [rest[0]] + rest[1..][..n - 1];
        WidthConcat([rest[0]], rest[1..][..n - 1], cells);
        if n < |rest| {
          assert rest[..n + 1] == [rest[0]] + rest[1..][..n];
          WidthConcat([rest[0]], rest[1..][..n], cells);
        }
        if n == 1 {
          assert rest[1..][..0] == "";
        }
      }
    }
  }

  lemma WidthOne(c: char, cells: Cells)
    ensures Width([c], cells) == cells(c)
  {
    assert [c][..0] == "";
  }

  /** The first piece fits, and nothing longer does. */
  lemma FirstPieceIsLongest(line: string, width: nat, cells: Cells, p: nat)
    requires line != "" && p <= |line|
    ensures var n := FirstPiece(line, width, cells);
      Fits(line[..n], width, cells) && (Fits(line[..p], width, cells) ==> p <= n)
  {
    var n := FirstPiece(line, width, cells);
    WidthOne(line[0], cells);
    RoomIsLongest(line[1..], cells(line[0]), width, cells);
    assert line[..n] == [line[0]] + line[1..][..n - 1];
    WidthConcat([line[0]], line[1..][..n - 1], cells);
    if n < p {
      assert line[..n + 1] == [line[0]] + line[1..][..n];
      WidthConcat([line[0]], line[1..][..n], cells);
      assert line[..p] == line[..n + 1] + line[n + 1..p];
      WidthConcat(line[..n + 1], line[n + 1..p], cells);
    }
  }

  lemma ConcatFirst(piece: string, rest: seq<string>)
    ensures Concat([piece] + rest) == piece + Concat(rest)
  {
    assert ([piece] + rest)[1..] == rest;
  }

  lemma {:induction false} WrapConcats(line: string, width: nat, cells: Cells)
    ensures Concat(Wrap(line, width, cells)) == line
  {
    if line == "" {
      ConcatFirst("", []);
    } else {
      var n := FirstPiece(line, width, cells);
      assert line == line[..n] + line[n..];
      if n < |line| {
        WrapConcats(line[n..], width, cells);
      }
      ThenConcats(line[..n], line[n..], width, cells);
    }
  }

  lemma ThenConcats(piece: string, rest: string, width: nat, cells: Cells)
    requires rest != "" ==> Concat(Wrap(rest, width, cells)) == rest
    ensures Concat(Then(piece, rest, width, cells)) == piece + rest
  {
    ConcatFirst(piece, if rest == "" then [] else Wrap(rest, width, cells));
  }

  lemma {:induction false} WrapFits(line: string, width: nat, cells: Cells, p: string)
    requires p in Wrap(line, width, cells)
    ensures Fits(p, width, cells) && (p == "" ==> line == "")
  {
    if line != "" {
      var n := FirstPiece(line, width, cells);
      FirstPieceIsLongest(line, width, cells, n);
      assert p in Then(line[..n], line[n..], width, cells);
      if p != line[..n] {
        WrapFits(line[n..], width, cells, p);
      }
    }
  }

  /** The pieces of a line concatenate to it, fit, and are empty only for an empty line. */
  lemma WrapIsLossless(line: string, width: nat, cells: Cells)
    ensures Concat(Wrap(line, width, cells)) == line
    ensures forall p :: p in Wrap(line, width, cells) ==> Fits(p, width, cells) && (p == "" ==> line == "")
  {
    WrapConcats(line, width, cells);
    forall p | p in Wrap(line, width, cells) ensures Fits(p, width, cells) && (p == "" ==> line == "") {
      WrapFits(line, width, cells, p);
    }
  }

  /** The pieces of one line stand together, after those of the lines before it. */
  lemma {:induction false} WrapAllInOrder(before: seq<string>, line: string, after: seq<string>, width: nat,
                                          cells: Cells)
    ensures WrapAll(before + [line] + after, width, cells)
         == WrapAll(before, width, cells) + Wrap(line, width, cells) + WrapAll(after, width, cells)
    decreases |after|
  {
    var lines := before + [line] + after;
    if after == [] {
      assert lines[..|lines| - 1] == before;
    } else {
      var init, last := after[..|after| - 1], after[|after| - 1];
      assert lines[..|lines| - 1] == before + [line] + init;
      WrapAllInOrder(before, line, init, width, cells);
    }
  }

  lemma {:induction false} WrapAllIsLossless(lines: seq<string>, width: nat, cells: Cells)
    ensures Concat(WrapAll(lines, width, cells)) == Concat(lines) && |WrapAll(lines, width, cells)| >= |lines|
    ensures forall p :: p in WrapAll(lines, width, cells) ==> Fits(p, width, cells)
  {
    if lines != [] {
      var init, last := lines[..|lines| - 1], lines[|lines| - 1];
      WrapAllIsLossless(init, width, cells);
      WrapIsLossless(last, width, cells);
      ConcatConcat(WrapAll(init, width, cells), Wrap(last, width, cells));
      ConcatAppend(init, last);
      assert lines == init + [last];
    }
  }

  // ----- fewest pieces -----

  function Count(line: string, width: nat, cells: Cells): nat {
    if line == "" then 0 else |Wrap(line, width, cells)|
  }

  lemma CountStep(line: string, width: nat, cells: Cells)
    requires line != ""
    ensures Count(line, width, cells) == 1 + Count(line[FirstPiece(line, width, cells)..], width, cells)
  {
    var n := FirstPiece(line, width, cells);
    assert Wrap(line, width, cells) == Then(line[..n], line[n..], width, cells);
    CountThen(line[..n], line[n..], width, cells);
  }

  lemma CountThen(piece: string, rest: string, width: nat, cells: Cells)
    ensures |Then(piece, rest, width, cells)| == 1 + Count(rest, width, cells)
  {
  }

  lemma FitsWithin(s: string, width: nat, cells: Cells)
    requires s != "" && Fits(s, width, cells)
    ensures Fits(s[1..], width, cells)
  {
    assert s == [s[0]] + s[1..];
    WidthConcat([s[0]], s[1..], cells);
  }

  /** Dropping leading characters never needs more pieces. */
  lemma {:induction false} CountMonotone(line: string, drop: nat, width: nat, cells: Cells)
    requires drop <= |line|
    ensures Count(line[drop..], width, cells) <= Count(line, width, cells)
    decreases |line|, drop
  {
    if drop == 0 {
      assert line[0..] == line;
    } else if drop == 1 {
      DropOne(line, width, cells);
    } else {
      DropOne(line, width, cells);
      CountMonotone(line[1..], drop - 1, width, cells);
      assert line[1..][drop - 1..] == line[drop..];
    }
  }

  lemma DropOne(line: string, width: nat, cells: Cells)
    requires line != ""
    ensures Count(line[1..], width, cells) <= Count(line, width, cells)
    decreases |line|, 0
  {
    var n := FirstPiece(line, width, cells);
    CountStep(line, width, cells);
    if n > 1 {
      FirstPieceReaches(line, width, cells);
      var m := FirstPiece(line[1..], width, cells);
      SameTail(line, n, m);
      CountMonotone(line[n..], m + 1 - n, width, cells);
      CountStep(line[1..], width, cells);
    }
  }

  lemma SameTail(line: string, n: nat, m: nat)
    requires 0 < n <= m + 1 <= |line|
    ensures line[n..][m + 1 - n..] == line[1..][m..]
  {
  }

  lemma FirstPieceReaches(line: string, width: nat, cells: Cells)
    requires line != "" && FirstPiece(line, width, cells) > 1
    ensures FirstPiece(line[1..], width, cells) + 1 >= FirstPiece(line, width, cells)
  {
    var n := FirstPiece(line, width, cells);
    FirstPieceIsLongest(line, width, cells, n);
    FitsWithin(line[..n], width, cells);
    assert line[..n][1..] == line[1..][..n - 1];
    FirstPieceIsLongest(line[1..], width, cells, n - 1);
  }

  /** No partition into fitting pieces is shorter. */
  lemma {:induction false} WrapIsOptimal(line: string, width: nat, cells: Cells, pieces: seq<string>)
    requires line != "" && Concat(pieces) == line && forall p :: p in pieces ==> Fits(p, width, cells)
    ensures |Wrap(line, width, cells)| <= |pieces|
    decreases |pieces|
  {
    var first, rest := pieces[0], Concat(pieces[1..]);
    assert first in pieces && forall p :: p in pieces[1..] ==> p in pieces;
    assert line[..|first|] == first && line[|first|..] == rest;
    var n := FirstPiece(line, width, cells);
    FirstPieceIsLongest(line, width, cells, |first|);
    CountStep(line, width, cells);
    CountMonotone(rest, n - |first|, width, cells);
    assert rest[n - |first|..] == line[n..];
    if rest != "" {
      WrapIsOptimal(rest, width, cells, pieces[1..]);
    }
  }
}

module WordWrapping {
  import opened Text

  predicate Delimiter(c: char) {
    IsWhitespace(c) || c == ',' || c == ';'
  }

  /** The text up to and including its first delimiter. */
  function FirstWord(s: string): (w: string)
    ensures |w| <= |s| && w == s[..|w|] && (s != "" ==> w != "")
  {
    if s == "" then "" else if Delimiter(s[0]) then [s[0]] else [s[0]] + FirstWord(s[1..])
  }

  /** `split_inclusive` at delimiters. */
  function Words(s: string): seq<string>
    decreases |s|
  {
    if s == "" then [] else [FirstWord(s)] + Words(s[|FirstWord(s)|..])
  }

  predicate EndsAtDelimiter(s: string) {
    s != "" && Delimiter(s[|s| - 1])
  }

  predicate NoDelimiter(s: string) {
    forall c :: c in s ==> !Delimiter(c)
  }

  /** A piece within the width that stops after a delimiter, or is a full slice of one long word. */
  predicate Closed(piece: string, width: nat) {
    0 < |piece| <= width && (EndsAtDelimiter(piece) || (|piece| == width && NoDelimiter(piece)))
  }

  /** Broken behind whitespace, a comma or a semicolon, or else a full line that holds none of them. */
  ghost predicate BreaksWell(piece: string, width: nat) {
    piece != "" && var last := piece[|piece| - 1];
    || IsWhitespace(last) || last == ',' || last == ';'
    || (|piece| == width && forall c :: c in piece ==> !IsWhitespace(c) && c != ',' && c != ';')
  }

  /** The next piece's first word would not have fitted here. */
  predicate Full(piece: string, next: string, width: nat) {
    |piece| + |FirstWord(next)| > width
  }

  ghost predicate FullPairs(pieces: seq<string>, width: nat) {
    forall i :: 0 <= i < |pieces| - 1 ==> Full(pieces[i], pieces[i + 1], width)
  }

  lemma {:induction false} WordsAre(s: string)
    ensures Concat(Words(s)) == s
    ensures forall i :: 0 <= i < |Words(s)| ==>
      var w := Words(s)[i]; w != "" && FirstWord(w) == w && (i < |Words(s)| - 1 ==> EndsAtDelimiter(w))
    decreases |s|
  {
    if s != "" {
      var w, rest := FirstWord(s), s[|FirstWord(s)|..];
      WordsAre(rest);
      assert s == w + rest;
      assert Words(s)[1..] == Words(rest);
      FirstWordIs(s);
    }
  }

  lemma {:induction false} FirstWordIs(s: string)
    ensures FirstWord(FirstWord(s)) == FirstWord(s)
    ensures |FirstWord(s)| < |s| ==> EndsAtDelimiter(FirstWord(s))
    ensures forall i :: 0 <= i < |FirstWord(s)| - 1 ==> !Delimiter(FirstWord(s)[i])
  {
    if s != "" && !Delimiter(s[0]) {
      FirstWordIs(s[1..]);
      var w := FirstWord(s[1..]);
      assert ([s[0]] + w)[1..] == w;
    }
  }

  lemma {:induction false} FirstWordOfLonger(s: string, more: string)
    requires EndsAtDelimiter(s)
    ensures FirstWord(s + more) == FirstWord(s)
  {
    assert (s + more)[1..] == s[1..] + more;
    if !Delimiter(s[0]) {
      FirstWordOfLonger(s[1..], more);
    }
  }

  lemma {:induction false} FirstWordOfBare(s: string)
    requires forall i :: 0 <= i < |s| - 1 ==> !Delimiter(s[i])
    ensures FirstWord(s) == s
  {
    if s != "" {
      FirstWordOfBare(s[1..]);
    }
  }

  /** Cut one word that is wider than the column; `buf` is what is left for the current line. */
  method HardBreak(word: string, width: nat) returns (full: seq<string>, buf: string)
    requires 0 < width < |word| && FirstWord(word) == word
    ensures Concat(full) + buf == word && full != [] && 0 < |buf| <= width
    ensures forall p :: p in full ==> |p| == width && NoDelimiter(p)
    ensures FirstWord(buf) == buf && (EndsAtDelimiter(word) ==> EndsAtDelimiter(buf))
  {
    full, buf := [], "";
    ghost var start := 0;
    for i := 0 to |word|
      invariant Cutting(full, buf, word, start, i, width)
    {
      if |buf| >= width {
        CutHere(full, buf, word, start, i, width);
        full := full + [buf];
        buf := "";
        start := i;
      } else {
        KeepCutting(full, buf, word, start, i, width);
      }
      buf := buf + [word[i]];
    }
    assert word[..start] + word[start..] == word;
    LastSlice(word, start);
  }

  /** The full slices cover `word[..start]`, and the buffer goes on to `i`. */
  ghost predicate Cutting(full: seq<string>, buf: string, word: string, start: nat, i: nat, width: nat) {
    && start <= i <= |word| && buf == word[start..i] && Concat(full) == word[..start]
    && |buf| <= width && (i > 0 ==> buf != "") && (full == [] ==> start == 0)
    && forall p :: p in full ==> |p| == width && NoDelimiter(p)
  }

  /** The buffer has room for the next character. */
  lemma KeepCutting(full: seq<string>, buf: string, word: string, start: nat, i: nat, width: nat)
    requires i < |word| && Cutting(full, buf, word, start, i, width) && |buf| < width
    ensures Cutting(full, buf + [word[i]], word, start, i + 1, width)
  {
  }

  /** A full buffer becomes a slice. */
  lemma CutHere(full: seq<string>, buf: string, word: string, start: nat, i: nat, width: nat)
    requires FirstWord(word) == word && i < |word| && Cutting(full, buf, word, start, i, width) && |buf| == width
    ensures Concat(full + [buf]) == word[..i] && NoDelimiter(buf)
    ensures forall p :: p in full + [buf] ==> |p| == width && NoDelimiter(p)
  {
    BareSlice(word, start, i);
    ConcatAppend(full, buf);
    assert word[..start] + word[start..i] == word[..i];
  }

  lemma BareSlice(word: string, start: nat, end: nat)
    requires FirstWord(word) == word && start <= end < |word|
    ensures NoDelimiter(word[start..end])
  {
    FirstWordIs(word);
    forall c | c in word[start..end] ensures !Delimiter(c) {
      var k :| start <= k < end && word[k] == c;
    }
  }

  lemma LastSlice(word: string, start: nat)
    requires FirstWord(word) == word && start < |word|
    ensures FirstWord(word[start..]) == word[start..]
    ensures EndsAtDelimiter(word) ==> EndsAtDelimiter(word[start..])
  {
    FirstWordIs(word);
    FirstWordOfBare(word[start..]);
  }

  /** The lines so far and the one being filled. */
  ghost predicate Filling(out: seq<string>, current: string, text: string, width: nat) {
    && Concat(out) + current == text
    && |current| <= width && (current == "" ==> out == [])
    && (forall p :: p in out ==> Closed(p, width))
    && FullPairs(out, width)
    && (out != [] ==> Full(out[|out| - 1], current, width))
  }

  /** A word that fits joins the current line. */
  lemma JoinWord(out: seq<string>, current: string, text: string, word: string, width: nat)
    requires Filling(out, current, text, width) && word != "" && |current| + |word| <= width
    requires current != "" ==> EndsAtDelimiter(current)
    ensures Filling(out, current + word, text + word, width)
  {
    if current != "" {
      FirstWordOfLonger(current, word);
    }
  }

  /** A word that does not fit closes the current line. */
  lemma CloseLine(out: seq<string>, current: string, text: string, word: string, width: nat)
    requires Filling(out, current, text, width) && EndsAtDelimiter(current)
    requires FirstWord(word) == word && word != "" && |current| + |word| > width
    ensures Concat(out + [current]) == text
    ensures (forall p :: p in out + [current] ==> Closed(p, width)) && FullPairs(out + [current], width)
    ensures |word| <= width ==> Filling(out + [current], word, text + word, width)
  {
    ConcatAppend(out, current);
  }

  /** Lossless, bounded and full: a line is never broken before it has to be, and a word
      only when it is wider than the column. */
  method WrapText(s: string, width: nat) returns (out: seq<string>)
    ensures width == 0 ==> out == []
    ensures width > 0 ==> Concat(out) == s && FullPairs(out, width)
    ensures forall p :: p in out ==> 0 < |p| <= width
    ensures forall i :: 0 <= i < |out| - 1 ==> Closed(out[i], width) && BreaksWell(out[i], width)
  {
    out := [];
    if width == 0 {
      return;
    }
    var words, current := Words(s), "";
    WordsAre(s);
    for i := 0 to |words|
      invariant Filling(out, current, Concat(words[..i]), width) && (i > 0 ==> current != "")
      invariant 0 < i < |words| ==> EndsAtDelimiter(current)
    {
      ConcatAppend(words[..i], words[i]);
      assert words[..i + 1] == words[..i] + [words[i]];
      out, current := AddWord(out, current, words[i], width, Concat(words[..i]));
    }
    assert words[..|words|] == words;
    if current != "" {
      Finished(out, current, s, width);
      out := out + [current];
    }
  }

  lemma Finished(out: seq<string>, current: string, text: string, width: nat)
    requires Filling(out, current, text, width) && current != ""
    ensures Concat(out + [current]) == text && FullPairs(out + [current], width)
    ensures forall p :: p in out + [current] ==> 0 < |p| <= width
    ensures forall i :: 0 <= i < |out| ==>
      Closed((out + [current])[i], width) && BreaksWell((out + [current])[i], width)
  {
    ConcatAppend(out, current);
    forall p | p in out ensures BreaksWell(p, width) {
      ClosedBreaksWell(p, width);
    }
  }

  lemma ClosedBreaksWell(piece: string, width: nat)
    requires Closed(piece, width)
    ensures BreaksWell(piece, width)
  {
  }

  /** One turn of the loop over words. */
  method AddWord(out: seq<string>, current: string, word: string, width: nat, ghost text: string)
    returns (out': seq<string>, current': string)
    requires width > 0 && Filling(out, current, text, width) && (current != "" ==> EndsAtDelimiter(current))
    requires word != "" && FirstWord(word) == word
    ensures Filling(out', current', text + word, width) && current' != ""
    ensures EndsAtDelimiter(word) ==> EndsAtDelimiter(current')
  {
    out', current' := out, current;
    if |current| + |word| > width {
      if current != "" {
        CloseLine(out, current, text, word, width);
        out', current' := out + [current], "";
      }
      if |word| > width {
        var full, rest := HardBreak(word, width);
        AppendFull(out', full, rest, text, word, width);
        return out' + full, rest;
      }
      assert "" + word == word;
    } else {
      JoinWord(out, current, text, word, width);
    }
    current' := current' + word;
  }

  /** A word wider than the column adds full slices and leaves its remainder as the current line. */
  lemma AppendFull(out: seq<string>, full: seq<string>, rest: string, text: string, word: string, width: nat)
    requires Concat(out) == text && FullPairs(out, width) && 0 < width && full != [] && 0 < |rest| <= width
    requires Concat(full) + rest == word
    requires forall p :: p in out ==> Closed(p, width)
    requires forall p :: p in full ==> |p| == width && NoDelimiter(p)
    ensures Filling(out + full, rest, text + word, width)
  {
    ConcatConcat(out, full);
    assert Concat(out) + Concat(full) + rest == Concat(out) + (Concat(full) + rest);
    FullSlicesPair(out, full, width);
    assert full[|full| - 1] in full;
  }

  /** A full slice never fits behind anything. */
  lemma FullSlicesPair(out: seq<string>, full: seq<string>, width: nat)
    requires FullPairs(out, width) && (forall p :: p in out ==> p != "")
    requires 0 < width && forall p :: p in full ==> |p| == width && NoDelimiter(p)
    ensures FullPairs(out + full, width)
  {
    var all := out + full;
    forall i | |out| - 1 <= i < |all| - 1 && 0 <= i ensures Full(all[i], all[i + 1], width) {
      assert all[i + 1] in full && (if i < |out| then all[i] in out else all[i] in full);
      NoDelimiterFirstWord(all[i + 1]);
    }
  }

  lemma {:induction false} NoDelimiterFirstWord(s: string)
    requires NoDelimiter(s)
    ensures FirstWord(s) == s
  {
    if s != "" {
      assert s[0] in s;
      NoDelimiterFirstWord(s[1..]);
    }
  }
}
