// The prompt's word splitter, and when it undoes the approval screen's printer.

module WordSplitter {
  import opened Wrappers
  import opened Text
  import opened CommandLine

  predicate IsQuote(c: char) {
    c == '\'' || c == '"'
  }

  /** The quote still open after `s`, when `q` is open before it. */
  function OpenQuote(s: string, q: Option<char>): Option<char> {
    if s == "" then q else OpenQuote(s[1..], NextQuote(s[0], q))
  }

  function NextQuote(c: char, q: Option<char>): Option<char> {
    if q.Some? then (if c == q.value then None else q)
    else if IsQuote(c) then Some(c) else None
  }

  /** A quote that opens or closes, which the words do not keep. */
  predicate Delimits(c: char, q: Option<char>) {
    if q.Some? then c == q.value else IsQuote(c)
  }

  predicate Separates(c: char, q: Option<char>) {
    q.None? && IsWhitespace(c)
  }

  function Glue(prefix: string, fields: seq<string>): seq<string>
    requires fields != []
  {
    [prefix + fields[0]] + fields[1..]
  }

  /** The text cut at every unquoted whitespace character, delimiting quotes removed. */
  function Fields(s: string, q: Option<char>): (f: seq<string>)
    ensures f != []
  {
    if s == "" then [""]
    else
      var rest := Fields(s[1..], NextQuote(s[0], q));
      if Delimits(s[0], q) then rest
      else if Separates(s[0], q) then [""] + rest
      else Glue([s[0]], rest)
  }

  function NonEmpty(fields: seq<string>): seq<string> {
    if fields == [] then []
    else (if fields[0] == "" then [] else [fields[0]]) + NonEmpty(fields[1..])
  }

  /** The words are the non-empty fields; an open quote is an error. */
  function Split(s: string): Option<seq<string>> {
    if OpenQuote(s, None).Some? then None else Some(NonEmpty(Fields(s, None)))
  }

  /** What is left to learn from `s` when no quote is open and no word has begun. */
  function Reading(s: string): (Option<char>, seq<string>) {
    (OpenQuote(s, None), NonEmpty(Fields(s, None)))
  }

  lemma LeadingWhitespaceAddsNothing(command: string, i: nat)
    requires i < |command| && IsWhitespace(command[i])
    ensures Fields(command[i..], None) == [""] + Fields(command[i + 1..], None)
    ensures Reading(command[i..]) == Reading(command[i + 1..])
  {
    assert command[i..][1..] == command[i + 1..];
    var rest := Fields(command[i + 1..], None);
    assert ([""] + rest)[1..] == rest && [] + NonEmpty(rest) == NonEmpty(rest);
  }

  /** The inner loop: `peek` and skip. */
  method SkipWhitespace(command: string, start: nat) returns (i: nat)
    requires start <= |command|
    ensures start <= i <= |command|
    ensures Reading(command[i..]) == Reading(command[start..])
  {
    i := start;
    while i < |command| && IsWhitespace(command[i])
      invariant start <= i <= |command|
      invariant Reading(command[i..]) == Reading(command[start..])
    {
      LeadingWhitespaceAddsNothing(command, i);
      i := i + 1;
    }
  }

  method SplitCommandWords(command: string) returns (result: Option<seq<string>>)
    ensures result == Split(command)
  {
    var words: seq<string> := [];
    var current := "";
    var quote: Option<char> := None;
    var i := 0;
    assert command[0..] == command;
    GlueEmpty(Fields(command, None));
    while i < |command|
      invariant 0 <= i <= |command|
      invariant OpenQuote(command, None) == OpenQuote(command[i..], quote)
      invariant NonEmpty(Fields(command, None)) == words + NonEmpty(Glue(current, Fields(command[i..], quote)))
    {
      var c := command[i];
      ReadOne(command, i, words, current, quote);
      i := i + 1;
      if quote.Some? {
        if c == quote.value {
          quote := None;
        } else {
          current := current + [c];
        }
      } else if IsQuote(c) {
        quote := Some(c);
      } else if IsWhitespace(c) {
        if current != "" {
          words := words + [current];
          current := "";
        }
        i := SkipWhitespace(command, i);
        GlueEmpty(Fields(command[i..], None));
      } else {
        current := current + [c];
      }
    }
    ReadAll(words, current);
    if quote.Some? {
      return None;
    }
    if current != "" {
      words := words + [current];
    }
    return Some(words);
  }

  /** How one character moves from the text to the current word. */
  lemma ReadOne(command: string, i: nat, words: seq<string>, current: string, quote: Option<char>)
    requires i < |command|
    ensures var c, rest := command[i], command[i + 1..];
      var next := NextQuote(c, quote);
      && OpenQuote(command[i..], quote) == OpenQuote(rest, next)
      && words + NonEmpty(Glue(current, Fields(command[i..], quote))) ==
           if Delimits(c, quote) then words + NonEmpty(Glue(current, Fields(rest, next)))
           else if Separates(c, quote) then
             (if current == "" then words else words + [current]) + NonEmpty(Fields(rest, next))
           else words + NonEmpty(Glue(current + [c], Fields(rest, next)))
  {
    var c := command[i];
    var rest := Fields(command[i + 1..], NextQuote(c, quote));
    assert command[i..][1..] == command[i + 1..];
    if Separates(c, quote) {
      assert current + "" == current;
      assert Glue(current, [""] + rest) == [current] + rest;
    } else if !Delimits(c, quote) {
      GlueAssociates(current, [c], rest);
    }
  }

  lemma ReadAll(words: seq<string>, current: string)
    ensures words + NonEmpty(Glue(current, Fields("", None))) == if current == "" then words else words + [current]
  {
    GlueSingle(current);
    assert [current][1..] == [];
  }

  lemma GlueAssociates(a: string, b: string, fields: seq<string>)
    requires fields != []
    ensures Glue(a, Glue(b, fields)) == Glue(a + b, fields)
  {
    assert a + (b + fields[0]) == (a + b) + fields[0];
  }

  lemma GlueEmpty(fields: seq<string>)
    requires fields != []
    ensures Glue("", fields) == fields
  {
    assert "" + fields[0] == fields[0];
  }

  lemma GlueSingle(word: string)
    ensures Glue(word, [""]) == [word]
  {
    assert word + "" == word;
  }

  // ----- what the words are -----

  /** The characters that stay: all but unquoted whitespace and delimiting quotes. */
  function Kept(s: string, q: Option<char>): string {
    if s == "" then ""
    else (if Delimits(s[0], q) || Separates(s[0], q) then "" else [s[0]]) + Kept(s[1..], NextQuote(s[0], q))
  }

  lemma {:induction false} FieldsKeep(s: string, q: Option<char>)
    ensures Concat(Fields(s, q)) == Kept(s, q)
  {
    if s != "" {
      var rest := Fields(s[1..], NextQuote(s[0], q));
      FieldsKeep(s[1..], NextQuote(s[0], q));
      assert Glue([s[0]], rest)[1..] == rest[1..];
      assert ([s[0]] + rest[0]) + Concat(rest[1..]) == [s[0]] + (rest[0] + Concat(rest[1..]));
      assert ([""] + rest)[1..] == rest;
    }
  }

  lemma {:induction false} NonEmptyKeeps(fields: seq<string>)
    ensures Concat(NonEmpty(fields)) == Concat(fields)
    ensures forall w :: w in NonEmpty(fields) ==> w != ""
  {
    if fields != [] {
      NonEmptyKeeps(fields[1..]);
      assert [] + NonEmpty(fields[1..]) == NonEmpty(fields[1..]);
      assert fields[0] == "" ==> fields[0] + Concat(fields[1..]) == Concat(fields[1..]);
      assert ([fields[0]] + NonEmpty(fields[1..]))[1..] == NonEmpty(fields[1..]);
    }
  }

  /** Splitting fails exactly on an open quote; otherwise the words are non-empty and hold
      the text in order, without its unquoted whitespace and delimiting quotes. */
  lemma SplitIsLossless(s: string)
    ensures Split(s).None? <==> OpenQuote(s, None).Some?
    ensures Split(s).Some? ==> Concat(Split(s).value) == Kept(s, None) && forall w :: w in Split(s).value ==> w != ""
  {
    FieldsKeep(s, None);
    NonEmptyKeeps(Fields(s, None));
  }

  lemma {:induction false} UnquotedFields(s: string)
    requires '\'' !in s && '"' !in s
    ensures OpenQuote(s, None).None? && forall f, c :: f in Fields(s, None) && c in f ==> !IsWhitespace(c)
  {
    if s != "" {
      assert s[0] in s;
      UnquotedFields(s[1..]);
      var rest := Fields(s[1..], None);
      forall f, c | f in Fields(s, None) && c in f ensures !IsWhitespace(c) {
        if !IsWhitespace(s[0]) {
          assert f in rest || f == [s[0]] + rest[0];
          assert rest[0] in rest;
        } else {
          assert f == "" || f in rest;
        }
      }
    }
  }

  lemma {:induction false} NonEmptyComeFrom(fields: seq<string>)
    ensures forall w :: w in NonEmpty(fields) ==> w in fields
  {
    if fields != [] {
      NonEmptyComeFrom(fields[1..]);
    }
  }

  /** Without quotes, the words are the pieces between whitespace. */
  lemma UnquotedWordsHaveNoWhitespace(s: string)
    requires '\'' !in s && '"' !in s
    ensures Split(s).Some? && forall w, c :: w in Split(s).value && c in w ==> !IsWhitespace(c)
  {
    UnquotedFields(s);
    NonEmptyComeFrom(Fields(s, None));
  }

  /** Text in either kind of quotes is one word, whatever else it holds. */
  lemma QuotedIsOneWord(word: string, q: char)
    requires (q == '\'' || q == '"') && q !in word && word != ""
    ensures Split([q] + word + [q]) == Some([word])
  {
    var s, inner := [q] + word + [q], word + [q];
    assert s == [q] + inner && s[1..] == inner && [q][1..] == "";
    FieldsInQuotes(word, [q], q);
    assert Fields([q], Some(q)) == Fields("", None) == [""];
    assert OpenQuote([q], Some(q)) == OpenQuote("", None) == None;
    GlueSingle(word);
    assert Fields(s, None) == Fields(inner, Some(q)) == [word];
    assert OpenQuote(s, None) == OpenQuote(inner, Some(q));
    assert [word][1..] == [] && NonEmpty([word]) == [word] + NonEmpty([]);
  }

  // ----- splitting a printed command -----

  /** A character JSON writes as an escape. */
  predicate Escaped(c: char) {
    !Unescaped(c)
  }

  predicate SplitsBack(word: string) {
    word != "" && forall c :: c in word ==> !Escaped(c)
  }

  lemma {:induction false} FieldsOfBare(word: string, rest: string)
    requires forall c :: c in word ==> PlainChar(c)
    ensures OpenQuote(word + rest, None) == OpenQuote(rest, None)
    ensures Fields(word + rest, None) == Glue(word, Fields(rest, None))
  {
    if word == "" {
      assert word + rest == rest;
      GlueEmpty(Fields(rest, None));
    } else {
      assert word[0] in word && (word + rest)[1..] == word[1..] + rest;
      FieldsOfBare(word[1..], rest);
      GlueAssociates([word[0]], word[1..], Fields(rest, None));
      assert [word[0]] + word[1..] == word;
    }
  }

  lemma {:induction false} FieldsInQuotes(word: string, rest: string, q: char)
    requires q !in word
    ensures OpenQuote(word + rest, Some(q)) == OpenQuote(rest, Some(q))
    ensures Fields(word + rest, Some(q)) == Glue(word, Fields(rest, Some(q)))
  {
    if word == "" {
      assert word + rest == rest;
      GlueEmpty(Fields(rest, Some(q)));
    } else {
      assert word[0] in word && (word + rest)[1..] == word[1..] + rest;
      FieldsInQuotes(word[1..], rest, q);
      GlueAssociates([word[0]], word[1..], Fields(rest, Some(q)));
      assert [word[0]] + word[1..] == word;
    }
  }

  lemma {:induction false} EscapeNothing(word: string)
    requires forall c :: c in word ==> !Escaped(c)
    ensures EscapeAll(word) == word
  {
    if word != "" {
      assert word[0] in word;
      EscapeNothing(word[1..]);
    }
  }

  lemma FieldsOfPrinted(word: string, rest: string)
    requires SplitsBack(word)
    ensures OpenQuote(PrintWord(word) + rest, None) == OpenQuote(rest, None)
    ensures Fields(PrintWord(word) + rest, None) == Glue(word, Fields(rest, None))
  {
    if Plain(word) {
      FieldsOfBare(word, rest);
    } else {
      EscapeNothing(word);
      var line, inner := PrintWord(word) + rest, word + ("\"" + rest);
      assert line == "\"" + inner && line[1..] == inner && line[0] == '"';
      assert ("\"" + rest)[1..] == rest;
      FieldsInQuotes(word, "\"" + rest, '"');
    }
  }

  lemma {:induction false} FieldsOfCommand(words: seq<string>)
    requires words != [] && forall w :: w in words ==> SplitsBack(w)
    ensures OpenQuote(Command(words), None) == None
    ensures Fields(Command(words), None) == words
  {
    if |words| == 1 {
      FieldsOfPrinted(words[0], "");
      assert PrintWord(words[0]) + "" == Command(words);
      GlueSingle(words[0]);
      assert words == [words[0]];
    } else {
      var rest := " " + Command(words[1..]);
      assert words[0] in words;
      FieldsOfPrinted(words[0], rest);
      FieldsOfCommand(words[1..]);
      assert rest[1..] == Command(words[1..]);
      LeadingWhitespaceAddsNothing(rest, 0);
      assert rest[0..] == rest;
      assert Command(words) == PrintWord(words[0]) + rest;
      assert words[0] + "" == words[0] && words == [words[0]] + words[1..];
    }
  }

  lemma {:induction false} NonEmptyOfFull(fields: seq<string>)
    requires forall w :: w in fields ==> w != ""
    ensures NonEmpty(fields) == fields
  {
    if fields != [] {
      assert fields[0] in fields && forall w :: w in fields[1..] ==> w in fields;
      NonEmptyOfFull(fields[1..]);
    }
  }

  /** How many characters of `s` satisfy `p`. */
  function Count(s: string, p: char -> bool): nat {
    if s == "" then 0 else (if p(s[0]) then 1 else 0) + Count(s[1..], p)
  }

  lemma {:induction false} CountConcat(a: string, b: string, p: char -> bool)
    ensures Count(a + b, p) == Count(a, p) + Count(b, p)
  {
    if a == "" {
      assert a + b == b;
    } else {
      assert (a + b)[1..] == a[1..] + b;
      CountConcat(a[1..], b, p);
    }
  }

  function IsBackslash(c: char): bool { c == '\\' }

  lemma {:induction false} KeptKeepsBackslashes(s: string, q: Option<char>)
    requires q.Some? ==> IsQuote(q.value)
    ensures Count(Kept(s, q), IsBackslash) == Count(s, IsBackslash)
  {
    if s != "" {
      KeptKeepsBackslashes(s[1..], NextQuote(s[0], q));
      var kept := if Delimits(s[0], q) || Separates(s[0], q) then "" else [s[0]];
      CountConcat(kept, Kept(s[1..], NextQuote(s[0], q)), IsBackslash);
    }
  }

  /** Printing adds one backslash for every escaped character. */
  lemma {:induction false} EscapesAreCounted(word: string)
    ensures Count(EscapeAll(word), IsBackslash) == Count(word, IsBackslash) + Count(word, Escaped)
  {
    if word != "" {
      EscapesAreCounted(word[1..]);
      CountConcat(EscapeChar(word[0]), EscapeAll(word[1..]), IsBackslash);
      EscapeCharCount(word[0]);
    }
  }

  lemma EscapeCharCount(c: char)
    ensures Count(EscapeChar(c), IsBackslash) == (if IsBackslash(c) then 1 else 0) + if Escaped(c) then 1 else 0
  {
    var e := EscapeChar(c);
    CountOne(e[0]);
    assert e == [e[0]] + e[1..];
    CountConcat([e[0]], e[1..], IsBackslash);
    if Escaped(c) {
      CountZero(e[1..], IsBackslash);
      if |e| == 2 {
        CountOne(e[1]);
        assert e[1..] == [e[1]];
      }
    }
  }

  lemma CountOne(c: char)
    ensures Count([c], IsBackslash) == if IsBackslash(c) then 1 else 0
  {
    assert [c][1..] == "";
  }

  lemma {:induction false} CountZero(s: string, p: char -> bool)
    ensures Count(s, p) == 0 <==> forall c :: c in s ==> !p(c)
  {
    if s != "" {
      CountZero(s[1..], p);
      assert s == [s[0]] + s[1..];
    }
  }

  lemma PrintedBackslashes(word: string)
    ensures Count(PrintWord(word), IsBackslash) == Count(word, IsBackslash) + Count(word, Escaped)
  {
    if Plain(word) {
      CountZero(word, Escaped);
    } else {
      EscapesAreCounted(word);
      CountConcat("\"", EscapeAll(word), IsBackslash);
      CountConcat("\"" + EscapeAll(word), "\"", IsBackslash);
    }
  }

  lemma {:induction false} CommandBackslashes(words: seq<string>)
    requires words != []
    ensures Count(Command(words), IsBackslash) == Count(Concat(words), IsBackslash) + Count(Concat(words), Escaped)
  {
    PrintedBackslashes(words[0]);
    CountConcat(words[0], Concat(words[1..]), IsBackslash);
    CountConcat(words[0], Concat(words[1..]), Escaped);
    if |words| > 1 {
      CommandBackslashes(words[1..]);
      CountConcat(PrintWord(words[0]), " ", IsBackslash);
      CountConcat(PrintWord(words[0]) + " ", Command(words[1..]), IsBackslash);
    }
  }

  lemma {:induction false} ConcatHolds(words: seq<string>, w: string, c: char)
    requires w in words && c in w
    ensures c in Concat(words)
  {
    if words[0] != w {
      ConcatHolds(words[1..], w, c);
    }
  }

  /** Splitting the approval screen's line gives the command back exactly when every word
      is non-empty and free of double quotes, backslashes and ASCII control characters. */
  lemma SplitOfCommandExactly(words: seq<string>)
    requires words != []
    ensures Split(Command(words)) == Some(words) <==> forall w :: w in words ==> SplitsBack(w)
  {
    if forall w :: w in words ==> SplitsBack(w) {
      FieldsOfCommand(words);
      NonEmptyOfFull(words);
    }
    if Split(Command(words)) == Some(words) {
      SplitIsLossless(Command(words));
      KeptKeepsBackslashes(Command(words), None);
      CommandBackslashes(words);
      CountZero(Concat(words), Escaped);
      forall w | w in words ensures SplitsBack(w) {
        forall c | c in w ensures !Escaped(c) {
          ConcatHolds(words, w, c);
        }
      }
    }
  }
}
