// The exact-argument command line of the approval screen: its printer, and a
// decoder that inverts it.

module CommandLine {
  import opened Wrappers
  import opened Text

  // ----- the printer -----

  predicate PlainChar(c: char) {
    !IsWhitespace(c) && !IsControl(c) && c !in {'"', '\'', '\\', '`', '$'}
  }

  predicate Plain(arg: string) {
    arg != "" && forall c :: c in arg ==> PlainChar(c)
  }

  function HexDigit(n: nat): char
    requires n < 16
  {
    "0123456789abcdef"[n]
  }

  /** One character of a JSON string, as serde_json writes it. */
  function EscapeChar(c: char): string {
    var n := c as int;
    if c == '"' then "\\\""
    else if c == '\\' then "\\\\"
    else if n == 8 then "\\b"
    else if n == 9 then "\\t"
    else if n == 10 then "\\n"
    else if n == 12 then "\\f"
    else if n == 13 then "\\r"
    else if n < 0x20 then "\\u00" + [HexDigit(n / 16), HexDigit(n % 16)]
    else [c]
  }

  function EscapeAll(arg: string): string {
    if arg == "" then "" else EscapeChar(arg[0]) + EscapeAll(arg[1..])
  }

  function PrintWord(arg: string): string {
    if Plain(arg) then arg else "\"" + EscapeAll(arg) + "\""
  }

  /** The program and its arguments, joined by single spaces. */
  function Command(words: seq<string>): string
    requires words != []
  {
    if |words| == 1 then PrintWord(words[0]) else PrintWord(words[0]) + " " + Command(words[1..])
  }

  // ----- a decoder -----

  function HexValue(c: char): Option<nat> {
    if '0' <= c <= '9' then Some(c as int - '0' as int)
    else if 'a' <= c <= 'f' then Some(c as int - 'a' as int + 10)
    else if 'A' <= c <= 'F' then Some(c as int - 'A' as int + 10)
    else None
  }

  function HexNumber(digits: string): Option<nat> {
    if digits == "" then Some(0)
    else
      var high, low := HexNumber(digits[..|digits| - 1]), HexValue(digits[|digits| - 1]);
      if high.Some? && low.Some? then Some(16 * high.value + low.value) else None
  }

  /** The escapes of section 7 of RFC 8259: the character meant and the length used.
      A \u escape naming half of a surrogate pair is not accepted. */
  function ReadEscape(s: string): Option<(char, nat)> {
    if |s| < 2 || s[0] != '\\' then None
    else match s[1]
      case '"' => Some(('"', 2))
      case '\\' => Some(('\\', 2))
      case '/' => Some(('/', 2))
      case 'b' => Some((8 as char, 2))
      case 'f' => Some((12 as char, 2))
      case 'n' => Some((10 as char, 2))
      case 'r' => Some((13 as char, 2))
      case 't' => Some((9 as char, 2))
      case 'u' =>
        if |s| < 6 then None
        else
          var n := HexNumber(s[2..6]);
          if n.Some? && (n.value < 0xD800 || 0xE000 <= n.value < 0x1_0000) then Some((n.value as char, 6)) else None
      case _ => None
  }

  /** The unescaped characters of section 7 of RFC 8259. */
  predicate Unescaped(c: char) {
    c as int >= 0x20 && c != '"' && c != '\\'
  }

  /** The contents of a JSON string after its opening quote, and what follows its closing one. */
  function ReadString(s: string): Option<(string, string)>
    decreases |s|
  {
    if s == "" then None
    else if s[0] == '"' then Some(("", s[1..]))
    else
      var c := if Unescaped(s[0]) then Some((s[0], 1)) else ReadEscape(s);
      if c.None? then None
      else
        var rest := ReadString(s[c.value.1..]);
        if rest.None? then None else Some(([c.value.0] + rest.value.0, rest.value.1))
  }

  function BeforeSpace(s: string): string {
    if s == "" || s[0] == ' ' then "" else [s[0]] + BeforeSpace(s[1..])
  }

  lemma {:induction false} BeforeSpaceLength(s: string)
    ensures |BeforeSpace(s)| <= |s|
  {
    if s != "" && s[0] != ' ' {
      BeforeSpaceLength(s[1..]);
    }
  }

  function ReadWord(s: string): Option<(string, string)> {
    if s != "" && s[0] == '"' then ReadString(s[1..])
    else
      BeforeSpaceLength(s);
      Some((BeforeSpace(s), s[|BeforeSpace(s)|..]))
  }

  lemma {:induction false} ReadStringShrinks(s: string)
    ensures ReadString(s).Some? ==> |ReadString(s).value.1| < |s|
    decreases |s|
  {
    if s != "" && s[0] != '"' {
      var c := if Unescaped(s[0]) then Some((s[0], 1)) else ReadEscape(s);
      if c.Some? {
        ReadStringShrinks(s[c.value.1..]);
      }
    }
  }

  lemma ReadWordShrinks(s: string)
    ensures ReadWord(s).Some? ==> |ReadWord(s).value.1| <= |s|
  {
    if s != "" && s[0] == '"' {
      ReadStringShrinks(s[1..]);
    } else {
      BeforeSpaceLength(s);
    }
  }

  function Decode(line: string): Option<seq<string>>
    decreases |line|
  {
    var w := ReadWord(line);
    if w.None? then None
    else if w.value.1 == "" then Some([w.value.0])
    else if w.value.1[0] != ' ' then None
    else
      ReadWordShrinks(line);
      var rest := Decode(w.value.1[1..]);
      if rest.None? then None else Some([w.value.0] + rest.value)
  }

  // ----- printing then decoding -----

  lemma EscapeReadsBack(c: char, rest: string)
    ensures var e := EscapeChar(c);
      if Unescaped(c) then e == [c] else ReadEscape(e + rest) == Some((c, |e|)) && e != "" && e[0] == '\\'
  {
    var n := c as int;
    if n < 0x20 && n !in {8, 9, 10, 12, 13} {
      var e := EscapeChar(c);
      HexDigitReads(n / 16);
      HexDigitReads(n % 16);
      assert (e + rest)[2..6] == ['0', '0', HexDigit(n / 16), HexDigit(n % 16)];
      HexNumberOfFour('0', '0', HexDigit(n / 16), HexDigit(n % 16));
    }
  }

  lemma HexDigitReads(n: nat)
    requires n < 16
    ensures HexValue(HexDigit(n)) == Some(n)
  {
  }

  lemma HexNumberOfFour(a: char, b: char, c: char, d: char)
    requires HexValue(a).Some? && HexValue(b).Some? && HexValue(c).Some? && HexValue(d).Some?
    ensures HexNumber([a, b, c, d])
         == Some(4096 * HexValue(a).value + 256 * HexValue(b).value + 16 * HexValue(c).value + HexValue(d).value)
  {
    assert [a][..0] == [] && [a, b][..1] == [a] && [a, b, c][..2] == [a, b] && [a, b, c, d][..3] == [a, b, c];
    assert HexNumber([a]) == HexValue(a);
    assert HexNumber([a, b]) == Some(16 * HexValue(a).value + HexValue(b).value);
    assert HexNumber([a, b, c]) == Some(256 * HexValue(a).value + 16 * HexValue(b).value + HexValue(c).value);
  }

  lemma {:induction false} ReadStringOfEscaped(arg: string, rest: string)
    ensures ReadString(EscapeAll(arg) + "\"" + rest) == Some((arg, rest))
  {
    var line := EscapeAll(arg) + "\"" + rest;
    if arg == "" {
      assert line == "\"" + rest;
    } else {
      var e, tail := EscapeChar(arg[0]), EscapeAll(arg[1..]) + "\"" + rest;
      assert line == e + tail;
      EscapeReadsBack(arg[0], tail);
      ReadStringOfEscaped(arg[1..], rest);
      assert line[|e|..] == tail;
      assert arg == [arg[0]] + arg[1..];
    }
  }

  lemma {:induction false} BeforeSpaceOfPlain(arg: string, rest: string)
    requires forall c :: c in arg ==> PlainChar(c)
    requires rest == "" || rest[0] == ' '
    ensures BeforeSpace(arg + rest) == arg
  {
    if arg == "" {
      assert arg + rest == rest;
    } else {
      assert arg[0] in arg;
      assert (arg + rest)[1..] == arg[1..] + rest;
      BeforeSpaceOfPlain(arg[1..], rest);
    }
  }

  lemma ReadWordOfPlain(arg: string, rest: string)
    requires Plain(arg) && (rest == "" || rest[0] == ' ')
    ensures ReadWord(arg + rest) == Some((arg, rest))
  {
    BeforeSpaceOfPlain(arg, rest);
    assert arg[0] in arg && PlainChar(arg[0]) && (arg + rest)[0] == arg[0];
    assert (arg + rest)[|arg|..] == rest;
  }

  lemma ReadWordOfQuoted(arg: string, rest: string)
    ensures ReadWord("\"" + EscapeAll(arg) + "\"" + rest) == Some((arg, rest))
  {
    var line := "\"" + EscapeAll(arg) + "\"" + rest;
    ReadStringOfEscaped(arg, rest);
    assert line[1..] == EscapeAll(arg) + "\"" + rest;
  }

  lemma ReadWordOfPrinted(arg: string, rest: string)
    requires rest == "" || rest[0] == ' '
    ensures ReadWord(PrintWord(arg) + rest) == Some((arg, rest))
  {
    if Plain(arg) {
      ReadWordOfPlain(arg, rest);
    } else {
      ReadWordOfQuoted(arg, rest);
    }
  }

  /** Decoding a printed line gives back the program and every argument, whatever they contain. */
  lemma {:induction false} DecodeOfCommand(words: seq<string>)
    requires words != []
    ensures Decode(Command(words)) == Some(words)
  {
    if |words| == 1 {
      ReadWordOfPrinted(words[0], "");
      assert PrintWord(words[0]) + "" == PrintWord(words[0]);
      assert words == [words[0]];
    } else {
      DecodeOfCommand(words[1..]);
      DecodeMore(words[0], Command(words[1..]), words[1..]);
      assert Command(words) == PrintWord(words[0]) + (" " + Command(words[1..]));
      assert words == [words[0]] + words[1..];
    }
  }

  lemma DecodeMore(first: string, line: string, words: seq<string>)
    requires Decode(line) == Some(words)
    ensures Decode(PrintWord(first) + (" " + line)) == Some([first] + words)
  {
    var rest := " " + line;
    ReadWordOfPrinted(first, rest);
    assert rest[1..] == line;
  }

  /** Two commands print alike only when they are the same command. */
  lemma CommandIsInjective(a: seq<string>, b: seq<string>)
    requires a != [] && b != []
    ensures Command(a) == Command(b) <==> a == b
  {
    DecodeOfCommand(a);
    DecodeOfCommand(b);
  }

  lemma {:induction false} EscapesAreLonger(arg: string)
    ensures |EscapeAll(arg)| >= |arg|
  {
    if arg != "" {
      EscapesAreLonger(arg[1..]);
    }
  }

  /** A word is printed bare exactly when it has text and none of these characters. */
  lemma PrintsBareExactly(arg: string)
    ensures PrintWord(arg) == arg
       <==> arg != "" && forall c :: c in arg ==>
              !IsWhitespace(c) && !IsControl(c) && c != '"' && c != '\'' && c != '\\' && c != '`' && c != '$'
  {
    if !Plain(arg) {
      EscapesAreLonger(arg);
    }
  }

  /** The printed line never holds a character below U+0020, so no argument can break or move it. */
  lemma {:induction false} CommandHasNoAsciiControls(words: seq<string>)
    requires words != []
    ensures forall c :: c in Command(words) ==> c as int >= 0x20
  {
    EscapeAllIsPrintable(words[0]);
    if |words| > 1 {
      CommandHasNoAsciiControls(words[1..]);
    }
  }

  lemma {:induction false} EscapeAllIsPrintable(arg: string)
    ensures forall c :: c in EscapeAll(arg) ==> c as int >= 0x20
  {
    if arg != "" {
      EscapeAllIsPrintable(arg[1..]);
    }
  }
}
