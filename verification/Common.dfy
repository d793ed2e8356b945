// Vocabulary shared by the other modules.

module Wrappers {
  datatype Option<+T> = None | Some(value: T)

  datatype Result<+T, +E> = Ok(value: T) | Err(error: E)

  function Max(a: int, b: int): int {
    if a < b then b else a
  }

  function Min(a: int, b: int): int {
    if a < b then a else b
  }

  /** No element occurs twice. */
  ghost predicate Distinct<T>(s: seq<T>) {
    forall i, j :: 0 <= i < j < |s| ==> s[i] != s[j]
  }
}

/** The questions the program asks of characters and strings. */
module Text {
  /** The Unicode White_Space property, which `char::is_whitespace` tests. */
  predicate IsWhitespace(c: char) {
    var n := c as int;
    9 <= n <= 13 || n in {0x20, 0x85, 0xA0, 0x1680, 0x2028, 0x2029, 0x202F, 0x205F, 0x3000} ||
    0x2000 <= n <= 0x200A
  }

  /** The Unicode category Cc, which `char::is_control` tests. */
  predicate IsControl(c: char) {
    c as int < 0x20 || 0x7F <= c as int <= 0x9F
  }

  /** The 25 code points with that property. */
  lemma WhitespaceExactly(c: char)
    ensures IsWhitespace(c) <==> c as int in {
      0x09, 0x0A, 0x0B, 0x0C, 0x0D, 0x20, 0x85, 0xA0, 0x1680,
      0x2000, 0x2001, 0x2002, 0x2003, 0x2004, 0x2005, 0x2006, 0x2007, 0x2008, 0x2009, 0x200A,
      0x2028, 0x2029, 0x202F, 0x205F, 0x3000}
  {
  }

  /** The two blocks of 32 below U+00A0, and the delete character. */
  lemma ControlExactly(c: char)
    ensures IsControl(c) <==> (c as int < 0xA0 && c as int % 0x80 < 0x20) || c as int == 0x7F
  {
  }

  predicate HasPrefix(s: string, prefix: string) {
    |prefix| <= |s| && s[..|prefix|] == prefix
  }

  lemma PrefixExactly(s: string, prefix: string)
    ensures HasPrefix(s, prefix) <==> exists t :: s == prefix + t
  {
    if HasPrefix(s, prefix) {
      assert s == prefix + s[|prefix|..];
    }
  }

  /** Backslashes become slashes: `diff_path`, and the paths of an installed tree. */
  function Normalize(path: string): string {
    if path == "" then "" else [if path[0] == '\\' then '/' else path[0]] + Normalize(path[1..])
  }

  lemma {:induction false} NormalizeIs(path: string)
    ensures '\\' !in Normalize(path)
    ensures '\\' !in path ==> Normalize(path) == path
  {
    if path != "" {
      NormalizeIs(path[1..]);
      assert path == [path[0]] + path[1..];
    }
  }

  /** Character by character. */
  lemma {:induction false} NormalizeExactly(path: string)
    ensures |Normalize(path)| == |path|
    ensures forall i :: 0 <= i < |path| ==> Normalize(path)[i] == if path[i] == '\\' then '/' else path[i]
  {
    if path != "" {
      NormalizeExactly(path[1..]);
    }
  }

  /** All pieces in order, with nothing between them. */
  function Concat(pieces: seq<string>): string {
    if pieces == [] then "" else pieces[0] + Concat(pieces[1..])
  }

  lemma {:induction false} ConcatAppend(pieces: seq<string>, last: string)
    ensures Concat(pieces + [last]) == Concat(pieces) + last
  {
    if pieces == [] {
      assert Concat([last]) == last + Concat([]);
    } else {
      assert (pieces + [last])[1..] == pieces[1..] + [last];
      ConcatAppend(pieces[1..], last);
    }
  }

  lemma {:induction false} ConcatConcat(a: seq<string>, b: seq<string>)
    ensures Concat(a + b) == Concat(a) + Concat(b)
  {
    if a == [] {
      assert a + b == b;
    } else {
      assert (a + b)[1..] == a[1..] + b;
      ConcatConcat(a[1..], b);
    }
  }
}
