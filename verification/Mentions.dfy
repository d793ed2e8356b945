// The two scanners for `@` mentions: one for the context drawer, one for attachments.

module MentionSpans {
  import opened Text

  /** One mention: the `@` stands at `at`, its body is `text[start..end]`, and scanning goes on at `next`. */
  datatype Span = Span(at: nat, start: nat, end: nat, next: nat, quoted: bool)

  predicate Stops(c: char) {
    IsWhitespace(c) || c in {',', ';', ')', '(', '<', '>', '`'}
  }

  predicate OpensQuote(c: char) {
    c == '"' || c == '\'' || c == '['
  }

  function Closer(c: char): char {
    if c == '[' then ']' else c
  }

  /** The first place from `i` where `c` stands, or the end of the text. */
  function FindChar(text: string, i: nat, c: char): (j: nat)
    requires i <= |text|
    ensures i <= j <= |text| && (j < |text| ==> text[j] == c)
    ensures forall k :: i <= k < j ==> text[k] != c
    decreases |text| - i
  {
    if i == |text| || text[i] == c then i else FindChar(text, i + 1, c)
  }

  function FindStop(text: string, i: nat): (j: nat)
    requires i <= |text|
    ensures i <= j <= |text| && (j < |text| ==> Stops(text[j]))
    ensures forall k :: i <= k < j ==> !Stops(text[k])
    decreases |text| - i
  {
    if i == |text| || Stops(text[i]) then i else FindStop(text, i + 1)
  }

  function SpanAt(text: string, at: nat): (s: Span)
    requires at + 1 < |text|
    ensures at < s.start <= s.end <= s.next <= |text|
  {
    var c := text[at + 1];
    if OpensQuote(c) then
      var j := FindChar(text, at + 2, Closer(c));
      Span(at, at + 2, j, if j < |text| then j + 1 else j, true)
    else
      var j := FindStop(text, at + 1);
      Span(at, at + 1, j, j, false)
  }

  /** The mentions from `i` on, in order. An `@` at the very end is no mention. */
  function Spans(text: string, i: nat): seq<Span>
    requires i <= |text|
    decreases |text| - i
  {
    if i == |text| then []
    else if text[i] != '@' || i + 1 == |text| then Spans(text, i + 1)
    else [SpanAt(text, i)] + Spans(text, SpanAt(text, i).next)
  }

  /** Each mention starts at an `@`, and its body runs to the first closing or stopping character. */
  ghost predicate WellFormed(text: string, s: Span) {
    && s.at < s.start <= s.end <= s.next <= |text| && s.at + 1 < |text| && text[s.at] == '@'
    && (s.quoted <==> OpensQuote(text[s.at + 1]))
    && (s.quoted ==>
          && s.start == s.at + 2
          && Closer(text[s.at + 1]) !in text[s.start..s.end]
          && (s.next == s.end == |text| || (s.next == s.end + 1 && text[s.end] == Closer(text[s.at + 1]))))
    && (!s.quoted ==>
          && s.start == s.at + 1 && s.next == s.end
          && (s.end == |text| || Stops(text[s.end]))
          && (forall k :: s.start <= k < s.end ==> !Stops(text[k])))
  }

  lemma SpanAtWellFormed(text: string, at: nat)
    requires at + 1 < |text| && text[at] == '@'
    ensures WellFormed(text, SpanAt(text, at))
  {
  }

  /** Well-formed spans from `i` on, none reaching into the next. */
  ghost predicate Apart(text: string, i: nat, spans: seq<Span>) {
    && (forall k :: 0 <= k < |spans| ==> i <= spans[k].at && WellFormed(text, spans[k]))
    && (forall j, k :: 0 <= j < k < |spans| ==> spans[j].next <= spans[k].at)
  }

  ghost predicate Covered(spans: seq<Span>, p: nat) {
    exists k :: 0 <= k < |spans| && spans[k].at <= p < spans[k].next
  }

  lemma ApartMore(text: string, i: nat, s: Span, rest: seq<Span>)
    requires WellFormed(text, s) && i <= s.at && Apart(text, s.next, rest)
    ensures Apart(text, i, [s] + rest)
  {
  }

  lemma CoveredByEither(s: Span, rest: seq<Span>, p: nat)
    requires s.at <= p < s.next || Covered(rest, p)
    ensures Covered([s] + rest, p)
  {
    var all := [s] + rest;
    if s.at <= p < s.next {
      assert all[0] == s;
    } else {
      var k :| 0 <= k < |rest| && rest[k].at <= p < rest[k].next;
      assert all[k + 1] == rest[k];
    }
  }

  lemma {:induction false} SpansApart(text: string, i: nat)
    requires i <= |text|
    ensures Apart(text, i, Spans(text, i))
    decreases |text| - i
  {
    if i < |text| {
      if text[i] != '@' || i + 1 == |text| {
        SpansApart(text, i + 1);
      } else {
        var s := SpanAt(text, i);
        SpanAtWellFormed(text, i);
        SpansApart(text, s.next);
        ApartMore(text, i, s, Spans(text, s.next));
      }
    }
  }

  lemma {:induction false} SpanCovers(text: string, i: nat, p: nat)
    requires i <= p < |text| - 1 && text[p] == '@'
    ensures Covered(Spans(text, i), p)
    decreases |text| - i
  {
    if text[i] != '@' {
      SpanCovers(text, i + 1, p);
    } else {
      var s := SpanAt(text, i);
      if p >= s.next {
        SpanCovers(text, s.next, p);
      }
      CoveredByEither(s, Spans(text, s.next), p);
    }
  }

  /** The spans are disjoint and in order, and every `@` that has a successor lies in one. */
  lemma SpansPartition(text: string, i: nat)
    requires i <= |text|
    ensures Apart(text, i, Spans(text, i))
    ensures forall p :: i <= p < |text| - 1 && text[p] == '@' ==> Covered(Spans(text, i), p)
  {
    SpansApart(text, i);
    forall p | i <= p < |text| - 1 && text[p] == '@' ensures Covered(Spans(text, i), p) {
      SpanCovers(text, i, p);
    }
  }
}

/** What the tables of characters mean for a text that begins with a mention. */
module MentionShapes {
  import opened Text
  import opened MentionSpans

  /** A bare mention runs up to whitespace or one of these, and may hold anything else. */
  lemma BareMention(body: string, stop: char, rest: string)
    requires body != "" && body[0] != '"' && body[0] != '\'' && body[0] != '['
    requires forall c :: c in body ==>
      !IsWhitespace(c) && c != ',' && c != ';' && c != ')' && c != '(' && c != '<' && c != '>' && c != '`'
    requires IsWhitespace(stop) || stop in {',', ';', ')', '(', '<', '>', '`'}
    ensures SpanAt("@" + body, 0) == Span(0, 1, 1 + |body|, 1 + |body|, false)
    ensures SpanAt("@" + body + [stop] + rest, 0) == Span(0, 1, 1 + |body|, 1 + |body|, false)
  {
    var text, cut := "@" + body, "@" + body + [stop] + rest;
    assert text[1] == body[0] && cut[1] == body[0];
    forall k | 1 <= k < 1 + |body| ensures !Stops(text[k]) && !Stops(cut[k]) {
      assert text[k] == body[k - 1] && cut[k] == body[k - 1] && body[k - 1] in body;
    }
    assert cut[1 + |body|] == stop;
  }

  /** A quoted mention runs up to its own closing character, or to the end of the text. */
  lemma QuotedMention(open: char, close: char, body: string, rest: string)
    requires (open == '"' && close == '"') || (open == '\'' && close == '\'') || (open == '[' && close == ']')
    requires close !in body
    ensures SpanAt("@" + [open] + body, 0) == Span(0, 2, 2 + |body|, 2 + |body|, true)
    ensures SpanAt("@" + [open] + body + [close] + rest, 0) == Span(0, 2, 2 + |body|, 3 + |body|, true)
  {
    var text, cut := "@" + [open] + body, "@" + [open] + body + [close] + rest;
    assert text[1] == open && cut[1] == open;
    forall k | 2 <= k < 2 + |body| ensures text[k] != close && cut[k] != close {
      assert text[k] == body[k - 2] && cut[k] == body[k - 2] && body[k - 2] in body;
    }
    assert cut[2 + |body|] == close;
  }
}

module Mentions {
  import opened Text
  import opened MentionSpans
  import opened Trimming

  // ----- byte offsets -----

  function LenUtf8(c: char): (n: nat)
    ensures 1 <= n <= 4
  {
    var code := c as int;
    if code < 0x80 then 1 else if code < 0x800 then 2 else if code < 0x10000 then 3 else 4
  }

  /** One byte carries seven bits, and `n` bytes from two on carry `5 * n + 1`; the shortest form is used. */
  lemma LenUtf8IsShortest(c: char)
    ensures var code, n := c as int, LenUtf8(c);
      && code < Capacity(n) && (n > 1 ==> code >= Capacity(n - 1))
  {
    assert Pow2(7) == 128 && Pow2(11) == 16 * Pow2(7) && Pow2(16) == 32 * Pow2(11) && Pow2(21) == 32 * Pow2(16);
  }

  function Capacity(bytes: nat): nat {
    Pow2(if bytes == 1 then 7 else 5 * bytes + 1)
  }

  function Pow2(n: nat): nat {
    if n == 0 then 1 else 2 * Pow2(n - 1)
  }

  /** The length of a text in bytes. */
  function Bytes(s: string): nat {
    if s == "" then 0 else Bytes(s[..|s| - 1]) + LenUtf8(s[|s| - 1])
  }

  /** The byte offset of character `i`, as `char_indices` reports it. */
  function Offset(text: string, i: nat): nat
    requires i <= |text|
  {
    Bytes(text[..i])
  }

  /** In ASCII text byte offsets are character offsets. */
  lemma {:induction false} AsciiBytes(s: string)
    requires forall i :: 0 <= i < |s| ==> s[i] as int < 128
    ensures Bytes(s) == |s|
  {
    if s != "" {
      AsciiBytes(s[..|s| - 1]);
    }
  }

  lemma OffsetNext(text: string, i: nat)
    requires i < |text|
    ensures Offset(text, i + 1) == Offset(text, i) + LenUtf8(text[i])
  {
    assert text[..i + 1][..i] == text[..i];
  }

  lemma {:induction false} OffsetsAscend(text: string, i: nat, j: nat)
    requires i <= j <= |text|
    ensures Offset(text, i) + (j - i) <= Offset(text, j)
    decreases j
  {
    if i < j {
      OffsetNext(text, j - 1);
      OffsetsAscend(text, i, j - 1);
    }
  }

  predicate Boundary(text: string, b: nat) {
    exists i :: 0 <= i <= |text| && Offset(text, i) == b
  }

  /** The character at a boundary, searched from `i`. */
  function CharFrom(text: string, b: nat, i: nat): (k: nat)
    requires i <= |text| && exists j :: i <= j <= |text| && Offset(text, j) == b
    ensures k <= |text| && Offset(text, k) == b
    decreases |text| - i
  {
    if Offset(text, i) == b then i else CharFrom(text, b, i + 1)
  }

  function CharAt(text: string, b: nat): (k: nat)
    requires Boundary(text, b)
    ensures k <= |text| && Offset(text, k) == b
  {
    CharFrom(text, b, 0)
  }

  lemma OffsetIsInjective(text: string, i: nat, j: nat)
    requires i <= |text| && j <= |text| && Offset(text, i) == Offset(text, j)
    ensures i == j
  {
    if i < j {
      OffsetsAscend(text, i, j);
    } else {
      OffsetsAscend(text, j, i);
    }
  }

  /** `text[lo..hi]` over byte offsets, which must be those of characters `i` and `j`. */
  method Slice(text: string, lo: nat, hi: nat, ghost i: nat, ghost j: nat) returns (s: string)
    requires i <= j <= |text| && lo == Offset(text, i) && hi == Offset(text, j)
    ensures s == text[i..j]
  {
    assert Boundary(text, lo) && Boundary(text, hi);
    var first, last := CharAt(text, lo), CharAt(text, hi);
    OffsetIsInjective(text, i, first);
    OffsetIsInjective(text, j, last);
    s := text[first..last];
  }

  // ----- targets -----

  predicate ContextPunct(c: char) {
    c in {'.', '!', '?', ']', '}'}
  }

  predicate FilePunct(c: char) {
    c in {'.', ':', '!', '?', ']', '}'}
  }

  /** What a mention names: quoted bodies lose outer whitespace, bare ones also punctuation. */
  function Target(text: string, s: Span, punct: char -> bool): string
    requires s.start <= s.end <= |text|
  {
    var body := text[s.start..s.end];
    Trim(if s.quoted then body else Trim(body, punct), IsWhitespace)
  }

  ghost predicate Bodies(text: string, spans: seq<Span>) {
    forall s :: s in spans ==> s.at < s.start <= s.end <= s.next <= |text|
  }

  /** The non-empty targets, in order. */
  ghost function Targets(text: string, spans: seq<Span>, punct: char -> bool): seq<string>
    requires Bodies(text, spans)
  {
    if spans == [] then []
    else
      var t := Target(text, spans[0], punct);
      (if t == "" then [] else [t]) + Targets(text, spans[1..], punct)
  }

  datatype RawMention = RawMention(raw: string, target: string)

  /** The mention as it was written, quotes included; a bare one is written back from its target. */
  function MentionOf(text: string, s: Span): RawMention
    requires s.at < s.start <= s.end <= s.next <= |text|
  {
    var t := Target(text, s, ContextPunct);
    RawMention(if s.quoted then text[s.at..s.next] else "@" + t, t)
  }

  ghost function ContextMentions(text: string, spans: seq<Span>): seq<RawMention>
    requires Bodies(text, spans)
  {
    if spans == [] then []
    else
      var m := MentionOf(text, spans[0]);
      (if m.target == "" then [] else [m]) + ContextMentions(text, spans[1..])
  }

  function TargetsOf(mentions: seq<RawMention>): seq<string> {
    if mentions == [] then [] else [mentions[0].target] + TargetsOf(mentions[1..])
  }

  lemma {:induction false} ContextTargets(text: string, spans: seq<Span>)
    requires Bodies(text, spans)
    ensures TargetsOf(ContextMentions(text, spans)) == Targets(text, spans, ContextPunct)
  {
    if spans != [] {
      ContextTargets(text, spans[1..]);
      var m, rest := MentionOf(text, spans[0]), ContextMentions(text, spans[1..]);
      assert ([m] + rest)[1..] == rest && [] + rest == rest;
    }
  }

  // ----- the two scanners -----

  lemma SpansHaveBodies(text: string, i: nat)
    requires i <= |text|
    ensures Bodies(text, Spans(text, i))
  {
    SpansPartition(text, i);
  }

  /** The context scanner's loop over a quoted body; `next` counts characters, the ends count bytes. */
  method ContextQuoted(text: string, from: nat, closer: char) returns (next: nat, end: nat, rawEnd: nat)
    requires from <= |text|
    ensures var j := FindChar(text, from, closer);
      next == (if j < |text| then j + 1 else j) && end == Offset(text, j) && rawEnd == Offset(text, next)
  {
    next, end, rawEnd := from, Offset(text, from), Offset(text, from);
    while next < |text|
      invariant from <= next <= |text| && FindChar(text, next, closer) == FindChar(text, from, closer)
      invariant end == rawEnd == Offset(text, next)
    {
      var idx, c := Offset(text, next), text[next];
      OffsetNext(text, next);
      next := next + 1;
      if c == closer {
        rawEnd := idx + LenUtf8(c);
        break;
      }
      end := idx + LenUtf8(c);
      rawEnd := end;
    }
  }

  /** The attachment scanner's. */
  method FileQuoted(text: string, from: nat, closer: char) returns (next: nat, end: nat)
    requires from <= |text|
    ensures var j := FindChar(text, from, closer);
      next == (if j < |text| then j + 1 else j) && end == Offset(text, j)
  {
    next, end := from, Offset(text, from);
    while next < |text|
      invariant from <= next <= |text| && FindChar(text, next, closer) == FindChar(text, from, closer)
      invariant end == Offset(text, next)
    {
      var idx, c := Offset(text, next), text[next];
      OffsetNext(text, next);
      next := next + 1;
      if c == closer {
        end := idx;
        break;
      }
      end := idx + LenUtf8(c);
    }
  }

  /** The loop both scanners use on a bare mention; a stopping character is left unread. */
  method Bare(text: string, from: nat) returns (next: nat, end: nat)
    requires from <= |text|
    ensures next == FindStop(text, from) && end == Offset(text, next)
  {
    next, end := from, Bytes(text);
    assert text[..|text|] == text;
    while next < |text|
      invariant from <= next <= |text| && FindStop(text, next) == FindStop(text, from)
      invariant end == Offset(text, |text|)
    {
      var idx, c := Offset(text, next), text[next];
      if Stops(c) {
        end := idx;
        break;
      }
      next := next + 1;
    }
  }

  /** One mention of the context scanner, its `@` at character `at`. */
  method ContextMentionAt(text: string, at: nat) returns (m: RawMention, next: nat)
    requires at + 1 < |text|
    ensures m == MentionOf(text, SpanAt(text, at)) && next == SpanAt(text, at).next
  {
    var c, atIdx, nextIdx := text[at + 1], Offset(text, at), Offset(text, at + 1);
    ghost var s := SpanAt(text, at);
    var end: nat, body: string;
    if OpensQuote(c) {
      var start := nextIdx + LenUtf8(c);
      OffsetNext(text, at + 1);
      var rawEnd;
      next, end, rawEnd := ContextQuoted(text, at + 2, Closer(c));
      body := Slice(text, start, end, s.start, s.end);
      var raw := Slice(text, atIdx, rawEnd, at, s.next);
      m := RawMention(raw, Trim(body, IsWhitespace));
    } else {
      next, end := Bare(text, at + 1);
      body := Slice(text, nextIdx, end, s.start, s.end);
      var target := Trim(Trim(body, ContextPunct), IsWhitespace);
      m := RawMention("@" + target, target);
    }
  }

  /** One mention of the attachment scanner. */
  method FileMentionAt(text: string, at: nat) returns (target: string, next: nat)
    requires at + 1 < |text|
    ensures target == Target(text, SpanAt(text, at), FilePunct) && next == SpanAt(text, at).next
  {
    var c, nextIdx := text[at + 1], Offset(text, at + 1);
    ghost var s := SpanAt(text, at);
    var end: nat, body: string;
    if OpensQuote(c) {
      var start := nextIdx + LenUtf8(c);
      OffsetNext(text, at + 1);
      next, end := FileQuoted(text, at + 2, Closer(c));
      body := Slice(text, start, end, s.start, s.end);
      target := Trim(body, IsWhitespace);
    } else {
      next, end := Bare(text, at + 1);
      body := Slice(text, nextIdx, end, s.start, s.end);
      target := Trim(Trim(body, FilePunct), IsWhitespace);
    }
  }

  lemma ContextStep(text: string, i: nat)
    requires i < |text|
    ensures Bodies(text, Spans(text, i))
    ensures text[i] != '@' || i + 1 == |text| ==> Spans(text, i) == Spans(text, i + 1)
    ensures text[i] == '@' && i + 1 < |text| ==>
      var m, next := MentionOf(text, SpanAt(text, i)), SpanAt(text, i).next;
      Bodies(text, Spans(text, next))
      && ContextMentions(text, Spans(text, i))
         == (if m.target == "" then [] else [m]) + ContextMentions(text, Spans(text, next))
  {
    SpansHaveBodies(text, i);
    if text[i] == '@' && i + 1 < |text| {
      assert Spans(text, i)[1..] == Spans(text, SpanAt(text, i).next);
      SpansHaveBodies(text, SpanAt(text, i).next);
    }
  }

  lemma FileStep(text: string, i: nat)
    requires i < |text|
    ensures Bodies(text, Spans(text, i))
    ensures text[i] != '@' || i + 1 == |text| ==> Spans(text, i) == Spans(text, i + 1)
    ensures text[i] == '@' && i + 1 < |text| ==>
      var t, next := Target(text, SpanAt(text, i), FilePunct), SpanAt(text, i).next;
      Bodies(text, Spans(text, next))
      && Targets(text, Spans(text, i), FilePunct)
         == (if t == "" then [] else [t]) + Targets(text, Spans(text, next), FilePunct)
  {
    SpansHaveBodies(text, i);
    if text[i] == '@' && i + 1 < |text| {
      assert Spans(text, i)[1..] == Spans(text, SpanAt(text, i).next);
      SpansHaveBodies(text, SpanAt(text, i).next);
    }
  }

  lemma MoveOne<T>(before: seq<T>, todo: seq<T>)
    requires todo != []
    ensures before + todo == (before + [todo[0]]) + todo[1..]
  {
  }

  method ParseContextMentions(text: string) returns (mentions: seq<RawMention>)
    ensures Bodies(text, Spans(text, 0)) && mentions == ContextMentions(text, Spans(text, 0))
  {
    mentions := [];
    var i := 0;
    SpansHaveBodies(text, 0);
    ghost var whole := ContextMentions(text, Spans(text, 0));
    ghost var todo := whole;
    while i < |text|
      invariant 0 <= i <= |text| && Bodies(text, Spans(text, i)) && todo == ContextMentions(text, Spans(text, i))
      invariant mentions + todo == whole
    {
      ContextStep(text, i);
      if text[i] != '@' || i + 1 == |text| {
        i := i + 1;
      } else {
        var m, next := ContextMentionAt(text, i);
        if m.target != "" {
          MoveOne(mentions, todo);
          mentions, todo := mentions + [m], todo[1..];
        }
        i := next;
      }
    }
  }

  /** `extract_file_mentions` up to where bare paths are appended. */
  method ExtractFileMentions(text: string) returns (mentions: seq<string>)
    ensures Bodies(text, Spans(text, 0)) && mentions == Targets(text, Spans(text, 0), FilePunct)
  {
    mentions := [];
    var i := 0;
    SpansHaveBodies(text, 0);
    ghost var whole := Targets(text, Spans(text, 0), FilePunct);
    ghost var todo := whole;
    while i < |text|
      invariant 0 <= i <= |text| && Bodies(text, Spans(text, i)) && todo == Targets(text, Spans(text, i), FilePunct)
      invariant mentions + todo == whole
    {
      FileStep(text, i);
      if text[i] != '@' || i + 1 == |text| {
        i := i + 1;
      } else {
        var target, next := FileMentionAt(text, i);
        if target != "" {
          MoveOne(mentions, todo);
          mentions, todo := mentions + [target], todo[1..];
        }
        i := next;
      }
    }
  }

  // ----- when they agree -----

  predicate ColonEnded(target: string) {
    target != "" && (target[0] == ':' || target[|target| - 1] == ':')
  }

  /** A bare body holds no whitespace, so only punctuation is trimmed off it. */
  lemma BareTarget(text: string, s: Span, punct: char -> bool)
    requires WellFormed(text, s) && !s.quoted
    ensures Target(text, s, punct) == Trim(text[s.start..s.end], punct)
  {
    var body := text[s.start..s.end];
    TrimLeaves(body, punct);
    forall c | c in body ensures !IsWhitespace(c) {
      var k :| 0 <= k < |body| && body[k] == c;
      assert !Stops(text[s.start + k]);
    }
    var t := Trim(body, punct);
    assert t != "" ==> t[0] in t && t[|t| - 1] in t;
    TrimKeepsExactly(t, IsWhitespace);
  }

  /** The attachment scanner's target is the other's, shorter exactly when that begins or ends with a colon. */
  lemma TargetsDiffer(text: string, s: Span)
    requires WellFormed(text, s)
    ensures var c, f := Target(text, s, ContextPunct), Target(text, s, FilePunct);
      |f| <= |c| && (f == c <==> s.quoted || !ColonEnded(c)) && (f != c ==> |f| < |c|)
  {
    if !s.quoted {
      BareTarget(text, s, ContextPunct);
      BareTarget(text, s, FilePunct);
      var body := text[s.start..s.end];
      var c := Trim(body, ContextPunct);
      TrimTwice(body, ContextPunct, FilePunct);
      TrimLeaves(body, ContextPunct);
      TrimKeepsExactly(c, FilePunct);
    }
  }

  function TotalLength(targets: seq<string>): nat {
    if targets == [] then 0 else |targets[0]| + TotalLength(targets[1..])
  }

  lemma TargetsLength(text: string, spans: seq<Span>, punct: char -> bool)
    requires Bodies(text, spans) && spans != []
    ensures TotalLength(Targets(text, spans, punct))
         == |Target(text, spans[0], punct)| + TotalLength(Targets(text, spans[1..], punct))
  {
    var t, rest := Target(text, spans[0], punct), Targets(text, spans[1..], punct);
    assert ([t] + rest)[1..] == rest && [] + rest == rest;
  }

  ghost predicate NoColonEnds(text: string, spans: seq<Span>)
    requires Bodies(text, spans)
  {
    forall s :: s in spans && !s.quoted ==> !ColonEnded(Target(text, s, ContextPunct))
  }

  lemma {:induction false} SpansAgree(text: string, spans: seq<Span>)
    requires Bodies(text, spans) && forall s :: s in spans ==> WellFormed(text, s)
    ensures NoColonEnds(text, spans) ==> Targets(text, spans, FilePunct) == Targets(text, spans, ContextPunct)
    ensures var f, c := TotalLength(Targets(text, spans, FilePunct)), TotalLength(Targets(text, spans, ContextPunct));
      f <= c && (!NoColonEnds(text, spans) ==> f < c)
  {
    if spans != [] {
      assert spans[0] in spans && forall s :: s in spans[1..] ==> s in spans;
      assert forall s :: s in spans ==> s == spans[0] || s in spans[1..];
      TargetsDiffer(text, spans[0]);
      TargetsLength(text, spans, FilePunct);
      TargetsLength(text, spans, ContextPunct);
      SpansAgree(text, spans[1..]);
    }
  }

  /** The scanners name the same things exactly when no bare mention, trimmed as the context
      scanner trims it, begins or ends with a colon. */
  lemma ScannersAgreeExactly(text: string)
    ensures var spans := Spans(text, 0);
      && Bodies(text, spans)
      && (TargetsOf(ContextMentions(text, spans)) == Targets(text, spans, FilePunct) <==> NoColonEnds(text, spans))
  {
    var spans := Spans(text, 0);
    SpansPartition(text, 0);
    SpansHaveBodies(text, 0);
    ContextTargets(text, spans);
    SpansAgree(text, spans);
  }

  /** `@a:` names `a:` to one scanner and `a` to the other. */
  lemma ScannersCanDiffer()
    ensures var spans := Spans("@a:", 0);
      Bodies("@a:", spans) && TargetsOf(ContextMentions("@a:", spans)) != Targets("@a:", spans, FilePunct)
  {
    var text := "@a:";
    var s := Span(0, 1, 3, 3, false);
    assert FindStop(text, 3) == 3 && FindStop(text, 2) == 3 && FindStop(text, 1) == 3;
    assert SpanAt(text, 0) == s && Spans(text, 3) == [];
    assert Spans(text, 0) == [s];
    SpansPartition(text, 0);
    assert s in [s] && text[1..3] == "a:";
    BareTarget(text, s, ContextPunct);
    TrimKeepsExactly("a:", ContextPunct);
    ScannersAgreeExactly(text);
  }

  // ----- a mention read again -----

  lemma OneSpan(raw: string, s: Span)
    requires |raw| >= 2 && raw[0] == '@' && SpanAt(raw, 0) == s && s.next == |raw|
    ensures Spans(raw, 0) == [s] && Bodies(raw, [s])
    ensures ContextMentions(raw, [s]) == if MentionOf(raw, s).target == "" then [] else [MentionOf(raw, s)]
  {
    assert Spans(raw, |raw|) == [] && [s][1..] == [];
    assert ContextMentions(raw, [s][1..]) == [];
  }

  lemma SliceOfSlice(text: string, a: nat, b: nat, i: nat, j: nat)
    requires a <= b <= |text| && i <= j <= b - a
    ensures text[a..b][i..j] == text[a + i..a + j]
    ensures text[a..b][0..b - a] == text[a..b]
  {
    forall k | 0 <= k < j - i ensures text[a..b][i..j][k] == text[a + i..a + j][k] {}
  }

  /** The same mention with the text around it cut off. */
  lemma QuotedAlone(text: string, s: Span)
    requires WellFormed(text, s) && s.quoted
    ensures var raw := text[s.at..s.next];
      && |raw| >= 2 && raw[0] == '@' && SpanAt(raw, 0) == Span(0, 2, s.end - s.at, |raw|, true)
      && raw[2..s.end - s.at] == text[s.start..s.end] && raw[0..|raw|] == raw
  {
    var raw, closer := text[s.at..s.next], Closer(text[s.at + 1]);
    var end := s.end - s.at;
    assert raw[0] == '@' && raw[1] == text[s.at + 1];
    forall k | 2 <= k < end ensures raw[k] != closer {
      assert raw[k] == text[s.start..s.end][k - 2];
    }
    if end < |raw| {
      assert raw[end] == text[s.end];
    }
    assert FindChar(raw, 2, closer) == end;
    assert OpensQuote(raw[1]) && Closer(raw[1]) == closer;
    assert SpanAt(raw, 0) == Span(0, 2, end, if end < |raw| then end + 1 else end, true);
    SliceOfSlice(text, s.at, s.next, 2, end);
  }

  lemma QuotedRawReadsBack(text: string, s: Span)
    requires WellFormed(text, s) && s.quoted && Target(text, s, ContextPunct) != ""
    ensures var m := MentionOf(text, s);
      Bodies(m.raw, Spans(m.raw, 0)) && ContextMentions(m.raw, Spans(m.raw, 0)) == [m]
  {
    QuotedAlone(text, s);
    var raw := text[s.at..s.next];
    OneSpan(raw, Span(0, 2, s.end - s.at, |raw|, true));
  }

  lemma BareAlone(t: string)
    requires t != "" && (forall c :: c in t ==> !Stops(c)) && !OpensQuote(t[0])
    ensures SpanAt("@" + t, 0) == Span(0, 1, 1 + |t|, 1 + |t|, false) && ("@" + t)[1..1 + |t|] == t
  {
    var raw := "@" + t;
    assert raw[1] == t[0];
    forall k | 1 <= k < |raw| ensures !Stops(raw[k]) {
      assert raw[k] == t[k - 1] && t[k - 1] in t;
    }
  }

  lemma BareAloneNames(t: string)
    requires t != "" && forall c :: c in t ==> !IsWhitespace(c)
    requires !ContextPunct(t[0]) && !ContextPunct(t[|t| - 1])
    ensures MentionOf("@" + t, Span(0, 1, 1 + |t|, 1 + |t|, false)) == RawMention("@" + t, t)
  {
    assert t[0] in t && t[|t| - 1] in t && ("@" + t)[1..1 + |t|] == t;
    TrimKeepsExactly(t, ContextPunct);
    TrimKeepsExactly(t, IsWhitespace);
  }

  lemma BareRawReads(t: string)
    requires t != "" && forall c :: c in t ==> !Stops(c) && !IsWhitespace(c)
    requires !ContextPunct(t[0]) && !ContextPunct(t[|t| - 1])
    ensures Bodies("@" + t, Spans("@" + t, 0))
    ensures ContextMentions("@" + t, Spans("@" + t, 0)) == [RawMention("@" + t, t)] <==> !OpensQuote(t[0])
  {
    if !OpensQuote(t[0]) {
      BareAlone(t);
      OneSpan("@" + t, Span(0, 1, 1 + |t|, 1 + |t|, false));
      BareAloneNames(t);
    } else {
      ReadAsQuoted(t);
    }
  }

  lemma ReadAsQuoted(t: string)
    requires t != "" && OpensQuote(t[0])
    ensures Bodies("@" + t, Spans("@" + t, 0))
    ensures var read := ContextMentions("@" + t, Spans("@" + t, 0)); read != [] ==> read[0].target != t
  {
    var raw := "@" + t;
    SpansPartition(raw, 0);
    SpansHaveBodies(raw, 0);
    TargetsAreShorter(raw, Spans(raw, 0));
  }

  /** In a text of this shape no body is long enough. */
  lemma {:induction false} TargetsAreShorter(raw: string, spans: seq<Span>)
    requires Bodies(raw, spans) && |raw| >= 2 && OpensQuote(raw[1])
    requires forall s :: s in spans ==> WellFormed(raw, s)
    ensures var read := ContextMentions(raw, spans); read != [] ==> |read[0].target| < |raw| - 1
  {
    if spans != [] {
      var s := spans[0];
      assert s in spans && forall x :: x in spans[1..] ==> x in spans;
      TargetsAreShorter(raw, spans[1..]);
      TargetIsShorter(raw, s);
      assert ([MentionOf(raw, s)] + ContextMentions(raw, spans[1..]))[0] == MentionOf(raw, s);
    }
  }

  lemma TargetIsShorter(raw: string, s: Span)
    requires WellFormed(raw, s) && |raw| >= 2 && OpensQuote(raw[1])
    ensures |Target(raw, s, ContextPunct)| < |raw| - 1
  {
    var body := raw[s.start..s.end];
    assert s.start >= 2;
    TrimLeaves(body, ContextPunct);
    TrimLeaves(body, IsWhitespace);
    TrimLeaves(Trim(body, ContextPunct), IsWhitespace);
  }

  /** What the context scanner writes down for a mention reads back as that mention, unless trimming a bare
      one brought a quote or bracket to its front. */
  lemma RawReadsBackExactly(text: string, s: Span)
    requires WellFormed(text, s) && Target(text, s, ContextPunct) != ""
    ensures var m := MentionOf(text, s);
      && Bodies(m.raw, Spans(m.raw, 0))
      && (ContextMentions(m.raw, Spans(m.raw, 0)) == [m] <==> s.quoted || m.target[0] !in {'"', '\'', '['})
  {
    if s.quoted {
      QuotedRawReadsBack(text, s);
    } else {
      var t, body := Target(text, s, ContextPunct), text[s.start..s.end];
      BareTarget(text, s, ContextPunct);
      TrimLeaves(body, ContextPunct);
      forall c | c in t ensures !Stops(c) && !IsWhitespace(c) {
        var k :| 0 <= k < |body| && body[k] == c;
        assert !Stops(text[s.start + k]);
      }
      BareRawReads(t);
    }
  }

  lemma DotQuoteIsTrimmed()
    ensures Trim(".\"x", ContextPunct) == "\"x"
  {
    assert ".\"x"[1..] == "\"x";
    TrimKeepsExactly("\"x", ContextPunct);
    assert TrimStart(".\"x", ContextPunct) == TrimStart("\"x", ContextPunct) == "\"x";
  }

  lemma DotQuoteSpan()
    ensures var text, s := "@.\"x", Span(0, 1, 4, 4, false);
      Spans(text, 0) == [s] && WellFormed(text, s) && MentionOf(text, s) == RawMention("@\"x", "\"x")
  {
    var text, s := "@.\"x", Span(0, 1, 4, 4, false);
    assert FindStop(text, 4) == 4 && FindStop(text, 3) == 4 && FindStop(text, 2) == 4 && FindStop(text, 1) == 4;
    assert SpanAt(text, 0) == s;
    OneSpan(text, s);
    SpanAtWellFormed(text, 0);
    BareTarget(text, s, ContextPunct);
    DotQuoteIsTrimmed();
    assert text[1..4] == ".\"x" && "@" + "\"x" == "@\"x";
  }

  /** `@."x` is written down as `@"x`, which names something else. */
  lemma RawCanMislead()
    ensures var text, s := "@.\"x", Span(0, 1, 4, 4, false);
      && Spans(text, 0) == [s] && MentionOf(text, s) == RawMention("@\"x", "\"x")
      && Bodies("@\"x", Spans("@\"x", 0)) && ContextMentions("@\"x", Spans("@\"x", 0)) != [MentionOf(text, s)]
  {
    DotQuoteSpan();
    RawReadsBackExactly("@.\"x", Span(0, 1, 4, 4, false));
  }
}
