// Packing the Ask prompt into a token limit.

module AskPacking {
  import opened Wrappers
  import opened Text
  import opened Trimming

  const INTRO := "# Workspace context\n"
  const RULES :=
    "Use this context to answer the Ask question. Cite workspace paths when you rely on them. " +
    "If the answer is not supported by this context, say what is missing.\n\n"
  const MARKER := "\n[context truncated]\n"

  /** Four characters to a token, rounded up. */
  function Estimate(text: string): nat {
    (|text| + 3) / 4
  }

  function TrimToBudget(text: string, maxTokens: nat): string {
    if |text| <= 4 * maxTokens then text
    else text[..Max(4 * maxTokens - 24, 0)] + MARKER
  }

  function EndsWithNewline(s: string): bool {
    s != "" && s[|s| - 1] == '\n'
  }

  /** What one section adds to a prompt that ends in `trimmed`. */
  function Separated(out: string): string {
    out + if EndsWithNewline(out) then "\n" else "\n\n"
  }

  function Push(out: string, section: string, budget: nat): string {
    if Estimate(out) >= budget then out
    else
      var trimmed := TrimToBudget(section, budget - Estimate(out));
      if trimmed == "" then out else Separated(out + trimmed)
  }

  function Pack(out: string, sections: seq<string>, budget: nat): string
    decreases |sections|
  {
    if sections == [] then out
    else
      var next := Push(out, sections[0], budget);
      if Estimate(next) >= budget then next else Pack(next, sections[1..], budget)
  }

  function QuestionSection(question: string): string {
    "\n# Question\n" + Trim(question, IsWhitespace) + "\n"
  }

  function ContextBudget(limit: nat, question: string): nat {
    Min(Max(Max(limit - Estimate(QuestionSection(question)), 0), 96), limit)
  }

  method PushBudgetedSection(prompt: string, section: string, maxTokens: nat) returns (out: string)
    ensures out == Push(prompt, section, maxTokens)
  {
    out := prompt;
    var used := Estimate(out);
    if used >= maxTokens {
      return;
    }
    var remaining := maxTokens - used;
    var trimmed := TrimToBudget(section, remaining);
    if trimmed != "" {
      out := out + trimmed;
      ghost var joined := out;
      if !EndsWithNewline(out) {
        out := out + "\n";
      }
      out := out + "\n";
      assert joined + "\n" + "\n" == joined + "\n\n";
    }
  }

  method PackSections(start: string, sections: seq<string>, budget: nat) returns (prompt: string)
    ensures prompt == Pack(start, sections, budget)
  {
    prompt := start;
    assert sections[0..] == sections;
    for i := 0 to |sections|
      invariant Pack(prompt, sections[i..], budget) == Pack(start, sections, budget)
    {
      assert sections[i..][1..] == sections[i + 1..];
      prompt := PushBudgetedSection(prompt, sections[i], budget);
      if Estimate(prompt) >= budget {
        return;
      }
    }
  }

  /** What a section comes to: itself and an empty line where it has room, else its beginning and the marker. */
  ghost predicate IsBlock(block: string, section: string, room: nat) {
    if section == "" then block == ""
    else if |section| <= 4 * room then block == section + if EndsWithNewline(section) then "\n" else "\n\n"
    else block == section[..Max(4 * room - 24, 0)] + "\n[context truncated]\n" + "\n"
  }

  ghost predicate IsBlockAt(start: string, sections: seq<string>, blocks: seq<string>, budget: nat, i: nat)
    requires i < |blocks| <= |sections|
  {
    var used := Estimate(start + Concat(blocks[..i]));
    used < budget && IsBlock(blocks[i], sections[i], budget - used)
  }

  /** The blocks of the first sections, in order, until the budget is reached. */
  ghost predicate AreBlocks(start: string, sections: seq<string>, blocks: seq<string>, budget: nat) {
    && |blocks| <= |sections|
    && (forall i :: 0 <= i < |blocks| ==> IsBlockAt(start, sections, blocks, budget, i))
    && (|blocks| < |sections| ==> Estimate(start + Concat(blocks)) >= budget)
  }

  lemma PushIsBlock(out: string, section: string, budget: nat) returns (block: string)
    requires Estimate(out) < budget
    ensures Push(out, section, budget) == out + block && IsBlock(block, section, budget - Estimate(out))
  {
    var trimmed := TrimToBudget(section, budget - Estimate(out));
    TrimBound(section, budget - Estimate(out));
    block := if trimmed == "" then "" else Separated(trimmed);
    if trimmed != "" {
      LastOfSum(out, trimmed);
    }
  }

  lemma ConcatShift(out: string, block: string, rest: seq<string>)
    ensures out + Concat([block] + rest) == (out + block) + Concat(rest)
  {
    assert ([block] + rest)[1..] == rest;
  }

  lemma BlockShift(out: string, block: string, sections: seq<string>, blocks: seq<string>, budget: nat, i: nat)
    requires i < |blocks| < |sections| && IsBlockAt(out + block, sections[1..], blocks, budget, i)
    ensures IsBlockAt(out, sections, [block] + blocks, budget, i + 1)
  {
    assert ([block] + blocks)[..i + 1] == [block] + blocks[..i];
    ConcatShift(out, block, blocks[..i]);
  }

  lemma BlocksCons(out: string, block: string, sections: seq<string>, blocks: seq<string>, budget: nat)
    requires sections != [] && Estimate(out) < budget && IsBlock(block, sections[0], budget - Estimate(out))
    requires AreBlocks(out + block, sections[1..], blocks, budget)
    ensures AreBlocks(out, sections, [block] + blocks, budget)
  {
    var all := [block] + blocks;
    ConcatShift(out, block, blocks);
    forall i | 0 <= i < |all| ensures IsBlockAt(out, sections, all, budget, i) {
      if i == 0 {
        assert all[..0] == [] && out + "" == out;
      } else {
        BlockShift(out, block, sections, blocks, budget, i - 1);
      }
    }
  }

  /** Packing appends the blocks and nothing else. */
  lemma {:induction false} PackIsBlocks(out: string, sections: seq<string>, budget: nat) returns (blocks: seq<string>)
    ensures Pack(out, sections, budget) == out + Concat(blocks) && AreBlocks(out, sections, blocks, budget)
    decreases |sections|
  {
    blocks := [];
    assert out + "" == out;
    if sections != [] && Estimate(out) < budget {
      var block := PushIsBlock(out, sections[0], budget);
      var next := out + block;
      if Estimate(next) < budget {
        var rest := PackIsBlocks(next, sections[1..], budget);
        BlocksCons(out, block, sections, rest, budget);
        ConcatShift(out, block, rest);
        blocks := [block] + rest;
      } else {
        assert next + "" == next;
        BlocksCons(out, block, sections, [], budget);
        ConcatShift(out, block, []);
        blocks := [block] + [];
      }
    }
  }

  /** The header, the blocks, and `words` under the question heading, all of it as far as the limit goes. */
  ghost predicate Assembled(prompt: string, sections: seq<string>, blocks: seq<string>, words: string, limit: nat)
    requires limit >= 128
  {
    var asked := "\n# Question\n" + words + "\n";
    var whole := INTRO + RULES + Concat(blocks) + asked;
    && AreBlocks(INTRO + RULES, sections, blocks, Min(Max(limit - Estimate(asked), 96), limit))
    && prompt == if |whole| <= 4 * limit then whole else whole[..4 * limit - 24] + "\n[context truncated]\n"
  }

  lemma PromptIsAssembled(sections: seq<string>, question: string, limit: nat)
    returns (blocks: seq<string>, words: string)
    requires limit >= 128
    ensures Inner(words, question, IsWhitespace)
    ensures Assembled(FinalPrompt(sections, question, limit), sections, blocks, words, limit)
  {
    words := Trim(question, IsWhitespace);
    TrimIsInner(question, IsWhitespace);
    var start, asked := INTRO + RULES, "\n# Question\n" + words + "\n";
    BudgetIs(limit, question, asked);
    blocks := PackIsBlocks(start, sections, ContextBudget(limit, question));
    CutIs(start + Concat(blocks) + asked, limit);
  }

  lemma BudgetIs(limit: nat, question: string, asked: string)
    requires asked == QuestionSection(question)
    ensures ContextBudget(limit, question) == Min(Max(limit - Estimate(asked), 96), limit)
  {
  }

  lemma CutIs(text: string, limit: nat)
    requires limit >= 128
    ensures TrimToBudget(text, limit)
         == if |text| <= 4 * limit then text else text[..4 * limit - 24] + "\n[context truncated]\n"
  {
  }

  /** The packing part of `build_ask_context`: the header, the blocks of the sections, and the question
      without outer whitespace under its heading, cut to the limit as a whole. The reported figure is the
      estimate itself. */
  method BuildPrompt(sections: seq<string>, question: string, maxTokens: nat)
    returns (prompt: string, contextTokens: nat, ghost blocks: seq<string>, ghost words: string)
    ensures var limit := Max(maxTokens, 128);
      && prompt == FinalPrompt(sections, question, limit)
      && contextTokens == Estimate(prompt) <= limit
    ensures Inner(words, question, IsWhitespace)
    ensures Assembled(prompt, sections, blocks, words, Max(maxTokens, 128))
  {
    var limit := Max(maxTokens, 128);
    blocks, words := PromptIsAssembled(sections, question, limit);
    var section := QuestionSection(question);
    var budget := ContextBudget(limit, question);
    prompt := PackSections(INTRO + RULES, sections, budget);
    prompt := prompt + section;
    prompt := TrimToBudget(prompt, limit);
    TrimBound(Packed(sections, question, limit) + section, limit);
    contextTokens := Min(Estimate(prompt), limit);
  }

  function Packed(sections: seq<string>, question: string, limit: nat): string {
    Pack(INTRO + RULES, sections, ContextBudget(limit, question))
  }

  function FinalPrompt(sections: seq<string>, question: string, limit: nat): string {
    TrimToBudget(Packed(sections, question, limit) + QuestionSection(question), limit)
  }

  // ----- bounds -----

  /** A trimmed text keeps to its budget from six tokens up; below that only the marker may be left. */
  lemma TrimBound(text: string, budget: nat)
    ensures |TrimToBudget(text, budget)| <= Max(4 * budget, 21)
    ensures budget >= 6 ==> Estimate(TrimToBudget(text, budget)) <= budget
    ensures |text| > 4 * budget ==>
      |TrimToBudget(text, budget)| == Max(4 * budget - 24, 0) + 21 && EndsWithNewline(TrimToBudget(text, budget))
  {
    assert |MARKER| == 21 && MARKER[20] == '\n';
    if |text| > 4 * budget {
      var kept := text[..Max(4 * budget - 24, 0)];
      assert (kept + MARKER)[|kept| + 20] == MARKER[20];
    }
  }

  lemma LastOfSum(a: string, b: string)
    requires b != ""
    ensures EndsWithNewline(a + b) == EndsWithNewline(b)
  {
    assert (a + b)[|a| + |b| - 1] == b[|b| - 1];
  }

  /** One section overshoots by at most eighteen characters, and only ever appends. */
  lemma PushBound(out: string, section: string, budget: nat)
    ensures out <= Push(out, section, budget)
    ensures Estimate(out) < budget ==> |Push(out, section, budget)| <= 4 * budget + 18
    ensures Estimate(out) >= budget ==> Push(out, section, budget) == out
  {
    if Estimate(out) < budget {
      var r := budget - Estimate(out);
      var trimmed := TrimToBudget(section, r);
      TrimBound(section, r);
      if trimmed != "" {
        LastOfSum(out, trimmed);
      }
    }
  }

  /** For any sections: packing only appends, overshoots by at most eighteen characters, and adds
      nothing once the budget is reached. */
  lemma {:induction false} PackBound(out: string, sections: seq<string>, budget: nat)
    ensures out <= Pack(out, sections, budget)
    ensures |Pack(out, sections, budget)| <= Max(|out|, 4 * budget + 18)
    ensures Estimate(out) >= budget ==> Pack(out, sections, budget) == out
    decreases |sections|
  {
    if sections != [] {
      PushBound(out, sections[0], budget);
      PackBound(Push(out, sections[0], budget), sections[1..], budget);
    }
  }

  /** The fixed header takes 179 characters, so it fits every context budget. */
  lemma HeaderFits(question: string, limit: nat)
    requires limit >= 128
    ensures Estimate(INTRO + RULES) < 96 <= ContextBudget(limit, question) <= limit
  {
    assert |INTRO| == 20;
    assert |RULES| == 159;
  }

  /** The eighteen characters are reached. */
  lemma OvershootIsTight(out: string, section: string, budget: nat)
    requires budget > 0 && |out| == 4 * (budget - 1) && |section| > 4
    ensures |Push(out, section, budget)| == 4 * budget + 18
  {
    TrimBound(section, 1);
    LastOfSum(out, TrimToBudget(section, 1));
  }

  // ----- what truncation costs -----

  /** The first section that has any text. */
  function FirstText(sections: seq<string>): string {
    if sections == [] then "" else if sections[0] != "" then sections[0] else FirstText(sections[1..])
  }

  /** Too little room for more than one further section. */
  predicate NearlyFull(out: string, budget: nat) {
    Estimate(out) >= budget || |out| > 4 * budget - 6
  }

  lemma TruncationFills(out: string, section: string, budget: nat)
    requires Estimate(out) < budget && |section| > 4 * (budget - Estimate(out))
    ensures NearlyFull(Push(out, section, budget), budget)
  {
    var r := budget - Estimate(out);
    TrimBound(section, r);
    LastOfSum(out, TrimToBudget(section, r));
  }

  lemma LastRoomFills(out: string, section: string, budget: nat)
    requires section != "" && NearlyFull(out, budget)
    ensures Estimate(Push(out, section, budget)) >= budget
  {
    if Estimate(out) < budget {
      TrimBound(section, budget - Estimate(out));
      LastOfSum(out, TrimToBudget(section, budget - Estimate(out)));
    }
  }

  /** Once a section has been cut, at most one more section with any text is let in. */
  lemma {:induction false} OneMoreSection(out: string, more: seq<string>, budget: nat)
    requires NearlyFull(out, budget)
    ensures Pack(out, more, budget) == Push(out, FirstText(more), budget)
  {
    PackBound(out, more, budget);
    if more != [] && Estimate(out) < budget {
      if more[0] != "" {
        LastRoomFills(out, more[0], budget);
      } else {
        OneMoreSection(out, more[1..], budget);
      }
    }
  }

  lemma TruncationNearlyEnds(out: string, section: string, more: seq<string>, budget: nat)
    requires Estimate(out) < budget && |section| > 4 * (budget - Estimate(out))
    ensures Pack(out, [section] + more, budget) == Push(Push(out, section, budget), FirstText(more), budget)
  {
    TruncationFills(out, section, budget);
    OneMoreSection(Push(out, section, budget), more, budget);
    assert ([section] + more)[1..] == more;
  }

  /** The question survives whole exactly when it and the context together fit. When the question
      alone leaves room for a context, at most 42 characters at its end give way to the marker. */
  lemma QuestionSurvivesExactly(sections: seq<string>, question: string, limit: nat)
    requires limit >= 128
    ensures var context, section := Packed(sections, question, limit), QuestionSection(question);
      && (FinalPrompt(sections, question, limit) == context + section <==> |context| + |section| <= 4 * limit)
      && (Estimate(section) + 96 <= limit ==>
            (context + section)[..Max(|context| + |section| - 42, 0)] <= FinalPrompt(sections, question, limit))
  {
    var context, section := Packed(sections, question, limit), QuestionSection(question);
    var whole := context + section;
    TrimBound(whole, limit);
    HeaderFits(question, limit);
    PackBound(INTRO + RULES, sections, ContextBudget(limit, question));
  }

  /** It can be cut although there was room for it: for every question a context of these lengths
      overshoots and takes its place. */
  lemma OvershootCutsQuestion(first: string, second: string, question: string, limit: nat)
    requires limit >= 128 && Estimate(QuestionSection(question)) + 96 <= limit
    requires |first| == 4 * (ContextBudget(limit, question) - 1) - |INTRO + RULES| - 1 && EndsWithNewline(first)
    requires |second| > 4
    ensures FinalPrompt([first, second], question, limit)
         != Packed([first, second], question, limit) + QuestionSection(question)
  {
    var start, budget := INTRO + RULES, ContextBudget(limit, question);
    HeaderFits(question, limit);
    LastOfSum(start, first);
    var next := Push(start, first, budget);
    assert |next| == 4 * (budget - 1);
    OvershootIsTight(next, second, budget);
    assert [first, second][1..] == [second];
    assert Pack(next, [second], budget) == Push(next, second, budget);
    QuestionSurvivesExactly([first, second], question, limit);
  }

  /** So no condition on the question alone keeps it whole. */
  lemma NoQuestionIsSafe(question: string, limit: nat)
    requires limit >= 128 && Estimate(QuestionSection(question)) + 96 <= limit
    ensures exists sections ::
      FinalPrompt(sections, question, limit) != Packed(sections, question, limit) + QuestionSection(question)
  {
    HeaderFits(question, limit);
    assert |INTRO + RULES| == 179;
    var first := seq(4 * (ContextBudget(limit, question) - 1) - 180, _ => '\n');
    OvershootCutsQuestion(first, "12345", question, limit);
  }
}
