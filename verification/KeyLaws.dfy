// What a key may do, one law for each part of the app, whatever handler the
// key reaches.

module KeyLaws {
  import opened Wrappers
  import opened Approval
  import opened ApprovalSafety

  // ----- when -----

  /** No prompt waits, no goal is held, and the artifacts panel is closed. */
  predicate Unprompted(s: App) {
    s.plans == [] && s.mcp == [] && s.heldGoal.None? && !s.screen.artifactsOpen
  }

  /** Nothing covers the current mode. */
  predicate InMode(s: App, mode: Mode) {
    Unprompted(s) && !s.screen.helpOpen && s.screen.mode == mode
  }

  predicate InTyping(s: App) {
    InMode(s, GoalTyping) || InMode(s, TaskTyping)
  }

  /** Enter on the open palette with this option under the cursor. */
  predicate Chooses(s: App, k: Key, v: View, option: PaletteOption) {
    InMode(s, CommandPalette) && k.code == Enter && v.palette == Some(option)
  }

  /** Enter on a prompt with text in it. */
  predicate Enters(s: App, k: Key, v: View) {
    InTyping(s) && k.code == Enter && v.submitted.Some?
  }

  /** What was entered reads like an API key, or there is no model to send it to. */
  predicate GoesToSettings(s: App, v: View) {
    v.looksLikeKey || !s.screen.modelReady
  }

  predicate Submits(s: App, k: Key, v: View) {
    Enters(s, k, v) && !GoesToSettings(s, v)
  }

  /** Y, Enter or N on the host question. */
  predicate AnswersHost(s: App, k: Key) {
    s.plans == [] && s.mcp == [] && s.heldGoal.Some? && k.code in {Enter, Char('y'), Char('Y'), Char('n'), Char('N')}
  }

  /** The goal being clarified, or the selected one. */
  function Clarified(s: App): nat {
    if s.screen.clarifyGoal.Some? then s.screen.clarifyGoal.value else s.selected
  }

  predicate AnswersClarify(s: App, k: Key, v: View) {
    InMode(s, Clarify) && k.code == Enter && v.answer.Some?
  }

  /** No open question comes after this one. */
  predicate LastQuestion(s: App) {
    Clarified(s) < |s.goals| ==> s.screen.clarifyQuestion + 1 >= s.goals[Clarified(s)].questions
  }

  /** The last answer, for a goal that is still there. */
  predicate Clarifies(s: App, k: Key, v: View) {
    AnswersClarify(s, k, v) && LastQuestion(s) && Clarified(s) < |s.goals|
  }

  predicate Deletes(s: App, k: Key, v: View) {
    && s.selected < |s.goals|
    && ((InTyping(s) && k.ctrl && k.code == Char('d')) || Chooses(s, k, v, DeleteSelectedGoal))
  }

  /** C on a selected goal with open questions, while the prompt is empty. */
  predicate BeginsClarify(s: App, k: Key, v: View) {
    && InTyping(s) && k.code in {Char('c'), Char('C')} && !k.ctrl && v.promptEmpty
    && s.selected < |s.goals| && s.goals[s.selected].questions > 0
  }

  /** Ctrl+C, and Esc with nothing left to close. */
  predicate AsksToQuit(s: App, k: Key) {
    || (s.plans == [] && s.mcp != [] && k.ctrl && k.code == Char('c'))
    || (Unprompted(s) && !s.screen.helpOpen
        && ((k.ctrl && k.code == Char('c')) || (k.code == Esc && !s.screen.logOpen && Typing(s.screen.mode))))
  }

  /** Esc in a mode that Esc leaves. */
  predicate Leaves(s: App, k: Key) {
    Unprompted(s) && !s.screen.helpOpen && !s.screen.logOpen && k.code == Esc && !Typing(s.screen.mode)
  }

  // ----- the laws -----

  /** Ctrl+Y while the selected goal can be applied. */
  predicate AppliesSelected(s: App, k: Key, v: View) {
    Unprompted(s) && k.ctrl && k.code == Char('y') && s.selected < |s.goals| && v.canApply
  }

  predicate Quits(s: App, k: Key, v: View) {
    (AsksToQuit(s, k) && s.screen.quitArmed && v.quitWindowOpen) || Chooses(s, k, v, QuitApp)
  }

  /** Keys that the Ask and Settings panels never see. */
  predicate TakenFromPanels(k: Key) {
    k.code == Esc || (k.ctrl && k.code in {Char('c'), Char(';'), Char('v'), Char('V')})
  }

  /** What a key asks of the loop while no plan and no MCP request waits: to apply the selected goal, to
      quit, to queue what was submitted, held or clarified, or to do what a panel says. */
  function IntentAfter(s: App, k: Key, v: View): Option<Intent> {
    if AppliesSelected(s, k, v) then Some(ApplyLocal(s.goals[s.selected].taskId))
    else if Quits(s, k, v) then Some(Quit)
    else if AnswersHost(s, k) then
      Some(if s.heldGoal.value.1 then QueueTask(s.heldGoal.value.0) else QueueGoal(s.heldGoal.value.0))
    else if Submits(s, k, v) && s.hostApproved.Some? then
      Some(if s.screen.mode == TaskTyping then QueueTask(v.submitted.value) else QueueGoal(v.submitted.value))
    else if Clarifies(s, k, v) then Some(QueueGoal(v.answer.value))
    else if InMode(s, CommandPalette) && k.code == Enter
            && v.palette in {Some(Memories), Some(Histories), Some(PasteClipboard)} then Some(Panel)
    else if Unprompted(s) && !s.screen.helpOpen && k.ctrl && k.code in {Char('v'), Char('V')} then Some(Panel)
    else if (InMode(s, Ask) || InMode(s, Settings)) && !TakenFromPanels(k)
            && v.panelIntent in {Some(SaveSettings), Some(Panel)} then v.panelIntent
    else None
  }

  /** The list of goals after a key. */
  function GoalsAfter(s: App, k: Key, v: View): seq<Goal> {
    if AnswersHost(s, k) then [Goal(s.nextTask, s.heldGoal.value.0, 0)] + s.goals
    else if Submits(s, k, v) && s.hostApproved.Some? then [Goal(s.nextTask, v.submitted.value, 0)] + s.goals
    else if Deletes(s, k, v) then s.goals[..s.selected] + s.goals[s.selected + 1..]
    else if Chooses(s, k, v, ClearHistory) then []
    else if Clarifies(s, k, v) then s.goals[Clarified(s) := Goal(s.goals[Clarified(s)].taskId, v.answer.value, 0)]
    else s.goals
  }

  /** A new goal takes the next id, and nothing else does. */
  function NextTaskAfter(s: App, k: Key, v: View): TaskId {
    if AnswersHost(s, k) || (Submits(s, k, v) && s.hostApproved.Some?) then s.nextTask + 1 else s.nextTask
  }

  function SelectedAfter(s: App, k: Key, v: View): nat {
    if AnswersHost(s, k) || (Submits(s, k, v) && s.hostApproved.Some?) || Chooses(s, k, v, ClearHistory) then 0
    else if Deletes(s, k, v) then (if s.selected + 1 < |s.goals| then s.selected else Max(|s.goals| - 2, 0))
    else if InTyping(s) && !k.ctrl && !s.screen.logOpen && k.code == Up then Max(s.selected - 1, 0)
    else if InTyping(s) && !k.ctrl && !s.screen.logOpen && k.code == Down && s.selected + 1 < |s.goals|
    then s.selected + 1
    else s.selected
  }

  /** Submitted before the host question was answered, a goal is held; answering or Esc releases it. */
  function HeldAfter(s: App, k: Key, v: View): Option<(Prompt, bool)> {
    if AnswersHost(s, k) then None
    else if s.plans == [] && s.mcp == [] && s.heldGoal.Some? && k.code == Esc then None
    else if Submits(s, k, v) && s.hostApproved.None? then Some((v.submitted.value, s.screen.mode == TaskTyping))
    else s.heldGoal
  }

  function ModeAfter(s: App, k: Key, v: View): Mode {
    if Leaves(s, k) then GoalTyping
    else if Enters(s, k, v) && GoesToSettings(s, v) then Settings
    else if BeginsClarify(s, k, v) then Clarify
    else if AnswersClarify(s, k, v) && LastQuestion(s) then GoalTyping
    else if Unprompted(s) && !s.screen.helpOpen && k.code == Char('/') && v.promptEmpty
            && s.screen.mode in {GoalTyping, TaskTyping, Memory, History} then CommandPalette
    else if Unprompted(s) && !s.screen.helpOpen && k.ctrl && k.code == Char(';') then
      (if s.screen.mode == Ask then GoalTyping else Ask)
    else if InMode(s, CommandPalette) && k.code == Enter && v.palette.Some? then
      ModeChosen(v.palette.value, s.screen.prevMode)
    else s.screen.mode
  }

  /** Most options go back to the mode the palette was opened from. */
  function ModeChosen(option: PaletteOption, back: Mode): Mode {
    match option
    case GoalMode => GoalTyping
    case ClearHistory => GoalTyping
    case TaskMode => TaskTyping
    case AskMode => Ask
    case Memories => Memory
    case Histories => History
    case SettingsMode => Settings
    case QuitApp => CommandPalette
    case _ => back
  }

  // ----- the overlays -----

  function HelpAfter(s: App, k: Key, v: View): bool {
    if !Unprompted(s) then s.screen.helpOpen
    else if k.code == Esc then false
    else if k.code == Char('?') && Typing(s.screen.mode) && v.promptEmpty then !s.screen.helpOpen
    else s.screen.helpOpen || Chooses(s, k, v, ShowHelp)
  }

  function LogAfter(s: App, k: Key, v: View): bool {
    if Unprompted(s) && !s.screen.helpOpen && k.code == Esc then false
    else if InTyping(s) && (k.code == Char('L') || (k.code == Char('l') && k.shift)) then !s.screen.logOpen
    else if Chooses(s, k, v, ToggleLog) then !s.screen.logOpen
    else s.screen.logOpen
  }

  function ArtifactsAfter(s: App, k: Key, v: View): bool {
    if s.plans == [] && s.mcp == [] && s.heldGoal.None? && s.screen.artifactsOpen then v.artifactsOpen
    else s.screen.artifactsOpen || Chooses(s, k, v, Artifacts)
  }

  /** The mode the palette goes back to. */
  function PrevModeAfter(s: App, k: Key, v: View): Mode {
    if Unprompted(s) && !s.screen.helpOpen && k.code == Char('/') && v.promptEmpty
       && s.screen.mode in {GoalTyping, TaskTyping, Memory, History} then s.screen.mode
    else s.screen.prevMode
  }

  /** The goal under clarification and the number of its question. */
  function ClarifyAfter(s: App, k: Key, v: View): (Option<nat>, nat) {
    if BeginsClarify(s, k, v) then (Some(s.selected), 0)
    else if Clarifies(s, k, v) || (Leaves(s, k) && s.screen.mode == Clarify) then (None, 0)
    else if AnswersClarify(s, k, v) && !LastQuestion(s) then (s.screen.clarifyGoal, s.screen.clarifyQuestion + 1)
    else (s.screen.clarifyGoal, s.screen.clarifyQuestion)
  }

  // ----- inside a prompt -----

  /** A plain press scrolls a plan by one or eight lines or to its top, between 0 and 65,535. */
  predicate ScrollObeys(k: Key, was: nat, now: nat) {
    if !Unmodified(k) then now == was
    else match k.code
      case Up => now == if was < 1 then 0 else was - 1
      case PageUp => now == if was < 8 then 0 else was - 8
      case Down => now == if was + 1 > 65_535 then 65_535 else was + 1
      case PageDown => now == if was + 8 > 65_535 then 65_535 else was + 8
      case Home => now == 0
      case _ => now == was
  }

  /** Up and Down move the cursor over the MCP requests, without leaving them. */
  predicate CursorObeys(k: Key, count: nat, was: nat, now: nat) {
    match k.code
    case Up => now == if was < 1 then 0 else was - 1
    case Down => now == if was + 1 < count then was + 1 else was
    case _ => now == was
  }

  lemma McpCursorMoves(s: App, k: Key, v: View)
    requires s.mcp != [] && McpDecision(k).None?
    ensures CursorObeys(k, |s.mcp|, s.mcpSelected, McpKey(s, k, v).0.mcpSelected)
  {
  }

  // ----- every key obeys -----

  predicate GoalsObey(s: App, k: Key, v: View, t: App) {
    && t.goals == GoalsAfter(s, k, v) && t.nextTask == NextTaskAfter(s, k, v)
    && t.selected == SelectedAfter(s, k, v) && t.heldGoal == HeldAfter(s, k, v)
  }

  predicate ModeObeys(s: App, k: Key, v: View, t: App, intent: Option<Intent>) {
    && t.screen.mode == ModeAfter(s, k, v) && t.screen.prevMode == PrevModeAfter(s, k, v)
    && (t.screen.clarifyGoal, t.screen.clarifyQuestion) == ClarifyAfter(s, k, v)
    && t.screen.modelReady == s.screen.modelReady
    && (s.plans == [] && s.mcp == [] ==> intent == IntentAfter(s, k, v))
  }

  predicate OverlaysObey(s: App, k: Key, v: View, t: App) {
    && t.screen.helpOpen == HelpAfter(s, k, v) && t.screen.logOpen == LogAfter(s, k, v)
    && t.screen.artifactsOpen == ArtifactsAfter(s, k, v)
    && t.screen.quitArmed == (s.screen.quitArmed || AsksToQuit(s, k))
    && t.shouldQuit == (s.shouldQuit || Quits(s, k, v))
  }

  predicate Obeys(s: App, k: Key, v: View, result: (App, Option<Intent>)) {
    GoalsObey(s, k, v, result.0) && ModeObeys(s, k, v, result.0, result.1) && OverlaysObey(s, k, v, result.0)
  }

  lemma PlanKeyObeys(s: App, k: Key, v: View)
    requires s.plans != []
    ensures Obeys(s, k, v, PlanKey(s, k))
  {
  }

  lemma McpAnswerObeys(s: App, k: Key, v: View)
    requires s.plans == [] && s.mcp != [] && McpDecision(k).Some?
    ensures Obeys(s, k, v, McpKey(s, k, v))
  {
  }

  lemma McpMoveObeys(s: App, k: Key, v: View)
    requires s.plans == [] && s.mcp != [] && McpDecision(k).None?
    ensures Obeys(s, k, v, McpKey(s, k, v))
  {
  }

  lemma McpKeyObeys(s: App, k: Key, v: View)
    requires s.plans == [] && s.mcp != []
    ensures Obeys(s, k, v, McpKey(s, k, v))
  {
    if McpDecision(k).Some? {
      McpAnswerObeys(s, k, v);
    } else {
      McpMoveObeys(s, k, v);
    }
  }

  lemma HostKeyObeys(s: App, k: Key, v: View)
    requires s.plans == [] && s.mcp == [] && s.heldGoal.Some?
    ensures Obeys(s, k, v, HostKey(s, k))
  {
  }

  lemma EscKeyGoals(s: App, k: Key, v: View)
    requires Unprompted(s) && k.code == Esc
    ensures GoalsObey(s, k, v, EscKey(s, v).0)
  {
  }

  lemma EscKeyMode(s: App, k: Key, v: View)
    requires Unprompted(s) && k.code == Esc
    ensures ModeObeys(s, k, v, EscKey(s, v).0, EscKey(s, v).1)
  {
  }

  lemma EscKeyOverlays(s: App, k: Key, v: View)
    requires Unprompted(s) && k.code == Esc
    ensures OverlaysObey(s, k, v, EscKey(s, v).0)
  {
  }

  lemma EscKeyObeys(s: App, k: Key, v: View)
    requires Unprompted(s) && k.code == Esc
    ensures Obeys(s, k, v, EscKey(s, v))
  {
    EscKeyGoals(s, k, v);
    EscKeyMode(s, k, v);
    EscKeyOverlays(s, k, v);
  }

  /** Nothing covers the mode, and the key is not Esc. */
  predicate Bare(s: App, k: Key, v: View) {
    Unprompted(s) && !s.screen.helpOpen && k.code != Esc && !AppliesSelected(s, k, v)
    && !(k.code == Char('?') && Typing(s.screen.mode) && v.promptEmpty)
    && !OpensPalette(s, k, v) && !(TogglesLog(k) && Typing(s.screen.mode))
    && !(s.screen.logOpen && Typing(s.screen.mode) && LogKey(k))
  }

  predicate Control(k: Key) {
    k.ctrl && k.code in {Char('c'), Char(';'), Char('v'), Char('V')}
  }

  lemma SubmitGoals(s: App, k: Key, v: View)
    requires Bare(s, k, v) && Typing(s.screen.mode) && k.code == Enter
    ensures GoalsObey(s, k, v, SubmitKey(s, v).0)
  {
  }

  lemma SubmitMode(s: App, k: Key, v: View)
    requires Bare(s, k, v) && Typing(s.screen.mode) && k.code == Enter
    ensures ModeObeys(s, k, v, SubmitKey(s, v).0, SubmitKey(s, v).1)
  {
  }

  lemma SubmitOverlays(s: App, k: Key, v: View)
    requires Bare(s, k, v) && Typing(s.screen.mode) && k.code == Enter
    ensures OverlaysObey(s, k, v, SubmitKey(s, v).0)
  {
  }

  lemma SubmitObeys(s: App, k: Key, v: View)
    requires Bare(s, k, v) && Typing(s.screen.mode) && k.code == Enter
    ensures Obeys(s, k, v, SubmitKey(s, v))
  {
    SubmitGoals(s, k, v);
    SubmitMode(s, k, v);
    SubmitOverlays(s, k, v);
  }

  lemma GoalKeyGoals(s: App, k: Key, v: View)
    requires Bare(s, k, v) && Typing(s.screen.mode) && k.code != Enter && !Control(k) && !Deletes(s, k, v)
    ensures GoalsObey(s, k, v, GoalKey(s, k, v).0)
  {
  }

  lemma BeginClarifyMode(s: App, k: Key, v: View)
    requires Bare(s, k, v) && Typing(s.screen.mode) && StartsClarify(s, k, v)
    ensures ModeObeys(s, k, v, GoalKey(s, k, v).0, GoalKey(s, k, v).1)
  {
  }

  lemma TypedKeyMode(s: App, k: Key, v: View)
    requires Bare(s, k, v) && Typing(s.screen.mode) && k.code != Enter && !Control(k) && !StartsClarify(s, k, v)
    ensures ModeObeys(s, k, v, GoalKey(s, k, v).0, GoalKey(s, k, v).1)
  {
  }

  lemma GoalKeyMode(s: App, k: Key, v: View)
    requires Bare(s, k, v) && Typing(s.screen.mode) && k.code != Enter && !Control(k) && !Deletes(s, k, v)
    ensures ModeObeys(s, k, v, GoalKey(s, k, v).0, GoalKey(s, k, v).1)
  {
    if StartsClarify(s, k, v) {
      BeginClarifyMode(s, k, v);
    } else {
      TypedKeyMode(s, k, v);
    }
  }

  lemma GoalKeyOverlays(s: App, k: Key, v: View)
    requires Bare(s, k, v) && Typing(s.screen.mode) && k.code != Enter && !Control(k) && !Deletes(s, k, v)
    ensures OverlaysObey(s, k, v, GoalKey(s, k, v).0)
  {
  }

  lemma GoalKeyObeys(s: App, k: Key, v: View)
    requires Bare(s, k, v) && Typing(s.screen.mode) && k.code != Enter && !Control(k) && !Deletes(s, k, v)
    ensures Obeys(s, k, v, GoalKey(s, k, v))
  {
    GoalKeyGoals(s, k, v);
    GoalKeyMode(s, k, v);
    GoalKeyOverlays(s, k, v);
  }

  lemma PaletteKeyGoals(s: App, k: Key, v: View)
    requires Bare(s, k, v) && s.screen.mode == CommandPalette && !Control(k)
    ensures GoalsObey(s, k, v, PaletteKey(s, k, v).0)
  {
  }

  /** Enter on an option of the open palette. */
  predicate OnPalette(s: App, k: Key, v: View) {
    Bare(s, k, v) && s.screen.mode == CommandPalette && k.code == Enter && v.palette.Some?
  }

  lemma SwitchChoiceMode(s: App, k: Key, v: View)
    requires OnPalette(s, k, v) && SwitchesMode(v.palette.value)
    ensures ModeObeys(s, k, v, PaletteChoice(s, v.palette.value).0, PaletteChoice(s, v.palette.value).1)
  {
  }

  lemma ResetChoiceMode(s: App, k: Key, v: View)
    requires OnPalette(s, k, v) && v.palette.value in {DeleteSelectedGoal, ClearHistory, QuitApp}
    ensures ModeObeys(s, k, v, PaletteChoice(s, v.palette.value).0, PaletteChoice(s, v.palette.value).1)
  {
  }

  lemma OverlayChoiceMode(s: App, k: Key, v: View)
    requires OnPalette(s, k, v) && v.palette.value in {PasteClipboard, Artifacts, ToggleLog, ShowHelp}
    ensures ModeObeys(s, k, v, PaletteChoice(s, v.palette.value).0, PaletteChoice(s, v.palette.value).1)
  {
  }

  lemma SwitchChoiceOverlays(s: App, k: Key, v: View)
    requires OnPalette(s, k, v) && SwitchesMode(v.palette.value)
    ensures OverlaysObey(s, k, v, PaletteChoice(s, v.palette.value).0)
  {
  }

  lemma OtherChoiceOverlays(s: App, k: Key, v: View)
    requires OnPalette(s, k, v) && !SwitchesMode(v.palette.value)
    ensures OverlaysObey(s, k, v, PaletteChoice(s, v.palette.value).0)
  {
  }

  lemma PaletteKeyMode(s: App, k: Key, v: View)
    requires Bare(s, k, v) && s.screen.mode == CommandPalette && !Control(k)
    ensures ModeObeys(s, k, v, PaletteKey(s, k, v).0, PaletteKey(s, k, v).1)
  {
    if k.code == Enter && v.palette.Some? {
      if SwitchesMode(v.palette.value) {
        SwitchChoiceMode(s, k, v);
      } else if v.palette.value in {DeleteSelectedGoal, ClearHistory, QuitApp} {
        ResetChoiceMode(s, k, v);
      } else {
        OverlayChoiceMode(s, k, v);
      }
    }
  }

  lemma PaletteKeyOverlays(s: App, k: Key, v: View)
    requires Bare(s, k, v) && s.screen.mode == CommandPalette && !Control(k)
    ensures OverlaysObey(s, k, v, PaletteKey(s, k, v).0)
  {
    if k.code == Enter && v.palette.Some? {
      if SwitchesMode(v.palette.value) {
        SwitchChoiceOverlays(s, k, v);
      } else {
        OtherChoiceOverlays(s, k, v);
      }
    }
  }

  lemma PaletteKeyObeys(s: App, k: Key, v: View)
    requires Bare(s, k, v) && s.screen.mode == CommandPalette && !Control(k)
    ensures Obeys(s, k, v, PaletteKey(s, k, v))
  {
    PaletteKeyGoals(s, k, v);
    PaletteKeyMode(s, k, v);
    PaletteKeyOverlays(s, k, v);
  }

  lemma ClarifyKeyGoals(s: App, k: Key, v: View)
    requires Bare(s, k, v) && s.screen.mode == Clarify && !Control(k)
    ensures GoalsObey(s, k, v, ClarifyKey(s, k, v).0)
  {
  }

  lemma ClarifyKeyMode(s: App, k: Key, v: View)
    requires Bare(s, k, v) && s.screen.mode == Clarify && !Control(k)
    ensures ModeObeys(s, k, v, ClarifyKey(s, k, v).0, ClarifyKey(s, k, v).1)
  {
  }

  lemma ClarifyKeyOverlays(s: App, k: Key, v: View)
    requires Bare(s, k, v) && s.screen.mode == Clarify && !Control(k)
    ensures OverlaysObey(s, k, v, ClarifyKey(s, k, v).0)
  {
  }

  lemma ClarifyKeyObeys(s: App, k: Key, v: View)
    requires Bare(s, k, v) && s.screen.mode == Clarify && !Control(k)
    ensures Obeys(s, k, v, ClarifyKey(s, k, v))
  {
    ClarifyKeyGoals(s, k, v);
    ClarifyKeyMode(s, k, v);
    ClarifyKeyOverlays(s, k, v);
  }

  lemma PanelKeyObeys(s: App, k: Key, v: View)
    requires Bare(s, k, v) && s.screen.mode in {Ask, Settings, Memory, History} && !Control(k)
    ensures Obeys(s, k, v, (s, if s.screen.mode in {Ask, Settings} then PanelIntent(v) else None))
  {
  }

  lemma ControlKeyGoals(s: App, k: Key, v: View)
    requires Bare(s, k, v) && (Control(k) || (k.ctrl && k.code == Char('d') && Typing(s.screen.mode) && s.goals != []))
    ensures GoalsObey(s, k, v, ModeKey(s, k, v).0)
  {
  }

  lemma ControlKeyMode(s: App, k: Key, v: View)
    requires Bare(s, k, v) && (Control(k) || (k.ctrl && k.code == Char('d') && Typing(s.screen.mode) && s.goals != []))
    ensures ModeObeys(s, k, v, ModeKey(s, k, v).0, ModeKey(s, k, v).1)
  {
  }

  lemma ControlKeyOverlays(s: App, k: Key, v: View)
    requires Bare(s, k, v) && (Control(k) || (k.ctrl && k.code == Char('d') && Typing(s.screen.mode) && s.goals != []))
    ensures OverlaysObey(s, k, v, ModeKey(s, k, v).0)
  {
  }

  lemma ControlKeyObeys(s: App, k: Key, v: View)
    requires Bare(s, k, v) && (Control(k) || (k.ctrl && k.code == Char('d') && Typing(s.screen.mode) && s.goals != []))
    ensures Obeys(s, k, v, ModeKey(s, k, v))
  {
    ControlKeyGoals(s, k, v);
    ControlKeyMode(s, k, v);
    ControlKeyOverlays(s, k, v);
  }

  lemma OverlayKeyGoals(s: App, k: Key, v: View)
    requires Unprompted(s) && k.code != Esc && !Bare(s, k, v) && !AppliesSelected(s, k, v)
    ensures GoalsObey(s, k, v, OverlayKey(s, k, v).0)
  {
  }

  lemma OverlayKeyMode(s: App, k: Key, v: View)
    requires Unprompted(s) && k.code != Esc && !Bare(s, k, v) && !AppliesSelected(s, k, v)
    ensures ModeObeys(s, k, v, OverlayKey(s, k, v).0, OverlayKey(s, k, v).1)
  {
    if s.screen.helpOpen {
      HelpKeyMode(s, k, v);
    } else if OpensPalette(s, k, v) {
      SlashKeyMode(s, k, v);
    } else {
      LogKeyMode(s, k, v);
    }
  }

  lemma HelpKeyMode(s: App, k: Key, v: View)
    requires Unprompted(s) && s.screen.helpOpen && k.code != Esc && !AppliesSelected(s, k, v)
    ensures ModeObeys(s, k, v, OverlayKey(s, k, v).0, OverlayKey(s, k, v).1)
  {
  }

  lemma SlashKeyMode(s: App, k: Key, v: View)
    requires Unprompted(s) && !s.screen.helpOpen && OpensPalette(s, k, v)
    ensures ModeObeys(s, k, v, OverlayKey(s, k, v).0, OverlayKey(s, k, v).1)
  {
  }

  lemma LogKeyMode(s: App, k: Key, v: View)
    requires Unprompted(s) && !s.screen.helpOpen && k.code != Esc && !Bare(s, k, v) && !AppliesSelected(s, k, v)
    requires !OpensPalette(s, k, v)
    ensures ModeObeys(s, k, v, OverlayKey(s, k, v).0, OverlayKey(s, k, v).1)
  {
  }

  lemma OverlayKeyOverlays(s: App, k: Key, v: View)
    requires Unprompted(s) && k.code != Esc && !Bare(s, k, v) && !AppliesSelected(s, k, v)
    ensures OverlaysObey(s, k, v, OverlayKey(s, k, v).0)
  {
  }

  lemma OverlayKeyObeys(s: App, k: Key, v: View)
    requires Unprompted(s) && k.code != Esc && !Bare(s, k, v) && !AppliesSelected(s, k, v)
    ensures Obeys(s, k, v, OverlayKey(s, k, v))
  {
    OverlayKeyGoals(s, k, v);
    OverlayKeyMode(s, k, v);
    OverlayKeyOverlays(s, k, v);
  }

  lemma ModeKeyObeys(s: App, k: Key, v: View)
    requires Bare(s, k, v)
    ensures Obeys(s, k, v, ModeKey(s, k, v))
  {
    if Control(k) || (k.ctrl && k.code == Char('d') && Typing(s.screen.mode) && s.goals != []) {
      ControlKeyObeys(s, k, v);
    } else if s.screen.mode == CommandPalette {
      PaletteKeyObeys(s, k, v);
    } else if s.screen.mode == Clarify {
      ClarifyKeyObeys(s, k, v);
    } else if !Typing(s.screen.mode) {
      PanelKeyObeys(s, k, v);
    } else if k.code == Enter {
      SubmitObeys(s, k, v);
    } else {
      GoalKeyObeys(s, k, v);
    }
  }

  lemma FreeKeyObeys(s: App, k: Key, v: View)
    requires Unprompted(s)
    ensures Obeys(s, k, v, FreeKey(s, k, v))
  {
    if AppliesSelected(s, k, v) {
      ApplyKeyObeys(s, k, v);
    } else if k.code == Esc {
      EscKeyObeys(s, k, v);
    } else if Bare(s, k, v) {
      ModeKeyObeys(s, k, v);
    } else {
      OverlayKeyObeys(s, k, v);
    }
  }

  lemma ApplyKeyObeys(s: App, k: Key, v: View)
    requires AppliesSelected(s, k, v)
    ensures Obeys(s, k, v, (s, Some(ApplyLocal(s.goals[s.selected].taskId))))
  {
  }

  lemma ArtifactsKeyObeys(s: App, k: Key, v: View)
    requires s.plans == [] && s.mcp == [] && s.heldGoal.None? && s.screen.artifactsOpen
    ensures Obeys(s, k, v, (s.On(s.screen.(artifactsOpen := v.artifactsOpen)), None))
  {
  }

  /** Only Ctrl+Y applies a candidate, that of the selected goal, and it changes nothing in the app. */
  lemma CtrlYAppliesSelected(s: App, k: Key, v: View)
    ensures var (t, intent) := HandleKey(s, k, v);
      && (forall id :: intent == Some(ApplyLocal(id)) <==>
            AppliesSelected(s, k, v) && id == s.goals[s.selected].taskId)
      && (AppliesSelected(s, k, v) ==> t == s)
  {
  }

  /** Every key, in every state, changes each part of the app as its law says. */
  lemma KeyObeys(s: App, k: Key, v: View)
    ensures Obeys(s, k, v, HandleKey(s, k, v))
  {
    if s.plans != [] {
      PlanKeyObeys(s, k, v);
    } else if s.mcp != [] {
      McpKeyObeys(s, k, v);
    } else if s.heldGoal.Some? {
      HostKeyObeys(s, k, v);
    } else if s.screen.artifactsOpen {
      ArtifactsKeyObeys(s, k, v);
    } else {
      FreeKeyObeys(s, k, v);
    }
  }

  /** A key spawns exactly what it queues: under the id of the first goal, in the mode on screen, and with
      the host answer. A submitted or held goal is that first goal, under a new id. */
  lemma SpawnsWhatWasQueued(s: Session, k: Key, v: View)
    requires Inv(s) && s.open
    ensures var (app, intent) := HandleKey(s.app, k, v);
      && (Queues(intent) ==> app.goals != [] && app.hostApproved.Some?)
      && Step(s, KeyEvent(k, v)).spawned == s.spawned + (
           if !Queues(intent) then []
           else [Spawn(app.goals[0].taskId, intent.value.prompt, app.screen.mode == TaskTyping,
                       app.hostApproved.value)])
      && (AnswersHost(s.app, k) || (Submits(s.app, k, v) && s.app.hostApproved.Some?) ==>
            Queues(intent) && app.goals[0] == Goal(s.app.nextTask, intent.value.prompt, 0))
  {
    KeyPutsPromptsFirst(s.app, k, v);
    KeyObeys(s.app, k, v);
    StepSpawns(s, k, v);
  }

  lemma StepSpawns(s: Session, k: Key, v: View)
    requires s.open
    ensures var (app, intent) := HandleKey(s.app, k, v);
      Step(s, KeyEvent(k, v)).spawned
      == s.spawned + if Queues(intent) then [SpawnFor(s.(app := app), intent.value.prompt)] else []
  {
  }
}
