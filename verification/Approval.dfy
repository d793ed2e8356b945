// What each key and loop event does to the prompts that wait for consent:
// local plans, MCP requests and the host-check question.

module Approval {
  import opened Wrappers

  // ----- input -----

  /** The input thread drops releases; the handlers are modelled for them all the same. */
  datatype KeyKind = Press | Repeat | Release
  datatype KeyCode =
    | Char(c: char) | Enter | Esc | Up | Down | Left | Right | PageUp | PageDown | Home | End
    | Backspace | Delete | Tab | BackTab | OtherCode
  datatype Key = Key(kind: KeyKind, code: KeyCode, ctrl: bool, alt: bool, super: bool, shift: bool)

  /** Text a user typed. Its contents are never inspected here. */
  type Prompt = nat
  type TaskId = nat
  type McpId = nat
  /** One oneshot sender. */
  type Request = nat

  datatype PaletteOption =
    | GoalMode | TaskMode | AskMode | Memories | Histories | SettingsMode | PasteClipboard | Artifacts
    | ToggleLog | ShowHelp | DeleteSelectedGoal | ClearHistory | QuitApp

  /** What the handlers learn from text buffers, clocks and unmodelled panels: anything at all. */
  datatype View = View(
    promptEmpty: bool, submitted: Option<Prompt>, looksLikeKey: bool, canApply: bool, quitWindowOpen: bool,
    palette: Option<PaletteOption>, answer: Option<Prompt>, panelIntent: Option<Intent>, modelReady: bool,
    artifactsOpen: bool)

  // ----- application state -----

  datatype Mode = GoalTyping | TaskTyping | Ask | Settings | Memory | History | CommandPalette | Clarify

  /** `questions` counts the open clarification questions of its latest snapshot. */
  datatype Goal = Goal(taskId: TaskId, description: Prompt, questions: nat)
  datatype Plan = Plan(taskId: TaskId, scroll: nat)

  datatype Intent =
    | QueueGoal(prompt: Prompt) | QueueTask(prompt: Prompt)
    | ResolvePlan(taskId: TaskId, approved: bool) | ResolveMcp(id: McpId, approved: bool)
    | ApplyLocal(taskId: TaskId) | SaveSettings | Panel | Quit

  /** What is on screen; no prompt, goal or answer. */
  datatype Screen = Screen(
    mode: Mode, prevMode: Mode, helpOpen: bool, logOpen: bool, artifactsOpen: bool, quitArmed: bool,
    clarifyGoal: Option<nat>, clarifyQuestion: nat, modelReady: bool)

  datatype App = App(
    screen: Screen, goals: seq<Goal>, nextTask: TaskId, selected: nat,
    plans: seq<Plan>, mcp: seq<McpId>, mcpSelected: nat,
    hostApproved: Option<bool>, heldGoal: Option<(Prompt, bool)>, shouldQuit: bool)
  {
    function On(screen: Screen): App {
      this.(screen := screen)
    }

    function In(mode: Mode): App {
      this.(screen := this.screen.(mode := mode))
    }
  }

  const SCROLL_MAX := 0xFFFF

  predicate IsLetter(k: Key, lower: char, upper: char) {
    k.code == Char(lower) || k.code == Char(upper)
  }

  predicate Typing(mode: Mode) {
    mode == GoalTyping || mode == TaskTyping
  }

  // ----- handlers -----

  /** Only a plain Y press approves; N, Esc and Ctrl+C deny. */
  function PlanDecision(k: Key): Option<bool> {
    if k.kind != Press then None
    else if k.code == Esc || (k.code == Char('c') && k.ctrl) then Some(false)
    else if k.ctrl || k.alt || k.super then None
    else if IsLetter(k, 'y', 'Y') then Some(true)
    else if IsLetter(k, 'n', 'N') then Some(false)
    else None
  }

  function PlanScroll(k: Key, scroll: nat): nat {
    if k.kind != Press || k.ctrl || k.alt || k.super then scroll
    else match k.code
      case Up => Max(scroll - 1, 0)
      case Down => Min(scroll + 1, SCROLL_MAX)
      case PageUp => Max(scroll - 8, 0)
      case PageDown => Min(scroll + 8, SCROLL_MAX)
      case Home => 0
      case _ => scroll
  }

  function PlanKey(s: App, k: Key): (App, Option<Intent>)
    requires s.plans != []
  {
    var first := s.plans[0];
    match PlanDecision(k)
    case Some(approved) => (s.(plans := s.plans[1..]), Some(ResolvePlan(first.taskId, approved)))
    case None => (s.(plans := [first.(scroll := PlanScroll(k, first.scroll))] + s.plans[1..]), None)
  }

  function RequestQuit(s: App, v: View): (App, Option<Intent>) {
    if s.screen.quitArmed && v.quitWindowOpen then (s.(shouldQuit := true), Some(Quit))
    else (s.On(s.screen.(quitArmed := true)), None)
  }

  /** Enter and Y approve, Esc and N deny; modifiers other than Ctrl+C are not looked at. */
  function McpDecision(k: Key): Option<bool> {
    if k.code == Char('c') && k.ctrl then None
    else if k.code == Enter || IsLetter(k, 'y', 'Y') then Some(true)
    else if k.code == Esc || IsLetter(k, 'n', 'N') then Some(false)
    else None
  }

  function McpCursor(s: App): nat
    requires s.mcp != []
  {
    Min(s.mcpSelected, |s.mcp| - 1)
  }

  function RemoveAt<T>(s: seq<T>, i: nat): seq<T>
    requires i < |s|
  {
    s[..i] + s[i + 1..]
  }

  function McpKey(s: App, k: Key, v: View): (App, Option<Intent>)
    requires s.mcp != []
  {
    if k.code == Char('c') && k.ctrl then RequestQuit(s, v)
    else match McpDecision(k)
      case Some(approved) =>
        var i := McpCursor(s);
        var rest := RemoveAt(s.mcp, i);
        (s.(mcp := rest, mcpSelected := Min(s.mcpSelected, Max(|rest| - 1, 0))), Some(ResolveMcp(s.mcp[i], approved)))
      case None =>
        (match k.code
         case Up => s.(mcpSelected := Max(s.mcpSelected - 1, 0))
         case Down => if s.mcpSelected + 1 < |s.mcp| then s.(mcpSelected := s.mcpSelected + 1) else s
         case _ => s,
         None)
  }

  function Queue(s: App, p: Prompt, direct: bool): (App, Option<Intent>) {
    (s.(goals := [Goal(s.nextTask, p, 0)] + s.goals, nextTask := s.nextTask + 1, selected := 0),
     Some(if direct then QueueTask(p) else QueueGoal(p)))
  }

  function HostKey(s: App, k: Key): (App, Option<Intent>)
    requires s.heldGoal.Some?
  {
    if IsLetter(k, 'y', 'Y') || k.code == Enter || IsLetter(k, 'n', 'N') then
      var (p, direct) := s.heldGoal.value;
      Queue(s.(hostApproved := Some(!IsLetter(k, 'n', 'N')), heldGoal := None), p, direct)
    else if k.code == Esc then (s.(heldGoal := None), None)
    else (s, None)
  }

  function DeleteSelected(s: App): App {
    if s.selected < |s.goals| then
      var rest := RemoveAt(s.goals, s.selected);
      s.(goals := rest, selected := if s.selected >= |rest| then Max(|rest| - 1, 0) else s.selected)
    else s
  }

  function ClarifyReset(c: Screen): Screen {
    c.(clarifyGoal := None, clarifyQuestion := 0)
  }

  function EscKey(s: App, v: View): (App, Option<Intent>) {
    var c := s.screen;
    if c.helpOpen then (s.On(c.(helpOpen := false)), None)
    else if c.logOpen then (s.On(c.(logOpen := false)), None)
    else if !Typing(c.mode) then (s.On((if c.mode == Clarify then ClarifyReset(c) else c).(mode := GoalTyping)), None)
    else RequestQuit(s, v)
  }

  function ClarifyKey(s: App, k: Key, v: View): (App, Option<Intent>) {
    if k.code != Enter || v.answer.None? then (s, None)
    else
      var c := s.screen;
      var i := if c.clarifyGoal.Some? then c.clarifyGoal.value else s.selected;
      var questions := if i < |s.goals| then s.goals[i].questions else 0;
      if c.clarifyQuestion + 1 < questions then (s.On(c.(clarifyQuestion := c.clarifyQuestion + 1)), None)
      else if i < |s.goals| then
        var refined := v.answer.value;
        (s.(screen := ClarifyReset(c).(mode := GoalTyping), goals := s.goals[i := Goal(s.goals[i].taskId, refined, 0)]),
         Some(QueueGoal(refined)))
      else (s.In(GoalTyping), None)
  }

  predicate SwitchesMode(option: PaletteOption) {
    option.GoalMode? || option.TaskMode? || option.AskMode? || option.Memories? || option.Histories?
      || option.SettingsMode?
  }

  function PaletteKey(s: App, k: Key, v: View): (App, Option<Intent>) {
    if k.code != Enter || v.palette.None? then (s, None) else PaletteChoice(s, v.palette.value)
  }

  function PaletteChoice(s: App, option: PaletteOption): (App, Option<Intent>) {
    var back := s.screen.(mode := s.screen.prevMode);
    match option
    case GoalMode => (s.In(GoalTyping), None)
    case TaskMode => (s.In(TaskTyping), None)
    case AskMode => (s.In(Ask), None)
    case Memories => (s.In(Memory), Some(Panel))
    case Histories => (s.In(History), Some(Panel))
    case SettingsMode => (s.In(Settings), None)
    case PasteClipboard => (s.On(back), Some(Panel))
    case Artifacts => (s.On(back.(artifactsOpen := true)), None)
    case ToggleLog => (s.On(back.(logOpen := !back.logOpen)), None)
    case ShowHelp => (s.On(back.(helpOpen := true)), None)
    case DeleteSelectedGoal => (DeleteSelected(s).On(back), None)
    case ClearHistory => (s.(goals := [], selected := 0).In(GoalTyping), None)
    case QuitApp => (s.(shouldQuit := true), Some(Quit))
  }

  predicate StartsClarify(s: App, k: Key, v: View) {
    IsLetter(k, 'c', 'C') && !k.ctrl && v.promptEmpty && s.selected < |s.goals| && s.goals[s.selected].questions > 0
  }

  function SubmitKey(s: App, v: View): (App, Option<Intent>) {
    if v.submitted.None? then (s, None)
    else if v.looksLikeKey || !s.screen.modelReady then (s.On(s.screen.(helpOpen := false, mode := Settings)), None)
    else
      var direct := s.screen.mode == TaskTyping;
      if s.hostApproved.None? then (s.(heldGoal := Some((v.submitted.value, direct))), None)
      else Queue(s, v.submitted.value, direct)
  }

  /** With Ctrl these move in or edit the prompt's own buffer. */
  predicate EditsLine(k: Key) {
    k.code in {Up, Down, Char('w'), Char('u'), Char('k')}
  }

  function GoalKey(s: App, k: Key, v: View): (App, Option<Intent>) {
    if StartsClarify(s, k, v) then
      (s.On(s.screen.(mode := Clarify, clarifyGoal := Some(s.selected), clarifyQuestion := 0)), None)
    else if k.ctrl && EditsLine(k) then (s, None)
    else match k.code
      case Enter => SubmitKey(s, v)
      case Up => (s.(selected := Max(s.selected - 1, 0)), None)
      case Down => (if s.selected + 1 < |s.goals| then s.(selected := s.selected + 1) else s, None)
      case _ => (s, None)
  }

  /** Ask and Settings keep to their own buffers; what they emit is one of these. */
  function PanelIntent(v: View): Option<Intent> {
    if v.panelIntent == Some(SaveSettings) || v.panelIntent == Some(Panel) then v.panelIntent else None
  }

  predicate LogKey(k: Key) {
    k.code == Up || k.code == Down || k.code == PageUp || k.code == PageDown || k.code == Home || k.code == End
  }

  predicate TogglesLog(k: Key) {
    k.code == Char('L') || (k.code == Char('l') && k.shift)
  }

  /** The keys left once no prompt, overlay or Esc claims them. */
  function ModeKey(s: App, k: Key, v: View): (App, Option<Intent>) {
    if k.ctrl && k.code == Char('c') then RequestQuit(s, v)
    else if k.ctrl && k.code == Char(';') then (s.In(if s.screen.mode == Ask then GoalTyping else Ask), None)
    else if k.ctrl && IsLetter(k, 'v', 'V') then (s, Some(Panel))
    else if k.ctrl && k.code == Char('d') && Typing(s.screen.mode) && s.goals != [] then (DeleteSelected(s), None)
    else KeyInMode(s, k, v)
  }

  function KeyInMode(s: App, k: Key, v: View): (App, Option<Intent>) {
    match s.screen.mode
      case GoalTyping => GoalKey(s, k, v)
      case TaskTyping => GoalKey(s, k, v)
      case Ask => (s, PanelIntent(v))
      case Settings => (s, PanelIntent(v))
      case Memory => (s, None)
      case History => (s, None)
      case CommandPalette => PaletteKey(s, k, v)
      case Clarify => ClarifyKey(s, k, v)
  }

  predicate OpensPalette(s: App, k: Key, v: View) {
    && k.code == Char('/') && v.promptEmpty
    && (Typing(s.screen.mode) || s.screen.mode == Memory || s.screen.mode == History)
  }

  function FreeKey(s: App, k: Key, v: View): (App, Option<Intent>) {
    if k.code == Char('y') && k.ctrl && s.selected < |s.goals| && v.canApply then
      (s, Some(ApplyLocal(s.goals[s.selected].taskId)))
    else if k.code == Esc then EscKey(s, v)
    else OverlayKey(s, k, v)
  }

  /** Help, the palette and the flight log come before the mode. */
  function OverlayKey(s: App, k: Key, v: View): (App, Option<Intent>) {
    if k.code == Char('?') && Typing(s.screen.mode) && v.promptEmpty then
      (s.On(s.screen.(helpOpen := !s.screen.helpOpen)), None)
    else if s.screen.helpOpen then (s, None)
    else if OpensPalette(s, k, v) then (s.On(s.screen.(prevMode := s.screen.mode, mode := CommandPalette)), None)
    else LogOrModeKey(s, k, v)
  }

  function LogOrModeKey(s: App, k: Key, v: View): (App, Option<Intent>) {
    if TogglesLog(k) && Typing(s.screen.mode) then (s.On(s.screen.(logOpen := !s.screen.logOpen)), None)
    else if s.screen.logOpen && Typing(s.screen.mode) && LogKey(k) then (s, None)
    else ModeKey(s, k, v)
  }

  function HandleKey(s: App, k: Key, v: View): (App, Option<Intent>) {
    if s.plans != [] then PlanKey(s, k)
    else if s.mcp != [] then McpKey(s, k, v)
    else if s.heldGoal.Some? then HostKey(s, k)
    else if s.screen.artifactsOpen then (s.On(s.screen.(artifactsOpen := v.artifactsOpen)), None)
    else FreeKey(s, k, v)
  }

  function HandlePaste(s: App, v: View): App {
    if Typing(s.screen.mode) && v.looksLikeKey then s.On(s.screen.(helpOpen := false, mode := Settings)) else s
  }

  // ----- the event loop -----

  datatype Event =
    | KeyEvent(k: Key, v: View)
    | PasteEvent(v: View)
    | StateUpdate(id: TaskId, questions: nat)
    | PlanRequested(taskId: TaskId)
    | McpRequested(mcpId: McpId)
    | Background                       // ticks and the events that touch no prompt, goal list or mode
    | ChannelClosed

  /** A goal handed to the engine, with the consent it runs under. */
  datatype Spawn = Spawn(taskId: TaskId, prompt: Prompt, direct: bool, hostApproved: bool)

  /** `answers` is what each requester has been told; `issued` the MCP ids handed out. */
  datatype Session = Session(
    app: App, planReplies: map<TaskId, Request>, mcpReplies: map<McpId, Request>,
    nextRequest: Request, answers: map<Request, bool>, issued: set<McpId>, spawned: seq<Spawn>, open: bool)

  function FreshApp(modelReady: bool): App {
    App(Screen(GoalTyping, GoalTyping, false, false, false, false, None, 0, modelReady),
        [], 0, 0, [], [], 0, None, None, false)
  }

  function FreshSession(modelReady: bool): Session {
    Session(FreshApp(modelReady), map[], map[], 0, map[], {}, [], true)
  }

  predicate Listed(goals: seq<Goal>, id: TaskId) {
    exists g :: g in goals && g.taskId == id
  }

  /** Leaving the loop denies every MCP request and drops every plan reply, which its requester reads as no. */
  function Close(s: Session): Session {
    s.(planReplies := map[], mcpReplies := map[], open := false,
       answers := s.answers + map r | r in s.planReplies.Values + s.mcpReplies.Values :: false)
  }

  /** The first goal's id; without a goal the default id, which is a new one. */
  function SpawnFor(s: Session, p: Prompt): Spawn {
    Spawn(if s.app.goals == [] then s.app.nextTask else s.app.goals[0].taskId, p, s.app.screen.mode == TaskTyping,
          if s.app.hostApproved.Some? then s.app.hostApproved.value else false)
  }

  function Perform(s: Session, intent: Intent, v: View): Session {
    match intent
    case QueueGoal(p) => s.(spawned := s.spawned + [SpawnFor(s, p)])
    case QueueTask(p) => s.(spawned := s.spawned + [SpawnFor(s, p)])
    case ResolvePlan(id, approved) =>
      if id in s.planReplies then
        s.(planReplies := s.planReplies - {id},
           answers := s.answers[s.planReplies[id] := approved && Listed(s.app.goals, id)])
      else s
    case ResolveMcp(id, approved) =>
      if id in s.mcpReplies then
        s.(mcpReplies := s.mcpReplies - {id}, answers := s.answers[s.mcpReplies[id] := approved])
      else s
    case ApplyLocal(_) => s
    case SaveSettings => s.(app := s.app.On(s.app.screen.(modelReady := v.modelReady)))
    case Panel => s
    case Quit => Close(s)
  }

  function UpdateQuestions(goals: seq<Goal>, id: TaskId, questions: nat): seq<Goal> {
    if goals == [] then []
    else if goals[0].taskId == id then [goals[0].(questions := questions)] + goals[1..]
    else [goals[0]] + UpdateQuestions(goals[1..], id, questions)
  }

  function RequestPlan(s: Session, id: TaskId): Session {
    var r := s.nextRequest;
    var t := s.(nextRequest := r + 1);
    if Listed(s.app.goals, id) && id !in s.planReplies then
      t.(planReplies := s.planReplies[id := r], app := s.app.(plans := s.app.plans + [Plan(id, 0)]))
    else t.(answers := s.answers[r := false])
  }

  /** Inserting over an older sender would drop it, so its requester would read no. */
  function RequestMcp(s: Session, id: McpId): Session {
    var r := s.nextRequest;
    var mcp := s.app.mcp + [id];
    s.(nextRequest := r + 1, issued := s.issued + {id},
       answers := if id in s.mcpReplies then s.answers[s.mcpReplies[id] := false] else s.answers,
       mcpReplies := s.mcpReplies[id := r],
       app := s.app.(mcp := mcp, mcpSelected := |mcp| - 1))
  }

  function KeyStep(s: Session, k: Key, v: View): Session {
    var (app, intent) := HandleKey(s.app, k, v);
    if intent.Some? then Perform(s.(app := app), intent.value, v) else s.(app := app)
  }

  function Dispatch(s: Session, e: Event): Session {
    match e
    case KeyEvent(k, v) => KeyStep(s, k, v)
    case PasteEvent(v) => if s.app.plans == [] then s.(app := HandlePaste(s.app, v)) else s
    case StateUpdate(id, questions) => s.(app := s.app.(goals := UpdateQuestions(s.app.goals, id, questions)))
    case PlanRequested(id) => RequestPlan(s, id)
    case McpRequested(id) => RequestMcp(s, id)
    case Background => s
    case ChannelClosed => Close(s)
  }

  function Step(s: Session, e: Event): Session {
    if !s.open then s
    else
      var t := Dispatch(s, e);
      if t.open && t.app.shouldQuit then Close(t) else t
  }

  function RunFrom(s: Session, events: seq<Event>): Session {
    if events == [] then s else Step(RunFrom(s, events[..|events| - 1]), events[|events| - 1])
  }

  /** MCP ids come from one atomic counter, so no id is requested twice. */
  ghost predicate FreshMcpIds(events: seq<Event>) {
    forall i, j :: 0 <= i < j < |events| && events[i].McpRequested? && events[j].McpRequested? ==>
      events[i].mcpId != events[j].mcpId
  }
}
