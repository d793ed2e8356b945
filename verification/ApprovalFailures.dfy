// Runs of a fresh program that reach the cases where the approval machine falls short.

module ApprovalFailures {
  import opened Wrappers
  import opened Approval
  import opened ApprovalSafety

  function Pressed(code: KeyCode): Key {
    Key(Press, code, false, false, false, false)
  }

  /** An empty prompt and nothing else to report. */
  const QUIET := View(true, None, false, false, false, None, None, None, true, false)

  function Typed(code: KeyCode): Event {
    KeyEvent(Pressed(code), QUIET)
  }

  function Submitting(p: Prompt): View {
    QUIET.(promptEmpty := false, submitted := Some(p))
  }

  function Submits(p: Prompt): Event {
    KeyEvent(Pressed(Enter), Submitting(p))
  }

  /** Nothing asks for a key, and no overlay is open. */
  predicate Free(s: App) {
    && s.plans == [] && s.mcp == [] && s.heldGoal.None? && !s.shouldQuit
    && !s.screen.helpOpen && !s.screen.logOpen && !s.screen.artifactsOpen && s.screen.modelReady
  }

  // ----- single keys -----

  lemma SubmitHolds(s: App, p: Prompt)
    requires Free(s) && Typing(s.screen.mode) && s.hostApproved.None?
    ensures HandleKey(s, Pressed(Enter), Submitting(p))
      == (s.(heldGoal := Some((p, s.screen.mode == TaskTyping))), None)
  {
  }

  lemma SubmitQueues(s: App, p: Prompt)
    requires Free(s) && s.screen.mode == GoalTyping && s.hostApproved.Some?
    ensures HandleKey(s, Pressed(Enter), Submitting(p)) == Queue(s, p, false)
  {
  }

  lemma YesQueues(s: App)
    requires s.plans == [] && s.mcp == [] && s.heldGoal.Some?
    ensures HandleKey(s, Pressed(Char('y')), QUIET)
         == Queue(s.(hostApproved := Some(true), heldGoal := None), s.heldGoal.value.0, s.heldGoal.value.1)
  {
  }

  lemma SlashOpensPalette(s: App)
    requires Free(s) && s.screen.mode == GoalTyping
    ensures HandleKey(s, Pressed(Char('/')), QUIET)
         == (s.On(s.screen.(prevMode := GoalTyping, mode := CommandPalette)), None)
  {
  }

  lemma PaletteChoosesTask(s: App)
    requires Free(s) && s.screen.mode == CommandPalette
    ensures HandleKey(s, Pressed(Enter), QUIET.(palette := Some(TaskMode))) == (s.In(TaskTyping), None)
  {
  }

  lemma DownSelectsNext(s: App)
    requires Free(s) && s.screen.mode == GoalTyping && s.selected + 1 < |s.goals|
    ensures HandleKey(s, Pressed(Down), QUIET) == (s.(selected := s.selected + 1), None)
  {
  }

  lemma ClarifyBegins(s: App)
    requires Free(s) && s.screen.mode == GoalTyping && s.selected < |s.goals| && s.goals[s.selected].questions > 0
    ensures HandleKey(s, Pressed(Char('c')), QUIET)
         == (s.On(s.screen.(mode := Clarify, clarifyGoal := Some(s.selected), clarifyQuestion := 0)), None)
  {
  }

  lemma LastAnswerRequeues(s: App, i: nat, p: Prompt)
    requires Free(s) && s.screen.mode == Clarify && s.screen.clarifyGoal == Some(i) && i < |s.goals|
    requires s.screen.clarifyQuestion + 1 >= s.goals[i].questions
    ensures HandleKey(s, Pressed(Enter), QUIET.(answer := Some(p)))
         == (s.(screen := ClarifyReset(s.screen).(mode := GoalTyping),
                goals := s.goals[i := Goal(s.goals[i].taskId, p, 0)]),
             Some(QueueGoal(p)))
  {
  }

  // ----- runs -----

  /** `s` is the app after `events` from a fresh start, with the loop still going and nothing to answer. */
  ghost predicate Shows(events: seq<Event>, s: App, spawned: seq<Spawn>) {
    var t := RunFrom(FreshSession(true), events);
    t.open && t.app == s && t.spawned == spawned && !s.shouldQuit && forall e :: e in events ==> !e.McpRequested?
  }

  lemma RunOneMore(events: seq<Event>, e: Event)
    ensures RunFrom(FreshSession(true), events + [e]) == Step(RunFrom(FreshSession(true), events), e)
  {
    assert (events + [e])[..|events|] == events;
  }

  /** A key that asks for nothing. */
  lemma KeyShows(events: seq<Event>, s: App, spawned: seq<Spawn>, k: Key, v: View)
    requires Shows(events, s, spawned) && HandleKey(s, k, v).1.None? && !HandleKey(s, k, v).0.shouldQuit
    ensures Shows(events + [KeyEvent(k, v)], HandleKey(s, k, v).0, spawned)
  {
    RunOneMore(events, KeyEvent(k, v));
  }

  /** A key that queues a goal or task. */
  lemma QueueShows(events: seq<Event>, s: App, spawned: seq<Spawn>, k: Key, v: View)
    requires Shows(events, s, spawned) && Queues(HandleKey(s, k, v).1) && !HandleKey(s, k, v).0.shouldQuit
    ensures var (t, intent) := HandleKey(s, k, v);
      Shows(events + [KeyEvent(k, v)], t, spawned + [SpawnOf(t, intent.value.prompt)])
  {
    RunOneMore(events, KeyEvent(k, v));
  }

  /** What the loop hands to the engine for a prompt queued in state `s`. */
  function SpawnOf(s: App, p: Prompt): Spawn {
    SpawnFor(FreshSession(true).(app := s), p)
  }

  lemma PasteShows(events: seq<Event>, s: App, spawned: seq<Spawn>, v: View)
    requires Shows(events, s, spawned) && s.plans == []
    ensures Shows(events + [PasteEvent(v)], HandlePaste(s, v), spawned)
  {
    RunOneMore(events, PasteEvent(v));
  }

  lemma UpdateShows(events: seq<Event>, s: App, spawned: seq<Spawn>, id: TaskId, questions: nat)
    requires Shows(events, s, spawned)
    ensures Shows(events + [StateUpdate(id, questions)], s.(goals := UpdateQuestions(s.goals, id, questions)), spawned)
  {
    RunOneMore(events, StateUpdate(id, questions));
  }

  /** A run the other lemmas are about. */
  ghost predicate Reached(events: seq<Event>, s: App, spawned: seq<Spawn>) {
    Shows(events, s, spawned) && FreshMcpIds(events)
  }

  lemma ShowsIsReached(events: seq<Event>, s: App, spawned: seq<Spawn>)
    requires Shows(events, s, spawned)
    ensures Reached(events, s, spawned)
  {
    forall i | 0 <= i < |events| ensures !events[i].McpRequested? {
      assert events[i] in events;
    }
  }

  // ----- main results -----

  /** A task is queued, and the loop does not run it as one. */
  ghost predicate LosesMode(result: (App, Option<Intent>)) {
    result.1.Some? && result.1.value.QueueTask? && !SpawnOf(result.0, result.1.value.prompt).direct
  }

  /** A fresh program can run a held task as a goal: an API key pasted while the host question is open
      moves the screen to Settings, and Y then queues a task that is not direct. */
  lemma HeldTaskCanLoseItsMode()
    ensures exists events, s, spawned, k, v :: Reached(events, s, spawned) && LosesMode(HandleKey(s, k, v))
  {
    var s := FreshApp(true);
    var events: seq<Event> := [];
    assert Shows(events, s, []);
    SlashOpensPalette(s);
    KeyShows(events, s, [], Pressed(Char('/')), QUIET);
    events, s := events + [Typed(Char('/'))], HandleKey(s, Pressed(Char('/')), QUIET).0;
    PaletteChoosesTask(s);
    var choose := QUIET.(palette := Some(TaskMode));
    KeyShows(events, s, [], Pressed(Enter), choose);
    events, s := events + [KeyEvent(Pressed(Enter), choose)], s.In(TaskTyping);
    HeldTaskInSettings(events, s);
  }

  lemma HeldTaskInSettings(events: seq<Event>, s: App)
    requires Shows(events, s, []) && Free(s) && s.screen.mode == TaskTyping && s.hostApproved.None? && s.goals == []
    ensures exists events, s, spawned, k, v :: Reached(events, s, spawned) && LosesMode(HandleKey(s, k, v))
  {
    SubmitHolds(s, 1);
    KeyShows(events, s, [], Pressed(Enter), Submitting(1));
    var events, s := events + [Submits(1)], s.(heldGoal := Some((1, true)));
    var paste := QUIET.(looksLikeKey := true);
    PasteShows(events, s, [], paste);
    events, s := events + [PasteEvent(paste)], HandlePaste(s, paste);
    YesQueues(s);
    ShowsIsReached(events, s, []);
    assert LosesMode(HandleKey(s, Pressed(Char('y')), QUIET));
  }

  /** A fresh program can rerun a clarified goal under another goal's id: a newer goal stands above it. */
  lemma ClarifiedGoalCanLoseItsId()
    ensures exists events, s, spawned, k, v :: Reached(events, s, spawned) && LosesId(s, HandleKey(s, k, v))
  {
    var events, s, spawned := TwoGoals();
    DownSelectsNext(s);
    KeyShows(events, s, spawned, Pressed(Down), QUIET);
    events, s := events + [Typed(Down)], s.(selected := 1);
    ClarifyBegins(s);
    KeyShows(events, s, spawned, Pressed(Char('c')), QUIET);
    events, s := events + [Typed(Char('c'))], HandleKey(s, Pressed(Char('c')), QUIET).0;
    LastAnswerRequeues(s, 1, 3);
    ShowsIsReached(events, s, spawned);
    assert LosesId(s, HandleKey(s, Pressed(Enter), QUIET.(answer := Some(3))));
  }

  /** The clarified goal is queued, and the loop runs it under an id that is not its own. */
  ghost predicate LosesId(s: App, result: (App, Option<Intent>)) {
    && s.screen.mode == Clarify && s.screen.clarifyGoal.Some? && s.screen.clarifyGoal.value < |s.goals|
    && Queues(result.1)
    && SpawnOf(result.0, result.1.value.prompt).taskId != s.goals[s.screen.clarifyGoal.value].taskId
  }

  /** An older goal with an open question below a newer one. */
  lemma TwoGoals() returns (events: seq<Event>, s: App, spawned: seq<Spawn>)
    ensures Shows(events, s, spawned) && Free(s) && s.screen.mode == GoalTyping && s.selected == 0
    ensures s.goals == [Goal(1, 2, 0), Goal(0, 1, 1)]
  {
    events, s, spawned := OneGoal();
    UpdateShows(events, s, spawned, 0, 1);
    events, s := events + [StateUpdate(0, 1)], s.(goals := [Goal(0, 1, 1)]);
    SubmitQueues(s, 2);
    QueueShows(events, s, spawned, Pressed(Enter), Submitting(2));
    var t := Queue(s, 2, false).0;
    events, s, spawned := events + [Submits(2)], t, spawned + [SpawnOf(t, 2)];
  }

  lemma OneGoal() returns (events: seq<Event>, s: App, spawned: seq<Spawn>)
    ensures Shows(events, s, spawned) && Free(s) && s.screen.mode == GoalTyping && s.selected == 0
    ensures s.goals == [Goal(0, 1, 0)] && s.nextTask == 1 && s.hostApproved == Some(true)
  {
    s, events, spawned := FreshApp(true), [], [];
    SubmitHolds(s, 1);
    KeyShows(events, s, spawned, Pressed(Enter), Submitting(1));
    events, s := events + [Submits(1)], s.(heldGoal := Some((1, false)));
    YesQueues(s);
    QueueShows(events, s, spawned, Pressed(Char('y')), QUIET);
    var t := HandleKey(s, Pressed(Char('y')), QUIET).0;
    events, s, spawned := events + [Typed(Char('y'))], t, spawned + [SpawnOf(t, 1)];
  }

  function HeldEnter(): Key {
    Pressed(Enter).(kind := Repeat)
  }

  function CtrlY(): Key {
    Pressed(Char('y')).(ctrl := true)
  }

  /** A held-down Enter, or Y with Ctrl, approves the MCP request in front; neither approves a plan. */
  lemma McpAcceptsWhatPlansRefuse(s: Session, v: View, r: Request)
    requires Inv(s) && s.open && InFront(s, r)
    ensures NewlyTrue(s, Step(s, KeyEvent(HeldEnter(), v)), r) <==> s.app.plans == []
    ensures NewlyTrue(s, Step(s, KeyEvent(CtrlY(), v)), r) <==> s.app.plans == []
  {
    YesComesFromTheKey(s, KeyEvent(HeldEnter(), v), r);
    YesComesFromTheKey(s, KeyEvent(CtrlY(), v), r);
  }

  /** So the first request of a fresh program is approved by an Enter that was held down before it appeared. */
  lemma HeldEnterApproves(id: McpId)
    ensures RunFrom(FreshSession(true), [McpRequested(id)] + [KeyEvent(HeldEnter(), QUIET)]).answers == map[0 := true]
  {
    var s0 := FreshSession(true);
    var s := Step(s0, McpRequested(id));
    RunOneMore([], McpRequested(id));
    assert [] + [McpRequested(id)] == [McpRequested(id)];
    RunOneMore([McpRequested(id)], KeyEvent(HeldEnter(), QUIET));
    assert s.app == s0.app.(mcp := [id], mcpSelected := 0);
    assert s.mcpReplies == map[id := 0] && s.open && s.answers == map[];
  }
}
