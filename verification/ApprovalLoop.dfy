// The approval machine as the program runs it: an App changed in place by its
// key handlers, and a loop that owns the reply maps.

module ApprovalLoop {
  import opened Wrappers
  import opened Approval
  import opened ApprovalSafety
  import opened KeyLaws

  class AppState {
    var mode: Mode
    var prevMode: Mode
    var goals: seq<Goal>
    var nextTask: TaskId
    var selected: nat
    var helpOpen: bool
    var logOpen: bool
    var artifactsOpen: bool
    var quitArmed: bool
    var shouldQuit: bool
    var plans: seq<Plan>
    var mcp: seq<McpId>
    var mcpSelected: nat
    var clarifyGoal: Option<nat>
    var clarifyQuestion: nat
    var hostApproved: Option<bool>
    var heldGoal: Option<(Prompt, bool)>
    var modelReady: bool

    constructor (modelReady: bool)
      ensures Value() == FreshApp(modelReady)
      ensures mode == prevMode == GoalTyping && goals == [] && selected == 0 && nextTask == 0
      ensures plans == [] && mcp == [] && mcpSelected == 0 && hostApproved.None? && heldGoal.None?
      ensures !helpOpen && !logOpen && !artifactsOpen && !quitArmed && !shouldQuit
      ensures clarifyGoal.None? && clarifyQuestion == 0 && this.modelReady == modelReady
    {
      mode, prevMode, goals, nextTask, selected := GoalTyping, GoalTyping, [], 0, 0;
      helpOpen, logOpen, artifactsOpen, quitArmed, shouldQuit := false, false, false, false, false;
      plans, mcp, mcpSelected := [], [], 0;
      clarifyGoal, clarifyQuestion := None, 0;
      hostApproved, heldGoal := None, None;
      this.modelReady := modelReady;
    }

    function OnScreen(): Screen
      reads this
    {
      Screen(mode, prevMode, helpOpen, logOpen, artifactsOpen, quitArmed, clarifyGoal, clarifyQuestion, modelReady)
    }

    function Value(): App
      reads this
    {
      App(OnScreen(), goals, nextTask, selected, plans, mcp, mcpSelected, hostApproved, heldGoal, shouldQuit)
    }

    method RequestQuit(v: View) returns (intent: Option<Intent>)
      modifies this
      ensures (Value(), intent) == Approval.RequestQuit(old(Value()), v)
    {
      if quitArmed && v.quitWindowOpen {
        shouldQuit := true;
        return Some(Quit);
      }
      quitArmed := true;
      return None;
    }

    method HandlePlanKey(k: Key) returns (intent: Option<Intent>)
      requires plans != []
      modifies this
      ensures (Value(), intent) == PlanKey(old(Value()), k)
      ensures Value() == old(Value()).(plans := plans)
      ensures intent.Some? <==> ApprovingKey(k, true) || DenyingKey(k, true)
      ensures intent.Some? ==>
        intent.value == ResolvePlan(old(plans)[0].taskId, ApprovingKey(k, true)) && plans == old(plans)[1..]
      ensures intent.None? ==>
        |plans| == |old(plans)| && plans[1..] == old(plans)[1..] && plans[0].taskId == old(plans)[0].taskId
      ensures intent.None? ==> ScrollObeys(k, old(plans)[0].scroll, plans[0].scroll)
    {
      var prompt := plans[0];
      var decision := PlanDecision(k);
      if decision.Some? {
        plans := plans[1..];
        return Some(ResolvePlan(prompt.taskId, decision.value));
      }
      plans := [prompt.(scroll := PlanScroll(k, prompt.scroll))] + plans[1..];
      return None;
    }

    method ResolveSelectedMcpApproval(approved: bool) returns (intent: Option<Intent>)
      requires mcp != []
      modifies this
      ensures mcp == RemoveAt(old(mcp), McpCursor(old(Value())))
      ensures mcpSelected == Min(old(mcpSelected), Max(|mcp| - 1, 0))
      ensures Value() == old(Value()).(mcp := mcp, mcpSelected := mcpSelected)
      ensures intent == Some(ResolveMcp(old(mcp)[McpCursor(old(Value()))], approved))
    {
      var index := Min(mcpSelected, |mcp| - 1);
      var id := mcp[index];
      mcp := mcp[..index] + mcp[index + 1..];
      mcpSelected := Min(mcpSelected, Max(|mcp| - 1, 0));
      return Some(ResolveMcp(id, approved));
    }

    method HandleMcpApprovalKey(k: Key, v: View) returns (intent: Option<Intent>)
      requires mcp != []
      modifies this
      ensures (Value(), intent) == McpKey(old(Value()), k, v)
      ensures AnswersSelected(old(Value()), k, Value(), intent)
      ensures !(ApprovingKey(k, false) || DenyingKey(k, false)) ==>
        CursorObeys(k, |mcp|, old(mcpSelected), mcpSelected)
    {
      McpKeyAnswersSelected(Value(), k, v);
      if McpDecision(k).None? {
        McpCursorMoves(Value(), k, v);
      }
      intent := DispatchMcpApprovalKey(k, v);
    }

    method DispatchMcpApprovalKey(k: Key, v: View) returns (intent: Option<Intent>)
      requires mcp != []
      modifies this
      ensures (Value(), intent) == McpKey(old(Value()), k, v)
    {
      if k.ctrl && k.code == Char('c') {
        intent := RequestQuit(v);
      } else if k.code == Enter || IsLetter(k, 'y', 'Y') {
        intent := ResolveSelectedMcpApproval(true);
      } else if k.code == Esc || IsLetter(k, 'n', 'N') {
        intent := ResolveSelectedMcpApproval(false);
      } else {
        MoveMcpCursor(k);
        intent := None;
      }
    }

    method MoveMcpCursor(k: Key)
      modifies this`mcpSelected
      ensures mcpSelected == if k.code == Up then Max(old(mcpSelected) - 1, 0)
                             else if k.code == Down && old(mcpSelected) + 1 < |mcp| then old(mcpSelected) + 1
                             else old(mcpSelected)
      ensures Value() == old(Value()).(mcpSelected := mcpSelected)
    {
      if k.code == Up {
        mcpSelected := Max(mcpSelected - 1, 0);
      } else if k.code == Down && mcpSelected + 1 < |mcp| {
        mcpSelected := mcpSelected + 1;
      }
    }

    method QueueGoalEntry(p: Prompt, direct: bool) returns (intent: Option<Intent>)
      modifies this
      ensures (Value(), intent) == Queue(old(Value()), p, direct)
    {
      goals := [Goal(nextTask, p, 0)] + goals;
      nextTask := nextTask + 1;
      selected := 0;
      return Some(if direct then QueueTask(p) else QueueGoal(p));
    }

    method HandleHostChecksKey(k: Key) returns (intent: Option<Intent>)
      requires heldGoal.Some?
      modifies this
      ensures (Value(), intent) == HostKey(old(Value()), k)
      ensures intent.Some? <==> k.code in {Enter, Char('y'), Char('Y'), Char('n'), Char('N')}
      ensures intent.Some? ==>
        && hostApproved == Some(k.code in {Enter, Char('y'), Char('Y')}) && heldGoal.None?
        && goals == [Goal(old(nextTask), old(heldGoal).value.0, 0)] + old(goals)
      ensures intent.None? ==>
        && hostApproved == old(hostApproved) && goals == old(goals)
        && heldGoal == if k.code == Esc then None else old(heldGoal)
    {
      var approved;
      if IsLetter(k, 'y', 'Y') || k.code == Enter {
        approved := true;
      } else if IsLetter(k, 'n', 'N') {
        approved := false;
      } else {
        if k.code == Esc {
          heldGoal := None;
        }
        return None;
      }
      hostApproved := Some(approved);
      var (prompt, direct) := heldGoal.value;
      heldGoal := None;
      intent := QueueGoalEntry(prompt, direct);
    }

    method DeleteSelectedGoal()
      modifies this
      ensures Value() == DeleteSelected(old(Value()))
      ensures Value() == old(Value()).(goals := goals, selected := selected)
      ensures old(selected >= |goals|) ==> goals == old(goals)
      ensures old(selected < |goals|) ==>
        && |goals| == |old(goals)| - 1 && (goals != [] ==> selected < |goals|)
        && goals[..old(selected)] == old(goals)[..old(selected)]
        && goals[old(selected)..] == old(goals)[old(selected) + 1..]
    {
      if selected < |goals| {
        goals := goals[..selected] + goals[selected + 1..];
        if selected >= |goals| {
          selected := Max(|goals| - 1, 0);
        }
      }
    }

    method ResetClarify()
      modifies this
      ensures Value() == old(Value()).(screen := ClarifyReset(old(OnScreen())))
    {
      clarifyGoal := None;
      clarifyQuestion := 0;
    }

    method HandleEsc(v: View) returns (intent: Option<Intent>)
      modifies this
      ensures (Value(), intent) == EscKey(old(Value()), v)
    {
      if helpOpen {
        helpOpen := false;
        return None;
      }
      if logOpen {
        logOpen := false;
        return None;
      }
      if !Typing(mode) {
        if mode == Clarify {
          ResetClarify();
        }
        mode := GoalTyping;
        return None;
      }
      intent := RequestQuit(v);
    }

    method HandleClarifyKey(k: Key, v: View) returns (intent: Option<Intent>)
      modifies this
      ensures (Value(), intent) == ClarifyKey(old(Value()), k, v)
    {
      if k.code != Enter || v.answer.None? {
        return None;
      }
      var index := if clarifyGoal.Some? then clarifyGoal.value else selected;
      var questions := if index < |goals| then goals[index].questions else 0;
      if clarifyQuestion + 1 < questions {
        clarifyQuestion := clarifyQuestion + 1;
        return None;
      }
      if index < |goals| {
        var refined := v.answer.value;
        goals := goals[index := Goal(goals[index].taskId, refined, 0)];
        mode := GoalTyping;
        ResetClarify();
        return Some(QueueGoal(refined));
      }
      mode := GoalTyping;
      return None;
    }

    method SwitchMode(option: PaletteOption) returns (intent: Option<Intent>)
      requires SwitchesMode(option)
      modifies this
      ensures (Value(), intent) == PaletteChoice(old(Value()), option)
    {
      intent := None;
      match option {
        case GoalMode => mode := GoalTyping;
        case TaskMode => mode := TaskTyping;
        case AskMode => mode := Ask;
        case Memories => mode := Memory; intent := Some(Panel);
        case Histories => mode := History; intent := Some(Panel);
        case SettingsMode => mode := Settings;
      }
    }

    /** The choices that go back to the mode the palette was opened from. */
    method ReturnWith(option: PaletteOption) returns (intent: Option<Intent>)
      requires !SwitchesMode(option) && !option.ClearHistory? && !option.QuitApp?
      modifies this
      ensures (Value(), intent) == PaletteChoice(old(Value()), option)
    {
      intent := if option.PasteClipboard? then Some(Panel) else None;
      if option.DeleteSelectedGoal? {
        DeleteSelectedGoal();
      } else if option.Artifacts? {
        artifactsOpen := true;
      } else if option.ToggleLog? {
        logOpen := !logOpen;
      } else if option.ShowHelp? {
        helpOpen := true;
      }
      mode := prevMode;
    }

    method HandlePaletteKey(k: Key, v: View) returns (intent: Option<Intent>)
      modifies this
      ensures (Value(), intent) == PaletteKey(old(Value()), k, v)
    {
      intent := None;
      if k.code != Enter || v.palette.None? {
        return;
      }
      var option := v.palette.value;
      if SwitchesMode(option) {
        intent := SwitchMode(option);
      } else if option.ClearHistory? {
        goals := [];
        selected := 0;
        mode := GoalTyping;
      } else if option.QuitApp? {
        shouldQuit := true;
        intent := Some(Quit);
      } else {
        intent := ReturnWith(option);
      }
    }

    method Submit(v: View) returns (intent: Option<Intent>)
      modifies this
      ensures (Value(), intent) == SubmitKey(old(Value()), v)
      ensures hostApproved == old(hostApproved)
      ensures intent.Some? ==> hostApproved.Some? && v.submitted.Some? && goals[1..] == old(goals)
      ensures intent.None? ==> goals == old(goals)
      ensures heldGoal != old(heldGoal) ==>
        hostApproved.None? && v.submitted.Some? && heldGoal.value.0 == v.submitted.value
    {
      if v.submitted.None? {
        return None;
      }
      if v.looksLikeKey || !modelReady {
        helpOpen := false;
        mode := Settings;
        return None;
      }
      var direct := mode == TaskTyping;
      if hostApproved.None? {
        heldGoal := Some((v.submitted.value, direct));
        return None;
      }
      intent := QueueGoalEntry(v.submitted.value, direct);
    }

    method HandleGoalKey(k: Key, v: View) returns (intent: Option<Intent>)
      modifies this
      ensures (Value(), intent) == GoalKey(old(Value()), k, v)
    {
      intent := None;
      if IsLetter(k, 'c', 'C') && !k.ctrl && v.promptEmpty {
        if selected < |goals| && goals[selected].questions > 0 {
          mode := Clarify;
          clarifyGoal := Some(selected);
          clarifyQuestion := 0;
          return;
        }
      }
      if k.ctrl && EditsLine(k) {
        return;
      }
      if k.code == Enter {
        intent := Submit(v);
      } else {
        MoveSelection(k);
      }
    }

    method MoveSelection(k: Key)
      modifies this`selected
      ensures selected == if k.code == Up then Max(old(selected) - 1, 0)
                          else if k.code == Down && old(selected) + 1 < |goals| then old(selected) + 1
                          else old(selected)
    {
      if k.code == Up {
        selected := Max(selected - 1, 0);
      } else if k.code == Down && selected + 1 < |goals| {
        selected := selected + 1;
      }
    }

    method HandleModeKey(k: Key, v: View) returns (intent: Option<Intent>)
      modifies this
      ensures (Value(), intent) == ModeKey(old(Value()), k, v)
    {
      if k.ctrl {
        if k.code == Char('c') {
          intent := RequestQuit(v);
          return;
        }
        if k.code == Char(';') {
          mode := if mode == Ask then GoalTyping else Ask;
          return None;
        }
        if IsLetter(k, 'v', 'V') {
          return Some(Panel);
        }
        if k.code == Char('d') && Typing(mode) && goals != [] {
          DeleteSelectedGoal();
          return None;
        }
      }
      match mode {
        case GoalTyping => intent := HandleGoalKey(k, v);
        case TaskTyping => intent := HandleGoalKey(k, v);
        case Ask => intent := PanelIntent(v);
        case Settings => intent := PanelIntent(v);
        case Memory => intent := None;
        case History => intent := None;
        case CommandPalette => intent := HandlePaletteKey(k, v);
        case Clarify => intent := HandleClarifyKey(k, v);
      }
    }

    method HandleFreeKey(k: Key, v: View) returns (intent: Option<Intent>)
      modifies this
      ensures (Value(), intent) == FreeKey(old(Value()), k, v)
    {
      intent := None;
      if k.code == Char('y') && k.ctrl && selected < |goals| && v.canApply {
        return Some(ApplyLocal(goals[selected].taskId));
      }
      if k.code == Esc {
        intent := HandleEsc(v);
        return;
      }
      intent := HandleOverlayKey(k, v);
    }

    method HandleOverlayKey(k: Key, v: View) returns (intent: Option<Intent>)
      modifies this
      ensures (Value(), intent) == OverlayKey(old(Value()), k, v)
    {
      intent := None;
      if k.code == Char('?') && Typing(mode) && v.promptEmpty {
        helpOpen := !helpOpen;
        return;
      }
      if helpOpen {
        return;
      }
      if OpensPalette(Value(), k, v) {
        prevMode := mode;
        mode := CommandPalette;
        return;
      }
      intent := HandleLogOrModeKey(k, v);
    }

    method HandleLogOrModeKey(k: Key, v: View) returns (intent: Option<Intent>)
      modifies this
      ensures (Value(), intent) == LogOrModeKey(old(Value()), k, v)
    {
      intent := None;
      if TogglesLog(k) && Typing(mode) {
        logOpen := !logOpen;
        return;
      }
      if logOpen && Typing(mode) && LogKey(k) {
        return;
      }
      intent := HandleModeKey(k, v);
    }

    /** Plans first, then MCP requests, then the host question; only then the rest of the app. */
    method HandleKey(k: Key, v: View) returns (intent: Option<Intent>)
      modifies this
      ensures (Value(), intent) == Approval.HandleKey(old(Value()), k, v)
      ensures old(Asked(Value())) ==> PromptsFirst(old(Value()), Value(), intent)
      ensures Obeys(old(Value()), k, v, (Value(), intent))
      ensures (intent.Some? && intent.value.ApplyLocal?) <==>
        && old(plans == [] && mcp == [] && heldGoal.None? && !artifactsOpen && selected < |goals|)
        && k.ctrl && k.code == Char('y') && v.canApply
      ensures intent.Some? && intent.value.ApplyLocal? ==>
        intent.value.taskId == old(goals[selected].taskId) && Value() == old(Value())
    {
      KeyPutsPromptsFirst(Value(), k, v);
      KeyObeys(Value(), k, v);
      CtrlYAppliesSelected(Value(), k, v);
      intent := DispatchKey(k, v);
    }

    method DispatchKey(k: Key, v: View) returns (intent: Option<Intent>)
      modifies this
      ensures (Value(), intent) == Approval.HandleKey(old(Value()), k, v)
    {
      if plans != [] {
        intent := HandlePlanKey(k);
      } else if mcp != [] {
        intent := HandleMcpApprovalKey(k, v);
      } else if heldGoal.Some? {
        intent := HandleHostChecksKey(k);
      } else if artifactsOpen {
        artifactsOpen := v.artifactsOpen;
        intent := None;
      } else {
        intent := HandleFreeKey(k, v);
      }
    }

    method HandlePaste(v: View)
      modifies this
      ensures Value() == Approval.HandlePaste(old(Value()), v)
      ensures Value() == old(Value()).On(old(OnScreen()).(mode := mode, helpOpen := helpOpen))
      ensures if old(Typing(mode)) && v.looksLikeKey then mode == Settings && !helpOpen
              else mode == old(mode) && helpOpen == old(helpOpen)
    {
      if Typing(mode) && v.looksLikeKey {
        helpOpen := false;
        mode := Settings;
      }
    }

    method PushMcpApproval(id: McpId)
      modifies this
      ensures Value() == old(Value()).(mcp := old(mcp) + [id], mcpSelected := |old(mcp)|)
    {
      mcp := mcp + [id];
      mcpSelected := |mcp| - 1;
    }
  }

  class EventLoop {
    const app: AppState
    var planReplies: map<TaskId, Request>
    var mcpReplies: map<McpId, Request>
    var nextRequest: Request
    var answers: map<Request, bool>
    var issued: set<McpId>
    var spawned: seq<Spawn>
    var open: bool

    constructor (modelReady: bool)
      ensures fresh(app) && Value() == FreshSession(modelReady) && Valid()
    {
      app := new AppState(modelReady);
      planReplies, mcpReplies, nextRequest, answers, issued, spawned, open := map[], map[], 0, map[], {}, [], true;
    }

    function Value(): Session
      reads this, app
    {
      Session(app.Value(), planReplies, mcpReplies, nextRequest, answers, issued, spawned, open)
    }

    /** Prompts match replies, requests are counted once, consent comes first, ids are fresh. */
    ghost predicate Valid()
      reads this, app
    {
      Inv(Value())
    }

    /** `deny_pending_mcp_approvals` and the dropped plan replies. */
    method CloseAll()
      modifies this
      ensures Value() == Close(old(Value()))
    {
      answers := answers + map r | r in planReplies.Values + mcpReplies.Values :: false;
      planReplies, mcpReplies := map[], map[];
      open := false;
    }

    method Perform(intent: Intent, v: View)
      modifies this, app
      ensures Value() == Approval.Perform(old(Value()), intent, v)
    {
      match intent {
        case QueueGoal(p) => spawned := spawned + [SpawnFor(Value(), p)];
        case QueueTask(p) => spawned := spawned + [SpawnFor(Value(), p)];
        case ResolvePlan(id, approved) =>
          if id in planReplies {
            var reply := planReplies[id];
            planReplies := planReplies - {id};
            answers := answers[reply := approved && Listed(app.goals, id)];
          }
        case ResolveMcp(id, approved) =>
          if id in mcpReplies {
            var reply := mcpReplies[id];
            mcpReplies := mcpReplies - {id};
            answers := answers[reply := approved];
          }
        case ApplyLocal(_) =>
        case SaveSettings => app.modelReady := v.modelReady;
        case Panel =>
        case Quit => CloseAll();
      }
    }

    /** A plan is shown exactly when its goal is listed and no plan of that goal waits; else it is refused. */
    method OnPlanRequested(id: TaskId)
      requires Valid() && open
      modifies this, app
      ensures Value() == RequestPlan(old(Value()), id)
      ensures ShownOrRefused(old(Value()), id, Value())
    {
      PlanIsShownOrRefused(Value(), id);
      var reply := nextRequest;
      nextRequest := nextRequest + 1;
      if Listed(app.goals, id) && id !in planReplies {
        planReplies := planReplies[id := reply];
        app.plans := app.plans + [Plan(id, 0)];
      } else {
        answers := answers[reply := false];
      }
    }

    /** The newest request waits behind the others, with the cursor on it; a new id answers nobody. */
    method OnMcpRequested(id: McpId)
      modifies this, app
      ensures Value() == RequestMcp(old(Value()), id)
      ensures app.mcp == old(app.mcp) + [id] && app.mcpSelected == |old(app.mcp)|
      ensures id !in old(mcpReplies) ==>
        answers == old(answers) && mcpReplies == old(mcpReplies)[id := old(nextRequest)]
    {
      if id in mcpReplies {
        answers := answers[mcpReplies[id] := false];
      }
      mcpReplies := mcpReplies[id := nextRequest];
      nextRequest := nextRequest + 1;
      issued := issued + {id};
      app.PushMcpApproval(id);
    }

    /** Only the first goal with the id is updated. */
    static lemma {:induction false} FirstWithId(goals: seq<Goal>, id: TaskId, questions: nat, index: nat)
      requires index <= |goals| && (forall k :: 0 <= k < index ==> goals[k].taskId != id)
      requires index < |goals| ==> goals[index].taskId == id
      ensures UpdateQuestions(goals, id, questions)
           == if index < |goals| then goals[index := goals[index].(questions := questions)] else goals
    {
      if index > 0 {
        FirstWithId(goals[1..], id, questions, index - 1);
        assert goals == [goals[0]] + goals[1..];
      }
    }

    method OnStateUpdate(id: TaskId, questions: nat)
      modifies this, app
      ensures Value() == Dispatch(old(Value()), StateUpdate(id, questions))
    {
      var index := 0;
      while index < |app.goals| && app.goals[index].taskId != id
        invariant 0 <= index <= |app.goals|
        invariant forall k :: 0 <= k < index ==> app.goals[k].taskId != id
      {
        index := index + 1;
      }
      FirstWithId(app.goals, id, questions, index);
      if index < |app.goals| {
        app.goals := app.goals[index := app.goals[index].(questions := questions)];
      }
    }

    /** One pass of the loop body: it keeps the invariant and answers by the rules. */
    method Turn(e: Event)
      requires Valid() && (e.McpRequested? ==> e.mcpId !in issued)
      modifies this, app
      ensures Value() == Step(old(Value()), e)
      ensures Valid() && Lawful(old(Value()), e, Value())
    {
      StepIsLawful(Value(), e);
      Advance(e);
    }

    method Advance(e: Event)
      requires Valid()
      modifies this, app
      ensures Value() == Step(old(Value()), e)
    {
      if !open {
        return;
      }
      match e {
        case KeyEvent(k, v) =>
          var intent := app.HandleKey(k, v);
          if intent.Some? {
            Perform(intent.value, v);
          }
        case PasteEvent(v) =>
          if app.plans == [] {
            app.HandlePaste(v);
          }
        case StateUpdate(id, questions) => OnStateUpdate(id, questions);
        case PlanRequested(id) => OnPlanRequested(id);
        case McpRequested(id) => OnMcpRequested(id);
        case Background =>
        case ChannelClosed => CloseAll();
      }
      if open && app.shouldQuit {
        CloseAll();
      }
    }

    /** The loop: after any events prompts and replies still match, nothing runs without the host
        answer, and what a requester was told stays as it was. */
    method RunApp(events: seq<Event>)
      requires Valid() && AsksFresh(issued, events)
      modifies this, app
      ensures Value() == RunFrom(old(Value()), events) && Valid()
      ensures NeverRevised(old(Value()), Value())
      ensures open ==> planReplies.Keys == PlanIds(app.plans) && mcpReplies.Keys == set id | id in app.mcp
      ensures open ==> forall p :: p in app.plans ==> Listed(app.goals, p.taskId)
      ensures forall sp :: sp in spawned ==> app.hostApproved == Some(sp.hostApproved)
      ensures app.goals != [] ==> app.hostApproved.Some?
    {
      for i := 0 to |events|
        invariant Valid() && Value() == RunFrom(old(Value()), events[..i]) && NeverRevised(old(Value()), Value())
        invariant AsksFresh(issued, events[i..])
      {
        assert events[..i + 1][..i] == events[..i];
        ghost var before := Value();
        AsksFreshAfter(before, events, i);
        Turn(events[i]);
        NeverRevisedChains(old(Value()), before, Value());
      }
      assert events[..|events|] == events;
      forall p | p in app.plans ensures Listed(app.goals, p.taskId) || !open {
        assert p.taskId in PlanIds(app.plans);
      }
    }

    static lemma AsksFreshAfter(s: Session, events: seq<Event>, i: nat)
      requires i < |events| && AsksFresh(s.issued, events[i..])
      ensures events[i].McpRequested? ==> events[i].mcpId !in s.issued
      ensures AsksFresh(Step(s, events[i]).issued, events[i + 1..])
    {
      IssuedBy(s, events[i]);
      var rest := events[i..];
      assert rest[0] == events[i] && events[i] in rest && events[i + 1..] == rest[1..];
      forall j | 0 <= j < |rest[1..]| && rest[1..][j].McpRequested?
        ensures rest[1..][j].mcpId !in Step(s, events[i]).issued
      {
        assert rest[1..][j] == rest[j + 1] && rest[j + 1] in rest;
      }
    }
  }
}
