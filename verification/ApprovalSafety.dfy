// What holds after every event sequence of the approval machine.

module ApprovalSafety {
  import opened Wrappers
  import opened Approval

  // ----- the invariant -----

  function TaskIds(goals: seq<Goal>): set<TaskId> {
    set g | g in goals :: g.taskId
  }

  function PlanIds(plans: seq<Plan>): set<TaskId> {
    set p | p in plans :: p.taskId
  }

  /** Pending plans: distinct, one reply each, every one for a goal still listed. */
  ghost predicate PlansMatch(s: Session) {
    && (forall i, j :: 0 <= i < j < |s.app.plans| ==> s.app.plans[i].taskId != s.app.plans[j].taskId)
    && (s.open ==> s.planReplies.Keys == PlanIds(s.app.plans) && PlanIds(s.app.plans) <= TaskIds(s.app.goals))
  }

  /** Pending MCP prompts: distinct, one reply each, the cursor on one of them. */
  ghost predicate McpMatch(s: Session) {
    && Distinct(s.app.mcp)
    && (forall id :: id in s.app.mcp ==> id in s.issued)
    && (s.app.mcp != [] ==> s.app.mcpSelected < |s.app.mcp|)
    && (s.open ==> s.mcpReplies.Keys == set id | id in s.app.mcp)
  }

  ghost predicate Injective<K(!new)>(m: map<K, Request>) {
    forall a, b :: a in m && b in m && m[a] == m[b] ==> a == b
  }

  /** The requests made so far. */
  function Made(next: Request): set<Request> {
    if next == 0 then {} else Made(next - 1) + {next - 1}
  }

  lemma {:induction false} MadeIsBelow(next: Request)
    ensures forall r :: r in Made(next) <==> 0 <= r < next
  {
    if next > 0 {
      MadeIsBelow(next - 1);
    }
  }

  /** Every request ever made is waiting in exactly one map or has been answered, never both. */
  ghost predicate RequestsOnce(s: Session) {
    && Injective(s.planReplies) && Injective(s.mcpReplies)
    && s.planReplies.Values !! s.mcpReplies.Values !! s.answers.Keys
    && s.planReplies.Values + s.mcpReplies.Values + s.answers.Keys == Made(s.nextRequest)
    && (!s.open ==> s.planReplies == map[] && s.mcpReplies == map[])
  }

  /** Goals and spawns exist only after the host-check answer, and spawns carry it. */
  ghost predicate Consent(s: Session) {
    && (s.app.goals != [] ==> s.app.hostApproved.Some?)
    && (s.app.heldGoal.Some? ==> s.app.hostApproved.None?)
    && (forall sp :: sp in s.spawned ==> s.app.hostApproved == Some(sp.hostApproved))
  }

  /** Goals have distinct ids, never reused. */
  ghost predicate FreshIds(s: Session) {
    && (forall i, j :: 0 <= i < j < |s.app.goals| ==> s.app.goals[i].taskId != s.app.goals[j].taskId)
    && (forall g :: g in s.app.goals ==> g.taskId < s.app.nextTask)
  }

  ghost predicate Matched(s: Session) {
    PlansMatch(s) && McpMatch(s) && RequestsOnce(s) && Consent(s) && FreshIds(s)
  }

  ghost predicate Inv(s: Session) {
    Matched(s) && (s.open ==> !s.app.shouldQuit)
  }

  // ----- keys -----

  /** While a plan waits, a key changes nothing but that plan. */
  lemma PlanPromptIsModal(s: App, k: Key, v: View)
    requires s.plans != []
    ensures var (t, intent) := HandleKey(s, k, v);
      && t == s.(plans := t.plans)
      && (intent.Some? ==>
            && PlanDecision(k).Some? && t.plans == s.plans[1..]
            && intent == Some(ResolvePlan(s.plans[0].taskId, PlanDecision(k).value)))
      && (intent.None? ==>
            && PlanDecision(k).None? && |t.plans| == |s.plans| && t.plans[1..] == s.plans[1..]
            && t.plans[0].taskId == s.plans[0].taskId)
  {
  }

  /** While an MCP request waits, a key moves the cursor, asks to quit or resolves the selected request. */
  lemma McpPromptIsModal(s: App, k: Key, v: View)
    requires s.plans == [] && s.mcp != []
    ensures var (t, intent) := HandleKey(s, k, v);
      && t == s.(screen := t.screen, mcp := t.mcp, mcpSelected := t.mcpSelected, shouldQuit := t.shouldQuit)
      && (intent.None? ==>
            && t.mcp == s.mcp && t.shouldQuit == s.shouldQuit
            && (s.mcpSelected < |s.mcp| ==> t.mcpSelected < |t.mcp|))
      && (intent.Some? && intent != Some(Quit) ==>
            && McpDecision(k).Some? && intent == Some(ResolveMcp(s.mcp[McpCursor(s)], McpDecision(k).value))
            && t.mcp == RemoveAt(s.mcp, McpCursor(s)) && t.shouldQuit == s.shouldQuit
            && (t.mcp != [] ==> t.mcpSelected < |t.mcp|))
      && (intent == Some(Quit) ==> McpDecision(k).None? && t.mcp == s.mcp && t.mcpSelected == s.mcpSelected)
  {
  }

  ghost predicate GoalIdsFresh(goals: seq<Goal>, next: TaskId) {
    && (forall i, j :: 0 <= i < j < |goals| ==> goals[i].taskId != goals[j].taskId)
    && (forall g :: g in goals ==> g.taskId < next)
  }

  predicate Queues(intent: Option<Intent>) {
    intent.Some? && (intent.value.QueueGoal? || intent.value.QueueTask?)
  }

  /** A free key touches no prompt, and the goal list grows only once the host question is answered. */
  ghost predicate KeepsPrompts(s: App, t: App, intent: Option<Intent>) {
    && t.plans == s.plans && t.mcp == s.mcp && t.mcpSelected == s.mcpSelected
    && (t.goals != [] ==> t.hostApproved.Some?)
    && (t.heldGoal.Some? ==> t.hostApproved.None?)
    && (s.hostApproved.Some? ==> t.hostApproved == s.hostApproved)
    && (Queues(intent) ==> t.goals != [])
    && (t.shouldQuit && !s.shouldQuit ==> intent == Some(Quit))
    && !(intent.Some? && (intent.value.ResolvePlan? || intent.value.ResolveMcp?))
  }

  ghost predicate Asked(s: App) {
    && (s.goals != [] ==> s.hostApproved.Some?)
    && (s.heldGoal.Some? ==> s.hostApproved.None?)
  }

  /** Everything a free key promises, for the handlers below and for `HandleKey` itself. */
  ghost predicate Keeps(s: App, result: (App, Option<Intent>)) {
    && KeepsPrompts(s, result.0, result.1)
    && (GoalIdsFresh(s.goals, s.nextTask) ==> GoalIdsFresh(result.0.goals, result.0.nextTask))
  }

  lemma DeleteKeeps(s: App)
    requires Asked(s)
    ensures Keeps(s, (DeleteSelected(s), None))
  {
  }

  lemma HostKeyKeeps(s: App, k: Key)
    requires Asked(s) && s.heldGoal.Some?
    ensures Keeps(s, HostKey(s, k))
  {
  }

  lemma ClarifyKeyKeeps(s: App, k: Key, v: View)
    requires Asked(s)
    ensures Keeps(s, ClarifyKey(s, k, v))
  {
  }

  /** What changes only the screen, or asks to quit, keeps everything. */
  lemma ScreenChangeKeeps(s: App, result: (App, Option<Intent>))
    requires Asked(s) && result.0 == s.(screen := result.0.screen, shouldQuit := result.0.shouldQuit)
    requires result.1.None? || result.1.value.Panel? || result.1.value.Quit?
    requires result.0.shouldQuit && !s.shouldQuit ==> result.1 == Some(Quit)
    ensures Keeps(s, result)
  {
  }

  lemma DeleteChoiceKeeps(s: App)
    requires Asked(s)
    ensures Keeps(s, PaletteChoice(s, DeleteSelectedGoal))
  {
    DeleteKeeps(s);
  }

  lemma ClearChoiceKeeps(s: App)
    requires Asked(s)
    ensures Keeps(s, PaletteChoice(s, ClearHistory))
  {
    assert PaletteChoice(s, ClearHistory).0.goals == [];
  }

  lemma OtherChoiceKeeps(s: App, option: PaletteOption)
    requires Asked(s) && option != DeleteSelectedGoal && option != ClearHistory
    ensures Keeps(s, PaletteChoice(s, option))
  {
    ScreenChangeKeeps(s, PaletteChoice(s, option));
  }

  lemma PaletteKeyKeeps(s: App, k: Key, v: View)
    requires Asked(s)
    ensures Keeps(s, PaletteKey(s, k, v))
  {
    if k.code == Enter && v.palette.Some? {
      match v.palette.value
      case DeleteSelectedGoal => DeleteChoiceKeeps(s);
      case ClearHistory => ClearChoiceKeeps(s);
      case option => OtherChoiceKeeps(s, option);
    } else {
      ScreenChangeKeeps(s, (s, None));
    }
  }

  lemma GoalKeyKeeps(s: App, k: Key, v: View)
    requires Asked(s) && s.heldGoal.None?
    ensures Keeps(s, GoalKey(s, k, v))
  {
  }

  lemma PanelKeyKeeps(s: App, v: View)
    requires Asked(s)
    ensures Keeps(s, (s, PanelIntent(v))) && Keeps(s, (s, None))
  {
  }

  lemma KeyInModeKeeps(s: App, k: Key, v: View)
    requires Asked(s) && s.heldGoal.None?
    ensures Keeps(s, KeyInMode(s, k, v))
  {
    match s.screen.mode
    case GoalTyping => GoalKeyKeeps(s, k, v);
    case TaskTyping => GoalKeyKeeps(s, k, v);
    case CommandPalette => PaletteKeyKeeps(s, k, v);
    case Clarify => ClarifyKeyKeeps(s, k, v);
    case _ => PanelKeyKeeps(s, v);
  }

  lemma ModeKeyKeeps(s: App, k: Key, v: View)
    requires Asked(s) && s.heldGoal.None?
    ensures Keeps(s, ModeKey(s, k, v))
  {
    if k.ctrl && k.code == Char('d') && Typing(s.screen.mode) && s.goals != [] {
      DeleteKeeps(s);
    } else if k.ctrl && (k.code == Char('c') || k.code == Char(';')) {
      ScreenChangeKeeps(s, ModeKey(s, k, v));
    } else if k.ctrl && IsLetter(k, 'v', 'V') {
      ScreenChangeKeeps(s, (s, Some(Panel)));
    } else {
      KeyInModeKeeps(s, k, v);
    }
  }

  lemma EscKeyKeeps(s: App, v: View)
    requires Asked(s)
    ensures Keeps(s, EscKey(s, v))
  {
  }

  lemma OverlayKeyKeeps(s: App, k: Key, v: View)
    requires Asked(s) && s.heldGoal.None?
    ensures Keeps(s, OverlayKey(s, k, v))
  {
    ModeKeyKeeps(s, k, v);
  }

  lemma FreeKeyKeeps(s: App, k: Key, v: View)
    requires s.plans == [] && s.mcp == [] && Asked(s)
    ensures Keeps(s, HandleKey(s, k, v))
  {
    if s.heldGoal.Some? {
      HostKeyKeeps(s, k);
    } else {
      OverlayKeyKeeps(s, k, v);
      EscKeyKeeps(s, v);
    }
  }

  /** The keys that approve: on a plan a plain Y press, on an MCP request Enter or Y however pressed. */
  predicate ApprovingKey(k: Key, onPlan: bool) {
    if onPlan then Unmodified(k) && k.code in {Char('y'), Char('Y')}
    else k.code in {Enter, Char('y'), Char('Y')}
  }

  predicate DenyingKey(k: Key, onPlan: bool) {
    if onPlan then
      && k.kind == Press
      && (k.code == Esc || (k.code == Char('c') && k.ctrl) || (Unmodified(k) && k.code in {Char('n'), Char('N')}))
    else k.code in {Esc, Char('n'), Char('N')}
  }

  predicate Unmodified(k: Key) {
    k.kind == Press && !k.ctrl && !k.alt && !k.super
  }

  /** On an MCP prompt an answering key removes and resolves the selected request; any other key leaves
      every request waiting. The cursor stays on one, and nothing but the queue is touched. */
  ghost predicate AnswersSelected(s: App, k: Key, t: App, intent: Option<Intent>)
    requires s.mcp != []
  {
    var i := McpCursor(s);
    && t.plans == s.plans && t.goals == s.goals && t.hostApproved == s.hostApproved && t.screen.mode == s.screen.mode
    && (if ApprovingKey(k, false) || DenyingKey(k, false)
        then intent == Some(ResolveMcp(s.mcp[i], ApprovingKey(k, false))) && t.mcp == s.mcp[..i] + s.mcp[i + 1..]
        else t.mcp == s.mcp && (intent.None? || intent == Some(Quit)))
    && (s.mcpSelected < |s.mcp| && t.mcp != [] ==> t.mcpSelected < |t.mcp|)
  }

  lemma McpKeyAnswersSelected(s: App, k: Key, v: View)
    requires s.mcp != []
    ensures AnswersSelected(s, k, McpKey(s, k, v).0, McpKey(s, k, v).1)
  {
  }

  /** While a prompt waits no key reaches the goals, the mode or the host answer; without one no key
      makes a prompt, and a goal is queued only after the host answer. */
  ghost predicate PromptsFirst(s: App, t: App, intent: Option<Intent>) {
    && Asked(t)
    && (s.plans != [] || s.mcp != [] ==>
          t.goals == s.goals && t.hostApproved == s.hostApproved && t.screen.mode == s.screen.mode && !Queues(intent))
    && (s.plans == [] && s.mcp == [] ==> t.plans == [] && t.mcp == [])
    && (Queues(intent) ==> t.hostApproved.Some? && t.goals != [])
  }

  lemma KeyPutsPromptsFirst(s: App, k: Key, v: View)
    ensures Asked(s) ==> PromptsFirst(s, HandleKey(s, k, v).0, HandleKey(s, k, v).1)
  {
    if s.plans != [] {
      PlanPromptIsModal(s, k, v);
    } else if s.mcp != [] {
      McpKeyAnswersSelected(s, k, v);
      McpPromptIsModal(s, k, v);
    } else if Asked(s) {
      FreeKeyKeeps(s, k, v);
    }
  }

  // ----- events -----

  lemma ReplyRemoved(m: map<nat, Request>, id: nat)
    requires Injective(m) && id in m
    ensures Injective(m - {id})
    ensures (m - {id}).Values == m.Values - {m[id]}
  {
    forall r ensures r in (m - {id}).Values <==> r in m.Values - {m[id]} {
      if r in m.Values - {m[id]} {
        var k :| k in m && m[k] == r;
        assert (m - {id})[k] == r;
      }
    }
  }

  lemma ReplyAdded(m: map<nat, Request>, id: nat, r: Request)
    requires Injective(m) && id !in m && r !in m.Values
    ensures Injective(m[id := r])
    ensures m[id := r].Values == m.Values + {r}
  {
    var n := m[id := r];
    assert n[id] == r;
    forall x ensures x in n.Values <==> x in m.Values + {r} {
      if x in m.Values {
        var k :| k in m && m[k] == x;
        assert n[k] == x;
      }
    }
  }

  lemma CloseKeeps(s: Session)
    requires Matched(s)
    ensures Inv(Close(s))
  {
    assert Close(s).answers.Keys == s.answers.Keys + (s.planReplies.Values + s.mcpReplies.Values);
    assert Close(s).planReplies.Values == {} && Close(s).mcpReplies.Values == {};
  }

  lemma FirstPlanRemoved(plans: seq<Plan>)
    requires plans != [] && forall i, j :: 0 <= i < j < |plans| ==> plans[i].taskId != plans[j].taskId
    ensures PlanIds(plans[1..]) == PlanIds(plans) - {plans[0].taskId}
  {
    forall id | id in PlanIds(plans) && id != plans[0].taskId ensures id in PlanIds(plans[1..]) {
      var i :| 0 <= i < |plans| && plans[i].taskId == id;
      assert plans[1..][i - 1] == plans[i];
    }
  }

  lemma SamePlanIds(was: seq<Plan>, now: seq<Plan>)
    requires |was| == |now| && forall i :: 0 <= i < |was| ==> was[i].taskId == now[i].taskId
    ensures PlanIds(was) == PlanIds(now)
  {
    forall id ensures id in PlanIds(now) <==> id in PlanIds(was) {
      if id in PlanIds(was) {
        var i :| 0 <= i < |was| && was[i].taskId == id;
        assert now[i] in now;
      }
      if id in PlanIds(now) {
        var i :| 0 <= i < |now| && now[i].taskId == id;
        assert was[i] in was;
      }
    }
  }

  lemma PlanKeyKeeps(s: Session, k: Key, v: View)
    requires Inv(s) && s.open && s.app.plans != []
    ensures Inv(KeyStep(s, k, v))
    ensures PlanDecision(k).Some? ==>
      s.app.plans[0].taskId in s.planReplies && Listed(s.app.goals, s.app.plans[0].taskId)
  {
    PlanPromptIsModal(s.app, k, v);
    PlanResolvedKeeps(s, true);
    if PlanDecision(k).Some? {
      PlanResolvedKeeps(s, PlanDecision(k).value);
    } else {
      PlanScrolledKeeps(s, HandleKey(s.app, k, v).0.plans);
    }
  }

  lemma PlanScrolledKeeps(s: Session, plans: seq<Plan>)
    requires Inv(s) && s.open && s.app.plans != []
    requires |plans| == |s.app.plans| && plans[1..] == s.app.plans[1..] && plans[0].taskId == s.app.plans[0].taskId
    ensures Inv(s.(app := s.app.(plans := plans)))
  {
    assert s.app.plans == [s.app.plans[0]] + s.app.plans[1..] && plans == [plans[0]] + plans[1..];
    SamePlanIds(s.app.plans, plans);
  }

  lemma PlanResolvedKeeps(s: Session, approved: bool)
    requires Inv(s) && s.open && s.app.plans != []
    ensures var id := s.app.plans[0].taskId;
      id in s.planReplies && Listed(s.app.goals, id)
      && Inv(s.(app := s.app.(plans := s.app.plans[1..]), planReplies := s.planReplies - {id},
                answers := s.answers[s.planReplies[id] := approved]))
  {
    var id := s.app.plans[0].taskId;
    assert id in PlanIds(s.app.plans);
    ReplyRemoved(s.planReplies, id);
    FirstPlanRemoved(s.app.plans);
    assert s.answers[s.planReplies[id] := approved].Keys == s.answers.Keys + {s.planReplies[id]};
  }

  lemma McpKeyKeeps(s: Session, k: Key, v: View)
    requires Inv(s) && s.open && s.app.plans == [] && s.app.mcp != []
    ensures Inv(KeyStep(s, k, v))
  {
    McpPromptIsModal(s.app, k, v);
    var (app, intent) := HandleKey(s.app, k, v);
    if intent == Some(Quit) {
      CloseKeeps(s.(app := app));
    } else if intent.Some? {
      McpResolvedKeeps(s, app, McpDecision(k).value);
    }
  }

  lemma McpResolvedKeeps(s: Session, app: App, approved: bool)
    requires Inv(s) && s.open && s.app.mcp != []
    requires app == s.app.(screen := app.screen, mcp := RemoveAt(s.app.mcp, McpCursor(s.app)),
                               mcpSelected := app.mcpSelected)
    requires app.mcp != [] ==> app.mcpSelected < |app.mcp|
    ensures var id := s.app.mcp[McpCursor(s.app)];
      id in s.mcpReplies
      && Inv(s.(app := app, mcpReplies := s.mcpReplies - {id}, answers := s.answers[s.mcpReplies[id] := approved]))
  {
    var i := McpCursor(s.app);
    var id := s.app.mcp[i];
    assert id in s.app.mcp;
    ReplyRemoved(s.mcpReplies, id);
    RemoveAtKeepsRest(s.app.mcp, i);
    assert s.answers[s.mcpReplies[id] := approved].Keys == s.answers.Keys + {s.mcpReplies[id]};
  }

  lemma RemoveAtKeepsRest(ids: seq<McpId>, i: nat)
    requires i < |ids| && Distinct(ids)
    ensures Distinct(RemoveAt(ids, i))
    ensures (set id | id in RemoveAt(ids, i)) == (set id | id in ids) - {ids[i]}
  {
    var rest := RemoveAt(ids, i);
    forall id | id in ids && id != ids[i] ensures id in rest {
      var j :| 0 <= j < |ids| && ids[j] == id;
      assert rest[if j < i then j else j - 1] == id;
    }
  }

  lemma FreeStepKeeps(s: Session, k: Key, v: View)
    requires Inv(s) && s.open && s.app.plans == [] && s.app.mcp == []
    ensures var (app, intent) := HandleKey(s.app, k, v);
      Matched(s.(app := app)) && (app.shouldQuit ==> intent == Some(Quit))
  {
    FreeKeyKeeps(s.app, k, v);
  }

  lemma KeyKeeps(s: Session, k: Key, v: View)
    requires Inv(s) && s.open
    ensures Inv(KeyStep(s, k, v))
  {
    if s.app.plans != [] {
      PlanKeyKeeps(s, k, v);
    } else if s.app.mcp != [] {
      McpKeyKeeps(s, k, v);
    } else {
      FreeStepKeeps(s, k, v);
      FreeKeyKeeps(s.app, k, v);
      var (app, intent) := HandleKey(s.app, k, v);
      if intent == Some(Quit) {
        CloseKeeps(s.(app := app));
      } else {
        PerformKeeps(s.(app := app), intent, v);
      }
    }
  }

  /** Acting on an intent that resolves nothing and does not quit. */
  lemma PerformKeeps(s: Session, intent: Option<Intent>, v: View)
    requires Inv(s) && s.open
    requires intent.Some? ==> !intent.value.ResolvePlan? && !intent.value.ResolveMcp? && !intent.value.Quit?
    requires Queues(intent) ==> s.app.hostApproved.Some?
    ensures intent.Some? ==> Inv(Perform(s, intent.value, v))
  {
    if Queues(intent) {
      SpawnKeeps(s, SpawnFor(s, intent.value.prompt));
    } else if intent == Some(SaveSettings) {
      ScreenKeeps(s, s.app.screen.(modelReady := v.modelReady));
    }
  }

  lemma SpawnKeeps(s: Session, sp: Spawn)
    requires Inv(s) && s.app.hostApproved == Some(sp.hostApproved)
    ensures Inv(s.(spawned := s.spawned + [sp]))
  {
  }

  lemma ScreenKeeps(s: Session, screen: Screen)
    requires Inv(s)
    ensures Inv(s.(app := s.app.On(screen)))
  {
  }

  lemma PlanAppended(plans: seq<Plan>, p: Plan)
    requires p.taskId !in PlanIds(plans)
    ensures PlanIds(plans + [p]) == PlanIds(plans) + {p.taskId}
    ensures forall q :: q in plans ==> q.taskId != p.taskId
  {
    assert (plans + [p])[|plans|] == p;
    forall id | id in PlanIds(plans) ensures id in PlanIds(plans + [p]) {
      var q :| q in plans && q.taskId == id;
      assert q in plans + [p];
    }
    forall q | q in plans ensures q.taskId != p.taskId {
      assert q.taskId in PlanIds(plans);
    }
  }

  lemma NextRequestIsNew(s: Session)
    requires RequestsOnce(s)
    ensures s.nextRequest !in s.planReplies.Values + s.mcpReplies.Values + s.answers.Keys
  {
    MadeIsBelow(s.nextRequest);
  }

  lemma PlanRequestKeeps(s: Session, id: TaskId)
    requires Inv(s) && s.open
    ensures Inv(RequestPlan(s, id))
  {
    NextRequestIsNew(s);
    if Listed(s.app.goals, id) && id !in s.planReplies {
      PlanAccepted(s, id);
    } else {
      assert s.answers[s.nextRequest := false].Keys == s.answers.Keys + {s.nextRequest};
    }
  }

  lemma PlanAccepted(s: Session, id: TaskId)
    requires Inv(s) && s.open && Listed(s.app.goals, id) && id !in s.planReplies
    ensures Inv(RequestPlan(s, id))
  {
    PlanAcceptedCounts(s, id);
    PlanAcceptedMatches(s, id);
  }

  lemma PlanAcceptedCounts(s: Session, id: TaskId)
    requires RequestsOnce(s) && s.open && Listed(s.app.goals, id) && id !in s.planReplies
    ensures RequestsOnce(RequestPlan(s, id))
  {
    NextRequestIsNew(s);
    ReplyAdded(s.planReplies, id, s.nextRequest);
  }

  lemma PlanAcceptedMatches(s: Session, id: TaskId)
    requires PlansMatch(s) && s.open && Listed(s.app.goals, id) && id !in s.planReplies
    ensures PlansMatch(RequestPlan(s, id))
  {
    PlanAppended(s.app.plans, Plan(id, 0));
    assert RequestPlan(s, id).planReplies.Keys == s.planReplies.Keys + {id};
  }

  /** A plan is shown exactly when its goal is listed and no plan of that goal waits; else it is refused. */
  ghost predicate ShownOrRefused(s: Session, id: TaskId, t: Session) {
    if Listed(s.app.goals, id) && forall p :: p in s.app.plans ==> p.taskId != id
    then t.app.plans == s.app.plans + [Plan(id, 0)] && t.answers == s.answers
    else t.app.plans == s.app.plans && t.answers == s.answers[s.nextRequest := false]
  }

  lemma PlanIsShownOrRefused(s: Session, id: TaskId)
    requires PlansMatch(s) && s.open
    ensures ShownOrRefused(s, id, RequestPlan(s, id))
  {
    assert id in s.planReplies <==> id in PlanIds(s.app.plans);
  }

  lemma McpRequestKeeps(s: Session, id: McpId)
    requires Inv(s) && s.open && id !in s.issued
    ensures Inv(RequestMcp(s, id))
  {
    var r := s.nextRequest;
    NextRequestIsNew(s);
    ReplyAdded(s.mcpReplies, id, r);
    assert (s.app.mcp + [id])[|s.app.mcp|] == id;
  }

  lemma {:induction false} UpdateKeepsIds(goals: seq<Goal>, id: TaskId, questions: nat)
    ensures var u := UpdateQuestions(goals, id, questions);
      |u| == |goals| && forall i :: 0 <= i < |u| ==> u[i].taskId == goals[i].taskId
  {
    if goals != [] {
      UpdateKeepsIds(goals[1..], id, questions);
    }
  }

  lemma UpdateKeeps(s: Session, id: TaskId, questions: nat)
    requires Inv(s) && s.open
    ensures Inv(Dispatch(s, StateUpdate(id, questions)))
  {
    var u := UpdateQuestions(s.app.goals, id, questions);
    UpdateKeepsIds(s.app.goals, id, questions);
    forall x | x in TaskIds(s.app.goals) ensures x in TaskIds(u) {
      var i :| 0 <= i < |s.app.goals| && s.app.goals[i].taskId == x;
      assert u[i] in u;
    }
    forall g | g in u ensures g.taskId < s.app.nextTask {
      var i :| 0 <= i < |u| && u[i] == g;
      assert s.app.goals[i] in s.app.goals;
    }
  }

  lemma StepKeepsInv(s: Session, e: Event)
    requires Inv(s) && (e.McpRequested? ==> e.mcpId !in s.issued)
    ensures Inv(Step(s, e))
  {
    if s.open {
      match e
      case KeyEvent(k, v) => KeyKeeps(s, k, v);
      case PasteEvent(v) =>
      case StateUpdate(id, questions) => UpdateKeeps(s, id, questions);
      case PlanRequested(id) => PlanRequestKeeps(s, id);
      case McpRequested(id) => McpRequestKeeps(s, id);
      case Background =>
      case ChannelClosed => CloseKeeps(s);
    }
  }

  // ----- every run -----

  lemma IssuedBy(s: Session, e: Event)
    ensures Step(s, e).issued <= s.issued + if e.McpRequested? then {e.mcpId} else {}
  {
  }

  /** Ids are issued only by the events that request them. */
  lemma {:induction false} RunIssues(s0: Session, events: seq<Event>, id: McpId)
    requires s0.issued == {} && forall i :: 0 <= i < |events| ==> events[i] != McpRequested(id)
    ensures id !in RunFrom(s0, events).issued
  {
    if events != [] {
      var last := |events| - 1;
      RunIssues(s0, events[..last], id);
      IssuedBy(RunFrom(s0, events[..last]), events[last]);
    }
  }

  lemma FreshIsInv(modelReady: bool)
    ensures Inv(FreshSession(modelReady))
  {
  }

  lemma {:induction false} RunInv(modelReady: bool, events: seq<Event>)
    requires FreshMcpIds(events)
    ensures Inv(RunFrom(FreshSession(modelReady), events))
  {
    FreshIsInv(modelReady);
    if events != [] {
      var last := |events| - 1;
      RunInv(modelReady, events[..last]);
      if events[last].McpRequested? {
        RunIssues(FreshSession(modelReady), events[..last], events[last].mcpId);
      }
      StepKeepsInv(RunFrom(FreshSession(modelReady), events[..last]), events[last]);
    }
  }

  // ----- main results -----

  ghost predicate Reachable(modelReady: bool, events: seq<Event>, s: Session) {
    FreshMcpIds(events) && s == RunFrom(FreshSession(modelReady), events)
  }

  /** The loop-head claim: prompts and replies match one to one, and every pending plan's goal is listed. */
  lemma PromptsMatchReplies(modelReady: bool, events: seq<Event>, s: Session)
    requires Reachable(modelReady, events, s)
    ensures PlansMatch(s) && McpMatch(s) && FreshIds(s)
  {
    RunInv(modelReady, events);
  }

  /** Every request is waiting or answered, never both; after the loop all are answered. */
  lemma RequestsAreConserved(modelReady: bool, events: seq<Event>, s: Session)
    requires Reachable(modelReady, events, s)
    ensures RequestsOnce(s)
    ensures !s.open ==> s.answers.Keys == Made(s.nextRequest)
  {
    RunInv(modelReady, events);
  }

  /** `r` is the reply of the prompt in front: the oldest plan, or else the selected MCP request. */
  predicate InFront(s: Session, r: Request) {
    if s.app.plans != [] then
      var id := s.app.plans[0].taskId;
      id in s.planReplies && r == s.planReplies[id]
    else
      s.app.mcp != [] && s.app.mcpSelected < |s.app.mcp|
      && var id := s.app.mcp[s.app.mcpSelected]; id in s.mcpReplies && r == s.mcpReplies[id]
  }

  predicate Approves(s: Session, e: Event, r: Request) {
    e.KeyEvent? && ApprovingKey(e.k, s.app.plans != []) && InFront(s, r)
  }

  predicate Denies(s: Session, e: Event, r: Request) {
    e.KeyEvent? && DenyingKey(e.k, s.app.plans != []) && InFront(s, r)
  }

  ghost predicate NewlyTrue(s: Session, t: Session, r: Request) {
    r !in s.answers && r in t.answers && t.answers[r]
  }

  ghost predicate NewlyFalse(s: Session, t: Session, r: Request) {
    r !in s.answers && r in t.answers && !t.answers[r]
  }

  ghost predicate NeverRevised(s: Session, t: Session) {
    forall q :: q in s.answers ==> q in t.answers && t.answers[q] == s.answers[q]
  }

  /** What a key on a plan prompt does to the answers. */
  lemma PlanKeyEffect(s: Session, k: Key, v: View)
    requires Inv(s) && s.open && s.app.plans != []
    ensures var id, t := s.app.plans[0].taskId, KeyStep(s, k, v);
      && id in s.planReplies && t.open && t.app.shouldQuit == s.app.shouldQuit
      && t.answers == if PlanDecision(k).Some? then s.answers[s.planReplies[id] := PlanDecision(k).value] else s.answers
  {
    PlanPromptIsModal(s.app, k, v);
    PlanResolvedKeeps(s, true);
  }

  lemma FrontIsUnanswered(s: Session, r: Request)
    requires RequestsOnce(s) && InFront(s, r)
    ensures r !in s.answers
  {
  }

  lemma PlanKeyAnswers(s: Session, k: Key, v: View, r: Request)
    requires Inv(s) && s.open && s.app.plans != []
    ensures var t := KeyStep(s, k, v);
      NeverRevised(s, t) && (NewlyTrue(s, t, r) <==> Approves(s, KeyEvent(k, v), r))
  {
    PlanKeyEffect(s, k, v);
    FrontIsUnanswered(s, s.planReplies[s.app.plans[0].taskId]);
  }

  /** What a key on an MCP prompt does to the answers. */
  lemma McpKeyEffect(s: Session, k: Key, v: View)
    requires Inv(s) && s.open && s.app.plans == [] && s.app.mcp != []
    ensures var id, t := s.app.mcp[s.app.mcpSelected], KeyStep(s, k, v);
      && id in s.mcpReplies
      && (McpDecision(k).Some? ==> t.open && t.answers == s.answers[s.mcpReplies[id] := McpDecision(k).value])
      && (McpDecision(k).None? ==> t.answers == if t.open then s.answers else Close(s).answers)
  {
    McpPromptIsModal(s.app, k, v);
    assert s.app.mcp[s.app.mcpSelected] in s.app.mcp;
  }

  lemma McpKeyAnswers(s: Session, k: Key, v: View, r: Request)
    requires Inv(s) && s.open && s.app.plans == [] && s.app.mcp != []
    ensures var t := KeyStep(s, k, v);
      NeverRevised(s, t) && (NewlyTrue(s, t, r) <==> Approves(s, KeyEvent(k, v), r))
  {
    McpKeyEffect(s, k, v);
    FrontIsUnanswered(s, s.mcpReplies[s.app.mcp[s.app.mcpSelected]]);
  }

  lemma FreeKeyAnswers(s: Session, k: Key, v: View, r: Request)
    requires Inv(s) && s.open && s.app.plans == [] && s.app.mcp == []
    ensures var t := KeyStep(s, k, v); NeverRevised(s, t) && !NewlyTrue(s, t, r)
  {
    FreeKeyKeeps(s.app, k, v);
  }

  lemma KeyAnswers(s: Session, k: Key, v: View, r: Request)
    requires Inv(s) && s.open
    ensures var t := KeyStep(s, k, v);
      NeverRevised(s, t) && (NewlyTrue(s, t, r) <==> Approves(s, KeyEvent(k, v), r))
  {
    if s.app.plans != [] {
      PlanKeyAnswers(s, k, v, r);
    } else if s.app.mcp != [] {
      McpKeyAnswers(s, k, v, r);
    } else {
      FreeKeyAnswers(s, k, v, r);
    }
  }

  /** A request hears yes exactly when the approving key meets its own prompt, and no answer is ever revised. */
  lemma YesComesFromTheKey(s: Session, e: Event, r: Request)
    requires Inv(s) && s.open && (e.McpRequested? ==> e.mcpId !in s.issued)
    ensures var t := Step(s, e);
      && (NewlyTrue(s, t, r) <==> Approves(s, e, r))
      && NeverRevised(s, t)
  {
    NextRequestIsNew(s);
    if e.KeyEvent? {
      KeyAnswers(s, e.k, e.v, r);
      KeyKeeps(s, e.k, e.v);
    }
  }

  /** `e` asks for a plan that cannot be shown, and `r` is the number its request gets. */
  predicate RefusedOnArrival(s: Session, e: Event, r: Request) {
    e.PlanRequested? && r == s.nextRequest && (!Listed(s.app.goals, e.taskId) || e.taskId in s.planReplies)
  }

  lemma PlanKeyDenies(s: Session, k: Key, v: View, r: Request)
    requires Inv(s) && s.open && s.app.plans != []
    ensures var t := KeyStep(s, k, v);
      t.open && !t.app.shouldQuit && (NewlyFalse(s, t, r) <==> Denies(s, KeyEvent(k, v), r))
  {
    PlanKeyEffect(s, k, v);
    FrontIsUnanswered(s, s.planReplies[s.app.plans[0].taskId]);
  }

  lemma McpKeyDenies(s: Session, k: Key, v: View, r: Request)
    requires Inv(s) && s.open && s.app.plans == [] && s.app.mcp != []
    ensures var t := KeyStep(s, k, v);
      NewlyFalse(s, t, r) <==> Denies(s, KeyEvent(k, v), r) || (!t.open && Waits(s, r))
  {
    McpKeyEffect(s, k, v);
    FrontIsUnanswered(s, s.mcpReplies[s.app.mcp[s.app.mcpSelected]]);
  }

  ghost predicate Waits(s: Session, r: Request) {
    r in s.planReplies.Values || r in s.mcpReplies.Values
  }

  lemma FreeKeyDenies(s: Session, k: Key, v: View, r: Request)
    requires Inv(s) && s.open && s.app.plans == [] && s.app.mcp == []
    ensures !NewlyFalse(s, KeyStep(s, k, v), r) && !Waits(s, r)
  {
    FreeKeyKeeps(s.app, k, v);
  }

  /** A request hears no exactly when a denying key meets its own prompt, when its plan is refused
      on arrival, or when the loop ends while it waits. */
  lemma NoComesFromExactly(s: Session, e: Event, r: Request)
    requires Inv(s) && s.open && (e.McpRequested? ==> e.mcpId !in s.issued)
    ensures var t := Step(s, e);
      NewlyFalse(s, t, r) <==> Denies(s, e, r) || RefusedOnArrival(s, e, r) || (!t.open && Waits(s, r))
  {
    NextRequestIsNew(s);
    if e.KeyEvent? {
      KeyKeeps(s, e.k, e.v);
      if s.app.plans != [] {
        PlanKeyDenies(s, e.k, e.v, r);
      } else if s.app.mcp != [] {
        McpKeyDenies(s, e.k, e.v, r);
      } else {
        FreeKeyDenies(s, e.k, e.v, r);
      }
    }
  }

  /** What one event may do: keep the invariant, revise no answer, and answer by the rules above. */
  ghost predicate Lawful(s: Session, e: Event, t: Session) {
    && Inv(t) && NeverRevised(s, t)
    && (s.open ==> forall r :: NewlyTrue(s, t, r) <==> Approves(s, e, r))
    && (s.open ==> forall r ::
          NewlyFalse(s, t, r) <==> Denies(s, e, r) || RefusedOnArrival(s, e, r) || (!t.open && Waits(s, r)))
  }

  lemma StepIsLawful(s: Session, e: Event)
    requires Inv(s) && (e.McpRequested? ==> e.mcpId !in s.issued)
    ensures Lawful(s, e, Step(s, e))
  {
    StepKeepsInv(s, e);
    if s.open {
      forall r ensures NewlyTrue(s, Step(s, e), r) <==> Approves(s, e, r) {
        YesComesFromTheKey(s, e, r);
      }
      forall r
        ensures NewlyFalse(s, Step(s, e), r)
           <==> Denies(s, e, r) || RefusedOnArrival(s, e, r) || (!Step(s, e).open && Waits(s, r))
      {
        NoComesFromExactly(s, e, r);
      }
      YesComesFromTheKey(s, e, 0);
    }
  }

  lemma NeverRevisedChains(s: Session, t: Session, u: Session)
    requires NeverRevised(s, t) && NeverRevised(t, u)
    ensures NeverRevised(s, u)
  {
  }

  /** No event asks again for an MCP id that was handed out before. */
  ghost predicate AsksFresh(issued: set<McpId>, events: seq<Event>) {
    FreshMcpIds(events) && forall e :: e in events && e.McpRequested? ==> e.mcpId !in issued
  }

  /** Event `i` of the run is the approving key on the prompt of `r`. */
  predicate ApprovedAt(modelReady: bool, events: seq<Event>, i: nat, r: Request)
    requires i < |events|
  {
    Approves(RunFrom(FreshSession(modelReady), events[..i]), events[i], r)
  }

  /** Over a whole run, every yes was given by its own key at some moment. */
  lemma {:induction false} EveryYesHasItsKey(modelReady: bool, events: seq<Event>, r: Request)
    requires FreshMcpIds(events)
    requires var s := RunFrom(FreshSession(modelReady), events); r in s.answers && s.answers[r]
    ensures exists i :: 0 <= i < |events| && ApprovedAt(modelReady, events, i, r)
  {
    if events != [] {
      var last := |events| - 1;
      var before := RunFrom(FreshSession(modelReady), events[..last]);
      LastEventIsReady(modelReady, events);
      YesIsOldOrNew(before, events[last], r);
      assert Approves(before, events[last], r) ==> ApprovedAt(modelReady, events, last, r);
      if r in before.answers && before.answers[r] {
        EveryYesHasItsKey(modelReady, events[..last], r);
        var i :| 0 <= i < last && ApprovedAt(modelReady, events[..last], i, r);
        ApprovedEarlier(modelReady, events, i, r);
      }
    }
  }

  lemma ApprovedEarlier(modelReady: bool, events: seq<Event>, i: nat, r: Request)
    requires i < |events| - 1 && ApprovedAt(modelReady, events[..|events| - 1], i, r)
    ensures ApprovedAt(modelReady, events, i, r)
  {
    assert events[..|events| - 1][..i] == events[..i];
  }

  /** Before the last event the invariant holds, and that event asks for no old MCP id. */
  lemma LastEventIsReady(modelReady: bool, events: seq<Event>)
    requires events != [] && FreshMcpIds(events)
    ensures var last := |events| - 1;
      var before := RunFrom(FreshSession(modelReady), events[..last]);
      Inv(before) && (events[last].McpRequested? ==> events[last].mcpId !in before.issued)
  {
    var last := |events| - 1;
    RunInv(modelReady, events[..last]);
    if events[last].McpRequested? {
      RunIssues(FreshSession(modelReady), events[..last], events[last].mcpId);
    }
  }

  lemma YesIsOldOrNew(s: Session, e: Event, r: Request)
    requires Inv(s) && (e.McpRequested? ==> e.mcpId !in s.issued)
    requires r in Step(s, e).answers && Step(s, e).answers[r]
    ensures (r in s.answers && s.answers[r]) || Approves(s, e, r)
  {
    if s.open {
      YesComesFromTheKey(s, e, r);
    }
  }

  /** Goals, and everything handed to the engine, come after the host-check answer and carry it. */
  lemma ConsentBeforeWork(modelReady: bool, events: seq<Event>, s: Session)
    requires Reachable(modelReady, events, s)
    ensures Consent(s)
  {
    RunInv(modelReady, events);
  }

  /** The host-check answer is set once, by Y, Enter or N on its own question. */
  lemma HostAnswerComesFromTheKey(s: Session, e: Event, approved: bool)
    requires Inv(s) && s.open
    ensures (s.app.hostApproved.None? && Step(s, e).app.hostApproved == Some(approved))
       <==> (e.KeyEvent? && s.app.plans == [] && s.app.mcp == [] && s.app.heldGoal.Some?
             && if approved then IsLetter(e.k, 'y', 'Y') || e.k.code == Enter else IsLetter(e.k, 'n', 'N'))
  {
    if e.KeyEvent? {
      KeyHostAnswer(s.app, e.k, e.v);
      KeyStepKeepsHostAnswer(s, e.k, e.v);
    }
  }

  lemma KeyStepKeepsHostAnswer(s: Session, k: Key, v: View)
    ensures KeyStep(s, k, v).app.hostApproved == HandleKey(s.app, k, v).0.hostApproved
  {
  }

  lemma KeyHostAnswer(s: App, k: Key, v: View)
    requires Asked(s)
    ensures var t := HandleKey(s, k, v).0;
      t.hostApproved == if s.plans == [] && s.mcp == [] && s.heldGoal.Some? && HostKey(s, k).0.hostApproved.Some?
                        then HostKey(s, k).0.hostApproved else s.hostApproved
  {
    if s.plans != [] {
      PlanPromptIsModal(s, k, v);
    } else if s.mcp != [] {
      McpPromptIsModal(s, k, v);
    } else if s.heldGoal.None? {
      ModeKeepsHostAnswer(s, k, v);
    }
  }

  lemma ModeKeepsHostAnswer(s: App, k: Key, v: View)
    requires s.heldGoal.None?
    ensures ModeKey(s, k, v).0.hostApproved == s.hostApproved
  {
  }

  /** A clarified goal is requeued under its own id exactly when it is the first in the list. */
  lemma ClarifiedGoalKeepsItsIdExactly(s: Session, k: Key, v: View, i: nat)
    requires Inv(s) && s.open && i < |s.app.goals|
    requires k.code == Enter && v.answer.Some? && s.app.screen.clarifyGoal == Some(i)
    requires s.app.screen.clarifyQuestion + 1 >= s.app.goals[i].questions
    ensures var (app, intent) := ClarifyKey(s.app, k, v);
      && Queues(intent) && app.goals[i].taskId == s.app.goals[i].taskId
      && (SpawnFor(s.(app := app), intent.value.prompt).taskId == s.app.goals[i].taskId <==> i == 0)
  {
  }

  /** A held goal still finds the mode it was made in, or else the screen went to Settings. */
  ghost predicate HeldInMode(s: App) {
    s.heldGoal.Some? ==> s.screen.mode in {Settings, if s.heldGoal.value.1 then TaskTyping else GoalTyping}
  }

  lemma SubmitHoldsInMode(s: App, v: View)
    requires s.heldGoal.None? && Typing(s.screen.mode)
    ensures HeldInMode(SubmitKey(s, v).0)
  {
  }

  lemma GoalKeyHoldsInMode(s: App, k: Key, v: View)
    requires s.heldGoal.None? && Typing(s.screen.mode)
    ensures HeldInMode(GoalKey(s, k, v).0)
  {
    SubmitHoldsInMode(s, v);
  }

  lemma PaletteKeyHoldsNothing(s: App, k: Key, v: View)
    ensures PaletteKey(s, k, v).0.heldGoal == s.heldGoal
  {
  }

  lemma ModeKeyHoldsInMode(s: App, k: Key, v: View)
    requires s.heldGoal.None?
    ensures HeldInMode(ModeKey(s, k, v).0)
  {
    if s.screen.mode == CommandPalette {
      PaletteKeyHoldsNothing(s, k, v);
    } else if Typing(s.screen.mode) {
      GoalKeyHoldsInMode(s, k, v);
    }
  }

  lemma EscKeyHoldsNothing(s: App, v: View)
    ensures EscKey(s, v).0.heldGoal == s.heldGoal
  {
  }

  lemma HostKeyKeepsHeldMode(s: App, k: Key)
    requires s.heldGoal.Some? && HeldInMode(s)
    ensures HeldInMode(HostKey(s, k).0)
  {
  }

  lemma KeyKeepsHeldMode(s: App, k: Key, v: View)
    requires HeldInMode(s)
    ensures HeldInMode(HandleKey(s, k, v).0)
  {
    if s.plans != [] {
      PlanPromptIsModal(s, k, v);
    } else if s.mcp != [] {
      McpKeyAnswersSelected(s, k, v);
      McpPromptIsModal(s, k, v);
    } else if s.heldGoal.Some? {
      HostKeyKeepsHeldMode(s, k);
    } else {
      ModeKeyHoldsInMode(s, k, v);
      EscKeyHoldsNothing(s, v);
    }
  }

  lemma PerformKeepsMode(s: Session, intent: Intent, v: View)
    ensures var t := Perform(s, intent, v).app;
      t.heldGoal == s.app.heldGoal && t.screen.mode == s.app.screen.mode
  {
  }

  lemma StepKeepsHeldMode(s: Session, e: Event)
    requires HeldInMode(s.app)
    ensures HeldInMode(Step(s, e).app)
  {
    if e.KeyEvent? {
      KeyKeepsHeldMode(s.app, e.k, e.v);
      var (app, intent) := HandleKey(s.app, e.k, e.v);
      if intent.Some? {
        PerformKeepsMode(s.(app := app), intent.value, e.v);
      }
    }
  }

  lemma {:induction false} RunHeldInMode(modelReady: bool, events: seq<Event>)
    ensures HeldInMode(RunFrom(FreshSession(modelReady), events).app)
  {
    if events != [] {
      var last := |events| - 1;
      RunHeldInMode(modelReady, events[..last]);
      StepKeepsHeldMode(RunFrom(FreshSession(modelReady), events[..last]), events[last]);
    }
  }

  /** After any run, a queued intent is spawned in another mode than it was made in exactly when it was
      held as a task and the screen is in Settings when the host question is answered. */
  lemma DirectFlagExactly(modelReady: bool, events: seq<Event>, s: Session, k: Key, v: View)
    requires Reachable(modelReady, events, s) && s.open && Queues(HandleKey(s.app, k, v).1)
    ensures var (app, intent) := HandleKey(s.app, k, v);
      var spawn := SpawnFor(s.(app := app), intent.value.prompt);
      && Step(s, KeyEvent(k, v)).spawned == s.spawned + [spawn]
      && (spawn.direct != intent.value.QueueTask?
          <==> s.app.heldGoal.Some? && s.app.heldGoal.value.1 && s.app.screen.mode == Settings)
  {
    RunInv(modelReady, events);
    RunHeldInMode(modelReady, events);
    NothingInFront(s.app, k, v);
    if s.app.heldGoal.None? {
      ModeQueuesInMode(s.app, k, v);
    } else {
      HeldQueuesInMode(s.app, k);
    }
  }

  lemma NothingInFront(s: App, k: Key, v: View)
    requires Queues(HandleKey(s, k, v).1)
    ensures s.plans == [] && s.mcp == []
    ensures s.heldGoal.None? ==> HandleKey(s, k, v) == ModeKey(s, k, v)
  {
  }

  lemma HeldQueuesInMode(s: App, k: Key)
    requires s.heldGoal.Some? && Queues(HostKey(s, k).1)
    ensures HostKey(s, k).1.value.QueueTask? == s.heldGoal.value.1
    ensures HostKey(s, k).0.screen == s.screen
  {
  }

  lemma ModeQueuesInMode(s: App, k: Key, v: View)
    requires s.heldGoal.None?
    ensures var (t, intent) := ModeKey(s, k, v);
      Queues(intent) ==> (intent.value.QueueTask? <==> t.screen.mode == TaskTyping)
  {
  }
}
