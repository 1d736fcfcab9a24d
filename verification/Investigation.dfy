/** One investigation: its persisted state and the five workflow nodes
    (src/modules/investigation/workflow.py). */
module Investigation {
  import opened Wrappers

  datatype Status = Queued | Running | Completed | Partial | Failed | Cancelled

  datatype Node = Planning | Retrieving | Comparing | Verifying | Reporting | Done

  datatype StopReason = Success | InsufficientEvidence | MaxSteps | Timeout | TokenBudget | ToolBudget
                      | RetrievalBudget | ToolFailure | CancelRequested | WorkflowFailure

  datatype Tool = Retrieve | SearchIncidents | CompareVersions

  datatype Call = Call(tool: Tool, request: string)

  datatype Plan = Plan(retrievals: seq<string>, comparisons: seq<string>, incidents: seq<string>)

  datatype Budget = Budget(maxSteps: nat, maxDuration: int, maxTokens: nat, maxToolCalls: nat, maxRetrievals: nat) {
    predicate Valid() {
      maxSteps > 0 && maxDuration > 0 && maxTokens > 0 && maxToolCalls > 0 && maxRetrievals > 0
    }
  }

  datatype ToolAction = ToolAction(node: Node, tool: Tool, duration: nat, resultCount: nat, error: Option<string>)

  /** The fields of a state that tool calls change. */
  datatype Work = Work(toolCalls: nat, retrievals: nat, evidence: seq<string>, incidents: seq<string>,
                       comparisons: seq<seq<string>>, actions: seq<ToolAction>)

  datatype State = State(
    id: string, budget: Budget, status: Status, node: Node,
    createdAt: int, updatedAt: int, startedAt: Option<int>, finishedAt: Option<int>,
    revision: nat, steps: nat, tokens: nat, cost: nat, plan: Option<Plan>, work: Work,
    unresolved: seq<string>, summary: Option<string>, pending: Option<StopReason>, stop: Option<StopReason>)
  {
    predicate Terminal() {
      status in {Completed, Partial, Failed, Cancelled}
    }

    /** What the constructor checks. */
    predicate Constructible() {
      && (Terminal() <==> node == Done)
      && (Terminal() <==> stop.Some?)
    }
  }

  // ----- the environment of one advance: clock readings and the replies of collaborators

  datatype Outcome = Returned(items: seq<string>) | ToolError(code: string) | Raised

  datatype ToolReply = ToolReply(startedAt: int, endedAt: int, checkedAt: int, outcome: Outcome)

  datatype PlanReply = Planned(plan: Plan, tokens: nat, cost: nat) | PlanRaised

  datatype VerifyReply = Judged(sufficient: bool, unresolved: seq<string>, tokens: nat, cost: nat) | VerifyRaised

  datatype ReportReply = Reported(summary: string, tokens: nat, cost: nat) | ReportRaised

  datatype Env = Env(startedAt: int, checkedAt: int, plan: PlanReply, tools: seq<ToolReply>, verify: VerifyReply,
                     report: ReportReply, recheckedAt: int, finishedAt: int, updatedAt: int)
  {
    /** The reply to the i-th tool call of the advance; a missing reply is a raised exception. */
    function Reply(i: nat): ToolReply {
      if i < |tools| then tools[i] else ToolReply(0, 0, 0, Raised)
    }
  }

  /** A call that was really made in a node, how it ended and how long it took. */
  datatype Entry = Entry(node: Node, call: Call, outcome: Outcome, elapsed: int)

  function Made(node: Node, call: Call, reply: ToolReply): Entry {
    Entry(node, call, reply.outcome, reply.endedAt - reply.startedAt)
  }

  // ----- budgets and terminal states

  function BudgetReason(s: State, now: int, includeSteps: bool): Option<StopReason> {
    if includeSteps && s.steps >= s.budget.maxSteps then Some(MaxSteps)
    else if s.tokens >= s.budget.maxTokens then Some(TokenBudget)
    else if s.startedAt.Some? && now - s.startedAt.value >= s.budget.maxDuration then Some(Timeout)
    else None
  }

  function ToolBudgetReason(s: State, retrieval: bool): Option<StopReason> {
    if s.work.toolCalls >= s.budget.maxToolCalls then Some(ToolBudget)
    else if retrieval && s.work.retrievals >= s.budget.maxRetrievals then Some(RetrievalBudget)
    else None
  }

  function DefaultSummary(reason: StopReason): string {
    match reason
    case Success => "Investigation completed with sufficient evidence."
    case InsufficientEvidence => "Investigation stopped with insufficient evidence."
    case MaxSteps => "Investigation stopped at the step budget."
    case Timeout => "Investigation stopped at the duration budget."
    case TokenBudget => "Investigation stopped at the token budget."
    case ToolBudget => "Investigation stopped at the tool-call budget."
    case RetrievalBudget => "Investigation stopped at the retrieval budget."
    case ToolFailure => "Investigation completed partially after a tool failure."
    case CancelRequested => "Investigation was cancelled."
    case WorkflowFailure => "Investigation failed safely."
  }

  function Stopped(s: State, reason: StopReason, finishedAt: int): State {
    s.(status := match reason
         case Success => Completed
         case CancelRequested => Cancelled
         case WorkflowFailure => Failed
         case _ => Partial,
       node := Done, stop := Some(reason), finishedAt := Some(finishedAt),
       summary := if s.summary == None || s.summary == Some("") then Some(DefaultSummary(reason)) else s.summary)
  }

  // ----- one tool call

  /** What became of the state: carry on, or return from the node, or an exception. */
  datatype Progress = Continue(state: State) | Return(state: State) | Exploded

  function Duration(startedAt: int, endedAt: int): nat {
    if endedAt > startedAt then (endedAt - startedAt) / 1000 else 0
  }

  function ResultCount(tool: Tool, items: seq<string>): nat {
    if tool == CompareVersions then 1 else |items|
  }

  function WithResult(w: Work, tool: Tool, items: seq<string>): Work {
    match tool
    case Retrieve => w.(evidence := w.evidence + items)
    case SearchIncidents => w.(incidents := w.incidents + items)
    case CompareVersions => w.(comparisons := w.comparisons + [items])
  }

  /** A call counted and recorded. */
  function WithAction(w: Work, action: ToolAction): Work {
    w.(toolCalls := w.toolCalls + 1, retrievals := w.retrievals + if action.tool == CompareVersions then 0 else 1,
       actions := w.actions + [action])
  }

  predicate CallAllowed(s: State, tool: Tool) {
    ToolBudgetReason(s, tool != CompareVersions) == None
  }

  /** `_tool_call` together with the loop body that uses its result. */
  function CallTool(s: State, tool: Tool, reply: ToolReply, finishedAt: int): Progress {
    var retrieval := tool != CompareVersions;
    var reason := ToolBudgetReason(s, retrieval);
    if reason.Some? then Return(Stopped(s, reason.value, finishedAt))
    else
      var duration := Duration(reply.startedAt, reply.endedAt);
      match reply.outcome
      case Raised => Exploded
      case ToolError(code) =>
        Return(s.(node := Verifying, pending := Some(ToolFailure),
                  work := WithAction(s.work, ToolAction(s.node, tool, duration, 0, Some(code)))))
      case Returned(items) =>
        var acted := s.(work := WithAction(s.work, ToolAction(s.node, tool, duration, ResultCount(tool, items), None)));
        var late := BudgetReason(acted, reply.checkedAt, false);
        if late.Some? then Return(Stopped(acted, late.value, finishedAt))
        else Continue(acted.(work := WithResult(acted.work, tool, items)))
  }

  // ----- the loops of `_retrieve` and `_compare`

  datatype Loop = Loop(progress: Progress, entries: seq<Entry>)

  /** Calls made one after the other until one of them ends the node. */
  function CallAll(s: State, calls: seq<Call>, env: Env, offset: nat): Loop
    decreases |calls|
  {
    if calls == [] then Loop(Continue(s), [])
    else
      var reply := env.Reply(offset);
      var progress := CallTool(s, calls[0].tool, reply, env.finishedAt);
      var made := if CallAllowed(s, calls[0].tool) then [Made(s.node, calls[0], reply)] else [];
      if progress.Continue? then
        var rest := CallAll(progress.state, calls[1..], env, offset + 1);
        Loop(rest.progress, made + rest.entries)
      else Loop(progress, made)
  }

  function CallsOf(tool: Tool, requests: seq<string>): (calls: seq<Call>)
    ensures |calls| == |requests|
  {
    seq(|requests|, i requires 0 <= i < |requests| => Call(tool, requests[i]))
  }

  function RetrieveCalls(plan: Plan): seq<Call> {
    CallsOf(Retrieve, plan.retrievals) + CallsOf(SearchIncidents, plan.incidents)
  }

  function CompareCalls(plan: Plan): seq<Call> {
    CallsOf(CompareVersions, plan.comparisons)
  }

  function PlannedCalls(plan: Plan): seq<Call> {
    RetrieveCalls(plan) + CompareCalls(plan)
  }

  lemma {:induction false} CallAllStep(s: State, calls: seq<Call>, n: nat, env: Env, offset: nat)
    requires n < |calls| && CallAll(s, calls[..n], env, offset).progress.Continue?
    ensures var before := CallAll(s, calls[..n], env, offset);
            var after := CallAll(before.progress.state, [calls[n]], env, offset + n);
            CallAll(s, calls[..n + 1], env, offset) == Loop(after.progress, before.entries + after.entries)
    decreases n
  {
    hide CallTool, CallAllowed, Made;
    if n == 0 {
      assert calls[..0] == [] && calls[..1] == [calls[0]];
    } else {
      var progress := CallTool(s, calls[0].tool, env.Reply(offset), env.finishedAt);
      assert calls[..n][1..] == calls[1..][..n - 1] && calls[..n + 1][1..] == calls[1..][..n];
      assert calls[..n][0] == calls[0] == calls[..n + 1][0];
      CallAllStep(progress.state, calls[1..], n - 1, env, offset + 1);
    }
  }

  /** Once a call has ended the node, later calls do not matter. */
  lemma {:induction false} CallAllEnded(s: State, calls: seq<Call>, n: nat, env: Env, offset: nat)
    requires n <= |calls| && !CallAll(s, calls[..n], env, offset).progress.Continue?
    ensures CallAll(s, calls, env, offset) == CallAll(s, calls[..n], env, offset)
    decreases n
  {
    var progress := CallTool(s, calls[0].tool, env.Reply(offset), env.finishedAt);
    assert calls[..n][0] == calls[0] && calls[..n][1..] == calls[1..][..n - 1];
    if progress.Continue? {
      CallAllEnded(progress.state, calls[1..], n - 1, env, offset + 1);
    }
  }

  // ----- the nodes

  function AfterNode(s: State, env: Env): Progress {
    var reason := BudgetReason(s, env.recheckedAt, false);
    if reason.Some? then Return(Stopped(s, reason.value, env.finishedAt)) else Return(s)
  }

  function PlanNode(s: State, env: Env): Progress {
    match env.plan
    case PlanRaised => Exploded
    case Planned(plan, tokens, cost) =>
      AfterNode(s.(plan := Some(plan), node := Retrieving, steps := s.steps + 1,
                   tokens := s.tokens + tokens, cost := s.cost + cost), env)
  }

  /** The retrieve and compare nodes: make all their calls, then go on to `next`. */
  function CallNode(s: State, calls: seq<Call>, next: Node, env: Env): Loop {
    var loop := CallAll(s.(steps := s.steps + 1), calls, env, 0);
    if loop.progress.Continue? then Loop(Return(loop.progress.state.(node := next)), loop.entries) else loop
  }

  function RetrieveNode(s: State, env: Env): Loop {
    if s.plan == None then Loop(Return(Stopped(s, WorkflowFailure, env.finishedAt)), [])
    else CallNode(s, RetrieveCalls(s.plan.value), Comparing, env)
  }

  function CompareNode(s: State, env: Env): Loop {
    if s.plan == None then Loop(Return(Stopped(s, WorkflowFailure, env.finishedAt)), [])
    else CallNode(s, CompareCalls(s.plan.value), Verifying, env)
  }

  function VerifyNode(s: State, env: Env): Progress {
    match env.verify
    case VerifyRaised => Exploded
    case Judged(sufficient, unresolved, tokens, cost) =>
      var reason := if s.pending == None && !sufficient then Some(InsufficientEvidence) else s.pending;
      AfterNode(s.(node := Reporting, steps := s.steps + 1, tokens := s.tokens + tokens, cost := s.cost + cost,
                   unresolved := unresolved, pending := if reason == None then Some(Success) else reason), env)
  }

  function ReportNode(s: State, env: Env): Progress {
    match env.report
    case ReportRaised => Exploded
    case Reported(summary, tokens, cost) =>
      var advanced := s.(steps := s.steps + 1, tokens := s.tokens + tokens, cost := s.cost + cost,
        summary := Some(summary));
      var reason := BudgetReason(advanced, env.recheckedAt, false);
      Return(Stopped(advanced, if reason.Some? then reason.value
                               else if advanced.pending.Some? then advanced.pending.value else Success, env.finishedAt))
  }

  function RunNode(s: State, env: Env): Loop {
    match s.node
    case Planning => Loop(PlanNode(s, env), [])
    case Retrieving => RetrieveNode(s, env)
    case Comparing => CompareNode(s, env)
    case Verifying => Loop(VerifyNode(s, env), [])
    case Reporting => Loop(ReportNode(s, env), [])
    case Done => Loop(Exploded, [])
  }

  // ----- one advance, one cancellation

  /** What the nodes' collaborators reported: how many nodes ran to their end and what they used, the
      plan, the questions left open and the summary. */
  datatype Log = Log(steps: nat, tokens: nat, cost: nat, plan: Option<Plan>, unresolved: Option<seq<string>>,
                     summary: Option<string>)
  {
    function After(log: Log): Log {
      Log(steps + log.steps, tokens + log.tokens, cost + log.cost, if log.plan.Some? then log.plan else plan,
          if log.unresolved.Some? then log.unresolved else unresolved,
          if log.summary.Some? then log.summary else summary)
    }
  }

  const NOTHING: Log := Log(0, 0, 0, None, None, None)

  /** What is reported in a node, unless it raises. */
  function Reports(node: Node, env: Env): Log {
    match node
    case Planning =>
      if env.plan.Planned? then Log(1, env.plan.tokens, env.plan.cost, Some(env.plan.plan), None, None) else NOTHING
    case Verifying =>
      if env.verify.Judged? then Log(1, env.verify.tokens, env.verify.cost, None, Some(env.verify.unresolved), None)
      else NOTHING
    case Reporting =>
      if env.report.Reported? then Log(1, env.report.tokens, env.report.cost, None, None, Some(env.report.summary))
      else NOTHING
    case _ => NOTHING.(steps := 1)
  }

  /** What one persisted step saves, the calls it made, the verdict it obtained and what was reported. */
  datatype Step = Step(next: State, entries: seq<Entry>, verdict: Option<bool>, log: Log)

  function Begun(s: State, env: Env): State {
    if s.status == Queued then s.(status := Running, startedAt := Some(env.startedAt)) else s
  }

  function Persisted(before: State, after: State, updatedAt: int): State {
    after.(revision := before.revision + 1, updatedAt := updatedAt)
  }

  function Advance(s: State, env: Env): Step {
    var begun := Begun(s, env);
    var reason := BudgetReason(begun, env.checkedAt, true);
    if reason.Some? then
      Step(Persisted(s, Stopped(begun, reason.value, env.finishedAt), env.updatedAt), [], None, NOTHING)
    else
      var ran := RunNode(begun, env);
      var after := if ran.progress.Exploded? then Stopped(begun, WorkflowFailure, env.finishedAt)
        else ran.progress.state;
      Step(Persisted(s, after, env.updatedAt), ran.entries,
           if begun.node == Verifying && env.verify.Judged? then Some(env.verify.sufficient) else None,
           if ran.progress.Exploded? then NOTHING else Reports(begun.node, env))
  }

  function CancelStep(s: State, finishedAt: int, updatedAt: int): Step {
    Step(Persisted(s, Stopped(s, CancelRequested, finishedAt), updatedAt), [], None, NOTHING)
  }

  function Start(id: string, budget: Budget, now: int): State {
    State(id, budget, Queued, Planning, now, now, None, None, 0, 0, 0, 0, None, Work(0, 0, [], [], [], []),
          [], None, None, None)
  }

  // ----- what a state says about the calls that led to it

  /** The calls made by all saved steps so far, the last verdict obtained and what was reported. */
  datatype History = History(entries: seq<Entry>, verdict: Option<bool>, log: Log) {
    function After(step: Step): History {
      History(entries + step.entries, if step.verdict.Some? then step.verdict else verdict, log.After(step.log))
    }
  }

  const BLANK: History := History([], None, NOTHING)

  function Calls(entries: seq<Entry>): (calls: seq<Call>)
    ensures |calls| == |entries|
  {
    seq(|entries|, i requires 0 <= i < |entries| => entries[i].call)
  }

  ghost predicate AllReturned(entries: seq<Entry>) {
    forall e :: e in entries ==> e.outcome.Returned?
  }

  /** The results of `tool`, in the order of the calls. */
  function Results(entries: seq<Entry>, tool: Tool): seq<seq<string>> {
    if entries == [] then []
    else
      var last := entries[|entries| - 1];
      Results(entries[..|entries| - 1], tool)
      + if last.call.tool == tool && last.outcome.Returned? then [last.outcome.items] else []
  }

  function Concat(parts: seq<seq<string>>): seq<string> {
    if parts == [] then [] else Concat(parts[..|parts| - 1]) + parts[|parts| - 1]
  }

  function SearchCount(entries: seq<Entry>): nat {
    if entries == [] then 0
    else SearchCount(entries[..|entries| - 1]) + if entries[|entries| - 1].call.tool == CompareVersions then 0 else 1
  }

  /** An action names the node and the tool, the whole milliseconds a call took and either its error or
      the number of its results, a comparison being one. */
  ghost predicate Records(action: ToolAction, e: Entry) {
    && action.node == e.node && action.tool == e.call.tool
    && (if e.elapsed <= 0 then action.duration == 0
        else 1000 * action.duration <= e.elapsed < 1000 * action.duration + 1000)
    && match e.outcome
       case Returned(items) =>
         action.error == None && action.resultCount == if e.call.tool == CompareVersions then 1 else |items|
       case ToolError(code) => action.error == Some(code) && action.resultCount == 0
       case Raised => false
  }

  /** One action for each call made. */
  ghost predicate Recorded(actions: seq<ToolAction>, entries: seq<Entry>) {
    |actions| == |entries| && forall i :: 0 <= i < |entries| ==> Records(actions[i], entries[i])
  }

  /** Counters, results and actions are those of the calls made. */
  ghost predicate Consistent(w: Work, entries: seq<Entry>) {
    && w.toolCalls == |entries| && w.retrievals == SearchCount(entries)
    && w.evidence == Concat(Results(entries, Retrieve))
    && w.incidents == Concat(Results(entries, SearchIncidents))
    && w.comparisons == Results(entries, CompareVersions)
    && Recorded(w.actions, entries)
  }

  /** The same of a terminal state, but for the result of a last call that came too late. */
  ghost predicate Kept(w: Work, entries: seq<Entry>) {
    || Consistent(w, entries)
    || (entries != [] && entries[|entries| - 1].outcome.Returned?
        && Consistent(WithResult(w, entries[|entries| - 1].call.tool, entries[|entries| - 1].outcome.items), entries))
  }

  /** Every planned call was made, once and in plan order, and succeeded. */
  ghost predicate PlanCarriedOut(s: State, entries: seq<Entry>) {
    s.plan.Some? && Calls(entries) == PlannedCalls(s.plan.value) && AllReturned(entries)
  }

  ghost predicate WithinCallBudget(budget: Budget, entries: seq<Entry>) {
    |entries| <= budget.maxToolCalls && SearchCount(entries) <= budget.maxRetrievals
  }

  ghost predicate InProgress(s: State, h: History) {
    && s.tokens < s.budget.maxTokens
    && Consistent(s.work, h.entries)
    && match s.node
       case Planning => h.entries == [] && s.pending == None
       case Retrieving => s.plan.Some? && h.entries == [] && s.pending == None
       case Comparing =>
         s.plan.Some? && Calls(h.entries) == RetrieveCalls(s.plan.value) && AllReturned(h.entries) && s.pending == None
       case Verifying =>
         (s.pending == None && PlanCarriedOut(s, h.entries)) || s.pending == Some(ToolFailure)
       case Reporting =>
         && s.pending.Some?
         && (s.pending == Some(Success) ==> h.verdict == Some(true) && PlanCarriedOut(s, h.entries))
       case Done => false
  }

  /** The invariant of every saved state. */
  ghost predicate Sound(s: State, h: History) {
    && s.budget.Valid() && s.Constructible()
    && s.steps <= s.budget.maxSteps
    && WithinCallBudget(s.budget, h.entries)
    && s.work.toolCalls <= s.budget.maxToolCalls && s.work.retrievals <= s.budget.maxRetrievals
    && (!s.Terminal() ==> InProgress(s, h))
    && (s.status == Completed <==> s.stop == Some(Success))
    && (s.status == Completed ==>
          h.verdict == Some(true) && PlanCarriedOut(s, h.entries) && Consistent(s.work, h.entries))
    && (s.status in {Partial, Cancelled} ==> Kept(s.work, h.entries))
  }

  // ----- the invariant is kept

  lemma ResultsAppend(entries: seq<Entry>, e: Entry, tool: Tool)
    ensures SearchCount(entries + [e]) == SearchCount(entries) + if e.call.tool == CompareVersions then 0 else 1
    ensures e.call.tool == tool && e.outcome.Returned? ==>
      Results(entries + [e], tool) == Results(entries, tool) + [e.outcome.items]
      && Concat(Results(entries + [e], tool)) == Concat(Results(entries, tool)) + e.outcome.items
    ensures e.call.tool != tool || !e.outcome.Returned? ==> Results(entries + [e], tool) == Results(entries, tool)
  {
  }

  lemma RecordedAppend(actions: seq<ToolAction>, entries: seq<Entry>, action: ToolAction, e: Entry)
    requires Recorded(actions, entries) && Records(action, e)
    ensures Recorded(actions + [action], entries + [e])
  {
  }

  /** Counting a call, recording its action and using its result keep the work consistent. */
  lemma ConsistentAfterCall(w: Work, entries: seq<Entry>, e: Entry, action: ToolAction)
    requires Consistent(w, entries) && Records(action, e)
    ensures var acted := WithAction(w, action);
            Consistent(if e.outcome.Returned? then WithResult(acted, e.call.tool, e.outcome.items) else acted,
              entries + [e])
  {
    ResultsAppend(entries, e, Retrieve);
    ResultsAppend(entries, e, SearchIncidents);
    ResultsAppend(entries, e, CompareVersions);
    RecordedAppend(w.actions, entries, action, e);
  }

  /** `t` differs from `s` at most in what tool calls change. */
  ghost predicate SameButCalls(s: State, t: State) {
    t == s.(work := t.work)
  }

  /** What a loop of calls makes of a state: the calls made so far stay within budget, and
      it goes on only after all of them succeeded. */
  ghost predicate CallsSound(s: State, entries: seq<Entry>, p: Progress) {
    && WithinCallBudget(s.budget, entries)
    && match p
       case Continue(t) => SameButCalls(s, t) && Consistent(t.work, entries)
       case Exploded => true
       case Return(t) =>
         || (t.Terminal() && t.Constructible() && t.stop != Some(Success) && t.status == Partial
             && t.work.toolCalls <= s.budget.maxToolCalls && t.work.retrievals <= s.budget.maxRetrievals
             && t.budget == s.budget && t.steps == s.steps && t.id == s.id && Kept(t.work, entries))
         || (SameButCalls(s.(node := Verifying, pending := Some(ToolFailure)), t) && Consistent(t.work, entries))
  }

  /** One call and its result are sound. */
  ghost predicate CallSound(s: State, entries: seq<Entry>, call: Call, reply: ToolReply, finishedAt: int) {
    var p := CallTool(s, call.tool, reply, finishedAt);
    && CallsSound(s, if CallAllowed(s, call.tool) then entries + [Made(s.node, call, reply)] else entries, p)
    && (p.Continue? ==> CallAllowed(s, call.tool) && reply.outcome.Returned?)
  }

  /** The work after a call that returned, with and without its result. */
  lemma WorkAfterReturn(s: State, entries: seq<Entry>, call: Call, reply: ToolReply)
    requires Consistent(s.work, entries) && WithinCallBudget(s.budget, entries)
    requires reply.outcome.Returned? && CallAllowed(s, call.tool)
    ensures var (e, items) := (Made(s.node, call, reply), reply.outcome.items);
      var duration := Duration(reply.startedAt, reply.endedAt);
      var acted := WithAction(s.work, ToolAction(s.node, call.tool, duration, ResultCount(call.tool, items), None));
      && Kept(acted, entries + [e]) && Consistent(WithResult(acted, call.tool, items), entries + [e])
      && WithinCallBudget(s.budget, entries + [e])
      && acted.toolCalls <= s.budget.maxToolCalls && acted.retrievals <= s.budget.maxRetrievals
  {
    var e, items := Made(s.node, call, reply), reply.outcome.items;
    var action := ToolAction(s.node, call.tool, Duration(reply.startedAt, reply.endedAt), ResultCount(call.tool, items),
      None);
    ResultsAppend(entries, e, call.tool);
    assert Records(action, e);
    ConsistentAfterCall(s.work, entries, e, action);
    hide Records, Recorded, Results, Duration, ResultCount;
  }

  lemma CallReturnedSound(s: State, entries: seq<Entry>, call: Call, reply: ToolReply, finishedAt: int)
    requires !s.Terminal() && Consistent(s.work, entries) && WithinCallBudget(s.budget, entries)
    requires reply.outcome.Returned? && CallAllowed(s, call.tool)
    ensures CallSound(s, entries, call, reply, finishedAt)
  {
    hide Consistent, Kept, WithinCallBudget, WithAction, WithResult, Duration, ResultCount, DefaultSummary;
    WorkAfterReturn(s, entries, call, reply);
  }

  lemma CallFailedSound(s: State, entries: seq<Entry>, call: Call, reply: ToolReply, finishedAt: int)
    requires !s.Terminal() && Consistent(s.work, entries) && WithinCallBudget(s.budget, entries)
    requires !reply.outcome.Returned? && CallAllowed(s, call.tool)
    ensures CallSound(s, entries, call, reply, finishedAt)
  {
    var e := Made(s.node, call, reply);
    ResultsAppend(entries, e, call.tool);
    if reply.outcome.ToolError? {
      var duration := Duration(reply.startedAt, reply.endedAt);
      ConsistentAfterCall(s.work, entries, e, ToolAction(s.node, call.tool, duration, 0, Some(reply.outcome.code)));
    }
    hide Records, Recorded, Results, Duration, ResultCount, DefaultSummary;
  }

  lemma CallToolSound(s: State, entries: seq<Entry>, call: Call, reply: ToolReply, finishedAt: int)
    requires !s.Terminal() && Consistent(s.work, entries) && WithinCallBudget(s.budget, entries)
    ensures CallsSound(s, if CallAllowed(s, call.tool) then entries + [Made(s.node, call, reply)] else entries,
                       CallTool(s, call.tool, reply, finishedAt))
    ensures CallTool(s, call.tool, reply, finishedAt).Continue? ==> CallAllowed(s, call.tool) && reply.outcome.Returned?
  {
    if CallAllowed(s, call.tool) {
      hide CallTool, CallsSound, Consistent, WithinCallBudget;
      if reply.outcome.Returned? {
        CallReturnedSound(s, entries, call, reply, finishedAt);
      } else {
        CallFailedSound(s, entries, call, reply, finishedAt);
      }
    } else {
      hide Recorded, Results, DefaultSummary;
    }
  }

  lemma {:induction false} CallAllSound(s: State, before: seq<Entry>, calls: seq<Call>, env: Env, offset: nat)
    requires !s.Terminal() && Consistent(s.work, before) && WithinCallBudget(s.budget, before)
    ensures var loop := CallAll(s, calls, env, offset);
      && CallsSound(s, before + loop.entries, loop.progress)
      && (loop.progress.Continue? ==> Calls(loop.entries) == calls && AllReturned(loop.entries))
    decreases |calls|
  {
    hide CallTool, Consistent, WithinCallBudget;
    if calls == [] {
      assert before + [] == before;
    } else {
      var reply := env.Reply(offset);
      CallToolSound(s, before, calls[0], reply, env.finishedAt);
      var progress := CallTool(s, calls[0].tool, reply, env.finishedAt);
      if progress.Continue? {
        var made := [Made(s.node, calls[0], reply)];
        CallAllSound(progress.state, before + made, calls[1..], env, offset + 1);
        var rest := CallAll(progress.state, calls[1..], env, offset + 1);
        assert before + made + rest.entries == before + (made + rest.entries);
      } else {
        assert before + [] == before;
      }
    }
  }

  lemma StartSound(id: string, budget: Budget, now: int)
    requires budget.Valid()
    ensures Sound(Start(id, budget, now), BLANK)
  {
  }

  /** The five nodes in order; every advance goes strictly forward. */
  function Rank(node: Node): nat {
    match node
    case Planning => 5 case Retrieving => 4 case Comparing => 3 case Verifying => 2 case Reporting => 1 case Done => 0
  }

  /** The state a node leaves, given the calls it made and the verdict it obtained. */
  ghost predicate Forward(s: State, h: History, p: Progress, entries: seq<Entry>, verdict: Option<bool>) {
    && WithinCallBudget(s.budget, h.entries + entries)
    && match p
       case Continue(_) => false
       case Exploded => true
       case Return(t) =>
         && Sound(t, h.After(Step(t, entries, verdict, NOTHING)))
         && Rank(t.node) < Rank(s.node) && t.id == s.id
  }

  /** Leaving a loop of calls early is sound: for verification after a failed call, or for good. */
  lemma LeaveCalls(s: State, h: History, t: State, entries: seq<Entry>)
    requires Sound(s, h) && s.node in {Retrieving, Comparing} && s.steps < s.budget.maxSteps
    requires CallsSound(s.(steps := s.steps + 1), h.entries + entries, Return(t))
    ensures Forward(s, h, Return(t), entries, None)
  {
  }

  /** A call node arrives at the next node after making all its calls with success, or has
      already left for verification or for good. */
  lemma CallNodeForward(s: State, h: History, calls: seq<Call>, next: Node, env: Env)
    requires Sound(s, h) && s.node in {Retrieving, Comparing} && BudgetReason(s, env.checkedAt, true) == None
    ensures var loop := CallNode(s, calls, next, env);
      && WithinCallBudget(s.budget, h.entries + loop.entries)
      && match loop.progress
         case Continue(_) => false
         case Exploded => true
         case Return(t) =>
           || (t == s.(steps := s.steps + 1, node := next, work := t.work)
               && Consistent(t.work, h.entries + loop.entries)
               && Calls(loop.entries) == calls && AllReturned(loop.entries))
           || Forward(s, h, loop.progress, loop.entries, None)
  {
    var stepped := s.(steps := s.steps + 1);
    CallAllSound(stepped, h.entries, calls, env, 0);
    var loop := CallAll(stepped, calls, env, 0);
    if loop.progress.Return? {
      LeaveCalls(s, h, loop.progress.state, loop.entries);
    }
  }

  lemma ArrivedToCompare(s: State, h: History, t: State, entries: seq<Entry>)
    requires Sound(s, h) && s.node == Retrieving && s.steps < s.budget.maxSteps
    requires t == s.(steps := s.steps + 1, node := Comparing, work := t.work)
    requires WithinCallBudget(s.budget, entries) && Consistent(t.work, entries)
    requires Calls(entries) == RetrieveCalls(s.plan.value) && AllReturned(entries)
    ensures Forward(s, h, Return(t), entries, None)
  {
    hide Recorded, Results, Concat, RetrieveCalls, Calls, SearchCount;
    assert h.entries + entries == entries;
  }

  lemma RetrieveForward(s: State, h: History, env: Env)
    requires Sound(s, h) && s.node == Retrieving && BudgetReason(s, env.checkedAt, true) == None
    ensures Forward(s, h, RetrieveNode(s, env).progress, RetrieveNode(s, env).entries, None)
  {
    var made := RetrieveNode(s, env).entries;
    assert h.entries == [] && s.plan.Some? && h.entries + made == made;
    CallNodeForward(s, h, RetrieveCalls(s.plan.value), Comparing, env);
    hide CallNode, Sound, Consistent, Calls, AllReturned;
    var p := RetrieveNode(s, env).progress;
    if p.Return? && !Forward(s, h, p, made, None) {
      ArrivedToCompare(s, h, p.state, made);
    }
  }

  lemma CompareForward(s: State, h: History, env: Env)
    requires Sound(s, h) && s.node == Comparing && BudgetReason(s, env.checkedAt, true) == None
    ensures Forward(s, h, CompareNode(s, env).progress, CompareNode(s, env).entries, None)
  {
    var made := CompareNode(s, env).entries;
    CallNodeForward(s, h, CompareCalls(s.plan.value), Verifying, env);
    assert Calls(h.entries + made) == Calls(h.entries) + Calls(made);
  }

  lemma VerifyForward(s: State, h: History, env: Env)
    requires Sound(s, h) && s.node == Verifying && BudgetReason(s, env.checkedAt, true) == None
    ensures Forward(s, h, VerifyNode(s, env), [], if env.verify.Judged? then Some(env.verify.sufficient) else None)
  {
    assert h.entries + [] == h.entries;
  }

  lemma ReportForward(s: State, h: History, env: Env)
    requires Sound(s, h) && s.node == Reporting && BudgetReason(s, env.checkedAt, true) == None
    ensures Forward(s, h, ReportNode(s, env), [], None)
  {
    assert h.entries + [] == h.entries;
  }

  lemma PlanForward(s: State, h: History, env: Env)
    requires Sound(s, h) && s.node == Planning && BudgetReason(s, env.checkedAt, true) == None
    ensures Forward(s, h, PlanNode(s, env), [], None)
  {
  }

  lemma NodeForward(s: State, h: History, env: Env)
    requires Sound(s, h) && !s.Terminal() && BudgetReason(s, env.checkedAt, true) == None
    ensures Forward(s, h, RunNode(s, env).progress, RunNode(s, env).entries,
                    if s.node == Verifying && env.verify.Judged? then Some(env.verify.sufficient) else None)
  {
    match s.node
    case Planning => PlanForward(s, h, env);
    case Retrieving => RetrieveForward(s, h, env);
    case Comparing => CompareForward(s, h, env);
    case Verifying => VerifyForward(s, h, env);
    case Reporting => ReportForward(s, h, env);
    case Done =>
  }

  lemma StoppedSound(s: State, h: History, reason: StopReason, now: int, entries: seq<Entry>, verdict: Option<bool>)
    requires Sound(s, h) && !s.Terminal() && reason != Success && WithinCallBudget(s.budget, h.entries + entries)
    requires entries == [] || reason == WorkflowFailure
    ensures Sound(Stopped(s, reason, now), h.After(Step(Stopped(s, reason, now), entries, verdict, NOTHING)))
  {
    assert h.entries + [] == h.entries;
    hide Consistent, PlanCarriedOut;
  }

  lemma BegunSound(s: State, h: History, env: Env)
    requires Sound(s, h) && !s.Terminal()
    ensures Sound(Begun(s, env), h) && !Begun(s, env).Terminal()
  {
  }

  /** Every advance keeps the invariant, moves to a later node and raises the revision by one. */
  lemma AdvanceSound(s: State, h: History, env: Env)
    requires Sound(s, h) && !s.Terminal()
    ensures Sound(Advance(s, env).next, h.After(Advance(s, env)))
    ensures Rank(Advance(s, env).next.node) < Rank(s.node)
    ensures Advance(s, env).next.revision == s.revision + 1 && Advance(s, env).next.id == s.id
  {
    hide Consistent, Kept, WithinCallBudget, RunNode, DefaultSummary, Calls, Recorded, AllReturned;
    var begun, step := Begun(s, env), Advance(s, env);
    BegunSound(s, h, env);
    var reason := BudgetReason(begun, env.checkedAt, true);
    if reason.Some? {
      assert h.entries + [] == h.entries;
      StoppedSound(begun, h, reason.value, env.finishedAt, [], None);
    } else {
      NodeForward(begun, h, env);
      if RunNode(begun, env).progress.Exploded? {
        StoppedSound(begun, h, WorkflowFailure, env.finishedAt, step.entries, step.verdict);
      }
    }
  }

  lemma CancelSound(s: State, h: History, finishedAt: int, updatedAt: int)
    requires Sound(s, h) && !s.Terminal()
    ensures Sound(CancelStep(s, finishedAt, updatedAt).next, h.After(CancelStep(s, finishedAt, updatedAt)))
    ensures CancelStep(s, finishedAt, updatedAt).next.Terminal()
  {
    assert h.entries + [] == h.entries;
  }

  lemma {:induction false} CallAllKeepsIdentity(s: State, calls: seq<Call>, env: Env, offset: nat)
    ensures var p := CallAll(s, calls, env, offset).progress;
      p.Exploded? || (p.state.id == s.id && p.state.budget == s.budget)
    decreases |calls|
  {
    if calls != [] {
      var progress := CallTool(s, calls[0].tool, env.Reply(offset), env.finishedAt);
      if progress.Continue? {
        CallAllKeepsIdentity(progress.state, calls[1..], env, offset + 1);
      }
    }
  }

  lemma NodeKeepsIdentity(s: State, env: Env)
    ensures var p := RunNode(s, env).progress; p.Exploded? || (p.state.id == s.id && p.state.budget == s.budget)
  {
    if s.plan.Some? {
      var calls := if s.node == Retrieving then RetrieveCalls(s.plan.value) else CompareCalls(s.plan.value);
      CallAllKeepsIdentity(s.(steps := s.steps + 1), calls, env, 0);
    }
  }

  lemma AdvanceKeepsIdentity(s: State, env: Env)
    ensures var next := Advance(s, env).next;
      next.id == s.id && next.budget == s.budget && next.revision == s.revision + 1
  {
    NodeKeepsIdentity(Begun(s, env), env);
  }

  /** Calls of a loop stop at the tool budget. */
  lemma {:induction false} CallAllBounded(s: State, calls: seq<Call>, env: Env, offset: nat)
    ensures var made := |CallAll(s, calls, env, offset).entries|;
      made <= if s.work.toolCalls < s.budget.maxToolCalls then s.budget.maxToolCalls - s.work.toolCalls else 0
    decreases |calls|
  {
    if calls != [] {
      var progress := CallTool(s, calls[0].tool, env.Reply(offset), env.finishedAt);
      if progress.Continue? {
        CallAllBounded(progress.state, calls[1..], env, offset + 1);
      }
    }
  }

  /** One advance makes at most the calls that the state it read has left. */
  lemma AdvanceBounded(s: State, env: Env)
    ensures var made := |Advance(s, env).entries|;
      made <= if s.work.toolCalls < s.budget.maxToolCalls then s.budget.maxToolCalls - s.work.toolCalls else 0
  {
    var begun := Begun(s, env);
    if begun.plan.Some? {
      var calls := if s.node == Retrieving then RetrieveCalls(s.plan.value) else CompareCalls(s.plan.value);
      CallAllBounded(begun.(steps := begun.steps + 1), calls, env, 0);
    }
  }

  // ----- a run that nothing stands in the way of

  ghost predicate Timely(s: State, now: int) {
    s.startedAt.Some? && now - s.startedAt.value < s.budget.maxDuration
  }

  /** Calls that all return in time and within budget all continue. */
  lemma {:induction false} CallAllContinues(s: State, calls: seq<Call>, env: Env, offset: nat)
    requires s.tokens < s.budget.maxTokens
    requires s.work.toolCalls + |calls| <= s.budget.maxToolCalls
    requires (exists c :: c in calls && c.tool != CompareVersions) ==>
        s.work.retrievals + |calls| <= s.budget.maxRetrievals
    requires forall i :: offset <= i < offset + |calls| ==>
        env.Reply(i).outcome.Returned? && Timely(s, env.Reply(i).checkedAt)
    ensures var p := CallAll(s, calls, env, offset).progress;
      && p.Continue? && SameButCalls(s, p.state)
      && p.state.work.toolCalls == s.work.toolCalls + |calls|
    decreases |calls|
  {
    if calls != [] {
      var progress := CallTool(s, calls[0].tool, env.Reply(offset), env.finishedAt);
      assert Timely(s, env.Reply(offset).checkedAt);
      assert calls[0] in calls;
      assert progress.Continue?;
      CallAllContinues(progress.state, calls[1..], env, offset + 1);
    }
  }
}
