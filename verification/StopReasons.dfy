/** Why an investigation stops, and what a saved state records of it
    (src/modules/investigation/workflow.py). */
module StopReasons {
  import opened Wrappers
  import opened Investigation

  // ----- what a saved state records

  /** What must have happened for an investigation to stop for a reason, if anything in particular. */
  ghost predicate Fits(reason: StopReason, s: State, h: History) {
    match reason
    case Success => h.verdict == Some(true) && AllReturned(h.entries)
    case InsufficientEvidence => h.verdict == Some(false) && AllReturned(h.entries)
    case ToolFailure => !AllReturned(h.entries)
    case TokenBudget => s.tokens >= s.budget.maxTokens
    case MaxSteps => s.steps >= s.budget.maxSteps
    case _ => true
  }

  /** The reporter's summary, or the standard one for want of it. */
  function Shown(summary: Option<string>, reason: StopReason): string {
    if summary.Some? && summary.value != "" then summary.value else DefaultSummary(reason)
  }

  /** Steps, tokens and cost are those of the nodes that ran; plan and open questions are those reported. */
  ghost predicate Recalled(s: State, log: Log) {
    && s.steps == log.steps && s.tokens == log.tokens && s.cost == log.cost && s.plan == log.plan
    && s.unresolved == if log.unresolved.Some? then log.unresolved.value else []
  }

  /** Also the summary is the reported one, and status, times and reason agree. */
  ghost predicate Logged(s: State, h: History) {
    && Recalled(s, h.log)
    && (s.status == Queued ==> s.startedAt == None) && (s.status == Running ==> s.startedAt.Some?)
    && (s.Terminal() <==> s.finishedAt.Some?)
    && if s.stop.Some? then
         && (s.status == Completed <==> s.stop.value == Success)
         && (s.status == Cancelled <==> s.stop.value == CancelRequested)
         && (s.status == Failed <==> s.stop.value == WorkflowFailure)
         && s.summary == Some(Shown(h.log.summary, s.stop.value)) && Fits(s.stop.value, s, h)
       else
         && s.summary == None == h.log.summary
         && s.pending in {None, Some(Success), Some(InsufficientEvidence), Some(ToolFailure)}
         && if s.pending.Some? then Fits(s.pending.value, s, h) else AllReturned(h.entries)
  }

  lemma StartLogged(id: string, budget: Budget, now: int)
    ensures Logged(Start(id, budget, now), BLANK)
  {
  }

  // ----- how a loop of calls ends

  /** The duration budget is used up. */
  predicate Late(s: State, now: int) {
    s.startedAt.Some? && now - s.startedAt.value >= s.budget.maxDuration
  }

  /** The i-th call of the advance returns in time. */
  predicate InTime(s: State, env: Env, i: nat) {
    env.Reply(i).outcome.Returned? && !Late(s, env.Reply(i).checkedAt)
  }

  /** After `k` calls in time the budget does not allow the next call. */
  ghost predicate Spent(s: State, made: seq<Entry>, next: Call, reason: StopReason) {
    if s.work.toolCalls + |made| >= s.budget.maxToolCalls then reason == ToolBudget
    else
      && reason == RetrievalBudget && next.tool != CompareVersions
      && s.work.retrievals + SearchCount(made) >= s.budget.maxRetrievals
  }

  /** How the calls of a node end when the last one made was in time, or none was made. */
  ghost predicate EndsInTime(s: State, calls: seq<Call>, made: seq<Entry>, p: Progress, finishedAt: int)
    requires |made| <= |calls|
  {
    if |made| == |calls| then p.Continue? && SameButCalls(s, p.state)
    else
      && p.Return? && p.state.stop.Some? && Spent(s, made, calls[|made|], p.state.stop.value)
      && p.state == Stopped(s.(work := p.state.work), p.state.stop.value, finishedAt)
  }

  /** How they end when the last one made was not. */
  ghost predicate EndsBadly(s: State, reply: ToolReply, p: Progress, finishedAt: int) {
    match reply.outcome
    case Raised => p.Exploded?
    case ToolError(_) => p.Return?
      && p.state == s.(node := Verifying, pending := Some(ToolFailure), work := p.state.work)
    case Returned(_) => p.Return? && p.state == Stopped(s.(work := p.state.work), Timeout, finishedAt)
  }

  /** The calls are made in order, the replies from the `offset`-th on; every one before the last was
      in time, and they stop only at a reply that was not, at the budget, or when all are made. */
  ghost predicate LoopEnds(s: State, calls: seq<Call>, env: Env, offset: nat, loop: Loop) {
    var made := loop.entries;
    && |made| <= |calls|
    && (forall i :: 0 <= i < |made| ==> made[i] == Made(s.node, calls[i], env.Reply(offset + i)))
    && (forall i :: offset <= i < offset + |made| - 1 ==> InTime(s, env, i))
    && if made == [] || InTime(s, env, offset + |made| - 1)
       then EndsInTime(s, calls, made, loop.progress, env.finishedAt)
       else EndsBadly(s, env.Reply(offset + |made| - 1), loop.progress, env.finishedAt)
  }

  lemma OneCallEnds(s: State, calls: seq<Call>, env: Env, offset: nat)
    requires s.tokens < s.budget.maxTokens && calls != []
    requires !CallTool(s, calls[0].tool, env.Reply(offset), env.finishedAt).Continue?
    ensures LoopEnds(s, calls, env, offset, CallAll(s, calls, env, offset))
  {
    var reply := env.Reply(offset);
    CallLeaves(s, calls[0], reply, env.finishedAt);
    assert SearchCount([]) == 0;
    hide CallTool, CallAllowed, EndsBadly, Stopped;
  }

  /** What a call leaves that ends the node. */
  lemma CallLeaves(s: State, call: Call, reply: ToolReply, finishedAt: int)
    requires s.tokens < s.budget.maxTokens && !CallTool(s, call.tool, reply, finishedAt).Continue?
    ensures var p := CallTool(s, call.tool, reply, finishedAt);
      if CallAllowed(s, call.tool) then
        !(reply.outcome.Returned? && !Late(s, reply.checkedAt)) && EndsBadly(s, reply, p, finishedAt)
      else
        && p.Return? && p.state.stop.Some? && Spent(s, [], call, p.state.stop.value)
        && p.state == Stopped(s.(work := p.state.work), p.state.stop.value, finishedAt)
  {
    assert SearchCount([]) == 0;
    hide Duration, ResultCount, DefaultSummary;
  }

  lemma SearchCountFirst(e: Entry, rest: seq<Entry>)
    ensures SearchCount([e] + rest) == SearchCount(rest) + if e.call.tool == CompareVersions then 0 else 1
    decreases |rest|
  {
    if rest == [] {
      assert [e] + rest == [e] && [e][..0] == [];
    } else {
      SearchCountFirst(e, rest[..|rest| - 1]);
      assert ([e] + rest)[..|rest|] == [e] + rest[..|rest| - 1];
    }
  }

  /** What a call in time leaves. */
  lemma CallInTime(s: State, call: Call, reply: ToolReply, finishedAt: int)
    requires CallTool(s, call.tool, reply, finishedAt).Continue? && s.tokens < s.budget.maxTokens
    ensures var t := CallTool(s, call.tool, reply, finishedAt).state;
      && SameButCalls(s, t) && CallAllowed(s, call.tool)
      && reply.outcome.Returned? && !Late(s, reply.checkedAt)
      && t.work.toolCalls == s.work.toolCalls + 1
      && t.work.retrievals == s.work.retrievals + if call.tool == CompareVersions then 0 else 1
  {
  }

  lemma {:induction false} CallAllEnds(s: State, calls: seq<Call>, env: Env, offset: nat)
    requires s.tokens < s.budget.maxTokens
    ensures LoopEnds(s, calls, env, offset, CallAll(s, calls, env, offset))
    decreases |calls|
  {
    if calls != [] {
      var reply := env.Reply(offset);
      var progress := CallTool(s, calls[0].tool, reply, env.finishedAt);
      if progress.Continue? {
        CallInTime(s, calls[0], reply, env.finishedAt);
        CallAllEnds(progress.state, calls[1..], env, offset + 1);
        hide CallTool;
        MoreEnds(s, progress.state, calls, env, offset, CallAll(progress.state, calls[1..], env, offset + 1));
      } else {
        OneCallEnds(s, calls, env, offset);
      }
    }
  }

  lemma MoreEnds(s: State, t: State, calls: seq<Call>, env: Env, offset: nat, rest: Loop)
    requires calls != [] && SameButCalls(s, t) && InTime(s, env, offset)
    requires t.work.toolCalls == s.work.toolCalls + 1
    requires t.work.retrievals == s.work.retrievals + if calls[0].tool == CompareVersions then 0 else 1
    requires LoopEnds(t, calls[1..], env, offset + 1, rest)
    ensures LoopEnds(s, calls, env, offset,
        Loop(rest.progress, [Made(s.node, calls[0], env.Reply(offset))] + rest.entries))
  {
    var first := Made(s.node, calls[0], env.Reply(offset));
    var made := [first] + rest.entries;
    forall i | offset <= i < offset + |made| - 1
      ensures InTime(s, env, i)
    {
      assert i > offset ==> InTime(t, env, i);
    }
    MadeInOrder(s.node, calls, env, offset, rest.entries);
    SearchCountFirst(first, rest.entries);
    if rest.entries != [] {
      var last := offset + |rest.entries|;
      assert InTime(t, env, last) <==> InTime(s, env, last);
    }
    hide SearchCount, InTime, Made, Stopped;
  }

  lemma MadeInOrder(node: Node, calls: seq<Call>, env: Env, offset: nat, rest: seq<Entry>)
    requires |rest| < |calls|
    requires forall i :: 0 <= i < |rest| ==> rest[i] == Made(node, calls[1..][i], env.Reply(offset + 1 + i))
    ensures var made := [Made(node, calls[0], env.Reply(offset))] + rest;
      forall i :: 0 <= i < |made| ==> made[i] == Made(node, calls[i], env.Reply(offset + i))
  {
  }

  // ----- how an advance ends

  /** A call node's calls and the node after them. */
  function CallsOfNode(s: State): (seq<Call>, Node) {
    if s.plan == None then ([], s.node)
    else if s.node == Retrieving then (RetrieveCalls(s.plan.value), Comparing)
    else (CompareCalls(s.plan.value), Verifying)
  }

  /** The advance stops before its node runs. */
  predicate AtOnce(s: State, env: Env) {
    s.steps >= s.budget.maxSteps || Late(Begun(s, env), env.checkedAt)
  }

  /** Then no call is made and nothing is used. */
  lemma AtOnceStops(s: State, h: History, env: Env)
    requires Sound(s, h) && !s.Terminal() && AtOnce(s, env)
    ensures var step := Advance(s, env);
      && step.entries == [] && step.log == NOTHING && step.verdict == None && step.next.work == s.work
      && step.next.status == Partial
      && step.next.stop == Some(if s.steps >= s.budget.maxSteps then MaxSteps else Timeout)
  {
  }

  /** How a node without calls goes on: an exception, a budget used up, or `onward`. */
  ghost predicate ReplyEnds(s: State, env: Env, next: State, onward: bool) {
    var used := Reports(s.node, env);
    if used == NOTHING then next.stop == Some(WorkflowFailure)
    else if s.tokens + used.tokens >= s.budget.maxTokens then next.stop == Some(TokenBudget)
    else if Late(Begun(s, env), env.recheckedAt) then next.stop == Some(Timeout)
    else onward
  }

  lemma PlanEnds(s: State, h: History, env: Env)
    requires Sound(s, h) && s.node == Planning && !AtOnce(s, env)
    ensures var next := Advance(s, env).next;
      ReplyEnds(s, env, next, next.node == Retrieving && next.stop == None && next.plan == Some(env.plan.plan))
  {
  }

  /** Of the verdict remains whether it is success, unless a call had failed. */
  lemma VerdictEnds(s: State, h: History, env: Env)
    requires Sound(s, h) && s.node == Verifying && !AtOnce(s, env)
    ensures var next := Advance(s, env).next;
      ReplyEnds(s, env, next,
        && next.node == Reporting && next.stop == None
        && next.pending == Some(if s.pending == Some(ToolFailure) then ToolFailure
                                else if env.verify.sufficient then Success else InsufficientEvidence))
  {
    hide Consistent, Kept, PlanCarriedOut;
  }

  lemma ReportEnds(s: State, h: History, env: Env)
    requires Sound(s, h) && s.node == Reporting && !AtOnce(s, env)
    ensures ReplyEnds(s, env, Advance(s, env).next, Advance(s, env).next.stop == s.pending)
  {
  }

  /** The state a call node leaves, according to how its calls ended: `s` is the state they started
      from, `next` the one that is left. */
  ghost predicate CallsEnd(s: State, calls: seq<Call>, onward: Node, env: Env, made: seq<Entry>, next: State) {
    && |made| <= |calls|
    && (forall i :: 0 <= i < |made| ==> made[i] == Made(s.node, calls[i], env.Reply(i)))
    && (forall i :: 0 <= i < |made| - 1 ==> InTime(s, env, i))
    && if made == [] || InTime(s, env, |made| - 1) then
         if |made| == |calls| then next.node == onward && next.stop == None && next.pending == s.pending
         else next.stop.Some? && Spent(s, made, calls[|made|], next.stop.value)
       else match env.Reply(|made| - 1).outcome
            case Raised => next.stop == Some(WorkflowFailure)
            case ToolError(_) => next.node == Verifying && next.pending == Some(ToolFailure) && next.stop == None
            case Returned(_) => next.stop == Some(Timeout)
  }

  lemma CallsEndSo(s: State, h: History, env: Env)
    requires Sound(s, h) && s.node in {Retrieving, Comparing} && !AtOnce(s, env)
    ensures var ((calls, onward), step) := (CallsOfNode(s), Advance(s, env));
      CallsEnd(Begun(s, env).(steps := s.steps + 1), calls, onward, env, step.entries, step.next)
  {
    var begun, step := Begun(s, env), Advance(s, env);
    var (calls, onward) := CallsOfNode(s);
    var stepped := begun.(steps := s.steps + 1);
    assert stepped.tokens < s.budget.maxTokens && stepped.stop == None;
    hide Sound, Advance, Begun, CallsOfNode;
    NodeCalls(s, h, env);
    CallAllEnds(stepped, calls, env, 0);
    hide CallAll, LoopEnds, CallsEnd, AfterCalls;
    EndIs(s, env, begun, CallAll(stepped, calls, env, 0).progress, onward, step.next);
    EndsAsLoop(stepped, calls, onward, env, CallAll(stepped, calls, env, 0), step.next);
  }

  lemma EndsAsLoop(s: State, calls: seq<Call>, onward: Node, env: Env, loop: Loop, next: State)
    requires LoopEnds(s, calls, env, 0, loop) && s.stop == None && EndLeaves(loop.progress, onward, next)
    ensures CallsEnd(s, calls, onward, env, loop.entries, next)
  {
    hide InTime, Spent, Made;
    var made := loop.entries;
    forall i | 0 <= i < |made|
      ensures made[i] == Made(s.node, calls[i], env.Reply(i))
    {
      assert made[i] == Made(s.node, calls[i], env.Reply(0 + i));
    }
  }

  ghost predicate EndLeaves(p: Progress, onward: Node, next: State) {
    match p
    case Continue(t) => next.node == onward && next.stop == t.stop && next.pending == t.pending
    case Return(t) => next.node == t.node && next.stop == t.stop && next.pending == t.pending
    case Exploded => next.stop == Some(WorkflowFailure)
  }

  /** What follows from how the calls of a node ended. */
  function AfterCalls(s: State, env: Env, begun: State, p: Progress, onward: Node): State {
    Persisted(s, match p
                 case Continue(t) => t.(node := onward)
                 case Return(t) => t
                 case Exploded => Stopped(begun, WorkflowFailure, env.finishedAt), env.updatedAt)
  }

  lemma EndIs(s: State, env: Env, begun: State, p: Progress, onward: Node, next: State)
    requires next == AfterCalls(s, env, begun, p, onward)
    ensures EndLeaves(p, onward, next)
  {
  }

  lemma RunsItsNode(s: State, h: History, env: Env)
    requires Sound(s, h) && !s.Terminal() && !AtOnce(s, env)
    ensures var begun := Begun(s, env);
      var ran := RunNode(begun, env);
      Advance(s, env) == Step(
        Persisted(s, if ran.progress.Exploded? then Stopped(begun, WorkflowFailure, env.finishedAt)
                     else ran.progress.state, env.updatedAt),
        ran.entries, if s.node == Verifying && env.verify.Judged? then Some(env.verify.sufficient) else None,
        if ran.progress.Exploded? then NOTHING else Reports(s.node, env))
  {
    hide RunNode, Stopped, Persisted, Consistent;
  }

  /** A call node is its calls and what follows from how they end. */
  lemma NodeCalls(s: State, h: History, env: Env)
    requires Sound(s, h) && s.node in {Retrieving, Comparing} && !AtOnce(s, env)
    ensures var (begun, (calls, onward)) := (Begun(s, env), CallsOfNode(s));
      var loop, step := CallAll(begun.(steps := s.steps + 1), calls, env, 0), Advance(s, env);
      && step.entries == loop.entries && step.next == AfterCalls(s, env, begun, loop.progress, onward)
      && step.log == (if loop.progress.Exploded? then NOTHING else NOTHING.(steps := 1))
      && step.verdict == None
  {
    assert s.plan.Some? && Begun(s, env) == s.(status := Begun(s, env).status, startedAt := Begun(s, env).startedAt);
    hide Sound, Advance, CallAll, Stopped, Persisted, CallNode, CallsOfNode, RunNode, AtOnce, Begun, AfterCalls;
    RunsItsNode(s, h, env);
    RunsCalls(Begun(s, env), env);
    CallsLeave(s, env, Begun(s, env), CallsOfNode(s).0, CallsOfNode(s).1);
    SameCalls(s, Begun(s, env));
  }

  lemma SameCalls(s: State, t: State)
    requires s.node == t.node && s.plan == t.plan
    ensures CallsOfNode(s) == CallsOfNode(t)
  {
  }

  lemma CallsLeave(s: State, env: Env, begun: State, calls: seq<Call>, onward: Node)
    ensures var ran := CallNode(begun, calls, onward, env);
      var loop := CallAll(begun.(steps := s.steps + 1), calls, env, 0);
      begun.steps == s.steps ==>
        && ran.entries == loop.entries && (ran.progress.Exploded? <==> loop.progress.Exploded?)
        && !ran.progress.Continue?
        && AfterCalls(s, env, begun, loop.progress, onward)
        == Persisted(s, if ran.progress.Exploded? then Stopped(begun, WorkflowFailure, env.finishedAt)
                        else ran.progress.state, env.updatedAt)
  {
    hide CallAll, Stopped, Persisted;
  }

  lemma RunsCalls(s: State, env: Env)
    requires s.node in {Retrieving, Comparing} && s.plan.Some?
    ensures RunNode(s, env) == CallNode(s, CallsOfNode(s).0, CallsOfNode(s).1, env)
  {
    hide CallNode, RetrieveCalls, CompareCalls;
  }

  // ----- every advance keeps the record

  /** Stopping for a reason that fits. */
  lemma StopLogged(s: State, h: History, reason: StopReason, at: int, entries: seq<Entry>, verdict: Option<bool>,
                   log: Log)
    requires s.stop == None && Recalled(s, h.log.After(log)) && s.startedAt.Some?
    requires s.summary == h.log.After(log).summary
    requires Fits(reason, s, h.After(Step(s, entries, verdict, log)))
    ensures var next := Stopped(s, reason, at); Logged(next, h.After(Step(next, entries, verdict, log)))
  {
    hide AllReturned, DefaultSummary;
  }

  lemma PersistedLogged(before: State, s: State, h: History, updatedAt: int)
    requires Logged(s, h)
    ensures Logged(Persisted(before, s, updatedAt), h)
  {
    hide AllReturned, DefaultSummary;
  }

  /** What a node leaves is logged. */
  ghost predicate NodeLogged(s: State, h: History, p: Progress, entries: seq<Entry>, verdict: Option<bool>,
                             log: Log)
  {
    match p
    case Exploded => true
    case Continue(_) => false
    case Return(t) => Logged(t, h.After(Step(t, entries, verdict, log)))
  }

  /** After a node the budgets are looked at once more. */
  lemma AfterNodeLogged(s: State, h: History, env: Env, verdict: Option<bool>, log: Log)
    requires Logged(s, h.After(Step(s, [], verdict, log))) && s.stop == None && s.startedAt.Some?
    ensures NodeLogged(s, h, AfterNode(s, env), [], verdict, log)
  {
    var reason := BudgetReason(s, env.recheckedAt, false);
    if reason.Some? {
      StopLogged(s, h, reason.value, env.finishedAt, [], verdict, log);
    }
    hide Stopped;
  }
  /** An investigation under way. */
  ghost predicate UnderWay(s: State, h: History) {
    s.status == Running && s.stop == None && Logged(s, h)
  }

  lemma PlanLogged(s: State, h: History, env: Env)
    requires UnderWay(s, h) && s.node == Planning && h.entries == []
    ensures NodeLogged(s, h, PlanNode(s, env), [], None, Reports(Planning, env))
  {
    if env.plan.Planned? {
      var next := s.(plan := Some(env.plan.plan), node := Retrieving, steps := s.steps + 1,
        tokens := s.tokens + env.plan.tokens, cost := s.cost + env.plan.cost);
      assert h.entries + [] == h.entries;
      AfterNodeLogged(next, h, env, None, Reports(Planning, env));
      hide AfterNode, Logged;
    }
  }

  lemma VerdictLogged(s: State, h: History, env: Env)
    requires UnderWay(s, h) && s.node == Verifying && s.pending in {None, Some(ToolFailure)}
    ensures NodeLogged(s, h, VerifyNode(s, env), [],
                       if env.verify.Judged? then Some(env.verify.sufficient) else None, Reports(Verifying, env))
  {
    assert s.startedAt.Some?;
    hide Logged, AfterNode, AllReturned;
    if env.verify.Judged? {
      var v := env.verify;
      var reason := if s.pending.Some? then s.pending.value else if v.sufficient then Success else InsufficientEvidence;
      var next := s.(node := Reporting, steps := s.steps + 1, tokens := s.tokens + v.tokens, cost := s.cost + v.cost,
        unresolved := v.unresolved, pending := Some(reason));
      assert VerifyNode(s, env) == AfterNode(next, env);
      VerdictFits(s, h, v, next);
      hide VerifyNode, NodeLogged;
      AfterNodeLogged(next, h, env, Some(v.sufficient), Reports(Verifying, env));
    }
  }

  lemma VerdictFits(s: State, h: History, v: VerifyReply, next: State)
    requires UnderWay(s, h) && s.pending in {None, Some(ToolFailure)} && v.Judged?
    requires var reason := if s.pending.Some? then s.pending.value
                           else if v.sufficient then Success else InsufficientEvidence;
      next == s.(node := Reporting, steps := s.steps + 1, tokens := s.tokens + v.tokens, cost := s.cost + v.cost,
        unresolved := v.unresolved, pending := Some(reason))
    ensures var log := Log(1, v.tokens, v.cost, None, Some(v.unresolved), None);
      Logged(next, h.After(Step(next, [], Some(v.sufficient), log)))
  {
    assert h.entries + [] == h.entries;
    hide AllReturned;
  }

  lemma ReportLogged(s: State, h: History, env: Env)
    requires UnderWay(s, h) && s.node == Reporting && s.pending.Some?
    ensures NodeLogged(s, h, ReportNode(s, env), [], None, Reports(Reporting, env))
  {
    if env.report.Reported? {
      var r := env.report;
      var next := s.(steps := s.steps + 1, tokens := s.tokens + r.tokens, cost := s.cost + r.cost,
        summary := Some(r.summary));
      var late := BudgetReason(next, env.recheckedAt, false);
      var reason := if late.Some? then late.value else s.pending.value;
      assert h.entries + [] == h.entries;
      StopLogged(next, h, reason, env.finishedAt, [], None, Reports(Reporting, env));
      hide Stopped, Logged;
    }
  }

  /** The calls of a node are recorded as made, all of them returned exactly if no failure is pending. */
  lemma CallsLogged(s: State, h: History, calls: seq<Call>, onward: Node, env: Env)
    requires UnderWay(s, h) && s.pending == None && s.tokens < s.budget.maxTokens
    ensures var stepped := s.(steps := s.steps + 1);
      var loop := CallAll(stepped, calls, env, 0);
      var p := if loop.progress.Continue? then Return(loop.progress.state.(node := onward)) else loop.progress;
      NodeLogged(s, h, p, loop.entries, None, NOTHING.(steps := 1))
  {
    var stepped := s.(steps := s.steps + 1);
    var loop := CallAll(stepped, calls, env, 0);
    CallAllEnds(stepped, calls, env, 0);
    var made, p := loop.entries, loop.progress;
    LoopReturns(stepped, calls, env, loop);
    hide CallAll;
    if p.Return? && p.state.stop.Some? {
      StopLogged(stepped.(work := p.state.work), h, p.state.stop.value, env.finishedAt, made, None,
        NOTHING.(steps := 1));
      hide Stopped, Logged, AllReturned;
    } else if !p.Exploded? {
      ReturnedSoFar(h.entries, made);
      hide LoopEnds, AllReturned;
      GoesOnLogged(s, h, made, onward, p.state.work);
    }
  }

  /** The investigation goes on to `onward`, or to verification after a failed call. */
  lemma GoesOnLogged(s: State, h: History, made: seq<Entry>, onward: Node, work: Work)
    requires UnderWay(s, h) && s.pending == None
    ensures var next := s.(steps := s.steps + 1, work := work);
      && (AllReturned(h.entries + made) ==>
            Logged(next.(node := onward), h.After(Step(next, made, None, NOTHING.(steps := 1)))))
      && (!AllReturned(h.entries + made) ==>
            Logged(next.(node := Verifying, pending := Some(ToolFailure)),
                   h.After(Step(next, made, None, NOTHING.(steps := 1)))))
  {
    hide AllReturned;
  }

  lemma ReturnedSoFar(before: seq<Entry>, made: seq<Entry>)
    requires AllReturned(before)
    ensures AllReturned(before + made) <==> AllReturned(made)
  {
    if AllReturned(before + made) {
      forall e | e in made
        ensures e.outcome.Returned?
      {
        assert e in before + made;
      }
    }
  }

  /** A loop that leaves no reason to stop has made calls that all returned, or left after one that
      failed. */
  lemma LoopReturns(s: State, calls: seq<Call>, env: Env, loop: Loop)
    requires LoopEnds(s, calls, env, 0, loop) && s.stop == None
    ensures match loop.progress
            case Continue(t) => AllReturned(loop.entries) && SameButCalls(s, t)
            case Exploded => true
            case Return(t) =>
              if t.stop.Some? then
                t.stop.value in {Timeout, ToolBudget, RetrievalBudget}
                && t == Stopped(s.(work := t.work), t.stop.value, env.finishedAt)
              else
                && !AllReturned(loop.entries)
                && t == s.(node := Verifying, pending := Some(ToolFailure), work := t.work)
  {
    var made := loop.entries;
    forall i | 0 <= i < |made|
      ensures made[i].outcome == env.Reply(i).outcome
      ensures i < |made| - 1 ==> made[i].outcome.Returned?
    {
      assert made[i] == Made(s.node, calls[i], env.Reply(0 + i));
      assert i < |made| - 1 ==> InTime(s, env, i);
    }
    if made != [] {
      assert made[|made| - 1] in made;
    }
  }
  lemma NodeIsLogged(s: State, h: History, env: Env)
    requires Sound(s, h) && UnderWay(s, h)
    ensures NodeLogged(s, h, RunNode(s, env).progress, RunNode(s, env).entries,
                       if s.node == Verifying && env.verify.Judged? then Some(env.verify.sufficient) else None,
                       Reports(s.node, env))
  {
    hide PlanNode, VerifyNode, ReportNode, CallAll, NodeLogged, Logged, Consistent, RetrieveCalls, CompareCalls;
    match s.node
    case Planning => PlanLogged(s, h, env);
    case Retrieving => CallsLogged(s, h, RetrieveCalls(s.plan.value), Comparing, env);
    case Comparing => CallsLogged(s, h, CompareCalls(s.plan.value), Verifying, env);
    case Verifying => VerdictLogged(s, h, env);
    case Reporting => ReportLogged(s, h, env);
    case Done =>
  }

  lemma BegunLogged(s: State, h: History, env: Env)
    requires Sound(s, h) && Logged(s, h) && !s.Terminal()
    ensures UnderWay(Begun(s, env), h)
  {
    hide AllReturned, DefaultSummary;
  }

  lemma StepLogged(s: State, h: History, step: Step, t: State, updatedAt: int)
    requires Logged(t, h.After(step)) && step.next == Persisted(s, t, updatedAt)
    ensures Logged(step.next, h.After(step))
  {
    PersistedLogged(s, t, h.After(step), updatedAt);
  }

  /** Every advance keeps the record. */
  lemma AdvanceLogged(s: State, h: History, env: Env)
    requires Sound(s, h) && Logged(s, h) && !s.Terminal()
    ensures Logged(Advance(s, env).next, h.After(Advance(s, env)))
  {
    if AtOnce(s, env) {
      AtOnceLogged(s, h, env);
    } else {
      var begun, step := Begun(s, env), Advance(s, env);
      BegunSound(s, h, env);
      BegunLogged(s, h, env);
      assert begun.node == s.node && begun.startedAt.Some? && begun.summary == h.log.summary && Recalled(begun, h.log);
      hide Logged, Recalled;
      RunsItsNode(s, h, env);
      NodeIsLogged(begun, h, env);
      hide Advance, RunNode, Begun, Sound, Stopped, Persisted, AtOnce, AllReturned, DefaultSummary;
      var ran := RunNode(begun, env).progress;
      if ran.Exploded? {
        assert h.log.After(NOTHING) == h.log;
        StopLogged(begun, h, WorkflowFailure, env.finishedAt, step.entries, step.verdict, NOTHING);
        StepLogged(s, h, step, Stopped(begun, WorkflowFailure, env.finishedAt), env.updatedAt);
      } else {
        StepLogged(s, h, step, ran.state, env.updatedAt);
      }
    }
  }

  lemma AtOnceLogged(s: State, h: History, env: Env)
    requires Sound(s, h) && Logged(s, h) && !s.Terminal() && AtOnce(s, env)
    ensures Logged(Advance(s, env).next, h.After(Advance(s, env)))
  {
    var begun, step := Begun(s, env), Advance(s, env);
    BegunLogged(s, h, env);
    AtOnceStops(s, h, env);
    var reason := if s.steps >= s.budget.maxSteps then MaxSteps else Timeout;
    StopLogged(begun, h, reason, env.finishedAt, [], None, NOTHING);
    StepLogged(s, h, step, Stopped(begun, reason, env.finishedAt), env.updatedAt);
  }

  lemma CancelLogged(s: State, h: History, finishedAt: int, updatedAt: int)
    requires Logged(s, h) && !s.Terminal() && s.stop == None
    ensures Logged(CancelStep(s, finishedAt, updatedAt).next, h.After(CancelStep(s, finishedAt, updatedAt)))
  {
    hide AllReturned, DefaultSummary;
  }

  // ----- times

  /** Nothing but the time of its end changes. */
  ghost predicate SameTimes(s: State, t: State, finishedAt: int) {
    && t.createdAt == s.createdAt && t.startedAt == s.startedAt
    && t.finishedAt == if t.stop.Some? then Some(finishedAt) else None
  }

  lemma NodeTimes(s: State, h: History, env: Env)
    requires Sound(s, h) && UnderWay(s, h)
    ensures var p := RunNode(s, env).progress;
      p.Exploded? || (!p.Continue? && SameTimes(s, p.state, env.finishedAt))
  {
    assert s.finishedAt == None && s.tokens < s.budget.maxTokens;
    assert s.node in {Retrieving, Comparing} ==> s.plan.Some?;
    hide Sound, Logged, SameTimes, CallNode;
    match s.node
    case Retrieving => CallNodeTimes(s, RetrieveCalls(s.plan.value), Comparing, env);
    case Comparing => CallNodeTimes(s, CompareCalls(s.plan.value), Verifying, env);
    case _ => ReplyTimes(s, env);
  }

  lemma CallNodeTimes(s: State, calls: seq<Call>, next: Node, env: Env)
    requires s.tokens < s.budget.maxTokens && s.stop == None && s.finishedAt == None
    ensures var p := CallNode(s, calls, next, env).progress;
      p.Exploded? || (!p.Continue? && SameTimes(s, p.state, env.finishedAt))
  {
    hide CallAll;
    LoopTimes(s.(steps := s.steps + 1), calls, env);
  }

  lemma ReplyTimes(s: State, env: Env)
    requires s.node !in {Retrieving, Comparing} && s.stop == None && s.finishedAt == None
    ensures var p := RunNode(s, env).progress;
      p.Exploded? || (!p.Continue? && SameTimes(s, p.state, env.finishedAt))
  {
  }

  lemma LoopTimes(s: State, calls: seq<Call>, env: Env)
    requires s.tokens < s.budget.maxTokens && s.stop == None && s.finishedAt == None
    ensures var p := CallAll(s, calls, env, 0).progress;
      p.Exploded? || SameTimes(s, p.state, env.finishedAt)
  {
    CallAllEnds(s, calls, env, 0);
    LoopReturns(s, calls, env, CallAll(s, calls, env, 0));
    hide LoopEnds, CallAll, AllReturned;
  }

  /** Advances leave the time of creation alone, set that of the start once and that of the end with the
      reason. */
  lemma AdvanceTimes(s: State, h: History, env: Env)
    requires Sound(s, h) && Logged(s, h) && !s.Terminal()
    ensures var next := Advance(s, env).next;
      && next.createdAt == s.createdAt && next.updatedAt == env.updatedAt
      && next.startedAt == (if s.status == Queued then Some(env.startedAt) else s.startedAt)
      && next.finishedAt == if next.Terminal() then Some(env.finishedAt) else None
  {
    AdvanceSound(s, h, env);
    BegunSound(s, h, env);
    BegunLogged(s, h, env);
    hide Consistent, Kept, Logged;
    if !AtOnce(s, env) {
      RunsItsNode(s, h, env);
      NodeTimes(Begun(s, env), h, env);
      hide Advance, RunNode;
    }
  }

  // ----- the reasons

  /** Some reading of the clock that the advance acts on is late. */
  ghost predicate LateReading(s: State, env: Env, step: Step) {
    var begun, n := Begun(s, env), |step.entries|;
    || Late(begun, env.checkedAt)
    || (s.node !in {Retrieving, Comparing} && Reports(s.node, env) != NOTHING
        && step.next.tokens < s.budget.maxTokens && Late(begun, env.recheckedAt))
    || (n > 0 && env.Reply(n - 1).outcome.Returned? && Late(begun, env.Reply(n - 1).checkedAt))
  }

  ghost predicate StopsSo(s: State, env: Env, step: Step) {
    && (step.next.stop == Some(MaxSteps) <==> s.steps >= s.budget.maxSteps)
    && (step.next.stop == Some(Timeout) <==> s.steps < s.budget.maxSteps && LateReading(s, env, step))
    && (step.next.stop == Some(TokenBudget) <==> step.next.tokens >= s.budget.maxTokens)
    && step.next.stop != Some(CancelRequested)
  }

  lemma RepliesStopSo(s: State, h: History, env: Env, step: Step)
    requires Sound(s, h) && Logged(s, h) && s.node in {Planning, Verifying, Reporting} && !AtOnce(s, env)
    requires step == Advance(s, env) && step.next.tokens == s.tokens + step.log.tokens
    ensures StopsSo(s, env, step)
  {
    assert s.tokens < s.budget.maxTokens && s.pending !in {Some(Timeout), Some(MaxSteps), Some(TokenBudget)};
    assert s.pending != Some(CancelRequested) && Begun(s, env).node == s.node;
    hide Advance, RunNode, Sound, Logged, Stopped, Persisted, Begun;
    RunsItsNode(s, h, env);
    RepliesCallNothing(Begun(s, env), env);
    match s.node
    case Planning => PlanEnds(s, h, env);
    case Verifying => VerdictEnds(s, h, env);
    case Reporting => ReportEnds(s, h, env);
  }

  lemma RepliesCallNothing(s: State, env: Env)
    requires s.node in {Planning, Verifying, Reporting}
    ensures RunNode(s, env).entries == [] && (RunNode(s, env).progress.Exploded? <==> Reports(s.node, env) == NOTHING)
  {
  }

  lemma CallsStopSo(s: State, h: History, env: Env, step: Step)
    requires Sound(s, h) && s.node in {Retrieving, Comparing} && !AtOnce(s, env)
    requires step == Advance(s, env) && step.next.tokens == s.tokens + step.log.tokens
    ensures StopsSo(s, env, step)
  {
    assert s.tokens < s.budget.maxTokens;
    CallsEndSo(s, h, env);
    NodeCalls(s, h, env);
    var stepped := Begun(s, env).(steps := s.steps + 1);
    var (calls, onward) := CallsOfNode(s);
    hide Advance, Sound, AfterCalls, CallsOfNode, CallAll, CallsEnd;
    CallsStopFor(stepped, calls, onward, env, step.entries, step.next);
  }

  lemma CallsStopFor(s: State, calls: seq<Call>, onward: Node, env: Env, made: seq<Entry>, next: State)
    requires CallsEnd(s, calls, onward, env, made, next)
    ensures next.stop == Some(Timeout) <==>
      made != [] && env.Reply(|made| - 1).outcome.Returned? && Late(s, env.Reply(|made| - 1).checkedAt)
    ensures next.stop !in {Some(MaxSteps), Some(TokenBudget), Some(CancelRequested)}
  {
  }

  /** Exactly when an advance stops at each of the budgets: the steps were used up before it, a clock
      reading was late, or the tokens are used up after it. */
  lemma StopsExactly(s: State, h: History, env: Env)
    requires Sound(s, h) && Logged(s, h) && !s.Terminal()
    ensures StopsSo(s, env, Advance(s, env))
  {
    var step := Advance(s, env);
    AdvanceLogged(s, h, env);
    assert step.next.tokens == s.tokens + step.log.tokens;
    if AtOnce(s, env) {
      AtOnceStops(s, h, env);
      assert s.tokens < s.budget.maxTokens;
      hide Advance, Logged, Sound;
    } else {
      assert s.node != Done;
      hide Advance, Logged, Sound, StopsSo, AtOnce;
      if s.node in {Retrieving, Comparing} {
        CallsStopSo(s, h, env, step);
      } else {
        RepliesStopSo(s, h, env, step);
      }
    }
  }
}
