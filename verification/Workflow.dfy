/** The workflow driving an investigation through a revision-guarded store
    (src/modules/investigation/workflow.py). */
module Workflow {
  import opened Wrappers
  import opened Investigation
  import opened StopReasons

  datatype WorkflowError = InvestigationNotFound | ConcurrentInvestigationUpdate

  class InMemoryInvestigationStore {
    var states: map<string, State>

    constructor ()
      ensures states == map[]
    {
      states := map[];
    }

    method Create(state: State) returns (r: Result<(), WorkflowError>)
      modifies this
      ensures r.Ok? <==> state.id !in old(states)
      ensures states == if r.Ok? then old(states)[state.id := state] else old(states)
    {
      if state.id in states {
        return Err(ConcurrentInvestigationUpdate);
      }
      states := states[state.id := state];
      r := Ok(());
    }

    /** Compare-and-set on the revision. */
    method Save(state: State, expectedRevision: nat) returns (r: Result<(), WorkflowError>)
      modifies this
      ensures r.Ok? <==> Replaces(old(states), state, expectedRevision)
      ensures states == if r.Ok? then old(states)[state.id := state] else old(states)
    {
      if state.id !in states || states[state.id].revision != expectedRevision
        || state.revision != expectedRevision + 1 {
        return Err(ConcurrentInvestigationUpdate);
      }
      states := states[state.id := state];
      r := Ok(());
    }
  }

  predicate Replaces(states: map<string, State>, state: State, expectedRevision: nat) {
    && state.id in states
    && states[state.id].revision == expectedRevision
    && state.revision == expectedRevision + 1
  }

  // ----- the loops

  /** Progress of the first `n` calls of a node, none of which has ended it. */
  ghost predicate Running(start: State, calls: seq<Call>, n: nat, env: Env, advanced: State, entries: seq<Entry>) {
    n <= |calls| && CallAll(start, calls[..n], env, 0) == Loop(Continue(advanced), entries)
  }

  /** One more call of a running node. */
  method MakeCall(ghost start: State, ghost calls: seq<Call>, n: nat, call: Call, env: Env, advanced: State,
                  entries: seq<Entry>)
    returns (progress: Progress, made: seq<Entry>)
    requires n < |calls| && calls[n] == call && Running(start, calls, n, env, advanced, entries)
    ensures progress.Continue? ==> Running(start, calls, n + 1, env, progress.state, made)
    ensures !progress.Continue? ==> CallAll(start, calls, env, 0) == Loop(progress, made)
  {
    progress := CallTool(advanced, call.tool, env.Reply(n), env.finishedAt);
    made := entries + if CallAllowed(advanced, call.tool) then [Made(advanced.node, call, env.Reply(n))] else [];
    CallAllStep(start, calls, n, env, 0);
    assert CallAll(advanced, [calls[n]], env, n).entries == made[|entries|..];
    if !progress.Continue? {
      CallAllEnded(start, calls, n + 1, env, 0);
    }
  }

  method RetrieveLoops(s: State, env: Env) returns (loop: Loop)
    ensures loop == RetrieveNode(s, env)
  {
    if s.plan == None {
      return Loop(Return(Stopped(s, WorkflowFailure, env.finishedAt)), []);
    }
    var plan := s.plan.value;
    ghost var start, calls := s.(steps := s.steps + 1), RetrieveCalls(plan);
    var advanced := s.(steps := s.steps + 1);
    var entries: seq<Entry> := [];
    for i := 0 to |plan.retrievals|
      invariant Running(start, calls, i, env, advanced, entries)
    {
      var progress, made := MakeCall(start, calls, i, Call(Retrieve, plan.retrievals[i]), env, advanced, entries);
      if !progress.Continue? {
        return Loop(progress, made);
      }
      advanced, entries := progress.state, made;
    }
    for i := 0 to |plan.incidents|
      invariant Running(start, calls, |plan.retrievals| + i, env, advanced, entries)
    {
      var progress, made := MakeCall(start, calls, |plan.retrievals| + i, Call(SearchIncidents, plan.incidents[i]),
        env, advanced, entries);
      if !progress.Continue? {
        return Loop(progress, made);
      }
      advanced, entries := progress.state, made;
    }
    assert calls[..|calls|] == calls;
    loop := Loop(Return(advanced.(node := Comparing)), entries);
  }

  method CompareLoop(s: State, env: Env) returns (loop: Loop)
    ensures loop == CompareNode(s, env)
  {
    if s.plan == None {
      return Loop(Return(Stopped(s, WorkflowFailure, env.finishedAt)), []);
    }
    var plan := s.plan.value;
    ghost var start, calls := s.(steps := s.steps + 1), CompareCalls(plan);
    var advanced := s.(steps := s.steps + 1);
    var entries: seq<Entry> := [];
    for i := 0 to |plan.comparisons|
      invariant Running(start, calls, i, env, advanced, entries)
    {
      var progress, made := MakeCall(start, calls, i, Call(CompareVersions, plan.comparisons[i]), env, advanced,
        entries);
      if !progress.Continue? {
        return Loop(progress, made);
      }
      advanced, entries := progress.state, made;
    }
    assert calls[..|calls|] == calls;
    loop := Loop(Return(advanced.(node := Verifying)), entries);
  }

  // ----- a run without interference

  /** Advance until terminal: the final state, the calls made, the number of advances. */
  ghost function RunFrom(s: State, h: History, envs: nat -> Env, k: nat): (r: (State, History, nat))
    requires Sound(s, h)
    decreases Rank(s.node)
  {
    if s.Terminal() then (s, h, 0)
    else
      AdvanceSound(s, h, envs(k));
      var step := Advance(s, envs(k));
      var rest := RunFrom(step.next, h.After(step), envs, k + 1);
      (rest.0, rest.1, rest.2 + 1)
  }

  lemma {:induction false} RunFromSound(s: State, h: History, envs: nat -> Env, k: nat)
    requires Sound(s, h)
    ensures var (final, past, advances) := RunFrom(s, h, envs, k);
      && final.Terminal() && Sound(final, past)
      && advances <= Rank(s.node) && final.revision == s.revision + advances && final.id == s.id
    decreases Rank(s.node)
  {
    if !s.Terminal() {
      AdvanceSound(s, h, envs(k));
      var step := Advance(s, envs(k));
      RunFromSound(step.next, h.After(step), envs, k + 1);
    }
  }

  lemma RunStep(s: State, h: History, envs: nat -> Env, k: nat)
    requires Sound(s, h) && !s.Terminal()
    ensures var step := Advance(s, envs(k));
      && Sound(step.next, h.After(step)) && Rank(step.next.node) < Rank(s.node) && step.next.id == s.id
      && RunFrom(s, h, envs, k).0 == RunFrom(step.next, h.After(step), envs, k + 1).0
  {
    AdvanceSound(s, h, envs(k));
  }

  /** `s` is on the way to `final`. */
  ghost predicate Toward(s: State, h: History, envs: nat -> Env, k: nat, final: State) {
    Sound(s, h) && RunFrom(s, h, envs, k).0 == final
  }

  lemma Departing(s: State, h: History, envs: nat -> Env)
    requires Sound(s, h)
    ensures Toward(s, h, envs, 0, RunFrom(s, h, envs, 0).0)
  {
  }

  lemma Arrived(s: State, h: History, envs: nat -> Env, k: nat, final: State)
    requires Toward(s, h, envs, k, final) && s.Terminal()
    ensures s == final
  {
  }

  /** Saving `next` over `meanwhile`: it succeeds exactly if the revision is still the one that was
      read, and otherwise changes nothing. */
  ghost predicate SavedOver(meanwhile: map<string, State>, id: string, revision: nat, next: State,
                            r: Result<State, WorkflowError>, after: map<string, State>)
  {
    if id in meanwhile && meanwhile[id].revision == revision
    then r == Ok(next) && after == meanwhile[id := next]
    else r == Err(ConcurrentInvestigationUpdate) && after == meanwhile
  }

  class InvestigationWorkflow {
    const store: InMemoryInvestigationStore

    constructor (store: InMemoryInvestigationStore)
      ensures this.store == store
    {
      this.store := store;
    }

    method StartInvestigation(id: string, budget: Budget, now: int) returns (r: Result<State, WorkflowError>)
      modifies store
      ensures r.Ok? <==> id !in old(store.states)
      ensures r.Ok? ==> r.value == Start(id, budget, now) && store.states == old(store.states)[id := r.value]
      ensures r.Err? ==> store.states == old(store.states)
    {
      var state := Start(id, budget, now);
      var created := store.Create(state);
      r := if created.Ok? then Ok(state) else Err(ConcurrentInvestigationUpdate);
    }

    /** `meanwhile` is what other workers and users have made of the store before the save. */
    method AdvanceOnce(id: string, env: Env, meanwhile: map<string, State>)
      returns (r: Result<State, WorkflowError>, ghost step: Step)
      requires id in store.states ==> store.states[id].id == id
      modifies store
      ensures id !in old(store.states) ==> r == Err(InvestigationNotFound) && store.states == old(store.states)
      ensures id in old(store.states) && old(store.states[id]).Terminal() ==>
        r == Ok(old(store.states[id])) && store.states == old(store.states)
      ensures id in old(store.states) && !old(store.states[id]).Terminal() ==>
        && step == Advance(old(store.states[id]), env)
        && SavedOver(meanwhile, id, old(store.states[id]).revision, step.next, r, store.states)
    {
      step := Step(Start(id, Budget(0, 0, 0, 0, 0), 0), [], None, NOTHING);
      if id !in store.states {
        return Err(InvestigationNotFound), step;
      }
      var current := store.states[id];
      if current.Terminal() {
        return Ok(current), step;
      }
      step := Advance(current, env);
      var state := Begun(current, env);
      var reason := BudgetReason(state, env.checkedAt, true);
      var advanced: State;
      if reason.Some? {
        advanced := Stopped(state, reason.value, env.finishedAt);
      } else {
        var progress: Progress;
        match state.node {
          case Planning => progress := PlanNode(state, env);
          case Retrieving => var loop := RetrieveLoops(state, env); progress := loop.progress;
          case Comparing => var loop := CompareLoop(state, env); progress := loop.progress;
          case Verifying => progress := VerifyNode(state, env);
          case Reporting => progress := ReportNode(state, env);
          case Done => progress := Exploded;
        }
        advanced := if progress.Exploded? then Stopped(state, WorkflowFailure, env.finishedAt) else progress.state;
      }
      var persisted := Persisted(current, advanced, env.updatedAt);
      AdvanceKeepsIdentity(current, env);
      store.states := meanwhile;
      var saved := store.Save(persisted, current.revision);
      r := if saved.Ok? then Ok(persisted) else Err(ConcurrentInvestigationUpdate);
    }

    method Cancel(id: string, finishedAt: int, updatedAt: int, meanwhile: map<string, State>)
      returns (r: Result<State, WorkflowError>)
      requires id in store.states ==> store.states[id].id == id
      modifies store
      ensures id !in old(store.states) ==> r == Err(InvestigationNotFound) && store.states == old(store.states)
      ensures id in old(store.states) && old(store.states[id]).Terminal() ==>
        r == Ok(old(store.states[id])) && store.states == old(store.states)
      ensures id in old(store.states) && !old(store.states[id]).Terminal() ==>
        var current := old(store.states[id]);
        SavedOver(meanwhile, id, current.revision, CancelStep(current, finishedAt, updatedAt).next, r, store.states)
    {
      if id !in store.states {
        return Err(InvestigationNotFound);
      }
      var current := store.states[id];
      if current.Terminal() {
        return Ok(current);
      }
      var persisted := CancelStep(current, finishedAt, updatedAt).next;
      store.states := meanwhile;
      var saved := store.Save(persisted, current.revision);
      r := if saved.Ok? then Ok(persisted) else Err(ConcurrentInvestigationUpdate);
    }

    method RunOne(id: string, envs: nat -> Env, k: nat, ghost past: History, ghost final: State)
      returns (state: State, ghost now: History)
      requires id in store.states && !store.states[id].Terminal() && store.states[id].id == id
      requires Toward(store.states[id], past, envs, k, final)
      modifies store
      ensures store.states == old(store.states)[id := state] && state.id == id
      ensures Toward(state, now, envs, k + 1, final)
      ensures Rank(state.node) < Rank(old(store.states[id]).node)
    {
      RunStep(store.states[id], past, envs, k);
      ghost var step;
      var advanced: Result<State, WorkflowError>;
      advanced, step := AdvanceOnce(id, envs(k), store.states);
      state := advanced.value;
      now := past.After(step);
    }

    /** The k-th advance of the run meets `envs(k)`. */
    method Run(id: string, envs: nat -> Env, ghost h: History) returns (r: Result<State, WorkflowError>)
      requires id in store.states ==> store.states[id].id == id && Sound(store.states[id], h)
      modifies store
      ensures id !in old(store.states) ==> r == Err(InvestigationNotFound) && store.states == old(store.states)
      ensures id in old(store.states) ==>
        && r == Ok(RunFrom(old(store.states[id]), h, envs, 0).0)
        && store.states == old(store.states)[id := r.value]
    {
      hide Toward, RunFrom, Sound, Advance, Rank;
      if id !in store.states {
        return Err(InvestigationNotFound);
      }
      var state := store.states[id];
      var k := 0;
      ghost var past := h;
      ghost var final := RunFrom(state, h, envs, 0).0;
      Departing(state, h, envs);
      while !state.Terminal()
        invariant id in store.states && store.states == old(store.states)[id := state] && state.id == id
        invariant Toward(state, past, envs, k, final)
        decreases Rank(state.node)
      {
        state, past := RunOne(id, envs, k, past, final);
        k := k + 1;
      }
      Arrived(state, past, envs, k, final);
      r := Ok(state);
    }
  }

  /** A fresh investigation is terminal after at most five advances; if it completed, every
      planned call was made once, in plan order, with success, and its evidence, incidents and
      comparisons are what those calls returned, and the verifier found them sufficient. What it records
      is what its nodes reported, and it ends at a budget exactly if its last advance finds the steps
      used up, a clock reading late, or the tokens used up. */
  lemma RunTheorem(id: string, budget: Budget, now: int, envs: nat -> Env)
    requires budget.Valid()
    ensures Sound(Start(id, budget, now), BLANK)
    ensures var (final, h, advances) := RunFrom(Start(id, budget, now), BLANK, envs, 0);
      && final.Terminal() && advances <= 5
      && final.steps <= final.budget.maxSteps && WithinCallBudget(final.budget, h.entries)
      && Logged(final, h) && advances > 0
      && (var last := Nth(Start(id, budget, now), envs, advances - 1);
          && final == Advance(last, envs(advances - 1)).next
          && StopsSo(last, envs(advances - 1), Advance(last, envs(advances - 1))))
      && (final.stop == Some(Success) ==>
            && h.verdict == Some(true)
            && final.plan.Some? && Calls(h.entries) == PlannedCalls(final.plan.value) && AllReturned(h.entries)
            && final.work.evidence == Concat(Results(h.entries, Retrieve))
            && final.work.incidents == Concat(Results(h.entries, SearchIncidents))
            && final.work.comparisons == Results(h.entries, CompareVersions))
  {
    StartSound(id, budget, now);
    StartLogged(id, budget, now);
    var s := Start(id, budget, now);
    assert !s.Terminal() && Rank(s.node) == 5;
    hide Start, StopsSo, Nth, Logged, Advance, RunFrom;
    RunFromSound(s, BLANK, envs, 0);
    RunsOnce(s, BLANK, envs);
    RunEnds(s, BLANK, envs);
    var (final, h, _) := RunFrom(s, BLANK, envs, 0);
    SoundMeans(final, h);
    hide Sound, WithinCallBudget, AllReturned;
  }

  lemma RunsOnce(s: State, h: History, envs: nat -> Env)
    requires Sound(s, h) && !s.Terminal()
    ensures RunFrom(s, h, envs, 0).2 > 0
  {
    hide Advance, Sound;
  }

  lemma SoundMeans(s: State, h: History)
    requires Sound(s, h)
    ensures s.steps <= s.budget.maxSteps && WithinCallBudget(s.budget, h.entries)
    ensures s.stop == Some(Success) ==>
      && h.verdict == Some(true)
      && s.plan.Some? && Calls(h.entries) == PlannedCalls(s.plan.value) && AllReturned(h.entries)
      && s.work.evidence == Concat(Results(h.entries, Retrieve))
      && s.work.incidents == Concat(Results(h.entries, SearchIncidents))
      && s.work.comparisons == Results(h.entries, CompareVersions)
  {
  }

  /** A run ends with its last advance. */
  lemma RunEnds(s: State, h: History, envs: nat -> Env)
    requires Sound(s, h) && Logged(s, h) && RunFrom(s, h, envs, 0).2 > 0
    ensures var (final, past, advances) := RunFrom(s, h, envs, 0);
      var last, env := Nth(s, envs, advances - 1), envs(advances - 1);
      Logged(final, past) && final == Advance(last, env).next && StopsSo(last, env, Advance(last, env))
  {
    hide Logged, StopsSo, Nth, Sound, Advance;
    var n := RunFrom(s, h, envs, 0).2 - 1;
    var last := Nth(s, envs, n);
    var past := RunAt(s, h, envs, n);
    LastAdvance(last, past, envs, n);
    AdvanceLogged(last, past, envs(n));
    StopsExactly(last, past, envs(n));
  }

  lemma LastAdvance(s: State, h: History, envs: nat -> Env, k: nat)
    requires Sound(s, h) && !s.Terminal() && RunFrom(s, h, envs, k).2 == 1
    ensures var step := Advance(s, envs(k));
      RunFrom(s, h, envs, k).0 == step.next && RunFrom(s, h, envs, k).1 == h.After(step)
  {
    hide Advance, Sound;
    AdvanceSound(s, h, envs(k));
  }

  /** After `n` advances of a run that is not over, the run goes on from there. */
  lemma {:induction false} RunAt(s: State, h: History, envs: nat -> Env, n: nat) returns (past: History)
    requires Sound(s, h) && Logged(s, h) && n < RunFrom(s, h, envs, 0).2
    ensures Sound(Nth(s, envs, n), past) && Logged(Nth(s, envs, n), past) && !Nth(s, envs, n).Terminal()
    ensures var (whole, rest) := (RunFrom(s, h, envs, 0), RunFrom(Nth(s, envs, n), past, envs, n));
      whole.0 == rest.0 && whole.1 == rest.1 && whole.2 == n + rest.2
  {
    hide Advance, Sound, Logged;
    past := h;
    if n > 0 {
      past := RunAt(s, h, envs, n - 1);
      var last := Nth(s, envs, n - 1);
      AdvanceSound(last, past, envs(n - 1));
      AdvanceLogged(last, past, envs(n - 1));
      past := past.After(Advance(last, envs(n - 1)));
    }
  }

  /** Nothing interferes with this advance: every check is in time and every call returns in time. */
  ghost predicate Smooth(s: State, env: Env, calls: nat) {
    && Timely(s, env.checkedAt) && Timely(s, env.recheckedAt)
    && forall i :: 0 <= i < calls ==> env.Reply(i).outcome.Returned? && Timely(s, env.Reply(i).checkedAt)
  }

  /** The state after `n` advances, terminal or not. */
  function Nth(s: State, envs: nat -> Env, n: nat): State {
    if n == 0 then s else Advance(Nth(s, envs, n - 1), envs(n - 1)).next
  }

  lemma {:induction false} RunReaches(s: State, h: History, envs: nat -> Env, n: nat) returns (past: History)
    requires Sound(s, h)
    requires forall i :: 0 <= i < n ==> !Nth(s, envs, i).Terminal()
    ensures Sound(Nth(s, envs, n), past)
    ensures RunFrom(s, h, envs, 0).0 == RunFrom(Nth(s, envs, n), past, envs, n).0
  {
    hide Advance, Sound;
    past := h;
    if n > 0 {
      past := RunReaches(s, h, envs, n - 1);
      var last := Nth(s, envs, n - 1);
      RunStep(last, past, envs, n - 1);
      past := past.After(Advance(last, envs(n - 1)));
    }
  }

  /** Sufficient budgets, and collaborators that answer in time, with a verifier satisfied. */
  ghost predicate SmoothRun(s: State, envs: nat -> Env, plan: Plan) {
    && s == Start(s.id, s.budget, s.createdAt) && s.budget.Valid() && s.budget.maxSteps >= 5
    && |PlannedCalls(plan)| <= s.budget.maxToolCalls && |RetrieveCalls(plan)| <= s.budget.maxRetrievals
    && envs(0).plan.Planned? && envs(0).plan.plan == plan
    && envs(3).verify.Judged? && envs(3).verify.sufficient && envs(4).report.Reported?
    && envs(0).plan.tokens + envs(3).verify.tokens + envs(4).report.tokens < s.budget.maxTokens
    && var begun := Begun(s, envs(0));
    && Smooth(begun, envs(0), 0) && Smooth(begun, envs(1), |RetrieveCalls(plan)|)
    && Smooth(begun, envs(2), |CompareCalls(plan)|) && Smooth(begun, envs(3), 0) && Smooth(begun, envs(4), 0)
  }

  /** Conversely to the run theorem, such a run does complete the investigation. */
  lemma SmoothRunCompletes(id: string, budget: Budget, now: int, envs: nat -> Env, plan: Plan)
    requires SmoothRun(Start(id, budget, now), envs, plan)
    ensures Sound(Start(id, budget, now), BLANK)
    ensures RunFrom(Start(id, budget, now), BLANK, envs, 0).0.status == Completed
  {
    var s := Start(id, budget, now);
    StartSound(id, budget, now);
    SmoothStates(s, envs, plan);
    var past := RunReaches(s, BLANK, envs, 5);
  }

  lemma SmoothStates(s: State, envs: nat -> Env, plan: Plan)
    requires SmoothRun(s, envs, plan)
    ensures forall i :: 0 <= i < 5 ==> !Nth(s, envs, i).Terminal()
    ensures Nth(s, envs, 5).status == Completed
  {
    hide Advance;
    var s1, s2, s3 := SmoothThree(s, envs, plan);
    hide SmoothRun;
    SmoothEnd(s3, envs(3), envs(4));
    assert Nth(s, envs, 1) == s1;
    assert Nth(s, envs, 2) == s2;
    assert Nth(s, envs, 3) == s3;
    assert Nth(s, envs, 4) == Advance(s3, envs(3)).next;
    assert Nth(s, envs, 5) == Advance(Nth(s, envs, 4), envs(4)).next;
    assert !s.Terminal();
    hide Nth;
  }

  lemma SmoothThree(s: State, envs: nat -> Env, plan: Plan) returns (s1: State, s2: State, s3: State)
    requires SmoothRun(s, envs, plan)
    ensures s1 == Advance(s, envs(0)).next && s2 == Advance(s1, envs(1)).next && s3 == Advance(s2, envs(2)).next
    ensures !s.Terminal() && !s1.Terminal() && !s2.Terminal() && !s3.Terminal()
    ensures s3.status == Investigation.Running && s3.node == Verifying && s3.pending == None
        && s3.steps + 1 < s3.budget.maxSteps
    ensures s3.tokens + envs(3).verify.tokens + envs(4).report.tokens < s3.budget.maxTokens
    ensures envs(3).verify.Judged? && envs(3).verify.sufficient && envs(4).report.Reported?
    ensures Smooth(s3, envs(3), 0) && Smooth(s3, envs(4), 0)
  {
    hide Advance, RetrieveCalls, CompareCalls;
    var begun := Begun(s, envs(0));
    s1 := SmoothPlan(s, envs(0));
    SameSmooth(begun, s1);
    hide Smooth;
    s2 := SmoothCalls(s1, envs(1), RetrieveCalls(plan), Comparing);
    SameSmooth(begun, s2);
    s3 := SmoothCalls(s2, envs(2), CompareCalls(plan), Verifying);
    SameSmooth(begun, s3);
  }

  /** Whether nothing interferes depends only on the start and the budget. */
  lemma SameSmooth(s: State, t: State)
    requires s.startedAt == t.startedAt && s.budget == t.budget
    ensures forall env, calls :: Smooth(s, env, calls) <==> Smooth(t, env, calls)
  {
  }

  lemma SmoothEnd(s: State, verifying: Env, reporting: Env)
    requires s.status == Investigation.Running && s.node == Verifying && s.pending == None
    requires s.steps + 1 < s.budget.maxSteps
    requires verifying.verify.Judged? && verifying.verify.sufficient && reporting.report.Reported?
    requires s.tokens + verifying.verify.tokens + reporting.report.tokens < s.budget.maxTokens
    requires Smooth(s, verifying, 0) && Smooth(s, reporting, 0)
    ensures var next := Advance(s, verifying).next;
      !next.Terminal() && Advance(next, reporting).next.status == Completed
  {
  }

  lemma SmoothPlan(s: State, env: Env) returns (t: State)
    requires s == Start(s.id, s.budget, s.createdAt) && s.budget.Valid() && s.budget.maxSteps >= 5
    requires env.plan.Planned? && env.plan.tokens < s.budget.maxTokens && Smooth(Begun(s, env), env, 0)
    ensures t == Advance(s, env).next
    ensures !t.Terminal() && t.status == Investigation.Running && t.node == Retrieving && t.plan == Some(env.plan.plan)
    ensures t.startedAt == Some(env.startedAt) && t.budget == s.budget && t.steps == 1 && t.tokens == env.plan.tokens
    ensures t.work == s.work && t.pending == None
  {
    t := Advance(s, env).next;
  }

  lemma SmoothCalls(s: State, env: Env, calls: seq<Call>, next: Node) returns (t: State)
    requires s.status == Investigation.Running && s.plan.Some? && s.steps < s.budget.maxSteps
        && s.tokens < s.budget.maxTokens
    requires (s.node == Retrieving && next == Comparing && calls == RetrieveCalls(s.plan.value))
             || (s.node == Comparing && next == Verifying && calls == CompareCalls(s.plan.value))
    requires s.work.toolCalls + |calls| <= s.budget.maxToolCalls
    requires s.node == Retrieving ==> s.work.retrievals + |calls| <= s.budget.maxRetrievals
    requires Smooth(s, env, |calls|)
    ensures t == Advance(s, env).next
    ensures t == s.(node := next, steps := s.steps + 1, work := t.work, revision := s.revision + 1,
        updatedAt := env.updatedAt)
    ensures t.work.toolCalls == s.work.toolCalls + |calls|
  {
    CallAllContinues(s.(steps := s.steps + 1), calls, env, 0);
    t := Advance(s, env).next;
  }
}
