/** The tool calls really made by workers and users acting on one investigation at the same time,
    saved or not (src/modules/investigation/workflow.py). */
module ToolCalls {
  import opened Wrappers
  import opened Investigation
  import opened Interleaving

  // ----- counting calls

  /** Whether an action computes an advance. */
  predicate Computes(sys: System, action: Action) {
    action.ComputeAdvance? && sys.Where(action.actor).Holding?
  }

  /** The calls an action makes, whether or not its step is ever saved. */
  function CallsOfAction(sys: System, action: Action): nat {
    if Computes(sys, action) then |Advance(sys.Where(action.actor).read, action.env).entries| else 0
  }

  function CallsMade(start: System, actions: seq<Action>): nat
    requires start.saved != []
  {
    if actions == [] then 0
    else
      var before, last := actions[..|actions| - 1], actions[|actions| - 1];
      CallsMade(start, before) + CallsOfAction(RunAll(start, before), last)
  }

  function AdvancesComputed(start: System, actions: seq<Action>): nat
    requires start.saved != []
  {
    if actions == [] then 0
    else
      var before, last := actions[..|actions| - 1], actions[|actions| - 1];
      AdvancesComputed(start, before) + if Computes(RunAll(start, before), last) then 1 else 0
  }

  lemma {:induction false} FirstIsKept(start: System, actions: seq<Action>)
    requires start.saved != []
    ensures RunAll(start, actions).saved[0] == start.saved[0]
  {
    if actions != [] {
      FirstIsKept(start, actions[..|actions| - 1]);
    }
  }

  /** All saved states have the budget of the first. */
  lemma {:induction false} SameBudget(sys: System, k: nat)
    requires Linear(sys) && k < |sys.saved|
    ensures sys.saved[k].budget == sys.saved[0].budget
  {
    hide Advance;
    if k > 0 {
      SameBudget(sys, k - 1);
      var s := sys.saved[k - 1];
      assert LegalStep(s, sys.saved[k]);
      if env :| sys.saved[k] == Advance(s, env).next {
        AdvanceKeepsIdentity(s, env);
      }
    }
  }

  /** `n` whole budgets. */
  function Budgets(n: nat, max: nat): nat {
    if n == 0 then 0 else Budgets(n - 1, max) + max
  }

  lemma {:induction false} BudgetsIsProduct(n: nat, max: nat)
    ensures Budgets(n, max) == n * max
  {
    if n > 0 {
      BudgetsIsProduct(n - 1, max);
      assert n * max == (n - 1) * max + max;
    }
  }

  lemma OneMore(start: System, actions: seq<Action>, last: Action)
    requires start.saved != []
    ensures RunAll(start, actions + [last]) == Act(RunAll(start, actions), last)
    ensures CallsMade(start, actions + [last])
        == CallsMade(start, actions) + CallsOfAction(RunAll(start, actions), last)
    ensures AdvancesComputed(start, actions + [last]) ==
      AdvancesComputed(start, actions) + if Computes(RunAll(start, actions), last) then 1 else 0
  {
    hide Act, CallsOfAction, Computes;
    assert (actions + [last])[..|actions|] == actions;
  }

  /** Of all calls really made, also for steps that lose their save, there are at most the tool
      budget for each advance computed. */
  lemma CallsAreBounded(id: string, budget: Budget, now: int, actions: seq<Action>)
    requires budget.Valid()
    ensures var start := Begin(id, budget, now);
      CallsMade(start, actions) <= AdvancesComputed(start, actions) * budget.maxToolCalls
  {
    var start := Begin(id, budget, now);
    StartSound(id, budget, now);
    CallsBoundedFrom(start, budget.maxToolCalls, actions);
    hide CallsMade, AdvancesComputed, Inv, RunAll;
    BudgetsIsProduct(AdvancesComputed(start, actions), budget.maxToolCalls);
  }

  lemma {:induction false} RunKeepsInv(start: System, actions: seq<Action>)
    requires Inv(start)
    ensures Inv(RunAll(start, actions))
  {
    if actions != [] {
      RunKeepsInv(start, actions[..|actions| - 1]);
      ActKeepsInv(RunAll(start, actions[..|actions| - 1]), actions[|actions| - 1]);
    }
  }

  /** The last action makes calls only if it computes an advance, and then at most the budget. */
  lemma LastBounded(start: System, actions: seq<Action>, last: Action)
    requires Inv(start)
    ensures CallsOfAction(RunAll(start, actions), last) <=
      if Computes(RunAll(start, actions), last) then start.saved[0].budget.maxToolCalls else 0
  {
    RunKeepsInv(start, actions);
    FirstIsKept(start, actions);
    ActionBounded(RunAll(start, actions), last);
  }

  lemma {:induction false} CallsBoundedFrom(start: System, max: nat, actions: seq<Action>)
    requires Inv(start) && start.saved[0].budget.maxToolCalls == max
    ensures CallsMade(start, actions) <= Budgets(AdvancesComputed(start, actions), max)
  {
    if actions != [] {
      var before, last := actions[..|actions| - 1], actions[|actions| - 1];
      CallsBoundedFrom(start, max, before);
      LastBounded(start, before, last);
      CallsStep(start, max, before, last);
      assert actions == before + [last];
    }
  }

  lemma CallsStep(start: System, max: nat, before: seq<Action>, last: Action)
    requires start.saved != [] && CallsMade(start, before) <= Budgets(AdvancesComputed(start, before), max)
    requires CallsOfAction(RunAll(start, before), last) <= if Computes(RunAll(start, before), last) then max else 0
    ensures CallsMade(start, before + [last]) <= Budgets(AdvancesComputed(start, before + [last]), max)
  {
    OneMore(start, before, last);
    hide RunAll, CallsMade, AdvancesComputed, Computes, CallsOfAction;
  }

  lemma ActionBounded(sys: System, action: Action)
    requires Inv(sys)
    ensures CallsOfAction(sys, action) <= if Computes(sys, action) then sys.saved[0].budget.maxToolCalls else 0
  {
    hide Inv, Advance;
    if Computes(sys, action) {
      ComputedBounded(sys, action);
    }
  }

  /** The calls of saved steps alone stay within one tool budget. */
  lemma SavedWithinBudget(id: string, budget: Budget, now: int, actions: seq<Action>)
    requires budget.Valid()
    ensures |RunAll(Begin(id, budget, now), actions).past.entries| <= budget.maxToolCalls
  {
    var sys := RunAll(Begin(id, budget, now), actions);
    InterleavingTheorem(id, budget, now, actions);
    FirstIsKept(Begin(id, budget, now), actions);
    SameBudget(sys, |sys.saved| - 1);
  }

  lemma ComputedBounded(sys: System, action: Action)
    requires Inv(sys) && Computes(sys, action)
    ensures CallsOfAction(sys, action) <= sys.saved[0].budget.maxToolCalls
  {
    hide Sound, Advance;
    var read := sys.Where(action.actor).read;
    assert Honest(sys.saved, sys.actors[action.actor]);
    var k :| 0 <= k < |sys.saved| && sys.saved[k] == read;
    SameBudget(sys, k);
    AdvanceBounded(read, action.env);
  }

  // ----- where the calls went

  /** The calls of a step that waits to be saved. */
  function Waiting(a: Actor): nat {
    if a.Saving? then |a.step.entries| else 0
  }

  /** Those of all actors below `n`. */
  function Pending(sys: System, n: nat): nat {
    if n == 0 then 0
    else Pending(sys, n - 1) + Waiting(sys.Where(n - 1))
  }

  /** The calls of a step that loses its save or whose actor crashes before it. */
  function LostByAction(sys: System, action: Action): nat
    requires sys.saved != []
  {
    match action
    case Save(a) =>
      if sys.Where(a).Saving? && !SaveSucceeds(sys.Stored(), sys.Where(a).read, sys.Where(a).step)
      then Waiting(sys.Where(a)) else 0
    case Crash(a) => Waiting(sys.Where(a))
    case _ => 0
  }

  function Lost(start: System, actions: seq<Action>): nat
    requires start.saved != []
  {
    if actions == [] then 0
    else
      var before, last := actions[..|actions| - 1], actions[|actions| - 1];
      Lost(start, before) + LostByAction(RunAll(start, before), last)
  }

  function ActorOf(action: Action): nat {
    match action
    case Read(a) => a
    case ComputeAdvance(a, _) => a
    case ComputeCancel(a, _, _) => a
    case Save(a) => a
    case Crash(a) => a
  }

  lemma {:induction false} PendingElsewhere(before: System, after: System, a: nat, n: nat)
    requires forall b :: b != a ==> before.Where(b) == after.Where(b)
    ensures a >= n ==> Pending(after, n) == Pending(before, n)
    ensures a < n ==>
              Pending(after, n) + Waiting(before.Where(a)) == Pending(before, n) + Waiting(after.Where(a))
  {
    if n > 0 {
      PendingElsewhere(before, after, a, n - 1);
    }
  }

  /** One action moves calls from nowhere to pending, from there to the saved history or to the lost. */
  lemma ActionAccounts(sys: System, action: Action, n: nat)
    requires sys.saved != [] && ActorOf(action) < n
    ensures var after := Act(sys, action);
      |after.past.entries| + Pending(after, n) + LostByAction(sys, action)
      == |sys.past.entries| + Pending(sys, n) + CallsOfAction(sys, action)
  {
    hide Advance, Pending;
    PendingElsewhere(sys, Act(sys, action), ActorOf(action), n);
  }

  /** Every call made is in the saved history, or belongs to a step that is still to be saved, or to
      one that was lost; and so the calls made exceed the saved ones exactly by the last two. */
  lemma {:induction false} CallsAreAccounted(id: string, budget: Budget, now: int, actions: seq<Action>, n: nat)
    requires forall action :: action in actions ==> ActorOf(action) < n
    ensures var start := Begin(id, budget, now);
      var sys := RunAll(start, actions);
      CallsMade(start, actions) == |sys.past.entries| + Pending(sys, n) + Lost(start, actions)
  {
    var start := Begin(id, budget, now);
    if actions == [] {
      NothingPending(start, n);
    } else {
      var before, last := actions[..|actions| - 1], actions[|actions| - 1];
      CallsAreAccounted(id, budget, now, before, n);
      ActionAccounts(RunAll(start, before), last, n);
      hide Act, CallsOfAction, LostByAction, Pending;
    }
  }

  lemma {:induction false} NothingPending(sys: System, n: nat)
    requires sys.actors == map[]
    ensures Pending(sys, n) == 0
  {
    if n > 0 {
      NothingPending(sys, n - 1);
    }
  }

  // ----- one advance from each revision

  /** The revisions from which advances were computed. */
  function Revisions(start: System, actions: seq<Action>): seq<nat>
    requires start.saved != []
  {
    if actions == [] then []
    else
      var before, last := actions[..|actions| - 1], actions[|actions| - 1];
      var sys := RunAll(start, before);
      Revisions(start, before) + if Computes(sys, last) then [sys.Where(last.actor).read.revision] else []
  }

  /** No revision is advanced from twice: one worker at a time, that saves what it computes. */
  ghost predicate OnceEach(revisions: seq<nat>) {
    forall i, j :: 0 <= i < j < |revisions| ==> revisions[i] != revisions[j]
  }

  /** The last saved state that is not terminal. */
  function LastOpen(sys: System): int
    requires sys.saved != []
  {
    if sys.Stored().Terminal() then |sys.saved| - 2 else |sys.saved| - 1
  }

  /** An actor's step that made calls, or goes on, was computed by an advance; and one computed from
      the stored state would bring the saved history to all calls made. */
  ghost predicate StepSpent(sys: System, done: seq<nat>, made: nat, a: Actor)
    requires sys.saved != []
  {
    a.Saving? ==>
      && (a.step.entries != [] || !a.step.next.Terminal() ==> a.read.revision in done)
      && (!sys.Stored().Terminal() && a.read.revision == LastOpen(sys) && !a.step.next.Terminal() ==>
            made == |sys.past.entries| + |a.step.entries|)
  }

  /** Every revision before the last open one was advanced from; and until that one is, all calls made
      are those of the saved history. */
  ghost predicate SpentHistory(sys: System, done: seq<nat>, made: nat) {
    && sys.saved != [] && LastOpen(sys) >= 0
    && (forall k :: 0 <= k < LastOpen(sys) ==> k in done)
    && (forall k :: k in done ==> k <= LastOpen(sys))
    && (LastOpen(sys) !in done ==> made == |sys.past.entries| == sys.saved[LastOpen(sys)].work.toolCalls)
    && made <= sys.saved[0].budget.maxToolCalls
  }

  ghost predicate Spent(sys: System, done: seq<nat>, made: nat) {
    SpentHistory(sys, done, made) && forall a :: a in sys.actors ==> StepSpent(sys, done, made, sys.actors[a])
  }

  /** What an actor read is the saved state of its revision, and was not terminal. */
  lemma ReadIsSaved(sys: System, a: nat)
    requires Inv(sys) && !sys.Where(a).Idle?
    ensures var read := sys.Where(a).read;
      && read.revision < |sys.saved| && sys.saved[read.revision] == read && !read.Terminal()
      && LastOpen(sys) >= 0 && read.revision <= LastOpen(sys)
  {
    hide Sound, LegalStep;
    assert Honest(sys.saved, sys.actors[a]);
  }

  /** Actions that neither compute an advance nor save. */
  lemma OthersKeepSpent(sys: System, action: Action, done: seq<nat>, made: nat)
    requires Inv(sys) && Spent(sys, done, made) && !Computes(sys, action) && !action.Save?
    ensures Spent(Act(sys, action), done, made)
  {
    hide Inv, Advance;
  }

  lemma ComputeKeepsSpent(sys: System, action: Action, done: seq<nat>, made: nat)
    requires Inv(sys) && Spent(sys, done, made) && Computes(sys, action)
    requires sys.Where(action.actor).read.revision !in done
    ensures Spent(Act(sys, action), done + [sys.Where(action.actor).read.revision], made + CallsOfAction(sys, action))
  {
    hide Inv, Advance;
    var read := sys.Where(action.actor).read;
    ReadIsSaved(sys, action.actor);
    AdvanceBounded(read, action.env);
    SavedBudget(sys, read.revision);
    assert read.revision == LastOpen(sys);
    var after, done', made' := Act(sys, action), done + [read.revision], made + CallsOfAction(sys, action);
    forall a | a in after.actors
      ensures StepSpent(after, done', made', after.actors[a])
    {
      assert a != action.actor ==> StepSpent(sys, done, made, sys.actors[a]);
    }
  }

  lemma SavedBudget(sys: System, k: nat)
    requires Inv(sys) && k < |sys.saved|
    ensures sys.saved[k].budget == sys.saved[0].budget
  {
    SameBudget(sys, k);
  }

  predicate Saves(sys: System, a: nat)
    requires sys.saved != []
  {
    sys.Where(a).Saving? && SaveSucceeds(sys.Stored(), sys.Where(a).read, sys.Where(a).step)
  }

  lemma SaveKeepsHistory(sys: System, a: nat, done: seq<nat>, made: nat)
    requires SpentHistory(sys, done, made) && Saves(sys, a) && StepSpent(sys, done, made, sys.Where(a))
    requires sys.Where(a).read == sys.Stored() && !sys.Stored().Terminal() && sys.Stored().revision == |sys.saved| - 1
    requires var after := Act(sys, Save(a));
      !after.Stored().Terminal() ==> after.Stored().work.toolCalls == |after.past.entries|
    ensures SpentHistory(Act(sys, Save(a)), done, made)
  {
    hide Advance, CancelStep;
    assert Act(sys, Save(a)).saved == sys.saved + [sys.Where(a).step.next];
  }

  /** The state that was read is the stored one. */
  lemma SaverReadStored(sys: System, a: nat)
    requires Inv(sys) && Saves(sys, a)
    ensures sys.Where(a).read == sys.Stored() && !sys.Stored().Terminal() && sys.Stored().revision == |sys.saved| - 1
  {
    StoredRevision(sys);
    ReadIsSaved(sys, a);
    hide Inv;
  }

  lemma SaveKeepsSteps(sys: System, a: nat, done: seq<nat>, made: nat, b: nat)
    requires Inv(sys) && Spent(sys, done, made) && Saves(sys, a) && b in Act(sys, Save(a)).actors
    ensures StepSpent(Act(sys, Save(a)), done, made, Act(sys, Save(a)).actors[b])
  {
    hide Inv, Advance;
    SaverReadStored(sys, a);
    if b != a && sys.Where(b).Saving? {
      ReadIsSaved(sys, b);
      assert StepSpent(sys, done, made, sys.actors[b]);
    }
  }

  lemma SaveKeepsSpent(sys: System, a: nat, done: seq<nat>, made: nat)
    requires Inv(sys) && Spent(sys, done, made)
    ensures Spent(Act(sys, Save(a)), done, made)
  {
    ActKeepsInv(sys, Save(a));
    assert sys.saved != [] && Act(sys, Save(a)).saved != [];
    hide Inv, StepSpent, Act, SpentHistory, Advance;
    if Saves(sys, a) {
      StoredCounts(Act(sys, Save(a)));
      SaverReadStored(sys, a);
      SaveKeepsHistory(sys, a, done, made);
      forall b | b in Act(sys, Save(a)).actors
        ensures StepSpent(Act(sys, Save(a)), done, made, Act(sys, Save(a)).actors[b])
      {
        SaveKeepsSteps(sys, a, done, made, b);
      }
    } else {
      FailedSaveKeeps(sys, a, done, made);
    }
  }

  lemma FailedSaveKeeps(sys: System, a: nat, done: seq<nat>, made: nat)
    requires Spent(sys, done, made) && !Saves(sys, a)
    ensures Spent(Act(sys, Save(a)), done, made)
  {
    hide Advance;
  }

  lemma StoredRevision(sys: System)
    requires Inv(sys)
    ensures sys.Stored().revision == |sys.saved| - 1
  {
  }

  lemma StoredCounts(sys: System)
    requires Inv(sys)
    ensures !sys.Stored().Terminal() ==> sys.Stored().work.toolCalls == |sys.past.entries|
  {
  }

  /** The revisions advanced from, after one more action. */
  function DoneAfter(sys: System, action: Action, done: seq<nat>): seq<nat> {
    done + if Computes(sys, action) then [sys.Where(action.actor).read.revision] else []
  }

  predicate Fresh(sys: System, action: Action, done: seq<nat>) {
    Computes(sys, action) ==> sys.Where(action.actor).read.revision !in done
  }

  lemma ActKeepsSpent(sys: System, action: Action, done: seq<nat>, made: nat)
    requires Inv(sys) && Spent(sys, done, made) && Fresh(sys, action, done)
    ensures Spent(Act(sys, action), DoneAfter(sys, action, done), made + CallsOfAction(sys, action))
  {
    assert done + [] == done;
    hide Inv, Spent, Act;
    if Computes(sys, action) {
      ComputeKeepsSpent(sys, action, done, made);
    } else if action.Save? {
      SaveKeepsSpent(sys, action.actor, done, made);
    } else {
      OthersKeepSpent(sys, action, done, made);
    }
  }

  lemma OneMoreRevision(start: System, actions: seq<Action>, last: Action)
    requires start.saved != []
    ensures Revisions(start, actions + [last]) == DoneAfter(RunAll(start, actions), last, Revisions(start, actions))
  {
    assert (actions + [last])[..|actions|] == actions;
  }

  lemma OnceEachBefore(done: seq<nat>, last: seq<nat>)
    requires OnceEach(done + last)
    ensures OnceEach(done) && forall k :: k in last ==> k !in done
  {
    forall i, j | 0 <= i < j < |done|
      ensures done[i] != done[j]
    {
      assert (done + last)[i] == done[i] && (done + last)[j] == done[j];
    }
    forall k | k in last
      ensures k !in done
    {
      var j :| 0 <= j < |last| && last[j] == k;
      assert (done + last)[|done| + j] == k;
      assert forall i :: 0 <= i < |done| ==> (done + last)[i] == done[i];
    }
  }

  ghost predicate SpentAfter(start: System, actions: seq<Action>)
    requires start.saved != []
  {
    Spent(RunAll(start, actions), Revisions(start, actions), CallsMade(start, actions))
  }

  lemma SpentStep(start: System, before: seq<Action>, last: Action)
    requires start.saved != []
    requires var (sys, done) := (RunAll(start, before), Revisions(start, before));
      Spent(Act(sys, last), DoneAfter(sys, last, done), CallsMade(start, before) + CallsOfAction(sys, last))
    ensures SpentAfter(start, before + [last])
  {
    hide RunAll, Revisions, CallsMade, AdvancesComputed, Spent, Act, CallsOfAction, DoneAfter, Computes, SpentAfter;
    OneMore(start, before, last);
    OneMoreRevision(start, before, last);
    var sys := RunAll(start, before);
    SpentAre(start, before + [last], Act(sys, last), DoneAfter(sys, last, Revisions(start, before)),
      CallsMade(start, before) + CallsOfAction(sys, last));
  }

  lemma SpentAre(start: System, actions: seq<Action>, sys: System, done: seq<nat>, made: nat)
    requires start.saved != []
    requires RunAll(start, actions) == sys && Revisions(start, actions) == done && CallsMade(start, actions) == made
    requires Spent(sys, done, made)
    ensures SpentAfter(start, actions)
  {
  }

  lemma OnceEachPrefix(start: System, before: seq<Action>, last: Action)
    requires start.saved != [] && OnceEach(Revisions(start, before + [last]))
    ensures OnceEach(Revisions(start, before)) && Fresh(RunAll(start, before), last, Revisions(start, before))
  {
    hide RunAll, OnceEach, Revisions;
    OneMoreRevision(start, before, last);
    var sys, done := RunAll(start, before), Revisions(start, before);
    var revision := if Computes(sys, last) then [sys.Where(last.actor).read.revision] else [];
    OnceEachBefore(done, revision);
    assert Computes(sys, last) ==> revision[0] in revision;
  }

  lemma SpentOneMore(start: System, before: seq<Action>, last: Action)
    requires start.saved != [] && SpentAfter(start, before) && Inv(RunAll(start, before))
    requires Fresh(RunAll(start, before), last, Revisions(start, before))
    ensures SpentAfter(start, before + [last])
  {
    hide RunAll, Inv, Revisions, Act, Spent, CallsMade, CallsOfAction, DoneAfter, Fresh;
    ActKeepsSpent(RunAll(start, before), last, Revisions(start, before), CallsMade(start, before));
    SpentStep(start, before, last);
  }

  lemma NothingSpent(id: string, budget: Budget, now: int)
    ensures SpentAfter(Begin(id, budget, now), [])
  {
  }

  lemma {:induction false} RunKeepsSpent(id: string, budget: Budget, now: int, actions: seq<Action>)
    requires budget.Valid() && OnceEach(Revisions(Begin(id, budget, now), actions))
    ensures SpentAfter(Begin(id, budget, now), actions)
  {
    var start := Begin(id, budget, now);
    assert start.saved != [];
    hide RunAll, Inv, OnceEach, Revisions, SpentAfter, Begin, Fresh;
    if actions == [] {
      NothingSpent(id, budget, now);
    } else {
      var before, last := actions[..|actions| - 1], actions[|actions| - 1];
      assert actions == before + [last];
      OnceEachPrefix(start, before, last);
      RunKeepsSpent(id, budget, now, before);
      InterleavingTheorem(id, budget, now, before);
      SpentOneMore(start, before, last);
    }
  }

  /** If no two advances are computed from one revision, the calls really made stay within the tool
      budget, whoever cancels or crashes. */
  lemma OnceEachWithinBudget(id: string, budget: Budget, now: int, actions: seq<Action>)
    requires budget.Valid() && OnceEach(Revisions(Begin(id, budget, now), actions))
    ensures CallsMade(Begin(id, budget, now), actions) <= budget.maxToolCalls
  {
    RunKeepsSpent(id, budget, now, actions);
    FirstIsKept(Begin(id, budget, now), actions);
  }

  // ----- two advances from one revision

  /** Two workers that read the same state both make its calls, though only one of them saves. */
  lemma LosersCallToo(sys: System, env: Env)
    requires sys.saved != [] && !sys.Stored().Terminal() && sys.Where(0) == Idle && sys.Where(1) == Idle
    ensures var actions := [Read(0), Read(1)] + [ComputeAdvance(0, env)] + [ComputeAdvance(1, env)] + [Save(0)]
        + [Save(1)];
      && CallsMade(sys, actions) == 2 * |Advance(sys.Stored(), env).entries|
      && |RunAll(sys, actions).saved| == |sys.saved| + 1
  {
    hide Advance, RunAll, CallsMade, AdvancesComputed;
    var s, step := sys.Stored(), Advance(sys.Stored(), env);
    AdvanceKeepsIdentity(s, env);
    var start := [Read(0), Read(1)];
    BothRead(sys);
    var computed := start + [ComputeAdvance(0, env)] + [ComputeAdvance(1, env)];
    OneMore(sys, start, ComputeAdvance(0, env));
    OneMore(sys, start + [ComputeAdvance(0, env)], ComputeAdvance(1, env));
    OneMore(sys, computed, Save(0));
    OneMore(sys, computed + [Save(0)], Save(1));
    var both := RunAll(sys, start).Move(0, Saving(s, step)).Move(1, Saving(s, step));
    assert RunAll(sys, computed) == both;
    OnlyOneSaves(both, s, step);
  }

  lemma OnlyOneSaves(both: System, s: State, step: Step)
    requires both.saved != [] && both.Stored() == s && step.next.revision == s.revision + 1
    requires both.Where(0) == Saving(s, step) && both.Where(1) == Saving(s, step)
    ensures Act(Act(both, Save(0)), Save(1)).saved == both.saved + [step.next]
  {
    var saved := Act(both, Save(0));
    assert saved.saved == both.saved + [step.next] && saved.Where(1) == Saving(s, step);
    assert !SaveSucceeds(saved.Stored(), s, step);
  }

  lemma ReadDoes(sys: System, actor: nat)
    requires sys.saved != [] && !sys.Stored().Terminal() && sys.Where(actor) == Idle
    ensures Act(sys, Read(actor)) == sys.Move(actor, Holding(sys.Stored())) && CallsOfAction(sys, Read(actor)) == 0
  {
  }

  lemma BothRead(sys: System)
    requires sys.saved != [] && !sys.Stored().Terminal() && sys.Where(0) == Idle && sys.Where(1) == Idle
    ensures RunAll(sys, [Read(0), Read(1)]) == sys.Move(0, Holding(sys.Stored())).Move(1, Holding(sys.Stored()))
    ensures CallsMade(sys, [Read(0), Read(1)]) == 0
  {
    OneMore(sys, [], Read(0));
    OneMore(sys, [Read(0)], Read(1));
    assert RunAll(sys, []) == sys && CallsMade(sys, []) == 0;
    hide RunAll, CallsMade, AdvancesComputed, Act, CallsOfAction, Computes;
    ReadDoes(sys, 0);
    ReadDoes(sys.Move(0, Holding(sys.Stored())), 1);
    assert [] + [Read(0)] == [Read(0)] && [Read(0)] + [Read(1)] == [Read(0), Read(1)];
  }

  // ----- a run that exceeds the budget

  lemma {:induction false} CallsConcat(start: System, a: seq<Action>, b: seq<Action>)
    requires start.saved != []
    ensures RunAll(start, a + b) == RunAll(RunAll(start, a), b)
    ensures CallsMade(start, a + b) == CallsMade(start, a) + CallsMade(RunAll(start, a), b)
  {
    hide Act, CallsOfAction;
    if b == [] {
      assert a + b == a;
    } else {
      CallsConcat(start, a, b[..|b| - 1]);
      assert (a + b)[..|a + b| - 1] == a + b[..|b| - 1];
    }
  }

  /** One tool call is allowed, and one retrieval is planned. */
  const TIGHT: Budget := Budget(9, 1000, 100, 1, 9)
  const QUEUED: State := Start("i", TIGHT, 0)
  const PLANNING: Env := Env(0, 0, Planned(Plan(["q"], [], []), 1, 0), [], VerifyRaised, ReportRaised, 0, 0, 0)
  const CALLING: Env :=
    Env(0, 0, PlanRaised, [ToolReply(0, 0, 0, Returned([]))], VerifyRaised, ReportRaised, 0, 0, 0)

  /** The plan is made and saved; then two workers read that state and both make its call. */
  const PLAN_FIRST: seq<Action> := [Read(0)] + [ComputeAdvance(0, PLANNING)] + [Save(0)]
  const THEN_BOTH: seq<Action> :=
    [Read(0), Read(1)] + [ComputeAdvance(0, CALLING)] + [ComputeAdvance(1, CALLING)] + [Save(0)] + [Save(1)]

  /** The condition is needed: two advances from one revision make two calls where one is allowed. */
  lemma LosersExceedBudget()
    ensures var start := Begin("i", TIGHT, 0);
      TIGHT.Valid() && CallsMade(start, PLAN_FIRST + THEN_BOTH) == 2 > TIGHT.maxToolCalls
  {
    var start := Begin("i", TIGHT, 0);
    PlanIsSaved();
    RetrievalIsCalled();
    hide Advance, Start;
    CallsConcat(start, PLAN_FIRST, THEN_BOTH);
    LosersCallToo(RunAll(start, PLAN_FIRST), CALLING);
  }

  lemma PlanningCallsNothing()
    ensures Advance(QUEUED, PLANNING).entries == [] && !QUEUED.Terminal()
  {
  }

  lemma PlanIsSaved()
    ensures var start := Begin("i", TIGHT, 0);
      var sys := RunAll(start, PLAN_FIRST);
      && CallsMade(start, PLAN_FIRST) == 0
      && sys.Stored() == Advance(QUEUED, PLANNING).next && sys.Where(0) == Idle && sys.Where(1) == Idle
  {
    var start, step := Begin("i", TIGHT, 0), Advance(QUEUED, PLANNING);
    PlanningCallsNothing();
    AdvanceKeepsIdentity(QUEUED, PLANNING);
    hide Advance;
    OneMore(start, [], Read(0));
    OneMore(start, [Read(0)], ComputeAdvance(0, PLANNING));
    OneMore(start, [Read(0)] + [ComputeAdvance(0, PLANNING)], Save(0));
    assert [] + [Read(0)] == [Read(0)] && RunAll(start, []) == start && CallsMade(start, []) == 0;
    hide RunAll, CallsMade, AdvancesComputed;
    assert start.Stored() == QUEUED;
    var holding := RunAll(start, [Read(0)]);
    assert holding == start.Move(0, Holding(QUEUED));
    var saving := RunAll(start, [Read(0)] + [ComputeAdvance(0, PLANNING)]);
    assert saving == holding.Move(0, Saving(QUEUED, step));
  }

  lemma RetrievalIsCalled()
    ensures var planned := Advance(QUEUED, PLANNING).next;
      !planned.Terminal() && |Advance(planned, CALLING).entries| == 1
  {
    var planned := Advance(QUEUED, PLANNING).next;
    assert planned.plan == Some(Plan(["q"], [], [])) && planned.node == Retrieving;
    var calls := RetrieveCalls(planned.plan.value);
    assert calls == [Call(Retrieve, "q")] && calls[1..] == [];
    var stepped := planned.(steps := planned.steps + 1);
    assert CallAllowed(stepped, Retrieve);
    assert |CallAll(stepped, calls, CALLING, 0).entries| == 1;
  }
}
