/** Workers advancing and users cancelling one investigation at the same time: every read,
    computation and save is a separate step, in any order
    (src/modules/investigation/workflow.py, src/adapters/postgres/investigation_store.py). */
module Interleaving {
  import opened Wrappers
  import opened Investigation
  import opened StopReasons

  /** Where an actor is: not busy, holding a state it read, or about to save a step. */
  datatype Actor = Idle | Holding(read: State) | Saving(read: State, step: Step)

  datatype Action =
    | Read(actor: nat)
    | ComputeAdvance(actor: nat, env: Env)
    | ComputeCancel(actor: nat, finishedAt: int, updatedAt: int)
    | Save(actor: nat)
    | Crash(actor: nat)

  /** `saved` is every state the store has held, oldest first; `from` the revisions the
      successful saves succeeded from; `past` the calls of the saved steps. */
  datatype System = System(saved: seq<State>, from: seq<nat>, past: History, actors: map<nat, Actor>) {
    function Stored(): State
      requires saved != []
    {
      saved[|saved| - 1]
    }

    function Where(actor: nat): Actor {
      if actor in actors then actors[actor] else Idle
    }

    function Move(actor: nat, to: Actor): System {
      this.(actors := actors[actor := to])
    }
  }

  /** The stored revision is still the one the step was computed from. */
  predicate SaveSucceeds(stored: State, read: State, step: Step) {
    stored.revision == read.revision && step.next.revision == read.revision + 1
  }

  function Act(sys: System, action: Action): System
    requires sys.saved != []
  {
    match action
    case Read(a) =>
      if sys.Where(a) == Idle && !sys.Stored().Terminal() then sys.Move(a, Holding(sys.Stored())) else sys
    case ComputeAdvance(a, env) =>
      if sys.Where(a).Holding? then sys.Move(a, Saving(sys.Where(a).read, Advance(sys.Where(a).read, env))) else sys
    case ComputeCancel(a, finishedAt, updatedAt) =>
      if sys.Where(a).Holding?
      then sys.Move(a, Saving(sys.Where(a).read, CancelStep(sys.Where(a).read, finishedAt, updatedAt))) else sys
    case Save(a) =>
      if !sys.Where(a).Saving? then sys
      else
        var Saving(read, step) := sys.Where(a);
        if SaveSucceeds(sys.Stored(), read, step)
        then sys.Move(a, Idle).(saved := sys.saved + [step.next], from := sys.from + [read.revision],
          past := sys.past.After(step))
        else sys.Move(a, Idle)
    case Crash(a) => sys.Move(a, Idle)
  }

  function RunAll(sys: System, actions: seq<Action>): (r: System)
    requires sys.saved != []
    ensures r.saved != []
  {
    if actions == [] then sys
    else Act(RunAll(sys, actions[..|actions| - 1]), actions[|actions| - 1])
  }

  function Begin(id: string, budget: Budget, now: int): System {
    System([Start(id, budget, now)], [], BLANK, map[])
  }

  // ----- the history is linear

  /** One advance or one cancellation of a state that was not terminal. */
  ghost predicate LegalStep(s: State, t: State) {
    && !s.Terminal()
    && ((exists env :: t == Advance(s, env).next)
        || exists finishedAt, updatedAt :: t == CancelStep(s, finishedAt, updatedAt).next)
  }

  /** Each saved state is a legal single step from the one before it and has the next revision;
      nothing follows a terminal state; the k-th save succeeded from revision k. */
  ghost predicate Linear(sys: System) {
    && sys.saved != []
    && (forall k :: 0 <= k < |sys.saved| ==> sys.saved[k].revision == k)
    && (forall k :: 0 < k < |sys.saved| ==> LegalStep(sys.saved[k - 1], sys.saved[k]))
    && (forall k :: 0 <= k < |sys.saved| - 1 ==> !sys.saved[k].Terminal())
    && |sys.from| == |sys.saved| - 1
    && (forall k :: 0 <= k < |sys.from| ==> sys.from[k] == k)
  }

  /** An actor holds a state that was really saved, and computes legal steps from it. */
  ghost predicate Honest(saved: seq<State>, a: Actor) {
    match a
    case Idle => true
    case Holding(read) => read in saved && !read.Terminal()
    case Saving(read, step) =>
      && read in saved && !read.Terminal()
      && step.next.revision == read.revision + 1 && LegalStep(read, step.next)
      && ((exists env :: step == Advance(read, env)) || exists f, u :: step == CancelStep(read, f, u))
  }

  ghost predicate Inv(sys: System) {
    && Linear(sys)
    && Sound(sys.Stored(), sys.past)
    && |sys.saved| + Rank(sys.Stored().node) <= 6
    && forall a :: a in sys.actors ==> Honest(sys.saved, sys.actors[a])
  }

  lemma StepSound(s: State, h: History, step: Step)
    requires Sound(s, h) && !s.Terminal()
    requires (exists env :: step == Advance(s, env)) || exists f, u :: step == CancelStep(s, f, u)
    ensures Sound(step.next, h.After(step)) && Rank(step.next.node) < Rank(s.node)
  {
    hide Advance;
    if env :| step == Advance(s, env) {
      AdvanceSound(s, h, env);
    } else {
      var f, u :| step == CancelStep(s, f, u);
      CancelSound(s, h, f, u);
    }
  }

  lemma ActKeepsInv(sys: System, action: Action)
    requires Inv(sys)
    ensures Inv(Act(sys, action))
  {
    hide Sound, Advance;
    match action
    case Read(a) =>
    case ComputeAdvance(a, env) =>
      if sys.Where(a).Holding? {
        AdvanceKeepsIdentity(sys.Where(a).read, env);
      }
    case ComputeCancel(a, finishedAt, updatedAt) =>
    case Save(a) =>
      if sys.Where(a).Saving? && SaveSucceeds(sys.Stored(), sys.Where(a).read, sys.Where(a).step) {
        StepSound(sys.Stored(), sys.past, sys.Where(a).step);
      }
    case Crash(a) =>
  }

  /** Under every interleaving the saved states form one linear history, and the latest of
      them satisfies the workflow invariant for the calls of the saved steps. */
  lemma {:induction false} InterleavingTheorem(id: string, budget: Budget, now: int, actions: seq<Action>)
    requires budget.Valid()
    ensures Inv(RunAll(Begin(id, budget, now), actions))
  {
    if actions == [] {
      StartSound(id, budget, now);
    } else {
      InterleavingTheorem(id, budget, now, actions[..|actions| - 1]);
      ActKeepsInv(RunAll(Begin(id, budget, now), actions[..|actions| - 1]), actions[|actions| - 1]);
    }
  }

  /** Also what the latest state records, its steps, tokens, plan, summary and reason, is what the nodes of
      the saved steps reported. */
  lemma {:induction false} RecordIsOfSaved(id: string, budget: Budget, now: int, actions: seq<Action>)
    requires budget.Valid()
    ensures var sys := RunAll(Begin(id, budget, now), actions); Logged(sys.Stored(), sys.past)
  {
    if actions == [] {
      StartLogged(id, budget, now);
    } else {
      var before := actions[..|actions| - 1];
      RecordIsOfSaved(id, budget, now, before);
      InterleavingTheorem(id, budget, now, before);
      ActKeepsRecord(RunAll(Begin(id, budget, now), before), actions[|actions| - 1]);
    }
  }

  lemma ActKeepsRecord(sys: System, action: Action)
    requires Inv(sys) && Logged(sys.Stored(), sys.past)
    ensures Logged(Act(sys, action).Stored(), Act(sys, action).past)
  {
    if action.Save? && sys.Where(action.actor).Saving? {
      var Saving(read, step) := sys.Where(action.actor);
      if SaveSucceeds(sys.Stored(), read, step) {
        StoresAgree(sys, action.actor);
        assert Honest(sys.saved, sys.actors[action.actor]);
        hide Sound, Logged, Advance, Linear;
        if env :| step == Advance(read, env) {
          AdvanceLogged(read, sys.past, env);
        } else {
          var f, u :| step == CancelStep(read, f, u);
          OpenHasNoReason(read, sys.past);
          CancelLogged(read, sys.past, f, u);
        }
      }
    } else {
      hide Inv, Logged;
    }
  }

  lemma OpenHasNoReason(s: State, h: History)
    requires Sound(s, h) && !s.Terminal()
    ensures s.stop == None
  {
  }

  lemma FinalStep(sys: System, action: Action)
    requires Inv(sys) && sys.Stored().Terminal()
    ensures Act(sys, action).saved == sys.saved
  {
  }

  /** A terminal state is never replaced, whoever still holds an older one. */
  lemma {:induction false} TerminalIsFinal(sys: System, actions: seq<Action>)
    requires Inv(sys) && sys.Stored().Terminal()
    ensures RunAll(sys, actions).saved == sys.saved && Inv(RunAll(sys, actions))
  {
    if actions != [] {
      TerminalIsFinal(sys, actions[..|actions| - 1]);
      var before := RunAll(sys, actions[..|actions| - 1]);
      ActKeepsInv(before, actions[|actions| - 1]);
      assert before.Stored() == sys.Stored();
      FinalStep(before, actions[|actions| - 1]);
      hide Inv, Act;
    }
  }

  /** The PostgreSQL store compares only the stored revision; the in-memory store also checks
      the new one. For steps the workflow computes, the two decide alike. */
  lemma StoresAgree(sys: System, a: nat)
    requires Inv(sys) && sys.Where(a).Saving?
    ensures SaveSucceeds(sys.Stored(), sys.Where(a).read, sys.Where(a).step)
      <==> sys.Stored().revision == sys.Where(a).read.revision
    ensures SaveSucceeds(sys.Stored(), sys.Where(a).read, sys.Where(a).step) ==> sys.Stored() == sys.Where(a).read
  {
  }

  /** At most five saves ever succeed. */
  lemma AtMostFiveSaves(id: string, budget: Budget, now: int, actions: seq<Action>)
    requires budget.Valid()
    ensures |RunAll(Begin(id, budget, now), actions).from| <= 5
  {
    InterleavingTheorem(id, budget, now, actions);
  }
}
