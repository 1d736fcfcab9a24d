/** The worker over the job table, one delivery at a time, and any mix of duplicate, failing
    and crashing deliveries (src/grounded_ops/worker.py). */
module Worker {
  import opened Wrappers
  import opened Ingestion

  datatype JobKey = JobKey(tenant: string, id: string)

  /** The job table, updated in place. */
  class IngestionRepository {
    var rows: map<JobKey, Row>

    constructor ()
      ensures rows == map[]
    {
      rows := map[];
    }

    /** `INSERT ... ON CONFLICT DO NOTHING`: submitting a job again changes nothing. */
    method Submit(key: JobKey)
      modifies this
      ensures rows == if key in old(rows) then old(rows) else old(rows)[key := Row(Job(Queued, 0, None, None), 0, 0)]
    {
      if key !in rows {
        rows := rows[key := Row(Job(Queued, 0, None, None), 0, 0)];
      }
    }

    method ClaimDelivery(key: JobKey) returns (deliveries: Option<nat>)
      modifies this
      ensures deliveries.Some? <==> key in old(rows) && !old(rows[key]).job.Terminal()
      ensures deliveries.Some? ==>
        && deliveries.value == old(rows[key]).deliveries + 1
        && rows == old(rows)[key := old(rows[key]).(deliveries := deliveries.value)]
      ensures deliveries.None? ==> rows == old(rows)
    {
      if key !in rows || rows[key].job.Terminal() {
        return None;
      }
      rows := rows[key := rows[key].(deliveries := rows[key].deliveries + 1)];
      deliveries := Some(rows[key].deliveries);
    }

    method FailLostDelivery(key: JobKey)
      modifies this
      ensures rows ==
        if key in old(rows) && !old(rows[key]).job.Terminal()
        then old(rows)[key := old(rows[key]).(job := old(rows[key]).job.(state := Failed,
          error := Some("worker_lost"), resumeFrom := None))]
        else old(rows)
    {
      if key in rows && !rows[key].job.Terminal() {
        rows := rows[key := rows[key].(job := rows[key].job.(state := Failed, error := Some("worker_lost"),
          resumeFrom := None))];
      }
    }

    method RecordWorkerError(key: JobKey, maximum: nat)
      modifies this
      ensures rows == if key in old(rows) then old(rows)[key := RecordError(old(rows[key]), maximum)] else old(rows)
    {
      if key in rows {
        rows := rows[key := RecordError(rows[key], maximum)];
      }
    }

    /** Unconditional: whoever saves must have the row to itself. */
    method SaveJob(key: JobKey, job: Job) returns (r: Result<Job, Fault>)
      modifies this
      ensures r.Ok? <==> key in old(rows)
      ensures r.Ok? ==> r.value == job && rows == old(rows)[key := old(rows[key]).(job := job)]
      ensures r.Err? ==> r.error == Exception && rows == old(rows)
    {
      if key !in rows {
        return Err(Exception);
      }
      rows := rows[key := rows[key].(job := job)];
      r := Ok(job);
    }

    method Promote(key: JobKey)
      requires key in rows
      modifies this
      ensures rows == old(rows)[key := old(rows[key]).(promotions := old(rows[key]).promotions + 1)]
    {
      rows := rows[key := rows[key].(promotions := rows[key].promotions + 1)];
    }
  }

  /** `_failed_attempt` */
  method FailedAttemptInPlace(repository: IngestionRepository, key: JobKey, job: Job, failure: StageFailure,
                              maxAttempts: nat)
    returns (r: Result<Job, Fault>)
    requires key in repository.rows
    modifies repository
    ensures r == FailedAttempt(job, failure, maxAttempts)
    ensures r.Ok? ==> repository.rows == old(repository.rows)[key := old(repository.rows[key]).(job := r.value)]
    ensures key in repository.rows
  {
    var retrying := Transition(job, Retrying);
    if retrying.Err? {
      return retrying;
    }
    var next := retrying.value.(attempts := job.attempts + 1, error := Some(ErrorClass(failure)),
                                resumeFrom := Some(job.state));
    if next.attempts >= maxAttempts {
      var failed := Transition(next, Failed);
      if failed.Err? {
        return failed;
      }
      next := failed.value;
    }
    r := repository.SaveJob(key, next);
  }

  /** What the work of a stage leaves, `next` being the state after it. */
  ghost predicate StageDone(before: Row, job: Job, outcome: StageOutcome, next: JobState, maxAttempts: nat,
                            ended: bool, r: Result<Job, Fault>, after: Row)
  {
    match outcome
    case Uncaught => ended && r == Err(Exception)
    case Caught(failure) =>
      ended && r == FailedAttempt(job, failure, maxAttempts) && (r.Ok? ==> after == before.(job := r.value))
    case Fine =>
      && !ended && r == Transition(job, next) && r.Ok?
      && after == before.(job := r.value, promotions := before.promotions + if next == Completed then 1 else 0)
  }

  /** One stage: its work, the promotion if it is the last, and the saved job. */
  method RunStage(repository: IngestionRepository, key: JobKey, job: Job, outcome: StageOutcome, next: JobState,
                  maxAttempts: nat)
    returns (ended: bool, r: Result<Job, Fault>)
    requires key in repository.rows && next in Permitted(job.state)
    modifies repository
    ensures key in repository.rows
    ensures r.Ok? ==> repository.rows == old(repository.rows)[key := repository.rows[key]]
    ensures StageDone(old(repository.rows[key]), job, outcome, next, maxAttempts, ended, r, repository.rows[key])
  {
    match outcome {
      case Uncaught => return true, Err(Exception);
      case Caught(failure) =>
        r := FailedAttemptInPlace(repository, key, job, failure, maxAttempts);
        return true, r;
      case Fine =>
        if next == Completed {
          repository.Promote(key);
        }
        r := repository.SaveJob(key, Transition(job, next).value);
        ended := false;
    }
  }

  /** The stages of `_continue` from the one the job stands at, saved one by one. */
  method RunStagesInPlace(repository: IngestionRepository, key: JobKey, entered: Job, env: Env, maxAttempts: nat)
    returns (r: Result<Job, Fault>)
    requires key in repository.rows && repository.rows[key].job == entered
    modifies repository
    ensures match RunStages(entered, env, maxAttempts)
            case Err(fault) => r == Err(fault)
            case Ok((after, promoted)) =>
              && r == Ok(after)
              && repository.rows == old(repository.rows)[key := Committed(old(repository.rows[key]), (after, promoted))]
  {
    hide FailedAttempt;
    var job, ended := entered, false;
    if job.state == Fetching {
      ended, r := RunStage(repository, key, job, env.fetching, Parsing, maxAttempts);
      if ended {
        return;
      }
      job := r.value;
    }
    assert RunStages(entered, env, maxAttempts) == RunStages(job, env, maxAttempts);
    if job.state == Parsing {
      ended, r := RunStage(repository, key, job, env.parsing, Indexing, maxAttempts);
      if ended {
        return;
      }
      job := r.value;
    }
    assert RunStages(entered, env, maxAttempts) == RunStages(job, env, maxAttempts);
    if job.state == Indexing {
      ended, r := RunStage(repository, key, job, env.indexing, Completed, maxAttempts);
      if ended {
        return;
      }
      job := r.value;
    }
    r := Ok(job);
  }

  /** `_resume` and `_continue`: the job is rebound and saved stage by stage. */
  method Resume(repository: IngestionRepository, key: JobKey, env: Env, maxAttempts: nat)
    returns (r: Result<Job, Fault>)
    requires key in repository.rows
    modifies repository
    ensures match RunPipeline(old(repository.rows[key]).job, env, maxAttempts)
            case Err(fault) => r == Err(fault)
            case Ok(done) =>
              r == Ok(done.0) && repository.rows
                == old(repository.rows)[key := Committed(old(repository.rows[key]), done)]
  {
    hide RunStages;
    var job := repository.rows[key].job;
    if !env.reached {
      return Err(Exception);
    }
    if job.Terminal() {
      return Ok(job);
    }
    var entered := Enter(job);
    if entered.Err? {
      return entered;
    }
    if job.state in {Queued, Retrying} {
      var _ := repository.SaveJob(key, entered.value);
    }
    r := RunStagesInPlace(repository, key, entered.value, env, maxAttempts);
  }

  // ----- one delivery

  datatype RunOutcome = Busy | UnknownJob | Reported(state: JobState)

  /** What one undisturbed delivery leaves in the row. */
  function Deliver(row: Row, env: Env): Row {
    var claimed := Claim(row);
    if claimed.job.Terminal() then claimed
    else match RunPipeline(claimed.job, env, MAX_DELIVERIES)
         case Ok(done) => Committed(claimed, done)
         case Err(_) => RecordError(claimed, MAX_DELIVERIES)
  }

  /** `run_job`: claim, run, and on any exception roll back and record the error. */
  method RunJob(repository: IngestionRepository, key: JobKey, lockFree: bool, env: Env) returns (outcome: RunOutcome)
    modifies repository
    ensures !lockFree ==> outcome == Busy && repository.rows == old(repository.rows)
    ensures lockFree && key !in old(repository.rows) ==>
        outcome == UnknownJob && repository.rows == old(repository.rows)
    ensures lockFree && key in old(repository.rows) ==>
      && repository.rows == old(repository.rows)[key := Deliver(old(repository.rows[key]), env)]
      && outcome == Reported(repository.rows[key].job.state)
  {
    if !lockFree {
      return Busy;
    }
    var deliveries := repository.ClaimDelivery(key);
    if deliveries == None {
      if key !in repository.rows {
        return UnknownJob;
      }
      return Reported(repository.rows[key].job.state);
    }
    if deliveries.value > MAX_DELIVERIES {
      repository.FailLostDelivery(key);
      return Reported(Failed);
    }
    var savepoint := repository.rows;
    var resumed := Resume(repository, key, env, MAX_DELIVERIES);
    if resumed.Ok? {
      return Reported(resumed.value.state);
    }
    repository.rows := savepoint;
    repository.RecordWorkerError(key, MAX_DELIVERIES);
    outcome := Reported(repository.rows[key].job.state);
  }

  // ----- any mix of deliveries, with crashes between and inside transactions

  datatype Stage = Locked | Claimed | RunFailed

  /** One job's row, the worker holding its advisory lock, and the claims committed so far.
      A worker's connection that dies frees the lock and undoes its open transaction. */
  datatype Protocol = Protocol(row: Row, holder: Option<(nat, Stage)>, claims: nat)

  datatype Action =
    | Acquire(worker: nat)
    | CommitClaim(worker: nat)
    | CommitRun(worker: nat, env: Env)
    | CommitError(worker: nat)
    | Crash(worker: nat)
    | SubmitAgain

  function At(p: Protocol, worker: nat): Option<Stage> {
    if p.holder.Some? && p.holder.value.0 == worker then Some(p.holder.value.1) else None
  }

  function Act(p: Protocol, action: Action): Protocol {
    match action
    case Acquire(w) => if p.holder == None then p.(holder := Some((w, Locked))) else p
    case CommitClaim(w) =>
      if At(p, w) != Some(Locked) then p
      else if p.row.job.Terminal() then p.(holder := None)
      else
        var claimed := Claim(p.row);
        Protocol(claimed, if claimed.job.Terminal() then None else Some((w, Claimed)), p.claims + 1)
    case CommitRun(w, env) =>
      if At(p, w) != Some(Claimed) then p
      else (match RunPipeline(p.row.job, env, MAX_DELIVERIES)
            case Ok(done) => p.(row := Committed(p.row, done), holder := None)
            case Err(_) => p.(holder := Some((w, RunFailed))))
    case CommitError(w) =>
      if At(p, w) != Some(RunFailed) then p
      else p.(row := RecordError(p.row, MAX_DELIVERIES), holder := None)
    case Crash(w) => if At(p, w).Some? then p.(holder := None) else p
    case SubmitAgain => p
  }

  function RunAll(p: Protocol, actions: seq<Action>): Protocol {
    if actions == [] then p
    else Act(RunAll(p, actions[..|actions| - 1]), actions[|actions| - 1])
  }

  const FRESH := Protocol(Row(Job(Queued, 0, None, None), 0, 0), None, 0)

  ghost predicate Inv(p: Protocol) {
    && RowInv(p.row)
    && p.claims == p.row.deliveries
    && (p.holder.Some? && p.holder.value.1 != Locked ==> ClaimedInv(p.row))
  }

  lemma ActKeepsInv(p: Protocol, action: Action)
    requires Inv(p)
    ensures Inv(Act(p, action))
    ensures p.row.job.Terminal() ==> Act(p, action).row == p.row
    ensures p.claims <= Act(p, action).claims
  {
    ClaimKeeps(p.row);
    if ClaimedInv(p.row) {
      RecordErrorKeeps(p.row);
      if action.CommitRun? {
        RunKeeps(p.row, action.env);
      }
    }
  }

  /** Whatever is delivered, in whatever order, and wherever workers die: every committed row
      satisfies `RowInv`; at most MAX_DELIVERIES + 1 claims ever commit; and once that many
      have, the job is terminal. */
  lemma {:induction false} DeliveriesTheorem(actions: seq<Action>)
    ensures var p := RunAll(FRESH, actions);
      && Inv(p)
      && p.claims <= MAX_DELIVERIES + 1
      && (p.claims == MAX_DELIVERIES + 1 ==> p.row.job.Terminal())
  {
    if actions != [] {
      DeliveriesTheorem(actions[..|actions| - 1]);
      ActKeepsInv(RunAll(FRESH, actions[..|actions| - 1]), actions[|actions| - 1]);
    }
  }

  // ----- the stages done

  /** The stages that an action ends well and commits. */
  function Ends(p: Protocol, action: Action): seq<JobState> {
    if action.CommitRun? && At(p, action.worker) == Some(Claimed)
       && RunPipeline(p.row.job, action.env, MAX_DELIVERIES).Ok?
    then FineFrom(StageEntered(p.row.job), action.env) else []
  }

  /** Those of all committed runs so far, in order. */
  function Done(actions: seq<Action>): seq<JobState> {
    if actions == [] then []
    else
      var before, last := actions[..|actions| - 1], actions[|actions| - 1];
      Done(before) + Ends(RunAll(FRESH, before), last)
  }

  /** Whatever is delivered and wherever workers die: a job is completed exactly if its fetching, parsing
      and indexing ended well in committed runs, each once and in this order; and a retrying job goes on
      with the first stage that has not. */
  lemma {:induction false} StagesTheorem(actions: seq<Action>)
    ensures StandsAfter(RunAll(FRESH, actions).row.job, Done(actions))
    ensures RunAll(FRESH, actions).row.job.state == Completed <==> Done(actions) == [Fetching, Parsing, Indexing]
  {
    if actions != [] {
      var before, last := actions[..|actions| - 1], actions[|actions| - 1];
      StagesTheorem(before);
      DeliveriesTheorem(before);
      ActStandsAfter(RunAll(FRESH, before), last, Done(before));
    }
    DeliveriesTheorem(actions);
    hide RunAll, Done;
    assert forall k :: 0 <= k < 3 ==> STAGES[..k] != STAGES;
  }

  lemma ActStandsAfter(p: Protocol, action: Action, done: seq<JobState>)
    requires Inv(p) && StandsAfter(p.row.job, done)
    ensures StandsAfter(Act(p, action).row.job, done + Ends(p, action))
  {
    assert done + [] == done;
    if p.holder.Some? && p.holder.value.1 != Locked {
      ErrorStandsAfter(p.row, done);
      if action.CommitRun? && RunPipeline(p.row.job, action.env, MAX_DELIVERIES).Ok? {
        RunStandsAfter(p.row, action.env, done);
      }
      hide RunPipeline, FineFrom, RecordError;
    }
  }

  /** A failed job can keep a checkpoint: three deliveries whose runs all raise leave one. */
  lemma FailedWithCheckpoint(env: Env)
    requires !env.reached
    ensures var once := [Acquire(0), CommitClaim(0), CommitRun(0, env), CommitError(0)];
      RunAll(FRESH, once + once + once).row ==
        Row(Job(Failed, 3, Some("worker_internal"), Some(Fetching)), 3, 0)
  {
    var once := [Acquire(0), CommitClaim(0), CommitRun(0, env), CommitError(0)];
    RunAllConcat(FRESH, once, once);
    RunAllConcat(FRESH, once + once, once);
    var first := RunAll(FRESH, once);
    var second := RunAll(first, once);
    DeliveriesTheorem(once);
    DeliveriesTheorem(once + once);
    DeliverIsFourActions(FRESH, 0, env);
    DeliverIsFourActions(first, 0, env);
    DeliverIsFourActions(second, 0, env);
    hide RunAll;
    assert first.row == Row(Job(Retrying, 1, Some("worker_internal"), Some(Fetching)), 1, 0);
    assert second.row == Row(Job(Retrying, 2, Some("worker_internal"), Some(Fetching)), 2, 0);
  }

  lemma {:induction false} RunAllConcat(p: Protocol, a: seq<Action>, b: seq<Action>)
    ensures RunAll(p, a + b) == RunAll(RunAll(p, a), b)
  {
    if b == [] {
      assert a + b == a;
    } else {
      RunAllConcat(p, a, b[..|b| - 1]);
      assert (a + b)[..|a + b| - 1] == a + b[..|b| - 1];
    }
  }

  function WorkerOf(action: Action): Option<nat> {
    match action
    case Acquire(w) => Some(w)
    case CommitClaim(w) => Some(w)
    case CommitRun(w, _) => Some(w)
    case CommitError(w) => Some(w)
    case Crash(w) => Some(w)
    case SubmitAgain => None
  }

  /** While a worker holds the lock nobody else changes anything; a free lock goes to whoever asks first,
      and nobody changes the row without it; a worker that dies frees it and leaves the row as committed. */
  lemma OnlyHolderActs(p: Protocol, action: Action)
    ensures p.holder.Some? && WorkerOf(action) != Some(p.holder.value.0) ==> Act(p, action) == p
    ensures p.holder == None ==>
      Act(p, action) == if action.Acquire? then p.(holder := Some((action.worker, Locked))) else p
    ensures p.holder.Some? && action == Crash(p.holder.value.0) ==> Act(p, action) == p.(holder := None)
  {
  }

  /** A completed or failed row is never changed again. */
  lemma {:induction false} TerminalIsFinal(p: Protocol, actions: seq<Action>)
    requires Inv(p) && p.row.job.Terminal()
    ensures Inv(RunAll(p, actions)) && RunAll(p, actions).row == p.row
  {
    if actions != [] {
      TerminalIsFinal(p, actions[..|actions| - 1]);
      ActKeepsInv(RunAll(p, actions[..|actions| - 1]), actions[|actions| - 1]);
    }
  }

  /** No run that a reachable state can commit or roll back attempts an illegal transition. */
  lemma NoIllegalTransition(actions: seq<Action>, worker: nat, env: Env)
    requires At(RunAll(FRESH, actions), worker) == Some(Claimed)
    ensures !(RunPipeline(RunAll(FRESH, actions).row.job, env, MAX_DELIVERIES).Err?
              && RunPipeline(RunAll(FRESH, actions).row.job, env, MAX_DELIVERIES).error.InvalidTransition?)
  {
    DeliveriesTheorem(actions);
    RunKeeps(RunAll(FRESH, actions).row, env);
  }

  /** An undisturbed delivery is the protocol's acquire, claim, run and, if need be, error steps. */
  lemma DeliverIsFourActions(p: Protocol, worker: nat, env: Env)
    requires Inv(p) && p.holder == None
    ensures var actions := [Acquire(worker), CommitClaim(worker), CommitRun(worker, env), CommitError(worker)];
      RunAll(p, actions).row == Deliver(p.row, env) && RunAll(p, actions).holder == None
  {
    var actions := [Acquire(worker), CommitClaim(worker), CommitRun(worker, env), CommitError(worker)];
    assert actions[..3][..2] == actions[..2] && actions[..2][..1] == actions[..1] && actions[..1][..0] == [];
    assert RunAll(p, actions[..1]) == Act(p, actions[0]);
    assert RunAll(p, actions[..2]) == Act(RunAll(p, actions[..1]), actions[1]);
    assert RunAll(p, actions[..3]) == Act(RunAll(p, actions[..2]), actions[2]);
  }
}
