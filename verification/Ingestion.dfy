/** The ingestion job: its lifecycle, the staged pipeline and the worker's transactions
    (src/domain/ingestion.py, src/modules/ingestion/pipeline.py,
    src/adapters/postgres/ingestion_repository.py, src/grounded_ops/worker.py). */
module Ingestion {
  import opened Wrappers

  const MAX_DELIVERIES: nat := 3

  datatype JobState = Queued | Fetching | Parsing | Indexing | Completed | Retrying | Failed

  datatype Job = Job(state: JobState, attempts: nat, error: Option<string>, resumeFrom: Option<JobState>) {
    predicate Terminal() {
      state in {Completed, Failed}
    }
  }

  /** A job row, with the number of committed promotions of its version. */
  datatype Row = Row(job: Job, deliveries: nat, promotions: nat)

  // ----- lifecycle

  function Permitted(from: JobState): set<JobState> {
    match from
    case Queued => {Fetching}
    case Fetching => {Parsing, Retrying}
    case Parsing => {Indexing, Retrying}
    case Indexing => {Completed, Retrying}
    case Retrying => {Fetching, Parsing, Indexing, Failed}
    case Completed => {}
    case Failed => {}
  }

  datatype Fault = InvalidTransition(from: JobState, to: JobState) | Exception

  function Transition(job: Job, target: JobState): Result<Job, Fault> {
    if target !in Permitted(job.state) then Err(InvalidTransition(job.state, target))
    else Ok(job.(state := target, resumeFrom := if job.state == Retrying then None else job.resumeFrom))
  }

  // ----- the pipeline

  /** The failures that `_continue` catches. */
  datatype StageFailure = ArtifactFailure | ParserInput | IndexPreparation

  function ErrorClass(failure: StageFailure): string {
    match failure
    case ArtifactFailure => "artifact"
    case ParserInput => "parser_input"
    case IndexPreparation => "index_preparation"
  }

  /** How the work of a stage ends: well, with a caught failure, or with any other exception. */
  datatype StageOutcome = Fine | Caught(failure: StageFailure) | Uncaught

  /** One run of the pipeline: whether it gets as far as the job, and how its stages end. */
  datatype Env = Env(reached: bool, fetching: StageOutcome, parsing: StageOutcome, indexing: StageOutcome) {
    function At(stage: JobState): StageOutcome {
      match stage
      case Fetching => fetching
      case Parsing => parsing
      case _ => indexing
    }
  }

  /** What a run leaves to be committed, or the exception that rolls it back. */
  type RunResult = Result<(Job, nat), Fault>

  function FailedAttempt(job: Job, failure: StageFailure, maxAttempts: nat): Result<Job, Fault> {
    match Transition(job, Retrying)
    case Err(fault) => Err(fault)
    case Ok(retrying) =>
      var counted := retrying.(attempts := job.attempts + 1, error := Some(ErrorClass(failure)),
                               resumeFrom := Some(job.state));
      if counted.attempts >= maxAttempts then Transition(counted, Failed) else Ok(counted)
  }

  /** The three stages from the one the job stands at. */
  function RunStages(job: Job, env: Env, maxAttempts: nat): RunResult
    decreases match job.state case Fetching => 2 case Parsing => 1 case _ => 0
  {
    if job.state !in {Fetching, Parsing, Indexing} then Ok((job, 0))
    else
      match env.At(job.state)
      case Uncaught => Err(Exception)
      case Caught(failure) =>
        (match FailedAttempt(job, failure, maxAttempts)
         case Ok(failed) => Ok((failed, 0))
         case Err(fault) => Err(fault))
      case Fine =>
        match Transition(job, match job.state case Fetching => Parsing case Parsing => Indexing case _ => Completed)
        case Err(fault) => Err(fault)
        case Ok(next) => if next.state == Completed then Ok((next, 1)) else RunStages(next, env, maxAttempts)
  }

  function Enter(job: Job): Result<Job, Fault> {
    match job.state
    case Queued => Transition(job, Fetching)
    case Retrying =>
      (if job.resumeFrom == None then Err(Exception)
       else match Transition(job, job.resumeFrom.value)
            case Ok(entered) => Ok(entered.(error := None))
            case Err(fault) => Err(fault))
    case _ => Ok(job)
  }

  function RunPipeline(job: Job, env: Env, maxAttempts: nat): RunResult {
    if !env.reached then Err(Exception)
    else if job.Terminal() then Ok((job, 0))
    else match Enter(job)
         case Err(fault) => Err(fault)
         case Ok(entered) => RunStages(entered, env, maxAttempts)
  }

  // ----- the worker's transactions on one row

  /** The first transaction: count the delivery, or give the job up. */
  function Claim(row: Row): Row {
    if row.job.Terminal() then row
    else
      var claimed := row.(deliveries := row.deliveries + 1);
      if claimed.deliveries > MAX_DELIVERIES
      then claimed.(job := claimed.job.(state := Failed, error := Some("worker_lost"), resumeFrom := None))
      else claimed
  }

  /** The second transaction, when it commits. */
  function Committed(row: Row, r: (Job, nat)): Row {
    row.(job := r.0, promotions := row.promotions + r.1)
  }

  /** The third transaction, after the second rolled back. */
  function RecordError(row: Row, maximum: nat): Row {
    if row.job.Terminal() then row
    else
      var job := row.job;
      row.(job := Job(if job.attempts + 1 >= maximum || row.deliveries >= maximum then Failed else Retrying,
                      job.attempts + 1, Some("worker_internal"),
                      match job.state
                      case Queued => Some(Fetching)
                      case Retrying => if job.resumeFrom.Some? then job.resumeFrom else Some(Fetching)
                      case other => Some(other)))
  }

  // ----- what every committed row satisfies

  ghost predicate IsCheckpoint(s: Option<JobState>) {
    s in {Some(Fetching), Some(Parsing), Some(Indexing)}
  }

  /** Committed rows are queued, retrying, completed or failed; a retrying job has a checkpoint
      and an attempt left; a live job has been claimed at most MAX_DELIVERIES times; the version
      was promoted exactly when the job completed, and then once. A terminal job has a checkpoint
      exactly if it failed with a worker error, and is lost exactly if one claim too many was made;
      retrying and failed jobs name an error, others none. */
  ghost predicate RowInv(row: Row) {
    && row.job.state in {Queued, Retrying, Completed, Failed}
    && (row.job.state == Queued ==> row.job.attempts == 0 && row.job.resumeFrom == None)
    && (row.job.state == Retrying ==> IsCheckpoint(row.job.resumeFrom) && row.job.attempts < MAX_DELIVERIES)
    && row.job.attempts <= row.deliveries
    && row.deliveries <= MAX_DELIVERIES + 1
    && (!row.job.Terminal() ==> row.deliveries <= MAX_DELIVERIES)
    && row.promotions == (if row.job.state == Completed then 1 else 0)
    && (row.job.state == Completed ==> row.job.resumeFrom == None)
    && (row.job.error.Some? <==> row.job.state in {Retrying, Failed})
    && (row.deliveries == MAX_DELIVERIES + 1 <==> row.job.state == Failed && row.job.error == Some("worker_lost"))
    && (row.job.state == Failed ==>
          (row.job.resumeFrom.Some? <==> row.job.error == Some("worker_internal")))
  }

  /** A row under a claim: its attempts are those of earlier deliveries. */
  ghost predicate ClaimedInv(row: Row) {
    RowInv(row) && !row.job.Terminal() && row.job.attempts < row.deliveries
  }

  lemma ClaimKeeps(row: Row)
    requires RowInv(row)
    ensures RowInv(Claim(row))
    ensures row.job.Terminal() ==> Claim(row) == row
    ensures !row.job.Terminal() ==> Claim(row).deliveries == row.deliveries + 1
    ensures !Claim(row).job.Terminal() ==> ClaimedInv(Claim(row))
    ensures !row.job.Terminal() && row.deliveries == MAX_DELIVERIES ==> Claim(row).job.state == Failed
  {
  }

  // ----- which stage a run ends at

  const STAGES: seq<JobState> := [Fetching, Parsing, Indexing]

  function Order(stage: JobState): nat {
    match stage
    case Fetching => 0
    case Parsing => 1
    case _ => 2
  }

  /** `stage` is the first from `entered` on that does not end well. */
  ghost predicate EndsAt(entered: JobState, env: Env, stage: JobState) {
    && stage in STAGES && Order(entered) <= Order(stage) && env.At(stage) != Fine
    && forall earlier :: earlier in STAGES && Order(entered) <= Order(earlier) < Order(stage) ==>
      env.At(earlier) == Fine
  }

  ghost predicate AllFine(entered: JobState, env: Env) {
    forall stage :: stage in STAGES && Order(entered) <= Order(stage) ==> env.At(stage) == Fine
  }

  ghost predicate Names(error: Option<string>, failure: StageFailure) {
    match failure
    case ArtifactFailure => error == Some("artifact")
    case ParserInput => error == Some("parser_input")
    case IndexPreparation => error == Some("index_preparation")
  }

  /** The job ended at this stage, with a failure that was caught and that its error names. */
  ghost predicate FailedAt(entered: JobState, env: Env, stage: JobState, error: Option<string>) {
    EndsAt(entered, env, stage) && env.At(stage).Caught? && Names(error, env.At(stage).failure)
  }

  /** From a stage, a run ends completed and promoted after all its stages ended well; or at the first
      that did not: retrying from that very stage, or failed for want of attempts, with the error of
      that stage. No transition it attempts is illegal. */
  lemma {:induction false} RunStagesKeeps(job: Job, env: Env)
    requires job.state in {Fetching, Parsing, Indexing} && job.attempts < MAX_DELIVERIES && job.resumeFrom == None
    ensures var r := RunStages(job, env, MAX_DELIVERIES);
      match r
      case Err(fault) => fault == Exception && exists stage ::
        EndsAt(job.state, env, stage) && env.At(stage) == Uncaught
      case Ok((after, promoted)) =>
        && after.attempts == job.attempts + (if after.state == Completed then 0 else 1)
        && (if after.state == Completed then
              promoted == 1 && after.resumeFrom == None && after.error == job.error && AllFine(job.state, env)
            else if after.state == Retrying then
              && promoted == 0 && after.resumeFrom.Some? && after.attempts < MAX_DELIVERIES
              && FailedAt(job.state, env, after.resumeFrom.value, after.error)
            else
              && promoted == 0 && after.state == Failed && after.resumeFrom == None
              && after.attempts == MAX_DELIVERIES
              && exists stage :: FailedAt(job.state, env, stage, after.error))
    decreases match job.state case Fetching => 2 case Parsing => 1 case _ => 0
  {
    if env.At(job.state) == Fine {
      if job.state != Indexing {
        var next := Transition(job, if job.state == Fetching then Parsing else Indexing).value;
        RunStagesKeeps(next, env);
        assert forall stage :: EndsAt(next.state, env, stage) ==> EndsAt(job.state, env, stage);
        assert forall stage, e :: FailedAt(next.state, env, stage, e) ==> FailedAt(job.state, env, stage, e);
      }
    } else {
      assert EndsAt(job.state, env, job.state);
      if env.At(job.state).Caught? {
        assert FailedAt(job.state, env, job.state, Some(ErrorClass(env.At(job.state).failure)));
      }
    }
  }

  /** The stages that a run from `entered` ends well, in order. */
  function FineFrom(entered: JobState, env: Env): seq<JobState>
    decreases 3 - Order(entered)
  {
    if env.At(entered) != Fine then []
    else [entered] + match entered case Fetching => FineFrom(Parsing, env) case Parsing => FineFrom(Indexing, env)
                                   case _ => []
  }

  /** Where a run of the job starts. */
  function StageEntered(job: Job): JobState {
    if job.state == Retrying && job.resumeFrom.Some? then job.resumeFrom.value else Fetching
  }

  /** The stages ended well before a job stands as it does. */
  ghost predicate StandsAfter(job: Job, done: seq<JobState>) {
    match job.state
    case Queued => done == []
    case Retrying => job.resumeFrom.Some? && done == STAGES[..Order(job.resumeFrom.value)]
    case Completed => done == STAGES
    case Failed => done < STAGES && (job.resumeFrom.Some? ==> done == STAGES[..Order(job.resumeFrom.value)])
    case _ => false
  }

  lemma {:induction false} FineUpTo(entered: JobState, env: Env, stage: JobState)
    requires entered in STAGES && EndsAt(entered, env, stage)
    ensures STAGES[..Order(entered)] + FineFrom(entered, env) == STAGES[..Order(stage)]
    decreases 3 - Order(entered)
  {
    if entered != stage {
      assert env.At(entered) == Fine;
      var next := STAGES[Order(entered) + 1];
      assert EndsAt(next, env, stage);
      FineUpTo(next, env, stage);
    }
  }

  lemma {:induction false} FineToTheEnd(entered: JobState, env: Env)
    requires entered in STAGES && AllFine(entered, env)
    ensures STAGES[..Order(entered)] + FineFrom(entered, env) == STAGES
    decreases 3 - Order(entered)
  {
    assert env.At(entered) == Fine;
    if entered != Indexing {
      FineToTheEnd(STAGES[Order(entered) + 1], env);
    }
  }

  /** A run adds to the stages done exactly those that it ends well. */
  lemma RunStandsAfter(row: Row, env: Env, done: seq<JobState>)
    requires ClaimedInv(row) && StandsAfter(row.job, done) && RunPipeline(row.job, env, MAX_DELIVERIES).Ok?
    ensures StandsAfter(RunPipeline(row.job, env, MAX_DELIVERIES).value.0, done + FineFrom(StageEntered(row.job), env))
  {
    var stage, after := StageEntered(row.job), RunPipeline(row.job, env, MAX_DELIVERIES).value.0;
    var entered := Enter(row.job).value;
    assert stage in STAGES && entered.state == stage && entered.resumeFrom == None && done == STAGES[..Order(stage)];
    RunStagesKeeps(entered, env);
    hide RunStages;
    if after.state == Completed {
      FineToTheEnd(stage, env);
    } else if after.state == Retrying {
      FineUpTo(stage, env, after.resumeFrom.value);
    } else {
      var ended :| FailedAt(stage, env, ended, after.error);
      FineUpTo(stage, env, ended);
    }
  }

  lemma ErrorStandsAfter(row: Row, done: seq<JobState>)
    requires ClaimedInv(row) && StandsAfter(row.job, done)
    ensures StandsAfter(RecordError(row, MAX_DELIVERIES).job, done)
  {
  }

  lemma RunKeeps(row: Row, env: Env)
    requires ClaimedInv(row)
    ensures match RunPipeline(row.job, env, MAX_DELIVERIES)
            case Err(fault) => fault == Exception
            case Ok(r) => RowInv(Committed(row, r))
  {
    var entered := Enter(row.job);
    assert entered.Ok? && entered.value.state in {Fetching, Parsing, Indexing} && entered.value.resumeFrom == None;
    RunStagesKeeps(entered.value, env);
  }

  /** A run raises exactly if it does not reach the job or its first stage that does not end well raises;
      and it completes the job exactly if all its stages end well. */
  lemma RunEnds(row: Row, env: Env)
    requires ClaimedInv(row)
    ensures var (r, entered) := (RunPipeline(row.job, env, MAX_DELIVERIES), StageEntered(row.job));
      && (r.Err? <==> !env.reached || exists stage :: EndsAt(entered, env, stage) && env.At(stage) == Uncaught)
      && (r.Ok? ==> (r.value.0.state == Completed <==> AllFine(entered, env)))
  {
    var entered := Enter(row.job);
    assert entered.Ok? && entered.value.state in {Fetching, Parsing, Indexing} && entered.value.resumeFrom == None;
    RunStagesKeeps(entered.value, env);
    forall a, b | EndsAt(entered.value.state, env, a) && EndsAt(entered.value.state, env, b)
      ensures a == b
    {
    }
  }

  lemma RecordErrorKeeps(row: Row)
    requires ClaimedInv(row)
    ensures RowInv(RecordError(row, MAX_DELIVERIES))
  {
  }

  /** What the error transaction makes of any row: terminal jobs stay; others retry exactly while both
      attempts and deliveries are below the maximum, from the stage they stood at or were to resume at,
      or else from the first. */
  lemma RecordErrorMeans(row: Row, maximum: nat)
    ensures var (job, after) := (row.job, RecordError(row, maximum));
      && after.deliveries == row.deliveries && after.promotions == row.promotions
      && if job.Terminal() then after == row
         else
           && after.job.attempts == job.attempts + 1 && after.job.error == Some("worker_internal")
           && after.job.state in {Retrying, Failed}
           && (after.job.state == Retrying <==> job.attempts + 1 < maximum && row.deliveries < maximum)
           && (job.state in STAGES ==> after.job.resumeFrom == Some(job.state))
           && (job.state == Retrying && job.resumeFrom.Some? ==> after.job.resumeFrom == job.resumeFrom)
           && (job.state == Queued || (job.state == Retrying && job.resumeFrom == None) ==>
                 after.job.resumeFrom == Some(Fetching))
  {
  }

  /** A job moves only as permitted, never from its end, and gives up its checkpoint when it resumes. */
  lemma TransitionMeans(job: Job, target: JobState)
    ensures var r := Transition(job, target);
      && (r.Ok? <==> target in Permitted(job.state)) && (job.Terminal() ==> r.Err?)
      && (r.Err? ==> r.error == InvalidTransition(job.state, target))
      && (r.Ok? ==>
            && r.value.state == target && r.value.attempts == job.attempts && r.value.error == job.error
            && r.value.resumeFrom == if job.state == Retrying then None else job.resumeFrom)
  {
  }
}
