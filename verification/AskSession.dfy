/** The server side of a question: retrieve, pack, generate with retries, verify, and emit
    events ending in one final event (src/interfaces/http/ask.py,
    src/modules/security/untrusted_content.py, src/modules/answering/abstention.py). */
module AskSession {
  import opened Wrappers
  import opened Policy
  import opened Evidences
  import opened Answering
  import opened Packer
  import opened Verifier

  // ----- events

  datatype Phase = Retrieving | Generating

  datatype Source = Source(evidenceId: string, source: string, document: string, version: string, span: Span)

  datatype FinalStatus = OfAnswer(status: Status) | FailedStatus | DegradedStatus

  datatype AskEvent =
    | StatusEvent(phase: Phase)
    | Delta(text: string)
    | Final(finalStatus: FinalStatus, answerId: Option<string>, answer: Option<string>, claims: seq<Claim>,
            sources: seq<Source>, abstention: Option<AbstentionReason>, error: Option<AskError>)

  datatype GenerationFailure = TimedOut | ProviderUnavailable | Incomplete | Malformed

  /** The error that a final event reports. */
  datatype AskError = RetrievalFailed | GenerationFailed(failure: GenerationFailure)

  // ----- the environment

  datatype RetrievalReply = Retrieved(evidence: seq<Evidence>) | RetrievalUnavailable | RetrievalRaised

  datatype StreamItem = Text(delta: string) | Completed(response: Response)

  datatype StreamEnd = Exhausted | ProviderFailed(failure: GenerationFailure, retryable: bool) | ProviderRaised

  /** One attempt to generate: whether the circuit breaker admits it, what the provider streams,
      and how the stream ends. */
  datatype Attempt = Attempt(admitted: bool, items: seq<StreamItem>, end: StreamEnd)

  /** The two attempts a session may make. */
  datatype Env = Env(retrieval: RetrievalReply, first: Attempt, second: Attempt) {
    function At(attempt: nat): Attempt {
      if attempt == 0 then first else second
    }
  }

  datatype Config = Config(maxTokens: nat, maxAttempts: nat, fold: string -> string, tokens: Tokenizer) {
    predicate Valid() {
      maxTokens > 0 && 1 <= maxAttempts <= 2
    }
  }

  // ----- the delta guard

  /** A text of the context begins with the candidate. */
  predicate Begins(texts: seq<string>, candidate: string) {
    exists text :: text in texts && candidate <= text
  }

  predicate Releases(texts: seq<string>, candidate: string) {
    candidate != "" && Begins(texts, candidate)
  }

  class GroundedDeltaGuard {
    const texts: seq<string>
    var candidate: string

    constructor (texts: seq<string>)
      ensures this.texts == texts && candidate == ""
    {
      this.texts := texts;
      candidate := "";
    }

    method Filter(delta: string) returns (r: Option<string>)
      modifies this
      ensures candidate == old(candidate) + delta
      ensures r == if candidate != "" && exists text :: text in texts && candidate <= text then Some(delta) else None
    {
      candidate := candidate + delta;
      if candidate != "" && exists text :: text in texts && candidate <= text {
        return Some(delta);
      }
      r := None;
    }
  }

  function TextsOf(items: seq<Evidence>): seq<string> {
    seq(|items|, i requires 0 <= i < |items| => items[i].text)
  }

  /** What a stream gives the guard, altogether. */
  function Candidate(items: seq<StreamItem>): string {
    if items == [] then ""
    else
      var last := items[|items| - 1];
      Candidate(items[..|items| - 1]) + if last.Text? then last.delta else ""
  }

  /** The deltas the guard lets through. */
  function Released(texts: seq<string>, items: seq<StreamItem>): seq<string> {
    if items == [] then []
    else
      var last := items[|items| - 1];
      Released(texts, items[..|items| - 1]) + if last.Text?
        && Releases(texts, Candidate(items)) then [last.delta] else []
  }

  function LastCompletion(items: seq<StreamItem>): Option<Response> {
    if items == [] then None
    else if items[|items| - 1].Completed? then Some(items[|items| - 1].response)
    else LastCompletion(items[..|items| - 1])
  }

  function Joined(parts: seq<string>): string {
    if parts == [] then "" else Joined(parts[..|parts| - 1]) + parts[|parts| - 1]
  }

  /** What was let through is what the stream gave up to the last delta that still agreed with
      some evidence; in particular it is a prefix of one evidence text. */
  lemma {:induction false} ReleasedIsPrefix(texts: seq<string>, items: seq<StreamItem>)
    ensures Joined(Released(texts, items)) <= Candidate(items)
    ensures (exists text :: text in texts && Candidate(items) <= text) && Candidate(items) != "" ==>
      Joined(Released(texts, items)) == Candidate(items)
    ensures Released(texts, items) != [] ==> Begins(texts, Joined(Released(texts, items)))
  {
    if items != [] {
      var n := |items| - 1;
      var before, last := items[..n], items[n];
      ReleasedIsPrefix(texts, before);
      var released := Released(texts, before);
      if last.Text? {
        assert Candidate(items) == Candidate(before) + last.delta;
        if Releases(texts, Candidate(items)) {
          PrefixStillReleased(texts, before, last.delta);
          assert (released + [last.delta])[..|released|] == released;
          assert Joined(Released(texts, items)) == Candidate(items);
        } else {
          assert Candidate(before) <= Candidate(items) && Released(texts, items) == released;
        }
      } else {
        assert Candidate(items) == Candidate(before) && Released(texts, items) == released;
      }
    }
  }

  /** If the guard agrees after a delta it agreed before it, or had been given nothing. */
  lemma PrefixStillReleased(texts: seq<string>, before: seq<StreamItem>, delta: string)
    requires Releases(texts, Candidate(before) + delta)
    ensures Candidate(before) == "" || Releases(texts, Candidate(before))
  {
  }

  // ----- final events

  function SourceOf(e: Evidence): Source {
    Source(e.chunkId, e.source, e.document, e.version, e.span)
  }

  function SourcesOf(items: seq<Evidence>): seq<Source> {
    seq(|items|, i requires 0 <= i < |items| => SourceOf(items[i]))
  }

  ghost predicate IsCited(claims: seq<Claim>, e: Evidence) {
    exists claim, c :: claim in claims && c in claim.citations && c.Identity() == e.Identity()
  }

  function CitedIdentities(claims: seq<Claim>): set<(string, string, Span)> {
    set claim, c | claim in claims && c in claim.citations :: c.Identity()
  }

  function Cited(claims: seq<Claim>, evidence: seq<Evidence>): seq<Evidence> {
    if evidence == [] then []
    else
      var last := evidence[|evidence| - 1];
      Cited(claims, evidence[..|evidence| - 1]) + if last.Identity() in CitedIdentities(claims) then [last] else []
  }

  function JoinWith(parts: seq<string>, separator: string): string {
    if parts == [] then ""
    else if |parts| == 1 then parts[0]
    else JoinWith(parts[..|parts| - 1], separator) + separator + parts[|parts| - 1]
  }

  function ClaimTexts(claims: seq<Claim>): seq<string> {
    seq(|claims|, i requires 0 <= i < |claims| => claims[i].text)
  }

  function FinalAnswer(answer: GroundedAnswer, evidence: seq<Evidence>): AskEvent {
    Final(OfAnswer(answer.status), Some(answer.question.id), Some(JoinWith(ClaimTexts(answer.claims), " ")),
          answer.claims, SourcesOf(Cited(answer.claims, evidence)), None, None)
  }

  function Message(reason: AbstentionReason): string {
    match reason
    case InsufficientEvidence => "I do not have enough authorized evidence to answer this question."
    case UnauthorizedEvidence => "I cannot use the evidence required to answer this question."
    case ConflictingEvidence => "The authorized evidence contains an unresolved version conflict."
  }

  function FinalAbstention(reason: AbstentionReason): AskEvent {
    Final(OfAnswer(Abstained), None, Some(Message(reason)), [], [], Some(reason), None)
  }

  function FailureEvent(error: AskError): AskEvent {
    Final(FailedStatus, None, None, [], [], None, Some(error))
  }

  function Fallback(failure: GenerationFailure, evidence: seq<Evidence>): AskEvent {
    Final(DegradedStatus, None, None, [], SourcesOf(evidence), None, Some(GenerationFailed(failure)))
  }

  // ----- abstention

  /** Some document is packed in several versions whose texts differ once folded. */
  predicate IrreconcilableConflict(context: PackedContext, fold: string -> string) {
    exists conflict :: conflict in context.conflicts
      && exists a, b :: a in context.evidence && b in context.evidence
           && a.document == conflict.0 && b.document == conflict.0 && fold(a.text) != fold(b.text)
  }

  function Decide(context: PackedContext, failures: seq<Failure>, fold: string -> string): Option<AbstentionReason> {
    if context.evidence == [] then Some(InsufficientEvidence)
    else if IrreconcilableConflict(context, fold) then Some(ConflictingEvidence)
    else if failures != [] then Some(InsufficientEvidence)
    else None
  }

  // ----- generation

  /** A completed response, a session that has said its last, or an exception nobody catches. */
  datatype Generated = Responded(response: Answering.Response) | Ended | Crashed

  function Deltas(released: seq<string>): seq<AskEvent> {
    seq(|released|, i requires 0 <= i < |released| => Delta(released[i]))
  }

  function Generate(config: Config, env: Env, context: PackedContext, evidence: seq<Evidence>,
                    attempt: nat): (seq<AskEvent>, Generated)
    requires config.Valid()
    decreases config.maxAttempts - attempt
  {
    if attempt >= config.maxAttempts then ([], Ended)
    else
      var a := env.At(attempt);
      if !a.admitted then ([Fallback(ProviderUnavailable, evidence)], Ended)
      else
        var released := Released(TextsOf(context.evidence), a.items);
        var deltas := Deltas(released);
        match a.end
        case ProviderRaised => (deltas, Crashed)
        case ProviderFailed(failure, retryable) =>
          if retryable && released == [] && attempt + 1 < config.maxAttempts then
            Generate(config, env, context, evidence, attempt + 1)
          else if failure in {Incomplete, Malformed} then (deltas + [FailureEvent(GenerationFailed(failure))], Ended)
          else (deltas + [Fallback(failure, evidence)], Ended)
        case Exhausted =>
          match LastCompletion(a.items)
          case None => (deltas + [FailureEvent(GenerationFailed(Incomplete))], Ended)
          case Some(response) => (deltas, Responded(response))
  }

  // ----- the session

  /** What follows a response. */
  function AfterResponse(config: Config, question: Question, p: Principal, store: PolicyStore, evidence: seq<Evidence>,
                         context: PackedContext, response: Answering.Response): (seq<AskEvent>, bool)
  {
    match BuildDraft(question, context.evidence, response)
    case MalformedOutput => ([FailureEvent(GenerationFailed(Malformed))], true)
    case Uncaught => ([], false)
    case Draft(draft) =>
      match VerifyAnswer(draft, evidence, p, store, config.tokens)
      case Refused => ([], false)
      case Checked(answer, failures) =>
        var decision := Decide(context, failures, config.fold);
        if decision.Some? then ([FinalAbstention(decision.value)], true) else ([FinalAnswer(answer, evidence)], true)
  }

  /** What follows retrieval: the events, and whether the generator ended without an exception. */
  function AfterRetrieval(config: Config, question: Question, p: Principal, store: PolicyStore, env: Env,
                          evidence: seq<Evidence>, context: PackedContext): (seq<AskEvent>, bool)
    requires config.Valid()
  {
    var early := Decide(context, [], config.fold);
    if early.Some? then ([FinalAbstention(early.value)], true)
    else
      var (events, generated) := Generate(config, env, context, evidence, 0);
      var soFar := [StatusEvent(Generating)] + events;
      match generated
      case Ended => (soFar, true)
      case Crashed => (soFar, false)
      case Responded(response) =>
        var (tail, ended) := AfterResponse(config, question, p, store, evidence, context, response);
        (soFar + tail, ended)
  }

  function SessionEvents(config: Config, question: Question, p: Principal, store: PolicyStore, env: Env,
                         context: PackedContext): (seq<AskEvent>, bool)
    requires config.Valid()
  {
    var start := [StatusEvent(Retrieving)];
    match env.retrieval
    case RetrievalRaised => (start, false)
    case RetrievalUnavailable => (start + [FailureEvent(RetrievalFailed)], true)
    case Retrieved(evidence) =>
      var (events, ended) := AfterRetrieval(config, question, p, store, env, evidence, context);
      (start + events, ended)
  }

  /** One admitted attempt: the stream through the guard. */
  method StreamAttempt(context: PackedContext, a: Attempt)
    returns (emitted: seq<AskEvent>, completed: Option<Answering.Response>)
    ensures emitted == Deltas(Released(TextsOf(context.evidence), a.items))
    ensures completed == LastCompletion(a.items)
  {
    var guard := new GroundedDeltaGuard(TextsOf(context.evidence));
    emitted, completed := [], None;
    for i := 0 to |a.items|
      invariant guard.texts == TextsOf(context.evidence) && guard.candidate == Candidate(a.items[..i])
      invariant emitted == Deltas(Released(guard.texts, a.items[..i]))
      invariant completed == LastCompletion(a.items[..i])
    {
      assert a.items[..i + 1][..i] == a.items[..i];
      match a.items[i] {
        case Text(delta) =>
          var safe := guard.Filter(delta);
          if safe.Some? {
            emitted := emitted + [Delta(safe.value)];
          }
        case Completed(response) =>
          completed := Some(response);
      }
    }
    assert a.items[..|a.items|] == a.items;
  }

  method GenerateWithRetries(config: Config, env: Env, context: PackedContext, evidence: seq<Evidence>)
    returns (events: seq<AskEvent>, generated: Generated)
    requires config.Valid()
    ensures (events, generated) == Generate(config, env, context, evidence, 0)
  {
    for attempt := 0 to config.maxAttempts
      invariant Generate(config, env, context, evidence, attempt) == Generate(config, env, context, evidence, 0)
    {
      var a := env.At(attempt);
      if !a.admitted {
        return [Fallback(ProviderUnavailable, evidence)], Ended;
      }
      var emitted, completed := StreamAttempt(context, a);
      match a.end {
        case ProviderRaised => return emitted, Crashed;
        case ProviderFailed(failure, retryable) =>
          if retryable && emitted == [] && attempt + 1 < config.maxAttempts {
            continue;
          }
          if failure in {Incomplete, Malformed} {
            return emitted + [FailureEvent(GenerationFailed(failure))], Ended;
          }
          return emitted + [Fallback(failure, evidence)], Ended;
        case Exhausted =>
          if completed == None {
            return emitted + [FailureEvent(GenerationFailed(Incomplete))], Ended;
          }
          return emitted, Responded(completed.value);
      }
    }
    return [], Ended;
  }

  /** The whole generator, run to its end. */
  method RunSession(config: Config, question: Question, p: Principal, store: PolicyStore, env: Env)
    returns (events: seq<AskEvent>, ended: bool, context: PackedContext, ghost ordered: seq<Evidence>)
    requires config.Valid()
    ensures (events, ended) == SessionEvents(config, question, p, store, env, context)
    ensures env.retrieval.Retrieved? ==> IsPacking(env.retrieval.evidence, config.maxTokens, ordered, context)
  {
    hide VerifyAnswer, BuildDraft, Generate, Decide, IsPacking, FinalAnswer;
    context, ordered := PackedContext([], 0, 0, [], false), [];
    events := [StatusEvent(Retrieving)];
    match env.retrieval {
      case RetrievalRaised => return events, false, context, ordered;
      case RetrievalUnavailable => return events + [FailureEvent(RetrievalFailed)], true, context, ordered;
      case Retrieved(evidence) =>
        var packed: PackedContext;
        packed, ordered := Pack(evidence, config.maxTokens);
        context := packed;
        var early := Decide(packed, [], config.fold);
        if early.Some? {
          return events + [FinalAbstention(early.value)], true, context, ordered;
        }
        var generation, generated := GenerateWithRetries(config, env, packed, evidence);
        assert events + ([StatusEvent(Generating)] + generation) == events + [StatusEvent(Generating)] + generation;
        ghost var soFar := [StatusEvent(Generating)] + generation;
        events := events + [StatusEvent(Generating)] + generation;
        assert forall e :: [StatusEvent(Retrieving)] + (soFar + [e]) == events + [e];
        assert soFar + [] == soFar;
        match generated {
          case Ended => return events, true, context, ordered;
          case Crashed => return events, false, context, ordered;
          case Responded(response) =>
            match BuildDraft(question, packed.evidence, response) {
              case MalformedOutput =>
                return events + [FailureEvent(GenerationFailed(Malformed))], true, context, ordered;
              case Uncaught => return events, false, context, ordered;
              case Draft(draft) =>
                var verification := Verify(draft, evidence, p, store, config.tokens);
                if verification.Refused? {
                  return events, false, context, ordered;
                }
                var decision := Decide(packed, verification.failures, config.fold);
                if decision.Some? {
                  return events + [FinalAbstention(decision.value)], true, context, ordered;
                }
                return events + [FinalAnswer(verification.answer, evidence)], true, context, ordered;
            }
        }
    }
  }

  // ----- sending a session to the browser

  /** A generator with the events it has still to give; closing it drops them. */
  class Session {
    var pending: seq<AskEvent>
    var cancelled: bool

    constructor (events: seq<AskEvent>)
      ensures pending == events && !cancelled
    {
      pending, cancelled := events, false;
    }

    method Next() returns (e: Option<AskEvent>)
      modifies this`pending
      ensures old(pending) == [] ==> e == None && pending == []
      ensures old(pending) != [] ==> e == Some(old(pending)[0]) && pending == old(pending)[1..]
    {
      if pending == [] {
        return None;
      }
      e := Some(pending[0]);
      pending := pending[1..];
    }

    method Cancel()
      modifies this
      ensures cancelled && pending == if old(cancelled) then old(pending) else []
    {
      if !cancelled {
        cancelled := true;
        pending := [];
      }
    }
  }

  /** How many of `n` events are sent before the request is found disconnected. */
  function SentBefore(gone: nat -> bool, n: nat): (sent: nat)
    ensures sent <= n && (forall k :: 0 <= k < sent ==> !gone(k)) && (sent < n ==> gone(sent))
  {
    if n == 0 then 0
    else
      var before := SentBefore(gone, n - 1);
      if before < n - 1 || gone(n - 1) then before else n
  }

  /** `_stream`: `gone(k)` says whether the request is disconnected when the k-th event is there.
      What is sent is the events up to that moment, and the session is closed in any case. */
  method Stream(session: Session, gone: nat -> bool) returns (sent: seq<AskEvent>)
    requires !session.cancelled
    modifies session
    ensures sent == old(session.pending)[..SentBefore(gone, |old(session.pending)|)]
    ensures session.cancelled && session.pending == []
  {
    sent := [];
    ghost var events := session.pending;
    var next := session.Next();
    while next.Some?
      invariant !session.cancelled && |sent| <= |events| && sent == events[..|sent|]
      invariant forall k :: 0 <= k < |sent| ==> !gone(k)
      invariant if next.Some? then |sent| < |events| && next.value == events[|sent|]
          && session.pending == events[|sent| + 1..]
                else |sent| == |events|
      decreases |events| - |sent|
    {
      if gone(|sent|) {
        break;
      }
      sent := sent + [next.value];
      next := session.Next();
    }
    session.Cancel();
  }
}
