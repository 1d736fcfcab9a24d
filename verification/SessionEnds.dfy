/** How a session that retrieved something ends, case by case, and what its last event shows
    (src/interfaces/http/ask.py, src/modules/answering/abstention.py). */
module SessionEnds {
  import opened Wrappers
  import opened Policy
  import opened Evidences
  import opened Answering
  import opened Packer
  import opened Verifier
  import opened AskSession
  import opened AskProtocol

  // ----- the joined answer

  /** The answer's texts with one blank between each and the next. */
  lemma JoinLaws(parts: seq<string>, part: string)
    ensures JoinWith([part], " ") == part
    ensures parts != [] ==> JoinWith(parts + [part], " ") == JoinWith(parts, " ") + " " + part
  {
    assert (parts + [part])[..|parts|] == parts;
  }

  // ----- what the last event shows

  ghost predicate IsSourceOf(source: Source, e: Evidence) {
    && source.evidenceId == e.chunkId && source.source == e.source && source.document == e.document
    && source.version == e.version && source.span == e.span
  }

  /** Failed, with an error and nothing else. */
  ghost predicate Fails(last: AskEvent, error: AskError) {
    && last.Final? && last.finalStatus == FailedStatus && last.error == Some(error)
    && last.answer == None && last.answerId == None && last.claims == [] && last.sources == []
    && last.abstention == None
  }

  /** Degraded: all retrieved evidence is offered in place of an answer. */
  ghost predicate Degrades(last: AskEvent, failure: GenerationFailure, evidence: seq<Evidence>) {
    && last.Final? && last.finalStatus == DegradedStatus && last.error == Some(GenerationFailed(failure))
    && last.answer == None && last.answerId == None && last.claims == [] && last.abstention == None
    && |last.sources| == |evidence| && forall i :: 0 <= i < |evidence| ==> IsSourceOf(last.sources[i], evidence[i])
  }

  ghost predicate Abstains(last: AskEvent, reason: AbstentionReason) {
    && last.Final? && last.finalStatus == OfAnswer(Abstained) && last.abstention == Some(reason)
    && last.answer == Some(Message(reason)) && last.answerId == None && last.claims == [] && last.sources == []
    && last.error == None
  }

  /** The claims of the response, in order, with the same texts and citations, now resolved; and as answer
      their texts joined. */
  ghost predicate Answers(last: AskEvent, question: Question, response: Response) {
    && last.Final? && last.finalStatus == OfAnswer(Verified) && last.answerId == Some(question.id)
    && last.abstention == None && last.error == None
    && |last.claims| == |response.claims|
    && (forall i :: 0 <= i < |response.claims| ==> IsShownAs(response.claims[i], last.claims[i]))
    && last.answer == Some(JoinWith(
         seq(|response.claims|, i requires 0 <= i < |response.claims| => response.claims[i].text), " "))
  }

  ghost predicate IsShownAs(proposed: ProposedClaim, claim: Claim) {
    && claim.text == proposed.text && |claim.citations| == |proposed.citations|
    && forall i :: 0 <= i < |proposed.citations| ==>
         var (c, shown) := (proposed.citations[i], claim.citations[i]);
         shown.evidenceId == c.evidenceId && shown.version == c.version && shown.span == c.span && shown.resolved
  }

  // ----- the cases

  /** A document is packed in several versions, and its packed texts differ once folded. */
  ghost predicate Conflicting(context: PackedContext, fold: string -> string) {
    exists a, b :: a in context.evidence && b in context.evidence && a.document == b.document
      && fold(a.text) != fold(b.text) && InConflict(context.evidence, a.document)
  }

  /** Every claim is grounded in the packed evidence. */
  ghost predicate CitesPacked(response: Response, context: PackedContext) {
    response.claims != [] && forall claim :: claim in DraftClaims(response.claims) ==>
      ClaimGrounded(claim, context.evidence)
  }

  /** The verifier finds every claim supported. */
  ghost predicate AllSupported(response: Response, evidence: seq<Evidence>, p: Principal, store: PolicyStore,
                               tokens: Tokenizer)
  {
    forall claim :: claim in DraftClaims(response.claims) ==>
      store.Policies? && Supported(claim, evidence, p, store.of, tokens)
  }

  /** How a session ends on a response. */
  ghost predicate ResponseEnds(config: Config, question: Question, p: Principal, store: PolicyStore,
                               evidence: seq<Evidence>, context: PackedContext, response: Response,
                               tail: seq<AskEvent>, ended: bool)
  {
    if CitesPacked(response, context) && BadUsage(response.usage) then tail == [] && !ended
    else
      && |tail| == 1 && ended
      && if !CitesPacked(response, context) then Fails(tail[0], GenerationFailed(Malformed))
         else if AllSupported(response, evidence, p, store, config.tokens) then Answers(tail[0], question, response)
         else Abstains(tail[0], AbstentionReason.InsufficientEvidence)
  }

  /** How it ends after the deciding attempt. */
  ghost predicate AttemptEnds(config: Config, question: Question, p: Principal, store: PolicyStore,
                              evidence: seq<Evidence>, context: PackedContext, a: Attempt,
                              tail: seq<AskEvent>, ended: bool)
  {
    if a.admitted && a.end.ProviderRaised? then tail == [] && !ended
    else if a.admitted && a.end.Exhausted? && LastCompletion(a.items).Some? then
      ResponseEnds(config, question, p, store, evidence, context, LastCompletion(a.items).value, tail, ended)
    else
      && |tail| == 1 && ended
      && if !a.admitted then Degrades(tail[0], ProviderUnavailable, evidence)
         else if a.end.Exhausted? then Fails(tail[0], GenerationFailed(Incomplete))
         else if a.end.failure in {TimedOut, ProviderUnavailable} then Degrades(tail[0], a.end.failure, evidence)
         else Fails(tail[0], GenerationFailed(a.end.failure))
  }

  /** The deltas that the deciding attempt shows. */
  function Shown(a: Attempt, context: PackedContext): seq<AskEvent> {
    if a.admitted then Deltas(Released(TextsOf(context.evidence), a.items)) else []
  }

  /** The session after retrieval, exactly. */
  ghost predicate EndsSo(config: Config, question: Question, p: Principal, store: PolicyStore, env: Env,
                         evidence: seq<Evidence>, context: PackedContext, events: seq<AskEvent>, ended: bool)
  {
    if context.evidence == [] || Conflicting(context, config.fold) then
      && ended && |events| == 1
      && Abstains(events[0], if context.evidence == [] then AbstentionReason.InsufficientEvidence
                             else ConflictingEvidence)
    else
      var a := env.At(DecidingAttempt(config, env, context));
      var before := [StatusEvent(Generating)] + Shown(a, context);
      && before <= events
      && AttemptEnds(config, question, p, store, evidence, context, a, events[|before|..], ended)
  }

  lemma {:induction false} LastCompletionIs(items: seq<StreamItem>)
    ensures match LastCompletion(items)
            case None => forall item :: item in items ==> !item.Completed?
            case Some(response) =>
              exists i :: 0 <= i < |items| && items[i] == Completed(response)
                && forall j :: i < j < |items| ==> !items[j].Completed?
  {
    if items != [] && !items[|items| - 1].Completed? {
      LastCompletionIs(items[..|items| - 1]);
    }
  }

  ghost predicate TextsDiffer(context: PackedContext, fold: string -> string, document: string) {
    exists a, b :: a in context.evidence && b in context.evidence && a.document == document && b.document == document
      && fold(a.text) != fold(b.text)
  }

  lemma ConflictingIsIrreconcilable(context: PackedContext, fold: string -> string)
    requires context.conflicts == Conflicts(context.evidence)
    ensures Conflicting(context, fold) <==> IrreconcilableConflict(context, fold)
  {
    ConflictsAreListed(context.evidence);
    hide Conflicts, InConflict;
    if Conflicting(context, fold) {
      var a, b :| a in context.evidence && b in context.evidence && a.document == b.document
        && fold(a.text) != fold(b.text) && InConflict(context.evidence, a.document);
      var c :| c in context.conflicts && c.0 == a.document;
      assert TextsDiffer(context, fold, c.0);
    }
    if IrreconcilableConflict(context, fold) {
      var c :| c in context.conflicts && TextsDiffer(context, fold, c.0);
      assert InConflict(context.evidence, c.0);
    }
  }

  lemma DecideEarly(context: PackedContext, fold: string -> string)
    requires context.conflicts == Conflicts(context.evidence)
    ensures Decide(context, [], fold) ==
      if context.evidence == [] then Some(AbstentionReason.InsufficientEvidence)
      else if Conflicting(context, fold) then Some(ConflictingEvidence) else None
  {
    ConflictingIsIrreconcilable(context, fold);
    hide Conflicting, IrreconcilableConflict;
  }

  /** What generation emits and leaves after an attempt that decides. */
  ghost predicate Generates(context: PackedContext, evidence: seq<Evidence>, a: Attempt, events: seq<AskEvent>,
                            generated: Generated)
  {
    var before := Shown(a, context);
    if a.admitted && a.end.ProviderRaised? then generated == Crashed && events == before
    else if a.admitted && a.end.Exhausted? && LastCompletion(a.items).Some? then
      generated == Responded(LastCompletion(a.items).value) && events == before
    else
      && generated == Ended && |events| == |before| + 1 && before <= events
      && var last := events[|before|];
         if !a.admitted then Degrades(last, ProviderUnavailable, evidence)
         else if a.end.Exhausted? then Fails(last, GenerationFailed(Incomplete))
         else if a.end.failure in {TimedOut, ProviderUnavailable} then Degrades(last, a.end.failure, evidence)
         else Fails(last, GenerationFailed(a.end.failure))
  }

  lemma AttemptGenerates(config: Config, env: Env, context: PackedContext, evidence: seq<Evidence>, k: nat)
    requires config.Valid() && k < config.maxAttempts
    requires var a := env.At(k);
      !(a.admitted && a.end.ProviderFailed? && a.end.retryable && Released(TextsOf(context.evidence), a.items) == []
        && k + 1 < config.maxAttempts)
    ensures var (events, generated) := Generate(config, env, context, evidence, k);
      Generates(context, evidence, env.At(k), events, generated)
  {
    hide Released, LastCompletion, TextsOf;
    var a := env.At(k);
    var (events, generated) := Generate(config, env, context, evidence, k);
    assert a.admitted || events == [Fallback(ProviderUnavailable, evidence)];
    assert a.admitted ==> Shown(a, context) <= events;
    if a.admitted && a.end.ProviderFailed? {
      match a.end.failure
      case TimedOut =>
      case ProviderUnavailable =>
      case Incomplete =>
      case Malformed =>
    }
  }

  lemma GenerationEnds(config: Config, env: Env, context: PackedContext, evidence: seq<Evidence>)
    requires config.Valid()
    ensures var (events, generated) := Generate(config, env, context, evidence, 0);
      Generates(context, evidence, env.At(DecidingAttempt(config, env, context)), events, generated)
  {
    AttemptGenerates(config, env, context, evidence, DecidingAttempt(config, env, context));
    hide Released, TextsOf, Generates;
  }

  /** A response and its draft. */
  lemma DraftShown(question: Question, context: PackedContext, response: Response, evidence: seq<Evidence>,
                   p: Principal, store: PolicyStore, tokens: Tokenizer)
    requires BuildDraft(question, context.evidence, response).Draft?
    ensures var draft := BuildDraft(question, context.evidence, response).answer;
      && draft.question == question && draft.claims == DraftClaims(response.claims)
      && draft.status == Unverified && draft.abstention == None && draft.claims != []
  {
  }

  lemma VerifiedAnswers(question: Question, response: Response, answer: GroundedAnswer, evidence: seq<Evidence>)
    requires answer.question == question && answer.status == Verified && |answer.claims| == |response.claims|
    requires forall i :: 0 <= i < |response.claims| ==>
      answer.claims[i] == MarkResolved(DraftClaims(response.claims)[i])
    ensures Answers(FinalAnswer(answer, evidence), question, response)
  {
    assert ClaimTexts(answer.claims)
        == seq(|response.claims|, i requires 0 <= i < |response.claims| => response.claims[i].text);
    hide JoinWith, Cited, SourcesOf;
  }

  /** What is said of a draft. */
  lemma DraftEndsSo(config: Config, question: Question, p: Principal, store: PolicyStore, evidence: seq<Evidence>,
                    context: PackedContext, response: Response, draft: GroundedAnswer)
    requires context.evidence != [] && !IrreconcilableConflict(context, config.fold)
    requires draft.question == question && draft.claims == DraftClaims(response.claims) && draft.claims != []
    requires draft.status == Unverified && draft.abstention == None
    ensures match VerifyAnswer(draft, evidence, p, store, config.tokens)
            case Refused => false
            case Checked(answer, failures) =>
              if AllSupported(response, evidence, p, store, config.tokens)
              then Decide(context, failures, config.fold) == None
                && Answers(FinalAnswer(answer, evidence), question, response)
              else Decide(context, failures, config.fold) == Some(AbstentionReason.InsufficientEvidence)
  {
    VerifiedMeansSupported(draft, evidence, p, store, config.tokens);
    AnswerKeepsQuestion(draft, evidence, p, store, config.tokens);
    var v := VerifyAnswer(draft, evidence, p, store, config.tokens);
    if AllSupported(response, evidence, p, store, config.tokens) {
      VerifiedAnswers(question, response, v.answer, evidence);
    }
    hide VerifyAnswer, IrreconcilableConflict, Supported, Answers, FinalAnswer, MarkResolved;
  }

  lemma ResponseEndsSo(config: Config, question: Question, p: Principal, store: PolicyStore,
                       evidence: seq<Evidence>, context: PackedContext, response: Response)
    requires context.evidence != [] && !IrreconcilableConflict(context, config.fold)
    ensures var (tail, ended) := AfterResponse(config, question, p, store, evidence, context, response);
      ResponseEnds(config, question, p, store, evidence, context, response, tail, ended)
  {
    DraftIsGrounded(question, context.evidence, response);
    var draft := BuildDraft(question, context.evidence, response);
    if draft.Draft? {
      DraftShown(question, context, response, evidence, p, store, config.tokens);
      hide BuildDraft, VerifyAnswer, Decide, AllSupported, Answers, FinalAnswer, ClaimGrounded, IrreconcilableConflict;
      DraftEndsSo(config, question, p, store, evidence, context, response, draft.answer);
    } else {
      hide BuildDraft, VerifyAnswer, Decide, AllSupported, Answers, ClaimGrounded;
    }
  }

  /** Generation and what follows it, put together. */
  lemma AttemptEndsSo(config: Config, question: Question, p: Principal, store: PolicyStore, evidence: seq<Evidence>,
                      context: PackedContext, a: Attempt, events: seq<AskEvent>, generated: Generated)
    requires context.evidence != [] && !IrreconcilableConflict(context, config.fold)
    requires Generates(context, evidence, a, events, generated)
    ensures var before := Shown(a, context);
      var (tail, ended) := match generated
        case Ended => ([], true)
        case Crashed => ([], false)
        case Responded(response) => AfterResponse(config, question, p, store, evidence, context, response);
      before <= events
      && AttemptEnds(config, question, p, store, evidence, context, a, (events + tail)[|before|..], ended)
  {
    hide AfterResponse, Shown, LastCompletion, Degrades, Fails, ResponseEnds, IrreconcilableConflict;
    var before := Shown(a, context);
    if generated.Responded? {
      ResponseEndsSo(config, question, p, store, evidence, context, generated.response);
      var tail := AfterResponse(config, question, p, store, evidence, context, generated.response).0;
      assert (before + tail)[|before|..] == tail;
    } else {
      assert events + [] == events && before[|before|..] == [];
    }
  }

  lemma AfterRetrievalEndsSo(config: Config, question: Question, p: Principal, store: PolicyStore, env: Env,
                             evidence: seq<Evidence>, context: PackedContext)
    requires config.Valid() && Decide(context, [], config.fold) == None
    ensures var (after, ended) := AfterRetrieval(config, question, p, store, env, evidence, context);
      var a := env.At(DecidingAttempt(config, env, context));
      var before := [StatusEvent(Generating)] + Shown(a, context);
      before <= after && AttemptEnds(config, question, p, store, evidence, context, a, after[|before|..], ended)
  {
    var a := env.At(DecidingAttempt(config, env, context));
    var (events, generated) := Generate(config, env, context, evidence, 0);
    GenerationEnds(config, env, context, evidence);
    assert context.evidence != [] && !IrreconcilableConflict(context, config.fold);
    hide Decide, Generate, Generates, AttemptEnds, AfterResponse, IrreconcilableConflict, Shown, DecidingAttempt;
    AttemptEndsSo(config, question, p, store, evidence, context, a, events, generated);
    AfterStatus(events, if generated.Responded? then
      AfterResponse(config, question, p, store, evidence, context, generated.response).0 else [], |Shown(a, context)|);
  }

  lemma AfterStatus(events: seq<AskEvent>, tail: seq<AskEvent>, n: nat)
    requires n <= |events|
    ensures ([StatusEvent(Generating)] + events + tail)[n + 1..] == (events + tail)[n..]
    ensures [StatusEvent(Generating)] + events + [] == [StatusEvent(Generating)] + events
  {
  }

  /** How a session ends that retrieved something: it abstains before generating exactly for want of packed
      evidence or for a conflict between versions; otherwise the deciding attempt ends it degraded or
      failed, breaks it off, or gives a response; and that is malformed, breaks off, is answered exactly
      if every claim is supported, or is abstained from. */
  lemma SessionEndsSo(config: Config, question: Question, p: Principal, store: PolicyStore, env: Env,
                      ordered: seq<Evidence>, context: PackedContext)
    requires config.Valid() && env.retrieval.Retrieved?
    requires IsPacking(env.retrieval.evidence, config.maxTokens, ordered, context)
    ensures var (events, ended) := SessionEvents(config, question, p, store, env, context);
      && events != [] && events[0] == StatusEvent(Retrieving)
      && EndsSo(config, question, p, store, env, env.retrieval.evidence, context, events[1..], ended)
  {
    var evidence := env.retrieval.evidence;
    assert context.conflicts == Conflicts(context.evidence);
    var (after, ended) := AfterRetrieval(config, question, p, store, env, evidence, context);
    assert ([StatusEvent(Retrieving)] + after)[1..] == after;
    hide IsPacking, EndsSo, AfterRetrieval, Conflicts;
    EndsAfterRetrieval(config, question, p, store, env, evidence, context);
  }

  lemma EndsAfterRetrieval(config: Config, question: Question, p: Principal, store: PolicyStore, env: Env,
                           evidence: seq<Evidence>, context: PackedContext)
    requires config.Valid() && context.conflicts == Conflicts(context.evidence)
    ensures var (after, ended) := AfterRetrieval(config, question, p, store, env, evidence, context);
      EndsSo(config, question, p, store, env, evidence, context, after, ended)
  {
    DecideEarly(context, config.fold);
    hide Conflicting, Decide, Generate, AttemptEnds, AfterResponse, DecidingAttempt, Shown, Conflicts;
    if Decide(context, [], config.fold) == None {
      AfterRetrievalEndsSo(config, question, p, store, env, evidence, context);
      hide AfterRetrieval;
    }
  }

  /** Retrieval that is unavailable fails the session; one that raises breaks it off. */
  lemma NothingRetrieved(config: Config, question: Question, p: Principal, store: PolicyStore, env: Env,
                         context: PackedContext)
    requires config.Valid() && !env.retrieval.Retrieved?
    ensures var (events, ended) := SessionEvents(config, question, p, store, env, context);
      && (env.retrieval.RetrievalRaised? ==> !ended && events == [StatusEvent(Retrieving)])
      && (env.retrieval.RetrievalUnavailable? ==>
            ended && |events| == 2 && events[0] == StatusEvent(Retrieving) && Fails(events[1], RetrievalFailed))
  {
  }
}
