/** What an Ask session promises from the server to the browser
    (src/interfaces/http/ask.py, web/lib/ask.ts). */
module AskProtocol {
  import opened Wrappers
  import opened Policy
  import opened Evidences
  import opened Text
  import opened Answering
  import opened Packer
  import opened Verifier
  import opened AskSession
  import AskReader

  // ----- the order of events

  ghost predicate AllDeltas(events: seq<AskEvent>) {
    forall e :: e in events ==> e.Delta?
  }

  ghost predicate NoFinal(events: seq<AskEvent>) {
    forall e :: e in events ==> !e.Final?
  }

  /** One final event, which is the last. */
  ghost predicate EndsWithOnlyFinal(events: seq<AskEvent>) {
    events != [] && events[|events| - 1].Final? && NoFinal(events[..|events| - 1])
  }

  function DeltaTexts(events: seq<AskEvent>): seq<string> {
    if events == [] then []
    else DeltaTexts(events[..|events| - 1])
         + if events[|events| - 1].Delta? then [events[|events| - 1].text] else []
  }

  lemma DeltaTextsAppend(events: seq<AskEvent>, e: AskEvent)
    ensures DeltaTexts(events + [e]) == if e.Delta? then DeltaTexts(events) + [e.text] else DeltaTexts(events)
  {
  }

  lemma {:induction false} DeltaTextsOfDeltas(released: seq<string>)
    ensures DeltaTexts(Deltas(released)) == released && AllDeltas(Deltas(released))
  {
    if released != [] {
      var n := |released| - 1;
      DeltaTextsOfDeltas(released[..n]);
      assert Deltas(released) == Deltas(released[..n]) + [Delta(released[n])];
      DeltaTextsAppend(Deltas(released[..n]), Delta(released[n]));
    }
  }

  lemma {:induction false} DeltaTextsConcat(a: seq<AskEvent>, b: seq<AskEvent>)
    ensures DeltaTexts(a + b) == DeltaTexts(a) + DeltaTexts(b)
  {
    if b == [] {
      assert a + b == a;
    } else {
      var n := |b| - 1;
      DeltaTextsConcat(a, b[..n]);
      assert a + b == (a + b[..n]) + [b[n]] && b == b[..n] + [b[n]];
      DeltaTextsAppend(a + b[..n], b[n]);
      DeltaTextsAppend(b[..n], b[n]);
    }
  }

  /** The deltas are those that attempt `k` released. */
  ghost predicate OneAttempt(env: Env, context: PackedContext, k: nat, deltas: seq<string>) {
    deltas == Released(TextsOf(context.evidence), env.At(k).items)
  }

  /** Deltas of a single attempt from `attempt` on, and after them one final event exactly if the session
      ends with them. */
  ghost predicate Shaped(config: Config, env: Env, context: PackedContext, attempt: nat, events: seq<AskEvent>,
                         ended: bool)
  {
    && (ended ==> EndsWithOnlyFinal(events) && AllDeltas(events[..|events| - 1]))
    && (!ended ==> AllDeltas(events))
    && (DeltaTexts(events) == []
        || exists k :: attempt <= k < config.maxAttempts && OneAttempt(env, context, k, DeltaTexts(events)))
  }

  lemma DeltasAreShaped(config: Config, env: Env, context: PackedContext, attempt: nat)
    requires attempt < config.maxAttempts
    ensures var deltas := Deltas(Released(TextsOf(context.evidence), env.At(attempt).items));
      Shaped(config, env, context, attempt, deltas, false)
  {
    hide Released, TextsOf;
    var released := Released(TextsOf(context.evidence), env.At(attempt).items);
    DeltaTextsOfDeltas(released);
    assert OneAttempt(env, context, attempt, released);
  }

  lemma FinalIsShaped(config: Config, env: Env, context: PackedContext, attempt: nat, final: AskEvent)
    requires attempt < config.maxAttempts && final.Final?
    ensures var deltas := Deltas(Released(TextsOf(context.evidence), env.At(attempt).items));
      Shaped(config, env, context, attempt, deltas + [final], true)
    ensures Shaped(config, env, context, attempt, [final], true)
  {
    hide Released, TextsOf, EndsWithOnlyFinal, AllDeltas, DeltaTexts;
    var released := Released(TextsOf(context.evidence), env.At(attempt).items);
    FinalAfterDeltas(released);
    FinalAfterDeltas([]);
    assert Deltas([]) + [final] == [final];
    assert OneAttempt(env, context, attempt, released);
  }

  lemma LaterIsShaped(config: Config, env: Env, context: PackedContext, attempt: nat, events: seq<AskEvent>,
                      ended: bool)
    requires Shaped(config, env, context, attempt + 1, events, ended)
    ensures Shaped(config, env, context, attempt, events, ended)
  {
    hide EndsWithOnlyFinal, AllDeltas, DeltaTexts, OneAttempt;
  }

  /** Generation emits the deltas of a single attempt, and after them one final event exactly
      when it ends the session. */
  lemma {:induction false} GenerationShape(config: Config, env: Env, context: PackedContext, evidence: seq<Evidence>,
                                           attempt: nat)
    requires config.Valid() && attempt < config.maxAttempts
    ensures var (events, generated) := Generate(config, env, context, evidence, attempt);
      Shaped(config, env, context, attempt, events, generated.Ended?)
    decreases config.maxAttempts - attempt
  {
    hide Shaped, Released, TextsOf, Deltas, LastCompletion;
    var a := env.At(attempt);
    FinalIsShaped(config, env, context, attempt, Fallback(ProviderUnavailable, evidence));
    FinalIsShaped(config, env, context, attempt, FailureEvent(GenerationFailed(Incomplete)));
    DeltasAreShaped(config, env, context, attempt);
    if a.end.ProviderFailed? {
      FinalIsShaped(config, env, context, attempt, FailureEvent(GenerationFailed(a.end.failure)));
      FinalIsShaped(config, env, context, attempt, Fallback(a.end.failure, evidence));
    }
    if attempt + 1 < config.maxAttempts {
      GenerationShape(config, env, context, evidence, attempt + 1);
      var (events, generated) := Generate(config, env, context, evidence, attempt + 1);
      LaterIsShaped(config, env, context, attempt, events, generated.Ended?);
    }
  }

  lemma FinalAfterDeltas(released: seq<string>)
    ensures forall final: AskEvent :: final.Final? ==>
      var events := Deltas(released) + [final];
      EndsWithOnlyFinal(events) && AllDeltas(events[..|events| - 1]) && DeltaTexts(events) == released
  {
    DeltaTextsOfDeltas(released);
    forall final: AskEvent | final.Final?
      ensures var events := Deltas(released) + [final];
        EndsWithOnlyFinal(events) && AllDeltas(events[..|events| - 1]) && DeltaTexts(events) == released
    {
      var events := Deltas(released) + [final];
      DeltaTextsAppend(Deltas(released), final);
      assert events[..|events| - 1] == Deltas(released);
    }
  }

  /** The deltas, put together, begin some packed evidence text. */
  ghost predicate Grounded(context: PackedContext, deltas: seq<string>) {
    deltas == [] || exists e :: e in context.evidence && Joined(deltas) <= e.text
  }

  lemma GenerationIsGrounded(config: Config, env: Env, context: PackedContext, evidence: seq<Evidence>)
    requires config.Valid()
    ensures Grounded(context, DeltaTexts(Generate(config, env, context, evidence, 0).0))
  {
    hide Generate, Released, DeltaTexts;
    var deltas := DeltaTexts(Generate(config, env, context, evidence, 0).0);
    GenerationShape(config, env, context, evidence, 0);
    if deltas != [] {
      var k :| 0 <= k < config.maxAttempts && OneAttempt(env, context, k, deltas);
      ReleasedIsPrefix(TextsOf(context.evidence), env.At(k).items);
      var text :| text in TextsOf(context.evidence) && Joined(deltas) <= text;
      var i :| 0 <= i < |context.evidence| && context.evidence[i].text == text;
      assert context.evidence[i] in context.evidence;
    }
  }

  /** A session, or a part of one: grounded deltas, then one final event exactly if it ended. */
  ghost predicate WellFormed(context: PackedContext, events: seq<AskEvent>, ended: bool) {
    && (ended ==> EndsWithOnlyFinal(events))
    && (!ended ==> NoFinal(events))
    && Grounded(context, DeltaTexts(events))
  }

  lemma StatusFirst(context: PackedContext, phase: Phase, events: seq<AskEvent>, ended: bool)
    requires WellFormed(context, events, ended)
    ensures WellFormed(context, [StatusEvent(phase)] + events, ended)
  {
    var all := [StatusEvent(phase)] + events;
    DeltaTextsConcat([StatusEvent(phase)], events);
    assert DeltaTexts([StatusEvent(phase)]) == [];
    assert DeltaTexts(all) == DeltaTexts(events);
    if ended {
      assert all[..|all| - 1] == [StatusEvent(phase)] + events[..|events| - 1];
    }
  }

  lemma FinalLast(context: PackedContext, events: seq<AskEvent>, final: AskEvent)
    requires WellFormed(context, events, false) && final.Final?
    ensures WellFormed(context, events + [final], true)
  {
    DeltaTextsAppend(events, final);
    assert (events + [final])[..|events|] == events;
  }

  lemma AfterRetrievalShape(config: Config, question: Question, p: Principal, store: PolicyStore, env: Env,
                            evidence: seq<Evidence>, context: PackedContext)
    requires config.Valid()
    ensures var (events, ended) := AfterRetrieval(config, question, p, store, env, evidence, context);
            WellFormed(context, events, ended)
  {
    hide BuildDraft, VerifyAnswer, Generate, WellFormed;
    var (events, ended) := AfterRetrieval(config, question, p, store, env, evidence, context);
    var early := Decide(context, [], config.fold);
    if early.Some? {
      OneFinal(context, FinalAbstention(early.value));
    } else {
      var (generation, generated) := Generate(config, env, context, evidence, 0);
      var soFar := [StatusEvent(Generating)] + generation;
      GenerationWellFormed(config, env, context, evidence);
      StatusFirst(context, Generating, generation, generated.Ended?);
      if |events| == |soFar| + 1 {
        FinalLast(context, soFar, events[|soFar|]);
        assert events == soFar + [events[|soFar|]];
      } else {
        assert events == soFar && ended == generated.Ended?;
      }
    }
  }

  lemma OneFinal(context: PackedContext, final: AskEvent)
    requires final.Final?
    ensures WellFormed(context, [final], true)
  {
  }

  lemma GenerationWellFormed(config: Config, env: Env, context: PackedContext, evidence: seq<Evidence>)
    requires config.Valid()
    ensures var (events, generated) := Generate(config, env, context, evidence, 0);
            WellFormed(context, events, generated.Ended?)
  {
    GenerationShape(config, env, context, evidence, 0);
    GenerationIsGrounded(config, env, context, evidence);
  }

  /** The first event says that retrieval began. If the generator ends without an exception there
      is exactly one final event and it is the last; if not there is none. All deltas, over all
      attempts, make a prefix of one packed evidence text. */
  lemma SessionProtocol(config: Config, question: Question, p: Principal, store: PolicyStore, env: Env,
                        context: PackedContext)
    requires config.Valid()
    ensures var (events, ended) := SessionEvents(config, question, p, store, env, context);
      && events != [] && events[0] == StatusEvent(Retrieving)
      && (ended ==> EndsWithOnlyFinal(events))
      && (!ended ==> NoFinal(events))
      && (DeltaTexts(events) != [] ==> exists e :: e in context.evidence && Joined(DeltaTexts(events)) <= e.text)
  {
    hide AfterRetrieval;
    match env.retrieval
    case Retrieved(evidence) =>
      AfterRetrievalShape(config, question, p, store, env, evidence, context);
      var (after, ended) := AfterRetrieval(config, question, p, store, env, evidence, context);
      StatusFirst(context, Retrieving, after, ended);
    case RetrievalUnavailable =>
      OneFinal(context, FailureEvent(RetrievalFailed));
      StatusFirst(context, Retrieving, [FailureEvent(RetrievalFailed)], true);
    case RetrievalRaised =>
      assert WellFormed(context, [], false);
      StatusFirst(context, Retrieving, [], false);
      assert [StatusEvent(Retrieving)] + [] == [StatusEvent(Retrieving)];
  }

  // ----- when a session breaks off without a final event

  /** The attempt that decides: the second only after a retryable failure that showed nothing. */
  function DecidingAttempt(config: Config, env: Env, context: PackedContext): nat {
    if config.maxAttempts == 2 && env.first.admitted && env.first.end.ProviderFailed? && env.first.end.retryable
       && Released(TextsOf(context.evidence), env.first.items) == [] then 1 else 0
  }

  lemma GenerationDecided(config: Config, env: Env, context: PackedContext, evidence: seq<Evidence>)
    requires config.Valid()
    ensures var generated := Generate(config, env, context, evidence, 0).1;
      var a := env.At(DecidingAttempt(config, env, context));
      && (generated.Crashed? <==> a.admitted && a.end.ProviderRaised?)
      && (generated.Responded? <==> a.admitted && a.end.Exhausted? && LastCompletion(a.items).Some?)
      && (generated.Responded? ==> Some(generated.response) == LastCompletion(a.items))
  {
  }

  /** What follows retrieval breaks off when generation does, or the draft raises; the verifier's
      own answer is never refused. */
  lemma AfterRetrievalBreaksOff(config: Config, question: Question, p: Principal, store: PolicyStore, env: Env,
                                evidence: seq<Evidence>, context: PackedContext)
    requires config.Valid()
    ensures var generated := Generate(config, env, context, evidence, 0).1;
      !AfterRetrieval(config, question, p, store, env, evidence, context).1 <==>
        && Decide(context, [], config.fold) == None
        && (generated.Crashed?
            || (generated.Responded? && BuildDraft(question, context.evidence, generated.response).Uncaught?))
  {
    hide BuildDraft, VerifyAnswer, Generate, Decide, Supported, MarkResolved;
    var generated := Generate(config, env, context, evidence, 0).1;
    if generated.Responded? {
      DraftIsGrounded(question, context.evidence, generated.response);
      var draft := BuildDraft(question, context.evidence, generated.response);
      if draft.Draft? {
        VerifiedMeansSupported(draft.answer, evidence, p, store, config.tokens);
      }
    }
  }

  /** A session breaks off exactly when retrieval or the deciding attempt raises something other
      than its declared errors, or a well grounded response reports a usage that the domain
      refuses, which no handler catches. */
  lemma BreaksOff(config: Config, question: Question, p: Principal, store: PolicyStore, env: Env,
                  context: PackedContext)
    requires config.Valid()
    ensures var ended := SessionEvents(config, question, p, store, env, context).1;
      var a := env.At(DecidingAttempt(config, env, context));
      var completed := LastCompletion(a.items);
      !ended <==>
        || env.retrieval.RetrievalRaised?
        || (env.retrieval.Retrieved? && Decide(context, [], config.fold) == None && a.admitted
            && (a.end.ProviderRaised?
                || (a.end.Exhausted? && completed.Some? && GroundedWithBadUsage(completed.value, context))))
  {
    if env.retrieval.Retrieved? {
      var evidence := env.retrieval.evidence;
      hide AfterRetrieval, BuildDraft, Generate, Decide, LastCompletion, DecidingAttempt, ClaimGrounded;
      GenerationDecided(config, env, context, evidence);
      AfterRetrievalBreaksOff(config, question, p, store, env, evidence, context);
      var generated := Generate(config, env, context, evidence, 0).1;
      if generated.Responded? {
        DraftIsGrounded(question, context.evidence, generated.response);
      }
    }
  }

  /** A response that cites packed evidence throughout, with a usage that the domain refuses. */
  ghost predicate GroundedWithBadUsage(response: Response, context: PackedContext) {
    && response.claims != [] && BadUsage(response.usage)
    && forall claim :: claim in DraftClaims(response.claims) ==> ClaimGrounded(claim, context.evidence)
  }

  const ONE: Evidence := Evidence("c", "t", "s", "d", "v", (0, 1), "x", 1.0, Public)

  /** A response that says what the evidence says, under a blank model name. */
  const BLANK_MODEL: Response := Response([ProposedClaim("x", [ProposedCitation("c", "v", (0, 1))])], Usage("", 0, 0))

  /** Such a response to packed evidence ends the session without a final event. */
  lemma BlankModelBreaksOff(config: Config, question: Question, p: Principal, store: PolicyStore, env: Env)
    requires config.Valid() && env.retrieval == Retrieved([ONE])
    requires env.first == Attempt(true, [Completed(BLANK_MODEL)], Exhausted)
    ensures exists context, ordered ::
              IsPacking([ONE], config.maxTokens, ordered, context)
              && !SessionEvents(config, question, p, store, env, context).1
  {
    var context := PackedContext([ONE], 1, config.maxTokens, [], false);
    OneIsPacked(config.maxTokens);
    BreaksOff(config, question, p, store, env, context);
    hide IsPacking, SessionEvents;
    OneIsGrounded();
    assert LastCompletion(env.first.items) == Some(BLANK_MODEL);
    assert DecidingAttempt(config, env, context) == 0;
    assert !IrreconcilableConflict(context, config.fold);
    assert Decide(context, [], config.fold) == None;
    assert IsPacking([ONE], config.maxTokens, [ONE], context)
        && !SessionEvents(config, question, p, store, env, context).1;
  }

  lemma OneIsGrounded()
    ensures forall claim :: claim in DraftClaims(BLANK_MODEL.claims) ==> ClaimGrounded(claim, [ONE])
  {
    assert 'x' in "x" && 'c' in "c" && 'v' in "v";
    assert ONE in [ONE];
  }

  lemma OneIsPacked(max: nat)
    requires max > 0
    ensures IsPacking([ONE], max, [ONE], PackedContext([ONE], 1, max, [], false))
  {
    FirstsOfOne(ONE);
    assert TokensOf(ONE) == 1 by {
      CountIsNumberOfTokens("x", 0, 1);
    }
    assert [ONE][..0] == [];
    assert TotalTokens([ONE]) == 1;
    assert Fitting([ONE], max) == [ONE];
    assert Conflicts([ONE]) == [] by {
      ConflictsAreListed([ONE]);
      var conflicts := Conflicts([ONE]);
      assert forall d :: !InConflict([ONE], d);
      assert conflicts == [] || (conflicts[0] in conflicts && InConflict([ONE], conflicts[0].0));
    }
  }

  // ----- final answers are verified

  lemma {:induction false} CitedAre(claims: seq<Claim>, evidence: seq<Evidence>)
    ensures forall e :: e in Cited(claims, evidence) <==> e in evidence && IsCited(claims, e)
  {
    if evidence != [] {
      CitedAre(claims, evidence[..|evidence| - 1]);
      assert forall e :: e in evidence <==> e in evidence[..|evidence| - 1] || e == evidence[|evidence| - 1];
    }
  }

  /** What a final answer promises: it was asked for, shows the texts of its claims joined, and every
      claim cites, with resolved citations, evidence of the same chunk, version and span that the principal may read and
      whose texts hold its every word; the sources are the cited evidence. */
  ghost predicate VerifiedFinal(final: AskEvent, question: Question, p: Principal,
                                policies: map<DocumentRef, DocumentPolicy>,
                                evidence: seq<Evidence>, tokens: Tokenizer)
  {
    && final.Final? && final.finalStatus == OfAnswer(Verified)
    && final.answerId == Some(question.id) && final.answer == Some(JoinWith(ClaimTexts(final.claims), " "))
    && final.claims != [] && final.sources != []
    && (forall claim :: claim in final.claims ==>
          claim.citations != [] && (forall c :: c in claim.citations ==> c.resolved)
          && SupportedAsCited(claim, evidence, p, policies, tokens))
    && (forall source :: source in final.sources <==>
          exists e :: e in evidence && IsCited(final.claims, e) && source == SourceOf(e))
  }

  ghost predicate SupportedAsCited(claim: Claim, evidence: seq<Evidence>, p: Principal,
                                   policies: map<DocumentRef, DocumentPolicy>, tokens: Tokenizer) {
    && (forall c :: c in claim.citations ==>
          exists e :: e in evidence && e.Identity() == c.Identity() && MayRead(p, policies, e.Ref()))
    && (forall t :: t in tokens(claim.text) ==>
          exists e :: e in evidence && t in tokens(e.text) && MayRead(p, policies, e.Ref())
                      && exists c :: c in claim.citations && c.Identity() == e.Identity())
  }

  lemma MarkedIsSupported(claim: Claim, evidence: seq<Evidence>, p: Principal,
                          policies: map<DocumentRef, DocumentPolicy>, tokens: Tokenizer)
    requires Supported(claim, evidence, p, policies, tokens)
    ensures SupportedAsCited(MarkResolved(claim), evidence, p, policies, tokens)
    ensures MarkResolved(claim).citations != [] && forall c :: c in MarkResolved(claim).citations ==> c.resolved
  {
    hide Resolve, MayRead;
    var marked := MarkResolved(claim);
    forall c | c in marked.citations
      ensures exists e :: e in evidence && e.Identity() == c.Identity() && MayRead(p, policies, e.Ref())
    {
      var i :| 0 <= i < |claim.citations| && c == claim.citations[i].(resolved := true);
      assert claim.citations[i] in claim.citations;
      ResolveMeansIdentity(claim.citations[i], evidence);
      var e := Resolve(claim.citations[i], evidence).value;
      assert e in evidence && e.Identity() == c.Identity();
    }
    forall t | t in tokens(claim.text)
      ensures exists e :: e in evidence && t in tokens(e.text) && MayRead(p, policies, e.Ref())
                          && exists c :: c in marked.citations && c.Identity() == e.Identity()
    {
      var c :| c in claim.citations && Resolve(c, evidence).Ok? && t in tokens(Resolve(c, evidence).value.text);
      ResolveMeansIdentity(c, evidence);
      var i :| 0 <= i < |claim.citations| && claim.citations[i] == c;
      assert marked.citations[i] in marked.citations;
      assert marked.citations[i].Identity() == Resolve(c, evidence).value.Identity();
    }
  }

  lemma SourcesAreCited(claims: seq<Claim>, evidence: seq<Evidence>)
    ensures forall source :: source in SourcesOf(Cited(claims, evidence)) <==>
      exists e :: e in evidence && IsCited(claims, e) && source == SourceOf(e)
  {
    var cited := Cited(claims, evidence);
    CitedAre(claims, evidence);
    forall e | e in cited
      ensures SourceOf(e) in SourcesOf(cited)
    {
      var i :| 0 <= i < |cited| && cited[i] == e;
      assert SourcesOf(cited)[i] == SourceOf(e);
    }
    forall source | source in SourcesOf(cited)
      ensures exists e :: e in cited && source == SourceOf(e)
    {
      var i :| 0 <= i < |cited| && SourcesOf(cited)[i] == source;
      assert cited[i] in cited;
    }
  }

  lemma VerifiedClaimsAreSupported(draft: GroundedAnswer, evidence: seq<Evidence>, p: Principal, store: PolicyStore,
                                   tokens: Tokenizer)
    requires draft.status == Unverified && draft.abstention == None && draft.claims != []
    requires VerifyAnswer(draft, evidence, p, store, tokens).Checked?
    requires VerifyAnswer(draft, evidence, p, store, tokens).failures == []
    ensures var answer := VerifyAnswer(draft, evidence, p, store, tokens).answer;
      && store.Policies? && answer.status == Verified && answer.claims != []
      && forall claim :: claim in answer.claims ==>
           claim.citations != [] && (forall c :: c in claim.citations ==> c.resolved)
           && SupportedAsCited(claim, evidence, p, store.of, tokens)
  {
    VerifiedMeansSupported(draft, evidence, p, store, tokens);
    var answer := VerifyAnswer(draft, evidence, p, store, tokens).answer;
    assert draft.claims[0] in draft.claims;
    hide VerifyAnswer, Supported, SupportedAsCited, MarkResolved;
    forall claim | claim in answer.claims
      ensures SupportedAsCited(claim, evidence, p, store.of, tokens)
      ensures claim.citations != [] && forall c :: c in claim.citations ==> c.resolved
    {
      var i :| 0 <= i < |draft.claims| && claim == MarkResolved(draft.claims[i]);
      assert draft.claims[i] in draft.claims;
      MarkedIsSupported(draft.claims[i], evidence, p, store.of, tokens);
    }
  }

  /** The same text and the same citations, in order. */
  ghost predicate SameButResolved(a: Claim, b: Claim) {
    && a.text == b.text && |a.citations| == |b.citations|
    && forall i :: 0 <= i < |a.citations| ==> a.citations[i].Identity() == b.citations[i].Identity()
  }

  lemma ClaimsAreKept(draft: GroundedAnswer, evidence: seq<Evidence>, p: Principal, store: PolicyStore,
                      tokens: Tokenizer)
    requires draft.status == Unverified && draft.abstention == None && draft.claims != []
    requires VerifyAnswer(draft, evidence, p, store, tokens).Checked?
    requires VerifyAnswer(draft, evidence, p, store, tokens).failures == []
    ensures var claims := FinalAnswer(VerifyAnswer(draft, evidence, p, store, tokens).answer, evidence).claims;
      |claims| == |draft.claims|
      && forall i :: 0 <= i < |draft.claims| ==> SameButResolved(draft.claims[i], claims[i])
  {
    VerifiedMeansSupported(draft, evidence, p, store, tokens);
    hide VerifyAnswer, Supported, JoinWith, Cited, SourcesOf;
  }

  /** Drafts that pass verification become verified final answers. */
  lemma FinalAnswerIsVerified(draft: GroundedAnswer, evidence: seq<Evidence>, p: Principal, store: PolicyStore,
                              tokens: Tokenizer)
    requires draft.status == Unverified && draft.abstention == None && draft.claims != []
    requires VerifyAnswer(draft, evidence, p, store, tokens).Checked?
    requires VerifyAnswer(draft, evidence, p, store, tokens).failures == []
    ensures var final := FinalAnswer(VerifyAnswer(draft, evidence, p, store, tokens).answer, evidence);
      && final.Final? && final.finalStatus == OfAnswer(Verified)
      && store.Policies? && VerifiedFinal(final, draft.question, p, store.of, evidence, tokens)
      && |final.claims| == |draft.claims|
      && forall i :: 0 <= i < |draft.claims| ==> SameButResolved(draft.claims[i], final.claims[i])
  {
    ClaimsAreKept(draft, evidence, p, store, tokens);
    VerifiedClaimsAreSupported(draft, evidence, p, store, tokens);
    AnswerKeepsQuestion(draft, evidence, p, store, tokens);
    hide VerifyAnswer, SupportedAsCited, FinalAnswer, VerifiedFinal;
    FinalOfVerified(VerifyAnswer(draft, evidence, p, store, tokens).answer, evidence, p, store.of, tokens);
  }

  lemma FinalOfVerified(answer: GroundedAnswer, evidence: seq<Evidence>, p: Principal,
                        policies: map<DocumentRef, DocumentPolicy>, tokens: Tokenizer)
    requires answer.status == Verified && answer.claims != []
    requires forall claim :: claim in answer.claims ==>
               claim.citations != [] && (forall c :: c in claim.citations ==> c.resolved)
               && SupportedAsCited(claim, evidence, p, policies, tokens)
    ensures var final := FinalAnswer(answer, evidence);
      final.Final? && final.finalStatus == OfAnswer(Verified)
      && VerifiedFinal(final, answer.question, p, policies, evidence, tokens)
  {
    assert answer.claims[0] in answer.claims;
    SomethingIsCited(answer.claims, evidence, p, policies, tokens);
    hide SupportedAsCited, Cited, SourcesOf, IsCited, MayRead;
    SourcesAreCited(answer.claims, evidence);
    var e :| e in evidence && IsCited(answer.claims, e);
    assert SourceOf(e) in SourcesOf(Cited(answer.claims, evidence));
  }

  lemma AnswerKeepsQuestion(draft: GroundedAnswer, evidence: seq<Evidence>, p: Principal, store: PolicyStore,
                            tokens: Tokenizer)
    requires VerifyAnswer(draft, evidence, p, store, tokens).Checked?
    ensures VerifyAnswer(draft, evidence, p, store, tokens).answer.question == draft.question
  {
  }

  lemma SomethingIsCited(claims: seq<Claim>, evidence: seq<Evidence>, p: Principal,
                         policies: map<DocumentRef, DocumentPolicy>, tokens: Tokenizer)
    requires claims != [] && claims[0].citations != [] && SupportedAsCited(claims[0], evidence, p, policies, tokens)
    ensures exists e :: e in evidence && IsCited(claims, e)
  {
    var c := claims[0].citations[0];
    assert c in claims[0].citations && claims[0] in claims;
    var e :| e in evidence && e.Identity() == c.Identity();
    assert IsCited(claims, e);
  }

  /** Every session that ends with a verified status has a verified final answer, and no session
      ends with an unverified one. */
  lemma SessionAnswersAreVerified(config: Config, question: Question, p: Principal, store: PolicyStore, env: Env,
                                  context: PackedContext)
    requires config.Valid() && env.retrieval.Retrieved?
    requires SessionEvents(config, question, p, store, env, context).1
    ensures var events := SessionEvents(config, question, p, store, env, context).0;
      var final := events[|events| - 1];
      final.Final? && final.finalStatus != OfAnswer(Unverified)
      && (final.finalStatus == OfAnswer(Verified) ==>
            store.Policies? && VerifiedFinal(final, question, p, store.of, env.retrieval.evidence, config.tokens))
  {
    hide BuildDraft, VerifyAnswer, Generate, VerifiedFinal, FinalAnswer;
    var evidence := env.retrieval.evidence;
    SessionProtocol(config, question, p, store, env, context);
    GenerationFinals(config, env, context, evidence);
    var generated := Generate(config, env, context, evidence, 0).1;
    if Decide(context, [], config.fold) == None && generated.Responded? {
      DraftIsGrounded(question, context.evidence, generated.response);
      var draft := BuildDraft(question, context.evidence, generated.response);
      if draft.Draft? {
        DraftKeepsQuestion(question, context.evidence, generated.response);
        var v := VerifyAnswer(draft.answer, evidence, p, store, config.tokens);
        if v.Checked? && Decide(context, v.failures, config.fold) == None {
          FinalAnswerIsVerified(draft.answer, evidence, p, store, config.tokens);
        }
      }
    }
  }

  lemma DraftKeepsQuestion(question: Question, context: seq<Evidence>, response: Response)
    requires BuildDraft(question, context, response).Draft?
    ensures BuildDraft(question, context, response).answer.question == question
  {
  }

  /** A generation that ends the session ends it failed or degraded. */
  lemma GenerationFinals(config: Config, env: Env, context: PackedContext, evidence: seq<Evidence>)
    requires config.Valid()
    ensures var (events, generated) := Generate(config, env, context, evidence, 0);
      generated.Ended? ==> events != [] && events[|events| - 1].Final?
                           && events[|events| - 1].finalStatus in {FailedStatus, DegradedStatus}
  {
  }

  /** Every cited item, and so every listed source, may be read, if and only if items of one cited
      identity may be read alike: the verifier asks only about the first item a citation names,
      while every item of that name is listed. */
  lemma SourcesAreReadable(final: AskEvent, question: Question, p: Principal,
                           policies: map<DocumentRef, DocumentPolicy>, evidence: seq<Evidence>, tokens: Tokenizer)
    requires VerifiedFinal(final, question, p, policies, evidence, tokens)
    ensures CitedReadable(final.claims, evidence, p, policies) <==> ReadAlike(final.claims, evidence, p, policies)
    ensures CitedReadable(final.claims, evidence, p, policies) ==>
      forall source :: source in final.sources ==>
        exists e :: e in evidence && source == SourceOf(e) && MayRead(p, policies, e.Ref())
  {
  }

  /** In particular every citation names evidence of the principal's own tenant, of a document that is not
      deleted, in the version the metadata know, with an access entry that is the principal's. */
  lemma CitedAreLive(final: AskEvent, question: Question, p: Principal, policies: map<DocumentRef, DocumentPolicy>,
                     evidence: seq<Evidence>, tokens: Tokenizer, claim: Claim, c: Citation)
    requires VerifiedFinal(final, question, p, policies, evidence, tokens) && claim in final.claims
        && c in claim.citations
    ensures p.known && exists e :: e in evidence && e.Identity() == c.Identity() && IsLive(e, p, policies)
  {
    assert SupportedAsCited(claim, evidence, p, policies, tokens);
    var e :| e in evidence && e.Identity() == c.Identity() && MayRead(p, policies, e.Ref());
    assert IsLive(e, p, policies);
  }

  ghost predicate IsLive(e: Evidence, p: Principal, policies: map<DocumentRef, DocumentPolicy>) {
    && e.tenant == p.tenant && e.Ref() in policies
    && var policy := policies[e.Ref()];
       && !policy.deleted && policy.tenant == e.tenant && policy.document == e.document
       && policy.version == Some(e.version)
       && ("public" in policy.policy || "principal:" + p.id in policy.policy
           || (exists r :: r in p.roles && "role:" + r in policy.policy)
           || (exists g :: g in p.groups && "group:" + g in policy.policy))
  }

  ghost predicate CitedReadable(claims: seq<Claim>, evidence: seq<Evidence>, p: Principal,
                                policies: map<DocumentRef, DocumentPolicy>)
  {
    forall e :: e in evidence && IsCited(claims, e) ==> MayRead(p, policies, e.Ref())
  }

  /** Items that share a cited identity are all readable or none is. */
  ghost predicate ReadAlike(claims: seq<Claim>, evidence: seq<Evidence>, p: Principal,
                            policies: map<DocumentRef, DocumentPolicy>)
  {
    forall a, b :: a in evidence && b in evidence && a.Identity() == b.Identity() && IsCited(claims, a) ==>
      (MayRead(p, policies, a.Ref()) <==> MayRead(p, policies, b.Ref()))
  }

  /** A retriever that authorizes what it returns leaves no unreadable source, as long as no
      document loses its permission between retrieval and verification. */
  lemma AuthorizedSourcesAreReadable(final: AskEvent, question: Question, p: Principal,
                                     atRetrieval: map<DocumentRef, DocumentPolicy>,
                                     policies: map<DocumentRef, DocumentPolicy>,
                                     evidence: seq<Evidence>, tokens: Tokenizer)
    requires VerifiedFinal(final, question, p, policies, evidence, tokens)
    requires forall e :: e in evidence ==> MayRead(p, atRetrieval, e.Ref())
    requires forall ref :: MayRead(p, atRetrieval, ref) ==> MayRead(p, policies, ref)
    ensures forall source :: source in final.sources ==>
      exists e :: e in evidence && source == SourceOf(e) && MayRead(p, policies, e.Ref())
  {
  }

  const ANN: Principal := Principal("ann", "t", [], [], true)

  const READABLE: Evidence := Evidence("c", "t", "s", "here", "v", (0, 1), "x", 1.0, Public)

  /** Evidence of the same identity, but of a document that has lost its metadata. */
  const TWIN: Evidence := READABLE.(document := "elsewhere")

  /** What the store says when the evidence is retrieved: both may be read. */
  const EARLIER: map<DocumentRef, DocumentPolicy> :=
    METADATA[TWIN.Ref() := DocumentPolicy("t", "elsewhere", Some("v"), ["public"], false)]

  /** And when the answer is verified. */
  const METADATA: map<DocumentRef, DocumentPolicy> :=
    map[READABLE.Ref() := DocumentPolicy("t", "here", Some("v"), ["public"], false)]

  const CITING: GroundedAnswer :=
    GroundedAnswer(Question("q", "?"), [Claim("x", [CITED])], Unverified, Usage("m", 0, 0), None)

  const CITED: Citation := Citation("c", "v", (0, 1), false)

  lemma FirstResolves()
    ensures Resolve(CITED, [READABLE, TWIN]) == Ok(READABLE)
  {
  }

  /** The condition is needed: when the twin lost its permission after retrieval, or the retriever
      does not authorize, a verified answer can list it. */
  lemma TwinIsListed(tokens: Tokenizer)
    ensures var v := VerifyAnswer(CITING, [READABLE, TWIN], ANN, Policies(METADATA), tokens);
      && v.Checked? && v.answer.status == Verified
      && SourceOf(TWIN) in FinalAnswer(v.answer, [READABLE, TWIN]).sources
      && MayRead(ANN, EARLIER, READABLE.Ref()) && MayRead(ANN, EARLIER, TWIN.Ref())
      && !MayRead(ANN, METADATA, TWIN.Ref())
  {
    var evidence := [READABLE, TWIN];
    FirstResolves();
    hide Resolve, VerifyAnswer;
    assert "public" in METADATA[READABLE.Ref()].policy && "public" in AccessEntries(ANN);
    assert MayRead(ANN, METADATA, READABLE.Ref());
    assert "public" in EARLIER[TWIN.Ref()].policy && EARLIER[READABLE.Ref()] == METADATA[READABLE.Ref()];
    assert MayRead(ANN, EARLIER, READABLE.Ref()) && MayRead(ANN, EARLIER, TWIN.Ref());
    assert !MayRead(ANN, METADATA, TWIN.Ref());
    hide MayRead;
    VerifiedMeansSupported(CITING, evidence, ANN, Policies(METADATA), tokens);
    assert Supported(Claim("x", [CITED]), evidence, ANN, METADATA, tokens) by {
      assert CITED in [CITED];
    }
    hide Supported;
    var answer := VerifyAnswer(CITING, evidence, ANN, Policies(METADATA), tokens).answer;
    assert answer.claims[0] == MarkResolved(CITING.claims[0]);
    var marked := answer.claims[0];
    assert marked in answer.claims && marked.citations[0] in marked.citations;
    assert marked.citations[0].Identity() == CITED.Identity() == TWIN.Identity();
    assert IsCited(answer.claims, TWIN);
    SourcesAreCited(answer.claims, evidence);
  }

  // ----- what the browser makes of a session

  predicate IsIdCharacter(c: char) {
    'A' <= c <= 'Z' || 'a' <= c <= 'z' || '0' <= c <= '9' || c == '_' || c == '-'
  }

  predicate ValidAnswerId(id: string) {
    1 <= |id| <= 128 && forall c :: c in id ==> IsIdCharacter(c)
  }

  /** The conditions of `parseAskLine` on an event. */
  predicate BrowserAccepts(e: AskEvent) {
    e.Final? ==>
      && e.finalStatus != OfAnswer(Unverified)
      && (e.finalStatus == OfAnswer(Verified) ==>
            && e.answerId.Some? && ValidAnswerId(e.answerId.value)
            && e.claims != [] && e.sources != []
            && forall claim :: claim in e.claims ==>
                 claim.citations != [] && forall c :: c in claim.citations ==> c.resolved)
  }

  /** Identifiers as the server makes them, 36 hexadecimal digits and hyphens, have the expected form. */
  lemma UuidIsValid(id: string)
    requires |id| == 36 && forall c :: c in id ==> '0' <= c <= '9' || 'a' <= c <= 'f' || c == '-'
    ensures ValidAnswerId(id)
  {
  }

  /** A verified answer is refused once it says unverified, loses its claims, sources or identifier, gets an
      identifier that is too long or has a blank in it, or a claim without citations or with one that is
      not resolved. */
  lemma BrowserRefuses(e: AskEvent, id: string, claim: Claim)
    requires e.Final? && e.finalStatus == OfAnswer(Verified) && BrowserAccepts(e)
    ensures !BrowserAccepts(e.(finalStatus := OfAnswer(Unverified)))
    ensures !BrowserAccepts(e.(claims := [])) && !BrowserAccepts(e.(sources := []))
    ensures !BrowserAccepts(e.(answerId := None))
    ensures id == "" || |id| > 128 || ' ' in id ==> !BrowserAccepts(e.(answerId := Some(id)))
    ensures claim.citations == [] || (exists c :: c in claim.citations && !c.resolved) ==>
      !BrowserAccepts(e.(claims := e.claims + [claim]))
  {
    assert claim in e.claims + [claim];
  }

  lemma VerifiedFinalAccepted(final: AskEvent, question: Question, p: Principal,
                              policies: map<DocumentRef, DocumentPolicy>,
                              evidence: seq<Evidence>, tokens: Tokenizer)
    requires VerifiedFinal(final, question, p, policies, evidence, tokens)
    ensures BrowserAccepts(final) <==> ValidAnswerId(question.id)
  {
  }

  /** The browser accepts every event a session emits, except a verified answer whose question
      has an identifier of another form than the browser expects. */
  lemma SessionIsAccepted(config: Config, question: Question, p: Principal, store: PolicyStore, env: Env,
                          context: PackedContext)
    requires config.Valid()
    ensures var events := SessionEvents(config, question, p, store, env, context).0;
      forall e :: e in events ==>
        (BrowserAccepts(e) <==> (e.Final? && e.finalStatus == OfAnswer(Verified) ==> ValidAnswerId(question.id)))
  {
    hide AfterRetrieval, VerifiedFinal, BrowserAccepts, ValidAnswerId;
    SessionProtocol(config, question, p, store, env, context);
    var (events, ended) := SessionEvents(config, question, p, store, env, context);
    forall e | e in events
      ensures BrowserAccepts(e) <==> (e.Final? && e.finalStatus == OfAnswer(Verified) ==> ValidAnswerId(question.id))
    {
      if !e.Final? {
        NotFinalAccepted(e);
      } else {
        assert ended && e == events[|events| - 1];
        if env.retrieval.Retrieved? {
          SessionAnswersAreVerified(config, question, p, store, env, context);
          if e.finalStatus == OfAnswer(Verified) {
            VerifiedFinalAccepted(e, question, p, store.of, env.retrieval.evidence, config.tokens);
          } else {
            NotFinalAccepted(e);
          }
        } else {
          NotFinalAccepted(e);
        }
      }
    }
  }

  lemma NotFinalAccepted(e: AskEvent)
    requires e.Final? ==> e.finalStatus != OfAnswer(Verified) && e.finalStatus != OfAnswer(Unverified)
    ensures BrowserAccepts(e)
  {
  }

  /** A codec for the events of a session: every acceptable event prints as one line that is
      read back. */
  ghost predicate PrintsEvents(codec: AskReader.Codec<AskEvent>, print_: AskEvent -> string) {
    forall e :: (codec.isFinal(e) <==> e.Final?) && (BrowserAccepts(e) ==> AskReader.Prints(codec, print_, e))
  }

  lemma {:induction false} NothingFinal(codec: AskReader.Codec<AskEvent>, print_: AskEvent -> string,
                                        events: seq<AskEvent>)
    requires PrintsEvents(codec, print_) && NoFinal(events)
    ensures AskReader.ThroughFinal(codec, events) == events
    ensures !AskReader.EndsWithOnlyFinal(codec, events)
  {
    if events != [] {
      NothingFinal(codec, print_, events[1..]);
      assert events[0] in events && events[|events| - 1] in events;
    }
  }

  /** From the server to the browser. Whatever part of a session's events is sent, one a line and
      cut into chunks in any way that keeps within the size limit, the browser reads exactly that
      part; and it accepts exactly a whole session that ended, taking every other part, of a
      cancelled session or one that broke off, for one without its final event. */
  lemma SentIsRead(config: Config, question: Question, p: Principal, store: PolicyStore, env: Env,
                   context: PackedContext,
                   codec: AskReader.Codec<AskEvent>, print_: AskEvent -> string, sent: nat, chunks: seq<string>,
                     tail: string)
    requires config.Valid() && ValidAnswerId(question.id) && PrintsEvents(codec, print_)
    requires sent <= |SessionEvents(config, question, p, store, env, context).0|
    requires AskReader.Concat(chunks) + tail
          == AskReader.Printed(print_, SessionEvents(config, question, p, store, env, context).0[..sent])
    requires !AskReader.EverOversized(codec, chunks)
    ensures var (events, ended) := SessionEvents(config, question, p, store, env, context);
      AskReader.ReadChunks(codec, chunks, tail)
      == AskReader.Reading(events[..sent], if ended && sent == |events| then None else Some(AskReader.MissingTerminal))
  {
    hide BrowserAccepts, ValidAnswerId;
    var (events, ended) := SessionEvents(config, question, p, store, env, context);
    hide SessionEvents;
    SessionProtocol(config, question, p, store, env, context);
    SessionIsAccepted(config, question, p, store, env, context);
    PartIsRead(codec, print_, events, ended, sent, chunks, tail);
  }

  /** In particular what `_stream` sends until the request disconnects, in an uncancelled session
      everything. */
  lemma StreamedIsRead(config: Config, question: Question, p: Principal, store: PolicyStore, env: Env,
                       context: PackedContext, codec: AskReader.Codec<AskEvent>, print_: AskEvent -> string,
                       gone: nat -> bool, chunks: seq<string>, tail: string)
    requires config.Valid() && ValidAnswerId(question.id) && PrintsEvents(codec, print_)
    requires var events := SessionEvents(config, question, p, store, env, context).0;
      AskReader.Concat(chunks) + tail == AskReader.Printed(print_, events[..SentBefore(gone, |events|)])
    requires !AskReader.EverOversized(codec, chunks)
    ensures var (events, ended) := SessionEvents(config, question, p, store, env, context);
      AskReader.ReadChunks(codec, chunks, tail).failure == None <==>
        ended && forall k :: 0 <= k < |events| ==> !gone(k)
  {
    hide SessionEvents, BrowserAccepts, ValidAnswerId, PrintsEvents;
    var events := SessionEvents(config, question, p, store, env, context).0;
    SentIsRead(config, question, p, store, env, context, codec, print_, SentBefore(gone, |events|), chunks, tail);
  }

  lemma PartIsRead(codec: AskReader.Codec<AskEvent>, print_: AskEvent -> string, events: seq<AskEvent>, ended: bool,
                   sent: nat, chunks: seq<string>, tail: string)
    requires PrintsEvents(codec, print_) && sent <= |events|
    requires forall e :: e in events ==> BrowserAccepts(e)
    requires if ended then EndsWithOnlyFinal(events) else NoFinal(events)
    requires AskReader.Concat(chunks) + tail == AskReader.Printed(print_, events[..sent])
        && !AskReader.EverOversized(codec, chunks)
    ensures AskReader.ReadChunks(codec, chunks, tail)
      == AskReader.Reading(events[..sent], if ended && sent == |events| then None else Some(AskReader.MissingTerminal))
  {
    hide BrowserAccepts, AskReader.Prints, AskReader.Drain, AskReader.Printed, AskReader.ReadChunks,
      AskReader.EverOversized;
    var part := events[..sent];
    assert forall e :: e in part ==> e in events;
    AskReader.ChunksDoNotMatter(codec, chunks, tail);
    AskReader.DrainPrinted(codec, print_, part);
    if ended && sent == |events| {
      assert part == events;
      WholeEndsWithFinal(codec, print_, events);
      AskReader.ThroughOnlyFinal(codec, events);
    } else {
      if ended {
        assert forall e :: e in part ==> e in events[..|events| - 1];
      }
      NothingFinal(codec, print_, part);
      NothingEndsEarly(codec, print_, part);
    }
  }

  /** A connection may also die inside a line. Whatever the printed session is cut down to, the browser
      reads exactly the events whose lines are whole, and accepts exactly the whole of a session that
      ended; otherwise it tells a cut between lines from one inside a line. */
  lemma CutIsRead(config: Config, question: Question, p: Principal, store: PolicyStore, env: Env,
                  context: PackedContext, codec: AskReader.Codec<AskEvent>, print_: AskEvent -> string,
                  cut: nat, chunks: seq<string>, tail: string)
    requires config.Valid() && ValidAnswerId(question.id) && PrintsEvents(codec, print_)
    requires var text := AskReader.Printed(print_, SessionEvents(config, question, p, store, env, context).0);
      cut <= |text| && AskReader.Concat(chunks) + tail == text[..cut]
    requires !AskReader.EverOversized(codec, chunks)
    ensures var (events, ended) := SessionEvents(config, question, p, store, env, context);
      var lines := AskReader.LinesWithin(print_, events, cut);
      AskReader.ReadChunks(codec, chunks, tail)
      == AskReader.Reading(events[..lines],
           if ended && cut == |AskReader.Printed(print_, events)| then None
           else if cut == |AskReader.Printed(print_, events[..lines])| then Some(AskReader.MissingTerminal)
           else Some(AskReader.IncompleteEvent))
  {
    hide BrowserAccepts, ValidAnswerId;
    var (events, ended) := SessionEvents(config, question, p, store, env, context);
    hide SessionEvents;
    SessionProtocol(config, question, p, store, env, context);
    SessionIsAccepted(config, question, p, store, env, context);
    var text, m := AskReader.Printed(print_, events), AskReader.LinesWithin(print_, events, cut);
    var lines := AskReader.Printed(print_, events[..m]);
    AskReader.CutText(print_, events, cut);
    AllPrinted(print_, events, cut);
    hide AskReader.Printed, AskReader.LinesWithin, AskReader.ReadChunks, PrintsEvents;
    if cut == |lines| {
      assert text[..cut] == lines;
      PartIsRead(codec, print_, events, ended, m, chunks, tail);
    } else {
      CutLineIsRead(codec, print_, events, ended, m, text[|lines|..cut], chunks, tail);
    }
  }

  lemma {:induction false} AllPrinted(print_: AskEvent -> string, events: seq<AskEvent>, cut: nat)
    ensures cut == |AskReader.Printed(print_, events)| ==> AskReader.LinesWithin(print_, events, cut) == |events|
    ensures AskReader.LinesWithin(print_, events, cut) == |events| ==> cut >= |AskReader.Printed(print_, events)|
  {
    if events != [] && cut > |print_(events[0])| {
      AllPrinted(print_, events[1..], cut - |print_(events[0])| - 1);
    }
  }

  /** Whole lines and then a part of the next one. */
  lemma CutLineIsRead(codec: AskReader.Codec<AskEvent>, print_: AskEvent -> string, events: seq<AskEvent>,
                      ended: bool, m: nat, part: string, chunks: seq<string>, tail: string)
    requires PrintsEvents(codec, print_) && m < |events| && part != "" && part <= print_(events[m])
    requires forall e :: e in events ==> BrowserAccepts(e)
    requires if ended then EndsWithOnlyFinal(events) else NoFinal(events)
    requires AskReader.Concat(chunks) + tail == AskReader.Printed(print_, events[..m]) + part
    requires !AskReader.EverOversized(codec, chunks)
    ensures AskReader.ReadChunks(codec, chunks, tail)
         == AskReader.Reading(events[..m], Some(AskReader.IncompleteEvent))
  {
    var before := events[..m];
    assert forall e :: e in before ==> e in events && !e.Final? by {
      assert forall e :: e in before ==> e in events && (ended ==> e in events[..|events| - 1]);
    }
    assert AskReader.Prints(codec, print_, events[m]);
    hide BrowserAccepts, AskReader.Prints, AskReader.Drain, AskReader.Printed, AskReader.ReadChunks,
      AskReader.EverOversized;
    AskReader.ChunksDoNotMatter(codec, chunks, tail);
    AskReader.DrainPrinted(codec, print_, before);
    NothingFinal(codec, print_, before);
    NothingEndsEarly(codec, print_, before);
    AskReader.DrainConcat(codec, AskReader.Printed(print_, before), part, false);
    AskReader.PartOfLine(codec, print_, events[m], part);
    AskReader.DrainRest(codec, part, false);
    assert "" + part == part;
    assert events[..m] + [] == events[..m];
  }

  lemma WholeEndsWithFinal(codec: AskReader.Codec<AskEvent>, print_: AskEvent -> string, events: seq<AskEvent>)
    requires PrintsEvents(codec, print_) && EndsWithOnlyFinal(events)
    ensures AskReader.EndsWithOnlyFinal(codec, events)
  {
  }

  /** Without final events nothing comes after one. */
  lemma {:induction false} NothingEndsEarly(codec: AskReader.Codec<AskEvent>, print_: AskEvent -> string,
                                            events: seq<AskEvent>)
    requires PrintsEvents(codec, print_) && NoFinal(events) && forall e :: e in events ==> BrowserAccepts(e)
    ensures AskReader.Drain(codec, AskReader.Printed(print_, events), false).failure == None
  {
    if events != [] {
      var e := events[0];
      assert e in events;
      hide BrowserAccepts;
      NothingEndsEarly(codec, print_, events[1..]);
      hide AskReader.Drain;
      var rest := AskReader.Printed(print_, events[1..]);
      var text := AskReader.Printed(print_, events);
      AskReader.NewlineAfterLine(print_(e), rest);
      assert text[..|print_(e)|] == print_(e) && text[|print_(e)| + 1..] == rest;
      AskReader.DrainLine(codec, text, false);
    }
  }
}
