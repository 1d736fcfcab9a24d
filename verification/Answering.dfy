/** Grounded answers and the drafts a generation response becomes
    (src/domain/answering.py, src/modules/answering/generator.py). */
module Answering {
  import opened Text
  import opened Wrappers
  import opened Evidences

  datatype Status = Unverified | Verified | Abstained

  datatype AbstentionReason = InsufficientEvidence | UnauthorizedEvidence | ConflictingEvidence

  datatype Question = Question(id: string, text: string)

  datatype Citation = Citation(evidenceId: string, version: string, span: Span, resolved: bool) {
    function Identity(): (string, string, Span) {
      (evidenceId, version, span)
    }
  }

  datatype Claim = Claim(text: string, citations: seq<Citation>)

  datatype Usage = Usage(model: string, inputTokens: int, outputTokens: int)

  datatype GroundedAnswer = GroundedAnswer(question: Question, claims: seq<Claim>, status: Status, usage: Usage,
                                           abstention: Option<AbstentionReason>)

  /** `not text.strip()` */
  predicate Blank(text: string) {
    forall c :: c in text ==> IsSpace(c)
  }

  // ----- what the constructors accept

  predicate CitationAccepted(c: Citation) {
    !Blank(c.evidenceId) && !Blank(c.version) && 0 <= c.span.0 < c.span.1
  }

  predicate UsageAccepted(u: Usage) {
    !Blank(u.model) && u.inputTokens >= 0 && u.outputTokens >= 0
  }

  ghost predicate BadUsage(u: Usage) {
    Blank(u.model) || u.inputTokens < 0 || u.outputTokens < 0
  }

  ghost predicate AnswerAccepted(a: GroundedAnswer) {
    && (a.status == Verified ==>
          && a.claims != []
          && forall claim :: claim in a.claims ==>
               claim.citations != [] && forall c :: c in claim.citations ==> c.resolved)
    && (a.status == Abstained <==> a.abstention.Some?)
    && (a.status == Abstained ==> a.claims == [])
  }

  // ----- drafts

  datatype ProposedCitation = ProposedCitation(evidenceId: string, version: string, span: Span)

  datatype ProposedClaim = ProposedClaim(text: string, citations: seq<ProposedCitation>)

  datatype Response = Response(claims: seq<ProposedClaim>, usage: Usage)

  /** A draft, a malformed output reported to the caller, or an exception nobody catches. */
  datatype DraftResult = Draft(answer: GroundedAnswer) | MalformedOutput | Uncaught

  function Unresolved(c: ProposedCitation): Citation {
    Citation(c.evidenceId, c.version, c.span, false)
  }

  function DraftClaim(claim: ProposedClaim): Claim {
    Claim(claim.text, seq(|claim.citations|, i requires 0 <= i < |claim.citations| => Unresolved(claim.citations[i])))
  }

  function DraftClaims(claims: seq<ProposedClaim>): seq<Claim> {
    seq(|claims|, i requires 0 <= i < |claims| => DraftClaim(claims[i]))
  }

  /** A claim the draft accepts: it says something, and cites packed evidence and nothing else. */
  predicate ClaimGrounded(claim: Claim, context: seq<Evidence>) {
    && !Blank(claim.text) && claim.citations != []
    && forall c :: c in claim.citations ==>
         && !Blank(c.evidenceId) && !Blank(c.version) && 0 <= c.span.0 < c.span.1
         && exists e :: e in context && e.Identity() == c.Identity()
  }

  /** The constructors accept the claim and its citations. */
  predicate Constructible(claim: Claim) {
    !Blank(claim.text) && forall c :: c in claim.citations ==> CitationAccepted(c)
  }

  predicate CitesOutside(claim: Claim, context: seq<Evidence>) {
    exists c :: c in claim.citations && forall e :: e in context ==> e.Identity() != c.Identity()
  }

  /** `build_grounded_draft`, its checks in their order; the usage is built last and unguarded. */
  function BuildDraft(question: Question, context: seq<Evidence>, response: Response): DraftResult {
    var claims := DraftClaims(response.claims);
    if exists claim :: claim in claims && !Constructible(claim) then MalformedOutput
    else if claims == [] || exists claim :: claim in claims && claim.citations == [] then MalformedOutput
    else if exists claim :: claim in claims && CitesOutside(claim, context) then MalformedOutput
    else if !UsageAccepted(response.usage) then Uncaught
    else Draft(GroundedAnswer(question, claims, Unverified, response.usage, None))
  }

  /** Exactly when each outcome happens, and what a draft then is. */
  lemma DraftIsGrounded(question: Question, context: seq<Evidence>, response: Response)
    ensures var draft := BuildDraft(question, context, response);
      var grounded := response.claims != [] && forall claim :: claim in DraftClaims(response.claims) ==>
        ClaimGrounded(claim, context);
      && (draft.MalformedOutput? <==> !grounded)
      && (draft.Uncaught? <==> grounded && BadUsage(response.usage))
      && (draft.Draft? ==>
            && AnswerAccepted(draft.answer) && draft.answer.status == Unverified
            && |draft.answer.claims| == |response.claims| > 0
            && forall i :: 0 <= i < |response.claims| ==>
                 && draft.answer.claims[i].text == response.claims[i].text
                 && ClaimGrounded(draft.answer.claims[i], context))
  {
  }
}
