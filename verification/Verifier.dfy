/** Resolving citations and verifying claims against evidence the principal may read
    (src/modules/answering/verifier.py). */
module Verifier {
  import opened Wrappers
  import opened Policy
  import opened Evidences
  import opened Answering

  datatype Failure =
    | MissingCitation
    | EvidenceNotFound
    | VersionMismatch
    | SpanMismatch
    | EvidenceUnauthorized
    | UnsupportedClaim

  /** The words of a text, as the token expression finds them after case folding. */
  type Tokenizer = string -> set<string>

  // ----- resolution

  function Matching(evidence: seq<Evidence>, keep: Evidence -> bool): seq<Evidence> {
    if evidence == [] then []
    else (if keep(evidence[0]) then [evidence[0]] else []) + Matching(evidence[1..], keep)
  }

  lemma {:induction false} MatchingKeeps(evidence: seq<Evidence>, keep: Evidence -> bool)
    ensures forall e :: e in Matching(evidence, keep) <==> e in evidence && keep(e)
  {
    if evidence != [] {
      MatchingKeeps(evidence[1..], keep);
    }
  }

  function Resolve(c: Citation, evidence: seq<Evidence>): Result<Evidence, Failure> {
    var byId := Matching(evidence, (e: Evidence) => e.chunkId == c.evidenceId);
    if byId == [] then Err(EvidenceNotFound)
    else
      var byVersion := Matching(byId, (e: Evidence) => e.version == c.version);
      if byVersion == [] then Err(VersionMismatch)
      else
        var bySpan := Matching(byVersion, (e: Evidence) => e.span == c.span);
        if bySpan == [] then Err(SpanMismatch) else Ok(bySpan[0])
  }

  /** A citation resolves exactly when some evidence has its identity, and to such an item;
      otherwise the failure names the first part of the identity that nothing shares. */
  lemma ResolveMeansIdentity(c: Citation, evidence: seq<Evidence>)
    ensures var r := Resolve(c, evidence);
      && (r.Ok? <==> exists e :: e in evidence && e.Identity() == c.Identity())
      && (r.Ok? ==> r.value in evidence && r.value.Identity() == c.Identity())
      && (r == Err(EvidenceNotFound) <==> forall e :: e in evidence ==> e.chunkId != c.evidenceId)
      && (r == Err(VersionMismatch) <==>
            (exists e :: e in evidence && e.chunkId == c.evidenceId)
            && forall e :: e in evidence && e.chunkId == c.evidenceId ==> e.version != c.version)
      && (r.Err? ==> r.error in {EvidenceNotFound, VersionMismatch, SpanMismatch})
  {
    var byId := Matching(evidence, (e: Evidence) => e.chunkId == c.evidenceId);
    MatchingKeeps(evidence, (e: Evidence) => e.chunkId == c.evidenceId);
    var byVersion := Matching(byId, (e: Evidence) => e.version == c.version);
    MatchingKeeps(byId, (e: Evidence) => e.version == c.version);
    MatchingKeeps(byVersion, (e: Evidence) => e.span == c.span);
    forall e | e in evidence && e.chunkId == c.evidenceId
      ensures e in byId
    {
    }
    if byId != [] {
      assert byId[0] in byId;
    }
    if byVersion != [] {
      assert byVersion[0] in byVersion;
    }
    var bySpan := Matching(byVersion, (e: Evidence) => e.span == c.span);
    if bySpan != [] {
      assert bySpan[0] in bySpan;
    }
  }

  // ----- claims

  function FirstFailures(citations: seq<Citation>, evidence: seq<Evidence>): seq<Failure> {
    if citations == [] then []
    else
      var r := Resolve(citations[|citations| - 1], evidence);
      FirstFailures(citations[..|citations| - 1], evidence) + if r.Err? then [r.error] else []
  }

  /** The evidence the citations resolve to, when all of them do. */
  function ResolvedItems(citations: seq<Citation>, evidence: seq<Evidence>): seq<Evidence> {
    if citations == [] then []
    else
      var r := Resolve(citations[|citations| - 1], evidence);
      ResolvedItems(citations[..|citations| - 1], evidence) + if r.Ok? then [r.value] else []
  }

  function RefsOf(items: seq<Evidence>): seq<DocumentRef> {
    seq(|items|, i requires 0 <= i < |items| => items[i].Ref())
  }

  function Support(items: seq<Evidence>, tokens: Tokenizer): set<string> {
    set e, t | e in items && t in tokens(e.text) :: t
  }

  function MarkResolved(claim: Claim): Claim {
    Claim(claim.text, seq(|claim.citations|,
      i requires 0 <= i < |claim.citations| => claim.citations[i].(resolved := true)))
  }

  /** The failures of one claim; none when it is verified. */
  function ClaimFailures(claim: Claim, evidence: seq<Evidence>, p: Principal, store: PolicyStore,
                         tokens: Tokenizer): seq<Failure> {
    if claim.citations == [] then [MissingCitation]
    else
      var unresolved := FirstFailures(claim.citations, evidence);
      if unresolved != [] then unresolved
      else
        var items := ResolvedItems(claim.citations, evidence);
        var authorized := AuthorizedReads(p, store, RefsOf(items));
        if authorized == None || exists ref :: ref in RefsOf(items) && ref !in authorized.value then
          [EvidenceUnauthorized]
        else if !(tokens(claim.text) <= Support(items, tokens)) then [UnsupportedClaim]
        else []
  }

  /** The claim cites evidence that is there, that the principal may read, and whose texts
      together contain its every word. */
  ghost predicate Supported(claim: Claim, evidence: seq<Evidence>, p: Principal,
                            policies: map<DocumentRef, DocumentPolicy>, tokens: Tokenizer) {
    && claim.citations != []
    && (forall c :: c in claim.citations ==>
          Resolve(c, evidence).Ok? && MayRead(p, policies, Resolve(c, evidence).value.Ref()))
    && (forall t :: t in tokens(claim.text) ==>
          exists c :: c in claim.citations && Resolve(c, evidence).Ok? && t in tokens(Resolve(c, evidence).value.text))
  }

  lemma {:induction false} NoFailures(citations: seq<Citation>, evidence: seq<Evidence>)
    ensures FirstFailures(citations, evidence) == [] <==> forall c :: c in citations ==> Resolve(c, evidence).Ok?
    ensures |FirstFailures(citations, evidence)| + |ResolvedItems(citations, evidence)| == |citations|
  {
    hide Resolve;
    if citations != [] {
      var n := |citations| - 1;
      NoFailures(citations[..n], evidence);
      assert citations == citations[..n] + [citations[n]];
    }
  }

  ghost predicate IsResolved(e: Evidence, citations: seq<Citation>, evidence: seq<Evidence>) {
    exists c :: c in citations && Resolve(c, evidence) == Ok(e)
  }

  lemma {:induction false} ResolvedItemsAre(citations: seq<Citation>, evidence: seq<Evidence>, e: Evidence)
    ensures e in ResolvedItems(citations, evidence) <==> IsResolved(e, citations, evidence)
  {
    hide Resolve;
    if citations != [] {
      var n := |citations| - 1;
      ResolvedItemsAre(citations[..n], evidence, e);
      assert forall c :: c in citations <==> c in citations[..n] || c == citations[n];
    }
  }

  /** Every reference is granted exactly when the principal may read every one. */
  lemma AllGranted(p: Principal, store: PolicyStore, refs: seq<DocumentRef>)
    requires refs != []
    ensures var authorized := AuthorizedReads(p, store, refs);
      authorized.Some? && (forall ref :: ref in refs ==> ref in authorized.value) <==>
        store.Policies? && forall ref :: ref in refs ==> MayRead(p, store.of, ref)
  {
    assert refs[0] in refs;
  }

  lemma RefsOfItems(items: seq<Evidence>)
    ensures forall ref :: ref in RefsOf(items) <==> exists e :: e in items && e.Ref() == ref
  {
    forall e | e in items
      ensures e.Ref() in RefsOf(items)
    {
      var i :| 0 <= i < |items| && items[i] == e;
      assert RefsOf(items)[i] == e.Ref();
    }
  }

  /** A claim has no failures exactly when it is supported. */
  lemma ClaimVerifiedMeansSupported(claim: Claim, evidence: seq<Evidence>, p: Principal, store: PolicyStore,
                                    tokens: Tokenizer)
    ensures ClaimFailures(claim, evidence, p, store, tokens) == [] <==>
      store.Policies? && Supported(claim, evidence, p, store.of, tokens)
  {
    hide Resolve, AuthorizedReads, MayRead;
    NoFailures(claim.citations, evidence);
    forall e
      ensures e in ResolvedItems(claim.citations, evidence) <==>
        exists c :: c in claim.citations && Resolve(c, evidence) == Ok(e)
    {
      ResolvedItemsAre(claim.citations, evidence, e);
    }
    if claim.citations != [] && FirstFailures(claim.citations, evidence) == [] {
      var items := ResolvedItems(claim.citations, evidence);
      RefsOfItems(items);
      AllGranted(p, store, RefsOf(items));
      if store.Policies? {
        assert (forall ref :: ref in RefsOf(items) ==> MayRead(p, store.of, ref)) <==>
          (forall e :: e in items ==> MayRead(p, store.of, e.Ref()));
        assert (forall e :: e in items ==> MayRead(p, store.of, e.Ref())) <==>
          (forall c :: c in claim.citations ==>
            Resolve(c, evidence).Ok? && MayRead(p, store.of, Resolve(c, evidence).value.Ref()));
      }
    }
  }

  /** The citation resolves to evidence the principal may read. */
  ghost predicate Readable(c: Citation, evidence: seq<Evidence>, p: Principal, store: PolicyStore) {
    Resolve(c, evidence).Ok? && store.Policies? && MayRead(p, store.of, Resolve(c, evidence).value.Ref())
  }

  ghost predicate Says(claim: Claim, evidence: seq<Evidence>, t: string, tokens: Tokenizer) {
    exists c :: c in claim.citations && Resolve(c, evidence).Ok? && t in tokens(Resolve(c, evidence).value.text)
  }

  ghost predicate FailsWith(citations: seq<Citation>, evidence: seq<Evidence>, f: Failure) {
    exists c :: c in citations && Resolve(c, evidence) == Err(f)
  }

  /** Which failures a claim has: that it cites nothing; else those of its citations that do not resolve;
      else that something they resolve to may not be read; else that some word is in none of it. */
  lemma ClaimFailuresMean(claim: Claim, evidence: seq<Evidence>, p: Principal, store: PolicyStore, tokens: Tokenizer)
    ensures var failures := ClaimFailures(claim, evidence, p, store, tokens);
      if claim.citations == [] then failures == [MissingCitation]
      else if exists c :: c in claim.citations && Resolve(c, evidence).Err? then
        forall f :: f in failures <==> FailsWith(claim.citations, evidence, f)
      else if exists c :: c in claim.citations && !Readable(c, evidence, p, store) then
        failures == [EvidenceUnauthorized]
      else if exists t :: t in tokens(claim.text) && !Says(claim, evidence, t, tokens) then
        failures == [UnsupportedClaim]
      else failures == []
  {
    hide Resolve, AuthorizedReads, MayRead;
    NoFailures(claim.citations, evidence);
    if claim.citations != [] {
      if FirstFailures(claim.citations, evidence) != [] {
        FirstFailuresAre(claim.citations, evidence);
      } else {
        var items := ResolvedItems(claim.citations, evidence);
        forall e
          ensures e in items <==> IsResolved(e, claim.citations, evidence)
        {
          ResolvedItemsAre(claim.citations, evidence, e);
        }
        assert (exists t :: t in tokens(claim.text) && !Says(claim, evidence, t, tokens))
            <==> !(tokens(claim.text) <= Support(items, tokens));
        hide FirstFailures, ResolvedItems, Says;
        ReadableItems(claim.citations, items, evidence, p, store);
      }
    }
  }

  lemma ReadableItems(citations: seq<Citation>, items: seq<Evidence>, evidence: seq<Evidence>, p: Principal,
                      store: PolicyStore)
    requires |items| == |citations| > 0 && forall e :: e in items <==> IsResolved(e, citations, evidence)
    requires forall c :: c in citations ==> Resolve(c, evidence).Ok?
    ensures var authorized := AuthorizedReads(p, store, RefsOf(items));
      (authorized == None || exists ref :: ref in RefsOf(items) && ref !in authorized.value)
      <==> exists c :: c in citations && !Readable(c, evidence, p, store)
  {
    RefsOfItems(items);
    AllGranted(p, store, RefsOf(items));
    hide Resolve, AuthorizedReads, MayRead;
    assert citations[0] in citations;
    if store.Policies? {
      assert (forall ref :: ref in RefsOf(items) ==> MayRead(p, store.of, ref)) <==>
        (forall e :: e in items ==> MayRead(p, store.of, e.Ref()));
      assert (forall e :: e in items ==> MayRead(p, store.of, e.Ref())) <==>
        (forall c :: c in citations ==> Readable(c, evidence, p, store));
    }
  }

  lemma {:induction false} FirstFailuresAre(citations: seq<Citation>, evidence: seq<Evidence>)
    ensures forall f :: f in FirstFailures(citations, evidence) <==> FailsWith(citations, evidence, f)
  {
    hide Resolve;
    if citations != [] {
      var n := |citations| - 1;
      FirstFailuresAre(citations[..n], evidence);
      assert forall c :: c in citations <==> c in citations[..n] || c == citations[n];
    }
  }

  // ----- answers

  /** The answer with its verdict, or the constructor's refusal of a verified answer without claims. */
  datatype Verification = Checked(answer: GroundedAnswer, failures: seq<Failure>) | Refused

  function AllFailures(claims: seq<Claim>, evidence: seq<Evidence>, p: Principal, store: PolicyStore,
                       tokens: Tokenizer): seq<Failure> {
    if claims == [] then []
    else AllFailures(claims[..|claims| - 1], evidence, p, store, tokens)
         + ClaimFailures(claims[|claims| - 1], evidence, p, store, tokens)
  }

  function VerifiedClaims(claims: seq<Claim>, evidence: seq<Evidence>, p: Principal, store: PolicyStore,
                          tokens: Tokenizer): seq<Claim> {
    if claims == [] then []
    else VerifiedClaims(claims[..|claims| - 1], evidence, p, store, tokens)
         + if ClaimFailures(claims[|claims| - 1], evidence, p, store, tokens) == [] then
           [MarkResolved(claims[|claims| - 1])] else []
  }

  /** `dict.fromkeys`: the first occurrence of each. */
  function WithoutRepeats(failures: seq<Failure>): seq<Failure> {
    if failures == [] then []
    else
      var before := WithoutRepeats(failures[..|failures| - 1]);
      if failures[|failures| - 1] in before then before else before + [failures[|failures| - 1]]
  }

  function VerifyAnswer(answer: GroundedAnswer, evidence: seq<Evidence>, p: Principal, store: PolicyStore,
                        tokens: Tokenizer): Verification {
    var failures := WithoutRepeats(AllFailures(answer.claims, evidence, p, store, tokens));
    var verified := VerifiedClaims(answer.claims, evidence, p, store, tokens);
    if answer.status == Abstained then Checked(answer, [])
    else if failures != [] || |verified| != |answer.claims| then Checked(answer, failures)
    else if verified == [] then Refused
    else Checked(GroundedAnswer(answer.question, verified, Verified, answer.usage, None), [])
  }

  /** Every citation of a claim in turn: what resolves, and the failures of the rest. */
  method ResolveAll(claim: Claim, evidence: seq<Evidence>)
    returns (failures: seq<Failure>, items: seq<Evidence>, resolved: seq<Citation>)
    ensures failures == FirstFailures(claim.citations, evidence) && items == ResolvedItems(claim.citations, evidence)
    ensures failures == [] ==> resolved == MarkResolved(claim).citations
  {
    hide Resolve;
    failures, items, resolved := [], [], [];
    for i := 0 to |claim.citations|
      invariant failures == FirstFailures(claim.citations[..i], evidence)
      invariant items == ResolvedItems(claim.citations[..i], evidence)
      invariant failures == [] ==> resolved == MarkResolved(claim).citations[..i]
    {
      assert claim.citations[..i + 1][..i] == claim.citations[..i];
      var r := Resolve(claim.citations[i], evidence);
      if r.Err? {
        failures := failures + [r.error];
        continue;
      }
      items := items + [r.value];
      resolved := resolved + [claim.citations[i].(resolved := true)];
    }
    assert claim.citations[..|claim.citations|] == claim.citations;
  }

  method CheckClaim(claim: Claim, evidence: seq<Evidence>, p: Principal, store: PolicyStore, tokens: Tokenizer)
    returns (failures: seq<Failure>, resolved: seq<Citation>)
    ensures failures == ClaimFailures(claim, evidence, p, store, tokens)
    ensures failures == [] ==> resolved == MarkResolved(claim).citations
  {
    hide Resolve, FirstFailures, ResolvedItems, Support;
    failures, resolved := [], [];
    if claim.citations == [] {
      return [MissingCitation], [];
    }
    var items: seq<Evidence>;
    failures, items, resolved := ResolveAll(claim, evidence);
    NoFailures(claim.citations, evidence);
    if |items| != |claim.citations| {
      return;
    }
    var references := RefsOf(items);
    var authorized := AuthorizeReads(p, store, references);
    if authorized == None {
      return [EvidenceUnauthorized], resolved;
    }
    if exists ref :: ref in references && ref !in authorized.value {
      return [EvidenceUnauthorized], resolved;
    }
    if !(tokens(claim.text) <= Support(items, tokens)) {
      return [UnsupportedClaim], resolved;
    }
  }

  method Verify(answer: GroundedAnswer, evidence: seq<Evidence>, p: Principal, store: PolicyStore, tokens: Tokenizer)
    returns (v: Verification)
    ensures v == VerifyAnswer(answer, evidence, p, store, tokens)
  {
    hide ClaimFailures, WithoutRepeats;
    if answer.status == Abstained {
      return Checked(answer, []);
    }
    var failures: seq<Failure> := [];
    var verified: seq<Claim> := [];
    for i := 0 to |answer.claims|
      invariant failures == AllFailures(answer.claims[..i], evidence, p, store, tokens)
      invariant verified == VerifiedClaims(answer.claims[..i], evidence, p, store, tokens)
    {
      assert answer.claims[..i + 1][..i] == answer.claims[..i];
      var claim := answer.claims[i];
      var found, resolved := CheckClaim(claim, evidence, p, store, tokens);
      failures := failures + found;
      if found == [] {
        verified := verified + [Claim(claim.text, resolved)];
      }
    }
    assert answer.claims[..|answer.claims|] == answer.claims;
    var unique := WithoutRepeats(failures);
    if unique != [] || |verified| != |answer.claims| {
      return Checked(answer, unique);
    }
    if verified == [] {
      return Refused;
    }
    v := Checked(GroundedAnswer(answer.question, verified, Verified, answer.usage, None), []);
  }

  lemma {:induction false} NothingRepeated(failures: seq<Failure>)
    ensures WithoutRepeats(failures) == [] <==> failures == []
    ensures forall f :: f in WithoutRepeats(failures) <==> f in failures
    ensures forall i, j :: 0 <= i < j < |WithoutRepeats(failures)| ==>
        WithoutRepeats(failures)[i] != WithoutRepeats(failures)[j]
  {
    if failures != [] {
      NothingRepeated(failures[..|failures| - 1]);
      assert failures == failures[..|failures| - 1] + [failures[|failures| - 1]];
    }
  }

  lemma {:induction false} AllClaims(claims: seq<Claim>, evidence: seq<Evidence>, p: Principal, store: PolicyStore,
                                     tokens: Tokenizer)
    ensures var verified := VerifiedClaims(claims, evidence, p, store, tokens);
      var clean := forall claim :: claim in claims ==> ClaimFailures(claim, evidence, p, store, tokens) == [];
      && |verified| <= |claims|
      && (|verified| == |claims| <==> clean)
      && (AllFailures(claims, evidence, p, store, tokens) == [] <==> clean)
      && (clean ==> forall i :: 0 <= i < |claims| ==> verified[i] == MarkResolved(claims[i]))
  {
    hide ClaimFailures;
    if claims != [] {
      var n := |claims| - 1;
      AllClaims(claims[..n], evidence, p, store, tokens);
      assert forall claim :: claim in claims <==> claim in claims[..n] || claim == claims[n];
    }
  }

  /** The failures of an answer are those of its claims, each once; an abstention has none. */
  lemma VerdictNamesFailures(answer: GroundedAnswer, evidence: seq<Evidence>, p: Principal, store: PolicyStore,
                             tokens: Tokenizer)
    requires VerifyAnswer(answer, evidence, p, store, tokens).Checked?
    ensures var v := VerifyAnswer(answer, evidence, p, store, tokens);
      && (answer.status == Abstained ==> v == Checked(answer, []))
      && (forall i, j :: 0 <= i < j < |v.failures| ==> v.failures[i] != v.failures[j])
      && (answer.status != Abstained ==>
            forall f :: f in v.failures <==>
              exists claim :: claim in answer.claims && f in ClaimFailures(claim, evidence, p, store, tokens))
  {
    AllFailuresAre(answer.claims, evidence, p, store, tokens);
    AllClaims(answer.claims, evidence, p, store, tokens);
    NothingRepeated(AllFailures(answer.claims, evidence, p, store, tokens));
    hide ClaimFailures;
  }

  lemma {:induction false} AllFailuresAre(claims: seq<Claim>, evidence: seq<Evidence>, p: Principal,
                                          store: PolicyStore, tokens: Tokenizer)
    ensures forall f :: f in AllFailures(claims, evidence, p, store, tokens) <==>
      exists claim :: claim in claims && f in ClaimFailures(claim, evidence, p, store, tokens)
  {
    hide ClaimFailures;
    if claims != [] {
      var n := |claims| - 1;
      AllFailuresAre(claims[..n], evidence, p, store, tokens);
      assert forall claim :: claim in claims <==> claim in claims[..n] || claim == claims[n];
    }
  }

  /** An unverified answer becomes verified exactly when it has claims and every one of them is
      supported; then its claims are the same, with every citation resolved, and the domain
      constructor accepts it. Otherwise it is handed back as it was, with some failure. */
  lemma VerifiedMeansSupported(answer: GroundedAnswer, evidence: seq<Evidence>, p: Principal, store: PolicyStore,
                               tokens: Tokenizer)
    requires answer.status == Unverified && answer.abstention == None
    ensures var v := VerifyAnswer(answer, evidence, p, store, tokens);
      var supported := forall claim :: claim in answer.claims ==>
        store.Policies? && Supported(claim, evidence, p, store.of, tokens);
      && (v == Refused <==> answer.claims == [])
      && (v.Checked? ==>
            && (v.answer.status == Verified <==> supported)
            && (supported ==> v.failures == [] && AnswerAccepted(v.answer) && |v.answer.claims| == |answer.claims|)
            && (supported ==> forall i :: 0 <= i < |answer.claims| ==>
              v.answer.claims[i] == MarkResolved(answer.claims[i]))
            && (!supported ==> v.failures != [] && v.answer == answer))
  {
    AllClaims(answer.claims, evidence, p, store, tokens);
    NothingRepeated(AllFailures(answer.claims, evidence, p, store, tokens));
    forall claim
      ensures ClaimFailures(claim, evidence, p, store, tokens) == [] <==>
        store.Policies? && Supported(claim, evidence, p, store.of, tokens)
    {
      ClaimVerifiedMeansSupported(claim, evidence, p, store, tokens);
    }
    hide ClaimFailures, Supported;
    var v := VerifyAnswer(answer, evidence, p, store, tokens);
    if v.Checked? && v.answer.status == Verified {
      MarkedAreAccepted(answer.claims, v.answer.claims, evidence, p, store, tokens);
    }
  }

  lemma MarkedAreAccepted(claims: seq<Claim>, marked: seq<Claim>, evidence: seq<Evidence>, p: Principal,
                          store: PolicyStore, tokens: Tokenizer)
    requires |marked| == |claims| && forall i :: 0 <= i < |claims| ==> marked[i] == MarkResolved(claims[i])
    requires forall claim :: claim in claims ==> ClaimFailures(claim, evidence, p, store, tokens) == []
    ensures forall claim :: claim in marked ==> claim.citations != [] && forall c :: c in claim.citations ==> c.resolved
  {
    forall claim | claim in marked
      ensures claim.citations != [] && forall c :: c in claim.citations ==> c.resolved
    {
      var i :| 0 <= i < |claims| && claim == MarkResolved(claims[i]);
      CleanHasCitations(claims[i], evidence, p, store, tokens);
    }
  }

  lemma CleanHasCitations(claim: Claim, evidence: seq<Evidence>, p: Principal, store: PolicyStore, tokens: Tokenizer)
    requires ClaimFailures(claim, evidence, p, store, tokens) == []
    ensures claim.citations != []
  {
  }
}
