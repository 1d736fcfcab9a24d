/** Reuse of authorized, versioned results over a backend that is not trusted
    (src/modules/cache/cache_policy.py). */
module Cache {
  import opened Wrappers
  import opened Ordering
  import opened Policy
  import opened Evidences
  import opened Answering

  datatype EvidenceSet = EvidenceSet(evidence: seq<Evidence>, strategy: string, total: nat, tookMs: nat, degraded: bool)

  datatype QueryContext = QueryContext(query: string, principal: Principal, limit: nat, offset: nat,
                                       sourceIds: seq<string>, documentIds: seq<string>, includeHistorical: bool)

  datatype Versions = Versions(policy: string, corpus: string, model: string)

  datatype Request =
    | ForEvidence(context: QueryContext, versions: Versions)
    | ForAnswer(question: Question, asker: Principal, versions: Versions)
  {
    function Principal(): Principal {
      if ForEvidence? then context.principal else asker
    }
  }

  datatype Value = EvidenceValue(set_: EvidenceSet) | AnswerValue(answer: GroundedAnswer)

  // ----- keys

  datatype Kind = RetrievalKind | AnswerKind

  datatype Fields =
    | QueryFields(query: string, limit: nat, offset: nat, sourceIds: seq<string>, documentIds: seq<string>,
      includeHistorical: bool)
    | QuestionFields(question: string)

  /** What is written as canonical JSON and hashed. */
  datatype Payload = Payload(kind: Kind, tenant: string, principal: string, roles: seq<string>, groups: seq<string>,
                             known: bool, versions: Versions, fields: Fields)

  function Insert(x: string, items: seq<string>): seq<string> {
    if items == [] || StringLe(x, items[0]) then [x] + items else [items[0]] + Insert(x, items[1..])
  }

  function Sorted(items: seq<string>): seq<string> {
    if items == [] then [] else Insert(items[0], Sorted(items[1..]))
  }

  function PayloadOf(request: Request): Payload {
    var p := request.Principal();
    Payload(if request.ForEvidence? then RetrievalKind else AnswerKind, p.tenant, p.id, Sorted(p.roles),
      Sorted(p.groups), p.known,
            request.versions,
            match request
            case ForEvidence(c, _) =>
              QueryFields(c.query, c.limit, c.offset, Sorted(c.sourceIds), Sorted(c.documentIds), c.includeHistorical)
            case ForAnswer(question, _, _) => QuestionFields(question.text))
  }

  /** Canonical JSON, hashed, behind a prefix; taken to be injective. */
  type Digest = Payload -> string

  ghost predicate Injective(digest: Digest) {
    forall a, b :: digest(a) == digest(b) ==> a == b
  }

  predicate SameItems(a: seq<string>, b: seq<string>) {
    multiset(a) == multiset(b)
  }

  predicate SameAccess(a: Principal, b: Principal) {
    && a.tenant == b.tenant && a.id == b.id && a.known == b.known
    && SameItems(a.roles, b.roles) && SameItems(a.groups, b.groups)
  }

  /** Requests of one kind, of a principal with the same access, at the same versions, for the
      same thing. */
  predicate SameRequest(a: Request, b: Request) {
    && a.ForEvidence? == b.ForEvidence?
    && SameAccess(a.Principal(), b.Principal()) && a.versions == b.versions
    && if a.ForEvidence? then
         && a.context.query == b.context.query && a.context.limit == b.context.limit
           && a.context.offset == b.context.offset
         && a.context.includeHistorical == b.context.includeHistorical
         && SameItems(a.context.sourceIds, b.context.sourceIds)
           && SameItems(a.context.documentIds, b.context.documentIds)
       else a.question.text == b.question.text
  }

  ghost predicate IsSorted(items: seq<string>) {
    forall i, j :: 0 <= i < j < |items| ==> StringLe(items[i], items[j])
  }

  lemma InFront(x: string, items: seq<string>)
    requires IsSorted(items) && forall y :: y in items ==> StringLe(x, y)
    ensures IsSorted([x] + items)
  {
  }

  lemma BelowAll(x: string, items: seq<string>)
    requires items != [] && IsSorted(items) && StringLe(x, items[0])
    ensures forall y :: y in items ==> StringLe(x, y)
  {
    hide StringLe;
    forall y | y in items
      ensures StringLe(x, y)
    {
      var j :| 0 <= j < |items| && items[j] == y;
      if j > 0 {
        StringLeTransitive(x, items[0], y);
      }
    }
  }

  lemma {:induction false} InsertKeeps(x: string, items: seq<string>)
    ensures multiset(Insert(x, items)) == multiset(items) + multiset{x}
  {
    hide StringLe;
    if items != [] && !StringLe(x, items[0]) {
      assert items == [items[0]] + items[1..];
      InsertKeeps(x, items[1..]);
    }
  }

  lemma {:induction false} InsertSorts(x: string, items: seq<string>)
    requires IsSorted(items)
    ensures IsSorted(Insert(x, items))
  {
    hide StringLe;
    if items != [] && StringLe(x, items[0]) {
      BelowAll(x, items);
      InFront(x, items);
    } else if items != [] {
      var rest := Insert(x, items[1..]);
      InsertSorts(x, items[1..]);
      InsertKeeps(x, items[1..]);
      StringLeTotal(x, items[0]);
      assert items == [items[0]] + items[1..];
      forall y | y in rest
        ensures StringLe(items[0], y)
      {
        assert y in multiset(rest);
        if y != x {
          assert y in items[1..];
        }
      }
      InFront(items[0], rest);
    }
  }

  lemma {:induction false} SortedSorts(items: seq<string>)
    ensures IsSorted(Sorted(items)) && multiset(Sorted(items)) == multiset(items)
  {
    if items != [] {
      SortedSorts(items[1..]);
      InsertSorts(items[0], Sorted(items[1..]));
      InsertKeeps(items[0], Sorted(items[1..]));
      assert items == [items[0]] + items[1..];
    }
  }

  lemma FirstIsLeast(items: seq<string>, x: string)
    requires IsSorted(items) && items != [] && x in multiset(items)
    ensures StringLe(items[0], x)
  {
    hide StringLe;
    StringLeReflexive(x);
    var i :| 0 <= i < |items| && items[i] == x;
  }

  lemma SameHead(a: seq<string>, b: seq<string>)
    requires IsSorted(a) && IsSorted(b) && multiset(a) == multiset(b) && a != [] && b != []
    ensures a[0] == b[0]
  {
    hide StringLe, IsSorted;
    assert b[0] in multiset(b) && a[0] in multiset(a);
    FirstIsLeast(a, b[0]);
    FirstIsLeast(b, a[0]);
    StringLeTotal(a[0], b[0]);
  }

  lemma SameTails(a: seq<string>, b: seq<string>)
    requires multiset(a) == multiset(b) && a != [] && b != [] && a[0] == b[0]
    ensures multiset(a[1..]) == multiset(b[1..])
  {
    var x := a[0];
    assert a == [x] + a[1..] && b == [x] + b[1..];
    assert multiset(a) == multiset{x} + multiset(a[1..]);
    assert multiset(b) == multiset{x} + multiset(b[1..]);
    assert multiset(a[1..]) == multiset(a) - multiset{x};
    assert multiset(b[1..]) == multiset(b) - multiset{x};
  }

  lemma {:induction false} SortedIsUnique(a: seq<string>, b: seq<string>)
    requires IsSorted(a) && IsSorted(b) && multiset(a) == multiset(b)
    ensures a == b
  {
    hide StringLe;
    assert |a| == |multiset(a)| == |multiset(b)| == |b|;
    if a != [] {
      SameHead(a, b);
      SameTails(a, b);
      SortedIsUnique(a[1..], b[1..]);
      assert a == [a[0]] + a[1..] && b == [b[0]] + b[1..];
    }
  }

  /** Sorting forgets the order and nothing else. */
  lemma SortedIsCanonical(a: seq<string>, b: seq<string>)
    ensures Sorted(a) == Sorted(b) <==> SameItems(a, b)
  {
    SortedSorts(a);
    SortedSorts(b);
    if SameItems(a, b) {
      SortedIsUnique(Sorted(a), Sorted(b));
    }
  }

  /** Two requests share a key exactly when they are the same request. */
  lemma KeysIdentifyRequests(digest: Digest, a: Request, b: Request)
    requires Injective(digest)
    ensures digest(PayloadOf(a)) == digest(PayloadOf(b)) <==> SameRequest(a, b)
  {
    hide Sorted, SameItems;
    SortedIsCanonical(a.Principal().roles, b.Principal().roles);
    SortedIsCanonical(a.Principal().groups, b.Principal().groups);
    if a.ForEvidence? && b.ForEvidence? {
      SortedIsCanonical(a.context.sourceIds, b.context.sourceIds);
      SortedIsCanonical(a.context.documentIds, b.context.documentIds);
    }
  }

  // ----- eligibility

  predicate EligibleRetrieval(value: EvidenceSet, p: Principal) {
    p.known && !value.degraded && forall e :: e in value.evidence ==> e.tenant == p.tenant && e.reason != PolicyDenied
  }

  predicate EligibleAnswer(value: GroundedAnswer, question: Question, p: Principal) {
    p.known && value.status == Verified && value.question.text == question.text
  }

  predicate Eligible(value: Value, request: Request) {
    && value.EvidenceValue? == request.ForEvidence?
    && match request
       case ForEvidence(context, _) => EligibleRetrieval(value.set_, context.principal)
       case ForAnswer(question, p, _) => EligibleAnswer(value.answer, question, p)
  }

  /** A value for the question asked now, whatever identifier the question had before. */
  function Rebound(value: Value, request: Request): Value {
    if value.AnswerValue? && request.ForAnswer? then AnswerValue(value.answer.(question := request.question)) else value
  }

  // ----- the cache

  datatype Record = Record(key: string, kind: Kind, value: Value)

  /** What the backend may answer: an exception, nothing, an object of another type, or a record. */
  datatype Reply = Raises | Nothing | Foreign | Returned(record: Record)

  datatype Served = Served(value: Value, hit: bool)

  /** A load that was written, with the request it was for. */
  datatype Load = Load(request: Request, value: Value)

  function RecordOf(digest: Digest, load: Load): Record {
    Record(digest(PayloadOf(load.request)), PayloadOf(load.request).kind, load.value)
  }

  /** The record a request accepts from a reply. */
  function Accepted(digest: Digest, request: Request, reply: Reply): Option<Record> {
    if reply.Returned? && reply.record.key == digest(PayloadOf(request)) && reply.record.kind == PayloadOf(request).kind
       && Eligible(reply.record.value, request)
    then Some(reply.record) else None
  }

  ghost predicate FromLoads(digest: Digest, loads: set<Load>, reply: Reply) {
    reply.Returned? ==> exists load :: load in loads && RecordOf(digest, load) == reply.record
  }

  /** The value was loaded for the same request, eligible for it, and is now bound to this one. */
  ghost predicate WasLoaded(loads: set<Load>, request: Request, value: Value) {
    exists load :: load in loads && SameRequest(load.request, request) && Eligible(load.value, load.request)
                   && Rebound(load.value, request) == value
  }

  class VersionSafeCache {
    const digest: Digest
    /** Every load whose record was handed to the backend, kept or not. */
    ghost var loads: set<Load>

    constructor (digest: Digest)
      ensures this.digest == digest && loads == {}
    {
      this.digest := digest;
      loads := {};
    }

    ghost predicate Valid()
      reads this
    {
      Injective(digest) && forall load :: load in loads ==> Eligible(load.value, load.request)
    }

    /** The backend answers with something it was given for some key, or fails. */
    ghost predicate CanReply(reply: Reply)
      reads this
    {
      FromLoads(digest, loads, reply)
    }

    /** `_read` */
    method Read(key: string, kind: Kind, reply: Reply) returns (r: Option<Record>)
      ensures r == if reply.Returned? && reply.record.key == key
          && reply.record.kind == kind then Some(reply.record) else None
    {
      match reply {
        case Raises => return None;
        case Nothing => return None;
        case Foreign => return None;
        case Returned(record) =>
          if record.key != key || record.kind != kind {
            return None;
          }
          return Some(record);
      }
    }

    /** `retrieval`: `loaded` is what the loader gives if it is called, or that it raises. */
    method Retrieval(context: QueryContext, versions: Versions, reply: Reply, loaded: Option<EvidenceSet>)
      returns (r: Option<Served>)
      requires Valid() && CanReply(reply)
      modifies this
      ensures Valid() && old(loads) <= loads
      ensures r.Some? && r.value.hit ==> loads == old(loads)
      ensures r.Some? && r.value.hit ==> WasLoaded(old(loads), ForEvidence(context, versions), r.value.value)
      ensures r.Some? && r.value.hit ==>
        && context.principal.known && r.value.value.EvidenceValue? && !r.value.value.set_.degraded
        && forall e :: e in r.value.value.set_.evidence ==>
             e.tenant == context.principal.tenant && e.reason != PolicyDenied
      ensures r.Some? && !r.value.hit ==> loaded.Some? && r.value.value == EvidenceValue(loaded.value)
      ensures (r, loads) == ServeNow(digest, old(loads), ForEvidence(context, versions), reply,
                                     if loaded == None then None else Some(EvidenceValue(loaded.value)))
    {
      ghost var request := ForEvidence(context, versions);
      var key := digest(PayloadOf(ForEvidence(context, versions)));
      var record := Read(key, RetrievalKind, reply);
      if record.Some? && record.value.value.EvidenceValue?
        && EligibleRetrieval(record.value.value.set_, context.principal) {
        HitIsLoad(this, request, reply);
        return Some(Served(record.value.value, true));
      }
      if loaded == None {
        return None;
      }
      if EligibleRetrieval(loaded.value, context.principal) {
        loads := loads + {Load(request, EvidenceValue(loaded.value))};
      }
      r := Some(Served(EvidenceValue(loaded.value), false));
    }

    /** `answer` */
    method Answer(question: Question, p: Principal, versions: Versions, reply: Reply, loaded: Option<GroundedAnswer>)
      returns (r: Option<Served>)
      requires Valid() && CanReply(reply)
      modifies this
      ensures Valid() && old(loads) <= loads
      ensures r.Some? && r.value.hit ==>
          loads == old(loads) && r.value.value.AnswerValue? && r.value.value.answer.question == question
      ensures r.Some? && r.value.hit ==> WasLoaded(old(loads), ForAnswer(question, p, versions), r.value.value)
      ensures r.Some? && r.value.hit ==> p.known && r.value.value.answer.status == Verified
      ensures r.Some? && !r.value.hit ==> loaded.Some? && r.value.value == AnswerValue(loaded.value)
      ensures (r, loads) == ServeNow(digest, old(loads), ForAnswer(question, p, versions), reply,
                                     if loaded == None then None else Some(AnswerValue(loaded.value)))
    {
      ghost var request := ForAnswer(question, p, versions);
      var key := digest(PayloadOf(ForAnswer(question, p, versions)));
      var record := Read(key, AnswerKind, reply);
      if record.Some? && record.value.value.AnswerValue? && EligibleAnswer(record.value.value.answer, question, p) {
        HitIsLoad(this, request, reply);
        return Some(Served(AnswerValue(record.value.value.answer.(question := question)), true));
      }
      if loaded == None {
        return None;
      }
      if EligibleAnswer(loaded.value, question, p) {
        loads := loads + {Load(request, AnswerValue(loaded.value))};
      }
      r := Some(Served(AnswerValue(loaded.value), false));
    }
  }

  /** One request served, as a function of the loads written before it. */
  ghost function ServeNow(digest: Digest, loads: set<Load>, request: Request, reply: Reply,
                          loaded: Option<Value>): (Option<Served>, set<Load>) {
    var record := Accepted(digest, request, reply);
    if record.Some? then (Some(Served(Rebound(record.value.value, request), true)), loads)
    else if loaded == None then (None, loads)
    else (Some(Served(loaded.value, false)),
      if Eligible(loaded.value, request) then loads + {Load(request, loaded.value)} else loads)
  }

  /** A hit is a value loaded for the same request and eligible for it. */
  lemma HitIsLoad(cache: VersionSafeCache, request: Request, reply: Reply)
    requires cache.Valid() && cache.CanReply(reply) && Accepted(cache.digest, request, reply).Some?
    ensures WasLoaded(cache.loads, request, Rebound(reply.record.value, request))
  {
    var load :| load in cache.loads && RecordOf(cache.digest, load) == reply.record;
    KeysIdentifyRequests(cache.digest, load.request, request);
  }

  /** What may be reused for a request: for a known principal, evidence that is not degraded and all of the
      principal's own tenant and granted; or a verified answer to a question of the same text. */
  ghost predicate Reusable(value: Value, request: Request) {
    && request.Principal().known
    && match request
       case ForEvidence(context, _) =>
         && value.EvidenceValue? && !value.set_.degraded
         && forall e :: e in value.set_.evidence ==> e.tenant == context.principal.tenant && e.reason != PolicyDenied
       case ForAnswer(question, _, _) =>
         value.AnswerValue? && value.answer.status == Verified && value.answer.question.text == question.text
  }

  /** The value, bound to the question of the request. */
  function ForThis(value: Value, request: Request): Value {
    match request
    case ForAnswer(question, _, _) =>
      if value.AnswerValue? then AnswerValue(value.answer.(question := question)) else value
    case ForEvidence(_, _) => value
  }

  /** Exactly when a reply is a hit, and when a loaded value is written. */
  lemma HitExactly(digest: Digest, loads: set<Load>, request: Request, reply: Reply, loaded: Value)
    requires Injective(digest) && FromLoads(digest, loads, reply)
    ensures var (served, after) := ServeNow(digest, loads, request, reply, Some(loaded));
      && served.Some?
      && (served.value.hit <==> exists load :: load in loads && reply == Returned(RecordOf(digest, load))
                                  && SameRequest(load.request, request) && Reusable(load.value, request)
                                  && served.value.value == ForThis(load.value, request))
      && (after == if !served.value.hit && Reusable(loaded, request) then loads + {Load(request, loaded)} else loads)
  {
    assert Eligible(loaded, request) <==> Reusable(loaded, request);
    assert reply.Returned? ==> Rebound(reply.record.value, request) == ForThis(reply.record.value, request);
    AcceptedMeans(digest, loads, request, reply);
    hide Injective, SameRequest, FromLoads, Accepted, Eligible, Reusable, Rebound, ForThis, PayloadOf;
  }

  /** A reply is accepted exactly if it is the record of a load for the same request that may be reused. */
  lemma AcceptedMeans(digest: Digest, loads: set<Load>, request: Request, reply: Reply)
    requires Injective(digest) && FromLoads(digest, loads, reply)
    ensures Accepted(digest, request, reply).Some? <==>
      exists load :: load in loads && reply == Returned(RecordOf(digest, load))
                     && SameRequest(load.request, request) && Reusable(load.value, request)
    ensures Accepted(digest, request, reply).Some? ==> reply == Returned(Accepted(digest, request, reply).value)
  {
    if reply.Returned? {
      assert Eligible(reply.record.value, request) <==> Reusable(reply.record.value, request);
      forall load | load in loads && reply == Returned(RecordOf(digest, load))
        ensures reply.record.key == digest(PayloadOf(request)) <==> SameRequest(load.request, request)
        ensures SameRequest(load.request, request) ==> reply.record.kind == PayloadOf(request).kind
      {
        KeysIdentifyRequests(digest, load.request, request);
      }
      hide Injective, SameRequest, Eligible, Reusable, PayloadOf;
    }
  }

  // ----- with and without the cache

  /** A loader whose values are determined by the request, up to the identifier of a question. */
  ghost predicate Determined(loader: Request -> Value) {
    && (forall r :: loader(r).EvidenceValue? == r.ForEvidence?)
    && forall a, b :: SameRequest(a, b) ==> Rebound(loader(a), b) == Rebound(loader(b), b)
  }

  datatype Step = Step(request: Request, reply: Reply)

  ghost function LoadsAfter(digest: Digest, loader: Request -> Value, steps: seq<Step>): set<Load> {
    if steps == [] then {}
    else
      var last := steps[|steps| - 1];
      ServeNow(digest, LoadsAfter(digest, loader, steps[..|steps| - 1]), last.request, last.reply,
        Some(loader(last.request))).1
  }

  /** The backend only ever hands back what it was given; it may drop, fail and mix up keys. */
  ghost predicate Replays(digest: Digest, loader: Request -> Value, steps: seq<Step>) {
    forall i :: 0 <= i < |steps| ==> FromLoads(digest, LoadsAfter(digest, loader, steps[..i]), steps[i].reply)
  }

  lemma {:induction false} LoadsAreLoaded(digest: Digest, loader: Request -> Value, steps: seq<Step>)
    ensures forall load :: load in LoadsAfter(digest, loader, steps) ==>
              load.value == loader(load.request) && Eligible(load.value, load.request)
  {
    if steps != [] {
      LoadsAreLoaded(digest, loader, steps[..|steps| - 1]);
    }
  }

  /** Over any run and whatever the backend replays, request i is answered by the cached service
      as by the loader itself, up to the question an answer is bound to; and exactly so if the
      loader binds answers to the question it is asked. */
  lemma CacheAgrees(digest: Digest, loader: Request -> Value, steps: seq<Step>, i: nat)
    requires Injective(digest) && Determined(loader) && Replays(digest, loader, steps) && i < |steps|
    ensures var request := steps[i].request;
      var served := ServeNow(digest, LoadsAfter(digest, loader, steps[..i]), request, steps[i].reply,
        Some(loader(request))).0;
      && served.Some?
      && Rebound(served.value.value, request) == Rebound(loader(request), request)
      && (Rebound(loader(request), request) == loader(request) ==> served.value.value == loader(request))
  {
    var request, reply := steps[i].request, steps[i].reply;
    var loads := LoadsAfter(digest, loader, steps[..i]);
    LoadsAreLoaded(digest, loader, steps[..i]);
    hide LoadsAfter, SameRequest, Eligible, Determined, Injective;
    if Accepted(digest, request, reply).Some? {
      assert FromLoads(digest, loads, reply);
      var load :| load in loads && RecordOf(digest, load) == reply.record;
      KeysIdentifyRequests(digest, load.request, request);
      DeterminedAgree(loader, load.request, request);
    }
  }

  lemma DeterminedAgree(loader: Request -> Value, a: Request, b: Request)
    requires Determined(loader) && SameRequest(a, b)
    ensures Rebound(loader(a), b) == Rebound(loader(b), b)
  {
  }
}
