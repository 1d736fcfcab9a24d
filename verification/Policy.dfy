/** Which documents a principal may read, by the authoritative metadata
    (src/modules/policy/authorizer.py, src/modules/policy/enforcement.py). */
module Policy {
  import opened Wrappers

  datatype Principal = Principal(id: string, tenant: string, roles: seq<string>, groups: seq<string>, known: bool)

  datatype DocumentRef = DocumentRef(tenant: string, document: string, version: Option<string>)

  datatype DocumentPolicy = DocumentPolicy(tenant: string, document: string, version: Option<string>,
                                           policy: seq<string>, deleted: bool)

  datatype Reason = Public | ByPrincipal | ByRole | ByGroup | PolicyDenied

  datatype Decision = Decision(allowed: bool, reason: Reason)

  /** `Authorizer.authorize` for reading, within the tenant of a known principal. */
  function Authorize(p: Principal, policy: seq<string>): Decision {
    if "public" in policy then Decision(true, Public)
    else if "principal:" + p.id in policy then Decision(true, ByPrincipal)
    else if exists r :: r in p.roles && "role:" + r in policy then Decision(true, ByRole)
    else if exists g :: g in p.groups && "group:" + g in policy then Decision(true, ByGroup)
    else Decision(false, PolicyDenied)
  }

  /** The metadata of a reference, as the store resolves it; the store may fail as a whole. */
  datatype PolicyStore = Unavailable | Policies(of: map<DocumentRef, DocumentPolicy>)

  /** The entries of a search scope. */
  function AccessEntries(p: Principal): set<string> {
    {"public", "principal:" + p.id} + (set r | r in p.roles :: "role:" + r) + (set g | g in p.groups :: "group:" + g)
  }

  /** A principal may read a document version when it is known, the reference is of its own
      tenant, the metadata agree with it, the document is not deleted, and some entry of its
      policy is one of the principal's. */
  predicate MayRead(p: Principal, policies: map<DocumentRef, DocumentPolicy>, ref: DocumentRef) {
    && p.known && ref.tenant == p.tenant && ref in policies
    && !policies[ref].deleted
    && policies[ref].tenant == ref.tenant && policies[ref].document == ref.document
      && policies[ref].version == ref.version
    && exists entry :: entry in policies[ref].policy && entry in AccessEntries(p)
  }

  lemma AuthorizeMeansEntry(p: Principal, policy: seq<string>)
    ensures Authorize(p, policy).allowed <==> exists entry :: entry in policy && entry in AccessEntries(p)
  {
  }

  /** The reason is the first kind of entry that allows it: public, principal, role, group. */
  lemma ReasonIsFirst(p: Principal, policy: seq<string>)
    ensures var d := Authorize(p, policy);
      && (d.reason == Public <==> "public" in policy)
      && (d.reason == ByPrincipal ==> "principal:" + p.id in policy)
      && (d.reason == ByRole ==> "principal:" + p.id !in policy && exists r :: r in p.roles && "role:" + r in policy)
      && (d.reason == ByGroup ==>
            && "principal:" + p.id !in policy && (forall r :: r in p.roles ==> "role:" + r !in policy)
            && exists g :: g in p.groups && "group:" + g in policy)
      && (d.allowed <==> d.reason != PolicyDenied)
  {
  }

  /** The distinct references of the principal's own tenant. */
  method OwnTenant(p: Principal, references: seq<DocumentRef>) returns (scoped: seq<DocumentRef>)
    ensures forall ref :: ref in scoped <==> ref in references && ref.tenant == p.tenant
  {
    scoped := [];
    for i := 0 to |references|
      invariant forall ref :: ref in scoped <==> ref in references[..i] && ref.tenant == p.tenant
    {
      if references[i].tenant == p.tenant && references[i] !in scoped {
        scoped := scoped + [references[i]];
      }
    }
  }

  /** The decision on one reference, by its metadata. */
  method DecideOne(p: Principal, policies: map<DocumentRef, DocumentPolicy>, ref: DocumentRef)
    returns (d: Option<Decision>)
    requires p.known && ref.tenant == p.tenant
    ensures d == if MayRead(p, policies, ref) then Some(Authorize(p, policies[ref].policy)) else None
  {
    if ref !in policies {
      return None;
    }
    var policy := policies[ref];
    if policy.deleted || policy.tenant != ref.tenant || policy.document != ref.document
      || policy.version != ref.version {
      return None;
    }
    AuthorizeMeansEntry(p, policy.policy);
    var decision := Authorize(p, policy.policy);
    d := if decision.allowed then Some(decision) else None;
  }

  function Granted(p: Principal, policies: map<DocumentRef, DocumentPolicy>,
                   references: seq<DocumentRef>): map<DocumentRef, Decision> {
    map ref | ref in references && MayRead(p, policies, ref) :: Authorize(p, policies[ref].policy)
  }

  lemma GrantedStep(p: Principal, policies: map<DocumentRef, DocumentPolicy>, references: seq<DocumentRef>, i: nat)
    requires i < |references|
    ensures Granted(p, policies, references[..i + 1]) ==
      if MayRead(p, policies, references[i])
      then Granted(p, policies, references[..i])[references[i] := Authorize(p, policies[references[i]].policy)]
      else Granted(p, policies, references[..i])
  {
  }

  /** `authorize_reads`: exactly the references the principal may read. */
  method AuthorizeReads(p: Principal, store: PolicyStore, references: seq<DocumentRef>)
    returns (r: Option<map<DocumentRef, Decision>>)
    ensures r == AuthorizedReads(p, store, references)
  {
    if !p.known {
      return Some(map[]);
    }
    var scoped := OwnTenant(p, references);
    if scoped == [] {
      return Some(map[]);
    }
    assert scoped[0] in references && scoped[0].tenant == p.tenant;
    if store.Unavailable? {
      return None;
    }
    var authorized: map<DocumentRef, Decision> := map[];
    for i := 0 to |scoped|
      invariant authorized == Granted(p, store.of, scoped[..i])
    {
      GrantedStep(p, store.of, scoped, i);
      var decision := DecideOne(p, store.of, scoped[i]);
      if decision.Some? {
        authorized := authorized[scoped[i] := decision.value];
      }
    }
    assert scoped[..|scoped|] == scoped;
    assert Granted(p, store.of, scoped) == Granted(p, store.of, references);
    r := Some(authorized);
  }

  /** No answer when the store fails, unless nothing had to be looked up. */
  function AuthorizedReads(p: Principal, store: PolicyStore,
                           references: seq<DocumentRef>): Option<map<DocumentRef, Decision>> {
    if !p.known || forall ref :: ref in references ==> ref.tenant != p.tenant then Some(map[])
    else if store.Unavailable? then None
    else Some(Granted(p, store.of, references))
  }
}
