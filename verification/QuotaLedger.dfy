/** What the quota counters mean: requests granted and leases outstanding, over whole runs of
    either backend (src/modules/policy/quotas.py, src/adapters/postgres/quota_backend.py). */
module QuotaLedger {
  import opened Wrappers
  import opened Quotas
  import QuotaRows

  datatype Backend = InMemory | Rows

  function ReserveOf(backend: Backend, b: Buckets, scopes: seq<string>, limits: Limits, now: int): (Buckets, Outcome)
    requires limits.Valid()
  {
    match backend
    case InMemory => MemoryReserve(b, scopes, limits, now)
    case Rows => QuotaRows.RowsReserve(b, scopes, limits, now)
  }

  /** What a reserve of either backend leaves of one scope. */
  lemma ReserveScope(backend: Backend, b: Buckets, scopes: seq<string>, limits: Limits, now: int, s: string)
    requires limits.Valid()
    ensures var (after, outcome) := ReserveOf(backend, b, scopes, limits, now);
      var window := WindowStart(now, limits.windowSeconds);
      && (s !in scopes ==> (s in after <==> s in b) && (s in b ==> after[s] == b[s]))
      && (s in scopes ==> s in after)
      && (s in scopes ==> after[s].window == window || (!outcome.Allowed? && s in b && after[s] == b[s]))
      && Effective(after, s, window) ==
         Plus(Effective(b, s, window), if outcome.Allowed? then Occurrences(scopes, s) else 0)
  {
    match backend
    case InMemory => MemoryScope(b, scopes, limits, now, s);
    case Rows => QuotaRows.RowsScope(b, scopes, limits, now, s);
  }

  lemma ReserveGrants(backend: Backend, b: Buckets, scopes: seq<string>, limits: Limits, now: int)
    requires limits.Valid()
    ensures var window := WindowStart(now, limits.windowSeconds);
      var outcome := ReserveOf(backend, b, scopes, limits, now).1;
      && (outcome.Allowed? <==> !AnyBlocked(b, scopes, window, limits))
      && (outcome.Allowed? ==> outcome.lease == Lease(scopes, window))
  {
    match backend
    case InMemory => MemoryGrants(b, scopes, limits, now);
    case Rows => QuotaRows.RowsGrants(b, scopes, limits, now);
  }

  datatype Grant = Grant(now: int, lease: Lease)

  /** The backend together with every grant it made and the numbers of those given back. */
  datatype Ledger = Ledger(buckets: Buckets, grants: seq<Grant>, released: set<nat>)

  /** A request for several scopes, or giving back the k-th grant. */
  datatype Event = Request(scopes: seq<string>, now: int) | GiveBack(k: nat)

  /** Fixed limits for each scope. */
  type Policy = string -> Limits

  ghost predicate Distinct(scopes: seq<string>) {
    forall i, j :: 0 <= i < j < |scopes| ==> scopes[i] != scopes[j]
  }

  /** Requests name distinct scopes that share their limits. */
  ghost predicate Configured(policy: Policy, e: Event) {
    e.Request? ==>
      && e.scopes != [] && Distinct(e.scopes) && policy(e.scopes[0]).Valid()
      && forall s :: s in e.scopes ==> policy(s) == policy(e.scopes[0])
  }

  /** A grant is given back at most once. */
  function Step(backend: Backend, policy: Policy, l: Ledger, e: Event): Ledger
    requires e.Request? ==> e.scopes != [] && policy(e.scopes[0]).Valid()
  {
    match e
    case Request(scopes, now) =>
      var (after, outcome) := ReserveOf(backend, l.buckets, scopes, policy(scopes[0]), now);
      Ledger(after, if outcome.Allowed? then l.grants + [Grant(now, outcome.lease)] else l.grants, l.released)
    case GiveBack(k) =>
      if k < |l.grants| && k !in l.released
      then Ledger(Released(l.buckets, l.grants[k].lease), l.grants, l.released + {k}) else l
  }

  // ----- tallies

  predicate Matches(g: Grant, s: string, window: int) {
    s in g.lease.scopes && g.lease.window == window
  }

  /** How many grants of scope `s` in `window` there are, leaving out the numbers in `without`. */
  function Tally(grants: seq<Grant>, without: set<nat>, s: string, window: int): nat {
    if grants == [] then 0
    else
      var n := |grants| - 1;
      Tally(grants[..n], without, s, window) + if Matches(grants[n], s, window) && n !in without then 1 else 0
  }

  lemma TallyAppend(grants: seq<Grant>, g: Grant, without: set<nat>, s: string, window: int)
    ensures Tally(grants + [g], without, s, window) ==
      Tally(grants, without, s, window) + if Matches(g, s, window) && |grants| !in without then 1 else 0
  {
  }

  lemma {:induction false} TallyWithout(grants: seq<Grant>, without: set<nat>, k: nat, s: string, window: int)
    requires k !in without
    ensures Tally(grants, without, s, window) ==
      Tally(grants, without + {k}, s, window) + if k < |grants| && Matches(grants[k], s, window) then 1 else 0
  {
    if grants != [] {
      TallyWithout(grants[..|grants| - 1], without, k, s, window);
    }
  }

  lemma {:induction false} TallyNone(grants: seq<Grant>, without: set<nat>, s: string, window: int)
    requires forall g :: g in grants ==> !Matches(g, s, window)
    ensures Tally(grants, without, s, window) == 0
  {
    if grants != [] {
      TallyNone(grants[..|grants| - 1], without, s, window);
    }
  }

  // ----- the invariant

  /** A bucket counts the grants of its window, and the outstanding ones among them. */
  ghost predicate BucketCounts(l: Ledger, s: string) {
    s in l.buckets ==>
      && l.buckets[s].requests == Tally(l.grants, {}, s, l.buckets[s].window)
      && l.buckets[s].active == Tally(l.grants, l.released, s, l.buckets[s].window)
  }

  ghost predicate BucketBounded(policy: Policy, l: Ledger, s: string, now: int) {
    s in l.buckets ==>
      && policy(s).Valid()
      && l.buckets[s].window <= WindowStart(now, policy(s).windowSeconds)
      && l.buckets[s].requests <= policy(s).maxRequests && l.buckets[s].active <= policy(s).maxConcurrent
  }

  /** A grant lies in the window of its time, and its scopes have buckets at least as new. */
  ghost predicate GrantPlaced(policy: Policy, l: Ledger, g: Grant, now: int) {
    && g.now <= now && Distinct(g.lease.scopes)
    && forall s :: s in g.lease.scopes ==>
         && policy(s).Valid() && g.lease.window == WindowStart(g.now, policy(s).windowSeconds)
         && s in l.buckets && g.lease.window <= l.buckets[s].window
  }

  ghost predicate Inv(policy: Policy, l: Ledger, now: int) {
    && (forall s :: BucketCounts(l, s) && BucketBounded(policy, l, s, now))
    && (forall g :: g in l.grants ==> GrantPlaced(policy, l, g, now))
    && (forall k :: k in l.released ==> k < |l.grants|)
    && (forall s, window :: policy(s).Valid() ==> Tally(l.grants, {}, s, window) <= policy(s).maxRequests)
  }

  lemma InvLater(policy: Policy, l: Ledger, now: int, later: int)
    requires Inv(policy, l, now) && now <= later
    ensures Inv(policy, l, later)
  {
    forall s
      ensures BucketCounts(l, s) && BucketBounded(policy, l, s, later)
    {
      assert BucketCounts(l, s) && BucketBounded(policy, l, s, now);
      if s in l.buckets {
        WindowStartMonotone(now, later, policy(s).windowSeconds);
      }
    }
    forall g | g in l.grants
      ensures GrantPlaced(policy, l, g, later)
    {
      assert GrantPlaced(policy, l, g, now);
    }
  }

  /** No grant of `s` is in a window after that of its bucket. */
  lemma NoneAfterBucket(policy: Policy, l: Ledger, now: int, s: string, window: int, without: set<nat>)
    requires Inv(policy, l, now)
    requires s !in l.buckets || l.buckets[s].window < window
    ensures Tally(l.grants, without, s, window) == 0
  {
    forall g | g in l.grants
      ensures !Matches(g, s, window)
    {
      assert GrantPlaced(policy, l, g, now);
    }
    TallyNone(l.grants, without, s, window);
  }

  lemma {:induction false} DistinctOccurs(scopes: seq<string>, s: string)
    requires Distinct(scopes)
    ensures Occurrences(scopes, s) == if s in scopes then 1 else 0
  {
    if scopes != [] {
      DistinctOccurs(scopes[..|scopes| - 1], s);
    }
  }

  /** The counters of a scope in the current window, before a request is decided. */
  lemma EffectiveIsTally(policy: Policy, l: Ledger, now: int, s: string)
    requires Inv(policy, l, now) && policy(s).Valid()
    ensures var window := WindowStart(now, policy(s).windowSeconds);
      Effective(l.buckets, s, window) == (Tally(l.grants, {}, s, window), Tally(l.grants, l.released, s, window))
  {
    var window := WindowStart(now, policy(s).windowSeconds);
    assert BucketCounts(l, s) && BucketBounded(policy, l, s, now);
    if s !in l.buckets || l.buckets[s].window != window {
      NoneAfterBucket(policy, l, now, s, window, {});
      NoneAfterBucket(policy, l, now, s, window, l.released);
    }
  }

  /** Giving back an outstanding grant never meets the clamp at zero. */
  lemma ClampNeverActs(policy: Policy, l: Ledger, now: int, k: nat, s: string)
    requires Inv(policy, l, now) && k < |l.grants| && k !in l.released
    requires s in l.grants[k].lease.scopes && s in l.buckets && l.buckets[s].window == l.grants[k].lease.window
    ensures l.buckets[s].active >= 1
  {
    assert BucketCounts(l, s);
    TallyWithout(l.grants, l.released, k, s, l.buckets[s].window);
  }

  lemma GiveBackKeepsInv(backend: Backend, policy: Policy, l: Ledger, now: int, k: nat)
    requires Inv(policy, l, now)
    ensures Inv(policy, Step(backend, policy, l, GiveBack(k)), now)
  {
    var after := Step(backend, policy, l, GiveBack(k));
    if k < |l.grants| && k !in l.released {
      var lease := l.grants[k].lease;
      assert GrantPlaced(policy, l, l.grants[k], now);
      forall s
        ensures BucketCounts(after, s) && BucketBounded(policy, after, s, now)
        ensures s in l.buckets <==> s in after.buckets
        ensures s in l.buckets ==> after.buckets[s].window == l.buckets[s].window
      {
        assert BucketCounts(l, s) && BucketBounded(policy, l, s, now);
        ReleasedAt(l.buckets, lease, s);
        DistinctOccurs(lease.scopes, s);
        if s in l.buckets {
          TallyWithout(l.grants, l.released, k, s, l.buckets[s].window);
        }
      }
      forall g | g in after.grants
        ensures GrantPlaced(policy, after, g, now)
      {
        assert GrantPlaced(policy, l, g, now);
      }
    }
  }

  /** What a request makes of one scope. */
  ghost predicate ThroughRequest(policy: Policy, l: Ledger, after: Ledger, scopes: seq<string>, now: int, s: string) {
    && BucketCounts(after, s) && BucketBounded(policy, after, s, now)
    && (s in l.buckets ==> s in after.buckets && l.buckets[s].window <= after.buckets[s].window)
    && (s in scopes ==> s in after.buckets)
    && (s in scopes && after.grants != l.grants ==>
          after.buckets[s].window == WindowStart(now, policy(s).windowSeconds))
  }

  lemma RequestElsewhere(backend: Backend, policy: Policy, l: Ledger, scopes: seq<string>, now: int, s: string)
    requires BucketCounts(l, s) && BucketBounded(policy, l, s, now)
    requires Configured(policy, Request(scopes, now)) && s !in scopes
    ensures ThroughRequest(policy, l, Step(backend, policy, l, Request(scopes, now)), scopes, now, s)
  {
    var limits := policy(scopes[0]);
    ReserveScope(backend, l.buckets, scopes, limits, now, s);
    ReserveGrants(backend, l.buckets, scopes, limits, now);
    hide ReserveOf, WindowStart, Effective, Tally;
    if s in l.buckets {
      var g := Grant(now, Lease(scopes, WindowStart(now, limits.windowSeconds)));
      TallyAppend(l.grants, g, {}, s, l.buckets[s].window);
      TallyAppend(l.grants, g, l.released, s, l.buckets[s].window);
    }
  }

  /** A requested scope, in terms of its buckets and tallies before and after. */
  lemma HereAfter(l: Ledger, after: Ledger, s: string, window: int, g: Grant, granted: bool)
    requires Matches(g, s, window) && |l.grants| !in l.released && after.released == l.released
    requires after.grants == if granted then l.grants + [g] else l.grants
    requires BucketCounts(l, s)
    requires s in after.buckets
    requires after.buckets[s].window == window || (!granted && s in l.buckets && after.buckets[s] == l.buckets[s])
    requires Effective(l.buckets, s, window) == (Tally(l.grants, {}, s, window), Tally(l.grants, l.released, s, window))
    requires Effective(after.buckets, s, window) == Plus(Effective(l.buckets, s, window), if granted then 1 else 0)
    ensures BucketCounts(after, s)
    ensures after.buckets[s].window == window ==>
      after.buckets[s].requests == Tally(l.grants, {}, s, window) + (if granted then 1 else 0)
    ensures after.buckets[s].window == window ==>
      after.buckets[s].active == Tally(l.grants, l.released, s, window) + (if granted then 1 else 0)
  {
  }

  lemma RequestHere(backend: Backend, policy: Policy, l: Ledger, scopes: seq<string>, now: int, s: string)
    requires Inv(policy, l, now) && Configured(policy, Request(scopes, now)) && s in scopes
    ensures ThroughRequest(policy, l, Step(backend, policy, l, Request(scopes, now)), scopes, now, s)
  {
    var limits := policy(s);
    var window := WindowStart(now, limits.windowSeconds);
    var after := Step(backend, policy, l, Request(scopes, now));
    assert BucketCounts(l, s) && BucketBounded(policy, l, s, now) && |l.grants| !in l.released;
    EffectiveIsTally(policy, l, now, s);
    RequestedWithin(backend, policy, l, scopes, now, s);
    ReserveScope(backend, l.buckets, scopes, limits, now, s);
    ReserveGrants(backend, l.buckets, scopes, limits, now);
    DistinctOccurs(scopes, s);
    hide ReserveOf, WindowStart, Tally, AnyBlocked, Effective, Inv, BucketCounts;
    HereAfter(l, after, s, window, Grant(now, Lease(scopes, window)), after.grants != l.grants);
  }

  /** One scope through a request. */
  lemma RequestScope(backend: Backend, policy: Policy, l: Ledger, scopes: seq<string>, now: int, s: string)
    requires Inv(policy, l, now) && Configured(policy, Request(scopes, now))
    ensures ThroughRequest(policy, l, Step(backend, policy, l, Request(scopes, now)), scopes, now, s)
  {
    if s in scopes {
      RequestHere(backend, policy, l, scopes, now, s);
    } else {
      assert BucketCounts(l, s) && BucketBounded(policy, l, s, now);
      RequestElsewhere(backend, policy, l, scopes, now, s);
    }
  }

  /** A granted scope had room for one more. */
  lemma RequestedWithin(backend: Backend, policy: Policy, l: Ledger, scopes: seq<string>, now: int, s: string)
    requires Inv(policy, l, now) && Configured(policy, Request(scopes, now)) && s in scopes
    ensures var window := WindowStart(now, policy(s).windowSeconds);
      && Tally(l.grants, {}, s, window) <= policy(s).maxRequests
      && Tally(l.grants, l.released, s, window) <= policy(s).maxConcurrent
      && (Step(backend, policy, l, Request(scopes, now)).grants != l.grants ==>
            && Tally(l.grants, {}, s, window) < policy(s).maxRequests
            && Tally(l.grants, l.released, s, window) < policy(s).maxConcurrent)
  {
    var window := WindowStart(now, policy(s).windowSeconds);
    ReserveGrants(backend, l.buckets, scopes, policy(scopes[0]), now);
    EffectiveIsTally(policy, l, now, s);
    assert BucketBounded(policy, l, s, now);
    hide ReserveOf, WindowStart;
    var k :| 0 <= k < |scopes| && scopes[k] == s;
    assert Step(backend, policy, l, Request(scopes, now)).grants != l.grants ==>
        !Blocked(l.buckets, scopes[k], window, policy(s));
  }

  /** A new grant keeps every window of every scope within its request limit. */
  lemma RequestTally(backend: Backend, policy: Policy, l: Ledger, scopes: seq<string>, now: int, s: string, window: int)
    requires Inv(policy, l, now) && Configured(policy, Request(scopes, now)) && policy(s).Valid()
    ensures Tally(Step(backend, policy, l, Request(scopes, now)).grants, {}, s, window) <= policy(s).maxRequests
  {
    var after := Step(backend, policy, l, Request(scopes, now));
    var limits := policy(scopes[0]);
    var at := WindowStart(now, limits.windowSeconds);
    ReserveGrants(backend, l.buckets, scopes, limits, now);
    TallyAppend(l.grants, Grant(now, Lease(scopes, at)), {}, s, window);
    if after.grants != l.grants && s in scopes && window == at {
      EffectiveIsTally(policy, l, now, s);
      var k :| 0 <= k < |scopes| && scopes[k] == s;
      assert !Blocked(l.buckets, scopes[k], at, limits);
    }
  }

  lemma RequestKeepsInv(backend: Backend, policy: Policy, l: Ledger, scopes: seq<string>, now: int)
    requires Inv(policy, l, now) && Configured(policy, Request(scopes, now))
    ensures Inv(policy, Step(backend, policy, l, Request(scopes, now)), now)
  {
    var after := Step(backend, policy, l, Request(scopes, now));
    ReserveGrants(backend, l.buckets, scopes, policy(scopes[0]), now);
    forall s
      ensures BucketCounts(after, s) && BucketBounded(policy, after, s, now)
      ensures s in l.buckets ==> s in after.buckets && l.buckets[s].window <= after.buckets[s].window
      ensures s in scopes ==> s in after.buckets
      ensures s in scopes && after.grants != l.grants ==>
          after.buckets[s].window == WindowStart(now, policy(s).windowSeconds)
    {
      RequestScope(backend, policy, l, scopes, now, s);
    }
    forall g | g in after.grants
      ensures GrantPlaced(policy, after, g, now)
    {
      if g in l.grants {
        assert GrantPlaced(policy, l, g, now);
      }
    }
    forall s, window | policy(s).Valid()
      ensures Tally(after.grants, {}, s, window) <= policy(s).maxRequests
    {
      RequestTally(backend, policy, l, scopes, now, s, window);
    }
  }

  // ----- whole runs

  function RunAll(backend: Backend, policy: Policy, events: seq<Event>): Ledger
    requires forall e :: e in events && e.Request? ==> e.scopes != [] && policy(e.scopes[0]).Valid()
  {
    if events == [] then Ledger(map[], [], {})
    else Step(backend, policy, RunAll(backend, policy, events[..|events| - 1]), events[|events| - 1])
  }

  /** Requests come in order of time, the last no later than `now`. */
  ghost predicate InOrder(events: seq<Event>, now: int) {
    && (forall i :: 0 <= i < |events| && events[i].Request? ==> events[i].now <= now)
    && (forall i, j :: 0 <= i < j < |events| && events[i].Request? && events[j].Request? ==>
      events[i].now <= events[j].now)
  }

  /** At every moment of every run of either backend, a bucket's counters are the grants of its window and the
      leases of its window not yet given back, and both are within the limits. */
  lemma {:induction false} LedgerTheorem(backend: Backend, policy: Policy, events: seq<Event>, now: int)
    requires forall e :: e in events ==> Configured(policy, e)
    requires InOrder(events, now)
    ensures forall e :: e in events && e.Request? ==> e.scopes != [] && policy(e.scopes[0]).Valid()
    ensures Inv(policy, RunAll(backend, policy, events), now)
  {
    if events != [] {
      var before, last := events[..|events| - 1], events[|events| - 1];
      assert last in events && Configured(policy, last);
      var at := if last.Request? then last.now else now;
      LedgerTheorem(backend, policy, before, at);
      match last
      case Request(scopes, _) => RequestKeepsInv(backend, policy, RunAll(backend, policy, before), scopes, at);
      case GiveBack(k) => GiveBackKeepsInv(backend, policy, RunAll(backend, policy, before), at, k);
    }
    forall e | e in events && e.Request?
      ensures e.scopes != [] && policy(e.scopes[0]).Valid()
    {
      assert Configured(policy, e);
    }
    if events != [] && events[|events| - 1].Request? {
      InvLater(policy, RunAll(backend, policy, events), events[|events| - 1].now, now);
    }
  }

  /** Grants of scope `s` made from `lo` on and before `hi`. */
  function Between(grants: seq<Grant>, s: string, lo: int, hi: int): nat {
    if grants == [] then 0
    else
      var g := grants[|grants| - 1];
      Between(grants[..|grants| - 1], s, lo, hi) + if s in g.lease.scopes && lo <= g.now < hi then 1 else 0
  }

  /** The numbers of those grants. */
  ghost function GrantsIn(grants: seq<Grant>, s: string, lo: int, hi: int): set<nat> {
    set i | 0 <= i < |grants| && s in grants[i].lease.scopes && lo <= grants[i].now < hi
  }

  lemma {:induction false} BetweenCounts(grants: seq<Grant>, s: string, lo: int, hi: int)
    ensures Between(grants, s, lo, hi) == |GrantsIn(grants, s, lo, hi)|
  {
    if grants != [] {
      var n := |grants| - 1;
      var g := grants[n];
      BetweenCounts(grants[..n], s, lo, hi);
      if s in g.lease.scopes && lo <= g.now < hi {
        assert GrantsIn(grants, s, lo, hi) == GrantsIn(grants[..n], s, lo, hi) + {n};
      } else {
        assert GrantsIn(grants, s, lo, hi) == GrantsIn(grants[..n], s, lo, hi);
      }
    }
  }

  /** A span no longer than the window meets at most two windows. */
  lemma {:induction false} BetweenTwoWindows(policy: Policy, grants: seq<Grant>, s: string, lo: int, hi: int)
    requires policy(s).Valid() && lo < hi <= lo + policy(s).windowSeconds * SECOND
    requires forall g :: g in grants && s in g.lease.scopes ==>
        g.lease.window == WindowStart(g.now, policy(s).windowSeconds)
    ensures var first := WindowStart(lo, policy(s).windowSeconds);
      var second := first + policy(s).windowSeconds * SECOND;
      Between(grants, s, lo, hi) <= Tally(grants, {}, s, first) + Tally(grants, {}, s, second)
  {
    if grants != [] {
      var g := grants[|grants| - 1];
      BetweenTwoWindows(policy, grants[..|grants| - 1], s, lo, hi);
      if s in g.lease.scopes && lo <= g.now < hi {
        WindowOfSpan(lo, g.now, policy(s).windowSeconds);
      }
    }
  }

  lemma WindowOfSpan(lo: int, now: int, w: nat)
    requires w > 0 && lo <= now < lo + w * SECOND
    ensures WindowStart(now, w) == WindowStart(lo, w) || WindowStart(now, w) == WindowStart(lo, w) + w * SECOND
  {
    WindowStartIsMultiple(lo, w);
    WindowStartIsMultiple(now, w);
    WindowStartMonotone(lo, now, w);
    var next := WindowStart(lo, w) + w * SECOND;
    if WindowStart(now, w) > next {
      NextWindowStart(lo, w);
      WindowStartMonotone(next, now, w);
    }
  }

  lemma NextWindowStart(now: int, w: nat)
    requires w > 0
    ensures WindowStart(WindowStart(now, w) + w * SECOND, w) == WindowStart(now, w) + w * SECOND
  {
    var m, a := w * SECOND, now / (w * SECOND);
    var next := WindowStart(now, w) + m;
    WindowStartIsMultiple(now, w);
    assert next == m * (a + 1);
    WindowStartIsMultiple(next, w);
    if next / m < a + 1 {
      MultipleLe(m, next / m, a + 1);
    } else {
      MultipleLe(m, a + 1, next / m);
    }
  }

  lemma TwiceInLedger(policy: Policy, l: Ledger, now: int, s: string, lo: int)
    requires Inv(policy, l, now) && policy(s).Valid()
    ensures Between(l.grants, s, lo, lo + policy(s).windowSeconds * SECOND) <= 2 * policy(s).maxRequests
  {
    forall g | g in l.grants && s in g.lease.scopes
      ensures g.lease.window == WindowStart(g.now, policy(s).windowSeconds)
    {
      assert GrantPlaced(policy, l, g, now);
    }
    BetweenTwoWindows(policy, l.grants, s, lo, lo + policy(s).windowSeconds * SECOND);
  }

  /** In any span of window length, a scope is granted at most twice its request limit. */
  lemma TwiceTheLimit(backend: Backend, policy: Policy, events: seq<Event>, now: int, s: string, lo: int)
    requires forall e :: e in events ==> Configured(policy, e)
    requires InOrder(events, now) && policy(s).Valid()
    ensures forall e :: e in events && e.Request? ==> e.scopes != [] && policy(e.scopes[0]).Valid()
    ensures |GrantsIn(RunAll(backend, policy, events).grants, s, lo,
        lo + policy(s).windowSeconds * SECOND)| <= 2 * policy(s).maxRequests
  {
    hide Inv, RunAll, GrantsIn, Between, Configured, InOrder;
    LedgerTheorem(backend, policy, events, now);
    TwiceInLedger(policy, RunAll(backend, policy, events), now, s, lo);
    BetweenCounts(RunAll(backend, policy, events).grants, s, lo, lo + policy(s).windowSeconds * SECOND);
  }
}
