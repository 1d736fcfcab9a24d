/** Fixed-window request and concurrency quotas over several scopes at once, in memory and
    over locked rows (src/modules/policy/quotas.py, src/adapters/postgres/quota_backend.py). */
module Quotas {
  import opened Wrappers

  /** Instants are in microseconds. */
  const SECOND: nat := 1_000_000

  datatype Limits = Limits(maxRequests: nat, windowSeconds: nat, maxConcurrent: nat) {
    predicate Valid() {
      maxRequests > 0 && windowSeconds > 0 && maxConcurrent > 0
    }
  }

  datatype Bucket = Bucket(window: int, requests: nat, active: nat)

  type Buckets = map<string, Bucket>

  datatype Lease = Lease(scopes: seq<string>, window: int)

  datatype Outcome = Allowed(lease: Lease) | RateLimited(retryAfter: int) | ConcurrentLimited

  datatype BackendError = ScopesRequired

  // ----- windows

  function WindowStart(now: int, windowSeconds: nat): int
    requires windowSeconds > 0
  {
    now - now % (windowSeconds * SECOND)
  }

  function RetryAfter(window: int, limits: Limits, now: int): int {
    var left := window + limits.windowSeconds * SECOND - now;
    var ceiling := (left + SECOND - 1) / SECOND;
    if ceiling < 1 then 1 else ceiling
  }

  lemma WindowStartIsMultiple(now: int, w: nat)
    requires w > 0
    ensures WindowStart(now, w) == (w * SECOND) * (now / (w * SECOND))
    ensures WindowStart(now, w) <= now < WindowStart(now, w) + w * SECOND
  {
  }

  lemma MultipleLe(m: int, a: int, b: int)
    requires m > 0 && a <= b
    ensures m * a <= m * b
    ensures a < b ==> m * a + m <= m * b
  {
    if a < b {
      assert m * b == m * (a + 1) + m * (b - a - 1);
      assert m * (b - a - 1) >= 0;
    }
  }

  lemma DivMonotone(m: int, a: int, b: int)
    requires m > 0 && a <= b
    ensures a / m <= b / m
  {
    if b / m < a / m {
      MultipleLe(m, b / m, a / m);
    }
  }

  /** Windows never go back in time, and distinct windows do not overlap. */
  lemma WindowStartMonotone(a: int, b: int, w: nat)
    requires w > 0 && a <= b
    ensures WindowStart(a, w) <= WindowStart(b, w)
    ensures WindowStart(a, w) < WindowStart(b, w) ==> WindowStart(a, w) + w * SECOND <= WindowStart(b, w)
  {
    WindowStartIsMultiple(a, w);
    WindowStartIsMultiple(b, w);
    DivMonotone(w * SECOND, a, b);
    MultipleLe(w * SECOND, a / (w * SECOND), b / (w * SECOND));
  }

  /** Waiting the reported time reaches a later window; a whole second less would not,
      unless the report is the least it can be. */
  lemma RetryReachesNextWindow(now: int, limits: Limits)
    requires limits.Valid()
    ensures var w := WindowStart(now, limits.windowSeconds);
      var retry := RetryAfter(w, limits, now);
      && retry >= 1
      && WindowStart(now + retry * SECOND, limits.windowSeconds) > w
      && (retry > 1 ==> WindowStart(now + (retry - 1) * SECOND, limits.windowSeconds) == w)
  {
    var ws := limits.windowSeconds;
    var w := WindowStart(now, ws);
    var retry := RetryAfter(w, limits, now);
    WindowStartIsMultiple(now, ws);
    var later := now + retry * SECOND;
    WindowStartIsMultiple(later, ws);
    WindowStartMonotone(now, later, ws);
    if retry > 1 {
      var sooner := now + (retry - 1) * SECOND;
      assert now <= sooner < w + ws * SECOND;
      WindowStartIsMultiple(sooner, ws);
      WindowStartMonotone(now, sooner, ws);
    }
  }

  // ----- what a bucket counts for in a window

  function Effective(b: Buckets, scope: string, window: int): (nat, nat) {
    if scope in b && b[scope].window == window then (b[scope].requests, b[scope].active) else (0, 0)
  }

  predicate RateBlocked(b: Buckets, scope: string, window: int, limits: Limits) {
    Effective(b, scope, window).0 >= limits.maxRequests
  }

  predicate Blocked(b: Buckets, scope: string, window: int, limits: Limits) {
    RateBlocked(b, scope, window, limits) || Effective(b, scope, window).1 >= limits.maxConcurrent
  }

  /** Scopes brought into the window, counters of earlier windows dropped. */
  function Refreshed(b: Buckets, scopes: seq<string>, window: int): Buckets {
    if scopes == [] then b
    else
      var s := scopes[|scopes| - 1];
      var before := Refreshed(b, scopes[..|scopes| - 1], window);
      if s in before && before[s].window == window then before else before[s := Bucket(window, 0, 0)]
  }

  /** Each occurrence of a scope counts one request and one active lease. */
  function Taken(b: Buckets, scopes: seq<string>): Buckets {
    if scopes == [] then b
    else
      var s := scopes[|scopes| - 1];
      var before := Taken(b, scopes[..|scopes| - 1]);
      if s in before then before[s := Bucket(before[s].window, before[s].requests + 1, before[s].active + 1)]
        else before
  }

  function Released(b: Buckets, lease: Lease): Buckets
    decreases |lease.scopes|
  {
    if lease.scopes == [] then b
    else
      var n := |lease.scopes| - 1;
      var s := lease.scopes[n];
      var before := Released(b, Lease(lease.scopes[..n], lease.window));
      if s in before && before[s].window == lease.window
      then before[s := before[s].(active := if before[s].active > 0 then before[s].active - 1 else 0)] else before
  }

  function Occurrences(scopes: seq<string>, s: string): nat {
    if scopes == [] then 0
    else Occurrences(scopes[..|scopes| - 1], s) + if scopes[|scopes| - 1] == s then 1 else 0
  }

  lemma {:induction false} RefreshedAt(b: Buckets, scopes: seq<string>, window: int, s: string)
    ensures var after := Refreshed(b, scopes, window);
      && (s in scopes ==> s in after && after[s].window == window)
      && (s !in scopes ==> (s in after <==> s in b) && (s in b ==> after[s] == b[s]))
      && Effective(after, s, window) == Effective(b, s, window)
  {
    if scopes != [] {
      RefreshedAt(b, scopes[..|scopes| - 1], window, s);
    }
  }

  lemma {:induction false} TakenAt(b: Buckets, scopes: seq<string>, s: string)
    ensures var after := Taken(b, scopes);
      && (s in after <==> s in b)
      && (s in b ==> after[s] == Bucket(b[s].window, b[s].requests + Occurrences(scopes, s),
        b[s].active + Occurrences(scopes, s)))
  {
    if scopes != [] {
      TakenAt(b, scopes[..|scopes| - 1], s);
    }
  }

  lemma {:induction false} ReleasedAt(b: Buckets, lease: Lease, s: string)
    ensures var after := Released(b, lease);
      var n := Occurrences(lease.scopes, s);
      && (s in after <==> s in b)
      && (s in b ==> after[s] == if b[s].window == lease.window
                                 then b[s].(active := if b[s].active > n then b[s].active - n else 0) else b[s])
    decreases |lease.scopes|
  {
    if lease.scopes != [] {
      ReleasedAt(b, Lease(lease.scopes[..|lease.scopes| - 1], lease.window), s);
    }
  }

  // ----- in memory

  function MemoryReserve(b: Buckets, scopes: seq<string>, limits: Limits, now: int): (Buckets, Outcome)
    requires limits.Valid()
  {
    var window := WindowStart(now, limits.windowSeconds);
    var current := Refreshed(b, scopes, window);
    if exists s :: s in scopes && RateBlocked(current, s, window, limits) then
      (current, RateLimited(RetryAfter(window, limits, now)))
    else if exists s :: s in scopes && Blocked(current, s, window, limits) then (current, ConcurrentLimited)
    else (Taken(current, scopes), Allowed(Lease(scopes, window)))
  }

  class InMemoryQuotaBackend {
    var buckets: Buckets

    constructor ()
      ensures buckets == map[]
    {
      buckets := map[];
    }

    method CurrentBucket(scope: string, window: int) returns (bucket: Bucket)
      modifies this
      ensures buckets == Refreshed(old(buckets), [scope], window)
      ensures scope in buckets && bucket == buckets[scope]
    {
      if scope !in buckets || buckets[scope].window != window {
        buckets := buckets[scope := Bucket(window, 0, 0)];
      }
      bucket := buckets[scope];
    }

    method Reserve(scopes: seq<string>, limits: Limits, now: int) returns (r: Result<Outcome, BackendError>)
      requires limits.Valid()
      modifies this
      ensures scopes == [] ==> r == Err(ScopesRequired) && buckets == old(buckets)
      ensures scopes != [] ==>
        r == Ok(MemoryReserve(old(buckets), scopes, limits, now).1)
        && buckets == MemoryReserve(old(buckets), scopes, limits, now).0
    {
      if scopes == [] {
        return Err(ScopesRequired);
      }
      var window := WindowStart(now, limits.windowSeconds);
      for i := 0 to |scopes|
        invariant buckets == Refreshed(old(buckets), scopes[..i], window)
      {
        assert scopes[..i + 1][..i] == scopes[..i];
        var _ := CurrentBucket(scopes[i], window);
      }
      assert scopes[..|scopes|] == scopes;
      var current := buckets;
      forall s | s in scopes
        ensures s in current && current[s].window == window
      {
        RefreshedAt(old(buckets), scopes, window, s);
      }
      if exists s :: s in scopes && current[s].requests >= limits.maxRequests {
        assert exists s :: s in scopes && RateBlocked(current, s, window, limits);
        return Ok(RateLimited(RetryAfter(window, limits, now)));
      }
      assert forall s :: s in scopes ==> !RateBlocked(current, s, window, limits);
      if exists s :: s in scopes && current[s].active >= limits.maxConcurrent {
        assert exists s :: s in scopes && Blocked(current, s, window, limits);
        return Ok(ConcurrentLimited);
      }
      assert forall s :: s in scopes ==> !Blocked(current, s, window, limits);
      for i := 0 to |scopes|
        invariant buckets == Taken(current, scopes[..i])
      {
        assert scopes[..i + 1][..i] == scopes[..i];
        TakenAt(current, scopes[..i], scopes[i]);
        var bucket := buckets[scopes[i]];
        buckets := buckets[scopes[i] := Bucket(bucket.window, bucket.requests + 1, bucket.active + 1)];
      }
      r := Ok(Allowed(Lease(scopes, window)));
    }

    method Release(lease: Lease)
      modifies this
      ensures buckets == Released(old(buckets), lease)
    {
      for i := 0 to |lease.scopes|
        invariant buckets == Released(old(buckets), Lease(lease.scopes[..i], lease.window))
      {
        assert lease.scopes[..i + 1][..i] == lease.scopes[..i];
        var scope := lease.scopes[i];
        if scope in buckets && buckets[scope].window == lease.window {
          var bucket := buckets[scope];
          buckets := buckets[scope := bucket.(active := if bucket.active - 1 > 0 then bucket.active - 1 else 0)];
        }
      }
      assert Lease(lease.scopes[..|lease.scopes|], lease.window) == lease;
    }
  }

  // ----- the in-memory reserve, scope by scope

  function Plus(e: (nat, nat), n: nat): (nat, nat) {
    (e.0 + n, e.1 + n)
  }

  lemma {:induction false} NoOccurrences(scopes: seq<string>, s: string)
    ensures s !in scopes ==> Occurrences(scopes, s) == 0
  {
    if scopes != [] {
      NoOccurrences(scopes[..|scopes| - 1], s);
    }
  }

  /** What a reserve leaves of one scope, in memory. */
  lemma MemoryScope(b: Buckets, scopes: seq<string>, limits: Limits, now: int, s: string)
    requires limits.Valid()
    ensures var (after, outcome) := MemoryReserve(b, scopes, limits, now);
      var window := WindowStart(now, limits.windowSeconds);
      && (s !in scopes ==> (s in after <==> s in b) && (s in b ==> after[s] == b[s]))
      && (s in scopes ==> s in after && after[s].window == window)
      && Effective(after, s, window)
        == Plus(Effective(b, s, window), if outcome.Allowed? then Occurrences(scopes, s) else 0)
  {
    var window := WindowStart(now, limits.windowSeconds);
    RefreshedAt(b, scopes, window, s);
    TakenAt(Refreshed(b, scopes, window), scopes, s);
    NoOccurrences(scopes, s);
  }

  /** Some scope is blocked. */
  ghost predicate AnyBlocked(b: Buckets, scopes: seq<string>, window: int, limits: Limits) {
    exists k :: 0 <= k < |scopes| && Blocked(b, scopes[k], window, limits)
  }

  lemma MemoryGrants(b: Buckets, scopes: seq<string>, limits: Limits, now: int)
    requires limits.Valid()
    ensures var window := WindowStart(now, limits.windowSeconds);
      var outcome := MemoryReserve(b, scopes, limits, now).1;
      && (outcome.Allowed? <==> !AnyBlocked(b, scopes, window, limits))
      && (outcome.Allowed? ==> outcome.lease == Lease(scopes, window))
      && (outcome.RateLimited? <==> exists k :: 0 <= k < |scopes| && RateBlocked(b, scopes[k], window, limits))
  {
    var window := WindowStart(now, limits.windowSeconds);
    var current := Refreshed(b, scopes, window);
    forall s
      ensures Effective(current, s, window) == Effective(b, s, window)
    {
      RefreshedAt(b, scopes, window, s);
    }
    forall k | 0 <= k < |scopes|
      ensures scopes[k] in scopes
    {
    }
  }
}
