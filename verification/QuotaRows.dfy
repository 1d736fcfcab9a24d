/** The PostgreSQL quota backend, and that it and the in-memory backend simulate each other
    (src/adapters/postgres/quota_backend.py). */
module QuotaRows {
  import opened Wrappers
  import opened Quotas

  /** `INSERT ... ON CONFLICT DO NOTHING` for each scope. */
  function Inserted(b: Buckets, scopes: seq<string>, window: int): Buckets {
    if scopes == [] then b
    else
      var s := scopes[|scopes| - 1];
      var before := Inserted(b, scopes[..|scopes| - 1], window);
      if s in before then before else before[s := Bucket(window, 0, 0)]
  }

  /** The row loop from the i-th scope on: stale rows are reset as they are met, and the first
      blocked one ends the loop, so that later rows stay as they were read. */
  function Scan(b: Buckets, rows: Buckets, scopes: seq<string>, i: nat, limits: Limits,
                now: int): (Buckets, Option<Outcome>)
    requires limits.Valid() && i <= |scopes| && forall s :: s in scopes ==> s in rows
    decreases |scopes| - i
  {
    if i == |scopes| then (b, None)
    else
      var window := WindowStart(now, limits.windowSeconds);
      var row := rows[scopes[i]];
      var reset := row.window != window;
      var after := if reset then b[scopes[i] := Bucket(window, 0, 0)] else b;
      if (if reset then 0 else row.requests) >= limits.maxRequests then
        (after, Some(RateLimited(RetryAfter(window, limits, now))))
      else if (if reset then 0 else row.active) >= limits.maxConcurrent then (after, Some(ConcurrentLimited))
      else Scan(after, rows, scopes, i + 1, limits, now)
  }

  function RowsReserve(b: Buckets, scopes: seq<string>, limits: Limits, now: int): (Buckets, Outcome)
    requires limits.Valid()
  {
    var window := WindowStart(now, limits.windowSeconds);
    var rows := Inserted(b, scopes, window);
    InsertedKeys(b, scopes, window);
    var scanned := Scan(rows, rows, scopes, 0, limits, now);
    if scanned.1.Some? then (scanned.0, scanned.1.value)
    else (Taken(scanned.0, scopes), Allowed(Lease(scopes, window)))
  }

  lemma {:induction false} InsertedAt(b: Buckets, scopes: seq<string>, window: int, s: string)
    ensures var after := Inserted(b, scopes, window);
      && (s in after <==> s in b || s in scopes)
      && (s in b ==> after[s] == b[s])
      && (s !in b && s in scopes ==> after[s] == Bucket(window, 0, 0))
  {
    if scopes != [] {
      InsertedAt(b, scopes[..|scopes| - 1], window, s);
    }
  }

  lemma InsertedKeys(b: Buckets, scopes: seq<string>, window: int)
    ensures forall s :: s in scopes ==> s in Inserted(b, scopes, window)
  {
  }

  class PostgresQuotaBackend {
    var buckets: Buckets

    constructor ()
      ensures buckets == map[]
    {
      buckets := map[];
    }

    method Reserve(scopes: seq<string>, limits: Limits, now: int) returns (outcome: Outcome)
      requires limits.Valid()
      modifies this
      ensures outcome == RowsReserve(old(buckets), scopes, limits, now).1
      ensures buckets == RowsReserve(old(buckets), scopes, limits, now).0
    {
      var window := WindowStart(now, limits.windowSeconds);
      for i := 0 to |scopes|
        invariant buckets == Inserted(old(buckets), scopes[..i], window)
      {
        assert scopes[..i + 1][..i] == scopes[..i];
        if scopes[i] !in buckets {
          buckets := buckets[scopes[i] := Bucket(window, 0, 0)];
        }
      }
      assert scopes[..|scopes|] == scopes;
      InsertedKeys(old(buckets), scopes, window);
      var rows := buckets;
      for i := 0 to |scopes|
        invariant Scan(rows, rows, scopes, 0, limits, now) == Scan(buckets, rows, scopes, i, limits, now)
      {
        var row := rows[scopes[i]];
        var reset := row.window != window;
        var requestCount := if reset then 0 else row.requests;
        var activeCount := if reset then 0 else row.active;
        if reset {
          buckets := buckets[scopes[i] := Bucket(window, 0, 0)];
        }
        if requestCount >= limits.maxRequests {
          return RateLimited(RetryAfter(window, limits, now));
        }
        if activeCount >= limits.maxConcurrent {
          return ConcurrentLimited;
        }
      }
      ghost var scanned := buckets;
      for i := 0 to |scopes|
        invariant buckets == Taken(scanned, scopes[..i])
      {
        assert scopes[..i + 1][..i] == scopes[..i];
        if scopes[i] in buckets {
          var bucket := buckets[scopes[i]];
          buckets := buckets[scopes[i] := Bucket(bucket.window, bucket.requests + 1, bucket.active + 1)];
        }
      }
      outcome := Allowed(Lease(scopes, window));
    }

    method Release(lease: Lease)
      modifies this
      ensures buckets == Released(old(buckets), lease)
    {
      for i := 0 to |lease.scopes|
        invariant buckets == Released(old(buckets), Lease(lease.scopes[..i], lease.window))
      {
        assert lease.scopes[..i + 1][..i] == lease.scopes[..i];
        var scope := lease.scopes[i];
        if scope in buckets && buckets[scope].window == lease.window {
          buckets := buckets[scope := buckets[scope].(active := if buckets[scope].active > 0 then
            buckets[scope].active - 1 else 0)];
        }
      }
      assert Lease(lease.scopes[..|lease.scopes|], lease.window) == lease;
    }
  }

  // ----- the row loop, described without the loop

  /** What the scan leaves in a row: reset or untouched, either way worth the same in the window. */
  lemma {:induction false} ScanAt(b: Buckets, rows: Buckets, scopes: seq<string>, i: nat, limits: Limits, now: int,
                                  s: string)
    requires limits.Valid() && i <= |scopes| && (forall x :: x in scopes ==> x in rows)
    requires forall x :: x in rows ==>
      x in b && (b[x] == rows[x] || (rows[x].window != WindowStart(now, limits.windowSeconds)
                                     && b[x] == Bucket(WindowStart(now, limits.windowSeconds), 0, 0)))
    ensures var (after, denial) := Scan(b, rows, scopes, i, limits, now);
      var window := WindowStart(now, limits.windowSeconds);
      && (s in after <==> s in b)
      && (s in b && s !in scopes ==> after[s] == b[s])
      && (s in rows ==> after[s] == rows[s] || (rows[s].window != window && after[s] == Bucket(window, 0, 0)))
      && (s in b && b[s].window == window ==> after[s] == b[s])
      && (denial == None && s in scopes[i..] ==> after[s].window == window)
    decreases |scopes| - i
  {
    if i < |scopes| {
      var window := WindowStart(now, limits.windowSeconds);
      var after := if rows[scopes[i]].window != window then b[scopes[i] := Bucket(window, 0, 0)] else b;
      ScanAt(after, rows, scopes, i + 1, limits, now, s);
    }
  }

  /** The scan is decided by the first blocked scope. */
  lemma {:induction false} ScanDenial(b: Buckets, rows: Buckets, scopes: seq<string>, i: nat, limits: Limits, now: int)
    requires limits.Valid() && i <= |scopes| && (forall x :: x in scopes ==> x in rows)
    ensures var denial := Scan(b, rows, scopes, i, limits, now).1;
      var window := WindowStart(now, limits.windowSeconds);
      match denial
      case None => forall k :: i <= k < |scopes| ==> !Blocked(rows, scopes[k], window, limits)
      case Some(outcome) =>
        exists k :: i <= k < |scopes| && FirstBlocked(rows, scopes, i, k, window, limits)
          && outcome == if RateBlocked(rows, scopes[k], window, limits) then
            RateLimited(RetryAfter(window, limits, now))
                        else ConcurrentLimited
    decreases |scopes| - i
  {
    if i < |scopes| {
      var window := WindowStart(now, limits.windowSeconds);
      if Blocked(rows, scopes[i], window, limits) {
        assert FirstBlocked(rows, scopes, i, i, window, limits);
      } else {
        var after := if rows[scopes[i]].window != window then b[scopes[i] := Bucket(window, 0, 0)] else b;
        ScanDenial(after, rows, scopes, i + 1, limits, now);
        forall k | i + 1 <= k < |scopes| && FirstBlocked(rows, scopes, i + 1, k, window, limits)
          ensures FirstBlocked(rows, scopes, i, k, window, limits)
        {
        }
      }
    }
  }

  ghost predicate FirstBlocked(rows: Buckets, scopes: seq<string>, i: nat, k: nat, window: int, limits: Limits)
    requires i <= k < |scopes|
  {
    Blocked(rows, scopes[k], window, limits) && forall j :: i <= j < k ==> !Blocked(rows, scopes[j], window, limits)
  }

  // ----- simulation

  datatype Op = Reserve(scopes: seq<string>, limits: Limits, now: int) | Release(lease: Lease)

  /** The window length configured for each scope. */
  type Windows = string -> nat

  /** At `now`, both backends count the same for every scope, and hold no later window. */
  ghost predicate Simulates(memory: Buckets, rows: Buckets, windows: Windows, now: int) {
    forall s :: windows(s) > 0 ==> SameScope(memory, rows, s, WindowStart(now, windows(s)))
  }

  ghost predicate SameScope(memory: Buckets, rows: Buckets, s: string, window: int) {
    && Effective(memory, s, window) == Effective(rows, s, window)
    && (s in memory ==> memory[s].window <= window)
    && (s in rows ==> rows[s].window <= window)
  }

  /** As time passes the counters of a window that ended drop out on both sides. */
  lemma SimulatesLater(memory: Buckets, rows: Buckets, windows: Windows, now: int, later: int)
    requires Simulates(memory, rows, windows, now) && now <= later
    ensures Simulates(memory, rows, windows, later)
  {
    forall s | windows(s) > 0
      ensures SameScope(memory, rows, s, WindowStart(later, windows(s)))
    {
      assert SameScope(memory, rows, s, WindowStart(now, windows(s)));
      WindowStartMonotone(now, later, windows(s));
    }
  }

  /** What a reserve leaves of one scope: a row that a denial left unread stays as it was. */
  lemma RowsScope(b: Buckets, scopes: seq<string>, limits: Limits, now: int, s: string)
    requires limits.Valid()
    ensures var (after, outcome) := RowsReserve(b, scopes, limits, now);
      var window := WindowStart(now, limits.windowSeconds);
      && (s !in scopes ==> (s in after <==> s in b) && (s in b ==> after[s] == b[s]))
      && (s in scopes ==> s in after)
      && (s in scopes ==> after[s].window == window || (!outcome.Allowed? && s in b && after[s] == b[s]))
      && Effective(after, s, window) ==
         Plus(Effective(b, s, window), if outcome.Allowed? then Occurrences(scopes, s) else 0)
  {
    ScannedScope(b, scopes, limits, now, s);
    var window := WindowStart(now, limits.windowSeconds);
    var rows := Inserted(b, scopes, window);
    InsertedKeys(b, scopes, window);
    var scanned := Scan(rows, rows, scopes, 0, limits, now);
    TakenAt(scanned.0, scopes, s);
    NoOccurrences(scopes, s);
    hide Scan, Inserted, Taken, WindowStart;
    ScanDenial(rows, rows, scopes, 0, limits, now);
  }

  /** What the scan leaves of one scope. */
  lemma ScannedScope(b: Buckets, scopes: seq<string>, limits: Limits, now: int, s: string)
    requires limits.Valid()
    ensures forall x :: x in scopes ==> x in Inserted(b, scopes, WindowStart(now, limits.windowSeconds))
    ensures var window := WindowStart(now, limits.windowSeconds);
      var rows := Inserted(b, scopes, window);
      var (after, denial) := Scan(rows, rows, scopes, 0, limits, now);
      && (s !in scopes ==> (s in after <==> s in b) && (s in b ==> after[s] == b[s]))
      && (s in scopes ==> s in after)
      && (s in scopes ==> after[s].window == window || (denial.Some? && s in b && after[s] == b[s]))
      && Effective(after, s, window) == Effective(b, s, window)
  {
    var window := WindowStart(now, limits.windowSeconds);
    var rows := Inserted(b, scopes, window);
    InsertedKeys(b, scopes, window);
    InsertedAt(b, scopes, window, s);
    ScanAt(rows, rows, scopes, 0, limits, now, s);
    hide Scan, Inserted, WindowStart;
    assert scopes[0..] == scopes;
  }

  lemma RowsGrants(b: Buckets, scopes: seq<string>, limits: Limits, now: int)
    requires limits.Valid()
    ensures var window := WindowStart(now, limits.windowSeconds);
      var outcome := RowsReserve(b, scopes, limits, now).1;
      && (outcome.Allowed? <==> !AnyBlocked(b, scopes, window, limits))
      && (outcome.Allowed? ==> outcome.lease == Lease(scopes, window))
      && (!outcome.Allowed? ==> exists k :: 0 <= k < |scopes| && FirstBlocked(b, scopes, 0, k, window, limits)
                                  && (outcome.RateLimited? <==> RateBlocked(b, scopes[k], window, limits)))
  {
    var window := WindowStart(now, limits.windowSeconds);
    var rows := Inserted(b, scopes, window);
    InsertedKeys(b, scopes, window);
    forall s
      ensures Effective(rows, s, window) == Effective(b, s, window)
    {
      InsertedAt(b, scopes, window, s);
    }
    ScanDenial(rows, rows, scopes, 0, limits, now);
    if Scan(rows, rows, scopes, 0, limits, now).1.Some? {
      var k :| 0 <= k < |scopes| && FirstBlocked(rows, scopes, 0, k, window, limits)
        && Scan(rows, rows, scopes, 0, limits, now).1.value ==
           if RateBlocked(rows, scopes[k], window, limits) then RateLimited(RetryAfter(window, limits, now))
             else ConcurrentLimited;
      assert FirstBlocked(b, scopes, 0, k, window, limits);
    }
  }

  /** Each reserve uses the limits configured for its scopes. */
  ghost predicate Configured(op: Op, windows: Windows) {
    ValidOp(op) && (op.Reserve? ==> op.scopes != [] && forall s :: s in op.scopes ==>
      windows(s) == op.limits.windowSeconds)
  }

  predicate ValidOp(op: Op) {
    op.Reserve? ==> op.limits.Valid()
  }

  function MemoryStep(b: Buckets, op: Op): (Buckets, Option<Outcome>)
    requires ValidOp(op)
  {
    match op
    case Reserve(scopes, limits, now) => var r := MemoryReserve(b, scopes, limits, now); (r.0, Some(r.1))
    case Release(lease) => (Released(b, lease), None)
  }

  function RowsStep(b: Buckets, op: Op): (Buckets, Option<Outcome>)
    requires ValidOp(op)
  {
    match op
    case Reserve(scopes, limits, now) => var r := RowsReserve(b, scopes, limits, now); (r.0, Some(r.1))
    case Release(lease) => (Released(b, lease), None)
  }

  /** The same request is granted, with the same lease, or denied. */
  ghost predicate SameDecision(a: Option<Outcome>, b: Option<Outcome>) {
    && (a.Some? <==> b.Some?)
    && (a.Some? && b.Some? ==> (a.value.Allowed? <==> b.value.Allowed?) && (a.value.Allowed? ==> a == b))
  }

  lemma StepSimulates(memory: Buckets, rows: Buckets, windows: Windows, op: Op, now: int)
    requires Simulates(memory, rows, windows, now) && Configured(op, windows)
    requires op.Reserve? ==> op.now == now
    ensures SameDecision(MemoryStep(memory, op).1, RowsStep(rows, op).1)
    ensures Simulates(MemoryStep(memory, op).0, RowsStep(rows, op).0, windows, now)
  {
    if op.Reserve? {
      var window := WindowStart(now, op.limits.windowSeconds);
      forall k | 0 <= k < |op.scopes|
        ensures Effective(memory, op.scopes[k], window) == Effective(rows, op.scopes[k], window)
      {
        assert SameScope(memory, rows, op.scopes[k], WindowStart(now, windows(op.scopes[k])));
      }
      MemoryGrants(memory, op.scopes, op.limits, now);
      RowsGrants(rows, op.scopes, op.limits, now);
    }
    forall s | windows(s) > 0
      ensures SameScope(MemoryStep(memory, op).0, RowsStep(rows, op).0, s, WindowStart(now, windows(s)))
    {
      assert SameScope(memory, rows, s, WindowStart(now, windows(s)));
      match op {
        case Reserve(scopes, limits, _) =>
          MemoryScope(memory, scopes, limits, now, s);
          RowsScope(rows, scopes, limits, now, s);
        case Release(lease) =>
          ReleasedAt(memory, lease, s);
          ReleasedAt(rows, lease, s);
      }
    }
  }

  function MemoryRun(ops: seq<Op>): (Buckets, seq<Option<Outcome>>)
    requires forall op :: op in ops ==> ValidOp(op)
  {
    if ops == [] then (map[], [])
    else
      var before := MemoryRun(ops[..|ops| - 1]);
      var step := MemoryStep(before.0, ops[|ops| - 1]);
      (step.0, before.1 + [step.1])
  }

  function RowsRun(ops: seq<Op>): (Buckets, seq<Option<Outcome>>)
    requires forall op :: op in ops ==> ValidOp(op)
  {
    if ops == [] then (map[], [])
    else
      var before := RowsRun(ops[..|ops| - 1]);
      var step := RowsStep(before.0, ops[|ops| - 1]);
      (step.0, before.1 + [step.1])
  }

  /** The clock does not go back, and `now` is no earlier than its last reading. */
  ghost predicate ClockUpTo(ops: seq<Op>, now: int) {
    && (forall i :: 0 <= i < |ops| && ops[i].Reserve? ==> ops[i].now <= now)
    && (forall i, j :: 0 <= i < j < |ops| && ops[i].Reserve? && ops[j].Reserve? ==> ops[i].now <= ops[j].now)
  }

  /** Over any run of reserves and releases with a clock that does not go back, the two backends
      grant exactly the same requests with the same leases, and go on counting the same. */
  lemma {:induction false} BackendsSimulateEachOther(ops: seq<Op>, windows: Windows, now: int)
    requires forall op :: op in ops ==> ValidOp(op) && Configured(op, windows)
    requires ClockUpTo(ops, now)
    ensures |MemoryRun(ops).1| == |RowsRun(ops).1| == |ops|
    ensures forall k :: 0 <= k < |ops| ==> SameDecision(MemoryRun(ops).1[k], RowsRun(ops).1[k])
    ensures Simulates(MemoryRun(ops).0, RowsRun(ops).0, windows, now)
  {
    if ops != [] {
      var before, last := ops[..|ops| - 1], ops[|ops| - 1];
      assert last in ops;
      var at := if last.Reserve? then last.now else now;
      BackendsSimulateEachOther(before, windows, at);
      StepSimulates(MemoryRun(before).0, RowsRun(before).0, windows, last, at);
      SimulatesLater(MemoryRun(ops).0, RowsRun(ops).0, windows, at, now);
    }
  }

  /** Where both deny, they give the same reason if and only if the first blocked scope is
      blocked by rate, or no scope is: memory looks for any rate block first, the rows are
      taken in order. */
  lemma DenialReasons(memory: Buckets, rows: Buckets, windows: Windows, op: Op, k: nat)
    requires Configured(op, windows) && op.Reserve? && Simulates(memory, rows, windows, op.now)
    requires k < |op.scopes| && FirstBlocked(rows, op.scopes, 0, k, WindowStart(op.now, op.limits.windowSeconds),
        op.limits)
    ensures var window := WindowStart(op.now, op.limits.windowSeconds);
      MemoryStep(memory, op).1 == RowsStep(rows, op).1 <==>
        RateBlocked(rows, op.scopes[k], window, op.limits)
        || !exists j :: 0 <= j < |op.scopes| && RateBlocked(rows, op.scopes[j], window, op.limits)
  {
    var window := WindowStart(op.now, op.limits.windowSeconds);
    forall j | 0 <= j < |op.scopes|
      ensures RateBlocked(memory, op.scopes[j], window, op.limits) <==>
          RateBlocked(rows, op.scopes[j], window, op.limits)
    {
      assert SameScope(memory, rows, op.scopes[j], WindowStart(op.now, windows(op.scopes[j])));
    }
    StepSimulates(memory, rows, windows, op, op.now);
    MemoryGrants(memory, op.scopes, op.limits, op.now);
    RowsGrants(rows, op.scopes, op.limits, op.now);
    DeniedWithRetry(memory, rows, op);
  }

  lemma DeniedWithRetry(memory: Buckets, rows: Buckets, op: Op)
    requires op.Reserve? && op.limits.Valid()
    ensures var retry := RetryAfter(WindowStart(op.now, op.limits.windowSeconds), op.limits, op.now);
      && (MemoryStep(memory, op).1.value.RateLimited? ==> MemoryStep(memory, op).1.value.retryAfter == retry)
      && (RowsStep(rows, op).1.value.RateLimited? ==> RowsStep(rows, op).1.value.retryAfter == retry)
  {
    var window := WindowStart(op.now, op.limits.windowSeconds);
    var inserted := Inserted(rows, op.scopes, window);
    InsertedKeys(rows, op.scopes, window);
    ScanDenial(inserted, inserted, op.scopes, 0, op.limits, op.now);
  }

  /** With no scopes the rows grant a lease; in memory the same call is an error. */
  lemma NoScopesAreGranted(rows: Buckets, limits: Limits, now: int)
    requires limits.Valid()
    ensures RowsReserve(rows, [], limits, now) == (rows, Allowed(Lease([], WindowStart(now, limits.windowSeconds))))
  {
  }

  // ----- a clock that goes back

  /** Memory is never behind the rows: a row of the same window counts the same, and where the row is
      of an earlier window, memory has counted nothing since. */
  ghost predicate NeverBehind(memory: Buckets, rows: Buckets, s: string) {
    && (s in memory <==> s in rows)
    && (s in rows ==>
          && rows[s].window <= memory[s].window
          && (rows[s].window == memory[s].window ==> rows[s] == memory[s])
          && (rows[s].window < memory[s].window ==> memory[s].requests == 0 && memory[s].active == 0))
  }

  lemma StepNeverBehind(memory: Buckets, rows: Buckets, windows: Windows, op: Op, now: int, s: string)
    requires Simulates(memory, rows, windows, now) && Configured(op, windows)
    requires op.Reserve? ==> op.now == now
    requires NeverBehind(memory, rows, s)
    ensures NeverBehind(MemoryStep(memory, op).0, RowsStep(rows, op).0, s)
  {
    match op
    case Reserve(scopes, limits, _) =>
      StepSimulates(memory, rows, windows, op, now);
      MemoryScope(memory, scopes, limits, now, s);
      RowsScope(rows, scopes, limits, now, s);
      if s in scopes {
        hide MemoryStep, RowsStep, Simulates;
        SimulatesAt(MemoryStep(memory, op).0, RowsStep(rows, op).0, windows, now, s);
      }
    case Release(lease) =>
      ReleasedAt(memory, lease, s);
      ReleasedAt(rows, lease, s);
  }

  lemma SimulatesAt(memory: Buckets, rows: Buckets, windows: Windows, now: int, s: string)
    requires Simulates(memory, rows, windows, now) && windows(s) > 0
    ensures SameScope(memory, rows, s, WindowStart(now, windows(s)))
  {
  }

  lemma {:induction false} RunNeverBehind(ops: seq<Op>, windows: Windows, now: int, s: string)
    requires forall op :: op in ops ==> ValidOp(op) && Configured(op, windows)
    requires ClockUpTo(ops, now)
    ensures NeverBehind(MemoryRun(ops).0, RowsRun(ops).0, s)
  {
    if ops != [] {
      var before, last := ops[..|ops| - 1], ops[|ops| - 1];
      assert last in ops;
      var at := if last.Reserve? then last.now else now;
      RunNeverBehind(before, windows, at, s);
      BackendsSimulateEachOther(before, windows, at);
      StepNeverBehind(MemoryRun(before).0, RowsRun(before).0, windows, last, at, s);
    }
  }

  /** Some scope that is blocked in the rows is still in that window in memory. */
  ghost predicate StillBlocked(memory: Buckets, rows: Buckets, scopes: seq<string>, window: int, limits: Limits) {
    exists k :: 0 <= k < |scopes| && Blocked(rows, scopes[k], window, limits)
                && scopes[k] in memory && memory[scopes[k]].window == window
  }

  /** After a run in order of time, a request at any time, even an earlier one: memory never denies
      what the rows grant, and the two decide alike if and only if, whenever a requested scope is
      blocked in the rows, some blocked one is still in that window in memory. */
  lemma DecisionsAtAnyTime(ops: seq<Op>, windows: Windows, now: int, scopes: seq<string>, limits: Limits, at: int)
    requires forall op :: op in ops ==> ValidOp(op) && Configured(op, windows)
    requires ClockUpTo(ops, now) && limits.Valid()
    ensures var (memory, rows, window) := (MemoryRun(ops).0, RowsRun(ops).0, WindowStart(at, limits.windowSeconds));
      var (inMemory, inRows) := (MemoryReserve(memory, scopes, limits, at).1, RowsReserve(rows, scopes, limits, at).1);
      && (inRows.Allowed? ==> inMemory == inRows)
      && (SameDecision(Some(inMemory), Some(inRows)) <==>
            (AnyBlocked(rows, scopes, window, limits) ==> StillBlocked(memory, rows, scopes, window, limits)))
  {
    var memory, rows, window := MemoryRun(ops).0, RowsRun(ops).0, WindowStart(at, limits.windowSeconds);
    MemoryGrants(memory, scopes, limits, at);
    RowsGrants(rows, scopes, limits, at);
    forall s
      ensures NeverBehind(memory, rows, s)
    {
      RunNeverBehind(ops, windows, now, s);
    }
    hide MemoryRun, RowsRun, MemoryReserve, RowsReserve, WindowStart;
    forall k | 0 <= k < |scopes|
      ensures Blocked(memory, scopes[k], window, limits) <==>
        Blocked(rows, scopes[k], window, limits) && scopes[k] in memory && memory[scopes[k]].window == window
    {
      assert NeverBehind(memory, rows, scopes[k]);
    }
  }

  /** Three requests in order of time, the last denied for `a`, its row `b` left unread. */
  const BOTH_ONCE: seq<Op> :=
    [Reserve(["b"], ONE_A_SECOND, 0), Reserve(["a"], ONE_A_SECOND, SECOND), Reserve(["a", "b"], ONE_A_SECOND, SECOND)]

  const ONE_A_SECOND: Limits := Limits(1, 1, 5)

  /** A grant of one scope that has room, in either backend. */
  lemma GrantOfOne(s: string, b: Buckets, limits: Limits, now: int)
    requires limits.Valid() && !Blocked(b, s, WindowStart(now, limits.windowSeconds), limits)
    requires s in b ==> b[s].window == WindowStart(now, limits.windowSeconds)
    ensures var window := WindowStart(now, limits.windowSeconds);
      var counted := Effective(b, s, window);
      var after := b[s := Bucket(window, counted.0 + 1, counted.1 + 1)];
      MemoryReserve(b, [s], limits, now).0 == after && RowsReserve(b, [s], limits, now).0 == after
  {
    var window := WindowStart(now, limits.windowSeconds);
    var counted := Effective(b, s, window);
    var scopes, clean := [s], b[s := Bucket(window, counted.0, counted.1)];
    MemoryGrants(b, scopes, limits, now);
    RowsGrants(b, scopes, limits, now);
    assert !AnyBlocked(b, scopes, window, limits);
    hide WindowStart;
    assert scopes[..0] == [] && scopes[0] == s;
    assert Refreshed(b, scopes, window) == clean && Inserted(b, scopes, window) == clean;
    assert Taken(clean, scopes) == b[s := Bucket(window, counted.0 + 1, counted.1 + 1)];
    assert Scan(clean, clean, scopes, 0, limits, now).0 == clean;
  }

  lemma DeniedLeavesStale()
    ensures var before := map["b" := Bucket(0, 1, 1), "a" := Bucket(SECOND, 1, 1)];
      && RowsReserve(before, ["a", "b"], ONE_A_SECOND, SECOND).0 == before
      && MemoryReserve(before, ["a", "b"], ONE_A_SECOND, SECOND).0 == before["b" := Bucket(SECOND, 0, 0)]
  {
    var before := map["b" := Bucket(0, 1, 1), "a" := Bucket(SECOND, 1, 1)];
    var scopes := ["a", "b"];
    assert WindowStart(SECOND, 1) == SECOND;
    assert scopes[..1] == ["a"] && ["a"][..0] == [] && scopes[1] == "b" && scopes[0] == "a";
    assert Refreshed(before, scopes[..1], SECOND) == before;
    assert Refreshed(before, scopes, SECOND) == before["b" := Bucket(SECOND, 0, 0)];
    assert RateBlocked(Refreshed(before, scopes, SECOND), "a", SECOND, ONE_A_SECOND) && "a" in scopes;
    assert Inserted(before, scopes[..1], SECOND) == before;
    assert Inserted(before, scopes, SECOND) == before;
  }

  lemma RunsStep(before: seq<Op>, op: Op)
    requires ValidOp(op) && forall o :: o in before ==> ValidOp(o)
    ensures forall o :: o in before + [op] ==> ValidOp(o)
    ensures MemoryRun(before + [op]).0 == MemoryStep(MemoryRun(before).0, op).0
    ensures RowsRun(before + [op]).0 == RowsStep(RowsRun(before).0, op).0
  {
  }

  lemma FirstTwoRun()
    ensures var ops := [BOTH_ONCE[0], BOTH_ONCE[1]];
      && (forall op :: op in ops ==> ValidOp(op))
      && MemoryRun(ops).0 == map["b" := Bucket(0, 1, 1), "a" := Bucket(SECOND, 1, 1)] == RowsRun(ops).0
  {
    var early, before := map["b" := Bucket(0, 1, 1)], map["b" := Bucket(0, 1, 1), "a" := Bucket(SECOND, 1, 1)];
    assert WindowStart(SECOND, 1) == SECOND && WindowStart(0, 1) == 0;
    assert MemoryRun([]).0 == map[] == RowsRun([]).0;
    hide MemoryRun, RowsRun, MemoryReserve, RowsReserve, WindowStart;
    GrantOfOne("b", map[], ONE_A_SECOND, 0);
    GrantOfOne("a", early, ONE_A_SECOND, SECOND);
    RunsStep([], BOTH_ONCE[0]);
    RunsStep([BOTH_ONCE[0]], BOTH_ONCE[1]);
    assert [] + [BOTH_ONCE[0]] == [BOTH_ONCE[0]];
    assert [BOTH_ONCE[0]] + [BOTH_ONCE[1]] == [BOTH_ONCE[0], BOTH_ONCE[1]];
    assert early["a" := Bucket(SECOND, 1, 1)] == before;
  }

  lemma BothOnceRuns()
    ensures forall op :: op in BOTH_ONCE ==> ValidOp(op)
    ensures MemoryRun(BOTH_ONCE).0 == map["b" := Bucket(SECOND, 0, 0), "a" := Bucket(SECOND, 1, 1)]
    ensures RowsRun(BOTH_ONCE).0 == map["b" := Bucket(0, 1, 1), "a" := Bucket(SECOND, 1, 1)]
  {
    hide MemoryRun, RowsRun, MemoryReserve, RowsReserve;
    FirstTwoRun();
    DeniedLeavesStale();
    RunsStep([BOTH_ONCE[0], BOTH_ONCE[1]], BOTH_ONCE[2]);
    assert [BOTH_ONCE[0], BOTH_ONCE[1]] + [BOTH_ONCE[2]] == BOTH_ONCE;
  }

  /** The condition is needed: a denial leaves a later row stale, and a clock that goes back finds
      its old counters there, while memory has dropped them. */
  lemma ClockMustNotGoBack()
    ensures forall op :: op in BOTH_ONCE ==> ValidOp(op) && Configured(op, s => 1)
    ensures ClockUpTo(BOTH_ONCE, SECOND)
    ensures MemoryReserve(MemoryRun(BOTH_ONCE).0, ["b"], ONE_A_SECOND, 0).1.Allowed?
    ensures RowsReserve(RowsRun(BOTH_ONCE).0, ["b"], ONE_A_SECOND, 0).1.RateLimited?
  {
    BothOnceRuns();
    BackAgain();
    hide MemoryRun, RowsRun, MemoryReserve, RowsReserve;
    var before := map["b" := Bucket(0, 1, 1), "a" := Bucket(SECOND, 1, 1)];
    assert before["b" := Bucket(SECOND, 0, 0)] == map["b" := Bucket(SECOND, 0, 0), "a" := Bucket(SECOND, 1, 1)];
  }

  lemma BackAgain()
    ensures var before := map["b" := Bucket(0, 1, 1), "a" := Bucket(SECOND, 1, 1)];
      && RowsReserve(before, ["b"], ONE_A_SECOND, 0).1.RateLimited?
      && MemoryReserve(before["b" := Bucket(SECOND, 0, 0)], ["b"], ONE_A_SECOND, 0).1.Allowed?
  {
    var before := map["b" := Bucket(0, 1, 1), "a" := Bucket(SECOND, 1, 1)];
    assert WindowStart(0, 1) == 0;
    MemoryGrants(before["b" := Bucket(SECOND, 0, 0)], ["b"], ONE_A_SECOND, 0);
    assert Inserted(before, ["b"], 0) == before;
  }

  // ----- reasons that differ

  const TWO_A_SECOND: Limits := Limits(2, 1, 1)

  /** Two leases of `b`, the first given back in between, and one of `a`, all in one window. */
  const LEASED: seq<Op> :=
    [Reserve(["b"], TWO_A_SECOND, 0)] + [Release(Lease(["b"], 0))] + [Reserve(["b"], TWO_A_SECOND, 0)]
    + [Reserve(["a"], TWO_A_SECOND, 0)]

  /** Then a request for both is denied for different reasons: `a` has a lease outstanding, and `b` has
      used up its requests. */
  lemma ReasonsDiffer()
    ensures forall op :: op in LEASED ==> ValidOp(op) && Configured(op, s => 1)
    ensures ClockUpTo(LEASED, 0)
    ensures MemoryReserve(MemoryRun(LEASED).0, ["a", "b"], TWO_A_SECOND, 0).1.RateLimited?
    ensures RowsReserve(RowsRun(LEASED).0, ["a", "b"], TWO_A_SECOND, 0).1.ConcurrentLimited?
  {
    LeasedRuns();
    hide MemoryRun, RowsRun;
    var b, scopes, limits := map["a" := Bucket(0, 1, 1), "b" := Bucket(0, 2, 1)], ["a", "b"], TWO_A_SECOND;
    assert WindowStart(0, 1) == 0;
    MemoryGrants(b, scopes, limits, 0);
    RowsGrants(b, scopes, limits, 0);
    assert RateBlocked(b, scopes[1], 0, limits) && Blocked(b, scopes[0], 0, limits);
    assert !RateBlocked(b, scopes[0], 0, limits);
    hide MemoryReserve, RowsReserve;
  }

  const FREED: seq<Op> := [Reserve(["b"], TWO_A_SECOND, 0)] + [Release(Lease(["b"], 0))]

  lemma FreedRuns()
    ensures forall op :: op in FREED ==> ValidOp(op)
    ensures MemoryRun(FREED).0 == map["b" := Bucket(0, 1, 0)] == RowsRun(FREED).0
  {
    assert WindowStart(0, 1) == 0;
    assert MemoryRun([]).0 == map[] == RowsRun([]).0;
    ReleaseOfOne();
    GrantOfOne("b", map[], TWO_A_SECOND, 0);
    hide MemoryRun, RowsRun, MemoryReserve, RowsReserve, WindowStart, Released;
    var first := [Reserve(["b"], TWO_A_SECOND, 0)];
    RunsStep([], first[0]);
    assert [] + first == first;
    RunsStep(first, Release(Lease(["b"], 0)));
  }

  lemma LeasedRuns()
    ensures MemoryRun(LEASED).0 == map["a" := Bucket(0, 1, 1), "b" := Bucket(0, 2, 1)] == RowsRun(LEASED).0
  {
    var free, twice := map["b" := Bucket(0, 1, 0)], map["b" := Bucket(0, 2, 1)];
    assert WindowStart(0, 1) == 0;
    FreedRuns();
    GrantOfOne("b", free, TWO_A_SECOND, 0);
    GrantOfOne("a", twice, TWO_A_SECOND, 0);
    hide MemoryRun, RowsRun, MemoryReserve, RowsReserve, WindowStart;
    RunsStep(FREED, Reserve(["b"], TWO_A_SECOND, 0));
    RunsStep(FREED + [Reserve(["b"], TWO_A_SECOND, 0)], Reserve(["a"], TWO_A_SECOND, 0));
    assert free["b" := Bucket(0, 2, 1)] == twice;
    assert twice["a" := Bucket(0, 1, 1)] == map["a" := Bucket(0, 1, 1), "b" := Bucket(0, 2, 1)];
  }

  lemma ReleaseOfOne()
    ensures Released(map["b" := Bucket(0, 1, 1)], Lease(["b"], 0)) == map["b" := Bucket(0, 1, 0)]
  {
    var b, lease := map["b" := Bucket(0, 1, 1)], Lease(["b"], 0);
    ReleasedAt(b, lease, "b");
    assert Released(b, Lease(lease.scopes[..0], 0)) == b;
  }
}
