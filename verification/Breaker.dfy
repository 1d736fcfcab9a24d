/** The circuit breaker under overlapping attempts (src/modules/resilience/policies.py). The
    lock makes each entry and each exit of an attempt one step. */
module Breaker {
  import opened Wrappers

  datatype CircuitState = Closed | Open | HalfOpen

  datatype Limits = Limits(threshold: int, recovery: real) {
    predicate Valid() {
      threshold > 0 && recovery > 0.0
    }
  }

  datatype Fields = Fields(state: CircuitState, failures: nat, openedAt: Option<real>)

  /** An attempt is let in, or turned away; or the breaker finds itself open since no time. */
  datatype Admission = Admitted | Rejected | MissingTimestamp

  /** How an attempt leaves: a generator that is closed records nothing. */
  datatype Outcome = Success | Failure | Abandoned

  const Fresh: Fields := Fields(Closed, 0, None)

  function Acquired(limits: Limits, f: Fields, now: real): (Fields, Admission) {
    match f.state
    case Closed => (f, Admitted)
    case HalfOpen => (f, Rejected)
    case Open =>
      if f.openedAt == None then (f, MissingTimestamp)
      else if now - f.openedAt.value < limits.recovery then (f, Rejected)
      else (f.(state := HalfOpen), Admitted)
  }

  function Failed(limits: Limits, f: Fields, now: real): Fields {
    if f.state == HalfOpen then f.(state := Open, openedAt := Some(now))
    else if f.failures + 1 >= limits.threshold then Fields(Open, f.failures + 1, Some(now))
    else f.(failures := f.failures + 1)
  }

  function Recorded(limits: Limits, f: Fields, outcome: Outcome, now: real): Fields {
    match outcome
    case Success => Fresh
    case Failure => Failed(limits, f, now)
    case Abandoned => f
  }

  /** Closed exactly while failures are below the threshold, and exactly while there is no
      opening time. */
  predicate Consistent(limits: Limits, f: Fields) {
    (f.state == Closed <==> f.failures < limits.threshold) && (f.state == Closed <==> f.openedAt == None)
  }

  class CircuitBreaker {
    const limits: Limits
    var state: CircuitState
    var failures: nat
    var openedAt: Option<real>

    ghost function Now(): Fields
      reads this
    {
      Fields(state, failures, openedAt)
    }

    ghost predicate Valid()
      reads this
    {
      limits.Valid() && Consistent(limits, Now())
    }

    constructor (limits: Limits)
      requires limits.Valid()
      ensures Valid() && this.limits == limits && Now() == Fresh
    {
      this.limits := limits;
      state, failures, openedAt := Closed, 0, None;
    }

    method Acquire(now: real) returns (admission: Admission)
      requires Valid()
      modifies this
      ensures Valid() && (Now(), admission) == Acquired(limits, old(Now()), now)
      ensures admission != MissingTimestamp
    {
      if state == Closed {
        return Admitted;
      }
      if state == HalfOpen {
        return Rejected;
      }
      if openedAt == None {
        return MissingTimestamp;
      }
      var elapsed := now - openedAt.value;
      if elapsed < limits.recovery {
        return Rejected;
      }
      state := HalfOpen;
      admission := Admitted;
    }

    method RecordSuccess()
      requires Valid()
      modifies this
      ensures Valid() && Now() == Recorded(limits, old(Now()), Success, 0.0)
    {
      state, failures, openedAt := Closed, 0, None;
    }

    method RecordFailure(now: real)
      requires Valid()
      modifies this
      ensures Valid() && Now() == Recorded(limits, old(Now()), Failure, now)
    {
      if state == HalfOpen {
        OpenAt(now);
        return;
      }
      failures := failures + 1;
      if failures >= limits.threshold {
        OpenAt(now);
      }
    }

    method OpenAt(now: real)
      modifies this
      ensures Now() == Fields(Open, old(failures), Some(now))
    {
      state := Open;
      openedAt := Some(now);
    }

    /** `with breaker.attempt(): ...`, entered at `start` and left at `end` in the given way. */
    method Attempt(start: real, outcome: Outcome, end: real) returns (admission: Admission)
      requires Valid()
      modifies this
      ensures Valid() && (Now(), admission) == Called(limits, old(Now()), start, outcome, end)
    {
      admission := Acquire(start);
      if admission != Admitted {
        return;
      }
      match outcome {
        case Success => RecordSuccess();
        case Failure => RecordFailure(end);
        case Abandoned =>
      }
    }
  }

  function Called(limits: Limits, f: Fields, start: real, outcome: Outcome, end: real): (Fields, Admission) {
    var (entered, admission) := Acquired(limits, f, start);
    (if admission == Admitted then Recorded(limits, entered, outcome, end) else entered, admission)
  }

  /** An attempt is let in exactly while the breaker is closed, or open for the recovery time or longer;
      one that is turned away leaves no trace, whatever would have become of it. */
  lemma TurnedAwayLeavesNoTrace(limits: Limits, f: Fields, start: real, outcome: Outcome, end: real)
    requires Consistent(limits, f)
    ensures var (after, admission) := Called(limits, f, start, outcome, end);
      && (admission == Admitted <==>
            f.state == Closed || (f.state == Open && start - f.openedAt.value >= limits.recovery))
      && (admission != Admitted ==> after == f && admission == Rejected)
      && (admission == Admitted && outcome == Success ==> after == Fresh)
      && (admission == Admitted && outcome == Failure && f.state == Open ==>
            after.state == Open && after.openedAt == Some(end))
      && (admission == Admitted && outcome == Abandoned ==> after.state == if f.state == Open then HalfOpen else Closed)
  {
  }

  // ----- overlapping attempts

  datatype Action = Enter(now: real) | Leave(outcome: Outcome, now: real)

  /** The breaker, the attempts inside, the times at which an open breaker let one in, and the
      failures recorded since the last success. */
  datatype World = World(fields: Fields, inside: nat, probes: seq<real>, unbroken: nat)

  function Act(limits: Limits, w: World, a: Action): World {
    match a
    case Enter(now) =>
      var (f, admission) := Acquired(limits, w.fields, now);
      if admission == Admitted then
        w.(fields := f, inside := w.inside + 1, probes := if w.fields.state == Open then w.probes + [now] else w.probes)
      else w
    case Leave(outcome, now) =>
      if w.inside == 0 then w
      else
        World(Recorded(limits, w.fields, outcome, now), w.inside - 1, w.probes,
              match outcome case Success => 0 case Failure => w.unbroken + 1 case Abandoned => w.unbroken)
  }

  function After(limits: Limits, start: World, actions: seq<Action>): World {
    if actions == [] then start
    else Act(limits, After(limits, start, actions[..|actions| - 1]), actions[|actions| - 1])
  }

  const Beginning: World := World(Fresh, 0, [], 0)

  /** However attempts overlap and leave, the breaker is closed exactly while fewer failures than
      the threshold were recorded since the last success, and exactly while there is no opening
      time; so no entry finds it open without one. */
  lemma {:induction false} ClosedMeans(limits: Limits, actions: seq<Action>, now: real)
    requires limits.Valid()
    ensures var w := After(limits, Beginning, actions);
      && Consistent(limits, w.fields)
      && (w.fields.state == Closed <==> w.unbroken < limits.threshold)
      && (w.fields.state == Closed ==> w.fields.failures == w.unbroken)
      && Acquired(limits, w.fields, now).1 != MissingTimestamp
  {
    if actions != [] {
      ClosedMeans(limits, actions[..|actions| - 1], now);
    }
  }

  ghost predicate ClockForward(actions: seq<Action>) {
    forall i, j :: 0 <= i < j < |actions| ==> actions[i].now <= actions[j].now
  }

  ghost predicate Apart(recovery: real, times: seq<real>) {
    forall i :: 0 < i < |times| ==> times[i] - times[i - 1] >= recovery
  }

  lemma {:induction false} ProbeInvariant(limits: Limits, actions: seq<Action>)
    requires limits.Valid() && ClockForward(actions)
    ensures var w := After(limits, Beginning, actions);
      && Apart(limits.recovery, w.probes)
      && (forall t :: t in w.probes ==> actions != [] && t <= actions[|actions| - 1].now)
      && (w.probes != [] && w.fields.state == Open && w.fields.openedAt.Some? ==>
            w.probes[|w.probes| - 1] <= w.fields.openedAt.value)
  {
    if actions != [] {
      var n := |actions| - 1;
      var before := After(limits, Beginning, actions[..n]);
      ProbeInvariant(limits, actions[..n]);
      ClosedMeans(limits, actions[..n], actions[n].now);
      if before.probes != [] {
        assert before.probes[|before.probes| - 1] in before.probes;
      }
    }
  }

  /** `n` recovery times. */
  function Times(n: nat, recovery: real): real {
    n as real * recovery
  }

  lemma TimesStep(n: nat, recovery: real)
    ensures Times(0, recovery) == 0.0
    ensures Times(n + 1, recovery) == Times(n, recovery) + recovery
  {
  }

  lemma {:induction false} ApartAdds(recovery: real, times: seq<real>, i: nat, j: nat)
    requires i <= j < |times| && Apart(recovery, times)
    ensures times[j] - times[i] >= Times(j - i, recovery)
    decreases j
  {
    hide Times;
    TimesStep(if i < j then j - i - 1 else 0, recovery);
    if i < j {
      ApartAdds(recovery, times, i, j - 1);
    }
  }

  /** Between the i-th and the j-th attempt let in by an open breaker lie at least j - i recovery
      times, however many attempts overlap and however they leave. */
  lemma ProbesAreApart(limits: Limits, actions: seq<Action>, i: nat, j: nat)
    requires limits.Valid() && ClockForward(actions)
    requires i <= j < |After(limits, Beginning, actions).probes|
    ensures var probes := After(limits, Beginning, actions).probes;
      probes[j] - probes[i] >= Times(j - i, limits.recovery)
  {
    hide Times, After;
    ProbeInvariant(limits, actions);
    ApartAdds(limits.recovery, After(limits, Beginning, actions).probes, i, j);
  }

  ghost predicate RecordsNothing(actions: seq<Action>) {
    forall a :: a in actions ==> a.Enter? || a.outcome == Abandoned
  }

  /** A half-open breaker lets nobody in until an attempt that is inside records its outcome. */
  lemma {:induction false} HalfOpenWaits(limits: Limits, w: World, actions: seq<Action>)
    requires w.fields.state == HalfOpen && RecordsNothing(actions)
    ensures After(limits, w, actions).fields == w.fields
    ensures After(limits, w, actions).inside <= w.inside && After(limits, w, actions).probes == w.probes
  {
    if actions != [] {
      HalfOpenWaits(limits, w, actions[..|actions| - 1]);
      assert actions[|actions| - 1] in actions;
    }
  }

  /** When a probe was abandoned and no other attempt is inside, nothing changes any more, at any
      time: the breaker stays half-open for good. While one is inside, its success reopens the
      way. */
  lemma {:induction false} AbandonedProbeBlocks(limits: Limits, w: World, actions: seq<Action>, now: real)
    requires w.fields.state == HalfOpen
    ensures w.inside == 0 ==> After(limits, w, actions) == w
    ensures w.inside == 0 ==> Acquired(limits, After(limits, w, actions).fields, now).1 == Rejected
    ensures w.inside > 0 ==> Acquired(limits, After(limits, w, [Leave(Success, now)]).fields, now).1 == Admitted
  {
    if w.inside == 0 && actions != [] {
      AbandonedProbeBlocks(limits, w, actions[..|actions| - 1], now);
    }
    if w.inside > 0 {
      assert [Leave(Success, now)][..0] == [];
    }
  }

  /** Such a state is reached: one failure opens the breaker, and the probe is abandoned. */
  lemma ProbeAbandoned(actions: seq<Action>, now: real)
    ensures var limits := Limits(1, 1.0);
      var start := [Enter(0.0), Leave(Failure, 0.0), Enter(1.0), Leave(Abandoned, 1.0)];
      && ClockForward(start)
      && After(limits, Beginning, start).fields.state == HalfOpen && After(limits, Beginning, start).inside == 0
      && Acquired(limits, After(limits, After(limits, Beginning, start), actions).fields, now).1 == Rejected
  {
    var limits := Limits(1, 1.0);
    var start := [Enter(0.0), Leave(Failure, 0.0), Enter(1.0), Leave(Abandoned, 1.0)];
    assert start[..3][..2] == start[..2] && start[..2][..1] == start[..1] && start[..1][..0] == [];
    assert After(limits, Beginning, start[..1]) == World(Fresh, 1, [], 0);
    assert After(limits, Beginning, start[..2]) == World(Fields(Open, 1, Some(0.0)), 0, [], 1);
    assert After(limits, Beginning, start[..3]) == World(Fields(HalfOpen, 1, Some(0.0)), 1, [1.0], 1);
    AbandonedProbeBlocks(limits, After(limits, Beginning, start), actions, now);
  }

  // ----- one caller after another of a dependency that always fails

  datatype Call = Call(start: real, end: real)

  ghost predicate OneAfterAnother(calls: seq<Call>) {
    && (forall i :: 0 <= i < |calls| ==> calls[i].start <= calls[i].end)
    && forall i, j :: 0 <= i < j < |calls| ==> calls[i].end <= calls[j].start
  }

  function AfterFailing(limits: Limits, calls: seq<Call>): (r: (Fields, nat))
    ensures r.1 <= |calls|
  {
    if calls == [] then (Fresh, 0)
    else
      var (f, admitted) := AfterFailing(limits, calls[..|calls| - 1]);
      var call := calls[|calls| - 1];
      var (after, admission) := Called(limits, f, call.start, Failure, call.end);
      (after, if admission == Admitted then admitted + 1 else admitted)
  }

  lemma {:induction false} FailingInvariant(limits: Limits, calls: seq<Call>)
    requires limits.Valid() && OneAfterAnother(calls)
    ensures var (f, admitted) := AfterFailing(limits, calls);
      && Consistent(limits, f) && f.state != HalfOpen
      && (f.state == Closed ==> f.failures == admitted)
      && (f.state == Open ==>
            && calls != [] && admitted >= limits.threshold
            && f.openedAt.value <= calls[|calls| - 1].end
            && f.openedAt.value - calls[0].start >= Times(admitted - limits.threshold, limits.recovery))
  {
    hide Times;
    if calls != [] {
      var admitted := AfterFailing(limits, calls[..|calls| - 1]).1;
      TimesStep(if admitted >= limits.threshold then admitted - limits.threshold else 0, limits.recovery);
      FailingInvariant(limits, calls[..|calls| - 1]);
    }
  }

  function HowOften(time: real, recovery: real): int
    requires recovery > 0.0
  {
    (time / recovery).Floor
  }

  /** In any time at most the threshold and one for each recovery time that fits in it. */
  lemma FailingCallersAreFew(limits: Limits, calls: seq<Call>)
    requires limits.Valid() && OneAfterAnother(calls) && calls != []
    ensures AfterFailing(limits, calls).1 <= limits.threshold
        + HowOften(calls[|calls| - 1].end - calls[0].start, limits.recovery)
  {
    FailingInvariant(limits, calls);
    var (f, admitted) := AfterFailing(limits, calls);
    var time := calls[|calls| - 1].end - calls[0].start;
    hide AfterFailing, Times, OneAfterAnother, HowOften;
    NotBackwards(calls);
    TimesStep(0, limits.recovery);
    Fits(if f.state == Open then admitted - limits.threshold else 0, time, limits.recovery);
  }

  lemma NotBackwards(calls: seq<Call>)
    requires OneAfterAnother(calls) && calls != []
    ensures calls[0].start <= calls[|calls| - 1].end
  {
  }

  lemma Fits(n: nat, time: real, recovery: real)
    requires recovery > 0.0 && Times(n, recovery) <= time
    ensures n <= HowOften(time, recovery)
  {
    var ratio := time / recovery;
    assert ratio * recovery == time;
    if n as real > ratio {
      Larger(n as real, ratio, recovery);
    }
  }

  lemma Larger(a: real, b: real, c: real)
    requires a > b && c > 0.0
    ensures a * c > b * c
  {
  }
}
