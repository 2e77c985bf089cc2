/** The circuit breaker of `internal/utils/circuit_breaker_http_client.go`.

    `RoundTrip` holds the mutex twice, before and after an unlocked upstream call, so a
    breaker is driven by two kinds of event: a request entering (`Begin`) and an upstream
    call coming back (`Complete`).  Requests overlap freely: a completion may arrive in any
    state, long after the request that caused it was admitted. */
module CircuitBreaker {
  import opened Model

  datatype CircuitState = Closed | Open | HalfOpen

  datatype Config = Config(failureThreshold: int, resetTimeout: int) {
    ghost predicate Valid() {
      failureThreshold >= 1 && resetTimeout > 0
    }
  }

  /** What the upstream call gave back: an error, a response, or (as the code allows) neither. */
  datatype Upstream = Upstream(err: bool, hasResponse: bool, statusCode: int) {
    predicate Failed() {
      err || (hasResponse && statusCode >= 400)
    }
  }

  /** The fields guarded by the mutex. */
  datatype Fields = Fields(state: CircuitState, failures: int, lastFailure: int)

  datatype Event = Begin(now: int) | Complete(now: int, result: Upstream)

  function Fresh(): Fields {
    Fields(Closed, 0, 0)
  }

  /** First lock section: does a request entering at `now` reach the upstream? */
  predicate Admits(c: Config, f: Fields, now: int) {
    f.state != Open || now - f.lastFailure > c.resetTimeout
  }

  function AfterBegin(c: Config, f: Fields, now: int): Fields {
    if f.state == Open && Admits(c, f, now) then f.(state := HalfOpen) else f
  }

  /** Second lock section. */
  function AfterComplete(c: Config, f: Fields, now: int, result: Upstream): Fields {
    if result.Failed() then
      var counted := f.(failures := f.failures + 1, lastFailure := now);
      if counted.state == HalfOpen || counted.failures >= c.failureThreshold then counted.(state := Open) else counted
    else if f.state == HalfOpen then
      f.(state := Closed, failures := 0)
    else if f.state == Closed then
      f.(failures := 0)
    else
      f
  }

  // ---------------------------------------------------------------------------
  // Runs

  /** Everything an observer can say about a run so far: the breaker's fields, and beside
      them the number of requests admitted to the upstream, the outcomes of the completed
      ones in order (true for a failure), how often the breaker went from open to half-open,
      the time of the latest failure, the time it first opened, and the clock. */
  datatype Tally = Tally(
    fields: Fields,
    admitted: nat,
    log: seq<bool>,
    probes: nat,
    latestFailure: int,
    firstTrip: Option<int>,
    clock: int
  ) {
    function InFlight(): int {
      admitted - |log|
    }

    /** Time since the breaker first opened, 0 before that. */
    function SinceTrip(): int {
      if firstTrip.Some? then clock - firstTrip.value else 0
    }
  }

  function Start(): Tally {
    Tally(Fresh(), 0, [], 0, 0, None, 0)
  }

  function Observe(c: Config, t: Tally, e: Event): Tally {
    match e
    case Begin(now) =>
      t.(fields := AfterBegin(c, t.fields, now),
         admitted := t.admitted + (if Admits(c, t.fields, now) then 1 else 0),
         probes := t.probes + (if t.fields.state == Open && Admits(c, t.fields, now) then 1 else 0),
         clock := now)
    case Complete(now, result) =>
      var next := AfterComplete(c, t.fields, now, result);
      t.(fields := next,
         log := t.log + [result.Failed()],
         latestFailure := if result.Failed() then now else t.latestFailure,
         firstTrip := if t.firstTrip.None? && next.state == Open then Some(now) else t.firstTrip,
         clock := now)
  }

  function Replay(c: Config, events: seq<Event>): Tally {
    if events == [] then Start()
    else Observe(c, Replay(c, events[..|events| - 1]), events[|events| - 1])
  }

  /** A run that can happen: the clock never goes back and only admitted requests complete. */
  ghost predicate Legal(c: Config, events: seq<Event>) {
    events != [] ==>
      var before, e := Replay(c, events[..|events| - 1]), events[|events| - 1];
      && Legal(c, events[..|events| - 1])
      && e.now >= before.clock
      && (e.Complete? ==> before.InFlight() > 0)
  }

  lemma ReplayExtend(c: Config, events: seq<Event>, e: Event)
    ensures Replay(c, events + [e]) == Observe(c, Replay(c, events), e)
    ensures Legal(c, events + [e]) <==>
              Legal(c, events) && e.now >= Replay(c, events).clock && (e.Complete? ==> Replay(c, events).InFlight() > 0)
  {
    assert (events + [e])[..|events|] == events;
  }

  // ---------------------------------------------------------------------------
  // Counting

  /** Length of the run of failures at the end of a completion log. */
  function TrailingFailures(log: seq<bool>): nat {
    if log == [] || !log[|log| - 1] then 0 else 1 + TrailingFailures(log[..|log| - 1])
  }

  lemma TrailingExtend(log: seq<bool>, failed: bool)
    ensures TrailingFailures(log + [failed]) == if failed then TrailingFailures(log) + 1 else 0
  {
    assert (log + [failed])[..|log|] == log;
  }

  ghost predicate Consistent(c: Config, t: Tally) {
    && (t.fields.state == Closed <==> t.fields.failures < c.failureThreshold)
    && (t.fields.state == Closed ==> t.fields.failures == TrailingFailures(t.log))
    && (t.fields.state != Closed ==> t.fields.lastFailure == t.latestFailure && t.firstTrip.Some?)
    && (t.firstTrip.None? ==> t.probes == 0)
    && t.fields.failures >= 0
    && (t.firstTrip.Some? ==> t.firstTrip.value <= t.clock)
    && t.latestFailure <= t.clock
    && t.InFlight() >= 0
  }

  lemma {:induction false} CountingHolds(c: Config, events: seq<Event>)
    requires c.Valid() && Legal(c, events)
    ensures Consistent(c, Replay(c, events))
  {
    if events != [] {
      var before, e := Replay(c, events[..|events| - 1]), events[|events| - 1];
      CountingHolds(c, events[..|events| - 1]);
      if e.Complete? {
        TrailingExtend(before.log, e.result.Failed());
      }
    }
  }

  /** Closed is exactly "fewer failures counted than the threshold"; while closed the counter is the
      length of the trailing run of failed completions. */
  lemma ClosedCountsTrailingFailures(c: Config, events: seq<Event>)
    requires c.Valid() && Legal(c, events)
    ensures var t := Replay(c, events);
            && (t.fields.state == Closed <==> t.fields.failures < c.failureThreshold)
            && (t.fields.state == Closed ==> t.fields.failures == TrailingFailures(t.log))
  {
    CountingHolds(c, events);
  }

  /** A completion opens a closed breaker exactly when it makes the trailing run of failures as long as
      the threshold. */
  lemma TripsAtTheThreshold(c: Config, events: seq<Event>, now: int, result: Upstream)
    requires c.Valid() && Legal(c, events + [Complete(now, result)]) && Replay(c, events).fields.state == Closed
    ensures var after := Replay(c, events + [Complete(now, result)]);
            after.fields.state == if TrailingFailures(after.log) == c.failureThreshold then Open else Closed
  {
    ReplayExtend(c, events, Complete(now, result));
    CountingHolds(c, events);
    TrailingExtend(Replay(c, events).log, result.Failed());
  }

  /** The second lock section with its half-open test removed. */
  function AfterCompleteByCount(c: Config, f: Fields, now: int, result: Upstream): Fields {
    if result.Failed() then
      Fields(if f.failures + 1 >= c.failureThreshold then Open else f.state, f.failures + 1, now)
    else
      AfterComplete(c, f, now, result)
  }

  /** In every reachable state the count alone decides whether a failure opens the breaker. */
  lemma HalfOpenTestIsRedundant(c: Config, events: seq<Event>, now: int, result: Upstream)
    requires c.Valid() && Legal(c, events)
    ensures AfterComplete(c, Replay(c, events).fields, now, result) ==
            AfterCompleteByCount(c, Replay(c, events).fields, now, result)
  {
    CountingHolds(c, events);
  }

  // ---------------------------------------------------------------------------
  // Cool-down

  /** Time of the last failed completion of a run, read off the events alone. */
  function LastFailureTime(events: seq<Event>): int {
    if events == [] then 0
    else
      var e := events[|events| - 1];
      if e.Complete? && e.result.Failed() then e.now else LastFailureTime(events[..|events| - 1])
  }

  lemma {:induction false} LatestFailureIsLast(c: Config, events: seq<Event>)
    ensures Replay(c, events).latestFailure == LastFailureTime(events)
  {
    if events != [] {
      LatestFailureIsLast(c, events[..|events| - 1]);
    }
  }

  /** A request is turned away exactly when the breaker is open and no more than the reset
      timeout has passed since the last failed completion of the whole run. */
  lemma RejectedExactlyWhileCooling(c: Config, events: seq<Event>, now: int)
    requires c.Valid() && Legal(c, events)
    ensures !Admits(c, Replay(c, events).fields, now) <==>
            Replay(c, events).fields.state == Open && now <= LastFailureTime(events) + c.resetTimeout
  {
    CountingHolds(c, events);
    LatestFailureIsLast(c, events);
  }

  /** An open breaker stays open, with nothing admitted, as long as the clock has not passed the
      reset timeout: late successes change nothing and late failures only push the timeout on. */
  lemma {:induction false} StaysOpenWhileCooling(c: Config, events: seq<Event>, more: seq<Event>, t: int)
    requires c.Valid() && Legal(c, events + more)
    requires Replay(c, events).fields.state == Open && Replay(c, events).fields.lastFailure >= t
    requires Replay(c, events + more).clock <= t + c.resetTimeout
    ensures Replay(c, events + more).fields.state == Open && Replay(c, events + more).fields.lastFailure >= t
    ensures Replay(c, events + more).admitted == Replay(c, events).admitted
    decreases |more|
  {
    if more == [] {
      assert events + more == events;
    } else {
      var init, e := more[..|more| - 1], more[|more| - 1];
      assert events + more == (events + init) + [e];
      ReplayExtend(c, events + init, e);
      StaysOpenWhileCooling(c, events, init, t);
      CountingHolds(c, events + init);
    }
  }

  /** After a failed completion at time t that leaves the breaker open, every request entering up
      to and including t + resetTimeout is rejected, whatever completes meanwhile. */
  lemma CoolDown(c: Config, events: seq<Event>, t: int, result: Upstream, more: seq<Event>, now: int)
    requires c.Valid() && result.Failed()
    requires Legal(c, events + [Complete(t, result)] + more + [Begin(now)])
    requires Replay(c, events + [Complete(t, result)]).fields.state == Open
    requires now <= t + c.resetTimeout
    ensures !Admits(c, Replay(c, events + [Complete(t, result)] + more).fields, now)
    ensures Replay(c, events + [Complete(t, result)] + more + [Begin(now)]).admitted ==
            Replay(c, events + [Complete(t, result)]).admitted
  {
    var base := events + [Complete(t, result)];
    ReplayExtend(c, base + more, Begin(now));
    ReplayExtend(c, events, Complete(t, result));
    StaysOpenWhileCooling(c, base, more, t);
  }

  lemma ClosingStep(c: Config, t: Tally, e: Event)
    requires t.fields.state != Closed && Observe(c, t, e).fields.state == Closed
    ensures t.fields.state == HalfOpen && e.Complete? && !e.result.Failed()
  {}

  /** Open never turns into closed directly: between an open point and a later closed point of a
      run there is a point at which the breaker was half-open and a success completed. */
  lemma {:induction false} ClosesOnlyThroughHalfOpen(c: Config, events: seq<Event>, i: nat)
    returns (m: nat)
    requires c.Valid() && Legal(c, events) && i < |events|
    requires Replay(c, events[..i]).fields.state == Open
    requires Replay(c, events).fields.state == Closed
    ensures i < m < |events|
    ensures Replay(c, events[..m]).fields.state == HalfOpen
    ensures events[m].Complete? && !events[m].result.Failed()
    ensures Replay(c, events[..m + 1]).fields.state == Closed
    decreases |events|
  {
    hide Observe;
    var init, e := events[..|events| - 1], events[|events| - 1];
    assert init[..i] == events[..i];
    var before := Replay(c, init);
    if before.fields.state == Closed {
      m := ClosesOnlyThroughHalfOpen(c, init, i);
      assert init[..m] == events[..m] && init[..m + 1] == events[..m + 1];
    } else {
      m := |events| - 1;
      assert events[..m] == init && events[..m + 1] == events;
      ClosingStep(c, before, e);
    }
  }

  // ---------------------------------------------------------------------------
  // Half-open and recovery

  /** The event let a request through an open breaker after the reset timeout, and no call has come back since. */
  ghost predicate Probing(c: Config, events: seq<Event>, p: nat) {
    && p < |events| && events[p].Begin?
    && Replay(c, events[..p]).fields.state == Open && events[p].now > LastFailureTime(events[..p]) + c.resetTimeout
    && forall j :: p < j < |events| ==> events[j].Begin?
  }

  lemma ProbingLater(c: Config, events: seq<Event>, e: Event, p: nat)
    requires e.Begin?
    ensures Probing(c, events, p) ==> Probing(c, events + [e], p)
    ensures p < |events| && Probing(c, events + [e], p) ==> Probing(c, events, p)
  {
    if p < |events| {
      assert (events + [e])[..p] == events[..p];
      assert forall j :: p < j < |events| ==> (events + [e])[j] == events[j];
    }
  }

  lemma ProbingNow(c: Config, events: seq<Event>, e: Event)
    requires c.Valid() && Legal(c, events) && e.Begin?
    ensures Probing(c, events + [e], |events|) <==>
              Replay(c, events).fields.state == Open && Admits(c, Replay(c, events).fields, e.now)
  {
    assert (events + [e])[..|events|] == events;
    RejectedExactlyWhileCooling(c, events, e.now);
  }

  /** The breaker is half-open exactly from the request it lets through after cooling down until the next call
      comes back, which need not be that request's. */
  lemma {:induction false} HalfOpenWhileProbing(c: Config, events: seq<Event>)
    requires c.Valid() && Legal(c, events)
    ensures Replay(c, events).fields.state == HalfOpen <==> exists p: nat :: Probing(c, events, p)
    decreases |events|
  {
    if events != [] {
      hide Probing, Admits;
      var init, e := events[..|events| - 1], events[|events| - 1];
      assert events == init + [e];
      HalfOpenWhileProbing(c, init);
      if e.Begin? {
        ProbingNow(c, init, e);
        forall p: nat
          ensures Probing(c, init, p) ==> Probing(c, events, p)
          ensures p < |init| && Probing(c, events, p) ==> Probing(c, init, p)
        {
          ProbingLater(c, init, e, p);
        }
        forall p: nat | Probing(c, events, p)
          ensures p <= |init|
        {
          ProbingInRun(c, events, p);
        }
      } else {
        forall p: nat
          ensures !Probing(c, events, p)
        {
          NotProbingAfterComplete(c, events, p);
        }
      }
    } else {
      forall p: nat
        ensures !Probing(c, events, p)
      {}
    }
  }

  lemma ProbingInRun(c: Config, events: seq<Event>, p: nat)
    requires Probing(c, events, p)
    ensures p < |events|
  {}

  lemma NotProbingAfterComplete(c: Config, events: seq<Event>, p: nat)
    requires events != [] && events[|events| - 1].Complete?
    ensures !Probing(c, events, p)
  {}

  /** The first call to come back in half-open decides: a failure opens the breaker again and starts the reset
      timeout anew, a success closes it with nothing counted, however much had been counted before. */
  lemma ProbeDecides(c: Config, events: seq<Event>, now: int, result: Upstream)
    requires c.Valid() && Legal(c, events + [Complete(now, result)]) && Replay(c, events).fields.state == HalfOpen
    ensures var after := Replay(c, events + [Complete(now, result)]).fields;
            if result.err || (result.hasResponse && result.statusCode >= 400)
            then after.state == Open && after.lastFailure == now
            else after.state == Closed && after.failures == 0
  {
    ReplayExtend(c, events, Complete(now, result));
  }

  /** The outcomes of the completions of a stretch of a run, true for a failure: an error, or a response with a
      status from 400 on. */
  function Outcomes(events: seq<Event>): seq<bool> {
    if events == [] then []
    else
      var e := events[|events| - 1];
      Outcomes(events[..|events| - 1])
      + if e.Complete? then [e.result.err || (e.result.hasResponse && e.result.statusCode >= 400)] else []
  }

  /** No point of the stretch ends a run of that many failed completions. */
  ghost predicate NeverFailsInARow(events: seq<Event>, threshold: int) {
    && TrailingFailures(Outcomes(events)) < threshold
    && (events != [] ==> NeverFailsInARow(events[..|events| - 1], threshold))
  }

  /** The breaker is closed at every point of the stretch. */
  ghost predicate ClosedThroughout(c: Config, base: seq<Event>, more: seq<Event>) {
    && Replay(c, base + more).fields.state == Closed
    && (more != [] ==> ClosedThroughout(c, base, more[..|more| - 1]))
  }

  lemma {:induction false} ClosedUntilFailuresInARow(c: Config, base: seq<Event>, more: seq<Event>)
    requires c.Valid() && Replay(c, base).fields.state == Closed && Replay(c, base).fields.failures == 0
    ensures ClosedThroughout(c, base, more) <==> NeverFailsInARow(more, c.failureThreshold)
    ensures ClosedThroughout(c, base, more) ==>
              Replay(c, base + more).fields.failures == TrailingFailures(Outcomes(more))
    decreases |more|
  {
    if more == [] {
      assert base + more == base;
    } else {
      var init, e := more[..|more| - 1], more[|more| - 1];
      ClosedUntilFailuresInARow(c, base, init);
      assert base + more == (base + init) + [e];
      ReplayExtend(c, base + init, e);
      if e.Complete? {
        TrailingExtend(Outcomes(init), e.result.Failed());
      } else {
        assert Outcomes(more) == Outcomes(init);
      }
    }
  }

  /** Recovery, exactly: after a success in half-open the breaker is closed, and it stays so at every point of
      whatever follows if and only if there are never as many failed completions in a row as the threshold. */
  lemma Recovery(c: Config, events: seq<Event>, now: int, result: Upstream, more: seq<Event>)
    requires c.Valid() && Legal(c, events + [Complete(now, result)] + more)
    requires Replay(c, events).fields.state == HalfOpen
    requires !(result.err || (result.hasResponse && result.statusCode >= 400))
    ensures Replay(c, events + [Complete(now, result)]).fields.state == Closed
    ensures ClosedThroughout(c, events + [Complete(now, result)], more) <==>
              NeverFailsInARow(more, c.failureThreshold)
  {
    ReplayExtend(c, events, Complete(now, result));
    ClosedUntilFailuresInARow(c, events + [Complete(now, result)], more);
  }

  // ---------------------------------------------------------------------------
  // Load bound

  /** At most `k` requests are past the breaker and not yet back, at every point of the run. */
  ghost predicate WithinLoad(c: Config, events: seq<Event>, k: nat) {
    && Replay(c, events).InFlight() <= k
    && (events != [] ==> WithinLoad(c, events[..|events| - 1], k))
  }

  ghost predicate AllFail(events: seq<Event>) {
    forall i :: 0 <= i < |events| && events[i].Complete? ==> events[i].result.Failed()
  }

  /** The bound on admitted requests while everything fails, by breaker state: `probes` counts the
      half-open phases so far, and every phase lets at most `k` requests through. */
  ghost predicate LoadInvariant(c: Config, t: Tally, k: nat) {
    && (t.fields.state == Closed ==> t.firstTrip.None? && t.fields.failures == |t.log|)
    && (t.fields.state == Open ==> t.admitted <= c.failureThreshold + k - 1 + k * t.probes)
    && (t.fields.state == HalfOpen ==>
          && t.probes >= 1
          && t.admitted <= c.failureThreshold + k - 1 + k * (t.probes - 1) + t.InFlight())
    && (t.firstTrip.Some? && t.fields.state == Open ==>
          t.fields.lastFailure >= t.firstTrip.value + c.resetTimeout * t.probes)
    && (t.firstTrip.Some? && t.fields.state == HalfOpen ==>
          t.clock > t.firstTrip.value + c.resetTimeout * t.probes)
  }

  lemma LoadInvariantBegin(c: Config, t: Tally, now: int, k: nat)
    requires c.Valid() && Consistent(c, t) && LoadInvariant(c, t, k) && now >= t.clock
    ensures LoadInvariant(c, Observe(c, t, Begin(now)), k)
  {
    if t.fields.state == Open && Admits(c, t.fields, now) {
      assert c.resetTimeout * (t.probes + 1) == c.resetTimeout * t.probes + c.resetTimeout;
    }
  }

  lemma LoadInvariantComplete(c: Config, t: Tally, now: int, result: Upstream, k: nat)
    requires c.Valid() && Consistent(c, t) && LoadInvariant(c, t, k) && now >= t.clock
    requires result.Failed() && 0 < t.InFlight() <= k
    ensures LoadInvariant(c, Observe(c, t, Complete(now, result)), k)
  {
    HalfOpenShare(k, t.probes);
    if t.firstTrip.None? {
      assert k * t.probes == 0 && c.resetTimeout * t.probes == 0;
    }
  }

  lemma {:induction false} LoadInvariantHolds(c: Config, events: seq<Event>, k: nat)
    requires c.Valid() && Legal(c, events) && AllFail(events) && WithinLoad(c, events, k)
    ensures LoadInvariant(c, Replay(c, events), k)
  {
    if events != [] {
      var init, e := events[..|events| - 1], events[|events| - 1];
      LoadInvariantHolds(c, init, k);
      CountingHolds(c, init);
      match e {
        case Begin(now) => LoadInvariantBegin(c, Replay(c, init), now, k);
        case Complete(now, result) => LoadInvariantComplete(c, Replay(c, init), now, result, k);
      }
    }
  }

  lemma ScaleMonotone(k: nat, a: int, b: int)
    requires a <= b
    ensures k * a <= k * b
  {}

  lemma ProductPastQuotient(n: int, r: int, d: int)
    requires r > 0
    ensures n > d / r ==> r * n > d
  {
    if n > d / r {
      ScaleMonotone(r, d / r + 1, n);
      assert r * (d / r + 1) == r * (d / r) + r;
    }
  }

  /** When every completion fails and at most `k` requests are in flight, a fresh breaker lets
      through at most threshold + (k-1) + k * floor(D / resetTimeout) requests, where D is the time
      since it first opened. */
  lemma LoadBound(c: Config, events: seq<Event>, k: nat)
    requires c.Valid() && Legal(c, events) && AllFail(events) && WithinLoad(c, events, k)
    ensures var t := Replay(c, events);
            t.admitted <= c.failureThreshold + (k - 1) + k * (t.SinceTrip() / c.resetTimeout)
  {
    LoadInvariantHolds(c, events, k);
    CountingHolds(c, events);
    assert Replay(c, events).InFlight() <= k;
    InvariantBoundsLoad(c, Replay(c, events), k);
  }

  lemma InvariantBoundsLoad(c: Config, t: Tally, k: nat)
    requires c.Valid() && Consistent(c, t) && LoadInvariant(c, t, k) && t.InFlight() <= k
    ensures t.admitted <= c.failureThreshold + (k - 1) + k * (t.SinceTrip() / c.resetTimeout)
  {
    if t.fields.state == Closed {
      ZeroPeriods(c.resetTimeout);
    } else {
      ProductPastQuotient(t.probes, c.resetTimeout, t.SinceTrip());
      ScaleMonotone(k, t.probes, t.SinceTrip() / c.resetTimeout);
      HalfOpenShare(k, t.probes);
    }
  }

  lemma ZeroPeriods(r: int)
    requires r > 0
    ensures 0 / r == 0
  {}

  lemma HalfOpenShare(k: nat, probes: int)
    ensures k * (probes - 1) + k == k * probes
  {}

  // ---------------------------------------------------------------------------
  // The round tripper

  /** The shared object.  `events` records the lock sections in the order the mutex ran them; the
      fields are always those of the replayed run, so every lemma above speaks about the object. */
  class CircuitBreakerRoundTripper {
    var failures: int
    var failureThreshold: int
    var state: CircuitState
    var lastFailure: int
    var resetTimeout: int
    ghost var events: seq<Event>

    ghost function Settings(): Config
      reads this
    {
      Config(failureThreshold, resetTimeout)
    }

    ghost predicate Valid()
      reads this
    {
      && Settings().Valid()
      && Legal(Settings(), events)
      && Fields(state, failures, lastFailure) == Replay(Settings(), events).fields
    }

    constructor (failureThreshold: int, resetTimeout: int)
      requires Config(failureThreshold, resetTimeout).Valid()
      ensures Valid() && Settings() == Config(failureThreshold, resetTimeout) && events == []
    {
      this.failureThreshold := failureThreshold;
      this.resetTimeout := resetTimeout;
      state := Closed;
      failures := 0;
      lastFailure := 0;
      events := [];
    }

    /** The first lock section of `RoundTrip`. */
    method Begin(now: int) returns (admitted: bool)
      requires Valid() && now >= Replay(Settings(), events).clock
      modifies this
      ensures Valid() && Settings() == old(Settings()) && events == old(events) + [Event.Begin(now)]
      ensures !admitted <==> old(state) == Open && now <= LastFailureTime(old(events)) + resetTimeout
      ensures Replay(Settings(), events).admitted
              == Replay(Settings(), old(events)).admitted + if admitted then 1 else 0
      ensures state == if old(state) == Open && admitted then HalfOpen else old(state)
      ensures failures == old(failures) && lastFailure == old(lastFailure)
    {
      RejectedExactlyWhileCooling(Settings(), events, now);
      ReplayExtend(Settings(), events, Event.Begin(now));
      admitted := true;
      if state == Open {
        if now - lastFailure > resetTimeout {
          state := HalfOpen;
        } else {
          admitted := false;
        }
      }
      events := events + [Event.Begin(now)];
    }

    /** The second lock section, run when an admitted request's upstream call is back. */
    method Complete(now: int, result: Upstream)
      requires Valid() && now >= Replay(Settings(), events).clock && Replay(Settings(), events).InFlight() > 0
      modifies this
      ensures Valid() && Settings() == old(Settings()) && events == old(events) + [Event.Complete(now, result)]
      ensures state == Closed ==> failures == TrailingFailures(Replay(Settings(), events).log)
      ensures result.err || (result.hasResponse && result.statusCode >= 400) ==>
                && failures == old(failures) + 1 && lastFailure == now
                && (state == Closed <==> old(state) == Closed && failures < failureThreshold)
                && (state == Open <==> old(state) != Closed || failures >= failureThreshold)
      ensures !result.err && (result.hasResponse ==> result.statusCode < 400) ==>
                && lastFailure == old(lastFailure)
                && (old(state) == Open ==> state == Open && failures == old(failures))
                && (old(state) != Open ==> state == Closed && failures == 0)
    {
      hide Replay, Legal, TrailingFailures;
      ReplayExtend(Settings(), events, Event.Complete(now, result));
      CountingHolds(Settings(), events);
      if result.Failed() {
        failures := failures + 1;
        lastFailure := now;
        if state == HalfOpen || failures >= failureThreshold {
          state := Open;
        }
      } else {
        if state == HalfOpen {
          state := Closed;
          failures := 0;
        } else if state == Closed {
          failures := 0;
        }
      }
      events := events + [Event.Complete(now, result)];
      CountingHolds(Settings(), events);
    }
  }
}
