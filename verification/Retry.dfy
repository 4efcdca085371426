/** Retrying with growing pauses, the circuit breaker, and the mail transport that drives it. */
module Retry {
  import opened Options

  function Pow(b: real, n: nat): real { if n == 0 then 1.0 else b * Pow(b, n - 1) }

  // The pause after call number `k`, counted from 0.
  function Pause(delay: real, backoff: real, k: nat): real {
    if k == 0 then delay else Pause(delay, backoff, k - 1) * backoff
  }

  lemma {:induction false} PauseIsGeometric(delay: real, backoff: real, k: nat)
    ensures Pause(delay, backoff, k) == delay * Pow(backoff, k)
  {
    if k > 0 {
      PauseIsGeometric(delay, backoff, k - 1);
      var p := Pow(backoff, k - 1);
      assert (delay * p) * backoff == delay * (backoff * p);
    }
  }

  // How a retried call ends; `attempts` counts the calls made. Without any attempt allowed it is an error.
  datatype Outcome = Returned(attempts: nat) | Raised(attempts: nat) | NeverCalled

  // The k-th call of the retried function succeeds iff `succeeds(k)`.
  function RetryOutcome(succeeds: nat -> bool, retries: int, first: nat): Outcome
    requires first <= retries + 1
    decreases retries + 1 - first
  {
    if retries < 0 then NeverCalled
    else if first > retries then Raised(retries + 1)
    else if succeeds(first) then Returned(first + 1)
    else RetryOutcome(succeeds, retries, first + 1)
  }

  /** Between one and `retries + 1` calls; it returns exactly if one of them succeeds, at the first that
    does, and pauses between calls and never after the last. */
  method RetryAsync(succeeds: nat -> bool, retries: int, delay: real, backoff: real)
    returns (r: Outcome, pauses: seq<real>)
    ensures retries < 0 ==> r == NeverCalled && pauses == []
    ensures 0 <= retries ==> r == RetryOutcome(succeeds, retries, 0)
    ensures 0 <= retries ==> !r.NeverCalled? && 1 <= r.attempts <= retries + 1
    ensures 0 <= retries ==> (r.Returned? <==> exists k: nat :: k <= retries && succeeds(k))
    ensures r.Returned? ==> succeeds(r.attempts - 1) && forall k: nat :: k < r.attempts - 1 ==> !succeeds(k)
    ensures r.Raised? ==> r.attempts == retries + 1
    ensures 0 <= retries ==>
      |pauses| == r.attempts - 1 && forall i :: 0 <= i < |pauses| ==> pauses[i] == Pause(delay, backoff, i)
  {
    pauses := [];
    var attemptDelay := delay;
    var attempt: nat := 0;
    while attempt < retries + 1
      invariant retries < 0 ==> attempt == 0
      invariant 0 <= retries ==> attempt <= retries
      invariant 0 <= retries ==> RetryOutcome(succeeds, retries, 0) == RetryOutcome(succeeds, retries, attempt)
      invariant forall k: nat :: k < attempt ==> !succeeds(k)
      invariant |pauses| == attempt && attemptDelay == Pause(delay, backoff, attempt)
      invariant forall i :: 0 <= i < |pauses| ==> pauses[i] == Pause(delay, backoff, i)
      decreases retries - attempt
    {
      if succeeds(attempt) {
        return Returned(attempt + 1), pauses;
      }
      if attempt >= retries {
        return Raised(attempt + 1), pauses;
      }
      pauses := pauses + [attemptDelay];
      attemptDelay := attemptDelay * backoff;
      attempt := attempt + 1;
    }
    r := NeverCalled;
  }

  // ---------------------------------------------------------------------------------------------
  // The circuit breaker

  datatype Settings = Settings(threshold: int, timeout: real)
  {
    // A threshold below one opens at the first failure, like one.
    function Limit(): nat { if threshold < 1 then 1 else threshold }
  }

  datatype Breaker = Breaker(failures: nat, openedAt: Option<real>)

  const CLOSED := Breaker(0, None)

  // Whether calls are refused now; a breaker whose time is up starts over.
  function CheckOpen(c: Settings, b: Breaker, now: real): (Breaker, bool) {
    if b.openedAt.None? then (b, false)
    else if now - b.openedAt.value >= c.timeout then (CLOSED, false)
    else (b, true)
  }

  function AfterFailure(c: Settings, b: Breaker, now: real): Breaker {
    Breaker(b.failures + 1, if b.failures + 1 >= c.threshold then Some(now) else b.openedAt)
  }

  // One use of the transport: it begins, the server answers or fails, it ends.
  datatype Call = Call(start: real, end: real, ok: bool)
  datatype SendResult = CircuitOpen | Failed | Sent

  function SendStep(c: Settings, b: Breaker, call: Call): (Breaker, SendResult) {
    var (b1, open) := CheckOpen(c, b, call.start);
    if open then (b1, CircuitOpen)
    else if call.ok then (CLOSED, Sent)
    else (AfterFailure(c, b1, call.end), Failed)
  }

  class CircuitBreaker {
    const settings: Settings
    var failureCount: nat
    var openedAt: Option<real>

    function View(): Breaker
      reads this
    {
      Breaker(failureCount, openedAt)
    }

    constructor (threshold: int, timeout: real)
      ensures settings == Settings(threshold, timeout) && View() == CLOSED
    {
      settings := Settings(threshold, timeout);
      failureCount, openedAt := 0, None;
    }

    method IsOpen(now: real) returns (open: bool)
      modifies this
      ensures (View(), open) == CheckOpen(settings, old(View()), now)
    {
      if openedAt.None? { return false; }
      if now - openedAt.value >= settings.timeout {
        failureCount := 0;
        openedAt := None;
        return false;
      }
      return true;
    }

    method RecordSuccess()
      modifies this
      ensures View() == CLOSED
    {
      failureCount := 0;
      openedAt := None;
    }

    method RecordFailure(now: real)
      modifies this
      ensures View() == AfterFailure(settings, old(View()), now)
    {
      failureCount := failureCount + 1;
      if failureCount >= settings.threshold {
        openedAt := Some(now);
      }
    }
  }

  class SMTPEmailTransport {
    const breaker: CircuitBreaker

    constructor ()
      ensures fresh(breaker) && breaker.settings == Settings(3, 60.0) && breaker.View() == CLOSED
    {
      breaker := new CircuitBreaker(3, 60.0);
    }

    // A refused call raises before the server is contacted, outside the block that records failures.
    method Send(call: Call) returns (r: SendResult)
      modifies breaker
      ensures (breaker.View(), r) == SendStep(breaker.settings, old(breaker.View()), call)
    {
      var open := breaker.IsOpen(call.start);
      if open { return CircuitOpen; }
      if call.ok {
        breaker.RecordSuccess();
        return Sent;
      }
      breaker.RecordFailure(call.end);
      return Failed;
    }
  }

  // ---------------------------------------------------------------------------------------------
  // The breaker over every run of sends, whoever makes them: jobs, retries of jobs, requests.

  // What got through to the server, in order.
  datatype Event = Success(at: real) | Failure(at: real)

  datatype History = History(breaker: Breaker, events: seq<Event>)

  function Observe(c: Settings, h: History, call: Call): History {
    var (b, r) := SendStep(c, h.breaker, call);
    match r
    case CircuitOpen => History(b, h.events)
    case Sent => History(b, h.events + [Success(call.end)])
    case Failed => History(b, h.events + [Failure(call.end)])
  }

  function Run(c: Settings, h: History, calls: seq<Call>): History
    decreases |calls|
  {
    if calls == [] then h else Run(c, Observe(c, h, calls[0]), calls[1..])
  }

  // Sends do not overlap, and the clock does not run backwards.
  predicate Sequential(calls: seq<Call>) {
    && (forall i :: 0 <= i < |calls| ==> calls[i].start <= calls[i].end)
    && (forall i, j :: 0 <= i < j < |calls| ==> calls[i].end <= calls[j].start)
  }

  predicate AllFailures(ev: seq<Event>, i: int, j: int)
    requires 0 <= i && j < |ev|
  {
    forall k :: i <= k <= j ==> ev[k].Failure?
  }

  // Any `Limit() + 1` failures in a row, without a success between, span at least the timeout.
  predicate Spread(c: Settings, ev: seq<Event>) {
    forall i, j :: 0 <= i <= j < |ev| && j - i >= c.Limit() && AllFailures(ev, i, j)
      ==> ev[i].at + c.timeout <= ev[j].at
  }

  predicate Ordered(ev: seq<Event>) { forall i, j :: 0 <= i < j < |ev| ==> ev[i].at <= ev[j].at }

  // The last `m` events are failures, and they began after a success, or a whole timeout after the failure
  // before them.
  predicate Streak(c: Settings, ev: seq<Event>, m: nat) {
    var n := |ev|;
    && m <= n
    && (forall k :: n - m <= k < n ==> ev[k].Failure?)
    && (m < n && ev[n - m - 1].Failure? ==>
          m > 0 && forall k :: n - m <= k < n ==> ev[n - m - 1].at + c.timeout <= ev[k].at)
  }

  // The breaker counts a streak up to the limit, and is open since the failure that reached it.
  predicate HistoryInv(c: Settings, h: History) {
    && Ordered(h.events)
    && Spread(c, h.events)
    && Streak(c, h.events, h.breaker.failures)
    && h.breaker.failures <= c.Limit()
    && (h.breaker.openedAt.Some? <==> h.breaker.failures == c.Limit())
    && (h.breaker.openedAt.Some? ==> h.breaker.openedAt.value == h.events[|h.events| - 1].at)
  }

  // A failure at `at` comes a timeout after the failure before the last `m` events, if that is one.
  predicate FreshSince(c: Settings, ev: seq<Event>, m: nat, at: real)
    requires m <= |ev|
  {
    m < |ev| && ev[|ev| - m - 1].Failure? ==> ev[|ev| - m - 1].at + c.timeout <= at
  }

  lemma FailureKeepsSpread(c: Settings, ev: seq<Event>, at: real, m: nat)
    requires Spread(c, ev) && m < c.Limit() && m <= |ev|
    requires Ordered(ev) && FreshSince(c, ev, m, at)
    ensures Spread(c, ev + [Failure(at)])
  {
    var ev' := ev + [Failure(at)];
    forall i, j | 0 <= i <= j < |ev'| && j - i >= c.Limit() && AllFailures(ev', i, j)
      ensures ev'[i].at + c.timeout <= ev'[j].at
    {
      if j < |ev| {
        assert forall k :: i <= k <= j ==> ev[k] == ev'[k];
        assert AllFailures(ev, i, j);
      } else {
        assert i <= |ev| - m - 1;
        assert ev'[|ev| - m - 1].Failure?;
      }
    }
  }

  lemma SuccessKeepsSpread(c: Settings, ev: seq<Event>, at: real)
    requires Spread(c, ev)
    ensures Spread(c, ev + [Success(at)])
  {
    var ev' := ev + [Success(at)];
    forall i, j | 0 <= i <= j < |ev'| && j - i >= c.Limit() && AllFailures(ev', i, j)
      ensures ev'[i].at + c.timeout <= ev'[j].at
    {
      assert ev'[j].Failure?;
      assert j < |ev|;
      assert forall k :: i <= k <= j ==> ev[k] == ev'[k];
      assert AllFailures(ev, i, j);
    }
  }

  lemma SuccessKeepsInv(c: Settings, h: History, at: real)
    requires 0.0 <= c.timeout && HistoryInv(c, h)
    requires forall i :: 0 <= i < |h.events| ==> h.events[i].at <= at
    ensures HistoryInv(c, History(CLOSED, h.events + [Success(at)]))
  {
    SuccessKeepsSpread(c, h.events, at);
  }

  // The breaker after its check counts fewer than the limit, or starts over.
  predicate Checked(c: Settings, h: History, b: Breaker, at: real) {
    if h.breaker.openedAt.None? then b == h.breaker else b == CLOSED && h.breaker.openedAt.value + c.timeout <= at
  }

  lemma StreakGrows(c: Settings, h: History, b: Breaker, at: real)
    requires 0.0 <= c.timeout && HistoryInv(c, h) && Checked(c, h, b, at)
    requires forall i :: 0 <= i < |h.events| ==> h.events[i].at <= at
    ensures b.openedAt.None? && b.failures < c.Limit() && FreshSince(c, h.events, b.failures, at)
    ensures Streak(c, h.events + [Failure(at)], b.failures + 1)
  {
    var n, m, ev := |h.events|, b.failures, h.events;
    if 0 < m < n && ev[n - m - 1].Failure? {
      assert ev[n - m - 1].at + c.timeout <= ev[n - m].at <= at;
    }
    var ev' := ev + [Failure(at)];
    assert forall k :: 0 <= k < n ==> ev'[k] == ev[k];
  }

  lemma FailureKeepsInv(c: Settings, h: History, b: Breaker, at: real)
    requires 0.0 <= c.timeout && HistoryInv(c, h) && Checked(c, h, b, at)
    requires forall i :: 0 <= i < |h.events| ==> h.events[i].at <= at
    ensures HistoryInv(c, History(AfterFailure(c, b, at), h.events + [Failure(at)]))
  {
    StreakGrows(c, h, b, at);
    FailureKeepsSpread(c, h.events, at, b.failures);
  }

  lemma ObserveKeepsInv(c: Settings, h: History, call: Call)
    requires 0.0 <= c.timeout && HistoryInv(c, h) && call.start <= call.end
    requires forall i :: 0 <= i < |h.events| ==> h.events[i].at <= call.start
    ensures HistoryInv(c, Observe(c, h, call))
    ensures forall i :: 0 <= i < |Observe(c, h, call).events| ==> Observe(c, h, call).events[i].at <= call.end
  {
    var (b1, open) := CheckOpen(c, h.breaker, call.start);
    if !open {
      if call.ok {
        SuccessKeepsInv(c, h, call.end);
      } else {
        FailureKeepsInv(c, h, b1, call.end);
      }
    }
  }

  lemma {:induction false} RunKeepsInv(c: Settings, h: History, calls: seq<Call>)
    requires 0.0 <= c.timeout && HistoryInv(c, h) && Sequential(calls)
    requires forall i, k :: 0 <= i < |h.events| && 0 <= k < |calls| ==> h.events[i].at <= calls[k].start
    ensures HistoryInv(c, Run(c, h, calls))
    decreases |calls|
  {
    if calls != [] {
      ObserveKeepsInv(c, h, calls[0]);
      RunKeepsInv(c, Observe(c, h, calls[0]), calls[1..]);
    }
  }

  /** Failures with no success between them that fit into less than one timeout are never more than the
    threshold, however many jobs and retries send mail. */
  lemma FailuresPerTimeout(c: Settings, calls: seq<Call>, i: nat, j: nat)
    requires 0.0 <= c.timeout && Sequential(calls)
    requires i <= j < |Run(c, History(CLOSED, []), calls).events|
    requires AllFailures(Run(c, History(CLOSED, []), calls).events, i, j)
    requires Run(c, History(CLOSED, []), calls).events[j].at
           < Run(c, History(CLOSED, []), calls).events[i].at + c.timeout
    ensures j - i + 1 <= c.Limit()
  {
    RunKeepsInv(c, History(CLOSED, []), calls);
  }

  /** A refused call changes nothing: it is neither counted as a failure, nor does it prolong the outage. And
    a call is refused only within one timeout of the failure that opened the breaker. */
  lemma RefusalsLeaveNoTrace(c: Settings, calls: seq<Call>, call: Call)
    requires 0.0 <= c.timeout && Sequential(calls + [call])
    ensures var h := Run(c, History(CLOSED, []), calls);
            SendStep(c, h.breaker, call).1 == CircuitOpen <==>
              h.breaker.failures == c.Limit() && 0 < |h.events| && call.start < h.events[|h.events| - 1].at + c.timeout
    ensures var h := Run(c, History(CLOSED, []), calls);
            SendStep(c, h.breaker, call).1 == CircuitOpen ==> Observe(c, h, call) == h
  {
    assert forall i :: 0 <= i < |calls| ==> (calls + [call])[i] == calls[i];
    RunKeepsInv(c, History(CLOSED, []), calls);
  }
}
