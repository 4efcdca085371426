/** Outbound webhook deliveries on top of the job manager: a delivery is posted until it succeeds or has been
  tried three times, and every retry is a new job in the queue.

  Assumed: database writes succeed, and a delivery row is committed before its job reads it. */
module WebhookDelivery {
  import opened Options
  import opened JobManager
  import Retry

  // `posts` is history: requests sent.
  datatype Delivery = Delivery(endpoint: nat, attempts: nat, lastStatus: Option<int>, delivered: bool, posts: nat)
  datatype Endpoint = Endpoint(owner: int, active: bool, events: set<string>)

  // `handled`: the handler of the job in hand has run.
  datatype Sys = Sys(mgr: Manager, deliveries: map<nat, Delivery>, endpoints: map<nat, Endpoint>, handled: bool)

  const MAX_ATTEMPTS := 3

  datatype Result = Response(code: int) | TransportError

  predicate Sendable(s: Sys, d: nat) {
    d in s.deliveries && s.deliveries[d].endpoint in s.endpoints && s.endpoints[s.deliveries[d].endpoint].active
  }

  // What one post writes into the row.
  function Posted(x: Delivery, r: Result): Delivery {
    match r
    case Response(code) =>
      x.(attempts := x.attempts + 1, posts := x.posts + 1, lastStatus := Some(code),
         delivered := x.delivered || 200 <= code < 300)
    case TransportError => x.(attempts := x.attempts + 1, posts := x.posts + 1)
  }

  predicate TryAgain(x: Delivery, r: Result) {
    (r.Response? ==> r.code >= 300) && x.attempts < MAX_ATTEMPTS
  }

  // The handler `deliver_webhook`.
  function Handle(s: Sys, d: nat, r: Result): Sys {
    if !Sendable(s, d) then s
    else
      var x := Posted(s.deliveries[d], r);
      s.(deliveries := s.deliveries[d := x],
         mgr := if TryAgain(x, r) then Enqueue(s.mgr, Deliver(d), true) else s.mgr)
  }

  // One row of `dispatch`: a delivery and its job.
  function DispatchOne(s: Sys, e: nat, d: nat): Sys {
    s.(deliveries := s.deliveries[d := Delivery(e, 0, None, false, 0)], mgr := Enqueue(s.mgr, Deliver(d), true))
  }

  predicate Subscribes(s: Sys, e: nat, event: string) {
    e in s.endpoints && s.endpoints[e].active && event in s.endpoints[e].events
  }

  // `dispatch` over the endpoint rows in the order the query returns them.
  function DispatchRows(s: Sys, rows: seq<nat>, event: string, firstId: nat): (Sys, nat) {
    if rows == [] then (s, firstId)
    else
      var (t, id) := DispatchRows(s, rows[..|rows| - 1], event, firstId);
      var e := rows[|rows| - 1];
      if Subscribes(s, e, event) then (DispatchOne(t, e, id), id + 1) else (t, id)
  }

  // ---------------------------------------------------------------------------------------------
  // Every run of service and worker together

  // What the world answers while the worker takes one step.
  datatype World = World(result: Result, succeeds: nat -> bool)

  datatype Step =
    | Register(e: nat, endpoint: Endpoint)
    | Revoke(e: nat, owner: int)
    | Create(e: nat, d: nat)                   // one turn of the loop in `dispatch`
    | Submit(name: nat, inLoop: bool)          // any other job
    | Start
    | Worker(w: World)

  predicate CanWork(s: Sys) { s.mgr.current.Some? || CanTake(s.mgr) }

  // The worker takes a job, runs its handler, and finishes it, one of these at a time. The handler of a
  // delivery never raises, so its job ends well after one attempt.
  function Work(s: Sys, w: World): Sys {
    if s.mgr.current.None? then
      if CanTake(s.mgr) then s.(mgr := Take(s.mgr), handled := false) else s
    else if !s.handled then
      match s.mgr.current.value
      case Deliver(d) => Handle(s, d, w.result).(handled := true)
      case Other(_) => s.(handled := true)
    else
      match s.mgr.current.value
      case Deliver(_) => s.(mgr := Finish(s.mgr, true, 1), handled := false)
      case Other(_) =>
        var r := Retry.RetryOutcome(w.succeeds, 2, 0);
        s.(mgr := Finish(s.mgr, r.Returned?, if r.NeverCalled? then 0 else r.attempts), handled := false)
  }

  function Apply(s: Sys, st: Step): Sys {
    match st
    case Register(e, endpoint) => if e in s.endpoints then s else s.(endpoints := s.endpoints[e := endpoint])
    case Revoke(e, owner) =>
      if e !in s.endpoints || s.endpoints[e].owner != owner then s
      else s.(endpoints := s.endpoints[e := s.endpoints[e].(active := false)])
    case Create(e, d) => if e !in s.endpoints || d in s.deliveries then s else DispatchOne(s, e, d)
    case Submit(name, inLoop) => s.(mgr := Enqueue(s.mgr, Other(name), inLoop))
    case Start => s.(mgr := Attach(s.mgr))
    case Worker(w) => Work(s, w)
  }

  function Run(s: Sys, steps: seq<Step>): Sys
    decreases |steps|
  {
    if steps == [] then s else Run(Apply(s, steps[0]), steps[1..])
  }

  const NEW_SYSTEM := Sys(NEW, map[], map[], false)

  // ---------------------------------------------------------------------------------------------
  // The invariant

  // Jobs still to be handled for this delivery.
  function Outstanding(s: Sys, d: nat): nat {
    multiset(s.mgr.queue)[Deliver(d)] + if s.mgr.current == Some(Deliver(d)) && !s.handled then 1 else 0
  }

  // Nothing more will be sent: delivered, tried three times, endpoint gone, or answered below 200.
  predicate Terminal(s: Sys, d: nat)
    requires d in s.deliveries
  {
    var x := s.deliveries[d];
    || x.delivered || x.attempts == 3
    || x.endpoint !in s.endpoints || !s.endpoints[x.endpoint].active
    || (x.lastStatus.Some? && x.lastStatus.value < 200)
  }

  predicate Accepted(x: Delivery) { x.lastStatus.Some? && 200 <= x.lastStatus.value < 300 }

  predicate DeliveryOk(s: Sys, d: nat)
    requires d in s.deliveries
  {
    && s.deliveries[d].posts == s.deliveries[d].attempts <= MAX_ATTEMPTS
    && (s.deliveries[d].delivered <==> Accepted(s.deliveries[d]))
    && Outstanding(s, d) <= 1
    && (Outstanding(s, d) == 1 ==> s.deliveries[d].attempts < MAX_ATTEMPTS && !s.deliveries[d].delivered)
    && (Outstanding(s, d) == 0 ==> Terminal(s, d))
  }

  ghost predicate SysInv(s: Sys) {
    && Inv(s.mgr)
    && (s.handled ==> s.mgr.current.Some?)
    && (forall d :: Deliver(d) !in s.mgr.preLoop)
    && (forall d :: d in s.deliveries ==> s.deliveries[d].endpoint in s.endpoints)
    && (forall d :: d !in s.deliveries ==> Outstanding(s, d) == 0)
    && (forall d :: d in s.deliveries ==> DeliveryOk(s, d))
  }

  lemma EnqueueCounts(m: Manager, job: Job, inLoop: bool, d: nat)
    requires Deliver(d) !in m.preLoop && (job.Deliver? ==> inLoop)
    ensures multiset(Enqueue(m, job, inLoop).queue)[Deliver(d)]
         == multiset(m.queue)[Deliver(d)] + if job == Deliver(d) then 1 else 0
    ensures Deliver(d) !in Enqueue(m, job, inLoop).preLoop
    ensures Enqueue(m, job, inLoop).current == m.current
  {
    assert multiset(m.preLoop)[Deliver(d)] == 0;
    assert !inLoop && job.Other? ==> Deliver(d) !in m.preLoop + [job];
    assert multiset(m.preLoop + [job])[Deliver(d)] == if job == Deliver(d) then 1 else 0;
  }

  lemma EnqueueKeepsManager(m: Manager, job: Job, inLoop: bool)
    requires Inv(m)
    ensures Inv(Enqueue(m, job, inLoop))
  {
    ApplyKeepsInv(m, StepEnqueue(job, inLoop));
  }

  lemma CreateCounts(s: Sys, e: nat, d: nat, c: nat)
    requires Deliver(c) !in s.mgr.preLoop
    ensures Outstanding(DispatchOne(s, e, d), c) == Outstanding(s, c) + if c == d then 1 else 0
    ensures Deliver(c) !in DispatchOne(s, e, d).mgr.preLoop
  {
    EnqueueCounts(s.mgr, Deliver(d), true, c);
  }

  lemma CreateKeepsInv(s: Sys, e: nat, d: nat)
    requires SysInv(s) && e in s.endpoints && d !in s.deliveries
    ensures SysInv(DispatchOne(s, e, d))
  {
    var s' := DispatchOne(s, e, d);
    EnqueueKeepsManager(s.mgr, Deliver(d), true);
    forall c: nat ensures Outstanding(s', c) == Outstanding(s, c) + if c == d then 1 else 0
      ensures Deliver(c) !in s'.mgr.preLoop
    {
      CreateCounts(s, e, d, c);
    }
    forall c | c in s'.deliveries ensures DeliveryOk(s', c) {
      if c != d { assert DeliveryOk(s, c); }
    }
  }

  lemma SubmitKeepsInv(s: Sys, name: nat, inLoop: bool)
    requires SysInv(s)
    ensures SysInv(s.(mgr := Enqueue(s.mgr, Other(name), inLoop)))
  {
    var s' := s.(mgr := Enqueue(s.mgr, Other(name), inLoop));
    EnqueueKeepsManager(s.mgr, Other(name), inLoop);
    forall c: nat ensures Outstanding(s', c) == Outstanding(s, c) && Deliver(c) !in s'.mgr.preLoop {
      EnqueueCounts(s.mgr, Other(name), inLoop, c);
    }
    forall c | c in s'.deliveries ensures DeliveryOk(s', c) { assert DeliveryOk(s, c); }
  }

  lemma StartKeepsInv(s: Sys)
    requires SysInv(s)
    ensures SysInv(s.(mgr := Attach(s.mgr)))
  {
    var s' := s.(mgr := Attach(s.mgr));
    ApplyKeepsInv(s.mgr, StepStart);
    forall c: nat ensures Outstanding(s', c) == Outstanding(s, c) {
      assert multiset(s.mgr.preLoop)[Deliver(c)] == 0;
      assert multiset(s.mgr.queue + s.mgr.preLoop) == multiset(s.mgr.queue) + multiset(s.mgr.preLoop);
    }
    forall c | c in s'.deliveries ensures DeliveryOk(s', c) { assert DeliveryOk(s, c); }
  }

  // Endpoints may be added, and those there are may be switched off.
  lemma EndpointsKeepInv(s: Sys, eps: map<nat, Endpoint>)
    requires SysInv(s)
    requires forall e :: e in s.endpoints ==> e in eps && (eps[e].active ==> s.endpoints[e].active)
    ensures SysInv(s.(endpoints := eps))
  {
    var s' := s.(endpoints := eps);
    forall d: nat ensures Outstanding(s', d) == Outstanding(s, d) { }
    forall d | d in s'.deliveries ensures DeliveryOk(s', d) {
      assert s.deliveries[d].endpoint in s.endpoints;
      StaysOk(s, s', d);
    }
  }

  lemma StaysOk(s: Sys, s': Sys, d: nat)
    requires d in s.deliveries && DeliveryOk(s, d) && s'.deliveries == s.deliveries
    requires s'.mgr == s.mgr && s'.handled == s.handled && (Sendable(s', d) ==> Sendable(s, d))
    ensures DeliveryOk(s', d)
  {
  }

  lemma TakeKeepsInv(s: Sys)
    requires SysInv(s) && CanTake(s.mgr)
    ensures SysInv(s.(mgr := Take(s.mgr), handled := false))
  {
    var s' := s.(mgr := Take(s.mgr), handled := false);
    ApplyKeepsInv(s.mgr, StepTake);
    assert s.mgr.queue == [s.mgr.queue[0]] + s.mgr.queue[1..];
    forall c: nat ensures Outstanding(s', c) == Outstanding(s, c) { }
    forall c | c in s'.deliveries ensures DeliveryOk(s', c) { assert DeliveryOk(s, c); }
  }

  lemma HandleKeepsInv(s: Sys, d: nat, r: Result)
    requires SysInv(s) && s.mgr.current == Some(Deliver(d)) && !s.handled
    ensures SysInv(Handle(s, d, r).(handled := true))
  {
    var s' := Handle(s, d, r).(handled := true);
    assert Outstanding(s, d) >= 1 && d in s.deliveries && DeliveryOk(s, d);
    assert multiset(s.mgr.queue)[Deliver(d)] == 0;
    if Sendable(s, d) && TryAgain(Posted(s.deliveries[d], r), r) {
      EnqueueKeepsManager(s.mgr, Deliver(d), true);
      forall c: nat ensures Outstanding(s', c) == Outstanding(s, c) && Deliver(c) !in s'.mgr.preLoop {
        EnqueueCounts(s.mgr, Deliver(d), true, c);
      }
    } else {
      forall c: nat ensures Outstanding(s', c) == if c == d then 0 else Outstanding(s, c) { }
    }
    forall c | c in s'.deliveries ensures DeliveryOk(s', c) { assert DeliveryOk(s, c); }
  }

  lemma FinishWorkKeepsInv(s: Sys, ok: bool, attempts: nat)
    requires SysInv(s) && s.mgr.current.Some? && s.handled && 1 <= attempts <= 3
    ensures SysInv(s.(mgr := Finish(s.mgr, ok, attempts), handled := false))
  {
    var s' := s.(mgr := Finish(s.mgr, ok, attempts), handled := false);
    FinishKeepsInv(s.mgr, ok, attempts);
    forall c: nat ensures Outstanding(s', c) == Outstanding(s, c) { }
    forall c | c in s'.deliveries ensures DeliveryOk(s', c) { assert DeliveryOk(s, c); }
  }

  lemma WorkKeepsInv(s: Sys, w: World)
    requires SysInv(s)
    ensures SysInv(Work(s, w))
  {
    if s.mgr.current.None? {
      if CanTake(s.mgr) { TakeKeepsInv(s); }
    } else if !s.handled {
      if s.mgr.current.value.Deliver? {
        HandleKeepsInv(s, s.mgr.current.value.delivery, w.result);
      } else {
        var s' := s.(handled := true);
        forall c: nat ensures Outstanding(s', c) == Outstanding(s, c) { }
        forall c | c in s'.deliveries ensures DeliveryOk(s', c) { assert DeliveryOk(s, c); }
      }
    } else if s.mgr.current.value.Deliver? {
      FinishWorkKeepsInv(s, true, 1);
    } else {
      RetryBounds(w.succeeds, 0);
      var r := Retry.RetryOutcome(w.succeeds, 2, 0);
      FinishWorkKeepsInv(s, r.Returned?, r.attempts);
    }
  }

  lemma ApplyKeepsSysInv(s: Sys, st: Step)
    requires SysInv(s)
    ensures SysInv(Apply(s, st))
  {
    match st
    case Create(e, d) => if e in s.endpoints && d !in s.deliveries { CreateKeepsInv(s, e, d); }
    case Submit(name, inLoop) => SubmitKeepsInv(s, name, inLoop);
    case Start => StartKeepsInv(s);
    case Worker(w) => WorkKeepsInv(s, w);
    case _ => EndpointsKeepInv(s, Apply(s, st).endpoints);
  }

  lemma {:induction false} RunKeepsSysInv(s: Sys, steps: seq<Step>)
    requires SysInv(s)
    ensures SysInv(Run(s, steps))
    decreases |steps|
  {
    if steps != [] {
      ApplyKeepsSysInv(s, steps[0]);
      RunKeepsSysInv(Apply(s, steps[0]), steps[1..]);
    }
  }

  // ---------------------------------------------------------------------------------------------
  // Main results

  /** In every reachable state each delivery has at most one job still to handle, and has been posted exactly
    as often as its row says, never more than three times. */
  lemma AtMostThreePosts(steps: seq<Step>, d: nat)
    requires d in Run(NEW_SYSTEM, steps).deliveries
    ensures Outstanding(Run(NEW_SYSTEM, steps), d) <= 1
    ensures Run(NEW_SYSTEM, steps).deliveries[d].posts == Run(NEW_SYSTEM, steps).deliveries[d].attempts <= 3
  {
    RunKeepsSysInv(NEW_SYSTEM, steps);
    assert DeliveryOk(Run(NEW_SYSTEM, steps), d);
  }

  /** A delivery is marked delivered exactly if the last answer of its endpoint was a 2xx, and then no job is
    left that would post it again. */
  lemma DeliveredMeansAccepted(steps: seq<Step>, d: nat)
    requires d in Run(NEW_SYSTEM, steps).deliveries
    ensures Run(NEW_SYSTEM, steps).deliveries[d].delivered <==> Accepted(Run(NEW_SYSTEM, steps).deliveries[d])
    ensures Run(NEW_SYSTEM, steps).deliveries[d].delivered ==> Outstanding(Run(NEW_SYSTEM, steps), d) == 0
  {
    RunKeepsSysInv(NEW_SYSTEM, steps);
    assert DeliveryOk(Run(NEW_SYSTEM, steps), d);
  }

  // Jobs of deliveries end well, after one attempt.
  predicate EndWell(m: Manager) {
    forall i :: 0 <= i < |m.ended| && m.ended[i].job.Deliver? ==> m.ended[i].ok && m.ended[i].attempts == 1
  }

  lemma StepEndsWell(s: Sys, st: Step)
    requires EndWell(s.mgr)
    ensures EndWell(Apply(s, st).mgr)
  {
    var t := Apply(s, st);
    forall i | 0 <= i < |t.mgr.ended| && t.mgr.ended[i].job.Deliver?
      ensures t.mgr.ended[i].ok && t.mgr.ended[i].attempts == 1
    {
      assert i < |s.mgr.ended| ==> t.mgr.ended[i] == s.mgr.ended[i];
    }
  }

  lemma {:induction false} RunEndsWell(s: Sys, steps: seq<Step>)
    requires EndWell(s.mgr)
    ensures EndWell(Run(s, steps).mgr)
    decreases |steps|
  {
    if steps != [] {
      StepEndsWell(s, steps[0]);
      RunEndsWell(Apply(s, steps[0]), steps[1..]);
    }
  }

  lemma {:induction false} FailuresAreOthers(ended: seq<Ended>)
    requires forall i :: 0 <= i < |ended| && ended[i].job.Deliver? ==> ended[i].ok
    ensures forall i :: 0 <= i < |Failures(ended)| ==> Failures(ended)[i].Other?
  {
    if ended != [] {
      FailuresAreOthers(ended[..|ended| - 1]);
    }
  }

  /** The job of a delivery always ends well, after one attempt, whatever was answered: retries are jobs of their own,
    and no delivery is ever among the dead letters. */
  lemma DeliveriesNeverDie(steps: seq<Step>)
    ensures var m := Run(NEW_SYSTEM, steps).mgr;
            && (forall i :: 0 <= i < |m.ended| && m.ended[i].job.Deliver? ==> m.ended[i].ok && m.ended[i].attempts == 1)
            && (forall i :: 0 <= i < |m.deadLetter| ==> m.deadLetter[i].Other?)
  {
    RunEndsWell(NEW_SYSTEM, steps);
    RunKeepsSysInv(NEW_SYSTEM, steps);
    var m := Run(NEW_SYSTEM, steps).mgr;
    FailuresAreOthers(m.ended);
    TrimKeepsTheLast(Failures(m.ended));
  }

  /** When the idle event is set, nothing more will be sent for any delivery dispatched so far. */
  lemma IdleMeansTerminal(steps: seq<Step>, d: nat)
    requires Run(NEW_SYSTEM, steps).mgr.idle && d in Run(NEW_SYSTEM, steps).deliveries
    ensures Terminal(Run(NEW_SYSTEM, steps), d)
  {
    RunKeepsSysInv(NEW_SYSTEM, steps);
    var s := Run(NEW_SYSTEM, steps);
    assert s.mgr.queue == [] && s.mgr.current.None?;
    assert Outstanding(s, d) == 0 && DeliveryOk(s, d);
  }

  /** The worker posts for a delivery exactly when it handles the delivery's job and the endpoint is there and
    active. */
  lemma PostedWhenActive(s: Sys, w: World, d: nat)
    requires d in s.deliveries
    ensures d in Work(s, w).deliveries
    ensures var e := s.deliveries[d].endpoint;
            Work(s, w).deliveries[d].posts == s.deliveries[d].posts +
              if s.mgr.current == Some(Deliver(d)) && !s.handled && e in s.endpoints && s.endpoints[e].active
              then 1 else 0
  {
  }

  /** What the answer does: it is the row's last status, counts as delivered if it is a 2xx, and sends the delivery
    back to the queue if it is 300 or above, or there is none, and fewer than three posts have been made. */
  lemma AnswerIsRecorded(s: Sys, w: World, d: nat)
    requires d in s.deliveries && Sendable(s, d) && s.mgr.current == Some(Deliver(d)) && !s.handled
    ensures var x, y := s.deliveries[d], Work(s, w).deliveries[d];
            && y.endpoint == x.endpoint && y.attempts == x.attempts + 1
            && (w.result.Response? ==>
                  y.lastStatus == Some(w.result.code) && (y.delivered <==> x.delivered || 200 <= w.result.code < 300))
            && (w.result.TransportError? ==> y.lastStatus == x.lastStatus && y.delivered == x.delivered)
            && Work(s, w).mgr.enqueued == s.mgr.enqueued +
                 if (w.result.Response? ==> w.result.code >= 300) && x.attempts + 1 < 3 then [Deliver(d)] else []
  {
    assert s.mgr.enqueued + [] == s.mgr.enqueued;
  }

  lemma {:induction false} InactiveGetsNothing(s: Sys, steps: seq<Step>, d: nat)
    requires d in s.deliveries && s.deliveries[d].endpoint in s.endpoints
    requires !s.endpoints[s.deliveries[d].endpoint].active
    ensures d in Run(s, steps).deliveries && Run(s, steps).deliveries[d].posts == s.deliveries[d].posts
    decreases |steps|
  {
    if steps != [] {
      var t := Apply(s, steps[0]);
      assert d in t.deliveries && t.deliveries[d] == s.deliveries[d];
      InactiveGetsNothing(t, steps[1..], d);
    }
  }

  /** Once its owner has revoked an endpoint nothing is posted to it any more, retries that wait included. */
  lemma RevokedGetsNothing(before: seq<Step>, e: nat, owner: int, after: seq<Step>, d: nat)
    requires var s := Run(NEW_SYSTEM, before);
             && e in s.endpoints && s.endpoints[e].owner == owner
             && d in s.deliveries && s.deliveries[d].endpoint == e
    ensures var s := Run(NEW_SYSTEM, before);
            var end := Run(Apply(s, Revoke(e, owner)), after);
            d in end.deliveries && end.deliveries[d].posts == s.deliveries[d].posts
  {
    InactiveGetsNothing(Apply(Run(NEW_SYSTEM, before), Revoke(e, owner)), after, d);
  }

  // ---------------------------------------------------------------------------------------------
  // The queue drains

  // The steps the worker may still need for a waiting job, retries included.
  function Weight(deliveries: map<nat, Delivery>, job: Job): nat {
    if job.Deliver? && job.delivery in deliveries && deliveries[job.delivery].attempts < MAX_ATTEMPTS
    then 3 * (MAX_ATTEMPTS - deliveries[job.delivery].attempts)
    else 3
  }

  function TotalWeight(deliveries: map<nat, Delivery>, jobs: seq<Job>): nat {
    if jobs == [] then 0
    else TotalWeight(deliveries, jobs[..|jobs| - 1]) + Weight(deliveries, jobs[|jobs| - 1])
  }

  function Measure(s: Sys): nat {
    TotalWeight(s.deliveries, s.mgr.queue)
    + if s.mgr.current.None? then 0
      else if s.handled then 1
      else Weight(s.deliveries, s.mgr.current.value) - 1
  }

  lemma {:induction false} WeightOfFirst(deliveries: map<nat, Delivery>, jobs: seq<Job>)
    requires jobs != []
    ensures TotalWeight(deliveries, jobs) == Weight(deliveries, jobs[0]) + TotalWeight(deliveries, jobs[1..])
  {
    if |jobs| > 1 {
      WeightOfFirst(deliveries, jobs[..|jobs| - 1]);
      assert jobs[..|jobs| - 1][1..] == jobs[1..][..|jobs| - 2];
    }
  }

  // The row of a delivery that is not waiting weighs nothing.
  lemma {:induction false} WeightIgnores(deliveries: map<nat, Delivery>, jobs: seq<Job>, d: nat, x: Delivery)
    requires multiset(jobs)[Deliver(d)] == 0
    ensures TotalWeight(deliveries[d := x], jobs) == TotalWeight(deliveries, jobs)
  {
    if jobs != [] {
      assert jobs == jobs[..|jobs| - 1] + [jobs[|jobs| - 1]];
      WeightIgnores(deliveries, jobs[..|jobs| - 1], d, x);
    }
  }

  // Attached, and no job stranded outside the queue.
  predicate Flowing(s: Sys) { s.mgr.attached && s.mgr.preLoop == [] }

  lemma HandleDecreases(s: Sys, d: nat, r: Result)
    requires SysInv(s) && Flowing(s) && s.mgr.current == Some(Deliver(d)) && !s.handled
    ensures Measure(Handle(s, d, r).(handled := true)) < Measure(s)
  {
    assert Outstanding(s, d) >= 1 && d in s.deliveries && DeliveryOk(s, d);
    if Sendable(s, d) {
      var x := Posted(s.deliveries[d], r);
      WeightIgnores(s.deliveries, s.mgr.queue, d, x);
      if TryAgain(x, r) {
        assert (s.mgr.queue + [Deliver(d)])[..|s.mgr.queue|] == s.mgr.queue;
      }
    }
  }

  /** Each step of the worker brings the queue closer to empty, whatever the endpoints answer, as long as
    there is a step to take. */
  lemma WorkDecreases(s: Sys, w: World)
    requires SysInv(s) && Flowing(s) && CanWork(s)
    ensures Measure(Work(s, w)) < Measure(s) && Flowing(Work(s, w))
  {
    if s.mgr.current.None? {
      WeightOfFirst(s.deliveries, s.mgr.queue);
    } else if !s.handled && s.mgr.current.value.Deliver? {
      HandleDecreases(s, s.mgr.current.value.delivery, w.result);
    }
  }

  lemma DrainedIsDone(s: Sys)
    requires SysInv(s) && Flowing(s) && !CanWork(s)
    ensures s.mgr.idle
    ensures forall d :: d in s.deliveries ==> Terminal(s, d) && s.deliveries[d].posts <= 3
  {
    assert forall d :: d in s.deliveries ==> DeliveryOk(s, d);
    assert s.mgr.queue == [];
  }

  /** The worker left to itself. It stops, the manager is then idle, and every delivery is done with. */
  ghost function Drain(s: Sys, worlds: nat -> World, k: nat): (r: Sys)
    requires SysInv(s) && Flowing(s)
    ensures r.mgr.idle && r.deliveries.Keys == s.deliveries.Keys
    ensures forall d :: d in r.deliveries ==> Terminal(r, d) && r.deliveries[d].posts <= 3
    decreases Measure(s)
  {
    if CanWork(s) then
      WorkKeepsInv(s, worlds(k));
      WorkDecreases(s, worlds(k));
      Drain(Work(s, worlds(k)), worlds, k + 1)
    else
      DrainedIsDone(s);
      s
  }

  // Some delivery from `firstId` on goes to this endpoint.
  predicate CreatedFor(s: Sys, firstId: nat, e: nat) {
    exists d :: d in s.deliveries && firstId <= d && s.deliveries[d].endpoint == e
  }

  function Jobs(firstId: nat, id: nat): seq<Job>
    requires firstId <= id
  {
    seq(id - firstId, i requires 0 <= i < id - firstId => Deliver(firstId + i))
  }

  predicate NewFor(s: Sys, t: Sys, d: nat, rows: seq<nat>, event: string) {
    && d in t.deliveries
    && t.deliveries[d].endpoint in rows && Subscribes(s, t.deliveries[d].endpoint, event)
    && t.deliveries[d] == Delivery(t.deliveries[d].endpoint, 0, None, false, 0)
  }

  // From `s` to `t` exactly the deliveries `firstId`, …, `id - 1` were created, for distinct subscribers among
  // the rows, and their jobs were queued in that order.
  ghost predicate Created(s: Sys, t: Sys, rows: seq<nat>, event: string, firstId: nat, id: nat) {
    && firstId <= id
    && t.endpoints == s.endpoints && t.handled == s.handled
    && (forall d :: d in t.deliveries <==> d in s.deliveries || firstId <= d < id)
    && (forall d :: d in s.deliveries ==> t.deliveries[d] == s.deliveries[d])
    && (forall d :: firstId <= d < id ==> NewFor(s, t, d, rows, event))
    && (forall c, d :: firstId <= c < d < id ==> t.deliveries[c].endpoint != t.deliveries[d].endpoint)
    && t.mgr.enqueued == s.mgr.enqueued + Jobs(firstId, id)
  }

  // And for all of the subscribers.
  predicate Covered(s: Sys, t: Sys, rows: seq<nat>, event: string, firstId: nat) {
    forall e :: e in rows && Subscribes(s, e, event) ==> CreatedFor(t, firstId, e)
  }

  lemma CreatedNext(s: Sys, u: Sys, init: seq<nat>, e: nat, event: string, firstId: nat, id: nat)
    requires Created(s, u, init, event, firstId, id) && e !in init && Subscribes(s, e, event)
    requires forall d :: d in s.deliveries ==> d < firstId
    ensures Created(s, DispatchOne(u, e, id), init + [e], event, firstId, id + 1)
  {
    var t := DispatchOne(u, e, id);
    assert Jobs(firstId, id + 1) == Jobs(firstId, id) + [Deliver(id)];
    forall d | firstId <= d < id + 1 ensures NewFor(s, t, d, init + [e], event) {
      assert d < id ==> NewFor(s, u, d, init, event);
    }
    forall c, d | firstId <= c < d < id + 1 ensures t.deliveries[c].endpoint != t.deliveries[d].endpoint {
      assert NewFor(s, u, c, init, event);
    }
  }

  lemma CoveredNext(s: Sys, u: Sys, init: seq<nat>, e: nat, event: string, firstId: nat, id: nat)
    requires Covered(s, u, init, event, firstId) && firstId <= id && id !in u.deliveries
    ensures Covered(s, DispatchOne(u, e, id), init + [e], event, firstId)
  {
    var t := DispatchOne(u, e, id);
    assert t.deliveries[id].endpoint == e;
    forall x | x in init && Subscribes(s, x, event) ensures CreatedFor(t, firstId, x) {
      var d :| d in u.deliveries && firstId <= d && u.deliveries[d].endpoint == x;
      assert t.deliveries[d].endpoint == x;
    }
  }

  lemma NothingFor(s: Sys, u: Sys, init: seq<nat>, e: nat, event: string, firstId: nat, id: nat)
    requires Created(s, u, init, event, firstId, id) && Covered(s, u, init, event, firstId) && !Subscribes(s, e, event)
    ensures Created(s, u, init + [e], event, firstId, id) && Covered(s, u, init + [e], event, firstId)
  {
    forall d | firstId <= d < id ensures NewFor(s, u, d, init + [e], event) {
      assert NewFor(s, u, d, init, event);
    }
  }

  lemma NoRows(s: Sys, event: string, firstId: nat)
    ensures Created(s, s, [], event, firstId, firstId) && Covered(s, s, [], event, firstId)
  {
    assert s.mgr.enqueued + Jobs(firstId, firstId) == s.mgr.enqueued;
  }

  lemma OneRowOn(s: Sys, u: Sys, init: seq<nat>, e: nat, event: string, firstId: nat, id: nat)
    requires Created(s, u, init, event, firstId, id) && Covered(s, u, init, event, firstId) && e !in init
    requires forall d :: d in s.deliveries ==> d < firstId
    ensures Subscribes(s, e, event) ==>
      Created(s, DispatchOne(u, e, id), init + [e], event, firstId, id + 1)
      && Covered(s, DispatchOne(u, e, id), init + [e], event, firstId)
    ensures !Subscribes(s, e, event) ==>
      Created(s, u, init + [e], event, firstId, id) && Covered(s, u, init + [e], event, firstId)
  {
    if Subscribes(s, e, event) {
      CreatedNext(s, u, init, e, event, firstId, id);
      assert id !in s.deliveries;
      CoveredNext(s, u, init, e, event, firstId, id);
    } else {
      NothingFor(s, u, init, e, event, firstId, id);
    }
  }

  lemma {:induction false} DispatchCovers(s: Sys, rows: seq<nat>, event: string, firstId: nat)
    requires forall d :: d in s.deliveries ==> d < firstId
    requires forall i, j :: 0 <= i < j < |rows| ==> rows[i] != rows[j]
    ensures Created(s, DispatchRows(s, rows, event, firstId).0, rows, event, firstId,
                    DispatchRows(s, rows, event, firstId).1)
    ensures Covered(s, DispatchRows(s, rows, event, firstId).0, rows, event, firstId)
  {
    if rows == [] {
      NoRows(s, event, firstId);
    } else {
      var init, e := rows[..|rows| - 1], rows[|rows| - 1];
      DispatchCovers(s, init, event, firstId);
      var (u, id) := DispatchRows(s, init, event, firstId);
      OneRowOn(s, u, init, e, event, firstId, id);
      assert rows == init + [e];
      assert DispatchRows(s, rows, event, firstId)
          == if Subscribes(s, e, event) then (DispatchOne(u, e, id), id + 1) else (u, id);
    }
  }

  // What the query for active endpoints returns: each of them once, in some order.
  ghost predicate ListsActive(s: Sys, rows: seq<nat>) {
    && (forall i, j :: 0 <= i < j < |rows| ==> rows[i] != rows[j])
    && forall e :: e in rows <==> e in s.endpoints && s.endpoints[e].active
  }

  // The new deliveries to an endpoint.
  function NewDeliveries(t: Sys, firstId: nat, e: nat): set<nat> {
    set d | d in t.deliveries && firstId <= d && t.deliveries[d].endpoint == e
  }

  lemma OneOrNone(s: Sys, t: Sys, rows: seq<nat>, event: string, firstId: nat, id: nat, e: nat)
    requires Created(s, t, rows, event, firstId, id) && Covered(s, t, rows, event, firstId) && ListsActive(s, rows)
    requires forall d :: d in s.deliveries ==> d < firstId
    ensures |NewDeliveries(t, firstId, e)| == if Subscribes(s, e, event) then 1 else 0
  {
    if Subscribes(s, e, event) {
      assert CreatedFor(t, firstId, e);
      var d :| d in t.deliveries && firstId <= d && t.deliveries[d].endpoint == e;
      assert NewDeliveries(t, firstId, e) == {d};
    } else {
      forall d | d in t.deliveries && firstId <= d ensures t.deliveries[d].endpoint != e {
        assert NewFor(s, t, d, rows, event);
      }
      assert NewDeliveries(t, firstId, e) == {};
    }
  }

  /** `dispatch` creates exactly one delivery for each endpoint that is active and subscribes to the event and none
    for any other endpoint, queues one job for each, and changes nothing else. */
  lemma DispatchReachesSubscribers(s: Sys, rows: seq<nat>, event: string, firstId: nat)
    requires ListsActive(s, rows) && forall d :: d in s.deliveries ==> d < firstId
    ensures var (t, id) := DispatchRows(s, rows, event, firstId);
            && (forall e :: |NewDeliveries(t, firstId, e)| ==
                  if e in s.endpoints && s.endpoints[e].active && event in s.endpoints[e].events then 1 else 0)
            && Created(s, t, rows, event, firstId, id)
  {
    DispatchCovers(s, rows, event, firstId);
    var (t, id) := DispatchRows(s, rows, event, firstId);
    forall e ensures |NewDeliveries(t, firstId, e)| == if Subscribes(s, e, event) then 1 else 0 {
      OneOrNone(s, t, rows, event, firstId, id, e);
    }
  }

  // ---------------------------------------------------------------------------------------------
  // `dispatch` as steps of a run

  lemma {:induction false} RunSnoc(s: Sys, steps: seq<Step>, st: Step)
    ensures Run(s, steps + [st]) == Apply(Run(s, steps), st)
    decreases |steps|
  {
    if steps == [] {
      assert Run(s, [st]) == Run(Apply(s, st), []);
    } else {
      assert (steps + [st])[1..] == steps[1..] + [st];
      RunSnoc(Apply(s, steps[0]), steps[1..], st);
    }
  }

  function Creations(s: Sys, rows: seq<nat>, event: string, firstId: nat): seq<Step> {
    if rows == [] then []
    else
      var init, e := rows[..|rows| - 1], rows[|rows| - 1];
      var steps := Creations(s, init, event, firstId);
      if Subscribes(s, e, event) then steps + [Create(e, DispatchRows(s, init, event, firstId).1)] else steps
  }

  /** Dispatching is one `Create` after the other, so that what holds over every run holds of it. */
  lemma {:induction false} DispatchIsARun(s: Sys, rows: seq<nat>, event: string, firstId: nat)
    requires forall d :: d in s.deliveries ==> d < firstId
    ensures var (t, id) := DispatchRows(s, rows, event, firstId);
            && t == Run(s, Creations(s, rows, event, firstId))
            && t.endpoints == s.endpoints && forall d :: d in t.deliveries ==> d < id
  {
    if rows != [] {
      var init, e := rows[..|rows| - 1], rows[|rows| - 1];
      DispatchIsARun(s, init, event, firstId);
      var (t, id) := DispatchRows(s, init, event, firstId);
      RunSnoc(s, Creations(s, init, event, firstId), Create(e, id));
    }
  }

  // ---------------------------------------------------------------------------------------------
  // The service as an object

  predicate IsStep(s: Sys, st: Step, t: Sys) { t == Apply(s, st) }
  predicate IsRun(s: Sys, steps: seq<Step>, t: Sys) { t == Run(s, steps) }

  class WebhookService {
    const manager: BackgroundJobManager
    var deliveries: map<nat, Delivery>
    var endpoints: map<nat, Endpoint>
    var nextId: nat

    constructor ()
      ensures fresh(manager) && View() == Sys(NEW, map[], map[], false)
    {
      manager := new BackgroundJobManager();
      deliveries, endpoints, nextId := map[], map[], 1;
    }

    ghost function View(): Sys
      reads this, manager
    {
      Sys(manager.View(), deliveries, endpoints, false)
    }

    method Dispatch(rows: seq<nat>, event: string)
      modifies this, manager
      ensures (View(), nextId) == DispatchRows(old(View()), rows, event, old(nextId))
      ensures ListsActive(old(View()), rows) && (forall d :: d in old(deliveries) ==> d < old(nextId)) ==>
        forall e :: |set d | d in deliveries && old(nextId) <= d && deliveries[d].endpoint == e| ==
          if e in old(endpoints) && old(endpoints)[e].active && event in old(endpoints)[e].events then 1 else 0
      ensures (forall d :: d in old(deliveries) ==> d < old(nextId)) ==>
        IsRun(old(View()), Creations(old(View()), rows, event, old(nextId)), View())
    {
      ghost var s := View();
      var i := 0;
      while i < |rows|
        invariant 0 <= i <= |rows|
        invariant (View(), nextId) == DispatchRows(s, rows[..i], event, old(nextId))
        invariant endpoints == s.endpoints
      {
        assert rows[..i + 1][..i] == rows[..i];
        var e := rows[i];
        if e in endpoints && endpoints[e].active && event in endpoints[e].events {
          deliveries := deliveries[nextId := Delivery(e, 0, None, false, 0)];
          manager.EnqueueJob(Deliver(nextId), true);
          nextId := nextId + 1;
        }
        i := i + 1;
      }
      assert rows[..i] == rows;
      if forall d :: d in s.deliveries ==> d < old(nextId) {
        DispatchIsARun(s, rows, event, old(nextId));
        if ListsActive(s, rows) {
          DispatchReachesSubscribers(s, rows, event, old(nextId));
          assert forall e :: NewDeliveries(View(), old(nextId), e)
                          == set d | d in deliveries && old(nextId) <= d && deliveries[d].endpoint == e;
        }
      }
    }

    // `e` is the key the database gives the new row.
    method CreateEndpoint(e: nat, owner: int, events: set<string>, active: bool := true)
      requires e !in endpoints
      modifies this`endpoints
      ensures endpoints == old(endpoints)[e := Endpoint(owner, active, events)]
      ensures IsStep(old(View()), Register(e, Endpoint(owner, active, events)), View())
    {
      endpoints := endpoints[e := Endpoint(owner, active, events)];
    }

    // Somebody else's endpoint counts as not found.
    method RevokeEndpoint(e: nat, owner: int) returns (found: bool)
      modifies this`endpoints
      ensures found <==> e in old(endpoints) && old(endpoints)[e].owner == owner
      ensures endpoints == if found then old(endpoints)[e := old(endpoints)[e].(active := false)] else old(endpoints)
      ensures IsStep(old(View()), Revoke(e, owner), View())
    {
      if e !in endpoints || endpoints[e].owner != owner { return false; }
      endpoints := endpoints[e := endpoints[e].(active := false)];
      return true;
    }

    // `r` is what the post yields, if one is made.
    method DeliverWebhook(d: nat, r: Result)
      modifies this`deliveries, manager
      ensures View() == Handle(old(View()), d, r)
    {
      if d !in deliveries { return; }
      var x := deliveries[d];
      if x.endpoint !in endpoints || !endpoints[x.endpoint].active { return; }
      x := x.(posts := x.posts + 1);
      match r {
        case Response(code) =>
          x := x.(attempts := x.attempts + 1, lastStatus := Some(code));
          if 200 <= code < 300 { x := x.(delivered := true); }
          deliveries := deliveries[d := x];
          if code >= 300 && x.attempts < 3 { manager.EnqueueJob(Deliver(d), true); }
        case TransportError =>
          x := x.(attempts := x.attempts + 1);
          deliveries := deliveries[d := x];
          if x.attempts < 3 { manager.EnqueueJob(Deliver(d), true); }
      }
    }
  }
}
