/** The in-process background-job manager: a queue, a list for jobs that arrive before there is an event
  loop, two counters, an idle flag and a bounded list of dead letters. One event loop and one worker; a
  worker is not cancelled in mid-job. */
module JobManager {
  import opened Options
  import opened Retry

  // What the queue carries: the delivery of one webhook, or any other job.
  datatype Job = Deliver(delivery: nat) | Other(name: nat)

  datatype Ended = Ended(job: Job, ok: bool, attempts: nat)

  const DEAD_LETTER_LIMIT := 50

  // The last three fields are history: every job accepted, every job taken, every job ended, in order.
  datatype Manager = Manager(
    queue: seq<Job>, preLoop: seq<Job>, attached: bool, pending: int, active: int, idle: bool,
    deadLetter: seq<Job>, current: Option<Job>,
    enqueued: seq<Job>, taken: seq<Job>, ended: seq<Ended>)

  const NEW := Manager([], [], false, 0, 0, true, [], None, [], [], [])

  // The queue is made when the manager first meets the loop; jobs that came before move into it.
  function Attach(m: Manager): Manager {
    if m.attached then m else m.(attached := true, queue := m.queue + m.preLoop, preLoop := [])
  }

  // `inLoop`: the caller runs on the event loop.
  function Enqueue(m: Manager, job: Job, inLoop: bool): Manager {
    var m1 := m.(idle := false, pending := m.pending + 1, enqueued := m.enqueued + [job]);
    if !inLoop then m1.(preLoop := m1.preLoop + [job])
    else
      var m2 := Attach(m1);
      m2.(queue := m2.queue + [job])
  }

  predicate CanTake(m: Manager) { m.attached && m.queue != [] && m.current.None? }

  function Take(m: Manager): Manager
    requires CanTake(m)
  {
    m.(queue := m.queue[1..], current := Some(m.queue[0]), pending := m.pending - 1, active := m.active + 1,
       taken := m.taken + [m.queue[0]])
  }

  function Trim(dead: seq<Job>): seq<Job> {
    if |dead| > DEAD_LETTER_LIMIT then dead[|dead| - DEAD_LETTER_LIMIT..] else dead
  }

  // The worker is done with its job, for good or for bad.
  function Finish(m: Manager, ok: bool, attempts: nat): Manager
    requires m.current.Some?
  {
    m.(current := None, active := m.active - 1,
       idle := m.idle || (m.active - 1 == 0 && m.pending == 0),
       deadLetter := if ok then m.deadLetter else Trim(m.deadLetter + [m.current.value]),
       ended := m.ended + [Ended(m.current.value, ok, attempts)])
  }

  class BackgroundJobManager {
    var queue: seq<Job>
    var pendingJobs: seq<Job>
    var hasQueue: bool
    var pendingJobCount: int
    var activeJobs: int
    var idleEvent: bool
    var deadLetter: seq<Job>
    var job: Option<Job>
    ghost var enqueued: seq<Job>
    ghost var taken: seq<Job>
    ghost var ended: seq<Ended>

    ghost function View(): Manager
      reads this
    {
      Manager(queue, pendingJobs, hasQueue, pendingJobCount, activeJobs, idleEvent, deadLetter, job,
              enqueued, taken, ended)
    }

    constructor ()
      ensures View() == NEW
    {
      queue, pendingJobs, hasQueue := [], [], false;
      pendingJobCount, activeJobs, idleEvent := 0, 0, true;
      deadLetter, job := [], None;
      enqueued, taken, ended := [], [], [];
    }

    // Moves the jobs one by one from the front of the list to the back of the queue.
    method EnsureQueue()
      modifies this`queue, this`pendingJobs, this`hasQueue
      ensures View() == Attach(old(View()))
    {
      if !hasQueue {
        hasQueue := true;
        while pendingJobs != []
          invariant hasQueue && queue + pendingJobs == old(queue) + old(pendingJobs)
          decreases |pendingJobs|
        {
          assert queue + pendingJobs == (queue + [pendingJobs[0]]) + pendingJobs[1..];
          queue, pendingJobs := queue + [pendingJobs[0]], pendingJobs[1..];
        }
        assert queue == queue + pendingJobs;
      }
    }

    method Start()
      modifies this
      ensures View() == Attach(old(View()))
    {
      EnsureQueue();
    }

    method EnqueueJob(j: Job, inLoop: bool)
      modifies this
      ensures View() == Enqueue(old(View()), j, inLoop)
    {
      idleEvent := false;
      pendingJobCount := pendingJobCount + 1;
      enqueued := enqueued + [j];
      if !inLoop {
        pendingJobs := pendingJobs + [j];
        return;
      }
      EnsureQueue();
      queue := queue + [j];
    }

    method TakeJob()
      requires CanTake(View())
      modifies this
      ensures View() == Take(old(View()))
    {
      job := Some(queue[0]);
      taken := taken + [queue[0]];
      queue := queue[1..];
      pendingJobCount := pendingJobCount - 1;
      activeJobs := activeJobs + 1;
    }

    method FinishJob(ok: bool, ghost attempts: nat)
      requires job.Some?
      modifies this
      ensures View() == Finish(old(View()), ok, attempts)
      ensures ok ==> deadLetter == old(deadLetter)
      ensures !ok && |old(deadLetter)| < 50 ==> deadLetter == old(deadLetter) + [old(job).value]
      ensures !ok && |old(deadLetter)| == 50 ==> deadLetter == old(deadLetter)[1..] + [old(job).value]
    {
      ghost var done := Finish(View(), ok, attempts);
      if !ok {
        deadLetter := deadLetter + [job.value];
        if |deadLetter| > DEAD_LETTER_LIMIT {
          deadLetter := deadLetter[|deadLetter| - DEAD_LETTER_LIMIT..];
        }
      }
      ended := ended + [Ended(job.value, ok, attempts)];
      job := None;
      activeJobs := activeJobs - 1;
      if activeJobs == 0 && pendingJobCount == 0 {
        idleEvent := true;
      }
      assert deadLetter == done.deadLetter && idleEvent == done.idle && ended == done.ended;
    }

    /** One turn of the worker's loop, for a job whose k-th call succeeds iff `succeeds(k)`: it is called one
      to three times, and ends well exactly if one of the three succeeds. */
    method RunNext(succeeds: nat -> bool)
      requires CanTake(View())
      modifies this
      ensures exists ok, attempts: nat ::
        && View() == Finish(Take(old(View())), ok, attempts)
        && 1 <= attempts <= 3
        && (ok <==> succeeds(0) || succeeds(1) || succeeds(2))
    {
      TakeJob();
      var r, _ := RetryAsync(succeeds, 2, 0.05, 2.0);
      FinishJob(r.Returned?, r.attempts);
      assert View() == Finish(Take(old(View())), r.Returned?, r.attempts);
      assert r.Returned? ==> succeeds(r.attempts - 1);
    }
  }

  // ---------------------------------------------------------------------------------------------
  // Every run. While a job runs, it and others may enqueue more.

  datatype Step =
    | StepEnqueue(job: Job, inLoop: bool)
    | StepStart
    | StepTake
    | StepFinish(succeeds: nat -> bool)

  function Apply(m: Manager, st: Step): Manager {
    match st
    case StepEnqueue(job, inLoop) => Enqueue(m, job, inLoop)
    case StepStart => Attach(m)
    case StepTake => if CanTake(m) then Take(m) else m
    case StepFinish(succeeds) =>
      if m.current.None? then m
      else
        var r := RetryOutcome(succeeds, 2, 0);
        Finish(m, r.Returned?, if r.NeverCalled? then 0 else r.attempts)
  }

  function Run(m: Manager, steps: seq<Step>): Manager
    decreases |steps|
  {
    if steps == [] then m else Run(Apply(m, steps[0]), steps[1..])
  }

  function Failures(ended: seq<Ended>): seq<Job> {
    if ended == [] then []
    else
      var e := ended[|ended| - 1];
      Failures(ended[..|ended| - 1]) + if e.ok then [] else [e.job]
  }

  predicate Inv(m: Manager) {
    && m.pending == |m.queue| + |m.preLoop|
    && m.active == (if m.current.Some? then 1 else 0)
    && (m.idle <==> m.pending == 0 && m.active == 0)
    && (!m.attached ==> m.queue == [] && m.taken == [])
    && |m.taken| == |m.ended| + m.active
    && (forall i :: 0 <= i < |m.ended| ==> m.ended[i].job == m.taken[i] && 1 <= m.ended[i].attempts <= 3)
    && (m.current.Some? ==> m.current.value == m.taken[|m.taken| - 1])
    && m.deadLetter == Trim(Failures(m.ended))
  }

  lemma RetryBounds(succeeds: nat -> bool, first: nat)
    requires first <= 2
    ensures !RetryOutcome(succeeds, 2, first).NeverCalled?
    ensures first + 1 <= RetryOutcome(succeeds, 2, first).attempts <= 3
    decreases 3 - first
  {
    if first < 2 && !succeeds(first) {
      RetryBounds(succeeds, first + 1);
    }
  }

  lemma TrimSnoc(dead: seq<Job>, job: Job)
    ensures Trim(Trim(dead) + [job]) == Trim(dead + [job])
  {
    if |dead| > DEAD_LETTER_LIMIT {
      assert Trim(dead) + [job] == (dead + [job])[|dead| - DEAD_LETTER_LIMIT..];
    }
  }

  lemma DeadLettersAfter(ended: seq<Ended>, e: Ended)
    ensures Trim(Failures(ended + [e])) ==
      if e.ok then Trim(Failures(ended)) else Trim(Trim(Failures(ended)) + [e.job])
  {
    assert (ended + [e])[..|ended|] == ended;
    var f := Failures(ended);
    assert f + [] == f;
    TrimSnoc(f, e.job);
  }

  lemma FinishKeepsInv(m: Manager, ok: bool, attempts: nat)
    requires Inv(m) && m.current.Some? && 1 <= attempts <= 3
    ensures Inv(Finish(m, ok, attempts))
  {
    var n := Finish(m, ok, attempts);
    assert n.deadLetter == Trim(Failures(n.ended)) by {
      DeadLettersAfter(m.ended, Ended(m.current.value, ok, attempts));
    }
    forall i | 0 <= i < |n.ended| ensures n.ended[i].job == n.taken[i] && 1 <= n.ended[i].attempts <= 3 {
      assert i < |m.ended| ==> n.ended[i] == m.ended[i];
    }
  }

  lemma EnqueueKeepsInv(m: Manager, job: Job, inLoop: bool)
    requires Inv(m)
    ensures Inv(Enqueue(m, job, inLoop))
  {
  }

  lemma TakeKeepsInv(m: Manager)
    requires Inv(m) && CanTake(m)
    ensures Inv(Take(m))
  {
    assert forall i :: 0 <= i < |m.taken| ==> Take(m).taken[i] == m.taken[i];
  }

  lemma ApplyKeepsInv(m: Manager, st: Step)
    requires Inv(m)
    ensures Inv(Apply(m, st))
  {
    match st
    case StepEnqueue(job, inLoop) => EnqueueKeepsInv(m, job, inLoop);
    case StepStart =>
    case StepTake => if CanTake(m) { TakeKeepsInv(m); }
    case StepFinish(succeeds) =>
      if m.current.Some? {
        RetryBounds(succeeds, 0);
        var r := RetryOutcome(succeeds, 2, 0);
        FinishKeepsInv(m, r.Returned?, r.attempts);
      }
  }

  lemma {:induction false} RunKeepsInv(m: Manager, steps: seq<Step>)
    requires Inv(m)
    ensures Inv(Run(m, steps))
    decreases |steps|
  {
    if steps != [] {
      ApplyKeepsInv(m, steps[0]);
      RunKeepsInv(Apply(m, steps[0]), steps[1..]);
    }
  }

  // The last fifty, or all if there are no more.
  lemma TrimKeepsTheLast(dead: seq<Job>)
    ensures |Trim(dead)| == (if |dead| < 50 then |dead| else 50) && Trim(dead) == dead[|dead| - |Trim(dead)|..]
  {
  }

  /** In every reachable state: the pending count is the number of jobs waiting, at most one job is active,
    and the idle event is set exactly when there is neither; each job taken was tried one to three times and
    has ended once, in the order taken, or is the one running; the dead letters are the last fifty failures. */
  lemma ReachableStates(steps: seq<Step>)
    ensures Inv(Run(NEW, steps))
    ensures var m := Run(NEW, steps);
            var f := Failures(m.ended);
            |m.deadLetter| == (if |f| < 50 then |f| else 50) && m.deadLetter == f[|f| - |m.deadLetter|..]
  {
    RunKeepsInv(NEW, steps);
    TrimKeepsTheLast(Failures(Run(NEW, steps).ended));
  }

  // The jobs that are handed in.
  function Submitted(steps: seq<Step>): seq<Job> {
    if steps == [] then []
    else (if steps[0].StepEnqueue? then [steps[0].job] else []) + Submitted(steps[1..])
  }

  // The jobs taken and those that wait.
  function Known(m: Manager): multiset<Job> { multiset(m.taken) + multiset(m.queue) + multiset(m.preLoop) }

  lemma AttachConserves(m: Manager)
    ensures Known(Attach(m)) == Known(m)
  {
    assert multiset(m.queue + m.preLoop) == multiset(m.queue) + multiset(m.preLoop);
  }

  lemma EnqueueConserves(m: Manager, job: Job, inLoop: bool)
    ensures Known(Enqueue(m, job, inLoop)) == Known(m) + multiset{job}
  {
    var m1 := m.(idle := false, pending := m.pending + 1, enqueued := m.enqueued + [job]);
    AttachConserves(m1);
    assert Known(m1) == Known(m);
    assert multiset(m1.preLoop + [job]) == multiset(m1.preLoop) + multiset{job};
    var m2 := Attach(m1);
    assert multiset(m2.queue + [job]) == multiset(m2.queue) + multiset{job};
  }

  lemma TakeConserves(m: Manager)
    requires CanTake(m)
    ensures Known(Take(m)) == Known(m)
  {
    var job := m.queue[0];
    assert multiset(m.queue) == multiset{job} + multiset(m.queue[1..]) by {
      assert m.queue == [job] + m.queue[1..];
    }
    assert multiset(m.taken + [job]) == multiset(m.taken) + multiset{job};
  }

  lemma StepConserves(m: Manager, st: Step)
    ensures Known(Apply(m, st)) == Known(m) + if st.StepEnqueue? then multiset{st.job} else multiset{}
  {
    match st
    case StepEnqueue(job, inLoop) => EnqueueConserves(m, job, inLoop);
    case StepStart => AttachConserves(m);
    case StepTake => if CanTake(m) { TakeConserves(m); }
    case StepFinish(_) =>
  }

  lemma {:induction false} RunConserves(m: Manager, steps: seq<Step>)
    ensures Known(Run(m, steps)) == Known(m) + multiset(Submitted(steps))
    decreases |steps|
  {
    if steps != [] {
      var first := if steps[0].StepEnqueue? then [steps[0].job] else [];
      StepConserves(m, steps[0]);
      RunConserves(Apply(m, steps[0]), steps[1..]);
      assert multiset(first + Submitted(steps[1..])) == multiset(first) + multiset(Submitted(steps[1..]));
    }
  }

  /** No job is lost or run twice: in every reachable state the jobs handed in are, each as often as it was, those
    taken and those that wait in the queue or in the list. */
  lemma JobsAreConserved(steps: seq<Step>)
    ensures var m := Run(NEW, steps);
            multiset(Submitted(steps)) == multiset(m.taken) + multiset(m.queue) + multiset(m.preLoop)
  {
    RunConserves(NEW, steps);
  }

  // No job arrives from outside the loop once there is a queue.
  predicate InLoopOnceAttached(m: Manager, steps: seq<Step>)
    decreases |steps|
  {
    steps == [] ||
    ((steps[0].StepEnqueue? && !steps[0].inLoop ==> !m.attached) && InLoopOnceAttached(Apply(m, steps[0]), steps[1..]))
  }

  predicate InOrder(m: Manager) {
    && m.enqueued == m.taken + m.queue + m.preLoop
    && (m.attached ==> m.preLoop == [])
  }

  lemma StepInOrder(m: Manager, st: Step)
    requires Inv(m) && InOrder(m) && (st.StepEnqueue? && !st.inLoop ==> !m.attached)
    ensures InOrder(Apply(m, st))
  {
    if st.StepTake? && CanTake(m) {
      assert m.queue == [m.queue[0]] + m.queue[1..];
      assert m.taken + m.queue + m.preLoop == (m.taken + [m.queue[0]]) + m.queue[1..] + m.preLoop;
    }
  }

  /** Then jobs are taken in the order they were accepted, those from before the loop first. */
  lemma {:induction false} JobsRunInOrder(m: Manager, steps: seq<Step>)
    requires Inv(m) && InOrder(m) && InLoopOnceAttached(m, steps)
    ensures InOrder(Run(m, steps)) && Run(m, steps).taken <= Run(m, steps).enqueued
    decreases |steps|
  {
    if steps != [] {
      ApplyKeepsInv(m, steps[0]);
      StepInOrder(m, steps[0]);
      JobsRunInOrder(Apply(m, steps[0]), steps[1..]);
    }
  }

  // A job from outside the loop, once there is a queue, waits in the list for good.
  lemma {:induction false} StrandedStays(m: Manager, steps: seq<Step>)
    requires Inv(m) && m.attached && m.preLoop != []
    ensures m.preLoop <= Run(m, steps).preLoop && !Run(m, steps).idle && Run(m, steps).attached
    decreases |steps|
  {
    if steps != [] {
      ApplyKeepsInv(m, steps[0]);
      StrandedStays(Apply(m, steps[0]), steps[1..]);
    }
  }

  /** Once there is a queue, a job enqueued from outside the loop is in no continuation moved out of the list, so
    it is never taken from there, and the manager is never idle again. */
  lemma OffLoopJobIsStranded(m: Manager, job: Job, steps: seq<Step>)
    requires Inv(m) && m.attached
    ensures var end := Run(Enqueue(m, job, false), steps);
            m.preLoop + [job] <= end.preLoop && !end.idle
  {
    ApplyKeepsInv(m, StepEnqueue(job, false));
    StrandedStays(Enqueue(m, job, false), steps);
  }

  const ALWAYS: nat -> bool := (_: nat) => true

  lemma StepThenRest(m: Manager, st: Step, rest: seq<Step>)
    ensures Run(m, [st] + rest) == Run(Apply(m, st), rest)
  {
    assert ([st] + rest)[1..] == rest;
  }

  // The worker by itself, until nothing is left to take.
  lemma {:induction false} WorkOff(m: Manager) returns (steps: seq<Step>)
    requires Inv(m) && m.attached
    ensures forall i :: 0 <= i < |steps| ==> !steps[i].StepEnqueue?
    ensures Run(m, steps).taken == m.taken + m.queue && Run(m, steps).enqueued == m.enqueued
    ensures m.preLoop == [] ==> Run(m, steps).idle
    decreases 2 * |m.queue| + m.active
  {
    if m.current.None? && m.queue == [] {
      steps := [];
    } else {
      var st := if m.current.Some? then StepFinish(ALWAYS) else StepTake;
      ApplyKeepsInv(m, st);
      var rest := WorkOff(Apply(m, st));
      steps := [st] + rest;
      StepThenRest(m, st, rest);
      assert m.current.None? ==> m.taken + m.queue == (m.taken + [m.queue[0]]) + m.queue[1..];
    }
  }

  predicate AllInLoop(steps: seq<Step>) {
    forall i :: 0 <= i < |steps| ==> steps[i].StepEnqueue? ==> steps[i].inLoop
  }

  // Jobs have been taken in the order they were accepted.
  predicate TakenInOrder(m: Manager) { m.taken <= m.enqueued }

  lemma {:induction false} InLoopStepsStay(m: Manager, steps: seq<Step>)
    requires AllInLoop(steps)
    ensures InLoopOnceAttached(m, steps)
    decreases |steps|
  {
    if steps != [] {
      assert forall i :: 0 <= i < |steps[1..]| ==> steps[1..][i] == steps[i + 1];
      InLoopStepsStay(Apply(m, steps[0]), steps[1..]);
    }
  }

  // A job that comes after a stranded one overtakes it.
  lemma StrandedIsOvertaken(m: Manager) returns (steps: seq<Step>)
    requires Inv(m) && m.attached && m.enqueued == m.taken + m.queue + m.preLoop && m.preLoop != []
    ensures AllInLoop(steps) && !TakenInOrder(Run(m, steps))
  {
    var late := Other(if m.preLoop[0].Other? then m.preLoop[0].name + 1 else 0);
    var st := StepEnqueue(late, true);
    ApplyKeepsInv(m, st);
    var t := Apply(m, st);
    var rest := WorkOff(t);
    steps := [st] + rest;
    StepThenRest(m, st, rest);
    var end := Run(m, steps);
    var n := |m.taken + m.queue|;
    assert end.taken == (m.taken + m.queue) + [late];
    assert end.enqueued == (m.taken + m.queue) + m.preLoop + [late];
    assert end.taken[n] == late && end.enqueued[n] == m.preLoop[0];
  }

  /** Once there is a queue, and jobs come from the loop alone, every continuation keeps to the order in which
    jobs were accepted exactly if no job is stranded in the list. */
  lemma OrderKeptIff(m: Manager)
    requires Inv(m) && m.attached && m.enqueued == m.taken + m.queue + m.preLoop
    ensures (forall steps :: AllInLoop(steps) ==> TakenInOrder(Run(m, steps))) <==> m.preLoop == []
  {
    if m.preLoop == [] {
      forall steps | AllInLoop(steps) ensures TakenInOrder(Run(m, steps)) {
        InLoopStepsStay(m, steps);
        JobsRunInOrder(m, steps);
      }
    } else {
      var steps := StrandedIsOvertaken(m);
    }
  }

  /** Once there is a queue, the manager can become idle again exactly if no job waits in the list for jobs
    without a loop. */
  lemma CanBecomeIdleIff(m: Manager)
    requires Inv(m) && m.attached
    ensures (exists steps :: Run(m, steps).idle) <==> m.preLoop == []
  {
    if m.preLoop == [] {
      var steps := WorkOff(m);
    } else {
      forall steps ensures !Run(m, steps).idle {
        StrandedStays(m, steps);
      }
    }
  }
}
