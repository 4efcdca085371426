/** The idempotency store is a transparent cache of the event table.

  `UncachedRun` is the same protocol with a store that forgets everything after every call. Every run
  of the real protocol, whatever it loses and whenever, ends with the same tables and the same answers
  as some run of the uncached one; and a delivery that runs undisturbed answers from the event table
  alone. */
module PaymentCache {
  import opened PaymentWebhook

  function Erase(s: State): State { s.(cache := map[]) }

  function UncachedRun(s: State, acts: seq<Action>): State
    decreases |acts|
  {
    if acts == [] then s else UncachedRun(Erase(Step(s, acts[0])), acts[1..])
  }

  predicate Hit(s: State, a: Action) {
    a.LookupCache? && a.seen && At(s, a.h, Arrived) && CacheKey(s.handlers[a.h].req.Id()) in s.cache
  }

  // What the uncached protocol does instead: a hit becomes a look at the event table.
  function Translate(s: State, acts: seq<Action>): seq<Action>
    decreases |acts|
  {
    if acts == [] then []
    else
      var a := acts[0];
      (if Hit(s, a) then [LookupCache(a.h, a.seen), LookupTable(a.h), FillCache(a.h)] else [a])
      + Translate(Step(s, a), acts[1..])
  }

  lemma {:induction false} UncachedRunConcat(s: State, a: seq<Action>, b: seq<Action>)
    ensures UncachedRun(s, a + b) == UncachedRun(UncachedRun(s, a), b)
    decreases |a|
  {
    if a == [] {
      assert a + b == b;
    } else {
      assert (a + b)[1..] == a[1..] + b;
      UncachedRunConcat(Erase(Step(s, a[0])), a[1..], b);
    }
  }

  lemma MissSimulates(s: State, a: Action)
    requires !Hit(s, a)
    ensures UncachedRun(Erase(s), [a]) == Erase(Step(s, a))
  {
    assert UncachedRun(Erase(s), [a]) == UncachedRun(Erase(Step(Erase(s), a)), []);
    match a
    case LookupCache(h, seen) =>
    case LookupTable(h) =>
    case Insert(h) => assert h in s.handlers ==> Blocked(s, h) == Blocked(Erase(s), h);
    case _ =>
  }

  lemma HitSimulates(s: State, a: Action)
    requires Inv(s) && Hit(s, a)
    ensures UncachedRun(Erase(s), [LookupCache(a.h, a.seen), LookupTable(a.h), FillCache(a.h)]) == Erase(Step(s, a))
  {
    var h := a.h;
    var x := s.handlers[h];
    assert HandlerOk(s.db, x) && Supported(x.req.provider);
    assert HasEvent(s.db, x.req.Id());
    var s1 := Erase(Step(Erase(s), LookupCache(h, true)));
    var s2 := Erase(Step(s1, LookupTable(h)));
    var s3 := Erase(Step(s2, FillCache(h)));
    assert [LookupCache(h, true), LookupTable(h), FillCache(h)][1..] == [LookupTable(h), FillCache(h)];
    assert UncachedRun(Erase(s), [LookupCache(h, true), LookupTable(h), FillCache(h)])
        == UncachedRun(s1, [LookupTable(h), FillCache(h)]);
    assert [LookupTable(h), FillCache(h)][1..] == [FillCache(h)];
    assert UncachedRun(s1, [LookupTable(h), FillCache(h)]) == UncachedRun(s2, [FillCache(h)]);
    assert UncachedRun(s2, [FillCache(h)]) == UncachedRun(s3, []);
    assert s3.handlers == s.handlers[h := x.(phase := Answered(Duplicate))];
  }

  /** Whatever entries the store loses, and whenever, the tables and every handler's phase and answer are
    those of a run that never had a store. */
  lemma {:induction false} CacheIsTransparent(s: State, acts: seq<Action>)
    requires Inv(s)
    ensures UncachedRun(Erase(s), Translate(s, acts)) == Erase(Run(s, acts))
    decreases |acts|
  {
    if acts != [] {
      var a, t := acts[0], Step(s, acts[0]);
      StepKeepsInv(s, a);
      if Hit(s, a) { HitSimulates(s, a); } else { MissSimulates(s, a); }
      CacheIsTransparent(t, acts[1..]);
      UncachedRunConcat(Erase(s),
        if Hit(s, a) then [LookupCache(a.h, a.seen), LookupTable(a.h), FillCache(a.h)] else [a],
        Translate(t, acts[1..]));
    }
  }

  // The run in which the store loses everything after every call.
  function Forgetful(s: State, acts: seq<Action>): seq<Action>
    decreases |acts|
  {
    if acts == [] then []
    else
      var t := Step(s, acts[0]);
      [acts[0], LoseCache(t.cache.Keys)] + Forgetful(Erase(t), acts[1..])
  }

  /** And conversely: what the protocol can do without a store it can do with one. */
  lemma {:induction false} UncachedRunIsARun(s: State, acts: seq<Action>)
    ensures Run(s, Forgetful(s, acts)) == UncachedRun(s, acts)
    decreases |acts|
  {
    if acts != [] {
      var t := Step(s, acts[0]);
      RunTwo(s, acts[0], LoseCache(t.cache.Keys));
      assert t.cache - t.cache.Keys == map[];
      RunConcat(s, [acts[0], LoseCache(t.cache.Keys)], Forgetful(Erase(t), acts[1..]));
      UncachedRunIsARun(Erase(t), acts[1..]);
    }
  }

  // ---------------------------------------------------------------------------------------------
  // One delivery

  // The calls of one handler in program order, up to its insert and from its insert on; those its branch
  // skips have no effect.
  function ReadCalls(h: nat, seen: bool): seq<Action> { [LookupCache(h, seen), LookupTable(h)] }
  function WriteCalls(h: nat): seq<Action> { [Insert(h), Prepare(h), Commit(h), FillCache(h)] }
  function Solo(h: nat, seen: bool): seq<Action> { ReadCalls(h, seen) + WriteCalls(h) }

  function Reads(s: State, h: nat, seen: bool): State { Step(Step(s, LookupCache(h, seen)), LookupTable(h)) }

  function Writes(s: State, h: nat): State {
    Step(Step(Step(Step(s, Insert(h)), Prepare(h)), Commit(h)), FillCache(h))
  }

  lemma RunIsWrites(s: State, h: nat)
    ensures Run(s, WriteCalls(h)) == Writes(s, h)
  {
    assert WriteCalls(h) == [Insert(h), Prepare(h)] + [Commit(h), FillCache(h)];
    RunConcat(s, [Insert(h), Prepare(h)], [Commit(h), FillCache(h)]);
    RunTwo(s, Insert(h), Prepare(h));
    RunTwo(Step(Step(s, Insert(h)), Prepare(h)), Commit(h), FillCache(h));
  }

  lemma MoveTwice(s: State, h: nat, p: Phase, q: Phase)
    requires h in s.handlers
    ensures Move(Move(s, h, p), h, q) == Move(s, h, q)
    ensures Blocked(Move(s, h, p), h) <==> Blocked(s, h)
  {
    var t := Move(s, h, p);
    assert Move(t, h, q).handlers == Move(s, h, q).handlers;
    assert forall g :: g in s.handlers && g != h ==> t.handlers[g] == s.handlers[g];
  }

  lemma FillMoved(s: State, h: nat, p: Phase, a: Answer)
    requires h in s.handlers
    ensures Fill(Move(s, h, p), h, a) == Fill(s, h, a)
  {
    assert Fill(Move(s, h, p), h, a).handlers == Fill(s, h, a).handlers;
  }

  lemma ReadsEnd(s: State, h: nat, seen: bool)
    requires At(s, h, Arrived)
    ensures var k := s.handlers[h].req.Id();
            Reads(s, h, seen) ==
              if seen && CacheKey(k) in s.cache then Move(s, h, Answered(Duplicate))
              else Move(s, h, if HasEvent(s.db, k) then KnownDuplicate else TableMissed)
  {
    if seen && CacheKey(s.handlers[h].req.Id()) in s.cache {
      assert Step(s, LookupCache(h, seen)) == Move(s, h, Answered(Duplicate));
    } else {
      assert Step(s, LookupCache(h, seen)) == Move(s, h, CacheMissed);
      MoveTwice(s, h, CacheMissed, if HasEvent(s.db, s.handlers[h].req.Id()) then KnownDuplicate else TableMissed);
    }
  }

  lemma WritesAfterAnswer(s: State, h: nat)
    requires At(s, h, Answered(Duplicate)) || At(s, h, KnownDuplicate)
    ensures Writes(s, h) == if At(s, h, KnownDuplicate) then Fill(s, h, Duplicate) else s
  {
    assert Step(s, Insert(h)) == s && Step(s, Prepare(h)) == s && Step(s, Commit(h)) == s;
  }

  lemma WritesAfterInsert(s: State, h: nat)
    requires At(s, h, TableMissed) && !Blocked(s, h) && !HasEvent(s.db, s.handlers[h].req.Id())
    ensures var r := s.handlers[h].req;
            Writes(s, h) == Fill(s.(db := CommitDb(s.db, r, EffectOf(s.db, r))), h, Processed)
  {
    var r := s.handlers[h].req;
    var e := EffectOf(s.db, r);
    var t := s.(db := CommitDb(s.db, r, e));
    assert Step(s, Insert(h)) == Move(s, h, Inserted);
    MoveTwice(s, h, Inserted, Prepared(e));
    assert Step(Move(s, h, Inserted), Prepare(h)) == Move(s, h, Prepared(e));
    MoveTwice(t, h, Prepared(e), Committed);
    assert Step(Move(s, h, Prepared(e)), Commit(h)) == Move(t, h, Committed);
    FillMoved(t, h, Committed, Processed);
  }

  // How a handler ends that nobody disturbs.
  function SoloEnd(s: State, h: nat, seen: bool): State
    requires h in s.handlers
  {
    var r := s.handlers[h].req;
    if seen && CacheKey(r.Id()) in s.cache then Move(s, h, Answered(Duplicate))
    else if HasEvent(s.db, r.Id()) then Fill(s, h, Duplicate)
    else Fill(s.(db := CommitDb(s.db, r, EffectOf(s.db, r))), h, Processed)
  }

  lemma SoloRun(s: State, h: nat, seen: bool)
    requires At(s, h, Arrived) && !Blocked(s, h)
    ensures Run(s, Solo(h, seen)) == SoloEnd(s, h, seen)
  {
    var r, t := s.handlers[h].req, Reads(s, h, seen);
    RunConcat(s, ReadCalls(h, seen), WriteCalls(h));
    RunTwo(s, LookupCache(h, seen), LookupTable(h));
    ReadsEnd(s, h, seen);
    RunIsWrites(t, h);
    if At(t, h, TableMissed) {
      MoveTwice(s, h, TableMissed, TableMissed);
      WritesAfterInsert(t, h);
      var db' := CommitDb(s.db, r, EffectOf(s.db, r));
      assert t.(db := db') == Move(s.(db := db'), h, TableMissed);
      FillMoved(s.(db := db'), h, TableMissed, Processed);
    } else {
      WritesAfterAnswer(t, h);
      FillMoved(s, h, KnownDuplicate, Duplicate);
    }
  }

  /** A delivery that runs to its end while no other holds the same event answers, and changes the tables,
    by the event table alone: whatever happens to be in the store makes no difference. In particular a
    redelivery after a crash finishes, and leaves its event committed. */
  lemma DeliveryAnswersFromTable(s: State, h: nat, seen: bool)
    requires Inv(s) && At(s, h, Arrived) && !Blocked(s, h)
    ensures var r, t := s.handlers[h].req, Run(s, Solo(h, seen));
            if HasEvent(s.db, r.Id()) then At(t, h, Answered(Duplicate)) && t.db == s.db
            else At(t, h, Answered(Processed)) && t.db == CommitDb(s.db, r, EffectOf(s.db, r))
    ensures HasEvent(Run(s, Solo(h, seen)).db, s.handlers[h].req.Id())
  {
    SoloRun(s, h, seen);
    var r := s.handlers[h].req;
    assert HandlerOk(s.db, s.handlers[h]);
    assert CacheKey(r.Id()) in s.cache ==> HasEvent(s.db, r.Id());
    var db' := CommitDb(s.db, r, EffectOf(s.db, r));
    assert db'.events[|s.db.events|].key == r.Id();
  }

  lemma RefusedStays(s: State, h: nat, acts: seq<Action>, a: Answer)
    requires At(s, h, Answered(a)) && forall i :: 0 <= i < |acts| ==> acts[i] in Solo(h, true) + Solo(h, false)
    ensures Run(s, acts) == s
    decreases |acts|
  {
    if acts != [] {
      assert acts[0] in Solo(h, true) + Solo(h, false);
      assert Step(s, acts[0]) == s;
      assert forall i :: 0 <= i < |acts[1..]| ==> acts[1..][i] == acts[i + 1];
      RefusedStays(s, h, acts[1..], a);
    }
  }

  lemma {:induction false} RequestStays(s: State, acts: seq<Action>, h: nat)
    requires h in s.handlers
    ensures h in Run(s, acts).handlers && Run(s, acts).handlers[h].req == s.handlers[h].req
    decreases |acts|
  {
    if acts != [] {
      RequestStays(Step(s, acts[0]), acts[1..], h);
    }
  }

  /** A delivery from its arrival on, undisturbed: without a known provider, an event id and a signature that is
    vouched for it is refused and changes nothing; with them it is processed unless its event is in the table. */
  lemma ArrivalIsServed(s: State, h: nat, r: Request, seen: bool)
    requires Inv(s) && h !in s.handlers
    requires forall g :: g in s.handlers && s.handlers[g].phase.Holds() ==> s.handlers[g].req.Id() != r.Id()
    ensures var t := Run(Step(s, Arrive(h, r)), Solo(h, seen));
            h in t.handlers && t.handlers[h].req == r && t.handlers[h].phase.Answered?
            && var k, answer := Key(r.provider, r.eventId), t.handlers[h].phase.answer;
               var named := (r.provider == "stripe" || r.provider == "paypal") && r.eventId != "";
               if named && r.signature != "" && r.verified
               then answer == (if HasEvent(s.db, k) then Duplicate else Processed) && HasEvent(t.db, k)
               else answer.Refused? && t.db == s.db && t.cache == s.cache
  {
    var s1 := Step(s, Arrive(h, r));
    StepKeepsInv(s, Arrive(h, r));
    if Refuse(r).None? {
      assert !Blocked(s1, h);
      DeliveryAnswersFromTable(s1, h, seen);
      RequestStays(s1, Solo(h, seen), h);
    } else {
      RefusedStays(s1, h, Solo(h, seen), Refused(Refuse(r).value));
    }
  }

  /** A crash between the flush of the event row and its commit loses nothing: the redelivery is processed. */
  lemma RedeliveryAfterCrash(s: State, h: nat, g: nat, seen: bool)
    requires Inv(s) && h in s.handlers && s.handlers[h].phase.Holds()
    requires At(s, g, Arrived) && s.handlers[g].req.Id() == s.handlers[h].req.Id()
    ensures var t, r := Run(Step(s, Crash(h)), Solo(g, seen)), s.handlers[g].req;
            At(Step(s, Crash(h)), h, Crashed)
            && At(t, g, Answered(Processed)) && t.db == CommitDb(s.db, r, EffectOf(s.db, r))
  {
    assert HandlerOk(s.db, s.handlers[h]);
    StepKeepsInv(s, Crash(h));
    DeliveryAnswersFromTable(Step(s, Crash(h)), g, seen);
  }

  /** Losing entries before a delivery, or serving it from a process that never had them, changes neither its
    answer nor its effect on the tables. */
  lemma LossChangesNoAnswer(s: State, h: nat, seen: bool, lost: set<string>, seen': bool)
    requires Inv(s) && At(s, h, Arrived) && !Blocked(s, h)
    ensures Run(s, Solo(h, seen)).db == Run(Step(s, LoseCache(lost)), Solo(h, seen')).db
    ensures forall p :: At(Run(s, Solo(h, seen)), h, p) <==> At(Run(Step(s, LoseCache(lost)), Solo(h, seen')), h, p)
  {
    StepKeepsInv(s, LoseCache(lost));
    var t := Step(s, LoseCache(lost));
    assert Blocked(t, h) == Blocked(s, h);
    DeliveryAnswersFromTable(s, h, seen);
    DeliveryAnswersFromTable(t, h, seen');
  }
}
