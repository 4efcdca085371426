/** What whole runs of the payment protocol do: which commits there were, what each of them wrote, and how the
  calls of one handler fall among those of the others. */
module PaymentRuns {
  import opened Options
  import opened Keys
  import opened PaymentWebhook

  lemma {:induction false} RunSnoc(s: State, acts: seq<Action>, a: Action)
    ensures Run(s, acts + [a]) == Step(Run(s, acts), a)
  {
    RunConcat(s, acts, [a]);
    assert [a][1..] == [];
    assert Run(Run(s, acts), [a]) == Run(Step(Run(s, acts), a), []);
  }

  // ---------------------------------------------------------------------------------------------
  // Commits

  predicate CommitsNow(s: State, a: Action) { a.Commit? && a.h in s.handlers && s.handlers[a.h].phase.Prepared? }

  // The commits of a run that take effect, for one event, and by one handler.
  function CommitsOf(s: State, acts: seq<Action>, k: Key): nat
    decreases |acts|
  {
    if acts == [] then 0
    else
      CommitsOf(Step(s, acts[0]), acts[1..], k)
      + if CommitsNow(s, acts[0]) && s.handlers[acts[0].h].req.Id() == k then 1 else 0
  }

  function CommitsBy(s: State, acts: seq<Action>, h: nat): nat
    decreases |acts|
  {
    if acts == [] then 0
    else CommitsBy(Step(s, acts[0]), acts[1..], h) + if CommitsNow(s, acts[0]) && acts[0].h == h then 1 else 0
  }

  function Recorded(db: Db, k: Key): nat { if HasEvent(db, k) then 1 else 0 }

  lemma CommitRecords(s: State, a: Action, k: Key)
    requires Inv(s)
    ensures Recorded(Step(s, a).db, k)
         == Recorded(s.db, k) + if CommitsNow(s, a) && s.handlers[a.h].req.Id() == k then 1 else 0
  {
    if CommitsNow(s, a) {
      var x := s.handlers[a.h];
      assert HandlerOk(s.db, x);
      CommitDbOk(s.db, x.req, x.phase.effect);
    } else {
      assert Step(s, a).db.events == s.db.events;
      assert HasEvent(Step(s, a).db, k) <==> HasEvent(s.db, k);
    }
  }

  lemma {:induction false} CommitsAddUp(s: State, acts: seq<Action>, k: Key)
    requires Inv(s)
    ensures Recorded(Run(s, acts).db, k) == Recorded(s.db, k) + CommitsOf(s, acts, k)
    decreases |acts|
  {
    if acts != [] {
      CommitRecords(s, acts[0], k);
      StepKeepsInv(s, acts[0]);
      CommitsAddUp(Step(s, acts[0]), acts[1..], k);
    }
  }

  /** Over every interleaving, of any event type: each event in the table was committed by exactly one commit of
    the run, and no other event by any. */
  lemma EachEventCommittedOnce(s: State, acts: seq<Action>, k: Key)
    requires Initial(s)
    ensures CommitsOf(s, acts, k) == if HasEvent(Run(s, acts).db, k) then 1 else 0
  {
    assert forall k :: !HasOrigin(s.db, k) && !Checkout(s.db, k);
    CommitsAddUp(s, acts, k);
  }

  lemma WonStep(s: State, a: Action, h: nat)
    requires h in s.handlers
    ensures h in Step(s, a).handlers && Step(s, a).handlers[h].req == s.handlers[h].req
    ensures Step(s, a).handlers[h].phase.Won() ==> s.handlers[h].phase.Won() || (CommitsNow(s, a) && a.h == h)
    ensures s.handlers[h].phase.Won() || (CommitsNow(s, a) && a.h == h) ==>
      Step(s, a).handlers[h].phase.Won() || Step(s, a).handlers[h].phase.Crashed?
    ensures s.handlers[h].phase.Crashed? ==> Step(s, a).handlers[h].phase.Crashed? && !(CommitsNow(s, a) && a.h == h)
  {
  }

  lemma {:induction false} CrashedStays(s: State, acts: seq<Action>, h: nat)
    requires At(s, h, Crashed)
    ensures At(Run(s, acts), h, Crashed)
    decreases |acts|
  {
    if acts != [] {
      WonStep(s, acts[0], h);
      CrashedStays(Step(s, acts[0]), acts[1..], h);
    }
  }

  lemma {:induction false} WonIff(s: State, acts: seq<Action>, h: nat)
    requires h in s.handlers
    ensures h in Run(s, acts).handlers && Run(s, acts).handlers[h].req == s.handlers[h].req
    ensures !Run(s, acts).handlers[h].phase.Crashed? ==>
      (Run(s, acts).handlers[h].phase.Won() <==> s.handlers[h].phase.Won() || CommitsBy(s, acts, h) > 0)
    decreases |acts|
  {
    if acts != [] {
      WonStep(s, acts[0], h);
      var t := Step(s, acts[0]);
      WonIff(t, acts[1..], h);
      if t.handlers[h].phase.Crashed? {
        CrashedStays(t, acts[1..], h);
      }
    }
  }

  lemma {:induction false} NeverRefused(s: State, acts: seq<Action>, h: nat)
    requires h in s.handlers && !(s.handlers[h].phase.Answered? && s.handlers[h].phase.answer.Refused?)
    ensures h in Run(s, acts).handlers
    ensures !(Run(s, acts).handlers[h].phase.Answered? && Run(s, acts).handlers[h].phase.answer.Refused?)
    decreases |acts|
  {
    if acts != [] {
      NeverRefused(Step(s, acts[0]), acts[1..], h);
    }
  }

  /** A handler that answers, in any run: `processed` exactly if one of its own commits took effect, and
    `duplicate` otherwise, in which case another handler's did. */
  lemma AnswerTellsWhoCommitted(s: State, acts: seq<Action>, h: nat)
    requires Inv(s) && At(s, h, Arrived) && h in Run(s, acts).handlers && Run(s, acts).handlers[h].phase.Answered?
    ensures var t := Run(s, acts);
            && t.handlers[h].req == s.handlers[h].req
            && (t.handlers[h].phase.answer == Processed <==> CommitsBy(s, acts, h) > 0)
            && (t.handlers[h].phase.answer != Processed ==> t.handlers[h].phase.answer == Duplicate)
            && HasEvent(t.db, s.handlers[h].req.Id())
  {
    WonIff(s, acts, h);
    RunKeepsInv(s, acts);
    assert HandlerOk(s.db, s.handlers[h]);
    var t := Run(s, acts);
    assert HandlerOk(t.db, t.handlers[h]);
    NeverRefused(s, acts, h);
  }

  // ---------------------------------------------------------------------------------------------
  // Who gets in

  // A request that passes the checks: a known provider, an event id, and a signature the provider vouches for.
  predicate Genuine(r: Request) {
    && (r.provider == "stripe" || r.provider == "paypal")
    && r.eventId != "" && r.signature != "" && r.verified
  }

  // A handler is refused from the start, for the first field that fails, or never.
  predicate Judged(x: Handler) {
    var r := x.req;
    var named := r.provider == "stripe" || r.provider == "paypal";
    && (x.phase == Answered(Refused(UnsupportedProvider)) <==> !named)
    && (x.phase == Answered(Refused(InvalidEventId)) <==> named && r.eventId == "")
    && (x.phase == Answered(Refused(InvalidSignature)) <==>
          named && r.eventId != "" && (r.signature == "" || !r.verified))
  }

  lemma JudgedMeans(x: Handler)
    requires Judged(x)
    ensures x.phase.Answered? && x.phase.answer.Refused? <==> !Genuine(x.req)
  {
    if x.phase.Answered? && x.phase.answer.Refused? {
      match x.phase.answer.why
      case UnsupportedProvider => assert x.phase == Answered(Refused(UnsupportedProvider));
      case InvalidEventId => assert x.phase == Answered(Refused(InvalidEventId));
      case InvalidSignature => assert x.phase == Answered(Refused(InvalidSignature));
    }
  }

  // A genuine request of this run is behind the event.
  predicate HasSource(s: State, row: EventRow) {
    exists h :: h in s.handlers && Genuine(s.handlers[h].req)
      && row == EventRow(Key(s.handlers[h].req.provider, s.handlers[h].req.eventId), s.handlers[h].req.eventType)
  }

  // A genuine request to complete a checkout is behind the subscription.
  predicate HasBuyer(s: State, x: Subscription) {
    exists h :: h in s.handlers && Genuine(s.handlers[h].req)
      && s.handlers[h].req.eventType == "checkout.session.completed" && s.handlers[h].req.userId == x.userId
      && x.origin == Some(Key(s.handlers[h].req.provider, s.handlers[h].req.eventId))
  }

  predicate EffectFits(x: Handler) {
    x.phase.Prepared? && x.phase.effect.NewSubscription? ==>
      x.req.eventType == "checkout.session.completed" && x.phase.effect.userId == x.req.userId
  }

  predicate Sourced(s: State) {
    && (forall h :: h in s.handlers ==> Judged(s.handlers[h]) && EffectFits(s.handlers[h]))
    && (forall i :: 0 <= i < |s.db.events| ==> HasSource(s, s.db.events[i]))
    && (forall i :: 0 <= i < |s.db.subs| && s.db.subs[i].origin.Some? ==> HasBuyer(s, s.db.subs[i]))
  }

  // Requests stay, so what is behind a row stays.
  lemma SourcesStay(s: State, a: Action)
    ensures forall h :: h in s.handlers ==> h in Step(s, a).handlers && Step(s, a).handlers[h].req == s.handlers[h].req
    ensures forall row :: HasSource(s, row) ==> HasSource(Step(s, a), row)
    ensures forall x :: HasBuyer(s, x) ==> HasBuyer(Step(s, a), x)
  {
    var t := Step(s, a);
    assert forall h :: h in s.handlers ==> h in t.handlers && t.handlers[h].req == s.handlers[h].req;
    forall row | HasSource(s, row) ensures HasSource(t, row) {
      var h :| h in s.handlers && Genuine(s.handlers[h].req)
        && row == EventRow(Key(s.handlers[h].req.provider, s.handlers[h].req.eventId), s.handlers[h].req.eventType);
      assert t.handlers[h].req == s.handlers[h].req;
    }
    forall x | HasBuyer(s, x) ensures HasBuyer(t, x) {
      var h :| h in s.handlers && Genuine(s.handlers[h].req)
        && s.handlers[h].req.eventType == "checkout.session.completed" && s.handlers[h].req.userId == x.userId
        && x.origin == Some(Key(s.handlers[h].req.provider, s.handlers[h].req.eventId));
      assert t.handlers[h].req == s.handlers[h].req;
    }
  }

  lemma HandlersStayJudged(s: State, a: Action)
    requires forall h :: h in s.handlers ==> Judged(s.handlers[h]) && EffectFits(s.handlers[h])
    ensures forall h :: h in Step(s, a).handlers ==>
              Judged(Step(s, a).handlers[h]) && EffectFits(Step(s, a).handlers[h])
  {
    var t := Step(s, a);
    forall h | h in t.handlers ensures Judged(t.handlers[h]) && EffectFits(t.handlers[h]) {
      if h in s.handlers {
        assert Judged(s.handlers[h]) && EffectFits(s.handlers[h]);
      }
    }
  }

  lemma RowsStaySourced(s: State, a: Action)
    requires Sourced(s)
    ensures forall i :: 0 <= i < |Step(s, a).db.events| ==> HasSource(Step(s, a), Step(s, a).db.events[i])
  {
    SourcesStay(s, a);
    var t := Step(s, a);
    forall i | 0 <= i < |t.db.events| ensures HasSource(t, t.db.events[i]) {
      if i < |s.db.events| {
        assert t.db.events[i] == s.db.events[i];
      } else {
        assert Judged(s.handlers[a.h]) && Genuine(t.handlers[a.h].req);
      }
    }
  }

  lemma BuyersStay(s: State, a: Action)
    requires Sourced(s)
    ensures forall i :: 0 <= i < |Step(s, a).db.subs| && Step(s, a).db.subs[i].origin.Some? ==>
              HasBuyer(Step(s, a), Step(s, a).db.subs[i])
  {
    SourcesStay(s, a);
    var t := Step(s, a);
    forall i | 0 <= i < |t.db.subs| && t.db.subs[i].origin.Some? ensures HasBuyer(t, t.db.subs[i]) {
      if i < |s.db.subs| {
        assert t.db.subs[i].origin == s.db.subs[i].origin && t.db.subs[i].userId == s.db.subs[i].userId;
        assert HasBuyer(s, s.db.subs[i]);
        assert HasBuyer(s, t.db.subs[i]);
      } else {
        assert Judged(s.handlers[a.h]) && EffectFits(s.handlers[a.h]) && Genuine(t.handlers[a.h].req);
      }
    }
  }

  lemma {:induction false} RunStaysSourced(s: State, acts: seq<Action>)
    requires Sourced(s)
    ensures Sourced(Run(s, acts))
    decreases |acts|
  {
    if acts != [] {
      HandlersStayJudged(s, acts[0]);
      RowsStaySourced(s, acts[0]);
      BuyersStay(s, acts[0]);
      RunStaysSourced(Step(s, acts[0]), acts[1..]);
    }
  }

  /** Over every run: a request is refused exactly if its provider is unknown, its event id or signature missing or
    the signature not vouched for, with that reason, and then from the start and for good; behind every row of
    the event table is a request that passed, with the row's provider, event id and type; and behind every
    subscription the handler made, one to complete a checkout for that user. */
  lemma OnlyGenuineRequestsAct(s: State, acts: seq<Action>)
    requires Initial(s)
    ensures forall h :: h in Run(s, acts).handlers ==>
      var x := Run(s, acts).handlers[h];
      && (x.phase.Answered? && x.phase.answer.Refused? <==> !Genuine(x.req))
      && Judged(x)
    ensures forall i :: 0 <= i < |Run(s, acts).db.events| ==> HasSource(Run(s, acts), Run(s, acts).db.events[i])
    ensures forall i :: 0 <= i < |Run(s, acts).db.subs| && Run(s, acts).db.subs[i].origin.Some? ==>
              HasBuyer(Run(s, acts), Run(s, acts).db.subs[i])
  {
    RunStaysSourced(s, acts);
    forall h | h in Run(s, acts).handlers {
      JudgedMeans(Run(s, acts).handlers[h]);
    }
  }

  // ---------------------------------------------------------------------------------------------
  // What a commit writes

  // From its `Prepare` on, an open transaction keeps the effect it chose then.
  predicate Chose(x: Handler, e: Effect) {
    x.phase == Prepared(e) || x.phase.Committed? || x.phase.Answered? || x.phase.Crashed?
  }

  lemma {:induction false} ChoiceStays(s: State, acts: seq<Action>, h: nat, e: Effect)
    requires h in s.handlers && Chose(s.handlers[h], e)
    ensures h in Run(s, acts).handlers && Chose(Run(s, acts).handlers[h], e)
    ensures Run(s, acts).handlers[h].req == s.handlers[h].req
    decreases |acts|
  {
    if acts != [] {
      assert Chose(Step(s, acts[0]).handlers[h], e);
      ChoiceStays(Step(s, acts[0]), acts[1..], h, e);
    }
  }

  // Subscriptions are added at the end, and keep their place and id.
  lemma {:induction false} RowsKeepPlaces(s: State, acts: seq<Action>)
    ensures |s.db.subs| <= |Run(s, acts).db.subs|
    ensures forall i :: 0 <= i < |s.db.subs| ==> Run(s, acts).db.subs[i].id == s.db.subs[i].id
    decreases |acts|
  {
    if acts != [] {
      var t := Step(s, acts[0]);
      assert |s.db.subs| <= |t.db.subs| && forall i :: 0 <= i < |s.db.subs| ==> t.db.subs[i].id == s.db.subs[i].id;
      RowsKeepPlaces(t, acts[1..]);
    }
  }

  // The row a failed payment is about: the one it names if there is one, else the user's youngest for the plan.
  predicate IsTarget(subs: seq<Subscription>, r: Request, i: int)
    requires 0 <= i < |subs|
  {
    if r.subscriptionId != 0 && exists j :: 0 <= j < |subs| && subs[j].id == r.subscriptionId
    then subs[i].id == r.subscriptionId
    else
      && subs[i].userId == r.userId && subs[i].planId == r.planId
      && forall j :: i < j < |subs| ==> !(subs[j].userId == r.userId && subs[j].planId == r.planId)
  }

  // The row that will be written: the target, unless it was past due already.
  predicate IsMarked(subs: seq<Subscription>, r: Request, i: int)
    requires 0 <= i < |subs|
  {
    IsTarget(subs, r, i) && subs[i].status != "past_due"
  }

  lemma TargetIsChosen(db: Db, r: Request, i: int)
    requires DistinctIds(db.subs) && r.eventType == PAYMENT_FAILED && 0 <= i < |db.subs|
    ensures IsMarked(db.subs, r, i) <==> EffectOf(db, r) == MarkPastDue(db.subs[i].id)
  {
    assert forall j :: 0 <= j < |db.subs| ==>
      (Matches(db.subs[j], r.userId, r.planId) <==> db.subs[j].userId == r.userId && db.subs[j].planId == r.planId);
  }

  lemma ChosenIsThere(db: Db, r: Request)
    requires EffectOf(db, r).MarkPastDue?
    ensures exists i :: 0 <= i < |db.subs| && db.subs[i].id == EffectOf(db, r).id
  {
  }

  lemma MarksChosen(chosenIn: Db, db: Db, r: Request, i: int)
    requires DistinctIds(chosenIn.subs) && DistinctIds(db.subs) && r.eventType == PAYMENT_FAILED
    requires |chosenIn.subs| <= |db.subs|
    requires forall j :: 0 <= j < |chosenIn.subs| ==> db.subs[j].id == chosenIn.subs[j].id
    requires 0 <= i < |db.subs|
    ensures |CommitDb(db, r, EffectOf(chosenIn, r)).subs| == |db.subs|
    ensures CommitDb(db, r, EffectOf(chosenIn, r)).subs[i]
         == if i < |chosenIn.subs| && IsMarked(chosenIn.subs, r, i) then db.subs[i].(status := "past_due")
            else db.subs[i]
  {
    if i < |chosenIn.subs| {
      TargetIsChosen(chosenIn, r, i);
    } else if EffectOf(chosenIn, r).MarkPastDue? {
      ChosenIsThere(chosenIn, r);
      var j :| 0 <= j < |chosenIn.subs| && chosenIn.subs[j].id == EffectOf(chosenIn, r).id;
      assert db.subs[j].id != db.subs[i].id;
    }
  }

  /** What a commit writes, whatever others committed between the handler's choice and its commit: its event row;
    for a completed checkout one more active row, for the payload's user and plan; for a failed payment, past
    due on the row that was its target when the handler looked, unless that row was past due already, and on no
    other, younger ones included; for any other event no change of a subscription. */
  lemma CommittedEffect(s: State, h: nat, between: seq<Action>)
    requires DistinctIds(s.db.subs) && At(s, h, Inserted)
    requires CommitsNow(Run(Step(s, Prepare(h)), between), Commit(h))
    ensures var r, t := s.handlers[h].req, Run(Step(s, Prepare(h)), between);
            var before, after := t.db.subs, Step(t, Commit(h)).db.subs;
      && Step(t, Commit(h)).db.events == t.db.events + [EventRow(Key(r.provider, r.eventId), r.eventType)]
      && (r.eventType == "checkout.session.completed" ==>
            after == before + [Subscription(NextId(Ids(before)), r.userId, r.planId, "active", r.provider,
                                            Some(Key(r.provider, r.eventId)))])
      && (r.eventType == "invoice.payment_failed" ==>
            && |s.db.subs| <= |before| == |after|
            && forall i :: 0 <= i < |before| ==>
                 after[i] == if i < |s.db.subs| && IsMarked(s.db.subs, r, i) then before[i].(status := "past_due")
                             else before[i])
      && (r.eventType != "checkout.session.completed" && r.eventType != "invoice.payment_failed" ==> after == before)
  {
    var r, s1 := s.handlers[h].req, Step(s, Prepare(h));
    var t := Run(s1, between);
    ChoiceStays(s1, between, h, EffectOf(s.db, r));
    assert t.handlers[h].phase == Prepared(EffectOf(s.db, r));
    if r.eventType == PAYMENT_FAILED {
      RowsKeepPlaces(s1, between);
      IdsStayDistinct(s1, between);
      var after := Step(t, Commit(h)).db.subs;
      assert |after| == |t.db.subs|;
      forall i | 0 <= i < |t.db.subs|
        ensures after[i] == if i < |s.db.subs| && IsMarked(s.db.subs, r, i) then t.db.subs[i].(status := "past_due")
                            else t.db.subs[i]
      {
        MarksChosen(s.db, t.db, r, i);
      }
    }
  }

  lemma LastOfRest<T>(s: seq<T>, k: nat)
    requires k < |s|
    ensures s[k..] == s[..|s| - 1][k..] + [s[|s| - 1]]
  {
    assert |s[k..]| == |s[..|s| - 1][k..]| + 1;
  }

  lemma OnlyPreparePrepares(s: State, a: Action, h: nat)
    requires !CommitsNow(s, Commit(h)) && CommitsNow(Step(s, a), Commit(h))
    ensures a == Prepare(h) && At(s, h, Inserted)
  {
  }

  /** And every commit of every run is one of these: it has its `Prepare`, made by the same handler when its row
    was inserted. */
  lemma {:induction false} EachCommitHasItsChoice(s: State, acts: seq<Action>, h: nat) returns (n: nat)
    requires s.handlers == map[] && CommitsNow(Run(s, acts), Commit(h))
    ensures n < |acts| && acts[n] == Prepare(h) && At(Run(s, acts[..n]), h, Inserted)
    ensures Run(s, acts) == Run(Step(Run(s, acts[..n]), Prepare(h)), acts[n + 1..])
    decreases |acts|
  {
    var m := |acts| - 1;
    var init, a := acts[..m], acts[m];
    var t := Run(s, init);
    assert Run(s, acts) == Step(t, a) by {
      assert acts == init + [a];
      RunSnoc(s, init, a);
    }
    if CommitsNow(t, Commit(h)) {
      n := EachCommitHasItsChoice(s, init, h);
      assert acts[..n] == init[..n];
      var chosen := Step(Run(s, acts[..n]), Prepare(h));
      assert Run(chosen, acts[n + 1..]) == Step(t, a) by {
        LastOfRest(acts, n + 1);
        RunSnoc(chosen, init[n + 1..], a);
      }
    } else {
      n := m;
      OnlyPreparePrepares(t, a, h);
      assert acts[n + 1..] == [];
    }
  }

  // ---------------------------------------------------------------------------------------------
  // One handler among the others

  // Actions of other handlers, of the stores, and of everybody else who writes subscriptions.
  predicate Avoids(acts: seq<Action>, h: nat) {
    forall i :: 0 <= i < |acts| ==>
      acts[i].LoseCache? || acts[i].AddSubscription? || acts[i].SetSubscription? || acts[i].h != h
  }

  lemma {:induction false} OthersLeave(s: State, acts: seq<Action>, h: nat)
    requires h in s.handlers && Avoids(acts, h)
    ensures h in Run(s, acts).handlers && Run(s, acts).handlers[h] == s.handlers[h]
    decreases |acts|
  {
    if acts != [] {
      assert acts[0].LoseCache? || acts[0].AddSubscription? || acts[0].SetSubscription? || acts[0].h != h;
      assert forall i :: 0 <= i < |acts[1..]| ==> acts[1..][i] == acts[i + 1];
      OthersLeave(Step(s, acts[0]), acts[1..], h);
    }
  }

  // The call a handler makes next.
  function NextCall(p: Phase, h: nat): Action {
    match p
    case Arrived => LookupCache(h, true)
    case CacheMissed => LookupTable(h)
    case TableMissed => Insert(h)
    case Inserted => Prepare(h)
    case Prepared(_) => Commit(h)
    case _ => FillCache(h)
  }

  predicate Returned(s: State, h: nat) { h in s.handlers && s.handlers[h].phase.Answered? }

  // The calls of a handler up to its answer, the n-th followed by `gaps[n]`, which others do meanwhile.
  function Serving(s: State, h: nat, gaps: seq<seq<Action>>): seq<Action>
    requires h in s.handlers
    decreases |gaps|
  {
    var a := NextCall(s.handlers[h].phase, h);
    var t := Step(s, a);
    if Returned(t, h) || gaps == [] then [a]
    else
      var u := Run(t, gaps[0]);
      [a] + gaps[0] + if h in u.handlers then Serving(u, h, gaps[1..]) else []
  }

  // The state in which the handler returns.
  function Served(s: State, h: nat, gaps: seq<seq<Action>>): State
    requires h in s.handlers
  {
    Run(s, Serving(s, h, gaps))
  }

  lemma ServedNow(s: State, h: nat, gaps: seq<seq<Action>>)
    requires h in s.handlers && (Returned(Step(s, NextCall(s.handlers[h].phase, h)), h) || gaps == [])
    ensures Served(s, h, gaps) == Step(s, NextCall(s.handlers[h].phase, h))
  {
    var a := NextCall(s.handlers[h].phase, h);
    assert [a][1..] == [];
    assert Run(s, [a]) == Run(Step(s, a), []);
  }

  lemma ServedLater(s: State, h: nat, gaps: seq<seq<Action>>)
    requires h in s.handlers && gaps != [] && Avoids(gaps[0], h)
    requires !Returned(Step(s, NextCall(s.handlers[h].phase, h)), h)
    ensures var t := Step(s, NextCall(s.handlers[h].phase, h));
            && h in t.handlers && h in Run(t, gaps[0]).handlers
            && Run(t, gaps[0]).handlers[h] == t.handlers[h]
            && Served(s, h, gaps) == Served(Run(t, gaps[0]), h, gaps[1..])
  {
    var a := NextCall(s.handlers[h].phase, h);
    var t := Step(s, a);
    OthersLeave(t, gaps[0], h);
    var u := Run(t, gaps[0]);
    var rest := Serving(u, h, gaps[1..]);
    assert Serving(s, h, gaps) == [a] + gaps[0] + rest;
    assert [a] + gaps[0] + rest == [a] + (gaps[0] + rest);
    assert ([a] + (gaps[0] + rest))[1..] == gaps[0] + rest;
    RunConcat(t, gaps[0], rest);
  }

  lemma {:induction false} AnswerStays(s: State, acts: seq<Action>, h: nat, a: Answer)
    requires At(s, h, Answered(a))
    ensures At(Run(s, acts), h, Answered(a))
    decreases |acts|
  {
    if acts != [] {
      AnswerStays(Step(s, acts[0]), acts[1..], h, a);
    }
  }

  predicate AnsweredFor(s: State, g: nat, k: Key) {
    At(s, g, Answered(Processed)) && s.handlers[g].req.Id() == k
  }

  /** A handler served among others, in any reachable state and whatever the others do meanwhile, answers
    `processed` only if no other delivery of its event is so answered, then or ever; and when it has returned
    its event is in the table, with exactly the subscriptions it should have. */
  lemma ServedExactlyOnce(
    s: State, before: seq<Action>, h: nat, gaps: seq<seq<Action>>, later: seq<Action>, g: nat)
    requires Initial(s) && At(Run(s, before), h, Arrived) && Returned(Served(Run(s, before), h, gaps), h)
    ensures var start := Run(s, before);
            var k, end := start.handlers[h].req.Id(), Served(start, h, gaps);
            && HasEvent(end.db, k) && CommitsOf(s, before + Serving(start, h, gaps), k) == 1
            && CountOrigin(end.db.subs, k) == (if Checkout(end.db, k) then 1 else 0)
            && (At(end, h, Answered(Processed)) && AnsweredFor(Run(end, later), g, k) ==> g == h)
  {
    var start := Run(s, before);
    var calls := Serving(start, h, gaps);
    var k, end := start.handlers[h].req.Id(), Served(start, h, gaps);
    RunConcat(s, before, calls);
    ReachableInv(s, before);
    AnswerTellsWhoCommitted(start, calls, h);
    EachEventCommittedOnce(s, before + calls, k);
    EffectExactlyOnce(s, before + calls, k);
    RunConcat(s, before + calls, later);
    if At(end, h, Answered(Processed)) && AnsweredFor(Run(end, later), g, k) {
      AnswerStays(end, later, h, Processed);
      WonIff(end, later, h);
      AtMostOneProcessed(s, before + calls + later, g, h);
    }
  }
}
