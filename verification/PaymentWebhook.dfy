/** The payment-webhook handler as a concurrent protocol.

  Any number of handlers interleave. Each `Action` is one database or cache call of the handler, so a
  run is a list of actions, and an action whose guard is false leaves the state alone (a handler that
  waits, or one that has already finished). A handler may crash before every one of its calls; a crash
  rolls its transaction back.

  What is assumed of the database: a unique insert waits while another transaction holds the same key
  uncommitted, and conflicts with a committed row only; a commit is atomic; an exception rolls back.
  That the committed table really has no two rows for one key is proved from this, not assumed. */
module PaymentWebhook {
  import opened Options
  import opened Keys

  datatype Key = Key(provider: string, eventId: string)

  // The text under which the idempotency store remembers an event.
  function CacheKey(k: Key): string { k.provider + ":" + k.eventId }

  predicate Supported(provider: string) { provider == "stripe" || provider == "paypal" }

  // `verified` is what the provider's adapter answers about the signature.
  datatype Request = Request(
    provider: string, eventId: string, eventType: string, signature: string, verified: bool,
    userId: int, planId: int, subscriptionId: int)
  {
    function Id(): Key { Key(provider, eventId) }
  }

  datatype Refusal = UnsupportedProvider | InvalidEventId | InvalidSignature

  // The checks made before the handler touches any store, in the order the handler makes them.
  function Refuse(r: Request): Option<Refusal> {
    if !Supported(r.provider) then Some(UnsupportedProvider)
    else if r.eventId == "" then Some(InvalidEventId)
    else if r.signature == "" then Some(InvalidSignature)
    else if !r.verified then Some(InvalidSignature)
    else None
  }

  datatype EventRow = EventRow(key: Key, eventType: string)

  // `origin` is a history field: the event whose handler created the row, or None for other creators.
  datatype Subscription = Subscription(
    id: int, userId: int, planId: int, status: string, provider: string, origin: Option<Key>)

  datatype Db = Db(events: seq<EventRow>, subs: seq<Subscription>)

  const CHECKOUT := "checkout.session.completed"
  const PAYMENT_FAILED := "invoice.payment_failed"

  // What the open transaction of a handler will write besides its event row.
  datatype Effect = NoEffect | NewSubscription(userId: int, planId: int) | MarkPastDue(id: int)

  datatype Answer = Refused(why: Refusal) | Duplicate | Processed

  datatype Phase =
    | Arrived                 // before the idempotency store is read
    | CacheMissed             // before the event table is read
    | TableMissed             // before the event row is flushed
    | KnownDuplicate          // before the idempotency store is filled, with the answer `Duplicate`
    | Inserted                // row flushed, transaction open
    | Prepared(effect: Effect) // effect buffered, transaction open
    | Committed               // before the idempotency store is filled, with the answer `Processed`
    | Answered(answer: Answer)
    | Crashed
  {
    // The handler's transaction holds an uncommitted event row.
    predicate Holds() { Inserted? || Prepared? }
    // The handler has applied its event.
    predicate Won() { Committed? || this == Answered(Processed) }
  }

  datatype Handler = Handler(req: Request, phase: Phase)

  // `cache` is what the idempotency stores of all processes hold together.
  datatype State = State(db: Db, cache: map<string, Key>, handlers: map<nat, Handler>)

  datatype Action =
    | Arrive(h: nat, req: Request)
    | LookupCache(h: nat, seen: bool)   // `seen`: the entry, if any, is in the store of the handler's process
    | LookupTable(h: nat)
    | Insert(h: nat)
    | Prepare(h: nat)
    | Commit(h: nat)
    | FillCache(h: nat)
    | Crash(h: nat)
    | LoseCache(lost: set<string>)      // expiry, restart
    | AddSubscription(userId: int, planId: int, status: string, provider: string) // every other creator
    | SetSubscription(id: int, planId: int, status: string)         // cancel, plan change, trial expiry

  // ---------------------------------------------------------------------------------------------
  // Database operations

  predicate HasEvent(db: Db, k: Key) { exists i :: 0 <= i < |db.events| && db.events[i].key == k }

  // db.get(Subscription, id)
  function FindById(subs: seq<Subscription>, id: int): Option<int> {
    if exists i :: 0 <= i < |subs| && subs[i].id == id then Some(id) else None
  }

  predicate Matches(x: Subscription, userId: int, planId: int) { x.userId == userId && x.planId == planId }

  predicate IsLatest(subs: seq<Subscription>, i: int, userId: int, planId: int)
    requires 0 <= i < |subs|
  {
    Matches(subs[i], userId, planId) && forall j :: i < j < |subs| ==> !Matches(subs[j], userId, planId)
  }

  // The youngest subscription of this user to this plan.
  function FindLatest(subs: seq<Subscription>, userId: int, planId: int): (r: Option<int>)
    ensures r.None? ==> forall i :: 0 <= i < |subs| ==> !Matches(subs[i], userId, planId)
    ensures r.Some? ==> exists i :: 0 <= i < |subs| && subs[i].id == r.value && IsLatest(subs, i, userId, planId)
  {
    if subs == [] then None
    else
      var last := subs[|subs| - 1];
      if Matches(last, userId, planId) then Some(last.id)
      else FindLatest(subs[..|subs| - 1], userId, planId)
  }

  predicate PastDue(subs: seq<Subscription>, id: int) {
    exists i :: 0 <= i < |subs| && subs[i].id == id && subs[i].status == "past_due"
  }

  // Assigning a loaded row the status it already has issues no update.
  function EffectOf(db: Db, r: Request): Effect {
    if r.eventType == CHECKOUT then NewSubscription(r.userId, r.planId)
    else if r.eventType == PAYMENT_FAILED then
      var byId := if r.subscriptionId != 0 then FindById(db.subs, r.subscriptionId) else None;
      var found := if byId.Some? then byId else FindLatest(db.subs, r.userId, r.planId);
      if found.Some? && !PastDue(db.subs, found.value) then MarkPastDue(found.value) else NoEffect
    else NoEffect
  }

  function UpdateSub(subs: seq<Subscription>, id: int, f: Subscription -> Subscription): (r: seq<Subscription>)
    ensures |r| == |subs|
    ensures forall i :: 0 <= i < |subs| ==> r[i] == if subs[i].id == id then f(subs[i]) else subs[i]
  {
    seq(|subs|, i requires 0 <= i < |subs| => if subs[i].id == id then f(subs[i]) else subs[i])
  }

  function Ids(subs: seq<Subscription>): seq<int> { seq(|subs|, i requires 0 <= i < |subs| => subs[i].id) }

  function AppendSub(subs: seq<Subscription>, userId: int, planId: int, status: string, provider: string,
                     origin: Option<Key>): seq<Subscription>
  {
    subs + [Subscription(NextId(Ids(subs)), userId, planId, status, provider, origin)]
  }

  function CommitDb(db: Db, r: Request, e: Effect): Db {
    var events := db.events + [EventRow(r.Id(), r.eventType)];
    match e
    case NoEffect => Db(events, db.subs)
    case NewSubscription(u, p) => Db(events, AppendSub(db.subs, u, p, "active", r.provider, Some(r.Id())))
    case MarkPastDue(id) => Db(events, UpdateSub(db.subs, id, (s: Subscription) => s.(status := "past_due")))
  }

  // ---------------------------------------------------------------------------------------------
  // The machine

  predicate At(s: State, h: nat, p: Phase) { h in s.handlers && s.handlers[h].phase == p }

  // Another transaction holds the key uncommitted: the insert of `h` waits for it.
  predicate Blocked(s: State, h: nat)
    requires h in s.handlers
  {
    exists g :: g in s.handlers && g != h
      && s.handlers[g].phase.Holds() && s.handlers[g].req.Id() == s.handlers[h].req.Id()
  }

  function Move(s: State, h: nat, p: Phase): State
    requires h in s.handlers
  {
    s.(handlers := s.handlers[h := s.handlers[h].(phase := p)])
  }

  function Fill(s: State, h: nat, a: Answer): State
    requires h in s.handlers
  {
    var k := s.handlers[h].req.Id();
    Move(s.(cache := s.cache[CacheKey(k) := k]), h, Answered(a))
  }

  function Step(s: State, a: Action): State {
    match a
    case Arrive(h, req) =>
      if h in s.handlers then s
      else
        var phase := if Refuse(req).Some? then Answered(Refused(Refuse(req).value)) else Arrived;
        s.(handlers := s.handlers[h := Handler(req, phase)])
    case LookupCache(h, seen) =>
      if !At(s, h, Arrived) then s
      else if seen && CacheKey(s.handlers[h].req.Id()) in s.cache then Move(s, h, Answered(Duplicate))
      else Move(s, h, CacheMissed)
    case LookupTable(h) =>
      if !At(s, h, CacheMissed) then s
      else if HasEvent(s.db, s.handlers[h].req.Id()) then Move(s, h, KnownDuplicate)
      else Move(s, h, TableMissed)
    case Insert(h) =>
      if !At(s, h, TableMissed) || Blocked(s, h) then s
      else if HasEvent(s.db, s.handlers[h].req.Id()) then Move(s, h, KnownDuplicate)
      else Move(s, h, Inserted)
    case Prepare(h) =>
      if !At(s, h, Inserted) then s
      else Move(s, h, Prepared(EffectOf(s.db, s.handlers[h].req)))
    case Commit(h) =>
      if h !in s.handlers || !s.handlers[h].phase.Prepared? then s
      else Move(s.(db := CommitDb(s.db, s.handlers[h].req, s.handlers[h].phase.effect)), h, Committed)
    case FillCache(h) =>
      if At(s, h, KnownDuplicate) then Fill(s, h, Duplicate)
      else if At(s, h, Committed) then Fill(s, h, Processed)
      else s
    case Crash(h) =>
      if h !in s.handlers || s.handlers[h].phase.Answered? then s else Move(s, h, Crashed)
    case LoseCache(lost) => s.(cache := s.cache - lost)
    case AddSubscription(u, p, status, provider) =>
      s.(db := s.db.(subs := AppendSub(s.db.subs, u, p, status, provider, None)))
    case SetSubscription(id, planId, status) =>
      s.(db := s.db.(subs := UpdateSub(s.db.subs, id, (x: Subscription) => x.(planId := planId, status := status))))
  }

  function Run(s: State, acts: seq<Action>): State
    decreases |acts|
  {
    if acts == [] then s else Run(Step(s, acts[0]), acts[1..])
  }

  lemma {:induction false} RunConcat(s: State, a: seq<Action>, b: seq<Action>)
    ensures Run(s, a + b) == Run(Run(s, a), b)
    decreases |a|
  {
    if a == [] {
      assert a + b == b;
    } else {
      assert (a + b)[1..] == a[1..] + b;
      RunConcat(Step(s, a[0]), a[1..], b);
    }
  }

  lemma RunTwo(s: State, a: Action, b: Action)
    ensures Run(s, [a, b]) == Step(Step(s, a), b)
  {
    assert [a, b][1..] == [b] && [b][1..] == [];
    assert Run(s, [a, b]) == Run(Step(s, a), [b]) == Run(Step(Step(s, a), b), []);
  }

  // Before the first request: no event row, an empty store, and no subscription of the handler's making.
  predicate Initial(s: State) {
    && s.db.events == [] && s.cache == map[] && s.handlers == map[]
    && forall i :: 0 <= i < |s.db.subs| ==> s.db.subs[i].origin == None
  }

  // ---------------------------------------------------------------------------------------------
  // The invariant of every interleaving

  predicate UniqueEvents(db: Db) {
    && (forall i, j :: 0 <= i < j < |db.events| ==> db.events[i].key != db.events[j].key)
    && forall i :: 0 <= i < |db.events| ==> Supported(db.events[i].key.provider)
  }

  predicate Checkout(db: Db, k: Key) {
    exists i :: 0 <= i < |db.events| && db.events[i] == EventRow(k, CHECKOUT)
  }

  predicate HasOrigin(db: Db, k: Key) { exists i :: 0 <= i < |db.subs| && db.subs[i].origin == Some(k) }

  predicate DistinctOrigins(subs: seq<Subscription>) {
    forall i, j :: 0 <= i < j < |subs| && subs[i].origin.Some? ==> subs[i].origin != subs[j].origin
  }

  // Rows created by the handler and committed checkout events correspond one to one.
  ghost predicate OriginsMatch(db: Db) {
    && DistinctOrigins(db.subs)
    && forall k :: HasOrigin(db, k) <==> Checkout(db, k)
  }

  // No two handlers hold, or have won, the same event.
  predicate HandlersExclusive(s: State) {
    forall g, h :: g in s.handlers && h in s.handlers && g != h
      && (s.handlers[g].phase.Holds() || s.handlers[g].phase.Won())
      && (s.handlers[h].phase.Holds() || s.handlers[h].phase.Won())
      ==> s.handlers[g].req.Id() != s.handlers[h].req.Id()
  }

  predicate HandlerOk(db: Db, x: Handler) {
    && (!(x.phase.Answered? && x.phase.answer.Refused?) ==> Refuse(x.req) == None)
    && (x.phase.Holds() ==> !HasEvent(db, x.req.Id()))
    && (x.phase.Prepared? ==> (x.phase.effect.NewSubscription? <==> x.req.eventType == CHECKOUT))
    && (x.phase.Won() || x.phase.KnownDuplicate? || x.phase == Answered(Duplicate) ==> HasEvent(db, x.req.Id()))
  }

  // A remembered event is a committed event.
  ghost predicate CacheSound(s: State) {
    forall k: Key :: Supported(k.provider) && CacheKey(k) in s.cache ==> HasEvent(s.db, k)
  }

  ghost predicate Inv(s: State) {
    && UniqueEvents(s.db)
    && OriginsMatch(s.db)
    && HandlersExclusive(s)
    && (forall h :: h in s.handlers ==> HandlerOk(s.db, s.handlers[h]))
    && CacheSound(s)
  }

  // ---------------------------------------------------------------------------------------------
  // Proof that each step keeps the invariant

  /** Keys of the two supported providers never collide in the store. (For arbitrary providers they can:
    see `CacheKeysCanCollide`.) */
  lemma CacheKeyInjective(a: Key, b: Key)
    requires Supported(a.provider) && Supported(b.provider)
    ensures CacheKey(a) == CacheKey(b) <==> a == b
  {
    if CacheKey(a) == CacheKey(b) {
      assert CacheKey(a)[0] == a.provider[0] && CacheKey(b)[0] == b.provider[0];
      assert "stripe"[0] != "paypal"[0];
      assert a.provider == b.provider;
      assert a.eventId == CacheKey(a)[|a.provider| + 1..];
      assert b.eventId == CacheKey(b)[|b.provider| + 1..];
    }
  }

  lemma CacheKeysCanCollide()
    ensures Key("a:b", "c") != Key("a", "b:c") && CacheKey(Key("a:b", "c")) == CacheKey(Key("a", "b:c"))
  {
  }

  lemma MoveKeepsInv(s: State, h: nat, p: Phase)
    requires Inv(s) && h in s.handlers
    requires HandlerOk(s.db, s.handlers[h].(phase := p))
    requires (p.Holds() || p.Won()) ==>
      (forall g :: g in s.handlers && g != h && (s.handlers[g].phase.Holds() || s.handlers[g].phase.Won())
        ==> s.handlers[g].req.Id() != s.handlers[h].req.Id())
    ensures Inv(Move(s, h, p))
  {
  }

  lemma FillKeepsInv(s: State, h: nat, a: Answer)
    requires Inv(s) && h in s.handlers
    requires s.handlers[h].phase == (if a == Processed then Committed else KnownDuplicate)
    requires a == Processed || a == Duplicate
    ensures Inv(Fill(s, h, a))
  {
    var k := s.handlers[h].req.Id();
    var s1 := s.(cache := s.cache[CacheKey(k) := k]);
    forall j: Key | Supported(j.provider) && CacheKey(j) in s1.cache ensures HasEvent(s1.db, j) {
      CacheKeyInjective(j, k);
      assert HandlerOk(s.db, s.handlers[h]);
    }
    assert Inv(s1);
    MoveKeepsInv(s1, h, Answered(a));
  }

  lemma InsertKeepsInv(s: State, h: nat)
    requires Inv(s) && At(s, h, TableMissed)
    ensures Inv(Step(s, Insert(h)))
  {
    if !Blocked(s, h) {
      var k := s.handlers[h].req.Id();
      assert HandlerOk(s.db, s.handlers[h]);
      if HasEvent(s.db, k) {
        MoveKeepsInv(s, h, KnownDuplicate);
      } else {
        forall g | g in s.handlers && g != h && (s.handlers[g].phase.Holds() || s.handlers[g].phase.Won())
          ensures s.handlers[g].req.Id() != k
        {
          assert HandlerOk(s.db, s.handlers[g]);
        }
        MoveKeepsInv(s, h, Inserted);
      }
    }
  }

  // Appending the event row of a holder keeps keys unique and every other event where it was.
  lemma AppendEvent(db: Db, db': Db, r: Request)
    requires UniqueEvents(db) && !HasEvent(db, r.Id()) && Supported(r.provider)
    requires db'.events == db.events + [EventRow(r.Id(), r.eventType)]
    ensures UniqueEvents(db')
    ensures forall k :: HasEvent(db', k) <==> HasEvent(db, k) || k == r.Id()
    ensures forall k :: Checkout(db', k) <==> Checkout(db, k) || (k == r.Id() && r.eventType == CHECKOUT)
  {
    var n := |db.events|;
    assert db'.events[n] == EventRow(r.Id(), r.eventType);
    forall k | HasEvent(db, k) ensures HasEvent(db', k) {
      var i :| 0 <= i < n && db.events[i].key == k;
      assert db'.events[i].key == k;
    }
    forall k | Checkout(db, k) ensures Checkout(db', k) {
      var i :| 0 <= i < n && db.events[i] == EventRow(k, CHECKOUT);
      assert db'.events[i] == EventRow(k, CHECKOUT);
    }
  }

  // Rewriting rows without touching `origin` keeps the correspondence.
  lemma UpdateKeepsOrigins(db: Db, db': Db)
    requires |db'.subs| == |db.subs| && forall i :: 0 <= i < |db.subs| ==> db'.subs[i].origin == db.subs[i].origin
    ensures forall k :: HasOrigin(db', k) <==> HasOrigin(db, k)
    ensures DistinctOrigins(db.subs) ==> DistinctOrigins(db'.subs)
  {
    forall k | HasOrigin(db, k) ensures HasOrigin(db', k) {
      var i :| 0 <= i < |db.subs| && db.subs[i].origin == Some(k);
      assert db'.subs[i].origin == Some(k);
    }
    forall k | HasOrigin(db', k) ensures HasOrigin(db, k) {
      var i :| 0 <= i < |db'.subs| && db'.subs[i].origin == Some(k);
      assert db.subs[i].origin == Some(k);
    }
  }

  lemma AppendKeepsOrigins(db: Db, db': Db, x: Subscription)
    requires db'.subs == db.subs + [x]
    ensures forall k :: HasOrigin(db', k) <==> HasOrigin(db, k) || x.origin == Some(k)
  {
    assert db'.subs[|db.subs|] == x;
    forall k | HasOrigin(db, k) ensures HasOrigin(db', k) {
      var i :| 0 <= i < |db.subs| && db.subs[i].origin == Some(k);
      assert db'.subs[i].origin == Some(k);
    }
  }

  // The commit of a transaction: event row and effect together.
  lemma CommitDbOk(db: Db, r: Request, e: Effect)
    requires UniqueEvents(db) && OriginsMatch(db) && !HasEvent(db, r.Id()) && Supported(r.provider)
    requires e.NewSubscription? <==> r.eventType == CHECKOUT
    ensures UniqueEvents(CommitDb(db, r, e)) && OriginsMatch(CommitDb(db, r, e))
    ensures forall k :: HasEvent(CommitDb(db, r, e), k) <==> HasEvent(db, k) || k == r.Id()
  {
    var db' := CommitDb(db, r, e);
    AppendEvent(db, db', r);
    if e.NewSubscription? {
      AppendKeepsOrigins(db, db', db'.subs[|db.subs|]);
      assert !Checkout(db, r.Id());
      assert !HasOrigin(db, r.Id());
    } else {
      UpdateKeepsOrigins(db, db');
    }
  }

  lemma CommitKeepsInv(s: State, h: nat)
    requires Inv(s) && h in s.handlers && s.handlers[h].phase.Prepared?
    ensures Inv(Step(s, Commit(h)))
  {
    var x := s.handlers[h];
    assert HandlerOk(s.db, x);
    CommitDbOk(s.db, x.req, x.phase.effect);
    var s' := Step(s, Commit(h));
    forall g | g in s'.handlers ensures HandlerOk(s'.db, s'.handlers[g]) {
      assert HandlerOk(s.db, s.handlers[g]);
    }
  }

  lemma SubscriptionsKeepInv(s: State, db': Db)
    requires Inv(s) && db'.events == s.db.events && OriginsMatch(db')
    ensures Inv(s.(db := db'))
  {
    assert forall k :: HasEvent(db', k) <==> HasEvent(s.db, k);
    forall h | h in s.handlers ensures HandlerOk(db', s.handlers[h]) {
      assert HandlerOk(s.db, s.handlers[h]);
    }
  }

  lemma OthersKeepInv(s: State, a: Action)
    requires Inv(s) && (a.AddSubscription? || a.SetSubscription?)
    ensures Inv(Step(s, a))
  {
    var db' := Step(s, a).db;
    assert forall k :: Checkout(db', k) <==> Checkout(s.db, k);
    if a.AddSubscription? {
      AppendKeepsOrigins(s.db, db', db'.subs[|s.db.subs|]);
    } else {
      UpdateKeepsOrigins(s.db, db');
    }
    SubscriptionsKeepInv(s, db');
  }

  lemma HandlerStepKeepsInv(s: State, a: Action)
    requires Inv(s) && (a.LookupCache? || a.LookupTable? || a.Prepare? || a.Crash?)
    ensures Inv(Step(s, a))
  {
    if a.h in s.handlers {
      assert HandlerOk(s.db, s.handlers[a.h]);
      var s' := Step(s, a);
      if s' != s {
        MoveKeepsInv(s, a.h, s'.handlers[a.h].phase);
      }
    }
  }

  lemma StepKeepsInv(s: State, a: Action)
    requires Inv(s)
    ensures Inv(Step(s, a))
  {
    match a
    case Arrive(h, req) =>
    case LookupCache(h, seen) => HandlerStepKeepsInv(s, a);
    case LookupTable(h) => HandlerStepKeepsInv(s, a);
    case Insert(h) => if At(s, h, TableMissed) { InsertKeepsInv(s, h); }
    case Prepare(h) => HandlerStepKeepsInv(s, a);
    case Commit(h) => if h in s.handlers && s.handlers[h].phase.Prepared? { CommitKeepsInv(s, h); }
    case FillCache(h) =>
      if At(s, h, KnownDuplicate) { FillKeepsInv(s, h, Duplicate); }
      else if At(s, h, Committed) { FillKeepsInv(s, h, Processed); }
    case Crash(h) => HandlerStepKeepsInv(s, a);
    case LoseCache(lost) =>
    case AddSubscription(u, p, status, provider) => OthersKeepInv(s, a);
    case SetSubscription(id, planId, status) => OthersKeepInv(s, a);
  }

  lemma {:induction false} RunKeepsInv(s: State, acts: seq<Action>)
    requires Inv(s)
    ensures Inv(Run(s, acts))
    decreases |acts|
  {
    if acts != [] {
      StepKeepsInv(s, acts[0]);
      RunKeepsInv(Step(s, acts[0]), acts[1..]);
    }
  }

  lemma ReachableInv(s: State, acts: seq<Action>)
    requires Initial(s)
    ensures Inv(Run(s, acts))
  {
    assert forall k :: !HasOrigin(s.db, k) && !Checkout(s.db, k);
    RunKeepsInv(s, acts);
  }

  // ---------------------------------------------------------------------------------------------
  // Main results

  /** Over every interleaving, with crashes and redeliveries anywhere, at most one delivery of an event
    is answered `processed`. */
  lemma AtMostOneProcessed(s: State, acts: seq<Action>, g: nat, h: nat)
    requires Initial(s)
    requires At(Run(s, acts), g, Answered(Processed)) && At(Run(s, acts), h, Answered(Processed))
    requires Run(s, acts).handlers[g].req.Id() == Run(s, acts).handlers[h].req.Id()
    ensures g == h
  {
    ReachableInv(s, acts);
  }

  function CountOrigin(subs: seq<Subscription>, k: Key): nat {
    if subs == [] then 0
    else CountOrigin(subs[..|subs| - 1], k) + if subs[|subs| - 1].origin == Some(k) then 1 else 0
  }

  lemma {:induction false} CountOriginUnique(subs: seq<Subscription>, k: Key)
    requires DistinctOrigins(subs)
    ensures CountOrigin(subs, k) == if exists i :: 0 <= i < |subs| && subs[i].origin == Some(k) then 1 else 0
  {
    if subs != [] {
      var rest := subs[..|subs| - 1];
      CountOriginUnique(rest, k);
      if i :| 0 <= i < |rest| && rest[i].origin == Some(k) {
        assert subs[i].origin == Some(k);
      }
    }
  }

  /** In every reachable state the handler has created exactly one subscription for each committed
    checkout event, and none for any other event. */
  lemma EffectExactlyOnce(s: State, acts: seq<Action>, k: Key)
    requires Initial(s)
    ensures CountOrigin(Run(s, acts).db.subs, k) == if Checkout(Run(s, acts).db, k) then 1 else 0
  {
    ReachableInv(s, acts);
    CountOriginUnique(Run(s, acts).db.subs, k);
    assert HasOrigin(Run(s, acts).db, k) <==> Checkout(Run(s, acts).db, k);
  }

  lemma {:induction false} EventsOnlyGrow(s: State, acts: seq<Action>)
    ensures s.db.events <= Run(s, acts).db.events
    decreases |acts|
  {
    if acts != [] {
      assert s.db.events <= Step(s, acts[0]).db.events;
      EventsOnlyGrow(Step(s, acts[0]), acts[1..]);
    }
  }

  /** Telling the provider that an event is a duplicate, or processed, never loses it: its row is
    committed, and it stays committed. */
  lemma AnsweredEventIsCommitted(s: State, acts: seq<Action>, later: seq<Action>, h: nat)
    requires Initial(s)
    requires At(Run(s, acts), h, Answered(Duplicate)) || At(Run(s, acts), h, Answered(Processed))
    ensures HasEvent(Run(Run(s, acts), later).db, Run(s, acts).handlers[h].req.Id())
  {
    ReachableInv(s, acts);
    var t := Run(s, acts);
    assert HandlerOk(t.db, t.handlers[h]);
    EventsOnlyGrow(t, later);
    var i :| 0 <= i < |t.db.events| && t.db.events[i].key == t.handlers[h].req.Id();
    assert Run(t, later).db.events[i].key == t.handlers[h].req.Id();
  }

  predicate DistinctIds(subs: seq<Subscription>) {
    forall i, j :: 0 <= i < j < |subs| ==> subs[i].id != subs[j].id
  }

  lemma AppendKeepsIds(subs: seq<Subscription>, x: Subscription)
    requires DistinctIds(subs) && x.id == NextId(Ids(subs))
    ensures DistinctIds(subs + [x])
  {
    assert forall i :: 0 <= i < |subs| ==> Ids(subs)[i] == subs[i].id;
  }

  lemma StepKeepsIds(s: State, a: Action)
    requires DistinctIds(s.db.subs)
    ensures DistinctIds(Step(s, a).db.subs)
  {
    var t := Step(s, a);
    if |t.db.subs| > |s.db.subs| {
      AppendKeepsIds(s.db.subs, t.db.subs[|s.db.subs|]);
    }
  }

  /** Every run keeps subscription ids apart. */
  lemma {:induction false} IdsStayDistinct(s: State, acts: seq<Action>)
    requires DistinctIds(s.db.subs)
    ensures DistinctIds(Run(s, acts).db.subs)
    decreases |acts|
  {
    if acts != [] {
      StepKeepsIds(s, acts[0]);
      IdsStayDistinct(Step(s, acts[0]), acts[1..]);
    }
  }
}
