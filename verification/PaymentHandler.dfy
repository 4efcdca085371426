/** The stores of the payment-webhook handler as objects, and the handler as the program it is: one call
  after another on the database session and the idempotency store, while other handlers do as they like between
  the calls. Its contract ties it to the machine of `PaymentWebhook`. */
module PaymentHandler {
  import opened Options
  import opened PaymentWebhook
  import opened PaymentRuns

  // The store used in dev and test: entries stay until the process ends.
  class InMemoryIdempotencyStore {
    var store: map<string, Key>

    constructor ()
      ensures store == map[]
    {
      store := map[];
    }

    method Get(key: string) returns (r: Option<Key>)
      ensures r == if key in store then Some(store[key]) else None
    {
      r := if key in store then Some(store[key]) else None;
    }

    method Set(key: string, payload: Key)
      modifies this
      ensures store == old(store)[key := payload]
    {
      store := store[key := payload];
    }
  }

  datatype Entry = Entry(payload: Key, expiresAt: int)

  const DEFAULT_TTL_SECONDS := 86_400

  function Visible(entries: map<string, Entry>, now: int): map<string, Key> {
    map k | k in entries && now < entries[k].expiresAt :: entries[k].payload
  }

  // The Redis store: an entry is gone once its time is up.
  class RedisIdempotencyStore {
    var entries: map<string, Entry>

    constructor ()
      ensures entries == map[]
    {
      entries := map[];
    }

    method Get(key: string, now: int) returns (r: Option<Key>)
      ensures r == if key in entries && now < entries[key].expiresAt then Some(entries[key].payload) else None
    {
      if key in entries && now < entries[key].expiresAt {
        r := Some(entries[key].payload);
      } else {
        r := None;
      }
    }

    method Set(key: string, payload: Key, now: int, ttlSeconds: int := DEFAULT_TTL_SECONDS)
      requires 0 < ttlSeconds
      modifies this
      ensures Visible(entries, now) == Visible(old(entries), now)[key := payload]
      ensures entries == old(entries)[key := Entry(payload, now + ttlSeconds)]
    {
      entries := entries[key := Entry(payload, now + ttlSeconds)];
    }
  }

  /** As time passes the Redis store only loses entries, so that each of its behaviours is one of the
    machine's: `Set` is the write of `FillCache`, and the passing of time is a `LoseCache`. */
  lemma ExpiryIsLoss(s: State, entries: map<string, Entry>, now: int, later: int)
    requires now <= later && s.cache == Visible(entries, now)
    ensures Step(s, LoseCache(Visible(entries, now).Keys - Visible(entries, later).Keys)).cache
         == Visible(entries, later)
  {
    var lost := Visible(entries, now).Keys - Visible(entries, later).Keys;
    assert forall k :: k in Visible(entries, later) ==> k in Visible(entries, now);
    assert (s.cache - lost).Keys == Visible(entries, later).Keys;
  }

  // The tables as committed, and the other handlers at work on them.
  class Database {
    var tables: Db
    var handlers: map<nat, Handler>

    constructor (tables: Db, handlers: map<nat, Handler>)
      ensures this.tables == tables && this.handlers == handlers
    {
      this.tables, this.handlers := tables, handlers;
    }
  }

  // The session of one request: what it has flushed but not committed.
  class Session {
    const database: Database
    var row: Option<EventRow>
    var effect: Effect

    constructor (database: Database)
      ensures this.database == database && row.None? && effect.NoEffect?
    {
      this.database := database;
      row, effect := None, NoEffect;
    }

    method ScalarEvent(k: Key) returns (found: bool)
      ensures found <==> HasEvent(database.tables, k)
    {
      found := HasEvent(database.tables, k);
    }

    // Adds and flushes the row; the unique constraint answers whether it conflicts.
    method FlushEvent(event: EventRow) returns (ok: bool)
      modifies this`row
      ensures ok <==> !HasEvent(database.tables, event.key)
      ensures row == if ok then Some(event) else old(row)
    {
      ok := !HasEvent(database.tables, event.key);
      if ok { row := Some(event); }
    }

    method GetSubscription(id: int) returns (found: Option<int>)
      ensures found == FindById(database.tables.subs, id)
    {
      found := FindById(database.tables.subs, id);
    }

    // The latest matching row, found by walking the table from its end.
    method LatestSubscription(userId: int, planId: int) returns (found: Option<int>)
      ensures found == FindLatest(database.tables.subs, userId, planId)
    {
      var subs := database.tables.subs;
      var n := |subs|;
      assert subs[..n] == subs;
      while n > 0
        invariant 0 <= n <= |subs|
        invariant FindLatest(subs, userId, planId) == FindLatest(subs[..n], userId, planId)
      {
        assert subs[..n][..n - 1] == subs[..n - 1];
        var last := subs[n - 1];
        if Matches(last, userId, planId) {
          return Some(last.id);
        }
        n := n - 1;
      }
      return None;
    }

    // Assigns the status of a loaded row; only a change is written.
    method SetPastDue(id: int)
      modifies this`effect
      ensures effect == if PastDue(database.tables.subs, id) then old(effect) else MarkPastDue(id)
    {
      if !PastDue(database.tables.subs, id) { effect := MarkPastDue(id); }
    }

    // Publishes what was flushed, on top of what others have committed by now.
    method Commit(ghost r: Request)
      requires row == Some(EventRow(r.Id(), r.eventType))
      modifies this, database`tables
      ensures database.tables == CommitDb(old(database.tables), r, old(effect))
      ensures row.None? && effect.NoEffect?
    {
      var key, subs := row.value.key, database.tables.subs;
      match effect {
        case NoEffect =>
        case NewSubscription(u, p) => subs := AppendSub(subs, u, p, "active", key.provider, Some(key));
        case MarkPastDue(id) => subs := UpdateSub(subs, id, (s: Subscription) => s.(status := "past_due"));
      }
      database.tables := Db(database.tables.events + [row.value], subs);
      row, effect := None, NoEffect;
    }

    method Rollback()
      modifies this
      ensures row.None? && effect.NoEffect?
    {
      row, effect := None, NoEffect;
    }
  }

  /** What the handler writes besides its event row, which is already flushed: the branches choose the effect of
    the event on the tables as they find them. */
  method Apply(db: Session, r: Request)
    requires db.effect.NoEffect?
    modifies db`effect
    ensures db.effect == EffectOf(db.database.tables, r)
  {
    if r.eventType == CHECKOUT {
      db.effect := NewSubscription(r.userId, r.planId);
    } else if r.eventType == PAYMENT_FAILED {
      var found: Option<int> := None;
      if r.subscriptionId != 0 {
        found := db.GetSubscription(r.subscriptionId);
      }
      if found.None? {
        found := db.LatestSubscription(r.userId, r.planId);
      }
      if found.Some? {
        db.SetPastDue(found.value);
      }
    }
  }

  // The machine's state: database, store and other handlers as they are, and this handler as `me`.
  function View(db: Database, store: InMemoryIdempotencyStore, h: nat, me: Handler): State
    reads db, store
  {
    State(db.tables, store.store, db.handlers[h := me])
  }

  // The others do what they do.
  method Meanwhile(db: Database, store: InMemoryIdempotencyStore, h: nat, me: Handler, acts: seq<Action>)
    requires Avoids(acts, h)
    modifies db, store
    ensures View(db, store, h, me) == Run(old(View(db, store, h, me)), acts)
  {
    OthersLeave(View(db, store, h, me), acts, h);
    var t := Run(View(db, store, h, me), acts);
    db.tables, db.handlers, store.store := t.db, t.handlers, t.cache;
    assert db.handlers[h := me] == t.handlers;
  }

  predicate AllAvoid(gaps: seq<seq<Action>>, h: nat) { forall i :: 0 <= i < |gaps| ==> Avoids(gaps[i], h) }

  // The rest of the handler's calls, from here on, end in `end`.
  ghost predicate LeadsTo(s: State, h: nat, gaps: seq<seq<Action>>, end: State) {
    h in s.handlers && AllAvoid(gaps, h) && Served(s, h, gaps) == end && Returned(end, h)
  }

  // A handler that has not returned yet, but does in the end, lets the others in and goes on.
  lemma OnwardTo(s: State, h: nat, gaps: seq<seq<Action>>, end: State, t: State)
    requires LeadsTo(s, h, gaps, end)
    requires t == Step(s, NextCall(s.handlers[h].phase, h)) && !Returned(t, h)
    ensures gaps != [] && LeadsTo(Run(t, gaps[0]), h, gaps[1..], end)
  {
    if gaps == [] {
      ServedNow(s, h, gaps);
    } else {
      ServedLater(s, h, gaps);
      assert forall i :: 0 <= i < |gaps[1..]| ==> gaps[1..][i] == gaps[i + 1];
    }
  }

  // Between two calls: `s` is the state before the call just made, `me` the handler after it.
  method Yield(db: Database, store: InMemoryIdempotencyStore, h: nat, me: Handler, gaps: seq<seq<Action>>,
               ghost s: State, ghost end: State)
    returns (rest: seq<seq<Action>>)
    requires LeadsTo(s, h, gaps, end) && !me.phase.Answered?
    requires View(db, store, h, me) == Step(s, NextCall(s.handlers[h].phase, h))
    modifies db, store
    ensures LeadsTo(View(db, store, h, me), h, rest, end) && |rest| < |gaps|
  {
    OnwardTo(s, h, gaps, end, View(db, store, h, me));
    Meanwhile(db, store, h, me, gaps[0]);
    rest := gaps[1..];
  }

  lemma Moved(db: Db, cache: map<string, Key>, handlers: map<nat, Handler>, h: nat, me: Handler, p: Phase)
    ensures Move(State(db, cache, handlers[h := me]), h, p) == State(db, cache, handlers[h := me.(phase := p)])
  {
    assert handlers[h := me][h := me.(phase := p)] == handlers[h := me.(phase := p)];
  }

  // Another transaction holds the key.
  predicate KeyHeld(handlers: map<nat, Handler>, h: nat, k: Key) {
    exists g :: g in handlers && g != h && handlers[g].phase.Holds() && handlers[g].req.Id() == k
  }

  lemma HeldIsBlocked(db: Db, cache: map<string, Key>, handlers: map<nat, Handler>, h: nat, me: Handler)
    ensures KeyHeld(handlers, h, me.req.Id()) <==> Blocked(State(db, cache, handlers[h := me]), h)
  {
    var s := State(db, cache, handlers[h := me]);
    assert forall g :: g != h ==> (g in s.handlers <==> g in handlers);
    assert forall g :: g != h && g in handlers ==> s.handlers[g] == handlers[g];
  }

  // The handler's last call: it remembers the event and answers.
  method Acknowledge(db: Database, store: InMemoryIdempotencyStore, h: nat, me: Handler, answer: Answer,
                     ghost gaps: seq<seq<Action>>, ghost end: State)
    requires me.phase == (if answer == Processed then Committed else KnownDuplicate)
    requires answer == Processed || answer == Duplicate
    requires LeadsTo(View(db, store, h, me), h, gaps, end)
    modifies store
    ensures View(db, store, h, Handler(me.req, Answered(answer))) == end
    ensures CacheKey(me.req.Id()) in store.store
  {
    ghost var s := View(db, store, h, me);
    var k := me.req.Id();
    store.Set(CacheKey(k), k);
    Moved(db.tables, store.store, db.handlers, h, me, Answered(answer));
    ServedNow(s, h, gaps);
  }

  // From the choice of the effect on.
  method ApplyAndCommit(h: nat, db: Session, store: InMemoryIdempotencyStore, r: Request, gaps: seq<seq<Action>>,
                        ghost end: State)
    returns (answer: Answer)
    requires db.row == Some(EventRow(r.Id(), r.eventType)) && db.effect.NoEffect?
    requires LeadsTo(View(db.database, store, h, Handler(r, Inserted)), h, gaps, end)
    modifies db, db.database, store
    ensures db.row.None? && db.effect.NoEffect?
    ensures View(db.database, store, h, Handler(r, Answered(answer))) == end
    ensures answer == Processed && CacheKey(r.Id()) in store.store
  {
    var rest, me := gaps, Handler(r, Inserted);
    ghost var s := View(db.database, store, h, me);
    Apply(db, r);
    Moved(s.db, s.cache, db.database.handlers, h, me, Prepared(db.effect));
    me := Handler(r, Prepared(db.effect));
    rest := Yield(db.database, store, h, me, rest, s, end);

    s := View(db.database, store, h, me);
    db.Commit(r);
    Moved(db.database.tables, s.cache, db.database.handlers, h, me, Committed);
    me := Handler(r, Committed);
    rest := Yield(db.database, store, h, me, rest, s, end);
    Acknowledge(db.database, store, h, me, Processed, rest, end);
    return Processed;
  }

  // From the flush of the event row on.
  method InsertAndApply(h: nat, db: Session, store: InMemoryIdempotencyStore, r: Request, gaps: seq<seq<Action>>,
                        ghost end: State)
    returns (answer: Answer)
    requires db.row.None? && db.effect.NoEffect?
    requires LeadsTo(View(db.database, store, h, Handler(r, TableMissed)), h, gaps, end)
    modifies db, db.database, store
    ensures db.row.None? && db.effect.NoEffect?
    ensures View(db.database, store, h, Handler(r, Answered(answer))) == end
    ensures (answer == Processed || answer == Duplicate) && CacheKey(r.Id()) in store.store
  {
    var k, rest, me := r.Id(), gaps, Handler(r, TableMissed);
    HeldIsBlocked(db.database.tables, store.store, db.database.handlers, h, me);
    while KeyHeld(db.database.handlers, h, k)
      invariant db.row.None? && db.effect.NoEffect?
      invariant LeadsTo(View(db.database, store, h, me), h, rest, end)
      invariant KeyHeld(db.database.handlers, h, k) <==> Blocked(View(db.database, store, h, me), h)
      decreases |rest|
    {
      rest := Yield(db.database, store, h, me, rest, View(db.database, store, h, me), end);
      HeldIsBlocked(db.database.tables, store.store, db.database.handlers, h, me);
    }

    ghost var s := View(db.database, store, h, me);
    var ok := db.FlushEvent(EventRow(k, r.eventType));
    Moved(s.db, s.cache, db.database.handlers, h, me, if ok then Inserted else KnownDuplicate);
    if !ok {
      db.Rollback();
      me := Handler(r, KnownDuplicate);
      rest := Yield(db.database, store, h, me, rest, s, end);
      Acknowledge(db.database, store, h, me, Duplicate, rest, end);
      return Duplicate;
    }
    me := Handler(r, Inserted);
    rest := Yield(db.database, store, h, me, rest, s, end);
    answer := ApplyAndCommit(h, db, store, r, rest, end);
  }

  /** The handler, as it runs among others: after its n-th call they do `gaps[n]`, and its insert waits as long as
    another transaction holds the key. A refused request touches nothing; any other leaves database, store and
    other handlers, and answers, as the concurrent machine says. */
  method StripeWebhook(h: nat, db: Session, store: InMemoryIdempotencyStore, r: Request, gaps: seq<seq<Action>>)
    returns (answer: Answer)
    requires h !in db.database.handlers && db.row.None? && db.effect.NoEffect?
    requires AllAvoid(gaps, h)
    requires Refuse(r).None? ==> Returned(Served(View(db.database, store, h, Handler(r, Arrived)), h, gaps), h)
    modifies db, db.database, store
    ensures db.row.None? && db.effect.NoEffect?
    ensures answer == Refused(UnsupportedProvider) <==> r.provider != "stripe" && r.provider != "paypal"
    ensures answer == Refused(InvalidEventId) <==>
      (r.provider == "stripe" || r.provider == "paypal") && r.eventId == ""
    ensures answer == Refused(InvalidSignature) <==>
      (r.provider == "stripe" || r.provider == "paypal") && r.eventId != "" && (r.signature == "" || !r.verified)
    ensures answer.Refused? ==>
      store.store == old(store.store)
      && db.database.tables == old(db.database.tables) && db.database.handlers == old(db.database.handlers)
    ensures !answer.Refused? ==> r.provider + ":" + r.eventId in store.store
    ensures !answer.Refused? ==>
      View(db.database, store, h, Handler(r, Answered(answer)))
      == Served(old(View(db.database, store, h, Handler(r, Arrived))), h, gaps)
  {
    if r.provider != "stripe" && r.provider != "paypal" { return Refused(UnsupportedProvider); }
    if r.eventId == "" { return Refused(InvalidEventId); }
    if r.signature == "" { return Refused(InvalidSignature); }
    if !r.verified { return Refused(InvalidSignature); }

    var k, me, rest := r.Id(), Handler(r, Arrived), gaps;
    ghost var s := View(db.database, store, h, me);
    ghost var end := Served(s, h, gaps);
    var remembered := store.Get(CacheKey(k));
    Moved(s.db, s.cache, db.database.handlers, h, me, if remembered.Some? then Answered(Duplicate) else CacheMissed);
    if remembered.Some? {
      ServedNow(s, h, rest);
      return Duplicate;
    }
    me := Handler(r, CacheMissed);
    rest := Yield(db.database, store, h, me, rest, s, end);

    s := View(db.database, store, h, me);
    var existing := db.ScalarEvent(k);
    Moved(s.db, s.cache, db.database.handlers, h, me, if existing then KnownDuplicate else TableMissed);
    me := Handler(r, if existing then KnownDuplicate else TableMissed);
    rest := Yield(db.database, store, h, me, rest, s, end);
    if existing {
      Acknowledge(db.database, store, h, me, Duplicate, rest, end);
      return Duplicate;
    }
    answer := InsertAndApply(h, db, store, r, rest, end);
  }
}
