/** Refresh requests that overlap. The use case reads the token, then writes: a server runs any number of
  requests, each in these two steps, among all other use cases. */
module Refreshes {
  import opened Options
  import opened TokenStores
  import opened Sessions

  // A request between its read and its writes, or after them.
  datatype Flight =
    | Redeeming(token: Token, user: UserId)   // the token was live, and its user exists
    | Replaying(user: UserId)                 // a used marker was found
    | Ended(answer: Answer)

  datatype Server = Server(base: State, flights: map<nat, Flight>)

  datatype Event =
    | Whole(op: Op)               // any use case that nothing overlaps
    | Read(r: nat, t: Token)
    | Write(r: nat)

  function ReadToken(s: State, t: Token): Flight {
    match Lookup(s.stores.refresh, t, s.now)
    case Some(Used(u)) => Replaying(u)
    case Some(Owner(u)) => if u in s.users then Redeeming(t, u) else Ended(NotFound)
    case Some(Revoked) => Ended(ServerError)
    case None => Ended(Unauthorized)
  }

  function Redeem(c: Config, s: State, t: Token, u: UserId): State {
    s.(stores := RotateOn(c, s.stores, u, t, s.now, s.next, s.next + 1), next := s.next + 2,
       issued := s.issued[s.next + 1 := u], access := s.access[s.next := IssueAccess(c, u, s.next, s.now)])
  }

  function Step(c: Config, m: Server, e: Event): Server {
    match e
    case Whole(op) => m.(base := Execute(c, m.base, op).0)
    case Read(r, t) => if r in m.flights then m else m.(flights := m.flights[r := ReadToken(m.base, t)])
    case Write(r) =>
      if r !in m.flights then m
      else
        match m.flights[r]
        case Ended(_) => m
        case Replaying(u) =>
          Server(m.base.(stores := RevokeSessions(m.base.stores, u, m.base.now)), m.flights[r := Ended(Unauthorized)])
        case Redeeming(t, u) =>
          Server(Redeem(c, m.base, t, u),
                 m.flights[r := Ended(Pair(IssueAccess(c, u, m.base.next, m.base.now), m.base.next + 1))])
  }

  function RunEvents(c: Config, m: Server, es: seq<Event>): Server
    decreases |es|
  {
    if es == [] then m else RunEvents(c, Step(c, m, es[0]), es[1..])
  }

  /** A request whose read and writes nothing comes between is the use case `Sessions` has. */
  lemma AloneIsRefresh(c: Config, m: Server, r: nat, t: Token)
    requires r !in m.flights
    ensures var end := RunEvents(c, m, [Read(r, t), Write(r)]);
            && end.base == Execute(c, m.base, Refresh(t)).0
            && r in end.flights && end.flights[r] == Ended(Execute(c, m.base, Refresh(t)).1)
  {
    var m1 := Step(c, m, Read(r, t));
    assert [Read(r, t), Write(r)][1..] == [Write(r)] && [Write(r)][1..] == [];
    assert RunEvents(c, m, [Read(r, t), Write(r)]) == RunEvents(c, m1, [Write(r)])
        == RunEvents(c, Step(c, m1, Write(r)), []);
  }

  // ---------------------------------------------------------------------------------------------
  // The fate of a request is decided by its read

  predicate CanRedeem(s: State, t: Token) {
    var v := Lookup(s.stores.refresh, t, s.now);
    v.Some? && v.value.Owner? && v.value.user in s.users
  }

  // A request that has read keeps what it read until it writes, and then its answer.
  predicate Follows(x: Flight, y: Flight) {
    match x
    case Redeeming(_, _) => y == x || (y.Ended? && y.answer.Pair?)
    case Replaying(_) => y == x || y == Ended(Unauthorized)
    case Ended(_) => y == x
  }

  lemma {:induction false} FlightFollows(c: Config, m: Server, es: seq<Event>, r: nat)
    requires r in m.flights
    ensures r in RunEvents(c, m, es).flights && Follows(m.flights[r], RunEvents(c, m, es).flights[r])
    decreases |es|
  {
    if es != [] {
      var t := Step(c, m, es[0]);
      assert r in t.flights && Follows(m.flights[r], t.flights[r]);
      FlightFollows(c, t, es[1..], r);
    }
  }

  // ---------------------------------------------------------------------------------------------
  // Nobody redeems a token after its first rotation

  // The event writes a rotation of the token.
  predicate Rotates(c: Config, m: Server, e: Event, t: Token) {
    match e
    case Write(r) => r in m.flights && m.flights[r].Redeeming? && m.flights[r].token == t
    case Whole(op) => op == Refresh(t) && Execute(c, m.base, op).1.Pair?
    case Read(_, _) => false
  }

  function Rotations(c: Config, m: Server, es: seq<Event>, t: Token): nat
    decreases |es|
  {
    if es == [] then 0
    else Rotations(c, Step(c, m, es[0]), es[1..], t) + if Rotates(c, m, es[0], t) then 1 else 0
  }

  // An id that was drawn before, and is not that of a live token.
  predicate Closed(s: State, t: Token) {
    t < s.next && !(t in s.stores.refresh.keys && s.now < s.stores.refresh.keys[t].expiresAt
                    && s.stores.refresh.keys[t].value.Owner?)
  }

  lemma OldKeyWhole(c: Config, s: State, op: Op, t: Token)
    requires t < s.next
    ensures t < Execute(c, s, op).0.next && s.now <= Execute(c, s, op).0.now
    ensures var k, k' := s.stores.refresh.keys, Execute(c, s, op).0.stores.refresh.keys;
            t in k' ==> (t in k && k'[t] == k[t]) || k'[t].value.Used?
  {
    match op
    case Login(u) =>
    case Refresh(p) =>
    case ConfirmReset(p) =>
    case _ =>
  }

  // What an event does to the key of an id drawn before: nothing, deletion, or a used marker.
  lemma OldKeyStep(c: Config, m: Server, e: Event, t: Token)
    requires t < m.base.next
    ensures t < Step(c, m, e).base.next && m.base.now <= Step(c, m, e).base.now
    ensures var k, k' := m.base.stores.refresh.keys, Step(c, m, e).base.stores.refresh.keys;
            t in k' ==> (t in k && k'[t] == k[t]) || k'[t].value.Used?
  {
    match e
    case Whole(op) => OldKeyWhole(c, m.base, op, t);
    case Read(r, x) =>
    case Write(r) =>
  }

  lemma {:induction false} ClosedForGood(c: Config, m: Server, es: seq<Event>, t: Token)
    requires Closed(m.base, t)
    ensures Closed(RunEvents(c, m, es).base, t)
    decreases |es|
  {
    if es != [] {
      OldKeyStep(c, m, es[0], t);
      ClosedForGood(c, Step(c, m, es[0]), es[1..], t);
    }
  }

  lemma RotationCloses(c: Config, m: Server, e: Event, t: Token)
    requires t < m.base.next && Rotates(c, m, e, t)
    ensures Closed(Step(c, m, e).base, t)
  {
    OldKeyStep(c, m, e, t);
    var s' := Step(c, m, e).base;
    assert t in s'.stores.refresh.keys && s'.stores.refresh.keys[t].value.Used?;
  }

  lemma {:induction false} RotatedIsClosed(c: Config, m: Server, es: seq<Event>, t: Token)
    requires t < m.base.next && Rotations(c, m, es, t) > 0
    ensures Closed(RunEvents(c, m, es).base, t)
    decreases |es|
  {
    OldKeyStep(c, m, es[0], t);
    if Rotates(c, m, es[0], t) {
      RotationCloses(c, m, es[0], t);
      ClosedForGood(c, Step(c, m, es[0]), es[1..], t);
    } else {
      RotatedIsClosed(c, Step(c, m, es[0]), es[1..], t);
    }
  }

  /** Which requests are handed a pair for a token, whatever overlaps: exactly those that read it while it was
    live and its user there; and all of them read it before its first rotation was written. */
  lemma PairIffReadInTime(c: Config, m: Server, before: seq<Event>, r: nat, t: Token, after: seq<Event>)
    requires t < m.base.next && r !in RunEvents(c, m, before).flights
    requires var end := RunEvents(c, Step(c, RunEvents(c, m, before), Read(r, t)), after);
             r in end.flights && end.flights[r].Ended?
    ensures var end := RunEvents(c, Step(c, RunEvents(c, m, before), Read(r, t)), after);
            end.flights[r].answer.Pair? <==> CanRedeem(RunEvents(c, m, before).base, t)
    ensures CanRedeem(RunEvents(c, m, before).base, t) ==> Rotations(c, m, before, t) == 0
  {
    var m1 := RunEvents(c, m, before);
    FlightFollows(c, Step(c, m1, Read(r, t)), after, r);
    if Rotations(c, m, before, t) > 0 {
      RotatedIsClosed(c, m, before, t);
    }
  }

  // A request that has read a live token and ended has written its rotation.
  lemma {:induction false} EndedHasRotated(c: Config, m: Server, es: seq<Event>, r: nat, t: Token)
    requires r in m.flights && m.flights[r].Redeeming? && m.flights[r].token == t
    ensures r in RunEvents(c, m, es).flights
    ensures !RunEvents(c, m, es).flights[r].Redeeming? ==> Rotations(c, m, es, t) > 0
    decreases |es|
  {
    FlightFollows(c, m, es, r);
    if es != [] && es[0] != Write(r) {
      EndedHasRotated(c, Step(c, m, es[0]), es[1..], r, t);
    }
  }

  /** Two requests with one token, the one of `r` read first: both are handed a pair exactly if the token could
    be redeemed at both reads, which takes that `r` has not written by the time the other reads. */
  lemma BothRedeemIff(c: Config, m: Server, r: nat, q: nat, t: Token, between: seq<Event>, after: seq<Event>)
    requires t < m.base.next && r !in m.flights
    requires q !in RunEvents(c, Step(c, m, Read(r, t)), between).flights
    requires var mq := RunEvents(c, Step(c, m, Read(r, t)), between);
             var end := RunEvents(c, Step(c, mq, Read(q, t)), after);
             && r in end.flights && end.flights[r].Ended?
             && q in end.flights && end.flights[q].Ended?
    ensures var mq := RunEvents(c, Step(c, m, Read(r, t)), between);
            var end := RunEvents(c, Step(c, mq, Read(q, t)), after);
            && (end.flights[r].answer.Pair? && end.flights[q].answer.Pair? <==>
                  CanRedeem(m.base, t) && CanRedeem(mq.base, t))
            && (CanRedeem(m.base, t) && CanRedeem(mq.base, t) ==> r in mq.flights && mq.flights[r].Redeeming?)
  {
    var m1 := Step(c, m, Read(r, t));
    var mq := RunEvents(c, m1, between);
    FlightFollows(c, m1, between, r);
    FlightFollows(c, Step(c, mq, Read(q, t)), after, r);
    FlightFollows(c, Step(c, mq, Read(q, t)), after, q);
    if CanRedeem(m.base, t) {
      EndedHasRotated(c, m1, between, r, t);
      if !mq.flights[r].Redeeming? {
        RotatedIsClosed(c, m1, between, t);
      }
    }
  }

  /** And so it happens: two requests that both read a live token before either writes are both handed a pair,
    and the new refresh tokens of both are live. */
  lemma InterleavedRefreshesBothRedeem(c: Config, m: Server, r: nat, q: nat, t: Token)
    requires c.Valid() && t < m.base.next && r != q && r !in m.flights && q !in m.flights && CanRedeem(m.base, t)
    ensures var end := RunEvents(c, m, [Read(r, t), Read(q, t)] + [Write(r), Write(q)]);
            && r in end.flights && end.flights[r].Ended? && end.flights[r].answer.Pair?
            && q in end.flights && end.flights[q].Ended? && end.flights[q].answer.Pair?
            && end.flights[r].answer.refresh != end.flights[q].answer.refresh
            && CanRedeem(end.base, end.flights[r].answer.refresh)
            && CanRedeem(end.base, end.flights[q].answer.refresh)
  {
    var m2 := Step(c, Step(c, m, Read(r, t)), Read(q, t));
    var m3 := Step(c, m2, Write(r));
    var es := [Read(r, t), Read(q, t)] + [Write(r), Write(q)];
    assert es[1..] == [Read(q, t), Write(r), Write(q)] && es[1..][1..] == [Write(r), Write(q)];
    assert [Write(r), Write(q)][1..] == [Write(q)] && [Write(q)][1..] == [];
    assert RunEvents(c, m2, [Write(r), Write(q)]) == RunEvents(c, m3, [Write(q)])
        == RunEvents(c, Step(c, m3, Write(q)), []);
  }
}
