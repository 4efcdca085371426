/** Revocations among refreshes that overlap. A replay, a password reset or a password change kills every token
  the user has by then; a request that read one of them before may still write, and what it writes lives. */
module Revocations {
  import opened Options
  import opened TokenStores
  import opened Sessions
  import opened Refreshes

  // ---------------------------------------------------------------------------------------------
  // Invariant of a server

  predicate InFlightFor(m: Server, r: nat, u: UserId) {
    r in m.flights && m.flights[r].Redeeming? && m.flights[r].user == u
  }

  ghost predicate ServerInv(c: Config, m: Server) {
    && InvUpTo(c, m.base, false)
    && forall r :: r in m.flights && m.flights[r].Redeeming? ==>
         m.flights[r].token in m.base.issued && m.base.issued[m.flights[r].token] == m.flights[r].user
  }

  predicate InitialServer(m: Server) { Initial(m.base) && m.flights == map[] }

  lemma WriteKeepsInv(c: Config, s: State, t: Token, u: UserId)
    requires InvUpTo(c, s, false) && t in s.issued && s.issued[t] == u
    ensures InvUpTo(c, Redeem(c, s, t, u), false)
  {
    var s' := Redeem(c, s, t, u);
    assert AccessIndexOk(c, s') by { TrackKeepsAccessIndex(c, s, s', u); }
    assert RefreshIndexOk(c, s', false) && RefreshKeysIssued(s') by {
      RotateKeepsRefreshIndex(c, s, s', t, u, false);
    }
  }

  lemma IssuedKept(c: Config, m: Server, e: Event, t: Token)
    requires IdsBelowNext(m.base) && t in m.base.issued
    ensures t in Step(c, m, e).base.issued && Step(c, m, e).base.issued[t] == m.base.issued[t]
  {
    assert t < m.base.next;
  }

  lemma BaseKeepsInv(c: Config, m: Server, e: Event)
    requires ServerInv(c, m)
    ensures InvUpTo(c, Step(c, m, e).base, false)
  {
    match e
    case Whole(op) => ExecuteKeepsInvUpTo(c, m.base, op, false);
    case Read(_, _) =>
    case Write(r) =>
      if r in m.flights {
        match m.flights[r]
        case Redeeming(t, u) => WriteKeepsInv(c, m.base, t, u);
        case Replaying(u) => RevokeSessionsKeepsInv(c, m.base, u, false);
        case Ended(_) =>
      }
  }

  lemma StepKeepsServerInv(c: Config, m: Server, e: Event)
    requires ServerInv(c, m)
    ensures ServerInv(c, Step(c, m, e))
  {
    BaseKeepsInv(c, m, e);
    var m' := Step(c, m, e);
    forall r | r in m'.flights && m'.flights[r].Redeeming?
      ensures m'.flights[r].token in m'.base.issued && m'.base.issued[m'.flights[r].token] == m'.flights[r].user
    {
      if r in m.flights {
        assert m'.flights[r] == m.flights[r];
        IssuedKept(c, m, e, m.flights[r].token);
      }
    }
  }

  lemma {:induction false} RunKeepsServerInv(c: Config, m: Server, es: seq<Event>)
    requires ServerInv(c, m)
    ensures ServerInv(c, RunEvents(c, m, es))
    decreases |es|
  {
    if es != [] {
      StepKeepsServerInv(c, m, es[0]);
      RunKeepsServerInv(c, Step(c, m, es[0]), es[1..]);
    }
  }

  lemma ReachableServer(c: Config, m: Server, es: seq<Event>)
    requires c.Valid() && InitialServer(m)
    ensures ServerInv(c, RunEvents(c, m, es))
  {
    RunKeepsServerInv(c, m, es);
  }

  // ---------------------------------------------------------------------------------------------
  // What a revocation kills stays dead

  // The events that call `revoke_all_for_user` for `u`.
  predicate Revokes(c: Config, m: Server, e: Event, u: UserId) {
    match e
    case Whole(op) => RevokesRefresh(c, m.base, op, u)
    case Read(_, _) => false
    case Write(r) => r in m.flights && m.flights[r] == Replaying(u)
  }

  // Those that revoke the access tokens of `u` as well.
  predicate RevokesBoth(c: Config, m: Server, e: Event, u: UserId) {
    Revokes(c, m, e, u) && !(e.Whole? && e.op.ChangePassword?)
  }

  predicate HasLiveToken(s: State, t: Token, u: UserId) { MustCover(s.stores.refresh, t, u, s.now, false) }

  lemma RevokeLeavesNone(c: Config, m: Server, e: Event, u: UserId, t: Token)
    requires ServerInv(c, m) && Revokes(c, m, e, u)
    ensures !HasLiveToken(Step(c, m, e).base, t, u)
    ensures t in m.base.issued && m.base.issued[t] == u ==> Closed(Step(c, m, e).base, t)
  {
    var s, s' := m.base, Step(c, m, e).base;
    assert s'.stores.refresh == RevokeAll(s.stores.refresh, u, s.now) && s'.now == s.now && s'.next == s.next;
    if HasLiveToken(s, t, u) {
      assert CoversKeys(s.stores.refresh, u, s.now, false);
      assert t in Members(s.stores.refresh.byUser, u, s.now);
    }
  }

  lemma RevokeBars(c: Config, m: Server, e: Event, u: UserId, j: Token)
    requires ServerInv(c, m) && RevokesBoth(c, m, e, u) && c.accessTtl <= 86_400
    requires j in m.base.access && m.base.access[j].user == u
    ensures Step(c, m, e).base.access == m.base.access && Barred(Step(c, m, e).base, m.base.access[j])
  {
    if e.Whole? {
      RevokeStepBars(c, m.base, e.op, u, j);
    } else if m.base.now < m.base.access[j].exp {
      assert Tracked(m.base, m.base.access[j]);
      assert j in Members(m.base.stores.revocations.accessByUser, u, m.base.now);
    }
  }

  lemma BarredEvent(c: Config, m: Server, e: Event, j: Token)
    requires ServerInv(c, m) && c.accessTtl <= 86_400 && j in m.base.access && Barred(m.base, m.base.access[j])
    ensures j in Step(c, m, e).base.access && Step(c, m, e).base.access[j] == m.base.access[j]
    ensures Barred(Step(c, m, e).base, m.base.access[j])
  {
    assert j < m.base.next && m.base.access[j].exp <= m.base.now + DAY;
    if e.Whole? {
      BarredStep(c, m.base, e.op, j);
    }
  }

  lemma {:induction false} BarredForGood(c: Config, m: Server, es: seq<Event>, j: Token)
    requires ServerInv(c, m) && c.accessTtl <= 86_400 && j in m.base.access && Barred(m.base, m.base.access[j])
    ensures Barred(RunEvents(c, m, es).base, m.base.access[j])
    decreases |es|
  {
    if es != [] {
      StepKeepsServerInv(c, m, es[0]);
      BarredEvent(c, m, es[0], j);
      BarredForGood(c, Step(c, m, es[0]), es[1..], j);
    }
  }

  /** After a replay, a password reset or a password change no refresh token issued to the user before can be
    redeemed again, whatever overlaps with it and whatever follows; after the first two no access token issued
    before is let in, if those live at most a day. */
  lemma RevokedTokensStayDead(
    c: Config, m0: Server, before: seq<Event>, e: Event, u: UserId, after: seq<Event>, t: Token)
    requires c.Valid() && InitialServer(m0) && Revokes(c, RunEvents(c, m0, before), e, u)
    ensures var m := RunEvents(c, m0, before);
            var end := RunEvents(c, Step(c, m, e), after);
            && (t in m.base.issued && m.base.issued[t] == u ==> !CanRedeem(end.base, t))
            && (RevokesBoth(c, m, e, u) && c.accessTtl <= 86_400 && t in m.base.access && m.base.access[t].user == u ==>
                  !Accepts(end.base, m.base.access[t]))
  {
    ReachableServer(c, m0, before);
    var m := RunEvents(c, m0, before);
    StepKeepsServerInv(c, m, e);
    if t in m.base.issued && m.base.issued[t] == u {
      RevokeLeavesNone(c, m, e, u, t);
      ClosedForGood(c, Step(c, m, e), after, t);
    }
    if RevokesBoth(c, m, e, u) && c.accessTtl <= 86_400 && t in m.base.access && m.base.access[t].user == u {
      RevokeBars(c, m, e, u, t);
      BarredForGood(c, Step(c, m, e), after, t);
    }
  }

  // ---------------------------------------------------------------------------------------------
  // Where pairs come from after a revocation

  // The event hands out a pair for `u`.
  predicate HandsPair(c: Config, m: Server, e: Event, u: UserId) {
    match e
    case Whole(op) => Execute(c, m.base, op).1.Pair? && Execute(c, m.base, op).1.access.user == u
    case Read(_, _) => false
    case Write(r) => InFlightFor(m, r, u)
  }

  // The token that it takes in exchange.
  function Presented(m: Server, e: Event): Option<Token> {
    match e
    case Whole(Refresh(t)) => Some(t)
    case Write(r) => if r in m.flights && m.flights[r].Redeeming? then Some(m.flights[r].token) else None
    case _ => None
  }

  // The request had read before, in `m`, and not written.
  predicate ReadBefore(m: Server, s: Server, r: nat) {
    r in m.flights && r in s.flights && m.flights[r] == s.flights[r]
  }

  // The server `s` after a revocation for `u` in `m`.
  ghost predicate Since(c: Config, m: Server, u: UserId, s: Server) {
    && ServerInv(c, s)
    && (forall t :: t in m.base.issued ==> t in s.base.issued && s.base.issued[t] == m.base.issued[t])
    && (forall t :: t in m.base.issued && m.base.issued[t] == u ==> Closed(s.base, t))
    && (forall r :: InFlightFor(s, r, u) ==> ReadBefore(m, s, r) || s.flights[r].token !in m.base.issued)
  }

  // A request that reads after the revocation reads a token issued since.
  lemma FlightsSince(c: Config, m: Server, u: UserId, s: Server, e: Event, r: nat)
    requires Since(c, m, u, s) && InFlightFor(Step(c, s, e), r, u)
    ensures ReadBefore(m, Step(c, s, e), r) || Step(c, s, e).flights[r].token !in m.base.issued
  {
    if r in s.flights {
      assert InFlightFor(s, r, u) && Step(c, s, e).flights[r] == s.flights[r];
    } else {
      var t := e.t;
      assert CanRedeem(s.base, t) && t in s.base.issued && s.base.issued[t] == u;
      assert !Closed(s.base, t);
    }
  }

  lemma SinceStep(c: Config, m: Server, u: UserId, s: Server, e: Event)
    requires Since(c, m, u, s)
    ensures Since(c, m, u, Step(c, s, e))
  {
    StepKeepsServerInv(c, s, e);
    var s' := Step(c, s, e);
    forall t | t in m.base.issued
      ensures t in s'.base.issued && s'.base.issued[t] == m.base.issued[t]
      ensures m.base.issued[t] == u ==> Closed(s'.base, t)
    {
      IssuedKept(c, s, e, t);
      if m.base.issued[t] == u {
        OldKeyStep(c, s, e, t);
      }
    }
    forall r | InFlightFor(s', r, u) ensures ReadBefore(m, s', r) || s'.flights[r].token !in m.base.issued {
      FlightsSince(c, m, u, s, e, r);
    }
  }

  lemma {:induction false} SinceRun(c: Config, m: Server, u: UserId, s: Server, es: seq<Event>)
    requires Since(c, m, u, s)
    ensures Since(c, m, u, RunEvents(c, s, es))
    decreases |es|
  {
    if es != [] {
      SinceStep(c, m, u, s, es[0]);
      SinceRun(c, m, u, Step(c, s, es[0]), es[1..]);
    }
  }

  lemma SinceBegins(c: Config, m: Server, e: Event, u: UserId)
    requires ServerInv(c, m) && Revokes(c, m, e, u)
    ensures Since(c, m, u, Step(c, m, e))
  {
    StepKeepsServerInv(c, m, e);
    forall t | t in m.base.issued
      ensures t in Step(c, m, e).base.issued && Step(c, m, e).base.issued[t] == m.base.issued[t]
      ensures m.base.issued[t] == u ==> Closed(Step(c, m, e).base, t)
    {
      IssuedKept(c, m, e, t);
      RevokeLeavesNone(c, m, e, u, t);
    }
    assert forall r :: InFlightFor(Step(c, m, e), r, u) ==> ReadBefore(m, Step(c, m, e), r);
  }

  lemma PairsSince(c: Config, m: Server, u: UserId, s: Server, e: Event)
    requires Since(c, m, u, s) && HandsPair(c, s, e, u)
    ensures
      || e == Whole(Login(u))
      || (e.Write? && InFlightFor(m, e.r, u) && ReadBefore(m, s, e.r))
      || (Presented(s, e).Some? && Presented(s, e).value !in m.base.issued)
  {
    if e.Whole? && e.op.Refresh? {
      var t := e.op.t;
      assert CanRedeem(s.base, t) && t in s.base.stores.refresh.keys;
      assert t in s.base.issued && s.base.issued[t] == u;
      assert !Closed(s.base, t);
    }
  }

  /** A pair handed to the user after a revocation comes from a login, or from a request that had read before the
    revocation and writes only now, or in exchange for a token issued since. */
  lemma PairsAfterRevocation(
    c: Config, m0: Server, before: seq<Event>, e: Event, u: UserId, after: seq<Event>, last: Event)
    requires c.Valid() && InitialServer(m0) && Revokes(c, RunEvents(c, m0, before), e, u)
    requires HandsPair(c, RunEvents(c, Step(c, RunEvents(c, m0, before), e), after), last, u)
    ensures var m := RunEvents(c, m0, before);
            var s := RunEvents(c, Step(c, m, e), after);
            || last == Whole(Login(u))
            || (last.Write? && InFlightFor(m, last.r, u) && ReadBefore(m, s, last.r))
            || (Presented(s, last).Some? && Presented(s, last).value !in m.base.issued)
  {
    ReachableServer(c, m0, before);
    var m := RunEvents(c, m0, before);
    SinceBegins(c, m, e, u);
    SinceRun(c, m, u, Step(c, m, e), after);
    PairsSince(c, m, u, RunEvents(c, Step(c, m, e), after), last);
  }

  /** And what such a late request writes lives: its refresh token can be redeemed and its access token is let in. */
  lemma LateWriteEscapes(c: Config, m: Server, r: nat, u: UserId)
    requires ServerInv(c, m) && InFlightFor(m, r, u) && u in m.base.users
    ensures var end := Step(c, m, Write(r));
            && end.flights[r].Ended? && end.flights[r].answer.Pair?
            && CanRedeem(end.base, end.flights[r].answer.refresh)
            && end.base.stores.refresh.keys[end.flights[r].answer.refresh].value.user == u
            && end.flights[r].answer.access.jti in end.base.access
            && end.base.access[end.flights[r].answer.access.jti] == end.flights[r].answer.access
            && end.flights[r].answer.access.user == u && Accepts(end.base, end.flights[r].answer.access)
  {
    assert m.base.next !in m.base.access && m.base.next !in m.base.stores.revocations.keys;
  }

  // ---------------------------------------------------------------------------------------------
  // When a revocation holds

  predicate NoLogin(es: seq<Event>, u: UserId) { forall i :: 0 <= i < |es| ==> es[i] != Whole(Login(u)) }

  predicate SignedOut(s: State, u: UserId) {
    forall t :: t in s.stores.refresh.keys && CanRedeem(s, t) ==> s.stores.refresh.keys[t].value.user != u
  }

  predicate NoneLetIn(s: State, u: UserId) {
    forall j :: j in s.access && s.access[j].user == u ==> !Accepts(s, s.access[j])
  }

  // Until they log in again, the user has no refresh token that works, or no access token.
  ghost predicate StaysSignedOut(c: Config, m: Server, u: UserId) {
    forall es :: NoLogin(es, u) ==> SignedOut(RunEvents(c, m, es).base, u)
  }

  ghost predicate StaysOut(c: Config, m: Server, u: UserId) {
    forall es :: NoLogin(es, u) ==> NoneLetIn(RunEvents(c, m, es).base, u)
  }

  ghost predicate NothingLeft(c: Config, m: Server, u: UserId) {
    && ServerInv(c, m)
    && (forall t :: !HasLiveToken(m.base, t, u))
    && (forall r :: !InFlightFor(m, r, u))
  }

  ghost predicate AllBarred(s: State, u: UserId) {
    forall j :: j in s.access && s.access[j].user == u ==> Barred(s, s.access[j])
  }

  // Refresh keys after a use case: as before, used markers, and the token of a login or of a redemption.
  lemma NoneFromWhole(c: Config, s: State, op: Op, t: Token, u: UserId)
    requires forall p :: op == Refresh(p) ==> !HasLiveToken(s, p, u)
    requires op != Login(u) && !HasLiveToken(s, t, u)
    ensures !HasLiveToken(Execute(c, s, op).0, t, u)
  {
    match op
    case Login(_) =>
    case Refresh(_) =>
    case ConfirmReset(_) =>
    case _ =>
  }

  lemma NothingComes(c: Config, m: Server, u: UserId, e: Event, t: Token)
    requires NothingLeft(c, m, u) && e != Whole(Login(u))
    ensures !HasLiveToken(Step(c, m, e).base, t, u)
  {
    assert !HasLiveToken(m.base, t, u);
    match e
    case Whole(op) => NoneFromWhole(c, m.base, op, t, u);
    case Write(r) => assert !InFlightFor(m, r, u);
    case Read(_, _) =>
  }

  lemma NothingLeftStep(c: Config, m: Server, u: UserId, e: Event)
    requires NothingLeft(c, m, u) && e != Whole(Login(u))
    ensures NothingLeft(c, Step(c, m, e), u)
  {
    StepKeepsServerInv(c, m, e);
    forall t ensures !HasLiveToken(Step(c, m, e).base, t, u) {
      NothingComes(c, m, u, e, t);
    }
    forall r ensures !InFlightFor(Step(c, m, e), r, u) {
      assert !InFlightFor(m, r, u);
      if e.Read? {
        assert !HasLiveToken(m.base, e.t, u);
      }
    }
  }

  // Only a login or a redemption issues an access token to the user.
  lemma NoneIssued(c: Config, m: Server, u: UserId, e: Event, j: Token)
    requires NothingLeft(c, m, u) && e != Whole(Login(u))
    requires j in Step(c, m, e).base.access && Step(c, m, e).base.access[j].user == u
    ensures j in m.base.access && m.base.access[j].user == u
  {
    match e
    case Whole(Refresh(p)) => assert !HasLiveToken(m.base, p, u);
    case Write(r) => assert !InFlightFor(m, r, u);
    case _ =>
  }

  lemma AllBarredStep(c: Config, m: Server, u: UserId, e: Event)
    requires NothingLeft(c, m, u) && AllBarred(m.base, u) && c.accessTtl <= 86_400 && e != Whole(Login(u))
    ensures AllBarred(Step(c, m, e).base, u)
  {
    forall j | j in Step(c, m, e).base.access && Step(c, m, e).base.access[j].user == u
      ensures Barred(Step(c, m, e).base, Step(c, m, e).base.access[j])
    {
      NoneIssued(c, m, u, e, j);
      BarredEvent(c, m, e, j);
    }
  }

  lemma {:induction false} NothingLeftRun(c: Config, m: Server, u: UserId, es: seq<Event>)
    requires NothingLeft(c, m, u) && NoLogin(es, u)
    ensures NothingLeft(c, RunEvents(c, m, es), u)
    ensures AllBarred(m.base, u) && c.accessTtl <= 86_400 ==> AllBarred(RunEvents(c, m, es).base, u)
    decreases |es|
  {
    if es != [] {
      NothingLeftStep(c, m, u, es[0]);
      if AllBarred(m.base, u) && c.accessTtl <= 86_400 {
        AllBarredStep(c, m, u, es[0]);
      }
      assert forall i :: 0 <= i < |es[1..]| ==> es[1..][i] == es[i + 1];
      NothingLeftRun(c, Step(c, m, es[0]), u, es[1..]);
    }
  }

  lemma NothingLeftMeans(c: Config, m: Server, u: UserId)
    requires NothingLeft(c, m, u)
    ensures SignedOut(m.base, u)
    ensures AllBarred(m.base, u) ==> NoneLetIn(m.base, u)
  {
    forall t | t in m.base.stores.refresh.keys && CanRedeem(m.base, t)
      ensures m.base.stores.refresh.keys[t].value.user != u
    {
      assert !HasLiveToken(m.base, t, u);
    }
  }

  // The request in flight writes, to an account that exists.
  lemma InFlightComesBack(c: Config, m: Server, r: nat, u: UserId)
    requires ServerInv(c, m) && InFlightFor(m, r, u)
    ensures !StaysSignedOut(c, m, u) && !StaysOut(c, m, u)
  {
    var es := [Whole(AddUser(u)), Write(r)];
    var m1 := Step(c, m, es[0]);
    StepKeepsServerInv(c, m, es[0]);
    LateWriteEscapes(c, m1, r, u);
    assert es[1..] == [Write(r)] && [Write(r)][1..] == [];
    assert RunEvents(c, m, es) == RunEvents(c, m1, [Write(r)]) == RunEvents(c, Step(c, m1, Write(r)), []);
    assert NoLogin(es, u);
  }

  lemma NothingIsLeft(c: Config, m: Server, e: Event, u: UserId)
    requires ServerInv(c, m) && Revokes(c, m, e, u) && forall r :: r in m.flights ==> !InFlightFor(m, r, u)
    ensures NothingLeft(c, Step(c, m, e), u)
    ensures RevokesBoth(c, m, e, u) && c.accessTtl <= 86_400 ==> AllBarred(Step(c, m, e).base, u)
  {
    StepKeepsServerInv(c, m, e);
    forall t ensures !HasLiveToken(Step(c, m, e).base, t, u) {
      RevokeLeavesNone(c, m, e, u, t);
    }
    if RevokesBoth(c, m, e, u) && c.accessTtl <= 86_400 {
      assert Step(c, m, e).base.access == m.base.access;
      forall j | j in m.base.access && m.base.access[j].user == u ensures Barred(Step(c, m, e).base, m.base.access[j]) {
        RevokeBars(c, m, e, u, j);
      }
    }
  }

  /** A revocation holds, in that the user has no working refresh token until they log in again, and if it was a
    replay or a reset and access tokens live at most a day no working access token either, exactly if no
    request that has read one of the user's tokens has yet to write. */
  lemma RevocationHoldsIff(c: Config, m0: Server, before: seq<Event>, e: Event, u: UserId)
    requires c.Valid() && InitialServer(m0) && Revokes(c, RunEvents(c, m0, before), e, u)
    ensures var m := RunEvents(c, m0, before);
            && (StaysSignedOut(c, Step(c, m, e), u) <==> forall r :: r in m.flights ==> !InFlightFor(m, r, u))
            && (RevokesBoth(c, m, e, u) && c.accessTtl <= 86_400 ==>
                  (StaysOut(c, Step(c, m, e), u) <==> forall r :: r in m.flights ==> !InFlightFor(m, r, u)))
  {
    ReachableServer(c, m0, before);
    var m := RunEvents(c, m0, before);
    var m1 := Step(c, m, e);
    StepKeepsServerInv(c, m, e);
    if r :| r in m.flights && InFlightFor(m, r, u) {
      assert InFlightFor(m1, r, u);
      InFlightComesBack(c, m1, r, u);
    } else {
      NothingIsLeft(c, m, e, u);
      forall es | NoLogin(es, u)
        ensures SignedOut(RunEvents(c, m1, es).base, u)
        ensures RevokesBoth(c, m, e, u) && c.accessTtl <= 86_400 ==> NoneLetIn(RunEvents(c, m1, es).base, u)
      {
        NothingLeftRun(c, m1, u, es);
        NothingLeftMeans(c, RunEvents(c, m1, es), u);
      }
    }
  }
}
